// The state of the simulated ecosystem: the grid of cells, every vegetebob, animal and
// group by identity, the world's per-species population sets and the registry of
// groups; the invariant that keeps these indices consistent; and the cell operations
// that need the world (appeal evaluation, neighbour lookup).
module Ecosystem {
  import opened Constants
  import opened Cells

  /** A vegetebob: its density, its cell and the cached vegetebobs around it (None until computed). */
  datatype Vegetebob = Vegetebob(density: real, cell: Pos, surroundingVegetebobs: Option<seq<VegetebobId>>)

  /** An animal; energy and social attitude are real numbers (hunting divides energy). */
  datatype Animal = Animal(
    species: AnimalKind, deleted: bool, cell: Pos, group: Option<GroupId>,
    energy: real, lifetime: int, socialAttitude: real, age: int)

  /** A herd (of erbasts) or a pride (of carvizes). */
  datatype Group = Group(kind: GroupKind, deleted: bool, individuals: set<AnimalId>, cell: Pos)

  /**
   * The whole simulation state. grid maps each coordinate to its cell; vegetebobOf,
   * animalOf and groupOf hold every entity ever created, by identity; vegetebobs,
   * erbasts and carvizes are the world's population sets; allGroups is the registry of
   * groups in formation order; nextId is the next unused identity.
   */
  datatype World = World(
    rows: int, cols: int,
    grid: map<Pos, Cell>,
    vegetebobOf: map<VegetebobId, Vegetebob>,
    animalOf: map<AnimalId, Animal>,
    groupOf: map<GroupId, Group>,
    vegetebobs: set<VegetebobId>, erbasts: set<AnimalId>, carvizes: set<AnimalId>,
    allGroups: seq<GroupId>,
    nextId: nat)
  {
    function Population(kind: AnimalKind): set<AnimalId>
    {
      match kind
      case Erbast => erbasts
      case Carviz => carvizes
    }

    function WithPopulation(kind: AnimalKind, s: set<AnimalId>): World
    {
      match kind
      case Erbast => this.(erbasts := s)
      case Carviz => this.(carvizes := s)
    }
  }

  /** A cell on the outer ring of a rows x cols grid. */
  predicate IsBoundary(rows: int, cols: int, x: int, y: int)
  {
    x == 0 || x == rows - 1 || y == 0 || y == cols - 1
  }

  predicate InGrid(w: World, p: Pos)
  {
    0 <= p.0 < w.rows && 0 <= p.1 < w.cols
  }

  predicate Interior(w: World, p: Pos)
  {
    InGrid(w, p) && !IsBoundary(w.rows, w.cols, p.0, p.1)
  }

  /** One cell per coordinate of the grid, knowing its coordinate; the outer ring is water. */
  ghost predicate GridShaped(w: World)
  {
    && (forall p :: p in w.grid <==> InGrid(w, p))
    && (forall p :: p in w.grid ==> w.grid[p].x == p.0 && w.grid[p].y == p.1)
    && (forall p :: p in w.grid && IsBoundary(w.rows, w.cols, p.0, p.1) ==> w.grid[p].cellType == Water)
  }

  /** A filled neighbour cache lists exactly the cell's surrounding coordinates. */
  ghost predicate CachesValid(w: World)
  {
    forall p :: p in w.grid ==>
      w.grid[p].surroundingCells == [] || w.grid[p].surroundingCells == SurroundingCoordinates(p.0, p.1)
  }

  /**
   * Every vegetebob of a cell is in the world's population and stands there; every
   * vegetebob of the world stands in an interior cell that lists it; a cell holds at most
   * one vegetebob; cached neighbouring vegetebobs exist.
   */
  ghost predicate VegetationIndexed(w: World)
  {
    && (forall p, v {:trigger v in w.grid[p].vegetebobs} :: p in w.grid && v in w.grid[p].vegetebobs ==>
          v in w.vegetebobs && v in w.vegetebobOf && w.vegetebobOf[v].cell == p)
    && (forall v :: v in w.vegetebobs ==>
          v in w.vegetebobOf && w.vegetebobOf[v].cell in w.grid && Interior(w, w.vegetebobOf[v].cell) &&
          v in w.grid[w.vegetebobOf[v].cell].vegetebobs)
    && (forall p :: p in w.grid ==> |w.grid[p].vegetebobs| <= 1)
    && (forall v, k {:trigger w.vegetebobOf[v].surroundingVegetebobs.value[k]} ::
          (v in w.vegetebobOf && w.vegetebobOf[v].surroundingVegetebobs.Some? &&
           0 <= k < |w.vegetebobOf[v].surroundingVegetebobs.value|) ==>
          w.vegetebobOf[v].surroundingVegetebobs.value[k] in w.vegetebobOf)
  }

  /**
   * Every animal of a cell is in the world's population of its species and stands in that
   * cell; every animal of the world's population is alive, of that species, and listed by
   * the interior cell it stands in.
   */
  ghost predicate AnimalsIndexed(w: World)
  {
    && (forall kind, p, a {:trigger a in w.grid[p].Population(kind)} :: p in w.grid && a in w.grid[p].Population(kind) ==>
          a in w.Population(kind) && a in w.animalOf && w.animalOf[a].cell == p)
    && (forall kind, a {:trigger a in w.Population(kind)} :: a in w.Population(kind) ==>
          a in w.animalOf && w.animalOf[a].species == kind && !w.animalOf[a].deleted &&
          w.animalOf[a].cell in w.grid && Interior(w, w.animalOf[a].cell) &&
          a in w.grid[w.animalOf[a].cell].Population(kind))
  }

  /**
   * The registry lists each group once; a registered group is live and in the group set
   * of its cell; every group in a cell's set is registered, of that kind, and there.
   */
  ghost predicate GroupsPlaced(w: World)
  {
    && (forall i, j :: 0 <= i < j < |w.allGroups| ==> w.allGroups[i] != w.allGroups[j])
    && (forall g :: g in w.allGroups ==>
          g in w.groupOf && !w.groupOf[g].deleted && w.groupOf[g].cell in w.grid &&
          g in w.grid[w.groupOf[g].cell].Groups(w.groupOf[g].kind))
    && (forall kind, p, g {:trigger g in w.grid[p].Groups(kind)} :: p in w.grid && g in w.grid[p].Groups(kind) ==>
          g in w.allGroups && g in w.groupOf && w.groupOf[g].kind == kind && w.groupOf[g].cell == p)
  }

  /**
   * A member of a registered group is a live animal of the group's species that names the
   * group as its own; an animal of the world that names a group is a member of it and the
   * group is registered. (Members of a moving group stand apart while they move one by
   * one, so standing in the group's cell is not part of the invariant.)
   */
  ghost predicate MembershipIndexed(w: World)
  {
    && (forall g, a {:trigger a in w.groupOf[g].individuals} :: g in w.allGroups && g in w.groupOf && a in w.groupOf[g].individuals ==>
          a in w.Population(MemberKind(w.groupOf[g].kind)) && a in w.animalOf &&
          w.animalOf[a].group == Some(g))
    && (forall a :: a in w.animalOf && (a in w.erbasts || a in w.carvizes) && w.animalOf[a].group.Some? ==>
          w.animalOf[a].group.value in w.allGroups && w.animalOf[a].group.value in w.groupOf &&
          a in w.groupOf[w.animalOf[a].group.value].individuals)
  }

  /** Every identity in use is below nextId. */
  ghost predicate IdsBelow(w: World)
  {
    && (forall v :: v in w.vegetebobOf ==> v < w.nextId)
    && (forall a :: a in w.animalOf ==> a < w.nextId)
    && (forall g :: g in w.groupOf ==> g < w.nextId)
  }

  /** The world invariant, kept by every operation of the simulation. */
  ghost predicate Valid(w: World)
  {
    && GridShaped(w)
    && CachesValid(w)
    && VegetationIndexed(w)
    && AnimalsIndexed(w)
    && GroupsPlaced(w)
    && MembershipIndexed(w)
    && IdsBelow(w)
  }

  /** The cell's vegetebob, if any, can be looked up. */
  predicate VegetationKnown(vegetebobOf: map<VegetebobId, Vegetebob>, c: Cell)
  {
    |c.vegetebobs| <= 1 && forall v :: v in c.vegetebobs ==> v in vegetebobOf
  }

  /** In a valid world the vegetebob of every cell can be looked up. */
  lemma VegetationKnownEverywhere(w: World, p: Pos)
    requires Valid(w) && p in w.grid
    ensures VegetationKnown(w.vegetebobOf, w.grid[p])
  {
  }

  /** Density of the cell's vegetebob, or 0 when it has none. */
  function VegetationAppeal(vegetebobOf: map<VegetebobId, Vegetebob>, c: Cell): real
    requires VegetationKnown(vegetebobOf, c)
  {
    if c.vegetebobs == {} then 0.0
    else
      AtMostOneMember(c.vegetebobs);
      var v :| v in c.vegetebobs;
      vegetebobOf[v].density
  }

  /** Cells with the same vegetation of the same densities have the same vegetation appeal. */
  lemma VegetationAppealAgrees(vegetebobOf: map<VegetebobId, Vegetebob>, c: Cell,
                               vegetebobOf': map<VegetebobId, Vegetebob>, d: Cell)
    requires VegetationKnown(vegetebobOf, c) && VegetationKnown(vegetebobOf', d)
    requires c.vegetebobs == d.vegetebobs
    requires forall v :: v in c.vegetebobs ==> vegetebobOf[v].density == vegetebobOf'[v].density
    ensures VegetationAppeal(vegetebobOf, c) == VegetationAppeal(vegetebobOf', d)
  {
    AtMostOneMember(c.vegetebobs);
  }

  /** The appeal of the cell at p agrees with its current population. */
  ghost predicate AppealUpToDate(w: World, p: Pos)
  {
    && p in w.grid && VegetationKnown(w.vegetebobOf, w.grid[p])
    && var c := w.grid[p];
    && c.erbastAppeal == VegetationAppeal(w.vegetebobOf, c) - 10.0 * |c.erbasts| as real - 25.0 * |c.carvizes| as real
    && c.carvizAppeal == 50.0 * |c.erbasts| as real - 10.0 * |c.carvizes| as real
  }

  predicate SameShape(w: World, r: World)
  {
    r.rows == w.rows && r.cols == w.cols && r.nextId == w.nextId
  }

  predicate SameVegetation(w: World, r: World)
  {
    r.vegetebobOf == w.vegetebobOf && r.vegetebobs == w.vegetebobs
  }

  predicate SameAnimals(w: World, r: World)
  {
    r.animalOf == w.animalOf && r.erbasts == w.erbasts && r.carvizes == w.carvizes
  }

  predicate SameGroups(w: World, r: World)
  {
    r.groupOf == w.groupOf && r.allGroups == w.allGroups
  }

  /** A cell whose vegetation, populations and appeal stay as they were keeps an up-to-date appeal. */
  lemma AppealStaysUpToDate(w: World, r: World, p: Pos)
    requires AppealUpToDate(w, p) && p in r.grid && r.vegetebobOf == w.vegetebobOf
    requires var c, d := w.grid[p], r.grid[p];
      && d.vegetebobs == c.vegetebobs && d.erbasts == c.erbasts && d.carvizes == c.carvizes
      && d.erbastAppeal == c.erbastAppeal && d.carvizAppeal == c.carvizAppeal
    ensures AppealUpToDate(r, p)
  {
    VegetationAppealAgrees(w.vegetebobOf, w.grid[p], r.vegetebobOf, r.grid[p]);
  }

  /** r and w agree on everything but the grid. */
  predicate SameBeyondGrid(w: World, r: World)
  {
    SameShape(w, r) && SameVegetation(w, r) && SameAnimals(w, r) && SameGroups(w, r)
  }

  /**
   * Resets both appeal scores of the cell at p and rebuilds them step by step: the density
   * of its vegetebob, if any, then 10 off the erbast appeal and 50 onto the carviz appeal
   * per erbast, then 25 off the erbast appeal and 10 off the carviz appeal per carviz.
   * Only that cell's appeal changes, and a cell whose appeal is already up to date is
   * left as it is, so that evaluating twice with no change in between gives what
   * evaluating once gives.
   */
  method TriggerAppealEvaluation(w: World, p: Pos) returns (r: World)
    requires p in w.grid && VegetationKnown(w.vegetebobOf, w.grid[p])
    ensures p in r.grid && r.grid == w.grid[p := r.grid[p]]
    ensures r.grid[p] == w.grid[p].(erbastAppeal := r.grid[p].erbastAppeal, carvizAppeal := r.grid[p].carvizAppeal)
    ensures var c := w.grid[p];
      && r.grid[p].erbastAppeal == VegetationAppeal(w.vegetebobOf, c) - 10.0 * |c.erbasts| as real - 25.0 * |c.carvizes| as real
      && r.grid[p].carvizAppeal == 50.0 * |c.erbasts| as real - 10.0 * |c.carvizes| as real
    ensures AppealUpToDate(r, p)
    ensures AppealUpToDate(w, p) ==> r == w
    ensures SameBeyondGrid(w, r)
  {
    var c := w.grid[p];
    var erbastAppeal, carvizAppeal := 0.0, 0.0;
    AtMostOneMember(c.vegetebobs);
    if |c.vegetebobs| != 0 {
      var first :| first in c.vegetebobs;
      erbastAppeal := erbastAppeal + w.vegetebobOf[first].density;
    }
    erbastAppeal := erbastAppeal - (|c.erbasts| as real) * 10.0;
    carvizAppeal := carvizAppeal + (|c.erbasts| as real) * 50.0;
    erbastAppeal := erbastAppeal - (|c.carvizes| as real) * 25.0;
    carvizAppeal := carvizAppeal - (|c.carvizes| as real) * 10.0;
    var evaluated := c.(erbastAppeal := erbastAppeal, carvizAppeal := carvizAppeal);
    if AppealUpToDate(w, p) {
      assert evaluated == c;
      assert w.grid[p := evaluated] == w.grid;
    }
    r := w.(grid := w.grid[p := evaluated]);
  }

  /** The neighbour lookup from an interior cell stays inside the grid. */
  lemma InteriorNeighboursInGrid(w: World, p: Pos)
    requires GridShaped(w) && Interior(w, p)
    ensures forall q :: q in SurroundingCoordinates(p.0, p.1) ==> q in w.grid
  {
    SurroundingCoordinatesSpec(p.0, p.1);
  }

  /**
   * Returns the coordinates of the neighbouring cells, computing them only while the
   * cell's cache is empty and storing them there; a filled cache is returned unchanged.
   */
  method GetSurroundingCells(w: World, p: Pos) returns (r: World, cells: seq<Pos>)
    requires p in w.grid
    requires w.grid[p].surroundingCells == [] || w.grid[p].surroundingCells == SurroundingCoordinates(p.0, p.1)
    ensures cells == SurroundingCoordinates(p.0, p.1)
    ensures w.grid[p].surroundingCells != [] ==> r == w
    ensures r.grid == w.grid[p := w.grid[p].(surroundingCells := cells)]
    ensures SameBeyondGrid(w, r)
  {
    cells := w.grid[p].surroundingCells;
    r := w;
    if |cells| == 0 {
      cells := SurroundingCoordinates(p.0, p.1);
      r := w.(grid := w.grid[p := w.grid[p].(surroundingCells := cells)]);
    }
  }

  /** Two cells agree on everything but their animal populations and appeal. */
  predicate SameLayout(c: Cell, d: Cell)
  {
    && c.x == d.x && c.y == d.y && c.cellType == d.cellType && c.vegetebobs == d.vegetebobs
    && c.herds == d.herds && c.prides == d.prides && c.surroundingCells == d.surroundingCells
  }

  /**
   * r is w with the population of kind in the cell at p replaced by s and that cell's
   * appeal re-evaluated; every other cell, and the rest of that cell, are as they were.
   */
  ghost predicate Repopulated(w: World, p: Pos, kind: AnimalKind, s: set<AnimalId>, r: World)
  {
    && p in w.grid && p in r.grid && r.grid == w.grid[p := r.grid[p]]
    && r.grid[p].Population(kind) == s
    && (forall k :: k != kind ==> r.grid[p].Population(k) == w.grid[p].Population(k))
    && SameLayout(w.grid[p], r.grid[p])
    && AppealUpToDate(r, p)
  }

  /** Two group records agree on everything but their members. */
  predicate SamePlace(g: Group, h: Group)
  {
    g.kind == h.kind && g.deleted == h.deleted && g.cell == h.cell
  }

  /**
   * r differs from w at most in the animals' records, where animals stand, the
   * population sets, the cells' appeal and the groups' members.
   */
  ghost predicate OnlyAnimalsChanged(w: World, r: World)
  {
    && r.rows == w.rows && r.cols == w.cols && r.grid.Keys == w.grid.Keys
    && (forall p :: p in w.grid ==> SameLayout(w.grid[p], r.grid[p]))
    && r.vegetebobOf == w.vegetebobOf && r.vegetebobs == w.vegetebobs
    && r.groupOf.Keys == w.groupOf.Keys
    && (forall g :: g in w.groupOf ==> SamePlace(w.groupOf[g], r.groupOf[g]))
    && r.allGroups == w.allGroups && r.nextId >= w.nextId
  }

  lemma GridShapedKept(w: World, r: World)
    requires GridShaped(w) && OnlyAnimalsChanged(w, r)
    ensures GridShaped(r)
  {
  }

  lemma CachesKept(w: World, r: World)
    requires CachesValid(w) && OnlyAnimalsChanged(w, r)
    ensures CachesValid(r)
  {
  }

  lemma VegetationKept(w: World, r: World)
    requires VegetationIndexed(w) && OnlyAnimalsChanged(w, r)
    ensures VegetationIndexed(r)
  {
    forall p | p in r.grid
      ensures r.grid[p].vegetebobs == w.grid[p].vegetebobs
    {
      assert SameLayout(w.grid[p], r.grid[p]);
    }
    forall v | v in r.vegetebobs
      ensures Interior(r, r.vegetebobOf[v].cell)
    {
    }
  }

  lemma GroupsKept(w: World, r: World)
    requires GroupsPlaced(w) && OnlyAnimalsChanged(w, r)
    ensures GroupsPlaced(r)
  {
    forall kind, p | p in r.grid
      ensures r.grid[p].Groups(kind) == w.grid[p].Groups(kind)
    {
      assert SameLayout(w.grid[p], r.grid[p]);
    }
    forall g | g in r.groupOf
      ensures SamePlace(w.groupOf[g], r.groupOf[g])
    {
    }
  }

  /** Identities stay below nextId when the only new animals are ones numbered below the new nextId. */
  lemma IdsKept(w: World, r: World)
    requires IdsBelow(w) && OnlyAnimalsChanged(w, r)
    requires forall b :: b in r.animalOf ==> b in w.animalOf || b < r.nextId
    ensures IdsBelow(r)
  {
  }

  /** The parts of the invariant that do not speak of animals survive a change to animals only. */
  lemma LayoutKept(w: World, r: World)
    requires Valid(w) && OnlyAnimalsChanged(w, r)
    ensures GridShaped(r) && CachesValid(r) && VegetationIndexed(r) && GroupsPlaced(r)
  {
    GridShapedKept(w, r);
    CachesKept(w, r);
    VegetationKept(w, r);
    GroupsKept(w, r);
  }

  /**
   * A new group of kind formed at the cell at cell with the given members: it is live, it
   * joins the end of the registry and the cell's set of groups of its kind.
   */
  method NewGroup(w: World, kind: GroupKind, cell: Pos, individuals: set<AnimalId>) returns (r: World, g: GroupId)
    requires cell in w.grid
    ensures g == w.nextId && r.nextId == w.nextId + 1
    ensures r.groupOf == w.groupOf[g := Group(kind, false, individuals, cell)]
    ensures r.allGroups == w.allGroups + [g]
    ensures r.grid == w.grid[cell := w.grid[cell].WithGroups(kind, w.grid[cell].Groups(kind) + {g})]
    ensures r.rows == w.rows && r.cols == w.cols && SameVegetation(w, r) && SameAnimals(w, r)
  {
    g := w.nextId;
    var c := w.grid[cell];
    r := w.(groupOf := w.groupOf[g := Group(kind, false, individuals, cell)],
            allGroups := w.allGroups + [g],
            grid := w.grid[cell := c.WithGroups(kind, c.Groups(kind) + {g})],
            nextId := w.nextId + 1);
  }

  /** Two animal records agree on species, deletion and cell. */
  predicate SameStanding(an: Animal, bn: Animal)
  {
    an.species == bn.species && an.deleted == bn.deleted && an.cell == bn.cell
  }

  /**
   * Animals stay indexed when no population changes and every animal keeps its species,
   * deletion flag and cell (its energy, age or group may change).
   */
  lemma StandingKeepsAnimalsIndexed(w: World, r: World)
    requires AnimalsIndexed(w)
    requires r.rows == w.rows && r.cols == w.cols && r.grid.Keys == w.grid.Keys
    requires forall k, q :: q in w.grid ==> r.grid[q].Population(k) == w.grid[q].Population(k)
    requires r.erbasts == w.erbasts && r.carvizes == w.carvizes
    requires r.animalOf.Keys == w.animalOf.Keys
    requires forall b :: b in w.animalOf ==> SameStanding(w.animalOf[b], r.animalOf[b])
    ensures AnimalsIndexed(r)
  {
    forall k, q, b | q in r.grid && b in r.grid[q].Population(k)
      ensures b in r.Population(k) && b in r.animalOf && r.animalOf[b].cell == q
    {
      assert b in w.grid[q].Population(k);
    }
    forall k, b | b in r.Population(k)
      ensures b in r.animalOf && r.animalOf[b].species == k && !r.animalOf[b].deleted
      ensures r.animalOf[b].cell in r.grid && Interior(r, r.animalOf[b].cell)
      ensures b in r.grid[r.animalOf[b].cell].Population(k)
    {
      assert b in w.Population(k);
    }
  }

  /** Two vegetebob records agree on cell and neighbour cache. */
  predicate SamePlant(v: Vegetebob, u: Vegetebob)
  {
    v.cell == u.cell && v.surroundingVegetebobs == u.surroundingVegetebobs
  }

  /**
   * r differs from w at most in the animals' energy and age and the vegetebobs' density:
   * no one moves, joins, leaves, is born or dies.
   */
  ghost predicate OnlyAmountsChanged(w: World, r: World)
  {
    && r.rows == w.rows && r.cols == w.cols && r.nextId == w.nextId && r.grid == w.grid
    && r.vegetebobs == w.vegetebobs && r.vegetebobOf.Keys == w.vegetebobOf.Keys
    && (forall v :: v in w.vegetebobOf ==> SamePlant(w.vegetebobOf[v], r.vegetebobOf[v]))
    && r.erbasts == w.erbasts && r.carvizes == w.carvizes
    && r.animalOf.Keys == w.animalOf.Keys
    && (forall b :: b in w.animalOf ==>
          SameStanding(w.animalOf[b], r.animalOf[b]) && r.animalOf[b].group == w.animalOf[b].group)
    && SameGroups(w, r)
  }

  /** Changing amounts only keeps the world valid. */
  lemma AmountsKeepValid(w: World, r: World)
    requires Valid(w) && OnlyAmountsChanged(w, r)
    ensures Valid(r)
  {
    forall q | q in w.grid
      ensures r.grid[q].Population(Erbast) == w.grid[q].Population(Erbast)
      ensures r.grid[q].Population(Carviz) == w.grid[q].Population(Carviz)
    {
    }
    StandingKeepsAnimalsIndexed(w, r);
    AmountsKeepVegetation(w, r);
    AmountsKeepMembership(w, r);
  }

  lemma AmountsKeepVegetation(w: World, r: World)
    requires VegetationIndexed(w) && OnlyAmountsChanged(w, r)
    ensures VegetationIndexed(r)
  {
    forall v | v in r.vegetebobOf
      ensures SamePlant(w.vegetebobOf[v], r.vegetebobOf[v])
    {
    }
  }

  lemma AmountsKeepMembership(w: World, r: World)
    requires MembershipIndexed(w) && OnlyAmountsChanged(w, r)
    ensures MembershipIndexed(r)
  {
    forall b | b in r.animalOf
      ensures r.animalOf[b].group == w.animalOf[b].group
    {
    }
  }

  /**
   * r differs from w only in what the cells derive from the rest: their appeal, and
   * neighbour caches that are either kept or filled with the right coordinates.
   */
  ghost predicate OnlyDerivedChanged(w: World, r: World)
  {
    && r == w.(grid := r.grid) && r.grid.Keys == w.grid.Keys
    && forall q :: q in w.grid ==>
      && r.grid[q] == w.grid[q].(erbastAppeal := r.grid[q].erbastAppeal, carvizAppeal := r.grid[q].carvizAppeal,
                                 surroundingCells := r.grid[q].surroundingCells)
      && (r.grid[q].surroundingCells == w.grid[q].surroundingCells ||
          r.grid[q].surroundingCells == SurroundingCoordinates(q.0, q.1))
  }

  /** Re-evaluating appeal and filling neighbour caches keeps the world valid. */
  lemma DerivedKeepsValid(w: World, r: World)
    requires Valid(w) && OnlyDerivedChanged(w, r)
    ensures Valid(r)
  {
    DerivedKeepsCells(w, r);
    StandingKeepsAnimalsIndexed(w, r);
    DerivedKeepsVegetation(w, r);
    DerivedKeepsGroups(w, r);
  }

  lemma DerivedKeepsCells(w: World, r: World)
    requires GridShaped(w) && CachesValid(w) && OnlyDerivedChanged(w, r)
    ensures GridShaped(r) && CachesValid(r)
    ensures forall q, k :: q in w.grid ==> r.grid[q].Population(k) == w.grid[q].Population(k)
  {
  }

  lemma DerivedKeepsGroups(w: World, r: World)
    requires GroupsPlaced(w) && OnlyDerivedChanged(w, r)
    ensures GroupsPlaced(r)
  {
    forall q, k | q in w.grid
      ensures r.grid[q].Groups(k) == w.grid[q].Groups(k)
    {
    }
  }

  lemma DerivedKeepsVegetation(w: World, r: World)
    requires VegetationIndexed(w) && OnlyDerivedChanged(w, r)
    ensures VegetationIndexed(r)
  {
    forall q | q in w.grid
      ensures r.grid[q].vegetebobs == w.grid[q].vegetebobs
    {
    }
  }

  /** r differs from w only in neighbour caches that were empty and are now filled. */
  ghost predicate OnlyCachesFilled(w: World, r: World)
  {
    && SameBeyondGrid(w, r) && r.grid.Keys == w.grid.Keys
    && forall q :: q in w.grid ==>
      && r.grid[q] == w.grid[q].(surroundingCells := r.grid[q].surroundingCells)
      && (r.grid[q].surroundingCells == w.grid[q].surroundingCells ||
          r.grid[q].surroundingCells == SurroundingCoordinates(q.0, q.1))
  }

  /** Filling caches changes only derived data, and filling them again still does. */
  lemma CachesFilledTrans(w: World, m: World, r: World)
    requires OnlyCachesFilled(w, m) && OnlyCachesFilled(m, r)
    ensures OnlyCachesFilled(w, r)
  {
  }

  /** Filling caches keeps the world valid. */
  lemma CachesFilledKeepValid(w: World, r: World)
    requires Valid(w) && OnlyCachesFilled(w, r)
    ensures Valid(r)
  {
    assert OnlyDerivedChanged(w, r);
    DerivedKeepsValid(w, r);
  }

  /** Filling the neighbour cache of the cell at p fills caches only. */
  lemma NeighbourCacheFilled(w: World, p: Pos, r: World)
    requires p in w.grid && r.grid == w.grid[p := w.grid[p].(surroundingCells := SurroundingCoordinates(p.0, p.1))]
    requires SameBeyondGrid(w, r)
    ensures OnlyCachesFilled(w, r)
  {
  }

  /** Changing only the cells' group sets keeps the cell layout and the vegetation valid. */
  lemma GroupSetsKeepCells(w: World, r: World)
    requires GridShaped(w) && CachesValid(w) && VegetationIndexed(w)
    requires r.rows == w.rows && r.cols == w.cols && SameVegetation(w, r) && r.grid.Keys == w.grid.Keys
    requires forall q :: q in w.grid ==> r.grid[q] == w.grid[q].(herds := r.grid[q].herds, prides := r.grid[q].prides)
    ensures GridShaped(r) && CachesValid(r) && VegetationIndexed(r)
    ensures forall q, k :: q in w.grid ==> r.grid[q].Population(k) == w.grid[q].Population(k)
  {
    GroupSetsKeepLayout(w, r);
    GroupSetsKeepVegetation(w, r);
  }

  /** Changing only the cells' group sets keeps the cell layout and the neighbour caches valid. */
  lemma GroupSetsKeepLayout(w: World, r: World)
    requires GridShaped(w) && CachesValid(w)
    requires r.rows == w.rows && r.cols == w.cols && r.grid.Keys == w.grid.Keys
    requires forall q :: q in w.grid ==> r.grid[q] == w.grid[q].(herds := r.grid[q].herds, prides := r.grid[q].prides)
    ensures GridShaped(r) && CachesValid(r)
  {
  }

  /** Changing only the cells' group sets keeps the vegetation valid and every cell's populations. */
  lemma GroupSetsKeepVegetation(w: World, r: World)
    requires VegetationIndexed(w)
    requires r.rows == w.rows && r.cols == w.cols && SameVegetation(w, r) && r.grid.Keys == w.grid.Keys
    requires forall q :: q in w.grid ==> r.grid[q] == w.grid[q].(herds := r.grid[q].herds, prides := r.grid[q].prides)
    ensures VegetationIndexed(r)
    ensures forall q, k :: q in w.grid ==> r.grid[q].Population(k) == w.grid[q].Population(k)
  {
    forall q | q in w.grid
      ensures r.grid[q].vegetebobs == w.grid[q].vegetebobs
    {
    }
  }
}
