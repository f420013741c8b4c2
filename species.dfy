// The entities of the ecosystem (species.py): vegetebobs, which grow in place, and
// animals -- erbasts and carvizes -- which age, move, form groups, graze, reproduce and
// die.
module Animals {
  import opened Constants
  import opened Cells
  import opened Ecosystem

  /** a is an animal of the world's population of its species. */
  predicate Alive(w: World, a: AnimalId)
  {
    a in w.animalOf && a in w.Population(w.animalOf[a].species)
  }

  /**
   * A live animal stands in an interior cell of known vegetation that lists it, its
   * identity is below nextId, and the group it names, if any, is registered and lists it.
   */
  lemma AliveFacts(w: World, a: AnimalId)
    requires Valid(w) && Alive(w, a)
    ensures var an := w.animalOf[a];
      && an.cell in w.grid && Interior(w, an.cell) && !an.deleted
      && a in w.grid[an.cell].Population(an.species)
      && VegetationKnown(w.vegetebobOf, w.grid[an.cell])
      && a < w.nextId
      && (an.group.Some? ==> an.group.value in w.allGroups && an.group.value in w.groupOf &&
                             a in w.groupOf[an.group.value].individuals)
  {
    VegetationKnownEverywhere(w, w.animalOf[a].cell);
    assert a in w.erbasts || a in w.carvizes by {
      assert w.animalOf[a].species == Erbast || w.animalOf[a].species == Carviz;
    }
  }

  /** Every live animal other than a is still alive in r, of the same species and in the same cell. */
  ghost predicate OthersStay(w: World, r: World, a: AnimalId)
  {
    forall b :: b != a && Alive(w, b) ==>
      Alive(r, b) && r.animalOf[b].species == w.animalOf[b].species && r.animalOf[b].cell == w.animalOf[b].cell
  }

  /** Joins the world's population of its species unless already in it. */
  method AddToWorldPopulationData(w: World, a: AnimalId) returns (r: World)
    requires a in w.animalOf
    ensures var sp := w.animalOf[a].species;
      && r.Population(sp) == w.Population(sp) + {a}
      && (forall kind :: kind != sp ==> r.Population(kind) == w.Population(kind))
    ensures r.grid == w.grid && r.animalOf == w.animalOf
    ensures SameShape(w, r) && SameVegetation(w, r) && SameGroups(w, r)
  {
    var sp := w.animalOf[a].species;
    r := w;
    if a !in w.Population(sp) {
      r := w.WithPopulation(sp, w.Population(sp) + {a});
    }
  }

  /** Leaves the world's population of its species, which must hold it. */
  method RemoveFromWorldPopulationData(w: World, a: AnimalId) returns (r: World)
    requires a in w.animalOf && a in w.Population(w.animalOf[a].species)
    ensures var sp := w.animalOf[a].species;
      && r.Population(sp) == w.Population(sp) - {a}
      && (forall kind :: kind != sp ==> r.Population(kind) == w.Population(kind))
    ensures r.grid == w.grid && r.animalOf == w.animalOf
    ensures SameShape(w, r) && SameVegetation(w, r) && SameGroups(w, r)
  {
    var sp := w.animalOf[a].species;
    r := w.WithPopulation(sp, w.Population(sp) - {a});
  }

  /** Leaves the population of its current cell, which must hold it, and re-evaluates that cell's appeal. */
  method RemoveFromCurrentCell(w: World, a: AnimalId) returns (r: World)
    requires a in w.animalOf && w.animalOf[a].cell in w.grid && VegetationKnown(w.vegetebobOf, w.grid[w.animalOf[a].cell])
    requires a in w.grid[w.animalOf[a].cell].Population(w.animalOf[a].species)
    ensures var p, sp := w.animalOf[a].cell, w.animalOf[a].species;
      Repopulated(w, p, sp, w.grid[p].Population(sp) - {a}, r)
    ensures SameBeyondGrid(w, r)
  {
    var p, sp := w.animalOf[a].cell, w.animalOf[a].species;
    var c := w.grid[p];
    var left := w.(grid := w.grid[p := c.WithPopulation(sp, c.Population(sp) - {a})]);
    r := TriggerAppealEvaluation(left, p);
  }

  /** Joins the population of the cell at target, stands there, and re-evaluates that cell's appeal. */
  method AddToCell(w: World, a: AnimalId, target: Pos) returns (r: World)
    requires a in w.animalOf && target in w.grid && VegetationKnown(w.vegetebobOf, w.grid[target])
    ensures var sp := w.animalOf[a].species;
      Repopulated(w, target, sp, w.grid[target].Population(sp) + {a}, r)
    ensures r.animalOf == w.animalOf[a := w.animalOf[a].(cell := target)]
    ensures r.erbasts == w.erbasts && r.carvizes == w.carvizes
    ensures SameShape(w, r) && SameVegetation(w, r) && SameGroups(w, r)
  {
    var sp := w.animalOf[a].species;
    var c := w.grid[target];
    var joined := w.(grid := w.grid[target := c.WithPopulation(sp, c.Population(sp) + {a})],
                     animalOf := w.animalOf[a := w.animalOf[a].(cell := target)]);
    r := TriggerAppealEvaluation(joined, target);
  }

  /** Replaces the record of a by an and changes nothing else. */
  method UpdateAnimal(w: World, a: AnimalId, an: Animal) returns (r: World)
    ensures r.animalOf == w.animalOf[a := an]
    ensures r.grid == w.grid && r.erbasts == w.erbasts && r.carvizes == w.carvizes
    ensures SameShape(w, r) && SameVegetation(w, r) && SameGroups(w, r)
  {
    r := w.(animalOf := w.animalOf[a := an]);
  }

  /**
   * r is w after a has left its current group, if any: it names no group, the group no
   * longer lists it, and nothing else has changed.
   */
  ghost predicate LeftGroup(w: World, a: AnimalId, r: World)
    requires a in w.animalOf
  {
    && r.animalOf == w.animalOf[a := w.animalOf[a].(group := None)]
    && (w.animalOf[a].group.Some? ==> var g := w.animalOf[a].group.value;
          && g in w.groupOf
          && r.groupOf == w.groupOf[g := w.groupOf[g].(individuals := w.groupOf[g].individuals - {a})])
    && (w.animalOf[a].group.None? ==> r.groupOf == w.groupOf)
    && r.grid == w.grid && r.erbasts == w.erbasts && r.carvizes == w.carvizes && r.allGroups == w.allGroups
    && SameShape(w, r) && SameVegetation(w, r)
  }

  /** Leaves its current group, if any; the group must list it. */
  method RemoveFromCurrentGroup(w: World, a: AnimalId) returns (r: World)
    requires a in w.animalOf
    requires w.animalOf[a].group.Some? ==>
      w.animalOf[a].group.value in w.groupOf && a in w.groupOf[w.animalOf[a].group.value].individuals
    ensures LeftGroup(w, a, r)
  {
    r := w;
    if w.animalOf[a].group.Some? {
      var g := w.animalOf[a].group.value;
      var grp := w.groupOf[g];
      r := r.(groupOf := w.groupOf[g := grp.(individuals := grp.individuals - {a})]);
    }
    r := r.(animalOf := w.animalOf[a := w.animalOf[a].(group := None)]);
  }

  /** Names targetGroup as its group and joins its members. */
  method AddToGroup(w: World, a: AnimalId, targetGroup: GroupId) returns (r: World)
    requires a in w.animalOf && targetGroup in w.groupOf
    ensures r.animalOf == w.animalOf[a := w.animalOf[a].(group := Some(targetGroup))]
    ensures var grp := w.groupOf[targetGroup];
      r.groupOf == w.groupOf[targetGroup := grp.(individuals := grp.individuals + {a})]
    ensures r.grid == w.grid && r.erbasts == w.erbasts && r.carvizes == w.carvizes && r.allGroups == w.allGroups
    ensures SameShape(w, r) && SameVegetation(w, r)
  {
    var grp := w.groupOf[targetGroup];
    r := w.(animalOf := w.animalOf[a := w.animalOf[a].(group := Some(targetGroup))],
            groupOf := w.groupOf[targetGroup := grp.(individuals := grp.individuals + {a})]);
  }

  /** The population of kind in the cell at p once a has gone from its cell to target. */
  ghost function PopulationAfterMove(w: World, a: AnimalId, target: Pos, kind: AnimalKind, p: Pos): set<AnimalId>
    requires a in w.animalOf && p in w.grid
  {
    var s := w.grid[p].Population(kind);
    if kind != w.animalOf[a].species then s
    else if p == target then s + {a}
    else if p == w.animalOf[a].cell then s - {a}
    else s
  }

  /**
   * r is w after a has moved to the cell at target at the cost of one unit of energy: it
   * stands there, it has left the population of its old cell and joined the target's,
   * both cells' appeal is up to date, and nothing else has changed.
   */
  ghost predicate Moved(w: World, a: AnimalId, target: Pos, r: World)
    requires a in w.animalOf
  {
    var an := w.animalOf[a];
    && a in r.animalOf && r.animalOf == w.animalOf[a := an.(energy := an.energy - 1.0, cell := target)]
    && r.grid.Keys == w.grid.Keys
    && (forall kind, p :: p in w.grid ==> r.grid[p].Population(kind) == PopulationAfterMove(w, a, target, kind, p))
    && (forall p :: p in w.grid ==> SameLayout(w.grid[p], r.grid[p]))
    && AppealUpToDate(r, an.cell) && AppealUpToDate(r, target)
    && (forall p :: p in w.grid && p != an.cell && p != target ==> r.grid[p] == w.grid[p])
    && r.erbasts == w.erbasts && r.carvizes == w.carvizes
    && SameShape(w, r) && SameVegetation(w, r) && SameGroups(w, r)
  }

  /**
   * Moves to the cell at target at the cost of one unit of energy: out of the old cell's
   * population and into the target's, with both cells' appeal re-evaluated and nothing
   * else changed. The world stays valid when the target is an interior cell.
   */
  method Move(w: World, a: AnimalId, target: Pos) returns (r: World)
    requires a in w.animalOf && target in w.grid
    requires var an := w.animalOf[a];
      an.cell in w.grid && a in w.grid[an.cell].Population(an.species)
    requires VegetationKnown(w.vegetebobOf, w.grid[w.animalOf[a].cell]) && VegetationKnown(w.vegetebobOf, w.grid[target])
    ensures Moved(w, a, target, r)
  {
    var an := w.animalOf[a];
    var src, sp := an.cell, an.species;
    var tired := UpdateAnimal(w, a, an.(energy := an.energy - 1.0));
    var left := RemoveFromCurrentCell(tired, a);
    r := AddToCell(left, a, target);
    MoveComposed(w, a, target, tired, left, r);
  }

  /** Removing from the old cell and then adding to the target gives the populations of a move. */
  lemma MoveComposed(w: World, a: AnimalId, target: Pos, tired: World, left: World, r: World)
    requires a in w.animalOf && target in w.grid
    requires var p, sp := w.animalOf[a].cell, w.animalOf[a].species;
      p in w.grid && a in w.grid[p].Population(sp)
    requires var an := w.animalOf[a];
      tired.animalOf == w.animalOf[a := an.(energy := an.energy - 1.0)]
    requires tired.grid == w.grid && tired.erbasts == w.erbasts && tired.carvizes == w.carvizes
    requires SameShape(w, tired) && SameVegetation(w, tired) && SameGroups(w, tired)
    requires var p, sp := tired.animalOf[a].cell, tired.animalOf[a].species;
      Repopulated(tired, p, sp, tired.grid[p].Population(sp) - {a}, left)
    requires SameBeyondGrid(tired, left)
    requires var sp := left.animalOf[a].species;
      Repopulated(left, target, sp, left.grid[target].Population(sp) + {a}, r)
    requires r.animalOf == left.animalOf[a := left.animalOf[a].(cell := target)]
    requires r.erbasts == left.erbasts && r.carvizes == left.carvizes
    requires SameShape(left, r) && SameVegetation(left, r) && SameGroups(left, r)
    ensures Moved(w, a, target, r)
  {
    var src, sp := w.animalOf[a].cell, w.animalOf[a].species;
    forall kind, p | p in w.grid
      ensures r.grid[p].Population(kind) == PopulationAfterMove(w, a, target, kind, p)
    {
      if p == target && p == src && kind == sp {
        assert a in w.grid[p].Population(kind);
      }
    }
    if src != target {
      assert r.grid[src] == left.grid[src];
    }
  }

  /** A move to an interior cell keeps the world valid. */
  lemma MoveKeepsValid(w: World, a: AnimalId, target: Pos, r: World)
    requires Valid(w) && Alive(w, a) && Interior(w, target)
    requires Moved(w, a, target, r)
    ensures Valid(r)
  {
    LayoutKept(w, r);
    IdsKept(w, r);
    MoveKeepsAnimalsIndexed(w, a, target, r);
    MoveKeepsMembership(w, a, target, r);
  }

  lemma MoveKeepsAnimalsIndexed(w: World, a: AnimalId, target: Pos, r: World)
    requires AnimalsIndexed(w) && Alive(w, a) && Interior(w, target) && target in w.grid
    requires var an := w.animalOf[a];
      r.animalOf == w.animalOf[a := an.(energy := an.energy - 1.0, cell := target)]
    requires r.grid.Keys == w.grid.Keys
    requires forall kind, p :: p in w.grid ==> r.grid[p].Population(kind) == PopulationAfterMove(w, a, target, kind, p)
    requires r.erbasts == w.erbasts && r.carvizes == w.carvizes && SameShape(w, r)
    ensures AnimalsIndexed(r)
  {
    var sp := w.animalOf[a].species;
    forall kind, p, b | p in r.grid && b in r.grid[p].Population(kind)
      ensures b in r.Population(kind) && b in r.animalOf && r.animalOf[b].cell == p
    {
      assert r.grid[p].Population(kind) == PopulationAfterMove(w, a, target, kind, p);
      if b == a {
        if kind != sp || p != target {
          assert false;
        }
      } else {
        assert b in w.grid[p].Population(kind);
      }
    }
    forall kind, b | b in r.Population(kind)
      ensures b in r.animalOf && r.animalOf[b].species == kind && !r.animalOf[b].deleted
      ensures r.animalOf[b].cell in r.grid && Interior(r, r.animalOf[b].cell)
      ensures b in r.grid[r.animalOf[b].cell].Population(kind)
    {
      assert b in w.Population(kind);
      if b == a {
        assert r.grid[target].Population(kind) == PopulationAfterMove(w, a, target, kind, target);
      } else {
        var q := w.animalOf[b].cell;
        assert b in w.grid[q].Population(kind);
        assert r.grid[q].Population(kind) == PopulationAfterMove(w, a, target, kind, q);
      }
    }
  }

  lemma MoveKeepsMembership(w: World, a: AnimalId, target: Pos, r: World)
    requires MembershipIndexed(w) && a in w.animalOf
    requires var an := w.animalOf[a];
      r.animalOf == w.animalOf[a := an.(energy := an.energy - 1.0, cell := target)]
    requires r.erbasts == w.erbasts && r.carvizes == w.carvizes && SameGroups(w, r)
    ensures MembershipIndexed(r)
  {
    forall b | b in r.animalOf
      ensures r.animalOf[b].group == w.animalOf[b].group
    {
    }
  }

  /** The record of an animal one day older: its age grows by one and every tenth birthday costs AGING energy. */
  function Older(an: Animal): (r: Animal)
    ensures r.age == an.age + 1
    ensures r == an.(age := r.age, energy := r.energy)
  {
    var age := an.age + 1;
    an.(age := age, energy := if age % 10 == 0 then an.energy - AGING else an.energy)
  }

  /** The record after n days of aging. */
  function OlderBy(an: Animal, n: nat): Animal
  {
    if n == 0 then an else Older(OlderBy(an, n - 1))
  }

  /**
   * Over n days an animal ages by n and loses AGING energy once for every multiple of 10
   * its age passes.
   */
  lemma {:induction false} AgingOverDays(an: Animal, n: nat)
    requires an.age >= 0
    ensures OlderBy(an, n).age == an.age + n
    ensures OlderBy(an, n).energy == an.energy - AGING * ((an.age + n) / 10 - an.age / 10) as real
  {
    if n > 0 {
      AgingOverDays(an, n - 1);
      var k := an.age + n;
      if k % 10 == 0 {
        assert k / 10 == (k - 1) / 10 + 1;
      } else {
        assert k / 10 == (k - 1) / 10;
      }
    }
  }

  /** Ten days of aging cost exactly AGING energy. */
  lemma TenDaysCostAging(an: Animal)
    requires an.age >= 0
    ensures OlderBy(an, 10).energy == an.energy - AGING
  {
    AgingOverDays(an, 10);
    assert (an.age + 10) / 10 == an.age / 10 + 1;
  }

  /** Ages a by one day. */
  method IncreaseAge(w: World, a: AnimalId) returns (r: World)
    requires a in w.animalOf
    ensures r.animalOf == w.animalOf[a := Older(w.animalOf[a])]
    ensures r.grid == w.grid && r.erbasts == w.erbasts && r.carvizes == w.carvizes
    ensures SameShape(w, r) && SameVegetation(w, r) && SameGroups(w, r)
    ensures OnlyAmountsChanged(w, r)
  {
    var an := w.animalOf[a];
    var age := an.age + 1;
    var energy := an.energy;
    if age % 10 == 0 {
      energy := energy - AGING;
    }
    r := w.(animalOf := w.animalOf[a := an.(age := age, energy := energy)]);
  }

  /**
   * The outcome of the best-cell scan from the cell at cur over the neighbours in cells:
   * when some non-water neighbour has an appeal of at least the current cell's plus 50,
   * best is a non-water neighbour of greatest appeal (at least the current cell's plus 50),
   * the last such in cells; otherwise best is the current cell.
   */
  ghost predicate BestCell(grid: map<Pos, Cell>, kind: AnimalKind, cur: Pos, cells: seq<Pos>, best: Pos)
    requires cur in grid && forall q :: q in cells ==> q in grid
  {
    var bar := grid[cur].Appeal(kind) + 50.0;
    if exists q :: q in cells && grid[q].cellType != Water && grid[q].Appeal(kind) >= bar then
      && best in cells && grid[best].cellType != Water && grid[best].Appeal(kind) >= bar
      && (forall q :: q in cells && grid[q].cellType != Water ==> grid[q].Appeal(kind) <= grid[best].Appeal(kind))
      && exists i :: 0 <= i < |cells| && cells[i] == best && LastOfBest(grid, kind, cells, i)
    else
      best == cur
  }

  /** No non-water cell of cells after position i has an appeal as high as that of cells[i]. */
  ghost predicate LastOfBest(grid: map<Pos, Cell>, kind: AnimalKind, cells: seq<Pos>, i: int)
    requires 0 <= i < |cells| && forall q :: q in cells ==> q in grid
  {
    forall j :: i < j < |cells| && grid[cells[j]].cellType != Water ==> grid[cells[j]].Appeal(kind) < grid[cells[i]].Appeal(kind)
  }

  /** The outcome of the best-cell scan is determined by the grid, the kind and the cells. */
  lemma BestCellUnique(grid: map<Pos, Cell>, kind: AnimalKind, cur: Pos, cells: seq<Pos>, best: Pos, best': Pos)
    requires cur in grid && forall q :: q in cells ==> q in grid
    requires BestCell(grid, kind, cur, cells, best) && BestCell(grid, kind, cur, cells, best')
    ensures best == best'
  {
    var bar := grid[cur].Appeal(kind) + 50.0;
    if exists q :: q in cells && grid[q].cellType != Water && grid[q].Appeal(kind) >= bar {
      var i :| 0 <= i < |cells| && cells[i] == best && LastOfBest(grid, kind, cells, i);
      var i' :| 0 <= i' < |cells| && cells[i'] == best' && LastOfBest(grid, kind, cells, i');
      assert i == i';
    }
  }

  /**
   * Looks through cells for a better cell than the one at cur, which a neighbour beats
   * only with an appeal at least 50 above it; a later non-water cell of at least the best
   * appeal so far replaces it.
   */
  method ScanForBestCell(grid: map<Pos, Cell>, kind: AnimalKind, cur: Pos, cells: seq<Pos>) returns (best: Pos)
    requires cur in grid && cur !in cells && forall q :: q in cells ==> q in grid
    ensures BestCell(grid, kind, cur, cells, best)
  {
    best := cur;
    var bar := grid[cur].Appeal(kind) + 50.0;
    var i := 0;
    ghost var at := 0;
    while i < |cells|
      invariant 0 <= i <= |cells|
      invariant best == cur || (best in cells[..i] && grid[best].cellType != Water && grid[best].Appeal(kind) >= bar)
      invariant best == cur ==> forall q :: q in cells[..i] && grid[q].cellType != Water ==> grid[q].Appeal(kind) < bar
      invariant best != cur ==> forall q :: q in cells[..i] && grid[q].cellType != Water ==>
                                  grid[q].Appeal(kind) <= grid[best].Appeal(kind)
      invariant best != cur ==>
        && 0 <= at < i && cells[at] == best
        && forall j :: at < j < i && grid[cells[j]].cellType != Water ==> grid[cells[j]].Appeal(kind) < grid[best].Appeal(kind)
    {
      var c := cells[i];
      var bestAppeal := grid[best].Appeal(kind);
      if best == cur {
        bestAppeal := bestAppeal + 50.0;
      }
      if grid[c].Appeal(kind) >= bestAppeal && grid[c].cellType != Water {
        best, at := c, i;
      }
      assert cells[..i + 1] == cells[..i] + [c];
      i := i + 1;
    }
    assert cells[..i] == cells;
    assert best != cur ==> LastOfBest(grid, kind, cells, at);
  }

  /**
   * The best-cell scan of a from its cell over the neighbouring cells, filling the
   * neighbour cache of its cell on the way.
   */
  method GetBestCellInNeighborhood(w: World, a: AnimalId) returns (r: World, best: Pos)
    requires a in w.animalOf && w.animalOf[a].cell in w.grid
    requires var p := w.animalOf[a].cell;
      && (w.grid[p].surroundingCells == [] || w.grid[p].surroundingCells == SurroundingCoordinates(p.0, p.1))
      && forall q :: q in SurroundingCoordinates(p.0, p.1) ==> q in w.grid
    ensures var p := w.animalOf[a].cell;
      && BestCell(w.grid, w.animalOf[a].species, p, SurroundingCoordinates(p.0, p.1), best)
      && r.grid == w.grid[p := w.grid[p].(surroundingCells := SurroundingCoordinates(p.0, p.1))]
    ensures SameBeyondGrid(w, r)
  {
    var cur := w.animalOf[a].cell;
    var cells;
    r, cells := GetSurroundingCells(w, cur);
    SurroundingCoordinatesSpec(cur.0, cur.1);
    best := ScanForBestCell(w.grid, w.animalOf[a].species, cur, cells);
  }

  /**
   * Decides whether a moves: the best-cell scan runs (filling the neighbour cache of its
   * cell) but its outcome is not used, so a moves exactly when its energy is at least 4.
   */
  method DecideToMove(w: World, a: AnimalId) returns (r: World, moves: bool)
    requires a in w.animalOf && w.animalOf[a].cell in w.grid
    requires var p := w.animalOf[a].cell;
      && (w.grid[p].surroundingCells == [] || w.grid[p].surroundingCells == SurroundingCoordinates(p.0, p.1))
      && forall q :: q in SurroundingCoordinates(p.0, p.1) ==> q in w.grid
    ensures moves <==> w.animalOf[a].energy >= 4.0
    ensures var p := w.animalOf[a].cell;
      r.grid == w.grid[p := w.grid[p].(surroundingCells := SurroundingCoordinates(p.0, p.1))]
    ensures SameBeyondGrid(w, r)
  {
    var best;
    r, best := GetBestCellInNeighborhood(w, a);
    if w.animalOf[a].energy < 4.0 {
      return r, false;
    }
    moves := true;
  }

  /**
   * An erbast grazes the vegetebob of its cell, if it has one of positive density: the
   * density falls by one and the erbast's energy rises by one; the cell's appeal is not
   * re-evaluated. Otherwise nothing changes.
   */
  method Graze(w: World, a: AnimalId) returns (r: World)
    requires a in w.animalOf && w.animalOf[a].cell in w.grid
    requires VegetationKnown(w.vegetebobOf, w.grid[w.animalOf[a].cell])
    ensures var c := w.grid[w.animalOf[a].cell];
      if exists v :: v in c.vegetebobs && w.vegetebobOf[v].density > 0.0 then
        exists v :: v in c.vegetebobs && w.vegetebobOf[v].density > 0.0
          && r.vegetebobOf == w.vegetebobOf[v := w.vegetebobOf[v].(density := w.vegetebobOf[v].density - 1.0)]
          && r.animalOf == w.animalOf[a := w.animalOf[a].(energy := w.animalOf[a].energy + 1.0)]
          && r.vegetebobOf[v].density + r.animalOf[a].energy == w.vegetebobOf[v].density + w.animalOf[a].energy
      else
        r == w
    ensures r.grid == w.grid && r.vegetebobs == w.vegetebobs && r.erbasts == w.erbasts && r.carvizes == w.carvizes
    ensures SameShape(w, r) && SameGroups(w, r)
    ensures OnlyAmountsChanged(w, r)
  {
    r := w;
    var c := w.grid[w.animalOf[a].cell];
    if |c.vegetebobs| != 0 {
      AtMostOneMember(c.vegetebobs);
      var v :| v in c.vegetebobs;
      var veg := w.vegetebobOf[v];
      if veg.density > 0.0 {
        var an := w.animalOf[a];
        r := w.(vegetebobOf := w.vegetebobOf[v := veg.(density := veg.density - 1.0)],
                animalOf := w.animalOf[a := an.(energy := an.energy + 1.0)]);
        FedAmounts(w, v, a, veg.density - 1.0, an.energy + 1.0, r);
        assert r.vegetebobOf[v].density + r.animalOf[a].energy == veg.density + an.energy;
      } else {
        assert forall u :: u in c.vegetebobs ==> u == v;
      }
    }
  }

  /** Setting one density and one energy changes amounts only. */
  lemma FedAmounts(w: World, v: VegetebobId, a: AnimalId, density: real, energy: real, r: World)
    requires v in w.vegetebobOf && a in w.animalOf
    requires r == w.(vegetebobOf := w.vegetebobOf[v := w.vegetebobOf[v].(density := density)],
                     animalOf := w.animalOf[a := w.animalOf[a].(energy := energy)])
    ensures OnlyAmountsChanged(w, r)
  {
  }

  /**
   * r is w after a has been deleted: it is marked deleted, has left the population of its
   * cell (whose appeal is re-evaluated), the world's population of its species and its
   * group, and names no group; nothing else has changed.
   */
  ghost predicate Deleted(w: World, a: AnimalId, r: World)
    requires a in w.animalOf
  {
    var an := w.animalOf[a];
    var p, sp := an.cell, an.species;
    && r.animalOf == w.animalOf[a := an.(deleted := true, group := None)]
    && p in w.grid && Repopulated(w, p, sp, w.grid[p].Population(sp) - {a}, r)
    && r.Population(sp) == w.Population(sp) - {a}
    && r.Population(OtherKind(sp)) == w.Population(OtherKind(sp))
    && (an.group.Some? ==>
          && an.group.value in w.groupOf
          && r.groupOf == w.groupOf[an.group.value := w.groupOf[an.group.value].(individuals := w.groupOf[an.group.value].individuals - {a})])
    && (an.group.None? ==> r.groupOf == w.groupOf)
    && r.allGroups == w.allGroups && SameShape(w, r) && SameVegetation(w, r)
  }

  /**
   * Deletes a: marks it deleted, takes it out of its cell's population, out of the world's
   * population of its species and out of its group. Each must hold it.
   */
  method Delete(w: World, a: AnimalId) returns (r: World)
    requires a in w.animalOf && w.animalOf[a].cell in w.grid && VegetationKnown(w.vegetebobOf, w.grid[w.animalOf[a].cell])
    requires a in w.grid[w.animalOf[a].cell].Population(w.animalOf[a].species)
    requires a in w.Population(w.animalOf[a].species)
    requires w.animalOf[a].group.Some? ==>
      w.animalOf[a].group.value in w.groupOf && a in w.groupOf[w.animalOf[a].group.value].individuals
    ensures Deleted(w, a, r)
  {
    var an := w.animalOf[a];
    var marked := UpdateAnimal(w, a, an.(deleted := true));
    var left := RemoveFromCurrentCell(marked, a);
    var gone := RemoveFromWorldPopulationData(left, a);
    r := RemoveFromCurrentGroup(gone, a);
    DeleteComposed(w, a, marked, left, gone, r);
  }

  /** The four steps of a deletion compose to Deleted. */
  lemma DeleteComposed(w: World, a: AnimalId, marked: World, left: World, gone: World, r: World)
    requires a in w.animalOf && w.animalOf[a].cell in w.grid
    requires w.animalOf[a].group.Some? ==> w.animalOf[a].group.value in w.groupOf
    requires var an := w.animalOf[a];
      marked.animalOf == w.animalOf[a := an.(deleted := true)]
    requires marked.grid == w.grid && marked.erbasts == w.erbasts && marked.carvizes == w.carvizes
    requires SameShape(w, marked) && SameVegetation(w, marked) && SameGroups(w, marked)
    requires var p, sp := marked.animalOf[a].cell, marked.animalOf[a].species;
      Repopulated(marked, p, sp, marked.grid[p].Population(sp) - {a}, left)
    requires SameBeyondGrid(marked, left)
    requires var sp := left.animalOf[a].species;
      && gone.Population(sp) == left.Population(sp) - {a}
      && (forall kind :: kind != sp ==> gone.Population(kind) == left.Population(kind))
    requires gone.grid == left.grid && gone.animalOf == left.animalOf
    requires SameShape(left, gone) && SameVegetation(left, gone) && SameGroups(left, gone)
    requires LeftGroup(gone, a, r)
    ensures Deleted(w, a, r)
  {
    var sp := w.animalOf[a].species;
    assert gone.Population(OtherKind(sp)) == left.Population(OtherKind(sp));
  }

  /** Deleting a live animal keeps the world valid. */
  lemma DeleteKeepsValid(w: World, a: AnimalId, r: World)
    requires Valid(w) && Alive(w, a) && Deleted(w, a, r)
    ensures Valid(r)
  {
    DeleteChangesOnlyAnimals(w, a, r);
    LayoutKept(w, r);
    IdsKept(w, r);
    DeleteKeepsAnimalsIndexed(w, a, r);
    DeleteKeepsMembership(w, a, r);
  }

  lemma DeleteChangesOnlyAnimals(w: World, a: AnimalId, r: World)
    requires a in w.animalOf && Deleted(w, a, r)
    ensures OnlyAnimalsChanged(w, r)
  {
    var an := w.animalOf[a];
    forall p | p in w.grid
      ensures SameLayout(w.grid[p], r.grid[p])
    {
    }
    forall g | g in w.groupOf
      ensures g in r.groupOf && SamePlace(w.groupOf[g], r.groupOf[g])
    {
    }
  }

  lemma DeleteKeepsAnimalsIndexed(w: World, a: AnimalId, r: World)
    requires AnimalsIndexed(w) && Alive(w, a) && Deleted(w, a, r)
    ensures AnimalsIndexed(r)
  {
    var src, sp := w.animalOf[a].cell, w.animalOf[a].species;
    forall kind, p, b | p in r.grid && b in r.grid[p].Population(kind)
      ensures b in r.Population(kind) && b in r.animalOf && r.animalOf[b].cell == p
    {
      assert b in w.grid[p].Population(kind);
      if b == a {
        assert false;
      }
    }
    forall kind, b | b in r.Population(kind)
      ensures b in r.animalOf && r.animalOf[b].species == kind && !r.animalOf[b].deleted
      ensures r.animalOf[b].cell in r.grid && Interior(r, r.animalOf[b].cell)
      ensures b in r.grid[r.animalOf[b].cell].Population(kind)
    {
      assert b in w.Population(kind) && b != a;
    }
  }

  lemma DeleteKeepsMembership(w: World, a: AnimalId, r: World)
    requires MembershipIndexed(w) && AnimalsIndexed(w) && Alive(w, a) && Deleted(w, a, r)
    ensures MembershipIndexed(r)
  {
    var an := w.animalOf[a];
    forall g, b | g in r.allGroups && g in r.groupOf && b in r.groupOf[g].individuals
      ensures b in r.Population(MemberKind(r.groupOf[g].kind)) && b in r.animalOf && r.animalOf[b].group == Some(g)
    {
      assert b in w.groupOf[g].individuals;
      if b == a {
        assert false;
      }
    }
    forall b | b in r.animalOf && (b in r.erbasts || b in r.carvizes) && r.animalOf[b].group.Some?
      ensures r.animalOf[b].group.value in r.allGroups && r.animalOf[b].group.value in r.groupOf
      ensures b in r.groupOf[r.animalOf[b].group.value].individuals
    {
      assert b != a;
    }
  }

  /**
   * The record of a newborn animal of kind standing at spawn: alive, in no group, of age 0,
   * with a whole energy in [1, MAX_ENERGY], a lifetime in [1, MAX_LIFE] and a social
   * attitude in [0, 1].
   */
  predicate Newborn(an: Animal, kind: AnimalKind, spawn: Pos)
  {
    && an.species == kind && !an.deleted && an.cell == spawn && an.group == None && an.age == 0
    && 1.0 <= an.energy <= MAX_ENERGY as real && an.energy == an.energy.Floor as real
    && 1 <= an.lifetime <= MAX_LIFE
    && 0.0 <= an.socialAttitude <= 1.0
  }

  /**
   * r is w after an animal of kind has been born at spawn under the identity nextId: its
   * record is a newborn's, it has joined the population of the cell at spawn (whose appeal
   * is re-evaluated) and the world's population of kind, nextId has moved on by one, and
   * nothing else has changed.
   */
  ghost predicate Born(w: World, kind: AnimalKind, spawn: Pos, r: World)
  {
    var a := w.nextId;
    && a in r.animalOf && r.animalOf == w.animalOf[a := r.animalOf[a]]
    && Newborn(r.animalOf[a], kind, spawn)
    && spawn in w.grid && Repopulated(w, spawn, kind, w.grid[spawn].Population(kind) + {a}, r)
    && r.Population(kind) == w.Population(kind) + {a}
    && r.Population(OtherKind(kind)) == w.Population(OtherKind(kind))
    && r.rows == w.rows && r.cols == w.cols && r.nextId == w.nextId + 1
    && SameVegetation(w, r) && SameGroups(w, r)
  }

  /**
   * A new animal of kind at spawn, with a random whole energy in [1, MAX_ENERGY], a random
   * lifetime in [1, MAX_LIFE] and a random social attitude in [0, 1]: it joins the cell's
   * population, then the world's.
   */
  method NewAnimal(w: World, kind: AnimalKind, spawn: Pos) returns (r: World, a: AnimalId)
    requires spawn in w.grid && VegetationKnown(w.vegetebobOf, w.grid[spawn])
    ensures a == w.nextId && Born(w, kind, spawn, r)
  {
    a := w.nextId;
    var energy: int :| 1 <= energy <= MAX_ENERGY;
    var lifetime: int :| 1 <= lifetime <= MAX_LIFE;
    var attitude: real :| 0.0 <= attitude <= 1.0;
    var an := Animal(kind, false, spawn, None, energy as real, lifetime, attitude, 0);
    var made := w.(animalOf := w.animalOf[a := an], nextId := w.nextId + 1);
    var placed := AddToCell(made, a, spawn);
    r := AddToWorldPopulationData(placed, a);
    assert r.Population(OtherKind(kind)) == placed.Population(OtherKind(kind));
  }

  /** A birth in an interior cell keeps the world valid, and the newborn is alive. */
  lemma NewAnimalKeepsValid(w: World, kind: AnimalKind, spawn: Pos, r: World)
    requires Valid(w) && Interior(w, spawn) && Born(w, kind, spawn, r)
    ensures Valid(r) && Alive(r, w.nextId)
  {
    BornChangesOnlyAnimals(w, kind, spawn, r);
    LayoutKept(w, r);
    IdsKept(w, r);
    BornKeepsAnimalsIndexed(w, kind, spawn, r);
    BornKeepsMembership(w, kind, spawn, r);
  }

  lemma BornChangesOnlyAnimals(w: World, kind: AnimalKind, spawn: Pos, r: World)
    requires Born(w, kind, spawn, r)
    ensures OnlyAnimalsChanged(w, r)
  {
    forall p | p in w.grid
      ensures SameLayout(w.grid[p], r.grid[p])
    {
    }
  }

  lemma BornKeepsAnimalsIndexed(w: World, kind: AnimalKind, spawn: Pos, r: World)
    requires AnimalsIndexed(w) && IdsBelow(w) && Interior(w, spawn) && Born(w, kind, spawn, r)
    ensures AnimalsIndexed(r)
  {
    BornKeepsCellsIndexed(w, kind, spawn, r);
    BornKeepsPopulationsIndexed(w, kind, spawn, r);
  }

  lemma BornKeepsCellsIndexed(w: World, kind: AnimalKind, spawn: Pos, r: World)
    requires AnimalsIndexed(w) && IdsBelow(w) && Born(w, kind, spawn, r)
    ensures forall k, p, b {:trigger b in r.grid[p].Population(k)} :: p in r.grid && b in r.grid[p].Population(k) ==>
              b in r.Population(k) && b in r.animalOf && r.animalOf[b].cell == p
  {
    forall k, p, b | p in r.grid && b in r.grid[p].Population(k)
      ensures b in r.Population(k) && b in r.animalOf && r.animalOf[b].cell == p
    {
      BornCellMember(w, kind, spawn, r, k, p, b);
    }
  }

  /** An animal of a cell after a birth is the newborn, or was there before. */
  lemma BornCellMember(w: World, kind: AnimalKind, spawn: Pos, r: World, k: AnimalKind, p: Pos, b: AnimalId)
    requires AnimalsIndexed(w) && IdsBelow(w) && Born(w, kind, spawn, r)
    requires p in r.grid && b in r.grid[p].Population(k)
    ensures b in r.Population(k) && b in r.animalOf && r.animalOf[b].cell == p
  {
    if !(p == spawn && k == kind && b == w.nextId) {
      assert b in w.grid[p].Population(k);
    }
  }

  lemma BornKeepsPopulationsIndexed(w: World, kind: AnimalKind, spawn: Pos, r: World)
    requires AnimalsIndexed(w) && IdsBelow(w) && Interior(w, spawn) && Born(w, kind, spawn, r)
    ensures forall k, b {:trigger b in r.Population(k)} :: b in r.Population(k) ==>
              b in r.animalOf && r.animalOf[b].species == k && !r.animalOf[b].deleted &&
              r.animalOf[b].cell in r.grid && Interior(r, r.animalOf[b].cell) &&
              b in r.grid[r.animalOf[b].cell].Population(k)
  {
    var a := w.nextId;
    forall k, b | b in r.Population(k)
      ensures b in r.animalOf && r.animalOf[b].species == k && !r.animalOf[b].deleted
      ensures r.animalOf[b].cell in r.grid && Interior(r, r.animalOf[b].cell)
      ensures b in r.grid[r.animalOf[b].cell].Population(k)
    {
      assert k == kind || k == OtherKind(kind);
      if b != a {
        assert b in w.Population(k);
      }
    }
  }

  lemma BornKeepsMembership(w: World, kind: AnimalKind, spawn: Pos, r: World)
    requires MembershipIndexed(w) && IdsBelow(w) && Born(w, kind, spawn, r)
    ensures MembershipIndexed(r)
  {
    var a := w.nextId;
    assert r.erbasts + r.carvizes == w.erbasts + w.carvizes + {a} by {
      assert kind == Erbast || kind == Carviz;
    }
    forall g, b | g in r.allGroups && g in r.groupOf && b in r.groupOf[g].individuals
      ensures b in r.Population(MemberKind(r.groupOf[g].kind)) && b in r.animalOf && r.animalOf[b].group == Some(g)
    {
      assert b in w.animalOf;
      assert MemberKind(r.groupOf[g].kind) == kind || MemberKind(r.groupOf[g].kind) == OtherKind(kind);
    }
  }

  /**
   * a may spawn: when its group has fewer than MAX_GROUP members an animal of its species is
   * born in its cell, otherwise nothing changes.
   */
  ghost predicate Spawned(w: World, a: AnimalId, r: World)
    requires a in w.animalOf && w.animalOf[a].group.Some? && w.animalOf[a].group.value in w.groupOf
  {
    var an := w.animalOf[a];
    if |w.groupOf[an.group.value].individuals| < MAX_GROUP then Born(w, an.species, an.cell, r)
    else r == w
  }

  /** Spawns an animal of its own species in its cell while its group has fewer than MAX_GROUP members. */
  method SpawnOffspring(w: World, a: AnimalId) returns (r: World)
    requires a in w.animalOf && w.animalOf[a].group.Some? && w.animalOf[a].group.value in w.groupOf
    requires w.animalOf[a].cell in w.grid && VegetationKnown(w.vegetebobOf, w.grid[w.animalOf[a].cell])
    ensures Spawned(w, a, r)
  {
    var an := w.animalOf[a];
    r := w;
    if |w.groupOf[an.group.value].individuals| < MAX_GROUP {
      var child;
      r, child := NewAnimal(w, an.species, an.cell);
    }
  }

  /** Spawning keeps the world valid and leaves the parent's record and every group as they were. */
  lemma SpawnKeepsValid(w: World, a: AnimalId, r: World)
    requires Valid(w) && Alive(w, a) && w.animalOf[a].group.Some? && w.animalOf[a].group.value in w.groupOf
    requires Spawned(w, a, r)
    ensures Valid(r) && Alive(r, a) && r.animalOf[a] == w.animalOf[a]
  {
    var an := w.animalOf[a];
    if |w.groupOf[an.group.value].individuals| < MAX_GROUP {
      AliveFacts(w, a);
      NewAnimalKeepsValid(w, an.species, an.cell, r);
      BornKeepsOthers(w, an.species, an.cell, r, a);
    }
  }

  /** A birth leaves every existing animal's record and population membership as it was. */
  lemma BornKeepsOthers(w: World, kind: AnimalKind, spawn: Pos, r: World, b: AnimalId)
    requires Born(w, kind, spawn, r) && b in w.animalOf && b < w.nextId
    ensures b in r.animalOf && r.animalOf[b] == w.animalOf[b]
    ensures forall k :: b in w.Population(k) ==> b in r.Population(k)
  {
    forall k | b in w.Population(k)
      ensures b in r.Population(k)
    {
      assert k == kind || k == OtherKind(kind);
    }
  }

  /**
   * a has reached its lifetime: it spawns twice and is deleted. Each spawn needs its group
   * and the deletion needs a to stand in its cell, in the world's population and in its
   * group.
   */
  method DieFromLifetime(w: World, a: AnimalId) returns (r: World, ghost first: World, ghost second: World)
    requires a in w.animalOf && a < w.nextId
    requires w.animalOf[a].group.Some? && w.animalOf[a].group.value in w.groupOf
    requires a in w.groupOf[w.animalOf[a].group.value].individuals
    requires w.animalOf[a].cell in w.grid && VegetationKnown(w.vegetebobOf, w.grid[w.animalOf[a].cell])
    requires a in w.grid[w.animalOf[a].cell].Population(w.animalOf[a].species)
    requires a in w.Population(w.animalOf[a].species)
    ensures Spawned(w, a, first) && first.animalOf[a] == w.animalOf[a]
    ensures Spawned(first, a, second) && second.animalOf[a] == w.animalOf[a]
    ensures Deleted(second, a, r)
  {
    var once := SpawnOffspring(w, a);
    SpawnStep(w, a, once);
    var twice := SpawnOffspring(once, a);
    SpawnStep(once, a, twice);
    r := Delete(twice, a);
    first, second := once, twice;
  }

  /** A spawn leaves the parent where it was: same record, same cell and world populations, same groups. */
  lemma SpawnStep(w: World, a: AnimalId, r: World)
    requires a in w.animalOf && a < w.nextId
    requires w.animalOf[a].group.Some? && w.animalOf[a].group.value in w.groupOf
    requires w.animalOf[a].cell in w.grid && VegetationKnown(w.vegetebobOf, w.grid[w.animalOf[a].cell])
    requires Spawned(w, a, r)
    ensures a in r.animalOf && r.animalOf[a] == w.animalOf[a] && a < r.nextId && r.groupOf == w.groupOf
    ensures var p := w.animalOf[a].cell;
      && p in r.grid && VegetationKnown(r.vegetebobOf, r.grid[p])
      && (forall k :: a in w.grid[p].Population(k) ==> a in r.grid[p].Population(k))
    ensures forall k :: a in w.Population(k) ==> a in r.Population(k)
  {
    var an := w.animalOf[a];
    if |w.groupOf[an.group.value].individuals| < MAX_GROUP {
      BornKeepsOthers(w, an.species, an.cell, r, a);
      forall k | a in w.grid[an.cell].Population(k)
        ensures a in r.grid[an.cell].Population(k)
      {
        assert k == an.species || k == OtherKind(an.species);
      }
    }
  }

  /**
   * An animal that reaches its lifetime leaves two newborns of its species in its cell when
   * its group has fewer than MAX_GROUP members, and none otherwise: its group does not change
   * between the two spawns, so either both happen or neither does.
   */
  lemma {:induction false} LifetimeOffspring(w: World, a: AnimalId, first: World, second: World)
    requires a in w.animalOf && a < w.nextId
    requires w.animalOf[a].group.Some? && w.animalOf[a].group.value in w.groupOf
    requires w.animalOf[a].cell in w.grid && VegetationKnown(w.vegetebobOf, w.grid[w.animalOf[a].cell])
    requires Spawned(w, a, first) && first.animalOf[a] == w.animalOf[a] && Spawned(first, a, second)
    ensures var an := w.animalOf[a];
      if |w.groupOf[an.group.value].individuals| < MAX_GROUP then
        && second.nextId == w.nextId + 2
        && second.Population(an.species) == w.Population(an.species) + {w.nextId, w.nextId + 1}
        && Newborn(second.animalOf[w.nextId], an.species, an.cell)
        && Newborn(second.animalOf[w.nextId + 1], an.species, an.cell)
      else
        second == w
  {
    var an := w.animalOf[a];
    SpawnStep(w, a, first);
  }

  /**
   * The spawn phase of a's day, through the worlds first and second: an animal that has
   * reached its lifetime spawns twice, keeping its record, and is then deleted; otherwise
   * one whose energy has fallen below 1 is deleted without offspring; otherwise nothing
   * changes.
   */
  ghost predicate SpawnPhase(w: World, a: AnimalId, first: World, second: World, r: World)
    requires a in w.animalOf
    requires w.animalOf[a].age >= w.animalOf[a].lifetime ==> w.animalOf[a].group.Some? && w.animalOf[a].group.value in w.groupOf
  {
    var an := w.animalOf[a];
    if an.age >= an.lifetime then
      && Spawned(w, a, first) && first.animalOf[a] == an
      && Spawned(first, a, second) && second.animalOf[a] == an
      && Deleted(second, a, r)
    else if an.energy < 1.0 then Deleted(w, a, r)
    else r == w
  }

  /**
   * The spawn phase of a's day: an animal that has reached its lifetime spawns twice and
   * dies; otherwise one whose energy has fallen below 1 dies without offspring; otherwise
   * nothing happens.
   */
  method LiveSpawnPhase(w: World, a: AnimalId) returns (r: World, ghost first: World, ghost second: World)
    requires a in w.animalOf && a < w.nextId
    requires w.animalOf[a].group.Some? ==>
      w.animalOf[a].group.value in w.groupOf && a in w.groupOf[w.animalOf[a].group.value].individuals
    requires w.animalOf[a].age >= w.animalOf[a].lifetime ==> w.animalOf[a].group.Some?
    requires w.animalOf[a].cell in w.grid && VegetationKnown(w.vegetebobOf, w.grid[w.animalOf[a].cell])
    requires a in w.grid[w.animalOf[a].cell].Population(w.animalOf[a].species)
    requires a in w.Population(w.animalOf[a].species)
    ensures SpawnPhase(w, a, first, second, r)
    ensures OnlyOwnPopulation(w, r, w.animalOf[a].cell, w.animalOf[a].species)
  {
    var an := w.animalOf[a];
    first, second := w, w;
    r := w;
    if an.age >= an.lifetime {
      r, first, second := DieFromLifetime(w, a);
    } else if an.energy < 1.0 {
      r := Delete(w, a);
    }
    SpawnPhaseOwnPopulation(w, a, first, second, r);
  }

  /** The spawn phase of a live animal keeps the world valid. */
  lemma LiveSpawnPhaseKeepsValid(w: World, a: AnimalId, first: World, second: World, r: World)
    requires Valid(w) && Alive(w, a)
    requires w.animalOf[a].age >= w.animalOf[a].lifetime ==> w.animalOf[a].group.Some? && w.animalOf[a].group.value in w.groupOf
    requires SpawnPhase(w, a, first, second, r)
    ensures Valid(r)
  {
    var an := w.animalOf[a];
    if an.age >= an.lifetime {
      SpawnKeepsValid(w, a, first);
      SpawnKeepsValid(first, a, second);
      DeleteKeepsValid(second, a, r);
    } else if an.energy < 1.0 {
      DeleteKeepsValid(w, a, r);
    }
  }

  /** The animals of kind standing in the cell at p that belong to no group. */
  function Groupless(w: World, p: Pos, kind: AnimalKind): (s: set<AnimalId>)
    requires p in w.grid
    ensures forall b :: b in s <==> b in w.grid[p].Population(kind) && b in w.animalOf && w.animalOf[b].group.None?
  {
    set b | b in w.grid[p].Population(kind) && b in w.animalOf && w.animalOf[b].group.None?
  }

  /** animalOf with every animal of members naming g as its group. */
  ghost function JoinedTo(animalOf: map<AnimalId, Animal>, members: set<AnimalId>, g: GroupId): map<AnimalId, Animal>
  {
    map b | b in animalOf :: if b in members then animalOf[b].(group := Some(g)) else animalOf[b]
  }

  /** Naming g as the group of one more animal b extends JoinedTo by b. */
  lemma JoinedToStep(animalOf: map<AnimalId, Animal>, done: set<AnimalId>, b: AnimalId, g: GroupId)
    requires b in animalOf
    ensures var m := JoinedTo(animalOf, done, g);
      m[b := m[b].(group := Some(g))] == JoinedTo(animalOf, done + {b}, g)
  {
  }

  /**
   * r is w after a has formed a group at its cell: a new group of its species' kind, made of
   * a and the groupless animals of its species in its cell, is registered (its identity is
   * nextId) and placed in the cell, and every member names it; nothing else has changed.
   */
  ghost predicate Initiated(w: World, a: AnimalId, r: World)
    requires a in w.animalOf && w.animalOf[a].cell in w.grid
  {
    var an := w.animalOf[a];
    var p, kind := an.cell, GroupKindOf(an.species);
    var g, members := w.nextId, Groupless(w, p, an.species) + {a};
    && r.groupOf == w.groupOf[g := Group(kind, false, members, p)]
    && r.allGroups == w.allGroups + [g]
    && r.grid == w.grid[p := w.grid[p].WithGroups(kind, w.grid[p].Groups(kind) + {g})]
    && r.animalOf == JoinedTo(w.animalOf, members, g)
    && r.erbasts == w.erbasts && r.carvizes == w.carvizes
    && r.rows == w.rows && r.cols == w.cols && r.nextId == w.nextId + 1 && SameVegetation(w, r)
  }

  /**
   * Forms a herd (for an erbast) or a pride (for a carviz) at a's cell out of a and the
   * groupless animals of its species there, and makes each of them name it as its group.
   */
  method InitiateGroup(w: World, a: AnimalId) returns (r: World)
    requires a in w.animalOf && w.animalOf[a].cell in w.grid
    ensures Initiated(w, a, r)
  {
    var an := w.animalOf[a];
    var p, kind := an.cell, GroupKindOf(an.species);
    var joining := Groupless(w, p, an.species);
    var members := joining + {a};
    var g;
    r, g := NewGroup(w, kind, p, members);
    var pending := members;
    while pending != {}
      invariant pending <= members <= w.animalOf.Keys
      invariant r.groupOf == w.groupOf[g := Group(kind, false, members, p)]
      invariant r.animalOf == JoinedTo(w.animalOf, members - pending, g)
      invariant r.allGroups == w.allGroups + [g]
      invariant r.grid == w.grid[p := w.grid[p].WithGroups(kind, w.grid[p].Groups(kind) + {g})]
      invariant r.erbasts == w.erbasts && r.carvizes == w.carvizes
      invariant r.rows == w.rows && r.cols == w.cols && r.nextId == w.nextId + 1 && SameVegetation(w, r)
      decreases pending
    {
      var b :| b in pending;
      ghost var before := r;
      r := AddToGroup(r, b, g);
      assert before.groupOf[g].individuals + {b} == members;
      assert r.groupOf == before.groupOf;
      JoinedToStep(w.animalOf, members - pending, b, g);
      assert members - (pending - {b}) == (members - pending) + {b};
      pending := pending - {b};
    }
  }

  /** Forming a group for a live animal of no group keeps the world valid. */
  lemma InitiateGroupKeepsValid(w: World, a: AnimalId, r: World)
    requires Valid(w) && Alive(w, a) && w.animalOf[a].group.None?
    requires Initiated(w, a, r)
    ensures Valid(r)
  {
    AliveFacts(w, a);
    InitiatedKeepsLayout(w, a, r);
    InitiatedKeepsAnimalsIndexed(w, a, r);
    InitiatedKeepsGroupsPlaced(w, a, r);
    InitiatedKeepsMembership(w, a, r);
  }

  lemma InitiatedKeepsLayout(w: World, a: AnimalId, r: World)
    requires GridShaped(w) && CachesValid(w) && VegetationIndexed(w) && IdsBelow(w)
    requires a in w.animalOf && w.animalOf[a].cell in w.grid && Initiated(w, a, r)
    ensures GridShaped(r) && CachesValid(r) && VegetationIndexed(r) && IdsBelow(r)
  {
    InitiatedKeepsCells(w, a, r);
    InitiatedKeepsVegetation(w, a, r);
  }

  lemma InitiatedKeepsVegetation(w: World, a: AnimalId, r: World)
    requires VegetationIndexed(w) && r.vegetebobOf == w.vegetebobOf && r.vegetebobs == w.vegetebobs
    requires r.rows == w.rows && r.cols == w.cols && r.grid.Keys == w.grid.Keys
    requires forall q :: q in r.grid ==> r.grid[q] == w.grid[q].(herds := r.grid[q].herds, prides := r.grid[q].prides)
    ensures VegetationIndexed(r)
  {
    forall q | q in r.grid
      ensures r.grid[q].vegetebobs == w.grid[q].vegetebobs
    {
    }
  }

  /** Forming a group changes no cell but for its group sets. */
  lemma InitiatedKeepsCells(w: World, a: AnimalId, r: World)
    requires a in w.animalOf && w.animalOf[a].cell in w.grid && Initiated(w, a, r)
    ensures r.grid.Keys == w.grid.Keys
    ensures forall q :: q in r.grid ==> r.grid[q] == w.grid[q].(herds := r.grid[q].herds, prides := r.grid[q].prides)
  {
  }

  lemma InitiatedKeepsAnimalsIndexed(w: World, a: AnimalId, r: World)
    requires AnimalsIndexed(w) && a in w.animalOf && w.animalOf[a].cell in w.grid && Initiated(w, a, r)
    ensures AnimalsIndexed(r)
  {
    InitiatedKeepsCells(w, a, r);
    forall k, q | q in w.grid
      ensures r.grid[q].Population(k) == w.grid[q].Population(k)
    {
    }
    StandingKeepsAnimalsIndexed(w, r);
  }

  lemma InitiatedKeepsGroupsPlaced(w: World, a: AnimalId, r: World)
    requires GroupsPlaced(w) && IdsBelow(w) && a in w.animalOf && w.animalOf[a].cell in w.grid
    requires Initiated(w, a, r)
    ensures GroupsPlaced(r)
  {
    var g, p, kind := w.nextId, w.animalOf[a].cell, GroupKindOf(w.animalOf[a].species);
    assert g !in w.allGroups;
    forall h | h in r.allGroups
      ensures h in r.groupOf && !r.groupOf[h].deleted && r.groupOf[h].cell in r.grid
      ensures h in r.grid[r.groupOf[h].cell].Groups(r.groupOf[h].kind)
    {
      if h != g {
        assert h in w.allGroups;
      }
    }
    forall k, q, h | q in r.grid && h in r.grid[q].Groups(k)
      ensures h in r.allGroups && h in r.groupOf && r.groupOf[h].kind == k && r.groupOf[h].cell == q
    {
      if h != g {
        assert h in w.grid[q].Groups(k);
      }
    }
  }

  lemma InitiatedKeepsMembership(w: World, a: AnimalId, r: World)
    requires MembershipIndexed(w) && AnimalsIndexed(w) && GroupsPlaced(w) && IdsBelow(w)
    requires Alive(w, a) && w.animalOf[a].group.None? && w.animalOf[a].cell in w.grid
    requires Initiated(w, a, r)
    ensures MembershipIndexed(r)
  {
    var an := w.animalOf[a];
    var g, p := w.nextId, an.cell;
    var members := Groupless(w, p, an.species) + {a};
    forall h, b | h in r.allGroups && h in r.groupOf && b in r.groupOf[h].individuals
      ensures b in r.Population(MemberKind(r.groupOf[h].kind)) && b in r.animalOf && r.animalOf[b].group == Some(h)
    {
      if h == g {
        assert MemberKind(GroupKindOf(an.species)) == an.species;
        if b != a {
          assert b in w.grid[p].Population(an.species);
        }
      } else {
        assert h in w.allGroups && b in w.groupOf[h].individuals;
        assert b !in members;
      }
    }
    forall b | b in r.animalOf && (b in r.erbasts || b in r.carvizes) && r.animalOf[b].group.Some?
      ensures r.animalOf[b].group.value in r.allGroups && r.animalOf[b].group.value in r.groupOf
      ensures b in r.groupOf[r.animalOf[b].group.value].individuals
    {
      if b !in members {
        var h := w.animalOf[b].group.value;
        assert h in w.allGroups && h != g;
      }
    }
  }

  /**
   * r is w after the first phase of a's day: a is a day older (and, every tenth day, has
   * paid the cost of ageing); it then forms a group at its cell if it has none; and it goes
   * through its spawn phase. Nothing else changes.
   */
  ghost predicate FirstPhaseLived(w: World, a: AnimalId, r: World)
  {
    && a in w.animalOf && w.animalOf[a].cell in w.grid
    && var aged := w.(animalOf := w.animalOf[a := Older(w.animalOf[a])]);
    && exists grouped: World, first: World, second: World ::
      && (if aged.animalOf[a].group.None? then Initiated(aged, a, grouped) else grouped == aged)
      && a in grouped.animalOf
      && (grouped.animalOf[a].age >= grouped.animalOf[a].lifetime ==>
            grouped.animalOf[a].group.Some? && grouped.animalOf[a].group.value in grouped.groupOf)
      && SpawnPhase(grouped, a, first, second, r)
  }

  /**
   * The first phase of a live animal's day: it ages by a day, forms a group if it has none,
   * and goes through its spawn phase. It survives exactly when, one day older, it is still
   * below its lifetime and has energy of at least 1; a survivor is in a group and its record
   * is otherwise its one-day-older record. Every other live animal stays alive where it is,
   * and the world stays valid.
   */
  method LiveFirstPhase(w: World, a: AnimalId) returns (r: World)
    requires Valid(w) && Alive(w, a)
    ensures Valid(r) && FirstPhaseLived(w, a, r)
    ensures var older := Older(w.animalOf[a]);
      && (Alive(r, a) <==> older.age < older.lifetime && older.energy >= 1.0)
      && (Alive(r, a) ==> r.animalOf[a].group.Some? && r.animalOf[a] == older.(group := r.animalOf[a].group))
    ensures OthersStay(w, r, a)
    ensures OnlyOwnPopulation(w, r, w.animalOf[a].cell, w.animalOf[a].species)
    ensures r.rows == w.rows && r.cols == w.cols && r.vegetebobs == w.vegetebobs
  {
    AliveFacts(w, a);
    var grouped;
    ghost var aged;
    grouped, aged := AgeAndGroup(w, a);
    ghost var first, second;
    r, first, second := GoThroughSpawnPhase(grouped, a);
    FirstPhaseOutcome(w, a, grouped, r);
    FirstPhaseComposed(w, a, aged, grouped, first, second, r);
  }

  /** The spawn phase of a live animal in a group, with what it keeps and what it decides. */
  method GoThroughSpawnPhase(w: World, a: AnimalId) returns (r: World, ghost first: World, ghost second: World)
    requires Valid(w) && Alive(w, a)
    requires w.animalOf[a].group.Some? && w.animalOf[a].group.value in w.groupOf
    ensures Valid(r) && SpawnPhase(w, a, first, second, r)
    ensures var an := w.animalOf[a];
      && (Alive(r, a) <==> an.age < an.lifetime && an.energy >= 1.0)
      && (Alive(r, a) ==> r.animalOf[a] == an)
    ensures OthersStay(w, r, a)
    ensures OnlyOwnPopulation(w, r, w.animalOf[a].cell, w.animalOf[a].species)
    ensures r.rows == w.rows && r.cols == w.cols && r.vegetebobs == w.vegetebobs
  {
    AliveFacts(w, a);
    r, first, second := LiveSpawnPhase(w, a);
    LiveSpawnPhaseKeepsValid(w, a, first, second, r);
    LiveSpawnPhaseOutcome(w, a, first, second, r);
  }

  /**
   * The first two steps of the first phase: a ages by a day, giving aged, and then forms
   * a group at its cell if it has none. a stays alive, now in a group, with its one-day-older
   * record; other live animals stay where they are and no population changes.
   */
  method AgeAndGroup(w: World, a: AnimalId) returns (grouped: World, aged: World)
    requires Valid(w) && Alive(w, a)
    ensures aged.animalOf == w.animalOf[a := Older(w.animalOf[a])]
    ensures aged.grid == w.grid && aged.erbasts == w.erbasts && aged.carvizes == w.carvizes
    ensures SameShape(w, aged) && SameVegetation(w, aged) && SameGroups(w, aged)
    ensures if aged.animalOf[a].group.None? then Initiated(aged, a, grouped) else grouped == aged
    ensures Valid(grouped) && Alive(grouped, a)
    ensures grouped.animalOf[a].group.Some? && grouped.animalOf[a].group.value in grouped.groupOf
    ensures grouped.animalOf[a] == Older(w.animalOf[a]).(group := grouped.animalOf[a].group)
    ensures OthersStay(w, grouped, a)
    ensures forall p, kind :: OnlyOwnPopulation(w, grouped, p, kind)
    ensures grouped.rows == w.rows && grouped.cols == w.cols && grouped.vegetebobs == w.vegetebobs
  {
    AliveFacts(w, a);
    aged := IncreaseAge(w, a);
    AmountsKeepValid(w, aged);
    AmountsKeepOthers(w, aged, a);
    grouped := aged;
    if aged.animalOf[a].group.None? {
      grouped := InitiateGroup(aged, a);
      InitiateGroupKeepsValid(aged, a, grouped);
      InitiatedKeepsOthers(aged, a, grouped);
    }
    GroupingOwnPopulation(w, a, aged, grouped);
    AliveFacts(grouped, a);
    OthersStayTrans(w, aged, grouped, a);
  }

  /** What the spawn phase decides about a, after ageing and grouping, as seen from before them. */
  lemma FirstPhaseOutcome(w: World, a: AnimalId, grouped: World, r: World)
    requires a in w.animalOf && Alive(grouped, a)
    requires grouped.animalOf[a].group.Some?
    requires grouped.animalOf[a] == Older(w.animalOf[a]).(group := grouped.animalOf[a].group)
    requires OthersStay(w, grouped, a) && OthersStay(grouped, r, a)
    requires forall p, kind :: OnlyOwnPopulation(w, grouped, p, kind)
    requires OnlyOwnPopulation(grouped, r, grouped.animalOf[a].cell, grouped.animalOf[a].species)
    requires var an := grouped.animalOf[a];
      && (Alive(r, a) <==> an.age < an.lifetime && an.energy >= 1.0)
      && (Alive(r, a) ==> r.animalOf[a] == an)
    ensures var older := Older(w.animalOf[a]);
      && (Alive(r, a) <==> older.age < older.lifetime && older.energy >= 1.0)
      && (Alive(r, a) ==> r.animalOf[a].group.Some? && r.animalOf[a] == older.(group := r.animalOf[a].group))
    ensures OthersStay(w, r, a)
    ensures OnlyOwnPopulation(w, r, w.animalOf[a].cell, w.animalOf[a].species)
  {
    OthersStayTrans(w, grouped, r, a);
    OwnPopulationTrans(w, grouped, r, w.animalOf[a].cell, w.animalOf[a].species);
  }

  /** Ageing, forming a group when a has none, and the spawn phase make up the first phase. */
  lemma FirstPhaseComposed(w: World, a: AnimalId, aged: World, grouped: World, first: World, second: World, r: World)
    requires a in w.animalOf && w.animalOf[a].cell in w.grid
    requires aged.animalOf == w.animalOf[a := Older(w.animalOf[a])]
    requires aged.grid == w.grid && aged.erbasts == w.erbasts && aged.carvizes == w.carvizes
    requires SameShape(w, aged) && SameVegetation(w, aged) && SameGroups(w, aged)
    requires if aged.animalOf[a].group.None? then Initiated(aged, a, grouped) else grouped == aged
    requires a in grouped.animalOf
    requires grouped.animalOf[a].age >= grouped.animalOf[a].lifetime ==>
      grouped.animalOf[a].group.Some? && grouped.animalOf[a].group.value in grouped.groupOf
    requires SpawnPhase(grouped, a, first, second, r)
    ensures FirstPhaseLived(w, a, r)
  {
    assert aged == w.(animalOf := w.animalOf[a := Older(w.animalOf[a])]);
  }

  /** Ageing and then forming a group, if a has none, changes no population. */
  lemma GroupingOwnPopulation(w: World, a: AnimalId, aged: World, grouped: World)
    requires aged.grid == w.grid && a in aged.animalOf && aged.animalOf[a].cell in aged.grid
    requires grouped == aged || Initiated(aged, a, grouped)
    ensures forall p, kind :: OnlyOwnPopulation(w, grouped, p, kind)
  {
  }

  /**
   * r has the cells of w, with the same vegetation in each, and the same populations but
   * possibly that of kind in the cell at p.
   */
  ghost predicate OnlyOwnPopulation(w: World, r: World, p: Pos, kind: AnimalKind)
  {
    && r.grid.Keys == w.grid.Keys
    && (forall q :: q in w.grid ==> r.grid[q].vegetebobs == w.grid[q].vegetebobs)
    && (forall q, k :: q in w.grid && (q != p || k != kind) ==> r.grid[q].Population(k) == w.grid[q].Population(k))
  }

  lemma OwnPopulationTrans(w: World, m: World, r: World, p: Pos, kind: AnimalKind)
    requires OnlyOwnPopulation(w, m, p, kind) && OnlyOwnPopulation(m, r, p, kind)
    ensures OnlyOwnPopulation(w, r, p, kind)
  {
  }

  /** Repopulating one cell with one kind touches no other population. */
  lemma RepopulatedOwnPopulation(w: World, p: Pos, kind: AnimalKind, s: set<AnimalId>, r: World)
    requires Repopulated(w, p, kind, s, r)
    ensures OnlyOwnPopulation(w, r, p, kind)
  {
  }

  /** A spawn changes no population but that of the parent's species in the parent's cell. */
  lemma SpawnedOwnPopulation(w: World, a: AnimalId, r: World)
    requires a in w.animalOf && w.animalOf[a].group.Some? && w.animalOf[a].group.value in w.groupOf
    requires Spawned(w, a, r)
    ensures OnlyOwnPopulation(w, r, w.animalOf[a].cell, w.animalOf[a].species)
  {
    var an := w.animalOf[a];
    if |w.groupOf[an.group.value].individuals| < MAX_GROUP {
      RepopulatedOwnPopulation(w, an.cell, an.species, w.grid[an.cell].Population(an.species) + {w.nextId}, r);
    }
  }

  /** The spawn phase changes no population but that of a's species in a's cell. */
  lemma SpawnPhaseOwnPopulation(w: World, a: AnimalId, first: World, second: World, r: World)
    requires a in w.animalOf && (w.animalOf[a].age >= w.animalOf[a].lifetime ==> w.animalOf[a].group.Some? && w.animalOf[a].group.value in w.groupOf)
    requires SpawnPhase(w, a, first, second, r)
    ensures OnlyOwnPopulation(w, r, w.animalOf[a].cell, w.animalOf[a].species)
  {
    var an := w.animalOf[a];
    if an.age >= an.lifetime {
      SpawnedOwnPopulation(w, a, first);
      assert first.groupOf == w.groupOf by {
        if |w.groupOf[an.group.value].individuals| >= MAX_GROUP {
        }
      }
      SpawnedOwnPopulation(first, a, second);
      RepopulatedOwnPopulation(second, an.cell, an.species, second.grid[an.cell].Population(an.species) - {a}, r);
      OwnPopulationTrans(w, first, second, an.cell, an.species);
      OwnPopulationTrans(w, second, r, an.cell, an.species);
    } else if an.energy < 1.0 {
      RepopulatedOwnPopulation(w, an.cell, an.species, w.grid[an.cell].Population(an.species) - {a}, r);
    }
  }

  lemma OthersStayTrans(w: World, m: World, r: World, a: AnimalId)
    requires OthersStay(w, m, a) && OthersStay(m, r, a)
    ensures OthersStay(w, r, a)
  {
  }

  lemma AmountsKeepOthers(w: World, r: World, a: AnimalId)
    requires OnlyAmountsChanged(w, r)
    ensures OthersStay(w, r, a)
  {
  }

  lemma InitiatedKeepsOthers(w: World, a: AnimalId, r: World)
    requires a in w.animalOf && w.animalOf[a].cell in w.grid && Initiated(w, a, r)
    ensures OthersStay(w, r, a)
  {
  }

  /**
   * After the spawn phase a is alive exactly when it is below its lifetime with energy of at
   * least 1, and then its record is unchanged; every other live animal stays where it is.
   */
  lemma LiveSpawnPhaseOutcome(w: World, a: AnimalId, first: World, second: World, r: World)
    requires Valid(w) && Alive(w, a)
    requires w.animalOf[a].age >= w.animalOf[a].lifetime ==> w.animalOf[a].group.Some? && w.animalOf[a].group.value in w.groupOf
    requires SpawnPhase(w, a, first, second, r)
    ensures var an := w.animalOf[a];
      && (Alive(r, a) <==> an.age < an.lifetime && an.energy >= 1.0)
      && (Alive(r, a) ==> r.animalOf[a] == an)
    ensures OthersStay(w, r, a)
  {
    var an := w.animalOf[a];
    AliveFacts(w, a);
    if an.age >= an.lifetime {
      SpawnKeepsOthers(w, a, first);
      SpawnKeepsValid(w, a, first);
      AliveFacts(first, a);
      SpawnKeepsOthers(first, a, second);
      DeletedKeepsOthers(second, a, r);
      OthersStayTrans(w, first, second, a);
      OthersStayTrans(w, second, r, a);
    } else if an.energy < 1.0 {
      DeletedKeepsOthers(w, a, r);
    }
  }

  lemma SpawnKeepsOthers(w: World, a: AnimalId, r: World)
    requires IdsBelow(w) && a in w.animalOf && w.animalOf[a].group.Some? && w.animalOf[a].group.value in w.groupOf
    requires Spawned(w, a, r)
    ensures OthersStay(w, r, a)
  {
    var an := w.animalOf[a];
    if |w.groupOf[an.group.value].individuals| < MAX_GROUP {
      forall b | b != a && Alive(w, b)
        ensures Alive(r, b) && r.animalOf[b].species == w.animalOf[b].species && r.animalOf[b].cell == w.animalOf[b].cell
      {
        BornKeepsOthers(w, an.species, an.cell, r, b);
      }
    }
  }

  lemma DeletedKeepsOthers(w: World, a: AnimalId, r: World)
    requires a in w.animalOf && Deleted(w, a, r)
    ensures OthersStay(w, r, a) && !Alive(r, a)
  {
    var sp := w.animalOf[a].species;
    forall b | b != a && Alive(w, b)
      ensures Alive(r, b) && r.animalOf[b].species == w.animalOf[b].species && r.animalOf[b].cell == w.animalOf[b].cell
    {
      assert w.animalOf[b].species == sp || w.animalOf[b].species == OtherKind(sp);
    }
  }

  /** Leaving its group keeps the world valid for a live animal. */
  lemma LeaveKeepsValid(w: World, a: AnimalId, r: World)
    requires Valid(w) && Alive(w, a) && LeftGroup(w, a, r)
    ensures Valid(r) && Alive(r, a)
  {
    LeftGroupChangesOnlyAnimals(w, a, r);
    LayoutKept(w, r);
    IdsKept(w, r);
    StandingKeepsAnimalsIndexed(w, r);
    LeaveKeepsMembership(w, a, r);
  }

  lemma LeftGroupChangesOnlyAnimals(w: World, a: AnimalId, r: World)
    requires a in w.animalOf && LeftGroup(w, a, r)
    ensures OnlyAnimalsChanged(w, r)
  {
    forall g | g in w.groupOf
      ensures g in r.groupOf && SamePlace(w.groupOf[g], r.groupOf[g])
    {
    }
  }

  lemma LeaveKeepsMembership(w: World, a: AnimalId, r: World)
    requires MembershipIndexed(w) && a in w.animalOf && LeftGroup(w, a, r)
    ensures MembershipIndexed(r)
  {
    forall g, b | g in r.allGroups && g in r.groupOf && b in r.groupOf[g].individuals
      ensures b in r.Population(MemberKind(r.groupOf[g].kind)) && b in r.animalOf && r.animalOf[b].group == Some(g)
    {
      assert b in w.groupOf[g].individuals && b != a;
    }
  }
}
