// The world: generating a fresh grid with its first inhabitants, and the day of the whole
// ecosystem, which runs the first phase of every entity cell by cell and then the day of
// every group.
module Simulation {
  import opened Constants
  import opened Cells
  import opened Ecosystem
  import Vegetation
  import Animals
  import opened Groups
  import Herds
  import Prides

  /** What a ground cell may spawn when the world is generated. */
  datatype Species = Flora | Fauna(kind: AnimalKind)

  /** The size of the world's population of s. */
  function Count(w: World, s: Species): nat
  {
    match s
    case Flora => |w.vegetebobs|
    case Fauna(kind) => |w.Population(kind)|
  }

  /** The population limit of s. */
  function Cap(s: Species): int
  {
    match s
    case Flora => MAX_VEGETOBOB
    case Fauna(Erbast) => MAX_ERBAST
    case Fauna(Carviz) => MAX_CARVIZ
  }

  /** s may still be spawned: its population has not gone beyond its limit. */
  predicate Eligible(w: World, s: Species)
  {
    Count(w, s) <= Cap(s)
  }

  /** How many entities, of any species, the cell holds. */
  function Residents(c: Cell): nat
  {
    |c.vegetebobs| + |c.erbasts| + |c.carvizes|
  }

  /** No cell holds more than one entity, and water cells hold none. */
  ghost predicate Sparse(w: World)
  {
    forall p :: p in w.grid ==> Residents(w.grid[p]) <= 1 && (w.grid[p].cellType == Water ==> Residents(w.grid[p]) == 0)
  }

  /** No population is more than one beyond its limit. */
  ghost predicate Capped(w: World)
  {
    forall s :: Count(w, s) <= Cap(s) + 1
  }

  /** The cell standing in for a grid slot not filled yet: water, holding nothing. */
  function Slot(p: Pos): (c: Cell)
    ensures c.x == p.0 && c.y == p.1 && c.cellType == Water && Vacant(c) && Residents(c) == 0
  {
    NewCell(p.0, p.1, Water)
  }

  /** q comes before the slot (x, y) in row-major order. */
  predicate Before(q: Pos, x: int, y: int)
  {
    q.0 < x || (q.0 == x && q.1 < y)
  }

  /**
   * The world being generated, with the slots from (x, y) onwards still unfilled: it is
   * valid, sparse and capped, no group has been formed, and an interior ground cell was
   * left empty only once every species had gone beyond its limit.
   */
  ghost predicate Generating(w: World, x: int, y: int)
  {
    Filling(w, x, y) && Saturated(w, x, y)
  }

  /** Valid, sparse and capped, with no group and the slots from (x, y) onwards unfilled. */
  ghost predicate Filling(w: World, x: int, y: int)
  {
    && Valid(w) && Sparse(w) && Capped(w) && w.allGroups == [] && w.groupOf == map[]
    && Unfilled(w, x, y)
  }

  /** If an interior ground cell before (x, y) holds nothing, no species is eligible any more. */
  ghost predicate Saturated(w: World, x: int, y: int)
  {
    forall q :: q in w.grid && Before(q, x, y) && EmptyGround(w, q) ==> forall s :: !Eligible(w, s)
  }

  /** The cell at q is an interior ground cell holding nothing. */
  ghost predicate EmptyGround(w: World, q: Pos)
    requires q in w.grid
  {
    !IsBoundary(w.rows, w.cols, q.0, q.1) && w.grid[q].cellType == Ground && Residents(w.grid[q]) == 0
  }

  /**
   * Filling the slot (x, y) keeps the world saturated up to the next slot when it changes
   * no other cell, no population shrinks, and the new cell is left empty on interior
   * ground only when no species is eligible.
   */
  lemma SaturatedStep(w: World, x: int, y: int, filled: World, r: World)
    requires Saturated(w, x, y) && (x, y) in w.grid
    requires (x, y) in filled.grid && filled == w.(grid := w.grid[(x, y) := filled.grid[(x, y)]])
    requires r.rows == w.rows && r.cols == w.cols && r.grid.Keys == filled.grid.Keys
    requires forall q :: q in filled.grid && q != (x, y) ==> r.grid[q] == filled.grid[q]
    requires forall s :: Count(filled, s) <= Count(r, s)
    requires EmptyGround(r, (x, y)) ==> forall s :: !Eligible(filled, s)
    ensures Saturated(r, x, y + 1)
  {
    forall q | q in r.grid && Before(q, x, y + 1) && EmptyGround(r, q)
      ensures forall s :: !Eligible(r, s)
    {
      forall s ensures !Eligible(r, s) {
        if q != (x, y) {
          assert EmptyGround(w, q);
          assert !Eligible(w, s);
        }
        assert !Eligible(filled, s);
      }
    }
  }

  /** At the end of row x, being saturated up to it is being saturated up to the next row. */
  lemma SaturatedRowEnd(w: World, x: int, y: int)
    requires GridShaped(w) && w.cols <= y && Saturated(w, x, y)
    ensures Saturated(w, x + 1, 0)
  {
    forall q | q in w.grid && Before(q, x + 1, 0)
      ensures Before(q, x, y)
    {
      assert InGrid(w, q);
    }
  }

  /** The type the cell at q is generated with: water on the outer ring, its drawn type elsewhere. */
  function TerrainAt(w: World, terrain: Pos -> CellType, q: Pos): CellType
  {
    if IsBoundary(w.rows, w.cols, q.0, q.1) then Water else terrain(q)
  }

  /** Every cell before (x, y) has the type it was generated with. */
  ghost predicate Laid(w: World, terrain: Pos -> CellType, x: int, y: int)
  {
    forall q :: q in w.grid && Before(q, x, y) ==> w.grid[q].cellType == TerrainAt(w, terrain, q)
  }

  /** Laying the cell at (x, y) with its type, and changing no other cell, extends what has been laid. */
  lemma LaidStep(w: World, terrain: Pos -> CellType, x: int, y: int, r: World)
    requires Laid(w, terrain, x, y) && r.rows == w.rows && r.cols == w.cols && r.grid.Keys == w.grid.Keys
    requires forall q :: q in w.grid && q != (x, y) ==> r.grid[q] == w.grid[q]
    requires (x, y) in r.grid ==> r.grid[(x, y)].cellType == TerrainAt(w, terrain, (x, y))
    ensures Laid(r, terrain, x, y + 1)
  {
    forall q | q in r.grid && Before(q, x, y + 1)
      ensures r.grid[q].cellType == TerrainAt(r, terrain, q)
    {
      if q != (x, y) {
        assert Before(q, x, y);
      }
    }
  }

  /** At the end of row x, what has been laid up to it is laid up to the next row. */
  lemma LaidRowEnd(w: World, terrain: Pos -> CellType, x: int, y: int)
    requires GridShaped(w) && w.cols <= y && Laid(w, terrain, x, y)
    ensures Laid(w, terrain, x + 1, 0)
  {
    forall q | q in w.grid && Before(q, x + 1, 0)
      ensures Before(q, x, y)
    {
      assert InGrid(w, q);
    }
  }

  /** The slots from (x, y) onwards are unfilled. */
  ghost predicate Unfilled(w: World, x: int, y: int)
  {
    forall q :: q in w.grid && !Before(q, x, y) ==> w.grid[q] == Slot(q)
  }

  /** Changing the slot before (x, y), and no other, leaves the slots from (x, y) onwards unfilled. */
  lemma UnfilledStep(w: World, x: int, y: int, r: World)
    requires Unfilled(w, x, y) && r.grid.Keys == w.grid.Keys
    requires forall q :: q in w.grid && q != (x, y - 1) ==> r.grid[q] == w.grid[q]
    ensures Unfilled(r, x, y)
  {
  }

  /** A rows x cols grid of unfilled slots, with no entity, no population and no group. */
  function Blank(rows: int, cols: int): (w: World)
    ensures w.rows == rows && w.cols == cols
    ensures forall p :: p in w.grid <==> InGrid(w, p)
    ensures forall p :: p in w.grid ==> w.grid[p] == Slot(p)
    ensures w.vegetebobs == {} && w.erbasts == {} && w.carvizes == {} && w.allGroups == []
  {
    var coordinates := set x: int, y: int | 0 <= x < rows && 0 <= y < cols :: (x, y);
    var grid := map p | p in coordinates :: Slot(p);
    World(rows, cols, grid, map[], map[], map[], {}, {}, {}, [], 0)
  }

  /**
   * Generates the world anew at its size, with the cell types drawn at random given as
   * terrain: the group registry and the populations start empty, and every slot of the
   * grid is filled in row-major order. Every cell of the outer ring is water and holds
   * nothing, every other cell has its drawn type; no cell holds more than one entity and
   * no water cell holds any; no population ends more than one beyond its limit; and an
   * interior ground cell ends empty only when every population has gone beyond its limit.
   */
  method Generate(w: World, terrain: Pos -> CellType) returns (r: World)
    ensures Valid(r) && r.rows == w.rows && r.cols == w.cols
    ensures forall p :: p in r.grid ==> r.grid[p].cellType == TerrainAt(r, terrain, p)
    ensures r.allGroups == [] && r.groupOf == map[]
    ensures forall p :: p in r.grid && IsBoundary(r.rows, r.cols, p.0, p.1) ==>
      r.grid[p].cellType == Water && Residents(r.grid[p]) == 0
    ensures Sparse(r) && Capped(r)
    ensures forall p :: p in r.grid && EmptyGround(r, p) ==> forall s :: Count(r, s) > Cap(s)
  {
    r := Blank(w.rows, w.cols);
    assert Capped(r) by {
      forall s ensures Count(r, s) <= Cap(s) + 1 {
        assert Count(r, s) == 0;
      }
    }
    var x := 0;
    while x < w.rows
      invariant x <= w.rows || x == 0
      invariant Generating(r, x, 0) && Laid(r, terrain, x, 0) && r.rows == w.rows && r.cols == w.cols
    {
      r := GenerateRow(r, terrain, x);
      x := x + 1;
    }
    forall p | p in r.grid
      ensures Before(p, x, 0)
    {
      assert InGrid(r, p);
    }
    forall p, s | p in r.grid && EmptyGround(r, p)
      ensures Count(r, s) > Cap(s)
    {
      assert !Eligible(r, s);
    }
  }

  /** Fills the slots of row x, laying each cell with its type. */
  method GenerateRow(w: World, terrain: Pos -> CellType, x: int) returns (r: World)
    requires 0 <= x < w.rows && Generating(w, x, 0) && Laid(w, terrain, x, 0)
    ensures Generating(r, x + 1, 0) && Laid(r, terrain, x + 1, 0) && r.rows == w.rows && r.cols == w.cols
  {
    r := w;
    var y := 0;
    while y < w.cols
      invariant 0 <= y && (y <= w.cols || y == 0)
      invariant Generating(r, x, y) && Laid(r, terrain, x, y) && r.rows == w.rows && r.cols == w.cols
    {
      var before := r;
      r := InitializeCell(before, x, y, terrain((x, y)));
      LaidStep(before, terrain, x, y, r);
      y := y + 1;
    }
    SaturatedRowEnd(r, x, y);
    LaidRowEnd(r, terrain, x, y);
  }

  /**
   * Fills the slot at (x, y): a water cell on the outer ring, otherwise a cell of the
   * drawn type, which then spawns an entity when it is ground and some species is
   * eligible. No other cell changes and no population shrinks.
   */
  method InitializeCell(w: World, x: int, y: int, drawn: CellType) returns (r: World)
    requires Generating(w, x, y) && InGrid(w, (x, y))
    ensures Generating(r, x, y + 1) && r.rows == w.rows && r.cols == w.cols && r.grid.Keys == w.grid.Keys
    ensures forall q :: q in w.grid && q != (x, y) ==> r.grid[q] == w.grid[q]
    ensures r.grid[(x, y)].cellType == if IsBoundary(w.rows, w.cols, x, y) then Water else drawn
    ensures IsBoundary(w.rows, w.cols, x, y) ==> r.grid[(x, y)] == NewCell(x, y, Water)
    ensures !IsBoundary(w.rows, w.cols, x, y) ==>
      (Residents(r.grid[(x, y)]) == 1 <==> r.grid[(x, y)].cellType == Ground && exists s :: Eligible(w, s))
    ensures forall s :: Count(w, s) <= Count(r, s)
  {
    var p := (x, y);
    var c;
    if IsBoundary(w.rows, w.cols, x, y) {
      c := NewCell(x, y, Water);
    } else {
      c := NewCell(x, y, drawn);
    }
    r := w.(grid := w.grid[p := c]);
    CellPlaced(w, x, y, r);
    var filled := r;
    SameCounts(w, filled);
    if !IsBoundary(w.rows, w.cols, x, y) {
      r := SpawnInSlot(filled, x, y);
    }
    SaturatedStep(w, x, y, filled, r);
  }

  /** The spawn of the freshly filled interior slot at (x, y), which keeps the world filling. */
  method SpawnInSlot(w: World, x: int, y: int) returns (r: World)
    requires Filling(w, x, y + 1) && Interior(w, (x, y)) && (x, y) in w.grid && Vacant(w.grid[(x, y)])
    ensures Filling(r, x, y + 1) && r.rows == w.rows && r.cols == w.cols && r.grid.Keys == w.grid.Keys
    ensures forall q :: q in w.grid && q != (x, y) ==> r.grid[q] == w.grid[q]
    ensures forall s :: Count(w, s) <= Count(r, s)
    ensures Residents(r.grid[(x, y)]) == 1 <==> r.grid[(x, y)].cellType == Ground && exists s :: Eligible(w, s)
    ensures r.grid[(x, y)].cellType == w.grid[(x, y)].cellType
    ensures EmptyGround(r, (x, y)) ==> forall s :: !Eligible(w, s)
  {
    var spawned;
    r, spawned := InitializeSpecies(w, (x, y));
    UnfilledStep(w, x, y + 1, r);
  }

  /** Changing only the grid leaves every population, and so every species' eligibility, as it was. */
  lemma SameCounts(w: World, r: World)
    requires r == w.(grid := r.grid)
    ensures forall s :: Count(r, s) == Count(w, s)
    ensures (exists s :: Eligible(r, s)) <==> exists s :: Eligible(w, s)
  {
    if exists s :: Eligible(w, s) {
      var s :| Eligible(w, s);
      assert Eligible(r, s);
    }
    if exists s :: Eligible(r, s) {
      var s :| Eligible(r, s);
      assert Eligible(w, s);
    }
  }

  /** Filling the slot at (x, y) with a new cell, water on the outer ring, keeps generating. */
  lemma CellPlaced(w: World, x: int, y: int, r: World)
    requires Filling(w, x, y) && InGrid(w, (x, y))
    requires (x, y) in r.grid && r == w.(grid := w.grid[(x, y) := r.grid[(x, y)]])
    requires r.grid[(x, y)] == NewCell(x, y, r.grid[(x, y)].cellType)
    requires IsBoundary(w.rows, w.cols, x, y) ==> r.grid[(x, y)].cellType == Water
    ensures Filling(r, x, y + 1) && Vacant(r.grid[(x, y)])
  {
    SlotFilled(w, (x, y), r.grid[(x, y)]);
    assert Count(r, Flora) == Count(w, Flora);
  }

  /** A cell holding no entity and no group, with an empty neighbour cache. */
  predicate Vacant(c: Cell)
  {
    && c.vegetebobs == {} && c.erbasts == {} && c.carvizes == {}
    && c.herds == {} && c.prides == {} && c.surroundingCells == []
  }

  /** A vacant cell holds no population and no group of any kind. */
  lemma VacantHoldsNothing(c: Cell)
    requires Vacant(c)
    ensures forall kind :: c.Population(kind) == {}
    ensures forall kind :: c.Groups(kind) == {}
  {
    forall kind
      ensures c.Population(kind) == {}
    {
      match kind
      case Erbast =>
      case Carviz =>
    }
    forall kind
      ensures c.Groups(kind) == {}
    {
      match kind
      case Herd =>
      case Pride =>
    }
  }

  /**
   * Filling a vacant slot with a new vacant cell of the right coordinates (water on the
   * outer ring) keeps the world valid and sparse.
   */
  lemma SlotFilled(w: World, p: Pos, c: Cell)
    requires Valid(w) && Sparse(w) && p in w.grid && Vacant(w.grid[p])
    requires Vacant(c) && c.x == p.0 && c.y == p.1
    requires IsBoundary(w.rows, w.cols, p.0, p.1) ==> c.cellType == Water
    ensures Valid(w.(grid := w.grid[p := c])) && Sparse(w.(grid := w.grid[p := c]))
  {
    VacantHoldsNothing(w.grid[p]);
    VacantHoldsNothing(c);
    SlotFilledVegetation(w, p, c);
    SlotFilledAnimals(w, p, c);
    SlotFilledGroups(w, p, c);
  }

  lemma SlotFilledVegetation(w: World, p: Pos, c: Cell)
    requires VegetationIndexed(w) && p in w.grid && w.grid[p].vegetebobs == {} && c.vegetebobs == {}
    ensures VegetationIndexed(w.(grid := w.grid[p := c]))
  {
    var r := w.(grid := w.grid[p := c]);
    forall v | v in r.vegetebobs
      ensures v in r.grid[r.vegetebobOf[v].cell].vegetebobs
    {
      assert v in w.grid[w.vegetebobOf[v].cell].vegetebobs;
    }
  }

  lemma SlotFilledAnimals(w: World, p: Pos, c: Cell)
    requires AnimalsIndexed(w) && p in w.grid && c.x == p.0 && c.y == p.1
    requires forall kind :: w.grid[p].Population(kind) == {} && c.Population(kind) == {}
    ensures AnimalsIndexed(w.(grid := w.grid[p := c]))
  {
    var r := w.(grid := w.grid[p := c]);
    forall kind, a | a in r.Population(kind)
      ensures a in r.animalOf && r.animalOf[a].cell in r.grid && a in r.grid[r.animalOf[a].cell].Population(kind)
    {
      assert a in w.Population(kind) by {
        match kind
        case Erbast =>
        case Carviz =>
      }
      assert a in w.grid[w.animalOf[a].cell].Population(kind);
    }
  }

  lemma SlotFilledGroups(w: World, p: Pos, c: Cell)
    requires GroupsPlaced(w) && p in w.grid
    requires forall kind :: w.grid[p].Groups(kind) == {} && c.Groups(kind) == {}
    ensures GroupsPlaced(w.(grid := w.grid[p := c]))
  {
    var r := w.(grid := w.grid[p := c]);
    forall g | g in r.allGroups
      ensures g in r.groupOf && r.groupOf[g].cell in r.grid && g in r.grid[r.groupOf[g].cell].Groups(r.groupOf[g].kind)
    {
      assert g in w.grid[w.groupOf[g].cell].Groups(w.groupOf[g].kind);
    }
  }

  /**
   * The spawn of a ground cell when the world is generated: each species whose world
   * population is at most its limit is eligible, and one of them, if any, is spawned in
   * the cell. A water cell, or a ground cell with no species eligible, spawns nothing.
   * Only the population of the spawned species and the cell itself change.
   */
  method InitializeSpecies(w: World, p: Pos) returns (r: World, spawned: Option<Species>)
    requires Valid(w) && Sparse(w) && Capped(w) && Interior(w, p) && p in w.grid && Vacant(w.grid[p])
    ensures Valid(r) && Sparse(r) && Capped(r)
    ensures r.rows == w.rows && r.cols == w.cols && r.grid.Keys == w.grid.Keys
    ensures spawned.None? <==> w.grid[p].cellType != Ground || forall s :: !Eligible(w, s)
    ensures spawned.None? ==> r == w
    ensures spawned.Some? ==>
      && Eligible(w, spawned.value)
      && Count(r, spawned.value) == Count(w, spawned.value) + 1
      && (forall s :: s != spawned.value ==> Count(r, s) == Count(w, s))
      && Residents(r.grid[p]) == 1
    ensures forall q :: q in w.grid && q != p ==> r.grid[q] == w.grid[q]
    ensures r.allGroups == w.allGroups && r.groupOf == w.groupOf
    ensures Residents(r.grid[p]) == 1 <==> w.grid[p].cellType == Ground && exists s :: Eligible(w, s)
    ensures Residents(r.grid[p]) == 0 ==> r == w
    ensures r.grid[p].cellType == w.grid[p].cellType
    ensures forall s :: Count(w, s) <= Count(r, s)
  {
    r, spawned := w, None;
    if w.grid[p].cellType != Ground {
      return;
    }
    spawned := ChooseSpecies(w);
    if spawned.None? {
      return;
    }
    var s := spawned.value;
    r := Spawn(w, p, s);
    SpawnKeepsValid(w, p, s, r);
    SpawnedCell(w, p, s, r);
    SpawnedSparse(w, p, r);
    SpawnCounted(w, s, r);
    CappedAfterSpawn(w, s, r);
  }

  /**
   * Lists the species whose world population is at most its limit and picks one of them
   * at random; None when there is none.
   */
  method ChooseSpecies(w: World) returns (spawned: Option<Species>)
    ensures spawned.None? <==> forall s :: !Eligible(w, s)
    ensures spawned.Some? ==> Eligible(w, spawned.value)
  {
    var available: seq<Species> := [];
    if |w.erbasts| <= MAX_ERBAST {
      available := available + [Fauna(Erbast)];
    }
    if |w.vegetebobs| <= MAX_VEGETOBOB {
      available := available + [Flora];
    }
    if |w.carvizes| <= MAX_CARVIZ {
      available := available + [Fauna(Carviz)];
    }
    assert forall s :: s in available <==> Eligible(w, s) by {
      forall s
        ensures s in available <==> Eligible(w, s)
      {
        match s
        case Flora =>
        case Fauna(Erbast) =>
        case Fauna(Carviz) =>
      }
    }
    if available == [] {
      return None;
    }
    assert available[0] in available;
    var s :| s in available;
    return Some(s);
  }

  /** Spawning an eligible species keeps every population within one of its limit. */
  lemma CappedAfterSpawn(w: World, s: Species, r: World)
    requires Capped(w) && Eligible(w, s)
    requires Count(r, s) == Count(w, s) + 1 && forall t :: t != s ==> Count(r, t) == Count(w, t)
    ensures Capped(r)
  {
  }

  /** r is w after one entity of species s has been spawned at p. */
  ghost predicate SpawnedAt(w: World, p: Pos, s: Species, r: World)
  {
    match s
    case Flora => Vegetation.Planted(w, p, r)
    case Fauna(kind) => Animals.Born(w, kind, p, r)
  }

  /** Spawns a new entity of species s at p, in a cell that holds none. */
  method Spawn(w: World, p: Pos, s: Species) returns (r: World)
    requires p in w.grid && Vacant(w.grid[p])
    ensures SpawnedAt(w, p, s, r)
  {
    match s
    case Flora =>
      var v;
      r, v := Vegetation.NewVegetebob(w, p);
    case Fauna(kind) =>
      var a;
      r, a := Animals.NewAnimal(w, kind, p);
  }

  /** A spawn in a vacant interior cell keeps the world valid. */
  lemma SpawnKeepsValid(w: World, p: Pos, s: Species, r: World)
    requires Valid(w) && Interior(w, p) && p in w.grid && Vacant(w.grid[p])
    requires SpawnedAt(w, p, s, r)
    ensures Valid(r)
  {
    match s
    case Flora =>
      Vegetation.PlantedKeepsValid(w, p, r);
    case Fauna(kind) =>
      Animals.NewAnimalKeepsValid(w, kind, p, r);
  }

  /**
   * A spawn in a vacant ground cell leaves it holding exactly the newcomer and changes no
   * other cell and no group.
   */
  lemma SpawnedCell(w: World, p: Pos, s: Species, r: World)
    requires p in w.grid && Vacant(w.grid[p]) && w.grid[p].cellType == Ground
    requires SpawnedAt(w, p, s, r)
    ensures r.rows == w.rows && r.cols == w.cols && r.grid.Keys == w.grid.Keys
    ensures p in r.grid && Residents(r.grid[p]) == 1 && r.grid[p].cellType == Ground
    ensures forall q :: q in w.grid && q != p ==> r.grid[q] == w.grid[q]
    ensures r.allGroups == w.allGroups && r.groupOf == w.groupOf
  {
    match s
    case Flora =>
      assert r.grid[p].vegetebobs == {w.nextId};
    case Fauna(kind) =>
      assert r.grid[p].vegetebobs == {};
      assert r.grid[p].Population(kind) == {w.nextId};
      assert r.grid[p].Population(OtherKind(kind)) == {};
      match kind
      case Erbast =>
        assert r.grid[p].erbasts == {w.nextId} && r.grid[p].carvizes == {};
      case Carviz =>
        assert r.grid[p].carvizes == {w.nextId} && r.grid[p].erbasts == {};
  }

  /** Holding one entity in a ground cell and changing no other cell keeps the world sparse. */
  lemma SpawnedSparse(w: World, p: Pos, r: World)
    requires Sparse(w) && r.grid.Keys == w.grid.Keys && p in r.grid
    requires Residents(r.grid[p]) == 1 && r.grid[p].cellType == Ground
    requires forall q :: q in w.grid && q != p ==> r.grid[q] == w.grid[q]
    ensures Sparse(r)
  {
  }

  /** A spawn grows the population of its species by one, and no other. */
  lemma SpawnCounted(w: World, s: Species, r: World)
    requires Valid(w)
    requires s.Flora? ==> r.vegetebobs == w.vegetebobs + {w.nextId} && r.erbasts == w.erbasts && r.carvizes == w.carvizes
    requires s.Fauna? ==>
      && r.Population(s.kind) == w.Population(s.kind) + {w.nextId}
      && r.Population(OtherKind(s.kind)) == w.Population(OtherKind(s.kind))
      && r.vegetebobs == w.vegetebobs
    ensures Count(r, s) == Count(w, s) + 1
    ensures forall t :: t != s ==> Count(r, t) == Count(w, t)
  {
    match s
    case Flora =>
      assert w.nextId !in w.vegetebobs;
    case Fauna(kind) =>
      assert w.nextId !in w.animalOf;
      forall t | t != s
        ensures Count(r, t) == Count(w, t)
      {
        match t
        case Flora =>
        case Fauna(k) =>
          assert k == OtherKind(kind) by {
            match kind
            case Erbast =>
            case Carviz =>
          }
      }
  }

  /** The vegetebobs of the world standing in cells before (x, y) in row-major order. */
  ghost function PlantsBefore(w: World, x: int, y: int): set<VegetebobId>
  {
    set v | v in w.vegetebobs && v in w.vegetebobOf && Before(w.vegetebobOf[v].cell, x, y)
  }

  /** The animals of the world standing in cells before (x, y) in row-major order. */
  ghost function AnimalsBefore(w: World, x: int, y: int): set<AnimalId>
  {
    set a | a in w.erbasts + w.carvizes && a in w.animalOf && Before(w.animalOf[a].cell, x, y)
  }

  /** Two cells hold the same vegetebobs, erbasts and carvizes. */
  predicate SameResidentsAt(c: Cell, d: Cell)
  {
    c.vegetebobs == d.vegetebobs && c.erbasts == d.erbasts && c.carvizes == d.carvizes
  }

  /** Every cell of w0 from (x, y) onwards holds in r what it held in w0. */
  ghost predicate UntouchedFrom(w0: World, r: World, x: int, y: int)
  {
    forall q :: q in w0.grid && !Before(q, x, y) ==> q in r.grid && SameResidentsAt(w0.grid[q], r.grid[q])
  }

  /** An entity that lives a first phase: a vegetebob or an animal. */
  datatype Entity = Plant(v: VegetebobId) | Beast(a: AnimalId)

  /**
   * r is w after the first phase of e: for a vegetebob, its day of growth; for an animal,
   * its ageing, grouping and spawn phase.
   */
  ghost predicate Stepped(w: World, e: Entity, r: World)
  {
    match e
    case Plant(v) => v in w.vegetebobOf && Vegetation.DayLived(w, v, r)
    case Beast(a) => Animals.FirstPhaseLived(w, a, r)
  }

  /**
   * Stepped(w, e, r), stated through the world it ends in so that a proof draws out the
   * facts of a step only where it mentions that step.
   */
  ghost predicate EntityLived(w: World, e: Entity, r: World)
  {
    forall x | x == r :: Stepped(w, e, x)
  }

  /**
   * worlds traces the first phases of the entities of order, one after the other: each
   * world is the one before it after the first phase of the next entity.
   */
  ghost predicate Lived(worlds: seq<World>, order: seq<Entity>)
    decreases |order|
  {
    && |worlds| == |order| + 1
    && (order != [] ==>
          && Lived(worlds[..|order|], order[..|order| - 1])
          && EntityLived(worlds[|order| - 1], order[|order| - 1], worlds[|order|]))
  }

  /** A trace is exactly a sequence of worlds each of which follows from the one before. */
  lemma {:induction false} LivedEach(worlds: seq<World>, order: seq<Entity>)
    ensures Lived(worlds, order) <==>
      && |worlds| == |order| + 1
      && forall k :: 0 <= k < |order| ==> EntityLived(worlds[k], order[k], worlds[k + 1])
    decreases |order|
  {
    if |worlds| == |order| + 1 && order != [] {
      var n := |order|;
      LivedEach(worlds[..n], order[..n - 1]);
    }
  }

  /** One more entity living its first phase extends a trace. */
  lemma LivedStep(worlds: seq<World>, order: seq<Entity>, e: Entity, next: World)
    requires Lived(worlds, order) && EntityLived(worlds[|order|], e, next)
    ensures Lived(worlds + [next], order + [e])
  {
    assert (worlds + [next])[..|order| + 1] == worlds;
    assert (order + [e])[..|order|] == order;
  }

  /** A trace followed by a trace from its last world is a trace of both orders. */
  lemma {:induction false} LivedConcat(worlds: seq<World>, order: seq<Entity>, more: seq<World>, after: seq<Entity>)
    requires Lived(worlds, order) && Lived(more, after) && more[0] == worlds[|order|]
    ensures Lived(worlds + more[1..], order + after)
    ensures (worlds + more[1..])[0] == worlds[0] && (worlds + more[1..])[|order + after|] == more[|after|]
    decreases |after|
  {
    if after == [] {
      assert worlds + more[1..] == worlds && order + after == order;
    } else {
      var n := |after|;
      LivedConcat(worlds, order, more[..n], after[..n - 1]);
      assert worlds + more[..n][1..] == (worlds + more[1..])[..|order| + n];
      assert order + after[..n - 1] == (order + after)[..|order| + n - 1];
      LivedStep(worlds + more[..n][1..], order + after[..n - 1], after[n - 1], more[n]);
      assert worlds + more[..n][1..] + [more[n]] == worlds + more[1..];
      assert order + after[..n - 1] + [after[n - 1]] == order + after;
    }
  }

  /** The first phase of the next vegetebob of order extends the trace of those before it. */
  lemma PlantLived(worlds: seq<World>, order: seq<VegetebobId>, i: int, next: World)
    requires 0 <= i < |order| && Lived(worlds, Plants(order[..i]))
    requires Stepped(worlds[i], Plant(order[i]), next)
    ensures Lived(worlds + [next], Plants(order[..i + 1]))
  {
    LivedStep(worlds, Plants(order[..i]), Plant(order[i]), next);
    assert Plants(order[..i]) + [Plant(order[i])] == Plants(order[..i + 1]);
  }

  /** The first phase of the next animal of order extends the trace of those before it. */
  lemma BeastLived(worlds: seq<World>, order: seq<AnimalId>, i: int, next: World)
    requires 0 <= i < |order| && Lived(worlds, Beasts(order[..i]))
    requires Stepped(worlds[i], Beast(order[i]), next)
    ensures Lived(worlds + [next], Beasts(order[..i + 1]))
  {
    LivedStep(worlds, Beasts(order[..i]), Beast(order[i]), next);
    assert Beasts(order[..i]) + [Beast(order[i])] == Beasts(order[..i + 1]);
  }

  /** The vegetebobs of vs, as entities. */
  function Plants(vs: seq<VegetebobId>): (r: seq<Entity>)
    ensures |r| == |vs| && forall k :: 0 <= k < |vs| ==> r[k] == Plant(vs[k])
  {
    seq(|vs|, k requires 0 <= k < |vs| => Plant(vs[k]))
  }

  /** The animals of ids, as entities. */
  function Beasts(ids: seq<AnimalId>): (r: seq<Entity>)
    ensures |r| == |ids| && forall k :: 0 <= k < |ids| ==> r[k] == Beast(ids[k])
  {
    seq(|ids|, k requires 0 <= k < |ids| => Beast(ids[k]))
  }

  /** A list without repetitions stays one as entities, and holds the same ids. */
  lemma PlantsOnce(vs: seq<VegetebobId>)
    requires Distinct(vs)
    ensures Distinct(Plants(vs)) && forall e :: e in Plants(vs) <==> e.Plant? && e.v in vs
  {
    forall e: Entity | e.Plant? && e.v in vs
      ensures e in Plants(vs)
    {
      var k :| 0 <= k < |vs| && vs[k] == e.v;
      assert Plants(vs)[k] == e;
    }
  }

  /** A list without repetitions stays one as entities, and holds the same ids. */
  lemma BeastsOnce(ids: seq<AnimalId>)
    requires Distinct(ids)
    ensures Distinct(Beasts(ids)) && forall e :: e in Beasts(ids) <==> e.Beast? && e.a in ids
  {
    forall e: Entity | e.Beast? && e.a in ids
      ensures e in Beasts(ids)
    {
      var k :| 0 <= k < |ids| && ids[k] == e.a;
      assert Beasts(ids)[k] == e;
    }
  }

  /** order lists, each once, the vegetebobs and the animals of w0 standing before (x, y). */
  ghost predicate Listed(w0: World, x: int, y: int, order: seq<Entity>)
  {
    && Distinct(order)
    && (forall v :: Plant(v) in order <==> v in PlantsBefore(w0, x, y))
    && (forall a :: Beast(a) in order <==> a in AnimalsBefore(w0, x, y))
  }

  /** order lists, each once, the vegetebobs and the animals of the cell c. */
  ghost predicate CellListed(c: Cell, order: seq<Entity>)
  {
    && Distinct(order)
    && (forall v :: Plant(v) in order <==> v in c.vegetebobs)
    && (forall a :: Beast(a) in order <==> a in c.erbasts || a in c.carvizes)
  }

  /**
   * The first phase of the day, run on w0 up to the cell (x, y): r is valid, each cell
   * from (x, y) onwards holds what it held in w0, order lists, each once, the vegetebobs
   * and the animals that stood in the cells before (x, y) in w0, and worlds traces their
   * first phases from w0 to r.
   */
  ghost predicate FirstPhaseAt(w0: World, r: World, x: int, y: int, order: seq<Entity>, worlds: seq<World>)
  {
    && Valid(r) && r.rows == w0.rows && r.cols == w0.cols && r.grid.Keys == w0.grid.Keys
    && UntouchedFrom(w0, r, x, y) && Listed(w0, x, y, order)
    && Lived(worlds, order) && worlds[0] == w0 && worlds[|order|] == r
  }

  /**
   * The first phase of the day of the whole world: cell by cell in row-major order, the
   * vegetebobs, then the erbasts, then the carvizes the cell holds when its turn comes
   * live their first phase. order lists every vegetebob and every animal alive at the start
   * of the day exactly once, and nothing born during the phase; worlds traces their first
   * phases, in that order, from w to r.
   */
  method FirstPhase(w: World) returns (r: World, ghost order: seq<Entity>, ghost worlds: seq<World>)
    requires Valid(w)
    ensures Valid(r) && r.rows == w.rows && r.cols == w.cols
    ensures Lived(worlds, order) && worlds[0] == w && worlds[|order|] == r
    ensures Distinct(order)
    ensures forall v :: Plant(v) in order <==> v in w.vegetebobs
    ensures forall a :: Beast(a) in order <==> a in w.erbasts || a in w.carvizes
  {
    r, order, worlds := w, [], [w];
    NoneBefore(w);
    var x := 0;
    while x < w.rows
      invariant x <= w.rows || x == 0
      invariant FirstPhaseAt(w, r, x, 0, order, worlds)
    {
      r, order, worlds := FirstPhaseRow(w, r, x, order, worlds);
      x := x + 1;
    }
    AllBefore(w, x);
  }

  /** No entity stands before the first cell. */
  lemma NoneBefore(w: World)
    requires Valid(w)
    ensures PlantsBefore(w, 0, 0) == {} && AnimalsBefore(w, 0, 0) == {}
  {
    assert forall v :: v in w.vegetebobs ==> InGrid(w, w.vegetebobOf[v].cell);
    forall a | a in w.erbasts + w.carvizes
      ensures a in w.animalOf && InGrid(w, w.animalOf[a].cell)
    {
      assert a in w.Population(Erbast) || a in w.Population(Carviz);
    }
  }

  /** Once every row is done, every entity of the world stands before the current cell. */
  lemma AllBefore(w: World, x: int)
    requires Valid(w) && x >= w.rows
    ensures PlantsBefore(w, x, 0) == w.vegetebobs && AnimalsBefore(w, x, 0) == w.erbasts + w.carvizes
  {
    assert forall v :: v in w.vegetebobs ==> InGrid(w, w.vegetebobOf[v].cell);
    forall a | a in w.erbasts + w.carvizes
      ensures a in w.animalOf && InGrid(w, w.animalOf[a].cell)
    {
      assert a in w.Population(Erbast) || a in w.Population(Carviz);
    }
  }

  /** The first phase of the cells of row x, left to right. */
  method FirstPhaseRow(w0: World, w: World, x: int, ghost order: seq<Entity>, ghost worlds: seq<World>)
    returns (r: World, ghost order': seq<Entity>, ghost worlds': seq<World>)
    requires Valid(w0) && 0 <= x < w0.rows && FirstPhaseAt(w0, w, x, 0, order, worlds)
    ensures FirstPhaseAt(w0, r, x + 1, 0, order', worlds')
  {
    r, order', worlds' := w, order, worlds;
    var y := 0;
    while y < w0.cols
      invariant 0 <= y && (y <= w0.cols || y == 0)
      invariant FirstPhaseAt(w0, r, x, y, order', worlds')
    {
      r, order', worlds' := FirstPhaseCell(w0, r, x, y, order', worlds');
      y := y + 1;
    }
    RowEnd(w0, r, x, y, order', worlds');
  }

  /** The first phase of the cell (x, y), which moves the first phase on to the next cell. */
  method FirstPhaseCell(w0: World, w: World, x: int, y: int, ghost order: seq<Entity>, ghost worlds: seq<World>)
    returns (r: World, ghost order': seq<Entity>, ghost worlds': seq<World>)
    requires Valid(w0) && 0 <= x < w0.rows && 0 <= y < w0.cols && FirstPhaseAt(w0, w, x, y, order, worlds)
    ensures FirstPhaseAt(w0, r, x, y + 1, order', worlds')
  {
    var p := (x, y);
    assert p in w0.grid && SameResidentsAt(w0.grid[p], w.grid[p]);
    ghost var cellOrder, cellWorlds;
    r, cellOrder, cellWorlds := LiveCell(w, p);
    UntouchedStep(w0, w, x, y, r);
    ListedStep(w0, x, y, order, w.grid[p], cellOrder);
    LivedConcat(worlds, order, cellWorlds, cellOrder);
    order', worlds' := order + cellOrder, worlds + cellWorlds[1..];
  }

  /** A cell's first phase, which touches only that cell, leaves the cells after it untouched. */
  lemma UntouchedStep(w0: World, w: World, x: int, y: int, r: World)
    requires UntouchedFrom(w0, w, x, y)
    requires forall q :: q in w.grid && q != (x, y) ==> q in r.grid && SameResidentsAt(w.grid[q], r.grid[q])
    ensures UntouchedFrom(w0, r, x, y + 1)
  {
  }

  /** Listing the entities of (x, y) after those before it lists those before the next cell. */
  lemma ListedStep(w0: World, x: int, y: int, order: seq<Entity>, c: Cell, cellOrder: seq<Entity>)
    requires Valid(w0) && (x, y) in w0.grid && Listed(w0, x, y, order)
    requires SameResidentsAt(w0.grid[(x, y)], c) && CellListed(c, cellOrder)
    ensures Listed(w0, x, y + 1, order + cellOrder)
  {
    PlantsStep(w0, x, y);
    AnimalsStep(w0, x, y);
    forall e | e in order
      ensures e !in cellOrder
    {
      match e
      case Plant(v) =>
      case Beast(a) =>
    }
    DistinctConcat(order, cellOrder);
  }

  /** The vegetebobs before the cell after (x, y) are those before (x, y) and those of (x, y). */
  lemma PlantsStep(w: World, x: int, y: int)
    requires Valid(w) && (x, y) in w.grid
    ensures PlantsBefore(w, x, y + 1) == PlantsBefore(w, x, y) + w.grid[(x, y)].vegetebobs
    ensures forall v :: v in PlantsBefore(w, x, y) ==> v !in w.grid[(x, y)].vegetebobs
  {
    assert VegetationIndexed(w);
  }

  /** The animals before the cell after (x, y) are those before (x, y) and those of (x, y). */
  lemma AnimalsStep(w: World, x: int, y: int)
    requires Valid(w) && (x, y) in w.grid
    ensures AnimalsBefore(w, x, y + 1) == AnimalsBefore(w, x, y) + (w.grid[(x, y)].erbasts + w.grid[(x, y)].carvizes)
    ensures forall a :: a in AnimalsBefore(w, x, y) ==> a !in w.grid[(x, y)].erbasts + w.grid[(x, y)].carvizes
  {
    var p := (x, y);
    forall a | a in w.grid[p].erbasts + w.grid[p].carvizes
      ensures a in w.erbasts + w.carvizes && a in w.animalOf && w.animalOf[a].cell == p
    {
      assert a in w.grid[p].Population(Erbast) || a in w.grid[p].Population(Carviz);
    }
    forall a | a in w.erbasts + w.carvizes && a in w.animalOf && w.animalOf[a].cell == p
      ensures a in w.grid[p].erbasts + w.grid[p].carvizes
    {
      assert a in w.Population(Erbast) || a in w.Population(Carviz);
    }
  }

  /** Two lists without repetitions and without common elements join into one without repetitions. */
  lemma DistinctConcat<T>(s: seq<T>, t: seq<T>)
    requires Distinct(s) && Distinct(t) && forall x :: x in s ==> x !in t
    ensures Distinct(s + t)
  {
    forall i, j | 0 <= i < j < |s + t|
      ensures (s + t)[i] != (s + t)[j]
    {
      if j >= |s| && i < |s| {
        assert (s + t)[i] in s && (s + t)[j] in t;
      }
    }
  }

  /** At the end of row x, the first phase has reached the start of row x + 1. */
  lemma RowEnd(w0: World, r: World, x: int, y: int, order: seq<Entity>, worlds: seq<World>)
    requires Valid(w0) && 0 <= y && w0.cols <= y && FirstPhaseAt(w0, r, x, y, order, worlds)
    ensures FirstPhaseAt(w0, r, x + 1, 0, order, worlds)
  {
    assert forall q :: q in w0.grid ==> (Before(q, x, y) <==> Before(q, x + 1, 0));
    assert PlantsBefore(w0, x, y) == PlantsBefore(w0, x + 1, 0) by {
      assert forall v :: v in w0.vegetebobs ==> w0.vegetebobOf[v].cell in w0.grid;
    }
    assert AnimalsBefore(w0, x, y) == AnimalsBefore(w0, x + 1, 0) by {
      forall a | a in w0.erbasts + w0.carvizes
        ensures a in w0.animalOf && w0.animalOf[a].cell in w0.grid
      {
        assert a in w0.Population(Erbast) || a in w0.Population(Carviz);
      }
    }
  }

  /**
   * The first phase of the entities of the cell at p: its vegetebobs, then its erbasts,
   * then its carvizes, each group as the cell holds it when its turn comes. order lists,
   * each once, the vegetebobs and the animals the cell held at the start, every vegetebob
   * before every animal, and worlds traces their first phases from w to r; no other cell
   * changes its residents.
   */
  method LiveCell(w: World, p: Pos) returns (r: World, ghost order: seq<Entity>, ghost worlds: seq<World>)
    requires Valid(w) && p in w.grid
    ensures Valid(r) && r.rows == w.rows && r.cols == w.cols && r.grid.Keys == w.grid.Keys
    ensures forall q :: q in w.grid && q != p ==> q in r.grid && SameResidentsAt(w.grid[q], r.grid[q])
    ensures CellListed(w.grid[p], order)
    ensures forall i, j :: 0 <= i < j < |order| && order[i].Beast? ==> order[j].Beast?
    ensures ErbastsFirst(w.grid[p], order)
    ensures Lived(worlds, order) && worlds[0] == w && worlds[|order|] == r
  {
    var vegetebobs := ListOf(w.grid[p].vegetebobs);
    assert forall v :: v in w.grid[p].vegetebobs ==> v in w.vegetebobs;
    ghost var grown;
    r, grown := PlantsLive(w, vegetebobs);
    var grazed := r;
    ghost var beasts, fed;
    r, beasts, fed := AnimalsOfCellLive(grazed, p);
    LivedConcat(grown, Plants(vegetebobs), fed, beasts);
    order, worlds := Plants(vegetebobs) + beasts, grown + fed[1..];
    CellOrderListed(w.grid[p], vegetebobs, beasts);
    ErbastsFirstAfterPlants(w.grid[p], vegetebobs, beasts);
  }

  /** In order, every entity after one of the carvizes of c is one of them too: erbasts come first. */
  ghost predicate ErbastsFirst(c: Cell, order: seq<Entity>)
  {
    forall i, j :: 0 <= i < j < |order| && order[i].Beast? && order[i].a in c.carvizes ==>
      order[j].Beast? && order[j].a in c.carvizes
  }

  /** Listing the erbasts, then the carvizes of c puts every erbast before every carviz. */
  lemma ErbastsBeforeCarvizes(c: Cell, erbasts: seq<AnimalId>, carvizes: seq<AnimalId>)
    requires Distinct(erbasts + carvizes) && forall a :: a in carvizes <==> a in c.carvizes
    ensures ErbastsFirst(c, Beasts(erbasts + carvizes))
  {
    var ids := erbasts + carvizes;
    DistinctApart(erbasts, carvizes);
    forall i, j | 0 <= i < j < |ids| && ids[i] in c.carvizes
      ensures ids[j] in c.carvizes
    {
      assert i >= |erbasts|;
      assert ids[j] == carvizes[j - |erbasts|];
    }
  }

  /** The two halves of a list without repetitions share no element. */
  lemma DistinctApart<T>(xs: seq<T>, ys: seq<T>)
    requires Distinct(xs + ys)
    ensures forall k :: 0 <= k < |xs| ==> xs[k] !in ys
  {
    forall k, m | 0 <= k < |xs| && 0 <= m < |ys|
      ensures xs[k] != ys[m]
    {
      assert (xs + ys)[k] == xs[k] && (xs + ys)[|xs| + m] == ys[m];
    }
  }

  /** Vegetebobs listed before the animals keep the erbasts first. */
  lemma ErbastsFirstAfterPlants(c: Cell, vegetebobs: seq<VegetebobId>, beasts: seq<Entity>)
    requires ErbastsFirst(c, beasts)
    ensures ErbastsFirst(c, Plants(vegetebobs) + beasts)
  {
    var order := Plants(vegetebobs) + beasts;
    forall i, j | 0 <= i < j < |order| && order[i].Beast? && order[i].a in c.carvizes
      ensures order[j].Beast? && order[j].a in c.carvizes
    {
      assert i >= |vegetebobs|;
      assert order[i] == beasts[i - |vegetebobs|] && order[j] == beasts[j - |vegetebobs|];
    }
  }

  /** The vegetebobs of a cell followed by its animals list each of its entities once. */
  lemma CellOrderListed(c: Cell, vegetebobs: seq<VegetebobId>, beasts: seq<Entity>)
    requires Distinct(vegetebobs) && forall v :: v in vegetebobs <==> v in c.vegetebobs
    requires Distinct(beasts) && forall e :: e in beasts <==> e.Beast? && (e.a in c.erbasts || e.a in c.carvizes)
    ensures CellListed(c, Plants(vegetebobs) + beasts)
    ensures var order := Plants(vegetebobs) + beasts;
      forall i, j :: 0 <= i < j < |order| && order[i].Beast? ==> order[j].Beast?
  {
    PlantsOnce(vegetebobs);
    forall e | e in Plants(vegetebobs)
      ensures e !in beasts
    {
    }
    DistinctConcat(Plants(vegetebobs), beasts);
    var order := Plants(vegetebobs) + beasts;
    forall i, j | 0 <= i < j < |order| && order[i].Beast?
      ensures order[j].Beast?
    {
      assert i >= |vegetebobs|;
      assert order[j] in beasts;
    }
  }

  /**
   * The first phase of the erbasts, then of the carvizes, of the cell at p, each kind as
   * the cell holds it when its turn comes: order lists, each once, the animals the cell held
   * at the start, all of them animals, and worlds traces their first phases from w to r;
   * no cell changes its residents except p.
   */
  method AnimalsOfCellLive(w: World, p: Pos) returns (r: World, ghost order: seq<Entity>, ghost worlds: seq<World>)
    requires Valid(w) && p in w.grid
    ensures Valid(r) && r.rows == w.rows && r.cols == w.cols && r.grid.Keys == w.grid.Keys
    ensures forall q :: q in w.grid && q != p ==> q in r.grid && SameResidentsAt(w.grid[q], r.grid[q])
    ensures Distinct(order) && forall e :: e in order <==> e.Beast? && (e.a in w.grid[p].erbasts || e.a in w.grid[p].carvizes)
    ensures ErbastsFirst(w.grid[p], order)
    ensures Lived(worlds, order) && worlds[0] == w && worlds[|order|] == r
  {
    var erbasts := ListOf(w.grid[p].erbasts);
    ghost var hunting;
    r, hunting := AnimalsLive(w, erbasts, p, Erbast);
    var hunted := r;
    var carvizes := ListOf(hunted.grid[p].carvizes);
    ghost var hunts;
    r, hunts := AnimalsLive(hunted, carvizes, p, Carviz);
    OthersKeepResidents(w, p, hunted, r);
    ListedApart(w, p, erbasts, carvizes);
    BeastsJoined(hunting, erbasts, hunts, carvizes);
    ErbastsBeforeCarvizes(w.grid[p], erbasts, carvizes);
    order, worlds := Beasts(erbasts + carvizes), hunting + hunts[1..];
  }

  /** The traces of the erbasts and then of the carvizes of a cell join into one. */
  lemma BeastsJoined(hunting: seq<World>, erbasts: seq<AnimalId>, hunts: seq<World>, carvizes: seq<AnimalId>)
    requires Lived(hunting, Beasts(erbasts)) && Lived(hunts, Beasts(carvizes)) && hunts[0] == hunting[|erbasts|]
    requires Distinct(erbasts + carvizes)
    ensures Lived(hunting + hunts[1..], Beasts(erbasts + carvizes))
    ensures (hunting + hunts[1..])[0] == hunting[0] && (hunting + hunts[1..])[|erbasts + carvizes|] == hunts[|carvizes|]
    ensures Distinct(Beasts(erbasts + carvizes))
    ensures forall e :: e in Beasts(erbasts + carvizes) <==> e.Beast? && e.a in erbasts + carvizes
  {
    LivedConcat(hunting, Beasts(erbasts), hunts, Beasts(carvizes));
    assert Beasts(erbasts) + Beasts(carvizes) == Beasts(erbasts + carvizes);
    BeastsOnce(erbasts + carvizes);
  }

  /**
   * The first phases of a cell's erbasts and then its carvizes leave every other cell's
   * residents alone, and the carvizes find, when their turn comes, the carvizes the cell
   * held at the start.
   */
  lemma OthersKeepResidents(w: World, p: Pos, hunted: World, r: World)
    requires Animals.OnlyOwnPopulation(w, hunted, p, Erbast) && Animals.OnlyOwnPopulation(hunted, r, p, Carviz)
    ensures r.grid.Keys == w.grid.Keys
    ensures forall q :: q in w.grid && q != p ==> q in r.grid && SameResidentsAt(w.grid[q], r.grid[q])
    ensures p in w.grid ==> hunted.grid[p].carvizes == w.grid[p].carvizes
  {
    forall q | q in w.grid && q != p
      ensures q in r.grid && SameResidentsAt(w.grid[q], r.grid[q])
    {
      assert hunted.grid[q].Population(Erbast) == w.grid[q].Population(Erbast);
      assert hunted.grid[q].Population(Carviz) == w.grid[q].Population(Carviz);
      assert r.grid[q].Population(Erbast) == hunted.grid[q].Population(Erbast);
      assert r.grid[q].Population(Carviz) == hunted.grid[q].Population(Carviz);
    }
    if p in w.grid {
      assert hunted.grid[p].Population(Carviz) == w.grid[p].Population(Carviz);
    }
  }

  /** The erbasts and the carvizes of a cell, listed one after the other, are listed once each. */
  lemma ListedApart(w: World, p: Pos, erbasts: seq<AnimalId>, carvizes: seq<AnimalId>)
    requires Valid(w) && p in w.grid
    requires Distinct(erbasts) && forall a :: a in erbasts <==> a in w.grid[p].erbasts
    requires Distinct(carvizes) && forall a :: a in carvizes <==> a in w.grid[p].carvizes
    ensures Distinct(erbasts + carvizes)
    ensures forall a :: a in erbasts + carvizes <==> a in w.grid[p].erbasts || a in w.grid[p].carvizes
  {
    assert forall a :: a in w.grid[p].Population(Erbast) ==> a in w.animalOf && w.animalOf[a].species == Erbast;
    assert forall a :: a in w.grid[p].Population(Carviz) ==> a in w.animalOf && w.animalOf[a].species == Carviz;
    DistinctConcat(erbasts, carvizes);
  }

  /**
   * The first phase of each vegetebob of order, in turn: worlds traces them from w to r.
   * No animal, group or resident changes.
   */
  method PlantsLive(w: World, order: seq<VegetebobId>) returns (r: World, ghost worlds: seq<World>)
    requires Valid(w) && forall j :: 0 <= j < |order| ==> order[j] in w.vegetebobs
    ensures Valid(r) && r.rows == w.rows && r.cols == w.cols && Vegetation.SameResidents(w, r)
    ensures Lived(worlds, Plants(order)) && worlds[0] == w && worlds[|order|] == r
  {
    r, worlds := w, [w];
    var i := 0;
    while i < |order|
      invariant 0 <= i <= |order|
      invariant Valid(r) && r.rows == w.rows && r.cols == w.cols && Vegetation.SameResidents(w, r)
      invariant r.vegetebobs == w.vegetebobs
      invariant Lived(worlds, Plants(order[..i])) && worlds[0] == w && worlds[i] == r
    {
      var next := Vegetation.LiveFirstPhase(r, order[i]);
      Vegetation.DayLivedResidents(r, order[i], next);
      Vegetation.ResidentsTrans(w, r, next);
      assert Stepped(r, Plant(order[i]), next);
      PlantLived(worlds, order, i, next);
      r, worlds := next, worlds + [next];
      i := i + 1;
    }
    assert order[..i] == order;
  }

  /**
   * The first phase of each animal of order, all of kind and standing at p, in turn:
   * worlds traces them from w to r. No population changes but that of kind at p.
   */
  method AnimalsLive(w: World, order: seq<AnimalId>, p: Pos, kind: AnimalKind) returns (r: World, ghost worlds: seq<World>)
    requires Valid(w) && p in w.grid && Distinct(order)
    requires forall j :: 0 <= j < |order| ==> order[j] in w.grid[p].Population(kind)
    ensures Valid(r) && r.rows == w.rows && r.cols == w.cols && Animals.OnlyOwnPopulation(w, r, p, kind)
    ensures Lived(worlds, Beasts(order)) && worlds[0] == w && worlds[|order|] == r
  {
    r, worlds := w, [w];
    var i := 0;
    assert forall j :: 0 <= j < |order| ==> Animals.Alive(w, order[j]) && w.animalOf[order[j]].species == kind && w.animalOf[order[j]].cell == p;
    while i < |order|
      invariant 0 <= i <= |order|
      invariant Valid(r) && r.rows == w.rows && r.cols == w.cols && Animals.OnlyOwnPopulation(w, r, p, kind)
      invariant forall j :: i <= j < |order| ==>
        Animals.Alive(r, order[j]) && r.animalOf[order[j]].species == kind && r.animalOf[order[j]].cell == p
      invariant Lived(worlds, Beasts(order[..i])) && worlds[0] == w && worlds[i] == r
    {
      r, worlds := NextBeast(w, r, order, i, p, kind, worlds);
      i := i + 1;
    }
    assert order[..i] == order;
  }

  /** One step of AnimalsLive: the first phase of the i-th animal of order. */
  method NextBeast(w: World, r: World, order: seq<AnimalId>, i: int, p: Pos, kind: AnimalKind, ghost worlds: seq<World>)
    returns (next: World, ghost worlds': seq<World>)
    requires p in w.grid && Distinct(order) && 0 <= i < |order|
    requires Valid(r) && r.rows == w.rows && r.cols == w.cols && Animals.OnlyOwnPopulation(w, r, p, kind)
    requires forall j :: i <= j < |order| ==>
      Animals.Alive(r, order[j]) && r.animalOf[order[j]].species == kind && r.animalOf[order[j]].cell == p
    requires Lived(worlds, Beasts(order[..i])) && worlds[0] == w && worlds[i] == r
    ensures Valid(next) && next.rows == w.rows && next.cols == w.cols && Animals.OnlyOwnPopulation(w, next, p, kind)
    ensures forall j :: i + 1 <= j < |order| ==>
      Animals.Alive(next, order[j]) && next.animalOf[order[j]].species == kind && next.animalOf[order[j]].cell == p
    ensures Lived(worlds', Beasts(order[..i + 1])) && worlds'[0] == w && worlds'[i + 1] == next
  {
    next := Animals.LiveFirstPhase(r, order[i]);
    Animals.OwnPopulationTrans(w, r, next, p, kind);
    StillToLive(r, next, order, i, p, kind);
    assert Stepped(r, Beast(order[i]), next);
    BeastLived(worlds, order, i, next);
    worlds' := worlds + [next];
  }

  /** The animals of order after the i-th are still alive, of kind and at p, once the i-th has lived. */
  lemma StillToLive(r: World, next: World, order: seq<AnimalId>, i: int, p: Pos, kind: AnimalKind)
    requires Distinct(order) && 0 <= i < |order| && Animals.OthersStay(r, next, order[i])
    requires forall j :: i <= j < |order| ==>
      Animals.Alive(r, order[j]) && r.animalOf[order[j]].species == kind && r.animalOf[order[j]].cell == p
    ensures forall j :: i + 1 <= j < |order| ==>
      Animals.Alive(next, order[j]) && next.animalOf[order[j]].species == kind && next.animalOf[order[j]].cell == p
  {
    forall j | i + 1 <= j < |order|
      ensures Animals.Alive(next, order[j]) && next.animalOf[order[j]].species == kind && next.animalOf[order[j]].cell == p
    {
      assert order[j] != order[i];
    }
  }

  /**
   * A registry without repetitions whose groups are all known and carry ids below nextId
   * holds at most nextId groups.
   */
  lemma RegistryBounded(w: World)
    requires Valid(w)
    ensures |w.allGroups| <= w.nextId
  {
    DistinctCount(w.allGroups);
    forall g | g in Elements(w.allGroups)
      ensures g < w.nextId
    {
      assert g in w.groupOf;
    }
    IdsBelowCount(Elements(w.allGroups), w.nextId);
  }

  /** A set of ids all below n has at most n elements. */
  lemma {:induction false} IdsBelowCount(s: set<nat>, n: nat)
    requires forall x :: x in s ==> x < n
    ensures |s| <= n
  {
    if n > 0 {
      IdsBelowCount(s - {n - 1}, n - 1);
    } else {
      assert s == {};
    }
  }

  /**
   * r is w after the day of the registered group g, a herd's or a pride's, as the group's
   * own module states it; failed tells whether a pride's fight could not draw a winner.
   */
  ghost predicate GroupLived(w: World, g: GroupId, failed: bool, r: World)
  {
    && g in w.groupOf
    && if w.groupOf[g].kind == Herd then !failed && exists d :: Herds.DayLived(w, g, d, r)
       else exists d :: Prides.DayLived(w, g, d, failed, r)
  }

  /**
   * GroupLived(w, g, failed, r), stated through the world it ends in so that a proof draws
   * out the facts of a group's day only where it mentions that day.
   */
  ghost predicate DayDone(w: World, g: GroupId, failed: bool, r: World)
  {
    forall x | x == r :: GroupLived(w, g, failed, x)
  }

  /**
   * turns traces the days of the groups of lived, one after the other: the k-th of them
   * was the group at position k of the registry of turns[k], the world it found, and
   * turns[k + 1] is that world after its day. Only the last day may have failed, and it
   * did exactly when failed.
   */
  ghost predicate Days(turns: seq<World>, lived: seq<GroupId>, failed: bool)
    decreases |lived|
  {
    && |turns| == |lived| + 1
    && (lived == [] ==> !failed)
    && (lived != [] ==>
          var n := |lived| - 1;
          && Days(turns[..n + 1], lived[..n], false)
          && n < |turns[n].allGroups| && lived[n] == turns[n].allGroups[n]
          && DayDone(turns[n], lived[n], failed, turns[n + 1]))
  }

  /** A trace of days is exactly a sequence of group days taken at successive positions. */
  lemma {:induction false} DaysEach(turns: seq<World>, lived: seq<GroupId>, failed: bool)
    ensures Days(turns, lived, failed) <==>
      && |turns| == |lived| + 1
      && (lived == [] ==> !failed)
      && forall k :: 0 <= k < |lived| ==>
           && k < |turns[k].allGroups| && lived[k] == turns[k].allGroups[k]
           && DayDone(turns[k], lived[k], failed && k == |lived| - 1, turns[k + 1])
    decreases |lived|
  {
    if |turns| == |lived| + 1 && lived != [] {
      var n := |lived| - 1;
      DaysEach(turns[..n + 1], lived[..n], false);
    }
  }

  /** The day of the group at the next position of the registry extends the trace. */
  lemma DaysStep(turns: seq<World>, lived: seq<GroupId>, failed: bool, next: World)
    requires Days(turns, lived, false) && |lived| < |turns[|lived|].allGroups|
    requires DayDone(turns[|lived|], turns[|lived|].allGroups[|lived|], failed, next)
    ensures Days(turns + [next], lived + [turns[|lived|].allGroups[|lived|]], failed)
  {
    var n := |lived|;
    assert (turns + [next])[..n + 1] == turns;
    assert (lived + [turns[n].allGroups[n]])[..n] == lived;
  }

  /**
   * The second phase of the day: the day of each registered group, walking the registry by
   * position while the days change it, as iterating a list that is being modified does.
   * The group at position k when its turn comes lives the k-th day, so a group removed
   * from the registry before its turn never lives it, and the group that follows one
   * removed at or before the current position is passed over. The walk ends once the
   * position passes the end of the registry, or at the first pride whose fight could not
   * draw a winner (failed). lived lists the groups that lived their day and turns traces
   * their days from w to r.
   */
  method SecondPhase(w: World) returns (r: World, failed: bool, ghost lived: seq<GroupId>, ghost turns: seq<World>)
    requires Valid(w)
    ensures Valid(r) && SameShape(w, r)
    ensures Days(turns, lived, failed) && turns[0] == w && turns[|lived|] == r
    ensures !failed ==> |lived| >= |r.allGroups|
    ensures failed ==> lived != [] && PrideAt(turns[|lived| - 1], lived[|lived| - 1])
  {
    r, failed, lived, turns := w, false, [], [w];
    var i := 0;
    while i < |r.allGroups|
      invariant Valid(r) && SameShape(w, r) && i == |lived|
      invariant Days(turns, lived, false) && turns[0] == w && turns[i] == r
      decreases w.nextId - i
    {
      r, failed, lived, turns := NextDay(w, r, i, lived, turns);
      if failed {
        return;
      }
      i := i + 1;
    }
  }

  /** One step of the second phase: the day of the group at position i of the registry. */
  method NextDay(w: World, r: World, i: nat, ghost lived: seq<GroupId>, ghost turns: seq<World>)
    returns (next: World, failed: bool, ghost lived': seq<GroupId>, ghost turns': seq<World>)
    requires Valid(r) && SameShape(w, r) && i == |lived| < |r.allGroups|
    requires Days(turns, lived, false) && turns[0] == w && turns[i] == r
    ensures Valid(next) && SameShape(w, next) && |lived'| == i + 1 && i < w.nextId
    ensures Days(turns', lived', failed) && turns'[0] == w && turns'[i + 1] == next
    ensures failed ==> PrideAt(turns'[i], lived'[i])
  {
    RegistryBounded(r);
    var g := r.allGroups[i];
    next, failed := GroupDay(r, g);
    DaysStep(turns, lived, failed, next);
    lived', turns' := lived + [g], turns + [next];
  }

  /** g is a registered pride of w. */
  ghost predicate PrideAt(w: World, g: GroupId)
  {
    g in w.allGroups && g in w.groupOf && w.groupOf[g].kind == Pride
  }

  /** The day of the registered group g, a herd's or a pride's; only a pride's day can fail. */
  method GroupDay(w: World, g: GroupId) returns (r: World, failed: bool)
    requires Valid(w) && g in w.allGroups
    ensures Valid(r) && SameShape(w, r)
    ensures DayDone(w, g, failed, r)
    ensures failed ==> PrideAt(w, g)
  {
    assert g in w.groupOf;
    if w.groupOf[g].kind == Herd {
      ghost var d;
      failed := false;
      r, d := Herds.LiveDay(w, g);
      assert Herds.DayLived(w, g, d, r);
    } else {
      ghost var d;
      r, failed, d := Prides.LiveDay(w, g);
      assert Prides.DayLived(w, g, d, failed, r);
    }
  }

  /**
   * The day of the whole ecosystem: the first phase of every vegetebob and animal, cell by
   * cell, then the day of every group. settled is the world between the two phases; order
   * and worlds trace the first phase as FirstPhase states it, and lived and turns the
   * second phase as SecondPhase states it.
   */
  method LiveDay(w: World)
    returns (r: World, failed: bool, ghost settled: World, ghost order: seq<Entity>, ghost worlds: seq<World>,
             ghost lived: seq<GroupId>, ghost turns: seq<World>)
    requires Valid(w)
    ensures Valid(settled) && settled.rows == w.rows && settled.cols == w.cols
    ensures Lived(worlds, order) && worlds[0] == w && worlds[|order|] == settled
    ensures Distinct(order)
    ensures forall v :: Plant(v) in order <==> v in w.vegetebobs
    ensures forall a :: Beast(a) in order <==> a in w.erbasts || a in w.carvizes
    ensures Valid(r) && SameShape(settled, r)
    ensures Days(turns, lived, failed) && turns[0] == settled && turns[|lived|] == r
    ensures !failed ==> |lived| >= |r.allGroups|
    ensures failed ==> lived != [] && PrideAt(turns[|lived| - 1], lived[|lived| - 1])
  {
    r, order, worlds := FirstPhase(w);
    settled := r;
    r, failed, lived, turns := SecondPhase(r);
  }
}
