// Vegetebobs (species.py): stationary vegetation that is planted in a cell, grows by half
// a unit a day up to 100, and looks at the vegetation of the neighbouring cells.
module Vegetation {
  import opened Constants
  import opened Cells
  import opened Ecosystem

  /**
   * r is w after a vegetebob has been planted at spawn under the identity nextId: it has
   * the initial density and no neighbour cache, it is the vegetation of the cell at spawn
   * (whose appeal is re-evaluated) and part of the world's vegetation; nothing else has
   * changed.
   */
  ghost predicate Planted(w: World, spawn: Pos, r: World)
  {
    var v := w.nextId;
    && r.vegetebobOf == w.vegetebobOf[v := Vegetebob(INITIAL_DENSITY, spawn, None)]
    && spawn in w.grid && spawn in r.grid && r.grid == w.grid[spawn := r.grid[spawn]]
    && r.grid[spawn] == w.grid[spawn].(vegetebobs := w.grid[spawn].vegetebobs + {v},
                                       erbastAppeal := r.grid[spawn].erbastAppeal,
                                       carvizAppeal := r.grid[spawn].carvizAppeal)
    && AppealUpToDate(r, spawn)
    && r.vegetebobs == w.vegetebobs + {v}
    && r.rows == w.rows && r.cols == w.cols && r.nextId == w.nextId + 1
    && SameAnimals(w, r) && SameGroups(w, r)
  }

  /**
   * A new vegetebob of density INITIAL_DENSITY at spawn, whose cell holds no vegetation
   * yet: it joins the cell's vegetation, the cell's appeal is re-evaluated, and it joins
   * the world's vegetation unless already there.
   */
  method NewVegetebob(w: World, spawn: Pos) returns (r: World, v: VegetebobId)
    requires spawn in w.grid && w.grid[spawn].vegetebobs == {}
    ensures v == w.nextId && Planted(w, spawn, r)
  {
    v := w.nextId;
    var c := w.grid[spawn];
    var placed := w.(vegetebobOf := w.vegetebobOf[v := Vegetebob(INITIAL_DENSITY, spawn, None)],
                     grid := w.grid[spawn := c.(vegetebobs := c.vegetebobs + {v})],
                     nextId := w.nextId + 1);
    r := TriggerAppealEvaluation(placed, spawn);
    if v !in r.vegetebobs {
      r := r.(vegetebobs := r.vegetebobs + {v});
    }
  }

  /** Planting in an interior cell without vegetation keeps the world valid. */
  lemma PlantedKeepsValid(w: World, spawn: Pos, r: World)
    requires Valid(w) && Interior(w, spawn) && spawn in w.grid && w.grid[spawn].vegetebobs == {}
    requires Planted(w, spawn, r)
    ensures Valid(r)
  {
    PlantedKeepsCells(w, spawn, r);
    PlantedKeepsVegetation(w, spawn, r);
    StandingKeepsAnimalsIndexed(w, r);
    PlantedKeepsGroups(w, spawn, r);
  }

  /** Planting changes no cell but the vegetation and appeal of the cell at spawn. */
  lemma PlantedKeepsCells(w: World, spawn: Pos, r: World)
    requires Planted(w, spawn, r)
    ensures r.grid.Keys == w.grid.Keys
    ensures forall q, k :: q in w.grid ==> r.grid[q].Population(k) == w.grid[q].Population(k)
    ensures forall q :: q in w.grid ==>
      && r.grid[q].x == w.grid[q].x && r.grid[q].y == w.grid[q].y && r.grid[q].cellType == w.grid[q].cellType
      && r.grid[q].surroundingCells == w.grid[q].surroundingCells
      && r.grid[q].herds == w.grid[q].herds && r.grid[q].prides == w.grid[q].prides
  {
  }

  lemma PlantedKeepsVegetation(w: World, spawn: Pos, r: World)
    requires VegetationIndexed(w) && IdsBelow(w) && Interior(w, spawn) && spawn in w.grid
    requires w.grid[spawn].vegetebobs == {} && Planted(w, spawn, r)
    ensures VegetationIndexed(r) && IdsBelow(r)
  {
    PlantedCellsIndexed(w, spawn, r);
    PlantedPlantsIndexed(w, spawn, r);
    forall q | q in r.grid
      ensures |r.grid[q].vegetebobs| <= 1
    {
      if q == spawn {
        assert r.grid[q].vegetebobs == {w.nextId};
      }
    }
  }

  lemma PlantedCellsIndexed(w: World, spawn: Pos, r: World)
    requires VegetationIndexed(w) && IdsBelow(w) && Planted(w, spawn, r)
    ensures forall q, u {:trigger u in r.grid[q].vegetebobs} :: q in r.grid && u in r.grid[q].vegetebobs ==>
      u in r.vegetebobs && u in r.vegetebobOf && r.vegetebobOf[u].cell == q
  {
    forall q, u | q in r.grid && u in r.grid[q].vegetebobs
      ensures u in r.vegetebobs && u in r.vegetebobOf && r.vegetebobOf[u].cell == q
    {
      if u != w.nextId {
        assert u in w.grid[q].vegetebobs;
      }
    }
  }

  lemma PlantedPlantsIndexed(w: World, spawn: Pos, r: World)
    requires VegetationIndexed(w) && IdsBelow(w) && Interior(w, spawn) && Planted(w, spawn, r)
    ensures forall u :: u in r.vegetebobs ==>
      u in r.vegetebobOf && r.vegetebobOf[u].cell in r.grid && Interior(r, r.vegetebobOf[u].cell) &&
      u in r.grid[r.vegetebobOf[u].cell].vegetebobs
  {
    forall u | u in r.vegetebobs
      ensures u in r.vegetebobOf && r.vegetebobOf[u].cell in r.grid && Interior(r, r.vegetebobOf[u].cell)
      ensures u in r.grid[r.vegetebobOf[u].cell].vegetebobs
    {
      if u != w.nextId {
        assert u in w.vegetebobs;
      }
    }
  }

  lemma PlantedKeepsGroups(w: World, spawn: Pos, r: World)
    requires GroupsPlaced(w) && MembershipIndexed(w) && Planted(w, spawn, r)
    ensures GroupsPlaced(r) && MembershipIndexed(r)
  {
    forall q, k | q in r.grid
      ensures r.grid[q].Groups(k) == w.grid[q].Groups(k)
    {
    }
  }

  /** The density after a day of growth: GROWING more while below 100. */
  function GrownDensity(d: real): real
  {
    if d < 100.0 then d + GROWING else d
  }

  /** A density that is a whole number of half units. */
  predicate HalfUnits(d: real)
  {
    (2.0 * d).Floor as real == 2.0 * d
  }

  /**
   * Growth never takes a density of whole half units that is at most 100 beyond 100, and
   * keeps it in whole half units; below 100 it strictly grows.
   */
  lemma GrowthCapped(d: real)
    requires HalfUnits(d) && d <= 100.0
    ensures HalfUnits(GrownDensity(d)) && GrownDensity(d) <= 100.0
    ensures d < 100.0 ==> GrownDensity(d) > d
  {
    var k := (2.0 * d).Floor;
    if d < 100.0 {
      assert k <= 199;
      assert (2.0 * (d + GROWING)).Floor == k + 1;
    }
  }

  /** The initial density is a whole number of half units, and grazing (one unit off) keeps it so. */
  lemma HalfUnitsKept(d: real)
    requires HalfUnits(d)
    ensures HalfUnits(INITIAL_DENSITY) && HalfUnits(d - 1.0)
  {
    var k := (2.0 * d).Floor;
    assert (2.0 * (d - 1.0)).Floor == k - 2;
  }

  /**
   * Grows v by GROWING while its density is below 100, re-evaluating its cell's appeal; a
   * vegetebob at 100 or more is left as it is.
   */
  method Grow(w: World, v: VegetebobId) returns (r: World)
    requires v in w.vegetebobOf && w.vegetebobOf[v].cell in w.grid
    requires VegetationKnown(w.vegetebobOf, w.grid[w.vegetebobOf[v].cell])
    ensures r.vegetebobOf == w.vegetebobOf[v := w.vegetebobOf[v].(density := GrownDensity(w.vegetebobOf[v].density))]
    ensures var p := w.vegetebobOf[v].cell;
      && p in r.grid && r.grid == w.grid[p := r.grid[p]]
      && r.grid[p] == w.grid[p].(erbastAppeal := r.grid[p].erbastAppeal, carvizAppeal := r.grid[p].carvizAppeal)
      && (w.vegetebobOf[v].density < 100.0 ==> AppealUpToDate(r, p))
    ensures w.vegetebobOf[v].density >= 100.0 ==> r == w
    ensures SameShape(w, r) && SameAnimals(w, r) && SameGroups(w, r) && r.vegetebobs == w.vegetebobs
  {
    var veg := w.vegetebobOf[v];
    r := w;
    if veg.density < 100.0 {
      var grown := w.(vegetebobOf := w.vegetebobOf[v := veg.(density := veg.density + GROWING)]);
      r := TriggerAppealEvaluation(grown, veg.cell);
    } else {
      assert w.vegetebobOf[v := veg] == w.vegetebobOf;
    }
  }

  /** Changing the density of one vegetebob changes only amounts. */
  lemma DensityOnlyAmounts(w: World, v: VegetebobId, d: real, r: World)
    requires v in w.vegetebobOf
    requires r == w.(vegetebobOf := w.vegetebobOf[v := w.vegetebobOf[v].(density := d)])
    ensures OnlyAmountsChanged(w, r)
  {
  }

  /** Re-evaluating the appeal of one cell changes only derived data. */
  lemma AppealOnlyDerived(w: World, p: Pos, r: World)
    requires p in w.grid && p in r.grid && r == w.(grid := w.grid[p := r.grid[p]])
    requires r.grid[p] == w.grid[p].(erbastAppeal := r.grid[p].erbastAppeal, carvizAppeal := r.grid[p].carvizAppeal)
    ensures OnlyDerivedChanged(w, r)
  {
  }

  /** Growing a vegetebob of the world keeps the world valid. */
  lemma GrowKeepsValid(w: World, v: VegetebobId, r: World)
    requires Valid(w) && v in w.vegetebobOf && w.vegetebobOf[v].cell in w.grid
    requires r.vegetebobOf == w.vegetebobOf[v := w.vegetebobOf[v].(density := GrownDensity(w.vegetebobOf[v].density))]
    requires var p := w.vegetebobOf[v].cell;
      && p in r.grid && r.grid == w.grid[p := r.grid[p]]
      && r.grid[p] == w.grid[p].(erbastAppeal := r.grid[p].erbastAppeal, carvizAppeal := r.grid[p].carvizAppeal)
    requires SameShape(w, r) && SameAnimals(w, r) && SameGroups(w, r) && r.vegetebobs == w.vegetebobs
    ensures Valid(r)
  {
    var grown := w.(vegetebobOf := r.vegetebobOf);
    DensityOnlyAmounts(w, v, GrownDensity(w.vegetebobOf[v].density), grown);
    AmountsKeepValid(w, grown);
    AppealOnlyDerived(grown, w.vegetebobOf[v].cell, r);
    DerivedKeepsValid(grown, r);
  }

  /** The cells among cells that hold vegetation, in order. */
  ghost function Vegetated(grid: map<Pos, Cell>, cells: seq<Pos>): (r: seq<Pos>)
    requires forall q :: q in cells ==> q in grid
    ensures forall q :: q in r ==> q in cells
  {
    if cells == [] then []
    else
      var last := cells[|cells| - 1];
      Vegetated(grid, cells[..|cells| - 1]) + (if grid[last].vegetebobs != {} then [last] else [])
  }

  /** found lists, in order, one vegetebob of each cell among cells that holds vegetation. */
  ghost predicate ListsVegetation(grid: map<Pos, Cell>, cells: seq<Pos>, found: seq<VegetebobId>)
    requires forall q :: q in cells ==> q in grid
  {
    var vegetated := Vegetated(grid, cells);
    |found| == |vegetated| && forall k :: 0 <= k < |found| ==> found[k] in grid[vegetated[k]].vegetebobs
  }

  lemma {:induction false} VegetatedMembers(grid: map<Pos, Cell>, cells: seq<Pos>)
    requires forall q :: q in cells ==> q in grid
    ensures forall q :: q in Vegetated(grid, cells) <==> q in cells && grid[q].vegetebobs != {}
  {
    if cells != [] {
      VegetatedMembers(grid, cells[..|cells| - 1]);
      assert cells == cells[..|cells| - 1] + [cells[|cells| - 1]];
    }
  }

  /**
   * When no cell holds more than one vegetebob, the listed vegetebobs are exactly the
   * vegetebobs standing in the given cells.
   */
  lemma ListedVegetation(grid: map<Pos, Cell>, cells: seq<Pos>, found: seq<VegetebobId>)
    requires forall q :: q in cells ==> q in grid && |grid[q].vegetebobs| <= 1
    requires ListsVegetation(grid, cells, found)
    ensures forall u :: u in found <==> exists q :: q in cells && u in grid[q].vegetebobs
  {
    var vegetated := Vegetated(grid, cells);
    VegetatedMembers(grid, cells);
    forall u | exists q :: q in cells && u in grid[q].vegetebobs
      ensures u in found
    {
      var q :| q in cells && u in grid[q].vegetebobs;
      assert q in vegetated;
      var k :| 0 <= k < |vegetated| && vegetated[k] == q;
      SingletonMembers(grid[q].vegetebobs, u, found[k]);
    }
    forall u | u in found
      ensures exists q :: q in cells && u in grid[q].vegetebobs
    {
      var k :| 0 <= k < |found| && found[k] == u;
      assert vegetated[k] in vegetated;
    }
  }

  /** Collects one vegetebob from every cell among cells that holds vegetation, in order. */
  method CollectVegetation(grid: map<Pos, Cell>, cells: seq<Pos>) returns (found: seq<VegetebobId>)
    requires forall q :: q in cells ==> q in grid
    ensures ListsVegetation(grid, cells, found)
  {
    found := [];
    var i := 0;
    while i < |cells|
      invariant 0 <= i <= |cells|
      invariant ListsVegetation(grid, cells[..i], found)
    {
      var c := grid[cells[i]];
      assert cells[..i + 1][..i] == cells[..i];
      if |c.vegetebobs| != 0 {
        var u :| u in c.vegetebobs;
        found := found + [u];
      }
      i := i + 1;
    }
    assert cells[..i] == cells;
  }

  /**
   * Caches in v the vegetebobs of the cells around its cell, filling that cell's neighbour
   * cache on the way.
   */
  method GetSurroundingVegetebobs(w: World, v: VegetebobId) returns (r: World)
    requires v in w.vegetebobOf && w.vegetebobOf[v].cell in w.grid
    requires var p := w.vegetebobOf[v].cell;
      && (w.grid[p].surroundingCells == [] || w.grid[p].surroundingCells == SurroundingCoordinates(p.0, p.1))
      && forall q :: q in SurroundingCoordinates(p.0, p.1) ==> q in w.grid
    ensures var p := w.vegetebobOf[v].cell;
      && r.grid == w.grid[p := w.grid[p].(surroundingCells := SurroundingCoordinates(p.0, p.1))]
      && v in r.vegetebobOf && r.vegetebobOf[v].surroundingVegetebobs.Some?
      && ListsVegetation(w.grid, SurroundingCoordinates(p.0, p.1), r.vegetebobOf[v].surroundingVegetebobs.value)
      && r.vegetebobOf == w.vegetebobOf[v := w.vegetebobOf[v].(surroundingVegetebobs := r.vegetebobOf[v].surroundingVegetebobs)]
    ensures SameShape(w, r) && SameAnimals(w, r) && SameGroups(w, r) && r.vegetebobs == w.vegetebobs
  {
    var p := w.vegetebobOf[v].cell;
    var cells;
    r, cells := GetSurroundingCells(w, p);
    var found := CollectVegetation(w.grid, cells);
    r := r.(vegetebobOf := r.vegetebobOf[v := r.vegetebobOf[v].(surroundingVegetebobs := Some(found))]);
  }

  /** Every vegetebob of s has density exactly 100. */
  predicate AllAtFullDensity(vegetebobOf: map<VegetebobId, Vegetebob>, s: seq<VegetebobId>)
    requires forall k :: 0 <= k < |s| ==> s[k] in vegetebobOf
  {
    forall k :: 0 <= k < |s| ==> vegetebobOf[s[k]].density == 100.0
  }

  /**
   * r is w once v's vegetation cache is filled: an already filled cache leaves everything
   * as it was; otherwise the neighbour cache of v's cell and v's own cache are filled and
   * nothing else changes.
   */
  ghost predicate CachesFilled(w: World, v: VegetebobId, r: World)
  {
    && v in w.vegetebobOf && v in r.vegetebobOf && r.vegetebobOf[v].surroundingVegetebobs.Some?
    && (w.vegetebobOf[v].surroundingVegetebobs.Some? ==> r == w)
    && (w.vegetebobOf[v].surroundingVegetebobs.None? ==>
          var p := w.vegetebobOf[v].cell;
          && p in w.grid
          && r.grid == w.grid[p := w.grid[p].(surroundingCells := SurroundingCoordinates(p.0, p.1))]
          && r.vegetebobOf == w.vegetebobOf[v := w.vegetebobOf[v].(surroundingVegetebobs := r.vegetebobOf[v].surroundingVegetebobs)])
    && SameShape(w, r) && SameAnimals(w, r) && SameGroups(w, r) && r.vegetebobs == w.vegetebobs
  }

  /** Filling caches moves no vegetebob, changes no density, population or up-to-date appeal. */
  lemma CachesFilledKeepsPlants(w: World, v: VegetebobId, r: World)
    requires CachesFilled(w, v, r)
    ensures r.vegetebobOf.Keys == w.vegetebobOf.Keys
    ensures forall u :: u in w.vegetebobOf ==>
      r.vegetebobOf[u].cell == w.vegetebobOf[u].cell && r.vegetebobOf[u].density == w.vegetebobOf[u].density
    ensures SameResidents(w, r)
    ensures forall q :: AppealUpToDate(w, q) ==> AppealUpToDate(r, q)
  {
    forall q | AppealUpToDate(w, q)
      ensures AppealUpToDate(r, q)
    {
      assert r.grid[q].vegetebobs == w.grid[q].vegetebobs;
      VegetationAppealAgrees(w.vegetebobOf, w.grid[q], r.vegetebobOf, r.grid[q]);
    }
  }

  /**
   * The overwhelm check of v: it fills v's cache of neighbouring vegetebobs if empty and
   * reports whether all of them have density 100. The animals of its cell are then dropped
   * only from a local name, so no animal, group or population changes.
   */
  method Overwhelm(w: World, v: VegetebobId) returns (r: World, overwhelmed: bool)
    requires v in w.vegetebobOf && w.vegetebobOf[v].cell in w.grid
    requires var p := w.vegetebobOf[v].cell;
      && (w.grid[p].surroundingCells == [] || w.grid[p].surroundingCells == SurroundingCoordinates(p.0, p.1))
      && forall q :: q in SurroundingCoordinates(p.0, p.1) ==> q in w.grid && VegetationKnown(w.vegetebobOf, w.grid[q])
    requires var cache := w.vegetebobOf[v].surroundingVegetebobs;
      cache.Some? ==> forall k :: 0 <= k < |cache.value| ==> cache.value[k] in w.vegetebobOf
    ensures v in r.vegetebobOf && r.vegetebobOf[v].surroundingVegetebobs.Some?
    ensures var cache := r.vegetebobOf[v].surroundingVegetebobs.value;
      && (forall k :: 0 <= k < |cache| ==> cache[k] in r.vegetebobOf)
      && (overwhelmed <==> AllAtFullDensity(r.vegetebobOf, cache))
    ensures CachesFilled(w, v, r)
    ensures w.vegetebobOf[v].surroundingVegetebobs.None? ==>
      var p := w.vegetebobOf[v].cell;
      ListsVegetation(w.grid, SurroundingCoordinates(p.0, p.1), r.vegetebobOf[v].surroundingVegetebobs.value)
  {
    r := w;
    if w.vegetebobOf[v].surroundingVegetebobs.None? {
      r := FirstCache(w, v);
    }
    var cache := r.vegetebobOf[v].surroundingVegetebobs.value;
    overwhelmed := forall k | 0 <= k < |cache| :: r.vegetebobOf[cache[k]].density == 100.0;
  }

  /** The first filling of v's cache, which lists only vegetebobs of the world. */
  method FirstCache(w: World, v: VegetebobId) returns (r: World)
    requires v in w.vegetebobOf && w.vegetebobOf[v].cell in w.grid && w.vegetebobOf[v].surroundingVegetebobs.None?
    requires var p := w.vegetebobOf[v].cell;
      && (w.grid[p].surroundingCells == [] || w.grid[p].surroundingCells == SurroundingCoordinates(p.0, p.1))
      && forall q :: q in SurroundingCoordinates(p.0, p.1) ==> q in w.grid && VegetationKnown(w.vegetebobOf, w.grid[q])
    ensures v in r.vegetebobOf && r.vegetebobOf[v].surroundingVegetebobs.Some?
    ensures var cache := r.vegetebobOf[v].surroundingVegetebobs.value;
      forall k :: 0 <= k < |cache| ==> cache[k] in r.vegetebobOf
    ensures CachesFilled(w, v, r)
    ensures var p := w.vegetebobOf[v].cell;
      ListsVegetation(w.grid, SurroundingCoordinates(p.0, p.1), r.vegetebobOf[v].surroundingVegetebobs.value)
  {
    r := GetSurroundingVegetebobs(w, v);
    var p := w.vegetebobOf[v].cell;
    ghost var cache := r.vegetebobOf[v].surroundingVegetebobs.value;
    forall k | 0 <= k < |cache|
      ensures cache[k] in r.vegetebobOf
    {
      ghost var vegetated := Vegetated(w.grid, SurroundingCoordinates(p.0, p.1));
      VegetatedMembers(w.grid, SurroundingCoordinates(p.0, p.1));
      assert vegetated[k] in vegetated;
    }
  }

  /** Filling the vegetation cache of one vegetebob with vegetebobs of the world keeps it valid. */
  lemma PlantCacheKeepsValid(w: World, v: VegetebobId, cache: seq<VegetebobId>, r: World)
    requires Valid(w) && v in w.vegetebobOf
    requires forall k :: 0 <= k < |cache| ==> cache[k] in w.vegetebobOf
    requires r == w.(vegetebobOf := w.vegetebobOf[v := w.vegetebobOf[v].(surroundingVegetebobs := Some(cache))])
    ensures Valid(r)
  {
    PlantCacheKeepsVegetation(w, v, cache, r);
    StandingKeepsAnimalsIndexed(w, r);
    assert GroupsPlaced(r) && MembershipIndexed(r);
  }

  lemma PlantCacheKeepsVegetation(w: World, v: VegetebobId, cache: seq<VegetebobId>, r: World)
    requires VegetationIndexed(w) && IdsBelow(w) && v in w.vegetebobOf
    requires forall k :: 0 <= k < |cache| ==> cache[k] in w.vegetebobOf
    requires r == w.(vegetebobOf := w.vegetebobOf[v := w.vegetebobOf[v].(surroundingVegetebobs := Some(cache))])
    ensures VegetationIndexed(r) && IdsBelow(r)
  {
    assert r.vegetebobOf.Keys == w.vegetebobOf.Keys;
    forall u, k | u in r.vegetebobOf && r.vegetebobOf[u].surroundingVegetebobs.Some? &&
                  0 <= k < |r.vegetebobOf[u].surroundingVegetebobs.value|
      ensures r.vegetebobOf[u].surroundingVegetebobs.value[k] in r.vegetebobOf
    {
      if u != v {
        assert r.vegetebobOf[u] == w.vegetebobOf[u];
      }
    }
  }

  /**
   * The overwhelm check keeps the world valid: it fills at most the neighbour cache of the
   * vegetebob's cell and the vegetebob's own cache.
   */
  lemma OverwhelmKeepsValid(w: World, v: VegetebobId, r: World)
    requires Valid(w) && CachesFilled(w, v, r)
    requires var cache := r.vegetebobOf[v].surroundingVegetebobs.value;
      forall k :: 0 <= k < |cache| ==> cache[k] in r.vegetebobOf
    ensures Valid(r)
  {
    if w.vegetebobOf[v].surroundingVegetebobs.None? {
      var p := w.vegetebobOf[v].cell;
      var cached := w.(grid := r.grid);
      assert r == cached.(vegetebobOf := r.vegetebobOf);
      DerivedKeepsValid(w, cached);
      PlantCacheKeepsValid(cached, v, r.vegetebobOf[v].surroundingVegetebobs.value, r);
    }
  }

  /**
   * r is w after v's day. v has grown by a day and its vegetation cache is filled: kept
   * when it was filled already, otherwise listing the vegetebobs of the neighbouring cells
   * in order. The appeal of v's cell is up to date after growth and kept when v was
   * already at full density, and that cell's neighbour cache is filled along with v's.
   * No other cell, no other vegetebob, and no animal or group changes.
   */
  ghost predicate DayLived(w: World, v: VegetebobId, r: World)
    requires v in w.vegetebobOf
  {
    && CellRefreshed(w, v, r) && PlantRefreshed(w, v, r)
    && SameShape(w, r) && SameAnimals(w, r) && SameGroups(w, r) && r.vegetebobs == w.vegetebobs
  }

  /**
   * The grid of DayLived: only the cell of v changes, in its appeal, up to date after
   * growth and kept at full density, and in its neighbour cache, filled along with v's.
   */
  ghost predicate CellRefreshed(w: World, v: VegetebobId, r: World)
    requires v in w.vegetebobOf
  {
    var veg := w.vegetebobOf[v];
    var p := veg.cell;
    && p in w.grid && p in r.grid
    && r.grid == w.grid[p := w.grid[p].(erbastAppeal := r.grid[p].erbastAppeal, carvizAppeal := r.grid[p].carvizAppeal,
                                         surroundingCells := r.grid[p].surroundingCells)]
    && r.grid[p].surroundingCells == (if veg.surroundingVegetebobs.None? then SurroundingCoordinates(p.0, p.1) else w.grid[p].surroundingCells)
    && (if veg.density < 100.0 then AppealUpToDate(r, p)
        else r.grid[p].erbastAppeal == w.grid[p].erbastAppeal && r.grid[p].carvizAppeal == w.grid[p].carvizAppeal)
  }

  /**
   * The vegetebobs of DayLived: only v changes, in its density, grown by a day, and in its
   * cache, kept when filled already and otherwise listing the neighbouring vegetebobs.
   */
  ghost predicate PlantRefreshed(w: World, v: VegetebobId, r: World)
    requires v in w.vegetebobOf
  {
    var veg := w.vegetebobOf[v];
    var p := veg.cell;
    && v in r.vegetebobOf
    && r.vegetebobOf == w.vegetebobOf[v := veg.(density := GrownDensity(veg.density),
                                                 surroundingVegetebobs := r.vegetebobOf[v].surroundingVegetebobs)]
    && r.vegetebobOf[v].surroundingVegetebobs.Some?
    && (veg.surroundingVegetebobs.Some? ==> r.vegetebobOf[v].surroundingVegetebobs == veg.surroundingVegetebobs)
    && (veg.surroundingVegetebobs.None? ==>
          && (forall q :: q in SurroundingCoordinates(p.0, p.1) ==> q in w.grid)
          && ListsVegetation(w.grid, SurroundingCoordinates(p.0, p.1), r.vegetebobOf[v].surroundingVegetebobs.value))
  }

  /** A day lived moves no vegetebob and keeps the vegetation and populations of every cell. */
  lemma DayLivedResidents(w: World, v: VegetebobId, r: World)
    requires v in w.vegetebobOf && DayLived(w, v, r)
    ensures SameResidents(w, r)
    ensures r.vegetebobOf.Keys == w.vegetebobOf.Keys
    ensures forall u :: u in w.vegetebobOf ==> r.vegetebobOf[u].cell == w.vegetebobOf[u].cell
  {
    RefreshKeepsResidents(w, w.vegetebobOf[v].cell, r);
  }

  /** Changing only the appeal and neighbour cache of one cell keeps every cell's residents. */
  lemma RefreshKeepsResidents(w: World, p: Pos, r: World)
    requires p in w.grid && p in r.grid
    requires r.grid == w.grid[p := w.grid[p].(erbastAppeal := r.grid[p].erbastAppeal, carvizAppeal := r.grid[p].carvizAppeal,
                                               surroundingCells := r.grid[p].surroundingCells)]
    ensures SameResidents(w, r)
  {
  }

  /** Which of the cells hold vegetation depends only on the vegetation of those cells. */
  lemma {:induction false} VegetatedSame(grid: map<Pos, Cell>, grid': map<Pos, Cell>, cells: seq<Pos>)
    requires forall q :: q in cells ==> q in grid && q in grid' && grid[q].vegetebobs == grid'[q].vegetebobs
    ensures Vegetated(grid, cells) == Vegetated(grid', cells)
  {
    if cells != [] {
      VegetatedSame(grid, grid', cells[..|cells| - 1]);
    }
  }

  /** r has the cells of w, and each has the same vegetation and populations as in w. */
  ghost predicate SameResidents(w: World, r: World)
  {
    && r.grid.Keys == w.grid.Keys
    && forall q :: q in w.grid ==>
      r.grid[q].vegetebobs == w.grid[q].vegetebobs && r.grid[q].erbasts == w.grid[q].erbasts &&
      r.grid[q].carvizes == w.grid[q].carvizes
  }

  lemma ResidentsTrans(w: World, m: World, r: World)
    requires SameResidents(w, m) && SameResidents(m, r)
    ensures SameResidents(w, r)
  {
  }

  /** Growing and then filling caches makes a day lived. */
  lemma GrowThenFill(w: World, v: VegetebobId, grown: World, r: World)
    requires v in w.vegetebobOf && w.vegetebobOf[v].cell in w.grid
    requires grown.vegetebobOf == w.vegetebobOf[v := w.vegetebobOf[v].(density := GrownDensity(w.vegetebobOf[v].density))]
    requires var p := w.vegetebobOf[v].cell;
      && p in grown.grid && grown.grid == w.grid[p := grown.grid[p]]
      && grown.grid[p] == w.grid[p].(erbastAppeal := grown.grid[p].erbastAppeal, carvizAppeal := grown.grid[p].carvizAppeal)
      && (w.vegetebobOf[v].density < 100.0 ==> AppealUpToDate(grown, p))
    requires w.vegetebobOf[v].density >= 100.0 ==> grown == w
    requires SameShape(w, grown) && SameAnimals(w, grown) && SameGroups(w, grown) && grown.vegetebobs == w.vegetebobs
    requires CachesFilled(grown, v, r)
    requires w.vegetebobOf[v].surroundingVegetebobs.None? ==>
      var p := w.vegetebobOf[v].cell;
      && (forall q :: q in SurroundingCoordinates(p.0, p.1) ==> q in grown.grid)
      && ListsVegetation(grown.grid, SurroundingCoordinates(p.0, p.1), r.vegetebobOf[v].surroundingVegetebobs.value)
    ensures DayLived(w, v, r)
  {
    FillRefreshesCell(w, v, grown, r);
    FillRefreshesPlant(w, v, grown, r);
  }

  /** The grid part of GrowThenFill. */
  lemma FillRefreshesCell(w: World, v: VegetebobId, grown: World, r: World)
    requires v in w.vegetebobOf && w.vegetebobOf[v].cell in w.grid
    requires var p := w.vegetebobOf[v].cell;
      && p in grown.grid && grown.grid == w.grid[p := grown.grid[p]]
      && grown.grid[p] == w.grid[p].(erbastAppeal := grown.grid[p].erbastAppeal, carvizAppeal := grown.grid[p].carvizAppeal)
      && (w.vegetebobOf[v].density < 100.0 ==> AppealUpToDate(grown, p))
    requires w.vegetebobOf[v].density >= 100.0 ==> grown == w
    requires grown.vegetebobOf == w.vegetebobOf[v := w.vegetebobOf[v].(density := GrownDensity(w.vegetebobOf[v].density))]
    requires CachesFilled(grown, v, r)
    ensures CellRefreshed(w, v, r)
  {
    if w.vegetebobOf[v].density < 100.0 {
      CachesFilledKeepsPlants(grown, v, r);
    }
  }

  /** The vegetebob part of GrowThenFill. */
  lemma FillRefreshesPlant(w: World, v: VegetebobId, grown: World, r: World)
    requires v in w.vegetebobOf && w.vegetebobOf[v].cell in w.grid
    requires grown.vegetebobOf == w.vegetebobOf[v := w.vegetebobOf[v].(density := GrownDensity(w.vegetebobOf[v].density))]
    requires var p := w.vegetebobOf[v].cell;
      && p in grown.grid && grown.grid == w.grid[p := grown.grid[p]]
      && grown.grid[p] == w.grid[p].(erbastAppeal := grown.grid[p].erbastAppeal, carvizAppeal := grown.grid[p].carvizAppeal)
    requires CachesFilled(grown, v, r)
    requires w.vegetebobOf[v].surroundingVegetebobs.None? ==>
      var p := w.vegetebobOf[v].cell;
      && (forall q :: q in SurroundingCoordinates(p.0, p.1) ==> q in grown.grid)
      && ListsVegetation(grown.grid, SurroundingCoordinates(p.0, p.1), r.vegetebobOf[v].surroundingVegetebobs.value)
    ensures PlantRefreshed(w, v, r)
  {
    if w.vegetebobOf[v].surroundingVegetebobs.None? {
      var p := w.vegetebobOf[v].cell;
      assert forall q :: q in w.grid ==> grown.grid[q].vegetebobs == w.grid[q].vegetebobs;
      VegetatedSame(w.grid, grown.grid, SurroundingCoordinates(p.0, p.1));
    }
  }

  /**
   * A vegetebob's day: it grows, then checks whether its neighbours overwhelm its cell.
   * Only its density and cache, the appeal of its cell and that cell's neighbour cache
   * change; no animal, group or population is touched.
   */
  method LiveFirstPhase(w: World, v: VegetebobId) returns (r: World)
    requires Valid(w) && v in w.vegetebobs
    ensures Valid(r) && DayLived(w, v, r)
  {
    var p := w.vegetebobOf[v].cell;
    VegetationKnownEverywhere(w, p);
    var grown := Grow(w, v);
    GrowKeepsValid(w, v, grown);
    InteriorNeighboursInGrid(grown, p);
    forall q | q in SurroundingCoordinates(p.0, p.1)
      ensures VegetationKnown(grown.vegetebobOf, grown.grid[q])
    {
      VegetationKnownEverywhere(grown, q);
    }
    var overwhelmed;
    r, overwhelmed := Overwhelm(grown, v);
    OverwhelmKeepsValid(grown, v, r);
    GrowThenFill(w, v, grown, r);
  }
}
