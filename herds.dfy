// Herds (groups.py, class Herd): a herd of erbasts grazes, merges with the other herds
// of its cell, and lives its day: it is deleted once it has no members, and otherwise
// joins the other herds of its cell and then either moves or grazes.
module Herds {
  import opened Constants
  import opened Cells
  import opened Ecosystem
  import Animals
  import opened Groups

  /** bn is an, fed at most once: one more unit of energy, or none. */
  predicate FedOnce(an: Animal, bn: Animal)
  {
    bn == an || bn == an.(energy := an.energy + 1.0)
  }

  /** The cell of b holds a vegetebob of density at least n. */
  ghost predicate Pastured(w: World, b: AnimalId, n: nat)
    requires b in w.animalOf
  {
    var p := w.animalOf[b].cell;
    p in w.grid && exists v :: v in w.grid[p].vegetebobs && v in w.vegetebobOf && w.vegetebobOf[v].density >= n as real
  }

  /** The cell of b holds no vegetebob of positive density. */
  ghost predicate Barren(w: World, b: AnimalId)
    requires b in w.animalOf
  {
    var p := w.animalOf[b].cell;
    p in w.grid && forall v :: v in w.grid[p].vegetebobs && v in w.vegetebobOf ==> w.vegetebobOf[v].density <= 0.0
  }

  /**
   * The animals of done fed from the vegetebob u between w and r: those standing in the
   * cell that holds u whose energy has changed.
   */
  ghost function FedFrom(w: World, done: set<AnimalId>, r: World, u: VegetebobId): set<AnimalId>
  {
    set b | b in done && b in w.animalOf && b in r.animalOf && w.animalOf[b].cell in w.grid
      && u in w.grid[w.animalOf[b].cell].vegetebobs && r.animalOf[b].energy != w.animalOf[b].energy
  }

  /**
   * r is w once the animals done, grazed of them in all, have grazed one after the other
   * out of total: each gained one unit of energy or none, the others are untouched, every
   * vegetebob lost exactly one unit per animal fed from it, and so no more than grazed
   * units, those standing on a vegetebob of density at least total were fed, and those on
   * bare ground were not.
   */
  ghost predicate PartlyGrazed(w: World, done: set<AnimalId>, grazed: nat, total: nat, r: World)
  {
    && OnlyAmountsChanged(w, r)
    && (forall b :: b in w.animalOf && b !in done ==> r.animalOf[b] == w.animalOf[b])
    && (forall b :: b in w.animalOf && b in done ==> FedOnce(w.animalOf[b], r.animalOf[b]))
    && (forall u :: u in w.vegetebobOf ==>
          r.vegetebobOf[u].density == w.vegetebobOf[u].density - |FedFrom(w, done, r, u)| as real)
    && (forall v :: v in w.vegetebobOf ==>
          w.vegetebobOf[v].density - grazed as real <= r.vegetebobOf[v].density <= w.vegetebobOf[v].density)
    && (forall b :: b in w.animalOf && b in done && Pastured(w, b, total) ==>
          r.animalOf[b].energy == w.animalOf[b].energy + 1.0)
    && (forall b :: b in w.animalOf && b in done && Barren(w, b) ==> r.animalOf[b] == w.animalOf[b])
  }

  lemma NoneGrazed(w: World, total: nat)
    ensures PartlyGrazed(w, {}, 0, total, w)
  {
    forall v | v in w.vegetebobOf
      ensures SamePlant(w.vegetebobOf[v], w.vegetebobOf[v]) && FedFrom(w, {}, w, v) == {}
    {
    }
  }

  /** One more animal, b, grazes after the animals done. */
  method GrazeNext(w: World, ghost done: set<AnimalId>, ghost grazed: nat, ghost total: nat, r: World, b: AnimalId)
    returns (next: World)
    requires b in w.animalOf && w.animalOf[b].cell in w.grid && VegetationKnown(w.vegetebobOf, w.grid[w.animalOf[b].cell])
    requires PartlyGrazed(w, done, grazed, total, r) && b !in done && grazed < total
    ensures PartlyGrazed(w, done + {b}, grazed + 1, total, next)
  {
    assert r.animalOf[b] == w.animalOf[b];
    next := Animals.Graze(r, b);
    GrazedNext(w, done, grazed, total, r, b, next);
  }

  lemma GrazedNext(w: World, done: set<AnimalId>, grazed: nat, total: nat, r: World, b: AnimalId, next: World)
    requires b in w.animalOf && w.animalOf[b].cell in w.grid && VegetationKnown(w.vegetebobOf, w.grid[w.animalOf[b].cell])
    requires PartlyGrazed(w, done, grazed, total, r) && b !in done && grazed < total
    requires r.animalOf[b] == w.animalOf[b]
    requires var c := r.grid[r.animalOf[b].cell];
      if exists v :: v in c.vegetebobs && r.vegetebobOf[v].density > 0.0 then
        exists v :: v in c.vegetebobs && r.vegetebobOf[v].density > 0.0
          && next.vegetebobOf == r.vegetebobOf[v := r.vegetebobOf[v].(density := r.vegetebobOf[v].density - 1.0)]
          && next.animalOf == r.animalOf[b := r.animalOf[b].(energy := r.animalOf[b].energy + 1.0)]
      else
        next == r
    requires OnlyAmountsChanged(r, next)
    ensures PartlyGrazed(w, done + {b}, grazed + 1, total, next)
  {
    var c := w.grid[w.animalOf[b].cell];
    assert r.grid == w.grid;
    AmountsTrans(w, r, next);
    if exists v :: v in c.vegetebobs && r.vegetebobOf[v].density > 0.0 {
      var v :| v in c.vegetebobs && r.vegetebobOf[v].density > 0.0
        && next.vegetebobOf == r.vegetebobOf[v := r.vegetebobOf[v].(density := r.vegetebobOf[v].density - 1.0)]
        && next.animalOf == r.animalOf[b := r.animalOf[b].(energy := r.animalOf[b].energy + 1.0)];
      Fed(w, done, grazed, total, r, b, v, next);
    } else {
      Unfed(w, done, grazed, total, r, b, next);
    }
  }

  lemma Fed(w: World, done: set<AnimalId>, grazed: nat, total: nat, r: World, b: AnimalId, v: VegetebobId, next: World)
    requires b in w.animalOf && w.animalOf[b].cell in w.grid && v in w.grid[w.animalOf[b].cell].vegetebobs
    requires v in w.vegetebobOf && VegetationKnown(w.vegetebobOf, w.grid[w.animalOf[b].cell])
    requires PartlyGrazed(w, done, grazed, total, r) && b !in done && r.animalOf[b] == w.animalOf[b]
    requires r.vegetebobOf[v].density > 0.0
    requires next.vegetebobOf == r.vegetebobOf[v := r.vegetebobOf[v].(density := r.vegetebobOf[v].density - 1.0)]
    requires next.animalOf == r.animalOf[b := r.animalOf[b].(energy := r.animalOf[b].energy + 1.0)]
    requires OnlyAmountsChanged(w, next)
    ensures PartlyGrazed(w, done + {b}, grazed + 1, total, next)
  {
    FedDensities(w, grazed, r, v, next);
    FedAnimals(w, done, r, b, next);
    FedFromNext(w, done, r, b, v, next);
    assert !Barren(w, b);
    FedStanding(w, done, total, r, b, next);
  }

  lemma FedStanding(w: World, done: set<AnimalId>, total: nat, r: World, b: AnimalId, next: World)
    requires b in w.animalOf && !Barren(w, b) && w.animalOf.Keys <= r.animalOf.Keys <= next.animalOf.Keys
    requires forall a :: a in w.animalOf && a in done && Pastured(w, a, total) ==>
      r.animalOf[a].energy == w.animalOf[a].energy + 1.0
    requires forall a :: a in w.animalOf && a in done && Barren(w, a) ==> r.animalOf[a] == w.animalOf[a]
    requires forall a :: a in w.animalOf && a in done ==> next.animalOf[a] == r.animalOf[a]
    requires next.animalOf[b].energy == w.animalOf[b].energy + 1.0
    ensures forall a :: a in w.animalOf && a in done + {b} && Pastured(w, a, total) ==>
      next.animalOf[a].energy == w.animalOf[a].energy + 1.0
    ensures forall a :: a in w.animalOf && a in done + {b} && Barren(w, a) ==> next.animalOf[a] == w.animalOf[a]
  {
  }

  /** Feeding b from v counts b among those fed from v, and from no other vegetebob. */
  lemma FedFromNext(w: World, done: set<AnimalId>, r: World, b: AnimalId, v: VegetebobId, next: World)
    requires b in w.animalOf && w.animalOf[b].cell in w.grid && b !in done
    requires VegetationKnown(w.vegetebobOf, w.grid[w.animalOf[b].cell]) && v in w.grid[w.animalOf[b].cell].vegetebobs
    requires r.animalOf.Keys == w.animalOf.Keys && r.vegetebobOf.Keys == w.vegetebobOf.Keys
    requires r.animalOf[b] == w.animalOf[b]
    requires forall u :: u in w.vegetebobOf ==>
      r.vegetebobOf[u].density == w.vegetebobOf[u].density - |FedFrom(w, done, r, u)| as real
    requires next.vegetebobOf == r.vegetebobOf[v := r.vegetebobOf[v].(density := r.vegetebobOf[v].density - 1.0)]
    requires next.animalOf == r.animalOf[b := r.animalOf[b].(energy := r.animalOf[b].energy + 1.0)]
    ensures forall u :: u in w.vegetebobOf ==>
      next.vegetebobOf[u].density == w.vegetebobOf[u].density - |FedFrom(w, done + {b}, next, u)| as real
  {
    var c := w.grid[w.animalOf[b].cell];
    AtMostOneMember(c.vegetebobs);
    forall u | u in w.vegetebobOf
      ensures next.vegetebobOf[u].density == w.vegetebobOf[u].density - |FedFrom(w, done + {b}, next, u)| as real
    {
      if u in c.vegetebobs {
        assert u == v;
        assert FedFrom(w, done + {b}, next, u) == FedFrom(w, done, r, u) + {b};
        assert b !in FedFrom(w, done, r, u);
      } else {
        assert FedFrom(w, done + {b}, next, u) == FedFrom(w, done, r, u);
      }
    }
  }

  lemma FedDensities(w: World, grazed: nat, r: World, v: VegetebobId, next: World)
    requires v in r.vegetebobOf && w.vegetebobOf.Keys <= r.vegetebobOf.Keys
    requires forall u :: u in w.vegetebobOf ==>
      w.vegetebobOf[u].density - grazed as real <= r.vegetebobOf[u].density <= w.vegetebobOf[u].density
    requires next.vegetebobOf == r.vegetebobOf[v := r.vegetebobOf[v].(density := r.vegetebobOf[v].density - 1.0)]
    ensures forall u :: u in w.vegetebobOf ==>
      w.vegetebobOf[u].density - (grazed + 1) as real <= next.vegetebobOf[u].density <= w.vegetebobOf[u].density
  {
  }

  lemma FedAnimals(w: World, done: set<AnimalId>, r: World, b: AnimalId, next: World)
    requires b !in done && b in w.animalOf && b in r.animalOf && w.animalOf.Keys <= r.animalOf.Keys && r.animalOf[b] == w.animalOf[b]
    requires forall a :: a in w.animalOf && a !in done ==> r.animalOf[a] == w.animalOf[a]
    requires forall a :: a in w.animalOf && a in done ==> FedOnce(w.animalOf[a], r.animalOf[a])
    requires next.animalOf == r.animalOf[b := r.animalOf[b].(energy := r.animalOf[b].energy + 1.0)]
    ensures forall a :: a in w.animalOf && a !in done + {b} ==> next.animalOf[a] == w.animalOf[a]
    ensures forall a :: a in w.animalOf && a in done + {b} ==> FedOnce(w.animalOf[a], next.animalOf[a])
    ensures next.animalOf[b].energy == w.animalOf[b].energy + 1.0
    ensures forall a :: a in w.animalOf && a in done ==> next.animalOf[a] == r.animalOf[a]
  {
  }

  lemma Unfed(w: World, done: set<AnimalId>, grazed: nat, total: nat, r: World, b: AnimalId, next: World)
    requires b in w.animalOf && w.animalOf[b].cell in w.grid && VegetationKnown(w.vegetebobOf, w.grid[w.animalOf[b].cell])
    requires PartlyGrazed(w, done, grazed, total, r) && b !in done && grazed < total
    requires r.animalOf[b] == w.animalOf[b] && r.grid == w.grid
    requires !exists v :: v in w.grid[w.animalOf[b].cell].vegetebobs && r.vegetebobOf[v].density > 0.0
    requires next == r
    ensures PartlyGrazed(w, done + {b}, grazed + 1, total, next)
  {
    assert !Pastured(w, b, total);
    forall u | u in w.vegetebobOf
      ensures FedFrom(w, done + {b}, next, u) == FedFrom(w, done, r, u)
    {
    }
  }

  /** r is w once every member of g has grazed once. */
  ghost predicate Grazed(w: World, g: GroupId, r: World)
  {
    g in w.groupOf && var n := |w.groupOf[g].individuals|;
    PartlyGrazed(w, w.groupOf[g].individuals, n, n, r)
  }

  /**
   * Every member of the herd g grazes once. Nobody moves, joins, leaves, is born or dies;
   * each member gains one unit of energy or none and every other animal is untouched; a
   * member standing on a vegetebob dense enough to feed the whole herd is fed, one on bare
   * ground is not; and every vegetebob loses exactly one unit per member fed from it.
   */
  method Grazing(w: World, g: GroupId) returns (r: World)
    requires Valid(w) && g in w.allGroups
    ensures SameShape(w, r)
    ensures Valid(r) && Grazed(w, g, r)
  {
    MembersKnownOf(w, g);
    var order := ListOf(w.groupOf[g].individuals);
    r := GrazeEach(w, g, order);
    AmountsKeepValid(w, r);
  }

  /** The members of g graze in the order of order. */
  method GrazeEach(w: World, g: GroupId, order: seq<AnimalId>) returns (r: World)
    requires MembersKnown(w, g)
    requires Distinct(order) && forall b :: b in order <==> b in w.groupOf[g].individuals
    ensures Grazed(w, g, r)
  {
    r := w;
    NoneGrazed(w, |order|);
    var i := 0;
    while i < |order|
      invariant 0 <= i <= |order|
      invariant PartlyGrazed(w, Elements(order[..i]), i, |order|, r)
    {
      var b := order[i];
      PrefixStep(order, i);
      assert MemberKnown(w, g, b);
      r := GrazeNext(w, Elements(order[..i]), i, |order|, r, b);
      i := i + 1;
    }
    assert order[..i] == order;
    AllListed(order, w.groupOf[g].individuals);
    DistinctCount(order);
  }

  /**
   * g joins every other herd of its cell, in the order a set is iterated. Since joining
   * only deletes the other herd, g ends up the only herd of its cell with the same
   * members as before, and the members of the other herds are alive but in no herd.
   */
  method JoinAll(w: World, g: GroupId) returns (r: World)
    requires Valid(w) && g in w.allGroups
    ensures g in w.groupOf && w.groupOf[g].cell in w.grid
    ensures Valid(r) && Merged(w, g, CellMates(w, g) - {g}, false, r)
    ensures r.grid[w.groupOf[g].cell].Groups(w.groupOf[g].kind) == {g}
  {
    NoneMerged(w, g, false);
    r := JoinEach(w, g);
  }

  /** The loop of JoinAll, over the herds of the cell of g that g has not yet joined. */
  method JoinEach(w: World, g: GroupId) returns (r: World)
    requires g in w.groupOf && w.groupOf[g].cell in w.grid && MatesKnown(w, g)
    requires Merging(w, g, {}, false, w)
    ensures Merging(w, g, CellMates(w, g) - {g}, false, r)
  {
    var grp := w.groupOf[g];
    var pending := w.grid[grp.cell].Groups(grp.kind);
    r := w;
    ghost var joined: set<GroupId> := {};
    while pending != {}
      invariant pending <= CellMates(w, g) && joined == CellMates(w, g) - pending - {g}
      invariant Merging(w, g, joined, false, r)
    {
      var h :| h in pending;
      r, joined := JoinNext(w, g, joined, r, h);
      pending := pending - {h};
    }
    assert joined == CellMates(w, g) - {g};
  }

  /**
   * What a herd's day went through on its way to the world it ends in: the world once the
   * herds of its cell were joined, the world after the vote and the scan, whether the herd
   * moved, the member whose scan chose the cell and the cell chosen.
   */
  datatype Journey = Journey(joined: World, mid: World, moved: bool, rep: AnimalId, best: Pos)

  /**
   * r is w after the day of the herd g, which went through d: a herd without members is
   * deleted, releasing nobody; otherwise it joins every other herd of its cell, the vote
   * decides whether it moves, and then it either moves, as one member's best-cell scan
   * chose, or grazes. It stays registered exactly when it has members.
   */
  ghost predicate DayLived(w: World, g: GroupId, d: Journey, r: World)
  {
    && g in w.groupOf && w.groupOf[g].cell in w.grid && SameShape(w, r)
    && (g in r.allGroups <==> w.groupOf[g].individuals != {})
    && (w.groupOf[g].individuals == {} ==> GroupDeleted(w, g, false, r))
    && (w.groupOf[g].individuals != {} ==>
          && Merged(w, g, CellMates(w, g) - {g}, false, d.joined)
          && w.groupOf[g].cell in d.joined.grid
          && d.joined.grid[w.groupOf[g].cell].Groups(w.groupOf[g].kind) == {g}
          && (d.moved <==> 2 * |Keen(d.joined.animalOf, w.groupOf[g].individuals)| >= |w.groupOf[g].individuals|)
          && OnlyCachesFilled(d.joined, d.mid) && g in d.mid.groupOf
          && (d.moved ==>
                && d.rep in w.groupOf[g].individuals && Ready(d.joined, d.rep)
                && var p := d.joined.animalOf[d.rep].cell;
                && (forall q :: q in SurroundingCoordinates(p.0, p.1) ==> q in d.joined.grid)
                && Animals.BestCell(d.joined.grid, d.joined.animalOf[d.rep].species, p, SurroundingCoordinates(p.0, p.1), d.best)
                && GroupMoved(d.mid, g, d.best, r))
          && (!d.moved ==> Grazed(d.mid, g, r)))
  }

  /**
   * The day of the herd g: deleted, releasing nobody, when it has no members; otherwise it
   * joins the other herds of its cell, then moves if the vote passes and grazes if not.
   * Besides the new world this gives back, as a ghost, what the day went through.
   */
  method LiveDay(w: World, g: GroupId) returns (r: World, ghost d: Journey)
    requires Valid(w) && g in w.allGroups
    ensures Valid(r) && DayLived(w, g, d, r)
  {
    var deleted;
    r, deleted := DeleteIfNoMembers(w, g);
    d := Journey(r, r, false, 0, w.groupOf[g].cell);
    if deleted {
      return;
    }
    var joined := JoinAll(w, g);
    MovementDay(w, g, joined);
    r, d := MoveOrGraze(w, g, joined);
  }

  /** The herd g, once joined, is alone in its cell with the members it had. */
  lemma MovementDay(w: World, g: GroupId, joined: World)
    requires Valid(w) && g in w.allGroups && w.groupOf[g].individuals != {}
    requires Valid(joined) && Merged(w, g, CellMates(w, g) - {g}, false, joined)
    ensures w.groupOf[g].cell in joined.grid && joined.grid[w.groupOf[g].cell].Groups(w.groupOf[g].kind) == {g}
    ensures g in joined.allGroups && g in joined.groupOf && joined.groupOf[g] == w.groupOf[g]
  {
    NoneMerged(w, g, false);
    MergedFacts(w, g, CellMates(w, g) - {g}, false, joined);
  }

  /** The second half of a herd's day, from the world once its cell's herds were joined. */
  method MoveOrGraze(w: World, g: GroupId, joined: World) returns (r: World, ghost d: Journey)
    requires g in w.groupOf && w.groupOf[g].cell in w.grid && w.groupOf[g].individuals != {}
    requires Valid(joined) && Merged(w, g, CellMates(w, g) - {g}, false, joined)
    requires w.groupOf[g].cell in joined.grid && joined.grid[w.groupOf[g].cell].Groups(w.groupOf[g].kind) == {g}
    requires g in joined.allGroups && g in joined.groupOf && joined.groupOf[g] == w.groupOf[g]
    ensures Valid(r) && DayLived(w, g, d, r)
  {
    var moved, rep, best;
    ghost var mid;
    r, moved, rep, best, mid := Movement(joined, g);
    d := Journey(joined, mid, moved, rep, best);
    if moved {
      return;
    }
    d := d.(mid := r);
    r := Grazing(r, g);
  }

  /** Changing amounts only, twice over, changes amounts only. */
  lemma AmountsTrans(w: World, m: World, r: World)
    requires OnlyAmountsChanged(w, m) && OnlyAmountsChanged(m, r)
    ensures OnlyAmountsChanged(w, r)
  {
  }
}
