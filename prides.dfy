// Prides (groups.py, class Pride): a pride of carvizes joins the like-minded prides of its
// cell, moves if its members vote to, and otherwise fights the prides left in its cell and
// hunts the strongest erbast there.
module Prides {
  import opened Constants
  import opened Cells
  import opened Ecosystem
  import Animals
  import opened Groups

  /** The sum of f over s, taken in no particular order. */
  ghost function Sum<T>(s: set<T>, f: T -> real): real
    decreases s
  {
    if s == {} then 0.0 else var x :| x in s; f(x) + Sum(s - {x}, f)
  }

  /** Any element of s may be summed first: the order of a sum does not matter. */
  lemma {:induction false} SumRemove<T>(s: set<T>, f: T -> real, y: T)
    requires y in s
    ensures Sum(s, f) == f(y) + Sum(s - {y}, f)
    decreases s
  {
    var x :| x in s && Sum(s, f) == f(x) + Sum(s - {x}, f);
    if x != y {
      SumRemove(s - {x}, f, y);
      SumRemove(s - {y}, f, x);
      assert s - {x} - {y} == s - {y} - {x};
    }
  }

  /** Functions that agree on s have the same sum over s. */
  lemma {:induction false} SumAgree<T>(s: set<T>, f: T -> real, g: T -> real)
    requires forall x :: x in s ==> f(x) == g(x)
    ensures Sum(s, f) == Sum(s, g)
    decreases s
  {
    if s != {} {
      var x :| x in s && Sum(s, f) == f(x) + Sum(s - {x}, f);
      SumRemove(s, g, x);
      SumAgree(s - {x}, f, g);
    }
  }

  /** A sum of terms between 0 and 1 lies between 0 and the number of terms. */
  lemma {:induction false} SumBounds<T>(s: set<T>, f: T -> real)
    requires forall x :: x in s ==> 0.0 <= f(x) <= 1.0
    ensures 0.0 <= Sum(s, f) <= |s| as real
    decreases s
  {
    if s != {} {
      var x :| x in s && Sum(s, f) == f(x) + Sum(s - {x}, f);
      SumBounds(s - {x}, f);
    }
  }

  /** A positive sum has a positive term. */
  lemma {:induction false} SumPositive<T>(s: set<T>, f: T -> real) returns (y: T)
    requires Sum(s, f) > 0.0
    ensures y in s && f(y) > 0.0
    decreases s
  {
    var x :| x in s && Sum(s, f) == f(x) + Sum(s - {x}, f);
    if f(x) > 0.0 {
      y := x;
    } else {
      y := SumPositive(s - {x}, f);
    }
  }

  /** Summing over one more element of a list without repetitions adds its term. */
  lemma SumPrefixStep<T>(q: seq<T>, f: T -> real, i: nat)
    requires Distinct(q) && i < |q|
    ensures Sum(Elements(q[..i + 1]), f) == Sum(Elements(q[..i]), f) + f(q[i])
  {
    PrefixStep(q, i);
    SumRemove(Elements(q[..i + 1]), f, q[i]);
    assert Elements(q[..i + 1]) - {q[i]} == Elements(q[..i]);
  }

  /** The two amounts of an animal that a pride sums over its members. */
  datatype Trait = SocialAttitude | Energy

  function TraitOf(an: Animal, t: Trait): real
  {
    match t
    case SocialAttitude => an.socialAttitude
    case Energy => an.energy
  }

  /** The trait t of each animal of w. */
  ghost function Traits(w: World, t: Trait): AnimalId -> real
  {
    b => if b in w.animalOf then TraitOf(w.animalOf[b], t) else 0.0
  }

  /** Adds up the trait t over the animals s, one after the other in some order. */
  method SumOfTrait(w: World, s: set<AnimalId>, t: Trait) returns (total: real)
    requires s <= w.animalOf.Keys
    ensures total == Sum(s, Traits(w, t))
  {
    var order := ListOf(s);
    total := 0.0;
    var i := 0;
    while i < |order|
      invariant 0 <= i <= |order|
      invariant total == Sum(Elements(order[..i]), Traits(w, t))
    {
      var b := order[i];
      SumPrefixStep(order, Traits(w, t), i);
      total := total + TraitOf(w.animalOf[b], t);
      i := i + 1;
    }
    assert order[..i] == order;
    AllListed(order, s);
  }

  /** The average social attitude of the members of h, which is 0 for a pride with none. */
  ghost function AverageAttitude(w: World, h: GroupId): real
    requires h in w.groupOf
  {
    var s := w.groupOf[h].individuals;
    if |s| <= 0 then 0.0 else Sum(s, Traits(w, SocialAttitude)) / |s| as real
  }

  /** Computes the average social attitude of the members of h. */
  method GetAverageSocialAttitude(w: World, h: GroupId) returns (avg: real)
    requires h in w.groupOf && w.groupOf[h].individuals <= w.animalOf.Keys
    ensures avg == AverageAttitude(w, h)
  {
    var s := w.groupOf[h].individuals;
    if |s| <= 0 {
      return 0.0;
    }
    var total := SumOfTrait(w, s, SocialAttitude);
    avg := total / |s| as real;
  }

  /** When every member's social attitude lies in [0, 1], so does the average. */
  lemma AverageAttitudeBounds(w: World, h: GroupId)
    requires h in w.groupOf && w.groupOf[h].individuals <= w.animalOf.Keys
    requires forall b :: b in w.groupOf[h].individuals ==> 0.0 <= w.animalOf[b].socialAttitude <= 1.0
    ensures 0.0 <= AverageAttitude(w, h) <= 1.0
  {
    var s := w.groupOf[h].individuals;
    if |s| > 0 {
      SumBounds(s, Traits(w, SocialAttitude));
    }
  }

  /** The average attitude of h is the same in r as in w when h and its members' attitudes are. */
  lemma AverageAttitudeKept(w: World, r: World, h: GroupId)
    requires h in w.groupOf && h in r.groupOf && r.groupOf[h] == w.groupOf[h]
    requires forall b :: b in w.groupOf[h].individuals ==>
      b in w.animalOf && b in r.animalOf && r.animalOf[b].socialAttitude == w.animalOf[b].socialAttitude
    ensures AverageAttitude(r, h) == AverageAttitude(w, h)
  {
    SumAgree(w.groupOf[h].individuals, Traits(w, SocialAttitude), Traits(r, SocialAttitude));
  }

  /**
   * The prides of g's cell that g joins: every other one whose average social attitude is
   * at least 0.5, provided g's own is; none otherwise.
   */
  ghost function Allies(w: World, g: GroupId): set<GroupId>
    requires g in w.groupOf && w.groupOf[g].cell in w.grid
  {
    if AverageAttitude(w, g) < 0.5 then {}
    else set h | h in CellMates(w, g) && h != g && h in w.groupOf && AverageAttitude(w, h) >= 0.5
  }

  /**
   * g joins each other pride of its cell whose members, like g's, have an average social
   * attitude of at least 0.5. Those are deleted and their members released; the other
   * prides of the cell, and g itself, keep their records.
   */
  method TryJoinAll(w: World, g: GroupId) returns (r: World)
    requires Valid(w) && g in w.allGroups
    ensures g in w.groupOf && w.groupOf[g].cell in w.grid
    ensures Valid(r) && Merged(w, g, Allies(w, g), false, r)
  {
    NoneMerged(w, g, false);
    r := TryJoinEach(w, g);
  }

  /** The loop of TryJoinAll, over the prides of the cell of g not yet considered. */
  method TryJoinEach(w: World, g: GroupId) returns (r: World)
    requires g in w.groupOf && w.groupOf[g].cell in w.grid && MatesKnown(w, g)
    requires Merging(w, g, {}, false, w)
    ensures Merging(w, g, Allies(w, g), false, r)
  {
    var grp := w.groupOf[g];
    var pending := w.grid[grp.cell].Groups(grp.kind);
    r := w;
    ghost var joined: set<GroupId> := {};
    ghost var allies := Allies(w, g);
    while pending != {}
      invariant pending <= CellMates(w, g) && joined == allies - pending
      invariant Merging(w, g, joined, false, r)
    {
      var h :| h in pending;
      r, joined := TryJoinNext(w, g, joined, r, h);
      ConsideredNext(allies, pending, h);
      pending := pending - {h};
    }
    assert joined == allies;
  }

  /** Considering one more candidate h adds it to those accepted when it is acceptable. */
  lemma ConsideredNext<T>(accepted: set<T>, pending: set<T>, h: T)
    requires h in pending
    ensures accepted - (pending - {h}) == if h in accepted then (accepted - pending) + {h} else accepted - pending
  {
  }

  /** g joins h, the next pride of its cell, when both are like-minded enough. */
  method TryJoinNext(w: World, g: GroupId, ghost joined: set<GroupId>, r: World, h: GroupId)
    returns (next: World, ghost joined': set<GroupId>)
    requires g in w.groupOf && w.groupOf[g].cell in w.grid && MatesKnown(w, g)
    requires Merging(w, g, joined, false, r)
    requires h in CellMates(w, g) && h !in joined
    ensures joined' == if h in Allies(w, g) then joined + {h} else joined
    ensures Merging(w, g, joined', false, next)
  {
    next, joined' := r, joined;
    if h == g {
      return;
    }
    MergingKeepsAverage(w, g, joined, false, r, h);
    MergingKeepsAverage(w, g, joined, false, r, g);
    AlliesMember(w, g, h);
    var theirs := GetAverageSocialAttitude(r, h);
    var ours := GetAverageSocialAttitude(r, g);
    if theirs < 0.5 || ours < 0.5 {
      return;
    }
    next, joined' := JoinNext(w, g, joined, r, h);
  }

  /** A pride of g's cell is an ally of g when it is another one and both are like-minded enough. */
  lemma AlliesMember(w: World, g: GroupId, h: GroupId)
    requires g in w.groupOf && w.groupOf[g].cell in w.grid && MatesKnown(w, g) && h in CellMates(w, g)
    ensures h in Allies(w, g) <==> h != g && AverageAttitude(w, h) >= 0.5 && AverageAttitude(w, g) >= 0.5
  {
  }

  /** While prides of its cell are merged into g, the others and g keep their average attitude. */
  lemma MergingKeepsAverage(w: World, g: GroupId, joined: set<GroupId>, kill: bool, r: World, h: GroupId)
    requires g in w.groupOf && w.groupOf[g].cell in w.grid && MatesKnown(w, g)
    requires Merging(w, g, joined, kill, r)
    requires h in CellMates(w, g) && (h == g || h !in joined)
    ensures h in r.groupOf && r.groupOf[h] == w.groupOf[h] && r.groupOf[h].individuals <= r.animalOf.Keys
    ensures AverageAttitude(r, h) == AverageAttitude(w, h)
  {
    assert Valid(r) && Merged(w, g, joined, kill, r);
    if h != g {
      assert h in r.grid[w.groupOf[g].cell].Groups(w.groupOf[g].kind);
    }
    AverageAttitudeKept(w, r, h);
  }

  /** The elements of s of positive weight under f. */
  ghost function Favoured<T>(s: set<T>, f: T -> real): set<T>
  {
    set x | x in s && f(x) > 0.0
  }

  lemma FavouredStep<T>(q: seq<T>, f: T -> real, i: nat)
    requires Distinct(q) && i < |q|
    ensures Favoured(Elements(q[..i + 1]), f) ==
      if f(q[i]) > 0.0 then Favoured(Elements(q[..i]), f) + {q[i]} else Favoured(Elements(q[..i]), f)
  {
    PrefixStep(q, i);
  }

  /** The weight of each pride in the draw of a fight: the energy of its members. */
  ghost function Weights(w: World): GroupId -> real
  {
    h => if h in w.groupOf then Sum(w.groupOf[h].individuals, Traits(w, Energy)) else 0.0
  }

  /**
   * The fight among the prides of g's cell. The winner is drawn among them with the energy
   * of its members for weight, so only a pride of positive weight can win, and the draw
   * fails when the weights do not add up to a positive total; then nothing changes and
   * drawn is false. Otherwise every other pride of the cell is deleted and its members
   * killed, and the winner is left the only pride of the cell.
   */
  method InitiateFight(w: World, g: GroupId) returns (r: World, winner: GroupId, drawn: bool)
    requires Valid(w) && g in w.allGroups
    ensures SameShape(w, r)
    ensures g in w.groupOf && w.groupOf[g].cell in w.grid
    ensures drawn <==> Sum(CellMates(w, g), Weights(w)) > 0.0
    ensures !drawn ==> r == w
    ensures drawn ==>
      && winner in CellMates(w, g) && Weights(w)(winner) > 0.0
      && winner in w.groupOf && w.groupOf[winner].cell == w.groupOf[g].cell
      && Merged(w, winner, CellMates(w, g) - {winner}, true, r)
    ensures Valid(r)
  {
    NoneMerged(w, g, true);
    var grp := w.groupOf[g];
    var prides := ListOf(w.grid[grp.cell].Groups(grp.kind));
    var candidates, total := Weigh(w, g, prides);
    AllListed(prides, CellMates(w, g));
    drawn := total > 0.0;
    r, winner := w, g;
    if !drawn {
      return;
    }
    ghost var some := SumPositive(CellMates(w, g), Weights(w));
    assert some in candidates;
    winner :| winner in candidates;
    NoneMerged(w, winner, true);
    assert CellMates(w, winner) == CellMates(w, g);
    r := FightEach(w, winner);
    assert Valid(r) && Merged(w, winner, CellMates(w, g) - {winner}, true, r);
  }

  /**
   * The weights of the prides listed, which are those of g's cell, their total, and those
   * of positive weight: the prides that can win the draw.
   */
  method Weigh(w: World, g: GroupId, prides: seq<GroupId>) returns (candidates: set<GroupId>, total: real)
    requires g in w.groupOf && w.groupOf[g].cell in w.grid && MatesKnown(w, g)
    requires Distinct(prides) && forall h :: h in prides <==> h in CellMates(w, g)
    ensures total == Sum(CellMates(w, g), Weights(w))
    ensures candidates == Favoured(CellMates(w, g), Weights(w))
  {
    candidates, total := {}, 0.0;
    var i := 0;
    while i < |prides|
      invariant 0 <= i <= |prides|
      invariant total == Sum(Elements(prides[..i]), Weights(w))
      invariant candidates == Favoured(Elements(prides[..i]), Weights(w))
    {
      var h := prides[i];
      var weight := SumOfTrait(w, w.groupOf[h].individuals, Energy);
      assert weight == Weights(w)(h);
      SumPrefixStep(prides, Weights(w), i);
      FavouredStep(prides, Weights(w), i);
      total := total + weight;
      if weight > 0.0 {
        candidates := candidates + {h};
      }
      i := i + 1;
    }
    assert prides[..i] == prides;
    AllListed(prides, CellMates(w, g));
  }

  /** The loop of InitiateFight, over the prides of the winner's cell not yet deleted. */
  method FightEach(w: World, winner: GroupId) returns (r: World)
    requires winner in w.groupOf && w.groupOf[winner].cell in w.grid && MatesKnown(w, winner)
    requires Merging(w, winner, {}, true, w)
    ensures Merging(w, winner, CellMates(w, winner) - {winner}, true, r)
  {
    var grp := w.groupOf[winner];
    var pending := w.grid[grp.cell].Groups(grp.kind);
    r := w;
    ghost var beaten: set<GroupId> := {};
    while pending != {}
      invariant pending <= CellMates(w, winner) && beaten == CellMates(w, winner) - pending - {winner}
      invariant Merging(w, winner, beaten, true, r)
    {
      var h :| h in pending;
      r, beaten := FightNext(w, winner, beaten, r, h);
      pending := pending - {h};
    }
    assert beaten == CellMates(w, winner) - {winner};
  }

  /** h, the next pride of the winner's cell, is deleted and its members killed, unless h is the winner. */
  method FightNext(w: World, winner: GroupId, ghost beaten: set<GroupId>, r: World, h: GroupId)
    returns (next: World, ghost beaten': set<GroupId>)
    requires winner in w.groupOf && w.groupOf[winner].cell in w.grid && MatesKnown(w, winner)
    requires Merging(w, winner, beaten, true, r)
    requires h in CellMates(w, winner) && h !in beaten
    ensures beaten' == if h == winner then beaten else beaten + {h}
    ensures Merging(w, winner, beaten', true, next)
  {
    if h == winner {
      next, beaten' := r, beaten;
      return;
    }
    assert Valid(r) && Merged(w, winner, beaten, true, r);
    assert h in r.allGroups;
    next := DeleteGroup(r, h, true);
    MergedNext(w, winner, beaten, true, r, h, next);
    beaten' := beaten + {h};
  }

  /**
   * The erbast of g's cell with the most energy, the first such in some order of the
   * cell's erbasts; the cell must hold one.
   */
  method FindStrongestErbast(w: World, g: GroupId) returns (victim: AnimalId)
    requires g in w.groupOf && w.groupOf[g].cell in w.grid
    requires w.grid[w.groupOf[g].cell].erbasts != {} && w.grid[w.groupOf[g].cell].erbasts <= w.animalOf.Keys
    ensures var s := w.grid[w.groupOf[g].cell].erbasts;
      victim in s && forall e :: e in s ==> w.animalOf[e].energy <= w.animalOf[victim].energy
  {
    var s := w.grid[w.groupOf[g].cell].erbasts;
    var order := ListOf(s);
    var some :| some in s;
    assert some in order;
    victim := order[0];
    var i := 1;
    while i < |order|
      invariant 1 <= i <= |order| && victim in s
      invariant forall k :: 0 <= k < i ==> w.animalOf[order[k]].energy <= w.animalOf[victim].energy
    {
      if w.animalOf[order[i]].energy > w.animalOf[victim].energy {
        victim := order[i];
      }
      i := i + 1;
    }
  }

  /** The animal records once each of the animals done has gained share units of energy. */
  ghost function Feasted(animalOf: map<AnimalId, Animal>, done: set<AnimalId>, share: real): map<AnimalId, Animal>
  {
    map b | b in animalOf :: if b in done then animalOf[b].(energy := animalOf[b].energy + share) else animalOf[b]
  }

  lemma FeastedStep(animalOf: map<AnimalId, Animal>, done: set<AnimalId>, share: real, b: AnimalId)
    requires b in animalOf
    ensures Feasted(animalOf, done + {b}, share) ==
      Feasted(animalOf, done, share)[b := animalOf[b].(energy := animalOf[b].energy + share)]
  {
  }

  /**
   * r is w after the pride g hunted victim: the victim is an erbast of g's cell with the
   * most energy there; each member gained the victim's energy divided by the number of
   * members, and the victim was then deleted.
   */
  ghost predicate Hunted(w: World, g: GroupId, victim: AnimalId, r: World)
  {
    && g in w.groupOf && w.groupOf[g].cell in w.grid && w.groupOf[g].individuals != {}
    && var s := w.grid[w.groupOf[g].cell].erbasts;
    && victim in s && victim in w.animalOf
    && (forall e :: e in s ==> e in w.animalOf && w.animalOf[e].energy <= w.animalOf[victim].energy)
    && var share := w.animalOf[victim].energy / |w.groupOf[g].individuals| as real;
    && var fed := w.(animalOf := Feasted(w.animalOf, w.groupOf[g].individuals, share));
    && victim in fed.animalOf && Animals.Deleted(fed, victim, r)
  }

  /**
   * The hunt of the pride g: the strongest erbast of its cell is the victim; each member
   * gains the victim's energy divided by the number of members, and the victim is then
   * deleted. The cell must hold an erbast and the pride a member.
   */
  method Hunt(w: World, g: GroupId) returns (r: World, victim: AnimalId)
    requires Valid(w) && g in w.allGroups && g in w.groupOf && w.groupOf[g].kind == Pride
    requires w.groupOf[g].individuals != {}
    requires w.groupOf[g].cell in w.grid && w.grid[w.groupOf[g].cell].erbasts != {}
    ensures SameShape(w, r) && Hunted(w, g, victim, r)
    ensures Valid(r)
  {
    var members := w.groupOf[g].individuals;
    MembersKnownOf(w, g);
    HuntersKnown(w, g);
    victim := FindStrongestErbast(w, g);
    var share := w.animalOf[victim].energy / |members| as real;
    var order := ListOf(members);
    var fed := ShareEach(w, g, share, order);
    FeastedKeepsValid(w, members, share, victim);
    Animals.AliveFacts(fed, victim);
    r := Animals.Delete(fed, victim);
    Animals.DeleteKeepsValid(fed, victim, r);
  }

  /** The erbasts of a pride's cell are live animals, none of them a member of the pride. */
  lemma HuntersKnown(w: World, g: GroupId)
    requires Valid(w) && g in w.allGroups && g in w.groupOf && w.groupOf[g].kind == Pride
    ensures w.groupOf[g].cell in w.grid
    ensures forall e :: e in w.grid[w.groupOf[g].cell].erbasts ==>
      Animals.Alive(w, e) && w.animalOf[e].species == Erbast && e !in w.groupOf[g].individuals
  {
    var p := w.groupOf[g].cell;
    forall e | e in w.grid[p].erbasts
      ensures Animals.Alive(w, e) && w.animalOf[e].species == Erbast && e !in w.groupOf[g].individuals
    {
      assert e in w.grid[p].Population(Erbast);
      if e in w.groupOf[g].individuals {
        assert false;
      }
    }
  }

  /** Raising the energy of pride members keeps the world valid and leaves every erbast alive. */
  lemma FeastedKeepsValid(w: World, members: set<AnimalId>, share: real, victim: AnimalId)
    requires Valid(w) && members <= w.animalOf.Keys
    requires Animals.Alive(w, victim) && victim !in members
    ensures Valid(w.(animalOf := Feasted(w.animalOf, members, share)))
    ensures Animals.Alive(w.(animalOf := Feasted(w.animalOf, members, share)), victim)
  {
    var fed := w.(animalOf := Feasted(w.animalOf, members, share));
    assert OnlyAmountsChanged(w, fed);
    AmountsKeepValid(w, fed);
  }

  /** The members of g gain share units of energy each, in the order of order. */
  method ShareEach(w: World, g: GroupId, share: real, order: seq<AnimalId>) returns (r: World)
    requires g in w.groupOf && w.groupOf[g].individuals <= w.animalOf.Keys
    requires Distinct(order) && forall b :: b in order <==> b in w.groupOf[g].individuals
    ensures r == w.(animalOf := Feasted(w.animalOf, w.groupOf[g].individuals, share))
  {
    r := w;
    var i := 0;
    while i < |order|
      invariant 0 <= i <= |order|
      invariant r == w.(animalOf := Feasted(w.animalOf, Elements(order[..i]), share))
    {
      var b := order[i];
      PrefixStep(order, i);
      FeastedStep(w.animalOf, Elements(order[..i]), share, b);
      r := r.(animalOf := r.animalOf[b := r.animalOf[b].(energy := r.animalOf[b].energy + share)]);
      i := i + 1;
    }
    assert order[..i] == order;
    AllListed(order, w.groupOf[g].individuals);
  }

  /** Adding c to every term of a sum adds c once per term. */
  lemma {:induction false} SumShift<T>(s: set<T>, f: T -> real, g: T -> real, c: real)
    requires forall x :: x in s ==> g(x) == f(x) + c
    ensures Sum(s, g) == Sum(s, f) + |s| as real * c
    decreases s
  {
    if s != {} {
      var x :| x in s && Sum(s, g) == g(x) + Sum(s - {x}, g);
      SumRemove(s, f, x);
      SumShift(s - {x}, f, g, c);
      assert |s - {x}| as real * c + c == |s| as real * c;
    }
  }

  /**
   * A hunt loses no energy: the members of the pride gain, all together, exactly the
   * energy of the victim.
   */
  lemma HuntSharesVictim(w: World, g: GroupId, victim: AnimalId)
    requires g in w.groupOf && w.groupOf[g].individuals != {} && w.groupOf[g].individuals <= w.animalOf.Keys
    requires victim in w.animalOf
    ensures var members := w.groupOf[g].individuals;
      var share := w.animalOf[victim].energy / |members| as real;
      var fed := w.(animalOf := Feasted(w.animalOf, members, share));
      Sum(members, Traits(fed, Energy)) == Sum(members, Traits(w, Energy)) + w.animalOf[victim].energy
  {
    var members := w.groupOf[g].individuals;
    var share := w.animalOf[victim].energy / |members| as real;
    var fed := w.(animalOf := Feasted(w.animalOf, members, share));
    SumShift(members, Traits(w, Energy), Traits(fed, Energy), share);
  }

  /**
   * What a pride's day went through on its way to the world it ends in: the world once g
   * had joined its allies; whether it moved, the member whose scan chose the cell, the cell
   * chosen and the world after the vote and the scan; the world it stayed in; whether it
   * fought, the winner and the world after the fight; and the erbast it hunted.
   */
  datatype Journey = Journey(joined: World, moved: bool, rep: AnimalId, best: Pos, mid: World,
                             settled: World, fought: bool, winner: GroupId, after: World, victim: AnimalId)

  /**
   * r is s after the pride g, which did not move, stayed: it fights when its cell holds
   * other prides, and the day fails (failed) when their weights add up to no positive total,
   * leaving s as it was; otherwise the winner, a pride of positive weight, takes in the
   * others, whose members die, giving after. Unless the day failed, g, if still registered
   * and its cell holds an erbast, then hunts.
   */
  ghost predicate Stayed(s: World, g: GroupId, fought: bool, winner: GroupId, after: World, victim: AnimalId,
                         failed: bool, r: World)
    requires g in s.groupOf && s.groupOf[g].cell in s.grid
  {
    var p := s.groupOf[g].cell;
    && (fought <==> |s.grid[p].prides| > 1)
    && (!fought ==> after == s && !failed)
    && (fought ==>
          && (failed <==> Sum(CellMates(s, g), Weights(s)) <= 0.0)
          && (failed ==> r == s)
          && (!failed ==>
                && winner in CellMates(s, g) && Weights(s)(winner) > 0.0
                && winner in s.groupOf && s.groupOf[winner].cell == p
                && Merged(s, winner, CellMates(s, g) - {winner}, true, after)))
    && (!failed ==>
          && p in after.grid
          && if g in after.allGroups && |after.grid[p].erbasts| > 0 then Hunted(after, g, victim, r) else r == after)
  }

  /**
   * r is w after the day of the pride g, which went through d; failed tells whether the
   * draw of its fight failed. A pride without members is deleted, releasing nobody;
   * otherwise it joins its allies and the vote decides whether it moves, as one member's
   * best-cell scan chose, or stays in its cell, fights and hunts.
   */
  ghost predicate DayLived(w: World, g: GroupId, d: Journey, failed: bool, r: World)
  {
    && g in w.groupOf && w.groupOf[g].cell in w.grid && SameShape(w, r)
    && (w.groupOf[g].individuals == {} ==> GroupDeleted(w, g, false, r) && g !in r.allGroups && !failed)
    && (g in r.allGroups ==> w.groupOf[g].individuals != {})
    && (w.groupOf[g].individuals != {} ==>
          && Merged(w, g, Allies(w, g), false, d.joined)
          && (d.moved <==> 2 * |Keen(d.joined.animalOf, w.groupOf[g].individuals)| >= |w.groupOf[g].individuals|)
          && (d.moved ==>
                && !failed && g in r.allGroups
                && d.rep in w.groupOf[g].individuals && Ready(d.joined, d.rep)
                && var p := d.joined.animalOf[d.rep].cell;
                && (forall q :: q in SurroundingCoordinates(p.0, p.1) ==> q in d.joined.grid)
                && Animals.BestCell(d.joined.grid, d.joined.animalOf[d.rep].species, p, SurroundingCoordinates(p.0, p.1), d.best)
                && OnlyCachesFilled(d.joined, d.mid) && g in d.mid.groupOf && GroupMoved(d.mid, g, d.best, r))
          && (!d.moved ==>
                && OnlyCachesFilled(d.joined, d.settled) && g in d.settled.groupOf && d.settled.groupOf[g] == w.groupOf[g]
                && d.settled.groupOf[g].cell in d.settled.grid
                && Stayed(d.settled, g, d.fought, d.winner, d.after, d.victim, failed, r)))
  }

  /**
   * The day of the pride g: deleted, releasing nobody, when it has no members; otherwise it
   * joins its like-minded neighbours and moves if the vote passes. If it stays, it fights
   * the prides left in its cell when there are any, and, unless it lost, hunts when the
   * cell holds an erbast. The draw of the fight fails when the prides' weights do not add
   * up to a positive total: the day then stops there and failed is true. Besides the new
   * world this gives back, as a ghost, what the day went through.
   */
  method LiveDay(w: World, g: GroupId) returns (r: World, failed: bool, ghost d: Journey)
    requires Valid(w) && g in w.allGroups && g in w.groupOf && w.groupOf[g].kind == Pride
    ensures Valid(r) && DayLived(w, g, d, failed, r)
  {
    var deleted;
    r, deleted := DeleteIfNoMembers(w, g);
    failed, d := false, Journey(r, false, 0, w.groupOf[g].cell, r, r, false, g, r, 0);
    if deleted {
      return;
    }
    var joined := TryJoinAll(w, g);
    AlliesJoined(w, g, joined);
    r, failed, d := MoveOrStay(w, g, joined);
  }

  /** The pride g, once it has joined its allies, keeps its record. */
  lemma AlliesJoined(w: World, g: GroupId, joined: World)
    requires Valid(w) && g in w.allGroups
    requires Merged(w, g, Allies(w, g), false, joined)
    ensures g in w.groupOf && g in joined.allGroups && g in joined.groupOf && joined.groupOf[g] == w.groupOf[g]
  {
    NoneMerged(w, g, false);
    MergedFacts(w, g, Allies(w, g), false, joined);
  }

  /** The second half of a pride's day, from the world once it has joined its allies. */
  method MoveOrStay(w: World, g: GroupId, joined: World) returns (r: World, failed: bool, ghost d: Journey)
    requires g in w.groupOf && w.groupOf[g].cell in w.grid && w.groupOf[g].individuals != {} && w.groupOf[g].kind == Pride
    requires Valid(joined) && Merged(w, g, Allies(w, g), false, joined)
    requires g in joined.allGroups && g in joined.groupOf && joined.groupOf[g] == w.groupOf[g]
    ensures Valid(r) && DayLived(w, g, d, failed, r)
  {
    var moved, rep, best;
    ghost var mid;
    r, moved, rep, best, mid := Movement(joined, g);
    failed, d := false, Journey(joined, moved, rep, best, mid, r, false, g, r, 0);
    if moved {
      return;
    }
    var settled := r;
    ghost var fought, winner, after, victim;
    r, failed, fought, winner, after, victim := Stay(settled, g);
    d := d.(fought := fought, winner := winner, after := after, victim := victim);
  }

  /** The pride g, which did not move, fights if its cell holds other prides and then hunts. */
  method Stay(s: World, g: GroupId)
    returns (r: World, failed: bool, ghost fought: bool, ghost winner: GroupId, ghost after: World, ghost victim: AnimalId)
    requires Valid(s) && g in s.allGroups && g in s.groupOf && s.groupOf[g].kind == Pride
    requires s.groupOf[g].individuals != {}
    ensures s.groupOf[g].cell in s.grid
    ensures Valid(r) && SameShape(s, r) && Stayed(s, g, fought, winner, after, victim, failed, r)
  {
    assert s.groupOf[g].cell in s.grid;
    var p := s.groupOf[g].cell;
    r, failed, fought, winner, after, victim := s, false, false, g, s, 0;
    if |s.grid[p].prides| > 1 {
      fought := true;
      var drawn;
      r, winner, drawn := InitiateFight(s, g);
      if !drawn {
        failed := true;
        return;
      }
    }
    after := r;
    if g !in r.allGroups {
      return;
    }
    if |r.grid[p].erbasts| > 0 {
      r, victim := Hunt(r, g);
    }
  }
}
