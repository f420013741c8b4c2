// Groups (groups.py): herds of erbasts and prides of carvizes. A group is registered in
// the world's list of groups and in the group set of its cell; it moves when a majority
// of its members wants to, and it is deleted either by releasing or by killing its
// members.
module Groups {
  import opened Constants
  import opened Cells
  import opened Ecosystem
  import Animals

  /** The position of the first occurrence of x in s. */
  function FirstIndex(s: seq<GroupId>, x: GroupId): (i: nat)
    requires x in s
    ensures i < |s| && s[i] == x && x !in s[..i]
  {
    if s[0] == x then 0
    else
      var i := 1 + FirstIndex(s[1..], x);
      assert s[..i] == [s[0]] + s[1..][..i - 1];
      i
  }

  /** s without the first occurrence of x, as a list's remove does. */
  function RemoveFirst(s: seq<GroupId>, x: GroupId): (r: seq<GroupId>)
    requires x in s
    ensures r == s[..FirstIndex(s, x)] + s[FirstIndex(s, x) + 1..]
  {
    if s[0] == x then s[1..]
    else
      var rest := RemoveFirst(s[1..], x);
      assert s == [s[0]] + s[1..];
      [s[0]] + rest
  }

  /** No entry of s occurs twice. */
  predicate Distinct<T(==)>(s: seq<T>)
  {
    forall i, j :: 0 <= i < j < |s| ==> s[i] != s[j]
  }

  /** Removing a registered group from a list without repetitions leaves exactly the others, still without repetitions. */
  lemma {:induction false} RemoveFirstDistinct(s: seq<GroupId>, x: GroupId)
    requires x in s && Distinct(s)
    ensures Distinct(RemoveFirst(s, x))
    ensures forall y :: y in RemoveFirst(s, x) <==> y in s && y != x
  {
    assert s == [s[0]] + s[1..];
    DistinctTail(s);
    if s[0] != x {
      var rest := RemoveFirst(s[1..], x);
      RemoveFirstDistinct(s[1..], x);
      assert RemoveFirst(s, x) == [s[0]] + rest;
      ConsDistinct(s[0], rest);
    }
  }

  /** The tail of a list without repetitions has none either, and lacks the head. */
  lemma DistinctTail<T>(s: seq<T>)
    requires Distinct(s) && s != []
    ensures Distinct(s[1..]) && s[0] !in s[1..]
  {
    forall i, j | 0 <= i < j < |s[1..]|
      ensures s[1..][i] != s[1..][j]
    {
      assert s[1..][i] == s[i + 1] && s[1..][j] == s[j + 1];
    }
    forall k | 0 <= k < |s[1..]|
      ensures s[1..][k] != s[0]
    {
      assert s[1..][k] == s[k + 1];
    }
  }

  /** s without the entries in gone, in the order of s. */
  function Without(s: seq<GroupId>, gone: set<GroupId>): (r: seq<GroupId>)
    ensures forall h :: h in r <==> h in s && h !in gone
  {
    if s == [] then []
    else if s[0] in gone then Without(s[1..], gone)
    else [s[0]] + Without(s[1..], gone)
  }

  /** Leaving out nothing keeps the list. */
  lemma {:induction false} WithoutNone(s: seq<GroupId>)
    ensures Without(s, {}) == s
  {
    if s != [] {
      WithoutNone(s[1..]);
      assert s == [s[0]] + s[1..];
    }
  }

  /** Leaving out an entry s lacks changes nothing. */
  lemma {:induction false} WithoutAbsent(s: seq<GroupId>, gone: set<GroupId>, h: GroupId)
    requires h !in s
    ensures Without(s, gone + {h}) == Without(s, gone)
  {
    if s != [] {
      WithoutAbsent(s[1..], gone, h);
    }
  }

  /** Removing one more entry h from a list without repetitions is leaving out gone + {h}. */
  lemma {:induction false} WithoutRemoveFirst(s: seq<GroupId>, gone: set<GroupId>, h: GroupId)
    requires Distinct(s) && h in s && h !in gone
    ensures h in Without(s, gone) && RemoveFirst(Without(s, gone), h) == Without(s, gone + {h})
  {
    DistinctTail(s);
    var rest := Without(s[1..], gone);
    if s[0] == h {
      WithoutAbsent(s[1..], gone, h);
      assert ([h] + rest)[1..] == rest;
    } else {
      WithoutRemoveFirst(s[1..], gone, h);
      if s[0] !in gone {
        assert ([s[0]] + rest)[1..] == rest;
      }
    }
  }

  lemma ConsDistinct<T>(a: T, s: seq<T>)
    requires Distinct(s) && a !in s
    ensures Distinct([a] + s)
  {
    forall i, j | 0 <= i < j < |[a] + s|
      ensures ([a] + s)[i] != ([a] + s)[j]
    {
      assert ([a] + s)[j] == s[j - 1];
      if i > 0 {
        assert ([a] + s)[i] == s[i - 1];
      }
    }
  }

  /** The live members of the registered group g are animals of its kind that name it. */
  lemma MembersAlive(w: World, g: GroupId)
    requires Valid(w) && g in w.allGroups
    ensures g in w.groupOf
    ensures forall b :: b in w.groupOf[g].individuals ==>
      && Animals.Alive(w, b) && w.animalOf[b].group == Some(g)
      && w.animalOf[b].species == MemberKind(w.groupOf[g].kind)
      && b !in w.Population(OtherKind(w.animalOf[b].species))
  {
    forall b | b in w.groupOf[g].individuals
      ensures Animals.Alive(w, b) && w.animalOf[b].species == MemberKind(w.groupOf[g].kind)
      ensures b !in w.Population(OtherKind(w.animalOf[b].species))
    {
      var kind := MemberKind(w.groupOf[g].kind);
      assert b in w.Population(kind);
      assert OtherKind(kind) != kind;
    }
  }

  /** Leaves the group set of its current cell, if it is in it. */
  method RemoveFromCurrentCell(w: World, g: GroupId) returns (r: World)
    requires g in w.groupOf && w.groupOf[g].cell in w.grid
    ensures var grp := w.groupOf[g];
      && r.grid.Keys == w.grid.Keys
      && (forall p, k :: p in w.grid ==>
            r.grid[p].Groups(k) == (if p == grp.cell && k == grp.kind then w.grid[p].Groups(k) - {g} else w.grid[p].Groups(k)))
      && (forall p :: p in w.grid ==> r.grid[p] == w.grid[p].(herds := r.grid[p].herds, prides := r.grid[p].prides))
    ensures SameBeyondGrid(w, r)
  {
    var grp := w.groupOf[g];
    var c := w.grid[grp.cell];
    r := w;
    if g in c.Groups(grp.kind) {
      r := w.(grid := w.grid[grp.cell := c.WithGroups(grp.kind, c.Groups(grp.kind) - {g})]);
    } else {
      assert c.WithGroups(grp.kind, c.Groups(grp.kind) - {g}) == c;
    }
  }

  /** Joins the group set of the cell at target and names it as the group's cell. */
  method AddToTargetCell(w: World, g: GroupId, target: Pos) returns (r: World)
    requires g in w.groupOf && target in w.grid
    ensures var grp := w.groupOf[g];
      && r.grid.Keys == w.grid.Keys
      && (forall p, k :: p in w.grid ==>
            r.grid[p].Groups(k) == (if p == target && k == grp.kind then w.grid[p].Groups(k) + {g} else w.grid[p].Groups(k)))
      && (forall p :: p in w.grid ==> r.grid[p] == w.grid[p].(herds := r.grid[p].herds, prides := r.grid[p].prides))
    ensures r.groupOf == w.groupOf[g := w.groupOf[g].(cell := target)]
    ensures SameShape(w, r) && SameVegetation(w, r) && SameAnimals(w, r) && r.allGroups == w.allGroups
  {
    var grp := w.groupOf[g];
    var c := w.grid[target];
    r := w.(grid := w.grid[target := c.WithGroups(grp.kind, c.Groups(grp.kind) + {g})],
            groupOf := w.groupOf[g := grp.(cell := target)]);
  }

  /**
   * r is w after g has gone from the group set of its cell to that of the cell at target,
   * which it now names as its cell; nothing else has changed.
   */
  ghost predicate Relocated(w: World, g: GroupId, target: Pos, r: World)
  {
    && g in w.groupOf && w.groupOf[g].cell in w.grid && target in w.grid
    && var grp := w.groupOf[g];
    && r.groupOf == w.groupOf[g := grp.(cell := target)]
    && r.grid.Keys == w.grid.Keys
    && (forall p, k :: p in w.grid ==>
          r.grid[p].Groups(k) ==
            if k != grp.kind then w.grid[p].Groups(k)
            else (if p == grp.cell then w.grid[p].Groups(k) - {g} else w.grid[p].Groups(k)) + (if p == target then {g} else {}))
    && (forall p :: p in w.grid ==> r.grid[p] == w.grid[p].(herds := r.grid[p].herds, prides := r.grid[p].prides))
    && SameShape(w, r) && SameVegetation(w, r) && SameAnimals(w, r) && r.allGroups == w.allGroups
  }

  /**
   * Moves g's registration to the cell of one of its members, whichever: out of its old
   * cell's group set and into that cell's. The group must have a member.
   */
  method SetCurrentCell(w: World, g: GroupId) returns (r: World)
    requires g in w.groupOf && w.groupOf[g].cell in w.grid && w.groupOf[g].individuals != {}
    requires forall b :: b in w.groupOf[g].individuals ==> b in w.animalOf && w.animalOf[b].cell in w.grid
    ensures exists b :: b in w.groupOf[g].individuals && Relocated(w, g, w.animalOf[b].cell, r)
  {
    var left := RemoveFromCurrentCell(w, g);
    var b :| b in w.groupOf[g].individuals;
    r := AddToTargetCell(left, g, w.animalOf[b].cell);
    RelocationComposed(w, g, w.animalOf[b].cell, left, r);
  }

  /** Leaving the old cell's group set and then joining the target's relocates the group. */
  lemma RelocationComposed(w: World, g: GroupId, target: Pos, left: World, r: World)
    requires g in w.groupOf && w.groupOf[g].cell in w.grid && target in w.grid
    requires var grp := w.groupOf[g];
      && left.grid.Keys == w.grid.Keys
      && (forall p, k :: p in w.grid ==>
            left.grid[p].Groups(k) == (if p == grp.cell && k == grp.kind then w.grid[p].Groups(k) - {g} else w.grid[p].Groups(k)))
      && (forall p :: p in w.grid ==> left.grid[p] == w.grid[p].(herds := left.grid[p].herds, prides := left.grid[p].prides))
    requires SameBeyondGrid(w, left)
    requires var grp := left.groupOf[g];
      && r.grid.Keys == left.grid.Keys
      && (forall p, k :: p in left.grid ==>
            r.grid[p].Groups(k) == (if p == target && k == grp.kind then left.grid[p].Groups(k) + {g} else left.grid[p].Groups(k)))
      && (forall p :: p in left.grid ==> r.grid[p] == left.grid[p].(herds := r.grid[p].herds, prides := r.grid[p].prides))
    requires r.groupOf == left.groupOf[g := left.groupOf[g].(cell := target)]
    requires SameShape(left, r) && SameVegetation(left, r) && SameAnimals(left, r) && r.allGroups == left.allGroups
    ensures Relocated(w, g, target, r)
  {
    var grp := w.groupOf[g];
    assert left.groupOf[g].kind == grp.kind;
  }

  /** Relocating a registered group to a cell of the grid keeps the world valid. */
  lemma RelocatedKeepsValid(w: World, g: GroupId, target: Pos, r: World)
    requires Valid(w) && g in w.allGroups && Relocated(w, g, target, r)
    ensures Valid(r)
  {
    RelocatedKeepsLayout(w, g, target, r);
    StandingKeepsAnimalsIndexed(w, r);
    RelocatedKeepsGroupsPlaced(w, g, target, r);
  }

  lemma RelocatedKeepsLayout(w: World, g: GroupId, target: Pos, r: World)
    requires GridShaped(w) && CachesValid(w) && VegetationIndexed(w) && MembershipIndexed(w) && IdsBelow(w)
    requires g in w.allGroups && Relocated(w, g, target, r)
    ensures GridShaped(r) && CachesValid(r) && VegetationIndexed(r) && MembershipIndexed(r) && IdsBelow(r)
    ensures forall q, k :: q in w.grid ==> r.grid[q].Population(k) == w.grid[q].Population(k)
  {
    GroupSetsKeepCells(w, r);
    RelocatedKeepsMembership(w, g, target, r);
  }

  lemma RelocatedKeepsMembership(w: World, g: GroupId, target: Pos, r: World)
    requires MembershipIndexed(w) && IdsBelow(w) && Relocated(w, g, target, r)
    ensures MembershipIndexed(r) && IdsBelow(r)
  {
    assert r.groupOf.Keys == w.groupOf.Keys;
    forall h | h in r.groupOf
      ensures r.groupOf[h].individuals == w.groupOf[h].individuals && r.groupOf[h].kind == w.groupOf[h].kind
    {
    }
  }

  lemma RelocatedKeepsGroupsPlaced(w: World, g: GroupId, target: Pos, r: World)
    requires GroupsPlaced(w) && g in w.allGroups && Relocated(w, g, target, r)
    ensures GroupsPlaced(r)
  {
    forall h | h in r.allGroups
      ensures h in r.groupOf && !r.groupOf[h].deleted && r.groupOf[h].cell in r.grid
      ensures h in r.grid[r.groupOf[h].cell].Groups(r.groupOf[h].kind)
    {
      if h != g {
        assert h in w.grid[w.groupOf[h].cell].Groups(w.groupOf[h].kind);
      }
    }
    forall k, p, h | p in r.grid && h in r.grid[p].Groups(k)
      ensures h in r.allGroups && h in r.groupOf && r.groupOf[h].kind == k && r.groupOf[h].cell == p
    {
      if h != g {
        assert h in w.grid[p].Groups(k);
      }
    }
  }

  /** The animals of s with the energy to want a move (at least 4). */
  ghost function Keen(animalOf: map<AnimalId, Animal>, s: set<AnimalId>): set<AnimalId>
  {
    set b | b in s && b in animalOf && animalOf[b].energy >= 4.0
  }

  lemma KeenStep(animalOf: map<AnimalId, Animal>, done: set<AnimalId>, b: AnimalId)
    requires b in animalOf && b !in done
    ensures |Keen(animalOf, done + {b})| == |Keen(animalOf, done)| + (if animalOf[b].energy >= 4.0 then 1 else 0)
  {
    if animalOf[b].energy >= 4.0 {
      assert Keen(animalOf, done + {b}) == Keen(animalOf, done) + {b};
    } else {
      assert Keen(animalOf, done + {b}) == Keen(animalOf, done);
    }
  }

  /**
   * The group's vote: every member decides whether it would move (filling the neighbour
   * cache of its cell on the way), and the group moves when at least half of them would,
   * that is, when at least half have energy of at least 4.
   */
  method DecideToMove(w: World, g: GroupId) returns (r: World, moves: bool)
    requires Valid(w) && g in w.allGroups
    ensures g in w.groupOf
    ensures moves <==> 2 * |Keen(w.animalOf, w.groupOf[g].individuals)| >= |w.groupOf[g].individuals|
    ensures Valid(r) && OnlyCachesFilled(w, r)
  {
    MembersReady(w, g);
    r, moves := Poll(w, w.groupOf[g].individuals);
    CachesFilledKeepValid(w, r);
  }

  /**
   * Collects the votes of members, in some order, and counts them: the outcome is a move
   * exactly when at least half of the members have energy of at least 4.
   */
  method Poll(w: World, members: set<AnimalId>) returns (r: World, moves: bool)
    requires forall b :: b in members ==> Ready(w, b)
    ensures moves <==> 2 * |Keen(w.animalOf, members)| >= |members|
    ensures OnlyCachesFilled(w, r)
  {
    var order := ListOf(members);
    var votes;
    r, votes := CollectVotes(w, order);
    VotesCountKeen(w.animalOf, order, votes);
    assert Elements(order) == members;
    DistinctCount(order);
    moves := 2 * CountTrue(votes) >= |members|;
  }

  /** b can take part in a vote: it stands in a cell of the grid whose neighbours are all in the grid. */
  ghost predicate Ready(w: World, b: AnimalId)
  {
    && b in w.animalOf && w.animalOf[b].cell in w.grid
    && var p := w.animalOf[b].cell;
    && (w.grid[p].surroundingCells == [] || w.grid[p].surroundingCells == SurroundingCoordinates(p.0, p.1))
    && forall q :: q in SurroundingCoordinates(p.0, p.1) ==> q in w.grid
  }

  /** Every member of a registered group is ready to vote. */
  lemma MembersReady(w: World, g: GroupId)
    requires Valid(w) && g in w.allGroups
    ensures g in w.groupOf && forall b :: b in w.groupOf[g].individuals ==> Ready(w, b)
  {
    MembersAlive(w, g);
    forall b | b in w.groupOf[g].individuals
      ensures Ready(w, b)
    {
      Animals.AliveFacts(w, b);
      InteriorNeighboursInGrid(w, w.animalOf[b].cell);
    }
  }

  /** Filling caches keeps an animal ready. */
  lemma ReadyKept(w: World, r: World, b: AnimalId)
    requires Ready(w, b) && OnlyCachesFilled(w, r)
    ensures Ready(r, b) && r.animalOf[b] == w.animalOf[b]
  {
  }

  /** The elements of q. */
  ghost function Elements<T>(q: seq<T>): set<T>
  {
    set x | x in q
  }

  /** The elements of s in some order, each once: what iterating over a set visits. */
  method ListOf<T(==)>(s: set<T>) returns (q: seq<T>)
    ensures Distinct(q) && forall x :: x in q <==> x in s
  {
    q := [];
    var pending := s;
    while pending != {}
      invariant Distinct(q)
      invariant forall x :: x in q <==> x in s && x !in pending
      invariant pending <= s
      decreases |pending|
    {
      var x :| x in pending;
      AppendDistinct(q, x);
      q := q + [x];
      pending := pending - {x};
    }
  }

  lemma AppendDistinct<T>(q: seq<T>, x: T)
    requires Distinct(q) && x !in q
    ensures Distinct(q + [x])
  {
  }

  /** A list without repetitions is as long as the set of its elements. */
  lemma {:induction false} DistinctCount<T>(q: seq<T>)
    requires Distinct(q)
    ensures |Elements(q)| == |q|
  {
    if q != [] {
      var n := |q| - 1;
      assert Distinct(q[..n]);
      DistinctCount(q[..n]);
      assert Elements(q) == Elements(q[..n]) + {q[n]} by {
        assert q == q[..n] + [q[n]];
      }
      assert q[n] !in Elements(q[..n]);
    }
  }

  /** The number of true entries of votes, as a list's count(True) gives it. */
  function CountTrue(votes: seq<bool>): (n: nat)
    ensures n <= |votes|
  {
    if votes == [] then 0 else CountTrue(votes[..|votes| - 1]) + (if votes[|votes| - 1] then 1 else 0)
  }

  /** The yes votes of a list of distinct animals are as many as its keen animals. */
  lemma {:induction false} VotesCountKeen(animalOf: map<AnimalId, Animal>, order: seq<AnimalId>, votes: seq<bool>)
    requires Distinct(order) && |votes| == |order|
    requires forall k :: 0 <= k < |order| ==> order[k] in animalOf && (votes[k] <==> animalOf[order[k]].energy >= 4.0)
    ensures CountTrue(votes) == |Keen(animalOf, Elements(order))|
  {
    if order != [] {
      var n := |order| - 1;
      assert Distinct(order[..n]);
      VotesCountKeen(animalOf, order[..n], votes[..n]);
      assert Elements(order) == Elements(order[..n]) + {order[n]} by {
        assert order == order[..n] + [order[n]];
      }
      KeenStep(animalOf, Elements(order[..n]), order[n]);
    }
  }

  /** The votes of the animals of order, in that order: whether each would move. */
  method CollectVotes(w: World, order: seq<AnimalId>) returns (r: World, votes: seq<bool>)
    requires forall k :: 0 <= k < |order| ==> Ready(w, order[k])
    ensures |votes| == |order|
    ensures forall k :: 0 <= k < |order| ==> order[k] in w.animalOf
    ensures forall k :: 0 <= k < |order| ==> (votes[k] <==> w.animalOf[order[k]].energy >= 4.0)
    ensures OnlyCachesFilled(w, r)
  {
    votes := [];
    r := w;
    var i := 0;
    while i < |order|
      invariant 0 <= i <= |order| && |votes| == i
      invariant forall k :: 0 <= k < i ==> (votes[k] <==> w.animalOf[order[k]].energy >= 4.0)
      invariant OnlyCachesFilled(w, r)
    {
      r, votes := NextVote(w, r, order, votes);
      i := i + 1;
    }
  }

  /** The votes so far, followed by the vote of the next animal of order. */
  method NextVote(w: World, r: World, order: seq<AnimalId>, votes: seq<bool>) returns (next: World, votes': seq<bool>)
    requires forall k :: 0 <= k < |order| ==> Ready(w, order[k]) && order[k] in w.animalOf
    requires |votes| < |order| && OnlyCachesFilled(w, r)
    requires forall k :: 0 <= k < |votes| ==> (votes[k] <==> w.animalOf[order[k]].energy >= 4.0)
    ensures |votes'| == |votes| + 1 && OnlyCachesFilled(w, next)
    ensures forall k :: 0 <= k < |votes'| ==> (votes'[k] <==> w.animalOf[order[k]].energy >= 4.0)
  {
    var i := |votes|;
    var vote;
    next, vote := Vote(w, r, order[i]);
    votes' := votes + [vote];
  }

  /** One member's vote, on a world whose caches may have been filled since w. */
  method Vote(w: World, r: World, b: AnimalId) returns (next: World, vote: bool)
    requires Ready(w, b) && OnlyCachesFilled(w, r)
    ensures OnlyCachesFilled(w, next)
    ensures vote <==> w.animalOf[b].energy >= 4.0
  {
    ReadyKept(w, r, b);
    next, vote := Animals.DecideToMove(r, b);
    NeighbourCacheFilled(r, r.animalOf[b].cell, next);
    CachesFilledTrans(w, r, next);
  }

  /** The record of a former member once its group is deleted: groupless, and deleted too when killed. */
  function Disbanded(an: Animal, kill: bool): (bn: Animal)
    ensures bn.group == None && bn.deleted == (kill || an.deleted)
    ensures bn.species == an.species && bn.cell == an.cell && bn.energy == an.energy
    ensures bn.(group := an.group, deleted := an.deleted) == an
  {
    if kill then an.(deleted := true, group := None) else an.(group := None)
  }

  /** The animals of s that leave the populations: all of them when killed, none when released. */
  function Killed(kill: bool, s: set<AnimalId>): set<AnimalId>
  {
    if kill then s else {}
  }

  /**
   * r is w after the members done of g have been released, or killed: g no longer lists
   * them, they name no group (and are marked deleted and out of the cell and world
   * populations when killed), and nothing else has changed but the appeal of the cells
   * the killed members left.
   */
  ghost predicate PartlyDisbanded(w: World, g: GroupId, kill: bool, done: set<AnimalId>, r: World)
    requires g in w.groupOf
  {
    RecordsDisbanded(w, g, kill, done, r) && CellsEmptied(w, Killed(kill, done), r)
  }

  /** The records and world populations of PartlyDisbanded. */
  ghost predicate RecordsDisbanded(w: World, g: GroupId, kill: bool, done: set<AnimalId>, r: World)
    requires g in w.groupOf
  {
    var grp := w.groupOf[g];
    && r.groupOf == w.groupOf[g := grp.(individuals := grp.individuals - done)]
    && r.animalOf.Keys == w.animalOf.Keys
    && (forall b :: b in w.animalOf ==>
          r.animalOf[b] == if b in done then Disbanded(w.animalOf[b], kill) else w.animalOf[b])
    && r.erbasts == w.erbasts - Killed(kill, done) && r.carvizes == w.carvizes - Killed(kill, done)
    && r.allGroups == w.allGroups && SameShape(w, r) && SameVegetation(w, r)
  }

  /** The animals gone have left every cell; the cells are otherwise as they were, but for the appeal of those they left. */
  ghost predicate CellsEmptied(w: World, gone: set<AnimalId>, r: World)
  {
    && r.grid.Keys == w.grid.Keys
    && forall p :: p in w.grid ==> SameLayout(w.grid[p], r.grid[p]) && Emptied(w, gone, r, p)
  }

  /**
   * The animals gone have left the cell at p. A cell none of them stood in keeps its
   * appeal; one they left has had its appeal evaluated again.
   */
  ghost predicate Emptied(w: World, gone: set<AnimalId>, r: World, p: Pos)
    requires p in w.grid && p in r.grid
  {
    var c, d := w.grid[p], r.grid[p];
    && d.erbasts == c.erbasts - gone && d.carvizes == c.carvizes - gone
    && if c.erbasts !! gone && c.carvizes !! gone then d.erbastAppeal == c.erbastAppeal && d.carvizAppeal == c.carvizAppeal
       else AppealUpToDate(r, p)
  }

  /**
   * What deleting or releasing a member of g needs to know about it: it is an animal that
   * names g, stands in a cell of known vegetation that lists it and in no other, and is in
   * the world's population of its species and not in the other.
   */
  ghost predicate MembersKnown(w: World, g: GroupId)
  {
    g in w.groupOf && forall b :: b in w.groupOf[g].individuals ==> MemberKnown(w, g, b)
  }

  ghost predicate MemberKnown(w: World, g: GroupId, b: AnimalId)
  {
    && b in w.animalOf && w.animalOf[b].group == Some(g)
    && var an := w.animalOf[b];
    && g in w.groupOf && an.species == MemberKind(w.groupOf[g].kind)
    && an.cell in w.grid && VegetationKnown(w.vegetebobOf, w.grid[an.cell])
    && b in w.grid[an.cell].Population(an.species) && b !in w.grid[an.cell].Population(OtherKind(an.species))
    && b in w.Population(an.species) && b !in w.Population(OtherKind(an.species))
    && forall p :: p in w.grid && p != an.cell ==> b !in w.grid[p].erbasts && b !in w.grid[p].carvizes
  }

  lemma MembersKnownOf(w: World, g: GroupId)
    requires Valid(w) && g in w.allGroups
    ensures MembersKnown(w, g)
  {
    MembersAlive(w, g);
    forall b | b in w.groupOf[g].individuals
      ensures MemberKnown(w, g, b)
    {
      Animals.AliveFacts(w, b);
      var an := w.animalOf[b];
      forall p | p in w.grid && p != an.cell
        ensures b !in w.grid[p].Population(Erbast) && b !in w.grid[p].Population(Carviz)
      {
      }
      assert b !in w.grid[an.cell].Population(OtherKind(an.species));
    }
  }

  /** Releases, or kills, the member b of g, which done does not hold, after the members done. */
  method DisbandNext(w: World, g: GroupId, kill: bool, ghost done: set<AnimalId>, r: World, b: AnimalId) returns (next: World)
    requires MembersKnown(w, g) && PartlyDisbanded(w, g, kill, done, r)
    requires b in w.groupOf[g].individuals && b !in done
    ensures PartlyDisbanded(w, g, kill, done + {b}, next)
  {
    assert r.animalOf[b] == w.animalOf[b];
    assert MemberKnown(w, g, b);
    if kill {
      next := Animals.Delete(r, b);
      DeletedRemoved(r, b, next);
      KilledNext(w, g, done, r, b, next);
    } else {
      next := Animals.RemoveFromCurrentGroup(r, b);
      ReleasedNext(w, g, done, r, b, next);
    }
  }

  /** The parts of a deletion that disbanding speaks of. */
  ghost predicate Removed(w: World, b: AnimalId, r: World)
    requires b in w.animalOf
  {
    var an := w.animalOf[b];
    var p, sp := an.cell, an.species;
    && r.animalOf == w.animalOf[b := an.(deleted := true, group := None)]
    && p in w.grid && p in r.grid && r.grid == w.grid[p := r.grid[p]] && SameLayout(w.grid[p], r.grid[p])
    && AppealUpToDate(r, p)
    && r.grid[p].Population(sp) == w.grid[p].Population(sp) - {b}
    && r.grid[p].Population(OtherKind(sp)) == w.grid[p].Population(OtherKind(sp))
    && r.Population(sp) == w.Population(sp) - {b}
    && r.Population(OtherKind(sp)) == w.Population(OtherKind(sp))
    && (an.group.Some? ==>
          && an.group.value in w.groupOf
          && r.groupOf == w.groupOf[an.group.value := w.groupOf[an.group.value].(individuals := w.groupOf[an.group.value].individuals - {b})])
    && r.allGroups == w.allGroups && SameShape(w, r) && SameVegetation(w, r)
  }

  lemma DeletedRemoved(w: World, b: AnimalId, r: World)
    requires b in w.animalOf && Animals.Deleted(w, b, r)
    ensures Removed(w, b, r)
  {
  }

  lemma KilledNext(w: World, g: GroupId, done: set<AnimalId>, r: World, b: AnimalId, next: World)
    requires g in w.groupOf && MemberKnown(w, g, b) && PartlyDisbanded(w, g, true, done, r)
    requires b in w.groupOf[g].individuals && b !in done && r.animalOf[b] == w.animalOf[b]
    requires Removed(r, b, next)
    ensures PartlyDisbanded(w, g, true, done + {b}, next)
  {
    KilledNextRecords(w, g, done, r, b, next);
    KilledNextCells(w, g, done, r, b, next);
  }

  lemma KilledNextRecords(w: World, g: GroupId, done: set<AnimalId>, r: World, b: AnimalId, next: World)
    requires g in w.groupOf && MemberKnown(w, g, b) && RecordsDisbanded(w, g, true, done, r)
    requires b in w.groupOf[g].individuals && b !in done && r.animalOf[b] == w.animalOf[b]
    requires Removed(r, b, next)
    ensures RecordsDisbanded(w, g, true, done + {b}, next)
  {
    var sp := w.animalOf[b].species;
    MinusStep(w.groupOf[g].individuals, done, b);
    MinusStep(w.Population(sp), done, b);
    MinusStep(w.Population(OtherKind(sp)), done, b);
    assert next.Population(sp) == w.Population(sp) - (done + {b});
    assert next.Population(OtherKind(sp)) == w.Population(OtherKind(sp)) - (done + {b});
  }

  lemma KilledNextCells(w: World, g: GroupId, done: set<AnimalId>, r: World, b: AnimalId, next: World)
    requires g in w.groupOf && MemberKnown(w, g, b) && CellsEmptied(w, done, r)
    requires b !in done && b in r.animalOf && r.animalOf[b] == w.animalOf[b]
    requires Removed(r, b, next)
    ensures CellsEmptied(w, done + {b}, next)
  {
    var an := w.animalOf[b];
    forall p | p in w.grid
      ensures SameLayout(w.grid[p], next.grid[p]) && Emptied(w, done + {b}, next, p)
    {
      if p != an.cell {
        assert next.grid[p] == r.grid[p];
        OtherCellEmptied(w, done, r, b, next, p);
      } else {
        CellKilled(w, done, r, b, next, p, an.species);
      }
    }
  }

  /** A cell b did not stand in is emptied of done + {b} once it is emptied of done. */
  lemma OtherCellEmptied(w: World, done: set<AnimalId>, r: World, b: AnimalId, next: World, p: Pos)
    requires p in w.grid && p in r.grid && p in next.grid && Emptied(w, done, r, p)
    requires next.grid[p] == r.grid[p] && next.vegetebobOf == r.vegetebobOf
    requires b !in w.grid[p].erbasts && b !in w.grid[p].carvizes
    ensures Emptied(w, done + {b}, next, p)
  {
    MinusStep(w.grid[p].erbasts, done, b);
    MinusStep(w.grid[p].carvizes, done, b);
  }

  /** The cell b of species sp stood in, once done and then b have left it and its appeal is evaluated again. */
  lemma CellKilled(w: World, done: set<AnimalId>, r: World, b: AnimalId, next: World, p: Pos, sp: AnimalKind)
    requires p in w.grid && p in r.grid && p in next.grid && Emptied(w, done, r, p) && AppealUpToDate(next, p)
    requires next.grid[p].Population(sp) == r.grid[p].Population(sp) - {b}
    requires next.grid[p].Population(OtherKind(sp)) == r.grid[p].Population(OtherKind(sp))
    requires b in w.grid[p].Population(sp) && b !in w.grid[p].Population(OtherKind(sp))
    ensures Emptied(w, done + {b}, next, p)
  {
    var c := w.grid[p];
    MinusStep(c.erbasts, done, b);
    MinusStep(c.carvizes, done, b);
    assert b in c.erbasts || b in c.carvizes;
  }

  lemma ReleasedNext(w: World, g: GroupId, done: set<AnimalId>, r: World, b: AnimalId, next: World)
    requires g in w.groupOf && MemberKnown(w, g, b) && PartlyDisbanded(w, g, false, done, r)
    requires b in w.groupOf[g].individuals && b !in done && r.animalOf[b] == w.animalOf[b]
    requires Animals.LeftGroup(r, b, next)
    ensures PartlyDisbanded(w, g, false, done + {b}, next)
  {
    assert CellsEmptied(w, Killed(false, done + {b}), next) by {
      assert Killed(false, done + {b}) == Killed(false, done);
    }
    MinusStep(w.groupOf[g].individuals, done, b);
  }

  /** Taking done and then b out of s takes done + {b} out; taking out an element s lacks changes nothing. */
  lemma MinusStep<T>(s: set<T>, done: set<T>, b: T)
    ensures (s - done) - {b} == s - (done + {b})
    ensures b !in s ==> s - done == s - (done + {b})
  {
  }

  /** Nothing is disbanded yet. */
  lemma NoneDisbanded(w: World, g: GroupId, kill: bool)
    requires g in w.groupOf
    ensures PartlyDisbanded(w, g, kill, {}, w)
  {
    assert w.groupOf[g].(individuals := w.groupOf[g].individuals - {}) == w.groupOf[g];
    assert w.erbasts - {} == w.erbasts && w.carvizes - {} == w.carvizes;
    forall p | p in w.grid
      ensures w.grid[p].erbasts - {} == w.grid[p].erbasts && w.grid[p].carvizes - {} == w.grid[p].carvizes
    {
    }
  }

  /** Releases, or kills, the members of g in the order listed. */
  method DisbandEach(w: World, g: GroupId, kill: bool, order: seq<AnimalId>) returns (r: World)
    requires MembersKnown(w, g)
    requires Distinct(order) && forall b :: b in order <==> b in w.groupOf[g].individuals
    ensures PartlyDisbanded(w, g, kill, w.groupOf[g].individuals, r)
  {
    r := w;
    ghost var done: set<AnimalId> := {};
    NoneDisbanded(w, g, kill);
    var i := 0;
    while i < |order|
      invariant 0 <= i <= |order| && done == Elements(order[..i])
      invariant PartlyDisbanded(w, g, kill, done, r)
    {
      var b := order[i];
      PrefixStep(order, i);
      r := DisbandNext(w, g, kill, done, r, b);
      done := done + {b};
      i := i + 1;
    }
    assert order[..i] == order;
    assert done == w.groupOf[g].individuals;
  }

  /** One more element of a list without repetitions is one more, new, element of its prefix. */
  lemma PrefixStep<T>(q: seq<T>, i: nat)
    requires Distinct(q) && i < |q|
    ensures Elements(q[..i + 1]) == Elements(q[..i]) + {q[i]} && q[i] !in Elements(q[..i])
  {
    assert q[..i + 1] == q[..i] + [q[i]];
    assert forall k :: 0 <= k < i ==> q[..i][k] == q[k];
  }

  /** Releasing or killing every member of a registered group keeps the world valid. */
  lemma DisbandedKeepsValid(w: World, g: GroupId, kill: bool, r: World)
    requires Valid(w) && g in w.allGroups && g in w.groupOf
    requires PartlyDisbanded(w, g, kill, w.groupOf[g].individuals, r)
    ensures Valid(r)
  {
    DisbandedChangesOnlyAnimals(w, g, kill, w.groupOf[g].individuals, r);
    LayoutKept(w, r);
    IdsKept(w, r);
    DisbandedKeepsAnimalsIndexed(w, g, kill, r);
    DisbandedKeepsMembership(w, g, kill, r);
  }

  lemma DisbandedChangesOnlyAnimals(w: World, g: GroupId, kill: bool, done: set<AnimalId>, r: World)
    requires g in w.groupOf && PartlyDisbanded(w, g, kill, done, r)
    ensures OnlyAnimalsChanged(w, r)
  {
    forall h | h in w.groupOf
      ensures h in r.groupOf && SamePlace(w.groupOf[h], r.groupOf[h])
    {
    }
  }

  lemma DisbandedKeepsAnimalsIndexed(w: World, g: GroupId, kill: bool, r: World)
    requires AnimalsIndexed(w) && g in w.groupOf
    requires PartlyDisbanded(w, g, kill, w.groupOf[g].individuals, r)
    ensures AnimalsIndexed(r)
  {
    var gone := Killed(kill, w.groupOf[g].individuals);
    forall kind, p, a {:trigger a in r.grid[p].Population(kind)} | p in r.grid && a in r.grid[p].Population(kind)
      ensures a in r.Population(kind) && a in r.animalOf && r.animalOf[a].cell == p
    {
      EmptiedPopulation(w, gone, r, p, kind);
      assert a in w.grid[p].Population(kind) && a !in gone;
      DisbandedPopulation(w, g, kill, w.groupOf[g].individuals, r, kind);
    }
    forall kind, a | a in r.Population(kind)
      ensures a in r.animalOf && r.animalOf[a].species == kind && !r.animalOf[a].deleted
      ensures r.animalOf[a].cell in r.grid && Interior(r, r.animalOf[a].cell)
      ensures a in r.grid[r.animalOf[a].cell].Population(kind)
    {
      DisbandedPopulation(w, g, kill, w.groupOf[g].individuals, r, kind);
      assert a in w.Population(kind) && a !in gone;
      var q := w.animalOf[a].cell;
      assert a in w.grid[q].Population(kind);
      EmptiedPopulation(w, gone, r, q, kind);
    }
  }

  lemma DisbandedKeepsMembership(w: World, g: GroupId, kill: bool, r: World)
    requires MembershipIndexed(w) && g in w.allGroups && g in w.groupOf
    requires PartlyDisbanded(w, g, kill, w.groupOf[g].individuals, r)
    ensures MembershipIndexed(r)
  {
    var members := w.groupOf[g].individuals;
    var gone := Killed(kill, members);
    forall h, a | h in r.allGroups && h in r.groupOf && a in r.groupOf[h].individuals
      ensures a in r.Population(MemberKind(r.groupOf[h].kind)) && a in r.animalOf && r.animalOf[a].group == Some(h)
    {
      assert h != g && a in w.groupOf[h].individuals;
      assert a !in members;
    }
    forall a | a in r.animalOf && (a in r.erbasts || a in r.carvizes) && r.animalOf[a].group.Some?
      ensures r.animalOf[a].group.value in r.allGroups && r.animalOf[a].group.value in r.groupOf
      ensures a in r.groupOf[r.animalOf[a].group.value].individuals
    {
      assert a !in members;
      assert a in w.erbasts || a in w.carvizes;
    }
  }

  /**
   * r is w once the registered group g has gone from the registry and from the group set
   * of its cell and is marked deleted; nothing else has changed.
   */
  ghost predicate Unregistered(w: World, g: GroupId, r: World)
  {
    && g in w.groupOf && w.groupOf[g].cell in w.grid && g in w.allGroups
    && var grp := w.groupOf[g];
    && r.groupOf == w.groupOf[g := grp.(deleted := true)]
    && r.allGroups == RemoveFirst(w.allGroups, g)
    && r.grid.Keys == w.grid.Keys
    && (forall p, k :: p in w.grid ==>
          r.grid[p].Groups(k) == (if p == grp.cell && k == grp.kind then w.grid[p].Groups(k) - {g} else w.grid[p].Groups(k)))
    && (forall p :: p in w.grid ==> r.grid[p] == w.grid[p].(herds := r.grid[p].herds, prides := r.grid[p].prides))
    && SameShape(w, r) && SameVegetation(w, r) && SameAnimals(w, r)
  }

  /** Takes g out of the registry and out of its cell's group set, and marks it deleted. */
  method Unregister(w: World, g: GroupId) returns (r: World)
    requires g in w.allGroups && g in w.groupOf && w.groupOf[g].cell in w.grid
    ensures Unregistered(w, g, r)
  {
    var listed := w.(allGroups := RemoveFirst(w.allGroups, g));
    var left := RemoveFromCurrentCell(listed, g);
    r := left.(groupOf := left.groupOf[g := left.groupOf[g].(deleted := true)]);
  }

  /** Unregistering a registered group that has no members left keeps the world valid. */
  lemma UnregisteredKeepsValid(w: World, g: GroupId, r: World)
    requires Valid(w) && g in w.groupOf && w.groupOf[g].individuals == {} && Unregistered(w, g, r)
    ensures Valid(r) && g !in r.allGroups
  {
    GroupSetsKeepCells(w, r);
    StandingKeepsAnimalsIndexed(w, r);
    assert Distinct(w.allGroups);
    RemoveFirstDistinct(w.allGroups, g);
    UnregisteredKeepsGroupsPlaced(w, g, r);
    UnregisteredKeepsMembership(w, g, r);
  }

  lemma UnregisteredKeepsGroupsPlaced(w: World, g: GroupId, r: World)
    requires GroupsPlaced(w) && Unregistered(w, g, r)
    requires Distinct(r.allGroups) && forall h :: h in r.allGroups <==> h in w.allGroups && h != g
    ensures GroupsPlaced(r)
  {
    var grp := w.groupOf[g];
    forall h | h in r.allGroups
      ensures h in r.groupOf && !r.groupOf[h].deleted && r.groupOf[h].cell in r.grid
      ensures h in r.grid[r.groupOf[h].cell].Groups(r.groupOf[h].kind)
    {
      var q, k := w.groupOf[h].cell, w.groupOf[h].kind;
      assert h != g && r.groupOf[h] == w.groupOf[h];
      assert h in w.grid[q].Groups(k);
      assert r.grid[q].Groups(k) == (if q == grp.cell && k == grp.kind then w.grid[q].Groups(k) - {g} else w.grid[q].Groups(k));
    }
    forall k, p, h | p in r.grid && h in r.grid[p].Groups(k)
      ensures h in r.allGroups && h in r.groupOf && r.groupOf[h].kind == k && r.groupOf[h].cell == p
    {
      assert r.grid[p].Groups(k) == (if p == grp.cell && k == grp.kind then w.grid[p].Groups(k) - {g} else w.grid[p].Groups(k));
      assert h in w.grid[p].Groups(k) && h != g;
    }
  }

  lemma UnregisteredKeepsMembership(w: World, g: GroupId, r: World)
    requires MembershipIndexed(w) && Unregistered(w, g, r)
    requires w.groupOf[g].individuals == {}
    requires forall h :: h in r.allGroups <==> h in w.allGroups && h != g
    ensures MembershipIndexed(r) && IdsBelow(r) == IdsBelow(w)
  {
    UnregisteredKeepsMembers(w, g, r);
    UnregisteredKeepsGroupOf(w, g, r);
    assert r.groupOf.Keys == w.groupOf.Keys;
  }

  /** Unregistering a group leaves the members of every other registered group as they were. */
  lemma UnregisteredKeepsMembers(w: World, g: GroupId, r: World)
    requires MembershipIndexed(w) && g in w.groupOf
    requires r.groupOf == w.groupOf[g := w.groupOf[g].(deleted := true)] && SameAnimals(w, r)
    requires forall h :: h in r.allGroups <==> h in w.allGroups && h != g
    ensures forall h, a {:trigger a in r.groupOf[h].individuals} :: h in r.allGroups && h in r.groupOf && a in r.groupOf[h].individuals ==>
          a in r.Population(MemberKind(r.groupOf[h].kind)) && a in r.animalOf && r.animalOf[a].group == Some(h)
  {
    forall h, a | h in r.allGroups && h in r.groupOf && a in r.groupOf[h].individuals
      ensures a in r.Population(MemberKind(r.groupOf[h].kind)) && a in r.animalOf && r.animalOf[a].group == Some(h)
    {
      assert h != g && r.groupOf[h] == w.groupOf[h];
    }
  }

  /** Unregistering a group without members leaves every animal's group registered and listing it. */
  lemma UnregisteredKeepsGroupOf(w: World, g: GroupId, r: World)
    requires MembershipIndexed(w) && g in w.groupOf
    requires r.groupOf == w.groupOf[g := w.groupOf[g].(deleted := true)] && SameAnimals(w, r)
    requires w.groupOf[g].individuals == {}
    requires forall h :: h in r.allGroups <==> h in w.allGroups && h != g
    ensures forall a :: a in r.animalOf && (a in r.erbasts || a in r.carvizes) && r.animalOf[a].group.Some? ==>
          r.animalOf[a].group.value in r.allGroups && r.animalOf[a].group.value in r.groupOf &&
          a in r.groupOf[r.animalOf[a].group.value].individuals
  {
    forall a | a in r.animalOf && (a in r.erbasts || a in r.carvizes) && r.animalOf[a].group.Some?
      ensures r.animalOf[a].group.value in r.allGroups && r.animalOf[a].group.value in r.groupOf
      ensures a in r.groupOf[r.animalOf[a].group.value].individuals
    {
      var h := w.animalOf[a].group.value;
      assert a in w.groupOf[h].individuals;
      assert h != g && r.groupOf[h] == w.groupOf[h];
    }
  }

  lemma EmptiedPopulation(w: World, gone: set<AnimalId>, r: World, p: Pos, kind: AnimalKind)
    requires CellsEmptied(w, gone, r) && p in w.grid
    ensures r.grid[p].Population(kind) == w.grid[p].Population(kind) - gone
  {
  }

  lemma DisbandedPopulation(w: World, g: GroupId, kill: bool, done: set<AnimalId>, r: World, kind: AnimalKind)
    requires g in w.groupOf && RecordsDisbanded(w, g, kill, done, r)
    ensures r.Population(kind) == w.Population(kind) - Killed(kill, done)
  {
  }

  /** Two cells agree on everything but their populations, group sets and appeal. */
  predicate SameGround(c: Cell, d: Cell)
  {
    c.x == d.x && c.y == d.y && c.cellType == d.cellType && c.vegetebobs == d.vegetebobs &&
    c.surroundingCells == d.surroundingCells
  }

  /**
   * r is w after the registered group g has been deleted: it is marked deleted with no
   * members, it has gone from the registry and from its cell's group set, and every
   * former member names no group -- and, when killed, is marked deleted and has left the
   * population of its cell and of the world, whose appeal is evaluated again. Nothing
   * else has changed.
   */
  ghost predicate GroupDeleted(w: World, g: GroupId, kill: bool, r: World)
  {
    g in w.groupOf && g in w.allGroups && MembersDisbanded(w, g, kill, r) && CellsCleared(w, g, kill, r)
  }

  /** The records, registry and world populations of GroupDeleted. */
  ghost predicate MembersDisbanded(w: World, g: GroupId, kill: bool, r: World)
    requires g in w.groupOf && g in w.allGroups
  {
    var grp := w.groupOf[g];
    var gone := Killed(kill, grp.individuals);
    && r.groupOf == w.groupOf[g := grp.(deleted := true, individuals := {})]
    && r.allGroups == RemoveFirst(w.allGroups, g)
    && r.animalOf.Keys == w.animalOf.Keys
    && (forall b :: b in w.animalOf ==>
          r.animalOf[b] == if b in grp.individuals then Disbanded(w.animalOf[b], kill) else w.animalOf[b])
    && r.erbasts == w.erbasts - gone && r.carvizes == w.carvizes - gone
    && SameShape(w, r) && SameVegetation(w, r)
  }

  /** The cells of GroupDeleted: the killed members and the group are gone from them. */
  ghost predicate CellsCleared(w: World, g: GroupId, kill: bool, r: World)
    requires g in w.groupOf
  {
    var grp := w.groupOf[g];
    var gone := Killed(kill, grp.individuals);
    && r.grid.Keys == w.grid.Keys
    && (forall p :: p in w.grid ==> SameGround(w.grid[p], r.grid[p]) && Emptied(w, gone, r, p))
    && (forall p, k :: p in w.grid ==>
          r.grid[p].Groups(k) == (if p == grp.cell && k == grp.kind then w.grid[p].Groups(k) - {g} else w.grid[p].Groups(k)))
  }

  /**
   * Deletes the registered group g, killing its members when kill holds and otherwise
   * releasing them: each member in turn is deleted, or leaves the group; then the group
   * leaves the registry and its cell's group set, and is marked deleted. The world stays
   * valid and the group is no longer registered.
   */
  method DeleteGroup(w: World, g: GroupId, kill: bool) returns (r: World)
    requires Valid(w) && g in w.allGroups
    ensures Valid(r) && GroupDeleted(w, g, kill, r) && g !in r.allGroups
  {
    MembersKnownOf(w, g);
    var order := ListOf(w.groupOf[g].individuals);
    var disbanded := DisbandEach(w, g, kill, order);
    DisbandedKeepsValid(w, g, kill, disbanded);
    r := Unregister(disbanded, g);
    UnregisteredKeepsValid(disbanded, g, r);
    DeletionComposed(w, g, kill, disbanded, r);
  }

  /** Disbanding every member and then unregistering deletes the group. */
  lemma DeletionComposed(w: World, g: GroupId, kill: bool, m: World, r: World)
    requires g in w.groupOf && g in w.allGroups
    requires PartlyDisbanded(w, g, kill, w.groupOf[g].individuals, m) && Unregistered(m, g, r)
    ensures GroupDeleted(w, g, kill, r)
  {
    DeletionComposedMembers(w, g, kill, m, r);
    DeletionComposedCells(w, g, kill, m, r);
  }

  lemma DeletionComposedMembers(w: World, g: GroupId, kill: bool, m: World, r: World)
    requires g in w.groupOf && g in w.allGroups
    requires RecordsDisbanded(w, g, kill, w.groupOf[g].individuals, m) && Unregistered(m, g, r)
    ensures MembersDisbanded(w, g, kill, r)
  {
    var grp := w.groupOf[g];
    assert grp.individuals - grp.individuals == {};
  }

  lemma DeletionComposedCells(w: World, g: GroupId, kill: bool, m: World, r: World)
    requires g in w.groupOf
    requires RecordsDisbanded(w, g, kill, w.groupOf[g].individuals, m)
    requires CellsEmptied(w, Killed(kill, w.groupOf[g].individuals), m) && Unregistered(m, g, r)
    ensures CellsCleared(w, g, kill, r)
  {
    var grp := w.groupOf[g];
    var gone := Killed(kill, grp.individuals);
    assert m.groupOf[g].kind == grp.kind && m.groupOf[g].cell == grp.cell;
    forall p | p in w.grid
      ensures SameGround(w.grid[p], r.grid[p]) && Emptied(w, gone, r, p)
    {
      UnregisteredEmptied(w, gone, m, r, p);
    }
    forall p, k | p in w.grid
      ensures r.grid[p].Groups(k) == (if p == grp.cell && k == grp.kind then w.grid[p].Groups(k) - {g} else w.grid[p].Groups(k))
    {
      assert SameLayout(w.grid[p], m.grid[p]);
    }
  }

  /** Taking a group out of a cell's group sets keeps what the cell's emptying said of it. */
  lemma UnregisteredEmptied(w: World, gone: set<AnimalId>, m: World, r: World, p: Pos)
    requires p in w.grid && p in m.grid && p in r.grid
    requires SameLayout(w.grid[p], m.grid[p]) && Emptied(w, gone, m, p)
    requires r.grid[p] == m.grid[p].(herds := r.grid[p].herds, prides := r.grid[p].prides) && r.vegetebobOf == m.vegetebobOf
    ensures SameGround(w.grid[p], r.grid[p]) && Emptied(w, gone, r, p)
  {
    if AppealUpToDate(m, p) {
      AppealStaysUpToDate(m, r, p);
    }
  }


  /** The members of s too weak to follow a move (energy exactly 1). */
  ghost function Shed(animalOf: map<AnimalId, Animal>, s: set<AnimalId>): set<AnimalId>
  {
    set b | b in s && b in animalOf && animalOf[b].energy == 1.0
  }

  /** A member's record after its group has moved to target: it leaves the group when its energy is 1, and otherwise walks there at the cost of one unit of energy. */
  function AfterMarch(an: Animal, target: Pos): (bn: Animal)
    ensures an.energy == 1.0 ==> bn == an.(group := None)
    ensures an.energy != 1.0 ==> bn == an.(energy := an.energy - 1.0, cell := target)
  {
    if an.energy == 1.0 then an.(group := None) else an.(energy := an.energy - 1.0, cell := target)
  }

  /** shed holds exactly the animals of shed + movers whose energy is 1. */
  ghost predicate SplitByEnergy(animalOf: map<AnimalId, Animal>, shed: set<AnimalId>, movers: set<AnimalId>)
  {
    && (forall b :: b in shed ==> b in animalOf && animalOf[b].energy == 1.0)
    && (forall b :: b in movers ==> b in animalOf && animalOf[b].energy != 1.0)
  }

  lemma SplitGrows(animalOf: map<AnimalId, Animal>, shed: set<AnimalId>, movers: set<AnimalId>, b: AnimalId)
    requires SplitByEnergy(animalOf, shed, movers) && b in animalOf
    ensures animalOf[b].energy == 1.0 ==> SplitByEnergy(animalOf, shed + {b}, movers)
    ensures animalOf[b].energy != 1.0 ==> SplitByEnergy(animalOf, shed, movers + {b})
  {
  }

  /** Split by energy, the members shed and movers are the shed members of their union and the rest. */
  lemma SplitIsShed(animalOf: map<AnimalId, Animal>, shed: set<AnimalId>, movers: set<AnimalId>, s: set<AnimalId>)
    requires SplitByEnergy(animalOf, shed, movers) && s == shed + movers
    ensures shed == Shed(animalOf, s) && movers == s - Shed(animalOf, s)
  {
  }

  /**
   * The records of w once the members shed + movers of g have followed the move to best:
   * the members shed have left g, the movers stand at best with one unit of energy less.
   */
  ghost predicate RecordsMarched(w: World, g: GroupId, best: Pos, shed: set<AnimalId>, movers: set<AnimalId>, r: World)
    requires g in w.groupOf
  {
    var grp := w.groupOf[g];
    && r.groupOf == w.groupOf[g := grp.(individuals := grp.individuals - shed)]
    && r.animalOf.Keys == w.animalOf.Keys
    && (forall b :: b in w.animalOf ==>
          r.animalOf[b] == if b in shed || b in movers then AfterMarch(w.animalOf[b], best) else w.animalOf[b])
    && r.erbasts == w.erbasts && r.carvizes == w.carvizes
    && r.allGroups == w.allGroups && SameShape(w, r) && SameVegetation(w, r)
  }

  /** The cell d is c once the animals movers of species kind have left it, and have arrived in it when arrived holds. */
  ghost predicate CellMarched(c: Cell, d: Cell, kind: AnimalKind, movers: set<AnimalId>, arrived: bool)
  {
    && SameLayout(c, d)
    && d.Population(kind) == (c.Population(kind) - movers) + (if arrived then movers else {})
    && d.Population(OtherKind(kind)) == c.Population(OtherKind(kind))
  }

  /** The cells of w once the animals movers of species kind have walked to best. */
  ghost predicate CellsMarched(w: World, kind: AnimalKind, movers: set<AnimalId>, best: Pos, r: World)
  {
    && best in w.grid && r.grid.Keys == w.grid.Keys
    && forall p :: p in w.grid ==> CellMarched(w.grid[p], r.grid[p], kind, movers, p == best)
  }

  ghost predicate PartlyMarched(w: World, g: GroupId, best: Pos, shed: set<AnimalId>, movers: set<AnimalId>, r: World)
    requires g in w.groupOf
  {
    && RecordsMarched(w, g, best, shed, movers, r)
    && CellsMarched(w, MemberKind(w.groupOf[g].kind), movers, best, r)
  }

  /** The parts of a move that marching speaks of: everything but the re-evaluated appeal. */
  ghost predicate Walked(w: World, a: AnimalId, target: Pos, r: World)
    requires a in w.animalOf
  {
    var an := w.animalOf[a];
    && r.animalOf == w.animalOf[a := an.(energy := an.energy - 1.0, cell := target)]
    && r.grid.Keys == w.grid.Keys
    && (forall kind, p :: p in w.grid ==> r.grid[p].Population(kind) == Animals.PopulationAfterMove(w, a, target, kind, p))
    && (forall p :: p in w.grid ==> SameLayout(w.grid[p], r.grid[p]))
    && r.erbasts == w.erbasts && r.carvizes == w.carvizes
    && SameShape(w, r) && SameVegetation(w, r) && SameGroups(w, r)
  }

  lemma MovedWalked(w: World, a: AnimalId, target: Pos, r: World)
    requires a in w.animalOf && Animals.Moved(w, a, target, r)
    ensures Walked(w, a, target, r)
  {
  }

  /**
   * One more member, b, follows the move: it joins the members shed and leaves the group
   * when its energy is 1, and otherwise joins the movers and walks to best.
   */
  method MarchNext(w: World, g: GroupId, best: Pos, ghost shed: set<AnimalId>, ghost movers: set<AnimalId>, r: World, b: AnimalId)
    returns (next: World, ghost shed': set<AnimalId>, ghost movers': set<AnimalId>)
    requires MembersKnown(w, g) && PartlyMarched(w, g, best, shed, movers, r) && SoleVegetation(w.vegetebobOf, w.grid[best])
    requires SplitByEnergy(w.animalOf, shed, movers)
    requires b in w.groupOf[g].individuals && b !in shed && b !in movers
    ensures shed' + movers' == shed + movers + {b}
    ensures SplitByEnergy(w.animalOf, shed', movers') && PartlyMarched(w, g, best, shed', movers', next)
  {
    assert MemberKnown(w, g, b);
    assert r.animalOf[b] == w.animalOf[b];
    SplitGrows(w.animalOf, shed, movers, b);
    if r.animalOf[b].energy == 1.0 {
      next := Animals.RemoveFromCurrentGroup(r, b);
      LeftNextRecords(w, g, best, shed, movers, r, b, next);
      shed', movers' := shed + {b}, movers;
    } else {
      next := WalkNext(w, g, best, shed, movers, r, b);
      shed', movers' := shed, movers + {b};
    }
  }

  /** A member b with energy other than 1 walks to best. */
  method WalkNext(w: World, g: GroupId, best: Pos, ghost shed: set<AnimalId>, ghost movers: set<AnimalId>, r: World, b: AnimalId)
    returns (next: World)
    requires g in w.groupOf && MemberKnown(w, g, b) && PartlyMarched(w, g, best, shed, movers, r)
    requires SoleVegetation(w.vegetebobOf, w.grid[best])
    requires b !in shed && b !in movers && r.animalOf[b] == w.animalOf[b] && w.animalOf[b].energy != 1.0
    ensures PartlyMarched(w, g, best, shed, movers + {b}, next)
  {
    StillToMarch(w, g, best, movers, r, b);
    next := Animals.Move(r, b, best);
    MovedWalked(r, b, best, next);
    WalkedNextRecords(w, g, best, shed, movers, r, b, next);
    WalkedNextCells(w, g, best, movers, r, b, next);
  }

  /**
   * The cell c has no vegetebob or exactly one, which can be looked up: VegetationKnown
   * in a form that stays cheap to carry through a loop.
   */
  predicate SoleVegetation(vegetebobOf: map<VegetebobId, Vegetebob>, c: Cell)
  {
    c.vegetebobs == {} || exists v :: v in vegetebobOf && c.vegetebobs == {v}
  }

  lemma SoleVegetationKnown(vegetebobOf: map<VegetebobId, Vegetebob>, c: Cell)
    requires SoleVegetation(vegetebobOf, c)
    ensures VegetationKnown(vegetebobOf, c)
  {
  }

  /** A cell whose vegetation is known has no vegetebob or a single one that can be looked up. */
  lemma KnownSoleVegetation(vegetebobOf: map<VegetebobId, Vegetebob>, c: Cell)
    requires VegetationKnown(vegetebobOf, c)
    ensures SoleVegetation(vegetebobOf, c)
  {
    if c.vegetebobs != {} {
      var v :| v in c.vegetebobs;
      var rest := c.vegetebobs - {v};
      assert c.vegetebobs == rest + {v} && v !in rest;
      assert |rest| == 0;
      assert c.vegetebobs == {v};
    }
  }

  /** A member that has not walked yet still stands in its cell, and both its cell and best can be looked at. */
  lemma StillToMarch(w: World, g: GroupId, best: Pos, movers: set<AnimalId>, r: World, b: AnimalId)
    requires MemberKnown(w, g, b) && b !in movers
    requires CellsMarched(w, MemberKind(w.groupOf[g].kind), movers, best, r) && SameVegetation(w, r)
    requires SoleVegetation(w.vegetebobOf, w.grid[best])
    ensures var an := w.animalOf[b];
      an.cell in r.grid && b in r.grid[an.cell].Population(an.species) && best in r.grid
    ensures VegetationKnown(r.vegetebobOf, r.grid[w.animalOf[b].cell]) && VegetationKnown(r.vegetebobOf, r.grid[best])
  {
    var src := w.animalOf[b].cell;
    assert CellMarched(w.grid[src], r.grid[src], w.animalOf[b].species, movers, src == best);
    assert CellMarched(w.grid[best], r.grid[best], w.animalOf[b].species, movers, true);
    SoleVegetationKnown(w.vegetebobOf, w.grid[best]);
  }

  lemma LeftNextRecords(w: World, g: GroupId, best: Pos, shed: set<AnimalId>, movers: set<AnimalId>, r: World, b: AnimalId, next: World)
    requires g in w.groupOf && MemberKnown(w, g, b) && PartlyMarched(w, g, best, shed, movers, r)
    requires b in w.groupOf[g].individuals && b !in shed && b !in movers
    requires r.animalOf[b] == w.animalOf[b] && w.animalOf[b].energy == 1.0
    requires Animals.LeftGroup(r, b, next)
    ensures PartlyMarched(w, g, best, shed + {b}, movers, next)
  {
    LeftRecords(w, g, best, shed, movers, r, b, next);
    assert next.grid == r.grid;
  }

  /** The records once a member with no energy left to march has left its group. */
  lemma LeftRecords(w: World, g: GroupId, best: Pos, shed: set<AnimalId>, movers: set<AnimalId>, r: World, b: AnimalId, next: World)
    requires g in w.groupOf && b in w.animalOf && w.animalOf[b].group == Some(g)
    requires RecordsMarched(w, g, best, shed, movers, r)
    requires b !in shed && b !in movers && r.animalOf[b] == w.animalOf[b] && w.animalOf[b].energy == 1.0
    requires Animals.LeftGroup(r, b, next)
    ensures RecordsMarched(w, g, best, shed + {b}, movers, next)
  {
    var grp := w.groupOf[g];
    MinusStep(grp.individuals, shed, b);
    assert next.groupOf == w.groupOf[g := grp.(individuals := grp.individuals - (shed + {b}))];
    assert next.animalOf[b] == AfterMarch(w.animalOf[b], best);
  }

  lemma WalkedNextRecords(w: World, g: GroupId, best: Pos, shed: set<AnimalId>, movers: set<AnimalId>, r: World, b: AnimalId, next: World)
    requires g in w.groupOf && RecordsMarched(w, g, best, shed, movers, r)
    requires b in w.animalOf && b !in shed && b !in movers && r.animalOf[b] == w.animalOf[b] && w.animalOf[b].energy != 1.0
    requires Walked(r, b, best, next)
    ensures RecordsMarched(w, g, best, shed, movers + {b}, next)
  {
  }

  lemma WalkedNextCells(w: World, g: GroupId, best: Pos, movers: set<AnimalId>, r: World, b: AnimalId, next: World)
    requires g in w.groupOf && MemberKnown(w, g, b) && b !in movers
    requires CellsMarched(w, MemberKind(w.groupOf[g].kind), movers, best, r)
    requires b in r.animalOf && r.animalOf[b] == w.animalOf[b]
    requires Walked(r, b, best, next)
    ensures CellsMarched(w, MemberKind(w.groupOf[g].kind), movers + {b}, best, next)
  {
    var kind := MemberKind(w.groupOf[g].kind);
    var src := w.animalOf[b].cell;
    forall p | p in w.grid
      ensures CellMarched(w.grid[p], next.grid[p], kind, movers + {b}, p == best)
    {
      assert next.grid[p].Population(kind) == Animals.PopulationAfterMove(r, b, best, kind, p);
      assert next.grid[p].Population(OtherKind(kind)) == Animals.PopulationAfterMove(r, b, best, OtherKind(kind), p);
      if p != src {
        assert b !in w.grid[p].erbasts && b !in w.grid[p].carvizes;
      }
      CellWalked(w.grid[p], r.grid[p], next.grid[p], kind, movers, b, p == best, p == src);
    }
  }

  /** The cell c once movers and then b, of species kind, have walked out of it (from it when it is b's source) and into it when arrived holds. */
  lemma CellWalked(c: Cell, rc: Cell, nc: Cell, kind: AnimalKind, movers: set<AnimalId>, b: AnimalId, arrived: bool, source: bool)
    requires CellMarched(c, rc, kind, movers, arrived) && SameLayout(rc, nc)
    requires !source ==> b !in c.Population(kind)
    requires nc.Population(kind) ==
      if arrived then rc.Population(kind) + {b} else if source then rc.Population(kind) - {b} else rc.Population(kind)
    requires nc.Population(OtherKind(kind)) == rc.Population(OtherKind(kind))
    ensures CellMarched(c, nc, kind, movers + {b}, arrived)
  {
    MinusStep(c.Population(kind), movers, b);
  }

  lemma NoneMarched(w: World, g: GroupId, best: Pos)
    requires g in w.groupOf && best in w.grid
    ensures PartlyMarched(w, g, best, {}, {}, w)
  {
    assert w.groupOf[g].(individuals := w.groupOf[g].individuals - {}) == w.groupOf[g];
    forall p | p in w.grid
      ensures CellMarched(w.grid[p], w.grid[p], MemberKind(w.groupOf[g].kind), {}, p == best)
    {
      var kind := MemberKind(w.groupOf[g].kind);
      assert (w.grid[p].Population(kind) - {}) + {} == w.grid[p].Population(kind);
    }
  }

  /**
   * Every member of g follows the move to best, in the order listed; those with energy 1
   * leave the group instead.
   */
  method MarchEach(w: World, g: GroupId, best: Pos, order: seq<AnimalId>) returns (r: World)
    requires MembersKnown(w, g) && best in w.grid && SoleVegetation(w.vegetebobOf, w.grid[best])
    requires Distinct(order) && forall b :: b in order <==> b in w.groupOf[g].individuals
    ensures Marched(w, g, best, r)
  {
    r := w;
    ghost var shed: set<AnimalId> := {};
    ghost var movers: set<AnimalId> := {};
    NoneMarched(w, g, best);
    var i := 0;
    while i < |order|
      invariant 0 <= i <= |order| && shed + movers == Elements(order[..i])
      invariant SplitByEnergy(w.animalOf, shed, movers)
      invariant PartlyMarched(w, g, best, shed, movers, r)
    {
      var b := order[i];
      PrefixStep(order, i);
      r, shed, movers := MarchNext(w, g, best, shed, movers, r, b);
      i := i + 1;
    }
    assert order[..i] == order;
    AllListed(order, w.groupOf[g].individuals);
    SplitIsShed(w.animalOf, shed, movers, w.groupOf[g].individuals);
  }

  /** A list that holds exactly the elements of s has s for its elements. */
  lemma AllListed<T>(order: seq<T>, s: set<T>)
    requires forall b :: b in order <==> b in s
    ensures Elements(order) == s
  {
  }

  /** The population of k in the cell at p once the members movers, of species kind, have walked to best. */
  lemma MarchedPopulation(w: World, kind: AnimalKind, movers: set<AnimalId>, best: Pos, r: World, p: Pos, k: AnimalKind)
    requires CellsMarched(w, kind, movers, best, r) && p in w.grid
    ensures r.grid[p].Population(k) ==
      if k == kind then (w.grid[p].Population(k) - movers) + (if p == best then movers else {}) else w.grid[p].Population(k)
  {
    assert CellMarched(w.grid[p], r.grid[p], kind, movers, p == best);
    assert k == kind || k == OtherKind(kind);
  }

  /** The members of g once they have all followed its move to best, the weak ones having left. */
  ghost predicate Marched(w: World, g: GroupId, best: Pos, r: World)
    requires g in w.groupOf
  {
    var members := w.groupOf[g].individuals;
    PartlyMarched(w, g, best, Shed(w.animalOf, members), members - Shed(w.animalOf, members), r)
  }

  /** Moving every member of a registered group to an interior cell keeps the world valid. */
  lemma MarchedKeepsValid(w: World, g: GroupId, best: Pos, r: World)
    requires Valid(w) && g in w.allGroups && g in w.groupOf && Interior(w, best) && Marched(w, g, best, r)
    ensures Valid(r)
  {
    var members := w.groupOf[g].individuals;
    MarchedChangesOnlyAnimals(w, g, best, Shed(w.animalOf, members), members - Shed(w.animalOf, members), r);
    LayoutKept(w, r);
    IdsKept(w, r);
    MembersKnownOf(w, g);
    MarchedKeepsAnimalsIndexed(w, g, best, r);
    MarchedKeepsMembership(w, g, best, r);
  }

  lemma MarchedChangesOnlyAnimals(w: World, g: GroupId, best: Pos, shed: set<AnimalId>, movers: set<AnimalId>, r: World)
    requires g in w.groupOf && PartlyMarched(w, g, best, shed, movers, r)
    ensures OnlyAnimalsChanged(w, r)
  {
    forall p | p in w.grid
      ensures SameLayout(w.grid[p], r.grid[p])
    {
      assert CellMarched(w.grid[p], r.grid[p], MemberKind(w.groupOf[g].kind), movers, p == best);
    }
    forall h | h in w.groupOf
      ensures h in r.groupOf && SamePlace(w.groupOf[h], r.groupOf[h])
    {
    }
  }

  lemma MarchedKeepsAnimalsIndexed(w: World, g: GroupId, best: Pos, r: World)
    requires AnimalsIndexed(w) && MembersKnown(w, g) && Interior(w, best) && Marched(w, g, best, r)
    ensures AnimalsIndexed(r)
  {
    var members := w.groupOf[g].individuals;
    var kind := MemberKind(w.groupOf[g].kind);
    var movers := members - Shed(w.animalOf, members);
    forall k, p, a {:trigger a in r.grid[p].Population(k)} | p in r.grid && a in r.grid[p].Population(k)
      ensures a in r.Population(k) && a in r.animalOf && r.animalOf[a].cell == p
    {
      MarchedPopulation(w, kind, movers, best, r, p, k);
      if a in movers {
        assert MemberKnown(w, g, a);
        if k != kind {
          assert false;
        }
      } else {
        assert a in w.grid[p].Population(k);
      }
    }
    forall k, a | a in r.Population(k)
      ensures a in r.animalOf && r.animalOf[a].species == k && !r.animalOf[a].deleted
      ensures r.animalOf[a].cell in r.grid && Interior(r, r.animalOf[a].cell)
      ensures a in r.grid[r.animalOf[a].cell].Population(k)
    {
      assert a in w.Population(k);
      var q := w.animalOf[a].cell;
      if a in movers {
        assert MemberKnown(w, g, a);
        MarchedPopulation(w, kind, movers, best, r, best, k);
      } else {
        assert a in w.grid[q].Population(k);
        MarchedPopulation(w, kind, movers, best, r, q, k);
      }
    }
  }

  lemma MarchedKeepsMembership(w: World, g: GroupId, best: Pos, r: World)
    requires MembershipIndexed(w) && g in w.allGroups && g in w.groupOf && Marched(w, g, best, r)
    ensures MembershipIndexed(r)
  {
    forall h, a | h in r.allGroups && h in r.groupOf && a in r.groupOf[h].individuals
      ensures a in r.Population(MemberKind(r.groupOf[h].kind)) && a in r.animalOf && r.animalOf[a].group == Some(h)
    {
      assert a in w.groupOf[h].individuals;
    }
    forall a | a in r.animalOf && (a in r.erbasts || a in r.carvizes) && r.animalOf[a].group.Some?
      ensures r.animalOf[a].group.value in r.allGroups && r.animalOf[a].group.value in r.groupOf
      ensures a in r.groupOf[r.animalOf[a].group.value].individuals
    {
      assert w.animalOf[a].group == r.animalOf[a].group;
      assert a in w.erbasts || a in w.carvizes;
    }
  }

  /** The best-cell scan looks only at appeal and cell type, which filling caches leaves alone. */
  lemma BestCellUnderCaches(w: World, r: World, kind: AnimalKind, cur: Pos, cells: seq<Pos>, best: Pos)
    requires OnlyCachesFilled(w, r) && cur in w.grid && forall q :: q in cells ==> q in w.grid
    requires Animals.BestCell(r.grid, kind, cur, cells, best)
    ensures Animals.BestCell(w.grid, kind, cur, cells, best)
  {
    forall q | q in w.grid
      ensures r.grid[q].Appeal(kind) == w.grid[q].Appeal(kind) && r.grid[q].cellType == w.grid[q].cellType
    {
    }
  }

  /** The best cell seen from an interior cell is interior: it is that cell or a neighbour on ground. */
  lemma BestCellInterior(w: World, kind: AnimalKind, cur: Pos, best: Pos)
    requires GridShaped(w) && Interior(w, cur) && cur in w.grid
    requires forall q :: q in SurroundingCoordinates(cur.0, cur.1) ==> q in w.grid
    requires Animals.BestCell(w.grid, kind, cur, SurroundingCoordinates(cur.0, cur.1), best)
    ensures best in w.grid && Interior(w, best)
  {
  }

  /** When the vote passes, a member keen to move (energy at least 4) is never shed. */
  lemma KeenRemain(animalOf: map<AnimalId, Animal>, members: set<AnimalId>)
    requires members != {} && 2 * |Keen(animalOf, members)| >= |members|
    ensures members - Shed(animalOf, members) != {}
  {
    var b :| b in Keen(animalOf, members);
    assert b in members - Shed(animalOf, members);
  }

  /** After the march the members left in g all stand at best. */
  lemma MarchedMembersAtBest(w: World, g: GroupId, best: Pos, r: World)
    requires MembersKnown(w, g) && Marched(w, g, best, r)
    ensures g in r.groupOf && r.groupOf[g].individuals == w.groupOf[g].individuals - Shed(w.animalOf, w.groupOf[g].individuals)
    ensures forall b :: b in r.groupOf[g].individuals ==> b in r.animalOf && r.animalOf[b].cell == best
  {
    forall b | b in r.groupOf[g].individuals
      ensures b in r.animalOf && r.animalOf[b].cell == best
    {
      assert MemberKnown(w, g, b);
    }
  }

  /**
   * The records of w after g has moved to best: the members with energy 1 have left the
   * group, the others stand at best with one unit of energy less, and g names best as its
   * cell; no other record has changed.
   */
  ghost predicate MovedRecords(w: World, g: GroupId, best: Pos, r: World)
    requires g in w.groupOf
  {
    var grp := w.groupOf[g];
    var members := grp.individuals;
    && r.groupOf == w.groupOf[g := grp.(individuals := members - Shed(w.animalOf, members), cell := best)]
    && r.animalOf.Keys == w.animalOf.Keys
    && (forall b :: b in w.animalOf ==>
          r.animalOf[b] == if b in members then AfterMarch(w.animalOf[b], best) else w.animalOf[b])
    && r.erbasts == w.erbasts && r.carvizes == w.carvizes
    && r.allGroups == w.allGroups && SameShape(w, r) && SameVegetation(w, r)
  }

  /**
   * The cells of w after g has moved to best: the members that followed have left their
   * cells' populations for best's, and g has left its old cell's group set for best's.
   */
  ghost predicate MovedCells(w: World, g: GroupId, best: Pos, r: World)
    requires g in w.groupOf
  {
    var grp := w.groupOf[g];
    var members := grp.individuals;
    var movers := members - Shed(w.animalOf, members);
    && best in w.grid && grp.cell in w.grid && r.grid.Keys == w.grid.Keys
    && (forall p :: p in w.grid ==>
          CellMarched(w.grid[p], r.grid[p].(herds := w.grid[p].herds, prides := w.grid[p].prides), MemberKind(grp.kind), movers, p == best))
    && (forall p, k :: p in w.grid ==>
          r.grid[p].Groups(k) ==
            if k != grp.kind then w.grid[p].Groups(k)
            else (if p == grp.cell then w.grid[p].Groups(k) - {g} else w.grid[p].Groups(k)) + (if p == best then {g} else {}))
  }

  ghost predicate GroupMoved(w: World, g: GroupId, best: Pos, r: World)
    requires g in w.groupOf
  {
    MovedRecords(w, g, best, r) && MovedCells(w, g, best, r)
  }

  /** Marching the members to best and then relocating g there is the move of g to best. */
  lemma MovementComposed(w: World, g: GroupId, best: Pos, marched: World, r: World)
    requires g in w.groupOf && w.groupOf[g].cell in w.grid && Marched(w, g, best, marched) && Relocated(marched, g, best, r)
    ensures GroupMoved(w, g, best, r)
  {
    assert marched.groupOf[g].kind == w.groupOf[g].kind && marched.groupOf[g].cell == w.groupOf[g].cell;
    MovementComposedRecords(w, g, best, marched, r);
    MovementComposedCells(w, g, best, marched, r);
  }

  lemma MovementComposedRecords(w: World, g: GroupId, best: Pos, marched: World, r: World)
    requires g in w.groupOf && Marched(w, g, best, marched) && Relocated(marched, g, best, r)
    ensures MovedRecords(w, g, best, r)
  {
    var grp := w.groupOf[g];
    var stay := grp.individuals - Shed(w.animalOf, grp.individuals);
    assert marched.groupOf == w.groupOf[g := grp.(individuals := stay)];
    assert r.groupOf == marched.groupOf[g := grp.(individuals := stay, cell := best)];
  }

  lemma MovementComposedCells(w: World, g: GroupId, best: Pos, marched: World, r: World)
    requires g in w.groupOf && w.groupOf[g].cell in w.grid && Marched(w, g, best, marched) && Relocated(marched, g, best, r)
    requires marched.groupOf[g].kind == w.groupOf[g].kind && marched.groupOf[g].cell == w.groupOf[g].cell
    ensures MovedCells(w, g, best, r)
  {
    var grp := w.groupOf[g];
    var movers := grp.individuals - Shed(w.animalOf, grp.individuals);
    forall p | p in w.grid
        ensures CellMarched(w.grid[p], r.grid[p].(herds := w.grid[p].herds, prides := w.grid[p].prides), MemberKind(grp.kind), movers, p == best)
    {
      assert CellMarched(w.grid[p], marched.grid[p], MemberKind(grp.kind), movers, p == best);
      assert r.grid[p].(herds := w.grid[p].herds, prides := w.grid[p].prides) == marched.grid[p];
    }
    MovementComposedGroupSets(w, g, best, marched, r);
  }

  lemma MovementComposedGroupSets(w: World, g: GroupId, best: Pos, marched: World, r: World)
    requires g in w.groupOf && w.groupOf[g].cell in w.grid && Marched(w, g, best, marched) && Relocated(marched, g, best, r)
    requires marched.groupOf[g].kind == w.groupOf[g].kind && marched.groupOf[g].cell == w.groupOf[g].cell
    ensures var grp := w.groupOf[g];
      forall p, k :: p in w.grid ==>
        r.grid[p].Groups(k) ==
          if k != grp.kind then w.grid[p].Groups(k)
          else (if p == grp.cell then w.grid[p].Groups(k) - {g} else w.grid[p].Groups(k)) + (if p == best then {g} else {})
  {
    var grp := w.groupOf[g];
    var movers := grp.individuals - Shed(w.animalOf, grp.individuals);
    forall p, k | p in w.grid
      ensures marched.grid[p].Groups(k) == w.grid[p].Groups(k)
    {
      assert CellMarched(w.grid[p], marched.grid[p], MemberKind(grp.kind), movers, p == best);
    }
  }

  /**
   * The group's movement: when the vote passes, one member's best-cell scan picks best;
   * every member with energy 1 leaves the group and every other member moves there, and
   * then the group does. When the vote fails nothing but neighbour caches changes. Besides
   * the new world this gives back the member whose scan was used, the cell chosen and, as
   * a ghost, the world once the caches were filled.
   */
  method Movement(w: World, g: GroupId) returns (r: World, moved: bool, rep: AnimalId, best: Pos, ghost mid: World)
    requires Valid(w) && g in w.allGroups && g in w.groupOf && w.groupOf[g].individuals != {}
    ensures SameShape(w, r)
    ensures Valid(r)
    ensures moved <==> 2 * |Keen(w.animalOf, w.groupOf[g].individuals)| >= |w.groupOf[g].individuals|
    ensures !moved ==> OnlyCachesFilled(w, r)
    ensures moved ==>
      && rep in w.groupOf[g].individuals && rep in w.animalOf && Ready(w, rep)
      && var p := w.animalOf[rep].cell;
      && Animals.BestCell(w.grid, w.animalOf[rep].species, p, SurroundingCoordinates(p.0, p.1), best)
      && OnlyCachesFilled(w, mid) && g in mid.groupOf && GroupMoved(mid, g, best, r)
  {
    var polled;
    polled, moved := DecideToMove(w, g);
    mid, best := polled, w.groupOf[g].cell;
    rep :| rep in w.groupOf[g].individuals;
    if !moved {
      r := polled;
      return;
    }
    var scanned, order;
    scanned, rep, best, order := Scan(w, g, polled);
    mid := scanned;
    CachesFilledKeepValid(w, scanned);
    MovementReady(w, g, rep, scanned, best);
    KeenRemain(w.animalOf, w.groupOf[g].individuals);
    r := Follow(scanned, g, best, order);
  }

  /**
   * The best-cell scan of one member of g, whichever comes first in a listing of the
   * members; it fills neighbour caches only.
   */
  method Scan(w: World, g: GroupId, polled: World) returns (scanned: World, rep: AnimalId, best: Pos, order: seq<AnimalId>)
    requires Valid(w) && g in w.allGroups && g in w.groupOf && w.groupOf[g].individuals != {}
    requires OnlyCachesFilled(w, polled)
    ensures Distinct(order) && forall b :: b in order <==> b in w.groupOf[g].individuals
    ensures rep in w.groupOf[g].individuals && rep in w.animalOf && Ready(w, rep)
    ensures var p := w.animalOf[rep].cell;
      Animals.BestCell(w.grid, w.animalOf[rep].species, p, SurroundingCoordinates(p.0, p.1), best)
    ensures OnlyCachesFilled(w, scanned)
  {
    order := ListOf(polled.groupOf[g].individuals);
    var some :| some in w.groupOf[g].individuals;
    assert some in order;
    rep := order[0];
    MembersReady(w, g);
    ReadyKept(w, polled, rep);
    scanned, best := Animals.GetBestCellInNeighborhood(polled, rep);
    var cur := w.animalOf[rep].cell;
    NeighbourCacheFilled(polled, cur, scanned);
    CachesFilledTrans(w, polled, scanned);
    BestCellUnderCaches(w, polled, w.animalOf[rep].species, cur, SurroundingCoordinates(cur.0, cur.1), best);
  }

  /**
   * Every member of g follows it to best, those with energy 1 leaving the group instead,
   * and the group then takes the cell of a member left, which is best.
   */
  method Follow(w: World, g: GroupId, best: Pos, order: seq<AnimalId>) returns (r: World)
    requires Valid(w) && g in w.allGroups && g in w.groupOf
    requires best in w.grid && Interior(w, best) && SoleVegetation(w.vegetebobOf, w.grid[best])
    requires Distinct(order) && forall b :: b in order <==> b in w.groupOf[g].individuals
    requires w.groupOf[g].individuals - Shed(w.animalOf, w.groupOf[g].individuals) != {}
    ensures Valid(r) && GroupMoved(w, g, best, r)
  {
    MembersKnownOf(w, g);
    var marched := MarchEach(w, g, best, order);
    MarchedKeepsValid(w, g, best, marched);
    MarchedMembersAtBest(w, g, best, marched);
    r := SetCurrentCell(marched, g);
    RelocatedKeepsValid(marched, g, best, r);
    MovementComposed(w, g, best, marched, r);
  }

  /** The cell the scan picked is interior and its vegetation can be looked up. */
  lemma MovementReady(w: World, g: GroupId, rep: AnimalId, m: World, best: Pos)
    requires Valid(w) && g in w.allGroups && g in w.groupOf && rep in w.groupOf[g].individuals
    requires Valid(m) && OnlyCachesFilled(w, m)
    requires Ready(w, rep)
    requires var p := w.animalOf[rep].cell;
      Animals.BestCell(w.grid, w.animalOf[rep].species, p, SurroundingCoordinates(p.0, p.1), best)
    ensures best in m.grid && Interior(m, best) && SoleVegetation(m.vegetebobOf, m.grid[best])
  {
    MembersAlive(w, g);
    Animals.AliveFacts(w, rep);
    var p := w.animalOf[rep].cell;
    BestCellInterior(w, w.animalOf[rep].species, p, best);
    VegetationKnownEverywhere(m, best);
    KnownSoleVegetation(m.vegetebobOf, m.grid[best]);
  }

  /**
   * g joins other: the union of the two member sets is computed and thrown away, and other
   * is deleted without killing its members. So g keeps exactly its own members, and other's
   * former members stay alive but belong to no group.
   */
  method Join(w: World, g: GroupId, other: GroupId) returns (r: World)
    requires Valid(w) && other in w.allGroups
    ensures Valid(r) && GroupDeleted(w, other, false, r)
    ensures g in w.groupOf && g != other ==> g in r.groupOf && r.groupOf[g] == w.groupOf[g]
    ensures forall b :: b in w.groupOf[other].individuals ==> Dismissed(r, b, false)
  {
    MembersAlive(w, other);
    r := DeleteGroup(w, other, false);
    DeletedDismissed(w, other, false, r);
  }

  /**
   * b, a former member of a deleted group, names no group, and is still in the population
   * of its species exactly when it was released rather than killed.
   */
  ghost predicate Dismissed(r: World, b: AnimalId, kill: bool)
  {
    b in r.animalOf && r.animalOf[b].group == None && (b in r.Population(r.animalOf[b].species) <==> !kill)
  }

  /** Deleting a valid group dismisses each of its members. */
  lemma DeletedDismissed(w: World, g: GroupId, kill: bool, r: World)
    requires Valid(w) && GroupDeleted(w, g, kill, r)
    ensures forall b :: b in w.groupOf[g].individuals ==> Dismissed(r, b, kill)
  {
    MembersAlive(w, g);
    forall b | b in w.groupOf[g].individuals
      ensures Dismissed(r, b, kill)
    {
      assert r.animalOf[b] == Disbanded(w.animalOf[b], kill);
    }
  }

  /** Deletes g, releasing nobody, exactly when it has no members; otherwise nothing changes. */
  method DeleteIfNoMembers(w: World, g: GroupId) returns (r: World, deleted: bool)
    requires Valid(w) && g in w.allGroups
    ensures SameShape(w, r)
    ensures g in w.groupOf && (deleted <==> w.groupOf[g].individuals == {})
    ensures deleted ==> GroupDeleted(w, g, false, r) && g !in r.allGroups
    ensures !deleted ==> r == w
    ensures Valid(r)
  {
    MembersAlive(w, g);
    if |w.groupOf[g].individuals| <= 0 {
      r := DeleteGroup(w, g, false);
      return r, true;
    }
    return w, false;
  }

  /** The groups of g's kind in g's cell. */
  ghost function CellMates(w: World, g: GroupId): set<GroupId>
    requires g in w.groupOf && w.groupOf[g].cell in w.grid
  {
    w.grid[w.groupOf[g].cell].Groups(w.groupOf[g].kind)
  }

  /**
   * r is w once the groups joined, all of them groups of g's kind in g's cell other than
   * g, have been deleted, by g joining them or by g winning a fight against them, killing
   * their members when kill holds and releasing them otherwise. MergedRecords and
   * MergedCells say in full what changed; MergedFacts draws the consequences.
   */
  ghost predicate Merged(w: World, g: GroupId, joined: set<GroupId>, kill: bool, r: World)
    requires g in w.groupOf && w.groupOf[g].cell in w.grid
  {
    && g !in joined && joined <= CellMates(w, g) && SameShape(w, r)
    && MergedRecords(w, joined, kill, r) && MergedCells(w, g, joined, kill, r)
  }

  /**
   * After a merge g is still registered with the same record, in the same cell, whose
   * group set has lost exactly the groups joined; the other groups of the cell keep their
   * records; the groups joined are no longer registered; and no animal's social attitude
   * has changed.
   */
  lemma MergedFacts(w: World, g: GroupId, joined: set<GroupId>, kill: bool, r: World)
    requires g in w.groupOf && w.groupOf[g].cell in w.grid && MatesKnown(w, g)
    requires Merged(w, g, joined, kill, r)
    ensures var grp := w.groupOf[g];
      && g in r.allGroups && g in r.groupOf && r.groupOf[g] == grp
      && grp.cell in r.grid && r.grid[grp.cell].Groups(grp.kind) == CellMates(w, g) - joined
    ensures forall h :: h in CellMates(w, g) && h !in joined ==> h in r.groupOf && r.groupOf[h] == w.groupOf[h]
    ensures forall h :: h in joined ==> h !in r.allGroups
    ensures forall b :: b in w.animalOf ==> b in r.animalOf && r.animalOf[b].socialAttitude == w.animalOf[b].socialAttitude
  {
    var grp := w.groupOf[g];
    assert r.grid[grp.cell].Groups(grp.kind) == CellMates(w, g) - joined;
  }

  /** After a merge the former members of the groups joined are dismissed. */
  lemma MergedDismissed(w: World, g: GroupId, joined: set<GroupId>, kill: bool, r: World)
    requires Valid(w) && g in w.groupOf && w.groupOf[g].cell in w.grid && MatesKnown(w, g)
    requires Merged(w, g, joined, kill, r)
    ensures forall h, b :: h in joined && b in w.groupOf[h].individuals ==> Dismissed(r, b, kill)
  {
    forall h, b | h in joined && b in w.groupOf[h].individuals
      ensures Dismissed(r, b, kill)
    {
      MembersAlive(w, h);
      assert b in MembersOf(w, joined);
    }
  }

  /** The members, in w, of the groups joined. */
  ghost function MembersOf(w: World, joined: set<GroupId>): set<AnimalId>
  {
    set h, b | h in joined && h in w.groupOf && b in w.groupOf[h].individuals :: b
  }

  /** The members of one more group are the members so far and that group's own. */
  lemma MembersOfStep(w: World, joined: set<GroupId>, h: GroupId)
    requires h in w.groupOf
    ensures MembersOf(w, joined + {h}) == MembersOf(w, joined) + w.groupOf[h].individuals
  {
  }

  /**
   * The registry and the records of Merged, in full: the groups joined have left the
   * registry, which otherwise keeps its order, and are marked deleted with no members;
   * their former members are released, or killed and out of the world's populations; every
   * other group and animal keeps its record, and the vegetation is untouched.
   */
  ghost predicate MergedRecords(w: World, joined: set<GroupId>, kill: bool, r: World)
  {
    var members := MembersOf(w, joined);
    var gone := Killed(kill, members);
    && r.allGroups == Without(w.allGroups, joined)
    && r.groupOf.Keys == w.groupOf.Keys
    && (forall h :: h in w.groupOf ==>
          r.groupOf[h] == if h in joined then w.groupOf[h].(deleted := true, individuals := {}) else w.groupOf[h])
    && r.animalOf.Keys == w.animalOf.Keys
    && (forall b :: b in w.animalOf ==>
          r.animalOf[b] == if b in members then Disbanded(w.animalOf[b], kill) else w.animalOf[b])
    && r.erbasts == w.erbasts - gone && r.carvizes == w.carvizes - gone
    && SameVegetation(w, r)
  }

  /**
   * The cells of Merged, in full: the groups joined have left the group set of g's cell,
   * killed members have left their cells, whose appeal is evaluated again, and nothing
   * else in any cell has changed.
   */
  ghost predicate MergedCells(w: World, g: GroupId, joined: set<GroupId>, kill: bool, r: World)
    requires g in w.groupOf
  {
    var grp := w.groupOf[g];
    var gone := Killed(kill, MembersOf(w, joined));
    && r.grid.Keys == w.grid.Keys
    && (forall p :: p in w.grid ==> SameGround(w.grid[p], r.grid[p]) && Emptied(w, gone, r, p))
    && (forall p, k :: p in w.grid ==>
          r.grid[p].Groups(k) == (if p == grp.cell && k == grp.kind then w.grid[p].Groups(k) - joined else w.grid[p].Groups(k)))
  }

  /**
   * A merge in progress: r is valid and the groups joined are deleted, as Merged says. It
   * is stated over a bound copy of r so that the verifier carries it through a loop as a
   * single fact, and unfolds it only where a step needs it.
   */
  ghost predicate Merging(w: World, g: GroupId, joined: set<GroupId>, kill: bool, r: World)
    requires g in w.groupOf && w.groupOf[g].cell in w.grid
  {
    forall x | x == r :: Valid(x) && Merged(w, g, joined, kill, x)
  }

  /** The groups of g's cell and kind are registered, there, and their members name them. */
  ghost predicate MatesKnown(w: World, g: GroupId)
    requires g in w.groupOf && w.groupOf[g].cell in w.grid
  {
    && g in CellMates(w, g) && Distinct(w.allGroups)
    && forall h :: h in CellMates(w, g) ==>
      && h in w.allGroups && h in w.groupOf
      && w.groupOf[h].cell == w.groupOf[g].cell && w.groupOf[h].kind == w.groupOf[g].kind
      && forall b :: b in w.groupOf[h].individuals ==> b in w.animalOf && w.animalOf[b].group == Some(h)
  }

  lemma NoneMerged(w: World, g: GroupId, kill: bool)
    requires Valid(w) && g in w.allGroups
    ensures g in w.groupOf && w.groupOf[g].cell in w.grid && Merged(w, g, {}, kill, w) && MatesKnown(w, g)
  {
    NothingMerged(w, g, kill);
  }

  /** Before any group is joined, nothing has changed. */
  lemma NothingMerged(w: World, g: GroupId, kill: bool)
    requires g in w.groupOf && w.groupOf[g].cell in w.grid && g in CellMates(w, g)
    ensures Merged(w, g, {}, kill, w)
  {
    assert MembersOf(w, {}) == {};
    WithoutNone(w.allGroups);
    forall p | p in w.grid
      ensures Emptied(w, {}, w, p)
    {
      assert w.grid[p].erbasts - {} == w.grid[p].erbasts && w.grid[p].carvizes - {} == w.grid[p].carvizes;
    }
    assert w.erbasts - {} == w.erbasts && w.carvizes - {} == w.carvizes;
    forall p, k | p in w.grid
      ensures w.grid[p].Groups(k) - {} == w.grid[p].Groups(k)
    {
    }
  }

  /** h, one more group of g's cell, is deleted. */
  lemma MergedNext(w: World, g: GroupId, joined: set<GroupId>, kill: bool, r: World, h: GroupId, next: World)
    requires g in w.groupOf && w.groupOf[g].cell in w.grid && MatesKnown(w, g)
    requires Merged(w, g, joined, kill, r)
    requires h in CellMates(w, g) && h != g && h !in joined
    requires GroupDeleted(r, h, kill, next)
    ensures Merged(w, g, joined + {h}, kill, next)
  {
    assert r.groupOf[h] == w.groupOf[h];
    MembersApart(w, g, joined, h);
    MergedNextRecords(w, joined, kill, r, h, next);
    MergedNextCells(w, g, joined, kill, r, h, next);
  }

  /** The members of h, a group of g's cell not yet joined, are members of none of the groups joined. */
  lemma MembersApart(w: World, g: GroupId, joined: set<GroupId>, h: GroupId)
    requires g in w.groupOf && w.groupOf[g].cell in w.grid && MatesKnown(w, g)
    requires joined <= CellMates(w, g) && h in CellMates(w, g) && h !in joined
    ensures MembersOf(w, joined) !! w.groupOf[h].individuals
  {
    forall b | b in MembersOf(w, joined)
      ensures b !in w.groupOf[h].individuals
    {
      var h' :| h' in joined && h' in w.groupOf && b in w.groupOf[h'].individuals;
      assert w.animalOf[b].group == Some(h');
    }
  }

  lemma MergedNextRecords(w: World, joined: set<GroupId>, kill: bool, r: World, h: GroupId, next: World)
    requires Distinct(w.allGroups) && h in w.allGroups && h in w.groupOf && h !in joined
    requires MembersOf(w, joined) !! w.groupOf[h].individuals && MergedRecords(w, joined, kill, r)
    requires h in r.allGroups && MembersDisbanded(r, h, kill, next)
    ensures MergedRecords(w, joined + {h}, kill, next)
  {
    MembersOfStep(w, joined, h);
    MergedNextGroups(w, joined, r, h, next);
    MergedNextAnimals(w, joined, kill, r, h, next);
    MergedNextPopulations(w, joined, kill, r, h, next);
  }

  lemma MergedNextGroups(w: World, joined: set<GroupId>, r: World, h: GroupId, next: World)
    requires Distinct(w.allGroups) && h in w.allGroups && h in w.groupOf && h !in joined
    requires r.allGroups == Without(w.allGroups, joined) && r.groupOf.Keys == w.groupOf.Keys
    requires forall h' :: h' in w.groupOf ==>
      r.groupOf[h'] == if h' in joined then w.groupOf[h'].(deleted := true, individuals := {}) else w.groupOf[h']
    requires h in r.allGroups && next.allGroups == RemoveFirst(r.allGroups, h)
    requires next.groupOf == r.groupOf[h := r.groupOf[h].(deleted := true, individuals := {})]
    ensures next.allGroups == Without(w.allGroups, joined + {h}) && next.groupOf.Keys == w.groupOf.Keys
    ensures forall h' :: h' in w.groupOf ==>
      next.groupOf[h'] == if h' in joined + {h} then w.groupOf[h'].(deleted := true, individuals := {}) else w.groupOf[h']
  {
    WithoutRemoveFirst(w.allGroups, joined, h);
  }

  lemma MergedNextAnimals(w: World, joined: set<GroupId>, kill: bool, r: World, h: GroupId, next: World)
    requires h in w.groupOf && MembersOf(w, joined) !! w.groupOf[h].individuals
    requires r.animalOf.Keys == w.animalOf.Keys
    requires forall b :: b in w.animalOf ==>
      r.animalOf[b] == if b in MembersOf(w, joined) then Disbanded(w.animalOf[b], kill) else w.animalOf[b]
    requires h in r.groupOf && r.groupOf[h] == w.groupOf[h] && next.animalOf.Keys == r.animalOf.Keys
    requires forall b :: b in r.animalOf ==>
      next.animalOf[b] == if b in r.groupOf[h].individuals then Disbanded(r.animalOf[b], kill) else r.animalOf[b]
    ensures forall b :: b in w.animalOf ==>
      next.animalOf[b] == if b in MembersOf(w, joined) + w.groupOf[h].individuals then Disbanded(w.animalOf[b], kill) else w.animalOf[b]
  {
  }

  lemma MergedNextPopulations(w: World, joined: set<GroupId>, kill: bool, r: World, h: GroupId, next: World)
    requires h in w.groupOf && h in r.groupOf && r.groupOf[h] == w.groupOf[h]
    requires r.erbasts == w.erbasts - Killed(kill, MembersOf(w, joined))
    requires r.carvizes == w.carvizes - Killed(kill, MembersOf(w, joined))
    requires next.erbasts == r.erbasts - Killed(kill, r.groupOf[h].individuals)
    requires next.carvizes == r.carvizes - Killed(kill, r.groupOf[h].individuals)
    ensures next.erbasts == w.erbasts - Killed(kill, MembersOf(w, joined) + w.groupOf[h].individuals)
    ensures next.carvizes == w.carvizes - Killed(kill, MembersOf(w, joined) + w.groupOf[h].individuals)
  {
    KilledUnion(kill, MembersOf(w, joined), w.groupOf[h].individuals);
  }

  /** Killing two sets of animals in turn kills their union. */
  lemma KilledUnion(kill: bool, a: set<AnimalId>, b: set<AnimalId>)
    ensures Killed(kill, a + b) == Killed(kill, a) + Killed(kill, b)
    ensures forall s: set<AnimalId> :: s - Killed(kill, a) - Killed(kill, b) == s - Killed(kill, a + b)
  {
  }

  lemma MergedNextCells(w: World, g: GroupId, joined: set<GroupId>, kill: bool, r: World, h: GroupId, next: World)
    requires g in w.groupOf && w.groupOf[g].cell in w.grid && MatesKnown(w, g)
    requires MergedCells(w, g, joined, kill, r) && r.vegetebobOf == w.vegetebobOf
    requires h in CellMates(w, g) && h !in joined && h in r.groupOf && r.groupOf[h] == w.groupOf[h]
    requires GroupDeleted(r, h, kill, next)
    ensures MergedCells(w, g, joined + {h}, kill, next)
  {
    var grp := w.groupOf[g];
    var members := MembersOf(w, joined);
    var own := w.groupOf[h].individuals;
    MembersOfStep(w, joined, h);
    KilledUnion(kill, members, own);
    forall p | p in w.grid
      ensures SameGround(w.grid[p], next.grid[p]) && Emptied(w, Killed(kill, members + own), next, p)
    {
      EmptiedTrans(w, Killed(kill, members), r, Killed(kill, own), next, p);
    }
    forall p, k | p in w.grid
      ensures next.grid[p].Groups(k) == (if p == grp.cell && k == grp.kind then w.grid[p].Groups(k) - (joined + {h}) else w.grid[p].Groups(k))
    {
      assert next.grid[p].Groups(k) == (if p == grp.cell && k == grp.kind then r.grid[p].Groups(k) - {h} else r.grid[p].Groups(k));
    }
  }

  /** A cell emptied of a and then of b is emptied of both. */
  lemma EmptiedTrans(w: World, a: set<AnimalId>, m: World, b: set<AnimalId>, r: World, p: Pos)
    requires p in w.grid && p in m.grid && p in r.grid
    requires Emptied(w, a, m, p) && Emptied(m, b, r, p) && r.vegetebobOf == m.vegetebobOf
    requires SameGround(w.grid[p], m.grid[p]) && SameGround(m.grid[p], r.grid[p])
    ensures SameGround(w.grid[p], r.grid[p]) && Emptied(w, a + b, r, p)
  {
    var c, d := w.grid[p], m.grid[p];
    assert r.grid[p].erbasts == c.erbasts - (a + b) && r.grid[p].carvizes == c.carvizes - (a + b);
    if !(c.erbasts !! a && c.carvizes !! a) {
      if d.erbasts !! b && d.carvizes !! b {
        AppealStaysUpToDate(m, r, p);
      }
    } else if !(c.erbasts !! (a + b) && c.carvizes !! (a + b)) {
      assert !(d.erbasts !! b && d.carvizes !! b);
    }
  }

  /** g joins h, the next group of its kind in its cell, unless h is g itself. */
  method JoinNext(w: World, g: GroupId, ghost joined: set<GroupId>, r: World, h: GroupId)
    returns (next: World, ghost joined': set<GroupId>)
    requires g in w.groupOf && w.groupOf[g].cell in w.grid && MatesKnown(w, g)
    requires Merging(w, g, joined, false, r)
    requires h in CellMates(w, g) && h !in joined
    ensures joined' == if h == g then joined else joined + {h}
    ensures Merging(w, g, joined', false, next)
  {
    if h == g {
      next, joined' := r, joined;
      return;
    }
    assert Valid(r) && Merged(w, g, joined, false, r);
    assert h in r.allGroups;
    next := Join(r, g, h);
    MergedNext(w, g, joined, false, r, h, next);
    joined' := joined + {h};
  }
}
