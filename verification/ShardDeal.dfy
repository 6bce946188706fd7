/** Dealing shards to replica groups: the lists of shards per group, the choice of the fullest
    and the emptiest group, and the rebalancing loop of Join. */
module ShardDeal {
  import opened Prelude
  import opened Linearizability
  import opened Sorting

  const NSHARDS := 10

  /** Group id to its shards. */
  type Lists = map<int, seq<int>>

  /** The lists together with the owner of every shard they hold. */
  datatype Deal = Deal(lists: Lists, owner: map<int, int>)

  ghost function Held(owner: map<int, int>, g: int): set<int> {
    set s | s in owner && owner[s] == g
  }

  ghost function Load(owner: map<int, int>, g: int): nat { |Held(owner, g)| }

  ghost predicate ListOk(owner: map<int, int>, g: int, list: seq<int>) {
    Distinct(list) && Elems(list) == Held(owner, g)
  }

  /** Every held shard is on the list of its owner, once, and on no other list. */
  ghost predicate Represents(d: Deal) {
    && (forall g :: g in d.lists ==> ListOk(d.owner, g, d.lists[g]))
    && (forall s :: s in d.owner ==> d.owner[s] in d.lists)
  }

  function Len(lists: Lists, g: int): nat { if g in lists then |lists[g]| else 0 }

  lemma LenIsLoad(d: Deal, g: int)
    requires Represents(d)
    ensures Len(d.lists, g) == Load(d.owner, g)
  {
    if g in d.lists {
      assert ListOk(d.owner, g, d.lists[g]);
      DistinctSize(d.lists[g]);
    } else {
      assert forall s :: s in d.owner ==> d.owner[s] != g;
      assert Held(d.owner, g) == {};
    }
  }

  // ---------- fullest and emptiest ----------

  function Weight(lists: Lists, most: bool, g: int): int { if most then 0 - Len(lists, g) else Len(lists, g) }

  /** The group of least weight; of several, the one with the smallest id. */
  ghost predicate IsBest(lists: Lists, most: bool, among: set<int>, g: int) {
    g in among && forall h :: h in among ==>
      Weight(lists, most, g) < Weight(lists, most, h) || (Weight(lists, most, g) == Weight(lists, most, h) && g <= h)
  }

  lemma {:induction false} BestExists(lists: Lists, most: bool, among: set<int>)
    requires among != {}
    ensures exists g :: IsBest(lists, most, among, g)
    decreases among
  {
    var a := AnyOf(among);
    if among == {a} {
      assert IsBest(lists, most, among, a);
    } else {
      BestExists(lists, most, among - {a});
      var b: int :| IsBest(lists, most, among - {a}, b);
      var wa, wb := Weight(lists, most, a), Weight(lists, most, b);
      if wa < wb || (wa == wb && a < b) {
        assert IsBest(lists, most, among, a);
      } else {
        assert IsBest(lists, most, among, b);
      }
    }
  }

  ghost function Best(lists: Lists, most: bool, among: set<int>): (g: int)
    ensures among == {} ==> g == -1
    ensures among != {} ==> IsBest(lists, most, among, g)
  {
    if among == {} then -1
    else
      BestExists(lists, most, among);
      var g :| IsBest(lists, most, among, g);
      g
  }

  /** The group that gives: group 0 while it holds anything, else the fullest. */
  ghost function Source(lists: Lists): int {
    if Len(lists, 0) > 0 then 0 else Best(lists, true, lists.Keys)
  }

  ghost function Candidates(lists: Lists): set<int> {
    set g | g in lists && g != 0 && |lists[g]| < NSHARDS + 1
  }

  /** The group that receives: the emptiest one other than group 0, or -1 if there is none. */
  ghost function Target(lists: Lists): int { Best(lists, false, Candidates(lists)) }

  method GetGIDWithMaximumShards(lists: Lists) returns (index: int)
    ensures index == Source(lists)
    ensures 0 in lists && lists[0] != [] ==> index == 0
    ensures !(0 in lists && lists[0] != []) && lists != map[] ==>
              && index in lists && forall h :: h in lists ==>
                |lists[h]| < |lists[index]| || (|lists[h]| == |lists[index]| && index <= h)
  {
    if 0 in lists && |lists[0]| > 0 {
      return 0;
    }
    var keys := SortedKeys(lists);
    index := -1;
    var max := -1;
    for i := 0 to |keys|
      invariant MaxSoFar(lists, Elems(keys[..i]), index, max)
    {
      var gid := keys[i];
      assert gid in Elems(keys);
      assert Elems(keys[..i + 1]) == Elems(keys[..i]) + {gid};
      MaxNext(lists, Elems(keys[..i]), index, max, gid);
      if |lists[gid]| > max {
        index, max := gid, |lists[gid]|;
      }
    }
    assert keys[..|keys|] == keys;
    SourceMeans(lists);
  }

  /** What is known of the fullest among the groups looked at so far. */
  ghost predicate MaxSoFar(lists: Lists, seen: set<int>, index: int, max: int) {
    if seen == {} then index == -1 && max == -1 else IsBest(lists, true, seen, index) && max == Len(lists, index)
  }

  lemma MaxNext(lists: Lists, seen: set<int>, index: int, max: int, gid: int)
    requires MaxSoFar(lists, seen, index, max) && gid in lists && forall h :: h in seen ==> h < gid
    ensures var take := |lists[gid]| > max;
            MaxSoFar(lists, seen + {gid}, if take then gid else index, if take then |lists[gid]| else max)
  {
  }

  lemma SourceMeans(lists: Lists)
    ensures 0 in lists && lists[0] != [] ==> Source(lists) == 0
    ensures !(0 in lists && lists[0] != []) && lists != map[] ==>
              && Source(lists) in lists && forall h :: h in lists ==>
                || |lists[h]| < |lists[Source(lists)]|
                || (|lists[h]| == |lists[Source(lists)]| && Source(lists) <= h)
  {
    if !(0 in lists && lists[0] != []) && lists != map[] { assert lists.Keys != {}; }
  }

  /** What is known of the emptiest candidate among the groups looked at so far. */
  ghost predicate MinSoFar(lists: Lists, seen: set<int>, index: int, min: int) {
    var among := seen * Candidates(lists);
    if among == {} then index == -1 && min == NSHARDS + 1
    else IsBest(lists, false, among, index) && min == Len(lists, index) <= NSHARDS
  }

  lemma MinNext(lists: Lists, seen: set<int>, index: int, min: int, gid: int)
    requires MinSoFar(lists, seen, index, min) && gid in lists && forall h :: h in seen ==> h < gid
    ensures var take := gid != 0 && |lists[gid]| < min;
            MinSoFar(lists, seen + {gid}, if take then gid else index, if take then |lists[gid]| else min)
  {
    var among := seen * Candidates(lists);
    if gid in Candidates(lists) {
      assert (seen + {gid}) * Candidates(lists) == among + {gid};
    } else {
      assert (seen + {gid}) * Candidates(lists) == among;
    }
  }

  lemma TargetMeans(lists: Lists)
    ensures (forall h :: h in lists && h != 0 ==> |lists[h]| > NSHARDS) ==> Target(lists) == -1
    ensures forall h :: h in lists && h != 0 && |lists[h]| <= NSHARDS ==>
              && Target(lists) in lists && Target(lists) != 0
              && (|lists[Target(lists)]| < |lists[h]| || (|lists[Target(lists)]| == |lists[h]| && Target(lists) <= h))
  {
    forall h | h in lists && h != 0 && |lists[h]| <= NSHARDS
      ensures Target(lists) in Candidates(lists) && IsBest(lists, false, Candidates(lists), Target(lists))
              && h in Candidates(lists)
    {
      assert h in Candidates(lists);
    }
    if forall h :: h in lists && h != 0 ==> |lists[h]| > NSHARDS { assert Candidates(lists) == {}; }
  }

  method GetGIDWithMinimumShards(lists: Lists) returns (index: int)
    ensures index == Target(lists)
    ensures (forall h :: h in lists && h != 0 ==> |lists[h]| > NSHARDS) ==> index == -1
    ensures forall h :: h in lists && h != 0 && |lists[h]| <= NSHARDS ==>
              index in lists && index != 0
                && (|lists[index]| < |lists[h]| || (|lists[index]| == |lists[h]| && index <= h))
  {
    var keys := SortedKeys(lists);
    index := -1;
    var min := NSHARDS + 1;
    for i := 0 to |keys|
      invariant MinSoFar(lists, Elems(keys[..i]), index, min)
    {
      var gid := keys[i];
      assert gid in Elems(keys);
      assert Elems(keys[..i + 1]) == Elems(keys[..i]) + {gid};
      MinNext(lists, Elems(keys[..i]), index, min, gid);
      if gid != 0 && |lists[gid]| < min {
        index, min := gid, |lists[gid]|;
      }
    }
    assert keys[..|keys|] == keys;
    assert Elems(keys) * Candidates(lists) == Candidates(lists);
    TargetMeans(lists);
  }

  // ---------- one move ----------

  ghost function ShardsBelow(n: nat): (r: set<int>)
    ensures forall s :: s in r <==> 0 <= s < n
    ensures |r| == n
  {
    if n == 0 then {} else ShardsBelow(n - 1) + {n - 1}
  }

  predicate IsShard(s: int) { 0 <= s < NSHARDS }

  ghost function AllShards(): set<int> { set s | 0 <= s < NSHARDS && IsShard(s) }

  lemma AllShardsSize()
    ensures |AllShards()| == NSHARDS
  {
    assert AllShards() == ShardsBelow(NSHARDS);
  }

  /** Groups that can own shards once group 0 is emptied. */
  ghost function LiveIn(lists: Lists): set<int> { lists.Keys - {0} }

  /** A deal of all the shards. */
  ghost predicate Full(d: Deal) { Represents(d) && d.owner.Keys == AllShards() }

  lemma LoadBound(owner: map<int, int>, g: int)
    requires owner.Keys <= AllShards()
    ensures Load(owner, g) <= NSHARDS
  {
    AllShardsSize();
    SubsetSize(Held(owner, g), AllShards());
  }

  lemma CandidatesAreLive(d: Deal)
    requires Represents(d) && d.owner.Keys <= AllShards()
    ensures Candidates(d.lists) == LiveIn(d.lists)
  {
    forall g | g in LiveIn(d.lists) ensures g in Candidates(d.lists) {
      LenIsLoad(d, g);
      LoadBound(d.owner, g);
    }
  }

  /** The target is an emptiest live group. */
  lemma TargetFacts(d: Deal)
    requires Represents(d) && d.owner.Keys <= AllShards()
    ensures var t := Target(d.lists);
            && t != 0 && (if LiveIn(d.lists) == {} then t == -1 else t in LiveIn(d.lists))
            && forall h :: h in LiveIn(d.lists) ==> Load(d.owner, t) <= Load(d.owner, h)
  {
    var t := Target(d.lists);
    CandidatesAreLive(d);
    forall h | h in LiveIn(d.lists) ensures Load(d.owner, t) <= Load(d.owner, h) {
      LenIsLoad(d, t);
      LenIsLoad(d, h);
      assert h in Candidates(d.lists);
    }
  }

  /** The source has something to give: group 0's shards first, then a fullest group's. */
  lemma SourceFacts(d: Deal)
    requires Full(d)
    ensures var s := Source(d.lists);
            && s in d.lists && d.lists[s] != [] && (s == 0 <==> Load(d.owner, 0) > 0)
            && (s != 0 ==> forall h :: h in LiveIn(d.lists) ==> Load(d.owner, h) <= Load(d.owner, s))
  {
    var s := Source(d.lists);
    LenIsLoad(d, 0);
    if s != 0 || Len(d.lists, 0) == 0 {
      assert 0 in AllShards() && d.owner[0] in d.lists;
      var g := d.owner[0];
      assert ListOk(d.owner, g, d.lists[g]) && 0 in Held(d.owner, g);
      assert 0 in Elems(d.lists[g]);
      forall h | h in LiveIn(d.lists) ensures Load(d.owner, h) <= Load(d.owner, s) {
        LenIsLoad(d, s);
        LenIsLoad(d, h);
        assert IsBest(d.lists, true, d.lists.Keys, s);
      }
    }
  }

  /** The first shard of group s goes to the end of group t's list. */
  function MoveOne(d: Deal, s: int, t: int): Deal
    requires s in d.lists && d.lists[s] != []
  {
    var shard := d.lists[s][0];
    Deal(d.lists[t := (if t in d.lists then d.lists[t] else []) + [shard]][s := d.lists[s][1..]], d.owner[shard := t])
  }

  lemma MoveHeld(d: Deal, s: int, t: int, g: int)
    requires Represents(d) && s in d.lists && d.lists[s] != [] && s != t
    ensures var shard := d.lists[s][0];
            && shard in d.owner && d.owner[shard] == s
            && Held(MoveOne(d, s, t).owner, g) ==
               if g == s then Held(d.owner, s) - {shard} else if g == t then Held(d.owner, t) + {shard}
                 else Held(d.owner, g)
  {
    assert ListOk(d.owner, s, d.lists[s]);
    assert d.lists[s][0] in Elems(d.lists[s]);
  }

  lemma MoveLoad(d: Deal, s: int, t: int, g: int)
    requires Represents(d) && s in d.lists && d.lists[s] != [] && s != t
    ensures Load(MoveOne(d, s, t).owner, g) == Load(d.owner, g) - (if g == s then 1 else 0) + (if g == t then 1 else 0)
  {
    MoveHeld(d, s, t, g);
    var shard := d.lists[s][0];
    assert shard in Held(d.owner, s) && shard !in Held(d.owner, t);
  }

  lemma MoveRepresents(d: Deal, s: int, t: int)
    requires Represents(d) && s in d.lists && d.lists[s] != [] && s != t
    ensures Represents(MoveOne(d, s, t)) && MoveOne(d, s, t).owner.Keys == d.owner.Keys
    ensures MoveOne(d, s, t).lists.Keys == d.lists.Keys + {t}
  {
    var next := MoveOne(d, s, t);
    var shard := d.lists[s][0];
    forall g | g in next.lists ensures ListOk(next.owner, g, next.lists[g]) { MoveList(d, s, t, g); }
    MoveHeld(d, s, t, s);
  }

  lemma MoveList(d: Deal, s: int, t: int, g: int)
    requires Represents(d) && s in d.lists && d.lists[s] != [] && s != t
    requires g in MoveOne(d, s, t).lists
    ensures ListOk(MoveOne(d, s, t).owner, g, MoveOne(d, s, t).lists[g])
  {
    var next, shard := MoveOne(d, s, t), d.lists[s][0];
    MoveHeld(d, s, t, g);
    if g == s {
      assert ListOk(d.owner, s, d.lists[s]);
      assert forall x :: x in d.lists[s] <==> x == shard || x in d.lists[s][1..];
      assert shard !in d.lists[s][1..];
      assert Elems(d.lists[s][1..]) == Elems(d.lists[s]) - {shard};
    } else if g == t {
      var old_ := if t in d.lists then d.lists[t] else [];
      assert ListOk(d.owner, t, old_) by {
        if t !in d.lists { LenIsLoad(d, t); }
      }
      assert shard !in Elems(old_);
      assert Elems(old_ + [shard]) == Elems(old_) + {shard};
    }
  }

  // ---------- the rebalancing loop ----------

  /** Group g has lost a shard it had, or holds one it had not. */
  ghost predicate Shrunk(orig: map<int, int>, owner: map<int, int>, g: int) { !(Held(orig, g) <= Held(owner, g)) }

  ghost predicate Grown(orig: map<int, int>, owner: map<int, int>, g: int) { !(Held(owner, g) <= Held(orig, g)) }

  /** Group 0 only gives, and gives first; no other group both gives and receives. */
  ghost predicate GroupOk(orig: map<int, int>, owner: map<int, int>, g: int) {
    if g == 0 then !Grown(orig, owner, g)
    else !(Shrunk(orig, owner, g) && (Grown(orig, owner, g) || Load(owner, 0) > 0))
  }

  /** A giver g stays within one shard of the fullest and a receiver within one of the
      emptiest group h, and no giver falls below a receiver. */
  ghost predicate PairOk(orig: map<int, int>, owner: map<int, int>, live: set<int>, g: int, h: int) {
    && (g != 0 && Shrunk(orig, owner, g) && h in live ==> Load(owner, h) <= Load(owner, g) + 1)
    && (Grown(orig, owner, g) && h in live ==> Load(owner, g) <= Load(owner, h) + 1)
    && (g != 0 && Shrunk(orig, owner, g) && Grown(orig, owner, h) ==> Load(owner, h) <= Load(owner, g))
  }

  /** What holds at the head of the loop, when the lists started from the assignment orig. */
  ghost predicate Balancing(orig: map<int, int>, d: Deal) {
    && Full(d) && orig.Keys == AllShards()
    && (forall s :: s in orig ==> orig[s] in d.lists)
    && (forall g :: GroupOk(orig, d.owner, g))
    && (forall g, h :: PairOk(orig, d.owner, LiveIn(d.lists), g, h))
  }

  ghost predicate Unsettled(d: Deal) {
    Source(d.lists) == 0 || Len(d.lists, Source(d.lists)) - Len(d.lists, Target(d.lists)) > 1
  }

  /** What a move from s to t presupposes. */
  ghost predicate Movable(orig: map<int, int>, d: Deal, s: int, t: int) {
    && Balancing(orig, d) && s in d.lists && d.lists[s] != [] && t != 0 && s != t
    && (s == 0 <==> Load(d.owner, 0) > 0)
    && (forall h :: h in LiveIn(d.lists) ==> Load(d.owner, t) <= Load(d.owner, h))
    && (s != 0 ==> Load(d.owner, s) >= Load(d.owner, t) + 2 && forall h :: h in LiveIn(d.lists) ==>
       Load(d.owner, h) <= Load(d.owner, s))
    && (LiveIn(d.lists) != {} ==> t in d.lists)
  }

  lemma ChoiceMovable(orig: map<int, int>, d: Deal)
    requires Balancing(orig, d) && Unsettled(d)
    ensures Movable(orig, d, Source(d.lists), Target(d.lists))
  {
    SourceFacts(d);
    TargetFacts(d);
    LenIsLoad(d, Source(d.lists));
    LenIsLoad(d, Target(d.lists));
  }

  /** The giver has received nothing and the receiver has given nothing. */
  lemma MoveDirections(orig: map<int, int>, d: Deal, s: int, t: int)
    requires Movable(orig, d, s, t)
    ensures !Grown(orig, d.owner, s) && !Shrunk(orig, d.owner, t)
  {
    assert GroupOk(orig, d.owner, s) && GroupOk(orig, d.owner, t);
    assert PairOk(orig, d.owner, LiveIn(d.lists), s, t) && PairOk(orig, d.owner, LiveIn(d.lists), t, s);
    if t !in d.lists { assert Held(orig, t) == {}; }
  }

  /** No shard moves twice: the shard that moves still has its original owner. */
  lemma MovedOnce(orig: map<int, int>, d: Deal, s: int, t: int)
    requires Movable(orig, d, s, t)
    ensures d.lists[s][0] in orig && orig[d.lists[s][0]] == s
  {
    MoveDirections(orig, d, s, t);
    MoveHeld(d, s, t, s);
    assert d.lists[s][0] in Held(d.owner, s);
  }

  lemma MoveTrend(orig: map<int, int>, d: Deal, s: int, t: int, g: int)
    requires Movable(orig, d, s, t)
    ensures var owner := MoveOne(d, s, t).owner;
            && (Shrunk(orig, owner, g) <==> g == s || Shrunk(orig, d.owner, g))
            && (Grown(orig, owner, g) <==> g == t || Grown(orig, d.owner, g))
  {
    MoveHeld(d, s, t, g);
    MovedOnce(orig, d, s, t);
    MoveDirections(orig, d, s, t);
    var shard := d.lists[s][0];
    assert shard in Held(orig, s) && shard !in Held(orig, t);
  }

  lemma MovePair(orig: map<int, int>, d: Deal, s: int, t: int, g: int, h: int)
    requires Movable(orig, d, s, t)
    ensures PairOk(orig, MoveOne(d, s, t).owner, LiveIn(d.lists) + {t}, g, h)
  {
    MoveTrend(orig, d, s, t, g);
    MoveTrend(orig, d, s, t, h);
    MoveLoad(d, s, t, g);
    MoveLoad(d, s, t, h);
    var live := LiveIn(d.lists);
    assert PairOk(orig, d.owner, live, g, h);
    assert PairOk(orig, d.owner, live, g, t);
    assert PairOk(orig, d.owner, live, g, s);
    assert PairOk(orig, d.owner, live, h, t);
    assert GroupOk(orig, d.owner, g) && GroupOk(orig, d.owner, h);
  }

  lemma MoveKeeps(orig: map<int, int>, d: Deal, s: int, t: int)
    requires Movable(orig, d, s, t)
    ensures Balancing(orig, MoveOne(d, s, t))
  {
    var next := MoveOne(d, s, t);
    MoveRepresents(d, s, t);
    MoveDirections(orig, d, s, t);
    forall g ensures GroupOk(orig, next.owner, g) {
      MoveTrend(orig, d, s, t, g);
      MoveLoad(d, s, t, 0);
      assert GroupOk(orig, d.owner, g);
    }
    assert LiveIn(next.lists) == LiveIn(d.lists) + {t};
    forall g, h ensures PairOk(orig, next.owner, LiveIn(next.lists), g, h) { MovePair(orig, d, s, t, g, h); }
  }

  // ---------- the loop run to its end ----------

  ghost function Kept(orig: map<int, int>, owner: map<int, int>): set<int> {
    set s | s in orig && s in owner && orig[s] == owner[s]
  }

  ghost function Changed(orig: map<int, int>, owner: map<int, int>): set<int> {
    set s | s in orig && s in owner && orig[s] != owner[s]
  }

  lemma OneMoreChanged(orig: map<int, int>, owner: map<int, int>, shard: int, t: int)
    requires shard in Kept(orig, owner) && owner[shard] != t
    ensures |Changed(orig, owner[shard := t])| == |Changed(orig, owner)| + 1
    ensures |Kept(orig, owner[shard := t])| < |Kept(orig, owner)|
  {
    assert Changed(orig, owner[shard := t]) == Changed(orig, owner) + {shard};
    assert Kept(orig, owner[shard := t]) == Kept(orig, owner) - {shard};
  }

  /** Every move changes the owner of one shard that had not changed owner before. */
  lemma MoveChanges(orig: map<int, int>, d: Deal, s: int, t: int)
    requires Movable(orig, d, s, t)
    ensures |Changed(orig, MoveOne(d, s, t).owner)| == |Changed(orig, d.owner)| + 1
    ensures |Kept(orig, MoveOne(d, s, t).owner)| < |Kept(orig, d.owner)|
  {
    MovedOnce(orig, d, s, t);
    MoveHeld(d, s, t, s);
    OneMoreChanged(orig, d.owner, d.lists[s][0], t);
  }

  /** The deal the loop ends with. It ends because the shards with their original owner dwindle. */
  ghost function Rebalance(orig: map<int, int>, d: Deal): (r: Deal)
    requires Balancing(orig, d)
    ensures Balancing(orig, r) && !Unsettled(r)
    decreases |Kept(orig, d.owner)|
  {
    if !Unsettled(d) then d
    else
      ChoiceMovable(orig, d);
      MoveKeeps(orig, d, Source(d.lists), Target(d.lists));
      MoveChanges(orig, d, Source(d.lists), Target(d.lists));
      Rebalance(orig, MoveOne(d, Source(d.lists), Target(d.lists)))
  }

  /** How many times the loop moves a shard. */
  ghost function Moves(orig: map<int, int>, d: Deal): nat
    requires Balancing(orig, d)
    decreases |Kept(orig, d.owner)|
  {
    if !Unsettled(d) then 0
    else
      ChoiceMovable(orig, d);
      MoveKeeps(orig, d, Source(d.lists), Target(d.lists));
      MoveChanges(orig, d, Source(d.lists), Target(d.lists));
      1 + Moves(orig, MoveOne(d, Source(d.lists), Target(d.lists)))
  }

  lemma {:induction false} MovesCountChanges(orig: map<int, int>, d: Deal)
    requires Balancing(orig, d)
    ensures |Changed(orig, Rebalance(orig, d).owner)| == |Changed(orig, d.owner)| + Moves(orig, d)
    decreases |Kept(orig, d.owner)|
  {
    if Unsettled(d) {
      var s, t := Source(d.lists), Target(d.lists);
      ChoiceMovable(orig, d);
      MoveKeeps(orig, d, s, t);
      MoveChanges(orig, d, s, t);
      MovesCountChanges(orig, MoveOne(d, s, t));
    }
  }

  lemma {:induction false} RebalanceKeys(orig: map<int, int>, d: Deal)
    requires Balancing(orig, d)
    ensures LiveIn(d.lists) != {} ==> Rebalance(orig, d).lists.Keys == d.lists.Keys
    ensures LiveIn(d.lists) == {} ==> LiveIn(Rebalance(orig, d).lists) == {-1}
    decreases |Kept(orig, d.owner)|
  {
    if Unsettled(d) {
      var s, t := Source(d.lists), Target(d.lists);
      ChoiceMovable(orig, d);
      TargetFacts(d);
      MoveKeeps(orig, d, s, t);
      MoveRepresents(d, s, t);
      MoveChanges(orig, d, s, t);
      RebalanceKeys(orig, MoveOne(d, s, t));
    } else {
      SourceFacts(d);
    }
  }

  /** The loop starts from lists of the current assignment. */
  lemma RebalanceStart(orig: map<int, int>, lists: Lists)
    requires Full(Deal(lists, orig))
    ensures Balancing(orig, Deal(lists, orig)) && Changed(orig, orig) == {}
  {
  }

  /** Nothing is left with group 0 and the loads differ by at most one. */
  lemma SettledBalanced(orig: map<int, int>, d: Deal)
    requires Balancing(orig, d) && !Unsettled(d)
    ensures Load(d.owner, 0) == 0
    ensures forall g, h :: g in LiveIn(d.lists) && h in LiveIn(d.lists) ==> Load(d.owner, g) <= Load(d.owner, h) + 1
  {
    SourceFacts(d);
    TargetFacts(d);
    LenIsLoad(d, Source(d.lists));
    LenIsLoad(d, Target(d.lists));
  }

  /** A group that is not group 0 is never emptied. */
  lemma NeverEmptied(orig: map<int, int>, d: Deal, g: int)
    requires Balancing(orig, d) && g != 0 && Load(orig, g) > 0
    ensures Load(d.owner, g) > 0
  {
    var s := AnyOf(Held(orig, g));
    assert s in d.owner;
    var h := d.owner[s];
    assert s in Held(d.owner, h);
    if h != g {
      assert s !in Held(orig, h) && s !in Held(d.owner, g);
      assert PairOk(orig, d.owner, LiveIn(d.lists), g, h);
    }
  }

  /** When the groups were balanced before, only those that were not among them receive. */
  lemma OnlyNewcomersReceive(orig: map<int, int>, d: Deal, old_: set<int>, s: int)
    requires Balancing(orig, d) && s in Changed(orig, d.owner)
    requires forall x :: x in orig ==> orig[x] in old_ && orig[x] != 0
    requires forall g, h :: g in old_ && h in old_ ==> Load(orig, g) <= Load(orig, h) + 1
    ensures d.owner[s] !in old_
  {
    var g, h := orig[s], d.owner[s];
    assert s in Held(orig, g) && s !in Held(d.owner, g) && s in Held(d.owner, h) && s !in Held(orig, h);
    assert PairOk(orig, d.owner, LiveIn(d.lists), g, h);
    assert GroupOk(orig, d.owner, g) && GroupOk(orig, d.owner, h);
    ProperSubsetSize(Held(d.owner, g), Held(orig, g), s);
    if h != 0 { ProperSubsetSize(Held(orig, h), Held(d.owner, h), s); }
  }

  lemma ProperSubsetSize(a: set<int>, b: set<int>, x: int)
    requires a <= b && x in b && x !in a
    ensures |a| < |b|
  {
    SubsetSize(a + {x}, b);
  }
}
