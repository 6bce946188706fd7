/** Rebalancing moves as few shards as any balanced assignment allows. */
module ShardOptimal {
  import opened Prelude
  import opened Linearizability
  import opened ShardDeal

  ghost function Sum(xs: seq<int>): int {
    if xs == [] then 0 else Sum(xs[..|xs| - 1]) + xs[|xs| - 1]
  }

  lemma {:induction false} SumExchange(u: seq<int>, f: seq<int>, v: seq<int>, g: seq<int>)
    requires |u| == |f| == |v| == |g| && forall i :: 0 <= i < |u| ==> u[i] + f[i] <= v[i] + g[i]
    ensures Sum(u) + Sum(f) <= Sum(v) + Sum(g)
  {
    if u != [] {
      var n := |u| - 1;
      SumExchange(u[..n], f[..n], v[..n], g[..n]);
    }
  }

  lemma {:induction false} SumLess(xs: seq<int>, ys: seq<int>, j: nat)
    requires |xs| == |ys| && j < |xs| && xs[j] < ys[j] && forall i :: 0 <= i < |xs| ==> xs[i] <= ys[i]
    ensures Sum(xs) < Sum(ys)
  {
    var n := |xs| - 1;
    if j < n {
      SumLess(xs[..n], ys[..n], j);
    } else {
      SumExchange(xs[..n], ys[..n], ys[..n], ys[..n]);
    }
  }

  ghost function Loads(owner: map<int, int>, groups: seq<int>): (r: seq<int>)
    ensures |r| == |groups| && forall i :: 0 <= i < |r| ==> r[i] == Load(owner, groups[i])
  {
    seq(|groups|, i requires 0 <= i < |groups| => Load(owner, groups[i]))
  }

  /** Shards held by one of the groups. */
  ghost function HeldBy(owner: map<int, int>, groups: seq<int>): set<int> {
    set s | s in owner && owner[s] in groups
  }

  lemma {:induction false} LoadsSum(owner: map<int, int>, groups: seq<int>)
    requires Distinct(groups)
    ensures Sum(Loads(owner, groups)) == |HeldBy(owner, groups)|
  {
    if groups == [] {
      assert HeldBy(owner, groups) == {};
    } else {
      var n := |groups| - 1;
      LoadsSum(owner, groups[..n]);
      assert Loads(owner, groups)[..n] == Loads(owner, groups[..n]);
      assert forall g :: g in groups <==> g in groups[..n] || g == groups[n];
      assert groups[n] !in groups[..n];
      assert HeldBy(owner, groups) == HeldBy(owner, groups[..n]) + Held(owner, groups[n]);
      assert HeldBy(owner, groups[..n]) * Held(owner, groups[n]) == {};
    }
  }

  /** The shards two assignments agree on. */
  ghost function Common(orig: map<int, int>, owner: map<int, int>): (r: map<int, int>)
    ensures r.Keys == Kept(orig, owner)
  {
    map s | s in orig && s in owner && orig[s] == owner[s] :: owner[s]
  }

  lemma CommonLoad(orig: map<int, int>, owner: map<int, int>, g: int)
    ensures Load(Common(orig, owner), g) <= Min(Load(orig, g), Load(owner, g))
    ensures !(Shrunk(orig, owner, g) && Grown(orig, owner, g)) ==>
              Load(Common(orig, owner), g) == Min(Load(orig, g), Load(owner, g))
  {
    var c := Held(Common(orig, owner), g);
    assert c == Held(orig, g) * Held(owner, g);
    SubsetSize(c, Held(orig, g));
    SubsetSize(c, Held(owner, g));
    if Held(orig, g) <= Held(owner, g) { assert c == Held(orig, g); }
    if Held(owner, g) <= Held(orig, g) { assert c == Held(owner, g); }
  }

  /** All shards are with the groups, and no group has two more than another. */
  ghost predicate Balanced(owner: map<int, int>, live: set<int>) {
    && (forall s :: s in owner ==> owner[s] in live)
    && (forall g, h :: g in live && h in live ==> Load(owner, g) <= Load(owner, h) + 1)
  }

  lemma {:induction false} ListOfSet(s: set<int>) returns (l: seq<int>)
    ensures Distinct(l) && Elems(l) == s
    decreases s
  {
    if s == {} {
      l := [];
    } else {
      var x := AnyOf(s);
      var rest := ListOfSet(s - {x});
      l := rest + [x];
      assert forall i :: 0 <= i < |rest| ==> rest[i] in Elems(rest);
      assert Elems(l) == Elems(rest) + {x};
    }
  }

  lemma TotalLoad(owner: map<int, int>, groups: seq<int>)
    requires Distinct(groups) && owner.Keys == AllShards() && Balanced(owner, Elems(groups))
    ensures Sum(Loads(owner, groups)) == NSHARDS
  {
    LoadsSum(owner, groups);
    assert forall s :: s in owner ==> owner[s] in Elems(groups);
    assert HeldBy(owner, groups) == owner.Keys;
    AllShardsSize();
  }

  /** Two balanced load vectors with the same total lie in the same interval of two. */
  lemma SameRange(f: seq<int>, g: seq<int>, m: int)
    requires |f| == |g| && Sum(f) == Sum(g)
    requires forall i :: 0 <= i < |f| ==> m <= f[i] <= m + 1
    requires forall i, j :: 0 <= i < |g| && 0 <= j < |g| ==> g[i] <= g[j] + 1
    ensures forall i :: 0 <= i < |g| ==> m <= g[i] <= m + 1
  {
    forall j | 0 <= j < |g| ensures m <= g[j] <= m + 1 {
      if g[j] < m { SumLess(g, f, j); }
      if g[j] > m + 1 { SumLess(f, g, j); }
    }
  }

  /** Loads a before, f after, with kept shards c; g is another balanced outcome keeping d. */
  lemma KeepsMost(a: seq<int>, f: seq<int>, c: seq<int>, g: seq<int>, d: seq<int>, m: int)
    requires |a| == |f| == |c| == |g| == |d| && Sum(f) == Sum(g)
    requires forall i :: 0 <= i < |f| ==> m <= f[i] <= m + 1 && m <= g[i] <= m + 1
    requires forall i :: 0 <= i < |f| ==> c[i] == Min(a[i], f[i]) && d[i] <= Min(a[i], g[i])
    requires forall i, j :: 0 <= i < |f| && 0 <= j < |f| && f[i] < a[i] && a[j] < f[j] ==> f[j] <= f[i]
    ensures Sum(d) <= Sum(c)
  {
    if i :| 0 <= i < |f| && GaveToLevel(a, f, m, i) {
      KeepsMostGiven(a, f, c, g, d, m, i);
    } else {
      forall j | 0 <= j < |f| ensures d[j] + f[j] <= c[j] + f[j] {
        assert !GaveToLevel(a, f, m, j);
        NoGiverBelow(a[j], f[j], c[j], g[j], d[j], m);
      }
      SumExchange(d, f, c, f);
    }
  }

  lemma KeepsMostGiven(a: seq<int>, f: seq<int>, c: seq<int>, g: seq<int>, d: seq<int>, m: int, i: nat)
    requires |a| == |f| == |c| == |g| == |d| && Sum(f) == Sum(g) && i < |f| && GaveToLevel(a, f, m, i)
    requires forall j :: 0 <= j < |f| ==> m <= f[j] <= m + 1 && m <= g[j] <= m + 1
    requires forall j :: 0 <= j < |f| ==> c[j] == Min(a[j], f[j]) && d[j] <= Min(a[j], g[j])
    requires forall j :: 0 <= j < |f| && a[j] < f[j] ==> f[j] <= f[i]
    ensures Sum(d) <= Sum(c)
  {
    forall j | 0 <= j < |f| ensures d[j] + f[j] <= c[j] + g[j] { NoReceiverAbove(a[j], f[j], c[j], g[j], d[j], m); }
    SumExchange(d, f, c, g);
  }

  /** Group i gave shards away until it held only m. */
  predicate GaveToLevel(a: seq<int>, f: seq<int>, m: int, i: int)
    requires |a| == |f| && 0 <= i < |f|
  {
    f[i] < a[i] && f[i] == m
  }

  lemma NoReceiverAbove(a: int, f: int, c: int, g: int, d: int, m: int)
    requires m <= f <= m + 1 && m <= g && c == Min(a, f) && d <= Min(a, g) && (a < f ==> f <= m)
    ensures d + f <= c + g
  {
  }

  lemma NoGiverBelow(a: int, f: int, c: int, g: int, d: int, m: int)
    requires m <= f <= m + 1 && g <= m + 1 && c == Min(a, f) && d <= Min(a, g) && !(f < a && f == m)
    ensures d <= c
  {
  }

  /** No balanced assignment to the same groups changes the owner of fewer shards. */
  lemma MovesFewest(orig: map<int, int>, r: Deal, other: map<int, int>)
    requires Balancing(orig, r) && !Unsettled(r)
    requires other.Keys == AllShards() && Balanced(other, LiveIn(r.lists))
    ensures Balanced(r.owner, LiveIn(r.lists))
    ensures |Changed(orig, r.owner)| <= |Changed(orig, other)|
  {
    SettledIsBalanced(orig, r);
    var groups := ListOfSet(LiveIn(r.lists));
    TotalLoad(r.owner, groups);
    TotalLoad(other, groups);
    KeepsMostGroups(orig, r, other, groups);
    KeptByGroups(orig, r.owner, groups);
    KeptByGroups(orig, other, groups);
    KeptAndChanged(orig, r.owner);
    KeptAndChanged(orig, other);
  }

  lemma SettledIsBalanced(orig: map<int, int>, r: Deal)
    requires Balancing(orig, r) && !Unsettled(r)
    ensures Balanced(r.owner, LiveIn(r.lists))
  {
    SettledBalanced(orig, r);
    forall s | s in r.owner ensures r.owner[s] in LiveIn(r.lists) {
      assert s in Held(r.owner, r.owner[s]);
      assert r.owner[s] in r.lists;
    }
  }

  lemma KeptByGroups(orig: map<int, int>, owner: map<int, int>, groups: seq<int>)
    requires Distinct(groups) && Balanced(owner, Elems(groups))
    ensures Sum(Loads(Common(orig, owner), groups)) == |Kept(orig, owner)|
  {
    LoadsSum(Common(orig, owner), groups);
    assert forall s :: s in owner ==> owner[s] in Elems(groups);
    assert HeldBy(Common(orig, owner), groups) == Kept(orig, owner);
  }

  lemma KeptAndChanged(orig: map<int, int>, owner: map<int, int>)
    requires orig.Keys == owner.Keys
    ensures |Kept(orig, owner)| + |Changed(orig, owner)| == |orig.Keys|
  {
    assert orig.Keys == Kept(orig, owner) + Changed(orig, owner);
    assert Kept(orig, owner) * Changed(orig, owner) == {};
  }

  lemma CommonRange(owner: map<int, int>, other: map<int, int>, groups: seq<int>) returns (m: int)
    requires groups != [] && Balanced(owner, Elems(groups)) && Balanced(other, Elems(groups))
    requires Sum(Loads(owner, groups)) == Sum(Loads(other, groups))
    ensures forall i :: 0 <= i < |groups| ==>
              m <= Loads(owner, groups)[i] <= m + 1 && m <= Loads(other, groups)[i] <= m + 1
  {
    assert forall i :: 0 <= i < |groups| ==> groups[i] in Elems(groups);
    m := Least(Loads(owner, groups));
    SameRange(Loads(owner, groups), Loads(other, groups), m);
  }

  lemma KeepsMostGroups(orig: map<int, int>, r: Deal, other: map<int, int>, groups: seq<int>)
    requires Balancing(orig, r) && Elems(groups) == LiveIn(r.lists)
    requires Balanced(r.owner, LiveIn(r.lists)) && Balanced(other, LiveIn(r.lists))
    requires Sum(Loads(r.owner, groups)) == Sum(Loads(other, groups))
    ensures Sum(Loads(Common(orig, other), groups)) <= Sum(Loads(Common(orig, r.owner), groups))
  {
    var a, f, g := Loads(orig, groups), Loads(r.owner, groups), Loads(other, groups);
    var c, d := Loads(Common(orig, r.owner), groups), Loads(Common(orig, other), groups);
    assert forall i :: 0 <= i < |groups| ==> groups[i] in Elems(groups);
    forall i | 0 <= i < |groups| ensures c[i] == Min(a[i], f[i]) && d[i] <= Min(a[i], g[i]) {
      assert GroupOk(orig, r.owner, groups[i]);
      CommonLoad(orig, r.owner, groups[i]);
      CommonLoad(orig, other, groups[i]);
    }
    forall i, j | 0 <= i < |f| && 0 <= j < |f| && f[i] < a[i] && a[j] < f[j] ensures f[j] <= f[i] {
      GiverAboveReceiver(orig, r, groups[i], groups[j]);
    }
    if groups != [] {
      var m := CommonRange(r.owner, other, groups);
      KeepsMost(a, f, c, g, d, m);
    }
  }

  lemma GiverAboveReceiver(orig: map<int, int>, r: Deal, g: int, h: int)
    requires Balancing(orig, r) && g != 0 && Load(r.owner, g) < Load(orig, g) && Load(orig, h) < Load(r.owner, h)
    ensures Load(r.owner, h) <= Load(r.owner, g)
  {
    LessLoadIsShrunk(orig, r.owner, g);
    LessLoadIsShrunk(r.owner, orig, h);
    assert PairOk(orig, r.owner, LiveIn(r.lists), g, h);
  }

  lemma LessLoadIsShrunk(orig: map<int, int>, owner: map<int, int>, g: int)
    requires Load(owner, g) < Load(orig, g)
    ensures Shrunk(orig, owner, g)
  {
    if Held(orig, g) <= Held(owner, g) { SubsetSize(Held(orig, g), Held(owner, g)); }
  }

  lemma {:induction false} Least(f: seq<int>) returns (m: int)
    requires f != []
    ensures m in f && forall i :: 0 <= i < |f| ==> m <= f[i]
  {
    if |f| == 1 {
      m := f[0];
    } else {
      m := Least(f[1..]);
      assert forall i :: 1 <= i < |f| ==> f[i] == f[1..][i - 1];
      if f[0] < m { m := f[0]; }
    }
  }
}
