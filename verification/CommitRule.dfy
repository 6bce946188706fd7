/** Which index a leader may commit: insertionSort and the order statistic taken from it. */
module CommitRule {
  import opened Prelude

  ghost predicate Sorted(s: seq<int>) {
    forall i, j :: 0 <= i <= j < |s| ==> s[i] <= s[j]
  }

  /** How many servers match index k or beyond. */
  function AtLeast(s: seq<int>, k: int): nat {
    if s == [] then 0 else (if s[0] >= k then 1 else 0) + AtLeast(s[1..], k)
  }

  lemma {:induction false} AtLeastConcat(s: seq<int>, r: seq<int>, k: int)
    ensures AtLeast(s + r, k) == AtLeast(s, k) + AtLeast(r, k)
  {
    if s == [] {
      assert s + r == r;
    } else {
      AtLeastConcat(s[1..], r, k);
      assert (s + r)[1..] == s[1..] + r;
    }
  }

  lemma {:induction false} AtLeastOfSorted(s: seq<int>, i: nat, k: int)
    requires Sorted(s) && i < |s|
    ensures s[i] >= k ==> AtLeast(s, k) >= |s| - i
    ensures s[i] < k ==> AtLeast(s, k) < |s| - i
  {
    AtLeastConcat(s[..i], s[i..], k);
    assert s == s[..i] + s[i..];
    if s[i] >= k {
      AtLeastAll(s[i..], k);
    } else {
      AtLeastNone(s[..i + 1], k);
      AtLeastConcat(s[..i + 1], s[i + 1..], k);
      AtLeastBound(s[i + 1..], k);
      assert s == s[..i + 1] + s[i + 1..];
    }
  }

  lemma {:induction false} AtLeastAll(s: seq<int>, k: int)
    requires forall i :: 0 <= i < |s| ==> s[i] >= k
    ensures AtLeast(s, k) == |s|
  {
    if s != [] { AtLeastAll(s[1..], k); }
  }

  lemma {:induction false} AtLeastNone(s: seq<int>, k: int)
    requires forall i :: 0 <= i < |s| ==> s[i] < k
    ensures AtLeast(s, k) == 0
  {
    if s != [] { AtLeastNone(s[1..], k); }
  }

  lemma {:induction false} AtLeastBound(s: seq<int>, k: int)
    ensures AtLeast(s, k) <= |s|
  {
    if s != [] { AtLeastBound(s[1..], k); }
  }

  lemma RemoveAt(r: seq<int>, i: nat, k: int)
    requires i < |r|
    ensures multiset(r[..i] + r[i + 1..]) == multiset(r) - multiset{r[i]}
    ensures AtLeast(r, k) == AtLeast(r[..i] + r[i + 1..], k) + (if r[i] >= k then 1 else 0)
  {
    assert r == r[..i] + ([r[i]] + r[i + 1..]);
    AtLeastConcat(r[..i], r[i + 1..], k);
    AtLeastConcat(r[..i], [r[i]] + r[i + 1..], k);
    AtLeastConcat([r[i]], r[i + 1..], k);
  }

  /** Two lists with the same multiset of values have the same counts. */
  lemma {:induction false} AtLeastPermutes(s: seq<int>, r: seq<int>, k: int)
    requires multiset(s) == multiset(r)
    ensures AtLeast(s, k) == AtLeast(r, k)
  {
    if s == [] {
      assert |r| == |multiset(r)| == 0;
    } else {
      assert s[0] in multiset(r);
      var i :| 0 <= i < |r| && r[i] == s[0];
      RemoveAt(r, i, k);
      assert s[..0] + s[1..] == s[1..];
      RemoveAt(s, 0, k);
      AtLeastPermutes(s[1..], r[..i] + r[i + 1..], k);
    }
  }

  /** The servers whose match index reaches k. */
  function Matching(s: seq<int>, k: int): set<nat> {
    set v: nat | v < |s| && s[v] >= k
  }

  lemma {:induction false} MatchingSize(s: seq<int>, k: int)
    ensures |Matching(s, k)| == AtLeast(s, k)
  {
    if s != [] {
      var last := |s| - 1;
      var init := s[..last];
      MatchingSize(init, k);
      assert s == init + [s[last]];
      AtLeastConcat(init, [s[last]], k);
      assert Matching(s, k) == Matching(init, k) + (if s[last] >= k then {last} else {});
    }
  }

  /** m is the highest index that a majority of the servers match. */
  ghost predicate IsMajorityIndex(s: seq<int>, m: int) {
    forall k :: k <= m <==> Quorum(|s|, Matching(s, k))
  }

  lemma MajorityIndexUnique(s: seq<int>, m: int, r: int)
    requires IsMajorityIndex(s, m) && IsMajorityIndex(s, r)
    ensures m == r
  {
    assert m <= r && r <= m by {
      assert Quorum(|s|, Matching(s, m)) && Quorum(|s|, Matching(s, r));
    }
  }

  ghost predicate Permutes(s: seq<int>, r: seq<int>) { multiset(s) == multiset(r) }

  method SwapLeft(sl: array<int>, j: nat)
    requires 1 <= j < sl.Length
    modifies sl
    ensures sl[j] == old(sl[j - 1]) && sl[j - 1] == old(sl[j])
    ensures forall a :: 0 <= a < sl.Length && a != j && a != j - 1 ==> sl[a] == old(sl[a])
    ensures Permutes(sl[..], old(sl[..]))
  {
    sl[j], sl[j - 1] := sl[j - 1], sl[j];
  }

  /** The inner loop: the value at i moves left to its place in the sorted prefix. */
  method SinkLeft(sl: array<int>, i: nat)
    requires 1 <= i < sl.Length
    requires forall a, b :: 0 <= a <= b < i ==> sl[a] <= sl[b]
    modifies sl
    ensures forall a, b :: 0 <= a <= b <= i ==> sl[a] <= sl[b]
    ensures Permutes(sl[..], old(sl[..]))
  {
    var j := i;
    while j > 0 && sl[j] < sl[j - 1]
      invariant 0 <= j <= i
      invariant forall a, b :: 0 <= a <= b <= i && b != j ==> sl[a] <= sl[b]
      invariant Permutes(sl[..], old(sl[..]))
    {
      SwapLeft(sl, j);
      j := j - 1;
    }
  }

  /** In place: smaller values bubble left until the prefix is sorted. */
  method InsertionSort(sl: array<int>)
    modifies sl
    ensures Sorted(sl[..]) && Permutes(sl[..], old(sl[..]))
  {
    var i := 1;
    while i < sl.Length
      invariant 1 <= i
      invariant forall a, b :: 0 <= a <= b < i && b < sl.Length ==> sl[a] <= sl[b]
      invariant Permutes(sl[..], old(sl[..]))
    {
      SinkLeft(sl, i);
      i := i + 1;
    }
  }

  /** The entry a leader reads off the sorted copy of its match indices. */
  method MajorityIndex(matchIndex: seq<int>) returns (m: int)
    requires |matchIndex| >= 1
    ensures IsMajorityIndex(matchIndex, m)
  {
    var n := |matchIndex|;
    var srt := new int[n](i requires 0 <= i < n => matchIndex[i]);
    assert srt[..] == matchIndex;
    InsertionSort(srt);
    m := srt[n - (n / 2 + 1)];
    OrderStatistic(matchIndex, srt[..]);
  }

  /** Position n-(n/2+1) of the sorted list is the highest index a majority matches. */
  lemma OrderStatistic(s: seq<int>, srt: seq<int>)
    requires |s| >= 1 && Sorted(srt) && Permutes(srt, s)
    ensures |srt| == |s| && IsMajorityIndex(s, srt[|s| - (|s| / 2 + 1)])
  {
    var n := |s|;
    assert |multiset(srt)| == |srt| && |multiset(s)| == n;
    var i := n - (n / 2 + 1);
    forall k ensures k <= srt[i] <==> Quorum(n, Matching(s, k)) {
      AtLeastPermutes(srt, s, k);
      MatchingSize(s, k);
      AtLeastOfSorted(srt, i, k);
    }
  }

  lemma QuorumsShrink(s: seq<int>, j: int, k: int)
    requires j <= k && Quorum(|s|, Matching(s, k))
    ensures Quorum(|s|, Matching(s, j))
  {
    SubsetSize(Matching(s, k), Matching(s, j));
  }

  lemma {:induction false} ValueBounds(s: seq<int>) returns (lo: int, hi: int)
    ensures lo <= hi && forall i :: 0 <= i < |s| ==> lo <= s[i] < hi
  {
    if s == [] {
      lo, hi := 0, 0;
    } else {
      lo, hi := ValueBounds(s[1..]);
      lo, hi := Min(lo, s[0]), Max(hi, s[0] + 1);
      assert forall i :: 1 <= i < |s| ==> s[i] == s[1..][i - 1];
    }
  }

  lemma MajorityIndexExists(s: seq<int>) returns (m: int)
    requires |s| >= 1
    ensures IsMajorityIndex(s, m)
  {
    var lo, hi := ValueBounds(s);
    m := hi;
    assert Matching(s, hi) == {} && Matching(s, lo) == Below(|s|);
    while !Quorum(|s|, Matching(s, m))
      invariant lo <= m
      invariant forall k :: m < k ==> !Quorum(|s|, Matching(s, k))
      decreases m - lo
    {
      m := m - 1;
      forall k | m < k ensures !Quorum(|s|, Matching(s, k)) {
        if Quorum(|s|, Matching(s, k)) { QuorumsShrink(s, m + 1, k); }
      }
    }
    forall k ensures k <= m <==> Quorum(|s|, Matching(s, k)) {
      if k <= m { QuorumsShrink(s, k, m); }
    }
  }

  /** The highest index a majority of the servers match. */
  ghost function HighestMatched(s: seq<int>): (m: int)
    requires |s| >= 1
    ensures IsMajorityIndex(s, m)
  {
    assert exists m :: IsMajorityIndex(s, m) by { var m := MajorityIndexExists(s); }
    var m :| IsMajorityIndex(s, m);
    m
  }
}
