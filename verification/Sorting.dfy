/** Sorting by a comparison, as the library sort does, and the order of strings. */
module Sorting {
  import opened Linearizability

  /** A comparison that orders its arguments up to ties. */
  ghost predicate WeakOrder<T(!new)>(less: (T, T) -> bool) {
    && (forall a, b :: less(a, b) ==> !less(b, a))
    && (forall a, b, c :: less(a, c) ==> less(a, b) || less(b, c))
  }

  ghost predicate Sorted<T>(less: (T, T) -> bool, s: seq<T>) {
    forall i, j :: 0 <= i < j < |s| ==> !less(s[j], s[i])
  }

  ghost predicate IsSortOf<T>(less: (T, T) -> bool, s: seq<T>, r: seq<T>) {
    Sorted(less, r) && multiset(r) == multiset(s)
  }

  function Insert<T(!new)>(less: (T, T) -> bool, x: T, s: seq<T>): (r: seq<T>)
    requires WeakOrder(less) && Sorted(less, s)
    ensures IsSortOf(less, [x] + s, r)
  {
    if s == [] then [x]
    else if less(s[0], x) then
      var rest := Insert(less, x, s[1..]);
      assert s == [s[0]] + s[1..];
      assert forall i :: 0 <= i < |rest| ==> rest[i] in multiset([x] + s[1..]);
      [s[0]] + rest
    else
      assert forall j :: 1 <= j < |s| ==> !less(s[j], s[0]);
      [x] + s
  }

  function Sort<T(!new)>(less: (T, T) -> bool, s: seq<T>): (r: seq<T>)
    requires WeakOrder(less)
    ensures IsSortOf(less, s, r)
  {
    if s == [] then []
    else
      assert s == [s[0]] + s[1..];
      Insert(less, s[0], Sort(less, s[1..]))
  }

  // ---------- permutations ----------

  lemma SameMultisetSameElems<T>(s: seq<T>, r: seq<T>)
    requires multiset(r) == multiset(s)
    ensures |r| == |s| && forall x :: x in r <==> x in s
  {
    assert |multiset(r)| == |r| && |multiset(s)| == |s|;
    forall x ensures x in r <==> x in s { assert x in multiset(r) <==> x in multiset(s); }
  }

  lemma {:induction false} DistinctCountsOne<T>(s: seq<T>, x: T)
    requires Distinct(s)
    ensures multiset(s)[x] <= 1
  {
    if s != [] {
      DistinctCountsOne(s[1..], x);
      assert s == [s[0]] + s[1..];
      assert s[0] !in s[1..];
      assert multiset(s[1..])[s[0]] == 0;
    }
  }

  lemma RepeatCountsTwo<T>(s: seq<T>, i: nat, j: nat)
    requires i < j < |s| && s[i] == s[j]
    ensures multiset(s)[s[i]] >= 2
  {
    assert s == s[..j] + s[j..];
    assert s[..j][i] in s[..j] && s[j..][0] in s[j..];
    assert s[i] in multiset(s[..j]) && s[i] in multiset(s[j..]);
  }

  lemma PermutedDistinct<T>(s: seq<T>, r: seq<T>)
    requires multiset(r) == multiset(s) && Distinct(s)
    ensures Distinct(r)
  {
    forall i, j | 0 <= i < j < |r| ensures r[i] != r[j] {
      if r[i] == r[j] {
        RepeatCountsTwo(r, i, j);
        DistinctCountsOne(s, r[i]);
      }
    }
  }

  // ---------- strings ----------

  predicate StringLess(a: string, b: string) {
    if b == "" then false
    else if a == "" then true
    else a[0] < b[0] || (a[0] == b[0] && StringLess(a[1..], b[1..]))
  }

  lemma {:induction false} StringLessAsymmetric(a: string, b: string)
    ensures StringLess(a, b) ==> !StringLess(b, a)
  {
    if a != "" && b != "" { StringLessAsymmetric(a[1..], b[1..]); }
  }

  lemma {:induction false} StringLessSplits(a: string, b: string, c: string)
    ensures StringLess(a, c) ==> StringLess(a, b) || StringLess(b, c)
  {
    if a != "" && b != "" && c != "" { StringLessSplits(a[1..], b[1..], c[1..]); }
  }

  lemma {:induction false} StringLessTotal(a: string, b: string)
    ensures StringLess(a, b) || StringLess(b, a) || a == b
  {
    if a != "" && b != "" {
      StringLessTotal(a[1..], b[1..]);
      assert a == [a[0]] + a[1..] && b == [b[0]] + b[1..];
    }
  }

  /** The strings agree up to i, where one ends or the first has the smaller character. */
  predicate DiffersAt(a: string, b: string, i: nat) {
    && i <= |a| && i < |b| && a[..i] == b[..i]
    && (i == |a| || a[i] < b[i])
  }

  /** The order is the lexicographic one. */
  lemma {:induction false} StringLessMeans(a: string, b: string)
    ensures StringLess(a, b) <==> exists i: nat :: DiffersAt(a, b, i)
  {
    if b != "" && a == "" {
      assert DiffersAt(a, b, 0);
    } else if a != "" && b != "" {
      if a[0] < b[0] {
        assert DiffersAt(a, b, 0);
      } else {
        StringLessMeans(a[1..], b[1..]);
        if a[0] == b[0] && StringLess(a, b) {
          var i: nat :| DiffersAt(a[1..], b[1..], i);
          DiffersLater(a, b, i);
        }
        if i: nat :| DiffersAt(a, b, i) {
          assert i > 0;
          assert a[..i][0] == a[0] && b[..i][0] == b[0];
          assert a[1..][..i - 1] == a[..i][1..] && b[1..][..i - 1] == b[..i][1..];
          assert DiffersAt(a[1..], b[1..], i - 1);
        }
      }
    }
  }

  lemma DiffersLater(a: string, b: string, i: nat)
    requires a != "" && b != "" && a[0] == b[0] && DiffersAt(a[1..], b[1..], i)
    ensures DiffersAt(a, b, i + 1)
  {
    assert a[..i + 1] == [a[0]] + a[1..][..i] && b[..i + 1] == [b[0]] + b[1..][..i];
  }

  lemma StringsOrdered()
    ensures WeakOrder(StringLess)
  {
    forall a, b ensures StringLess(a, b) ==> !StringLess(b, a) { StringLessAsymmetric(a, b); }
    forall a, b, c ensures StringLess(a, c) ==> StringLess(a, b) || StringLess(b, c) { StringLessSplits(a, b, c); }
  }

  /** Sorting distinct strings leaves them strictly increasing. */
  lemma SortedStringsIncrease(s: seq<string>, i: nat, j: nat)
    requires Sorted(StringLess, s) && Distinct(s) && i < j < |s|
    ensures StringLess(s[i], s[j])
  {
    StringLessTotal(s[i], s[j]);
  }

  // ---------- map keys ----------

  /** The keys of a map, in whatever order it is walked. */
  method KeyList<K(==), V>(m: map<K, V>) returns (keys: seq<K>)
    ensures Distinct(keys) && Elems(keys) == m.Keys
  {
    keys := [];
    var left := m.Keys;
    while left != {}
      invariant left <= m.Keys && Distinct(keys) && Elems(keys) == m.Keys - left
      decreases left
    {
      var k :| k in left;
      assert forall i :: 0 <= i < |keys| ==> keys[i] in Elems(keys);
      assert Elems(keys + [k]) == Elems(keys) + {k};
      keys := keys + [k];
      left := left - {k};
    }
  }

  predicate IntLess(a: int, b: int) { a < b }

  /** The integer keys of a map in increasing order. */
  method SortedKeys<V>(m: map<int, V>) returns (keys: seq<int>)
    ensures Elems(keys) == m.Keys && forall i, j :: 0 <= i < j < |keys| ==> keys[i] < keys[j]
  {
    keys := KeyList(m);
    ghost var before := keys;
    keys := Sort(IntLess, keys);
    SameMultisetSameElems(before, keys);
    PermutedDistinct(before, keys);
    forall i, j | 0 <= i < j < |keys| ensures keys[i] < keys[j] {
      assert !IntLess(keys[j], keys[i]) && keys[i] != keys[j];
    }
  }
}
