/** Map, shuffle, merge, group and reduce, and the sequential program as their meaning. */
module MrData {
  import opened Linearizability
  import opened Sorting

  datatype KeyValue = KeyValue(key: string, value: string)

  datatype Line = Line(key: string, output: string)

  datatype Input = Input(name: string, content: string)

  /** A job: the application's functions, the hash of keys and the number of reducers. */
  datatype Job = Job(mapf: (string, string) -> seq<KeyValue>, reducef: (string, seq<string>) -> string,
                     ihash: string -> nat, inputs: seq<Input>, nReduce: nat)

  /** The reduce function does not look at the order of the values. */
  ghost predicate OrderInsensitive(reducef: (string, seq<string>) -> string) {
    forall k, a, b :: multiset(a) == multiset(b) ==> reducef(k, a) == reducef(k, b)
  }

  predicate KeyLess(a: KeyValue, b: KeyValue) { StringLess(a.key, b.key) }

  lemma PairsOrdered()
    ensures WeakOrder(KeyLess)
  {
    StringsOrdered();
    forall a, b ensures KeyLess(a, b) ==> !KeyLess(b, a) { StringLessAsymmetric(a.key, b.key); }
    forall a, b, c ensures KeyLess(a, c) ==> KeyLess(a, b) || KeyLess(b, c) { StringLessSplits(a.key, b.key, c.key); }
  }

  // ---------- the meaning of a list of pairs ----------

  function ValuesOf(s: seq<KeyValue>, k: string): seq<string> {
    if s == [] then []
    else
      var n := |s| - 1;
      ValuesOf(s[..n], k) + (if s[n].key == k then [s[n].value] else [])
  }

  ghost function KeysIn(s: seq<KeyValue>): set<string> { set i | 0 <= i < |s| :: s[i].key }

  /** One line per key, reducing all the values of that key. */
  ghost function Reference(reducef: (string, seq<string>) -> string, s: seq<KeyValue>): set<Line> {
    set k | k in KeysIn(s) :: Line(k, reducef(k, ValuesOf(s, k)))
  }

  lemma {:induction false} ValuesConcat(s: seq<KeyValue>, t: seq<KeyValue>, k: string)
    ensures ValuesOf(s + t, k) == ValuesOf(s, k) + ValuesOf(t, k)
  {
    if t == [] {
      assert s + t == s;
    } else {
      var n := |t| - 1;
      ValuesConcat(s, t[..n], k);
      assert (s + t)[..|s + t| - 1] == s + t[..n];
    }
  }

  lemma {:induction false} ValuesNone(s: seq<KeyValue>, k: string)
    requires k !in KeysIn(s)
    ensures ValuesOf(s, k) == []
  {
    if s != [] {
      var n := |s| - 1;
      assert s[n].key in KeysIn(s);
      assert forall i :: 0 <= i < n ==> s[..n][i].key in KeysIn(s);
      ValuesNone(s[..n], k);
    }
  }

  lemma {:induction false} ValuesCount(s: seq<KeyValue>, k: string, v: string)
    ensures multiset(ValuesOf(s, k))[v] == multiset(s)[KeyValue(k, v)]
  {
    if s != [] {
      var n := |s| - 1;
      ValuesCount(s[..n], k, v);
      assert s == s[..n] + [s[n]];
    }
  }

  // ---------- grouping ----------

  /** One line per key of s, in increasing order of the keys. */
  ghost predicate Reports(reducef: (string, seq<string>) -> string, s: seq<KeyValue>, lines: seq<Line>) {
    && (forall a, b :: 0 <= a < b < |lines| ==> StringLess(lines[a].key, lines[b].key))
    && (forall a :: 0 <= a < |lines| ==>
       lines[a].key in KeysIn(s) && lines[a].output == reducef(lines[a].key, ValuesOf(s, lines[a].key)))
    && (forall k :: k in KeysIn(s) ==> Line(k, reducef(k, ValuesOf(s, k))) in lines)
  }

  lemma NotLessThanItself(k: string)
    ensures !StringLess(k, k)
  {
    StringLessAsymmetric(k, k);
  }

  lemma DistinctMultiset<T>(s: seq<T>)
    requires Distinct(s)
    ensures multiset(s) == multiset(Elems(s))
  {
    forall x ensures multiset(s)[x] == multiset(Elems(s))[x] {
      DistinctCountsOne(s, x);
      assert x in Elems(s) <==> x in multiset(s);
    }
  }

  lemma ReportsReference(reducef: (string, seq<string>) -> string, s: seq<KeyValue>, lines: seq<Line>)
    requires Reports(reducef, s, lines)
    ensures multiset(lines) == multiset(Reference(reducef, s))
  {
    forall a, b | 0 <= a < b < |lines| ensures lines[a] != lines[b] { NotLessThanItself(lines[a].key); }
    DistinctMultiset(lines);
    assert Elems(lines) == Reference(reducef, s);
  }

  ghost predicate SortedPairs(kvs: seq<KeyValue>) { Sorted(KeyLess, kvs) }

  /** The run of equal keys that starts at i. */
  method CollectRun(kvs: seq<KeyValue>, i: nat) returns (j: nat, values: seq<string>)
    requires i < |kvs|
    ensures i < j <= |kvs| && (forall x :: i <= x < j ==> kvs[x].key == kvs[i].key)
    ensures j < |kvs| ==> kvs[j].key != kvs[i].key
    ensures values == ValuesOf(kvs[i..j], kvs[i].key)
  {
    j := i + 1;
    while j < |kvs| && kvs[j].key == kvs[i].key
      invariant i < j <= |kvs| && forall x :: i <= x < j ==> kvs[x].key == kvs[i].key
    {
      j := j + 1;
    }
    values := [];
    for k := i to j
      invariant values == ValuesOf(kvs[i..k], kvs[i].key)
    {
      assert kvs[i..k + 1][..k - i] == kvs[i..k];
      values := values + [kvs[k].value];
    }
  }

  /** Nothing after the run has its key, or a smaller one. */
  lemma RunBoundary(kvs: seq<KeyValue>, i: nat, j: nat, a: nat, b: nat)
    requires SortedPairs(kvs) && i < j <= b < |kvs| && a < j
    requires (forall x :: i <= x < j ==> kvs[x].key == kvs[i].key) && kvs[j].key != kvs[i].key
    requires a < i ==> StringLess(kvs[a].key, kvs[i].key)
    ensures StringLess(kvs[a].key, kvs[b].key)
  {
    assert !KeyLess(kvs[j], kvs[i]) && (j < b ==> !KeyLess(kvs[b], kvs[j]));
    StringLessTotal(kvs[i].key, kvs[j].key);
    StringLessSplits(kvs[i].key, kvs[b].key, kvs[j].key);
    if a < i { StringLessSplits(kvs[a].key, kvs[b].key, kvs[i].key); StringLessAsymmetric(kvs[i].key, kvs[b].key); }
  }

  /** Lines so far: everything before i is reported, and its keys are all below those from i on. */
  ghost predicate GroupedUpTo(reducef: (string, seq<string>) -> string, kvs: seq<KeyValue>, i: nat, lines: seq<Line>) {
    && i <= |kvs| && Reports(reducef, kvs[..i], lines)
    && forall a, b :: 0 <= a < i <= b < |kvs| ==> StringLess(kvs[a].key, kvs[b].key)
  }

  lemma RunValues(kvs: seq<KeyValue>, i: nat, j: nat, k: string)
    requires i < j <= |kvs| && (forall x :: i <= x < j ==> kvs[x].key == kvs[i].key) && kvs[i].key !in KeysIn(kvs[..i])
    ensures ValuesOf(kvs[..j], k) == if k == kvs[i].key then ValuesOf(kvs[i..j], k) else ValuesOf(kvs[..i], k)
    ensures KeysIn(kvs[..j]) == KeysIn(kvs[..i]) + {kvs[i].key}
  {
    assert kvs[..j] == kvs[..i] + kvs[i..j];
    ValuesConcat(kvs[..i], kvs[i..j], k);
    if k == kvs[i].key { ValuesNone(kvs[..i], k); } else { ValuesNone(kvs[i..j], k); }
    forall x ensures x in KeysIn(kvs[..j]) <==> x in KeysIn(kvs[..i]) || x == kvs[i].key {
      if x in KeysIn(kvs[..i]) {
        var a :| 0 <= a < i && kvs[..i][a].key == x;
        assert kvs[..j][a].key == x;
      }
      if x == kvs[i].key { assert kvs[..j][i].key == x; }
      if x in KeysIn(kvs[..j]) {
        var a :| 0 <= a < j && kvs[..j][a].key == x;
        if a < i { assert kvs[..i][a].key == x; }
      }
    }
  }

  lemma KeyNotBefore(kvs: seq<KeyValue>, i: nat)
    requires i < |kvs| && forall a :: 0 <= a < i ==> StringLess(kvs[a].key, kvs[i].key)
    ensures kvs[i].key !in KeysIn(kvs[..i])
  {
    NotLessThanItself(kvs[i].key);
  }

  lemma GroupReported(reducef: (string, seq<string>) -> string, kvs: seq<KeyValue>, i: nat, j: nat, lines: seq<Line>)
    requires GroupedUpTo(reducef, kvs, i, lines) && SortedPairs(kvs) && i < j <= |kvs|
    requires forall x :: i <= x < j ==> kvs[x].key == kvs[i].key
    ensures Reports(reducef, kvs[..j], lines + [Line(kvs[i].key, reducef(kvs[i].key, ValuesOf(kvs[i..j], kvs[i].key)))])
  {
    KeyNotBefore(kvs, i);
    var key := kvs[i].key;
    forall k ensures ValuesOf(kvs[..j], k) == if k == key then ValuesOf(kvs[i..j], k) else ValuesOf(kvs[..i], k) {
      RunValues(kvs, i, j, k);
    }
    RunValues(kvs, i, j, key);
    forall a | 0 <= a < |lines| ensures StringLess(lines[a].key, key) && lines[a].key != key {
      var x :| 0 <= x < i && kvs[..i][x].key == lines[a].key;
      assert StringLess(kvs[x].key, kvs[i].key);
    }
    var more := lines + [Line(key, reducef(key, ValuesOf(kvs[i..j], key)))];
    forall k | k in KeysIn(kvs[..j]) ensures Line(k, reducef(k, ValuesOf(kvs[..j], k))) in more {
      if k == key { assert more[|lines|] in more; }
    }
  }

  lemma GroupNext(reducef: (string, seq<string>) -> string, kvs: seq<KeyValue>, i: nat, j: nat, lines: seq<Line>)
    requires GroupedUpTo(reducef, kvs, i, lines) && SortedPairs(kvs) && i < j <= |kvs|
    requires (forall x :: i <= x < j ==> kvs[x].key == kvs[i].key) && (j < |kvs| ==> kvs[j].key != kvs[i].key)
    ensures GroupedUpTo(reducef, kvs, j,
            lines + [Line(kvs[i].key, reducef(kvs[i].key, ValuesOf(kvs[i..j], kvs[i].key)))])
  {
    GroupReported(reducef, kvs, i, j, lines);
    forall a, b | 0 <= a < j <= b < |kvs| ensures StringLess(kvs[a].key, kvs[b].key) { RunBoundary(kvs, i, j, a, b); }
  }

  /** Every run of equal keys ends somewhere. */
  lemma {:induction false} RunEnds(kvs: seq<KeyValue>, i: nat, from: nat) returns (j: nat)
    requires i < from <= |kvs| && forall x :: i <= x < from ==> kvs[x].key == kvs[i].key
    ensures i < j <= |kvs| && (forall x :: i <= x < j ==> kvs[x].key == kvs[i].key)
    ensures j < |kvs| ==> kvs[j].key != kvs[i].key
    decreases |kvs| - from
  {
    if from < |kvs| && kvs[from].key == kvs[i].key { j := RunEnds(kvs, i, from + 1); } else { j := from; }
  }

  /** So every sorted list has lines. */
  lemma LinesExist(reducef: (string, seq<string>) -> string, kvs: seq<KeyValue>) returns (lines: seq<Line>)
    requires SortedPairs(kvs)
    ensures Reports(reducef, kvs, lines)
  {
    lines := [];
    var i := 0;
    while i < |kvs|
      invariant GroupedUpTo(reducef, kvs, i, lines)
    {
      var j := RunEnds(kvs, i, i + 1);
      GroupNext(reducef, kvs, i, j, lines);
      lines := lines + [Line(kvs[i].key, reducef(kvs[i].key, ValuesOf(kvs[i..j], kvs[i].key)))];
      i := j;
    }
    assert kvs[..|kvs|] == kvs;
  }

  /** Reduces each run of equal keys of a sorted list. */
  method GroupAndReduce(reducef: (string, seq<string>) -> string, kvs: seq<KeyValue>) returns (lines: seq<Line>)
    requires SortedPairs(kvs)
    ensures Reports(reducef, kvs, lines)
  {
    lines := [];
    var i := 0;
    while i < |kvs|
      invariant GroupedUpTo(reducef, kvs, i, lines)
    {
      var j, values := CollectRun(kvs, i);
      var output := reducef(kvs[i].key, values);
      GroupNext(reducef, kvs, i, j, lines);
      lines := lines + [Line(kvs[i].key, output)];
      i := j;
    }
    assert kvs[..|kvs|] == kvs;
  }
}
