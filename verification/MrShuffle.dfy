/** A job's tasks, and why their outputs together are those of the sequential program. */
module MrShuffle {
  import opened Sorting
  import opened MrData

  function BucketOf(job: Job, key: string): nat
    requires job.nReduce > 0
  {
    job.ihash(key) % job.nReduce
  }

  /** The pairs that go to reducer r. */
  function Bucket(job: Job, s: seq<KeyValue>, r: nat): seq<KeyValue>
    requires job.nReduce > 0
  {
    if s == [] then []
    else
      var n := |s| - 1;
      Bucket(job, s[..n], r) + (if BucketOf(job, s[n].key) == r then [s[n]] else [])
  }

  function Flatten(parts: seq<seq<KeyValue>>): seq<KeyValue> {
    if parts == [] then [] else Flatten(parts[..|parts| - 1]) + parts[|parts| - 1]
  }

  function Mapped(job: Job, i: nat): seq<KeyValue>
    requires i < |job.inputs|
  {
    job.mapf(job.inputs[i].name, job.inputs[i].content)
  }

  /** What map emits for every input, in the order of the inputs. */
  function AllMapped(job: Job): (r: seq<seq<KeyValue>>)
    ensures |r| == |job.inputs|
    ensures forall i :: 0 <= i < |r| ==> r[i] == Mapped(job, i) == job.mapf(job.inputs[i].name, job.inputs[i].content)
  {
    seq(|job.inputs|, i requires 0 <= i < |job.inputs| => Mapped(job, i))
  }

  ghost predicate IsPermutation(s: seq<KeyValue>, t: seq<KeyValue>) { multiset(s) == multiset(t) }

  /** The lines one reducer, or the sequential program, may write for these pairs: any sort may
      be used before grouping. */
  ghost predicate MayReport(job: Job, pairs: seq<KeyValue>, lines: seq<Line>) {
    exists s: seq<KeyValue> :: IsSortOf(KeyLess, pairs, s) && Reports(job.reducef, s, lines)
  }

  // ---------- map and reduce tasks ----------

  method DoMapperTask(job: Job, i: nat) returns (files: seq<seq<KeyValue>>)
    requires job.nReduce > 0 && i < |job.inputs|
    ensures |files| == job.nReduce
    ensures forall r: nat :: r < job.nReduce ==> IsSortOf(KeyLess, Bucket(job, Mapped(job, i), r), files[r])
  {
    var kva := job.mapf(job.inputs[i].name, job.inputs[i].content);
    files := Shuffle(job, kva);
    PairsOrdered();
    for r := 0 to job.nReduce
      invariant |files| == job.nReduce
      invariant forall q: nat :: q < r ==> IsSortOf(KeyLess, Bucket(job, kva, q), files[q])
      invariant forall q: nat :: r <= q < job.nReduce ==> files[q] == Bucket(job, kva, q)
    {
      files := files[r := Sort(KeyLess, files[r])];
    }
  }

  method Shuffle(job: Job, kva: seq<KeyValue>) returns (buckets: seq<seq<KeyValue>>)
    requires job.nReduce > 0
    ensures |buckets| == job.nReduce && forall r: nat :: r < job.nReduce ==> buckets[r] == Bucket(job, kva, r)
  {
    buckets := seq(job.nReduce, _ => []);
    for k := 0 to |kva|
      invariant |buckets| == job.nReduce && forall r: nat :: r < job.nReduce ==> buckets[r] == Bucket(job, kva[..k], r)
    {
      var reduceNum := job.ihash(kva[k].key) % job.nReduce;
      assert kva[..k + 1][..k] == kva[..k];
      buckets := buckets[reduceNum := buckets[reduceNum] + [kva[k]]];
    }
    assert kva[..|kva|] == kva;
  }

  method Concatenate(parts: seq<seq<KeyValue>>) returns (all: seq<KeyValue>)
    ensures all == Flatten(parts)
  {
    all := [];
    for i := 0 to |parts|
      invariant all == Flatten(parts[..i])
    {
      assert parts[..i + 1][..i] == parts[..i];
      all := all + parts[i];
    }
    assert parts[..|parts|] == parts;
  }

  /** Merges one file of every mapper, sorts and groups. */
  method DoReducerTask(job: Job, files: seq<seq<KeyValue>>) returns (lines: seq<Line>)
    ensures MayReport(job, Flatten(files), lines)
  {
    var kvs := Concatenate(files);
    PairsOrdered();
    var s := Sort(KeyLess, kvs);
    lines := GroupAndReduce(job.reducef, s);
  }

  method Sequential(job: Job) returns (lines: seq<Line>)
    ensures MayReport(job, Flatten(AllMapped(job)), lines)
  {
    var intermediate: seq<KeyValue> := [];
    for i := 0 to |job.inputs|
      invariant intermediate == Flatten(AllMapped(job)[..i])
    {
      var kva := job.mapf(job.inputs[i].name, job.inputs[i].content);
      assert AllMapped(job)[..i + 1][..i] == AllMapped(job)[..i];
      intermediate := intermediate + kva;
    }
    assert AllMapped(job)[..|job.inputs|] == AllMapped(job);
    PairsOrdered();
    var s := Sort(KeyLess, intermediate);
    lines := GroupAndReduce(job.reducef, s);
  }

  // ---------- counting pairs ----------

  lemma {:induction false} BucketCount(job: Job, s: seq<KeyValue>, r: nat, kv: KeyValue)
    requires job.nReduce > 0
    ensures multiset(Bucket(job, s, r))[kv] == if BucketOf(job, kv.key) == r then multiset(s)[kv] else 0
  {
    if s != [] {
      var n := |s| - 1;
      BucketCount(job, s[..n], r, kv);
      assert s == s[..n] + [s[n]];
    }
  }

  /** A pair belongs to the reducer that its key's hash modulo the number of reducers names. */
  lemma BucketOfOne(job: Job, kv: KeyValue, r: nat)
    requires job.nReduce > 0
    ensures Bucket(job, [kv], r) == if job.ihash(kv.key) % job.nReduce == r then [kv] else []
  {
    assert [kv][..0] == [];
  }

  /** Pairs keep their order in a bucket. */
  lemma {:induction false} BucketConcat(job: Job, s: seq<KeyValue>, t: seq<KeyValue>, r: nat)
    requires job.nReduce > 0
    ensures Bucket(job, s + t, r) == Bucket(job, s, r) + Bucket(job, t, r)
  {
    if t == [] {
      assert s + t == s;
    } else {
      var n := |t| - 1;
      BucketConcat(job, s, t[..n], r);
      assert (s + t)[..|s + t| - 1] == s + t[..n];
    }
  }

  /** Reducer r's files hold exactly the mapped pairs of its bucket. */
  lemma {:induction false} FlattenCount(job: Job, files: seq<seq<KeyValue>>, mapped: seq<seq<KeyValue>>, r: nat,
                                        kv: KeyValue)
    requires job.nReduce > 0 && |files| == |mapped|
    requires forall i :: 0 <= i < |files| ==> IsPermutation(files[i], Bucket(job, mapped[i], r))
    ensures multiset(Flatten(files))[kv] == if BucketOf(job, kv.key) == r then multiset(Flatten(mapped))[kv] else 0
  {
    if files != [] {
      var n := |files| - 1;
      FlattenCount(job, files[..n], mapped[..n], r, kv);
      BucketCount(job, mapped[n], r, kv);
      assert IsPermutation(files[n], Bucket(job, mapped[n], r));
      assert multiset(Flatten(files)) == multiset(Flatten(files[..n])) + multiset(files[n]);
      assert multiset(Flatten(mapped)) == multiset(Flatten(mapped[..n])) + multiset(mapped[n]);
    }
  }

  // ---------- lines depend only on the counts ----------

  lemma KeyCounted(s: seq<KeyValue>, k: string)
    ensures k in KeysIn(s) <==> exists v :: multiset(s)[KeyValue(k, v)] > 0
  {
    if k in KeysIn(s) {
      var i :| 0 <= i < |s| && s[i].key == k;
      assert s[i] == KeyValue(k, s[i].value) && s[i] in multiset(s);
    }
    if v :| multiset(s)[KeyValue(k, v)] > 0 {
      assert KeyValue(k, v) in multiset(s);
      var i :| 0 <= i < |s| && s[i] == KeyValue(k, v);
    }
  }

  lemma SameCountsSameValues(job: Job, s: seq<KeyValue>, t: seq<KeyValue>, k: string)
    requires OrderInsensitive(job.reducef) && forall v :: multiset(s)[KeyValue(k, v)] == multiset(t)[KeyValue(k, v)]
    ensures job.reducef(k, ValuesOf(s, k)) == job.reducef(k, ValuesOf(t, k))
    ensures k in KeysIn(s) <==> k in KeysIn(t)
  {
    forall v ensures multiset(ValuesOf(s, k))[v] == multiset(ValuesOf(t, k))[v] {
      ValuesCount(s, k, v);
      ValuesCount(t, k, v);
    }
    assert multiset(ValuesOf(s, k)) == multiset(ValuesOf(t, k));
    KeyCounted(s, k);
    KeyCounted(t, k);
  }

  lemma PermutedReference(job: Job, s: seq<KeyValue>, t: seq<KeyValue>)
    requires OrderInsensitive(job.reducef) && multiset(s) == multiset(t)
    ensures Reference(job.reducef, s) == Reference(job.reducef, t)
  {
    forall k ensures k in KeysIn(s) <==> k in KeysIn(t)
             ensures job.reducef(k, ValuesOf(s, k)) == job.reducef(k, ValuesOf(t, k)) {
      SameCountsSameValues(job, s, t, k);
    }
  }

  /** Whatever sort was used, the lines are the reference lines. */
  lemma AnySortSameLines(job: Job, pairs: seq<KeyValue>, lines: seq<Line>)
    requires OrderInsensitive(job.reducef) && MayReport(job, pairs, lines)
    ensures multiset(lines) == multiset(Reference(job.reducef, pairs))
  {
    var s: seq<KeyValue> :| IsSortOf(KeyLess, pairs, s) && Reports(job.reducef, s, lines);
    ReportsReference(job.reducef, s, lines);
    PermutedReference(job, s, pairs);
  }

  // ---------- the reducers together ----------

  ghost function LinesBelow(job: Job, m: nat): set<Line>
    requires job.nReduce > 0
  {
    set l | l in Reference(job.reducef, Flatten(AllMapped(job))) && BucketOf(job, l.key) < m
  }

  ghost function LinesAt(job: Job, r: nat): set<Line>
    requires job.nReduce > 0
  {
    set l | l in Reference(job.reducef, Flatten(AllMapped(job))) && BucketOf(job, l.key) == r
  }

  lemma ReducerReference(job: Job, files: seq<seq<KeyValue>>, r: nat)
    requires job.nReduce > 0 && OrderInsensitive(job.reducef) && |files| == |job.inputs|
    requires forall i :: 0 <= i < |files| ==> IsPermutation(files[i], Bucket(job, Mapped(job, i), r))
    ensures Reference(job.reducef, Flatten(files)) == LinesAt(job, r)
  {
    var s, t := Flatten(files), Flatten(AllMapped(job));
    forall k ensures BucketOf(job, k) == r ==>
      (k in KeysIn(s) <==> k in KeysIn(t)) && job.reducef(k, ValuesOf(s, k)) == job.reducef(k, ValuesOf(t, k))
             ensures BucketOf(job, k) != r ==> k !in KeysIn(s)
    {
      forall v ensures multiset(s)[KeyValue(k, v)] == if BucketOf(job, k) == r then multiset(t)[KeyValue(k, v)] else 0 {
        FlattenCount(job, files, AllMapped(job), r, KeyValue(k, v));
      }
      KeyCounted(s, k);
      if BucketOf(job, k) == r { SameCountsSameValues(job, s, t, k); }
    }
  }

  ghost function Union(outs: seq<seq<Line>>): multiset<Line> {
    if outs == [] then multiset{} else Union(outs[..|outs| - 1]) + multiset(outs[|outs| - 1])
  }

  lemma DisjointSets<T>(a: set<T>, b: set<T>)
    requires a !! b
    ensures multiset(a + b) == multiset(a) + multiset(b)
  {
  }

  lemma {:induction false} UnionBelow(job: Job, outs: seq<seq<Line>>)
    requires job.nReduce > 0 && forall r: nat :: r < |outs| ==> multiset(outs[r]) == multiset(LinesAt(job, r))
    ensures Union(outs) == multiset(LinesBelow(job, |outs|))
  {
    if outs == [] {
      assert LinesBelow(job, 0) == {};
    } else {
      var n := |outs| - 1;
      UnionBelow(job, outs[..n]);
      assert LinesBelow(job, n + 1) == LinesBelow(job, n) + LinesAt(job, n);
      DisjointSets(LinesBelow(job, n), LinesAt(job, n));
    }
  }

  /** Every reducer's lines at hand, they are together those of the sequential program. */
  lemma BucketsCoverJob(job: Job, outs: seq<seq<Line>>, lines: seq<Line>)
    requires job.nReduce > 0 && OrderInsensitive(job.reducef) && |outs| == job.nReduce
    requires forall r: nat :: r < |outs| ==> multiset(outs[r]) == multiset(LinesAt(job, r))
    requires MayReport(job, Flatten(AllMapped(job)), lines)
    ensures Union(outs) == multiset(lines)
  {
    UnionBelow(job, outs);
    AnySortSameLines(job, Flatten(AllMapped(job)), lines);
    assert LinesBelow(job, job.nReduce) == Reference(job.reducef, Flatten(AllMapped(job)));
  }
}
