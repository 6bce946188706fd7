/** A whole job: workers that fetch, execute (perhaps repeatedly) and report tasks, timers that
    take tasks back, and the files they leave. */
module MrJob {
  import opened Sorting
  import opened MrData
  import opened MrShuffle
  import opened MrCoordinator

  datatype Cluster = Cluster(
    coord: Coord,
    mapGrants: set<nat>,        // map tasks some worker holds a copy of
    reduceGrants: set<nat>,
    mapReports: set<nat>,       // reports sent; they may be lost, late or handled again
    reduceReports: set<nat>,
    files: map<(nat, nat), seq<KeyValue>>,    // mr-i-r
    outs: map<nat, seq<Line>>)                // mr-out-r

  datatype Action =
    | Fetch
    | FileWritten(i: nat, r: nat, bucket: seq<KeyValue>)
    | MapSent(i: nat)
    | MapReport(i: nat)
    | MapTimeout(i: nat)
    | ReduceExecuted(r: nat, lines: seq<Line>)
    | ReduceReport(r: nat)
    | ReduceTimeout(r: nat)

  predicate HasFiles(job: Job, s: Cluster, r: nat) {
    forall i: nat :: i < |job.inputs| ==> (i, r) in s.files
  }

  function FilesFor(job: Job, s: Cluster, r: nat): (fs: seq<seq<KeyValue>>)
    requires HasFiles(job, s, r)
    ensures |fs| == |job.inputs| && forall i: nat :: i < |fs| ==> fs[i] == s.files[(i, r)]
  {
    seq(|job.inputs|, i requires 0 <= i < |job.inputs| => s.files[(i, r)])
  }

  ghost predicate Enabled(job: Job, s: Cluster, a: Action)
    requires job.nReduce > 0
  {
    match a
    case Fetch => true
    case FileWritten(i, r, bucket) =>
      && i in s.mapGrants && i < |job.inputs| && r < job.nReduce
      && IsSortOf(KeyLess, Bucket(job, Mapped(job, i), r), bucket)
    case MapSent(i) => i in s.mapGrants && forall r: nat :: r < job.nReduce ==> (i, r) in s.files
    case MapReport(i) => i in s.mapReports
    case MapTimeout(i) => i in s.mapGrants && i < |s.coord.mappers|
    case ReduceExecuted(r, lines) =>
      r in s.reduceGrants && HasFiles(job, s, r) && MayReport(job, Flatten(FilesFor(job, s, r)), lines)
    case ReduceReport(r) => r in s.reduceReports
    case ReduceTimeout(r) => r in s.reduceGrants && r < |s.coord.reducers|
  }

  ghost function After(job: Job, s: Cluster, a: Action): Cluster
    requires job.nReduce > 0 && Enabled(job, s, a)
  {
    match a
    case Fetch =>
      var (c, g) := Fetched(s.coord);
      s.(coord := c, mapGrants := s.mapGrants + (if g.MapTask? then {g.i} else {}),
         reduceGrants := s.reduceGrants + (if g.ReduceTask? then {g.r} else {}))
    case FileWritten(i, r, bucket) => s.(files := s.files[(i, r) := bucket])
    case MapSent(i) => s.(mapReports := s.mapReports + {i})
    case MapReport(i) => s.(coord := MapReported(s.coord, i))
    case MapTimeout(i) => s.(coord := s.coord.(mappers := TimedOut(s.coord.mappers, i)))
    case ReduceExecuted(r, lines) => s.(outs := s.outs[r := lines], reduceReports := s.reduceReports + {r})
    case ReduceReport(r) => s.(coord := ReduceReported(s.coord, r))
    case ReduceTimeout(r) => s.(coord := s.coord.(reducers := TimedOut(s.coord.reducers, r)))
  }

  ghost predicate InitialCluster(job: Job, s: Cluster) {
    s == Cluster(Initial(|job.inputs|, job.nReduce), {}, {}, {}, {}, map[], map[])
  }

  ghost predicate StepAt(job: Job, run: seq<Cluster>, n: nat)
    requires job.nReduce > 0
  {
    n + 1 < |run| ==> exists a :: Enabled(job, run[n], a) && run[n + 1] == After(job, run[n], a)
  }

  ghost predicate Run(job: Job, run: seq<Cluster>) {
    job.nReduce > 0 && |run| >= 1 && InitialCluster(job, run[0]) && forall n: nat :: StepAt(job, run, n)
  }

  // ---------- the invariant ----------

  ghost predicate MapperOk(job: Job, s: Cluster, i: nat) {
    && (i in s.mapGrants || i in s.mapReports ==> i < |job.inputs|)
    && (i < |s.coord.mappers| && s.coord.mappers[i].isFinished ==> i in s.mapReports)
    && (i in s.mapReports ==> forall r: nat :: r < job.nReduce ==> (i, r) in s.files)
  }

  ghost predicate ReducerOk(job: Job, s: Cluster, r: nat) {
    && (r in s.reduceGrants ==> r < job.nReduce && s.coord.mapperFinished)
    && (r < |s.coord.reducers| && s.coord.reducers[r].isFinished ==> r in s.reduceReports)
    && (r in s.reduceReports ==> r in s.outs)
  }

  ghost predicate FileOk(job: Job, s: Cluster, i: nat, r: nat)
    requires job.nReduce > 0
  {
    (i, r) in s.files && i < |job.inputs| && r < job.nReduce ==>
      IsPermutation(s.files[(i, r)], Bucket(job, Mapped(job, i), r))
  }

  ghost predicate OutOk(job: Job, s: Cluster, r: nat)
    requires job.nReduce > 0
  {
    OrderInsensitive(job.reducef) && r in s.outs ==> multiset(s.outs[r]) == multiset(LinesAt(job, r))
  }

  ghost predicate Inv(job: Job, s: Cluster) {
    && job.nReduce > 0 && |s.coord.mappers| == |job.inputs| && |s.coord.reducers| == job.nReduce
    && (s.coord.mapperFinished ==> AllDone(s.coord.mappers)) && (s.coord.reducerFinished ==> AllDone(s.coord.reducers))
    && (forall i: nat :: MapperOk(job, s, i)) && (forall r: nat :: ReducerOk(job, s, r))
    && (forall i: nat, r: nat :: FileOk(job, s, i, r)) && (forall r: nat :: OutOk(job, s, r))
  }

  /** No reduce task is held by a worker unless every map task is finished; then its input
      files all exist. */
  lemma FilesReady(job: Job, s: Cluster, r: nat)
    requires Inv(job, s) && r in s.reduceGrants
    ensures r < job.nReduce && AllDone(s.coord.mappers) && HasFiles(job, s, r)
  {
    assert ReducerOk(job, s, r);
    forall i: nat | i < |job.inputs| ensures (i, r) in s.files { assert MapperOk(job, s, i); }
  }

  lemma ReduceOutOk(job: Job, s: Cluster, r: nat, lines: seq<Line>)
    requires Inv(job, s) && r in s.reduceGrants && HasFiles(job, s, r)
             && MayReport(job, Flatten(FilesFor(job, s, r)), lines)
    requires OrderInsensitive(job.reducef)
    ensures multiset(lines) == multiset(LinesAt(job, r))
  {
    FilesReady(job, s, r);
    var fs := FilesFor(job, s, r);
    forall i: nat | i < |fs| ensures IsPermutation(fs[i], Bucket(job, Mapped(job, i), r)) {
      assert FileOk(job, s, i, r);
    }
    AnySortSameLines(job, Flatten(fs), lines);
    ReducerReference(job, fs, r);
  }

  lemma FileWrittenKeeps(job: Job, s: Cluster, i: nat, r: nat, bucket: seq<KeyValue>)
    requires Inv(job, s) && Enabled(job, s, FileWritten(i, r, bucket))
    ensures Inv(job, After(job, s, FileWritten(i, r, bucket)))
  {
    var next := After(job, s, FileWritten(i, r, bucket));
    forall j: nat, q: nat ensures FileOk(job, next, j, q) { assert FileOk(job, s, j, q); }
    forall j: nat ensures MapperOk(job, next, j) { assert MapperOk(job, s, j); }
    forall q: nat ensures ReducerOk(job, next, q) { assert ReducerOk(job, s, q); }
    forall q: nat ensures OutOk(job, next, q) { assert OutOk(job, s, q); }
  }

  lemma ReduceExecutedKeeps(job: Job, s: Cluster, r: nat, lines: seq<Line>)
    requires Inv(job, s) && Enabled(job, s, ReduceExecuted(r, lines))
    ensures Inv(job, After(job, s, ReduceExecuted(r, lines)))
  {
    var next := After(job, s, ReduceExecuted(r, lines));
    forall j: nat, q: nat ensures FileOk(job, next, j, q) { assert FileOk(job, s, j, q); }
    forall j: nat ensures MapperOk(job, next, j) { assert MapperOk(job, s, j); }
    forall q: nat ensures ReducerOk(job, next, q) { assert ReducerOk(job, s, q); }
    forall q: nat ensures OutOk(job, next, q) {
      assert OutOk(job, s, q);
      if q == r && OrderInsensitive(job.reducef) { ReduceOutOk(job, s, r, lines); }
    }
  }

  /** Tasks as they may change in one coordinator step: finished ones stay, others may finish on report. */
  ghost predicate Progress(before: Coord, after: Coord) {
    && |after.mappers| == |before.mappers| && |after.reducers| == |before.reducers|
    && (forall i :: 0 <= i < |before.mappers| && before.mappers[i].isFinished ==> after.mappers[i].isFinished)
    && (forall r :: 0 <= r < |before.reducers| && before.reducers[r].isFinished ==> after.reducers[r].isFinished)
    && (before.mapperFinished ==> after.mapperFinished)
    && (before.mapperFinished && before.reducerFinished ==> after.reducerFinished)
  }

  lemma CoordKeeps(job: Job, s: Cluster, a: Action)
    requires Inv(job, s) && Enabled(job, s, a) && !a.FileWritten? && !a.ReduceExecuted?
    ensures Inv(job, After(job, s, a))
  {
    var next := After(job, s, a);
    forall j: nat, r: nat ensures FileOk(job, next, j, r) { assert FileOk(job, s, j, r); }
    forall r: nat ensures OutOk(job, next, r) { assert OutOk(job, s, r); }
    forall j: nat ensures MapperOk(job, next, j) { assert MapperOk(job, s, j); }
    forall r: nat ensures ReducerOk(job, next, r) { assert ReducerOk(job, s, r); }
  }

  lemma StepProgress(job: Job, s: Cluster, a: Action)
    requires Inv(job, s) && Enabled(job, s, a)
    ensures Progress(s.coord, After(job, s, a).coord)
  {
  }

  lemma StepKeeps(job: Job, s: Cluster, a: Action)
    requires Inv(job, s) && Enabled(job, s, a)
    ensures Inv(job, After(job, s, a))
  {
    match a
    case FileWritten(i, r, bucket) => FileWrittenKeeps(job, s, i, r, bucket);
    case ReduceExecuted(r, lines) => ReduceExecutedKeeps(job, s, r, lines);
    case _ => CoordKeeps(job, s, a);
  }

  lemma {:induction false} RunKeeps(job: Job, run: seq<Cluster>, n: nat)
    requires Run(job, run) && n < |run|
    ensures Inv(job, run[n])
    ensures n > 0 ==> Progress(run[n - 1].coord, run[n].coord)
  {
    if n > 0 {
      RunKeeps(job, run, n - 1);
      assert StepAt(job, run, n - 1);
      var a :| Enabled(job, run[n - 1], a) && run[n] == After(job, run[n - 1], a);
      StepKeeps(job, run[n - 1], a);
      StepProgress(job, run[n - 1], a);
    }
  }

  // ---------- the theorems ----------

  /** No reduce starts before all maps are finished, and it finds all its files. */
  lemma ReducesWaitForMaps(job: Job, run: seq<Cluster>, n: nat, r: nat)
    requires Run(job, run) && n < |run| && r in run[n].reduceGrants
    ensures AllDone(run[n].coord.mappers) && HasFiles(job, run[n], r)
  {
    RunKeeps(job, run, n);
    FilesReady(job, run[n], r);
  }

  lemma StepFlags(job: Job, s: Cluster, a: Action)
    requires job.nReduce > 0 && Enabled(job, s, a) && FlagsOk(s.coord)
    ensures FlagsOk(After(job, s, a).coord)
  {
    match a
    case Fetch =>
      var i, r := FirstFree(s.coord.mappers), FirstFree(s.coord.reducers);
      if i < |s.coord.mappers| {
        UnfinishedKeepsFlag(s.coord.mapperFinished, s.coord.mappers, Assign(s.coord.mappers, i), i);
      }
      if r < |s.coord.reducers| {
        UnfinishedKeepsFlag(s.coord.reducerFinished, s.coord.reducers, Assign(s.coord.reducers, r), r);
      }
    case MapTimeout(i) =>
      if !s.coord.mappers[i].isFinished {
        UnfinishedKeepsFlag(s.coord.mapperFinished, s.coord.mappers, TimedOut(s.coord.mappers, i), i);
      }
    case ReduceTimeout(r) =>
      if !s.coord.reducers[r].isFinished {
        UnfinishedKeepsFlag(s.coord.reducerFinished, s.coord.reducers, TimedOut(s.coord.reducers, r), r);
      }
    case _ =>
  }

  lemma {:induction false} RunFlags(job: Job, run: seq<Cluster>, n: nat)
    requires Run(job, run) && n < |run|
    ensures FlagsOk(run[n].coord)
  {
    if n == 0 {
      InitialFlags(|job.inputs|, job.nReduce);
    } else {
      RunFlags(job, run, n - 1);
      assert StepAt(job, run, n - 1);
      var a :| Enabled(job, run[n - 1], a) && run[n] == After(job, run[n - 1], a);
      StepFlags(job, run[n - 1], a);
    }
  }

  /** Over every run of a job with inputs, a fetch answers that all is finished exactly when every map and
      reduce task is, and then every output file exists; nothing exactly when the current phase has no task
      left to hand out; and otherwise the first free task of that phase. */
  lemma FetchAnswers(job: Job, run: seq<Cluster>, n: nat)
    requires Run(job, run) && n < |run| && job.inputs != []
    ensures var c, g := run[n].coord, Fetched(run[n].coord).1;
            && RightAnswer(c.mappers, c.reducers, g)
            && (g == AllFinished ==> forall r: nat :: r < job.nReduce ==> r in run[n].outs)
  {
    RunKeeps(job, run, n);
    RunFlags(job, run, n);
    FetchedMeans(run[n].coord);
    if Fetched(run[n].coord).1 == AllFinished {
      forall r: nat | r < job.nReduce ensures r in run[n].outs { assert ReducerOk(job, run[n], r); }
    }
  }

  /** Finished tasks stay finished, and a finished job stays finished. */
  lemma {:induction false} FinishedStays(job: Job, run: seq<Cluster>, m: nat, n: nat)
    requires Run(job, run) && m <= n < |run|
    ensures Progress(run[m].coord, run[n].coord)
    decreases n - m
  {
    if m < n {
      FinishedStays(job, run, m, n - 1);
      RunKeeps(job, run, n);
    }
  }

  /** The output files, in order; a missing one counts as empty. */
  function Outputs(job: Job, s: Cluster): (outs: seq<seq<Line>>)
    ensures |outs| == job.nReduce
    ensures forall r: nat :: r < |outs| ==> outs[r] == if r in s.outs then s.outs[r] else []
  {
    seq(job.nReduce, r requires 0 <= r < job.nReduce => if r in s.outs then s.outs[r] else [])
  }

  /** When the coordinator says the job is done, all output files exist and together hold, as a
      multiset, the lines of the sequential program. */
  lemma JobMeansSequential(job: Job, run: seq<Cluster>, n: nat, lines: seq<Line>)
    requires Run(job, run) && n < |run| && IsDone(run[n].coord)
    requires OrderInsensitive(job.reducef) && MayReport(job, Flatten(AllMapped(job)), lines)
    ensures forall r: nat :: r < job.nReduce ==> r in run[n].outs
    ensures Union(Outputs(job, run[n])) == multiset(lines)
  {
    RunKeeps(job, run, n);
    var s := run[n];
    var outs := Outputs(job, s);
    forall r: nat | r < job.nReduce ensures r in s.outs && multiset(outs[r]) == multiset(LinesAt(job, r)) {
      assert ReducerOk(job, s, r) && OutOk(job, s, r);
    }
    BucketsCoverJob(job, outs, lines);
  }
}
