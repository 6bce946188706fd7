/** Some run of a job ends, exactly when the job has inputs. */
module MrCompletion {
  import opened Sorting
  import opened MrData
  import opened MrShuffle
  import opened MrCoordinator
  import opened MrJob

  function Last(run: seq<Cluster>): Cluster
    requires run != []
  {
    run[|run| - 1]
  }

  lemma Extend(job: Job, run: seq<Cluster>, a: Action) returns (more: seq<Cluster>)
    requires Run(job, run) && Enabled(job, Last(run), a)
    ensures Run(job, more) && Last(more) == After(job, Last(run), a)
  {
    more := run + [After(job, Last(run), a)];
    forall n: nat ensures StepAt(job, more, n) {
      if n + 1 < |run| {
        assert StepAt(job, run, n) && more[n] == run[n] && more[n + 1] == run[n + 1];
      } else if n + 1 == |run| {
        assert Enabled(job, more[n], a) && more[n + 1] == After(job, more[n], a);
      }
    }
  }

  /** The first n tasks are finished and the others untouched. */
  ghost predicate FirstDone(tasks: seq<Task>, n: nat) {
    && (forall k :: 0 <= k < n && k < |tasks| ==> tasks[k].isFinished)
    && (forall k :: n <= k < |tasks| ==> Free(tasks[k]))
  }

  lemma FirstDoneFacts(tasks: seq<Task>, n: nat)
    requires FirstDone(tasks, n) && n <= |tasks|
    ensures FirstFree(tasks) == n && (AllDone(tasks) <==> n == |tasks|)
  {
    var i := FirstFree(tasks);
    assert n < |tasks| ==> Free(tasks[n]) && !tasks[n].isFinished;
  }

  /** A task that is handed out, executed and reported is finished. */
  lemma HandedOutAndReported(tasks: seq<Task>, n: nat)
    requires FirstDone(tasks, n) && n < |tasks|
    ensures FirstFree(tasks) == n && FirstDone(Reported(Assign(tasks, n), n), n + 1)
    ensures AllDone(Reported(Assign(tasks, n), n)) <==> n + 1 == |tasks|
  {
    FirstDoneFacts(tasks, n);
    FirstDoneFacts(Reported(Assign(tasks, n), n), n + 1);
  }

  // ---------- the map phase ----------

  ghost predicate Mapping(job: Job, s: Cluster, i: nat) {
    && |s.coord.mappers| == |job.inputs| && |s.coord.reducers| == job.nReduce
    && FirstDone(s.coord.mappers, i) && FirstDone(s.coord.reducers, 0)
    && (s.coord.mapperFinished <==> i == |job.inputs|) && !s.coord.reducerFinished
  }

  lemma SortedBucket(job: Job, i: nat, r: nat) returns (bucket: seq<KeyValue>)
    requires job.nReduce > 0 && i < |job.inputs|
    ensures IsSortOf(KeyLess, Bucket(job, Mapped(job, i), r), bucket)
  {
    PairsOrdered();
    bucket := Sort(KeyLess, Bucket(job, Mapped(job, i), r));
  }

  lemma WriteFile(job: Job, run: seq<Cluster>, i: nat, r: nat) returns (more: seq<Cluster>)
    requires Run(job, run) && i < |job.inputs| && i in Last(run).mapGrants && r < job.nReduce
    ensures Run(job, more) && Last(more).coord == Last(run).coord && Last(more).mapGrants == Last(run).mapGrants
    ensures Last(more).files.Keys == Last(run).files.Keys + {(i, r)}
  {
    var bucket := SortedBucket(job, i, r);
    more := Extend(job, run, FileWritten(i, r, bucket));
  }

  lemma {:induction false} WriteFiles(job: Job, run: seq<Cluster>, i: nat, r: nat) returns (more: seq<Cluster>)
    requires Run(job, run) && i < |job.inputs| && i in Last(run).mapGrants && r <= job.nReduce
    ensures Run(job, more) && Last(more).coord == Last(run).coord && i in Last(more).mapGrants
    ensures forall q: nat :: q < r ==> (i, q) in Last(more).files
  {
    if r == 0 {
      more := run;
    } else {
      var before := WriteFiles(job, run, i, r - 1);
      more := WriteFile(job, before, i, r - 1);
    }
  }

  lemma OneMap(job: Job, run: seq<Cluster>, i: nat) returns (more: seq<Cluster>)
    requires Run(job, run) && i < |job.inputs| && Mapping(job, Last(run), i)
    ensures Run(job, more) && Mapping(job, Last(more), i + 1)
  {
    HandedOutAndReported(Last(run).coord.mappers, i);
    more := Extend(job, run, Fetch);
    more := WriteFiles(job, more, i, job.nReduce);
    more := Extend(job, more, MapSent(i));
    more := Extend(job, more, MapReport(i));
  }

  lemma {:induction false} Maps(job: Job, i: nat) returns (run: seq<Cluster>)
    requires job.nReduce > 0 && job.inputs != [] && i <= |job.inputs|
    ensures Run(job, run) && Mapping(job, Last(run), i)
  {
    if i == 0 {
      run := [Cluster(Initial(|job.inputs|, job.nReduce), {}, {}, {}, {}, map[], map[])];
    } else {
      run := Maps(job, i - 1);
      run := OneMap(job, run, i - 1);
    }
  }

  // ---------- the reduce phase ----------

  ghost predicate Reducing(job: Job, s: Cluster, r: nat) {
    && |s.coord.reducers| == job.nReduce && FirstDone(s.coord.reducers, r)
    && s.coord.mapperFinished && (s.coord.reducerFinished <==> r == job.nReduce)
  }

  lemma OneReduce(job: Job, run: seq<Cluster>, r: nat) returns (more: seq<Cluster>)
    requires Run(job, run) && r < job.nReduce && Reducing(job, Last(run), r)
    ensures Run(job, more) && Reducing(job, Last(more), r + 1)
  {
    HandedOutAndReported(Last(run).coord.reducers, r);
    more := Extend(job, run, Fetch);
    var lines := SomeLines(job, more, r);
    more := Extend(job, more, ReduceExecuted(r, lines));
    more := Extend(job, more, ReduceReport(r));
  }

  lemma SomeReport(job: Job, pairs: seq<KeyValue>) returns (lines: seq<Line>)
    ensures MayReport(job, pairs, lines)
  {
    PairsOrdered();
    var sorted := Sort(KeyLess, pairs);
    lines := LinesExist(job.reducef, sorted);
    assert IsSortOf(KeyLess, pairs, sorted) && Reports(job.reducef, sorted, lines);
  }

  /** A reducer that has its task finds its files and can write its lines. */
  lemma SomeLines(job: Job, run: seq<Cluster>, r: nat) returns (lines: seq<Line>)
    requires Run(job, run) && r in Last(run).reduceGrants
    ensures Enabled(job, Last(run), ReduceExecuted(r, lines))
  {
    ReducesWaitForMaps(job, run, |run| - 1, r);
    var pairs := Flatten(FilesFor(job, Last(run), r));
    lines := SomeReport(job, pairs);
  }

  lemma {:induction false} Reduces(job: Job, r: nat) returns (run: seq<Cluster>)
    requires job.nReduce > 0 && job.inputs != [] && r <= job.nReduce
    ensures Run(job, run) && Reducing(job, Last(run), r)
  {
    if r == 0 {
      run := Maps(job, |job.inputs|);
    } else {
      run := Reduces(job, r - 1);
      run := OneReduce(job, run, r - 1);
    }
  }

  // ---------- the theorem ----------

  lemma NoReports(job: Job, s: Cluster)
    requires Inv(job, s) && job.inputs == []
    ensures s.mapReports == {}
  {
    forall i: nat ensures i !in s.mapReports { assert MapperOk(job, s, i); }
  }

  /** A job without inputs never ends: only a map report can end the map phase. */
  lemma {:induction false} EmptyJobNeverDone(job: Job, run: seq<Cluster>, n: nat)
    requires Run(job, run) && n < |run| && job.inputs == []
    ensures !IsDone(run[n].coord) && !run[n].coord.mapperFinished
  {
    if n > 0 {
      EmptyJobNeverDone(job, run, n - 1);
      RunKeeps(job, run, n - 1);
      assert StepAt(job, run, n - 1);
      var a :| Enabled(job, run[n - 1], a) && run[n] == After(job, run[n - 1], a);
      NoReports(job, run[n - 1]);
    }
  }

  ghost predicate Completes(job: Job, run: seq<Cluster>) {
    Run(job, run) && IsDone(Last(run).coord)
  }

  /** Some run of the job is done exactly when the job has inputs. */
  lemma CompletesIffInputs(job: Job)
    requires job.nReduce > 0
    ensures (exists run: seq<Cluster> :: Completes(job, run)) <==> job.inputs != []
  {
    if job.inputs != [] {
      var run := Reduces(job, job.nReduce);
      assert Completes(job, run);
    } else {
      forall run: seq<Cluster> ensures !Completes(job, run) {
        if Run(job, run) { EmptyJobNeverDone(job, run, |run| - 1); }
      }
    }
  }
}
