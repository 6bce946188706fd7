/** The coordinator: which tasks are handed out, reported, timed out and finished. */
module MrCoordinator {
  import opened Prelude

  datatype Task = Task(isAssigned: bool, isFinished: bool)

  datatype Grant = MapTask(i: nat) | ReduceTask(r: nat) | Nothing | AllFinished

  datatype Coord = Coord(mapperFinished: bool, reducerFinished: bool, mappers: seq<Task>, reducers: seq<Task>)

  // ---------- specification ----------

  predicate Free(t: Task) { !t.isAssigned && !t.isFinished }

  ghost predicate AllDone(tasks: seq<Task>) { forall i :: 0 <= i < |tasks| ==> tasks[i].isFinished }

  /** The first task that can be handed out, or the length of the list. */
  function FirstFree(tasks: seq<Task>): (i: nat)
    ensures i <= |tasks| && (i < |tasks| ==> Free(tasks[i])) && forall k :: 0 <= k < i ==> !Free(tasks[k])
  {
    if tasks == [] then 0 else if Free(tasks[0]) then 0 else 1 + FirstFree(tasks[1..])
  }

  function Assign(tasks: seq<Task>, i: nat): seq<Task>
    requires i < |tasks|
  {
    tasks[i := tasks[i].(isAssigned := true)]
  }

  function Fetched(c: Coord): (Coord, Grant) {
    if !c.mapperFinished then
      var i := FirstFree(c.mappers);
      if i < |c.mappers| then (c.(mappers := Assign(c.mappers, i)), MapTask(i)) else (c, Nothing)
    else if !c.reducerFinished then
      var r := FirstFree(c.reducers);
      if r < |c.reducers| then (c.(reducers := Assign(c.reducers, r)), ReduceTask(r)) else (c, Nothing)
    else (c, AllFinished)
  }

  /** A report counts while its task is assigned and unfinished. */
  function Reported(tasks: seq<Task>, i: nat): (r: seq<Task>)
    ensures |r| == |tasks| && forall k :: 0 <= k < |tasks| ==>
      r[k] == if k == i && tasks[k].isAssigned && !tasks[k].isFinished then tasks[k].(isFinished := true) else tasks[k]
  {
    if i < |tasks| && tasks[i].isAssigned && !tasks[i].isFinished then tasks[i := tasks[i].(isFinished := true)]
      else tasks
  }

  ghost function MapReported(c: Coord, i: nat): Coord {
    c.(mappers := Reported(c.mappers, i), mapperFinished := AllDone(Reported(c.mappers, i)))
  }

  ghost function ReduceReported(c: Coord, r: nat): Coord {
    c.(reducers := Reported(c.reducers, r), reducerFinished := AllDone(Reported(c.reducers, r)))
  }

  function TimedOut(tasks: seq<Task>, i: nat): seq<Task>
    requires i < |tasks|
  {
    if tasks[i].isFinished then tasks else tasks[i := tasks[i].(isAssigned := false)]
  }

  /** A report finishes the task it names if that is assigned, and touches nothing else. */
  ghost predicate Finishes(before: seq<Task>, reported: Option<nat>, after: seq<Task>) {
    && |after| == |before|
    && forall k :: 0 <= k < |before| ==>
         && after[k].isAssigned == before[k].isAssigned
         && (after[k].isFinished <==> before[k].isFinished || (reported == Some(k) && before[k].isAssigned))
  }

  /** What Done reports. */
  predicate IsDone(c: Coord) { c.mapperFinished && c.reducerFinished }

  /** A phase that has tasks is flagged finished exactly when all of them are. */
  ghost predicate FlagOk(flag: bool, tasks: seq<Task>) {
    (flag ==> AllDone(tasks)) && (tasks != [] && AllDone(tasks) ==> flag)
  }

  ghost predicate FlagsOk(c: Coord) { FlagOk(c.mapperFinished, c.mappers) && FlagOk(c.reducerFinished, c.reducers) }

  /** An unfinished task keeps the flag down, however it is assigned. */
  lemma UnfinishedKeepsFlag(flag: bool, tasks: seq<Task>, after: seq<Task>, i: nat)
    requires FlagOk(flag, tasks) && |after| == |tasks| && i < |tasks| && !tasks[i].isFinished && !after[i].isFinished
    ensures FlagOk(flag, after)
  {
    assert !AllDone(tasks) && !AllDone(after);
  }

  lemma InitialFlags(nMap: nat, nReduce: nat)
    ensures FlagsOk(Initial(nMap, nReduce))
  {
    var c := Initial(nMap, nReduce);
    assert nMap > 0 ==> !c.mappers[0].isFinished;
    assert nReduce > 0 ==> !c.reducers[0].isFinished;
  }

  /** Some task of the list can be handed out. */
  ghost predicate AnyFree(tasks: seq<Task>) { exists i :: 0 <= i < |tasks| && Free(tasks[i]) }

  ghost predicate IsFirstFree(tasks: seq<Task>, i: nat) {
    i < |tasks| && Free(tasks[i]) && forall k :: 0 <= k < i ==> !Free(tasks[k])
  }

  /** The answer to a fetch, told from the task lists alone, when there is at least one task of each kind:
      everything is finished; or the unfinished phase has nothing to hand out; or its first free task. */
  ghost predicate RightAnswer(mappers: seq<Task>, reducers: seq<Task>, g: Grant) {
    && (g == AllFinished <==> AllDone(mappers) && AllDone(reducers))
    && (g == Nothing <==>
          || (!AllDone(mappers) && !AnyFree(mappers))
          || (AllDone(mappers) && !AllDone(reducers) && !AnyFree(reducers)))
    && (forall i: nat :: g == MapTask(i) <==> !AllDone(mappers) && IsFirstFree(mappers, i))
    && (forall r: nat :: g == ReduceTask(r) <==> AllDone(mappers) && !AllDone(reducers) && IsFirstFree(reducers, r))
  }

  lemma FetchedMeans(c: Coord)
    requires FlagsOk(c) && c.mappers != [] && c.reducers != []
    ensures RightAnswer(c.mappers, c.reducers, Fetched(c).1)
  {
    FirstFreeMeans(c.mappers);
    FirstFreeMeans(c.reducers);
  }

  lemma FirstFreeMeans(tasks: seq<Task>)
    ensures AnyFree(tasks) <==> FirstFree(tasks) < |tasks|
    ensures forall i: nat :: IsFirstFree(tasks, i) <==> i == FirstFree(tasks) < |tasks|
  {
  }

  /** A task taken back by its timer can be handed out again, at the latest after the free ones before it. */
  lemma TimedOutIsFree(tasks: seq<Task>, i: nat)
    requires i < |tasks|
    ensures var after := TimedOut(tasks, i);
            && |after| == |tasks| && (Free(after[i]) <==> !tasks[i].isFinished)
            && (!tasks[i].isFinished ==> FirstFree(after) <= i)
            && (forall k :: 0 <= k < |tasks| && (k != i || tasks[i].isFinished) ==> after[k] == tasks[k])
  {
  }

  function Initial(nMap: nat, nReduce: nat): Coord {
    Coord(false, false, seq(nMap, _ => Task(false, false)), seq(nReduce, _ => Task(false, false)))
  }

  // ---------- implementation ----------

  method FindFree(tasks: seq<Task>) returns (i: nat)
    ensures i == FirstFree(tasks)
  {
    i := 0;
    while i < |tasks|
      invariant 0 <= i <= |tasks| && forall k :: 0 <= k < i ==> !Free(tasks[k])
    {
      if !(tasks[i].isAssigned || tasks[i].isFinished) {
        return;
      }
      i := i + 1;
    }
  }

  method FinishTask(tasks: seq<Task>, index: nat) returns (r: seq<Task>, finished: bool)
    ensures r == Reported(tasks, index) && (finished <==> AllDone(r))
  {
    r, finished := tasks, true;
    for k := 0 to |tasks|
      invariant |r| == |tasks| && forall q :: k <= q < |tasks| ==> r[q] == tasks[q]
      invariant forall q :: 0 <= q < k ==> r[q] == Reported(tasks, index)[q]
      invariant finished <==> forall q :: 0 <= q < k ==> r[q].isFinished
    {
      if k == index && r[k].isAssigned && !r[k].isFinished {
        r := r[k := r[k].(isFinished := true)];
      }
      finished := finished && r[k].isFinished;
    }
  }

  class Coordinator {
    var mapperFinished: bool
    var reducerFinished: bool
    var mappers: seq<Task>
    var reducers: seq<Task>

    ghost function View(): Coord
      reads this
    {
      Coord(mapperFinished, reducerFinished, mappers, reducers)
    }

    ghost predicate Valid()
      reads this
    {
      FlagsOk(View())
    }

    constructor (nMap: nat, nReduce: nat)
      ensures Valid() && View() == Initial(nMap, nReduce)
    {
      mapperFinished, reducerFinished := false, false;
      mappers := seq(nMap, _ => Task(false, false));
      reducers := seq(nReduce, _ => Task(false, false));
      InitialFlags(nMap, nReduce);
    }

    method FetchTask() returns (response: Grant)
      requires Valid()
      modifies this
      ensures Valid() && (View(), response) == Fetched(old(View()))
      ensures mappers != [] && reducers != [] ==> RightAnswer(old(mappers), old(reducers), response)
    {
      if mappers != [] && reducers != [] { FetchedMeans(View()); }
      if !mapperFinished {
        var i := FindFree(mappers);
        if i < |mappers| {
          UnfinishedKeepsFlag(mapperFinished, mappers, Assign(mappers, i), i);
          mappers := mappers[i := mappers[i].(isAssigned := true)];
          return MapTask(i);
        }
        return Nothing;
      }
      if !reducerFinished {
        var r := FindFree(reducers);
        if r < |reducers| {
          UnfinishedKeepsFlag(reducerFinished, reducers, Assign(reducers, r), r);
          reducers := reducers[r := reducers[r].(isAssigned := true)];
          return ReduceTask(r);
        }
        return Nothing;
      }
      return AllFinished;
    }

    method UpdateTask(mapper: Option<nat>, reducer: Option<nat>)
      requires Valid()
      modifies this
      ensures Valid()
      ensures var c := if mapper.Some? then MapReported(old(View()), mapper.value) else old(View());
              View() == if reducer.Some? then ReduceReported(c, reducer.value) else c
      ensures Finishes(old(mappers), mapper, mappers) && Finishes(old(reducers), reducer, reducers)
    {
      if mapper.Some? {
        mappers, mapperFinished := FinishTask(mappers, mapper.value);
      }
      if reducer.Some? {
        reducers, reducerFinished := FinishTask(reducers, reducer.value);
      }
    }

    method MapperTimeout(i: nat)
      requires Valid() && i < |mappers|
      modifies this
      ensures Valid() && View() == old(View()).(mappers := TimedOut(old(mappers), i))
      ensures Free(mappers[i]) <==> !old(mappers)[i].isFinished
    {
      if !mappers[i].isFinished {
        UnfinishedKeepsFlag(mapperFinished, mappers, TimedOut(mappers, i), i);
        mappers := mappers[i := mappers[i].(isAssigned := false)];
      }
    }

    method ReducerTimeout(r: nat)
      requires Valid() && r < |reducers|
      modifies this
      ensures Valid() && View() == old(View()).(reducers := TimedOut(old(reducers), r))
      ensures Free(reducers[r]) <==> !old(reducers)[r].isFinished
    {
      if !reducers[r].isFinished {
        UnfinishedKeepsFlag(reducerFinished, reducers, TimedOut(reducers, r), r);
        reducers := reducers[r := reducers[r].(isAssigned := false)];
      }
    }

    /** With at least one task of each kind: whether every task is finished. */
    method Done() returns (ret: bool)
      requires Valid()
      ensures ret <==> IsDone(View())
      ensures ret ==> AllDone(mappers) && AllDone(reducers)
      ensures mappers != [] && reducers != [] ==> (ret <==> AllDone(mappers) && AllDone(reducers))
    {
      ret := mapperFinished && reducerFinished;
    }
  }
}
