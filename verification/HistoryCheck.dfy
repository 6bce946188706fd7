/** From timed operations to the entry lists the checker searches, and the verdict on a
    key/value history checked one key at a time. */
module HistoryCheck {
  import opened Prelude
  import opened Linearizability
  import opened SubHistories
  import opened Sorting
  import opened CheckerList
  import opened SearchProgress
  import opened Checker
  import opened KvModel
  import opened KvContents

  /** A call or a return with its timestamp. */
  datatype TimedEvent<I, O> = TimedEvent(event: Event<I, O>, time: int, clientId: int)

  /** By time; at equal times calls come before returns. */
  predicate Earlier<I, O>(a: TimedEvent<I, O>, b: TimedEvent<I, O>) {
    if a.time != b.time then a.time < b.time else a.event.Call? && b.event.Return?
  }

  function CallOf<I, O>(ops: seq<Operation<I, O>>, a: nat): TimedEvent<I, O>
    requires a < |ops|
  {
    TimedEvent(Call(a, ops[a].input), ops[a].call, ops[a].clientId)
  }

  function ReturnOf<I, O>(ops: seq<Operation<I, O>>, a: nat): TimedEvent<I, O>
    requires a < |ops|
  {
    TimedEvent(Return(a, ops[a].output), ops[a].ret, ops[a].clientId)
  }

  /** The call and the return of every operation, in the order of the history. */
  ghost predicate Unsorted<I, O>(ops: seq<Operation<I, O>>, n: nat, entries: seq<TimedEvent<I, O>>) {
    && n <= |ops| && |entries| == 2 * n
    && (forall a: nat :: a < n ==> PairAt(ops, entries, a))
  }

  ghost predicate PairAt<I, O>(ops: seq<Operation<I, O>>, entries: seq<TimedEvent<I, O>>, a: nat) {
    && a < |ops| && 2 * a + 1 < |entries|
    && entries[2 * a] == CallOf(ops, a) && entries[2 * a + 1] == ReturnOf(ops, a)
  }

  lemma UnsortedAt<I, O>(ops: seq<Operation<I, O>>, entries: seq<TimedEvent<I, O>>, i: nat)
    requires Unsorted(ops, |ops|, entries) && i < |entries|
    ensures i / 2 < |ops| && PairAt(ops, entries, i / 2)
    ensures entries[i] == if i % 2 == 0 then CallOf(ops, i / 2) else ReturnOf(ops, i / 2)
  {
    assert PairAt(ops, entries, i / 2);
    assert i == 2 * (i / 2) + i % 2;
  }

  lemma UnsortedDistinct<I, O>(ops: seq<Operation<I, O>>, entries: seq<TimedEvent<I, O>>)
    requires Unsorted(ops, |ops|, entries)
    ensures Distinct(entries)
  {
    forall i, j | 0 <= i < j < |entries| ensures entries[i] != entries[j] {
      UnsortedAt(ops, entries, i);
      UnsortedAt(ops, entries, j);
    }
  }

  // ---------- sorted entries ----------

  /** What sorting leaves of the entries, whichever sort is used. */
  ghost predicate Entries<I, O>(ops: seq<Operation<I, O>>, s: seq<TimedEvent<I, O>>) {
    && |s| == 2 * |ops| && Sorted(Earlier, s) && Distinct(s)
    && (forall a: nat :: a < |ops| ==> CallOf(ops, a) in s && ReturnOf(ops, a) in s)
    && (forall i: nat :: i < |s| ==> EntryOf(ops, s[i]))
  }

  ghost predicate EntryOf<I, O>(ops: seq<Operation<I, O>>, e: TimedEvent<I, O>) {
    e.event.id < |ops| && e == if e.event.Call? then CallOf(ops, e.event.id) else ReturnOf(ops, e.event.id)
  }

  lemma SortMakesEntries<I, O>(ops: seq<Operation<I, O>>, entries: seq<TimedEvent<I, O>>, s: seq<TimedEvent<I, O>>)
    requires Unsorted(ops, |ops|, entries) && IsSortOf(Earlier, entries, s)
    ensures Entries(ops, s)
  {
    SameMultisetSameElems(entries, s);
    UnsortedDistinct(ops, entries);
    PermutedDistinct(entries, s);
    forall a: nat | a < |ops| ensures CallOf(ops, a) in s && ReturnOf(ops, a) in s {
      assert PairAt(ops, entries, a);
      assert entries[2 * a] in entries && entries[2 * a + 1] in entries;
    }
    forall i: nat | i < |s| ensures EntryOf(ops, s[i]) {
      assert s[i] in entries;
      var j: nat :| j < |entries| && entries[j] == s[i];
      UnsortedAt(ops, entries, j);
    }
  }

  function Events<I, O>(s: seq<TimedEvent<I, O>>): (h: seq<Event<I, O>>)
    ensures |h| == |s| && forall i :: 0 <= i < |s| ==> h[i] == s[i].event
  {
    seq(|s|, i requires 0 <= i < |s| => s[i].event)
  }

  ghost function Position<T>(s: seq<T>, x: T): (i: nat)
    requires x in s
    ensures i < |s| && s[i] == x
  {
    var i: nat :| i < |s| && s[i] == x;
    i
  }

  /** The history again, timed by positions in the sorted list. */
  ghost function Retimed<I, O>(ops: seq<Operation<I, O>>, s: seq<TimedEvent<I, O>>): (r: seq<Operation<I, O>>)
    requires Entries(ops, s)
    ensures |r| == |ops|
    ensures forall a: nat :: a < |ops| ==>
              r[a] == ops[a].(call := Position(s, CallOf(ops, a)), ret := Position(s, ReturnOf(ops, a)))
  {
    seq(|ops|, a requires 0 <= a < |ops| =>
          ops[a].(call := Position(s, CallOf(ops, a)), ret := Position(s, ReturnOf(ops, a))))
  }

  /** Returned before called, in time and in the list, are the same. */
  lemma SortKeepsPrecedence<I, O>(ops: seq<Operation<I, O>>, s: seq<TimedEvent<I, O>>, a: nat, b: nat)
    requires Entries(ops, s) && a < |ops| && b < |ops|
    ensures ops[a].ret < ops[b].call <==> Position(s, ReturnOf(ops, a)) < Position(s, CallOf(ops, b))
    ensures Position(s, ReturnOf(ops, a)) != Position(s, CallOf(ops, b))
  {
    var p, q := Position(s, ReturnOf(ops, a)), Position(s, CallOf(ops, b));
    assert s[p] != s[q];
    assert p < q ==> !Earlier(s[q], s[p]);
    assert q < p ==> !Earlier(s[p], s[q]);
  }

  /** The sorted list describes the operations, and orders them as their timestamps do. */
  lemma SortedDescribes<I, O>(ops: seq<Operation<I, O>>, s: seq<TimedEvent<I, O>>)
    requires Entries(ops, s) && forall a :: 0 <= a < |ops| ==> ops[a].call <= ops[a].ret
    ensures Describes(Events(s), Retimed(ops, s)) && SameOrder(ops, Retimed(ops, s))
  {
    var r, h := Retimed(ops, s), Events(s);
    forall a: nat ensures OperationAt(h, r, a) {
      if a < |ops| { SortKeepsPrecedence(ops, s, a, a); }
    }
    forall p: nat ensures EventAt(h, r, p) {
      if p < |s| { assert EntryOf(ops, s[p]); }
    }
    forall a: nat, b: nat | a < |ops| && b < |ops| ensures Precedes(ops, a, b) <==> Precedes(r, a, b) {
      SortKeepsPrecedence(ops, s, a, b);
    }
  }

  lemma DescribedSame<I, O>(h: seq<Event<I, O>>, ops: seq<Operation<I, O>>, other: seq<Operation<I, O>>)
    requires Describes(h, ops) && Describes(h, other)
    ensures SameOrder(ops, other)
  {
    forall a: nat | a < |ops| ensures ops[a].call == other[a].call && ops[a].ret == other[a].ret
                                   && ops[a].input == other[a].input && ops[a].output == other[a].output {
      assert OperationAt(h, ops, a) && OperationAt(h, other, a);
      assert EventAt(h, other, ops[a].call) && EventAt(h, other, ops[a].ret);
    }
  }

  lemma EntriesOrdered<I(!new), O(!new)>()
    ensures WeakOrder<TimedEvent<I, O>>(Earlier)
  {
  }

  /** Any sort by time gives a well-formed entry list with the verdict of the history. */
  lemma EntriesKeepVerdict<S, I(!new), O(!new)>(m: Model<S, I, O>, ops: seq<Operation<I, O>>, s: seq<TimedEvent<I, O>>)
    requires Entries(ops, s) && forall a :: 0 <= a < |ops| ==> ops[a].call <= ops[a].ret
    ensures WellFormed(Events(s))
    ensures Linearizable(m, OpsOf(Events(s))) <==> Linearizable(m, ops)
  {
    SortedDescribes(ops, s);
    var r := Retimed(ops, s);
    DescribedSame(Events(s), r, OpsOf(Events(s)));
    SameOrderSameVerdict(m, ops, r);
    SameOrderSameVerdict(m, r, OpsOf(Events(s)));
  }

  method MakeEntries<I(!new), O(!new)>(history: seq<Operation<I, O>>) returns (s: seq<TimedEvent<I, O>>)
    ensures Entries(history, s)
  {
    var entries: seq<TimedEvent<I, O>> := [];
    for id := 0 to |history|
      invariant Unsorted(history, id, entries)
    {
      ghost var before := entries;
      entries := entries + [CallOf(history, id)];
      entries := entries + [ReturnOf(history, id)];
      forall a: nat | a < id + 1 ensures PairAt(history, entries, a) {
        if a < id { assert PairAt(history, before, a); }
      }
    }
    EntriesOrdered<I, O>();
    s := Sort(Earlier, entries);
    SortMakesEntries(history, entries, s);
  }

  // ---------- the verdict over all partitions ----------

  ghost predicate PartLinearizable<S(!new), I(!new), O(!new)>(model: Model<S, I, O>, history: seq<Event<I, O>>) {
    WellFormed(history) && Linearizable(model, OpsOf(history))
  }

  ghost predicate AllLinearizable<S(!new), I(!new), O(!new)>(model: Model<S, I, O>, histories: seq<seq<Event<I, O>>>) {
    forall i :: 0 <= i < |histories| ==> PartLinearizable(model, histories[i])
  }

  /** The first n verdicts reported were all positive. */
  ghost predicate AllReported<S(!new), I(!new), O(!new)>(model: Model<S, I, O>, histories: seq<seq<Event<I, O>>>,
                                                         arrival: seq<nat>, n: nat) {
    && n <= |arrival| && InRange(arrival, |histories|)
    && forall k :: 0 <= k < n ==> PartLinearizable(model, histories[arrival[k]])
  }

  lemma ReportsDecide<S(!new), I(!new), O(!new)>(model: Model<S, I, O>, histories: seq<seq<Event<I, O>>>,
                                                 arrival: seq<nat>, n: nat)
    requires n <= |arrival| == |histories| && InRange(arrival, |histories|) && Distinct(arrival)
    ensures AllLinearizable(model, histories) ==> AllReported(model, histories, arrival, n)
    ensures n == |histories| ==> (AllLinearizable(model, histories) <==> AllReported(model, histories, arrival, n))
  {
    FullOrder(arrival, |histories|);
    if n == |histories| && AllReported(model, histories, arrival, n) {
      forall i | 0 <= i < |histories| ensures PartLinearizable(model, histories[i]) {
        assert i in Elems(arrival);
        var k :| 0 <= k < |arrival| && arrival[k] == i;
      }
    }
  }

  datatype CheckResult = Ok | Illegal | Unknown

  /** What the records say of one part: they hold partial linearizations only and, if the search
      was not stopped, through every operation one as long as any. */
  ghost predicate RecordsOk<S(!new), I(!new), O(!new)>(model: Model<S, I, O>, history: seq<Event<I, O>>,
                                                       longest: Record, stopped: bool) {
    && WellFormed(history) && (forall id: nat :: Recorded(model, OpsOf(history), longest, id))
    && (!stopped ==> forall id: nat, order: seq<nat> :: Reached(model, OpsOf(history), longest, id, order))
  }

  ghost predicate Reached<S, I, O>(m: Model<S, I, O>, ops: seq<Operation<I, O>>, longest: Record, id: nat,
                                   order: seq<nat>) {
    Partial(m, ops, order) && id in order ==>
      id < |longest| && longest[id].Some? && id in longest[id].value && |order| <= |longest[id].value|
  }

  lemma AnswersRecorded<S(!new), I(!new), O(!new)>(model: Model<S, I, O>, history: seq<Event<I, O>>, stopped: bool,
                                                   ok: bool, longest: Record)
    requires WellFormed(history) && Answers(model, OpsOf(history), true, stopped, ok, longest)
    ensures RecordsOk(model, history, longest, stopped)
  {
    var ops := OpsOf(history);
    if ok {
      forall id: nat ensures Recorded(model, ops, longest, id) {
        if id < |longest| { FullIsPartial(model, history, longest[id].value, id); }
      }
      forall id: nat, order: seq<nat> ensures Reached(model, ops, longest, id, order) {
        if Partial(model, ops, order) && id in order {
          FullOrder(order, |ops|);
          FullIsPartial(model, history, longest[id].value, id);
        }
      }
    } else if !stopped {
      forall id: nat, order: seq<nat> ensures Reached(model, ops, longest, id, order) {
        if Partial(model, ops, order) && id in order {
          assert id < |longest| && IsLongest(model, ops, id, longest[id]);
        }
        assert Recorded(model, ops, longest, id);
      }
    }
  }

  lemma FullIsPartial<S(!new), I(!new), O(!new)>(model: Model<S, I, O>, history: seq<Event<I, O>>, order: seq<nat>,
                                                 id: nat)
    requires WellFormed(history) && Linearization(model, OpsOf(history), order) && id < |OpsOf(history)|
    ensures Partial(model, OpsOf(history), order) && id in order
  {
    var ops := OpsOf(history);
    DescribedIsWellTimed(history, ops);
    CompletePartial(model, ops, order);
    FullOrder(order, |ops|);
    assert id in Elems(order);
  }

  /** The distinct partial linearizations in a record. */
  function PartialsIn(longest: Record): set<seq<nat>> { set r | r in longest && r.Some? :: r.value }

  /** The partial linearizations shown for a part can all be replayed and, if its search was not stopped,
      include one of the greatest length through every operation that has any. */
  ghost predicate InfoOk<S(!new), I(!new), O(!new)>(model: Model<S, I, O>, history: seq<Event<I, O>>,
                                                    partials: set<seq<nat>>, stopped: bool) {
    && WellFormed(history) && (forall p :: p in partials ==> Partial(model, OpsOf(history), p))
    && (!stopped ==> forall id: nat, order: seq<nat> :: Partial(model, OpsOf(history), order) && id in order ==>
          exists p :: p in partials && id in p && |order| <= |p|)
  }

  lemma RecordsShown<S(!new), I(!new), O(!new)>(model: Model<S, I, O>, history: seq<Event<I, O>>, longest: Record,
                                                stopped: bool)
    requires RecordsOk(model, history, longest, stopped)
    ensures InfoOk(model, history, PartialsIn(longest), stopped)
  {
    var ops := OpsOf(history);
    forall p | p in PartialsIn(longest) ensures Partial(model, ops, p) {
      var id: nat :| id < |longest| && longest[id] == Some(p);
      assert Recorded(model, ops, longest, id);
    }
    if !stopped {
      forall id: nat, order: seq<nat> | Partial(model, ops, order) && id in order
        ensures exists p :: p in PartialsIn(longest) && id in p && |order| <= |p|
      {
        assert Reached(model, ops, longest, id, order);
        assert longest[id] in longest && longest[id].value in PartialsIn(longest);
      }
    }
  }

  /** The timeout fires before the last of n reports is in. */
  predicate Fires(timeout: Option<nat>, n: nat) { timeout.Some? && (n == 0 || timeout.value < n) }

  /** Collects one verdict per partition, in whatever order (arrival) they are reported, until the
      timeout fires after so many of them.  Searches still going on then may be stopped at any turn. */
  method CheckParallel<S(==, !new), I(!new), O(!new)>(model: Model<S, I, O>, histories: seq<seq<Event<I, O>>>,
                                                      computeInfo: bool,
                                                      arrival: seq<nat>, timeout: Option<nat>, kills: seq<Option<nat>>)
    returns (result: CheckResult, info: seq<set<seq<nat>>>)
    requires (histories == [] ==> timeout.Some?) && forall i :: 0 <= i < |histories| ==> WellFormed(histories[i])
    requires |arrival| == |kills| == |histories| && InRange(arrival, |histories|) && Distinct(arrival)
    ensures result == Ok ==> AllLinearizable(model, histories)
    ensures result == Illegal ==> !AllLinearizable(model, histories)
    ensures result == Unknown ==> Fires(timeout, |histories|)
    ensures computeInfo ==> |info| == |histories|
    ensures computeInfo ==> forall i :: 0 <= i < |info| ==>
              InfoOk(model, histories[i], info[i], Fires(timeout, |histories|))
  {
    ghost var stopped := Fires(timeout, |histories|);
    var ok, timedOut, count := true, false, 0;
    var longest: map<nat, Record> := map[];
    while count < |histories|
      invariant 0 <= count <= |histories|
      invariant ok <==> AllReported(model, histories, arrival, count)
      invariant computeInfo ==> Gathered(model, histories, arrival, longest, count, stopped)
    {
      if timeout.Some? && timeout.value <= count {
        timedOut := true;
        break;
      }
      var i := arrival[count];
      var verdict, l := CheckSingle(model, histories[i], computeInfo, None);
      assert verdict <==> PartLinearizable(model, histories[i]);
      if computeInfo {
        AnswersRecorded(model, histories[i], false, verdict, l);
        GatheredMore(model, histories, arrival, longest, count, stopped, l);
      }
      longest := longest[i := l];
      count := count + 1;
      ok := ok && verdict;
      if !ok && !computeInfo {
        break;
      }
    }
    if histories == [] {
      timedOut := true;
    }
    ReportsDecide(model, histories, arrival, count);
    info := [];
    if computeInfo {
      longest := AwaitRest(model, histories, arrival, kills, longest, count, stopped);
      info := CollectInfo(model, histories, arrival, longest, stopped);
    }
    result := if !ok then Illegal else if timedOut then Unknown else Ok;
  }

  /** The records of the first n reports are in. */
  ghost predicate Gathered<S(!new), I(!new), O(!new)>(model: Model<S, I, O>, histories: seq<seq<Event<I, O>>>,
                                                      arrival: seq<nat>,
                                                      longest: map<nat, Record>, n: nat, stopped: bool) {
    && n <= |arrival| && InRange(arrival, |histories|)
    && forall k :: 0 <= k < n ==>
       arrival[k] in longest && RecordsOk(model, histories[arrival[k]], longest[arrival[k]], stopped)
  }

  lemma GatheredMore<S(!new), I(!new), O(!new)>(model: Model<S, I, O>, histories: seq<seq<Event<I, O>>>,
                                                arrival: seq<nat>,
                                                longest: map<nat, Record>, n: nat, stopped: bool, l: Record)
    requires n < |arrival| && Distinct(arrival) && Gathered(model, histories, arrival, longest, n, stopped)
    requires exists full :: (full ==> stopped) && RecordsOk(model, histories[arrival[n]], l, full)
    ensures Gathered(model, histories, arrival, longest[arrival[n] := l], n + 1, stopped)
  {
  }

  method AwaitRest<S(==, !new), I(!new), O(!new)>(model: Model<S, I, O>, histories: seq<seq<Event<I, O>>>,
                                                  arrival: seq<nat>,
                                                  kills: seq<Option<nat>>, longest: map<nat, Record>, count: nat,
                                                  ghost stopped: bool)
    returns (all: map<nat, Record>)
    requires forall i :: 0 <= i < |histories| ==> WellFormed(histories[i])
    requires |arrival| == |kills| == |histories| && InRange(arrival, |histories|) && Distinct(arrival)
    requires Gathered(model, histories, arrival, longest, count, stopped) && (count < |histories| ==> stopped)
    ensures Gathered(model, histories, arrival, all, |histories|, stopped)
  {
    all := longest;
    for n := count to |histories|
      invariant Gathered(model, histories, arrival, all, n, stopped)
    {
      var verdict, l := CheckSingle(model, histories[arrival[n]], true, kills[n]);
      AnswersRecorded(model, histories[arrival[n]], kills[n].Some?, verdict, l);
      GatheredMore(model, histories, arrival, all, n, stopped, l);
      all := all[arrival[n] := l];
    }
  }

  lemma EveryPartGathered<S(!new), I(!new), O(!new)>(model: Model<S, I, O>, histories: seq<seq<Event<I, O>>>,
                                                     arrival: seq<nat>,
                                                     longest: map<nat, Record>, stopped: bool, i: nat)
    requires |arrival| == |histories| && Distinct(arrival) && i < |histories|
    requires Gathered(model, histories, arrival, longest, |histories|, stopped)
    ensures i in longest && RecordsOk(model, histories[i], longest[i], stopped)
  {
    FullOrder(arrival, |histories|);
    assert i in Elems(arrival);
    var k :| 0 <= k < |arrival| && arrival[k] == i;
  }

  method CollectInfo<S(!new), I(!new), O(!new)>(ghost model: Model<S, I, O>, histories: seq<seq<Event<I, O>>>,
                                                ghost arrival: seq<nat>,
                                                longest: map<nat, Record>, ghost stopped: bool)
    returns (info: seq<set<seq<nat>>>)
    requires |arrival| == |histories| && Distinct(arrival)
    requires Gathered(model, histories, arrival, longest, |histories|, stopped)
    ensures |info| == |histories| && forall i :: 0 <= i < |info| ==> InfoOk(model, histories[i], info[i], stopped)
  {
    info := [];
    for i := 0 to |histories|
      invariant |info| == i && forall j :: 0 <= j < i ==> InfoOk(model, histories[j], info[j], stopped)
    {
      EveryPartGathered(model, histories, arrival, longest, stopped, i);
      RecordsShown(model, histories[i], longest[i], stopped);
      info := info + [PartialsIn(longest[i])];
    }
  }

  /** The entry list of every part, with the part's verdict. */
  method EntryLists(history: seq<KvOperation>, parts: seq<seq<KvOperation>>, ghost keys: seq<string>)
    returns (l: seq<seq<Event<KvInput, KvOutput>>>)
    requires Timely(history) && PartsFor(history, keys, parts)
    ensures |l| == |keys| && forall j :: 0 <= j < |l| ==> WellFormed(l[j])
    ensures forall j :: 0 <= j < |l| ==> (PartLinearizable(KeyModel(), l[j]) <==> KeyLinearizable(history, keys[j]))
  {
    l := [];
    for i := 0 to |parts|
      invariant |l| == i
      invariant forall j :: 0 <= j < i ==> WellFormed(l[j])
      invariant forall j :: 0 <= j < i ==> (PartLinearizable(KeyModel(), l[j]) <==> KeyLinearizable(history, keys[j]))
    {
      var entries := MakeEntries(parts[i]);
      SubHistoryTimely(history, keys[i]);
      EntriesKeepVerdict(KeyModel(), parts[i], entries);
      l := l + [Events(entries)];
    }
  }

  lemma PartsAgree(history: seq<KvOperation>, keys: seq<string>, l: seq<seq<Event<KvInput, KvOutput>>>)
    requires Timely(history) && Elems(keys) == Keys(history) && |l| == |keys|
    requires forall j :: 0 <= j < |l| ==> (PartLinearizable(KeyModel(), l[j]) <==> KeyLinearizable(history, keys[j]))
    ensures AllLinearizable(KeyModel(), l) <==> Linearizable(StoreModel(), history)
  {
    PartsDecide(history, keys);
    Locality(history);
  }

  /** Checking each key's operations alone decides linearizability of the whole store: a verdict is
      never wrong, and there is one unless the timeout fires. */
  method CheckOperations(history: seq<KvOperation>, verbose: bool, arrival: seq<nat>, timeout: Option<nat>,
                         kills: seq<Option<nat>>)
    returns (result: CheckResult, entries: seq<seq<Event<KvInput, KvOutput>>>, info: seq<set<seq<nat>>>)
    requires Timely(history) && (history == [] ==> timeout.Some?)
    requires |arrival| == |kills| == |Keys(history)| && InRange(arrival, |Keys(history)|) && Distinct(arrival)
    ensures result == Ok ==> Linearizable(StoreModel(), history) && Explainable(history)
    ensures result == Illegal ==> !Linearizable(StoreModel(), history) && !Explainable(history)
    ensures result == Unknown ==> Fires(timeout, |Keys(history)|)
    ensures verbose ==> |info| == |entries| == |Keys(history)|
    ensures verbose ==> forall i :: 0 <= i < |info| ==>
              InfoOk(KeyModel(), entries[i], info[i], Fires(timeout, |Keys(history)|))
  {
    var parts := Partition(history);
    ghost var keys: seq<string> :| PartsFor(history, keys, parts);
    IncreasingDistinct(keys);
    DistinctSize(keys);
    if history != [] { assert history[0].input.key in Keys(history); }
    entries := EntryLists(history, parts, keys);
    result, info := CheckParallel(KeyModel(), entries, verbose, arrival, timeout, kills);
    PartsAgree(history, keys, entries);
    LinearizableIffExplainable(history);
  }
}
