/** The key/value service on top of the replicated log: what each replica holds in every run. */
module KvReplication {
  import opened Prelude
  import opened KvTypes
  import opened RaftLog
  import opened RaftNode
  import opened RaftSystem
  import opened RaftSystemInv
  import opened RaftSafety
  import opened KvServer
  import opened ExactlyOnce
  import opened KvContents

  // ---------- every entry but the dummy carries a command ----------

  predicate Carries(s: seq<Entry>) { forall i :: 0 <= i < |s| ==> s[i].index == 0 || s[i].command.Some? }

  predicate HostCarries(x: Host) {
    && Carries(x.node.log) && Carries(x.snapshot) && Carries(x.history) && Carries(x.queue)
    && forall p :: p in x.offers ==> Carries(p)
  }

  ghost predicate SystemCarries(sys: System) {
    && (forall v :: 0 <= v < |sys.hosts| ==> HostCarries(sys.hosts[v]))
    && (forall r :: r in sys.net.appendRequests ==> Carries(r.entries))
    && (forall r :: r in sys.net.snapshotRequests ==> Carries(r.history))
  }

  lemma {:induction false} MergeCarries(log: Log, entries: seq<Entry>)
    requires entries != [] ==> 1 <= entries[0].index <= |log| && Contiguous(entries[0].index - 1, entries)
    requires Carries(log) && Carries(entries)
    ensures Carries(MergeEntries(log, entries))
  {
    if entries != [] && !(entries[0].index >= |log| || log[entries[0].index].term != entries[0].term) {
      MergeCarries(log, entries[1..]);
    }
  }

  lemma AppendRequestCarries(s: Node, r: AppendRequest)
    requires NodeOk(s) && AppendFits(r) && Carries(s.log) && Carries(r.entries)
    ensures Carries(HandleAppendRequest(s, r).0.log)
  {
    if r.term >= s.term && r.prevLogIndex >= s.base && MatchLog(s, r.prevLogTerm, r.prevLogIndex) {
      MergeCarries(s.log, r.entries);
    }
  }

  predicate IsServiceStep(a: Action) {
    a.Collect? || a.Finish? || a.ServiceCommand? || a.ServiceSnapshot? || a.CrashRestart?
  }

  lemma ServiceStepCarries(sys: System, a: Action)
    requires SystemCarries(sys) && Enabled(sys, a) && InBounds(sys, a) && IsServiceStep(a)
    ensures HostCarries(After(sys, a).hosts[a.v])
  {
    assert HostCarries(sys.hosts[a.v]);
  }

  lemma PeerStepCarries(sys: System, a: Action)
    requires SystemCarries(sys) && Enabled(sys, a) && InBounds(sys, a) && !IsServiceStep(a)
    ensures HostCarries(After(sys, a).hosts[a.v])
  {
    assert HostCarries(sys.hosts[a.v]);
    if a.OnAppendRequest? { AppendRequestCarries(sys.hosts[a.v].node, a.appendRequest); }
  }

  lemma StepCarries(sys: System, a: Action)
    requires SystemCarries(sys) && Enabled(sys, a) && InBounds(sys, a)
    ensures SystemCarries(After(sys, a))
  {
    if IsServiceStep(a) { ServiceStepCarries(sys, a); } else { PeerStepCarries(sys, a); }
    forall v: nat | v < |sys.hosts| ensures HostCarries(After(sys, a).hosts[v]) {
      OtherHostsUntouched(sys, a, v);
      assert HostCarries(sys.hosts[v]);
    }
    assert HostCarries(sys.hosts[a.v]);
  }

  lemma {:induction false} RunCarries(run: seq<System>, i: nat)
    requires Run(run) && i < |run|
    ensures SystemCarries(run[i])
  {
    if i > 0 {
      RunCarries(run, i - 1);
      assert StepAt(run, i - 1);
      var a :| Enabled(run[i - 1], a) && InBounds(run[i - 1], a) && run[i] == After(run[i - 1], a);
      StepCarries(run[i - 1], a);
    }
  }

  // ---------- replicas ----------

  /** The commands in a log prefix, after the dummy. */
  function Commands(history: seq<Entry>): seq<Command> {
    if |history| <= 1 then []
    else
      var n := |history| - 1;
      Commands(history[..n]) + (if history[n].command.Some? then [history[n].command.value] else [])
  }

  function StateOf(history: seq<Entry>): KvState { ReplayLog(Commands(history)) }

  /** The bytes persisted with a log compacted up to this prefix; none before the first snapshot. */
  function SnapshotOf(history: seq<Entry>): Option<KvState> {
    if |history| <= 1 then None else Some(StateOf(history))
  }

  function ReplicaOf(x: Host): Replica { Replica(x.applied, StateOf(x.history)) }

  /** What the service above host a.v does when the cluster takes this step. */
  function Drive(sys: System, a: Action, r: Replica): Replica
    requires Enabled(sys, a)
  {
    var x := sys.hosts[a.v];
    match a
    case ServiceCommand(_, _) =>
      if x.queue[0].command.Some? && x.queue[0].index >= 0
      then OnMessage(r, CommandMsg(x.queue[0].index, x.queue[0].command.value), false) else r
    case ServiceSnapshot(_, p) => OnMessage(r, SnapshotMsg(|p| - 1, SnapshotOf(p)), CondInstall(x.node, p).1)
    case CrashRestart(_) => Started(SnapshotOf(x.snapshot))
    case _ => r
  }

  lemma StateExtends(history: seq<Entry>, e: Entry)
    requires |history| >= 1 && e.command.Some?
    ensures StateOf(history + [e]) == ApplyCommand(StateOf(history), e.command.value)
  {
    assert (history + [e])[..|history|] == history;
    var log, c := Commands(history), e.command.value;
    assert (log + [c])[..|log|] == log;
  }

  lemma CommandStep(sys: System, v: nat, compact: bool)
    requires SystemInv(sys) && SystemCarries(sys) && v < |sys.hosts| && sys.hosts[v].queue != []
    ensures var a := ServiceCommand(v, compact);
            && Enabled(sys, a) && InBounds(sys, a) && sys.hosts[v].queue[0].command.Some?
            && ReplicaOf(After(sys, a).hosts[v]) == Drive(sys, a, ReplicaOf(sys.hosts[v]))
    ensures var x, y := sys.hosts[v], ServeCommand(sys.hosts[v], compact);
            y.snapshot == x.snapshot || SnapshotOf(y.snapshot) == Some(ReplicaOf(y).state)
  {
    var x := sys.hosts[v];
    assert ServiceAt(sys, v) && HostCarries(x);
    assert QueuedOk(x, 0);
    StepIsInBounds(sys, ServiceCommand(v, compact));
    StateExtends(x.history, x.queue[0]);
  }

  lemma ReplicaStep(sys: System, a: Action)
    requires SystemInv(sys) && SystemCarries(sys) && Enabled(sys, a) && InBounds(sys, a)
    ensures ReplicaOf(After(sys, a).hosts[a.v]) == Drive(sys, a, ReplicaOf(sys.hosts[a.v]))
  {
    if a.ServiceCommand? {
      CommandStep(sys, a.v, a.compact);
    } else if !IsServiceStep(a) {
      PeersLeaveService(sys, a);
    }
  }

  /** Raft's own steps do not touch the service. */
  lemma PeersLeaveService(sys: System, a: Action)
    requires Enabled(sys, a) && InBounds(sys, a) && !IsServiceStep(a)
    ensures After(sys, a).hosts[a.v].history == sys.hosts[a.v].history
            && After(sys, a).hosts[a.v].applied == sys.hosts[a.v].applied
  {
  }

  /** In every run, what a replica holds is driven by the messages it is given, through any mix
      of redelivery, accepted and refused snapshots and restarts, and equals the replay of the
      log prefix it has absorbed; the snapshots it takes encode that state. */
  lemma ReplicaFollowsLog(run: seq<System>, i: nat, a: Action)
    requires Run(run) && i < |run| && Enabled(run[i], a)
    ensures InBounds(run[i], a)
    ensures ReplicaOf(After(run[i], a).hosts[a.v]) == Drive(run[i], a, ReplicaOf(run[i].hosts[a.v]))
    ensures forall v :: 0 <= v < |run[i].hosts| && v != a.v ==>
              ReplicaOf(After(run[i], a).hosts[v]) == ReplicaOf(run[i].hosts[v])
    ensures var x, y := run[i].hosts[a.v], After(run[i], a).hosts[a.v];
            a.ServiceCommand? && y.snapshot != x.snapshot ==> SnapshotOf(y.snapshot) == Some(ReplicaOf(y).state)
  {
    RunKeeps(run, i);
    RunCarries(run, i);
    NeverOutOfBounds(run, i, a);
    ReplicaStep(run[i], a);
    if a.ServiceCommand? { CommandStep(run[i], a.v, a.compact); }
    forall v: nat | v < |run[i].hosts| && v != a.v
      ensures ReplicaOf(After(run[i], a).hosts[v]) == ReplicaOf(run[i].hosts[v]) {
      OtherHostsUntouched(run[i], a, v);
    }
  }

  /** Services driven by the messages of a run: actions[i] leads from run[i] to run[i + 1]. */
  ghost predicate DrivenAt(run: seq<System>, actions: seq<Action>, replicas: seq<seq<Replica>>, i: nat)
    requires |replicas| == |run| && |actions| + 1 == |run|
  {
    i + 1 < |run| ==>
      && Enabled(run[i], actions[i]) && InBounds(run[i], actions[i]) && run[i + 1] == After(run[i], actions[i])
      && |replicas[i]| == |run[i].hosts|
      && var v := actions[i].v; replicas[i + 1] == replicas[i][v := Drive(run[i], actions[i], replicas[i][v])]
  }

  ghost predicate Driven(run: seq<System>, actions: seq<Action>, replicas: seq<seq<Replica>>) {
    && |run| >= 1 && |replicas| == |run| && |actions| + 1 == |run| && InitialSystem(run[0])
    && replicas[0] == seq(|run[0].hosts|, _ => Started(None))
    && forall i: nat :: DrivenAt(run, actions, replicas, i)
  }

  lemma DrivenIsRun(run: seq<System>, actions: seq<Action>, replicas: seq<seq<Replica>>)
    requires Driven(run, actions, replicas)
    ensures Run(run)
  {
    forall i: nat ensures StepAt(run, i) { assert DrivenAt(run, actions, replicas, i); }
  }

  /** Every replica's state is the replay of the log prefix its host has absorbed. */
  lemma {:induction false} ReplicasReplayLog(run: seq<System>, actions: seq<Action>, replicas: seq<seq<Replica>>,
                                             i: nat)
    requires Driven(run, actions, replicas) && i < |run|
    ensures |replicas[i]| == |run[i].hosts|
    ensures forall v :: 0 <= v < |run[i].hosts| ==> replicas[i][v] == ReplicaOf(run[i].hosts[v])
  {
    if i > 0 {
      DrivenIsRun(run, actions, replicas);
      ReplicasReplayLog(run, actions, replicas, i - 1);
      assert DrivenAt(run, actions, replicas, i - 1);
      ReplicaFollowsLog(run, i - 1, actions[i - 1]);
      SameHosts(run[i - 1], actions[i - 1]);
    }
  }

  lemma SameHosts(sys: System, a: Action)
    requires Enabled(sys, a) && InBounds(sys, a)
    ensures |After(sys, a).hosts| == |sys.hosts|
  {
    OtherHostsUntouched(sys, a, a.v);
  }

  /** Replicas that have absorbed equally many entries hold the same store and the same table of
      last operations, at whatever two moments of a run. */
  lemma ReplicasAgree(run: seq<System>, actions: seq<Action>, replicas: seq<seq<Replica>>, i: nat, j: nat, v: nat,
                      w: nat)
    requires Driven(run, actions, replicas) && i < |run| && j < |run| && v < |run[i].hosts| && w < |run[j].hosts|
    requires |run[i].hosts[v].history| == |run[j].hosts[w].history|
    ensures v < |replicas[i]| && w < |replicas[j]| && replicas[i][v].state == replicas[j][w].state
  {
    DrivenIsRun(run, actions, replicas);
    ReplicasReplayLog(run, actions, replicas, i);
    ReplicasReplayLog(run, actions, replicas, j);
    EqualLengthEqualHistory(run, i, j, v, w);
    assert run[i].hosts[v].history == run[j].hosts[w].history;
  }

  /** A store holds exactly what these writes, executed one after the other, leave behind. */
  ghost predicate StoreHoldsLog(store: map<string, string>, log: seq<Command>, k: string) {
    LogHolds(log, k, ValueOf(store, k)) && (k in store <==> Written(log, k))
  }

  /** In every run, each key of a replica holds the last effective put to it followed by the later
      effective appends; nothing else is in the store. */
  lemma ReplicaHolds(run: seq<System>, actions: seq<Action>, replicas: seq<seq<Replica>>, i: nat, v: nat, k: string)
    requires Driven(run, actions, replicas) && i < |run| && v < |run[i].hosts|
    ensures v < |replicas[i]|
    ensures StoreHoldsLog(replicas[i][v].state.store, Effective(Commands(run[i].hosts[v].history)), k)
  {
    ReplicasReplayLog(run, actions, replicas, i);
    StoreIsEffective(Commands(run[i].hosts[v].history));
    PlainHolds(Effective(Commands(run[i].hosts[v].history)), k);
  }

  /** If clients' first copies are in order in the log a replica has absorbed, its store is that of
      executing every distinct write once, whatever was duplicated. */
  lemma ReplicaExactlyOnce(run: seq<System>, actions: seq<Action>, replicas: seq<seq<Replica>>, i: nat, v: nat,
                           k: string)
    requires Driven(run, actions, replicas) && i < |run| && v < |run[i].hosts|
    requires ClientOrder(Commands(run[i].hosts[v].history))
    ensures v < |replicas[i]|
    ensures replicas[i][v].state.store == Plain(FirstCopies(Commands(run[i].hosts[v].history)))
    ensures StoreHoldsLog(replicas[i][v].state.store, FirstCopies(Commands(run[i].hosts[v].history)), k)
  {
    ReplicasReplayLog(run, actions, replicas, i);
    ReplayIsPlainReplay(Commands(run[i].hosts[v].history));
    PlainHolds(FirstCopies(Commands(run[i].hosts[v].history)), k);
  }

  /** A get is answered with what its key holds at the replica that applies it, and with ErrNoKey exactly
      when no effective write to the key came before. */
  lemma ReplicaAnswers(run: seq<System>, actions: seq<Action>, replicas: seq<seq<Replica>>, i: nat, v: nat, c: Command)
    requires Driven(run, actions, replicas) && i < |run| && v < |run[i].hosts| && c.op == OpGet
    ensures v < |replicas[i]|
    ensures var a, log := Answer(replicas[i][v].state.store, c), Effective(Commands(run[i].hosts[v].history));
            LogHolds(log, c.key, a.value) && (a.err == ErrNoKey <==> !Written(log, c.key))
  {
    ReplicaHolds(run, actions, replicas, i, v, c.key);
  }
}
