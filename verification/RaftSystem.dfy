/** The whole cluster as a step machine: hosts that crash and restart, and a network
    whose messages may be lost, delayed, reordered or handled repeatedly.

    A host is a Raft peer together with the service above it.  The service's state is
    represented by `history`, the log prefix it reflects. */
module RaftSystem {
  import opened Prelude
  import opened RaftLog
  import opened KvTypes
  import opened RaftNode
  import opened RaftCore

  datatype Host = Host(
    node: Node,
    awaiting: set<nat>,         // peers whose answer to the current election is outstanding
    supporters: set<nat>,       // peers whose granted vote has been counted in it
    offers: set<Log>,           // snapshots handed over by InstallSnapshot, not yet seen by the service
    queue: seq<Entry>,          // entries the applier copied out, not yet seen by the service
    delivering: Option<nat>,    // the commit index the applier is working towards
    snapshot: Log,              // what the persisted snapshot reflects
    history: Log,               // what the service's state reflects
    applied: nat)               // the service's own record of the last index it applied

  datatype VoteReply = VoteReply(voter: nat, candidate: nat, requestTerm: nat, answer: VoteResponse)

  datatype AppendReply = AppendReply(sender: nat, request: AppendRequest, answer: AppendResponse)

  datatype SnapshotReply = SnapshotReply(sender: nat, request: SnapshotRequest, answerTerm: nat)

  datatype Network = Network(
    voteRequests: set<VoteRequest>,
    voteReplies: set<VoteReply>,
    appendRequests: set<AppendRequest>,
    appendReplies: set<AppendReply>,
    snapshotRequests: set<SnapshotRequest>,
    snapshotReplies: set<SnapshotReply>)

  datatype System = System(hosts: seq<Host>, net: Network, h: History)

  datatype Action =
    | Timeout(v: nat)
    | OnVoteRequest(v: nat, voteRequest: VoteRequest)
    | OnVoteReply(v: nat, voteReply: VoteReply)
    | SendAppend(v: nat, peer: nat)
    | OnAppendRequest(v: nat, appendRequest: AppendRequest)
    | OnAppendReply(v: nat, appendReply: AppendReply)
    | ClientStart(v: nat, command: Command)
    | SendSnapshot(v: nat)
    | OnSnapshotRequest(v: nat, snapshotRequest: SnapshotRequest)
    | OnSnapshotReply(v: nat, snapshotReply: SnapshotReply)
    | Collect(v: nat)
    | Finish(v: nat)
    | ServiceCommand(v: nat, compact: bool)
    | ServiceSnapshot(v: nat, offer: Log)
    | CrashRestart(v: nat)

  function ServerOf(s: Node): Server { Server(s.role, s.term, s.log, s.commit) }

  function CoreOf(sys: System): Core {
    Core(seq(|sys.hosts|, i requires 0 <= i < |sys.hosts| => ServerOf(sys.hosts[i].node)), sys.h)
  }

  function InitialHost(v: nat, n: nat): Host {
    Host(InitialNode(v, n), {}, {}, {}, [], None, [DUMMY], [DUMMY], 0)
  }

  predicate InitialSystem(sys: System) {
    && sys.net == Network({}, {}, {}, {}, {}, {})
    && sys.h == History(|sys.hosts|, map[], map[], map[], map[], map[])
    && forall v :: 0 <= v < |sys.hosts| ==> sys.hosts[v] == InitialHost(v, |sys.hosts|)
  }

  /** When a step may be attempted: the message exists, the timer may fire, and so on. */
  predicate Enabled(sys: System, a: Action) {
    && a.v < |sys.hosts|
    && var x := sys.hosts[a.v];
       match a
       case Timeout(_) => true
       case OnVoteRequest(v, r) => r in sys.net.voteRequests && v != r.candidateId
       case OnVoteReply(v, r) =>
         r in sys.net.voteReplies && r.candidate == v && (r.requestTerm == x.node.term ==> r.voter in x.awaiting)
       case SendAppend(v, peer) =>
         && x.node.role == Leader && peer < |sys.hosts| && peer < |x.node.nextIndex|
         && x.node.base <= x.node.nextIndex[peer] - 1
       case OnAppendRequest(v, r) => r in sys.net.appendRequests && v != r.leaderId
       case OnAppendReply(v, r) => r in sys.net.appendReplies && r.request.leaderId == v
       case ClientStart(v, _) => x.node.role == Leader
       case SendSnapshot(v) => x.node.role == Leader
       case OnSnapshotRequest(v, r) => r in sys.net.snapshotRequests && v != r.leaderId
       case OnSnapshotReply(v, r) => r in sys.net.snapshotReplies && r.request.leaderId == v
       case Collect(v) => x.delivering.None? && x.node.lastApplied < x.node.commit
       case Finish(v) => x.delivering.Some?
       case ServiceCommand(v, _) => x.queue != []
       case ServiceSnapshot(v, p) => p in x.offers
       case CrashRestart(_) => true
  }

  /** What the code needs in order not to index a slice out of bounds in this step. */
  predicate InBounds(sys: System, a: Action)
    requires Enabled(sys, a)
  {
    var x := sys.hosts[a.v];
    && NodeOk(x.node)
    && match a
       case OnAppendRequest(v, r) => AppendFits(r)
       case SendAppend(v, peer) => CanSendAppend(x.node, peer)
       case OnAppendReply(v, r) => ReplyFits(x.node, r.sender, r.request)
       case OnSnapshotReply(v, r) => r.sender < x.node.peers
       case Collect(v) => CanDeliver(x.node)
       case ServiceCommand(v, compact) => x.queue[0].index < |x.node.log|
       case _ => true
  }

  // ---------- the effect of each step ----------

  function WithHost(sys: System, v: nat, x: Host): System
    requires v < |sys.hosts|
  {
    sys.(hosts := sys.hosts[v := x])
  }

  function AfterTimeout(sys: System, v: nat): System
    requires v < |sys.hosts|
  {
    var s := ElectionTimeout(sys.hosts[v].node);
    WithHost(sys, v, sys.hosts[v].(node := s, awaiting := Below(|sys.hosts|) - {v}, supporters := {v}))
    .(net := sys.net.(voteRequests := sys.net.voteRequests + {MakeVoteRequest(s)}),
      h := StartCampaign(CoreOf(sys), v).h)
  }

  function AfterVoteRequest(sys: System, v: nat, r: VoteRequest): System
    requires v < |sys.hosts|
  {
    var (s, a) := HandleVoteRequest(sys.hosts[v].node, r);
    WithHost(sys, v, sys.hosts[v].(node := s))
    .(net := sys.net.(voteReplies := sys.net.voteReplies + {VoteReply(v, r.candidateId, r.term, a)}),
      h := if a.voteGranted then sys.h.(ballots := sys.h.ballots[(v, s.term) := r.candidateId]) else sys.h)
  }

  function AfterVoteReply(sys: System, v: nat, r: VoteReply): System
    requires v < |sys.hosts|
  {
    var x := sys.hosts[v];
    var s := HandleVoteResponse(x.node, r.requestTerm, r.answer);
    var counted := r.requestTerm == x.node.term && x.node.role == Candidate && r.answer.voteGranted;
    WithHost(sys, v, x.(node := s,
                        awaiting := if r.requestTerm == x.node.term then x.awaiting - {r.voter} else x.awaiting,
                        supporters := if counted then x.supporters + {r.voter} else x.supporters))
    .(h := if s.role == Leader && x.node.role == Candidate then Win(CoreOf(sys), v).h else sys.h)
  }

  function AfterSendAppend(sys: System, v: nat, peer: nat): System
    requires v < |sys.hosts| && CanSendAppend(sys.hosts[v].node, peer)
  {
    sys.(net := sys.net.(appendRequests := sys.net.appendRequests + {MakeAppendRequest(sys.hosts[v].node, peer)}))
  }

  /** The number of log slots a request accounts for. */
  function ReachOf(r: AppendRequest): int { r.prevLogIndex + 1 + |r.entries| }

  /** An acknowledgement is entered in the history unless it comes from a server whose
      stale suffix the request did not replace. */
  ghost function AckHistory(sys: System, v: nat, s: Node, r: AppendRequest, a: AppendResponse): History
    requires v < |sys.hosts|
  {
    if a.success && (Sound(sys.h, sys.hosts[v].node.log) || s.log != sys.hosts[v].node.log) && ReachOf(r) >= 1
    then sys.h.(acks := sys.h.acks[(v, s.term) := RaisedAck(sys.h, v, s.term, ReachOf(r) - 1)])
    else sys.h
  }

  ghost function AfterAppendRequest(sys: System, v: nat, r: AppendRequest): System
    requires v < |sys.hosts| && NodeOk(sys.hosts[v].node) && AppendFits(r)
  {
    var (s, a) := HandleAppendRequest(sys.hosts[v].node, r);
    WithHost(sys, v, sys.hosts[v].(node := s))
    .(net := sys.net.(appendReplies := sys.net.appendReplies + {AppendReply(v, r, a)}),
      h := AckHistory(sys, v, s, r, a))
  }

  ghost function AfterAppendReply(sys: System, v: nat, r: AppendReply): System
    requires v < |sys.hosts| && ReplyFits(sys.hosts[v].node, r.sender, r.request)
  {
    WithHost(sys, v, sys.hosts[v].(node := HandleAppendResponse(sys.hosts[v].node, r.sender, r.request, r.answer)))
  }

  function AfterClientStart(sys: System, v: nat, command: Command): System
    requires v < |sys.hosts| && NodeOk(sys.hosts[v].node) && sys.hosts[v].node.role == Leader
  {
    var s := StartCommand(sys.hosts[v].node, command);
    WithHost(sys, v, sys.hosts[v].(node := s)).(h := Append(CoreOf(sys), v, s.log[|s.log| - 1]).h)
  }

  function AfterSendSnapshot(sys: System, v: nat): System
    requires v < |sys.hosts| && NodeOk(sys.hosts[v].node)
  {
    var r := MakeSnapshotRequest(sys.hosts[v].node, sys.hosts[v].snapshot);
    sys.(net := sys.net.(snapshotRequests := sys.net.snapshotRequests + {r}))
  }

  function AfterSnapshotRequest(sys: System, v: nat, r: SnapshotRequest): System
    requires v < |sys.hosts|
  {
    var (s, term, handOver) := HandleSnapshotRequest(sys.hosts[v].node, r);
    WithHost(sys, v, sys.hosts[v].(node := s, offers := sys.hosts[v].offers + (if handOver then {r.history} else {})))
    .(net := sys.net.(snapshotReplies := sys.net.snapshotReplies + {SnapshotReply(v, r, term)}))
  }

  function AfterSnapshotReply(sys: System, v: nat, r: SnapshotReply): System
    requires v < |sys.hosts| && NodeOk(sys.hosts[v].node) && r.sender < sys.hosts[v].node.peers
  {
    var s := HandleSnapshotResponse(sys.hosts[v].node, r.sender, r.request, r.answerTerm);
    WithHost(sys, v, sys.hosts[v].(node := s))
  }

  function AfterCollect(sys: System, v: nat): System
    requires v < |sys.hosts| && CanDeliver(sys.hosts[v].node)
  {
    var x := sys.hosts[v];
    WithHost(sys, v, x.(queue := x.queue + Deliverable(x.node), delivering := Some(x.node.commit)))
  }

  function AfterFinish(sys: System, v: nat): System
    requires v < |sys.hosts| && sys.hosts[v].delivering.Some?
  {
    var x := sys.hosts[v];
    WithHost(sys, v, x.(node := Delivered(x.node, x.delivering.value), delivering := None))
  }

  /** The service's filter: skip what it has applied already, else apply it and perhaps
      take a snapshot at that index. */
  function ServeCommand(x: Host, compact: bool): Host
    requires x.queue != [] && x.queue[0].index < |x.node.log|
  {
    var e := x.queue[0];
    var x := x.(queue := x.queue[1..]);
    if e.index <= x.applied then x
    else
      var x := x.(applied := e.index, history := x.history + [e]);
      if compact && e.index > x.node.base then x.(node := CompactTo(x.node, e.index), snapshot := x.history) else x
  }

  function ServeSnapshot(x: Host, p: Log): Host {
    var (s, ok) := CondInstall(x.node, p);
    if ok then x.(node := s, snapshot := p, history := p, applied := |p| - 1) else x
  }

  /** Memory is lost; the persisted Raft state and service snapshot come back. */
  function Reboot(x: Host): Host {
    Host(Restart(x.node), {}, {}, {}, [], None, x.snapshot, x.snapshot, 0)
  }

  ghost function After(sys: System, a: Action): System
    requires Enabled(sys, a) && InBounds(sys, a)
  {
    match a
    case Timeout(v) => AfterTimeout(sys, v)
    case OnVoteRequest(v, r) => AfterVoteRequest(sys, v, r)
    case OnVoteReply(v, r) => AfterVoteReply(sys, v, r)
    case SendAppend(v, peer) => AfterSendAppend(sys, v, peer)
    case OnAppendRequest(v, r) => AfterAppendRequest(sys, v, r)
    case OnAppendReply(v, r) => AfterAppendReply(sys, v, r)
    case ClientStart(v, command) => AfterClientStart(sys, v, command)
    case SendSnapshot(v) => AfterSendSnapshot(sys, v)
    case OnSnapshotRequest(v, r) => AfterSnapshotRequest(sys, v, r)
    case OnSnapshotReply(v, r) => AfterSnapshotReply(sys, v, r)
    case Collect(v) => AfterCollect(sys, v)
    case Finish(v) => AfterFinish(sys, v)
    case ServiceCommand(v, compact) => WithHost(sys, v, ServeCommand(sys.hosts[v], compact))
    case ServiceSnapshot(v, p) => WithHost(sys, v, ServeSnapshot(sys.hosts[v], p))
    case CrashRestart(v) => WithHost(sys, v, Reboot(sys.hosts[v]))
  }

  ghost predicate Step(sys: System, next: System) {
    exists a :: Enabled(sys, a) && InBounds(sys, a) && next == After(sys, a)
  }

  ghost predicate StepAt(run: seq<System>, i: nat) {
    i + 1 < |run| ==> Step(run[i], run[i + 1])
  }

  /** A run of the cluster. */
  ghost predicate Run(run: seq<System>) {
    |run| >= 1 && InitialSystem(run[0]) && forall i: nat :: StepAt(run, i)
  }

  ghost predicate ActionAt(run: seq<System>, actions: seq<Action>, i: nat)
    requires |actions| + 1 == |run|
  {
    i < |actions| ==>
      Enabled(run[i], actions[i]) && InBounds(run[i], actions[i]) && run[i + 1] == After(run[i], actions[i])
  }

  /** The run in which these actions are taken one after the other. */
  ghost predicate RunBy(run: seq<System>, actions: seq<Action>) {
    |actions| + 1 == |run| && InitialSystem(run[0]) && forall i: nat :: ActionAt(run, actions, i)
  }
}
