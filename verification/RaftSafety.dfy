/** What holds in every run of the cluster, whatever is lost, delayed, repeated or crashed. */
module RaftSafety {
  import opened Prelude
  import opened RaftLog
  import opened RaftNode
  import opened RaftCore
  import opened RaftCoreFacts
  import opened RaftCoreSteps
  import opened RaftSystem
  import opened RaftSystemInv
  import opened RaftSystemSteps
  import opened RaftServiceSteps
  import CommitRule

  lemma InitialSystemInv(sys: System)
    requires InitialSystem(sys)
    ensures SystemInv(sys)
  {
    InitialInv(CoreOf(sys));
    forall v: nat ensures NodeAt(sys, v) && ServiceAt(sys, v) {
      if v < |sys.hosts| {
        assert sys.hosts[v] == InitialHost(v, |sys.hosts|);
        assert sys.hosts[v].node.log[..1] == [DUMMY];
      }
    }
  }

  /** Whatever step the environment attempts next, every slice index it needs is in range. */
  lemma StepIsInBounds(sys: System, a: Action)
    requires SystemInv(sys) && Enabled(sys, a)
    ensures InBounds(sys, a)
  {
    var x := sys.hosts[a.v];
    assert NodeAt(sys, a.v) && ServiceAt(sys, a.v) && ServerOk(CoreOf(sys), a.v);
    match a {
      case SendAppend(v, peer) => assert MatchOk(sys.h, x.node, peer);
      case OnAppendRequest(v, r) => RequestFits(sys.h, r);
      case OnAppendReply(v, r) => assert AppendReplyOk(sys.h, r);
      case ServiceCommand(v, _) => assert QueuedOk(x, 0);
      case _ =>
    }
  }

  lemma RequestFits(h: History, r: AppendRequest)
    requires AppendRequestOk(h, r) && forall t: nat :: LeaderLogOk(h, t)
    ensures AppendFits(r)
  {
    assert LeaderLogOk(h, r.term);
  }

  lemma StepKeeps(sys: System, a: Action)
    requires SystemInv(sys) && Enabled(sys, a) && InBounds(sys, a)
    ensures SystemInv(After(sys, a))
  {
    assert NodeAt(sys, a.v);
    match a {
      case Timeout(v) => TimeoutKeeps(sys, v);
      case OnVoteRequest(v, r) => VoteRequestKeeps(sys, v, r);
      case OnVoteReply(v, r) => VoteReplyKeeps(sys, v, r);
      case SendAppend(v, peer) => SendAppendKeeps(sys, v, peer);
      case OnAppendRequest(v, r) => AppendRequestKeeps(sys, v, r);
      case OnAppendReply(v, r) => AppendReplyKeeps(sys, v, r);
      case ClientStart(v, command) => ClientStartKeeps(sys, v, command);
      case SendSnapshot(v) => SendSnapshotKeeps(sys, v);
      case OnSnapshotRequest(v, r) => SnapshotRequestKeeps(sys, v, r);
      case OnSnapshotReply(v, r) => SnapshotReplyKeeps(sys, v, r);
      case Collect(v) => CollectKeeps(sys, v);
      case Finish(v) => FinishKeeps(sys, v);
      case ServiceCommand(v, compact) => ServeCommandKeeps(sys, v, compact);
      case ServiceSnapshot(v, p) => ServeSnapshotKeeps(sys, v, p);
      case CrashRestart(v) => RebootKeeps(sys, v);
    }
  }

  lemma NextKeeps(sys: System, next: System)
    requires SystemInv(sys) && Step(sys, next)
    ensures SystemInv(next)
  {
    var a :| Enabled(sys, a) && InBounds(sys, a) && next == After(sys, a);
    StepKeeps(sys, a);
  }

  lemma {:induction false} RunKeeps(run: seq<System>, i: nat)
    requires Run(run) && i < |run|
    ensures SystemInv(run[i])
  {
    if i == 0 {
      InitialSystemInv(run[0]);
    } else {
      RunKeeps(run, i - 1);
      assert StepAt(run, i - 1);
      NextKeeps(run[i - 1], run[i]);
    }
  }

  // ---------- histories along a run ----------

  /** Later histories extend earlier ones: leaders stay leaders of their terms, and their logs
      grow only by entries of their own term. */
  ghost predicate Extends(h: History, g: History) {
    && Grows(h, g)
    && (forall t :: t in h.leaderLog && t in h.leaderOf ==> t in g.leaderOf && g.leaderOf[t] == h.leaderOf[t])
    && (forall t, i :: t in h.leaderLog && |h.leaderLog[t]| <= i < |g.leaderLog[t]| ==> g.leaderLog[t][i].term == t)
  }

  lemma ExtendsTransitive(f: History, g: History, h: History)
    requires Extends(f, g) && Extends(g, h)
    ensures Extends(f, h)
  {
    forall t | t in f.leaderLog ensures f.leaderLog[t] <= h.leaderLog[t] {
      PrefixTransitive(f.leaderLog[t], g.leaderLog[t], h.leaderLog[t]);
    }
    forall t, i | t in f.leaderLog && |f.leaderLog[t]| <= i < |h.leaderLog[t]| ensures h.leaderLog[t][i].term == t {
      if i < |g.leaderLog[t]| { assert h.leaderLog[t][i] == g.leaderLog[t][i]; }
    }
  }

  lemma AppendRequestExtends(sys: System, v: nat, r: AppendRequest)
    requires SystemInv(sys) && v < |sys.hosts| && r in sys.net.appendRequests
    requires AppendFits(r) && NodeInv(sys.h, sys.hosts[v], v)
    ensures Extends(sys.h, AfterAppendRequest(sys, v, r).h)
  {
    assert AppendRequestOk(sys.h, r);
    if PassesCheck(sys.hosts[v].node, r) {
      AcceptedNode(sys, v, r);
      AcceptCore(sys, v, r, AfterAppendRequest(sys, v, r));
    } else {
      RejectedNode(sys.h, sys.hosts[v].node, r, v);
    }
  }

  lemma StepExtends(sys: System, a: Action)
    requires SystemInv(sys) && Enabled(sys, a) && InBounds(sys, a)
    ensures Extends(sys.h, After(sys, a).h)
  {
    assert NodeAt(sys, a.v);
    match a {
      case OnVoteReply(v, r) => VoteReplyCore(sys, v, r);
      case OnAppendRequest(v, r) => AppendRequestExtends(sys, v, r);
      case ClientStart(v, command) => StartedCore(sys, v, command);
      case _ =>
    }
  }

  lemma NextExtends(sys: System, next: System)
    requires SystemInv(sys) && Step(sys, next)
    ensures Extends(sys.h, next.h)
  {
    var a :| Enabled(sys, a) && InBounds(sys, a) && next == After(sys, a);
    StepExtends(sys, a);
  }

  lemma RunStepExtends(run: seq<System>, i: nat)
    requires Run(run) && i + 1 < |run|
    ensures Extends(run[i].h, run[i + 1].h)
  {
    RunKeeps(run, i);
    assert StepAt(run, i);
    NextExtends(run[i], run[i + 1]);
  }

  lemma {:induction false} RunExtends(run: seq<System>, i: nat, j: nat)
    requires Run(run) && i <= j < |run|
    ensures Extends(run[i].h, run[j].h)
    decreases j - i
  {
    if i < j {
      RunExtends(run, i, j - 1);
      RunStepExtends(run, j - 1);
      ExtendsTransitive(run[i].h, run[j - 1].h, run[j].h);
    }
  }

  // ---------- the theorems ----------

  /** No step the environment can attempt in any run ever indexes out of bounds. */
  lemma NeverOutOfBounds(run: seq<System>, i: nat, a: Action)
    requires Run(run) && i < |run| && Enabled(run[i], a)
    ensures InBounds(run[i], a)
  {
    RunKeeps(run, i);
    StepIsInBounds(run[i], a);
  }

  /** A snapshot message names the last entry of the prefix its data encodes. */
  predicate NamesItsPrefix(r: SnapshotRequest) {
    Indexed(r.history) && r.lastIncludedIndex == |r.history| - 1 && r.lastIncludedTerm == LastTerm(r.history)
  }

  /** What the Raft object's method for an action demands of its caller. */
  predicate MethodReady(x: Host, a: Action) {
    && NodeOk(x.node)
    && match a
       case SendAppend(_, peer) => CanSendAppend(x.node, peer)
       case OnAppendRequest(_, r) => AppendFits(r)
       case OnAppendReply(_, r) => ReplyFits(x.node, r.sender, r.request)
       case OnSnapshotRequest(_, r) => NamesItsPrefix(r)
       case OnSnapshotReply(_, r) => r.sender < x.node.peers
       case Collect(_) => CanDeliver(x.node)
       case ServiceCommand(_, _) => x.queue != [] && x.queue[0].index <= x.node.commit < |x.node.log|
       case ServiceSnapshot(_, p) => Indexed(p)
       case _ => true
  }

  /** In every run, whatever the environment attempts meets the precondition of the method it calls;
      in particular the service compacts only what is committed. */
  lemma ActionsFitMethods(run: seq<System>, n: nat, a: Action)
    requires Run(run) && n < |run| && Enabled(run[n], a)
    ensures MethodReady(run[n].hosts[a.v], a)
  {
    RunKeeps(run, n);
    var sys := run[n];
    StepIsInBounds(sys, a);
    assert NodeAt(sys, a.v) && ServiceAt(sys, a.v);
    match a {
      case ServiceCommand(v, _) => assert QueuedOk(sys.hosts[v], 0);
      case OnSnapshotRequest(_, r) => assert SnapshotRequestOk(sys.h, r);
      case _ =>
    }
  }

  predicate Leads(sys: System, v: nat, t: nat) {
    v < |sys.hosts| && sys.hosts[v].node.role == Leader && sys.hosts[v].node.term == t
  }

  lemma LeaderOnRecord(run: seq<System>, i: nat, j: nat, v: nat, t: nat)
    requires Run(run) && i <= j < |run| && Leads(run[i], v, t)
    ensures var h := run[j].h;
            && t in run[i].h.leaderLog && run[i].hosts[v].node.log == run[i].h.leaderLog[t]
            && t in h.leaderLog && run[i].hosts[v].node.log <= h.leaderLog[t]
            && t in h.leaderOf && h.leaderOf[t] == v
  {
    RunKeeps(run, i);
    RunExtends(run, i, j);
    assert ServerOk(CoreOf(run[i]), v);
  }

  /** Election safety: at most one server ever leads a term, at whatever two moments. */
  lemma ElectionSafety(run: seq<System>, i: nat, j: nat, v: nat, w: nat, t: nat)
    requires Run(run) && i < |run| && j < |run| && Leads(run[i], v, t) && Leads(run[j], w, t)
    ensures v == w
  {
    var k := if i <= j then j else i;
    LeaderOnRecord(run, i, k, v, t);
    LeaderOnRecord(run, j, k, w, t);
  }

  lemma SafeLater(run: seq<System>, i: nat, j: nat, p: seq<Entry>, b: nat)
    requires Run(run) && i <= j < |run| && Safe(run[i].h, p, b)
    ensures Safe(run[j].h, p, b) && Completeness(CoreOf(run[j]))
  {
    RunKeeps(run, j);
    RunExtends(run, i, j);
    SafeGrows(run[i].h, run[j].h, p, b);
    InvGivesCompleteness(CoreOf(run[j]));
  }

  /** The part of a server's log it considers committed. */
  function CommittedLog(sys: System, v: nat): seq<Entry>
    requires v < |sys.hosts|
  {
    var s := sys.hosts[v].node;
    if s.commit < |s.log| then s.log[..s.commit + 1] else s.log
  }

  /** Leader completeness: what any server considers committed in term t at any moment is in the
      log of every leader of a later term, at every moment, earlier ones included. */
  lemma LeaderCompleteness(run: seq<System>, i: nat, j: nat, v: nat, w: nat, t: nat)
    requires Run(run) && i < |run| && j < |run| && v < |run[i].hosts| && Leads(run[j], w, t)
    requires run[i].hosts[v].node.term < t || (run[i].hosts[v].node.term == t && i <= j)
    ensures CommittedLog(run[i], v) <= run[j].hosts[w].node.log
  {
    var k := if i <= j then j else i;
    var p, b := CommittedLog(run[i], v), run[i].hosts[v].node.term;
    RunKeeps(run, i);
    assert ServerOk(CoreOf(run[i]), v);
    SafeLater(run, i, k, p, b);
    LeaderOnRecord(run, j, k, w, t);
    SafeInLater(CoreOf(run[k]), p, b, t);
    SafeIsSound(run[k].h, p, b);
    RunExtends(run, j, k);
    var log, lead := run[j].hosts[w].node.log, run[k].h.leaderLog[t];
    assert p[|p| - 1] == lead[|p| - 1];
    assert i <= j ==> lead == log;
    PrefixesCompare(p, log, lead);
  }

  /** Entry e at index k is in server v's service, or copied out for delivery to it. */
  ghost predicate Delivers(sys: System, v: nat, k: nat, e: Entry) {
    && v < |sys.hosts|
    && ((1 <= k < |sys.hosts[v].history| && sys.hosts[v].history[k] == e)
        || (e in sys.hosts[v].queue && e.index == k))
  }

  lemma DeliveredIsCommitted(sys: System, v: nat, k: nat, e: Entry)
    requires SystemInv(sys) && Delivers(sys, v, k, e)
    ensures k < |CommittedLog(sys, v)| && CommittedLog(sys, v)[k] == e
    ensures Safe(sys.h, CommittedLog(sys, v), sys.hosts[v].node.term)
  {
    assert ServiceAt(sys, v) && ServerOk(CoreOf(sys), v);
    var x := sys.hosts[v];
    HistoryIsCommitted(sys, v);
    if e in x.queue && e.index == k {
      var i :| 0 <= i < |x.queue| && x.queue[i] == e;
      assert QueuedOk(x, i);
    }
  }

  /** State machine safety: no two servers, at any two moments of a run, deliver different
      entries at the same index. */
  lemma StateMachineSafety(run: seq<System>, i: nat, j: nat, v: nat, w: nat, k: nat, e: Entry, f: Entry)
    requires Run(run) && i < |run| && j < |run| && Delivers(run[i], v, k, e) && Delivers(run[j], w, k, f)
    ensures e == f
  {
    var m := if i <= j then j else i;
    RunKeeps(run, i);
    RunKeeps(run, j);
    DeliveredIsCommitted(run[i], v, k, e);
    DeliveredIsCommitted(run[j], w, k, f);
    var p, q := CommittedLog(run[i], v), CommittedLog(run[j], w);
    var a, b := run[i].hosts[v].node.term, run[j].hosts[w].node.term;
    SafeLater(run, i, m, p, a);
    SafeLater(run, j, m, q, b);
    if |p| <= |q| { SafesAgree(CoreOf(run[m]), p, a, q, b); } else { SafesAgree(CoreOf(run[m]), q, b, p, a); }
  }

  /** Two services that reflect equally long histories reflect the same history, at whatever
      two moments and however snapshots, redelivery and restarts got them there. */
  lemma EqualLengthEqualHistory(run: seq<System>, i: nat, j: nat, v: nat, w: nat)
    requires Run(run) && i < |run| && j < |run| && v < |run[i].hosts| && w < |run[j].hosts|
    requires |run[i].hosts[v].history| <= |run[j].hosts[w].history|
    ensures run[i].hosts[v].history <= run[j].hosts[w].history
  {
    var p, q := run[i].hosts[v].history, run[j].hosts[w].history;
    RunKeeps(run, i);
    RunKeeps(run, j);
    assert ServiceAt(run[i], v) && ServiceAt(run[j], w);
    forall k | 1 <= k < |p| ensures p[k] == q[k] {
      StateMachineSafety(run, i, j, v, w, k, p[k], q[k]);
    }
  }

  /** Some shipped entry disagrees in its term with the entry the log has at its index. */
  ghost predicate Conflicts(log: Log, entries: seq<Entry>) {
    exists i :: 0 <= i < |entries| && 0 <= entries[i].index < |log| && log[entries[i].index].term != entries[i].term
  }

  /** AppendEntries shortens or overwrites a log only on a conflict: a stale or repeated request
      whose entries the log already holds changes nothing below them. */
  lemma {:induction false} TruncatesOnlyOnConflict(log: Log, entries: seq<Entry>)
    requires entries != [] ==> 1 <= entries[0].index <= |log| && Contiguous(entries[0].index - 1, entries)
    ensures log <= MergeEntries(log, entries) <==> !Conflicts(log, entries)
  {
    if entries != [] {
      var k := entries[0].index;
      if k >= |log| {
        assert log[..k] == log;
        assert forall i :: 0 <= i < |entries| ==> entries[i].index >= |log|;
      } else if log[k].term != entries[0].term {
        assert (log[..k] + entries)[k] == entries[0];
      } else {
        TruncatesOnlyOnConflict(log, entries[1..]);
        assert forall i :: 1 <= i < |entries| ==> entries[i] == entries[1..][i - 1];
        if Conflicts(log, entries) {
          var i :| 0 <= i < |entries| && 0 <= entries[i].index < |log| && log[entries[i].index].term != entries[i].term;
          assert entries[1..][i - 1] == entries[i];
        }
      }
    }
  }

  lemma SoundUpTo(sys: System, v: nat, i: nat)
    requires SystemInv(sys) && v < |sys.hosts| && i < |sys.hosts[v].node.log|
    requires i <= sys.hosts[v].node.commit || Sound(sys.h, sys.hosts[v].node.log)
    ensures Sound(sys.h, sys.hosts[v].node.log[..i + 1]) && Monotone(sys.hosts[v].node.log[..i + 1])
  {
    var s := sys.hosts[v].node;
    assert ServerOk(CoreOf(sys), v);
    if i <= s.commit {
      SafePrefix(sys.h, s.log[..i + 1], s.log[..s.commit + 1], s.term);
      SafeIsSound(sys.h, s.log[..i + 1], s.term);
    } else {
      SoundPrefix(sys.h, s.log, s.log[..i + 1]);
      SoundIsMonotone(sys.h, s.log[..i + 1]);
    }
  }

  /** Installing a snapshot keeps a log sound exactly when the comparison the code leaves out would
      succeed: no entry is kept above the snapshot, or the one at its index has its term. */
  lemma InstallSoundIff(c: Core, v: nat, p: Log)
    requires Inv(c) && CanInstall(c, v, p) && Sound(c.h, c.servers[v].log)
    ensures var log := c.servers[v].log;
            Sound(c.h, Installed(log, p)) <==> |log| <= |p| || log[|p| - 1].term == LastTerm(p)
  {
    var log := c.servers[v].log;
    var after := Installed(log, p);
    SafeIsSound(c.h, p, c.servers[v].term);
    InstallAcceptable(c, v, p);
    if |log| <= |p| {
      assert after == p;
    } else {
      if log[|p| - 1].term == LastTerm(p) {
        SoundLogsMatch(c.h, log, p, |p| - 1);
        assert p == p[..|p|] && p <= log;
      }
      if Sound(c.h, after) {
        assert after[|p|] == log[|p|];
        SoundLogsMatch(c.h, after, log, |p|);
        assert log[|p| - 1] == log[..|p| + 1][|p| - 1] == after[..|p| + 1][|p| - 1] == p[|p| - 1];
      }
    }
  }

  // ---------- committed entries are never lost ----------

  predicate LogOnlyGrows(sys: System, next: System, v: nat) {
    && v < |sys.hosts| && v < |next.hosts|
    && sys.hosts[v].node.log <= next.hosts[v].node.log && sys.hosts[v].node.term <= next.hosts[v].node.term
  }

  lemma ElectionsKeepLogs(sys: System, a: Action)
    requires Enabled(sys, a) && InBounds(sys, a)
    requires a.Timeout? || a.OnVoteRequest? || a.OnVoteReply? || a.OnSnapshotRequest? || a.OnSnapshotReply?
             || a.CrashRestart?
    ensures LogOnlyGrows(sys, After(sys, a), a.v)
  {
  }

  lemma OtherStepsKeepLogs(sys: System, a: Action)
    requires Enabled(sys, a) && InBounds(sys, a)
    requires a.SendAppend? || a.OnAppendReply? || a.ClientStart? || a.SendSnapshot? || a.Collect? || a.Finish?
             || a.ServiceCommand?
    ensures LogOnlyGrows(sys, After(sys, a), a.v)
  {
  }

  lemma OtherHostsUntouched(sys: System, a: Action, v: nat)
    requires Enabled(sys, a) && InBounds(sys, a) && v < |sys.hosts|
    ensures |After(sys, a).hosts| == |sys.hosts| && (v != a.v ==> After(sys, a).hosts[v] == sys.hosts[v])
  {
  }

  /** No step of any server drops an entry that its log holds and that is committed by its term. */
  lemma StepKeepsCommitted(sys: System, a: Action, v: nat, p: Log)
    requires SystemInv(sys) && Enabled(sys, a) && InBounds(sys, a) && v < |sys.hosts|
    requires Safe(sys.h, p, sys.hosts[v].node.term) && p <= sys.hosts[v].node.log
    ensures v < |After(sys, a).hosts| && p <= After(sys, a).hosts[v].node.log
    ensures sys.hosts[v].node.term <= After(sys, a).hosts[v].node.term
  {
    OtherHostsUntouched(sys, a, v);
    if a.v == v {
      if a.OnAppendRequest? {
        assert NodeAt(sys, v);
        AppendKeepsPrefix(sys, v, a.appendRequest, p);
      } else if a.ServiceSnapshot? {
        InstallKeepsPrefix(sys, v, a.offer, p);
      } else {
        if a.Timeout? || a.OnVoteRequest? || a.OnVoteReply? || a.OnSnapshotRequest? || a.OnSnapshotReply?
          || a.CrashRestart? {
          ElectionsKeepLogs(sys, a);
        } else {
          OtherStepsKeepLogs(sys, a);
        }
        PrefixTransitive(p, sys.hosts[v].node.log, After(sys, a).hosts[v].node.log);
      }
    }
  }

  lemma NextKeepsCommitted(sys: System, next: System, v: nat, p: Log)
    requires SystemInv(sys) && Step(sys, next) && v < |sys.hosts|
    requires Safe(sys.h, p, sys.hosts[v].node.term) && p <= sys.hosts[v].node.log
    ensures v < |next.hosts| && p <= next.hosts[v].node.log
    ensures sys.hosts[v].node.term <= next.hosts[v].node.term
  {
    var a :| Enabled(sys, a) && InBounds(sys, a) && next == After(sys, a);
    StepKeepsCommitted(sys, a, v, p);
  }

  lemma AppendKeepsPrefix(sys: System, v: nat, r: AppendRequest, p: Log)
    requires SystemInv(sys) && v < |sys.hosts| && r in sys.net.appendRequests
    requires AppendFits(r) && NodeInv(sys.h, sys.hosts[v], v)
    requires Safe(sys.h, p, sys.hosts[v].node.term) && p <= sys.hosts[v].node.log
    ensures p <= AfterAppendRequest(sys, v, r).hosts[v].node.log
    ensures sys.hosts[v].node.term <= AfterAppendRequest(sys, v, r).hosts[v].node.term
  {
    var s := sys.hosts[v].node;
    assert AppendRequestOk(sys.h, r);
    if PassesCheck(s, r) {
      AcceptedNode(sys, v, r);
      var lead, m := sys.h.leaderLog[r.term], ReachOf(r);
      InvGivesCompleteness(CoreOf(sys));
      SafeInLater(CoreOf(sys), p, s.term, r.term);
      if m <= |p| {
        PrefixesCompare(lead[..m], p, lead);
        PrefixTransitive(lead[..m], p, s.log);
      } else {
        PrefixesCompare(p, lead[..m], lead);
      }
    } else {
      RejectedNode(sys.h, s, r, v);
    }
  }

  lemma InstallKeepsPrefix(sys: System, v: nat, q: Log, p: Log)
    requires SystemInv(sys) && v < |sys.hosts| && q in sys.hosts[v].offers
    requires Safe(sys.h, p, sys.hosts[v].node.term) && p <= sys.hosts[v].node.log
    ensures p <= ServeSnapshot(sys.hosts[v], q).node.log
  {
    var c := CoreOf(sys);
    var s := sys.hosts[v].node;
    assert ServiceAt(sys, v);
    if |q| - 1 > s.commit {
      InvGivesCompleteness(c);
      InstallAcceptable(c, v, q);
      if |q| <= |p| {
        SafesAgree(c, q, s.term, p, s.term);
        PrefixTransitive(q, p, s.log);
      } else {
        SafesAgree(c, p, s.term, q, s.term);
        PrefixTransitive(p, q, Installed(s.log, q));
      }
    }
  }

  lemma SafeNow(run: seq<System>, i: nat, j: nat, v: nat, p: Log)
    requires Run(run) && i <= j < |run| && v < |run[i].hosts| && v < |run[j].hosts|
    requires Safe(run[i].h, p, run[i].hosts[v].node.term) && run[i].hosts[v].node.term <= run[j].hosts[v].node.term
    ensures SystemInv(run[j]) && Safe(run[j].h, p, run[j].hosts[v].node.term)
  {
    RunKeeps(run, j);
    SafeLater(run, i, j, p, run[i].hosts[v].node.term);
    SafeBoundGrows(run[j].h, p, run[i].hosts[v].node.term, run[j].hosts[v].node.term);
  }

  lemma {:induction false} PrefixStays(run: seq<System>, i: nat, j: nat, v: nat, p: Log)
    requires Run(run) && i <= j < |run| && v < |run[i].hosts|
    requires Safe(run[i].h, p, run[i].hosts[v].node.term) && p <= run[i].hosts[v].node.log
    ensures v < |run[j].hosts| && p <= run[j].hosts[v].node.log
    ensures run[i].hosts[v].node.term <= run[j].hosts[v].node.term
    decreases j - i
  {
    if i < j {
      PrefixStays(run, i, j - 1, v, p);
      SafeNow(run, i, j - 1, v, p);
      assert StepAt(run, j - 1);
      NextKeepsCommitted(run[j - 1], run[j], v, p);
    }
  }

  /** What a server considers committed stays in its own log for the rest of the run, through
      truncating requests, snapshot installs, crashes and restarts. */
  lemma CommittedForever(run: seq<System>, i: nat, j: nat, v: nat)
    requires Run(run) && i <= j < |run| && v < |run[i].hosts|
    ensures v < |run[j].hosts| && CommittedLog(run[i], v) <= run[j].hosts[v].node.log
  {
    RunKeeps(run, i);
    assert ServerOk(CoreOf(run[i]), v);
    PrefixStays(run, i, j, v, CommittedLog(run[i], v));
  }

  // ---------- what the leader commits ----------

  /** The rule of Figure 2 of the extended Raft paper for advancing a leader's commit index. */
  ghost predicate MayCommit(s: Node, n: int) {
    && s.commit < n < |s.log| && Quorum(|s.matchIndex|, CommitRule.Matching(s.matchIndex, n))
    && s.log[n].term == s.term
  }

  /** Testing only the order statistic commits exactly the largest index Figure 2 allows. */
  lemma AdvanceCommitsLargest(run: seq<System>, n: nat, v: nat)
    requires Run(run) && n < |run| && v < |run[n].hosts| && run[n].hosts[v].node.role == Leader
    ensures NodeOk(run[n].hosts[v].node)
    ensures var s := run[n].hosts[v].node;
            var y := AdvanceLeader(s);
            && (y.commit == s.commit || MayCommit(s, y.commit))
            && forall k :: MayCommit(s, k) ==> k <= y.commit
  {
    RunKeeps(run, n);
    var sys := run[n];
    var s := sys.hosts[v].node;
    assert NodeAt(sys, v) && ServerOk(CoreOf(sys), v) && LeaderLogOk(sys.h, s.term);
    var m := CommitRule.HighestMatched(s.matchIndex);
    assert CommitRule.IsMajorityIndex(s.matchIndex, m);
    assert m < |s.log| by { MajorityBelowLog(sys.h, s, m); }
    forall k | MayCommit(s, k) ensures k <= AdvanceLeader(s).commit {
      assert k <= m && s.log[k].term <= s.log[m].term;
    }
  }

  lemma MajorityBelowLog(h: History, s: Node, m: int)
    requires NodeOk(s) && CommitRule.IsMajorityIndex(s.matchIndex, m)
    requires forall p: nat :: p < s.peers ==> MatchOk(h, s, p)
    ensures m < |s.log|
  {
    var q := CommitRule.Matching(s.matchIndex, m);
    assert Quorum(|s.matchIndex|, q);
    assert |q| > 0;
    var p :| p in q;
    assert MatchOk(h, s, p);
  }

  // ---------- the service's view ----------

  /** In every run the service meets each index once and in order: the next queued entry is
      one it has applied already, or exactly the index after those its state reflects. */
  lemma ServiceSeesConsecutiveIndices(run: seq<System>, n: nat, v: nat)
    requires Run(run) && n < |run| && v < |run[n].hosts| && run[n].hosts[v].queue != []
    ensures var x := run[n].hosts[v];
            && (x.queue[0].index <= x.applied || x.queue[0].index == |x.history|)
            && x.applied < |x.history| && x.history <= x.node.log
  {
    RunKeeps(run, n);
    assert ServiceAt(run[n], v);
    AcceptsNextIndex(run[n].hosts[v], run[n].h);
    HistoryIsCommitted(run[n], v);
  }
}
