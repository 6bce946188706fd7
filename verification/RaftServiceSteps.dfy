/** Snapshots, delivery to the service, and restarts keep the invariant. */
module RaftServiceSteps {
  import opened Prelude
  import opened RaftLog
  import opened RaftNode
  import opened RaftCore
  import opened RaftCoreFacts
  import opened RaftCoreSteps
  import opened RaftSystem
  import opened RaftSystemInv
  import opened RaftSystemSteps

  lemma SentSnapshotOk(sys: System, v: nat)
    requires SystemInv(sys) && v < |sys.hosts| && NodeOk(sys.hosts[v].node) && sys.hosts[v].node.role == Leader
    ensures SnapshotRequestOk(sys.h, MakeSnapshotRequest(sys.hosts[v].node, sys.hosts[v].snapshot))
  {
    var x := sys.hosts[v];
    PeerFacts(sys, v);
    assert ServerOk(CoreOf(sys), v) && ServiceAt(sys, v);
    SafePrefix(sys.h, x.snapshot, x.node.log[..x.node.commit + 1], x.node.term);
  }

  lemma SendSnapshotKeeps(sys: System, v: nat)
    requires SystemInv(sys) && v < |sys.hosts| && NodeOk(sys.hosts[v].node) && sys.hosts[v].node.role == Leader
    ensures SystemInv(AfterSendSnapshot(sys, v))
  {
    SentSnapshotOk(sys, v);
    OnlyMessages(sys, AfterSendSnapshot(sys, v));
  }

  lemma SnapshotRequestHost(sys: System, v: nat, r: SnapshotRequest)
    requires SystemInv(sys) && v < |sys.hosts| && SnapshotRequestOk(sys.h, r)
    ensures var next := AfterSnapshotRequest(sys, v, r);
            Inv(CoreOf(next)) && NodeInv(next.h, next.hosts[v], v)
  {
    var next := AfterSnapshotRequest(sys, v, r);
    if r.term >= sys.hosts[v].node.term {
      AdoptedHost(sys, next, v);
    } else {
      CoreWith(sys, next, v);
      assert CoreOf(next).servers == CoreOf(sys).servers;
      assert NodeAt(sys, v);
    }
  }

  lemma SnapshotRequestKeeps(sys: System, v: nat, r: SnapshotRequest)
    requires SystemInv(sys) && v < |sys.hosts| && r in sys.net.snapshotRequests
    ensures SystemInv(AfterSnapshotRequest(sys, v, r))
  {
    var next := AfterSnapshotRequest(sys, v, r);
    PeerFacts(sys, v);
    SnapshotRequestHost(sys, v, r);
    SameHistoryEvolves(sys.h, v);
    PeerStep(sys, next, v);
  }

  /** The reply may come before the peer has installed anything; recording it is harmless
      because the snapshot is committed. */
  lemma SnapshotReplyKeeps(sys: System, v: nat, r: SnapshotReply)
    requires SystemInv(sys) && v < |sys.hosts| && r in sys.net.snapshotReplies
    requires NodeOk(sys.hosts[v].node) && r.sender < sys.hosts[v].node.peers
    ensures SystemInv(AfterSnapshotReply(sys, v, r))
  {
    var next := AfterSnapshotReply(sys, v, r);
    var s, y := sys.hosts[v].node, next.hosts[v].node;
    assert SnapshotReplyOk(sys.h, r) && NodeAt(sys, v) && ServerOk(CoreOf(sys), v);
    if s.role != Leader || s.term != r.request.term {
      assert next == sys by { assert next.hosts == sys.hosts; }
    } else if r.answerTerm > s.term {
      SteppingDown(sys, next, v);
    } else {
      assert s.log[..|r.request.history|] == r.request.history;
      forall p: nat | p < s.peers ensures MatchOk(sys.h, y, p) { assert MatchOk(sys.h, s, p); }
      LeaderBookkeeping(sys, next, v);
    }
  }

  /** A step that touches only the service and the applier's bookkeeping. */
  lemma ServiceOnly(sys: System, next: System, v: nat)
    requires SystemInv(sys) && v < |sys.hosts| && |next.hosts| == |sys.hosts| && next.h == sys.h && next.net == sys.net
    requires next.hosts == sys.hosts[v := next.hosts[v]]
    requires ServerOf(next.hosts[v].node) == ServerOf(sys.hosts[v].node)
    requires NodeInv(next.h, next.hosts[v], v) && ServiceInv(next.h, next.hosts[v])
    ensures SystemInv(next)
  {
    CoreWith(sys, next, v);
    assert CoreOf(next).servers == CoreOf(sys).servers;
    SameHistoryEvolves(sys.h, v);
    StepOfOneHost(sys, next, v);
  }

  lemma CollectService(h: History, x: Host)
    requires ServiceInv(h, x) && CanDeliver(x.node) && Indexed(x.node.log) && x.delivering.None?
    ensures ServiceInv(h, x.(queue := x.queue + Deliverable(x.node), delivering := Some(x.node.commit)))
  {
    var batch := Deliverable(x.node);
    var y := x.(queue := x.queue + batch, delivering := Some(x.node.commit));
    forall k: nat | k < |y.queue| ensures QueuedOk(y, k) {
      if k < |x.queue| {
        assert QueuedOk(x, k) && y.queue[k] == x.queue[k];
        if k >= 1 { assert y.queue[k - 1] == x.queue[k - 1]; }
      } else {
        assert y.queue[k] == x.node.log[x.node.lastApplied + 1 + (k - |x.queue|)];
        if k > |x.queue| {
          assert y.queue[k - 1] == x.node.log[x.node.lastApplied + (k - |x.queue|)];
        } else if k >= 1 {
          assert y.queue[k - 1] == x.queue[|x.queue| - 1];
        }
      }
    }
    assert y.queue[|y.queue| - 1] == x.node.log[x.node.commit];
  }

  lemma CollectKeeps(sys: System, v: nat)
    requires SystemInv(sys) && v < |sys.hosts| && CanDeliver(sys.hosts[v].node) && sys.hosts[v].delivering.None?
    ensures SystemInv(AfterCollect(sys, v))
  {
    assert NodeAt(sys, v) && ServiceAt(sys, v);
    CollectService(sys.h, sys.hosts[v]);
    ServiceOnly(sys, AfterCollect(sys, v), v);
  }

  lemma FinishKeeps(sys: System, v: nat)
    requires SystemInv(sys) && v < |sys.hosts| && sys.hosts[v].delivering.Some?
    ensures SystemInv(AfterFinish(sys, v))
  {
    var next := AfterFinish(sys, v);
    var x, y := sys.hosts[v], next.hosts[v];
    assert NodeAt(sys, v) && ServiceAt(sys, v);
    if y.node.role == Leader {
      forall p: nat | p < y.node.peers ensures MatchOk(sys.h, y.node, p) { assert MatchOk(sys.h, x.node, p); }
    }
    forall k: nat | k < |y.queue| ensures QueuedOk(y, k) { assert QueuedOk(x, k); }
    ServiceOnly(sys, next, v);
  }

  /** What the service reflects is always the beginning of its own peer's committed log. */
  lemma HistoryIsCommitted(sys: System, v: nat)
    requires SystemInv(sys) && v < |sys.hosts|
    ensures var x := sys.hosts[v]; |x.history| <= |x.node.log| && x.history == x.node.log[..|x.history|]
  {
    var x := sys.hosts[v];
    assert ServerOk(CoreOf(sys), v) && ServiceAt(sys, v);
    InvGivesCompleteness(CoreOf(sys));
    SafesAgree(CoreOf(sys), x.history, x.node.term, x.node.log[..x.node.commit + 1], x.node.term);
  }

  /** The service accepts an index exactly once and in order: the head of the queue is either
      something it has applied already or the very next index. */
  lemma AcceptsNextIndex(x: Host, h: History)
    requires ServiceInv(h, x) && x.queue != []
    ensures x.queue[0].index <= x.applied || x.queue[0].index == |x.history|
  {
    assert QueuedOk(x, 0);
  }

  /** Taking the head off the queue leaves the rest in order. */
  lemma QueueAfterHead(x: Host, y: Host)
    requires x.queue != [] && y == x.(queue := x.queue[1..], applied := y.applied, history := y.history)
    requires forall k: nat :: k < |x.queue| ==> QueuedOk(x, k)
    requires x.queue[0].index < |y.history| && |y.history| >= |x.history|
    requires y.applied == |y.history| - 1 || (y.applied == x.applied && y.history == x.history)
    ensures forall k: nat :: k < |y.queue| ==> QueuedOk(y, k)
    ensures forall i :: Reaches(x, i) ==> Reaches(y, i)
  {
    forall k: nat | k < |y.queue| ensures QueuedOk(y, k) {
      assert QueuedOk(x, k + 1) && y.queue[k] == x.queue[k + 1];
    }
    if |x.queue| > 1 { assert y.queue[|y.queue| - 1] == x.queue[|x.queue| - 1]; }
  }

  /** Compacting at an index the service has just reached. */
  lemma CompactedService(h: History, x: Host, i: nat)
    requires ServiceInv(h, x) && x.node.base < i == |x.history| - 1 && i < |x.node.log| && i <= Target(x)
    requires x.history == x.node.log[..i + 1]
    ensures ServiceInv(h, x.(node := CompactTo(x.node, i), snapshot := x.history))
  {
    var y := x.(node := CompactTo(x.node, i), snapshot := x.history);
    forall k: nat | k < |y.queue| ensures QueuedOk(y, k) { assert QueuedOk(x, k); }
  }

  /** The service applies the head of the queue, or skips it. */
  lemma HeadServed(h: History, x: Host, y: Host)
    requires ServiceInv(h, x) && x.queue != []
    requires y == x.(queue := x.queue[1..], applied := y.applied, history := y.history)
    requires if x.queue[0].index <= x.applied then y.applied == x.applied && y.history == x.history
             else
               && y.applied == x.queue[0].index && y.history == x.history + [x.queue[0]]
               && Safe(h, y.history, x.node.term)
    ensures ServiceInv(h, y)
  {
    assert QueuedOk(x, 0);
    AcceptsNextIndex(x, h);
    QueueAfterHead(x, y);
  }

  lemma ServeCommandService(sys: System, v: nat, compact: bool)
    requires SystemInv(sys) && v < |sys.hosts| && ServiceInv(sys.h, sys.hosts[v])
    requires sys.hosts[v].queue != [] && sys.hosts[v].queue[0].index < |sys.hosts[v].node.log|
    ensures ServiceInv(sys.h, ServeCommand(sys.hosts[v], compact))
  {
    var x := sys.hosts[v];
    var e := x.queue[0];
    assert QueuedOk(x, 0);
    AcceptsNextIndex(x, sys.h);
    var y := x.(queue := x.queue[1..]);
    if e.index > x.applied {
      y := y.(applied := e.index, history := x.history + [e]);
      NextHistory(sys, v);
    }
    HeadServed(sys.h, x, y);
    if e.index > x.applied && compact && e.index > x.node.base { CompactedService(sys.h, y, e.index); }
  }

  lemma NextHistory(sys: System, v: nat)
    requires SystemInv(sys) && v < |sys.hosts| && sys.hosts[v].queue != [] && QueuedOk(sys.hosts[v], 0)
    requires sys.hosts[v].queue[0].index == |sys.hosts[v].history|
    ensures var x := sys.hosts[v];
            var p := x.history + [x.queue[0]];
            p == x.node.log[..x.queue[0].index + 1] && Safe(sys.h, p, x.node.term)
  {
    var x := sys.hosts[v];
    HistoryIsCommitted(sys, v);
    assert x.history + [x.queue[0]] == x.node.log[..x.queue[0].index + 1];
    assert ServerOk(CoreOf(sys), v);
    SafePrefix(sys.h, x.node.log[..x.queue[0].index + 1], x.node.log[..x.node.commit + 1], x.node.term);
  }

  lemma ServeCommandKeeps(sys: System, v: nat, compact: bool)
    requires SystemInv(sys) && v < |sys.hosts|
    requires sys.hosts[v].queue != [] && sys.hosts[v].queue[0].index < |sys.hosts[v].node.log|
    ensures SystemInv(WithHost(sys, v, ServeCommand(sys.hosts[v], compact)))
  {
    var x := sys.hosts[v];
    var y := ServeCommand(x, compact);
    assert NodeAt(sys, v) && ServiceAt(sys, v) && QueuedOk(x, 0);
    ServeCommandService(sys, v, compact);
    if y.node.role == Leader {
      forall p: nat | p < y.node.peers ensures MatchOk(sys.h, y.node, p) { assert MatchOk(sys.h, x.node, p); }
    }
    ServiceOnly(sys, WithHost(sys, v, y), v);
  }

  lemma InstalledService(sys: System, v: nat, p: Log)
    requires SystemInv(sys) && v < |sys.hosts| && CanInstall(CoreOf(sys), v, p) && Indexed(p)
    requires NodeInv(sys.h, sys.hosts[v], v) && ServiceInv(sys.h, sys.hosts[v])
    ensures ServiceInv(sys.h, ServeSnapshot(sys.hosts[v], p))
  {
    var x := sys.hosts[v];
    var y := ServeSnapshot(x, p);
    var c := CoreOf(sys);
    assert ServerOk(c, v);
    InvGivesCompleteness(c);
    InstallAcceptable(c, v, p);
    var q := x.node.log[..x.node.commit + 1];
    SafesAgree(c, q, x.node.term, p, x.node.term);
    forall k: nat | k < |y.queue| ensures QueuedOk(y, k) {
      assert QueuedOk(x, k);
      var i := x.queue[k].index;
      assert y.node.log[i] == p[i] == q[i] == x.node.log[i];
    }
  }

  lemma InstalledNode(sys: System, v: nat, p: Log)
    requires SystemInv(sys) && v < |sys.hosts| && CanInstall(CoreOf(sys), v, p) && Indexed(p)
    requires NodeInv(sys.h, sys.hosts[v], v)
    ensures NodeInv(sys.h, ServeSnapshot(sys.hosts[v], p), v)
  {
    var x := sys.hosts[v];
    var y := ServeSnapshot(x, p);
    var c := CoreOf(sys);
    assert ServerOk(c, v);
    InvGivesCompleteness(c);
    InstallAcceptable(c, v, p);
    if x.node.role == Leader {
      SafeInLater(c, p, x.node.term, x.node.term);
      forall q: nat | q < y.node.peers ensures MatchOk(sys.h, y.node, q) { assert MatchOk(sys.h, x.node, q); }
    }
  }

  lemma ServeSnapshotKeeps(sys: System, v: nat, p: Log)
    requires SystemInv(sys) && v < |sys.hosts| && p in sys.hosts[v].offers
    ensures SystemInv(WithHost(sys, v, ServeSnapshot(sys.hosts[v], p)))
  {
    var x := sys.hosts[v];
    var y := ServeSnapshot(x, p);
    var next := WithHost(sys, v, y);
    var c := CoreOf(sys);
    assert NodeAt(sys, v) && ServiceAt(sys, v);
    if |p| - 1 <= x.node.commit {
      assert next == sys by { assert next.hosts == sys.hosts; }
    } else {
      InstalledService(sys, v, p);
      InstalledNode(sys, v, p);
      InstallKeeps(c, v, p);
      CoreWith(sys, next, v);
      assert CoreOf(next).servers == Install(c, v, p).servers;
      SameHistoryEvolves(sys.h, v);
      StepOfOneHost(sys, next, v);
    }
  }

  lemma RebootKeeps(sys: System, v: nat)
    requires SystemInv(sys) && v < |sys.hosts|
    ensures SystemInv(WithHost(sys, v, Reboot(sys.hosts[v])))
  {
    var x := sys.hosts[v];
    var next := WithHost(sys, v, Reboot(x));
    var c := CoreOf(sys);
    assert NodeAt(sys, v) && ServiceAt(sys, v) && ServerOk(c, v);
    CrashKeeps(c, v, x.node.base);
    CoreWith(sys, next, v);
    assert CoreOf(next).servers == Crash(c, v, x.node.base).servers;
    SafePrefix(sys.h, x.snapshot, x.node.log[..x.node.commit + 1], x.node.term);
    SameHistoryEvolves(sys.h, v);
    StepOfOneHost(sys, next, v);
  }
}
