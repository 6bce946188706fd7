/** Every step of the cluster keeps the invariant and stays within bounds. */
module RaftSystemSteps {
  import opened Prelude
  import opened RaftLog
  import opened KvTypes
  import opened RaftNode
  import opened RaftCore
  import opened RaftCoreFacts
  import opened RaftCoreSteps
  import opened RaftSystem
  import opened RaftSystemInv
  import CommitRule

  lemma CoreWith(sys: System, next: System, v: nat)
    requires v < |sys.hosts| && |next.hosts| == |sys.hosts| && next.hosts == sys.hosts[v := next.hosts[v]]
    ensures CoreOf(next) == Core(CoreOf(sys).servers[v := ServerOf(next.hosts[v].node)], next.h)
  {
    assert CoreOf(next).servers == CoreOf(sys).servers[v := ServerOf(next.hosts[v].node)];
  }

  /** A change of the peer that keeps its committed log; snapshots may be handed over. */
  ghost predicate PeerMoved(g: History, x: Host, y: Host) {
    && y == x.(node := y.node, awaiting := y.awaiting, supporters := y.supporters, offers := y.offers)
    && (forall p :: p in y.offers && p !in x.offers ==> Indexed(p) && Safe(g, p, y.node.term))
    && y.node.base == x.node.base && y.node.lastApplied == x.node.lastApplied
    && x.node.commit <= y.node.commit < |y.node.log| && x.node.term <= y.node.term
    && x.node.commit < |x.node.log| && y.node.log[..x.node.commit + 1] == x.node.log[..x.node.commit + 1]
  }

  /** Such a change does not disturb the service. */
  lemma ServiceKept(h: History, g: History, x: Host, y: Host)
    requires ServiceInv(h, x) && Grows(h, g) && PeerMoved(g, x, y)
    ensures ServiceInv(g, y)
  {
    var k := x.node.commit + 1;
    assert forall i :: 0 <= i < k ==> y.node.log[i] == y.node.log[..k][i] && x.node.log[i] == x.node.log[..k][i];
    assert y.node.log[..y.node.base + 1] == x.node.log[..x.node.base + 1];
    SafeGrows(h, g, x.history, x.node.term);
    SafeBoundGrows(g, x.history, x.node.term, y.node.term);
    forall p | p in y.offers ensures Safe(g, p, y.node.term) {
      if p in x.offers {
        SafeGrows(h, g, p, x.node.term);
        SafeBoundGrows(g, p, x.node.term, y.node.term);
      }
    }
    forall i: nat | i < |y.queue| ensures QueuedOk(y, i) { assert QueuedOk(x, i); }
  }

  /** To re-establish the invariant after a peer's step, look at the core, the peer and the messages. */
  lemma PeerStep(sys: System, next: System, v: nat)
    requires SystemInv(sys) && v < |sys.hosts| && Evolves(sys.h, next.h, v)
    requires |next.hosts| == |sys.hosts| && next.hosts == sys.hosts[v := next.hosts[v]]
    requires PeerMoved(next.h, sys.hosts[v], next.hosts[v])
    requires Inv(CoreOf(next)) && NodeInv(next.h, next.hosts[v], v) && NetInv(next.h, next.net)
    ensures SystemInv(next)
  {
    assert ServiceAt(sys, v);
    ServiceKept(sys.h, next.h, sys.hosts[v], next.hosts[v]);
    StepOfOneHost(sys, next, v);
  }

  /** Shape facts of a peer, without the rest of its invariant. */
  lemma PeerFacts(sys: System, v: nat)
    requires SystemInv(sys) && v < |sys.hosts|
    ensures var s := sys.hosts[v].node;
            && NodeOk(s) && s.commit < |s.log| && (Sound(sys.h, s.log) || s.commit == s.base)
            && s.me == v && s.peers == sys.h.size == |sys.hosts|
  {
    assert NodeAt(sys, v);
  }

  // ---------- elections ----------

  lemma TimeoutCore(sys: System, v: nat)
    requires SystemInv(sys) && v < |sys.hosts|
    ensures Inv(CoreOf(AfterTimeout(sys, v))) && Evolves(sys.h, AfterTimeout(sys, v).h, v)
  {
    var c := CoreOf(sys);
    assert BallotOk(c, v, c.servers[v].term + 1) && CampaignOk(c, v, c.servers[v].term + 1);
    CoreWith(sys, AfterTimeout(sys, v), v);
    StartCampaignKeeps(c, v);
    assert CoreOf(AfterTimeout(sys, v)) == StartCampaign(c, v);
  }

  lemma TimeoutNode(sys: System, v: nat)
    requires SystemInv(sys) && v < |sys.hosts| && Grows(sys.h, AfterTimeout(sys, v).h)
    ensures NodeInv(AfterTimeout(sys, v).h, AfterTimeout(sys, v).hosts[v], v)
  {
    assert NodeAt(sys, v);
    if Sound(sys.h, sys.hosts[v].node.log) { SoundGrows(sys.h, AfterTimeout(sys, v).h, sys.hosts[v].node.log); }
  }

  lemma TimeoutKeeps(sys: System, v: nat)
    requires SystemInv(sys) && v < |sys.hosts|
    ensures SystemInv(AfterTimeout(sys, v))
  {
    var next := AfterTimeout(sys, v);
    PeerFacts(sys, v);
    TimeoutCore(sys, v);
    TimeoutNode(sys, v);
    NetInvGrows(sys.h, next.h, v, sys.net);
    PeerStep(sys, next, v);
  }

  lemma NoBallotYet(c: Core, v: nat, t: nat)
    requires Inv(c) && v < |c.servers| && c.servers[v].term < t
    ensures (v, t) !in c.h.ballots
  {
    assert BallotOk(c, v, t);
  }

  lemma VoteRequestCore(sys: System, v: nat, r: VoteRequest)
    requires SystemInv(sys) && v < |sys.hosts| && r in sys.net.voteRequests
    ensures Inv(CoreOf(AfterVoteRequest(sys, v, r))) && Evolves(sys.h, AfterVoteRequest(sys, v, r).h, v)
  {
    var next := AfterVoteRequest(sys, v, r);
    var c := CoreOf(sys);
    var x := sys.hosts[v];
    assert VoteRequestOk(sys.h, r) && NodeAt(sys, v);
    CoreWith(sys, next, v);
    var raised := c;
    if r.term > x.node.term {
      RaiseKeeps(c, v, r.term);
      NoBallotYet(c, v, r.term);
      raised := Raise(c, v, r.term);
    }
    if HandleVoteRequest(x.node, r).1.voteGranted {
      GrantKeeps(raised, v, r.candidateId);
      assert CoreOf(next) == Grant(raised, v, r.candidateId);
    } else if RefusesOutright(x.node, r) {
      assert CoreOf(next).servers == c.servers;
    } else {
      assert CoreOf(next).servers == raised.servers;
    }
  }

  lemma VoteRequestKeeps(sys: System, v: nat, r: VoteRequest)
    requires SystemInv(sys) && v < |sys.hosts| && r in sys.net.voteRequests && v != r.candidateId
    ensures SystemInv(AfterVoteRequest(sys, v, r))
  {
    var next := AfterVoteRequest(sys, v, r);
    PeerFacts(sys, v);
    VoteRequestCore(sys, v, r);
    VoteRequestNode(sys, v, r);
    NetInvGrows(sys.h, next.h, v, sys.net);
    PeerStep(sys, next, v);
  }

  lemma VoteRequestNode(sys: System, v: nat, r: VoteRequest)
    requires SystemInv(sys) && v < |sys.hosts| && Evolves(sys.h, AfterVoteRequest(sys, v, r).h, v)
    ensures NodeInv(AfterVoteRequest(sys, v, r).h, AfterVoteRequest(sys, v, r).hosts[v], v)
  {
    var next := AfterVoteRequest(sys, v, r);
    var x, y := sys.hosts[v], next.hosts[v];
    assert NodeAt(sys, v);
    if r.term > x.node.term { NoBallotYet(CoreOf(sys), v, r.term); }
    if Sound(sys.h, x.node.log) { SoundGrows(sys.h, next.h, x.node.log); }
    if y.node.role == Leader {
      forall p: nat | p < y.node.peers ensures MatchOk(next.h, y.node, p) {
        assert MatchOk(sys.h, x.node, p);
        MatchGrows(sys.h, next.h, x.node, p);
      }
    }
  }

  predicate VoteReplyReady(sys: System, v: nat, r: VoteReply) {
    && v < |sys.hosts| && r in sys.net.voteReplies && r.candidate == v
    && (r.requestTerm == sys.hosts[v].node.term ==> r.voter in sys.hosts[v].awaiting)
  }

  /** Counting distinct voters: a full count is a quorum of ballots. */
  lemma CountedVotes(sys: System, v: nat, r: VoteReply)
    requires SystemInv(sys) && VoteReplyReady(sys, v, r)
    requires r.requestTerm == sys.hosts[v].node.term && sys.hosts[v].node.role == Candidate && r.answer.voteGranted
    ensures var x := sys.hosts[v];
            var q := x.supporters + {r.voter};
            && q <= Below(sys.h.size) && |q| == x.node.grantedVotes + 1
            && Backers(sys.h, q, x.node.term, v) && (x.awaiting - {r.voter}) !! q
            && (|q| > sys.h.size / 2 ==> CanWin(CoreOf(sys), v, q))
  {
    assert VoteReplyOk(sys.h, r) && NodeAt(sys, v);
    assert r.voter !in sys.hosts[v].supporters;
  }

  lemma VoteReplyCore(sys: System, v: nat, r: VoteReply)
    requires SystemInv(sys) && VoteReplyReady(sys, v, r)
    ensures Inv(CoreOf(AfterVoteReply(sys, v, r))) && Evolves(sys.h, AfterVoteReply(sys, v, r).h, v)
  {
    var next := AfterVoteReply(sys, v, r);
    var c := CoreOf(sys);
    var x, y := sys.hosts[v], next.hosts[v];
    assert NodeAt(sys, v);
    CoreWith(sys, next, v);
    if x.node.role == Candidate && y.node.role == Leader {
      CountedVotes(sys, v, r);
      WinnerContains(c, v, y.supporters);
      WinKeeps(c, v, y.supporters);
      assert CoreOf(next) == Win(c, v);
    } else if y.node.term > x.node.term {
      RaiseKeeps(c, v, y.node.term);
      assert CoreOf(next).servers == Raise(c, v, y.node.term).servers;
    } else {
      assert CoreOf(next).servers == c.servers;
    }
  }

  lemma VoteReplyNode(sys: System, v: nat, r: VoteReply)
    requires SystemInv(sys) && VoteReplyReady(sys, v, r) && Evolves(sys.h, AfterVoteReply(sys, v, r).h, v)
    ensures NodeInv(AfterVoteReply(sys, v, r).h, AfterVoteReply(sys, v, r).hosts[v], v)
  {
    var x := sys.hosts[v];
    assert NodeAt(sys, v);
    if r.requestTerm != x.node.term || x.node.role != Candidate || !r.answer.voteGranted {
      if r.answer.term > x.node.term { NoBallotYet(CoreOf(sys), v, r.answer.term); }
    } else {
      CountedVotes(sys, v, r);
      GrantedNode(sys, v, r, AfterVoteReply(sys, v, r));
    }
  }

  lemma GrantedNode(sys: System, v: nat, r: VoteReply, next: System)
    requires v < |sys.hosts| && v < |next.hosts| && NodeInv(sys.h, sys.hosts[v], v) && Evolves(sys.h, next.h, v)
    requires next.h.ballots == sys.h.ballots && sys.hosts[v].node.role == Candidate
    requires var x, y := sys.hosts[v], next.hosts[v];
             var s := x.node.(grantedVotes := x.node.grantedVotes + 1);
             && y == x.(node := y.node, awaiting := x.awaiting - {r.voter}, supporters := x.supporters + {r.voter})
             && (y.node == s || y.node == BecomeLeader(s))
             && y.supporters <= Below(sys.h.size) && |y.supporters| == s.grantedVotes
             && Backers(sys.h, y.supporters, s.term, v) && y.awaiting !! y.supporters
    ensures NodeInv(next.h, next.hosts[v], v)
  {
    if Sound(sys.h, sys.hosts[v].node.log) { SoundGrows(sys.h, next.h, sys.hosts[v].node.log); }
  }

  lemma VoteReplyKeeps(sys: System, v: nat, r: VoteReply)
    requires SystemInv(sys) && VoteReplyReady(sys, v, r)
    ensures SystemInv(AfterVoteReply(sys, v, r))
  {
    var next := AfterVoteReply(sys, v, r);
    PeerFacts(sys, v);
    VoteReplyCore(sys, v, r);
    VoteReplyNode(sys, v, r);
    NetInvGrows(sys.h, next.h, v, sys.net);
    PeerStep(sys, next, v);
  }

  // ---------- replication ----------

  lemma SentRequestOk(sys: System, v: nat, peer: nat)
    requires SystemInv(sys) && v < |sys.hosts| && CanSendAppend(sys.hosts[v].node, peer)
    ensures AppendRequestOk(sys.h, MakeAppendRequest(sys.hosts[v].node, peer))
  {
    var s := sys.hosts[v].node;
    var r := MakeAppendRequest(s, peer);
    PeerFacts(sys, v);
    assert ServerOk(CoreOf(sys), v);
    assert ReachOf(r) == |s.log| && s.log[r.prevLogIndex + 1..] == s.log[r.prevLogIndex + 1..|s.log|];
  }

  lemma SendAppendKeeps(sys: System, v: nat, peer: nat)
    requires SystemInv(sys) && v < |sys.hosts| && CanSendAppend(sys.hosts[v].node, peer)
    ensures SystemInv(AfterSendAppend(sys, v, peer))
  {
    SentRequestOk(sys, v, peer);
    OnlyMessages(sys, AfterSendAppend(sys, v, peer));
  }

  lemma OnlyMessages(sys: System, next: System)
    requires SystemInv(sys) && next.hosts == sys.hosts && next.h == sys.h && NetInv(next.h, next.net)
    ensures SystemInv(next)
  {
    assert CoreOf(next) == CoreOf(sys);
    forall v: nat ensures NodeAt(next, v) && ServiceAt(next, v) { assert NodeAt(sys, v) && ServiceAt(sys, v); }
  }

  /** Scanning the entries one by one arrives at the same log as comparing with the whole
      prefix the leader had. */
  lemma {:induction false} MergeFrom(log: Log, lead: Log, k: nat, m: nat)
    requires Indexed(log) && Indexed(lead) && 1 <= k <= m <= |lead| && k <= |log| && log[..k] == lead[..k]
    requires forall i :: k <= i < |log| && i < m && log[i].term == lead[i].term ==> log[..i + 1] == lead[..i + 1]
    ensures Contiguous(k - 1, lead[k..m])
    ensures MergeEntries(log, lead[k..m]) == Merged(log, lead[..m])
    decreases m - k
  {
    if k == m {
      assert lead[k..m] == [] && lead[..m] <= log;
    } else if k < |log| && log[k].term == lead[k].term {
      assert lead[k..m][1..] == lead[k + 1..m];
      MergeFrom(log, lead, k + 1, m);
    } else {
      assert log[..k] + lead[k..m] == lead[..m];
      if m <= |log| { assert log[..m][k] == log[k] && lead[..m][k] == lead[k]; }
    }
  }

  /** If the request's predecessor matches, the follower's log agrees with the leader's up
      to it, and above it wherever terms agree. */
  lemma Agreement(c: Core, s: Server, base: nat, t: nat, prev: nat)
    requires Completeness(c) && Acceptable(c.h, s.log, s.commit, s.term) && Safe(c.h, s.log[..s.commit + 1], s.term)
    requires Sound(c.h, s.log) || s.commit == base
    requires t in c.h.leaderLog && s.term <= t && base <= prev < |s.log| && prev < |c.h.leaderLog[t]|
    requires s.log[prev].term == c.h.leaderLog[t][prev].term
    ensures s.log[..prev + 1] == c.h.leaderLog[t][..prev + 1]
    ensures forall i :: prev < i < |s.log| && i < |c.h.leaderLog[t]| && s.log[i].term == c.h.leaderLog[t][i].term ==>
              s.log[..i + 1] == c.h.leaderLog[t][..i + 1]
  {
    var lead := c.h.leaderLog[t];
    assert LeaderLogOk(c.h, t);
    if Sound(c.h, s.log) {
      SoundLogsMatch(c.h, s.log, lead, prev);
      forall i | prev < i < |s.log| && i < |lead| && s.log[i].term == lead[i].term
        ensures s.log[..i + 1] == lead[..i + 1]
      {
        SoundLogsMatch(c.h, s.log, lead, i);
      }
    } else {
      var u: nat, j: nat :| u <= s.term && StaleBy(c.h, s.log, s.commit, u, j);
      forall i | s.commit < i < |s.log| && i < |lead| ensures s.log[i].term != lead[i].term {
        StaleDiverges(c, s.log, s.commit, u, j, t, i);
      }
      assert prev == s.commit;
      SafeInLater(c, s.log[..s.commit + 1], s.term, t);
    }
  }

  /** The follower's state right after it has adopted the request's term. */
  function Adopted(s: Node, r: AppendRequest): Node {
    if r.term > s.term then StepDown(s, r.term) else s.(role := Follower)
  }

  predicate PassesCheck(s: Node, r: AppendRequest)
    requires r.prevLogIndex >= 0
  {
    r.term >= s.term && r.prevLogIndex >= s.base && MatchLog(s, r.prevLogTerm, r.prevLogIndex)
  }

  lemma AdoptKeeps(sys: System, v: nat, t: nat)
    requires SystemInv(sys) && v < |sys.hosts| && t >= sys.hosts[v].node.term
    ensures Inv(Raise(CoreOf(sys), v, t))
    ensures t > sys.hosts[v].node.term ==> (v, t) !in sys.h.ballots
  {
    RaiseKeeps(CoreOf(sys), v, t);
    if t > sys.hosts[v].node.term { NoBallotYet(CoreOf(sys), v, t); }
  }

  /** A peer that has just adopted a term, or stepped down in its own. */
  lemma AdoptedHost(sys: System, next: System, v: nat)
    requires SystemInv(sys) && v < |sys.hosts| && |next.hosts| == |sys.hosts| && next.h == sys.h
    requires next.hosts == sys.hosts[v := sys.hosts[v].(node := next.hosts[v].node, offers := next.hosts[v].offers)]
    requires var s, y := sys.hosts[v].node, next.hosts[v].node;
             || (y.term > s.term && y == StepDown(s, y.term))
             || y == s.(role := Follower)
    ensures Inv(CoreOf(next)) && NodeInv(next.h, next.hosts[v], v)
  {
    CoreWith(sys, next, v);
    AdoptKeeps(sys, v, next.hosts[v].node.term);
    assert CoreOf(next).servers == Raise(CoreOf(sys), v, next.hosts[v].node.term).servers;
    assert NodeAt(sys, v);
  }

  /** An accepted request brings the log to exactly the merge with the leader's prefix. */
  lemma AcceptedLog(sys: System, v: nat, r: AppendRequest)
    requires SystemInv(sys) && v < |sys.hosts| && AppendRequestOk(sys.h, r) && PassesCheck(sys.hosts[v].node, r)
    ensures AppendFits(r)
    ensures var log := sys.hosts[v].node.log;
            var lead := sys.h.leaderLog[r.term][..ReachOf(r)];
            MergeEntries(log, r.entries) == Merged(log, lead)
  {
    var s := sys.hosts[v].node;
    var c := CoreOf(sys);
    var lead := sys.h.leaderLog[r.term];
    assert ServerOk(c, v) && NodeAt(sys, v);
    InvGivesCompleteness(c);
    assert LeaderLogOk(sys.h, r.term);
    Agreement(c, c.servers[v], s.base, r.term, r.prevLogIndex);
    MergeFrom(s.log, lead, r.prevLogIndex + 1, ReachOf(r));
  }

  /** If the request leaves a stale suffix in place, it ships nothing beyond what is committed. */
  lemma StaleKeepsCommit(sys: System, v: nat, r: AppendRequest)
    requires SystemInv(sys) && v < |sys.hosts| && AppendRequestOk(sys.h, r) && r.term >= sys.hosts[v].node.term
    requires !Sound(sys.h, sys.hosts[v].node.log) && sys.h.leaderLog[r.term][..ReachOf(r)] <= sys.hosts[v].node.log
    ensures ReachOf(r) <= sys.hosts[v].node.commit + 1
    ensures Safe(sys.h, sys.h.leaderLog[r.term][..ReachOf(r)], r.term)
  {
    var c := CoreOf(sys);
    var s := c.servers[v];
    var lead := sys.h.leaderLog[r.term];
    var m := ReachOf(r);
    assert ServerOk(c, v);
    InvGivesCompleteness(c);
    var u: nat, j: nat :| u <= s.term && StaleBy(c.h, s.log, s.commit, u, j);
    if m > s.commit + 1 {
      assert lead[..m][s.commit + 1] == s.log[s.commit + 1] == lead[s.commit + 1];
      StaleDiverges(c, s.log, s.commit, u, j, r.term, s.commit + 1);
    }
    assert lead[..m] <= s.log[..s.commit + 1];
    SafePrefix(c.h, lead[..m], s.log[..s.commit + 1], s.term);
    SafeBoundGrows(c.h, lead[..m], s.term, r.term);
  }

  /** Does the history record the acknowledgement? */
  ghost predicate Records(sys: System, v: nat, r: AppendRequest)
    requires v < |sys.hosts| && r.term in sys.h.leaderLog && 0 <= ReachOf(r) <= |sys.h.leaderLog[r.term]|
  {
    Sound(sys.h, sys.hosts[v].node.log) || !(sys.h.leaderLog[r.term][..ReachOf(r)] <= sys.hosts[v].node.log)
  }

  /** The outcome of an accepted request, written out. */
  ghost predicate AcceptedOutcome(sys: System, v: nat, r: AppendRequest, next: System)
    requires v < |sys.hosts| && AppendRequestOk(sys.h, r)
  {
    && |next.hosts| == |sys.hosts| && next.hosts == sys.hosts[v := sys.hosts[v].(node := next.hosts[v].node)]
    && var s, y := sys.hosts[v].node, next.hosts[v].node;
       && y == Adopted(s, r).(log := y.log, commit := y.commit)
       && y.log == Merged(s.log, sys.h.leaderLog[r.term][..ReachOf(r)])
       && y.commit == Max(s.commit, Min(r.leaderCommit, |y.log| - 1))
       && next.h == (if Records(sys, v, r) then Accept(Raise(CoreOf(sys), v, r.term), v, ReachOf(r)).h else sys.h)
  }

  lemma AcceptedHandler(s: Node, r: AppendRequest)
    requires NodeOk(s) && AppendFits(r) && PassesCheck(s, r)
    ensures var (y, a) := HandleAppendRequest(s, r);
            && a == AppendResponse(r.term, true, 0, 0)
            && y.log == MergeEntries(s.log, r.entries)
            && y.commit == Max(s.commit, Min(r.leaderCommit, |y.log| - 1))
            && y == Adopted(s, r).(log := y.log, commit := y.commit)
  {
  }

  lemma RecordsAck(sys: System, v: nat, r: AppendRequest, y: Node, a: AppendResponse)
    requires v < |sys.hosts| && AppendRequestOk(sys.h, r) && a.success && y.term == r.term
    requires y.log == Merged(sys.hosts[v].node.log, sys.h.leaderLog[r.term][..ReachOf(r)])
    ensures AckHistory(sys, v, y, r, a) ==
            (if Records(sys, v, r) then Accept(Raise(CoreOf(sys), v, r.term), v, ReachOf(r)).h else sys.h)
  {
  }

  lemma AcceptedNode(sys: System, v: nat, r: AppendRequest)
    requires SystemInv(sys) && v < |sys.hosts| && AppendRequestOk(sys.h, r) && PassesCheck(sys.hosts[v].node, r)
    requires AppendFits(r) && NodeOk(sys.hosts[v].node)
    ensures AcceptedOutcome(sys, v, r, AfterAppendRequest(sys, v, r))
    ensures HandleAppendRequest(sys.hosts[v].node, r).1 == AppendResponse(r.term, true, 0, 0)
  {
    var (y, a) := HandleAppendRequest(sys.hosts[v].node, r);
    AcceptedLog(sys, v, r);
    AcceptedHandler(sys.hosts[v].node, r);
    RecordsAck(sys, v, r, y, a);
  }

  /** The core after the request's entries are merged, before the commit index moves. */
  lemma AcceptMerges(sys: System, v: nat, r: AppendRequest) returns (d: Core)
    requires SystemInv(sys) && v < |sys.hosts| && AppendRequestOk(sys.h, r) && PassesCheck(sys.hosts[v].node, r)
    requires sys.hosts[v].node.commit < |sys.hosts[v].node.log|
    ensures var s := sys.hosts[v].node;
            var log := Merged(s.log, sys.h.leaderLog[r.term][..ReachOf(r)]);
            && Inv(d) && Evolves(sys.h, d.h, v) && d.h.leaderLog == sys.h.leaderLog
            && d == (if Records(sys, v, r) then Accept(Raise(CoreOf(sys), v, r.term), v, ReachOf(r))
                     else Raise(CoreOf(sys), v, r.term))
            && v < |d.servers| && d.servers[v] == Server(Follower, r.term, log, s.commit)
            && s.commit < |log| && log[..s.commit + 1] == s.log[..s.commit + 1]
            && (!Records(sys, v, r) ==> ReachOf(r) <= s.commit + 1)
  {
    d := Raise(CoreOf(sys), v, r.term);
    AdoptKeeps(sys, v, r.term);
    if Records(sys, v, r) {
      AcceptKeepsCommitted(d, v, ReachOf(r));
      AcceptKeeps(d, v, ReachOf(r));
      AcceptGrows(d, v, ReachOf(r));
      d := Accept(d, v, ReachOf(r));
    } else {
      StaleKeepsCommit(sys, v, r);
    }
  }

  lemma AcceptCore(sys: System, v: nat, r: AppendRequest, next: System)
    requires SystemInv(sys) && v < |sys.hosts| && AppendRequestOk(sys.h, r) && PassesCheck(sys.hosts[v].node, r)
    requires AcceptedOutcome(sys, v, r, next) && sys.hosts[v].node.commit < |sys.hosts[v].node.log|
    requires Sound(sys.h, sys.hosts[v].node.log) || sys.hosts[v].node.commit == sys.hosts[v].node.base
    ensures Inv(CoreOf(next)) && Evolves(sys.h, next.h, v) && next.h.ballots == sys.h.ballots
    ensures var s, y := sys.hosts[v].node, next.hosts[v].node;
            && s.commit <= y.commit < |y.log|
            && y.log[..s.commit + 1] == s.log[..s.commit + 1]
            && (Sound(next.h, y.log) || y.commit == y.base)
  {
    var d := AcceptMerges(sys, v, r);
    var y := next.hosts[v].node;
    AcceptCommits(sys, v, r, d, y);
    AcceptedServers(sys, v, r, d, next);
  }

  lemma AcceptedServers(sys: System, v: nat, r: AppendRequest, d: Core, next: System)
    requires v < |sys.hosts| && AppendRequestOk(sys.h, r) && AcceptedOutcome(sys, v, r, next)
             && PassesCheck(sys.hosts[v].node, r)
    requires d == (if Records(sys, v, r) then Accept(Raise(CoreOf(sys), v, r.term), v, ReachOf(r))
               else Raise(CoreOf(sys), v, r.term))
    requires v < |d.servers|
             && d.servers[v] == Server(Follower, r.term, next.hosts[v].node.log, sys.hosts[v].node.commit)
    ensures CoreOf(next) == Commit(d, v, next.hosts[v].node.commit)
  {
    CoreWith(sys, next, v);
    assert CoreOf(next).servers == Commit(d, v, next.hosts[v].node.commit).servers;
  }

  lemma AcceptReply(sys: System, v: nat, r: AppendRequest, next: System)
    requires SystemInv(sys) && v < |sys.hosts| && AppendRequestOk(sys.h, r) && PassesCheck(sys.hosts[v].node, r)
    requires AcceptedOutcome(sys, v, r, next) && Evolves(sys.h, next.h, v)
    ensures AppendReplyOk(next.h, AppendReply(v, r, AppendResponse(r.term, true, 0, 0)))
  {
    AppendRequestGrows(sys.h, next.h, v, r);
    if !Records(sys, v, r) { StaleKeepsCommit(sys, v, r); }
  }

  /** Advancing to Min(leaderCommit, last index) is safe because the request ships the
      leader's whole suffix. */
  lemma ShippedIsSafe(h: History, r: AppendRequest, log: Log, k: nat)
    requires AppendRequestOk(h, r) && h.leaderLog[r.term][..ReachOf(r)] <= log && k <= r.leaderCommit && k < |log|
    ensures Safe(h, log[..k + 1], r.term)
  {
    var lead := h.leaderLog[r.term];
    assert log[..k + 1] == lead[..k + 1];
    SafePrefix(h, log[..k + 1], lead[..r.leaderCommit + 1], r.term);
  }

  lemma MergedIsSound(h: History, log: Log, lead: Log, m: nat)
    requires Sound(h, lead) && 1 <= m <= |lead| && (Sound(h, log) || Merged(log, lead[..m]) != log)
    ensures Sound(h, Merged(log, lead[..m]))
  {
    if !(lead[..m] <= log) { SoundPrefix(h, lead, lead[..m]); }
  }

  lemma MergedNowSound(h: History, g: History, log: Log, after: Log, t: nat, m: nat)
    requires Grows(h, g) && g.leaderLog == h.leaderLog && LeaderLogOk(g, t) && t in h.leaderLog
             && 1 <= m <= |h.leaderLog[t]|
    requires after == Merged(log, h.leaderLog[t][..m]) && (Sound(h, log) || after != log)
    ensures Sound(g, after)
  {
    if Sound(h, log) { SoundGrows(h, g, log); }
    MergedIsSound(g, log, g.leaderLog[t], m);
  }

  lemma AcceptCommits(sys: System, v: nat, r: AppendRequest, d: Core, y: Node)
    requires v < |sys.hosts| && AppendRequestOk(sys.h, r)
    requires Inv(d) && Evolves(sys.h, d.h, v) && d.h.leaderLog == sys.h.leaderLog && v < |d.servers|
    requires d.servers[v] == Server(Follower, r.term, y.log, sys.hosts[v].node.commit)
    requires y.log == Merged(sys.hosts[v].node.log, sys.h.leaderLog[r.term][..ReachOf(r)])
    requires y.commit == Max(sys.hosts[v].node.commit, Min(r.leaderCommit, |y.log| - 1))
    requires Sound(sys.h, sys.hosts[v].node.log) || y.log != sys.hosts[v].node.log
             || ReachOf(r) <= sys.hosts[v].node.commit + 1
    ensures CanCommit(d, v, y.commit) && Inv(Commit(d, v, y.commit))
    ensures Sound(d.h, y.log) || (y.commit == sys.hosts[v].node.commit && !Sound(sys.h, sys.hosts[v].node.log))
  {
    var s := sys.hosts[v].node;
    assert ServerOk(d, v) && LeaderLogOk(d.h, r.term);
    if Sound(sys.h, s.log) || y.log != s.log { MergedNowSound(sys.h, d.h, s.log, y.log, r.term, ReachOf(r)); }
    if y.commit > s.commit { ShippedIsSafeNow(sys.h, d.h, v, r, y.log, y.commit); }
    CommitKeeps(d, v, y.commit);
  }

  lemma ShippedIsSafeNow(h: History, g: History, v: nat, r: AppendRequest, log: Log, k: nat)
    requires AppendRequestOk(h, r) && Evolves(h, g, v) && g.leaderLog == h.leaderLog
    requires h.leaderLog[r.term][..ReachOf(r)] <= log && k <= r.leaderCommit && k < |log|
    ensures Safe(g, log[..k + 1], r.term)
  {
    AppendRequestGrows(h, g, v, r);
    ShippedIsSafe(g, r, log, k);
  }

  lemma RejectedNode(h: History, s: Node, r: AppendRequest, v: nat)
    requires NodeOk(s) && AppendFits(r) && !PassesCheck(s, r) && AppendRequestOk(h, r) && v < h.size
    ensures HandleAppendRequest(s, r).0 == if r.term >= s.term then Adopted(s, r) else s
    ensures !HandleAppendRequest(s, r).1.success
    ensures AppendReplyOk(h, AppendReply(v, r, HandleAppendRequest(s, r).1))
  {
  }

  lemma RejectKeeps(sys: System, v: nat, r: AppendRequest, next: System)
    requires SystemInv(sys) && v < |sys.hosts| && |next.hosts| == |sys.hosts| && next.h == sys.h
    requires next.hosts == sys.hosts[v := sys.hosts[v].(node := next.hosts[v].node)]
    requires next.hosts[v].node == (if r.term >= sys.hosts[v].node.term then Adopted(sys.hosts[v].node, r)
               else sys.hosts[v].node)
    ensures Inv(CoreOf(next)) && NodeInv(next.h, next.hosts[v], v)
  {
    if r.term >= sys.hosts[v].node.term {
      AdoptedHost(sys, next, v);
    } else {
      CoreWith(sys, next, v);
      assert CoreOf(next).servers == CoreOf(sys).servers;
      assert NodeAt(sys, v);
    }
  }

  lemma AcceptNode(sys: System, v: nat, r: AppendRequest, next: System)
    requires SystemInv(sys) && v < |sys.hosts| && AppendRequestOk(sys.h, r) && PassesCheck(sys.hosts[v].node, r)
    requires AcceptedOutcome(sys, v, r, next) && NodeInv(sys.h, sys.hosts[v], v) && Inv(CoreOf(next))
    requires next.h.ballots == sys.h.ballots && next.h.size == sys.h.size
    requires var s, y := sys.hosts[v].node, next.hosts[v].node;
             && s.commit <= y.commit < |y.log|
             && (Sound(next.h, y.log) || y.commit == y.base)
    ensures NodeInv(next.h, next.hosts[v], v)
  {
    CoreWith(sys, next, v);
    assert ServerOk(CoreOf(next), v);
    if r.term > sys.hosts[v].node.term { NoBallotYet(CoreOf(sys), v, r.term); }
  }

  lemma AcceptMessages(sys: System, v: nat, r: AppendRequest, next: System)
    requires SystemInv(sys) && v < |sys.hosts| && AppendRequestOk(sys.h, r) && PassesCheck(sys.hosts[v].node, r)
    requires AcceptedOutcome(sys, v, r, next) && Evolves(sys.h, next.h, v)
    requires var reply := AppendReply(v, r, AppendResponse(r.term, true, 0, 0));
             next.net == sys.net.(appendReplies := sys.net.appendReplies + {reply})
    ensures NetInv(next.h, next.net)
  {
    AcceptReply(sys, v, r, next);
    NetInvGrows(sys.h, next.h, v, sys.net);
  }

  lemma AcceptedKeeps(sys: System, v: nat, r: AppendRequest, next: System)
    requires SystemInv(sys) && v < |sys.hosts| && AppendRequestOk(sys.h, r) && PassesCheck(sys.hosts[v].node, r)
    requires AcceptedOutcome(sys, v, r, next) && NodeInv(sys.h, sys.hosts[v], v)
    requires var reply := AppendReply(v, r, AppendResponse(r.term, true, 0, 0));
             next.net == sys.net.(appendReplies := sys.net.appendReplies + {reply})
    ensures SystemInv(next)
  {
    AcceptCore(sys, v, r, next);
    AcceptNode(sys, v, r, next);
    AcceptMessages(sys, v, r, next);
    PeerStep(sys, next, v);
  }

  lemma RejectedKeeps(sys: System, v: nat, r: AppendRequest, next: System, a: AppendResponse)
    requires SystemInv(sys) && v < |sys.hosts| && |next.hosts| == |sys.hosts| && next.h == sys.h
    requires next.hosts == sys.hosts[v := sys.hosts[v].(node := next.hosts[v].node)]
    requires next.hosts[v].node == (if r.term >= sys.hosts[v].node.term then Adopted(sys.hosts[v].node, r)
               else sys.hosts[v].node)
    requires AppendReplyOk(sys.h, AppendReply(v, r, a))
    requires next.net == sys.net.(appendReplies := sys.net.appendReplies + {AppendReply(v, r, a)})
    ensures SystemInv(next)
  {
    PeerFacts(sys, v);
    RejectKeeps(sys, v, r, next);
    SameHistoryEvolves(sys.h, v);
    PeerStep(sys, next, v);
  }

  lemma AppendRequestKeeps(sys: System, v: nat, r: AppendRequest)
    requires SystemInv(sys) && v < |sys.hosts| && r in sys.net.appendRequests
    requires AppendFits(r) && NodeInv(sys.h, sys.hosts[v], v)
    ensures SystemInv(AfterAppendRequest(sys, v, r))
  {
    var next := AfterAppendRequest(sys, v, r);
    assert AppendRequestOk(sys.h, r);
    if PassesCheck(sys.hosts[v].node, r) {
      AcceptedNode(sys, v, r);
      AcceptedKeeps(sys, v, r, next);
    } else {
      RejectedNode(sys.h, sys.hosts[v].node, r, v);
      RejectedKeeps(sys, v, r, next, HandleAppendRequest(sys.hosts[v].node, r).1);
    }
  }

  /** What the leader's majority index names in its own term is committed, even though some
      of its match indices only repeat what was committed before. */
  lemma MajorityCommits(sys: System, v: nat, s: Node)
    requires SystemInv(sys) && v < |sys.hosts| && NodeOk(s) && s.peers == sys.h.size
    requires s.term in sys.h.leaderLog && s.log == sys.h.leaderLog[s.term]
    requires forall p: nat :: p < s.peers ==> MatchOk(sys.h, s, p)
    requires var n := CommitRule.HighestMatched(s.matchIndex); n > s.commit && MatchLog(s, s.term, n)
    ensures Committed(sys.h, s.term, CommitRule.HighestMatched(s.matchIndex))
  {
    var n: nat := CommitRule.HighestMatched(s.matchIndex);
    var q := CommitRule.Matching(s.matchIndex, n);
    assert Quorum(sys.h.size, q) by { assert CommitRule.IsMajorityIndex(s.matchIndex, n); }
    if p: nat :| p in q && !AckedTo(sys.h, p, s.term, n) {
      assert MatchOk(sys.h, s, p);
      PrefixCommits(sys, s, s.matchIndex[p], n);
    } else {
      assert AllAcked(sys.h, q, s.term, n);
    }
  }

  /** A committed prefix of a leader's log that includes an entry of the leader's own term
      was committed in that term. */
  lemma PrefixCommits(sys: System, s: Node, m: nat, n: nat)
    requires SystemInv(sys) && s.term in sys.h.leaderLog && s.log == sys.h.leaderLog[s.term]
    requires 1 <= n <= m < |s.log| && s.log[n].term == s.term && Safe(sys.h, s.log[..m + 1], s.term)
    ensures Committed(sys.h, s.term, n)
  {
    var p := s.log[..m + 1];
    var t: nat, j: nat :| SafeBy(sys.h, p, s.term, t, j);
    assert LeaderLogOk(sys.h, t) && p[n] == sys.h.leaderLog[t][n];
    assert t == s.term;
    var q :| Quorum(sys.h.size, q) && AllAcked(sys.h, q, t, j);
    forall w | w in q ensures AckedTo(sys.h, w, t, n) { assert AckedTo(sys.h, w, t, j); }
    assert AllAcked(sys.h, q, t, n);
  }

  /** A host whose leading peer changes only its bookkeeping and perhaps its commit index. */
  lemma LeaderBookkeeping(sys: System, next: System, v: nat)
    requires SystemInv(sys) && v < |sys.hosts| && |next.hosts| == |sys.hosts| && next.h == sys.h && next.net == sys.net
    requires next.hosts == sys.hosts[v := sys.hosts[v].(node := next.hosts[v].node)]
    requires sys.hosts[v].node.role == Leader
    requires var s, y := sys.hosts[v].node, next.hosts[v].node;
             && y == s.(commit := y.commit, nextIndex := y.nextIndex, matchIndex := y.matchIndex)
             && |y.nextIndex| == s.peers && |y.matchIndex| == s.peers
             && (y.commit == s.commit || (s.commit < y.commit < |s.log| && Committed(sys.h, s.term, y.commit)))
             && forall p: nat :: p < s.peers ==> MatchOk(sys.h, y, p)
    ensures SystemInv(next)
  {
    var c := CoreOf(sys);
    var s, y := sys.hosts[v].node, next.hosts[v].node;
    assert NodeAt(sys, v) && ServerOk(c, v) && LeaderLogOk(sys.h, s.term);
    CoreWith(sys, next, v);
    if y.commit > s.commit {
      assert SafeBy(sys.h, s.log[..y.commit + 1], s.term, s.term, y.commit);
    }
    CommitKeeps(c, v, y.commit);
    assert CoreOf(next).servers == Commit(c, v, y.commit).servers;
    SameHistoryEvolves(sys.h, v);
    PeerStep(sys, next, v);
  }

  /** A host whose peer steps down, in its own term or a newer one. */
  lemma SteppingDown(sys: System, next: System, v: nat)
    requires SystemInv(sys) && v < |sys.hosts| && |next.hosts| == |sys.hosts| && next.h == sys.h && next.net == sys.net
    requires next.hosts == sys.hosts[v := sys.hosts[v].(node := next.hosts[v].node)]
    requires var s, y := sys.hosts[v].node, next.hosts[v].node;
             || (y.term > s.term && y == StepDown(s, y.term))
             || y == s.(role := Follower)
    ensures SystemInv(next)
  {
    PeerFacts(sys, v);
    AdoptedHost(sys, next, v);
    SameHistoryEvolves(sys.h, v);
    PeerStep(sys, next, v);
  }

  lemma MatchRecorded(sys: System, v: nat, r: AppendReply)
    requires SystemInv(sys) && v < |sys.hosts| && NodeInv(sys.h, sys.hosts[v], v) && AppendReplyOk(sys.h, r)
    requires sys.hosts[v].node.role == Leader && sys.hosts[v].node.term == r.request.term && r.answer.success
    ensures var y := RecordMatch(sys.hosts[v].node, r.sender, r.request.prevLogIndex + |r.request.entries|);
            forall p: nat :: p < y.peers ==> MatchOk(sys.h, y, p)
  {
    var s := sys.hosts[v].node;
    var y := RecordMatch(s, r.sender, r.request.prevLogIndex + |r.request.entries|);
    assert ServerOk(CoreOf(sys), v);
    forall p: nat | p < y.peers ensures MatchOk(sys.h, y, p) {
      assert MatchOk(sys.h, s, p);
    }
  }

  lemma AppendReplyKeeps(sys: System, v: nat, r: AppendReply)
    requires SystemInv(sys) && v < |sys.hosts| && r in sys.net.appendReplies
    requires ReplyFits(sys.hosts[v].node, r.sender, r.request)
    ensures SystemInv(AfterAppendReply(sys, v, r))
  {
    var next := AfterAppendReply(sys, v, r);
    var s, y := sys.hosts[v].node, next.hosts[v].node;
    assert AppendReplyOk(sys.h, r) && NodeAt(sys, v) && ServerOk(CoreOf(sys), v);
    if s.role != Leader || s.term != r.request.term {
      assert next == sys by { assert next.hosts == sys.hosts; }
    } else if r.answer.success {
      MatchRecorded(sys, v, r);
      var recorded := RecordMatch(s, r.sender, r.request.prevLogIndex + |r.request.entries|);
      if y.commit != s.commit { MajorityCommits(sys, v, recorded); }
      forall p: nat | p < s.peers ensures MatchOk(sys.h, y, p) { assert MatchOk(sys.h, recorded, p); }
      LeaderBookkeeping(sys, next, v);
    } else if r.answer.term > s.term {
      SteppingDown(sys, next, v);
    } else {
      forall p: nat | p < s.peers ensures MatchOk(sys.h, y, p) { assert MatchOk(sys.h, s, p); }
      LeaderBookkeeping(sys, next, v);
    }
  }

  lemma StartedNode(sys: System, v: nat, command: Command)
    requires SystemInv(sys) && v < |sys.hosts| && NodeInv(sys.h, sys.hosts[v], v) && sys.hosts[v].node.role == Leader
    requires Inv(CoreOf(AfterClientStart(sys, v, command))) && Grows(sys.h, AfterClientStart(sys, v, command).h)
    ensures NodeInv(AfterClientStart(sys, v, command).h, AfterClientStart(sys, v, command).hosts[v], v)
  {
    var next := AfterClientStart(sys, v, command);
    var s, y := sys.hosts[v].node, next.hosts[v].node;
    CoreWith(sys, next, v);
    assert ServerOk(CoreOf(sys), v) && ServerOk(CoreOf(next), v) && LeaderLogOk(next.h, s.term);
    forall p: nat | p < y.peers ensures MatchOk(next.h, y, p) {
      assert MatchOk(sys.h, s, p);
      if p != v { MatchExtends(sys.h, next.h, s, y, p); }
    }
  }

  /** A longer log keeps what was known of the peers that did not answer. */
  lemma MatchExtends(h: History, g: History, s: Node, y: Node, p: nat)
    requires Grows(h, g) && p < |s.matchIndex| == |y.matchIndex| && p < |s.nextIndex| == |y.nextIndex|
             && MatchOk(h, s, p)
    requires s.log <= y.log && y.term == s.term && y.matchIndex[p] == s.matchIndex[p]
             && y.nextIndex[p] == s.nextIndex[p]
    ensures MatchOk(g, y, p)
  {
    MatchGrows(h, g, s, p);
    if s.matchIndex[p] > 0 { assert y.log[..s.matchIndex[p] + 1] == s.log[..s.matchIndex[p] + 1]; }
  }

  lemma StartedCore(sys: System, v: nat, command: Command)
    requires SystemInv(sys) && v < |sys.hosts| && NodeOk(sys.hosts[v].node) && sys.hosts[v].node.role == Leader
    ensures Inv(CoreOf(AfterClientStart(sys, v, command)))
    ensures Evolves(sys.h, AfterClientStart(sys, v, command).h, v)
  {
    var next := AfterClientStart(sys, v, command);
    var c := CoreOf(sys);
    var log := next.hosts[v].node.log;
    assert ServerOk(c, v);
    CoreWith(sys, next, v);
    AppendKeeps(c, v, log[|log| - 1]);
    AppendGrows(c, v, log[|log| - 1]);
    assert CoreOf(next) == Append(c, v, log[|log| - 1]);
  }

  lemma ClientStartKeeps(sys: System, v: nat, command: Command)
    requires SystemInv(sys) && v < |sys.hosts| && NodeInv(sys.h, sys.hosts[v], v) && sys.hosts[v].node.role == Leader
    ensures SystemInv(AfterClientStart(sys, v, command))
  {
    var next := AfterClientStart(sys, v, command);
    var s, y := sys.hosts[v].node, next.hosts[v].node;
    StartedCore(sys, v, command);
    StartedNode(sys, v, command);
    assert y.log[..s.commit + 1] == s.log[..s.commit + 1];
    NetInvGrows(sys.h, next.h, v, sys.net);
    PeerStep(sys, next, v);
  }
}
