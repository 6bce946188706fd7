/** The invariant of the cluster, and the parts of it that a step elsewhere cannot break. */
module RaftSystemInv {
  import opened Prelude
  import opened RaftLog
  import opened RaftNode
  import opened RaftCore
  import opened RaftCoreFacts
  import opened RaftSystem

  // ---------- peers ----------

  /** matchIndex is truthful where it matters: the peer acknowledged that index in this
      term, or the leader's log is already committed up to it. */
  ghost predicate MatchOk(h: History, s: Node, p: nat)
    requires p < |s.matchIndex| && p < |s.nextIndex|
  {
    && s.nextIndex[p] <= |s.log|
    && s.matchIndex[p] < |s.log|
    && (s.matchIndex[p] > 0 ==>
          AckedTo(h, p, s.term, s.matchIndex[p]) || Safe(h, s.log[..s.matchIndex[p] + 1], s.term))
  }

  ghost predicate NodeInv(h: History, x: Host, v: nat) {
    var s := x.node;
    && NodeOk(s) && s.me == v && s.peers == h.size
    && s.commit < |s.log| && s.lastApplied <= s.commit
    && (Sound(h, s.log) || s.commit == s.base)
    && (if (v, s.term) in h.ballots then s.votedFor == h.ballots[(v, s.term)] else s.votedFor == NOBODY)
    && (s.role == Candidate ==>
          && x.supporters <= Below(h.size) && s.grantedVotes == |x.supporters|
          && Backers(h, x.supporters, s.term, v) && x.awaiting !! x.supporters)
    && (s.role == Leader ==> forall p: nat :: p < s.peers ==> MatchOk(h, s, p))
  }

  // ---------- services ----------

  /** Index i has reached the service, or is on its way. */
  predicate Reaches(x: Host, i: int) {
    i < |x.history| || (x.queue != [] && x.queue[|x.queue| - 1].index >= i)
  }

  function Target(x: Host): int {
    if x.delivering.Some? then Max(x.node.lastApplied, x.delivering.value) else x.node.lastApplied
  }

  /** A queued entry is the committed entry of its index, and no index is skipped on the way to it. */
  predicate QueuedOk(x: Host, k: nat)
    requires k < |x.queue|
  {
    var e := x.queue[k];
    && 1 <= e.index <= x.node.commit && e.index <= Target(x)
    && e.index < |x.node.log| && e == x.node.log[e.index]
    && (e.index <= |x.history| || (k >= 1 && e.index <= x.queue[k - 1].index + 1))
    && (x.applied == |x.history| - 1 || e.index >= |x.history|)
  }

  ghost predicate ServiceInv(h: History, x: Host) {
    var s := x.node;
    && s.base < |s.log| && x.snapshot == s.log[..s.base + 1]
    && Indexed(x.history) && s.base < |x.history| <= s.commit + 1
    && Safe(h, x.history, s.term)
    && x.applied < |x.history|
    && (x.applied == |x.history| - 1 || s.lastApplied >= |x.history| - 1)
    && (forall k: nat :: k < |x.queue| ==> QueuedOk(x, k))
    && Reaches(x, s.lastApplied)
    && (x.delivering.Some? ==> Reaches(x, x.delivering.value) && x.delivering.value <= s.commit)
    && s.base <= Target(x)
    && (forall p :: p in x.offers ==> Indexed(p) && Safe(h, p, s.term))
  }

  // ---------- messages ----------

  ghost predicate VoteRequestOk(h: History, r: VoteRequest) {
    && (r.candidateId, r.term) in h.campaigns
    && var e := h.campaigns[(r.candidateId, r.term)].log;
       r.lastLogIndex == |e| - 1 && r.lastLogTerm == LastTerm(e)
  }

  ghost predicate VoteReplyOk(h: History, r: VoteReply) {
    && r.voter < h.size && r.voter != r.candidate
    && (r.answer.voteGranted ==>
          (r.voter, r.requestTerm) in h.ballots && h.ballots[(r.voter, r.requestTerm)] == r.candidate)
  }

  /** A request ships a segment of its leader's log that reaches to the log's end at the
      time, so its commit index never points past what it ships. */
  ghost predicate AppendRequestOk(h: History, r: AppendRequest) {
    && r.term in h.leaderLog && r.prevLogIndex >= 0
    && var lead := h.leaderLog[r.term];
       var m := ReachOf(r);
       && Shipped(h, r.term, m)
       && r.entries == lead[r.prevLogIndex + 1..m] && r.prevLogTerm == lead[r.prevLogIndex].term
       && r.leaderCommit < m && Safe(h, lead[..r.leaderCommit + 1], r.term)
  }

  ghost predicate AppendReplyOk(h: History, r: AppendReply) {
    && r.sender < h.size && AppendRequestOk(h, r.request)
    && (r.answer.success ==>
          || AckedTo(h, r.sender, r.request.term, ReachOf(r.request) - 1)
          || Safe(h, h.leaderLog[r.request.term][..ReachOf(r.request)], r.request.term))
    && (!r.answer.success && r.answer.term == r.request.term ==> r.answer.conflictIndex <= r.request.prevLogIndex)
  }

  ghost predicate SnapshotRequestOk(h: History, r: SnapshotRequest) {
    && Indexed(r.history) && Safe(h, r.history, r.term)
    && r.term in h.leaderLog && r.history <= h.leaderLog[r.term]
    && r.lastIncludedIndex == |r.history| - 1 && r.lastIncludedTerm == LastTerm(r.history)
  }

  ghost predicate SnapshotReplyOk(h: History, r: SnapshotReply) {
    r.sender < h.size && SnapshotRequestOk(h, r.request)
  }

  ghost predicate NetInv(h: History, net: Network) {
    && (forall r :: r in net.voteRequests ==> VoteRequestOk(h, r))
    && (forall r :: r in net.voteReplies ==> VoteReplyOk(h, r))
    && (forall r :: r in net.appendRequests ==> AppendRequestOk(h, r))
    && (forall r :: r in net.appendReplies ==> AppendReplyOk(h, r))
    && (forall r :: r in net.snapshotRequests ==> SnapshotRequestOk(h, r))
    && (forall r :: r in net.snapshotReplies ==> SnapshotReplyOk(h, r))
  }

  ghost predicate NodeAt(sys: System, v: nat) {
    v < |sys.hosts| ==> NodeInv(sys.h, sys.hosts[v], v)
  }

  ghost predicate ServiceAt(sys: System, v: nat) {
    v < |sys.hosts| ==> ServiceInv(sys.h, sys.hosts[v])
  }

  ghost predicate SystemInv(sys: System) {
    && sys.h.size == |sys.hosts|
    && Inv(CoreOf(sys))
    && (forall v: nat :: NodeAt(sys, v))
    && (forall v: nat :: ServiceAt(sys, v))
    && NetInv(sys.h, sys.net)
  }

  // ---------- what a step of host v leaves alone ----------

  /** Histories grow, and only host v casts votes. */
  ghost predicate Evolves(h: History, g: History, v: nat) {
    && Grows(h, g)
    && (forall k :: k in h.ballots ==> k in g.ballots && g.ballots[k] == h.ballots[k])
    && (forall k :: k in g.ballots && k.0 != v ==> k in h.ballots)
    && (forall k :: k in h.campaigns ==> k in g.campaigns && g.campaigns[k] == h.campaigns[k])
    && (forall t :: t in h.leaderLog && t in h.leaderOf ==> t in g.leaderOf && g.leaderOf[t] == h.leaderOf[t])
    && (forall t :: t in h.leaderLog ==>
          forall i :: |h.leaderLog[t]| <= i < |g.leaderLog[t]| ==> g.leaderLog[t][i].term == t)
  }

  lemma MatchGrows(h: History, g: History, s: Node, p: nat)
    requires Grows(h, g) && p < |s.matchIndex| && p < |s.nextIndex| && MatchOk(h, s, p)
    ensures MatchOk(g, s, p)
  {
    if s.matchIndex[p] > 0 && Safe(h, s.log[..s.matchIndex[p] + 1], s.term) {
      SafeGrows(h, g, s.log[..s.matchIndex[p] + 1], s.term);
    }
  }

  lemma NodeInvGrows(h: History, g: History, x: Host, v: nat, w: nat)
    requires Evolves(h, g, v) && w != v && NodeInv(h, x, w)
    ensures NodeInv(g, x, w)
  {
    var s := x.node;
    if Sound(h, s.log) { SoundGrows(h, g, s.log); }
    if s.role == Leader {
      forall p: nat | p < s.peers ensures MatchOk(g, s, p) {
        assert MatchOk(h, s, p);
        MatchGrows(h, g, s, p);
      }
    }
    assert (w, s.term) in g.ballots ==> (w, s.term) in h.ballots;
  }

  lemma ServiceInvGrows(h: History, g: History, x: Host)
    requires Grows(h, g) && ServiceInv(h, x)
    ensures ServiceInv(g, x)
  {
    SafeGrows(h, g, x.history, x.node.term);
    forall p | p in x.offers ensures Safe(g, p, x.node.term) { SafeGrows(h, g, p, x.node.term); }
  }

  lemma AppendRequestGrows(h: History, g: History, v: nat, r: AppendRequest)
    requires Evolves(h, g, v) && AppendRequestOk(h, r)
    ensures AppendRequestOk(g, r)
  {
    var lead, more := h.leaderLog[r.term], g.leaderLog[r.term];
    var m := ReachOf(r);
    assert more[r.prevLogIndex + 1..m] == lead[r.prevLogIndex + 1..m];
    assert more[..r.leaderCommit + 1] == lead[..r.leaderCommit + 1];
    forall i | m <= i < |more| ensures more[i].term == r.term {
      if i < |lead| { assert more[i] == lead[i]; }
    }
    SafeGrows(h, g, lead[..r.leaderCommit + 1], r.term);
  }

  lemma AppendReplyGrows(h: History, g: History, v: nat, r: AppendReply)
    requires Evolves(h, g, v) && AppendReplyOk(h, r)
    ensures AppendReplyOk(g, r)
  {
    AppendRequestGrows(h, g, v, r.request);
    var m := ReachOf(r.request);
    var p := h.leaderLog[r.request.term][..m];
    assert g.leaderLog[r.request.term][..m] == p;
    if Safe(h, p, r.request.term) { SafeGrows(h, g, p, r.request.term); }
  }

  lemma SnapshotRequestGrows(h: History, g: History, v: nat, r: SnapshotRequest)
    requires Evolves(h, g, v) && SnapshotRequestOk(h, r)
    ensures SnapshotRequestOk(g, r)
  {
    SafeGrows(h, g, r.history, r.term);
    PrefixTransitive(r.history, h.leaderLog[r.term], g.leaderLog[r.term]);
  }

  lemma NetInvGrows(h: History, g: History, v: nat, net: Network)
    requires Evolves(h, g, v) && NetInv(h, net)
    ensures NetInv(g, net)
  {
    forall r | r in net.appendRequests ensures AppendRequestOk(g, r) { AppendRequestGrows(h, g, v, r); }
    forall r | r in net.appendReplies ensures AppendReplyOk(g, r) { AppendReplyGrows(h, g, v, r); }
    forall r | r in net.snapshotRequests ensures SnapshotRequestOk(g, r) { SnapshotRequestGrows(h, g, v, r); }
    forall r | r in net.snapshotReplies ensures SnapshotReplyOk(g, r) { SnapshotRequestGrows(h, g, v, r.request); }
    forall r | r in net.voteRequests ensures VoteRequestOk(g, r) { assert VoteRequestOk(h, r); }
    forall r | r in net.voteReplies ensures VoteReplyOk(g, r) { assert VoteReplyOk(h, r); }
  }

  lemma SameHistoryEvolves(h: History, v: nat)
    ensures Evolves(h, h, v)
  {
  }

  /** To re-establish the invariant after a step of host v it is enough to look at the
      core, at host v and at the messages. */
  lemma StepOfOneHost(sys: System, next: System, v: nat)
    requires SystemInv(sys) && v < |sys.hosts| && Evolves(sys.h, next.h, v)
    requires |next.hosts| == |sys.hosts| && next.hosts == sys.hosts[v := next.hosts[v]]
    requires Inv(CoreOf(next)) && NodeInv(next.h, next.hosts[v], v) && ServiceInv(next.h, next.hosts[v])
    requires NetInv(next.h, next.net)
    ensures SystemInv(next)
  {
    forall w: nat ensures NodeAt(next, w) && ServiceAt(next, w) {
      if w < |next.hosts| && w != v {
        assert NodeAt(sys, w) && ServiceAt(sys, w) && next.hosts[w] == sys.hosts[w];
        NodeInvGrows(sys.h, next.h, sys.hosts[w], v, w);
        ServiceInvGrows(sys.h, next.h, sys.hosts[w]);
      }
    }
  }
}
