/** What a leader believes about its peers, and when it is right. */
module RaftMatch {
  import opened RaftLog
  import opened KvTypes
  import opened RaftNode
  import opened RaftCore
  import opened RaftCoreFacts
  import opened RaftCoreSteps
  import opened RaftSystem
  import opened RaftSystemInv
  import opened RaftSystemSteps
  import opened RaftSafety

  /** Server p acknowledged index m to the leader of term t, or holds that leader's log up to m as
      a committed prefix. */
  ghost predicate Vouched(sys: System, p: nat, t: nat, m: nat) {
    && p < |sys.hosts| && t in sys.h.leaderLog && m < |sys.h.leaderLog[t]|
    && var lead := sys.h.leaderLog[t][..m + 1];
       || AckedTo(sys.h, p, t, m)
       || (t <= sys.hosts[p].node.term && Safe(sys.h, lead, t) && lead <= sys.hosts[p].node.log)
  }

  ghost predicate ReplyVouched(sys: System, r: AppendReply) {
    r.answer.success ==> ReachOf(r.request) >= 1 && Vouched(sys, r.sender, r.request.term, ReachOf(r.request) - 1)
  }

  /** While its sender still leads, a snapshot request stays at or below the sender's commit index. */
  ghost predicate SnapshotBelow(sys: System, r: SnapshotRequest) {
    Leads(sys, r.leaderId, r.term) ==> r.lastIncludedIndex <= sys.hosts[r.leaderId].node.commit
  }

  ghost predicate PeerVouched(sys: System, v: nat, p: nat) {
    v < |sys.hosts| && sys.hosts[v].node.role == Leader && p < |sys.hosts[v].node.matchIndex|
    && sys.hosts[v].node.matchIndex[p] > sys.hosts[v].node.commit ==>
      Vouched(sys, p, sys.hosts[v].node.term, sys.hosts[v].node.matchIndex[p])
  }

  ghost predicate MatchInv(sys: System) {
    && (forall r :: r in sys.net.appendReplies ==> ReplyVouched(sys, r))
    && (forall r :: r in sys.net.snapshotRequests ==> SnapshotBelow(sys, r))
    && (forall r :: r in sys.net.snapshotReplies ==> SnapshotBelow(sys, r.request))
    && (forall v: nat, p: nat :: PeerVouched(sys, v, p))
  }

  // ---------- one step ----------

  lemma VouchedStays(sys: System, a: Action, p: nat, t: nat, m: nat)
    requires SystemInv(sys) && Enabled(sys, a) && InBounds(sys, a) && Vouched(sys, p, t, m)
    ensures Vouched(After(sys, a), p, t, m)
  {
    var next, lead := After(sys, a), sys.h.leaderLog[t][..m + 1];
    StepExtends(sys, a);
    OtherHostsUntouched(sys, a, p);
    assert next.h.leaderLog[t][..m + 1] == lead;
    if !AckedTo(sys.h, p, t, m) {
      SafeBoundGrows(sys.h, lead, t, sys.hosts[p].node.term);
      StepKeepsCommitted(sys, a, p, lead);
      SafeGrows(sys.h, next.h, lead, t);
    }
  }

  /** A successful answer is given only by a server that then holds what was shipped. */
  lemma AnswerVouched(sys: System, v: nat, r: AppendRequest)
    requires SystemInv(sys) && v < |sys.hosts| && r in sys.net.appendRequests && AppendFits(r)
             && NodeInv(sys.h, sys.hosts[v], v)
    ensures ReplyVouched(AfterAppendRequest(sys, v, r), AppendReply(v, r, HandleAppendRequest(sys.hosts[v].node, r).1))
  {
    var s, next := sys.hosts[v].node, AfterAppendRequest(sys, v, r);
    assert AppendRequestOk(sys.h, r);
    if PassesCheck(s, r) {
      AcceptedNode(sys, v, r);
      if !Records(sys, v, r) { StaleKeepsCommit(sys, v, r); }
    } else {
      RejectedNode(sys.h, s, r, v);
    }
  }

  lemma RepliesVouched(sys: System, a: Action, r: AppendReply)
    requires SystemInv(sys) && MatchInv(sys) && Enabled(sys, a) && InBounds(sys, a)
             && r in After(sys, a).net.appendReplies
    ensures ReplyVouched(After(sys, a), r)
  {
    if r in sys.net.appendReplies {
      assert ReplyVouched(sys, r);
      if r.answer.success { VouchedStays(sys, a, r.sender, r.request.term, ReachOf(r.request) - 1); }
    } else {
      assert NodeAt(sys, a.v);
      AnswerVouched(sys, a.v, a.appendRequest);
    }
  }

  /** A candidate that wins a term is the first leader of that term. */
  lemma WinsFreshTerm(sys: System, v: nat, r: VoteReply)
    requires SystemInv(sys) && VoteReplyReady(sys, v, r)
    requires sys.hosts[v].node.role != Leader && AfterVoteReply(sys, v, r).hosts[v].node.role == Leader
    ensures sys.hosts[v].node.term !in sys.h.leaderLog
            && AfterVoteReply(sys, v, r).hosts[v].node.term == sys.hosts[v].node.term
  {
    var c, x := CoreOf(sys), sys.hosts[v];
    assert NodeAt(sys, v) && ServerOk(c, v);
    CountedVotes(sys, v, r);
    if x.node.term in sys.h.leaderLog { OneLeader(c, x.node.term, v, x.supporters + {r.voter}); }
  }

  /** While a server keeps leading a term its commit index does not fall, and it starts to lead only by
      winning a term without a leader. */
  lemma LeadershipKept(sys: System, a: Action, v: nat, t: nat)
    requires SystemInv(sys) && Enabled(sys, a) && InBounds(sys, a) && Leads(After(sys, a), v, t)
    ensures v < |sys.hosts|
    ensures if Leads(sys, v, t) then sys.hosts[v].node.commit <= After(sys, a).hosts[v].node.commit
            else a.v == v && a.OnVoteReply? && t !in sys.h.leaderLog
  {
    OtherHostsUntouched(sys, a, a.v);
    if v == a.v {
      LeaderStep(sys, a, t);
    } else {
      OtherHostsUntouched(sys, a, v);
    }
  }

  lemma LeaderStep(sys: System, a: Action, t: nat)
    requires SystemInv(sys) && Enabled(sys, a) && InBounds(sys, a) && Leads(After(sys, a), a.v, t)
    ensures if Leads(sys, a.v, t) then sys.hosts[a.v].node.commit <= After(sys, a).hosts[a.v].node.commit
            else a.OnVoteReply? && t !in sys.h.leaderLog
  {
    if MayDepose(a) {
      FollowersStep(sys, a);
    } else if a.OnVoteReply? {
      if !Leads(sys, a.v, t) { WinsFreshTerm(sys, a.v, a.voteReply); }
    } else {
      LeadersOwnStep(sys, a);
    }
  }

  predicate MayDepose(a: Action) {
    a.Timeout? || a.OnVoteRequest? || a.OnAppendRequest? || a.OnSnapshotRequest? || a.CrashRestart?
  }

  /** After these a server leads only the term it led before, with the commit index it had. */
  lemma FollowersStep(sys: System, a: Action)
    requires Enabled(sys, a) && InBounds(sys, a) && MayDepose(a)
    ensures var s, y := sys.hosts[a.v].node, After(sys, a).hosts[a.v].node;
            y.role == Leader ==>
              s.role == Leader && y.term == s.term && y.commit == s.commit && y.matchIndex == s.matchIndex
  {
  }

  lemma LeadersOwnStep(sys: System, a: Action)
    requires Enabled(sys, a) && InBounds(sys, a) && !MayDepose(a) && !a.OnVoteReply?
    ensures var s, y := sys.hosts[a.v].node, After(sys, a).hosts[a.v].node;
            y.role == Leader ==> s.role == Leader && y.term == s.term && s.commit <= y.commit
  {
  }

  lemma SnapshotStaysBelow(sys: System, a: Action, r: SnapshotRequest)
    requires SystemInv(sys) && Enabled(sys, a) && InBounds(sys, a) && SnapshotRequestOk(sys.h, r)
             && SnapshotBelow(sys, r)
    ensures SnapshotBelow(After(sys, a), r)
  {
    if Leads(After(sys, a), r.leaderId, r.term) { LeadershipKept(sys, a, r.leaderId, r.term); }
  }

  lemma SnapshotsBelow(sys: System, a: Action)
    requires SystemInv(sys) && MatchInv(sys) && Enabled(sys, a) && InBounds(sys, a)
    ensures forall r :: r in After(sys, a).net.snapshotRequests ==> SnapshotBelow(After(sys, a), r)
    ensures forall r :: r in After(sys, a).net.snapshotReplies ==> SnapshotBelow(After(sys, a), r.request)
  {
    assert NodeAt(sys, a.v);
    forall r | r in After(sys, a).net.snapshotRequests ensures SnapshotBelow(After(sys, a), r) {
      if r in sys.net.snapshotRequests { SnapshotStaysBelow(sys, a, r); }
    }
    forall r | r in After(sys, a).net.snapshotReplies ensures SnapshotBelow(After(sys, a), r.request) {
      if r in sys.net.snapshotReplies {
        assert SnapshotReplyOk(sys.h, r);
        SnapshotStaysBelow(sys, a, r.request);
      } else {
        SnapshotStaysBelow(sys, a, a.snapshotRequest);
      }
    }
  }

  // ---------- the leader's own step ----------

  lemma OwnEntryVouched(sys: System, v: nat, command: Command)
    requires SystemInv(sys) && v < |sys.hosts| && NodeInv(sys.h, sys.hosts[v], v) && sys.hosts[v].node.role == Leader
    ensures var next := AfterClientStart(sys, v, command);
            Vouched(next, v, sys.hosts[v].node.term, |sys.hosts[v].node.log|)
  {
  }

  lemma LeaderVouched(sys: System, a: Action, p: nat)
    requires SystemInv(sys) && MatchInv(sys) && Enabled(sys, a) && InBounds(sys, a)
    requires Leads(sys, a.v, After(sys, a).hosts[a.v].node.term) && After(sys, a).hosts[a.v].node.role == Leader
    ensures PeerVouched(After(sys, a), a.v, p)
  {
    var s, y := sys.hosts[a.v].node, After(sys, a).hosts[a.v].node;
    assert NodeAt(sys, a.v);
    if p < |y.matchIndex| && y.matchIndex[p] > y.commit {
      if a.ClientStart? && p == a.v {
        OwnEntryVouched(sys, a.v, a.command);
      } else {
        VouchedBefore(sys, a, p);
        VouchedStays(sys, a, p, s.term, y.matchIndex[p]);
      }
    }
  }

  /** What a leader's step leaves in matchIndex above its commit index was vouched for before it. */
  lemma VouchedBefore(sys: System, a: Action, p: nat)
    requires SystemInv(sys) && MatchInv(sys) && Enabled(sys, a) && InBounds(sys, a) && !(a.ClientStart? && p == a.v)
    requires Leads(sys, a.v, After(sys, a).hosts[a.v].node.term) && After(sys, a).hosts[a.v].node.role == Leader
    requires p < |After(sys, a).hosts[a.v].node.matchIndex|
    requires After(sys, a).hosts[a.v].node.matchIndex[p] > After(sys, a).hosts[a.v].node.commit
    ensures Vouched(sys, p, sys.hosts[a.v].node.term, After(sys, a).hosts[a.v].node.matchIndex[p])
  {
    assert NodeAt(sys, a.v);
    LeadershipKept(sys, a, a.v, sys.hosts[a.v].node.term);
    SamePeers(sys, a);
    MatchSource(sys, a, p);
    VouchedFromSource(sys, a, p, After(sys, a).hosts[a.v].node.matchIndex[p]);
  }

  lemma VouchedFromSource(sys: System, a: Action, p: nat, m: int)
    requires MatchInv(sys) && Enabled(sys, a) && p < |sys.hosts[a.v].node.matchIndex|
    requires sys.hosts[a.v].node.role == Leader && m > sys.hosts[a.v].node.commit
    requires || m == sys.hosts[a.v].node.matchIndex[p]
             || (a.OnAppendReply? && a.appendReply.answer.success && p == a.appendReply.sender
                 && a.appendReply.request.term == sys.hosts[a.v].node.term && m == ReachOf(a.appendReply.request) - 1)
    ensures Vouched(sys, p, sys.hosts[a.v].node.term, m)
  {
    if m == sys.hosts[a.v].node.matchIndex[p] {
      assert PeerVouched(sys, a.v, p);
    } else {
      assert ReplyVouched(sys, a.appendReply);
    }
  }

  lemma SamePeers(sys: System, a: Action)
    requires Enabled(sys, a) && InBounds(sys, a)
    requires Leads(sys, a.v, After(sys, a).hosts[a.v].node.term)
    ensures |After(sys, a).hosts[a.v].node.matchIndex| == |sys.hosts[a.v].node.matchIndex|
  {
  }

  /** Where a leader's match index above its commit index comes from. */
  lemma MatchSource(sys: System, a: Action, p: nat)
    requires SystemInv(sys) && MatchInv(sys) && Enabled(sys, a) && InBounds(sys, a) && NodeAt(sys, a.v)
    requires Leads(sys, a.v, After(sys, a).hosts[a.v].node.term) && After(sys, a).hosts[a.v].node.role == Leader
    requires p < |After(sys, a).hosts[a.v].node.matchIndex| && p < |sys.hosts[a.v].node.matchIndex|
    requires After(sys, a).hosts[a.v].node.matchIndex[p] > After(sys, a).hosts[a.v].node.commit
    ensures var s, y := sys.hosts[a.v].node, After(sys, a).hosts[a.v].node;
            || y.matchIndex[p] == s.matchIndex[p]
            || (a.ClientStart? && p == a.v && y.matchIndex[p] == |s.log|)
            || (a.OnAppendReply? && a.appendReply.answer.success && p == a.appendReply.sender
               && a.appendReply.request.term == s.term
                && y.matchIndex[p] == ReachOf(a.appendReply.request) - 1)
  {
    if MayDepose(a) {
      FollowersStep(sys, a);
    } else if a.OnSnapshotReply? {
      assert SnapshotBelow(sys, a.snapshotReply.request);
    } else if !a.OnAppendReply? && !a.ClientStart? {
      MatchUntouched(sys, a);
    }
  }

  lemma MatchUntouched(sys: System, a: Action)
    requires Enabled(sys, a) && InBounds(sys, a) && !MayDepose(a) && !a.OnSnapshotReply? && !a.OnAppendReply?
             && !a.ClientStart?
    requires Leads(sys, a.v, After(sys, a).hosts[a.v].node.term)
    ensures After(sys, a).hosts[a.v].node.matchIndex == sys.hosts[a.v].node.matchIndex
  {
  }

  lemma PeersVouched(sys: System, a: Action, v: nat, p: nat)
    requires SystemInv(sys) && MatchInv(sys) && Enabled(sys, a) && InBounds(sys, a)
    ensures PeerVouched(After(sys, a), v, p)
  {
    var next := After(sys, a);
    OtherHostsUntouched(sys, a, a.v);
    if v < |sys.hosts| && next.hosts[v].node.role == Leader {
      LeadershipKept(sys, a, v, next.hosts[v].node.term);
      if v != a.v {
        OtherHostsUntouched(sys, a, v);
        assert PeerVouched(sys, v, p);
        var s := sys.hosts[v].node;
        if p < |s.matchIndex| && s.matchIndex[p] > s.commit { VouchedStays(sys, a, p, s.term, s.matchIndex[p]); }
      } else if Leads(sys, v, next.hosts[v].node.term) {
        LeaderVouched(sys, a, p);
      } else {
        NewLeaderKnowsNothing(sys, v, a.voteReply);
      }
    }
  }

  lemma NewLeaderKnowsNothing(sys: System, v: nat, r: VoteReply)
    requires SystemInv(sys) && VoteReplyReady(sys, v, r) && NodeOk(sys.hosts[v].node)
    requires sys.hosts[v].node.role != Leader && AfterVoteReply(sys, v, r).hosts[v].node.role == Leader
    ensures forall p: nat :: p < |AfterVoteReply(sys, v, r).hosts[v].node.matchIndex| ==>
              AfterVoteReply(sys, v, r).hosts[v].node.matchIndex[p] == 0
  {
  }

  lemma StepKeepsMatch(sys: System, a: Action)
    requires SystemInv(sys) && MatchInv(sys) && Enabled(sys, a) && InBounds(sys, a)
    ensures MatchInv(After(sys, a))
  {
    forall r | r in After(sys, a).net.appendReplies ensures ReplyVouched(After(sys, a), r) {
      RepliesVouched(sys, a, r);
    }
    SnapshotsBelow(sys, a);
    forall v: nat, p: nat ensures PeerVouched(After(sys, a), v, p) { PeersVouched(sys, a, v, p); }
  }

  lemma NextKeepsMatch(sys: System, next: System)
    requires SystemInv(sys) && MatchInv(sys) && Step(sys, next)
    ensures MatchInv(next)
  {
    var a :| Enabled(sys, a) && InBounds(sys, a) && next == After(sys, a);
    StepKeepsMatch(sys, a);
  }

  lemma {:induction false} RunKeepsMatch(run: seq<System>, i: nat)
    requires Run(run) && i < |run|
    ensures MatchInv(run[i])
  {
    if i > 0 {
      RunKeepsMatch(run, i - 1);
      RunKeeps(run, i - 1);
      assert StepAt(run, i - 1);
      NextKeepsMatch(run[i - 1], run[i]);
    }
  }

  // ---------- the theorem ----------

  /** Above the leader's commit index and up to matchIndex[p], peer p holds the leader's entries,
      although snapshot replies set matchIndex before anything is installed and late replies may
      lower it.  The one exception is a peer that has gone on to a later term whose leader lacked
      the entry; a peer still in the leader's term always holds it. */
  lemma MatchIndexTruthful(run: seq<System>, n: nat, v: nat, p: nat, i: nat)
    requires Run(run) && n < |run| && v < |run[n].hosts| && run[n].hosts[v].node.role == Leader
    requires p < |run[n].hosts[v].node.matchIndex|
             && run[n].hosts[v].node.commit < i <= run[n].hosts[v].node.matchIndex[p]
    ensures var h, s, t := run[n].h, run[n].hosts[v].node, run[n].hosts[v].node.term;
            && p < |run[n].hosts| && i < |s.log| && t in h.leaderLog && s.log == h.leaderLog[t]
            && t <= run[n].hosts[p].node.term
            && (|| s.log[..i + 1] <= run[n].hosts[p].node.log
                || (run[n].hosts[p].node.term > t && Escapes(h, t, i, run[n].hosts[p].node.term)))
  {
    RunKeeps(run, n);
    RunKeepsMatch(run, n);
    var sys := run[n];
    var s := sys.hosts[v].node;
    var m := s.matchIndex[p];
    assert NodeAt(sys, v) && ServerOk(CoreOf(sys), v) && PeerVouched(sys, v, p);
    if AckedTo(sys.h, p, s.term, m) {
      assert AckOk(CoreOf(sys), p, s.term) && AckHeld(CoreOf(sys), p, s.term, i);
    } else {
      PrefixTransitive(s.log[..i + 1], s.log[..m + 1], sys.hosts[p].node.log);
    }
  }

  /** A peer still in the leader's term holds the leader's whole log up to a match index that is
      above the commit index. */
  lemma MatchIndexInTerm(run: seq<System>, n: nat, v: nat, p: nat)
    requires Run(run) && n < |run| && v < |run[n].hosts| && run[n].hosts[v].node.role == Leader
    requires p < |run[n].hosts| && p < |run[n].hosts[v].node.matchIndex|
    requires run[n].hosts[v].node.matchIndex[p] > run[n].hosts[v].node.commit
    requires run[n].hosts[p].node.term == run[n].hosts[v].node.term
    ensures var s := run[n].hosts[v].node;
            s.matchIndex[p] < |s.log| && s.log[..s.matchIndex[p] + 1] <= run[n].hosts[p].node.log
  {
    MatchIndexTruthful(run, n, v, p, run[n].hosts[v].node.matchIndex[p]);
  }
}
