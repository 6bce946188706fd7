/** Every transition of the core keeps the core invariant. */
module RaftCoreSteps {
  import opened Prelude
  import opened RaftLog
  import opened RaftCore
  import opened RaftCoreFacts

  lemma InvGivesCompleteness(c: Core)
    requires Inv(c)
    ensures Completeness(c)
  {
  }

  lemma InitialInv(c: Core)
    requires Initial(c)
    ensures Inv(c)
  {
    forall v: nat ensures ServerOk(c, v) {
      if v < |c.servers| {
        assert c.servers[v].log[..1] == [DUMMY];
      }
    }
    forall t: nat, j: nat, u: nat ensures CompleteAt(c, t, j, u) {
    }
  }

  // ---------- steps that change one server and no history ----------

  ghost predicate OneServer(c: Core, d: Core, v: nat) {
    && v < |c.servers| && |d.servers| == |c.servers| && d.h == c.h
    && c.servers[v].term <= d.servers[v].term
    && forall w :: 0 <= w < |c.servers| && w != v ==> d.servers[w] == c.servers[w]
  }

  lemma OneServerKeeps(c: Core, d: Core, v: nat)
    requires Inv(c) && OneServer(c, d, v) && ServerOk(d, v) && CandidateOk(d, v)
    requires forall t: nat, j: nat :: AckHeld(d, v, t, j)
    ensures Inv(d)
  {
    forall w: nat, t: nat ensures BallotOk(d, w, t) { assert BallotOk(c, w, t); }
    forall w: nat, t: nat ensures CampaignOk(d, w, t) { assert CampaignOk(c, w, t); }
    forall w: nat, t: nat ensures AckOk(d, w, t) { assert AckOk(c, w, t); }
    forall w: nat ensures ServerOk(d, w) && CandidateOk(d, w) { assert ServerOk(c, w) && CandidateOk(c, w); }
    forall w: nat, t: nat, j: nat ensures AckHeld(d, w, t, j) { assert AckHeld(c, w, t, j); }
    forall t: nat, j: nat, u: nat ensures CompleteAt(d, t, j, u) {
      if Choosable(d, t, j) { ChoosableShrinks(c, d, t, j); }
      assert CompleteAt(c, t, j, u);
    }
  }

  /** Raising terms only takes servers out of the running for old entries. */
  lemma ChoosableShrinks(c: Core, d: Core, t: nat, j: nat)
    requires |c.servers| == |d.servers| && Choosable(d, t, j)
    requires OwnEntry(c.h, t, j) && c.h.size == d.h.size
    requires forall v: nat :: MayAck(d, v, t, j) ==> MayAck(c, v, t, j)
    ensures Choosable(c, t, j)
  {
    var q :| Quorum(d.h.size, q) && AllMayAck(d, q, t, j);
    forall v | v in q ensures MayAck(c, v, t, j) { assert MayAck(d, v, t, j); }
    assert AllMayAck(c, q, t, j);
  }

  lemma RaiseKeeps(c: Core, v: nat, t: nat)
    requires Inv(c) && v < |c.servers| && c.servers[v].term <= t
    ensures Inv(Raise(c, v, t))
  {
    var d := Raise(c, v, t);
    assert ServerOk(c, v);
    SafeBoundGrows(c.h, c.servers[v].log[..c.servers[v].commit + 1], c.servers[v].term, t);
    AcceptableGrows(c.h, c.h, c.servers[v].log, c.servers[v].commit, c.servers[v].term, t);
    forall u: nat, j: nat ensures AckHeld(d, v, u, j) {
      assert AckHeld(c, v, u, j);
      if u in c.h.leaderLog && j < |c.h.leaderLog[u]| && Escapes(c.h, u, j, c.servers[v].term) {
        EscapesGrowsBound(c.h, u, j, c.servers[v].term, t);
      }
    }
    OneServerKeeps(c, d, v);
  }

  lemma CommitKeeps(c: Core, v: nat, k: nat)
    requires Inv(c) && CanCommit(c, v, k)
    ensures Inv(Commit(c, v, k))
  {
    var d := Commit(c, v, k);
    var s := c.servers[v];
    assert ServerOk(c, v) && CandidateOk(c, v);
    if s.log[..k + 1] <= (if (v, s.term) in c.h.campaigns then c.h.campaigns[(v, s.term)].log else s.log) {
      PrefixTransitive(s.log[..s.commit + 1], s.log[..k + 1],
                       if (v, s.term) in c.h.campaigns then c.h.campaigns[(v, s.term)].log else s.log);
    }
    forall u: nat, j: nat ensures AckHeld(d, v, u, j) { assert AckHeld(c, v, u, j); }
    OneServerKeeps(c, d, v);
  }

  lemma CrashKeeps(c: Core, v: nat, k: nat)
    requires Inv(c) && CanCrash(c, v, k)
    ensures Inv(Crash(c, v, k))
  {
    var d := Crash(c, v, k);
    assert ServerOk(c, v);
    SafePrefix(c.h, c.servers[v].log[..k + 1], c.servers[v].log[..c.servers[v].commit + 1], c.servers[v].term);
    forall u: nat, j: nat ensures AckHeld(d, v, u, j) { assert AckHeld(c, v, u, j); }
    OneServerKeeps(c, d, v);
  }

  // ---------- installing a snapshot without comparing terms ----------

  /** A sound log with an entry above the committed prefix p that is not outdated contains p;
      so whatever a log lacking p keeps above it is outdated. */
  lemma CurrentEntryImpliesPrefix(c: Core, log: Log, p: Log, t: nat, j: nat, i: nat)
    requires Inv(c) && Sound(c.h, log) && |p| <= i < |log|
    requires SafeBy(c.h, p, t, t, j) && !Outdated(c.h, log, i, t, j)
    ensures p <= log
  {
    InvGivesCompleteness(c);
    var u: nat := log[i].term;
    assert Backed(c.h, log, i) && LeaderLogOk(c.h, u) && LeaderLogOk(c.h, t);
    if u >= t {
      SafeInLater(c, p, t, u);
      PrefixesCompare(p, log[..i + 1], c.h.leaderLog[u]);
    } else {
      SoundLogsMatch(c.h, log, c.h.leaderLog[t], i);
      PrefixesCompare(p, log[..i + 1], c.h.leaderLog[t]);
    }
    PrefixTransitive(p, log[..i + 1], log);
  }

  /** A stale log never contains a longer committed prefix, and stays stale above it. */
  lemma LeftoverOfStale(c: Core, log: Log, k: nat, p: Log, bound: nat)
    requires Inv(c) && Stale(c.h, log, k, bound) && Safe(c.h, p, bound) && |p| - 1 > k
    ensures !(p <= log)
    ensures |p| <= |log| ==> Stale(c.h, Installed(log, p), |p| - 1, bound)
  {
    InvGivesCompleteness(c);
    var t: nat, j: nat :| t <= bound && StaleBy(c.h, log, k, t, j);
    var u: nat, l: nat :| SafeBy(c.h, p, bound, u, l);
    var w: nat, m: nat := if t <= u then u else t, if t <= u then l else j;
    CommittedIsChoosable(c, u, l);
    assert CompleteAt(c, u, l, t) && LeaderLogOk(c.h, t) && LeaderLogOk(c.h, w);
    if u < t {
      PrefixesCompare(p, c.h.leaderLog[u][..l + 1], c.h.leaderLog[u]);
      PrefixTransitive(p, c.h.leaderLog[u][..l + 1], c.h.leaderLog[t]);
      assert c.h.leaderLog[t][l] == c.h.leaderLog[u][..l + 1][l];
      assert l < j;
    }
    assert SafeBy(c.h, p, bound, w, m);
    if p <= log {
      assert p[k + 1] == log[k + 1] == c.h.leaderLog[w][k + 1];
      StaleDiverges(c, log, k, t, j, w, k + 1);
    }
    if |p| <= |log| {
      var rest := Installed(log, p);
      assert rest[..|p|] == p;
      forall i | |p| - 1 < i < |rest|
        ensures Outdated(c.h, rest, i, w, m)
      {
        assert rest[i] == log[i] && Outdated(c.h, log, i, t, j);
        if i <= m { StaleDiverges(c, log, k, t, j, w, i); }
      }
      assert w <= bound && StaleBy(c.h, rest, |p| - 1, w, m);
    }
  }

  lemma InstalledIndexed(log: Log, p: Log)
    requires Indexed(log) && Indexed(p)
    ensures Indexed(Installed(log, p))
  {
  }

  /** The log after an install is acceptable again, and unchanged if it held the snapshot. */
  lemma InstallAcceptable(c: Core, v: nat, p: Log)
    requires Inv(c) && CanInstall(c, v, p)
    ensures Acceptable(c.h, Installed(c.servers[v].log, p), |p| - 1, c.servers[v].term)
    ensures p <= c.servers[v].log ==> Installed(c.servers[v].log, p) == c.servers[v].log && Sound(c.h, c.servers[v].log)
    ensures Installed(c.servers[v].log, p)[..|p|] == p
  {
    var s := c.servers[v];
    var log := Installed(s.log, p);
    assert ServerOk(c, v);
    SafeIsSound(c.h, p, s.term);
    InstalledIndexed(s.log, p);
    assert log[..|p|] == p;
    if Sound(c.h, s.log) {
      if p <= s.log {
        assert log == s.log;
      } else if |p| <= |s.log| {
        var t: nat, j: nat :| SafeBy(c.h, p, s.term, t, j);
        assert SafeBy(c.h, p, t, t, j);
        forall i | |p| - 1 < i < |log|
          ensures Outdated(c.h, log, i, t, j)
        {
          if !Outdated(c.h, s.log, i, t, j) { CurrentEntryImpliesPrefix(c, s.log, p, t, j, i); }
        }
        assert t <= s.term && StaleBy(c.h, log, |p| - 1, t, j);
      }
    } else {
      LeftoverOfStale(c, s.log, s.commit, p, s.term);
    }
  }

  lemma InstallKeepsAck(c: Core, v: nat, p: Log, t: nat, j: nat)
    requires Inv(c) && CanInstall(c, v, p)
    ensures AckHeld(Install(c, v, p), v, t, j)
  {
    var s := c.servers[v];
    assert AckHeld(c, v, t, j) && AckOk(c, v, t);
    InvGivesCompleteness(c);
    if t in c.h.leaderLog && j < |c.h.leaderLog[t]| && AckedTo(c.h, v, t, j) && !Escapes(c.h, t, j, s.term) {
      var x := c.h.leaderLog[t][..j + 1];
      AckAgreesWithSafe(c, t, j, p, s.term);
      InstallAcceptable(c, v, p);
      var log := Installed(s.log, p);
      if !(p <= s.log) {
        if |p| <= j + 1 { PrefixTransitive(p, x, s.log); }
        assert x <= p;
        PrefixTransitive(x, p, log);
        if |p| < |s.log| {
          assert log[|log| - 1] == s.log[|s.log| - 1];
        } else {
          assert log == p;
          SafeIsSound(c.h, p, s.term);
          MonotoneHolds(log, c.h.leaderLog[t], j);
        }
      }
    }
  }

  lemma InstallKeeps(c: Core, v: nat, p: Log)
    requires Inv(c) && CanInstall(c, v, p)
    ensures Inv(Install(c, v, p))
  {
    var d := Install(c, v, p);
    var s := c.servers[v];
    assert ServerOk(c, v);
    InvGivesCompleteness(c);
    InstallAcceptable(c, v, p);
    SafeIsSound(c.h, p, s.term);
    if s.role == Leader {
      // a leader already holds everything committed up to its term
      SafeInLater(c, p, s.term, s.term);
    }
    assert CandidateOk(d, v) by {
      assert CandidateOk(c, v);
      if s.role == Candidate && s.term !in c.h.leaderLog && d.servers[v].log != s.log {
        var e := c.h.campaigns[(v, s.term)].log;
        SafesAgree(c, s.log[..s.commit + 1], s.term, p, s.term);
        if p <= e { PrefixTransitive(s.log[..s.commit + 1], p, e); }
      } else if s.role == Candidate && s.term !in c.h.leaderLog {
        var e := c.h.campaigns[(v, s.term)].log;
        if p <= e { PrefixTransitive(s.log[..s.commit + 1], s.log[..|p|], e); }
      }
    }
    forall t: nat, j: nat ensures AckHeld(d, v, t, j) { InstallKeepsAck(c, v, p, t, j); }
    OneServerKeeps(c, d, v);
  }

  // ---------- votes ----------

  lemma LastAtLeastCarries(e: Log, log: Log, t: nat, j: int)
    requires LastAtLeast(log, t, j) && UpToDate(LastTerm(e), |e| - 1, log)
    ensures LastAtLeast(e, t, j)
  {
  }

  lemma EscapesKept(h: History, g: History, t: nat, j: nat, b: nat, d: nat)
    requires t in h.leaderLog && j < |h.leaderLog[t]| && t in g.leaderLog && j < |g.leaderLog[t]|
    requires Escapes(h, t, j, b) && b <= d
    requires forall u: nat :: Lacks(h, t, j, u) ==> Lacks(g, t, j, u)
    ensures Escapes(g, t, j, d)
  {
    var u: nat :| Lacks(h, t, j, u) && u <= b;
    assert Lacks(g, t, j, u) && u <= d;
  }

  /** The part of the invariant that survives when only votes and campaigns are added. */
  lemma VotesKeep(c: Core, d: Core)
    requires Inv(c) && |d.servers| == |c.servers|
    requires d.h == c.h.(ballots := d.h.ballots, campaigns := d.h.campaigns)
    requires forall k :: k in c.h.ballots ==> k in d.h.ballots && d.h.ballots[k] == c.h.ballots[k]
    requires forall v :: 0 <= v < |c.servers| ==>
               d.servers[v].log == c.servers[v].log && d.servers[v].term >= c.servers[v].term
    ensures forall t: nat :: LeaderLogOk(d.h, t) && ElectedOk(d.h, t)
    ensures forall v: nat, t: nat :: AckOk(d, v, t)
    ensures forall v: nat, t: nat, j: nat :: AckHeld(d, v, t, j)
    ensures forall t: nat, j: nat, u: nat :: CompleteAt(d, t, j, u)
    ensures Grows(c.h, d.h)
  {
    forall t: nat ensures LeaderLogOk(d.h, t) && ElectedOk(d.h, t) {
      assert LeaderLogOk(c.h, t) && ElectedOk(c.h, t);
      if t in c.h.leaderLog {
        SoundGrows(c.h, d.h, c.h.leaderLog[t]);
        var q :| Quorum(c.h.size, q) && Backers(c.h, q, t, c.h.leaderOf[t]);
        assert Backers(d.h, q, t, d.h.leaderOf[t]);
      }
    }
    forall v: nat, t: nat ensures AckOk(d, v, t) { assert AckOk(c, v, t); }
    forall v: nat, t: nat, j: nat ensures AckHeld(d, v, t, j) {
      assert AckHeld(c, v, t, j);
      if v < |c.servers| && t in c.h.leaderLog && j < |c.h.leaderLog[t]| && Escapes(c.h, t, j, c.servers[v].term) {
        EscapesKept(c.h, d.h, t, j, c.servers[v].term, d.servers[v].term);
      }
    }
    forall t: nat, j: nat, u: nat ensures CompleteAt(d, t, j, u) {
      assert CompleteAt(c, t, j, u);
      if Choosable(d, t, j) {
        assert OwnEntry(c.h, t, j);
        forall v: nat | MayAck(d, v, t, j) ensures MayAck(c, v, t, j) {}
        ChoosableShrinks(c, d, t, j);
      }
    }
  }

  lemma VoteCheckedKept(h: History, g: History, v: nat, u: nat, t: nat, j: nat)
    requires VoteChecked(h, v, u, t, j) && h.leaderLog == g.leaderLog && h.acks == g.acks
    requires (v, u) in h.ballots && (v, u) in g.ballots && h.ballots[(v, u)] == g.ballots[(v, u)]
    requires (h.ballots[(v, u)], u) in h.campaigns && (h.ballots[(v, u)], u) in g.campaigns
    requires h.campaigns[(h.ballots[(v, u)], u)] == g.campaigns[(h.ballots[(v, u)], u)]
    ensures VoteChecked(g, v, u, t, j)
  {
    if t in h.leaderLog && j < |h.leaderLog[t]| && Escapes(h, t, j, u) { EscapesKept(h, g, t, j, u, u); }
  }

  lemma StartCampaignKeepsServers(c: Core, v: nat)
    requires Inv(c) && v < |c.servers| && Grows(c.h, StartCampaign(c, v).h)
    ensures forall w: nat :: ServerOk(StartCampaign(c, v), w) && CandidateOk(StartCampaign(c, v), w)
  {
    var d := StartCampaign(c, v);
    var u := c.servers[v].term + 1;
    assert ServerOk(c, v) && c.servers[v].log[..] == c.servers[v].log;
    forall w: nat ensures ServerOk(d, w) && CandidateOk(d, w) {
      assert ServerOk(c, w) && CandidateOk(c, w);
      if w < |c.servers| {
        var x := c.servers[w];
        AcceptableGrows(c.h, d.h, x.log, x.commit, x.term, d.servers[w].term);
        SafeGrows(c.h, d.h, x.log[..x.commit + 1], x.term);
        SafeBoundGrows(d.h, x.log[..x.commit + 1], x.term, d.servers[w].term);
      }
      if w == v && u in c.h.leaderLog { LeaderCampaigned(c, u); }
    }
  }

  /** The invariant of a campaign survives any growth of the histories. */
  lemma CampaignGrows(c: Core, d: Core, s: nat, t: nat)
    requires CampaignOk(c, s, t) && Grows(c.h, d.h) && |d.servers| == |c.servers|
    requires forall v :: 0 <= v < |c.servers| ==> d.servers[v].term >= c.servers[v].term
    requires (s, t) in c.h.campaigns && (s, t) in d.h.campaigns && c.h.campaigns[(s, t)] == d.h.campaigns[(s, t)]
    ensures CampaignOk(d, s, t)
  {
    var e := d.h.campaigns[(s, t)];
    AcceptableGrows(c.h, d.h, e.log, e.commit, t - 1, t - 1);
    SafeGrows(c.h, d.h, e.log[..e.commit + 1], t - 1);
  }

  lemma StartCampaignKeeps(c: Core, v: nat)
    requires Inv(c) && v < |c.servers|
    ensures Inv(StartCampaign(c, v))
  {
    var d := StartCampaign(c, v);
    var s := c.servers[v];
    var u := s.term + 1;
    assert BallotOk(c, v, u) && CampaignOk(c, v, u) && ServerOk(c, v);
    VotesKeep(c, d);
    StartCampaignKeepsServers(c, v);
    forall w: nat, t: nat ensures BallotOk(d, w, t) { assert BallotOk(c, w, t); }
    forall w: nat, t: nat ensures CampaignOk(d, w, t) {
      if (w, t) == (v, u) {
        AcceptableGrows(c.h, d.h, s.log, s.commit, s.term, s.term);
        SafeGrows(c.h, d.h, s.log[..s.commit + 1], s.term);
      } else if (w, t) in c.h.campaigns {
        assert CampaignOk(c, w, t);
        CampaignGrows(c, d, w, t);
      }
    }
    forall w: nat, b: nat, t: nat, j: nat ensures VoteChecked(d.h, w, b, t, j) {
      if (w, b) == (v, u) {
        assert AckHeld(d, v, t, j);
      } else if (w, b) in c.h.ballots {
        assert VoteChecked(c.h, w, b, t, j) && BallotOk(c, w, b);
        VoteCheckedKept(c.h, d.h, w, b, t, j);
      }
    }
  }

  /** Nobody leads a term it has not campaigned in. */
  lemma LeaderCampaigned(c: Core, u: nat)
    requires Inv(c) && u in c.h.leaderLog
    ensures u in c.h.leaderOf && c.h.leaderOf[u] < |c.servers| && u <= c.servers[c.h.leaderOf[u]].term
  {
    assert ElectedOk(c.h, u);
    var q :| Quorum(c.h.size, q) && Backers(c.h, q, u, c.h.leaderOf[u]);
    assert |q| > 0;
    var w :| w in q;
    assert BallotOk(c, w, u) && CampaignOk(c, c.h.leaderOf[u], u);
  }

  lemma GrantKeeps(c: Core, v: nat, s: nat)
    requires Inv(c) && CanGrant(c, v, s)
    ensures Inv(Grant(c, v, s))
  {
    var d := Grant(c, v, s);
    var u := c.servers[v].term;
    VotesKeep(c, d);
    assert CampaignOk(c, s, u);
    forall w: nat, t: nat ensures BallotOk(d, w, t) { assert BallotOk(c, w, t); }
    forall w: nat, t: nat ensures CampaignOk(d, w, t) {
      assert CampaignOk(c, w, t);
      if (w, t) in c.h.campaigns { CampaignGrows(c, d, w, t); }
    }
    forall w: nat ensures ServerOk(d, w) && CandidateOk(d, w) {
      assert ServerOk(c, w) && CandidateOk(c, w);
      if w < |c.servers| {
        var x := c.servers[w];
        AcceptableGrows(c.h, d.h, x.log, x.commit, x.term, x.term);
        SafeGrows(c.h, d.h, x.log[..x.commit + 1], x.term);
      }
    }
    forall w: nat, b: nat, t: nat, j: nat ensures VoteChecked(d.h, w, b, t, j) {
      if (w, b) == (v, u) {
        assert AckHeld(d, v, t, j);
        if t in c.h.leaderLog && j < |c.h.leaderLog[t]| && LastAtLeast(c.servers[v].log, c.h.leaderLog[t][j].term, j) {
          LastAtLeastCarries(c.h.campaigns[(s, u)].log, c.servers[v].log, c.h.leaderLog[t][j].term, j);
        }
      } else if (w, b) in c.h.ballots {
        assert VoteChecked(c.h, w, b, t, j) && BallotOk(c, w, b);
        VoteCheckedKept(c.h, d.h, w, b, t, j);
      }
    }
  }

  // ---------- winning an election ----------

  /** Election safety: a quorum of votes in a term that already has a leader is that leader's. */
  lemma OneLeader(c: Core, t: nat, s: nat, q: set<nat>)
    requires Inv(c) && t in c.h.leaderLog && Quorum(c.h.size, q) && Backers(c.h, q, t, s)
    ensures t in c.h.leaderOf && c.h.leaderOf[t] == s
  {
    assert ElectedOk(c.h, t);
    var p :| Quorum(c.h.size, p) && Backers(c.h, p, t, c.h.leaderOf[t]);
    var v := QuorumsMeet(c.h.size, p, q);
  }

  /** The winner's campaign log is at least as recent as anything choosable in an earlier term. */
  lemma WinnerIsRecent(c: Core, s: nat, q: set<nat>, t: nat, j: nat)
    requires Inv(c) && CanWin(c, s, q) && t < c.servers[s].term && Choosable(c, t, j)
    ensures (s, c.servers[s].term) in c.h.campaigns
    ensures LastAtLeast(c.h.campaigns[(s, c.servers[s].term)].log, t, j)
  {
    var u := c.servers[s].term;
    assert ServerOk(c, s);
    var p :| Quorum(c.h.size, p) && AllMayAck(c, p, t, j);
    var v := QuorumsMeet(c.h.size, p, q);
    assert MayAck(c, v, t, j) && BallotOk(c, v, u);
    assert VoteChecked(c.h, v, u, t, j);
    forall w: nat ensures !Lacks(c.h, t, j, w) { assert CompleteAt(c, t, j, w); }
  }

  /** A recent enough sound log contains the choosable entry's whole prefix. */
  lemma RecentContains(c: Core, log: Log, t: nat, j: nat)
    requires Inv(c) && Sound(c.h, log) && Choosable(c, t, j) && LastAtLeast(log, t, j)
    ensures c.h.leaderLog[t][..j + 1] <= log
  {
    var x := c.h.leaderLog[t][..j + 1];
    var u: nat := LastTerm(log);
    var i := |log| - 1;
    assert LeaderLogOk(c.h, t) && t >= 1;
    assert i >= 1;
    assert Backed(c.h, log, i) && log[..i + 1] == log;
    var lead := c.h.leaderLog[u];
    if u > t {
      assert CompleteAt(c, t, j, u) && LeaderLogOk(c.h, u);
      assert lead[i] == log[i] && lead[j] == x[j];
      assert forall k :: i <= k < |lead| ==> lead[i].term <= lead[k].term;
    }
    PrefixesCompare(x, log, lead);
  }

  lemma WinnerContains(c: Core, s: nat, q: set<nat>)
    requires Inv(c) && CanWin(c, s, q)
    ensures var u := c.servers[s].term;
            && u !in c.h.leaderLog && Sound(c.h, c.servers[s].log)
            && forall t: nat, j: nat :: t < u && Choosable(c, t, j) ==> c.h.leaderLog[t][..j + 1] <= c.servers[s].log
  {
    var x := c.servers[s];
    var u := x.term;
    assert ServerOk(c, s) && CandidateOk(c, s) && CampaignOk(c, s, u);
    if u in c.h.leaderLog { OneLeader(c, u, s, q); }
    var e := c.h.campaigns[(s, u)];
    if !Sound(c.h, e.log) {
      var t: nat, j: nat :| t <= u - 1 && StaleBy(c.h, e.log, e.commit, t, j);
      assert e.commit < |e.log| - 1 by { StaleIsLonger(c, e.log, e.commit, t, j); }
      assert Outdated(c.h, e.log, |e.log| - 1, t, j);
      CommittedIsChoosable(c, t, j);
      WinnerIsRecent(c, s, q, t, j);
    }
    forall t: nat, j: nat | t < u && Choosable(c, t, j)
      ensures c.h.leaderLog[t][..j + 1] <= e.log
    {
      WinnerIsRecent(c, s, q, t, j);
      RecentContains(c, e.log, t, j);
    }
    // whatever the winner knows committed was already in its campaign log
    var p := x.log[..x.commit + 1];
    if p != [DUMMY] {
      var t: nat, j: nat :| SafeBy(c.h, p, u, t, j);
      CommittedIsChoosable(c, t, j);
      PrefixesCompare(p, c.h.leaderLog[t][..j + 1], c.h.leaderLog[t]);
      PrefixTransitive(p, c.h.leaderLog[t][..j + 1], e.log);
    }
    assert p <= e.log;
  }

  lemma StaleIsLonger(c: Core, log: Log, k: nat, t: nat, j: nat)
    requires Inv(c) && StaleBy(c.h, log, k, t, j) && !Sound(c.h, log)
    ensures k < |log| - 1
  {
    if k == |log| - 1 {
      assert log[..k + 1] == log && LeaderLogOk(c.h, t);
      SoundPrefix(c.h, c.h.leaderLog[t], log);
    }
  }

  lemma WinKeepsHistory(c: Core, s: nat, q: set<nat>)
    requires Inv(c) && CanWin(c, s, q)
    ensures Grows(c.h, Win(c, s).h) && HistoryInv(Win(c, s).h) && RecordInv(Win(c, s))
  {
    var d := Win(c, s);
    var u := c.servers[s].term;
    WinnerContains(c, s, q);
    assert ServerOk(c, s);
    SoundIsMonotone(c.h, c.servers[s].log);
    forall t: nat ensures LeaderLogOk(d.h, t) && ElectedOk(d.h, t) {
      assert LeaderLogOk(c.h, t) && ElectedOk(c.h, t);
      if t in d.h.leaderLog {
        SoundGrows(c.h, d.h, d.h.leaderLog[t]);
        if t == u {
          assert CampaignOk(c, s, u) && Backers(d.h, q, u, s);
        } else {
          var p :| Quorum(c.h.size, p) && Backers(c.h, p, t, c.h.leaderOf[t]);
          assert Backers(d.h, p, t, d.h.leaderOf[t]);
        }
      }
    }
    forall v: nat, t: nat ensures BallotOk(d, v, t) { assert BallotOk(c, v, t); }
    forall v: nat, t: nat ensures AckOk(d, v, t) { assert AckOk(c, v, t); }
    forall w: nat, t: nat ensures CampaignOk(d, w, t) {
      assert CampaignOk(c, w, t);
      if (w, t) in c.h.campaigns { CampaignGrows(c, d, w, t); }
    }
    forall v: nat, b: nat, t: nat, j: nat ensures VoteChecked(d.h, v, b, t, j) {
      assert VoteChecked(c.h, v, b, t, j) && AckOk(c, v, t);
      if t in c.h.leaderLog && j < |c.h.leaderLog[t]| && Escapes(c.h, t, j, b) { EscapesKept(c.h, d.h, t, j, b, b); }
    }
  }

  lemma WinKeeps(c: Core, s: nat, q: set<nat>)
    requires Inv(c) && CanWin(c, s, q)
    ensures Inv(Win(c, s))
  {
    var d := Win(c, s);
    var u := c.servers[s].term;
    WinnerContains(c, s, q);
    WinKeepsHistory(c, s, q);
    forall v: nat ensures ServerOk(d, v) && CandidateOk(d, v) {
      assert ServerOk(c, v) && CandidateOk(c, v);
      if v < |c.servers| {
        var x := c.servers[v];
        AcceptableGrows(c.h, d.h, x.log, x.commit, x.term, x.term);
        SafeGrows(c.h, d.h, x.log[..x.commit + 1], x.term);
      }
    }
    forall v: nat, t: nat, j: nat ensures AckHeld(d, v, t, j) {
      assert AckHeld(c, v, t, j) && AckOk(c, v, t);
      if v < |c.servers| && t in c.h.leaderLog && j < |c.h.leaderLog[t]| && Escapes(c.h, t, j, c.servers[v].term) {
        EscapesKept(c.h, d.h, t, j, c.servers[v].term, c.servers[v].term);
      }
    }
    // in term u itself the winner has no entry of its own yet
    var log := c.servers[s].log;
    forall i | 1 <= i < |log| ensures log[i].term in c.h.leaderLog { assert Backed(c.h, log, i); }
    forall t: nat, j: nat, w: nat ensures CompleteAt(d, t, j, w) {
      if w in d.h.leaderLog && t < w && Choosable(d, t, j) {
        assert t != u && OwnEntry(c.h, t, j);
        forall v: nat | MayAck(d, v, t, j) ensures MayAck(c, v, t, j) {}
        ChoosableShrinks(c, d, t, j);
        if w != u { assert CompleteAt(c, t, j, w); }
      }
    }
  }

  // ---------- the leader appends ----------

  /** A longer leader log of term t still lacks what it lacked: the new entry is of term t. */
  lemma AppendKeepsLacks(c: Core, s: nat, e: Entry, t: nat, j: nat, u: nat)
    requires Inv(c) && CanAppend(c, s, e)
    requires t in c.h.leaderLog && j < |c.h.leaderLog[t]| && Lacks(c.h, t, j, u)
    ensures t in Append(c, s, e).h.leaderLog && j < |Append(c, s, e).h.leaderLog[t]|
    ensures Lacks(Append(c, s, e).h, t, j, u)
  {
    assert ServerOk(c, s) && LeaderLogOk(c.h, t);
    var d := Append(c, s, e);
    var x := c.h.leaderLog[t][..j + 1];
    assert d.h.leaderLog[t][..j + 1] == x;
    if u == c.servers[s].term {
      assert x[j].term <= t < e.term;
      if |x| <= |c.h.leaderLog[u]| {
        assert d.h.leaderLog[u][..|x|] == c.h.leaderLog[u][..|x|];
      } else {
        assert |x| == |d.h.leaderLog[u]| ==> d.h.leaderLog[u][j] == e;
      }
    }
  }

  lemma AppendKeepsEscapes(c: Core, s: nat, e: Entry, t: nat, j: nat, b: nat)
    requires Inv(c) && CanAppend(c, s, e)
    requires t in c.h.leaderLog && j < |c.h.leaderLog[t]| && Escapes(c.h, t, j, b)
    ensures t in Append(c, s, e).h.leaderLog && j < |Append(c, s, e).h.leaderLog[t]|
    ensures Escapes(Append(c, s, e).h, t, j, b)
  {
    var u: nat :| Lacks(c.h, t, j, u) && u <= b;
    AppendKeepsLacks(c, s, e, t, j, u);
  }

  lemma AppendGrows(c: Core, s: nat, e: Entry)
    requires Inv(c) && CanAppend(c, s, e)
    ensures Grows(c.h, Append(c, s, e).h)
    ensures LeaderLogOk(Append(c, s, e).h, c.servers[s].term)
  {
    assert ServerOk(c, s);
    var d := Append(c, s, e);
    var t := c.servers[s].term;
    var log := d.h.leaderLog[t];
    assert AckOk(c, s, t) && LeaderLogOk(c.h, t);
    SoundGrows(c.h, d.h, c.h.leaderLog[t]);
    forall i | 1 <= i < |log| ensures Backed(d.h, log, i) {
      if i < |log| - 1 {
        assert Backed(d.h, c.h.leaderLog[t], i) && log[..i + 1] == c.h.leaderLog[t][..i + 1];
      } else {
        assert log[..i + 1] == log;
      }
    }
  }

  lemma AppendKeepsHistory(c: Core, s: nat, e: Entry)
    requires Inv(c) && CanAppend(c, s, e)
    ensures HistoryInv(Append(c, s, e).h) && RecordInv(Append(c, s, e))
  {
    var d := Append(c, s, e);
    var u := c.servers[s].term;
    assert ServerOk(c, s);
    AppendGrows(c, s, e);
    forall t: nat ensures LeaderLogOk(d.h, t) && ElectedOk(d.h, t) {
      assert LeaderLogOk(c.h, t) && ElectedOk(c.h, t);
      if t in c.h.leaderLog {
        if t != u { SoundGrows(c.h, d.h, c.h.leaderLog[t]); }
        var p :| Quorum(c.h.size, p) && Backers(c.h, p, t, c.h.leaderOf[t]);
        assert Backers(d.h, p, t, d.h.leaderOf[t]);
      }
    }
    forall v: nat, t: nat ensures BallotOk(d, v, t) { assert BallotOk(c, v, t); }
    forall v: nat, t: nat ensures AckOk(d, v, t) { assert AckOk(c, v, t); }
    forall w: nat, t: nat ensures CampaignOk(d, w, t) {
      assert CampaignOk(c, w, t);
      if (w, t) in c.h.campaigns { CampaignGrows(c, d, w, t); }
    }
    forall v: nat, b: nat, t: nat, j: nat ensures VoteChecked(d.h, v, b, t, j) {
      assert VoteChecked(c.h, v, b, t, j) && AckOk(c, v, t) && BallotOk(c, v, b);
      if t in c.h.leaderLog && j < |c.h.leaderLog[t]| && Escapes(c.h, t, j, b) { AppendKeepsEscapes(c, s, e, t, j, b); }
    }
  }

  lemma AppendKeepsAck(c: Core, s: nat, e: Entry, v: nat, t: nat, j: nat)
    requires Inv(c) && CanAppend(c, s, e)
    ensures AckHeld(Append(c, s, e), v, t, j)
  {
    var d := Append(c, s, e);
    var u := c.servers[s].term;
    assert ServerOk(c, s) && AckHeld(c, v, t, j) && AckOk(c, v, t);
    AppendGrows(c, s, e);
    if v < |c.servers| && t in c.h.leaderLog {
      if v == s && t == u {
        if j < |d.h.leaderLog[u]| { MonotoneHolds(d.servers[s].log, d.h.leaderLog[u], j); }
      } else if j < |c.h.leaderLog[t]| {
        assert d.h.leaderLog[t][..j + 1] == c.h.leaderLog[t][..j + 1];
        if Escapes(c.h, t, j, c.servers[v].term) {
          AppendKeepsEscapes(c, s, e, t, j, c.servers[v].term);
        } else if v == s && c.h.leaderLog[t][..j + 1] <= c.servers[s].log {
          PrefixTransitive(c.h.leaderLog[t][..j + 1], c.servers[s].log, d.servers[s].log);
          MonotoneHolds(d.servers[s].log, d.h.leaderLog[t], j);
        }
      }
    }
  }

  /** Nothing beyond the old leader log was acknowledged by a voter of a later term. */
  lemma AppendKeepsComplete(c: Core, s: nat, e: Entry, t: nat, j: nat, w: nat)
    requires Inv(c) && CanAppend(c, s, e)
    ensures CompleteAt(Append(c, s, e), t, j, w)
  {
    var d := Append(c, s, e);
    var u := c.servers[s].term;
    assert ServerOk(c, s) && CompleteAt(c, t, j, w);
    if w in d.h.leaderLog && t < w && Choosable(d, t, j) {
      var q :| Quorum(d.h.size, q) && AllMayAck(d, q, t, j);
      assert ElectedOk(c.h, w);
      var p :| Quorum(c.h.size, p) && Backers(c.h, p, w, c.h.leaderOf[w]);
      var v := QuorumsMeet(c.h.size, p, q);
      assert MayAck(d, v, t, j) && BallotOk(c, v, w) && AckOk(c, v, t);
      assert j < |c.h.leaderLog[t]|;
      assert OwnEntry(c.h, t, j);
      forall x: nat | MayAck(d, x, t, j) ensures MayAck(c, x, t, j) {}
      ChoosableShrinks(c, d, t, j);
      var x := c.h.leaderLog[t][..j + 1];
      assert d.h.leaderLog[t][..j + 1] == x;
      PrefixTransitive(x, c.h.leaderLog[w], d.h.leaderLog[w]);
    }
  }

  lemma AppendKeepsServer(c: Core, s: nat, e: Entry, v: nat)
    requires Inv(c) && CanAppend(c, s, e)
    ensures ServerOk(Append(c, s, e), v) && CandidateOk(Append(c, s, e), v)
  {
    var d := Append(c, s, e);
    AppendGrows(c, s, e);
    assert ServerOk(c, v) && CandidateOk(c, v) && ServerOk(c, s);
    if v < |c.servers| {
      var x := c.servers[v];
      SafeGrows(c.h, d.h, x.log[..x.commit + 1], x.term);
      if v == s {
        assert d.servers[s].log[..x.commit + 1] == x.log[..x.commit + 1];
      } else {
        AcceptableGrows(c.h, d.h, x.log, x.commit, x.term, x.term);
      }
    }
  }

  lemma AppendKeeps(c: Core, s: nat, e: Entry)
    requires Inv(c) && CanAppend(c, s, e)
    ensures Inv(Append(c, s, e))
  {
    var d := Append(c, s, e);
    AppendKeepsHistory(c, s, e);
    forall v: nat ensures ServerOk(d, v) && CandidateOk(d, v) { AppendKeepsServer(c, s, e, v); }
    forall v: nat, t: nat, j: nat ensures AckHeld(d, v, t, j) { AppendKeepsAck(c, s, e, v, t, j); }
    forall t: nat, j: nat, w: nat ensures CompleteAt(d, t, j, w) { AppendKeepsComplete(c, s, e, t, j, w); }
  }

  // ---------- a follower accepts ----------

  lemma AcceptGrows(c: Core, v: nat, m: nat)
    requires Inv(c) && CanAccept(c, v, m)
    ensures Grows(c.h, Accept(c, v, m).h)
    ensures HistoryInv(Accept(c, v, m).h) && RecordInv(Accept(c, v, m))
  {
    var d := Accept(c, v, m);
    forall t: nat ensures LeaderLogOk(d.h, t) && ElectedOk(d.h, t) {
      assert LeaderLogOk(c.h, t) && ElectedOk(c.h, t);
      if t in c.h.leaderLog {
        SoundGrows(c.h, d.h, c.h.leaderLog[t]);
        var p :| Quorum(c.h.size, p) && Backers(c.h, p, t, c.h.leaderOf[t]);
        assert Backers(d.h, p, t, d.h.leaderOf[t]);
      }
    }
    forall w: nat, t: nat ensures BallotOk(d, w, t) { assert BallotOk(c, w, t); }
    forall w: nat, t: nat ensures AckOk(d, w, t) { assert AckOk(c, w, t); }
    forall w: nat, t: nat ensures CampaignOk(d, w, t) {
      assert CampaignOk(c, w, t);
      if (w, t) in c.h.campaigns { CampaignGrows(c, d, w, t); }
    }
    forall w: nat, b: nat, t: nat, j: nat ensures VoteChecked(d.h, w, b, t, j) {
      assert VoteChecked(c.h, w, b, t, j) && BallotOk(c, w, b);
      if t in c.h.leaderLog && j < |c.h.leaderLog[t]| && Escapes(c.h, t, j, b) { EscapesKept(c.h, d.h, t, j, b, b); }
    }
  }

  /** Accepting never drops an entry the follower had committed. */
  lemma AcceptKeepsCommitted(c: Core, v: nat, m: nat)
    requires Inv(c) && CanAccept(c, v, m)
    ensures var s := c.servers[v];
            var log := Merged(s.log, c.h.leaderLog[s.term][..m]);
            s.commit < |s.log| && s.commit < |log| && log[..s.commit + 1] == s.log[..s.commit + 1]
  {
    var s := c.servers[v];
    var lead := c.h.leaderLog[s.term];
    assert ServerOk(c, v);
    InvGivesCompleteness(c);
    var p := s.log[..s.commit + 1];
    SafeInLater(c, p, s.term, s.term);
    if m <= |p| {
      PrefixesCompare(lead[..m], p, lead);
      PrefixTransitive(lead[..m], p, s.log);
    } else {
      PrefixesCompare(p, lead[..m], lead);
    }
  }

  lemma AcceptKeepsAck(c: Core, v: nat, m: nat, t: nat, j: nat)
    requires Inv(c) && CanAccept(c, v, m)
    ensures AckHeld(Accept(c, v, m), v, t, j)
  {
    var d := Accept(c, v, m);
    var s := c.servers[v];
    var lead := c.h.leaderLog[s.term];
    var log := d.servers[v].log;
    assert ServerOk(c, v) && AckHeld(c, v, t, j) && AckOk(c, v, t) && AckOk(d, v, t) && LeaderLogOk(c.h, s.term);
    if Sound(c.h, s.log) { SoundIsMonotone(c.h, s.log); }
    if t in c.h.leaderLog && j < |c.h.leaderLog[t]| && AckedTo(d.h, v, t, j) && !Escapes(d.h, t, j, s.term) {
      var x := c.h.leaderLog[t][..j + 1];
      if Escapes(c.h, t, j, s.term) { EscapesKept(c.h, d.h, t, j, s.term, s.term); }
      if t == s.term {
        if j < m { PrefixesCompare(x, lead[..m], lead); PrefixTransitive(x, lead[..m], log); }
        else { PrefixesCompare(lead[..m], x, lead); PrefixTransitive(lead[..m], x, s.log); }
      } else {
        assert !Lacks(d.h, t, j, s.term) && LeaderLogOk(c.h, t);
        assert x[j] == lead[j];
        PrefixesCompare(x, lead[..m], lead);
        PrefixTransitive(x, lead[..m], log);
      }
      MonotoneHolds(log, c.h.leaderLog[t], j);
    }
  }

  lemma AcceptKeeps(c: Core, v: nat, m: nat)
    requires Inv(c) && CanAccept(c, v, m)
    ensures Inv(Accept(c, v, m))
  {
    var d := Accept(c, v, m);
    AcceptGrows(c, v, m);
    AcceptKeepsCommitted(c, v, m);
    forall w: nat ensures ServerOk(d, w) && CandidateOk(d, w) {
      assert ServerOk(c, w) && CandidateOk(c, w);
      if w < |c.servers| {
        var x := c.servers[w];
        SafeGrows(c.h, d.h, x.log[..x.commit + 1], x.term);
        if w == v && d.servers[v].log != x.log {
          assert LeaderLogOk(d.h, x.term);
          SoundPrefix(d.h, d.h.leaderLog[x.term], d.servers[v].log);
        } else {
          AcceptableGrows(c.h, d.h, x.log, x.commit, x.term, x.term);
        }
      }
    }
    forall w: nat, t: nat, j: nat ensures AckHeld(d, w, t, j) {
      if w == v {
        AcceptKeepsAck(c, v, m, t, j);
      } else {
        assert AckHeld(c, w, t, j);
        if w < |c.servers| && t in c.h.leaderLog && j < |c.h.leaderLog[t]| && Escapes(c.h, t, j, c.servers[w].term) {
          EscapesKept(c.h, d.h, t, j, c.servers[w].term, c.servers[w].term);
        }
      }
    }
    forall t: nat, j: nat, u: nat ensures CompleteAt(d, t, j, u) {
      assert CompleteAt(c, t, j, u);
      if Choosable(d, t, j) {
        assert OwnEntry(c.h, t, j);
        forall w: nat | MayAck(d, w, t, j) ensures MayAck(c, w, t, j) {}
        ChoosableShrinks(c, d, t, j);
      }
    }
  }
}
