/** Runs of five servers in which elections are won, entries are committed, and the two things that
    are not promised do happen: an unchecked snapshot install breaks log matching, and a leader that
    has been replaced overestimates a peer. */
module RaftWitness {
  import opened Prelude
  import opened RaftLog
  import opened KvTypes
  import opened RaftNode
  import opened RaftCore
  import opened RaftSystem
  import opened RaftSafety

  function Last(run: seq<System>): System
    requires run != []
  {
    run[|run| - 1]
  }

  /** A run grows by any enabled action. */
  lemma Extend(run: seq<System>, a: Action) returns (more: seq<System>)
    requires Run(run) && Enabled(Last(run), a)
    ensures Run(more) && InBounds(Last(run), a) && Last(more) == After(Last(run), a)
  {
    NeverOutOfBounds(run, |run| - 1, a);
    more := run + [After(Last(run), a)];
    forall i: nat ensures StepAt(more, i) {
      if i + 1 < |run| {
        assert StepAt(run, i);
      } else if i + 1 == |run| {
        assert more[i] == Last(run) && more[i + 1] == After(Last(run), a);
      }
    }
  }

  ghost predicate NetGrows(a: Network, b: Network) {
    && a.voteRequests <= b.voteRequests && a.voteReplies <= b.voteReplies
    && a.appendRequests <= b.appendRequests && a.appendReplies <= b.appendReplies
    && a.snapshotRequests <= b.snapshotRequests && a.snapshotReplies <= b.snapshotReplies
  }

  /** Only the servers in vs have changed, and no message is lost. */
  ghost predicate Elsewhere(s: System, t: System, vs: set<nat>) {
    && |t.hosts| == |s.hosts| && NetGrows(s.net, t.net)
    && forall w: nat :: w < |s.hosts| && w !in vs ==> t.hosts[w] == s.hosts[w]
  }

  /** A server of the cluster of five with this role, term and log, nothing of it committed. */
  predicate Peer(n: Node, v: nat, role: Role, term: nat, log: Log) {
    && n.me == v && n.peers == 5 && n.role == role && n.term == term && n.log == log
    && n.base == 0 && n.commit == 0 && n.lastApplied == 0 && |n.nextIndex| == 5 && |n.matchIndex| == 5
  }

  ghost predicate Five(run: seq<System>) { Run(run) && |Last(run).hosts| == 5 }

  // ---------- an election ----------

  /** The parts of a host the service looks at. */
  predicate SameService(x: Host, y: Host) {
    x.queue == y.queue && x.delivering == y.delivering && x.applied == y.applied && x.history == y.history
  }

  lemma Campaign(run: seq<System>, c: nat, t: nat) returns (more: seq<System>)
    requires Five(run) && c < 5 && t >= 1 && Peer(Last(run).hosts[c].node, c, Follower, t - 1, [DUMMY])
    ensures Five(more) && Elsewhere(Last(run), Last(more), {c})
            && VoteRequest(t, c, 0, 0) in Last(more).net.voteRequests
    ensures var x := Last(more).hosts[c];
            && Peer(x.node, c, Candidate, t, [DUMMY]) && x.node.grantedVotes == 1
            && (forall p: nat :: p < 5 && p != c ==> p in x.awaiting) && SameService(x, Last(run).hosts[c])
  {
    more := Extend(run, Timeout(c));
    OthersAwaited(Last(run), c);
  }

  lemma OthersAwaited(sys: System, v: nat)
    requires v < |sys.hosts|
    ensures forall p: nat :: p < |sys.hosts| && p != v ==> p in AfterTimeout(sys, v).hosts[v].awaiting
  {
  }

  /** Voter p, in an older term and with an empty log, grants candidate c its vote. */
  lemma CastVote(run: seq<System>, c: nat, p: nat, t: nat) returns (more: seq<System>)
    requires Five(run) && c < 5 && p < 5 && c != p
    requires var s := Last(run);
             && VoteRequest(t, c, 0, 0) in s.net.voteRequests && s.hosts[p].node.term < t
             && Peer(s.hosts[p].node, p, Follower, s.hosts[p].node.term, [DUMMY])
    ensures Five(more) && Elsewhere(Last(run), Last(more), {p})
    ensures Peer(Last(more).hosts[p].node, p, Follower, t, [DUMMY])
            && SameService(Last(more).hosts[p], Last(run).hosts[p])
    ensures VoteReply(p, c, t, VoteResponse(t, true)) in Last(more).net.voteReplies
  {
    more := Extend(run, OnVoteRequest(p, VoteRequest(t, c, 0, 0)));
  }

  /** Two votes besides its own make a candidate among five the leader. */
  lemma Elect(run: seq<System>, c: nat, p: nat, q: nat, t: nat) returns (more: seq<System>)
    requires Five(run) && c < 5 && p < 5 && q < 5 && c != p && c != q && p != q
    requires var s := Last(run);
             && s.hosts[c].node.term + 1 == t && s.hosts[p].node.term < t && s.hosts[q].node.term < t
             && Peer(s.hosts[c].node, c, Follower, t - 1, [DUMMY])
             && Peer(s.hosts[p].node, p, Follower, s.hosts[p].node.term, [DUMMY])
             && Peer(s.hosts[q].node, q, Follower, s.hosts[q].node.term, [DUMMY])
    ensures Five(more) && Elsewhere(Last(run), Last(more), {c, p, q})
    ensures var s := Last(more);
            && Peer(s.hosts[c].node, c, Leader, t, [DUMMY])
            && (forall i :: 0 <= i < 5 ==> s.hosts[c].node.nextIndex[i] == 1 && s.hosts[c].node.matchIndex[i] == 0)
            && Peer(s.hosts[p].node, p, Follower, t, [DUMMY]) && Peer(s.hosts[q].node, q, Follower, t, [DUMMY])
            && SameService(s.hosts[c], Last(run).hosts[c]) && SameService(s.hosts[p], Last(run).hosts[p])
  {
    var a := Campaign(run, c, t);
    var b := CastVote(a, c, p, t);
    var d := CastVote(b, c, q, t);
    more := CountVotes(d, c, p, q, t);
  }

  lemma CountVotes(run: seq<System>, c: nat, p: nat, q: nat, t: nat) returns (more: seq<System>)
    requires Five(run) && c < 5 && p < 5 && q < 5 && c != p && c != q && p != q
    requires var s := Last(run);
             && VoteReply(p, c, t, VoteResponse(t, true)) in s.net.voteReplies
             && VoteReply(q, c, t, VoteResponse(t, true)) in s.net.voteReplies
             && Peer(s.hosts[c].node, c, Candidate, t, [DUMMY]) && s.hosts[c].node.grantedVotes == 1
             && p in s.hosts[c].awaiting && q in s.hosts[c].awaiting
    ensures Five(more) && Elsewhere(Last(run), Last(more), {c})
    ensures var s := Last(more);
            && Peer(s.hosts[c].node, c, Leader, t, [DUMMY])
            && (forall i :: 0 <= i < 5 ==> s.hosts[c].node.nextIndex[i] == 1 && s.hosts[c].node.matchIndex[i] == 0)
            && SameService(s.hosts[c], Last(run).hosts[c])
  {
    var a := Extend(run, OnVoteReply(c, VoteReply(p, c, t, VoteResponse(t, true))));
    more := Extend(a, OnVoteReply(c, VoteReply(q, c, t, VoteResponse(t, true))));
  }

  // ---------- the common beginning ----------

  function EntryOf(index: int, term: nat, c: Command): Entry { Entry(index, term, Some(c)) }

  /** The request that ships a leader's first entries. */
  function Ship(term: nat, leader: nat, entries: seq<Entry>): AppendRequest {
    AppendRequest(term, leader, 0, 0, 0, entries)
  }

  function Accepted(sender: nat, r: AppendRequest): AppendReply {
    AppendReply(sender, r, AppendResponse(r.term, true, 0, 0))
  }

  /** A new leader of the five takes commands and ships them from the beginning. */
  ghost predicate Leading(x: Host, v: nat, t: nat, log: Log) {
    Peer(x.node, v, Leader, t, log) && forall i :: 0 <= i < 5 && i != v ==>
      x.node.nextIndex[i] == 1 && x.node.matchIndex[i] == 0
  }

  lemma TakeCommand(run: seq<System>, v: nat, t: nat, log: Log, c: Command) returns (more: seq<System>)
    requires Five(run) && v < 5 && Leading(Last(run).hosts[v], v, t, log)
    ensures Five(more) && Elsewhere(Last(run), Last(more), {v}) && SameService(Last(more).hosts[v], Last(run).hosts[v])
    ensures Leading(Last(more).hosts[v], v, t, log + [EntryOf(|log|, t, c)])
    ensures Last(more).hosts[v].node.matchIndex[v] == |log|
  {
    more := Extend(run, ClientStart(v, c));
  }

  lemma ShipFirst(run: seq<System>, v: nat, p: nat, t: nat, log: Log) returns (more: seq<System>)
    requires Five(run) && v < 5 && p < 5 && v != p && Leading(Last(run).hosts[v], v, t, log) && log[0] == DUMMY
    ensures Five(more) && Elsewhere(Last(run), Last(more), {}) && Ship(t, v, log[1..]) in Last(more).net.appendRequests
  {
    more := Extend(run, SendAppend(v, p));
  }

  /** A follower in no later term takes what was shipped from the beginning, and says so. */
  lemma TakeEntries(run: seq<System>, p: nat, r: AppendRequest, log: Log) returns (more: seq<System>)
    requires Five(run) && p < 5 && r in Last(run).net.appendRequests && r == Ship(r.term, r.leaderId, r.entries)
             && p != r.leaderId
    requires Contiguous(0, r.entries) && log[0] == DUMMY
    requires Peer(Last(run).hosts[p].node, p, Follower, Last(run).hosts[p].node.term, log)
             && Last(run).hosts[p].node.term <= r.term
    ensures Five(more) && Elsewhere(Last(run), Last(more), {p}) && Accepted(p, r) in Last(more).net.appendReplies
    ensures Peer(Last(more).hosts[p].node, p, Follower, r.term, MergeEntries(log, r.entries))
  {
    more := Extend(run, OnAppendRequest(p, r));
  }

  // ---------- counting matches among five ----------

  lemma TwoAreNoMajority(s: seq<int>, a: nat, b: nat)
    requires |s| == 5 && a < 5 && b < 5 && forall i :: 0 <= i < 5 && i != a && i != b ==> s[i] == 0
    ensures CommitRule.HighestMatched(s) <= 0
  {
    var m := CommitRule.HighestMatched(s);
    if m > 0 {
      var q := CommitRule.Matching(s, m);
      assert Quorum(5, q);
      SubsetSize(q, {a, b});
    }
  }

  lemma ThreeAreMajority(s: seq<int>)
    requires |s| == 5 && s[0] == 1 && s[1] == 1 && s[2] == 1 && s[3] == 0 && s[4] == 0
    ensures CommitRule.HighestMatched(s) == 1
  {
    var m := CommitRule.HighestMatched(s);
    assert {0, 1, 2} <= CommitRule.Matching(s, 1);
    SubsetSize({0, 1, 2}, CommitRule.Matching(s, 1));
    assert CommitRule.Matching(s, 1) <= Below(5);
    assert Quorum(5, CommitRule.Matching(s, 1));
    assert CommitRule.Matching(s, 2) == {};
    assert !Quorum(5, CommitRule.Matching(s, 2));
  }

  /** A leader that so far matched only itself hears from one peer: no majority yet. */
  lemma HearFirst(run: seq<System>, v: nat, p: nat, t: nat, log: Log) returns (more: seq<System>)
    requires Five(run) && v < 5 && p < 5 && v != p && log[0] == DUMMY && Leading(Last(run).hosts[v], v, t, log)
    requires Accepted(p, Ship(t, v, log[1..])) in Last(run).net.appendReplies
    ensures Five(more) && Elsewhere(Last(run), Last(more), {v}) && SameService(Last(more).hosts[v], Last(run).hosts[v])
    ensures var s, y := Last(run).hosts[v].node, Last(more).hosts[v].node;
            Peer(y, v, Leader, t, log) && y.matchIndex == s.matchIndex[p := |log| - 1]
  {
    var r := Ship(t, v, log[1..]);
    TwoAreNoMajority(Last(run).hosts[v].node.matchIndex[p := |log| - 1], v, p);
    more := Extend(run, OnAppendReply(v, Accepted(p, r)));
  }

  // ---------- the common beginning ----------

  /** Server 4 led term 1 with entries x and y, which only server 3 took from it. */
  ghost predicate OldLeader(sys: System, x: Entry, y: Entry) {
    && |sys.hosts| == 5
    && Peer(sys.hosts[4].node, 4, Leader, 1, [DUMMY, x, y]) && sys.hosts[4].node.matchIndex[3] == 2
    && Peer(sys.hosts[3].node, 3, Follower, 1, [DUMMY, x, y])
  }

  /** Server 1 leads term 2 with entry z, which it has shipped. */
  ghost predicate NewLeader(sys: System, z: Entry) {
    && |sys.hosts| == 5
    && Leading(sys.hosts[1], 1, 2, [DUMMY, z]) && sys.hosts[1].node.matchIndex[1] == 1
       && SameService(sys.hosts[1], InitialHost(1, 5))
    && Peer(sys.hosts[0].node, 0, Follower, 2, [DUMMY]) && Peer(sys.hosts[2].node, 2, Follower, 2, [DUMMY])
    && Ship(2, 1, [z]) in sys.net.appendRequests
  }

  function Start(): System {
    System(seq(5, v requires 0 <= v < 5 => InitialHost(v, 5)), Network({}, {}, {}, {}, {}, {}),
           History(5, map[], map[], map[], map[], map[]))
  }

  lemma FirstElection() returns (run: seq<System>)
    ensures Five(run) && Leading(Last(run).hosts[4], 4, 1, [DUMMY])
    ensures Peer(Last(run).hosts[0].node, 0, Follower, 1, [DUMMY])
            && Peer(Last(run).hosts[1].node, 1, Follower, 1, [DUMMY])
    ensures Last(run).hosts[2] == InitialHost(2, 5) && Last(run).hosts[3] == InitialHost(3, 5)
    ensures SameService(Last(run).hosts[1], InitialHost(1, 5))
  {
    run := [Start()];
    run := Elect(run, 4, 1, 0, 1);
  }

  lemma FirstTerm(c: Command, d: Command) returns (run: seq<System>)
    ensures Five(run) && OldLeader(Last(run), EntryOf(1, 1, c), EntryOf(2, 1, d))
    ensures Peer(Last(run).hosts[0].node, 0, Follower, 1, [DUMMY])
            && Peer(Last(run).hosts[1].node, 1, Follower, 1, [DUMMY])
    ensures Last(run).hosts[2] == InitialHost(2, 5) && SameService(Last(run).hosts[1], InitialHost(1, 5))
  {
    var x, y := EntryOf(1, 1, c), EntryOf(2, 1, d);
    run := FirstElection();
    run := TakeCommand(run, 4, 1, [DUMMY], c);
    assert [DUMMY] + [x] == [DUMMY, x] && [DUMMY, x] + [y] == [DUMMY, x, y];
    run := TakeCommand(run, 4, 1, [DUMMY, x], d);
    run := ShipFirst(run, 4, 3, 1, [DUMMY, x, y]);
    assert [DUMMY, x, y][1..] == [x, y];
    MergeFresh([x, y]);
    run := TakeEntries(run, 3, Ship(1, 4, [x, y]), [DUMMY]);
    run := HearFirst(run, 4, 3, 1, [DUMMY, x, y]);
  }

  lemma MergeFresh(entries: seq<Entry>)
    requires entries != [] && Contiguous(0, entries)
    ensures MergeEntries([DUMMY], entries) == [DUMMY] + entries
  {
  }

  lemma SecondTerm(c: Command, d: Command, e: Command) returns (run: seq<System>)
    ensures Five(run) && OldLeader(Last(run), EntryOf(1, 1, c), EntryOf(2, 1, d))
            && NewLeader(Last(run), EntryOf(1, 2, e))
  {
    var z := EntryOf(1, 2, e);
    run := FirstTerm(c, d);
    run := Elect(run, 1, 0, 2, 2);
    run := TakeCommand(run, 1, 2, [DUMMY], e);
    assert [DUMMY] + [z] == [DUMMY, z];
    run := ShipFirst(run, 1, 0, 2, [DUMMY, z]);
    assert [DUMMY, z][1..] == [z];
  }

  // ---------- a leader that has been replaced ----------

  /** The unrestricted property is false: server 4 still leads term 1 with nothing committed and
      believes that server 3 matches index 2, but server 3 has moved to term 2 and lost both entries. */
  lemma MatchIndexOverestimates(c: Command, d: Command, e: Command) returns (run: seq<System>)
    ensures Run(run) && |Last(run).hosts| == 5
    ensures var s, p := Last(run).hosts[4].node, Last(run).hosts[3].node;
            && s.role == Leader && s.commit == 0 && |s.matchIndex| == 5 && s.matchIndex[3] == 2 && |s.log| == 3
            && p.term > s.term && |p.log| == 2 && p.log[1] != s.log[1]
  {
    var x, y, z := EntryOf(1, 1, c), EntryOf(2, 1, d), EntryOf(1, 2, e);
    run := SecondTerm(c, d, e);
    assert [DUMMY, x, y][..1] + [z] == [DUMMY, z];
    run := TakeEntries(run, 3, Ship(2, 1, [z]), [DUMMY, x, y]);
  }

  // ---------- an unchecked install ----------

  /** Server 1 has committed z at index 1. */
  ghost predicate CommittedAt1(sys: System, z: Entry) {
    && |sys.hosts| == 5 && SameService(sys.hosts[1], InitialHost(1, 5))
    && sys.hosts[1].node.role == Leader && sys.hosts[1].node.term == 2 && sys.hosts[1].node.log == [DUMMY, z]
    && sys.hosts[1].node.base == 0 && sys.hosts[1].node.commit == 1 && sys.hosts[1].node.lastApplied == 0
    && sys.hosts[1].node.me == 1
  }

  lemma HearSecond(run: seq<System>, z: Entry) returns (more: seq<System>)
    requires Five(run) && z.index == 1 && z.term == 2 && SameService(Last(run).hosts[1], InitialHost(1, 5))
    requires Peer(Last(run).hosts[1].node, 1, Leader, 2, [DUMMY, z])
    requires var m := Last(run).hosts[1].node.matchIndex; m[0] == 1 && m[1] == 1 && m[2] == 0 && m[3] == 0 && m[4] == 0
    requires Accepted(2, Ship(2, 1, [z])) in Last(run).net.appendReplies
    ensures Five(more) && Elsewhere(Last(run), Last(more), {1}) && CommittedAt1(Last(more), z)
  {
    ThreeAreMajority(Last(run).hosts[1].node.matchIndex[2 := 1]);
    more := Extend(run, OnAppendReply(1, Accepted(2, Ship(2, 1, [z]))));
  }

  lemma CommitZ(c: Command, d: Command, e: Command) returns (run: seq<System>)
    ensures Five(run) && OldLeader(Last(run), EntryOf(1, 1, c), EntryOf(2, 1, d))
            && CommittedAt1(Last(run), EntryOf(1, 2, e))
  {
    var z := EntryOf(1, 2, e);
    run := SecondTerm(c, d, e);
    MergeFresh([z]);
    assert [DUMMY] + [z] == [DUMMY, z] && [DUMMY, z][1..] == [z];
    run := TakeEntries(run, 0, Ship(2, 1, [z]), [DUMMY]);
    run := TakeEntries(run, 2, Ship(2, 1, [z]), [DUMMY]);
    run := HearFirst(run, 1, 0, 2, [DUMMY, z]);
    run := HearSecond(run, z);
  }

  /** The service at server 1 applies z, compacts and the snapshot goes out. */
  lemma ShipSnapshot(run: seq<System>, z: Entry) returns (more: seq<System>)
    requires Five(run) && CommittedAt1(Last(run), z) && z.index == 1 && z.term == 2
    ensures Five(more) && Elsewhere(Last(run), Last(more), {1})
    ensures SnapshotRequest(2, 1, 1, 2, [DUMMY, z]) in Last(more).net.snapshotRequests
  {
    var a := Extend(run, Collect(1));
    assert [DUMMY, z][1..2] == [z];
    var b := Extend(a, ServiceCommand(1, true));
    assert [DUMMY] + [z] == [DUMMY, z];
    more := Extend(b, SendSnapshot(1));
  }

  lemma InstallAt4(run: seq<System>, x: Entry, y: Entry, z: Entry) returns (more: seq<System>)
    requires Five(run) && OldLeader(Last(run), x, y)
    requires SnapshotRequest(2, 1, 1, 2, [DUMMY, z]) in Last(run).net.snapshotRequests
    ensures Five(more) && Elsewhere(Last(run), Last(more), {4}) && Last(more).hosts[4].node.log == [DUMMY, z, y]
  {
    var p: Log := [DUMMY, z];
    var a := Extend(run, OnSnapshotRequest(4, SnapshotRequest(2, 1, 1, 2, p)));
    more := Extend(a, ServiceSnapshot(4, p));
    assert [DUMMY, x, y][2..] == [y] && p + [y] == [DUMMY, z, y];
  }

  /** An unchecked install happens, and breaks both monotone terms and log matching: afterwards
      servers 3 and 4 hold an entry of the same index and term above different entries. */
  lemma UncheckedInstallBreaksLogMatching(c: Command, d: Command, e: Command) returns (run: seq<System>)
    ensures Run(run) && |Last(run).hosts| == 5
    ensures var a, b := Last(run).hosts[3].node.log, Last(run).hosts[4].node.log;
            && |a| == 3 && |b| == 3 && a[2].term == b[2].term && a[1] != b[1] && !Monotone(b)
  {
    var x, y, z := EntryOf(1, 1, c), EntryOf(2, 1, d), EntryOf(1, 2, e);
    run := CommitZ(c, d, e);
    run := ShipSnapshot(run, z);
    run := InstallAt4(run, x, y, z);
    var b := Last(run).hosts[4].node.log;
    assert b[1].term > b[2].term;
  }
}
