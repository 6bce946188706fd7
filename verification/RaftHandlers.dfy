/** What each critical section answers and leaves behind, in terms of terms, indices and entries. */
module RaftHandlers {
  import opened Prelude
  import opened RaftLog
  import opened KvTypes
  import opened RaftNode
  import opened RaftCore
  import opened RaftSystem
  import opened RaftSystemInv
  import opened RaftSystemSteps
  import opened RaftSafety

  // ---------- votes ----------

  /** A vote is granted exactly when the voter is free and the candidate's log is as recent as its own;
      whatever the answer, a newer term is adopted, the answer carries the term, and nothing else moves. */
  lemma VoteGrantedIff(s: Node, r: VoteRequest)
    ensures var (y, a) := HandleVoteRequest(s, r);
            var last := |s.log| - 1;
            && (a.voteGranted <==>
                  && (r.term > s.term || (r.term == s.term && (s.votedFor == NOBODY || s.votedFor == r.candidateId)))
                  && (r.lastLogTerm > s.log[last].term
                     || (r.lastLogTerm == s.log[last].term && r.lastLogIndex >= last)))
            && a.term == y.term == Max(s.term, r.term)
            && y.votedFor == (if a.voteGranted then r.candidateId else if r.term > s.term then NOBODY else s.votedFor)
            && y.role == (if r.term > s.term then Follower else s.role)
            && y == s.(term := y.term, votedFor := y.votedFor, role := y.role)
  {
  }

  /** Of any two logs one is as recent as the other. */
  lemma LogsComparable(a: Log, b: Log)
    ensures UpToDate(LastTerm(a), |a| - 1, b) || UpToDate(LastTerm(b), |b| - 1, a)
  {
  }

  /** Server c's vote request in term t, whenever it makes one with the log it has. */
  function RequestOf(sys: System, c: nat, t: nat): VoteRequest
    requires c < |sys.hosts|
  {
    VoteRequest(t, c, |sys.hosts[c].node.log| - 1, LastTerm(sys.hosts[c].node.log))
  }

  /** Every member of q that has not reached term t votes for c in term t. */
  ghost predicate Electable(sys: System, q: set<nat>, c: nat) {
    c < |sys.hosts| && forall p: nat, t: nat :: Supports(sys, q, c, p, t)
  }

  ghost predicate Supports(sys: System, q: set<nat>, c: nat, p: nat, t: nat)
    requires c < |sys.hosts|
  {
    p in q && p < |sys.hosts| && p != c && t > sys.hosts[p].node.term ==>
      HandleVoteRequest(sys.hosts[p].node, RequestOf(sys, c, t)).1.voteGranted
  }

  /** The vote check never blocks an election: among any servers there is one for which all others
      vote as soon as it asks in a term they have not reached. */
  lemma {:induction false} SomebodyElectable(sys: System, q: set<nat>) returns (c: nat)
    requires q != {} && forall p :: p in q ==> p < |sys.hosts|
    ensures c in q && Electable(sys, q, c)
    decreases q
  {
    c := AnyOf(q);
    if q != {c} {
      var rest := q - {c};
      var d := SomebodyElectable(sys, rest);
      LogsComparable(sys.hosts[c].node.log, sys.hosts[d].node.log);
      if !UpToDate(LastTerm(sys.hosts[c].node.log), |sys.hosts[c].node.log| - 1, sys.hosts[d].node.log) {
        forall p: nat, t: nat ensures Supports(sys, q, d, p, t) {
          assert Supports(sys, rest, d, p, t);
          if p < |sys.hosts| { VoteGrantedIff(sys.hosts[p].node, RequestOf(sys, d, t)); }
        }
        c := d;
      } else {
        forall p: nat, t: nat ensures Supports(sys, q, c, p, t) {
          if p in rest && p < |sys.hosts| && t > sys.hosts[p].node.term {
            VoteGrantedIff(sys.hosts[p].node, RequestOf(sys, c, t));
            VoteGrantedIff(sys.hosts[p].node, RequestOf(sys, d, t));
            assert Supports(sys, rest, d, p, t);
          }
        }
      }
    }
  }

  /** A timeout asks for votes in the next term with exactly the server's own log. */
  lemma TimeoutAsks(run: seq<System>, n: nat, v: nat)
    requires Run(run) && n < |run| && v < |run[n].hosts|
    ensures var s, next := run[n].hosts[v].node, AfterTimeout(run[n], v);
            && next.hosts[v].node == s.(role := Candidate, term := s.term + 1, votedFor := v, grantedVotes := 1)
            && next.net == run[n].net.(voteRequests := run[n].net.voteRequests + {RequestOf(run[n], v, s.term + 1)})
  {
    RunKeeps(run, n);
    assert NodeAt(run[n], v);
  }

  /** A candidate counts a vote of its own term, leads with more than half, and steps down only when
      refused by a later term; a new leader takes its peers to be at the end of its log, matching nothing. */
  lemma VoteReplyOutcome(s: Node, t: nat, a: VoteResponse)
    ensures var y := HandleVoteResponse(s, t, a);
            var counts := s.role == Candidate && s.term == t;
            && (y.role == Leader && s.role != Leader <==> counts && a.voteGranted && 2 * (s.grantedVotes + 1) > s.peers)
            && (counts && a.voteGranted ==>
                  y.grantedVotes == s.grantedVotes + 1 && y.term == s.term && y.votedFor == s.votedFor)
            && (counts && !a.voteGranted && a.term > s.term ==>
                  y == s.(role := Follower, term := a.term, votedFor := NOBODY))
            && (!counts || (!a.voteGranted && a.term <= s.term) ==> y == s)
            && (y.role == Leader && s.role != Leader ==>
                  |y.nextIndex| == |y.matchIndex| == s.peers
                  && forall i :: 0 <= i < s.peers ==> y.nextIndex[i] == |s.log| && y.matchIndex[i] == 0)
            && y.log == s.log && y.base == s.base && y.commit == s.commit && y.lastApplied == s.lastApplied
  {
  }

  // ---------- replication ----------

  /** The position of the first shipped entry the log lacks or has with another term. */
  ghost predicate FirstNew(log: Log, entries: seq<Entry>, k: nat) {
    && k <= |entries|
    && (forall i :: 0 <= i < k ==> 0 <= entries[i].index < |log| && log[entries[i].index].term == entries[i].term)
    && (k < |entries| ==> !(0 <= entries[k].index < |log| && log[entries[k].index].term == entries[k].term))
  }

  /** Everything up to the first new entry stays, and from there on the log is what was shipped. */
  lemma {:induction false} MergeOutcome(log: Log, entries: seq<Entry>, k: nat)
    requires entries != [] ==> 1 <= entries[0].index <= |log| && Contiguous(entries[0].index - 1, entries)
    requires FirstNew(log, entries, k)
    ensures MergeEntries(log, entries) ==
            if k == |entries| then log else log[..Max(0, Min(entries[k].index, |log|))] + entries[k..]
  {
    if k > 0 {
      assert forall i :: 0 <= i < |entries| - 1 ==> entries[1..][i] == entries[i + 1];
      MergeOutcome(log, entries[1..], k - 1);
      assert entries[1..][k - 1..] == entries[k..];
    } else if entries != [] {
      assert entries[0..] == entries;
    }
  }

  /** A request succeeds exactly when it is of no older term and its previous entry is in the log above
      the base with the same term; then the entries are merged and the commit index follows the leader's,
      never past the log's end and never back. */
  lemma AppendAnswerIff(s: Node, r: AppendRequest)
    requires NodeOk(s) && AppendFits(r)
    ensures var (y, a) := HandleAppendRequest(s, r);
            var prev := r.prevLogIndex;
            && (a.success <==> r.term >= s.term && s.base <= prev < |s.log| && s.log[prev].term == r.prevLogTerm)
            && y.term == Max(s.term, r.term)
            && (r.term >= s.term ==> y.role == Follower) && (r.term < s.term ==> y == s)
            && y.votedFor == (if r.term > s.term then NOBODY else s.votedFor)
            && (a.success ==>
                  && y.log == MergeEntries(s.log, r.entries)
                  && y.commit == Max(s.commit, Min(r.leaderCommit, |y.log| - 1)))
            && (!a.success ==> y.log == s.log && y.commit == s.commit)
            && y.base == s.base && y.lastApplied == s.lastApplied
            && a.term == (if r.term >= s.term && prev < s.base then 0 else y.term)
  {
  }

  /** A refused request is answered with the log's end, or with the conflicting term and the last index
      above the base that has another one (or the one below the base). */
  lemma RefusalHints(s: Node, r: AppendRequest)
    requires NodeOk(s) && AppendFits(r) && r.term >= s.term && r.prevLogIndex >= s.base
    requires !HandleAppendRequest(s, r).1.success
    ensures var a, prev := HandleAppendRequest(s, r).1, r.prevLogIndex;
            && (prev >= |s.log| ==> a.conflictIndex == |s.log| && a.conflictTerm == -1)
            && (prev < |s.log| ==>
                  && a.conflictTerm == s.log[prev].term && s.base - 1 <= a.conflictIndex < prev
                  && (forall k :: a.conflictIndex < k <= prev ==> s.log[k].term == a.conflictTerm)
                  && (a.conflictIndex >= s.base ==> s.log[a.conflictIndex].term != a.conflictTerm))
  {
  }

  /** A leader records a success of its own term, steps down for a later one, backs up on a conflict and
      ignores everything else. */
  lemma AppendReplyOutcome(s: Node, p: nat, r: AppendRequest, a: AppendResponse)
    requires ReplyFits(s, p, r)
    ensures var y := HandleAppendResponse(s, p, r, a);
            var mine := s.role == Leader && s.term == r.term;
            && (mine && a.success ==>
                  && y.matchIndex == s.matchIndex[p := r.prevLogIndex + |r.entries|]
                  && y.nextIndex == s.nextIndex[p := r.prevLogIndex + |r.entries| + 1]
                  && y == s.(matchIndex := y.matchIndex, nextIndex := y.nextIndex, commit := y.commit))
            && (mine && !a.success && a.term > s.term ==> y == s.(role := Follower, term := a.term, votedFor := NOBODY))
            && (mine && !a.success && a.term == s.term ==>
                  && |y.nextIndex| == |s.nextIndex| && y == s.(nextIndex := s.nextIndex[p := y.nextIndex[p]]))
            && (!mine || (!a.success && a.term < s.term) ==> y == s)
  {
  }

  /** On a conflict the leader goes on after its own last entry of the conflicting term, if it has one at
      or below the one it tried, and otherwise where the follower says. */
  lemma BackUpOutcome(s: Node, p: nat, r: AppendRequest, a: AppendResponse, i: int)
    requires ReplyFits(s, p, r) && s.role == Leader && s.term == r.term && !a.success && a.term == s.term
    requires s.base <= i <= r.prevLogIndex && s.log[i].term == a.conflictTerm
    requires forall k :: i < k <= r.prevLogIndex ==> s.log[k].term != a.conflictTerm
    ensures HandleAppendResponse(s, p, r, a).nextIndex[p] == i + 1
  {
    var j := FindTerm(s.log, s.base, r.prevLogIndex, a.conflictTerm);
    assert j >= s.base;
    LastOfTerm(s.log, s.base, r.prevLogIndex, a.conflictTerm, i);
  }

  lemma {:induction false} LastOfTerm(log: Log, base: int, from: int, term: int, i: int)
    requires 0 <= base <= i <= from < |log| && log[i].term == term && forall k :: i < k <= from ==> log[k].term != term
    ensures FindTerm(log, base, from, term) == i
    decreases from - i
  {
    if from > i { LastOfTerm(log, base, from - 1, term, i); }
  }

  lemma BackUpOtherwise(s: Node, p: nat, r: AppendRequest, a: AppendResponse)
    requires ReplyFits(s, p, r) && s.role == Leader && s.term == r.term && !a.success && a.term == s.term
    requires a.conflictTerm == -1 || forall k :: s.base <= k <= r.prevLogIndex ==> s.log[k].term != a.conflictTerm
    ensures HandleAppendResponse(s, p, r, a).nextIndex[p] == a.conflictIndex
  {
  }

  /** A follower that accepts the request a leader makes now holds the leader's whole log afterwards and
      knows as committed everything the leader does. */
  lemma FollowerCatchesUp(run: seq<System>, n: nat, v: nat, p: nat)
    requires Run(run) && n < |run| && Enabled(run[n], SendAppend(v, p)) && p != v
    requires var s := run[n].hosts[v].node; CanSendAppend(s, p) && AppendFits(MakeAppendRequest(s, p))
    requires NodeOk(run[n].hosts[p].node)
    requires HandleAppendRequest(run[n].hosts[p].node, MakeAppendRequest(run[n].hosts[v].node, p)).1.success
    ensures var s := run[n].hosts[v].node;
            var y := HandleAppendRequest(run[n].hosts[p].node, MakeAppendRequest(s, p)).0;
            s.log <= y.log && s.commit <= y.commit && y.term == s.term
  {
    RunKeeps(run, n);
    assert NodeAt(run[n], v);
    CatchesUp(run[n], v, p);
  }

  lemma CatchesUp(sys: System, v: nat, p: nat)
    requires SystemInv(sys) && v < |sys.hosts| && p < |sys.hosts| && CanSendAppend(sys.hosts[v].node, p)
    requires NodeOk(sys.hosts[p].node) && AppendFits(MakeAppendRequest(sys.hosts[v].node, p))
    requires sys.hosts[v].node.commit < |sys.hosts[v].node.log|
    requires HandleAppendRequest(sys.hosts[p].node, MakeAppendRequest(sys.hosts[v].node, p)).1.success
    ensures var s := sys.hosts[v].node;
            var y := HandleAppendRequest(sys.hosts[p].node, MakeAppendRequest(s, p)).0;
            s.log <= y.log && s.commit <= y.commit && y.term == s.term
  {
    var s := sys.hosts[v].node;
    var r := MakeAppendRequest(s, p);
    assert ServerOk(CoreOf(sys), v);
    SentRequestOk(sys, v, p);
    AppendAnswerIff(sys.hosts[p].node, r);
    AcceptedLog(sys, p, r);
    assert sys.h.leaderLog[r.term][..ReachOf(r)] == s.log;
  }

  // ---------- snapshots ----------

  /** A snapshot is handed to the service exactly when it is of no older term and past the commit index. */
  lemma SnapshotRequestOutcome(s: Node, r: SnapshotRequest)
    ensures var (y, term, handOver) := HandleSnapshotRequest(s, r);
            && (handOver <==> r.term >= s.term && r.lastIncludedIndex > s.commit)
            && term == s.term && y.term == Max(s.term, r.term)
            && y.votedFor == (if r.term > s.term then NOBODY else s.votedFor)
            && y.role == (if r.term >= s.term then Follower else s.role)
            && y == s.(term := y.term, votedFor := y.votedFor, role := y.role)
  {
  }

  /** A reply of the leader's own term steps it down if later and otherwise records the snapshot's index. */
  lemma SnapshotReplyOutcome(s: Node, p: nat, r: SnapshotRequest, t: nat)
    requires NodeOk(s) && p < s.peers
    ensures var y, mine := HandleSnapshotResponse(s, p, r, t), s.role == Leader && s.term == r.term;
            && (mine && t > s.term ==> y == s.(role := Follower))
            && (mine && t <= s.term ==>
                  y == s.(matchIndex := s.matchIndex[p := r.lastIncludedIndex],
                          nextIndex := s.nextIndex[p := r.lastIncludedIndex + 1]))
            && (!mine ==> y == s)
  {
  }

  /** A snapshot is installed exactly when it is past the commit index; then the log begins with it, is
      unchanged above it, and everything up to it counts as committed, delivered and compacted. */
  lemma InstallOutcome(s: Node, p: Log)
    ensures var (y, ok) := CondInstall(s, p);
            && (ok <==> |p| - 1 > s.commit) && (!ok ==> y == s)
            && (ok ==>
                  && p <= y.log && |y.log| == Max(|p|, |s.log|)
                  && (forall i :: |p| <= i < |s.log| ==> y.log[i] == s.log[i])
                  && y.base == y.commit == y.lastApplied == |p| - 1
                  && y == s.(log := y.log, base := y.base, commit := y.commit, lastApplied := y.lastApplied))
  {
  }

  /** After a restart a follower in the persisted term, with the persisted vote and log, takes only the
      compacted part for committed and delivered. */
  lemma RestartOutcome(s: Node)
    ensures var y := Restart(s);
            && y.role == Follower && y.term == s.term && y.votedFor == s.votedFor && y.log == s.log && y.base == s.base
            && y.commit == y.lastApplied == s.base && y.me == s.me && y.peers == s.peers
            && |y.nextIndex| == |y.matchIndex| == s.peers
            && forall i :: 0 <= i < s.peers ==> y.nextIndex[i] == |s.log| && y.matchIndex[i] == 0
  {
  }

  /** A leader appends a command at the next index in its own term and counts itself as matching it. */
  lemma StartOutcome(s: Node, command: Command)
    requires NodeOk(s) && s.role == Leader
    ensures var y := StartCommand(s, command);
            && y.log == s.log + [Entry(|s.log|, s.term, Some(command))]
            && y.matchIndex == s.matchIndex[s.me := |s.log|] && y.nextIndex == s.nextIndex[s.me := |s.log| + 1]
            && y == s.(log := y.log, matchIndex := y.matchIndex, nextIndex := y.nextIndex)
  {
  }
}
