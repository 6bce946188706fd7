/** One Raft peer as a value, and what each of its critical sections does to it.

    `log` is the log since the beginning of time and `base` the index up to which
    it has been compacted away; no function here reads an entry below `base`. */
module RaftNode {
  import opened Prelude
  import opened RaftLog
  import opened KvTypes
  import CommitRule

  const NOBODY: int := -1

  datatype Node = Node(
    me: nat,
    peers: nat,
    role: Role,
    term: nat,
    votedFor: int,
    grantedVotes: nat,
    log: Log,
    base: nat,
    commit: nat,
    lastApplied: nat,
    nextIndex: seq<int>,
    matchIndex: seq<int>)

  datatype VoteRequest = VoteRequest(term: nat, candidateId: nat, lastLogIndex: int, lastLogTerm: nat)

  datatype VoteResponse = VoteResponse(term: nat, voteGranted: bool)

  datatype AppendRequest = AppendRequest(
    term: nat, leaderId: nat, prevLogIndex: int, prevLogTerm: nat, leaderCommit: nat, entries: seq<Entry>)

  datatype AppendResponse = AppendResponse(term: nat, success: bool, conflictIndex: int, conflictTerm: int)

  /** `history` is the log prefix whose effect the snapshot's bytes record. */
  datatype SnapshotRequest = SnapshotRequest(
    term: nat, leaderId: nat, lastIncludedIndex: int, lastIncludedTerm: nat, history: Log)

  /** Shape of a peer between critical sections; what makes every slice index legal. */
  predicate NodeOk(s: Node) {
    && Indexed(s.log)
    && s.base < |s.log|
    && s.base <= s.commit
    && s.me < s.peers
    && |s.nextIndex| == s.peers && |s.matchIndex| == s.peers
  }

  function InitialNode(me: nat, peers: nat): Node {
    Node(me, peers, Follower, 0, NOBODY, 0, [DUMMY], 0, 0, 0, seq(peers, _ => 1), seq(peers, _ => 0))
  }

  /** Restart from the persisted term, vote and log. */
  function Restart(s: Node): Node {
    s.(role := Follower, grantedVotes := 0, commit := s.base, lastApplied := s.base,
       nextIndex := seq(s.peers, _ => |s.log|), matchIndex := seq(s.peers, _ => 0))
  }

  // ---------- elections ----------

  function StepDown(s: Node, term: nat): Node {
    s.(role := Follower, term := term, votedFor := NOBODY)
  }

  function BecomeLeader(s: Node): Node {
    s.(role := Leader, nextIndex := seq(s.peers, _ => |s.log|), matchIndex := seq(s.peers, _ => 0))
  }

  function ElectionTimeout(s: Node): Node {
    s.(role := Candidate, term := s.term + 1, votedFor := s.me, grantedVotes := 1)
  }

  function MakeVoteRequest(s: Node): VoteRequest {
    VoteRequest(s.term, s.me, |s.log| - 1, LastTerm(s.log))
  }

  predicate RefusesOutright(s: Node, r: VoteRequest) {
    r.term < s.term || (r.term == s.term && s.votedFor != NOBODY && s.votedFor != r.candidateId)
  }

  function HandleVoteRequest(s: Node, r: VoteRequest): (Node, VoteResponse) {
    if RefusesOutright(s, r) then
      (s, VoteResponse(s.term, false))
    else
      var s := if r.term > s.term then StepDown(s, r.term) else s;
      if !UpToDate(r.lastLogTerm, r.lastLogIndex, s.log) then
        (s, VoteResponse(s.term, false))
      else
        (s.(votedFor := r.candidateId), VoteResponse(s.term, true))
  }

  function HandleVoteResponse(s: Node, requestTerm: nat, a: VoteResponse): Node {
    if s.term != requestTerm || s.role != Candidate then s
    else if a.voteGranted then
      var s := s.(grantedVotes := s.grantedVotes + 1);
      if s.grantedVotes > s.peers / 2 then BecomeLeader(s) else s
    else if a.term > s.term then StepDown(s, a.term)
    else s
  }

  // ---------- replication ----------

  predicate MatchLog(s: Node, term: nat, index: int)
    requires index >= 0
  {
    index < |s.log| && s.log[index].term == term
  }

  /** The entries of a request carry consecutive indices after prevLogIndex. */
  predicate Contiguous(prev: int, entries: seq<Entry>) {
    forall k :: 0 <= k < |entries| ==> entries[k].index == prev + 1 + k
  }

  /** Walk down from i while the entries have the given term. */
  function ScanBack(log: Log, base: int, i: int, term: nat): (r: int)
    requires 0 <= base && i < |log|
    ensures r <= i && (base - 1 <= i ==> base - 1 <= r)
    ensures r >= base ==> log[r].term != term
    ensures forall k :: r < k <= i && base <= k ==> log[k].term == term
    decreases i - base + 1
  {
    if i >= base && log[i].term == term then ScanBack(log, base, i - 1, term) else i
  }

  /** Skip the entries already present; from the first missing or conflicting one on,
      the request replaces the tail. */
  function MergeEntries(log: Log, entries: seq<Entry>): Log
    requires entries != [] ==> 1 <= entries[0].index <= |log| && Contiguous(entries[0].index - 1, entries)
  {
    if entries == [] then log
    else if entries[0].index >= |log| || log[entries[0].index].term != entries[0].term then
      log[..entries[0].index] + entries
    else MergeEntries(log, entries[1..])
  }

  function AdvanceFollower(s: Node, leaderCommit: nat): Node {
    var n := Min(leaderCommit, |s.log| - 1);
    if n > s.commit then s.(commit := n) else s
  }

  predicate AppendFits(r: AppendRequest) {
    r.prevLogIndex >= 0 && Contiguous(r.prevLogIndex, r.entries)
  }

  function HandleAppendRequest(s: Node, r: AppendRequest): (Node, AppendResponse)
    requires NodeOk(s) && AppendFits(r)
  {
    if r.term < s.term then (s, AppendResponse(s.term, false, 0, 0))
    else
      var s := if r.term > s.term then StepDown(s, r.term) else s.(role := Follower);
      if r.prevLogIndex < s.base then (s, AppendResponse(0, false, 0, 0))
      else if !MatchLog(s, r.prevLogTerm, r.prevLogIndex) then
        if |s.log| - 1 < r.prevLogIndex then (s, AppendResponse(s.term, false, |s.log|, -1))
        else
          var t := s.log[r.prevLogIndex].term;
          (s, AppendResponse(s.term, false, ScanBack(s.log, s.base, r.prevLogIndex - 1, t), t))
      else
        (AdvanceFollower(s.(log := MergeEntries(s.log, r.entries)), r.leaderCommit), AppendResponse(s.term, true, 0, 0))
  }

  predicate CanSendAppend(s: Node, peer: nat) {
    s.role == Leader && peer < s.peers && |s.nextIndex| == s.peers && s.base <= s.nextIndex[peer] - 1 < |s.log|
  }

  /** The whole log after prevLogIndex is shipped. */
  function MakeAppendRequest(s: Node, peer: nat): AppendRequest
    requires CanSendAppend(s, peer)
  {
    var prev := s.nextIndex[peer] - 1;
    AppendRequest(s.term, s.me, prev, s.log[prev].term, s.commit, s.log[prev + 1..])
  }

  /** Commit the highest index a majority matches, if that entry is of the current term. */
  ghost function AdvanceLeader(s: Node): Node
    requires NodeOk(s)
  {
    var n := CommitRule.HighestMatched(s.matchIndex);
    if n > s.commit && MatchLog(s, s.term, n) then s.(commit := n) else s
  }

  predicate ReplyFits(s: Node, peer: nat, r: AppendRequest) {
    && NodeOk(s) && peer < s.peers
    && (s.role == Leader && s.term == r.term ==> 0 <= r.prevLogIndex < |s.log|)
  }

  /** The last index at or below i whose entry has the given term, or below base. */
  function FindTerm(log: Log, base: int, i: int, term: int): (r: int)
    requires 0 <= base && i < |log|
    ensures r >= base ==> r <= i && log[r].term == term
    ensures r < base ==> forall k :: base <= k <= i ==> log[k].term != term
    decreases i - base + 1
  {
    if i < base then base - 1 else if log[i].term == term then i else FindTerm(log, base, i - 1, term)
  }

  function BackUp(s: Node, peer: nat, r: AppendRequest, a: AppendResponse): Node
    requires ReplyFits(s, peer, r) && s.role == Leader && s.term == r.term
  {
    var i := FindTerm(s.log, s.base, r.prevLogIndex, a.conflictTerm);
    s.(nextIndex := s.nextIndex[peer := if a.conflictTerm != -1 && i >= s.base then i + 1 else a.conflictIndex])
  }

  function RecordMatch(s: Node, peer: nat, index: int): Node
    requires NodeOk(s) && peer < s.peers
  {
    s.(matchIndex := s.matchIndex[peer := index], nextIndex := s.nextIndex[peer := index + 1])
  }

  ghost function HandleAppendResponse(s: Node, peer: nat, r: AppendRequest, a: AppendResponse): Node
    requires ReplyFits(s, peer, r)
  {
    if s.role != Leader || s.term != r.term then s
    else if a.success then AdvanceLeader(RecordMatch(s, peer, r.prevLogIndex + |r.entries|))
    else if a.term > s.term then StepDown(s, a.term)
    else if a.term == s.term then BackUp(s, peer, r, a)
    else s
  }

  function StartCommand(s: Node, command: Command): Node
    requires NodeOk(s) && s.role == Leader
  {
    var e := Entry(|s.log|, s.term, Some(command));
    RecordMatch(s.(log := s.log + [e]), s.me, e.index)
  }

  // ---------- snapshots ----------

  function CompactTo(s: Node, index: int): Node
    requires index < |s.log|
  {
    if index <= s.base then s else s.(base := index)
  }

  function MakeSnapshotRequest(s: Node, history: Log): SnapshotRequest
    requires NodeOk(s)
  {
    SnapshotRequest(s.term, s.me, s.base, s.log[s.base].term, history)
  }

  /** The handler only adopts the term and says whether to hand the snapshot to the service. */
  function HandleSnapshotRequest(s: Node, r: SnapshotRequest): (Node, nat, bool) {
    if r.term < s.term then (s, s.term, false)
    else
      (if r.term > s.term then StepDown(s, r.term) else s.(role := Follower), s.term, r.lastIncludedIndex > s.commit)
  }

  function HandleSnapshotResponse(s: Node, peer: nat, r: SnapshotRequest, responseTerm: nat): Node
    requires NodeOk(s) && peer < s.peers
  {
    if s.role != Leader || s.term != r.term then s
    else if responseTerm > s.term then s.(role := Follower)
    else RecordMatch(s, peer, r.lastIncludedIndex)
  }

  /** The service switches to a snapshot; entries above it are kept unexamined. */
  function CondInstall(s: Node, history: Log): (Node, bool) {
    if |history| - 1 <= s.commit then (s, false)
    else
      (s.(log := Installed(s.log, history), base := |history| - 1, commit := |history| - 1,
        lastApplied := |history| - 1),
       true)
  }

  // ---------- delivery ----------

  predicate CanDeliver(s: Node) {
    s.base <= s.lastApplied < s.commit < |s.log|
  }

  function Deliverable(s: Node): seq<Entry>
    requires CanDeliver(s)
  {
    s.log[s.lastApplied + 1..s.commit + 1]
  }

  function Delivered(s: Node, commit: nat): Node {
    s.(lastApplied := Max(s.lastApplied, commit))
  }
}
