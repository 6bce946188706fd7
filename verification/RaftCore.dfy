/** The protocol reduced to what its safety argument needs: the servers, and a
    history recording the log of the leader of each term, who that leader is, every
    vote ever cast, the log each candidate campaigned with, and the highest index
    each server acknowledged to the leader of each term. */
module RaftCore {
  import opened Prelude
  import opened RaftLog

  datatype Server = Server(role: Role, term: nat, log: Log, commit: nat)

  datatype Campaign = Campaign(log: Log, commit: nat)

  /** Votes and acknowledgements are keyed by (server, term), campaigns by (candidate, term). */
  datatype History = History(
    size: nat,
    leaderLog: map<nat, Log>,
    leaderOf: map<nat, nat>,
    ballots: map<(nat, nat), nat>,
    campaigns: map<(nat, nat), Campaign>,
    acks: map<(nat, nat), nat>)

  datatype Core = Core(servers: seq<Server>, h: History)

  // ---------- what the histories mean ----------

  ghost predicate Backed(h: History, log: seq<Entry>, i: nat)
    requires i < |log|
  {
    log[i].term in h.leaderLog && log[..i + 1] <= h.leaderLog[log[i].term]
  }

  /** Every entry of the log is backed by the leader of its term: the log agrees
      with that leader's log up to and including the entry. */
  ghost predicate Sound(h: History, log: seq<Entry>) {
    Indexed(log) && forall i :: 1 <= i < |log| ==> Backed(h, log, i)
  }

  ghost predicate AckedTo(h: History, v: nat, t: nat, j: nat) {
    (v, t) in h.acks && h.acks[(v, t)] >= j
  }

  /** Index j of term t's leader log is an entry of term t itself. */
  ghost predicate OwnEntry(h: History, t: nat, j: nat) {
    t in h.leaderLog && 1 <= j < |h.leaderLog[t]| && h.leaderLog[t][j].term == t
  }

  ghost predicate AllAcked(h: History, q: set<nat>, t: nat, j: nat) {
    forall v :: v in q ==> AckedTo(h, v, t, j)
  }

  /** The leader of term t may count index j as committed. */
  ghost predicate Committed(h: History, t: nat, j: nat) {
    OwnEntry(h, t, j) && exists q :: Quorum(h.size, q) && AllAcked(h, q, t, j)
  }

  /** Entry i was overtaken: the leader of term t, which committed up to j, is newer
      and holds something else at i. */
  ghost predicate Outdated(h: History, log: seq<Entry>, i: nat, t: nat, j: nat)
    requires i < |log| && t in h.leaderLog && j < |h.leaderLog[t]|
  {
    log[i].term < t && (i <= j ==> log[i].term != h.leaderLog[t][i].term)
  }

  ghost predicate StaleBy(h: History, log: seq<Entry>, k: nat, t: nat, j: nat) {
    && Committed(h, t, j) && k <= j && k < |log|
    && log[..k + 1] <= h.leaderLog[t]
    && forall i :: k < i < |log| ==> Outdated(h, log, i, t, j)
  }

  /** The shape an unchecked snapshot install can leave behind: committed up to k, and
      above k a leftover suffix that the committing leader had overtaken. */
  ghost predicate Stale(h: History, log: seq<Entry>, k: nat, bound: nat) {
    exists t: nat, j: nat :: t <= bound && StaleBy(h, log, k, t, j)
  }

  /** A server's log is sound, or committed up to its commit index with a stale rest. */
  ghost predicate Acceptable(h: History, log: seq<Entry>, commit: nat, bound: nat) {
    Indexed(log) && commit < |log| && (Sound(h, log) || Stale(h, log, commit, bound))
  }

  ghost predicate MayAck(c: Core, v: nat, t: nat, j: nat) {
    v < |c.servers| && (AckedTo(c.h, v, t, j) || c.servers[v].term <= t)
  }

  ghost predicate AllMayAck(c: Core, q: set<nat>, t: nat, j: nat) {
    forall v :: v in q ==> MayAck(c, v, t, j)
  }

  /** Index j of term t is committed or could still become so. */
  ghost predicate Choosable(c: Core, t: nat, j: nat) {
    OwnEntry(c.h, t, j) && exists q :: Quorum(c.h.size, q) && AllMayAck(c, q, t, j)
  }

  ghost predicate SafeBy(h: History, p: seq<Entry>, bound: nat, t: nat, j: nat) {
    t <= bound && Committed(h, t, j) && |p| <= j + 1 && p <= h.leaderLog[t]
  }

  /** The prefix p was committed by some leader of a term at most `bound`. */
  ghost predicate Safe(h: History, p: seq<Entry>, bound: nat) {
    p == [DUMMY] || (|p| >= 1 && exists t: nat, j: nat :: SafeBy(h, p, bound, t, j))
  }

  ghost predicate Lacks(h: History, t: nat, j: nat, u: nat)
    requires t in h.leaderLog && j < |h.leaderLog[t]|
  {
    u in h.leaderLog && t < u && !(h.leaderLog[t][..j + 1] <= h.leaderLog[u])
  }

  /** Some leader elected after term t, up to term `bound`, lacks entry j of term t. */
  ghost predicate Escapes(h: History, t: nat, j: nat, bound: nat)
    requires t in h.leaderLog && j < |h.leaderLog[t]|
  {
    exists u: nat :: Lacks(h, t, j, u) && u <= bound
  }

  /** The log contains the leader log up to j and ends at least as recently. */
  ghost predicate Holds(log: Log, lead: Log, j: nat)
    requires j < |lead|
  {
    lead[..j + 1] <= log && LastAtLeast(log, lead[j].term, j)
  }

  // ---------- the invariant ----------

  ghost predicate LeaderLogOk(h: History, t: nat) {
    t in h.leaderLog ==>
      && t >= 1
      && Sound(h, h.leaderLog[t])
      && Monotone(h.leaderLog[t])
      && (forall i :: 0 <= i < |h.leaderLog[t]| ==> h.leaderLog[t][i].term <= t)
  }

  ghost predicate Backers(h: History, q: set<nat>, t: nat, s: nat) {
    forall v :: v in q ==> (v, t) in h.ballots && h.ballots[(v, t)] == s
  }

  ghost predicate ElectedOk(h: History, t: nat) {
    t in h.leaderLog ==>
      && t in h.leaderOf && h.leaderOf[t] < h.size
      && exists q :: Quorum(h.size, q) && Backers(h, q, t, h.leaderOf[t])
  }

  ghost predicate ServerOk(c: Core, v: nat) {
    v < |c.servers| ==>
      var s := c.servers[v];
      && Acceptable(c.h, s.log, s.commit, s.term)
      && (forall i :: 0 <= i < |s.log| ==> s.log[i].term <= s.term)
      && Safe(c.h, s.log[..s.commit + 1], s.term)
      && (s.role == Leader ==>
            s.term in c.h.leaderLog && s.term in c.h.leaderOf && c.h.leaderOf[s.term] == v
              && s.log == c.h.leaderLog[s.term])
      && (s.role == Candidate ==>
            && (v, s.term) in c.h.campaigns && (v, s.term) in c.h.ballots && c.h.ballots[(v, s.term)] == v
            && !(s.term in c.h.leaderLog && s.term in c.h.leaderOf && c.h.leaderOf[s.term] == v))
  }

  ghost predicate BallotOk(c: Core, v: nat, t: nat) {
    (v, t) in c.h.ballots ==>
      && v < |c.servers| && t <= c.servers[v].term
      && c.h.ballots[(v, t)] < |c.servers| && (c.h.ballots[(v, t)], t) in c.h.campaigns
  }

  ghost predicate CampaignOk(c: Core, s: nat, t: nat) {
    (s, t) in c.h.campaigns ==>
      var e := c.h.campaigns[(s, t)];
      && s < |c.servers| && 1 <= t <= c.servers[s].term
      && Acceptable(c.h, e.log, e.commit, t - 1)
      && Safe(c.h, e.log[..e.commit + 1], t - 1)
      && (forall i :: 0 <= i < |e.log| ==> e.log[i].term < t)
  }

  ghost predicate AckOk(c: Core, v: nat, t: nat) {
    (v, t) in c.h.acks ==>
      v < |c.servers| && t in c.h.leaderLog && c.h.acks[(v, t)] < |c.h.leaderLog[t]| && t <= c.servers[v].term
  }

  /** What a server acknowledged it still holds, unless a later leader lacked it. */
  ghost predicate AckHeld(c: Core, v: nat, t: nat, j: nat) {
    v < |c.servers| && t in c.h.leaderLog && j < |c.h.leaderLog[t]| && AckedTo(c.h, v, t, j) ==>
      || Escapes(c.h, t, j, c.servers[v].term)
      || Holds(c.servers[v].log, c.h.leaderLog[t], j)
  }

  /** A vote was cast only for a log at least as recent as what the voter had acknowledged. */
  ghost predicate VoteChecked(h: History, v: nat, u: nat, t: nat, j: nat) {
    && (v, u) in h.ballots && (h.ballots[(v, u)], u) in h.campaigns
    && t < u && t in h.leaderLog && j < |h.leaderLog[t]| && AckedTo(h, v, t, j) ==>
      || Escapes(h, t, j, u)
      || LastAtLeast(h.campaigns[(h.ballots[(v, u)], u)].log, h.leaderLog[t][j].term, j)
  }

  /** Leader completeness: what could be committed in term t is in every later leader's log. */
  ghost predicate CompleteAt(c: Core, t: nat, j: nat, u: nat) {
    u in c.h.leaderLog && t < u && Choosable(c, t, j) ==> c.h.leaderLog[t][..j + 1] <= c.h.leaderLog[u]
  }

  /** A candidate whose term has no leader yet campaigns with its log, unless it has
      meanwhile installed a committed prefix its campaign log lacks. */
  ghost predicate CandidateOk(c: Core, v: nat) {
    && v < |c.servers| && c.servers[v].role == Candidate && c.servers[v].term !in c.h.leaderLog
    && (v, c.servers[v].term) in c.h.campaigns && c.servers[v].commit < |c.servers[v].log| ==>
      var s := c.servers[v];
      s.log == c.h.campaigns[(v, s.term)].log || !(s.log[..s.commit + 1] <= c.h.campaigns[(v, s.term)].log)
  }

  ghost predicate HistoryInv(h: History) {
    && (forall t: nat :: LeaderLogOk(h, t))
    && (forall t: nat :: ElectedOk(h, t))
    && (forall v: nat, u: nat, t: nat, j: nat :: VoteChecked(h, v, u, t, j))
  }

  ghost predicate RecordInv(c: Core) {
    && |c.servers| == c.h.size
    && (forall v: nat, t: nat :: BallotOk(c, v, t))
    && (forall s: nat, t: nat :: CampaignOk(c, s, t))
    && (forall v: nat, t: nat :: AckOk(c, v, t))
  }

  ghost predicate Inv(c: Core) {
    && HistoryInv(c.h)
    && RecordInv(c)
    && (forall v: nat :: ServerOk(c, v))
    && (forall v: nat :: CandidateOk(c, v))
    && (forall v: nat, t: nat, j: nat :: AckHeld(c, v, t, j))
    && (forall t: nat, j: nat, u: nat :: CompleteAt(c, t, j, u))
  }

  // ---------- the transitions ----------

  predicate Initial(c: Core) {
    && |c.servers| == c.h.size
    && (forall v :: 0 <= v < |c.servers| ==> c.servers[v] == Server(Follower, 0, [DUMMY], 0))
    && c.h == History(c.h.size, map[], map[], map[], map[], map[])
  }

  /** Adopt a term (or step down in the current one). */
  function Raise(c: Core, v: nat, t: nat): Core
    requires v < |c.servers|
  {
    c.(servers := c.servers[v := c.servers[v].(role := Follower, term := t)])
  }

  function StartCampaign(c: Core, v: nat): Core
    requires v < |c.servers|
  {
    var s := c.servers[v];
    c.(servers := c.servers[v := s.(role := Candidate, term := s.term + 1)],
       h := c.h.(ballots := c.h.ballots[(v, s.term + 1) := v],
                 campaigns := c.h.campaigns[(v, s.term + 1) := Campaign(s.log, s.commit)]))
  }

  predicate CanGrant(c: Core, v: nat, s: nat) {
    && v < |c.servers| && (s, c.servers[v].term) in c.h.campaigns
    && ((v, c.servers[v].term) in c.h.ballots ==> c.h.ballots[(v, c.servers[v].term)] == s)
    && var e := c.h.campaigns[(s, c.servers[v].term)];
       UpToDate(LastTerm(e.log), |e.log| - 1, c.servers[v].log)
  }

  function Grant(c: Core, v: nat, s: nat): Core
    requires v < |c.servers|
  {
    c.(h := c.h.(ballots := c.h.ballots[(v, c.servers[v].term) := s]))
  }

  ghost predicate CanWin(c: Core, s: nat, q: set<nat>) {
    && s < |c.servers| && c.servers[s].role == Candidate
    && Quorum(c.h.size, q) && Backers(c.h, q, c.servers[s].term, s)
  }

  function Win(c: Core, s: nat): Core
    requires s < |c.servers|
  {
    var t := c.servers[s].term;
    c.(servers := c.servers[s := c.servers[s].(role := Leader)],
       h := c.h.(leaderLog := c.h.leaderLog[t := c.servers[s].log], leaderOf := c.h.leaderOf[t := s]))
  }

  predicate CanAppend(c: Core, s: nat, e: Entry) {
    && s < |c.servers| && c.servers[s].role == Leader
    && e.term == c.servers[s].term && e.index == |c.servers[s].log|
  }

  function Append(c: Core, s: nat, e: Entry): Core
    requires s < |c.servers|
  {
    var log := c.servers[s].log + [e];
    var t := c.servers[s].term;
    c.(servers := c.servers[s := c.servers[s].(log := log)],
       h := c.h.(leaderLog := c.h.leaderLog[t := log], acks := c.h.acks[(s, t) := |log| - 1]))
  }

  /** The first m entries of the log of term t's leader were shipped in one request. */
  predicate Shipped(h: History, t: nat, m: nat) {
    && t in h.leaderLog && 1 <= m <= |h.leaderLog[t]|
    && forall i :: m <= i < |h.leaderLog[t]| ==> h.leaderLog[t][i].term == t
  }

  /** A server with a stale suffix acknowledges only what replaces that suffix. */
  ghost predicate CanAccept(c: Core, v: nat, m: nat) {
    && v < |c.servers| && c.servers[v].role == Follower && Shipped(c.h, c.servers[v].term, m)
    && (c.h.leaderLog[c.servers[v].term][..m] <= c.servers[v].log ==> Sound(c.h, c.servers[v].log))
  }

  function RaisedAck(h: History, v: nat, t: nat, j: nat): nat {
    if (v, t) in h.acks && h.acks[(v, t)] >= j then h.acks[(v, t)] else j
  }

  function Merged(log: Log, lead: Log): Log {
    if lead <= log then log else lead
  }

  function Accept(c: Core, v: nat, m: nat): Core
    requires v < |c.servers| && Shipped(c.h, c.servers[v].term, m)
  {
    var s := c.servers[v];
    c.(servers := c.servers[v := s.(log := Merged(s.log, c.h.leaderLog[s.term][..m]))],
       h := c.h.(acks := c.h.acks[(v, s.term) := RaisedAck(c.h, v, s.term, m - 1)]))
  }

  ghost predicate CanInstall(c: Core, v: nat, p: Log) {
    v < |c.servers| && |p| - 1 > c.servers[v].commit && Safe(c.h, p, c.servers[v].term)
  }

  function Install(c: Core, v: nat, p: Log): Core
    requires v < |c.servers|
  {
    var s := c.servers[v];
    c.(servers := c.servers[v := s.(log := Installed(s.log, p), commit := |p| - 1)])
  }

  ghost predicate CanCommit(c: Core, v: nat, k: nat) {
    && v < |c.servers| && c.servers[v].commit <= k < |c.servers[v].log|
    && Safe(c.h, c.servers[v].log[..k + 1], c.servers[v].term)
    && (k == c.servers[v].commit || Sound(c.h, c.servers[v].log))
  }

  function Commit(c: Core, v: nat, k: nat): Core
    requires v < |c.servers|
  {
    c.(servers := c.servers[v := c.servers[v].(commit := k)])
  }

  ghost predicate CanCrash(c: Core, v: nat, k: nat) {
    && v < |c.servers| && k <= c.servers[v].commit
    && (k == c.servers[v].commit || Sound(c.h, c.servers[v].log))
  }

  function Crash(c: Core, v: nat, k: nat): Core
    requires v < |c.servers|
  {
    c.(servers := c.servers[v := c.servers[v].(role := Follower, commit := k)])
  }
}
