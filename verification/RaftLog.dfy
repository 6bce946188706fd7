/** Log entries, logs, and the order in which RequestVote compares logs. */
module RaftLog {
  import opened Prelude
  import opened KvTypes

  datatype Role = Follower | Candidate | Leader

  /** One slot of a log; the dummy head carries no command. */
  datatype Entry = Entry(index: int, term: nat, command: Option<Command>)

  const DUMMY := Entry(0, 0, None)

  /** A full log: position i holds the entry with index i, position 0 the dummy. */
  type Log = s: seq<Entry> | |s| >= 1 witness [DUMMY]

  function LastTerm(log: Log): nat { log[|log| - 1].term }

  /** Every entry sits at its own index, behind the initial dummy. */
  predicate Indexed(log: seq<Entry>) {
    |log| >= 1 && log[0] == DUMMY && forall i :: 0 <= i < |log| ==> log[i].index == i
  }

  predicate Monotone(log: seq<Entry>) {
    forall i, j :: 0 <= i <= j < |log| ==> log[i].term <= log[j].term
  }

  /** The candidate's log, described by its last term and index, is at least as
      recent as the voter's. */
  predicate UpToDate(lastTerm: nat, lastIndex: int, voter: Log) {
    lastTerm > LastTerm(voter) || (lastTerm == LastTerm(voter) && lastIndex >= |voter| - 1)
  }

  /** The log's last entry is at least as recent as an entry with this term and index. */
  predicate LastAtLeast(log: Log, term: nat, index: int) {
    LastTerm(log) > term || (LastTerm(log) == term && |log| - 1 >= index)
  }

  lemma PrefixTransitive<T>(a: seq<T>, b: seq<T>, c: seq<T>)
    requires a <= b && b <= c
    ensures a <= c
  {
    assert forall i :: 0 <= i < |a| ==> a[i] == c[i];
  }

  /** Two prefixes of one sequence are ordered by length. */
  lemma PrefixesCompare<T>(a: seq<T>, b: seq<T>, c: seq<T>)
    requires a <= c && b <= c && |a| <= |b|
    ensures a <= b
  {
    assert forall i :: 0 <= i < |a| ==> a[i] == c[i] && b[i] == c[i];
  }

  /** Replace the log up to the snapshot, keeping whatever lay above it unexamined. */
  function Installed(log: Log, p: Log): Log {
    if |p| > |log| then p else p + log[|p|..]
  }
}
