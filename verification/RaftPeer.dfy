/** The Raft object itself: a log compacted behind a dummy head, updated in place.

    Each method is one critical section of the original; its contract equates the
    object's new state with the value-level handler applied to the old one, so the
    compacted log behaves as the full log whatever is discarded below the base. */
module RaftPeer {
  import opened Prelude
  import opened RaftLog
  import opened KvTypes
  import opened RaftNode
  import CommitRule

  /** What the persister holds. */
  datatype Saved = Saved(term: nat, votedFor: int, logs: seq<Entry>)

  /** `logs` is `full` without the entries below logs[0].index, and the entry at the
      head reduced to a dummy that keeps its index and term. */
  predicate Compacts(logs: seq<Entry>, full: seq<Entry>) {
    && |logs| >= 1 && 0 <= logs[0].index
    && logs[0].index + |logs| == |full|
    && logs[0] == Entry(logs[0].index, full[logs[0].index].term, None)
    && forall k :: 1 <= k < |logs| ==> logs[k] == full[logs[0].index + k]
  }

  class Raft {
    const me: nat
    const peers: nat
    var state: Role
    var currentTerm: nat
    var votedFor: int
    var grantedVotes: nat
    var logs: seq<Entry>
    var commitIndex: nat
    var lastApplied: nat
    var nextIndex: seq<int>
    var matchIndex: seq<int>
    var persister: Option<Saved>
    ghost var full: Log

    ghost predicate Valid()
      reads this
    {
      Compacts(logs, full) && NodeOk(View())
    }

    /** Before every release of the lock the persister holds the current term, vote and log. */
    ghost predicate Durable()
      reads this
    {
      match persister
      case None => currentTerm == 0 && votedFor == NOBODY && logs == [DUMMY]
      case Some(saved) => saved == Saved(currentTerm, votedFor, logs)
    }

    ghost function View(): Node
      reads this
      requires Compacts(logs, full)
    {
      Node(me, peers, state, currentTerm, votedFor, grantedVotes, full, logs[0].index, commitIndex, lastApplied,
           nextIndex, matchIndex)
    }

    constructor (me: nat, peers: nat)
      requires me < peers
      ensures Valid() && Durable() && View() == InitialNode(me, peers)
    {
      this.me, this.peers := me, peers;
      state, currentTerm, votedFor, grantedVotes := Follower, 0, NOBODY, 0;
      logs, full := [DUMMY], [DUMMY];
      commitIndex, lastApplied := 0, 0;
      nextIndex, matchIndex := seq(peers, _ => 1), seq(peers, _ => 0);
      persister := None;
    }

    method Persist()
      modifies this`persister
      ensures Durable()
    {
      persister := Some(Saved(currentTerm, votedFor, logs));
    }

    /** Crash and restart: only what the persister holds survives. */
    method ReadPersist()
      requires Valid() && Durable()
      modifies this
      ensures Valid() && Durable() && View() == Restart(old(View()))
    {
      match persister {
        case None =>
          currentTerm, votedFor, logs := 0, NOBODY, [DUMMY];
        case Some(saved) =>
          currentTerm, votedFor, logs := saved.term, saved.votedFor, saved.logs;
      }
      state, grantedVotes := Follower, 0;
      lastApplied, commitIndex := logs[0].index, logs[0].index;
      var last := logs[|logs| - 1].index;
      nextIndex, matchIndex := seq(peers, _ => last + 1), seq(peers, _ => 0);
    }

    method ElectionTimeout() returns (r: VoteRequest)
      requires Valid() && Durable()
      modifies this
      ensures Valid() && Durable()
      ensures View() == RaftNode.ElectionTimeout(old(View())) && r == MakeVoteRequest(View())
    {
      state := Candidate;
      currentTerm := currentTerm + 1;
      var lastLog := logs[|logs| - 1];
      r := VoteRequest(currentTerm, me, lastLog.index, lastLog.term);
      grantedVotes := 1;
      votedFor := me;
      Persist();
    }

    method RequestVote(r: VoteRequest) returns (a: VoteResponse)
      requires Valid() && Durable()
      modifies this
      ensures Valid() && Durable()
      ensures (View(), a) == HandleVoteRequest(old(View()), r)
      ensures var last := full[|full| - 1];
              a.voteGranted <==>
                && (r.term > old(currentTerm)
                    || (r.term == old(currentTerm) && (old(votedFor) == NOBODY || old(votedFor) == r.candidateId)))
                && (r.lastLogTerm > last.term || (r.lastLogTerm == last.term && r.lastLogIndex >= |full| - 1))
    {
      if r.term < currentTerm || (r.term == currentTerm && votedFor != NOBODY && votedFor != r.candidateId) {
        a := VoteResponse(currentTerm, false);
        Persist();
        return;
      }
      if r.term > currentTerm {
        state := Follower;
        currentTerm, votedFor := r.term, NOBODY;
      }
      var lastLog := logs[|logs| - 1];
      if !(r.lastLogTerm > lastLog.term || (r.lastLogTerm == lastLog.term && r.lastLogIndex >= lastLog.index)) {
        a := VoteResponse(currentTerm, false);
        Persist();
        return;
      }
      votedFor := r.candidateId;
      a := VoteResponse(currentTerm, true);
      Persist();
    }

    method BecomeLeader()
      requires Valid()
      modifies this`state, this`nextIndex, this`matchIndex
      ensures Valid() && View() == RaftNode.BecomeLeader(old(View()))
    {
      state := Leader;
      var last := logs[|logs| - 1].index;
      matchIndex, nextIndex := seq(peers, _ => 0), seq(peers, _ => last + 1);
    }

    method ReceiveVote(requestTerm: nat, a: VoteResponse)
      requires Valid() && Durable()
      modifies this
      ensures Valid() && Durable()
      ensures View() == HandleVoteResponse(old(View()), requestTerm, a)
    {
      if currentTerm == requestTerm && state == Candidate {
        if a.voteGranted {
          grantedVotes := grantedVotes + 1;
          if grantedVotes > peers / 2 {
            BecomeLeader();
          }
        } else if a.term > currentTerm {
          state := Follower;
          currentTerm, votedFor := a.term, NOBODY;
          Persist();
        }
      }
    }

    /** The rejection hints: where the follower's log ends or its conflicting term begins. */
    method Conflict(prev: int) returns (index: int, term: int)
      requires Valid() && logs[0].index <= prev
      ensures |full| <= prev ==> index == |full| && term == -1
      ensures prev < |full| ==>
                term == full[prev].term && index == ScanBack(full, logs[0].index, prev - 1, full[prev].term)
    {
      var lastIndex := logs[|logs| - 1].index;
      if lastIndex < prev {
        return lastIndex + 1, -1;
      }
      var first := logs[0].index;
      term := logs[prev - first].term;
      index := prev - 1;
      while index >= first && logs[index - first].term == term
        invariant first - 1 <= index < prev
        invariant ScanBack(full, first, index, full[prev].term) == ScanBack(full, first, prev - 1, full[prev].term)
      {
        index := index - 1;
      }
    }

    /** Find the first entry that is missing or conflicts and replace the tail from there. */
    method MergeLog(prev: int, entries: seq<Entry>)
      requires Valid() && Contiguous(prev, entries) && logs[0].index <= prev < |full|
      modifies this`logs, this`full
      ensures Valid() && View() == old(View()).(log := MergeEntries(old(full), entries))
    {
      var first := logs[0].index;
      var k := 0;
      while k < |entries|
        invariant 0 <= k <= |entries| && prev + 1 + k <= |full|
        invariant logs == old(logs) && full == old(full)
        invariant MergeEntries(full, entries[k..]) == MergeEntries(full, entries)
      {
        var entry := entries[k];
        if entry.index - first >= |logs| || logs[entry.index - first].term != entry.term {
          logs := logs[..entry.index - first] + entries[k..];
          full := full[..entry.index] + entries[k..];
          return;
        }
        assert entries[k..][1..] == entries[k + 1..];
        k := k + 1;
      }
    }

    method AdvanceCommitIndexForFollower(leaderCommit: nat)
      requires Valid()
      modifies this`commitIndex
      ensures Valid() && View() == AdvanceFollower(old(View()), leaderCommit)
    {
      var newCommitIndex := Min(leaderCommit, logs[|logs| - 1].index);
      if newCommitIndex > commitIndex {
        commitIndex := newCommitIndex;
      }
    }

    /** The consistency check and, if it passes, the merge. */
    method Replicate(r: AppendRequest) returns (a: AppendResponse)
      requires Valid() && AppendFits(r) && r.term == currentTerm && state == Follower
      modifies this`logs, this`full, this`commitIndex
      ensures Valid() && (View(), a) == HandleAppendRequest(old(View()), r)
    {
      if r.prevLogIndex < logs[0].index {
        return AppendResponse(0, false, 0, 0);
      }
      var first := logs[0].index;
      if !(r.prevLogIndex <= logs[|logs| - 1].index && logs[r.prevLogIndex - first].term == r.prevLogTerm) {
        var index, term := Conflict(r.prevLogIndex);
        return AppendResponse(currentTerm, false, index, term);
      }
      MergeLog(r.prevLogIndex, r.entries);
      AdvanceCommitIndexForFollower(r.leaderCommit);
      a := AppendResponse(currentTerm, true, 0, 0);
    }

    method AppendEntries(r: AppendRequest) returns (a: AppendResponse)
      requires Valid() && Durable() && AppendFits(r)
      modifies this
      ensures Valid() && Durable()
      ensures (View(), a) == HandleAppendRequest(old(View()), r)
    {
      if r.term < currentTerm {
        a := AppendResponse(currentTerm, false, 0, 0);
        Persist();
        return;
      }
      if r.term > currentTerm {
        currentTerm, votedFor := r.term, NOBODY;
      }
      state := Follower;
      a := Replicate(r);
      Persist();
    }

    method GenAppendEntriesRequest(peer: nat) returns (r: AppendRequest)
      requires Valid() && CanSendAppend(View(), peer)
      ensures r == MakeAppendRequest(View(), peer)
    {
      var prev := nextIndex[peer] - 1;
      var first := logs[0].index;
      r := AppendRequest(currentTerm, me, prev, logs[prev - first].term, commitIndex, logs[prev + 1 - first..]);
      assert logs[prev + 1 - first..] == full[prev + 1..];
    }

    method AdvanceCommitIndexForLeader()
      requires Valid()
      modifies this`commitIndex
      ensures Valid() && View() == AdvanceLeader(old(View()))
    {
      var n := CommitRule.MajorityIndex(matchIndex);
      CommitRule.MajorityIndexUnique(matchIndex, n, CommitRule.HighestMatched(matchIndex));
      if n > commitIndex {
        if n <= logs[|logs| - 1].index && logs[n - logs[0].index].term == currentTerm {
          commitIndex := n;
        }
      }
    }

    /** After a rejection, resume at the last own entry of the conflicting term, if there is one. */
    method BackUpNextIndex(peer: nat, r: AppendRequest, a: AppendResponse)
      requires Valid() && ReplyFits(View(), peer, r) && state == Leader && currentTerm == r.term
      modifies this`nextIndex
      ensures Valid() && View() == BackUp(old(View()), peer, r, a)
    {
      nextIndex := nextIndex[peer := a.conflictIndex];
      if a.conflictTerm != -1 {
        var first := logs[0].index;
        var i := r.prevLogIndex;
        while i >= first
          invariant i <= r.prevLogIndex
          invariant FindTerm(full, first, i, a.conflictTerm) == FindTerm(full, first, r.prevLogIndex, a.conflictTerm)
          invariant nextIndex == old(nextIndex)[peer := a.conflictIndex]
        {
          if logs[i - first].term == a.conflictTerm {
            nextIndex := nextIndex[peer := i + 1];
            return;
          }
          i := i - 1;
        }
      }
    }

    method HandleAppendEntriesResponse(peer: nat, r: AppendRequest, a: AppendResponse)
      requires Valid() && Durable() && ReplyFits(View(), peer, r)
      modifies this
      ensures Valid() && Durable()
      ensures View() == HandleAppendResponse(old(View()), peer, r, a)
    {
      if state == Leader && currentTerm == r.term {
        if a.success {
          matchIndex := matchIndex[peer := r.prevLogIndex + |r.entries|];
          nextIndex := nextIndex[peer := matchIndex[peer] + 1];
          AdvanceCommitIndexForLeader();
        } else if a.term > currentTerm {
          state := Follower;
          currentTerm, votedFor := a.term, NOBODY;
          Persist();
        } else if a.term == currentTerm {
          BackUpNextIndex(peer, r, a);
        }
      }
    }

    method Start(command: Command) returns (index: int, term: int, isLeader: bool)
      requires Valid() && Durable()
      modifies this
      ensures Valid() && Durable() && isLeader == (old(state) == Leader)
      ensures !isLeader ==> index == -1 && term == -1 && View() == old(View())
      ensures isLeader ==> index == |old(full)| && term == currentTerm && View() == StartCommand(old(View()), command)
    {
      if state != Leader {
        return -1, -1, false;
      }
      var newLog := Entry(logs[|logs| - 1].index + 1, currentTerm, Some(command));
      logs := logs + [newLog];
      full := full + [newLog];
      matchIndex, nextIndex := matchIndex[me := newLog.index], nextIndex[me := newLog.index + 1];
      Persist();
      return newLog.index, newLog.term, true;
    }

    /** Drop the log below the entry at index, which becomes the dummy head. */
    method DiscardBelow(index: int)
      requires Valid() && logs[0].index <= index < |full|
      modifies this`logs
      ensures Compacts(logs, full) && logs[0].index == index
    {
      logs := logs[index - logs[0].index..];
      logs := logs[0 := logs[0].(command := None)];
    }

    /** The service has a snapshot up to index: discard the log below it.  The peer stays well-formed
        as long as the service asks for no more than what is committed, which is not tested here. */
    method Snapshot(index: int)
      requires Valid() && Durable() && index < |full|
      modifies this
      ensures Compacts(logs, full) && Durable() && View() == CompactTo(old(View()), index)
      ensures Valid() <==> index <= commitIndex || index <= old(logs[0].index)
      ensures logs[0].index == Max(old(logs[0].index), index) && full == old(full)
    {
      if index <= logs[0].index {
        return;
      }
      DiscardBelow(index);
      Persist();
    }

    /** The request for a peer that is too far behind; data is the persisted snapshot. */
    method GenInstallSnapshotRequest(data: Log) returns (r: SnapshotRequest)
      requires Valid()
      ensures r == MakeSnapshotRequest(View(), data)
    {
      var firstLog := logs[0];
      return SnapshotRequest(currentTerm, me, firstLog.index, firstLog.term, data);
    }

    method InstallSnapshot(r: SnapshotRequest) returns (responseTerm: nat, handOver: bool)
      requires Valid() && Durable()
      modifies this
      ensures Valid() && Durable()
      ensures (View(), responseTerm, handOver) == HandleSnapshotRequest(old(View()), r)
    {
      responseTerm := currentTerm;
      if r.term < currentTerm {
        return responseTerm, false;
      }
      if r.term > currentTerm {
        currentTerm := r.term;
        votedFor := NOBODY;
        Persist();
      }
      state := Follower;
      if r.lastIncludedIndex <= commitIndex {
        return responseTerm, false;
      }
      handOver := true;
    }

    method HandleInstallSnapshotResponse(peer: nat, r: SnapshotRequest, responseTerm: nat)
      requires Valid() && Durable() && peer < peers
      modifies this
      ensures Valid() && Durable()
      ensures View() == HandleSnapshotResponse(old(View()), peer, r, responseTerm)
    {
      if state == Leader && currentTerm == r.term {
        if responseTerm > currentTerm {
          state := Follower;
        } else {
          matchIndex, nextIndex := matchIndex[peer := r.lastIncludedIndex], nextIndex[peer := r.lastIncludedIndex + 1];
        }
      }
    }

    /** Replace the head by the snapshot's, keeping what lies above it unexamined. */
    method SwitchTo(term: nat, index: int, ghost history: Log)
      requires Valid() && Indexed(history) && index == |history| - 1 && term == LastTerm(history)
      requires logs[0].index <= commitIndex < index
      modifies this`logs, this`full
      ensures Compacts(logs, full) && Indexed(full) && full == Installed(old(full), history) && logs[0].index == index
    {
      if index > logs[|logs| - 1].index {
        logs := [Entry(0, 0, None)];
      } else {
        logs := logs[index - logs[0].index..];
        logs := logs[0 := logs[0].(command := None)];
      }
      full := Installed(full, history);
      logs := logs[0 := logs[0].(term := term, index := index)];
    }

    /** The service offers a snapshot; refused if the log has already committed past it. */
    method CondInstallSnapshot(lastIncludedTerm: nat, lastIncludedIndex: int, ghost history: Log) returns (ok: bool)
      requires Valid() && Durable() && Indexed(history)
      requires lastIncludedIndex == |history| - 1 && lastIncludedTerm == LastTerm(history)
      modifies this
      ensures Valid() && Durable()
      ensures (View(), ok) == CondInstall(old(View()), history)
    {
      if lastIncludedIndex <= commitIndex {
        return false;
      }
      SwitchTo(lastIncludedTerm, lastIncludedIndex, history);
      lastApplied, commitIndex := lastIncludedIndex, lastIncludedIndex;
      Persist();
      ok := true;
    }

    /** The applier copies out what is committed but not yet delivered. */
    method CollectCommitted() returns (entries: seq<Entry>)
      requires Valid() && CanDeliver(View())
      ensures entries == Deliverable(View())
    {
      var first := logs[0].index;
      entries := logs[lastApplied + 1 - first..commitIndex + 1 - first];
    }

    method FinishDelivery(commit: nat)
      requires Valid() && Durable()
      modifies this
      ensures Valid() && Durable() && View() == Delivered(old(View()), commit)
      ensures lastApplied == if commit > old(lastApplied) then commit else old(lastApplied)
    {
      lastApplied := Max(lastApplied, commit);
    }
  }
}
