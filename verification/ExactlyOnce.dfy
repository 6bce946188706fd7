/** Every write takes effect once, at its first copy in the log, exactly when the first copies
    of each client's writes are in the client's order. */
module ExactlyOnce {
  import opened KvTypes
  import opened KvServer

  predicate SameRequest(a: Command, b: Command) {
    IsWrite(a) && IsWrite(b) && a.clientId == b.clientId && a.commandId == b.commandId
  }

  /** Position i holds the first copy of a write. */
  ghost predicate IsFirst(log: seq<Command>, i: nat) {
    i < |log| && IsWrite(log[i]) && forall k :: 0 <= k < i ==> !SameRequest(log[k], log[i])
  }

  /** Each client's first copy of a write precedes the first copies of its later writes. */
  ghost predicate ClientOrder(log: seq<Command>) {
    forall i: nat, j: nat :: i < j && IsFirst(log, i) && IsFirst(log, j) && log[i].clientId == log[j].clientId ==>
      log[i].commandId < log[j].commandId
  }

  /** The first copies, in log order. */
  ghost function FirstCopies(log: seq<Command>): seq<Command> {
    if log == [] then []
    else
      var n := |log| - 1;
      FirstCopies(log[..n]) + (if IsFirst(log, n) then [log[n]] else [])
  }

  /** Whether the last command of the log takes effect when it is replayed. */
  ghost predicate TakesEffect(log: seq<Command>)
    requires log != []
  {
    var n := |log| - 1;
    IsWrite(log[n]) && !IsDuplicate(ReplayLog(log[..n]).lastOperations, log[n].clientId, log[n].commandId)
  }

  /** The writes that took effect, in log order. */
  ghost function Effective(log: seq<Command>): seq<Command> {
    if log == [] then []
    else Effective(log[..|log| - 1]) + (if TakesEffect(log) then [log[|log| - 1]] else [])
  }

  /** Executing commands one after the other, with no deduplication. */
  function Plain(log: seq<Command>): map<string, string> {
    if log == [] then map[] else Execute(Plain(log[..|log| - 1]), log[|log| - 1])
  }

  lemma PlainExtends(log: seq<Command>, c: Command)
    ensures Plain(log + [c]) == Execute(Plain(log), c)
  {
    assert (log + [c])[..|log|] == log;
  }

  /** The store is what executing the effective writes one after the other gives. */
  lemma {:induction false} StoreIsEffective(log: seq<Command>)
    ensures ReplayLog(log).store == Plain(Effective(log))
  {
    if log != [] {
      var n := |log| - 1;
      StoreIsEffective(log[..n]);
      PlainExtends(Effective(log[..n]), log[n]);
      assert Effective(log[..n]) + [] == Effective(log[..n]);
    }
  }

  ghost predicate WriteBy(log: seq<Command>, i: nat, client: int) {
    i < |log| && IsWrite(log[i]) && log[i].clientId == client
  }

  /** The table remembers, per client, the largest write in the log. */
  lemma {:induction false} TableIsMaximum(log: seq<Command>, client: int)
    ensures var ops := ReplayLog(log).lastOperations;
            && (client in ops <==> exists i: nat :: WriteBy(log, i, client))
            && (client in ops ==>
                  && (exists i: nat :: WriteBy(log, i, client) && log[i].commandId == ops[client].maxAppliedCommandId)
                  && forall i: nat :: WriteBy(log, i, client) ==> log[i].commandId <= ops[client].maxAppliedCommandId)
  {
    if log != [] {
      var n := |log| - 1;
      var init := log[..n];
      TableIsMaximum(init, client);
      assert forall i: nat :: i < n ==> (WriteBy(log, i, client) <==> WriteBy(init, i, client));
      assert IsWrite(log[n]) && log[n].clientId == client ==> WriteBy(log, n, client);
      if client in ReplayLog(init).lastOperations {
        var k: nat :| WriteBy(init, k, client)
          && init[k].commandId == ReplayLog(init).lastOperations[client].maxAppliedCommandId;
        assert WriteBy(log, k, client) && log[k].commandId == init[k].commandId;
      }
    }
  }

  /** The last command takes effect exactly when it is a write larger than all earlier ones of its client. */
  lemma EffectIffLargest(log: seq<Command>)
    requires log != []
    ensures var n := |log| - 1;
            TakesEffect(log) <==> IsWrite(log[n]) && forall i: nat :: i < n && WriteBy(log, i, log[n].clientId) ==>
              log[i].commandId < log[n].commandId
  {
    var n := |log| - 1;
    var init := log[..n];
    TableIsMaximum(init, log[n].clientId);
    assert forall i: nat :: i < n ==>
      (WriteBy(log, i, log[n].clientId) <==> WriteBy(init, i, log[n].clientId)) && init[i] == log[i];
    if IsWrite(log[n]) && log[n].clientId in ReplayLog(init).lastOperations {
      var k: nat :| WriteBy(init, k, log[n].clientId)
        && init[k].commandId == ReplayLog(init).lastOperations[log[n].clientId].maxAppliedCommandId;
      assert WriteBy(log, k, log[n].clientId);
    }
  }

  lemma EffectIsFirst(log: seq<Command>)
    requires log != [] && TakesEffect(log)
    ensures IsFirst(log, |log| - 1)
  {
    EffectIffLargest(log);
    var n := |log| - 1;
    forall k | 0 <= k < n ensures !SameRequest(log[k], log[n]) {
      if WriteBy(log, k, log[n].clientId) { assert log[k].commandId < log[n].commandId; }
    }
  }

  /** The earliest copy of the write at k. */
  lemma {:induction false} FirstCopyOf(log: seq<Command>, k: nat) returns (f: nat)
    requires k < |log| && IsWrite(log[k])
    ensures f <= k && IsFirst(log, f) && SameRequest(log[f], log[k])
  {
    if IsFirst(log, k) {
      f := k;
    } else {
      var j :| 0 <= j < k && SameRequest(log[j], log[k]);
      f := FirstCopyOf(log, j);
    }
  }

  lemma FirstInPrefix(log: seq<Command>, n: nat, i: nat)
    requires n <= |log| && i < n
    ensures IsFirst(log[..n], i) <==> IsFirst(log, i)
  {
  }

  lemma OrderOfPrefix(log: seq<Command>, n: nat)
    requires n <= |log| && ClientOrder(log)
    ensures ClientOrder(log[..n])
  {
    forall i: nat, j: nat | i < j && IsFirst(log[..n], i) && IsFirst(log[..n], j)
      && log[..n][i].clientId == log[..n][j].clientId
      ensures log[..n][i].commandId < log[..n][j].commandId
    {
      FirstInPrefix(log, n, i);
      FirstInPrefix(log, n, j);
    }
  }

  /** In an ordered log the last command takes effect exactly when it is a first copy. */
  lemma OrderedEffect(log: seq<Command>)
    requires log != [] && ClientOrder(log)
    ensures TakesEffect(log) <==> IsFirst(log, |log| - 1)
  {
    var n := |log| - 1;
    EffectIffLargest(log);
    if TakesEffect(log) { EffectIsFirst(log); }
    if IsFirst(log, n) {
      forall i: nat | i < n && WriteBy(log, i, log[n].clientId) ensures log[i].commandId < log[n].commandId {
        var f := FirstCopyOf(log, i);
        assert IsFirst(log, f) && IsFirst(log, n);
      }
    }
  }

  lemma {:induction false} OrderedGivesOnce(log: seq<Command>)
    requires ClientOrder(log)
    ensures Effective(log) == FirstCopies(log)
  {
    if log != [] {
      var n := |log| - 1;
      OrderOfPrefix(log, n);
      OrderedGivesOnce(log[..n]);
      OrderedEffect(log);
    }
  }

  lemma {:induction false} NoMoreThanFirst(log: seq<Command>)
    ensures |Effective(log)| <= |FirstCopies(log)|
  {
    if log != [] {
      NoMoreThanFirst(log[..|log| - 1]);
      if TakesEffect(log) { EffectIsFirst(log); }
    }
  }

  lemma OrderExtends(log: seq<Command>)
    requires log != [] && ClientOrder(log[..|log| - 1]) && (IsFirst(log, |log| - 1) ==> TakesEffect(log))
    ensures ClientOrder(log)
  {
    var n := |log| - 1;
    EffectIffLargest(log);
    forall i: nat, j: nat | i < j && IsFirst(log, i) && IsFirst(log, j) && log[i].clientId == log[j].clientId
      ensures log[i].commandId < log[j].commandId
    {
      FirstInPrefix(log, n, i);
      if j < n {
        FirstInPrefix(log, n, j);
        assert log[..n][i] == log[i] && log[..n][j] == log[j];
      } else {
        assert WriteBy(log, i, log[n].clientId);
      }
    }
  }

  lemma {:induction false} OnceGivesOrdered(log: seq<Command>)
    requires |Effective(log)| == |FirstCopies(log)|
    ensures ClientOrder(log)
  {
    if log != [] {
      NoMoreThanFirst(log[..|log| - 1]);
      if TakesEffect(log) { EffectIsFirst(log); }
      OnceGivesOrdered(log[..|log| - 1]);
      OrderExtends(log);
    }
  }

  /** Exactly once: the writes that take effect are the first copies of all the distinct writes
      in the log precisely when each client's first copies are in the client's order. */
  lemma ExactlyOnceIff(log: seq<Command>)
    ensures Effective(log) == FirstCopies(log) <==> ClientOrder(log)
  {
    if ClientOrder(log) { OrderedGivesOnce(log); }
    if Effective(log) == FirstCopies(log) { OnceGivesOrdered(log); }
  }

  /** A first copy that arrives after a later write of its client is dropped for good. */
  lemma LateWriteIsLost(first: Command, second: Command)
    requires IsWrite(first) && IsWrite(second) && first.clientId == second.clientId
             && first.commandId < second.commandId
    ensures Effective([second, first]) == [second] && FirstCopies([second, first]) == [second, first]
  {
    var log := [second, first];
    assert log[..1] == [second] && [second][..0] == [];
    EffectIffLargest(log);
    EffectIffLargest([second]);
    assert WriteBy(log, 0, first.clientId);
    assert IsFirst([second], 0) && IsFirst(log, 1);
    assert TakesEffect([second]) && !TakesEffect(log);
    assert Effective([second]) == Effective([]) + [second] && FirstCopies([second]) == FirstCopies([]) + [second];
  }

  /** Then the store is that of executing every distinct write once, and duplicates change nothing. */
  lemma ReplayIsPlainReplay(log: seq<Command>)
    requires ClientOrder(log)
    ensures ReplayLog(log).store == Plain(FirstCopies(log))
  {
    StoreIsEffective(log);
    OrderedGivesOnce(log);
  }

  /** Writes of one client that take effect do so in increasing order of their numbers, in any log. */
  lemma {:induction false} EffectiveInOrder(log: seq<Command>, i: nat, j: nat)
    requires i < j < |Effective(log)| && Effective(log)[i].clientId == Effective(log)[j].clientId
    ensures Effective(log)[i].commandId < Effective(log)[j].commandId
  {
    var n := |log| - 1;
    if j < |Effective(log[..n])| {
      EffectiveInOrder(log[..n], i, j);
    } else {
      var k := EffectivePosition(log[..n], i);
      EffectIffLargest(log);
      assert WriteBy(log, k, log[n].clientId);
    }
  }

  lemma {:induction false} EffectivePosition(log: seq<Command>, i: nat) returns (k: nat)
    requires i < |Effective(log)|
    ensures k < |log| && log[k] == Effective(log)[i] && IsWrite(log[k])
  {
    var n := |log| - 1;
    if i < |Effective(log[..n])| { k := EffectivePosition(log[..n], i); } else { k := n; }
  }
}
