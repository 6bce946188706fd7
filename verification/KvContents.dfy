/** What a key holds, described by the writes themselves: the value of the last put to it followed by the
    values of all later appends.  Once for the model that histories are checked against, once for the
    log the servers replay, and the proof that the two agree operation by operation. */
module KvContents {
  import opened Linearizability
  import opened KvModel
  import opened KvTypes
  import opened KvServer
  import opened ExactlyOnce

  // ---------- the model ----------

  /** Position i of the order holds a put to this key. */
  predicate PutAt(ops: seq<KvOperation>, order: seq<nat>, k: string, i: nat)
    requires InRange(order, |ops|)
  {
    i < |order| && ops[order[i]].input.op == 1 && ops[order[i]].input.key == k
  }

  predicate AppendAt(ops: seq<KvOperation>, order: seq<nat>, k: string, i: nat)
    requires InRange(order, |ops|)
  {
    i < |order| && ops[order[i]].input.op >= 2 && ops[order[i]].input.key == k
  }

  /** The values of the appends to k at positions from `from` on, one after the other. */
  function Appended(ops: seq<KvOperation>, order: seq<nat>, k: string, from: nat): string
    requires InRange(order, |ops|)
    decreases |order| - from
  {
    if from >= |order| then ""
    else (if AppendAt(ops, order, k, from) then ops[order[from]].input.value
      else "") + Appended(ops, order, k, from + 1)
  }

  ghost predicate LastPutAt(ops: seq<KvOperation>, order: seq<nat>, k: string, i: nat)
    requires InRange(order, |ops|)
  {
    PutAt(ops, order, k, i) && forall j: nat :: j > i ==> !PutAt(ops, order, k, j)
  }

  /** If the last put to k is at i, then v is its value followed by the later appends. */
  ghost predicate PutGives(ops: seq<KvOperation>, order: seq<nat>, k: string, v: string, i: nat)
    requires InRange(order, |ops|)
  {
    LastPutAt(ops, order, k, i) ==> v == ops[order[i]].input.value + Appended(ops, order, k, i + 1)
  }

  ghost predicate NeverPut(ops: seq<KvOperation>, order: seq<nat>, k: string)
    requires InRange(order, |ops|)
  {
    forall i: nat :: !PutAt(ops, order, k, i)
  }

  /** v is the value of the last put to k followed by the later appends, or all appends if there is no put. */
  ghost predicate HoldsAfter(ops: seq<KvOperation>, order: seq<nat>, k: string, v: string)
    requires InRange(order, |ops|)
  {
    && (forall i: nat :: PutGives(ops, order, k, v, i))
    && (NeverPut(ops, order, k) ==> v == Appended(ops, order, k, 0))
  }

  lemma {:induction false} AppendedExtends(ops: seq<KvOperation>, order: seq<nat>, a: nat, k: string, from: nat)
    requires InRange(order, |ops|) && a < |ops| && from <= |order|
    ensures InRange(order + [a], |ops|)
    ensures Appended(ops, order + [a], k, from) ==
            Appended(ops, order, k, from) + (if ops[a].input.op >= 2 && ops[a].input.key == k then ops[a].input.value
              else "")
    decreases |order| - from
  {
    var more := order + [a];
    if from < |order| {
      AppendedExtends(ops, order, a, k, from + 1);
      assert AppendAt(ops, more, k, from) <==> AppendAt(ops, order, k, from);
    } else {
      assert Appended(ops, more, k, from + 1) == "";
    }
  }

  lemma PutsExtend(ops: seq<KvOperation>, order: seq<nat>, a: nat, k: string, i: nat)
    requires InRange(order, |ops|) && a < |ops|
    ensures InRange(order + [a], |ops|)
    ensures PutAt(ops, order + [a], k, i) <==>
            PutAt(ops, order, k, i) || (i == |order| && ops[a].input.op == 1 && ops[a].input.key == k)
  {
  }

  /** What one more operation does to what a key holds. */
  lemma HoldsExtends(ops: seq<KvOperation>, order: seq<nat>, a: nat, k: string, v: string)
    requires InRange(order, |ops|) && a < |ops| && HoldsAfter(ops, order, k, v)
    ensures InRange(order + [a], |ops|)
    ensures var inp := ops[a].input;
            HoldsAfter(ops, order + [a], k,
                       if inp.key != k || inp.op == 0 then v else if inp.op == 1 then inp.value else v + inp.value)
  {
    var more, inp := order + [a], ops[a].input;
    if inp.key == k && inp.op == 1 {
      PutReplaces(ops, order, a, k);
    } else {
      var x := if inp.key == k && inp.op >= 2 then inp.value else "";
      assert v + "" == v;
      forall i: nat ensures PutGives(ops, more, k, v + x, i) { PutGivesMore(ops, order, a, k, v, i); }
      AppendedExtends(ops, order, a, k, 0);
      if NeverPut(ops, more, k) {
        forall i: nat ensures !PutAt(ops, order, k, i) { PutsExtend(ops, order, a, k, i); }
      }
    }
  }

  lemma PutGivesMore(ops: seq<KvOperation>, order: seq<nat>, a: nat, k: string, v: string, i: nat)
    requires InRange(order, |ops|) && a < |ops| && !(ops[a].input.op == 1 && ops[a].input.key == k)
    requires HoldsAfter(ops, order, k, v)
    ensures InRange(order + [a], |ops|)
    ensures PutGives(ops, order + [a], k,
            v + (if ops[a].input.key == k && ops[a].input.op >= 2 then ops[a].input.value else ""), i)
  {
    if LastPutAt(ops, order + [a], k, i) {
      LastPutKept(ops, order, a, k, i);
      assert PutGives(ops, order, k, v, i);
      AppendedExtends(ops, order, a, k, i + 1);
      Associates(ops[order[i]].input.value, Appended(ops, order, k, i + 1),
                 if ops[a].input.key == k && ops[a].input.op >= 2 then ops[a].input.value else "");
    }
  }

  lemma Associates(a: string, b: string, c: string)
    ensures (a + b) + c == a + (b + c)
  {
  }

  lemma LastPutKept(ops: seq<KvOperation>, order: seq<nat>, a: nat, k: string, i: nat)
    requires InRange(order, |ops|) && a < |ops| && !(ops[a].input.op == 1 && ops[a].input.key == k)
    requires InRange(order + [a], |ops|) && LastPutAt(ops, order + [a], k, i)
    ensures LastPutAt(ops, order, k, i)
  {
    PutsExtend(ops, order, a, k, i);
    forall j: nat | j > i ensures !PutAt(ops, order, k, j) { PutsExtend(ops, order, a, k, j); }
  }

  lemma PutReplaces(ops: seq<KvOperation>, order: seq<nat>, a: nat, k: string)
    requires InRange(order, |ops|) && a < |ops| && ops[a].input.op == 1 && ops[a].input.key == k
    ensures InRange(order + [a], |ops|) && HoldsAfter(ops, order + [a], k, ops[a].input.value)
  {
    var more := order + [a];
    assert PutAt(ops, more, k, |order|);
    assert Appended(ops, more, k, |order| + 1) == "";
    forall i: nat ensures PutGives(ops, more, k, ops[a].input.value, i) {
      if LastPutAt(ops, more, k, i) { assert i >= |order|; }
    }
  }

  lemma HoldsAtStart(ops: seq<KvOperation>, k: string)
    ensures HoldsAfter(ops, [], k, "")
  {
  }

  /** In every order the store accepts, each key holds its last put followed by the later appends. */
  lemma {:induction false} StoreHolds(ops: seq<KvOperation>, order: seq<nat>, k: string)
    requires InRange(order, |ops|) && Replay(StoreModel(), ops, order).Some?
    ensures HoldsAfter(ops, order, k, Lookup(Replay(StoreModel(), ops, order).value, k))
  {
    if order == [] {
      HoldsAtStart(ops, k);
    } else {
      var init, a := order[..|order| - 1], order[|order| - 1];
      StoreHolds(ops, init, k);
      var store := Replay(StoreModel(), ops, init).value;
      HoldsExtends(ops, init, a, k, Lookup(store, k));
      assert init + [a] == order;
    }
  }

  lemma {:induction false} LastPutExists(ops: seq<KvOperation>, order: seq<nat>, k: string, i: nat) returns (p: nat)
    requires InRange(order, |ops|) && PutAt(ops, order, k, i)
    ensures LastPutAt(ops, order, k, p)
    decreases |order| - i
  {
    if j: nat :| j > i && PutAt(ops, order, k, j) { p := LastPutExists(ops, order, k, j); } else { p := i; }
  }

  /** There is only one such value. */
  lemma HoldsUnique(ops: seq<KvOperation>, order: seq<nat>, k: string, v: string, w: string)
    requires InRange(order, |ops|) && HoldsAfter(ops, order, k, v) && HoldsAfter(ops, order, k, w)
    ensures v == w
  {
    if i: nat :| PutAt(ops, order, k, i) {
      var p := LastPutExists(ops, order, k, i);
      assert PutGives(ops, order, k, v, p) && PutGives(ops, order, k, w, p);
    }
  }

  /** After an accepted order, a write is always accepted, and a get exactly when its output is what its
      key holds. */
  lemma AcceptedIff(ops: seq<KvOperation>, order: seq<nat>, a: nat)
    requires InRange(order, |ops|) && a < |ops| && Replay(StoreModel(), ops, order).Some?
    ensures InRange(order + [a], |ops|)
    ensures Replay(StoreModel(), ops, order + [a]).Some? <==>
            ops[a].input.op == 0 ==> HoldsAfter(ops, order, ops[a].input.key, ops[a].output.value)
  {
    var k, v := ops[a].input.key, ops[a].output.value;
    var held := Lookup(Replay(StoreModel(), ops, order).value, k);
    assert (order + [a])[..|order|] == order;
    StoreHolds(ops, order, k);
    if HoldsAfter(ops, order, k, v) { HoldsUnique(ops, order, k, v, held); }
  }

  /** If the operation at position i is a get, it returned what its key held after the operations before it. */
  ghost predicate ReadsRight(ops: seq<KvOperation>, order: seq<nat>, i: nat)
    requires InRange(order, |ops|)
  {
    i < |order| && ops[order[i]].input.op == 0 ==>
      HoldsAfter(ops, order[..i], ops[order[i]].input.key, ops[order[i]].output.value)
  }

  lemma ReadsInPrefix(ops: seq<KvOperation>, order: seq<nat>, n: nat, i: nat)
    requires InRange(order, |ops|) && i < n <= |order|
    ensures ReadsRight(ops, order[..n], i) <==> ReadsRight(ops, order, i)
  {
    assert order[..n][..i] == order[..i];
  }

  /** The store accepts an order exactly when every get in it returned what it should. */
  lemma {:induction false} AcceptsIffReadsRight(ops: seq<KvOperation>, order: seq<nat>)
    requires InRange(order, |ops|)
    ensures Replay(StoreModel(), ops, order).Some? <==> forall i: nat :: ReadsRight(ops, order, i)
  {
    if order != [] {
      var n := |order| - 1;
      var init := order[..n];
      AcceptsIffReadsRight(ops, init);
      forall i: nat | i < n ensures ReadsRight(ops, init, i) <==> ReadsRight(ops, order, i) {
        ReadsInPrefix(ops, order, n, i);
      }
      if Replay(StoreModel(), ops, init).Some? {
        AcceptedIff(ops, init, order[n]);
        assert init + [order[n]] == order;
        forall i: nat | i != n ensures ReadsRight(ops, order, i) { assert ReadsRight(ops, init, i); }
        assert Replay(StoreModel(), ops, order).Some? <==> ReadsRight(ops, order, n);
      } else {
        var i: nat :| !ReadsRight(ops, init, i);
        assert !ReadsRight(ops, order, i);
      }
    }
  }

  /** An order of all operations that respects real time and in which every get returns the last put to
      its key followed by the later appends. */
  ghost predicate Explains(ops: seq<KvOperation>, order: seq<nat>) {
    && |order| == |ops| && InRange(order, |ops|) && Distinct(order) && Respects(ops, order)
    && forall i: nat :: ReadsRight(ops, order, i)
  }

  ghost predicate Explainable(ops: seq<KvOperation>) { exists order: seq<nat> :: Explains(ops, order) }

  /** What linearizability of the store means for the operations themselves. */
  lemma LinearizableIffExplainable(ops: seq<KvOperation>)
    ensures Linearizable(StoreModel(), ops) <==> Explainable(ops)
  {
    if Linearizable(StoreModel(), ops) {
      var order: seq<nat> :| Linearization(StoreModel(), ops, order);
      AcceptsIffReadsRight(ops, order);
      assert Explains(ops, order);
    }
    if Explainable(ops) {
      var order: seq<nat> :| Explains(ops, order);
      AcceptsIffReadsRight(ops, order);
      assert Linearization(StoreModel(), ops, order);
    }
  }

  // ---------- the servers' log ----------

  predicate PutIn(log: seq<Command>, k: string, i: nat) { i < |log| && log[i].op == OpPut && log[i].key == k }

  predicate AppendIn(log: seq<Command>, k: string, i: nat) { i < |log| && log[i].op == OpAppend && log[i].key == k }

  function AppendsIn(log: seq<Command>, k: string, from: nat): string
    decreases |log| - from
  {
    if from >= |log| then "" else (if AppendIn(log, k, from) then log[from].value else "") + AppendsIn(log, k, from + 1)
  }

  ghost predicate LastPutIn(log: seq<Command>, k: string, i: nat) {
    PutIn(log, k, i) && forall j: nat :: j > i ==> !PutIn(log, k, j)
  }

  ghost predicate LogPutGives(log: seq<Command>, k: string, v: string, i: nat) {
    LastPutIn(log, k, i) ==> v == log[i].value + AppendsIn(log, k, i + 1)
  }

  ghost predicate NeverPutIn(log: seq<Command>, k: string) { forall i: nat :: !PutIn(log, k, i) }

  /** v is the value of the last put to k in the log followed by the later appends. */
  ghost predicate LogHolds(log: seq<Command>, k: string, v: string) {
    (forall i: nat :: LogPutGives(log, k, v, i)) && (NeverPutIn(log, k) ==> v == AppendsIn(log, k, 0))
  }

  ghost predicate Written(log: seq<Command>, k: string) {
    exists i: nat :: PutIn(log, k, i) || AppendIn(log, k, i)
  }

  lemma {:induction false} AppendsExtend(log: seq<Command>, c: Command, k: string, from: nat)
    requires from <= |log|
    ensures AppendsIn(log + [c], k, from) == AppendsIn(log, k, from) + (if c.op == OpAppend && c.key == k then c.value
              else "")
    decreases |log| - from
  {
    if from < |log| {
      AppendsExtend(log, c, k, from + 1);
      assert AppendIn(log + [c], k, from) <==> AppendIn(log, k, from);
    } else {
      assert AppendsIn(log + [c], k, from + 1) == "";
    }
  }

  lemma LogHoldsExtends(log: seq<Command>, c: Command, k: string, v: string)
    requires LogHolds(log, k, v)
    ensures LogHolds(log + [c], k, if c.key != k || c.op == OpGet then v else if c.op == OpPut then c.value
              else v + c.value)
  {
    var more := log + [c];
    if c.key == k && c.op == OpPut {
      LogPutReplaces(log, c, k);
    } else {
      var x := if c.key == k && c.op == OpAppend then c.value else "";
      assert v + "" == v;
      forall i: nat ensures LogPutGives(more, k, v + x, i) { LogPutGivesMore(log, c, k, v, i); }
      AppendsExtend(log, c, k, 0);
      if NeverPutIn(more, k) {
        forall i: nat ensures !PutIn(log, k, i) { PutInExtends(log, c, k, i); }
      }
    }
  }

  lemma LogPutGivesMore(log: seq<Command>, c: Command, k: string, v: string, i: nat)
    requires !(c.op == OpPut && c.key == k) && LogHolds(log, k, v)
    ensures LogPutGives(log + [c], k, v + (if c.key == k && c.op == OpAppend then c.value else ""), i)
  {
    if LastPutIn(log + [c], k, i) {
      LogPutKept(log, c, k, i);
      assert LogPutGives(log, k, v, i);
      AppendsExtend(log, c, k, i + 1);
      Associates(log[i].value, AppendsIn(log, k, i + 1), if c.key == k && c.op == OpAppend then c.value else "");
    }
  }

  lemma PutInExtends(log: seq<Command>, c: Command, k: string, i: nat)
    ensures PutIn(log + [c], k, i) <==> PutIn(log, k, i) || (i == |log| && c.op == OpPut && c.key == k)
  {
  }

  lemma LogPutKept(log: seq<Command>, c: Command, k: string, i: nat)
    requires !(c.op == OpPut && c.key == k) && LastPutIn(log + [c], k, i)
    ensures LastPutIn(log, k, i)
  {
    PutInExtends(log, c, k, i);
    forall j: nat | j > i ensures !PutIn(log, k, j) { PutInExtends(log, c, k, j); }
  }

  lemma LogPutReplaces(log: seq<Command>, c: Command, k: string)
    requires c.op == OpPut && c.key == k
    ensures LogHolds(log + [c], k, c.value)
  {
    var more := log + [c];
    assert PutIn(more, k, |log|);
    assert AppendsIn(more, k, |log| + 1) == "";
    forall i: nat ensures LogPutGives(more, k, c.value, i) {
      if LastPutIn(more, k, i) { assert i >= |log|; }
    }
  }

  lemma WrittenExtends(log: seq<Command>, c: Command, k: string)
    ensures Written(log + [c], k) <==> Written(log, k) || (c.key == k && c.op != OpGet)
  {
    var more := log + [c];
    assert forall i: nat :: i < |log| ==>
      (PutIn(more, k, i) <==> PutIn(log, k, i)) && (AppendIn(more, k, i) <==> AppendIn(log, k, i));
    assert c.key == k && c.op == OpPut ==> PutIn(more, k, |log|);
    assert c.key == k && c.op == OpAppend ==> AppendIn(more, k, |log|);
    if Written(log, k) {
      var i: nat :| PutIn(log, k, i) || AppendIn(log, k, i);
      assert PutIn(more, k, i) || AppendIn(more, k, i);
    }
  }

  /** Executing a log leaves in each key the last put to it followed by the later appends, and nothing in
      keys the log does not write. */
  lemma {:induction false} PlainHolds(log: seq<Command>, k: string)
    ensures LogHolds(log, k, ValueOf(Plain(log), k))
    ensures k in Plain(log) <==> Written(log, k)
  {
    if log != [] {
      var init, c := log[..|log| - 1], log[|log| - 1];
      PlainHolds(init, k);
      LogHoldsExtends(init, c, k, ValueOf(Plain(init), k));
      WrittenExtends(init, c, k);
      assert init + [c] == log;
    }
  }

  /** A get after the log is answered with what its key holds, and with ErrNoKey exactly when nothing
      wrote the key; writes are always answered OK. */
  lemma AnswerMeans(log: seq<Command>, c: Command)
    ensures var a := Answer(Plain(log), c);
            && (c.op == OpGet ==> LogHolds(log, c.key, a.value) && (a.err == ErrNoKey <==> !Written(log, c.key)))
            && (c.op != OpGet ==> a == Response(OK, ""))
  {
    PlainHolds(log, c.key);
  }

  /** The table never remembers anything but a plain OK, the answer to any write. */
  lemma {:induction false} RememberedAnswers(log: seq<Command>, client: int)
    requires client in ReplayLog(log).lastOperations
    ensures ReplayLog(log).lastOperations[client].lastResponse == Response(OK, "")
  {
    var init := log[..|log| - 1];
    if client in ReplayLog(init).lastOperations { RememberedAnswers(init, client); }
  }

  // ---------- the model and the servers agree ----------

  /** The input by which a history records a command. */
  function InputOf(c: Command): KvInput {
    KvInput(match c.op case OpGet => 0 case OpPut => 1 case OpAppend => 2, c.key, c.value)
  }

  /** The model moves as the server does, and accepts a get exactly with the value the server answers. */
  lemma ModelMatchesServer(store: map<string, string>, c: Command, out: KvOutput)
    ensures var (ok, next) := StoreStep(store, InputOf(c), out);
            next == Execute(store, c) && (ok <==> c.op == OpGet ==> out.value == Answer(store, c).value)
  {
  }
}
