/** What it means for a concurrent history to be linearizable. */
module Linearizability {
  import opened Prelude

  /** A sequential specification: does it allow this output, and what is the next state? */
  datatype Model<!S, !I, !O> = Model(init: S, step: (S, I, O) -> (bool, S))

  /** One completed operation with its invocation and response times. */
  datatype Operation<I, O> = Operation(clientId: int, input: I, call: int, output: O, ret: int)

  predicate Precedes<I, O>(ops: seq<Operation<I, O>>, a: nat, b: nat)
    requires a < |ops| && b < |ops|
  {
    ops[a].ret < ops[b].call
  }

  predicate InRange(order: seq<nat>, n: nat) { forall i :: 0 <= i < |order| ==> order[i] < n }

  predicate Distinct<T(==)>(s: seq<T>) { forall i, j :: 0 <= i < j < |s| ==> s[i] != s[j] }

  function Elems<T>(s: seq<T>): set<T> { set x | x in s }

  /** The state after performing the operations in this order, if every output is allowed. */
  function Replay<S, I, O>(m: Model<S, I, O>, ops: seq<Operation<I, O>>, order: seq<nat>): Option<S>
    requires InRange(order, |ops|)
  {
    if order == [] then Some(m.init)
    else
      var last := |order| - 1;
      match Replay(m, ops, order[..last])
      case None => None
      case Some(s) =>
        var (ok, t) := m.step(s, ops[order[last]].input, ops[order[last]].output);
        if ok then Some(t) else None
  }

  /** No operation is placed after one that was invoked only once it had returned. */
  ghost predicate Respects<I, O>(ops: seq<Operation<I, O>>, order: seq<nat>)
    requires InRange(order, |ops|)
  {
    forall i, j :: 0 <= i < j < |order| ==> !Precedes(ops, order[j], order[i])
  }

  /** A total order of all operations that respects real time and that the model accepts. */
  ghost predicate Linearization<S, I, O>(m: Model<S, I, O>, ops: seq<Operation<I, O>>, order: seq<nat>) {
    && |order| == |ops| && InRange(order, |ops|) && Distinct(order)
    && Respects(ops, order)
    && Replay(m, ops, order).Some?
  }

  ghost predicate Linearizable<S, I, O>(m: Model<S, I, O>, ops: seq<Operation<I, O>>) {
    exists order: seq<nat> :: Linearization(m, ops, order)
  }

  // ---------- linearizing one operation at a time ----------

  /** Operation id can come next: nothing still outstanding returned before it was invoked. */
  ghost predicate Minimal<I, O>(ops: seq<Operation<I, O>>, done: set<nat>, id: nat) {
    id < |ops| && id !in done && forall b: nat :: b < |ops| && b !in done ==> !Precedes(ops, b, id)
  }

  ghost predicate EachMinimal<I, O>(ops: seq<Operation<I, O>>, order: seq<nat>) {
    forall i :: 0 <= i < |order| ==> Minimal(ops, Elems(order[..i]), order[i])
  }

  /** The beginning of some linearization as far as order and outputs can tell. */
  ghost predicate Partial<S, I, O>(m: Model<S, I, O>, ops: seq<Operation<I, O>>, order: seq<nat>) {
    && InRange(order, |ops|) && Distinct(order)
    && EachMinimal(ops, order)
    && Replay(m, ops, order).Some?
  }

  lemma {:induction false} DistinctSize<T>(s: seq<T>)
    requires Distinct(s)
    ensures |Elems(s)| == |s|
  {
    if s == [] {
      assert Elems(s) == {};
    } else {
      var last := |s| - 1;
      DistinctSize(s[..last]);
      assert Elems(s) == Elems(s[..last]) + {s[last]};
    }
  }

  /** A duplicate-free list of n numbers below n contains them all. */
  lemma FullOrder(order: seq<nat>, n: nat)
    requires InRange(order, n) && Distinct(order)
    ensures |order| <= n
    ensures |order| == n <==> Elems(order) == Below(n)
  {
    DistinctSize(order);
    assert Elems(order) <= Below(n);
    SubsetSize(Elems(order), Below(n));
    if |order| == n && Elems(order) != Below(n) {
      var x :| x in Below(n) && x !in Elems(order);
      SubsetSize(Elems(order) + {x}, Below(n));
    }
  }

  /** A partial linearization of all operations is a linearization, and conversely. */
  lemma CompletePartial<S, I, O>(m: Model<S, I, O>, ops: seq<Operation<I, O>>, order: seq<nat>)
    requires |order| == |ops| && forall a :: 0 <= a < |ops| ==> ops[a].call <= ops[a].ret
    ensures Partial(m, ops, order) <==> Linearization(m, ops, order)
  {
    if InRange(order, |ops|) && Distinct(order) {
      FullOrder(order, |ops|);
      if Respects(ops, order) {
        forall i: nat | i < |order| ensures Minimal(ops, Elems(order[..i]), order[i]) {
          RespectsIsMinimal(ops, order, i);
        }
      }
      if EachMinimal(ops, order) {
        forall i, j | 0 <= i < j < |order| ensures !Precedes(ops, order[j], order[i]) {
          assert Minimal(ops, Elems(order[..i]), order[i]);
          assert order[j] !in order[..i];
        }
      }
    }
  }

  lemma RespectsIsMinimal<I, O>(ops: seq<Operation<I, O>>, order: seq<nat>, i: nat)
    requires InRange(order, |ops|) && Distinct(order) && Elems(order) == Below(|ops|) && Respects(ops, order)
             && i < |order|
    requires forall a :: 0 <= a < |ops| ==> ops[a].call <= ops[a].ret
    ensures Minimal(ops, Elems(order[..i]), order[i])
  {
    assert order[i] !in order[..i];
    forall b: nat | b < |ops| && b !in Elems(order[..i]) ensures !Precedes(ops, b, order[i]) {
      assert b in Elems(order);
      var j := PlaceFrom(order, i, b);
    }
  }

  lemma PlaceFrom<T>(s: seq<T>, i: nat, x: T) returns (j: nat)
    requires i <= |s| && x in s && x !in s[..i]
    ensures i <= j < |s| && s[j] == x
  {
    assert s == s[..i] + s[i..];
    var k :| 0 <= k < |s[i..]| && s[i..][k] == x;
    j := i + k;
  }
}
