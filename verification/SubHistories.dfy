/** Histories obtained from others: a selection of the operations, or the same operations
    with other timestamps in the same order. */
module SubHistories {
  import opened Linearizability

  /** A linearization of just the operations in ids, named as in the whole history. */
  ghost predicate OrderOf<S, I, O>(m: Model<S, I, O>, ops: seq<Operation<I, O>>, ids: set<nat>, order: seq<nat>) {
    && InRange(order, |ops|) && Distinct(order) && Elems(order) == ids
    && Respects(ops, order) && Replay(m, ops, order).Some?
  }

  ghost predicate HasOrder<S, I, O>(m: Model<S, I, O>, ops: seq<Operation<I, O>>, ids: set<nat>) {
    exists r: seq<nat> :: OrderOf(m, ops, ids, r)
  }

  /** Operation i of `sub` is operation f[i] of `ops`. */
  ghost predicate Selects<I, O>(ops: seq<Operation<I, O>>, sub: seq<Operation<I, O>>, f: seq<nat>) {
    && |f| == |sub| && InRange(f, |ops|) && Distinct(f)
    && forall i :: 0 <= i < |f| ==> sub[i] == ops[f[i]]
  }

  function Rename(f: seq<nat>, order: seq<nat>): (r: seq<nat>)
    requires InRange(order, |f|)
    ensures |r| == |order| && forall i :: 0 <= i < |r| ==> r[i] == f[order[i]]
  {
    seq(|order|, i requires 0 <= i < |order| => f[order[i]])
  }

  lemma {:induction false} RenameReplay<S, I, O>(m: Model<S, I, O>, ops: seq<Operation<I, O>>,
                                                 sub: seq<Operation<I, O>>, f: seq<nat>, order: seq<nat>)
    requires Selects(ops, sub, f) && InRange(order, |sub|)
    ensures InRange(Rename(f, order), |ops|)
    ensures Replay(m, sub, order) == Replay(m, ops, Rename(f, order))
  {
    if order != [] {
      var last := |order| - 1;
      RenameReplay(m, ops, sub, f, order[..last]);
      assert Rename(f, order)[..last] == Rename(f, order[..last]);
    }
  }

  lemma RenameElems(f: seq<nat>, order: seq<nat>)
    requires InRange(order, |f|) && Distinct(order) && Distinct(f) && |order| == |f|
    ensures Distinct(Rename(f, order)) && Elems(Rename(f, order)) == Elems(f)
  {
    var r := Rename(f, order);
    FullOrder(order, |f|);
    forall x | x in Elems(f) ensures x in Elems(r) {
      var i :| 0 <= i < |f| && f[i] == x;
      assert i in Elems(order);
      var j :| 0 <= j < |order| && order[j] == i;
      assert r[j] == x;
    }
  }

  lemma RenameRespects<I, O>(ops: seq<Operation<I, O>>, sub: seq<Operation<I, O>>, f: seq<nat>, order: seq<nat>)
    requires Selects(ops, sub, f) && InRange(order, |sub|) && InRange(Rename(f, order), |ops|)
    ensures Respects(sub, order) <==> Respects(ops, Rename(f, order))
  {
    var r := Rename(f, order);
    forall i, j | 0 <= i < j < |r| ensures Precedes(ops, r[j], r[i]) <==> Precedes(sub, order[j], order[i]) {}
  }

  lemma RenameOrder<S, I, O>(m: Model<S, I, O>, ops: seq<Operation<I, O>>, sub: seq<Operation<I, O>>, f: seq<nat>,
                             order: seq<nat>)
    requires Selects(ops, sub, f) && Linearization(m, sub, order)
    ensures OrderOf(m, ops, Elems(f), Rename(f, order))
  {
    RenameReplay(m, ops, sub, f, order);
    RenameElems(f, order);
    RenameRespects(ops, sub, f, order);
  }

  function IndexOf(f: seq<nat>, x: nat): (i: nat)
    requires x in f
    ensures i < |f| && f[i] == x
  {
    if f[0] == x then 0 else 1 + IndexOf(f[1..], x)
  }

  lemma UnrenameOrder<S, I, O>(m: Model<S, I, O>, ops: seq<Operation<I, O>>, sub: seq<Operation<I, O>>, f: seq<nat>,
                               r: seq<nat>)
    requires Selects(ops, sub, f) && OrderOf(m, ops, Elems(f), r)
    ensures Linearizable(m, sub)
  {
    forall i | 0 <= i < |r| ensures r[i] in f { assert r[i] in Elems(r); }
    var order := seq(|r|, i requires 0 <= i < |r| => IndexOf(f, r[i]));
    DistinctSize(r);
    DistinctSize(f);
    assert InRange(order, |sub|);
    assert Rename(f, order) == r;
    RenameReplay(m, ops, sub, f, order);
    RenameRespects(ops, sub, f, order);
    assert Linearization(m, sub, order);
  }

  /** A sub-history is linearizable exactly when its operations can be ordered within the whole. */
  lemma SelectionLinearizable<S, I, O>(m: Model<S, I, O>, ops: seq<Operation<I, O>>, sub: seq<Operation<I, O>>,
                                       f: seq<nat>)
    requires Selects(ops, sub, f)
    ensures Linearizable(m, sub) <==> HasOrder(m, ops, Elems(f))
  {
    if Linearizable(m, sub) {
      var order: seq<nat> :| Linearization(m, sub, order);
      RenameOrder(m, ops, sub, f, order);
    }
    if HasOrder(m, ops, Elems(f)) {
      var r: seq<nat> :| OrderOf(m, ops, Elems(f), r);
      UnrenameOrder(m, ops, sub, f, r);
    }
  }

  /** The same operations, with timestamps that order them the same way. */
  ghost predicate SameOrder<I, O>(ops: seq<Operation<I, O>>, other: seq<Operation<I, O>>) {
    && |ops| == |other|
    && (forall a :: 0 <= a < |ops| ==> ops[a].input == other[a].input && ops[a].output == other[a].output)
    && (forall a: nat, b: nat :: a < |ops| && b < |ops| ==> (Precedes(ops, a, b) <==> Precedes(other, a, b)))
  }

  lemma {:induction false} SameReplay<S, I, O>(m: Model<S, I, O>, ops: seq<Operation<I, O>>,
                                               other: seq<Operation<I, O>>, order: seq<nat>)
    requires SameOrder(ops, other) && InRange(order, |ops|)
    ensures Replay(m, ops, order) == Replay(m, other, order)
  {
    if order != [] { SameReplay(m, ops, other, order[..|order| - 1]); }
  }

  lemma SameOrderSameVerdict<S, I, O>(m: Model<S, I, O>, ops: seq<Operation<I, O>>, other: seq<Operation<I, O>>)
    requires SameOrder(ops, other)
    ensures Linearizable(m, ops) <==> Linearizable(m, other)
  {
    forall order: seq<nat> ensures Linearization(m, ops, order) <==> Linearization(m, other, order) {
      if InRange(order, |ops|) {
        SameReplay(m, ops, other, order);
        assert Respects(ops, order) <==> Respects(other, order) by {
          assert forall i, j :: 0 <= i < j < |order| ==>
            (Precedes(ops, order[j], order[i]) <==> Precedes(other, order[j], order[i]));
        }
      }
    }
    if Linearizable(m, ops) {
      var order: seq<nat> :| Linearization(m, ops, order);
      assert Linearization(m, other, order);
    }
    if Linearizable(m, other) {
      var order: seq<nat> :| Linearization(m, other, order);
      assert Linearization(m, ops, order);
    }
  }
}
