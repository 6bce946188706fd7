/** The search always moves forward, and what its record of longest attempts means. */
module SearchProgress {
  import opened Prelude
  import opened Linearizability
  import opened Search

  // ---------- the longest partial linearization through each operation ----------

  type Record = seq<Option<seq<nat>>>

  /** A recorded attempt is a partial linearization containing the operation it is recorded for. */
  ghost predicate Recorded<S, I, O>(m: Model<S, I, O>, ops: seq<Operation<I, O>>, longest: Record, id: nat) {
    id < |longest| && longest[id].Some? ==> Partial(m, ops, longest[id].value) && id in longest[id].value
  }

  ghost predicate Covered<S>(longest: Record, c: (set<nat>, S)) {
    forall id :: id in c.0 ==> id < |longest| && longest[id].Some? && |longest[id].value| >= |c.0|
  }

  ghost predicate CoveredOffPath<S>(g: Search<S>, longest: Record, c: (set<nat>, S))
    requires |g.states| == |g.order| + 1
  {
    c in g.seen ==> OnPath(g, c) || Covered(longest, c)
  }

  ghost predicate RecordInv<S(!new), I, O>(m: Model<S, I, O>, ops: seq<Operation<I, O>>, g: Search<S>,
                                           longest: Record) {
    && |g.states| == |g.order| + 1 && |longest| == |ops|
    && (forall id: nat :: Recorded(m, ops, longest, id))
    && (forall c :: CoveredOffPath(g, longest, c))
  }

  lemma PushKeepsRecord<S(!new), I, O>(m: Model<S, I, O>, ops: seq<Operation<I, O>>, g: Search<S>, longest: Record,
                                       id: nat, at: nat)
    requires RecordInv(m, ops, g, longest) && id < |ops|
    ensures RecordInv(m, ops, Pushed(m, ops, g, id, at), longest)
  {
    var k := Pushed(m, ops, g, id, at);
    var n := |g.order|;
    forall c ensures CoveredOffPath(k, longest, c) {
      assert CoveredOffPath(g, longest, c);
      if c in g.seen && OnPath(g, c) {
        var d: nat :| d <= n && c == ConfigAt(g, d);
        PrefixOf(g.order, id, d);
        assert c == ConfigAt(k, d);
      } else if c in k.seen && c !in g.seen {
        assert k.order[..n + 1] == k.order && k.order[..n] == g.order;
        Shorter(k.order);
        assert c == ConfigAt(k, n + 1);
      }
    }
  }

  lemma SkipKeepsRecord<S(!new), I, O>(m: Model<S, I, O>, ops: seq<Operation<I, O>>, g: Search<S>, longest: Record,
                                       at: nat)
    requires RecordInv(m, ops, g, longest)
    ensures RecordInv(m, ops, g.(at := at), longest)
  {
    forall c ensures CoveredOffPath(g.(at := at), longest, c) {
      assert CoveredOffPath(g, longest, c);
      if c in g.seen && OnPath(g, c) {
        var d: nat :| d <= |g.order| && c == ConfigAt(g, d);
        assert c == ConfigAt(g.(at := at), d);
      }
    }
  }

  /** What the record must hold before the path may be shortened. */
  ghost predicate Updated(longest: Record, now: Record, order: seq<nat>) {
    && |now| == |longest|
    && forall id: nat :: id < |longest| ==>
         now[id] == if id in order && (longest[id].None? || |order| > |longest[id].value|) then Some(order)
           else longest[id]
  }

  lemma PopKeepsRecord<S(!new), I, O>(m: Model<S, I, O>, ops: seq<Operation<I, O>>, g: Search<S>, longest: Record,
                                      now: Record, at: nat)
    requires RecordInv(m, ops, g, longest) && Partial(m, ops, g.order) && |g.order| >= 1
    requires Updated(longest, now, g.order)
    ensures RecordInv(m, ops, Popped(g, at), now)
  {
    var k := Popped(g, at);
    var n := |g.order| - 1;
    forall id: nat ensures Recorded(m, ops, now, id) { assert Recorded(m, ops, longest, id); }
    DistinctSize(g.order);
    forall c ensures CoveredOffPath(k, now, c) {
      assert CoveredOffPath(g, longest, c);
      if c in g.seen && OnPath(g, c) {
        var d: nat :| d <= n + 1 && c == ConfigAt(g, d);
        if d <= n {
          assert k.order[..d] == g.order[..d];
          assert c == ConfigAt(k, d);
        } else {
          assert g.order[..n + 1] == g.order;
        }
      }
    }
  }

  /** The longest partial linearization through id, or none if there is none. */
  ghost predicate IsLongest<S, I, O>(m: Model<S, I, O>, ops: seq<Operation<I, O>>, id: nat, r: Option<seq<nat>>) {
    && (r.Some? ==> Partial(m, ops, r.value) && id in r.value)
    && (forall order: seq<nat> :: Partial(m, ops, order) && id in order ==> r.Some? && |order| <= |r.value|)
  }

  /** When the search ends without success, the record holds the longest attempt through each operation. */
  lemma ExhaustedRecord<S(!new), I, O>(m: Model<S, I, O>, ops: seq<Operation<I, O>>, g: Search<S>, longest: Record,
                                       r: nat, id: nat)
    requires SearchInv(m, ops, g) && g.order == [] && RecordInv(m, ops, g, longest)
    requires r < |ops| && g.at == ops[r].ret + 1 && id < |ops|
    ensures IsLongest(m, ops, id, longest[id])
  {
    assert Recorded(m, ops, longest, id);
    ExhaustedIsClosed(m, ops, g, r);
    forall order: seq<nat> | Partial(m, ops, order) && id in order
      ensures longest[id].Some? && |order| <= |longest[id].value|
    {
      ClosedCovers(m, ops, g.seen, order);
      var c := (Elems(order), Replay(m, ops, order).value);
      DistinctSize(order);
      assert id in c.0 && CoveredOffPath(g, longest, c);
    }
  }

  // ---------- an odometer ----------

  function Pow(b: nat, k: nat): nat { if k == 0 then 1 else b * Pow(b, k - 1) }

  lemma {:induction false} PowPositive(b: nat, k: nat)
    requires b >= 1
    ensures Pow(b, k) >= 1
  {
    if k > 0 { PowPositive(b, k - 1); }
  }

  /** The digits read as a number of w digits in base b, most significant first. */
  function Meter(ds: seq<nat>, b: nat, w: nat): nat
    requires |ds| <= w
  {
    if ds == [] then 0 else ds[0] * Pow(b, w - 1) + Meter(ds[1..], b, w - 1)
  }

  lemma TimesMonotone(x: nat, y: nat, p: nat)
    requires x < y
    ensures x * p + p <= y * p
  {
    assert (x + 1) * p <= y * p;
  }

  lemma {:induction false} MeterBound(ds: seq<nat>, b: nat, w: nat)
    requires |ds| <= w && b >= 1 && forall i :: 0 <= i < |ds| ==> ds[i] < b
    ensures Meter(ds, b, w) < Pow(b, w)
  {
    PowPositive(b, w);
    if ds != [] {
      MeterBound(ds[1..], b, w - 1);
      TimesMonotone(ds[0], b, Pow(b, w - 1));
    }
  }

  /** A larger digit outweighs anything to its right. */
  lemma {:induction false} MeterGrows(pre: seq<nat>, x: nat, rest: seq<nat>, y: nat, b: nat, w: nat)
    requires |pre| + 1 + |rest| <= w && b >= 1 && x < y && forall i :: 0 <= i < |rest| ==> rest[i] < b
    ensures Meter(pre + [x] + rest, b, w) < Meter(pre + [y], b, w)
  {
    if pre == [] {
      assert (pre + [x] + rest)[1..] == rest && (pre + [y])[1..] == [];
      MeterBound(rest, b, w - 1);
      TimesMonotone(x, y, Pow(b, w - 1));
    } else {
      MeterGrows(pre[1..], x, rest, y, b, w - 1);
      assert (pre + [x] + rest)[1..] == pre[1..] + [x] + rest && (pre + [y])[1..] == pre[1..] + [y];
    }
  }

  lemma {:induction false} MeterExtends(ds: seq<nat>, x: nat, b: nat, w: nat)
    requires |ds| < w && b >= 1 && x >= 1
    ensures Meter(ds, b, w) < Meter(ds + [x], b, w)
  {
    if ds == [] {
      PowPositive(b, w - 1);
      assert x * Pow(b, w - 1) >= Pow(b, w - 1) by { TimesMonotone(0, x, Pow(b, w - 1)); }
    } else {
      MeterExtends(ds[1..], x, b, w - 1);
      assert (ds + [x])[1..] == ds[1..] + [x];
    }
  }

  /** The nodes at which the path branched, and the node under examination. */
  function Position<S, I, O>(ops: seq<Operation<I, O>>, g: Search<S>): (ds: seq<int>)
    requires InRange(g.order, |ops|)
    ensures |ds| == |g.order| + 1
  {
    seq(|g.order| + 1, d requires 0 <= d <= |g.order| => Limit(ops, g, d))
  }

  /** How far the search still is from the largest position; every step lowers it. */
  ghost function Remaining<S, I, O>(ops: seq<Operation<I, O>>, g: Search<S>, nodes: nat): int
    requires InRange(g.order, |ops|) && forall a :: 0 <= a < |ops| ==> ops[a].call >= 0
  {
    if |g.order| <= |ops| then Pow(nodes + 2, |ops| + 1) - Meter(Position(ops, g), nodes + 2, |ops| + 1) else 0
  }

  ghost predicate WithinNodes<S, I, O>(ops: seq<Operation<I, O>>, g: Search<S>, nodes: nat) {
    && InRange(g.order, |ops|) && |g.order| <= |ops| && g.at <= nodes + 1
    && forall a :: 0 <= a < |ops| ==> 0 <= ops[a].call < nodes
  }

  lemma RemainingPositive<S, I, O>(ops: seq<Operation<I, O>>, g: Search<S>, nodes: nat)
    requires WithinNodes(ops, g, nodes)
    ensures Remaining(ops, g, nodes) > 0
  {
    MeterBound(Position(ops, g), nodes + 2, |ops| + 1);
  }

  lemma PushProgresses<S, I, O>(m: Model<S, I, O>, ops: seq<Operation<I, O>>, g: Search<S>, id: nat, at: nat,
                                nodes: nat)
    requires WithinNodes(ops, g, nodes) && id < |ops| && |g.states| == |g.order| + 1
    requires g.at == ops[id].call + 1 && |g.order| < |ops| && at >= 1
    ensures Remaining(ops, Pushed(m, ops, g, id, at), nodes) < Remaining(ops, g, nodes)
  {
    var k := Pushed(m, ops, g, id, at);
    assert Position(ops, k) == Position(ops, g) + [at];
    MeterExtends(Position(ops, g), at, nodes + 2, |ops| + 1);
  }

  lemma SkipProgresses<S, I, O>(ops: seq<Operation<I, O>>, g: Search<S>, at: nat, nodes: nat)
    requires WithinNodes(ops, g, nodes) && at > g.at
    ensures Remaining(ops, g.(at := at), nodes) < Remaining(ops, g, nodes)
  {
    var ds := Position(ops, g);
    var pre := ds[..|g.order|];
    assert ds == pre + [g.at] + [] && Position(ops, g.(at := at)) == pre + [at];
    MeterGrows(pre, g.at, [], at, nodes + 2, |ops| + 1);
  }

  lemma PopProgresses<S, I, O>(ops: seq<Operation<I, O>>, g: Search<S>, at: nat, nodes: nat)
    requires WithinNodes(ops, g, nodes) && |g.order| >= 1 && |g.states| == |g.order| + 1
    requires at > ops[g.order[|g.order| - 1]].call + 1
    ensures Remaining(ops, Popped(g, at), nodes) < Remaining(ops, g, nodes)
  {
    var n := |g.order| - 1;
    var ds := Position(ops, g);
    var pre, x := ds[..n], ops[g.order[n]].call + 1;
    assert ds == pre + [x] + [g.at];
    assert Position(ops, Popped(g, at)) == pre + [at];
    MeterGrows(pre, x, [g.at], at, nodes + 2, |ops| + 1);
  }
}
