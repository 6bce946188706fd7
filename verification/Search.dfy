/** The backtracking search for a linearization, as a machine over values.

    Position p of the history is node p + 1 of the checker's list; `at` is the node
    under examination, one past the last node when the list is exhausted. */
module Search {
  import opened Prelude
  import opened Linearizability

  /** order: the operations linearized so far; states[d]: the state after d of them;
      seen: the (set of linearized operations, state) pairs entered in the cache. */
  datatype Search<S(==)> = Search(order: seq<nat>, states: seq<S>, at: nat, seen: set<(set<nat>, S)>)

  /** Calls and returns occupy distinct positions, each call before its return. */
  ghost predicate WellTimed<I, O>(ops: seq<Operation<I, O>>) {
    && (forall a :: 0 <= a < |ops| ==> 0 <= ops[a].call < ops[a].ret)
    && (forall a, b :: 0 <= a < |ops| && 0 <= b < |ops| ==> ops[a].call != ops[b].ret)
    && (forall a, b :: 0 <= a < |ops| && 0 <= b < |ops| && a != b ==>
       ops[a].call != ops[b].call && ops[a].ret != ops[b].ret)
  }

  function Done<S>(g: Search<S>, d: nat): set<nat>
    requires d <= |g.order|
  {
    Elems(g.order[..d])
  }

  function ConfigAt<S>(g: Search<S>, d: nat): (set<nat>, S)
    requires d <= |g.order| < |g.states|
  {
    (Done(g, d), g.states[d])
  }

  /** The node at which depth d branched, or is being scanned. */
  function Limit<S, I, O>(ops: seq<Operation<I, O>>, g: Search<S>, d: nat): int
    requires d <= |g.order| && InRange(g.order, |ops|)
  {
    if d < |g.order| then ops[g.order[d]].call + 1 else g.at
  }

  predicate Allowed<S, I, O>(m: Model<S, I, O>, ops: seq<Operation<I, O>>, s: S, id: nat)
    requires id < |ops|
  {
    m.step(s, ops[id].input, ops[id].output).0
  }

  function Next<S, I, O>(m: Model<S, I, O>, ops: seq<Operation<I, O>>, s: S, id: nat): S
    requires id < |ops|
  {
    m.step(s, ops[id].input, ops[id].output).1
  }

  function Child<S, I, O>(m: Model<S, I, O>, ops: seq<Operation<I, O>>, c: (set<nat>, S), id: nat): (set<nat>, S)
    requires id < |ops|
  {
    (c.0 + {id}, Next(m, ops, c.1, id))
  }

  // ---------- the invariant ----------

  predicate Sized<S, I, O>(ops: seq<Operation<I, O>>, g: Search<S>) {
    |g.states| == |g.order| + 1 && InRange(g.order, |ops|)
  }

  ghost predicate Shaped<S, I, O>(m: Model<S, I, O>, ops: seq<Operation<I, O>>, g: Search<S>) {
    Sized(ops, g) && Partial(m, ops, g.order) && WellTimed(ops) && g.at >= 1
  }

  ghost predicate DepthOk<S, I, O>(m: Model<S, I, O>, ops: seq<Operation<I, O>>, g: Search<S>, d: nat)
    requires Sized(ops, g)
  {
    d <= |g.order| ==>
      && Replay(m, ops, g.order[..d]) == Some(g.states[d])
      && (forall b: nat :: b < |ops| && b !in Done(g, d) ==> ops[b].ret + 1 >= Limit(ops, g, d))
      && (d < |g.order| ==> ConfigAt(g, d + 1) in g.seen)
  }

  /** Everything before the node under examination has been tried. */
  ghost predicate Tried<S, I, O>(m: Model<S, I, O>, ops: seq<Operation<I, O>>, g: Search<S>, d: nat, id: nat)
    requires Sized(ops, g)
  {
    && d <= |g.order| && Minimal(ops, Done(g, d), id) && ops[id].call + 1 < Limit(ops, g, d)
    && Allowed(m, ops, g.states[d], id) ==>
      Child(m, ops, ConfigAt(g, d), id) in g.seen
  }

  ghost predicate Reaches<S, I, O>(m: Model<S, I, O>, ops: seq<Operation<I, O>>, seen: set<(set<nat>, S)>,
                                   c: (set<nat>, S), id: nat) {
    Minimal(ops, c.0, id) && Allowed(m, ops, c.1, id) ==> Child(m, ops, c, id) in seen
  }

  /** All continuations of a configuration have been entered in the cache. */
  ghost predicate Explored<S, I, O>(m: Model<S, I, O>, ops: seq<Operation<I, O>>, seen: set<(set<nat>, S)>,
                                    c: (set<nat>, S)) {
    forall id: nat :: Reaches(m, ops, seen, c, id)
  }

  ghost predicate OnPath<S>(g: Search<S>, c: (set<nat>, S))
    requires |g.states| == |g.order| + 1
  {
    exists d: nat :: d <= |g.order| && c == ConfigAt(g, d)
  }

  /** A cached configuration that is not on the current path is already fully explored. */
  ghost predicate Settled<S, I, O>(m: Model<S, I, O>, ops: seq<Operation<I, O>>, g: Search<S>, c: (set<nat>, S))
    requires Sized(ops, g)
  {
    c in g.seen ==> OnPath(g, c) || Explored(m, ops, g.seen, c)
  }

  /** A complete configuration is cached only at the moment of success. */
  ghost predicate Incomplete<S, I, O>(ops: seq<Operation<I, O>>, g: Search<S>, c: (set<nat>, S)) {
    c in g.seen && c.0 == Below(|ops|) ==> |g.order| == |ops|
  }

  ghost predicate SearchInv<S(!new), I, O>(m: Model<S, I, O>, ops: seq<Operation<I, O>>, g: Search<S>) {
    && Shaped(m, ops, g)
    && (forall d: nat :: DepthOk(m, ops, g, d))
    && (forall d: nat, id: nat :: Tried(m, ops, g, d, id))
    && (forall c :: Settled(m, ops, g, c))
    && (forall c :: Incomplete(ops, g, c))
  }

  /** No outstanding operation has a call or return strictly between two nodes. */
  ghost predicate NothingBetween<I, O>(ops: seq<Operation<I, O>>, done: set<nat>, lo: int, hi: int) {
    forall b: nat :: b < |ops| && b !in done ==>
      (ops[b].call + 1 <= lo || ops[b].call + 1 >= hi) && (ops[b].ret + 1 <= lo || ops[b].ret + 1 >= hi)
  }

  lemma SearchStarts<S(!new), I, O>(m: Model<S, I, O>, ops: seq<Operation<I, O>>)
    requires WellTimed(ops)
    ensures SearchInv(m, ops, Search([], [m.init], 1, {}))
  {
  }

  // ---------- moving on ----------

  /** A call reached by the scan can be linearized next. */
  lemma ScannedIsMinimal<S(!new), I, O>(m: Model<S, I, O>, ops: seq<Operation<I, O>>, g: Search<S>, id: nat)
    requires SearchInv(m, ops, g) && id < |ops| && id !in Elems(g.order) && g.at == ops[id].call + 1
    ensures Minimal(ops, Elems(g.order), id)
  {
    assert DepthOk(m, ops, g, |g.order|) && g.order[..|g.order|] == g.order;
  }

  lemma Shorter<T>(s: seq<T>)
    requires s != []
    ensures Elems(s) == Elems(s[..|s| - 1]) + {s[|s| - 1]}
  {
    assert s == s[..|s| - 1] + [s[|s| - 1]];
  }

  lemma PrefixOf<T>(s: seq<T>, x: T, d: nat)
    requires d <= |s|
    ensures (s + [x])[..d] == s[..d]
  {
  }

  function Pushed<S, I, O>(m: Model<S, I, O>, ops: seq<Operation<I, O>>, g: Search<S>, id: nat, at: nat): Search<S>
    requires id < |ops| && |g.states| == |g.order| + 1
  {
    var s := Next(m, ops, g.states[|g.order|], id);
    Search(g.order + [id], g.states + [s], at, g.seen + {(Elems(g.order) + {id}, s)})
  }

  ghost predicate CanPush<S(!new), I, O>(m: Model<S, I, O>, ops: seq<Operation<I, O>>, g: Search<S>, id: nat) {
    && SearchInv(m, ops, g) && id < |ops| && id !in Elems(g.order) && g.at == ops[id].call + 1
    && Allowed(m, ops, g.states[|g.order|], id)
  }

  lemma PushedShape<S(!new), I, O>(m: Model<S, I, O>, ops: seq<Operation<I, O>>, g: Search<S>, id: nat, at: nat)
    requires CanPush(m, ops, g, id) && at >= 1
    ensures var k := Pushed(m, ops, g, id, at);
            && Shaped(m, ops, k) && Elems(k.order) == Elems(g.order) + {id}
            && Replay(m, ops, k.order) == Some(k.states[|k.order|])
  {
    var k := Pushed(m, ops, g, id, at);
    var n := |g.order|;
    assert DepthOk(m, ops, g, n) && g.order[..n] == g.order;
    ScannedIsMinimal(m, ops, g, id);
    PushedTop(m, ops, g, id, at);
    PartialPushed(m, ops, g.order, id);
  }

  lemma PartialPushed<S, I, O>(m: Model<S, I, O>, ops: seq<Operation<I, O>>, order: seq<nat>, id: nat)
    requires Partial(m, ops, order) && Minimal(ops, Elems(order), id)
             && Allowed(m, ops, Replay(m, ops, order).value, id)
    ensures Partial(m, ops, order + [id])
    ensures Replay(m, ops, order + [id]) == Some(Next(m, ops, Replay(m, ops, order).value, id))
  {
    var more, n := order + [id], |order|;
    assert more[..n] == order;
    forall i | 0 <= i < |more| ensures Minimal(ops, Elems(more[..i]), more[i]) {
      if i < n {
        assert more[..i] == order[..i];
        assert Minimal(ops, Elems(order[..i]), order[i]);
      }
    }
  }

  /** What the push leaves as it was at the depths below the new one. */
  lemma PushedBelow<S, I, O>(m: Model<S, I, O>, ops: seq<Operation<I, O>>, g: Search<S>, id: nat, at: nat, d: nat)
    requires Sized(ops, g) && id < |ops| && d <= |g.order|
    ensures var k := Pushed(m, ops, g, id, at);
            && Sized(ops, k) && k.order[..d] == g.order[..d] && ConfigAt(k, d) == ConfigAt(g, d)
            && Limit(ops, k, d) == if d < |g.order| then Limit(ops, g, d) else ops[id].call + 1
  {
    PrefixOf(g.order, id, d);
  }

  /** The configuration the push enters. */
  lemma PushedTop<S, I, O>(m: Model<S, I, O>, ops: seq<Operation<I, O>>, g: Search<S>, id: nat, at: nat)
    requires Sized(ops, g) && id < |ops|
    ensures var k, n := Pushed(m, ops, g, id, at), |g.order|;
            && Sized(ops, k) && k.order[..n + 1] == k.order
               && ConfigAt(k, n + 1) == (Elems(g.order) + {id}, k.states[n + 1])
            && k.seen == g.seen + {ConfigAt(k, n + 1)} && Limit(ops, k, n + 1) == at
  {
    var k, n := Pushed(m, ops, g, id, at), |g.order|;
    assert k.order[..n + 1] == k.order && k.order[..n] == g.order;
    Shorter(k.order);
  }

  lemma PushedDepth<S, I, O>(m: Model<S, I, O>, ops: seq<Operation<I, O>>, g: Search<S>, id: nat, at: nat, d: nat)
    requires Sized(ops, g) && id < |ops| && g.at == ops[id].call + 1 && DepthOk(m, ops, g, d)
    requires forall b: nat :: b < |ops| && b !in Elems(g.order) + {id} ==> ops[b].ret + 1 >= at
    requires var k := Pushed(m, ops, g, id, at); Replay(m, ops, k.order) == Some(k.states[|k.order|])
    ensures Sized(ops, Pushed(m, ops, g, id, at)) && DepthOk(m, ops, Pushed(m, ops, g, id, at), d)
  {
    PushedTop(m, ops, g, id, at);
    if d <= |g.order| { PushedBelow(m, ops, g, id, at, d); }
    if d < |g.order| { PushedBelow(m, ops, g, id, at, d + 1); }
  }

  lemma PushedTried<S, I, O>(m: Model<S, I, O>, ops: seq<Operation<I, O>>, g: Search<S>, id: nat, at: nat, d: nat,
                             x: nat)
    requires Sized(ops, g) && id < |ops| && g.at == ops[id].call + 1 && Tried(m, ops, g, d, x)
    requires forall b: nat :: b < |ops| && b !in Elems(g.order) + {id} ==> ops[b].call + 1 >= at
    ensures Sized(ops, Pushed(m, ops, g, id, at)) && Tried(m, ops, Pushed(m, ops, g, id, at), d, x)
  {
    PushedTop(m, ops, g, id, at);
    if d <= |g.order| { PushedBelow(m, ops, g, id, at, d); }
  }

  lemma PushedSettled<S(!new), I, O>(m: Model<S, I, O>, ops: seq<Operation<I, O>>, g: Search<S>, id: nat, at: nat,
                                     c: (set<nat>, S))
    requires Sized(ops, g) && id < |ops| && Settled(m, ops, g, c)
    ensures Sized(ops, Pushed(m, ops, g, id, at)) && Settled(m, ops, Pushed(m, ops, g, id, at), c)
  {
    var k := Pushed(m, ops, g, id, at);
    PushedTop(m, ops, g, id, at);
    if c in g.seen {
      if OnPath(g, c) {
        var d: nat :| d <= |g.order| && c == ConfigAt(g, d);
        PushedBelow(m, ops, g, id, at, d);
        assert c == ConfigAt(k, d);
      } else {
        forall x: nat ensures Reaches(m, ops, k.seen, c, x) { assert Reaches(m, ops, g.seen, c, x); }
      }
    } else if c in k.seen {
      assert c == ConfigAt(k, |g.order| + 1);
    }
  }

  /** Linearize the operation under the scan and start again at the head of the list. */
  lemma PushKeeps<S(!new), I, O>(m: Model<S, I, O>, ops: seq<Operation<I, O>>, g: Search<S>, id: nat, at: nat)
    requires CanPush(m, ops, g, id) && at >= 1 && NothingBetween(ops, Elems(g.order) + {id}, 0, at)
    requires Child(m, ops, (Elems(g.order), g.states[|g.order|]), id) !in g.seen
    ensures SearchInv(m, ops, Pushed(m, ops, g, id, at))
  {
    var k := Pushed(m, ops, g, id, at);
    PushedShape(m, ops, g, id, at);
    PushKeepsDepths(m, ops, g, id, at);
    forall c ensures Settled(m, ops, k, c) {
      assert Settled(m, ops, g, c);
      PushedSettled(m, ops, g, id, at, c);
    }
    forall c ensures Incomplete(ops, k, c) {
      assert Incomplete(ops, g, c);
      FullOrder(g.order, |ops|);
      FullOrder(k.order, |ops|);
    }
  }

  lemma PushKeepsDepths<S(!new), I, O>(m: Model<S, I, O>, ops: seq<Operation<I, O>>, g: Search<S>, id: nat, at: nat)
    requires CanPush(m, ops, g, id) && at >= 1 && NothingBetween(ops, Elems(g.order) + {id}, 0, at)
    ensures var k := Pushed(m, ops, g, id, at);
            && Sized(ops, k) && (forall d: nat :: DepthOk(m, ops, k, d))
               && (forall d: nat, x: nat :: Tried(m, ops, k, d, x))
  {
    var k := Pushed(m, ops, g, id, at);
    PushedShape(m, ops, g, id, at);
    forall d: nat ensures DepthOk(m, ops, k, d) {
      assert DepthOk(m, ops, g, d);
      PushedDepth(m, ops, g, id, at, d);
    }
    forall d: nat, x: nat ensures Tried(m, ops, k, d, x) {
      assert Tried(m, ops, g, d, x);
      PushedTried(m, ops, g, id, at, d, x);
    }
  }

  /** The call under the scan is not allowed next, or leads to a configuration already cached. */
  lemma SkipKeeps<S(!new), I, O>(m: Model<S, I, O>, ops: seq<Operation<I, O>>, g: Search<S>, id: nat, at: nat)
    requires SearchInv(m, ops, g) && id < |ops| && id !in Elems(g.order) && g.at == ops[id].call + 1
    requires Allowed(m, ops, g.states[|g.order|], id) ==>
               Child(m, ops, (Elems(g.order), g.states[|g.order|]), id) in g.seen
    requires at > g.at && NothingBetween(ops, Elems(g.order), g.at, at)
    ensures SearchInv(m, ops, g.(at := at))
  {
    var k := g.(at := at);
    var n := |g.order|;
    assert g.order[..n] == g.order;
    forall d: nat ensures DepthOk(m, ops, k, d) { assert DepthOk(m, ops, g, d); }
    forall d: nat, x: nat ensures Tried(m, ops, k, d, x) { assert Tried(m, ops, g, d, x); }
    forall c ensures Settled(m, ops, k, c) {
      assert Settled(m, ops, g, c);
      if c in g.seen && OnPath(g, c) {
        var d: nat :| d <= n && c == ConfigAt(g, d);
        assert c == ConfigAt(k, d);
      }
    }
    forall c ensures Incomplete(ops, k, c) { assert Incomplete(ops, g, c); }
  }

  /** When the scan meets a return, the configuration on top is fully explored. */
  lemma TopExplored<S(!new), I, O>(m: Model<S, I, O>, ops: seq<Operation<I, O>>, g: Search<S>, r: nat)
    requires SearchInv(m, ops, g) && r < |ops| && r !in Elems(g.order) && g.at == ops[r].ret + 1
    ensures Explored(m, ops, g.seen, ConfigAt(g, |g.order|))
  {
    var n := |g.order|;
    assert g.order[..n] == g.order;
    forall id: nat ensures Reaches(m, ops, g.seen, ConfigAt(g, n), id) {
      if Minimal(ops, Elems(g.order), id) {
        assert !Precedes(ops, r, id);
        assert Tried(m, ops, g, n, id);
      }
    }
  }

  function Popped<S>(g: Search<S>, at: nat): Search<S>
    requires |g.order| >= 1 && |g.states| == |g.order| + 1
  {
    Search(g.order[..|g.order| - 1], g.states[..|g.order|], at, g.seen)
  }

  lemma PoppedShape<S(!new), I, O>(m: Model<S, I, O>, ops: seq<Operation<I, O>>, g: Search<S>, at: nat)
    requires SearchInv(m, ops, g) && |g.order| >= 1 && at >= 1
    ensures Shaped(m, ops, Popped(g, at))
  {
    var n := |g.order| - 1;
    var k := Popped(g, at);
    assert DepthOk(m, ops, g, n);
    forall i | 0 <= i < |k.order| ensures Minimal(ops, Elems(k.order[..i]), k.order[i]) {
      assert k.order[..i] == g.order[..i];
      assert Minimal(ops, Elems(g.order[..i]), g.order[i]);
    }
  }

  lemma PoppedDepths<S(!new), I, O>(m: Model<S, I, O>, ops: seq<Operation<I, O>>, g: Search<S>, at: nat)
    requires SearchInv(m, ops, g) && |g.order| >= 1
    requires var n := |g.order| - 1;
             at > ops[g.order[n]].call + 1 && NothingBetween(ops, Elems(g.order[..n]), ops[g.order[n]].call + 1, at)
    requires Shaped(m, ops, Popped(g, at))
    ensures forall d: nat :: DepthOk(m, ops, Popped(g, at), d)
    ensures forall d: nat, x: nat :: Tried(m, ops, Popped(g, at), d, x)
  {
    var k := Popped(g, at);
    forall d: nat ensures DepthOk(m, ops, k, d) { PoppedDepth(m, ops, g, at, d); }
    forall d: nat, x: nat ensures Tried(m, ops, k, d, x) { PoppedTried(m, ops, g, at, d, x); }
  }

  lemma PoppedDepth<S(!new), I, O>(m: Model<S, I, O>, ops: seq<Operation<I, O>>, g: Search<S>, at: nat, d: nat)
    requires SearchInv(m, ops, g) && |g.order| >= 1
    requires var n := |g.order| - 1;
             at > ops[g.order[n]].call + 1 && NothingBetween(ops, Elems(g.order[..n]), ops[g.order[n]].call + 1, at)
    requires Shaped(m, ops, Popped(g, at))
    ensures DepthOk(m, ops, Popped(g, at), d)
  {
    var n := |g.order| - 1;
    var k := Popped(g, at);
    assert DepthOk(m, ops, g, d);
    if d <= n { assert k.order[..d] == g.order[..d]; }
    if d < n { assert k.order[..d + 1] == g.order[..d + 1]; }
  }

  lemma PoppedTried<S(!new), I, O>(m: Model<S, I, O>, ops: seq<Operation<I, O>>, g: Search<S>, at: nat, d: nat, x: nat)
    requires SearchInv(m, ops, g) && |g.order| >= 1
    requires var n := |g.order| - 1;
             at > ops[g.order[n]].call + 1 && NothingBetween(ops, Elems(g.order[..n]), ops[g.order[n]].call + 1, at)
    requires Shaped(m, ops, Popped(g, at))
    ensures Tried(m, ops, Popped(g, at), d, x)
  {
    var n := |g.order| - 1;
    var k := Popped(g, at);
    assert Tried(m, ops, g, d, x);
    if d <= n { assert k.order[..d] == g.order[..d]; }
    if d == n && x == g.order[n] { LastStep(m, ops, g); }
  }

  /** The configuration on top is the child its last operation leads to. */
  lemma LastStep<S(!new), I, O>(m: Model<S, I, O>, ops: seq<Operation<I, O>>, g: Search<S>)
    requires SearchInv(m, ops, g) && |g.order| >= 1
    ensures var n := |g.order| - 1;
            ConfigAt(g, n + 1) == Child(m, ops, ConfigAt(g, n), g.order[n]) && ConfigAt(g, n + 1) in g.seen
  {
    var n := |g.order| - 1;
    assert DepthOk(m, ops, g, n) && DepthOk(m, ops, g, n + 1);
    assert g.order[..n + 1] == g.order && g.order[..n + 1][..n] == g.order[..n];
    Shorter(g.order);
  }

  /** Give up the last linearized operation and continue after its call. */
  lemma PopKeeps<S(!new), I, O>(m: Model<S, I, O>, ops: seq<Operation<I, O>>, g: Search<S>, r: nat, at: nat)
    requires SearchInv(m, ops, g) && |g.order| >= 1
    requires r < |ops| && r !in Elems(g.order) && g.at == ops[r].ret + 1
    requires var n := |g.order| - 1;
             at > ops[g.order[n]].call + 1 && NothingBetween(ops, Elems(g.order[..n]), ops[g.order[n]].call + 1, at)
    ensures SearchInv(m, ops, Popped(g, at))
  {
    var n := |g.order| - 1;
    var k := Popped(g, at);
    PoppedShape(m, ops, g, at);
    PoppedDepths(m, ops, g, at);
    TopExplored(m, ops, g, r);
    forall c ensures Settled(m, ops, k, c) {
      assert Settled(m, ops, g, c);
      if c in g.seen && OnPath(g, c) {
        var d: nat :| d <= n + 1 && c == ConfigAt(g, d);
        if d <= n {
          assert k.order[..d] == g.order[..d];
          assert c == ConfigAt(k, d);
        }
      }
    }
    forall c ensures Incomplete(ops, k, c) {
      assert Incomplete(ops, g, c);
      FullOrder(g.order, |ops|);
    }
  }

  // ---------- verdicts ----------

  ghost predicate ClosedAt<S, I, O>(m: Model<S, I, O>, ops: seq<Operation<I, O>>, seen: set<(set<nat>, S)>,
                                    c: (set<nat>, S)) {
    c in seen || c == ({}, m.init) ==> Explored(m, ops, seen, c)
  }

  /** A partial linearization without its last operation. */
  lemma PartialInit<S, I, O>(m: Model<S, I, O>, ops: seq<Operation<I, O>>, order: seq<nat>)
    requires Partial(m, ops, order) && order != []
    ensures var init, last := order[..|order| - 1], order[|order| - 1];
            && Partial(m, ops, init) && Minimal(ops, Elems(init), last)
            && Allowed(m, ops, Replay(m, ops, init).value, last)
            && Replay(m, ops, order).value == Next(m, ops, Replay(m, ops, init).value, last)
  {
    var n := |order| - 1;
    var init := order[..n];
    forall i | 0 <= i < n ensures Minimal(ops, Elems(init[..i]), init[i]) {
      assert init[..i] == order[..i];
      assert Minimal(ops, Elems(order[..i]), order[i]);
    }
    assert Minimal(ops, Elems(order[..n]), order[n]);
  }

  /** Every way of starting a linearization has been entered in the cache once the search ends
      without success. */
  lemma {:induction false} ClosedCovers<S(!new), I, O>(m: Model<S, I, O>, ops: seq<Operation<I, O>>,
                                                       seen: set<(set<nat>, S)>, order: seq<nat>)
    requires forall c :: ClosedAt(m, ops, seen, c)
    requires Partial(m, ops, order) && order != []
    ensures (Elems(order), Replay(m, ops, order).value) in seen
  {
    var n := |order| - 1;
    var init := order[..n];
    PartialInit(m, ops, order);
    var c := (Elems(init), Replay(m, ops, init).value);
    if n == 0 {
      assert Elems(init) == {};
    } else {
      ClosedCovers(m, ops, seen, init);
    }
    assert ClosedAt(m, ops, seen, c) && Reaches(m, ops, seen, c, order[n]);
    Shorter(order);
  }

  lemma ExhaustedIsClosed<S(!new), I, O>(m: Model<S, I, O>, ops: seq<Operation<I, O>>, g: Search<S>, r: nat)
    requires SearchInv(m, ops, g) && g.order == []
    requires r < |ops| && g.at == ops[r].ret + 1
    ensures forall c :: ClosedAt(m, ops, g.seen, c)
  {
    TopExplored(m, ops, g, r);
    assert DepthOk(m, ops, g, 0) && Done(g, 0) == {};
    forall c ensures ClosedAt(m, ops, g.seen, c) {
      assert Settled(m, ops, g, c);
      if c in g.seen && OnPath(g, c) {
        var d: nat :| d <= |g.order| && c == ConfigAt(g, d);
        assert d == 0;
      }
    }
  }

  /** Nothing left on the path and a return under the scan: there is no linearization. */
  lemma ExhaustedMeansNone<S(!new), I, O>(m: Model<S, I, O>, ops: seq<Operation<I, O>>, g: Search<S>, r: nat)
    requires SearchInv(m, ops, g) && g.order == []
    requires r < |ops| && g.at == ops[r].ret + 1
    ensures !Linearizable(m, ops)
  {
    ExhaustedIsClosed(m, ops, g, r);
    forall order: seq<nat> ensures !Linearization(m, ops, order) {
      if |order| == |ops| {
        CompletePartial(m, ops, order);
        if Partial(m, ops, order) {
          FullOrder(order, |ops|);
          assert Incomplete(ops, g, (Elems(order), Replay(m, ops, order).value));
          ClosedCovers(m, ops, g.seen, order);
        }
      }
    }
  }

  /** An empty list: the path is a linearization. */
  lemma CompleteMeansFound<S(!new), I, O>(m: Model<S, I, O>, ops: seq<Operation<I, O>>, g: Search<S>)
    requires SearchInv(m, ops, g) && Elems(g.order) == Below(|ops|)
    ensures Linearization(m, ops, g.order)
  {
    FullOrder(g.order, |ops|);
    CompletePartial(m, ops, g.order);
  }
}
