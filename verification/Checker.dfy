/** The linearizability checker: a search over a linked list with a cache of visited
    configurations, proved to decide linearizability of every well-formed history. */
module Checker {
  import opened Prelude
  import opened Linearizability
  import opened Search
  import opened SearchProgress
  import opened DancingLinks
  import opened CheckerList
  import Bitset

  // ---------- building the list ----------

  ghost predicate ChainedAt<I, O>(nodes: seq<Node<I, O>>, k: nat)
    reads nodes
  {
    k < |nodes| ==> nodes[k].next == NodeAt(nodes, k + 1) && nodes[k].prev == NodeAt(nodes, k - 1)
  }

  /** Neighbours in the sequence are neighbours in the list. */
  ghost predicate Chained<I, O>(nodes: seq<Node<I, O>>)
    reads nodes
  {
    NoRepeats(nodes) && forall k: nat :: ChainedAt(nodes, k)
  }

  lemma ChainedRepresents<I, O>(nodes: seq<Node<I, O>>)
    requires Chained(nodes)
    ensures Represents(nodes, Chain(|nodes|))
  {
    forall k: nat ensures RepresentsAt(nodes, Chain(|nodes|), k) { assert ChainedAt(nodes, k); }
  }

  /** The list with a new node before position k. */
  ghost function Inserted<I, O>(nodes: seq<Node<I, O>>, k: nat, n: Node<I, O>): seq<Node<I, O>>
    requires k <= |nodes|
  {
    nodes[..k] + [n] + nodes[k..]
  }

  /** Put a new node before mark, wherever mark is in its list; without a mark it stays alone. */
  method InsertBefore<I, O>(n: Node<I, O>, mark: Node?<I, O>, ghost rest: seq<Node<I, O>>, ghost k: nat)
    requires Chained(rest) && k <= |rest| && mark == NodeAt(rest, k) && (mark == null ==> rest == [])
    requires n !in rest && n.next == null && n.prev == null
    modifies n, rest
    ensures Chained(Inserted(rest, k, n))
  {
    assert ChainedAt(rest, k) && (k > 0 ==> ChainedAt(rest, k - 1));
    if mark != null {
      var beforeMark := mark.prev;
      mark.prev := n;
      n.next := mark;
      if beforeMark != null {
        n.prev := beforeMark;
        beforeMark.next := n;
      }
    }
    ghost var nodes := Inserted(rest, k, n);
    forall j: nat ensures ChainedAt(nodes, j) {
      if j < k { assert old(ChainedAt(rest, j)) && nodes[j] == rest[j]; }
      if k < j < |nodes| { assert old(ChainedAt(rest, j - 1)) && nodes[j] == rest[j - 1]; }
    }
  }

  /** The nodes built for the entries from position i on. */
  ghost predicate Tail<I, O>(h: seq<Event<I, O>>, ops: seq<Operation<I, O>>, rest: seq<Node<I, O>>, i: nat) {
    && i <= |h| && |rest| == |h| - i
    && forall p: nat :: TailEntry(h, ops, rest, i, p)
  }

  ghost predicate TailEntry<I, O>(h: seq<Event<I, O>>, ops: seq<Operation<I, O>>, rest: seq<Node<I, O>>, i: nat, p: nat)
    requires i <= |h| && |rest| == |h| - i
  {
    i <= p < |h| ==>
      && rest[p - i].event == Some(h[p])
      && (h[p].Call? ==> h[p].id < |ops| && rest[p - i].matching == NodeAt(rest, ops[h[p].id].ret - i) != null)
      && (h[p].Return? ==> rest[p - i].matching == null)
  }

  /** The returns met so far, by operation. */
  ghost predicate ReturnsMet<I, O>(ops: seq<Operation<I, O>>, rest: seq<Node<I, O>>, i: nat,
                                   met: map<nat, Node<I, O>>) {
    forall a: nat :: a < |ops| && i <= ops[a].ret < i + |rest| ==> a in met && met[a] == rest[ops[a].ret - i]
  }

  lemma TailGrows<I, O>(h: seq<Event<I, O>>, ops: seq<Operation<I, O>>, rest: seq<Node<I, O>>, i: nat, n: Node<I, O>)
    requires Describes(h, ops) && Tail(h, ops, rest, i + 1) && i < |h| && n.event == Some(h[i])
    requires h[i].Call? ==> h[i].id < |ops| && n.matching == NodeAt(rest, ops[h[i].id].ret - (i + 1)) != null
    requires h[i].Return? ==> n.matching == null
    ensures Tail(h, ops, [n] + rest, i)
  {
    var nodes := [n] + rest;
    forall p: nat ensures TailEntry(h, ops, nodes, i, p) {
      assert EventAt(h, ops, p);
      if i <= p < |h| { assert OperationAt(h, ops, h[p].id); }
      if p > i { assert TailEntry(h, ops, rest, i + 1, p); }
    }
  }

  lemma ReturnsGrow<I, O>(h: seq<Event<I, O>>, ops: seq<Operation<I, O>>, rest: seq<Node<I, O>>, i: nat, n: Node<I, O>,
                          met: map<nat, Node<I, O>>, now: map<nat, Node<I, O>>)
    requires Describes(h, ops) && |rest| == |h| - (i + 1) && i < |h| && ReturnsMet(ops, rest, i + 1, met)
    requires now == if h[i].Return? then met[h[i].id := n] else met
    ensures ReturnsMet(ops, [n] + rest, i, now)
  {
    var nodes := [n] + rest;
    forall a: nat | a < |ops| && i <= ops[a].ret < i + |nodes| ensures a in now && now[a] == nodes[ops[a].ret - i] {
      assert OperationAt(h, ops, a) && EventAt(h, ops, i);
    }
  }

  method MakeLinkedEntries<I, O>(h: seq<Event<I, O>>, ghost ops: seq<Operation<I, O>>)
    returns (root: Node?<I, O>, ghost nodes: seq<Node<I, O>>)
    requires Describes(h, ops)
    ensures forall k :: 0 <= k < |nodes| ==> fresh(nodes[k])
    ensures Chained(nodes) && root == NodeAt(nodes, 0) && Tail(h, ops, nodes, 0)
  {
    root, nodes := null, [];
    var met: map<nat, Node<I, O>> := map[];
    for i := |h| downto 0
      invariant forall k :: 0 <= k < |nodes| ==> fresh(nodes[k])
      invariant Chained(nodes) && root == NodeAt(nodes, 0) && Tail(h, ops, nodes, i)
      invariant ReturnsMet(ops, nodes, i, met)
    {
      var elem := h[i];
      assert EventAt(h, ops, i) && OperationAt(h, ops, elem.id);
      ghost var before := met;
      var entry;
      if elem.Return? {
        entry := new Node(Some(elem), null);
        met := met[elem.id := entry];
      } else {
        entry := new Node(Some(elem), met[elem.id]);
      }
      TailGrows(h, ops, nodes, i, entry);
      ReturnsGrow(h, ops, nodes, i, entry, before, met);
      InsertBefore(entry, root, nodes, 0);
      assert Inserted(nodes, 0, entry) == [entry] + nodes;
      root := entry;
      nodes := [entry] + nodes;
    }
  }

  lemma TailCarries<I, O>(h: seq<Event<I, O>>, ops: seq<Operation<I, O>>, rest: seq<Node<I, O>>, head: Node<I, O>)
    requires Tail(h, ops, rest, 0) && head.event == None
    ensures Carries([head] + rest, h, ops)
  {
    var nodes := [head] + rest;
    forall p: nat ensures CarriesEntry(nodes, h, ops, p) { assert TailEntry(h, ops, rest, 0, p); }
  }

  // ---------- the cache ----------

  datatype CacheEntry<S> = CacheEntry(linearized: seq<Bitset.Word>, state: S)

  type Cache<S> = map<Bitset.Word, seq<CacheEntry<S>>>

  ghost function ConfigOf<S>(e: CacheEntry<S>): (set<nat>, S) { (Bitset.Members(e.linearized), e.state) }

  ghost predicate Holds<S>(cache: Cache<S>, w: Bitset.Word, i: nat, c: (set<nat>, S)) {
    w in cache && i < |cache[w]| && ConfigOf(cache[w][i]) == c
  }

  ghost predicate EntryOk<S>(cache: Cache<S>, chunks: nat, seen: set<(set<nat>, S)>, w: Bitset.Word, i: nat) {
    w in cache && i < |cache[w]| ==>
      var e := cache[w][i];
      |e.linearized| == chunks && Bitset.HashOf(e.linearized) == w && ConfigOf(e) in seen
  }

  ghost predicate Cached<S>(cache: Cache<S>, c: (set<nat>, S)) {
    exists w, i: nat :: Holds(cache, w, i, c)
  }

  /** The hash table represents the plain set `seen`. */
  ghost predicate CacheOk<S>(cache: Cache<S>, chunks: nat, seen: set<(set<nat>, S)>) {
    && (forall w, i: nat :: EntryOk(cache, chunks, seen, w, i))
    && (forall c :: c in seen ==> Cached(cache, c))
  }

  /** Looking only in the bucket of the hash answers exactly as the plain set would. */
  method CacheContains<S(==)>(cache: Cache<S>, e: CacheEntry<S>, ghost chunks: nat, ghost seen: set<(set<nat>, S)>)
    returns (found: bool)
    requires CacheOk(cache, chunks, seen) && |e.linearized| == chunks
    ensures found <==> ConfigOf(e) in seen
  {
    var w := Bitset.Hash(e.linearized);
    if w in cache {
      var bucket := cache[w];
      for i := 0 to |bucket|
        invariant forall j :: 0 <= j < i ==> ConfigOf(bucket[j]) != ConfigOf(e)
      {
        assert EntryOk(cache, chunks, seen, w, i);
        var same := Bitset.Equals(e.linearized, bucket[i].linearized);
        if same && e.state == bucket[i].state {
          return true;
        }
      }
    }
    if ConfigOf(e) in seen {
      ghost var v, i: nat :| Holds(cache, v, i, ConfigOf(e));
      assert EntryOk(cache, chunks, seen, v, i);
      Bitset.MembersDecide(e.linearized, cache[v][i].linearized);
    }
    return false;
  }

  method CacheAdd<S(==)>(cache: Cache<S>, e: CacheEntry<S>, ghost chunks: nat, ghost seen: set<(set<nat>, S)>)
    returns (now: Cache<S>)
    requires CacheOk(cache, chunks, seen) && |e.linearized| == chunks
    ensures CacheOk(now, chunks, seen + {ConfigOf(e)})
  {
    var w := Bitset.Hash(e.linearized);
    now := cache[w := (if w in cache then cache[w] else []) + [e]];
    forall v, i: nat ensures EntryOk(now, chunks, seen + {ConfigOf(e)}, v, i) {
      assert EntryOk(cache, chunks, seen, v, i);
    }
    forall c | c in seen + {ConfigOf(e)} ensures Cached(now, c) {
      if c in seen {
        var v, i: nat :| Holds(cache, v, i, c);
        assert Holds(now, v, i, c);
      } else {
        assert Holds(now, w, |now[w]| - 1, c);
      }
    }
  }

  // ---------- recording attempts ----------

  datatype CallsEntry<S, I, O> = CallsEntry(entry: Node<I, O>, state: S)

  /** For every operation on the stack, remember the attempt if it is the longest so far. */
  method RecordAttempt(longest: Record, order: seq<nat>) returns (now: Record)
    requires InRange(order, |longest|)
    ensures Updated(longest, now, order)
  {
    now := longest;
    for i := 0 to |order|
      invariant |now| == |longest|
      invariant forall id: nat :: id < |longest| ==>
        now[id] == if id in order[..i] && (longest[id].None? || |order| > |longest[id].value|)
                   then Some(order) else longest[id]
    {
      var id := order[i];
      if now[id].None? || |order| > |now[id].value| {
        now := now[id := Some(order)];
      }
    }
    assert order[..|order|] == order;
  }

  // ---------- the search over the list ----------

  ghost predicate TrailAt<S, I, O>(h: seq<Event<I, O>>, ops: seq<Operation<I, O>>, g: Search<S>, trail: seq<Links>,
                                   ls: Links, d: nat)
    requires |trail| == |g.order| && InRange(g.order, |ops|)
  {
    d < |g.order| ==>
      var a := g.order[d];
      && Linked(trail[d], LiveNodes(h, Done(g, d)))
      && ops[a].call >= 0 && ops[a].ret >= 0 && CanLift(trail[d], ops[a].call + 1, ops[a].ret + 1)
      && (if d + 1 < |trail| then trail[d + 1] else ls) == Lifted(trail[d], ops[a].call + 1, ops[a].ret + 1)
  }

  /** The list holds exactly the outstanding entries, and the trail the links before each lift. */
  ghost predicate ListInv<S, I, O>(h: seq<Event<I, O>>, ops: seq<Operation<I, O>>, g: Search<S>, trail: seq<Links>,
                                   ls: Links) {
    && |trail| == |g.order| && InRange(g.order, |ops|)
    && Linked(ls, LiveNodes(h, Elems(g.order)))
    && forall d: nat :: TrailAt(h, ops, g, trail, ls, d)
  }

  lemma ListAfterPush<S, I, O>(m: Model<S, I, O>, h: seq<Event<I, O>>, ops: seq<Operation<I, O>>, g: Search<S>,
                               trail: seq<Links>, ls: Links, a: nat, at: nat)
    requires Describes(h, ops) && ListInv(h, ops, g, trail, ls) && a < |ops| && a !in Elems(g.order)
             && |g.states| == |g.order| + 1
    ensures 0 < ops[a].call + 1 < ops[a].ret + 1 && CanLift(ls, ops[a].call + 1, ops[a].ret + 1)
    ensures ListInv(h, ops, Pushed(m, ops, g, a, at), trail + [ls], Lifted(ls, ops[a].call + 1, ops[a].ret + 1))
  {
    var k := Pushed(m, ops, g, a, at);
    LiftedList(h, ops, ls, Elems(g.order), a);
    PushedTop(m, ops, g, a, at);
    var now := Lifted(ls, ops[a].call + 1, ops[a].ret + 1);
    forall d: nat ensures TrailAt(h, ops, k, trail + [ls], now, d) {
      assert TrailAt(h, ops, g, trail, ls, d);
      TrailAfterPush(m, h, ops, g, trail, ls, a, at, d);
    }
  }

  lemma TrailAfterPush<S, I, O>(m: Model<S, I, O>, h: seq<Event<I, O>>, ops: seq<Operation<I, O>>, g: Search<S>,
                                trail: seq<Links>, ls: Links, a: nat, at: nat, d: nat)
    requires Sized(ops, g) && |trail| == |g.order| && a < |ops| && TrailAt(h, ops, g, trail, ls, d)
    requires ops[a].call >= 0 && ops[a].ret >= 0 && CanLift(ls, ops[a].call + 1, ops[a].ret + 1)
             && Linked(ls, LiveNodes(h, Elems(g.order)))
    ensures Sized(ops, Pushed(m, ops, g, a, at))
    ensures TrailAt(h, ops, Pushed(m, ops, g, a, at), trail + [ls], Lifted(ls, ops[a].call + 1, ops[a].ret + 1), d)
  {
    PushedTop(m, ops, g, a, at);
    if d <= |g.order| { PushedBelow(m, ops, g, a, at, d); }
    assert g.order[..|g.order|] == g.order;
  }

  /** Taking back the last lift restores the links as they were before it. */
  lemma PopRestores<S, I, O>(h: seq<Event<I, O>>, ops: seq<Operation<I, O>>, g: Search<S>, trail: seq<Links>, ls: Links)
    requires Describes(h, ops) && ListInv(h, ops, g, trail, ls) && |g.order| >= 1 && Distinct(g.order)
    ensures var n := |g.order| - 1;
            var a := g.order[n];
            && a !in Done(g, n) && Linked(trail[n], LiveNodes(h, Done(g, n)))
            && 0 < ops[a].call + 1 < ops[a].ret + 1
            && CanUnlift(ls, ops[a].call + 1, ops[a].ret + 1)
            && Unlifted(ls, ops[a].call + 1, ops[a].ret + 1) == trail[n]
  {
    var n := |g.order| - 1;
    var a := g.order[n];
    assert TrailAt(h, ops, g, trail, ls, n) && a !in Done(g, n);
    LiftUndone(h, ops, trail[n], ls, Done(g, n), a);
  }

  lemma LiftUndone<I, O>(h: seq<Event<I, O>>, ops: seq<Operation<I, O>>, before: Links, after: Links, done: set<nat>,
                         a: nat)
    requires Describes(h, ops) && a < |ops| && a !in done && Linked(before, LiveNodes(h, done))
    requires ops[a].call >= 0 && ops[a].ret >= 0 && CanLift(before, ops[a].call + 1, ops[a].ret + 1)
    requires after == Lifted(before, ops[a].call + 1, ops[a].ret + 1)
    ensures 0 < ops[a].call + 1 < ops[a].ret + 1
    ensures CanUnlift(after, ops[a].call + 1, ops[a].ret + 1)
            && Unlifted(after, ops[a].call + 1, ops[a].ret + 1) == before
  {
    LiveEntries(h, ops, done, a);
    HeadIsLive(h, done);
    UnliftRestores(before, LiveNodes(h, done), ops[a].call + 1, ops[a].ret + 1);
  }

  lemma ListAfterPop<S, I, O>(h: seq<Event<I, O>>, ops: seq<Operation<I, O>>, g: Search<S>, trail: seq<Links>,
                              ls: Links, at: nat)
    requires ListInv(h, ops, g, trail, ls) && |g.order| >= 1 && |g.states| == |g.order| + 1
    ensures ListInv(h, ops, Popped(g, at), trail[..|g.order| - 1], trail[|g.order| - 1])
  {
    var n := |g.order| - 1;
    var k := Popped(g, at);
    assert TrailAt(h, ops, g, trail, ls, n);
    forall d: nat ensures TrailAt(h, ops, k, trail[..n], trail[n], d) {
      assert TrailAt(h, ops, g, trail, ls, d);
      TrailAfterPop(h, ops, g, trail, ls, at, d);
    }
  }

  lemma TrailAfterPop<S, I, O>(h: seq<Event<I, O>>, ops: seq<Operation<I, O>>, g: Search<S>, trail: seq<Links>,
                               ls: Links, at: nat, d: nat)
    requires Sized(ops, g) && |trail| == |g.order| >= 1 && TrailAt(h, ops, g, trail, ls, d)
    ensures InRange(Popped(g, at).order, |ops|)
    ensures TrailAt(h, ops, Popped(g, at), trail[..|g.order| - 1], trail[|g.order| - 1], d)
  {
    var k := Popped(g, at);
    if d < |g.order| - 1 { assert k.order[..d] == g.order[..d] && k.order[d] == g.order[d]; }
  }

  /** All of the search's bookkeeping that does not live on the heap. */
  ghost predicate Bookkeeping<S(!new), I, O>(m: Model<S, I, O>, h: seq<Event<I, O>>, ops: seq<Operation<I, O>>,
                                             g: Search<S>,
                                             trail: seq<Links>, ls: Links, longest: Record, partial: bool) {
    && Describes(h, ops) && SearchInv(m, ops, g) && ListInv(h, ops, g, trail, ls)
    && |longest| == |ops| && (partial ==> RecordInv(m, ops, g, longest))
    && WithinNodes(ops, g, |h|)
    && (if g.at <= |h| then g.at in LiveNodes(h, Elems(g.order)) else Elems(g.order) == Below(|ops|))
  }

  lemma NodesInRange<I, O>(h: seq<Event<I, O>>, ops: seq<Operation<I, O>>)
    requires Describes(h, ops)
    ensures forall a :: 0 <= a < |ops| ==> 0 <= ops[a].call < |h|
  {
    forall a | 0 <= a < |ops| ensures 0 <= ops[a].call < |h| { assert OperationAt(h, ops, a); }
  }

  /** The head has no successor exactly when every operation is linearized. */
  lemma EmptyListIff<I, O>(h: seq<Event<I, O>>, ops: seq<Operation<I, O>>, ls: Links, done: set<nat>)
    requires Describes(h, ops) && Linked(ls, LiveNodes(h, done)) && done <= Below(|ops|)
    ensures 0 < |ls.next| && ls.next[0] <= |h| && (ls.next[0] < 0 <==> done == Below(|ops|))
  {
    HeadIsLive(h, done);
    AfterNode(ls, LiveNodes(h, done), 0);
    if ls.next[0] >= 0 {
      assert EventAt(h, ops, ls.next[0] - 1);
    } else {
      forall a: nat | a < |ops| ensures a in done { LiveEntries(h, ops, done, a); }
    }
  }

  lemma StartBookkeeping<S(!new), I, O>(m: Model<S, I, O>, h: seq<Event<I, O>>, ops: seq<Operation<I, O>>,
                                        longest: Record, partial: bool)
    requires Describes(h, ops) && |longest| == |ops| && forall id :: 0 <= id < |longest| ==> longest[id].None?
    ensures Bookkeeping(m, h, ops, Search([], [m.init], 1, {}), [], Chain(|h| + 1), longest, partial)
  {
    var g := Search([], [m.init], 1, {});
    DescribedIsWellTimed(h, ops);
    SearchStarts(m, ops);
    NodesInRange(h, ops);
    assert Elems(g.order) == {};
    ChainLinked(|h| + 1, LiveNodes(h, {}));
    if |h| == 0 { assert Below(|ops|) == {}; }
  }

  /** Operation id and its list entries can be taken out. */
  ghost predicate CanEnter<S, I, O>(ops: seq<Operation<I, O>>, t: Trace<S>, id: nat) {
    && Sized(ops, t.search) && id < |ops| && 0 < ops[id].call + 1 < ops[id].ret + 1
    && CanLift(t.links, ops[id].call + 1, ops[id].ret + 1) && 0 < |t.links.next|
  }

  /** The trace after entering a new configuration. */
  ghost function EnterTrace<S, I, O>(m: Model<S, I, O>, h: seq<Event<I, O>>, ops: seq<Operation<I, O>>, t: Trace<S>,
                                     id: nat): Trace<S>
    requires CanEnter(ops, t, id)
  {
    var now := Lifted(t.links, ops[id].call + 1, ops[id].ret + 1);
    Trace(Pushed(m, ops, t.search, id, NodeAfter(now, 0, |h|)), t.trail + [t.links], now)
  }

  lemma AfterPush<S(!new), I, O>(m: Model<S, I, O>, h: seq<Event<I, O>>, ops: seq<Operation<I, O>>, t: Trace<S>,
                                 longest: Record, partial: bool, a: nat)
    requires Bookkeeping(m, h, ops, t.search, t.trail, t.links, longest, partial) && CanPush(m, ops, t.search, a)
    requires Child(m, ops, (Elems(t.search.order), t.search.states[|t.search.order|]), a) !in t.search.seen
    ensures CanEnter(ops, t, a)
    ensures var u := EnterTrace(m, h, ops, t, a);
            && Bookkeeping(m, h, ops, u.search, u.trail, u.links, longest, partial)
            && Remaining(ops, u.search, |h|) < Remaining(ops, t.search, |h|)
            && Elems(u.search.order) == Elems(t.search.order) + {a}
  {
    ScanAfterPush(m, h, ops, t, a);
    var at := EnterTrace(m, h, ops, t, a).search.at;
    PushKeeps(m, ops, t.search, a, at);
    if partial { PushKeepsRecord(m, ops, t.search, longest, a, at); }
    FullOrder(Pushed(m, ops, t.search, a, at).order, |ops|);
    PushProgresses(m, ops, t.search, a, at, |h|);
  }

  /** The list after a push, and the node the scan restarts from. */
  lemma ScanAfterPush<S, I, O>(m: Model<S, I, O>, h: seq<Event<I, O>>, ops: seq<Operation<I, O>>, t: Trace<S>, a: nat)
    requires Describes(h, ops) && ListInv(h, ops, t.search, t.trail, t.links) && a < |ops|
             && a !in Elems(t.search.order) && Sized(ops, t.search)
    ensures CanEnter(ops, t, a)
    ensures var u, done := EnterTrace(m, h, ops, t, a), Elems(t.search.order) + {a};
            && ListInv(h, ops, u.search, u.trail, u.links) && Elems(u.search.order) == done
            && 1 <= u.search.at <= |h| + 1 && NothingBetween(ops, done, 0, u.search.at)
            && (if u.search.at <= |h| then u.search.at in LiveNodes(h, done) else done == Below(|ops|))
  {
    var g, ls := t.search, t.links;
    var done := Elems(g.order);
    InRangeBelow(g.order, |ops|);
    LiftedList(h, ops, ls, done, a);
    var now := Lifted(ls, ops[a].call + 1, ops[a].ret + 1);
    RestartNode(h, ops, now, done + {a});
    var at := NodeAfter(now, 0, |h|);
    ListAfterPush(m, h, ops, g, t.trail, ls, a, at);
    PushedTop(m, ops, g, a, at);
  }

  lemma InRangeBelow(order: seq<nat>, n: nat)
    requires InRange(order, n)
    ensures Elems(order) <= Below(n)
  {
  }

  /** The list without operation a's two entries. */
  lemma LiftedList<I, O>(h: seq<Event<I, O>>, ops: seq<Operation<I, O>>, ls: Links, done: set<nat>, a: nat)
    requires Describes(h, ops) && Linked(ls, LiveNodes(h, done)) && a < |ops| && a !in done
    ensures 0 < ops[a].call + 1 < ops[a].ret + 1 && CanLift(ls, ops[a].call + 1, ops[a].ret + 1) && 0 < |ls.next|
    ensures Linked(Lifted(ls, ops[a].call + 1, ops[a].ret + 1), LiveNodes(h, done + {a}))
  {
    LiveEntries(h, ops, done, a);
    HeadIsLive(h, done);
    LiftKeepsList(ls, LiveNodes(h, done), ops[a].call + 1, ops[a].ret + 1);
    LiveWithout(h, ops, done, a);
  }

  /** The first node after the head: no outstanding entry is before it. */
  lemma RestartNode<I, O>(h: seq<Event<I, O>>, ops: seq<Operation<I, O>>, ls: Links, done: set<nat>)
    requires Describes(h, ops) && Linked(ls, LiveNodes(h, done)) && done <= Below(|ops|)
    ensures 0 < |ls.next| && 1 <= NodeAfter(ls, 0, |h|) <= |h| + 1
            && NothingBetween(ops, done, 0, NodeAfter(ls, 0, |h|))
    ensures if NodeAfter(ls, 0, |h|) <= |h| then NodeAfter(ls, 0, |h|) in LiveNodes(h, done) else done == Below(|ops|)
  {
    HeadIsLive(h, done);
    NextSkipsNothing(h, ops, ls, done, 0);
    EmptyListIff(h, ops, ls, done);
  }

  lemma AfterSkip<S(!new), I, O>(m: Model<S, I, O>, h: seq<Event<I, O>>, ops: seq<Operation<I, O>>, g: Search<S>,
                                 trail: seq<Links>, ls: Links, longest: Record, partial: bool, a: nat)
    requires Bookkeeping(m, h, ops, g, trail, ls, longest, partial)
    requires a < |ops| && a !in Elems(g.order) && g.at == ops[a].call + 1
    requires Allowed(m, ops, g.states[|g.order|], a) ==>
               Child(m, ops, (Elems(g.order), g.states[|g.order|]), a) in g.seen
    ensures g.at < |ls.next|
    ensures var k := g.(at := NodeAfter(ls, g.at, |h|));
            && k.at <= |h|
            && Bookkeeping(m, h, ops, k, trail, ls, longest, partial)
            && Remaining(ops, k, |h|) < Remaining(ops, g, |h|)
  {
    CallHasNext(h, ops, ls, Elems(g.order), a);
    NextSkipsNothing(h, ops, ls, Elems(g.order), g.at);
    var at := NodeAfter(ls, g.at, |h|);
    SkipKeeps(m, ops, g, a, at);
    if partial { SkipKeepsRecord(m, ops, g, longest, at); }
    SkipProgresses(ops, g, at, |h|);
    ListAfterSkip(h, ops, g, trail, ls, at);
  }

  lemma ListAfterSkip<S, I, O>(h: seq<Event<I, O>>, ops: seq<Operation<I, O>>, g: Search<S>, trail: seq<Links>,
                               ls: Links, at: nat)
    requires ListInv(h, ops, g, trail, ls)
    ensures ListInv(h, ops, g.(at := at), trail, ls)
  {
    var k := g.(at := at);
    forall d: nat ensures TrailAt(h, ops, k, trail, ls, d) { assert TrailAt(h, ops, g, trail, ls, d); }
  }

  /** There is an operation to give up, and its call is a node of the list before it was lifted. */
  ghost predicate CanLeave<S, I, O>(ops: seq<Operation<I, O>>, t: Trace<S>) {
    && Sized(ops, t.search) && |t.trail| == |t.search.order| >= 1
    && var n := |t.search.order| - 1; 0 <= ops[t.search.order[n]].call + 1 < |t.trail[n].next|
  }

  /** The trace after giving up the last operation. */
  ghost function LeaveTrace<S, I, O>(h: seq<Event<I, O>>, ops: seq<Operation<I, O>>, t: Trace<S>): Trace<S>
    requires CanLeave(ops, t)
  {
    var n := |t.search.order| - 1;
    Trace(Popped(t.search, NodeAfter(t.trail[n], ops[t.search.order[n]].call + 1, |h|)), t.trail[..n], t.trail[n])
  }

  /** The list after a pop, and the node the scan goes on from. */
  lemma ScanAfterPop<S, I, O>(h: seq<Event<I, O>>, ops: seq<Operation<I, O>>, t: Trace<S>)
    requires Describes(h, ops) && ListInv(h, ops, t.search, t.trail, t.links) && |t.search.order| >= 1
    requires Distinct(t.search.order) && Sized(ops, t.search)
    ensures CanLeave(ops, t)
    ensures var u, n := LeaveTrace(h, ops, t), |t.search.order| - 1;
            var x := ops[t.search.order[n]].call + 1;
            && ListInv(h, ops, u.search, u.trail, u.links)
            && Elems(u.search.order) == Elems(t.search.order) - {t.search.order[n]}
            && 1 <= x < u.search.at <= |h| && u.search.at in LiveNodes(h, Elems(u.search.order))
            && NothingBetween(ops, Elems(t.search.order[..n]), x, u.search.at)
  {
    var g, n := t.search, |t.search.order| - 1;
    PopRestores(h, ops, g, t.trail, t.links);
    NextAfterPopped(h, ops, g, t.trail[n]);
    ListAfterPop(h, ops, g, t.trail, t.links, NodeAfter(t.trail[n], ops[g.order[n]].call + 1, |h|));
    Shorter(g.order);
  }

  lemma AfterPop<S(!new), I, O>(m: Model<S, I, O>, h: seq<Event<I, O>>, ops: seq<Operation<I, O>>, t: Trace<S>,
                                longest: Record, now: Record, partial: bool, r: nat)
    requires Bookkeeping(m, h, ops, t.search, t.trail, t.links, longest, partial) && |t.search.order| >= 1
    requires r < |ops| && r !in Elems(t.search.order) && t.search.at == ops[r].ret + 1
    requires |now| == |longest| && (partial ==> Updated(longest, now, t.search.order))
    ensures CanLeave(ops, t)
    ensures var u := LeaveTrace(h, ops, t);
            && u.search.at <= |h| && Bookkeeping(m, h, ops, u.search, u.trail, u.links, now, partial)
            && Remaining(ops, u.search, |h|) < Remaining(ops, t.search, |h|)
  {
    ScanAfterPop(h, ops, t);
    var at := LeaveTrace(h, ops, t).search.at;
    PopKeeps(m, ops, t.search, r, at);
    if partial { PopKeepsRecord(m, ops, t.search, longest, now, at); }
    PopProgresses(ops, t.search, at, |h|);
  }

  lemma NextAfterPopped<S, I, O>(h: seq<Event<I, O>>, ops: seq<Operation<I, O>>, g: Search<S>, ls: Links)
    requires Describes(h, ops) && |g.order| >= 1 && InRange(g.order, |ops|)
    requires var n := |g.order| - 1; g.order[n] !in Done(g, n) && Linked(ls, LiveNodes(h, Done(g, n)))
    ensures var n := |g.order| - 1;
            var x := ops[g.order[n]].call + 1;
            && 0 <= x < |ls.next|
            && x < NodeAfter(ls, x, |h|) <= |h|
            && NothingBetween(ops, Done(g, n), x, NodeAfter(ls, x, |h|))
            && NodeAfter(ls, x, |h|) in LiveNodes(h, Done(g, n))
  {
    var n := |g.order| - 1;
    var a := g.order[n];
    LiveEntries(h, ops, Done(g, n), a);
    CallHasNext(h, ops, ls, Done(g, n), a);
    NextSkipsNothing(h, ops, ls, Done(g, n), ops[a].call + 1);
  }

  /** The stack of the search: which node was lifted, and the state before it. */
  ghost predicate StackAt<S, I, O>(nodes: seq<Node<I, O>>, ops: seq<Operation<I, O>>, g: Search<S>,
                                   calls: seq<CallsEntry<S, I, O>>, d: nat)
    requires |calls| == |g.order| < |g.states| && InRange(g.order, |ops|)
  {
    d < |calls| ==> calls[d].entry == NodeAt(nodes, ops[g.order[d]].call + 1) && calls[d].state == g.states[d]
  }

  ghost predicate StackOk<S, I, O>(nodes: seq<Node<I, O>>, ops: seq<Operation<I, O>>, g: Search<S>,
                                   calls: seq<CallsEntry<S, I, O>>, state: S) {
    && |calls| == |g.order| < |g.states| && InRange(g.order, |ops|) && state == g.states[|g.order|]
    && forall d: nat :: StackAt(nodes, ops, g, calls, d)
  }

  /** The ids on the stack, in order. */
  method StackIds<S, I, O>(calls: seq<CallsEntry<S, I, O>>, ghost nodes: seq<Node<I, O>>, ghost h: seq<Event<I, O>>,
                           ghost ops: seq<Operation<I, O>>, ghost g: Search<S>, ghost state: S)
    returns (ids: seq<nat>)
    requires Describes(h, ops) && Carries(nodes, h, ops) && StackOk(nodes, ops, g, calls, state)
    ensures ids == g.order
  {
    ids := [];
    for i := 0 to |calls|
      invariant ids == g.order[..i]
    {
      NodeOfCall(nodes, h, ops, g.order[i]);
      assert StackAt(nodes, ops, g, calls, i);
      ids := ids + [calls[i].entry.event.value.id];
    }
  }

  lemma NodeOfCall<I, O>(nodes: seq<Node<I, O>>, h: seq<Event<I, O>>, ops: seq<Operation<I, O>>, a: nat)
    requires Describes(h, ops) && Carries(nodes, h, ops) && a < |ops|
    ensures 0 < ops[a].call + 1 < ops[a].ret + 1 < |nodes|
    ensures nodes[ops[a].call + 1].event == Some(Call(a, ops[a].input))
    ensures nodes[ops[a].call + 1].matching == nodes[ops[a].ret + 1]
    ensures nodes[ops[a].ret + 1].event == Some(Return(a, ops[a].output))
  {
    assert OperationAt(h, ops, a);
    assert CarriesEntry(nodes, h, ops, ops[a].call) && CarriesEntry(nodes, h, ops, ops[a].ret);
  }

  /** What the node under examination says. */
  lemma NodeUnderScan<I, O>(nodes: seq<Node<I, O>>, h: seq<Event<I, O>>, ops: seq<Operation<I, O>>, done: set<nat>,
                            x: nat)
    requires Describes(h, ops) && Carries(nodes, h, ops) && x in LiveNodes(h, done) && x >= 1
    ensures x < |nodes| && nodes[x].event == Some(h[x - 1]) && h[x - 1].id < |ops| && h[x - 1].id !in done
    ensures nodes[x].matching != null <==> h[x - 1].Call?
    ensures h[x - 1].Call? ==> x == ops[h[x - 1].id].call + 1
    ensures h[x - 1].Return? ==> x == ops[h[x - 1].id].ret + 1
  {
    assert CarriesEntry(nodes, h, ops, x - 1) && EventAt(h, ops, x - 1);
  }

  lemma IdFits(id: nat, n: nat)
    requires id < n
    ensures id < 64 * Bitset.Chunks(n)
  {
  }

  lemma StackPushed<S, I, O>(m: Model<S, I, O>, nodes: seq<Node<I, O>>, ops: seq<Operation<I, O>>, g: Search<S>,
                             calls: seq<CallsEntry<S, I, O>>, top: CallsEntry<S, I, O>, a: nat, at: nat)
    requires a < |ops| && |g.states| == |g.order| + 1 && StackOk(nodes, ops, g, calls, top.state)
    requires top.entry == NodeAt(nodes, ops[a].call + 1)
    ensures StackOk(nodes, ops, Pushed(m, ops, g, a, at), calls + [top], Next(m, ops, top.state, a))
  {
    var k := Pushed(m, ops, g, a, at);
    forall d: nat ensures StackAt(nodes, ops, k, calls + [top], d) { assert StackAt(nodes, ops, g, calls, d); }
  }

  lemma StackPopped<S, I, O>(nodes: seq<Node<I, O>>, ops: seq<Operation<I, O>>, g: Search<S>,
                             calls: seq<CallsEntry<S, I, O>>, state: S, at: nat)
    requires |g.states| == |g.order| + 1 && StackOk(nodes, ops, g, calls, state) && |calls| >= 1
    ensures StackOk(nodes, ops, Popped(g, at), calls[..|calls| - 1], calls[|calls| - 1].state)
    ensures calls[|calls| - 1].entry == NodeAt(nodes, ops[g.order[|g.order| - 1]].call + 1)
  {
    var k, below := Popped(g, at), calls[..|calls| - 1];
    assert StackAt(nodes, ops, g, calls, |calls| - 1);
    forall d: nat ensures StackAt(nodes, ops, k, below, d) { assert StackAt(nodes, ops, g, calls, d); }
  }

  /** The search's variables. */
  datatype Machine<S, I, O> = Machine(entry: Node?<I, O>, calls: seq<CallsEntry<S, I, O>>, state: S, cache: Cache<S>)

  /** What they stand for. */
  datatype Trace<S(==)> = Trace(search: Search<S>, trail: seq<Links>, links: Links)

  ghost predicate HeapOk<S(!new), I, O>(h: seq<Event<I, O>>, ops: seq<Operation<I, O>>, nodes: seq<Node<I, O>>,
                                        linearized: array<Bitset.Word>, t: Trace<S>)
    reads nodes, linearized
  {
    && NoRepeats(nodes) && Carries(nodes, h, ops) && Represents(nodes, t.links)
    && linearized.Length == Bitset.Chunks(|ops|) && Bitset.Members(linearized[..]) == Elems(t.search.order)
  }

  ghost predicate Consistent<S(!new), I, O>(m: Model<S, I, O>, h: seq<Event<I, O>>, ops: seq<Operation<I, O>>,
                                            nodes: seq<Node<I, O>>,
                                            x: Machine<S, I, O>, t: Trace<S>, longest: Record, partial: bool) {
    && Bookkeeping(m, h, ops, t.search, t.trail, t.links, longest, partial)
    && x.entry == NodeAt(nodes, t.search.at)
    && StackOk(nodes, ops, t.search, x.calls, x.state)
    && CacheOk(x.cache, Bitset.Chunks(|ops|), t.search.seen)
  }

  /** Mark an operation as linearized, take its entries out of the list and return to its head. */
  method TakeOut<S(!new), I, O>(head: Node<I, O>, entry: Node<I, O>, linearized: array<Bitset.Word>, id: nat,
                                ghost h: seq<Event<I, O>>, ghost ops: seq<Operation<I, O>>,
                                ghost nodes: seq<Node<I, O>>,
                                ghost t: Trace<S>, ghost u: Trace<S>)
    returns (next: Node?<I, O>)
    requires Describes(h, ops) && HeapOk(h, ops, nodes, linearized, t) && id < |ops|
    requires CanEnter(ops, t, id) && head == NodeAt(nodes, 0) && entry == NodeAt(nodes, ops[id].call + 1)
    requires u.links == Lifted(t.links, ops[id].call + 1, ops[id].ret + 1)
             && Elems(u.search.order) == Elems(t.search.order) + {id}
    requires u.search.at == NodeAfter(u.links, 0, |h|)
    modifies nodes, linearized
    ensures HeapOk(h, ops, nodes, linearized, u) && next == NodeAt(nodes, u.search.at)
  {
    NodeOfCall(nodes, h, ops, id);
    IdFits(id, |ops|);
    Bitset.Set(linearized, id);
    Lift(entry, nodes, t.links, ops[id].call + 1, ops[id].ret + 1);
    assert RepresentsAt(nodes, u.links, 0);
    next := head.next;
  }

  /** Operation a was lifted last, at node entry, and u has the links from before. */
  ghost predicate CanPutBack<S, I, O>(h: seq<Event<I, O>>, ops: seq<Operation<I, O>>, nodes: seq<Node<I, O>>,
                                      t: Trace<S>, u: Trace<S>, entry: Node?<I, O>, a: nat) {
    && a < |ops| && 0 < ops[a].call + 1 < ops[a].ret + 1 && CanUnlift(t.links, ops[a].call + 1, ops[a].ret + 1)
    && entry == NodeAt(nodes, ops[a].call + 1) != null && ops[a].call + 1 < |u.links.next|
    && u.links == Unlifted(t.links, ops[a].call + 1, ops[a].ret + 1)
    && Elems(u.search.order) == Elems(t.search.order) - {a}
    && u.search.at == NodeAfter(u.links, ops[a].call + 1, |h|)
  }

  /** Unmark it, put its entries back and go on after its call. */
  method PutBack<S(!new), I, O>(entry: Node<I, O>, linearized: array<Bitset.Word>,
                                ghost h: seq<Event<I, O>>, ghost ops: seq<Operation<I, O>>,
                                ghost nodes: seq<Node<I, O>>,
                                ghost t: Trace<S>, ghost u: Trace<S>, ghost a: nat)
    returns (next: Node?<I, O>)
    requires Describes(h, ops) && HeapOk(h, ops, nodes, linearized, t) && CanPutBack(h, ops, nodes, t, u, entry, a)
    modifies nodes, linearized
    ensures HeapOk(h, ops, nodes, linearized, u) && next == NodeAt(nodes, u.search.at)
  {
    NodeOfCall(nodes, h, ops, a);
    IdFits(a, |ops|);
    Bitset.Clear(linearized, entry.event.value.id);
    Unlift(entry, nodes, t.links, ops[a].call + 1, ops[a].ret + 1);
    assert RepresentsAt(nodes, u.links, ops[a].call + 1);
    next := entry.next;
  }

  ghost function EnterMachine<S, I, O>(m: Model<S, I, O>, ops: seq<Operation<I, O>>, nodes: seq<Node<I, O>>,
                                       x: Machine<S, I, O>, u: Trace<S>,
                                       id: nat, cache: Cache<S>): Machine<S, I, O>
    requires id < |ops| && x.entry != null
  {
    Machine(NodeAt(nodes, u.search.at), x.calls + [CallsEntry(x.entry, x.state)], Next(m, ops, x.state, id), cache)
  }

  lemma EnterConsistent<S(!new), I, O>(m: Model<S, I, O>, h: seq<Event<I, O>>, ops: seq<Operation<I, O>>,
                                       nodes: seq<Node<I, O>>,
                                       x: Machine<S, I, O>, t: Trace<S>, longest: Record, partial: bool, id: nat,
                                       cache: Cache<S>)
    requires Consistent(m, h, ops, nodes, x, t, longest, partial) && Carries(nodes, h, ops)
    requires CanPush(m, ops, t.search, id) && x.entry != null
    requires var c := Child(m, ops, (Elems(t.search.order), x.state), id);
             c !in t.search.seen && CacheOk(cache, Bitset.Chunks(|ops|), t.search.seen + {c})
    ensures CanEnter(ops, t, id)
    ensures var u := EnterTrace(m, h, ops, t, id);
            Consistent(m, h, ops, nodes, EnterMachine(m, ops, nodes, x, u, id, cache), u, longest, partial)
    ensures Remaining(ops, EnterTrace(m, h, ops, t, id).search, |h|) < Remaining(ops, t.search, |h|)
    ensures Elems(EnterTrace(m, h, ops, t, id).search.order) == Elems(t.search.order) + {id}
  {
    AfterPush(m, h, ops, t, longest, partial, id);
    NodeOfCall(nodes, h, ops, id);
    var u := EnterTrace(m, h, ops, t, id);
    StackPushed(m, nodes, ops, t.search, x.calls, CallsEntry(x.entry, x.state), id, u.search.at);
  }

  /** Enter the new configuration: lift the call and its return and rescan from the head. */
  method Push<S(==, !new), I, O>(ghost m: Model<S, I, O>, ghost h: seq<Event<I, O>>, ghost ops: seq<Operation<I, O>>,
                                 ghost nodes: seq<Node<I, O>>, head: Node<I, O>, linearized: array<Bitset.Word>,
                                 x: Machine<S, I, O>, ghost t: Trace<S>, ghost longest: Record, ghost partial: bool,
                                 id: nat, e: CacheEntry<S>)
    returns (y: Machine<S, I, O>, ghost u: Trace<S>)
    requires HeapOk(h, ops, nodes, linearized, t) && Consistent(m, h, ops, nodes, x, t, longest, partial)
    requires CanPush(m, ops, t.search, id) && head == nodes[0]
    requires |e.linearized| == Bitset.Chunks(|ops|)
    requires ConfigOf(e) == Child(m, ops, (Elems(t.search.order), x.state), id) && ConfigOf(e) !in t.search.seen
    modifies nodes, linearized
    ensures HeapOk(h, ops, nodes, linearized, u) && Consistent(m, h, ops, nodes, y, u, longest, partial)
    ensures Remaining(ops, u.search, |h|) < Remaining(ops, t.search, |h|)
  {
    var cache := CacheAdd(x.cache, e, Bitset.Chunks(|ops|), t.search.seen);
    EnterConsistent(m, h, ops, nodes, x, t, longest, partial, id, cache);
    u := EnterTrace(m, h, ops, t, id);
    var next := TakeOut(head, x.entry, linearized, id, h, ops, nodes, t, u);
    y := Machine(next, x.calls + [CallsEntry(x.entry, x.state)], e.state, cache);
    assert y == EnterMachine(m, ops, nodes, x, u, id, cache);
  }

  /** Move past a call that cannot come next or leads nowhere new. */
  method Skip<S(==, !new), I, O>(ghost m: Model<S, I, O>, ghost h: seq<Event<I, O>>, ghost ops: seq<Operation<I, O>>,
                                 ghost nodes: seq<Node<I, O>>, ghost linearized: array<Bitset.Word>,
                                 x: Machine<S, I, O>, ghost t: Trace<S>, ghost longest: Record, ghost partial: bool,
                                 ghost id: nat)
    returns (y: Machine<S, I, O>, ghost u: Trace<S>)
    requires HeapOk(h, ops, nodes, linearized, t) && Consistent(m, h, ops, nodes, x, t, longest, partial)
    requires id < |ops| && id !in Elems(t.search.order) && t.search.at == ops[id].call + 1
    requires Allowed(m, ops, x.state, id) ==> Child(m, ops, (Elems(t.search.order), x.state), id) in t.search.seen
    ensures HeapOk(h, ops, nodes, linearized, u) && Consistent(m, h, ops, nodes, y, u, longest, partial)
    ensures Remaining(ops, u.search, |h|) < Remaining(ops, t.search, |h|)
  {
    ghost var g := t.search;
    AfterSkip(m, h, ops, g, t.trail, t.links, longest, partial, id);
    NodeOfCall(nodes, h, ops, id);
    assert RepresentsAt(nodes, t.links, g.at);
    y := x.(entry := x.entry.next);
    u := t.(search := g.(at := NodeAfter(t.links, g.at, |h|)));
    forall d: nat ensures StackAt(nodes, ops, u.search, y.calls, d) { assert StackAt(nodes, ops, g, x.calls, d); }
  }

  /** The scan has reached a call: linearize it if that is allowed and leads somewhere new. */
  method TryCall<S(==, !new), I, O>(m: Model<S, I, O>, ghost h: seq<Event<I, O>>, ghost ops: seq<Operation<I, O>>,
                                    ghost nodes: seq<Node<I, O>>, head: Node<I, O>, linearized: array<Bitset.Word>,
                                    x: Machine<S, I, O>, ghost t: Trace<S>, ghost longest: Record, ghost partial: bool)
    returns (y: Machine<S, I, O>, ghost u: Trace<S>)
    requires HeapOk(h, ops, nodes, linearized, t) && Consistent(m, h, ops, nodes, x, t, longest, partial)
    requires t.search.at <= |h| && h[t.search.at - 1].Call? && head == nodes[0]
    modifies nodes, linearized
    ensures HeapOk(h, ops, nodes, linearized, u) && Consistent(m, h, ops, nodes, y, u, longest, partial)
    ensures Remaining(ops, u.search, |h|) < Remaining(ops, t.search, |h|)
  {
    NodeUnderScan(nodes, h, ops, Elems(t.search.order), t.search.at);
    var entry := x.entry;
    var id := entry.event.value.id;
    NodeOfCall(nodes, h, ops, id);
    var matching := entry.matching;
    var (allowed, newState) := m.step(x.state, entry.event.value.input, matching.event.value.output);
    if allowed {
      var newLinearized := Bitset.Clone(linearized);
      IdFits(id, |ops|);
      Bitset.Set(newLinearized, id);
      var e := CacheEntry(newLinearized[..], newState);
      var known := CacheContains(x.cache, e, Bitset.Chunks(|ops|), t.search.seen);
      if !known {
        y, u := Push(m, h, ops, nodes, head, linearized, x, t, longest, partial, id, e);
        return;
      }
    }
    y, u := Skip(m, h, ops, nodes, linearized, x, t, longest, partial, id);
  }

  /** The scan has reached a return: give up the last linearized operation. */
  method Backtrack<S(==, !new), I, O>(ghost m: Model<S, I, O>, ghost h: seq<Event<I, O>>,
                                      ghost ops: seq<Operation<I, O>>,
                                      ghost nodes: seq<Node<I, O>>, linearized: array<Bitset.Word>,
                                      x: Machine<S, I, O>, ghost t: Trace<S>, ghost longest: Record, ghost now: Record,
                                      ghost partial: bool)
    returns (y: Machine<S, I, O>, ghost u: Trace<S>)
    requires HeapOk(h, ops, nodes, linearized, t) && Consistent(m, h, ops, nodes, x, t, longest, partial)
    requires t.search.at <= |h| && h[t.search.at - 1].Return? && |x.calls| >= 1
    requires |now| == |longest| && (partial ==> Updated(longest, now, t.search.order))
    modifies nodes, linearized
    ensures HeapOk(h, ops, nodes, linearized, u) && Consistent(m, h, ops, nodes, y, u, now, partial)
    ensures Remaining(ops, u.search, |h|) < Remaining(ops, t.search, |h|)
  {
    LeaveConsistent(m, h, ops, nodes, x, t, longest, now, partial);
    u := LeaveTrace(h, ops, t);
    var last := |x.calls| - 1;
    var next := PutBack(x.calls[last].entry, linearized, h, ops, nodes, t, u, t.search.order[last]);
    y := Machine(next, x.calls[..last], x.calls[last].state, x.cache);
    assert y == LeaveMachine(nodes, x, u);
  }

  ghost function LeaveMachine<S, I, O>(nodes: seq<Node<I, O>>, x: Machine<S, I, O>, u: Trace<S>): Machine<S, I, O>
    requires |x.calls| >= 1
  {
    var last := |x.calls| - 1;
    Machine(NodeAt(nodes, u.search.at), x.calls[..last], x.calls[last].state, x.cache)
  }

  lemma LeaveConsistent<S(!new), I, O>(m: Model<S, I, O>, h: seq<Event<I, O>>, ops: seq<Operation<I, O>>,
                                       nodes: seq<Node<I, O>>,
                                       x: Machine<S, I, O>, t: Trace<S>, longest: Record, now: Record, partial: bool)
    requires Consistent(m, h, ops, nodes, x, t, longest, partial) && Carries(nodes, h, ops) && |x.calls| >= 1
    requires t.search.at <= |h| && h[t.search.at - 1].Return?
    requires |now| == |longest| && (partial ==> Updated(longest, now, t.search.order))
    ensures CanLeave(ops, t) && |x.calls| == |t.search.order|
    ensures var u := LeaveTrace(h, ops, t); Consistent(m, h, ops, nodes, LeaveMachine(nodes, x, u), u, now, partial)
    ensures Remaining(ops, LeaveTrace(h, ops, t).search, |h|) < Remaining(ops, t.search, |h|)
    ensures CanPutBack(h, ops, nodes, t, LeaveTrace(h, ops, t), x.calls[|x.calls| - 1].entry,
            t.search.order[|x.calls| - 1])
  {
    NodeUnderScan(nodes, h, ops, Elems(t.search.order), t.search.at);
    AfterPop(m, h, ops, t, longest, now, partial, h[t.search.at - 1].id);
    StackPopped(nodes, ops, t.search, x.calls, x.state, LeaveTrace(h, ops, t).search.at);
    PutBackFacts(h, ops, nodes, t);
  }

  lemma PutBackFacts<S(!new), I, O>(h: seq<Event<I, O>>, ops: seq<Operation<I, O>>, nodes: seq<Node<I, O>>, t: Trace<S>)
    requires Describes(h, ops) && ListInv(h, ops, t.search, t.trail, t.links) && |t.search.order| >= 1
             && Carries(nodes, h, ops)
    requires Distinct(t.search.order) && Sized(ops, t.search)
    ensures var a := t.search.order[|t.search.order| - 1];
            CanLeave(ops, t) && CanPutBack(h, ops, nodes, t, LeaveTrace(h, ops, t), NodeAt(nodes, ops[a].call + 1), a)
  {
    ScanAfterPop(h, ops, t);
    PopRestores(h, ops, t.search, t.trail, t.links);
    NodeOfCall(nodes, h, ops, t.search.order[|t.search.order| - 1]);
  }

  /** The list of entries with its head node. */
  method BuildList<I(!new), O(!new)>(h: seq<Event<I, O>>, ghost ops: seq<Operation<I, O>>)
    returns (head: Node<I, O>, entry: Node?<I, O>, ghost nodes: seq<Node<I, O>>)
    requires Describes(h, ops)
    ensures forall k :: 0 <= k < |nodes| ==> fresh(nodes[k])
    ensures NoRepeats(nodes) && Carries(nodes, h, ops) && Represents(nodes, Chain(|h| + 1))
    ensures head == nodes[0] && entry == NodeAt(nodes, 1)
  {
    var first, rest := MakeLinkedEntries(h, ops);
    entry := first;
    head := new Node<I, O>(None, null);
    InsertBefore(head, entry, rest, 0);
    assert Inserted(rest, 0, head) == [head] + rest;
    nodes := [head] + rest;
    TailCarries(h, ops, rest, head);
    ChainedRepresents(nodes);
    assert forall k :: 1 <= k < |nodes| ==> nodes[k] == rest[k - 1];
  }

  lemma StartConsistent<S(!new), I, O>(m: Model<S, I, O>, h: seq<Event<I, O>>, ops: seq<Operation<I, O>>,
                                       nodes: seq<Node<I, O>>,
                                       x: Machine<S, I, O>, t: Trace<S>, longest: Record, partial: bool)
    requires Describes(h, ops) && |longest| == |ops| && forall id :: 0 <= id < |longest| ==> longest[id].None?
    requires x == Machine(NodeAt(nodes, 1), [], m.init, map[])
    requires t == Trace(Search([], [m.init], 1, {}), [], Chain(|h| + 1))
    ensures Consistent(m, h, ops, nodes, x, t, longest, partial) && Elems(t.search.order) == {}
  {
    StartBookkeeping(m, h, ops, longest, partial);
    forall d: nat ensures StackAt(nodes, ops, t.search, x.calls, d) {}
    forall w, i: nat ensures EntryOk(x.cache, Bitset.Chunks(|ops|), t.search.seen, w, i) {}
  }

  /** The node under examination while the list is not empty. */
  lemma UnderScan<S(!new), I, O>(m: Model<S, I, O>, h: seq<Event<I, O>>, ops: seq<Operation<I, O>>,
                                 nodes: seq<Node<I, O>>,
                                 x: Machine<S, I, O>, t: Trace<S>, longest: Record, partial: bool)
    requires Carries(nodes, h, ops) && Consistent(m, h, ops, nodes, x, t, longest, partial)
    requires 0 < |t.links.next| && t.links.next[0] >= 0
    ensures 1 <= t.search.at <= |h| && x.entry != null && Remaining(ops, t.search, |h|) > 0
    ensures x.entry.matching != null <==> h[t.search.at - 1].Call?
    ensures |x.calls| == 0 <==> t.search.order == []
  {
    RemainingPositive(ops, t.search, |h|);
    ListNotEmpty(m, h, ops, t.search, t.trail, t.links, longest, partial);
    NodeUnderScan(nodes, h, ops, Elems(t.search.order), t.search.at);
  }

  /** One turn of the search loop. */
  method Turn<S(==, !new), I, O>(model: Model<S, I, O>, ghost h: seq<Event<I, O>>, ghost ops: seq<Operation<I, O>>,
                                 ghost nodes: seq<Node<I, O>>, head: Node<I, O>, linearized: array<Bitset.Word>,
                                 x: Machine<S, I, O>, ghost t: Trace<S>, longest: Record, computePartial: bool)
    returns (exhausted: bool, y: Machine<S, I, O>, ghost u: Trace<S>, now: Record)
    requires head == NodeAt(nodes, 0) && head.next != null && HeapOk(h, ops, nodes, linearized, t)
    requires Consistent(model, h, ops, nodes, x, t, longest, computePartial)
    modifies nodes, linearized
    ensures !exhausted ==>
              HeapOk(h, ops, nodes, linearized, u) && Consistent(model, h, ops, nodes, y, u, now, computePartial)
    ensures !exhausted ==>
              Remaining(ops, t.search, |h|) > 0 && Remaining(ops, u.search, |h|) < Remaining(ops, t.search, |h|)
    ensures exhausted ==> !Linearizable(model, ops) && |now| == |ops|
    ensures exhausted && computePartial ==> forall id: nat :: id < |now| ==> IsLongest(model, ops, id, now[id])
  {
    exhausted, now := false, longest;
    assert RepresentsAt(nodes, t.links, 0);
    UnderScan(model, h, ops, nodes, x, t, longest, computePartial);
    if x.entry.matching != null {
      y, u := TryCall(model, h, ops, nodes, head, linearized, x, t, longest, computePartial);
    } else if |x.calls| == 0 {
      ExhaustedAt(model, h, ops, nodes, x, t, longest, computePartial);
      exhausted, y, u := true, x, t;
    } else {
      y, u, now := RecordAndBacktrack(model, h, ops, nodes, linearized, x, t, longest, computePartial);
    }
  }

  /** What a search says: a linearization if there is one, else, if asked, the longest partial
      linearizations; a search that was stopped may not find the one and has valid ones of the other. */
  ghost predicate Answers<S(!new), I, O>(m: Model<S, I, O>, ops: seq<Operation<I, O>>, partial: bool, stopped: bool,
                                         ok: bool, longest: Record) {
    && |longest| == |ops| && (ok ==> Linearizable(m, ops)) && (!stopped && Linearizable(m, ops) ==> ok)
    && (ok ==> forall id :: 0 <= id < |longest| ==> longest[id].Some? && Linearization(m, ops, longest[id].value))
    && (!ok && partial ==> forall id: nat :: Recorded(m, ops, longest, id))
    && (!ok && partial && !stopped ==> forall id: nat :: id < |longest| ==> IsLongest(m, ops, id, longest[id]))
  }

  /** The search loop; the kill flag is first seen set in turn killAt. */
  method Explore<S(==, !new), I(!new), O(!new)>(model: Model<S, I, O>, ghost h: seq<Event<I, O>>,
                                                ghost ops: seq<Operation<I, O>>,
                                                ghost nodes: seq<Node<I, O>>, head: Node<I, O>,
                                                linearized: array<Bitset.Word>,
                                                start: Machine<S, I, O>, ghost origin: Trace<S>, none: Record,
                                                computePartial: bool,
                                                killAt: Option<nat>)
    returns (ok: bool, longest: Record)
    requires head == NodeAt(nodes, 0) && HeapOk(h, ops, nodes, linearized, origin)
    requires Consistent(model, h, ops, nodes, start, origin, none, computePartial)
    modifies nodes, linearized
    ensures Answers(model, ops, computePartial, killAt.Some?, ok, longest)
  {
    longest := none;
    var x := start;
    ghost var t := origin;
    var turns: nat := 0;
    while head.next != null
      invariant HeapOk(h, ops, nodes, linearized, t)
      invariant Consistent(model, h, ops, nodes, x, t, longest, computePartial)
      decreases Remaining(ops, t.search, |h|)
    {
      if killAt.Some? && turns >= killAt.value {
        return false, longest;
      }
      turns := turns + 1;
      var exhausted;
      exhausted, x, t, longest := Turn(model, h, ops, nodes, head, linearized, x, t, longest, computePartial);
      if exhausted {
        return false, longest;
      }
    }
    assert RepresentsAt(nodes, t.links, 0);
    var ids := Found(model, h, ops, nodes, x, t, longest, computePartial);
    longest := seq(|longest|, _ => Some(ids));
    ok := true;
  }

  lemma ExhaustedAt<S(!new), I, O>(m: Model<S, I, O>, h: seq<Event<I, O>>, ops: seq<Operation<I, O>>,
                                   nodes: seq<Node<I, O>>,
                                   x: Machine<S, I, O>, t: Trace<S>, longest: Record, partial: bool)
    requires Consistent(m, h, ops, nodes, x, t, longest, partial) && |x.calls| == 0
    requires t.search.at <= |h| && h[t.search.at - 1].Return?
    ensures !Linearizable(m, ops) && |longest| == |ops|
    ensures partial ==> forall id: nat :: id < |longest| ==> IsLongest(m, ops, id, longest[id])
  {
    Exhausted(m, h, ops, t.search, t.trail, t.links, longest, partial);
  }

  /** The list is empty: the stack is a linearization. */
  method Found<S(==, !new), I, O>(ghost m: Model<S, I, O>, ghost h: seq<Event<I, O>>, ghost ops: seq<Operation<I, O>>,
                                  ghost nodes: seq<Node<I, O>>,
                                  x: Machine<S, I, O>, ghost t: Trace<S>, ghost longest: Record, ghost partial: bool)
    returns (ids: seq<nat>)
    requires Carries(nodes, h, ops) && Consistent(m, h, ops, nodes, x, t, longest, partial)
    requires 0 < |t.links.next| && t.links.next[0] < 0
    ensures Linearization(m, ops, ids) && Linearizable(m, ops) && |longest| == |ops|
  {
    Success(m, h, ops, t.search, t.trail, t.links, longest, partial);
    ids := StackIds(x.calls, nodes, h, ops, t.search, x.state);
  }

  method RecordAndBacktrack<S(==, !new), I, O>(ghost m: Model<S, I, O>, ghost h: seq<Event<I, O>>,
                                               ghost ops: seq<Operation<I, O>>,
                                               ghost nodes: seq<Node<I, O>>, linearized: array<Bitset.Word>,
                                               x: Machine<S, I, O>, ghost t: Trace<S>, longest: Record,
                                               computePartial: bool)
    returns (y: Machine<S, I, O>, ghost u: Trace<S>, now: Record)
    requires HeapOk(h, ops, nodes, linearized, t) && Consistent(m, h, ops, nodes, x, t, longest, computePartial)
    requires t.search.at <= |h| && h[t.search.at - 1].Return? && |x.calls| >= 1
    modifies nodes, linearized
    ensures HeapOk(h, ops, nodes, linearized, u) && Consistent(m, h, ops, nodes, y, u, now, computePartial)
    ensures Remaining(ops, u.search, |h|) < Remaining(ops, t.search, |h|)
  {
    now := longest;
    if computePartial {
      var ids := StackIds(x.calls, nodes, h, ops, t.search, x.state);
      now := RecordAttempt(longest, ids);
    }
    y, u := Backtrack(m, h, ops, nodes, linearized, x, t, longest, now, computePartial);
  }

  /** Does the history have a linearization?  If not, and if asked, the longest partial
      linearizations through each operation are returned. */
  method CheckSingle<S(==, !new), I(!new), O(!new)>(model: Model<S, I, O>, history: seq<Event<I, O>>,
                                                    computePartial: bool, killAt: Option<nat>)
    returns (ok: bool, longest: Record)
    requires WellFormed(history)
    ensures Answers(model, OpsOf(history), computePartial, killAt.Some?, ok, longest)
    ensures killAt.None? ==> (ok <==> Linearizable(model, OpsOf(history)))
  {
    ghost var ops := OpsOf(history);
    longest := seq(|history| / 2, _ => None);
    var head, entry, nodes := BuildList(history, ops);
    var linearized := Bitset.NewBitset(|history| / 2);
    var x: Machine<S, I, O> := Machine(entry, [], model.init, map[]);
    ghost var t := Trace(Search([], [model.init], 1, {}), [], Chain(|history| + 1));
    StartConsistent(model, history, ops, nodes, x, t, longest, computePartial);
    ok, longest := Explore(model, history, ops, nodes, head, linearized, x, t, longest, computePartial, killAt);
  }

  lemma ListNotEmpty<S(!new), I, O>(m: Model<S, I, O>, h: seq<Event<I, O>>, ops: seq<Operation<I, O>>, g: Search<S>,
                                    trail: seq<Links>, ls: Links, longest: Record, partial: bool)
    requires Bookkeeping(m, h, ops, g, trail, ls, longest, partial) && 0 < |ls.next| && ls.next[0] >= 0
    ensures g.at <= |h| && g.at in LiveNodes(h, Elems(g.order))
  {
    EmptyListIff(h, ops, ls, Elems(g.order));
  }

  lemma Exhausted<S(!new), I, O>(m: Model<S, I, O>, h: seq<Event<I, O>>, ops: seq<Operation<I, O>>, g: Search<S>,
                                 trail: seq<Links>, ls: Links, longest: Record, partial: bool)
    requires Bookkeeping(m, h, ops, g, trail, ls, longest, partial) && g.order == []
    requires g.at <= |h| && h[g.at - 1].Return?
    ensures !Linearizable(m, ops)
    ensures partial ==> forall id: nat :: id < |longest| ==> IsLongest(m, ops, id, longest[id])
  {
    var r := h[g.at - 1].id;
    assert EventAt(h, ops, g.at - 1);
    ExhaustedMeansNone(m, ops, g, r);
    if partial {
      forall id: nat | id < |longest| ensures IsLongest(m, ops, id, longest[id]) {
        ExhaustedRecord(m, ops, g, longest, r, id);
      }
    }
  }

  lemma Success<S(!new), I, O>(m: Model<S, I, O>, h: seq<Event<I, O>>, ops: seq<Operation<I, O>>, g: Search<S>,
                               trail: seq<Links>, ls: Links, longest: Record, partial: bool)
    requires Bookkeeping(m, h, ops, g, trail, ls, longest, partial) && 0 < |ls.next| && ls.next[0] < 0
    ensures Linearization(m, ops, g.order) && Linearizable(m, ops)
  {
    assert Elems(g.order) <= Below(|ops|);
    EmptyListIff(h, ops, ls, Elems(g.order));
    CompleteMeansFound(m, ops, g);
  }
}
