/** Histories as lists of call and return entries, and the heap nodes the checker links. */
module CheckerList {
  import opened Prelude
  import opened Linearizability
  import opened Search
  import opened DancingLinks

  datatype Event<I, O> = Call(id: nat, input: I) | Return(id: nat, output: O)

  // ---------- histories ----------

  /** The operations of a history, timed by the positions of their entries. */
  ghost predicate Describes<I, O>(h: seq<Event<I, O>>, ops: seq<Operation<I, O>>) {
    && |h| == 2 * |ops|
    && (forall a: nat :: OperationAt(h, ops, a))
    && (forall p: nat :: EventAt(h, ops, p))
  }

  ghost predicate OperationAt<I, O>(h: seq<Event<I, O>>, ops: seq<Operation<I, O>>, a: nat) {
    a < |ops| ==>
      && 0 <= ops[a].call < ops[a].ret < |h|
      && h[ops[a].call] == Call(a, ops[a].input) && h[ops[a].ret] == Return(a, ops[a].output)
  }

  ghost predicate EventAt<I, O>(h: seq<Event<I, O>>, ops: seq<Operation<I, O>>, p: nat) {
    p < |h| ==> h[p].id < |ops| && if h[p].Call? then ops[h[p].id].call == p else ops[h[p].id].ret == p
  }

  /** Every id has one call, before one return. */
  ghost predicate WellFormed<I(!new), O(!new)>(h: seq<Event<I, O>>) {
    exists ops: seq<Operation<I, O>> :: Describes(h, ops)
  }

  ghost function OpsOf<I(!new), O(!new)>(h: seq<Event<I, O>>): (ops: seq<Operation<I, O>>)
    requires WellFormed(h)
    ensures Describes(h, ops)
  {
    var ops: seq<Operation<I, O>> :| Describes(h, ops);
    ops
  }

  lemma DescribedIsWellTimed<I, O>(h: seq<Event<I, O>>, ops: seq<Operation<I, O>>)
    requires Describes(h, ops)
    ensures WellTimed(ops)
  {
    forall a, b | 0 <= a < |ops| && 0 <= b < |ops|
      ensures ops[a].call != ops[b].ret && (a != b ==> ops[a].call != ops[b].call && ops[a].ret != ops[b].ret)
    {
      assert OperationAt(h, ops, a) && OperationAt(h, ops, b);
    }
    forall a | 0 <= a < |ops| ensures 0 <= ops[a].call < ops[a].ret { assert OperationAt(h, ops, a); }
  }

  // ---------- live nodes ----------

  predicate Outstanding<I, O>(h: seq<Event<I, O>>, done: set<nat>, x: nat) {
    x == 0 || (x <= |h| && h[x - 1].id !in done)
  }

  /** The head, and the nodes of the entries whose operation is not yet linearized. */
  ghost function LiveNodes<I, O>(h: seq<Event<I, O>>, done: set<nat>): set<nat> {
    set x: nat | x <= |h| && Outstanding(h, done, x)
  }

  lemma LiveEntries<I, O>(h: seq<Event<I, O>>, ops: seq<Operation<I, O>>, done: set<nat>, a: nat)
    requires Describes(h, ops) && a < |ops|
    ensures ops[a].call + 1 in LiveNodes(h, done) <==> a !in done
    ensures ops[a].ret + 1 in LiveNodes(h, done) <==> a !in done
    ensures 0 < ops[a].call + 1 < ops[a].ret + 1 <= |h|
  {
    assert OperationAt(h, ops, a);
  }

  lemma LiveWithout<I, O>(h: seq<Event<I, O>>, ops: seq<Operation<I, O>>, done: set<nat>, a: nat)
    requires Describes(h, ops) && a < |ops|
    ensures LiveNodes(h, done + {a}) == LiveNodes(h, done) - {ops[a].call + 1, ops[a].ret + 1}
  {
    assert OperationAt(h, ops, a);
    forall x: nat ensures x in LiveNodes(h, done + {a}) <==>
      x in LiveNodes(h, done) - {ops[a].call + 1, ops[a].ret + 1} {
      if 1 <= x <= |h| { assert EventAt(h, ops, x - 1); }
    }
  }

  /** The node after x, or one past the last node. */
  function NodeAfter(ls: Links, x: nat, n: nat): nat
    requires x < |ls.next|
  {
    if ls.next[x] >= 0 then ls.next[x] else n + 1
  }

  /** Following a next pointer skips nothing that is outstanding. */
  lemma NextSkipsNothing<I, O>(h: seq<Event<I, O>>, ops: seq<Operation<I, O>>, ls: Links, done: set<nat>, x: nat)
    requires Describes(h, ops) && Linked(ls, LiveNodes(h, done)) && x in LiveNodes(h, done)
    ensures x < |ls.next| && x < NodeAfter(ls, x, |h|) <= |h| + 1
    ensures NothingBetween(ops, done, x, NodeAfter(ls, x, |h|))
    ensures NodeAfter(ls, x, |h|) <= |h| ==> NodeAfter(ls, x, |h|) in LiveNodes(h, done)
  {
    AfterNode(ls, LiveNodes(h, done), x);
    forall b: nat | b < |ops| && b !in done
      ensures ops[b].call + 1 <= x || ops[b].call + 1 >= NodeAfter(ls, x, |h|)
      ensures ops[b].ret + 1 <= x || ops[b].ret + 1 >= NodeAfter(ls, x, |h|)
    {
      LiveEntries(h, ops, done, b);
    }
  }

  /** A call's return comes later, so its next pointer is not nil. */
  lemma CallHasNext<I, O>(h: seq<Event<I, O>>, ops: seq<Operation<I, O>>, ls: Links, done: set<nat>, a: nat)
    requires Describes(h, ops) && Linked(ls, LiveNodes(h, done)) && a < |ops| && a !in done
    ensures 0 <= ops[a].call + 1 < |ls.next| && 0 <= ls.next[ops[a].call + 1] <= |h|
  {
    LiveEntries(h, ops, done, a);
    AfterNode(ls, LiveNodes(h, done), ops[a].call + 1);
  }

  lemma HeadIsLive<I, O>(h: seq<Event<I, O>>, done: set<nat>)
    ensures 0 in LiveNodes(h, done)
  {
  }

  // ---------- nodes ----------

  class Node<I, O> {
    const event: Option<Event<I, O>>
    const matching: Node?<I, O>
    var next: Node?<I, O>
    var prev: Node?<I, O>

    constructor (event: Option<Event<I, O>>, matching: Node?<I, O>)
      ensures this.event == event && this.matching == matching && next == null && prev == null
    {
      this.event, this.matching := event, matching;
      next, prev := null, null;
    }
  }

  predicate NoRepeats<I, O>(nodes: seq<Node<I, O>>) {
    forall i, j :: 0 <= i < j < |nodes| ==> nodes[i] != nodes[j]
  }

  function NodeAt<I, O>(nodes: seq<Node<I, O>>, i: int): Node?<I, O> {
    if 0 <= i < |nodes| then nodes[i] else null
  }

  ghost predicate RepresentsAt<I, O>(nodes: seq<Node<I, O>>, ls: Links, k: nat)
    reads nodes
    requires |ls.next| == |nodes| == |ls.prev|
  {
    k < |nodes| ==>
      && -1 <= ls.next[k] < |nodes| && nodes[k].next == NodeAt(nodes, ls.next[k])
      && -1 <= ls.prev[k] < |nodes| && nodes[k].prev == NodeAt(nodes, ls.prev[k])
  }

  /** The heap fields of the nodes are as the links say. */
  ghost predicate Represents<I, O>(nodes: seq<Node<I, O>>, ls: Links)
    reads nodes
  {
    |ls.next| == |nodes| == |ls.prev| && forall k: nat :: RepresentsAt(nodes, ls, k)
  }

  /** Node p + 1 carries entry p; a call points to its return. */
  ghost predicate Carries<I, O>(nodes: seq<Node<I, O>>, h: seq<Event<I, O>>, ops: seq<Operation<I, O>>) {
    && |nodes| == |h| + 1 && nodes[0].event == None
    && forall p: nat :: CarriesEntry(nodes, h, ops, p)
  }

  ghost predicate CarriesEntry<I, O>(nodes: seq<Node<I, O>>, h: seq<Event<I, O>>, ops: seq<Operation<I, O>>, p: nat)
    requires |nodes| == |h| + 1
  {
    p < |h| ==>
      && nodes[p + 1].event == Some(h[p])
      && (h[p].Call? ==> h[p].id < |ops| && nodes[p + 1].matching == NodeAt(nodes, ops[h[p].id].ret + 1) != null)
      && (h[p].Return? ==> nodes[p + 1].matching == null)
  }

  method Detach<I, O>(n: Node<I, O>, ghost nodes: seq<Node<I, O>>, ghost ls: Links, ghost k: nat)
    requires NoRepeats(nodes) && Represents(nodes, ls) && k < |nodes| && n == nodes[k] && CanUnlink(ls, k)
    modifies nodes
    ensures Represents(nodes, Unlink(ls, k))
  {
    assert RepresentsAt(nodes, ls, k);
    n.prev.next := n.next;
    if n.next != null {
      n.next.prev := n.prev;
    }
    forall j: nat ensures RepresentsAt(nodes, Unlink(ls, k), j) { assert old(RepresentsAt(nodes, ls, j)); }
  }

  method Reattach<I, O>(n: Node<I, O>, ghost nodes: seq<Node<I, O>>, ghost ls: Links, ghost k: nat)
    requires NoRepeats(nodes) && Represents(nodes, ls) && k < |nodes| && n == nodes[k] && CanUnlink(ls, k)
    modifies nodes
    ensures Represents(nodes, Relink(ls, k))
  {
    assert RepresentsAt(nodes, ls, k);
    n.prev.next := n;
    if n.next != null {
      n.next.prev := n;
    }
    forall j: nat ensures RepresentsAt(nodes, Relink(ls, k), j) { assert old(RepresentsAt(nodes, ls, j)); }
  }

  /** Take a call and its return out of the list. */
  method Lift<I, O>(entry: Node<I, O>, ghost nodes: seq<Node<I, O>>, ghost ls: Links, ghost k: nat, ghost r: nat)
    requires NoRepeats(nodes) && Represents(nodes, ls) && k < |nodes| && r < |nodes| && CanLift(ls, k, r)
    requires entry == nodes[k] && entry.matching == nodes[r]
    modifies nodes
    ensures Represents(nodes, Lifted(ls, k, r))
  {
    Detach(entry, nodes, ls, k);
    Detach(entry.matching, nodes, Unlink(ls, k), r);
  }

  /** Put them back, in the opposite order. */
  method Unlift<I, O>(entry: Node<I, O>, ghost nodes: seq<Node<I, O>>, ghost ls: Links, ghost k: nat, ghost r: nat)
    requires NoRepeats(nodes) && Represents(nodes, ls) && k < |nodes| && r < |nodes| && CanUnlift(ls, k, r)
    requires entry == nodes[k] && entry.matching == nodes[r]
    modifies nodes
    ensures Represents(nodes, Unlifted(ls, k, r))
  {
    Reattach(entry.matching, nodes, ls, r);
    Reattach(entry, nodes, Relink(ls, r), k);
  }
}
