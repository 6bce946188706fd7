/** The checker's doubly linked list: nodes are taken out and put back in stack order.

    The fields of all nodes are described by index: next[k] and prev[k] are the
    positions of node k's neighbours, -1 for nil.  Node 0 is the head. */
module DancingLinks {

  datatype Links = Links(next: seq<int>, prev: seq<int>)

  /** The nodes in `live` form a list in increasing order, linked both ways. */
  ghost predicate Linked(ls: Links, live: set<nat>) {
    |ls.next| == |ls.prev| && forall x: nat :: LinkOk(ls, live, x)
  }

  ghost predicate LinkOk(ls: Links, live: set<nat>, x: nat) {
    x in live ==> x < |ls.next| && x < |ls.prev| && NextOk(ls, live, x) && PrevOk(ls, live, x)
  }

  ghost predicate NextOk(ls: Links, live: set<nat>, x: nat)
    requires x < |ls.next|
  {
    var y := ls.next[x];
    || (y == -1 && forall z :: z in live ==> z <= x)
    || (y > x && y in live && forall z :: z in live ==> z <= x || z >= y)
  }

  ghost predicate PrevOk(ls: Links, live: set<nat>, x: nat)
    requires x < |ls.prev|
  {
    var y := ls.prev[x];
    || (y == -1 && forall z :: z in live ==> z >= x)
    || (0 <= y < x && y in live && forall z :: z in live ==> z >= x || z <= y)
  }

  predicate CanUnlink(ls: Links, k: nat) {
    && k < |ls.next| == |ls.prev|
    && 0 <= ls.prev[k] < |ls.next| && -1 <= ls.next[k] < |ls.next| && ls.prev[k] != k
  }

  /** k.prev.next = k.next; if k.next != nil { k.next.prev = k.prev } */
  function Unlink(ls: Links, k: nat): Links
    requires CanUnlink(ls, k)
  {
    Links(ls.next[ls.prev[k] := ls.next[k]],
          if ls.next[k] >= 0 then ls.prev[ls.next[k] := ls.prev[k]] else ls.prev)
  }

  /** k.prev.next = k; if k.next != nil { k.next.prev = k } */
  function Relink(ls: Links, k: nat): Links
    requires CanUnlink(ls, k)
  {
    Links(ls.next[ls.prev[k] := k], if ls.next[k] >= 0 then ls.prev[ls.next[k] := k] else ls.prev)
  }

  /** Node k of a list, with a node before it, can be taken out. */
  lemma LiveCanUnlink(ls: Links, live: set<nat>, k: nat)
    requires Linked(ls, live) && k in live && 0 in live && k > 0
    ensures CanUnlink(ls, k) && ls.next[ls.prev[k]] == k && (ls.next[k] >= 0 ==> ls.prev[ls.next[k]] == k)
    ensures ls.prev[k] in live && ls.prev[k] < k && (ls.next[k] == -1 || (ls.next[k] > k && ls.next[k] in live))
  {
    assert LinkOk(ls, live, k);
    assert LinkOk(ls, live, ls.prev[k]);
    if ls.next[k] >= 0 { assert LinkOk(ls, live, ls.next[k]); }
  }

  lemma UnlinkKeepsList(ls: Links, live: set<nat>, k: nat)
    requires Linked(ls, live) && k in live && 0 in live && k > 0
    ensures CanUnlink(ls, k) && Linked(Unlink(ls, k), live - {k})
  {
    LiveCanUnlink(ls, live, k);
    var un, rest := Unlink(ls, k), live - {k};
    assert LinkOk(ls, live, k);
    forall x: nat ensures LinkOk(un, rest, x) {
      assert LinkOk(ls, live, x);
    }
  }

  /** Putting a node back right after taking it out restores every field. */
  lemma RelinkRestores(ls: Links, k: nat)
    requires CanUnlink(ls, k) && ls.next[k] != k
    requires ls.next[ls.prev[k]] == k && (ls.next[k] >= 0 ==> ls.prev[ls.next[k]] == k)
    ensures CanUnlink(Unlink(ls, k), k) && Relink(Unlink(ls, k), k) == ls
  {
  }

  // ---------- a call together with its return ----------

  predicate CanLift(ls: Links, k: nat, r: nat) {
    CanUnlink(ls, k) && CanUnlink(Unlink(ls, k), r)
  }

  function Lifted(ls: Links, k: nat, r: nat): Links
    requires CanLift(ls, k, r)
  {
    Unlink(Unlink(ls, k), r)
  }

  predicate CanUnlift(ls: Links, k: nat, r: nat) {
    CanUnlink(ls, r) && CanUnlink(Relink(ls, r), k)
  }

  function Unlifted(ls: Links, k: nat, r: nat): Links
    requires CanUnlift(ls, k, r)
  {
    Relink(Relink(ls, r), k)
  }

  /** Lifting a call and its return leaves the list of the other live nodes. */
  lemma LiftKeepsList(ls: Links, live: set<nat>, k: nat, r: nat)
    requires Linked(ls, live) && 0 in live && 0 < k < r && k in live && r in live
    ensures CanLift(ls, k, r) && Linked(Lifted(ls, k, r), live - {k, r})
    ensures ls.next[k] > k
  {
    UnlinkKeepsList(ls, live, k);
    UnlinkKeepsList(Unlink(ls, k), live - {k}, r);
    assert live - {k} - {r} == live - {k, r};
    assert LinkOk(ls, live, k);
  }

  /** Unlifting restores every next and prev field exactly. */
  lemma UnliftRestores(ls: Links, live: set<nat>, k: nat, r: nat)
    requires Linked(ls, live) && 0 in live && 0 < k < r && k in live && r in live
    ensures CanLift(ls, k, r) && CanUnlift(Lifted(ls, k, r), k, r)
    ensures Unlifted(Lifted(ls, k, r), k, r) == ls
  {
    LiveCanUnlink(ls, live, k);
    UnlinkKeepsList(ls, live, k);
    LiveCanUnlink(Unlink(ls, k), live - {k}, r);
    RelinkRestores(ls, k);
    RelinkRestores(Unlink(ls, k), r);
  }

  /** The first node after the head is the smallest live one. */
  lemma AfterNode(ls: Links, live: set<nat>, x: nat)
    requires Linked(ls, live) && x in live
    ensures x < |ls.next| && (ls.next[x] >= 0 ==> ls.next[x] in live && ls.next[x] > x)
    ensures forall z :: z in live && z > x ==> 0 <= ls.next[x] <= z
  {
    assert LinkOk(ls, live, x);
  }

  /** n nodes in a row. */
  function Chain(n: nat): Links {
    Links(seq(n, i => if i + 1 < n then i + 1 else -1), seq(n, i => i - 1))
  }

  lemma ChainLinked(n: nat, live: set<nat>)
    requires forall x: nat :: x in live <==> x < n
    ensures Linked(Chain(n), live)
  {
    forall x: nat ensures LinkOk(Chain(n), live, x) {
    }
  }
}
