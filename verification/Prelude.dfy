/** Small datatypes and facts about finite sets shared by every component. */
module Prelude {

  datatype Option<+T> = None | Some(value: T)

  function Min(x: int, y: int): int { if x > y then y else x }

  function Max(x: int, y: int): int { if x < y then y else x }

  /** The server (or operation) numbers below n. */
  function Below(n: nat): (r: set<nat>)
    ensures forall v: nat :: v in r <==> v < n
    ensures |r| == n
  {
    if n == 0 then {} else Below(n - 1) + {n - 1}
  }

  lemma {:induction false} SubsetSize<T>(a: set<T>, b: set<T>)
    requires a <= b
    ensures |a| <= |b|
  {
    assert b == a + (b - a);
  }

  lemma AnyOf<T>(among: set<T>) returns (a: T)
    requires among != {}
    ensures a in among
  {
    a :| a in among;
  }

  /** A strict majority of n servers. */
  predicate Quorum(n: nat, q: set<nat>) {
    q <= Below(n) && 2 * |q| > n
  }

  /** Any two majorities share a server. */
  lemma QuorumsMeet(n: nat, p: set<nat>, q: set<nat>) returns (v: nat)
    requires Quorum(n, p) && Quorum(n, q)
    ensures v in p && v in q && v < n
  {
    if p * q == {} {
      SubsetSize(p + q, Below(n));
      assert false;
    }
    v :| v in p * q;
    assert v in Below(n);
  }
}
