/** Consequences of the core invariant that its preservation proofs share. */
module RaftCoreFacts {
  import opened Prelude
  import opened RaftLog
  import opened RaftCore

  lemma SoundIsMonotone(h: History, log: Log)
    requires Sound(h, log) && forall t: nat :: LeaderLogOk(h, t)
    ensures Monotone(log)
  {
    forall i, j | 0 <= i <= j < |log|
      ensures log[i].term <= log[j].term
    {
      if 1 <= j {
        assert Backed(h, log, j) && LeaderLogOk(h, log[j].term);
        var lead := h.leaderLog[log[j].term];
        assert log[i] == log[..j + 1][i] == lead[i] && log[j] == log[..j + 1][j] == lead[j];
      }
    }
  }

  lemma SoundPrefix(h: History, log: seq<Entry>, p: seq<Entry>)
    requires Sound(h, log) && p <= log && |p| >= 1
    ensures Sound(h, p)
  {
    assert p[0] == log[0];
    forall i | 1 <= i < |p|
      ensures Backed(h, p, i)
    {
      assert Backed(h, log, i) && p[..i + 1] == log[..i + 1];
    }
  }

  /** Two sound logs holding an entry of the same index and term agree up to it. */
  lemma SoundLogsMatch(h: History, a: Log, b: Log, i: nat)
    requires Sound(h, a) && Sound(h, b) && i < |a| && i < |b| && a[i].term == b[i].term
    ensures a[..i + 1] == b[..i + 1]
  {
    if i >= 1 {
      assert Backed(h, a, i) && Backed(h, b, i);
      var lead := h.leaderLog[a[i].term];
      assert forall k :: 0 <= k <= i ==> a[..i + 1][k] == lead[k] && b[..i + 1][k] == lead[k];
    }
  }

  lemma MonotoneHolds(log: Log, lead: Log, j: nat)
    requires Monotone(log) && j < |lead| && lead[..j + 1] <= log
    ensures Holds(log, lead, j)
  {
    assert log[j] == lead[..j + 1][j] == lead[j];
    assert log[j].term <= log[|log| - 1].term;
  }

  lemma CommittedIsChoosable(c: Core, t: nat, j: nat)
    requires Committed(c.h, t, j) && |c.servers| == c.h.size
    ensures Choosable(c, t, j)
  {
    var q :| Quorum(c.h.size, q) && AllAcked(c.h, q, t, j);
    forall v | v in q ensures MayAck(c, v, t, j) {
      assert AckedTo(c.h, v, t, j);
      assert v in Below(c.h.size);
    }
    assert AllMayAck(c, q, t, j);
  }

  ghost predicate Completeness(c: Core) {
    && |c.servers| == c.h.size
    && (forall t: nat :: LeaderLogOk(c.h, t))
    && (forall t: nat, j: nat, u: nat :: CompleteAt(c, t, j, u))
  }

  /** A committed prefix is in the log of every leader of the same or a later term. */
  lemma SafeInLater(c: Core, p: seq<Entry>, bound: nat, u: nat)
    requires Completeness(c) && Safe(c.h, p, bound) && u in c.h.leaderLog && bound <= u
    ensures p <= c.h.leaderLog[u]
  {
    assert LeaderLogOk(c.h, u);
    if p != [DUMMY] {
      var t: nat, j: nat :| SafeBy(c.h, p, bound, t, j);
      if t < u {
        CommittedIsChoosable(c, t, j);
        assert CompleteAt(c, t, j, u);
        PrefixesCompare(p, c.h.leaderLog[t][..j + 1], c.h.leaderLog[t]);
        PrefixTransitive(p, c.h.leaderLog[t][..j + 1], c.h.leaderLog[u]);
      }
    }
  }

  /** All entries of a committed prefix were written in terms up to the bound, and are sound. */
  lemma SafeIsSound(h: History, p: seq<Entry>, bound: nat)
    requires Safe(h, p, bound) && forall t: nat :: LeaderLogOk(h, t)
    ensures Sound(h, p) && Monotone(p)
    ensures forall i :: 0 <= i < |p| ==> p[i].term <= bound
  {
    if p != [DUMMY] {
      var t: nat, j: nat :| SafeBy(h, p, bound, t, j);
      assert LeaderLogOk(h, t);
      SoundPrefix(h, h.leaderLog[t], p);
      SoundIsMonotone(h, p);
    }
  }

  /** State machine safety in its bare form: committed prefixes never disagree. */
  lemma SafesAgree(c: Core, p: seq<Entry>, b: nat, q: seq<Entry>, d: nat)
    requires Completeness(c) && Safe(c.h, p, b) && Safe(c.h, q, d) && |p| <= |q|
    ensures p <= q
  {
    SafeIsSound(c.h, p, b);
    SafeIsSound(c.h, q, d);
    if p != [DUMMY] {
      var t: nat, j: nat :| SafeBy(c.h, p, b, t, j);
      var u: nat, k: nat :| SafeBy(c.h, q, d, u, k);
      assert SafeBy(c.h, p, t, t, j) && SafeBy(c.h, q, u, u, k);
      if t <= u {
        SafeInLater(c, p, t, u);
        PrefixesCompare(p, q, c.h.leaderLog[u]);
      } else {
        SafeInLater(c, q, u, t);
        PrefixesCompare(p, q, c.h.leaderLog[t]);
      }
    }
  }

  lemma SafeBoundGrows(h: History, p: seq<Entry>, b: nat, d: nat)
    requires Safe(h, p, b) && b <= d
    ensures Safe(h, p, d)
  {
    if p != [DUMMY] {
      var t: nat, j: nat :| SafeBy(h, p, b, t, j);
      assert SafeBy(h, p, d, t, j);
    }
  }

  lemma SafePrefix(h: History, p: seq<Entry>, q: seq<Entry>, b: nat)
    requires Safe(h, q, b) && p <= q && |p| >= 1
    ensures Safe(h, p, b)
  {
    if q == [DUMMY] {
      assert p == q;
    } else {
      var t: nat, j: nat :| SafeBy(h, q, b, t, j);
      PrefixTransitive(p, q, h.leaderLog[t]);
      assert SafeBy(h, p, b, t, j);
    }
  }

  /** Where no later leader up to `bound` lacked entry j of term t, that entry's
      prefix and a prefix committed by then never disagree. */
  lemma AckAgreesWithSafe(c: Core, t: nat, j: nat, p: seq<Entry>, bound: nat)
    requires Completeness(c) && Safe(c.h, p, bound) && t <= bound
    requires t in c.h.leaderLog && j < |c.h.leaderLog[t]| && !Escapes(c.h, t, j, bound)
    ensures |p| <= j + 1 ==> p <= c.h.leaderLog[t][..j + 1]
    ensures j + 1 <= |p| ==> c.h.leaderLog[t][..j + 1] <= p
  {
    var x := c.h.leaderLog[t][..j + 1];
    SafeIsSound(c.h, p, bound);
    assert LeaderLogOk(c.h, t);
    if p != [DUMMY] {
      var u: nat, k: nat :| SafeBy(c.h, p, bound, u, k);
      assert SafeBy(c.h, p, u, u, k);
      var host := c.h.leaderLog[if u > t then u else t];
      if u > t {
        assert !Lacks(c.h, t, j, u);
      } else {
        SafeInLater(c, p, u, t);
      }
      assert x <= host && p <= host;
      if |p| <= j + 1 { PrefixesCompare(p, x, host); } else { PrefixesCompare(x, p, host); }
    }
    if j + 1 <= |p| && |p| <= j + 1 {
      assert p == x;
    }
  }

  /** No prefix of a leader log that follows the committing leader reaches into a stale suffix. */
  lemma StaleDiverges(c: Core, log: Log, k: nat, t: nat, j: nat, u: nat, i: nat)
    requires Completeness(c) && StaleBy(c.h, log, k, t, j) && k < i < |log|
    requires u in c.h.leaderLog && t <= u && i < |c.h.leaderLog[u]|
    ensures c.h.leaderLog[u][i].term != log[i].term
  {
    var x, lead := c.h.leaderLog[t][..j + 1], c.h.leaderLog[u];
    assert Outdated(c.h, log, i, t, j) && LeaderLogOk(c.h, u);
    if t < u {
      CommittedIsChoosable(c, t, j);
      assert CompleteAt(c, t, j, u);
    }
    assert x <= lead;
    assert x[j] == lead[j];
    if i <= j {
      assert x[i] == lead[i];
    } else {
      assert lead[j].term <= lead[i].term;
    }
  }

  // ---------- growth of the histories ----------

  /** Leader logs are only extended, acknowledgements only raised. */
  ghost predicate Grows(h: History, g: History) {
    && h.size == g.size
    && (forall t :: t in h.leaderLog ==> t in g.leaderLog && h.leaderLog[t] <= g.leaderLog[t])
    && (forall k :: k in h.acks ==> k in g.acks && h.acks[k] <= g.acks[k])
  }

  lemma SoundGrows(h: History, g: History, log: seq<Entry>)
    requires Grows(h, g) && Sound(h, log)
    ensures Sound(g, log)
  {
    forall i | 1 <= i < |log|
      ensures Backed(g, log, i)
    {
      assert Backed(h, log, i);
      PrefixTransitive(log[..i + 1], h.leaderLog[log[i].term], g.leaderLog[log[i].term]);
    }
  }

  lemma CommittedGrows(h: History, g: History, t: nat, j: nat)
    requires Grows(h, g) && Committed(h, t, j)
    ensures Committed(g, t, j)
  {
    var q :| Quorum(h.size, q) && AllAcked(h, q, t, j);
    forall v | v in q ensures AckedTo(g, v, t, j) {
      assert AckedTo(h, v, t, j);
    }
    assert AllAcked(g, q, t, j);
  }

  lemma AcceptableGrows(h: History, g: History, log: seq<Entry>, k: nat, b: nat, d: nat)
    requires Grows(h, g) && Acceptable(h, log, k, b) && b <= d
    ensures Acceptable(g, log, k, d)
  {
    if Sound(h, log) {
      SoundGrows(h, g, log);
    } else {
      var t: nat, j: nat :| t <= b && StaleBy(h, log, k, t, j);
      CommittedGrows(h, g, t, j);
      PrefixTransitive(log[..k + 1], h.leaderLog[t], g.leaderLog[t]);
      forall i | k < i < |log| ensures Outdated(g, log, i, t, j) { assert Outdated(h, log, i, t, j); }
      assert t <= d && StaleBy(g, log, k, t, j);
    }
  }

  lemma SafeGrows(h: History, g: History, p: seq<Entry>, b: nat)
    requires Grows(h, g) && Safe(h, p, b)
    ensures Safe(g, p, b)
  {
    if p != [DUMMY] {
      var t: nat, j: nat :| SafeBy(h, p, b, t, j);
      CommittedGrows(h, g, t, j);
      PrefixTransitive(p, h.leaderLog[t], g.leaderLog[t]);
      assert SafeBy(g, p, b, t, j);
    }
  }

  lemma EscapesGrowsBound(h: History, t: nat, j: nat, b: nat, d: nat)
    requires t in h.leaderLog && j < |h.leaderLog[t]| && Escapes(h, t, j, b) && b <= d
    ensures Escapes(h, t, j, d)
  {
    var u: nat :| Lacks(h, t, j, u) && u <= b;
    assert Lacks(h, t, j, u) && u <= d;
  }
}
