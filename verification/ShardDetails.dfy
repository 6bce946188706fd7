/** Exactly which shards move, in which order, and what stays as it is. */
module ShardDetails {
  import opened Linearizability
  import opened ShardDeal
  import opened ShardConfigs
  import opened ShardRules

  // ---------- Join gives away the lowest shards first ----------

  /** Among the shards a group started with, those it still has are the highest. */
  ghost predicate KeepsHighest(orig: map<int, int>, owner: map<int, int>, s: int, t: int) {
    s in orig && t in orig && s in owner && t in owner && orig[s] == orig[t] && s < t && owner[s] == orig[s] ==>
      owner[t] == orig[t]
  }

  ghost predicate LowestFirst(orig: map<int, int>, d: Deal) {
    && (forall s, t :: KeepsHighest(orig, d.owner, s, t))
    && (forall g :: g in d.lists && !Grown(orig, d.owner, g) ==> Increasing(d.lists[g]))
  }

  lemma MoveKeepsOrder(orig: map<int, int>, d: Deal, s: int, t: int)
    requires Movable(orig, d, s, t) && LowestFirst(orig, d)
    ensures LowestFirst(orig, MoveOne(d, s, t))
  {
    var next, shard := MoveOne(d, s, t), d.lists[s][0];
    MoveDirections(orig, d, s, t);
    MovedOnce(orig, d, s, t);
    MoveHeld(d, s, t, s);
    assert ListOk(d.owner, s, d.lists[s]);
    forall x | x in Held(d.owner, s) ensures shard <= x {
      assert x in Elems(d.lists[s]);
      var i :| 0 <= i < |d.lists[s]| && d.lists[s][i] == x;
    }
    forall x, y ensures KeepsHighest(orig, next.owner, x, y) {
      assert KeepsHighest(orig, d.owner, x, y);
      if x in d.owner && d.owner[x] == s { assert x in Held(d.owner, s); }
    }
    forall g | g in next.lists && !Grown(orig, next.owner, g) ensures Increasing(next.lists[g]) {
      MoveTrend(orig, d, s, t, g);
    }
  }

  lemma {:induction false} RebalanceKeepsOrder(orig: map<int, int>, d: Deal)
    requires Balancing(orig, d) && LowestFirst(orig, d)
    ensures LowestFirst(orig, Rebalance(orig, d))
    decreases |Kept(orig, d.owner)|
  {
    if Unsettled(d) {
      var s, t := Source(d.lists), Target(d.lists);
      ChoiceMovable(orig, d);
      MoveKeeps(orig, d, s, t);
      MoveChanges(orig, d, s, t);
      MoveKeepsOrder(orig, d, s, t);
      RebalanceKeepsOrder(orig, MoveOne(d, s, t));
    }
  }

  /** If Join moves a shard away from its owner, it also moves every lower shard of that owner. */
  lemma JoinMovesLowest(c: Config, servers: map<int, seq<string>>, s: int, t: int)
    requires |c.shards| == NSHARDS && 0 <= s < t < NSHARDS && c.shards[s] == c.shards[t]
    requires NextShards(c, JoinOp(servers))[t] != c.shards[t]
    ensures NextShards(c, JoinOp(servers))[s] != c.shards[s]
  {
    var orig, start := Owners(c.shards), JoinStart(c, servers);
    GroupListsFull((servers + c.groups).Keys, c.shards);
    RebalanceStart(orig, start.lists);
    RebalanceKeepsOrder(orig, start);
    JoinKeys(c, servers);
    assert KeepsHighest(orig, JoinDeal(c, servers).owner, s, t);
    assert IsShard(s) && IsShard(t) && s in AllShards() && t in AllShards();
  }

  // ---------- Leave places the orphans one by one ----------

  /** The first position at which a gid is named. */
  function FirstNamed(gids: seq<int>, g: int): nat {
    if gids == [] || gids[0] == g then 0 else 1 + FirstNamed(gids[1..], g)
  }

  lemma {:induction false} FirstNamedPrefix(gids: seq<int>, n: nat, g: int)
    requires n <= |gids| && g in gids[..n]
    ensures FirstNamed(gids[..n], g) == FirstNamed(gids, g) < n
  {
    if gids[0] != g {
      assert gids[..n] == [gids[0]] + gids[1..][..n - 1];
      assert gids[..n][1..] == gids[1..][..n - 1];
      FirstNamedPrefix(gids[1..], n - 1, g);
    }
  }

  lemma {:induction false} FirstNamedHere(gids: seq<int>, n: nat)
    requires n < |gids| && gids[n] !in gids[..n]
    ensures FirstNamed(gids, gids[n]) == n
  {
    if n > 0 {
      assert gids[0] in gids[..n];
      assert gids[1..][..n - 1] == gids[..n][1..];
      FirstNamedHere(gids[1..], n - 1);
    }
  }

  /** Shard s is placed before shard t: its group is named earlier, or it is a lower shard of the same group. */
  predicate PlacedBefore(c: Config, gids: seq<int>, s: int, t: int)
    requires 0 <= s < |c.shards| && 0 <= t < |c.shards|
  {
    FirstNamed(gids, c.shards[s]) < FirstNamed(gids, c.shards[t]) || (c.shards[s] == c.shards[t] && s < t)
  }

  ghost predicate OrderedPair(c: Config, gids: seq<int>, orphans: seq<int>, i: nat, j: nat) {
    i < j < |orphans| ==>
      && 0 <= orphans[i] < |c.shards| && 0 <= orphans[j] < |c.shards| && PlacedBefore(c, gids, orphans[i], orphans[j])
  }

  /** Orphans are placed group by group as the groups are named, lower shards first. */
  lemma {:induction false} OrphansInOrder(c: Config, gids: seq<int>, n: nat, i: nat, j: nat)
    requires |c.shards| == NSHARDS && n <= |gids|
    ensures OrderedPair(c, gids, Orphans(GroupLists(c.groups.Keys, c.shards), gids[..n]), i, j)
  {
    var lists := GroupLists(c.groups.Keys, c.shards);
    var orphans := Orphans(lists, gids[..n]);
    OrphansAre(c, gids[..n]);
    if n > 0 && i < j < |orphans| {
      assert gids[..n][..n - 1] == gids[..n - 1];
      var before := Orphans(lists, gids[..n - 1]);
      OrphansInOrder(c, gids, n - 1, i, j);
      OrphansAre(c, gids[..n - 1]);
      assert orphans[i] in orphans && orphans[j] in orphans;
      if j >= |before| { LaterOrphans(c, gids, n, before, i, j); }
    }
  }

  lemma LaterOrphans(c: Config, gids: seq<int>, n: nat, before: seq<int>, i: nat, j: nat)
    requires |c.shards| == NSHARDS && 0 < n <= |gids|
    requires var lists := GroupLists(c.groups.Keys, c.shards);
             before == Orphans(lists, gids[..n - 1]) && i < j < |Orphans(lists, gids[..n])| && j >= |before|
    ensures OrderedPair(c, gids, Orphans(GroupLists(c.groups.Keys, c.shards), gids[..n]), i, j)
  {
    var lists, g := GroupLists(c.groups.Keys, c.shards), gids[n - 1];
    var orphans := Orphans(lists, gids[..n]);
    assert gids[..n][..n - 1] == gids[..n - 1];
    var more := InOrder(c.shards, g);
    assert orphans == before + more && g !in gids[..n - 1];
    assert orphans[j] == more[j - |before|] && more[j - |before|] in more;
    FirstNamedHere(gids, n - 1);
    if i < |before| {
      OrphansAre(c, gids[..n - 1]);
      assert before[i] in before;
      FirstNamedPrefix(gids, n - 1, c.shards[orphans[i]]);
    } else {
      assert orphans[i] == more[i - |before|] && more[i - |before|] in more;
    }
  }

  /** The k-th orphan goes to the group that is emptiest once the orphans before it are placed. */
  lemma {:induction false} PlacedAtEmptiest(d: Deal, orphans: seq<int>, k: nat)
    requires Placing(d, orphans) && k < |orphans|
    ensures orphans[k] in PlaceAll(d, orphans).owner
    ensures PlaceAll(d, orphans).owner[orphans[k]] == Target(PlaceAll(d, orphans[..k]).lists)
    decreases |orphans|
  {
    var next := PlaceOne(d, orphans[0]);
    PlaceKeeps(d, orphans);
    PlaceAllKeeps(next, orphans[1..]);
    if k == 0 {
      assert orphans[..0] == [];
    } else {
      PlacedAtEmptiest(next, orphans[1..], k - 1);
      assert orphans[..k][1..] == orphans[1..][..k - 1] && orphans[..k][0] == orphans[0];
    }
  }

  /** When the last groups leave, every shard is left to nobody. */
  lemma LastLeave(c: Config, gids: seq<int>, s: int)
    requires |c.shards| == NSHARDS && 0 <= s < NSHARDS && forall g :: g in c.groups ==> g in gids
    ensures NextShards(c, LeaveOp(gids))[s] == 0 && NextGroups(c, LeaveOp(gids)) == map[]
  {
    var left := Without(c.groups, gids);
    forall g ensures g !in left { assert g in left ==> g in c.groups; }
    assert left.Keys == {};
  }

  // ---------- Move, and the groups ----------

  /** Move gives the named shard to the named group and leaves every other shard and all groups alone. */
  lemma MoveChangesOne(c: Config, shard: int, gid: int)
    requires |c.shards| == NSHARDS && IsShard(shard)
    ensures var next := Next(c, MoveOp(shard, gid));
            && next.groups == c.groups && |next.shards| == NSHARDS && next.shards[shard] == gid
            && forall s :: 0 <= s < NSHARDS && s != shard ==> next.shards[s] == c.shards[s]
  {
  }

  /** Over every run, a Move leads to a configuration that differs at most in the named shard. */
  lemma RunMoves(ops: seq<Change>, i: nat)
    requires (forall k :: 0 <= k < |ops| ==> InBounds(ops[k])) && i < |ops| && ops[i].MoveOp?
    ensures var c, next := RunOf(ops)[i], RunOf(ops)[i + 1];
            && next.groups == c.groups && |next.shards| == |c.shards| == NSHARDS
               && next.shards[ops[i].shard] == ops[i].gid
            && forall s :: 0 <= s < NSHARDS && s != ops[i].shard ==> next.shards[s] == c.shards[s]
  {
    RunStep(ops, i + 1);
    MoveChangesOne(RunOf(ops)[i], ops[i].shard, ops[i].gid);
  }

  /** Over every run: a Join adds exactly the groups that were not there and changes nobody's servers, a
      Leave removes exactly the named groups, and a Move none. */
  lemma RunGroups(ops: seq<Change>, i: nat, g: int)
    requires (forall k :: 0 <= k < |ops| ==> InBounds(ops[k])) && i < |ops|
    ensures var before, after := RunOf(ops)[i].groups, RunOf(ops)[i + 1].groups;
            match ops[i]
            case JoinOp(servers) =>
              && (g in after <==> g in before || g in servers)
              && (g in after ==> after[g] == if g in before then before[g] else servers[g])
            case LeaveOp(gids) =>
              (g in after <==> g in before && g !in gids) && (g in after ==> after[g] == before[g])
            case MoveOp(_, _) => after == before
  {
    RunStep(ops, i + 1);
  }
}
