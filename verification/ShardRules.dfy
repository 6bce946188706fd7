/** What Join, Leave and Move guarantee, one configuration at a time and over whole runs. */
module ShardRules {
  import opened Prelude
  import opened Linearizability
  import opened ShardDeal
  import opened ShardOptimal
  import opened ShardConfigs

  /** Groups that may own shards: 0 stands for no group. */
  ghost function Live(groups: map<int, seq<string>>): set<int> { groups.Keys - {0} }

  ghost predicate AllWith(shards: seq<int>, groups: set<int>) {
    forall s :: 0 <= s < |shards| ==> shards[s] in groups
  }

  /** Every shard has exactly one live owner, or none when there are no groups. */
  ghost predicate Served(c: Config) { AllWith(c.shards, if Live(c.groups) == {} then {0} else Live(c.groups)) }

  /** The loads of the live groups differ by at most one. */
  ghost predicate Even(c: Config) { Within(Owners(c.shards), Live(c.groups), 1) }

  ghost function Next(c: Config, op: Change): Config
    requires |c.shards| == NSHARDS && InBounds(op)
  {
    Config(c.num + 1, NextShards(c, op), NextGroups(c, op))
  }

  // ---------- Join ----------

  lemma StartKeys(gids: set<int>, shards: seq<int>)
    ensures LiveIn(GroupLists(gids, shards)) == gids - {0} + (Elems(shards) - {0})
  {
    assert GroupLists(gids, shards).Keys == gids + Elems(shards);
  }

  lemma JoinKeys(c: Config, servers: map<int, seq<string>>)
    requires |c.shards| == NSHARDS
    ensures var start, live := Live(servers + c.groups) + (Elems(c.shards) - {0}), LiveIn(JoinDeal(c, servers).lists);
            live == if start == {} then {-1} else start
    ensures JoinDeal(c, servers).owner == Owners(NextShards(c, JoinOp(servers)))
  {
    var orig := Owners(c.shards);
    GroupListsFull((servers + c.groups).Keys, c.shards);
    StartKeys((servers + c.groups).Keys, c.shards);
    RebalanceStart(orig, JoinStart(c, servers).lists);
    RebalanceKeys(orig, JoinStart(c, servers));
    OwnersOfShards(JoinDeal(c, servers).owner);
  }

  lemma ServedJoinKeys(c: Config, servers: map<int, seq<string>>)
    requires |c.shards| == NSHARDS && Live(servers + c.groups) != {}
    requires AllWith(c.shards, Live(servers + c.groups) + {0})
    ensures LiveIn(JoinDeal(c, servers).lists) == Live(servers + c.groups)
    ensures JoinDeal(c, servers).owner == Owners(NextShards(c, JoinOp(servers)))
  {
    JoinKeys(c, servers);
    assert forall g :: g in Elems(c.shards) ==> g in Live(servers + c.groups) + {0};
  }

  /** Join leaves every shard with a live group exactly when some group is live and every owner
      before was live or nobody; a dead owner keeps a share for itself, and with no live group
      all shards go to the group -1. */
  lemma JoinServesIff(c: Config, servers: map<int, seq<string>>)
    requires |c.shards| == NSHARDS
    ensures var live := Live(servers + c.groups);
            AllWith(NextShards(c, JoinOp(servers)), live) <==> live != {} && AllWith(c.shards, live + {0})
  {
    var live := Live(servers + c.groups);
    var orig, r := Owners(c.shards), JoinDeal(c, servers);
    JoinKeys(c, servers);
    SettledIsBalanced(orig, r);
    if live != {} && AllWith(c.shards, live + {0}) {
      ServedJoinKeys(c, servers);
      forall s | 0 <= s < NSHARDS ensures NextShards(c, JoinOp(servers))[s] in live {
        assert r.owner[s] in LiveIn(r.lists);
      }
    }
    if AllWith(NextShards(c, JoinOp(servers)), live) {
      assert NextShards(c, JoinOp(servers))[0] in live;
      forall s | 0 <= s < NSHARDS ensures c.shards[s] in live + {0} {
        if c.shards[s] != 0 { OwnerStays(c, servers, s); }
      }
    }
  }

  lemma OwnerStays(c: Config, servers: map<int, seq<string>>, s: int)
    requires |c.shards| == NSHARDS && 0 <= s < NSHARDS && c.shards[s] != 0
    ensures exists x :: 0 <= x < NSHARDS && NextShards(c, JoinOp(servers))[x] == c.shards[s]
  {
    var orig, r := Owners(c.shards), JoinDeal(c, servers);
    JoinKeys(c, servers);
    assert s in Held(orig, c.shards[s]);
    NeverEmptied(orig, r, c.shards[s]);
    var x := AnyOf(Held(r.owner, c.shards[s]));
    assert NextShards(c, JoinOp(servers))[x] == c.shards[s];
  }

  /** With no live group before or after, Join hands every shard to the group -1. */
  lemma NoGroupsJoin(c: Config, servers: map<int, seq<string>>, s: int)
    requires |c.shards| == NSHARDS && AllWith(c.shards, {0}) && Live(servers + c.groups) == {} && 0 <= s < NSHARDS
    ensures NextShards(c, JoinOp(servers))[s] == -1
  {
    JoinKeys(c, servers);
    SettledIsBalanced(Owners(c.shards), JoinDeal(c, servers));
    assert Elems(c.shards) <= {0};
    assert IsShard(s) && s in AllShards();
  }

  /** A Join of no groups at the start hands every shard to the group -1, which never existed. */
  lemma EmptyJoinLosesShards(s: int)
    requires 0 <= s < NSHARDS
    ensures NextShards(DefaultConfig(), JoinOp(map[]))[s] == -1
  {
    NoGroupsJoin(DefaultConfig(), map[], s);
  }

  /** After Join the loads differ by at most one. */
  lemma JoinBalances(c: Config, servers: map<int, seq<string>>)
    requires |c.shards| == NSHARDS && Live(servers + c.groups) != {}
             && AllWith(c.shards, Live(servers + c.groups) + {0})
    ensures Served(Next(c, JoinOp(servers))) && Even(Next(c, JoinOp(servers)))
  {
    JoinServesIff(c, servers);
    ServedJoinKeys(c, servers);
    SettledBalanced(Owners(c.shards), JoinDeal(c, servers));
  }

  /** Join changes the owner of no more shards than any balanced assignment to the new groups. */
  lemma JoinMovesFewest(c: Config, servers: map<int, seq<string>>, other: seq<int>)
    requires |c.shards| == NSHARDS && Live(servers + c.groups) != {}
             && AllWith(c.shards, Live(servers + c.groups) + {0})
    requires |other| == NSHARDS && AllWith(other, Live(servers + c.groups))
             && Within(Owners(other), Live(servers + c.groups), 1)
    ensures |Changed(Owners(c.shards), Owners(NextShards(c, JoinOp(servers))))|
            <= |Changed(Owners(c.shards), Owners(other))|
  {
    ServedJoinKeys(c, servers);
    MovesFewest(Owners(c.shards), JoinDeal(c, servers), Owners(other));
  }

  /** Each round of Join's loop changes the owner of one more shard: none moves twice. */
  lemma JoinMovesEachOnce(c: Config, servers: map<int, seq<string>>)
    requires |c.shards| == NSHARDS
    ensures Balancing(Owners(c.shards), JoinStart(c, servers))
    ensures |Changed(Owners(c.shards), Owners(NextShards(c, JoinOp(servers))))|
            == Moves(Owners(c.shards), JoinStart(c, servers)) <= NSHARDS
  {
    var orig := Owners(c.shards);
    GroupListsFull((servers + c.groups).Keys, c.shards);
    RebalanceStart(orig, JoinStart(c, servers).lists);
    MovesCountChanges(orig, JoinStart(c, servers));
    JoinKeys(c, servers);
    AllShardsSize();
    SubsetSize(Changed(orig, JoinDeal(c, servers).owner), AllShards());
  }

  /** From an even configuration, Join hands shards only to groups that were not in it. */
  lemma JoinFillsNewcomers(c: Config, servers: map<int, seq<string>>, s: int)
    requires |c.shards| == NSHARDS && Live(c.groups) != {} && Served(c) && Even(c)
    requires 0 <= s < NSHARDS && NextShards(c, JoinOp(servers))[s] != c.shards[s]
    ensures NextShards(c, JoinOp(servers))[s] in servers && NextShards(c, JoinOp(servers))[s] !in c.groups
  {
    var orig, r := Owners(c.shards), JoinDeal(c, servers);
    assert forall g :: g in Live(c.groups) ==> g in Live(servers + c.groups);
    JoinServesIff(c, servers);
    JoinKeys(c, servers);
    OnlyNewcomersReceive(orig, r, Live(c.groups), s);
  }

  // ---------- Leave ----------

  lemma AppendDistinct(a: seq<int>, b: seq<int>)
    requires Distinct(a) && Distinct(b) && forall x :: x in a ==> x !in b
    ensures Distinct(a + b) && forall x :: x in a + b <==> x in a || x in b
  {
    assert forall i, j :: 0 <= i < |a| && 0 <= j < |b| ==> a[i] in a && b[j] in b;
  }

  lemma {:induction false} OrphansAre(c: Config, gids: seq<int>)
    requires |c.shards| == NSHARDS
    ensures var orphans := Orphans(GroupLists(c.groups.Keys, c.shards), gids);
            Distinct(orphans) && forall s :: s in orphans <==> 0 <= s < NSHARDS && c.shards[s] in gids
  {
    if gids != [] {
      var n := |gids| - 1;
      var lists := GroupLists(c.groups.Keys, c.shards);
      OrphansAre(c, gids[..n]);
      assert forall g :: g in gids <==> g in gids[..n] || g == gids[n];
      var before := Orphans(lists, gids[..n]);
      if gids[n] in lists && gids[n] !in gids[..n] {
        AppendDistinct(before, InOrder(c.shards, gids[n]));
      } else if gids[n] !in lists {
        forall s | 0 <= s < NSHARDS ensures c.shards[s] != gids[n] { assert c.shards[s] in Elems(c.shards); }
      }
    }
  }

  lemma LeaveRepresents(c: Config, gids: seq<int>)
    requires |c.shards| == NSHARDS
    ensures Represents(LeaveStart(c, gids))
  {
    var d := LeaveStart(c, gids);
    forall g | g in d.lists ensures ListOk(d.owner, g, d.lists[g]) {}
    forall s | s in d.owner ensures d.owner[s] in d.lists { assert c.shards[s] in Elems(c.shards); }
  }

  lemma LeavePlacing(c: Config, gids: seq<int>)
    requires |c.shards| == NSHARDS
    ensures Placing(LeaveStart(c, gids), Orphans(GroupLists(c.groups.Keys, c.shards), gids))
    ensures LeaveStart(c, gids).owner.Keys + Elems(Orphans(GroupLists(c.groups.Keys, c.shards), gids)) == AllShards()
  {
    OrphansAre(c, gids);
    LeaveRepresents(c, gids);
    var held, orphans := LeaveStart(c, gids).owner.Keys, Elems(Orphans(GroupLists(c.groups.Keys, c.shards), gids));
    forall s ensures (s in AllShards() <==> s in held || s in orphans) && !(s in held && s in orphans) {
      assert s in AllShards() <==> IsShard(s);
    }
  }

  lemma LeaveLive(c: Config, gids: seq<int>)
    ensures LiveIn(LeaveStart(c, gids).lists) ==
            Live(Without(c.groups, gids)) + (set g | g in c.shards && g !in gids && g != 0)
  {
    StartKeys(c.groups.Keys, c.shards);
    forall g ensures g in LiveIn(LeaveStart(c, gids).lists) <==>
      (g in Live(Without(c.groups, gids)) || (g in c.shards && g !in gids && g != 0)) {
      assert g in LiveIn(LeaveStart(c, gids).lists) <==> g in LiveIn(GroupLists(c.groups.Keys, c.shards)) && g !in gids;
    }
  }

  /** Leave moves only the shards of the groups that leave. */
  lemma LeaveMovesOnlyOrphans(c: Config, gids: seq<int>, s: int)
    requires |c.shards| == NSHARDS && Without(c.groups, gids) != map[] && 0 <= s < NSHARDS
    ensures var now, live := NextShards(c, LeaveOp(gids))[s], LiveIn(LeaveStart(c, gids).lists);
            && (c.shards[s] !in gids ==> now == c.shards[s])
            && (c.shards[s] in gids ==> if live == {} then now == -1 else now in live)
  {
    LeavePlacing(c, gids);
    var orphans := Orphans(GroupLists(c.groups.Keys, c.shards), gids);
    PlaceAllKeeps(LeaveStart(c, gids), orphans);
    OrphansAre(c, gids);
    assert s in AllShards() by { assert IsShard(s); }
    if c.shards[s] in gids { PlaceAllLive(LeaveStart(c, gids), orphans, s); }
  }

  lemma RemainingLoads(c: Config, gids: seq<int>)
    requires |c.shards| == NSHARDS && Served(c) && Live(Without(c.groups, gids)) != {}
    ensures LiveIn(LeaveStart(c, gids).lists) == Live(Without(c.groups, gids))
    ensures forall g :: g in Live(Without(c.groups, gids)) ==>
              g in Live(c.groups) && Load(LeaveStart(c, gids).owner, g) == Load(Owners(c.shards), g)
  {
    LeaveLive(c, gids);
    assert forall g :: g in c.shards ==> g in Live(c.groups);
    forall g | g in Live(Without(c.groups, gids))
      ensures Held(LeaveStart(c, gids).owner, g) == Held(Owners(c.shards), g)
    {}
  }

  /** Leave does not widen the spread of the loads, and from an even configuration stays even. */
  lemma LeaveKeepsSpread(c: Config, gids: seq<int>, b: nat)
    requires |c.shards| == NSHARDS && Served(c) && b >= 1 && Within(Owners(c.shards), Live(c.groups), b)
    ensures Within(Owners(NextShards(c, LeaveOp(gids))), Live(Without(c.groups, gids)), b)
  {
    var live := Live(Without(c.groups, gids));
    if live != {} {
      var d := LeaveStart(c, gids);
      var orphans := Orphans(GroupLists(c.groups.Keys, c.shards), gids);
      LeavePlacing(c, gids);
      RemainingLoads(c, gids);
      PlaceAllWithin(d, orphans, b);
      PlaceAllKeeps(d, orphans);
      OwnersOfShards(LeaveDeal(c, gids).owner);
    }
  }

  // ---------- every operation ----------

  /** Something is live after a Join; a Leave that empties the live groups leaves no group at all;
      a Move targets a live group. */
  ghost predicate Legal(c: Config, op: Change) {
    match op
    case JoinOp(servers) => Live(servers + c.groups) != {}
    case LeaveOp(gids) =>
      Without(c.groups, gids) == map[] || Live(Without(c.groups, gids)) != {} || Live(c.groups) == {}
    case MoveOp(_, gid) => gid in (if Live(c.groups) == {} then {0} else Live(c.groups))
  }

  lemma JoinServed(c: Config, servers: map<int, seq<string>>)
    requires |c.shards| == NSHARDS && Served(c)
    ensures Served(Next(c, JoinOp(servers))) <==> Legal(c, JoinOp(servers))
  {
    var live := Live(servers + c.groups);
    assert forall g :: g in Live(c.groups) ==> g in live;
    if live == {} {
      NoGroupsJoin(c, servers, 0);
    } else {
      assert AllWith(c.shards, live + {0});
      JoinServesIff(c, servers);
    }
  }

  lemma LeaveServed(c: Config, gids: seq<int>)
    requires |c.shards| == NSHARDS && Served(c)
    ensures Served(Next(c, LeaveOp(gids))) <==> Legal(c, LeaveOp(gids))
  {
    var left := Without(c.groups, gids);
    var now := NextShards(c, LeaveOp(gids));
    if left != map[] {
      forall s | 0 <= s < NSHARDS
        ensures Live(left) != {} ==> now[s] in Live(left)
        ensures Live(left) == {} && Live(c.groups) == {} ==> now[s] == 0
        ensures Live(left) == {} && Live(c.groups) != {} ==> now[s] == -1
      {
        LeaveMovesOnlyOrphans(c, gids, s);
        if Live(left) != {} {
          RemainingLoads(c, gids);
        } else {
          LeaveLive(c, gids);
          GoneIfNotLeft(c, gids);
        }
      }
      if Live(left) == {} && Live(c.groups) != {} { assert now[0] == -1; }
    }
  }

  lemma GoneIfNotLeft(c: Config, gids: seq<int>)
    requires Served(c) && Without(c.groups, gids) != map[] && Live(Without(c.groups, gids)) == {}
    ensures 0 !in gids && if Live(c.groups) == {} then AllWith(c.shards, {0}) else AllWith(c.shards, Elems(gids))
  {
    var left := Without(c.groups, gids);
    var g := AnyOf(left.Keys);
    assert g !in Live(left);
    assert forall g :: g in Live(c.groups) && g !in gids ==> g in Live(left);
  }

  /** From a served configuration, an operation leads to a served one exactly when it is legal. */
  lemma ServedIffLegal(c: Config, op: Change)
    requires |c.shards| == NSHARDS && InBounds(op) && Served(c)
    ensures Served(Next(c, op)) <==> Legal(c, op)
  {
    match op
    case JoinOp(servers) => JoinServed(c, servers);
    case LeaveOp(gids) => LeaveServed(c, gids);
    case MoveOp(shard, gid) => assert NextShards(c, op)[shard] == gid;
  }

  // ---------- whole runs ----------

  ghost function RunOf(ops: seq<Change>): (r: seq<Config>)
    requires forall i :: 0 <= i < |ops| ==> InBounds(ops[i])
    ensures Numbered(r) && |r| == |ops| + 1
  {
    if ops == [] then [DefaultConfig()] else After(RunOf(ops[..|ops| - 1]), ops[|ops| - 1])
  }

  ghost predicate LegalRun(ops: seq<Change>) {
    && (forall i :: 0 <= i < |ops| ==> InBounds(ops[i]))
    && (forall i :: 0 <= i < |ops| ==> Legal(RunOf(ops)[i], ops[i]))
  }

  /** Configurations once made never change. */
  lemma {:induction false} HistoryFixed(ops: seq<Change>, n: nat)
    requires n <= |ops| && forall i :: 0 <= i < |ops| ==> InBounds(ops[i])
    ensures RunOf(ops[..n]) == RunOf(ops)[..n + 1]
  {
    if n == |ops| {
      assert ops[..n] == ops;
    } else {
      var init := ops[..|ops| - 1];
      HistoryFixed(init, n);
      assert init[..n] == ops[..n];
    }
  }

  lemma {:induction false} RunStep(ops: seq<Change>, i: nat)
    requires (forall k :: 0 <= k < |ops| ==> InBounds(ops[k])) && 0 < i <= |ops|
    ensures RunOf(ops)[i] == Next(RunOf(ops)[i - 1], ops[i - 1])
  {
    var init := ops[..|ops| - 1];
    if i == |ops| {
      assert Numbered(RunOf(init));
    } else {
      RunStep(init, i);
    }
  }

  lemma StepServes(c: Config, op: Change)
    requires |c.shards| == NSHARDS && InBounds(op) && Served(c) && Legal(c, op)
    ensures Served(Next(c, op))
    ensures op.JoinOp? ==> Even(Next(c, op))
    ensures op.LeaveOp? && Even(c) ==> Even(Next(c, op))
  {
    ServedIffLegal(c, op);
    match op
    case JoinOp(servers) => EvenAfterJoin(c, servers);
    case LeaveOp(gids) => if Even(c) { LeaveKeepsSpread(c, gids, 1); }
    case MoveOp(_, _) =>
  }

  /** In every legal run each configuration serves every shard, every Join leaves the loads even
      and every Leave keeps them so. */
  lemma {:induction false} RunServes(ops: seq<Change>, i: nat)
    requires LegalRun(ops) && i <= |ops|
    ensures Served(RunOf(ops)[i])
    ensures i > 0 && ops[i - 1].JoinOp? ==> Even(RunOf(ops)[i])
    ensures i > 0 && ops[i - 1].LeaveOp? && Even(RunOf(ops)[i - 1]) ==> Even(RunOf(ops)[i])
  {
    if i == 0 {
      HistoryFixed(ops, 0);
      assert RunOf(ops[..0]) == [DefaultConfig()];
    } else {
      RunServes(ops, i - 1);
      RunStep(ops, i);
      StepServes(RunOf(ops)[i - 1], ops[i - 1]);
    }
  }

  lemma EvenAfterJoin(c: Config, servers: map<int, seq<string>>)
    requires |c.shards| == NSHARDS && Served(c) && Legal(c, JoinOp(servers))
    ensures Even(Next(c, JoinOp(servers)))
  {
    assert forall g :: g in Live(c.groups) ==> g in Live(servers + c.groups);
    JoinBalances(c, servers);
  }
}
