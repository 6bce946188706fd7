/** The shard controller's state machine: the list of configurations and the methods that extend it. */
module ShardCtrler {
  import opened Linearizability
  import opened Sorting
  import opened ShardDeal
  import opened ShardConfigs
  import opened ShardRules

  // ---------- lists from a configuration ----------

  lemma InOrderExtends(shards: seq<int>, n: nat, g: int)
    requires n < |shards|
    ensures InOrder(shards[..n + 1], g) == InOrder(shards[..n], g) + (if shards[n] == g then [n] else [])
  {
    assert shards[..n + 1][..n] == shards[..n];
  }

  lemma {:induction false} InOrderNone(shards: seq<int>, g: int)
    requires g !in shards
    ensures InOrder(shards, g) == []
  {
    if shards != [] { InOrderNone(shards[..|shards| - 1], g); }
  }

  lemma GroupListsExtend(gids: set<int>, shards: seq<int>, n: nat)
    requires n < |shards|
    ensures var before, g := GroupLists(gids, shards[..n]), shards[n];
            GroupLists(gids, shards[..n + 1]) == before[g := (if g in before then before[g] else []) + [n]]
  {
    var before, after, g := GroupLists(gids, shards[..n]), GroupLists(gids, shards[..n + 1]), shards[n];
    var want := before[g := (if g in before then before[g] else []) + [n]];
    assert Elems(shards[..n + 1]) == Elems(shards[..n]) + {g} by { assert shards[..n + 1] == shards[..n] + [g]; }
    assert after.Keys == want.Keys;
    forall h | h in after ensures after[h] == want[h] {
      InOrderExtends(shards, n, h);
      if g !in before {
        assert g !in Elems(shards[..n]);
        InOrderNone(shards[..n], g);
      }
    }
  }

  method Group2Shards(config: Config) returns (lists: Lists)
    ensures lists == GroupLists(config.groups.Keys, config.shards)
  {
    lists := map[];
    var gids := KeyList(config.groups);
    for i := 0 to |gids|
      invariant lists == map g | g in Elems(gids[..i]) :: []
    {
      assert Elems(gids[..i + 1]) == Elems(gids[..i]) + {gids[i]};
      lists := lists[gids[i] := []];
    }
    assert gids[..|gids|] == gids;
    assert lists == GroupLists(config.groups.Keys, config.shards[..0]);
    for shard := 0 to |config.shards|
      invariant lists == GroupLists(config.groups.Keys, config.shards[..shard])
    {
      var gid := config.shards[shard];
      GroupListsExtend(config.groups.Keys, config.shards, shard);
      lists := lists[gid := (if gid in lists then lists[gid] else []) + [shard]];
    }
    assert config.shards[..|config.shards|] == config.shards;
  }

  // ---------- a configuration from lists ----------

  method Assign(shards: seq<int>, list: seq<int>, gid: int) returns (r: seq<int>)
    requires |shards| == NSHARDS && forall x :: x in list ==> IsShard(x)
    ensures |r| == NSHARDS && forall s :: 0 <= s < NSHARDS ==> r[s] == if s in list then gid else shards[s]
  {
    r := shards;
    for i := 0 to |list|
      invariant |r| == NSHARDS && forall s :: 0 <= s < NSHARDS ==> r[s] == if s in list[..i] then gid else shards[s]
    {
      assert list[..i + 1] == list[..i] + [list[i]];
      assert IsShard(list[i]);
      r := r[list[i] := gid];
    }
    assert list[..|list|] == list;
  }

  /** What newShards holds once the groups in seen have been written. */
  ghost predicate Written(owner: map<int, int>, seen: set<int>, shards: seq<int>) {
    && |shards| == NSHARDS
    && forall s :: 0 <= s < NSHARDS ==> shards[s] == if s in owner && owner[s] in seen then owner[s] else 0
  }

  lemma WrittenNext(d: Deal, seen: set<int>, shards: seq<int>, gid: int, r: seq<int>)
    requires Represents(d) && gid in d.lists && Written(d.owner, seen, shards)
    requires |r| == NSHARDS && forall s :: 0 <= s < NSHARDS ==> r[s] == if s in d.lists[gid] then gid else shards[s]
    ensures Written(d.owner, seen + {gid}, r)
  {
    assert ListOk(d.owner, gid, d.lists[gid]);
    assert forall s :: s in d.lists[gid] <==> s in Held(d.owner, gid) by {
      assert forall s :: s in Elems(d.lists[gid]) <==> s in d.lists[gid];
    }
  }

  method NewShards(lists: Lists, ghost owner: map<int, int>) returns (shards: seq<int>)
    requires Represents(Deal(lists, owner)) && owner.Keys <= AllShards()
    ensures shards == ShardsOf(owner)
  {
    shards := seq(NSHARDS, _ => 0);
    var gids := KeyList(lists);
    for i := 0 to |gids|
      invariant Written(owner, Elems(gids[..i]), shards)
    {
      var gid := gids[i];
      assert gid in Elems(gids);
      assert ListOk(owner, gid, lists[gid]);
      assert forall x :: x in lists[gid] ==> x in Elems(lists[gid]);
      var r := Assign(shards, lists[gid], gid);
      WrittenNext(Deal(lists, owner), Elems(gids[..i]), shards, gid, r);
      assert Elems(gids[..i + 1]) == Elems(gids[..i]) + {gid};
      shards := r;
    }
    assert gids[..|gids|] == gids;
    forall s | 0 <= s < NSHARDS ensures shards[s] == ShardsOf(owner)[s] {}
  }

  // ---------- the rebalancing loops ----------

  method Balance(start: Lists, ghost orig: map<int, int>) returns (lists: Lists, ghost owner: map<int, int>)
    requires Full(Deal(start, orig))
    ensures Balancing(orig, Deal(start, orig))
    ensures lists == Rebalance(orig, Deal(start, orig)).lists && owner == Rebalance(orig, Deal(start, orig)).owner
  {
    lists, owner := start, orig;
    RebalanceStart(orig, lists);
    while true
      invariant Balancing(orig, Deal(lists, owner))
      invariant Rebalance(orig, Deal(lists, owner)) == Rebalance(orig, Deal(start, orig))
      decreases |Kept(orig, owner)|
    {
      var source := GetGIDWithMaximumShards(lists);
      var target := GetGIDWithMinimumShards(lists);
      ghost var d := Deal(lists, owner);
      SourceFacts(d);
      if source != 0 && |lists[source]| - (if target in lists then |lists[target]| else 0) <= 1 {
        break;
      }
      ChoiceMovable(orig, d);
      MoveKeeps(orig, d, source, target);
      MoveChanges(orig, d, source, target);
      owner := owner[lists[source][0] := target];
      var shard := lists[source][0];
      lists := lists[target := (if target in lists then lists[target] else []) + [shard]];
      lists := lists[source := lists[source][1..]];
      assert Deal(lists, owner) == MoveOne(d, source, target);
    }
  }

  method Place(start: Lists, orphans: seq<int>, ghost held: map<int, int>)
    returns (lists: Lists, ghost owner: map<int, int>)
    requires Placing(Deal(start, held), orphans)
    ensures lists == PlaceAll(Deal(start, held), orphans).lists && owner == PlaceAll(Deal(start, held), orphans).owner
  {
    lists, owner := start, held;
    for i := 0 to |orphans|
      invariant PlaceAll(Deal(lists, owner), orphans[i..]) == PlaceAll(Deal(start, held), orphans)
    {
      var target := GetGIDWithMinimumShards(lists);
      assert orphans[i..][1..] == orphans[i + 1..];
      lists := lists[target := (if target in lists then lists[target] else []) + [orphans[i]]];
      owner := owner[orphans[i] := target];
    }
  }

  method JoinShards(last: Config, groups: map<int, seq<string>>)
    returns (newGroups: map<int, seq<string>>, shards: seq<int>)
    requires |last.shards| == NSHARDS
    ensures newGroups == NextGroups(last, JoinOp(groups)) && shards == NextShards(last, JoinOp(groups))
  {
    newGroups := AddGroups(last.groups, groups);
    var start := Group2Shards(last.(groups := newGroups));
    GroupListsFull(newGroups.Keys, last.shards);
    var lists, owner := Balance(start, Owners(last.shards));
    assert Deal(lists, owner) == JoinDeal(last, groups);
    shards := NewShards(lists, owner);
  }

  method LeaveShards(last: Config, gids: seq<int>) returns (groups: map<int, seq<string>>, shards: seq<int>)
    requires |last.shards| == NSHARDS
    ensures groups == NextGroups(last, LeaveOp(gids)) && shards == NextShards(last, LeaveOp(gids))
  {
    var lists := Group2Shards(last);
    var orphans;
    groups, lists, orphans := RemoveGroups(last.groups, lists, gids);
    shards := seq(NSHARDS, _ => 0);
    if |groups| != 0 {
      ghost var owner := LeaveStart(last, gids).owner;
      LeavePlacing(last, gids);
      PlaceAllKeeps(LeaveStart(last, gids), orphans);
      lists, owner := Place(lists, orphans, owner);
      shards := NewShards(lists, owner);
    } else {
      assert shards == ShardsOf(map[]);
    }
  }

  method WithJoin(configs: seq<Config>, groups: map<int, seq<string>>) returns (r: seq<Config>)
    requires Numbered(configs)
    ensures r == After(configs, JoinOp(groups))
  {
    var lastConfig := configs[|configs| - 1];
    var newGroups, newShards := JoinShards(lastConfig, groups);
    r := configs + [Config(|configs|, newShards, newGroups)];
  }

  method WithLeave(configs: seq<Config>, gids: seq<int>) returns (r: seq<Config>)
    requires Numbered(configs)
    ensures r == After(configs, LeaveOp(gids))
  {
    var lastConfig := configs[|configs| - 1];
    var newGroups, newShards := LeaveShards(lastConfig, gids);
    r := configs + [Config(|configs|, newShards, newGroups)];
  }

  // ---------- the state machine ----------

  class MemoryConfigStateMachine {
    var configs: seq<Config>

    ghost predicate Valid()
      reads this
    {
      Numbered(configs)
    }

    constructor ()
      ensures Valid() && configs == [DefaultConfig()]
    {
      configs := [DefaultConfig()];
    }

    method Join(groups: map<int, seq<string>>)
      requires Valid()
      modifies this
      ensures Valid() && configs == After(old(configs), JoinOp(groups))
    {
      configs := WithJoin(configs, groups);
    }

    method Leave(gids: seq<int>)
      requires Valid()
      modifies this
      ensures Valid() && configs == After(old(configs), LeaveOp(gids))
    {
      configs := WithLeave(configs, gids);
    }

    method Move(shard: int, gid: int)
      requires Valid() && IsShard(shard)
      modifies this
      ensures Valid() && configs == After(old(configs), MoveOp(shard, gid)) && |configs| == |old(configs)| + 1
      ensures var before, after := old(configs)[|old(configs)| - 1], configs[|configs| - 1];
              && after.groups == before.groups && after.shards[shard] == gid
              && forall s :: 0 <= s < NSHARDS && s != shard ==> after.shards[s] == before.shards[s]
    {
      var lastConfig := configs[|configs| - 1];
      var newConfig := Config(|configs|, lastConfig.shards, lastConfig.groups);
      newConfig := newConfig.(shards := newConfig.shards[shard := gid]);
      configs := configs + [newConfig];
    }

    /** The configuration with that number, or the latest. */
    method Query(num: int) returns (r: Config)
      requires Valid()
      ensures r in configs && r.num == if 0 <= num < |configs| then num else |configs| - 1
    {
      if num < 0 || num >= |configs| {
        return configs[|configs| - 1];
      }
      return configs[num];
    }
  }

  ghost predicate Added(old_: map<int, seq<string>>, groups: map<int, seq<string>>, seen: set<int>,
                        r: map<int, seq<string>>) {
    && r.Keys == old_.Keys + groups.Keys * seen
    && forall g :: g in r ==> r[g] == if g in old_ then old_[g] else groups[g]
  }

  /** Groups already present keep their servers. */
  method AddGroups(old_: map<int, seq<string>>, groups: map<int, seq<string>>) returns (r: map<int, seq<string>>)
    ensures r == groups + old_
  {
    r := old_;
    var gids := KeyList(groups);
    for i := 0 to |gids|
      invariant Added(old_, groups, Elems(gids[..i]), r)
    {
      assert gids[i] in Elems(gids);
      assert Elems(gids[..i + 1]) == Elems(gids[..i]) + {gids[i]};
      if gids[i] !in r {
        r := r[gids[i] := groups[gids[i]]];
      }
    }
    assert gids[..|gids|] == gids;
    assert r.Keys == (groups + old_).Keys;
    assert forall g :: g in r ==> r[g] == (groups + old_)[g];
  }

  lemma RemoveNext(groups: map<int, seq<string>>, lists: Lists, gids: seq<int>, i: nat)
    requires i < |gids|
    ensures Without(groups, gids[..i + 1]) == Without(groups, gids[..i]) - {gids[i]}
    ensures Remaining(lists, gids[..i + 1]) == Remaining(lists, gids[..i]) - {gids[i]}
    ensures var rest := Remaining(lists, gids[..i]);
            Orphans(lists, gids[..i + 1]) == Orphans(lists, gids[..i]) + (if gids[i] in rest then rest[gids[i]] else [])
  {
    assert gids[..i + 1] == gids[..i] + [gids[i]];
    assert gids[..i + 1][..i] == gids[..i];
  }

  method RemoveGroups(groups: map<int, seq<string>>, lists: Lists, gids: seq<int>)
    returns (left: map<int, seq<string>>, rest: Lists, orphans: seq<int>)
    ensures left == Without(groups, gids) && rest == Remaining(lists, gids) && orphans == Orphans(lists, gids)
  {
    left, rest, orphans := groups, lists, [];
    for i := 0 to |gids|
      invariant left == Without(groups, gids[..i]) && rest == Remaining(lists, gids[..i])
                && orphans == Orphans(lists, gids[..i])
    {
      var gid := gids[i];
      RemoveNext(groups, lists, gids, i);
      if gid in left {
        left := left - {gid};
      }
      if gid in rest {
        orphans := orphans + rest[gid];
        rest := rest - {gid};
      }
    }
    assert gids[..|gids|] == gids;
  }
}
