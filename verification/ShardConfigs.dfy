/** Numbered configurations: what Join, Leave and Move append, as functions. */
module ShardConfigs {
  import opened Linearizability
  import opened ShardDeal

  datatype Config = Config(num: int, shards: seq<int>, groups: map<int, seq<string>>)

  datatype Change = JoinOp(servers: map<int, seq<string>>) | LeaveOp(gids: seq<int>) | MoveOp(shard: int, gid: int)

  function DefaultConfig(): Config { Config(0, seq(NSHARDS, _ => 0), map[]) }

  /** Configuration i has number i and an owner for every shard. */
  ghost predicate Numbered(configs: seq<Config>) {
    configs != [] && forall i :: 0 <= i < |configs| ==> configs[i].num == i && |configs[i].shards| == NSHARDS
  }

  predicate Increasing(s: seq<int>) { forall i, j :: 0 <= i < j < |s| ==> s[i] < s[j] }

  // ---------- lists from a configuration, and back ----------

  ghost function Owners(shards: seq<int>): (r: map<int, int>)
    ensures |shards| == NSHARDS ==> r.Keys == AllShards()
  {
    map s | 0 <= s < |shards| :: shards[s]
  }

  function InOrder(shards: seq<int>, g: int): (r: seq<int>)
    ensures Distinct(r) && forall s :: s in r <==> 0 <= s < |shards| && shards[s] == g
    ensures Increasing(r)
  {
    if shards == [] then []
    else
      var n := |shards| - 1;
      var before := InOrder(shards[..n], g);
      assert forall s :: s in before ==> s < n && shards[..n][s] == shards[s];
      assert forall i :: 0 <= i < |before| ==> before[i] in before;
      assert forall s :: 0 <= s < n && shards[s] == g ==> shards[..n][s] == g;
      before + (if shards[n] == g then [n] else [])
  }

  ghost function GroupLists(gids: set<int>, shards: seq<int>): Lists {
    map g | g in gids + Elems(shards) :: InOrder(shards, g)
  }

  lemma GroupListsFull(gids: set<int>, shards: seq<int>)
    requires |shards| == NSHARDS
    ensures Full(Deal(GroupLists(gids, shards), Owners(shards)))
  {
    var d := Deal(GroupLists(gids, shards), Owners(shards));
    forall g | g in d.lists ensures ListOk(d.owner, g, d.lists[g]) {}
    forall s | s in d.owner ensures d.owner[s] in d.lists { assert shards[s] in Elems(shards); }
  }

  function ShardsOf(owner: map<int, int>): (r: seq<int>)
    ensures |r| == NSHARDS && forall s :: 0 <= s < NSHARDS ==> r[s] == if s in owner then owner[s] else 0
  {
    seq(NSHARDS, s => if s in owner then owner[s] else 0)
  }

  lemma OwnersOfShards(owner: map<int, int>)
    requires owner.Keys == AllShards()
    ensures Owners(ShardsOf(owner)) == owner
  {
    forall s ensures s in owner <==> 0 <= s < NSHARDS { assert s in AllShards() <==> IsShard(s); }
  }

  // ---------- Join ----------

  ghost function JoinStart(c: Config, servers: map<int, seq<string>>): Deal {
    Deal(GroupLists((servers + c.groups).Keys, c.shards), Owners(c.shards))
  }

  ghost function JoinDeal(c: Config, servers: map<int, seq<string>>): (r: Deal)
    requires |c.shards| == NSHARDS
    ensures Balancing(Owners(c.shards), r) && !Unsettled(r)
  {
    GroupListsFull((servers + c.groups).Keys, c.shards);
    RebalanceStart(Owners(c.shards), JoinStart(c, servers).lists);
    Rebalance(Owners(c.shards), JoinStart(c, servers))
  }

  // ---------- Leave ----------

  ghost function Remaining(lists: Lists, gids: seq<int>): Lists {
    map g | g in lists && g !in gids :: lists[g]
  }

  /** The shards of the groups removed, in the order in which the groups are named. */
  ghost function Orphans(lists: Lists, gids: seq<int>): seq<int> {
    if gids == [] then []
    else
      var n := |gids| - 1;
      Orphans(lists, gids[..n]) + (if gids[n] in lists && gids[n] !in gids[..n] then lists[gids[n]] else [])
  }

  ghost function PlaceOne(d: Deal, shard: int): Deal {
    var t := Target(d.lists);
    Deal(d.lists[t := (if t in d.lists then d.lists[t] else []) + [shard]], d.owner[shard := t])
  }

  ghost function PlaceAll(d: Deal, orphans: seq<int>): Deal
    decreases |orphans|
  {
    if orphans == [] then d else PlaceAll(PlaceOne(d, orphans[0]), orphans[1..])
  }

  ghost function LeaveStart(c: Config, gids: seq<int>): Deal {
    Deal(Remaining(GroupLists(c.groups.Keys, c.shards), gids),
         map s | 0 <= s < |c.shards| && c.shards[s] !in gids :: c.shards[s])
  }

  ghost function LeaveDeal(c: Config, gids: seq<int>): Deal {
    PlaceAll(LeaveStart(c, gids), Orphans(GroupLists(c.groups.Keys, c.shards), gids))
  }

  function Without(groups: map<int, seq<string>>, gids: seq<int>): map<int, seq<string>> {
    map g | g in groups && g !in gids :: groups[g]
  }

  // ---------- the next configuration ----------

  ghost predicate InBounds(op: Change) { op.MoveOp? ==> IsShard(op.shard) }

  ghost function NextGroups(c: Config, op: Change): map<int, seq<string>> {
    match op
    case JoinOp(servers) => servers + c.groups
    case LeaveOp(gids) => Without(c.groups, gids)
    case MoveOp(_, _) => c.groups
  }

  ghost function NextShards(c: Config, op: Change): (r: seq<int>)
    requires |c.shards| == NSHARDS && InBounds(op)
    ensures |r| == NSHARDS
  {
    match op
    case JoinOp(servers) => ShardsOf(JoinDeal(c, servers).owner)
    case LeaveOp(gids) => ShardsOf(if Without(c.groups, gids) == map[] then map[] else LeaveDeal(c, gids).owner)
    case MoveOp(shard, gid) => c.shards[shard := gid]
  }

  ghost function Last(configs: seq<Config>): Config
    requires configs != []
  {
    configs[|configs| - 1]
  }

  ghost function After(configs: seq<Config>, op: Change): (r: seq<Config>)
    requires Numbered(configs) && InBounds(op)
    ensures Numbered(r)
  {
    configs + [Config(|configs|, NextShards(Last(configs), op), NextGroups(Last(configs), op))]
  }

  // ---------- placing orphans ----------

  /** The orphans still to be placed are held by nobody. */
  ghost predicate Placing(d: Deal, rest: seq<int>) {
    Represents(d) && d.owner.Keys <= AllShards() && Distinct(rest) && Elems(rest) <= AllShards()
      && Elems(rest) !! d.owner.Keys
  }

  lemma PlaceHeld(d: Deal, shard: int, g: int)
    requires shard !in d.owner
    ensures Held(PlaceOne(d, shard).owner, g) == Held(d.owner, g) + (if g == Target(d.lists) then {shard} else {})
    ensures Load(PlaceOne(d, shard).owner, g) == Load(d.owner, g) + (if g == Target(d.lists) then 1 else 0)
  {
  }

  lemma PlaceList(d: Deal, shard: int, g: int)
    requires Represents(d) && shard !in d.owner && g in PlaceOne(d, shard).lists
    ensures ListOk(PlaceOne(d, shard).owner, g, PlaceOne(d, shard).lists[g])
  {
    PlaceHeld(d, shard, g);
    if g == Target(d.lists) {
      var before := if g in d.lists then d.lists[g] else [];
      assert ListOk(d.owner, g, before) by {
        if g !in d.lists { LenIsLoad(d, g); }
      }
      assert shard !in Elems(before);
      assert Elems(before + [shard]) == Elems(before) + {shard};
    }
  }

  lemma PlaceKeeps(d: Deal, rest: seq<int>)
    requires Placing(d, rest) && rest != []
    ensures Placing(PlaceOne(d, rest[0]), rest[1..])
    ensures PlaceOne(d, rest[0]).lists.Keys == d.lists.Keys + {Target(d.lists)}
  {
    var shard, t := rest[0], Target(d.lists);
    var next := PlaceOne(d, shard);
    assert shard in Elems(rest);
    forall g | g in next.lists ensures ListOk(next.owner, g, next.lists[g]) { PlaceList(d, shard, g); }
    assert shard !in rest[1..];
    forall x | x in Elems(rest[1..]) ensures x in Elems(rest) && x != shard {}
  }

  lemma {:induction false} PlaceAllKeeps(d: Deal, rest: seq<int>)
    requires Placing(d, rest)
    ensures var r := PlaceAll(d, rest);
            && Represents(r) && r.owner.Keys == d.owner.Keys + Elems(rest)
            && (forall s :: s in d.owner ==> r.owner[s] == d.owner[s])
    decreases |rest|
  {
    if rest != [] {
      PlaceKeeps(d, rest);
      PlaceAllKeeps(PlaceOne(d, rest[0]), rest[1..]);
      assert rest == [rest[0]] + rest[1..];
      assert Elems(rest) == {rest[0]} + Elems(rest[1..]);
      assert rest[0] in Elems(rest);
    }
  }

  /** Orphans go to live groups; with none left they go to -1. */
  lemma {:induction false} PlaceAllLive(d: Deal, rest: seq<int>, s: int)
    requires Placing(d, rest) && s in Elems(rest)
    ensures s in PlaceAll(d, rest).owner
    ensures if LiveIn(d.lists) != {} then PlaceAll(d, rest).owner[s] in LiveIn(d.lists)
              else PlaceAll(d, rest).owner[s] == -1
    decreases |rest|
  {
    TargetFacts(d);
    PlaceKeeps(d, rest);
    var next := PlaceOne(d, rest[0]);
    PlaceAllKeeps(next, rest[1..]);
    if s != rest[0] {
      assert s in rest[1..];
      PlaceAllLive(next, rest[1..], s);
    }
  }

  /** No two groups differ by more than b. */
  ghost predicate Within(owner: map<int, int>, live: set<int>, b: nat) {
    forall g, h :: g in live && h in live ==> Load(owner, g) <= Load(owner, h) + b
  }

  lemma {:induction false} PlaceAllWithin(d: Deal, rest: seq<int>, b: nat)
    requires Placing(d, rest) && LiveIn(d.lists) != {} && b >= 1 && Within(d.owner, LiveIn(d.lists), b)
    ensures Within(PlaceAll(d, rest).owner, LiveIn(d.lists), b)
    decreases |rest|
  {
    if rest != [] {
      TargetFacts(d);
      PlaceKeeps(d, rest);
      var next := PlaceOne(d, rest[0]);
      assert LiveIn(next.lists) == LiveIn(d.lists);
      assert rest[0] in Elems(rest);
      forall g, h | g in LiveIn(d.lists) && h in LiveIn(d.lists)
        ensures Load(next.owner, g) <= Load(next.owner, h) + b {
        PlaceHeld(d, rest[0], g);
        PlaceHeld(d, rest[0], h);
      }
      PlaceAllWithin(next, rest[1..], b);
    }
  }
}
