/** The key/value model that histories are checked against, its partition by key, and the
    locality theorem that justifies checking each key alone. */
module KvModel {
  import opened Prelude
  import opened Linearizability
  import opened SubHistories
  import opened Sorting

  /** op: 0 is get, 1 is put, anything else append. */
  datatype KvInput = KvInput(op: nat, key: string, value: string)

  datatype KvOutput = KvOutput(value: string)

  type KvOperation = Operation<KvInput, KvOutput>

  /** One key's value under one operation. */
  function KeyStep(st: string, inp: KvInput, out: KvOutput): (bool, string) {
    if inp.op == 0 then (out.value == st, st)
    else if inp.op == 1 then (true, inp.value)
    else (true, st + inp.value)
  }

  function KeyModel(): Model<string, KvInput, KvOutput> { Model("", KeyStep) }

  function Lookup(store: map<string, string>, key: string): string {
    if key in store then store[key] else ""
  }

  /** The whole store under one operation. */
  function StoreStep(store: map<string, string>, inp: KvInput, out: KvOutput): (bool, map<string, string>) {
    var value := Lookup(store, inp.key);
    if inp.op == 0 then (out.value == value, store)
    else if inp.op == 1 then (true, store[inp.key := inp.value])
    else (true, store[inp.key := value + inp.value])
  }

  function StoreModel(): Model<map<string, string>, KvInput, KvOutput> { Model(map[], StoreStep) }

  // ---------- the operations on one key ----------

  function KeyOf(ops: seq<KvOperation>, a: nat): string
    requires a < |ops|
  {
    ops[a].input.key
  }

  /** The part of an order that concerns one key. */
  function Restrict(ops: seq<KvOperation>, order: seq<nat>, key: string): (r: seq<nat>)
    requires InRange(order, |ops|)
    ensures InRange(r, |ops|) && forall a :: a in r <==> a in order && a < |ops| && KeyOf(ops, a) == key
  {
    if order == [] then []
    else
      var last := |order| - 1;
      Restrict(ops, order[..last], key) + (if KeyOf(ops, order[last]) == key then [order[last]] else [])
  }

  lemma {:induction false} RestrictConcat(ops: seq<KvOperation>, a: seq<nat>, b: seq<nat>, key: string)
    requires InRange(a, |ops|) && InRange(b, |ops|)
    ensures InRange(a + b, |ops|) && Restrict(ops, a + b, key) == Restrict(ops, a, key) + Restrict(ops, b, key)
  {
    if b == [] {
      assert a + b == a;
    } else {
      var last := |b| - 1;
      RestrictConcat(ops, a, b[..last], key);
      assert (a + b)[..|a + b| - 1] == a + b[..last];
    }
  }

  ghost function KeyReplay(ops: seq<KvOperation>, order: seq<nat>, key: string): Option<string>
    requires InRange(order, |ops|)
  {
    Replay(KeyModel(), ops, Restrict(ops, order, key))
  }

  ghost predicate KeyAccepts(ops: seq<KvOperation>, order: seq<nat>, key: string)
    requires InRange(order, |ops|)
  {
    KeyReplay(ops, order, key).Some?
  }

  /** What the last operation of an order does to one key. */
  lemma KeyReplayLast(ops: seq<KvOperation>, order: seq<nat>, key: string)
    requires InRange(order, |ops|) && order != []
    ensures var init, a := order[..|order| - 1], order[|order| - 1];
            KeyReplay(ops, order, key) ==
            if KeyOf(ops, a) != key then KeyReplay(ops, init, key)
            else match KeyReplay(ops, init, key)
                 case None => None
                 case Some(s) => (var (ok, t) := KeyStep(s, ops[a].input, ops[a].output); if ok then Some(t) else None)
  {
    var init, a := order[..|order| - 1], order[|order| - 1];
    if KeyOf(ops, a) == key {
      ReplayExtends(ops, Restrict(ops, init, key), a);
    } else {
      assert Restrict(ops, order, key) == Restrict(ops, init, key);
    }
  }

  /** If the store accepts an order, each key accepts its part and ends with the store's value. */
  lemma {:induction false} StoreGivesKeys(ops: seq<KvOperation>, order: seq<nat>, key: string)
    requires InRange(order, |ops|) && Replay(StoreModel(), ops, order).Some?
    ensures KeyReplay(ops, order, key) == Some(Lookup(Replay(StoreModel(), ops, order).value, key))
  {
    if order != [] {
      StoreGivesKeys(ops, order[..|order| - 1], key);
      KeyReplayLast(ops, order, key);
    }
  }

  /** If each key accepts its part of an order, the store accepts the order. */
  lemma {:induction false} KeysGiveStore(ops: seq<KvOperation>, order: seq<nat>)
    requires InRange(order, |ops|) && forall k :: KeyAccepts(ops, order, k)
    ensures Replay(StoreModel(), ops, order).Some?
  {
    if order != [] {
      var init, a := order[..|order| - 1], order[|order| - 1];
      forall k ensures KeyAccepts(ops, init, k) {
        assert KeyAccepts(ops, order, k);
        KeyReplayLast(ops, order, k);
      }
      KeysGiveStore(ops, init);
      assert KeyAccepts(ops, order, KeyOf(ops, a));
      KeyReplayLast(ops, order, KeyOf(ops, a));
      StoreGivesKeys(ops, init, KeyOf(ops, a));
    }
  }

  lemma ReplayExtends(ops: seq<KvOperation>, order: seq<nat>, a: nat)
    requires InRange(order, |ops|) && a < |ops|
    ensures Replay(KeyModel(), ops, order + [a]) ==
            match Replay(KeyModel(), ops, order)
            case None => None
            case Some(s) => (var (ok, t) := KeyStep(s, ops[a].input, ops[a].output); if ok then Some(t) else None)
  {
    assert (order + [a])[..|order|] == order;
  }

  // ---------- from the whole history to one key ----------

  lemma {:induction false} RestrictKeepsOrder(ops: seq<KvOperation>, order: seq<nat>, key: string)
    requires InRange(order, |ops|) && Distinct(order) && Respects(ops, order)
    ensures Distinct(Restrict(ops, order, key)) && Respects(ops, Restrict(ops, order, key))
  {
    if order != [] {
      var last := |order| - 1;
      var init := order[..last];
      var r := Restrict(ops, init, key);
      RestrictKeepsOrder(ops, init, key);
      forall i | 0 <= i < |r| ensures r[i] != order[last] && !Precedes(ops, order[last], r[i]) {
        assert r[i] in init;
        LastComesAfter(ops, order, r[i]);
      }
      if KeyOf(ops, order[last]) == key { OrderSnoc(ops, r, order[last]); }
    }
  }

  lemma LastComesAfter(ops: seq<KvOperation>, order: seq<nat>, x: nat)
    requires InRange(order, |ops|) && Distinct(order) && Respects(ops, order) && order != []
             && x in order[..|order| - 1]
    ensures x < |ops| && x != order[|order| - 1] && !Precedes(ops, order[|order| - 1], x)
  {
    var j :| 0 <= j < |order| - 1 && order[j] == x;
  }

  lemma OrderSnoc(ops: seq<KvOperation>, r: seq<nat>, a: nat)
    requires InRange(r, |ops|) && Distinct(r) && Respects(ops, r) && a < |ops|
    requires forall i :: 0 <= i < |r| ==> r[i] != a && !Precedes(ops, a, r[i])
    ensures InRange(r + [a], |ops|) && Distinct(r + [a]) && Respects(ops, r + [a])
  {
  }

  /** The sub-history of one key, in the order of the history. */
  function SubHistory(ops: seq<KvOperation>, key: string): seq<KvOperation> {
    if ops == [] then []
    else
      var last := |ops| - 1;
      SubHistory(ops[..last], key) + (if ops[last].input.key == key then [ops[last]] else [])
  }

  /** The positions of that key's operations. */
  function KeyIds(ops: seq<KvOperation>, key: string): (f: seq<nat>)
    ensures InRange(f, |ops|) && Distinct(f) && forall i, j :: 0 <= i < j < |f| ==> f[i] < f[j]
    ensures forall a :: a in f <==> 0 <= a < |ops| && ops[a].input.key == key
  {
    if ops == [] then []
    else
      var last := |ops| - 1;
      var before := KeyIds(ops[..last], key);
      assert forall a :: a in before <==> 0 <= a < last && ops[a].input.key == key;
      before + (if ops[last].input.key == key then [last] else [])
  }

  lemma {:induction false} KeyIdsSelect(ops: seq<KvOperation>, key: string)
    ensures Selects(ops, SubHistory(ops, key), KeyIds(ops, key))
  {
    if ops != [] {
      var last := |ops| - 1;
      KeyIdsSelect(ops[..last], key);
      assert forall i :: 0 <= i < |KeyIds(ops[..last], key)| ==>
        ops[..last][KeyIds(ops[..last], key)[i]] == ops[KeyIds(ops[..last], key)[i]];
    }
  }

  /** One key's sub-history is linearizable for that key. */
  ghost predicate KeyLinearizable(ops: seq<KvOperation>, key: string) {
    Linearizable(KeyModel(), SubHistory(ops, key))
  }

  ghost predicate KeyHasOrder(ops: seq<KvOperation>, key: string) {
    HasOrder(KeyModel(), ops, Elems(KeyIds(ops, key)))
  }

  ghost function KeyOrder(ops: seq<KvOperation>, key: string): (r: seq<nat>)
    requires KeyHasOrder(ops, key)
    ensures OrderOf(KeyModel(), ops, Elems(KeyIds(ops, key)), r)
  {
    assert HasOrder(KeyModel(), ops, Elems(KeyIds(ops, key)));
    var r: seq<nat> :| OrderOf(KeyModel(), ops, Elems(KeyIds(ops, key)), r);
    r
  }

  lemma KeyOrders(ops: seq<KvOperation>, key: string)
    ensures KeyLinearizable(ops, key) <==> KeyHasOrder(ops, key)
  {
    var f := KeyIds(ops, key);
    KeyIdsSelect(ops, key);
    SelectionLinearizable(KeyModel(), ops, SubHistory(ops, key), f);
  }

  lemma WholeGivesKey(ops: seq<KvOperation>, order: seq<nat>, key: string)
    requires Linearization(StoreModel(), ops, order)
    ensures KeyLinearizable(ops, key)
  {
    var r := Restrict(ops, order, key);
    RestrictKeepsOrder(ops, order, key);
    StoreGivesKeys(ops, order, key);
    FullOrder(order, |ops|);
    forall a ensures a in Elems(r) <==> a in Elems(KeyIds(ops, key)) {
      if a in KeyIds(ops, key) { assert a in Elems(order); }
    }
    assert OrderOf(KeyModel(), ops, Elems(KeyIds(ops, key)), r);
    KeyOrders(ops, key);
  }

  // ---------- from the keys to the whole history ----------

  ghost predicate Timely(ops: seq<KvOperation>) {
    forall a :: 0 <= a < |ops| ==> ops[a].call <= ops[a].ret
  }

  ghost predicate QueueOk(ops: seq<KvOperation>, key: string, q: seq<nat>) {
    && InRange(q, |ops|) && Distinct(q) && Respects(ops, q)
    && forall a :: a in q ==> KeyOf(ops, a) == key
  }

  /** One ordered queue of operations per key, over the operations in `left`. */
  ghost predicate Queues(ops: seq<KvOperation>, queues: map<string, seq<nat>>, left: set<nat>) {
    && (forall k :: k in queues ==> QueueOk(ops, k, queues[k]))
    && (forall a :: a in left ==> a < |ops| && KeyOf(ops, a) in queues && a in queues[KeyOf(ops, a)])
    && (forall k, a :: k in queues && a in queues[k] ==> a in left)
  }

  lemma {:induction false} EarliestReturn(ops: seq<KvOperation>, left: set<nat>) returns (r: nat)
    requires left != {} && forall a :: a in left ==> a < |ops|
    ensures r in left && forall a :: a in left ==> ops[r].ret <= ops[a].ret
    decreases left
  {
    var a :| a in left;
    if left == {a} {
      r := a;
    } else {
      var b := EarliestReturn(ops, left - {a});
      r := if ops[a].ret <= ops[b].ret then a else b;
    }
  }

  /** The first operation in the queue of the earliest return was invoked before any outstanding
      operation returned, so it can be linearized first. */
  lemma HeadIsMinimal(ops: seq<KvOperation>, queues: map<string, seq<nat>>, left: set<nat>, r: nat)
    requires Timely(ops) && Queues(ops, queues, left) && r in left && forall a :: a in left ==> ops[r].ret <= ops[a].ret
    ensures var q := queues[KeyOf(ops, r)];
            q != [] && q[0] in left && forall a :: a in left ==> !Precedes(ops, a, q[0])
  {
    var q := queues[KeyOf(ops, r)];
    var i :| 0 <= i < |q| && q[i] == r;
    assert QueueOk(ops, KeyOf(ops, r), q);
    assert i > 0 ==> !Precedes(ops, q[i], q[0]);
    assert ops[q[0]].call <= ops[r].ret;
  }

  lemma QueuesAfter(ops: seq<KvOperation>, queues: map<string, seq<nat>>, left: set<nat>, key: string)
    requires Queues(ops, queues, left) && key in queues && queues[key] != []
    ensures Queues(ops, queues[key := queues[key][1..]], left - {queues[key][0]})
  {
    var q := queues[key];
    var h, rest := q[0], q[1..];
    assert QueueOk(ops, key, q);
    assert forall a :: a in q <==> a == h || a in rest;
    assert h !in rest;
    forall i, j | 0 <= i < j < |rest| ensures !Precedes(ops, rest[j], rest[i]) {
      assert !Precedes(ops, q[j + 1], q[i + 1]);
    }
    assert QueueOk(ops, key, rest);
    var now := queues[key := rest];
    forall k, a | k in now && a in now[k] ensures a in left - {h} {
      if k != key { assert QueueOk(ops, k, queues[k]); }
    }
  }

  /** Taking the head of one queue and then an order that drains the rest drains them all. */
  ghost predicate Drains(ops: seq<KvOperation>, queues: map<string, seq<nat>>, order: seq<nat>, k: string)
    requires InRange(order, |ops|)
  {
    Restrict(ops, order, k) == if k in queues then queues[k] else []
  }

  lemma DrainsCons(ops: seq<KvOperation>, queues: map<string, seq<nat>>, key: string, tail: seq<nat>, k: string)
    requires key in queues && queues[key] != [] && queues[key][0] < |ops| && KeyOf(ops, queues[key][0]) == key
    requires InRange(tail, |ops|) && Drains(ops, queues[key := queues[key][1..]], tail, k)
    ensures InRange([queues[key][0]] + tail, |ops|) && Drains(ops, queues, [queues[key][0]] + tail, k)
  {
    var h, rest := queues[key][0], queues[key][1..];
    assert queues[key] == [h] + rest;
    RestrictCons(ops, h, tail, k);
  }

  lemma OrderCons(ops: seq<KvOperation>, h: nat, tail: seq<nat>, left: set<nat>)
    requires InRange(tail, |ops|) && Distinct(tail) && Respects(ops, tail) && Elems(tail) == left - {h}
    requires h < |ops| && h in left && forall a :: a in left ==> a < |ops| && !Precedes(ops, a, h)
    ensures var order := [h] + tail;
            InRange(order, |ops|) && Distinct(order) && Elems(order) == left && Respects(ops, order)
  {
    var order := [h] + tail;
    forall j | 1 <= j < |order| ensures order[j] == tail[j - 1] && order[j] != h && !Precedes(ops, order[j], h) {
      assert tail[j - 1] in Elems(tail);
    }
    assert Elems(order) == {h} + Elems(tail);
  }

  lemma QueueHead(ops: seq<KvOperation>, queues: map<string, seq<nat>>, left: set<nat>, k: string)
    requires Queues(ops, queues, left) && k in queues
    ensures queues[k] != [] ==> exists a :: a in left && a in queues[k]
  {
    if queues[k] != [] { assert queues[k][0] in left; }
  }

  /** Merging the queues, always taking the head of the queue of the earliest return. */
  lemma {:induction false} MergeQueues(ops: seq<KvOperation>, queues: map<string, seq<nat>>, left: set<nat>)
    returns (order: seq<nat>)
    requires Timely(ops) && Queues(ops, queues, left)
    ensures InRange(order, |ops|) && Distinct(order) && Elems(order) == left && Respects(ops, order)
    ensures forall k :: Drains(ops, queues, order, k)
    decreases left
  {
    if left == {} {
      order := [];
      forall k | k in queues ensures queues[k] == [] { QueueHead(ops, queues, left, k); }
    } else {
      var r := EarliestReturn(ops, left);
      var key := KeyOf(ops, r);
      HeadIsMinimal(ops, queues, left, r);
      QueuesAfter(ops, queues, left, key);
      var h := queues[key][0];
      assert QueueOk(ops, key, queues[key]) && h in queues[key];
      var tail := MergeQueues(ops, queues[key := queues[key][1..]], left - {h});
      order := [h] + tail;
      OrderCons(ops, h, tail, left);
      forall k ensures Drains(ops, queues, order, k) { DrainsCons(ops, queues, key, tail, k); }
    }
  }

  lemma RestrictCons(ops: seq<KvOperation>, h: nat, tail: seq<nat>, key: string)
    requires h < |ops| && InRange(tail, |ops|)
    ensures InRange([h] + tail, |ops|)
    ensures Restrict(ops, [h] + tail, key) == if KeyOf(ops, h) == key then [h] + Restrict(ops, tail, key)
              else Restrict(ops, tail, key)
  {
    RestrictConcat(ops, [h], tail, key);
    RestrictOne(ops, h, key);
  }

  lemma RestrictOne(ops: seq<KvOperation>, a: nat, key: string)
    requires a < |ops|
    ensures Restrict(ops, [a], key) == if KeyOf(ops, a) == key then [a] else []
  {
    assert [a][..0] == [];
  }

  ghost function Keys(ops: seq<KvOperation>): set<string> {
    set a | 0 <= a < |ops| :: ops[a].input.key
  }

  lemma KeyQueues(ops: seq<KvOperation>) returns (queues: map<string, seq<nat>>)
    requires forall k :: KeyLinearizable(ops, k)
    ensures forall k :: k in queues ==> OrderOf(KeyModel(), ops, Elems(KeyIds(ops, k)), queues[k])
    ensures Queues(ops, queues, Below(|ops|))
  {
    forall k ensures KeyHasOrder(ops, k) {
      assert KeyLinearizable(ops, k);
      KeyOrders(ops, k);
    }
    queues := map k | k in Keys(ops) :: KeyOrder(ops, k);
    forall k, a | k in queues && a in queues[k] ensures a in Below(|ops|) && KeyOf(ops, a) == k {
      assert a in Elems(queues[k]);
    }
    forall a | a in Below(|ops|) ensures KeyOf(ops, a) in queues && a in queues[KeyOf(ops, a)] {
      assert a in Elems(KeyIds(ops, KeyOf(ops, a)));
    }
    forall k | k in queues ensures QueueOk(ops, k, queues[k]) {}
  }

  lemma KeysGiveWhole(ops: seq<KvOperation>)
    requires Timely(ops) && forall k :: KeyLinearizable(ops, k)
    ensures Linearizable(StoreModel(), ops)
  {
    var queues := KeyQueues(ops);
    var order := MergeQueues(ops, queues, Below(|ops|));
    forall k ensures KeyAccepts(ops, order, k) {
      assert Drains(ops, queues, order, k);
      if k in queues { assert OrderOf(KeyModel(), ops, Elems(KeyIds(ops, k)), queues[k]); }
    }
    KeysGiveStore(ops, order);
    FullOrder(order, |ops|);
    assert Linearization(StoreModel(), ops, order);
  }

  /** Locality: a history over any keys is linearizable for the whole store exactly when the
      sub-history of every key is linearizable for that key alone. */
  lemma Locality(ops: seq<KvOperation>)
    requires Timely(ops)
    ensures Linearizable(StoreModel(), ops) <==> forall k :: KeyLinearizable(ops, k)
  {
    if Linearizable(StoreModel(), ops) {
      var order: seq<nat> :| Linearization(StoreModel(), ops, order);
      forall k ensures KeyLinearizable(ops, k) { WholeGivesKey(ops, order, k); }
    }
    if forall k :: KeyLinearizable(ops, k) {
      KeysGiveWhole(ops);
    }
  }

  // ---------- the partition ----------

  lemma SubHistoryExtends(ops: seq<KvOperation>, n: nat, key: string)
    requires n < |ops|
    ensures SubHistory(ops[..n + 1], key) ==
            SubHistory(ops[..n], key) + (if ops[n].input.key == key then [ops[n]] else [])
  {
    assert ops[..n + 1][..n] == ops[..n];
  }

  lemma SubHistoryTimely(ops: seq<KvOperation>, key: string)
    requires Timely(ops)
    ensures Timely(SubHistory(ops, key))
  {
    KeyIdsSelect(ops, key);
  }

  lemma {:induction false} AbsentKey(ops: seq<KvOperation>, key: string)
    requires forall a :: 0 <= a < |ops| ==> ops[a].input.key != key
    ensures SubHistory(ops, key) == []
  {
    if ops != [] { AbsentKey(ops[..|ops| - 1], key); }
  }

  /** Only the keys that occur matter. */
  lemma PartsDecide(ops: seq<KvOperation>, keys: seq<string>)
    requires Elems(keys) == Keys(ops)
    ensures (forall k :: KeyLinearizable(ops, k)) <==> forall i :: 0 <= i < |keys| ==> KeyLinearizable(ops, keys[i])
  {
    forall k | k !in Keys(ops) ensures KeyLinearizable(ops, k) {
      AbsentKey(ops, k);
      var none: seq<nat> := [];
      assert Linearization(KeyModel(), SubHistory(ops, k), none);
    }
    forall k | k in Keys(ops) ensures exists i :: 0 <= i < |keys| && keys[i] == k { assert k in Elems(keys); }
    if forall i :: 0 <= i < |keys| ==> KeyLinearizable(ops, keys[i]) {
      forall k ensures KeyLinearizable(ops, k) {}
    }
  }

  /** What the map of the partition holds after the first n operations. */
  ghost predicate Grouped(ops: seq<KvOperation>, m: map<string, seq<KvOperation>>, n: nat) {
    && n <= |ops|
    && (forall k :: k in m <==> k in Keys(ops[..n]))
    && (forall k :: k in m ==> m[k] == SubHistory(ops[..n], k))
  }

  lemma GroupedGrows(ops: seq<KvOperation>, m: map<string, seq<KvOperation>>, n: nat)
    requires Grouped(ops, m, n) && n < |ops|
    ensures var key := ops[n].input.key;
            Grouped(ops, m[key := (if key in m then m[key] else []) + [ops[n]]], n + 1)
  {
    var key := ops[n].input.key;
    if key !in m { AbsentKey(ops[..n], key); }
    forall k ensures SubHistory(ops[..n + 1], k) == SubHistory(ops[..n], k) + (if k == key then [ops[n]] else []) {
      SubHistoryExtends(ops, n, k);
    }
    forall k ensures k in Keys(ops[..n + 1]) <==> k in Keys(ops[..n]) || k == key {
      if k == key { assert ops[..n + 1][n] == ops[n]; }
      if a :| 0 <= a < n && ops[a].input.key == k { assert ops[..n][a] == ops[a] && ops[..n + 1][a] == ops[a]; }
    }
  }

  method SortStrings(keys: seq<string>) returns (r: seq<string>)
    requires Distinct(keys)
    ensures Distinct(r) && Elems(r) == Elems(keys)
    ensures forall i, j :: 0 <= i < j < |r| ==> StringLess(r[i], r[j])
  {
    StringsOrdered();
    r := Sort(StringLess, keys);
    SameMultisetSameElems(keys, r);
    PermutedDistinct(keys, r);
    forall i, j | 0 <= i < j < |r| ensures StringLess(r[i], r[j]) { SortedStringsIncrease(r, i, j); }
  }

  predicate Increasing(keys: seq<string>) {
    forall i, j :: 0 <= i < j < |keys| ==> StringLess(keys[i], keys[j])
  }

  ghost predicate PartsFor(ops: seq<KvOperation>, keys: seq<string>, parts: seq<seq<KvOperation>>) {
    && Elems(keys) == Keys(ops) && Increasing(keys)
    && |parts| == |keys| && forall i :: 0 <= i < |parts| ==> parts[i] == SubHistory(ops, keys[i])
  }

  /** One part per key that occurs, in increasing order of the keys, each with that key's
      operations as the history lists them. */
  ghost predicate IsPartition(ops: seq<KvOperation>, parts: seq<seq<KvOperation>>) {
    exists keys: seq<string> :: PartsFor(ops, keys, parts)
  }

  lemma IncreasingDistinct(keys: seq<string>)
    requires Increasing(keys)
    ensures Distinct(keys)
  {
    forall i, j | 0 <= i < j < |keys| ensures keys[i] != keys[j] { StringLessAsymmetric(keys[i], keys[j]); }
  }

  lemma LargestIsLast(keys: seq<string>, k: string)
    requires Increasing(keys) && k in keys
    ensures k == keys[|keys| - 1] || StringLess(k, keys[|keys| - 1])
  {
  }

  /** Strings in increasing order are determined by their set. */
  lemma {:induction false} IncreasingUnique(a: seq<string>, b: seq<string>)
    requires Increasing(a) && Increasing(b) && Elems(a) == Elems(b)
    ensures a == b
  {
    if a == [] {
      IncreasingDistinct(b);
      DistinctSize(a);
      DistinctSize(b);
    } else {
      var n, m := |a| - 1, |b| - 1;
      assert a[n] in Elems(a);
      assert b[m] in Elems(b);
      LargestIsLast(a, b[m]);
      LargestIsLast(b, a[n]);
      StringLessAsymmetric(a[n], b[m]);
      IncreasingDistinct(a);
      IncreasingDistinct(b);
      assert Elems(a[..n]) == Elems(a) - {a[n]};
      assert Elems(b[..m]) == Elems(b) - {b[m]};
      IncreasingUnique(a[..n], b[..m]);
    }
  }

  /** The partition does not depend on the order in which the map is walked. */
  lemma PartitionUnique(ops: seq<KvOperation>, a: seq<seq<KvOperation>>, b: seq<seq<KvOperation>>)
    requires IsPartition(ops, a) && IsPartition(ops, b)
    ensures a == b
  {
    var k: seq<string> :| PartsFor(ops, k, a);
    var l: seq<string> :| PartsFor(ops, l, b);
    IncreasingUnique(k, l);
  }

  method Partition(history: seq<KvOperation>) returns (ret: seq<seq<KvOperation>>)
    ensures IsPartition(history, ret)
  {
    var m: map<string, seq<KvOperation>> := map[];
    for n := 0 to |history|
      invariant Grouped(history, m, n)
    {
      var v := history[n];
      var key := v.input.key;
      GroupedGrows(history, m, n);
      m := m[key := (if key in m then m[key] else []) + [v]];
    }
    assert history[..|history|] == history;
    var keys := KeyList(m);
    keys := SortStrings(keys);
    ret := [];
    for i := 0 to |keys|
      invariant |ret| == i && forall j :: 0 <= j < i ==> ret[j] == SubHistory(history, keys[j])
    {
      assert keys[i] in Elems(keys);
      ret := ret + [m[keys[i]]];
    }
    assert PartsFor(history, keys, ret);
  }
}
