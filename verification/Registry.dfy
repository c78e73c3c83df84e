/** The active subscription requests that a reconnect replays, in insertion order. */
module Registries {
  import opened Wrappers

  datatype Entry<T> = Entry(request: Option<T>, subscription: bool)

  datatype Item<T> = Item(key: string, request: T, subscription: bool)

  // ---- the specification: an insertion-ordered association list ----

  function Put<T>(items: seq<Item<T>>, item: Item<T>): seq<Item<T>> {
    if items == [] then [item]
    else if items[0].key == item.key then [item] + items[1..]
    else [items[0]] + Put(items[1..], item)
  }

  function Drop<T>(items: seq<Item<T>>, key: string): seq<Item<T>> {
    if items == [] then []
    else if items[0].key == key then items[1..]
    else [items[0]] + Drop(items[1..], key)
  }

  function Requests<T>(items: seq<Item<T>>): seq<T> {
    if items == [] then [] else [items[0].request] + Requests(items[1..])
  }

  function Subscriptions<T>(items: seq<Item<T>>): nat {
    if items == [] then 0 else (if items[0].subscription then 1 else 0) + Subscriptions(items[1..])
  }

  // The subscriptions from position k on.
  ghost function Counted<T>(items: seq<Item<T>>, k: nat): set<nat> {
    set i: nat | k <= i < |items| && items[i].subscription
  }

  lemma {:induction false} SubscriptionsAre<T>(items: seq<Item<T>>, k: nat)
    requires k <= |items|
    ensures Subscriptions(items[k..]) == |Counted(items, k)|
    decreases |items| - k
  {
    if k == |items| {
      assert items[k..] == [] && Counted(items, k) == {};
    } else {
      SubscriptionsAre(items, k + 1);
      assert items[k..][1..] == items[k+1..];
      assert Counted(items, k) == Counted(items, k + 1) + if items[k].subscription then {k} else {};
    }
  }

  // One request for every item, in order.
  lemma {:induction false} RequestsAre<T>(items: seq<Item<T>>)
    ensures |Requests(items)| == |items| && forall i :: 0 <= i < |items| ==> Requests(items)[i] == items[i].request
  {
    if items != [] {
      RequestsAre(items[1..]);
    }
  }

  lemma ListedInOrder<T>(items: seq<Item<T>>)
    ensures |Requests(items)| == |items| && forall i :: 0 <= i < |items| ==> Requests(items)[i] == items[i].request
    ensures Subscriptions(items) == |Counted(items, 0)|
  {
    RequestsAre(items);
    SubscriptionsAre(items, 0);
    assert items[0..] == items;
  }

  ghost predicate Distinct(keys: seq<string>) {
    forall i, j :: 0 <= i < j < |keys| ==> keys[i] != keys[j]
  }

  // The list that the order and the map stand for.
  function Items<T>(order: seq<string>, requests: map<string, Entry<T>>): seq<Item<T>>
    requires forall k :: k in order ==> k in requests && requests[k].request.Some?
  {
    if order == [] then []
    else
      var e := requests[order[0]];
      [Item(order[0], e.request.value, e.subscription)] + Items(order[1..], requests)
  }

  lemma {:induction false} ItemsSame<T>(order: seq<string>, a: map<string, Entry<T>>, b: map<string, Entry<T>>)
    requires forall k :: k in order ==> k in a && k in b && a[k] == b[k] && a[k].request.Some?
    ensures Items(order, a) == Items(order, b)
  {
    if order != [] {
      ItemsSame(order[1..], a, b);
    }
  }

  lemma {:induction false} ItemsPut<T>(order: seq<string>, requests: map<string, Entry<T>>, key: string, e: Entry<T>)
    requires Distinct(order) && e.request.Some?
    requires forall k :: k in order ==> k in requests && requests[k].request.Some?
    ensures var after := if key in order then order else order + [key];
            (forall k :: k in after ==> k in requests[key := e] && requests[key := e][k].request.Some?)
            && Items(after, requests[key := e]) ==
               Put(Items(order, requests), Item(key, e.request.value, e.subscription))
  {
    var updated := requests[key := e];
    if order == [] {
      assert ([] + [key])[1..] == [];
    } else {
      if order[0] == key {
        assert forall k :: k in order[1..] ==> k != key;
        ItemsSame(order[1..], requests, updated);
      } else {
        ItemsPut(order[1..], requests, key, e);
        assert key !in order ==> (order + [key])[1..] == order[1..] + [key];
        assert key in order ==> key in order[1..];
      }
    }
  }

  lemma {:induction false} ItemsDrop<T>(order: seq<string>, requests: map<string, Entry<T>>, at: nat)
    requires at < |order| && Distinct(order)
    requires forall k :: k in order ==> k in requests && requests[k].request.Some?
    ensures var rest := order[..at] + order[at+1..];
            (forall k :: k in rest ==> k in requests - {order[at]} && k in requests && requests[k].request.Some?)
            && Items(rest, requests - {order[at]}) == Drop(Items(order, requests), order[at])
  {
    var key := order[at];
    var rest := order[..at] + order[at+1..];
    forall k | k in rest ensures k in order && k != key {}
    if at == 0 {
      assert rest == order[1..];
      ItemsSame(rest, requests, requests - {key});
    } else {
      ItemsDrop(order[1..], requests, at - 1);
      assert rest[1..] == order[1..][..at-1] + order[1..][at..];
      assert rest[0] == order[0] != key;
    }
  }

  class Registry<T> {
    var order: seq<string>
    var requests: map<string, Entry<T>>

    ghost predicate Valid()
      reads this
    {
      && Distinct(order)
      && (forall k :: k in order <==> k in requests)
      && (forall k :: k in requests ==> requests[k].request.Some? && k != "")
    }

    ghost function Contents(): seq<Item<T>>
      reads this
      requires Valid()
    {
      Items(order, requests)
    }

    constructor ()
      ensures Valid() && Contents() == []
    {
      order, requests := [], map[];
    }

    // Nothing is added under an empty key or without a request; a key that is there
    // keeps its place.
    method Insert(key: string, request: Option<T>, subscription: bool)
      requires Valid()
      modifies this
      ensures Valid()
      ensures Contents() == if key == "" || request.None? then old(Contents())
                            else Put(old(Contents()), Item(key, request.value, subscription))
    {
      if key == "" || request.None? {
        return;
      }
      ItemsPut(order, requests, key, Entry(request, subscription));
      if key !in requests {
        order := order + [key];
      }
      requests := requests[key := Entry(request, subscription)];
    }

    method Add(key: string, request: Option<T>)
      requires Valid()
      modifies this
      ensures Valid()
      ensures Contents() == Applied(old(Contents()), Op.Add(key, request, true))
    {
      Insert(key, request, true);
    }

    method AddControl(key: string, request: Option<T>)
      requires Valid()
      modifies this
      ensures Valid()
      ensures Contents() == Applied(old(Contents()), Op.Add(key, request, false))
    {
      Insert(key, request, false);
    }

    method Remove(key: string)
      requires Valid()
      modifies this
      ensures Valid()
      ensures Contents() == Applied(old(Contents()), Op.Remove(key))
    {
      if key !in requests {
        DropAbsent(order, requests, key);
        return;
      }
      for index := 0 to |order|
        invariant order == old(order) && requests == old(requests)
        invariant key !in order[..index]
      {
        if order[index] == key {
          ItemsDrop(order, requests, index);
          DistinctDrop(order, index);
          order := order[..index] + order[index+1..];
          requests := requests - {key};
          return;
        }
      }
    }

    // The replay list and its subscription count, from one state.
    method ReplaySnapshot() returns (replay: seq<T>, count: nat)
      requires Valid()
      ensures replay == Requests(Contents()) && count == Subscriptions(Contents())
      ensures |replay| == |Contents()| && forall i :: 0 <= i < |replay| ==> replay[i] == Contents()[i].request
      ensures count == |Counted(Contents(), 0)|
    {
      replay, count := [], 0;
      for i := 0 to |order|
        invariant replay + Requests(Items(order[i..], requests)) == Requests(Contents())
        invariant count + Subscriptions(Items(order[i..], requests)) == Subscriptions(Contents())
      {
        assert order[i..][0] == order[i] && order[i..][1..] == order[i+1..];
        var entry := requests[order[i]];
        if entry.request.None? {
          continue;
        }
        replay := replay + [entry.request.value];
        if entry.subscription {
          count := count + 1;
        }
      }
      assert order[|order|..] == [];
      ListedInOrder(Contents());
    }

    // The same count taken over the map, in any order.
    method SubscriptionCount() returns (count: nat)
      requires Valid()
      ensures count == Subscriptions(Contents()) == |Counted(Contents(), 0)|
    {
      ListedInOrder(Contents());
      count := 0;
      var pending := requests.Keys;
      ghost var left := order;
      while pending != {}
        invariant forall k :: k in left <==> k in pending
        invariant pending <= requests.Keys && Distinct(left)
        invariant count + Subscriptions(Items(left, requests)) == Subscriptions(Contents())
        decreases |pending|
      {
        var key :| key in pending;
        ghost var at :| 0 <= at < |left| && left[at] == key;
        SubscriptionsDrop(left, requests, at);
        DistinctDrop(left, at);
        left := left[..at] + left[at+1..];
        pending := pending - {key};
        var entry := requests[key];
        if entry.request.Some? && entry.subscription {
          count := count + 1;
        }
      }
      FirstIn(left);
    }
  }

  lemma FirstIn(order: seq<string>)
    ensures order == [] || order[0] in order
  {}

  lemma DistinctDrop(order: seq<string>, at: nat)
    requires at < |order| && Distinct(order)
    ensures var rest := order[..at] + order[at+1..];
            Distinct(rest) && forall k :: k in rest <==> k in order && k != order[at]
  {
    var rest := order[..at] + order[at+1..];
    forall k | k in order && k != order[at] ensures k in rest {
      var i :| 0 <= i < |order| && order[i] == k;
      assert if i < at then rest[i] == k else rest[i-1] == k;
    }
  }

  lemma {:induction false} SubscriptionsDrop<T>(order: seq<string>, requests: map<string, Entry<T>>, at: nat)
    requires at < |order|
    requires forall k :: k in order ==> k in requests && requests[k].request.Some?
    ensures var rest := order[..at] + order[at+1..];
            (forall k :: k in rest ==> k in order)
            && Subscriptions(Items(order, requests))
                 == Subscriptions(Items(rest, requests)) + if requests[order[at]].subscription then 1 else 0
  {
    var rest := order[..at] + order[at+1..];
    if at == 0 {
      assert rest == order[1..];
    } else {
      SubscriptionsDrop(order[1..], requests, at - 1);
      assert rest[1..] == order[1..][..at-1] + order[1..][at..];
      assert rest[0] == order[0];
    }
  }

  lemma {:induction false} DropAbsent<T>(order: seq<string>, requests: map<string, Entry<T>>, key: string)
    requires key !in order
    requires forall k :: k in order ==> k in requests && requests[k].request.Some?
    ensures Drop(Items(order, requests), key) == Items(order, requests)
  {
    if order != [] {
      DropAbsent(order[1..], requests, key);
    }
  }

  // ---- whole histories ----

  datatype Op<T> = Add(key: string, request: Option<T>, subscription: bool) | Remove(key: string)

  function Applied<T>(items: seq<Item<T>>, op: Op<T>): seq<Item<T>> {
    match op
    case Add(key, request, subscription) =>
      if key == "" || request.None? then items else Put(items, Item(key, request.value, subscription))
    case Remove(key) => Drop(items, key)
  }

  function After<T>(ops: seq<Op<T>>): seq<Item<T>> {
    if ops == [] then [] else Applied(After(ops[..|ops|-1]), ops[|ops|-1])
  }

  predicate Takes<T>(op: Op<T>, key: string) {
    op.Add? && op.key == key && key != "" && op.request.Some?
  }

  // One key's own story: the operation that put it in since it was last removed, or -1,
  // and what it was last given.
  function Since<T>(ops: seq<Op<T>>, key: string): (p: int)
    ensures -1 <= p < |ops|
  {
    if ops == [] then -1
    else
      var n := |ops| - 1;
      var before := Since(ops[..n], key);
      if ops[n].Remove? && ops[n].key == key then -1
      else if Takes(ops[n], key) && before < 0 then n
      else before
  }

  function Latest<T>(ops: seq<Op<T>>, key: string): Option<Item<T>> {
    if ops == [] then None
    else
      var n := |ops| - 1;
      if Takes(ops[n], key) then Some(Item(key, ops[n].request.value, ops[n].subscription)) else Latest(ops[..n], key)
  }

  ghost predicate Has<T>(items: seq<Item<T>>, key: string) {
    exists i :: 0 <= i < |items| && items[i].key == key
  }

  ghost predicate Places<T>(items: seq<Item<T>>, since: string -> int) {
    && (forall i :: 0 <= i < |items| ==> since(items[i].key) >= 0)
    && (forall i, j :: 0 <= i < j < |items| ==> since(items[i].key) < since(items[j].key))
  }

  ghost predicate Values<T>(items: seq<Item<T>>, latest: string -> Option<Item<T>>) {
    forall i :: 0 <= i < |items| ==> latest(items[i].key) == Some(items[i])
  }

  ghost predicate Complete<T>(items: seq<Item<T>>, since: string -> int) {
    forall key :: since(key) >= 0 ==> Has(items, key)
  }

  // The items are exactly the keys with a place, in the order of their places, each with
  // its latest request.
  ghost predicate Lists<T>(items: seq<Item<T>>, since: string -> int, latest: string -> Option<Item<T>>) {
    Places(items, since) && Values(items, latest) && Complete(items, since)
  }

  // Exactly the keys still in, oldest first, each with what it was last given.
  ghost predicate Describes<T>(items: seq<Item<T>>, ops: seq<Op<T>>) {
    Lists(items, key => Since(ops, key), key => Latest(ops, key))
  }

  lemma {:induction false} PutAt<T>(items: seq<Item<T>>, item: Item<T>) returns (at: nat)
    ensures at <= |items| && forall i :: 0 <= i < at ==> items[i].key != item.key
    ensures if at < |items| then items[at].key == item.key && Put(items, item) == items[at := item]
            else Put(items, item) == items + [item]
  {
    at := 0;
    if items != [] && items[0].key != item.key {
      var k := PutAt(items[1..], item);
      at := k + 1;
      assert items == [items[0]] + items[1..];
    }
  }

  lemma {:induction false} DropAt<T>(items: seq<Item<T>>, key: string) returns (at: nat)
    ensures at <= |items| && forall i :: 0 <= i < at ==> items[i].key != key
    ensures if at < |items| then items[at].key == key && Drop(items, key) == items[..at] + items[at+1..]
            else Drop(items, key) == items
  {
    at := 0;
    if items != [] && items[0].key != key {
      var k := DropAt(items[1..], key);
      at := k + 1;
      assert items == [items[0]] + items[1..];
    }
  }

  lemma PutPlaces<T>(items: seq<Item<T>>, item: Item<T>, since: string -> int, since': string -> int)
    requires Places(items, since) && (since(item.key) >= 0 ==> Has(items, item.key))
    requires forall key :: key != item.key ==> since'(key) == since(key)
    requires since'(item.key) >= 0 && (since(item.key) >= 0 ==> since'(item.key) == since(item.key))
    requires since(item.key) < 0 ==> forall key :: key != item.key ==> since(key) < since'(item.key)
    ensures Places(Put(items, item), since')
  {
    var at := PutAt(items, item);
    var after := Put(items, item);
    forall i | 0 <= i < |items| ensures after[i].key == items[i].key && since'(after[i].key) == since(items[i].key) {}
    assert at == |items| ==> !Has(items, item.key);
    if at == |items| {
      assert forall i :: 0 <= i < |items| ==> since(items[i].key) >= 0 && items[i].key != item.key;
      PlacesSnoc(items, item, since');
    }
  }

  lemma PlacesSnoc<T>(items: seq<Item<T>>, item: Item<T>, since: string -> int)
    requires Places(items, since) && since(item.key) >= 0
    requires forall i :: 0 <= i < |items| ==> since(items[i].key) < since(item.key)
    ensures Places(items + [item], since)
  {}

  lemma PutComplete<T>(items: seq<Item<T>>, item: Item<T>, since: string -> int, since': string -> int)
    requires Complete(items, since)
    requires forall key :: key != item.key ==> since'(key) == since(key)
    ensures Complete(Put(items, item), since')
  {
    var at := PutAt(items, item);
    var after := Put(items, item);
    forall key | since'(key) >= 0 ensures Has(after, key) {
      if key == item.key {
        assert after[at].key == key;
      } else {
        assert since(key) >= 0;
        var i :| 0 <= i < |items| && items[i].key == key;
        assert after[i].key == key;
      }
    }
  }

  lemma PutValues<T>(items: seq<Item<T>>, item: Item<T>, since: string -> int,
                     latest: string -> Option<Item<T>>, latest': string -> Option<Item<T>>)
    requires Places(items, since) && Values(items, latest) && latest'(item.key) == Some(item)
    requires forall key :: key != item.key ==> latest'(key) == latest(key)
    ensures Values(Put(items, item), latest')
  {
    var at := PutAt(items, item);
    assert forall i :: at < i < |items| ==> since(items[at].key) < since(items[i].key);
  }

  // Dropping a key drops its only item.
  lemma DropPlaces<T>(items: seq<Item<T>>, gone: string, since: string -> int, since': string -> int)
    requires Places(items, since)
    requires forall key :: key != gone ==> since'(key) == since(key)
    ensures Places(Drop(items, gone), since')
  {
    var at := DropAt(items, gone);
    if at < |items| {
      OnlyAt(items, at, since);
      PlacesWithout(items, at, since);
    }
    forall i | 0 <= i < |Drop(items, gone)|
      ensures since'(Drop(items, gone)[i].key) == since(Drop(items, gone)[i].key) {}
  }

  lemma OnlyAt<T>(items: seq<Item<T>>, at: nat, since: string -> int)
    requires Places(items, since) && at < |items|
    ensures forall i :: 0 <= i < |items| && i != at ==> items[i].key != items[at].key
  {
    forall i | 0 <= i < |items| && i != at ensures items[i].key != items[at].key {
      assert if i < at then since(items[i].key) < since(items[at].key) else since(items[at].key) < since(items[i].key);
    }
  }

  lemma PlacesWithout<T>(items: seq<Item<T>>, at: nat, since: string -> int)
    requires Places(items, since) && at < |items|
    ensures Places(items[..at] + items[at+1..], since)
  {
    var rest := items[..at] + items[at+1..];
    forall i, j | 0 <= i < j < |rest| ensures since(rest[i].key) < since(rest[j].key) {
      var i0 := if i < at then i else i + 1;
      var j0 := if j < at then j else j + 1;
      assert rest[i] == items[i0] && rest[j] == items[j0];
    }
  }

  lemma DropValues<T>(items: seq<Item<T>>, gone: string, latest: string -> Option<Item<T>>)
    requires Values(items, latest)
    ensures Values(Drop(items, gone), latest)
  {
    var at := DropAt(items, gone);
  }

  lemma DropComplete<T>(items: seq<Item<T>>, gone: string, since: string -> int, since': string -> int)
    requires Complete(items, since) && since'(gone) < 0
    requires forall key :: key != gone ==> since'(key) == since(key)
    ensures Complete(Drop(items, gone), since')
  {
    var at := DropAt(items, gone);
    var after := Drop(items, gone);
    forall key | since'(key) >= 0 ensures Has(after, key) {
      assert since(key) >= 0;
      var i :| 0 <= i < |items| && items[i].key == key;
      assert if i < at then after[i].key == key else after[i-1].key == key;
    }
  }

  // After any sequence of calls the registry holds, once each and in the order they were
  // put in, the keys added since they were last removed, with their latest requests.
  lemma {:induction false} HistoryDescribed<T>(ops: seq<Op<T>>)
    ensures Describes(After(ops), ops)
  {
    if ops != [] {
      var n := |ops| - 1;
      var before := After(ops[..n]);
      HistoryDescribed(ops[..n]);
      var since, since' := (key => Since(ops[..n], key)), (key => Since(ops, key));
      var latest, latest' := (key => Latest(ops[..n], key)), (key => Latest(ops, key));
      match ops[n] {
        case Add(key, request, subscription) =>
          if key != "" && request.Some? {
            var item := Item(key, request.value, subscription);
            PutPlaces(before, item, since, since');
            PutComplete(before, item, since, since');
            PutValues(before, item, since, latest, latest');
          } else {
            assert forall k :: since'(k) == since(k) && latest'(k) == latest(k);
            assert Lists(before, since', latest');
          }
        case Remove(key) =>
          assert forall k :: latest'(k) == latest(k);
          DropPlaces(before, key, since, since');
          DropComplete(before, key, since, since');
          DropValues(before, key, latest');
          assert Lists(After(ops), since', latest');
      }
    }
  }
}
