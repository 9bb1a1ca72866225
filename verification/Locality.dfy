/** Locality: a history is linearizable for the whole store exactly when its part for each key is
    linearizable for that key alone. This is what makes checking key by key correct. */
module Locality {
  import opened Basics
  import opened Linearizability
  import opened KvModel

  /** The operations on one key, in their order in the history. */
  function Part(h: seq<KvOperation>, key: string): seq<KvOperation> {
    if h == [] then []
    else Part(h[..|h| - 1], key) + if h[|h| - 1].input.key == key then [h[|h| - 1]] else []
  }

  /** Where those operations are in the history. */
  ghost function Places(h: seq<KvOperation>, key: string): (r: seq<nat>)
    ensures InRange(r, |h|)
  {
    if h == [] then []
    else Places(h[..|h| - 1], key) + if h[|h| - 1].input.key == key then [|h| - 1] else []
  }

  function Keys(h: seq<KvOperation>): set<string> {
    set i | 0 <= i < |h| :: h[i].input.key
  }

  /** The operations of `order` on one key. */
  ghost function Restrict(h: seq<KvOperation>, order: seq<nat>, key: string): (r: seq<nat>)
    requires InRange(order, |h|)
    ensures InRange(r, |h|)
  {
    if order == [] then []
    else
      var q, x := order[..|order| - 1], order[|order| - 1];
      Restrict(h, q, key) + if h[x].input.key == key then [x] else []
  }

  lemma RestrictExtend(h: seq<KvOperation>, q: seq<nat>, x: nat, key: string)
    requires InRange(q, |h|) && x < |h|
    ensures Restrict(h, q + [x], key) == if h[x].input.key == key then Restrict(h, q, key) + [x]
              else Restrict(h, q, key)
  {
    assert (q + [x])[..|q|] == q;
  }

  // ---------- legality splits by key ----------

  /** A step of the store is a step of the key it is about. */
  lemma StepSplits(h: seq<KvOperation>, store: Store, x: nat, key: string)
    requires x < |h|
    ensures Lookup(Next(STORE, h, store, x), key) ==
            if h[x].input.key == key then Next(KV, h, Lookup(store, key), x) else Lookup(store, key)
    ensures Allowed(STORE, h, store, x) <==> Allowed(KV, h, Lookup(store, h[x].input.key), x)
  {
  }

  lemma {:induction false} StateSplits(h: seq<KvOperation>, order: seq<nat>, key: string)
    requires InRange(order, |h|)
    ensures Lookup(StateAfter(STORE, h, order), key) == StateAfter(KV, h, Restrict(h, order, key))
  {
    if order != [] {
      var q, x := order[..|order| - 1], order[|order| - 1];
      StateSplits(h, q, key);
      assert order == q + [x];
      RestrictExtend(h, q, x, key);
      StateExtend(STORE, h, q, x);
      StateExtend(KV, h, Restrict(h, q, key), x);
      StepSplits(h, StateAfter(STORE, h, q), x, key);
    }
  }

  /** An order is legal for the store exactly when its restriction to every key is legal for the key. */
  lemma {:induction false} LegalSplits(h: seq<KvOperation>, order: seq<nat>)
    requires InRange(order, |h|)
    ensures Legal(STORE, h, order) <==> forall key :: Legal(KV, h, Restrict(h, order, key))
  {
    hide Legal, Allowed, StateAfter, Next;
    if order == [] {
      NothingIsLegal(h);
    } else {
      var q, x := order[..|order| - 1], order[|order| - 1];
      var k := h[x].input.key;
      LegalSplits(h, q);
      StateSplits(h, q, k);
      StepSplits(h, StateAfter(STORE, h, q), x, k);
      assert order == q + [x];
      LegalExtend(STORE, h, q, x);
      LegalExtend(KV, h, Restrict(h, q, k), x);
      RestrictExtend(h, q, x, k);
      forall key
        ensures Legal(KV, h, Restrict(h, order, key)) <==>
                Legal(KV, h, Restrict(h, q, key)) &&
                    (key == k ==> Allowed(KV, h, StateAfter(KV, h, Restrict(h, q, k)), x))
      {
        RestrictExtend(h, q, x, key);
      }
      if Legal(STORE, h, order) {
        assert forall key :: Legal(KV, h, Restrict(h, q, key));
      } else if Legal(STORE, h, q) {
        assert !Legal(KV, h, Restrict(h, order, k));
      } else {
        var key :| !Legal(KV, h, Restrict(h, q, key));
        assert !Legal(KV, h, Restrict(h, order, key));
      }
    }
  }

  lemma NothingIsLegal(h: seq<KvOperation>)
    ensures Legal(STORE, h, [])
    ensures forall key :: Legal(KV, h, Restrict(h, [], key))
  {
  }

  // ---------- orders of one key ----------

  /** `o` is a linearization of the operations on one key, by their ids in the whole history. */
  ghost predicate KeyOrder(h: seq<KvOperation>, key: string, o: seq<nat>) {
    && InRange(o, |h|) && Distinct(o)
    && (forall x: nat :: x in o <==> x < |h| && h[x].input.key == key)
    && RespectsRealTime(h, o)
    && Legal(KV, h, o)
  }

  lemma {:induction false} RestrictMembers(h: seq<KvOperation>, order: seq<nat>, key: string)
    requires InRange(order, |h|)
    ensures forall x :: x in Restrict(h, order, key) <==> x in order && h[x].input.key == key
  {
    if order != [] {
      var q, x := order[..|order| - 1], order[|order| - 1];
      RestrictMembers(h, q, key);
      assert order == q + [x];
    }
  }

  lemma {:induction false} RestrictKeepsOrder(h: seq<KvOperation>, order: seq<nat>, key: string)
    requires InRange(order, |h|)
    ensures Distinct(order) ==> Distinct(Restrict(h, order, key))
    ensures RespectsRealTime(h, order) ==> RespectsRealTime(h, Restrict(h, order, key))
  {
    if order != [] {
      var q, x := order[..|order| - 1], order[|order| - 1];
      RestrictKeepsOrder(h, q, key);
      RestrictMembers(h, q, key);
      var r := Restrict(h, q, key);
      if h[x].input.key == key {
        if Distinct(order) {
          assert x !in q;
          assert Distinct(r + [x]);
        }
        if RespectsRealTime(h, order) {
          forall i | 0 <= i < |r|
            ensures !Precedes(h, x, r[i])
          {
            assert r[i] in q;
            var k :| 0 <= k < |q| && q[k] == r[i];
            assert !Precedes(h, order[|order| - 1], order[k]);
          }
        }
      }
    }
  }

  /** A linearization of the whole gives one for every key. */
  lemma SplitOrder(h: seq<KvOperation>, order: seq<nat>, key: string)
    requires IsLinearization(STORE, h, order)
    ensures KeyOrder(h, key, Restrict(h, order, key))
  {
    hide Legal, StateAfter, RespectsRealTime, Distinct, Restrict;
    LegalSplits(h, order);
    RestrictKeepsOrder(h, order, key);
    RestrictMembers(h, order, key);
    IdsBelow(order, |h|);
    forall x: nat | x < |h|
      ensures x in order
    {
      assert x in Ids(order);
    }
  }

  // ---------- merging the orders of all keys ----------

  /** A merge in progress: of every key, some first operations of its order have been taken. */
  ghost predicate Merging(h: seq<KvOperation>, orders: map<string, seq<nat>>, g: seq<nat>) {
    && InRange(g, |h|) && Distinct(g)
    && PastClosed(h, g)
    && forall key :: key in orders ==> Restrict(h, g, key) <= orders[key]
  }

  ghost predicate AllKeyOrders(h: seq<KvOperation>, orders: map<string, seq<nat>>) {
    && orders.Keys == Keys(h)
    && forall key :: key in orders ==> KeyOrder(h, key, orders[key])
  }

  /** Among the operations not yet taken, one that returns first. */
  lemma FirstToReturn(h: seq<KvOperation>, left: set<nat>) returns (y: nat)
    requires left != {} && forall x :: x in left ==> x < |h|
    ensures y in left && forall z :: z in left ==> h[y].ret <= h[z].ret
    decreases left
  {
    y :| y in left;
    if left != {y} {
      var z := FirstToReturn(h, left - {y});
      if h[z].ret < h[y].ret {
        y := z;
      }
    }
  }

  lemma LeftNonempty(g: seq<nat>, n: nat)
    requires InRange(g, n) && Distinct(g) && |g| < n
    ensures Below(n) - Ids(g) != {}
  {
    DistinctCount(g);
    SubsetCount(Ids(g), Below(n));
    assert Below(n) == Ids(g) + (Below(n) - Ids(g));
  }

  /** After `taken`, the order of a key continues with an operation that no pending operation of the
      key forces to wait. */
  lemma NextOfKey(h: seq<KvOperation>, taken: seq<nat>, o: seq<nat>, y: nat) returns (x: nat)
    requires InRange(o, |h|) && Distinct(o) && RespectsRealTime(h, o)
    requires taken <= o && y in o && y !in taken && h[y].call < h[y].ret
    ensures x in o && x !in taken && taken + [x] <= o
    ensures h[y].ret >= h[x].call
  {
    var i :| 0 <= i < |o| && o[i] == y;
    assert forall j :: 0 <= j < |taken| ==> o[j] in taken;
    assert i >= |taken|;
    x := o[|taken|];
    assert o[..|taken| + 1] == taken + [x];
    if |taken| < i {
      assert !Precedes(h, o[i], o[|taken|]);
    }
  }

  /** The next operation of the key whose pending operation returns first can be taken next. */
  lemma NextToTake(h: seq<KvOperation>, orders: map<string, seq<nat>>, g: seq<nat>) returns (x: nat)
    requires forall z :: 0 <= z < |h| ==> h[z].call < h[z].ret
    requires AllKeyOrders(h, orders) && Merging(h, orders, g)
    requires |g| < |h|
    ensures x < |h| && x !in g
    ensures h[x].input.key in orders && Restrict(h, g, h[x].input.key) + [x] <= orders[h[x].input.key]
    ensures forall z :: 0 <= z < |h| && Precedes(h, z, x) ==> z in g
  {
    hide Legal, PastClosed, Restrict;
    IdsBelow(g, |h|);
    var left := Below(|h|) - Ids(g);
    LeftNonempty(g, |h|);
    var y := FirstToReturn(h, left);
    var key := h[y].input.key;
    assert key in orders;
    RestrictMembers(h, g, key);
    x := NextOfKey(h, Restrict(h, g, key), orders[key], y);
    forall z | 0 <= z < |h| && Precedes(h, z, x)
      ensures z in g
    {
      assert z in left <==> z !in g;
    }
  }

  lemma TakeKeepsMerging(h: seq<KvOperation>, orders: map<string, seq<nat>>, g: seq<nat>, x: nat)
    requires Merging(h, orders, g)
    requires x < |h| && x !in g
    requires h[x].input.key in orders && Restrict(h, g, h[x].input.key) + [x] <= orders[h[x].input.key]
    requires forall z :: 0 <= z < |h| && Precedes(h, z, x) ==> z in g
    ensures Merging(h, orders, g + [x])
  {
    hide PastClosed, Restrict, Precedes;
    PastClosedExtend(h, g, x);
    forall key | key in orders
      ensures Restrict(h, g + [x], key) <= orders[key]
    {
      assert Restrict(h, g, key) <= orders[key];
      RestrictExtend(h, g, x, key);
    }
  }

  /** The merge always goes through to the end. */
  lemma {:induction false} MergeAll(h: seq<KvOperation>, orders: map<string, seq<nat>>, g: seq<nat>)
      returns (full: seq<nat>)
    requires forall z :: 0 <= z < |h| ==> h[z].call < h[z].ret
    requires AllKeyOrders(h, orders) && Merging(h, orders, g)
    ensures Merging(h, orders, full) && |full| == |h|
    decreases |h| - |g|
  {
    hide AllKeyOrders, Merging;
    MergingBounded(h, orders, g);
    if |g| == |h| {
      full := g;
    } else {
      var x := NextToTake(h, orders, g);
      TakeKeepsMerging(h, orders, g, x);
      full := MergeAll(h, orders, g + [x]);
    }
  }

  lemma MergingBounded(h: seq<KvOperation>, orders: map<string, seq<nat>>, g: seq<nat>)
    requires Merging(h, orders, g)
    ensures |g| <= |h|
  {
    IdsBelow(g, |h|);
  }

  /** A complete merge takes every key's order to its end. */
  lemma MergedRestriction(h: seq<KvOperation>, orders: map<string, seq<nat>>, g: seq<nat>, key: string)
    requires AllKeyOrders(h, orders) && Merging(h, orders, g) && |g| == |h|
    ensures Legal(KV, h, Restrict(h, g, key))
  {
    hide Legal, PastClosed, RespectsRealTime;
    RestrictMembers(h, g, key);
    var r := Restrict(h, g, key);
    IdsBelow(g, |h|);
    if key in orders {
      var o := orders[key];
      assert Ids(o) <= Ids(r) by {
        forall x | x in o
          ensures x in r
        {
          assert x in Ids(g);
        }
      }
      RestrictKeepsOrder(h, g, key);
      DistinctCount(o);
      DistinctCount(r);
      SubsetCount(Ids(o), Ids(r));
      assert r == o;
    } else {
      assert Ids(r) == {};
      NoIds(r);
      NothingIsLegal(h);
      assert r == Restrict(h, [], key);
    }
  }

  lemma MergeOrders(h: seq<KvOperation>, orders: map<string, seq<nat>>)
    requires forall z :: 0 <= z < |h| ==> h[z].call < h[z].ret
    requires AllKeyOrders(h, orders)
    ensures Linearizable(STORE, h)
  {
    hide Legal, AllKeyOrders;
    assert Merging(h, orders, []);
    var g := MergeAll(h, orders, []);
    forall key
      ensures Legal(KV, h, Restrict(h, g, key))
    {
      MergedRestriction(h, orders, g, key);
    }
    LegalSplits(h, g);
    assert IsPartial(STORE, h, g);
    LinearizationIsCompletePartial(STORE, h, g);
  }

  // ---------- a key's part of the history ----------

  /** The two orders name the same operations, one after the other. */
  ghost predicate Corresponds<I, O>(h1: seq<Operation<I, O>>, p1: seq<nat>, h2: seq<Operation<I, O>>, p2: seq<nat>) {
    && |p1| == |p2| && InRange(p1, |h1|) && InRange(p2, |h2|)
    && forall i :: 0 <= i < |p1| ==> h1[p1[i]] == h2[p2[i]]
  }

  lemma {:induction false} CorrespondingState<S, I, O>(m: Model<S, I, O>, h1: seq<Operation<I, O>>, p1: seq<nat>,
                                                       h2: seq<Operation<I, O>>, p2: seq<nat>)
    requires Corresponds(h1, p1, h2, p2)
    ensures StateAfter(m, h1, p1) == StateAfter(m, h2, p2)
  {
    if p1 != [] {
      CorrespondingState(m, h1, p1[..|p1| - 1], h2, p2[..|p2| - 1]);
    }
  }

  lemma CorrespondingOrders<S, I, O>(m: Model<S, I, O>, h1: seq<Operation<I, O>>, p1: seq<nat>,
                                     h2: seq<Operation<I, O>>, p2: seq<nat>)
    requires Corresponds(h1, p1, h2, p2)
    ensures Legal(m, h1, p1) <==> Legal(m, h2, p2)
    ensures RespectsRealTime(h1, p1) <==> RespectsRealTime(h2, p2)
  {
    hide StateAfter;
    forall k | 0 <= k < |p1|
      ensures Allowed(m, h1, StateAfter(m, h1, p1[..k]), p1[k]) <==> Allowed(m, h2, StateAfter(m, h2, p2[..k]), p2[k])
    {
      CorrespondingState(m, h1, p1[..k], h2, p2[..k]);
    }
    forall i, j | 0 <= i < j < |p1|
      ensures Precedes(h1, p1[j], p1[i]) <==> Precedes(h2, p2[j], p2[i])
    {
    }
  }

  lemma {:induction false} PlacesFacts(h: seq<KvOperation>, key: string)
    ensures |Part(h, key)| == |Places(h, key)|
    ensures forall i :: 0 <= i < |Part(h, key)| ==> Part(h, key)[i] == h[Places(h, key)[i]]
    ensures forall x: nat :: x in Places(h, key) <==> x < |h| && h[x].input.key == key
    ensures Distinct(Places(h, key))
  {
    if h != [] {
      var g := h[..|h| - 1];
      PlacesFacts(g, key);
      assert forall x: nat :: x < |g| ==> g[x] == h[x];
      var p := Places(g, key);
      assert forall i :: 0 <= i < |p| ==> p[i] in p;
    }
  }

  ghost function Renamed(places: seq<nat>, p: seq<nat>): (r: seq<nat>)
    requires InRange(p, |places|)
    ensures |r| == |p| && forall i :: 0 <= i < |p| ==> r[i] == places[p[i]]
  {
    seq(|p|, i requires 0 <= i < |p| => places[p[i]])
  }

  lemma RenamedDistinct(places: seq<nat>, p: seq<nat>)
    requires Distinct(places) && Distinct(p) && InRange(p, |places|)
    ensures Distinct(Renamed(places, p))
  {
    var o := Renamed(places, p);
    forall i, j | 0 <= i < j < |o|
      ensures o[i] != o[j]
    {
      assert p[i] < p[j] || p[j] < p[i];
    }
  }

  lemma RenamedFacts(places: seq<nat>, p: seq<nat>)
    requires Distinct(places) && Distinct(p) && InRange(p, |places|) && |p| == |places|
    ensures Distinct(Renamed(places, p)) && Ids(Renamed(places, p)) == Ids(places)
  {
    hide Distinct, Below;
    var o := Renamed(places, p);
    RenamedDistinct(places, p);
    IdsBelow(p, |places|);
    forall x | x in places
      ensures x in o
    {
      var j :| 0 <= j < |places| && places[j] == x;
      assert j in Ids(p);
      var i :| 0 <= i < |p| && p[i] == j;
      assert o[i] == x;
    }
  }

  lemma RenamedIsKeyOrder(h: seq<KvOperation>, key: string, p: seq<nat>)
    requires IsLinearization(KV, Part(h, key), p)
    ensures InRange(p, |Places(h, key)|) && KeyOrder(h, key, Renamed(Places(h, key), p))
  {
    hide Legal, RespectsRealTime, Part, Places, Renamed, Distinct;
    PlacesFacts(h, key);
    var places := Places(h, key);
    RenamedFacts(places, p);
    CorrespondingOrders(KV, Part(h, key), p, h, Renamed(places, p));
    forall x: nat
      ensures x in Renamed(places, p) <==> x in places
    {
      assert x in Ids(Renamed(places, p)) <==> x in Ids(places);
    }
  }

  /** Ids within the part, for ids within the whole history. */
  lemma Localize(places: seq<nat>, o: seq<nat>) returns (p: seq<nat>)
    requires Distinct(places) && Distinct(o) && Ids(o) == Ids(places)
    ensures InRange(p, |places|) && |p| == |o| && Renamed(places, p) == o
    ensures Distinct(p) && |p| == |places|
  {
    p := [];
    while |p| < |o|
      invariant |p| <= |o| && InRange(p, |places|)
      invariant forall i :: 0 <= i < |p| ==> places[p[i]] == o[i]
    {
      assert o[|p|] in Ids(o);
      var j :| 0 <= j < |places| && places[j] == o[|p|];
      p := p + [j];
    }
    DistinctCount(o);
    DistinctCount(places);
  }

  lemma KeyOrderIsLinearization(h: seq<KvOperation>, key: string, o: seq<nat>)
    requires KeyOrder(h, key, o)
    ensures Linearizable(KV, Part(h, key))
  {
    hide Legal, RespectsRealTime, Part, Places, Distinct;
    PlacesFacts(h, key);
    var places := Places(h, key);
    assert Ids(o) == Ids(places);
    var p := Localize(places, o);
    CorrespondingOrders(KV, Part(h, key), p, h, o);
    assert IsLinearization(KV, Part(h, key), p);
  }

  // ---------- locality ----------

  /** The whole is linearizable exactly when every key's part is. */
  lemma Locality(h: seq<KvOperation>)
    requires forall z :: 0 <= z < |h| ==> h[z].call < h[z].ret
    ensures Linearizable(STORE, h) <==> forall key :: key in Keys(h) ==> Linearizable(KV, Part(h, key))
  {
    hide IsLinearization, KeyOrder;
    if Linearizable(STORE, h) {
      var order :| IsLinearization(STORE, h, order);
      forall key | key in Keys(h)
        ensures Linearizable(KV, Part(h, key))
      {
        WholeInRange(h, order);
        SplitOrder(h, order, key);
        KeyOrderIsLinearization(h, key, Restrict(h, order, key));
      }
    }
    if forall key :: key in Keys(h) ==> Linearizable(KV, Part(h, key)) {
      forall key | key in Keys(h)
        ensures exists o :: KeyOrder(h, key, o)
      {
        var p :| IsLinearization(KV, Part(h, key), p);
        RenamedIsKeyOrder(h, key, p);
      }
      var orders := map key | key in Keys(h) :: var o :| KeyOrder(h, key, o); o;
      MergeOrders(h, orders);
    }
  }

  lemma WholeInRange(h: seq<KvOperation>, order: seq<nat>)
    requires IsLinearization(STORE, h, order)
    ensures InRange(order, |h|)
  {
  }
}
