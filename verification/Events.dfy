/** Histories given as events: ids are renumbered and positions serve as times. */
module Events {
  import opened Basics
  import opened Linearizability
  import opened Entries

  datatype Event<I, O> =
    | CallEvent(clientId: int, input: I, id: int)
    | ReturnEvent(clientId: int, output: O, id: int)

  /** The renumbered events: the same except for the ids, which are the same where they were the
      same. The new ids are 0 to n-1, handed out in the order in which they first occur. */
  ghost predicate Renumbered<I, O>(events: seq<Event<I, O>>, r: seq<Event<I, O>>, n: nat) {
    && |r| == |events|
    && (forall i :: 0 <= i < |r| ==> r[i] == events[i].(id := r[i].id))
    && (forall i, j :: 0 <= i < |r| && 0 <= j < |r| ==> (r[i].id == r[j].id <==> events[i].id == events[j].id))
    && (forall i :: 0 <= i < |r| ==> 0 <= r[i].id < n)
    && (forall k :: 0 <= k < n ==> SeenBefore(r, |r|, k))
    && (forall i, k :: 0 <= i < |r| && 0 <= k < r[i].id ==> SeenBefore(r, i, k))
  }

  ghost predicate SeenBefore<I, O>(r: seq<Event<I, O>>, i: nat, id: int)
    requires i <= |r|
  {
    exists j :: 0 <= j < i && r[j].id == id
  }

  lemma SeenStill<I, O>(r: seq<Event<I, O>>, e: Event<I, O>, i: nat, k: int)
    requires i <= |r| && SeenBefore(r, i, k)
    ensures SeenBefore(r + [e], i, k) && SeenBefore(r + [e], |r| + 1, k)
  {
    var j :| 0 <= j < i && r[j].id == k;
    assert (r + [e])[j].id == k;
  }

  /** One more event gets the id of an earlier one, or the next free id. */
  lemma RenumberOne<I, O>(events: seq<Event<I, O>>, r: seq<Event<I, O>>, e: Event<I, O>, n: nat)
    requires |r| < |events| && Renumbered(events[..|r|], r, n)
    requires e == events[|r|].(id := e.id) && 0 <= e.id <= n
    requires forall i :: 0 <= i < |r| ==> (r[i].id == e.id <==> events[i].id == events[|r|].id)
    ensures Renumbered(events[..|r| + 1], r + [e], if e.id == n then n + 1 else n)
  {
    var r' := r + [e];
    assert forall i :: 0 <= i < |r| ==> events[..|r|][i] == events[i] == events[..|r| + 1][i];
    forall i, k | 0 <= i < |r'| && 0 <= k < r'[i].id
      ensures SeenBefore(r', i, k)
    {
      SeenStill(r, e, i, k);
    }
    assert r'[|r|].id == e.id;
    forall k | 0 <= k < if e.id == n then n + 1 else n
      ensures SeenBefore(r', |r'|, k)
    {
      if k != e.id {
        SeenStill(r, e, |r|, k);
      }
    }
  }

  method Renumber<I, O>(events: seq<Event<I, O>>) returns (r: seq<Event<I, O>>, ghost n: nat)
    ensures Renumbered(events, r, n)
    ensures exists ids: nat :: Renumbered(events, r, ids)
  {
    r := [];
    var m: map<int, int> := map[];
    var id := 0;
    for k := 0 to |events|
      invariant |r| == k && 0 <= id && Renumbered(events[..k], r, id)
      invariant forall i :: 0 <= i < k ==> events[i].id in m && m[events[i].id] == r[i].id
      invariant forall v :: v in m ==> 0 <= m[v] < id
      invariant forall v, w :: v in m && w in m && m[v] == m[w] ==> v == w
    {
      hide Renumbered;
      var v := events[k];
      RenumberOne(events, r, v.(id := if v.id in m then m[v.id] else id), id);
      if v.id in m {
        r := r + [v.(id := m[v.id])];
      } else {
        r := r + [v.(id := id)];
        m := m[v.id := id];
        id := id + 1;
      }
    }
    assert events[..|events|] == events;
    n := id;
  }

  /** Both the call, or both the return, of one operation. */
  ghost predicate SameEvent<I, O>(a: Event<I, O>, b: Event<I, O>) {
    a.id == b.id && a.CallEvent? == b.CallEvent?
  }

  /** Every id has one call and, later, one return. */
  ghost predicate Complete<I, O>(events: seq<Event<I, O>>) {
    && (forall i, j :: 0 <= i < |events| && 0 <= j < |events| && SameEvent(events[i], events[j]) ==> i == j)
    && (forall i :: 0 <= i < |events| && events[i].CallEvent? ==> HasReturn(events, i))
    && (forall j :: 0 <= j < |events| && events[j].ReturnEvent? ==> HasCall(events, j))
  }

  ghost predicate HasReturn<I, O>(events: seq<Event<I, O>>, i: nat)
    requires i < |events|
  {
    exists j :: i < j < |events| && events[j].ReturnEvent? && events[j].id == events[i].id
  }

  ghost predicate HasCall<I, O>(events: seq<Event<I, O>>, j: nat)
    requires j < |events|
  {
    exists i :: 0 <= i < j && events[i].CallEvent? && events[i].id == events[j].id
  }

  /** `h` lists the operations of the events, with positions as times. */
  ghost predicate OperationsOf<I, O>(events: seq<Event<I, O>>, h: seq<Operation<I, O>>) {
    && |events| == 2 * |h|
    && (forall x :: 0 <= x < |h| ==>
          && 0 <= h[x].call < h[x].ret < |events|
          && events[h[x].call].CallEvent? && events[h[x].call].input == h[x].input
          && events[h[x].ret].ReturnEvent? && events[h[x].ret].output == h[x].output
          && events[h[x].call].id == events[h[x].ret].id)
    && (forall x, y :: 0 <= x < y < |h| ==> events[h[x].call].id != events[h[y].call].id)
  }

  function EntryFor<I, O>(e: Event<I, O>, time: int): Entry<I, O>
    requires e.id >= 0
  {
    match e
    case CallEvent(c, input, id) => CallEntry(input, id, time, c)
    case ReturnEvent(c, output, id) => ReturnEntry(output, id, time, c)
  }

  ghost predicate Converted<I, O>(r: seq<Event<I, O>>, es: seq<Entry<I, O>>) {
    && |es| == |r|
    && forall i :: 0 <= i < |r| ==>
         && 0 <= r[i].id
         && es[i] == EntryFor(r[i], i)
  }

  /** The position serves as the time. */
  method ConvertEntries<I, O>(r: seq<Event<I, O>>) returns (es: seq<Entry<I, O>>)
    requires forall i :: 0 <= i < |r| ==> 0 <= r[i].id
    ensures Converted(r, es)
    ensures forall i :: 0 <= i < |r| ==> es[i].time == i && es[i].clientId == r[i].clientId
  {
    es := [];
    for i := 0 to |r|
      invariant Converted(r[..i], es)
    {
      assert r[..i + 1] == r[..i] + [r[i]];
      es := es + [EntryFor(r[i], i)];
    }
    assert r[..|r|] == r;
  }

  ghost predicate CallAndReturn<I, O>(es: seq<Entry<I, O>>, x: nat, p: nat, q: nat) {
    p < q < |es| && es[p].CallEntry? && es[p].id == x && es[q].ReturnEntry? && es[q].id == x
  }

  lemma CallAndReturnAt<I, O>(events: seq<Event<I, O>>, r: seq<Event<I, O>>, n: nat, es: seq<Entry<I, O>>, x: nat)
      returns (p: nat, q: nat)
    requires Complete(events) && Renumbered(events, r, n) && Converted(r, es) && x < n
    ensures CallAndReturn(es, x, p, q)
  {
    assert SeenBefore(r, |r|, x);
    var k :| 0 <= k < |r| && r[k].id == x;
    if events[k].CallEvent? {
      assert HasReturn(events, k);
      p := k;
      q :| p < q < |events| && events[q].ReturnEvent? && events[q].id == events[p].id;
    } else {
      assert HasCall(events, k);
      q := k;
      p :| 0 <= p < q && events[p].CallEvent? && events[p].id == events[q].id;
    }
  }

  lemma EventsLayout<I, O>(events: seq<Event<I, O>>, r: seq<Event<I, O>>, n: nat, es: seq<Entry<I, O>>)
    requires Complete(events) && Renumbered(events, r, n) && Converted(r, es)
    ensures WellFormed(es) && OperationsOf(events, HistoryOf(es))
  {
    hide Complete, Renumbered, Converted;
    var calls, rets: seq<nat> := [], [];
    while |calls| < n
      invariant |calls| == |rets| <= n
      invariant forall x :: 0 <= x < |calls| ==> CallAndReturn(es, x, calls[x], rets[x])
    {
      var p, q := CallAndReturnAt(events, r, n, es, |calls|);
      calls, rets := calls + [p], rets + [q];
    }
    OneOfEach(events, r, n, es);
    EntriesCount(es, calls, rets);
    assert Layout(es, calls, rets);
    HistoryOfLayout(es, calls, rets);
    SameOperations(events, r, n, es, calls, rets);
  }

  ghost predicate OnePerKind<I, O>(es: seq<Entry<I, O>>) {
    forall i, j :: 0 <= i < |es| && 0 <= j < |es| && es[i].id == es[j].id && es[i].CallEntry? == es[j].CallEntry? ==>
        i == j
  }

  lemma OneOfEach<I, O>(events: seq<Event<I, O>>, r: seq<Event<I, O>>, n: nat, es: seq<Entry<I, O>>)
    requires Complete(events) && Renumbered(events, r, n) && Converted(r, es)
    ensures OnePerKind(es)
    ensures forall p :: 0 <= p < |es| ==> es[p].id < n
  {
  }

  /** With one call and one return for each of the ids 0 to n-1 there are 2n entries. */
  lemma EntriesCount<I, O>(es: seq<Entry<I, O>>, calls: seq<nat>, rets: seq<nat>)
    requires OnePerKind(es) && |calls| == |rets|
    requires forall p :: 0 <= p < |es| ==> es[p].id < |calls|
    requires forall x :: 0 <= x < |calls| ==> CallAndReturn(es, x, calls[x], rets[x])
    ensures |es| == 2 * |calls|
    ensures forall p :: 0 <= p < |es| ==> p == if es[p].CallEntry? then calls[es[p].id] else rets[es[p].id]
  {
    hide OnePerKind;
    forall p | 0 <= p < |es|
      ensures p == if es[p].CallEntry? then calls[es[p].id] else rets[es[p].id]
    {
      assert CallAndReturn(es, es[p].id, calls[es[p].id], rets[es[p].id]);
      SamePlace(es, p, if es[p].CallEntry? then calls[es[p].id] else rets[es[p].id]);
    }
    forall x | 0 <= x < |calls|
      ensures calls[x] < |es| && es[calls[x]].id == x && es[calls[x]].CallEntry?
      ensures rets[x] < |es| && es[rets[x]].id == x && es[rets[x]].ReturnEntry?
    {
      assert CallAndReturn(es, x, calls[x], rets[x]);
    }
    CountPlaces(es, calls, rets);
  }

  lemma SamePlace<I, O>(es: seq<Entry<I, O>>, i: nat, j: nat)
    requires OnePerKind(es) && i < |es| && j < |es| && es[i].id == es[j].id && es[i].CallEntry? == es[j].CallEntry?
    ensures i == j
  {
  }

  lemma CountPlaces<I, O>(es: seq<Entry<I, O>>, calls: seq<nat>, rets: seq<nat>)
    requires |calls| == |rets|
    requires forall x :: 0 <= x < |calls| ==> calls[x] < |es| && es[calls[x]].id == x && es[calls[x]].CallEntry?
    requires forall x :: 0 <= x < |rets| ==> rets[x] < |es| && es[rets[x]].id == x && es[rets[x]].ReturnEntry?
    requires forall p :: 0 <= p < |es| ==>
               es[p].id < |calls| && p == if es[p].CallEntry? then calls[es[p].id] else rets[es[p].id]
    ensures |es| == 2 * |calls|
  {
    assert Distinct(calls) && Distinct(rets);
    DistinctCount(calls);
    DistinctCount(rets);
    assert Ids(calls) !! Ids(rets);
    forall p: nat
      ensures p in Ids(calls) + Ids(rets) <==> p in Below(|es|)
    {
      if p < |es| {
        assert p == if es[p].CallEntry? then calls[es[p].id] else rets[es[p].id];
      }
    }
    assert Ids(calls) + Ids(rets) == Below(|es|);
  }

  lemma SameOperations<I, O>(events: seq<Event<I, O>>, r: seq<Event<I, O>>, n: nat, es: seq<Entry<I, O>>,
                             calls: seq<nat>, rets: seq<nat>)
    requires Renumbered(events, r, n) && Converted(r, es) && Layout(es, calls, rets)
    ensures OperationsOf(events, Operations(es, calls, rets))
  {
    var h := Operations(es, calls, rets);
    forall x | 0 <= x < |h|
      ensures es[calls[x]].id == x && r[calls[x]].id == x && r[rets[x]].id == x
    {
      LayoutAt(es, calls, rets, x);
    }
  }
}
