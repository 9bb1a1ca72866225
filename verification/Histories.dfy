/** From recorded operations or events to the entries that the checker reads. */
module Histories {
  import opened Basics
  import opened Linearizability
  import opened Search
  import opened Entries
  import opened Sorting
  import opened KvModel
  import opened Locality

  // ---------- operations ----------

  predicate EarlierEntry<I, O>(a: Entry<I, O>, b: Entry<I, O>) {
    a.time <= b.time
  }

  function CallOf<I, O>(op: Operation<I, O>, id: nat): Entry<I, O> {
    CallEntry(op.input, id, op.call, op.clientId)
  }

  function ReturnOf<I, O>(op: Operation<I, O>, id: nat): Entry<I, O> {
    ReturnEntry(op.output, id, op.ret, op.clientId)
  }

  /** Two entries per operation, not yet in time order. */
  ghost predicate Listed<I, O>(h: seq<Operation<I, O>>, es: seq<Entry<I, O>>) {
    && |es| == 2 * |h|
    && (forall x :: 0 <= x < |h| ==> es[2 * x] == CallOf(h[x], x) && es[2 * x + 1] == ReturnOf(h[x], x))
  }

  lemma OccursTwice<T>(s: seq<T>, i: nat, j: nat)
    requires i < j < |s| && s[i] == s[j]
    ensures multiset(s)[s[i]] >= 2
  {
    assert s == s[..j] + [s[j]] + s[j + 1..];
    assert s[i] in s[..j];
  }

  lemma {:induction false} OccursOnce<T>(s: seq<T>, v: T)
    requires Distinct(s)
    ensures multiset(s)[v] <= 1
  {
    if s != [] {
      OccursOnce(s[..|s| - 1], v);
      assert s == s[..|s| - 1] + [s[|s| - 1]];
      if v == s[|s| - 1] {
        assert v !in s[..|s| - 1];
      }
    }
  }

  /** A permutation of a sequence without repeats has none either. */
  lemma PermutedNoRepeats<T>(s: seq<T>, r: seq<T>)
    requires Distinct(s) && multiset(s) == multiset(r)
    ensures Distinct(r) && |r| == |s|
    ensures forall v :: v in r <==> v in s
  {
    assert |multiset(s)| == |s| && |multiset(r)| == |r|;
    forall v
      ensures v in r <==> v in s
    {
      assert v in multiset(s) <==> v in multiset(r);
    }
    forall i, j | 0 <= i < j < |r|
      ensures r[i] != r[j]
    {
      OccursOnce(s, r[i]);
      if r[i] == r[j] {
        OccursTwice(r, i, j);
      }
    }
  }

  lemma ListedAt<I, O>(h: seq<Operation<I, O>>, es: seq<Entry<I, O>>, p: nat)
    requires Listed(h, es) && p < |es|
    ensures es[p] == if p % 2 == 0 then CallOf(h[p / 2], p / 2) else ReturnOf(h[p / 2], p / 2)
  {
    assert p == 2 * (p / 2) + p % 2;
  }

  ghost predicate IsEntryOf<I, O>(h: seq<Operation<I, O>>, e: Entry<I, O>) {
    e.id < |h| && e == if e.CallEntry? then CallOf(h[e.id], e.id) else ReturnOf(h[e.id], e.id)
  }

  lemma ListedNoRepeats<I, O>(h: seq<Operation<I, O>>, es: seq<Entry<I, O>>)
    requires Listed(h, es)
    ensures Distinct(es) && |es| == 2 * |h|
    ensures forall e :: e in es <==> IsEntryOf(h, e)
  {
    forall i, j | 0 <= i < j < |es|
      ensures es[i] != es[j]
    {
      hide Listed;
      ListedAt(h, es, i);
      ListedAt(h, es, j);
    }
    forall e
      ensures e in es <==> IsEntryOf(h, e)
    {
      if e in es {
        var p :| 0 <= p < |es| && es[p] == e;
        ListedAt(h, es, p);
      }
      if IsEntryOf(h, e) {
        assert e == es[2 * e.id] || e == es[2 * e.id + 1];
      }
    }
  }

  ghost function PlaceOf<T>(s: seq<T>, v: T): (p: nat)
    requires v in s
    ensures p < |s| && s[p] == v
  {
    var p :| 0 <= p < |s| && s[p] == v;
    p
  }

  /** Sorted by time, the entries lie as the times say. */
  lemma SortedLayout<I, O>(h: seq<Operation<I, O>>, es: seq<Entry<I, O>>, r: seq<Entry<I, O>>)
    requires Listed(h, es) && multiset(r) == multiset(es) && SortedBy(EarlierEntry<I, O>, r)
    requires Overlapping(h) && NoTies(h)
    ensures WellFormed(r) && SameShape(HistoryOf(r), h)
  {
    hide Listed, Overlapping, NoTies, SortedBy, Distinct;
    ListedNoRepeats(h, es);
    PermutedNoRepeats(es, r);
    var calls := seq(|h|, x requires 0 <= x < |h| => assert CallOf(h[x], x) in es; PlaceOf(r, CallOf(h[x], x)));
    var rets := seq(|h|, x requires 0 <= x < |h| => assert ReturnOf(h[x], x) in es; PlaceOf(r, ReturnOf(h[x], x)));
    assert forall x :: 0 <= x < |h| ==> r[calls[x]] == CallOf(h[x], x) && r[rets[x]] == ReturnOf(h[x], x);
    TimeOrder(h, r, calls, rets);
    PlacesAreLayout(h, r, calls, rets);
    HistoryOfLayout(r, calls, rets);
  }

  lemma PlacesAreLayout<I, O>(h: seq<Operation<I, O>>, r: seq<Entry<I, O>>, calls: seq<nat>, rets: seq<nat>)
    requires |calls| == |rets| == |h| && |r| == 2 * |h| && Distinct(r) && forall e :: e in r ==> IsEntryOf(h, e)
    requires forall x :: 0 <= x < |h| ==> calls[x] < rets[x] < |r|
    requires forall x :: 0 <= x < |h| ==> r[calls[x]] == CallOf(h[x], x) && r[rets[x]] == ReturnOf(h[x], x)
    ensures Layout(r, calls, rets)
  {
    assert forall p :: 0 <= p < |r| ==> r[p] in r;
  }

  lemma TimeOrder<I, O>(h: seq<Operation<I, O>>, r: seq<Entry<I, O>>, calls: seq<nat>, rets: seq<nat>)
    requires |calls| == |rets| == |h| && SortedBy(EarlierEntry<I, O>, r)
    requires forall x :: 0 <= x < |h| ==>
               calls[x] < |r| && rets[x] < |r| && r[calls[x]] == CallOf(h[x], x) && r[rets[x]] == ReturnOf(h[x], x)
    requires Overlapping(h) && NoTies(h)
    ensures forall x, y :: 0 <= x < |h| && 0 <= y < |h| ==> (rets[y] < calls[x] <==> h[y].ret < h[x].call)
    ensures forall x :: 0 <= x < |h| ==> calls[x] < rets[x]
  {
    forall x, y | 0 <= x < |h| && 0 <= y < |h|
      ensures rets[y] < calls[x] <==> h[y].ret < h[x].call
    {
      assert h[x].call != h[y].ret;
      if rets[y] < calls[x] {
        assert EarlierEntry(r[rets[y]], r[calls[x]]);
      } else if calls[x] < rets[y] {
        assert EarlierEntry(r[calls[x]], r[rets[y]]);
      }
    }
  }

  /** The entry is the call or the return that the operation recorded. */
  ghost predicate Tells<I, O>(e: Entry<I, O>, op: Operation<I, O>) {
    && e.clientId == op.clientId
    && (e.CallEntry? ==> e.time == op.call && e.input == op.input)
    && (e.ReturnEntry? ==> e.time == op.ret && e.output == op.output)
  }

  lemma EntriesTell<I, O>(h: seq<Operation<I, O>>, es: seq<Entry<I, O>>, r: seq<Entry<I, O>>)
    requires Listed(h, es) && multiset(r) == multiset(es)
    ensures forall p :: 0 <= p < |r| ==> r[p].id < |h| && Tells(r[p], h[r[p].id])
  {
    hide Listed, Distinct;
    ListedNoRepeats(h, es);
    PermutedNoRepeats(es, r);
    forall p | 0 <= p < |r|
      ensures r[p].id < |h| && Tells(r[p], h[r[p].id])
    {
      assert r[p] in es;
    }
  }

  method MakeEntries<I(!new), O(!new)>(history: seq<Operation<I, O>>) returns (entries: seq<Entry<I, O>>)
    requires Overlapping(history) && NoTies(history)
    ensures WellFormed(entries)
    ensures SameShape(HistoryOf(entries), history)
    ensures forall p, q :: 0 <= p < q < |entries| ==> entries[p].time <= entries[q].time
    ensures forall p :: 0 <= p < |entries| ==> entries[p].id < |history| && Tells(entries[p], history[entries[p].id])
  {
    var listed: seq<Entry<I, O>> := [];
    for id := 0 to |history|
      invariant |listed| == 2 * id
      invariant forall x :: 0 <= x < id ==>
                  listed[2 * x] == CallOf(history[x], x) && listed[2 * x + 1] == ReturnOf(history[x], x)
    {
      listed := listed + [CallOf(history[id], id)];
      listed := listed + [ReturnOf(history[id], id)];
    }
    entries := Sort(listed, EarlierEntry);
    SortedLayout(history, listed, entries);
    EntriesTell(history, listed, entries);
  }

  // ---------- when timestamps coincide ----------

  ghost function ListedOf<I, O>(h: seq<Operation<I, O>>): (es: seq<Entry<I, O>>)
    ensures Listed(h, es)
  {
    if h == [] then []
    else ListedOf(h[..|h| - 1]) + [CallOf(h[|h| - 1], |h| - 1), ReturnOf(h[|h| - 1], |h| - 1)]
  }

  /** A possible outcome of sorting the entries of `h` by time. */
  ghost predicate SortOutcome<I, O>(h: seq<Operation<I, O>>, r: seq<Entry<I, O>>) {
    multiset(r) == multiset(ListedOf(h)) && SortedBy(EarlierEntry<I, O>, r)
  }

  /** The entries tell the same story as the operations. */
  ghost predicate Faithful<I, O>(h: seq<Operation<I, O>>, r: seq<Entry<I, O>>) {
    WellFormed(r) && SameShape(HistoryOf(r), h)
  }

  /** In faithful entries, a return is before a call exactly when its time is smaller. */
  lemma FaithfulPlaces<I, O>(h: seq<Operation<I, O>>, r: seq<Entry<I, O>>, x: nat, y: nat, p: nat, q: nat)
    requires Faithful(h, r) && x < |h| && y < |h|
    requires p < |r| && r[p].CallEntry? && r[p].id == x
    requires q < |r| && r[q].ReturnEntry? && r[q].id == y
    ensures q < p <==> h[y].ret < h[x].call
    ensures x == y ==> p < q
  {
    var calls, rets :| Layout(r, calls, rets);
    HistoryOfLayout(r, calls, rets);
    LayoutAt(r, calls, rets, x);
    LayoutAt(r, calls, rets, y);
    assert Precedes(HistoryOf(r), y, x) <==> Precedes(h, y, x);
  }

  /** Sorting is faithful whatever it does with equal times, exactly when every operation returns
      after its call and no call is at the time of a return. */
  lemma TiesMatter<I(!new), O(!new)>(h: seq<Operation<I, O>>)
    ensures (forall r :: SortOutcome(h, r) ==> Faithful(h, r)) <==> Overlapping(h) && NoTies(h)
  {
    if Overlapping(h) && NoTies(h) {
      forall r | SortOutcome(h, r)
        ensures Faithful(h, r)
      {
        SortedLayout(h, ListedOf(h), r);
      }
    } else {
      UnfaithfulOutcome(h);
    }
  }

  /** Where the call and the return of two operations are after sorting. */
  lemma OutcomePlaces<I(!new), O(!new)>(h: seq<Operation<I, O>>, r: seq<Entry<I, O>>, x: nat, y: nat)
      returns (p: nat, q: nat)
    requires SortOutcome(h, r) && x < |h| && y < |h|
    ensures p < |r| && r[p] == CallOf(h[x], x)
    ensures q < |r| && r[q] == ReturnOf(h[y], y)
    ensures p < q ==> h[x].call <= h[y].ret
  {
    hide ListedOf;
    ListedNoRepeats(h, ListedOf(h));
    PermutedNoRepeats(ListedOf(h), r);
    assert IsEntryOf(h, CallOf(h[x], x)) && IsEntryOf(h, ReturnOf(h[y], y));
    p, q := PlaceOf(r, CallOf(h[x], x)), PlaceOf(r, ReturnOf(h[y], y));
    assert p < q ==> EarlierEntry(r[p], r[q]);
  }

  lemma FaithfulMeansForward<I(!new), O(!new)>(h: seq<Operation<I, O>>, r: seq<Entry<I, O>>, x: nat)
    requires SortOutcome(h, r) && Faithful(h, r) && x < |h|
    ensures h[x].call <= h[x].ret
  {
    hide SortOutcome, Faithful;
    var p, q := OutcomePlaces(h, r, x, x);
    FaithfulPlaces(h, r, x, x, p, q);
  }

  /** If the outcome is faithful in spite of a tie, then breaking the tie the other way is not. */
  lemma TieBrokenOtherWay<I(!new), O(!new)>(h: seq<Operation<I, O>>, r: seq<Entry<I, O>>, x: nat, y: nat)
      returns (r': seq<Entry<I, O>>)
    requires SortOutcome(h, r) && Faithful(h, r)
    requires x < |h| && y < |h| && h[x].call == h[y].ret
    ensures SortOutcome(h, r') && !Faithful(h, r')
  {
    hide Faithful, ListedOf;
    var p, q := OutcomePlaces(h, r, x, y);
    FaithfulPlaces(h, r, x, y, p, q);
    r' := r[p := r[q]][q := r[p]];
    SwapSorted(r, EarlierEntry<I, O>, p, q);
    if Faithful(h, r') {
      FaithfulPlaces(h, r', x, y, q, p);
    }
  }

  lemma UnfaithfulOutcome<I(!new), O(!new)>(h: seq<Operation<I, O>>)
    requires !(Overlapping(h) && NoTies(h))
    ensures exists r :: SortOutcome(h, r) && !Faithful(h, r)
  {
    hide Faithful, ListedOf, SortedBy;
    var r := Sorted(ListedOf(h), EarlierEntry<I, O>);
    assert SortOutcome(h, r);
    if Faithful(h, r) {
      if x, y :| 0 <= x < |h| && 0 <= y < |h| && h[x].call == h[y].ret {
        var r' := TieBrokenOtherWay(h, r, x, y);
      } else {
        var x :| 0 <= x < |h| && h[x].ret < h[x].call;
        FaithfulMeansForward(h, r, x);
      }
    }
  }

  // ---------- partitions ----------

  ghost predicate StrictlySorted(keys: seq<string>) {
    forall i, j :: 0 <= i < j < |keys| ==> StringLess(keys[i], keys[j])
  }

  /** The history is split by key, in the order of the keys. */
  ghost predicate PartsByKey(history: seq<KvOperation>, keys: seq<string>, parts: seq<seq<KvOperation>>) {
    && StrictlySorted(keys)
    && (forall key :: key in keys <==> key in Keys(history))
    && |parts| == |keys|
    && (forall i :: 0 <= i < |keys| ==> parts[i] == Part(history, keys[i]))
  }

  lemma SortedKeysDistinct(keys: seq<string>)
    requires SortedBy(StringLeq, keys) && Distinct(keys)
    ensures StrictlySorted(keys)
  {
    forall i, j | 0 <= i < j < |keys|
      ensures StringLess(keys[i], keys[j])
    {
      StringTrichotomy(keys[i], keys[j]);
    }
  }

  lemma PartsOfLonger(history: seq<KvOperation>, i: nat)
    requires i < |history|
    ensures Keys(history[..i + 1]) == Keys(history[..i]) + {history[i].input.key}
    ensures forall key :: Part(history[..i + 1], key) ==
              Part(history[..i], key) + if history[i].input.key == key then [history[i]] else []
  {
    assert history[..i + 1][..i] == history[..i];
    assert history[..i + 1][i] == history[i];
    assert forall k :: 0 <= k < i ==> history[..i + 1][k] == history[..i][k];
  }

  lemma {:induction false} NoPart(history: seq<KvOperation>, key: string)
    requires key !in Keys(history)
    ensures Part(history, key) == []
  {
    if history != [] {
      var n := |history| - 1;
      assert history[..n + 1] == history;
      PartsOfLonger(history, n);
      NoPart(history[..n], key);
    }
  }

  method Buckets(history: seq<KvOperation>) returns (m: map<string, seq<KvOperation>>)
    ensures m.Keys == Keys(history)
    ensures forall key :: key in m ==> m[key] == Part(history, key)
  {
    m := map[];
    for i := 0 to |history|
      invariant m.Keys == Keys(history[..i])
      invariant forall key :: key in m ==> m[key] == Part(history[..i], key)
    {
      hide Part, Keys;
      PartsOfLonger(history, i);
      var key := history[i].input.key;
      if key !in m {
        NoPart(history[..i], key);
      }
      m := m[key := (if key in m then m[key] else []) + [history[i]]];
    }
    assert history[..|history|] == history;
  }

  /** The order in which the keys of a map come up does not matter. */
  method SortedKeys(all: set<string>) returns (sorted: seq<string>)
    ensures StrictlySorted(sorted)
    ensures forall key :: key in sorted <==> key in all
  {
    var keys: seq<string> := [];
    var unseen := all;
    while unseen != {}
      invariant unseen <= all
      invariant forall key :: key in keys ==> key in all && key !in unseen
      invariant forall key :: key in all ==> key in keys || key in unseen
      invariant Distinct(keys)
      decreases |unseen|
    {
      var key :| key in unseen;
      keys, unseen := keys + [key], unseen - {key};
    }
    StringLeqPreorder();
    sorted := Sort(keys, StringLeq);
    PermutedNoRepeats(keys, sorted);
    SortedKeysDistinct(sorted);
  }

  method Partition(history: seq<KvOperation>) returns (parts: seq<seq<KvOperation>>, ghost sortedKeys: seq<string>)
    ensures PartsByKey(history, sortedKeys, parts)
    ensures exists keys :: PartsByKey(history, keys, parts)
  {
    hide StrictlySorted, Part, Keys;
    var m := Buckets(history);
    var keys := SortedKeys(m.Keys);
    parts := [];
    for i := 0 to |keys|
      invariant |parts| == i && forall k :: 0 <= k < i ==> parts[k] == Part(history, keys[k])
    {
      assert keys[i] in keys;
      parts := parts + [m[keys[i]]];
    }
    sortedKeys := keys;
  }
}
