/** Replaying the partial linearizations of a partition for display. */
module Visualization {
  import opened Linearizability
  import opened Entries
  import opened Sorting
  import opened Parallel

  /** One step of a replay: the operation and the state after it. */
  datatype ReplayStep<!S> = ReplayStep(index: nat, state: S)

  /** The values that the replay looks up, by operation. */
  ghost predicate ValuesOf<I, O>(es: seq<Entry<I, O>>, callValue: map<nat, I>, returnValue: map<nat, O>)
    requires WellFormed(es)
  {
    forall x :: 0 <= x < |HistoryOf(es)| ==>
      && x in callValue && callValue[x] == HistoryOf(es)[x].input
      && x in returnValue && returnValue[x] == HistoryOf(es)[x].output
  }

  /** One bar of the display. */
  datatype HistoryElement = HistoryElement(clientId: int, start: int, end: int, description: string)

  /** Every operation is shown with the client and the time of its call, the time of its return, and
      what it was called with and returned. */
  ghost predicate Displays<I, O>(describe: (I, O) -> string, es: seq<Entry<I, O>>, history: seq<HistoryElement>)
    requires WellFormed(es)
  {
    && |history| == |HistoryOf(es)|
    && (forall i :: 0 <= i < |es| ==> es[i].id < |history|)
    && (forall i :: 0 <= i < |es| && es[i].CallEntry? ==>
          history[es[i].id].clientId == es[i].clientId && history[es[i].id].start == es[i].time)
    && (forall i :: 0 <= i < |es| && es[i].ReturnEntry? ==>
          && history[es[i].id].end == es[i].time
          && history[es[i].id].description == describe(HistoryOf(es)[es[i].id].input, es[i].output))
  }

  method CollectValues<I, O>(describe: (I, O) -> string, es: seq<Entry<I, O>>)
      returns (history: seq<HistoryElement>, callValue: map<nat, I>, returnValue: map<nat, O>)
    requires WellFormed(es)
    ensures ValuesOf(es, callValue, returnValue)
    ensures Displays(describe, es, history)
  {
    history := seq(|es| / 2, _ => HistoryElement(0, 0, 0, ""));
    callValue, returnValue := map[], map[];
    ghost var calls, rets :| Layout(es, calls, rets);
    assert |es| == 2 * |calls|;
    hide Layout, CallShown, ReturnShown, Displays, ValuesOf;
    for i := 0 to |es|
      invariant |history| == |calls| == |rets|
      invariant forall x :: 0 <= x < |calls| && calls[x] < i ==> CallShown(es, calls[x], history, callValue)
      invariant forall x :: 0 <= x < |rets| && rets[x] < i ==>
                  ReturnShown(describe, es, calls[x], rets[x], history, returnValue)
    {
      EntryAt(es, calls, rets, i);
      var e := es[i];
      assert e.ReturnEntry? ==> CallShown(es, calls[e.id], history, callValue);
      ghost var history0, callValue0, returnValue0 := history, callValue, returnValue;
      match e
      case CallEntry(input, id, time, clientId) =>
        history := history[id := history[id].(clientId := clientId, start := time)];
        callValue := callValue[id := input];
        ShownAfterCall(describe, es, calls, rets, i, history0, callValue0, returnValue0, history, callValue);
      case ReturnEntry(output, id, time, _) =>
        CallValue(es, calls[id], history, callValue);
        history := history[id := history[id].(end := time, description := describe(callValue[id], output))];
        returnValue := returnValue[id := output];
        ShownAfterReturn(describe, es, calls, rets, i, history0, callValue0, returnValue0, history, returnValue);
    }
    AllShown(describe, es, calls, rets, history, callValue, returnValue);
  }

  /** The call at position `p` has been noted. */
  ghost predicate CallShown<I, O>(es: seq<Entry<I, O>>, p: nat, history: seq<HistoryElement>, callValue: map<nat, I>) {
    && p < |es| && es[p].CallEntry? && es[p].id < |history|
    && es[p].id in callValue && callValue[es[p].id] == es[p].input
    && history[es[p].id].clientId == es[p].clientId && history[es[p].id].start == es[p].time
  }

  /** The return at position `q`, of the call at `p`, has been noted. */
  ghost predicate ReturnShown<I, O>(describe: (I, O) -> string, es: seq<Entry<I, O>>, p: nat, q: nat,
                                    history: seq<HistoryElement>, returnValue: map<nat, O>)
  {
    && p < |es| && q < |es| && es[p].CallEntry? && es[q].ReturnEntry? && es[q].id < |history|
    && es[q].id in returnValue && returnValue[es[q].id] == es[q].output
    && history[es[q].id].end == es[q].time && history[es[q].id].description == describe(es[p].input, es[q].output)
  }

  lemma CallValue<I, O>(es: seq<Entry<I, O>>, p: nat, history: seq<HistoryElement>, callValue: map<nat, I>)
    requires CallShown(es, p, history, callValue)
    ensures p < |es| && es[p].CallEntry? && es[p].id in callValue && callValue[es[p].id] == es[p].input
  {
  }

  lemma EntryAt<I, O>(es: seq<Entry<I, O>>, calls: seq<nat>, rets: seq<nat>, i: nat)
    requires Layout(es, calls, rets) && i < |es|
    ensures |calls| == |rets| && es[i].id < |calls|
    ensures es[i].CallEntry? ==> calls[es[i].id] == i
    ensures es[i].ReturnEntry? ==> rets[es[i].id] == i && calls[es[i].id] < i && es[calls[es[i].id]].id == es[i].id
  {
  }

  lemma ShownAfterCall<I, O>(describe: (I, O) -> string, es: seq<Entry<I, O>>, calls: seq<nat>, rets: seq<nat>, i: nat,
                             history: seq<HistoryElement>, callValue: map<nat, I>, returnValue: map<nat, O>,
                             history': seq<HistoryElement>, callValue': map<nat, I>)
    requires Layout(es, calls, rets) && i < |es| && es[i].CallEntry? && |history| == |calls|
    requires forall x :: 0 <= x < |calls| && calls[x] < i ==> CallShown(es, calls[x], history, callValue)
    requires forall x :: 0 <= x < |rets| && rets[x] < i ==>
               ReturnShown(describe, es, calls[x], rets[x], history, returnValue)
    requires history' == history[es[i].id := history[es[i].id].(clientId := es[i].clientId, start := es[i].time)]
    requires callValue' == callValue[es[i].id := es[i].input]
    ensures forall x :: 0 <= x < |calls| && calls[x] < i + 1 ==> CallShown(es, calls[x], history', callValue')
    ensures forall x :: 0 <= x < |rets| && rets[x] < i + 1 ==>
              ReturnShown(describe, es, calls[x], rets[x], history', returnValue)
  {
    forall x | 0 <= x < |rets| && rets[x] < i + 1
      ensures ReturnShown(describe, es, calls[x], rets[x], history', returnValue)
    {
      assert rets[x] < i;
      assert ReturnShown(describe, es, calls[x], rets[x], history, returnValue);
    }
    forall x | 0 <= x < |calls| && calls[x] < i + 1
      ensures CallShown(es, calls[x], history', callValue')
    {
      if x != es[i].id {
        assert CallShown(es, calls[x], history, callValue);
      }
    }
  }

  lemma ShownAfterReturn<I, O>(describe: (I, O) -> string, es: seq<Entry<I, O>>, calls: seq<nat>, rets: seq<nat>,
                               i: nat, history: seq<HistoryElement>, callValue: map<nat, I>, returnValue: map<nat, O>,
                               history': seq<HistoryElement>, returnValue': map<nat, O>)
    requires Layout(es, calls, rets) && i < |es| && es[i].ReturnEntry? && |history| == |calls|
    requires forall x :: 0 <= x < |calls| && calls[x] < i ==> CallShown(es, calls[x], history, callValue)
    requires forall x :: 0 <= x < |rets| && rets[x] < i ==>
               ReturnShown(describe, es, calls[x], rets[x], history, returnValue)
    requires es[calls[es[i].id]].CallEntry?
    requires
      var description := describe(es[calls[es[i].id]].input, es[i].output);
      history' == history[es[i].id := history[es[i].id].(end := es[i].time, description := description)]
    requires returnValue' == returnValue[es[i].id := es[i].output]
    ensures forall x :: 0 <= x < |calls| && calls[x] < i + 1 ==> CallShown(es, calls[x], history', callValue)
    ensures forall x :: 0 <= x < |rets| && rets[x] < i + 1 ==>
              ReturnShown(describe, es, calls[x], rets[x], history', returnValue')
  {
    forall x | 0 <= x < |calls| && calls[x] < i + 1
      ensures CallShown(es, calls[x], history', callValue)
    {
      assert calls[x] < i;
      assert CallShown(es, calls[x], history, callValue);
    }
    forall x | 0 <= x < |rets| && rets[x] < i + 1
      ensures ReturnShown(describe, es, calls[x], rets[x], history', returnValue')
    {
      if x != es[i].id {
        assert ReturnShown(describe, es, calls[x], rets[x], history, returnValue);
      }
    }
  }

  lemma AllShown<I, O>(describe: (I, O) -> string, es: seq<Entry<I, O>>, calls: seq<nat>, rets: seq<nat>,
                       history: seq<HistoryElement>, callValue: map<nat, I>, returnValue: map<nat, O>)
    requires Layout(es, calls, rets) && WellFormed(es) && |history| == |calls|
    requires forall x :: 0 <= x < |calls| && calls[x] < |es| ==> CallShown(es, calls[x], history, callValue)
    requires forall x :: 0 <= x < |rets| && rets[x] < |es| ==>
               ReturnShown(describe, es, calls[x], rets[x], history, returnValue)
    ensures ValuesOf(es, callValue, returnValue) && Displays(describe, es, history)
  {
    hide CallShown, ReturnShown, Layout, WellFormed;
    AllDisplayed(describe, es, calls, rets, history, callValue, returnValue);
    assert ValuesOf(es, callValue, returnValue) by {
      HistoryOfLayout(es, calls, rets);
      forall x | 0 <= x < |calls|
        ensures x in callValue && callValue[x] == HistoryOf(es)[x].input && x in returnValue &&
                  returnValue[x] == HistoryOf(es)[x].output
      {
        LayoutAt(es, calls, rets, x);
        CallValue(es, calls[x], history, callValue);
        ReturnValue(describe, es, calls[x], rets[x], history, returnValue);
      }
    }
  }

  lemma ReturnValue<I, O>(describe: (I, O) -> string, es: seq<Entry<I, O>>, p: nat, q: nat,
                          history: seq<HistoryElement>, returnValue: map<nat, O>)
    requires ReturnShown(describe, es, p, q, history, returnValue)
    ensures q < |es| && es[q].ReturnEntry? && es[q].id in returnValue && returnValue[es[q].id] == es[q].output
  {
  }

  lemma AllDisplayed<I, O>(describe: (I, O) -> string, es: seq<Entry<I, O>>, calls: seq<nat>, rets: seq<nat>,
                           history: seq<HistoryElement>, callValue: map<nat, I>, returnValue: map<nat, O>)
    requires Layout(es, calls, rets) && WellFormed(es) && |history| == |calls|
    requires forall x :: 0 <= x < |calls| && calls[x] < |es| ==> CallShown(es, calls[x], history, callValue)
    requires forall x :: 0 <= x < |rets| && rets[x] < |es| ==>
               ReturnShown(describe, es, calls[x], rets[x], history, returnValue)
    ensures Displays(describe, es, history)
  {
    HistoryOfLayout(es, calls, rets);
    hide Layout, WellFormed;
    forall i | 0 <= i < |es|
      ensures es[i].id < |history|
      ensures es[i].CallEntry? ==> CallShown(es, i, history, callValue)
      ensures es[i].ReturnEntry? ==> ReturnShown(describe, es, calls[es[i].id], i, history, returnValue)
    {
      EntryAt(es, calls, rets, i);
    }
    assert forall i :: 0 <= i < |es| && es[i].ReturnEntry? ==>
             HistoryOf(es)[es[i].id].input == es[calls[es[i].id]].input by {
      forall i | 0 <= i < |es| && es[i].ReturnEntry?
        ensures HistoryOf(es)[es[i].id].input == es[calls[es[i].id]].input
      {
        EntryAt(es, calls, rets, i);
        LayoutAt(es, calls, rets, es[i].id);
      }
    }
  }

  predicate LongerFirst(a: seq<nat>, b: seq<nat>) {
    |a| >= |b|
  }

  /** The replay of one partial linearization shows the states that its operations lead to. */
  ghost predicate Shows<S, I, O>(m: Model<S, I, O>, h: seq<Operation<I, O>>, partial: seq<nat>,
                                 steps: seq<ReplayStep<S>>) {
    && InRange(partial, |h|)
    && |steps| == |partial|
    && forall k :: 0 <= k < |partial| ==>
         steps[k].index == partial[k] && steps[k].state == StateAfter(m, h, partial[..k + 1])
  }

  /** `largest` leads from every operation that occurs to a longest of the given lists with it. */
  ghost predicate LeadsToLongest(partials: seq<seq<nat>>, largest: map<nat, nat>) {
    && (forall x :: x in largest ==>
          && largest[x] < |partials| && x in partials[largest[x]]
          && forall k :: 0 <= k < |partials| && x in partials[k] ==> |partials[k]| <= |partials[largest[x]]|)
    && (forall k, x :: 0 <= k < |partials| && x in partials[k] ==> x in largest)
  }

  /** Replays one partial linearization; `panicked` says whether the model refused a step. */
  method Replay<S, I, O>(model: Model<S, I, O>, callValue: map<nat, I>, returnValue: map<nat, O>, partial: seq<nat>,
                         ghost es: seq<Entry<I, O>>)
      returns (steps: seq<ReplayStep<S>>, panicked: bool)
    requires WellFormed(es) && ValuesOf(es, callValue, returnValue)
    requires InRange(partial, |HistoryOf(es)|)
    ensures panicked <==> !Legal(model, HistoryOf(es), partial)
    ensures !panicked ==> Shows(model, HistoryOf(es), partial, steps)
  {
    ghost var h := HistoryOf(es);
    steps, panicked := [], false;
    var state := model.init;
    assert partial[..0] == [] && StateAfter(model, h, []) == model.init;
    hide WellFormed, HistoryOf, Legal, StateAfter;
    assert Legal(model, h, partial[..0]) by { NothingIsLegal(model, h); }
    for j := 0 to |partial|
      invariant state == StateAfter(model, h, partial[..j])
      invariant Legal(model, h, partial[..j]) && Shows(model, h, partial[..j], steps)
    {
      var x := partial[j];
      assert partial[..j + 1] == partial[..j] + [x];
      LegalExtend(model, h, partial[..j], x);
      StateExtend(model, h, partial[..j], x);
      var (ok, next) := model.step(state, callValue[x], returnValue[x]);
      if !ok {
        LegalPrefix(model, h, partial, j + 1);
        return steps, true;
      }
      ShowsNext(model, h, partial[..j], x, steps, ReplayStep(x, next));
      state := next;
      steps := steps + [ReplayStep(x, state)];
    }
    assert partial[..|partial|] == partial;
  }

  lemma NothingIsLegal<S, I, O>(m: Model<S, I, O>, h: seq<Operation<I, O>>)
    ensures Legal(m, h, [])
  {
  }

  /** What starts with an illegal list is illegal. */
  lemma LegalPrefix<S, I, O>(m: Model<S, I, O>, h: seq<Operation<I, O>>, order: seq<nat>, n: nat)
    requires InRange(order, |h|) && n <= |order|
    ensures Legal(m, h, order) ==> Legal(m, h, order[..n])
  {
    hide StateAfter, Allowed;
    if Legal(m, h, order) {
      forall k | 0 <= k < n
        ensures Allowed(m, h, StateAfter(m, h, order[..n][..k]), order[..n][k])
      {
        assert order[..n][..k] == order[..k];
        assert Allowed(m, h, StateAfter(m, h, order[..k]), order[k]);
      }
    }
  }

  lemma ShowsNext<S, I, O>(m: Model<S, I, O>, h: seq<Operation<I, O>>, q: seq<nat>, x: nat, steps: seq<ReplayStep<S>>,
                           s: ReplayStep<S>)
    requires Shows(m, h, q, steps) && x < |h| && s.index == x && s.state == StateAfter(m, h, q + [x])
    ensures Shows(m, h, q + [x], steps + [s])
  {
    hide StateAfter;
    var o := q + [x];
    forall k | 0 <= k < |o|
      ensures (steps + [s])[k].index == o[k] && (steps + [s])[k].state == StateAfter(m, h, o[..k + 1])
    {
      if k < |q| {
        assert o[..k + 1] == q[..k + 1];
      } else {
        assert o[..k + 1] == o;
      }
    }
  }

  /** The display of a partition. The partial linearizations come from the checker, so the replay
      never panics, whenever the checks were killed. */
  method ComputePartitionData<S, I, O>(model: Model<S, I, O>, describe: (I, O) -> string, es: seq<Entry<I, O>>,
                                       given: seq<seq<nat>>)
      returns (history: seq<HistoryElement>, partials: seq<seq<nat>>, linearizations: seq<seq<ReplayStep<S>>>,
               largest: map<nat, nat>, panicked: bool)
    requires WellFormed(es) && SoundPartials(model, HistoryOf(es), given)
    ensures !panicked
    ensures Displays(describe, es, history)
    ensures multiset(partials) == multiset(given)
    ensures |linearizations| == |partials|
    ensures forall k :: 0 <= k < |partials| ==> Shows(model, HistoryOf(es), partials[k], linearizations[k])
    ensures LeadsToLongest(partials, largest)
  {
    hide WellFormed, Shows, ValuesOf, Displays, HistoryOf, SoundPartials, LargestSoFar, LeadsToLongest, SortedBy;
    hide IsPartial;
    ghost var h := HistoryOf(es);
    var callValue, returnValue;
    history, callValue, returnValue := CollectValues(describe, es);
    partials := Sort(given, LongerFirst);
    SortedSound(model, h, given, partials);
    largest := map[];
    var largestSize: map<nat, nat> := map[];
    linearizations := [];
    panicked := false;
    NothingSoFar(partials);
    for i := 0 to |partials|
      invariant |linearizations| == i && !panicked
      invariant forall k :: 0 <= k < i ==> Shows(model, h, partials[k], linearizations[k])
      invariant LargestSoFar(partials, i, largest, largestSize)
    {
      SoundAt(model, h, partials, i);
      var steps, bad := Replay(model, callValue, returnValue, partials[i], es);
      if bad {
        panicked := true;
        return;
      }
      linearizations := linearizations + [steps];
      largest, largestSize := NoteLargest(partials, i, largest, largestSize);
    }
    LongestNoted(partials, largest, largestSize);
  }

  lemma NothingSoFar(partials: seq<seq<nat>>)
    ensures LargestSoFar(partials, 0, map[], map[])
  {
  }

  lemma SoundAt<S, I, O>(m: Model<S, I, O>, h: seq<Operation<I, O>>, partials: seq<seq<nat>>, i: nat)
    requires SoundPartials(m, h, partials) && i < |partials|
    ensures InRange(partials[i], |h|) && Legal(m, h, partials[i])
  {
    assert IsPartial(m, h, partials[i]);
  }

  /** The first list with an operation is a longest one, because the lists are sorted by length. */
  lemma LongestNoted(partials: seq<seq<nat>>, largest: map<nat, nat>, largestSize: map<nat, nat>)
    requires SortedBy(LongerFirst, partials) && LargestSoFar(partials, |partials|, largest, largestSize)
    ensures LeadsToLongest(partials, largest)
  {
    forall x, k | x in largest && 0 <= k < |partials| && x in partials[k]
      ensures |partials[k]| <= |partials[largest[x]]|
    {
      assert k == largest[x] || LongerFirst(partials[largest[x]], partials[k]);
    }
  }

  lemma SortedSound<S, I, O>(m: Model<S, I, O>, h: seq<Operation<I, O>>, given: seq<seq<nat>>, partials: seq<seq<nat>>)
    requires SoundPartials(m, h, given) && multiset(given) == multiset(partials)
    ensures SoundPartials(m, h, partials)
  {
    hide IsPartial;
    forall k | 0 <= k < |partials|
      ensures IsPartial(m, h, partials[k])
    {
      assert partials[k] in multiset(given);
      var j :| 0 <= j < |given| && given[j] == partials[k];
    }
  }

  /** After the first `i` lists, from longest to shortest. */
  ghost predicate LargestSoFar(partials: seq<seq<nat>>, i: nat, largest: map<nat, nat>, largestSize: map<nat, nat>)
    requires i <= |partials|
  {
    && largest.Keys == largestSize.Keys
    && (forall x :: x in largest ==>
          && largest[x] < i && x in partials[largest[x]] && largestSize[x] == |partials[largest[x]]|
          && forall k :: 0 <= k < largest[x] ==> x !in partials[k])
    && (forall k, x :: 0 <= k < i && x in partials[k] ==> x in largest)
  }

  method NoteLargest(partials: seq<seq<nat>>, i: nat, largest0: map<nat, nat>, largestSize0: map<nat, nat>)
      returns (largest: map<nat, nat>, largestSize: map<nat, nat>)
    requires i < |partials| && SortedBy(LongerFirst, partials)
    requires LargestSoFar(partials, i, largest0, largestSize0)
    ensures LargestSoFar(partials, i + 1, largest, largestSize)
  {
    largest, largestSize := largest0, largestSize0;
    var partial := partials[i];
    NoLonger(partials, i, largest0, largestSize0);
    assert Noted(partials, i, 0, largest0, largestSize0, largest, largestSize);
    hide LargestSoFar, SortedBy, Noted;
    for j := 0 to |partial|
      invariant largest.Keys == largestSize.Keys
      invariant Noted(partials, i, j, largest0, largestSize0, largest, largestSize)
    {
      NotedNext(partials, i, j, largest0, largestSize0, largest, largestSize);
      var id := partial[j];
      if (if id in largestSize then largestSize[id] else 0) < |partial| {
        largestSize := largestSize[id := |partial|];
        largest := largest[id := i];
      }
    }
    AllNoted(partials, i, largest0, largestSize0, largest, largestSize);
  }

  /** Of list `i`, the first `j` operations have been noted, if they are in no earlier list. */
  ghost predicate Noted(partials: seq<seq<nat>>, i: nat, j: nat, largest0: map<nat, nat>, largestSize0: map<nat, nat>,
                        largest: map<nat, nat>, largestSize: map<nat, nat>)
    requires i < |partials| && j <= |partials[i]|
  {
    && largest.Keys == largestSize.Keys && largest0.Keys == largestSize0.Keys
    && (forall x :: x in largest <==> x in largest0 || x in partials[i][..j])
    && (forall x :: x in largest0 ==> largest[x] == largest0[x] && largestSize[x] == largestSize0[x])
    && (forall x :: x in largest && x !in largest0 ==> largest[x] == i && largestSize[x] == |partials[i]|)
  }

  lemma NotedNext(partials: seq<seq<nat>>, i: nat, j: nat, largest0: map<nat, nat>, largestSize0: map<nat, nat>,
                  largest: map<nat, nat>, largestSize: map<nat, nat>)
    requires i < |partials| && j < |partials[i]|
    requires Noted(partials, i, j, largest0, largestSize0, largest, largestSize)
    requires forall x :: x in largestSize0 ==> largestSize0[x] >= |partials[i]|
    ensures
      var id := partials[i][j];
      if (if id in largestSize then largestSize[id] else 0) < |partials[i]| then
        Noted(partials, i, j + 1, largest0, largestSize0, largest[id := i], largestSize[id := |partials[i]|])
      else Noted(partials, i, j + 1, largest0, largestSize0, largest, largestSize)
  {
    assert partials[i][..j + 1] == partials[i][..j] + [partials[i][j]];
  }

  lemma NoLonger(partials: seq<seq<nat>>, i: nat, largest: map<nat, nat>, largestSize: map<nat, nat>)
    requires i < |partials| && SortedBy(LongerFirst, partials) && LargestSoFar(partials, i, largest, largestSize)
    ensures largest.Keys == largestSize.Keys
    ensures forall x :: x in largestSize ==> largestSize[x] >= |partials[i]|
  {
    forall x | x in largest
      ensures largestSize[x] >= |partials[i]|
    {
      assert LongerFirst(partials[largest[x]], partials[i]);
    }
  }

  lemma AllNoted(partials: seq<seq<nat>>, i: nat, largest0: map<nat, nat>, largestSize0: map<nat, nat>,
                 largest: map<nat, nat>, largestSize: map<nat, nat>)
    requires i < |partials| && LargestSoFar(partials, i, largest0, largestSize0)
    requires Noted(partials, i, |partials[i]|, largest0, largestSize0, largest, largestSize)
    ensures LargestSoFar(partials, i + 1, largest, largestSize)
  {
    assert partials[i][..|partials[i]|] == partials[i];
  }
}
