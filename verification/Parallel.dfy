/** The checks of all partitions run side by side; this is how their answers are put together. */
module Parallel {
  import opened Basics
  import opened Linearizability
  import opened Search
  import opened Entries
  import opened Checker
  import opened KvModel
  import opened Locality
  import opened Histories
  import opened Events

  datatype CheckResult = Unknown | Ok | Illegal

  /** What the scheduler and the clock decide. Results are received in the order `arrival`. The
      timeout, if any, is seen when that many results have been received. A check that is still
      running after the collector stopped may see the kill flag at any of its iterations. */
  datatype Schedule = Schedule(arrival: seq<nat>, timeout: Option<nat>, killed: (nat, nat) -> bool) {
    ghost predicate For(n: nat) {
      && |arrival| == n && InRange(arrival, n) && Distinct(arrival)
      && (n > 0 || timeout == Some(0))
    }

    /** The timeout comes before all results are in. */
    predicate TimesOut(n: nat) {
      timeout.Some? && (timeout.value < n || n == 0)
    }

    /** How many results come before the timeout. */
    function InTime(n: nat): nat {
      if timeout.Some? && timeout.value < n then timeout.value else n
    }
  }

  ghost predicate AllWellFormed<I, O>(history: seq<seq<Entry<I, O>>>) {
    forall i :: 0 <= i < |history| ==> WellFormed(history[i])
  }

  /** Everything in `partials` is a legal partial linearization. */
  ghost predicate SoundPartials<S, I, O>(m: Model<S, I, O>, h: seq<Operation<I, O>>, partials: seq<seq<nat>>) {
    forall k :: 0 <= k < |partials| ==> IsPartial(m, h, partials[k])
  }

  /** For every operation that some partial linearization contains, one of maximum length is there, and
      every list is there for some operation. */
  ghost predicate ExactPartials<S, I, O>(m: Model<S, I, O>, h: seq<Operation<I, O>>, partials: seq<seq<nat>>) {
    && (forall x, p :: 0 <= x < |h| && IsPartial(m, h, p) && x in p ==> HasLonger(partials, x, |p|))
    && (forall k :: 0 <= k < |partials| ==> LongestForSome(m, h, partials[k]))
  }

  ghost predicate LongestForSome<S, I, O>(m: Model<S, I, O>, h: seq<Operation<I, O>>, q: seq<nat>) {
    exists x :: x in q && LongestWith(m, h, q, x)
  }

  ghost predicate LongestWith<S, I, O>(m: Model<S, I, O>, h: seq<Operation<I, O>>, q: seq<nat>, x: nat) {
    forall p :: IsPartial(m, h, p) && x in p ==> |p| <= |q|
  }

  ghost predicate HasLonger(partials: seq<seq<nat>>, x: nat, n: nat) {
    exists k :: 0 <= k < |partials| && x in partials[k] && |partials[k]| >= n
  }

  /** Turns the answers per operation into a list without repeats. */
  method UniquePartials(longest: seq<Option<seq<nat>>>) returns (partials: seq<seq<nat>>)
    ensures forall p :: p in partials <==> Some(p) in longest
    ensures Distinct(partials)
  {
    partials := [];
    for i := 0 to |longest|
      invariant forall p :: p in partials <==> Some(p) in longest[..i]
      invariant Distinct(partials)
    {
      assert longest[..i + 1] == longest[..i] + [longest[i]];
      if longest[i].Some? && longest[i].value !in partials {
        partials := partials + [longest[i].value];
      }
    }
    assert longest[..|longest|] == longest;
  }

  /** What one check reports about its partition. */
  ghost predicate Reported<S, I, O>(m: Model<S, I, O>, es: seq<Entry<I, O>>, longest: seq<Option<seq<nat>>>,
                                    exact: bool)
    requires WellFormed(es)
  {
    && |longest| == |HistoryOf(es)|
    && (forall x :: 0 <= x < |longest| && longest[x].Some? ==>
          IsPartial(m, HistoryOf(es), longest[x].value) && x in longest[x].value)
    && (exact ==> forall x :: 0 <= x < |longest| ==> ExactLongest(m, HistoryOf(es), x, longest[x]))
  }

  lemma ReportedPartials<S, I, O>(m: Model<S, I, O>, es: seq<Entry<I, O>>, longest: seq<Option<seq<nat>>>, exact: bool,
                                  partials: seq<seq<nat>>)
    requires WellFormed(es) && Reported(m, es, longest, exact)
    requires forall p :: p in partials <==> Some(p) in longest
    ensures SoundPartials(m, HistoryOf(es), partials)
    ensures exact ==> ExactPartials(m, HistoryOf(es), partials)
  {
    hide IsPartial;
    var h := HistoryOf(es);
    forall k | 0 <= k < |partials|
      ensures IsPartial(m, h, partials[k])
    {
      assert partials[k] in partials;
      var x :| 0 <= x < |longest| && longest[x] == Some(partials[k]);
    }
    if exact {
      forall x, p | 0 <= x < |h| && IsPartial(m, h, p) && x in p
        ensures HasLonger(partials, x, |p|)
      {
        assert ExactLongest(m, h, x, longest[x]);
        assert longest[x] in longest;
        var k :| 0 <= k < |partials| && partials[k] == longest[x].value;
      }
      forall k | 0 <= k < |partials|
        ensures LongestForSome(m, h, partials[k])
      {
        assert partials[k] in partials;
        var x :| 0 <= x < |longest| && longest[x] == Some(partials[k]);
        assert ExactLongest(m, h, x, longest[x]);
        assert LongestWith(m, h, partials[k], x);
      }
    }
  }

  /** What is reported about a history holds of every history with the same operations and the same
      real-time order. */
  lemma PartialsCarryOver<S, I, O>(m: Model<S, I, O>, h: seq<Operation<I, O>>, g: seq<Operation<I, O>>,
                                   partials: seq<seq<nat>>)
    requires SameShape(h, g)
    ensures SoundPartials(m, h, partials) ==> SoundPartials(m, g, partials)
    ensures ExactPartials(m, h, partials) ==> ExactPartials(m, g, partials)
  {
    hide IsPartial;
    forall p: seq<nat>
      ensures IsPartial(m, h, p) <==> IsPartial(m, g, p)
    {
      SameShapePartial(m, h, g, p);
    }
    if ExactPartials(m, h, partials) {
      forall k | 0 <= k < |partials|
        ensures LongestForSome(m, g, partials[k])
      {
        var x :| x in partials[k] && LongestWith(m, h, partials[k], x);
        assert LongestWith(m, g, partials[k], x);
      }
    }
  }

  /** The partition whose result comes as number `k`. */
  ghost predicate GoodResult<S, I, O>(m: Model<S, I, O>, history: seq<seq<Entry<I, O>>>, schedule: Schedule, k: nat)
    requires AllWellFormed(history) && schedule.For(|history|) && k < |history|
  {
    Linearizable(m, HistoryOf(history[schedule.arrival[k]]))
  }

  /** The collector: the answer is Illegal exactly when a result that came in time is bad, Unknown exactly
      when none was and the time ran out, and Ok otherwise. */
  method CheckParallel<S(==), I, O>(model: Model<S, I, O>, history: seq<seq<Entry<I, O>>>, computeInfo: bool,
                                    schedule: Schedule)
      returns (result: CheckResult, info: seq<seq<seq<nat>>>)
    requires AllWellFormed(history) && schedule.For(|history|)
    ensures result == Illegal <==>
              exists k :: 0 <= k < schedule.InTime(|history|) && !GoodResult(model, history, schedule, k)
    ensures result == Unknown <==> result != Illegal && schedule.TimesOut(|history|)
    ensures result == Illegal ==> exists i :: 0 <= i < |history| && !Linearizable(model, HistoryOf(history[i]))
    ensures result == Ok ==> forall i :: 0 <= i < |history| ==> Linearizable(model, HistoryOf(history[i]))
    ensures |info| == if computeInfo then |history| else 0
    ensures forall i :: 0 <= i < |info| ==> SoundPartials(model, HistoryOf(history[i]), info[i]) && Distinct(info[i])
    ensures computeInfo ==> forall k :: 0 <= k < schedule.InTime(|history|) ==>
              ExactPartials(model, HistoryOf(history[schedule.arrival[k]]), info[schedule.arrival[k]])
    ensures computeInfo && !schedule.TimesOut(|history|) ==>
              forall i :: 0 <= i < |history| ==> ExactPartials(model, HistoryOf(history[i]), info[i])
  {
    hide Linearizable, WellFormed, IsPartial, Reported, SoundPartials, ExactPartials, GoodResult, Distinct;
    var ok, timedOut, longest, count := Collect(model, history, computeInfo, schedule);
    BadResult(model, history, schedule);
    info := [];
    if computeInfo {
      longest := Drain(model, history, schedule, longest, count);
      for i := 0 to |history|
        invariant |info| == i
        invariant forall k :: 0 <= k < i ==> SoundPartials(model, HistoryOf(history[k]), info[k]) && Distinct(info[k])
        invariant forall k :: 0 <= k < i && Reported(model, history[k], longest[k], true) ==>
                    ExactPartials(model, HistoryOf(history[k]), info[k])
      {
        var partials := UniquePartials(longest[i]);
        ReportedPartials(model, history[i], longest[i], Reported(model, history[i], longest[i], true), partials);
        info := info + [partials];
      }
      if !schedule.TimesOut(|history|) {
        forall i | 0 <= i < |history|
          ensures Reported(model, history[i], longest[i], true)
        {
          var k := ArrivalCovers(schedule.arrival, |history|, i);
        }
      }
    }
    result := if !ok then Illegal else if timedOut then Unknown else Ok;
  }

  lemma BadResult<S, I, O>(m: Model<S, I, O>, history: seq<seq<Entry<I, O>>>, schedule: Schedule)
    requires AllWellFormed(history) && schedule.For(|history|)
    ensures forall k :: 0 <= k < |history| && !GoodResult(m, history, schedule, k) ==>
              schedule.arrival[k] < |history| && !Linearizable(m, HistoryOf(history[schedule.arrival[k]]))
  {
  }

  lemma ArrivalCovers(arrival: seq<nat>, n: nat, i: nat) returns (k: nat)
    requires |arrival| == n && InRange(arrival, n) && Distinct(arrival) && i < n
    ensures k < n && arrival[k] == i
  {
    IdsBelow(arrival, n);
    assert i in Ids(arrival);
    k :| 0 <= k < n && arrival[k] == i;
  }

  lemma AllArrived<S, I, O>(m: Model<S, I, O>, history: seq<seq<Entry<I, O>>>, schedule: Schedule)
    requires AllWellFormed(history) && schedule.For(|history|)
    requires forall k :: 0 <= k < |history| ==> GoodResult(m, history, schedule, k)
    ensures forall i :: 0 <= i < |history| ==> Linearizable(m, HistoryOf(history[i]))
  {
    hide Linearizable, WellFormed;
    forall i | 0 <= i < |history|
      ensures Linearizable(m, HistoryOf(history[i]))
    {
      var k := ArrivalCovers(schedule.arrival, |history|, i);
      assert GoodResult(m, history, schedule, k);
    }
  }

  /** The receiving loop. Until it stops, no check has seen the kill flag. */
  method Collect<S(==), I, O>(model: Model<S, I, O>, history: seq<seq<Entry<I, O>>>, computeInfo: bool,
                              schedule: Schedule)
      returns (ok: bool, timedOut: bool, longest: seq<seq<Option<seq<nat>>>>, count: nat)
    requires AllWellFormed(history) && schedule.For(|history|)
    ensures ok <==> forall k :: 0 <= k < schedule.InTime(|history|) ==> GoodResult(model, history, schedule, k)
    ensures ok ==> timedOut == schedule.TimesOut(|history|)
    ensures ok && !timedOut ==> forall i :: 0 <= i < |history| ==> Linearizable(model, HistoryOf(history[i]))
    ensures |longest| == |history| && count <= |history|
    ensures forall k :: 0 <= k < count ==>
              Reported(model, history[schedule.arrival[k]], longest[schedule.arrival[k]], computeInfo)
    ensures computeInfo ==> count == schedule.InTime(|history|)
  {
    hide Linearizable, WellFormed, IsPartial;
    ok, timedOut, count := true, false, 0;
    longest := seq(|history|, _ => []);
    while true
      invariant 0 <= count <= schedule.InTime(|history|) && |longest| == |history| && !timedOut
      invariant count == |history| ==> count == 0
      invariant ok <==> forall k :: 0 <= k < count ==> GoodResult(model, history, schedule, k)
      invariant !ok ==> computeInfo
      invariant forall k :: 0 <= k < count ==>
                  Reported(model, history[schedule.arrival[k]], longest[schedule.arrival[k]], computeInfo)
      decreases |history| - count
    {
      if schedule.timeout == Some(count) {
        timedOut := true;
        break;
      }
      var i := schedule.arrival[count];
      var okI, longestI := CheckSingle(model, history[i], computeInfo, _ => false);
      assert okI <==> GoodResult(model, history, schedule, count);
      if computeInfo {
        assert Reported(model, history[i], longestI, computeInfo);
      }
      longest := longest[i := longestI];
      count := count + 1;
      ok := ok && okI;
      if !ok && !computeInfo {
        break;
      }
      if count >= |history| {
        if ok {
          AllArrived(model, history, schedule);
        }
        break;
      }
    }
  }

  /** The checks that were not waited for may be killed at any moment; what they recorded is sound. */
  method Drain<S(==), I, O>(model: Model<S, I, O>, history: seq<seq<Entry<I, O>>>, schedule: Schedule,
                            received: seq<seq<Option<seq<nat>>>>, waitedFor: nat)
      returns (longest: seq<seq<Option<seq<nat>>>>)
    requires AllWellFormed(history) && schedule.For(|history|)
    requires |received| == |history| && waitedFor <= |history|
    requires forall k :: 0 <= k < waitedFor ==>
               Reported(model, history[schedule.arrival[k]], received[schedule.arrival[k]], true)
    ensures |longest| == |history|
    ensures forall i :: 0 <= i < |history| ==> Reported(model, history[i], longest[i], false)
    ensures forall k :: 0 <= k < waitedFor ==>
              Reported(model, history[schedule.arrival[k]], longest[schedule.arrival[k]], true)
  {
    hide Linearizable, WellFormed, IsPartial, ExactLongest;
    longest := received;
    var count := waitedFor;
    while count < |history|
      invariant waitedFor <= count <= |history| && |longest| == |history|
      invariant forall k :: 0 <= k < count ==>
                  Reported(model, history[schedule.arrival[k]], longest[schedule.arrival[k]], k < waitedFor)
    {
      var i := schedule.arrival[count];
      var _, longestI := CheckSingle(model, history[i], true, (t: nat) => schedule.killed(i, t));
      longest := longest[i := longestI];
      count := count + 1;
    }
    forall i | 0 <= i < |history|
      ensures Reported(model, history[i], longest[i], false)
    {
      var k := ArrivalCovers(schedule.arrival, |history|, i);
      assert Reported(model, history[schedule.arrival[k]], longest[schedule.arrival[k]], k < waitedFor);
    }
  }

  // ---------- the whole check ----------

  /** The key-value check: partition by key, one list of entries per key, all lists side by side.
      The verdict is about the whole store, and the partial linearizations are about the keys in order.
      Calls and returns of different keys may have the same time: they are never in one list. */
  method CheckKvOperations(history: seq<KvOperation>, verbose: bool, schedule: Schedule)
      returns (result: CheckResult, info: seq<seq<seq<nat>>>, ghost keys: seq<string>)
    requires Overlapping(history) && forall key :: NoTies(Part(history, key))
    requires schedule.For(|Keys(history)|)
    ensures StrictlySorted(keys) && |keys| == |Keys(history)| && forall key :: key in keys <==> key in Keys(history)
    ensures result == Illegal ==> !Linearizable(STORE, history)
    ensures result == Ok ==> Linearizable(STORE, history)
    ensures !schedule.TimesOut(|keys|) ==> (result == Ok <==> Linearizable(STORE, history)) && result != Unknown
    ensures result == Illegal <==> exists k :: 0 <= k < schedule.InTime(|keys|) && BadKey(history, keys, schedule, k)
    ensures result == Unknown <==> result != Illegal && schedule.TimesOut(|keys|)
    ensures |info| == if verbose then |keys| else 0
    ensures forall i :: 0 <= i < |info| ==> SoundPartials(KV, Part(history, keys[i]), info[i]) && Distinct(info[i])
    ensures !schedule.TimesOut(|keys|) ==>
              forall i :: 0 <= i < |info| ==> ExactPartials(KV, Part(history, keys[i]), info[i])
  {
    hide Linearizable, Schedule.For, Schedule.TimesOut, Part, Keys, StrictlySorted;
    hide SoundPartials, ExactPartials, Distinct, NoTies, SameShape, WellFormed, GoodResult;
    var parts;
    parts, keys := Partition(history);
    KeysCount(history, keys, parts);
    var l: seq<seq<Entry<KvInput, KvOutput>>> := [];
    for i := 0 to |parts|
      invariant |l| == i && AllWellFormed(l)
      invariant forall k :: 0 <= k < i ==> SameShape(HistoryOf(l[k]), parts[k])
    {
      PartInherits(history, keys[i]);
      assert NoTies(Part(history, keys[i]));
      var entries := MakeEntries(parts[i]);
      l := l + [entries];
    }
    result, info := CheckParallel(KV, l, verbose, schedule);
    forall i | 0 <= i < |parts|
      ensures Linearizable(KV, HistoryOf(l[i])) <==> Linearizable(KV, parts[i])
    {
      SameShapeLinearizable(KV, HistoryOf(l[i]), parts[i]);
    }
    forall k | 0 <= k < |keys|
      ensures BadKey(history, keys, schedule, k) <==> !GoodResult(KV, l, schedule, k)
    {
      ResultOfKey(history, keys, parts, l, schedule, k);
    }
    forall i | 0 <= i < |info|
      ensures SoundPartials(KV, parts[i], info[i])
      ensures ExactPartials(KV, HistoryOf(l[i]), info[i]) ==> ExactPartials(KV, parts[i], info[i])
    {
      PartialsCarryOver(KV, HistoryOf(l[i]), parts[i], info[i]);
    }
    PartsDecide(history, keys, parts);
  }

  /** The result that comes as number `k` is about a key whose part is not linearizable. */
  ghost predicate BadKey(history: seq<KvOperation>, keys: seq<string>, schedule: Schedule, k: nat) {
    && k < |schedule.arrival| && schedule.arrival[k] < |keys|
    && !Linearizable(KV, Part(history, keys[schedule.arrival[k]]))
  }

  lemma ResultOfKey(history: seq<KvOperation>, keys: seq<string>, parts: seq<seq<KvOperation>>,
                    l: seq<seq<Entry<KvInput, KvOutput>>>, schedule: Schedule, k: nat)
    requires PartsByKey(history, keys, parts) && |l| == |keys| && AllWellFormed(l) && schedule.For(|l|) && k < |l|
    requires forall i :: 0 <= i < |l| ==> (Linearizable(KV, HistoryOf(l[i])) <==> Linearizable(KV, parts[i]))
    ensures BadKey(history, keys, schedule, k) <==> !GoodResult(KV, l, schedule, k)
  {
    hide Linearizable, Part, Keys;
  }

  lemma KeysCount(history: seq<KvOperation>, keys: seq<string>, parts: seq<seq<KvOperation>>)
    requires PartsByKey(history, keys, parts)
    ensures |parts| == |Keys(history)|
  {
    forall i, j | 0 <= i < j < |keys|
      ensures keys[i] != keys[j]
    {
      Sorting.StringTrichotomy(keys[i], keys[j]);
    }
    SetOfSeq(keys);
    assert (set key | key in keys) == Keys(history);
  }

  lemma {:induction false} SetOfSeq<T>(s: seq<T>)
    requires Distinct(s)
    ensures |set x | x in s| == |s|
  {
    if s != [] {
      var q, x := s[..|s| - 1], s[|s| - 1];
      SetOfSeq(q);
      assert s == q + [x];
      assert x !in q;
      assert (set y | y in s) == (set y | y in q) + {x};
    }
  }

  lemma PartInherits(history: seq<KvOperation>, key: string)
    requires Overlapping(history)
    ensures Overlapping(Part(history, key))
  {
    PlacesFacts(history, key);
  }

  lemma PartsDecide(history: seq<KvOperation>, keys: seq<string>, parts: seq<seq<KvOperation>>)
    requires Overlapping(history)
    requires PartsByKey(history, keys, parts)
    ensures Linearizable(STORE, history) <==> forall i :: 0 <= i < |parts| ==> Linearizable(KV, parts[i])
  {
    hide Linearizable, Part, Keys, StrictlySorted;
    Locality.Locality(history);
    if forall i :: 0 <= i < |parts| ==> Linearizable(KV, parts[i]) {
      forall key | key in Keys(history)
        ensures Linearizable(KV, Part(history, key))
      {
        assert key in keys;
        var i :| 0 <= i < |keys| && keys[i] == key;
        assert Linearizable(KV, parts[i]);
      }
    }
    assert forall i :: 0 <= i < |keys| ==> keys[i] in keys;
  }

  /** The check of operations without partitioning. */
  method CheckOperations<S(==), I(!new), O(!new)>(model: Model<S, I, O>, history: seq<Operation<I, O>>, verbose: bool,
                                                  schedule: Schedule)
      returns (result: CheckResult, info: seq<seq<seq<nat>>>)
    requires Overlapping(history) && NoTies(history)
    requires schedule.For(1)
    ensures result == if schedule.TimesOut(1) then Unknown else if Linearizable(model, history) then Ok else Illegal
    ensures |info| == if verbose then 1 else 0
    ensures verbose ==> SoundPartials(model, history, info[0]) && Distinct(info[0])
    ensures verbose && !schedule.TimesOut(1) ==> ExactPartials(model, history, info[0])
  {
    hide Linearizable, SoundPartials, ExactPartials, Distinct;
    var entries := MakeEntries(history);
    SameShapeLinearizable(model, HistoryOf(entries), history);
    result, info := CheckParallel(model, [entries], verbose, schedule);
    assert [entries][0] == entries;
    if verbose {
      PartialsCarryOver(model, HistoryOf(entries), history, info[0]);
    }
  }

  /** The check of events: ids are renumbered, and the positions of the events serve as times. */
  method CheckEvents<S(==), I, O>(model: Model<S, I, O>, events: seq<Event<I, O>>, verbose: bool, schedule: Schedule)
      returns (result: CheckResult, info: seq<seq<seq<nat>>>, ghost h: seq<Operation<I, O>>)
    requires Complete(events)
    requires schedule.For(1)
    ensures OperationsOf(events, h)
    ensures result == if schedule.TimesOut(1) then Unknown else if Linearizable(model, h) then Ok else Illegal
    ensures |info| == if verbose then 1 else 0
    ensures verbose ==> SoundPartials(model, h, info[0]) && Distinct(info[0])
    ensures verbose && !schedule.TimesOut(1) ==> ExactPartials(model, h, info[0])
  {
    hide Linearizable, Complete, OperationsOf, Converted, SoundPartials, ExactPartials, Distinct;
    var renumbered, n := Renumber(events);
    var entries := ConvertEntries(renumbered);
    EventsLayout(events, renumbered, n, entries);
    result, info := CheckParallel(model, [entries], verbose, schedule);
    assert [entries][0] == entries;
    h := HistoryOf(entries);
  }
}
