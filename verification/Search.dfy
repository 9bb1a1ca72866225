/** The backtracking search of the checker, seen from outside its data structures.

A search is at a stack `order` of linearized operations, with a cursor (a time) in the remaining
history and a cache of configurations. A configuration is the set of linearized operations and
the model state they lead to. The cache makes the search skip most orders. The invariant below
says why nothing is lost: every cached configuration is still on the stack or has been exhausted. */
module Search {
  import opened Basics
  import opened Linearizability

  type Config<!S> = (set<nat>, S)

  ghost function ConfigOf<S, I, O>(m: Model<S, I, O>, h: seq<Operation<I, O>>, order: seq<nat>): Config<S>
    requires InRange(order, |h|)
  {
    (Ids(order), StateAfter(m, h, order))
  }

  ghost function Successor<S, I, O>(m: Model<S, I, O>, h: seq<Operation<I, O>>, c: Config<S>, x: nat): Config<S>
    requires x < |h|
  {
    (c.0 + {x}, Next(m, h, c.1, x))
  }

  /** The candidates of `c` called before time `bound` have been tried: the model refused them or
      they led to a cached configuration. */
  ghost predicate TriedBefore<S, I, O>(m: Model<S, I, O>, h: seq<Operation<I, O>>, cache: set<Config<S>>,
                                       c: Config<S>, bound: int)
  {
    forall x {:trigger Successor(m, h, c, x)} :: 0 <= x < |h| && Candidate(h, c.0, x) && h[x].call < bound &&
        Allowed(m, h, c.1, x)
      ==> Successor(m, h, c, x) in cache
  }

  ghost predicate Exhausted<S, I, O>(m: Model<S, I, O>, h: seq<Operation<I, O>>, cache: set<Config<S>>, c: Config<S>)
  {
    forall x {:trigger Successor(m, h, c, x)} :: 0 <= x < |h| && Candidate(h, c.0, x) && Allowed(m, h, c.1, x)
      ==> Successor(m, h, c, x) in cache
  }

  /** Every operation of `ids` has a recorded partial linearization at least as long as `ids` is large. */
  ghost predicate Recorded(longest: seq<Option<seq<nat>>>, ids: set<nat>) {
    forall x :: x in ids && x < |longest| ==> longest[x].Some? && |longest[x].value| >= |ids|
  }

  ghost predicate Reached<S, I, O>(m: Model<S, I, O>, h: seq<Operation<I, O>>, c: Config<S>) {
    exists p :: p != [] && IsPartial(m, h, p) && c == ConfigOf(m, h, p)
  }

  /** A search in progress: the stack, the configuration at each of its levels (level 0 is the
      empty stack), the cursor, the cache, and the longest partial linearization per operation. */
  datatype State<!S> = State(order: seq<nat>, levels: seq<Config<S>>, cursor: int,
                             ghost cache: set<Config<S>>, longest: seq<Option<seq<nat>>>)
  {
    ghost predicate OnStack(c: Config<S>) {
      exists j :: 0 < j < |levels| && c == levels[j]
    }

    ghost function Top(): Config<S>
      requires levels != []
    {
      levels[|levels| - 1]
    }

    ghost predicate Shaped(n: nat) {
      && InRange(order, n) && Distinct(order)
      && |levels| == |order| + 1
      && Top().0 == Ids(order)
      && |longest| == n
    }
  }

  /** Soundness: the stack is a legal partial linearization and so is everything recorded. */
  ghost predicate Sound<S, I, O>(m: Model<S, I, O>, h: seq<Operation<I, O>>, st: State<S>) {
    && st.Shaped(|h|)
    && IsPartial(m, h, st.order)
    && (forall j :: 0 <= j <= |st.order| ==> st.levels[j] == ConfigOf(m, h, st.order[..j]))
    && (forall c :: c in st.cache ==> Reached(m, h, c))
    && forall x :: 0 <= x < |h| && st.longest[x].Some? ==>
         IsPartial(m, h, st.longest[x].value) && x in st.longest[x].value
  }

  /** What has been tried so far, at every level of the stack. */
  ghost predicate Progress<S, I, O>(m: Model<S, I, O>, h: seq<Operation<I, O>>, st: State<S>)
    requires st.Shaped(|h|)
  {
    && (forall j :: 0 <= j < |st.order| ==> TriedBefore(m, h, st.cache, st.levels[j], h[st.order[j]].call))
    && TriedBefore(m, h, st.cache, st.Top(), st.cursor)
    && (forall j :: 0 < j < |st.levels| ==> st.levels[j] in st.cache)
    && (forall y :: 0 <= y < |h| && y !in st.order ==> h[y].ret >= st.cursor)
  }

  /** Every cached configuration is on the stack, or exhausted and recorded. */
  ghost predicate Covered<S, I, O>(m: Model<S, I, O>, h: seq<Operation<I, O>>, partial: bool, st: State<S>) {
    && (forall c :: c in st.cache ==>
          || st.OnStack(c)
          || (Exhausted(m, h, st.cache, c) && (partial ==> Recorded(st.longest, c.0))))
    && (forall c :: c in st.cache && c.0 == Below(|h|) ==> |st.order| == |h|)
  }

  ghost predicate Inv<S, I, O>(m: Model<S, I, O>, h: seq<Operation<I, O>>, partial: bool, st: State<S>) {
    && Sound(m, h, st)
    && Progress(m, h, st)
    && Covered(m, h, partial, st)
  }

  lemma InvShaped<S, I, O>(m: Model<S, I, O>, h: seq<Operation<I, O>>, partial: bool, st: State<S>)
    requires Inv(m, h, partial, st)
    ensures st.Shaped(|h|)
  {
  }

  lemma InvSound<S, I, O>(m: Model<S, I, O>, h: seq<Operation<I, O>>, partial: bool, st: State<S>)
    requires Inv(m, h, partial, st)
    ensures |st.longest| == |h| && IsPartial(m, h, st.order)
    ensures forall x :: 0 <= x < |h| && st.longest[x].Some? ==>
              IsPartial(m, h, st.longest[x].value) && x in st.longest[x].value
  {
  }

  ghost predicate Overlapping<I, O>(h: seq<Operation<I, O>>) {
    forall x :: 0 <= x < |h| ==> h[x].call < h[x].ret
  }

  ghost predicate NoTies<I, O>(h: seq<Operation<I, O>>) {
    forall a, b :: 0 <= a < |h| && 0 <= b < |h| ==> h[a].call != h[b].ret
  }

  // ---------- the three moves of the search ----------

  /** Nothing that is pending without `q` lies strictly between the call of `x` and `next`. */
  ghost predicate NextPending<I, O>(h: seq<Operation<I, O>>, q: seq<nat>, x: nat, next: int)
    requires x < |h|
  {
    && h[x].call < next
    && (forall z :: 0 <= z < |h| && z !in q && z != x ==> h[z].call < h[x].call || h[z].call >= next)
    && (forall z :: 0 <= z < |h| && z !in q ==> h[z].ret < h[x].call || h[z].ret >= next)
  }

  /** Once `x` itself has been tried, so has everything called before the next pending entry. */
  lemma TriedUpToNext<S, I, O>(m: Model<S, I, O>, h: seq<Operation<I, O>>, cache: set<Config<S>>,
                               q: seq<nat>, c: Config<S>, x: nat, next: int)
    requires c.0 == Ids(q) && Candidate(h, c.0, x) && NextPending(h, q, x, next)
    requires TriedBefore(m, h, cache, c, h[x].call)
    requires Allowed(m, h, c.1, x) ==> Successor(m, h, c, x) in cache
    ensures TriedBefore(m, h, cache, c, next)
    ensures forall z :: 0 <= z < |h| && z !in q ==> h[z].ret >= next
  {
    forall z | 0 <= z < |h| && Candidate(h, c.0, z) && h[z].call < next
      ensures z == x || h[z].call < h[x].call
    {
      assert z !in q;
    }
    forall z | 0 <= z < |h| && z !in q
      ensures h[z].ret >= next
    {
      assert z !in Ids(q);
      assert !Precedes(h, z, x);
    }
  }

  /** The cursor moves past a call that was refused, or that leads to a cached configuration. */
  lemma SkipKeepsInv<S, I, O>(m: Model<S, I, O>, h: seq<Operation<I, O>>, partial: bool, st: State<S>, x: nat,
                              next: int)
    requires Inv(m, h, partial, st)
    requires x < |h| && Candidate(h, Ids(st.order), x) && h[x].call == st.cursor
    requires Allowed(m, h, st.Top().1, x) ==> Successor(m, h, st.Top(), x) in st.cache
    requires NextPending(h, st.order, x, next)
    ensures Inv(m, h, partial, st.(cursor := next))
  {
    hide Candidate, IsPartial, Reached, TriedBefore, Exhausted, Recorded, NextPending, Successor, ConfigOf, Ids;
    hide Distinct, InRange, Below;
    TriedUpToNext(m, h, st.cache, st.order, st.Top(), x, next);
  }

  /** An allowed call that leads to a new configuration is pushed. */
  lemma PushKeepsInv<S, I, O>(m: Model<S, I, O>, h: seq<Operation<I, O>>, partial: bool, st: State<S>, x: nat,
                              first: int)
    requires Inv(m, h, partial, st)
    requires x < |h| && Candidate(h, Ids(st.order), x) && h[x].call == st.cursor
    requires Allowed(m, h, st.Top().1, x)
    // `first` is at or before the first pending entry once `x` is gone
    requires forall y :: 0 <= y < |h| && y !in st.order && y != x ==> h[y].call >= first && h[y].ret >= first
    ensures Reached(m, h, Successor(m, h, st.Top(), x))
    ensures Inv(m, h, partial, Pushed(m, h, st, x, first))
  {
    PushSound(m, h, st, x, first);
    PushProgress(m, h, st, x, first);
    PushCovered(m, h, partial, st, x, first);
  }

  ghost function Pushed<S, I, O>(m: Model<S, I, O>, h: seq<Operation<I, O>>, st: State<S>, x: nat, first: int): State<S>
    requires x < |h| && st.levels != []
  {
    var c := Successor(m, h, st.Top(), x);
    State(st.order + [x], st.levels + [c], first, st.cache + {c}, st.longest)
  }

  lemma PushSound<S, I, O>(m: Model<S, I, O>, h: seq<Operation<I, O>>, st: State<S>, x: nat, first: int)
    requires Sound(m, h, st)
    requires x < |h| && Candidate(h, Ids(st.order), x) && Allowed(m, h, st.Top().1, x)
    ensures Sound(m, h, Pushed(m, h, st, x, first))
    ensures Reached(m, h, Successor(m, h, st.Top(), x))
  {
    hide Legal, PastClosed, Candidate, Next;
    var st' := Pushed(m, h, st, x, first);
    assert st.order[..|st.order|] == st.order;
    IsPartialExtend(m, h, st.order, x);
    assert Reached(m, h, ConfigOf(m, h, st'.order));
    forall j | 0 <= j <= |st'.order|
      ensures st'.levels[j] == ConfigOf(m, h, st'.order[..j])
    {
      if j <= |st.order| {
        assert st'.order[..j] == st.order[..j];
      } else {
        assert st'.order[..j] == st'.order;
      }
    }
  }

  lemma PushProgress<S, I, O>(m: Model<S, I, O>, h: seq<Operation<I, O>>, st: State<S>, x: nat, first: int)
    requires x < |h| && st.Shaped(|h|) && Pushed(m, h, st, x, first).Shaped(|h|)
    requires Progress(m, h, st)
    requires h[x].call == st.cursor
    requires forall y :: 0 <= y < |h| && y !in st.order && y != x ==> h[y].call >= first && h[y].ret >= first
    ensures Progress(m, h, Pushed(m, h, st, x, first))
  {
    var st' := Pushed(m, h, st, x, first);
    forall j | 0 <= j < |st'.order|
      ensures TriedBefore(m, h, st'.cache, st'.levels[j], h[st'.order[j]].call)
    {
      assert TriedBefore(m, h, st.cache, st.levels[j], h[st'.order[j]].call);
    }
    forall y | 0 <= y < |h| && Candidate(h, Ids(st'.order), y)
      ensures h[y].call >= first
    {
      assert y !in st'.order;
    }
  }

  lemma PushCovered<S, I, O>(m: Model<S, I, O>, h: seq<Operation<I, O>>, partial: bool, st: State<S>, x: nat,
                             first: int)
    requires x < |h| && st.Shaped(|h|) && Pushed(m, h, st, x, first).Shaped(|h|)
    requires Covered(m, h, partial, st)
    ensures Covered(m, h, partial, Pushed(m, h, st, x, first))
  {
    var st' := Pushed(m, h, st, x, first);
    IdsBelow(st.order, |h|);
    IdsBelow(st'.order, |h|);
    forall c | c in st'.cache
      ensures st'.OnStack(c) || (Exhausted(m, h, st'.cache, c) && (partial ==> Recorded(st.longest, c.0)))
      ensures c.0 == Below(|h|) ==> |st'.order| == |h|
    {
      if c !in st.cache {
        assert c == st'.levels[|st.levels|];
      } else if st.OnStack(c) {
        var j :| 0 < j < |st.levels| && c == st.levels[j];
        assert c == st'.levels[j];
      }
    }
  }

  /** The update of `longest` at a backtrack: it keeps what is there unless the stack is longer. */
  ghost predicate RecordedStack(longest: seq<Option<seq<nat>>>, order: seq<nat>, longest': seq<Option<seq<nat>>>) {
    && |longest'| == |longest|
    && forall x :: 0 <= x < |longest| ==>
         longest'[x] ==
           if x in order && (longest[x].None? || |order| > |longest[x].value|) then Some(order) else longest[x]
  }

  /** The cursor is at a return: everything that could follow the stack has been tried, so the
      stack is recorded and its top operation is taken back. */
  lemma PopKeepsInv<S, I, O>(m: Model<S, I, O>, h: seq<Operation<I, O>>, partial: bool, st: State<S>,
                             y: nat, longest': seq<Option<seq<nat>>>, next: int)
    requires Inv(m, h, partial, st)
    requires y < |h| && y !in st.order && h[y].ret == st.cursor
    requires NoTies(h)
    requires st.order != []
    requires if partial then RecordedStack(st.longest, st.order, longest') else longest' == st.longest
    requires NextPending(h, st.order[..|st.order| - 1], st.order[|st.order| - 1], next)
    ensures Inv(m, h, partial, Popped(st, longest', next))
  {
    PopSound(m, h, partial, st, longest', next);
    AtReturnExhausted(m, h, st, y);
    PopProgress(m, h, st, longest', next);
    PopCovered(m, h, partial, st, longest', y, next);
  }

  ghost function Popped<S>(st: State<S>, longest': seq<Option<seq<nat>>>, next: int): State<S>
    requires st.order != [] && st.levels != []
  {
    State(st.order[..|st.order| - 1], st.levels[..|st.levels| - 1], next, st.cache, longest')
  }

  lemma PopSound<S, I, O>(m: Model<S, I, O>, h: seq<Operation<I, O>>, partial: bool, st: State<S>,
                          longest': seq<Option<seq<nat>>>, next: int)
    requires Sound(m, h, st) && st.order != []
    requires if partial then RecordedStack(st.longest, st.order, longest') else longest' == st.longest
    ensures Sound(m, h, Popped(st, longest', next))
    ensures
      var x, d := st.order[|st.order| - 1], st.levels[|st.order| - 1];
      Candidate(h, d.0, x) && st.Top() == Successor(m, h, d, x)
  {
    hide Legal, PastClosed, Candidate;
    IsPartialLast(m, h, st.order);
    var st' := Popped(st, longest', next);
    assert st.order[..|st.order|] == st.order;
    forall j | 0 <= j <= |st'.order|
      ensures st'.levels[j] == ConfigOf(m, h, st'.order[..j])
    {
      assert st'.order[..j] == st.order[..j];
    }
    assert st'.order[..|st'.order|] == st'.order;
    forall x | 0 <= x < |h| && longest'[x].Some?
      ensures IsPartial(m, h, longest'[x].value) && x in longest'[x].value
    {
      if longest'[x] == st.longest[x] {
        assert IsPartial(m, h, st.longest[x].value);
      }
    }
  }

  /** With the cursor at a return, a candidate not yet tried would follow that return. */
  lemma AtReturnExhausted<S, I, O>(m: Model<S, I, O>, h: seq<Operation<I, O>>, st: State<S>, y: nat)
    requires st.Shaped(|h|) && Progress(m, h, st)
    requires y < |h| && y !in st.order && h[y].ret == st.cursor
    requires NoTies(h)
    ensures Exhausted(m, h, st.cache, st.Top())
  {
    var c := st.Top();
    forall z | 0 <= z < |h| && Candidate(h, c.0, z) && Allowed(m, h, c.1, z)
      ensures Successor(m, h, c, z) in st.cache
    {
      assert !Precedes(h, y, z);
      assert h[z].call < st.cursor;
    }
  }

  lemma RecordingKeeps(longest: seq<Option<seq<nat>>>, order: seq<nat>, longest': seq<Option<seq<nat>>>)
    requires RecordedStack(longest, order, longest') && Distinct(order)
    ensures Recorded(longest', Ids(order))
    ensures forall ids :: Recorded(longest, ids) ==> Recorded(longest', ids)
  {
    DistinctCount(order);
  }

  lemma PopCovered<S, I, O>(m: Model<S, I, O>, h: seq<Operation<I, O>>, partial: bool, st: State<S>,
                            longest': seq<Option<seq<nat>>>, y: nat, next: int)
    requires st.Shaped(|h|) && Covered(m, h, partial, st)
    requires st.order != []
    requires y < |h| && y !in st.order
    requires Exhausted(m, h, st.cache, st.Top())
    requires if partial then RecordedStack(st.longest, st.order, longest') else longest' == st.longest
    ensures Covered(m, h, partial, Popped(st, longest', next))
  {
    var st' := Popped(st, longest', next);
    assert |st.order| < |h| by {
      IdsBelow(st.order, |h|);
      assert y !in Ids(st.order);
    }
    if partial {
      RecordingKeeps(st.longest, st.order, longest');
    }
    forall d | d in st.cache
      ensures st'.OnStack(d) || (Exhausted(m, h, st.cache, d) && (partial ==> Recorded(longest', d.0)))
    {
      if st.OnStack(d) {
        var j :| 0 < j < |st.levels| && d == st.levels[j];
        if j < |st'.levels| {
          assert d == st'.levels[j];
        }
      }
    }
  }

  lemma PopProgress<S, I, O>(m: Model<S, I, O>, h: seq<Operation<I, O>>, st: State<S>,
                             longest': seq<Option<seq<nat>>>, next: int)
    requires st.Shaped(|h|) && Progress(m, h, st)
    requires st.order != [] && Popped(st, longest', next).Shaped(|h|)
    requires NextPending(h, st.order[..|st.order| - 1], st.order[|st.order| - 1], next)
    requires
      var x, d := st.order[|st.order| - 1], st.levels[|st.order| - 1];
      Candidate(h, d.0, x) && st.Top() == Successor(m, h, d, x)
    ensures Progress(m, h, Popped(st, longest', next))
  {
    var st' := Popped(st, longest', next);
    var x, d := st.order[|st.order| - 1], st.levels[|st.order| - 1];
    assert TriedBefore(m, h, st.cache, d, h[x].call);
    assert st.Top() in st.cache;
    TriedUpToNext(m, h, st.cache, st'.order, d, x, next);
    forall j | 0 <= j < |st'.order|
      ensures TriedBefore(m, h, st.cache, st'.levels[j], h[st'.order[j]].call)
    {
      assert TriedBefore(m, h, st.cache, st.levels[j], h[st.order[j]].call);
    }
  }

  ghost function Started<S, I, O>(m: Model<S, I, O>, h: seq<Operation<I, O>>, cursor: int): State<S> {
    State([], [({}, m.init)], cursor, {}, seq(|h|, _ => None))
  }

  lemma StartedInv<S, I, O>(m: Model<S, I, O>, h: seq<Operation<I, O>>, partial: bool, cursor: int)
    requires forall y :: 0 <= y < |h| ==> h[y].call >= cursor && h[y].ret >= cursor
    ensures Inv(m, h, partial, Started(m, h, cursor))
  {
    var st := Started(m, h, cursor);
    assert st.order[..0] == [] && Ids([]) == {};
    assert Sound(m, h, st);
    assert Covered(m, h, partial, st);
  }

  // ---------- how a search ends ----------

  /** An empty stack with the cursor at a return: the whole search space has been visited. */
  ghost predicate Finished<S, I, O>(m: Model<S, I, O>, h: seq<Operation<I, O>>, partial: bool, st: State<S>) {
    && Inv(m, h, partial, st)
    && st.order == []
    && exists y :: 0 <= y < |h| && h[y].ret == st.cursor
  }

  /** Although the cache makes the search skip orders, no reachable configuration is missed. */
  lemma {:induction false} EveryPartialIsCached<S, I, O>(m: Model<S, I, O>, h: seq<Operation<I, O>>, partial: bool,
                                                         st: State<S>, p: seq<nat>)
    requires Finished(m, h, partial, st)
    requires NoTies(h)
    requires IsPartial(m, h, p) && p != []
    ensures ConfigOf(m, h, p) in st.cache
  {
    IsPartialLast(m, h, p);
    var q, x := p[..|p| - 1], p[|p| - 1];
    var c := ConfigOf(m, h, q);
    assert ConfigOf(m, h, p) == Successor(m, h, c, x);
    if q == [] {
      var y :| 0 <= y < |h| && h[y].ret == st.cursor;
      assert !Precedes(h, y, x);
      assert st.order[..0] == q;
      assert c == st.Top();
    } else {
      EveryPartialIsCached(m, h, partial, st, q);
      assert Exhausted(m, h, st.cache, c);
    }
  }

  /** A finished search has refuted linearizability. */
  lemma FinishedRefutes<S, I, O>(m: Model<S, I, O>, h: seq<Operation<I, O>>, partial: bool, st: State<S>)
    requires Finished(m, h, partial, st)
    requires Overlapping(h)
    requires NoTies(h)
    ensures !Linearizable(m, h)
  {
    forall p
      ensures !IsLinearization(m, h, p)
    {
      LinearizationIsCompletePartial(m, h, p);
      if IsPartial(m, h, p) && |p| == |h| {
        EveryPartialIsCached(m, h, partial, st, p);
        IdsBelow(p, |h|);
      }
    }
  }

  /** `best` is the exact answer for operation `x`: nothing when no partial linearization contains
      it, and otherwise one of maximum length among all those that do. */
  ghost predicate ExactLongest<S, I, O>(m: Model<S, I, O>, h: seq<Operation<I, O>>, x: nat, best: Option<seq<nat>>) {
    match best
    case None => forall p :: IsPartial(m, h, p) ==> x !in p
    case Some(b) =>
      && IsPartial(m, h, b) && x in b
      && forall p :: IsPartial(m, h, p) && x in p ==> |p| <= |b|
  }

  lemma FinishedIsExact<S, I, O>(m: Model<S, I, O>, h: seq<Operation<I, O>>, st: State<S>, x: nat)
    requires Finished(m, h, true, st)
    requires NoTies(h)
    requires x < |h|
    ensures ExactLongest(m, h, x, st.longest[x])
  {
    forall p | IsPartial(m, h, p) && x in p
      ensures st.longest[x].Some? && |p| <= |st.longest[x].value|
    {
      EveryPartialIsCached(m, h, true, st, p);
      DistinctCount(p);
      var c := ConfigOf(m, h, p);
      assert x in c.0;
      assert Recorded(st.longest, c.0);
    }
  }

  // ---------- there are finitely many configurations ----------

  ghost function Orders(n: nat, k: nat): set<seq<nat>> {
    if k == 0 then {[]}
    else Orders(n, k - 1) + set o, x | o in Orders(n, k - 1) && x in Below(n) :: o + [x]
  }

  lemma {:induction false} OrdersComplete(n: nat, k: nat, order: seq<nat>)
    requires InRange(order, n) && |order| <= k
    ensures order in Orders(n, k)
  {
    if order != [] {
      var q, x := order[..|order| - 1], order[|order| - 1];
      OrdersComplete(n, k - 1, q);
      assert order == q + [x];
    } else if k > 0 {
      OrdersComplete(n, k - 1, order);
    }
  }

  lemma {:induction false} OrdersInRange(n: nat, k: nat)
    ensures forall o :: o in Orders(n, k) ==> InRange(o, n)
  {
    if k > 0 {
      OrdersInRange(n, k - 1);
    }
  }

  /** All configurations that some order of the operations leads to. */
  ghost function Universe<S, I, O>(m: Model<S, I, O>, h: seq<Operation<I, O>>): set<Config<S>> {
    set o | o in Orders(|h|, |h|) && InRange(o, |h|) :: ConfigOf(m, h, o)
  }

  lemma ReachedInUniverse<S, I, O>(m: Model<S, I, O>, h: seq<Operation<I, O>>, c: Config<S>)
    requires Reached(m, h, c)
    ensures c in Universe(m, h)
  {
    var p :| p != [] && IsPartial(m, h, p) && c == ConfigOf(m, h, p);
    IdsBelow(p, |h|);
    OrdersComplete(|h|, |h|, p);
  }

  /** The number of configurations not yet cached: it drops at every push. */
  ghost function Unvisited<S, I, O>(m: Model<S, I, O>, h: seq<Operation<I, O>>, cache: set<Config<S>>): nat {
    |Universe(m, h) - cache|
  }

  lemma PushVisits<S, I, O>(m: Model<S, I, O>, h: seq<Operation<I, O>>, cache: set<Config<S>>, c: Config<S>)
    requires Reached(m, h, c)
    requires c !in cache
    ensures Unvisited(m, h, cache + {c}) < Unvisited(m, h, cache)
  {
    ReachedInUniverse(m, h, c);
    assert Universe(m, h) - (cache + {c}) == (Universe(m, h) - cache) - {c};
  }
}
