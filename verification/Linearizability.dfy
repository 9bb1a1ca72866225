/** What it means for a history of concurrent operations to be linearizable.

Operations are named by their position in the history. Nothing in this module mentions how the
checker works: the definitions are the specification that the search is proved against. */
module Linearizability {
  import opened Basics

  /** One completed operation: its input and output, and the times of its call and its return. */
  datatype Operation<I, O> = Operation(clientId: int, input: I, call: int, output: O, ret: int)

  /** A sequential specification. `step` answers whether the output is possible in the state, and
      gives the state after the operation. States are compared with `==`. */
  datatype Model<!S, !I, !O> = Model(init: S, step: (S, I, O) -> (bool, S))

  /** `y` returned before `x` was called, so `y` must come first in every linearization. */
  ghost predicate Precedes<I, O>(h: seq<Operation<I, O>>, y: nat, x: nat)
    requires y < |h| && x < |h|
  {
    h[y].ret < h[x].call
  }

  ghost predicate InRange(order: seq<nat>, n: nat) {
    forall i :: 0 <= i < |order| ==> order[i] < n
  }

  /** The state after performing the operations of `order` one by one. */
  ghost function StateAfter<S, I, O>(m: Model<S, I, O>, h: seq<Operation<I, O>>, order: seq<nat>): S
    requires InRange(order, |h|)
  {
    if order == [] then m.init
    else
      var q, x := order[..|order| - 1], order[|order| - 1];
      m.step(StateAfter(m, h, q), h[x].input, h[x].output).1
  }

  /** The model allows operation `x` in state `s`. */
  ghost predicate Allowed<S, I, O>(m: Model<S, I, O>, h: seq<Operation<I, O>>, s: S, x: nat)
    requires x < |h|
  {
    m.step(s, h[x].input, h[x].output).0
  }

  ghost function Next<S, I, O>(m: Model<S, I, O>, h: seq<Operation<I, O>>, s: S, x: nat): S
    requires x < |h|
  {
    m.step(s, h[x].input, h[x].output).1
  }

  /** Every operation of `order` is allowed by the model in the state the earlier ones lead to. */
  ghost predicate Legal<S, I, O>(m: Model<S, I, O>, h: seq<Operation<I, O>>, order: seq<nat>)
    requires InRange(order, |h|)
  {
    forall k :: 0 <= k < |order| ==> Allowed(m, h, StateAfter(m, h, order[..k]), order[k])
  }

  /** No operation is ordered before one that returned before its call. */
  ghost predicate RespectsRealTime<I, O>(h: seq<Operation<I, O>>, order: seq<nat>)
    requires InRange(order, |h|)
  {
    forall i, j :: 0 <= i < j < |order| ==> !Precedes(h, order[j], order[i])
  }

  /** `order` is a total order of all operations, legal for the model, that respects real time. */
  ghost predicate IsLinearization<S, I, O>(m: Model<S, I, O>, h: seq<Operation<I, O>>, order: seq<nat>) {
    && |order| == |h| && InRange(order, |h|) && Distinct(order)
    && RespectsRealTime(h, order)
    && Legal(m, h, order)
  }

  ghost predicate Linearizable<S, I, O>(m: Model<S, I, O>, h: seq<Operation<I, O>>) {
    exists order :: IsLinearization(m, h, order)
  }

  /** Whatever must come before an operation of `order` does come before it. */
  ghost predicate PastClosed<I, O>(h: seq<Operation<I, O>>, order: seq<nat>)
    requires InRange(order, |h|)
  {
    forall k, y :: 0 <= k < |order| && 0 <= y < |h| && Precedes(h, y, order[k]) ==> y in order[..k]
  }

  /** A legal start of a linearization: some operations, in an order that respects real time also
      with regard to the operations left out. */
  ghost predicate IsPartial<S, I, O>(m: Model<S, I, O>, h: seq<Operation<I, O>>, order: seq<nat>) {
    && InRange(order, |h|) && Distinct(order)
    && PastClosed(h, order)
    && Legal(m, h, order)
  }

  ghost function Ids(order: seq<nat>): set<nat> {
    set x | x in order
  }

  /** `x` can be linearized next when the operations of `done` have been linearized. */
  ghost predicate Candidate<I, O>(h: seq<Operation<I, O>>, done: set<nat>, x: nat) {
    && x < |h| && x !in done
    && forall y :: 0 <= y < |h| && y !in done ==> !Precedes(h, y, x)
  }

  // ---------- partial linearizations grow and shrink at the end ----------

  lemma StateExtend<S, I, O>(m: Model<S, I, O>, h: seq<Operation<I, O>>, q: seq<nat>, x: nat)
    requires InRange(q, |h|) && x < |h|
    ensures StateAfter(m, h, q + [x]) == Next(m, h, StateAfter(m, h, q), x)
  {
    assert (q + [x])[..|q|] == q;
  }

  lemma LegalExtend<S, I, O>(m: Model<S, I, O>, h: seq<Operation<I, O>>, q: seq<nat>, x: nat)
    requires InRange(q, |h|) && x < |h|
    ensures Legal(m, h, q + [x]) <==> Legal(m, h, q) && Allowed(m, h, StateAfter(m, h, q), x)
  {
    hide StateAfter, Allowed;
    var o := q + [x];
    assert o[..|q|] == q;
    forall k | 0 <= k < |q|
      ensures o[..k] == q[..k] && o[k] == q[k]
    {
    }
    if Legal(m, h, o) {
      forall k | 0 <= k < |q|
        ensures Allowed(m, h, StateAfter(m, h, q[..k]), q[k])
      {
        assert Allowed(m, h, StateAfter(m, h, o[..k]), o[k]);
      }
      assert Allowed(m, h, StateAfter(m, h, o[..|q|]), o[|q|]);
    }
  }

  lemma PastClosedExtend<I, O>(h: seq<Operation<I, O>>, q: seq<nat>, x: nat)
    requires InRange(q, |h|) && PastClosed(h, q) && x < |h|
    requires forall z :: 0 <= z < |h| && Precedes(h, z, x) ==> z in q
    ensures InRange(q + [x], |h|) && PastClosed(h, q + [x])
  {
    hide Precedes;
    var o := q + [x];
    forall k, y | 0 <= k < |o| && 0 <= y < |h| && Precedes(h, y, o[k])
      ensures y in o[..k]
    {
      if k < |q| {
        assert o[..k] == q[..k];
      } else {
        assert o[..k] == q;
      }
    }
  }

  lemma IsPartialExtend<S, I, O>(m: Model<S, I, O>, h: seq<Operation<I, O>>, order: seq<nat>, x: nat)
    requires IsPartial(m, h, order)
    requires Candidate(h, Ids(order), x)
    requires Allowed(m, h, StateAfter(m, h, order), x)
    ensures IsPartial(m, h, order + [x])
    ensures StateAfter(m, h, order + [x]) == Next(m, h, StateAfter(m, h, order), x)
    ensures Ids(order + [x]) == Ids(order) + {x}
  {
    hide Legal, PastClosed, StateAfter, Allowed, Precedes;
    LegalExtend(m, h, order, x);
    PastClosedExtend(h, order, x);
    StateExtend(m, h, order, x);
  }

  lemma IsPartialPrefix<S, I, O>(m: Model<S, I, O>, h: seq<Operation<I, O>>, order: seq<nat>, n: nat)
    requires IsPartial(m, h, order)
    requires n <= |order|
    ensures IsPartial(m, h, order[..n])
  {
    var o := order[..n];
    forall k | 0 <= k < |o|
      ensures Allowed(m, h, StateAfter(m, h, o[..k]), o[k])
      ensures forall y :: 0 <= y < |h| && Precedes(h, y, o[k]) ==> y in o[..k]
    {
      assert o[..k] == order[..k];
    }
  }

  /** The last operation of a partial linearization was a candidate that the model allowed. */
  lemma IsPartialLast<S, I, O>(m: Model<S, I, O>, h: seq<Operation<I, O>>, order: seq<nat>)
    requires IsPartial(m, h, order)
    requires order != []
    ensures
      var q, x := order[..|order| - 1], order[|order| - 1];
      && IsPartial(m, h, q)
      && Candidate(h, Ids(q), x)
      && Allowed(m, h, StateAfter(m, h, q), x)
      && StateAfter(m, h, order) == Next(m, h, StateAfter(m, h, q), x)
      && Ids(order) == Ids(q) + {x}
  {
    var q, x := order[..|order| - 1], order[|order| - 1];
    IsPartialPrefix(m, h, order, |order| - 1);
    assert order == q + [x];
    forall y | 0 <= y < |h| && Precedes(h, y, x)
      ensures y in q
    {
      assert y in order[..|order| - 1];
    }
  }

  // ---------- counting ----------

  lemma {:induction false} DistinctCount(order: seq<nat>)
    requires Distinct(order)
    ensures |Ids(order)| == |order|
  {
    if order != [] {
      var q, x := order[..|order| - 1], order[|order| - 1];
      DistinctCount(q);
      assert order == q + [x];
      assert Ids(order) == Ids(q) + {x};
    }
  }

  lemma NoIds(s: seq<nat>)
    ensures Ids(s) == {} <==> s == []
  {
    if s != [] {
      assert s[0] in Ids(s);
    }
  }

  /** Distinct ids below `n` are at most `n`, and all of them exactly when there are `n`. */
  lemma IdsBelow(order: seq<nat>, n: nat)
    requires Distinct(order) && InRange(order, n)
    ensures |order| <= n
    ensures |order| == n <==> Ids(order) == Below(n)
  {
    DistinctCount(order);
    SubsetCount(Ids(order), Below(n));
  }

  /** A linearization is a partial linearization that covers the whole history. */
  lemma LinearizationIsCompletePartial<S, I, O>(m: Model<S, I, O>, h: seq<Operation<I, O>>, order: seq<nat>)
    requires forall x :: 0 <= x < |h| ==> h[x].call < h[x].ret
    ensures IsLinearization(m, h, order) <==> IsPartial(m, h, order) && |order| == |h|
  {
    if IsLinearization(m, h, order) {
      IdsBelow(order, |h|);
      forall k, y | 0 <= k < |order| && 0 <= y < |h| && Precedes(h, y, order[k])
        ensures y in order[..k]
      {
        assert y in Ids(order);
        var j :| 0 <= j < |order| && order[j] == y;
        assert j != k;
        assert j < k;
        assert order[..k][j] == y;
      }
    }
    if IsPartial(m, h, order) && |order| == |h| {
      forall i, j | 0 <= i < j < |order|
        ensures !Precedes(h, order[j], order[i])
      {
        assert order[j] !in order[..i];
      }
    }
  }

  /** Linearizability depends only on inputs, outputs and the real-time order. */
  ghost predicate SameShape<I, O>(h: seq<Operation<I, O>>, g: seq<Operation<I, O>>) {
    && |h| == |g|
    && (forall x :: 0 <= x < |h| ==> h[x].input == g[x].input && h[x].output == g[x].output)
    && (forall x, y :: 0 <= x < |h| && 0 <= y < |h| ==> (Precedes(h, y, x) <==> Precedes(g, y, x)))
  }

  lemma {:induction false} SameShapeState<S, I, O>(m: Model<S, I, O>, h: seq<Operation<I, O>>,
                                                   g: seq<Operation<I, O>>, order: seq<nat>)
    requires SameShape(h, g)
    requires InRange(order, |h|)
    ensures StateAfter(m, h, order) == StateAfter(m, g, order)
  {
    if order != [] {
      SameShapeState(m, h, g, order[..|order| - 1]);
    }
  }

  lemma SameShapeLinearization<S, I, O>(m: Model<S, I, O>, h: seq<Operation<I, O>>,
                                        g: seq<Operation<I, O>>, order: seq<nat>)
    requires SameShape(h, g)
    ensures IsLinearization(m, h, order) <==> IsLinearization(m, g, order)
  {
    if InRange(order, |h|) {
      forall k | 0 <= k <= |order| {
        SameShapeState(m, h, g, order[..k]);
      }
    }
  }

  lemma SameShapeLinearizable<S, I, O>(m: Model<S, I, O>, h: seq<Operation<I, O>>, g: seq<Operation<I, O>>)
    requires SameShape(h, g)
    ensures Linearizable(m, h) <==> Linearizable(m, g)
  {
    forall order {
      SameShapeLinearization(m, h, g, order);
    }
  }

  lemma SameShapePartial<S, I, O>(m: Model<S, I, O>, h: seq<Operation<I, O>>, g: seq<Operation<I, O>>, order: seq<nat>)
    requires SameShape(h, g)
    ensures IsPartial(m, h, order) <==> IsPartial(m, g, order)
  {
    hide StateAfter;
    if InRange(order, |h|) {
      forall k | 0 <= k <= |order|
        ensures StateAfter(m, h, order[..k]) == StateAfter(m, g, order[..k])
      {
        SameShapeState(m, h, g, order[..k]);
      }
    }
  }
}
