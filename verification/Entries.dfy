/** Histories as the checker reads them: call and return entries in time order. */
module Entries {
  import opened Basics
  import opened Linearizability
  import opened Search

  datatype Entry<I, O> =
    | CallEntry(input: I, id: nat, time: int, clientId: int)
    | ReturnEntry(output: O, id: nat, time: int, clientId: int)

  /** Operation `x` is called at position `calls[x]` and returns at position `rets[x]`, and there
      are no other entries. */
  ghost predicate Layout<I, O>(es: seq<Entry<I, O>>, calls: seq<nat>, rets: seq<nat>) {
    && |es| == 2 * |calls| && |rets| == |calls|
    && (forall x :: 0 <= x < |calls| ==>
          && calls[x] < rets[x] < |es|
          && es[calls[x]].CallEntry? && es[calls[x]].id == x
          && es[rets[x]].ReturnEntry? && es[rets[x]].id == x)
    && (forall p :: 0 <= p < |es| ==>
          && es[p].id < |calls|
          && p == if es[p].CallEntry? then calls[es[p].id] else rets[es[p].id])
  }

  /** Every operation has one call and, later, one return; the ids are 0 to n-1. */
  ghost predicate WellFormed<I, O>(es: seq<Entry<I, O>>) {
    exists calls, rets :: Layout(es, calls, rets)
  }

  /** The operations of a list of entries, with positions as times. */
  ghost function Operations<I, O>(es: seq<Entry<I, O>>, calls: seq<nat>, rets: seq<nat>): (h: seq<Operation<I, O>>)
    requires Layout(es, calls, rets)
    ensures |h| == |calls|
  {
    seq(|calls|, x requires 0 <= x < |calls| =>
      Operation(es[calls[x]].clientId, es[calls[x]].input, calls[x], es[rets[x]].output, rets[x]))
  }

  ghost function HistoryOf<I, O>(es: seq<Entry<I, O>>): seq<Operation<I, O>>
    requires WellFormed(es)
  {
    var calls, rets :| Layout(es, calls, rets);
    Operations(es, calls, rets)
  }

  lemma HistoryOfLayout<I, O>(es: seq<Entry<I, O>>, calls: seq<nat>, rets: seq<nat>)
    requires Layout(es, calls, rets)
    ensures WellFormed(es) && HistoryOf(es) == Operations(es, calls, rets)
  {
    assert WellFormed(es);
    var c, r :| Layout(es, c, r) && HistoryOf(es) == Operations(es, c, r);
    LayoutUnique(es, c, r, calls, rets);
  }

  lemma LayoutUnique<I, O>(es: seq<Entry<I, O>>, c1: seq<nat>, r1: seq<nat>, c2: seq<nat>, r2: seq<nat>)
    requires Layout(es, c1, r1) && Layout(es, c2, r2)
    ensures c1 == c2 && r1 == r2
  {
    forall x | 0 <= x < |c1|
      ensures c1[x] == c2[x] && r1[x] == r2[x]
    {
      assert es[c1[x]].id == x && es[r1[x]].id == x;
    }
  }

  lemma LayoutAt<I, O>(es: seq<Entry<I, O>>, calls: seq<nat>, rets: seq<nat>, x: nat)
    requires Layout(es, calls, rets) && x < |calls|
    ensures |rets| == |calls| && calls[x] < rets[x] < |es|
    ensures es[calls[x]].CallEntry? && es[calls[x]].id == x
    ensures es[rets[x]].ReturnEntry? && es[rets[x]].id == x
    ensures Operations(es, calls, rets)[x].call == calls[x] && Operations(es, calls, rets)[x].ret == rets[x]
  {
  }

  lemma OperationsShape<I, O>(es: seq<Entry<I, O>>, calls: seq<nat>, rets: seq<nat>)
    requires Layout(es, calls, rets)
    ensures Overlapping(Operations(es, calls, rets)) && NoTies(Operations(es, calls, rets))
  {
  }

  // ---------- the entries that are left when some operations have been linearized ----------

  /** The positions below `m` of the entries whose operations are not in `done`, in order. */
  ghost function Pending<I, O>(es: seq<Entry<I, O>>, done: set<nat>, m: nat): seq<nat>
    requires m <= |es|
  {
    if m == 0 then [] else Pending(es, done, m - 1) + if es[m - 1].id in done then [] else [m - 1]
  }

  ghost predicate Increasing(s: seq<nat>) {
    forall i, j :: 0 <= i < j < |s| ==> s[i] < s[j]
  }

  lemma {:induction false} PendingFacts<I, O>(es: seq<Entry<I, O>>, done: set<nat>, m: nat)
    requires m <= |es|
    ensures Increasing(Pending(es, done, m))
    ensures forall p: nat :: p in Pending(es, done, m) <==> p < m && es[p].id !in done
  {
    if m > 0 {
      PendingFacts(es, done, m - 1);
      var s := Pending(es, done, m - 1);
      assert forall i :: 0 <= i < |s| ==> s[i] in s;
    }
  }

  lemma LastIsLargest(s: seq<nat>)
    requires Increasing(s) && s != []
    ensures s[|s| - 1] in Ids(s)
    ensures forall p :: p in Ids(s) ==> p <= s[|s| - 1]
    ensures Ids(s[..|s| - 1]) == Ids(s) - {s[|s| - 1]}
  {
    assert s == s[..|s| - 1] + [s[|s| - 1]];
  }

  /** An increasing sequence is determined by its elements. */
  lemma {:induction false} IncreasingUnique(s: seq<nat>, t: seq<nat>)
    requires Increasing(s) && Increasing(t)
    requires Ids(s) == Ids(t)
    ensures s == t
    decreases |s|
  {
    NoIds(s);
    NoIds(t);
    if s != [] {
      LastIsLargest(s);
      LastIsLargest(t);
      IncreasingUnique(s[..|s| - 1], t[..|t| - 1]);
      assert t == t[..|t| - 1] + [t[|t| - 1]];
      assert s == s[..|s| - 1] + [s[|s| - 1]];
    }
  }
}
