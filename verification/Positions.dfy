/** How the entries that are left relate to the search: which entry comes first, which comes next,
    and what lifting an operation removes. All facts are about positions; no heap is involved. */
module Positions {
  import opened Basics
  import opened Linearizability
  import opened Search
  import opened Entries
  import opened LinkedEntries

  ghost function Left<I, O>(es: seq<Entry<I, O>>, order: seq<nat>): seq<nat> {
    Pending(es, Ids(order), |es|)
  }

  lemma LeftFacts<I, O>(es: seq<Entry<I, O>>, order: seq<nat>)
    ensures Increasing(Left(es, order))
    ensures forall p: nat :: p in Left(es, order) <==> p < |es| && es[p].id !in order
  {
    PendingFacts(es, Ids(order), |es|);
  }

  lemma NothingLeft<I, O>(es: seq<Entry<I, O>>, calls: seq<nat>, rets: seq<nat>, order: seq<nat>)
    requires Layout(es, calls, rets)
    requires InRange(order, |calls|) && Distinct(order)
    ensures Left(es, order) == [] <==> |order| == |calls|
  {
    LeftFacts(es, order);
    IdsBelow(order, |calls|);
    var left := Left(es, order);
    if left == [] {
      forall x | 0 <= x < |calls|
        ensures x in Ids(order)
      {
        assert calls[x] !in left;
      }
      assert Ids(order) == Below(|calls|);
    } else {
      assert left[0] in left;
      assert es[left[0]].id !in Ids(order);
    }
  }

  /** The first entry left is at or before every pending call and return. */
  lemma FirstLeft<I, O>(es: seq<Entry<I, O>>, calls: seq<nat>, rets: seq<nat>, order: seq<nat>, y: nat)
    requires Layout(es, calls, rets)
    requires y < |calls| && y !in order
    ensures Left(es, order) != []
    ensures Left(es, order)[0] <= calls[y] && Left(es, order)[0] <= rets[y]
  {
    LeftFacts(es, order);
    assert calls[y] in Left(es, order) && rets[y] in Left(es, order);
  }

  /** Moving the cursor one entry on skips nothing that is pending. */
  lemma NextLeft<I, O>(es: seq<Entry<I, O>>, calls: seq<nat>, rets: seq<nat>, order: seq<nat>, x: nat, at: nat)
    requires Layout(es, calls, rets)
    requires x < |calls| && x !in order
    requires at < |Left(es, order)| && Left(es, order)[at] == calls[x]
    ensures at + 1 < |Left(es, order)|
    ensures NextPending(Operations(es, calls, rets), order, x, Left(es, order)[at + 1])
  {
    hide Left;
    LeftFacts(es, order);
    var left := Left(es, order);
    assert rets[x] in left;
    var k :| 0 <= k < |left| && left[k] == rets[x];
    assert at < k;
    forall p: nat | p in left
      ensures p <= left[at] || p >= left[at + 1]
    {
      var i :| 0 <= i < |left| && left[i] == p;
    }
    forall z | 0 <= z < |calls| && z !in order
      ensures calls[z] in left && rets[z] in left
    {
    }
  }

  /** Lifting an operation removes its two entries and nothing else. */
  lemma LeftAfterLift<I, O>(es: seq<Entry<I, O>>, calls: seq<nat>, rets: seq<nat>, order: seq<nat>, x: nat, i: nat,
                            j: nat)
    requires Layout(es, calls, rets)
    requires x < |calls| && x !in order
    requires i < j < |Left(es, order)| && Left(es, order)[i] == calls[x] && Left(es, order)[j] == rets[x]
    ensures WithoutPair(Left(es, order), i, j) == Left(es, order + [x])
  {
    LeftFacts(es, order);
    LeftFacts(es, order + [x]);
    var left := Left(es, order);
    WithoutIncreasing(left, i);
    WithoutIncreasing(Without(left, i), j - 1);
    assert Without(left, i)[j - 1] == rets[x];
    var rest := WithoutPair(left, i, j);
    forall p: nat
      ensures p in Ids(rest) <==> p in Ids(Left(es, order + [x]))
    {
      assert p in Ids(rest) <==> p in left && p != calls[x] && p != rets[x];
    }
    IncreasingUnique(rest, Left(es, order + [x]));
  }

  lemma WithoutIncreasing(s: seq<nat>, a: nat)
    requires Increasing(s) && a < |s|
    ensures Increasing(Without(s, a))
    ensures Ids(Without(s, a)) == Ids(s) - {s[a]}
  {
    WithoutDistinct(s, a);
  }

  /** The nodes at the positions `ps`, behind the head. */
  ghost function NodesAt<I, O>(head: Node<I, O>, nodes: seq<Node<I, O>>, ps: seq<nat>): (r: seq<Node<I, O>>)
    requires forall i :: 0 <= i < |ps| ==> ps[i] < |nodes|
    ensures |r| == |ps| + 1 && r[0] == head
    ensures forall i :: 0 <= i < |ps| ==> r[i + 1] == nodes[ps[i]]
  {
    [head] + seq(|ps|, i requires 0 <= i < |ps| => nodes[ps[i]])
  }

  lemma NodesAtWithoutPair<I, O>(head: Node<I, O>, nodes: seq<Node<I, O>>, ps: seq<nat>, i: nat, j: nat)
    requires forall k :: 0 <= k < |ps| ==> ps[k] < |nodes|
    requires i < j < |ps|
    ensures forall k :: 0 <= k < |WithoutPair<nat>(ps, i, j)| ==> WithoutPair<nat>(ps, i, j)[k] < |nodes|
    ensures WithoutPair(NodesAt(head, nodes, ps), i + 1, j + 1) == NodesAt(head, nodes, WithoutPair<nat>(ps, i, j))
  {
    hide WithoutPair, Skipping;
    var ns, qs := NodesAt(head, nodes, ps), WithoutPair<nat>(ps, i, j);
    var rest := WithoutPair(ns, i + 1, j + 1);
    WithoutPairSize<nat>(ps, i, j);
    WithoutPairSize(ns, i + 1, j + 1);
    forall k | 0 <= k < |qs|
      ensures qs[k] < |nodes|
    {
      WithoutPairAt<nat>(ps, i, j, k);
    }
    forall k | 0 <= k < |qs|
      ensures rest[k + 1] == nodes[qs[k]]
    {
      WithoutPairAt<nat>(ps, i, j, k);
      WithoutPairAt(ns, i + 1, j + 1, k + 1);
      SkippingShifted(i, j, k);
      assert ns[Skipping(i, j, k) + 1] == nodes[ps[Skipping(i, j, k)]];
    }
    WithoutPairAt(ns, i + 1, j + 1, 0);
    SkippingShifted(i, j, 0);
    var all := NodesAt(head, nodes, qs);
    forall k | 0 <= k < |all|
      ensures rest[k] == all[k]
    {
      if k > 0 {
        assert all[(k - 1) + 1] == nodes[qs[k - 1]];
      }
    }
    assert rest == all;
  }

  /** Where an element was before two others were taken out. */
  ghost function Skipping(i: nat, j: nat, k: nat): nat {
    if k < i then k else if k + 1 < j then k + 1 else k + 2
  }

  lemma SkippingShifted(i: nat, j: nat, k: nat)
    requires i < j
    ensures Skipping(i + 1, j + 1, k + 1) == Skipping(i, j, k) + 1
    ensures Skipping(i + 1, j + 1, 0) == 0
  {
  }

  lemma WithoutPairSize<T>(s: seq<T>, i: nat, j: nat)
    requires i < j < |s|
    ensures |WithoutPair(s, i, j)| == |s| - 2
  {
  }

  lemma WithoutPairAt<T>(s: seq<T>, i: nat, j: nat, k: nat)
    requires i < j < |s| && k < |s| - 2
    ensures Skipping(i, j, k) < |s|
    ensures |WithoutPair(s, i, j)| == |s| - 2 && WithoutPair(s, i, j)[k] == s[Skipping(i, j, k)]
  {
  }

  /** The list of the entries that are left, when the operations of `order` have been lifted. */
  ghost function ListFor<I, O>(head: Node<I, O>, nodes: seq<Node<I, O>>, es: seq<Entry<I, O>>,
                               order: seq<nat>): (r: seq<Node<I, O>>)
    requires |nodes| == |es|
    ensures |r| == |Left(es, order)| + 1
  {
    LeftFacts(es, order);
    assert forall i :: 0 <= i < |Left(es, order)| ==> Left(es, order)[i] in Left(es, order);
    NodesAt(head, nodes, Left(es, order))
  }

  /** In the list, lifting an operation removes its two nodes. */
  lemma ListAfterLift<I, O>(head: Node<I, O>, nodes: seq<Node<I, O>>, es: seq<Entry<I, O>>, calls: seq<nat>,
                            rets: seq<nat>, order: seq<nat>, x: nat, i: nat, j: nat)
    requires |nodes| == |es| && Layout(es, calls, rets)
    requires x < |calls| && x !in order
    requires i < j < |Left(es, order)| && Left(es, order)[i] == calls[x] && Left(es, order)[j] == rets[x]
    ensures WithoutPair(ListFor(head, nodes, es, order), i + 1, j + 1) == ListFor(head, nodes, es, order + [x])
  {
    hide Left, WithoutPair, Layout, Increasing;
    LeftFacts(es, order);
    assert forall k :: 0 <= k < |Left(es, order)| ==> Left(es, order)[k] in Left(es, order);
    NodesAtWithoutPair(head, nodes, Left(es, order), i, j);
    LeftAfterLift(es, calls, rets, order, x, i, j);
  }

  lemma ListForAt<I, O>(head: Node<I, O>, nodes: seq<Node<I, O>>, es: seq<Entry<I, O>>, order: seq<nat>, i: nat)
    requires |nodes| == |es| && i < |Left(es, order)|
    ensures Left(es, order)[i] < |nodes|
    ensures ListFor(head, nodes, es, order)[i + 1] == nodes[Left(es, order)[i]]
  {
    hide Left;
    LeftFacts(es, order);
    assert Left(es, order)[i] in Left(es, order);
  }

  /** The stack of lifted pairs is the stack of linearized operations. */
  ghost predicate LiftedFor<I, O>(stack: Stack<I, O>, head: Node<I, O>, nodes: seq<Node<I, O>>, es: seq<Entry<I, O>>,
                                  calls: seq<nat>, order: seq<nat>)
    requires |nodes| == |es|
  {
    if order == [] then stack == Bottom
    else
      var q, x := order[..|order| - 1], order[|order| - 1];
      && stack.Lifted?
      && stack.top.list == ListFor(head, nodes, es, q)
      && stack.top.a < |stack.top.list|
      && x < |calls| && calls[x] < |nodes|
      && stack.top.list[stack.top.a] == nodes[calls[x]]
      && LiftedFor(stack.below, head, nodes, es, calls, q)
  }

  /** Before anything is linearized, all entries are left. */
  lemma AllLeft<I, O>(head: Node<I, O>, nodes: seq<Node<I, O>>, es: seq<Entry<I, O>>)
    requires |nodes| == |es|
    ensures |Left(es, [])| == |es|
    ensures forall i :: 0 <= i < |es| ==> Left(es, [])[i] == i
    ensures ListFor(head, nodes, es, []) == [head] + nodes
  {
    LeftFacts(es, []);
    var all: seq<nat> := seq(|es|, i => i);
    forall p: nat
      ensures p in Ids(all) <==> p in Ids(Left(es, []))
    {
      assert p < |es| ==> all[p] == p;
    }
    IncreasingUnique(all, Left(es, []));
  }
}
