/** The search for a linearization of one partition, with the data structures of the checker:
    linked nodes, a stack of calls, a working bit set and a cache of configurations. */
module Checker {
  import opened Basics
  import opened Linearizability
  import opened Search
  import opened Entries
  import opened Bitset
  import opened StateCache
  import opened LinkedEntries
  import opened Positions

  // ---------- building the list ----------

  /** Entry `p` is carried by node `p - base`, and a call points to the node of its return. */
  ghost predicate Carries<I, O>(nodes: seq<Node<I, O>>, es: seq<Entry<I, O>>, rets: seq<nat>, base: nat, p: nat)
    requires base <= p < |es| == base + |nodes|
  {
    && nodes[p - base].id == es[p].id
    && match es[p]
       case CallEntry(input, id, _, _) =>
         && nodes[p - base].value == Input(input)
         && id < |rets| && base <= rets[id] < |es| && nodes[p - base].match_ == nodes[rets[id] - base]
       case ReturnEntry(output, _, _, _) =>
         nodes[p - base].value == Output(output) && nodes[p - base].match_ == null
  }

  ghost predicate AllCarried<I, O>(nodes: seq<Node<I, O>>, es: seq<Entry<I, O>>, rets: seq<nat>, base: nat)
    requires |es| == base + |nodes|
  {
    forall p :: base <= p < |es| ==> Carries(nodes, es, rets, base, p)
  }

  lemma CarryOneMore<I, O>(n: Node<I, O>, nodes: seq<Node<I, O>>, es: seq<Entry<I, O>>, rets: seq<nat>, base: nat)
    requires |es| == base + 1 + |nodes| && AllCarried(nodes, es, rets, base + 1)
    requires Carries([n] + nodes, es, rets, base, base)
    ensures AllCarried([n] + nodes, es, rets, base)
  {
    forall p | base < p < |es|
      ensures Carries([n] + nodes, es, rets, base, p)
    {
      assert Carries(nodes, es, rets, base + 1, p);
    }
  }

  /** The nodes of the returns seen so far can be found by their ids. */
  ghost predicate Matched<I, O>(rets: seq<nat>, nodes: seq<Node<I, O>>, base: nat, matches: map<nat, Node<I, O>>) {
    forall x :: 0 <= x < |rets| && base <= rets[x] < base + |nodes| ==>
      x in matches && matches[x] == nodes[rets[x] - base]
  }

  lemma NewNodeCarries<I, O>(n: Node<I, O>, nodes: seq<Node<I, O>>, es: seq<Entry<I, O>>, calls: seq<nat>,
                             rets: seq<nat>, i: nat, matches: map<nat, Node<I, O>>)
    requires Layout(es, calls, rets) && i < |es| && |nodes| == |es| - (i + 1) && Matched(rets, nodes, i + 1, matches)
    requires n.id == es[i].id
    requires es[i].CallEntry? ==>
               && n.value == Input(es[i].input)
               && n.match_ == if es[i].id in matches then matches[es[i].id] else null
    requires es[i].ReturnEntry? ==> n.value == Output(es[i].output) && n.match_ == null
    ensures Carries([n] + nodes, es, rets, i, i)
    ensures Matched(rets, [n] + nodes, i, if es[i].ReturnEntry? then matches[es[i].id := n] else matches)
  {
    var matches' := if es[i].ReturnEntry? then matches[es[i].id := n] else matches;
    var nodes' := [n] + nodes;
    forall x | 0 <= x < |rets| && i <= rets[x] < i + |nodes'|
      ensures x in matches' && matches'[x] == nodes'[rets[x] - i]
    {
      if rets[x] != i {
        assert nodes'[rets[x] - i] == nodes[rets[x] - (i + 1)];
      }
    }
  }

  method MakeLinkedEntries<I, O>(es: seq<Entry<I, O>>, ghost calls: seq<nat>, ghost rets: seq<nat>)
      returns (root: Node?<I, O>, ghost nodes: seq<Node<I, O>>)
    requires Layout(es, calls, rets)
    ensures |nodes| == |es| && Linked(nodes) && root == At(nodes, 0)
    ensures forall k :: 0 <= k < |nodes| ==> fresh(nodes[k])
    ensures AllCarried(nodes, es, rets, 0)
  {
    root, nodes := null, [];
    var matches: map<nat, Node<I, O>> := map[];
    var i := |es|;
    assert Linked(nodes) && AllCarried(nodes, es, rets, i) && Matched(rets, nodes, i, matches);
    hide Layout, Linked, AllCarried, Carries, Matched;
    while i > 0
      invariant 0 <= i <= |es| && |nodes| == |es| - i
      invariant Linked(nodes) && root == At(nodes, 0)
      invariant forall k :: 0 <= k < |nodes| ==> fresh(nodes[k])
      invariant Matched(rets, nodes, i, matches) && AllCarried(nodes, es, rets, i)
    {
      i := i - 1;
      var elem := es[i];
      var n;
      if elem.ReturnEntry? {
        n := new Node<I, O>(Output(elem.output), null, elem.id);
        NewNodeCarries(n, nodes, es, calls, rets, i, matches);
        matches := matches[elem.id := n];
      } else {
        n := new Node<I, O>(Input(elem.input), if elem.id in matches then matches[elem.id] else null, elem.id);
        NewNodeCarries(n, nodes, es, calls, rets, i, matches);
      }
      CarryOneMore(n, nodes, es, rets, i);
      InsertBefore(n, root, nodes, 0);
      assert nodes[..0] + [n] + nodes[0..] == [n] + nodes;
      nodes := [n] + nodes;
      root := n;
    }
  }

  // ---------- the search ----------

  datatype CallsEntry<!S, !I, !O> = CallsEntry(entry: Node<I, O>, state: S)

  /** The entries of a partition, where the calls and returns are, and the node of every entry. */
  datatype Setup<!I, !O> = Setup(es: seq<Entry<I, O>>, calls: seq<nat>, rets: seq<nat>, nodes: seq<Node<I, O>>,
                                 head: Node<I, O>) {
    ghost predicate Valid() {
      && Layout(es, calls, rets)
      && |nodes| == |es|
      && AllCarried(nodes, es, rets, 0)
      && head.match_ == null
    }

    ghost function History(): seq<Operation<I, O>>
      requires Layout(es, calls, rets)
    {
      Operations(es, calls, rets)
    }
  }

  /** The list with its head, before anything is linearized. */
  method BuildList<I, O>(es: seq<Entry<I, O>>, ghost calls: seq<nat>, ghost rets: seq<nat>)
      returns (list: EntryList<I, O>, root: Node?<I, O>, n: nat, ghost su: Setup<I, O>)
    requires Layout(es, calls, rets)
    ensures fresh(list) && fresh(list.nodes) && list.Valid()
    ensures su.Valid() && su.es == es && su.calls == calls && su.rets == rets && su.head == list.head
    ensures list.list == ListFor(su.head, su.nodes, es, []) && list.lifted == Bottom
    ensures n == |calls| && |es| == 2 * n && root == At(su.nodes, 0)
    ensures n > 0 ==> Left(es, []) != [] && Left(es, [])[0] == 0
  {
    ghost var nodes;
    root, nodes := MakeLinkedEntries(es, calls, rets);
    var length := Length(root, nodes);
    n := length / 2;
    list := new EntryList<I, O>(root, nodes);
    AllLeft(list.head, nodes, es);
    su := Setup(es, calls, rets, nodes, list.head);
  }

  /** The stack of calls carries the linearized operations, each with the state before it. */
  ghost predicate CallsMatch<S, I, O>(su: Setup<I, O>, st: State<S>, calls: seq<CallsEntry<S, I, O>>)
    requires su.Valid()
  {
    && |calls| == |st.order| < |st.levels|
    && forall k :: 0 <= k < |calls| ==>
         && 0 <= st.order[k] < |su.calls|
         && calls[k].entry == su.nodes[su.calls[st.order[k]]]
         && calls[k].state == st.levels[k].1
  }

  /** The cursor is at entry `at` of those that are left. */
  ghost predicate CursorAt<S, I, O>(su: Setup<I, O>, st: State<S>, entry: Node?<I, O>, at: nat)
    requires su.Valid()
  {
    && at < |Left(su.es, st.order)|
    && st.cursor == Left(su.es, st.order)[at]
    && 0 <= st.cursor < |su.es|
    && entry == su.nodes[st.cursor]
  }

  ghost predicate SearchMatches<S, I, O>(model: Model<S, I, O>, partial: bool, su: Setup<I, O>, st: State<S>,
                                         calls: seq<CallsEntry<S, I, O>>, state: S, longest: seq<Option<seq<nat>>>)
    requires su.Valid()
  {
    && Inv(model, su.History(), partial, st)
    && CallsMatch(su, st, calls)
    && state == st.Top().1
    && longest == st.longest
  }

  lemma StartedMatches<S, I, O>(model: Model<S, I, O>, partial: bool, su: Setup<I, O>)
    requires su.Valid()
    ensures SearchMatches(model, partial, su, Started(model, su.History(), 0), [], model.init,
              Started(model, su.History(), 0).longest)
  {
    hide AllCarried;
    StartedInv(model, su.History(), partial, 0);
  }

  /** The list is always the entries minus the operations on the stack. */
  ghost predicate ListMatches<I, O>(list: EntryList<I, O>, su: Setup<I, O>, order: seq<nat>)
    requires |su.nodes| == |su.es|
    reads list, list.nodes
  {
    && list.Valid()
    && list.list == ListFor(su.head, su.nodes, su.es, order)
    && LiftedFor(list.lifted, su.head, su.nodes, su.es, su.calls, order)
  }

  /** The bit set holds the ids on the stack, and no cached bit set is the working one. */
  ghost predicate BitsMatch<S>(cache: Cache<S>, linearized: array<Word>, n: nat, order: seq<nat>,
                               contents: set<Config<S>>)
    reads cache, cache.frozen, linearized
  {
    && cache.Valid() && cache.contents == contents
    && cache.chunks == linearized.Length == Chunks(n)
    && linearized !in cache.frozen
    && Members(linearized[..]) == Ids(order)
  }

  lemma NextNode<I, O>(list: EntryList<I, O>, su: Setup<I, O>, order: seq<nat>, at: nat)
    requires |su.nodes| == |su.es| && ListMatches(list, su, order)
    requires at + 1 < |Left(su.es, order)|
    ensures Left(su.es, order)[at] < |su.nodes| && Left(su.es, order)[at + 1] < |su.nodes|
    ensures su.nodes[Left(su.es, order)[at]].next == su.nodes[Left(su.es, order)[at + 1]]
  {
    LeftFacts(su.es, order);
    var left := Left(su.es, order);
    assert left[at] in left && left[at + 1] in left;
    assert list.list[at + 1] == su.nodes[left[at]];
    assert list.list[at + 2] == su.nodes[left[at + 1]];
    assert list.list[at + 1].next == At(list.list, at + 2);
  }

  lemma SkipStep<S, I, O>(model: Model<S, I, O>, partial: bool, su: Setup<I, O>, st: State<S>,
                          calls: seq<CallsEntry<S, I, O>>, state: S, longest: seq<Option<seq<nat>>>,
                          entry: Node<I, O>, at: nat) returns (next: int)
    requires su.Valid() && SearchMatches(model, partial, su, st, calls, state, longest)
    requires CursorAt(su, st, entry, at) && AtCall(su, st, entry, su.es[st.cursor].id)
    requires
      var x := su.es[st.cursor].id;
      Allowed(model, su.History(), state, x) ==> Successor(model, su.History(), st.Top(), x) in st.cache
    ensures at + 1 < |Left(su.es, st.order)| && next == Left(su.es, st.order)[at + 1]
    ensures st.cursor < next < |su.es|
    ensures SearchMatches(model, partial, su, st.(cursor := next), calls, state, longest)
  {
    hide Inv, Candidate, NextPending, AllCarried, Pending;
    var x := su.es[st.cursor].id;
    NextLeft(su.es, su.calls, su.rets, st.order, x, at);
    var left := Left(su.es, st.order);
    LeftFacts(su.es, st.order);
    next := left[at + 1];
    assert next in left;
    SkipKeepsInv(model, su.History(), partial, st, x, next);
  }

  // ---------- pushing ----------

  ghost function FirstCursor<I, O>(es: seq<Entry<I, O>>, order: seq<nat>): int {
    if Left(es, order) == [] then |es| else Left(es, order)[0]
  }

  lemma PushStep<S, I, O>(model: Model<S, I, O>, partial: bool, su: Setup<I, O>, st: State<S>,
                          calls: seq<CallsEntry<S, I, O>>, state: S, longest: seq<Option<seq<nat>>>,
                          entry: Node<I, O>, at: nat)
    requires su.Valid() && SearchMatches(model, partial, su, st, calls, state, longest)
    requires CursorAt(su, st, entry, at) && AtCall(su, st, entry, su.es[st.cursor].id)
    requires Allowed(model, su.History(), state, su.es[st.cursor].id)
    ensures
      var x := su.es[st.cursor].id;
      var st' := Pushed(model, su.History(), st, x, FirstCursor(su.es, st.order + [x]));
      && SearchMatches(model, partial, su, st', calls + [CallsEntry(entry, state)],
                       Next(model, su.History(), state, x), longest)
      && Reached(model, su.History(), Successor(model, su.History(), st.Top(), x))
      && (|st'.order| < |su.calls| ==>
            && Left(su.es, st'.order) != [] && st'.cursor < |su.nodes|
            && CursorAt(su, st', FirstNode(su, st'.order), 0))
  {
    hide Inv, Candidate, AllCarried, Left, Reached, ListFor, Layout, FirstNode;
    InvShaped(model, su.History(), partial, st);
    var x := su.es[st.cursor].id;
    var order' := st.order + [x];
    var first := FirstCursor(su.es, order');
    forall y | 0 <= y < |su.calls| && y !in st.order && y != x
      ensures su.History()[y].call >= first && su.History()[y].ret >= first
    {
      assert y !in order';
      LayoutAt(su.es, su.calls, su.rets, y);
      FirstLeft(su.es, su.calls, su.rets, order', y);
    }
    PushKeepsInv(model, su.History(), partial, st, x, first);
    PushedCursor(model, su, st, x);
  }

  lemma PushedCursor<S, I, O>(model: Model<S, I, O>, su: Setup<I, O>, st: State<S>, x: nat)
    requires su.Valid() && st.Shaped(|su.calls|) && x < |su.calls| && x !in st.order
    ensures
      var st' := Pushed(model, su.History(), st, x, FirstCursor(su.es, st.order + [x]));
      |st'.order| < |su.calls| ==>
        && Left(su.es, st'.order) != [] && st'.cursor < |su.nodes|
        && CursorAt(su, st', FirstNode(su, st'.order), 0)
  {
    hide AllCarried, Pending;
    var order' := st.order + [x];
    NothingLeft(su.es, su.calls, su.rets, order');
    LeftFacts(su.es, order');
    if Left(su.es, order') != [] {
      assert Left(su.es, order')[0] in Left(su.es, order');
    }
  }

  /** Where the call and the return of `x` are in the list, and what the list is without them. */
  lemma LiftIndices<I, O>(su: Setup<I, O>, order: seq<nat>, x: nat, at: nat) returns (k: nat)
    requires su.Valid()
    requires x < |su.calls| && x !in order
    requires at < |Left(su.es, order)| && Left(su.es, order)[at] == su.calls[x]
    ensures at < k < |Left(su.es, order)|
    ensures
      var list := ListFor(su.head, su.nodes, su.es, order);
      && list[at + 1] == su.nodes[su.calls[x]]
      && list[k + 1] == su.nodes[su.calls[x]].match_
      && WithoutPair(list, at + 1, k + 1) == ListFor(su.head, su.nodes, su.es, order + [x])
  {
    hide Left, WithoutPair, AllCarried, Layout, Increasing, ListFor;
    LayoutAt(su.es, su.calls, su.rets, x);
    var left := Left(su.es, order);
    LeftFacts(su.es, order);
    assert su.rets[x] in left;
    k :| 0 <= k < |left| && left[k] == su.rets[x];
    CarriedAt(su, su.calls[x]);
    LiftOrder(su, order, x, at, k);
    ListForAt(su.head, su.nodes, su.es, order, at);
    ListForAt(su.head, su.nodes, su.es, order, k);
    ListAfterLift(su.head, su.nodes, su.es, su.calls, su.rets, order, x, at, k);
  }

  lemma LiftOrder<I, O>(su: Setup<I, O>, order: seq<nat>, x: nat, at: nat, k: nat)
    requires su.Valid() && x < |su.calls| && |su.rets| == |su.calls|
    requires at < |Left(su.es, order)| && Left(su.es, order)[at] == su.calls[x]
    requires k < |Left(su.es, order)| && Left(su.es, order)[k] == su.rets[x]
    ensures at < k
  {
    LeftFacts(su.es, order);
    LayoutAt(su.es, su.calls, su.rets, x);
  }

  /** Lifts the operation at the cursor out of the list. */
  method LiftAt<I, O>(list: EntryList<I, O>, ghost su: Setup<I, O>, ghost order: seq<nat>, entry: Node<I, O>,
                      ghost x: nat, ghost at: nat)
    requires su.Valid() && su.head == list.head && ListMatches(list, su, order)
    requires x < |su.calls| && x !in order
    requires at < |Left(su.es, order)| && Left(su.es, order)[at] == su.calls[x]
    requires entry == su.nodes[su.calls[x]]
    modifies list, list.nodes
    ensures ListMatches(list, su, order + [x])
    ensures list.head.next == FirstNode(su, order + [x])
  {
    hide EntryList.Valid, Left, WithoutPair, AllCarried, ListFor;
    ghost var k := LiftIndices(su, order, x, at);
    list.Lift(entry, at + 1, k + 1);
    assert (order + [x])[..|order|] == order;
    FirstOfList(list, su, order + [x]);
  }

  ghost function FirstNode<I, O>(su: Setup<I, O>, order: seq<nat>): Node?<I, O>
    requires |su.nodes| == |su.es|
  {
    At(ListFor(su.head, su.nodes, su.es, order), 1)
  }

  lemma FirstOfList<I, O>(list: EntryList<I, O>, su: Setup<I, O>, order: seq<nat>)
    requires |su.nodes| == |su.es| && su.head == list.head && ListMatches(list, su, order)
    ensures list.head.next == FirstNode(su, order)
  {
    assert list.list[0].next == At(list.list, 1);
  }

  lemma CarriedAt<I, O>(su: Setup<I, O>, p: nat)
    requires su.Valid() && p < |su.es|
    ensures Carries(su.nodes, su.es, su.rets, 0, p)
  {
  }

  /** Caches the new configuration and marks the operation in the working bit set. */
  method MarkAt<S(==)>(cache: Cache<S>, linearized: array<Word>, fresh_: CacheEntry<S>, id: nat,
                       ghost n: nat, ghost order: seq<nat>, ghost contents: set<Config<S>>)
    requires BitsMatch(cache, linearized, n, order, contents)
    requires id < n && fresh_.linearized != linearized && fresh_.linearized.Length == linearized.Length
    requires Members(fresh_.linearized[..]) == Ids(order) + {id}
    modifies cache, linearized
    ensures BitsMatch(cache, linearized, n, order + [id], contents + {(Ids(order) + {id}, fresh_.state)})
    ensures cache.frozen == old(cache.frozen) + {fresh_.linearized}
  {
    hide Represents, Members;
    cache.Add(fresh_);
    Set(linearized, id);
    assert Ids(order + [id]) == Ids(order) + {id};
  }

  // ---------- backtracking ----------

  /** Where the call of the top operation was, and which entry came next. */
  lemma PopCursor<I, O>(su: Setup<I, O>, q: seq<nat>, x: nat) returns (at': nat, next: int)
    requires su.Valid() && x < |su.calls| && x !in q
    ensures at' + 1 < |Left(su.es, q)|
    ensures Left(su.es, q)[at'] == su.calls[x] && next == Left(su.es, q)[at' + 1]
    ensures 0 <= next < |su.es|
    ensures NextPending(su.History(), q, x, next)
  {
    hide Left, AllCarried, Layout, NextPending, Increasing;
    LayoutAt(su.es, su.calls, su.rets, x);
    LeftFacts(su.es, q);
    assert su.calls[x] in Left(su.es, q);
    at' :| 0 <= at' < |Left(su.es, q)| && Left(su.es, q)[at'] == su.calls[x];
    NextLeft(su.es, su.calls, su.rets, q, x, at');
    next := Left(su.es, q)[at' + 1];
    assert next in Left(su.es, q);
  }

  /** After taking back the top operation, the cursor goes to the entry after its call. */
  lemma PopStep<S, I, O>(model: Model<S, I, O>, partial: bool, su: Setup<I, O>, st: State<S>,
                         calls: seq<CallsEntry<S, I, O>>, state: S, longest: seq<Option<seq<nat>>>,
                         entry: Node<I, O>, at: nat, longest': seq<Option<seq<nat>>>, at': nat, next: int)
    requires su.Valid() && SearchMatches(model, partial, su, st, calls, state, longest)
    requires CursorAt(su, st, entry, at) && entry.match_ == null
    requires calls != []
    requires if partial then RecordedStack(longest, st.order, longest') else longest' == longest
    requires st.order[|st.order| - 1] < |su.calls|
    requires NextPending(su.History(), st.order[..|st.order| - 1], st.order[|st.order| - 1], next)
    requires
      var left := Left(su.es, st.order[..|st.order| - 1]);
      at' + 1 < |left| && next == left[at' + 1] && 0 <= next < |su.es|
    ensures st.levels != [] && CursorAt(su, Popped(st, longest', next), su.nodes[next], at' + 1)
    ensures SearchMatches(model, partial, su, Popped(st, longest', next), calls[..|calls| - 1],
              calls[|calls| - 1].state, longest')
  {
    hide Inv, Left, AllCarried, Layout, NextPending, RecordedStack, Overlapping, NoTies;
    InvShaped(model, su.History(), partial, st);
    var y := CursorAtReturn(su, st, entry, at);
    OperationsShape(su.es, su.calls, su.rets);
    PopKeepsInv(model, su.History(), partial, st, y, longest', next);
  }

  /** What the stack of calls says about the operations on it. */
  lemma CallsFacts<S, I, O>(model: Model<S, I, O>, partial: bool, su: Setup<I, O>, st: State<S>,
                            calls: seq<CallsEntry<S, I, O>>, state: S, longest: seq<Option<seq<nat>>>)
    requires su.Valid() && SearchMatches(model, partial, su, st, calls, state, longest)
    ensures |calls| == |st.order| && |st.levels| == |st.order| + 1 && |longest| == |su.calls|
    ensures InRange(st.order, |su.calls|) && Distinct(st.order) && longest == st.longest
    ensures forall k :: 0 <= k < |calls| ==>
              st.order[k] < |su.calls| && su.calls[st.order[k]] < |su.nodes| &&
                  calls[k].entry == su.nodes[su.calls[st.order[k]]] && calls[k].entry.id == st.order[k]
  {
    hide Inv, AllCarried, Layout;
    InvShaped(model, su.History(), partial, st);
    forall k | 0 <= k < |calls|
      ensures su.calls[st.order[k]] < |su.nodes| && calls[k].entry.id == st.order[k]
    {
      LayoutAt(su.es, su.calls, su.rets, st.order[k]);
      CarriedAt(su, su.calls[st.order[k]]);
    }
  }

  /** Puts the top operation back in the list. */
  method UnliftTop<I, O>(list: EntryList<I, O>, ghost su: Setup<I, O>, ghost order: seq<nat>, entry: Node<I, O>)
    requires su.Valid() && su.head == list.head && ListMatches(list, su, order)
    requires order != [] && order[|order| - 1] < |su.calls|
    requires entry == su.nodes[su.calls[order[|order| - 1]]]
    modifies list, list.nodes
    ensures ListMatches(list, su, order[..|order| - 1])
  {
    hide EntryList.Valid, ListFor, AllCarried;
    list.Unlift(entry);
  }

  /** Clears the top operation in the working bit set. The cached bit sets are not touched. */
  method ClearTop<S(==)>(ghost cache: Cache<S>, linearized: array<Word>, id: nat,
                         ghost n: nat, ghost order: seq<nat>, ghost contents: set<Config<S>>)
    requires BitsMatch(cache, linearized, n, order, contents)
    requires order != [] && Distinct(order) && id == order[|order| - 1] < n
    modifies linearized
    ensures BitsMatch(cache, linearized, n, order[..|order| - 1], contents)
  {
    hide Represents, Members;
    Clear(linearized, id);
    assert order == order[..|order| - 1] + [id];
    assert Ids(order[..|order| - 1]) == Ids(order) - {id};
  }

  /** The lazy update of the longest partial linearizations at a backtrack. */
  method RecordLongest<S, I, O>(calls: seq<CallsEntry<S, I, O>>, longest: seq<Option<seq<nat>>>, ghost order: seq<nat>)
      returns (longest': seq<Option<seq<nat>>>)
    requires |calls| == |order| && InRange(order, |longest|) && Distinct(order)
    requires forall k :: 0 <= k < |calls| ==> calls[k].entry.id == order[k]
    ensures RecordedStack(longest, order, longest')
  {
    longest' := longest;
    var created: Option<seq<nat>> := None;
    for i := 0 to |calls|
      invariant |longest'| == |longest|
      invariant created.Some? ==> created.value == order
      invariant forall x :: 0 <= x < |longest| ==>
                  longest'[x] ==
                    if x in order[..i] && (longest[x].None? || |order| > |longest[x].value|) then Some(order)
                    else longest[x]
    {
      var id := calls[i].entry.id;
      assert id !in order[..i];
      if longest'[id].None? || |calls| > |longest'[id].value| {
        if created.None? {
          var ids := CallIds(calls, order);
          created := Some(ids);
        }
        longest' := longest'[id := created];
      }
      assert order[..i + 1] == order[..i] + [order[i]];
    }
    assert order[..|order|] == order;
  }

  method CallIds<S, I, O>(calls: seq<CallsEntry<S, I, O>>, ghost order: seq<nat>) returns (ids: seq<nat>)
    requires |calls| == |order|
    requires forall k :: 0 <= k < |calls| ==> calls[k].entry.id == order[k]
    ensures ids == order
  {
    ids := [];
    for i := 0 to |calls|
      invariant ids == order[..i]
    {
      ids := ids + [calls[i].entry.id];
    }
  }

  // ---------- the cursor ----------

  /** What is at the cursor: the call of an operation that can be linearized next. */
  ghost predicate AtCall<S, I, O>(su: Setup<I, O>, st: State<S>, entry: Node<I, O>, x: nat)
    requires su.Valid()
  {
    && x < |su.calls| && x !in st.order
    && entry.id == x
    && su.History()[x].call == st.cursor
    && Candidate(su.History(), Ids(st.order), x)
    && entry.match_ == su.nodes[su.rets[x]]
    && entry.value == Input(su.History()[x].input)
    && su.nodes[su.rets[x]].value == Output(su.History()[x].output)
  }

  lemma CursorAtCall<S, I, O>(m: Model<S, I, O>, su: Setup<I, O>, st: State<S>, entry: Node<I, O>, at: nat)
    requires su.Valid()
    requires st.Shaped(|su.calls|) && Progress(m, su.History(), st)
    requires CursorAt(su, st, entry, at)
    requires entry.match_ != null
    ensures AtCall(su, st, entry, su.es[st.cursor].id)
  {
    LeftFacts(su.es, st.order);
    var p := st.cursor;
    assert p in Left(su.es, st.order);
    assert Carries(su.nodes, su.es, su.rets, 0, p);
    var x := su.es[p].id;
    assert Carries(su.nodes, su.es, su.rets, 0, su.rets[x]);
    forall y | 0 <= y < |su.calls| && y !in Ids(st.order)
      ensures !Precedes(su.History(), y, x)
    {
      assert y !in st.order;
    }
  }

  /** Or the return of an operation that is pending. */
  lemma CursorAtReturn<S, I, O>(su: Setup<I, O>, st: State<S>, entry: Node<I, O>, at: nat) returns (y: nat)
    requires su.Valid()
    requires CursorAt(su, st, entry, at)
    requires entry.match_ == null
    ensures y < |su.calls| && y !in st.order && su.History()[y].ret == st.cursor
  {
    LeftFacts(su.es, st.order);
    var p := st.cursor;
    assert p in Left(su.es, st.order);
    assert Carries(su.nodes, su.es, su.rets, 0, p);
    y := su.es[p].id;
  }

  /** The data structures of a search in progress, and the search they stand for. */
  class Run<S(==), !I, !O> {
    const model: Model<S, I, O>
    const computePartial: bool
    ghost const su: Setup<I, O>
    const list: EntryList<I, O>
    const cache: Cache<S>
    const linearized: array<Word>

    var calls: seq<CallsEntry<S, I, O>>
    var state: S
    var entry: Node?<I, O>
    var longest: seq<Option<seq<nat>>>

    ghost var st: State<S>
    ghost var at: nat

    constructor (model: Model<S, I, O>, es: seq<Entry<I, O>>, computePartial: bool, ghost cs: seq<nat>,
                 ghost rs: seq<nat>)
      requires Layout(es, cs, rs)
      ensures Valid()
      ensures fresh(list) && fresh(list.nodes) && fresh(cache) && fresh(linearized)
      ensures this.model == model && this.computePartial == computePartial
      ensures su.es == es && su.calls == cs && su.rets == rs
      ensures st.order == []
    {
      hide SearchMatches, AllCarried, ListFor, Represents, Linked, Layout, Pending, Members;
      var entries, root, n, setup := BuildList(es, cs, rs);
      var bits := NewBitset(n);
      var states := new Cache<S>(bits.Length);
      StartedMatches(model, computePartial, setup);
      this.model, this.computePartial := model, computePartial;
      list, cache, linearized := entries, states, bits;
      calls, state, entry, longest := [], model.init, root, seq(n, _ => None);
      su := setup;
      st, at := Started(model, Operations(es, cs, rs), 0), 0;
      new;
      assert longest == st.longest;
      assert Ids(st.order) == {};
    }

    ghost predicate Valid()
      reads this, list, list.nodes, cache, cache.frozen, linearized
    {
      && su.Valid() && su.head == list.head
      && SearchMatches(model, computePartial, su, st, calls, state, longest)
      && (|st.order| < |su.calls| ==> CursorAt(su, st, entry, at))
      && ListMatches(list, su, st.order)
      && BitsMatch(cache, linearized, |su.calls|, st.order, st.cache)
    }

    /** The cursor moves on by one entry. */
    method Skip()
      requires Valid() && |st.order| < |su.calls|
      requires entry != null && AtCall(su, st, entry, su.es[st.cursor].id)
      requires
        var x := su.es[st.cursor].id;
        Allowed(model, su.History(), state, x) ==> Successor(model, su.History(), st.Top(), x) in st.cache
      modifies this`entry, this`st, this`at
      ensures Valid()
      ensures st == old(st).(cursor := st.cursor) && st.cursor > old(st.cursor)
    {
      hide SearchMatches, ListMatches, BitsMatch, AtCall, Candidate, Successor;

      ghost var next := SkipStep(model, computePartial, su, st, calls, state, longest, entry, at);
      NextNode(list, su, st.order, at);
      entry := entry.next;
      st, at := st.(cursor := next), at + 1;
    }

    /** Caches a configuration, marks operation `x` in the bit set and lifts its nodes out of the list. */
    method Perform(newEntry: CacheEntry<S>, ghost x: nat)
      requires su.Valid() && su.head == list.head
      requires x < |su.calls| && x !in st.order && entry != null && entry.id == x && CursorAt(su, st, entry, at)
      requires st.cursor == su.calls[x]
      requires ListMatches(list, su, st.order) && BitsMatch(cache, linearized, |su.calls|, st.order, st.cache)
      requires newEntry.linearized != linearized && newEntry.linearized.Length == linearized.Length
      requires Members(newEntry.linearized[..]) == Ids(st.order) + {x}
      modifies list, list.nodes, cache, linearized
      ensures ListMatches(list, su, st.order + [x]) && list.head.next == FirstNode(su, st.order + [x])
      ensures BitsMatch(cache, linearized, |su.calls|, st.order + [x],
                        st.cache + {(Ids(st.order) + {x}, newEntry.state)})
      ensures cache.frozen == old(cache.frozen) + {newEntry.linearized}
    {
      hide AllCarried, Layout, ListMatches, BitsMatch, FirstNode, Left, Ids, Members;
      MarkAt(cache, linearized, newEntry, entry.id, |su.calls|, st.order, st.cache);
      LiftAt(list, su, st.order, entry, x, at);
    }

    /** The operation at the cursor is linearized. */
    method Push(newEntry: CacheEntry<S>)
      requires Valid() && |st.order| < |su.calls|
      requires entry != null && AtCall(su, st, entry, su.es[st.cursor].id)
      requires newEntry.linearized != linearized && newEntry.linearized !in cache.frozen
      requires newEntry.linearized.Length == linearized.Length
      requires
        var x := su.es[st.cursor].id;
        && Members(newEntry.linearized[..]) == Ids(st.order) + {x}
        && Allowed(model, su.History(), state, x)
        && newEntry.state == Next(model, su.History(), state, x)
        && Successor(model, su.History(), st.Top(), x) !in st.cache
      modifies this`calls, this`state, this`entry, this`st, this`at, list, list.nodes, cache, linearized
      ensures Valid()
      ensures cache.frozen == old(cache.frozen) + {newEntry.linearized}
      ensures Unvisited(model, su.History(), st.cache) < Unvisited(model, su.History(), old(st.cache))
    {
      hide Inv, Candidate, AllCarried, Layout, Unvisited, Reached, ListMatches, BitsMatch, Allowed, FirstNode;
      hide FirstCursor, CallsMatch, Operations, Left, Ids, Members, Distinct, InRange;
      InvShaped(model, su.History(), computePartial, st);
      ghost var x := su.es[st.cursor].id;
      ghost var order' := st.order + [x];
      ghost var st' := Pushed(model, su.History(), st, x, FirstCursor(su.es, order'));
      PushStep(model, computePartial, su, st, calls, state, longest, entry, at);
      PushVisits(model, su.History(), st.cache, Successor(model, su.History(), st.Top(), x));
      LayoutAt(su.es, su.calls, su.rets, x);
      Perform(newEntry, x);
      calls, state, entry := calls + [CallsEntry(entry, state)], newEntry.state, list.head.next;
      st, at := st', 0;
    }

    method Record() returns (longest': seq<Option<seq<nat>>>)
      requires Valid()
      ensures if computePartial then RecordedStack(longest, st.order, longest') else longest' == longest
    {
      hide SearchMatches, AllCarried, Layout, ListMatches, BitsMatch, Left, RecordedStack, Operations;
      CallsFacts(model, computePartial, su, st, calls, state, longest);
      longest' := longest;
      if computePartial {
        longest' := RecordLongest(calls, longest, st.order);
      }
    }

    lemma TopFacts()
      requires su.Valid() && SearchMatches(model, computePartial, su, st, calls, state, longest)
      requires calls != []
      ensures |calls| == |st.order| && Distinct(st.order) && st.levels != []
      ensures
        var q, x := st.order[..|st.order| - 1], st.order[|st.order| - 1];
        x < |su.calls| && su.calls[x] < |su.nodes| && x !in q && calls[|calls| - 1].entry == su.nodes[su.calls[x]] &&
            calls[|calls| - 1].entry.id == x
    {
      hide SearchMatches, AllCarried, Layout, Operations;
      CallsFacts(model, computePartial, su, st, calls, state, longest);
    }

    /** Where the search stands after the top operation is taken back. */
    lemma TakeBack(longest': seq<Option<seq<nat>>>) returns (at': nat, st': State<S>)
      requires su.Valid() && SearchMatches(model, computePartial, su, st, calls, state, longest)
      requires entry != null && CursorAt(su, st, entry, at) && entry.match_ == null && calls != []
      requires if computePartial then RecordedStack(longest, st.order, longest') else longest' == longest
      ensures st.order != [] && st'.order == st.order[..|st.order| - 1] && st'.cache == st.cache
      ensures
        var left := Left(su.es, st'.order);
        && at' + 1 < |left| && st'.cursor == left[at' + 1] && 0 <= st'.cursor < |su.es|
        && left[at'] == su.calls[st.order[|st.order| - 1]]
      ensures CursorAt(su, st', su.nodes[st'.cursor], at' + 1)
      ensures SearchMatches(model, computePartial, su, st', calls[..|calls| - 1], calls[|calls| - 1].state, longest')
    {
      hide AllCarried, Layout, Left, RecordedStack, NextPending, Operations, CursorAt, SearchMatches;
      TopFacts();
      var next;
      at', next := PopCursor(su, st.order[..|st.order| - 1], st.order[|st.order| - 1]);
      PopStep(model, computePartial, su, st, calls, state, longest, entry, at, longest', at', next);
      st' := Popped(st, longest', next);
    }

    /** Takes the top operation out of the bit set and puts its nodes back in the list. */
    method Restore(top: Node<I, O>, ghost q: seq<nat>, ghost x: nat, ghost at': nat) returns (follower: Node?<I, O>)
      requires su.Valid() && su.head == list.head
      requires st.order != [] && q == st.order[..|st.order| - 1] && x == st.order[|st.order| - 1]
      requires x < |su.calls| && su.calls[x] < |su.nodes| && top == su.nodes[su.calls[x]] && top.id == x
      requires at' + 1 < |Left(su.es, q)| && Left(su.es, q)[at'] == su.calls[x]
      requires ListMatches(list, su, st.order) && BitsMatch(cache, linearized, |su.calls|, st.order, st.cache)
      requires Distinct(st.order)
      modifies list, list.nodes, linearized
      ensures ListMatches(list, su, q) && BitsMatch(cache, linearized, |su.calls|, q, st.cache)
      ensures Left(su.es, q)[at' + 1] < |su.nodes| && follower == su.nodes[Left(su.es, q)[at' + 1]]
    {
      hide AllCarried, Layout, ListMatches, BitsMatch, Left, Distinct;
      ClearTop(cache, linearized, top.id, |su.calls|, st.order, st.cache);
      UnliftTop(list, su, st.order, top);
      NextNode(list, su, q, at');
      follower := top.next;
    }

    /** The cursor is at a return: the top operation is taken back. */
    method Backtrack()
      requires Valid() && |st.order| < |su.calls|
      requires entry != null && entry.match_ == null && calls != []
      modifies this`calls, this`state, this`entry, this`longest, this`st, this`at, list, list.nodes, linearized
      ensures Valid()
      ensures st.cache == old(st.cache) && |st.order| == |old(st.order)| - 1
    {
      hide SearchMatches, AllCarried, Layout, ListMatches, BitsMatch, Left, RecordedStack, InRange, Operations;
      hide Distinct, CursorAt, Setup.Valid, Setup.History;
      var longest' := Record();
      TopFacts();
      ghost var q := st.order[..|st.order| - 1];
      ghost var x := st.order[|st.order| - 1];
      ghost var at', st' := TakeBack(longest');
      var callsTop := calls[|calls| - 1];
      var follower := Restore(callsTop.entry, q, x, at');
      longest, state, calls, entry := longest', callsTop.state, calls[..|calls| - 1], follower;
      st, at := st', at' + 1;
    }

    /** The configuration after the operation at the cursor, and whether it has been visited. */
    method Lookup(newState: S) returns (newEntry: CacheEntry<S>, cached: bool)
      requires BitsMatch(cache, linearized, |su.calls|, st.order, st.cache)
      requires entry != null && 0 <= entry.id < |su.calls|
      ensures fresh(newEntry.linearized) && newEntry.linearized.Length == linearized.Length &&
                newEntry.state == newState
      ensures Members(newEntry.linearized[..]) == Ids(st.order) + {entry.id}
      ensures cached <==> (Ids(st.order) + {entry.id}, newState) in st.cache
    {
      hide Members, Represents, Ids, Sized;
      var newLinearized := Clone(linearized);
      Set(newLinearized, entry.id);
      newEntry := CacheEntry(newLinearized, newState);
      cached := cache.Contains(newEntry);
    }

    /** The cursor is at a call: it is linearized when the model allows it and the configuration is new. */
    method TryCall()
      requires Valid() && |st.order| < |su.calls|
      requires entry != null && entry.match_ != null
      modifies this`calls, this`state, this`entry, this`st, this`at, list, list.nodes, cache, linearized
      ensures Valid() && fresh(cache.frozen - old(cache.frozen))
      ensures
        || Unvisited(model, su.History(), st.cache) < Unvisited(model, su.History(), old(st.cache))
        || (st == old(st).(cursor := st.cursor) && st.cursor > old(st.cursor))
    {
      hide Inv, AllCarried, Layout, ListMatches, Left, Members, Represents, Unvisited, Candidate, CallsMatch;
      hide Operations, Ids, BitsMatch;
      InvShaped(model, su.History(), computePartial, st);
      AtCursor();
      var matching := entry.match_;
      var (ok, newState) := model.step(state, entry.value.input, matching.value.output);
      if ok {
        var newCacheEntry, cached := Lookup(newState);
        if !cached {
          Push(newCacheEntry);
        } else {
          Skip();
        }
      } else {
        Skip();
      }
    }

    /** What the main loop relies on. */
    ghost predicate Standing()
      requires su.Valid()
      reads this, list, list.head
    {
      && |longest| == |su.calls| && |st.order| <= |su.calls|
      && (list.head.next == null <==> |st.order| == |su.calls|)
      && (|st.order| < |su.calls| ==> entry != null && st.cursor < |su.es|)
      && IsPartial(model, su.History(), st.order)
      && (forall x :: 0 <= x < |longest| && longest[x].Some? ==>
            IsPartial(model, su.History(), longest[x].value) && x in longest[x].value)
    }

    lemma Facts()
      requires Valid()
      ensures su.Valid() && Standing()
    {
      hide Inv, AllCarried, Layout, ListMatches, BitsMatch, Left, IsPartial;
      OperationsShape(su.es, su.calls, su.rets);
      InvShaped(model, su.History(), computePartial, st);
      InvSound(model, su.History(), computePartial, st);
      ListEmpty(list, su, st.order);
    }

    /** The cursor is at a return and nothing can be taken back. */
    lemma Exhausted()
      requires Valid() && |st.order| < |su.calls| && entry != null && entry.match_ == null && calls == []
      ensures su.Valid() && !Linearizable(model, su.History()) && |longest| == |su.calls|
      ensures computePartial ==> forall x :: 0 <= x < |su.calls| ==> ExactLongest(model, su.History(), x, longest[x])
    {
      hide Inv, AllCarried, Layout, ListMatches, BitsMatch, Left, Linearizable, ExactLongest;
      SearchExhausted(model, computePartial, su, st, calls, state, longest, entry, at);
    }

    lemma Complete()
      requires Valid()
      ensures |calls| == |st.order| && forall k :: 0 <= k < |calls| ==> calls[k].entry.id == st.order[k]
    {
      hide SearchMatches, AllCarried, Layout, ListMatches, BitsMatch;
      CallsFacts(model, computePartial, su, st, calls, state, longest);
    }

    lemma AtCursor()
      requires su.Valid() && SearchMatches(model, computePartial, su, st, calls, state, longest)
      requires entry != null && CursorAt(su, st, entry, at) && entry.match_ != null
      ensures AtCall(su, st, entry, su.es[st.cursor].id)
    {
      CursorAtCall(model, su, st, entry, at);
    }
  }

  // ---------- the whole search ----------

  /** The list is empty exactly when every operation is linearized. */
  lemma ListEmpty<I, O>(list: EntryList<I, O>, su: Setup<I, O>, order: seq<nat>)
    requires su.Valid() && su.head == list.head && ListMatches(list, su, order)
    requires InRange(order, |su.calls|) && Distinct(order)
    ensures list.head.next == null <==> |order| == |su.calls|
    ensures |order| <= |su.calls|
  {
    hide AllCarried, Layout, Left, ListMatches;
    IdsBelow(order, |su.calls|);
    FirstOfList(list, su, order);
    NothingLeft(su.es, su.calls, su.rets, order);
  }

  lemma CompleteStack<S, I, O>(m: Model<S, I, O>, h: seq<Operation<I, O>>, order: seq<nat>)
    requires Overlapping(h)
    requires IsPartial(m, h, order) && |order| == |h|
    ensures Linearizable(m, h)
    ensures forall x :: 0 <= x < |h| ==> ExactLongest(m, h, x, Some(order))
  {
    hide Legal, PastClosed, RespectsRealTime;
    LinearizationIsCompletePartial(m, h, order);
    IdsBelow(order, |h|);
    forall x, p | 0 <= x < |h| && IsPartial(m, h, p) && x in p
      ensures |p| <= |order|
    {
      IdsBelow(p, |h|);
    }
    forall x | 0 <= x < |h|
      ensures x in order
    {
      assert x in Ids(order);
    }
  }

  /** An empty stack with the cursor at a return: there is no linearization, and the recorded
      partial linearizations are the longest ones. */
  lemma SearchExhausted<S, I, O>(m: Model<S, I, O>, partial: bool, su: Setup<I, O>, st: State<S>,
                                 calls: seq<CallsEntry<S, I, O>>, state: S, longest: seq<Option<seq<nat>>>,
                                 entry: Node<I, O>, at: nat)
    requires su.Valid() && SearchMatches(m, partial, su, st, calls, state, longest)
    requires CursorAt(su, st, entry, at) && entry.match_ == null && calls == []
    ensures !Linearizable(m, su.History())
    ensures |longest| == |su.calls|
    ensures partial ==> forall x :: 0 <= x < |su.calls| ==> ExactLongest(m, su.History(), x, longest[x])
  {
    hide Inv, AllCarried, Layout, Left, ExactLongest, Linearizable, Overlapping, NoTies;
    OperationsShape(su.es, su.calls, su.rets);
    var y := CursorAtReturn(su, st, entry, at);
    assert Finished(m, su.History(), partial, st);
    FinishedRefutes(m, su.History(), partial, st);
    InvSound(m, su.History(), partial, st);
    if partial {
      forall x | 0 <= x < |su.calls| {
        FinishedIsExact(m, su.History(), st, x);
      }
    }
  }

  /** Decides whether the entries are linearizable, unless it is killed: `kill(t)` says whether the
      kill flag is set when iteration `t` looks at it. */
  method CheckSingle<S(==), I, O>(model: Model<S, I, O>, es: seq<Entry<I, O>>, computePartial: bool, kill: nat -> bool)
      returns (ok: bool, longest: seq<Option<seq<nat>>>)
    requires WellFormed(es)
    ensures ok ==> Linearizable(model, HistoryOf(es))
    ensures !ok && (forall t :: !kill(t)) ==> !Linearizable(model, HistoryOf(es))
    ensures |longest| == |HistoryOf(es)|
    ensures forall x :: 0 <= x < |longest| && longest[x].Some? ==>
              IsPartial(model, HistoryOf(es), longest[x].value) && x in longest[x].value
    ensures ok || (computePartial && forall t :: !kill(t)) ==>
              forall x :: 0 <= x < |longest| ==> ExactLongest(model, HistoryOf(es), x, longest[x])
  {
    hide Layout, Unvisited, IsPartial, Linearizable, ExactLongest, Overlapping, Run.Valid, Setup.Valid;
    ghost var cs, rs :| Layout(es, cs, rs);
    HistoryOfLayout(es, cs, rs);
    OperationsShape(es, cs, rs);
    ghost var h := HistoryOf(es);
    var run := new Run<S, I, O>(model, es, computePartial, cs, rs);
    var t := 0;
    run.Facts();
    while run.list.head.next != null
      invariant run.Valid() && run.Standing() && run.su.History() == h && |run.su.calls| == |h|
      invariant fresh(run.list) && fresh(run.list.nodes) && fresh(run.cache) && fresh(run.linearized)
      decreases Unvisited(model, h, run.st.cache), |run.st.order|, |es| - run.st.cursor
    {
      if kill(t) {
        return false, run.longest;
      }
      t := t + 1;
      if run.entry.match_ != null {
        run.TryCall();
      } else {
        if run.calls == [] {
          run.Exhausted();
          return false, run.longest;
        }
        run.Backtrack();
      }
      run.Facts();
    }
    run.Complete();
    CompleteStack(model, h, run.st.order);
    longest := FillLongest(run.calls, run.longest, run.st.order);
    ok := true;
    WholeIsExact(model, h, run.st.order, longest);
  }

  /** At the end, the whole stack is the answer for every operation. */
  method FillLongest<S, I, O>(calls: seq<CallsEntry<S, I, O>>, longest: seq<Option<seq<nat>>>, ghost order: seq<nat>)
      returns (longest': seq<Option<seq<nat>>>)
    requires |calls| == |order| && forall k :: 0 <= k < |calls| ==> calls[k].entry.id == order[k]
    ensures |longest'| == |longest| && forall x :: 0 <= x < |longest| ==> longest'[x] == Some(order)
  {
    var ids := CallIds(calls, order);
    longest' := longest;
    for i := 0 to |longest|
      invariant |longest'| == |longest|
      invariant forall x :: 0 <= x < i ==> longest'[x] == Some(order)
    {
      longest' := longest'[i := Some(ids)];
    }
  }

  lemma WholeIsExact<S, I, O>(m: Model<S, I, O>, h: seq<Operation<I, O>>, order: seq<nat>,
                              longest: seq<Option<seq<nat>>>)
    requires |longest| == |h| && forall x :: 0 <= x < |longest| ==> longest[x] == Some(order)
    requires forall x :: 0 <= x < |h| ==> ExactLongest(m, h, x, Some(order))
    ensures forall x :: 0 <= x < |longest| ==> ExactLongest(m, h, x, longest[x])
    ensures forall x :: 0 <= x < |longest| ==> IsPartial(m, h, longest[x].value) && x in longest[x].value
  {
    hide ExactLongest, IsPartial;
    forall x | 0 <= x < |longest|
      ensures IsPartial(m, h, longest[x].value) && x in longest[x].value
    {
      ExactIsPartial(m, h, x, Some(order));
    }
  }

  lemma ExactIsPartial<S, I, O>(m: Model<S, I, O>, h: seq<Operation<I, O>>, x: nat, best: Option<seq<nat>>)
    requires ExactLongest(m, h, x, best) && best.Some?
    ensures IsPartial(m, h, best.value) && x in best.value
  {
  }
}
