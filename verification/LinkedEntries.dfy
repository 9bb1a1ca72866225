/** The doubly linked list of call and return nodes that the checker edits in place.

Linearizing an operation lifts its call and its return out of the list. Backtracking puts them
back. The removed nodes keep their own pointers, so putting pairs back in last-in-first-out order
restores every pointer of the list. */
module LinkedEntries {
  import opened Basics

  datatype Value<I, O> = NoValue | Input(input: I) | Output(output: O)

  /** A node with a match is a call, and its match is the node of the return. */
  class Node<!I, !O> {
    const value: Value<I, O>
    const match_: Node?<I, O>
    const id: int
    var next: Node?<I, O>
    var prev: Node?<I, O>

    constructor (value: Value<I, O>, match_: Node?<I, O>, id: int)
      ensures this.value == value && this.match_ == match_ && this.id == id
      ensures next == null && prev == null
    {
      this.value, this.match_, this.id := value, match_, id;
      next, prev := null, null;
    }
  }

  ghost function At<I, O>(list: seq<Node<I, O>>, i: int): Node?<I, O> {
    if 0 <= i < |list| then list[i] else null
  }

  /** The nodes of `list` are linked to their neighbours in both directions. */
  ghost predicate Linked<I, O>(list: seq<Node<I, O>>)
    reads list
  {
    && Distinct(list)
    && (forall i {:trigger list[i].next} :: 0 <= i < |list| ==> list[i].next == At(list, i + 1))
    && (forall i {:trigger list[i].prev} :: 0 <= i < |list| ==> list[i].prev == At(list, i - 1))
  }

  function Without<T>(s: seq<T>, a: nat): (r: seq<T>)
    requires a < |s|
    ensures |r| == |s| - 1
  {
    s[..a] + s[a + 1..]
  }

  function WithoutPair<T>(s: seq<T>, a: nat, b: nat): seq<T>
    requires a < b < |s|
  {
    Without(Without(s, a), b - 1)
  }

  /** A pair that was lifted out of `list` at positions `a` and `b`. */
  datatype Frame<!I, !O> = Frame(list: seq<Node<I, O>>, a: nat, b: nat) {
    ghost predicate Shaped() {
      && 0 < a < b < |list|
      && Distinct(list)
      && list[a].match_ == list[b]
    }

    ghost function Rest(): seq<Node<I, O>>
      requires Shaped()
    {
      WithoutPair(list, a, b)
    }

    /** The list without the call only. */
    ghost function Shorter(): seq<Node<I, O>>
      requires Shaped()
    {
      Without(list, a)
    }

    lemma ShorterFacts()
      requires Shaped()
      ensures Distinct(Shorter()) && Shorter()[b - 1] == list[b] && list[a] !in Shorter()
      ensures At(Shorter(), b) == At(list, b + 1)
      ensures At(Shorter(), b - 2) == if b == a + 1 then list[a - 1] else list[b - 1]
      ensures forall n :: n in Neighbours(list, a) || n in Neighbours(Shorter(), b - 1) ==> n in list
      ensures list[a] !in Neighbours(Shorter(), b - 1) && list[b] !in Neighbours(Shorter(), b - 1)
    {
      WithoutDistinct(list, a);
    }

    /** The lifted nodes remember their places: the call its place in `list`, and the return its
        place in `list` without the call. */
    ghost predicate Saved()
      requires Shaped()
      reads list[a], list[b]
    {
      && list[a].prev == list[a - 1]
      && list[a].next == list[a + 1]
      && list[b].prev == (if b == a + 1 then list[a - 1] else list[b - 1])
      && list[b].next == At(list, b + 1)
    }
  }

  /** Puts `n` in front of `mark`; alone when there is no mark. */
  method InsertBefore<I, O>(n: Node<I, O>, mark: Node?<I, O>, ghost list: seq<Node<I, O>>, ghost k: nat)
    requires Linked(list) && n !in list
    requires if mark == null then list == [] && k == 0 else k < |list| && mark == list[k]
    requires n.next == null && n.prev == null
    modifies n, list
    ensures Linked(list[..k] + [n] + list[k..])
  {
    if mark != null {
      var beforeMark := mark.prev;
      mark.prev := n;
      n.next := mark;
      if beforeMark != null {
        n.prev := beforeMark;
        beforeMark.next := n;
      }
    }
    InsertedAt(list, n, k);
  }

  lemma InsertedAt<T>(s: seq<T>, x: T, k: nat)
    requires Distinct(s) && x !in s && k <= |s|
    ensures
      var r := s[..k] + [x] + s[k..];
      && Distinct(r) && |r| == |s| + 1 && r[k] == x
      && (forall i :: 0 <= i < k ==> r[i] == s[i])
      && (forall i :: k < i <= |s| ==> r[i] == s[i - 1])
  {
  }

  ghost function Neighbours<I, O>(list: seq<Node<I, O>>, a: nat): set<Node<I, O>>
    requires 0 < a < |list|
  {
    {list[a - 1]} + if a + 1 < |list| then {list[a + 1]} else {}
  }

  /** Takes one node out. It keeps its own pointers. */
  method Unlink<I, O>(n: Node<I, O>, ghost list: seq<Node<I, O>>, ghost a: nat)
    requires Linked(list) && 0 < a < |list| && n == list[a]
    modifies Neighbours(list, a)
    ensures Linked(Without(list, a))
    ensures n.prev == list[a - 1] && n.next == At(list, a + 1)
  {
    WithoutDistinct(list, a);
    n.prev.next := n.next;
    if n.next != null {
      n.next.prev := n.prev;
    }
  }

  /** Puts one node back between the neighbours it remembers. */
  method Relink<I, O>(n: Node<I, O>, ghost list: seq<Node<I, O>>, ghost a: nat)
    requires 0 < a < |list| && n == list[a] && Distinct(list)
    requires Linked(Without(list, a))
    requires n.prev == list[a - 1] && n.next == At(list, a + 1)
    modifies Neighbours(list, a)
    ensures Linked(list)
  {
    n.prev.next := n;
    if n.next != null {
      n.next.prev := n;
    }
    ghost var rest := Without(list, a);
    assert forall i :: 0 <= i < a ==> list[i] == rest[i];
    assert forall i :: a < i < |list| ==> list[i] == rest[i - 1];
  }

  lemma WithoutDistinct<T>(s: seq<T>, a: nat)
    requires Distinct(s) && a < |s|
    ensures Distinct(Without(s, a))
    ensures forall x :: x in Without(s, a) <==> x in s && x != s[a]
  {
    forall x | x in s && x != s[a]
      ensures x in Without(s, a)
    {
      var i :| 0 <= i < |s| && s[i] == x;
      assert Without(s, a)[if i < a then i else i - 1] == x;
    }
  }

  /** Takes the return out, once the call is out. */
  method LiftReturn<I, O>(entry: Node<I, O>, ghost f: Frame<I, O>)
    requires f.Shaped() && Linked(f.Shorter()) && entry == f.list[f.a]
    requires entry.prev == f.list[f.a - 1] && entry.next == f.list[f.a + 1]
    modifies Neighbours(f.Shorter(), f.b - 1)
    ensures Linked(f.Rest()) && f.Saved()
  {
    hide Linked, Distinct;
    f.ShorterFacts();
    Unlink(entry.match_, f.Shorter(), f.b - 1);
  }

  /** Takes a call and its return out. */
  method LiftPair<I, O>(entry: Node<I, O>, ghost f: Frame<I, O>)
    requires f.Shaped() && Linked(f.list) && entry == f.list[f.a]
    modifies f.list
    ensures Linked(f.Rest()) && f.Saved()
  {
    f.ShorterFacts();
    Unlink(entry, f.list, f.a);
    LiftReturn(entry, f);
  }

  /** Puts them back. */
  method UnliftPair<I, O>(entry: Node<I, O>, ghost f: Frame<I, O>)
    requires f.Shaped() && Linked(f.Rest()) && f.Saved() && entry == f.list[f.a]
    modifies f.list
    ensures Linked(f.list)
  {
    ghost var shorter := f.Shorter();
    f.ShorterFacts();
    Relink(entry.match_, shorter, f.b - 1);
    assert entry.prev == f.list[f.a - 1] && entry.next == f.list[f.a + 1];
    Relink(entry, f.list, f.a);
  }

  method Length<I, O>(first: Node?<I, O>, ghost list: seq<Node<I, O>>) returns (l: nat)
    requires Linked(list) && first == At(list, 0)
    ensures l == |list|
  {
    l := 0;
    var n := first;
    while n != null
      invariant 0 <= l <= |list| && n == At(list, l)
      decreases |list| - l
    {
      n := n.next;
      l := l + 1;
    }
  }

  // ---------- stacks of lifted pairs ----------

  /** The pairs lifted so far, the latest on top. */
  datatype Stack<!I, !O> = Bottom | Lifted(top: Frame<I, O>, below: Stack<I, O>) {

    /** `list` is what remains after lifting all the pairs, and `head` stays in front. */
    ghost predicate Leaves(list: seq<Node<I, O>>, head: Node<I, O>) {
      && list != [] && list[0] == head && Distinct(list)
      && (Lifted? ==> top.Shaped() && top.Rest() == list && below.Leaves(top.list, head))
    }

    ghost function Nodes(): set<Node<I, O>> {
      match this
      case Bottom => {}
      case Lifted(f, below) => (if f.Shaped() then {f.list[f.a], f.list[f.b]} else {}) + below.Nodes()
    }

    /** All the lifted nodes remember their places. */
    ghost predicate Saved()
      reads Nodes()
    {
      match this
      case Bottom => true
      case Lifted(f, below) => f.Shaped() && f.Saved() && below.Saved()
    }

    /** A lifted node is not in the list, and no node gets lost. */
    lemma {:induction false} Apart(list: seq<Node<I, O>>, head: Node<I, O>, all: set<Node<I, O>>)
      requires Leaves(list, head)
      requires Elements(list) + Nodes() == all
      ensures Nodes() !! Elements(list)
      decreases this
    {
      if Lifted? {
        RestElements(top);
        below.Apart(top.list, head, all);
      }
    }

    lemma Pushed(f: Frame<I, O>, head: Node<I, O>, all: set<Node<I, O>>)
      requires f.Shaped() && Leaves(f.list, head) && Elements(f.list) + Nodes() == all
      ensures Lifted(f, this).Leaves(f.Rest(), head)
      ensures Elements(f.Rest()) + Lifted(f, this).Nodes() == all
      ensures Nodes() !! Elements(f.list) && Elements(f.list) <= all
    {
      RestElements(f);
      Apart(f.list, head, all);
    }

    lemma Popped(list: seq<Node<I, O>>, head: Node<I, O>, all: set<Node<I, O>>)
      requires Lifted? && Leaves(list, head) && Elements(list) + Nodes() == all
      ensures below.Leaves(top.list, head)
      ensures Elements(top.list) + below.Nodes() == all
      ensures below.Nodes() !! Elements(top.list) && Elements(top.list) <= all
    {
      RestElements(top);
      below.Apart(top.list, head, all);
    }
  }

  ghost function Elements<T>(s: seq<T>): set<T> {
    set x | x in s
  }

  lemma RestElements<I, O>(f: Frame<I, O>)
    requires f.Shaped()
    ensures Distinct(f.Rest()) && f.Rest()[0] == f.list[0]
    ensures Elements(f.Rest()) == Elements(f.list) - {f.list[f.a], f.list[f.b]}
    ensures f.list[f.a] in f.list && f.list[f.b] in f.list
  {
    WithoutDistinct(f.list, f.a);
    WithoutDistinct(Without(f.list, f.a), f.b - 1);
  }

  /** The list in the heap, and the stack of the pairs lifted out of it. */
  class EntryList<!I, !O> {
    const head: Node<I, O>
    ghost const nodes: set<Node<I, O>>
    ghost var list: seq<Node<I, O>>
    ghost var lifted: Stack<I, O>

    ghost predicate Valid()
      reads this, nodes
    {
      && lifted.Leaves(list, head)
      && Elements(list) + lifted.Nodes() == nodes
      && Linked(list)
      && lifted.Saved()
    }

    /** Takes over a linked list and puts a head in front of it. */
    constructor (first: Node?<I, O>, ghost rest: seq<Node<I, O>>)
      requires Linked(rest) && first == At(rest, 0)
      modifies rest
      ensures Valid() && lifted == Bottom
      ensures fresh(head) && head.match_ == null && list == [head] + rest
      ensures nodes == Elements(rest) + {head}
    {
      var h := new Node<I, O>(NoValue, null, -1);
      head := h;
      nodes := Elements(rest) + {h};
      list := [h] + rest;
      lifted := Bottom;
      new;
      InsertBefore(h, first, rest, 0);
      assert rest[..0] + [h] + rest[0..] == [h] + rest;
    }

    /** Removes a call and its return from the list. */
    method Lift(entry: Node<I, O>, ghost a: nat, ghost b: nat)
      requires Valid()
      requires 0 < a < b < |list| && entry == list[a] && entry.match_ == list[b]
      modifies this, nodes
      ensures Valid()
      ensures list == WithoutPair(old(list), a, b)
      ensures lifted == Lifted(Frame(old(list), a, b), old(lifted))
    {
      ghost var f := Frame(list, a, b);
      hide Linked, WithoutPair, Distinct;
      lifted.Pushed(f, head, nodes);
      LiftPair(entry, f);
      assert lifted.Saved();
      list, lifted := f.Rest(), Lifted(f, lifted);
    }

    /** Puts the pair that was lifted last back in its place: every pointer of the list is as it was. */
    method Unlift(entry: Node<I, O>)
      requires Valid()
      requires lifted.Lifted? && entry == lifted.top.list[lifted.top.a]
      modifies this, nodes
      ensures Valid()
      ensures list == old(lifted).top.list
      ensures lifted == old(lifted).below
    {
      hide Linked, WithoutPair, Distinct;
      lifted.Popped(list, head, nodes);
      UnliftPair(entry, lifted.top);
      assert lifted.below.Saved();
      list, lifted := lifted.top.list, lifted.below;
    }
  }
}
