/** Sorting, as the programs use it: the result is some sorted permutation. Nothing else may be
    relied on, since the library sort is not stable. */
module Sorting {

  ghost predicate TotalPreorder<T(!new)>(leq: (T, T) -> bool) {
    && (forall a, b :: leq(a, b) || leq(b, a))
    && (forall a, b, c :: leq(a, b) && leq(b, c) ==> leq(a, c))
  }

  ghost predicate SortedBy<T>(leq: (T, T) -> bool, s: seq<T>) {
    forall i, j :: 0 <= i < j < |s| ==> leq(s[i], s[j])
  }

  lemma InsertSorted<T>(s: seq<T>, x: T, k: nat, leq: (T, T) -> bool)
    requires SortedBy(leq, s) && k <= |s|
    requires forall i :: 0 <= i < k ==> leq(s[i], x)
    requires forall i :: k <= i < |s| ==> leq(x, s[i])
    ensures SortedBy(leq, s[..k] + [x] + s[k..])
  {
  }

  /** Where `x` goes in a sorted sequence: behind everything that is not greater. */
  function PlaceFor<T(!new)>(s: seq<T>, x: T, leq: (T, T) -> bool): (k: nat)
    requires TotalPreorder(leq) && SortedBy(leq, s)
    ensures k <= |s|
    ensures forall i :: 0 <= i < k ==> leq(s[i], x)
    ensures forall i :: k <= i < |s| ==> leq(x, s[i])
  {
    if s == [] then 0
    else
      var n := |s| - 1;
      if leq(s[n], x) then |s| else PlaceFor(s[..n], x, leq)
  }

  function Inserted<T(!new)>(s: seq<T>, x: T, leq: (T, T) -> bool): (r: seq<T>)
    requires TotalPreorder(leq) && SortedBy(leq, s)
    ensures SortedBy(leq, r)
    ensures multiset(r) == multiset(s) + multiset{x}
  {
    var k := PlaceFor(s, x, leq);
    InsertSorted(s, x, k, leq);
    assert s == s[..k] + s[k..];
    s[..k] + [x] + s[k..]
  }

  /** One sorted permutation. */
  function Sorted<T(!new)>(s: seq<T>, leq: (T, T) -> bool): (r: seq<T>)
    requires TotalPreorder(leq)
    ensures SortedBy(leq, r)
    ensures multiset(r) == multiset(s)
  {
    if s == [] then []
    else
      var n := |s| - 1;
      assert s == s[..n] + [s[n]];
      Inserted(Sorted(s[..n], leq), s[n], leq)
  }

  /** The library sort: callers know no more than that the result is a sorted permutation. */
  method Sort<T(!new)>(s: seq<T>, leq: (T, T) -> bool) returns (r: seq<T>)
    requires TotalPreorder(leq)
    ensures SortedBy(leq, r)
    ensures multiset(r) == multiset(s)
  {
    r := Sorted(s, leq);
  }

  /** Exchanging two elements that are equal in the order keeps a sequence sorted. */
  lemma SwapSorted<T(!new)>(s: seq<T>, leq: (T, T) -> bool, p: nat, q: nat)
    requires TotalPreorder(leq) && SortedBy(leq, s)
    requires p < |s| && q < |s| && leq(s[p], s[q]) && leq(s[q], s[p])
    ensures SortedBy(leq, s[p := s[q]][q := s[p]])
    ensures multiset(s[p := s[q]][q := s[p]]) == multiset(s)
  {
    var t := s[p := s[q]][q := s[p]];
    forall i | 0 <= i < |s|
      ensures leq(s[i], t[i]) && leq(t[i], s[i])
    {
      assert leq(s[i], s[i]);
    }
    forall i, j | 0 <= i < j < |s|
      ensures leq(t[i], t[j])
    {
      assert leq(t[i], s[i]) && leq(s[i], s[j]) && leq(s[j], t[j]);
      assert leq(t[i], s[j]);
    }
  }

  // ---------- the order of strings ----------

  /** Lexicographic order, by character code. */
  predicate StringLess(a: string, b: string)
    decreases |a|
  {
    b != "" && (a == "" || a[0] < b[0] || (a[0] == b[0] && StringLess(a[1..], b[1..])))
  }

  predicate StringLeq(a: string, b: string) {
    !StringLess(b, a)
  }

  lemma {:induction false} StringTrichotomy(a: string, b: string)
    ensures !(StringLess(a, b) && StringLess(b, a))
    ensures a == b <==> !StringLess(a, b) && !StringLess(b, a)
    decreases |a|
  {
    if a != "" && b != "" && a[0] == b[0] {
      StringTrichotomy(a[1..], b[1..]);
      assert a == [a[0]] + a[1..] && b == [b[0]] + b[1..];
    }
  }

  lemma {:induction false} StringLessTransitive(a: string, b: string, c: string)
    requires StringLess(a, b) && StringLess(b, c)
    ensures StringLess(a, c)
    decreases |a|
  {
    if a != "" && a[0] == b[0] && b[0] == c[0] {
      StringLessTransitive(a[1..], b[1..], c[1..]);
    }
  }

  lemma StringLeqPreorder()
    ensures TotalPreorder(StringLeq)
  {
    forall a, b
      ensures StringLeq(a, b) || StringLeq(b, a)
    {
      StringTrichotomy(a, b);
    }
    forall a, b, c | StringLeq(a, b) && StringLeq(b, c)
      ensures StringLeq(a, c)
    {
      StringTrichotomy(a, b);
      StringTrichotomy(b, c);
      StringTrichotomy(a, c);
      if StringLess(a, b) && StringLess(b, c) {
        StringLessTransitive(a, b, c);
      }
    }
  }
}
