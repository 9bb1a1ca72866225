/** Replicated logs: the merge of AppendEntries, log matching, and the fast backup of nextIndex. */
module RaftLog {

  type Command = int

  datatype Entry = Entry(term: int, command: Command, index: int)

  /** Index 0 holds a placeholder of term 0; the real entries follow, each at its own index. */
  ghost predicate WellFormedLog(log: seq<Entry>) {
    && log != [] && log[0].term == 0
    && (forall i :: 0 < i < |log| ==> log[i].term >= 1)
    && (forall i :: 0 <= i < |log| ==> log[i].index == i)
  }

  const INITIAL_LOG: seq<Entry> := [Entry(0, 0, 0)]

  // ---------- merging ----------

  /** The loop body of the merge, for one entry of the message. */
  function MergeOne(log: seq<Entry>, e: Entry): seq<Entry>
    requires 0 <= e.index
  {
    if e.index < |log| then
      if log[e.index].term != e.term then log[..e.index] + [e] else log
    else log + [e]
  }

  /** The entries of a message sit at consecutive indices after `prev`. */
  ghost predicate Consecutive(prev: int, entries: seq<Entry>) {
    forall i :: 0 <= i < |entries| ==> entries[i].index == prev + 1 + i
  }

  /** The position of the first entry that conflicts with the log, or the number of entries. */
  ghost function FirstConflict(log: seq<Entry>, prev: int, entries: seq<Entry>): (k: nat)
    requires 0 <= prev
    ensures k <= |entries|
    ensures forall i :: 0 <= i < k && prev + 1 + i < |log| ==> log[prev + 1 + i].term == entries[i].term
    ensures k < |entries| ==> prev + 1 + k < |log| && log[prev + 1 + k].term != entries[k].term
  {
    if entries == [] then 0
    else
      var k := FirstConflict(log, prev, entries[..|entries| - 1]);
      if k < |entries| - 1 then k
      else if prev + |entries| < |log| && log[prev + |entries|].term != entries[|entries| - 1].term then k
      else |entries|
  }

  /** The merge in closed form: keep the log up to the first conflict and take the leader's entries
      from there; without a conflict, keep the longer of the two. */
  ghost function Merged(log: seq<Entry>, prev: int, entries: seq<Entry>): seq<Entry>
    requires 0 <= prev < |log|
  {
    var k := FirstConflict(log, prev, entries);
    if k < |entries| then log[..prev + 1 + k] + entries[k..]
    else if prev + 1 + |entries| <= |log| then log
    else log + entries[|log| - (prev + 1)..]
  }

  lemma ConflictNext(log: seq<Entry>, prev: int, entries: seq<Entry>, e: Entry)
    requires 0 <= prev < |log|
    ensures
      var k := FirstConflict(log, prev, entries);
      var j := prev + 1 + |entries|;
      FirstConflict(log, prev, entries + [e]) ==
        if k < |entries| then k else if j < |log| && log[j].term != e.term then k else |entries| + 1
  {
    assert (entries + [e])[..|entries|] == entries;
  }

  /** One more entry changes the closed form as the loop body changes the log. */
  lemma MergeStep(log: seq<Entry>, prev: int, entries: seq<Entry>, e: Entry)
    requires 0 <= prev < |log|
    requires Consecutive(prev, entries) && e.index == prev + 1 + |entries|
    ensures MergeOne(Merged(log, prev, entries), e) == Merged(log, prev, entries + [e])
  {
    hide Consecutive;
    var more := entries + [e];
    var k := FirstConflict(log, prev, entries);
    var m := Merged(log, prev, entries);
    ConflictNext(log, prev, entries, e);
    hide FirstConflict;
    if k < |entries| {
      assert m + [e] == log[..prev + 1 + k] + more[k..];
    } else if prev + 1 + |entries| < |log| {
      assert more[|entries|..] == [e];
    } else {
      assert m + [e] == log + more[|log| - (prev + 1)..];
    }
  }

  /** The merge loop. */
  method Merge(log: seq<Entry>, prev: int, entries: seq<Entry>) returns (r: seq<Entry>)
    requires 0 <= prev < |log| && Consecutive(prev, entries)
    ensures r == Merged(log, prev, entries)
  {
    r := log;
    for i := 0 to |entries|
      invariant r == Merged(log, prev, entries[..i])
    {
      assert entries[..i + 1] == entries[..i] + [entries[i]];
      MergeStep(log, prev, entries[..i], entries[i]);
      var entry := entries[i];
      if entry.index < |r| {
        if r[entry.index].term != entry.term {
          r := r[..entry.index] + [entry];
        }
      } else {
        r := r + [entry];
      }
    }
    assert entries[..|entries|] == entries;
  }

  /** A message that has been merged, and any delayed message with fewer of its entries, changes nothing more. */
  lemma MergeAbsorbs(log: seq<Entry>, prev: int, entries: seq<Entry>, n: nat)
    requires 0 <= prev < |log| && Consecutive(prev, entries)
    requires n <= |entries|
    ensures prev < |Merged(log, prev, entries)|
    ensures Merged(Merged(log, prev, entries), prev, entries[..n]) == Merged(log, prev, entries)
  {
    var m := Merged(log, prev, entries);
    var k := FirstConflict(log, prev, entries);
    forall i | 0 <= i < |entries|
      ensures prev + 1 + i < |m| && m[prev + 1 + i].term == entries[i].term
    {
    }
    assert FirstConflict(m, prev, entries[..n]) == n;
  }

  /** Entries before `prev` and `prev` itself are never touched. */
  lemma MergeKeepsPrefix(log: seq<Entry>, prev: int, entries: seq<Entry>)
    requires 0 <= prev < |log|
    ensures |Merged(log, prev, entries)| > prev && Merged(log, prev, entries)[..prev + 1] == log[..prev + 1]
    ensures |Merged(log, prev, entries)| >= prev + 1 + |entries|
  {
  }

  // ---------- log matching ----------

  /** Equal terms at an index mean equal logs up to that index. */
  ghost predicate Matching(a: seq<Entry>, b: seq<Entry>) {
    forall k :: 0 <= k < |a| && k < |b| && a[k].term == b[k].term ==> a[..k + 1] == b[..k + 1]
  }

  /** Merging what a matching log holds after a common entry yields that log, or leaves a log that
      already extends it. */
  lemma MergeMatching(log: seq<Entry>, leader: seq<Entry>, prev: int)
    requires Matching(log, leader)
    requires 0 <= prev < |log| && prev < |leader| && log[prev].term == leader[prev].term
    ensures
      var m := Merged(log, prev, leader[prev + 1..]);
      m == leader || (m == log && leader <= log)
  {
    hide FirstConflict, Matching, Merged;
    var entries := leader[prev + 1..];
    var k := FirstConflict(log, prev, entries);
    // the last index at which the two logs are known to agree
    var last := if prev + k < |log| then prev + k else |log| - 1;
    AgreeAt(log, leader, prev, k, last);
    MergedCases(log, prev, entries, last + 1);
    if k < |entries| || prev + 1 + |entries| > |log| {
      Rejoin(log, leader, prev + 1, last + 1);
    } else {
      assert leader[..last + 1] == leader;
    }
  }

  /** The closed form, told by where the common part ends. */
  lemma MergedCases(log: seq<Entry>, prev: int, entries: seq<Entry>, j: nat)
    requires 0 <= prev < |log|
    requires
      var k := FirstConflict(log, prev, entries);
      j == (if prev + k < |log| then prev + k else |log| - 1) + 1
    ensures
      var k := FirstConflict(log, prev, entries);
      && prev + 1 <= j <= |log|
      && (k < |entries| || prev + 1 + |entries| > |log| ==>
            j - (prev + 1) <= |entries| && Merged(log, prev, entries) == log[..j] + entries[j - (prev + 1)..])
      && (k == |entries| && prev + 1 + |entries| <= |log| ==> Merged(log, prev, entries) == log)
  {
    hide FirstConflict;
    assert log[..|log|] == log;
  }

  lemma AgreeAt(log: seq<Entry>, leader: seq<Entry>, prev: int, k: nat, last: nat)
    requires Matching(log, leader)
    requires 0 <= prev < |log| && prev < |leader| && log[prev].term == leader[prev].term
    requires k == FirstConflict(log, prev, leader[prev + 1..])
    requires last == if prev + k < |log| then prev + k else |log| - 1
    ensures last < |leader| && log[..last + 1] == leader[..last + 1]
  {
    hide FirstConflict, Matching;
    if last > prev {
      assert log[prev + 1 + (last - prev - 1)].term == leader[prev + 1..][last - prev - 1].term;
    }
    MatchingAt(log, leader, last);
  }

  lemma MatchingAt(a: seq<Entry>, b: seq<Entry>, k: nat)
    requires Matching(a, b) && k < |a| && k < |b| && a[k].term == b[k].term
    ensures a[..k + 1] == b[..k + 1]
  {
  }

  /** A common start, followed by the rest of one of the two. */
  lemma Rejoin(log: seq<Entry>, leader: seq<Entry>, a: nat, j: nat)
    requires a <= j <= |log| && j <= |leader| && log[..j] == leader[..j]
    ensures log[..j] + leader[a..][j - a..] == leader
  {
    assert leader[a..][j - a..] == leader[j..];
  }

  // ---------- fast backup ----------

  /** `x` is where the run of equal terms that ends at `prev` begins. */
  ghost predicate RunStart(log: seq<Entry>, prev: nat, x: nat)
    requires prev < |log|
  {
    && 1 <= x <= prev
    && (forall j :: x <= j <= prev ==> log[j].term == log[prev].term)
    && log[x - 1].term != log[prev].term
  }

  /** The follower's scan for XIndex. It stops at index 1 at the latest, so it stays in the log. */
  method FindXIndex(log: seq<Entry>, prev: nat) returns (x: nat)
    requires WellFormedLog(log) && 1 <= prev < |log|
    ensures RunStart(log, prev, x) && x == XIndex(log, prev)
  {
    x := prev;
    while log[x - 1].term == log[prev].term
      invariant 1 <= x <= prev
      invariant forall j :: x <= j <= prev ==> log[j].term == log[prev].term
      decreases x
    {
      x := x - 1;
    }
    RunStartUnique(log, prev, x, XIndex(log, prev));
  }

  ghost function XIndex(log: seq<Entry>, prev: nat): (x: nat)
    requires WellFormedLog(log) && 1 <= prev < |log|
    ensures RunStart(log, prev, x)
    decreases prev
  {
    if log[prev - 1].term != log[prev].term then prev else XIndex(log, prev - 1)
  }

  lemma RunStartUnique(log: seq<Entry>, prev: nat, x: nat, y: nat)
    requires prev < |log| && RunStart(log, prev, x) && RunStart(log, prev, y)
    ensures x == y
  {
    assert log[x - 1].term == log[prev].term || x <= y;
    assert log[y - 1].term == log[prev].term || y <= x;
  }

  /** What a refusing follower reports: the term at `prev` and where it begins, or -1 and its length. */
  ghost function Hint(log: seq<Entry>, prev: nat): (int, int)
    requires WellFormedLog(log) && 1 <= prev
  {
    if prev >= |log| then (-1, |log|) else (log[prev].term, XIndex(log, prev))
  }

  /** The largest `i` at most `from` whose predecessor in the leader's log has term `xterm`; the
      reported index when there is none. */
  function LastOfTerm(leader: seq<Entry>, from: nat, xterm: int, xindex: int): int
    requires from <= |leader|
  {
    if from == 0 then xindex
    else if leader[from - 1].term == xterm then from
    else LastOfTerm(leader, from - 1, xterm, xindex)
  }

  /** Where the leader goes on after a refusal. */
  function RefusalNext(leader: seq<Entry>, prev: nat, xterm: int, xindex: int): int
    requires xterm != -1 ==> prev <= |leader|
  {
    if xterm == -1 then xindex else LastOfTerm(leader, prev, xterm, xindex)
  }

  method NextAfterRefusal(leader: seq<Entry>, prev: nat, xterm: int, xindex: int) returns (next: int)
    requires xterm != -1 ==> prev <= |leader|
    ensures next == RefusalNext(leader, prev, xterm, xindex)
  {
    next := xindex;
    if xterm != -1 {
      var i := prev;
      while i >= 1
        invariant 0 <= i <= prev && next == xindex
        invariant LastOfTerm(leader, prev, xterm, xindex) == LastOfTerm(leader, i, xterm, xindex)
      {
        if leader[i - 1].term == xterm {
          next := i;
          break;
        }
        i := i - 1;
      }
    }
  }

  lemma {:induction false} LastOfTermBounds(leader: seq<Entry>, from: nat, xterm: int, xindex: int)
    requires from <= |leader| && 1 <= xindex <= from
    ensures 1 <= LastOfTerm(leader, from, xterm, xindex) <= from
    ensures
      var i := LastOfTerm(leader, from, xterm, xindex);
      leader[i - 1].term == xterm || (i == xindex && forall k :: 0 <= k < from ==> leader[k].term != xterm)
  {
    LastOfTermIs(leader, from, xterm, xindex);
  }

  lemma {:induction false} LastOfTermIs(leader: seq<Entry>, from: nat, xterm: int, xindex: int)
    requires from <= |leader|
    ensures
      var i := LastOfTerm(leader, from, xterm, xindex);
      || (1 <= i <= from && leader[i - 1].term == xterm && forall k :: i <= k < from ==> leader[k].term != xterm)
      || (i == xindex && forall k :: 0 <= k < from ==> leader[k].term != xterm)
  {
    if from > 0 && leader[from - 1].term != xterm {
      LastOfTermIs(leader, from - 1, xterm, xindex);
    }
  }

  /** The consistency check of a follower. */
  predicate Accepts(log: seq<Entry>, leader: seq<Entry>, prev: nat)
    requires prev < |leader|
  {
    prev < |log| && log[prev].term == leader[prev].term
  }

  /** The follower refuses at `next`, and the leader will try `next'`. */
  ghost predicate Refused(log: seq<Entry>, leader: seq<Entry>, next: nat, next': int)
    requires WellFormedLog(log)
  {
    && 2 <= next <= |leader| && !Accepts(log, leader, next - 1)
    && next' == RefusalNext(leader, next - 1, Hint(log, next - 1).0, Hint(log, next - 1).1)
  }

  /** The first try of a round cannot be refused when nextIndex is 1. */
  lemma FirstIndexAccepted(log: seq<Entry>, leader: seq<Entry>)
    requires WellFormedLog(log) && WellFormedLog(leader)
    ensures Accepts(log, leader, 0)
  {
  }

  /** Every refusal moves nextIndex down, and never below 1. */
  lemma RefusalMovesDown(log: seq<Entry>, leader: seq<Entry>, next: nat, next': int)
    requires WellFormedLog(log) && Refused(log, leader, next, next')
    ensures 1 <= next' < next
  {
    var (xterm, xindex) := Hint(log, next - 1);
    LastOfTermBounds(leader, next - 1, xterm, xindex);
  }
}
