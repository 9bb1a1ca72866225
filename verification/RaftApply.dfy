/** Delivering committed entries to the service. Every rise of commitIndex starts a goroutine that
    sends a slice of the log and raises lastApplied after each send, without the lock in between, so
    goroutines with overlapping slices run side by side. */
module RaftApply {
  import opened Basics
  import opened RaftLog
  import opened RaftPeer

  /** What a goroutine still has to send, and the index it has sent but not yet raised lastApplied to. */
  datatype Applier = Applier(rest: seq<Entry>, sent: Option<int>)

  /** What sendApplyMsg starts. */
  function Spawned(log: seq<Entry>, lastApplied: int, commitIndex: int): seq<Applier>
    requires commitIndex > lastApplied ==> -1 <= lastApplied && commitIndex < |log|
  {
    if commitIndex > lastApplied then [Applier(log[lastApplied + 1..commitIndex + 1], None)] else []
  }

  /** What is delivered is a message with the command and the index of an entry; `delivered` are the
      indices of `messages`. */
  datatype ApplyMsg = ApplyMsg(command: Command, commandIndex: int)

  datatype Applying = Applying(lastApplied: int, appliers: seq<Applier>, delivered: seq<int>, messages: seq<ApplyMsg>)

  datatype Move =
    | Commit(log: seq<Entry>, commitIndex: int)
    | Deliver(j: nat)
    | Raise(j: nat)

  const START := Applying(0, [], [], [])

  /** A commit may happen with any log, as long as the commit index is inside it; no log is assumed
      to have anything to do with an earlier one. */
  ghost predicate CanMove(a: Applying, m: Move) {
    match m
    case Commit(log, commitIndex) => WellFormedLog(log) && commitIndex < |log|
    case Deliver(j) => j < |a.appliers| && a.appliers[j].sent.None? && a.appliers[j].rest != []
    case Raise(j) => j < |a.appliers| && a.appliers[j].sent.Some?
  }

  function Moved(a: Applying, m: Move): Applying
    requires CanMove(a, m) && -1 <= a.lastApplied
  {
    match m
    case Commit(log, commitIndex) => a.(appliers := a.appliers + Spawned(log, a.lastApplied, commitIndex))
    case Deliver(j) =>
      var g := a.appliers[j];
      a.(appliers := a.appliers[j := Applier(g.rest[1..], Some(g.rest[0].index))],
         delivered := a.delivered + [g.rest[0].index],
         messages := a.messages + [ApplyMsg(g.rest[0].command, g.rest[0].index)])
    case Raise(j) =>
      var g := a.appliers[j];
      a.(lastApplied := if a.lastApplied < g.sent.value then g.sent.value else a.lastApplied,
         appliers := a.appliers[j := g.(sent := None)])
  }

  /** The largest index delivered so far. */
  function Top(delivered: seq<int>): int {
    if delivered == [] then 0
    else
      var t := Top(delivered[..|delivered| - 1]);
      if delivered[|delivered| - 1] > t then delivered[|delivered| - 1] else t
  }

  /** The first delivery of an index comes directly on top of what was delivered before. */
  ghost predicate InOrder(delivered: seq<int>) {
    forall t :: 0 <= t < |delivered| ==> 1 <= delivered[t] <= Top(delivered[..t]) + 1
  }

  /** What a goroutine has left continues at or below the top. */
  ghost predicate Continues(g: Applier, top: int) {
    && (forall i :: 0 <= i < |g.rest| ==> g.rest[i].index == g.rest[0].index + i)
    && (g.rest != [] ==> 1 <= g.rest[0].index <= top + 1)
    && (g.sent.Some? ==> 1 <= g.sent.value <= top)
  }

  ghost predicate ApplyInv(a: Applying) {
    var top := Top(a.delivered);
    && 0 <= a.lastApplied <= top
    && InOrder(a.delivered)
    && (forall j :: 0 <= j < |a.appliers| ==> Continues(a.appliers[j], top))
    && (a.lastApplied == top || exists j :: 0 <= j < |a.appliers| && a.appliers[j].sent == Some(top))
  }

  lemma TopExtends(delivered: seq<int>, k: int)
    ensures Top(delivered + [k]) == if k > Top(delivered) then k else Top(delivered)
  {
    assert (delivered + [k])[..|delivered|] == delivered;
  }

  lemma InOrderExtends(delivered: seq<int>, k: int)
    requires InOrder(delivered) && 1 <= k <= Top(delivered) + 1
    ensures InOrder(delivered + [k])
  {
    var more := delivered + [k];
    forall t | 0 <= t < |more|
      ensures 1 <= more[t] <= Top(more[..t]) + 1
    {
      assert more[..t] == delivered[..t];
      assert t == |delivered| ==> more[..t] == delivered;
    }
  }

  lemma CommitKeeps(a: Applying, log: seq<Entry>, commitIndex: int)
    requires ApplyInv(a) && WellFormedLog(log) && commitIndex < |log|
    ensures ApplyInv(Moved(a, Commit(log, commitIndex)))
  {
    var b := Moved(a, Commit(log, commitIndex));
    if exists j :: 0 <= j < |a.appliers| && a.appliers[j].sent == Some(Top(a.delivered)) {
      var j :| 0 <= j < |a.appliers| && a.appliers[j].sent == Some(Top(a.delivered));
      assert b.appliers[j].sent == Some(Top(b.delivered));
    }
  }

  /** A goroutine that sends its next entry still continues, and so do the others. */
  lemma ContinuesAfter(g: Applier, top: int, top': int)
    requires Continues(g, top) && top <= top'
    ensures Continues(g, top')
    ensures g.rest != [] && g.rest[0].index <= top' ==> Continues(Applier(g.rest[1..], Some(g.rest[0].index)), top')
  {
    if g.rest != [] {
      var tail := g.rest[1..];
      forall i | 0 <= i < |tail|
        ensures tail[i].index == g.rest[0].index + 1 + i
      {
        assert tail[i] == g.rest[i + 1];
      }
    }
  }

  lemma DeliverKeeps(a: Applying, j: nat)
    requires ApplyInv(a) && CanMove(a, Deliver(j))
    ensures ApplyInv(Moved(a, Deliver(j)))
  {
    var b := Moved(a, Deliver(j));
    var k := a.appliers[j].rest[0].index;
    var top := Top(a.delivered);
    assert Continues(a.appliers[j], top);
    assert 1 <= k <= top + 1;
    hide Continues, InOrder, Top;
    TopExtends(a.delivered, k);
    InOrderExtends(a.delivered, k);
    forall i | 0 <= i < |b.appliers|
      ensures Continues(b.appliers[i], Top(b.delivered))
    {
      assert Continues(a.appliers[i], top);
      ContinuesAfter(a.appliers[i], top, Top(b.delivered));
    }
    if k == top + 1 {
      assert b.appliers[j].sent == Some(Top(b.delivered));
    } else if a.lastApplied != top {
      var i :| 0 <= i < |a.appliers| && a.appliers[i].sent == Some(top);
      assert b.appliers[i].sent == Some(Top(b.delivered));
    }
  }

  lemma RaiseKeeps(a: Applying, j: nat)
    requires ApplyInv(a) && CanMove(a, Raise(j))
    ensures ApplyInv(Moved(a, Raise(j)))
  {
    var b := Moved(a, Raise(j));
    var top := Top(a.delivered);
    assert Continues(a.appliers[j], top);
    if b.lastApplied != top {
      var i :| 0 <= i < |a.appliers| && a.appliers[i].sent == Some(top);
      assert b.appliers[i].sent == Some(top);
    }
  }

  lemma MoveKeeps(a: Applying, m: Move)
    requires ApplyInv(a) && CanMove(a, m)
    ensures ApplyInv(Moved(a, m))
  {
    match m
    case Commit(log, commitIndex) => CommitKeeps(a, log, commitIndex);
    case Deliver(j) => DeliverKeeps(a, j);
    case Raise(j) => RaiseKeeps(a, j);
  }

  // ---------- every interleaving ----------

  ghost predicate ApplyRun(states: seq<Applying>, moves: seq<Move>) {
    && |states| == |moves| + 1 && states[0] == START
    && forall k :: 0 <= k < |moves| ==>
       CanMove(states[k], moves[k]) && -1 <= states[k].lastApplied && states[k + 1] == Moved(states[k], moves[k])
  }

  lemma {:induction false} RunKeeps(states: seq<Applying>, moves: seq<Move>, k: nat)
    requires ApplyRun(states, moves) && k < |states|
    ensures ApplyInv(states[k])
  {
    hide ApplyInv, Moved, CanMove;
    if k == 0 {
      StartInv();
    } else {
      RunKeeps(states, moves, k - 1);
      MoveKeeps(states[k - 1], moves[k - 1]);
    }
  }

  lemma StartInv()
    ensures ApplyInv(START)
  {
  }

  ghost predicate Idle(a: Applying) {
    forall j :: 0 <= j < |a.appliers| ==> a.appliers[j].rest == [] && a.appliers[j].sent.None?
  }

  lemma InOrderFront(delivered: seq<int>)
    requires InOrder(delivered) && delivered != []
    ensures
      var n := |delivered| - 1;
      InOrder(delivered[..n]) && 1 <= delivered[n] <= Top(delivered[..n]) + 1
  {
    hide Top;
    var front := delivered[..|delivered| - 1];
    forall t | 0 <= t < |front|
      ensures 1 <= front[t] <= Top(front[..t]) + 1
    {
      assert front[..t] == delivered[..t];
    }
  }

  lemma {:induction false} InOrderIsInterval(delivered: seq<int>, k: int)
    requires InOrder(delivered)
    ensures k in delivered <==> 1 <= k <= Top(delivered)
    decreases |delivered|
  {
    hide InOrder;
    if delivered != [] {
      var n := |delivered| - 1;
      InOrderFront(delivered);
      InOrderIsInterval(delivered[..n], k);
      assert delivered == delivered[..n] + [delivered[n]];
      TopExtends(delivered[..n], delivered[n]);
    }
  }

  /** Ordered apply: whatever the interleaving, the indices delivered are 1 to some top, none before its
      predecessor, and lastApplied is at most the top; it is the top once every goroutine is done. */
  lemma OrderedApply(states: seq<Applying>, moves: seq<Move>, k: nat)
    requires ApplyRun(states, moves) && k < |states|
    ensures
      var a := states[k];
      var top := Top(a.delivered);
      && (forall i :: i in a.delivered <==> 1 <= i <= top)
      && (forall t :: 0 <= t < |a.delivered| && a.delivered[t] > 1 ==> a.delivered[t] - 1 in a.delivered[..t])
      && 0 <= a.lastApplied <= top
      && (Idle(a) ==> a.lastApplied == top)
  {
    RunKeeps(states, moves, k);
    var a := states[k];
    forall i
      ensures i in a.delivered <==> 1 <= i <= Top(a.delivered)
    {
      InOrderIsInterval(a.delivered, i);
    }
    forall t | 0 <= t < |a.delivered| && a.delivered[t] > 1
      ensures a.delivered[t] - 1 in a.delivered[..t]
    {
      var before := a.delivered[..t];
      forall s | 0 <= s < t
        ensures before[..s] == a.delivered[..s]
      {
      }
      InOrderIsInterval(before, a.delivered[t] - 1);
    }
  }

  // ---------- what is delivered ----------

  /** Some commit before time `k` committed an entry with this command at this index. */
  ghost predicate Committed(moves: seq<Move>, k: nat, command: Command, index: int) {
    exists u :: 0 <= u < |moves| && u < k && CommittedBy(moves[u], command, index)
  }

  ghost predicate CommittedBy(m: Move, command: Command, index: int) {
    && m.Commit? && 0 < index <= m.commitIndex && index < |m.log| && m.log[index].command == command
  }

  ghost predicate AllCommitted(a: Applying, moves: seq<Move>, k: nat) {
    && |a.messages| == |a.delivered|
    && (forall t :: 0 <= t < |a.messages| ==>
          && a.messages[t].commandIndex == a.delivered[t]
          && Committed(moves, k, a.messages[t].command, a.messages[t].commandIndex))
    && (forall j, i :: 0 <= j < |a.appliers| && 0 <= i < |a.appliers[j].rest| ==>
          Committed(moves, k, a.appliers[j].rest[i].command, a.appliers[j].rest[i].index))
  }

  lemma CommittedStill(moves: seq<Move>, k: nat)
    ensures forall command, index :: Committed(moves, k, command, index) ==> Committed(moves, k + 1, command, index)
  {
  }

  lemma MoveCommitted(a: Applying, moves: seq<Move>, k: nat)
    requires k < |moves| && CanMove(a, moves[k]) && 0 <= a.lastApplied && AllCommitted(a, moves, k)
    ensures AllCommitted(Moved(a, moves[k]), moves, k + 1)
  {
    CommittedStill(moves, k);
    hide Committed;
    var b := Moved(a, moves[k]);
    if moves[k].Commit? {
      var added := Spawned(moves[k].log, a.lastApplied, moves[k].commitIndex);
      forall j, i | 0 <= j < |added| && 0 <= i < |added[j].rest|
        ensures Committed(moves, k + 1, added[j].rest[i].command, added[j].rest[i].index)
      {
        NewlyCommitted(a, moves, k, i);
      }
      assert b.appliers == a.appliers + added;
    } else if moves[k].Deliver? {
      var g := a.appliers[moves[k].j];
      assert Committed(moves, k, g.rest[0].command, g.rest[0].index);
      forall j, i | 0 <= j < |b.appliers| && 0 <= i < |b.appliers[j].rest|
        ensures Committed(moves, k, b.appliers[j].rest[i].command, b.appliers[j].rest[i].index)
      {
        if j == moves[k].j {
          assert b.appliers[j].rest[i] == g.rest[i + 1];
        }
      }
    } else {
      assert forall j :: 0 <= j < |b.appliers| ==> b.appliers[j].rest == a.appliers[j].rest;
    }
  }

  lemma NewlyCommitted(a: Applying, moves: seq<Move>, k: nat, i: nat)
    requires k < |moves| && moves[k].Commit? && CanMove(a, moves[k]) && 0 <= a.lastApplied < moves[k].commitIndex
    requires i < moves[k].commitIndex - a.lastApplied
    ensures
      var rest := moves[k].log[a.lastApplied + 1..moves[k].commitIndex + 1];
      Committed(moves, k + 1, rest[i].command, rest[i].index)
  {
    var e := moves[k].log[a.lastApplied + 1 + i];
    assert e.index == a.lastApplied + 1 + i;
    assert CommittedBy(moves[k], e.command, e.index);
  }

  /** Every message carries the command of an entry that a commit before it had committed at that index. */
  lemma {:induction false} DeliversWhatWasCommitted(states: seq<Applying>, moves: seq<Move>, k: nat)
    requires ApplyRun(states, moves) && k < |states|
    ensures AllCommitted(states[k], moves, k)
  {
    hide AllCommitted, Moved, CanMove;
    if k == 0 {
      assert AllCommitted(START, moves, 0) by { NothingYet(moves); }
    } else {
      DeliversWhatWasCommitted(states, moves, k - 1);
      RunKeeps(states, moves, k - 1);
      MoveCommitted(states[k - 1], moves, k - 1);
    }
  }

  lemma NothingYet(moves: seq<Move>)
    ensures AllCommitted(START, moves, 0)
  {
  }

  // ---------- when nothing is delivered twice ----------

  /** At most one goroutine has anything to do; it goes on directly above the top. */
  ghost predicate OneAtATime(a: Applying) {
    var top := |a.delivered|;
    && (forall t :: 0 <= t < top ==> a.delivered[t] == t + 1)
    && (forall i, j :: 0 <= i < j < |a.appliers| ==> Done(a.appliers[i]) || Done(a.appliers[j]))
    && (forall j :: 0 <= j < |a.appliers| ==>
       Above(a.appliers[j], top) && (a.appliers[j].sent.Some? ==> a.lastApplied < top))
    && (Idle(a) ==> a.lastApplied == top) && 0 <= a.lastApplied <= top
  }

  ghost predicate Done(g: Applier) {
    g.rest == [] && g.sent.None?
  }

  ghost predicate Above(g: Applier, top: int) {
    && (forall i :: 0 <= i < |g.rest| ==> g.rest[i].index == top + 1 + i)
    && (g.sent.Some? ==> g.sent.value == top)
  }

  /** A commit that starts a goroutine finds all earlier ones done. */
  ghost predicate Patient(a: Applying, m: Move) {
    m.Commit? && m.commitIndex > a.lastApplied ==> Idle(a)
  }

  lemma PatientKeeps(a: Applying, m: Move)
    requires OneAtATime(a) && CanMove(a, m) && Patient(a, m)
    ensures OneAtATime(Moved(a, m))
  {
    var b := Moved(a, m);
    if m.Deliver? {
      var g := a.appliers[m.j];
      assert Above(g, |a.delivered|);
      assert !Done(g) && b.appliers[m.j].sent.Some?;
      forall j | 0 <= j < |b.appliers|
        ensures Above(b.appliers[j], |b.delivered|)
      {
        if j != m.j {
          assert Above(a.appliers[j], |a.delivered|) && Done(a.appliers[j]);
        }
      }
    } else if m.Raise? {
      assert !Done(a.appliers[m.j]) && Above(a.appliers[m.j], |a.delivered|);
    } else if m.commitIndex > a.lastApplied {
      assert b.appliers[|a.appliers|].rest != [];
    } else {
      assert b == a;
    }
  }

  /** If no goroutine is started while another is at work, every index is delivered exactly once. */
  lemma {:induction false} DeliveredOnce(states: seq<Applying>, moves: seq<Move>, k: nat)
    requires ApplyRun(states, moves) && k < |states|
    requires forall t :: 0 <= t < k ==> Patient(states[t], moves[t])
    ensures OneAtATime(states[k])
    ensures forall t :: 0 <= t < |states[k].delivered| ==> states[k].delivered[t] == t + 1
  {
    if k > 0 {
      DeliveredOnce(states, moves, k - 1);
      PatientKeeps(states[k - 1], moves[k - 1]);
    }
  }

  /** Whether a goroutine has index `i` still to send. */
  ghost predicate Owes(g: Applier, i: int) {
    exists k :: 0 <= k < |g.rest| && g.rest[k].index == i
  }

  ghost function Owing(appliers: seq<Applier>, i: int): nat {
    if appliers == [] then 0
    else Owing(appliers[..|appliers| - 1], i) + if Owes(appliers[|appliers| - 1], i) then 1 else 0
  }

  /** How often index `i` was delivered or is still going to be. */
  ghost function Deliveries(a: Applying, i: int): nat {
    multiset(a.delivered)[i] + Owing(a.appliers, i)
  }

  lemma {:induction false} OwingConcat(a: seq<Applier>, b: seq<Applier>, i: int)
    ensures Owing(a + b, i) == Owing(a, i) + Owing(b, i)
    decreases |b|
  {
    if b == [] {
      assert a + b == a;
    } else {
      assert (a + b)[..|a + b| - 1] == a + b[..|b| - 1];
      OwingConcat(a, b[..|b| - 1], i);
    }
  }

  lemma {:induction false} OwingUpdate(a: seq<Applier>, j: nat, g: Applier, i: int)
    requires j < |a|
    ensures Owing(a[j := g], i) + (if Owes(a[j], i) then 1 else 0) == Owing(a, i) + if Owes(g, i) then 1 else 0
    decreases |a|
  {
    var n := |a| - 1;
    if j < n {
      assert a[j := g][..n] == a[..n][j := g];
      OwingUpdate(a[..n], j, g, i);
    } else {
      assert a[j := g][..n] == a[..n];
    }
  }

  lemma {:induction false} NothingOwed(a: seq<Applier>, i: int)
    requires forall j :: 0 <= j < |a| ==> a[j].rest == []
    ensures Owing(a, i) == 0
    decreases |a|
  {
    if a != [] {
      NothingOwed(a[..|a| - 1], i);
    }
  }

  /** A delivery that is due stays due or is made. */
  lemma MoveOwes(a: Applying, m: Move, i: int)
    requires CanMove(a, m) && -1 <= a.lastApplied
    ensures Deliveries(Moved(a, m), i) >= Deliveries(a, i)
  {
    match m
    case Commit(log, commitIndex) => OwingConcat(a.appliers, Spawned(log, a.lastApplied, commitIndex), i);
    case Deliver(j) =>
      var g := a.appliers[j];
      var g' := Applier(g.rest[1..], Some(g.rest[0].index));
      OwingUpdate(a.appliers, j, g', i);
      if Owes(g, i) && g.rest[0].index != i {
        var k :| 0 <= k < |g.rest| && g.rest[k].index == i;
        assert g'.rest[k - 1].index == i;
      }
    case Raise(j) => OwingUpdate(a.appliers, j, a.appliers[j].(sent := None), i);
  }

  lemma {:induction false} RunOwes(states: seq<Applying>, moves: seq<Move>, a: nat, b: nat, i: int)
    requires ApplyRun(states, moves) && a <= b < |states|
    ensures Deliveries(states[b], i) >= Deliveries(states[a], i)
    decreases b
  {
    hide Moved, CanMove, Deliveries;
    if a < b {
      RunOwes(states, moves, a, b - 1, i);
      MoveOwes(states[b - 1], moves[b - 1], i);
    }
  }

  /** A goroutine started while another is at work is going to deliver something a second time. */
  lemma ImpatientDoubles(a: Applying, m: Move) returns (i: int)
    requires OneAtATime(a) && CanMove(a, m) && !Patient(a, m)
    ensures Deliveries(Moved(a, m), i) >= 2
  {
    var j :| 0 <= j < |a.appliers| && !Done(a.appliers[j]);
    var g := a.appliers[j];
    assert Above(g, |a.delivered|);
    i := a.lastApplied + 1;
    var added := Spawned(m.log, a.lastApplied, m.commitIndex);
    OwingConcat(a.appliers, added, i);
    assert Owes(added[0], i) by { assert added[0].rest[0].index == i; }
    assert Owing(added, i) == Owing(added[..0], i) + 1;
    if a.lastApplied < |a.delivered| {
      assert a.delivered[i - 1] == i;
      assert i in multiset(a.delivered);
    } else {
      AtTop(a, j);
      OwingUpdate(a.appliers, j, Applier([], None), i);
    }
  }

  lemma AtTop(a: Applying, j: nat)
    requires OneAtATime(a) && j < |a.appliers| && !Done(a.appliers[j]) && a.lastApplied == |a.delivered|
    ensures Owes(a.appliers[j], a.lastApplied + 1)
  {
    assert Above(a.appliers[j], |a.delivered|) && a.appliers[j].sent.None?;
    assert a.appliers[j].rest[0].index == a.lastApplied + 1;
  }

  lemma {:induction false} CountTwice(s: seq<int>, i: int)
    requires multiset(s)[i] >= 2
    ensures exists a, b :: 0 <= a < b < |s| && s[a] == s[b]
    decreases |s|
  {
    var n := |s| - 1;
    assert s == s[..n] + [s[n]];
    if s[n] == i {
      assert i in multiset(s[..n]);
      var a :| 0 <= a < n && s[..n][a] == i;
      assert s[a] == s[n];
    } else {
      CountTwice(s[..n], i);
      var a, b :| 0 <= a < b < n && s[..n][a] == s[..n][b];
      assert s[a] == s[b];
    }
  }

  lemma {:induction false} FirstImpatient(states: seq<Applying>, moves: seq<Move>, n: nat) returns (k: nat)
    requires ApplyRun(states, moves) && n < |moves| && !Patient(states[n], moves[n])
    ensures k < |moves| && !Patient(states[k], moves[k]) && forall t :: 0 <= t < k ==> Patient(states[t], moves[t])
  {
    if t: nat :| t < n && !Patient(states[t], moves[t]) {
      k := FirstImpatient(states, moves, t);
    } else {
      k := n;
    }
  }

  /** When all goroutines have finished: no index was delivered twice if and only if none of them was
      started while another was at work. */
  lemma OnceIffPatient(states: seq<Applying>, moves: seq<Move>)
    requires ApplyRun(states, moves) && Idle(states[|moves|])
    ensures (forall t :: 0 <= t < |moves| ==> Patient(states[t], moves[t])) <==>
            (forall i, j :: 0 <= i < j < |states[|moves|].delivered| ==>
                states[|moves|].delivered[i] != states[|moves|].delivered[j])
  {
    hide Moved, CanMove, Patient, OneAtATime;
    var last := states[|moves|];
    if forall t :: 0 <= t < |moves| ==> Patient(states[t], moves[t]) {
      DeliveredOnce(states, moves, |moves|);
    } else {
      var n: nat :| n < |moves| && !Patient(states[n], moves[n]);
      var k := FirstImpatient(states, moves, n);
      DeliveredOnce(states, moves, k);
      var i := ImpatientDoubles(states[k], moves[k]);
      RunOwes(states, moves, k + 1, |moves|, i);
      NothingOwed(last.appliers, i);
      CountTwice(last.delivered, i);
    }
  }

  /** Everything that a commit committed is delivered by the time that all goroutines have finished. */
  lemma CommittedIsDelivered(states: seq<Applying>, moves: seq<Move>, u: nat, k: nat, i: int)
    requires ApplyRun(states, moves) && u < k < |states| && moves[u].Commit? && Idle(states[k])
    requires 1 <= i <= moves[u].commitIndex
    ensures i in states[k].delivered
  {
    RunKeeps(states, moves, u);
    var a := states[u];
    assert CanMove(a, moves[u]);
    assert Deliveries(states[u + 1], i) >= 1 by {
      if i <= a.lastApplied {
        InOrderIsInterval(a.delivered, i);
        assert i in multiset(a.delivered);
      } else {
        var added := Spawned(moves[u].log, a.lastApplied, moves[u].commitIndex);
        OwingConcat(a.appliers, added, i);
        assert added[0].rest[i - a.lastApplied - 1].index == i;
        assert Owes(added[0], i);
        assert Owing(added, i) == Owing(added[..0], i) + 1;
      }
    }
    RunOwes(states, moves, u + 1, k, i);
    NothingOwed(states[k].appliers, i);
    assert i in multiset(states[k].delivered);
  }

  /** An index can be delivered twice: a second commit before the first goroutine has raised lastApplied
      starts from the same place. */
  lemma DeliveredTwice() returns (states: seq<Applying>, moves: seq<Move>)
    ensures ApplyRun(states, moves) && states[|moves|].delivered == [1, 1]
  {
    var log := [Entry(0, 0, 0), Entry(1, 7, 1)];
    var a1 := Moved(START, Commit(log, 1));
    var a2 := Moved(a1, Commit(log, 1));
    var a3 := Moved(a2, Deliver(0));
    var a4 := Moved(a3, Deliver(1));
    states := [START, a1, a2, a3, a4];
    moves := [Commit(log, 1), Commit(log, 1), Deliver(0), Deliver(1)];
  }
}
