/** Fast backup: a leader that talks to one follower, and to which the follower answers, brings the
    follower's log in line with its own within as many rounds as nextIndex says. */
module RaftBackup {
  import opened Basics
  import opened RaftLog
  import opened RaftPeer
  import opened RaftEffects

  /** A leader, and a follower of no higher term whose log matches the leader's. */
  ghost predicate Pair(l: Peer, f: Peer, n: nat, i: nat, j: nat) {
    && Sane(l, n, i) && Sane(f, n, j) && OnDisk(f) && i != j
    && l.role == Leader && f.currentTerm <= l.currentTerm
    && Matching(f.log, l.log)
    && 1 <= l.nextIndex[j] <= |l.log|
  }

  /** One request, its handling, and the handling of the reply. */
  ghost function Round(l: Peer, f: Peer, n: nat, i: nat, j: nat): (Peer, Peer)
    requires Pair(l, f, n, i, j)
  {
    var args := AppendRequest(l, i, j);
    RequestSane(l, i, j);
    var (f', reply) := OnAppendEntries(f, n, j, args);
    (OnAppendReply(l, j, args, reply), f')
  }

  ghost predicate InLine(l: Peer, f: Peer, j: nat)
    requires j < |l.nextIndex| && j < |l.matchIndex|
  {
    && l.log <= f.log
    && l.matchIndex[j] == |l.log| - 1 && l.nextIndex[j] == |l.log|
    && (l.commitIndex < |l.log| ==> f.commitIndex >= l.commitIndex)
  }

  /** A round that is accepted ends the backup. */
  lemma AcceptedRound(l: Peer, f: Peer, n: nat, i: nat, j: nat)
    requires Pair(l, f, n, i, j) && Accepts(f.log, l.log, l.nextIndex[j] - 1)
    ensures
      var (l', f') := Round(l, f, n, i, j);
      Pair(l', f', n, i, j) && l'.log == l.log && l'.commitIndex == l.commitIndex && InLine(l', f', j)
  {
    hide Merged, WellFormedLog, Matching, Hint, Consecutive;
    var args := AppendRequest(l, i, j);
    RequestSane(l, i, j);
    if l.commitIndex < |l.log| {
      CommitFollowsLeader(f, n, j, l, i, j);
    }
    AppendEntriesKeeps(f, n, j, args);
    MergeMatching(f.log, l.log, l.nextIndex[j] - 1);
    ExtensionMatches(Round(l, f, n, i, j).1.log, l.log);
  }

  lemma ExtensionMatches(a: seq<Entry>, b: seq<Entry>)
    requires b <= a
    ensures Matching(a, b)
  {
  }

  /** A round that is refused changes nothing but moves nextIndex down, not below 1. */
  lemma RefusedRound(l: Peer, f: Peer, n: nat, i: nat, j: nat)
    requires Pair(l, f, n, i, j) && !Accepts(f.log, l.log, l.nextIndex[j] - 1)
    ensures
      var (l', f') := Round(l, f, n, i, j);
      && Pair(l', f', n, i, j) && l'.log == l.log && f'.log == f.log && l'.nextIndex[j] < l.nextIndex[j]
      && l'.commitIndex == l.commitIndex
  {
    hide Merged, WellFormedLog, Matching, Consecutive, XIndex;
    var args := AppendRequest(l, i, j);
    var next := l.nextIndex[j];
    RequestSane(l, i, j);
    AppendEntriesKeeps(f, n, j, args);
    FirstIndexAccepted(f.log, l.log);
    assert Hint(f.log, next - 1).0 == -1 || next - 1 < |f.log|;
    RefusalMovesDown(f.log, l.log, next,
        RefusalNext(l.log, next - 1, Hint(f.log, next - 1).0, Hint(f.log, next - 1).1));
  }

  ghost function Rounds(l: Peer, f: Peer, n: nat, i: nat, j: nat, k: nat): (Peer, Peer)
    requires Pair(l, f, n, i, j)
    decreases k
  {
    if k == 0 then (l, f)
    else
      RoundKeepsPair(l, f, n, i, j);
      Rounds(Round(l, f, n, i, j).0, Round(l, f, n, i, j).1, n, i, j, k - 1)
  }

  lemma RoundKeepsPair(l: Peer, f: Peer, n: nat, i: nat, j: nat)
    requires Pair(l, f, n, i, j)
    ensures Pair(Round(l, f, n, i, j).0, Round(l, f, n, i, j).1, n, i, j)
    ensures Round(l, f, n, i, j).0.log == l.log && Round(l, f, n, i, j).0.commitIndex == l.commitIndex
  {
    hide Round, Matching, WellFormedLog, OnDisk;
    if Accepts(f.log, l.log, l.nextIndex[j] - 1) {
      AcceptedRound(l, f, n, i, j);
    } else {
      RefusedRound(l, f, n, i, j);
    }
  }

  lemma RoundsStep(l: Peer, f: Peer, n: nat, i: nat, j: nat, k: nat)
    requires Pair(l, f, n, i, j)
    ensures Pair(Round(l, f, n, i, j).0, Round(l, f, n, i, j).1, n, i, j)
    ensures Rounds(l, f, n, i, j, k + 1) == Rounds(Round(l, f, n, i, j).0, Round(l, f, n, i, j).1, n, i, j, k)
    ensures Rounds(l, f, n, i, j, 0) == (l, f)
  {
    hide Round, Pair;
    RoundKeepsPair(l, f, n, i, j);
  }

  /** After `k` rounds the follower is in line. */
  ghost predicate InLineAfter(l: Peer, f: Peer, n: nat, i: nat, j: nat, k: nat)
    requires Pair(l, f, n, i, j)
  {
    var r := Rounds(l, f, n, i, j, k);
    Pair(r.0, r.1, n, i, j) && r.0.log == l.log && r.0.commitIndex == l.commitIndex && InLine(r.0, r.1, j)
  }

  lemma OneRoundEarlier(l: Peer, f: Peer, n: nat, i: nat, j: nat, k: nat)
    requires Pair(l, f, n, i, j)
    ensures Pair(Round(l, f, n, i, j).0, Round(l, f, n, i, j).1, n, i, j)
    ensures InLineAfter(Round(l, f, n, i, j).0, Round(l, f, n, i, j).1, n, i, j, k) ==>
              InLineAfter(l, f, n, i, j, k + 1)
  {
    hide Pair, Round, Rounds;
    RoundKeepsPair(l, f, n, i, j);
    RoundsStep(l, f, n, i, j, k);
  }

  lemma InLineNow(l: Peer, f: Peer, n: nat, i: nat, j: nat)
    requires Pair(l, f, n, i, j) && InLine(l, f, j)
    ensures InLineAfter(l, f, n, i, j, 0)
  {
    hide Round;
  }

  lemma PairBounds(l: Peer, f: Peer, n: nat, i: nat, j: nat)
    requires Pair(l, f, n, i, j)
    ensures j < |l.nextIndex| && j < |l.matchIndex| && 1 <= l.nextIndex[j] <= |l.log|
  {
  }

  /** From every matching pair, at most nextIndex rounds bring the follower in line. */
  lemma {:induction false} BackupFinishes(l: Peer, f: Peer, n: nat, i: nat, j: nat) returns (k: nat)
    requires Pair(l, f, n, i, j)
    ensures 1 <= k <= l.nextIndex[j] && InLineAfter(l, f, n, i, j, k)
    decreases l.nextIndex[j]
  {
    hide Pair, Round, Rounds, Accepts, InLine, InLineAfter, Sane, Matching, WellFormedLog, OnDisk;
    PairBounds(l, f, n, i, j);
    var r := Round(l, f, n, i, j);
    if Accepts(f.log, l.log, l.nextIndex[j] - 1) {
      AcceptedRound(l, f, n, i, j);
      InLineNow(r.0, r.1, n, i, j);
      k := 1;
    } else {
      RefusedRound(l, f, n, i, j);
      PairBounds(r.0, r.1, n, i, j);
      var rest := BackupFinishes(r.0, r.1, n, i, j);
      k := rest + 1;
    }
    OneRoundEarlier(l, f, n, i, j, k - 1);
  }

  /** In line means in line for good: further rounds keep it so. */
  lemma {:induction false} StaysInLine(l: Peer, f: Peer, n: nat, i: nat, j: nat, k: nat)
    requires Pair(l, f, n, i, j) && InLine(l, f, j)
    ensures InLineAfter(l, f, n, i, j, k)
    decreases k
  {
    PairBounds(l, f, n, i, j);
    assert Accepts(f.log, l.log, l.nextIndex[j] - 1);
    hide Pair, Round, Accepts, InLine, InLineAfter;
    if k == 0 {
      InLineNow(l, f, n, i, j);
    } else {
      AcceptedRound(l, f, n, i, j);
      var r := Round(l, f, n, i, j);
      StaysInLine(r.0, r.1, n, i, j, k - 1);
      OneRoundEarlier(l, f, n, i, j, k - 1);
    }
  }

  // ---------- late replies ----------

  lemma {:induction false} LastOfTermInside(leader: seq<Entry>, from: nat, xterm: int, xindex: int)
    requires from <= |leader|
    ensures
      var i := LastOfTerm(leader, from, xterm, xindex);
      1 <= i <= from || i == xindex
  {
    LastOfTermIs(leader, from, xterm, xindex);
  }

  /** What a reply must be for the next request to be about an index in the log: a success about entries
      that the leader still has; a refusal for an old term, which carries no hint, of a request that was
      not about index 0; or any other refusal, unless it reports a log longer than the leader's. */
  predicate KeepsInside(l: Peer, f: Peer, args: AppendArgs) {
    if args.term < f.currentTerm then args.prevLogIndex >= 1
    else if Consistent(f, args) then args.prevLogIndex + |args.entries| < |l.log|
    else args.prevLogIndex < |f.log| || |f.log| <= |l.log|
  }

  /** After a leader has read a reply, nextIndex is in its log if and only if the reply is of that kind.
      Request, reply and leader may be of different times: the leader's log may have been cut since. */
  lemma NextIndexStaysInside(l: Peer, f: Peer, n: nat, i: nat, j: nat, args: AppendArgs)
    requires Sane(l, n, i) && Sane(f, n, j) && i != j && SaneArgs(args)
    requires ReadsInside(l, args, OnAppendEntries(f, n, j, args).1)
    requires l.role == Leader && OnAppendEntries(f, n, j, args).1.term <= l.currentTerm
    ensures 1 <= OnAppendReply(l, j, args, OnAppendEntries(f, n, j, args).1).nextIndex[j] <= |l.log| <==>
            KeepsInside(l, f, args)
  {
    var reply := OnAppendEntries(f, n, j, args).1;
    hide Merged, Accepted, Consecutive, XIndex;
    if args.term < f.currentTerm {
      LastOfTermIs(l.log, args.prevLogIndex, 0, 0);
      assert l.log[0].term == 0;
    } else if !reply.success && reply.xTerm != -1 {
      LastOfTermInside(l.log, args.prevLogIndex, reply.xTerm, reply.xIndex);
    }
  }
}
