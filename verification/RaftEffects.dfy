/** What the regions of a Raft server do, told without the functions that compute it. */
module RaftEffects {
  import opened Basics
  import opened RaftLog
  import opened RaftPeer

  // ---------- elections ----------

  /** Section 5.4.1 of the extended Raft paper: the later last term wins, then the longer log. */
  ghost predicate AtLeastAsUpToDate(a: seq<Entry>, b: seq<Entry>)
    requires a != [] && b != []
  {
    var s, t := a[|a| - 1].term, b[|b| - 1].term;
    s > t || (s == t && |a| >= |b|)
  }

  /** The voter has not given its vote in the candidate's term to another server. */
  predicate Free(voter: Peer, term: int, candidate: nat) {
    term > voter.currentTerm || voter.votedFor == -1 || voter.votedFor == candidate
  }

  /** The request that a candidate builds is granted if and only if the voter is free and the candidate's
      log is at least as up to date as the voter's. */
  lemma VoteComparesLogs(candidate: Peer, me: nat, voter: Peer)
    requires WellFormedLog(candidate.log) && WellFormedLog(voter.log)
    ensures OnRequestVote(voter, VoteRequest(candidate, me)).1.voteGranted <==>
            Free(voter, candidate.currentTerm, me) && AtLeastAsUpToDate(candidate.log, voter.log)
  {
  }

  /** The reply carries the voter's term afterwards, which is the larger of the two; only term, vote,
      role and disk can change. */
  lemma VoteReplyTerm(p: Peer, args: VoteArgs)
    requires p.log != []
    ensures
      var (q, reply) := OnRequestVote(p, args);
      && reply.term == q.currentTerm == (if args.term > p.currentTerm then args.term else p.currentTerm)
      && (!reply.voteGranted ==> q.votedFor == if args.term > p.currentTerm then -1 else p.votedFor)
      && q == p.(currentTerm := q.currentTerm, votedFor := q.votedFor, role := q.role, disk := q.disk)
  {
  }

  /** A grant is counted. A refusal of a newer term makes a follower of that term without a vote, on disk.
      Any other refusal changes nothing. */
  lemma VoteReplyEffect(p: Peer, reply: VoteReply)
    ensures
      var q := OnVoteReply(p, reply);
      && (reply.voteGranted ==> q == p.(voteCount := p.voteCount + 1))
      && (!reply.voteGranted && reply.term > p.currentTerm ==>
            && q.currentTerm == reply.term && q.role == Follower && q.votedFor == -1 && OnDisk(q)
            && q == p.(currentTerm := q.currentTerm, votedFor := q.votedFor, role := q.role, disk := q.disk))
      && (!reply.voteGranted && reply.term <= p.currentTerm ==> q == p)
  {
  }

  /** A server comes up as a follower that knows nothing but what was saved. */
  lemma BootEffect(n: nat, disk: Option<Saved>)
    ensures
      var p := Boot(n, disk);
      && Saved(p.log, p.currentTerm, p.votedFor) ==
           (if disk.Some? then disk.value else Saved([Entry(0, 0, 0)], 0, -1))
      && p.role == Follower && p.voteCount == 0 && p.commitIndex == 0 && p.lastApplied == 0 && p.disk == disk
      && |p.nextIndex| == n && |p.matchIndex| == n
      && forall i :: 0 <= i < n ==> p.nextIndex[i] == 1 && p.matchIndex[i] == 0
  {
  }

  /** An election is in the next term, with the server's own vote, on disk, counted as the only one. */
  lemma ElectionEffect(p: Peer, me: nat)
    ensures
      var q := OnStartElection(p, me);
      && q.currentTerm == p.currentTerm + 1 && q.votedFor == me && q.voteCount == 1 && OnDisk(q)
      && q == p.(currentTerm := q.currentTerm, votedFor := q.votedFor, voteCount := q.voteCount, disk := q.disk)
  {
  }

  /** A server leads after its turn if and only if it led before or more than half of all servers' votes
      were counted. */
  lemma PromotedByMajority(p: Peer, n: nat)
    ensures
      var q := OnCandidateTurn(p, n);
      && (q.role == Leader <==> p.role == Leader || 2 * p.voteCount > n)
      && q == p.(role := q.role)
  {
  }

  // ---------- appending ----------

  /** A new entry is the last of the log, on disk, and the server counts as holding it. */
  lemma StartEffect(p: Peer, me: nat, term: int, command: Command)
    requires me < |p.nextIndex| && me < |p.matchIndex|
    ensures
      var q := OnStart(p, me, term, command);
      && |q.log| == |p.log| + 1 && q.log[..|p.log|] == p.log && q.log[|p.log|] == Entry(term, command, |p.log|)
      && OnDisk(q) && q.matchIndex == p.matchIndex[me := |p.log|] && q.nextIndex == p.nextIndex[me := |p.log| + 1]
      && q == p.(log := q.log, matchIndex := q.matchIndex, nextIndex := q.nextIndex, disk := q.disk)
  {
  }

  /** A request is about everything from nextIndex on, and tells the leader's term and commit index. */
  lemma RequestTells(p: Peer, me: nat, to: nat)
    requires to < |p.nextIndex| && 1 <= p.nextIndex[to] <= |p.log|
    ensures
      var args := AppendRequest(p, me, to);
      && args.term == p.currentTerm && args.leaderId == me && args.leaderCommit == p.commitIndex
      && args.prevLogIndex + 1 == p.nextIndex[to]
      && p.log[..args.prevLogIndex + 1] + args.entries == p.log
      && args.prevLogTerm == p.log[args.prevLogIndex].term
  {
  }

  ghost function Max(a: int, b: int): int {
    if a > b then a else b
  }

  ghost function Min(a: int, b: int): int {
    if a < b then a else b
  }

  /** A follower that accepts a message commits as far as the leader did and its new log goes, and not less
      than before, if and only if the message did not cut the log below what it had committed or brings
      no higher commit index; otherwise the commit index falls to the end of the log. A refused or old
      message leaves it alone. */
  lemma AppendCommits(p: Peer, n: nat, me: nat, args: AppendArgs)
    requires Sane(p, n, me) && SaneArgs(args)
    ensures
      var (q, reply) := OnAppendEntries(p, n, me, args);
      var cut := args.leaderCommit > p.commitIndex >= |q.log|;
      && (!reply.success ==> q.commitIndex == p.commitIndex)
      && (reply.success ==> (q.commitIndex == Max(p.commitIndex, Min(args.leaderCommit, |q.log| - 1)) <==> !cut))
      && (reply.success && cut ==> q.commitIndex == |q.log| - 1 < p.commitIndex)
  {
    hide Hint, WellFormedLog, SaneArgs, Merged;
    if Consistent(p, args) {
      MergeKeepsPrefix(p.log, args.prevLogIndex, args.entries);
    }
  }

  /** Messages of a leader whose commit index is inside its log never do that: a follower that accepts one
      has committed as far as the leader, or further. */
  lemma CommitFollowsLeader(p: Peer, n: nat, me: nat, leader: Peer, from: nat, to: nat)
    requires Sane(p, n, me) && WellFormedLog(leader.log) && leader.commitIndex < |leader.log|
    requires to < |leader.nextIndex| && 1 <= leader.nextIndex[to] <= |leader.log|
    ensures
      var args := AppendRequest(leader, from, to);
      && SaneArgs(args)
      && var (q, reply) := OnAppendEntries(p, n, me, args);
         && (reply.success ==> leader.commitIndex < |q.log|)
         && q.commitIndex == if reply.success then Max(p.commitIndex, leader.commitIndex) else p.commitIndex
  {
    hide Hint, WellFormedLog, SaneArgs, Merged;
    var args := AppendRequest(leader, from, to);
    RequestSane(leader, from, to);
    AppendCommits(p, n, me, args);
    if Consistent(p, args) {
      MergeKeepsPrefix(p.log, args.prevLogIndex, args.entries);
    }
  }

  /** The commit index can fall: a message that replaces an entry the follower took for committed. */
  lemma CommitCanFall() returns (p: Peer, args: AppendArgs)
    ensures Sane(p, 3, 0) && OnDisk(p) && SaneArgs(args)
    ensures OnAppendEntries(p, 3, 0, args).1.success && OnAppendEntries(p, 3, 0, args).0.commitIndex < p.commitIndex
  {
    var log := [Entry(0, 0, 0), Entry(1, 7, 1), Entry(1, 8, 2)];
    p := Peer(1, -1, log, 2, 2, [3, 1, 1], [2, 0, 0], Follower, 0, Some(Saved(log, 1, -1)));
    args := AppendArgs(2, 1, 0, 0, 3, [Entry(2, 9, 1)]);
    assert Merged(log, 0, [Entry(2, 9, 1)]) == [Entry(0, 0, 0), Entry(2, 9, 1)];
  }

  /** What a follower answers: its term afterwards; 0 and 0 to an old message; and, when the entry at
      PrevLogIndex is of another term, that term and where its run begins, or -1 and the length of its
      log when there is no such entry. */
  lemma AppendAnswers(p: Peer, n: nat, me: nat, args: AppendArgs)
    requires Sane(p, n, me) && SaneArgs(args)
    ensures
      var (q, reply) := OnAppendEntries(p, n, me, args);
      && reply.term == q.currentTerm
      && (reply.success <==> args.term >= p.currentTerm && Consistent(p, args))
      && (args.term < p.currentTerm ==> reply.xTerm == 0 && reply.xIndex == 0)
      && (args.term >= p.currentTerm && args.prevLogIndex >= |p.log| ==>
            !reply.success && reply.xTerm == -1 && reply.xIndex == |p.log|)
      && (args.term >= p.currentTerm && args.prevLogIndex < |p.log| && !reply.success ==>
            && reply.xTerm == p.log[args.prevLogIndex].term && reply.xIndex >= 0
            && RunStart(p.log, args.prevLogIndex, reply.xIndex))
  {
    hide Merged, Accepted, XIndex;
  }

  /** A message of a newer term leaves no vote. A follower that took entries counts itself as holding its
      whole log. */
  lemma AppendCounts(p: Peer, n: nat, me: nat, args: AppendArgs)
    requires Sane(p, n, me) && SaneArgs(args)
    ensures
      var (q, reply) := OnAppendEntries(p, n, me, args);
      && q.votedFor == (if args.term > p.currentTerm then -1 else p.votedFor)
      && q.lastApplied == p.lastApplied && q.voteCount == p.voteCount
      && (if reply.success && args.entries != [] then
            q.matchIndex == p.matchIndex[me := |q.log| - 1] && q.nextIndex == p.nextIndex[me := |q.log|]
          else q.matchIndex == p.matchIndex && q.nextIndex == p.nextIndex)
  {
    hide Merged, Hint, WellFormedLog, SaneArgs;
  }

  /** A reply of a newer term makes a leader a follower of that term, on disk; a success records the end of
      the message; a server that does not lead ignores replies. */
  lemma AppendReplyEffect(p: Peer, to: nat, args: AppendArgs, reply: AppendReply)
    requires to < |p.nextIndex| && to < |p.matchIndex| && 0 <= args.prevLogIndex && ReadsInside(p, args, reply)
    ensures
      var q := OnAppendReply(p, to, args, reply);
      && (p.role != Leader ==> q == p)
      && (p.role == Leader && reply.term > p.currentTerm ==>
            && q.currentTerm == reply.term && q.role == Follower && q.votedFor == -1 && OnDisk(q)
            && q == p.(currentTerm := q.currentTerm, votedFor := q.votedFor, role := q.role, disk := q.disk))
      && (p.role == Leader && reply.term <= p.currentTerm && reply.success ==>
            && q.matchIndex == p.matchIndex[to := args.prevLogIndex + |args.entries|]
            && q.nextIndex == p.nextIndex[to := args.prevLogIndex + |args.entries| + 1]
            && q == p.(matchIndex := q.matchIndex, nextIndex := q.nextIndex))
      && (p.role == Leader && reply.term <= p.currentTerm && !reply.success ==>
            q == p.(nextIndex := p.nextIndex[to := q.nextIndex[to]]))
  {
    hide RefusalNext;
  }

  // ---------- committing ----------

  /** The servers known to be past `commit`. */
  ghost function Past(matchIndex: seq<int>, commit: int): set<nat> {
    set i: nat | i < |matchIndex| && matchIndex[i] > commit
  }

  /** `k` is the smallest of the match indices above `commit`. */
  ghost predicate LeastPast(matchIndex: seq<int>, commit: int, k: int) {
    && k > commit && k in matchIndex
    && forall i :: 0 <= i < |matchIndex| && matchIndex[i] > commit ==> k <= matchIndex[i]
  }

  lemma {:induction false} HoldersArePast(matchIndex: seq<int>, commit: int)
    ensures Holders(matchIndex, commit + 1) == |Past(matchIndex, commit)|
    decreases |matchIndex|
  {
    if matchIndex != [] {
      var n := |matchIndex| - 1;
      HoldersArePast(matchIndex[..n], commit);
      var front := Past(matchIndex[..n], commit);
      assert Past(matchIndex, commit) == if matchIndex[n] > commit then front + {n} else front;
    }
  }

  lemma {:induction false} SmallestIs(matchIndex: seq<int>, commit: int, bound: int)
    requires commit < bound
    ensures SmallestAbove(matchIndex, commit, bound) == bound || SmallestAbove(matchIndex, commit, bound) in matchIndex
    decreases |matchIndex|
  {
    if matchIndex != [] {
      SmallestIs(matchIndex[..|matchIndex| - 1], commit, bound);
    }
  }

  /** The commit index rises if and only if the server itself is past it, more than half of all servers are
      known to be past it, and the smallest of their match indices is an entry of the current term; it
      rises to that entry, and nothing else changes. */
  lemma AdvanceExactly(p: Peer, n: nat, me: nat, k: int)
    requires Sane(p, n, me) && (p.matchIndex[me] > p.commitIndex ==> LeastPast(p.matchIndex, p.commitIndex, k))
    ensures p.matchIndex[me] > p.commitIndex ==> p.commitIndex < k < |p.log|
    ensures OnAdvanceCommit(p, n, me) ==
            if && p.matchIndex[me] > p.commitIndex && 2 * |Past(p.matchIndex, p.commitIndex)| > n
               && p.log[k].term == p.currentTerm then p.(commitIndex := k)
            else p
  {
    hide Holders, SmallestAbove, WellFormedLog;
    HoldersArePast(p.matchIndex, p.commitIndex);
    if p.matchIndex[me] > p.commitIndex {
      SmallestAboveBounds(p.matchIndex, p.commitIndex, p.matchIndex[me]);
      SmallestIs(p.matchIndex, p.commitIndex, p.matchIndex[me]);
      assert p.matchIndex[me] in p.matchIndex;
      var s := SmallestAbove(p.matchIndex, p.commitIndex, p.matchIndex[me]);
      var i :| 0 <= i < |p.matchIndex| && p.matchIndex[i] == k;
      var j :| 0 <= j < |p.matchIndex| && p.matchIndex[j] == s;
      assert s == k;
    }
  }

  /** Such a smallest index exists. */
  lemma LeastPastExists(p: Peer, n: nat, me: nat) returns (k: int)
    requires Sane(p, n, me) && p.matchIndex[me] > p.commitIndex
    ensures LeastPast(p.matchIndex, p.commitIndex, k)
  {
    hide SmallestAbove, WellFormedLog;
    k := SmallestAbove(p.matchIndex, p.commitIndex, p.matchIndex[me]);
    SmallestAboveBounds(p.matchIndex, p.commitIndex, p.matchIndex[me]);
    SmallestIs(p.matchIndex, p.commitIndex, p.matchIndex[me]);
  }

  /** An entry of the current term that ends the leader's log commits as soon as a majority, the leader
      among it, has matched it and every other server is not past the commit index. */
  lemma ReplicatedMeansCommitted(p: Peer, n: nat, me: nat, quorum: set<nat>)
    requires Sane(p, n, me) && me in quorum && 2 * |quorum| > n && p.commitIndex < |p.log| - 1
    requires p.log[|p.log| - 1].term == p.currentTerm
    requires forall i :: i in quorum ==> i < n && p.matchIndex[i] == |p.log| - 1
    requires forall i :: 0 <= i < n && i !in quorum ==> p.matchIndex[i] <= p.commitIndex
    ensures OnAdvanceCommit(p, n, me) == p.(commitIndex := |p.log| - 1)
  {
    hide OnAdvanceCommit, WellFormedLog;
    assert Past(p.matchIndex, p.commitIndex) == quorum;
    assert p.matchIndex[me] in p.matchIndex;
    AdvanceExactly(p, n, me, |p.log| - 1);
  }
}
