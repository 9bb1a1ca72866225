/** One Raft server: what each region of code under the lock does to its state, as a function on values. */
module RaftPeer {
  import opened Basics
  import opened RaftLog

  datatype Role = Follower | Candidate | Leader

  /** What goes to stable storage. */
  datatype Saved = Saved(log: seq<Entry>, currentTerm: int, votedFor: int)

  datatype Peer = Peer(
    currentTerm: int, votedFor: int, log: seq<Entry>,
    commitIndex: int, lastApplied: int, nextIndex: seq<int>, matchIndex: seq<int>,
    role: Role, voteCount: int,
    disk: Option<Saved>)

  datatype VoteArgs = VoteArgs(term: int, candidateId: int, lastLogIndex: int, lastLogTerm: int)
  datatype VoteReply = VoteReply(term: int, voteGranted: bool)
  datatype AppendArgs = AppendArgs(term: int, leaderId: int, prevLogIndex: int, prevLogTerm: int, leaderCommit: int,
                                   entries: seq<Entry>)
  datatype AppendReply = AppendReply(term: int, success: bool, xTerm: int, xIndex: int)

  /** What the code relies on in its own state. */
  ghost predicate Sane(p: Peer, n: nat, me: nat) {
    && me < n && |p.nextIndex| == n && |p.matchIndex| == n
    && WellFormedLog(p.log)
    && 0 <= p.matchIndex[me] < |p.log|
    && 0 <= p.commitIndex
  }

  /** What a receiver relies on in a message: a leader with a well-formed log built it. */
  ghost predicate SaneArgs(args: AppendArgs) {
    && 0 <= args.prevLogIndex && (args.prevLogIndex == 0 ==> args.prevLogTerm == 0)
    && Consecutive(args.prevLogIndex, args.entries)
    && forall i :: 0 <= i < |args.entries| ==> args.entries[i].term >= 1
  }

  // ---------- stable storage ----------

  function Persist(p: Peer): Peer {
    p.(disk := Some(Saved(p.log, p.currentTerm, p.votedFor)))
  }

  /** What a restart would read back; a server that never saved starts from the defaults. */
  function Recovered(disk: Option<Saved>): Saved {
    if disk.Some? then disk.value else Saved(INITIAL_LOG, 0, -1)
  }

  /** The stable storage holds the current log, term and vote. */
  ghost predicate OnDisk(p: Peer) {
    Recovered(p.disk) == Saved(p.log, p.currentTerm, p.votedFor)
  }

  /** A server made from a disk: everything else is volatile and starts afresh. */
  function Boot(n: nat, disk: Option<Saved>): Peer {
    var s := Recovered(disk);
    Peer(s.currentTerm, s.votedFor, s.log, 0, 0, seq(n, _ => 1), seq(n, _ => 0), Follower, 0, disk)
  }

  function ConvertToFollower(p: Peer): Peer {
    p.(role := Follower, votedFor := -1)
  }

  // ---------- elections ----------

  function LastTerm(p: Peer): int
    requires p.log != []
  {
    p.log[|p.log| - 1].term
  }

  predicate MoreUpToDate(args: VoteArgs, p: Peer)
    requires p.log != []
  {
    || args.lastLogTerm > LastTerm(p)
    || (args.lastLogTerm == LastTerm(p) && args.lastLogIndex >= p.log[|p.log| - 1].index)
  }

  /** The vote handler. An old term does not make it return early. */
  function OnRequestVote(p: Peer, args: VoteArgs): (Peer, VoteReply)
    requires p.log != []
  {
    var q := if args.term > p.currentTerm then ConvertToFollower(p.(currentTerm := args.term)) else p;
    if (q.votedFor == -1 || q.votedFor == args.candidateId) && MoreUpToDate(args, q) then
      var r := Persist(q.(votedFor := args.candidateId));
      (r, VoteReply(r.currentTerm, true))
    else
      (Persist(q), VoteReply(q.currentTerm, false))
  }

  function OnStartElection(p: Peer, me: nat): Peer {
    Persist(p.(currentTerm := p.currentTerm + 1, votedFor := me, voteCount := 1))
  }

  function VoteRequest(p: Peer, me: nat): VoteArgs
    requires p.log != []
  {
    VoteArgs(p.currentTerm, me, |p.log| - 1, LastTerm(p))
  }

  function OnVoteReply(p: Peer, reply: VoteReply): Peer {
    if reply.voteGranted then p.(voteCount := p.voteCount + 1)
    else if reply.term > p.currentTerm then Persist(ConvertToFollower(p.(currentTerm := reply.term)))
    else p
  }

  /** The promotion at the end of a candidate's turn looks at the vote count only. */
  function OnCandidateTurn(p: Peer, n: nat): Peer {
    if p.voteCount > n / 2 then p.(role := Leader) else p
  }

  // ---------- replication ----------

  function NewEntry(p: Peer, term: int, command: Command): Peer {
    p.(log := p.log + [Entry(term, command, |p.log|)])
  }

  /** The second half of Start: it appends with the term read in the first half. */
  function OnStart(p: Peer, me: nat, term: int, command: Command): Peer
    requires me < |p.nextIndex| && me < |p.matchIndex|
  {
    var q := Persist(NewEntry(p, term, command));
    q.(nextIndex := q.nextIndex[me := |q.log|], matchIndex := q.matchIndex[me := |q.log| - 1])
  }

  function AppendRequest(p: Peer, me: nat, to: nat): AppendArgs
    requires to < |p.nextIndex| && 1 <= p.nextIndex[to] <= |p.log|
  {
    var prev := p.nextIndex[to] - 1;
    AppendArgs(p.currentTerm, me, prev, p.log[prev].term, p.commitIndex, p.log[prev + 1..])
  }

  function CommitUpTo(p: Peer, leaderCommit: int): Peer {
    if leaderCommit > p.commitIndex then
      p.(commitIndex := if leaderCommit < |p.log| - 1 then leaderCommit else |p.log| - 1)
    else p
  }

  /** The accepting branch of AppendEntries. */
  ghost function Accepted(p: Peer, me: nat, args: AppendArgs): Peer
    requires me < |p.nextIndex| && me < |p.matchIndex|
    requires 0 <= args.prevLogIndex < |p.log|
  {
    var q := if args.entries == [] then p
             else
               var log := Merged(p.log, args.prevLogIndex, args.entries);
               p.(log := log, nextIndex := p.nextIndex[me := |log|], matchIndex := p.matchIndex[me := |log| - 1]);
    CommitUpTo(q, args.leaderCommit)
  }

  predicate Consistent(p: Peer, args: AppendArgs) {
    0 <= args.prevLogIndex < |p.log| && p.log[args.prevLogIndex].term == args.prevLogTerm
  }

  ghost function OnAppendEntries(p: Peer, n: nat, me: nat, args: AppendArgs): (Peer, AppendReply)
    requires Sane(p, n, me) && SaneArgs(args)
  {
    if args.term < p.currentTerm then
      (Persist(p), AppendReply(p.currentTerm, false, 0, 0))
    else
      var ok := Consistent(p, args);
      var q := if ok then Accepted(p, me, args) else p;
      var r := if args.term > q.currentTerm then ConvertToFollower(q.(currentTerm := args.term)) else q;
      var hint := if ok then (0, 0) else Hint(p.log, args.prevLogIndex);
      (Persist(r), AppendReply(r.currentTerm, ok, hint.0, hint.1))
  }

  /** A leader that is refused with a term looks for it from PrevLogIndex down. That is the only time a
      reply makes it read the log; if the log was cut to less since the request, it panics. */
  predicate ReadsInside(p: Peer, args: AppendArgs, reply: AppendReply) {
    p.role == Leader && reply.term <= p.currentTerm && !reply.success && reply.xTerm != -1 ==>
        args.prevLogIndex <= |p.log|
  }

  function OnAppendReply(p: Peer, to: nat, args: AppendArgs, reply: AppendReply): Peer
    requires to < |p.nextIndex| && to < |p.matchIndex|
    requires 0 <= args.prevLogIndex && ReadsInside(p, args, reply)
  {
    if p.role != Leader then p
    else if reply.term > p.currentTerm then Persist(ConvertToFollower(p.(currentTerm := reply.term)))
    else if !reply.success then
      p.(nextIndex := p.nextIndex[to := RefusalNext(p.log, args.prevLogIndex, reply.xTerm, reply.xIndex)])
    else
      var m := args.prevLogIndex + |args.entries|;
      p.(matchIndex := p.matchIndex[to := m], nextIndex := p.nextIndex[to := m + 1])
  }

  // ---------- what every region keeps ----------

  /** Terms never go down, and within a term a vote is given at most once. */
  ghost predicate VoteKept(p: Peer, q: Peer) {
    && p.currentTerm <= q.currentTerm
    && (p.currentTerm == q.currentTerm && p.votedFor != -1 ==> q.votedFor == p.votedFor)
  }

  lemma RequestVoteKeeps(p: Peer, args: VoteArgs)
    requires p.log != []
    ensures
      var (q, reply) := OnRequestVote(p, args);
      && OnDisk(q) && VoteKept(p, q) && q.log == p.log
      && (reply.voteGranted ==> q.votedFor == args.candidateId && reply.term == q.currentTerm)
      && (args.term > p.currentTerm ==> q.currentTerm == args.term && q.role == Follower)
      && (args.term <= p.currentTerm ==> q.currentTerm == p.currentTerm && q.role == p.role)
  {
  }

  /** A fresh vote in the current term is only given to a log at least as good as the voter's. */
  lemma VoteMeansUpToDate(p: Peer, args: VoteArgs)
    requires WellFormedLog(p.log)
    ensures OnRequestVote(p, args).1.voteGranted <==>
            && (args.term > p.currentTerm || p.votedFor == -1 || p.votedFor == args.candidateId)
            && (args.lastLogTerm > LastTerm(p) || (args.lastLogTerm == LastTerm(p) && args.lastLogIndex >= |p.log| - 1))
  {
  }

  lemma MergedWellFormed(log: seq<Entry>, prev: int, entries: seq<Entry>)
    requires WellFormedLog(log) && 0 <= prev < |log| && Consecutive(prev, entries)
    requires forall i :: 0 <= i < |entries| ==> entries[i].term >= 1
    ensures WellFormedLog(Merged(log, prev, entries))
  {
  }

  lemma AppendEntriesKeeps(p: Peer, n: nat, me: nat, args: AppendArgs)
    requires Sane(p, n, me) && SaneArgs(args) && OnDisk(p)
    ensures
      var (q, reply) := OnAppendEntries(p, n, me, args);
      && OnDisk(q) && VoteKept(p, q) && Sane(q, n, me) && q.voteCount == p.voteCount
      && (args.term < p.currentTerm ==> q == Persist(p) && !reply.success)
      && (args.term > p.currentTerm ==> q.currentTerm == args.term && q.role == Follower)
      && (args.term <= p.currentTerm ==> q.currentTerm == p.currentTerm && q.role == p.role && q.votedFor == p.votedFor)
      && (args.term >= p.currentTerm ==> (reply.success <==> Consistent(p, args)))
      && q.log ==
           if args.term >= p.currentTerm && Consistent(p, args) then Merged(p.log, args.prevLogIndex, args.entries)
           else p.log
  {
    hide Merged, WellFormedLog, Consecutive, Hint;
    if Consistent(p, args) {
      AcceptedSane(p, n, me, args);
      MergedWellFormed(p.log, args.prevLogIndex, args.entries);
      MergeKeepsPrefix(p.log, args.prevLogIndex, args.entries);
      if args.entries == [] {
        MergedEmpty(p.log, args.prevLogIndex);
      }
    }
  }

  lemma AcceptedSane(p: Peer, n: nat, me: nat, args: AppendArgs)
    requires Sane(p, n, me) && SaneArgs(args) && Consistent(p, args)
    ensures Sane(Accepted(p, me, args), n, me)
  {
    hide FirstConflict, Hint;
    MergedWellFormed(p.log, args.prevLogIndex, args.entries);
  }

  lemma MergedEmpty(log: seq<Entry>, prev: int)
    requires 0 <= prev < |log|
    ensures Merged(log, prev, []) == log
  {
  }

  /** A message of a leader whose commitIndex is inside its log never raises the follower's commitIndex
      past the last entry that the message vouches for. */
  lemma CommitWithinMessage(p: Peer, n: nat, me: nat, leader: Peer, from: nat, to: nat)
    requires Sane(p, n, me)
    requires WellFormedLog(leader.log) && leader.commitIndex < |leader.log|
    requires to < |leader.nextIndex| && 1 <= leader.nextIndex[to] <= |leader.log|
    ensures
      var args := AppendRequest(leader, from, to);
      && SaneArgs(args)
      && var q := OnAppendEntries(p, n, me, args).0;
         || q.commitIndex == p.commitIndex
         || (p.commitIndex < q.commitIndex <= args.prevLogIndex + |args.entries| && q.commitIndex < |q.log|)
  {
    hide Merged, Hint, WellFormedLog, SaneArgs;
    var args := AppendRequest(leader, from, to);
    RequestSane(leader, from, to);
    if Consistent(p, args) {
      MergeKeepsPrefix(p.log, args.prevLogIndex, args.entries);
    }
  }

  lemma RequestSane(leader: Peer, from: nat, to: nat)
    requires WellFormedLog(leader.log)
    requires to < |leader.nextIndex| && 1 <= leader.nextIndex[to] <= |leader.log|
    ensures SaneArgs(AppendRequest(leader, from, to))
  {
  }

  // ---------- advancing the commit index ----------

  /** How many servers are known to hold entry `k`. */
  function Holders(matchIndex: seq<int>, k: int): nat {
    if matchIndex == [] then 0
    else Holders(matchIndex[..|matchIndex| - 1], k) + if matchIndex[|matchIndex| - 1] >= k then 1 else 0
  }

  /** The smallest of `bound` and the values of `matchIndex` above `commit`. */
  function SmallestAbove(matchIndex: seq<int>, commit: int, bound: int): int {
    if matchIndex == [] then bound
    else
      var m := SmallestAbove(matchIndex[..|matchIndex| - 1], commit, bound);
      var x := matchIndex[|matchIndex| - 1];
      if x > commit && x < m then x else m
  }

  ghost function OnAdvanceCommit(p: Peer, n: nat, me: nat): Peer
    requires Sane(p, n, me)
  {
    if p.commitIndex < p.matchIndex[me] then
      SmallestAboveBounds(p.matchIndex, p.commitIndex, p.matchIndex[me]);
      var k := SmallestAbove(p.matchIndex, p.commitIndex, p.matchIndex[me]);
      if Holders(p.matchIndex, p.commitIndex + 1) > n / 2 && p.log[k].term == p.currentTerm then p.(commitIndex := k)
      else p
    else p
  }

  lemma {:induction false} SmallestAboveBounds(matchIndex: seq<int>, commit: int, bound: int)
    requires commit < bound
    ensures commit < SmallestAbove(matchIndex, commit, bound) <= bound
    ensures forall i :: 0 <= i < |matchIndex| && matchIndex[i] > commit ==>
              matchIndex[i] >= SmallestAbove(matchIndex, commit, bound)
  {
    if matchIndex != [] {
      SmallestAboveBounds(matchIndex[..|matchIndex| - 1], commit, bound);
    }
  }

  lemma {:induction false} HoldersCount(matchIndex: seq<int>, a: int, b: int)
    requires forall i :: 0 <= i < |matchIndex| ==> (matchIndex[i] >= a <==> matchIndex[i] >= b)
    ensures Holders(matchIndex, a) == Holders(matchIndex, b)
  {
    if matchIndex != [] {
      HoldersCount(matchIndex[..|matchIndex| - 1], a, b);
    }
  }

  /** The commit index only moves up, to an entry of the current term that a majority is known to hold. */
  lemma AdvanceNeedsMajority(p: Peer, n: nat, me: nat)
    requires Sane(p, n, me)
    ensures
      var q := OnAdvanceCommit(p, n, me);
      && (q == p || q == p.(commitIndex := q.commitIndex))
      && (q != p ==>
            && p.commitIndex < q.commitIndex < |p.log|
            && Holders(p.matchIndex, q.commitIndex) > n / 2
            && p.log[q.commitIndex].term == p.currentTerm)
  {
    if p.commitIndex < p.matchIndex[me] {
      SmallestAboveBounds(p.matchIndex, p.commitIndex, p.matchIndex[me]);
      HoldersCount(p.matchIndex, p.commitIndex + 1, SmallestAbove(p.matchIndex, p.commitIndex, p.matchIndex[me]));
    }
  }
}
