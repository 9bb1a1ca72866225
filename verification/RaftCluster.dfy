/** A cluster of Raft servers as a step system. Each step is one region of code under a server's
    lock, or a crash. Messages that were sent stay available, so they may be lost, delayed,
    reordered and delivered more than once.

The fields from `lastElection` on are history: no step of a server depends on them. */
module RaftCluster {
  import opened Basics
  import opened RaftLog
  import opened RaftPeer

  /** Where the main loop of a server is: between turns, about to start an election, or starting
      the goroutines that ask for votes in that election. */
  datatype Phase = Idle | WillElect | Spawning(election: int)

  /** A goroutine of `server` that asks `peer` for a vote in `election`. */
  datatype Asker = Asker(server: nat, election: int, peer: nat)

  datatype Message =
    | VoteReq(asker: Asker, vargs: VoteArgs)
    | VoteRep(asker: Asker, vreply: VoteReply)
    | AppendReq(from: nat, to: nat, args: AppendArgs, source: seq<Entry>)
    | AppendRep(from: nat, to: nat, args: AppendArgs, reply: AppendReply)

  datatype Cluster = Cluster(
    peers: seq<Peer>, phases: seq<Phase>, net: set<Message>,
    spawned: set<Asker>, built: set<Asker>, counted: set<Asker>,
    lastElection: seq<int>, tally: seq<set<nat>>, voted: map<(nat, int), int>, led: set<(int, nat)>,
        logs: set<seq<Entry>>)

  datatype Step =
    | Timeout(i: nat)
    | StartElection(i: nat)
    | Spawn(i: nat, j: nat)
    | EndSpawning(i: nat)
    | BuildVote(asker: Asker)
    | DeliverVote(m: Message)
    | CountVote(m: Message)
    | CandidateTurn(i: nat)
    | StartCommand(i: nat, term: int, command: Command)
    | SendAppend(i: nat, j: nat)
    | DeliverAppend(m: Message)
    | AppendAnswer(m: Message)
    | AdvanceCommit(i: nat)
    | Applied(i: nat, k: int)
    | Crash(i: nat)

  ghost function Init(n: nat): Cluster {
    Cluster(seq(n, _ => Boot(n, None)), seq(n, _ => Idle), {}, {}, {}, {},
            seq(n, _ => 0), seq(n, _ => {}), map[], {}, {INITIAL_LOG})
  }

  ghost function N(c: Cluster): nat {
    |c.peers|
  }

  // ---------- the steps ----------

  ghost predicate InCluster(c: Cluster, a: Asker) {
    a.server < N(c) && a.peer < N(c)
  }

  ghost predicate Enabled(c: Cluster, s: Step)
    requires Base(c)
  {
    match s
    case Timeout(i) => i < N(c) && c.phases[i] == Idle && c.peers[i].role != Leader
    case StartElection(i) => i < N(c) && c.phases[i] == WillElect
    case Spawn(i, j) =>
      && i < N(c) && j < N(c) && i != j && c.phases[i].Spawning? && c.peers[i].role == Candidate
      && Asker(i, c.phases[i].election, j) !in c.spawned
    case EndSpawning(i) => i < N(c) && c.phases[i].Spawning?
    case BuildVote(a) => a in c.spawned && a !in c.built
    case DeliverVote(m) => m in c.net && m.VoteReq?
    case CountVote(m) => m in c.net && m.VoteRep? && m.asker in c.built && m.asker !in c.counted
    case CandidateTurn(i) => i < N(c) && c.phases[i] == Idle && c.peers[i].role != Leader
    case StartCommand(i, term, _) => i < N(c) && (term, i) in c.led
    case SendAppend(i, j) =>
      && i < N(c) && j < N(c) && i != j && c.peers[i].role == Leader
      && 1 <= c.peers[i].nextIndex[j] <= |c.peers[i].log|
    case DeliverAppend(m) => m in c.net && m.AppendReq?
    case AppendAnswer(m) => m in c.net && m.AppendRep? && ReadsInside(c.peers[m.to], m.args, m.reply)
    case AdvanceCommit(i) => i < N(c)
    case Applied(i, k) => i < N(c)
    case Crash(i) => i < N(c)
  }

  /** Server `i` now is `p`. */
  ghost function Put(c: Cluster, i: nat, p: Peer): Cluster
    requires i < N(c)
  {
    c.(peers := c.peers[i := p], logs := c.logs + {p.log})
  }

  ghost function OfOthers(askers: set<Asker>, i: nat): set<Asker> {
    set a | a in askers && a.server != i
  }

  ghost function After(c: Cluster, s: Step): Cluster
    requires Base(c) && Enabled(c, s)
  {
    match s
    case Timeout(i) =>
      Put(c, i, c.peers[i].(role := Candidate)).(phases := c.phases[i := WillElect])
    case StartElection(i) =>
      var p := OnStartElection(c.peers[i], i);
      Put(c, i, p).(phases := c.phases[i := Spawning(p.currentTerm)],
                    lastElection := c.lastElection[i := p.currentTerm], tally := c.tally[i := {i}],
                    voted := c.voted[(i, p.currentTerm) := i])
    case Spawn(i, j) =>
      c.(spawned := c.spawned + {Asker(i, c.phases[i].election, j)})
    case EndSpawning(i) =>
      c.(phases := c.phases[i := Idle])
    case BuildVote(a) =>
      c.(built := c.built + {a}, net := c.net + {VoteReq(a, VoteRequest(c.peers[a.server], a.server))})
    case DeliverVote(m) =>
      var (p, reply) := OnRequestVote(c.peers[m.asker.peer], m.vargs);
      Put(c, m.asker.peer, p).(
        net := c.net + {VoteRep(m.asker, reply)},
        voted := if reply.voteGranted then c.voted[(m.asker.peer, p.currentTerm) := m.vargs.candidateId] else c.voted)
    case CountVote(m) =>
      Put(c, m.asker.server, OnVoteReply(c.peers[m.asker.server], m.vreply)).(
        counted := c.counted + {m.asker},
        tally :=
          if m.vreply.voteGranted then c.tally[m.asker.server := c.tally[m.asker.server] + {m.asker.peer}]
          else c.tally)
    case CandidateTurn(i) =>
      var p := OnCandidateTurn(c.peers[i], N(c));
      Put(c, i, p).(led := if p.role == Leader then c.led + {(p.currentTerm, i)} else c.led)
    case StartCommand(i, term, command) =>
      Put(c, i, OnStart(c.peers[i], i, term, command))
    case SendAppend(i, j) =>
      c.(net := c.net + {AppendReq(i, j, AppendRequest(c.peers[i], i, j), c.peers[i].log)})
    case DeliverAppend(m) =>
      SaneAppend(c, m);
      var (p, reply) := OnAppendEntries(c.peers[m.to], N(c), m.to, m.args);
      Put(c, m.to, p).(net := c.net + {AppendRep(m.to, m.from, m.args, reply)})
    case AppendAnswer(m) =>
      Put(c, m.to, OnAppendReply(c.peers[m.to], m.from, m.args, m.reply))
    case AdvanceCommit(i) =>
      Put(c, i, OnAdvanceCommit(c.peers[i], N(c), i))
    case Applied(i, k) =>
      Put(c, i, c.peers[i].(lastApplied := k))
    case Crash(i) =>
      Put(c, i, Boot(N(c), c.peers[i].disk)).(
        phases := c.phases[i := Idle], tally := c.tally[i := {}],
        spawned := OfOthers(c.spawned, i), built := OfOthers(c.built, i), counted := OfOthers(c.counted, i))
  }

  // ---------- what holds in every run ----------

  ghost predicate SaneMessage(c: Cluster, m: Message) {
    match m
    case VoteReq(a, _) => InCluster(c, a)
    case VoteRep(a, _) => InCluster(c, a)
    case AppendReq(from, to, args, source) =>
      && from < N(c) && to < N(c) && from != to
      && source in c.logs
      && 0 <= args.prevLogIndex < |source| && args.prevLogTerm == source[args.prevLogIndex].term
      && args.entries == source[args.prevLogIndex + 1..]
    case AppendRep(from, to, args, _) => from < N(c) && to < N(c) && from != to && 0 <= args.prevLogIndex
  }

  ghost predicate SanePeer(c: Cluster, i: nat)
    requires i < N(c)
  {
    && Sane(c.peers[i], N(c), i) && OnDisk(c.peers[i])
    && 0 <= c.peers[i].currentTerm
    && (c.peers[i].voteCount > 0 || c.peers[i].role == Leader ==> c.peers[i].currentTerm >= 1)
    && c.peers[i].log in c.logs
  }

  ghost predicate Sizes(c: Cluster) {
    |c.phases| == N(c) && |c.lastElection| == N(c) && |c.tally| == N(c)
  }

  ghost predicate Base(c: Cluster) {
    && Sizes(c)
    && (forall i {:trigger SanePeer(c, i)} {:trigger c.peers[i]} :: 0 <= i < N(c) ==> SanePeer(c, i))
    && (forall log :: log in c.logs ==> WellFormedLog(log))
    && (forall m :: m in c.net ==> SaneMessage(c, m))
    && (forall a :: a in c.spawned ==> InCluster(c, a) && a.server != a.peer && c.peers[a.server].currentTerm >= 1)
    && c.built <= c.spawned
    && (forall i :: 0 <= i < N(c) && c.phases[i].Spawning? ==> c.peers[i].currentTerm >= 1)
    && (forall t, i :: (t, i) in c.led ==> t >= 1 && i < N(c))
  }

  lemma SaneAppend(c: Cluster, m: Message)
    requires Base(c) && m in c.net && m.AppendReq?
    ensures m.from < N(c) && m.to < N(c) && SaneArgs(m.args)
  {
    assert SaneMessage(c, m);
    assert WellFormedLog(m.source);
  }

  lemma InitBase(n: nat)
    ensures Base(Init(n))
  {
    var c := Init(n);
    forall i | 0 <= i < N(c)
      ensures SanePeer(c, i)
    {
    }
  }

  /** What a region of code may do to the server it runs on. */
  ghost predicate Fine(p: Peer, q: Peer, n: nat, i: nat) {
    && Sane(q, n, i) && OnDisk(q)
    && VoteKept(p, q)
    && (q.voteCount > 0 || q.role == Leader ==> q.currentTerm >= 1)
  }

  /** One server changed as it may; messages and askers were added. */
  lemma BaseKept(c: Cluster, c': Cluster, i: nat, p: Peer)
    requires Base(c) && i < N(c) && Fine(c.peers[i], p, N(c), i)
    requires c'.peers == c.peers[i := p] && c'.logs == c.logs + {p.log}
    requires |c'.phases| == |c'.lastElection| == |c'.tally| == N(c)
    requires forall m :: m in c'.net && m !in c.net ==> SaneMessage(c', m)
    requires forall a :: a in c'.spawned && a !in c.spawned ==>
               InCluster(c, a) && a.server != a.peer && c'.peers[a.server].currentTerm >= 1
    requires c'.built <= c'.spawned
    requires forall k :: 0 <= k < N(c) && c'.phases[k].Spawning? ==>
               c.phases[k].Spawning? || c'.peers[k].currentTerm >= 1
    requires forall t, k :: (t, k) in c'.led && (t, k) !in c.led ==> t >= 1 && k < N(c)
    ensures Base(c')
    ensures forall k :: 0 <= k < N(c) ==> VoteKept(c.peers[k], c'.peers[k])
  {
    hide Sane, OnDisk, WellFormedLog;
    assert forall k :: 0 <= k < N(c) ==> c'.peers[k].currentTerm >= c.peers[k].currentTerm;
    forall k {:trigger SanePeer(c', k)} | 0 <= k < N(c')
      ensures SanePeer(c', k)
    {
      assert SanePeer(c, k);
    }
    assert WellFormedLog(p.log) by { SaneLog(p, N(c), i); }
    forall m | m in c'.net
      ensures SaneMessage(c', m)
    {
      if m in c.net {
        assert SaneMessage(c, m);
      }
    }
  }

  lemma SaneLog(p: Peer, n: nat, i: nat)
    requires Sane(p, n, i)
    ensures WellFormedLog(p.log) && p.log != []
  {
  }

  lemma PeerFacts(c: Cluster, i: nat)
    requires Base(c) && i < N(c)
    ensures Fine(c.peers[i], c.peers[i], N(c), i) && c.peers[i].log in c.logs
    ensures WellFormedLog(c.peers[i].log) && c.peers[i].log != []
    ensures 0 <= c.peers[i].currentTerm
  {
    assert SanePeer(c, i);
  }

  lemma AskedBy(c: Cluster, a: Asker)
    requires Base(c) && (a in c.spawned || a in c.built)
    ensures a in c.spawned && a.server < N(c) && a.peer < N(c) && a.server != a.peer && c.peers[a.server].log != []
    ensures c.peers[a.server].currentTerm >= 1
  {
    PeerFacts(c, a.server);
  }

  lemma VoteMailIn(c: Cluster, m: Message)
    requires Base(c) && m in c.net && (m.VoteReq? || m.VoteRep?)
    ensures m.asker.server < N(c) && m.asker.peer < N(c) && c.peers[m.asker.peer].log != []
  {
    assert SaneMessage(c, m);
    PeerFacts(c, m.asker.peer);
  }

  lemma BaseFacts(c: Cluster)
    requires Base(c)
    ensures Sizes(c) && c.built <= c.spawned
    ensures forall t, i :: (t, i) in c.led ==> t >= 1 && i < N(c)
  {
  }

  lemma MessageIn(c: Cluster, m: Message)
    requires Base(c) && m in c.net
    ensures SaneMessage(c, m)
  {
  }

  // ---------- regions of code are fine ----------

  lemma ElectionFine(p: Peer, n: nat, i: nat)
    requires Sane(p, n, i) && 0 <= p.currentTerm
    ensures Fine(p, OnStartElection(p, i), n, i)
  {
  }

  lemma RequestVoteFine(p: Peer, n: nat, i: nat, args: VoteArgs)
    requires Fine(p, p, n, i) && p.log != [] && 0 <= p.currentTerm
    ensures Fine(p, OnRequestVote(p, args).0, n, i)
  {
    hide WellFormedLog;
  }

  lemma VoteReplyFine(p: Peer, n: nat, i: nat, reply: VoteReply)
    requires Fine(p, p, n, i) && p.currentTerm >= 1
    ensures Fine(p, OnVoteReply(p, reply), n, i)
  {
    hide WellFormedLog;
  }

  lemma StartFine(p: Peer, n: nat, i: nat, term: int, command: Command)
    requires Fine(p, p, n, i) && term >= 1
    ensures Fine(p, OnStart(p, i, term, command), n, i)
  {
  }

  lemma AppendEntriesFine(p: Peer, n: nat, i: nat, args: AppendArgs)
    requires Fine(p, p, n, i) && SaneArgs(args) && 0 <= p.currentTerm
    ensures Fine(p, OnAppendEntries(p, n, i, args).0, n, i)
  {
    hide WellFormedLog, Merged, Hint, Consecutive;
    AppendEntriesKeeps(p, n, i, args);
  }

  lemma AppendReplyFine(p: Peer, n: nat, i: nat, from: nat, args: AppendArgs, reply: AppendReply)
    requires Fine(p, p, n, i) && from < n && from != i && 0 <= args.prevLogIndex && ReadsInside(p, args, reply)
    ensures Fine(p, OnAppendReply(p, from, args, reply), n, i)
  {
    hide WellFormedLog;
  }

  lemma AdvanceFine(p: Peer, n: nat, i: nat)
    requires Fine(p, p, n, i)
    ensures Fine(p, OnAdvanceCommit(p, n, i), n, i)
  {
    hide WellFormedLog;
    AdvanceNeedsMajority(p, n, i);
  }

  lemma RoleFine(p: Peer, n: nat, i: nat)
    requires Fine(p, p, n, i)
    ensures Fine(p, p.(role := Candidate), n, i)
    ensures Fine(p, OnCandidateTurn(p, n), n, i)
  {
    hide WellFormedLog;
  }

  lemma AppliedFine(p: Peer, n: nat, i: nat, k: int)
    requires Fine(p, p, n, i)
    ensures Fine(p, p.(lastApplied := k), n, i)
  {
    hide WellFormedLog;
  }

  lemma BootFine(p: Peer, n: nat, i: nat)
    requires Fine(p, p, n, i)
    ensures Fine(p, Boot(n, p.disk), n, i)
    ensures Boot(n, p.disk).log == p.log && Boot(n, p.disk).currentTerm == p.currentTerm &&
              Boot(n, p.disk).votedFor == p.votedFor
  {
    hide WellFormedLog;
  }

  /** The server that a step runs on, if it changes one. */
  ghost function Runs(s: Step): nat {
    match s
    case Timeout(i) => i
    case StartElection(i) => i
    case Spawn(i, _) => i
    case EndSpawning(i) => i
    case BuildVote(a) => a.server
    case DeliverVote(m) => if m.VoteReq? then m.asker.peer else 0
    case CountVote(m) => if m.VoteRep? then m.asker.server else 0
    case CandidateTurn(i) => i
    case StartCommand(i, _, _) => i
    case SendAppend(i, _) => i
    case DeliverAppend(m) => if m.AppendReq? then m.to else 0
    case AppendAnswer(m) => if m.AppendRep? then m.to else 0
    case AdvanceCommit(i) => i
    case Applied(i, _) => i
    case Crash(i) => i
  }

  /** Every step changes at most the server it runs on, and that one as it may. */
  lemma StepFine(c: Cluster, s: Step)
    requires Base(c) && Enabled(c, s)
    ensures
      var i := Runs(s);
      && i < N(c) && |After(c, s).peers| == N(c)
      && After(c, s).peers == c.peers[i := After(c, s).peers[i]]
      && Fine(c.peers[i], After(c, s).peers[i], N(c), i)
      && After(c, s).logs == c.logs + {After(c, s).peers[i].log}
  {
    hide Base, WellFormedLog, Fine, Sane, OnDisk;
    hide OnAppendEntries, OnRequestVote, OnVoteReply, OnStart, OnAppendReply, OnAdvanceCommit, OnStartElection, Boot;
    hide OnCandidateTurn;
    var i := Runs(s);
    BaseFacts(c);
    if s.DeliverVote? || s.CountVote? || s.AppendAnswer? || s.DeliverAppend? {
      MessageIn(c, s.m);
    }
    if s.BuildVote? {
      AskedBy(c, s.asker);
    } else if s.CountVote? {
      AskedBy(c, s.m.asker);
    }
    PeerFacts(c, i);
    var p := c.peers[i];
    match s
    case StartElection(_) => ElectionFine(p, N(c), i);
    case DeliverVote(m) => RequestVoteFine(p, N(c), i, m.vargs);
    case CountVote(m) => VoteReplyFine(p, N(c), i, m.vreply);
    case StartCommand(_, term, command) => StartFine(p, N(c), i, term, command);
    case DeliverAppend(m) =>
      SaneAppend(c, m);
      AppendEntriesFine(p, N(c), i, m.args);
    case AppendAnswer(m) => AppendReplyFine(p, N(c), i, m.from, m.args, m.reply);
    case AdvanceCommit(_) => AdvanceFine(p, N(c), i);
    case Timeout(_) => RoleFine(p, N(c), i);
    case CandidateTurn(_) => RoleFine(p, N(c), i);
    case Applied(_, k) => AppliedFine(p, N(c), i, k);
    case Crash(_) => BootFine(p, N(c), i);
    case _ => assert c.peers[i := p] == c.peers && c.logs + {p.log} == c.logs;
  }

  /** What a step sends is sane. */
  lemma StepSends(c: Cluster, s: Step)
    requires Base(c) && Enabled(c, s) && N(After(c, s)) == N(c)
    requires After(c, s).logs >= c.logs
    ensures forall m :: m in After(c, s).net && m !in c.net ==> SaneMessage(After(c, s), m)
  {
    hide Base, WellFormedLog, Sane, OnDisk, Fine;
    hide OnAppendEntries, OnRequestVote, OnVoteReply, OnStart, OnAppendReply, OnAdvanceCommit, Boot;
    match s
    case SendAppend(i, j) => PeerFacts(c, i);
    case BuildVote(a) => AskedBy(c, a);
    case DeliverVote(m) => MessageIn(c, m);
    case DeliverAppend(m) => MessageIn(c, m);
    case _ =>
  }

  /** What a step adds to the rest of the state. */
  lemma StepAdds(c: Cluster, s: Step)
    requires Base(c) && Enabled(c, s) && N(After(c, s)) == N(c)
    ensures
      var c' := After(c, s);
      && |c'.phases| == |c'.lastElection| == |c'.tally| == N(c)
      && (forall a :: a in c'.spawned && a !in c.spawned ==>
            InCluster(c, a) && a.server != a.peer && c.peers[a.server].currentTerm >= 1)
      && c'.built <= c'.spawned
      && (forall k :: 0 <= k < N(c) && c'.phases[k].Spawning? ==> c.phases[k].Spawning? || c'.peers[k].currentTerm >= 1)
      && (forall t, k :: (t, k) in c'.led && (t, k) !in c.led ==> t >= 1 && k < N(c))
  {
    hide Base, WellFormedLog, Sane, OnDisk, Fine, SaneMessage;
    hide OnAppendEntries, OnRequestVote, OnVoteReply, OnStart, OnAppendReply, OnAdvanceCommit, Boot;
    BaseFacts(c);
    match s
    case BuildVote(a) => AskedBy(c, a);
    case CountVote(m) => VoteMailIn(c, m);
    case Spawn(i, _) => SpawnTerm(c, i);
    case StartElection(i) => PeerFacts(c, i);
    case CandidateTurn(i) => PromotedTerm(c, i);
    case _ =>
  }

  lemma PromotedTerm(c: Cluster, i: nat)
    requires Base(c) && i < N(c)
    ensures c.peers[i].voteCount > 0 || c.peers[i].role == Leader ==> c.peers[i].currentTerm >= 1
  {
    assert SanePeer(c, i);
  }

  lemma SpawnTerm(c: Cluster, i: nat)
    requires Base(c) && i < N(c)
    ensures c.phases[i].Spawning? ==> c.peers[i].currentTerm >= 1
  {
  }

  lemma StepKeepsBase(c: Cluster, s: Step)
    requires Base(c) && Enabled(c, s)
    ensures Base(After(c, s))
    ensures N(After(c, s)) == N(c)
    ensures forall k :: 0 <= k < N(c) ==> VoteKept(c.peers[k], After(c, s).peers[k])
  {
    hide Base, After, Enabled, Fine, VoteKept;
    StepFine(c, s);
    StepSends(c, s);
    StepAdds(c, s);
    var c' := After(c, s);
    var i := Runs(s);
    FineTerm(c.peers[i], c'.peers[i], N(c), i);
    BaseKept(c, c', i, c'.peers[i]);
  }

  lemma FineTerm(p: Peer, q: Peer, n: nat, i: nat)
    requires Fine(p, q, n, i)
    ensures q.currentTerm >= p.currentTerm
  {
  }
}
