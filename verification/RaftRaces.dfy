/** Each of the four hypotheses on runs is needed: from states that disciplined runs reach, one step that
    breaks only that hypothesis, followed at most by disciplined steps, breaks election safety or log
    matching. */
module RaftRaces {
  import opened Basics
  import opened RaftLog
  import opened RaftPeer
  import opened RaftCluster
  import opened RaftElection
  import opened RaftMatching
  import opened RaftRuns

  ghost predicate Ends(n: nat, states: seq<Cluster>, steps: seq<Step>, c: Cluster) {
    Run(n, states, steps) && DisciplinedRun(states, steps) && states[|steps|] == c
  }

  /** Some disciplined run of `n` servers reaches `c`. */
  ghost predicate Reachable(n: nat, c: Cluster) {
    exists states: seq<Cluster>, steps: seq<Step> :: Ends(n, states, steps, c)
  }

  lemma InitReachable(n: nat)
    ensures Reachable(n, Init(n))
  {
    assert Ends(n, [Init(n)], [], Init(n));
  }

  lemma ReachableInv(n: nat, c: Cluster)
    requires Reachable(n, c)
    ensures Base(c) && N(c) == n && AllMatch(c)
  {
    hide Base, ElectionInv;
    var states: seq<Cluster>, steps: seq<Step> :| Ends(n, states, steps, c);
    RunInvariants(n, states, steps, |steps|);
    RunBase(n, states, steps, |steps|);
  }

  lemma OneMore(n: nat, c: Cluster, s: Step)
    requires Reachable(n, c) && Base(c) && Enabled(c, s) && Disciplined(c, s)
    ensures Reachable(n, After(c, s)) && Base(After(c, s)) && N(After(c, s)) == N(c)
  {
    hide Base, Enabled, After, Disciplined, Init;
    var states: seq<Cluster>, steps: seq<Step> :| Ends(n, states, steps, c);
    var more, trail := states + [After(c, s)], steps + [s];
    forall k | 0 <= k < |trail|
      ensures Next(more[k], trail[k], more[k + 1]) && Disciplined(more[k], trail[k])
    {
      if k < |steps| {
        assert Next(states[k], steps[k], states[k + 1]);
      }
    }
    assert Ends(n, more, trail, After(c, s));
    StepKeepsBase(c, s);
  }

  /** Server `i` of three is between turns, with an empty log like `j`, and not behind `j` in term. */
  ghost predicate CanRun(c: Cluster, i: nat, j: nat) {
    && Base(c) && N(c) == 3 && i < 3 && j < 3 && i != j
    && c.phases[i] == Idle && c.peers[i].role != Leader
    && c.peers[j].currentTerm <= c.peers[i].currentTerm
    && c.peers[i].log == c.peers[j].log == INITIAL_LOG
    && AskersKnown(c)
  }

  /** No goroutine is about an election that is still to come. */
  ghost predicate AskersKnown(c: Cluster) {
    forall a :: a in c.spawned || a in c.counted ==> a.server < N(c) && a.election <= c.peers[a.server].currentTerm
  }

  /** `i` has the votes for the next term and has not looked at them; `j` follows in that term. */
  ghost predicate HasWon(c: Cluster, d: Cluster, i: nat, j: nat)
    requires CanRun(c, i, j)
  {
    && N(d) == 3 && d.phases == c.phases && d.led == c.led && c.logs <= d.logs && c.net <= d.net && c.built <= d.built
    && (forall a :: a in d.counted && a.server != i ==> a in c.counted)
    && (forall k {:trigger d.peers[k]} :: 0 <= k < 3 && k != i && k != j ==> d.peers[k] == c.peers[k])
    && d.peers[i].role == Candidate && d.peers[i].voteCount == 2
    && d.peers[j].role == Follower && d.peers[j].voteCount == c.peers[j].voteCount
    && d.peers[i].currentTerm == d.peers[j].currentTerm == c.peers[i].currentTerm + 1
    && d.peers[i].log == d.peers[j].log == INITIAL_LOG
    && d.peers[i].nextIndex == c.peers[i].nextIndex && d.peers[j].nextIndex == c.peers[j].nextIndex
    && AskersKnown(d)
  }

  lemma FreshCluster() returns (c: Cluster)
    ensures Reachable(3, c) && CanRun(c, 0, 1)
    ensures c.built == c.counted == {} && |c.phases| == 3
    ensures forall i {:trigger c.peers[i]} :: 0 <= i < 3 ==>
              c.phases[i] == Idle && c.peers[i].role == Follower && c.peers[i].currentTerm == 0 &&
                  c.peers[i].log == INITIAL_LOG && c.peers[i].nextIndex == [1, 1, 1]
  {
    hide Base, WellFormedLog, SaneMessage;
    c := Init(3);
    InitReachable(3);
    InitBase(3);
  }

  /** A server that is not leader opens an election. */
  lemma Opens(c: Cluster, i: nat) returns (d: Cluster)
    requires Reachable(3, c) && Base(c) && N(c) == 3 && i < 3 && c.phases[i] == Idle && c.peers[i].role != Leader
    ensures Reachable(3, d) && Base(d)
    ensures
      var p := c.peers[i].(role := Candidate);
      d == Put(c, i, OnStartElection(p, i)).(
             phases := c.phases[i := Spawning(p.currentTerm + 1)],
             lastElection := d.lastElection, tally := d.tally, voted := d.voted)
  {
    assert Sizes(c);
    PeerFacts(c, i);
    hide Base, Reachable, WellFormedLog, SaneMessage, Fine;
    OneMore(3, c, Timeout(i));
    var c1 := After(c, Timeout(i));
    OneMore(3, c1, StartElection(i));
    d := After(c1, StartElection(i));
    assert c1.peers[i := d.peers[i]] == c.peers[i := d.peers[i]];
    assert d.phases == c.phases[i := d.phases[i]];
    assert d.logs == c.logs + {d.peers[i].log};
  }

  /** A new election, with one goroutine that will ask `j`. */
  lemma Spawns(c: Cluster, i: nat, j: nat) returns (d: Cluster)
    requires Reachable(3, c) && CanRun(c, i, j)
    ensures Reachable(3, d) && Base(d)
    ensures
      var p := c.peers[i].(role := Candidate);
      d == Put(c, i, OnStartElection(p, i)).(
             spawned := c.spawned + {Asker(i, p.currentTerm + 1, j)},
             lastElection := d.lastElection, tally := d.tally, voted := d.voted)
  {
    assert Sizes(c);
    hide Base, Reachable, WellFormedLog, SaneMessage;
    var c2 := Opens(c, i);
    OneMore(3, c2, Spawn(i, j));
    var c3 := After(c2, Spawn(i, j));
    OneMore(3, c3, EndSpawning(i));
    d := After(c3, EndSpawning(i));
    assert d.phases == c.phases;
  }

  /** The candidate's side: a new election, and a request for the other's vote. */
  lemma Asks(c: Cluster, i: nat, j: nat) returns (d: Cluster, m: Message)
    requires Reachable(3, c) && CanRun(c, i, j)
    ensures Reachable(3, d) && Base(d) && m in d.net && m.VoteReq?
    ensures m.asker == Asker(i, c.peers[i].currentTerm + 1, j)
    ensures m.vargs == VoteArgs(c.peers[i].currentTerm + 1, i, 0, 0)
    ensures d.built == c.built + {m.asker} && d.spawned == c.spawned + {m.asker} && d.counted == c.counted
    ensures d.phases == c.phases && d.led == c.led && c.logs <= d.logs && d.peers == c.peers[i := d.peers[i]]
    ensures c.net <= d.net && AskersKnown(d)
    ensures d.peers[i].role == Candidate && d.peers[i].voteCount == 1 && d.peers[i].log == INITIAL_LOG
    ensures d.peers[i].currentTerm == c.peers[i].currentTerm + 1 && d.peers[i].nextIndex == c.peers[i].nextIndex
  {
    hide Base, Reachable, WellFormedLog, SaneMessage;
    var a := Asker(i, c.peers[i].currentTerm + 1, j);
    var c4 := Spawns(c, i, j);
    BuiltBelow(c, a);
    OneMore(3, c4, BuildVote(a));
    d := After(c4, BuildVote(a));
    m := VoteReq(a, VoteRequest(c4.peers[i], i));
  }

  lemma BuiltBelow(c: Cluster, a: Asker)
    requires Base(c) && a !in c.spawned
    ensures a !in c.built
  {
  }

  /** The voter's side: in the new term it has no vote, and logs that are equal are up to date. */
  lemma Grants(c: Cluster, m: Message, t: int) returns (d: Cluster, reply: Message)
    requires Reachable(3, c) && Base(c) && N(c) == 3 && m in c.net && m.VoteReq? && m.asker.peer < 3
    requires m.vargs == VoteArgs(t, m.asker.server, 0, 0)
    requires c.peers[m.asker.peer].currentTerm < t && c.peers[m.asker.peer].log == INITIAL_LOG
    ensures Reachable(3, d) && Base(d) && N(d) == 3
    ensures reply == VoteRep(m.asker, VoteReply(t, true)) && d.net == c.net + {reply}
    ensures
      var p := c.peers[m.asker.peer];
      var q := Persist(p.(role := Follower, currentTerm := t, votedFor := m.asker.server));
      d == Put(c, m.asker.peer, q).(net := d.net, voted := d.voted)
  {
    hide Base, Reachable, WellFormedLog, SaneMessage;
    OneMore(3, c, DeliverVote(m));
    d := After(c, DeliverVote(m));
    reply := VoteRep(m.asker, VoteReply(t, true));
  }

  lemma Counts(c: Cluster, m: Message) returns (d: Cluster)
    requires Reachable(3, c) && Base(c) && N(c) == 3 && m in c.net && m.VoteRep? && m.vreply.voteGranted
    requires m.asker.server < 3 && m.asker in c.built && m.asker !in c.counted
    requires c.peers[m.asker.server].currentTerm == m.asker.election
    ensures Reachable(3, d) && Base(d)
    ensures
      var p := c.peers[m.asker.server];
      d == Put(c, m.asker.server, p.(voteCount := p.voteCount + 1)).(counted := c.counted + {m.asker}, tally := d.tally)
  {
    hide Base, Reachable, WellFormedLog, SaneMessage;
    OneMore(3, c, CountVote(m));
    d := After(c, CountVote(m));
  }

  lemma Wins(c: Cluster, i: nat, j: nat) returns (d: Cluster)
    requires Reachable(3, c) && CanRun(c, i, j)
    ensures Reachable(3, d) && Base(d) && HasWon(c, d, i, j)
  {
    hide Base, Reachable, WellFormedLog, SaneMessage;
    var c1, m := Asks(c, i, j);
    var c2, reply := Grants(c1, m, c.peers[i].currentTerm + 1);
    d := Counts(c2, reply);
  }

  /** Promotion looks at the vote count only. A candidate that has its votes and is then deposed by a
      newer election, in which it votes for the other server, still promotes itself, and the newer term
      has two leaders. */
  lemma PromotionCanRace() returns (c: Cluster, s: Step)
    ensures Reachable(3, c) && Base(c) && N(c) == 3 && Enabled(c, s) && !Disciplined(c, s) && s.CandidateTurn?
    ensures
      var d := After(c, s);
      && |d.peers| == 3
      && d.peers[0].role == Leader && d.peers[1].role == Leader
      && d.peers[0].currentTerm == d.peers[1].currentTerm
  {
    hide Base, Reachable, WellFormedLog, SaneMessage;
    var c0 := FreshCluster();
    var c1 := Wins(c0, 0, 1);
    var c2 := Wins(c1, 1, 0);
    c := TakesOver(c2, 1);
    s := CandidateTurn(0);
  }

  /** A server that is not leader starts an election and asks nobody. */
  lemma Elects(c: Cluster, i: nat) returns (d: Cluster)
    requires Reachable(3, c) && Base(c) && N(c) == 3 && i < 3 && AskersKnown(c)
    requires c.phases[i] == Idle && c.peers[i].role != Leader
    ensures Reachable(3, d) && Base(d) && N(d) == 3 && AskersKnown(d)
    ensures d.peers == c.peers[i := d.peers[i]] && d.phases == c.phases && d.led == c.led
    ensures d.net == c.net && d.built == c.built && d.spawned == c.spawned && d.counted == c.counted
    ensures d.peers[i].role == Candidate && d.peers[i].voteCount == 1 && d.peers[i].log == c.peers[i].log
    ensures d.peers[i].currentTerm == c.peers[i].currentTerm + 1
  {
    assert Sizes(c);
    hide Base, Reachable, WellFormedLog, SaneMessage;
    var c2 := Opens(c, i);
    OneMore(3, c2, EndSpawning(i));
    d := After(c2, EndSpawning(i));
    assert d.phases == c.phases;
  }

  /** Server 0 has its own vote in term 2 and a vote of term 1 that it has not counted; server 1 leads term 2. */
  lemma VoteOutstanding() returns (c: Cluster, m: Message)
    ensures Reachable(3, c) && Base(c) && N(c) == 3
    ensures m in c.net && m.VoteRep? && m.vreply.voteGranted && m.asker == Asker(0, 1, 1) && m.asker in c.built &&
              m.asker !in c.counted
    ensures c.phases[0] == Idle && c.peers[0].role == Candidate && c.peers[0].voteCount == 1 &&
              c.peers[0].currentTerm == 2
    ensures c.peers[1].role == Leader && c.peers[1].currentTerm == 2
  {
    hide Base, Reachable, WellFormedLog, SaneMessage;
    var c0 := FreshCluster();
    var c1, request := Asks(c0, 0, 1);
    var c2, reply := Grants(c1, request, 1);
    var c3 := Elects(c2, 0);
    assert c3.peers[2] == c0.peers[2];
    var c4 := Wins(c3, 1, 2);
    assert c4.peers[0] == c3.peers[0];
    c := TakesOver(c4, 1);
    m := reply;
  }

  /** A granted vote is counted without a look at its term. One that comes back in the next election of
      the candidate makes it leader of a term that has another leader. */
  lemma ReplyCanRace() returns (c: Cluster, s: Step)
    ensures Reachable(3, c) && Base(c) && N(c) == 3 && Enabled(c, s) && !Disciplined(c, s) && s.CountVote?
    ensures
      var d := After(c, s);
      && Base(d) && N(d) == 3 && Enabled(d, CandidateTurn(0)) && Disciplined(d, CandidateTurn(0))
      && var e := After(d, CandidateTurn(0));
         |e.peers| == 3 && e.peers[0].role == e.peers[1].role == Leader &&
             e.peers[0].currentTerm == e.peers[1].currentTerm
  {
    hide Base, Reachable, WellFormedLog, SaneMessage;
    var m;
    c, m := VoteOutstanding();
    s := CountVote(m);
    StepKeepsBase(c, s);
  }

  /** Server 1 led term 1 and has learnt of term 2; a request of server 0 in term 1 is still under way. */
  lemma RequestOutstanding() returns (c: Cluster, m: Message)
    ensures Reachable(3, c) && Base(c) && N(c) == 3
    ensures m in c.net && m.VoteReq? && m.asker == Asker(0, 1, 1) && m.vargs == VoteArgs(1, 0, 0, 0)
    ensures m.asker in c.built && m.asker !in c.counted
    ensures c.phases[0] == Idle && c.peers[0].role == Candidate && c.peers[0].voteCount == 1 &&
              c.peers[0].currentTerm == 1
    ensures c.peers[1].currentTerm == 2 && c.peers[1].votedFor == -1 && c.peers[1].log == INITIAL_LOG && (1, 1) in c.led
  {
    hide Base, Reachable, WellFormedLog, SaneMessage;
    var c0 := FreshCluster();
    var c1, request := Asks(c0, 0, 1);
    assert c1.peers[1] == c0.peers[1] && c1.peers[2] == c0.peers[2];
    var c2 := Wins(c1, 1, 2);
    assert c2.peers[0] == c1.peers[0];
    var c3 := TakesOver(c2, 1);
    var c4 := Elects(c3, 2);
    c := LearnsTerm(c4);
    m := request;
  }

  lemma OldAppendRefused(c: Cluster, m: Message)
    requires Base(c) && m.AppendReq? && m.to < N(c) && SaneArgs(m.args) && m.args.term < c.peers[m.to].currentTerm
    ensures Sane(c.peers[m.to], N(c), m.to)
    ensures OnAppendEntries(c.peers[m.to], N(c), m.to, m.args) ==
              (Persist(c.peers[m.to]), AppendReply(c.peers[m.to].currentTerm, false, 0, 0))
  {
    hide SaneArgs, Accepted, Hint;
    PeerFacts(c, m.to);
  }

  /** Server 1, leader of term 1, sends to server 2, which is in term 2, and reads the refusal. */
  lemma LearnsTerm(c: Cluster) returns (d: Cluster)
    requires Reachable(3, c) && Base(c) && N(c) == 3
    requires c.peers[1].role == Leader && c.peers[1].currentTerm == 1 && c.peers[1].nextIndex == [1, 1, 1]
    requires c.peers[1].log == INITIAL_LOG && c.peers[2].currentTerm == 2
    ensures Reachable(3, d) && Base(d) && N(d) == 3 && d.peers[0] == c.peers[0]
    ensures d.peers[1].currentTerm == 2 && d.peers[1].votedFor == -1 && d.peers[1].log == INITIAL_LOG
    ensures c.net <= d.net && d.led == c.led && d.phases == c.phases && d.built == c.built && d.counted == c.counted
  {
    hide Base, Reachable, WellFormedLog, SaneMessage, OnAppendEntries, Fine, Sane, SaneArgs;
    PeerFacts(c, 2);
    OneMore(3, c, SendAppend(1, 2));
    var c1 := After(c, SendAppend(1, 2));
    var m := AppendReq(1, 2, AppendRequest(c.peers[1], 1, 2), c.peers[1].log);
    SaneAppend(c1, m);
    OldAppendRefused(c1, m);
    var reply := OnAppendEntries(c1.peers[2], 3, 2, m.args).1;
    OneMore(3, c1, DeliverAppend(m));
    var c2 := After(c1, DeliverAppend(m));
    var answer := AppendRep(2, 1, m.args, reply);
    OneMore(3, c2, AppendAnswer(answer));
    d := After(c2, AppendAnswer(answer));
  }

  /** A request of an old term can be granted. A former leader of that term grants it after it lost its
      vote to a newer term, and the old term gets a second leader. */
  lemma RequestCanRace() returns (c: Cluster, s: Step, m: Message)
    ensures Reachable(3, c) && Base(c) && N(c) == 3 && Enabled(c, s) && !Disciplined(c, s)
    ensures s.DeliverVote? && s.m.asker.peer < 3 && s.m.vargs.term < c.peers[s.m.asker.peer].currentTerm
    ensures
      var d := After(c, s);
      && Base(d) && N(d) == 3 && Enabled(d, CountVote(m)) && Disciplined(d, CountVote(m))
      && var e := After(d, CountVote(m));
         && Base(e) && N(e) == 3 && Enabled(e, CandidateTurn(0)) && Disciplined(e, CandidateTurn(0))
         && (1, 0) in After(e, CandidateTurn(0)).led && (1, 1) in After(e, CandidateTurn(0)).led
  {
    hide Base, Reachable, WellFormedLog, SaneMessage;
    var request;
    c, request := RequestOutstanding();
    s := DeliverVote(request);
    StepKeepsBase(c, s);
    m := VoteRep(request.asker, OnRequestVote(c.peers[1], request.vargs).1);
    StepKeepsBase(After(c, s), CountVote(m));
  }

  // ---------- late replies ----------

  /** Server 0 led term 1, and a request of that term to server 2, about index 0, is under way; server 2
      runs in term 2 and has asked server 0. */
  lemma Overrun() returns (c: Cluster, m: Message, request: Message)
    ensures Reachable(3, c) && Base(c) && N(c) == 3 && AskersKnown(c)
    ensures m in c.net && m.AppendReq? && m.from == 0 && m.to == 2 && m.args.term == 1 && m.args.prevLogIndex == 0
    ensures c.peers[2].currentTerm == 2 && c.peers[0].currentTerm == c.peers[1].currentTerm == 1
    ensures request in c.net && request.VoteReq? && request.asker.server == 2 && request.asker.peer == 0
    ensures request.vargs == VoteArgs(2, 2, 0, 0)
    ensures c.phases[0] == Idle && c.peers[0].log == c.peers[1].log == INITIAL_LOG && c.peers[0].nextIndex == [1, 1, 1]
  {
    hide Base, Reachable, WellFormedLog, SaneMessage;
    var c0 := FreshCluster();
    var c1 := Wins(c0, 0, 1);
    assert c1.peers[2] == c0.peers[2];
    var c2 := TakesOver(c1, 0);
    OneMore(3, c2, SendAppend(0, 2));
    var c3 := After(c2, SendAppend(0, 2));
    m := AppendReq(0, 2, AppendRequest(c2.peers[0], 0, 2), c2.peers[0].log);
    var c4 := Elects(c3, 2);
    c, request := Asks(c4, 2, 0);
  }

  /** Server 0 leads term 3, and the refusal of its request of term 1 has come back. */
  lemma RefusalOutstanding() returns (c: Cluster, answer: Message)
    ensures Reachable(3, c) && Base(c) && N(c) == 3
    ensures answer in c.net && answer.AppendRep? && answer.from == 2 && answer.to == 0
    ensures answer.args.prevLogIndex == 0 && answer.reply == AppendReply(2, false, 0, 0)
    ensures c.peers[0].role == Leader && c.peers[0].currentTerm == 3 && c.peers[0].nextIndex == [1, 1, 1]
    ensures c.peers[0].log == INITIAL_LOG
  {
    hide Base, Reachable, WellFormedLog, SaneMessage, OnAppendEntries, Sane, SaneArgs;
    var c0, m, request := Overrun();
    SaneAppend(c0, m);
    OldAppendRefused(c0, m);
    OneMore(3, c0, DeliverAppend(m));
    var c1 := After(c0, DeliverAppend(m));
    answer := AppendRep(2, 0, m.args, AppendReply(2, false, 0, 0));
    var c2, reply := Grants(c1, request, 2);
    var c3 := Wins(c2, 0, 1);
    c := TakesOver(c3, 0);
  }

  /** A refusal for an old term that reaches the server as leader of a later term sets nextIndex to 0; the
      next request to that follower would read before the start of the log. No hypothesis is broken. */
  lemma LateRefusal() returns (c: Cluster, s: Step)
    ensures Reachable(3, c) && Base(c) && N(c) == 3 && Enabled(c, s) && Disciplined(c, s) && s.AppendAnswer?
    ensures
      var d := After(c, s);
      |d.peers| == 3 && d.peers[0].role == Leader && |d.peers[0].nextIndex| == 3 && d.peers[0].nextIndex[2] == 0
  {
    hide Base, Reachable, WellFormedLog, SaneMessage;
    var answer;
    c, answer := RefusalOutstanding();
    s := AppendAnswer(answer);
  }

  // ---------- a command after leadership was lost ----------

  const OLD_LOG: seq<Entry> := [Entry(0, 0, 0), Entry(1, 10, 1), Entry(1, 11, 2)]
  const NEW_LOG: seq<Entry> := [Entry(0, 0, 0), Entry(2, 20, 1)]

  lemma TakesOver(c: Cluster, i: nat) returns (d: Cluster)
    requires Reachable(3, c) && Base(c) && N(c) == 3 && i < 3
    requires c.phases[i] == Idle && c.peers[i].role == Candidate && c.peers[i].voteCount == 2
    ensures Reachable(3, d) && Base(d)
    ensures d == Put(c, i, c.peers[i].(role := Leader)).(led := c.led + {(c.peers[i].currentTerm, i)})
  {
    hide Base, Reachable, WellFormedLog;
    OneMore(3, c, CandidateTurn(i));
    d := After(c, CandidateTurn(i));
  }

  lemma Appends(c: Cluster, i: nat, command: Command) returns (d: Cluster)
    requires Reachable(3, c) && Base(c) && N(c) == 3 && i < 3
    requires c.peers[i].role == Leader && (c.peers[i].currentTerm, i) in c.led
    ensures Reachable(3, d) && Base(d)
    ensures |d.peers| == 3 && d == Put(c, i, d.peers[i]) &&
              d.peers[i].log == c.peers[i].log + [Entry(c.peers[i].currentTerm, command, |c.peers[i].log|)]
    ensures d.peers[i].role == Leader && d.peers[i].currentTerm == c.peers[i].currentTerm
    ensures |d.peers[i].nextIndex| == |c.peers[i].nextIndex|
    ensures forall k :: 0 <= k < |c.peers[i].nextIndex| && k != i ==>
              d.peers[i].nextIndex[k] == c.peers[i].nextIndex[k]
  {
    PeerFacts(c, i);
    hide Base, Reachable, WellFormedLog;
    OneMore(3, c, StartCommand(i, c.peers[i].currentTerm, command));
    d := After(c, StartCommand(i, c.peers[i].currentTerm, command));
  }

  /** A leader with two entries of its own. */
  lemma Leads() returns (c: Cluster)
    ensures Reachable(3, c) && CanRun(c, 1, 2)
    ensures c.peers[1].currentTerm == 1 && c.peers[1].nextIndex == [1, 1, 1]
    ensures c.peers[0].currentTerm == 1 && (1, 0) in c.led && c.peers[0].log == OLD_LOG
  {
    hide Base, Reachable, WellFormedLog, SaneMessage;
    var c0 := FreshCluster();
    var c1 := Wins(c0, 0, 1);
    assert c1.peers[2] == c0.peers[2];
    var c2 := TakesOver(c1, 0);
    var c3 := Appends(c2, 0, 10);
    c := Appends(c3, 0, 11);
  }

  /** Another leader, elected without it, with an entry of its own in a message to the first. */
  lemma Overtaken() returns (c: Cluster, m: Message)
    ensures Reachable(3, c) && Base(c) && N(c) == 3
    ensures c.peers[0].currentTerm == 1 && (1, 0) in c.led && c.peers[0].log == OLD_LOG
    ensures m in c.net && m.AppendReq? && m.to == 0 &&
              m.args == AppendArgs(2, 1, 0, 0, m.args.leaderCommit, [Entry(2, 20, 1)])
  {
    hide Base, Reachable, WellFormedLog;
    var c0 := Leads();
    var c1 := Wins(c0, 1, 2);
    assert c1.peers[0] == c0.peers[0];
    var c2 := TakesOver(c1, 1);
    var c3 := Appends(c2, 1, 20);
    assert c3.peers[1].log == NEW_LOG;
    OneMore(3, c3, SendAppend(1, 0));
    c := After(c3, SendAppend(1, 0));
    m := AppendReq(1, 0, AppendRequest(c3.peers[1], 1, 0), c3.peers[1].log);
  }

  lemma Overwrites(p: Peer, args: AppendArgs)
    requires Sane(p, 3, 0) && OnDisk(p) && SaneArgs(args)
    requires p.log == OLD_LOG && p.currentTerm == 1 &&
               args == AppendArgs(2, 1, 0, 0, args.leaderCommit, [Entry(2, 20, 1)])
    ensures OnAppendEntries(p, 3, 0, args).0.log == NEW_LOG && OnAppendEntries(p, 3, 0, args).0.role == Follower
  {
    AppendEntriesKeeps(p, 3, 0, args);
    hide OnAppendEntries;
    assert Merged(OLD_LOG, 0, [Entry(2, 20, 1)]) == NEW_LOG;
  }

  /** The second half of Start does not look at the role again. A server deposed in between appends with
      its old term behind entries of a newer leader, where it had once had another entry of that term. */
  lemma StartCanRace() returns (c: Cluster, s: Step)
    ensures Reachable(3, c) && Base(c) && N(c) == 3 && Enabled(c, s) && !Disciplined(c, s) && s.StartCommand?
    ensures AllMatch(c) && !AllMatch(After(c, s))
  {
    hide Base, Reachable, WellFormedLog, OnAppendEntries, AllMatch, Sane, SaneArgs, OnDisk;
    var c0, m := Overtaken();
    PeerFacts(c0, 0);
    SaneAppend(c0, m);
    Overwrites(c0.peers[0], m.args);
    OneMore(3, c0, DeliverAppend(m));
    c := After(c0, DeliverAppend(m));
    ReachableInv(3, c);
    s := StartCommand(0, 1, 12);
    Mismatch(After(c, s));
  }

  lemma Mismatch(c: Cluster)
    requires OLD_LOG in c.logs && NEW_LOG + [Entry(1, 12, 2)] in c.logs
    ensures !AllMatch(c)
  {
    var a, b := OLD_LOG, NEW_LOG + [Entry(1, 12, 2)];
    assert a[2].term == b[2].term && a[..3][2] != b[..3][2];
    assert !Matching(a, b);
  }
}
