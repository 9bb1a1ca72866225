/** Election safety. The code does not compare the term of a vote request, of a vote reply or of a
    promotion with the term of the election it belongs to, so safety needs hypotheses on the run. */
module RaftElection {
  import opened Basics
  import opened RaftLog
  import opened RaftPeer
  import opened RaftCluster

  /** The hypotheses: no vote is granted to a request of an old term; a granted vote is counted only
      while the candidate is in the term of the election; only a candidate is promoted; and a command is
      appended while the server still leads the term it was read in. */
  ghost predicate Disciplined(c: Cluster, s: Step)
    requires Base(c) && Enabled(c, s)
  {
    match s
    case DeliverVote(m) =>
      VoteMailIn(c, m);
      OnRequestVote(c.peers[m.asker.peer], m.vargs).1.voteGranted ==> m.vargs.term >= c.peers[m.asker.peer].currentTerm
    case CountVote(m) =>
      VoteMailIn(c, m);
      m.vreply.voteGranted ==> c.peers[m.asker.server].currentTerm == m.asker.election
    case CandidateTurn(i) => c.peers[i].voteCount > N(c) / 2 ==> c.peers[i].role == Candidate
    case StartCommand(i, term, _) => c.peers[i].role == Leader && c.peers[i].currentTerm == term
    case _ => true
  }

  /** Who voted for `i` in term `t`. */
  ghost function Voters(c: Cluster, t: int, i: int): set<nat> {
    set s: nat | s < N(c) && (s, t) in c.voted && c.voted[(s, t)] == i
  }

  /** The recorded votes are the votes of the servers. */
  ghost predicate Votes(c: Cluster) {
    && (forall s {:trigger c.peers[s]} :: 0 <= s < N(c) && c.peers[s].votedFor != -1 ==>
          (s, c.peers[s].currentTerm) in c.voted && c.voted[(s, c.peers[s].currentTerm)] == c.peers[s].votedFor)
    && (forall s, t :: (s, t) in c.voted ==>
          && s < N(c) && t <= c.peers[s].currentTerm && 0 <= c.voted[(s, t)]
          && (t == c.peers[s].currentTerm ==> c.peers[s].votedFor == c.voted[(s, t)]))
  }

  /** The counted votes are recorded votes of the latest election, each counted once. */
  ghost predicate Tallied(c: Cluster, i: nat)
    requires i < N(c) && Sizes(c)
  {
    && |c.tally[i]| == c.peers[i].voteCount
    && c.lastElection[i] <= c.peers[i].currentTerm
    && c.tally[i] <= Voters(c, c.lastElection[i], i)
    && (forall s :: s in c.tally[i] ==> s == i || Asker(i, c.lastElection[i], s) in c.counted)
  }

  ghost predicate Polls(c: Cluster)
    requires Sizes(c)
  {
    && (forall i {:trigger Tallied(c, i)} {:trigger c.tally[i]} :: 0 <= i < N(c) ==> Tallied(c, i))
    && (forall a :: a in c.spawned ==> a.server < N(c) && a.election <= c.lastElection[a.server])
  }

  /** The server that asked has gone on to a later term. */
  ghost predicate Outdated(c: Cluster, a: Asker) {
    a.server < N(c) && c.peers[a.server].currentTerm > a.election
  }

  ghost predicate RequestOk(c: Cluster, m: Message)
    requires m.VoteReq?
  {
    && m.vargs.candidateId == m.asker.server && m.asker.server != m.asker.peer
    && (m.vargs.term == m.asker.election || Outdated(c, m.asker))
  }

  ghost predicate GrantOk(c: Cluster, m: Message)
    requires m.VoteRep?
  {
    m.asker.peer in Voters(c, m.asker.election, m.asker.server) || Outdated(c, m.asker)
  }

  /** Requests and granted votes belong to the election they were made for, or can no longer matter. */
  ghost predicate Mail(c: Cluster) {
    && (forall m :: m in c.net && m.VoteReq? ==> RequestOk(c, m))
    && (forall m :: m in c.net && m.VoteRep? && m.vreply.voteGranted ==> GrantOk(c, m))
  }

  /** A candidate that is past the start of its election is in the term of that election and has not led it. */
  ghost predicate Candidacy(c: Cluster, i: nat)
    requires i < N(c) && Sizes(c)
  {
    && (c.phases[i].Spawning? ==> c.phases[i].election == c.lastElection[i])
    && (c.phases[i] != Idle ==> c.peers[i].role != Leader)
    && (c.peers[i].role == Candidate && c.phases[i] != WillElect ==>
          c.peers[i].currentTerm == c.lastElection[i] && (c.peers[i].currentTerm, i) !in c.led)
    && (c.peers[i].role == Leader ==> (c.peers[i].currentTerm, i) in c.led)
  }

  ghost predicate Leaders(c: Cluster)
    requires Sizes(c)
  {
    && (forall i {:trigger Candidacy(c, i)} {:trigger c.phases[i]} :: 0 <= i < N(c) ==> Candidacy(c, i))
    && (forall t, i :: (t, i) in c.led ==> i < N(c) && t <= c.peers[i].currentTerm && |Voters(c, t, i)| > N(c) / 2)
  }

  ghost predicate ElectionInv(c: Cluster) {
    && Base(c) && Sizes(c)
    && Votes(c) && Polls(c) && Mail(c) && Leaders(c)
  }

  // ---------- two majorities meet ----------

  lemma MajoritiesMeet(a: set<nat>, b: set<nat>, n: nat) returns (s: nat)
    requires a <= Below(n) && b <= Below(n)
    requires |a| > n / 2 && |b| > n / 2
    ensures s in a && s in b
  {
    SubsetCount(a + b, Below(n));
    assert |a + b| == |a| + |b| - |a * b|;
    assert a * b != {};
    s :| s in a * b;
  }

  /** At most one server ever leads a term. */
  lemma ElectionSafety(c: Cluster, t: int, i: nat, j: nat)
    requires ElectionInv(c)
    requires (t, i) in c.led && (t, j) in c.led
    ensures i == j
  {
    var s := MajoritiesMeet(Voters(c, t, i), Voters(c, t, j), N(c));
  }

  // ---------- votes only accumulate ----------

  lemma VotersGrow(c: Cluster, c': Cluster, t: int, i: int)
    requires N(c) == N(c')
    requires forall k :: k in c.voted ==> k in c'.voted && c'.voted[k] == c.voted[k]
    ensures Voters(c, t, i) <= Voters(c', t, i)
    ensures |Voters(c, t, i)| <= |Voters(c', t, i)|
  {
    SubsetCount(Voters(c, t, i), Voters(c', t, i));
  }

  /** What every step does to the history: votes and terms only grow. */
  ghost predicate Grows(c: Cluster, c': Cluster) {
    && N(c') == N(c) && Sizes(c) && Sizes(c')
    && (forall k :: k in c.voted ==> k in c'.voted && c'.voted[k] == c.voted[k])
    && (forall k {:trigger c'.peers[k]} :: 0 <= k < N(c) ==> c.peers[k].currentTerm <= c'.peers[k].currentTerm)
  }

  /** The poll of server `k` is as it was, perhaps with more goroutines done. */
  lemma SamePoll(c: Cluster, c': Cluster, k: nat)
    requires Grows(c, c') && k < N(c) && Tallied(c, k)
    requires c'.tally[k] == c.tally[k] && c'.lastElection[k] == c.lastElection[k]
    requires c'.peers[k].voteCount == c.peers[k].voteCount
    requires forall a :: a in c.counted && a.server == k ==> a in c'.counted
    ensures Tallied(c', k)
  {
    VotersGrow(c, c', c.lastElection[k], k);
  }

  lemma SameCandidacy(c: Cluster, c': Cluster, k: nat)
    requires Grows(c, c') && k < N(c) && Candidacy(c, k)
    requires c'.phases[k] == c.phases[k] && c'.lastElection[k] == c.lastElection[k]
    requires c'.peers[k].role == c.peers[k].role && c'.peers[k].currentTerm == c.peers[k].currentTerm
    requires c.led <= c'.led && forall t :: (t, k) in c'.led ==> (t, k) in c.led
    ensures Candidacy(c', k)
  {
  }

  /** Earlier leaderships stay backed by their votes. */
  lemma SameLeaders(c: Cluster, c': Cluster)
    requires Grows(c, c') && Leaders(c)
    requires forall k {:trigger Candidacy(c', k)} :: 0 <= k < N(c) ==> Candidacy(c', k)
    requires forall t, k :: (t, k) in c'.led && (t, k) !in c.led ==>
               k < N(c) && t <= c'.peers[k].currentTerm && |Voters(c', t, k)| > N(c) / 2
    ensures Leaders(c')
  {
    hide Candidacy;
    forall t, k | (t, k) in c'.led
      ensures k < N(c') && t <= c'.peers[k].currentTerm && |Voters(c', t, k)| > N(c') / 2
    {
      if (t, k) in c.led {
        VotersGrow(c, c', t, k);
      }
    }
  }

  lemma SameMail(c: Cluster, c': Cluster)
    requires Grows(c, c') && Mail(c)
    requires NewMail(c, c')
    ensures Mail(c')
  {
    forall m | m in c'.net && m.VoteReq?
      ensures RequestOk(c', m)
    {
      if m in c.net {
        assert RequestOk(c, m);
      }
    }
    forall m | m in c'.net && m.VoteRep? && m.vreply.voteGranted
      ensures GrantOk(c', m)
    {
      if m in c.net {
        assert GrantOk(c, m);
        VotersGrow(c, c', m.asker.election, m.asker.server);
      }
    }
  }

  /** The step ran on server `i`; everything about the others is as it was. */
  ghost predicate RanOn(c: Cluster, c': Cluster, i: nat) {
    && Grows(c, c') && i < N(c)
    && (forall k {:trigger c'.peers[k]} {:trigger c'.tally[k]} {:trigger c'.phases[k]} {:trigger c'.lastElection[k]} ::
          0 <= k < N(c) && k != i ==>
            c'.peers[k] == c.peers[k] && c'.phases[k] == c.phases[k] && c'.tally[k] == c.tally[k] &&
                c'.lastElection[k] == c.lastElection[k])
    && c'.lastElection[i] >= c.lastElection[i]
    && (forall a :: a in c.counted && a.server != i ==> a in c'.counted)
    && (forall a :: a in c'.spawned && a !in c.spawned ==> a.server == i && a.election <= c'.lastElection[i])
    && c.led <= c'.led && (forall t, k :: (t, k) in c'.led && k != i ==> (t, k) in c.led)
  }

  ghost predicate NewLeaderships(c: Cluster, c': Cluster) {
    forall t, k :: (t, k) in c'.led && (t, k) !in c.led ==>
      k < N(c') && t <= c'.peers[k].currentTerm && |Voters(c', t, k)| > N(c') / 2
  }

  ghost predicate NewMail(c: Cluster, c': Cluster) {
    && (forall m :: m in c'.net && m !in c.net && m.VoteReq? ==> RequestOk(c', m))
    && (forall m :: m in c'.net && m !in c.net && m.VoteRep? && m.vreply.voteGranted ==> GrantOk(c', m))
  }

  lemma PollsKept(c: Cluster, c': Cluster, i: nat)
    requires RanOn(c, c', i) && Polls(c) && Tallied(c', i)
    ensures Polls(c')
  {
    hide Tallied;
    forall k {:trigger Tallied(c', k)} | 0 <= k < N(c')
      ensures Tallied(c', k)
    {
      if k != i {
        assert Tallied(c, k);
        SamePoll(c, c', k);
      }
    }
  }

  lemma LeadersKept(c: Cluster, c': Cluster, i: nat)
    requires RanOn(c, c', i) && Leaders(c) && Candidacy(c', i) && NewLeaderships(c, c')
    ensures Leaders(c')
  {
    hide Candidacy;
    forall k {:trigger Candidacy(c', k)} | 0 <= k < N(c)
      ensures Candidacy(c', k)
    {
      if k != i {
        assert Candidacy(c, k);
        SameCandidacy(c, c', k);
      }
    }
    SameLeaders(c, c');
  }

  /** It is enough to look at the server on which the step ran. */
  lemma Assemble(c: Cluster, c': Cluster, i: nat)
    requires ElectionInv(c) && Base(c') && RanOn(c, c', i)
    requires Votes(c') && Tallied(c', i) && Candidacy(c', i) && NewLeaderships(c, c') && NewMail(c, c')
    ensures ElectionInv(c')
  {
    hide Base, Votes, Tallied, Candidacy;
    PollsKept(c, c', i);
    LeadersKept(c, c', i);
    SameMail(c, c');
  }

  lemma InvBase(c: Cluster)
    requires ElectionInv(c)
    ensures Base(c) && Sizes(c)
  {
  }

  lemma Local(c: Cluster, i: nat)
    requires ElectionInv(c) && i < N(c)
    ensures Sizes(c) && Votes(c) && Tallied(c, i) && Candidacy(c, i)
  {
  }

  // ---------- the steps ----------

  /** A server that learns of a newer term becomes a follower without a vote; otherwise nothing that
      matters to elections changes. */
  ghost predicate StepsDown(p: Peer, q: Peer) {
    && q.voteCount == p.voteCount
    && if q.currentTerm == p.currentTerm then q.votedFor == p.votedFor && q.role == p.role
       else q.currentTerm > p.currentTerm && q.votedFor == -1 && q.role == Follower
  }

  lemma StepDownKeeps(c: Cluster, c': Cluster, i: nat, p: Peer)
    requires ElectionInv(c) && Base(c') && i < N(c)
    requires c'.peers == c.peers[i := p] && StepsDown(c.peers[i], p)
    requires c'.phases == c.phases && c'.spawned == c.spawned && c.counted <= c'.counted
    requires c'.lastElection == c.lastElection && c'.tally == c.tally && c'.voted == c.voted && c'.led == c.led
    requires forall m :: m in c'.net && m !in c.net ==> !m.VoteReq? && (m.VoteRep? ==> !m.vreply.voteGranted)
    ensures ElectionInv(c')
  {
    hide Base, Polls, Mail, Leaders;
    Local(c, i);
    SamePoll(c, c', i);
    Assemble(c, c', i);
  }

  lemma TimeoutKeeps(c: Cluster, c': Cluster, i: nat)
    requires ElectionInv(c) && Base(c') && i < N(c)
    requires c.phases[i] == Idle && c.peers[i].role != Leader
    requires c' == c.(peers := c.peers[i := c.peers[i].(role := Candidate)], phases := c.phases[i := WillElect])
    ensures ElectionInv(c')
  {
    hide Base, Polls, Mail, Leaders;
    Local(c, i);
    SamePoll(c, c', i);
    Assemble(c, c', i);
  }

  /** A new election: the candidate's own vote, in a term in which it has not voted. */
  lemma StartElectionKeeps(c: Cluster, c': Cluster, i: nat, p: Peer)
    requires ElectionInv(c) && Base(c') && i < N(c)
    requires c.phases[i] == WillElect
    requires p.currentTerm == c.peers[i].currentTerm + 1 && p.votedFor == i && p.voteCount == 1 &&
               p.role == c.peers[i].role
    requires c'.peers == c.peers[i := p] && c'.phases == c.phases[i := Spawning(p.currentTerm)]
    requires c'.lastElection == c.lastElection[i := p.currentTerm] && c'.tally == c.tally[i := {i}]
    requires c'.voted == c.voted[(i, p.currentTerm) := i]
    requires c'.net == c.net && c'.led == c.led && c'.spawned == c.spawned && c'.counted == c.counted
    ensures ElectionInv(c')
  {
    hide Base, Polls, Mail, Leaders;
    Local(c, i);
    LeadersBound(c, i);
    assert (i, p.currentTerm) !in c.voted;
    Assemble(c, c', i);
  }

  lemma MailFacts(c: Cluster, m: Message)
    requires ElectionInv(c) && m in c.net
    ensures m.VoteReq? ==> RequestOk(c, m)
    ensures m.VoteRep? && m.vreply.voteGranted ==> GrantOk(c, m)
  {
  }

  lemma AskerFacts(c: Cluster, a: Asker)
    requires ElectionInv(c) && a in c.spawned
    ensures a.server < N(c) && c.peers[a.server].currentTerm >= c.lastElection[a.server] >= a.election
  {
    assert Tallied(c, a.server);
  }

  lemma LeadersBound(c: Cluster, i: nat)
    requires ElectionInv(c)
    ensures forall t :: (t, i) in c.led ==> i < N(c) && t <= c.peers[i].currentTerm
  {
  }

  /** Starting the goroutines, and a goroutine that builds its request. */
  lemma AskingKeeps(c: Cluster, c': Cluster, i: nat)
    requires ElectionInv(c) && Base(c') && i < N(c)
    requires c'.peers == c.peers && c'.voted == c.voted && c'.led == c.led && c'.counted == c.counted
    requires c'.lastElection == c.lastElection && c'.tally == c.tally
    requires c'.phases == c.phases || (c.phases[i].Spawning? && c'.phases == c.phases[i := Idle])
    requires forall a :: a in c'.spawned && a !in c.spawned ==> a.server == i && a.election <= c.lastElection[i]
    requires forall m :: m in c'.net && m !in c.net ==> m.VoteReq? && RequestOk(c', m)
    ensures ElectionInv(c')
  {
    hide Base, Polls, Mail, Leaders;
    Local(c, i);
    SamePoll(c, c', i);
    Assemble(c, c', i);
  }

  /** What the vote handler did, when the request was not out of date. */
  ghost predicate VoteHandled(p: Peer, q: Peer, args: VoteArgs, granted: bool) {
    && q.currentTerm == args.term >= p.currentTerm
    && q.voteCount == p.voteCount
    && q.role == (if args.term > p.currentTerm then Follower else p.role)
    && (granted ==> q.votedFor == args.candidateId)
    && (granted && args.term == p.currentTerm ==> p.votedFor == -1 || p.votedFor == args.candidateId)
    && (!granted ==> q.votedFor == if args.term > p.currentTerm then -1 else p.votedFor)
  }

  /** The voter is in the term of the request afterwards, so a granted vote is a vote in that election. */
  lemma DeliverVoteKeeps(c: Cluster, c': Cluster, m: Message, p: Peer, reply: VoteReply)
    requires ElectionInv(c) && Base(c')
    requires m in c.net && m.VoteReq? && m.asker.peer < N(c) && 0 <= m.asker.server
    requires VoteHandled(c.peers[m.asker.peer], p, m.vargs, reply.voteGranted)
    requires c'.peers == c.peers[m.asker.peer := p] && c'.net == c.net + {VoteRep(m.asker, reply)}
    requires c'.voted == if reply.voteGranted then c.voted[(m.asker.peer, p.currentTerm) := m.vargs.candidateId]
               else c.voted
    requires c'.phases == c.phases && c'.spawned == c.spawned && c'.counted == c.counted
    requires c'.lastElection == c.lastElection && c'.tally == c.tally && c'.led == c.led
    ensures ElectionInv(c')
  {
    hide Base, Polls, Mail, Leaders, Votes, Tallied;
    var i := m.asker.peer;
    MailFacts(c, m);
    Local(c, i);
    VoteRecorded(c, c', i, p, m.vargs, reply.voteGranted);
    SamePoll(c, c', i);
    Assemble(c, c', i);
  }

  /** A vote is recorded in a term in which the voter had not voted, or had voted the same. */
  lemma VoteRecorded(c: Cluster, c': Cluster, i: nat, p: Peer, args: VoteArgs, granted: bool)
    requires Votes(c) && i < N(c) && 0 <= args.candidateId
    requires VoteHandled(c.peers[i], p, args, granted)
    requires c'.peers == c.peers[i := p]
    requires c'.voted == if granted then c.voted[(i, p.currentTerm) := args.candidateId] else c.voted
    ensures Votes(c')
    ensures forall k :: k in c.voted ==> k in c'.voted && c'.voted[k] == c.voted[k]
    ensures granted ==> i in Voters(c', args.term, args.candidateId)
  {
  }

  /** A reply is counted in the term of its election, once: the tally grows by a vote of that election. */
  lemma CountVoteKeeps(c: Cluster, c': Cluster, m: Message, p: Peer)
    requires ElectionInv(c) && Base(c')
    requires m in c.net && m.VoteRep? && m.vreply.voteGranted && m.asker.server < N(c) && m.asker.peer != m.asker.server
    requires m.asker in c.spawned && m.asker !in c.counted
    requires c.peers[m.asker.server].currentTerm == m.asker.election
    requires p == c.peers[m.asker.server].(voteCount := c.peers[m.asker.server].voteCount + 1)
    requires c'.peers == c.peers[m.asker.server := p] && c'.counted == c.counted + {m.asker}
    requires c'.tally == c.tally[m.asker.server := c.tally[m.asker.server] + {m.asker.peer}]
    requires c'.net == c.net && c'.voted == c.voted && c'.phases == c.phases && c'.spawned == c.spawned
    requires c'.lastElection == c.lastElection && c'.led == c.led
    ensures ElectionInv(c')
  {
    hide Base, Polls, Mail, Leaders, Votes, Tallied, Voters;
    var i := m.asker.server;
    MailFacts(c, m);
    AskerFacts(c, m.asker);
    Local(c, i);
    TallyGrows(c, c', i, m.asker.peer);
    SameVotes(c, c', i);
    Assemble(c, c', i);
  }

  lemma SameVotes(c: Cluster, c': Cluster, i: nat)
    requires Votes(c) && N(c') == N(c) && i < N(c) && c'.voted == c.voted
    requires c'.peers == c.peers[i := c'.peers[i]]
    requires c'.peers[i].currentTerm == c.peers[i].currentTerm && c'.peers[i].votedFor == c.peers[i].votedFor
    ensures Votes(c')
  {
  }

  lemma TallyGrows(c: Cluster, c': Cluster, i: nat, s: nat)
    requires Sizes(c) && Sizes(c') && N(c') == N(c) && i < N(c) && Tallied(c, i)
    requires s != i && s in Voters(c, c.lastElection[i], i) && Asker(i, c.lastElection[i], s) !in c.counted
    requires c'.voted == c.voted && c'.lastElection == c.lastElection &&
               c'.counted == c.counted + {Asker(i, c.lastElection[i], s)}
    requires c'.tally == c.tally[i := c.tally[i] + {s}]
    requires c'.peers[i].voteCount == c.peers[i].voteCount + 1 && c'.peers[i].currentTerm == c.peers[i].currentTerm
    ensures Tallied(c', i)
  {
    assert Voters(c', c.lastElection[i], i) == Voters(c, c.lastElection[i], i);
  }

  /** A candidate with a majority becomes leader of the term of its election. */
  lemma PromotionKeeps(c: Cluster, c': Cluster, i: nat)
    requires ElectionInv(c) && Base(c') && i < N(c)
    requires c.phases[i] == Idle && c.peers[i].role == Candidate && c.peers[i].voteCount > N(c) / 2
    requires c'.peers == c.peers[i := c.peers[i].(role := Leader)] && c'.led == c.led + {(c.peers[i].currentTerm, i)}
    requires c'.net == c.net && c'.voted == c.voted && c'.phases == c.phases && c'.spawned == c.spawned &&
               c'.counted == c.counted
    requires c'.lastElection == c.lastElection && c'.tally == c.tally
    ensures ElectionInv(c')
    ensures (c.peers[i].currentTerm, i) !in c.led
  {
    hide Base, Polls, Mail, Leaders;
    Local(c, i);
    SamePoll(c, c', i);
    assert Voters(c', c.lastElection[i], i) == Voters(c, c.lastElection[i], i);
    SubsetCount(c.tally[i], Voters(c, c.lastElection[i], i));
    Assemble(c, c', i);
  }

  /** A crash forgets the poll, but neither the term nor the vote. */
  lemma CrashKeeps(c: Cluster, c': Cluster, i: nat, p: Peer)
    requires ElectionInv(c) && Base(c') && i < N(c)
    requires p.currentTerm == c.peers[i].currentTerm && p.votedFor == c.peers[i].votedFor && p.role == Follower &&
               p.voteCount == 0
    requires c'.peers == c.peers[i := p] && c'.phases == c.phases[i := Idle] && c'.tally == c.tally[i := {}]
    requires c'.spawned == OfOthers(c.spawned, i) && c'.counted == OfOthers(c.counted, i)
    requires c'.net == c.net && c'.voted == c.voted && c'.led == c.led && c'.lastElection == c.lastElection
    ensures ElectionInv(c')
  {
    hide Base, Polls, Mail, Leaders;
    Local(c, i);
    Assemble(c, c', i);
  }

  // ---------- every disciplined step ----------

  lemma VoteHandledAsSaid(p: Peer, args: VoteArgs)
    requires p.log != [] && args.term >= p.currentTerm
    ensures VoteHandled(p, OnRequestVote(p, args).0, args, OnRequestVote(p, args).1.voteGranted)
  {
  }

  /** A request of an old term that is not granted changes nothing. */
  lemma OldRequestRefused(p: Peer, args: VoteArgs)
    requires p.log != [] && args.term < p.currentTerm && !OnRequestVote(p, args).1.voteGranted
    ensures StepsDown(p, OnRequestVote(p, args).0)
  {
  }

  lemma AppendStepsDown(p: Peer, n: nat, i: nat, args: AppendArgs)
    requires Sane(p, n, i) && SaneArgs(args) && OnDisk(p)
    ensures StepsDown(p, OnAppendEntries(p, n, i, args).0)
  {
    hide WellFormedLog, Merged, Hint, Consecutive;
  }

  lemma ReplyStepsDown(p: Peer, reply: VoteReply)
    requires !reply.voteGranted
    ensures StepsDown(p, OnVoteReply(p, reply))
  {
  }

  /** Steps that are about messages of elections. */
  lemma VoteStepKeeps(c: Cluster, s: Step)
    requires ElectionInv(c) && Enabled(c, s) && Disciplined(c, s) && Base(After(c, s))
    requires s.BuildVote? || s.DeliverVote? || s.CountVote?
    ensures ElectionInv(After(c, s))
  {
    hide ElectionInv, Base, OnRequestVote, WellFormedLog, Sane, SaneMessage, VoteHandled, StepsDown;
    InvBase(c);
    var c' := After(c, s);
    match s
    case BuildVote(a) =>
      AskedBy(c, a);
      AskerFacts(c, a);
      AskingKeeps(c, c', a.server);
    case DeliverVote(m) =>
      VoteMailIn(c, m);
      var i := m.asker.peer;
      if m.vargs.term < c.peers[i].currentTerm {
        OldRequestRefused(c.peers[i], m.vargs);
        StepDownKeeps(c, c', i, OnRequestVote(c.peers[i], m.vargs).0);
        return;
      }
      VoteHandledAsSaid(c.peers[i], m.vargs);
      DeliverVoteKeeps(c, c', m, OnRequestVote(c.peers[i], m.vargs).0, OnRequestVote(c.peers[i], m.vargs).1);
    case CountVote(m) =>
      VoteMailIn(c, m);
      AskedBy(c, m.asker);
      var i := m.asker.server;
      if m.vreply.voteGranted {
        CountVoteKeeps(c, c', m, OnVoteReply(c.peers[i], m.vreply));
      } else {
        ReplyStepsDown(c.peers[i], m.vreply);
        StepDownKeeps(c, c', i, OnVoteReply(c.peers[i], m.vreply));
      }
  }

  /** Steps that are about replication, and the progress of indices. */
  lemma LogStepKeeps(c: Cluster, s: Step)
    requires ElectionInv(c) && Enabled(c, s) && Base(After(c, s))
    requires s.StartCommand? || s.SendAppend? || s.DeliverAppend? || s.AppendAnswer? || s.AdvanceCommit? || s.Applied?
    ensures ElectionInv(After(c, s))
  {
    hide ElectionInv, Base, OnAppendEntries, OnAdvanceCommit, WellFormedLog, SaneMessage, Sane, OnDisk, VoteKept;
    InvBase(c);
    var c' := After(c, s);
    var i := Runs(s);
    StepFine(c, s);
    assert StepsDown(c.peers[i], c'.peers[i]) by {
      PeerFacts(c, i);
      if s.DeliverAppend? {
        SaneAppend(c, s.m);
        AppendStepsDown(c.peers[i], N(c), i, s.m.args);
      } else if s.AdvanceCommit? {
        AdvanceNeedsMajority(c.peers[i], N(c), i);
      }
    }
    StepDownKeeps(c, c', i, c'.peers[i]);
  }

  lemma OtherStepKeeps(c: Cluster, s: Step)
    requires ElectionInv(c) && Enabled(c, s) && Disciplined(c, s) && Base(After(c, s))
    requires s.Timeout? || s.StartElection? || s.Spawn? || s.EndSpawning? || s.CandidateTurn? || s.Crash?
    ensures ElectionInv(After(c, s))
    ensures s.CandidateTurn? && After(c, s).led != c.led ==>
              (c.peers[s.i].currentTerm, s.i) !in c.led && After(c, s).led == c.led + {(c.peers[s.i].currentTerm, s.i)}
  {
    hide ElectionInv, Base, WellFormedLog, SaneMessage, Sane, OnDisk, VoteKept;
    InvBase(c);
    var c' := After(c, s);
    var i := s.i;
    SpawnPhase(c, i);
    PeerFacts(c, i);
    match s
    case Timeout(_) =>
      assert c'.logs == c.logs;
      TimeoutKeeps(c, c', i);
    case StartElection(_) => StartElectionKeeps(c, c', i, c'.peers[i]);
    case Spawn(_, _) => AskingKeeps(c, c', i);
    case EndSpawning(_) => AskingKeeps(c, c', i);
    case CandidateTurn(_) =>
      if c.peers[i].voteCount > N(c) / 2 {
        PromotionKeeps(c, c', i);
      } else {
        StepDownKeeps(c, c', i, c.peers[i]);
      }
    case Crash(_) =>
      BootFine(c.peers[i], N(c), i);
      CrashKeeps(c, c', i, Boot(N(c), c.peers[i].disk));
  }

  lemma SpawnPhase(c: Cluster, i: nat)
    requires ElectionInv(c) && i < N(c)
    ensures Sizes(c) && (c.phases[i].Spawning? ==> c.phases[i].election == c.lastElection[i])
  {
    Local(c, i);
  }

  lemma StepKeepsElection(c: Cluster, s: Step)
    requires ElectionInv(c) && Enabled(c, s) && Disciplined(c, s)
    ensures ElectionInv(After(c, s)) && N(After(c, s)) == N(c)
  {
    assert Base(c);
    hide ElectionInv, Enabled, Disciplined, After;
    StepKeepsBase(c, s);
    if s.BuildVote? || s.DeliverVote? || s.CountVote? {
      VoteStepKeeps(c, s);
    } else if s.StartCommand? || s.SendAppend? || s.DeliverAppend? || s.AppendAnswer? || s.AdvanceCommit? ||
        s.Applied? {
      LogStepKeeps(c, s);
    } else {
      OtherStepKeeps(c, s);
    }
  }

  lemma InitElection(n: nat)
    ensures ElectionInv(Init(n))
  {
    InitBase(n);
    var c := Init(n);
    forall i {:trigger Tallied(c, i)} | 0 <= i < N(c)
      ensures Tallied(c, i)
    {
    }
  }
}
