/** Whole runs of a cluster, with loss, delay, reordering, duplication and crashes. */
module RaftRuns {
  import opened Basics
  import opened RaftLog
  import opened RaftPeer
  import opened RaftCluster
  import opened RaftElection
  import opened RaftMatching

  /** One step. `Base` is there because `Enabled` and `After` are about such clusters only; it holds
      in every run, so it excludes nothing. */
  ghost predicate Next(c: Cluster, s: Step, c': Cluster) {
    Base(c) && Enabled(c, s) && c' == After(c, s)
  }

  ghost predicate Run(n: nat, states: seq<Cluster>, steps: seq<Step>) {
    && |states| == |steps| + 1
    && states[0] == Init(n)
    && forall k :: 0 <= k < |steps| ==> Next(states[k], steps[k], states[k + 1])
  }

  ghost predicate DisciplinedRun(states: seq<Cluster>, steps: seq<Step>) {
    forall k :: 0 <= k < |steps| && k < |states| && Base(states[k]) && Enabled(states[k], steps[k]) ==>
        Disciplined(states[k], steps[k])
  }

  lemma StepGrows(c: Cluster, s: Step)
    requires Base(c) && Enabled(c, s)
    ensures c.led <= After(c, s).led && c.logs <= After(c, s).logs
  {
    hide Base, WellFormedLog, OnAppendEntries, OnRequestVote, OnVoteReply, OnStart, OnAppendReply, OnAdvanceCommit;
    hide OnStartElection, Boot, OnCandidateTurn;
  }

  // ---------- every run ----------

  /** Every state a run reaches is one from which it can go on. */
  lemma {:induction false} RunBase(n: nat, states: seq<Cluster>, steps: seq<Step>, k: nat)
    requires Run(n, states, steps) && k < |states|
    ensures Base(states[k]) && N(states[k]) == n
  {
    hide Base, Enabled, After, Init;
    if k == 0 {
      InitBase(n);
      InitSize(n);
    } else {
      assert Next(states[k - 1], steps[k - 1], states[k]);
      RunBase(n, states, steps, k - 1);
      StepKeepsBase(states[k - 1], steps[k - 1]);
    }
  }

  lemma InitSize(n: nat)
    ensures N(Init(n)) == n
  {
  }

  /** Crash transparency: at every moment a restart would come back with the log, term and vote that
      the server has. */
  lemma RestartLosesNothing(n: nat, states: seq<Cluster>, steps: seq<Step>, k: nat, i: nat)
    requires Run(n, states, steps) && k < |states| && i < n
    ensures N(states[k]) == n
    ensures
      var p := states[k].peers[i];
      var q := Boot(n, p.disk);
      q.log == p.log && q.currentTerm == p.currentTerm && q.votedFor == p.votedFor
  {
    RunBase(n, states, steps, k);
    PeerFacts(states[k], i);
    hide Base;
    BootFine(states[k].peers[i], n, i);
  }

  /** Over any stretch of any run, crashes included, terms never go down and a vote in a term is
      written once. */
  lemma {:induction false} VotesWrittenOnce(n: nat, states: seq<Cluster>, steps: seq<Step>, a: nat, b: nat, i: nat)
    requires Run(n, states, steps) && a <= b < |states| && i < n
    ensures N(states[a]) == N(states[b]) == n
    ensures VoteKept(states[a].peers[i], states[b].peers[i])
    decreases b
  {
    hide Base, Enabled, After;
    RunBase(n, states, steps, a);
    RunBase(n, states, steps, b);
    if a < b {
      assert Next(states[b - 1], steps[b - 1], states[b]);
      VotesWrittenOnce(n, states, steps, a, b - 1, i);
      StepKeepsBase(states[b - 1], steps[b - 1]);
      assert VoteKept(states[b - 1].peers[i], states[b].peers[i]);
    }
  }

  lemma {:induction false} HistoryGrows(n: nat, states: seq<Cluster>, steps: seq<Step>, a: nat, b: nat)
    requires Run(n, states, steps) && a <= b < |states|
    ensures states[a].led <= states[b].led && states[a].logs <= states[b].logs
    decreases b
  {
    hide Base, Enabled, After;
    if a < b {
      assert Next(states[b - 1], steps[b - 1], states[b]);
      HistoryGrows(n, states, steps, a, b - 1);
      StepGrows(states[b - 1], steps[b - 1]);
    }
  }

  // ---------- disciplined runs ----------

  lemma {:induction false} RunInvariants(n: nat, states: seq<Cluster>, steps: seq<Step>, k: nat)
    requires Run(n, states, steps) && DisciplinedRun(states, steps) && k < |states|
    ensures ElectionInv(states[k]) && LogInv(states[k]) && N(states[k]) == n
  {
    hide Base, Enabled, After, ElectionInv, LogInv, Disciplined, Init;
    if k == 0 {
      InitElection(n);
      InitLog(n);
      InitSize(n);
    } else {
      assert Next(states[k - 1], steps[k - 1], states[k]);
      RunInvariants(n, states, steps, k - 1);
      StepKeepsElection(states[k - 1], steps[k - 1]);
      StepKeepsLog(states[k - 1], steps[k - 1]);
    }
  }

  /** A leader at some time is among the leaders of its term ever after. */
  lemma LeaderOnRecord(n: nat, states: seq<Cluster>, steps: seq<Step>, k: nat, i: nat)
    requires Run(n, states, steps) && DisciplinedRun(states, steps) && k < |states| && i < n
    ensures N(states[k]) == n
    ensures states[k].peers[i].role == Leader ==> (states[k].peers[i].currentTerm, i) in states[|steps|].led
  {
    hide Base, Enabled, After;
    RunInvariants(n, states, steps, k);
    Local(states[k], i);
    HistoryGrows(n, states, steps, k, |steps|);
  }

  /** Election safety: two leaderships of one term, at whatever times, are of one server. */
  lemma OneLeaderPerTerm(n: nat, states: seq<Cluster>, steps: seq<Step>, a: nat, b: nat, i: nat, j: nat)
    requires Run(n, states, steps) && DisciplinedRun(states, steps)
    requires a < |states| && b < |states| && i < n && j < n
    ensures N(states[a]) == N(states[b]) == n
    ensures
      var p, q := states[a].peers[i], states[b].peers[j];
      p.role == Leader && q.role == Leader && p.currentTerm == q.currentTerm ==> i == j
  {
    hide Run, DisciplinedRun, ElectionInv, LogInv;
    LeaderOnRecord(n, states, steps, a, i);
    LeaderOnRecord(n, states, steps, b, j);
    if states[a].peers[i].role == Leader && states[b].peers[j].role == Leader &&
        states[a].peers[i].currentTerm == states[b].peers[j].currentTerm {
      RunLength(n, states, steps);
      RunInvariants(n, states, steps, |steps|);
      ElectionSafety(states[|steps|], states[a].peers[i].currentTerm, i, j);
    }
  }

  lemma RunLength(n: nat, states: seq<Cluster>, steps: seq<Step>)
    requires Run(n, states, steps)
    ensures |states| == |steps| + 1
  {
  }

  /** Log matching: entries with one index and term, in the logs of any servers at any times, stand
      on identical logs. */
  lemma LogsMatchAlways(n: nat, states: seq<Cluster>, steps: seq<Step>, a: nat, b: nat, i: nat, j: nat)
    requires Run(n, states, steps) && DisciplinedRun(states, steps)
    requires a < |states| && b < |states| && i < n && j < n
    ensures N(states[a]) == N(states[b]) == n
    ensures Matching(states[a].peers[i].log, states[b].peers[j].log)
  {
    hide Run, DisciplinedRun, ElectionInv, LogInv, Matching;
    RunLength(n, states, steps);
    RunInvariants(n, states, steps, |steps|);
    RunBase(n, states, steps, a);
    RunBase(n, states, steps, b);
    PeerFacts(states[a], i);
    PeerFacts(states[b], j);
    HistoryGrows(n, states, steps, a, |steps|);
    HistoryGrows(n, states, steps, b, |steps|);
    LogsMatch(states[|steps|], states[a].peers[i].log, states[b].peers[j].log);
  }
}
