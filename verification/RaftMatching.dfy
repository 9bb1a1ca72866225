/** Log matching: entries with the same index and term, in the logs of any two servers at any two
    times, mean the same log up to there. */
module RaftMatching {
  import opened Basics
  import opened RaftLog
  import opened RaftPeer
  import opened RaftCluster
  import opened RaftElection

  ghost predicate LedTerm(c: Cluster, t: int) {
    exists i :: (t, i) in c.led
  }

  /** Every entry of the leader's term, in any log there ever was, is in the leader's log. */
  ghost predicate Owns(c: Cluster, i: nat)
    requires i < N(c)
  {
    forall log: seq<Entry>, k: int :: log in c.logs && 0 < k < |log| && log[k].term == c.peers[i].currentTerm ==>
      k < |c.peers[i].log| && c.peers[i].log[k].term == c.peers[i].currentTerm
  }

  ghost predicate AllMatch(c: Cluster) {
    forall a: seq<Entry>, b: seq<Entry> :: a in c.logs && b in c.logs ==> Matching(a, b)
  }

  ghost predicate OnlyLedTerms(c: Cluster) {
    forall log: seq<Entry>, k: int :: log in c.logs && 0 < k < |log| ==> LedTerm(c, log[k].term)
  }

  ghost predicate LogInv(c: Cluster) {
    && AllMatch(c)
    && OnlyLedTerms(c)
    && (forall i {:trigger Owns(c, i)} {:trigger c.peers[i]} :: 0 <= i < N(c) && c.peers[i].role == Leader ==>
       Owns(c, i))
    && (forall m :: m in c.net && m.AppendReq? ==> (m.args.term, m.from) in c.led)
  }

  /** No log is new, and no server is a leader that was not one with this term and log before. */
  lemma QuietKeeps(c: Cluster, c': Cluster)
    requires LogInv(c) && N(c') == N(c)
    requires c'.logs == c.logs && c.led <= c'.led
    requires forall i {:trigger c'.peers[i]} :: 0 <= i < N(c) && c'.peers[i].role == Leader ==>
               && c.peers[i].role == Leader && c'.peers[i].currentTerm == c.peers[i].currentTerm
               && (c'.peers[i].log == c.peers[i].log || c.peers[i].log <= c'.peers[i].log)
    requires forall m :: m in c'.net && m !in c.net && m.AppendReq? ==> (m.args.term, m.from) in c'.led
    ensures LogInv(c')
  {
    hide Matching;
    forall i {:trigger Owns(c', i)} | 0 <= i < N(c') && c'.peers[i].role == Leader
      ensures Owns(c', i)
    {
      assert Owns(c, i);
    }
    forall log: seq<Entry>, k: int | log in c'.logs && 0 < k < |log|
      ensures LedTerm(c', log[k].term)
    {
      assert LedTerm(c, log[k].term);
    }
  }

  /** The first leader of a term finds no entries of that term anywhere. */
  lemma PromotionOwns(c: Cluster, c': Cluster, i: nat)
    requires ElectionInv(c') && LogInv(c) && N(c') == N(c) && i < N(c)
    requires (c.peers[i].currentTerm, i) !in c.led && c'.led == c.led + {(c.peers[i].currentTerm, i)}
    requires c'.peers == c.peers[i := c.peers[i].(role := Leader)] && c'.logs == c.logs && c'.net == c.net
    ensures LogInv(c')
  {
    hide Matching, ElectionInv;
    var t := c.peers[i].currentTerm;
    assert !LedTerm(c, t) by {
      if j :| (t, j) in c.led {
        ElectionSafety(c', t, i, j);
      }
    }
    forall k {:trigger Owns(c', k)} | 0 <= k < N(c') && c'.peers[k].role == Leader
      ensures Owns(c', k)
    {
      if k != i {
        assert Owns(c, k);
      }
    }
    forall log: seq<Entry>, k: int | log in c'.logs && 0 < k < |log|
      ensures LedTerm(c', log[k].term)
    {
      assert LedTerm(c, log[k].term);
    }
  }

  /** A leader's new entry is the first of its term at its index. */
  lemma StartOwns(c: Cluster, c': Cluster, i: nat, e: Entry)
    requires ElectionInv(c) && LogInv(c) && N(c') == N(c) && i < N(c)
    requires c.peers[i].role == Leader && e.term == c.peers[i].currentTerm && (e.term, i) in c.led
    requires c.peers[i].log in c.logs && c.peers[i].log != []
    requires c'.peers == c.peers[i := c'.peers[i]] && c'.peers[i].log == c.peers[i].log + [e]
    requires c'.peers[i].role == Leader && c'.peers[i].currentTerm == c.peers[i].currentTerm
    requires c'.logs == c.logs + {c.peers[i].log + [e]} && c'.led == c.led && c'.net == c.net
    ensures LogInv(c')
  {
    hide ElectionInv;
    var log := c.peers[i].log;
    assert Owns(c, i);
    forall a | a in c.logs
      ensures Matching(a, log + [e]) && Matching(log + [e], a)
    {
      assert Matching(a, log);
      ExtendMatching(a, log, e);
    }
    forall k {:trigger Owns(c', k)} | 0 <= k < N(c') && c'.peers[k].role == Leader
      ensures Owns(c', k)
    {
      if k != i {
        OtherLeaderOwns(c, c', i, e, k);
      }
    }
    forall a: seq<Entry>, k: int | a in c'.logs && 0 < k < |a|
      ensures LedTerm(c', a[k].term)
    {
      if a == log + [e] {
        if k < |log| {
          assert LedTerm(c, log[k].term);
        }
      } else {
        assert LedTerm(c, a[k].term);
      }
    }
  }

  lemma OtherLeaderOwns(c: Cluster, c': Cluster, i: nat, e: Entry, k: nat)
    requires ElectionInv(c) && LogInv(c) && i < N(c) && k < N(c) && k != i && N(c') == N(c)
    requires c.peers[i].log in c.logs && (e.term, i) in c.led
    requires c.peers[k].role == Leader && c'.peers[k] == c.peers[k]
    requires c'.logs == c.logs + {c.peers[i].log + [e]}
    ensures Owns(c', k)
  {
    assert Owns(c, k);
    assert (c.peers[k].currentTerm, k) in c.led by { Local(c, k); }
    if e.term == c.peers[k].currentTerm {
      ElectionSafety(c, e.term, i, k);
    }
    hide ElectionInv;
    forall log: seq<Entry>, j: int | log in c'.logs && 0 < j < |log| && log[j].term == c.peers[k].currentTerm
      ensures j < |c.peers[k].log| && c.peers[k].log[j].term == c.peers[k].currentTerm
    {
      if log !in c.logs && j < |c.peers[i].log| {
        assert c.peers[i].log[j].term == c.peers[k].currentTerm;
      }
    }
  }

  lemma ExtendMatching(a: seq<Entry>, log: seq<Entry>, e: Entry)
    requires Matching(a, log)
    requires |log| < |a| ==> a[|log|].term != e.term
    ensures Matching(a, log + [e]) && Matching(log + [e], a)
  {
    forall k | 0 <= k < |a| && k < |log + [e]| && a[k].term == (log + [e])[k].term
      ensures a[..k + 1] == (log + [e])[..k + 1]
    {
      assert k < |log|;
      assert (log + [e])[..k + 1] == log[..k + 1];
    }
  }

  /** An accepted message leaves the follower with its own log or the sender's. */
  lemma AppendLog(c: Cluster, m: Message)
    requires Base(c) && LogInv(c) && m in c.net && m.AppendReq? && m.to < N(c) && SaneArgs(m.args)
    ensures Sane(c.peers[m.to], N(c), m.to)
    ensures
      var q := OnAppendEntries(c.peers[m.to], N(c), m.to, m.args).0;
      q.log == c.peers[m.to].log || q.log == m.source
    ensures m.source in c.logs && c.peers[m.to].log in c.logs
  {
    assert SaneMessage(c, m);
    PeerFacts(c, m.to);
    LogsMatch(c, c.peers[m.to].log, m.source);
    hide Base, LogInv, SaneArgs, Matching, WellFormedLog, OnAppendEntries;
    AppendMatching(c.peers[m.to], N(c), m.to, m.args, m.source);
  }

  lemma AppendMatching(p: Peer, n: nat, me: nat, args: AppendArgs, source: seq<Entry>)
    requires Sane(p, n, me) && OnDisk(p) && SaneArgs(args) && Matching(p.log, source)
    requires 0 <= args.prevLogIndex < |source| && args.prevLogTerm == source[args.prevLogIndex].term
    requires args.entries == source[args.prevLogIndex + 1..]
    ensures
      var q := OnAppendEntries(p, n, me, args).0;
      q.log == p.log || q.log == source
  {
    hide Merged, WellFormedLog, Hint, SaneArgs, Matching, OnAppendEntries;
    AppendEntriesKeeps(p, n, me, args);
    if Consistent(p, args) {
      MergeMatching(p.log, source, args.prevLogIndex);
    }
  }

  lemma LogsMatch(c: Cluster, a: seq<Entry>, b: seq<Entry>)
    requires LogInv(c) && a in c.logs && b in c.logs
    ensures Matching(a, b)
  {
  }

  /** A leader does not take entries from anyone in its own term. */
  lemma AppendToLeader(c: Cluster, m: Message)
    requires ElectionInv(c) && LogInv(c) && m in c.net && m.AppendReq? && m.to < N(c) && SaneArgs(m.args)
    ensures
      var p := c.peers[m.to];
      var q := OnAppendEntries(p, N(c), m.to, m.args).0;
      q.role == Leader ==> p.role == Leader && q.currentTerm == p.currentTerm && q.log == p.log
  {
    assert SaneMessage(c, m);
    PeerFacts(c, m.to);
    Local(c, m.to);
    var p := c.peers[m.to];
    assert (m.args.term, m.from) in c.led;
    if p.role == Leader && m.args.term == p.currentTerm {
      ElectionSafety(c, p.currentTerm, m.to, m.from);
    }
    hide Base, ElectionInv, LogInv, Merged, WellFormedLog, Hint;
    AppendEntriesKeeps(p, N(c), m.to, m.args);
  }

  // ---------- every disciplined step ----------

  lemma DeliverAppendKeepsLog(c: Cluster, s: Step)
    requires ElectionInv(c) && LogInv(c) && Enabled(c, s) && s.DeliverAppend?
    ensures LogInv(After(c, s))
  {
    assert Base(c);
    var m := s.m;
    SaneAppend(c, m);
    AppendLog(c, m);
    AppendToLeader(c, m);
    hide Base, ElectionInv, LogInv, OnAppendEntries, Sane, SaneArgs;
    var (q, reply) := OnAppendEntries(c.peers[m.to], N(c), m.to, m.args);
    MessageKeepsLog(c, After(c, s), m.to, q, AppendRep(m.to, m.from, m.args, reply));
  }

  lemma MessageKeepsLog(c: Cluster, c': Cluster, i: nat, q: Peer, rep: Message)
    requires LogInv(c) && i < N(c) && q.log in c.logs && rep.AppendRep?
    requires q.role == Leader ==>
               c.peers[i].role == Leader && q.currentTerm == c.peers[i].currentTerm && q.log == c.peers[i].log
    requires c'.peers == c.peers[i := q] && c'.logs == c.logs + {q.log} && c'.led == c.led && c'.net == c.net + {rep}
    ensures LogInv(c')
  {
    hide LogInv;
    assert c'.logs == c.logs;
    QuietKeeps(c, c');
  }

  lemma TurnKeepsLog(c: Cluster, s: Step)
    requires ElectionInv(c) && LogInv(c) && Enabled(c, s) && Disciplined(c, s) && s.CandidateTurn?
    ensures LogInv(After(c, s))
  {
    assert Base(c);
    hide Base, ElectionInv, LogInv, WellFormedLog, Sane, Fine, VoteKept;
    var c' := After(c, s);
    var i := s.i;
    PeerFacts(c, i);
    assert c'.logs == c.logs;
    if c'.led != c.led {
      StepKeepsBase(c, s);
      OtherStepKeeps(c, s);
      PromotionOwns(c, c', i);
    } else {
      QuietKeeps(c, c');
    }
  }

  lemma StartKeepsLog(c: Cluster, s: Step)
    requires ElectionInv(c) && LogInv(c) && Enabled(c, s) && Disciplined(c, s) && s.StartCommand?
    ensures LogInv(After(c, s))
  {
    var i := s.i;
    PeerFacts(c, i);
    hide Base, ElectionInv, LogInv, WellFormedLog, Sane, Fine;
    StartOwns(c, After(c, s), i, Entry(s.term, s.command, |c.peers[i].log|));
  }

  /** Every other step leaves the logs alone, and makes no leader. */
  lemma LogUntouched(c: Cluster, s: Step)
    requires ElectionInv(c) && Enabled(c, s)
    requires !s.DeliverAppend? && !s.StartCommand? && !s.CandidateTurn?
    ensures
      var c' := After(c, s);
      var i := Runs(s);
      && i < N(c) && i < N(c')
      && c'.peers[i].log == c.peers[i].log
      && (c'.peers[i].role == Leader ==> c.peers[i].role == Leader && c'.peers[i].currentTerm == c.peers[i].currentTerm)
  {
    hide Base, ElectionInv, WellFormedLog, OnAdvanceCommit, OnRequestVote, OnAppendEntries, OnStart, OnCandidateTurn;
    hide Sane, Fine, Votes, Tallied, VoteKept, SaneMessage;
    InvBase(c);
    StepFine(c, s);
    var i := Runs(s);
    PeerFacts(c, i);
    Local(c, i);
    if s.AdvanceCommit? {
      AdvanceNeedsMajority(c.peers[i], N(c), i);
    } else if s.Crash? {
      BootFine(c.peers[i], N(c), i);
    } else if s.DeliverVote? {
      RequestVoteKeeps(c.peers[i], s.m.vargs);
    }
  }

  lemma NewRequests(c: Cluster, s: Step)
    requires ElectionInv(c) && Enabled(c, s)
    requires !s.DeliverAppend? && !s.StartCommand? && !s.CandidateTurn?
    ensures After(c, s).led == c.led
    ensures forall m :: m in After(c, s).net && m !in c.net && m.AppendReq? ==> (m.args.term, m.from) in c.led
  {
    InvBase(c);
    if s.SendAppend? {
      Local(c, s.i);
    }
    hide Base, ElectionInv, WellFormedLog, OnAdvanceCommit, OnRequestVote, Sane, Fine, Boot, OnVoteReply, OnAppendReply;
  }

  lemma RestKeepsLog(c: Cluster, s: Step)
    requires ElectionInv(c) && LogInv(c) && Enabled(c, s)
    requires !s.DeliverAppend? && !s.StartCommand? && !s.CandidateTurn?
    ensures LogInv(After(c, s))
  {
    hide Base, ElectionInv, LogInv, WellFormedLog, Enabled, After, Fine;
    InvBase(c);
    StepFine(c, s);
    LogUntouched(c, s);
    NewRequests(c, s);
    PeerFacts(c, Runs(s));
    assert After(c, s).logs == c.logs;
    QuietKeeps(c, After(c, s));
  }

  lemma StepKeepsLog(c: Cluster, s: Step)
    requires ElectionInv(c) && LogInv(c) && Enabled(c, s) && Disciplined(c, s)
    ensures LogInv(After(c, s))
  {
    assert Base(c);
    hide ElectionInv, LogInv, Enabled, Disciplined, After;
    if s.DeliverAppend? {
      DeliverAppendKeepsLog(c, s);
    } else if s.CandidateTurn? {
      TurnKeepsLog(c, s);
    } else if s.StartCommand? {
      StartKeepsLog(c, s);
    } else {
      RestKeepsLog(c, s);
    }
  }

  lemma InitLog(n: nat)
    ensures LogInv(Init(n))
  {
  }
}
