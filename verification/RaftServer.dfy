/** A Raft server with fields that its methods change in place. Every method is one region of code
    under the server's lock, and does to the fields what its function in RaftPeer says. */
module RaftServer {
  import opened Basics
  import opened RaftLog
  import opened RaftPeer
  import opened RaftApply

  class Persister {
    var raftstate: Option<Saved>
    var snapshot: seq<int>

    constructor ()
      ensures raftstate == None && snapshot == []
    {
      raftstate, snapshot := None, [];
    }

    /** A copy keeps what was saved, whatever the original saves later. */
    method Copy() returns (p: Persister)
      ensures fresh(p) && p.raftstate == raftstate && p.snapshot == snapshot
    {
      p := new Persister();
      p.raftstate := raftstate;
      p.snapshot := snapshot;
    }

    method SaveRaftState(state: Saved)
      modifies this`raftstate
      ensures raftstate == Some(state)
    {
      raftstate := Some(state);
    }

    method ReadRaftState() returns (state: Option<Saved>)
      ensures state == raftstate
    {
      state := raftstate;
    }
  }

  ghost function Indices(messages: seq<ApplyMsg>): seq<int> {
    seq(|messages|, i requires 0 <= i < |messages| => messages[i].commandIndex)
  }

  lemma BootSane(n: nat, me: nat, disk: Option<Saved>)
    requires me < n && WellFormedLog(Recovered(disk).log)
    ensures Sane(Boot(n, disk), n, me) && OnDisk(Boot(n, disk))
  {
    hide WellFormedLog;
    LogNotEmpty(Recovered(disk).log);
  }

  lemma LogNotEmpty(log: seq<Entry>)
    requires WellFormedLog(log)
    ensures log != []
  {
  }

  class Raft {
    const me: nat
    const n: nat
    const persister: Persister
    const nextIndex: array<int>
    const matchIndex: array<int>
    var currentTerm: int
    var votedFor: int
    var log: seq<Entry>
    var commitIndex: int
    var lastApplied: int
    var role: Role
    var voteCount: int
    // the apply goroutines, and what they have sent
    var appliers: seq<Applier>
    var applyCh: seq<ApplyMsg>

    ghost function View(): Peer
      reads this, persister, nextIndex, matchIndex
    {
      Peer(currentTerm, votedFor, log, commitIndex, lastApplied, nextIndex[..], matchIndex[..], role, voteCount,
          persister.raftstate)
    }

    ghost function Applied(): Applying
      reads this
    {
      Applying(lastApplied, appliers, Indices(applyCh), applyCh)
    }

    /** What holds whenever the lock is free. */
    ghost predicate Valid()
      reads this, persister, nextIndex, matchIndex
    {
      && nextIndex != matchIndex
      && Sane(View(), n, me) && OnDisk(View())
      && 0 <= lastApplied
    }

    /** Make: a server that comes back from what its persister holds. */
    constructor (n: nat, me: nat, persister: Persister)
      requires me < n && WellFormedLog(Recovered(persister.raftstate).log)
      ensures this.n == n && this.me == me && this.persister == persister
      ensures fresh(nextIndex) && fresh(matchIndex)
      ensures Valid() && View() == Boot(n, persister.raftstate)
      ensures Applied() == START
    {
      hide WellFormedLog, Sane, OnDisk;
      this.n, this.me, this.persister := n, me, persister;
      nextIndex := new int[n](_ => 0);
      matchIndex := new int[n](_ => 0);
      commitIndex, lastApplied, voteCount := 0, 0, 0;
      role, votedFor, currentTerm, log := Follower, -1, 0, INITIAL_LOG;
      appliers, applyCh := [], [];
      new;
      FillOnes(nextIndex);
      var saved := persister.ReadRaftState();
      ReadPersist(saved);
      assert matchIndex[..] == seq(n, _ => 0);
      BootSane(n, me, persister.raftstate);
    }

    static method FillOnes(a: array<int>)
      modifies a
      ensures a[..] == seq(a.Length, _ => 1)
    {
      for i := 0 to a.Length
        invariant forall k :: 0 <= k < i ==> a[k] == 1
      {
        a[i] := 1;
      }
    }

    method Persist()
      modifies persister`raftstate
      ensures View() == RaftPeer.Persist(old(View()))
    {
      persister.SaveRaftState(Saved(log, currentTerm, votedFor));
    }

    /** Without a saved state nothing changes. */
    method ReadPersist(data: Option<Saved>)
      modifies this`log, this`currentTerm, this`votedFor
      ensures data.None? ==> log == old(log) && currentTerm == old(currentTerm) && votedFor == old(votedFor)
      ensures data.Some? ==> Saved(log, currentTerm, votedFor) == data.value
    {
      match data
      case None =>
      case Some(s) =>
        log := s.log;
        currentTerm := s.currentTerm;
        votedFor := s.votedFor;
    }

    method GetState() returns (term: int, isLeader: bool)
      ensures term == currentTerm && isLeader == (role == Leader)
    {
      term, isLeader := currentTerm, role == Leader;
    }

    method RequestVote(args: VoteArgs) returns (reply: VoteReply)
      requires Valid()
      modifies this`currentTerm, this`votedFor, this`role, persister`raftstate
      ensures Valid() && (View(), reply) == OnRequestVote(old(View()), args)
      ensures VoteKept(old(View()), View())
    {
      RequestVoteKeeps(View(), args);
      var granted := false;
      if args.term > currentTerm {
        currentTerm := args.term;
        role, votedFor := Follower, -1;
      }
      var last := log[|log| - 1];
      if (votedFor == -1 || votedFor == args.candidateId)
         && (args.lastLogTerm > last.term || (args.lastLogTerm == last.term && args.lastLogIndex >= last.index)) {
        votedFor := args.candidateId;
        granted := true;
      }
      reply := VoteReply(currentTerm, granted);
      Persist();
    }

    /** A slice may reach past the end of the log into its backing array, of which `spare` is what lies
        behind the log; past the end of the array it panics. */
    method SendApplyMsg(spare: seq<Entry>) returns (panicked: bool)
      requires 0 <= lastApplied
      modifies this`appliers
      ensures panicked <==> commitIndex > lastApplied && commitIndex >= |log| + |spare|
      ensures appliers == old(appliers) + if panicked then [] else Spawned(log + spare, lastApplied, commitIndex)
      ensures CanMove(old(Applied()), Commit(log, commitIndex)) ==>
                !panicked && Applied() == Moved(old(Applied()), Commit(log, commitIndex))
    {
      panicked := false;
      if commitIndex > lastApplied {
        var backing := log + spare;
        if commitIndex >= |backing| {
          return true;
        }
        appliers := appliers + [Applier(backing[lastApplied + 1..commitIndex + 1], None)];
        assert commitIndex < |log| ==>
                 backing[lastApplied + 1..commitIndex + 1] == log[lastApplied + 1..commitIndex + 1];
      }
    }

    /** The deferred save happens even when the handler panics. */
    method AppendEntries(args: AppendArgs, spare: seq<Entry>) returns (reply: AppendReply, panicked: bool)
      requires Valid() && SaneArgs(args)
      modifies this`currentTerm, this`votedFor, this`role, this`log, this`commitIndex, this`appliers
      modifies nextIndex, matchIndex, persister`raftstate
      ensures Valid() && View() == OnAppendEntries(old(View()), n, me, args).0
      ensures !panicked ==> reply == OnAppendEntries(old(View()), n, me, args).1
      ensures panicked <==> args.term >= old(currentTerm) && commitIndex > lastApplied && commitIndex >= |log| + |spare|
      ensures appliers == old(appliers) +
                if panicked || args.term < old(currentTerm) then [] else Spawned(log + spare, lastApplied, commitIndex)
    {
      hide Merged, WellFormedLog, SaneArgs, Accepted, Hint, FirstConflict, CanMove, Moved, VoteKept;
      AppendEntriesKeeps(View(), n, me, args);
      if args.term < currentTerm {
        reply, panicked := AppendReply(currentTerm, false, 0, 0), false;
        Persist();
        return;
      }
      var success, xTerm, xIndex := Match(args);
      if args.term > currentTerm {
        currentTerm := args.term;
        role, votedFor := Follower, -1;
      }
      panicked := SendApplyMsg(spare);
      reply := AppendReply(currentTerm, success, xTerm, xIndex);
      Persist();
    }

    /** The consistency check, with the hint for the leader or the merge. */
    method Match(args: AppendArgs) returns (success: bool, xTerm: int, xIndex: int)
      requires nextIndex != matchIndex && Sane(View(), n, me) && SaneArgs(args)
      modifies this`log, this`commitIndex, nextIndex, matchIndex
      ensures success == Consistent(old(View()), args)
      ensures View() == if success then Accepted(old(View()), me, args) else old(View())
      ensures (xTerm, xIndex) == if success then (0, 0) else Hint(old(log), args.prevLogIndex)
    {
      hide Merged, Accepted, XIndex, FirstConflict;
      success, xTerm, xIndex := true, 0, 0;
      if args.prevLogIndex >= |log| {
        success, xIndex, xTerm := false, |log|, -1;
      } else if log[args.prevLogIndex].term != args.prevLogTerm {
        success, xTerm := false, log[args.prevLogIndex].term;
        xIndex := FindXIndex(log, args.prevLogIndex);
      } else {
        Accept(args);
      }
    }

    /** The accepting branch of AppendEntries. */
    method Accept(args: AppendArgs)
      requires nextIndex != matchIndex && me < nextIndex.Length && me < matchIndex.Length
      requires SaneArgs(args) && 0 <= args.prevLogIndex < |log|
      modifies this`log, this`commitIndex, nextIndex, matchIndex
      ensures View() == Accepted(old(View()), me, args)
    {
      if |args.entries| > 0 {
        log := Merge(log, args.prevLogIndex, args.entries);
        nextIndex[me] := |log|;
        matchIndex[me] := |log| - 1;
      }
      if args.leaderCommit > commitIndex {
        if args.leaderCommit < |log| - 1 {
          commitIndex := args.leaderCommit;
        } else {
          commitIndex := |log| - 1;
        }
      }
    }

    /** The second half of Start. */
    method Append(term: int, command: Command) returns (index: int)
      requires Valid() && term >= 1
      modifies this`log, nextIndex, matchIndex, persister`raftstate
      ensures Valid() && View() == OnStart(old(View()), me, term, command)
      ensures index == |old(log)| && |log| == index + 1 && log[index] == Entry(term, command, index)
    {
      index := |log|;
      log := log + [Entry(term, command, index)];
      Persist();
      nextIndex[me] := |log|;
      matchIndex[me] := |log| - 1;
    }

    /** Start when nothing comes between its two halves. */
    method Start(command: Command) returns (index: int, term: int, isLeader: bool)
      requires Valid() && (role == Leader ==> currentTerm >= 1)
      modifies this`log, nextIndex, matchIndex, persister`raftstate
      ensures Valid() && term == currentTerm && isLeader == (role == Leader)
      ensures View() == if isLeader then OnStart(old(View()), me, term, command) else old(View())
      ensures index == if isLeader then |old(log)| else -1
    {
      index := -1;
      term, isLeader := GetState();
      if isLeader {
        index := Append(term, command);
      }
    }

    method StartElection()
      requires Valid()
      modifies this`currentTerm, this`votedFor, this`voteCount, persister`raftstate
      ensures Valid() && View() == OnStartElection(old(View()), me)
    {
      currentTerm := currentTerm + 1;
      votedFor := me;
      voteCount := 1;
      Persist();
    }

    method BuildVoteRequest() returns (args: VoteArgs)
      requires Valid()
      ensures args == VoteRequest(View(), me)
    {
      args := VoteArgs(currentTerm, me, |log| - 1, log[|log| - 1].term);
    }

    method CountVote(reply: VoteReply)
      requires Valid()
      modifies this`voteCount, this`currentTerm, this`votedFor, this`role, persister`raftstate
      ensures Valid() && View() == OnVoteReply(old(View()), reply)
    {
      if reply.voteGranted {
        voteCount := voteCount + 1;
      } else if reply.term > currentTerm {
        currentTerm := reply.term;
        role, votedFor := Follower, -1;
        Persist();
      }
    }

    method CandidateTurn()
      requires Valid()
      modifies this`role
      ensures Valid() && View() == OnCandidateTurn(old(View()), n)
    {
      if voteCount > n / 2 {
        role := Leader;
      }
    }

    /** A goroutine of a server that has stopped leading sends nothing. */
    method BuildAppendRequest(to: nat) returns (args: Option<AppendArgs>)
      requires Valid() && to < n && (role == Leader ==> 1 <= nextIndex[to] <= |log|)
      ensures args == if role == Leader then Some(AppendRequest(View(), me, to)) else None
    {
      if role != Leader {
        return None;
      }
      var prev := nextIndex[to] - 1;
      args := Some(AppendArgs(currentTerm, me, prev, log[prev].term, commitIndex, log[prev + 1..]));
    }

    method HandleAppendReply(to: nat, args: AppendArgs, reply: AppendReply)
      requires Valid() && to < n && to != me && 0 <= args.prevLogIndex && ReadsInside(View(), args, reply)
      modifies this`currentTerm, this`votedFor, this`role, nextIndex, matchIndex, persister`raftstate
      ensures Valid() && View() == OnAppendReply(old(View()), to, args, reply)
    {
      if role != Leader {
        return;
      }
      if reply.term > currentTerm {
        currentTerm := reply.term;
        role, votedFor := Follower, -1;
        Persist();
      } else if !reply.success {
        nextIndex[to] := NextAfterRefusal(log, args.prevLogIndex, reply.xTerm, reply.xIndex);
      } else {
        matchIndex[to] := args.prevLogIndex + |args.entries|;
        nextIndex[to] := matchIndex[to] + 1;
      }
    }

    /** How many match indices are above the commit index, and the smallest of them. */
    method CountAbove() returns (counter: nat, minN: int)
      requires matchIndex.Length == n && me < n
      ensures counter == Holders(matchIndex[..], commitIndex + 1)
      ensures minN == SmallestAbove(matchIndex[..], commitIndex, matchIndex[me])
    {
      counter, minN := 0, matchIndex[me];
      for i := 0 to n
        invariant counter == Holders(matchIndex[..i], commitIndex + 1)
        invariant minN == SmallestAbove(matchIndex[..i], commitIndex, matchIndex[me])
      {
        assert matchIndex[..i + 1][..i] == matchIndex[..i];
        if matchIndex[i] > commitIndex {
          counter := counter + 1;
          if matchIndex[i] < minN {
            minN := matchIndex[i];
          }
        }
      }
      assert matchIndex[..n] == matchIndex[..];
    }

    /** The end of a leader's turn: the commit index moves to the smallest of the match indices above it. */
    method AdvanceCommit()
      requires Valid()
      modifies this`commitIndex, this`appliers
      ensures Valid() && View() == OnAdvanceCommit(old(View()), n, me)
      ensures old(commitIndex) < commitIndex ==> commitIndex < |log|
      ensures appliers == old(appliers) + if commitIndex > old(commitIndex) then Spawned(log, lastApplied, commitIndex)
                else []
    {
      hide WellFormedLog, Holders, SmallestAbove, CanMove, Moved;
      if commitIndex < matchIndex[me] {
        var counter, minN := CountAbove();
        SmallestAboveBounds(matchIndex[..], commitIndex, matchIndex[me]);
        if counter > n / 2 && log[minN].term == currentTerm {
          commitIndex := minN;
          var panicked := SendApplyMsg([]);
          assert log + [] == log;
        }
      }
    }

    // ---------- the apply goroutines ----------

    /** Sending needs no lock. */
    method SendNext(j: nat)
      requires Valid() && CanMove(Applied(), Deliver(j))
      modifies this`appliers, this`applyCh
      ensures Valid() && View() == old(View()) && Applied() == Moved(old(Applied()), Deliver(j))
    {
      var g := appliers[j];
      applyCh := applyCh + [ApplyMsg(g.rest[0].command, g.rest[0].index)];
      assert Indices(applyCh) == Indices(old(applyCh)) + [g.rest[0].index];
      appliers := appliers[j := Applier(g.rest[1..], Some(g.rest[0].index))];
    }

    method RaiseApplied(j: nat)
      requires Valid() && CanMove(Applied(), Raise(j))
      modifies this`appliers, this`lastApplied
      ensures Valid() && View() == old(View()).(lastApplied := lastApplied) &&
                Applied() == Moved(old(Applied()), Raise(j))
    {
      var index := appliers[j].sent.value;
      if lastApplied < index {
        lastApplied := index;
      }
      appliers := appliers[j := appliers[j].(sent := None)];
    }
  }
}
