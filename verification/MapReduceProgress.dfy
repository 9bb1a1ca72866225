/** The master is done exactly when it should be, and whatever has happened, the job can still be finished. */
module MapReduceProgress {
  import opened Sorting
  import opened MapReduceJob
  import opened MapReduceMaster
  import opened MapReduceRuns

  // ---------- when the master is done ----------

  /** The master becomes done in exactly one kind of step: a worker asks while there are no tasks. */
  lemma DoneExactly(g: Config, now: int, states: seq<System>, steps: seq<Step>, k: nat)
    requires Run(g, now, states, steps) && k < |steps|
    ensures states[k + 1].master.isDone <==> states[k].master.isDone || (steps[k].Ask? && AllEmpty(states[k].master))
  {
    assert states[k + 1] == Stepped(g, states[k], steps[k]);
  }

  /** Who asks gets a job exactly when a task is queued: that task, now running, with the time as its stamp. */
  lemma AskedOnARun(g: Config, now: int, states: seq<System>, steps: seq<Step>, k: nat)
    requires GoodConfig(g) && Run(g, now, states, steps) && k < |steps| && steps[k].Ask?
    ensures
      var m, m' := states[k].master, states[k + 1].master;
      var jobs, jobs' := states[k].jobs, states[k + 1].jobs;
      if m.reduceQueuing == [] && m.mapQueuing == [] then jobs' == jobs
      else
        && |jobs'| == |jobs| + 1 && jobs' == jobs + [jobs'[|jobs|]]
        && var job := jobs'[|jobs|];
           && job.task.stamp == steps[k].now
           && (m.reduceQueuing != [] ==> job == ReduceJob(job.task, 0, [], false))
           && (m.reduceQueuing == [] ==> job == MapJob(job.task, 0))
           && (m.reduceQueuing != [] ==>
                 Handed(m.reduceQueuing, m'.reduceQueuing, m.reduceRunning, m'.reduceRunning, job.task, steps[k].now))
           && (m.reduceQueuing == [] ==>
                 Handed(m.mapQueuing, m'.mapQueuing, m.mapRunning, m'.mapRunning, job.task, steps[k].now))
  {
    RunInv(g, now, states, steps, k);
    var m := states[k].master;
    AskAnswers(m, steps[k].now);
    assert states[k + 1] == Stepped(g, states[k], steps[k]);
    if m.reduceQueuing != [] {
      assert ReduceTaskOk(g, m.reduceQueuing[|m.reduceQueuing| - 1]);
    } else if m.mapQueuing != [] {
      assert MapTaskOk(g, m.mapQueuing[|m.mapQueuing| - 1]);
    }
  }

  // ---------- the job can always be finished ----------

  ghost function Maps(m: Queues): nat {
    |m.mapQueuing| + |m.mapRunning|
  }

  ghost function Reduces(m: Queues): nat {
    |m.reduceQueuing| + |m.reduceRunning|
  }

  /** The last state of a run. */
  ghost function End(states: seq<System>): System
    requires states != []
  {
    states[|states| - 1]
  }

  ghost predicate Goes(g: Config, now: int, states: seq<System>, steps: seq<Step>) {
    GoodConfig(g) && Run(g, now, states, steps)
  }

  lemma GoesFacts(g: Config, now: int, states: seq<System>, steps: seq<Step>)
    requires Goes(g, now, states, steps)
    ensures states != [] && |states| == |steps| + 1 && g.nReduce > 0 && Inv(g, End(states))
  {
    RunInv(g, now, states, steps, |steps|);
  }

  lemma GoOn(g: Config, now: int, states: seq<System>, steps: seq<Step>, e: Step)
      returns (states': seq<System>, steps': seq<Step>)
    requires Goes(g, now, states, steps) && states != [] && CanStep(g, End(states), e)
    ensures Goes(g, now, states', steps') && states' != [] && states <= states'
    ensures End(states') == Stepped(g, End(states), e)
  {
    hide CanStep, Stepped;
    states', steps' := OneMoreStep(g, now, states, steps, e);
  }

  lemma RemovedShorter(tasks: seq<TaskInfo>, t: TaskInfo)
    requires t in tasks
    ensures |Removed(tasks, t.fileIndex, t.partIndex)| < |tasks|
  {
    var r := Removed(tasks, t.fileIndex, t.partIndex);
    forall u
      ensures multiset(r)[u] <= multiset(tasks)[u]
    {
      RemovedCount(tasks, t.fileIndex, t.partIndex, u);
    }
    RemovedCount(tasks, t.fileIndex, t.partIndex, t);
    assert multiset(r) <= multiset(tasks);
    assert multiset(tasks) == multiset(r) + (multiset(tasks) - multiset(r));
    assert t in multiset(tasks) - multiset(r);
  }

  /** A worker renames the rest of its files; the master does not notice. */
  lemma {:induction false} RenamesAll(g: Config, now: int, states: seq<System>, steps: seq<Step>, j: nat)
      returns (states': seq<System>, steps': seq<Step>)
    requires Goes(g, now, states, steps) && states != [] && j < |End(states).jobs| && End(states).jobs[j].MapJob?
    ensures Goes(g, now, states', steps') && states' != [] && states <= states'
    ensures End(states').master == End(states).master && j < |End(states').jobs|
    ensures
      var job, job' := End(states).jobs[j], End(states').jobs[j];
      job'.MapJob? && job'.task == job.task && job'.renamed >= job.task.nReduce
    decreases End(states).jobs[j].task.nReduce - End(states).jobs[j].renamed
  {
    hide Goes, PartOf;
    var job := End(states).jobs[j];
    if job.renamed >= job.task.nReduce {
      states', steps' := states, steps;
    } else {
      var states1, steps1 := GoOn(g, now, states, steps, Rename(j));
      states', steps' := RenamesAll(g, now, states1, steps1, j);
    }
  }

  /** A worker reads the rest of its files, which are all there. */
  lemma {:induction false} ReadsAll(g: Config, now: int, states: seq<System>, steps: seq<Step>, j: nat)
      returns (states': seq<System>, steps': seq<Step>)
    requires Goes(g, now, states, steps) && states != [] && j < |End(states).jobs| && End(states).jobs[j].ReduceJob?
    requires !End(states).jobs[j].written
    ensures Goes(g, now, states', steps') && states' != [] && states <= states'
    ensures End(states').master == End(states).master && j < |End(states').jobs|
    ensures
      var job, job' := End(states).jobs[j], End(states').jobs[j];
      job'.ReduceJob? && job'.task == job.task && job'.read == job.task.nFiles
    decreases End(states).jobs[j].task.nFiles - End(states).jobs[j].read
  {
    GoesFacts(g, now, states, steps);
    assert JobOk(g, End(states), End(states).jobs[j]);
    var job := End(states).jobs[j];
    if job.read == job.task.nFiles {
      states', steps' := states, steps;
    } else {
      ReadsNeverFail(g, now, states, steps, |states| - 1, j);
      hide Goes, Inv;
      var states1, steps1 := GoOn(g, now, states, steps, Read(j));
      states', steps' := ReadsAll(g, now, states1, steps1, j);
    }
  }

  /** A queued map task can be done, and then there are fewer. */
  lemma MapOne(g: Config, now: int, states: seq<System>, steps: seq<Step>)
      returns (states': seq<System>, steps': seq<Step>)
    requires Goes(g, now, states, steps) && states != []
    requires End(states).master.reduceQueuing == [] && End(states).master.mapQueuing != []
    ensures Goes(g, now, states', steps') && states' != [] && states <= states'
    ensures Maps(End(states').master) < Maps(End(states).master)
  {
    GoesFacts(g, now, states, steps);
    var s := End(states);
    assert MapTaskOk(g, s.master.mapQueuing[|s.master.mapQueuing| - 1]);
    hide Goes, Inv, Removed;
    var j := |s.jobs|;
    var states1, steps1 := GoOn(g, now, states, steps, Ask(0));
    var t := End(states1).jobs[j].task;
    assert t in End(states1).master.mapRunning && Maps(End(states1).master) == Maps(s.master);
    var states2, steps2 := RenamesAll(g, now, states1, steps1, j);
    RemovedShorter(End(states2).master.mapRunning, t);
    states', steps' := GoOn(g, now, states2, steps2, Report(j));
  }

  /** A queued reduce task can be done, and then there are fewer. */
  lemma ReduceOne(g: Config, now: int, states: seq<System>, steps: seq<Step>)
      returns (states': seq<System>, steps': seq<Step>)
    requires Goes(g, now, states, steps) && states != [] && End(states).master.reduceQueuing != []
    ensures Goes(g, now, states', steps') && states' != [] && states <= states'
    ensures Maps(End(states').master) == Maps(End(states).master)
    ensures Reduces(End(states').master) < Reduces(End(states).master)
  {
    GoesFacts(g, now, states, steps);
    var s := End(states);
    assert ReduceTaskOk(g, s.master.reduceQueuing[|s.master.reduceQueuing| - 1]);
    var insensitive := OrderInsensitive(g.reducef);
    assert insensitive;
    hide Goes, Inv, Removed, OrderInsensitive, OutputOf;
    var j := |s.jobs|;
    var states1, steps1 := GoOn(g, now, states, steps, Ask(0));
    var t := End(states1).jobs[j].task;
    assert t in End(states1).master.reduceRunning && Reduces(End(states1).master) == Reduces(s.master);
    var states2, steps2 := ReadsAll(g, now, states1, steps1, j);
    var lines := OutputExists(g.reducef, End(states2).jobs[j].gathered);
    var states3, steps3 := GoOn(g, now, states2, steps2, Write(j, lines));
    RemovedShorter(End(states3).master.reduceRunning, t);
    states', steps' := GoOn(g, now, states3, steps3, Report(j));
  }

  /** A time at which all of the tasks are out of time. */
  ghost function Late(tasks: seq<TaskInfo>): (now: int)
    ensures forall i :: 0 <= i < |tasks| ==> OutOfTime(tasks[i], now)
  {
    if tasks == [] then 0
    else
      var n := |tasks| - 1;
      var now := Late(tasks[..n]);
      if now - tasks[n].stamp > TIMEOUT then now else tasks[n].stamp + TIMEOUT + 1
  }

  lemma {:induction false} AllSelected(tasks: seq<TaskInfo>, now: int)
    requires forall i :: 0 <= i < |tasks| ==> OutOfTime(tasks[i], now)
    ensures Selected(tasks, now, true) == tasks && Selected(tasks, now, false) == []
    decreases |tasks|
  {
    if tasks != [] {
      var n := |tasks| - 1;
      AllSelected(tasks[..n], now);
      assert tasks == tasks[..n] + [tasks[n]];
    }
  }

  /** When all tasks are running and their workers are gone, the collector queues them again. */
  lemma QueueAgain(g: Config, now: int, states: seq<System>, steps: seq<Step>)
      returns (states': seq<System>, steps': seq<Step>)
    requires Goes(g, now, states, steps) && states != []
    ensures Goes(g, now, states', steps') && states' != [] && states <= states'
    ensures Maps(End(states').master) == Maps(End(states).master)
    ensures Reduces(End(states').master) == Reduces(End(states).master)
    ensures End(states').master.mapRunning == [] && End(states').master.reduceRunning == []
  {
    var m := End(states).master;
    AllSelected(m.reduceRunning, Late(m.reduceRunning));
    AllSelected(m.mapRunning, Late(m.mapRunning));
    hide Goes, Selected, Late;
    states', steps' := GoOn(g, now, states, steps, Collect(Late(m.reduceRunning), Late(m.mapRunning)));
  }

  lemma {:induction false} Finishes(g: Config, now: int, states: seq<System>, steps: seq<Step>)
      returns (states': seq<System>, steps': seq<Step>)
    requires Goes(g, now, states, steps) && states != []
    ensures Goes(g, now, states', steps') && states' != [] && states <= states'
    ensures End(states').master.isDone
    decreases Maps(End(states).master), Reduces(End(states).master),
              |End(states).master.mapRunning| + |End(states).master.reduceRunning|
  {
    hide Goes;
    var m := End(states).master;
    if AllEmpty(m) {
      states', steps' := GoOn(g, now, states, steps, Ask(0));
    } else {
      var states1, steps1;
      if m.reduceQueuing != [] {
        states1, steps1 := ReduceOne(g, now, states, steps);
      } else if m.mapQueuing != [] {
        states1, steps1 := MapOne(g, now, states, steps);
      } else {
        states1, steps1 := QueueAgain(g, now, states, steps);
      }
      states', steps' := Finishes(g, now, states1, steps1);
    }
  }

  /** The job never gets stuck: every run, with whatever crashes, timeouts and late reports, can go on until
      the master is done. */
  lemma CanAlwaysFinish(g: Config, now: int, states: seq<System>, steps: seq<Step>)
      returns (states': seq<System>, steps': seq<Step>)
    requires GoodConfig(g) && Run(g, now, states, steps)
    ensures Run(g, now, states', steps') && states <= states' && states'[|steps'|].master.isDone
  {
    states', steps' := Finishes(g, now, states, steps);
  }

  /** In particular some run ends with the master done. */
  lemma SomeRunFinishes(g: Config, now: int) returns (states: seq<System>, steps: seq<Step>)
    requires GoodConfig(g)
    ensures Run(g, now, states, steps) && states[|steps|].master.isDone
  {
    states, steps := CanAlwaysFinish(g, now, [Init(g, now)], []);
  }
}
