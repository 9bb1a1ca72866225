/** The master: four task queues, and the handlers that move tasks between them. Each handler, and
    each pass of the collector, is one atomic step here. */
module MapReduceMaster {

  datatype TaskState = TaskMap | TaskReduce | TaskWait | TaskEnd

  datatype TaskInfo = TaskInfo(stamp: int, state: TaskState, fileName: string, fileIndex: int, partIndex: int,
                               nReduce: int, nFiles: int)

  const NO_TASK := TaskInfo(0, TaskMap, "", 0, 0, 0, 0)

  /** Ten seconds, in the unit of the stamps. */
  const TIMEOUT := 10_000_000_000

  predicate OutOfTime(t: TaskInfo, now: int) {
    now - t.stamp > TIMEOUT
  }

  predicate Names(t: TaskInfo, fileIndex: int, partIndex: int) {
    t.fileIndex == fileIndex && t.partIndex == partIndex
  }

  // ---------- on values ----------

  function Removed(tasks: seq<TaskInfo>, fileIndex: int, partIndex: int): seq<TaskInfo> {
    if tasks == [] then []
    else
      var t := tasks[|tasks| - 1];
      Removed(tasks[..|tasks| - 1], fileIndex, partIndex) + if Names(t, fileIndex, partIndex) then [] else [t]
  }

  /** The tasks that are out of time, or those that are not. */
  function Selected(tasks: seq<TaskInfo>, now: int, out: bool): seq<TaskInfo> {
    if tasks == [] then []
    else
      var t := tasks[|tasks| - 1];
      Selected(tasks[..|tasks| - 1], now, out) + if OutOfTime(t, now) == out then [t] else []
  }

  function ReduceTasks(nReduce: int, nFiles: int): seq<TaskInfo> {
    if nReduce <= 0 then []
    else ReduceTasks(nReduce - 1, nFiles) + [NO_TASK.(state := TaskReduce, partIndex := nReduce - 1, nFiles := nFiles)]
  }

  function MapTasks(names: seq<string>, k: nat, nReduce: int, now: int): seq<TaskInfo>
    requires k <= |names|
  {
    if k == 0 then []
    else MapTasks(names, k - 1, nReduce, now) + [TaskInfo(now, TaskMap, names[k - 1], k - 1, 0, nReduce, |names|)]
  }

  datatype Queues = Queues(
    mapQueuing: seq<TaskInfo>, reduceQueuing: seq<TaskInfo>, mapRunning: seq<TaskInfo>, reduceRunning: seq<TaskInfo>,
    isDone: bool, filenames: seq<string>)

  function Last<T>(s: seq<T>): T
    requires s != []
  {
    s[|s| - 1]
  }

  function OnAskTask(m: Queues, now: int): (Queues, TaskInfo) {
    if m.reduceQueuing != [] then
      var t := Last(m.reduceQueuing).(stamp := now);
      (m.(reduceQueuing := m.reduceQueuing[..|m.reduceQueuing| - 1], reduceRunning := m.reduceRunning + [t]), t)
    else if m.mapQueuing != [] then
      var t := Last(m.mapQueuing).(stamp := now);
      (m.(mapQueuing := m.mapQueuing[..|m.mapQueuing| - 1], mapRunning := m.mapRunning + [t]), t)
    else if m.mapRunning == [] && m.reduceRunning == [] then
      (m.(isDone := true), NO_TASK.(state := TaskEnd))
    else
      (m, NO_TASK.(state := TaskWait))
  }

  function OnTaskDone(m: Queues, args: TaskInfo): Queues
    requires args.state == TaskMap || args.state == TaskReduce
  {
    if args.state == TaskMap then
      var running := Removed(m.mapRunning, args.fileIndex, args.partIndex);
      m.(mapRunning := running,
         reduceQueuing :=
           m.reduceQueuing +
           if running == [] && m.mapQueuing == [] then ReduceTasks(args.nReduce, |m.filenames|) else [])
    else
      m.(reduceRunning := Removed(m.reduceRunning, args.fileIndex, args.partIndex))
  }

  /** The queues are looked at one after the other, so the clock may have moved on in between. */
  function OnCollect(m: Queues, now: int, later: int): Queues {
    m.(reduceRunning := Selected(m.reduceRunning, now, false),
       reduceQueuing := m.reduceQueuing + Selected(m.reduceRunning, now, true),
       mapRunning := Selected(m.mapRunning, later, false),
       mapQueuing := m.mapQueuing + Selected(m.mapRunning, later, true))
  }

  function Made(names: seq<string>, nReduce: int, now: int): Queues {
    Queues(MapTasks(names, |names|, nReduce, now), [], [], [], false, names)
  }

  // ---------- what the helpers keep ----------

  lemma {:induction false} RemovedCount(tasks: seq<TaskInfo>, fileIndex: int, partIndex: int, t: TaskInfo)
    ensures multiset(Removed(tasks, fileIndex, partIndex))[t] == if Names(t, fileIndex, partIndex) then 0
              else multiset(tasks)[t]
    decreases |tasks|
  {
    if tasks != [] {
      var n := |tasks| - 1;
      assert tasks == tasks[..n] + [tasks[n]];
      RemovedCount(tasks[..n], fileIndex, partIndex, t);
    }
  }

  /** No task is lost or doubled when a queue is searched for late tasks. */
  lemma {:induction false} SelectedConserves(tasks: seq<TaskInfo>, now: int)
    ensures multiset(Selected(tasks, now, true)) + multiset(Selected(tasks, now, false)) == multiset(tasks)
    ensures forall t :: t in Selected(tasks, now, true) ==> OutOfTime(t, now)
    ensures forall t :: t in Selected(tasks, now, false) ==> !OutOfTime(t, now)
    decreases |tasks|
  {
    if tasks != [] {
      var n := |tasks| - 1;
      assert tasks == tasks[..n] + [tasks[n]];
      SelectedConserves(tasks[..n], now);
    }
  }

  lemma {:induction false} ReduceTasksAre(nReduce: nat, nFiles: int)
    ensures |ReduceTasks(nReduce, nFiles)| == nReduce
    ensures forall p :: 0 <= p < nReduce ==>
              ReduceTasks(nReduce, nFiles)[p] == NO_TASK.(state := TaskReduce, partIndex := p, nFiles := nFiles)
  {
    if nReduce > 0 {
      ReduceTasksAre(nReduce - 1, nFiles);
    }
  }

  lemma {:induction false} MapTasksAre(names: seq<string>, k: nat, nReduce: int, now: int)
    requires k <= |names|
    ensures |MapTasks(names, k, nReduce, now)| == k
    ensures forall i :: 0 <= i < k ==>
              MapTasks(names, k, nReduce, now)[i] == TaskInfo(now, TaskMap, names[i], i, 0, nReduce, |names|)
  {
    if k > 0 {
      MapTasksAre(names, k - 1, nReduce, now);
    }
  }

  // ---------- what the handlers do ----------

  predicate AllEmpty(m: Queues) {
    m.mapQueuing == [] && m.reduceQueuing == [] && m.mapRunning == [] && m.reduceRunning == []
  }

  /** Task `t` went from the end of a queue to the end of the running tasks, with the time as its stamp. */
  ghost predicate Handed(queuing: seq<TaskInfo>, queuing': seq<TaskInfo>, running: seq<TaskInfo>,
                         running': seq<TaskInfo>, t: TaskInfo, now: int) {
    && queuing != [] && queuing' == queuing[..|queuing| - 1]
    && t == queuing[|queuing| - 1].(stamp := now) && running' == running + [t]
  }

  /** A worker that asks gets a reduce task if one is queued, else a map task if one is queued; is told to
      wait if there are only running tasks; and is told to end, and the master is done, exactly when there
      are no tasks at all. */
  lemma AskAnswers(m: Queues, now: int)
    ensures
      var (m', t) := OnAskTask(m, now);
      && (m.reduceQueuing != [] ==>
            && Handed(m.reduceQueuing, m'.reduceQueuing, m.reduceRunning, m'.reduceRunning, t, now)
            && m' == m.(reduceQueuing := m'.reduceQueuing, reduceRunning := m'.reduceRunning))
      && (m.reduceQueuing == [] && m.mapQueuing != [] ==>
            && Handed(m.mapQueuing, m'.mapQueuing, m.mapRunning, m'.mapRunning, t, now)
            && m' == m.(mapQueuing := m'.mapQueuing, mapRunning := m'.mapRunning))
      && (m.reduceQueuing == [] && m.mapQueuing == [] && !AllEmpty(m) ==> t.state == TaskWait && m' == m)
      && (AllEmpty(m) ==> t.state == TaskEnd && m' == m.(isDone := true))
  {
  }

  /** A report takes the named task, in every copy, from the running tasks of its kind and no other task from
      anywhere; the report that leaves no map task adds one reduce task for every part. */
  lemma ReportEffect(m: Queues, args: TaskInfo, t: TaskInfo)
    requires args.state == TaskMap || args.state == TaskReduce
    ensures
      var m' := OnTaskDone(m, args);
      var named := Names(t, args.fileIndex, args.partIndex);
      && m'.mapQueuing == m.mapQueuing && m'.isDone == m.isDone && m'.filenames == m.filenames
      && multiset(m'.mapRunning)[t] == (if args.state == TaskMap && named then 0 else multiset(m.mapRunning)[t])
      && multiset(m'.reduceRunning)[t] ==
           (if args.state == TaskReduce && named then 0 else multiset(m.reduceRunning)[t])
      && (args.state == TaskMap && m'.mapRunning == [] && m.mapQueuing == [] ==>
            m'.reduceQueuing == m.reduceQueuing + ReduceTasks(args.nReduce, |m.filenames|))
      && (!(args.state == TaskMap && m'.mapRunning == [] && m.mapQueuing == []) ==> m'.reduceQueuing == m.reduceQueuing)
  {
    RemovedCount(m.mapRunning, args.fileIndex, args.partIndex, t);
    RemovedCount(m.reduceRunning, args.fileIndex, args.partIndex, t);
  }

  /** A pass of the collector queues exactly the running tasks that are out of time, of both kinds. */
  lemma CollectEffect(m: Queues, now: int, later: int, t: TaskInfo)
    ensures
      var m' := OnCollect(m, now, later);
      var lateReduce := if OutOfTime(t, now) then multiset(m.reduceRunning)[t] else 0;
      var lateMap := if OutOfTime(t, later) then multiset(m.mapRunning)[t] else 0;
      && multiset(m'.reduceQueuing)[t] == multiset(m.reduceQueuing)[t] + lateReduce
      && multiset(m'.reduceRunning)[t] == multiset(m.reduceRunning)[t] - lateReduce
      && multiset(m'.mapQueuing)[t] == multiset(m.mapQueuing)[t] + lateMap
      && multiset(m'.mapRunning)[t] == multiset(m.mapRunning)[t] - lateMap
      && m'.isDone == m.isDone && m'.filenames == m.filenames
  {
    hide Selected, OutOfTime;
    SelectedCounts(m.reduceRunning, now, t);
    SelectedCounts(m.mapRunning, later, t);
  }

  lemma SelectedCounts(tasks: seq<TaskInfo>, now: int, t: TaskInfo)
    ensures multiset(Selected(tasks, now, true))[t] == if OutOfTime(t, now) then multiset(tasks)[t] else 0
    ensures multiset(Selected(tasks, now, false))[t] == if OutOfTime(t, now) then 0 else multiset(tasks)[t]
  {
    SelectedConserves(tasks, now);
    hide Selected, OutOfTime;
    var late, left := Selected(tasks, now, true), Selected(tasks, now, false);
    assert multiset(tasks)[t] == multiset(late)[t] + multiset(left)[t];
    assert t in multiset(late) ==> t in late;
    assert t in multiset(left) ==> t in left;
  }

  lemma RemovedNext(tasks: seq<TaskInfo>, n: nat, fileIndex: int, partIndex: int)
    requires n < |tasks|
    ensures
      var before := Removed(tasks[..n], fileIndex, partIndex);
      && (Names(tasks[n], fileIndex, partIndex) ==> Removed(tasks[..n + 1], fileIndex, partIndex) == before)
      && (!Names(tasks[n], fileIndex, partIndex) ==>
         Removed(tasks[..n + 1], fileIndex, partIndex) == before + [tasks[n]])
  {
    assert tasks[..n + 1][..n] == tasks[..n];
  }

  lemma SelectedNext(tasks: seq<TaskInfo>, n: nat, now: int, out: bool)
    requires n < |tasks|
    ensures OutOfTime(tasks[n], now) == out ==>
              Selected(tasks[..n + 1], now, out) == Selected(tasks[..n], now, out) + [tasks[n]]
    ensures OutOfTime(tasks[n], now) != out ==> Selected(tasks[..n + 1], now, out) == Selected(tasks[..n], now, out)
  {
    assert tasks[..n + 1][..n] == tasks[..n];
  }

  /** What is kept so far, and what is still to be looked at. */
  lemma LookAtNext(kept: seq<TaskInfo>, tasks: seq<TaskInfo>, n: nat)
    requires n <= |tasks| && |kept| < |kept + tasks[n..]|
    ensures n < |tasks| && (kept + tasks[n..])[|kept|] == tasks[n]
    ensures (kept + tasks[n..])[..|kept|] + (kept + tasks[n..])[|kept| + 1..] == kept + tasks[n + 1..]
    ensures kept + tasks[n..] == kept + [tasks[n]] + tasks[n + 1..]
  {
  }

  // ---------- the queues and the master in place ----------

  class TaskQueue {
    var taskArray: seq<TaskInfo>
    // a queue that was never pushed to is not the same as one that became empty
    var made: bool

    constructor ()
      ensures taskArray == [] && !made
    {
      taskArray, made := [], false;
    }

    /** The last task; taking one from a queue that became empty would panic. */
    method Pop() returns (t: TaskInfo)
      requires made ==> taskArray != []
      modifies this`taskArray
      ensures !made ==> t == NO_TASK.(state := TaskEnd) && taskArray == old(taskArray)
      ensures made ==> old(taskArray) == taskArray + [t]
    {
      if !made {
        return NO_TASK.(state := TaskEnd);
      }
      var length := |taskArray|;
      t := taskArray[length - 1];
      taskArray := taskArray[..length - 1];
    }

    method Push(t: TaskInfo)
      modifies this
      ensures taskArray == old(taskArray) + [t] && made
    {
      taskArray, made := taskArray + [t], true;
    }

    method Append(tasks: seq<TaskInfo>)
      requires tasks != []
      modifies this
      ensures taskArray == old(taskArray) + tasks && made
    {
      taskArray, made := taskArray + tasks, true;
    }

    /** Takes out every task with these indices, in place. */
    method RemoveTask(fileIndex: int, partIndex: int)
      modifies this`taskArray
      ensures taskArray == Removed(old(taskArray), fileIndex, partIndex)
    {
      ghost var was, kept, seen := taskArray, [], 0;
      var i := 0;
      assert was[..0] == [];
      assert Removed([], fileIndex, partIndex) == [];
      hide Removed, Names;
      while i < |taskArray|
        invariant 0 <= i == |kept| <= |taskArray| && 0 <= seen <= |was|
        invariant taskArray == kept + was[seen..]
        invariant kept == Removed(was[..seen], fileIndex, partIndex)
        decreases |taskArray| - i
      {
        var t := taskArray[i];
        LookAtNext(kept, was, seen);
        RemovedNext(was, seen, fileIndex, partIndex);
        if Names(t, fileIndex, partIndex) {
          taskArray := taskArray[..i] + taskArray[i + 1..];
        } else {
          i := i + 1;
          kept := kept + [t];
        }
        seen := seen + 1;
      }
      assert was[..seen] == was;
    }

    /** Takes out every task that is out of time, in place. */
    method TimeOutQueue(now: int) returns (ret: seq<TaskInfo>)
      modifies this`taskArray
      ensures taskArray == Selected(old(taskArray), now, false)
      ensures ret == Selected(old(taskArray), now, true)
    {
      ret := [];
      ghost var was, kept, seen := taskArray, [], 0;
      var i := 0;
      assert was[..0] == [];
      assert Selected([], now, false) == Selected([], now, true) == [];
      hide Selected, OutOfTime;
      while i < |taskArray|
        invariant 0 <= i == |kept| <= |taskArray| && 0 <= seen <= |was|
        invariant taskArray == kept + was[seen..]
        invariant kept == Selected(was[..seen], now, false)
        invariant ret == Selected(was[..seen], now, true)
        decreases |taskArray| - i
      {
        var t := taskArray[i];
        LookAtNext(kept, was, seen);
        SelectedNext(was, seen, now, false);
        SelectedNext(was, seen, now, true);
        if OutOfTime(t, now) {
          taskArray := taskArray[..i] + taskArray[i + 1..];
          ret := ret + [t];
        } else {
          i := i + 1;
          kept := kept + [t];
        }
        seen := seen + 1;
      }
      assert was[..seen] == was;
    }
  }

  class Master {
    const mapTaskQueuing: TaskQueue
    const reduceTaskQueuing: TaskQueue
    const mapTaskRunning: TaskQueue
    const reduceTaskRunning: TaskQueue
    const filenames: seq<string>
    var isDone: bool

    ghost function View(): Queues
      reads this, mapTaskQueuing, reduceTaskQueuing, mapTaskRunning, reduceTaskRunning
    {
      Queues(mapTaskQueuing.taskArray, reduceTaskQueuing.taskArray, mapTaskRunning.taskArray,
          reduceTaskRunning.taskArray, isDone, filenames)
    }

    ghost predicate Valid()
      reads this, mapTaskQueuing, reduceTaskQueuing
    {
      && mapTaskQueuing != reduceTaskQueuing && mapTaskQueuing != mapTaskRunning && mapTaskQueuing != reduceTaskRunning
      && reduceTaskQueuing != mapTaskRunning && reduceTaskQueuing != reduceTaskRunning &&
         mapTaskRunning != reduceTaskRunning
      && (mapTaskQueuing.taskArray != [] ==> mapTaskQueuing.made)
      && (reduceTaskQueuing.taskArray != [] ==> reduceTaskQueuing.made)
    }

    /** MakeMaster: one map task for every file. */
    constructor (files: seq<string>, nReduce: int, now: int)
      ensures Valid() && View() == Made(files, nReduce, now)
      ensures fresh(mapTaskQueuing) && fresh(reduceTaskQueuing) && fresh(mapTaskRunning) && fresh(reduceTaskRunning)
    {
      filenames, isDone := files, false;
      mapTaskQueuing := new TaskQueue();
      reduceTaskQueuing := new TaskQueue();
      mapTaskRunning := new TaskQueue();
      reduceTaskRunning := new TaskQueue();
      new;
      for i := 0 to |files|
        invariant mapTaskQueuing.taskArray == MapTasks(files, i, nReduce, now) && (i > 0 ==> mapTaskQueuing.made)
        modifies mapTaskQueuing
      {
        mapTaskQueuing.Push(TaskInfo(now, TaskMap, files[i], i, 0, nReduce, |files|));
      }
    }

    method AskTask(now: int) returns (reply: TaskInfo)
      requires Valid()
      modifies this, mapTaskQueuing, reduceTaskQueuing, mapTaskRunning, reduceTaskRunning
      ensures Valid() && (View(), reply) == OnAskTask(old(View()), now)
    {
      if |reduceTaskQueuing.taskArray| > 0 {
        reply := reduceTaskQueuing.Pop();
        reply := reply.(stamp := now);
        reduceTaskRunning.Push(reply);
        return;
      }
      if |mapTaskQueuing.taskArray| > 0 {
        reply := mapTaskQueuing.Pop();
        reply := reply.(stamp := now);
        mapTaskRunning.Push(reply);
        return;
      }
      if |mapTaskRunning.taskArray| == 0 && |reduceTaskRunning.taskArray| == 0 {
        reply := NO_TASK.(state := TaskEnd);
        isDone := true;
      } else {
        reply := NO_TASK.(state := TaskWait);
      }
    }

    /** A report of anything but a map or a reduce task would panic. */
    method TaskDone(args: TaskInfo)
      requires Valid() && (args.state == TaskMap || args.state == TaskReduce)
      modifies reduceTaskQueuing, mapTaskRunning`taskArray, reduceTaskRunning`taskArray
      ensures Valid() && View() == OnTaskDone(old(View()), args)
    {
      if args.state == TaskMap {
        mapTaskRunning.RemoveTask(args.fileIndex, args.partIndex);
        if |mapTaskRunning.taskArray| == 0 && |mapTaskQueuing.taskArray| == 0 {
          CreateReduceTask(args);
        }
      } else {
        reduceTaskRunning.RemoveTask(args.fileIndex, args.partIndex);
      }
    }

    method CreateReduceTask(t: TaskInfo)
      modifies reduceTaskQueuing
      ensures reduceTaskQueuing.taskArray == old(reduceTaskQueuing.taskArray) + ReduceTasks(t.nReduce, |filenames|)
      ensures reduceTaskQueuing.made == (old(reduceTaskQueuing.made) || t.nReduce > 0)
    {
      var i := 0;
      while i < t.nReduce
        invariant 0 <= i && (i <= t.nReduce || i == 0)
        invariant reduceTaskQueuing.taskArray == old(reduceTaskQueuing.taskArray) + ReduceTasks(i, |filenames|)
        invariant reduceTaskQueuing.made == (old(reduceTaskQueuing.made) || i > 0)
      {
        reduceTaskQueuing.Push(NO_TASK.(state := TaskReduce, partIndex := i, nFiles := |filenames|));
        i := i + 1;
      }
    }

    /** One pass of CollectTimeOutQueue. */
    method Collect(now: int, later: int)
      requires Valid()
      modifies mapTaskQueuing, reduceTaskQueuing, mapTaskRunning`taskArray, reduceTaskRunning`taskArray
      ensures Valid() && View() == OnCollect(old(View()), now, later)
    {
      hide Selected;
      Requeue(reduceTaskRunning, reduceTaskQueuing, now);
      Requeue(mapTaskRunning, mapTaskQueuing, later);
    }

    /** The tasks out of time go from one queue to the end of the other. */
    static method Requeue(running: TaskQueue, queuing: TaskQueue, now: int)
      requires running != queuing
      modifies running`taskArray, queuing
      ensures running.taskArray == Selected(old(running.taskArray), now, false)
      ensures queuing.taskArray == old(queuing.taskArray) + Selected(old(running.taskArray), now, true)
      ensures old(queuing.taskArray != [] ==> queuing.made) ==> queuing.taskArray != [] ==> queuing.made
    {
      var timeoutQueue := running.TimeOutQueue(now);
      if |timeoutQueue| > 0 {
        queuing.Append(timeoutQueue);
      }
    }

    method Done() returns (ret: bool)
      ensures ret == isDone
    {
      ret := false;
      if isDone {
        ret := true;
      }
    }
  }
}
