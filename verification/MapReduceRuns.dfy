/** Whole runs of a master and its workers. A worker that crashes takes no more steps; its task is
    given to another worker after the timeout, and both may still write files and report. Files
    appear by atomic renames. */
module MapReduceRuns {
  import opened Sorting
  import opened MapReduceJob
  import opened MapReduceMaster

  datatype Config = Config(mapf: MapFunction, reducef: ReduceFunction, names: seq<string>, contents: string -> string,
                           nReduce: nat)

  /** What a worker that got a task has done so far: renamed the first files of a map task, or read
      the first files of a reduce task and perhaps renamed its output. */
  datatype Job =
    | MapJob(task: TaskInfo, renamed: nat)
    | ReduceJob(task: TaskInfo, read: nat, gathered: seq<KeyValue>, written: bool)

  datatype System = System(master: Queues, jobs: seq<Job>, inter: map<(int, int), seq<KeyValue>>,
                           out: map<int, seq<Line>>)

  datatype Step =
    | Ask(now: int)
    | Rename(j: nat)
    | Read(j: nat)
    | Write(j: nat, lines: seq<Line>)
    | Report(j: nat)
    | Collect(now: int, later: int)

  ghost predicate GoodConfig(g: Config) {
    g.names != [] && g.nReduce >= 1 && OrderInsensitive(g.reducef)
  }

  ghost function Emits(g: Config): (r: seq<seq<KeyValue>>)
    ensures |r| == |g.names|
  {
    Emitted(g.mapf, g.names, g.contents)
  }

  ghost function Init(g: Config, now: int): System {
    System(Made(g.names, g.nReduce, now), [], map[], map[])
  }

  // ---------- the steps ----------

  ghost predicate CanStep(g: Config, s: System, e: Step) {
    match e
    case Ask(_) => true
    case Rename(j) => j < |s.jobs| && s.jobs[j].MapJob? && s.jobs[j].renamed < s.jobs[j].task.nReduce
    case Read(j) =>
      && j < |s.jobs| && s.jobs[j].ReduceJob? && s.jobs[j].read < s.jobs[j].task.nFiles
      && (s.jobs[j].read, s.jobs[j].task.partIndex) in s.inter
    case Write(j, lines) =>
      && j < |s.jobs| && s.jobs[j].ReduceJob? && s.jobs[j].read == s.jobs[j].task.nFiles
      && OutputOf(g.reducef, s.jobs[j].gathered, lines)
    case Report(j) =>
      && j < |s.jobs| && (s.jobs[j].task.state == TaskMap || s.jobs[j].task.state == TaskReduce)
      && (if s.jobs[j].MapJob? then s.jobs[j].renamed >= s.jobs[j].task.nReduce else s.jobs[j].written)
    case Collect(_, _) => true
  }

  ghost function NewJobs(t: TaskInfo): seq<Job> {
    if t.state == TaskMap then [MapJob(t, 0)] else if t.state == TaskReduce then [ReduceJob(t, 0, [], false)] else []
  }

  ghost function Stepped(g: Config, s: System, e: Step): System
    requires CanStep(g, s, e)
  {
    match e
    case Ask(now) =>
      var (m, reply) := OnAskTask(s.master, now);
      s.(master := m, jobs := s.jobs + NewJobs(reply))
    case Rename(j) =>
      var job := s.jobs[j];
      var t := job.task;
      s.(jobs := s.jobs[j := job.(renamed := job.renamed + 1)],
         inter := s.inter[(t.fileIndex, job.renamed) :=
                            PartOf(g.mapf(t.fileName, g.contents(t.fileName)), t.nReduce, job.renamed)])
    case Read(j) =>
      var job := s.jobs[j];
      var gathered := job.gathered + s.inter[(job.read, job.task.partIndex)];
      s.(jobs := s.jobs[j := job.(read := job.read + 1, gathered := gathered)])
    case Write(j, lines) =>
      s.(jobs := s.jobs[j := s.jobs[j].(written := true)], out := s.out[s.jobs[j].task.partIndex := lines])
    case Report(j) =>
      s.(master := OnTaskDone(s.master, s.jobs[j].task))
    case Collect(now, later) =>
      s.(master := OnCollect(s.master, now, later))
  }

  // ---------- the invariant ----------

  ghost predicate MapTaskOk(g: Config, t: TaskInfo) {
    && t.state == TaskMap && 0 <= t.fileIndex < |g.names| && t.fileName == g.names[t.fileIndex]
    && t.partIndex == 0 && t.nReduce == g.nReduce
  }

  ghost predicate ReduceTaskOk(g: Config, t: TaskInfo) {
    && t.state == TaskReduce && t.fileIndex == 0 && 0 <= t.partIndex < g.nReduce && t.nFiles == |g.names|
  }

  /** How many tasks are about file `f`. */
  function FileCount(tasks: seq<TaskInfo>, f: int): nat {
    if tasks == [] then 0
    else FileCount(tasks[..|tasks| - 1], f) + if tasks[|tasks| - 1].fileIndex == f then 1 else 0
  }

  ghost function Unfinished(m: Queues, f: int): nat {
    FileCount(m.mapQueuing, f) + FileCount(m.mapRunning, f)
  }

  ghost predicate NoMapLeft(m: Queues) {
    m.mapQueuing == [] && m.mapRunning == []
  }

  ghost predicate TasksOk(g: Config, m: Queues) {
    && m.filenames == g.names
    && (forall t :: t in m.mapQueuing ==> MapTaskOk(g, t))
    && (forall t :: t in m.mapRunning ==> MapTaskOk(g, t))
    && (forall t :: t in m.reduceQueuing ==> ReduceTaskOk(g, t))
    && (forall t :: t in m.reduceRunning ==> ReduceTaskOk(g, t))
  }

  /** The intermediate files of file `f` are all there. */
  ghost predicate Mapped(g: Config, s: System, f: int) {
    forall p :: 0 <= p < g.nReduce ==> (f, p) in s.inter
  }

  /** Every file is waiting or running once, or has been mapped and is done with. */
  ghost predicate MapProgress(g: Config, s: System) {
    forall f :: 0 <= f < |g.names| ==> Unfinished(s.master, f) == 1 || (Unfinished(s.master, f) == 0 && Mapped(g, s, f))
  }

  ghost predicate InterOk(g: Config, inter: map<(int, int), seq<KeyValue>>) {
    forall f, p :: (f, p) in inter ==>
      0 <= f < |g.names| && 0 <= p < g.nReduce && inter[(f, p)] == PartOf(Emits(g)[f], g.nReduce, p)
  }

  ghost predicate OutOk(g: Config, out: map<int, seq<Line>>)
    requires g.nReduce > 0
  {
    forall p :: p in out ==> 0 <= p < g.nReduce && OutputOf(g.reducef, Gathered(Emits(g), g.nReduce, p), out[p])
  }

  ghost predicate JobOk(g: Config, s: System, job: Job)
    requires g.nReduce > 0
  {
    match job
    case MapJob(t, renamed) =>
      && MapTaskOk(g, t) && renamed <= g.nReduce
      && forall p :: 0 <= p < renamed ==> (t.fileIndex, p) in s.inter
    case ReduceJob(t, read, gathered, written) =>
      && ReduceTaskOk(g, t) && read <= |g.names|
      && gathered == Gathered(Emits(g)[..read], g.nReduce, t.partIndex)
      && (written ==> t.partIndex in s.out)
      && NoMapLeft(s.master)
  }

  ghost predicate HasPart(tasks: seq<TaskInfo>, p: int) {
    exists k :: 0 <= k < |tasks| && tasks[k].partIndex == p
  }

  /** Once the maps are done, every part is waiting, running or written. */
  ghost predicate ReduceProgress(g: Config, s: System) {
    forall p {:trigger p in s.out} :: 0 <= p < g.nReduce ==>
        HasPart(s.master.reduceQueuing, p) || HasPart(s.master.reduceRunning, p) || p in s.out
  }

  ghost predicate AllWritten(g: Config, s: System) {
    forall p :: 0 <= p < g.nReduce ==> p in s.out
  }

  ghost predicate Inv(g: Config, s: System)
    requires g.nReduce > 0
  {
    && TasksOk(g, s.master)
    && MapProgress(g, s)
    && InterOk(g, s.inter)
    && OutOk(g, s.out)
    && (forall j :: 0 <= j < |s.jobs| ==> JobOk(g, s, s.jobs[j]))
    && (s.master.reduceQueuing != [] || s.master.reduceRunning != [] ==> NoMapLeft(s.master))
    && (NoMapLeft(s.master) ==> ReduceProgress(g, s))
    && (s.master.isDone ==> AllWritten(g, s))
  }

  // ---------- counting ----------

  lemma {:induction false} FileCountConcat(a: seq<TaskInfo>, b: seq<TaskInfo>, f: int)
    ensures FileCount(a + b, f) == FileCount(a, f) + FileCount(b, f)
    decreases |b|
  {
    if b == [] {
      assert a + b == a;
    } else {
      assert (a + b)[..|a + b| - 1] == a + b[..|b| - 1];
      FileCountConcat(a, b[..|b| - 1], f);
    }
  }

  lemma {:induction false} FileCountRemoved(tasks: seq<TaskInfo>, fileIndex: int, partIndex: int, f: int)
    requires forall k :: 0 <= k < |tasks| ==> tasks[k].partIndex == partIndex
    ensures FileCount(Removed(tasks, fileIndex, partIndex), f) == if f == fileIndex then 0 else FileCount(tasks, f)
    decreases |tasks|
  {
    if tasks != [] {
      var n := |tasks| - 1;
      FileCountRemoved(tasks[..n], fileIndex, partIndex, f);
      if !Names(tasks[n], fileIndex, partIndex) {
        FileCountConcat(Removed(tasks[..n], fileIndex, partIndex), [tasks[n]], f);
        assert FileCount([tasks[n]], f) == FileCount([], f) + if tasks[n].fileIndex == f then 1 else 0;
      } else {
        assert Removed(tasks, fileIndex, partIndex) == Removed(tasks[..n], fileIndex, partIndex);
      }
    }
  }

  lemma {:induction false} FileCountSelected(tasks: seq<TaskInfo>, now: int, f: int)
    ensures FileCount(Selected(tasks, now, true), f) + FileCount(Selected(tasks, now, false), f) == FileCount(tasks, f)
    decreases |tasks|
  {
    if tasks != [] {
      var n := |tasks| - 1;
      FileCountSelected(tasks[..n], now, f);
      assert FileCount([tasks[n]], f) == FileCount([], f) + if tasks[n].fileIndex == f then 1 else 0;
      assert FileCount([], f) == 0;
      FileCountConcat(Selected(tasks[..n], now, true), if OutOfTime(tasks[n], now) then [tasks[n]] else [], f);
      FileCountConcat(Selected(tasks[..n], now, false), if OutOfTime(tasks[n], now) then [] else [tasks[n]], f);
    }
  }

  lemma {:induction false} FileCountMapTasks(names: seq<string>, k: nat, nReduce: int, now: int, f: int)
    requires k <= |names|
    ensures FileCount(MapTasks(names, k, nReduce, now), f) == if 0 <= f < k then 1 else 0
  {
    if k > 0 {
      FileCountMapTasks(names, k - 1, nReduce, now, f);
    }
  }

  lemma {:induction false} RemovedMembers(tasks: seq<TaskInfo>, fileIndex: int, partIndex: int)
    ensures forall t :: t in Removed(tasks, fileIndex, partIndex) <==> t in tasks && !Names(t, fileIndex, partIndex)
    decreases |tasks|
  {
    if tasks != [] {
      var n := |tasks| - 1;
      RemovedMembers(tasks[..n], fileIndex, partIndex);
      assert tasks == tasks[..n] + [tasks[n]];
    }
  }

  lemma SelectedMembers(tasks: seq<TaskInfo>, now: int)
    ensures forall t :: t in tasks <==> t in Selected(tasks, now, true) || t in Selected(tasks, now, false)
  {
    SelectedConserves(tasks, now);
    forall t
      ensures t in tasks <==> t in Selected(tasks, now, true) || t in Selected(tasks, now, false)
    {
      assert t in multiset(tasks) <==>
               t in multiset(Selected(tasks, now, true)) + multiset(Selected(tasks, now, false));
    }
  }

  lemma HasPartBy(tasks: seq<TaskInfo>, p: int, t: TaskInfo)
    requires t in tasks && t.partIndex == p
    ensures HasPart(tasks, p)
  {
    var k :| 0 <= k < |tasks| && tasks[k] == t;
  }

  lemma PartTask(tasks: seq<TaskInfo>, p: int) returns (t: TaskInfo)
    requires HasPart(tasks, p)
    ensures t in tasks && t.partIndex == p
  {
    var k :| 0 <= k < |tasks| && tasks[k].partIndex == p;
    t := tasks[k];
  }

  // ---------- the master's steps ----------

  /** A step of the master leaves the jobs as they are, once it keeps the maps done. */
  lemma MasterKeeps(g: Config, s: System, m: Queues)
    requires g.nReduce > 0 && Inv(g, s)
    requires TasksOk(g, m) && MapProgress(g, s.(master := m))
    requires NoMapLeft(s.master) ==> NoMapLeft(m)
    requires m.reduceQueuing != [] || m.reduceRunning != [] ==> NoMapLeft(m)
    requires NoMapLeft(m) ==> ReduceProgress(g, s.(master := m))
    requires m.isDone ==> s.master.isDone || AllWritten(g, s)
    ensures Inv(g, s.(master := m))
  {
    hide TasksOk, MapProgress, InterOk, OutOk, ReduceProgress;
    var s' := s.(master := m);
    forall j | 0 <= j < |s'.jobs|
      ensures JobOk(g, s', s'.jobs[j])
    {
      assert JobOk(g, s, s.jobs[j]);
    }
  }

  lemma AskMap(g: Config, s: System, now: int)
    requires g.nReduce > 0 && Inv(g, s) && s.master.reduceQueuing == [] && s.master.mapQueuing != []
    ensures
      var (m, t) := OnAskTask(s.master, now);
      MapTaskOk(g, t) && Inv(g, s.(master := m))
  {
    var q := s.master.mapQueuing;
    var n := |q| - 1;
    var (m, t) := OnAskTask(s.master, now);
    assert q == q[..n] + [q[n]];
    assert MapTaskOk(g, q[n]);
    forall f | 0 <= f < |g.names|
      ensures Unfinished(m, f) == Unfinished(s.master, f)
    {
      FileCountConcat(s.master.mapRunning, [t], f);
      assert FileCount([t], f) == FileCount([], f) + if t.fileIndex == f then 1 else 0;
    }
    hide Unfinished;
    MapSame(g, s, m);
    MasterKeeps(g, s, m);
  }

  lemma MapSame(g: Config, s: System, m: Queues)
    requires MapProgress(g, s) && forall f :: 0 <= f < |g.names| ==> Unfinished(m, f) == Unfinished(s.master, f)
    ensures MapProgress(g, s.(master := m))
  {
    hide Unfinished;
    forall f | 0 <= f < |g.names|
      ensures Unfinished(m, f) == 1 || (Unfinished(m, f) == 0 && Mapped(g, s.(master := m), f))
    {
      assert Unfinished(m, f) == Unfinished(s.master, f);
    }
  }

  lemma MapsUntouched(g: Config, s: System, m: Queues)
    requires MapProgress(g, s) && m.mapQueuing == s.master.mapQueuing && m.mapRunning == s.master.mapRunning
    ensures MapProgress(g, s.(master := m))
  {
    MapSame(g, s, m);
  }

  lemma AskReduce(g: Config, s: System, now: int)
    requires g.nReduce > 0 && Inv(g, s) && s.master.reduceQueuing != []
    ensures
      var (m, t) := OnAskTask(s.master, now);
      ReduceTaskOk(g, t) && NoMapLeft(m) && Inv(g, s.(master := m))
  {
    var q := s.master.reduceQueuing;
    var n := |q| - 1;
    var (m, t) := OnAskTask(s.master, now);
    assert q == q[..n] + [q[n]];
    assert ReduceTaskOk(g, q[n]);
    hide Unfinished;
    MapsUntouched(g, s, m);
    forall p | 0 <= p < g.nReduce
      ensures HasPart(m.reduceQueuing, p) || HasPart(m.reduceRunning, p) || p in s.out
    {
      PartMoved(s.master.reduceQueuing, s.master.reduceRunning, m.reduceQueuing, m.reduceRunning, q[n], t, p);
    }
    MasterKeeps(g, s, m);
  }

  /** Moving a task from one queue to another loses no part. */
  lemma PartMoved(a: seq<TaskInfo>, b: seq<TaskInfo>, a': seq<TaskInfo>, b': seq<TaskInfo>, t: TaskInfo, t': TaskInfo,
                  p: int)
    requires a == a' + [t] && b' == b + [t'] && t.partIndex == t'.partIndex
    ensures HasPart(a, p) || HasPart(b, p) ==> HasPart(a', p) || HasPart(b', p)
  {
    if HasPart(a, p) {
      var x := PartTask(a, p);
      if x in a' {
        HasPartBy(a', p, x);
      } else {
        HasPartBy(b', p, t');
      }
    } else if HasPart(b, p) {
      var x := PartTask(b, p);
      HasPartBy(b', p, x);
    }
  }

  /** All queues are empty: every part has been written. */
  lemma NothingQueued(g: Config, s: System)
    requires g.nReduce > 0 && Inv(g, s) && NoMapLeft(s.master) && s.master.reduceQueuing == [] &&
               s.master.reduceRunning == []
    ensures AllWritten(g, s)
  {
  }

  lemma AskNothing(g: Config, s: System, now: int)
    requires g.nReduce > 0 && Inv(g, s) && s.master.reduceQueuing == [] && s.master.mapQueuing == []
    ensures Inv(g, s.(master := OnAskTask(s.master, now).0))
  {
    hide Unfinished;
    var m := OnAskTask(s.master, now).0;
    MapsUntouched(g, s, m);
    if m != s.master {
      NothingQueued(g, s);
    }
    MasterKeeps(g, s, m);
  }

  lemma AskKeeps(g: Config, s: System, now: int)
    requires g.nReduce > 0 && Inv(g, s)
    ensures Inv(g, Stepped(g, s, Ask(now)))
  {
    var (m, t) := OnAskTask(s.master, now);
    hide Inv;
    if s.master.reduceQueuing != [] {
      AskReduce(g, s, now);
    } else if s.master.mapQueuing != [] {
      AskMap(g, s, now);
    } else {
      AskNothing(g, s, now);
    }
    JobAdded(g, s.(master := m), t);
  }

  lemma JobAdded(g: Config, s: System, t: TaskInfo)
    requires g.nReduce > 0 && Inv(g, s)
    requires t.state == TaskMap ==> MapTaskOk(g, t)
    requires t.state == TaskReduce ==> ReduceTaskOk(g, t) && NoMapLeft(s.master)
    ensures Inv(g, s.(jobs := s.jobs + NewJobs(t)))
  {
    hide TasksOk, InterOk, OutOk, ReduceProgress;
    var s' := s.(jobs := s.jobs + NewJobs(t));
    forall j | 0 <= j < |s'.jobs|
      ensures JobOk(g, s', s'.jobs[j])
    {
      if j < |s.jobs| {
        assert JobOk(g, s, s.jobs[j]);
      } else {
        assert Emits(g)[..0] == [];
      }
    }
    assert MapProgress(g, s') by { MapSame(g, s, s.master); }
    assert NoMapLeft(s.master) ==> ReduceProgress(g, s') by { SameReduce(g, s, s'); }
  }

  lemma SameReduce(g: Config, s: System, s': System)
    requires s'.master.reduceQueuing == s.master.reduceQueuing && s'.master.reduceRunning == s.master.reduceRunning
    requires forall p :: p in s.out ==> p in s'.out
    ensures ReduceProgress(g, s) ==> ReduceProgress(g, s')
  {
  }

  /** A map task is reported after all its files are there. If it was the last, the reduce tasks are made. */
  lemma ReportMapKeeps(g: Config, s: System, t: TaskInfo)
    requires g.nReduce > 0 && Inv(g, s) && MapTaskOk(g, t) && Mapped(g, s, t.fileIndex)
    ensures Inv(g, s.(master := OnTaskDone(s.master, t)))
  {
    var m := OnTaskDone(s.master, t);
    MapsRemoved(g, s, t);
    RemovedMembers(s.master.mapRunning, t.fileIndex, t.partIndex);
    ReduceTasksAre(g.nReduce, |g.names|);
    hide MapProgress, Removed, ReduceTasks, InterOk, OutOk;
    if NoMapLeft(m) {
      forall p | 0 <= p < g.nReduce
        ensures HasPart(m.reduceQueuing, p)
      {
        HasPartBy(m.reduceQueuing, p, ReduceTasks(g.nReduce, |g.names|)[p]);
      }
    }
    assert NoMapLeft(s.master) ==> NoMapLeft(m);
    assert TasksOk(g, m);
    MasterKeeps(g, s, m);
  }

  lemma MapsRemoved(g: Config, s: System, t: TaskInfo)
    requires TasksOk(g, s.master) && MapProgress(g, s) && MapTaskOk(g, t) && Mapped(g, s, t.fileIndex)
    ensures MapProgress(g, s.(master := OnTaskDone(s.master, t)))
  {
    var m := OnTaskDone(s.master, t);
    forall k | 0 <= k < |s.master.mapRunning|
      ensures s.master.mapRunning[k].partIndex == 0
    {
      assert MapTaskOk(g, s.master.mapRunning[k]);
    }
    hide TasksOk, Removed, FileCount;
    forall f | 0 <= f < |g.names|
      ensures Unfinished(m, f) == 1 || (Unfinished(m, f) == 0 && Mapped(g, s.(master := m), f))
    {
      FileCountRemoved(s.master.mapRunning, t.fileIndex, 0, f);
      assert Unfinished(s.master, f) == 1 || (Unfinished(s.master, f) == 0 && Mapped(g, s, f));
    }
  }

  lemma ReportReduceKeeps(g: Config, s: System, t: TaskInfo)
    requires g.nReduce > 0 && Inv(g, s) && ReduceTaskOk(g, t) && t.partIndex in s.out
    ensures Inv(g, s.(master := OnTaskDone(s.master, t)))
  {
    hide Unfinished;
    var m := OnTaskDone(s.master, t);
    RemovedMembers(s.master.reduceRunning, t.fileIndex, t.partIndex);
    MapsUntouched(g, s, m);
    forall p | 0 <= p < g.nReduce && NoMapLeft(m)
      ensures HasPart(m.reduceQueuing, p) || HasPart(m.reduceRunning, p) || p in s.out
    {
      if HasPart(s.master.reduceRunning, p) && p != t.partIndex {
        var x := PartTask(s.master.reduceRunning, p);
        HasPartBy(m.reduceRunning, p, x);
      }
    }
    MasterKeeps(g, s, m);
  }

  /** Tasks that are out of time go back to be queued; none is lost or doubled. */
  lemma CollectKeeps(g: Config, s: System, now: int, later: int)
    requires g.nReduce > 0 && Inv(g, s)
    ensures Inv(g, s.(master := OnCollect(s.master, now, later)))
  {
    var m := OnCollect(s.master, now, later);
    SelectedMembers(s.master.mapRunning, later);
    SelectedMembers(s.master.reduceRunning, now);
    forall f | 0 <= f < |g.names|
      ensures Unfinished(m, f) == Unfinished(s.master, f)
    {
      FileCountConcat(s.master.mapQueuing, Selected(s.master.mapRunning, later, true), f);
      FileCountSelected(s.master.mapRunning, later, f);
    }
    hide Unfinished;
    MapSame(g, s, m);
    forall p | 0 <= p < g.nReduce && NoMapLeft(m)
      ensures HasPart(m.reduceQueuing, p) || HasPart(m.reduceRunning, p) || p in s.out
    {
      CollectParts(s.master, m, now, later, p);
      NoMapBack(s.master, now, later);
    }
    NoMapBack(s.master, now, later);
    MasterKeeps(g, s, m);
  }

  lemma NoMapBack(m: Queues, now: int, later: int)
    ensures NoMapLeft(OnCollect(m, now, later)) <==> NoMapLeft(m)
    ensures OnCollect(m, now, later).reduceQueuing != [] || OnCollect(m, now, later).reduceRunning != [] ==>
              m.reduceQueuing != [] || m.reduceRunning != []
  {
    SelectedConserves(m.mapRunning, later);
    assert |m.mapRunning| == |multiset(m.mapRunning)|;
    assert m.mapRunning != [] ==> m.mapRunning[0] in multiset(m.mapRunning);
  }

  lemma CollectParts(m: Queues, m': Queues, now: int, later: int, p: int)
    requires m' == OnCollect(m, now, later)
    ensures HasPart(m.reduceQueuing, p) || HasPart(m.reduceRunning, p) ==>
              HasPart(m'.reduceQueuing, p) || HasPart(m'.reduceRunning, p)
  {
    if HasPart(m.reduceQueuing, p) {
      var t := PartTask(m.reduceQueuing, p);
      HasPartBy(m'.reduceQueuing, p, t);
    } else if HasPart(m.reduceRunning, p) {
      var t := PartTask(m.reduceRunning, p);
      SelectedMembers(m.reduceRunning, now);
      if t in Selected(m.reduceRunning, now, true) {
        HasPartBy(m'.reduceQueuing, p, t);
      } else {
        HasPartBy(m'.reduceRunning, p, t);
      }
    }
  }

  // ---------- the workers' steps ----------

  /** Jobs and files changed, and files only appeared. */
  lemma WorkerKeeps(g: Config, s: System, s': System, j: nat)
    requires g.nReduce > 0 && Inv(g, s) && j < |s.jobs|
    requires s'.master == s.master && |s'.jobs| == |s.jobs| && s'.jobs == s.jobs[j := s'.jobs[j]]
    requires forall k :: k in s.inter ==> k in s'.inter
    requires forall p :: p in s.out ==> p in s'.out
    requires InterOk(g, s'.inter) && OutOk(g, s'.out) && JobOk(g, s', s'.jobs[j])
    ensures Inv(g, s')
  {
    hide TasksOk, InterOk, OutOk, ReduceProgress, Unfinished;
    forall i | 0 <= i < |s'.jobs|
      ensures JobOk(g, s', s'.jobs[i])
    {
      if i != j {
        assert JobOk(g, s, s.jobs[i]);
      }
    }
    forall f | 0 <= f < |g.names|
      ensures Unfinished(s'.master, f) == 1 || (Unfinished(s'.master, f) == 0 && Mapped(g, s', f))
    {
      assert Unfinished(s.master, f) == 1 || Mapped(g, s, f);
    }
    SameReduce(g, s, s');
  }

  lemma RenameKeeps(g: Config, s: System, j: nat)
    requires g.nReduce > 0 && Inv(g, s) && CanStep(g, s, Rename(j))
    ensures Inv(g, Stepped(g, s, Rename(j)))
  {
    assert JobOk(g, s, s.jobs[j]);
    var s' := Stepped(g, s, Rename(j));
    hide TasksOk, ReduceProgress, Unfinished, OutOk, PartOf;
    WorkerKeeps(g, s, s', j);
  }

  lemma ReadKeeps(g: Config, s: System, j: nat)
    requires g.nReduce > 0 && Inv(g, s) && CanStep(g, s, Read(j))
    ensures Inv(g, Stepped(g, s, Read(j)))
  {
    assert JobOk(g, s, s.jobs[j]);
    var s' := Stepped(g, s, Read(j));
    var read := s.jobs[j].read;
    assert Emits(g)[..read + 1][..read] == Emits(g)[..read];
    hide TasksOk, ReduceProgress, Unfinished, OutOk, PartOf;
    WorkerKeeps(g, s, s', j);
  }

  lemma WriteKeeps(g: Config, s: System, j: nat, lines: seq<Line>)
    requires g.nReduce > 0 && Inv(g, s) && CanStep(g, s, Write(j, lines))
    ensures Inv(g, Stepped(g, s, Write(j, lines)))
  {
    assert JobOk(g, s, s.jobs[j]);
    var s' := Stepped(g, s, Write(j, lines));
    assert Emits(g)[..|g.names|] == Emits(g);
    hide TasksOk, ReduceProgress, Unfinished, InterOk, OutputOf;
    WorkerKeeps(g, s, s', j);
  }

  lemma ReportKeeps(g: Config, s: System, j: nat)
    requires g.nReduce > 0 && Inv(g, s) && CanStep(g, s, Report(j))
    ensures Inv(g, Stepped(g, s, Report(j)))
  {
    assert JobOk(g, s, s.jobs[j]);
    hide Inv;
    if s.jobs[j].MapJob? {
      ReportMapKeeps(g, s, s.jobs[j].task);
    } else {
      ReportReduceKeeps(g, s, s.jobs[j].task);
    }
  }

  // ---------- every run ----------

  lemma StepKeeps(g: Config, s: System, e: Step)
    requires g.nReduce > 0 && Inv(g, s) && CanStep(g, s, e)
    ensures Inv(g, Stepped(g, s, e))
  {
    hide Inv;
    match e
    case Ask(now) => AskKeeps(g, s, now);
    case Rename(j) => RenameKeeps(g, s, j);
    case Read(j) => ReadKeeps(g, s, j);
    case Write(j, lines) => WriteKeeps(g, s, j, lines);
    case Report(j) => ReportKeeps(g, s, j);
    case Collect(now, later) => CollectKeeps(g, s, now, later);
  }

  lemma InitInv(g: Config, now: int)
    requires GoodConfig(g)
    ensures Inv(g, Init(g, now))
  {
    MapTasksAre(g.names, |g.names|, g.nReduce, now);
    forall f | 0 <= f < |g.names|
      ensures Unfinished(Init(g, now).master, f) == 1
    {
      FileCountMapTasks(g.names, |g.names|, g.nReduce, now, f);
    }
    hide Unfinished;
  }

  ghost predicate Run(g: Config, now: int, states: seq<System>, steps: seq<Step>) {
    && |states| == |steps| + 1
    && states[0] == Init(g, now)
    && forall k :: 0 <= k < |steps| ==>
       CanStep(g, states[k], steps[k]) && states[k + 1] == Stepped(g, states[k], steps[k])
  }

  lemma {:induction false} RunInv(g: Config, now: int, states: seq<System>, steps: seq<Step>, k: nat)
    requires GoodConfig(g) && Run(g, now, states, steps) && k < |states|
    ensures Inv(g, states[k])
  {
    hide Inv, CanStep, Stepped, Init;
    if k == 0 {
      InitInv(g, now);
    } else {
      RunInv(g, now, states, steps, k - 1);
      StepKeeps(g, states[k - 1], steps[k - 1]);
    }
  }

  /** There is a reduce task, in a queue or with a worker. */
  ghost predicate ReduceExists(s: System) {
    || s.master.reduceQueuing != [] || s.master.reduceRunning != []
    || exists j :: 0 <= j < |s.jobs| && s.jobs[j].ReduceJob?
  }

  /** At every moment of every run: each file is queued or running at most once, and done with only when
      mapped; and a reduce task, in a queue or with a worker, means that all intermediate files are right. */
  lemma TasksAreSafe(g: Config, now: int, states: seq<System>, steps: seq<Step>, k: nat)
    requires GoodConfig(g) && Run(g, now, states, steps) && k < |states|
    ensures
      var s := states[k];
      && (forall f :: 0 <= f < |g.names| ==> Unfinished(s.master, f) <= 1)
      && (forall f :: 0 <= f < |g.names| && Unfinished(s.master, f) == 0 ==> Mapped(g, s, f))
      && (ReduceExists(s) ==>
            forall f, p :: 0 <= f < |g.names| && 0 <= p < g.nReduce ==>
              (f, p) in s.inter && s.inter[(f, p)] == PartOf(Emits(g)[f], g.nReduce, p))
  {
    RunInv(g, now, states, steps, k);
    var s := states[k];
    if ReduceExists(s) {
      assert NoMapLeft(s.master) by {
        if j :| 0 <= j < |s.jobs| && s.jobs[j].ReduceJob? {
          assert JobOk(g, s, s.jobs[j]);
        }
      }
      forall f, p | 0 <= f < |g.names| && 0 <= p < g.nReduce
        ensures (f, p) in s.inter && s.inter[(f, p)] == PartOf(Emits(g)[f], g.nReduce, p)
      {
        assert Unfinished(s.master, f) == 0;
      }
    }
  }

  /** A reduce worker never misses an intermediate file. */
  lemma ReadsNeverFail(g: Config, now: int, states: seq<System>, steps: seq<Step>, k: nat, j: nat)
    requires GoodConfig(g) && Run(g, now, states, steps) && k < |states| && j < |states[k].jobs|
    requires states[k].jobs[j].ReduceJob? && states[k].jobs[j].read < states[k].jobs[j].task.nFiles
    ensures CanStep(g, states[k], Read(j))
  {
    RunInv(g, now, states, steps, k);
    assert JobOk(g, states[k], states[k].jobs[j]);
    hide Inv;
    TasksAreSafe(g, now, states, steps, k);
  }

  ghost function Outputs(s: System, n: nat): seq<seq<Line>>
    requires forall p :: 0 <= p < n ==> p in s.out
  {
    seq(n, p requires 0 <= p < n => s.out[p])
  }

  /** A key that occurs has a line in the output of its bucket, and in no other. */
  ghost predicate KeysPlaced(g: Config, s: System)
    requires g.nReduce > 0 && AllWritten(g, s)
  {
    forall key, p :: 0 <= p < g.nReduce ==>
      (HasLine(s.out[p], key) <==> Values(Concat(Emits(g)), key) != [] && p == Bucket(key, g.nReduce))
  }

  /** Once the master says it is done, the parts together are the sequential output: as many lines of
      each kind, and every key in one line of one part. */
  lemma DoneMeansSequential(g: Config, now: int, states: seq<System>, steps: seq<Step>, k: nat, sequential: seq<Line>)
    requires GoodConfig(g) && Run(g, now, states, steps) && k < |states| && states[k].master.isDone
    requires OutputOf(g.reducef, Concat(Emits(g)), sequential)
    ensures AllWritten(g, states[k])
    ensures multiset(Concat(Outputs(states[k], g.nReduce))) == multiset(sequential)
    ensures KeysPlaced(g, states[k])
  {
    RunInv(g, now, states, steps, k);
    assert OutOk(g, states[k].out) && AllWritten(g, states[k]);
    hide Inv, OutputOf, Run, KeysPlaced, Concat;
    DistributedIsSequential(g.reducef, Emits(g), g.nReduce, Outputs(states[k], g.nReduce), sequential);
    KeysOfOutputs(g, states[k]);
  }

  lemma KeysOfOutputs(g: Config, s: System)
    requires g.nReduce > 0 && OutOk(g, s.out) && AllWritten(g, s)
    ensures KeysPlaced(g, s)
  {
    hide OutputOf;
    var outs := Outputs(s, g.nReduce);
    forall key, p | 0 <= p < g.nReduce
      ensures HasLine(s.out[p], key) <==> Values(Concat(Emits(g)), key) != [] && p == Bucket(key, g.nReduce)
    {
      EachKeyOnce(g.reducef, Emits(g), g.nReduce, outs, key);
      assert HasLine(outs[p], key) <==> HasLine(s.out[p], key);
    }
  }

  /** An output file, once written, never changes, however often its task is executed again. */
  lemma OutputsStay(g: Config, now: int, states: seq<System>, steps: seq<Step>, a: nat, b: nat, p: int)
    requires GoodConfig(g) && Run(g, now, states, steps) && a <= b < |states| && p in states[a].out
    ensures p in states[b].out && states[b].out[p] == states[a].out[p]
  {
    OutGrows(g, now, states, steps, a, b, p);
    RunInv(g, now, states, steps, a);
    RunInv(g, now, states, steps, b);
    assert OutOk(g, states[a].out) && OutOk(g, states[b].out);
    hide Inv, OutputOf, Run;
    OutputUnique(g.reducef, Gathered(Emits(g), g.nReduce, p), states[a].out[p], states[b].out[p]);
  }

  lemma {:induction false} OutGrows(g: Config, now: int, states: seq<System>, steps: seq<Step>, a: nat, b: nat, p: int)
    requires Run(g, now, states, steps) && a <= b < |states| && p in states[a].out
    ensures p in states[b].out
    decreases b
  {
    if a < b {
      OutGrows(g, now, states, steps, a, b - 1, p);
      assert states[b] == Stepped(g, states[b - 1], steps[b - 1]);
    }
  }

  // ---------- a second batch of reduce tasks ----------

  /** Once the maps are done, a report makes another batch of reduce tasks if and only if it is a late
      report of a map task. */
  lemma AnotherBatch(g: Config, s: System, j: nat)
    requires g.nReduce > 0 && Inv(g, s) && CanStep(g, s, Report(j)) && NoMapLeft(s.master)
    ensures
      var s' := Stepped(g, s, Report(j));
      && NoMapLeft(s'.master)
      && |s'.master.reduceQueuing| == |s.master.reduceQueuing| + if s.jobs[j].MapJob? then g.nReduce else 0
  {
    assert JobOk(g, s, s.jobs[j]);
    assert Removed([], s.jobs[j].task.fileIndex, s.jobs[j].task.partIndex) == [];
    ReduceTasksAre(g.nReduce, |g.names|);
  }

  /** The one map task, given to a worker, times out and is queued again. */
  lemma TimesOut(g: Config, t: TaskInfo) returns (states: seq<System>, steps: seq<Step>)
    requires |g.names| == 1 && g.nReduce == 1 && t == TaskInfo(0, TaskMap, g.names[0], 0, 0, 1, 1)
    ensures Run(g, 0, states, steps)
    ensures states[|steps|] == System(Queues([t], [], [], [], false, g.names), [MapJob(t, 0)], map[], map[])
  {
    var late := TIMEOUT + 1;
    var s0 := Init(g, 0);
    assert MapTasks(g.names, 0, 1, 0) == [];
    assert s0.master.mapQueuing == [t];
    states, steps := [s0], [];
    var s1 := Stepped(g, s0, Ask(0));
    assert s1 == System(Queues([], [], [t], [], false, g.names), [MapJob(t, 0)], map[], map[]);
    states, steps := OneMoreStep(g, 0, states, steps, Ask(0));
    assert [t][..0] == [];
    assert Selected([], late, true) == Selected([], late, false) == [];
    assert Selected([t], late, true) == [t] && Selected([t], late, false) == [];
    hide Run;
    states, steps := OneMoreStep(g, 0, states, steps, Collect(late, late));
  }

  /** One file and one part. A second worker gets the map task too, and both write its file. */
  lemma BothMap(g: Config, t: TaskInfo) returns (states: seq<System>, steps: seq<Step>)
    requires |g.names| == 1 && g.nReduce == 1 && t == TaskInfo(0, TaskMap, g.names[0], 0, 0, 1, 1)
    ensures Run(g, 0, states, steps)
    ensures
      var s := states[|steps|];
      var again := t.(stamp := TIMEOUT + 1);
      s.master == Queues([], [], [again], [], false, g.names) && s.jobs == [MapJob(t, 1), MapJob(again, 1)]
  {
    var late := TIMEOUT + 1;
    states, steps := TimesOut(g, t);
    assert |states| == |steps| + 1;
    hide PartOf, Run;
    states, steps := OneMoreStep(g, 0, states, steps, Ask(late));
    assert states[|steps|].jobs == [MapJob(t, 0), MapJob(t.(stamp := late), 0)];
    states, steps := OneMoreStep(g, 0, states, steps, Rename(0));
    assert states[|steps|].jobs == [MapJob(t, 1), MapJob(t.(stamp := late), 0)];
    states, steps := OneMoreStep(g, 0, states, steps, Rename(1));
  }

  /** Both workers report, and the one part has two reduce tasks. */
  lemma SecondBatch(g: Config) returns (states: seq<System>, steps: seq<Step>)
    requires |g.names| == 1 && g.nReduce == 1
    ensures Run(g, 0, states, steps)
    ensures
      var queue := states[|steps|].master.reduceQueuing;
      |queue| == 2 && queue[0] == queue[1] && queue[0].state == TaskReduce && queue[0].partIndex == 0
  {
    var t := TaskInfo(0, TaskMap, g.names[0], 0, 0, 1, 1);
    var again := t.(stamp := TIMEOUT + 1);
    states, steps := BothMap(g, t);
    hide Run;
    assert [again][..0] == [] && Removed([], 0, 0) == [];
    assert Removed([again], 0, 0) == [];
    ReduceTasksAre(1, 1);
    states, steps := OneMoreStep(g, 0, states, steps, Report(0));
    states, steps := OneMoreStep(g, 0, states, steps, Report(1));
  }

  lemma OneMoreStep(g: Config, now: int, states: seq<System>, steps: seq<Step>, e: Step)
      returns (states': seq<System>, steps': seq<Step>)
    requires Run(g, now, states, steps) && |states| == |steps| + 1 && CanStep(g, states[|steps|], e)
    ensures Run(g, now, states', steps') && |states'| == |steps'| + 1
    ensures states'[|steps'|] == Stepped(g, states[|steps|], e) && states <= states'
  {
    hide CanStep, Stepped, Init;
    states', steps' := states + [Stepped(g, states[|steps|], e)], steps + [e];
  }
}
