/** Coalesced artwork resizes: requests, worker threads, task completions and done-callbacks of any number of
    processes interleave freely over one cache directory.

    A task stands for one asyncio task together with the resize that its worker thread runs. */
module ArtResize {
  /** The in-flight key: resized path and target size. */
  datatype Key = Key(path: string, size: nat)

  type TaskId = nat
  type RequestId = nat
  type ProcessId = nat

  /** How far the worker is: waiting for a thread, past the check for a published file, writing its staging
      file, or finished. */
  datatype Phase = Queued | Checked | Staging(whole: bool) | Finished(ok: bool)

  datatype Task = Task(key: Key, phase: Phase, done: bool, callbackRan: bool)

  /** Files of the cache directory; the value says whether the content is whole. */
  datatype File = Published(path: string) | StagingOf(process: ProcessId, task: TaskId)

  /** What one process sees: its own table, tasks and waiters, and the directory. */
  datatype World = World(
    process: ProcessId,
    inflight: map<Key, TaskId>,
    tasks: seq<Task>,
    waiting: map<RequestId, TaskId>,
    files: map<File, bool>)

  datatype Event =
    | EnsureResized(request: RequestId, key: Key)
    | CheckPublished(task: TaskId)
    | OpenStaging(task: TaskId)
    | FinishWriting(task: TaskId)
    | Rename(task: TaskId)
    | Fail(task: TaskId)
    | CompleteTask(task: TaskId)
    | DoneCallback(task: TaskId)
    | CancelWaiter(request: RequestId)
    | Resume(request: RequestId)

  predicate Enabled(w: World, ev: Event) {
    match ev
    case EnsureResized(request, _) => request !in w.waiting
    case CheckPublished(t) => t < |w.tasks| && w.tasks[t].phase.Queued?
    case OpenStaging(t) => t < |w.tasks| && w.tasks[t].phase.Checked?
    case FinishWriting(t) => t < |w.tasks| && w.tasks[t].phase == Staging(false)
    case Rename(t) => t < |w.tasks| && w.tasks[t].phase == Staging(true)
    case Fail(t) => t < |w.tasks| && !w.tasks[t].phase.Finished?
    case CompleteTask(t) => t < |w.tasks| && w.tasks[t].phase.Finished? && !w.tasks[t].done
    case DoneCallback(t) => t < |w.tasks| && w.tasks[t].done && !w.tasks[t].callbackRan
    case CancelWaiter(request) => request in w.waiting
    case Resume(request) => request in w.waiting && w.waiting[request] < |w.tasks| && w.tasks[w.waiting[request]].done
  }

  function SetPhase(w: World, t: TaskId, phase: Phase): World
    requires t < |w.tasks|
  {
    w.(tasks := w.tasks[t := w.tasks[t].(phase := phase)])
  }

  /** The resize a request waits on: the one in flight for the key unless that is done, else a new one. */
  function StartOrJoin(w: World, key: Key): (World, TaskId) {
    if key in w.inflight && w.inflight[key] < |w.tasks| && !w.tasks[w.inflight[key]].done then (w, w.inflight[key])
    else
      (w.(tasks := w.tasks + [Task(key, Queued, false, false)], inflight := w.inflight[key := |w.tasks|]), |w.tasks|)
  }

  /** The done-callback: it removes the entry only if the entry is still this task's. */
  function ForgetInflight(inflight: map<Key, TaskId>, key: Key, t: TaskId): map<Key, TaskId> {
    if key in inflight && inflight[key] == t then inflight - {key} else inflight
  }

  function Next(w: World, ev: Event): World
    requires Enabled(w, ev)
  {
    match ev
    case EnsureResized(request, key) =>
      var (w', t) := StartOrJoin(w, key);
      w'.(waiting := w'.waiting[request := t])
    case CheckPublished(t) =>
      SetPhase(w, t, if Published(w.tasks[t].key.path) in w.files then Finished(true) else Checked)
    case OpenStaging(t) => SetPhase(w, t, Staging(false)).(files := w.files[StagingOf(w.process, t) := false])
    case FinishWriting(t) => SetPhase(w, t, Staging(true)).(files := w.files[StagingOf(w.process, t) := true])
    case Rename(t) =>
      var content := StagingOf(w.process, t) in w.files && w.files[StagingOf(w.process, t)];
      var left := w.files - {StagingOf(w.process, t)};
      SetPhase(w, t, Finished(true)).(files := left[Published(w.tasks[t].key.path) := content])
    case Fail(t) => SetPhase(w, t, Finished(false)).(files := w.files - {StagingOf(w.process, t)})
    case CompleteTask(t) => w.(tasks := w.tasks[t := w.tasks[t].(done := true)])
    case DoneCallback(t) =>
      w.(inflight := ForgetInflight(w.inflight, w.tasks[t].key, t),
         tasks := w.tasks[t := w.tasks[t].(callbackRan := true)])
    case CancelWaiter(request) => w.(waiting := w.waiting - {request})
    case Resume(request) => w.(waiting := w.waiting - {request})
  }

  // ----- Invariant -----

  ghost predicate TasksOk(w: World) {
    && (forall t :: 0 <= t < |w.tasks| ==>
          (w.tasks[t].done ==> w.tasks[t].phase.Finished?) && (w.tasks[t].callbackRan ==> w.tasks[t].done))
    && (forall t :: 0 <= t < |w.tasks| && !w.tasks[t].done ==>
          w.tasks[t].key in w.inflight && w.inflight[w.tasks[t].key] == t)
    && (forall k :: k in w.inflight ==>
          w.inflight[k] < |w.tasks| && w.tasks[w.inflight[k]].key == k && !w.tasks[w.inflight[k]].callbackRan)
    && (forall r :: r in w.waiting ==> w.waiting[r] < |w.tasks|)
  }

  ghost predicate FilesOk(w: World) {
    && (forall p :: Published(p) in w.files ==> w.files[Published(p)])
    && (forall t: TaskId :: StagingOf(w.process, t) in w.files <==> t < |w.tasks| && w.tasks[t].phase.Staging?)
    && (forall t: TaskId :: StagingOf(w.process, t) in w.files && t < |w.tasks| && w.tasks[t].phase.Staging? ==>
          w.files[StagingOf(w.process, t)] == w.tasks[t].phase.whole)
    && (forall t :: 0 <= t < |w.tasks| && w.tasks[t].phase == Finished(true) ==>
          Published(w.tasks[t].key.path) in w.files)
  }

  ghost predicate Inv(w: World) { TasksOk(w) && FilesOk(w) }

  lemma PhaseKeepsTasks(w: World, t: TaskId, phase: Phase)
    requires TasksOk(w) && t < |w.tasks| && !w.tasks[t].done
    ensures TasksOk(SetPhase(w, t, phase))
  {
  }

  lemma RequestKeepsTasks(w: World, request: RequestId, key: Key)
    requires TasksOk(w)
    ensures TasksOk(StartOrJoin(w, key).0.(waiting := StartOrJoin(w, key).0.waiting[request := StartOrJoin(w, key).1]))
  {
  }

  lemma CallbackKeepsTasks(w: World, t: TaskId)
    requires TasksOk(w) && Enabled(w, DoneCallback(t))
    ensures TasksOk(Next(w, DoneCallback(t)))
  {
  }

  lemma CompletionKeepsTasks(w: World, t: TaskId)
    requires TasksOk(w) && Enabled(w, CompleteTask(t))
    ensures TasksOk(Next(w, CompleteTask(t)))
  {
  }

  lemma NextKeepsTasks(w: World, ev: Event)
    requires TasksOk(w) && Enabled(w, ev)
    ensures TasksOk(Next(w, ev))
  {
    match ev {
      case EnsureResized(request, key) => RequestKeepsTasks(w, request, key);
      case CheckPublished(t) =>
        PhaseKeepsTasks(w, t, if Published(w.tasks[t].key.path) in w.files then Finished(true) else Checked);
      case OpenStaging(t) => PhaseKeepsTasks(w, t, Staging(false));
      case FinishWriting(t) => PhaseKeepsTasks(w, t, Staging(true));
      case Rename(t) => PhaseKeepsTasks(w, t, Finished(true));
      case Fail(t) => PhaseKeepsTasks(w, t, Finished(false));
      case CompleteTask(t) => CompletionKeepsTasks(w, t);
      case DoneCallback(t) => CallbackKeepsTasks(w, t);
      case _ =>
    }
  }

  lemma WritingKeepsFiles(w: World, t: TaskId)
    requires FilesOk(w)
    ensures Enabled(w, OpenStaging(t)) ==> FilesOk(Next(w, OpenStaging(t)))
    ensures Enabled(w, FinishWriting(t)) ==> FilesOk(Next(w, FinishWriting(t)))
  {
  }

  lemma RenameKeepsFiles(w: World, t: TaskId)
    requires FilesOk(w) && Enabled(w, Rename(t))
    ensures FilesOk(Next(w, Rename(t)))
  {
  }

  lemma FailKeepsFiles(w: World, t: TaskId)
    requires FilesOk(w) && Enabled(w, Fail(t))
    ensures FilesOk(Next(w, Fail(t)))
  {
  }

  lemma NextKeepsFiles(w: World, ev: Event)
    requires FilesOk(w) && Enabled(w, ev)
    ensures FilesOk(Next(w, ev))
  {
    match ev {
      case OpenStaging(t) => WritingKeepsFiles(w, t);
      case FinishWriting(t) => WritingKeepsFiles(w, t);
      case Rename(t) => RenameKeepsFiles(w, t);
      case Fail(t) => FailKeepsFiles(w, t);
      case _ =>
    }
  }

  // ----- Processes -----

  datatype Local = Local(inflight: map<Key, TaskId>, tasks: seq<Task>, waiting: map<RequestId, TaskId>)

  /** The processes that share the cache directory. */
  datatype System = System(processes: map<ProcessId, Local>, files: map<File, bool>)

  datatype Step = Act(process: ProcessId, event: Event) | Begin(process: ProcessId) | End(process: ProcessId)

  function Seen(sys: System, p: ProcessId): World
    requires p in sys.processes
  {
    var l := sys.processes[p];
    World(p, l.inflight, l.tasks, l.waiting, sys.files)
  }

  /** A process begins under a name of its own, with nothing in flight; it may end at any moment, and leave its
      staging files behind. */
  ghost predicate CanStep(sys: System, step: Step) {
    match step
    case Act(p, event) => p in sys.processes && Enabled(Seen(sys, p), event)
    case Begin(p) => p !in sys.processes && forall t :: StagingOf(p, t) !in sys.files
    case End(p) => p in sys.processes
  }

  function Stepped(sys: System, step: Step): System
    requires CanStep(sys, step)
  {
    match step
    case Act(p, event) =>
      var w := Next(Seen(sys, p), event);
      System(sys.processes[p := Local(w.inflight, w.tasks, w.waiting)], w.files)
    case Begin(p) => sys.(processes := sys.processes[p := Local(map[], [], map[])])
    case End(p) => sys.(processes := sys.processes - {p})
  }

  ghost predicate SystemOk(sys: System) {
    && (forall p :: p in sys.processes ==> Inv(Seen(sys, p)))
    && forall path :: Published(path) in sys.files ==> sys.files[Published(path)]
  }

  /** The other processes' files stay, and whatever else appears is published and whole. */
  lemma OthersKeepFiles(w: World, event: Event, other: World)
    requires FilesOk(w) && Enabled(w, event) && FilesOk(other) && other.files == w.files && other.process != w.process
    ensures FilesOk(other.(files := Next(w, event).files))
  {
    var files := Next(w, event).files;
    assert forall t :: StagingOf(other.process, t) in files <==> StagingOf(other.process, t) in w.files;
  }

  lemma StepKeepsOk(sys: System, step: Step)
    requires SystemOk(sys) && CanStep(sys, step)
    ensures SystemOk(Stepped(sys, step))
  {
    hide Next, TasksOk, FilesOk;
    var sys' := Stepped(sys, step);
    if step.Act? {
      var w := Seen(sys, step.process);
      NextKeepsTasks(w, step.event);
      NextKeepsFiles(w, step.event);
      WholeAfter(w, step.event);
      NextKeepsProcess(w, step.event);
      forall p | p in sys'.processes && p != step.process ensures Inv(Seen(sys', p)) {
        OthersKeepFiles(w, step.event, Seen(sys, p));
        SameTasks(Seen(sys, p), sys'.files);
      }
    } else if step.Begin? {
      NothingYetOk(Seen(sys', step.process));
    }
  }

  lemma NextKeepsProcess(w: World, event: Event)
    requires Enabled(w, event)
    ensures Next(w, event).process == w.process
  {
  }

  lemma WholeAfter(w: World, event: Event)
    requires FilesOk(w) && Enabled(w, event)
    ensures forall path :: Published(path) in Next(w, event).files ==> Next(w, event).files[Published(path)]
  {
    NextKeepsFiles(w, event);
  }

  lemma SameTasks(w: World, files: map<File, bool>)
    requires TasksOk(w)
    ensures TasksOk(w.(files := files))
  {
  }

  lemma NothingYetOk(w: World)
    requires w.inflight == map[] && w.tasks == [] && w.waiting == map[]
    requires forall path :: Published(path) in w.files ==> w.files[Published(path)]
    requires forall t :: StagingOf(w.process, t) !in w.files
    ensures Inv(w)
  {
  }

  /** Consecutive systems of a run are one step apart. */
  ghost predicate Execution(systems: seq<System>, steps: seq<Step>) {
    && |systems| == |steps| + 1
    && forall i :: 0 <= i < |steps| ==> CanStep(systems[i], steps[i]) && systems[i + 1] == Stepped(systems[i], steps[i])
  }

  /** No process yet, and a directory where everything published is whole; staging files of the past may be
      left in it. */
  ghost predicate Start(sys: System) {
    sys.processes == map[] && forall path :: Published(path) in sys.files ==> sys.files[Published(path)]
  }

  lemma {:induction false} EverySystemOk(systems: seq<System>, steps: seq<Step>, i: nat)
    requires Execution(systems, steps) && Start(systems[0]) && i < |systems|
    ensures SystemOk(systems[i])
  {
    if i == 0 {
    } else {
      EverySystemOk(systems, steps, i - 1);
      StepKeepsOk(systems[i - 1], steps[i - 1]);
    }
  }

  // ----- The event loop's side -----

  /** The module-level table and the tasks it refers to. */
  class Resizer {
    const process: ProcessId
    var inflight: map<Key, TaskId>
    var tasks: seq<Task>

    ghost predicate Valid(waiting: map<RequestId, TaskId>, files: map<File, bool>)
      reads this
    {
      TasksOk(World(process, inflight, tasks, waiting, files))
    }

    constructor (process: ProcessId)
      ensures this.process == process && inflight == map[] && tasks == []
    {
      this.process, inflight, tasks := process, map[], [];
    }

    /** Up to the point where the request starts waiting. */
    method EnsureResized(path: string, targetSize: nat, ghost waiting: map<RequestId, TaskId>,
                         ghost files: map<File, bool>)
      returns (task: TaskId)
      requires Valid(waiting, files)
      modifies this
      ensures Valid(waiting, files)
      ensures (World(process, inflight, tasks, waiting, files), task)
              == StartOrJoin(old(World(process, inflight, tasks, waiting, files)), Key(path, targetSize))
    {
      var key := Key(path, targetSize);
      if key in inflight {
        task := inflight[key];
        if !tasks[task].done {
          return;
        }
      }
      task := |tasks|;
      tasks := tasks + [Task(key, Queued, false, false)];
      inflight := inflight[key := task];
    }

    method RunDoneCallback(task: TaskId, ghost waiting: map<RequestId, TaskId>, ghost files: map<File, bool>)
      requires Valid(waiting, files) && Enabled(World(process, inflight, tasks, waiting, files), DoneCallback(task))
      modifies this
      ensures Valid(waiting, files)
      ensures World(process, inflight, tasks, waiting, files)
              == Next(old(World(process, inflight, tasks, waiting, files)), DoneCallback(task))
    {
      var key := tasks[task].key;
      if key in inflight && inflight[key] == task {
        inflight := inflight - {key};
      }
      tasks := tasks[task := tasks[task].(callbackRan := true)];
    }
  }

  // ----- Claims -----

  /** At every point of every interleaving a process has at most one unfinished resize for a key, and it is the
      one its in-flight table holds. */
  lemma OneUnfinishedResize(systems: seq<System>, steps: seq<Step>, i: nat, p: ProcessId, t: TaskId, u: TaskId)
    requires Execution(systems, steps) && Start(systems[0]) && i < |systems| && p in systems[i].processes
    requires var w := Seen(systems[i], p);
             t < |w.tasks| && u < |w.tasks| && !w.tasks[t].done && !w.tasks[u].done && w.tasks[t].key == w.tasks[u].key
    ensures var w := Seen(systems[i], p);
            t == u && w.tasks[t].key in w.inflight && w.inflight[w.tasks[t].key] == t
  {
    EverySystemOk(systems, steps, i);
  }

  lemma CallbackForgetsItsOwn(w: World, t: TaskId)
    requires TasksOk(w) && Enabled(w, DoneCallback(t))
    ensures var w' := Next(w, DoneCallback(t));
            && (forall u :: 0 <= u < |w.tasks| && !w.tasks[u].done ==>
                  w.tasks[u].key in w'.inflight && w'.inflight[w.tasks[u].key] == u)
            && (forall k :: k in w.inflight && w.inflight[k] != t ==>
                  k in w'.inflight && w'.inflight[k] == w.inflight[k])
            && (forall k :: k in w'.inflight ==> k in w.inflight && w'.inflight[k] != t)
  {
  }

  /** A late callback never removes a newer task's entry: after it, every unfinished task is still the one
      in flight for its key, and no other key's entry has changed. */
  lemma LateCallbackIsHarmless(systems: seq<System>, steps: seq<Step>, i: nat, p: ProcessId, t: TaskId)
    requires Execution(systems, steps) && Start(systems[0]) && i < |steps| && steps[i] == Act(p, DoneCallback(t))
    ensures p in systems[i].processes && p in systems[i + 1].processes
    ensures var w, w' := Seen(systems[i], p), Seen(systems[i + 1], p);
            && (forall u :: 0 <= u < |w.tasks| && !w.tasks[u].done ==>
                  w.tasks[u].key in w'.inflight && w'.inflight[w.tasks[u].key] == u)
            && (forall k :: k in w.inflight && w.inflight[k] != t ==>
                  k in w'.inflight && w'.inflight[k] == w.inflight[k])
            && (forall k :: k in w'.inflight ==> k in w.inflight && w'.inflight[k] != t)
  {
    EverySystemOk(systems, steps, i);
    var w := Seen(systems[i], p);
    hide Next, FilesOk;
    CallbackForgetsItsOwn(w, t);
    NextKeepsProcess(w, DoneCallback(t));
  }

  /** Once every finished task's callback has run, only unfinished tasks are left in flight. */
  lemma NothingLeaks(systems: seq<System>, steps: seq<Step>, i: nat, p: ProcessId)
    requires Execution(systems, steps) && Start(systems[0]) && i < |systems| && p in systems[i].processes
    requires var w := Seen(systems[i], p);
             forall t :: 0 <= t < |w.tasks| && w.tasks[t].done ==> w.tasks[t].callbackRan
    ensures var w := Seen(systems[i], p);
            forall k :: k in w.inflight ==> w.inflight[k] < |w.tasks| && !w.tasks[w.inflight[k]].done
  {
    EverySystemOk(systems, steps, i);
  }

  /** Whatever the processes do, and wherever they end, a published path is absent or whole. */
  lemma PublishedIsWhole(systems: seq<System>, steps: seq<Step>, i: nat)
    requires Execution(systems, steps) && Start(systems[0]) && i < |systems|
    ensures forall path :: Published(path) in systems[i].files ==> systems[i].files[Published(path)]
  {
    EverySystemOk(systems, steps, i);
  }

  /** A task that succeeded has published; a finished one, failed or not, has left no staging file behind; and
      an unfinished one's staging file is nobody else's to touch: it is there exactly while the task writes. */
  lemma FinishedTasksTell(systems: seq<System>, steps: seq<Step>, i: nat, p: ProcessId, t: TaskId)
    requires Execution(systems, steps) && Start(systems[0]) && i < |systems| && p in systems[i].processes
    requires t < |systems[i].processes[p].tasks|
    ensures var files, task := systems[i].files, systems[i].processes[p].tasks[t];
            && (task.phase == Finished(true) ==> Published(task.key.path) in files)
            && (StagingOf(p, t) in files <==> task.phase.Staging?)
            && (task.phase.Staging? ==> files[StagingOf(p, t)] == task.phase.whole)
  {
    EverySystemOk(systems, steps, i);
    assert FilesOk(Seen(systems[i], p));
  }

  /** Requests of a process for one key share the unfinished resize; cancelling a waiter leaves it, the table,
      the files and the other waiters alone. */
  lemma WaitersShareAndDoNotInterfere(systems: seq<System>, steps: seq<Step>, i: nat, p: ProcessId, request: RequestId)
    requires Execution(systems, steps) && Start(systems[0]) && i < |steps|
    requires steps[i].Act? && steps[i].process == p
    ensures p in systems[i].processes && p in systems[i + 1].processes
    ensures var w, w' := Seen(systems[i], p), Seen(systems[i + 1], p);
            && (forall t | 0 <= t < |w.tasks| && !w.tasks[t].done ::
                  steps[i].event == EnsureResized(request, w.tasks[t].key) ==>
                    w'.waiting[request] == t && w'.tasks == w.tasks)
            && (steps[i].event == CancelWaiter(request) ==>
                  w'.tasks == w.tasks && w'.inflight == w.inflight && w'.files == w.files
                  && forall r :: r in w.waiting && r != request ==> r in w'.waiting && w'.waiting[r] == w.waiting[r])
  {
    EverySystemOk(systems, steps, i);
  }

  /** A step of one process changes no table, task or waiter of another. */
  lemma ProcessesKeepApart(systems: seq<System>, steps: seq<Step>, i: nat, p: ProcessId)
    requires Execution(systems, steps) && i < |steps| && steps[i].process != p && p in systems[i].processes
    ensures p in systems[i + 1].processes && systems[i + 1].processes[p] == systems[i].processes[p]
  {
  }
}
