/** What a request for a resized cover waits on, from asking for it until it goes on or is cancelled. */
module ArtResizeWaiters {
  import opened ArtResize

  /** In process p, the request waits on task t, a resize for the key. */
  predicate WaitsOn(sys: System, p: ProcessId, request: RequestId, t: TaskId, key: Key) {
    && p in sys.processes
    && var l := sys.processes[p];
    request in l.waiting && l.waiting[request] == t && t < |l.tasks| && l.tasks[t].key == key
  }

  /** Some task of the process for the key is unfinished. */
  predicate Unfinished(w: World, key: Key) {
    exists t :: 0 <= t < |w.tasks| && w.tasks[t].key == key && !w.tasks[t].done
  }

  /** Asking for a resize leaves everything else as it is: tasks, other requests, other keys, files. */
  ghost predicate AsksOnly(w: World, w': World, request: RequestId, key: Key) {
    && w.tasks <= w'.tasks && w'.files == w.files
    && (forall r :: r in w.waiting && r != request ==> r in w'.waiting && w'.waiting[r] == w.waiting[r])
    && (forall r :: r in w'.waiting && r != request ==> r in w.waiting)
    && (forall k :: k in w.inflight && k != key ==> k in w'.inflight && w'.inflight[k] == w.inflight[k])
    && (forall k :: k in w'.inflight && k != key ==> k in w.inflight)
  }

  lemma AskedWaits(w: World, request: RequestId, key: Key)
    requires TasksOk(w) && Enabled(w, EnsureResized(request, key))
    ensures var w' := Next(w, EnsureResized(request, key));
            && request in w'.waiting && w'.waiting[request] < |w'.tasks|
            && w'.tasks[w'.waiting[request]].key == key && !w'.tasks[w'.waiting[request]].done
            && key in w'.inflight && w'.inflight[key] == w'.waiting[request]
            && w'.tasks == (if Unfinished(w, key) then w.tasks else w.tasks + [Task(key, Queued, false, false)])
            && AsksOnly(w, w', request, key)
  {
    if t :| 0 <= t < |w.tasks| && w.tasks[t].key == key && !w.tasks[t].done {
      assert w.inflight[w.tasks[t].key] == t;
    }
  }

  /** A request waits on an unfinished resize of its own key, the one in flight; a new one is started exactly when
      the process has none that is unfinished, and nothing else changes. */
  lemma RequestWaitsOnItsOwnKey(systems: seq<System>, steps: seq<Step>, i: nat, p: ProcessId, request: RequestId,
                                key: Key)
    requires Execution(systems, steps) && Start(systems[0]) && i < |steps|
    requires steps[i] == Act(p, EnsureResized(request, key))
    ensures p in systems[i].processes && p in systems[i + 1].processes
    ensures var w, w' := Seen(systems[i], p), Seen(systems[i + 1], p);
            && request in w'.waiting && WaitsOn(systems[i + 1], p, request, w'.waiting[request], key)
            && !w'.tasks[w'.waiting[request]].done
            && key in w'.inflight && w'.inflight[key] == w'.waiting[request]
            && w'.tasks == (if Unfinished(w, key) then w.tasks else w.tasks + [Task(key, Queued, false, false)])
            && AsksOnly(w, w', request, key)
  {
    EverySystemOk(systems, steps, i);
    AskedWaits(Seen(systems[i], p), request, key);
    NextKeepsProcess(Seen(systems[i], p), EnsureResized(request, key));
    hide Next, FilesOk, TasksOk, AsksOnly, Unfinished;
  }

  /** The steps that end a wait: going on, being cancelled, or the end of the process. */
  predicate EndsWait(step: Step, p: ProcessId, request: RequestId) {
    step == Act(p, Resume(request)) || step == Act(p, CancelWaiter(request)) || step == End(p)
  }

  lemma NextKeepsWait(w: World, event: Event, request: RequestId)
    requires TasksOk(w) && Enabled(w, event) && request in w.waiting
    requires event != Resume(request) && event != CancelWaiter(request)
    ensures var w' := Next(w, event);
            && request in w'.waiting && w'.waiting[request] == w.waiting[request]
            && |w.tasks| <= |w'.tasks| && forall t :: 0 <= t < |w.tasks| ==> w'.tasks[t].key == w.tasks[t].key
  {
  }

  lemma StepKeepsWait(sys: System, step: Step, p: ProcessId, request: RequestId, t: TaskId, key: Key)
    requires SystemOk(sys) && CanStep(sys, step) && WaitsOn(sys, p, request, t, key) && !EndsWait(step, p, request)
    ensures WaitsOn(Stepped(sys, step), p, request, t, key)
  {
    hide Next, FilesOk;
    if step.Act? && step.process == p {
      NextKeepsWait(Seen(sys, p), step.event, request);
    }
  }

  /** It keeps waiting on that one resize, whatever else happens, until it goes on or is cancelled. */
  lemma {:induction false} KeepsWaiting(systems: seq<System>, steps: seq<Step>, i: nat, j: nat, p: ProcessId,
                                        request: RequestId, t: TaskId, key: Key)
    requires Execution(systems, steps) && Start(systems[0]) && i <= j < |systems|
    requires WaitsOn(systems[i], p, request, t, key)
    requires forall k :: i <= k < j ==> !EndsWait(steps[k], p, request)
    ensures WaitsOn(systems[j], p, request, t, key)
    decreases j
  {
    if i == j {
    } else {
      KeepsWaiting(systems, steps, i, j - 1, p, request, t, key);
      EverySystemOk(systems, steps, j - 1);
      hide SystemOk, Stepped, WaitsOn, CanStep, EndsWait;
      assert systems[j - 1 + 1] == Stepped(systems[j - 1], steps[j - 1]);
      StepKeepsWait(systems[j - 1], steps[j - 1], p, request, t, key);
    }
  }

  /** When it goes on, that resize of its own key is finished; and if it succeeded, the cover is there, whole. */
  lemma ResumesAfterItsOwnResize(systems: seq<System>, steps: seq<Step>, i: nat, j: nat, p: ProcessId,
                                 request: RequestId, key: Key)
    requires Execution(systems, steps) && Start(systems[0]) && i < j < |steps|
    requires steps[i] == Act(p, EnsureResized(request, key)) && steps[j] == Act(p, Resume(request))
    requires forall k :: i < k < j ==> !EndsWait(steps[k], p, request)
    ensures p in systems[i + 1].processes && p in systems[j].processes
    ensures var before, now := Seen(systems[i + 1], p), Seen(systems[j], p);
            && request in before.waiting && before.waiting[request] < |now.tasks|
            && var task := now.tasks[before.waiting[request]];
               && task.key == key && task.done && task.phase.Finished?
               && (task.phase.ok ==> Published(key.path) in now.files && now.files[Published(key.path)])
  {
    RequestWaitsOnItsOwnKey(systems, steps, i, p, request, key);
    var t := Seen(systems[i + 1], p).waiting[request];
    KeepsWaiting(systems, steps, i + 1, j, p, request, t, key);
    EverySystemOk(systems, steps, j);
    assert CanStep(systems[j], steps[j]);
    var now := Seen(systems[j], p);
    assert Enabled(now, Resume(request)) && TasksOk(now) && FilesOk(now);
  }

  /** What is published stays published. */
  lemma {:induction false} PublishedStays(systems: seq<System>, steps: seq<Step>, i: nat, j: nat, path: string)
    requires Execution(systems, steps) && Start(systems[0]) && i <= j < |systems|
    requires Published(path) in systems[i].files
    ensures Published(path) in systems[j].files && systems[j].files[Published(path)]
    decreases j
  {
    EverySystemOk(systems, steps, j);
    if i == j {
    } else {
      PublishedStays(systems, steps, i, j - 1, path);
      assert systems[j - 1 + 1] == Stepped(systems[j - 1], steps[j - 1]) && CanStep(systems[j - 1], steps[j - 1]);
      if steps[j - 1].Act? {
        NextKeepsPublished(Seen(systems[j - 1], steps[j - 1].process), steps[j - 1].event, path);
      }
    }
  }

  lemma NextKeepsPublished(w: World, event: Event, path: string)
    requires Enabled(w, event) && Published(path) in w.files
    ensures Published(path) in Next(w, event).files
  {
  }
}
