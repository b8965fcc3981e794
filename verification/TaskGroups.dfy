/** Task groups: their queues, the threads that enqueue and run tasks, and the test whether anything is left to do,
    each atomic operation a step of one thread (src/task.c). */
module TaskGroups {
  import opened DataModel

  type TaskId = nat

  /** A task in the system: the `number`-th to be linked into its group's queue, and at which end. */
  datatype Task = Task(id: TaskId, atHead: bool, number: nat)

  /** `enqueued`, `taken` and `finished` are bookkeeping: the tasks linked into the queue, taken from it, and run, each
      in that order. */
  datatype Group = Group(holder: Option<nat>, queue: seq<Task>, waiting: int, executing: int, stop: bool,
                         enqueued: seq<Task>, taken: seq<Task>, finished: seq<Task>)

  /** Where a call stands. A call of task_group_get_next_task is made by a worker thread (`worker`) or by
      task_group_perform_one. The checks are those of task_system_is_quiescent. */
  datatype Frame =
    | EnqueueLock(g: nat, id: TaskId, atHead: bool)
    | EnqueueLink(g: nat, id: TaskId, atHead: bool)
    | EnqueueCount(g: nat)
    | EnqueueUnlock(g: nat)
    | PerformEnter(g: nat)
    | PerformLock(g: nat)
    | TakeTest(g: nat, worker: bool)
    | TakeCount(g: nat, worker: bool)
    | TakeHead(g: nat, worker: bool)
    | AddExecuting(g: nat, worker: bool, task: Task)
    | ReleaseToRun(g: nat, worker: bool, task: Task)
    | Run(g: nat, worker: bool, task: Task)
    | PerformFinish(g: nat, task: Task)
    | PerformUnlock(g: nat)
    | WorkerEnter(g: nat)
    | WorkerTest(g: nat)
    | WorkerWait(g: nat)
    | WorkerRelock(g: nat, task: Task)
    | WorkerFinish(g: nat, task: Task)
    | WorkerExit(g: nat)
    | StopLock(g: nat)
    | StopTest(g: nat)
    | StopSet(g: nat)
    | StopUnlock(g: nat)
    | StopFailed(g: nat)
    | CheckLock(i: nat)
    | CheckExecuting(i: nat)
    | CheckWaiting(i: nat)
    | CheckUnlock(i: nat, result: bool)

  /** Each thread has the calls it is in, the innermost last: a task that runs may call the task system again. */
  datatype State = State(groups: seq<Group>, threads: seq<seq<Frame>>)

  datatype Call =
    | Enqueue(g: nat, id: TaskId, atHead: bool)
    | PerformOne(g: nat)
    | Work(g: nat)
    | StopGroup(g: nat)
    | IsQuiescent

  /** What a step leaves open: a call that an idle thread or a running task makes, and whether the queue is long
      enough for task_group_perform_one to bother. */
  datatype Choice = Choice(call: Option<Call>, enough: bool)

  predicate CallFits(c: Call, n: nat) {
    c.IsQuiescent? || c.g < n
  }

  function FirstFrame(c: Call): Frame {
    match c
    case Enqueue(g, id, atHead) => EnqueueLock(g, id, atHead)
    case PerformOne(g) => PerformEnter(g)
    case Work(g) => WorkerEnter(g)
    case StopGroup(g) => StopLock(g)
    case IsQuiescent => CheckLock(0)
  }

  /** The group a frame works on next. */
  function Subject(f: Frame): nat {
    match f
    case CheckLock(i) => i
    case CheckExecuting(i) => i
    case CheckWaiting(i) => i
    case CheckUnlock(i, _) => i
    case _ => f.g
  }

  /** What one atomic operation does to the group it works on. */
  function OnGroup(gr: Group, t: nat, f: Frame): Group {
    match f
    case EnqueueLock(_, _, _) | PerformLock(_) | WorkerEnter(_) | WorkerRelock(_, _) | StopLock(_) | CheckLock(_) =>
      if gr.holder.None? then gr.(holder := Some(t)) else gr
    case EnqueueLink(_, id, atHead) =>
      var task := Task(id, atHead, |gr.enqueued|);
      gr.(queue := if atHead then [task] + gr.queue else gr.queue + [task], enqueued := gr.enqueued + [task])
    case EnqueueCount(_) => gr.(waiting := gr.waiting + 1)
    case TakeCount(_, _) => gr.(waiting := gr.waiting - 1)
    case TakeHead(_, _) => if gr.queue == [] then gr else gr.(queue := gr.queue[1..], taken := gr.taken + [gr.queue[0]])
    case AddExecuting(_, _, _) => gr.(executing := gr.executing + 1)
    case PerformFinish(_, task) => gr.(executing := gr.executing - 1, finished := gr.finished + [task])
    case WorkerFinish(_, task) => gr.(executing := gr.executing - 1, finished := gr.finished + [task])
    case StopSet(_) => gr.(stop := true)
    case EnqueueUnlock(_) | ReleaseToRun(_, _, _) | PerformUnlock(_) | WorkerWait(_) | WorkerExit(_) | StopUnlock(_) =>
      gr.(holder := None)
    case CheckUnlock(_, _) => gr.(holder := None)
    case _ => gr
  }

  /** What takes the place of the innermost frame; `n` is the number of groups, `gr` the group before. */
  function Next(gr: Group, f: Frame, n: nat, choice: Choice): seq<Frame> {
    var free := gr.holder.None?;
    match f
    case EnqueueLock(g, id, atHead) => [if free then EnqueueLink(g, id, atHead) else f]
    case EnqueueLink(g, _, _) => [EnqueueCount(g)]
    case EnqueueCount(g) => [EnqueueUnlock(g)]
    case EnqueueUnlock(_) => []
    case PerformEnter(g) => if choice.enough then [PerformLock(g)] else []
    case PerformLock(g) => [if free then TakeTest(g, false) else f]
    case TakeTest(g, worker) =>
      [if gr.waiting != 0 then TakeCount(g, worker) else if worker then WorkerWait(g) else PerformUnlock(g)]
    case TakeCount(g, worker) => [TakeHead(g, worker)]
    case TakeHead(g, worker) => [AddExecuting(g, worker, if gr.queue == [] then Task(0, false, 0) else gr.queue[0])]
    case AddExecuting(g, worker, task) => [ReleaseToRun(g, worker, task)]
    case ReleaseToRun(g, worker, task) => [Run(g, worker, task)]
    case Run(g, worker, task) =>
      if choice.call.Some? && CallFits(choice.call.value, n) then [f, FirstFrame(choice.call.value)]
      else [if worker then WorkerRelock(g, task) else PerformFinish(g, task)]
    case PerformFinish(_, _) => []
    case PerformUnlock(_) => []
    case WorkerEnter(g) => [if free then WorkerTest(g) else f]
    case WorkerTest(g) => [if gr.stop then WorkerExit(g) else TakeTest(g, true)]
    case WorkerWait(g) => [WorkerEnter(g)]
    case WorkerRelock(g, task) => [if free then WorkerFinish(g, task) else f]
    case WorkerFinish(g, _) => [WorkerTest(g)]
    case WorkerExit(_) => []
    case StopLock(g) => [if free then StopTest(g) else f]
    case StopTest(g) => [if gr.queue == [] && gr.waiting == 0 then StopSet(g) else StopFailed(g)]
    case StopSet(g) => [StopUnlock(g)]
    case StopUnlock(_) => []
    case StopFailed(_) => [f]  // an assertion stops the program
    case CheckLock(i) => [if !free then f else if i + 1 < n then CheckLock(i + 1) else CheckExecuting(0)]
    case CheckExecuting(i) => [if gr.executing != 0 then CheckUnlock(0, false) else CheckWaiting(i)]
    case CheckWaiting(i) =>
      [if gr.waiting != 0 then CheckUnlock(0, false)
       else if i + 1 < n then CheckExecuting(i + 1) else CheckUnlock(0, true)]
    case CheckUnlock(i, result) => if i + 1 < n then [CheckUnlock(i + 1, result)] else []
  }

  predicate Shape(s: State) {
    0 < |s.groups| && forall t :: 0 <= t < |s.threads| ==> FramesFit(s.threads[t], |s.groups|)
  }

  predicate FramesFit(fs: seq<Frame>, n: nat) {
    forall i :: 0 <= i < |fs| ==> Subject(fs[i]) < n
  }

  /** One atomic operation of thread t. */
  function Act(s: State, t: nat, choice: Choice): State
    requires Shape(s) && t < |s.threads|
  {
    var fs, n := s.threads[t], |s.groups|;
    if fs == [] then
      if choice.call.Some? && CallFits(choice.call.value, n) then
        s.(threads := s.threads[t := [FirstFrame(choice.call.value)]])
      else s
    else
      var f := fs[|fs| - 1];
      var gr := s.groups[Subject(f)];
      State(s.groups[Subject(f) := OnGroup(gr, t, f)],
            s.threads[t := fs[..|fs| - 1] + Next(gr, f, n, choice)])
  }

  function Init(groups: nat, threads: nat): State {
    State(seq(groups, i => Group(None, [], 0, 0, false, [], [], [])), seq(threads, i => []))
  }

  // ---------------------------------------------------------------- invariant

  /** The frame has its task counted as executing in group g. */
  predicate Executes(f: Frame, g: nat) {
    (f.ReleaseToRun? || f.Run? || f.PerformFinish? || f.WorkerRelock? || f.WorkerFinish?) && f.g == g
  }

  /** The frame holds the lock of group g, out of n groups. */
  predicate Holds(f: Frame, g: nat, n: nat) {
    match f
    case EnqueueLink(h, _, _) => h == g
    case EnqueueCount(h) => h == g
    case EnqueueUnlock(h) => h == g
    case TakeTest(h, _) => h == g
    case TakeCount(h, _) => h == g
    case TakeHead(h, _) => h == g
    case AddExecuting(h, _, _) => h == g
    case ReleaseToRun(h, _, _) => h == g
    case PerformUnlock(h) => h == g
    case WorkerTest(h) => h == g
    case WorkerWait(h) => h == g
    case WorkerFinish(h, _) => h == g
    case WorkerExit(h) => h == g
    case StopTest(h) => h == g
    case StopSet(h) => h == g
    case StopUnlock(h) => h == g
    case StopFailed(h) => h == g
    case CheckLock(i) => g < i
    case CheckExecuting(_) => g < n
    case CheckWaiting(_) => g < n
    case CheckUnlock(i, _) => i <= g < n
    case _ => false
  }

  /** The lock's holder has the queue and its count one apart. */
  predicate Uncounted(f: Frame, g: nat) {
    (f.EnqueueCount? || f.TakeHead?) && f.g == g
  }

  ghost function CountIn(fs: seq<Frame>, g: nat): nat {
    if fs == [] then 0 else CountIn(fs[..|fs| - 1], g) + if Executes(fs[|fs| - 1], g) then 1 else 0
  }

  ghost function CountAll(threads: seq<seq<Frame>>, g: nat): nat {
    if threads == [] then 0 else CountAll(threads[..|threads| - 1], g) + CountIn(threads[|threads| - 1], g)
  }

  ghost predicate Top(fs: seq<Frame>, f: Frame) {
    fs != [] && fs[|fs| - 1] == f
  }

  /** All calls but the innermost have been made by a running task. */
  ghost predicate StackOk(fs: seq<Frame>) {
    forall i :: 0 <= i < |fs| - 1 ==> fs[i].Run?
  }

  /** Thread t holds the lock of g exactly when its innermost frame says so. */
  ghost predicate LockOk(s: State, g: nat, t: nat)
    requires g < |s.groups| && t < |s.threads|
  {
    s.groups[g].holder == Some(t) <==>
    s.threads[t] != [] && Holds(s.threads[t][|s.threads[t]| - 1], g, |s.groups|)
  }

  /** The queue is as long as its count says, but for an entry the lock's holder has not counted yet. */
  ghost predicate QueueOk(s: State, g: nat)
    requires g < |s.groups|
  {
    var gr := s.groups[g];
    && (gr.holder.Some? ==> gr.holder.value < |s.threads| && s.threads[gr.holder.value] != [])
    && |gr.queue| == gr.waiting + (if gr.holder.Some? && TopUncounted(s.threads[gr.holder.value], g) then 1 else 0)
    && gr.executing == CountAll(s.threads, g)
  }

  ghost predicate TopUncounted(fs: seq<Frame>, g: nat) {
    fs != [] && Uncounted(fs[|fs| - 1], g)
  }

  predicate Idle(gr: Group) {
    gr.executing == 0 && gr.waiting == 0
  }

  /** What the checks have established so far stays true while they hold every lock. */
  ghost predicate CheckOk(groups: seq<Group>, f: Frame) {
    match f
    case CheckExecuting(i) => forall g :: 0 <= g < i && g < |groups| ==> Idle(groups[g])
    case CheckWaiting(i) =>
      (forall g :: 0 <= g < i && g < |groups| ==> Idle(groups[g])) && (i < |groups| ==> groups[i].executing == 0)
    case TakeCount(g, _) => g < |groups| ==> groups[g].waiting > 0
    case TakeHead(g, _) => g < |groups| ==> groups[g].waiting >= 0
    case WorkerExit(g) => g < |groups| ==> groups[g].stop
    case StopFailed(g) => g < |groups| ==> groups[g].waiting > 0
    case _ => true
  }

  ghost predicate ThreadOk(s: State, t: nat)
    requires t < |s.threads|
  {
    StackOk(s.threads[t]) && (s.threads[t] != [] ==> CheckOk(s.groups, s.threads[t][|s.threads[t]| - 1]))
  }

  ghost predicate Inv(s: State) {
    && Shape(s)
    && (forall g, t :: 0 <= g < |s.groups| && 0 <= t < |s.threads| ==> LockOk(s, g, t))
    && (forall g :: 0 <= g < |s.groups| ==> QueueOk(s, g))
    && (forall t :: 0 <= t < |s.threads| ==> ThreadOk(s, t))
  }
}
