/** In every run no task is lost or run twice, and each group's tasks are taken in order: those put at the head first,
    the newest before the others, then those put at the tail, the oldest before the others (src/task.c). */
module TaskOrder {
  import opened DataModel
  import opened TaskGroups
  import opened TaskQuiescence

  // ------------------------------------------------------------- nothing is lost

  /** The frame has taken task x from group g's queue and not yet finished it. */
  predicate HasTask(f: Frame, g: nat, x: Task) {
    (f.AddExecuting? || f.ReleaseToRun? || f.Run? || f.PerformFinish? || f.WorkerRelock? || f.WorkerFinish?)
    && f.g == g && f.task == x
  }

  function InCalls(fs: seq<Frame>, g: nat, x: Task): nat {
    if fs == [] then 0 else InCalls(fs[..|fs| - 1], g, x) + Bit(HasTask(fs[|fs| - 1], g, x))
  }

  /** How many frames have taken it. */
  function InThreads(threads: seq<seq<Frame>>, g: nat, x: Task): nat {
    if threads == [] then 0
    else InThreads(threads[..|threads| - 1], g, x) + InCalls(threads[|threads| - 1], g, x)
  }

  function Times(ts: seq<Task>, x: Task): nat {
    multiset(ts)[x]
  }

  lemma TimesMore(ts: seq<Task>, t: Task, x: Task)
    ensures Times(ts + [t], x) == Times(ts, x) + Bit(t == x)
    ensures Times([t] + ts, x) == Times(ts, x) + Bit(t == x)
  {
  }

  /** Task x has been enqueued as often as it is in the queue, in some thread's hands, or finished. */
  ghost predicate Kept(s: State, g: nat, x: Task)
    requires g < |s.groups|
  {
    var gr := s.groups[g];
    Times(gr.enqueued, x) == Times(gr.queue, x) + InThreads(s.threads, g, x) + Times(gr.finished, x)
  }

  lemma {:induction false} CallsConcat(xs: seq<Frame>, ys: seq<Frame>, g: nat, x: Task)
    ensures InCalls(xs + ys, g, x) == InCalls(xs, g, x) + InCalls(ys, g, x)
  {
    if ys == [] {
      assert xs + ys == xs;
    } else {
      hide HasTask;
      var k := |ys| - 1;
      assert (xs + ys)[..|xs| + k] == xs + ys[..k];
      CallsConcat(xs, ys[..k], g, x);
    }
  }

  lemma {:induction false} ThreadChanged(threads: seq<seq<Frame>>, t: nat, fs: seq<Frame>, g: nat, x: Task)
    requires t < |threads|
    ensures InThreads(threads[t := fs], g, x) + InCalls(threads[t], g, x)
         == InThreads(threads, g, x) + InCalls(fs, g, x)
    decreases |threads|
  {
    hide InCalls;
    var k := |threads| - 1;
    if t < k {
      assert threads[t := fs][..k] == threads[..k][t := fs];
      ThreadChanged(threads[..k], t, fs, g, x);
    } else {
      assert threads[t := fs][..k] == threads[..k];
    }
  }

  lemma CallsOne(f: Frame, g: nat, x: Task)
    ensures InCalls([f], g, x) == Bit(HasTask(f, g, x))
  {
    assert [f][..0] == [];
  }

  lemma CallsTwo(e: Frame, f: Frame, g: nat, x: Task)
    ensures InCalls([e, f], g, x) == Bit(HasTask(e, g, x)) + Bit(HasTask(f, g, x))
  {
    hide HasTask;
    assert [e, f][..1] == [e];
    CallsOne(e, g, x);
  }

  lemma FreshCall(c: Call, g: nat, x: Task)
    ensures !HasTask(FirstFrame(c), g, x)
  {
  }

  /** What a frame's step makes of task x, in the group and in hand. */
  ghost predicate Passes(gr: Group, f: Frame, gr': Group, nf: seq<Frame>, g: nat, x: Task) {
    Times(gr'.enqueued, x) + Times(gr.queue, x) + Bit(HasTask(f, g, x)) + Times(gr.finished, x)
    == Times(gr.enqueued, x) + Times(gr'.queue, x) + InCalls(nf, g, x) + Times(gr'.finished, x)
  }

  lemma NextPasses(gr: Group, t: nat, f: Frame, n: nat, choice: Choice, x: Task)
    requires Subject(f) < n && (f.TakeHead? ==> gr.queue != [])
    ensures Passes(gr, f, OnGroup(gr, t, f), Next(gr, f, n, choice), Subject(f), x)
  {
    hide Next, OnGroup, Passes, HasTask, InCalls;
    if f.EnqueueLink? {
      LinkPasses(gr, t, f, n, choice, x);
    } else if f.TakeHead? {
      TakePasses(gr, t, f, n, choice, x);
    } else if f.PerformFinish? || f.WorkerFinish? {
      FinishPasses(gr, t, f, n, choice, x);
    } else {
      SameTasks(gr, t, f);
      if f.Run? {
        RunPasses(gr, f, n, choice, x);
      } else {
        SameHand(gr, f, n, choice, x);
      }
      SoPasses(gr, f, OnGroup(gr, t, f), Next(gr, f, n, choice), Subject(f), x);
    }
  }

  lemma LinkPasses(gr: Group, t: nat, f: Frame, n: nat, choice: Choice, x: Task)
    requires f.EnqueueLink?
    ensures Passes(gr, f, OnGroup(gr, t, f), Next(gr, f, n, choice), f.g, x)
  {
    hide Times, InCalls;
    CallsOne(Next(gr, f, n, choice)[0], f.g, x);
    var task := Task(f.id, f.atHead, |gr.enqueued|);
    TimesMore(gr.enqueued, task, x);
    TimesMore(gr.queue, task, x);
  }

  lemma TakePasses(gr: Group, t: nat, f: Frame, n: nat, choice: Choice, x: Task)
    requires f.TakeHead? && gr.queue != []
    ensures Passes(gr, f, OnGroup(gr, t, f), Next(gr, f, n, choice), f.g, x)
  {
    hide Times, InCalls;
    CallsOne(Next(gr, f, n, choice)[0], f.g, x);
    assert gr.queue == [gr.queue[0]] + gr.queue[1..];
    TimesMore(gr.queue[1..], gr.queue[0], x);
  }

  lemma FinishPasses(gr: Group, t: nat, f: Frame, n: nat, choice: Choice, x: Task)
    requires f.PerformFinish? || f.WorkerFinish?
    ensures Passes(gr, f, OnGroup(gr, t, f), Next(gr, f, n, choice), f.g, x)
  {
    hide Times;
    TimesMore(gr.finished, f.task, x);
    if f.WorkerFinish? {
      CallsOne(Next(gr, f, n, choice)[0], f.g, x);
    }
  }

  lemma RunPasses(gr: Group, f: Frame, n: nat, choice: Choice, x: Task)
    requires f.Run?
    ensures InCalls(Next(gr, f, n, choice), f.g, x) == Bit(HasTask(f, f.g, x))
  {
    hide InCalls;
    var nf := Next(gr, f, n, choice);
    if |nf| == 2 {
      FreshCall(choice.call.value, f.g, x);
      CallsTwo(nf[0], nf[1], f.g, x);
    } else {
      CallsOne(nf[0], f.g, x);
    }
  }

  lemma SameTasks(gr: Group, t: nat, f: Frame)
    requires !f.EnqueueLink? && !f.TakeHead? && !f.PerformFinish? && !f.WorkerFinish?
    ensures var gr' := OnGroup(gr, t, f);
      gr'.enqueued == gr.enqueued && gr'.queue == gr.queue && gr'.finished == gr.finished
  {
  }

  /** Other frames leave the task in hand, if any, where it is. */
  lemma SameHand(gr: Group, f: Frame, n: nat, choice: Choice, x: Task)
    requires Subject(f) < n && !f.EnqueueLink? && !f.TakeHead? && !f.Run? && !f.PerformFinish? && !f.WorkerFinish?
    ensures InCalls(Next(gr, f, n, choice), Subject(f), x) == Bit(HasTask(f, Subject(f), x))
  {
    var nf := Next(gr, f, n, choice);
    if nf != [] {
      CallsOne(nf[0], Subject(f), x);
      hide InCalls;
    }
  }

  lemma SoPasses(gr: Group, f: Frame, gr': Group, nf: seq<Frame>, g: nat, x: Task)
    requires gr'.enqueued == gr.enqueued && gr'.queue == gr.queue && gr'.finished == gr.finished
    requires InCalls(nf, g, x) == Bit(HasTask(f, g, x))
    ensures Passes(gr, f, gr', nf, g, x)
  {
  }

  lemma ElsewherePasses(gr: Group, f: Frame, n: nat, choice: Choice, g: nat, x: Task)
    requires Subject(f) < n && g != Subject(f)
    ensures InCalls(Next(gr, f, n, choice), g, x) == 0 && !HasTask(f, g, x)
  {
    var nf := Next(gr, f, n, choice);
    if |nf| == 1 {
      CallsOne(nf[0], g, x);
    } else if |nf| == 2 {
      FreshCall(choice.call.value, g, x);
      CallsTwo(nf[0], nf[1], g, x);
    }
    hide InCalls;
  }

  lemma ActKept(s: State, t: nat, choice: Choice, g: nat, x: Task)
    requires Inv(s) && t < |s.threads| && g < |s.groups| && Kept(s, g, x)
    ensures var s' := Act(s, t, choice); g < |s'.groups| && Kept(s', g, x)
  {
    var s', fs := Act(s, t, choice), s.threads[t];
    if fs == [] {
      CallKept(s, t, choice, g, x);
    } else {
      ActSteps(s, t, choice);
      var f := fs[|fs| - 1];
      hide Act, Kept, Inv, Next, OnGroup;
      if f.TakeHead? {
        HeadIsThere(s, t);
      }
      StepKept(s, s', t, f, choice, g, x);
    }
  }

  lemma CallKept(s: State, t: nat, choice: Choice, g: nat, x: Task)
    requires Shape(s) && t < |s.threads| && s.threads[t] == [] && g < |s.groups| && Kept(s, g, x)
    ensures var s' := Act(s, t, choice); g < |s'.groups| && Kept(s', g, x)
  {
    hide Times, InCalls, InThreads;
    if choice.call.Some? && CallFits(choice.call.value, |s.groups|) {
      FreshCall(choice.call.value, g, x);
      CallsOne(FirstFrame(choice.call.value), g, x);
      NoFrames(g, x);
      ThreadChanged(s.threads, t, [FirstFrame(choice.call.value)], g, x);
    }
  }

  lemma NoFrames(g: nat, x: Task)
    ensures InCalls([], g, x) == 0
  {
  }

  lemma StepKept(s: State, s': State, t: nat, f: Frame, choice: Choice, g: nat, x: Task)
    requires Shape(s) && t < |s.threads| && g < |s.groups| && Kept(s, g, x) && Subject(f) < |s.groups|
    requires Steps(s, s', t, f, Next(s.groups[Subject(f)], f, |s.groups|, choice))
    requires f.TakeHead? ==> s.groups[f.g].queue != []
    ensures g < |s'.groups| && Kept(s', g, x)
  {
    hide Next, OnGroup, InCalls, InThreads, HasTask, Times;
    var fs, gr := s.threads[t], s.groups[Subject(f)];
    var nf := Next(gr, f, |s.groups|, choice);
    ThreadChanged(s.threads, t, After(fs, nf), g, x);
    CallsAfter(fs, nf, g, x);
    if g == Subject(f) {
      NextPasses(gr, t, f, |s.groups|, choice, x);
    } else {
      ElsewherePasses(gr, f, |s.groups|, choice, g, x);
    }
  }

  lemma CallsAfter(fs: seq<Frame>, nf: seq<Frame>, g: nat, x: Task)
    requires fs != []
    ensures InCalls(After(fs, nf), g, x) + Bit(HasTask(fs[|fs| - 1], g, x)) == InCalls(fs, g, x) + InCalls(nf, g, x)
  {
    CallsConcat(fs[..|fs| - 1], nf, g, x);
  }

  // ------------------------------------------------------------------ in order

  /** a comes before b in a queue: heads before tails, newer heads first, older tails first. */
  predicate Before(a: Task, b: Task) {
    if a.atHead then b.atHead ==> a.number > b.number else !b.atHead && a.number < b.number
  }

  /** The queue is in order, and the tails taken are older than each other and than those still there. */
  ghost predicate InOrder(gr: Group) {
    && (forall i :: 0 <= i < |gr.enqueued| ==> gr.enqueued[i].number == i)
    && (forall i :: 0 <= i < |gr.queue| ==> gr.queue[i].number < |gr.enqueued|)
    && (forall i :: 0 <= i < |gr.taken| ==> gr.taken[i].number < |gr.enqueued|)
    && (forall i, j :: 0 <= i < j < |gr.queue| ==> Before(gr.queue[i], gr.queue[j]))
    && (forall i, j :: 0 <= i < |gr.taken| && 0 <= j < |gr.queue| && !gr.taken[i].atHead && !gr.queue[j].atHead ==>
          gr.taken[i].number < gr.queue[j].number)
    && (forall i, j :: 0 <= i < j < |gr.taken| && !gr.taken[i].atHead && !gr.taken[j].atHead ==>
          gr.taken[i].number < gr.taken[j].number)
  }

  lemma OnGroupInOrder(gr: Group, t: nat, f: Frame)
    requires InOrder(gr)
    ensures InOrder(OnGroup(gr, t, f))
  {
    var gr' := OnGroup(gr, t, f);
    if f.EnqueueLink? {
      LinkInOrder(gr, f.id, f.atHead);
    } else if f.TakeHead? && gr.queue != [] {
      TakeInOrder(gr);
    } else {
      assert gr' == gr.(holder := gr'.holder, waiting := gr'.waiting, executing := gr'.executing, stop := gr'.stop,
                        finished := gr'.finished);
    }
  }

  lemma LinkInOrder(gr: Group, id: TaskId, atHead: bool)
    requires InOrder(gr)
    ensures var task := Task(id, atHead, |gr.enqueued|);
      InOrder(gr.(queue := if atHead then [task] + gr.queue else gr.queue + [task], enqueued := gr.enqueued + [task]))
  {
  }

  lemma TakeInOrder(gr: Group)
    requires InOrder(gr) && gr.queue != []
    ensures InOrder(gr.(queue := gr.queue[1..], taken := gr.taken + [gr.queue[0]]))
  {
  }

  // ---------------------------------------------------------------------- runs

  lemma {:induction false} NothingInHand(threads: seq<seq<Frame>>, g: nat, x: Task)
    requires forall t :: 0 <= t < |threads| ==> threads[t] == []
    ensures InThreads(threads, g, x) == 0
    decreases |threads|
  {
    if threads != [] {
      NothingInHand(threads[..|threads| - 1], g, x);
    }
  }

  /** In every run, for every group, each task enqueued is in the queue, or some thread has taken it to run or is
      running it, or it is finished: none is lost and none is run twice. */
  lemma {:induction false} NoTaskLost(groups: nat, threads: nat, events: seq<Event>, g: nat, x: Task)
    requires 0 < groups && AllFit(events, threads) && g < groups
    ensures Kept(RunOf(groups, threads, events), g, x)
    ensures Times(RunOf(groups, threads, events).groups[g].enqueued, x) <= 1
    decreases |events|
  {
    hide Act, Inv, Kept, Times;
    if events == [] {
      var s := Init(groups, threads);
      NothingInHand(s.threads, g, x);
      NoneKept(s, g, x);
    } else {
      var last := |events| - 1;
      NoTaskLost(groups, threads, events[..last], g, x);
      ActKept(RunOf(groups, threads, events[..last]), events[last].t, events[last].choice, g, x);
    }
    TakenInOrder(groups, threads, events, g);
    NumberedOnce(RunOf(groups, threads, events).groups[g].enqueued, x);
  }

  lemma {:induction false} NumberedOnce(ts: seq<Task>, x: Task)
    requires forall i :: 0 <= i < |ts| ==> ts[i].number == i
    ensures Times(ts, x) <= 1 && (x.number >= |ts| ==> Times(ts, x) == 0)
  {
    if ts != [] {
      var n := |ts| - 1;
      NumberedOnce(ts[..n], x);
      TimesMore(ts[..n], ts[n], x);
      assert ts[..n] + [ts[n]] == ts;
      hide Times;
    }
  }

  lemma NoneKept(s: State, g: nat, x: Task)
    requires g < |s.groups| && InThreads(s.threads, g, x) == 0
    requires s.groups[g].enqueued == s.groups[g].queue == s.groups[g].finished == []
    ensures Kept(s, g, x)
  {
  }

  /** In every run every queue is in order, and tasks put at the tail are taken in the order in which they came. */
  lemma {:induction false} TakenInOrder(groups: nat, threads: nat, events: seq<Event>, g: nat)
    requires 0 < groups && AllFit(events, threads) && g < groups
    ensures InOrder(RunOf(groups, threads, events).groups[g])
    decreases |events|
  {
    hide InOrder, Act;
    if events == [] {
      FirstInOrder(Init(groups, threads).groups[g]);
    } else {
      var last := |events| - 1;
      var e := events[last];
      TakenInOrder(groups, threads, events[..last], g);
      ActInOrder(RunOf(groups, threads, events[..last]), e.t, e.choice, g);
    }
  }

  lemma FirstInOrder(gr: Group)
    requires gr.enqueued == gr.queue == gr.taken == []
    ensures InOrder(gr)
  {
  }

  lemma ActInOrder(s: State, t: nat, choice: Choice, g: nat)
    requires Shape(s) && t < |s.threads| && g < |s.groups| && InOrder(s.groups[g])
    ensures var s' := Act(s, t, choice); g < |s'.groups| && InOrder(s'.groups[g])
  {
    hide InOrder, OnGroup, Next;
    var fs := s.threads[t];
    if fs != [] {
      var f := fs[|fs| - 1];
      assert FramesFit(fs, |s.groups|);
      if Subject(f) == g {
        OnGroupInOrder(s.groups[g], t, f);
      }
    }
  }

  /** In every run, the task a thread takes is the first of its group's queue: one put at the head, if there is any,
      and then the newest of them; otherwise the oldest of those put at the tail. */
  lemma TakesFirst(groups: nat, threads: nat, events: seq<Event>, t: nat, g: nat, worker: bool, choice: Choice)
    requires 0 < groups && AllFit(events, threads) && t < threads && g < groups
    requires Top(RunOf(groups, threads, events).threads[t], TakeHead(g, worker))
    ensures var s := RunOf(groups, threads, events); var fs := Act(s, t, choice).threads[t];
      && fs != [] && fs[|fs| - 1].AddExecuting? && fs[|fs| - 1].task in s.groups[g].queue
      && forall other :: other in s.groups[g].queue ==>
           other == fs[|fs| - 1].task || Before(fs[|fs| - 1].task, other)
  {
    TakenInOrder(groups, threads, events, g);
    var s := RunOf(groups, threads, events);
    HeadIsThere(s, t);
    hide RunOf, Act;
    TakeHands(s, t, g, worker, choice);
    FirstIsBefore(s.groups[g]);
  }

  lemma TakeHands(s: State, t: nat, g: nat, worker: bool, choice: Choice)
    requires Shape(s) && t < |s.threads| && g < |s.groups| && Top(s.threads[t], TakeHead(g, worker))
    requires s.groups[g].queue != []
    ensures var fs := Act(s, t, choice).threads[t];
      fs != [] && fs[|fs| - 1] == AddExecuting(g, worker, s.groups[g].queue[0])
  {
  }

  lemma FirstIsBefore(gr: Group)
    requires InOrder(gr) && gr.queue != []
    ensures forall other :: other in gr.queue ==> other == gr.queue[0] || Before(gr.queue[0], other)
  {
    forall other | other in gr.queue ensures other == gr.queue[0] || Before(gr.queue[0], other) {
      var i :| 0 <= i < |gr.queue| && gr.queue[i] == other;
    }
  }
}
