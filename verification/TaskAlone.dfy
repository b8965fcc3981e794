/** What the calls of the task system come to when no other thread interferes (src/task.c). */
module TaskAlone {
  import opened DataModel
  import opened TaskGroups
  import opened TaskQuiescence

  /** The state with group g and the calls of thread t as given. */
  function With(s: State, t: nat, g: nat, gr: Group, fs: seq<Frame>): State
    requires t < |s.threads| && g < |s.groups|
  {
    State(s.groups[g := gr], s.threads[t := fs])
  }

  const QUIET := Choice(None, true)

  /** k steps of thread t, the group being g throughout. */
  function Alone(gr: Group, t: nat, fs: seq<Frame>, n: nat, k: nat): (Group, seq<Frame>) {
    if k == 0 then (gr, fs)
    else
      var (gr', fs') := Alone(gr, t, fs, n, k - 1);
      if fs' == [] then (gr', fs')
      else (OnGroup(gr', t, fs'[|fs'| - 1]), fs'[..|fs'| - 1] + Next(gr', fs'[|fs'| - 1], n, QUIET))
  }

  /** That is what Act does. */
  lemma AloneActs(s: State, t: nat, g: nat, gr: Group, f: Frame)
    requires Shape(s) && t < |s.threads| && g < |s.groups| && Subject(f) == g
    ensures Shape(With(s, t, g, gr, [f]))
    ensures Act(With(s, t, g, gr, [f]), t, QUIET)
         == With(s, t, g, OnGroup(gr, t, f), [] + Next(gr, f, |s.groups|, QUIET))
  {
    var w := With(s, t, g, gr, [f]);
    forall u | 0 <= u < |w.threads| ensures FramesFit(w.threads[u], |w.groups|) {
      assert FramesFit(s.threads[u], |s.groups|);
    }
    hide OnGroup, Next;
    assert [f][..0] == [];
  }

  lemma One(gr: Group, t: nat, fs: seq<Frame>, n: nat, k: nat, gr1: Group, f: Frame, gr2: Group, f2: Frame)
    requires Alone(gr, t, fs, n, k) == (gr1, [f]) && OnGroup(gr1, t, f) == gr2 && Next(gr1, f, n, QUIET) == [f2]
    ensures Alone(gr, t, fs, n, k + 1) == (gr2, [f2])
  {
    assert [f][..0] + Next(gr1, f, n, QUIET) == [f2];
    hide Next, OnGroup;
  }

  lemma Ends(gr: Group, t: nat, fs: seq<Frame>, n: nat, k: nat, gr1: Group, f: Frame, gr2: Group)
    requires Alone(gr, t, fs, n, k) == (gr1, [f]) && OnGroup(gr1, t, f) == gr2 && Next(gr1, f, n, QUIET) == []
    ensures Alone(gr, t, fs, n, k + 1) == (gr2, [])
  {
    assert [f][..0] + Next(gr1, f, n, QUIET) == [];
    hide Next, OnGroup;
  }

  /** Enqueueing puts the task at its end of the queue and counts it. */
  lemma Enqueues(gr: Group, t: nat, g: nat, id: TaskId, atHead: bool, n: nat)
    requires gr.holder.None?
    ensures var task := Task(id, atHead, |gr.enqueued|);
      Alone(gr, t, [EnqueueLock(g, id, atHead)], n, 4)
      == (gr.(queue := if atHead then [task] + gr.queue else gr.queue + [task], waiting := gr.waiting + 1,
              enqueued := gr.enqueued + [task]), [])
  {
    hide Alone;
    var task, fs := Task(id, atHead, |gr.enqueued|), [EnqueueLock(g, id, atHead)];
    var gr1 := gr.(holder := Some(t));
    var gr2 := gr1.(queue := if atHead then [task] + gr.queue else gr.queue + [task], enqueued := gr.enqueued + [task]);
    var gr3 := gr2.(waiting := gr.waiting + 1);
    Begins(gr, t, fs, n);
    One(gr, t, fs, n, 0, gr, fs[0], gr1, EnqueueLink(g, id, atHead));
    One(gr, t, fs, n, 1, gr1, EnqueueLink(g, id, atHead), gr2, EnqueueCount(g));
    One(gr, t, fs, n, 2, gr2, EnqueueCount(g), gr3, EnqueueUnlock(g));
    Ends(gr, t, fs, n, 3, gr3, EnqueueUnlock(g), gr3.(holder := None));
  }

  /** The group when its first task has been taken and counted as executing. */
  function Taken(gr: Group): Group
    requires gr.queue != []
  {
    gr.(holder := None, queue := gr.queue[1..], waiting := gr.waiting - 1, executing := gr.executing + 1,
        taken := gr.taken + [gr.queue[0]])
  }

  /** From the test to the task, with the lock held. */
  lemma Takes(gr: Group, t: nat, fs: seq<Frame>, n: nat, k: nat, gr1: Group, g: nat, worker: bool)
    requires Alone(gr, t, fs, n, k) == (gr1, [TakeTest(g, worker)])
    requires gr1.queue != [] && gr1.waiting == |gr1.queue| && gr1.holder == Some(t)
    ensures Alone(gr, t, fs, n, k + 5) == (Taken(gr1), [Run(g, worker, gr1.queue[0])])
  {
    hide Alone;
    var task := gr1.queue[0];
    var gr2 := gr1.(waiting := gr1.waiting - 1);
    var gr3 := gr2.(queue := gr1.queue[1..], taken := gr1.taken + [task]);
    var gr4 := gr3.(executing := gr1.executing + 1);
    One(gr, t, fs, n, k, gr1, TakeTest(g, worker), gr1, TakeCount(g, worker));
    One(gr, t, fs, n, k + 1, gr1, TakeCount(g, worker), gr2, TakeHead(g, worker));
    One(gr, t, fs, n, k + 2, gr2, TakeHead(g, worker), gr3, AddExecuting(g, worker, task));
    One(gr, t, fs, n, k + 3, gr3, AddExecuting(g, worker, task), gr4, ReleaseToRun(g, worker, task));
    One(gr, t, fs, n, k + 4, gr4, ReleaseToRun(g, worker, task), gr4.(holder := None), Run(g, worker, task));
  }

  /** task_group_perform_one on a queue that is not empty runs its first task, and finishes it. */
  lemma PerformsOne(gr: Group, t: nat, g: nat, n: nat)
    requires gr.holder.None? && gr.queue != [] && gr.waiting == |gr.queue|
    ensures Alone(gr, t, [PerformEnter(g)], n, 7) == (Taken(gr), [Run(g, false, gr.queue[0])])
    ensures Alone(gr, t, [PerformEnter(g)], n, 9)
         == (Taken(gr).(executing := gr.executing, finished := gr.finished + [gr.queue[0]]), [])
  {
    hide Alone;
    var fs, task, gr1 := [PerformEnter(g)], gr.queue[0], gr.(holder := Some(t));
    Begins(gr, t, fs, n);
    One(gr, t, fs, n, 0, gr, fs[0], gr, PerformLock(g));
    One(gr, t, fs, n, 1, gr, PerformLock(g), gr1, TakeTest(g, false));
    Takes(gr, t, fs, n, 2, gr1, g, false);
    One(gr, t, fs, n, 7, Taken(gr), Run(g, false, task), Taken(gr), PerformFinish(g, task));
    Ends(gr, t, fs, n, 8, Taken(gr), PerformFinish(g, task),
         Taken(gr).(executing := gr.executing, finished := gr.finished + [task]));
  }

  lemma Begins(gr: Group, t: nat, fs: seq<Frame>, n: nat)
    ensures Alone(gr, t, fs, n, 0) == (gr, fs)
  {
  }

  /** On an empty queue it gives the lock back, and changes nothing. */
  lemma PerformsNone(gr: Group, t: nat, g: nat, n: nat)
    requires gr.holder.None? && gr.waiting == 0
    ensures Alone(gr, t, [PerformEnter(g)], n, 4) == (gr, [])
  {
    hide Alone;
    var fs, gr1 := [PerformEnter(g)], gr.(holder := Some(t));
    Begins(gr, t, fs, n);
    One(gr, t, fs, n, 0, gr, fs[0], gr, PerformLock(g));
    One(gr, t, fs, n, 1, gr, PerformLock(g), gr1, TakeTest(g, false));
    One(gr, t, fs, n, 2, gr1, TakeTest(g, false), gr1, PerformUnlock(g));
    Ends(gr, t, fs, n, 3, gr1, PerformUnlock(g), gr);
  }

  /** A worker of a group not stopped runs the first task, finishes it, and holds the lock to look for the next. */
  lemma Works(gr: Group, t: nat, g: nat, n: nat)
    requires gr.holder.None? && !gr.stop && gr.queue != [] && gr.waiting == |gr.queue|
    ensures Alone(gr, t, [WorkerEnter(g)], n, 7) == (Taken(gr), [Run(g, true, gr.queue[0])])
    ensures Alone(gr, t, [WorkerEnter(g)], n, 10)
         == (Taken(gr).(holder := Some(t), executing := gr.executing, finished := gr.finished + [gr.queue[0]]),
             [WorkerTest(g)])
  {
    hide Alone;
    var fs, task, gr1 := [WorkerEnter(g)], gr.queue[0], gr.(holder := Some(t));
    var gr2 := Taken(gr).(holder := Some(t));
    Begins(gr, t, fs, n);
    One(gr, t, fs, n, 0, gr, fs[0], gr1, WorkerTest(g));
    One(gr, t, fs, n, 1, gr1, WorkerTest(g), gr1, TakeTest(g, true));
    Takes(gr, t, fs, n, 2, gr1, g, true);
    One(gr, t, fs, n, 7, Taken(gr), Run(g, true, task), Taken(gr), WorkerRelock(g, task));
    One(gr, t, fs, n, 8, Taken(gr), WorkerRelock(g, task), gr2, WorkerFinish(g, task));
    One(gr, t, fs, n, 9, gr2, WorkerFinish(g, task),
        gr2.(executing := gr.executing, finished := gr.finished + [task]), WorkerTest(g));
  }

  /** A worker of a stopped group leaves. */
  lemma Leaves(gr: Group, t: nat, g: nat, n: nat)
    requires gr.holder.None? && gr.stop
    ensures Alone(gr, t, [WorkerEnter(g)], n, 3) == (gr, [])
  {
    hide Alone;
    var fs, gr1 := [WorkerEnter(g)], gr.(holder := Some(t));
    Begins(gr, t, fs, n);
    One(gr, t, fs, n, 0, gr, fs[0], gr1, WorkerTest(g));
    One(gr, t, fs, n, 1, gr1, WorkerTest(g), gr1, WorkerExit(g));
    Ends(gr, t, fs, n, 2, gr1, WorkerExit(g), gr);
  }

  /** A group with nothing waiting is stopped. */
  lemma Stops(gr: Group, t: nat, g: nat, n: nat)
    requires gr.holder.None? && gr.queue == [] && gr.waiting == 0
    ensures Alone(gr, t, [StopLock(g)], n, 4) == (gr.(stop := true), [])
  {
    hide Alone;
    var fs, gr1 := [StopLock(g)], gr.(holder := Some(t));
    Begins(gr, t, fs, n);
    One(gr, t, fs, n, 0, gr, fs[0], gr1, StopTest(g));
    One(gr, t, fs, n, 1, gr1, StopTest(g), gr1, StopSet(g));
    One(gr, t, fs, n, 2, gr1, StopSet(g), gr1.(stop := true), StopUnlock(g));
    Ends(gr, t, fs, n, 3, gr1.(stop := true), StopUnlock(g), gr.(stop := true));
  }

  // ------------------------------------------------------------- a negative answer

  /** Nothing is queued in any group, and no task is counted as executing. */
  ghost predicate NothingLeft(s: State) {
    forall g :: 0 <= g < |s.groups| ==> s.groups[g].queue == [] && CountAll(s.threads, g) == 0
  }

  /** In every run, at the step in which task_system_is_quiescent decides to answer no something is left. With
      YesMeansQuiescent the answer is right either way. */
  lemma NoMeansBusy(groups: nat, threads: nat, events: seq<Event>, t: nat, choice: Choice)
    requires 0 < groups && AllFit(events, threads) && t < threads
    requires var s := RunOf(groups, threads, events); var s' := Act(s, t, choice);
      && Top(s'.threads[t], CheckUnlock(0, false)) && !Top(s.threads[t], CheckUnlock(0, false))
    ensures !NothingLeft(RunOf(groups, threads, events))
  {
    var s := RunOf(groups, threads, events);
    var fs := s.threads[t];
    if fs != [] {
      var f := fs[|fs| - 1];
      assert ThreadOk(s, t) && FramesFit(fs, |s.groups|);
      NextShape(s.groups[Subject(f)], f, |s.groups|, choice);
      TopAfter(fs, Next(s.groups[Subject(f)], f, |s.groups|, choice));
      NoFrom(s.groups[Subject(f)], f, |s.groups|, choice);
      var g := Subject(f);
      assert LockOk(s, g, t) && QueueOk(s, g);
      hide RunOf, CountAll, Next, OnGroup;
    }
  }

  lemma NoFrom(gr: Group, f: Frame, n: nat, choice: Choice)
    requires Subject(f) < n && Top(Next(gr, f, n, choice), CheckUnlock(0, false))
    ensures (f.CheckExecuting? && gr.executing != 0) || (f.CheckWaiting? && gr.waiting != 0)
  {
  }
}
