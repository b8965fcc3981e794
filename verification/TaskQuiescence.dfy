/** In every run the queues match their counts, and a positive answer to "is the system quiescent" is true of one
    instant (src/task.c). */
module TaskQuiescence {
  import opened DataModel
  import opened TaskGroups

  // --------------------------------------------------------- what one step does

  predicate HoldsTop(fs: seq<Frame>, g: nat, n: nat) {
    fs != [] && Holds(fs[|fs| - 1], g, n)
  }

  lemma NextShape(gr: Group, f: Frame, n: nat, choice: Choice)
    requires Subject(f) < n
    ensures |Next(gr, f, n, choice)| <= 2 && FramesFit(Next(gr, f, n, choice), n)
    ensures |Next(gr, f, n, choice)| == 2 ==> Next(gr, f, n, choice)[0].Run?
  {
  }

  lemma NextHoldsElsewhere(gr: Group, f: Frame, n: nat, choice: Choice, h: nat)
    requires Subject(f) < n && h < n && h != Subject(f)
    ensures HoldsTop(Next(gr, f, n, choice), h, n) == Holds(f, h, n)
  {
  }

  lemma NextHoldsHere(gr: Group, t: nat, f: Frame, n: nat, choice: Choice)
    requires Subject(f) < n && (Holds(f, Subject(f), n) ==> gr.holder == Some(t))
    ensures var h := Subject(f);
      && OnGroup(gr, t, f).holder == (if HoldsTop(Next(gr, f, n, choice), h, n) then Some(t)
                                      else if Holds(f, h, n) then None else gr.holder)
      && (!Holds(f, h, n) && HoldsTop(Next(gr, f, n, choice), h, n) ==> gr.holder.None?)
  {
  }

  /** The lock of the frame's group changes hands as the frames say, and no other lock does. */
  lemma NextHolds(gr: Group, t: nat, f: Frame, n: nat, choice: Choice, h: nat)
    requires Subject(f) < n && h < n && (Holds(f, Subject(f), n) ==> gr.holder == Some(t))
    ensures h != Subject(f) ==> HoldsTop(Next(gr, f, n, choice), h, n) == Holds(f, h, n)
    ensures h == Subject(f) ==>
      OnGroup(gr, t, f).holder == if HoldsTop(Next(gr, f, n, choice), h, n) then Some(t)
                                  else if Holds(f, h, n) then None else gr.holder
    ensures h == Subject(f) && !Holds(f, h, n) && HoldsTop(Next(gr, f, n, choice), h, n) ==> gr.holder.None?
  {
    hide Next, Holds, OnGroup;
    if h == Subject(f) {
      NextHoldsHere(gr, t, f, n, choice);
    } else {
      NextHoldsElsewhere(gr, f, n, choice, h);
    }
  }

  function Bit(b: bool): nat {
    if b then 1 else 0
  }

  lemma NextExecutes(gr: Group, t: nat, f: Frame, n: nat, choice: Choice, h: nat)
    requires Subject(f) < n
    ensures h != Subject(f) ==> CountIn(Next(gr, f, n, choice), h) == Bit(Executes(f, h))
    ensures h == Subject(f) ==>
      OnGroup(gr, t, f).executing + Bit(Executes(f, h)) == gr.executing + CountIn(Next(gr, f, n, choice), h)
  {
    var nf := Next(gr, f, n, choice);
    if |nf| == 1 {
      CountOne(nf[0], h);
    } else if |nf| == 2 {
      CountOne(nf[0], h);
      assert nf[..1] == [nf[0]];
      FirstIsNew(choice, h);
    }
  }

  lemma CountOne(f: Frame, h: nat)
    ensures CountIn([f], h) == Bit(Executes(f, h))
  {
    assert [f][..0] == [];
  }

  lemma FirstIsNew(choice: Choice, h: nat)
    ensures choice.call.Some? ==> !Executes(FirstFrame(choice.call.value), h)
  {
  }

  /** Only the lock's holder touches the queue and its count, and keeps them in step. */
  lemma NextQueue(gr: Group, t: nat, f: Frame, n: nat, choice: Choice)
    requires Subject(f) < n && (f.TakeHead? ==> gr.queue != [])
    ensures var g, gr' := Subject(f), OnGroup(gr, t, f);
      && (!Holds(f, g, n) ==> gr'.queue == gr.queue && gr'.waiting == gr.waiting)
      && (!Holds(f, g, n) && !Executes(f, g) ==> gr'.executing == gr.executing)
      && (|gr'.queue| - gr'.waiting - Bit(TopUncounted(Next(gr, f, n, choice), g))
          == |gr.queue| - gr.waiting - Bit(Uncounted(f, g)))
  {
  }

  lemma NextUncounted(gr: Group, f: Frame, n: nat, choice: Choice, h: nat)
    requires Subject(f) < n
    ensures h != Subject(f) ==> !Uncounted(f, h) && !TopUncounted(Next(gr, f, n, choice), h)
    ensures Uncounted(f, h) ==> Holds(f, h, n)
    ensures TopUncounted(Next(gr, f, n, choice), h) ==> HoldsTop(Next(gr, f, n, choice), h, n)
  {
  }

  // ------------------------------------------------------------------- stacks

  ghost function After(fs: seq<Frame>, nf: seq<Frame>): seq<Frame>
    requires fs != []
  {
    fs[..|fs| - 1] + nf
  }

  lemma {:induction false} CountConcat(xs: seq<Frame>, ys: seq<Frame>, g: nat)
    ensures CountIn(xs + ys, g) == CountIn(xs, g) + CountIn(ys, g)
  {
    if ys == [] {
      assert xs + ys == xs;
    } else {
      var k := |ys| - 1;
      assert (xs + ys)[..|xs| + k] == xs + ys[..k];
      CountConcat(xs, ys[..k], g);
    }
  }

  lemma {:induction false} CountUpdate(threads: seq<seq<Frame>>, t: nat, fs: seq<Frame>, g: nat)
    requires t < |threads|
    ensures CountAll(threads[t := fs], g) + CountIn(threads[t], g) == CountAll(threads, g) + CountIn(fs, g)
    decreases |threads|
  {
    var k := |threads| - 1;
    if t < k {
      assert threads[t := fs][..k] == threads[..k][t := fs];
      CountUpdate(threads[..k], t, fs, g);
    } else {
      assert threads[t := fs][..k] == threads[..k];
    }
  }

  lemma {:induction false} CountPositive(threads: seq<seq<Frame>>, t: nat, i: nat, g: nat)
    requires t < |threads| && i < |threads[t]| && Executes(threads[t][i], g)
    ensures CountAll(threads, g) > 0
  {
    var fs := threads[t];
    assert fs == fs[..i] + [fs[i]] + fs[i + 1..];
    CountConcat(fs[..i] + [fs[i]], fs[i + 1..], g);
    CountConcat(fs[..i], [fs[i]], g);
    CountOne(fs[i], g);
    CountUpdate(threads, t, [], g);
  }

  /** The innermost frame after a step: one of the new ones, or a running task that waited for the call. */
  lemma TopAfter(fs: seq<Frame>, nf: seq<Frame>)
    requires fs != [] && StackOk(fs) && |nf| <= 2 && (|nf| == 2 ==> nf[0].Run?)
    ensures var fs' := After(fs, nf);
      && StackOk(fs') && (nf != [] ==> fs' != [] && fs'[|fs'| - 1] == nf[|nf| - 1])
      && (nf == [] && fs' != [] ==> fs'[|fs'| - 1].Run?)
  {
  }

  lemma HoldsAfter(fs: seq<Frame>, nf: seq<Frame>, g: nat, n: nat)
    requires fs != [] && StackOk(fs) && |nf| <= 2 && (|nf| == 2 ==> nf[0].Run?)
    ensures HoldsTop(After(fs, nf), g, n) == HoldsTop(nf, g, n)
    ensures TopUncounted(After(fs, nf), g) == TopUncounted(nf, g)
  {
    TopAfter(fs, nf);
  }

  // ------------------------------------------------------------- preservation

  /** A step of a thread that is in some call: the group it works on and its own stack change, nothing else. */
  ghost predicate Steps(s: State, s': State, t: nat, f: Frame, nf: seq<Frame>)
    requires Shape(s) && t < |s.threads|
  {
    var fs := s.threads[t];
    && fs != [] && f == fs[|fs| - 1] && Subject(f) < |s.groups|
    && s'.groups == s.groups[Subject(f) := OnGroup(s.groups[Subject(f)], t, f)]
    && s'.threads == s.threads[t := After(fs, nf)]
  }

  lemma ActSteps(s: State, t: nat, choice: Choice)
    requires Inv(s) && t < |s.threads| && s.threads[t] != []
    ensures var fs := s.threads[t]; var f := fs[|fs| - 1]; Subject(f) < |s.groups|
    ensures var fs := s.threads[t]; var f := fs[|fs| - 1];
      var nf := Next(s.groups[Subject(f)], f, |s.groups|, choice);
      Steps(s, Act(s, t, choice), t, f, nf) && |nf| <= 2 && (|nf| == 2 ==> nf[0].Run?)
      && FramesFit(nf, |s.groups|) && Shape(Act(s, t, choice))
  {
    var fs := s.threads[t];
    var f := fs[|fs| - 1];
    assert FramesFit(fs, |s.groups|);
    NextShape(s.groups[Subject(f)], f, |s.groups|, choice);
    hide Next, OnGroup;
    var s' := Act(s, t, choice);
    forall u | 0 <= u < |s'.threads| ensures FramesFit(s'.threads[u], |s'.groups|) {
      assert FramesFit(s.threads[u], |s.groups|);
    }
  }

  lemma KeepsLocks(s: State, s': State, t: nat, f: Frame, choice: Choice, g: nat, u: nat)
    requires Inv(s) && t < |s.threads| && Shape(s') && Subject(f) < |s.groups|
    requires Steps(s, s', t, f, Next(s.groups[Subject(f)], f, |s.groups|, choice))
    requires g < |s.groups| && u < |s.threads|
    ensures LockOk(s', g, u)
  {
    var n, gr := |s.groups|, s.groups[Subject(f)];
    var nf := Next(gr, f, n, choice);
    assert LockOk(s, Subject(f), t) && LockOk(s, g, u) && LockOk(s, g, t) && ThreadOk(s, t);
    NextShape(gr, f, n, choice);
    NextHolds(gr, t, f, n, choice, g);
    HoldsAfter(s.threads[t], nf, g, n);
    hide Next, OnGroup, Holds, After, StackOk, CheckOk, QueueOk;
  }

  lemma KeepsExecuting(s: State, s': State, t: nat, f: Frame, choice: Choice, g: nat)
    requires Inv(s) && t < |s.threads| && Shape(s') && Subject(f) < |s.groups|
    requires Steps(s, s', t, f, Next(s.groups[Subject(f)], f, |s.groups|, choice))
    requires g < |s.groups|
    ensures s'.groups[g].executing == CountAll(s'.threads, g)
  {
    var n, gr, fs := |s.groups|, s.groups[Subject(f)], s.threads[t];
    var nf := Next(gr, f, n, choice);
    assert QueueOk(s, g);
    NextExecutes(gr, t, f, n, choice, g);
    CountUpdate(s.threads, t, After(fs, nf), g);
    CountSplit(fs, nf, g);
    hide Next, OnGroup, CountIn, CountAll, Executes, After, LockOk, QueueOk, ThreadOk;
  }

  lemma KeepsQueues(s: State, s': State, t: nat, f: Frame, choice: Choice, g: nat)
    requires Inv(s) && t < |s.threads| && Shape(s') && Subject(f) < |s.groups|
    requires Steps(s, s', t, f, Next(s.groups[Subject(f)], f, |s.groups|, choice))
    requires g < |s.groups|
    ensures QueueOk(s', g)
  {
    var n, gr, fs := |s.groups|, s.groups[Subject(f)], s.threads[t];
    var nf := Next(gr, f, n, choice);
    assert ThreadOk(s, t) && QueueOk(s, g) && QueueOk(s, Subject(f)) && LockOk(s, g, t) && LockOk(s, Subject(f), t);
    if f.TakeHead? {
      HeadIsThere(s, t);
    }
    NextShape(gr, f, n, choice);
    NextHolds(gr, t, f, n, choice, g);
    NextQueue(gr, t, f, n, choice);
    NextUncounted(gr, f, n, choice, g);
    HoldsAfter(fs, nf, g, n);
    KeepsExecuting(s, s', t, f, choice, g);
    HolderStands(s, s', t, f, choice, g);
    hide Next, OnGroup, Holds, StackOk, CheckOk, CountAll, Executes, Uncounted, After;
  }

  lemma CountSplit(fs: seq<Frame>, nf: seq<Frame>, g: nat)
    requires fs != []
    ensures CountIn(After(fs, nf), g) + Bit(Executes(fs[|fs| - 1], g)) == CountIn(fs, g) + CountIn(nf, g)
  {
    CountConcat(fs[..|fs| - 1], nf, g);
  }

  /** The holder of a lock is in a call. */
  lemma HolderStands(s: State, s': State, t: nat, f: Frame, choice: Choice, g: nat)
    requires Inv(s) && t < |s.threads| && Shape(s') && Subject(f) < |s.groups| && g < |s.groups|
    requires Steps(s, s', t, f, Next(s.groups[Subject(f)], f, |s.groups|, choice))
    ensures var h := s'.groups[g].holder; h.Some? ==> h.value < |s'.threads| && s'.threads[h.value] != []
  {
    assert QueueOk(s, g);
    var h := s'.groups[g].holder;
    if h.Some? && h.value < |s.threads| {
      KeepsLocks(s, s', t, f, choice, g, h.value);
    }
    NextHolds(s.groups[Subject(f)], t, f, |s.groups|, choice, g) by { assert LockOk(s, Subject(f), t); }
    hide Next, OnGroup, Holds, After, StackOk, CheckOk;
  }

  /** A queue whose count says so has a head. */
  lemma HeadIsThere(s: State, t: nat)
    requires Inv(s) && t < |s.threads| && s.threads[t] != [] && s.threads[t][|s.threads[t]| - 1].TakeHead?
    ensures var g := s.threads[t][|s.threads[t]| - 1].g; g < |s.groups| && s.groups[g].queue != []
  {
    var f := s.threads[t][|s.threads[t]| - 1];
    assert FramesFit(s.threads[t], |s.groups|) && Subject(f) == f.g;
    assert ThreadOk(s, t) && LockOk(s, f.g, t) && QueueOk(s, f.g);
  }

  /** A step of t leaves the locks another thread holds alone, and what is idle stays idle. */
  lemma OthersGroup(s: State, t: nat, f: Frame, choice: Choice, u: nat)
    requires Inv(s) && t < |s.threads| && u < |s.threads| && u != t && Subject(f) < |s.groups|
    requires s.threads[t] != [] && f == s.threads[t][|s.threads[t]| - 1]
    requires s.threads[u] != [] && Holds(s.threads[u][|s.threads[u]| - 1], Subject(f), |s.groups|)
    ensures var gr := s.groups[Subject(f)]; var gr' := OnGroup(gr, t, f);
      gr'.waiting == gr.waiting && (gr.executing == 0 ==> gr'.executing == 0) && (gr.stop ==> gr'.stop)
  {
    var g := Subject(f);
    assert LockOk(s, g, t) && LockOk(s, g, u) && QueueOk(s, g);
    if f.TakeHead? {
      HeadIsThere(s, t);
    }
    NextQueue(s.groups[g], t, f, |s.groups|, choice);
    if Executes(f, g) {
      CountPositive(s.threads, t, |s.threads[t]| - 1, g);
    }
    hide OnGroup, Next, CountAll;
  }

  lemma KeepsOther(s: State, s': State, t: nat, f: Frame, choice: Choice, u: nat)
    requires Inv(s) && t < |s.threads| && Shape(s') && Subject(f) < |s.groups|
    requires Steps(s, s', t, f, Next(s.groups[Subject(f)], f, |s.groups|, choice))
    requires u < |s.threads| && u != t
    ensures ThreadOk(s', u)
  {
    assert ThreadOk(s, u);
    var fs, g := s.threads[u], Subject(f);
    if fs != [] && Holds(fs[|fs| - 1], g, |s.groups|) {
      OthersGroup(s, t, f, choice, u);
    }
    hide OnGroup, Next, CountAll, LockOk, QueueOk, StackOk;
  }

  lemma KeepsSelf(s: State, s': State, t: nat, f: Frame, choice: Choice)
    requires Inv(s) && t < |s.threads| && Shape(s') && Subject(f) < |s.groups|
    requires Steps(s, s', t, f, Next(s.groups[Subject(f)], f, |s.groups|, choice))
    ensures ThreadOk(s', t)
  {
    var gr := s.groups[Subject(f)];
    var nf := Next(gr, f, |s.groups|, choice);
    assert ThreadOk(s, t) && LockOk(s, Subject(f), t) && QueueOk(s, Subject(f));
    NextShape(gr, f, |s.groups|, choice);
    TopAfter(s.threads[t], nf);
    if nf != [] {
      NextChecked(s.groups, t, f, choice);
    }
    hide OnGroup, Next, CountAll, QueueOk, StackOk, After;
  }

  lemma NextChecked(groups: seq<Group>, t: nat, f: Frame, choice: Choice)
    requires Subject(f) < |groups| && CheckOk(groups, f)
    requires f.TakeTest? ==> groups[f.g].waiting >= 0
    requires f.StopTest? ==> |groups[f.g].queue| == groups[f.g].waiting
    ensures var nf := Next(groups[Subject(f)], f, |groups|, choice);
      nf != [] ==> CheckOk(groups[Subject(f) := OnGroup(groups[Subject(f)], t, f)], nf[|nf| - 1])
  {
  }

  /** Every step of a thread keeps the invariant. */
  lemma ActKeeps(s: State, t: nat, choice: Choice)
    requires Inv(s) && t < |s.threads|
    ensures Inv(Act(s, t, choice)) && |Act(s, t, choice).threads| == |s.threads|
    ensures |Act(s, t, choice).groups| == |s.groups|
  {
    if s.threads[t] == [] {
      CallKeeps(s, t, choice);
    } else {
      var s', f := Act(s, t, choice), s.threads[t][|s.threads[t]| - 1];
      ActSteps(s, t, choice);
      hide Act, Next, OnGroup, CountAll, LockOk, QueueOk, ThreadOk;
      forall g, u | 0 <= g < |s'.groups| && 0 <= u < |s'.threads| ensures LockOk(s', g, u) {
        KeepsLocks(s, s', t, f, choice, g, u);
      }
      forall g | 0 <= g < |s'.groups| ensures QueueOk(s', g) {
        KeepsQueues(s, s', t, f, choice, g);
      }
      forall u | 0 <= u < |s'.threads| ensures ThreadOk(s', u) {
        if u == t {
          KeepsSelf(s, s', t, f, choice);
        } else {
          KeepsOther(s, s', t, f, choice, u);
        }
      }
    }
  }

  /** An idle thread begins a call, or not. */
  lemma CallKeeps(s: State, t: nat, choice: Choice)
    requires Inv(s) && t < |s.threads| && s.threads[t] == []
    ensures Inv(Act(s, t, choice)) && |Act(s, t, choice).threads| == |s.threads|
    ensures |Act(s, t, choice).groups| == |s.groups|
  {
    if choice.call.Some? && CallFits(choice.call.value, |s.groups|) {
      var s', f := Act(s, t, choice), FirstFrame(choice.call.value);
      NewCall(choice.call.value, s.groups);
      assert s'.threads == s.threads[t := [f]] && s'.groups == s.groups;
      hide Act;
      forall g, u | 0 <= g < |s.groups| && 0 <= u < |s.threads| ensures LockOk(s', g, u) {
        assert LockOk(s, g, u);
      }
      forall g | 0 <= g < |s.groups| ensures QueueOk(s', g) {
        assert QueueOk(s, g);
        assert s.groups[g].holder.Some? ==> LockOk(s, g, s.groups[g].holder.value);
        CountUpdate(s.threads, t, [f], g);
        CountOne(f, g);
      }
      forall u | 0 <= u < |s.threads| ensures ThreadOk(s', u) {
        assert ThreadOk(s, u);
      }
    }
  }

  lemma NewCall(c: Call, groups: seq<Group>)
    requires CallFits(c, |groups|) && 0 < |groups|
    ensures var f := FirstFrame(c);
      Subject(f) < |groups| && CheckOk(groups, f)
      && forall g :: 0 <= g < |groups| ==> !Holds(f, g, |groups|) && !Executes(f, g) && !Uncounted(f, g)
  {
  }

  // -------------------------------------------------------------------- runs

  datatype Event = Event(t: nat, choice: Choice)

  ghost predicate AllFit(events: seq<Event>, threads: nat) {
    forall k :: 0 <= k < |events| ==> events[k].t < threads
  }

  lemma {:induction false} NoCalls(threads: seq<seq<Frame>>, g: nat)
    requires forall t :: 0 <= t < |threads| ==> threads[t] == []
    ensures CountAll(threads, g) == 0
    decreases |threads|
  {
    if threads != [] {
      NoCalls(threads[..|threads| - 1], g);
    }
  }

  lemma InitHolds(groups: nat, threads: nat)
    requires 0 < groups
    ensures Inv(Init(groups, threads))
  {
    var s := Init(groups, threads);
    forall g | 0 <= g < groups ensures QueueOk(s, g) {
      NoCalls(s.threads, g);
    }
  }

  ghost function RunOf(groups: nat, threads: nat, events: seq<Event>): (s: State)
    requires 0 < groups && AllFit(events, threads)
    ensures Inv(s) && |s.groups| == groups && |s.threads| == threads
    decreases |events|
  {
    InitHolds(groups, threads);
    if events == [] then Init(groups, threads)
    else
      var last := |events| - 1;
      var s := RunOf(groups, threads, events[..last]);
      ActKeeps(s, events[last].t, events[last].choice);
      Act(s, events[last].t, events[last].choice)
  }

  /** In every run a group whose lock is free has exactly as many tasks queued as it counts, and the tasks it counts
      as executing are those some thread has taken and not finished. */
  lemma {:induction false} CountsExact(groups: nat, threads: nat, events: seq<Event>, g: nat)
    requires 0 < groups && AllFit(events, threads) && g < groups
    ensures var s := RunOf(groups, threads, events); var gr := s.groups[g];
      (gr.holder.None? ==> |gr.queue| == gr.waiting) && gr.executing == CountAll(s.threads, g)
  {
    assert QueueOk(RunOf(groups, threads, events), g);
  }

  /** Nothing is queued in any group, no thread is running a task, and none has taken one to run. */
  ghost predicate Quiescent(s: State) {
    && (forall g :: 0 <= g < |s.groups| ==> s.groups[g].queue == [])
    && (forall t, i :: 0 <= t < |s.threads| && 0 <= i < |s.threads[t]| ==>
          !s.threads[t][i].Run? && !s.threads[t][i].AddExecuting? && !s.threads[t][i].ReleaseToRun?)
  }

  ghost predicate AllIdle(s: State) {
    forall g :: 0 <= g < |s.groups| ==> Idle(s.groups[g])
  }

  /** The step that decides on yes has found every group idle, and holds every lock. */
  lemma YesStep(s: State, t: nat, choice: Choice)
    requires Inv(s) && t < |s.threads|
    requires Top(Act(s, t, choice).threads[t], CheckUnlock(0, true)) && !Top(s.threads[t], CheckUnlock(0, true))
    ensures s.threads[t] != [] && s.threads[t][|s.threads[t]| - 1].CheckWaiting? && AllIdle(s)
  {
    var fs := s.threads[t];
    if fs != [] {
      var f := fs[|fs| - 1];
      assert ThreadOk(s, t) && FramesFit(fs, |s.groups|);
      NextShape(s.groups[Subject(f)], f, |s.groups|, choice);
      TopAfter(fs, Next(s.groups[Subject(f)], f, |s.groups|, choice));
      YesFrom(s.groups[Subject(f)], f, |s.groups|, choice);
      hide Next, OnGroup, QueueOk, LockOk;
    }
  }

  lemma YesFrom(gr: Group, f: Frame, n: nat, choice: Choice)
    requires Subject(f) < n && Top(Next(gr, f, n, choice), CheckUnlock(0, true))
    ensures f.CheckWaiting? && f.i + 1 == n && gr.waiting == 0
  {
  }

  lemma NotRunning(s: State, t: nat, u: nat, i: nat)
    requires Inv(s) && AllIdle(s) && t < |s.threads| && u < |s.threads| && i < |s.threads[u]|
    requires s.threads[t] != [] && s.threads[t][|s.threads[t]| - 1].CheckWaiting?
    ensures !s.threads[u][i].Run? && !s.threads[u][i].AddExecuting? && !s.threads[u][i].ReleaseToRun?
  {
    var f := s.threads[u][i];
    var g := Subject(f);
    assert FramesFit(s.threads[u], |s.groups|) && ThreadOk(s, u);
    assert QueueOk(s, g) && LockOk(s, g, t) && LockOk(s, g, u);
    if Executes(f, g) {
      CountPositive(s.threads, u, i, g);
    }
    hide CountAll;
  }

  /** In every run, at the step in which task_system_is_quiescent decides to answer yes the system is quiescent. */
  lemma {:induction false} YesMeansQuiescent(groups: nat, threads: nat, events: seq<Event>, t: nat, choice: Choice)
    requires 0 < groups && AllFit(events, threads) && t < threads
    requires var s := RunOf(groups, threads, events); var s' := Act(s, t, choice);
      && Top(s'.threads[t], CheckUnlock(0, true)) && !Top(s.threads[t], CheckUnlock(0, true))
    ensures Quiescent(RunOf(groups, threads, events))
  {
    var s := RunOf(groups, threads, events);
    YesStep(s, t, choice);
    hide RunOf;
    forall g | 0 <= g < groups ensures s.groups[g].queue == [] && s.groups[g].executing == 0 {
      assert LockOk(s, g, t) && QueueOk(s, g) && ThreadOk(s, t);
    }
    forall u, i | 0 <= u < threads && 0 <= i < |s.threads[u]|
      ensures !s.threads[u][i].Run? && !s.threads[u][i].AddExecuting? && !s.threads[u][i].ReleaseToRun?
    {
      NotRunning(s, t, u, i);
    }
  }

  /** In every run, whoever stops a group finds its queue and its count in agreement: the assertions that nothing waits
      hold or fail together. And a worker leaves only a group that has been stopped. */
  lemma {:induction false} StopsAgree(groups: nat, threads: nat, events: seq<Event>, t: nat, g: nat)
    requires 0 < groups && AllFit(events, threads) && t < threads && g < groups
    ensures var s := RunOf(groups, threads, events);
      && (Top(s.threads[t], StopTest(g)) ==> (s.groups[g].queue == [] <==> s.groups[g].waiting == 0))
      && (Top(s.threads[t], WorkerExit(g)) ==> s.groups[g].stop)
  {
    var s := RunOf(groups, threads, events);
    hide RunOf, CountAll;
    assert LockOk(s, g, t) && QueueOk(s, g) && ThreadOk(s, t);
  }
}
