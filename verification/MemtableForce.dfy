/** When a forced finalisation stops the program (src/memtable.c): exactly when its own transition fails, and a run for
    each of its two assertions. With two memtables, forcing twice before anything is incorporated overruns the window of
    generations; forcing again after the first has been incorporated, while someone still reads it, finds the memtable
    not ready. */
module MemtableForce {
  import BatchRwlock
  import opened Memtables
  import opened MemtableSafety

  // --------------------------------------------------- the transition to FINALIZED

  /** The thread has advanced the generation and not yet seen that the window fits. */
  predicate Unchecked(p: Program) {
    p.CheckWindow? || p.ForceCheck? || p.Aborted?
  }

  /** The window fits, but for a thread that is about to check it or has stopped the program. */
  ghost predicate Open(s: State) {
    WindowFits(s) || exists u :: 0 <= u < |s.programs| && Unchecked(s.programs[u])
  }

  lemma StaysOpen(s: State, t: nat, choice: Choice)
    requires Shape(s) && t < |s.programs| && Open(s)
    ensures Open(Act(s, t, choice))
  {
    var s' := Act(s, t, choice);
    if u :| 0 <= u < |s.programs| && u != t && Unchecked(s.programs[u]) {
      assert Unchecked(s'.programs[u]);
    } else {
      assert WindowFits(s') || Unchecked(s'.programs[t]);
    }
  }

  lemma {:induction false} OpenInRuns(threads: nat, memtables: nat, events: seq<Event>)
    requires 2 <= memtables && AllFit(events, threads, memtables)
    ensures Open(Run(threads, memtables, events))
    decreases |events|
  {
    hide Act, ThreadOk, SlotsOk, BatchRwlock.Inv;
    if events != [] {
      var last := |events| - 1;
      assert Fits(events[last], threads, memtables);
      OpenInRuns(threads, memtables, events[..last]);
      var s := Run(threads, memtables, events[..last]);
      if events[last].Thread? {
        StaysOpen(s, events[last].t, events[last].choice);
      }
    }
  }

  lemma AfterForceFinalize(s: State, t: nat, choice: Choice)
    requires Shape(s) && t < |s.programs| && s.programs[t].ForceFinalize?
    ensures Act(s, t, choice).programs[t]
         == if s.mts[Slot(s, s.programs[t].g)].status.Ready? then ForceAdvance(s.programs[t].g)
            else Aborted(ForceTransition)
  {
  }

  /** The thread that forces is the only writer, so the window it starts from has been checked. */
  lemma ForcerSeesOpen(s: State, t: nat)
    requires Inv(s) && Open(s) && t < |s.programs| && s.programs[t].ForceFinalize?
    ensures WindowFits(s)
  {
    assert ThreadOk(s, t);
    if u :| 0 <= u < |s.programs| && Unchecked(s.programs[u]) {
      assert ThreadOk(s, u);
      WriterAlone(s, t, u);
    }
  }

  lemma PassedIsNotReady(s: State, g: nat)
    requires Inv(s)
    ensures s.mts[Slot(s, g)].passed ==> !s.mts[Slot(s, g)].status.Ready?
  {
    assert SlotOk(s.mts, Slot(s, g), End(s), s.retired);
  }

  /** A forced finalisation does not look whether the current memtable is ready. In every run its transition fails
      exactly when generation_retired has moved past that memtable and it has not been recycled: it is incorporated,
      and someone still holds a reference to its tree. */
  lemma ForcedTransition(threads: nat, memtables: nat, events: seq<Event>, t: nat, choice: Choice)
    requires 2 <= memtables && AllFit(events, threads, memtables) && t < threads
    requires Run(threads, memtables, events).programs[t].ForceFinalize?
    ensures var s := Run(threads, memtables, events);
      Act(s, t, choice).programs[t] == Aborted(ForceTransition) <==> s.mts[s.programs[t].g % memtables].passed
  {
    var s := Run(threads, memtables, events);
    OpenInRuns(threads, memtables, events);
    assert ThreadOk(s, t);
    ForcerSeesOpen(s, t);
    NobodyMidway(s, t);
    AfterForceFinalize(s, t, choice);
    WindowByNext(s.mts, s.generation, s.retired);
    PassedIsNotReady(s, s.programs[t].g);
    hide Act, Run;
  }

  // ----------------------------------------------------------------- the runs

  const FORCE := Choice(true, false)

  /** A state of one thread. */
  ghost function Lone(phase: BatchRwlock.Phase, counter: int, held: bool, locked: bool, generation: nat,
                      retired: int, mts: seq<Memtable>, p: Program): State {
    State(BatchRwlock.Lock(held, locked, [counter], [phase]), generation, retired, mts, [p])
  }

  /** k steps of the only thread, each with the same choice. */
  ghost function Steps(s: State, c: Choice, k: nat): (s': State)
    requires Shape(s) && |s.programs| == 1
    ensures Shape(s') && |s'.programs| == 1
  {
    if k == 0 then s else Act(Steps(s, c, k - 1), 0, c)
  }

  lemma {:induction false} StepsAdd(s: State, c: Choice, j: nat, k: nat)
    requires Shape(s) && |s.programs| == 1
    ensures Steps(Steps(s, c, j), c, k) == Steps(s, c, j + k)
    decreases k
  {
    hide Act;
    if k > 0 {
      StepsAdd(s, c, j, k - 1);
    }
  }

  lemma OneMore(s: State, c: Choice, k: nat, a: State, b: State)
    requires Shape(s) && |s.programs| == 1 && Steps(s, c, k) == a && Act(a, 0, c) == b
    ensures Steps(s, c, k + 1) == b
  {
  }

  /** From idle to the read lock. */
  lemma Gets(g: nat, r: int, mts: seq<Memtable>)
    requires 0 < |mts|
    ensures Steps(Lone(BatchRwlock.Out, 0, false, false, g, r, mts, Idle), FORCE, 5)
         == Lone(BatchRwlock.Reading, 1, false, false, g, r, mts, ForceClaim)
  {
    var s := Lone(BatchRwlock.Out, 0, false, false, g, r, mts, Idle);
    var s1 := Lone(BatchRwlock.Out, 0, false, false, g, r, mts, ForceBegin);
    var s2 := Lone(BatchRwlock.Spinning, 0, false, false, g, r, mts, ForceBegin);
    var s3 := Lone(BatchRwlock.Entering, 0, false, false, g, r, mts, ForceBegin);
    var s4 := Lone(BatchRwlock.Rechecking, 1, false, false, g, r, mts, ForceBegin);
    var s5 := Lone(BatchRwlock.Reading, 1, false, false, g, r, mts, ForceClaim);
    assert Act(s, 0, FORCE) == s1 && Act(s1, 0, FORCE) == s2 && Act(s2, 0, FORCE) == s3;
    assert Act(s3, 0, FORCE) == s4 && Act(s4, 0, FORCE) == s5;
    hide Act;
    assert Steps(s, FORCE, 0) == s;
    OneMore(s, FORCE, 0, s, s1); OneMore(s, FORCE, 1, s1, s2); OneMore(s, FORCE, 2, s2, s3);
    OneMore(s, FORCE, 3, s3, s4); OneMore(s, FORCE, 4, s4, s5);
  }

  lemma Claims(g: nat, r: int, mts: seq<Memtable>)
    requires 0 < |mts|
    ensures Steps(Lone(BatchRwlock.Reading, 1, false, false, g, r, mts, ForceClaim), FORCE, 2)
         == Lone(BatchRwlock.Claimed, 0, true, false, g, r, mts, ForceAwait)
  {
    var s := Lone(BatchRwlock.Reading, 1, false, false, g, r, mts, ForceClaim);
    var s1 := Lone(BatchRwlock.ClaimDropping, 1, true, false, g, r, mts, ForceAwait);
    var s2 := Lone(BatchRwlock.Claimed, 0, true, false, g, r, mts, ForceAwait);
    assert Act(s, 0, FORCE) == s1 && Act(s1, 0, FORCE) == s2;
    hide Act;
    assert Steps(s, FORCE, 0) == s;
    OneMore(s, FORCE, 0, s, s1); OneMore(s, FORCE, 1, s1, s2);
  }

  /** From the claim to the write lock. */
  lemma Locks(g: nat, r: int, mts: seq<Memtable>)
    requires 0 < |mts|
    ensures Steps(Lone(BatchRwlock.Claimed, 0, true, false, g, r, mts, ForceAwait), FORCE, 2)
         == Lone(BatchRwlock.Writing, 0, true, true, g, r, mts, ForceLoad)
  {
    var s := Lone(BatchRwlock.Claimed, 0, true, false, g, r, mts, ForceAwait);
    var s1 := Lone(BatchRwlock.Draining(0), 0, true, true, g, r, mts, ForceAwait);
    var s2 := Lone(BatchRwlock.Writing, 0, true, true, g, r, mts, ForceLoad);
    assert Act(s, 0, FORCE) == s1 && Act(s1, 0, FORCE) == s2;
    hide Act;
    assert Steps(s, FORCE, 0) == s;
    OneMore(s, FORCE, 0, s, s1); OneMore(s, FORCE, 1, s1, s2);
  }

  /** From the write lock to the assertion on the window. */
  lemma Finalises(g: nat, r: int, mts: seq<Memtable>)
    requires 0 < |mts| && mts[g % |mts|].status.Ready?
    ensures Steps(Lone(BatchRwlock.Writing, 0, true, true, g, r, mts, ForceLoad), FORCE, 3)
         == Lone(BatchRwlock.Writing, 0, true, true, g + 1, r, FinalizeSlot(mts, g % |mts|), ForceCheck(g))
  {
    var mts' := FinalizeSlot(mts, g % |mts|);
    var s := Lone(BatchRwlock.Writing, 0, true, true, g, r, mts, ForceLoad);
    var s1 := Lone(BatchRwlock.Writing, 0, true, true, g, r, mts, ForceFinalize(g));
    var s2 := Lone(BatchRwlock.Writing, 0, true, true, g, r, mts', ForceAdvance(g));
    var s3 := Lone(BatchRwlock.Writing, 0, true, true, g + 1, r, mts', ForceCheck(g));
    assert Act(s, 0, FORCE) == s1 && Act(s1, 0, FORCE) == s2 && Act(s2, 0, FORCE) == s3;
    hide Act;
    assert Steps(s, FORCE, 0) == s;
    OneMore(s, FORCE, 0, s, s1); OneMore(s, FORCE, 1, s1, s2); OneMore(s, FORCE, 2, s2, s3);
  }

  /** From the assertion on the window back to idle. */
  lemma Unlocks(g: nat, r: int, mts: seq<Memtable>)
    requires 0 < |mts| && g + 1 - r <= |mts|
    ensures Steps(Lone(BatchRwlock.Writing, 0, true, true, g + 1, r, mts, ForceCheck(g)), FORCE, 5)
         == Lone(BatchRwlock.Out, 0, false, false, g + 1, r, mts, Idle)
  {
    hide Steps, Act;
    var s := Lone(BatchRwlock.Writing, 0, true, true, g + 1, r, mts, ForceCheck(g));
    Passes(g, r, mts);
    Leaves(g + 1, r, mts);
    StepsAdd(s, FORCE, 2, 3);
  }

  lemma Passes(g: nat, r: int, mts: seq<Memtable>)
    requires 0 < |mts| && g + 1 - r <= |mts|
    ensures Steps(Lone(BatchRwlock.Writing, 0, true, true, g + 1, r, mts, ForceCheck(g)), FORCE, 2)
         == Lone(BatchRwlock.Claimed, 0, true, false, g + 1, r, mts, ForceEnd)
  {
    var s := Lone(BatchRwlock.Writing, 0, true, true, g + 1, r, mts, ForceCheck(g));
    var s1 := Lone(BatchRwlock.Writing, 0, true, true, g + 1, r, mts, ForceEnd);
    var s2 := Lone(BatchRwlock.Claimed, 0, true, false, g + 1, r, mts, ForceEnd);
    assert Act(s, 0, FORCE) == s1 && Act(s1, 0, FORCE) == s2;
    hide Act;
    assert Steps(s, FORCE, 0) == s;
    OneMore(s, FORCE, 0, s, s1); OneMore(s, FORCE, 1, s1, s2);
  }

  lemma Leaves(g: nat, r: int, mts: seq<Memtable>)
    requires 0 < |mts|
    ensures Steps(Lone(BatchRwlock.Claimed, 0, true, false, g, r, mts, ForceEnd), FORCE, 3)
         == Lone(BatchRwlock.Out, 0, false, false, g, r, mts, Idle)
  {
    var s := Lone(BatchRwlock.Claimed, 0, true, false, g, r, mts, ForceEnd);
    var s1 := Lone(BatchRwlock.Releasing, 1, true, false, g, r, mts, ForceEnd);
    var s2 := Lone(BatchRwlock.Reading, 1, false, false, g, r, mts, ForceUnget);
    var s3 := Lone(BatchRwlock.Out, 0, false, false, g, r, mts, Idle);
    assert Act(s, 0, FORCE) == s1 && Act(s1, 0, FORCE) == s2 && Act(s2, 0, FORCE) == s3;
    hide Act;
    assert Steps(s, FORCE, 0) == s;
    OneMore(s, FORCE, 0, s, s1); OneMore(s, FORCE, 1, s1, s2); OneMore(s, FORCE, 2, s2, s3);
  }

  lemma ForcedTo(g: nat, r: int, mts: seq<Memtable>)
    requires 0 < |mts| && mts[g % |mts|].status.Ready?
    ensures Steps(Lone(BatchRwlock.Out, 0, false, false, g, r, mts, Idle), FORCE, 12)
         == Lone(BatchRwlock.Writing, 0, true, true, g + 1, r, FinalizeSlot(mts, g % |mts|), ForceCheck(g))
  {
    hide Steps, Act;
    var s := Lone(BatchRwlock.Out, 0, false, false, g, r, mts, Idle);
    Gets(g, r, mts);
    Claims(g, r, mts);
    Locks(g, r, mts);
    Finalises(g, r, mts);
    StepsAdd(s, FORCE, 5, 2);
    StepsAdd(s, FORCE, 7, 2);
    StepsAdd(s, FORCE, 9, 3);
  }

  /** From idle to idle again. */
  lemma ForcedOnce(g: nat, r: int, mts: seq<Memtable>)
    requires 0 < |mts| && mts[g % |mts|].status.Ready? && g + 1 - r <= |mts|
    ensures Steps(Lone(BatchRwlock.Out, 0, false, false, g, r, mts, Idle), FORCE, 17)
         == Lone(BatchRwlock.Out, 0, false, false, g + 1, r,
                 mts[g % |mts| := mts[g % |mts|].(status := Finalized)], Idle)
  {
    hide Steps, Act;
    ForcedTo(g, r, mts);
    Unlocks(g, r, FinalizeSlot(mts, g % |mts|));
    StepsAdd(Lone(BatchRwlock.Out, 0, false, false, g, r, mts, Idle), FORCE, 12, 5);
  }

  function Forcing(k: nat): seq<Event> {
    seq(k, i => Thread(0, FORCE))
  }

  /** k more steps of the only thread. */
  lemma {:induction false} StepsAreRun(memtables: nat, events: seq<Event>, k: nat)
    requires 2 <= memtables && AllFit(events, 1, memtables)
    ensures AllFit(events + Forcing(k), 1, memtables)
    ensures Run(1, memtables, events + Forcing(k)) == Steps(Run(1, memtables, events), FORCE, k)
    decreases k
  {
    hide Act;
    if k == 0 {
      assert events + Forcing(0) == events;
    } else {
      StepsAreRun(memtables, events, k - 1);
      var all := events + Forcing(k);
      assert all[..|all| - 1] == events + Forcing(k - 1);
      assert all[|all| - 1] == Thread(0, FORCE);
    }
  }

  /** The second forced finalisation fails its assertion on the window. */
  lemma ForcedTwice()
    ensures AllFit([] + Forcing(30), 1, 2) && Run(1, 2, [] + Forcing(30)).programs[0] == Aborted(ForceWindow)
  {
    hide Steps, Act, Run;
    var s := Init(1, 2);
    var mts := s.mts;
    var mts' := FinalizeSlot(mts, 0);
    assert s == Lone(BatchRwlock.Out, 0, false, false, 0, -1, mts, Idle);
    ForcedOnce(0, -1, mts);
    ForcedTo(1, -1, mts');
    StepsAdd(s, FORCE, 17, 12);
    var last := Lone(BatchRwlock.Writing, 0, true, true, 2, -1, FinalizeSlot(mts', 1), ForceCheck(1));
    AfterForceCheck(last, 0, FORCE);
    AtFirst();
    StepsAreRun(2, [], 30);
    OneMore(s, FORCE, 29, last, Act(last, 0, FORCE));
  }

  lemma AtFirst()
    ensures Run(1, 2, []) == Init(1, 2)
  {
  }

  /** After k events of the first memtable. */
  ghost function Waited(k: nat): State {
    Lone(BatchRwlock.Out, 0, false, false, 1, if k >= 6 then 0 else -1, Advanced(k), Idle)
  }

  lemma OneAdvance(k: nat)
    requires k < 6
    ensures Environment(Waited(k), 0) == Waited(k + 1)
  {
    var s, s' := Environment(Waited(k), 0), Waited(k + 1);
    assert s.mts == s'.mts;
  }

  lemma EnvironmentLast(events: seq<Event>)
    requires AllFit(events, 1, 2)
    ensures AllFit(events + [Memtables(0)], 1, 2)
    ensures Run(1, 2, events + [Memtables(0)]) == Environment(Run(1, 2, events), 0)
  {
    hide Act, Environment, Inv;
    var all := events + [Memtables(0)];
    assert all[..|all| - 1] == events && all[|all| - 1] == Memtables(0);
  }

  /** k events of the first memtable, while the thread is idle. */
  lemma {:induction false} Advances(events: seq<Event>, k: nat)
    requires AllFit(events, 1, 2) && k <= 6 && Run(1, 2, events) == Waited(0)
    ensures AllFit(events + seq(k, i => Memtables(0)), 1, 2)
    ensures Run(1, 2, events + seq(k, i => Memtables(0))) == Waited(k)
    decreases k
  {
    hide Run, Environment, Waited;
    if k == 0 {
      assert events + seq(0, i => Memtables(0)) == events;
    } else {
      Advances(events, k - 1);
      var before := events + seq(k - 1, i => Memtables(0));
      EnvironmentLast(before);
      OneAdvance(k - 1);
      assert before + [Memtables(0)] == events + seq(k, i => Memtables(0));
    }
  }

  /** The first of two memtables on its way to being incorporated and passed. */
  function Advanced(k: nat): seq<Memtable> {
    var status := if k == 0 then Finalized else if k == 1 then Compacting else if k == 2 then Compacted
                  else if k == 3 then Assigned else if k == 4 then Incorporating else Incorporated;
    [Memtable(status, 0, k >= 6), Memtable(Ready, 1, false)]
  }

  /** The third forced finalisation finds the first memtable incorporated and not recycled, and fails its
      transition. */
  lemma ForcedOntoUnrecycled()
    ensures var events := ([] + Forcing(17)) + seq(6, i => Memtables(0)) + Forcing(28);
      AllFit(events, 1, 2) && Run(1, 2, events).programs[0] == Aborted(ForceTransition)
  {
    hide Steps, Act, Run;
    var s := Init(1, 2);
    var mts := s.mts;
    assert s == Lone(BatchRwlock.Out, 0, false, false, 0, -1, mts, Idle);
    ForcedOnce(0, -1, mts);
    AtFirst();
    StepsAreRun(2, [], 17);
    assert FinalizeSlot(mts, 0) == Advanced(0);
    var before := ([] + Forcing(17)) + seq(6, i => Memtables(0));
    Advances([] + Forcing(17), 6);
    var s1 := Lone(BatchRwlock.Out, 0, false, false, 1, 0, Advanced(6), Idle);
    ForcedOnce(1, 0, Advanced(6));
    var mts2 := FinalizeSlot(Advanced(6), 1);
    ForcesTo(s1, mts2);
    StepsAreRun(2, before, 28);
  }

  /** The failing transition. */
  lemma ForcesTo(s: State, mts: seq<Memtable>)
    requires Shape(s) && |s.programs| == 1 && |mts| == 2 && mts[0].status.Incorporated?
    requires Steps(s, FORCE, 17) == Lone(BatchRwlock.Out, 0, false, false, 2, 0, mts, Idle)
    ensures Steps(s, FORCE, 28).programs[0] == Aborted(ForceTransition)
  {
    hide Steps, Act;
    Gets(2, 0, mts);
    Claims(2, 0, mts);
    Locks(2, 0, mts);
    StepsAdd(s, FORCE, 17, 5);
    StepsAdd(s, FORCE, 22, 2);
    StepsAdd(s, FORCE, 24, 2);
    var a := Lone(BatchRwlock.Writing, 0, true, true, 2, 0, mts, ForceLoad);
    var b := Lone(BatchRwlock.Writing, 0, true, true, 2, 0, mts, ForceFinalize(2));
    LoadsGeneration(a, b);
    OneMore(s, FORCE, 26, a, b);
    AfterForceFinalize(b, 0, FORCE);
    OneMore(s, FORCE, 27, b, Act(b, 0, FORCE));
  }

  lemma LoadsGeneration(a: State, b: State)
    requires Shape(a) && |a.programs| == 1 && a.programs[0] == ForceLoad
    requires b == a.(programs := [ForceFinalize(a.generation)])
    ensures Act(a, 0, FORCE) == b
  {
  }
}
