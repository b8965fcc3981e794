/** The insert lock freezes the current memtable for every inserting thread, in every run (src/memtable.c). */
module MemtableSafety {
  import BatchRwlock
  import opened Memtables

  // --------------------------------------------------------------- invariant

  predicate Waiting(p: BatchRwlock.Phase) {
    p.Out? || p.Spinning? || p.Entering? || p.Rechecking? || p.Leaving?
  }

  /** Which part of the lock protocol each program point is in. */
  predicate PhaseFits(p: Program, phase: BatchRwlock.Phase) {
    match p
    case Idle | Process(_) => phase.Out?
    case BeginInsert | ForceBegin => Waiting(phase)
    case LoadGeneration | LoadState(_) | TestFull(_) | LoadNextState(_) | TryRotate(_) => phase.Reading?
    case BackOff | GiveUp | Inserting(_) | EndInsert(_) => phase.Reading?
    case ForceClaim | ForceRetry | ForceUnget => phase.Reading?
    case AwaitWrite(_) | ForceAwait => phase.ClaimDropping? || phase.Claimed? || phase.Draining?
    case Finalize(_) | Advance(_) | CheckWindow(_) | CheckIncrement(_) => phase.Writing?
    case ForceLoad | ForceFinalize(_) | ForceAdvance(_) | ForceCheck(_) | Aborted(_) => phase.Writing?
    case EndRotation(_) | ForceEnd => phase.Writing? || phase.Claimed? || phase.Releasing?
  }

  /** The current generation is still the one loaded. */
  predicate Pins(p: Program) {
    || p.LoadState? || p.TestFull? || p.LoadNextState? || p.TryRotate? || p.Inserting? || p.AwaitWrite?
    || p.Finalize? || p.Advance? || p.ForceFinalize? || p.ForceAdvance?
  }

  /** Its memtable has been seen ready. */
  predicate SawReady(p: Program) {
    p.TestFull? || p.LoadNextState? || p.TryRotate? || p.Inserting? || p.AwaitWrite? || p.Finalize?
  }

  /** So has the next one. */
  predicate SawNextReady(p: Program) {
    p.TryRotate? || p.AwaitWrite? || p.Finalize? || p.Advance? || p.CheckWindow?
  }

  predicate HasAdvanced(p: Program) {
    p.CheckWindow? || p.CheckIncrement? || p.ForceCheck?
  }

  /** The assertions of a rotation; those of a forced finalisation can fail. */
  predicate RotationAborted(p: Program) {
    p.Aborted? && (p.assertion.Transition? || p.assertion.Window? || p.assertion.Increment?)
  }

  ghost predicate IsReady(s: State, g: nat)
    requires 0 < |s.mts|
  {
    s.mts[Slot(s, g)].status.Ready?
  }

  ghost predicate ThreadOk(s: State, t: nat)
    requires Shape(s) && t < |s.programs|
  {
    var p := s.programs[t];
    && PhaseFits(p, s.lock.phases[t])
    && (Pins(p) ==> s.generation == p.g)
    && (SawReady(p) ==> IsReady(s, p.g))
    && (SawNextReady(p) ==> IsReady(s, p.g + 1))
    && (HasAdvanced(p) ==> s.generation == p.g + 1)
    && !RotationAborted(p)
  }

  ghost predicate Midway(s: State) {
    exists t :: 0 <= t < |s.programs| && Increments(s.programs[t])
  }

  /** The first generation that has not been finalised. */
  ghost function End(s: State): nat {
    if Midway(s) then s.generation + 1 else s.generation
  }

  /** A ready memtable has a generation not finalised yet; one being worked on, a generation finalised and not yet
      retired; one awaiting reuse, a retired one. */
  ghost predicate SlotOk(mts: seq<Memtable>, i: nat, end: nat, retired: int)
    requires i < |mts|
  {
    var m, n := mts[i], |mts|;
    && m.generation % n == i
    && (m.status.Ready? ==> !m.passed && end <= m.generation <= retired + n)
    && (!m.status.Ready? && !m.passed ==> retired < m.generation < end)
    && (m.passed ==> m.status.Incorporated? && end - n <= m.generation <= retired)
  }

  ghost predicate SlotsOk(mts: seq<Memtable>, end: nat, retired: int) {
    && -1 <= retired < end <= retired + 1 + |mts|
    && forall i :: 0 <= i < |mts| ==> SlotOk(mts, i, end, retired)
  }

  ghost predicate Inv(s: State) {
    && Shape(s) && 2 <= |s.mts| && BatchRwlock.Inv(s.lock)
    && (forall t :: 0 <= t < |s.programs| ==> ThreadOk(s, t))
    && SlotsOk(s.mts, End(s), s.retired)
  }

  function Init(threads: nat, memtables: nat): State {
    State(BatchRwlock.Init(threads), 0, -1, seq(memtables, i requires 0 <= i => Memtable(Ready, i, false)),
          seq(threads, i => Idle))
  }

  lemma InitHolds(threads: nat, memtables: nat)
    requires 2 <= memtables
    ensures Inv(Init(threads, memtables))
  {
    BatchRwlock.InitHolds(threads);
    var s := Init(threads, memtables);
    forall i | 0 <= i < memtables ensures SlotOk(s.mts, i, 0, -1) {
      ModSmall(i, memtables);
    }
    assert !Midway(s);
  }

  lemma ModSmall(i: nat, n: nat)
    requires i < n
    ensures i % n == i
  {
  }

  /** Two generations less than n apart that share a slot are equal. */
  lemma SameSlot(a: int, b: int, n: nat)
    requires 0 < n && a % n == b % n && a <= b < a + n
    ensures a == b
  {
    var q := b / n - a / n;
    assert b - a == n * q;
    if q >= 1 {
      MulAtLeast(n, q);
    }
  }

  lemma MulAtLeast(n: int, q: int)
    requires n > 0 && q >= 1
    ensures n * q >= n
  {
  }

  // --------------------------------------------------------- steps of threads

  /** Nobody but t depends on what a thread holding the write lock may change. */
  predicate Depends(p: Program) {
    Pins(p) || SawReady(p) || SawNextReady(p) || HasAdvanced(p)
  }

  lemma WriterAlone(s: State, t: nat, u: nat)
    requires Inv(s) && t < |s.programs| && u < |s.programs| && u != t && s.lock.phases[t].Writing?
    ensures !Depends(s.programs[u])
  {
    BatchRwlock.Alone(s.lock, t, u);
    assert ThreadOk(s, u);
  }

  /** A step that leaves the generation and the memtables alone, and stays on its side of Midway. */
  ghost predicate Quiet(s: State, s': State, t: nat)
    requires t < |s.programs|
  {
    && Shape(s) && Shape(s') && s'.generation == s.generation && s'.retired == s.retired && s'.mts == s.mts
    && |s'.programs| == |s.programs| && s'.programs == s.programs[t := s'.programs[t]]
    && |s'.lock.phases| == |s.lock.phases| && s'.lock.phases == s.lock.phases[t := s'.lock.phases[t]]
    && !Increments(s.programs[t]) && !Increments(s'.programs[t])
  }

  lemma QuietKeeps(s: State, s': State, t: nat)
    requires Inv(s) && t < |s.programs| && Quiet(s, s', t) && BatchRwlock.Inv(s'.lock) && ThreadOk(s', t)
    ensures Inv(s')
  {
    forall u | 0 <= u < |s.programs| ensures ThreadOk(s', u) {
      if u != t {
        assert ThreadOk(s, u);
      }
    }
    assert Midway(s) == Midway(s') by {
      if Midway(s) {
        var u :| 0 <= u < |s.programs| && Increments(s.programs[u]);
        assert Increments(s'.programs[u]);
      }
      if Midway(s') {
        var u :| 0 <= u < |s'.programs| && Increments(s'.programs[u]);
        assert Increments(s.programs[u]);
      }
    }
  }

  lemma LockKept(s: State, t: nat, req: BatchRwlock.Request)
    requires Shape(s) && t < |s.programs| && BatchRwlock.Inv(s.lock)
    ensures var l := BatchRwlock.Step(s.lock, t, req);
      BatchRwlock.Inv(l) && |l.phases| == |s.lock.phases| == |l.readCounter|
      && l.phases == s.lock.phases[t := l.phases[t]]
  {
    BatchRwlock.StepKeeps(s.lock, t, req);
  }

  lemma QuietStep(s: State, t: nat, choice: Choice)
    requires Inv(s) && t < |s.programs| && !Finalizes(s.programs[t]) && !Increments(s.programs[t])
    ensures Inv(Act(s, t, choice))
  {
    QuietShape(s, t, choice);
    QuietSelf(s, t, choice);
    QuietKeeps(s, Act(s, t, choice), t);
  }

  lemma LockStep(s: State, t: nat, choice: Choice)
    requires Shape(s) && t < |s.programs| && BatchRwlock.Inv(s.lock)
    ensures var l := Act(s, t, choice).lock;
      BatchRwlock.Inv(l) && |l.phases| == |s.lock.phases| == |l.readCounter|
      && l.phases == s.lock.phases[t := l.phases[t]]
  {
    var asked := Asked(s.programs[t], s.lock.phases[t]);
    if asked.Some? {
      LockKept(s, t, asked.value);
    }
    hide BatchRwlock.Inv, BatchRwlock.Step, Next;
  }

  lemma QuietShape(s: State, t: nat, choice: Choice)
    requires Inv(s) && t < |s.programs| && !Finalizes(s.programs[t]) && !Increments(s.programs[t])
    ensures Quiet(s, Act(s, t, choice), t) && BatchRwlock.Inv(Act(s, t, choice).lock)
  {
    LockStep(s, t, choice);
    NextIsQuiet(s, t, choice, Act(s, t, choice).lock.phases[t]);
    hide BatchRwlock.Inv, BatchRwlock.Step, Next;
  }

  lemma NextIsQuiet(s: State, t: nat, choice: Choice, phase: BatchRwlock.Phase)
    requires Shape(s) && t < |s.programs| && !Finalizes(s.programs[t])
    ensures !Increments(Next(s, t, choice, phase))
  {
  }

  lemma QuietSelf(s: State, t: nat, choice: Choice)
    requires Inv(s) && t < |s.programs| && !Finalizes(s.programs[t]) && !Increments(s.programs[t])
    requires Quiet(s, Act(s, t, choice), t)
    ensures ThreadOk(Act(s, t, choice), t)
  {
    var p := s.programs[t];
    if p.BeginInsert? || p.ForceBegin? || p.AwaitWrite? || p.ForceAwait? {
      SelfWaits(s, t, choice);
    } else if p.TryRotate? || p.ForceClaim? {
      SelfClaims(s, t, choice);
    } else if p.EndRotation? || p.ForceEnd? {
      SelfUnlocks(s, t, choice);
    } else if p.BackOff? || p.GiveUp? || p.Inserting? || p.EndInsert? || p.ForceRetry? || p.ForceUnget? {
      SelfUngets(s, t, choice);
    } else {
      SelfMoves(s, t, choice);
    }
  }

  lemma SelfWaits(s: State, t: nat, choice: Choice)
    requires Inv(s) && t < |s.programs| && Quiet(s, Act(s, t, choice), t)
    requires var p := s.programs[t]; p.BeginInsert? || p.ForceBegin? || p.AwaitWrite? || p.ForceAwait?
    ensures ThreadOk(Act(s, t, choice), t)
  {
    assert ThreadOk(s, t);
  }

  lemma SelfClaims(s: State, t: nat, choice: Choice)
    requires Inv(s) && t < |s.programs| && Quiet(s, Act(s, t, choice), t)
    requires var p := s.programs[t]; p.TryRotate? || p.ForceClaim?
    ensures ThreadOk(Act(s, t, choice), t)
  {
    assert ThreadOk(s, t);
  }

  lemma SelfUnlocks(s: State, t: nat, choice: Choice)
    requires Inv(s) && t < |s.programs| && Quiet(s, Act(s, t, choice), t)
    requires var p := s.programs[t]; p.EndRotation? || p.ForceEnd?
    ensures ThreadOk(Act(s, t, choice), t)
  {
    assert ThreadOk(s, t);
  }

  lemma SelfUngets(s: State, t: nat, choice: Choice)
    requires Inv(s) && t < |s.programs| && Quiet(s, Act(s, t, choice), t)
    requires var p := s.programs[t];
      p.BackOff? || p.GiveUp? || p.Inserting? || p.EndInsert? || p.ForceRetry? || p.ForceUnget?
    ensures ThreadOk(Act(s, t, choice), t)
  {
    assert ThreadOk(s, t);
  }

  /** The steps that only load or test something. */
  lemma SelfMoves(s: State, t: nat, choice: Choice)
    requires Inv(s) && t < |s.programs| && Quiet(s, Act(s, t, choice), t)
    requires var p := s.programs[t];
      p.Idle? || p.LoadGeneration? || p.LoadState? || p.TestFull? || p.LoadNextState? || p.CheckWindow?
      || p.CheckIncrement? || p.Process? || p.ForceLoad? || p.ForceCheck? || p.Aborted?
    ensures ThreadOk(Act(s, t, choice), t)
  {
    assert ThreadOk(s, t);
    if s.programs[t].CheckWindow? {
      WindowHolds(s, s.programs[t].g);
    }
  }

  /** With the next memtable ready, the window is not full. */
  lemma WindowHolds(s: State, g: nat)
    requires Shape(s) && SlotsOk(s.mts, End(s), s.retired) && s.generation == g + 1 && IsReady(s, g + 1)
    ensures WindowFits(s)
  {
    var i := Slot(s, g + 1);
    assert SlotOk(s.mts, i, End(s), s.retired);
  }

  lemma SlotsShared(mts: seq<Memtable>, end: nat, retired: int, g: nat)
    requires 0 < |mts| && SlotsOk(mts, end, retired) && mts[g % |mts|].status.Ready? && end == g
    ensures mts[g % |mts|].generation == g
    ensures g <= retired + |mts|
  {
    var i := g % |mts|;
    assert SlotOk(mts, i, end, retired);
    SameSlot(g, mts[i].generation, |mts|);
  }

  /** Finalising the current memtable. */
  lemma SlotsFinalized(mts: seq<Memtable>, retired: int, g: nat)
    requires 0 < |mts| && SlotsOk(mts, g, retired) && mts[g % |mts|].status.Ready?
    ensures SlotsOk(FinalizeSlot(mts, g % |mts|), g + 1, retired)
  {
    var i, n := g % |mts|, |mts|;
    SlotsShared(mts, g, retired, g);
    var mts', end := FinalizeSlot(mts, i), g + 1;
    forall j | 0 <= j < n ensures SlotOk(mts', j, end, retired) {
      assert SlotOk(mts, j, g, retired) && SlotOk(mts, i, g, retired);
      if j != i && mts[j].passed && mts[j].generation == g - n {
        ModShift(g - n, n);
      }
    }
  }

  lemma ModShift(a: int, n: int)
    requires n > 0
    ensures (a + n) % n == a % n
  {
    var x := a + n;
    var k := x / n - (a / n + 1);
    assert n * k == a % n - x % n by {
      assert n * k == n * (x / n) - n * (a / n) - n;
    }
    if k >= 1 {
      MulAtLeast(n, k);
    } else if k <= -1 {
      MulAtLeast(n, -k);
    }
  }

  /** With two memtables or more the next one is not the current one. */
  lemma NextIsOther(g: nat, n: nat)
    requires 2 <= n
    ensures g % n != (g + 1) % n
  {
    if g % n == (g + 1) % n {
      SameSlot(g, g + 1, n);
    }
  }

  lemma NobodyMidway(s: State, t: nat)
    requires Inv(s) && t < |s.programs| && s.lock.phases[t].Writing? && !Increments(s.programs[t])
    ensures !Midway(s)
  {
    forall u | 0 <= u < |s.programs| ensures !Increments(s.programs[u]) {
      if u != t {
        WriterAlone(s, t, u);
      }
    }
  }

  lemma OthersKeep(s: State, t: nat, choice: Choice)
    requires Inv(s) && t < |s.programs| && s.lock.phases[t].Writing?
    ensures Shape(Act(s, t, choice))
    ensures forall u :: 0 <= u < |s.programs| && u != t ==> ThreadOk(Act(s, t, choice), u)
  {
    var s' := Act(s, t, choice);
    LockStep(s, t, choice);
    forall u | 0 <= u < |s.programs| && u != t ensures ThreadOk(s', u) {
      WriterAlone(s, t, u);
      assert ThreadOk(s, u);
    }
  }

  lemma FinalizeStep(s: State, t: nat, choice: Choice)
    requires Inv(s) && t < |s.programs| && Finalizes(s.programs[t])
    ensures Inv(Act(s, t, choice))
  {
    var s', p := Act(s, t, choice), s.programs[t];
    assert ThreadOk(s, t);
    LockStep(s, t, choice);
    NobodyMidway(s, t);
    OthersKeep(s, t, choice);
    NextIsOther(p.g, |s.mts|);
    if IsReady(s, p.g) {
      SlotsFinalized(s.mts, s.retired, p.g);
      assert Increments(s'.programs[t]);
    } else {
      StillNotMidway(s, s', t);
    }
    assert ThreadOk(s', t);
  }

  lemma StillNotMidway(s: State, s': State, t: nat)
    requires t < |s.programs| && |s'.programs| == |s.programs| && s'.programs == s.programs[t := s'.programs[t]]
    requires !Increments(s'.programs[t])
    requires forall u :: 0 <= u < |s.programs| && u != t ==> !Increments(s.programs[u])
    ensures !Midway(s')
  {
  }

  lemma IncrementStep(s: State, t: nat, choice: Choice)
    requires Inv(s) && t < |s.programs| && Increments(s.programs[t])
    ensures Inv(Act(s, t, choice))
  {
    var s', p := Act(s, t, choice), s.programs[t];
    assert ThreadOk(s, t);
    LockStep(s, t, choice);
    OthersKeep(s, t, choice);
    forall u | 0 <= u < |s.programs| && u != t ensures !Increments(s.programs[u]) {
      WriterAlone(s, t, u);
    }
    StillNotMidway(s, s', t);
    assert Midway(s);
    assert ThreadOk(s', t);
  }

  lemma ThreadStep(s: State, t: nat, choice: Choice)
    requires Inv(s) && t < |s.programs|
    ensures Inv(Act(s, t, choice))
  {
    if Finalizes(s.programs[t]) {
      FinalizeStep(s, t, choice);
    } else if Increments(s.programs[t]) {
      IncrementStep(s, t, choice);
    } else {
      QuietStep(s, t, choice);
    }
  }

  // ------------------------------------------------- what else happens to memtables

  /** A step of the environment on memtable i: its compaction and incorporation advance, generation_retired moves
      past it, or it is recycled once that has happened. */
  function Environment(s: State, i: nat): State
    requires i < |s.mts|
  {
    var m := s.mts[i];
    match m.status
    case Ready => s
    case Finalized => s.(mts := s.mts[i := m.(status := Compacting)])
    case Compacting => s.(mts := s.mts[i := m.(status := Compacted)])
    case Compacted => s.(mts := s.mts[i := m.(status := Assigned)])
    case Assigned => s.(mts := s.mts[i := m.(status := Incorporating)])
    case Incorporating => s.(mts := s.mts[i := m.(status := Incorporated)])
    case Incorporated =>
      if m.passed then s.(mts := s.mts[i := Memtable(Ready, m.generation + |s.mts|, false)])
      else if m.generation == s.retired + 1 then s.(mts := s.mts[i := m.(passed := true)], retired := s.retired + 1)
      else s
  }

  lemma EnvironmentSlots(s: State, i: nat)
    requires i < |s.mts| && SlotsOk(s.mts, End(s), s.retired)
    ensures SlotsOk(Environment(s, i).mts, End(s), Environment(s, i).retired)
  {
    var s' := Environment(s, i);
    assert SlotOk(s.mts, i, End(s), s.retired);
    ModShift(s.mts[i].generation, |s.mts|);
    forall j | 0 <= j < |s.mts| ensures SlotOk(s'.mts, j, End(s), s'.retired) {
      assert SlotOk(s.mts, j, End(s), s.retired);
    }
  }

  lemma EnvironmentThreads(s: State, i: nat)
    requires Inv(s) && i < |s.mts|
    ensures Shape(Environment(s, i))
    ensures forall t :: 0 <= t < |s.programs| ==> ThreadOk(Environment(s, i), t)
  {
    var s' := Environment(s, i);
    assert s'.programs == s.programs && s'.lock == s.lock && s'.generation == s.generation && |s'.mts| == |s.mts|;
    assert forall j :: 0 <= j < |s.mts| && s.mts[j].status.Ready? ==> s'.mts[j].status.Ready?;
    hide Environment, SlotsOk, BatchRwlock.Inv;
    forall t | 0 <= t < |s.programs| ensures ThreadOk(s', t) {
      assert ThreadOk(s, t);
    }
  }

  lemma EnvironmentStep(s: State, i: nat)
    requires Inv(s) && i < |s.mts|
    ensures Inv(Environment(s, i))
  {
    var s' := Environment(s, i);
    EnvironmentSlots(s, i);
    EnvironmentThreads(s, i);
    assert s'.programs == s.programs && s'.lock == s.lock && s'.generation == s.generation && |s'.mts| == |s.mts|;
    hide Environment, SlotsOk, ThreadOk, BatchRwlock.Inv;
  }

  // -------------------------------------------------------------------- runs

  datatype Event = Thread(t: nat, choice: Choice) | Memtables(i: nat)

  predicate Fits(e: Event, threads: nat, memtables: nat) {
    if e.Thread? then e.t < threads else e.i < memtables
  }

  ghost predicate AllFit(events: seq<Event>, threads: nat, memtables: nat) {
    forall k :: 0 <= k < |events| ==> Fits(events[k], threads, memtables)
  }

  /** The state after the events, in that order, from the start. */
  ghost function Run(threads: nat, memtables: nat, events: seq<Event>): (s: State)
    requires 2 <= memtables && AllFit(events, threads, memtables)
    ensures Inv(s) && |s.programs| == threads && |s.mts| == memtables
    decreases |events|
  {
    InitHolds(threads, memtables);
    if events == [] then Init(threads, memtables)
    else
      var last := |events| - 1;
      assert Fits(events[last], threads, memtables);
      var s := Run(threads, memtables, events[..last]);
      match events[last]
      case Thread(t, choice) => ThreadStep(s, t, choice); Act(s, t, choice)
      case Memtables(i) => EnvironmentStep(s, i); Environment(s, i)
  }

  /** In every run, from the moment memtable_maybe_rotate_and_begin_insert returns g until memtable_end_insert, the
      generation is g and its memtable is ready: nobody inserts into a memtable that is being compacted. */
  lemma FrozenWhileInserting(threads: nat, memtables: nat, events: seq<Event>, t: nat)
    requires 2 <= memtables && AllFit(events, threads, memtables) && t < threads
    requires Run(threads, memtables, events).programs[t].Inserting?
    ensures var s := Run(threads, memtables, events); var g := s.programs[t].g;
      && s.generation == g && s.mts[g % memtables].status.Ready? && s.mts[g % memtables].generation == g
  {
    var s := Run(threads, memtables, events);
    var g := s.programs[t].g;
    assert ThreadOk(s, t);
    forall u | 0 <= u < threads ensures !Increments(s.programs[u]) {
      assert ThreadOk(s, u);
      if s.lock.phases[u].Writing? && u != t {
        WriterAlone(s, u, t);
      }
    }
    assert !Midway(s);
    SlotsShared(s.mts, End(s), s.retired, g);
  }

  /** In every run none of the assertions of a rotation fails: the memtable is still ready when it is finalised, the
      window of generations fits, and the generation has advanced by exactly one. */
  lemma RotationsNeverAbort(threads: nat, memtables: nat, events: seq<Event>, t: nat)
    requires 2 <= memtables && AllFit(events, threads, memtables) && t < threads
    ensures !RotationAborted(Run(threads, memtables, events).programs[t])
  {
    assert ThreadOk(Run(threads, memtables, events), t);
  }

  lemma WindowByNext(mts: seq<Memtable>, end: nat, retired: int)
    requires 0 < |mts| && SlotsOk(mts, end, retired)
    ensures var next := mts[end % |mts|]; end - retired <= |mts| <==> next.status.Ready? || next.passed
  {
    var j := end % |mts|;
    assert SlotOk(mts, j, end, retired);
    if !mts[j].status.Ready? && !mts[j].passed && end - retired <= |mts| {
      SameSlot(mts[j].generation, end, |mts|);
    }
  }

  lemma AfterForceCheck(s: State, t: nat, choice: Choice)
    requires Shape(s) && t < |s.programs| && s.programs[t].ForceCheck?
    ensures Act(s, t, choice).programs[t] == if WindowFits(s) then ForceEnd else Aborted(ForceWindow)
  {
  }

  /** A forced finalisation looks at neither memtable first. Its assertion on the window fails exactly when the next
      memtable is neither ready nor passed by generation_retired. */
  lemma ForcedWindow(threads: nat, memtables: nat, events: seq<Event>, t: nat, choice: Choice)
    requires 2 <= memtables && AllFit(events, threads, memtables) && t < threads
    requires Run(threads, memtables, events).programs[t].ForceCheck?
    ensures var s := Run(threads, memtables, events); var next := s.mts[(s.programs[t].g + 1) % memtables];
      Act(s, t, choice).programs[t] == Aborted(ForceWindow) <==> !next.status.Ready? && !next.passed
  {
    var s := Run(threads, memtables, events);
    assert ThreadOk(s, t);
    NobodyMidway(s, t);
    AfterForceCheck(s, t, choice);
    WindowByNext(s.mts, s.generation, s.retired);
    hide Act, Run;
  }
}
