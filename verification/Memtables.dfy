/** The memtables and their insert lock: inserting threads, rotation by whichever of them finds the current memtable
    full, and forced finalisation, as steps of any number of threads (src/memtable.c). What happens to a memtable
    after it is finalised is left to steps of the environment. */
module Memtables {
  import opened BatchRwlock
  import opened DataModel

  datatype Status = Ready | Finalized | Compacting | Compacted | Assigned | Incorporating | Incorporated

  /** `passed`: the thread that incorporated it has also moved generation_retired past it. */
  datatype Memtable = Memtable(status: Status, generation: nat, passed: bool)

  /** The assertions that stop the program when they fail. */
  datatype Assertion = Transition | Window | Increment | ForceTransition | ForceWindow

  /** Where a thread is in memtable_maybe_rotate_and_begin_insert, in the insert that follows it, or in
      memtable_force_finalize. */
  datatype Program =
    | Idle
    | BeginInsert
    | LoadGeneration
    | LoadState(g: nat)
    | TestFull(g: nat)
    | LoadNextState(g: nat)
    | TryRotate(g: nat)
    | BackOff
    | GiveUp
    | Inserting(g: nat)       // returned with generation g; ends with memtable_end_insert
    | AwaitWrite(g: nat)
    | Finalize(g: nat)
    | Advance(g: nat)
    | CheckWindow(g: nat)
    | CheckIncrement(g: nat)
    | EndRotation(g: nat)
    | EndInsert(g: nat)
    | Process(g: nat)
    | ForceBegin
    | ForceClaim
    | ForceRetry
    | ForceAwait
    | ForceLoad
    | ForceFinalize(g: nat)
    | ForceAdvance(g: nat)
    | ForceCheck(g: nat)
    | ForceEnd
    | ForceUnget
    | Aborted(assertion: Assertion)

  /** generation_retired starts one below zero. */
  datatype State = State(lock: Lock, generation: nat, retired: int, mts: seq<Memtable>, programs: seq<Program>)

  /** What the step leaves open: what an idle thread begins, and whether the memtable is full. */
  datatype Choice = Choice(force: bool, full: bool)

  predicate Shape(s: State) {
    |s.lock.phases| == |s.lock.readCounter| == |s.programs| && 0 < |s.mts|
  }

  function Slot(s: State, g: nat): nat
    requires 0 < |s.mts|
  {
    g % |s.mts|
  }

  /** What thread t's next operation asks of the lock: get and the waits it begins, try_claim, the drain once the
      claim is had, unlock and unclaim, unget. None for an operation on something else. */
  function Asked(p: Program, phase: Phase): Option<Request> {
    match p
    case BeginInsert | ForceBegin => Some(if phase.Out? then Get else Continue)
    case TryRotate(_) | ForceClaim => Some(TryClaim)
    case AwaitWrite(_) | ForceAwait => Some(if phase.Claimed? then SetLock else Continue)
    case EndRotation(_) | ForceEnd =>
      Some(if phase.Writing? then Unlock else if phase.Claimed? then Unclaim else Continue)
    case BackOff | GiveUp | Inserting(_) | EndInsert(_) | ForceRetry | ForceUnget => Some(Unget)
    case _ => None
  }

  /** Where thread t goes next; `phase` is its phase in the lock after the operation. */
  function Next(s: State, t: nat, choice: Choice, phase: Phase): Program
    requires Shape(s) && t < |s.programs|
  {
    var p := s.programs[t];
    match p
    case Idle => if choice.force then ForceBegin else BeginInsert
    case BeginInsert => if phase.Reading? then LoadGeneration else p
    case LoadGeneration => LoadState(s.generation)
    case LoadState(g) => if s.mts[Slot(s, g)].status.Ready? then TestFull(g) else BackOff
    case TestFull(g) => if choice.full then LoadNextState(g) else Inserting(g)
    case LoadNextState(g) => if s.mts[Slot(s, g + 1)].status.Ready? then TryRotate(g) else GiveUp
    case TryRotate(g) => if phase.ClaimDropping? then AwaitWrite(g) else BackOff
    case BackOff => BeginInsert
    case GiveUp => Idle
    case Inserting(g) => Idle
    case AwaitWrite(g) => if phase.Writing? then Finalize(g) else p
    case Finalize(g) => if s.mts[Slot(s, g)].status.Ready? then Advance(g) else Aborted(Transition)
    case Advance(g) => CheckWindow(g)
    case CheckWindow(g) => if WindowFits(s) then CheckIncrement(g) else Aborted(Window)
    case CheckIncrement(g) => if g + 1 == s.generation then EndRotation(g) else Aborted(Increment)
    case EndRotation(g) => if phase.Reading? then EndInsert(g) else p
    case EndInsert(g) => Process(g)
    case Process(g) => BeginInsert
    case ForceBegin => if phase.Reading? then ForceClaim else p
    case ForceClaim => if phase.ClaimDropping? then ForceAwait else ForceRetry
    case ForceRetry => ForceBegin
    case ForceAwait => if phase.Writing? then ForceLoad else p
    case ForceLoad => ForceFinalize(s.generation)
    case ForceFinalize(g) => if s.mts[Slot(s, g)].status.Ready? then ForceAdvance(g) else Aborted(ForceTransition)
    case ForceAdvance(g) => ForceCheck(g)
    case ForceCheck(g) => if WindowFits(s) then ForceEnd else Aborted(ForceWindow)
    case ForceEnd => if phase.Reading? then ForceUnget else p
    case ForceUnget => Idle
    case Aborted(_) => p
  }

  /** The assertion on generation and generation_retired. */
  predicate WindowFits(s: State) {
    s.generation - s.retired <= |s.mts|
  }

  predicate Finalizes(p: Program) {
    p.Finalize? || p.ForceFinalize?
  }

  predicate Increments(p: Program) {
    p.Advance? || p.ForceAdvance?
  }

  /** The transition from READY to FINALIZED, which changes nothing in any other state. */
  function FinalizeSlot(mts: seq<Memtable>, i: nat): seq<Memtable>
    requires i < |mts|
  {
    if mts[i].status.Ready? then mts[i := mts[i].(status := Finalized)] else mts
  }

  /** One atomic operation of thread t. */
  function Act(s: State, t: nat, choice: Choice): State
    requires Shape(s) && t < |s.programs|
  {
    var p := s.programs[t];
    var asked := Asked(p, s.lock.phases[t]);
    var lock := if asked.Some? then Step(s.lock, t, asked.value) else s.lock;
    StepShape(s.lock, t, if asked.Some? then asked.value else Continue);
    State(lock,
          if Increments(p) then s.generation + 1 else s.generation,
          s.retired,
          if Finalizes(p) then FinalizeSlot(s.mts, Slot(s, p.g)) else s.mts,
          s.programs[t := Next(s, t, choice, lock.phases[t])])
  }
}
