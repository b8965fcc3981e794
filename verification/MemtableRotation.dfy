/** When memtable_maybe_rotate_and_begin_insert rotates, when it answers busy and when it lets the caller insert
    (src/memtable.c). */
module MemtableRotation {
  import opened DataModel
  import BatchRwlock
  import opened Memtables
  import opened MemtableSafety
  import opened MemtableForce

  // ------------------------------------------------------- what the answer rests on

  /** What thread t has last seen of the generation it is looking at: whether its memtable is full, and whether the
      next one is ready. */
  datatype Looks = Looks(full: Option<(nat, bool)>, nextReady: Option<(nat, bool)>)

  ghost function Looked(threads: nat, memtables: nat, events: seq<Event>, t: nat): Looks
    requires 2 <= memtables && AllFit(events, threads, memtables) && t < threads
    decreases |events|
  {
    if events == [] then Looks(None, None)
    else
      var last := |events| - 1;
      var before, s := Looked(threads, memtables, events[..last], t), Run(threads, memtables, events[..last]);
      var e := events[last];
      if e.Memtables? || e.t != t then before
      else if s.programs[t].TestFull? then before.(full := Some((s.programs[t].g, e.choice.full)))
      else if s.programs[t].LoadNextState? then
        var g := s.programs[t].g;
        before.(nextReady := Some((g, s.mts[(g + 1) % memtables].status.Ready?)))
      else before
  }

  /** The thread is rotating generation g out. */
  predicate Rotates(p: Program) {
    || p.TryRotate? || p.AwaitWrite? || p.Finalize? || p.Advance? || p.CheckWindow? || p.CheckIncrement?
    || p.EndRotation? || p.EndInsert? || p.Process?
  }

  predicate AnswerOk(p: Program, looks: Looks) {
    && (p.Inserting? ==> looks.full == Some((p.g, false)))
    && (p.LoadNextState? ==> looks.full == Some((p.g, true)))
    && (p.GiveUp? ==> looks.full.Some? && looks.full.value.1 && looks.nextReady == Some((looks.full.value.0, false)))
    && (Rotates(p) ==> looks.full == Some((p.g, true)) && looks.nextReady == Some((p.g, true)))
  }

  /** In every run a thread inserts only into a memtable that it found not full, answers busy only when it found the
      memtable full and the next one not ready, and rotates only when it found the memtable full and the next one
      ready. */
  lemma {:induction false} AnswersRight(threads: nat, memtables: nat, events: seq<Event>, t: nat)
    requires 2 <= memtables && AllFit(events, threads, memtables) && t < threads
    ensures AnswerOk(Run(threads, memtables, events).programs[t], Looked(threads, memtables, events, t))
    decreases |events|
  {
    hide AnswerOk, Act, Environment;
    if events == [] {
      NothingAnswered(threads, memtables, t);
    } else {
      var last := |events| - 1;
      AnswersRight(threads, memtables, events[..last], t);
      var s, e := Run(threads, memtables, events[..last]), events[last];
      assert Fits(e, threads, memtables);
      if e.Memtables? {
        EnvironmentPrograms(s, e.i);
      } else if e.t == t {
        AnswerStep(s, t, e.choice, Looked(threads, memtables, events[..last], t));
      } else {
        OtherProgram(s, e.t, e.choice, t);
      }
    }
  }

  lemma NothingAnswered(threads: nat, memtables: nat, t: nat)
    requires 2 <= memtables && t < threads
    ensures AnswerOk(Run(threads, memtables, []).programs[t], Looks(None, None))
  {
  }

  lemma OtherProgram(s: State, u: nat, choice: Choice, t: nat)
    requires Memtables.Shape(s) && t < |s.programs| && u < |s.programs| && t != u
    ensures Act(s, u, choice).programs[t] == s.programs[t]
  {
  }

  lemma EnvironmentPrograms(s: State, i: nat)
    requires i < |s.mts|
    ensures Environment(s, i).programs == s.programs
  {
  }

  lemma AnswerStep(s: State, t: nat, choice: Choice, looks: Looks)
    requires Memtables.Shape(s) && t < |s.programs| && AnswerOk(s.programs[t], looks)
    ensures var p := s.programs[t];
      var looks' :=
        if p.TestFull? then looks.(full := Some((p.g, choice.full)))
        else if p.LoadNextState? then looks.(nextReady := Some((p.g, s.mts[(p.g + 1) % |s.mts|].status.Ready?)))
        else looks;
      AnswerOk(Act(s, t, choice).programs[t], looks')
  {
    hide BatchRwlock.Step, FinalizeSlot;
  }

  // ------------------------------------------------------------------- run alone

  const FULL := Choice(false, true)
  const ROOM := Choice(false, false)

  /** From the beginning of the call to the look at the memtable. */
  lemma Reaches(g: nat, r: int, mts: seq<Memtable>, c: Choice)
    requires 0 < |mts|
    ensures Steps(Lone(BatchRwlock.Out, 0, false, false, g, r, mts, BeginInsert), c, 5)
         == Lone(BatchRwlock.Reading, 1, false, false, g, r, mts, LoadState(g))
  {
    var s := Lone(BatchRwlock.Out, 0, false, false, g, r, mts, BeginInsert);
    var s1 := Lone(BatchRwlock.Spinning, 0, false, false, g, r, mts, BeginInsert);
    var s2 := Lone(BatchRwlock.Entering, 0, false, false, g, r, mts, BeginInsert);
    var s3 := Lone(BatchRwlock.Rechecking, 1, false, false, g, r, mts, BeginInsert);
    var s4 := Lone(BatchRwlock.Reading, 1, false, false, g, r, mts, LoadGeneration);
    var s5 := Lone(BatchRwlock.Reading, 1, false, false, g, r, mts, LoadState(g));
    assert Act(s, 0, c) == s1 && Act(s1, 0, c) == s2 && Act(s2, 0, c) == s3;
    assert Act(s3, 0, c) == s4 && Act(s4, 0, c) == s5;
    hide Act;
    assert Steps(s, c, 0) == s;
    OneMore(s, c, 0, s, s1); OneMore(s, c, 1, s1, s2); OneMore(s, c, 2, s2, s3);
    OneMore(s, c, 3, s3, s4); OneMore(s, c, 4, s4, s5);
  }

  /** And to the test whether it is full. */
  lemma Begins(g: nat, r: int, mts: seq<Memtable>, c: Choice)
    requires 0 < |mts| && mts[g % |mts|].status.Ready?
    ensures Steps(Lone(BatchRwlock.Out, 0, false, false, g, r, mts, BeginInsert), c, 6)
         == Lone(BatchRwlock.Reading, 1, false, false, g, r, mts, TestFull(g))
  {
    hide Steps;
    var b := Lone(BatchRwlock.Out, 0, false, false, g, r, mts, BeginInsert);
    var s, s1 := Lone(BatchRwlock.Reading, 1, false, false, g, r, mts, LoadState(g)),
      Lone(BatchRwlock.Reading, 1, false, false, g, r, mts, TestFull(g));
    Reaches(g, r, mts, c);
    assert Act(s, 0, c) == s1;
    hide Act;
    OneMore(b, c, 5, s, s1);
  }

  /** From the test to the claim. */
  lemma FindsFull(g: nat, r: int, mts: seq<Memtable>)
    requires 0 < |mts| && mts[(g + 1) % |mts|].status.Ready?
    ensures Steps(Lone(BatchRwlock.Reading, 1, false, false, g, r, mts, TestFull(g)), FULL, 4)
         == Lone(BatchRwlock.Claimed, 0, true, false, g, r, mts, AwaitWrite(g))
  {
    hide Steps, Act;
    FindsNextReady(g, r, mts);
    ClaimsLock(g, r, mts);
    StepsAdd(Lone(BatchRwlock.Reading, 1, false, false, g, r, mts, TestFull(g)), FULL, 2, 2);
  }

  lemma FindsNextReady(g: nat, r: int, mts: seq<Memtable>)
    requires 0 < |mts| && mts[(g + 1) % |mts|].status.Ready?
    ensures Steps(Lone(BatchRwlock.Reading, 1, false, false, g, r, mts, TestFull(g)), FULL, 2)
         == Lone(BatchRwlock.Reading, 1, false, false, g, r, mts, TryRotate(g))
  {
    var s := Lone(BatchRwlock.Reading, 1, false, false, g, r, mts, TestFull(g));
    var s1 := Lone(BatchRwlock.Reading, 1, false, false, g, r, mts, LoadNextState(g));
    var s2 := Lone(BatchRwlock.Reading, 1, false, false, g, r, mts, TryRotate(g));
    assert Act(s, 0, FULL) == s1 && Act(s1, 0, FULL) == s2;
    hide Act;
    assert Steps(s, FULL, 0) == s;
    OneMore(s, FULL, 0, s, s1); OneMore(s, FULL, 1, s1, s2);
  }

  lemma ClaimsLock(g: nat, r: int, mts: seq<Memtable>)
    requires 0 < |mts|
    ensures Steps(Lone(BatchRwlock.Reading, 1, false, false, g, r, mts, TryRotate(g)), FULL, 2)
         == Lone(BatchRwlock.Claimed, 0, true, false, g, r, mts, AwaitWrite(g))
  {
    var s := Lone(BatchRwlock.Reading, 1, false, false, g, r, mts, TryRotate(g));
    var s1 := Lone(BatchRwlock.ClaimDropping, 1, true, false, g, r, mts, AwaitWrite(g));
    var s2 := Lone(BatchRwlock.Claimed, 0, true, false, g, r, mts, AwaitWrite(g));
    assert Act(s, 0, FULL) == s1 && Act(s1, 0, FULL) == s2;
    hide Act;
    assert Steps(s, FULL, 0) == s;
    OneMore(s, FULL, 0, s, s1); OneMore(s, FULL, 1, s1, s2);
  }

  /** From the claim to the transition. */
  lemma TakesLock(g: nat, r: int, mts: seq<Memtable>)
    requires 0 < |mts| && mts[g % |mts|].status.Ready?
    ensures Steps(Lone(BatchRwlock.Claimed, 0, true, false, g, r, mts, AwaitWrite(g)), FULL, 3)
         == Lone(BatchRwlock.Writing, 0, true, true, g, r, FinalizeSlot(mts, g % |mts|), Advance(g))
  {
    var mts' := FinalizeSlot(mts, g % |mts|);
    var s := Lone(BatchRwlock.Claimed, 0, true, false, g, r, mts, AwaitWrite(g));
    var s1 := Lone(BatchRwlock.Draining(0), 0, true, true, g, r, mts, AwaitWrite(g));
    var s2 := Lone(BatchRwlock.Writing, 0, true, true, g, r, mts, Finalize(g));
    var s3 := Lone(BatchRwlock.Writing, 0, true, true, g, r, mts', Advance(g));
    assert Act(s, 0, FULL) == s1 && Act(s1, 0, FULL) == s2 && Act(s2, 0, FULL) == s3;
    hide Act;
    assert Steps(s, FULL, 0) == s;
    OneMore(s, FULL, 0, s, s1); OneMore(s, FULL, 1, s1, s2); OneMore(s, FULL, 2, s2, s3);
  }

  /** The next generation, and its assertions. */
  lemma Advances(g: nat, r: int, mts: seq<Memtable>)
    requires 0 < |mts| && g + 1 - r <= |mts|
    ensures Steps(Lone(BatchRwlock.Writing, 0, true, true, g, r, mts, Advance(g)), FULL, 3)
         == Lone(BatchRwlock.Writing, 0, true, true, g + 1, r, mts, EndRotation(g))
  {
    var s := Lone(BatchRwlock.Writing, 0, true, true, g, r, mts, Advance(g));
    var s1 := Lone(BatchRwlock.Writing, 0, true, true, g + 1, r, mts, CheckWindow(g));
    var s2 := Lone(BatchRwlock.Writing, 0, true, true, g + 1, r, mts, CheckIncrement(g));
    var s3 := Lone(BatchRwlock.Writing, 0, true, true, g + 1, r, mts, EndRotation(g));
    assert Act(s, 0, FULL) == s1 && Act(s1, 0, FULL) == s2 && Act(s2, 0, FULL) == s3;
    hide Act;
    assert Steps(s, FULL, 0) == s;
    OneMore(s, FULL, 0, s, s1); OneMore(s, FULL, 1, s1, s2); OneMore(s, FULL, 2, s2, s3);
  }

  /** All locks given back, and around the loop. */
  lemma GoesAround(g: nat, r: int, mts: seq<Memtable>)
    requires 0 < |mts|
    ensures Steps(Lone(BatchRwlock.Writing, 0, true, true, g + 1, r, mts, EndRotation(g)), FULL, 5)
         == Lone(BatchRwlock.Out, 0, false, false, g + 1, r, mts, BeginInsert)
  {
    hide Steps, Act;
    Unlocks(g, r, mts);
    Returns(g, r, mts);
    StepsAdd(Lone(BatchRwlock.Writing, 0, true, true, g + 1, r, mts, EndRotation(g)), FULL, 3, 2);
  }

  lemma Unlocks(g: nat, r: int, mts: seq<Memtable>)
    requires 0 < |mts|
    ensures Steps(Lone(BatchRwlock.Writing, 0, true, true, g + 1, r, mts, EndRotation(g)), FULL, 3)
         == Lone(BatchRwlock.Reading, 1, false, false, g + 1, r, mts, EndInsert(g))
  {
    var s := Lone(BatchRwlock.Writing, 0, true, true, g + 1, r, mts, EndRotation(g));
    var s1 := Lone(BatchRwlock.Claimed, 0, true, false, g + 1, r, mts, EndRotation(g));
    var s2 := Lone(BatchRwlock.Releasing, 1, true, false, g + 1, r, mts, EndRotation(g));
    var s3 := Lone(BatchRwlock.Reading, 1, false, false, g + 1, r, mts, EndInsert(g));
    assert Act(s, 0, FULL) == s1 && Act(s1, 0, FULL) == s2 && Act(s2, 0, FULL) == s3;
    hide Act;
    assert Steps(s, FULL, 0) == s;
    OneMore(s, FULL, 0, s, s1); OneMore(s, FULL, 1, s1, s2); OneMore(s, FULL, 2, s2, s3);
  }

  lemma Returns(g: nat, r: int, mts: seq<Memtable>)
    requires 0 < |mts|
    ensures Steps(Lone(BatchRwlock.Reading, 1, false, false, g + 1, r, mts, EndInsert(g)), FULL, 2)
         == Lone(BatchRwlock.Out, 0, false, false, g + 1, r, mts, BeginInsert)
  {
    var s := Lone(BatchRwlock.Reading, 1, false, false, g + 1, r, mts, EndInsert(g));
    var s1 := Lone(BatchRwlock.Out, 0, false, false, g + 1, r, mts, Process(g));
    var s2 := Lone(BatchRwlock.Out, 0, false, false, g + 1, r, mts, BeginInsert);
    assert Act(s, 0, FULL) == s1 && Act(s1, 0, FULL) == s2;
    hide Act;
    assert Steps(s, FULL, 0) == s;
    OneMore(s, FULL, 0, s, s1); OneMore(s, FULL, 1, s1, s2);
  }

  /** Run alone on a full memtable with the next one ready, the call finalises that memtable alone, makes the next
      generation current, and, when there is room in it, returns it. */
  lemma RotatesAlone(g: nat, r: int, mts: seq<Memtable>)
    requires 2 <= |mts| && mts[g % |mts|].status.Ready? && mts[(g + 1) % |mts|].status.Ready? && g + 1 - r <= |mts|
    ensures var mts' := mts[g % |mts| := mts[g % |mts|].(status := Finalized)];
      && Steps(Lone(BatchRwlock.Out, 0, false, false, g, r, mts, BeginInsert), FULL, 27)
         == Lone(BatchRwlock.Reading, 1, false, false, g + 1, r, mts', TestFull(g + 1))
      && Act(Lone(BatchRwlock.Reading, 1, false, false, g + 1, r, mts', TestFull(g + 1)), 0, ROOM)
         == Lone(BatchRwlock.Reading, 1, false, false, g + 1, r, mts', Inserting(g + 1))
  {
    hide Steps, Act;
    var mts', s := FinalizeSlot(mts, g % |mts|), Lone(BatchRwlock.Out, 0, false, false, g, r, mts, BeginInsert);
    NextIsOther(g, |mts|);
    Begins(g, r, mts, FULL);
    FindsFull(g, r, mts);
    TakesLock(g, r, mts);
    Advances(g, r, mts');
    GoesAround(g, r, mts');
    Begins(g + 1, r, mts', FULL);
    StepsAdd(s, FULL, 6, 4);
    StepsAdd(s, FULL, 10, 3);
    StepsAdd(s, FULL, 13, 3);
    StepsAdd(s, FULL, 16, 5);
    StepsAdd(s, FULL, 21, 6);
    InsertsAlone(g + 1, r, mts');
  }

  /** With room in the memtable the call returns its generation. */
  lemma InsertsAlone(g: nat, r: int, mts: seq<Memtable>)
    requires 0 < |mts|
    ensures Act(Lone(BatchRwlock.Reading, 1, false, false, g, r, mts, TestFull(g)), 0, ROOM)
         == Lone(BatchRwlock.Reading, 1, false, false, g, r, mts, Inserting(g))
    ensures Act(Lone(BatchRwlock.Reading, 1, false, false, g, r, mts, Inserting(g)), 0, ROOM)
         == Lone(BatchRwlock.Out, 0, false, false, g, r, mts, Idle)
  {
  }

  /** Run alone on a memtable that is not ready, the call backs off with nothing changed, and tries again. */
  lemma RetriesAlone(g: nat, r: int, mts: seq<Memtable>, c: Choice)
    requires 0 < |mts| && !mts[g % |mts|].status.Ready?
    ensures Steps(Lone(BatchRwlock.Out, 0, false, false, g, r, mts, BeginInsert), c, 7)
         == Lone(BatchRwlock.Out, 0, false, false, g, r, mts, BeginInsert)
  {
    hide Steps;
    var b := Lone(BatchRwlock.Out, 0, false, false, g, r, mts, BeginInsert);
    var s, s1 := Lone(BatchRwlock.Reading, 1, false, false, g, r, mts, LoadState(g)),
      Lone(BatchRwlock.Reading, 1, false, false, g, r, mts, BackOff);
    Reaches(g, r, mts, c);
    assert Act(s, 0, c) == s1 && Act(s1, 0, c) == b;
    hide Act;
    OneMore(b, c, 5, s, s1);
    OneMore(b, c, 6, s1, b);
  }

  /** Run alone on a full memtable with the next one not ready, the call answers busy and changes nothing. */
  lemma BusyAlone(g: nat, r: int, mts: seq<Memtable>)
    requires 0 < |mts| && mts[g % |mts|].status.Ready? && !mts[(g + 1) % |mts|].status.Ready?
    ensures Steps(Lone(BatchRwlock.Out, 0, false, false, g, r, mts, BeginInsert), FULL, 9)
         == Lone(BatchRwlock.Out, 0, false, false, g, r, mts, Idle)
  {
    hide Steps;
    var b := Lone(BatchRwlock.Out, 0, false, false, g, r, mts, BeginInsert);
    Begins(g, r, mts, FULL);
    var s := Lone(BatchRwlock.Reading, 1, false, false, g, r, mts, TestFull(g));
    var s1 := Lone(BatchRwlock.Reading, 1, false, false, g, r, mts, LoadNextState(g));
    var s2 := Lone(BatchRwlock.Reading, 1, false, false, g, r, mts, GiveUp);
    var s3 := Lone(BatchRwlock.Out, 0, false, false, g, r, mts, Idle);
    assert Act(s, 0, FULL) == s1 && Act(s1, 0, FULL) == s2 && Act(s2, 0, FULL) == s3;
    hide Act;
    OneMore(b, FULL, 6, s, s1); OneMore(b, FULL, 7, s1, s2); OneMore(b, FULL, 8, s2, s3);
  }
}
