/** Batches of entries: a thread evicts, cleans and takes entries only in a batch that no other thread has
    (src/clockcache.c, batch_busy and free_hand). */
module ClockCacheBatches {
  import opened DataModel
  import opened ClockCache
  import opened ClockCacheInvariant
  import opened ClockCacheQuiet

  /** The batch that a hand has to itself. */
  function Held(h: Hand): Option<nat> {
    match h
    case Draws(batch) => batch
    case Clean(_, c) => Some(c)
    case Evict(b, _) => Some(b)
    case _ => None
  }

  /** The hand's batch has the entry, and the work on it is the hand's. */
  predicate WorksFor(pc: PC, h: Hand) {
    && (Owns(pc) ==> h.Draws? && h.batch.Some? && InBatch(pc.e, h.batch.value))
    && (Evicting(pc) ==> h.Evict? && InBatch(pc.e, h.b))
    && (pc.FlushPick? ==> h.Clean? && InBatch(pc.e, h.c))
  }

  /** What a cleaner has read is still so. */
  predicate SeenOk(s: State, pc: PC) {
    pc.FlushPick? ==> pc.e < |s.entries| && s.entries[pc.e].diskAddr == pc.seen
  }

  /** batch_busy is set for exactly the batches that threads have, and each has its own. */
  ghost predicate BusyOk(hands: seq<Hand>, busy: seq<bool>) {
    && (forall t :: 0 <= t < |hands| && Held(hands[t]).Some? ==>
          Held(hands[t]).value < |busy| && busy[Held(hands[t]).value])
    && (forall t, u :: 0 <= t < |hands| && 0 <= u < |hands| && t != u && Held(hands[t]).Some? ==>
          Held(hands[t]) != Held(hands[u]))
    && (forall b :: 0 <= b < |busy| && busy[b] ==> exists t :: 0 <= t < |hands| && Held(hands[t]) == Some(b))
  }

  predicate AgentWorks(s: State, g: Agent) {
    g.thread < |s.hands| && WorksFor(g.pc, s.hands[g.thread]) && SeenOk(s, g.pc)
  }

  ghost predicate Batches(s: State) {
    && WellFormed(s) && BusyOk(s.hands, s.busy)
    && (forall k :: 0 <= k < |s.agents| ==> AgentWorks(s, s.agents[k]))
  }

  lemma Works(s: State, k: nat)
    requires Batches(s) && k < |s.agents|
    ensures AgentFormed(s, s.agents[k]) && AgentWorks(s, s.agents[k])
  {
    hide AgentWorks, BusyOk;
  }

  // --------------------------------------------------- one agent in a batch

  /** Entries of the batches of two threads are apart. */
  lemma Apart(s: State, t: nat, u: nat, d: EntryNo, e: EntryNo)
    requires Batches(s) && t < |s.hands| && u < |s.hands| && t != u
    requires Held(s.hands[t]).Some? && InBatch(d, Held(s.hands[t]).value)
    requires Held(s.hands[u]).Some? && InBatch(e, Held(s.hands[u]).value)
    ensures d != e
  {
  }

  /** An entry that an agent owns is being neither evicted nor picked for cleaning by another: the thread that took it
      has its batch, and does one thing at a time. */
  lemma OwnedAlone(s: State, j: nat, k: nat)
    requires Batches(s) && j < |s.agents| && k < |s.agents| && Owns(s.agents[k].pc)
    requires Evicting(s.agents[j].pc) || s.agents[j].pc.FlushPick?
    ensures s.agents[j].pc.e != s.agents[k].pc.e
  {
    hide BusyOk;
    Works(s, j);
    Works(s, k);
    if s.agents[j].thread != s.agents[k].thread {
      Apart(s, s.agents[j].thread, s.agents[k].thread, s.agents[j].pc.e, s.agents[k].pc.e);
    }
  }

  // ------------------------------------------------------- what a step does

  /** Agent k has moved, and no hand; work goes on with the same entry, or is begun for the hand. */
  ghost predicate Moves(s: State, k: nat, s': State) {
    && OnlyMoved(s, k, s') && Still(s, s')
    && WorksOn(s, s.agents[k], s'.agents[k].pc)
  }

  predicate Still(s: State, s': State) {
    s'.hands == s.hands && s'.busy == s.busy && |s'.entries| == |s.entries|
  }

  predicate WorksOn(s: State, g: Agent, pc': PC) {
    && (Owns(pc') ==> (Owns(g.pc) && g.pc.e == pc'.e) || Takes(s, g.thread, pc'.e))
    && (Evicting(pc') ==> Evicting(g.pc) && g.pc.e == pc'.e)
    && (pc'.FlushPick? ==> g.thread < |s.hands| && s.hands[g.thread].Clean? && InBatch(pc'.e, s.hands[g.thread].c)
                           && pc'.e < |s.entries| && pc'.seen == s.entries[pc'.e].diskAddr)
  }

  /** Addresses change only in entries that the agent owns or evicts. */
  ghost predicate Readdresses(s: State, k: nat, s': State)
    requires k < |s.agents| && |s'.entries| == |s.entries|
  {
    forall e :: 0 <= e < |s.entries| && s'.entries[e].diskAddr != s.entries[e].diskAddr ==>
      (Owns(s.agents[k].pc) || Evicting(s.agents[k].pc)) && s.agents[k].pc.e == e
  }

  lemma AgentStep(s: State, k: nat, s': State)
    requires Batches(s) && WellFormed(s') && Moves(s, k, s') && Readdresses(s, k, s')
    ensures Batches(s')
  {
    hide BusyOk, WellFormed;
    forall j | 0 <= j < |s'.agents| ensures AgentWorks(s', s'.agents[j]) {
      Works(s, k);
      Works(s, j);
      if j != k && s.agents[j].pc.FlushPick? {
        SeenStays(s, j, k, s');
      } else if j == k && s'.agents[k].pc.FlushPick? {
        PickerChanges(s, k, s');
      }
    }
  }

  lemma SeenStays(s: State, j: nat, k: nat, s': State)
    requires Batches(s) && j < |s.agents| && k < |s.agents| && |s'.entries| == |s.entries| && Readdresses(s, k, s')
    requires s.agents[j].pc.FlushPick?
    ensures SeenOk(s', s.agents[j].pc)
  {
    hide BusyOk, WellFormed;
    Works(s, j);
    Works(s, k);
    var e := s.agents[j].pc.e;
    if s'.entries[e].diskAddr != s.entries[e].diskAddr {
      PickedAlone(s, j, k);
    }
  }

  lemma PickedAlone(s: State, j: nat, k: nat)
    requires Batches(s) && j < |s.agents| && k < |s.agents| && s.agents[j].pc.FlushPick?
    requires Owns(s.agents[k].pc) || Evicting(s.agents[k].pc)
    ensures s.agents[j].pc.e != s.agents[k].pc.e
  {
    hide BusyOk, WellFormed;
    Works(s, j);
    Works(s, k);
    if s.agents[j].thread != s.agents[k].thread {
      Apart(s, s.agents[j].thread, s.agents[k].thread, s.agents[j].pc.e, s.agents[k].pc.e);
    }
  }

  /** A cleaner reads an address and changes none. */
  lemma PickerChanges(s: State, k: nat, s': State)
    requires Batches(s) && Moves(s, k, s') && Readdresses(s, k, s') && s'.agents[k].pc.FlushPick?
    ensures AgentWorks(s', s'.agents[k])
  {
    hide BusyOk, WellFormed;
    Works(s, k);
  }

  // ------------------------------------------------------------ kinds of step

  /** What the steps need of a well-formed state. */
  lemma Shapes(s: State, k: nat)
    requires WellFormed(s) && k < |s.agents|
    ensures AgentFormed(s, s.agents[k]) && |s.last| == |s.lookup| == |s.disk|
    ensures EntryOf(s.agents[k].pc).Some? ==> |s.entries[EntryOf(s.agents[k].pc).value].refs| == STRIPES
    ensures s.agents[k].pc.EvictUnmap? ==>
      s.entries[s.agents[k].pc.e].diskAddr.Some? ==> s.entries[s.agents[k].pc.e].diskAddr.value < |s.lookup|
  {
  }

  lemma BeginMoves(s: State, k: nat, s': State)
    requires WellFormed(s) && k < |s.agents| && s.agents[k].pc.Idle? && Begin(s, k, s') && !EvictBegins(s, k, s')
    ensures OnlyMoved(s, k, s') && Still(s, s')
  {
    hide WellFormed;
    Shapes(s, k);
  }

  lemma BeginWorks(s: State, k: nat, s': State)
    requires WellFormed(s) && k < |s.agents| && s.agents[k].pc.Idle? && Begin(s, k, s') && !EvictBegins(s, k, s')
    requires OnlyMoved(s, k, s')
    ensures WorksOn(s, s.agents[k], s'.agents[k].pc)
  {
    hide WellFormed, OnlyMoved;
    Shapes(s, k);
  }

  lemma BeginReaddresses(s: State, k: nat, s': State)
    requires WellFormed(s) && k < |s.agents| && s.agents[k].pc.Idle? && Begin(s, k, s') && !EvictBegins(s, k, s')
    requires Still(s, s')
    ensures Readdresses(s, k, s')
  {
    hide WellFormed;
    Shapes(s, k);
  }

  lemma GetMoves(s: State, k: nat, s': State)
    requires WellFormed(s) && k < |s.agents| && GetStep(s, k, s')
    ensures OnlyMoved(s, k, s') && Still(s, s')
  {
    hide WellFormed;
    Shapes(s, k);
    match s.agents[k].pc {
      case Lookup(_) =>
      case TestLock(_, _) =>
      case IncRef(_, _) =>
      case TestFree(_, _) =>
      case TestLock2(_, _, _) =>
      case DecRef(_, _, _) =>
      case SetAccessed(_, _) =>
      case CheckAddr(_, _) =>
      case DecRefRetry(_, _) =>
      case WaitLoad(_, _) =>
    }
  }

  predicate GetPlace(pc: PC) {
    || pc.Idle? || pc.Lookup? || pc.TestLock? || pc.IncRef? || pc.TestFree? || pc.TestLock2? || pc.DecRef?
    || pc.SetAccessed? || pc.CheckAddr? || pc.DecRefRetry? || pc.WaitLoad? || pc.Reading? || pc.FindFree?
  }

  lemma GetGoes(s: State, k: nat, s': State)
    requires WellFormed(s) && k < |s.agents| && GetStep(s, k, s') && OnlyMoved(s, k, s')
    ensures GetPlace(s'.agents[k].pc)
  {
    hide WellFormed, OnlyMoved;
    Shapes(s, k);
    match s.agents[k].pc {
      case Lookup(_) =>
      case TestLock(_, _) =>
      case IncRef(_, _) =>
      case TestFree(_, _) =>
      case TestLock2(_, _, _) =>
      case DecRef(_, _, _) =>
      case SetAccessed(_, _) =>
      case CheckAddr(_, _) =>
      case DecRefRetry(_, _) =>
      case WaitLoad(_, _) =>
    }
  }

  lemma GetWorks(s: State, k: nat, s': State)
    requires WellFormed(s) && k < |s.agents| && GetStep(s, k, s') && OnlyMoved(s, k, s')
    ensures WorksOn(s, s.agents[k], s'.agents[k].pc)
  {
    hide WellFormed, GetStep;
    GetGoes(s, k, s');
  }

  lemma GetReaddresses(s: State, k: nat, s': State)
    requires WellFormed(s) && k < |s.agents| && GetStep(s, k, s') && Still(s, s')
    ensures Readdresses(s, k, s')
  {
    hide WellFormed;
    Shapes(s, k);
  }

  lemma HoldMoves(s: State, k: nat, s': State)
    requires WellFormed(s) && k < |s.agents| && HoldStep(s, k, s')
    ensures OnlyMoved(s, k, s') && Still(s, s')
  {
    hide WellFormed;
    Shapes(s, k);
    match s.agents[k].pc {
      case Reading(_, _) =>
      case Claimed(_, _) =>
      case WaitFlush(_, _) =>
      case CheckRefs(_, _, _) =>
      case Writing(_, _, _, _) =>
    }
  }

  predicate HoldPlace(pc: PC) {
    || pc.Idle? || pc.Reading? || pc.Claimed? || pc.WaitFlush? || pc.CheckRefs? || pc.Writing?
  }

  lemma HoldGoes(s: State, k: nat, s': State)
    requires WellFormed(s) && k < |s.agents| && HoldStep(s, k, s') && OnlyMoved(s, k, s')
    ensures HoldPlace(s'.agents[k].pc)
  {
    hide WellFormed, OnlyMoved;
    Shapes(s, k);
    match s.agents[k].pc {
      case Reading(_, _) =>
      case Claimed(_, _) =>
      case WaitFlush(_, _) =>
      case CheckRefs(_, _, _) =>
      case Writing(_, _, _, _) =>
    }
  }

  lemma HoldWorks(s: State, k: nat, s': State)
    requires WellFormed(s) && k < |s.agents| && HoldStep(s, k, s') && OnlyMoved(s, k, s')
    ensures WorksOn(s, s.agents[k], s'.agents[k].pc)
  {
    hide WellFormed, HoldStep;
    HoldGoes(s, k, s');
  }

  lemma HoldReaddresses(s: State, k: nat, s': State)
    requires WellFormed(s) && k < |s.agents| && HoldStep(s, k, s') && Still(s, s')
    ensures Readdresses(s, k, s')
  {
    hide WellFormed;
    Shapes(s, k);
    match s.agents[k].pc {
      case Reading(_, _) =>
      case Claimed(_, _) =>
      case WaitFlush(_, _) =>
      case CheckRefs(_, _, _) =>
      case Writing(_, _, _, _) =>
    }
  }

  lemma LoadMoves(s: State, k: nat, s': State)
    requires WellFormed(s) && k < |s.agents| && LoadStep(s, k, s')
    ensures OnlyMoved(s, k, s') && Still(s, s')
  {
    hide WellFormed;
    Shapes(s, k);
    match s.agents[k].pc {
      case FindFree(_, _) =>
      case OwnInc(_, _, _) =>
      case OwnSetStatus(_, _, _) =>
      case LoadMap(_, _) =>
      case AbortDec(_, _) =>
      case AbortFree(_, _) =>
      case LoadSetAddr(_, _) =>
      case LoadRead(_, _) =>
      case LoadDone(_, _) =>
      case AllocSetAddr(_, _) =>
      case AllocMap(_, _) =>
    }
  }

  predicate Early(pc: PC) {
    pc.FindFree? || pc.OwnInc? || pc.OwnSetStatus? || pc.LoadMap?
  }

  lemma EarlyLoadWorks(s: State, k: nat, s': State)
    requires WellFormed(s) && k < |s.agents| && LoadStep(s, k, s') && OnlyMoved(s, k, s') && Early(s.agents[k].pc)
    ensures WorksOn(s, s.agents[k], s'.agents[k].pc)
  {
    hide WellFormed, OnlyMoved;
    Shapes(s, k);
    match s.agents[k].pc {
      case FindFree(_, _) =>
      case OwnInc(_, _, _) =>
      case OwnSetStatus(_, _, _) =>
      case LoadMap(_, _) =>
    }
  }

  lemma LateLoadWorks(s: State, k: nat, s': State)
    requires WellFormed(s) && k < |s.agents| && LoadStep(s, k, s') && OnlyMoved(s, k, s') && !Early(s.agents[k].pc)
    ensures WorksOn(s, s.agents[k], s'.agents[k].pc)
  {
    hide WellFormed, OnlyMoved;
    Shapes(s, k);
    match s.agents[k].pc {
      case AbortDec(_, _) =>
      case AbortFree(_, _) =>
      case LoadSetAddr(_, _) =>
      case LoadRead(_, _) =>
      case LoadDone(_, _) =>
      case AllocSetAddr(_, _) =>
      case AllocMap(_, _) =>
    }
  }

  lemma LoadWorks(s: State, k: nat, s': State)
    requires WellFormed(s) && k < |s.agents| && LoadStep(s, k, s') && OnlyMoved(s, k, s')
    ensures WorksOn(s, s.agents[k], s'.agents[k].pc)
  {
    hide *;
    if Early(s.agents[k].pc) {
      EarlyLoadWorks(s, k, s');
    } else {
      LateLoadWorks(s, k, s');
    }
  }

  lemma LoadReaddresses(s: State, k: nat, s': State)
    requires WellFormed(s) && k < |s.agents| && LoadStep(s, k, s') && Still(s, s')
    ensures Readdresses(s, k, s')
  {
    hide WellFormed;
    Shapes(s, k);
  }

  lemma EvictLockMoves(s: State, k: nat, s': State)
    requires WellFormed(s) && k < |s.agents| && EvictLockStep(s, k, s')
    ensures OnlyMoved(s, k, s') && Still(s, s')
  {
    hide WellFormed;
    Shapes(s, k);
  }

  lemma EvictLockWorks(s: State, k: nat, s': State)
    requires WellFormed(s) && k < |s.agents| && EvictLockStep(s, k, s') && OnlyMoved(s, k, s')
    ensures WorksOn(s, s.agents[k], s'.agents[k].pc)
  {
    hide WellFormed, OnlyMoved;
    Shapes(s, k);
    match s.agents[k].pc {
      case EvictClear(_, _) =>
      case EvictQuick(_, _) =>
      case EvictTestLock(_) =>
      case EvictInc(_) =>
      case EvictTestFree(_) =>
      case EvictTestLock2(_, _) =>
      case EvictClaim(_) =>
      case EvictTestLoading(_) =>
      case EvictLock(_) =>
      case EvictTestFlush(_) =>
      case EvictCheckRefs(_, _) =>
    }
  }

  lemma EvictLockReaddresses(s: State, k: nat, s': State)
    requires WellFormed(s) && k < |s.agents| && EvictLockStep(s, k, s') && Still(s, s')
    ensures Readdresses(s, k, s')
  {
    hide WellFormed;
    Shapes(s, k);
  }

  lemma EvictMoves(s: State, k: nat, s': State)
    requires WellFormed(s) && k < |s.agents| && EvictStep(s, k, s')
    ensures OnlyMoved(s, k, s') && Still(s, s')
  {
    hide WellFormed;
    Shapes(s, k);
  }

  lemma EvictWorks(s: State, k: nat, s': State)
    requires WellFormed(s) && k < |s.agents| && EvictStep(s, k, s') && OnlyMoved(s, k, s')
    ensures WorksOn(s, s.agents[k], s'.agents[k].pc)
  {
    hide WellFormed, OnlyMoved;
    Shapes(s, k);
  }

  lemma EvictReaddresses(s: State, k: nat, s': State)
    requires WellFormed(s) && k < |s.agents| && EvictStep(s, k, s') && Still(s, s')
    ensures Readdresses(s, k, s')
  {
    hide WellFormed;
    Shapes(s, k);
  }

  lemma FlushMoves(s: State, k: nat, s': State)
    requires WellFormed(s) && k < |s.agents| && FlushStep(s, k, s')
    ensures OnlyMoved(s, k, s') && Still(s, s')
  {
    hide WellFormed;
    Shapes(s, k);
  }

  lemma FlushWorks(s: State, k: nat, s': State)
    requires WellFormed(s) && k < |s.agents| && FlushStep(s, k, s') && OnlyMoved(s, k, s')
    ensures WorksOn(s, s.agents[k], s'.agents[k].pc)
  {
    hide WellFormed, OnlyMoved;
    Shapes(s, k);
  }

  lemma FlushReaddresses(s: State, k: nat, s': State)
    requires WellFormed(s) && k < |s.agents| && FlushStep(s, k, s') && Still(s, s')
    ensures Readdresses(s, k, s')
  {
    hide WellFormed;
    Shapes(s, k);
  }

  // ---------------------------------------------------------------- the hands

  /** The hand of thread t has changed, and with it whether batch b is busy. */
  lemma HandChanges(s: State, t: nat, s': State)
    requires Batches(s) && WellFormed(s') && t < |s.hands| == |s'.hands| && QuietThread(s, t)
    requires s'.agents == s.agents && s'.entries == s.entries && s'.hands == s.hands[t := s'.hands[t]]
    requires BusyOk(s'.hands, s'.busy)
    ensures Batches(s')
  {
    hide BusyOk, WellFormed;
    forall j | 0 <= j < |s'.agents| ensures AgentWorks(s', s'.agents[j]) {
      Works(s, j);
    }
  }

  /** The hand lets its batch go, takes one that nobody has, or goes on with what it has. */
  lemma BusyAfter(hands: seq<Hand>, busy: seq<bool>, t: nat, h: Hand, busy': seq<bool>)
    requires BusyOk(hands, busy) && t < |hands|
    requires var had, has := Held(hands[t]), Held(h);
      || (has == had && busy' == busy)
      || (has == None && had.Some? && had.value < |busy| && busy' == busy[had.value := false])
      || (had == None && has.Some? && has.value < |busy| && !busy[has.value] && busy' == busy[has.value := true])
    ensures BusyOk(hands[t := h], busy')
  {
    var hands' := hands[t := h];
    forall b | 0 <= b < |busy'| && busy'[b] ensures exists u :: 0 <= u < |hands'| && Held(hands'[u]) == Some(b) {
      if Held(h) == Some(b) {
        assert Held(hands'[t]) == Some(b);
      } else {
        var u :| 0 <= u < |hands| && Held(hands[u]) == Some(b);
        assert u != t && Held(hands'[u]) == Some(b);
      }
    }
  }

  lemma HandTurns(s: State, k: nat, s': State)
    requires Batches(s) && k < |s.agents| && HandStep(s, k, s') && WellFormed(s')
    ensures Batches(s')
  {
    hide WellFormed, AgentWorks, WorksFor;
    var t := s.agents[k].thread;
    HandSteps(s, k, s');
    BusyAfter(s.hands, s.busy, t, s'.hands[t], s'.busy);
    HandChanges(s, t, s');
  }

  lemma HandSteps(s: State, k: nat, s': State)
    requires Batches(s) && k < |s.agents| && HandStep(s, k, s')
    ensures s.agents[k].thread < |s.hands| && QuietThread(s, s.agents[k].thread)
    ensures s'.agents == s.agents && s'.entries == s.entries && |s'.hands| == |s.hands|
    ensures s'.hands == s.hands[s.agents[k].thread := s'.hands[s.agents[k].thread]]
    ensures var had, has := Held(s.hands[s.agents[k].thread]), Held(s'.hands[s.agents[k].thread]);
      || (has == had && s'.busy == s.busy)
      || (has == None && had.Some? && had.value < |s.busy| && s'.busy == s.busy[had.value := false])
      || (had == None && has.Some? && has.value < |s.busy| && !s.busy[has.value]
          && s'.busy == s.busy[has.value := true])
  {
    hide QuietThread;
    assert HandFormed(s.hands[s.agents[k].thread], |s.busy|);
  }

  /** The eviction of the next entry of the batch begins. */
  lemma EvictionBegins(s: State, k: nat, s': State)
    requires Batches(s) && k < |s.agents| && EvictBegins(s, k, s') && WellFormed(s')
    ensures Batches(s')
  {
    hide WellFormed, BusyOk;
    var t := s.agents[k].thread;
    BusyAfter(s.hands, s.busy, t, s'.hands[t], s'.busy);
    forall j | 0 <= j < |s'.agents| ensures AgentWorks(s', s'.agents[j]) {
      Works(s, j);
    }
  }

  /** Every step of an agent keeps the batches apart. */
  lemma NextBatches(s: State, k: nat, s': State)
    requires Batches(s) && Next(s, k, s') && WellFormed(s')
    ensures Batches(s')
  {
    hide Begin, GetStep, HoldStep, LoadStep, HandStep, EvictLockStep, EvictStep, FlushStep, EvictBegins, WellFormed,
         BusyOk, AgentWorks, Readdresses, OnlyMoved, Still, WorksOn;
    if HandStep(s, k, s') {
      HandTurns(s, k, s');
    } else if s.agents[k].pc.Idle? && Begin(s, k, s') && EvictBegins(s, k, s') {
      EvictionBegins(s, k, s');
    } else {
      if s.agents[k].pc.Idle? && Begin(s, k, s') {
        BeginMoves(s, k, s');
        BeginWorks(s, k, s');
        BeginReaddresses(s, k, s');
      } else if GetStep(s, k, s') {
        GetMoves(s, k, s');
        GetWorks(s, k, s');
        GetReaddresses(s, k, s');
      } else if HoldStep(s, k, s') {
        HoldMoves(s, k, s');
        HoldWorks(s, k, s');
        HoldReaddresses(s, k, s');
      } else if LoadStep(s, k, s') {
        LoadMoves(s, k, s');
        LoadWorks(s, k, s');
        LoadReaddresses(s, k, s');
      } else if EvictLockStep(s, k, s') {
        EvictLockMoves(s, k, s');
        EvictLockWorks(s, k, s');
        EvictLockReaddresses(s, k, s');
      } else if EvictStep(s, k, s') {
        EvictMoves(s, k, s');
        EvictWorks(s, k, s');
        EvictReaddresses(s, k, s');
      } else {
        FlushMoves(s, k, s');
        FlushWorks(s, k, s');
        FlushReaddresses(s, k, s');
      }
      AgentStep(s, k, s');
    }
  }

  lemma InitBatches(s: State)
    requires Init(s)
    ensures Batches(s)
  {
    forall k | 0 <= k < |s.agents| ensures AgentWorks(s, s.agents[k]) {
      assert AgentFormed(s, s.agents[k]);
    }
  }
}
