/** The clock cache over whole runs: at most one claim, no reader beside a writer, coherence, and batches that threads
    have to themselves (src/clockcache.c). */
module ClockCacheSafety {
  import opened DataModel
  import opened ClockCache
  import opened ClockCacheInvariant
  import opened ClockCacheQuiet
  import opened ClockCacheStatus
  import opened ClockCacheTables
  import opened ClockCacheBatches

  /** A load that lost the race for the lookup table is about to store the free status over a claim. */
  predicate Wipes(s: State, k: nat) {
    && k < |s.agents| && s.agents[k].pc.AbortFree? && s.agents[k].pc.e < |s.entries|
    && s.entries[s.agents[k].pc.e].status.claimed
  }

  /** The claim would be an evictor's, and none is at work in a batch that another thread takes entries from. */
  lemma NeverWipes(s: State, k: nat)
    requires Inv(s) && Batches(s)
    ensures !Wipes(s, k)
  {
    hide EntryOk, PageOk, OneToOne, RefsOk, TargetOk, MapOk, Batches;
    if Wipes(s, k) {
      var e := s.agents[k].pc.e;
      assert ClaimHeld(s, e);
      var j :| 0 <= j < |s.agents| && HoldsClaim(s.agents[j].pc) && EntryOf(s.agents[j].pc) == Some(e);
      AgentFacts(s, j);
      AgentFacts(s, k);
      PairFacts(s, j, k);
      assert Evicting(s.agents[j].pc);
      OwnedAlone(s, j, k);
    }
  }

  // ------------------------------------------------------- every kind of step

  lemma GetKeeps(s: State, k: nat, s': State)
    requires Inv(s) && k < |s.agents| && GetStep(s, k, s')
    ensures Inv(s')
  {
    hide Inv;
    match s.agents[k].pc {
      case Lookup(_) => DoLookup(s, k, s');
      case TestLock(_, _) => DoTestLock(s, k, s');
      case IncRef(_, _) => DoIncRef(s, k, s');
      case TestFree(_, _) => DoTestFree(s, k, s');
      case TestLock2(_, _, _) => DoTestLock2(s, k, s');
      case DecRef(_, _, _) => DoDecRef(s, k, s');
      case SetAccessed(_, _) => DoSetAccessed(s, k, s');
      case CheckAddr(_, _) => DoCheckAddr(s, k, s');
      case DecRefRetry(_, _) => DoDecRefRetry(s, k, s');
      case WaitLoad(_, _) => DoWaitLoad(s, k, s');
    }
  }

  lemma ReadingKeeps(s: State, k: nat, s': State)
    requires Inv(s) && k < |s.agents| && s.agents[k].pc.Reading? && HoldStep(s, k, s')
    ensures Inv(s')
  {
    hide Inv;
    AgentFacts(s, k);
    var pc := s.agents[k].pc;
    var st := s.entries[pc.e].status;
    if k < |s'.agents| && (s'.agents[k].pc.Reading? || s'.agents[k].pc.Idle?) {
      DoReading(s, k, s');
    } else {
      FlagStepKeeps(s, k, pc.e, st.(claimed := true), Claimed(pc.a, pc.e));
    }
  }

  lemma ClaimedKeeps(s: State, k: nat, s': State)
    requires Inv(s) && k < |s.agents| && s.agents[k].pc.Claimed? && HoldStep(s, k, s')
    ensures Inv(s')
  {
    hide Inv, AgentOk;
    AgentFacts(s, k);
    var pc := s.agents[k].pc;
    var st := s.entries[pc.e].status;
    FlagStepKeeps(s, k, pc.e, st.(locked := true), WaitFlush(pc.a, pc.e));
    FlagStepKeeps(s, k, pc.e, st.(claimed := false), Reading(pc.a, pc.e));
  }

  lemma WritingKeeps(s: State, k: nat, s': State)
    requires Inv(s) && k < |s.agents| && s.agents[k].pc.Writing? && HoldStep(s, k, s')
    ensures Inv(s')
  {
    hide Inv, AgentOk;
    AgentFacts(s, k);
    var pc := s.agents[k].pc;
    var st := s.entries[pc.e].status;
    FlagStepKeeps(s, k, pc.e, st.(clean := false), pc.(dirty := true));
    FlagStepKeeps(s, k, pc.e, st.(locked := false), Claimed(pc.a, pc.e));
    if pc.dirty {
      forall v ensures Inv(Put(s, pc.e, s.entries[pc.e].(data := v)).(last := s.last[pc.a := v])) {
        DoWrite(s, k, v, Put(s, pc.e, s.entries[pc.e].(data := v)).(last := s.last[pc.a := v]));
      }
    }
  }

  lemma HoldKeeps(s: State, k: nat, s': State)
    requires Inv(s) && k < |s.agents| && HoldStep(s, k, s')
    ensures Inv(s')
  {
    hide Inv;
    match s.agents[k].pc {
      case Reading(_, _) => ReadingKeeps(s, k, s');
      case Claimed(_, _) => ClaimedKeeps(s, k, s');
      case WaitFlush(_, _) => DoWaitFlush(s, k, s');
      case CheckRefs(_, _, _) => DoCheckRefs(s, k, s');
      case Writing(_, _, _, _) => WritingKeeps(s, k, s');
    }
  }

  lemma FindFreeKeeps(s: State, k: nat, s': State)
    requires Inv(s) && k < |s.agents| && s.agents[k].pc.FindFree? && LoadStep(s, k, s')
    ensures Inv(s')
  {
    hide Inv, AgentOk;
    AgentFacts(s, k);
    var pc := s.agents[k].pc;
    var e: nat :| e < |s.entries| && s.entries[e].status == FREE_STATUS
      && s' == Move(SetStatus(s, e, ALLOC_STATUS), k, OwnInc(pc.a, e, pc.alloc));
    FlagStepKeeps(s, k, e, ALLOC_STATUS, OwnInc(pc.a, e, pc.alloc));
  }

  lemma OwnStoreKeeps(s: State, k: nat, s': State)
    requires Inv(s) && k < |s.agents| && LoadStep(s, k, s') && !Wipes(s, k)
    requires s.agents[k].pc.OwnSetStatus? || s.agents[k].pc.AbortFree? || s.agents[k].pc.LoadDone?
    ensures Inv(s')
  {
    hide Inv, AgentOk;
    AgentFacts(s, k);
    var pc := s.agents[k].pc;
    if pc.AbortFree? {
      FlagStepKeeps(s, k, pc.e, FREE_STATUS, Lookup(pc.a));
    } else if pc.LoadDone? {
      FlagStepKeeps(s, k, pc.e, s.entries[pc.e].status.(loading := false), Reading(pc.a, pc.e));
    } else if pc.alloc {
      FlagStepKeeps(s, k, pc.e, ALLOC_STATUS, AllocSetAddr(pc.a, pc.e));
    } else {
      FlagStepKeeps(s, k, pc.e, READ_LOADING_STATUS, LoadMap(pc.a, pc.e));
    }
  }

  lemma LoadKeeps(s: State, k: nat, s': State)
    requires Inv(s) && k < |s.agents| && LoadStep(s, k, s') && !Wipes(s, k)
    ensures Inv(s')
  {
    hide Inv;
    AgentFacts(s, k);
    match s.agents[k].pc {
      case FindFree(_, _) => FindFreeKeeps(s, k, s');
      case OwnInc(_, _, _) => DoOwnInc(s, k, s');
      case OwnSetStatus(_, _, _) => OwnStoreKeeps(s, k, s');
      case LoadMap(a, _) =>
        if s.lookup[a].None? {
          DoLoadMap(s, k, s');
        } else {
          DoLoadMapFails(s, k, s');
        }
      case AbortDec(_, _) => DoAbortDec(s, k, s');
      case AbortFree(_, _) => OwnStoreKeeps(s, k, s');
      case LoadSetAddr(_, _) => DoLoadSetAddr(s, k, s');
      case LoadRead(_, _) => DoLoadRead(s, k, s');
      case LoadDone(_, _) => OwnStoreKeeps(s, k, s');
      case AllocSetAddr(_, _) => DoAllocSetAddr(s, k, s');
      case AllocMap(_, _) => DoAllocMap(s, k, s');
    }
  }

  lemma EvictTakesKeeps(s: State, k: nat, s': State)
    requires Inv(s) && k < |s.agents| && EvictLockStep(s, k, s')
    requires s.agents[k].pc.EvictLock? || (s.agents[k].pc.EvictClaim? && s.agents[k].pc.e < |s.entries|
                                           && !s.entries[s.agents[k].pc.e].status.claimed)
    ensures Inv(s')
  {
    hide Inv, AgentOk;
    AgentFacts(s, k);
    var pc := s.agents[k].pc;
    var st := s.entries[pc.e].status;
    if pc.EvictLock? {
      FlagStepKeeps(s, k, pc.e, st.(locked := true), EvictTestFlush(pc.e));
    } else {
      FlagStepKeeps(s, k, pc.e, st.(claimed := true), EvictTestLoading(pc.e));
    }
  }

  lemma EvictLockKeeps(s: State, k: nat, s': State)
    requires Inv(s) && k < |s.agents| && EvictLockStep(s, k, s')
    ensures Inv(s')
  {
    hide Inv;
    AgentFacts(s, k);
    match s.agents[k].pc {
      case EvictClear(_, _) => DoEvictClear(s, k, s');
      case EvictQuick(_, _) => DoEvictQuick(s, k, s');
      case EvictTestLock(_) => DoEvictTestLock(s, k, s');
      case EvictInc(_) => DoEvictInc(s, k, s');
      case EvictTestFree(_) => DoEvictTestFree(s, k, s');
      case EvictTestLock2(_, _) => DoEvictTestLock2(s, k, s');
      case EvictClaim(e) =>
        if s.entries[e].status.claimed {
          DoEvictClaimFails(s, k, s');
        } else {
          EvictTakesKeeps(s, k, s');
        }
      case EvictTestLoading(_) => DoEvictTestLoading(s, k, s');
      case EvictLock(_) => EvictTakesKeeps(s, k, s');
      case EvictTestFlush(_) => DoEvictTestFlush(s, k, s');
      case EvictCheckRefs(_, _) => DoEvictCheckRefs(s, k, s');
    }
  }

  lemma EvictGivesKeeps(s: State, k: nat, s': State)
    requires Inv(s) && k < |s.agents| && EvictStep(s, k, s')
    requires s.agents[k].pc.EvictFree? || s.agents[k].pc.EvictUnlock? || s.agents[k].pc.EvictUnclaim?
    ensures Inv(s')
  {
    hide Inv, AgentOk;
    AgentFacts(s, k);
    var pc := s.agents[k].pc;
    var st := s.entries[pc.e].status;
    if pc.EvictFree? {
      FlagStepKeeps(s, k, pc.e, FREE_STATUS, EvictDec(pc.e));
    } else if pc.EvictUnlock? {
      FlagStepKeeps(s, k, pc.e, st.(locked := false), EvictUnclaim(pc.e));
    } else {
      FlagStepKeeps(s, k, pc.e, st.(claimed := false), EvictDec(pc.e));
    }
  }

  lemma EvictKeeps(s: State, k: nat, s': State)
    requires Inv(s) && k < |s.agents| && EvictStep(s, k, s')
    ensures Inv(s')
  {
    hide Inv;
    AgentFacts(s, k);
    match s.agents[k].pc {
      case EvictRecheck(_) => DoEvictRecheck(s, k, s');
      case EvictUnmap(_) => DoEvictUnmap(s, k, s');
      case EvictClearAddr(_) => DoEvictClearAddr(s, k, s');
      case EvictFree(_) => EvictGivesKeeps(s, k, s');
      case EvictUnlock(_) => EvictGivesKeeps(s, k, s');
      case EvictUnclaim(_) => EvictGivesKeeps(s, k, s');
      case EvictDec(_) => DoEvictDec(s, k, s');
    }
  }

  lemma FlushKeeps(s: State, k: nat, s': State)
    requires Inv(s) && k < |s.agents| && FlushStep(s, k, s')
    ensures Inv(s')
  {
    hide Inv, AgentOk;
    AgentFacts(s, k);
    match s.agents[k].pc {
      case FlushPick(e, _) =>
        if s' == Move(s, k, Idle) {
          MovePlain(s, k, Idle);
        } else {
          FlagStepKeeps(s, k, e, s.entries[e].status.(writeback := true), FlushAddr(e));
        }
      case FlushAddr(_) => DoFlushAddr(s, k, s');
      case FlushWrite(_, _) => DoFlushWrite(s, k, s');
      case FlushSetClean(e, a) => FlagStepKeeps(s, k, e, s.entries[e].status.(clean := true), FlushDone(e, a));
      case FlushDone(e, a) => FlagStepKeeps(s, k, e, s.entries[e].status.(writeback := false), Idle);
    }
  }

  lemma BeginKeeps(s: State, k: nat, s': State)
    requires Inv(s) && k < |s.agents| && s.agents[k].pc.Idle? && Begin(s, k, s')
    ensures Inv(s')
  {
    hide Inv, AgentOk;
    AgentFacts(s, k);
    if a: nat :| a in s.issued && a < |s.lookup| && s' == Move(s, k, Lookup(a)) {
      BeginPage(s, k, a, Lookup(a));
    } else if a: nat :| a !in s.issued && a < |s.lookup| && Unused(s, a) && s' == Move(s, k, FindFree(a, true)) {
      BeginPage(s, k, a, FindFree(a, true));
    } else if e: nat :| e < |s.entries| && FlushBegins(s, k, e, s') {
      FlagStepKeeps(s, k, e, s.entries[e].status.(writeback := true), FlushAddr(e));
    } else if e: nat :| e < |s.entries| && PickBegins(s, k, e, s') {
      MovePlain(s, k, FlushPick(e, s.entries[e].diskAddr));
    } else {
      BeginEvictKeeps(s, k, s');
    }
  }

  lemma BeginEvictKeeps(s: State, k: nat, s': State)
    requires Inv(s) && WellFormed(s) && k < |s.agents| && s.agents[k].pc.Idle? && EvictBegins(s, k, s')
    ensures Inv(s')
  {
    hide Inv, AgentOk, WellFormed;
    var t := s.agents[k].thread;
    var h := s.hands[t];
    var r := SetHand(s, t, Evict(h.b, h.i + 1));
    HandFits(s, t);
    SameTables(s, r);
    AgentFacts(r, k);
    MovePlain(r, k, EvictClear(h.b * BATCH + h.i, s.entries[h.b * BATCH + h.i].status == EVICTABLE_STATUS));
  }

  lemma HandFits(s: State, t: nat)
    requires WellFormed(s) && t < |s.hands| && s.hands[t].Evict? && s.hands[t].i < BATCH
    ensures HandFormed(Evict(s.hands[t].b, s.hands[t].i + 1), |s.busy|)
    ensures WellFormed(SetHand(s, t, Evict(s.hands[t].b, s.hands[t].i + 1)))
  {
    FormedElsewhere(s, SetHand(s, t, Evict(s.hands[t].b, s.hands[t].i + 1)));
  }

  /** The hands of the threads and the batches they have do not enter into the invariant. */
  lemma SameTables(s: State, s': State)
    requires Inv(s) && WellFormed(s') && s' == s.(hands := s'.hands, busy := s'.busy, evictHand := s'.evictHand)
    requires |s'.hands| == |s.hands|
    ensures Inv(s')
  {
    FormedElsewhere(s, s');
    hide StatusOk, PairOk, TargetOf, GivingOut;
    forall k | 0 <= k < |s.agents| ensures AgentOk(s', s.agents[k]) && TargetOk(s', s.agents[k].pc) {
      AgentFacts(s, k);
      SameAgentOk(s, s', s.agents[k]);
    }
    forall e | 0 <= e < |s.entries| ensures EntryOk(s', e) && ClaimHeld(s', e) {
      assert EntryOk(s, e) && ClaimHeld(s, e);
      SameEntryOk(s, s', e);
    }
    forall a | 0 <= a < |s.lookup| ensures PageOk(s', a) {
      assert PageOk(s, a);
      SamePageOk(s, s', a);
    }
  }

  /** A step of a hand. */
  lemma HandKeeps(s: State, k: nat, s': State)
    requires Inv(s) && WellFormed(s) && k < |s.agents| && HandStep(s, k, s')
    ensures Inv(s')
  {
    hide Inv;
    HandFormedAfter(s, k, s');
    SameTables(s, s');
  }

  lemma HandFormedAfter(s: State, k: nat, s': State)
    requires WellFormed(s) && k < |s.agents| && HandStep(s, k, s')
    ensures WellFormed(s') && |s'.hands| == |s.hands|
    ensures s' == s.(hands := s'.hands, busy := s'.busy, evictHand := s'.evictHand)
  {
    assert HandFormed(s.hands[s.agents[k].thread], |s.busy|);
    FormedElsewhere(s, s');
  }

  /** What every step of every agent keeps. */
  ghost predicate Safe(s: State) {
    Inv(s) && Batches(s)
  }

  lemma NextKeeps(s: State, k: nat, s': State)
    requires Safe(s) && Next(s, k, s')
    ensures Safe(s')
  {
    hide Inv, Batches, Next, Wipes;
    IsFormed(s);
    NeverWipes(s, k);
    NextInv(s, k, s');
    IsFormed(s');
    NextBatches(s, k, s');
  }

  lemma NextInv(s: State, k: nat, s': State)
    requires Inv(s) && Next(s, k, s') && !Wipes(s, k)
    ensures Inv(s')
  {
    hide Inv, Begin, GetStep, HoldStep, LoadStep, HandStep, EvictLockStep, EvictStep, FlushStep;
    IsFormed(s);
    if s.agents[k].pc.Idle? && Begin(s, k, s') {
      BeginKeeps(s, k, s');
    } else if GetStep(s, k, s') {
      GetKeeps(s, k, s');
    } else if HoldStep(s, k, s') {
      HoldKeeps(s, k, s');
    } else if LoadStep(s, k, s') {
      LoadKeeps(s, k, s');
    } else if HandStep(s, k, s') {
      HandKeeps(s, k, s');
    } else if EvictLockStep(s, k, s') {
      EvictLockKeeps(s, k, s');
    } else if EvictStep(s, k, s') {
      EvictKeeps(s, k, s');
    } else {
      FlushKeeps(s, k, s');
    }
  }

  lemma IsFormed(s: State)
    requires Inv(s)
    ensures WellFormed(s)
  {
    hide AgentOk, TargetOk, PairOk, EntryOk, ClaimHeld, PageOk, OneToOne, RefsOk;
  }

  lemma InitInv(s: State)
    requires Init(s)
    ensures Inv(s)
  {
    forall e, i | 0 <= e < |s.entries| && 0 <= i < STRIPES ensures s.entries[e].refs[i] == RefCount(s.agents, e, i) {
      NobodyCounts(s.agents, e, i);
    }
  }

  lemma {:induction false} NobodyCounts(agents: seq<Agent>, e: EntryNo, i: nat)
    requires forall k :: 0 <= k < |agents| ==> agents[k].pc == Idle
    ensures RefCount(agents, e, i) == 0
  {
    if |agents| > 0 {
      NobodyCounts(agents[..|agents| - 1], e, i);
    }
  }

  // -------------------------------------------------------------- whole runs

  /** A run: step i is taken by agent steps[i]. */
  ghost predicate IsRun(states: seq<State>, steps: seq<nat>) {
    && |states| == |steps| + 1 && Init(states[0])
    && (forall i :: 0 <= i < |steps| ==> WellFormed(states[i]))
    && (forall i :: 0 <= i < |steps| ==> Next(states[i], steps[i], states[i + 1]))
  }

  lemma {:induction false} RunSafe(states: seq<State>, steps: seq<nat>, i: nat)
    requires IsRun(states, steps) && i < |states|
    ensures Safe(states[i])
  {
    hide Safe, Next, Init, WellFormed;
    if i == 0 {
      InitSafe(states[0]);
    } else {
      RunSafe(states, steps, i - 1);
      assert Next(states[i - 1], steps[i - 1], states[i - 1 + 1]);
      NextKeeps(states[i - 1], steps[i - 1], states[i]);
    }
  }

  lemma InitSafe(s: State)
    requires Init(s)
    ensures Safe(s)
  {
    hide Init, Inv, Batches;
    InitInv(s);
    InitBatches(s);
  }

  /** What the locks promise about two agents on one entry. */
  predicate Excluded(g: Agent, h: Agent) {
    EntryOf(g.pc).Some? && EntryOf(g.pc) == EntryOf(h.pc) ==>
      !(HoldsClaim(g.pc) && HoldsClaim(h.pc)) && !(WriteGranted(g.pc) && Holds(h.pc))
  }

  lemma ExcludedBy(s: State, j: nat, k: nat)
    requires Inv(s) && j < |s.agents| && k < |s.agents| && j != k
    ensures Excluded(s.agents[j], s.agents[k])
  {
    assert PairOk(s.agents[j], s.agents[k]) && PairOk(s.agents[k], s.agents[j]);
    assert AgentOk(s, s.agents[j]) && AgentOk(s, s.agents[k]);
    assert AgentFormed(s, s.agents[k]);
  }

  /** Lock exclusion, for any number of agents: one claim at most on an entry, and while a write lock is granted no
      other agent holds a validated read lock on it. */
  lemma LockExclusion(states: seq<State>, steps: seq<nat>, i: nat, j: nat, k: nat)
    requires IsRun(states, steps) && i < |states|
    requires j < |states[i].agents| && k < |states[i].agents| && j != k
    ensures Excluded(states[i].agents[j], states[i].agents[k])
  {
    hide Inv, Batches, IsRun, Excluded;
    RunSafe(states, steps, i);
    ExcludedBy(states[i], j, k);
  }

  /** Where the last content written to a page is. */
  ghost predicate Coherent(s: State, a: Addr)
    requires WellFormed(s) && a < |s.lookup|
  {
    match s.lookup[a]
    case None => s.disk[a] == s.last[a]
    case Some(e) =>
      if s.entries[e].status.loading then s.disk[a] == s.last[a]
      else s.entries[e].data == s.last[a] && (s.entries[e].status.clean ==> s.disk[a] == s.last[a])
  }

  /** Cache coherence, for any number of agents: the mapped entry of a page given out holds the last content written
      under a write lock, unless it is still being loaded or there is none, and then the disk does; and whoever holds
      the page for reading or writing sees that content. */
  lemma CacheCoherence(states: seq<State>, steps: seq<nat>, i: nat, a: Addr)
    requires IsRun(states, steps) && i < |states| && a in states[i].issued
    ensures WellFormed(states[i]) && a < |states[i].lookup| && Coherent(states[i], a)
    ensures forall k :: 0 <= k < |states[i].agents| ==> SeesLast(states[i], states[i].agents[k].pc, a)
  {
    hide IsRun, Batches;
    RunSafe(states, steps, i);
    assert PageOk(states[i], a);
    forall k | 0 <= k < |states[i].agents| ensures SeesLast(states[i], states[i].agents[k].pc, a) {
      if HoldsLoaded(states[i].agents[k].pc) {
        HolderSees(states[i], k);
      }
    }
  }

  /** An agent that holds page a finds its last content. */
  ghost predicate SeesLast(s: State, pc: PC, a: Addr)
    requires a < |s.last|
  {
    HoldsLoaded(pc) && pc.a == a ==> pc.e < |s.entries| && s.entries[pc.e].data == s.last[a]
  }

  lemma HolderSees(s: State, k: nat)
    requires Inv(s) && k < |s.agents| && HoldsLoaded(s.agents[k].pc)
    ensures s.agents[k].pc.e < |s.entries| && s.agents[k].pc.a < |s.last|
    ensures s.entries[s.agents[k].pc.e].data == s.last[s.agents[k].pc.a]
  {
    assert AgentFormed(s, s.agents[k]) && AgentOk(s, s.agents[k]);
    assert PageOk(s, s.agents[k].pc.a);
  }

  // ------------------------------------------------------------------ batches

  /** Thread t works in batch b: it evicts, cleans, or has taken and not yet made a page of, an entry of it. */
  ghost predicate WorksIn(s: State, t: nat, b: nat) {
    exists k :: 0 <= k < |s.agents| && s.agents[k].thread == t && Midway(s.agents[k].pc) && InBatch(s.agents[k].pc.e, b)
  }

  /** batch_busy is set for exactly the batches that some thread has; no batch has two; and a thread works only in its
      own. */
  lemma BatchesApart(states: seq<State>, steps: seq<nat>, i: nat, b: nat)
    requires IsRun(states, steps) && i < |states| && b < |states[i].busy|
    ensures var s := states[i];
      && (s.busy[b] <==> exists t :: 0 <= t < |s.hands| && Held(s.hands[t]) == Some(b))
      && (forall t, u :: 0 <= t < |s.hands| && 0 <= u < |s.hands| && t != u ==>
            !(Held(s.hands[t]) == Some(b) && Held(s.hands[u]) == Some(b)))
      && (forall t: nat :: WorksIn(s, t, b) ==> t < |s.hands| && Held(s.hands[t]) == Some(b))
  {
    hide IsRun, Inv, WellFormed;
    RunSafe(states, steps, i);
    var s := states[i];
    forall t: nat | WorksIn(s, t, b) ensures t < |s.hands| && Held(s.hands[t]) == Some(b) {
      var k :| 0 <= k < |s.agents| && s.agents[k].thread == t && Midway(s.agents[k].pc)
               && InBatch(s.agents[k].pc.e, b);
      Works(s, k);
    }
  }

  // --------------------------------------------------------------- assertions

  /** What the code asserts of the entry where the agent stands: of a free entry just taken, of flags set and cleared,
      and of the address that a cleaner read before. */
  ghost predicate Asserted(s: State, g: Agent)
    requires WellFormed(s) && AgentFormed(s, g)
  {
    EntryOf(g.pc).Some? ==>
      var pc, en := g.pc, s.entries[EntryOf(g.pc).value];
      && (pc.LoadMap? || pc.AllocSetAddr? ==> en.diskAddr == None)
      && (pc.Claimed? || pc.EvictLock? ==> en.status.claimed && !en.status.locked)
      && (pc.WaitFlush? || pc.EvictTestFlush? ==> !en.status.loading && en.refs[g.stripe] >= 1)
      && (pc.Writing? || pc.EvictUnlock? ==> en.status.locked)
      && (pc.EvictUnclaim? || pc.EvictFree? ==> en.status.claimed)
      && (pc.FlushSetClean? ==> !en.status.clean) && (pc.FlushDone? ==> en.status.writeback)
      && (pc.FlushPick? && en.status in {CLEANABLE1_STATUS, CLEANABLE2_STATUS} ==>
            pc.seen.Some? && pc.seen.value < |s.lookup| && s.lookup[pc.seen.value] == Some(pc.e))
  }

  /** The assertions of the locks, the evictions and the write-backs hold in every run; that the batch which a hand
      gives up is busy is BatchesApart. */
  lemma AssertionsHold(states: seq<State>, steps: seq<nat>, i: nat, k: nat)
    requires IsRun(states, steps) && i < |states| && k < |states[i].agents|
    ensures WellFormed(states[i]) && AgentFormed(states[i], states[i].agents[k])
    ensures Asserted(states[i], states[i].agents[k])
  {
    hide IsRun, Inv, WellFormed, BusyOk, AgentOk, TargetOk, Asserted;
    RunSafe(states, steps, i);
    var s := states[i];
    AgentFacts(s, k);
    Works(s, k);
    if EntryOf(s.agents[k].pc).Some? {
      var e := EntryOf(s.agents[k].pc).value;
      TableFacts(s, e);
      OwnReference(s, k, e);
      AssertedOf(s, k);
    } else {
      NothingAsserted(s, s.agents[k]);
    }
  }

  lemma OwnReference(s: State, k: nat, e: EntryNo)
    requires Inv(s) && k < |s.agents| && EntryOf(s.agents[k].pc) == Some(e) && e < |s.entries|
    requires s.agents[k].stripe < STRIPES
    ensures |s.entries[e].refs| == STRIPES
    ensures HoldsRef(s.agents[k].pc) ==> s.entries[e].refs[s.agents[k].stripe] >= 1
  {
    hide AgentOk, TargetOk, PairOk, EntryOk, ClaimHeld, PageOk, OneToOne, HoldsRef, EntryOf;
    if HoldsRef(s.agents[k].pc) {
      CountHolder(s.agents, k, e, s.agents[k].stripe);
    }
  }

  lemma NothingAsserted(s: State, g: Agent)
    requires WellFormed(s) && AgentFormed(s, g) && EntryOf(g.pc).None?
    ensures Asserted(s, g)
  {
  }

  lemma AssertedOf(s: State, k: nat)
    requires WellFormed(s) && k < |s.agents| && AgentFormed(s, s.agents[k]) && AgentOk(s, s.agents[k])
    requires EntryOf(s.agents[k].pc).Some? && EntryOk(s, EntryOf(s.agents[k].pc).value)
    requires SeenOk(s, s.agents[k].pc)
    requires HoldsRef(s.agents[k].pc) ==> s.entries[EntryOf(s.agents[k].pc).value].refs[s.agents[k].stripe] >= 1
    ensures Asserted(s, s.agents[k])
  {
  }
}
