/** Steps of the clock cache that change the flags of one entry. */
module ClockCacheStatus {
  import opened DataModel
  import opened ClockCache
  import opened ClockCacheInvariant
  import opened ClockCacheQuiet

  function Flagged(s: State, k: nat, e: EntryNo, st: Status, pc: PC): State
    requires k < |s.agents| && e < |s.entries|
  {
    Move(SetStatus(s, e, st), k, pc)
  }

  /** The other agents on the entry can live with its new flags. */
  ghost predicate Bearable(s: State, k: nat, e: EntryNo, st: Status)
    requires e < |s.entries|
  {
    forall j :: 0 <= j < |s.agents| && j != k && EntryOf(s.agents[j].pc) == Some(e) ==>
      StatusOk(s.agents[j].pc, st) && (EvictHolding(s.agents[j].pc) ==> st.free == s.entries[e].status.free)
  }

  lemma OthersBear(s: State, k: nat, e: EntryNo, st: Status, pc: PC, s': State)
    requires Inv(s) && k < |s.agents| && e < |s.entries| && AgentFormed(s, s.agents[k].(pc := pc))
    requires s' == Flagged(s, k, e, st, pc) && WellFormed(s') && Bearable(s, k, e, st)
    ensures OthersOk(s', k)
  {
    hide Inv, StatusOk, TargetOk;
    forall j | 0 <= j < |s'.agents| && j != k ensures AgentOk(s', s'.agents[j]) && TargetOk(s', s'.agents[j].pc) {
      AgentFacts(s, j);
      SameTarget(s, s', s.agents[j].pc);
      if EntryOf(s.agents[j].pc).Some? {
        SameMapOk(s, e, st, s', s.agents[j]);
      }
    }
  }

  lemma SameMapOk(s: State, e: EntryNo, st: Status, s': State, g: Agent)
    requires WellFormed(s) && WellFormed(s') && e < |s.entries| && AgentFormed(s, g) && AgentFormed(s', g)
    requires s'.entries == s.entries[e := s.entries[e].(status := st)] && s'.lookup == s.lookup && s'.disk == s.disk
    requires s'.last == s.last && s'.issued == s.issued && EntryOf(g.pc).Some? && MapOk(s, g.pc)
    requires EntryOf(g.pc) == Some(e) && EvictHolding(g.pc) ==> st.free == s.entries[e].status.free
    ensures MapOk(s', g.pc)
  {
  }

  lemma StatusStep(s: State, k: nat, e: EntryNo, st: Status, pc: PC)
    requires Inv(s) && k < |s.agents| && e < |s.entries| && AgentFormed(s, s.agents[k].(pc := pc))
    requires Bearable(s, k, e, st)
    requires HoldsClaim(s.agents[k].pc) ==> EntryOf(s.agents[k].pc) == Some(e)
    requires HoldsRef(pc) == HoldsRef(s.agents[k].pc)
    requires HoldsRef(s.agents[k].pc) ==> EntryOf(pc) == EntryOf(s.agents[k].pc)
    requires WellFormed(Flagged(s, k, e, st, pc))
    requires var s' := Flagged(s, k, e, st, pc);
      && AgentOk(s', s'.agents[k]) && TargetOk(s', pc) && PairsOk(s', k) && EntryOk(s', e) && ClaimHeld(s', e)
      && forall a :: 0 <= a < |s.lookup| && s.lookup[a] == Some(e) ==> PageOk(s', a)
    ensures Inv(Flagged(s, k, e, st, pc))
  {
    hide Inv, StatusOk, TargetOk, AgentOk, PairOk, HoldsRef, HoldsClaim, EntryOf, Bearable;
    var s' := Flagged(s, k, e, st, pc);
    OthersBear(s, k, e, st, pc, s');
    RefsKept(s, k, s');
    StatusTables(s, k, e, st, pc, s');
    Compose(s, k, s');
  }

  lemma StatusTables(s: State, k: nat, e: EntryNo, st: Status, pc: PC, s': State)
    requires Inv(s) && k < |s.agents| && e < |s.entries| && s' == Flagged(s, k, e, st, pc) && WellFormed(s')
    requires HoldsClaim(s.agents[k].pc) ==> EntryOf(s.agents[k].pc) == Some(e)
    requires EntryOk(s', e) && ClaimHeld(s', e) && RefsOk(s')
    requires forall a :: 0 <= a < |s.lookup| && s.lookup[a] == Some(e) ==> PageOk(s', a)
    ensures TablesOk(s')
  {
    hide AgentOk, PairOk, TargetOk, HoldsClaim, EntryOf, RefsOk;
    forall d | 0 <= d < |s'.entries| ensures EntryOk(s', d) && ClaimHeld(s', d) {
      assert EntryOk(s, d) && ClaimHeld(s, d);
      if d != e && s.entries[d].status.claimed {
        var j :| 0 <= j < |s.agents| && HoldsClaim(s.agents[j].pc) && EntryOf(s.agents[j].pc) == Some(d);
        assert s'.agents[j] == s.agents[j];
      }
    }
    forall a | 0 <= a < |s'.lookup| ensures PageOk(s', a) {
      assert PageOk(s, a);
    }
  }

  // --------------------------------------------------------------- claiming

  /** Setting a flag word is well formed. */
  lemma FlaggedFormed(s: State, k: nat, e: EntryNo, st: Status, pc: PC)
    requires Inv(s) && k < |s.agents| && e < |s.entries| && AgentFormed(s, s.agents[k].(pc := pc))
    ensures WellFormed(Flagged(s, k, e, st, pc)) && OnlyMoved(s, k, Flagged(s, k, e, st, pc))
  {
    hide AgentOk, TargetOk, PairOk, EntryOk, ClaimHeld, PageOk, OneToOne, RefsOk;
    FormedElsewhere(s, Flagged(s, k, e, st, pc));
  }

  /** Agent j on the entry that agent k is about to change. */
  lemma Neighbour(s: State, j: nat, k: nat)
    requires Inv(s) && j < |s.agents| && k < |s.agents| && j != k
    ensures WellFormed(s) && AgentFormed(s, s.agents[j]) && AgentOk(s, s.agents[j])
    ensures PairOk(s.agents[j], s.agents[k]) && PairOk(s.agents[k], s.agents[j])
  {
    hide AgentOk, TargetOk, PairOk, EntryOk, ClaimHeld, PageOk, OneToOne, RefsOk;
  }

  lemma TableFacts(s: State, e: EntryNo)
    requires Inv(s) && e < |s.entries|
    ensures EntryOk(s, e) && ClaimHeld(s, e) && forall a :: 0 <= a < |s.lookup| && s.lookup[a] == Some(e) ==> PageOk(s,
        a)
  {
    hide AgentOk, TargetOk, PairOk, EntryOk, ClaimHeld, PageOk, OneToOne, RefsOk;
  }

  /** What a step does to the flags of entry e, and where it takes the agent. */
  predicate FlagStep(pc: PC, st: Status, st': Status, pc': PC, e: EntryNo) {
    || ClaimStep(pc, st, st', pc', e) || LockStep(pc, st, st', pc', e) || OwnStep(pc, st, st', pc', e)
    || FlushFlagStep(pc, st, st', pc', e)
  }

  /** Taking and dropping the claim. */
  predicate ClaimStep(pc: PC, st: Status, st': Status, pc': PC, e: EntryNo) {
    || (pc.Reading? && pc.e == e && !st.claimed && st' == st.(claimed := true) && pc' == Claimed(pc.a, e))
    || (pc == EvictClaim(e) && !st.claimed && st' == st.(claimed := true) && pc' == EvictTestLoading(e))
    || (pc.Claimed? && pc.e == e && st' == st.(claimed := false) && pc' == Reading(pc.a, e))
    || (pc == EvictUnclaim(e) && st' == st.(claimed := false) && pc' == EvictDec(e))
  }

  /** Taking and dropping the write lock, and dirtying the page. */
  predicate LockStep(pc: PC, st: Status, st': Status, pc': PC, e: EntryNo) {
    || (pc.Claimed? && pc.e == e && st' == st.(locked := true) && pc' == WaitFlush(pc.a, e))
    || (pc == EvictLock(e) && st' == st.(locked := true) && pc' == EvictTestFlush(e))
    || (pc.Writing? && pc.e == e && st' == st.(locked := false) && pc' == Claimed(pc.a, e))
    || (pc == EvictUnlock(e) && st' == st.(locked := false) && pc' == EvictUnclaim(e))
    || (pc.Writing? && pc.e == e && st' == st.(clean := false) && pc' == pc.(dirty := true))
  }

  /** Taking a free entry, setting its status, and giving entries back. The plain store of the free status by a
      load that gives up must not meet a claim. */
  predicate OwnStep(pc: PC, st: Status, st': Status, pc': PC, e: EntryNo) {
    || (pc.FindFree? && st == FREE_STATUS && st' == ALLOC_STATUS && pc' == OwnInc(pc.a, e, pc.alloc))
    || (pc.OwnSetStatus? && pc.e == e && pc.alloc && st' == ALLOC_STATUS && pc' == AllocSetAddr(pc.a, e))
    || (pc.OwnSetStatus? && pc.e == e && !pc.alloc && st' == READ_LOADING_STATUS && pc' == LoadMap(pc.a, e))
    || (pc.AbortFree? && pc.e == e && !st.claimed && st' == FREE_STATUS && pc' == Lookup(pc.a))
    || (pc.LoadDone? && pc.e == e && st' == st.(loading := false) && pc' == Reading(pc.a, e))
    || (pc == EvictFree(e) && st' == FREE_STATUS && pc' == EvictDec(e))
  }

  predicate FlushFlagStep(pc: PC, st: Status, st': Status, pc': PC, e: EntryNo) {
    || ((pc.Idle? || (pc.FlushPick? && pc.e == e)) && st in {CLEANABLE1_STATUS, CLEANABLE2_STATUS}
        && st' == st.(writeback := true) && pc' == FlushAddr(e))
    || (pc.FlushSetClean? && pc.e == e && st' == st.(clean := true) && pc' == FlushDone(e, pc.a))
    || (pc.FlushDone? && pc.e == e && st' == st.(writeback := false) && pc' == Idle)
  }

  /** Agent h, on the entry whose flags agent g changes. */
  ghost predicate Beside(g: Agent, h: Agent, st: Status, e: EntryNo) {
    && PairOk(g, h) && PairOk(h, g) && EntryOf(h.pc) == Some(e) && StatusOk(h.pc, st) && h.stripe < STRIPES
    && (EntryOf(g.pc).Some? ==> EntryOf(g.pc) == Some(e) && StatusOk(g.pc, st))
    && (Blank(g.pc) ==> !Holds(h.pc))
  }

  lemma BearsClaim(g: Agent, h: Agent, st: Status, st': Status, pc': PC, e: EntryNo)
    requires Beside(g, h, st, e) && ClaimStep(g.pc, st, st', pc', e)
    ensures StatusOk(h.pc, st') && st'.free == st.free
    ensures PairOk(g.(pc := pc'), h) && PairOk(h, g.(pc := pc'))
  {
  }

  lemma BearsLock(g: Agent, h: Agent, st: Status, st': Status, pc': PC, e: EntryNo)
    requires Beside(g, h, st, e) && LockStep(g.pc, st, st', pc', e)
    ensures StatusOk(h.pc, st') && st'.free == st.free
    ensures PairOk(g.(pc := pc'), h) && PairOk(h, g.(pc := pc'))
  {
  }

  lemma BearsOwn(g: Agent, h: Agent, st: Status, st': Status, pc': PC, e: EntryNo)
    requires Beside(g, h, st, e) && OwnStep(g.pc, st, st', pc', e)
    ensures StatusOk(h.pc, st') && (EvictHolding(h.pc) ==> st'.free == st.free)
    ensures PairOk(g.(pc := pc'), h) && PairOk(h, g.(pc := pc'))
  {
  }

  lemma BearsFlush(g: Agent, h: Agent, st: Status, st': Status, pc': PC, e: EntryNo)
    requires Beside(g, h, st, e) && FlushFlagStep(g.pc, st, st', pc', e)
    ensures StatusOk(h.pc, st') && st'.free == st.free
    ensures PairOk(g.(pc := pc'), h) && PairOk(h, g.(pc := pc'))
  {
  }

  /** What a flag step means for the agent's reference, claim and target. */
  predicate Effect(pc: PC, st: Status, st': Status, pc': PC, e: EntryNo) {
    && (EntryOf(pc').None? || EntryOf(pc') == Some(e)) && (EntryOf(pc).None? || EntryOf(pc) == Some(e))
    && HoldsRef(pc') == HoldsRef(pc) && (HoldsRef(pc) ==> EntryOf(pc') == EntryOf(pc))
    && (HoldsClaim(pc) ==> EntryOf(pc) == Some(e))
    && (TargetOf(pc').None? || TargetOf(pc') == TargetOf(pc)) && (GivingOut(pc') ==> GivingOut(pc))
    && (st'.claimed ==> (HoldsClaim(pc') && EntryOf(pc') == Some(e)) || (st.claimed && !HoldsClaim(pc)))
  }

  lemma EffectClaim(pc: PC, st: Status, st': Status, pc': PC, e: EntryNo)
    requires ClaimStep(pc, st, st', pc', e)
    ensures Effect(pc, st, st', pc', e)
  {
  }

  lemma EffectLock(pc: PC, st: Status, st': Status, pc': PC, e: EntryNo)
    requires LockStep(pc, st, st', pc', e)
    ensures Effect(pc, st, st', pc', e)
  {
  }

  lemma EffectTake(pc: PC, st: Status, st': Status, pc': PC, e: EntryNo)
    requires OwnStep(pc, st, st', pc', e) && (pc.FindFree? || pc.OwnSetStatus?)
    ensures Effect(pc, st, st', pc', e)
  {
  }

  lemma EffectGive(pc: PC, st: Status, st': Status, pc': PC, e: EntryNo)
    requires OwnStep(pc, st, st', pc', e) && !pc.FindFree? && !pc.OwnSetStatus?
    ensures Effect(pc, st, st', pc', e)
  {
  }

  lemma EffectOwn(pc: PC, st: Status, st': Status, pc': PC, e: EntryNo)
    requires OwnStep(pc, st, st', pc', e)
    ensures Effect(pc, st, st', pc', e)
  {
    hide *;
    if pc.FindFree? || pc.OwnSetStatus? {
      EffectTake(pc, st, st', pc', e);
    } else {
      EffectGive(pc, st, st', pc', e);
    }
  }

  lemma EffectFlush(pc: PC, st: Status, st': Status, pc': PC, e: EntryNo)
    requires FlushFlagStep(pc, st, st', pc', e)
    ensures Effect(pc, st, st', pc', e)
  {
  }

  /** Agent h is not on the entry: only the targets matter. */
  lemma PairElsewhere(g: Agent, h: Agent, st: Status, st': Status, pc': PC, e: EntryNo)
    requires PairOk(g, h) && PairOk(h, g) && Effect(g.pc, st, st', pc', e) && EntryOf(h.pc) != Some(e)
    ensures PairOk(g.(pc := pc'), h) && PairOk(h, g.(pc := pc'))
  {
    hide HoldsClaim, HoldsRef, GivingOut, TargetOf, EntryOf, Compatible;
    GivingTarget(h.pc);
    GivingTarget(pc');
  }

  lemma GivingTarget(pc: PC)
    ensures GivingOut(pc) ==> TargetOf(pc).Some?
  {
  }

  // ------------------------------------------------ the agent itself, the entry

  ghost predicate SelfBefore(s: State, k: nat, e: EntryNo) {
    && WellFormed(s) && k < |s.agents| && e < |s.entries| && AgentOk(s, s.agents[k]) && TargetOk(s, s.agents[k].pc)
    && EntryOk(s, e) && (forall a :: 0 <= a < |s.lookup| && s.lookup[a] == Some(e) ==> PageOk(s, a))
  }

  /** The flags and tables still suit the agent. */
  ghost predicate SelfAfter(s: State, k: nat, pc: PC) {
    WellFormed(s) && k < |s.agents| && AgentOk(s, s.agents[k]) && TargetOk(s, pc)
  }

  /** The flags still suit the entry and the page it holds. */
  ghost predicate TablesAfter(s: State, e: EntryNo) {
    && WellFormed(s) && e < |s.entries| && EntryOk(s, e)
    && (forall a :: 0 <= a < |s.lookup| && s.lookup[a] == Some(e) ==> PageOk(s, a))
  }

  lemma SelfClaim(s: State, k: nat, e: EntryNo, st': Status, pc': PC)
    requires SelfBefore(s, k, e) && WellFormed(Flagged(s, k, e, st', pc'))
    requires ClaimStep(s.agents[k].pc, s.entries[e].status, st', pc', e)
    ensures SelfAfter(Flagged(s, k, e, st', pc'), k, pc')
  {
    hide PageOk;
  }

  lemma SelfLock(s: State, k: nat, e: EntryNo, st': Status, pc': PC)
    requires SelfBefore(s, k, e) && WellFormed(Flagged(s, k, e, st', pc'))
    requires LockStep(s.agents[k].pc, s.entries[e].status, st', pc', e)
    ensures SelfAfter(Flagged(s, k, e, st', pc'), k, pc')
  {
    hide PageOk;
  }

  lemma SelfFind(s: State, k: nat, e: EntryNo, st': Status, pc': PC)
    requires SelfBefore(s, k, e) && WellFormed(Flagged(s, k, e, st', pc')) && s.agents[k].pc.FindFree?
    requires OwnStep(s.agents[k].pc, s.entries[e].status, st', pc', e)
    ensures SelfAfter(Flagged(s, k, e, st', pc'), k, pc')
  {
    hide PageOk;
  }

  lemma SelfSet(s: State, k: nat, e: EntryNo, st': Status, pc': PC)
    requires SelfBefore(s, k, e) && WellFormed(Flagged(s, k, e, st', pc')) && s.agents[k].pc.OwnSetStatus?
    requires OwnStep(s.agents[k].pc, s.entries[e].status, st', pc', e)
    ensures SelfAfter(Flagged(s, k, e, st', pc'), k, pc')
  {
    hide PageOk;
  }

  lemma SelfGive(s: State, k: nat, e: EntryNo, st': Status, pc': PC)
    requires SelfBefore(s, k, e) && WellFormed(Flagged(s, k, e, st', pc'))
    requires !s.agents[k].pc.OwnSetStatus? && !s.agents[k].pc.FindFree?
    requires OwnStep(s.agents[k].pc, s.entries[e].status, st', pc', e)
    ensures SelfAfter(Flagged(s, k, e, st', pc'), k, pc')
  {
    hide PageOk;
  }

  lemma SelfOwn(s: State, k: nat, e: EntryNo, st': Status, pc': PC)
    requires SelfBefore(s, k, e) && WellFormed(Flagged(s, k, e, st', pc'))
    requires OwnStep(s.agents[k].pc, s.entries[e].status, st', pc', e)
    ensures SelfAfter(Flagged(s, k, e, st', pc'), k, pc')
  {
    hide PageOk, OwnStep, AgentOk, TargetOk, EntryOk, Flagged, SelfAfter;
    if s.agents[k].pc.FindFree? {
      SelfFind(s, k, e, st', pc');
    } else if s.agents[k].pc.OwnSetStatus? {
      SelfSet(s, k, e, st', pc');
    } else {
      SelfGive(s, k, e, st', pc');
    }
  }

  lemma SelfFlush(s: State, k: nat, e: EntryNo, st': Status, pc': PC)
    requires SelfBefore(s, k, e) && WellFormed(Flagged(s, k, e, st', pc'))
    requires FlushFlagStep(s.agents[k].pc, s.entries[e].status, st', pc', e)
    ensures SelfAfter(Flagged(s, k, e, st', pc'), k, pc')
  {
    hide PageOk;
  }

  lemma TablesClaim(s: State, k: nat, e: EntryNo, st': Status, pc': PC)
    requires SelfBefore(s, k, e) && WellFormed(Flagged(s, k, e, st', pc'))
    requires ClaimStep(s.agents[k].pc, s.entries[e].status, st', pc', e)
    ensures TablesAfter(Flagged(s, k, e, st', pc'), e)
  {
    hide MapOk, TargetOk, AgentFormed;
  }

  lemma TablesLock(s: State, k: nat, e: EntryNo, st': Status, pc': PC)
    requires SelfBefore(s, k, e) && WellFormed(Flagged(s, k, e, st', pc'))
    requires LockStep(s.agents[k].pc, s.entries[e].status, st', pc', e)
    ensures TablesAfter(Flagged(s, k, e, st', pc'), e)
  {
    hide TargetOk, AgentFormed;
  }

  lemma TablesOwn(s: State, k: nat, e: EntryNo, st': Status, pc': PC)
    requires SelfBefore(s, k, e) && WellFormed(Flagged(s, k, e, st', pc'))
    requires OwnStep(s.agents[k].pc, s.entries[e].status, st', pc', e)
    ensures TablesAfter(Flagged(s, k, e, st', pc'), e)
  {
    hide TargetOk, AgentFormed;
  }

  lemma TablesFlush(s: State, k: nat, e: EntryNo, st': Status, pc': PC)
    requires SelfBefore(s, k, e) && WellFormed(Flagged(s, k, e, st', pc'))
    requires FlushFlagStep(s.agents[k].pc, s.entries[e].status, st', pc', e)
    ensures TablesAfter(Flagged(s, k, e, st', pc'), e)
  {
    hide TargetOk, AgentFormed;
  }

  lemma ClaimHeldAfter(s: State, k: nat, e: EntryNo, st': Status, pc': PC)
    requires k < |s.agents| && e < |s.entries| && ClaimHeld(s, e)
    requires Effect(s.agents[k].pc, s.entries[e].status, st', pc', e)
    ensures ClaimHeld(Flagged(s, k, e, st', pc'), e)
  {
    hide HoldsClaim, EntryOf, TargetOf, GivingOut, HoldsRef;
    var s' := Flagged(s, k, e, st', pc');
    if st'.claimed {
      if HoldsClaim(pc') && EntryOf(pc') == Some(e) {
        assert s'.agents[k].pc == pc';
      } else {
        var j :| 0 <= j < |s.agents| && HoldsClaim(s.agents[j].pc) && EntryOf(s.agents[j].pc) == Some(e);
        assert s'.agents[j] == s.agents[j];
      }
    }
  }

  // --------------------------------------------------------------- all of it

  lemma Effects(pc: PC, st: Status, st': Status, pc': PC, e: EntryNo)
    requires FlagStep(pc, st, st', pc', e)
    ensures Effect(pc, st, st', pc', e)
  {
    hide ClaimStep, LockStep, OwnStep, FlushFlagStep, Effect;
    if ClaimStep(pc, st, st', pc', e) {
      EffectClaim(pc, st, st', pc', e);
    } else if LockStep(pc, st, st', pc', e) {
      EffectLock(pc, st, st', pc', e);
    } else if OwnStep(pc, st, st', pc', e) {
      EffectOwn(pc, st, st', pc', e);
    } else {
      EffectFlush(pc, st, st', pc', e);
    }
  }

  lemma Bears(g: Agent, h: Agent, st: Status, st': Status, pc': PC, e: EntryNo)
    requires Beside(g, h, st, e) && FlagStep(g.pc, st, st', pc', e)
    ensures StatusOk(h.pc, st') && (EvictHolding(h.pc) ==> st'.free == st.free)
    ensures PairOk(g.(pc := pc'), h) && PairOk(h, g.(pc := pc'))
  {
    hide ClaimStep, LockStep, OwnStep, FlushFlagStep, Beside, StatusOk, PairOk, EvictHolding;
    if ClaimStep(g.pc, st, st', pc', e) {
      BearsClaim(g, h, st, st', pc', e);
    } else if LockStep(g.pc, st, st', pc', e) {
      BearsLock(g, h, st, st', pc', e);
    } else if OwnStep(g.pc, st, st', pc', e) {
      BearsOwn(g, h, st, st', pc', e);
    } else {
      BearsFlush(g, h, st, st', pc', e);
    }
  }

  lemma SelfAndTables(s: State, k: nat, e: EntryNo, st': Status, pc': PC)
    requires k < |s.agents| && e < |s.entries| && SelfBefore(s, k, e) && WellFormed(Flagged(s, k, e, st', pc'))
    requires FlagStep(s.agents[k].pc, s.entries[e].status, st', pc', e)
    ensures SelfAfter(Flagged(s, k, e, st', pc'), k, pc') && TablesAfter(Flagged(s, k, e, st', pc'), e)
  {
    hide ClaimStep, LockStep, OwnStep, FlushFlagStep, SelfBefore, SelfAfter, TablesAfter, Flagged, WellFormed;
    var pc, st := s.agents[k].pc, s.entries[e].status;
    if ClaimStep(pc, st, st', pc', e) {
      SelfClaim(s, k, e, st', pc');
      TablesClaim(s, k, e, st', pc');
    } else if LockStep(pc, st, st', pc', e) {
      SelfLock(s, k, e, st', pc');
      TablesLock(s, k, e, st', pc');
    } else if OwnStep(pc, st, st', pc', e) {
      SelfOwn(s, k, e, st', pc');
      TablesOwn(s, k, e, st', pc');
    } else {
      SelfFlush(s, k, e, st', pc');
      TablesFlush(s, k, e, st', pc');
    }
  }

  /** An agent at the same entry as another. */
  lemma IsBeside(s: State, j: nat, k: nat, e: EntryNo)
    requires Inv(s) && j < |s.agents| && k < |s.agents| && j != k && e < |s.entries|
    requires EntryOf(s.agents[j].pc) == Some(e) && (EntryOf(s.agents[k].pc).None? || EntryOf(s.agents[k].pc) == Some(e))
    ensures Beside(s.agents[k], s.agents[j], s.entries[e].status, e)
  {
    hide Inv, StatusOk, PairOk;
    Neighbour(s, j, k);
    Neighbour(s, k, j);
  }

  /** Every step that changes flags keeps the invariant. */
  lemma FlagStepKeeps(s: State, k: nat, e: EntryNo, st': Status, pc': PC)
    requires Inv(s) && k < |s.agents| && e < |s.entries| && AgentFormed(s, s.agents[k].(pc := pc'))
    requires FlagStep(s.agents[k].pc, s.entries[e].status, st', pc', e)
    ensures Inv(Flagged(s, k, e, st', pc'))
  {
    hide Inv, FlagStep, StatusOk, PairOk, MapOk, HoldsClaim, HoldsRef, EvictHolding, EntryOf, Beside, TargetOf;
    hide GivingOut, EntryOk, PageOk,
         ClaimHeld;
    AgentFacts(s, k);
    TableFacts(s, e);
    var s' := Flagged(s, k, e, st', pc');
    FlaggedFormed(s, k, e, st', pc');
    Effects(s.agents[k].pc, s.entries[e].status, st', pc', e);
    forall j | 0 <= j < |s.agents| && j != k
      ensures EntryOf(s.agents[j].pc) == Some(e) ==> StatusOk(s.agents[j].pc, st')
      ensures EntryOf(s.agents[j].pc) == Some(e) && EvictHolding(s.agents[j].pc) ==>
        st'.free == s.entries[e].status.free
      ensures PairOk(s'.agents[j], s'.agents[k]) && PairOk(s'.agents[k], s'.agents[j])
    {
      Neighbour(s, j, k);
      if EntryOf(s.agents[j].pc) == Some(e) {
        IsBeside(s, j, k, e);
        Bears(s.agents[k], s.agents[j], s.entries[e].status, st', pc', e);
      } else {
        PairElsewhere(s.agents[k], s.agents[j], s.entries[e].status, st', pc', e);
      }
    }
    SelfAndTables(s, k, e, st', pc');
    ClaimHeldAfter(s, k, e, st', pc');
    StatusStep(s, k, e, st', pc');
  }
}
