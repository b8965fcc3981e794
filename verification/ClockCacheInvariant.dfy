/** What every step of the clock cache keeps, for any number of agents (src/clockcache.c). */
module ClockCacheInvariant {
  import opened DataModel
  import opened ClockCache

  // ------------------------------------------------- what an agent holds

  /** The agent's reference is counted in its stripe. */
  predicate HoldsRef(pc: PC) {
    && !pc.Idle? && !pc.Lookup? && !pc.TestLock? && !pc.IncRef? && !pc.FindFree? && !pc.OwnInc? && !pc.AbortFree?
    && !pc.EvictClear? && !pc.EvictQuick? && !pc.EvictTestLock? && !pc.EvictInc? && !pc.FlushPick? && !Flushing(pc)
  }

  /** The agent set CC_CLAIMED. */
  predicate HoldsClaim(pc: PC) {
    || pc.Claimed? || HoldsLock(pc)
    || pc.EvictTestLoading? || pc.EvictLock? || pc.EvictUnclaim?
  }

  /** The agent set CC_WRITELOCKED. */
  predicate HoldsLock(pc: PC) {
    || pc.WaitFlush? || pc.CheckRefs? || pc.Writing?
    || pc.OwnInc? || pc.OwnSetStatus? || pc.AllocSetAddr? || pc.AllocMap?
    || pc.EvictTestFlush? || pc.EvictCheckRefs? || pc.EvictUnlock? || EvictLocked(pc)
  }

  /** The evictor's write lock is complete. */
  predicate EvictLocked(pc: PC) {
    pc.EvictRecheck? || EvictSure(pc)
  }

  /** The evictor has found the entry evictable. */
  predicate EvictSure(pc: PC) {
    pc.EvictUnmap? || pc.EvictClearAddr? || pc.EvictFree?
  }

  /** The agent saw no write lock after taking its reference. */
  predicate Passed(pc: PC) {
    pc.SetAccessed? || pc.CheckAddr? || Holds(pc)
  }

  /** The agent's read lock is validated: the entry was found to hold the page wanted. */
  predicate Holds(pc: PC) {
    pc.WaitLoad? || HoldsLoaded(pc)
  }

  predicate HoldsLoaded(pc: PC) {
    pc.Reading? || pc.Claimed? || pc.WaitFlush? || pc.CheckRefs? || pc.Writing?
  }

  /** clockcache_get_write or clockcache_try_get_write has returned, or the page is new. */
  predicate WriteGranted(pc: PC) {
    pc.Writing? || EvictLocked(pc)
  }

  /** How many stripes the agent has seen free of other agents' references. */
  function Checked(pc: PC): nat {
    if pc.CheckRefs? || pc.EvictCheckRefs? then pc.i
    else if (pc.Writing? && !pc.brandNew) || EvictLocked(pc) then STRIPES
    else 0
  }

  /** The entry the agent owns has no page yet. */
  predicate Blank(pc: PC) {
    pc.OwnInc? || pc.OwnSetStatus? || pc.LoadMap? || pc.AbortDec? || pc.AbortFree? || pc.AllocSetAddr?
  }

  predicate Flushing(pc: PC) {
    pc.FlushAddr? || pc.FlushWrite? || pc.FlushSetClean? || pc.FlushDone?
  }

  /** The agent has seen that no write-back runs, behind its own write lock. */
  predicate SawNoFlush(pc: PC) {
    pc.CheckRefs? || pc.Writing? || pc.EvictCheckRefs? || EvictLocked(pc)
  }

  /** The agent has a claim on an entry that is not being loaded. */
  predicate ClaimsLoaded(pc: PC) {
    pc.EvictLock? || EvictHolding(pc) || EvictSure(pc)
  }

  /** The evictor has set its write lock and not touched the page. */
  predicate EvictHolding(pc: PC) {
    pc.EvictTestFlush? || pc.EvictCheckRefs? || pc.EvictRecheck? || pc.EvictUnlock? || pc.EvictUnmap?
  }

  // --------------------------------------------------- agent against state

  predicate Maps(s: State, a: Addr, e: EntryNo)
    requires WellFormed(s) && e < |s.entries| && a < |s.lookup|
  {
    s.lookup[a] == Some(e) && s.entries[e].diskAddr == Some(a)
  }

  predicate Unmapped(s: State, e: EntryNo) {
    forall a :: 0 <= a < |s.lookup| ==> s.lookup[a] != Some(e)
  }

  /** What the flags of its entry must show an agent. */
  predicate StatusOk(pc: PC, st: Status) {
    && (HoldsClaim(pc) ==> st.claimed)
    && (HoldsLock(pc) ==> st.locked)
    && (HoldsClaim(pc) && !HoldsLock(pc) ==> !st.locked)
    && (Owns(pc) ==> !st.free && !st.writeback && st.loading == Loading(pc))
    && (Loading(pc) ==> !st.locked)
    && (pc.AllocSetAddr? || pc.AllocMap? ==> !st.clean)
    && (Holds(pc) ==> !st.free)
    && (HoldsLoaded(pc) || ClaimsLoaded(pc) ==> !st.loading)
    && (SawNoFlush(pc) ==> !st.writeback)
    && (pc.Writing? && pc.dirty ==> !st.clean)
    && (EvictSure(pc) ==> !st.free && st.clean)
    && (Flushing(pc) ==> st.writeback && !st.free && !st.loading && (!pc.FlushDone? ==> !st.clean))
  }

  /** What the tables and contents must show an agent. */
  ghost predicate MapOk(s: State, pc: PC)
    requires WellFormed(s) && EntryOf(pc).Some? && EntryOf(pc).value < |s.entries|
    requires TargetOf(pc).Some? ==> TargetOf(pc).value < |s.lookup|
  {
    var en := s.entries[EntryOf(pc).value];
    && (EvictHolding(pc) && !en.status.free ==> en.diskAddr.Some? && s.lookup[en.diskAddr.value] == EntryOf(pc))
    && (Owns(pc) ==> OwnerOk(s, pc))
    && (Holds(pc) ==> Maps(s, pc.a, pc.e))
    && (pc.EvictClearAddr? || pc.EvictFree? ==> Unmapped(s, pc.e))
    && (pc.EvictFree? ==> en.diskAddr == None)
    && (Flushing(pc) ==> FlushOk(s, pc))
  }

  /** The owner of a fresh entry. */
  ghost predicate OwnerOk(s: State, pc: PC)
    requires WellFormed(s) && Owns(pc) && pc.e < |s.entries| && pc.a < |s.lookup|
  {
    var en := s.entries[pc.e];
    && (Blank(pc) ==> en.diskAddr == None && Unmapped(s, pc.e))
    && (pc.LoadSetAddr? ==> en.diskAddr == None && s.lookup[pc.a] == Some(pc.e))
    && (pc.LoadRead? || pc.LoadDone? ==> Maps(s, pc.a, pc.e))
    && (pc.LoadDone? ==> en.data == s.last[pc.a])
    && (pc.AllocMap? ==> en.diskAddr == Some(pc.a) && Unmapped(s, pc.e))
  }

  ghost predicate FlushOk(s: State, pc: PC)
    requires WellFormed(s) && Flushing(pc) && pc.e < |s.entries|
    requires TargetOf(pc).Some? ==> TargetOf(pc).value < |s.lookup|
  {
    var en := s.entries[pc.e];
    && en.diskAddr.Some? && s.lookup[en.diskAddr.value] == Some(pc.e)
    && (!pc.FlushAddr? ==> en.diskAddr == Some(pc.a))
    && (pc.FlushSetClean? ==> s.disk[pc.a] == s.last[pc.a])
  }

  ghost predicate AgentOk(s: State, g: Agent)
    requires WellFormed(s) && AgentFormed(s, g)
  {
    EntryOf(g.pc).Some? ==> StatusOk(g.pc, s.entries[EntryOf(g.pc).value].status) && MapOk(s, g.pc)
  }

  /** Every agent after a page works on one that has been given out, except those giving it out. */
  predicate TargetOk(s: State, pc: PC) {
    TargetOf(pc).Some? ==> (TargetOf(pc).value in s.issued <==> !GivingOut(pc))
  }

  predicate GivingOut(pc: PC) {
    || (pc.FindFree? && pc.alloc) || (pc.OwnInc? && pc.alloc) || (pc.OwnSetStatus? && pc.alloc)
    || pc.AllocSetAddr? || pc.AllocMap?
  }

  // ------------------------------------------------------ agent against agent

  predicate PairOk(g: Agent, h: Agent) {
    && (GivingOut(g.pc) ==> TargetOf(h.pc) != TargetOf(g.pc))
    && (EntryOf(g.pc).Some? && EntryOf(g.pc) == EntryOf(h.pc) ==> Compatible(g, h))
  }

  /** Two agents on one entry. */
  predicate Compatible(g: Agent, h: Agent) {
    && !(HoldsClaim(g.pc) && HoldsClaim(h.pc))
    && !(Owns(g.pc) && Owns(h.pc))
    && !(Flushing(g.pc) && Flushing(h.pc))
    && (Passed(h.pc) ==> h.stripe >= Checked(g.pc))
    && (g.pc.Writing? && g.pc.brandNew && Passed(h.pc) ==> h.pc.a != g.pc.a)
  }

  // --------------------------------------------------------- entries and pages

  ghost predicate EntryOk(s: State, e: EntryNo)
    requires WellFormed(s) && e < |s.entries|
  {
    var en := s.entries[e];
    && (en.status.free ==> en.diskAddr == None && Unmapped(s, e) && !en.status.loading && !en.status.writeback)
    && (en.status.locked ==> en.status.claimed)
    && (!en.status.free && !en.status.loading && !en.status.locked ==> en.diskAddr.Some?)
    && (en.diskAddr.Some? && !en.status.locked ==> s.lookup[en.diskAddr.value] == Some(e))
  }

  /** Coherence of one page. */
  ghost predicate PageOk(s: State, a: Addr)
    requires WellFormed(s) && a < |s.lookup|
  {
    match s.lookup[a]
    case None => a in s.issued ==> s.disk[a] == s.last[a]
    case Some(e) =>
      var en := s.entries[e];
      && a in s.issued
      && !en.status.free
      && (en.diskAddr == Some(a) || (en.diskAddr == None && en.status.loading))
      && (en.status.loading || en.status.clean ==> s.disk[a] == s.last[a])
      && (!en.status.loading ==> en.data == s.last[a])
  }

  /** An entry serves one page at most. */
  ghost predicate OneToOne(s: State) {
    forall a, b :: 0 <= a < |s.lookup| && 0 <= b < |s.lookup| && s.lookup[a].Some? && s.lookup[a] == s.lookup[b] ==>
      a == b
  }

  // ----------------------------------------------------------------- counting

  predicate CountsFor(g: Agent, e: EntryNo, i: nat) {
    HoldsRef(g.pc) && EntryOf(g.pc) == Some(e) && g.stripe == i
  }

  function RefCount(agents: seq<Agent>, e: EntryNo, i: nat): nat {
    if |agents| == 0 then 0
    else RefCount(agents[..|agents| - 1], e, i) + if CountsFor(agents[|agents| - 1], e, i) then 1 else 0
  }

  ghost predicate RefsOk(s: State)
    requires WellFormed(s)
  {
    forall e, i :: 0 <= e < |s.entries| && 0 <= i < STRIPES ==> s.entries[e].refs[i] == RefCount(s.agents, e, i)
  }

  /** Every claim flag that no one is about to lose belongs to an agent. */
  ghost predicate ClaimHeld(s: State, e: EntryNo)
    requires e < |s.entries|
  {
    s.entries[e].status.claimed ==>
      exists k :: 0 <= k < |s.agents| && HoldsClaim(s.agents[k].pc) && EntryOf(s.agents[k].pc) == Some(e)
  }

  ghost predicate Inv(s: State) {
    && WellFormed(s)
    && (forall a :: a in s.issued ==> a < |s.lookup|)
    && (forall k :: 0 <= k < |s.agents| ==> AgentOk(s, s.agents[k]) && TargetOk(s, s.agents[k].pc))
    && (forall j, k :: 0 <= j < |s.agents| && 0 <= k < |s.agents| && j != k ==> PairOk(s.agents[j], s.agents[k]))
    && (forall e :: 0 <= e < |s.entries| ==> EntryOk(s, e) && ClaimHeld(s, e))
    && (forall a :: 0 <= a < |s.lookup| ==> PageOk(s, a))
    && OneToOne(s)
    && RefsOk(s)
  }

  // ------------------------------------------------------ counting lemmas

  lemma {:induction false} CountUpdate(agents: seq<Agent>, k: nat, g: Agent, e: EntryNo, i: nat)
    requires k < |agents|
    ensures RefCount(agents[k := g], e, i) + (if CountsFor(agents[k], e, i) then 1 else 0)
         == RefCount(agents, e, i) + (if CountsFor(g, e, i) then 1 else 0)
  {
    var n := |agents| - 1;
    if k < n {
      assert agents[k := g][..n] == agents[..n][k := g];
      CountUpdate(agents[..n], k, g, e, i);
    } else {
      assert agents[k := g][..n] == agents[..n];
    }
  }

  lemma {:induction false} CountHolder(agents: seq<Agent>, k: nat, e: EntryNo, i: nat)
    requires k < |agents| && CountsFor(agents[k], e, i)
    ensures RefCount(agents, e, i) >= 1
  {
    var n := |agents| - 1;
    if k < n {
      CountHolder(agents[..n], k, e, i);
    }
  }

  lemma {:induction false} CountTwo(agents: seq<Agent>, j: nat, k: nat, e: EntryNo, i: nat)
    requires j < k < |agents| && CountsFor(agents[j], e, i) && CountsFor(agents[k], e, i)
    ensures RefCount(agents, e, i) >= 2
  {
    var n := |agents| - 1;
    if k < n {
      CountTwo(agents[..n], j, k, e, i);
    } else {
      CountHolder(agents[..n], j, e, i);
    }
  }

  // ------------------------------------------------------------ assembling

  ghost predicate OthersOk(s: State, k: nat)
    requires WellFormed(s)
  {
    forall j :: 0 <= j < |s.agents| && j != k ==> AgentOk(s, s.agents[j]) && TargetOk(s, s.agents[j].pc)
  }

  ghost predicate PairsOk(s: State, k: nat)
    requires k < |s.agents|
  {
    forall j :: 0 <= j < |s.agents| && j != k ==> PairOk(s.agents[j], s.agents[k]) && PairOk(s.agents[k], s.agents[j])
  }

  ghost predicate TablesOk(s: State)
    requires WellFormed(s)
  {
    && (forall a :: a in s.issued ==> a < |s.lookup|)
    && (forall e :: 0 <= e < |s.entries| ==> EntryOk(s, e) && ClaimHeld(s, e))
    && (forall a :: 0 <= a < |s.lookup| ==> PageOk(s, a))
    && OneToOne(s)
    && RefsOk(s)
  }

  predicate OnlyMoved(s: State, k: nat, s': State) {
    k < |s.agents| == |s'.agents| && s'.agents == s.agents[k := s'.agents[k]]
    && s'.agents[k].stripe == s.agents[k].stripe && s'.agents[k].thread == s.agents[k].thread
  }

  /** Only agent k has moved: the invariant in parts. */
  lemma Compose(s: State, k: nat, s': State)
    requires Inv(s) && WellFormed(s') && OnlyMoved(s, k, s')
    requires OthersOk(s', k) && AgentOk(s', s'.agents[k]) && TargetOk(s', s'.agents[k].pc) && PairsOk(s', k)
    requires TablesOk(s')
    ensures Inv(s')
  {
    hide AgentOk, TargetOk, PairOk, EntryOk, ClaimHeld, PageOk, OneToOne, RefsOk;
  }

  /** References of other entries and stripes stay as they are. */
  lemma RefsKept(s: State, k: nat, s': State)
    requires Inv(s) && WellFormed(s') && OnlyMoved(s, k, s')
    requires |s'.entries| == |s.entries| && forall e :: 0 <= e < |s.entries| ==> s'.entries[e].refs == s.entries[e].refs
    requires HoldsRef(s'.agents[k].pc) == HoldsRef(s.agents[k].pc)
    requires HoldsRef(s.agents[k].pc) ==> EntryOf(s'.agents[k].pc) == EntryOf(s.agents[k].pc)
    ensures RefsOk(s')
  {
    hide AgentOk, TargetOk, PairOk, EntryOk, ClaimHeld, PageOk, OneToOne, HoldsRef, EntryOf;
    forall e, i | 0 <= e < |s.entries| && 0 <= i < STRIPES ensures s'.entries[e].refs[i] == RefCount(s'.agents, e, i) {
      CountUpdate(s.agents, k, s'.agents[k], e, i);
    }
  }

  // -------------------------------------------- steps that change no table

  /** Nothing changed but reference counts and access bits. */
  ghost predicate SameView(s: State, s': State) {
    && s'.lookup == s.lookup && s'.disk == s.disk && s'.last == s.last && s'.issued == s.issued
    && |s'.entries| == |s.entries|
    && forall e :: 0 <= e < |s.entries| ==> SameEntry(s.entries[e], s'.entries[e])
  }

  predicate SameEntry(en: Entry, en': Entry) {
    && en'.diskAddr == en.diskAddr && en'.data == en.data
    && en'.status == en.status.(accessed := en'.status.accessed)
  }

  lemma SameAgentOk(s: State, s': State, g: Agent)
    requires WellFormed(s) && WellFormed(s') && SameView(s, s') && AgentFormed(s, g) && AgentFormed(s', g)
    ensures AgentOk(s, g) == AgentOk(s', g)
  {
    if EntryOf(g.pc).Some? {
      assert SameEntry(s.entries[EntryOf(g.pc).value], s'.entries[EntryOf(g.pc).value]);
    }
  }

  lemma SameEntryOk(s: State, s': State, e: EntryNo)
    requires WellFormed(s) && WellFormed(s') && SameView(s, s') && e < |s.entries|
    ensures EntryOk(s, e) == EntryOk(s', e)
  {
    assert SameEntry(s.entries[e], s'.entries[e]);
  }

  lemma SamePageOk(s: State, s': State, a: Addr)
    requires WellFormed(s) && WellFormed(s') && SameView(s, s') && a < |s.lookup|
    ensures PageOk(s, a) == PageOk(s', a)
  {
    if s.lookup[a].Some? {
      assert SameEntry(s.entries[s.lookup[a].value], s'.entries[s.lookup[a].value]);
    }
  }

  /** A step that leaves the tables alone and does not end a claim. */
  lemma ViewStep(s: State, k: nat, s': State)
    requires Inv(s) && WellFormed(s') && OnlyMoved(s, k, s') && SameView(s, s')
    requires AgentOk(s', s'.agents[k]) && TargetOk(s', s'.agents[k].pc) && PairsOk(s', k) && RefsOk(s')
    requires HoldsClaim(s.agents[k].pc) ==>
      HoldsClaim(s'.agents[k].pc) && EntryOf(s'.agents[k].pc) == EntryOf(s.agents[k].pc)
    ensures Inv(s')
  {
    hide AgentOk, TargetOk, PairOk, EntryOk, PageOk, RefsOk, HoldsClaim, EntryOf, AgentFormed;
    forall j | 0 <= j < |s'.agents| && j != k ensures AgentOk(s', s'.agents[j]) && TargetOk(s', s'.agents[j].pc) {
      assert AgentFormed(s, s.agents[j]) && AgentFormed(s', s'.agents[j]);
      SameAgentOk(s, s', s.agents[j]);
      SameTarget(s, s', s.agents[j].pc);
    }
    forall e | 0 <= e < |s'.entries| ensures EntryOk(s', e) && ClaimHeld(s', e) {
      SameEntryOk(s, s', e);
      SameClaim(s, k, s', e);
    }
    forall a | 0 <= a < |s'.lookup| ensures PageOk(s', a) {
      SamePageOk(s, s', a);
    }
    Compose(s, k, s');
  }

  lemma SameTarget(s: State, s': State, pc: PC)
    requires s'.issued == s.issued
    ensures TargetOk(s, pc) == TargetOk(s', pc)
  {
  }

  lemma SameClaim(s: State, k: nat, s': State, e: EntryNo)
    requires SameView(s, s') && OnlyMoved(s, k, s') && e < |s.entries|
    requires HoldsClaim(s.agents[k].pc) ==>
      HoldsClaim(s'.agents[k].pc) && EntryOf(s'.agents[k].pc) == EntryOf(s.agents[k].pc)
    requires ClaimHeld(s, e)
    ensures ClaimHeld(s', e)
  {
    hide HoldsClaim, EntryOf;
    assert SameEntry(s.entries[e], s'.entries[e]);
    if s.entries[e].status.claimed {
      var j :| 0 <= j < |s.agents| && HoldsClaim(s.agents[j].pc) && EntryOf(s.agents[j].pc) == Some(e);
      assert HoldsClaim(s'.agents[j].pc) && EntryOf(s'.agents[j].pc) == Some(e);
    }
  }

  /** pc' has no more to lose in a pair than pc has. */
  predicate NoMore(pc: PC, pc': PC) {
    && (TargetOf(pc').Some? ==> TargetOf(pc') == TargetOf(pc))
    && (GivingOut(pc') ==> GivingOut(pc))
    && (HasRole(pc') ==> EntryOf(pc') == EntryOf(pc))
    && (HoldsClaim(pc') ==> HoldsClaim(pc)) && (Owns(pc') ==> Owns(pc)) && (Flushing(pc') ==> Flushing(pc))
    && (Passed(pc') ==> Passed(pc)) && Checked(pc') <= Checked(pc)
    && (pc'.Writing? && pc'.brandNew ==> pc.Writing? && pc.brandNew)
  }

  predicate HasRole(pc: PC) {
    HoldsClaim(pc) || Owns(pc) || Flushing(pc) || Passed(pc)
  }

  lemma PairNoMore(g: Agent, h: Agent, g': Agent)
    requires PairOk(g, h) && PairOk(h, g) && g'.stripe == g.stripe && NoMore(g.pc, g'.pc)
    ensures PairOk(g', h) && PairOk(h, g')
  {
  }

  lemma PairsNoMore(s: State, k: nat, s': State)
    requires Inv(s) && OnlyMoved(s, k, s')
    requires NoMore(s.agents[k].pc, s'.agents[k].pc)
    ensures PairsOk(s', k)
  {
    hide PairOk, NoMore, AgentOk, TargetOk, EntryOk, PageOk, RefsOk;
    forall j | 0 <= j < |s'.agents| && j != k
      ensures PairOk(s'.agents[j], s'.agents[k]) && PairOk(s'.agents[k], s'.agents[j])
    {
      PairNoMore(s.agents[k], s.agents[j], s'.agents[k]);
    }
  }
}
