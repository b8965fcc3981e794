/** Steps of the clock cache that test, count references or fail, and so give an agent nothing new. */
module ClockCacheQuiet {
  import opened DataModel
  import opened ClockCache
  import opened ClockCacheInvariant

  /** A step that changes at most access bits and reference counts and takes no role. */
  lemma QuietStep(s: State, k: nat, s': State)
    requires Inv(s) && WellFormed(s') && OnlyMoved(s, k, s') && SameView(s, s')
    requires NoMore(s.agents[k].pc, s'.agents[k].pc)
    requires HoldsClaim(s.agents[k].pc) ==>
      HoldsClaim(s'.agents[k].pc) && EntryOf(s'.agents[k].pc) == EntryOf(s.agents[k].pc)
    requires AgentOk(s', s'.agents[k]) && TargetOk(s', s'.agents[k].pc) && RefsOk(s')
    ensures Inv(s')
  {
    hide AgentOk, TargetOk, PairOk, EntryOk, ClaimHeld, PageOk, OneToOne, RefsOk, NoMore, HoldsClaim;
    PairsNoMore(s, k, s');
    ViewStep(s, k, s');
  }

  /** Moving on without touching anything. */
  lemma Moved(s: State, k: nat, pc': PC)
    requires Inv(s) && k < |s.agents| && AgentFormed(s, s.agents[k].(pc := pc'))
    requires HoldsRef(pc') == HoldsRef(s.agents[k].pc)
    requires HoldsRef(s.agents[k].pc) ==> EntryOf(pc') == EntryOf(s.agents[k].pc)
    ensures var s' := Move(s, k, pc');
      WellFormed(s') && OnlyMoved(s, k, s') && SameView(s, s') && RefsOk(s') && s'.agents[k].pc == pc'
  {
    hide AgentOk, TargetOk, PairOk, EntryOk, ClaimHeld, PageOk, OneToOne, RefsOk, HoldsRef, EntryOf;
    var s' := Move(s, k, pc');
    assert forall j :: 0 <= j < |s.agents| ==> AgentFormed(s, s.agents[j]);
    FormedElsewhere(s, s');
    RefsKept(s, k, s');
  }

  lemma FormedElsewhere(s: State, s': State)
    requires |s'.entries| == |s.entries| && |s'.lookup| == |s.lookup| && |s'.hands| == |s.hands|
    ensures forall g :: AgentFormed(s, g) == AgentFormed(s', g)
  {
  }

  /** Setting or clearing the access bit. */
  lemma Touched(s: State, k: nat, e: EntryNo, accessed: bool, pc': PC)
    requires Inv(s) && k < |s.agents| && AgentFormed(s, s.agents[k].(pc := pc')) && e < |s.entries|
    requires HoldsRef(pc') == HoldsRef(s.agents[k].pc)
    requires HoldsRef(s.agents[k].pc) ==> EntryOf(pc') == EntryOf(s.agents[k].pc)
    ensures var s' := Move(SetStatus(s, e, s.entries[e].status.(accessed := accessed)), k, pc');
      WellFormed(s') && OnlyMoved(s, k, s') && SameView(s, s') && RefsOk(s') && s'.agents[k].pc == pc'
  {
    hide AgentOk, TargetOk, PairOk, EntryOk, ClaimHeld, PageOk, OneToOne, RefsOk, HoldsRef, EntryOf;
    var s' := Move(SetStatus(s, e, s.entries[e].status.(accessed := accessed)), k, pc');
    FormedElsewhere(s, s');
    RefsKept(s, k, s');
  }

  /** Taking a reference. */
  lemma Counted(s: State, k: nat, e: EntryNo, pc': PC)
    requires Inv(s) && k < |s.agents| && AgentFormed(s, s.agents[k].(pc := pc')) && e < |s.entries|
    requires !HoldsRef(s.agents[k].pc) && HoldsRef(pc') && EntryOf(pc') == Some(e)
    ensures var s' := Move(Inc(s, e, s.agents[k].stripe), k, pc');
      WellFormed(s') && OnlyMoved(s, k, s') && SameView(s, s') && RefsOk(s') && s'.agents[k].pc == pc'
  {
    hide AgentOk, TargetOk, PairOk, EntryOk, ClaimHeld, PageOk, OneToOne, HoldsRef, EntryOf;
    var s' := Move(Inc(s, e, s.agents[k].stripe), k, pc');
    FormedElsewhere(s, s');
    forall d, i | 0 <= d < |s.entries| && 0 <= i < STRIPES ensures s'.entries[d].refs[i] == RefCount(s'.agents, d, i) {
      CountUpdate(s.agents, k, s'.agents[k], d, i);
    }
  }

  /** Releasing a reference: the counter was not zero. */
  lemma Uncounted(s: State, k: nat, e: EntryNo, pc': PC)
    requires Inv(s) && k < |s.agents| && AgentFormed(s, s.agents[k].(pc := pc')) && e < |s.entries|
    requires HoldsRef(s.agents[k].pc) && EntryOf(s.agents[k].pc) == Some(e) && !HoldsRef(pc')
    ensures s.entries[e].refs[s.agents[k].stripe] > 0
    ensures var s' := Move(Dec(s, e, s.agents[k].stripe), k, pc');
      WellFormed(s') && OnlyMoved(s, k, s') && SameView(s, s') && RefsOk(s') && s'.agents[k].pc == pc'
  {
    hide AgentOk, TargetOk, PairOk, EntryOk, ClaimHeld, PageOk, OneToOne, HoldsRef, EntryOf;
    var s' := Move(Dec(s, e, s.agents[k].stripe), k, pc');
    FormedElsewhere(s, s');
    CountHolder(s.agents, k, e, s.agents[k].stripe);
    forall d, i | 0 <= d < |s.entries| && 0 <= i < STRIPES ensures s'.entries[d].refs[i] == RefCount(s'.agents, d, i) {
      CountUpdate(s.agents, k, s'.agents[k], d, i);
    }
  }

  lemma AgentFacts(s: State, k: nat)
    requires Inv(s) && k < |s.agents|
    ensures WellFormed(s) && AgentFormed(s, s.agents[k]) && AgentOk(s, s.agents[k]) && TargetOk(s, s.agents[k].pc)
  {
  }

  /** A quiet step of an agent that afterwards holds no more than a reference. */
  lemma QuietPlain(s: State, k: nat, s': State)
    requires Inv(s) && WellFormed(s') && OnlyMoved(s, k, s') && SameView(s, s') && RefsOk(s')
    requires Plain(s'.agents[k].pc) && TargetOk(s', s'.agents[k].pc) && !HoldsClaim(s.agents[k].pc)
    requires TargetOf(s'.agents[k].pc).Some? ==> TargetOf(s'.agents[k].pc) == TargetOf(s.agents[k].pc)
    ensures Inv(s')
  {
    hide PairOk, EntryOk, ClaimHeld, PageOk, OneToOne, RefsOk, TargetOk, SameView;
    QuietStep(s, k, s');
  }

  /** No role at all. */
  predicate Plain(pc: PC) {
    !HasRole(pc) && !GivingOut(pc)
  }

  lemma MovePlain(s: State, k: nat, pc': PC)
    requires Inv(s) && k < |s.agents| && AgentFormed(s, s.agents[k].(pc := pc'))
    requires Plain(pc') && !HoldsClaim(s.agents[k].pc) && TargetOk(s, pc')
    requires TargetOf(pc').Some? ==> TargetOf(pc') == TargetOf(s.agents[k].pc)
    requires HoldsRef(pc') == HoldsRef(s.agents[k].pc)
    requires HoldsRef(s.agents[k].pc) ==> EntryOf(pc') == EntryOf(s.agents[k].pc)
    ensures Inv(Move(s, k, pc'))
  {
    hide Inv, PairOk, EntryOk, ClaimHeld, PageOk, OneToOne, RefsOk, AgentOk, WellFormed, HoldsRef, EntryOf, TargetOf;
    hide SameView;
    Moved(s, k, pc');
    SameTarget(s, Move(s, k, pc'), pc');
    QuietPlain(s, k, Move(s, k, pc'));
  }

  lemma IncPlain(s: State, k: nat, e: EntryNo, pc': PC)
    requires Inv(s) && k < |s.agents| && AgentFormed(s, s.agents[k].(pc := pc')) && e < |s.entries|
    requires |s.entries[e].refs| == STRIPES && s.agents[k].stripe < STRIPES
    requires Plain(pc') && !HoldsClaim(s.agents[k].pc) && TargetOk(s, pc')
    requires TargetOf(pc').Some? ==> TargetOf(pc') == TargetOf(s.agents[k].pc)
    requires !HoldsRef(s.agents[k].pc) && HoldsRef(pc') && EntryOf(pc') == Some(e)
    ensures Inv(Move(Inc(s, e, s.agents[k].stripe), k, pc'))
  {
    hide Inv, PairOk, EntryOk, ClaimHeld, PageOk, OneToOne, RefsOk, AgentOk, WellFormed, HoldsRef, EntryOf, TargetOf;
    hide SameView;
    Counted(s, k, e, pc');
    SameTarget(s, Move(Inc(s, e, s.agents[k].stripe), k, pc'), pc');
    QuietPlain(s, k, Move(Inc(s, e, s.agents[k].stripe), k, pc'));
  }

  lemma DecPlain(s: State, k: nat, e: EntryNo, pc': PC)
    requires Inv(s) && k < |s.agents| && AgentFormed(s, s.agents[k].(pc := pc')) && e < |s.entries|
    requires |s.entries[e].refs| == STRIPES && s.agents[k].stripe < STRIPES
    requires Plain(pc') && !HoldsClaim(s.agents[k].pc) && TargetOk(s, pc')
    requires TargetOf(pc').Some? ==> TargetOf(pc') == TargetOf(s.agents[k].pc)
    requires HoldsRef(s.agents[k].pc) && EntryOf(s.agents[k].pc) == Some(e) && !HoldsRef(pc')
    ensures Inv(Move(Dec(s, e, s.agents[k].stripe), k, pc'))
  {
    hide Inv, PairOk, EntryOk, ClaimHeld, PageOk, OneToOne, RefsOk, AgentOk, WellFormed, HoldsRef, EntryOf, TargetOf;
    hide SameView;
    Uncounted(s, k, e, pc');
    SameTarget(s, Move(Dec(s, e, s.agents[k].stripe), k, pc'), pc');
    QuietPlain(s, k, Move(Dec(s, e, s.agents[k].stripe), k, pc'));
  }

  /** Moving on with no more roles than before. */
  lemma MoveKept(s: State, k: nat, pc': PC)
    requires Inv(s) && k < |s.agents| && AgentFormed(s, s.agents[k].(pc := pc'))
    requires NoMore(s.agents[k].pc, pc') && TargetOk(s, pc')
    requires HoldsClaim(s.agents[k].pc) ==> HoldsClaim(pc')
    requires HoldsRef(pc') == HoldsRef(s.agents[k].pc) && EntryOf(pc') == EntryOf(s.agents[k].pc)
    requires AgentOk(s, s.agents[k].(pc := pc'))
    ensures Inv(Move(s, k, pc'))
  {
    hide Inv, PairOk, EntryOk, ClaimHeld, PageOk, OneToOne, RefsOk, AgentOk, WellFormed, HoldsRef, EntryOf, TargetOf,
         SameView, NoMore, HoldsClaim;
    AgentFacts(s, k);
    FormedElsewhere(s, Move(s, k, pc'));
    Moved(s, k, pc');
    SameTarget(s, Move(s, k, pc'), pc');
    SameAgentOk(s, Move(s, k, pc'), s.agents[k].(pc := pc'));
    QuietStep(s, k, Move(s, k, pc'));
  }

  lemma TouchKept(s: State, k: nat, e: EntryNo, accessed: bool, pc': PC)
    requires Inv(s) && k < |s.agents| && AgentFormed(s, s.agents[k].(pc := pc')) && e < |s.entries|
    requires NoMore(s.agents[k].pc, pc') && TargetOk(s, pc')
    requires HoldsClaim(s.agents[k].pc) ==> HoldsClaim(pc')
    requires HoldsRef(pc') == HoldsRef(s.agents[k].pc) && EntryOf(pc') == EntryOf(s.agents[k].pc)
    requires AgentOk(s, s.agents[k].(pc := pc'))
    ensures Inv(Move(SetStatus(s, e, s.entries[e].status.(accessed := accessed)), k, pc'))
  {
    hide Inv, PairOk, EntryOk, ClaimHeld, PageOk, OneToOne, RefsOk, AgentOk, WellFormed, HoldsRef, EntryOf, TargetOf,
         SameView, NoMore, HoldsClaim;
    var s' := Move(SetStatus(s, e, s.entries[e].status.(accessed := accessed)), k, pc');
    AgentFacts(s, k);
    FormedElsewhere(s, s');
    Touched(s, k, e, accessed, pc');
    SameTarget(s, s', pc');
    SameAgentOk(s, s', s.agents[k].(pc := pc'));
    QuietStep(s, k, s');
  }

  // ------------------------------------------------------------ gets

  lemma DoLookup(s: State, k: nat, s': State)
    requires Inv(s) && k < |s.agents| && s.agents[k].pc.Lookup? && GetStep(s, k, s')
    ensures Inv(s')
  {
    hide Inv, AgentOk, Move, Inc, Dec;
    AgentFacts(s, k);
    var pc := s.agents[k].pc;
    MovePlain(s, k, if s.lookup[pc.a].Some? then TestLock(pc.a, s.lookup[pc.a].value) else FindFree(pc.a, false));
  }

  lemma DoTestLock(s: State, k: nat, s': State)
    requires Inv(s) && k < |s.agents| && s.agents[k].pc.TestLock? && GetStep(s, k, s')
    ensures Inv(s')
  {
    hide Inv, AgentOk, Move, Inc, Dec;
    AgentFacts(s, k);
    var pc := s.agents[k].pc;
    MovePlain(s, k, if s.entries[pc.e].status.locked then pc else IncRef(pc.a, pc.e));
    MovePlain(s, k, Idle);
  }

  lemma DoIncRef(s: State, k: nat, s': State)
    requires Inv(s) && k < |s.agents| && s.agents[k].pc.IncRef? && GetStep(s, k, s')
    ensures Inv(s')
  {
    hide Inv, AgentOk, Move, Inc, Dec;
    AgentFacts(s, k);
    var pc := s.agents[k].pc;
    IncPlain(s, k, pc.e, TestFree(pc.a, pc.e));
  }

  lemma DoTestFree(s: State, k: nat, s': State)
    requires Inv(s) && k < |s.agents| && s.agents[k].pc.TestFree? && GetStep(s, k, s')
    ensures Inv(s')
  {
    hide Inv, AgentOk, Move, Inc, Dec;
    AgentFacts(s, k);
    var pc := s.agents[k].pc;
    MovePlain(s, k, TestLock2(pc.a, pc.e, s.entries[pc.e].status.free));
  }

  lemma DoDecRef(s: State, k: nat, s': State)
    requires Inv(s) && k < |s.agents| && s.agents[k].pc.DecRef? && GetStep(s, k, s')
    ensures Inv(s')
  {
    hide Inv, AgentOk, Move, Inc, Dec;
    AgentFacts(s, k);
    var pc := s.agents[k].pc;
    DecPlain(s, k, pc.e, if pc.free then Lookup(pc.a) else TestLock(pc.a, pc.e));
    DecPlain(s, k, pc.e, Idle);
  }

  lemma DoDecRefRetry(s: State, k: nat, s': State)
    requires Inv(s) && k < |s.agents| && s.agents[k].pc.DecRefRetry? && GetStep(s, k, s')
    ensures Inv(s')
  {
    hide Inv, AgentOk, Move, Inc, Dec;
    AgentFacts(s, k);
    var pc := s.agents[k].pc;
    DecPlain(s, k, pc.e, Lookup(pc.a));
  }

  lemma DoSetAccessed(s: State, k: nat, s': State)
    requires Inv(s) && k < |s.agents| && s.agents[k].pc.SetAccessed? && GetStep(s, k, s')
    ensures Inv(s')
  {
    hide Inv, Move, Inc, Dec, SetStatus;
    AgentFacts(s, k);
    var pc := s.agents[k].pc;
    MoveKept(s, k, CheckAddr(pc.a, pc.e));
    TouchKept(s, k, pc.e, true, CheckAddr(pc.a, pc.e));
  }

  lemma DoCheckAddr(s: State, k: nat, s': State)
    requires Inv(s) && k < |s.agents| && s.agents[k].pc.CheckAddr? && GetStep(s, k, s')
    ensures Inv(s')
  {
    hide Inv, Move, Inc, Dec, SetStatus;
    AgentFacts(s, k);
    var pc := s.agents[k].pc;
    CheckedAddr(s, k);
    MoveKept(s, k, if s.entries[pc.e].diskAddr == Some(pc.a) then WaitLoad(pc.a, pc.e) else DecRefRetry(pc.a, pc.e));
  }

  /** An entry whose address is the one wanted holds that page, whatever became of it since the lookup. */
  lemma CheckedAddr(s: State, k: nat)
    requires Inv(s) && k < |s.agents| && s.agents[k].pc.CheckAddr?
    ensures s.entries[s.agents[k].pc.e].diskAddr == Some(s.agents[k].pc.a) ==>
      AgentOk(s, s.agents[k].(pc := WaitLoad(s.agents[k].pc.a, s.agents[k].pc.e)))
  {
    var e := s.agents[k].pc.e;
    assert EntryOk(s, e);
  }

  lemma DoWaitLoad(s: State, k: nat, s': State)
    requires Inv(s) && k < |s.agents| && s.agents[k].pc.WaitLoad? && GetStep(s, k, s')
    ensures Inv(s')
  {
    hide Inv, Move, Inc, Dec, SetStatus;
    AgentFacts(s, k);
    var pc := s.agents[k].pc;
    MoveKept(s, k, if s.entries[pc.e].status.loading then pc else Reading(pc.a, pc.e));
  }

  // ------------------------------------------------------ holding a page

  lemma SamePlace(s: State, k: nat)
    requires k < |s.agents|
    ensures Move(s, k, s.agents[k].pc) == s
  {
    assert s.agents[k := s.agents[k]] == s.agents;
  }

  lemma SameAgents(s: State, k: nat, e: EntryNo, st: Status)
    requires k < |s.agents| && e < |s.entries|
    ensures SetStatus(s, e, st).agents == s.agents
  {
  }

  /** Taking the claim is not a quiet step. */
  lemma ClaimMoves(s: State, k: nat, s': State)
    requires WellFormed(s) && k < |s.agents| && s.agents[k].pc.Reading?
    requires k < |s'.agents| && (s'.agents[k].pc.Reading? || s'.agents[k].pc.Idle?)
    ensures var pc := s.agents[k].pc;
      pc.e < |s.entries| && s' != Move(SetStatus(s, pc.e, s.entries[pc.e].status.(claimed := true)), k, Claimed(pc.a,
          pc.e))
  {
  }

  lemma DoReading(s: State, k: nat, s': State)
    requires Inv(s) && k < |s.agents| && s.agents[k].pc.Reading? && HoldStep(s, k, s')
    requires k < |s'.agents| && (s'.agents[k].pc.Reading? || s'.agents[k].pc.Idle?)
    ensures Inv(s')
  {
    hide Inv, Move, Inc, Dec, SetStatus;
    AgentFacts(s, k);
    var pc := s.agents[k].pc;
    TouchKept(s, k, pc.e, true, pc);
    SameAgents(s, k, pc.e, s.entries[pc.e].status.(accessed := true));
    SamePlace(SetStatus(s, pc.e, s.entries[pc.e].status.(accessed := true)), k);
    ClaimMoves(s, k, s');
    DecPlain(s, k, pc.e, Idle);
  }

  lemma DoWaitFlush(s: State, k: nat, s': State)
    requires Inv(s) && k < |s.agents| && s.agents[k].pc.WaitFlush? && HoldStep(s, k, s')
    ensures Inv(s')
  {
    hide Inv, Move, Inc, Dec, SetStatus;
    AgentFacts(s, k);
    var pc := s.agents[k].pc;
    MoveKept(s, k, if s.entries[pc.e].status.writeback then pc else CheckRefs(pc.a, pc.e, 0));
  }

  // --------------------------------------------------- loads and evictions

  lemma DoOwnInc(s: State, k: nat, s': State)
    requires Inv(s) && k < |s.agents| && s.agents[k].pc.OwnInc? && LoadStep(s, k, s')
    ensures Inv(s')
  {
    hide Inv, AgentOk, Move, Inc, Dec;
    AgentFacts(s, k);
    var pc := s.agents[k].pc;
    OwnCounted(s, k);
  }

  lemma DoLoadMapFails(s: State, k: nat, s': State)
    requires Inv(s) && k < |s.agents| && s.agents[k].pc.LoadMap? && LoadStep(s, k, s')
    requires s.lookup[s.agents[k].pc.a].Some?
    ensures Inv(s')
  {
    hide Inv, Move, Inc, Dec, SetStatus;
    AgentFacts(s, k);
    var pc := s.agents[k].pc;
    MoveKept(s, k, AbortDec(pc.a, pc.e));
  }

  lemma DoAbortDec(s: State, k: nat, s': State)
    requires Inv(s) && k < |s.agents| && s.agents[k].pc.AbortDec? && LoadStep(s, k, s')
    ensures Inv(s')
  {
    hide Inv, AgentOk, Move, Inc, Dec;
    AgentFacts(s, k);
    var pc := s.agents[k].pc;
    AbortUncounted(s, k);
  }

  lemma DoEvictClear(s: State, k: nat, s': State)
    requires Inv(s) && k < |s.agents| && s.agents[k].pc.EvictClear? && EvictLockStep(s, k, s')
    ensures Inv(s')
  {
    hide Inv, Move, Inc, Dec, SetStatus;
    AgentFacts(s, k);
    var pc := s.agents[k].pc;
    MoveKept(s, k, EvictQuick(pc.e, pc.looks));
    TouchKept(s, k, pc.e, false, EvictQuick(pc.e, pc.looks));
  }

  lemma DoEvictQuick(s: State, k: nat, s': State)
    requires Inv(s) && k < |s.agents| && s.agents[k].pc.EvictQuick? && EvictLockStep(s, k, s')
    ensures Inv(s')
  {
    hide Inv, AgentOk, Move, Inc, Dec;
    AgentFacts(s, k);
    var pc := s.agents[k].pc;
    MovePlain(s, k, EvictTestLock(pc.e));
    MovePlain(s, k, Idle);
  }

  lemma DoEvictTestLock(s: State, k: nat, s': State)
    requires Inv(s) && k < |s.agents| && s.agents[k].pc.EvictTestLock? && EvictLockStep(s, k, s')
    ensures Inv(s')
  {
    hide Inv, AgentOk, Move, Inc, Dec;
    AgentFacts(s, k);
    var pc := s.agents[k].pc;
    MovePlain(s, k, if s.entries[pc.e].status.locked then Idle else EvictInc(pc.e));
  }

  lemma DoEvictInc(s: State, k: nat, s': State)
    requires Inv(s) && k < |s.agents| && s.agents[k].pc.EvictInc? && EvictLockStep(s, k, s')
    ensures Inv(s')
  {
    hide Inv, AgentOk, Move, Inc, Dec;
    AgentFacts(s, k);
    var pc := s.agents[k].pc;
    IncPlain(s, k, pc.e, EvictTestFree(pc.e));
  }

  lemma DoEvictTestFree(s: State, k: nat, s': State)
    requires Inv(s) && k < |s.agents| && s.agents[k].pc.EvictTestFree? && EvictLockStep(s, k, s')
    ensures Inv(s')
  {
    hide Inv, AgentOk, Move, Inc, Dec;
    AgentFacts(s, k);
    var pc := s.agents[k].pc;
    MovePlain(s, k, EvictTestLock2(pc.e, s.entries[pc.e].status.free));
  }

  lemma DoEvictTestLock2(s: State, k: nat, s': State)
    requires Inv(s) && k < |s.agents| && s.agents[k].pc.EvictTestLock2? && EvictLockStep(s, k, s')
    ensures Inv(s')
  {
    hide Inv, AgentOk, Move, Inc, Dec;
    AgentFacts(s, k);
    var pc := s.agents[k].pc;
    MovePlain(s, k, if pc.free || s.entries[pc.e].status.locked then EvictDec(pc.e) else EvictClaim(pc.e));
  }

  lemma DoEvictClaimFails(s: State, k: nat, s': State)
    requires Inv(s) && k < |s.agents| && s.agents[k].pc.EvictClaim? && EvictLockStep(s, k, s')
    requires s.entries[s.agents[k].pc.e].status.claimed
    ensures Inv(s')
  {
    hide Inv, AgentOk, Move, Inc, Dec;
    AgentFacts(s, k);
    var pc := s.agents[k].pc;
    MovePlain(s, k, EvictDec(pc.e));
  }

  lemma DoEvictTestLoading(s: State, k: nat, s': State)
    requires Inv(s) && k < |s.agents| && s.agents[k].pc.EvictTestLoading? && EvictLockStep(s, k, s')
    ensures Inv(s')
  {
    hide Inv, Move, Inc, Dec, SetStatus;
    AgentFacts(s, k);
    var pc := s.agents[k].pc;
    MoveKept(s, k, if s.entries[pc.e].status.loading then EvictUnclaim(pc.e) else EvictLock(pc.e));
  }

  lemma DoEvictTestFlush(s: State, k: nat, s': State)
    requires Inv(s) && k < |s.agents| && s.agents[k].pc.EvictTestFlush? && EvictLockStep(s, k, s')
    ensures Inv(s')
  {
    hide Inv, Move, Inc, Dec, SetStatus;
    AgentFacts(s, k);
    var pc := s.agents[k].pc;
    MoveKept(s, k, if s.entries[pc.e].status.writeback then EvictUnlock(pc.e) else EvictCheckRefs(pc.e, 0));
  }

  lemma DoEvictRecheck(s: State, k: nat, s': State)
    requires Inv(s) && k < |s.agents| && s.agents[k].pc.EvictRecheck? && EvictStep(s, k, s')
    ensures Inv(s')
  {
    hide Inv, Move, Inc, Dec, SetStatus;
    AgentFacts(s, k);
    var pc := s.agents[k].pc;
    MoveKept(s, k, EvictUnlock(pc.e));
    if s.entries[pc.e].status == LOCKED_EVICTABLE_STATUS {
      MoveKept(s, k, EvictUnmap(pc.e));
    }
  }

  lemma DoEvictDec(s: State, k: nat, s': State)
    requires Inv(s) && k < |s.agents| && s.agents[k].pc.EvictDec? && EvictStep(s, k, s')
    ensures Inv(s')
  {
    hide Inv, AgentOk, Move, Inc, Dec;
    AgentFacts(s, k);
    var pc := s.agents[k].pc;
    DecPlain(s, k, pc.e, Idle);
  }

  lemma DoFlushAddr(s: State, k: nat, s': State)
    requires Inv(s) && k < |s.agents| && s.agents[k].pc.FlushAddr? && FlushStep(s, k, s')
    ensures Inv(s')
  {
    hide Inv, AgentOk, Move, Inc, Dec;
    AgentFacts(s, k);
    var pc := s.agents[k].pc;
    FlushFinds(s, k);
    FlushMoved(s, k);
  }

  /** The owner's reference. */
  lemma OwnCounted(s: State, k: nat)
    requires Inv(s) && k < |s.agents| && s.agents[k].pc.OwnInc?
    requires s.agents[k].pc.e < |s.entries| && |s.entries[s.agents[k].pc.e].refs| == STRIPES
        && s.agents[k].stripe < STRIPES
    ensures var pc := s.agents[k].pc;
      Inv(Move(Inc(s, pc.e, s.agents[k].stripe), k, OwnSetStatus(pc.a, pc.e, pc.alloc)))
  {
    hide Inv, PairOk, EntryOk, ClaimHeld, PageOk, OneToOne, RefsOk, WellFormed, SameView;
    var pc := s.agents[k].pc;
    var pc' := OwnSetStatus(pc.a, pc.e, pc.alloc);
    var s' := Move(Inc(s, pc.e, s.agents[k].stripe), k, pc');
    AgentFacts(s, k);
    FormedElsewhere(s, s');
    Counted(s, k, pc.e, pc');
    SameTarget(s, s', pc');
    SameAgentOk(s, s', s.agents[k].(pc := pc'));
    QuietStep(s, k, s');
  }

  lemma AbortUncounted(s: State, k: nat)
    requires Inv(s) && k < |s.agents| && s.agents[k].pc.AbortDec?
    requires s.agents[k].pc.e < |s.entries| && |s.entries[s.agents[k].pc.e].refs| == STRIPES
        && s.agents[k].stripe < STRIPES
    ensures var pc := s.agents[k].pc;
      Inv(Move(Dec(s, pc.e, s.agents[k].stripe), k, AbortFree(pc.a, pc.e)))
  {
    hide Inv, PairOk, EntryOk, ClaimHeld, PageOk, OneToOne, RefsOk, WellFormed, SameView;
    var pc := s.agents[k].pc;
    var pc' := AbortFree(pc.a, pc.e);
    var s' := Move(Dec(s, pc.e, s.agents[k].stripe), k, pc');
    AgentFacts(s, k);
    FormedElsewhere(s, s');
    Uncounted(s, k, pc.e, pc');
    SameTarget(s, s', pc');
    SameAgentOk(s, s', s.agents[k].(pc := pc'));
    QuietStep(s, k, s');
  }

  /** A write-back always finds the address of its entry, and the page is one given out. */
  lemma FlushFinds(s: State, k: nat)
    requires Inv(s) && k < |s.agents| && s.agents[k].pc.FlushAddr?
    ensures s.entries[s.agents[k].pc.e].diskAddr.Some? && s.entries[s.agents[k].pc.e].diskAddr.value in s.issued
  {
    assert PageOk(s, s.entries[s.agents[k].pc.e].diskAddr.value);
  }

  lemma FlushMoved(s: State, k: nat)
    requires Inv(s) && k < |s.agents| && s.agents[k].pc.FlushAddr?
    requires s.agents[k].pc.e < |s.entries| && s.entries[s.agents[k].pc.e].diskAddr.Some?
    requires s.entries[s.agents[k].pc.e].diskAddr.value in s.issued
    ensures Inv(Move(s, k, FlushWrite(s.agents[k].pc.e, s.entries[s.agents[k].pc.e].diskAddr.value)))
  {
    hide Inv, EntryOk, ClaimHeld, PageOk, OneToOne, RefsOk, SameView;
    var e := s.agents[k].pc.e;
    var pc' := FlushWrite(e, s.entries[e].diskAddr.value);
    var s' := Move(s, k, pc');
    AgentFacts(s, k);
    FormedElsewhere(s, s');
    Moved(s, k, pc');
    SameAgentOk(s, s', s.agents[k].(pc := pc'));
    forall j | 0 <= j < |s.agents| && j != k
      ensures PairOk(s'.agents[j], s'.agents[k]) && PairOk(s'.agents[k], s'.agents[j])
    {
      FlushPair(s, k, j, pc');
    }
    ViewStep(s, k, s');
  }

  lemma FlushPair(s: State, k: nat, j: nat, pc': PC)
    requires Inv(s) && j < |s.agents| && k < |s.agents| && j != k && s.agents[k].pc.FlushAddr?
    requires pc'.FlushWrite? && pc'.e == s.agents[k].pc.e && pc'.a in s.issued
    ensures PairOk(s.agents[k].(pc := pc'), s.agents[j]) && PairOk(s.agents[j], s.agents[k].(pc := pc'))
  {
    hide AgentOk, EntryOk, ClaimHeld, PageOk, OneToOne, RefsOk;
    assert PairOk(s.agents[k], s.agents[j]) && PairOk(s.agents[j], s.agents[k]) && TargetOk(s, s.agents[j].pc);
  }

  // ---------------------------------------------------------- gaining a role

  /** A reader that sees no write lock after taking its reference: no writer has yet seen its stripe free. */
  lemma PassedPair(g: Agent, h: Agent, st: Status, g': Agent)
    requires PairOk(g, h) && PairOk(h, g) && g.pc.TestLock2? && g'.stripe == g.stripe && !st.locked
    requires g'.pc == SetAccessed(g.pc.a, g.pc.e) && (EntryOf(h.pc) == Some(g.pc.e) ==> StatusOk(h.pc, st))
    ensures PairOk(g', h) && PairOk(h, g')
  {
  }

  lemma DoTestLock2Passes(s: State, k: nat)
    requires Inv(s) && k < |s.agents| && s.agents[k].pc.TestLock2? && s.agents[k].pc.e < |s.entries|
    requires !s.entries[s.agents[k].pc.e].status.locked
    ensures Inv(Move(s, k, SetAccessed(s.agents[k].pc.a, s.agents[k].pc.e)))
  {
    hide Inv, StatusOk, MapOk, PairOk;
    var pc := s.agents[k].pc;
    AgentFacts(s, k);
    var s' := Move(s, k, SetAccessed(pc.a, pc.e));
    Moved(s, k, SetAccessed(pc.a, pc.e));
    forall j | 0 <= j < |s.agents| && j != k
      ensures PairOk(s'.agents[j], s'.agents[k]) && PairOk(s'.agents[k], s'.agents[j])
    {
      PairFacts(s, j, k);
      AgentFacts(s, j);
      PassedPair(s.agents[k], s.agents[j], s.entries[pc.e].status, s'.agents[k]);
    }
    PassedSelf(s, k, s');
    ViewStep(s, k, s');
  }

  lemma PassedSelf(s: State, k: nat, s': State)
    requires WellFormed(s) && WellFormed(s') && k < |s.agents| && s.agents[k].pc.TestLock2?
    requires TargetOk(s, s.agents[k].pc)
    requires s' == Move(s, k, SetAccessed(s.agents[k].pc.a, s.agents[k].pc.e)) && AgentFormed(s', s'.agents[k])
    ensures AgentOk(s', s'.agents[k]) && TargetOk(s', s'.agents[k].pc)
  {
  }

  lemma PairFacts(s: State, j: nat, k: nat)
    requires Inv(s) && j < |s.agents| && k < |s.agents| && j != k
    ensures PairOk(s.agents[j], s.agents[k]) && PairOk(s.agents[k], s.agents[j])
  {
    hide AgentOk, TargetOk, PairOk, EntryOk, ClaimHeld, PageOk, OneToOne, RefsOk;
  }

  lemma DoTestLock2(s: State, k: nat, s': State)
    requires Inv(s) && k < |s.agents| && s.agents[k].pc.TestLock2? && GetStep(s, k, s')
    ensures Inv(s')
  {
    hide Inv, AgentOk, Move;
    AgentFacts(s, k);
    var pc := s.agents[k].pc;
    if pc.free || s.entries[pc.e].status.locked {
      MovePlain(s, k, DecRef(pc.a, pc.e, pc.free));
    } else {
      DoTestLock2Passes(s, k);
    }
  }

  // ------------------------------------------------------- checking a stripe

  /** No other agent holds a reference in a stripe found free. */
  lemma StripeFree(s: State, k: nat, j: nat, e: EntryNo, i: nat)
    requires Inv(s) && j < |s.agents| && k < |s.agents| && j != k && e < |s.entries| && i < STRIPES
    requires s.entries[e].refs[i] <= if s.agents[k].stripe == i then 1 else 0
    requires HoldsRef(s.agents[k].pc) && EntryOf(s.agents[k].pc) == Some(e)
    ensures !CountsFor(s.agents[j], e, i)
  {
    hide AgentOk, TargetOk, PairOk, EntryOk, ClaimHeld, PageOk, OneToOne, HoldsRef, EntryOf;
    if CountsFor(s.agents[j], e, i) {
      if s.agents[k].stripe == i {
        CountTwo(s.agents, if j < k then j else k, if j < k then k else j, e, i);
      } else {
        CountHolder(s.agents, j, e, i);
      }
    }
  }

  /** The write locker's next position. */
  function NextCheck(pc: PC): PC
    requires pc.CheckRefs? || pc.EvictCheckRefs?
  {
    if pc.CheckRefs? then
      if pc.i + 1 < STRIPES then CheckRefs(pc.a, pc.e, pc.i + 1) else Writing(pc.a, pc.e, false, false)
    else if pc.i + 1 < STRIPES then EvictCheckRefs(pc.e, pc.i + 1) else EvictRecheck(pc.e)
  }

  lemma CheckedPair(g: Agent, h: Agent, g': Agent)
    requires PairOk(g, h) && PairOk(h, g) && (g.pc.CheckRefs? || g.pc.EvictCheckRefs?) && g.pc.i < STRIPES
    requires g'.stripe == g.stripe && g'.pc == NextCheck(g.pc) && !CountsFor(h, g.pc.e, g.pc.i)
    ensures PairOk(g', h) && PairOk(h, g')
  {
  }

  lemma CheckedSelf(s: State, k: nat, s': State)
    requires WellFormed(s) && WellFormed(s') && k < |s.agents| && AgentOk(s, s.agents[k]) && TargetOk(s, s.agents[k].pc)
    requires (s.agents[k].pc.CheckRefs? || s.agents[k].pc.EvictCheckRefs?) && s' == Move(s, k,
        NextCheck(s.agents[k].pc))
    ensures AgentOk(s', s'.agents[k]) && TargetOk(s', s'.agents[k].pc)
    ensures HoldsClaim(s'.agents[k].pc) && EntryOf(s'.agents[k].pc) == EntryOf(s.agents[k].pc)
  {
  }

  /** A stripe is found free of other agents' references. */
  lemma CheckPasses(s: State, k: nat)
    requires Inv(s) && k < |s.agents| && (s.agents[k].pc.CheckRefs? || s.agents[k].pc.EvictCheckRefs?)
    requires s.agents[k].pc.e < |s.entries| && |s.entries[s.agents[k].pc.e].refs| == STRIPES
        && s.agents[k].pc.i < STRIPES
    requires s.entries[s.agents[k].pc.e].refs[s.agents[k].pc.i]
          <= if s.agents[k].stripe == s.agents[k].pc.i then 1 else 0
    ensures Inv(Move(s, k, NextCheck(s.agents[k].pc)))
  {
    hide Inv, StatusOk, MapOk, PairOk, NextCheck, CountsFor, AgentOk;
    var pc := s.agents[k].pc;
    AgentFacts(s, k);
    var s' := Move(s, k, NextCheck(pc));
    NextFormed(s, s.agents[k]);
    Moved(s, k, NextCheck(pc));
    forall j | 0 <= j < |s.agents| && j != k
      ensures PairOk(s'.agents[j], s'.agents[k]) && PairOk(s'.agents[k], s'.agents[j])
    {
      PairFacts(s, j, k);
      StripeFree(s, k, j, pc.e, pc.i);
      CheckedPair(s.agents[k], s.agents[j], s'.agents[k]);
    }
    CheckedSelf(s, k, s');
    ViewStep(s, k, s');
  }

  lemma NextFormed(s: State, g: Agent)
    requires AgentFormed(s, g) && (g.pc.CheckRefs? || g.pc.EvictCheckRefs?)
    ensures AgentFormed(s, g.(pc := NextCheck(g.pc))) && HoldsRef(NextCheck(g.pc))
    ensures EntryOf(NextCheck(g.pc)) == Some(g.pc.e)
  {
  }

  lemma DoCheckRefs(s: State, k: nat, s': State)
    requires Inv(s) && k < |s.agents| && s.agents[k].pc.CheckRefs? && HoldStep(s, k, s')
    ensures Inv(s')
  {
    hide Inv, AgentOk, Move;
    AgentFacts(s, k);
    var pc := s.agents[k].pc;
    if s.entries[pc.e].refs[pc.i] > (if s.agents[k].stripe == pc.i then 1 else 0) {
      SamePlace(s, k);
    } else {
      CheckPasses(s, k);
    }
  }

  lemma DoEvictCheckRefs(s: State, k: nat, s': State)
    requires Inv(s) && k < |s.agents| && s.agents[k].pc.EvictCheckRefs? && EvictLockStep(s, k, s')
    ensures Inv(s')
  {
    hide Inv, Move;
    AgentFacts(s, k);
    var pc := s.agents[k].pc;
    if s.entries[pc.e].refs[pc.i] > (if s.agents[k].stripe == pc.i then 1 else 0) {
      MoveKept(s, k, EvictUnlock(pc.e));
    } else {
      CheckPasses(s, k);
    }
  }

  // ---------------------------------------------------------------- beginning

  lemma BeginPair(g: Agent, h: Agent, a: Addr, g': Agent, issued: set<Addr>)
    requires PairOk(g, h) && PairOk(h, g) && g.pc.Idle? && g'.stripe == g.stripe
    requires (g'.pc == Lookup(a) && a in issued && (GivingOut(h.pc) ==> TargetOf(h.pc) != Some(a)))
          || (g'.pc == FindFree(a, true) && TargetOf(h.pc) != Some(a))
    ensures PairOk(g', h) && PairOk(h, g')
  {
  }

  /** A get or an allocation begins. */
  lemma BeginPage(s: State, k: nat, a: Addr, pc': PC)
    requires Inv(s) && k < |s.agents| && s.agents[k].pc.Idle? && a < |s.lookup|
    requires (pc' == Lookup(a) && a in s.issued) || (pc' == FindFree(a, true) && a !in s.issued && Unused(s, a))
    ensures Inv(Move(s, k, pc'))
  {
    hide Inv, AgentOk, PairOk;
    AgentFacts(s, k);
    var s' := Move(s, k, pc');
    Moved(s, k, pc');
    forall j | 0 <= j < |s.agents| && j != k
      ensures PairOk(s'.agents[j], s'.agents[k]) && PairOk(s'.agents[k], s'.agents[j])
    {
      PairFacts(s, j, k);
      AgentFacts(s, j);
      BeginPair(s.agents[k], s.agents[j], a, s'.agents[k], s.issued);
    }
    BeginSelf(s', k);
    ViewStep(s, k, s');
  }

  lemma BeginSelf(s: State, k: nat)
    requires WellFormed(s) && k < |s.agents| && (s.agents[k].pc.Lookup? || s.agents[k].pc.FindFree?)
    requires s.agents[k].pc.a in s.issued <==> s.agents[k].pc.Lookup?
    requires s.agents[k].pc.FindFree? ==> s.agents[k].pc.alloc
    ensures AgentOk(s, s.agents[k]) && TargetOk(s, s.agents[k].pc)
  {
  }
}
