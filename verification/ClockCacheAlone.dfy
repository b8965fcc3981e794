/** What the operations of the clock cache come to for an agent that goes on alone, in every reachable state
    (src/clockcache.c): gets, loads, allocations, locks, writes, evictions, write-backs and the clock hand all get
    where they are going. */
module ClockCacheAlone {
  import opened DataModel
  import opened ClockCache
  import opened ClockCacheInvariant
  import opened ClockCacheQuiet
  import opened ClockCacheBatches
  import opened ClockCacheSafety

  /** Steps of agent k lead from the first state to the last. */
  ghost predicate IsWay(states: seq<State>, k: nat) {
    && states != [] && (forall i :: 0 <= i < |states| - 1 ==> WellFormed(states[i]))
    && forall i :: 0 <= i < |states| - 1 ==> Next(states[i], k, states[i + 1])
  }

  ghost predicate Comes(s: State, k: nat, t: State) {
    exists states :: IsWay(states, k) && states[0] == s && states[|states| - 1] == t
  }

  lemma Stays(s: State, k: nat)
    ensures Comes(s, k, s)
  {
    assert IsWay([s], k) && [s][0] == s;
  }

  /** One step more. */
  lemma Further(s: State, k: nat, t: State, t': State)
    requires Safe(t) && Comes(s, k, t) && WellFormed(t) && Next(t, k, t')
    ensures Comes(s, k, t') && Safe(t') && WellFormed(t')
  {
    hide Safe, Next, WellFormed;
    var states :| IsWay(states, k) && states[0] == s && states[|states| - 1] == t;
    var more := states + [t'];
    forall i | 0 <= i < |more| - 1 ensures WellFormed(more[i]) && Next(more[i], k, more[i + 1]) {
      assert more[i] == states[i];
    }
    assert IsWay(more, k) && more[0] == s && more[|more| - 1] == t';
    NextKeeps(t, k, t');
    SafeIsFormed(t');
  }

  lemma SafeIsFormed(s: State)
    requires Safe(s)
    ensures WellFormed(s) && Inv(s) && Batches(s)
  {
    hide Inv, Batches;
    IsFormed(s);
  }

  /** One way after another. */
  lemma Onward(s: State, k: nat, t: State, u: State)
    requires Comes(s, k, t) && Comes(t, k, u)
    ensures Comes(s, k, u)
  {
    hide WellFormed, Next;
    var one :| IsWay(one, k) && one[0] == s && one[|one| - 1] == t;
    var two :| IsWay(two, k) && two[0] == t && two[|two| - 1] == u;
    var m, all := |one| - 1, one[..|one| - 1] + two;
    forall i | 0 <= i < |all| - 1 ensures WellFormed(all[i]) && Next(all[i], k, all[i + 1]) {
      if i < m {
        assert all[i] == one[i] && all[i + 1] == one[i + 1];
      } else {
        assert all[i] == two[i - m] && all[i + 1] == two[i - m + 1];
      }
    }
    assert IsWay(all, k) && all[0] == s && all[|all| - 1] == u;
  }

  lemma BeginGoes(s: State, k: nat, t: State)
    requires Safe(s) && WellFormed(s) && k < |s.agents| && s.agents[k].pc == Idle && Begin(s, k, t)
    ensures Comes(s, k, t) && Safe(t) && WellFormed(t)
  {
    hide Safe, WellFormed, Comes, Begin;
    Stays(s, k);
    Further(s, k, s, t);
  }

  lemma GetGoes(s: State, k: nat, t: State, t': State)
    requires Safe(t) && Comes(s, k, t) && WellFormed(t) && k < |t.agents| && GetStep(t, k, t')
    ensures Comes(s, k, t') && Safe(t') && WellFormed(t')
  {
    hide Safe, WellFormed, Comes, GetStep;
    Further(s, k, t, t');
  }

  lemma HoldGoes(s: State, k: nat, t: State, t': State)
    requires Safe(t) && Comes(s, k, t) && WellFormed(t) && k < |t.agents| && HoldStep(t, k, t')
    ensures Comes(s, k, t') && Safe(t') && WellFormed(t')
  {
    hide Safe, WellFormed, Comes, HoldStep;
    Further(s, k, t, t');
  }

  lemma LoadGoes(s: State, k: nat, t: State, t': State)
    requires Safe(t) && Comes(s, k, t) && WellFormed(t) && k < |t.agents| && LoadStep(t, k, t')
    ensures Comes(s, k, t') && Safe(t') && WellFormed(t')
  {
    hide Safe, WellFormed, Comes, LoadStep;
    Further(s, k, t, t');
  }

  lemma EvictLockGoes(s: State, k: nat, t: State, t': State)
    requires Safe(t) && Comes(s, k, t) && WellFormed(t) && k < |t.agents| && EvictLockStep(t, k, t')
    ensures Comes(s, k, t') && Safe(t') && WellFormed(t')
  {
    hide Safe, WellFormed, Comes, EvictLockStep;
    Further(s, k, t, t');
  }

  lemma EvictGoes(s: State, k: nat, t: State, t': State)
    requires Safe(t) && Comes(s, k, t) && WellFormed(t) && k < |t.agents| && EvictStep(t, k, t')
    ensures Comes(s, k, t') && Safe(t') && WellFormed(t')
  {
    hide Safe, WellFormed, Comes, EvictStep;
    Further(s, k, t, t');
  }

  lemma FlushGoes(s: State, k: nat, t: State, t': State)
    requires Safe(t) && Comes(s, k, t) && WellFormed(t) && k < |t.agents| && FlushStep(t, k, t')
    ensures Comes(s, k, t') && Safe(t') && WellFormed(t')
  {
    hide Safe, WellFormed, Comes, FlushStep;
    Further(s, k, t, t');
  }

  lemma HandGoes(s: State, k: nat, t: State, t': State)
    requires Safe(t) && Comes(s, k, t) && WellFormed(t) && k < |t.agents| && HandStep(t, k, t')
    ensures Comes(s, k, t') && Safe(t') && WellFormed(t')
  {
    hide Safe, WellFormed, Comes, HandStep;
    Further(s, k, t, t');
  }

  lemma Formed(s: State, k: nat)
    requires WellFormed(s) && k < |s.agents|
    ensures AgentFormed(s, s.agents[k]) && forall e :: 0 <= e < |s.entries| ==> |s.entries[e].refs| == STRIPES
    ensures |s.last| == |s.lookup| == |s.disk|
  {
  }

  // -------------------------------------------------------------------- getting

  /** Entry e holds page a, and nobody is writing or loading it. */
  predicate Cached(s: State, a: Addr, e: EntryNo) {
    && a < |s.lookup| && e < |s.entries| && s.lookup[a] == Some(e) && s.entries[e].diskAddr == Some(a)
    && !s.entries[e].status.locked && !s.entries[e].status.free && !s.entries[e].status.loading
  }

  /** A get of a cached page ends with a read lock on its entry. */
  lemma HitGets(s: State, k: nat, a: Addr, e: EntryNo)
    requires Safe(s) && k < |s.agents| && s.agents[k].pc == Lookup(a) && Cached(s, a, e)
    ensures s.agents[k].stripe < |s.entries[e].refs|
    ensures Comes(s, k, Move(Inc(s, e, s.agents[k].stripe), k, Reading(a, e)))
  {
    hide Safe, Comes, WellFormed;
    CountsIn(s, k, a, e);
    var s3 := Move(Inc(s, e, s.agents[k].stripe), k, TestFree(a, e));
    ChecksOut(s, k, s3, a, e);
    assert Move(s3, k, Reading(a, e)) == Move(Inc(s, e, s.agents[k].stripe), k, Reading(a, e));
  }

  lemma CountsIn(s: State, k: nat, a: Addr, e: EntryNo)
    requires Safe(s) && k < |s.agents| && s.agents[k].pc == Lookup(a) && Cached(s, a, e)
    ensures s.agents[k].stripe < |s.entries[e].refs|
    ensures var t := Move(Inc(s, e, s.agents[k].stripe), k, TestFree(a, e)); Comes(s, k, t) && Safe(t) && WellFormed(t)
  {
    hide Safe, Comes, WellFormed;
    SafeIsFormed(s);
    Formed(s, k);
    Stays(s, k);
    var s1 := Move(s, k, TestLock(a, e));
    GetGoes(s, k, s, s1);
    var s2 := Move(s1, k, IncRef(a, e));
    GetGoes(s, k, s1, s2);
    var s3 := Move(Inc(s2, e, s.agents[k].stripe), k, TestFree(a, e));
    GetGoes(s, k, s2, s3);
    assert s3 == Move(Inc(s, e, s.agents[k].stripe), k, TestFree(a, e));
  }

  lemma ChecksOut(s: State, k: nat, t: State, a: Addr, e: EntryNo)
    requires Safe(t) && Comes(s, k, t) && WellFormed(t) && k < |t.agents| && t.agents[k].pc == TestFree(a, e)
    requires Cached(t, a, e)
    ensures Comes(s, k, Move(t, k, Reading(a, e)))
  {
    hide Safe, Comes, WellFormed;
    var t1 := Move(t, k, TestLock2(a, e, false));
    GetGoes(s, k, t, t1);
    var t2 := Move(t1, k, SetAccessed(a, e));
    GetGoes(s, k, t1, t2);
    var t3 := Move(t2, k, CheckAddr(a, e));
    GetGoes(s, k, t2, t3);
    var t4 := Move(t3, k, WaitLoad(a, e));
    GetGoes(s, k, t3, t4);
    var t5 := Move(t4, k, Reading(a, e));
    GetGoes(s, k, t4, t5);
    assert t5 == Move(t, k, Reading(a, e));
  }

  /** A reader of an entry that nobody has claimed can claim it, accessed or not. */
  lemma ClaimGranted(s: State, k: nat)
    requires Safe(s) && k < |s.agents| && s.agents[k].pc.Reading? && s.agents[k].pc.e < |s.entries|
    requires !s.entries[s.agents[k].pc.e].status.claimed
    ensures var pc, st := s.agents[k].pc, s.entries[s.agents[k].pc.e].status;
      Comes(s, k, Move(SetStatus(s, pc.e, st.(claimed := true)), k, Claimed(pc.a, pc.e)))
  {
    hide Safe, Comes, WellFormed;
    SafeIsFormed(s);
    Formed(s, k);
    Stays(s, k);
    var pc, st := s.agents[k].pc, s.entries[s.agents[k].pc.e].status;
    HoldGoes(s, k, s, Move(SetStatus(s, pc.e, st.(claimed := true)), k, Claimed(pc.a, pc.e)));
  }

  // -------------------------------------------------------------------- loading

  /** The agent's thread takes entries from e's batch, and e is free. */
  predicate Available(s: State, k: nat, e: EntryNo)
    requires k < |s.agents|
  {
    e < |s.entries| && Takes(s, s.agents[k].thread, e) && s.entries[e].status == FREE_STATUS
  }

  /** Entry e taken, counted and given its status. */
  function Opened(s: State, k: nat, e: EntryNo, st: Status, pc: PC): State
    requires k < |s.agents| && e < |s.entries| && s.agents[k].stripe < |s.entries[e].refs|
  {
    Move(SetStatus(Inc(s, e, s.agents[k].stripe), e, st), k, pc)
  }

  lemma TakesIt(s: State, k: nat, a: Addr, e: EntryNo, alloc: bool)
    requires Safe(s) && k < |s.agents| && s.agents[k].pc == FindFree(a, alloc) && Available(s, k, e)
    ensures s.agents[k].stripe < |s.entries[e].refs|
    ensures var t := Opened(s, k, e, ALLOC_STATUS, OwnSetStatus(a, e, alloc));
      Comes(s, k, t) && Safe(t) && WellFormed(t)
  {
    hide Safe, Comes, WellFormed;
    SafeIsFormed(s);
    Formed(s, k);
    Stays(s, k);
    var s1 := Move(SetStatus(s, e, ALLOC_STATUS), k, OwnInc(a, e, alloc));
    LoadGoes(s, k, s, s1);
    var s2 := Move(Inc(s1, e, s.agents[k].stripe), k, OwnSetStatus(a, e, alloc));
    LoadGoes(s, k, s1, s2);
    assert s2 == Opened(s, k, e, ALLOC_STATUS, OwnSetStatus(a, e, alloc));
  }

  lemma TakesFree(s: State, k: nat, a: Addr, e: EntryNo, alloc: bool)
    requires Safe(s) && k < |s.agents| && s.agents[k].pc == FindFree(a, alloc) && Available(s, k, e)
    ensures s.agents[k].stripe < |s.entries[e].refs|
    ensures var t := Opened(s, k, e, if alloc then ALLOC_STATUS else READ_LOADING_STATUS,
                            if alloc then AllocSetAddr(a, e) else LoadMap(a, e));
      Comes(s, k, t) && Safe(t) && WellFormed(t)
  {
    hide Safe, Comes, WellFormed;
    TakesIt(s, k, a, e, alloc);
    var s2 := Opened(s, k, e, ALLOC_STATUS, OwnSetStatus(a, e, alloc));
    var t := Move(SetStatus(s2, e, if alloc then ALLOC_STATUS else READ_LOADING_STATUS), k,
                  if alloc then AllocSetAddr(a, e) else LoadMap(a, e));
    LoadGoes(s, k, s2, t);
    assert t == Opened(s, k, e, if alloc then ALLOC_STATUS else READ_LOADING_STATUS,
                       if alloc then AllocSetAddr(a, e) else LoadMap(a, e));
  }

  /** A load of a page that nobody has mapped ends with a read lock on an entry that holds what the disk held. */
  lemma LoadReads(s: State, k: nat, a: Addr, e: EntryNo) returns (t: State)
    requires Safe(s) && k < |s.agents| && s.agents[k].pc == FindFree(a, false) && Available(s, k, e)
    requires a < |s.lookup| && s.lookup[a].None?
    ensures Comes(s, k, t) && |t.entries| == |s.entries| && |t.agents| == |s.agents| && |s.disk| == |s.lookup|
    ensures t.agents[k].pc == Reading(a, e) && t.lookup == s.lookup[a := Some(e)] && t.disk == s.disk
    ensures t.entries[e].diskAddr == Some(a) && t.entries[e].data == s.disk[a]
    ensures t.entries[e].status == READ_LOADING_STATUS.(loading := false)
    ensures forall d :: 0 <= d < |s.entries| && d != e ==> t.entries[d] == s.entries[d]
  {
    hide Safe, Comes, WellFormed;
    SafeIsFormed(s);
    Formed(s, k);
    TakesFree(s, k, a, e, false);
    var s1 := Opened(s, k, e, READ_LOADING_STATUS, LoadMap(a, e));
    var s2 := Move(s1.(lookup := s1.lookup[a := Some(e)]), k, LoadSetAddr(a, e));
    LoadGoes(s, k, s1, s2);
    t := FillsEntry(s, k, s2, a, e);
  }

  lemma FillsEntry(s: State, k: nat, u: State, a: Addr, e: EntryNo) returns (t: State)
    requires Safe(u) && Comes(s, k, u) && WellFormed(u) && k < |u.agents| && u.agents[k].pc == LoadSetAddr(a, e)
    requires e < |u.entries| && a < |u.disk| && u.entries[e].status == READ_LOADING_STATUS
    ensures Comes(s, k, t) && t.lookup == u.lookup && t.disk == u.disk && |t.agents| == |u.agents|
    ensures t.agents[k].pc == Reading(a, e)
    ensures t.entries == u.entries[e := u.entries[e].(diskAddr := Some(a), data := u.disk[a],
                                                      status := READ_LOADING_STATUS.(loading := false))]
  {
    hide Safe, Comes, WellFormed;
    var u1 := Move(Put(u, e, u.entries[e].(diskAddr := Some(a))), k, LoadRead(a, e));
    LoadGoes(s, k, u, u1);
    var u2 := Move(Put(u1, e, u1.entries[e].(data := u1.disk[a])), k, LoadDone(a, e));
    LoadGoes(s, k, u1, u2);
    t := Move(SetStatus(u2, e, u2.entries[e].status.(loading := false)), k, Reading(a, e));
    LoadGoes(s, k, u2, t);
  }

  /** A load that finds the page mapped by another gives its entry back, free, and looks again. */
  lemma LoadGivesUp(s: State, k: nat, a: Addr, e: EntryNo)
    requires Safe(s) && k < |s.agents| && s.agents[k].pc == LoadMap(a, e)
    requires a < |s.lookup| && s.lookup[a].Some?
    ensures e < |s.entries| && s.agents[k].stripe < |s.entries[e].refs|
    ensures Comes(s, k, Move(SetStatus(Dec(s, e, s.agents[k].stripe), e, FREE_STATUS), k, Lookup(a)))
  {
    hide Safe, Comes, WellFormed;
    SafeIsFormed(s);
    Formed(s, k);
    Stays(s, k);
    var s1 := Move(s, k, AbortDec(a, e));
    LoadGoes(s, k, s, s1);
    var s2 := Move(Dec(s1, e, s.agents[k].stripe), k, AbortFree(a, e));
    LoadGoes(s, k, s1, s2);
    var s3 := Move(SetStatus(s2, e, FREE_STATUS), k, Lookup(a));
    LoadGoes(s, k, s2, s3);
    assert s3 == Move(SetStatus(Dec(s, e, s.agents[k].stripe), e, FREE_STATUS), k, Lookup(a));
  }

  /** A page is given out with a write lock on a new entry for it. */
  lemma AllocWrites(s: State, k: nat, a: Addr, e: EntryNo) returns (t: State)
    requires Safe(s) && k < |s.agents| && s.agents[k].pc == FindFree(a, true) && Available(s, k, e) && a < |s.lookup|
    ensures Comes(s, k, t) && |t.entries| == |s.entries| && |t.agents| == |s.agents| && |s.last| == |s.lookup|
    ensures t.agents[k].pc == Writing(a, e, true, true) && t.lookup == s.lookup[a := Some(e)]
    ensures t.entries[e].diskAddr == Some(a) && t.entries[e].status == ALLOC_STATUS && t.issued == s.issued + {a}
    ensures forall d :: 0 <= d < |s.entries| && d != e ==> t.entries[d] == s.entries[d]
  {
    hide Safe, Comes, WellFormed;
    SafeIsFormed(s);
    Formed(s, k);
    TakesFree(s, k, a, e, true);
    var s1 := Opened(s, k, e, ALLOC_STATUS, AllocSetAddr(a, e));
    var s2 := Move(Put(s1, e, s1.entries[e].(diskAddr := Some(a))), k, AllocMap(a, e));
    LoadGoes(s, k, s1, s2);
    t := Move(s2.(lookup := s2.lookup[a := Some(e)], last := s2.last[a := s2.entries[e].data],
                  issued := s2.issued + {a}), k, Writing(a, e, true, true));
    LoadGoes(s, k, s2, t);
  }

  // -------------------------------------------------------------------- writing

  /** Nobody but agent k has counted itself on entry e. */
  predicate OnlyRef(s: State, k: nat, e: EntryNo)
    requires k < |s.agents|
  {
    && e < |s.entries| && |s.entries[e].refs| == STRIPES
    && forall i :: 0 <= i < STRIPES ==> s.entries[e].refs[i] <= if i == s.agents[k].stripe then 1 else 0
  }

  /** A claim becomes a write lock when the agent is alone on the entry and no write-back runs. */
  lemma LockGranted(s: State, k: nat, a: Addr, e: EntryNo)
    requires Safe(s) && k < |s.agents| && s.agents[k].pc == Claimed(a, e) && OnlyRef(s, k, e)
    requires !s.entries[e].status.writeback
    ensures Comes(s, k, Move(SetStatus(s, e, s.entries[e].status.(locked := true)), k, Writing(a, e, false, false)))
  {
    hide Safe, Comes, WellFormed;
    SafeIsFormed(s);
    Formed(s, k);
    Stays(s, k);
    var s1 := Move(SetStatus(s, e, s.entries[e].status.(locked := true)), k, WaitFlush(a, e));
    HoldGoes(s, k, s, s1);
    var s2 := Move(s1, k, CheckRefs(a, e, 0));
    HoldGoes(s, k, s1, s2);
    SeesAlone(s, k, s2, a, e, 0);
    assert Move(s2, k, Writing(a, e, false, false))
        == Move(SetStatus(s, e, s.entries[e].status.(locked := true)), k, Writing(a, e, false, false));
  }

  lemma {:induction false} SeesAlone(s: State, k: nat, t: State, a: Addr, e: EntryNo, i: nat)
    requires Safe(t) && Comes(s, k, t) && WellFormed(t) && k < |t.agents| && t.agents[k].pc == CheckRefs(a, e, i)
    requires OnlyRef(t, k, e) && i < STRIPES
    ensures Comes(s, k, Move(t, k, Writing(a, e, false, false)))
    decreases STRIPES - i
  {
    hide Safe, Comes, WellFormed;
    var t' := Move(t, k, if i + 1 < STRIPES then CheckRefs(a, e, i + 1) else Writing(a, e, false, false));
    HoldGoes(s, k, t, t');
    if i + 1 < STRIPES {
      SeesAlone(s, k, t', a, e, i + 1);
      assert Move(t', k, Writing(a, e, false, false)) == Move(t, k, Writing(a, e, false, false));
    }
  }

  /** A writer marks the page dirty, writes what it likes, and lets go of everything; the page then holds that. */
  lemma WriteAndRelease(s: State, k: nat, a: Addr, e: EntryNo, v: Content) returns (t: State)
    requires Safe(s) && k < |s.agents| && s.agents[k].pc == Writing(a, e, false, false)
    ensures e < |s.entries| && a < |s.last| && s.agents[k].stripe < |s.entries[e].refs| && |t.agents| == |s.agents|
    ensures Comes(s, k, t) && t.agents[k].pc == Idle && t.last == s.last[a := v] && t.lookup == s.lookup
    ensures |t.entries| == |s.entries| && t.entries[e].data == v && t.entries[e].diskAddr == s.entries[e].diskAddr
    ensures t.entries[e].status == s.entries[e].status.(clean := false, locked := false, claimed := false)
  {
    hide Safe, Comes, WellFormed;
    SafeIsFormed(s);
    Formed(s, k);
    Stays(s, k);
    var s1 := Move(SetStatus(s, e, s.entries[e].status.(clean := false)), k, Writing(a, e, true, false));
    HoldGoes(s, k, s, s1);
    var s2 := Put(s1, e, s1.entries[e].(data := v)).(last := s1.last[a := v]);
    HoldGoes(s, k, s1, s2);
    t := Releases(s, k, s2, a, e);
  }

  lemma Releases(s: State, k: nat, u: State, a: Addr, e: EntryNo) returns (t: State)
    requires Safe(u) && Comes(s, k, u) && WellFormed(u) && k < |u.agents|
    requires u.agents[k].pc == Writing(a, e, true, false)
    requires e < |u.entries| && u.agents[k].stripe < |u.entries[e].refs|
    ensures Comes(s, k, t) && t.lookup == u.lookup && t.last == u.last && |t.agents| == |u.agents|
    ensures t.agents[k].pc == Idle && |t.entries| == |u.entries|
    ensures t.entries[e].data == u.entries[e].data && t.entries[e].diskAddr == u.entries[e].diskAddr
    ensures t.entries[e].status == u.entries[e].status.(locked := false, claimed := false)
  {
    hide Safe, Comes, WellFormed;
    var u1 := Move(SetStatus(u, e, u.entries[e].status.(locked := false)), k, Claimed(a, e));
    HoldGoes(s, k, u, u1);
    var u2 := Move(SetStatus(u1, e, u1.entries[e].status.(claimed := false)), k, Reading(a, e));
    HoldGoes(s, k, u1, u2);
    t := Move(Dec(u2, e, u.agents[k].stripe), k, Idle);
    HoldGoes(s, k, u2, t);
  }

  // ------------------------------------------------------------------- evicting

  /** An entry that looks evictable, and on which nobody is counted. */
  predicate Evictable(s: State, a: Addr, e: EntryNo) {
    && e < |s.entries| && a < |s.lookup| && s.entries[e].status == EVICTABLE_STATUS && s.entries[e].diskAddr == Some(a)
    && |s.entries[e].refs| == STRIPES && forall i :: 0 <= i < STRIPES ==> s.entries[e].refs[i] == 0
  }

  /** Its eviction frees it and unmaps its page. */
  lemma EvictionFrees(s: State, k: nat, a: Addr, e: EntryNo) returns (t: State)
    requires Safe(s) && k < |s.agents| && s.agents[k].pc == EvictClear(e, true) && Evictable(s, a, e)
    ensures Comes(s, k, t) && t.agents == s.agents[k := s.agents[k].(pc := Idle)] && t.hands == s.hands
    ensures t.lookup == s.lookup[a := None] && |t.entries| == |s.entries|
    ensures t.entries[e].status == FREE_STATUS && t.entries[e].diskAddr == None
    ensures t.entries[e].refs == s.entries[e].refs
    ensures forall d :: 0 <= d < |s.entries| && d != e ==> t.entries[d] == s.entries[d]
  {
    hide Safe, Comes, WellFormed;
    var u := EvictionClaims(s, k, a, e);
    var v := EvictionLocks(s, k, u, a, e);
    t := EvictionEnds(s, k, v, a, e);
  }

  /** To the claim. */
  lemma EvictionClaims(s: State, k: nat, a: Addr, e: EntryNo) returns (t: State)
    requires Safe(s) && k < |s.agents| && s.agents[k].pc == EvictClear(e, true) && Evictable(s, a, e)
    ensures s.agents[k].stripe < STRIPES
    ensures Comes(s, k, t) && Safe(t) && WellFormed(t)
    ensures t == Move(SetStatus(Inc(s, e, s.agents[k].stripe), e, EVICTABLE_STATUS.(claimed := true)), k,
                      EvictTestLoading(e))
  {
    hide Safe, Comes, WellFormed;
    EvictionTests(s, k, a, e);
    t := EvictionCounts(s, k, Move(s, k, EvictInc(e)), e);
  }

  lemma EvictionTests(s: State, k: nat, a: Addr, e: EntryNo)
    requires Safe(s) && k < |s.agents| && s.agents[k].pc == EvictClear(e, true) && Evictable(s, a, e)
    ensures var t := Move(s, k, EvictInc(e)); Comes(s, k, t) && Safe(t) && WellFormed(t)
    ensures s.agents[k].stripe < STRIPES
  {
    hide Safe, Comes, WellFormed;
    SafeIsFormed(s);
    Formed(s, k);
    Stays(s, k);
    var s1 := Move(s, k, EvictQuick(e, true));
    EvictLockGoes(s, k, s, s1);
    var s2 := Move(s1, k, EvictTestLock(e));
    EvictLockGoes(s, k, s1, s2);
    var s3 := Move(s2, k, EvictInc(e));
    EvictLockGoes(s, k, s2, s3);
    assert s3 == Move(s, k, EvictInc(e));
  }

  lemma EvictionCounts(s: State, k: nat, u: State, e: EntryNo) returns (t: State)
    requires Safe(u) && Comes(s, k, u) && WellFormed(u) && k < |u.agents| && u.agents[k].pc == EvictInc(e)
    requires e < |u.entries| && u.agents[k].stripe < |u.entries[e].refs| && u.entries[e].status == EVICTABLE_STATUS
    ensures Comes(s, k, t) && Safe(t) && WellFormed(t)
    ensures t == Move(SetStatus(Inc(u, e, u.agents[k].stripe), e, EVICTABLE_STATUS.(claimed := true)), k,
                      EvictTestLoading(e))
  {
    hide Safe, Comes, WellFormed;
    var u1 := Move(Inc(u, e, u.agents[k].stripe), k, EvictTestFree(e));
    EvictLockGoes(s, k, u, u1);
    var u2 := Move(u1, k, EvictTestLock2(e, false));
    EvictLockGoes(s, k, u1, u2);
    var u3 := Move(u2, k, EvictClaim(e));
    EvictLockGoes(s, k, u2, u3);
    t := Move(SetStatus(u3, e, EVICTABLE_STATUS.(claimed := true)), k, EvictTestLoading(e));
    EvictLockGoes(s, k, u3, t);
  }

  /** To the write lock. */
  lemma EvictionLocks(s: State, k: nat, u: State, a: Addr, e: EntryNo) returns (t: State)
    requires Safe(u) && Comes(s, k, u) && WellFormed(u) && k < |u.agents| && u.agents[k].pc == EvictTestLoading(e)
    requires OnlyRef(u, k, e) && u.entries[e].status == EVICTABLE_STATUS.(claimed := true)
    ensures Comes(s, k, t) && Safe(t) && WellFormed(t)
    ensures t == Move(SetStatus(u, e, LOCKED_EVICTABLE_STATUS), k, EvictRecheck(e))
  {
    hide Safe, Comes, WellFormed;
    var u1 := Move(u, k, EvictLock(e));
    EvictLockGoes(s, k, u, u1);
    var u2 := Move(SetStatus(u1, e, LOCKED_EVICTABLE_STATUS), k, EvictTestFlush(e));
    EvictLockGoes(s, k, u1, u2);
    var u3 := Move(u2, k, EvictCheckRefs(e, 0));
    EvictLockGoes(s, k, u2, u3);
    EvictionAlone(s, k, u3, e, 0);
    t := Move(u3, k, EvictRecheck(e));
  }

  lemma {:induction false} EvictionAlone(s: State, k: nat, t: State, e: EntryNo, i: nat)
    requires Safe(t) && Comes(s, k, t) && WellFormed(t) && k < |t.agents| && t.agents[k].pc == EvictCheckRefs(e, i)
    requires OnlyRef(t, k, e) && i < STRIPES
    ensures var t' := Move(t, k, EvictRecheck(e)); Comes(s, k, t') && Safe(t') && WellFormed(t')
    decreases STRIPES - i
  {
    hide Safe, Comes, WellFormed;
    var t' := Move(t, k, if i + 1 < STRIPES then EvictCheckRefs(e, i + 1) else EvictRecheck(e));
    EvictLockGoes(s, k, t, t');
    if i + 1 < STRIPES {
      EvictionAlone(s, k, t', e, i + 1);
      assert Move(t', k, EvictRecheck(e)) == Move(t, k, EvictRecheck(e));
    }
  }

  /** To the end. */
  lemma EvictionEnds(s: State, k: nat, u: State, a: Addr, e: EntryNo) returns (t: State)
    requires Safe(u) && Comes(s, k, u) && WellFormed(u) && k < |u.agents| && u.agents[k].pc == EvictRecheck(e)
    requires e < |u.entries| && u.agents[k].stripe < |u.entries[e].refs| && a < |u.lookup|
    requires u.entries[e].status == LOCKED_EVICTABLE_STATUS && u.entries[e].diskAddr == Some(a)
    requires u.entries[e].refs[u.agents[k].stripe] == 1
    ensures Comes(s, k, t) && t.agents == u.agents[k := u.agents[k].(pc := Idle)] && t.lookup == u.lookup[a := None]
    ensures t.hands == u.hands
    ensures t.entries == u.entries[e := u.entries[e].(status := FREE_STATUS, diskAddr := None,
                                                      refs := u.entries[e].refs[u.agents[k].stripe := 0])]
  {
    hide Safe, Comes, WellFormed;
    var u1 := Move(u, k, EvictUnmap(e));
    EvictGoes(s, k, u, u1);
    var u2 := Move(u1.(lookup := u1.lookup[a := None]), k, EvictClearAddr(e));
    EvictGoes(s, k, u1, u2);
    t := EvictionLetsGo(s, k, u2, e);
  }

  lemma EvictionLetsGo(s: State, k: nat, u: State, e: EntryNo) returns (t: State)
    requires Safe(u) && Comes(s, k, u) && WellFormed(u) && k < |u.agents| && u.agents[k].pc == EvictClearAddr(e)
    requires e < |u.entries| && u.agents[k].stripe < |u.entries[e].refs|
    requires u.entries[e].refs[u.agents[k].stripe] == 1
    ensures Comes(s, k, t) && t.agents == u.agents[k := u.agents[k].(pc := Idle)] && t.lookup == u.lookup
    ensures t.hands == u.hands
    ensures t.entries == u.entries[e := u.entries[e].(status := FREE_STATUS, diskAddr := None,
                                                      refs := u.entries[e].refs[u.agents[k].stripe := 0])]
  {
    hide Safe, Comes, WellFormed;
    var u1 := Move(Put(u, e, u.entries[e].(diskAddr := None)), k, EvictFree(e));
    EvictGoes(s, k, u, u1);
    var u2 := Move(SetStatus(u1, e, FREE_STATUS), k, EvictDec(e));
    EvictGoes(s, k, u1, u2);
    t := Move(Dec(u2, e, u.agents[k].stripe), k, Idle);
    EvictGoes(s, k, u2, t);
  }

  // --------------------------------------------------------------- writing back

  /** A dirty page that nobody claims is written to the disk and marked clean. */
  lemma WriteBackCleans(s: State, k: nat, a: Addr, e: EntryNo) returns (t: State)
    requires Safe(s) && k < |s.agents| && s.agents[k].pc == FlushPick(e, Some(a)) && e < |s.entries| && a < |s.disk|
    requires s.entries[e].status in {CLEANABLE1_STATUS, CLEANABLE2_STATUS} && s.entries[e].diskAddr == Some(a)
    ensures Comes(s, k, t) && t.agents == s.agents[k := s.agents[k].(pc := Idle)] && t.lookup == s.lookup
    ensures t.hands == s.hands
    ensures t.disk == s.disk[a := s.entries[e].data]
    ensures t.entries == s.entries[e := s.entries[e].(status := s.entries[e].status.(clean := true))]
  {
    hide Safe, Comes, WellFormed;
    WriteBackBegins(s, k, a, e);
    t := WritesPage(s, k, Move(SetStatus(s, e, s.entries[e].status.(writeback := true)), k, FlushWrite(e, a)), a, e);
    assert s.entries[e].status.(writeback := true, clean := true).(writeback := false)
        == s.entries[e].status.(clean := true);
  }

  lemma WriteBackBegins(s: State, k: nat, a: Addr, e: EntryNo)
    requires Safe(s) && k < |s.agents| && s.agents[k].pc == FlushPick(e, Some(a)) && e < |s.entries|
    requires s.entries[e].status in {CLEANABLE1_STATUS, CLEANABLE2_STATUS} && s.entries[e].diskAddr == Some(a)
    ensures var t := Move(SetStatus(s, e, s.entries[e].status.(writeback := true)), k, FlushWrite(e, a));
      Comes(s, k, t) && Safe(t) && WellFormed(t)
  {
    hide Safe, Comes, WellFormed;
    SafeIsFormed(s);
    Formed(s, k);
    Stays(s, k);
    var s1 := Move(SetStatus(s, e, s.entries[e].status.(writeback := true)), k, FlushAddr(e));
    FlushGoes(s, k, s, s1);
    var s2 := Move(s1, k, FlushWrite(e, a));
    FlushGoes(s, k, s1, s2);
    assert s2 == Move(SetStatus(s, e, s.entries[e].status.(writeback := true)), k, FlushWrite(e, a));
  }

  lemma WritesPage(s: State, k: nat, u: State, a: Addr, e: EntryNo) returns (t: State)
    requires Safe(u) && Comes(s, k, u) && WellFormed(u) && k < |u.agents| && u.agents[k].pc == FlushWrite(e, a)
    requires e < |u.entries| && a < |u.disk|
    ensures Comes(s, k, t) && t.agents == u.agents[k := u.agents[k].(pc := Idle)] && t.lookup == u.lookup
    ensures t.hands == u.hands
    ensures t.disk == u.disk[a := u.entries[e].data]
    ensures var st := u.entries[e].status.(clean := true, writeback := false);
      t.entries == u.entries[e := u.entries[e].(status := st)]
  {
    hide Safe, Comes, WellFormed;
    var u1 := Move(u.(disk := u.disk[a := u.entries[e].data]), k, FlushSetClean(e, a));
    FlushGoes(s, k, u, u1);
    var u2 := Move(SetStatus(u1, e, u1.entries[e].status.(clean := true)), k, FlushDone(e, a));
    FlushGoes(s, k, u1, u2);
    t := Move(SetStatus(u2, e, u2.entries[e].status.(writeback := false)), k, Idle);
    FlushGoes(s, k, u2, t);
  }

  // ------------------------------------------------------------------ the hand

  /** The batch that the common hand points at next. */
  function NextBatch(s: State): nat
    requires 0 < |s.busy|
  {
    (s.evictHand + 1) % UINT32 % |s.busy|
  }

  /** A thread that moves its hand on gives its batch up and, if nobody has the next one, comes to evict it from its
      first entry on; the batch ahead is cleaned on the way, if nobody has it. */
  lemma HandMoves(s: State, k: nat) returns (t: State)
    requires Safe(s) && WellFormed(s) && k < |s.agents| && s.agents[k].pc.FindFree? && s.agents[k].thread < |s.hands|
    requires s.hands[s.agents[k].thread].Draws? && QuietThread(s, s.agents[k].thread)
    requires !GivenUp(s, k)[NextBatch(s)]
    ensures Comes(s, k, t) && t.agents == s.agents && t.entries == s.entries
    ensures t.hands == s.hands[s.agents[k].thread := Evict(NextBatch(s), 0)]
    ensures t.busy == GivenUp(s, k)[NextBatch(s) := true]
  {
    hide Safe, Comes, WellFormed;
    Busy(s);
    Stays(s, k);
    var h, b := s.agents[k].thread, NextBatch(s);
    var s1 := SetHand(s.(busy := GivenUp(s, k)), h, Advance);
    GivesUpBatch(s, k);
    HandGoes(s, k, s, s1);
    var s2 := SetHand(s1.(evictHand := (s1.evictHand + 1) % UINT32), h, TryClean(b));
    HandGoes(s, k, s1, s2);
    var s3 := CleansAhead(s, k, s2, b);
    t := SetHand(SetBusy(s3, b, true), h, Evict(b, 0));
    HandGoes(s, k, s3, t);
    assert t.hands == s.hands[h := Evict(b, 0)];
  }

  lemma Busy(s: State)
    requires WellFormed(s)
    ensures 0 < |s.busy|
  {
  }

  /** Which batches are busy once the agent's thread has given its own up. */
  function GivenUp(s: State, k: nat): (busy: seq<bool>)
    requires k < |s.agents| && s.agents[k].thread < |s.hands| && s.hands[s.agents[k].thread].Draws?
    ensures |busy| == |s.busy|
  {
    var held := s.hands[s.agents[k].thread].batch;
    if held.Some? && held.value < |s.busy| then s.busy[held.value := false] else s.busy
  }

  lemma GivesUpBatch(s: State, k: nat)
    requires WellFormed(s) && k < |s.agents| && s.agents[k].pc.FindFree? && s.agents[k].thread < |s.hands|
    requires s.hands[s.agents[k].thread].Draws? && QuietThread(s, s.agents[k].thread)
    ensures HandStep(s, k, SetHand(s.(busy := GivenUp(s, k)), s.agents[k].thread, Advance))
  {
  }

  lemma CleansAhead(s: State, k: nat, u: State, b: nat) returns (t: State)
    requires Safe(u) && Comes(s, k, u) && WellFormed(u) && k < |u.agents| && u.agents[k].pc.FindFree?
    requires u.agents[k].thread < |u.hands| && u.hands[u.agents[k].thread] == TryClean(b) && b < |u.busy|
    requires QuietThread(u, u.agents[k].thread)
    ensures Comes(s, k, t) && Safe(t) && WellFormed(t)
    ensures t.agents == u.agents && t.entries == u.entries && t.busy == u.busy
    ensures t.hands == u.hands[u.agents[k].thread := TryEvict(b)]
  {
    hide Safe, Comes, WellFormed;
    SafeIsFormed(u);
    var h, c := u.agents[k].thread, (b + u.gap) % |u.busy|;
    if u.busy[c] {
      t := SetHand(u, h, TryEvict(b));
      HandGoes(s, k, u, t);
    } else {
      var u1 := SetHand(SetBusy(u, c, true), h, Clean(b, c));
      HandGoes(s, k, u, u1);
      t := SetHand(SetBusy(u1, c, false), h, TryEvict(b));
      HandGoes(s, k, u1, t);
      assert t.busy == u.busy;
    }
  }

  /** After the last entry of its batch the thread takes free entries from it. */
  lemma HandRests(s: State, k: nat)
    requires Safe(s) && WellFormed(s) && k < |s.agents| && s.agents[k].pc.FindFree? && s.agents[k].thread < |s.hands|
    requires s.hands[s.agents[k].thread].Evict? && s.hands[s.agents[k].thread].i == BATCH
    requires QuietThread(s, s.agents[k].thread)
    ensures var h := s.agents[k].thread; Comes(s, k, SetHand(s, h, Draws(Some(s.hands[h].b))))
  {
    hide Safe, Comes, WellFormed;
    Stays(s, k);
    HandGoes(s, k, s, SetHand(s, s.agents[k].thread, Draws(Some(s.hands[s.agents[k].thread].b))));
  }

  /** The hand of the thread of idle agent k comes to entry e next, and the thread does nothing else with entries. */
  ghost predicate AtEntry(s: State, k: nat, e: EntryNo) {
    && k < |s.agents| && s.agents[k].pc == Idle && s.agents[k].thread < |s.hands| && QuietThread(s, s.agents[k].thread)
    && s.hands[s.agents[k].thread].Evict? && s.hands[s.agents[k].thread].i < BATCH
    && e == s.hands[s.agents[k].thread].b * BATCH + s.hands[s.agents[k].thread].i && e < |s.entries|
  }

  /** The hands once that entry is done with. */
  ghost function PastEntry(s: State, k: nat): seq<Hand>
    requires k < |s.agents| && s.agents[k].thread < |s.hands| && s.hands[s.agents[k].thread].Evict?
  {
    var h := s.hands[s.agents[k].thread];
    s.hands[s.agents[k].thread := Evict(h.b, h.i + 1)]
  }

  lemma ComesToEntry(s: State, k: nat, e: EntryNo)
    requires Safe(s) && WellFormed(s) && AtEntry(s, k, e)
    ensures var t := Move(s.(hands := PastEntry(s, k)), k, EvictClear(e, s.entries[e].status == EVICTABLE_STATUS));
      Comes(s, k, t) && Safe(t) && WellFormed(t)
  {
    hide Safe, WellFormed, Comes;
    var t := Move(s.(hands := PastEntry(s, k)), k, EvictClear(e, s.entries[e].status == EVICTABLE_STATUS));
    assert EvictBegins(s, k, t);
    BeginGoes(s, k, t);
  }

  /** An evictable entry that nobody is counted on is freed when the hand comes by. */
  lemma HandEvicts(s: State, k: nat, a: Addr, e: EntryNo) returns (t: State)
    requires Safe(s) && WellFormed(s) && AtEntry(s, k, e) && Evictable(s, a, e)
    ensures Comes(s, k, t) && t.agents == s.agents && t.hands == PastEntry(s, k)
    ensures t.lookup == s.lookup[a := None] && |t.entries| == |s.entries|
    ensures t.entries[e].status == FREE_STATUS && t.entries[e].diskAddr == None
    ensures forall d :: 0 <= d < |s.entries| && d != e ==> t.entries[d] == s.entries[d]
  {
    hide Safe, WellFormed, Comes, QuietThread;
    var u := Move(s.(hands := PastEntry(s, k)), k, EvictClear(e, true));
    ComesToEntry(s, k, e);
    t := EvictionFrees(u, k, a, e);
    Onward(s, k, u, t);
  }

  /** A page accessed since the hand last came by is spared, and is as good as not accessed until it is again. */
  lemma HandSpares(s: State, k: nat, e: EntryNo)
    requires Safe(s) && WellFormed(s) && AtEntry(s, k, e) && s.entries[e].status.accessed
    ensures Comes(s, k, ClearAccessed(s.(hands := PastEntry(s, k)), e))
  {
    hide Safe, WellFormed, Comes, QuietThread;
    ComesToEntry(s, k, e);
    var u := Move(s.(hands := PastEntry(s, k)), k, EvictClear(e, false));
    var v := Move(ClearAccessed(u, e), k, EvictQuick(e, false));
    EvictLockGoes(s, k, u, v);
    EvictLockGoes(s, k, v, Move(v, k, Idle));
    assert Move(v, k, Idle).agents == s.agents;
    assert Move(v, k, Idle) == ClearAccessed(s.(hands := PastEntry(s, k)), e);
  }

  /** A dirty page of the batch ahead that nobody claims is written to the disk and marked clean. */
  lemma HandCleans(s: State, k: nat, a: Addr, e: EntryNo) returns (t: State)
    requires Safe(s) && WellFormed(s) && k < |s.agents| && s.agents[k].pc == Idle && s.agents[k].thread < |s.hands|
    requires QuietThread(s, s.agents[k].thread) && s.hands[s.agents[k].thread].Clean?
    requires InBatch(e, s.hands[s.agents[k].thread].c) && e < |s.entries| && a < |s.disk|
    requires s.entries[e].status in {CLEANABLE1_STATUS, CLEANABLE2_STATUS} && s.entries[e].diskAddr == Some(a)
    ensures Comes(s, k, t) && t.agents == s.agents && t.lookup == s.lookup && t.hands == s.hands
    ensures t.disk == s.disk[a := s.entries[e].data]
    ensures t.entries == s.entries[e := s.entries[e].(status := s.entries[e].status.(clean := true))]
  {
    hide Safe, WellFormed, Comes, QuietThread;
    var u := Move(s, k, FlushPick(e, Some(a)));
    assert PickBegins(s, k, e, u);
    BeginGoes(s, k, u);
    t := WriteBackCleans(u, k, a, e);
    Onward(s, k, u, t);
  }
}
