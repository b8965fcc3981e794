/** The clock cache (src/clockcache.c) as a state machine: any number of agents, one atomic operation per step.
    An agent is one thread's work on one page; agents of one thread share its reference counter stripe. */
module ClockCache {
  import opened DataModel

  const STRIPES: nat := 4  // CC_RC_WIDTH
  const BATCH: nat := 64   // CC_ENTRIES_PER_BATCH
  const UINT32 := 0x1_0000_0000

  type Content = int
  type Addr = nat
  type EntryNo = nat

  /** The status word: CC_FREE, CC_ACCESSED, CC_CLEAN, CC_WRITEBACK, CC_LOADING, CC_WRITELOCKED, CC_CLAIMED. */
  datatype Status = Status(free: bool, accessed: bool, clean: bool, writeback: bool, loading: bool, locked: bool,
                           claimed: bool)

  const FREE_STATUS := Status(true, false, false, false, false, false, false)
  const EVICTABLE_STATUS := Status(false, false, true, false, false, false, false)
  const LOCKED_EVICTABLE_STATUS := Status(false, false, true, false, false, true, true)
  const ALLOC_STATUS := Status(false, false, false, false, false, true, true)
  const CLEANABLE1_STATUS := Status(false, false, false, false, false, false, false)
  const CLEANABLE2_STATUS := Status(false, true, false, false, false, false, false)
  const READ_LOADING_STATUS := Status(false, true, true, false, true, false, false)

  datatype Entry = Entry(status: Status, refs: seq<nat>, diskAddr: Option<Addr>, data: Content)

  /** Where an agent stands, named for what it does next. */
  datatype PC =
    | Idle
    | Lookup(a: Addr)
    // clockcache_get_internal, page in cache: clockcache_try_get_read, then the disk_addr recheck
    | TestLock(a: Addr, e: EntryNo)
    | IncRef(a: Addr, e: EntryNo)
    | TestFree(a: Addr, e: EntryNo)
    | TestLock2(a: Addr, e: EntryNo, free: bool)
    | DecRef(a: Addr, e: EntryNo, free: bool)
    | SetAccessed(a: Addr, e: EntryNo)
    | CheckAddr(a: Addr, e: EntryNo)
    | DecRefRetry(a: Addr, e: EntryNo)
    | WaitLoad(a: Addr, e: EntryNo)
    // the page is held for reading, claimed, being write locked, write locked
    | Reading(a: Addr, e: EntryNo)
    | Claimed(a: Addr, e: EntryNo)
    | WaitFlush(a: Addr, e: EntryNo)
    | CheckRefs(a: Addr, e: EntryNo, i: nat)
    | Writing(a: Addr, e: EntryNo, dirty: bool, brandNew: bool)
    // clockcache_get_internal, page not in cache, and clockcache_alloc
    | FindFree(a: Addr, alloc: bool)
    | OwnInc(a: Addr, e: EntryNo, alloc: bool)
    | OwnSetStatus(a: Addr, e: EntryNo, alloc: bool)
    | LoadMap(a: Addr, e: EntryNo)
    | AbortDec(a: Addr, e: EntryNo)
    | AbortFree(a: Addr, e: EntryNo)
    | LoadSetAddr(a: Addr, e: EntryNo)
    | LoadRead(a: Addr, e: EntryNo)
    | LoadDone(a: Addr, e: EntryNo)
    | AllocSetAddr(a: Addr, e: EntryNo)
    | AllocMap(a: Addr, e: EntryNo)
    // clockcache_try_evict
    | EvictClear(e: EntryNo, looks: bool)
    | EvictQuick(e: EntryNo, looks: bool)
    | EvictTestLock(e: EntryNo)
    | EvictInc(e: EntryNo)
    | EvictTestFree(e: EntryNo)
    | EvictTestLock2(e: EntryNo, free: bool)
    | EvictClaim(e: EntryNo)
    | EvictTestLoading(e: EntryNo)
    | EvictLock(e: EntryNo)
    | EvictTestFlush(e: EntryNo)
    | EvictCheckRefs(e: EntryNo, i: nat)
    | EvictRecheck(e: EntryNo)
    | EvictUnmap(e: EntryNo)
    | EvictClearAddr(e: EntryNo)
    | EvictFree(e: EntryNo)
    | EvictUnlock(e: EntryNo)
    | EvictUnclaim(e: EntryNo)
    | EvictDec(e: EntryNo)
    // writing one dirty entry back: the tests of clockcache_batch_start_writeback, with the address it read first, the
    // address, the write itself, and clockcache_write_callback
    | FlushPick(e: EntryNo, seen: Option<Addr>)
    | FlushAddr(e: EntryNo)
    | FlushWrite(e: EntryNo, a: Addr)
    | FlushSetClean(e: EntryNo, a: Addr)
    | FlushDone(e: EntryNo, a: Addr)

  /** Of a thread the agent has the number, and the stripe of the counters that goes with it. */
  datatype Agent = Agent(thread: nat, stripe: nat, pc: PC)

  /** What a thread's hand is at: it takes free entries from its batch (per_thread[tid].free_hand), or is in
      clockcache_move_hand, about to move on, to clean the batch c ahead of b, in the midst of it, about to take b, or
      to evict the entries of b from number i on. */
  datatype Hand =
    | Draws(batch: Option<nat>)
    | Advance
    | TryClean(b: nat)
    | Clean(b: nat, c: nat)
    | TryEvict(b: nat)
    | Evict(b: nat, i: nat)

  /** `busy` is batch_busy and `gap` cleaner_gap. `last` and `issued` are bookkeeping: the last content written to each
      address under a write lock, and the addresses given out so far. */
  datatype State = State(entries: seq<Entry>, lookup: seq<Option<EntryNo>>, disk: seq<Content>, agents: seq<Agent>,
                         hands: seq<Hand>, busy: seq<bool>, evictHand: nat, gap: nat,
                         last: seq<Content>, issued: set<Addr>)

  // --------------------------------------------------------- small updates

  function Move(s: State, k: nat, pc: PC): State
    requires k < |s.agents|
  {
    s.(agents := s.agents[k := s.agents[k].(pc := pc)])
  }

  function Put(s: State, e: EntryNo, en: Entry): State
    requires e < |s.entries|
  {
    s.(entries := s.entries[e := en])
  }

  function SetStatus(s: State, e: EntryNo, st: Status): State
    requires e < |s.entries|
  {
    Put(s, e, s.entries[e].(status := st))
  }

  function SetRefs(s: State, e: EntryNo, stripe: nat, n: nat): State
    requires e < |s.entries| && stripe < |s.entries[e].refs|
  {
    Put(s, e, s.entries[e].(refs := s.entries[e].refs[stripe := n]))
  }

  function Inc(s: State, e: EntryNo, stripe: nat): State
    requires e < |s.entries| && stripe < |s.entries[e].refs|
  {
    SetRefs(s, e, stripe, s.entries[e].refs[stripe] + 1)
  }

  /** The counter is an unsigned byte; running agents never take it below zero. */
  function Dec(s: State, e: EntryNo, stripe: nat): State
    requires e < |s.entries| && stripe < |s.entries[e].refs|
  {
    SetRefs(s, e, stripe, if s.entries[e].refs[stripe] == 0 then 255 else s.entries[e].refs[stripe] - 1)
  }

  /** The entry an agent works on. */
  function EntryOf(pc: PC): Option<EntryNo> {
    if pc.Idle? || pc.Lookup? || pc.FindFree? then None else Some(pc.e)
  }

  /** The page an agent wants. */
  function TargetOf(pc: PC): Option<Addr> {
    if pc.Idle? || Evicting(pc) || pc.FlushPick? || pc.FlushAddr? then None else Some(pc.a)
  }

  predicate Evicting(pc: PC) {
    || pc.EvictClear? || pc.EvictQuick? || pc.EvictTestLock? || pc.EvictInc? || pc.EvictTestFree?
    || pc.EvictTestLock2? || pc.EvictClaim?
    || pc.EvictTestLoading? || pc.EvictLock? || pc.EvictTestFlush? || pc.EvictCheckRefs? || pc.EvictRecheck?
    || pc.EvictUnmap? || pc.EvictClearAddr? || pc.EvictFree? || pc.EvictUnlock? || pc.EvictUnclaim? || pc.EvictDec?
  }

  /** The agent has taken a free entry and not yet made it a page. */
  predicate Owns(pc: PC) {
    || pc.OwnInc? || pc.OwnSetStatus? || Loading(pc) || pc.AllocSetAddr? || pc.AllocMap?
  }

  predicate Loading(pc: PC) {
    pc.LoadMap? || pc.AbortDec? || pc.AbortFree? || pc.LoadSetAddr? || pc.LoadRead? || pc.LoadDone?
  }

  // -------------------------------------------------------------- batches

  predicate InBatch(e: EntryNo, b: nat) {
    b * BATCH <= e < b * BATCH + BATCH
  }

  /** Work that a thread does to its end before its hand does anything else. */
  predicate Midway(pc: PC) {
    Owns(pc) || Evicting(pc) || pc.FlushPick?
  }

  /** Thread t is not in the midst of taking, evicting or picking an entry. */
  ghost predicate QuietThread(s: State, t: nat) {
    forall j :: 0 <= j < |s.agents| && s.agents[j].thread == t ==> !Midway(s.agents[j].pc)
  }

  predicate HandFormed(h: Hand, batches: nat) {
    match h
    case Draws(batch) => batch.Some? ==> batch.value < batches
    case Advance => true
    case TryClean(b) => b < batches
    case Clean(b, c) => b < batches && c < batches
    case TryEvict(b) => b < batches
    case Evict(b, i) => b < batches && i <= BATCH
  }

  predicate WellFormed(s: State) {
    && 0 < |s.busy| && |s.entries| == |s.busy| * BATCH
    && (forall t :: 0 <= t < |s.hands| ==> HandFormed(s.hands[t], |s.busy|))
    && |s.disk| == |s.last| == |s.lookup|
    && (forall e :: 0 <= e < |s.entries| ==> |s.entries[e].refs| == STRIPES)
    && (forall a :: 0 <= a < |s.lookup| && s.lookup[a].Some? ==> s.lookup[a].value < |s.entries|)
    && (forall e :: 0 <= e < |s.entries| && s.entries[e].diskAddr.Some? ==> s.entries[e].diskAddr.value < |s.lookup|)
    && (forall k :: 0 <= k < |s.agents| ==> AgentFormed(s, s.agents[k]))
  }

  predicate AgentFormed(s: State, g: Agent) {
    && g.stripe < STRIPES && g.thread < |s.hands|
    && (EntryOf(g.pc).Some? ==> EntryOf(g.pc).value < |s.entries|)
    && (TargetOf(g.pc).Some? ==> TargetOf(g.pc).value < |s.lookup|)
    && (g.pc.CheckRefs? || g.pc.EvictCheckRefs? ==> g.pc.i < STRIPES)
  }

  // ------------------------------------------------------------- the steps

  /** A page begins to be looked up or issued, an entry begins to be evicted or written back. The cache is asked
      only for pages given out, and a page is given out only while nothing refers to it. Entries are written back by
      whoever cleans their batch, and beside pages of their extent. */
  ghost predicate Begin(s: State, k: nat, s': State)
    requires WellFormed(s) && k < |s.agents|
  {
    || (exists a: nat :: a in s.issued && a < |s.lookup| && s' == Move(s, k, Lookup(a)))
    || (exists a: nat :: a !in s.issued && a < |s.lookup| && Unused(s, a) && s' == Move(s, k, FindFree(a, true)))
    || EvictBegins(s, k, s')
    || (exists e: nat :: e < |s.entries| && PickBegins(s, k, e, s'))
    || (exists e: nat :: e < |s.entries| && FlushBegins(s, k, e, s'))
  }

  /** clockcache_evict_batch comes to its next entry, and reads its status. */
  ghost predicate EvictBegins(s: State, k: nat, s': State)
    requires WellFormed(s) && k < |s.agents|
  {
    var t := s.agents[k].thread;
    t < |s.hands| && s.hands[t].Evict? && s.hands[t].i < BATCH && QuietThread(s, t) &&
    var h := s.hands[t];
    var e := h.b * BATCH + h.i;
    && e < |s.entries|
    && s' == Move(SetHand(s, t, Evict(h.b, h.i + 1)), k, EvictClear(e, s.entries[e].status == EVICTABLE_STATUS))
  }

  /** clockcache_batch_start_writeback comes to an entry of the batch being cleaned, and reads its address. */
  ghost predicate PickBegins(s: State, k: nat, e: EntryNo, s': State)
    requires WellFormed(s) && k < |s.agents| && e < |s.entries|
  {
    var t := s.agents[k].thread;
    && t < |s.hands| && s.hands[t].Clean? && InBatch(e, s.hands[t].c) && QuietThread(s, t)
    && s' == Move(s, k, FlushPick(e, s.entries[e].diskAddr))
  }

  /** clockcache_try_set_writeback */
  predicate FlushBegins(s: State, k: nat, e: EntryNo, s': State)
    requires k < |s.agents| && e < |s.entries|
  {
    && s.entries[e].status in {CLEANABLE1_STATUS, CLEANABLE2_STATUS}
    && s' == Move(SetStatus(s, e, s.entries[e].status.(writeback := true)), k, FlushAddr(e))
  }

  /** Nobody is about to use address a. */
  ghost predicate Unused(s: State, a: Addr) {
    forall j :: 0 <= j < |s.agents| ==> TargetOf(s.agents[j].pc) != Some(a)
  }

  function SetHand(s: State, t: nat, h: Hand): State
    requires t < |s.hands|
  {
    s.(hands := s.hands[t := h])
  }

  function SetBusy(s: State, b: nat, busy: bool): State
    requires b < |s.busy|
  {
    s.(busy := s.busy[b := busy])
  }

  function ClearAccessed(s: State, e: EntryNo): State
    requires e < |s.entries|
  {
    SetStatus(s, e, s.entries[e].status.(accessed := false))
  }

  /** Steps of a get on a page that the lookup table maps. */
  ghost predicate GetStep(s: State, k: nat, s': State)
    requires WellFormed(s) && k < |s.agents|
  {
    var g := s.agents[k];
    match g.pc
    case Lookup(a) =>
      s' == Move(s, k, if s.lookup[a].Some? then TestLock(a, s.lookup[a].value) else FindFree(a, false))
    case TestLock(a, e) =>
      s' == Move(s, k, if s.entries[e].status.locked then TestLock(a, e) else IncRef(a, e))
      || (s.entries[e].status.locked && s' == Move(s, k, Idle))  // the non-blocking get gives up
    case IncRef(a, e) => s' == Move(Inc(s, e, g.stripe), k, TestFree(a, e))
    case TestFree(a, e) => s' == Move(s, k, TestLock2(a, e, s.entries[e].status.free))
    case TestLock2(a, e, free) =>
      s' == Move(s, k, if free || s.entries[e].status.locked then DecRef(a, e, free) else SetAccessed(a, e))
    case DecRef(a, e, free) =>
      s' == Move(Dec(s, e, g.stripe), k, if free then Lookup(a) else TestLock(a, e))
      || (!free && s' == Move(Dec(s, e, g.stripe), k, Idle))
    case SetAccessed(a, e) =>
      s' == Move(s, k, CheckAddr(a, e))
      || s' == Move(SetStatus(s, e, s.entries[e].status.(accessed := true)), k, CheckAddr(a, e))
    case CheckAddr(a, e) =>
      s' == Move(s, k, if s.entries[e].diskAddr == Some(a) then WaitLoad(a, e) else DecRefRetry(a, e))
    case DecRefRetry(a, e) => s' == Move(Dec(s, e, g.stripe), k, Lookup(a))
    case WaitLoad(a, e) => s' == Move(s, k, if s.entries[e].status.loading then WaitLoad(a, e) else Reading(a, e))
    case _ => false
  }

  /** Steps of an agent that holds the page: claim, write lock, write, and back. */
  ghost predicate HoldStep(s: State, k: nat, s': State)
    requires WellFormed(s) && k < |s.agents|
  {
    var g := s.agents[k];
    match g.pc
    case Reading(a, e) =>
      var st := s.entries[e].status;
      || (!st.claimed && s' == Move(SetStatus(s, e, st.(claimed := true)), k, Claimed(a, e)))
      || s' == SetStatus(s, e, st.(accessed := true))
      || s' == Move(Dec(s, e, g.stripe), k, Idle)
    case Claimed(a, e) =>
      var st := s.entries[e].status;
      || s' == Move(SetStatus(s, e, st.(locked := true)), k, WaitFlush(a, e))
      || s' == Move(SetStatus(s, e, st.(claimed := false)), k, Reading(a, e))
    case WaitFlush(a, e) =>
      s' == Move(s, k, if s.entries[e].status.writeback then WaitFlush(a, e) else CheckRefs(a, e, 0))
    case CheckRefs(a, e, i) =>
      s' == Move(s, k, if s.entries[e].refs[i] > (if g.stripe == i then 1 else 0) then CheckRefs(a, e, i)
                       else if i + 1 < STRIPES then CheckRefs(a, e, i + 1) else Writing(a, e, false, false))
    case Writing(a, e, dirty, fr) =>
      var st := s.entries[e].status;
      || s' == Move(SetStatus(s, e, st.(clean := false)), k, Writing(a, e, true, fr))
      || (dirty && exists v :: s' == Put(s, e, s.entries[e].(data := v)).(last := s.last[a := v]))
      || s' == Move(SetStatus(s, e, st.(locked := false)), k, Claimed(a, e))
    case _ => false
  }

  /** Steps that bring a page in: taking a free entry, mapping it, reading the disk, or giving up. */
  ghost predicate LoadStep(s: State, k: nat, s': State)
    requires WellFormed(s) && k < |s.agents|
  {
    var g := s.agents[k];
    match g.pc
    case FindFree(a, alloc) =>
      exists e: nat :: e < |s.entries| && Takes(s, g.thread, e) && s.entries[e].status == FREE_STATUS
        && s' == Move(SetStatus(s, e, ALLOC_STATUS), k, OwnInc(a, e, alloc))
    case OwnInc(a, e, alloc) => s' == Move(Inc(s, e, g.stripe), k, OwnSetStatus(a, e, alloc))
    case OwnSetStatus(a, e, alloc) =>
      s' == if alloc then Move(SetStatus(s, e, ALLOC_STATUS), k, AllocSetAddr(a, e))
            else Move(SetStatus(s, e, READ_LOADING_STATUS), k, LoadMap(a, e))
    case LoadMap(a, e) =>
      s' == if s.lookup[a].None? then Move(s.(lookup := s.lookup[a := Some(e)]), k, LoadSetAddr(a, e))
            else Move(s, k, AbortDec(a, e))
    case AbortDec(a, e) => s' == Move(Dec(s, e, g.stripe), k, AbortFree(a, e))
    case AbortFree(a, e) => s' == Move(SetStatus(s, e, FREE_STATUS), k, Lookup(a))
    case LoadSetAddr(a, e) => s' == Move(Put(s, e, s.entries[e].(diskAddr := Some(a))), k, LoadRead(a, e))
    case LoadRead(a, e) => s' == Move(Put(s, e, s.entries[e].(data := s.disk[a])), k, LoadDone(a, e))
    case LoadDone(a, e) => s' == Move(SetStatus(s, e, s.entries[e].status.(loading := false)), k, Reading(a, e))
    case AllocSetAddr(a, e) => s' == Move(Put(s, e, s.entries[e].(diskAddr := Some(a))), k, AllocMap(a, e))
    case AllocMap(a, e) =>
      s' == Move(s.(lookup := s.lookup[a := Some(e)], last := s.last[a := s.entries[e].data],
                    issued := s.issued + {a}), k, Writing(a, e, true, true))
    case _ => false
  }

  /** The thread takes free entries from the batch of entry e. */
  predicate Takes(s: State, t: nat, e: EntryNo) {
    t < |s.hands| && s.hands[t].Draws? && s.hands[t].batch.Some? && InBatch(e, s.hands[t].batch.value)
  }

  /** Steps of clockcache_move_hand, for an agent in need of a free entry: the old batch is given up, the common hand
      moved on, the batch ahead cleaned if nobody has it, and the next batch taken if nobody has it. */
  ghost predicate HandStep(s: State, k: nat, s': State)
    requires WellFormed(s) && k < |s.agents|
  {
    var t := s.agents[k].thread;
    t < |s.hands| && s.agents[k].pc.FindFree? && QuietThread(s, t) &&
    match s.hands[t]
    case Draws(batch) =>
      s' == SetHand(if batch.Some? && batch.value < |s.busy| then SetBusy(s, batch.value, false) else s, t, Advance)
    case Advance =>
      var h := (s.evictHand + 1) % UINT32;
      s' == SetHand(s.(evictHand := h), t, TryClean(h % |s.busy|))
    case TryClean(b) =>
      var c := (b + s.gap) % |s.busy|;
      s' == if s.busy[c] then SetHand(s, t, TryEvict(b)) else SetHand(SetBusy(s, c, true), t, Clean(b, c))
    case Clean(b, c) => s' == SetHand(SetBusy(s, c, false), t, TryEvict(b))
    case TryEvict(b) =>
      s' == if s.busy[b] then SetHand(s, t, Advance) else SetHand(SetBusy(s, b, true), t, Evict(b, 0))
    case Evict(b, i) => i == BATCH && s' == SetHand(s, t, Draws(Some(b)))
  }

  /** Steps of an eviction up to the write lock. The page may be pinned, and one that does not look evictable is left
      alone. */
  ghost predicate EvictLockStep(s: State, k: nat, s': State)
    requires WellFormed(s) && k < |s.agents|
  {
    var g := s.agents[k];
    match g.pc
    case EvictClear(e, looks) =>
      s' == Move(s, k, EvictQuick(e, looks)) || s' == Move(ClearAccessed(s, e), k, EvictQuick(e, looks))
    case EvictQuick(e, looks) =>
      s' == Move(s, k, Idle)
      || (looks && s.entries[e].refs[g.stripe] == 0 && s' == Move(s, k, EvictTestLock(e)))
    case EvictTestLock(e) => s' == Move(s, k, if s.entries[e].status.locked then Idle else EvictInc(e))
    case EvictInc(e) => s' == Move(Inc(s, e, g.stripe), k, EvictTestFree(e))
    case EvictTestFree(e) => s' == Move(s, k, EvictTestLock2(e, s.entries[e].status.free))
    case EvictTestLock2(e, free) =>
      s' == Move(s, k, if free || s.entries[e].status.locked then EvictDec(e) else EvictClaim(e))
    case EvictClaim(e) =>
      var st := s.entries[e].status;
      s' == if st.claimed then Move(s, k, EvictDec(e))
            else Move(SetStatus(s, e, st.(claimed := true)), k, EvictTestLoading(e))
    case EvictTestLoading(e) => s' == Move(s, k, if s.entries[e].status.loading then EvictUnclaim(e) else EvictLock(e))
    case EvictLock(e) => s' == Move(SetStatus(s, e, s.entries[e].status.(locked := true)), k, EvictTestFlush(e))
    case EvictTestFlush(e) =>
      s' == Move(s, k, if s.entries[e].status.writeback then EvictUnlock(e) else EvictCheckRefs(e, 0))
    case EvictCheckRefs(e, i) =>
      s' == Move(s, k, if s.entries[e].refs[i] > (if g.stripe == i then 1 else 0) then EvictUnlock(e)
                       else if i + 1 < STRIPES then EvictCheckRefs(e, i + 1) else EvictRecheck(e))
    case _ => false
  }

  /** Steps of an eviction from the write lock on. A pinned page may be spared at the recheck. */
  ghost predicate EvictStep(s: State, k: nat, s': State)
    requires WellFormed(s) && k < |s.agents|
  {
    var g := s.agents[k];
    match g.pc
    case EvictRecheck(e) =>
      || s' == Move(s, k, EvictUnlock(e))
      || (s.entries[e].status == LOCKED_EVICTABLE_STATUS && s' == Move(s, k, EvictUnmap(e)))
    case EvictUnmap(e) =>
      s' == if s.entries[e].diskAddr.None? then Move(s, k, EvictFree(e))
            else Move(s.(lookup := s.lookup[s.entries[e].diskAddr.value := None]), k, EvictClearAddr(e))
    case EvictClearAddr(e) => s' == Move(Put(s, e, s.entries[e].(diskAddr := None)), k, EvictFree(e))
    case EvictFree(e) => s' == Move(SetStatus(s, e, FREE_STATUS), k, EvictDec(e))
    case EvictUnlock(e) => s' == Move(SetStatus(s, e, s.entries[e].status.(locked := false)), k, EvictUnclaim(e))
    case EvictUnclaim(e) => s' == Move(SetStatus(s, e, s.entries[e].status.(claimed := false)), k, EvictDec(e))
    case EvictDec(e) => s' == Move(Dec(s, e, g.stripe), k, Idle)
    case _ => false
  }

  /** Steps of a write-back, from the compare-and-swap to the end of the callback. */
  ghost predicate FlushStep(s: State, k: nat, s': State)
    requires WellFormed(s) && k < |s.agents|
  {
    var g := s.agents[k];
    match g.pc
    case FlushPick(e, _) => s' == Move(s, k, Idle) || FlushBegins(s, k, e, s')
    case FlushAddr(e) =>
      s.entries[e].diskAddr.Some? && s' == Move(s, k, FlushWrite(e, s.entries[e].diskAddr.value))
    case FlushWrite(e, a) => s' == Move(s.(disk := s.disk[a := s.entries[e].data]), k, FlushSetClean(e, a))
    case FlushSetClean(e, a) =>
      s' == Move(SetStatus(s, e, s.entries[e].status.(clean := true)), k, FlushDone(e, a))
    case FlushDone(e, a) =>
      s' == Move(SetStatus(s, e, s.entries[e].status.(writeback := false)), k, Idle)
    case _ => false
  }

  /** Agent k takes one step. */
  ghost predicate Next(s: State, k: nat, s': State)
    requires WellFormed(s)
  {
    k < |s.agents| &&
    ( (s.agents[k].pc.Idle? && Begin(s, k, s')) || GetStep(s, k, s') || HoldStep(s, k, s') || LoadStep(s, k, s')
      || HandStep(s, k, s') || EvictLockStep(s, k, s') || EvictStep(s, k, s') || FlushStep(s, k, s') )
  }

  /** An empty cache over a disk whose given-out pages are up to date. */
  ghost predicate Init(s: State) {
    && WellFormed(s)
    && (forall e :: 0 <= e < |s.entries| ==> s.entries[e].status == FREE_STATUS && s.entries[e].diskAddr == None)
    && (forall e, i :: 0 <= e < |s.entries| && 0 <= i < STRIPES ==> s.entries[e].refs[i] == 0)
    && (forall a :: 0 <= a < |s.lookup| ==> s.lookup[a] == None)
    && (forall k :: 0 <= k < |s.agents| ==>
          s.agents[k].pc == Idle && s.agents[k].stripe == s.agents[k].thread % STRIPES)
    && (forall b :: 0 <= b < |s.busy| ==> !s.busy[b])
    && (forall t :: 0 <= t < |s.hands| ==> s.hands[t] == Draws(None))
    && (forall a :: a in s.issued ==> a < |s.lookup| && s.disk[a] == s.last[a])
  }
}
