/** Any number of threads allocating from one mini allocator, each atomic operation a step of one thread: the lock token
    in next_addr, the extent allocator's compare-and-swap, and the locks on the metadata pages
    (src/mini_allocator.c, src/rc_allocator.c). */
module MiniThreads {
  import opened DataModel
  import opened Concatenation
  import opened RcAllocators
  import opened KeyedExtents
  import opened MiniAllocators
  import opened KeyOrder

  /** A call of mini_alloc. */
  datatype Job = Job(batch: nat, key: Key)

  /** What an extent is wanted for: the batch's reserve, or the metadata page after page t. */
  datatype Want = Reserve | Meta(t: nat)

  /** Where a thread stands, named for what it does next; x is the extent it is about to record. */
  datatype PC =
    | Idle
    // mini_lock_batch_get_next_addr
    | LoadNext(job: Job)
    | SwapNext(job: Job, next: nat)
    | ReadReserve(job: Job, next: nat)
    // rc_allocator_alloc
    | AllocFirst(job: Job, x: nat, want: Want)
    | AllocHand(job: Job, x: nat, want: Want, first: nat)
    | AllocTest(job: Job, x: nat, want: Want, first: nat, h: nat)
    | AllocSwap(job: Job, x: nat, want: Want, first: nat, h: nat)
    | Failed(job: Job, x: nat, want: Want)
    | StoreReserve(job: Job, x: nat, h: nat)
    // mini_full_lock_meta_tail
    | ReadTail(job: Job, x: nat)
    | GetTail(job: Job, x: nat, t: nat)
    | CheckTail(job: Job, x: nat, t: nat)
    | ClaimTail(job: Job, x: nat, t: nat)
    | LockTail(job: Job, x: nat, t: nat)
    | AwaitReaders(job: Job, x: nat, t: nat)
    // mini_append_entry
    | Append(job: Job, x: nat, t: nat)
    | LinkTail(job: Job, x: nat, t: nat, extent: Option<nat>)
    | UnlockOld(job: Job, x: nat, t: nat)
    | UnclaimOld(job: Job, x: nat, t: nat)
    | AppendNew(job: Job, x: nat, t: nat)
    | UnlockTail(job: Job, x: nat, t: nat)
    | UnclaimTail(job: Job, x: nat, t: nat)
    // mini_unlock_batch_set_next_addr
    | StoreNext(job: Job, page: nat)

  /** A page of metadata, with its claim and its write lock. */
  datatype MetaPage = MetaPage(entries: seq<Entry>, claim: Option<nat>, locked: bool)

  /** `nexts` is None where the lock token stands. The last metadata page is the tail. Bookkeeping: where each batch
      goes on, token or not; the pages returned so far; the extents that others hold or that hold metadata; and each
      thread's scan for an extent. */
  datatype State = State(size: nat, nexts: seq<Option<nat>>, reserve: seq<nat>, counts: seq<int>, hand: nat,
                         pages: seq<MetaPage>, threads: seq<PC>, goes: seq<nat>, returned: seq<nat>,
                         foreign: set<nat>, meta: set<nat>, scans: seq<Scan>)

  /** A thread's scan of the allocator's map: the hand when it began, and where it last took it. */
  datatype Scan = Scan(from: nat, at: nat)

  /** What a step leaves open: the call an idle thread makes, whether the entry fits the page, and whether the next
      metadata page begins an extent. */
  datatype Choice = Choice(job: Option<Job>, fits: bool, crosses: bool)

  function Texts(pages: seq<MetaPage>): seq<seq<Entry>> {
    seq(|pages|, i requires 0 <= i < |pages| => pages[i].entries)
  }

  /** The metadata, in the order of the links. */
  function Entries(s: State): seq<Entry> {
    Flat(Texts(s.pages))
  }

  /** The end of one round of the allocator's scan. */
  function AllocMore(capacity: nat, pc: PC): PC
    requires (pc.AllocTest? || pc.AllocSwap?) && capacity > 0
  {
    if (pc.h + 1) % capacity == pc.first then Failed(pc.job, pc.x, pc.want)
    else AllocHand(pc.job, pc.x, pc.want, pc.first)
  }

  function Got(pc: PC): PC
    requires pc.AllocSwap?
  {
    if pc.want.Reserve? then StoreReserve(pc.job, pc.x, pc.h) else LinkTail(pc.job, pc.x, pc.want.t, Some(pc.h))
  }

  /** The thread has got the page for reading and has not claimed it. */
  predicate Reads(pc: PC, p: nat) {
    (pc.CheckTail? || pc.ClaimTail?) && pc.t == p
  }

  predicate OtherReads(threads: seq<PC>, u: nat, p: nat) {
    exists v :: 0 <= v < |threads| && v != u && Reads(threads[v], p)
  }

  predicate Allocates(pc: PC) {
    pc.AllocFirst? || pc.AllocHand? || pc.AllocTest? || pc.AllocSwap? || pc.Failed?
  }

  predicate OnPage(pc: PC) {
    || pc.GetTail? || pc.CheckTail? || pc.ClaimTail? || pc.LockTail? || pc.AwaitReaders? || pc.Append? || pc.LinkTail?
    || pc.UnlockOld? || pc.UnclaimOld? || pc.AppendNew? || pc.UnlockTail? || pc.UnclaimTail?
  }

  /** The thread's indices are in range. */
  predicate Fits(s: State, pc: PC) {
    && (!pc.Idle? ==> pc.job.batch < |s.nexts|)
    && (OnPage(pc) ==> pc.t < |s.pages|)
    && (Allocates(pc) && pc.want.Meta? ==> pc.want.t < |s.pages|)
    && (pc.AllocTest? || pc.AllocSwap? || pc.StoreReserve? ==> pc.h < |s.counts|)
    && (pc.LinkTail? && pc.extent.Some? ==> pc.extent.value < |s.counts|)
    && (pc.UnlockOld? || pc.UnclaimOld? ==> pc.t + 1 < |s.pages|)
  }

  predicate Shape(s: State) {
    && 0 < s.size && 0 < |s.counts| && |s.nexts| == |s.reserve| == |s.goes| && 0 < |s.pages|
    && |s.scans| == |s.threads| && forall u :: 0 <= u < |s.threads| ==> Fits(s, s.threads[u])
  }

  /** Where thread u goes on from `pc`. */
  function Next(s: State, u: nat, pc: PC, choice: Choice): PC
    requires Shape(s) && Fits(s, pc)
  {
    match pc
    case Idle =>
      if choice.job.Some? && choice.job.value.batch < |s.nexts| then LoadNext(choice.job.value) else Idle
    case LoadNext(job) => if s.nexts[job.batch].None? then pc else SwapNext(job, s.nexts[job.batch].value)
    case SwapNext(job, next) => if s.nexts[job.batch] == Some(next) then ReadReserve(job, next) else LoadNext(job)
    case ReadReserve(job, next) =>
      if next % s.size == 0 then AllocFirst(job, s.reserve[job.batch], Reserve) else StoreNext(job, next)
    case AllocFirst(job, x, want) => AllocHand(job, x, want, s.hand % |s.counts|)
    case AllocHand(job, x, want, first) => AllocTest(job, x, want, first, s.hand % |s.counts|)
    case AllocTest(job, x, want, first, h) =>
      if s.counts[h] == AL_FREE then AllocSwap(job, x, want, first, h) else AllocMore(|s.counts|, pc)
    case AllocSwap(_, _, _, _, h) => if s.counts[h] == AL_FREE then Got(pc) else AllocMore(|s.counts|, pc)
    case Failed(_, _, _) => pc  // platform_assert_status_ok stops the program
    case StoreReserve(job, x, _) => ReadTail(job, x)
    case ReadTail(job, x) => GetTail(job, x, |s.pages| - 1)
    case GetTail(job, x, t) => if s.pages[t].locked then pc else CheckTail(job, x, t)
    case CheckTail(job, x, t) => if t == |s.pages| - 1 then ClaimTail(job, x, t) else ReadTail(job, x)
    case ClaimTail(job, x, t) => if s.pages[t].claim.None? then LockTail(job, x, t) else ReadTail(job, x)
    case LockTail(job, x, t) => AwaitReaders(job, x, t)
    case AwaitReaders(job, x, t) => if OtherReads(s.threads, u, t) then pc else Append(job, x, t)
    case Append(job, x, t) =>
      if choice.fits then UnlockTail(job, x, t)
      else if choice.crosses then AllocFirst(job, x, Meta(t)) else LinkTail(job, x, t, None)
    case LinkTail(job, x, t, _) => UnlockOld(job, x, t)
    case UnlockOld(job, x, t) => UnclaimOld(job, x, t)
    case UnclaimOld(job, x, t) => AppendNew(job, x, t + 1)
    case AppendNew(job, x, t) => UnlockTail(job, x, t)
    case UnlockTail(job, x, t) => UnclaimTail(job, x, t)
    case UnclaimTail(job, x, _) => StoreNext(job, x * s.size)
    case StoreNext(_, _) => Idle
  }

  /** What its step does to the metadata pages: the entry is appended, a page linked, a flag set or cleared. */
  function PagesAfter(s: State, u: nat, pc: PC, choice: Choice): seq<MetaPage>
    requires Shape(s) && Fits(s, pc)
  {
    if pc.LinkTail? then s.pages + [MetaPage([], Some(u), true)]
    else if !OnPage(pc) then s.pages
    else
      var page := s.pages[pc.t];
      if pc.ClaimTail? && page.claim.None? then s.pages[pc.t := page.(claim := Some(u))]
      else if pc.LockTail? then s.pages[pc.t := page.(locked := true)]
      else if Records(pc, choice) then
        s.pages[pc.t := page.(entries := page.entries + [Entry(Some(pc.x), pc.job.batch, pc.job.key)])]
      else if pc.UnlockOld? || pc.UnlockTail? then s.pages[pc.t := page.(locked := false)]
      else if pc.UnclaimOld? || pc.UnclaimTail? then s.pages[pc.t := page.(claim := None)]
      else s.pages
  }

  predicate Records(pc: PC, choice: Choice) {
    (pc.Append? && choice.fits) || pc.AppendNew?
  }

  /** What its step does to the batches and the extents. A batch goes on past a page as soon as the page is taken. */
  function Effect(s: State, u: nat, pc: PC, choice: Choice): State
    requires Shape(s) && Fits(s, pc)
  {
    if pc.SwapNext? && s.nexts[pc.job.batch] == Some(pc.next) then s.(nexts := s.nexts[pc.job.batch := None])
    else if pc.ReadReserve? && pc.next % s.size != 0 then s.(goes := s.goes[pc.job.batch := pc.next + 1])
    else if pc.AllocFirst? && u < |s.scans| then s.(scans := s.scans[u := Scan(s.hand, s.hand)])
    else if pc.AllocHand? && u < |s.scans| then
      s.(hand := s.hand + 1, scans := s.scans[u := s.scans[u].(at := s.hand)])
    else if pc.AllocSwap? && s.counts[pc.h] == AL_FREE then s.(counts := s.counts[pc.h := AL_ONE_REF])
    else if pc.StoreReserve? then s.(reserve := s.reserve[pc.job.batch := pc.h])
    else if Records(pc, choice) then s.(goes := s.goes[pc.job.batch := pc.x * s.size + 1])
    else if pc.LinkTail? && pc.extent.Some? then s.(meta := s.meta + {pc.extent.value})
    else if pc.StoreNext? then
      s.(nexts := s.nexts[pc.job.batch := Some(pc.page + 1)], returned := s.returned + [pc.page])
    else s
  }

  /** One atomic operation of thread u. */
  function Act(s: State, u: nat, choice: Choice): State
    requires Shape(s) && u < |s.threads|
  {
    var pc := s.threads[u];
    assert Fits(s, pc);
    Effect(s, u, pc, choice).(pages := PagesAfter(s, u, pc, choice), threads := s.threads[u := Next(s, u, pc, choice)])
  }

  /** A step of a thread, or another user of the extent allocator setting the count of an extent that is free or
      its own. */
  datatype Event = Step(u: nat, choice: Choice) | Others(x: nat, count: nat)

  function After(s: State, e: Event): State
    requires Shape(s)
  {
    match e
    case Step(u, choice) => if u < |s.threads| then Act(s, u, choice) else s
    case Others(x, count) =>
      if x < |s.counts| && (x in s.foreign || s.counts[x] == AL_FREE) then
        s.(counts := s.counts[x := count],
           foreign := if count == AL_FREE then s.foreign - {x} else s.foreign + {x})
      else s
  }

  // ---------------------------------------------------------------- invariant

  /** The thread has replaced its batch's next address by the lock token. */
  predicate HoldsBatch(pc: PC) {
    !pc.Idle? && !pc.LoadNext? && !pc.SwapNext?
  }

  /** The page the thread is about to return. */
  function InFlight(size: nat, pc: PC): Option<nat> {
    if pc.StoreNext? then Some(pc.page)
    else if pc.UnlockTail? || pc.UnclaimTail? then Some(pc.x * size)
    else None
  }

  /** The extent to record is still the batch's reserve. */
  predicate StillReserve(pc: PC) {
    (Allocates(pc) && pc.want.Reserve?) || pc.StoreReserve?
  }

  /** The thread wants an extent for the metadata page after page p. */
  predicate Extends(pc: PC, p: nat) {
    Allocates(pc) && pc.want == Meta(p)
  }

  /** The thread is alone on page p, which is the tail. */
  predicate Exclusive(pc: PC, p: nat) {
    ((pc.Append? || pc.LinkTail?) && pc.t == p) || Extends(pc, p)
  }

  /** The thread has claimed page p. */
  predicate Claims(pc: PC, p: nat) {
    || ((pc.LockTail? || pc.AwaitReaders? || pc.UnlockOld? || pc.UnclaimOld? || pc.AppendNew? || pc.UnlockTail?
         || pc.UnclaimTail?) && pc.t == p)
    || Exclusive(pc, p)
    || ((pc.UnlockOld? || pc.UnclaimOld?) && pc.t + 1 == p)
  }

  /** The thread has write locked page p. */
  predicate Locks(pc: PC, p: nat) {
    || ((pc.AwaitReaders? || pc.UnlockOld? || pc.AppendNew? || pc.UnlockTail?) && pc.t == p)
    || Exclusive(pc, p)
    || ((pc.UnlockOld? || pc.UnclaimOld?) && pc.t + 1 == p)
  }

  /** The page the thread takes to be the tail, and that stays so. */
  predicate OnTail(pc: PC, p: nat) {
    || ((pc.ClaimTail? || pc.LockTail? || pc.AwaitReaders? || pc.AppendNew?) && pc.t == p)
    || Exclusive(pc, p)
    || ((pc.UnlockOld? || pc.UnclaimOld?) && pc.t + 1 == p)
  }

  /** The extent to record is in the thread's hands: no longer the reserve and not yet recorded. */
  predicate Carries(pc: PC) {
    || pc.ReadTail? || pc.GetTail? || pc.CheckTail? || pc.ClaimTail? || pc.LockTail? || pc.AwaitReaders? || pc.Append?
    || pc.LinkTail? || pc.UnlockOld? || pc.UnclaimOld? || pc.AppendNew?
    || (Allocates(pc) && pc.want.Meta?)
  }

  function Bit(b: bool): nat {
    if b then 1 else 0
  }

  /** How often extent x is in the thread's hands. */
  function InHand(pc: PC, x: nat): nat {
    Bit(Carries(pc) && pc.x == x) + Bit(pc.StoreReserve? && pc.h == x)
    + Bit(pc.LinkTail? && pc.extent == Some(x))
  }

  function InHands(threads: seq<PC>, x: nat): nat {
    if threads == [] then 0 else InHands(threads[..|threads| - 1], x) + InHand(threads[|threads| - 1], x)
  }

  function TimesReserved(reserve: seq<nat>, x: nat): nat {
    if reserve == [] then 0 else TimesReserved(reserve[..|reserve| - 1], x) + Bit(reserve[|reserve| - 1] == x)
  }

  function TimesRecorded(es: seq<Entry>, x: nat): nat {
    if es == [] then 0 else TimesRecorded(es[..|es| - 1], x) + Bit(es[|es| - 1].extent == Some(x))
  }

  /** Everyone who has extent x: recorded in the metadata, in reserve, in a thread's hands, metadata itself, or with
      others. */
  function Holders(s: State, x: nat): nat {
    TimesRecorded(Entries(s), x) + TimesReserved(s.reserve, x) + InHands(s.threads, x) + Bit(x in s.meta)
    + Bit(x in s.foreign)
  }

  /** An extent in use has exactly one holder, and a free one none. */
  predicate Conserved(s: State, x: nat) {
    Holders(s, x) == Bit(x < |s.counts| && s.counts[x] != AL_FREE)
  }

  /** Only others have more than one reference to an extent. */
  predicate OneRef(s: State, x: nat) {
    x < |s.counts| && s.counts[x] != AL_FREE && x !in s.foreign ==> s.counts[x] == AL_ONE_REF
  }

  predicate BatchOk(s: State, u: nat)
    requires u < |s.threads| && Shape(s)
  {
    var pc := s.threads[u];
    assert Fits(s, pc);
    HoldsBatch(pc) ==>
      && s.nexts[pc.job.batch] == None
      && (pc.ReadReserve? ==> pc.next == s.goes[pc.job.batch])
      && (StillReserve(pc) ==> pc.x == s.reserve[pc.job.batch])
      && (InFlight(s.size, pc).Some? ==> s.goes[pc.job.batch] == InFlight(s.size, pc).value + 1)
  }

  /** Two threads hold different batches, and return different pages. */
  predicate PairOk(size: nat, pc: PC, qc: PC) {
    && (HoldsBatch(pc) && HoldsBatch(qc) ==> pc.job.batch != qc.job.batch)
    && (InFlight(size, pc).Some? ==> InFlight(size, pc) != InFlight(size, qc))
  }

  /** The locks of metadata page p, as thread u sees them. */
  predicate PageOk(s: State, u: nat, p: nat)
    requires u < |s.threads| && p < |s.pages|
  {
    var pc := s.threads[u];
    && (Claims(pc, p) <==> s.pages[p].claim == Some(u))
    && (Locks(pc, p) ==> s.pages[p].locked)
    && (OnTail(pc, p) ==> p == |s.pages| - 1)
  }

  /** No other thread has a page open that one is alone on. */
  predicate AloneOk(pc: PC, qc: PC, p: nat) {
    Exclusive(pc, p) ==> !Reads(qc, p)
  }

  /** The pages returned, or about to be, come out of recorded extents. */
  ghost predicate PagesOk(s: State)
    requires 0 < s.size
  {
    && Going(Entries(s), s.size, s.goes) && Distinct(s.returned)
    && (forall i :: 0 <= i < |Entries(s)| ==> Entries(s)[i].extent.Some?)
    && (forall r :: r in s.returned ==> GivenOut(Entries(s), s.size, s.goes, r))
    && forall u :: 0 <= u < |s.threads| && InFlight(s.size, s.threads[u]).Some? ==>
      InFlight(s.size, s.threads[u]).value !in s.returned
      && GivenOut(Entries(s), s.size, s.goes, InFlight(s.size, s.threads[u]).value)
  }

  ghost predicate Inv(s: State) {
    && Shape(s)
    && (forall b :: 0 <= b < |s.nexts| && s.nexts[b].Some? ==> s.nexts[b].value == s.goes[b])
    && (forall u :: 0 <= u < |s.threads| ==> BatchOk(s, u))
    && (forall u, v :: 0 <= u < |s.threads| && 0 <= v < |s.threads| && u != v ==>
          PairOk(s.size, s.threads[u], s.threads[v]))
    && (forall u, p :: 0 <= u < |s.threads| && 0 <= p < |s.pages| ==> PageOk(s, u, p))
    && (forall u, v, p :: 0 <= u < |s.threads| && 0 <= v < |s.threads| && u != v && 0 <= p < |s.pages| ==>
          AloneOk(s.threads[u], s.threads[v], p))
    && (forall x: nat :: Conserved(s, x) && OneRef(s, x))
    && PagesOk(s)
  }

  /** After mini_init: an extent in reserve for each batch, and one empty page of metadata. */
  ghost predicate Init(s: State) {
    && 0 < s.size && 0 < |s.counts| && |s.nexts| == |s.reserve| == |s.goes| && s.pages == [MetaPage([], None, false)]
    && (forall u :: 0 <= u < |s.threads| ==> s.threads[u] == Idle) && s.returned == [] && |s.scans| == |s.threads|
    && (forall b :: 0 <= b < |s.nexts| ==> s.nexts[b] == Some(0) && s.goes[b] == 0)
    && (forall x: nat :: TimesReserved(s.reserve, x) + Bit(x in s.meta) + Bit(x in s.foreign)
                      == Bit(x < |s.counts| && s.counts[x] != AL_FREE))
    && (forall x: nat :: OneRef(s, x))
  }
}
