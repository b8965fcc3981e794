/** When the extent allocator under mini_alloc may say that the disk is full, and what a call comes to when nobody
    interferes (src/rc_allocator.c, src/mini_allocator.c). */
module MiniThreadsAlloc {
  import opened DataModel
  import opened Concatenation
  import opened RcAllocators
  import opened KeyedExtents
  import opened MiniAllocators
  import opened MiniThreads
  import opened MiniThreadsSafety

  // ----------------------------------------------------------- in every run

  /** Where the thread's scan stands: it began at `from`, and took the hand at `at` last. */
  predicate ScanOk(s: State, u: nat)
    requires u < |s.threads| == |s.scans| && 0 < |s.counts|
  {
    var pc, scan, n := s.threads[u], s.scans[u], |s.counts|;
    && (pc.AllocHand? ==> scan.from <= s.hand)
    && (pc.AllocHand? || pc.AllocTest? || pc.AllocSwap? ==> pc.first == scan.from % n)
    && (pc.AllocTest? || pc.AllocSwap? ==> scan.from <= scan.at < s.hand && pc.h == scan.at % n)
    && (pc.Failed? ==> s.hand >= scan.from + n)
  }

  /** Back at its beginning, a scan has been all the way around. */
  lemma AllAround(from: nat, at: nat, n: nat)
    requires 0 < n && from <= at && (at % n + 1) % n == from % n
    ensures at + 1 >= from + n
  {
    NextHand(at, n);
    if at + 1 < from + n {
      OnceAround(from, at + 1, n);
    }
  }

  lemma ScanSelf(s: State, u: nat, choice: Choice)
    requires Shape(s) && u < |s.threads| && ScanOk(s, u)
    ensures var s' := Act(s, u, choice);
      u < |s'.threads| == |s'.scans| && 0 < |s'.counts| && ScanOk(s', u)
  {
    hide ScanOk, Act;
    var pc := s.threads[u];
    Moves(s, u, choice);
    if pc.AllocFirst? || pc.AllocHand? {
      ScanTurns(s, u, choice);
    } else if pc.AllocTest? || pc.AllocSwap? {
      ScanLooks(s, u, choice);
    } else {
      ScanElsewhere(s, u, choice);
    }
  }

  lemma ScanTurns(s: State, u: nat, choice: Choice)
    requires Shape(s) && u < |s.threads| && ScanOk(s, u) && (s.threads[u].AllocFirst? || s.threads[u].AllocHand?)
    ensures var s' := Act(s, u, choice); u < |s'.threads| == |s'.scans| && 0 < |s'.counts| && ScanOk(s', u)
  {
    hide PagesAfter;
  }

  lemma ScanLooks(s: State, u: nat, choice: Choice)
    requires Shape(s) && u < |s.threads| && ScanOk(s, u) && (s.threads[u].AllocTest? || s.threads[u].AllocSwap?)
    ensures var s' := Act(s, u, choice); u < |s'.threads| == |s'.scans| && 0 < |s'.counts| && ScanOk(s', u)
  {
    var pc, scan, n := s.threads[u], s.scans[u], |s.counts|;
    if (pc.h + 1) % n == pc.first {
      AllAround(scan.from, scan.at, n);
    }
    hide PagesAfter;
  }

  lemma ScanElsewhere(s: State, u: nat, choice: Choice)
    requires Shape(s) && u < |s.threads| && ScanOk(s, u)
    requires var pc := s.threads[u]; !pc.AllocFirst? && !pc.AllocHand? && !pc.AllocTest? && !pc.AllocSwap?
    ensures var s' := Act(s, u, choice); u < |s'.threads| == |s'.scans| && 0 < |s'.counts| && ScanOk(s', u)
  {
    hide PagesAfter;
    Moves(s, u, choice);
  }

  lemma ScanOther(s: State, u: nat, choice: Choice, v: nat)
    requires Shape(s) && u < |s.threads| && v < |s.threads| && u != v && ScanOk(s, v)
    ensures var s' := Act(s, u, choice);
      v < |s'.threads| == |s'.scans| && 0 < |s'.counts| && ScanOk(s', v)
  {
    Moves(s, u, choice);
    hide PagesAfter, Next;
  }

  lemma {:induction false} RunScans(states: seq<State>, events: seq<Event>, i: nat, u: nat)
    requires IsRun(states, events) && i < |states| && u < |states[0].threads|
    ensures Shape(states[i]) && u < |states[i].threads| && ScanOk(states[i], u)
  {
    hide After, ScanOk;
    if i == 0 {
      InitScans(states[0], u);
    } else {
      RunScans(states, events, i - 1, u);
      assert states[i - 1 + 1] == After(states[i - 1], events[i - 1]);
      AfterScans(states[i - 1], events[i - 1], u);
    }
  }

  lemma InitScans(s: State, u: nat)
    requires Init(s) && u < |s.threads|
    ensures Shape(s) && ScanOk(s, u)
  {
    InitInv(s);
    hide Inv;
  }

  lemma AfterScans(s: State, e: Event, u: nat)
    requires Shape(s) && u < |s.threads| && ScanOk(s, u)
    ensures var s' := After(s, e); Shape(s') && u < |s'.threads| && ScanOk(s', u)
  {
    if e.Others? {
      OthersScans(s, e, u);
    } else if e.u < |s.threads| {
      Moves(s, e.u, e.choice);
      hide Act;
      if e.u == u {
        ScanSelf(s, u, e.choice);
      } else {
        ScanOther(s, e.u, e.choice, u);
      }
    }
  }

  lemma OthersScans(s: State, e: Event, u: nat)
    requires Shape(s) && u < |s.threads| && ScanOk(s, u) && e.Others?
    ensures var s' := After(s, e); Shape(s') && u < |s'.threads| && ScanOk(s', u)
  {
    var s' := After(s, e);
    forall v | 0 <= v < |s'.threads| ensures Fits(s', s'.threads[v]) {
      assert Fits(s, s.threads[v]);
    }
  }

  /** In every run a thread finds the disk full only when, since it began its scan, the hand has moved on by the number
      of extents at least. */
  lemma FullAfterAll(states: seq<State>, events: seq<Event>, i: nat, u: nat)
    requires IsRun(states, events) && i < |states| && u < |states[0].threads|
    ensures u < |states[i].threads| == |states[i].scans|
    ensures states[i].threads[u].Failed? ==> states[i].hand >= states[i].scans[u].from + |states[i].counts|
  {
    RunScans(states, events, i, u);
    hide IsRun;
  }

  // ------------------------------------------------------------- an extent, alone

  /** k steps of thread u. */
  function Alone(s: State, u: nat, choice: Choice, k: nat): (t: State)
    requires Shape(s) && u < |s.threads|
    ensures Shape(t) && |t.threads| == |s.threads|
  {
    if k == 0 then s
    else
      var t := Alone(s, u, choice, k - 1);
      Moves(t, u, choice);
      Act(t, u, choice)
  }

  lemma OneMore(s: State, u: nat, choice: Choice, k: nat, a: State, b: State)
    requires Shape(s) && u < |s.threads| && Alone(s, u, choice, k) == a && Shape(a) && Act(a, u, choice) == b
    ensures Alone(s, u, choice, k + 1) == b
  {
  }

  /** Thread u in the midst of its scan, at the k-th extent from where it began. */
  function Scanning(s: State, u: nat, pc: PC, k: nat): State
    requires u < |s.threads| == |s.scans|
  {
    s.(hand := s.hand + k, threads := s.threads[u := pc],
       scans := s.scans[u := Scan(s.hand, if k == 0 then s.hand else s.hand + k - 1)])
  }

  /** The k-th extent from the hand on. */
  function Nth(s: State, k: nat): (h: nat)
    requires 0 < |s.counts|
    ensures h < |s.counts|
  {
    (s.hand + k) % |s.counts|
  }

  /** One extent of the scan, which is in use. */
  lemma PassesOne(s: State, u: nat, choice: Choice, pc: PC, k: nat)
    requires Shape(s) && u < |s.threads| && pc.AllocFirst? && s.threads[u] == pc && k < |s.counts|
    requires s.counts[Nth(s, k)] != AL_FREE
    ensures var n := |s.counts|;
      var a := Scanning(s, u, AllocHand(pc.job, pc.x, pc.want, s.hand % n), k);
      var b := Scanning(s, u, AllocTest(pc.job, pc.x, pc.want, s.hand % n, Nth(s, k)), k + 1);
      && Shape(a) && Act(a, u, choice) == b && Shape(b)
      && Act(b, u, choice) == Scanning(s, u, if k + 1 == n then Failed(pc.job, pc.x, pc.want)
                                             else AllocHand(pc.job, pc.x, pc.want, s.hand % n), k + 1)
  {
    var n := |s.counts|;
    var a := Scanning(s, u, AllocHand(pc.job, pc.x, pc.want, s.hand % n), k);
    StillShaped(s, u, pc, k);
    Around(s.hand, k, n);
    Moves(a, u, choice);
  }

  lemma StillShaped(s: State, u: nat, pc: PC, k: nat)
    requires Shape(s) && u < |s.threads| && pc.AllocFirst? && s.threads[u] == pc
    ensures Shape(Scanning(s, u, AllocHand(pc.job, pc.x, pc.want, s.hand % |s.counts|), k))
  {
    var a := Scanning(s, u, AllocHand(pc.job, pc.x, pc.want, s.hand % |s.counts|), k);
    assert Fits(s, pc);
    forall v | 0 <= v < |a.threads| ensures Fits(a, a.threads[v]) {
      assert Fits(s, s.threads[v]);
    }
  }

  /** The scan is back at its beginning after n extents, and not before. */
  lemma Around(from: nat, k: nat, n: nat)
    requires k < n
    ensures ((from + k) % n + 1) % n == from % n <==> k + 1 == n
  {
    NextHand(from + k, n);
    OnceAround(from, from + k + 1, n);
  }

  /** The extent that the k-th look finds free is taken, and the thread goes on with it. */
  function Takes(s: State, u: nat, pc: PC, k: nat): State
    requires u < |s.threads| == |s.scans| && 0 < |s.counts| && pc.AllocFirst?
  {
    var h := Nth(s, k);
    var t := Scanning(s, u, if pc.want.Reserve? then StoreReserve(pc.job, pc.x, h)
                            else LinkTail(pc.job, pc.x, pc.want.t, Some(h)), k + 1);
    t.(counts := s.counts[h := AL_ONE_REF])
  }

  lemma FindsOne(s: State, u: nat, choice: Choice, pc: PC, k: nat)
    requires Shape(s) && u < |s.threads| && pc.AllocFirst? && s.threads[u] == pc && k < |s.counts|
    requires s.counts[Nth(s, k)] == AL_FREE
    ensures var n := |s.counts|;
      var a := Scanning(s, u, AllocHand(pc.job, pc.x, pc.want, s.hand % n), k);
      var b := Scanning(s, u, AllocTest(pc.job, pc.x, pc.want, s.hand % n, Nth(s, k)), k + 1);
      var c := Scanning(s, u, AllocSwap(pc.job, pc.x, pc.want, s.hand % n, Nth(s, k)), k + 1);
      && Shape(a) && Act(a, u, choice) == b && Shape(b) && Act(b, u, choice) == c && Shape(c)
      && Act(c, u, choice) == Takes(s, u, pc, k)
  {
    var n := |s.counts|;
    var a := Scanning(s, u, AllocHand(pc.job, pc.x, pc.want, s.hand % n), k);
    StillShaped(s, u, pc, k);
    Moves(a, u, choice);
    Moves(Act(a, u, choice), u, choice);
  }

  /** The extents looked at so far are in use. */
  ghost predicate InUse(s: State, k: nat)
    requires 0 < |s.counts|
  {
    forall j :: 0 <= j < k ==> s.counts[Nth(s, j)] != AL_FREE
  }

  lemma {:induction false} ScanAlone(s: State, u: nat, choice: Choice, pc: PC, k: nat, i: nat) returns (m: nat, h: nat)
    requires Shape(s) && u < |s.threads| && pc.AllocFirst? && s.threads[u] == pc && i < |s.counts| && InUse(s, i)
    requires Alone(s, u, choice, k) == Scanning(s, u, AllocHand(pc.job, pc.x, pc.want, s.hand % |s.counts|), i)
    ensures if InUse(s, |s.counts|)
            then Alone(s, u, choice, m) == Scanning(s, u, Failed(pc.job, pc.x, pc.want), |s.counts|)
            else h < |s.counts| && s.counts[Nth(s, h)] == AL_FREE && InUse(s, h)
                 && Alone(s, u, choice, m) == Takes(s, u, pc, h)
    decreases |s.counts| - i
  {
    hide Alone, Act;
    var n := |s.counts|;
    var a := Scanning(s, u, AllocHand(pc.job, pc.x, pc.want, s.hand % n), i);
    var b := Scanning(s, u, AllocTest(pc.job, pc.x, pc.want, s.hand % n, Nth(s, i)), i + 1);
    if s.counts[Nth(s, i)] == AL_FREE {
      FindsOne(s, u, choice, pc, i);
      var c := Scanning(s, u, AllocSwap(pc.job, pc.x, pc.want, s.hand % n, Nth(s, i)), i + 1);
      OneMore(s, u, choice, k, a, b);
      OneMore(s, u, choice, k + 1, b, c);
      OneMore(s, u, choice, k + 2, c, Takes(s, u, pc, i));
      m, h := k + 3, i;
    } else {
      PassesOne(s, u, choice, pc, i);
      OneMore(s, u, choice, k, a, b);
      OneMore(s, u, choice, k + 1, b, Act(b, u, choice));
      if i + 1 == n {
        m, h := k + 2, 0;
      } else {
        m, h := ScanAlone(s, u, choice, pc, k + 2, i + 1);
      }
    }
  }

  /** A thread whose scan nobody interferes with finds the disk full if and only if every extent was in use when it
      began; otherwise it takes the first free one from the hand on. */
  lemma AllocAlone(s: State, u: nat, choice: Choice) returns (m: nat, h: nat)
    requires Shape(s) && u < |s.threads| && s.threads[u].AllocFirst?
    ensures Alone(s, u, choice, m).threads[u].Failed? <==> forall x :: 0 <= x < |s.counts| ==> s.counts[x] != AL_FREE
    ensures !Alone(s, u, choice, m).threads[u].Failed? ==>
      && h < |s.counts| && s.counts[Nth(s, h)] == AL_FREE && InUse(s, h)
      && Alone(s, u, choice, m) == Takes(s, u, s.threads[u], h)
  {
    hide Alone, Act;
    var pc, n := s.threads[u], |s.counts|;
    ScanBegins(s, u, choice);
    m, h := ScanAlone(s, u, choice, pc, 1, 0);
    AllLookedAt(s);
  }

  lemma ScanBegins(s: State, u: nat, choice: Choice)
    requires Shape(s) && u < |s.threads| && s.threads[u].AllocFirst?
    ensures var pc := s.threads[u];
      Alone(s, u, choice, 1) == Scanning(s, u, AllocHand(pc.job, pc.x, pc.want, s.hand % |s.counts|), 0)
  {
    assert Alone(s, u, choice, 0) == s;
    hide PagesAfter;
    assert Fits(s, s.threads[u]);
    assert PagesAfter(s, u, s.threads[u], choice) == s.pages by { KeepsPages(s, u, choice); }
  }

  lemma KeepsPages(s: State, u: nat, choice: Choice)
    requires Shape(s) && u < |s.threads| && Fits(s, s.threads[u]) && s.threads[u].AllocFirst?
    ensures PagesAfter(s, u, s.threads[u], choice) == s.pages
  {
  }

  /** Once around, every extent has been looked at. */
  lemma AllLookedAt(s: State)
    requires 0 < |s.counts|
    ensures InUse(s, |s.counts|) <==> forall x :: 0 <= x < |s.counts| ==> s.counts[x] != AL_FREE
  {
    var n := |s.counts|;
    if InUse(s, n) {
      forall k | s.hand <= k < s.hand + n ensures s.counts[k % n] != AL_FREE {
        assert s.counts[Nth(s, k - s.hand)] != AL_FREE;
      }
      AllSeen(s.counts, s.hand, s.hand + n);
    }
  }

  // --------------------------------------------------------------- a call, alone

  lemma {:induction false} AloneAdd(s: State, u: nat, choice: Choice, j: nat, k: nat)
    requires Shape(s) && u < |s.threads|
    ensures Alone(Alone(s, u, choice, j), u, choice, k) == Alone(s, u, choice, j + k)
    decreases k
  {
    hide Act;
    if k > 0 {
      AloneAdd(s, u, choice, j, k - 1);
    }
  }

  function Goes(s: State, u: nat, pc: PC): State
    requires u < |s.threads|
  {
    s.(threads := s.threads[u := pc])
  }

  /** A call for a batch, and its entry fits the tail. */
  function CallFor(job: Job): Choice {
    Choice(Some(job), true, false)
  }

  /** From idle to the batch's lock token. */
  lemma TakesToken(s: State, u: nat, job: Job)
    requires Shape(s) && u < |s.threads| && s.threads[u] == Idle && job.batch < |s.nexts| && s.nexts[job.batch].Some?
    ensures Shape(s.(nexts := s.nexts[job.batch := None]))
    ensures Alone(s, u, CallFor(job), 3)
         == Goes(s.(nexts := s.nexts[job.batch := None]), u, ReadReserve(job, s.nexts[job.batch].value))
  {
    hide Alone, Act, Next, Effect, PagesAfter, Fits;
    var choice, next := CallFor(job), s.nexts[job.batch].value;
    var s1 := Goes(s, u, LoadNext(job));
    var s2 := Goes(s1, u, SwapNext(job, next));
    var s3 := Goes(s2.(nexts := s2.nexts[job.batch := None]), u, ReadReserve(job, next));
    StartsCall(s, u, job);
    LoadsNext(s1, u, job);
    SwapsNext(s2, u, job, next);
    AloneNone(s, u, choice);
    OneMore(s, u, choice, 0, s, s1);
    OneMore(s, u, choice, 1, s1, s2);
    OneMore(s, u, choice, 2, s2, s3);
    TokenShaped(s, job.batch);
  }

  lemma TokenShaped(s: State, b: nat)
    requires Shape(s) && b < |s.nexts|
    ensures Shape(s.(nexts := s.nexts[b := None]))
  {
    var t := s.(nexts := s.nexts[b := None]);
    forall v | 0 <= v < |t.threads| ensures Fits(t, t.threads[v]) {
      assert Fits(s, s.threads[v]);
    }
  }

  lemma StartsCall(s: State, u: nat, job: Job)
    requires Shape(s) && u < |s.threads| && s.threads[u] == Idle && job.batch < |s.nexts|
    ensures var b := Goes(s, u, LoadNext(job)); Act(s, u, CallFor(job)) == b && Shape(b)
  {
    Moves(s, u, CallFor(job));
  }

  lemma LoadsNext(s: State, u: nat, job: Job)
    requires Shape(s) && u < |s.threads| && s.threads[u] == LoadNext(job)
    requires job.batch < |s.nexts| && s.nexts[job.batch].Some?
    ensures var b := Goes(s, u, SwapNext(job, s.nexts[job.batch].value)); Act(s, u, CallFor(job)) == b && Shape(b)
  {
    Moves(s, u, CallFor(job));
  }

  lemma SwapsNext(s: State, u: nat, job: Job, next: nat)
    requires Shape(s) && u < |s.threads| && s.threads[u] == SwapNext(job, next)
    requires job.batch < |s.nexts| && s.nexts[job.batch] == Some(next)
    ensures var b := Goes(s.(nexts := s.nexts[job.batch := None]), u, ReadReserve(job, next));
      Act(s, u, CallFor(job)) == b && Shape(b)
  {
    Moves(s, u, CallFor(job));
  }

  /** Within an extent the call returns the next page, and the batch goes on behind it. */
  lemma PageAlone(s: State, u: nat, job: Job)
    requires Shape(s) && u < |s.threads| && s.threads[u] == Idle && job.batch < |s.nexts| && s.nexts[job.batch].Some?
    requires s.nexts[job.batch].value % s.size != 0
    ensures var next := s.nexts[job.batch].value;
      Alone(s, u, CallFor(job), 5)
      == s.(nexts := s.nexts[job.batch := Some(next + 1)], goes := s.goes[job.batch := next + 1],
            returned := s.returned + [next])
  {
    hide Act, Alone, Next, Effect, PagesAfter, OtherReads, Fits;
    var choice, next := CallFor(job), s.nexts[job.batch].value;
    var t := s.(nexts := s.nexts[job.batch := None]);
    var s3 := Goes(t, u, ReadReserve(job, next));
    var s4 := Goes(s3.(goes := s3.goes[job.batch := next + 1]), u, StoreNext(job, next));
    TakesToken(s, u, job);
    TakesPage(s3, u, job, next);
    StoresPage(s4, u, choice, job, next);
    assert s.threads[u := StoreNext(job, next)][u := Idle] == s.threads;
    assert t.nexts[job.batch := Some(next + 1)] == s.nexts[job.batch := Some(next + 1)];
    OneMore(s, u, choice, 3, s3, s4);
    OneMore(s, u, choice, 4, s4, Act(s4, u, choice));
  }

  lemma TakesPage(s: State, u: nat, job: Job, next: nat)
    requires Shape(s) && u < |s.threads| && s.threads[u] == ReadReserve(job, next) && next % s.size != 0
    requires job.batch < |s.nexts|
    ensures var b := Goes(s.(goes := s.goes[job.batch := next + 1]), u, StoreNext(job, next));
      Act(s, u, CallFor(job)) == b && Shape(b)
  {
    Moves(s, u, CallFor(job));
  }

  lemma StoresPage(s: State, u: nat, choice: Choice, job: Job, page: nat)
    requires Shape(s) && u < |s.threads| && s.threads[u] == StoreNext(job, page) && job.batch < |s.nexts|
    ensures var b := Goes(s.(nexts := s.nexts[job.batch := Some(page + 1)], returned := s.returned + [page]), u, Idle);
      Act(s, u, choice) == b && Shape(b)
  {
    Moves(s, u, choice);
  }

  /** The tail is nobody's. */
  ghost predicate TailFree(s: State, u: nat) {
    0 < |s.pages| && var t := |s.pages| - 1;
    s.pages[t].claim.None? && !s.pages[t].locked && !OtherReads(s.threads, u, t)
  }

  function Appended(s: State, e: Entry): seq<MetaPage>
    requires 0 < |s.pages|
  {
    var t := |s.pages| - 1;
    s.pages[t := s.pages[t].(entries := s.pages[t].entries + [e])]
  }

  lemma AloneNone(s: State, u: nat, choice: Choice)
    requires Shape(s) && u < |s.threads|
    ensures Alone(s, u, choice, 0) == s
  {
  }

  lemma SameReaders(threads: seq<PC>, u: nat, pc: PC, p: nat)
    requires u < |threads|
    ensures OtherReads(threads[u := pc], u, p) == OtherReads(threads, u, p)
  {
    if OtherReads(threads, u, p) {
      var v :| 0 <= v < |threads| && v != u && Reads(threads[v], p);
      assert Reads(threads[u := pc][v], p);
    }
  }

  /** To the tail. */
  lemma FindsTail(s: State, u: nat, job: Job, x: nat, h: nat)
    requires Shape(s) && u < |s.threads| && s.threads[u] == StoreReserve(job, x, h) && TailFree(s, u)
    requires job.batch < |s.nexts|
    ensures Alone(s, u, CallFor(job), 3)
         == Goes(s.(reserve := s.reserve[job.batch := h]), u, CheckTail(job, x, |s.pages| - 1))
  {
    hide Act, Alone, Next, Effect, PagesAfter, OtherReads, Fits;
    var choice, t := CallFor(job), |s.pages| - 1;
    var s1 := Goes(s.(reserve := s.reserve[job.batch := h]), u, ReadTail(job, x));
    var s2 := Goes(s1, u, GetTail(job, x, t));
    var s3 := Goes(s2, u, CheckTail(job, x, t));
    Reserves(s, u, job, x, h);
    LooksAtTail(s1, u, job, x);
    GetsTail(s2, u, job, x, t);
    AloneNone(s, u, choice);
    OneMore(s, u, choice, 0, s, s1);
    OneMore(s, u, choice, 1, s1, s2);
    OneMore(s, u, choice, 2, s2, s3);
  }

  /** To its claim. */
  lemma ClaimsTail(s: State, u: nat, job: Job, x: nat, h: nat)
    requires Shape(s) && u < |s.threads| && s.threads[u] == StoreReserve(job, x, h) && TailFree(s, u)
    requires job.batch < |s.nexts|
    ensures var t := |s.pages| - 1;
      Alone(s, u, CallFor(job), 5)
      == Goes(s.(reserve := s.reserve[job.batch := h], pages := s.pages[t := s.pages[t].(claim := Some(u))]), u,
              LockTail(job, x, t))
  {
    hide Act, Alone, Next, Effect, PagesAfter, OtherReads, Fits;
    var choice, t := CallFor(job), |s.pages| - 1;
    FindsTail(s, u, job, x, h);
    var s3 := Alone(s, u, choice, 3);
    var s4 := Goes(s3, u, ClaimTail(job, x, t));
    var s5 := Goes(s4.(pages := s4.pages[t := s4.pages[t].(claim := Some(u))]), u, LockTail(job, x, t));
    ChecksTail(s3, u, job, x, t);
    ClaimsIt(s4, u, job, x, t);
    OneMore(s, u, choice, 3, s3, s4);
    OneMore(s, u, choice, 4, s4, s5);
  }

  lemma Reserves(s: State, u: nat, job: Job, x: nat, h: nat)
    requires Shape(s) && u < |s.threads| && s.threads[u] == StoreReserve(job, x, h) && job.batch < |s.nexts|
    ensures var b := Goes(s.(reserve := s.reserve[job.batch := h]), u, ReadTail(job, x));
      Act(s, u, CallFor(job)) == b && Shape(b)
  {
    Moves(s, u, CallFor(job));
  }

  lemma LooksAtTail(s: State, u: nat, job: Job, x: nat)
    requires Shape(s) && u < |s.threads| && s.threads[u] == ReadTail(job, x)
    ensures var b := Goes(s, u, GetTail(job, x, |s.pages| - 1));
      Act(s, u, CallFor(job)) == b && Shape(b)
  {
    Moves(s, u, CallFor(job));
  }

  lemma GetsTail(s: State, u: nat, job: Job, x: nat, p: nat)
    requires Shape(s) && u < |s.threads| && s.threads[u] == GetTail(job, x, p) && p < |s.pages| && !s.pages[p].locked
    ensures var b := Goes(s, u, CheckTail(job, x, p));
      Act(s, u, CallFor(job)) == b && Shape(b)
  {
    Moves(s, u, CallFor(job));
  }

  lemma ChecksTail(s: State, u: nat, job: Job, x: nat, p: nat)
    requires Shape(s) && u < |s.threads| && s.threads[u] == CheckTail(job, x, p) && p == |s.pages| - 1
    ensures var b := Goes(s, u, ClaimTail(job, x, p));
      Act(s, u, CallFor(job)) == b && Shape(b)
  {
    Moves(s, u, CallFor(job));
  }

  lemma ClaimsIt(s: State, u: nat, job: Job, x: nat, p: nat)
    requires Shape(s) && u < |s.threads| && s.threads[u] == ClaimTail(job, x, p)
    requires p < |s.pages| && s.pages[p].claim.None?
    ensures var b := Goes(s.(pages := s.pages[p := s.pages[p].(claim := Some(u))]), u, LockTail(job, x, p));
      Act(s, u, CallFor(job)) == b && Shape(b)
  {
    Moves(s, u, CallFor(job));
  }

  /** From there to the entry. */
  lemma AppendsEntry(s: State, u: nat, job: Job, x: nat, t: nat)
    requires Shape(s) && u < |s.threads| && s.threads[u] == LockTail(job, x, t) && t == |s.pages| - 1
    requires !OtherReads(s.threads, u, t) && job.batch < |s.nexts|
    ensures var es := s.pages[t].entries + [Entry(Some(x), job.batch, job.key)];
      Alone(s, u, CallFor(job), 3)
      == Goes(s.(pages := s.pages[t := s.pages[t].(locked := true, entries := es)],
                 goes := s.goes[job.batch := x * s.size + 1]), u, UnlockTail(job, x, t))
  {
    hide Act, Alone, Next, Effect, PagesAfter, OtherReads, Fits;
    var choice, es := CallFor(job), s.pages[t].entries + [Entry(Some(x), job.batch, job.key)];
    var s1 := Goes(s.(pages := s.pages[t := s.pages[t].(locked := true)]), u, AwaitReaders(job, x, t));
    var s2 := Goes(s1, u, Append(job, x, t));
    var s3 := Goes(s2.(pages := s2.pages[t := s2.pages[t].(entries := es)],
                       goes := s2.goes[job.batch := x * s2.size + 1]), u, UnlockTail(job, x, t));
    LocksIt(s, u, job, x, t);
    SameReaders(s.threads, u, AwaitReaders(job, x, t), t);
    SeesNoReaders(s1, u, job, x, t);
    AppendsIt(s2, u, job, x, t);
    AloneNone(s, u, choice);
    OneMore(s, u, choice, 0, s, s1);
    OneMore(s, u, choice, 1, s1, s2);
    OneMore(s, u, choice, 2, s2, s3);
  }

  lemma LocksIt(s: State, u: nat, job: Job, x: nat, p: nat)
    requires Shape(s) && u < |s.threads| && s.threads[u] == LockTail(job, x, p) && p < |s.pages|
    ensures var b := Goes(s.(pages := s.pages[p := s.pages[p].(locked := true)]), u, AwaitReaders(job, x, p));
      Act(s, u, CallFor(job)) == b && Shape(b)
  {
    Moves(s, u, CallFor(job));
  }

  lemma SeesNoReaders(s: State, u: nat, job: Job, x: nat, p: nat)
    requires Shape(s) && u < |s.threads| && s.threads[u] == AwaitReaders(job, x, p) && !OtherReads(s.threads, u, p)
    ensures var b := Goes(s, u, Append(job, x, p));
      Act(s, u, CallFor(job)) == b && Shape(b)
  {
    Moves(s, u, CallFor(job));
  }

  lemma AppendsIt(s: State, u: nat, job: Job, x: nat, p: nat)
    requires Shape(s) && u < |s.threads| && s.threads[u] == Append(job, x, p) && p < |s.pages| && job.batch < |s.nexts|
    ensures var es := s.pages[p].entries + [Entry(Some(x), job.batch, job.key)];
      var b := Goes(s.(pages := s.pages[p := s.pages[p].(entries := es)],
                       goes := s.goes[job.batch := x * s.size + 1]), u, UnlockTail(job, x, p));
      Act(s, u, CallFor(job)) == b && Shape(b)
  {
    Moves(s, u, CallFor(job));
  }

  /** And out: the tail and the batch are let go, and the page is returned. */
  lemma LetsGo(s: State, u: nat, choice: Choice, job: Job, x: nat, t: nat)
    requires Shape(s) && u < |s.threads| && s.threads[u] == UnlockTail(job, x, t) && t < |s.pages|
    requires job.batch < |s.nexts|
    ensures Alone(s, u, choice, 3)
         == Goes(s.(pages := s.pages[t := s.pages[t].(locked := false, claim := None)],
                    nexts := s.nexts[job.batch := Some(x * s.size + 1)],
                    returned := s.returned + [x * s.size]), u, Idle)
  {
    hide Act, Alone, Next, Effect, PagesAfter, OtherReads, Fits;
    var page := x * s.size;
    var s1 := Goes(s.(pages := s.pages[t := s.pages[t].(locked := false)]), u, UnclaimTail(job, x, t));
    var s2 := Goes(s1.(pages := s1.pages[t := s1.pages[t].(claim := None)]), u, StoreNext(job, page));
    UnlocksIt(s, u, choice, job, x, t);
    UnclaimsIt(s1, u, choice, job, x, t);
    StoresPage(s2, u, choice, job, page);
    AloneNone(s, u, choice);
    OneMore(s, u, choice, 0, s, s1);
    OneMore(s, u, choice, 1, s1, s2);
    OneMore(s, u, choice, 2, s2, Act(s2, u, choice));
  }

  lemma UnlocksIt(s: State, u: nat, choice: Choice, job: Job, x: nat, p: nat)
    requires Shape(s) && u < |s.threads| && s.threads[u] == UnlockTail(job, x, p) && p < |s.pages|
    ensures var b := Goes(s.(pages := s.pages[p := s.pages[p].(locked := false)]), u, UnclaimTail(job, x, p));
      Act(s, u, choice) == b && Shape(b)
  {
    Moves(s, u, choice);
  }

  lemma UnclaimsIt(s: State, u: nat, choice: Choice, job: Job, x: nat, p: nat)
    requires Shape(s) && u < |s.threads| && s.threads[u] == UnclaimTail(job, x, p) && p < |s.pages|
    ensures var b := Goes(s.(pages := s.pages[p := s.pages[p].(claim := None)]), u, StoreNext(job, x * s.size));
      Act(s, u, choice) == b && Shape(b)
  {
    Moves(s, u, choice);
  }

  lemma StoresFit(s: State, u: nat, job: Job, x: nat, h: nat)
    requires Shape(s) && u < |s.threads| && s.threads[u] == StoreReserve(job, x, h)
    ensures h < |s.counts| && job.batch < |s.nexts|
  {
    assert Fits(s, s.threads[u]);
  }

  /** With an extent in hand for the reserve, the old reserve is recorded and its first page returned. */
  lemma RecordsAlone(s: State, u: nat, job: Job, x: nat, h: nat)
    requires Shape(s) && u < |s.threads| && s.threads[u] == StoreReserve(job, x, h) && TailFree(s, u)
    ensures h < |s.counts| && job.batch < |s.nexts|
    ensures Alone(s, u, CallFor(job), 11)
         == s.(reserve := s.reserve[job.batch := h], pages := Appended(s, Entry(Some(x), job.batch, job.key)),
               goes := s.goes[job.batch := x * s.size + 1], nexts := s.nexts[job.batch := Some(x * s.size + 1)],
               returned := s.returned + [x * s.size], threads := s.threads[u := Idle])
  {
    hide Act, Alone, Next, Effect, PagesAfter, OtherReads, Fits;
    StoresFit(s, u, job, x, h);
    var choice, t, e := CallFor(job), |s.pages| - 1, Entry(Some(x), job.batch, job.key);
    ClaimsTail(s, u, job, x, h);
    var s5 := Alone(s, u, choice, 5);
    SameReaders(s.threads, u, LockTail(job, x, t), t);
    AppendsEntry(s5, u, job, x, t);
    AloneAdd(s, u, choice, 5, 3);
    var s8 := Alone(s, u, choice, 8);
    LetsGo(s8, u, choice, job, x, t);
    AloneAdd(s, u, choice, 8, 3);
  }

  /** Run alone, with the tail to itself, mini_alloc at the end of an extent finds the disk full if and only if no
      extent is free; otherwise it records the batch's reserve, returns its first page, and reserves the extent that the
      scan found. */
  lemma ExtentAlone(s: State, u: nat, job: Job) returns (m: nat, h: nat)
    requires Shape(s) && u < |s.threads| && s.threads[u] == Idle && job.batch < |s.nexts| && s.nexts[job.batch].Some?
    requires s.nexts[job.batch].value % s.size == 0 && TailFree(s, u)
    ensures var t := Alone(s, u, CallFor(job), m);
      if forall x :: 0 <= x < |s.counts| ==> s.counts[x] != AL_FREE then t.threads[u].Failed?
      else
        && h < |s.counts| && s.counts[Nth(s, h)] == AL_FREE && InUse(s, h)
        && t.threads == s.threads && t.returned == s.returned + [s.reserve[job.batch] * s.size]
        && t.pages == Appended(s, Entry(Some(s.reserve[job.batch]), job.batch, job.key))
        && t.reserve == s.reserve[job.batch := Nth(s, h)] && t.counts == s.counts[Nth(s, h) := AL_ONE_REF]
        && t.nexts == s.nexts[job.batch := Some(s.reserve[job.batch] * s.size + 1)]
  {
    hide Act, Alone;
    var choice, x := CallFor(job), s.reserve[job.batch];
    TakesToken(s, u, job);
    BeginsScan(s, u, job);
    var a := Alone(s, u, choice, 4);
    var k;
    k, h := AllocAlone(a, u, choice);
    AloneAdd(s, u, choice, 4, k);
    m := k + 4;
    SameNth(s, a, h);
    if exists x :: 0 <= x < |s.counts| && s.counts[x] == AL_FREE {
      var b := Alone(a, u, choice, k);
      SameReaders(s.threads, u, StoreReserve(job, x, Nth(s, h)), |s.pages| - 1);
      RecordsAlone(b, u, job, x, Nth(s, h));
      AloneAdd(s, u, choice, 4 + k, 11);
      m := 15 + k;
    }
  }

  lemma BeginsScan(s: State, u: nat, job: Job)
    requires Shape(s) && u < |s.threads| && s.threads[u] == Idle && job.batch < |s.nexts| && s.nexts[job.batch].Some?
    requires s.nexts[job.batch].value % s.size == 0
    ensures Alone(s, u, CallFor(job), 4)
         == Goes(s.(nexts := s.nexts[job.batch := None]), u, AllocFirst(job, s.reserve[job.batch], Reserve))
  {
    var choice, next := CallFor(job), s.nexts[job.batch].value;
    var a := Goes(s.(nexts := s.nexts[job.batch := None]), u, ReadReserve(job, next));
    TakesToken(s, u, job);
    Moves(a, u, choice);
    OneMore(s, u, choice, 3, a, Act(a, u, choice));
  }

  lemma SameNth(s: State, a: State, h: nat)
    requires 0 < |s.counts| && a.counts == s.counts && a.hand == s.hand
    ensures Nth(a, h) == Nth(s, h) && InUse(a, h) == InUse(s, h)
  {
    assert forall j: nat :: Nth(a, j) == Nth(s, j);
  }

  // ----------------------------------------------------- a full metadata page

  /** The old tail let go, and a new one with the entry. */
  function NewTail(s: State, e: Entry, held: MetaPage): seq<MetaPage>
    requires 0 < |s.pages|
  {
    var t := |s.pages| - 1;
    s.pages[t := s.pages[t].(locked := false, claim := None)] + [held.(entries := [e])]
  }

  function MetaWith(meta: set<nat>, extent: Option<nat>): set<nat> {
    if extent.Some? then meta + {extent.value} else meta
  }

  lemma LinksIt(s: State, u: nat, choice: Choice, job: Job, x: nat, p: nat, extent: Option<nat>)
    requires Shape(s) && u < |s.threads| && s.threads[u] == LinkTail(job, x, p, extent) && p == |s.pages| - 1
    ensures var b := Goes(s.(pages := s.pages + [MetaPage([], Some(u), true)], meta := MetaWith(s.meta, extent)), u,
                          UnlockOld(job, x, p));
      Act(s, u, choice) == b && Shape(b)
  {
    Moves(s, u, choice);
  }

  lemma UnlocksOld(s: State, u: nat, choice: Choice, job: Job, x: nat, p: nat)
    requires Shape(s) && u < |s.threads| && s.threads[u] == UnlockOld(job, x, p) && p < |s.pages|
    ensures var b := Goes(s.(pages := s.pages[p := s.pages[p].(locked := false)]), u, UnclaimOld(job, x, p));
      Act(s, u, choice) == b && Shape(b)
  {
    Moves(s, u, choice);
  }

  lemma UnclaimsOld(s: State, u: nat, choice: Choice, job: Job, x: nat, p: nat)
    requires Shape(s) && u < |s.threads| && s.threads[u] == UnclaimOld(job, x, p) && p < |s.pages|
    ensures var b := Goes(s.(pages := s.pages[p := s.pages[p].(claim := None)]), u, AppendNew(job, x, p + 1));
      Act(s, u, choice) == b && Shape(b)
  {
    Moves(s, u, choice);
  }

  lemma AppendsNew(s: State, u: nat, choice: Choice, job: Job, x: nat, p: nat)
    requires Shape(s) && u < |s.threads| && s.threads[u] == AppendNew(job, x, p) && p < |s.pages|
    requires job.batch < |s.nexts|
    ensures var es := s.pages[p].entries + [Entry(Some(x), job.batch, job.key)];
      var b := Goes(s.(pages := s.pages[p := s.pages[p].(entries := es)],
                       goes := s.goes[job.batch := x * s.size + 1]), u, UnlockTail(job, x, p));
      Act(s, u, choice) == b && Shape(b)
  {
    Moves(s, u, choice);
  }

  /** From the link to the entry on the new tail. */
  lemma TurnsPage(s: State, u: nat, choice: Choice, job: Job, x: nat, t: nat, extent: Option<nat>)
    requires Shape(s) && u < |s.threads| && s.threads[u] == LinkTail(job, x, t, extent) && t == |s.pages| - 1
    requires job.batch < |s.nexts|
    ensures var e := Entry(Some(x), job.batch, job.key);
      Alone(s, u, choice, 4)
      == Goes(s.(pages := NewTail(s, e, MetaPage([], Some(u), true)), meta := MetaWith(s.meta, extent),
                 goes := s.goes[job.batch := x * s.size + 1]), u, UnlockTail(job, x, t + 1))
  {
    hide Act, Alone, Next, Effect, PagesAfter, OtherReads, Fits;
    var e, tail := Entry(Some(x), job.batch, job.key), MetaPage([], Some(u), true);
    var s1 := Goes(s.(pages := s.pages + [tail], meta := MetaWith(s.meta, extent)), u, UnlockOld(job, x, t));
    var s2 := Goes(s1.(pages := s1.pages[t := s1.pages[t].(locked := false)]), u, UnclaimOld(job, x, t));
    var s3 := Goes(s2.(pages := s2.pages[t := s2.pages[t].(claim := None)]), u, AppendNew(job, x, t + 1));
    LinksIt(s, u, choice, job, x, t, extent);
    UnlocksOld(s1, u, choice, job, x, t);
    UnclaimsOld(s2, u, choice, job, x, t);
    assert s3.pages[t + 1] == tail;
    AppendsNew(s3, u, choice, job, x, t + 1);
    AloneNone(s, u, choice);
    OneMore(s, u, choice, 0, s, s1);
    OneMore(s, u, choice, 1, s1, s2);
    OneMore(s, u, choice, 2, s2, s3);
    OneMore(s, u, choice, 3, s3, Act(s3, u, choice));
    assert [] + [e] == [e];
    assert s3.pages[t + 1 := tail.(entries := [e])] == NewTail(s, e, tail);
  }

  /** And to its end. */
  lemma LinksAlone(s: State, u: nat, choice: Choice, job: Job, x: nat, t: nat, extent: Option<nat>)
    requires Shape(s) && u < |s.threads| && s.threads[u] == LinkTail(job, x, t, extent) && t == |s.pages| - 1
    requires job.batch < |s.nexts|
    ensures Alone(s, u, choice, 7)
         == Overflowed(s, u, job, x, extent)
  {
    hide Act, Alone, Next, Effect, PagesAfter, OtherReads, Fits;
    var e, tail := Entry(Some(x), job.batch, job.key), MetaPage([], Some(u), true);
    TurnsPage(s, u, choice, job, x, t, extent);
    var s4 := Alone(s, u, choice, 4);
    LetsGo(s4, u, choice, job, x, t + 1);
    AloneAdd(s, u, choice, 4, 3);
    assert s4.pages[t + 1] == tail.(entries := [e]);
    assert s4.pages[t + 1 := s4.pages[t + 1].(locked := false, claim := None)]
        == NewTail(s, e, MetaPage([], None, false));
  }

  /** The entry stands on a new tail, all locks are given back, and the extent's first page is returned. */
  function Overflowed(s: State, u: nat, job: Job, x: nat, extent: Option<nat>): State
    requires 0 < |s.pages| && u < |s.threads| && job.batch < |s.nexts| == |s.goes|
  {
    s.(pages := NewTail(s, Entry(Some(x), job.batch, job.key), MetaPage([], None, false)),
       meta := MetaWith(s.meta, extent), goes := s.goes[job.batch := x * s.size + 1],
       nexts := s.nexts[job.batch := Some(x * s.size + 1)], returned := s.returned + [x * s.size],
       threads := s.threads[u := Idle])
  }

  /** An entry that does not fit the tail goes to a new one. When that begins an extent the call finds the disk full if
      and only if no extent is free, and otherwise the extent found becomes metadata. */
  lemma OverflowAlone(s: State, u: nat, choice: Choice, job: Job, x: nat, t: nat) returns (m: nat, h: nat)
    requires Shape(s) && u < |s.threads| && s.threads[u] == Append(job, x, t) && t == |s.pages| - 1
    requires job.batch < |s.nexts| && !choice.fits
    ensures !choice.crosses ==> Alone(s, u, choice, m) == Overflowed(s, u, job, x, None)
    ensures choice.crosses ==> ExtendedBy(s, u, job, x, h, Alone(s, u, choice, m))
  {
    hide Act, Alone, Next, Effect, PagesAfter, OtherReads, Fits, Overflowed, ExtendedBy;
    AloneNone(s, u, choice);
    if choice.crosses {
      m, h := ExtendsAlone(s, u, choice, job, x, t);
    } else {
      var s1 := Goes(s, u, LinkTail(job, x, t, None));
      GoesPast(s, u, choice, job, x, t, s1.threads[u]);
      OneMore(s, u, choice, 0, s, s1);
      LinksAlone(s1, u, choice, job, x, t, None);
      AloneAdd(s, u, choice, 1, 7);
      SameOverflow(s, u, job, x, None, LinkTail(job, x, t, None));
      m, h := 8, 0;
    }
  }

  lemma SameOverflow(s: State, u: nat, job: Job, x: nat, extent: Option<nat>, pc: PC)
    requires 0 < |s.pages| && u < |s.threads| && job.batch < |s.nexts| == |s.goes|
    ensures Overflowed(Goes(s, u, pc), u, job, x, extent) == Overflowed(s, u, job, x, extent)
  {
  }

  /** With a new extent for the metadata, the h-th from the hand, if there is one. */
  ghost predicate ExtendedBy(s: State, u: nat, job: Job, x: nat, h: nat, t: State)
    requires Shape(s) && u < |s.threads| && job.batch < |s.nexts|
  {
    if forall x :: 0 <= x < |s.counts| ==> s.counts[x] != AL_FREE then u < |t.threads| && t.threads[u].Failed?
    else
      && h < |s.counts| && s.counts[Nth(s, h)] == AL_FREE && InUse(s, h)
      && t.threads == s.threads[u := Idle] && t.counts == s.counts[Nth(s, h) := AL_ONE_REF]
      && t.pages == Overflowed(s, u, job, x, Some(Nth(s, h))).pages && t.meta == s.meta + {Nth(s, h)}
      && t.nexts == s.nexts[job.batch := Some(x * s.size + 1)] && t.returned == s.returned + [x * s.size]
  }

  lemma ExtendsAlone(s: State, u: nat, choice: Choice, job: Job, x: nat, t: nat) returns (m: nat, h: nat)
    requires Shape(s) && u < |s.threads| && s.threads[u] == Append(job, x, t) && t == |s.pages| - 1
    requires job.batch < |s.nexts| && !choice.fits && choice.crosses
    ensures ExtendedBy(s, u, job, x, h, Alone(s, u, choice, m))
  {
    hide Act, Alone, Next, Effect, PagesAfter, OtherReads, Fits;
    AloneNone(s, u, choice);
    var s1 := Goes(s, u, AllocFirst(job, x, Meta(t)));
    GoesPast(s, u, choice, job, x, t, s1.threads[u]);
    OneMore(s, u, choice, 0, s, s1);
    var k;
    k, h := AllocAlone(s1, u, choice);
    AloneAdd(s, u, choice, 1, k);
    SameNth(s, s1, h);
    m := 1 + k;
    if exists x :: 0 <= x < |s.counts| && s.counts[x] == AL_FREE {
      var s2 := Alone(s1, u, choice, k);
      LinksAlone(s2, u, choice, job, x, t, Some(Nth(s, h)));
      AloneAdd(s, u, choice, 1 + k, 7);
      m := 8 + k;
    }
  }

  lemma GoesPast(s: State, u: nat, choice: Choice, job: Job, x: nat, p: nat, pc: PC)
    requires Shape(s) && u < |s.threads| && s.threads[u] == Append(job, x, p) && p < |s.pages|
    requires !choice.fits && pc == if choice.crosses then AllocFirst(job, x, Meta(p)) else LinkTail(job, x, p, None)
    ensures Act(s, u, choice) == Goes(s, u, pc) && Shape(Goes(s, u, pc))
  {
    Moves(s, u, choice);
  }
}
