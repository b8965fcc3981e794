/** In every run of threads allocating from one mini allocator the pages returned are distinct, and come out of extents
    recorded in the metadata that nobody else holds (src/mini_allocator.c, src/rc_allocator.c). */
module MiniThreadsSafety {
  import opened DataModel
  import opened Concatenation
  import opened RcAllocators
  import opened KeyedExtents
  import opened MiniAllocators
  import opened MiniThreads

  // ------------------------------------------------------------ one thread moves

  ghost predicate OneMoved(s: State, u: nat, s': State) {
    && u < |s.threads| == |s'.threads| && s'.threads == s.threads[u := s'.threads[u]] && s'.size == s.size
    && |s'.nexts| == |s.nexts| && |s'.reserve| == |s.reserve| && |s'.goes| == |s.goes| && |s'.counts| == |s.counts|
    && |s.pages| <= |s'.pages| && s'.foreign == s.foreign
  }

  lemma NextFits(s: State, u: nat, choice: Choice)
    requires Shape(s) && u < |s.threads| && Fits(s, s.threads[u])
    ensures |PagesAfter(s, u, s.threads[u], choice)| >= |s.pages|
    ensures Fits(s.(pages := PagesAfter(s, u, s.threads[u], choice)), Next(s, u, s.threads[u], choice))
  {
  }

  lemma EffectSizes(s: State, u: nat, choice: Choice)
    requires Shape(s) && u < |s.threads| && Fits(s, s.threads[u])
    ensures var s' := Effect(s, u, s.threads[u], choice);
      && s'.size == s.size && s'.threads == s.threads && s'.pages == s.pages && s'.foreign == s.foreign
      && |s'.scans| == |s.scans|
      && |s'.nexts| == |s.nexts| && |s'.reserve| == |s.reserve| && |s'.goes| == |s.goes| && |s'.counts| == |s.counts|
  {
  }

  lemma Moves(s: State, u: nat, choice: Choice)
    requires Shape(s) && u < |s.threads|
    ensures OneMoved(s, u, Act(s, u, choice)) && Shape(Act(s, u, choice))
  {
    hide Next, Effect, PagesAfter;
    NextFits(s, u, choice);
    EffectSizes(s, u, choice);
  }

  // ------------------------------------------------------------ the batch locks

  predicate Plain(s: State, b: nat)
    requires b < |s.nexts| == |s.goes|
  {
    s.nexts[b].Some? ==> s.nexts[b].value == s.goes[b]
  }

  /** A thread leaves other threads' batches alone. */
  lemma EffectElsewhere(s: State, u: nat, choice: Choice, b: nat)
    requires Shape(s) && u < |s.threads| && Fits(s, s.threads[u]) && b < |s.nexts| && s.nexts[b] == None
    requires !(HoldsBatch(s.threads[u]) && s.threads[u].job.batch == b)
    ensures var s' := Effect(s, u, s.threads[u], choice);
      && |s'.nexts| == |s.nexts| && |s'.reserve| == |s.reserve| && |s'.goes| == |s.goes|
      && s'.nexts[b] == None && s'.goes[b] == s.goes[b] && s'.reserve[b] == s.reserve[b]
  {
  }

  lemma BatchOther(s: State, u: nat, choice: Choice, v: nat)
    requires Shape(s) && u < |s.threads| && v < |s.threads| && u != v && BatchOk(s, v) && Shape(Act(s, u, choice))
    requires PairOk(s.size, s.threads[u], s.threads[v])
    ensures BatchOk(Act(s, u, choice), v)
  {
    hide Next, Effect, PagesAfter;
    assert Fits(s, s.threads[u]) && Fits(s, s.threads[v]);
    EffectSizes(s, u, choice);
    if HoldsBatch(s.threads[v]) {
      EffectElsewhere(s, u, choice, s.threads[v].job.batch);
    }
  }

  lemma BatchSelf(s: State, u: nat, choice: Choice)
    requires Shape(s) && u < |s.threads| && BatchOk(s, u) && Shape(Act(s, u, choice))
    requires forall b :: 0 <= b < |s.nexts| ==> Plain(s, b)
    ensures BatchOk(Act(s, u, choice), u)
  {
    hide PagesAfter, OnPage;
    var pc := s.threads[u];
    assert Fits(s, pc);
    if !pc.Idle? {
      assert Plain(s, pc.job.batch);
    }
  }

  lemma PlainKept(s: State, u: nat, choice: Choice, b: nat)
    requires Shape(s) && u < |s.threads| && BatchOk(s, u) && b < |s.nexts| && Plain(s, b)
    ensures |Act(s, u, choice).nexts| == |Act(s, u, choice).goes| == |s.nexts| && Plain(Act(s, u, choice), b)
  {
    hide Next, PagesAfter;
    assert Fits(s, s.threads[u]);
  }

  lemma PairKept(s: State, u: nat, choice: Choice, v: nat)
    requires Inv(s) && u < |s.threads| && v < |s.threads| && u != v && Shape(Act(s, u, choice))
    ensures HoldsBatch(Act(s, u, choice).threads[u]) && HoldsBatch(s.threads[v]) ==>
      Act(s, u, choice).threads[u].job.batch != s.threads[v].job.batch
  {
    hide PageOk, AloneOk, Conserved, OneRef, PagesOk;
    assert Fits(s, s.threads[u]) && BatchOk(s, u) && BatchOk(s, v) && PairOk(s.size, s.threads[u], s.threads[v]);
  }

  // ---------------------------------------------------------- the metadata locks

  /** What the step of a thread does to the flags of page p. */
  lemma FlagsAfter(s: State, u: nat, choice: Choice, p: nat)
    requires Shape(s) && u < |s.threads| && Fits(s, s.threads[u]) && p < |s.pages|
    ensures var pc, ps := s.threads[u], PagesAfter(s, u, s.threads[u], choice);
      && p < |ps| && |ps| == |s.pages| + Bit(pc.LinkTail?)
      && ps[p].claim == (if pc.ClaimTail? && pc.t == p && s.pages[p].claim.None? then Some(u)
                         else if (pc.UnclaimOld? || pc.UnclaimTail?) && pc.t == p then None else s.pages[p].claim)
      && ps[p].locked == (if pc.LockTail? && pc.t == p then true
                          else if (pc.UnlockOld? || pc.UnlockTail?) && pc.t == p then false else s.pages[p].locked)
  {
  }

  lemma PageSelf(s: State, u: nat, choice: Choice, p: nat)
    requires Shape(s) && u < |s.threads| && Shape(Act(s, u, choice)) && p < |s.pages| && PageOk(s, u, p)
    requires OnPage(s.threads[u]) ==> s.threads[u].t < |s.pages| && PageOk(s, u, s.threads[u].t)
    ensures p < |Act(s, u, choice).pages| && PageOk(Act(s, u, choice), u, p)
  {
    hide PagesAfter, Effect;
    assert Fits(s, s.threads[u]);
    FlagsAfter(s, u, choice, p);
    EffectSizes(s, u, choice);
  }

  lemma LocksItsClaim(pc: PC, p: nat)
    ensures Locks(pc, p) ==> Claims(pc, p)
    ensures OnTail(pc, p) ==> Claims(pc, p) || Reads(pc, p)
  {
  }

  lemma PageOther(s: State, u: nat, choice: Choice, v: nat, p: nat)
    requires Shape(s) && u < |s.threads| && v < |s.threads| && u != v && Shape(Act(s, u, choice)) && p < |s.pages|
    requires PageOk(s, u, p) && PageOk(s, v, p) && AloneOk(s.threads[u], s.threads[v], p)
    requires OnPage(s.threads[u]) ==> s.threads[u].t < |s.pages| && PageOk(s, u, s.threads[u].t)
    ensures p < |Act(s, u, choice).pages| && PageOk(Act(s, u, choice), v, p)
  {
    hide PagesAfter, Effect, Next;
    assert Fits(s, s.threads[u]) && Fits(s, s.threads[v]);
    FlagsAfter(s, u, choice, p);
    EffectSizes(s, u, choice);
    LocksItsClaim(s.threads[v], p);
  }

  /** The page just linked. */
  lemma PageNew(s: State, u: nat, choice: Choice, v: nat, p: nat)
    requires Shape(s) && u < |s.threads| && v < |s.threads| && Shape(Act(s, u, choice))
    requires |s.pages| <= p < |Act(s, u, choice).pages|
    requires OnPage(s.threads[u]) ==> s.threads[u].t < |s.pages| && PageOk(s, u, s.threads[u].t)
    ensures PageOk(Act(s, u, choice), v, p)
  {
    assert Fits(s, s.threads[u]) && Fits(s, s.threads[v]);
  }

  lemma AloneSelf(s: State, u: nat, choice: Choice, v: nat, p: nat)
    requires Shape(s) && u < |s.threads| && v < |s.threads| && u != v && Shape(Act(s, u, choice))
    requires p < |s.pages| && AloneOk(s.threads[u], s.threads[v], p) && AloneOk(s.threads[v], s.threads[u], p)
    requires PageOk(s, v, p)
    ensures AloneOk(Act(s, u, choice).threads[u], s.threads[v], p)
    ensures AloneOk(s.threads[v], Act(s, u, choice).threads[u], p)
  {
    hide PagesAfter, Effect;
    assert Fits(s, s.threads[u]) && Fits(s, s.threads[v]);
  }

  lemma AloneNew(s: State, u: nat, choice: Choice, v: nat, p: nat)
    requires Shape(s) && u < |s.threads| && v < |s.threads| && u != v && Shape(Act(s, u, choice))
    requires |s.pages| <= p < |Act(s, u, choice).pages|
    ensures AloneOk(Act(s, u, choice).threads[u], s.threads[v], p)
    ensures AloneOk(s.threads[v], Act(s, u, choice).threads[u], p)
  {
    hide Effect;
    assert Fits(s, s.threads[u]) && Fits(s, s.threads[v]);
  }

  // ------------------------------------------------------------- the metadata

  function NewEntry(pc: PC): Entry
    requires Records(pc, Choice(None, true, false))
  {
    Entry(Some(pc.x), pc.job.batch, pc.job.key)
  }

  lemma EntriesAfter(s: State, u: nat, choice: Choice)
    requires Shape(s) && u < |s.threads|
    requires Records(s.threads[u], choice) ==> s.threads[u].t == |s.pages| - 1
    ensures Entries(Act(s, u, choice))
         == if Records(s.threads[u], choice) then Entries(s) + [NewEntry(s.threads[u])] else Entries(s)
  {
    hide Next, Effect, Flat;
    var pc, s' := s.threads[u], Act(s, u, choice);
    assert Fits(s, pc);
    if Records(pc, choice) {
      FlatAppendLast(Texts(s.pages), NewEntry(pc));
      assert Texts(s'.pages) == Texts(s.pages)[pc.t := Texts(s.pages)[pc.t] + [NewEntry(pc)]];
    } else if pc.LinkTail? {
      assert Texts(s'.pages) == Texts(s.pages) + [[]];
      FlatConcat(Texts(s.pages), [[]]);
      FlatSingle<Entry>([]);
    } else {
      assert Texts(s'.pages) == Texts(s.pages);
    }
  }

  // ------------------------------------------------------------- conservation

  lemma {:induction false} HandsUpdate(threads: seq<PC>, u: nat, pc: PC, x: nat)
    requires u < |threads|
    ensures InHands(threads[u := pc], x) + InHand(threads[u], x) == InHands(threads, x) + InHand(pc, x)
    decreases |threads|
  {
    hide InHand;
    var n := |threads| - 1;
    if u < n {
      assert threads[u := pc][..n] == threads[..n][u := pc];
      HandsUpdate(threads[..n], u, pc, x);
    } else {
      assert threads[u := pc][..n] == threads[..n];
    }
  }

  lemma {:induction false} HandCounts(threads: seq<PC>, u: nat, x: nat)
    requires u < |threads|
    ensures InHand(threads[u], x) <= InHands(threads, x)
    decreases |threads|
  {
    hide InHand;
    if u < |threads| - 1 {
      HandCounts(threads[..|threads| - 1], u, x);
    }
  }

  lemma {:induction false} ReservedUpdate(reserve: seq<nat>, b: nat, h: nat, x: nat)
    requires b < |reserve|
    ensures TimesReserved(reserve[b := h], x) + Bit(reserve[b] == x) == TimesReserved(reserve, x) + Bit(h == x)
    decreases |reserve|
  {
    var n := |reserve| - 1;
    if b < n {
      assert reserve[b := h][..n] == reserve[..n][b := h];
      ReservedUpdate(reserve[..n], b, h, x);
    } else {
      assert reserve[b := h][..n] == reserve[..n];
    }
  }

  lemma RecordedMore(es: seq<Entry>, e: Entry, x: nat)
    ensures TimesRecorded(es + [e], x) == TimesRecorded(es, x) + Bit(e.extent == Some(x))
  {
    assert (es + [e])[..|es|] == es;
  }

  /** What a step does to the holders of extent x, in the thread's hands and elsewhere. */
  lemma HandsAfter(s: State, u: nat, choice: Choice, x: nat)
    requires Shape(s) && u < |s.threads| && Fits(s, s.threads[u]) && BatchOk(s, u)
    ensures var pc, pc' := s.threads[u], Next(s, u, s.threads[u], choice);
      InHand(pc', x) + Bit(Records(pc, choice) && pc.x == x)
      + Bit(pc.StoreReserve? && pc.h == x) + Bit(pc.LinkTail? && pc.extent == Some(x))
      == InHand(pc, x) + Bit(pc.StoreReserve? && s.reserve[pc.job.batch] == x)
      + Bit(pc.AllocSwap? && s.counts[pc.h] == AL_FREE && pc.h == x)
  {
    hide PagesAfter, Effect;
  }

  lemma ConservedKept(s: State, u: nat, choice: Choice, x: nat)
    requires Inv(s) && u < |s.threads|
    ensures Conserved(Act(s, u, choice), x)
  {
    hide PairOk, AloneOk, PagesOk, InHand, Next, PagesAfter, Entries, OneRef, InHands, TimesReserved, TimesRecorded;
    var pc, s' := s.threads[u], Act(s, u, choice);
    assert Fits(s, pc) && BatchOk(s, u) && Conserved(s, x);
    if Records(pc, choice) {
      assert PageOk(s, u, pc.t);
      RecordedMore(Entries(s), NewEntry(pc), x);
    }
    EntriesAfter(s, u, choice);
    HandsUpdate(s.threads, u, s'.threads[u], x);
    HandsAfter(s, u, choice, x);
    if pc.StoreReserve? {
      ReservedUpdate(s.reserve, pc.job.batch, pc.h, x);
    }
    if pc.LinkTail? && pc.extent == Some(x) {
      HandCounts(s.threads, u, x);
      LinkHolds(pc, x);
    }
  }

  lemma LinkHolds(pc: PC, x: nat)
    requires pc.LinkTail? && pc.extent == Some(x)
    ensures InHand(pc, x) >= 1
  {
  }

  // -------------------------------------------------------------- pages given out

  ghost predicate Out(s: State, page: nat)
    requires 0 < s.size
  {
    GivenOut(Entries(s), s.size, s.goes, page)
  }

  /** From s to s' page n has been given out, and none of those before. */
  ghost predicate Gives(s: State, s': State, n: nat)
    requires 0 < s.size && s'.size == s.size
  {
    && Going(Entries(s'), s.size, s'.goes) && Out(s', n)
    && forall page: nat :: Out(s, page) ==> page != n && Out(s', page)
  }

  lemma {:induction false} RecordedTwice(es: seq<Entry>, i: nat, j: nat, x: nat)
    requires i < |es| && j < |es| && es[i].extent == Some(x) && es[j].extent == Some(x)
    ensures TimesRecorded(es, x) >= if i == j then 1 else 2
    decreases |es|
  {
    var n := |es| - 1;
    if i < n && j < n {
      RecordedTwice(es[..n], i, j, x);
    } else if i < n {
      RecordedTwice(es[..n], i, i, x);
    } else if j < n {
      RecordedTwice(es[..n], j, j, x);
    }
  }

  lemma EachOnce(s: State)
    requires Inv(s)
    ensures NoTwice(Entries(s))
  {
    hide BatchOk, PairOk, PageOk, AloneOk, OneRef, Entries, Going, GivenOut, TimesRecorded;
    var es := Entries(s);
    forall i, j | 0 <= i < j < |es| ensures es[i].extent != es[j].extent {
      var x := es[i].extent.value;
      assert Conserved(s, x);
      if es[i].extent == es[j].extent {
        RecordedTwice(es, i, j, x);
      }
    }
  }

  lemma HandIsNotRecorded(s: State, u: nat)
    requires Inv(s) && u < |s.threads| && Carries(s.threads[u])
    ensures !Owns(Entries(s), s.threads[u].x)
  {
    hide BatchOk, PairOk, PageOk, AloneOk, OneRef, Entries, PagesOk, TimesRecorded;
    var x := s.threads[u].x;
    HandCounts(s.threads, u, x);
    assert Conserved(s, x);
    if Owns(Entries(s), x) {
      var i :| 0 <= i < |Entries(s)| && Entries(s)[i].extent == Some(x);
      RecordedTwice(Entries(s), i, i, x);
    }
  }

  /** The next page of the extent in hand is taken. */
  lemma TakesPage(s: State, u: nat, choice: Choice)
    requires Inv(s) && u < |s.threads| && s.threads[u].ReadReserve? && s.threads[u].next % s.size != 0
    ensures Gives(s, Act(s, u, choice), s.threads[u].next)
  {
    hide PairOk, PageOk, AloneOk, OneRef, Conserved, Entries, Going, GivenOut, OutOf, NoTwice;
    var s', pc := Act(s, u, choice), s.threads[u];
    assert Fits(s, pc) && BatchOk(s, u);
    var b, es := pc.job.batch, Entries(s);
    EntriesAfter(s, u, choice);
    EachOnce(s);
    NextPage(es, s.size, s.goes, b, 0);
    OutIsGiven(es, s.size, s'.goes, Last(es, |es|, b).value, pc.next);
    forall page: nat | Out(s, page) ensures page != pc.next && Out(s', page) {
      NextPage(es, s.size, s.goes, b, page);
    }
  }

  /** The first page of the extent just recorded is taken. */
  lemma TakesExtent(s: State, u: nat, choice: Choice)
    requires Inv(s) && u < |s.threads| && Records(s.threads[u], choice)
    ensures Gives(s, Act(s, u, choice), s.threads[u].x * s.size)
  {
    hide PairOk, AloneOk, OneRef, Conserved, Entries, Going, GivenOut, OutOf, NoTwice, BatchOk, Owns;
    var s', pc := Act(s, u, choice), s.threads[u];
    assert Fits(s, pc) && PageOk(s, u, pc.t);
    var b, es := pc.job.batch, Entries(s);
    EntriesAfter(s, u, choice);
    HandIsNotRecorded(s, u);
    NextExtent(es, s.size, s.goes, b, NewEntry(pc), 0);
    OutIsGiven(Entries(s'), s.size, s'.goes, |es|, pc.x * s.size);
    forall page: nat | Out(s, page) ensures page != pc.x * s.size && Out(s', page) {
      NextExtent(es, s.size, s.goes, b, NewEntry(pc), page);
    }
  }

  /** The step takes a page for the thread. */
  predicate Commits(s: State, u: nat, choice: Choice)
    requires u < |s.threads| && 0 < s.size
  {
    Records(s.threads[u], choice) || (s.threads[u].ReadReserve? && s.threads[u].next % s.size != 0)
  }

  lemma FlightAfter(s: State, u: nat, choice: Choice)
    requires Shape(s) && u < |s.threads| && Fits(s, s.threads[u])
    ensures var pc, pc' := s.threads[u], Next(s, u, s.threads[u], choice);
      if Commits(s, u, choice) then
        InFlight(s.size, pc') == Some(if pc.ReadReserve? then pc.next else pc.x * s.size)
      else if pc.StoreNext? then InFlight(s.size, pc') == None
      else InFlight(s.size, pc') == InFlight(s.size, pc)
    ensures var s' := Effect(s, u, s.threads[u], choice);
      && (!Commits(s, u, choice) ==> s'.goes == s.goes)
      && s'.returned == if s.threads[u].StoreNext? then s.returned + [s.threads[u].page] else s.returned
  {
    hide PagesAfter;
  }

  /** All that is known of the other threads' pages. */
  lemma FlightFacts(s: State, u: nat, v: nat)
    requires Inv(s) && u < |s.threads| && v < |s.threads| && u != v
    ensures var f := InFlight(s.size, s.threads[v]); f.Some? ==>
      f.value !in s.returned && Out(s, f.value) && f != InFlight(s.size, s.threads[u])
  {
    hide BatchOk, PageOk, AloneOk, OneRef, Conserved, Entries, Going, GivenOut;
    assert PairOk(s.size, s.threads[v], s.threads[u]);
  }

  lemma CommitKeeps(s: State, u: nat, choice: Choice)
    requires Inv(s) && u < |s.threads| && Commits(s, u, choice)
    ensures PagesOk(Act(s, u, choice))
  {
    hide BatchOk, PageOk, AloneOk, OneRef, Conserved, Entries, Going, GivenOut, Next, Effect, PagesAfter, PairOk;
    var s', pc := Act(s, u, choice), s.threads[u];
    assert Fits(s, pc);
    Moves(s, u, choice);
    FlightAfter(s, u, choice);
    EntriesAreExtents(s, u, choice);
    if pc.ReadReserve? {
      TakesPage(s, u, choice);
    } else {
      TakesExtent(s, u, choice);
    }
    assert s'.returned == s.returned;
    forall r | r in s'.returned ensures Out(s', r) {
      assert Out(s, r);
    }
    forall v | 0 <= v < |s'.threads| && InFlight(s'.size, s'.threads[v]).Some?
      ensures InFlight(s'.size, s'.threads[v]).value !in s'.returned
      ensures Out(s', InFlight(s'.size, s'.threads[v]).value)
    {
      if v != u {
        FlightFacts(s, u, v);
      }
    }
  }

  lemma EntriesAreExtents(s: State, u: nat, choice: Choice)
    requires Inv(s) && u < |s.threads|
    ensures forall i :: 0 <= i < |Entries(Act(s, u, choice))| ==> Entries(Act(s, u, choice))[i].extent.Some?
  {
    hide BatchOk, AloneOk, OneRef, Conserved, Entries, Going, GivenOut, PairOk;
    assert Fits(s, s.threads[u]);
    if Records(s.threads[u], choice) {
      assert PageOk(s, u, s.threads[u].t);
    }
    EntriesAfter(s, u, choice);
  }

  lemma OthersKeep(s: State, u: nat, choice: Choice)
    requires Inv(s) && u < |s.threads| && !Commits(s, u, choice)
    ensures PagesOk(Act(s, u, choice))
  {
    hide BatchOk, PageOk, AloneOk, OneRef, Conserved, Entries, Going, GivenOut, Next, Effect, PagesAfter, PairOk;
    var s', pc := Act(s, u, choice), s.threads[u];
    assert Fits(s, pc);
    Moves(s, u, choice);
    FlightAfter(s, u, choice);
    EntriesAreExtents(s, u, choice);
    EntriesAfter(s, u, choice);
    var own := InFlight(s.size, pc);
    assert own.Some? ==> own.value !in s.returned && Out(s, own.value);
    forall v | 0 <= v < |s'.threads| && InFlight(s'.size, s'.threads[v]).Some?
      ensures InFlight(s'.size, s'.threads[v]).value !in s'.returned
      ensures Out(s', InFlight(s'.size, s'.threads[v]).value)
    {
      if v != u {
        FlightFacts(s, u, v);
      }
    }
  }

  lemma PairFlights(s: State, u: nat, choice: Choice, v: nat)
    requires Inv(s) && u < |s.threads| && v < |s.threads| && u != v && Shape(Act(s, u, choice))
    ensures PairOk(s.size, Act(s, u, choice).threads[u], s.threads[v])
    ensures PairOk(s.size, s.threads[v], Act(s, u, choice).threads[u])
  {
    hide BatchOk, PageOk, AloneOk, OneRef, Conserved, Entries, Going, GivenOut, Next, Effect, PagesAfter;
    assert Fits(s, s.threads[u]);
    PairKept(s, u, choice, v);
    FlightAfter(s, u, choice);
    FlightFacts(s, u, v);
    if Commits(s, u, choice) {
      if s.threads[u].ReadReserve? {
        TakesPage(s, u, choice);
      } else {
        TakesExtent(s, u, choice);
      }
    }
  }

  // ------------------------------------------------------------------ every step

  lemma OneRefKept(s: State, u: nat, choice: Choice, x: nat)
    requires Shape(s) && u < |s.threads| && OneRef(s, x)
    ensures OneRef(Act(s, u, choice), x)
  {
    hide Next, PagesAfter;
    assert Fits(s, s.threads[u]);
  }

  lemma PagesFlagged(s: State, u: nat, choice: Choice)
    requires Inv(s) && u < |s.threads| && Shape(Act(s, u, choice))
    ensures |s.threads| == |Act(s, u, choice).threads|
    ensures forall v, p :: 0 <= v < |s.threads| && 0 <= p < |Act(s, u, choice).pages| ==>
      PageOk(Act(s, u, choice), v, p)
  {
    hide BatchOk, PairOk, OneRef, Conserved, PagesOk, PageOk, AloneOk, Act;
    Moves(s, u, choice);
    var s' := Act(s, u, choice);
    assert Fits(s, s.threads[u]);
    forall v, p | 0 <= v < |s.threads| && 0 <= p < |s'.pages| ensures PageOk(s', v, p) {
      if p >= |s.pages| {
        PageNew(s, u, choice, v, p);
      } else if v == u {
        PageSelf(s, u, choice, p);
      } else {
        PageOther(s, u, choice, v, p);
      }
    }
  }

  lemma AllAlone(s: State, u: nat, choice: Choice)
    requires Inv(s) && u < |s.threads| && Shape(Act(s, u, choice))
    ensures OneMoved(s, u, Act(s, u, choice))
    ensures var s' := Act(s, u, choice); forall v, w, p ::
      0 <= v < |s.threads| && 0 <= w < |s.threads| && v != w && 0 <= p < |s'.pages| ==>
        AloneOk(s'.threads[v], s'.threads[w], p)
  {
    hide BatchOk, PairOk, OneRef, Conserved, PagesOk, PageOk, Act, Exclusive, Reads;
    Moves(s, u, choice);
    var s' := Act(s, u, choice);
    forall v, w, p | 0 <= v < |s.threads| && 0 <= w < |s.threads| && v != w && 0 <= p < |s'.pages|
      ensures AloneOk(s'.threads[v], s'.threads[w], p)
    {
      if v != u && w != u {
        if p >= |s.pages| {
          NothingBeyond(s, v, p);
        }
      } else {
        var o := if v == u then w else v;
        if p >= |s.pages| {
          AloneNew(s, u, choice, o, p);
        } else {
          AloneSelf(s, u, choice, o, p);
        }
      }
    }
  }

  lemma NothingBeyond(s: State, v: nat, p: nat)
    requires Shape(s) && v < |s.threads| && p >= |s.pages|
    ensures !Exclusive(s.threads[v], p)
  {
    assert Fits(s, s.threads[v]);
  }

  lemma StepKeeps(s: State, u: nat, choice: Choice)
    requires Inv(s) && u < |s.threads|
    ensures Inv(Act(s, u, choice))
  {
    hide BatchOk, PairOk, OneRef, Conserved, PagesOk, PageOk, AloneOk, Act;
    Moves(s, u, choice);
    var s' := Act(s, u, choice);
    forall b | 0 <= b < |s'.nexts| && s'.nexts[b].Some? ensures s'.nexts[b].value == s'.goes[b] {
      assert Plain(s, b);
      PlainKept(s, u, choice, b);
      assert Plain(s', b);
    }
    forall v | 0 <= v < |s'.threads| ensures BatchOk(s', v) {
      if v == u {
        BatchSelf(s, u, choice);
      } else {
        BatchOther(s, u, choice, v);
      }
    }
    forall v, w | 0 <= v < |s'.threads| && 0 <= w < |s'.threads| && v != w
      ensures PairOk(s'.size, s'.threads[v], s'.threads[w])
    {
      if v == u || w == u {
        PairFlights(s, u, choice, if v == u then w else v);
      }
    }
    PagesFlagged(s, u, choice);
    AllAlone(s, u, choice);
    forall x: nat ensures Conserved(s', x) && OneRef(s', x) {
      ConservedKept(s, u, choice, x);
      OneRefKept(s, u, choice, x);
    }
    if Commits(s, u, choice) {
      CommitKeeps(s, u, choice);
    } else {
      OthersKeep(s, u, choice);
    }
  }

  /** Other users of the extent allocator. */
  lemma OthersKeepInv(s: State, x: nat, count: nat)
    requires Inv(s)
    ensures Inv(After(s, Others(x, count)))
  {
    hide PairOk, AloneOk, Entries, Going, GivenOut, InHands, TimesReserved, TimesRecorded, Bit;
    var s' := After(s, Others(x, count));
    if s' != s {
      assert forall pc :: Fits(s, pc) == Fits(s', pc);
      forall v | 0 <= v < |s'.threads| ensures BatchOk(s', v) {
        assert BatchOk(s, v);
      }
      forall v, p | 0 <= v < |s'.threads| && 0 <= p < |s'.pages| ensures PageOk(s', v, p) {
        assert PageOk(s, v, p);
      }
      forall y: nat ensures Conserved(s', y) && OneRef(s', y) {
        OthersConserve(s, x, count, y);
      }
      SameTexts(s, s');
      assert PagesOk(s);
    }
  }

  lemma OthersConserve(s: State, x: nat, count: nat, y: nat)
    requires Shape(s) && Conserved(s, y) && OneRef(s, y)
    requires x < |s.counts| && (x in s.foreign || s.counts[x] == AL_FREE)
    ensures Conserved(After(s, Others(x, count)), y) && OneRef(After(s, Others(x, count)), y)
  {
    hide InHands, TimesReserved, TimesRecorded, Entries;
    assert Entries(After(s, Others(x, count))) == Entries(s) by {
      SameTexts(s, After(s, Others(x, count)));
    }
  }

  lemma SameTexts(s: State, s': State)
    requires s'.pages == s.pages
    ensures Entries(s') == Entries(s)
  {
  }

  lemma AfterKeeps(s: State, e: Event)
    requires Inv(s)
    ensures Inv(After(s, e))
  {
    hide BatchOk, PairOk, OneRef, Conserved, PagesOk, PageOk, AloneOk, Act;
    if e.Others? {
      OthersKeepInv(s, e.x, e.count);
    } else if e.u < |s.threads| {
      StepKeeps(s, e.u, e.choice);
    }
  }

  lemma InitInv(s: State)
    requires Init(s)
    ensures Inv(s)
  {
    hide TimesReserved, GivenOut;
    assert Texts(s.pages) == [[]];
    FlatSingle<Entry>([]);
    NothingUsed(s.size, s.goes);
    forall x: nat ensures Conserved(s, x) {
      NothingInHand(s.threads, x);
    }
  }

  lemma {:induction false} NothingInHand(threads: seq<PC>, x: nat)
    requires forall u :: 0 <= u < |threads| ==> threads[u] == Idle
    ensures InHands(threads, x) == 0
    decreases |threads|
  {
    if threads != [] {
      NothingInHand(threads[..|threads| - 1], x);
    }
  }

  // ------------------------------------------------------------------- every run

  ghost predicate IsRun(states: seq<State>, events: seq<Event>) {
    && |states| == |events| + 1 && Init(states[0])
    && (forall i :: 0 <= i < |events| ==> Shape(states[i]))
    && (forall i :: 0 <= i < |events| ==> states[i + 1] == After(states[i], events[i]))
  }

  lemma {:induction false} RunInv(states: seq<State>, events: seq<Event>, i: nat)
    requires IsRun(states, events) && i < |states|
    ensures Inv(states[i])
  {
    hide Init, Inv, After, Shape;
    if i == 0 {
      InitInv(states[0]);
    } else {
      RunInv(states, events, i - 1);
      assert states[i - 1 + 1] == After(states[i - 1], events[i - 1]);
      AfterKeeps(states[i - 1], events[i - 1]);
    }
  }

  /** Whatever the interleaving, the pages returned are distinct, and each is given out of an extent that the metadata
      records, once. */
  lemma PagesDistinct(states: seq<State>, events: seq<Event>, i: nat)
    requires IsRun(states, events) && i < |states|
    ensures var s := states[i]; 0 < s.size && Distinct(s.returned) && NoTwice(Entries(s))
    ensures forall r :: r in states[i].returned ==> GivenOut(Entries(states[i]), states[i].size, states[i].goes, r)
  {
    hide Init, IsRun, BatchOk, PairOk, OneRef, Conserved, PageOk, AloneOk, Entries, Going, GivenOut, NoTwice, Distinct;
    RunInv(states, events, i);
    EachOnce(states[i]);
  }

  /** Whatever the interleaving, an extent in use is recorded, in reserve, in one thread's hands, metadata or with
      others, exactly one of these and only once; a free one is none of them; and what is not with others has one
      reference. */
  lemma ExtentsConserved(states: seq<State>, events: seq<Event>, i: nat, x: nat)
    requires IsRun(states, events) && i < |states|
    ensures var s := states[i];
      && Holders(s, x) == (if x < |s.counts| && s.counts[x] != AL_FREE then 1 else 0)
      && (Owns(Entries(s), x) ==>
            x < |s.counts| && s.counts[x] == AL_ONE_REF && x !in s.foreign && x !in s.meta && x !in s.reserve)
  {
    hide Init, IsRun, BatchOk, PairOk, PageOk, AloneOk, Entries, PagesOk, TimesRecorded, TimesReserved, InHands;
    RunInv(states, events, i);
    var s := states[i];
    assert Conserved(s, x) && OneRef(s, x);
    if Owns(Entries(s), x) {
      var j :| 0 <= j < |Entries(s)| && Entries(s)[j].extent == Some(x);
      RecordedTwice(Entries(s), j, j, x);
      if x in s.reserve {
        ReservedOnce(s.reserve, x);
      }
    }
  }

  lemma {:induction false} ReservedOnce(reserve: seq<nat>, x: nat)
    requires x in reserve
    ensures TimesReserved(reserve, x) >= 1
    decreases |reserve|
  {
    if reserve[|reserve| - 1] != x {
      ReservedOnce(reserve[..|reserve| - 1], x);
    }
  }
}
