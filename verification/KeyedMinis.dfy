/** The keyed mini allocator: references on key ranges, counted extent by extent (src/mini_allocator.c). */
module KeyedMinis {
  import opened DataModel
  import opened RcAllocators
  import opened KeyOrder
  import opened KeyedExtents
  import opened Concatenation

  datatype Operation = Increment | Decrement

  /** The count of an extent met by m outstanding ranges: it is free when there is none. */
  function Expected(m: nat): int {
    if m == 0 then AL_FREE else AL_NO_REFS + m
  }

  /** The counts after one reference more, or less, on each of the extents. An extent left without references is
      freed. */
  ghost predicate Applied(op: Operation, before: seq<int>, after: seq<int>, hits: set<nat>) {
    && |after| == |before|
    && forall x :: 0 <= x < |before| ==>
         after[x] == if x !in hits then before[x]
                     else if op.Increment? then before[x] + 1
                     else if before[x] == AL_ONE_REF then AL_FREE else before[x] - 1
  }

  class KeyedMini {
    const cfg: DataConfig
    const al: RcAllocator
    /** The metadata pages in the order of their links. */
    const pages: seq<seq<Entry>>
    /** The metadata has not been given up. */
    var live: bool
    ghost var outstanding: seq<Range>

    ghost function Entries(): seq<Entry> { Flat(pages) }

    lemma EntriesAre()
      ensures Entries() == Flat(pages)
    {
    }

    ghost predicate Valid()
      reads this, al, al.refCount
    {
      && al.Valid() && WellFormed(cfg, Entries(), al.refCount.Length)
      && (forall r :: r in outstanding ==> Proper(cfg, r)) && |outstanding| < 254
      && CountsExact(cfg, Entries(), outstanding, al.refCount[..])
      && (live ==> outstanding != [])
    }

    /** A finished branch: one outstanding range, the one it was built for, that meets every extent. */
    constructor (cfg: DataConfig, al: RcAllocator, pages: seq<seq<Entry>>, whole: Range)
      requires al.Valid() && WellFormed(cfg, Flat(pages), al.refCount.Length) && Proper(cfg, whole)
      requires forall x :: 0 <= x < al.refCount.Length && Owns(Flat(pages), x) ==>
        al.refCount[x] == AL_ONE_REF && x in Hits(cfg, Flat(pages), |Flat(pages)|, whole)
      ensures Valid() && live && outstanding == [whole] && this.cfg == cfg && this.al == al && this.pages == pages
    {
      this.cfg, this.al, this.pages := cfg, al, pages;
      live, outstanding := true, [whole];
      new;
      forall x | 0 <= x < al.refCount.Length && Owns(Entries(), x)
        ensures al.refCount[x] == Expected(Count(cfg, Entries(), outstanding, x))
      {
        CountMore(cfg, Entries(), [], whole, x);
        assert [] + [whole] == [whole];
      }
    }

    /** No extent is free while some outstanding range meets it, and none is kept when none does. */
    lemma FreeExactlyWhenUncovered(x: nat)
      requires Valid() && x < al.refCount.Length && Owns(Entries(), x)
      ensures al.refCount[x] == AL_FREE
         <==> forall r :: r in outstanding ==> x !in Hits(cfg, Entries(), |Entries()|, r)
    {
      CountZero(cfg, Entries(), outstanding, x);
    }

    /** One extent of the walk. */
    method Visit(op: Operation, x: nat) returns (freed: bool)
      requires al.Valid() && x < al.refCount.Length
      requires AL_ONE_REF <= al.refCount[x] && (op.Increment? ==> al.refCount[x] < 255)
      modifies al, al.refCount
      ensures al.Valid() && Applied(op, old(al.refCount[..]), al.refCount[..], {x})
      ensures freed <==> op.Decrement? && old(al.refCount[x]) == AL_ONE_REF
    {
      freed := false;
      if op.Increment? {
        var ref := al.IncRef(x);
      } else {
        var ref := al.DecRef(x);
        if ref == AL_NO_REFS {
          ref := al.DecRef(x);
          freed := true;
        }
      }
    }

    /** Reads entry n of the metadata: visits the extent it ends if the range meets it, and remembers the entry. */
    method ReadEntry(op: Operation, r: Range, entry: Entry, currentState: array<BoundaryState>,
                     extentAddr: array<Option<nat>>, ghost n: nat, ghost counts: seq<int>)
      returns (cleanup: bool)
      requires al.Valid() && WellFormed(cfg, Entries(), al.refCount.Length) && Proper(cfg, r)
      requires n < |Entries()| && Entries()[n] == entry && |counts| == al.refCount.Length
      requires Remembers(cfg, Entries(), n, r, currentState[..], extentAddr[..])
      requires Applied(op, counts, al.refCount[..], Hits(cfg, Entries(), n, r))
      requires forall x :: x in Hits(cfg, Entries(), |Entries()|, r) && x < al.refCount.Length ==>
        AL_ONE_REF <= counts[x] && (op.Increment? ==> counts[x] < 255)
      requires currentState as object != al.refCount && extentAddr as object != al.refCount
      modifies al, al.refCount, currentState, extentAddr
      ensures al.Valid()
      ensures Remembers(cfg, Entries(), n + 1, r, currentState[..], extentAddr[..])
      ensures Applied(op, counts, al.refCount[..], Hits(cfg, Entries(), n + 1, r))
      ensures AllFreed(op, counts, Hits(cfg, Entries(), n + 1, r))
         <==> AllFreed(op, counts, Hits(cfg, Entries(), n, r)) && cleanup
    {
      hide Hits, HitAt, WellFormed, WalkExtent, WalkState, EntryState, Applied, AllFreed, Proper, StateOf;
      hide IntervalIntersectsRange, Flat, Last, IsFirst, Meets, Remembers;
      ghost var es := Entries();
      cleanup := true;
      BatchInRange(cfg, es, al.refCount.Length, n);
      var batch := entry.batch;
      RemembersAt(cfg, es, n, r, currentState[..], extentAddr[..], batch);
      var nextState;
      if extentAddr[batch].None? {
        nextState := BeforeStart;
      } else if entry.extent.None? {
        nextState := AfterEnd;
      } else {
        nextState := StateOf(cfg, r, entry.startKey);
      }
      WalkFindsHits(cfg, es, al.refCount.Length, n, r);
      NextStateIs(cfg, es, n, r);
      if IntervalIntersectsRange(currentState[batch], nextState) {
        var x := extentAddr[batch].value;
        NewHit(cfg, es, al.refCount.Length, n, r, x, op, counts, al.refCount[..]);
        ghost var now := al.refCount[..];
        cleanup := Visit(op, x);
        AppliedMore(op, counts, now, al.refCount[..], Hits(cfg, es, n, r), x);
      } else {
        NoHit(cfg, es, n, r);
      }
      ghost var states, extents := currentState[..], extentAddr[..];
      extentAddr[batch] := entry.extent;
      currentState[batch] := nextState;
      RemembersMore(cfg, es, n, r, states, extents, batch, nextState);
      assert currentState[..] == states[batch := nextState] && extentAddr[..] == extents[batch := entry.extent];
    }

    /** Reads one metadata page, whose entries are those from o on. */
    method ReadPage(op: Operation, r: Range, page: seq<Entry>, currentState: array<BoundaryState>,
                    extentAddr: array<Option<nat>>, ghost o: nat, ghost counts: seq<int>)
      returns (cleanup: bool)
      requires al.Valid() && WellFormed(cfg, Entries(), al.refCount.Length) && Proper(cfg, r)
      requires o + |page| <= |Entries()| && |counts| == al.refCount.Length
      requires Entries()[o..o + |page|] == page
      requires Remembers(cfg, Entries(), o, r, currentState[..], extentAddr[..])
      requires Applied(op, counts, al.refCount[..], Hits(cfg, Entries(), o, r))
      requires forall x :: x in Hits(cfg, Entries(), |Entries()|, r) && x < al.refCount.Length ==>
        AL_ONE_REF <= counts[x] && (op.Increment? ==> counts[x] < 255)
      requires currentState as object != al.refCount && extentAddr as object != al.refCount
      modifies al, al.refCount, currentState, extentAddr
      ensures al.Valid()
      ensures Remembers(cfg, Entries(), o + |page|, r, currentState[..], extentAddr[..])
      ensures Applied(op, counts, al.refCount[..], Hits(cfg, Entries(), o + |page|, r))
      ensures AllFreed(op, counts, Hits(cfg, Entries(), o + |page|, r))
         <==> AllFreed(op, counts, Hits(cfg, Entries(), o, r)) && cleanup
    {
      hide *;
      cleanup := true;
      for i := 0 to |page|
        invariant Remembers(cfg, Entries(), o + i, r, currentState[..], extentAddr[..])
        invariant al.Valid() && Applied(op, counts, al.refCount[..], Hits(cfg, Entries(), o + i, r))
        invariant AllFreed(op, counts, Hits(cfg, Entries(), o + i, r))
             <==> AllFreed(op, counts, Hits(cfg, Entries(), o, r)) && cleanup
      {
        assert Entries()[o + i] == Entries()[o..o + |page|][i];
        var freed := ReadEntry(op, r, page[i], currentState, extentAddr, o + i, counts);
        cleanup := cleanup && freed;
      }
    }

    /** The walk's memory before the first entry. */
    method NothingRead() returns (currentState: array<BoundaryState>, extentAddr: array<Option<nat>>)
      ensures fresh(currentState) && fresh(extentAddr)
      ensures currentState.Length == extentAddr.Length == MINI_MAX_BATCHES
      ensures forall b :: 0 <= b < currentState.Length ==> currentState[b] == BeforeStart
      ensures forall b :: 0 <= b < extentAddr.Length ==> extentAddr[b] == None
    {
      currentState := new BoundaryState[MINI_MAX_BATCHES](i => BeforeStart);
      extentAddr := new Option<nat>[MINI_MAX_BATCHES](i => None);
    }

    /** Visits every extent whose interval meets the range, each once. The answer is whether every visit freed its
        extent. */
    method ForEach(op: Operation, r: Range) returns (shouldCleanup: bool)
      requires al.Valid() && WellFormed(cfg, Entries(), al.refCount.Length) && Proper(cfg, r)
      requires forall x :: x in Hits(cfg, Entries(), |Entries()|, r) && x < al.refCount.Length ==>
        AL_ONE_REF <= al.refCount[x] && (op.Increment? ==> al.refCount[x] < 255)
      modifies al, al.refCount
      ensures al.Valid()
      ensures Applied(op, old(al.refCount[..]), al.refCount[..], Hits(cfg, Entries(), |Entries()|, r))
      ensures shouldCleanup <==> AllFreed(op, old(al.refCount[..]), Hits(cfg, Entries(), |Entries()|, r))
    {
      hide *;
      ghost var es, counts := Entries(), al.refCount[..];
      assert es == Flat(pages) by { EntriesAre(); }
      var currentState, extentAddr := NothingRead();
      shouldCleanup := true;
      NothingYet(op, cfg, es, counts, r, currentState[..], extentAddr[..]);
      FlatEnds(pages);
      for page := 0 to |pages|
        invariant Offset(pages, page) <= |es| && fresh(currentState) && fresh(extentAddr)
        invariant Remembers(cfg, es, Offset(pages, page), r, currentState[..], extentAddr[..])
        invariant al.Valid() && Applied(op, counts, al.refCount[..], Hits(cfg, es, Offset(pages, page), r))
        invariant shouldCleanup <==> AllFreed(op, counts, Hits(cfg, es, Offset(pages, page), r))
      {
        PageSlice(pages, page);
        var cleanup := ReadPage(op, r, pages[page], currentState, extentAddr, Offset(pages, page), counts);
        shouldCleanup := shouldCleanup && cleanup;
      }
    }

    /** One more reference on a range of keys, by somebody who holds one on all of it. */
    method IncRef(r: Range)
      requires Valid() && live && Proper(cfg, r) && |outstanding| < 253
      requires exists held :: held in outstanding && Le(cfg, held.start, r.start) && Le(cfg, r.end, held.end)
      modifies this`outstanding, al, al.refCount
      ensures Valid() && outstanding == old(outstanding) + [r] && live
      ensures OthersKept(Entries(), old(al.refCount[..]), al.refCount[..])
    {
      hide Hits, WellFormed, Applied, AllFreed, Count, Owns, OthersKept, Flat;
      ghost var es, counts, capacity := Entries(), al.refCount[..], al.refCount.Length;
      ghost var held :| held in outstanding && Le(cfg, held.start, r.start) && Le(cfg, r.end, held.end);
      ghost var k :| 0 <= k < |outstanding| && outstanding[k] == held;
      HitsInside(cfg, es, capacity, r, held);
      HitsBounded(cfg, es, capacity, r);
      forall x | x in Hits(cfg, es, |es|, r) && x < capacity ensures AL_ONE_REF <= counts[x] < 255 {
        CountPositive(cfg, es, outstanding, k, x);
        CountBounded(cfg, es, outstanding, x);
      }
      var cleanup := ForEach(Increment, r);
      Counted(cfg, es, outstanding, outstanding + [r], counts, al.refCount[..], Increment, r);
      outstanding := outstanding + [r];
    }

    /** Gives up the k-th outstanding range. The answer is true, and the metadata goes too, exactly when none of its
        extents is met by another range. With an extent that every range meets that is the last range. */
    method DecRef(r: Range, ghost k: nat) returns (shouldCleanup: bool)
      requires Valid() && live && k < |outstanding| && outstanding[k] == r
      modifies this`outstanding, this`live, al, al.refCount
      ensures Valid() && outstanding == old(outstanding[..k] + outstanding[k + 1..]) && (live <==> !shouldCleanup)
      ensures shouldCleanup <==> NoneShared(cfg, Entries(), outstanding, r)
      ensures (exists x :: MetByAll(cfg, Entries(), x)) ==> (shouldCleanup <==> outstanding == [])
      ensures OthersKept(Entries(), old(al.refCount[..]), al.refCount[..])
    {
      hide Hits, WellFormed, Applied, AllFreed, Count, Owns, OthersKept, MetByAll, Flat, NoneShared;
      ghost var es, counts, capacity := Entries(), al.refCount[..], al.refCount.Length;
      ghost var left := outstanding[..k] + outstanding[k + 1..];
      HitsBounded(cfg, es, capacity, r);
      forall x | x in Hits(cfg, es, |es|, r) && x < capacity ensures AL_ONE_REF <= counts[x] {
        CountPositive(cfg, es, outstanding, k, x);
      }
      shouldCleanup := ForEach(Decrement, r);
      forall x ensures Count(cfg, es, outstanding, x) == Count(cfg, es, left, x) + One(cfg, es, r, x) {
        CountLess(cfg, es, outstanding, k, x);
      }
      Counted(cfg, es, outstanding, left, counts, al.refCount[..], Decrement, r);
      FreedAre(cfg, es, outstanding, left, counts, r);
      assert forall q :: q in left ==> q in outstanding;
      LastRelease(cfg, es, left, r);
      outstanding := left;
      if shouldCleanup {
        live := false;
      }
    }

    /** Cuts an outstanding range in two at a key, by one more reference on the extents at the key. */
    method Cut(cut: Key, ghost k: nat)
      requires Valid() && live && k < |outstanding| && |outstanding| < 253
      requires Le(cfg, outstanding[k].start, cut) && Le(cfg, cut, outstanding[k].end)
      modifies this`outstanding, al, al.refCount
      ensures Valid() && live && outstanding == old(outstanding)[k := Range(old(outstanding[k]).start, cut)]
                                        + [Range(cut, old(outstanding[k]).end)]
    {
      ghost var r, before := outstanding[k], outstanding;
      assert r in outstanding;
      SelfLe(cfg, cut);
      IncRef(Range(cut, cut));
      ghost var parts := before[k := Range(r.start, cut)] + [Range(cut, r.end)];
      forall x ensures Count(cfg, Entries(), parts, x) == Count(cfg, Entries(), outstanding, x) {
        CutCount(cfg, Entries(), al.refCount.Length, before, k, cut, x);
      }
      outstanding := parts;
    }
  }

  /** Every visited extent had no other reference. */
  ghost predicate AllFreed(op: Operation, counts: seq<int>, hits: set<nat>) {
    forall x :: x in hits && x < |counts| ==> op.Decrement? && counts[x] == AL_ONE_REF
  }

  ghost predicate Remembers(cfg: DataConfig, es: seq<Entry>, n: nat, r: Range, states: seq<BoundaryState>,
                            extents: seq<Option<nat>>)
    requires n <= |es|
  {
    && |states| == |extents| == MINI_MAX_BATCHES
    && forall b :: 0 <= b < MINI_MAX_BATCHES ==>
         states[b] == WalkState(cfg, es, n, b, r) && extents[b] == WalkExtent(es, n, b)
  }

  lemma RemembersAt(cfg: DataConfig, es: seq<Entry>, n: nat, r: Range, states: seq<BoundaryState>,
                    extents: seq<Option<nat>>, b: nat)
    requires n <= |es| && Remembers(cfg, es, n, r, states, extents) && b < MINI_MAX_BATCHES
    ensures |states| == |extents| == MINI_MAX_BATCHES
    ensures states[b] == WalkState(cfg, es, n, b, r) && extents[b] == WalkExtent(es, n, b)
  {
  }

  lemma RemembersMore(cfg: DataConfig, es: seq<Entry>, n: nat, r: Range, states: seq<BoundaryState>,
                      extents: seq<Option<nat>>, b: nat, next: BoundaryState)
    requires n < |es| && Remembers(cfg, es, n, r, states, extents) && b < MINI_MAX_BATCHES && es[n].batch == b
    requires next == EntryState(cfg, es, n, r)
    ensures |states| == |extents| == MINI_MAX_BATCHES
    ensures Remembers(cfg, es, n + 1, r, states[b := next], extents[b := es[n].extent])
  {
    var states', extents', m := states[b := next], extents[b := es[n].extent], n + 1;
    forall c | 0 <= c < MINI_MAX_BATCHES
      ensures states'[c] == WalkState(cfg, es, m, c, r) && extents'[c] == WalkExtent(es, m, c)
    {
      WalkOn(cfg, es, n, c, r);
    }
  }

  lemma NothingYet(op: Operation, cfg: DataConfig, es: seq<Entry>, counts: seq<int>, r: Range,
                   states: seq<BoundaryState>, extents: seq<Option<nat>>)
    requires |states| == |extents| == MINI_MAX_BATCHES
    requires (forall b :: 0 <= b < |states| ==> states[b] == BeforeStart)
    requires (forall b :: 0 <= b < |extents| ==> extents[b] == None)
    ensures Remembers(cfg, es, 0, r, states, extents)
    ensures Applied(op, counts, counts, Hits(cfg, es, 0, r)) && AllFreed(op, counts, Hits(cfg, es, 0, r))
  {
  }

  lemma FlatEnds(pages: seq<seq<Entry>>)
    ensures Offset(pages, 0) == 0 && Offset(pages, |pages|) == |Flat(pages)|
  {
    assert pages[..0] == [] && pages[..|pages|] == pages;
  }

  lemma PageSlice(pages: seq<seq<Entry>>, i: nat)
    requires i < |pages|
    ensures Offset(pages, i + 1) == Offset(pages, i) + |pages[i]| <= |Flat(pages)|
    ensures Flat(pages)[Offset(pages, i)..Offset(pages, i) + |pages[i]|] == pages[i]
  {
    FlatAround(pages, i);
  }

  lemma BatchInRange(cfg: DataConfig, es: seq<Entry>, capacity: nat, n: nat)
    requires WellFormed(cfg, es, capacity) && n < |es|
    ensures es[n].batch < MINI_MAX_BATCHES
  {
  }

  lemma NextStateIs(cfg: DataConfig, es: seq<Entry>, n: nat, r: Range)
    requires n < |es|
    ensures EntryState(cfg, es, n, r)
         == if IsFirst(es, n) then BeforeStart
            else if es[n].extent.None? then AfterEnd
            else StateOf(cfg, r, es[n].startKey)
  {
  }

  lemma HitsStep(cfg: DataConfig, es: seq<Entry>, n: nat, r: Range)
    requires n < |es|
    ensures Hits(cfg, es, n + 1, r) == Hits(cfg, es, n, r) + HitAt(cfg, es, n, r)
  {
    hide HitAt;
  }

  lemma NoHit(cfg: DataConfig, es: seq<Entry>, n: nat, r: Range)
    requires n < |es| && HitAt(cfg, es, n, r) == {}
    ensures Hits(cfg, es, n + 1, r) == Hits(cfg, es, n, r)
  {
  }

  lemma NewHit(cfg: DataConfig, es: seq<Entry>, capacity: nat, n: nat, r: Range, x: nat, op: Operation,
               counts: seq<int>, now: seq<int>)
    requires WellFormed(cfg, es, capacity) && n < |es| && HitAt(cfg, es, n, r) == {x} && |counts| == capacity
    requires Applied(op, counts, now, Hits(cfg, es, n, r))
    ensures x < capacity && x !in Hits(cfg, es, n, r) && Hits(cfg, es, n + 1, r) == Hits(cfg, es, n, r) + {x}
    ensures x in Hits(cfg, es, |es|, r) && |now| == capacity && now[x] == counts[x]
    ensures AllFreed(op, counts, Hits(cfg, es, n + 1, r))
       <==> AllFreed(op, counts, Hits(cfg, es, n, r)) && op.Decrement? && counts[x] == AL_ONE_REF
  {
    hide AllFreed, Hits, WellFormed, HitAt;
    HitOnce(cfg, es, capacity, n, r, x);
    HitsStep(cfg, es, n, r);
    HitsGrow(cfg, es, n + 1, |es|, r);
    AllFreedMore(op, counts, Hits(cfg, es, n, r), x);
  }

  lemma AllFreedMore(op: Operation, counts: seq<int>, hits: set<nat>, x: nat)
    requires x < |counts|
    ensures AllFreed(op, counts, hits + {x})
       <==> AllFreed(op, counts, hits) && op.Decrement? && counts[x] == AL_ONE_REF
  {
    if AllFreed(op, counts, hits + {x}) {
      assert x in hits + {x};
      forall y | y in hits && y < |counts| ensures op.Decrement? && counts[y] == AL_ONE_REF {
        assert y in hits + {x};
      }
    }
  }

  lemma AppliedMore(op: Operation, before: seq<int>, now: seq<int>, after: seq<int>, hits: set<nat>, x: nat)
    requires Applied(op, before, now, hits) && x !in hits && x < |before| && Applied(op, now, after, {x})
    ensures Applied(op, before, after, hits + {x})
  {
  }

  /** No count of an extent that is not the allocator's own has changed. */
  ghost predicate OthersKept(es: seq<Entry>, before: seq<int>, after: seq<int>) {
    |after| == |before| && forall x :: 0 <= x < |before| && !Owns(es, x) ==> after[x] == before[x]
  }

  ghost predicate CountsExact(cfg: DataConfig, es: seq<Entry>, rs: seq<Range>, counts: seq<int>) {
    forall x :: 0 <= x < |counts| && Owns(es, x) ==> counts[x] == Expected(Count(cfg, es, rs, x))
  }

  /** One range more, or less, and the counts with it. */
  lemma Counted(cfg: DataConfig, es: seq<Entry>, rs: seq<Range>, rs': seq<Range>, counts: seq<int>,
                counts': seq<int>, op: Operation, r: Range)
    requires CountsExact(cfg, es, rs, counts) && Applied(op, counts, counts', Hits(cfg, es, |es|, r))
    requires WellFormed(cfg, es, |counts|)
    requires op.Increment? ==> rs' == rs + [r]
    requires forall x :: x in Hits(cfg, es, |es|, r) && x < |counts| ==> AL_ONE_REF <= counts[x]
    requires op.Decrement? ==> forall x :: Count(cfg, es, rs, x) == Count(cfg, es, rs', x) + One(cfg, es, r, x)
    ensures CountsExact(cfg, es, rs', counts') && OthersKept(es, counts, counts')
  {
    HitsBounded(cfg, es, |counts|, r);
    hide Hits, WellFormed, Count, Owns;
    forall x | 0 <= x < |counts| && Owns(es, x) ensures counts'[x] == Expected(Count(cfg, es, rs', x)) {
      CountMore(cfg, es, rs, r, x);
    }
  }

  /** None of the extents that range r meets is met by one of the others. */
  ghost predicate NoneShared(cfg: DataConfig, es: seq<Entry>, others: seq<Range>, r: Range) {
    forall x :: x in Hits(cfg, es, |es|, r) ==> Count(cfg, es, others, x) == 0
  }

  lemma FreedAre(cfg: DataConfig, es: seq<Entry>, rs: seq<Range>, left: seq<Range>, counts: seq<int>, r: Range)
    requires CountsExact(cfg, es, rs, counts) && WellFormed(cfg, es, |counts|)
    requires forall x :: Count(cfg, es, rs, x) == Count(cfg, es, left, x) + One(cfg, es, r, x)
    ensures AllFreed(Decrement, counts, Hits(cfg, es, |es|, r)) <==> NoneShared(cfg, es, left, r)
  {
    HitsBounded(cfg, es, |counts|, r);
    hide Hits, WellFormed, Count, Owns;
    forall x | x in Hits(cfg, es, |es|, r) ensures counts[x] == AL_ONE_REF <==> Count(cfg, es, left, x) == 0 {
      assert Count(cfg, es, rs, x) == Count(cfg, es, left, x) + 1;
    }
  }

  lemma LastRelease(cfg: DataConfig, es: seq<Entry>, left: seq<Range>, r: Range)
    requires Proper(cfg, r) && AllProper(cfg, left)
    ensures left == [] ==> NoneShared(cfg, es, left, r)
    ensures (exists x :: MetByAll(cfg, es, x)) && NoneShared(cfg, es, left, r) ==> left == []
  {
    hide Hits;
    if x :| MetByAll(cfg, es, x) {
      MetCount(cfg, es, left, x);
    }
  }

  ghost predicate AllProper(cfg: DataConfig, rs: seq<Range>) {
    forall r :: r in rs ==> Proper(cfg, r)
  }

  /** A range that shares no extent with the other outstanding ones has no others beside it. */
  ghost predicate OnlyTheLast(cfg: DataConfig, es: seq<Entry>) {
    forall left, r :: AllProper(cfg, left) && Proper(cfg, r) && NoneShared(cfg, es, left, r) ==> left == []
  }

  /** Giving up a range frees all its extents only when it is the last range, whichever ranges are outstanding, if and
      only if some extent is met by every range. */
  lemma LastExactly(cfg: DataConfig, es: seq<Entry>, capacity: nat)
    requires WellFormed(cfg, es, capacity)
    ensures (exists x :: MetByAll(cfg, es, x)) <==> OnlyTheLast(cfg, es)
  {
    hide WellFormed, NoneShared, MetByAll;
    if exists x :: MetByAll(cfg, es, x) {
      forall left, r | AllProper(cfg, left) && Proper(cfg, r) && NoneShared(cfg, es, left, r) ensures left == [] {
        LastRelease(cfg, es, left, r);
      }
    } else {
      EndsApart(cfg, es, capacity);
      assert AllProper(cfg, [HIGH]);
      assert Proper(cfg, LOW) && [HIGH] != [];
    }
  }

  const LOW := Range(NegativeInfinity, NegativeInfinity)
  const HIGH := Range(PositiveInfinity, PositiveInfinity)
  const WHOLE := Range(NegativeInfinity, PositiveInfinity)

  lemma EndsApart(cfg: DataConfig, es: seq<Entry>, capacity: nat)
    requires WellFormed(cfg, es, capacity) && !exists x :: MetByAll(cfg, es, x)
    ensures NoneShared(cfg, es, [HIGH], LOW)
  {
    hide WellFormed, MetByAll, Hits;
    forall x | x in Hits(cfg, es, |es|, LOW) ensures Count(cfg, es, [HIGH], x) == 0 {
      EndsSuffice(cfg, es, capacity, x);
      CountZero(cfg, es, [HIGH], x);
    }
  }

  /** Where no extent is met by every range, there is a run from a finished branch in which the metadata goes while a
      range is outstanding. */
  method ReleaseEarly(m: KeyedMini)
    requires m.Valid() && m.live && m.outstanding == [WHOLE] && !exists x :: MetByAll(m.cfg, m.Entries(), x)
    modifies m`outstanding, m`live, m.al, m.al.refCount
    ensures m.Valid() && !m.live && m.outstanding != []
  {
    hide Hits, Flat, Count, CountsExact, OthersKept, MetByAll, NoneShared, Owns, WellFormed, DataKeyCompare;
    EndsApart(m.cfg, m.Entries(), m.al.refCount.Length);
    EndsProper(m.cfg);
    m.IncRef(LOW);
    m.IncRef(HIGH);
    assert m.outstanding == [WHOLE, LOW, HIGH];
    var gone := m.DecRef(WHOLE, 0);
    assert m.outstanding == [LOW, HIGH];
    if !gone {
      gone := m.DecRef(LOW, 0);
      assert m.outstanding == [HIGH];
    }
  }

  lemma EndsProper(cfg: DataConfig)
    ensures Proper(cfg, LOW) && Proper(cfg, HIGH)
    ensures Le(cfg, NegativeInfinity, NegativeInfinity) && Le(cfg, NegativeInfinity, PositiveInfinity)
    ensures Le(cfg, PositiveInfinity, PositiveInfinity)
  {
  }

  lemma SelfLe(cfg: DataConfig, k: Key)
    ensures Le(cfg, k, k)
  {
  }

  lemma CutCount(cfg: DataConfig, es: seq<Entry>, capacity: nat, rs: seq<Range>, k: nat, cut: Key, x: nat)
    requires WellFormed(cfg, es, capacity) && k < |rs| && Le(cfg, rs[k].start, cut) && Le(cfg, cut, rs[k].end)
    ensures Count(cfg, es, rs[k := Range(rs[k].start, cut)] + [Range(cut, rs[k].end)], x)
         == Count(cfg, es, rs + [Range(cut, cut)], x)
  {
    var left, right := Range(rs[k].start, cut), Range(cut, rs[k].end);
    CountMore(cfg, es, rs[k := left], right, x);
    CountMore(cfg, es, rs, Range(cut, cut), x);
    CountUpdate(cfg, es, rs, k, left, x);
    CutCounts(cfg, es, capacity, rs[k], cut, x);
  }
}
