/** The mini allocator run alone: pages from the extents of its batches, and the keyed metadata it leaves behind
    (src/mini_allocator.c). Addresses count pages; an extent is `size` pages. */
module MiniAllocators {
  import opened DataModel
  import opened KeyOrder
  import opened Concatenation
  import opened RcAllocators
  import opened KeyedExtents

  // ----------------------------------------------------------------- while in use

  /** No extent is recorded twice, and within a batch the keys do not decrease. */
  ghost predicate Recorded(cfg: DataConfig, es: seq<Entry>, batches: nat) {
    && (forall i :: 0 <= i < |es| ==> es[i].extent.Some? && es[i].batch < batches)
    && NoTwice(es)
    && (forall i, j :: 0 <= i < j < |es| && es[i].batch == es[j].batch ==> Le(cfg, es[i].startKey, es[j].startKey))
  }

  /** Each batch has an extent in reserve that is not recorded yet. */
  ghost predicate Reserved(es: seq<Entry>, reserve: seq<nat>) {
    && (forall b, c :: 0 <= b < c < |reserve| ==> reserve[b] != reserve[c])
    && (forall b :: 0 <= b < |reserve| ==> !Owns(es, reserve[b]))
  }

  /** All of them hold their one reference. */
  ghost predicate Counted(es: seq<Entry>, reserve: seq<nat>, counts: seq<int>) {
    && (forall i :: 0 <= i < |es| && es[i].extent.Some? ==>
          es[i].extent.value < |counts| && counts[es[i].extent.value] == AL_ONE_REF)
    && (forall b :: 0 <= b < |reserve| ==> reserve[b] < |counts| && counts[reserve[b]] == AL_ONE_REF)
  }

  /** Page `next` is where batch b goes on: within the extent recorded last for it, or at its end, or at the start of
      nothing. */
  ghost predicate GoesOn(es: seq<Entry>, size: nat, b: nat, next: nat)
    requires size > 0
  {
    var p := Last(es, |es|, b);
    if p.None? || es[p.value].extent.None? then next % size == 0
    else es[p.value].extent.value * size < next <= es[p.value].extent.value * size + size
  }

  /** The end of the pages given out of entry i's extent. */
  ghost function PageEnd(es: seq<Entry>, size: nat, nexts: seq<nat>, i: nat): nat
    requires i < |es| && es[i].extent.Some? && es[i].batch < |nexts|
  {
    if Last(es, |es|, es[i].batch) == Some(i) then nexts[es[i].batch] else es[i].extent.value * size + size
  }

  /** The page was given out of entry i's extent. */
  ghost predicate OutOf(es: seq<Entry>, size: nat, nexts: seq<nat>, i: nat, page: nat) {
    && i < |es| && es[i].extent.Some? && es[i].batch < |nexts|
    && es[i].extent.value * size <= page < PageEnd(es, size, nexts, i)
  }

  ghost predicate GivenOut(es: seq<Entry>, size: nat, nexts: seq<nat>, page: nat) {
    exists i: nat :: OutOf(es, size, nexts, i, page)
  }

  ghost predicate Going(es: seq<Entry>, size: nat, nexts: seq<nat>)
    requires size > 0
  {
    forall b :: 0 <= b < |nexts| ==> GoesOn(es, size, b, nexts[b])
  }

  ghost predicate Distinct(pages: seq<nat>) {
    forall i, j :: 0 <= i < j < |pages| ==> pages[i] != pages[j]
  }

  // --------------------------------------------------------------- arithmetic

  lemma EndIsMultiple(x: nat, size: nat)
    requires size > 0
    ensures (x * size) % size == 0 && (x * size + size) % size == 0
  {
    ModOf(x * size, size, x, 0);
    ModOf(x * size + size, size, x + 1, 0);
  }

  /** Pages of different extents differ. */
  lemma ExtentsApart(x: nat, y: nat, size: nat, p: nat, q: nat)
    requires x != y && x * size <= p < x * size + size && y * size <= q < y * size + size
    ensures p != q
  {
    if x < y {
      Times(size, x + 1, y);
    } else {
      Times(size, y + 1, x);
    }
  }

  // ------------------------------------------------------- one more page or extent

  lemma LastStays(es: seq<Entry>, n: nat, e: Entry, b: nat)
    requires n <= |es|
    ensures Last(es + [e], n, b) == Last(es, n, b)
    ensures Last(es + [e], |es| + 1, b) == if e.batch == b then Some(|es|) else Last(es, |es|, b)
  {
    LastPrefix(es, n, e, b);
    LastPrefix(es, |es|, e, b);
  }

  lemma {:induction false} LastPrefix(es: seq<Entry>, n: nat, e: Entry, b: nat)
    requires n <= |es|
    ensures Last(es + [e], n, b) == Last(es, n, b)
  {
    if n > 0 {
      LastPrefix(es, n - 1, e, b);
    }
  }

  /** The next page of the extent in hand. */
  lemma NextPage(es: seq<Entry>, size: nat, nexts: seq<nat>, b: nat, page: nat)
    requires size > 0 && b < |nexts| && Going(es, size, nexts) && nexts[b] % size != 0 && NoTwice(es)
    ensures var p := Last(es, |es|, b); var nexts' := nexts[b := nexts[b] + 1];
      && p.Some? && OutOf(es, size, nexts', p.value, nexts[b]) && Going(es, size, nexts')
    ensures GivenOut(es, size, nexts, page) ==>
      page != nexts[b] && GivenOut(es, size, nexts[b := nexts[b] + 1], page)
  {
    var p := Last(es, |es|, b);
    var nexts' := nexts[b := nexts[b] + 1];
    assert GoesOn(es, size, b, nexts[b]);
    var x := es[p.value].extent.value;
    EndIsMultiple(x, size);
    forall c | 0 <= c < |nexts'| ensures GoesOn(es, size, c, nexts'[c]) {
      assert GoesOn(es, size, c, nexts[c]);
    }
    if GivenOut(es, size, nexts, page) {
      var i: nat :| OutOf(es, size, nexts, i, page);
      StillOut(es, size, nexts, b, i, page);
    }
  }

  lemma StillOut(es: seq<Entry>, size: nat, nexts: seq<nat>, b: nat, i: nat, page: nat)
    requires size > 0 && b < |nexts| && Going(es, size, nexts) && nexts[b] % size != 0 && NoTwice(es)
    requires OutOf(es, size, nexts, i, page)
    ensures page != nexts[b] && OutOf(es, size, nexts[b := nexts[b] + 1], i, page)
  {
    var p := Last(es, |es|, b).value;
    WithinExtent(es, size, nexts, i, page);
    assert GoesOn(es, size, b, nexts[b]);
    var y := es[p].extent.value;
    EndIsMultiple(y, size);
    if i != p {
      assert es[i].extent != es[p].extent;
      ExtentsApart(es[i].extent.value, y, size, page, nexts[b]);
    }
  }

  ghost predicate NoTwice(es: seq<Entry>) {
    forall i, j :: 0 <= i < j < |es| ==> es[i].extent != es[j].extent
  }

  lemma WithinExtent(es: seq<Entry>, size: nat, nexts: seq<nat>, i: nat, page: nat)
    requires size > 0 && Going(es, size, nexts) && OutOf(es, size, nexts, i, page)
    ensures page < es[i].extent.value * size + size
  {
    assert GoesOn(es, size, es[i].batch, nexts[es[i].batch]);
  }

  /** The first page of a new extent. */
  lemma NextExtent(es: seq<Entry>, size: nat, nexts: seq<nat>, b: nat, e: Entry, page: nat)
    requires size > 0 && b < |nexts| && Going(es, size, nexts) && e.extent.Some? && e.batch == b
    requires !Owns(es, e.extent.value)
    ensures var first := e.extent.value * size; var es', nexts' := es + [e], nexts[b := first + 1];
      && OutOf(es', size, nexts', |es|, first) && Going(es', size, nexts')
      && (GivenOut(es, size, nexts, page) ==> page != first && GivenOut(es', size, nexts', page))
  {
    var first := e.extent.value * size;
    var es', nexts' := es + [e], nexts[b := first + 1];
    LastStays(es, |es|, e, b);
    forall c | 0 <= c < |nexts'| ensures GoesOn(es', size, c, nexts'[c]) {
      assert GoesOn(es, size, c, nexts[c]);
      LastStays(es, |es|, e, c);
    }
    if GivenOut(es, size, nexts, page) {
      var i: nat :| OutOf(es, size, nexts, i, page);
      WithinExtent(es, size, nexts, i, page);
      LastStays(es, |es|, e, es[i].batch);
      assert es'[i] == es[i] && es[i].extent != e.extent;
      ExtentsApart(es[i].extent.value, e.extent.value, size, page, first);
      assert OutOf(es', size, nexts', i, page);
    }
  }

  /** Recording an extent of the reserve and reserving another. */
  lemma RecordedMore(cfg: DataConfig, es: seq<Entry>, batches: nat, reserve: seq<nat>, counts: seq<int>, b: nat,
      key: Key,
                     fresh': nat)
    requires Recorded(cfg, es, batches) && Reserved(es, reserve) && Counted(es, reserve, counts)
    requires b < batches == |reserve| && fresh' < |counts| && counts[fresh'] == AL_FREE
    requires forall i :: 0 <= i < |es| && es[i].batch == b ==> Le(cfg, es[i].startKey, key)
    ensures var e := Entry(Some(reserve[b]), b, key); var es', reserve' := es + [e], reserve[b := fresh'];
      && Recorded(cfg, es', batches) && Reserved(es', reserve')
      && Counted(es', reserve', counts[fresh' := AL_ONE_REF])
  {
    var e := Entry(Some(reserve[b]), b, key);
    var es', reserve' := es + [e], reserve[b := fresh'];
    forall i | 0 <= i < |es| ensures es[i].extent != e.extent {
      NotOwned(es, reserve[b], i);
    }
    forall c | 0 <= c < |reserve'| ensures !Owns(es', reserve'[c]) {
      OwnsMore(es, e, reserve'[c]);
      if c == b {
        FreeIsNotOwned(es, reserve, counts, fresh');
      }
    }
  }

  lemma NotOwned(es: seq<Entry>, x: nat, i: nat)
    requires !Owns(es, x) && i < |es|
    ensures es[i].extent != Some(x)
  {
  }

  lemma OwnsMore(es: seq<Entry>, e: Entry, x: nat)
    ensures Owns(es + [e], x) <==> Owns(es, x) || e.extent == Some(x)
  {
    var es' := es + [e];
    assert es'[|es|] == e;
    if Owns(es, x) {
      var i :| 0 <= i < |es| && es[i].extent == Some(x);
      assert es'[i] == es[i];
    }
  }

  lemma FreeIsNotOwned(es: seq<Entry>, reserve: seq<nat>, counts: seq<int>, x: nat)
    requires Counted(es, reserve, counts) && x < |counts| && counts[x] == AL_FREE
    ensures !Owns(es, x)
  {
  }

  // --------------------------------------------------------------- finished

  function Closing(batches: nat, endKey: Key): seq<Entry> {
    seq(batches, b requires 0 <= b < batches => Entry(None, b, endKey))
  }

  /** With a closing entry for every batch the metadata is complete. */
  lemma ClosedIsWellFormed(cfg: DataConfig, es: seq<Entry>, batches: nat, capacity: nat, endKey: Key)
    requires Recorded(cfg, es, batches) && batches <= MINI_MAX_BATCHES
    requires forall i :: 0 <= i < |es| && es[i].extent.Some? ==> es[i].extent.value < capacity
    ensures WellFormed(cfg, es + Closing(batches, endKey), capacity)
  {
    var all := es + Closing(batches, endKey);
    forall i | 0 <= i < |all| && all[i].extent.Some?
      ensures exists j :: i < j < |all| && all[j].batch == all[i].batch
    {
      var j: nat := |es| + all[i].batch;
      assert i < j < |all| && all[j].batch == all[i].batch;
    }
  }

  lemma InfinitiesBound(cfg: DataConfig)
    ensures forall k :: Le(cfg, NegativeInfinity, k) && Le(cfg, k, PositiveInfinity)
  {
  }

  /** The range of all keys meets every extent. */
  lemma WholeMeetsAll(cfg: DataConfig, es: seq<Entry>, capacity: nat, x: nat)
    requires WellFormed(cfg, es, capacity) && Owns(es, x)
    ensures x in Hits(cfg, es, |es|, Range(NegativeInfinity, PositiveInfinity))
  {
    InfinitiesBound(cfg);
    hide Hits, DataKeyCompare, Le;
    var i: nat :| i < |es| && es[i].extent == Some(x);
    var later: nat :| i < later < |es| && es[later].batch == es[i].batch;
    var j := NextExists(es, i, later);
    HitsComplete(cfg, es, |es|, Range(NegativeInfinity, PositiveInfinity), i, j);
  }

  class MiniAllocator {
    const cfg: DataConfig
    const al: RcAllocator
    const size: nat
    const entryFits: (seq<Entry>, Entry) -> bool
    const nextAddr: array<nat>
    const nextExtent: array<nat>
    /** The metadata pages in the order of their links. */
    var pages: seq<seq<Entry>>
    /** Every page given out so far. */
    ghost var returned: seq<nat>

    ghost function Entries(): seq<Entry>
      reads this`pages
    {
      Flat(pages)
    }

    /** What holds while pages are being given out. */
    ghost predicate Valid()
      reads this, al, al.refCount, nextAddr, nextExtent
    {
      && 0 < size && 0 < nextAddr.Length == nextExtent.Length <= MINI_MAX_BATCHES && pages != []
      && nextAddr != nextExtent && al.Valid() && Recorded(cfg, Entries(), nextAddr.Length) && Reserved(Entries(),
          nextExtent[..])
      && Counted(Entries(), nextExtent[..], al.refCount[..]) && Going(Entries(), size, nextAddr[..])
      && Distinct(returned) && forall r :: r in returned ==> GivenOut(Entries(), size, nextAddr[..], r)
    }

    constructor (cfg: DataConfig, al: RcAllocator, size: nat, batches: nat, entryFits: (seq<Entry>, Entry) -> bool)
      requires 0 < size && 0 < batches <= MINI_MAX_BATCHES
      ensures this.cfg == cfg && this.al == al && this.size == size && Entries() == [] && returned == []
      ensures fresh(nextAddr) && fresh(nextExtent) && nextAddr != nextExtent
      ensures nextAddr.Length == nextExtent.Length == batches && pages != []
      ensures forall b :: 0 <= b < batches ==> nextAddr[b] == 0
    {
      this.cfg, this.al, this.size, this.entryFits := cfg, al, size, entryFits;
      nextAddr := new nat[batches](i => 0);
      nextExtent := new nat[batches](i => 0);
      pages, returned := [[]], [];
      new;
      FlatSingle<Entry>([]);
    }

    /** The end of mini_init: an extent in reserve for each batch, unless the disk is full, which stops the program. */
    method ReserveExtents() returns (ok: bool)
      requires 0 < size && 0 < nextAddr.Length == nextExtent.Length <= MINI_MAX_BATCHES && pages != []
      requires al.Valid() && Entries() == [] && returned == [] && nextAddr != nextExtent
      requires forall b :: 0 <= b < nextAddr.Length ==> nextAddr[b] == 0
      modifies al, al.refCount, nextExtent
      ensures ok ==> Valid()
      ensures !ok ==> forall x :: 0 <= x < al.refCount.Length ==> al.refCount[x] != AL_FREE
    {
      for batch := 0 to nextExtent.Length
        invariant al.Valid() && Entries() == [] && pages != []
        invariant forall b :: 0 <= b < batch ==>
          nextExtent[b] < al.refCount.Length && al.refCount[nextExtent[b]] == AL_ONE_REF
        invariant forall b, c :: 0 <= b < c < batch ==> nextExtent[b] != nextExtent[c]
      {
        var extent := al.Alloc();
        if extent.None? {
          return false;
        }
        nextExtent[batch] := extent.value;
      }
      ok := true;
      NothingUsed(size, nextAddr[..]);
    }

    /** mini_release, for a keyed allocator: the reserve goes back, and every batch gets a closing entry. What is left
        is complete metadata, each extent with its one reference. */
    method Release(endKey: Key)
      requires Valid()
      modifies this`pages, al, al.refCount
      ensures al.Valid() && WellFormed(cfg, Entries(), al.refCount.Length)
      ensures Entries() == old(Entries()) + Closing(nextAddr.Length, endKey)
      ensures forall x :: 0 <= x < al.refCount.Length && Owns(Entries(), x) ==>
        al.refCount[x] == AL_ONE_REF && x in Hits(cfg, Entries(), |Entries()|, Range(NegativeInfinity,
            PositiveInfinity))
    {
      hide Recorded, Flat, Hits, WellFormed, Going, GivenOut;
      ghost var es, batches := Entries(), nextAddr.Length;
      for batch := 0 to nextAddr.Length
        invariant al.Valid() && pages != [] && Entries() == es + Closing(batch, endKey)
        invariant forall i :: 0 <= i < |es| && es[i].extent.Some? ==>
          es[i].extent.value < al.refCount.Length && al.refCount[es[i].extent.value] == AL_ONE_REF
        invariant forall b :: batch <= b < batches ==>
          nextExtent[b] < al.refCount.Length && al.refCount[nextExtent[b]] == AL_ONE_REF
      {
        ReserveApart(es, nextExtent[..], batch);
        var ref := al.DecRef(nextExtent[batch]);
        ref := al.DecRef(nextExtent[batch]);
        AppendEntry(Entry(None, batch, endKey));
        ClosingMore(es, batch, endKey);
      }
      ClosedIsWellFormed(cfg, es, batches, al.refCount.Length, endKey);
      forall x | 0 <= x < al.refCount.Length && Owns(Entries(), x)
        ensures al.refCount[x] == AL_ONE_REF
        ensures x in Hits(cfg, Entries(), |Entries()|, Range(NegativeInfinity, PositiveInfinity))
      {
        WholeMeetsAll(cfg, Entries(), al.refCount.Length, x);
        ClosingOwnsNothing(es, batches, endKey, x);
      }
    }

    /** Appends to the last metadata page, or to a new one if it does not fit. */
    method AppendEntry(e: Entry)
      requires pages != []
      modifies this`pages
      ensures pages != [] && Entries() == old(Entries()) + [e]
    {
      var last := |pages| - 1;
      if entryFits(pages[last], e) {
        FlatAppendLast(pages, e);
        pages := pages[last := pages[last] + [e]];
      } else {
        FlatConcat(pages, [[e]]);
        FlatSingle([e]);
        pages := pages + [[e]];
      }
    }

    /** mini_alloc: a page never given out before, of an extent recorded in the metadata. None when the disk is full,
        which stops the program. */
    method Alloc(batch: nat, key: Key) returns (page: Option<nat>)
      requires Valid() && batch < nextAddr.Length
      requires forall i :: 0 <= i < |Entries()| && Entries()[i].batch == batch ==> Le(cfg, Entries()[i].startKey, key)
      modifies this`pages, this`returned, al, al.refCount, nextAddr, nextExtent
      ensures page.None? ==> forall x :: 0 <= x < al.refCount.Length ==> old(al.refCount[x]) != AL_FREE
      ensures page.Some? ==> Valid() && returned == old(returned) + [page.value] && page.value !in old(returned)
      ensures page.Some? ==> GivenOut(Entries(), size, nextAddr[..], page.value)
      ensures page.Some? ==>
        var extent := old(nextExtent[batch]);
        Entries() == old(Entries())
                     + if old(nextAddr[batch]) % size == 0 then [Entry(Some(extent), batch, key)] else []
    {
      var nextAddress := nextAddr[batch];
      if nextAddress % size == 0 {
        page := AllocExtent(batch, key);
        return;
      }
      hide Recorded, Reserved, Counted, Going, GivenOut, OutOf, Flat;
      ghost var es, nexts := Entries(), nextAddr[..];
      RecordedNoTwice(cfg, es, nextAddr.Length);
      OnePage(es, size, nexts, batch, returned);
      nextAddr[batch] := nextAddress + 1;
      assert nextAddr[..] == nexts[batch := nexts[batch] + 1];
      returned := returned + [nextAddress];
      page := Some(nextAddress);
    }

    /** The batch's reserved extent is recorded and a new one reserved. */
    method AllocExtent(batch: nat, key: Key) returns (page: Option<nat>)
      requires Valid() && batch < nextAddr.Length
      requires forall i :: 0 <= i < |Entries()| && Entries()[i].batch == batch ==> Le(cfg, Entries()[i].startKey, key)
      modifies this`pages, this`returned, al, al.refCount, nextAddr, nextExtent
      ensures page.None? ==> forall x :: 0 <= x < al.refCount.Length ==> old(al.refCount[x]) != AL_FREE
      ensures page.Some? ==> Valid() && returned == old(returned) + [page.value] && page.value !in old(returned)
      ensures page.Some? ==> GivenOut(Entries(), size, nextAddr[..], page.value)
      ensures page.Some? ==> Entries() == old(Entries()) + [Entry(Some(old(nextExtent[batch])), batch, key)]
    {
      hide Recorded, Reserved, Counted, Going, GivenOut, OutOf, Flat;
      ghost var es, nexts, reserve, counts := Entries(), nextAddr[..], nextExtent[..], al.refCount[..];
      var extent := nextExtent[batch];
      var fresh' := al.Alloc();
      if fresh'.None? {
        return None;
      }
      RecordedMore(cfg, es, nextAddr.Length, reserve, counts, batch, key, fresh'.value);
      NotReserved(es, reserve, batch);
      nextExtent[batch] := fresh'.value;
      assert nextExtent[..] == reserve[batch := fresh'.value];
      var next := extent * size;
      AppendEntry(Entry(Some(extent), batch, key));
      OneExtent(es, size, nexts, batch, Entry(Some(extent), batch, key), returned);
      nextAddr[batch] := next + 1;
      assert nextAddr[..] == nexts[batch := next + 1];
      returned := returned + [next];
      page := Some(next);
    }
  }

  lemma NothingUsed(size: nat, nexts: seq<nat>)
    requires size > 0 && forall b :: 0 <= b < |nexts| ==> nexts[b] == 0
    ensures Going([], size, nexts)
  {
  }

  lemma ReserveApart(es: seq<Entry>, reserve: seq<nat>, b: nat)
    requires Reserved(es, reserve) && b < |reserve|
    ensures forall c :: b < c < |reserve| ==> reserve[c] != reserve[b]
    ensures forall i :: 0 <= i < |es| ==> es[i].extent != Some(reserve[b])
  {
  }

  lemma ClosingOwnsNothing(es: seq<Entry>, batches: nat, endKey: Key, x: nat)
    requires Owns(es + Closing(batches, endKey), x)
    ensures Owns(es, x)
  {
    var all := es + Closing(batches, endKey);
    assert forall j: nat :: |es| <= j < |all| ==> all[j].extent.None?;
    var i: nat :| i < |all| && all[i].extent == Some(x);
    assert all[i] == es[i];
  }

  lemma ClosingMore(es: seq<Entry>, batch: nat, endKey: Key)
    ensures es + Closing(batch, endKey) + [Entry(None, batch, endKey)] == es + Closing(batch + 1, endKey)
  {
  }

  lemma FlatAppendLast(pages: seq<seq<Entry>>, e: Entry)
    requires pages != []
    ensures Flat(pages[|pages| - 1 := pages[|pages| - 1] + [e]]) == Flat(pages) + [e]
  {
    var last := |pages| - 1;
    assert pages[last := pages[last] + [e]][..last] == pages[..last];
  }

  lemma RecordedNoTwice(cfg: DataConfig, es: seq<Entry>, batches: nat)
    requires Recorded(cfg, es, batches)
    ensures NoTwice(es)
  {
  }

  lemma NotReserved(es: seq<Entry>, reserve: seq<nat>, b: nat)
    requires Reserved(es, reserve) && b < |reserve|
    ensures !Owns(es, reserve[b])
  {
  }

  /** NextPage, for all the pages given out before. */
  lemma OnePage(es: seq<Entry>, size: nat, nexts: seq<nat>, b: nat, returned: seq<nat>)
    requires size > 0 && b < |nexts| && Going(es, size, nexts) && nexts[b] % size != 0 && NoTwice(es)
    requires Distinct(returned) && forall r :: r in returned ==> GivenOut(es, size, nexts, r)
    ensures var nexts' := nexts[b := nexts[b] + 1];
      && Going(es, size, nexts') && GivenOut(es, size, nexts', nexts[b]) && nexts[b] !in returned
      && Distinct(returned + [nexts[b]])
      && forall r :: r in returned + [nexts[b]] ==> GivenOut(es, size, nexts', r)
  {
    hide Going, GivenOut, OutOf, NoTwice;
    var nexts' := nexts[b := nexts[b] + 1];
    NextPage(es, size, nexts, b, 0);
    OutIsGiven(es, size, nexts', Last(es, |es|, b).value, nexts[b]);
    forall r | r in returned ensures r != nexts[b] && GivenOut(es, size, nexts', r) {
      NextPage(es, size, nexts, b, r);
    }
  }

  lemma OutIsGiven(es: seq<Entry>, size: nat, nexts: seq<nat>, i: nat, page: nat)
    requires OutOf(es, size, nexts, i, page)
    ensures GivenOut(es, size, nexts, page)
  {
  }

  /** NextExtent, for all the pages given out before. */
  lemma OneExtent(es: seq<Entry>, size: nat, nexts: seq<nat>, b: nat, e: Entry, returned: seq<nat>)
    requires size > 0 && b < |nexts| && Going(es, size, nexts) && e.extent.Some? && e.batch == b
    requires !Owns(es, e.extent.value)
    requires Distinct(returned) && forall r :: r in returned ==> GivenOut(es, size, nexts, r)
    ensures var first := e.extent.value * size; var es', nexts' := es + [e], nexts[b := first + 1];
      && Going(es', size, nexts') && GivenOut(es', size, nexts', first) && first !in returned
      && Distinct(returned + [first])
      && forall r :: r in returned + [first] ==> GivenOut(es', size, nexts', r)
  {
    hide Going, GivenOut, OutOf, Owns;
    var first := e.extent.value * size;
    var es', nexts' := es + [e], nexts[b := first + 1];
    NextExtent(es, size, nexts, b, e, 0);
    OutIsGiven(es', size, nexts', |es|, first);
    forall r | r in returned ensures r != first && GivenOut(es', size, nexts', r) {
      NextExtent(es, size, nexts, b, e, r);
    }
  }
}
