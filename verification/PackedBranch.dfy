/** A packed branch and its keyed references: the calls of mini_alloc that packing makes leave metadata with an extent
    that every key range meets, so that giving up a range asks for cleanup exactly when it is the last
    (src/btree.c, src/mini_allocator.c). */
module PackedBranch {
  import opened DataModel
  import opened KeyOrder
  import opened Concatenation
  import opened PackedTree
  import opened BTreePack
  import opened RcAllocators
  import opened KeyedExtents
  import opened KeyedMinis
  import opened MiniAllocators

  /** How many extents are recorded for a batch. */
  function ExtentsOf(es: seq<Entry>, b: nat): nat {
    if es == [] then 0 else ExtentsOf(es[..|es| - 1], b) + if es[|es| - 1].batch == b then 1 else 0
  }

  lemma ExtentMore(es: seq<Entry>, e: Entry, b: nat)
    ensures ExtentsOf(es + [e], b) == ExtentsOf(es, b) + if e.batch == b then 1 else 0
  {
    assert (es + [e])[..|es|] == es;
  }

  lemma {:induction false} NoExtents(es: seq<Entry>, b: nat)
    requires ExtentsOf(es, b) == 0
    ensures forall i :: 0 <= i < |es| ==> es[i].batch != b
  {
    if es != [] {
      NoExtents(es[..|es| - 1], b);
    }
  }

  lemma {:induction false} OneExtentOf(es: seq<Entry>, b: nat) returns (i: nat)
    requires ExtentsOf(es, b) == 1
    ensures i < |es| && es[i].batch == b && forall j :: 0 <= j < |es| && es[j].batch == b ==> j == i
  {
    var n := |es| - 1;
    if es[n].batch == b {
      NoExtents(es[..n], b);
      i := n;
    } else {
      i := OneExtentOf(es[..n], b);
    }
  }

  /** Of a batch nothing is recorded of, no extent is in hand. */
  lemma FirstOfBatch(es: seq<Entry>, size: nat, nexts: seq<nat>, b: nat)
    requires size > 0 && b < |nexts| && Going(es, size, nexts) && ExtentsOf(es, b) == 0
    ensures nexts[b] % size == 0
  {
    NoExtents(es, b);
    assert GoesOn(es, size, b, nexts[b]);
  }

  // ------------------------------------------------------------- the metadata

  /** What is recorded comes from the calls made, and of the top height as often as it was called for. */
  ghost predicate Follows(es: seq<Entry>, calls: seq<Call>, top: nat) {
    && (forall i :: 0 <= i < |es| ==>
          exists j :: 0 <= j < |calls| && calls[j].batch == es[i].batch && es[i].startKey == User(calls[j].key))
    && ExtentsOf(es, top) == CallsOf(calls, top)
  }

  lemma FollowsMore(es: seq<Entry>, calls: seq<Call>, top: nat, c: Call, e: Entry)
    requires Follows(es, calls, top) && e.batch == c.batch && e.startKey == User(c.key)
    ensures Follows(es + [e], calls + [c], top)
    ensures c.batch != top ==> Follows(es, calls + [c], top)
  {
    ExtentMore(es, e, top);
    CallMore(calls, c, top);
    var more := calls + [c];
    forall i | 0 <= i < |es|
      ensures exists j :: 0 <= j < |more| && more[j].batch == es[i].batch && es[i].startKey == User(more[j].key)
    {
      var j :| 0 <= j < |calls| && calls[j].batch == es[i].batch && es[i].startKey == User(calls[j].key);
      assert more[j] == calls[j];
    }
    assert more[|calls|] == c;
  }

  /** The keys of one batch come in the order of the stream. */
  lemma KeysFollow(cfg: DataConfig, es: seq<Entry>, calls: seq<Call>, at: seq<nat>, done: seq<Tuple>, top: nat, n: nat)
    requires CallsComplete(calls, at, done, top) && StrictlySorted(cfg, done) && n < |calls|
    requires Follows(es, calls[..n], top)
    ensures forall i :: 0 <= i < |es| && es[i].batch == calls[n].batch ==> Le(cfg, es[i].startKey, User(calls[n].key))
  {
    forall i | 0 <= i < |es| && es[i].batch == calls[n].batch ensures Le(cfg, es[i].startKey, User(calls[n].key)) {
      var j :| 0 <= j < n && calls[..n][j].batch == es[i].batch && es[i].startKey == User(calls[..n][j].key);
      assert Reads(calls[j], at[j], done) && Reads(calls[n], at[n], done) && at[j] < at[n];
    }
  }

  /** The top height is called for once. */
  lemma {:induction false} CallsOfPrefix(calls: seq<Call>, n: nat, h: nat)
    requires n <= |calls|
    ensures CallsOf(calls[..n], h) <= CallsOf(calls, h)
    decreases |calls|
  {
    if n < |calls| {
      assert calls[..|calls| - 1][..n] == calls[..n];
      CallsOfPrefix(calls[..|calls| - 1], n, h);
    } else {
      assert calls[..n] == calls;
    }
  }

  lemma TopIsNew(es: seq<Entry>, calls: seq<Call>, n: nat, top: nat)
    requires n < |calls| && CallsOf(calls, top) == 1 && calls[n].batch == top && Follows(es, calls[..n], top)
    ensures ExtentsOf(es, top) == 0
  {
    CallsOfPrefix(calls, n + 1, top);
    CallMore(calls[..n], calls[n], top);
    assert calls[..n] + [calls[n]] == calls[..n + 1];
  }

  /** The only extent of its batch is met by every range. */
  lemma AloneIsMet(cfg: DataConfig, es: seq<Entry>, batches: nat, endKey: Key, i: nat)
    requires i < |es| && es[i].extent.Some? && es[i].batch < batches
    requires forall j :: 0 <= j < |es| && es[j].batch == es[i].batch ==> j == i
    ensures MetByAll(cfg, es + Closing(batches, endKey), es[i].extent.value)
  {
    var all := es + Closing(batches, endKey);
    var j := |es| + es[i].batch;
    assert all[i] == es[i] && all[j] == Entry(None, es[i].batch, endKey);
    forall k | i < k < j ensures all[k].batch != es[i].batch {
      if k < |es| {
        assert all[k] == es[k];
      }
    }
    NoneBefore(all, i);
    forall r | Proper(cfg, r) ensures es[i].extent.value in Hits(cfg, all, |all|, r) {
      HitsComplete(cfg, all, |all|, r, i, j);
    }
  }

  lemma NoneBefore(es: seq<Entry>, i: nat)
    requires i < |es| && forall j :: 0 <= j < i ==> es[j].batch != es[i].batch
    ensures IsFirst(es, i)
  {
  }

  /** Makes the calls of a packed tree, and mini_release. False when the disk is full, which stops the program. */
  method Record(m: MiniAllocator, calls: seq<Call>, endKey: Key, ghost at: seq<nat>, ghost done: seq<Tuple>,
                ghost top: nat)
    returns (ok: bool)
    requires m.Valid() && m.Entries() == [] && top < m.nextAddr.Length
    requires CallsComplete(calls, at, done, top) && StrictlySorted(m.cfg, done)
    modifies m`pages, m`returned, m.al, m.al.refCount, m.nextAddr, m.nextExtent
    ensures ok ==> m.al.Valid() && WellFormed(m.cfg, m.Entries(), m.al.refCount.Length)
    ensures ok ==> forall x :: 0 <= x < m.al.refCount.Length && Owns(m.Entries(), x) ==>
      m.al.refCount[x] == AL_ONE_REF && x in Hits(m.cfg, m.Entries(), |m.Entries()|, WHOLE)
    ensures ok ==> exists x :: MetByAll(m.cfg, m.Entries(), x)
  {
    hide StrictlySorted, CallsComplete, Follows, WellFormed, Hits, MetByAll, Owns, Flat;
    NothingFollows(top);
    var n := 0;
    while n < |calls|
      invariant n <= |calls| && m.Valid() && Follows(m.Entries(), calls[..n], top)
    {
      KeysFollow(m.cfg, m.Entries(), calls, at, done, top, n);
      ok := One(m, calls, n, at, done, top);
      if !ok {
        return;
      }
      n := n + 1;
    }
    assert calls[..n] == calls;
    ghost var es := m.Entries();
    ghost var i := TopExtent(es, calls, at, done, top);
    AllRecorded(m);
    m.Release(endKey);
    AloneIsMet(m.cfg, es, m.nextAddr.Length, endKey, i);
    ok := true;
  }

  /** One call. */
  method One(m: MiniAllocator, calls: seq<Call>, n: nat, ghost at: seq<nat>, ghost done: seq<Tuple>, ghost top: nat)
    returns (ok: bool)
    requires m.Valid() && n < |calls| && CallsComplete(calls, at, done, top) && top < m.nextAddr.Length
    requires Follows(m.Entries(), calls[..n], top)
    requires forall i :: 0 <= i < |m.Entries()| && m.Entries()[i].batch == calls[n].batch ==>
      Le(m.cfg, m.Entries()[i].startKey, User(calls[n].key))
    modifies m`pages, m`returned, m.al, m.al.refCount, m.nextAddr, m.nextExtent
    ensures ok ==> m.Valid() && Follows(m.Entries(), calls[..n + 1], top)
  {
    hide Follows, Flat, Recorded, Reserved, MiniAllocators.Counted, Going, GivenOut;
    ghost var es := m.Entries();
    var c := calls[n];
    assert c.batch <= top;
    if c.batch == top {
      TopIsNew(es, calls, n, top);
      FirstOfBatch(es, m.size, m.nextAddr[..], top);
    }
    FollowsMore(es, calls[..n], top, c, Entry(Some(m.nextExtent[c.batch]), c.batch, User(c.key)));
    assert calls[..n] + [c] == calls[..n + 1];
    var page := m.Alloc(c.batch, User(c.key));
    ok := page.Some?;
    assert es + [] == es;
  }

  lemma NothingFollows(top: nat)
    ensures Follows([], [], top)
  {
  }

  lemma TopExtent(es: seq<Entry>, calls: seq<Call>, at: seq<nat>, done: seq<Tuple>, top: nat) returns (i: nat)
    requires Follows(es, calls, top) && CallsComplete(calls, at, done, top)
    ensures i < |es| && es[i].batch == top && forall j :: 0 <= j < |es| && es[j].batch == top ==> j == i
  {
    i := OneExtentOf(es, top);
  }

  lemma AllRecorded(m: MiniAllocator)
    requires m.Valid()
    ensures forall i :: 0 <= i < |m.Entries()| ==> m.Entries()[i].extent.Some?
  {
  }

  // ---------------------------------------------------------------- the branch

  /** btree_pack on a new allocator, and the keyed references of the branch it leaves: they are on one range of all
      keys, and giving up ranges asks for cleanup at the last and only then. None when the tree is empty or higher
      than there are batches, or the disk is full. */
  method PackBranch(m: MiniAllocator, input: seq<Tuple>, leafFits: (seq<Tuple>, Tuple) -> bool,
                    indexFits: (seq<Pivot>, Pivot) -> bool, shareExtent: (Addr, Addr) -> bool, maxTuples: nat)
    returns (root: Option<Node>, branch: Option<KeyedMini>)
    requires Known(Total(input)) && forall ps, p :: |ps| < 2 ==> indexFits(ps, p)
    requires StrictlySorted(m.cfg, input) && |input| <= maxTuples && forall t :: t in input ==> BTreePack.Valid(t)
    requires m.Valid() && m.Entries() == []
    modifies m`pages, m`returned, m.al, m.al.refCount, m.nextAddr, m.nextExtent
    ensures branch.Some? ==> root.Some? && Tuples(root.value) == input
    ensures branch.Some? ==> var b := branch.value;
      && fresh(b) && b.Valid() && b.live && b.outstanding == [WHOLE]
      && exists x :: MetByAll(b.cfg, b.Entries(), x)
  {
    hide Total, Known, Tuples, TreeOk, StrictlySorted, Leaves, Chained, CallsComplete, WellFormed, Hits, MetByAll, Owns,
         Flat;
    var outcome, req;
    ghost var height;
    outcome, req, height := Pack(input, leafFits, indexFits, shareExtent, maxTuples);
    root, branch := outcome.root, None;
    if root.Some? && req.height < m.nextAddr.Length {
      var endKey := User(input[|input| - 1].key);
      var ok := Record(m, req.calls, endKey, req.at, input, height);
      if ok {
        EndsProper(m.cfg);
        var b := new KeyedMini(m.cfg, m.al, m.pages, WHOLE);
        branch := Some(b);
      }
    }
  }
}
