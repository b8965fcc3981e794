/** Leaf operations of src/btree.c, on a node whose page is an array of bytes updated in place. */
module Leaf {
  import opened DataModel
  import opened LeafPage
  import opened LeafSpace

  datatype EntryState = DidNotExist | StillExists | HasBeenRemoved

  /** leaf_incorporate_spec: what inserting one tuple does to a leaf. */
  class IncorporateSpec {
    const tuple: Tuple  // the key, and the message to store (merged with the old one if there was one)
    var idx: nat
    var state: EntryState

    constructor (tuple: Tuple, idx: nat, state: EntryState)
      ensures this.tuple == tuple && this.idx == idx && this.state == state
    {
      this.tuple, this.idx, this.state := tuple, idx, state;
    }

    /** The spec makes sense for a leaf of n entries. */
    ghost predicate For(n: nat)
      reads this
    {
      if state.StillExists? then idx < n else idx <= n
    }

    /** The entry taken out when the leaf is rebuilt, or -1. */
    ghost function Removed(): int
      reads this
    {
      if state.StillExists? then idx else -1
    }
  }

  /** The leaf contents after the insertion the spec stands for. */
  function Incorporated(es: seq<Tuple>, idx: nat, state: EntryState, t: Tuple): seq<Tuple>
    requires if state.StillExists? then idx < |es| else idx <= |es|
  {
    if state.StillExists? then es[idx := t] else es[..idx] + [t] + es[idx..]
  }

  class LeafNode {
    const page: array<Byte>
    var numEntries: nat
    var nextEntry: nat
    var generation: nat
    var prevAddr: nat
    var nextAddr: nat
    ghost var cells: seq<Cell>  // what the offsets table points at, in key order

    ghost predicate Valid()
      reads this, page
    {
      |cells| == numEntries && Layout(page[..], cells, nextEntry)
    }

    /** The tuples of the leaf, in key order. */
    ghost function View(): seq<Tuple>
      reads this
    {
      Tuples(cells)
    }

    /** No room was lost to fragmentation. */
    ghost predicate Packed()
      reads this
    {
      nextEntry + CapacitySum(View()) == page.Length
    }

    /** btree_init_hdr */
    constructor (pageSize: nat)
      requires HEADER <= pageSize < 65536
      ensures Valid() && fresh(page) && page.Length == pageSize
      ensures View() == [] && Packed()
    {
      page := new Byte[pageSize](_ => 0);
      numEntries, nextEntry, generation, prevAddr, nextAddr := 0, pageSize, 0, 0, 0;
      cells := [];
    }

    /** `memcpy(scratch_hdr, hdr, page_size)` */
    constructor CopyOf(from: LeafNode)
      requires from.Valid()
      ensures Valid() && fresh(page) && page.Length == from.page.Length
      ensures View() == from.View() && numEntries == from.numEntries
    {
      ghost var p := from.page[..];
      page := new Byte[from.page.Length](_ => 0);
      numEntries, nextEntry, generation := from.numEntries, from.nextEntry, from.generation;
      prevAddr, nextAddr := from.prevAddr, from.nextAddr;
      cells := from.cells;
      new;
      forall i | 0 <= i < page.Length {
        page[i] := from.page[i];
      }
      assert page[..] == p;
    }

    method WriteU16(at: nat, v: nat)
      requires at + 2 <= page.Length && v < 65536
      modifies page
      ensures ChangedOnly(old(page[..]), page[..], at, at + 2)
      ensures U16(page[..], at) == v
    {
      page[at], page[at + 1] := v % 256, v / 256;
    }

    method CopyBytes(at: nat, b: Bytes)
      requires at + |b| <= page.Length
      modifies page
      ensures ChangedOnly(old(page[..]), page[..], at, at + |b|)
      ensures page[..][at..at + |b|] == b
    {
      forall i | 0 <= i < |b| {
        page[at + i] := b[i];
      }
      assert page[..][at..at + |b|] == b;
    }

    /** btree_fill_leaf_entry: copy_tuple_to_ondisk_tuple.  The key flags byte is never written. */
    method FillLeafEntry(off: nat, t: Tuple)
      requires off + Capacity(t) <= page.Length < 65536
      modifies page
      ensures Filled(old(page[..]), page[..], off, t)
    {
      hide TupleAt, SizeAt, EntryInside;
      var body := off + ENTRY_HEADER;
      WriteU16(off, |t.key|);
      CopyBytes(body, t.key);
      WriteU16(off + 3, |t.msg.data|);
      page[off + 5] := FlagOf(t.msg.kind);
      CopyBytes(body + |t.key|, t.msg.data);
      ghost var q := page[..];
      assert q[body..body + |t.key|] == t.key;
      EntryDecodes(q, off, t);
    }

    /** btree_can_set_leaf_entry */
    predicate CanSetLeafEntry(k: nat, t: Tuple)
      requires Valid()
      reads this, page
    {
      if numEntries < k then false
      else if k < numEntries && Capacity(t) <= SlotSize(k) then true
      else
        var newNumEntries := if k < numEntries then numEntries else k + 1;
        !(nextEntry < TableEnd(newNumEntries) + Capacity(t))
    }

    /** sizeof_leaf_entry(btree_get_leaf_entry(k)) */
    function SlotSize(k: nat): (size: nat)
      requires Valid() && k < numEntries
      reads this, page
      ensures size == Capacity(View()[k])
    {
      assert SlotIs(page[..], k, cells[k]);
      SizeAt(page[..], Slot(page[..], k))
    }

    /** offsets[k] */
    function OffsetOf(k: nat): (off: nat)
      requires Valid() && k < numEntries
      reads this, page
      ensures off == cells[k].off
    {
      assert SlotIs(page[..], k, cells[k]);
      Slot(page[..], k)
    }

    /** btree_get_leaf_entry, decoded */
    method GetLeafEntry(k: nat) returns (t: Tuple)
      requires Valid() && k < numEntries
      ensures t == View()[k]
    {
      assert SlotIs(page[..], k, cells[k]);
      t := TupleAt(page[..], Slot(page[..], k));
    }

    /** btree_set_leaf_entry: replace entry k, or append when k is the number of entries. */
    method SetLeafEntry(k: nat, t: Tuple) returns (ok: bool)
      requires Valid() && k <= numEntries
      modifies page, this`numEntries, this`nextEntry, this`cells
      ensures Valid()
      ensures ok == old(CanSetLeafEntry(k, t))
      ensures ok ==> View() == if k < old(numEntries) then old(View())[k := t] else old(View()) + [t]
      ensures ok && k == old(numEntries) ==> nextEntry == old(nextEntry) - Capacity(t)
      ensures !ok ==> page[..] == old(page[..]) && unchanged(this)
    {
      hide SlotIs, Filled, U16;
      ghost var p := page[..];
      if k < numEntries {
        if Capacity(t) <= SlotSize(k) {
          assert SlotIs(p, k, cells[k]);
          var off := OffsetOf(k);
          FillLeafEntry(off, t);
          FillInPlace(p, page[..], cells, nextEntry, k, t);
          cells := cells[k := Cell(off, t)];
          return true;
        }
      }
      var newNumEntries := if k < numEntries then numEntries else k + 1;
      if nextEntry < TableEnd(newNumEntries) + Capacity(t) {
        return false;
      }
      var off := nextEntry - Capacity(t);
      FillLeafEntry(off, t);
      ghost var f := page[..];
      WriteU16(TableEnd(k), off);
      FillInGap(p, f, page[..], cells, nextEntry, k, t);
      numEntries, nextEntry := newNumEntries, off;
      cells := if k < |cells| then cells[k := Cell(off, t)] else cells + [Cell(off, t)];
      return true;
    }

    /** btree_insert_leaf_entry: append, then rotate the new slot into place k. */
    method InsertLeafEntry(k: nat, t: Tuple) returns (ok: bool)
      requires Valid() && k <= numEntries
      modifies page, this`numEntries, this`nextEntry, this`cells
      ensures Valid()
      ensures ok == old(CanSetLeafEntry(numEntries, t))
      ensures ok ==> View() == old(View())[..k] + [t] + old(View())[k..]
      ensures !ok ==> page[..] == old(page[..]) && unchanged(this)
    {
      hide SlotIs;
      ghost var es := View();
      ok := SetLeafEntry(numEntries, t);
      if ok {
        ghost var p := page[..];
        RotateLastSlotTo(k);
        RotateSlots(p, page[..], cells, nextEntry, k);
        RotateAppended(cells, es, t, k);
        cells := Rotated(cells, k);
      }
    }

    method RotateLastSlotTo(k: nat)
      requires k < numEntries && TableEnd(numEntries) <= page.Length < 65536
      modifies page
      ensures ChangedOnly(old(page[..]), page[..], TableEnd(k), TableEnd(numEntries))
      ensures Slot(page[..], k) == old(Slot(page[..], numEntries - 1))
      ensures forall i :: k < i < numEntries ==> Slot(page[..], i) == old(Slot(page[..], i - 1))
    {
      var thisOffset := Slot(page[..], numEntries - 1);
      MoveSlotsUp(k);
      ghost var q := page[..];
      WriteU16(TableEnd(k), thisOffset);
      forall i | k < i < numEntries ensures Slot(page[..], i) == Slot(q, i) {
        assert page[TableEnd(i)] == q[TableEnd(i)] && page[TableEnd(i) + 1] == q[TableEnd(i) + 1];
      }
    }

    /** `memmove(&offsets[k + 1], &offsets[k], (num_entries - k - 1) * sizeof(offsets[0]))` */
    method MoveSlotsUp(k: nat)
      requires k < numEntries && TableEnd(numEntries) <= page.Length
      modifies page
      ensures ChangedOnly(old(page[..]), page[..], TableEnd(k + 1), TableEnd(numEntries))
      ensures forall i :: k < i < numEntries ==> Slot(page[..], i) == old(Slot(page[..], i - 1))
    {
      var lo, hi := TableEnd(k + 1), TableEnd(numEntries);
      ghost var p := page[..];
      forall x | lo <= x < hi {
        page[x] := page[x - SLOT];
      }
      forall i | k < i < numEntries ensures Slot(page[..], i) == Slot(p, i - 1) {
        assert page[TableEnd(i)] == p[TableEnd(i - 1)];
        assert page[TableEnd(i) + 1] == p[TableEnd(i - 1) + 1];
      }
    }

    /** btree_truncate_leaf */
    method TruncateLeaf(target: nat)
      requires Valid() && target <= numEntries
      modifies this`numEntries, this`nextEntry, this`cells
      ensures Valid() && numEntries == target && cells == old(cells)[..target]
      ensures View() == old(View())[..target]
      ensures forall i :: 0 <= i < target ==> nextEntry <= cells[i].off
      ensures nextEntry == page.Length || exists i :: 0 <= i < target && nextEntry == cells[i].off
    {
      hide SlotIs;
      var newNextEntry := page.Length;
      var i := 0;
      while i < target
        invariant i <= target
        invariant nextEntry <= newNextEntry <= page.Length
        invariant forall j :: 0 <= j < i ==> newNextEntry <= cells[j].off
        invariant newNextEntry == page.Length || exists j :: 0 <= j < i && newNextEntry == cells[j].off
      {
        var off := OffsetOf(i);
        if off < newNextEntry {
          newNextEntry := off;
        }
        i := i + 1;
      }
      numEntries, nextEntry := target, newNextEntry;
      cells := cells[..target];
    }

    /** btree_reset_node_entries */
    method ResetNodeEntries()
      requires HEADER <= page.Length < 65536
      modifies this`numEntries, this`nextEntry, this`cells
      ensures Valid() && numEntries == 0 && View() == [] && Packed()
    {
      numEntries, nextEntry := 0, page.Length;
      cells := [];
    }

    /** Appending to a packed page the next tuple of a list that fits never fails. */
    method AppendNext(k: nat, t: Tuple, ghost all: seq<Tuple>)
      requires Valid() && Packed() && k == numEntries < |all|
      requires View() == all[..k] && all[k] == t
      requires SpaceSum(all) + HEADER <= page.Length
      modifies page, this`numEntries, this`nextEntry, this`cells
      ensures Valid() && Packed() && numEntries == k + 1
      ensures View() == all[..k + 1]
    {
      hide Layout, CapacitySum;
      AppendFits(all, k, page.Length);
      var success := SetLeafEntry(k, t);
      assert success;
      assert all[..k + 1] == all[..k] + [t];
      CapacitySumTake(all, k + 1);
    }

    /** The copying loop of btree_defragment_leaf and btree_split_leaf_build_right_node: append the entries
        of src from `from` on, except one that the spec replaces, which is marked as removed. */
    method CopyEntries(src: LeafNode, from: nat, spec: IncorporateSpec)
      requires Valid() && numEntries == 0 && Packed()
      requires src.Valid() && src != this && src.page != page && from <= src.numEntries
      requires SpaceSum(Kept(src.View(), from, spec.Removed())) + HEADER <= page.Length
      modifies page, this`numEntries, this`nextEntry, this`cells, spec`state
      ensures Valid() && Packed()
      ensures View() == old(Kept(src.View(), from, spec.Removed()))
      ensures spec.state == if from <= old(spec.Removed()) < src.numEntries then HasBeenRemoved else old(spec.state)
    {
      hide Layout, CapacitySum;
      ghost var es := src.View();
      ghost var removed := spec.Removed();
      ghost var kept := Kept(es, from, removed);
      var dstIdx := 0;
      var i := from;
      while i < src.numEntries
        invariant from <= i <= src.numEntries
        invariant unchanged(src) && unchanged(src.page)
        invariant Valid() && Packed() && dstIdx == numEntries
        invariant dstIdx == KeptIndex(from, removed, i) <= |kept|
        invariant View() == kept[..dstIdx]
        invariant spec.state == if from <= removed < i then HasBeenRemoved else old(spec.state)
      {
        if spec.state.StillExists? && spec.idx == i {
          spec.state := HasBeenRemoved;
        } else {
          var t := src.GetLeafEntry(i);
          KeptAt(es, from, removed, i);
          AppendNext(dstIdx, t, kept);
          dstIdx := dstIdx + 1;
        }
        i := i + 1;
      }
      assert kept[..dstIdx] == kept;
    }

    /** btree_defragment_leaf: rebuild the page without gaps, dropping the entry the spec replaces. */
    method DefragmentLeaf(spec: IncorporateSpec)
      requires Valid()
      modifies page, this`numEntries, this`nextEntry, this`cells, spec`state
      ensures Valid() && Packed()
      ensures View() == old(Kept(View(), 0, spec.Removed()))
      ensures spec.state == if 0 <= old(spec.Removed()) < old(numEntries) then HasBeenRemoved else old(spec.state)
    {
      var scratch := new LeafNode.CopyOf(this);
      LiveFits(page[..], cells, nextEntry);
      KeptIsSmaller(View(), 0, spec.Removed());
      ResetNodeEntries();
      CopyEntries(scratch, 0, spec);
    }

    /** btree_can_perform_leaf_incorporate_spec */
    predicate CanPerform(spec: IncorporateSpec)
      requires Valid() && spec.For(numEntries)
      reads this, page, spec
    {
      CanSetLeafEntry(if spec.state.StillExists? then spec.idx else numEntries, spec.tuple)
    }

    /** btree_try_perform_leaf_incorporate_spec */
    method TryPerform(spec: IncorporateSpec) returns (ok: bool)
      requires Valid() && spec.For(numEntries)
      modifies page, this`numEntries, this`nextEntry, this`cells, this`generation
      ensures Valid()
      ensures ok == old(CanPerform(spec))
      ensures ok ==> View() == Incorporated(old(View()), spec.idx, spec.state, spec.tuple)
      ensures generation == old(generation) + if ok then 1 else 0
      ensures !ok ==> page[..] == old(page[..]) && View() == old(View())
    {
      match spec.state {
        case DidNotExist => ok := InsertLeafEntry(spec.idx, spec.tuple);
        case StillExists => ok := SetLeafEntry(spec.idx, spec.tuple);
        case HasBeenRemoved => ok := InsertLeafEntry(spec.idx, spec.tuple);
      }
      if ok {
        generation := generation + 1;
      }
    }
  }

  lemma RotateAppended(cells: seq<Cell>, es: seq<Tuple>, t: Tuple, k: nat)
    requires Tuples(cells) == es + [t] && k <= |es|
    ensures Tuples(Rotated(cells, k)) == es[..k] + [t] + es[k..]
  {
    var all, r := Tuples(cells), Rotated(cells, k);
    forall i | 0 <= i < |r| ensures r[i].tuple == (es[..k] + [t] + es[k..])[i] {
      assert all[Source(i, k, |cells|)] == cells[Source(i, k, |cells|)].tuple;
    }
  }

  function Kept(es: seq<Tuple>, from: nat, removed: int): seq<Tuple>
    requires from <= |es|
  {
    if from <= removed < |es| then es[from..removed] + es[removed + 1..] else es[from..]
  }

  /** How many entries below i were kept. */
  function KeptIndex(from: nat, removed: int, i: nat): nat
    requires from <= i
  {
    if from <= removed < i then i - from - 1 else i - from
  }

  lemma KeptAt(es: seq<Tuple>, from: nat, removed: int, i: nat)
    requires from <= i < |es| && i != removed
    ensures KeptIndex(from, removed, i) < |Kept(es, from, removed)|
    ensures Kept(es, from, removed)[KeptIndex(from, removed, i)] == es[i]
  {
  }

  lemma KeptIsSmaller(es: seq<Tuple>, from: nat, removed: int)
    requires from <= |es|
    ensures SpaceSum(Kept(es, from, removed)) <= SpaceSum(es)
  {
    CapacitySumSplit(es, from);
    if from <= removed < |es| {
      CapacitySumAt(es, removed);
      CapacitySumSplit(es[..removed], from);
      assert es[..removed][from..] == es[from..removed];
      CapacitySumConcat(es[from..removed], es[removed + 1..]);
    }
  }

  lemma AppendFits(ts: seq<Tuple>, k: nat, pageSize: nat)
    requires SpaceSum(ts) + HEADER <= pageSize && k < |ts|
    ensures TableEnd(k + 1) + Capacity(ts[k]) + CapacitySum(ts[..k]) <= pageSize
  {
    CapacitySumSplit(ts, k + 1);
    CapacitySumTake(ts, k + 1);
  }
}
