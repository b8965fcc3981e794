/** The byte layout of a B-tree leaf (src/btree.c, src/btree_private.h).

      0        37                     nextEntry            page size
      | header | offsets table -->    |    <-- entries      |

    Table slot i is the 16-bit number at byte 37 + 2*i.  An entry starts with a 6-byte header
    (key length, key flags, message length, message flags) followed by the key and the message. */
module LeafPage {
  import opened DataModel

  const HEADER: nat := 37       // sizeof(btree_hdr)
  const SLOT: nat := 2          // sizeof(table_entry)
  const ENTRY_HEADER: nat := 6  // sizeof(leaf_entry)

  // ---------------------------------------------------------------- bytes

  function U16(p: Bytes, at: nat): nat
    requires at + 2 <= |p|
  {
    (p[at] as int) + 256 * (p[at + 1] as int)
  }

  /** q is p with only bytes lo..hi possibly changed. */
  ghost predicate ChangedOnly(p: Bytes, q: Bytes, lo: nat, hi: nat) {
    |q| == |p| && forall i :: 0 <= i < |p| && !(lo <= i < hi) ==> q[i] == p[i]
  }

  // -------------------------------------------------------------- entries

  function FlagOf(k: MessageKind): Byte {
    match k case Invalid => 0 case Insert => 1 case Update => 2 case Delete => 3
  }

  function KindOf(flags: Byte): MessageKind {
    var t := flags % 4;
    if t == 0 then Invalid else if t == 1 then Insert else if t == 2 then Update else Delete
  }

  /** leaf_entry_required_capacity */
  function Capacity(t: Tuple): nat {
    ENTRY_HEADER + |t.key| + |t.msg.data|
  }

  /** sizeof_leaf_entry of the entry at byte `off`. */
  function SizeAt(p: Bytes, off: nat): nat
    requires off + ENTRY_HEADER <= |p|
  {
    ENTRY_HEADER + U16(p, off) + U16(p, off + 3)
  }

  predicate EntryInside(p: Bytes, off: nat) {
    off + ENTRY_HEADER <= |p| && off + SizeAt(p, off) <= |p|
  }

  function TupleAt(p: Bytes, off: nat): Tuple
    requires EntryInside(p, off)
  {
    var k := off + ENTRY_HEADER;
    var m := k + U16(p, off);
    Tuple(p[k..m], Message(KindOf(p[off + 5]), p[m..m + U16(p, off + 3)]))
  }

  /** q is p after tuple t was written as an entry at byte off. */
  ghost predicate Filled(p: Bytes, q: Bytes, off: nat, t: Tuple) {
    && ChangedOnly(p, q, off, off + Capacity(t))
    && EntryInside(q, off) && SizeAt(q, off) == Capacity(t) && TupleAt(q, off) == t
  }

  lemma EntryDecodes(q: Bytes, off: nat, t: Tuple)
    requires off + Capacity(t) <= |q|
    requires U16(q, off) == |t.key| && U16(q, off + 3) == |t.msg.data| && q[off + 5] == FlagOf(t.msg.kind)
    requires var k := off + ENTRY_HEADER; q[k..k + |t.key|] == t.key
    requires var m := off + ENTRY_HEADER + |t.key|; q[m..m + |t.msg.data|] == t.msg.data
    ensures EntryInside(q, off) && SizeAt(q, off) == Capacity(t) && TupleAt(q, off) == t
  {
  }

  // ---------------------------------------------------------------- pages

  function TableEnd(n: nat): nat { HEADER + SLOT * n }

  function Slot(p: Bytes, i: nat): nat
    requires TableEnd(i + 1) <= |p|
  {
    U16(p, TableEnd(i))
  }

  /** An entry: where it starts and what it holds. */
  datatype Cell = Cell(off: nat, tuple: Tuple) {
    function End(): nat { off + Capacity(tuple) }
  }

  /** Slot i of page p points at cell c, and its bytes decode to the cell's tuple. */
  ghost predicate SlotIs(p: Bytes, i: nat, c: Cell) {
    && TableEnd(i + 1) <= |p| && Slot(p, i) == c.off
    && EntryInside(p, c.off) && SizeAt(p, c.off) == Capacity(c.tuple) && TupleAt(p, c.off) == c.tuple
  }

  ghost predicate Apart(a: Cell, b: Cell) {
    a.End() <= b.off || b.End() <= a.off
  }

  /** The slots of page p point at `cells`: the table ends before the entries begin, every entry lies inside
      the page, and no two overlap. */
  ghost predicate Layout(p: Bytes, cells: seq<Cell>, next: nat) {
    && TableEnd(|cells|) <= next <= |p| < 65536
    && (forall i :: 0 <= i < |cells| ==> SlotIs(p, i, cells[i]))
    && (forall i :: 0 <= i < |cells| ==> next <= cells[i].off && cells[i].End() <= |p|)
    && (forall i, j :: 0 <= i < j < |cells| ==> Apart(cells[i], cells[j]))
  }

  /** A slot and an entry depend only on their own bytes. */
  lemma KeepSlot(p: Bytes, q: Bytes, i: nat, c: Cell)
    requires SlotIs(p, i, c) && |q| == |p|
    requires forall x :: TableEnd(i) <= x < TableEnd(i + 1) ==> q[x] == p[x]
    requires forall x :: c.off <= x < c.End() ==> q[x] == p[x]
    ensures SlotIs(q, i, c)
  {
    assert q[TableEnd(i)] == p[TableEnd(i)] && q[TableEnd(i) + 1] == p[TableEnd(i) + 1];
    var k := c.off + ENTRY_HEADER;
    var m := k + U16(p, c.off);
    assert q[c.off..c.off + 6] == p[c.off..c.off + 6];
    assert q[k..m] == p[k..m];
    assert q[m..c.End()] == p[m..c.End()];
  }

  /** Overwriting entry k in place with a tuple that needs no more room. */
  lemma FillInPlace(p: Bytes, q: Bytes, cells: seq<Cell>, next: nat, k: nat, t: Tuple)
    requires Layout(p, cells, next) && k < |cells|
    requires Capacity(t) <= Capacity(cells[k].tuple)
    requires Filled(p, q, cells[k].off, t)
    ensures Layout(q, cells[k := Cell(cells[k].off, t)], next)
  {
    hide SlotIs;
    var cells' := cells[k := Cell(cells[k].off, t)];
    forall i | 0 <= i < |cells| ensures SlotIs(q, i, cells'[i]) {
      if i == k {
        SlotAfterFill(p, q, k, cells[k], t);
      } else {
        assert Apart(cells[if i < k then i else k], cells[if i < k then k else i]);
        KeepSlot(p, q, i, cells[i]);
      }
    }
    forall i, j | 0 <= i < j < |cells| ensures Apart(cells'[i], cells'[j]) {
      assert Apart(cells[i], cells[j]);
    }
  }

  lemma SlotAfterFill(p: Bytes, q: Bytes, k: nat, c: Cell, t: Tuple)
    requires SlotIs(p, k, c) && TableEnd(k + 1) <= c.off && Filled(p, q, c.off, t)
    ensures SlotIs(q, k, Cell(c.off, t))
  {
    assert q[TableEnd(k)] == p[TableEnd(k)] && q[TableEnd(k) + 1] == p[TableEnd(k) + 1];
  }

  /** Storing a tuple at the low end of the entries, then pointing slot k (an old one, or the next) at it. */
  lemma FillInGap(p: Bytes, f: Bytes, q: Bytes, cells: seq<Cell>, next: nat, k: nat, t: Tuple)
    requires Layout(p, cells, next) && k <= |cells|
    requires TableEnd(if k < |cells| then |cells| else k + 1) + Capacity(t) <= next
    requires Filled(p, f, next - Capacity(t), t)
    requires ChangedOnly(f, q, TableEnd(k), TableEnd(k + 1)) && Slot(q, k) == next - Capacity(t)
    ensures var c := Cell(next - Capacity(t), t);
            Layout(q, if k < |cells| then cells[k := c] else cells + [c], next - Capacity(t))
  {
    hide SlotIs;
    var c := Cell(next - Capacity(t), t);
    var cells' := if k < |cells| then cells[k := c] else cells + [c];
    NewSlot(f, q, k, c);
    forall i | 0 <= i < |cells'| ensures SlotIs(q, i, cells'[i]) {
      if i != k {
        KeepSlot(p, q, i, cells[i]);
      }
    }
    forall i, j | 0 <= i < j < |cells'| ensures Apart(cells'[i], cells'[j]) {
      if i != k && j != k {
        assert Apart(cells[i], cells[j]);
      }
    }
  }

  lemma NewSlot(f: Bytes, q: Bytes, k: nat, c: Cell)
    requires TableEnd(k + 1) <= c.off <= |q| == |f| && Slot(q, k) == c.off
    requires EntryInside(f, c.off) && SizeAt(f, c.off) == Capacity(c.tuple) && TupleAt(f, c.off) == c.tuple
    requires ChangedOnly(f, q, TableEnd(k), TableEnd(k + 1))
    ensures SlotIs(q, k, c)
  {
    var n := c.off + ENTRY_HEADER;
    var m := n + U16(f, c.off);
    assert q[c.off..c.off + 6] == f[c.off..c.off + 6];
    assert q[n..m] == f[n..m];
    assert q[m..c.End()] == f[m..c.End()];
  }

  /** Where entry i was before the last slot was moved down to k. */
  function Source(i: nat, k: nat, n: nat): nat
    requires k < n && i < n
  {
    if i < k then i else if i == k then n - 1 else i - 1
  }

  /** Moving the last slot down to k and slots k.. up by one permutes the cells accordingly. */
  lemma RotateSlots(p: Bytes, q: Bytes, cells: seq<Cell>, next: nat, k: nat)
    requires Layout(p, cells, next) && k < |cells|
    requires ChangedOnly(p, q, TableEnd(k), TableEnd(|cells|))
    requires Slot(q, k) == Slot(p, |cells| - 1)
    requires forall i :: k < i < |cells| ==> Slot(q, i) == Slot(p, i - 1)
    ensures Layout(q, Rotated(cells, k), next)
  {
    hide SlotIs, Slot;
    var n := |cells|;
    forall i | 0 <= i < n ensures SlotIs(q, i, Rotated(cells, k)[i]) {
      var s := Source(i, k, n);
      if i < k {
        KeepSlot(p, q, i, cells[i]);
      } else {
        RotateSlot(p, q, i, s, cells[s]);
      }
    }
    forall i, j | 0 <= i < j < n ensures Apart(Rotated(cells, k)[i], Rotated(cells, k)[j]) {
      var a, b := Source(i, k, n), Source(j, k, n);
      assert Apart(cells[if a < b then a else b], cells[if a < b then b else a]);
    }
  }

  function Rotated(cells: seq<Cell>, k: nat): (r: seq<Cell>)
    requires k < |cells|
    ensures |r| == |cells| && forall i :: 0 <= i < |r| ==> r[i] == cells[Source(i, k, |cells|)]
  {
    cells[..k] + [cells[|cells| - 1]] + cells[k..|cells| - 1]
  }

  lemma RotateSlot(p: Bytes, q: Bytes, i: nat, s: nat, c: Cell)
    requires SlotIs(p, s, c) && |q| == |p| && TableEnd(i + 1) <= |q|
    requires Slot(q, i) == Slot(p, s)
    requires forall x :: c.off <= x < c.End() ==> q[x] == p[x]
    ensures SlotIs(q, i, c)
  {
    var k := c.off + ENTRY_HEADER;
    var m := k + U16(p, c.off);
    assert q[c.off..c.off + 6] == p[c.off..c.off + 6];
    assert q[k..m] == p[k..m];
    assert q[m..c.End()] == p[m..c.End()];
  }
}
