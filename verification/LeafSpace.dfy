/** Space accounting for a leaf: entries that do not overlap cannot need more room than the page has, and
    a page that is filled from its end downwards wastes none. */
module LeafSpace {
  import opened DataModel
  import opened LeafPage

  /** Bytes of entries. */
  function CapacitySum(ts: seq<Tuple>): nat {
    if |ts| == 0 then 0 else CapacitySum(ts[..|ts| - 1]) + Capacity(ts[|ts| - 1])
  }

  /** Bytes of entries and of their table slots. */
  function SpaceSum(ts: seq<Tuple>): nat {
    CapacitySum(ts) + SLOT * |ts|
  }

  lemma {:induction false} CapacitySumConcat(a: seq<Tuple>, b: seq<Tuple>)
    ensures CapacitySum(a + b) == CapacitySum(a) + CapacitySum(b)
  {
    if |b| == 0 {
      assert a + b == a;
    } else {
      var init := b[..|b| - 1];
      assert (a + b)[..|a + b| - 1] == a + init;
      CapacitySumConcat(a, init);
    }
  }

  lemma CapacitySumSplit(ts: seq<Tuple>, k: nat)
    requires k <= |ts|
    ensures CapacitySum(ts) == CapacitySum(ts[..k]) + CapacitySum(ts[k..])
  {
    assert ts == ts[..k] + ts[k..];
    CapacitySumConcat(ts[..k], ts[k..]);
  }

  lemma CapacitySumSingle(t: Tuple)
    ensures CapacitySum([t]) == Capacity(t)
  {
    assert [t][..0] == [];
  }

  ghost function Interval(a: nat, b: nat): (s: set<int>)
    requires a <= b
    ensures forall x :: x in s <==> a <= x < b
    ensures |s| == b - a
    decreases b
  {
    if a < b then Interval(a, b - 1) + {b - 1} else {}
  }

  /** Spans [offs[i], offs[i] + sizes[i]) that lie in [lo, hi) and do not overlap. */
  ghost predicate DisjointSpans(offs: seq<nat>, sizes: seq<nat>, lo: nat, hi: nat) {
    && |offs| == |sizes|
    && (forall i :: 0 <= i < |offs| ==> lo <= offs[i] && offs[i] + sizes[i] <= hi)
    && (forall i, j :: 0 <= i < j < |offs| ==> offs[i] + sizes[i] <= offs[j] || offs[j] + sizes[j] <= offs[i])
  }

  function Sum(s: seq<nat>): nat {
    if |s| == 0 then 0 else Sum(s[..|s| - 1]) + s[|s| - 1]
  }

  ghost predicate Covered(offs: seq<nat>, sizes: seq<nat>, x: int)
    requires |offs| == |sizes|
  {
    exists i :: 0 <= i < |offs| && offs[i] <= x < offs[i] + sizes[i]
  }

  /** The positions covered by disjoint spans, as many as the sizes add up to. */
  lemma {:induction false} SpanCells(offs: seq<nat>, sizes: seq<nat>, lo: nat, hi: nat) returns (cells: set<int>)
    requires lo <= hi && DisjointSpans(offs, sizes, lo, hi)
    ensures |cells| == Sum(sizes)
    ensures forall x :: x in cells ==> lo <= x < hi && Covered(offs, sizes, x)
    decreases |offs|
  {
    if |offs| == 0 {
      cells := {};
    } else {
      var n := |offs| - 1;
      var below := SpanCells(offs[..n], sizes[..n], lo, hi);
      var last := Interval(offs[n], offs[n] + sizes[n]);
      forall x | x in below ensures x !in last && Covered(offs, sizes, x) {
        CoveredBelow(offs, sizes, lo, hi, n, x);
      }
      cells := below + last;
      assert below * last == {};
      forall x | x in last ensures Covered(offs, sizes, x) {
        assert offs[n] <= x < offs[n] + sizes[n];
      }
    }
  }

  lemma CoveredBelow(offs: seq<nat>, sizes: seq<nat>, lo: nat, hi: nat, n: nat, x: int)
    requires DisjointSpans(offs, sizes, lo, hi) && n < |offs| && Covered(offs[..n], sizes[..n], x)
    ensures Covered(offs, sizes, x) && !(offs[n] <= x < offs[n] + sizes[n])
  {
    var i :| 0 <= i < n && offs[..n][i] <= x < offs[..n][i] + sizes[..n][i];
    assert offs[i] <= x < offs[i] + sizes[i];
  }

  lemma SpansFit(offs: seq<nat>, sizes: seq<nat>, lo: nat, hi: nat)
    requires lo <= hi && DisjointSpans(offs, sizes, lo, hi)
    ensures Sum(sizes) <= hi - lo
  {
    var cells := SpanCells(offs, sizes, lo, hi);
    var all := Interval(lo, hi);
    assert all == cells + (all - cells);
  }

  lemma {:induction false} SumOfCapacities(ts: seq<Tuple>, sizes: seq<nat>)
    requires |ts| == |sizes| && forall i :: 0 <= i < |ts| ==> sizes[i] == Capacity(ts[i])
    ensures CapacitySum(ts) == Sum(sizes)
  {
    if |ts| > 0 {
      SumOfCapacities(ts[..|ts| - 1], sizes[..|ts| - 1]);
    }
  }

  function Tuples(cells: seq<Cell>): (ts: seq<Tuple>)
    ensures |ts| == |cells|
  {
    seq(|cells|, i requires 0 <= i < |cells| => cells[i].tuple)
  }

  /** Live entries and their slots never exceed the page. */
  lemma LiveFits(p: Bytes, cells: seq<Cell>, next: nat)
    requires Layout(p, cells, next)
    ensures CapacitySum(Tuples(cells)) <= |p| - next
    ensures SpaceSum(Tuples(cells)) <= |p| - HEADER
  {
    hide SlotIs, CapacitySum;
    var n := |cells|;
    var offs := seq(n, i requires 0 <= i < n => cells[i].off);
    var sizes := seq(n, i requires 0 <= i < n => Capacity(cells[i].tuple));
    forall i, j | 0 <= i < j < n ensures offs[i] + sizes[i] <= offs[j] || offs[j] + sizes[j] <= offs[i] {
      assert Apart(cells[i], cells[j]);
    }
    SpansFit(offs, sizes, next, |p|);
    SumOfCapacities(Tuples(cells), sizes);
  }

  lemma CapacitySumAt(es: seq<Tuple>, i: nat)
    requires i < |es|
    ensures CapacitySum(es) == CapacitySum(es[..i]) + Capacity(es[i]) + CapacitySum(es[i + 1..])
  {
    CapacitySumSplit(es, i + 1);
    CapacitySumTake(es, i + 1);
  }

  lemma CapacitySumTake(ts: seq<Tuple>, k: nat)
    requires 0 < k <= |ts|
    ensures CapacitySum(ts[..k]) == CapacitySum(ts[..k - 1]) + Capacity(ts[k - 1])
  {
    assert ts[..k][..k - 1] == ts[..k - 1];
  }

  /** Entry sizes are at least the entry header, so slots take at most a third of the entry bytes. */
  lemma {:induction false} SlotsAreSmall(ts: seq<Tuple>)
    ensures CapacitySum(ts) >= ENTRY_HEADER * |ts|
  {
    if |ts| > 0 {
      SlotsAreSmall(ts[..|ts| - 1]);
    }
  }

  // ------------------------------------------------------------ splitting

  /** most_of_entry_is_on_left_side, on sizes that already include the slot */
  predicate MostlyLeft(total: nat, left: nat, size: nat) {
    left + size < (total + size) / 2
  }

  /** How many entries of `ts` go left, scanning from `i` with `left` bytes already there. */
  function GreedySplit(ts: seq<Tuple>, total: nat, left: nat, i: nat): (m: nat)
    requires i <= |ts|
    ensures i <= m <= |ts|
    decreases |ts| - i
  {
    if i < |ts| && MostlyLeft(total, left, SLOT + Capacity(ts[i]))
    then GreedySplit(ts, total, left + SLOT + Capacity(ts[i]), i + 1)
    else i
  }

  /** Every entry obeys the bound that btree_config_init asserts for the largest legal tuple. */
  ghost predicate EntriesBounded(ts: seq<Tuple>, space: nat) {
    forall i :: 0 <= i < |ts| ==> SLOT + Capacity(ts[i]) < space / 2
  }

  /** The scan stops where the halves are as even as the entries allow. */
  lemma {:induction false} GreedyStops(ts: seq<Tuple>, i: nat, m: nat)
    requires i <= |ts| && m == GreedySplit(ts, SpaceSum(ts), SpaceSum(ts[..i]), i)
    ensures m > i ==> 2 * SpaceSum(ts[..m]) + 2 <= SpaceSum(ts) + SLOT + Capacity(ts[m - 1])
    ensures m < |ts| ==> 2 * SpaceSum(ts[..m]) + SLOT + Capacity(ts[m]) + 1 >= SpaceSum(ts)
    decreases |ts| - i
  {
    if i < |ts| && MostlyLeft(SpaceSum(ts), SpaceSum(ts[..i]), SLOT + Capacity(ts[i])) {
      assert ts[..i + 1][..i] == ts[..i];
      GreedyStops(ts, i + 1, m);
    }
  }

  /** Splitting at the chosen point leaves two halves that both fit in a page. */
  lemma SplitFits(ts: seq<Tuple>, m: nat, newTuple: Tuple, space: nat)
    requires m == GreedySplit(ts, SpaceSum(ts), 0, 0)
    requires SpaceSum(ts) <= space + SLOT + Capacity(newTuple)
    requires EntriesBounded(ts, space) && SLOT + Capacity(newTuple) < space / 2
    ensures SpaceSum(ts[..m]) <= space && SpaceSum(ts[m..]) <= space
  {
    assert ts[..0] == [];
    GreedyStops(ts, 0, m);
    CapacitySumSplit(ts, m);
  }

  /** Neither half is empty once there are two entries to share out. */
  lemma SplitProper(ts: seq<Tuple>, m: nat)
    requires m == GreedySplit(ts, SpaceSum(ts), 0, 0) && |ts| >= 2
    ensures 0 < m < |ts|
  {
    assert ts[..0] == [];
    GreedyStops(ts, 0, m);
    EvenPointIsProper(ts, m);
  }

  lemma EvenPointIsProper(ts: seq<Tuple>, m: nat)
    requires m <= |ts| && |ts| >= 2
    requires m > 0 ==> 2 * SpaceSum(ts[..m]) + 2 <= SpaceSum(ts) + SLOT + Capacity(ts[m - 1])
    requires m < |ts| ==> 2 * SpaceSum(ts[..m]) + SLOT + Capacity(ts[m]) + 1 >= SpaceSum(ts)
    ensures 0 < m < |ts|
  {
    EndsAreSmall(ts);
    if m == |ts| {
      assert ts[..m] == ts;
    }
  }

  lemma EndsAreSmall(ts: seq<Tuple>)
    requires |ts| >= 2
    ensures SpaceSum(ts) >= SLOT + Capacity(ts[0]) + 2
    ensures SpaceSum(ts) >= SLOT + Capacity(ts[|ts| - 1]) + 2
  {
    CapacitySumSplit(ts, 1);
    assert ts[..1] == [ts[0]];
    CapacitySumSingle(ts[0]);
  }
}
