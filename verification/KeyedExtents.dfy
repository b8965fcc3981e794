/** Which extents of a keyed mini allocator a key range touches (src/mini_allocator.c). The metadata is the list of
    entries in the order they were appended; an entry ends the extent of the entry before it in its batch. */
module KeyedExtents {
  import opened DataModel
  import opened KeyOrder

  const MINI_MAX_BATCHES := 8

  /** `extent` is None in the entry that closes a batch. */
  datatype Entry = Entry(extent: Option<nat>, batch: nat, startKey: Key)

  datatype Range = Range(start: Key, end: Key)

  predicate Proper(cfg: DataConfig, r: Range) {
    Le(cfg, r.start, r.end)
  }

  // ---------------------------------------------------------- boundary states

  datatype BoundaryState = BeforeStart | InRange | AfterEnd

  function Code(s: BoundaryState): bv2 {
    match s
    case BeforeStart => 1
    case InRange => 0
    case AfterEnd => 2
  }

  predicate IntervalIntersectsRange(left: BoundaryState, right: BoundaryState) {
    Code(left) & Code(right) == 0
  }

  function StateOf(cfg: DataConfig, r: Range, k: Key): BoundaryState {
    if DataKeyCompare(cfg, k, r.start) < 0 then BeforeStart
    else if DataKeyCompare(cfg, k, r.end) <= 0 then InRange
    else AfterEnd
  }

  /** On two keys in order, the test on their states is the test whether [left, right] meets the range. */
  lemma StatesIntersect(cfg: DataConfig, r: Range, left: Key, right: Key)
    requires Proper(cfg, r) && Le(cfg, left, right)
    ensures IntervalIntersectsRange(StateOf(cfg, r, left), StateOf(cfg, r, right))
       <==> Le(cfg, left, r.end) && Le(cfg, r.start, right)
  {
    LeTotal(cfg, left, r.start);
    LeTotal(cfg, right, r.start);
    if Le(cfg, right, r.end) {
      LeTransitive(cfg, left, right, r.end);
    }
    if Le(cfg, r.start, left) {
      LeTransitive(cfg, r.start, left, right);
    }
    if !Le(cfg, r.start, right) {
      LeTotal(cfg, r.start, right);
      LeTransitive(cfg, right, r.start, r.end);
    }
    hide DataKeyCompare;
  }

  /** The same where one side is open. */
  lemma OpenIntersect(cfg: DataConfig, r: Range, k: Key)
    requires Proper(cfg, r)
    ensures IntervalIntersectsRange(BeforeStart, StateOf(cfg, r, k)) <==> Le(cfg, r.start, k)
    ensures IntervalIntersectsRange(StateOf(cfg, r, k), AfterEnd) <==> Le(cfg, k, r.end)
    ensures IntervalIntersectsRange(BeforeStart, AfterEnd) && !IntervalIntersectsRange(BeforeStart, BeforeStart)
  {
    LeTotal(cfg, k, r.start);
    if !Le(cfg, r.start, k) {
      LeTotal(cfg, r.start, k);
      LeTransitive(cfg, k, r.start, r.end);
    }
    hide DataKeyCompare;
  }

  // ---------------------------------------------------------------- intervals

  /** The last entry of a batch before position n. */
  function Last(es: seq<Entry>, n: nat, batch: nat): (p: Option<nat>)
    requires n <= |es|
    ensures p.Some? ==> p.value < n && es[p.value].batch == batch
    ensures p.Some? ==> forall i :: p.value < i < n ==> es[i].batch != batch
    ensures p.None? ==> forall i :: 0 <= i < n ==> es[i].batch != batch
  {
    if n == 0 then None
    else if es[n - 1].batch == batch then Some(n - 1)
    else Last(es, n - 1, batch)
  }

  predicate IsFirst(es: seq<Entry>, i: nat)
    requires i < |es|
  {
    Last(es, i, es[i].batch).None?
  }

  /** The closed interval from entry i to entry j, the next of its batch, meets the range. The first entry of a batch
      starts below every key and its last entry ends above every key, whatever keys they hold. */
  predicate Meets(cfg: DataConfig, es: seq<Entry>, i: nat, j: nat, r: Range)
    requires i < |es| && j < |es|
  {
    (IsFirst(es, i) || Le(cfg, es[i].startKey, r.end)) && (es[j].extent.None? || Le(cfg, r.start, es[j].startKey))
  }

  /** The extent that entry j ends, if the range meets it. */
  ghost function HitAt(cfg: DataConfig, es: seq<Entry>, j: nat, r: Range): set<nat>
    requires j < |es|
  {
    var p := Last(es, j, es[j].batch);
    if p.Some? && es[p.value].extent.Some? && Meets(cfg, es, p.value, j, r) then {es[p.value].extent.value} else {}
  }

  /** The extents ended before position n that the range meets. */
  ghost function Hits(cfg: DataConfig, es: seq<Entry>, n: nat, r: Range): set<nat>
    requires n <= |es|
  {
    if n == 0 then {} else Hits(cfg, es, n - 1, r) + HitAt(cfg, es, n - 1, r)
  }

  /** Metadata as mini_alloc and mini_release leave it: within a batch, keys that do not decrease and one closing
      entry at the end; no extent twice. */
  ghost predicate WellFormed(cfg: DataConfig, es: seq<Entry>, capacity: nat) {
    && (forall i :: 0 <= i < |es| ==> es[i].batch < MINI_MAX_BATCHES)
    && (forall i :: 0 <= i < |es| && es[i].extent.Some? ==> es[i].extent.value < capacity)
    && (forall i, j :: 0 <= i < j < |es| && es[i].extent.Some? ==> es[i].extent != es[j].extent)
    && (forall i, j :: 0 <= i < j < |es| && es[i].batch == es[j].batch ==>
          es[i].extent.Some? && (es[j].extent.Some? ==> Le(cfg, es[i].startKey, es[j].startKey)))
    && (forall i :: 0 <= i < |es| && es[i].extent.Some? ==>
          exists j :: i < j < |es| && es[j].batch == es[i].batch)
  }

  ghost predicate Owns(es: seq<Entry>, x: nat) {
    exists i :: 0 <= i < |es| && es[i].extent == Some(x)
  }

  // ------------------------------------------------------------------ the walk

  /** The state and the extent the walk remembers for a batch when it has read n entries. */
  function WalkExtent(es: seq<Entry>, n: nat, batch: nat): Option<nat>
    requires n <= |es|
  {
    var p := Last(es, n, batch);
    if p.None? then None else es[p.value].extent
  }

  function WalkState(cfg: DataConfig, es: seq<Entry>, n: nat, batch: nat, r: Range): BoundaryState
    requires n <= |es|
  {
    var p := Last(es, n, batch);
    if p.None? then BeforeStart else EntryState(cfg, es, p.value, r)
  }

  function EntryState(cfg: DataConfig, es: seq<Entry>, i: nat, r: Range): BoundaryState
    requires i < |es|
  {
    if IsFirst(es, i) then BeforeStart
    else if es[i].extent.None? then AfterEnd
    else StateOf(cfg, r, es[i].startKey)
  }

  /** The walk's test on two states finds exactly the extents whose interval meets the range. */
  lemma WalkFindsHits(cfg: DataConfig, es: seq<Entry>, capacity: nat, j: nat, r: Range)
    requires WellFormed(cfg, es, capacity) && j < |es| && Proper(cfg, r)
    ensures var b := es[j].batch; var extent := WalkExtent(es, j, b);
      IntervalIntersectsRange(WalkState(cfg, es, j, b, r),
                              if extent.None? then BeforeStart
                              else if es[j].extent.None? then AfterEnd
                              else StateOf(cfg, r, es[j].startKey))
      <==> HitAt(cfg, es, j, r) != {}
    ensures var extent := WalkExtent(es, j, es[j].batch);
      extent.None? <==> IsFirst(es, j)
    ensures HitAt(cfg, es, j, r) != {} ==>
      WalkExtent(es, j, es[j].batch).Some? && HitAt(cfg, es, j, r) == {WalkExtent(es, j, es[j].batch).value}
  {
    hide DataKeyCompare, Le, IntervalIntersectsRange, StateOf, Proper;
    var p := Last(es, j, es[j].batch);
    if p.Some? {
      var i := p.value;
      assert es[i].extent.Some?;
      OpenIntersect(cfg, r, es[i].startKey);
      OpenIntersect(cfg, r, es[j].startKey);
      if es[j].extent.Some? {
        StatesIntersect(cfg, r, es[i].startKey, es[j].startKey);
      }
    } else {
      OpenIntersect(cfg, r, es[j].startKey);
    }
  }

  /** What the walk remembers after entry n. */
  lemma WalkOn(cfg: DataConfig, es: seq<Entry>, n: nat, b: nat, r: Range)
    requires n < |es|
    ensures WalkExtent(es, n + 1, b) == if b == es[n].batch then es[n].extent else WalkExtent(es, n, b)
    ensures WalkState(cfg, es, n + 1, b, r)
         == if b == es[n].batch then EntryState(cfg, es, n, r) else WalkState(cfg, es, n, b, r)
  {
    hide EntryState;
  }

  // ------------------------------------------------------------- what hits are

  /** The next entry of entry i's batch. */
  ghost predicate IsNext(es: seq<Entry>, i: nat, j: nat)
    requires i < |es|
  {
    i < j < |es| && es[j].batch == es[i].batch && forall k :: i < k < j ==> es[k].batch != es[i].batch
  }

  lemma {:induction false} HitsSound(cfg: DataConfig, es: seq<Entry>, n: nat, r: Range, x: nat)
    requires n <= |es| && x in Hits(cfg, es, n, r)
    ensures exists i: nat, j: nat :: i < |es| && j < n && es[i].extent == Some(x) && IsNext(es, i, j)
                           && Meets(cfg, es, i, j, r)
  {
    if x in HitAt(cfg, es, n - 1, r) {
      var p := Last(es, n - 1, es[n - 1].batch);
      assert IsNext(es, p.value, n - 1);
    } else {
      HitsSound(cfg, es, n - 1, r, x);
    }
  }

  lemma {:induction false} HitsComplete(cfg: DataConfig, es: seq<Entry>, n: nat, r: Range, i: nat, j: nat)
    requires n <= |es| && i < |es| && j < n && es[i].extent.Some? && IsNext(es, i, j) && Meets(cfg, es, i, j, r)
    ensures es[i].extent.value in Hits(cfg, es, n, r)
  {
    if j == n - 1 {
      var p := Last(es, j, es[j].batch);
      assert p == Some(i);
    } else {
      HitsComplete(cfg, es, n - 1, r, i, j);
    }
  }

  lemma NextUnique(es: seq<Entry>, i: nat, j: nat, k: nat)
    requires i < |es| && IsNext(es, i, j) && IsNext(es, i, k)
    ensures j == k
  {
  }

  /** An extent is hit exactly when the interval from its entry to the next of its batch meets the range. */
  lemma HitsExactly(cfg: DataConfig, es: seq<Entry>, capacity: nat, r: Range, i: nat, j: nat)
    requires WellFormed(cfg, es, capacity) && i < |es| && es[i].extent.Some? && IsNext(es, i, j)
    ensures es[i].extent.value in Hits(cfg, es, |es|, r) <==> Meets(cfg, es, i, j, r)
  {
    hide Meets;
    var x := es[i].extent.value;
    if Meets(cfg, es, i, j, r) {
      HitsComplete(cfg, es, |es|, r, i, j);
    }
    if x in Hits(cfg, es, |es|, r) {
      HitsSound(cfg, es, |es|, r, x);
      var i': nat, j': nat :| i' < |es| && j' < |es| && es[i'].extent == Some(x) && IsNext(es, i', j')
                    && Meets(cfg, es, i', j', r);
      assert i' == i;
      NextUnique(es, i, j, j');
    }
  }

  lemma {:induction false} NextExists(es: seq<Entry>, i: nat, j: nat) returns (k: nat)
    requires i < j < |es| && es[j].batch == es[i].batch
    ensures IsNext(es, i, k)
    decreases j
  {
    if m :| i < m < j && es[m].batch == es[i].batch {
      k := NextExists(es, i, m);
    } else {
      k := j;
    }
  }

  /** No extent is hit twice. */
  lemma HitOnce(cfg: DataConfig, es: seq<Entry>, capacity: nat, n: nat, r: Range, x: nat)
    requires WellFormed(cfg, es, capacity) && n < |es| && x in HitAt(cfg, es, n, r)
    ensures x !in Hits(cfg, es, n, r) && x < capacity
  {
    var p := Last(es, n, es[n].batch).value;
    assert IsNext(es, p, n);
    if x in Hits(cfg, es, n, r) {
      HitsSound(cfg, es, n, r, x);
      var i: nat, j: nat :| i < |es| && j < n && es[i].extent == Some(x) && IsNext(es, i, j)
                            && Meets(cfg, es, i, j, r);
      OneEnd(cfg, es, capacity, i, j, p, n);
    }
  }

  lemma OneEnd(cfg: DataConfig, es: seq<Entry>, capacity: nat, i: nat, j: nat, p: nat, n: nat)
    requires WellFormed(cfg, es, capacity) && i < |es| && p < |es| && es[i].extent.Some? && es[i].extent == es[p].extent
    requires IsNext(es, i, j) && IsNext(es, p, n)
    ensures j == n
  {
    assert i == p;
    NextUnique(es, i, j, n);
  }

  lemma HitsBounded(cfg: DataConfig, es: seq<Entry>, capacity: nat, r: Range)
    requires WellFormed(cfg, es, capacity)
    ensures forall x :: x in Hits(cfg, es, |es|, r) ==> x < capacity && Owns(es, x)
  {
    forall x | x in Hits(cfg, es, |es|, r) ensures x < capacity && Owns(es, x) {
      HitsSound(cfg, es, |es|, r, x);
    }
  }

  lemma {:induction false} HitsGrow(cfg: DataConfig, es: seq<Entry>, n: nat, m: nat, r: Range)
    requires n <= m <= |es|
    ensures Hits(cfg, es, n, r) <= Hits(cfg, es, m, r)
    decreases m
  {
    if n < m {
      HitsGrow(cfg, es, n, m - 1, r);
    }
  }

  // --------------------------------------------------------- counting ranges

  /** How many of the ranges meet extent x. */
  ghost function Count(cfg: DataConfig, es: seq<Entry>, rs: seq<Range>, x: nat): nat {
    if rs == [] then 0
    else Count(cfg, es, rs[..|rs| - 1], x) + if x in Hits(cfg, es, |es|, rs[|rs| - 1]) then 1 else 0
  }

  ghost function One(cfg: DataConfig, es: seq<Entry>, r: Range, x: nat): nat {
    if x in Hits(cfg, es, |es|, r) then 1 else 0
  }

  lemma CountMore(cfg: DataConfig, es: seq<Entry>, rs: seq<Range>, r: Range, x: nat)
    ensures Count(cfg, es, rs + [r], x) == Count(cfg, es, rs, x) + One(cfg, es, r, x)
  {
    assert (rs + [r])[..|rs|] == rs;
  }

  lemma {:induction false} CountLess(cfg: DataConfig, es: seq<Entry>, rs: seq<Range>, k: nat, x: nat)
    requires k < |rs|
    ensures Count(cfg, es, rs, x) == Count(cfg, es, rs[..k] + rs[k + 1..], x) + One(cfg, es, rs[k], x)
    decreases |rs|
  {
    var n := |rs| - 1;
    var left := rs[..k] + rs[k + 1..];
    if k < n {
      assert left[..|left| - 1] == rs[..n][..k] + rs[..n][k + 1..];
      assert left[|left| - 1] == rs[n] && rs[..n][k] == rs[k];
      CountLess(cfg, es, rs[..n], k, x);
    } else {
      assert left == rs[..n];
    }
  }

  lemma {:induction false} CountUpdate(cfg: DataConfig, es: seq<Entry>, rs: seq<Range>, k: nat, r: Range, x: nat)
    requires k < |rs|
    ensures Count(cfg, es, rs[k := r], x) + One(cfg, es, rs[k], x) == Count(cfg, es, rs, x) + One(cfg, es, r, x)
    decreases |rs|
  {
    var n := |rs| - 1;
    if k < n {
      assert rs[k := r][..n] == rs[..n][k := r];
      CountUpdate(cfg, es, rs[..n], k, r, x);
    } else {
      assert rs[k := r][..n] == rs[..n];
    }
  }

  lemma {:induction false} CountBounded(cfg: DataConfig, es: seq<Entry>, rs: seq<Range>, x: nat)
    ensures Count(cfg, es, rs, x) <= |rs|
    decreases |rs|
  {
    if rs != [] {
      CountBounded(cfg, es, rs[..|rs| - 1], x);
    }
  }

  lemma {:induction false} CountPositive(cfg: DataConfig, es: seq<Entry>, rs: seq<Range>, k: nat, x: nat)
    requires k < |rs| && x in Hits(cfg, es, |es|, rs[k])
    ensures Count(cfg, es, rs, x) > 0
  {
    CountLess(cfg, es, rs, k, x);
  }

  lemma {:induction false} CountZero(cfg: DataConfig, es: seq<Entry>, rs: seq<Range>, x: nat)
    ensures Count(cfg, es, rs, x) == 0 <==> forall r :: r in rs ==> x !in Hits(cfg, es, |es|, r)
    decreases |rs|
  {
    if rs != [] {
      hide Hits;
      var n := |rs| - 1;
      CountZero(cfg, es, rs[..n], x);
      assert forall r :: r in rs[..n] ==> r in rs;
      assert rs[n] in rs;
      forall r | r in rs ensures r in rs[..n] || r == rs[n] {
        var k :| 0 <= k < |rs| && rs[k] == r;
        assert k < n ==> rs[..n][k] == r;
      }
    }
  }

  // ------------------------------------------------------ ranges and their parts

  /** A range inside another meets no more extents. */
  lemma HitsInside(cfg: DataConfig, es: seq<Entry>, capacity: nat, inner: Range, outer: Range)
    requires WellFormed(cfg, es, capacity)
    requires Le(cfg, outer.start, inner.start) && Le(cfg, inner.end, outer.end)
    ensures Hits(cfg, es, |es|, inner) <= Hits(cfg, es, |es|, outer)
  {
    hide DataKeyCompare, WellFormed, Hits;
    forall x | x in Hits(cfg, es, |es|, inner) ensures x in Hits(cfg, es, |es|, outer) {
      HitsSound(cfg, es, |es|, inner, x);
      var i: nat, j: nat :| i < |es| && j < |es| && es[i].extent == Some(x) && IsNext(es, i, j)
                  && Meets(cfg, es, i, j, inner);
      MeetsMore(cfg, es, i, j, inner, outer);
      HitsComplete(cfg, es, |es|, outer, i, j);
    }
  }

  lemma MeetsMore(cfg: DataConfig, es: seq<Entry>, i: nat, j: nat, inner: Range, outer: Range)
    requires i < |es| && j < |es| && Meets(cfg, es, i, j, inner)
    requires Le(cfg, outer.start, inner.start) && Le(cfg, inner.end, outer.end)
    ensures Meets(cfg, es, i, j, outer)
  {
  }

  lemma MeetsCut(cfg: DataConfig, es: seq<Entry>, capacity: nat, i: nat, j: nat, r: Range, cut: Key)
    requires WellFormed(cfg, es, capacity) && i < |es| && IsNext(es, i, j)
    requires Le(cfg, r.start, cut) && Le(cfg, cut, r.end)
    ensures Meets(cfg, es, i, j, r)
         == (Meets(cfg, es, i, j, Range(r.start, cut)) || Meets(cfg, es, i, j, Range(cut, r.end)))
    ensures Meets(cfg, es, i, j, Range(cut, cut))
         == (Meets(cfg, es, i, j, Range(r.start, cut)) && Meets(cfg, es, i, j, Range(cut, r.end)))
  {
    var a, b := es[i].startKey, es[j].startKey;
    var first, last := IsFirst(es, i), es[j].extent.None?;
    assert first || last || Le(cfg, a, b);
    hide WellFormed, IsFirst;
    LeTotal(cfg, a, cut);
    LeTotal(cfg, b, cut);
  }

  /** Cutting a range at a key: one more reference on the extents at the key pays for the two parts. */
  lemma CutCounts(cfg: DataConfig, es: seq<Entry>, capacity: nat, r: Range, cut: Key, x: nat)
    requires WellFormed(cfg, es, capacity) && Le(cfg, r.start, cut) && Le(cfg, cut, r.end)
    ensures One(cfg, es, r, x) + One(cfg, es, Range(cut, cut), x)
         == One(cfg, es, Range(r.start, cut), x) + One(cfg, es, Range(cut, r.end), x)
  {
    hide DataKeyCompare, Hits, Meets;
    if Owns(es, x) {
      var i :| 0 <= i < |es| && es[i].extent == Some(x);
      var later :| i < later < |es| && es[later].batch == es[i].batch;
      var j := NextExists(es, i, later);
      MeetsCut(cfg, es, capacity, i, j, r, cut);
      HitsExactly(cfg, es, capacity, r, i, j);
      HitsExactly(cfg, es, capacity, Range(cut, cut), i, j);
      HitsExactly(cfg, es, capacity, Range(r.start, cut), i, j);
      HitsExactly(cfg, es, capacity, Range(cut, r.end), i, j);
    } else {
      HitsAreOwned(cfg, es, r, x);
      HitsAreOwned(cfg, es, Range(cut, cut), x);
      HitsAreOwned(cfg, es, Range(r.start, cut), x);
      HitsAreOwned(cfg, es, Range(cut, r.end), x);
    }
  }

  lemma HitsAreOwned(cfg: DataConfig, es: seq<Entry>, r: Range, x: nat)
    ensures x in Hits(cfg, es, |es|, r) ==> Owns(es, x)
  {
    if x in Hits(cfg, es, |es|, r) {
      HitsSound(cfg, es, |es|, r, x);
    }
  }

  // ----------------------------------------------- extents that every range meets

  ghost predicate MetByAll(cfg: DataConfig, es: seq<Entry>, x: nat) {
    forall r :: Proper(cfg, r) ==> x in Hits(cfg, es, |es|, r)
  }

  /** Every range meets an extent that the ranges at the two ends of the order meet. */
  lemma EndsSuffice(cfg: DataConfig, es: seq<Entry>, capacity: nat, x: nat)
    requires WellFormed(cfg, es, capacity)
    ensures MetByAll(cfg, es, x) <==> (x in Hits(cfg, es, |es|, Range(NegativeInfinity, NegativeInfinity))
                                       && x in Hits(cfg, es, |es|, Range(PositiveInfinity, PositiveInfinity)))
  {
    hide Hits, WellFormed, Meets;
    var low, high := Range(NegativeInfinity, NegativeInfinity), Range(PositiveInfinity, PositiveInfinity);
    assert Proper(cfg, low) && Proper(cfg, high);
    if x in Hits(cfg, es, |es|, low) && x in Hits(cfg, es, |es|, high) {
      HitsSound(cfg, es, |es|, low, x);
      var i: nat, j: nat :| i < |es| && j < |es| && es[i].extent == Some(x) && IsNext(es, i, j)
                            && Meets(cfg, es, i, j, low);
      HitsExactly(cfg, es, capacity, high, i, j);
      forall r | Proper(cfg, r) ensures x in Hits(cfg, es, |es|, r) {
        MeetsBetween(cfg, es, i, j, r);
        HitsComplete(cfg, es, |es|, r, i, j);
      }
    }
  }

  lemma MeetsBetween(cfg: DataConfig, es: seq<Entry>, i: nat, j: nat, r: Range)
    requires i < |es| && j < |es| && Meets(cfg, es, i, j, Range(NegativeInfinity, NegativeInfinity))
    requires Meets(cfg, es, i, j, Range(PositiveInfinity, PositiveInfinity))
    ensures Meets(cfg, es, i, j, r)
  {
  }

  lemma {:induction false} MetCount(cfg: DataConfig, es: seq<Entry>, rs: seq<Range>, x: nat)
    requires MetByAll(cfg, es, x) && forall r :: r in rs ==> Proper(cfg, r)
    ensures Count(cfg, es, rs, x) == |rs|
    decreases |rs|
  {
    if rs != [] {
      assert rs[|rs| - 1] in rs;
      MetCount(cfg, es, rs[..|rs| - 1], x);
    }
  }
}
