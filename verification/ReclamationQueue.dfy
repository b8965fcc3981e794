/** The space reclamation queue: a max-heap whose entries are found again through handles (src/srq.h). */
module ReclamationQueue {

  const SRQ_INDEX_AVAILABLE := -1

  datatype SrqData = SrqData(addr: nat, pivotGeneration: nat, priority: nat, idx: int)

  function Parent(pos: nat): nat
    requires pos > 0
  {
    (pos - 1) / 2
  }

  function LChild(pos: nat): nat { 2 * pos + 1 }
  function RChild(pos: nat): nat { 2 * pos + 2 }

  /** Handles and positions are inverse to each other, but for a handle about to be given up. */
  ghost predicate Inverse(heap: seq<SrqData>, index: seq<int>, n: nat, stale: int) {
    && n <= |heap| == |index|
    && (forall p :: 0 <= p < n ==> 0 <= heap[p].idx < |index| && heap[p].idx != stale && index[heap[p].idx] == p)
    && (forall k :: 0 <= k < |index| && k != stale && index[k] != SRQ_INDEX_AVAILABLE ==>
          0 <= index[k] < n && heap[index[k]].idx == k)
  }

  const NOT_STALE := -1

  ghost predicate Below(heap: seq<SrqData>, p: nat)
    requires 0 < p < |heap|
  {
    heap[p].priority <= heap[Parent(p)].priority
  }

  ghost predicate Ordered(heap: seq<SrqData>, n: nat)
    requires n <= |heap|
  {
    forall p :: 0 < p < n ==> Below(heap, p)
  }

  /** The children of pos are no larger than its parent. */
  ghost predicate Bridged(heap: seq<SrqData>, n: nat, pos: nat)
    requires n <= |heap| && pos < |heap|
  {
    forall p :: 0 < p < n && Parent(p) == pos && pos > 0 ==> heap[p].priority <= heap[Parent(pos)].priority
  }

  /** In order but for pos and its parent, and pos and its children too while it is still where it started. */
  ghost predicate Rising(heap: seq<SrqData>, n: nat, pos: nat, start: nat)
    requires n <= |heap| && pos < |heap|
  {
    && (forall p :: 0 < p < n && p != pos && (Parent(p) != pos || pos != start) ==> Below(heap, p))
    && Bridged(heap, n, pos)
  }

  /** In order but for pos and its children. */
  ghost predicate Sinking(heap: seq<SrqData>, n: nat, pos: nat)
    requires n <= |heap| && pos < |heap|
  {
    && (forall p :: 0 < p < n && Parent(p) != pos ==> Below(heap, p))
    && Bridged(heap, n, pos)
  }

  /** What is queued, by handle. */
  ghost function EntriesOf(heap: seq<SrqData>, index: seq<int>, stale: int): map<int, SrqData> {
    map k | 0 <= k < |index| && k != stale && 0 <= index[k] < |heap| :: heap[index[k]]
  }

  lemma ParentOf(p: nat)
    requires p > 0
    ensures Parent(p) < p && (p == LChild(Parent(p)) || p == RChild(Parent(p)))
    ensures Parent(LChild(p)) == p && Parent(RChild(p)) == p
  {
  }

  /** The root of a heap is a maximum. */
  lemma {:induction false} RootIsMax(heap: seq<SrqData>, n: nat, p: nat)
    requires n <= |heap| && Ordered(heap, n) && p < n
    ensures heap[p].priority <= heap[0].priority
  {
    if p > 0 {
      ParentOf(p);
      assert Below(heap, p);
      RootIsMax(heap, n, Parent(p));
    }
  }

  /** Not all handles are taken while the heap is not full. */
  lemma SomeAvailable(heap: seq<SrqData>, index: seq<int>, n: nat)
    requires Inverse(heap, index, n, NOT_STALE) && n < |index|
    ensures exists k :: 0 <= k < |index| && index[k] == SRQ_INDEX_AVAILABLE
  {
    if forall k :: 0 <= k < |index| ==> index[k] != SRQ_INDEX_AVAILABLE {
      forall j, k | 0 <= j < k < |index| ensures index[j] != index[k] {
        assert heap[index[j]].idx == j && heap[index[k]].idx == k;
      }
      Pigeonhole(index, n);
    }
  }

  lemma {:induction false} Pigeonhole(xs: seq<int>, n: nat)
    requires forall k :: 0 <= k < |xs| ==> 0 <= xs[k] < n
    requires forall j, k :: 0 <= j < k < |xs| ==> xs[j] != xs[k]
    ensures |xs| <= n
    decreases n
  {
    if xs != [] {
      RoomForOne(xs, n);
      var last := n - 1;
      if k :| 0 <= k < |xs| && xs[k] == last {
        Pigeonhole(xs[..k] + xs[k + 1..], last);
      } else {
        Pigeonhole(xs, last);
      }
    }
  }

  lemma RoomForOne(xs: seq<int>, n: nat)
    requires xs != [] && forall k :: 0 <= k < |xs| ==> 0 <= xs[k] < n
    ensures n > 0
  {
    assert xs[0] < n;
  }

  lemma NextIndex(h: nat, n: nat)
    requires h < n
    ensures (h + 1) % n == if h + 1 < n then h + 1 else 0
  {
  }

  // ------------------------------------------------------------------ one swap

  ghost function SwappedHeap(heap: seq<SrqData>, l: nat, r: nat): seq<SrqData>
    requires l < |heap| && r < |heap|
  {
    heap[l := heap[r]][r := heap[l]]
  }

  ghost function SwappedIndex(heap: seq<SrqData>, index: seq<int>, l: nat, r: nat): seq<int>
    requires l < |heap| && r < |heap| && 0 <= heap[l].idx < |index| && 0 <= heap[r].idx < |index|
  {
    index[heap[r].idx := l][heap[l].idx := r]
  }

  lemma SwapKeeps(heap: seq<SrqData>, index: seq<int>, n: nat, l: nat, r: nat, stale: int)
    requires Inverse(heap, index, n, stale) && l < n && r < n && l != r
    ensures var heap', index' := SwappedHeap(heap, l, r), SwappedIndex(heap, index, l, r);
      && Inverse(heap', index', n, stale) && EntriesOf(heap', index', stale) == EntriesOf(heap, index, stale)
      && (0 <= stale < |index| ==> index'[stale] == index[stale])
  {
    var heap', index' := SwappedHeap(heap, l, r), SwappedIndex(heap, index, l, r);
    assert heap[l].idx != heap[r].idx;
    forall k | 0 <= k < |index|
      ensures index'[k] == if k == heap[r].idx then l else if k == heap[l].idx then r else index[k]
    {
    }
  }

  lemma SwapRises(heap: seq<SrqData>, n: nat, pos: nat, start: nat)
    requires n <= |heap| && 0 < pos < n && Rising(heap, n, pos, start) && pos <= start
    requires heap[pos].priority > heap[Parent(pos)].priority
    ensures Rising(SwappedHeap(heap, Parent(pos), pos), n, Parent(pos), start)
  {
    var up := Parent(pos);
    var heap' := SwappedHeap(heap, up, pos);
    ParentOf(pos);
    forall p | 0 < p < n && p != up && (Parent(p) != up || up != start) ensures Below(heap', p) {
      ParentOf(p);
      if p != pos && Parent(p) != pos {
        assert Below(heap, p);
      }
      hide Parent;
    }
    BridgeRises(heap, n, pos, start);
  }

  lemma BridgeRises(heap: seq<SrqData>, n: nat, pos: nat, start: nat)
    requires n <= |heap| && 0 < pos < n && Rising(heap, n, pos, start) && pos <= start
    requires heap[pos].priority > heap[Parent(pos)].priority
    ensures Bridged(SwappedHeap(heap, Parent(pos), pos), n, Parent(pos))
  {
    var up := Parent(pos);
    var heap' := SwappedHeap(heap, up, pos);
    ParentOf(pos);
    forall p | 0 < p < n && Parent(p) == up && up > 0 ensures heap'[p].priority <= heap'[Parent(up)].priority {
      ParentOf(up);
      ParentOf(p);
      assert Below(heap, up);
      if p != pos {
        assert Below(heap, p);
      }
      hide Parent;
    }
  }

  lemma Risen(heap: seq<SrqData>, n: nat, pos: nat, start: nat)
    requires n <= |heap| && pos < n && Rising(heap, n, pos, start) && pos <= start < n
    requires pos > 0 ==> heap[pos].priority <= heap[Parent(pos)].priority
    ensures Sinking(heap, n, start)
  {
    if pos < start {
      forall p | 0 < p < n ensures Below(heap, p) {
      }
      OrderedSinks(heap, n, start);
    }
  }

  lemma OrderedSinks(heap: seq<SrqData>, n: nat, pos: nat)
    requires n <= |heap| && pos < n && Ordered(heap, n)
    ensures Sinking(heap, n, pos)
  {
    forall p | 0 < p < n && Parent(p) == pos && pos > 0 ensures heap[p].priority <= heap[Parent(pos)].priority {
      assert Below(heap, p) && Below(heap, pos);
    }
  }

  /** Swapping a sinking entry with its larger child. */
  lemma SwapSinks(heap: seq<SrqData>, n: nat, pos: nat, child: nat)
    requires n <= |heap| && pos < n && Sinking(heap, n, pos) && child < n && child > 0 && Parent(child) == pos
    requires heap[child].priority > heap[pos].priority
    requires forall p :: 0 < p < n && Parent(p) == pos ==> heap[p].priority <= heap[child].priority
    ensures Sinking(SwappedHeap(heap, pos, child), n, child)
  {
    var heap' := SwappedHeap(heap, pos, child);
    ParentOf(child);
    forall p | 0 < p < n && Parent(p) != child ensures Below(heap', p) {
      ParentOf(p);
      if p != pos && Parent(p) != pos {
        assert Below(heap, p);
      } else if p == pos {
        assert heap[child].priority <= heap[Parent(pos)].priority;
      }
    }
    forall p | 0 < p < n && Parent(p) == child ensures heap'[p].priority <= heap'[Parent(child)].priority {
      ParentOf(p);
      assert Below(heap, p);
    }
  }

  /** A new entry at the end, under a free handle. */
  lemma InsertKeeps(heap: seq<SrqData>, index: seq<int>, n: nat, k: nat, data: SrqData)
    requires Inverse(heap, index, n, NOT_STALE) && Ordered(heap, n) && n < |heap| && k < |index|
    requires index[k] == SRQ_INDEX_AVAILABLE
    ensures var heap', index' := heap[n := data.(idx := k)], index[k := n];
      && Inverse(heap', index', n + 1, NOT_STALE) && Rising(heap', n + 1, n, n)
      && k !in EntriesOf(heap, index, NOT_STALE)
      && EntriesOf(heap', index', NOT_STALE) == EntriesOf(heap, index, NOT_STALE)[k := data.(idx := k)]
  {
    var heap' := heap[n := data.(idx := k)];
    forall p | 0 < p < n + 1 && p != n && Parent(p) != n ensures Below(heap', p) {
      assert Below(heap, p);
    }
  }

  lemma SinkingLeaf(heap: seq<SrqData>, n: nat, pos: nat)
    requires 0 < n <= |heap| && pos == n - 1 && Sinking(heap, n, pos)
    ensures Ordered(heap, n)
  {
    forall p | 0 < p < n ensures Below(heap, p) {
      ParentOf(p);
    }
  }

  lemma MaxOfAll(heap: seq<SrqData>, index: seq<int>, n: nat)
    requires Inverse(heap, index, n, NOT_STALE) && Ordered(heap, n) && n > 0
    ensures var es := EntriesOf(heap, index, NOT_STALE);
      && heap[0].idx in es && es[heap[0].idx] == heap[0]
      && forall k :: k in es ==> es[k].priority <= heap[0].priority
  {
    var es := EntriesOf(heap, index, NOT_STALE);
    forall k | k in es ensures es[k].priority <= heap[0].priority {
      RootIsMax(heap, n, index[k]);
    }
  }

  ghost function TailMoved(heap: seq<SrqData>, n: nat, pos: nat): seq<SrqData>
    requires 0 < n <= |heap| && pos < n
  {
    if n == 1 then heap else heap[pos := heap[n - 1]]
  }

  ghost function TailIndexed(heap: seq<SrqData>, index: seq<int>, n: nat, pos: nat): seq<int>
    requires 0 < n <= |heap| && pos < n && 0 <= heap[n - 1].idx < |index|
  {
    if n == 1 then index else index[heap[n - 1].idx := pos]
  }

  /** Moving the last entry over the removed one, whose handle may have been given up already. */
  lemma RemoveKeeps(heap: seq<SrqData>, index: seq<int>, n: nat, pos: nat, index1: seq<int>)
    requires Inverse(heap, index, n, NOT_STALE) && pos < n
    requires index1 == index || index1 == index[heap[pos].idx := SRQ_INDEX_AVAILABLE]
    ensures var k, heap', index' := heap[pos].idx, TailMoved(heap, n, pos), TailIndexed(heap, index1, n, pos);
      && Inverse(heap', index', n - 1, k)
      && EntriesOf(heap', index', k) == EntriesOf(heap, index, NOT_STALE) - {k}
      && (pos != n - 1 ==> index'[k] == index1[k])
  {
    var k, heap', index' := heap[pos].idx, TailMoved(heap, n, pos), TailIndexed(heap, index1, n, pos);
    RemoveInverse(heap, index, n, pos, index1);
    forall j | 0 <= j < |index| && j != k ensures SameEntry(heap, index, heap', index', j) {
      MovedEntry(heap, index, n, pos, index1, j);
    }
    hide Inverse, TailMoved, TailIndexed;
    EntriesWithout(heap, index, heap', index', k);
  }

  ghost predicate SameEntry(heap: seq<SrqData>, index: seq<int>, heap': seq<SrqData>, index': seq<int>, j: int) {
    && 0 <= j < |index| == |index'| && |heap'| == |heap|
    && (0 <= index'[j] < |heap|) == (0 <= index[j] < |heap|)
    && (0 <= index[j] < |heap| ==> heap'[index'[j]] == heap[index[j]])
  }

  lemma EntriesWithout(heap: seq<SrqData>, index: seq<int>, heap': seq<SrqData>, index': seq<int>, k: nat)
    requires k < |index| == |index'| && |heap'| == |heap|
    requires forall j :: 0 <= j < |index| && j != k ==> SameEntry(heap, index, heap', index', j)
    ensures EntriesOf(heap', index', k) == EntriesOf(heap, index, NOT_STALE) - {k}
  {
    var before, after := EntriesOf(heap, index, NOT_STALE) - {k}, EntriesOf(heap', index', k);
    forall j | 0 <= j < |index| && j != k ensures (j in after) == (j in before)
        && (j in after ==> after[j] == before[j]) {
      assert SameEntry(heap, index, heap', index', j);
    }
  }

  lemma RemoveInverse(heap: seq<SrqData>, index: seq<int>, n: nat, pos: nat, index1: seq<int>)
    requires Inverse(heap, index, n, NOT_STALE) && pos < n
    requires index1 == index || index1 == index[heap[pos].idx := SRQ_INDEX_AVAILABLE]
    ensures var k, heap', index' := heap[pos].idx, TailMoved(heap, n, pos), TailIndexed(heap, index1, n, pos);
      Inverse(heap', index', n - 1, k) && (pos != n - 1 ==> index'[k] == index1[k])
  {
    var k, heap', index' := heap[pos].idx, TailMoved(heap, n, pos), TailIndexed(heap, index1, n, pos);
    var tail := n - 1;
    forall p | 0 <= p < tail ensures heap'[p].idx != k && index'[heap'[p].idx] == p {
      assert p != pos ==> index[heap[p].idx] == p && heap[p].idx != heap[tail].idx;
      assert pos != tail ==> heap[tail].idx != k;
    }
    forall j | 0 <= j < |index| && j != k && index'[j] != SRQ_INDEX_AVAILABLE
      ensures 0 <= index'[j] < tail && heap'[index'[j]].idx == j
    {
      assert j != heap[tail].idx ==> index'[j] == index[j];
    }
  }

  lemma MovedEntry(heap: seq<SrqData>, index: seq<int>, n: nat, pos: nat, index1: seq<int>, j: nat)
    requires Inverse(heap, index, n, NOT_STALE) && pos < n && j < |index| && j != heap[pos].idx
    requires index1 == index || index1 == index[heap[pos].idx := SRQ_INDEX_AVAILABLE]
    ensures var heap', index' := TailMoved(heap, n, pos), TailIndexed(heap, index1, n, pos);
      && |heap'| == |heap| && |index'| == |index| && (0 <= index'[j] < |heap|) == (0 <= index[j] < |heap|)
      && (0 <= index[j] < |heap| ==> heap'[index'[j]] == heap[index[j]])
  {
    assert index1[j] == index[j];
    if index[j] != SRQ_INDEX_AVAILABLE {
      assert heap[index[j]].idx == j;
    }
  }

  lemma HandleAt(heap: seq<SrqData>, index: seq<int>, n: nat, k: int)
    requires Inverse(heap, index, n, NOT_STALE) && k in EntriesOf(heap, index, NOT_STALE)
    ensures 0 <= k < |index| && 0 <= index[k] < n <= |heap| && heap[index[k]].idx == k
    ensures EntriesOf(heap, index, NOT_STALE)[k] == heap[index[k]]
  {
  }

  /** What is left is in order around the place. */
  lemma RemoveOrder(heap: seq<SrqData>, n: nat, pos: nat)
    requires 0 < n <= |heap| && Ordered(heap, n) && pos < n
    ensures pos < n - 1 ==> Rising(TailMoved(heap, n, pos), n - 1, pos, pos)
    ensures pos == n - 1 ==> Ordered(TailMoved(heap, n, pos), n - 1)
    ensures pos == 0 < n - 1 ==> Sinking(TailMoved(heap, n, pos), n - 1, pos)
  {
    var heap' := TailMoved(heap, n, pos);
    forall p | 0 < p < n - 1 && p != pos && Parent(p) != pos ensures Below(heap', p) {
      ParentOf(p);
      assert Below(heap, p);
    }
    forall p | 0 < p < n - 1 && Parent(p) == pos && pos > 0 ensures heap'[p].priority <= heap'[Parent(pos)].priority {
      ParentOf(p);
      ParentOf(pos);
      assert Below(heap, p) && Below(heap, pos);
    }
  }

  /** Giving the stale handle up. */
  lemma GivenUp(heap: seq<SrqData>, index: seq<int>, n: nat, k: nat)
    requires Inverse(heap, index, n, k) && k < |index|
    ensures var index' := index[k := SRQ_INDEX_AVAILABLE];
      Inverse(heap, index', n, NOT_STALE) && EntriesOf(heap, index', NOT_STALE) == EntriesOf(heap, index, k)
  {
  }

  lemma ChangedPriority(heap: seq<SrqData>, index: seq<int>, n: nat, k: nat, priority: nat)
    requires Inverse(heap, index, n, NOT_STALE) && Ordered(heap, n) && k < |index|
    requires index[k] != SRQ_INDEX_AVAILABLE
    ensures 0 <= index[k] < n
    ensures var pos := index[k]; var heap' := heap[pos := heap[pos].(priority := priority)];
      && Inverse(heap', index, n, NOT_STALE) && Rising(heap', n, pos, pos)
      && k in EntriesOf(heap, index, NOT_STALE)
      && EntriesOf(heap', index, NOT_STALE)
         == EntriesOf(heap, index, NOT_STALE)[k := heap[pos].(priority := priority)]
      && EntriesOf(heap, index, NOT_STALE)[k] == heap[pos]
  {
    var pos: nat := index[k];
    var heap' := heap[pos := heap[pos].(priority := priority)];
    forall p | 0 < p < n && p != pos && Parent(p) != pos ensures Below(heap', p) {
      ParentOf(p);
      assert Below(heap, p);
    }
    forall p | 0 < p < n && Parent(p) == pos && pos > 0 ensures heap'[p].priority <= heap'[Parent(pos)].priority {
      ParentOf(p);
      ParentOf(pos);
      assert Below(heap, p) && Below(heap, pos);
    }
  }

  lemma LargerChild(heap: seq<SrqData>, n: nat, pos: nat, child: nat)
    requires n <= |heap| && pos < n && LChild(pos) < n
    requires child == if RChild(pos) >= n || heap[LChild(pos)].priority > heap[RChild(pos)].priority
                      then LChild(pos) else RChild(pos)
    ensures 0 < child < n && Parent(child) == pos
    ensures forall p :: 0 < p < n && Parent(p) == pos ==> heap[p].priority <= heap[child].priority
  {
    ParentOf(child);
    forall p | 0 < p < n && Parent(p) == pos ensures heap[p].priority <= heap[child].priority {
      ParentOf(p);
    }
  }

  lemma Sunk(heap: seq<SrqData>, n: nat, pos: nat)
    requires n <= |heap| && (n > 0 ==> pos < n && Sinking(heap, n, pos))
    requires n > 0 && LChild(pos) < n ==> heap[LChild(pos)].priority <= heap[pos].priority
    requires n > 0 && RChild(pos) < n ==> heap[RChild(pos)].priority <= heap[pos].priority
    ensures Ordered(heap, n)
  {
    forall p | 0 < p < n ensures Below(heap, p) {
      ParentOf(p);
    }
  }

  class Srq {
    const heap: array<SrqData>
    const index: array<int>
    var numEntries: nat
    var indexHand: nat

    ghost predicate Linked(stale: int)
      reads this, heap, index
    {
      heap.Length > 0 && Inverse(heap[..], index[..], numEntries, stale) && indexHand < index.Length
    }

    ghost predicate Valid()
      reads this, heap, index
    {
      Linked(NOT_STALE) && Ordered(heap[..], numEntries)
    }

    ghost function EntriesBut(stale: int): map<int, SrqData>
      reads heap, index
    {
      EntriesOf(heap[..], index[..], stale)
    }

    /** What is queued, by handle. */
    ghost function Entries(): map<int, SrqData>
      reads heap, index
    {
      EntriesBut(NOT_STALE)
    }

    constructor (capacity: nat)
      requires capacity > 0
      ensures Valid() && fresh(heap) && fresh(index) && heap.Length == capacity && Entries() == map[]
    {
      heap := new SrqData[capacity](i => SrqData(0, 0, 0, 0));
      index := new int[capacity](i => SRQ_INDEX_AVAILABLE);
      numEntries, indexHand := 0, 0;
    }

    method Swap(l: nat, r: nat, ghost stale: int)
      requires Linked(stale) && l < numEntries && r < numEntries && l != r
      modifies heap, index
      ensures Linked(stale) && heap[..] == SwappedHeap(old(heap[..]), l, r)
      ensures EntriesBut(stale) == old(EntriesBut(stale))
      ensures 0 <= stale < index.Length ==> index[stale] == old(index[stale])
    {
      SwapKeeps(heap[..], index[..], numEntries, l, r, stale);
      heap[l], heap[r] := heap[r], heap[l];
      index[heap[l].idx] := l;
      index[heap[r].idx] := r;
    }

    method RebalanceUp(start: nat, ghost stale: int)
      requires Linked(stale) && start < numEntries && Rising(heap[..], numEntries, start, start)
      modifies heap, index
      ensures Linked(stale) && Sinking(heap[..], numEntries, start)
      ensures EntriesBut(stale) == old(EntriesBut(stale))
      ensures 0 <= stale < index.Length ==> index[stale] == old(index[stale])
    {
      var pos: nat := start;
      while pos != 0 && heap[pos].priority > heap[Parent(pos)].priority
        invariant Linked(stale) && pos <= start && Rising(heap[..], numEntries, pos, start)
        invariant EntriesBut(stale) == old(EntriesBut(stale))
        invariant 0 <= stale < index.Length ==> index[stale] == old(index[stale])
        decreases pos
      {
        SwapRises(heap[..], numEntries, pos, start);
        ParentOf(pos);
        Swap(Parent(pos), pos, stale);
        pos := Parent(pos);
      }
      Risen(heap[..], numEntries, pos, start);
    }

    method RebalanceDown(start: nat, ghost stale: int)
      requires Linked(stale) && (start < numEntries || (start == 0 && numEntries == 0))
      requires start < numEntries ==> Sinking(heap[..], numEntries, start)
      modifies heap, index
      ensures Linked(stale) && Ordered(heap[..], numEntries)
      ensures EntriesBut(stale) == old(EntriesBut(stale))
      ensures 0 <= stale < index.Length ==> index[stale] == old(index[stale])
    {
      var pos: nat := start;
      while (LChild(pos) < numEntries && heap[LChild(pos)].priority > heap[pos].priority)
         || (RChild(pos) < numEntries && heap[RChild(pos)].priority > heap[pos].priority)
        invariant Linked(stale) && (pos < numEntries || (pos == 0 && numEntries == 0))
        invariant pos < numEntries ==> Sinking(heap[..], numEntries, pos)
        invariant EntriesBut(stale) == old(EntriesBut(stale))
        invariant 0 <= stale < index.Length ==> index[stale] == old(index[stale])
        decreases heap.Length - pos
      {
        var child: nat := if RChild(pos) >= numEntries || heap[LChild(pos)].priority > heap[RChild(pos)].priority
          then LChild(pos) else RChild(pos);
        LargerChild(heap[..], numEntries, pos, child);
        SwapSinks(heap[..], numEntries, pos, child);
        Swap(pos, child, stale);
        pos := child;
      }
      Sunk(heap[..], numEntries, pos);
    }

    /** Up and then down, from the same place. */
    method Rebalance(start: nat, ghost stale: int)
      requires Linked(stale) && start < numEntries && Rising(heap[..], numEntries, start, start)
      modifies heap, index
      ensures Linked(stale) && Ordered(heap[..], numEntries)
      ensures EntriesBut(stale) == old(EntriesBut(stale))
      ensures 0 <= stale < index.Length ==> index[stale] == old(index[stale])
    {
      hide *;
      RebalanceUp(start, stale);
      RebalanceDown(start, stale);
    }

    /** Scans on from the hand to a free handle; there is one while the heap is not full. */
    method GetNewIndex() returns (k: nat)
      requires Linked(NOT_STALE) && numEntries < heap.Length
      modifies this`indexHand
      ensures Linked(NOT_STALE) && k < index.Length && index[k] == SRQ_INDEX_AVAILABLE && k == indexHand
    {
      SomeAvailable(heap[..], index[..], numEntries);
      ghost var free :| 0 <= free < |index[..]| && index[..][free] == SRQ_INDEX_AVAILABLE;
      hide Inverse;
      while index[indexHand] != SRQ_INDEX_AVAILABLE
        invariant Linked(NOT_STALE)
        decreases if indexHand <= free then free - indexHand else index.Length - indexHand + free
      {
        NextIndex(indexHand, index.Length);
        indexHand := (indexHand + 1) % index.Length;
      }
      k := indexHand;
    }

    /** The new entry gets a handle nobody holds. */
    method Insert(data: SrqData) returns (k: nat)
      requires Valid() && numEntries != heap.Length
      modifies this, heap, index
      ensures Valid() && k !in old(Entries()) && numEntries == old(numEntries) + 1
      ensures Entries() == old(Entries())[k := data.(idx := k)]
    {
      ghost var heap0, index0 := heap[..], index[..];
      k := GetNewIndex();
      var pos := numEntries;
      InsertKeeps(heap0, index0, pos, k, data);
      hide Inverse, Ordered, Rising, EntriesOf, Sinking;
      numEntries := numEntries + 1;
      heap[pos] := data.(idx := k);
      index[k] := pos;
      assert heap[..] == heap0[pos := data.(idx := k)] && index[..] == index0[k := pos];
      RebalanceUp(pos, NOT_STALE);
      SinkingLeaf(heap[..], numEntries, pos);
    }

    /** srq_move_tail_to_pos, once the entry there is out: its handle k is stale. */
    method MoveTailToPos(pos: nat, ghost index0: seq<int>)
      requires pos < numEntries && heap.Length > 0 && indexHand < index.Length
      requires Inverse(heap[..], index0, numEntries, NOT_STALE) && Ordered(heap[..], numEntries)
      requires index[..] == index0 || index[..] == index0[heap[pos].idx := SRQ_INDEX_AVAILABLE]
      modifies this`numEntries, heap, index
      ensures numEntries == old(numEntries) - 1
      ensures heap[..] == TailMoved(old(heap[..]), old(numEntries), pos)
      ensures Linked(old(heap[pos].idx))
      ensures EntriesBut(old(heap[pos].idx)) == EntriesOf(old(heap[..]), index0, NOT_STALE) - {old(heap[pos].idx)}
      ensures pos != numEntries ==> index[old(heap[pos].idx)] == old(index[heap[pos].idx])
      ensures numEntries == 0 ==> index[..] == old(index[..])
    {
      RemoveKeeps(heap[..], index0, numEntries, pos, index[..]);
      ghost var heap1, index1 := heap[..], index[..];
      var tailPos := numEntries - 1;
      numEntries := numEntries - 1;
      if numEntries != 0 {
        heap[pos] := heap[tailPos];
        index[heap[pos].idx] := pos;
      }
      assert heap[..] == TailMoved(heap1, tailPos + 1, pos);
      assert index[..] == TailIndexed(heap1, index1, tailPos + 1, pos);
    }

    /** Removes an entry of the largest priority, or says that there is none. */
    method ExtractMax() returns (max: SrqData)
      requires Valid()
      modifies this, heap, index
      ensures Valid()
      ensures old(numEntries) == 0 ==> max.idx == SRQ_INDEX_AVAILABLE && Entries() == old(Entries())
      ensures old(numEntries) > 0 ==> max.idx in old(Entries()) && max == old(Entries())[max.idx]
      ensures old(numEntries) > 0 ==>
        forall k :: k in old(Entries()) ==> old(Entries())[k].priority <= max.priority
      ensures old(numEntries) > 0 ==> Entries() == old(Entries()) - {max.idx} && numEntries == old(numEntries) - 1
    {
      if numEntries == 0 {
        return SrqData(0, 0, 0, SRQ_INDEX_AVAILABLE);
      }
      ghost var heap0, index0 := heap[..], index[..];
      max := heap[0];
      MaxOfAll(heap0, index0, numEntries);
      RemoveOrder(heap0, numEntries, 0);
      assert 0 <= max.idx < index.Length;
      hide Inverse, Ordered, Rising, EntriesOf, Sinking, TailMoved;
      index[max.idx] := SRQ_INDEX_AVAILABLE;
      MoveTailToPos(0, index0);
      RebalanceDown(0, max.idx);
      GivenUp(heap[..], index[..], numEntries, max.idx);
      assert index[..] == index[..][max.idx := SRQ_INDEX_AVAILABLE];
    }

    /** Removes the entry of a handle, and no other. */
    method Delete(k: nat) returns (deleted: SrqData)
      requires Valid() && k in Entries()
      modifies this, heap, index
      ensures Valid() && deleted == old(Entries())[k]
      ensures Entries() == old(Entries()) - {k} && numEntries == old(numEntries) - 1
    {
      ghost var heap0, index0 := heap[..], index[..];
      HandleAt(heap0, index0, numEntries, k);
      hide Inverse, Ordered, Rising, Sinking, TailMoved, EntriesOf;
      var pos: nat := index[k];
      RemoveOrder(heap0, numEntries, pos);
      deleted := heap[pos];
      MoveTailToPos(pos, index0);
      if pos != numEntries {
        Rebalance(pos, k);
      }
      GivenUp(heap[..], index[..], numEntries, k);
      ghost var index1 := index[..];
      index[k] := SRQ_INDEX_AVAILABLE;
      assert index[..] == index1[k := SRQ_INDEX_AVAILABLE];
    }

    /** Changes the priority of a handle's entry, and nothing else. */
    method Update(k: nat, newPriority: nat)
      requires Valid() && k in Entries()
      modifies heap, index
      ensures Valid() && Entries() == old(Entries())[k := old(Entries())[k].(priority := newPriority)]
    {
      ghost var heap0, index0 := heap[..], index[..];
      ChangedPriority(heap0, index0, numEntries, k, newPriority);
      var pos: nat := index[k];
      hide Inverse, Ordered, Rising, EntriesOf, Sinking;
      heap[pos] := heap[pos].(priority := newPriority);
      assert heap[..] == heap0[pos := heap0[pos].(priority := newPriority)];
      Rebalance(pos, NOT_STALE);
    }
  }
}
