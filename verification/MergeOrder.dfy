/** The array of a merge iterator: child iterators in order of their current keys, with a bit on each telling whether
    the next one has the same key, and the binary search that keeps it so (src/merge.c). */
module MergeOrder {
  import opened DataModel
  import opened KeyOrder
  import opened MergeCopies

  /** One child's place in the array. `seqNo` is its age: the larger, the newer. */
  datatype OrderedIterator = OrderedIterator(seqNo: nat, curr: Option<Tuple>, nextKeyEqual: bool)

  // ---------------------------------------------------------------- ordering

  predicate KeysEqual(cfg: DataConfig, one: OrderedIterator, two: OrderedIterator)
    requires one.curr.Some? && two.curr.Some?
  {
    DataKeyCompare(cfg, User(one.curr.value.key), User(two.curr.value.key)) == 0
  }

  function BsearchComp(cfg: DataConfig, one: OrderedIterator, two: OrderedIterator): int
    requires one.curr.Some? && two.curr.Some?
  {
    var cmp := DataKeyCompare(cfg, User(one.curr.value.key), User(two.curr.value.key));
    if cmp == 0 then two.seqNo - one.seqNo else cmp
  }

  /** Smaller key first; among equal keys, the newer child first. */
  ghost predicate Before(cfg: DataConfig, one: OrderedIterator, two: OrderedIterator)
    requires one.curr.Some? && two.curr.Some?
  {
    var p, q := cfg.rank(one.curr.value.key), cfg.rank(two.curr.value.key);
    p < q || (p == q && one.seqNo > two.seqNo)
  }

  ghost predicate Live(slots: seq<OrderedIterator>, lo: nat, hi: nat) {
    hi <= |slots| && forall i :: lo <= i < hi ==> slots[i].curr.Some?
  }

  ghost predicate InOrder(cfg: DataConfig, slots: seq<OrderedIterator>, lo: nat, hi: nat)
    requires Live(slots, lo, hi)
  {
    forall i, j :: lo <= i < j < hi ==> Before(cfg, slots[i], slots[j])
  }

  /** Where `key` belongs among nmemb ordered slots from `first` on: the offset of the last one before it, or -1;
      and whether the neighbours there have its key. */
  method BsearchInsert(cfg: DataConfig, key: OrderedIterator, base0: array<OrderedIterator>, first: nat, nmemb: nat)
    returns (r: int, prevEqual: bool, nextEqual: bool)
    requires key.curr.Some? && nmemb > 0 && Live(base0[..], first, first + nmemb)
    requires InOrder(cfg, base0[..], first, first + nmemb)
    requires forall i :: first <= i < first + nmemb ==> base0[i].seqNo != key.seqNo
    ensures -1 <= r < nmemb
    ensures forall i :: first <= i <= first + r ==> Before(cfg, base0[i], key)
    ensures forall i :: first + r < i < first + nmemb ==> Before(cfg, key, base0[i])
    ensures prevEqual <==> r >= 0 && KeysEqual(cfg, base0[first + r], key)
    ensures nextEqual <==> r + 1 < nmemb && KeysEqual(cfg, key, base0[first + r + 1])
  {
    var base: nat, lim: nat, cmp := first, nmemb, 0;
    ghost var end := first + nmemb;
    r, prevEqual, nextEqual := first, false, false;
    assert forall i :: first <= i < end ==> base0[..][i] == base0[i];
    while lim != 0
      invariant first <= base <= base + lim <= end
      invariant forall i :: first <= i < base ==> Before(cfg, base0[i], key)
      invariant forall i :: base + lim <= i < end ==> Before(cfg, key, base0[i])
      invariant prevEqual <==> base > first && KeysEqual(cfg, base0[base - 1], key)
      invariant nextEqual <==> base + lim < end && KeysEqual(cfg, key, base0[base + lim])
      invariant lim < nmemb ==> cmp != 0
      invariant cmp > 0 ==> r == base - 1
      invariant cmp < 0 ==> r == base + lim
      decreases lim
    {
      ghost var end' := base + lim;
      r := base + lim / 2;
      var keysEqual := KeysEqual(cfg, key, base0[r]);
      cmp := BsearchComp(cfg, key, base0[r]);
      Probe(cfg, key, base0[..], first, r, end);
      if cmp > 0 {
        base := r + 1;
        lim := lim - 1;
        prevEqual := prevEqual || keysEqual;
      }
      nextEqual := nextEqual || (cmp < 0 && keysEqual);
      lim := lim / 2;
      assert base + lim == if cmp > 0 then end' else r;
    }
    r := (if cmp < 0 then r - 1 else r) - first;
  }

  lemma Probe(cfg: DataConfig, key: OrderedIterator, slots: seq<OrderedIterator>, first: nat, r: nat, end: nat)
    requires key.curr.Some? && Live(slots, first, end) && InOrder(cfg, slots, first, end) && first <= r < end
    requires slots[r].seqNo != key.seqNo
    ensures BsearchComp(cfg, key, slots[r]) > 0 ==> forall i :: first <= i <= r ==> Before(cfg, slots[i], key)
    ensures BsearchComp(cfg, key, slots[r]) > 0 ==>
      forall i :: first <= i < r && KeysEqual(cfg, slots[i], key) ==> KeysEqual(cfg, slots[r], key)
    ensures BsearchComp(cfg, key, slots[r]) < 0 ==> forall i :: r <= i < end ==> Before(cfg, key, slots[i])
    ensures BsearchComp(cfg, key, slots[r]) < 0 ==>
      forall i :: r < i < end && KeysEqual(cfg, key, slots[i]) ==> KeysEqual(cfg, key, slots[r])
    ensures BsearchComp(cfg, key, slots[r]) != 0
  {
    forall i | first <= i < r ensures Before(cfg, slots[i], slots[r]) {
    }
    forall i | r < i < end ensures Before(cfg, slots[r], slots[i]) {
    }
  }

  // -------------------------------------------------------------- array state

  ghost predicate HasSlot(slots: seq<OrderedIterator>, k: nat) {
    exists i :: 0 <= i < |slots| && slots[i].seqNo == k
  }

  /** Every child has exactly one place. */
  ghost predicate Numbered(slots: seq<OrderedIterator>, n: nat) {
    && (forall i :: 0 <= i < |slots| ==> slots[i].seqNo < n)
    && (forall i, j :: 0 <= i < j < |slots| ==> slots[i].seqNo != slots[j].seqNo)
    && (forall k :: 0 <= k < n ==> HasSlot(slots, k))
  }

  /** The live slots come first and hold their child's current tuple; the others' children are exhausted. */
  ghost predicate Loaded(slots: seq<OrderedIterator>, num: nat, runs: Runs)
    requires forall i :: 0 <= i < |slots| ==> slots[i].seqNo < |runs|
  {
    && num <= |slots|
    && (forall i :: 0 <= i < num ==> runs[slots[i].seqNo] != [] && slots[i].curr == Some(runs[slots[i].seqNo][0]))
    && (forall i :: num <= i < |slots| ==> runs[slots[i].seqNo] == [])
  }

  /** A bit is set exactly when the next live slot has the same key. */
  ghost predicate BitsExact(cfg: DataConfig, slots: seq<OrderedIterator>, num: nat)
    requires Live(slots, 0, num)
  {
    forall i :: 0 <= i < num ==> BitExact(cfg, slots, num, i)
  }

  ghost predicate BitExact(cfg: DataConfig, slots: seq<OrderedIterator>, num: nat, i: nat)
    requires Live(slots, 0, num) && i < num
  {
    slots[i].nextKeyEqual <==> i + 1 < num && KeysEqual(cfg, slots[i], slots[i + 1])
  }

  ghost predicate Ready(cfg: DataConfig, slots: seq<OrderedIterator>, num: nat, runs: Runs) {
    && RunsSorted(cfg, runs) && Numbered(slots, |runs|) && Loaded(slots, num, runs)
    && InOrder(cfg, slots, 0, num) && BitsExact(cfg, slots, num)
  }

  ghost function HeadRank(cfg: DataConfig, slots: seq<OrderedIterator>): real
    requires slots != [] && slots[0].curr.Some?
  {
    cfg.rank(slots[0].curr.value.key)
  }

  /** The first slot's child has the least head, the newest of its key. */
  lemma HeadIsLeast(cfg: DataConfig, slots: seq<OrderedIterator>, num: nat, runs: Runs)
    requires Ready(cfg, slots, num, runs) && num > 0
    ensures slots[0].seqNo < |runs| && LeastHead(cfg, runs, slots[0].seqNo)
    ensures slots[0].curr.Some? && runs[slots[0].seqNo][0] == slots[0].curr.value
  {
    var k := slots[0].seqNo;
    forall j | 0 <= j < |runs| && j != k && runs[j] != [] ensures HeadBefore(cfg, runs, k, j) {
      assert HasSlot(slots, j);
      var i :| 0 <= i < |slots| && slots[i].seqNo == j;
      assert Before(cfg, slots[0], slots[i]);
    }
  }

  lemma NothingBelow(cfg: DataConfig, slots: seq<OrderedIterator>, num: nat, runs: Runs, q: real)
    requires Ready(cfg, slots, num, runs) && (num > 0 ==> q < HeadRank(cfg, slots))
    ensures Copies(cfg, runs, q) == []
  {
    forall j | 0 <= j < |runs| && runs[j] != [] ensures q < cfg.rank(runs[j][0].key) {
      assert HasSlot(slots, j);
      var i :| 0 <= i < |slots| && slots[i].seqNo == j;
      if i > 0 {
        assert Before(cfg, slots[0], slots[i]);
      }
    }
    NoCopies(cfg, runs, q);
  }

  /** With the first bit clear, the first slot holds the only copy of its key. */
  lemma LoneHead(cfg: DataConfig, slots: seq<OrderedIterator>, num: nat, runs: Runs)
    requires Ready(cfg, slots, num, runs) && num > 0 && !slots[0].nextKeyEqual
    ensures Copies(cfg, runs, HeadRank(cfg, slots)) == [slots[0].curr.value]
  {
    var k := slots[0].seqNo;
    var r := HeadRank(cfg, slots);
    var less: Runs := WithoutHead(runs, k);
    HeadIsLeast(cfg, slots, num, runs);
    TakeHead(cfg, runs, k, r);
    SortedWithoutHead(cfg, runs, k);
    forall j | 0 <= j < |less| && less[j] != [] ensures r < cfg.rank(less[j][0].key) {
      if j == k {
        assert StrictlySorted(cfg, runs[k]);
      } else {
        assert HasSlot(slots, j);
        var i :| 0 <= i < |slots| && slots[i].seqNo == j;
        assert Before(cfg, slots[0], slots[i]);
        SecondIsAbove(cfg, slots, num);
        if i > 1 {
          assert Before(cfg, slots[1], slots[i]);
        }
      }
    }
    NoCopies(cfg, less, r);
  }

  lemma SecondIsAbove(cfg: DataConfig, slots: seq<OrderedIterator>, num: nat)
    requires Live(slots, 0, num) && InOrder(cfg, slots, 0, num) && BitsExact(cfg, slots, num)
    requires num > 1 && !slots[0].nextKeyEqual
    ensures HeadRank(cfg, slots) < cfg.rank(slots[1].curr.value.key)
  {
    assert Before(cfg, slots[0], slots[1]) && BitExact(cfg, slots, num, 0);
  }

  // ------------------------------------------------------ moving the first slot

  ghost function Rotated(slots: seq<OrderedIterator>, index: nat): seq<OrderedIterator>
    requires index < |slots|
  {
    slots[1..index + 1] + [slots[0]] + slots[index + 1..]
  }

  lemma RotatedNumbered(slots: seq<OrderedIterator>, index: nat, n: nat)
    requires index < |slots| && Numbered(slots, n)
    ensures Numbered(Rotated(slots, index), n)
  {
    var after := Rotated(slots, index);
    forall i | 0 <= i < |slots| ensures after[i] == slots[if i < index then i + 1 else if i == index then 0 else i] {
    }
    forall i, j | 0 <= i < j < |after| ensures after[i].seqNo != after[j].seqNo {
      var i' := if i < index then i + 1 else if i == index then 0 else i;
      var j' := if j < index then j + 1 else if j == index then 0 else j;
      assert i' != j' && after[i] == slots[i'] && after[j] == slots[j'];
    }
    forall k | 0 <= k < n ensures HasSlot(after, k) {
      assert HasSlot(slots, k);
      var i :| 0 <= i < |slots| && slots[i].seqNo == k;
      var to := if i == 0 then index else if i <= index then i - 1 else i;
      assert after[to] == slots[i];
    }
  }

  /** The slots after the first one, moved down by one place. */
  ghost predicate MovedDown(slots: seq<OrderedIterator>, after: seq<OrderedIterator>, index: nat) {
    && |after| == |slots| && index < |slots|
    && (forall i, j :: 0 <= i < index && j == i + 1 ==> after[i] == slots[j])
    && after[index].seqNo == slots[0].seqNo
    && (forall i :: index < i < |slots| ==> after[i] == slots[i])
  }

  /** Without its head the first slot's child is the only one changed. */
  lemma LoadedExhausted(slots: seq<OrderedIterator>, num: nat, runs: Runs, after: seq<OrderedIterator>)
    requires Numbered(slots, |runs|) && Loaded(slots, num, runs) && num > 0 && |runs[slots[0].seqNo]| == 1
    requires MovedDown(slots, after, num - 1) && Numbered(after, |runs|)
    ensures Loaded(after, num - 1, WithoutHead(runs, slots[0].seqNo))
  {
    var k := slots[0].seqNo;
    var less: Runs := WithoutHead(runs, k);
    forall i | 0 <= i < num - 1
      ensures less[after[i].seqNo] != [] && after[i].curr == Some(less[after[i].seqNo][0])
    {
      var j := i + 1;
      assert after[i] == slots[j] && slots[j].seqNo != k;
    }
    forall i | num - 1 <= i < |after| ensures less[after[i].seqNo] == [] {
      if i > num - 1 {
        assert after[i] == slots[i] && slots[i].seqNo != k;
      }
    }
  }

  lemma OrderExhausted(cfg: DataConfig, slots: seq<OrderedIterator>, num: nat, after: seq<OrderedIterator>)
    requires num > 0 && MovedDown(slots, after, num - 1)
    requires Live(slots, 0, num) && InOrder(cfg, slots, 0, num) && BitsExact(cfg, slots, num)
    ensures Live(after, 0, num - 1) && InOrder(cfg, after, 0, num - 1) && BitsExact(cfg, after, num - 1)
  {
    forall i | 0 <= i < num - 1 ensures after[i].curr.Some? {
      var i' := i + 1;
      assert after[i] == slots[i'];
    }
    forall i, j | 0 <= i < j < num - 1 ensures Before(cfg, after[i], after[j]) {
      var i', j' := i + 1, j + 1;
      assert after[i] == slots[i'] && after[j] == slots[j'];
    }
    var left := num - 1;
    forall i | 0 <= i < left ensures BitExact(cfg, after, left, i) {
      var j := i + 1;
      var j' := j + 1;
      assert after[i] == slots[j] && (j < num - 1 ==> after[j] == slots[j']);
      assert BitExact(cfg, slots, num, j);
    }
  }

  lemma RotatedMovesDown(slots: seq<OrderedIterator>, cleared: seq<OrderedIterator>, index: nat)
    requires index < |slots| == |cleared| && cleared == slots[0 := cleared[0]] && cleared[0].seqNo == slots[0].seqNo
    ensures MovedDown(slots, Rotated(cleared, index), index)
  {
  }

  /** The first child is exhausted: its slot goes behind the live ones. */
  lemma AfterExhausted(cfg: DataConfig, slots: seq<OrderedIterator>, num: nat, runs: Runs)
    requires Ready(cfg, slots, num, runs) && num > 0 && |runs[slots[0].seqNo]| == 1
    ensures var cleared := slots[0 := slots[0].(nextKeyEqual := false, curr := None)];
      Ready(cfg, Rotated(cleared, num - 1), num - 1, WithoutHead(runs, slots[0].seqNo))
  {
    var cleared := slots[0 := slots[0].(nextKeyEqual := false, curr := None)];
    var after := Rotated(cleared, num - 1);
    RotatedMovesDown(slots, cleared, num - 1);
    SortedWithoutHead(cfg, runs, slots[0].seqNo);
    assert forall i :: 0 <= i < |slots| ==> cleared[i].seqNo == slots[i].seqNo;
    hide Numbered, Loaded, InOrder, BitsExact, MovedDown, RunsSorted, Rotated;
    ClearedNumbered(slots, cleared, |runs|);
    RotatedNumbered(cleared, num - 1, |runs|);
    LoadedExhausted(slots, num, runs, after);
    OrderExhausted(cfg, slots, num, after);
  }

  lemma ClearedNumbered(slots: seq<OrderedIterator>, cleared: seq<OrderedIterator>, n: nat)
    requires Numbered(slots, n) && |cleared| == |slots|
    requires forall i :: 0 <= i < |slots| ==> cleared[i].seqNo == slots[i].seqNo
    ensures Numbered(cleared, n)
  {
    forall k | 0 <= k < n ensures HasSlot(cleared, k) {
      assert HasSlot(slots, k);
    }
  }

  /** The first child has a further tuple: its slot goes where the search says, with the two bits it returns. */
  ghost function Resorted(slots: seq<OrderedIterator>, t: Tuple, index: nat, prevEqual: bool, nextEqual: bool):
    seq<OrderedIterator>
    requires index < |slots|
  {
    var loaded := slots[0 := slots[0].(nextKeyEqual := false, curr := Some(t))];
    var moved := Rotated(loaded, index);
    var marked := if index == 0 then moved else moved[index - 1 := moved[index - 1].(nextKeyEqual := prevEqual)];
    marked[index := marked[index].(nextKeyEqual := nextEqual)]
  }

  /** Slot i before the move, for slot i after it. */
  ghost predicate Resettled(slots: seq<OrderedIterator>, after: seq<OrderedIterator>, key: OrderedIterator,
                            index: nat, prevEqual: bool, nextEqual: bool) {
    && |after| == |slots| && index < |slots|
    && (forall i, j :: 0 <= i < index && j == i + 1 ==>
          after[i] == if j == index then slots[j].(nextKeyEqual := prevEqual) else slots[j])
    && after[index] == key.(nextKeyEqual := nextEqual)
    && (forall i :: index < i < |slots| ==> after[i] == slots[i])
  }

  /** What the search found out about the place. */
  ghost predicate Belongs(cfg: DataConfig, slots: seq<OrderedIterator>, num: nat, key: OrderedIterator, index: nat,
                          prevEqual: bool, nextEqual: bool)
    requires Live(slots, 0, num) && key.curr.Some?
  {
    && index < num
    && (forall i :: 1 <= i <= index ==> Before(cfg, slots[i], key))
    && (forall i :: index < i < num ==> Before(cfg, key, slots[i]))
    && (prevEqual <==> index > 0 && KeysEqual(cfg, slots[index], key))
    && (nextEqual <==> index + 1 < num && KeysEqual(cfg, key, slots[index + 1]))
  }

  lemma LoadedResorted(slots: seq<OrderedIterator>, num: nat, runs: Runs, after: seq<OrderedIterator>,
                       key: OrderedIterator, index: nat, prevEqual: bool, nextEqual: bool)
    requires Numbered(slots, |runs|) && Loaded(slots, num, runs) && 0 < num && index < num
    requires |runs[slots[0].seqNo]| > 1 && key.seqNo == slots[0].seqNo
    requires key.curr == Some(runs[slots[0].seqNo][1])
    requires Resettled(slots, after, key, index, prevEqual, nextEqual) && Numbered(after, |runs|)
    ensures Loaded(after, num, WithoutHead(runs, slots[0].seqNo))
  {
    var k := slots[0].seqNo;
    var less: Runs := WithoutHead(runs, k);
    forall i | 0 <= i < num
      ensures less[after[i].seqNo] != [] && after[i].curr == Some(less[after[i].seqNo][0])
    {
      var j := i + 1;
      if i < index {
        assert after[i].seqNo == slots[j].seqNo != k && after[i].curr == slots[j].curr;
      } else if i > index {
        assert after[i] == slots[i] && slots[i].seqNo != k;
      }
    }
    forall i | num <= i < |after| ensures less[after[i].seqNo] == [] {
      assert after[i] == slots[i] && slots[i].seqNo != k;
    }
  }

  lemma OrderResorted(cfg: DataConfig, slots: seq<OrderedIterator>, num: nat, after: seq<OrderedIterator>,
                      key: OrderedIterator, index: nat, prevEqual: bool, nextEqual: bool)
    requires Live(slots, 0, num) && InOrder(cfg, slots, 0, num) && BitsExact(cfg, slots, num) && key.curr.Some?
    requires Belongs(cfg, slots, num, key, index, prevEqual, nextEqual)
    requires Resettled(slots, after, key, index, prevEqual, nextEqual)
    ensures Live(after, 0, num) && InOrder(cfg, after, 0, num) && BitsExact(cfg, after, num)
  {
    forall i | 0 <= i < num ensures after[i].curr.Some? {
      var j := i + 1;
      if i < index {
        assert after[i].curr == slots[j].curr;
      }
    }
    forall i, j | 0 <= i < j < num ensures Before(cfg, after[i], after[j]) {
      var i', j' := i + 1, j + 1;
      if i < index {
        assert after[i].curr == slots[i'].curr && after[i].seqNo == slots[i'].seqNo;
      }
      if j < index {
        assert after[j].curr == slots[j'].curr && after[j].seqNo == slots[j'].seqNo;
      }
    }
    forall i | 0 <= i < num ensures BitExact(cfg, after, num, i) {
      BitResorted(cfg, slots, num, after, key, index, prevEqual, nextEqual, i);
    }
  }

  lemma BitResorted(cfg: DataConfig, slots: seq<OrderedIterator>, num: nat, after: seq<OrderedIterator>,
                    key: OrderedIterator, index: nat, prevEqual: bool, nextEqual: bool, i: nat)
    requires Live(slots, 0, num) && BitsExact(cfg, slots, num) && key.curr.Some? && i < num
    requires Belongs(cfg, slots, num, key, index, prevEqual, nextEqual)
    requires Resettled(slots, after, key, index, prevEqual, nextEqual) && Live(after, 0, num)
    ensures BitExact(cfg, after, num, i)
  {
    var j := i + 1;
    var j' := j + 1;
    if j < index {
      assert BitExact(cfg, slots, num, j);
      assert after[i] == slots[j] && after[j].curr == slots[j'].curr;
    } else if j == index {
      assert after[i] == slots[j].(nextKeyEqual := prevEqual) && after[j].curr == key.curr;
    } else if i == index {
      assert j < num ==> after[j] == slots[j];
    } else {
      assert BitExact(cfg, slots, num, i);
      assert after[i] == slots[i] && (j < num ==> after[j] == slots[j]);
    }
  }

  lemma ResortedSettles(slots: seq<OrderedIterator>, t: Tuple, index: nat, prevEqual: bool, nextEqual: bool)
    requires index < |slots|
    ensures var key := slots[0].(nextKeyEqual := false, curr := Some(t));
      Resettled(slots, Resorted(slots, t, index, prevEqual, nextEqual), key, index, prevEqual, nextEqual)
  {
  }

  lemma ResortedNumbered(slots: seq<OrderedIterator>, t: Tuple, index: nat, prevEqual: bool, nextEqual: bool, n: nat)
    requires index < |slots| && Numbered(slots, n)
    ensures Numbered(Resorted(slots, t, index, prevEqual, nextEqual), n)
  {
    hide Numbered;
    var loaded := slots[0 := slots[0].(nextKeyEqual := false, curr := Some(t))];
    ClearedNumbered(slots, loaded, n);
    RotatedNumbered(loaded, index, n);
    ClearedNumbered(Rotated(loaded, index), Resorted(slots, t, index, prevEqual, nextEqual), n);
  }

  lemma AfterResorted(cfg: DataConfig, slots: seq<OrderedIterator>, num: nat, runs: Runs, t: Tuple, index: nat,
                      prevEqual: bool, nextEqual: bool)
    requires Ready(cfg, slots, num, runs) && num > 0 && |runs[slots[0].seqNo]| > 1
    requires t == runs[slots[0].seqNo][1]
    requires var key := slots[0].(nextKeyEqual := false, curr := Some(t));
      Belongs(cfg, slots, num, key, index, prevEqual, nextEqual)
    ensures Ready(cfg, Resorted(slots, t, index, prevEqual, nextEqual), num, WithoutHead(runs, slots[0].seqNo))
  {
    var key := slots[0].(nextKeyEqual := false, curr := Some(t));
    var after := Resorted(slots, t, index, prevEqual, nextEqual);
    SortedWithoutHead(cfg, runs, slots[0].seqNo);
    ResortedNumbered(slots, t, index, prevEqual, nextEqual, |runs|);
    ResortedSettles(slots, t, index, prevEqual, nextEqual);
    hide Numbered, Loaded, InOrder, BitsExact, Resettled, RunsSorted, Rotated, Resorted, Belongs;
    LoadedResorted(slots, num, runs, after, key, index, prevEqual, nextEqual);
    OrderResorted(cfg, slots, num, after, key, index, prevEqual, nextEqual);
  }

  /** What the search may rely on once the first slot holds its child's next tuple. */
  lemma ReadyToSearch(cfg: DataConfig, slots: seq<OrderedIterator>, num: nat, runs: Runs, key: OrderedIterator)
    requires Ready(cfg, slots, num, runs) && num > 0 && key.seqNo == slots[0].seqNo
    ensures num <= |slots| && Live(slots, 0, num)
    ensures var loaded := slots[0 := key]; Live(loaded, 1, num) && InOrder(cfg, loaded, 1, num)
    ensures var loaded := slots[0 := key]; forall i :: 1 <= i < num ==> loaded[i].seqNo != key.seqNo
  {
    var loaded := slots[0 := key];
    forall i | 1 <= i < num ensures loaded[i] == slots[i] {
    }
  }

  /** What the search found, in terms of the array before. */
  lemma FoundBelongs(cfg: DataConfig, slots: seq<OrderedIterator>, num: nat, key: OrderedIterator, index: nat,
                     prevEqual: bool, nextEqual: bool)
    requires Live(slots, 0, num) && key.curr.Some? && 1 < num && index < num
    requires var loaded := slots[0 := key];
      && (forall i :: 1 <= i <= index ==> Before(cfg, loaded[i], key))
      && (forall i :: index < i < num ==> Before(cfg, key, loaded[i]))
      && (prevEqual <==> index >= 1 && KeysEqual(cfg, loaded[index], key))
      && (nextEqual <==> index + 1 < num && KeysEqual(cfg, key, loaded[index + 1]))
    ensures Belongs(cfg, slots, num, key, index, prevEqual, nextEqual)
  {
    var loaded := slots[0 := key];
    forall i | 1 <= i < num ensures loaded[i] == slots[i] {
    }
  }

  // ------------------------------------------------------------------ setting up

  ghost predicate Unmarked(slots: seq<OrderedIterator>) {
    forall i :: 0 <= i < |slots| ==> !slots[i].nextKeyEqual
  }

  ghost predicate Arranged(slots: seq<OrderedIterator>, num: nat, runs: Runs) {
    Numbered(slots, |runs|) && Loaded(slots, num, runs)
  }

  /** The first i slots are loaded, and those from num on belong to exhausted children. */
  ghost predicate LoadedPart(slots: seq<OrderedIterator>, i: nat, num: nat, runs: Runs) {
    && i <= num <= |slots| && (forall j :: 0 <= j < |slots| ==> slots[j].seqNo < |runs|)
    && (forall j :: 0 <= j < i ==> runs[slots[j].seqNo] != [] && slots[j].curr == Some(runs[slots[j].seqNo][0]))
    && (forall j :: num <= j < |slots| ==> runs[slots[j].seqNo] == [])
  }

  lemma NothingLoaded(slots: seq<OrderedIterator>, runs: Runs)
    requires Numbered(slots, |runs|)
    ensures LoadedPart(slots, 0, |slots|, runs)
  {
  }

  lemma AllLoaded(slots: seq<OrderedIterator>, num: nat, runs: Runs)
    requires Numbered(slots, |runs|) && LoadedPart(slots, num, num, runs)
    ensures Arranged(slots, num, runs)
  {
  }

  lemma SlotInRange(slots: seq<OrderedIterator>, i: nat, n: nat)
    requires Numbered(slots, n) && i < |slots|
    ensures slots[i].seqNo < n
  {
  }

  lemma HeadLoaded(slots: seq<OrderedIterator>, i: nat, num: nat, runs: Runs)
    requires Numbered(slots, |runs|) && Unmarked(slots) && LoadedPart(slots, i, num, runs) && i < num <= |slots|
    requires slots[i].seqNo < |runs| && runs[slots[i].seqNo] != []
    ensures var after := slots[i := slots[i].(curr := Some(runs[slots[i].seqNo][0]))];
      Numbered(after, |runs|) && Unmarked(after) && LoadedPart(after, i + 1, num, runs)
  {
    var after := slots[i := slots[i].(curr := Some(runs[slots[i].seqNo][0]))];
    ClearedNumbered(slots, after, |runs|);
  }

  ghost function Swapped(slots: seq<OrderedIterator>, i: nat, j: nat): seq<OrderedIterator>
    requires i < |slots| && j < |slots|
  {
    slots[i := slots[j]][j := slots[i]]
  }

  lemma SwappedNumbered(slots: seq<OrderedIterator>, i: nat, j: nat, n: nat)
    requires i < |slots| && j < |slots| && Numbered(slots, n)
    ensures Numbered(Swapped(slots, i, j), n)
  {
    var after := Swapped(slots, i, j);
    forall k | 0 <= k < n ensures HasSlot(after, k) {
      assert HasSlot(slots, k);
      var x :| 0 <= x < |slots| && slots[x].seqNo == k;
      assert after[if x == i then j else if x == j then i else x] == slots[x];
    }
  }

  lemma DeadSwapped(slots: seq<OrderedIterator>, i: nat, last: nat, runs: Runs)
    requires Numbered(slots, |runs|) && Unmarked(slots) && LoadedPart(slots, i, last + 1, runs) && i <= last < |slots|
    requires slots[i].seqNo < |runs| && runs[slots[i].seqNo] == []
    ensures var after := Swapped(slots, i, last);
      Numbered(after, |runs|) && Unmarked(after) && LoadedPart(after, i, last, runs)
  {
    SwappedNumbered(slots, i, last, |runs|);
  }

  lemma SwappedArranged(slots: seq<OrderedIterator>, num: nat, runs: Runs, i: nat, j: nat)
    requires Arranged(slots, num, runs) && Unmarked(slots) && i < num && j < num && num <= |slots|
    ensures Arranged(Swapped(slots, i, j), num, runs) && Unmarked(Swapped(slots, i, j))
  {
    SwappedNumbered(slots, i, j, |runs|);
  }

  lemma ArrangedLive(slots: seq<OrderedIterator>, num: nat, runs: Runs)
    requires Arranged(slots, num, runs)
    ensures Live(slots, 0, num)
  {
  }

  /** The first n slots are in order but for slot j, which is before those after it. */
  ghost predicate OrderedBut(cfg: DataConfig, slots: seq<OrderedIterator>, n: nat, j: nat)
    requires Live(slots, 0, n)
  {
    && (forall x, y :: 0 <= x < y < n && x != j && y != j ==> Before(cfg, slots[x], slots[y]))
    && (forall y :: j < y < n ==> Before(cfg, slots[j], slots[y]))
  }

  lemma SwappedDown(cfg: DataConfig, slots: seq<OrderedIterator>, n: nat, j: nat)
    requires 0 < j < n && Live(slots, 0, n) && OrderedBut(cfg, slots, n, j)
    requires BsearchComp(cfg, slots[j - 1], slots[j]) > 0
    ensures Live(Swapped(slots, j - 1, j), 0, n) && OrderedBut(cfg, Swapped(slots, j - 1, j), n, j - 1)
  {
    var i := j - 1;
    var after := Swapped(slots, i, j);
    assert forall x :: 0 <= x < n && x != i && x != j ==> after[x] == slots[x];
    assert after[i] == slots[j] && after[j] == slots[i];
  }

  lemma Sunk(cfg: DataConfig, slots: seq<OrderedIterator>, num: nat, runs: Runs, n: nat, j: nat)
    requires Arranged(slots, num, runs) && j < n <= num && Live(slots, 0, n) && OrderedBut(cfg, slots, n, j)
    requires j > 0 ==> BsearchComp(cfg, slots[j - 1], slots[j]) <= 0
    ensures InOrder(cfg, slots, 0, n)
  {
    forall x | 0 <= x < j ensures Before(cfg, slots[x], slots[j]) {
      var i := j - 1;
      assert slots[i].seqNo != slots[j].seqNo;
      if x < i {
        assert Before(cfg, slots[x], slots[i]);
      }
    }
  }

  ghost function Marked(cfg: DataConfig, slots: seq<OrderedIterator>, num: nat, i: nat): OrderedIterator
    requires Live(slots, 0, num) && i + 1 < num
  {
    slots[i].(nextKeyEqual := KeysEqual(cfg, slots[i], slots[i + 1]))
  }

  lemma MarkedReady(cfg: DataConfig, slots: seq<OrderedIterator>, num: nat, runs: Runs, after: seq<OrderedIterator>,
                    n: nat)
    requires RunsSorted(cfg, runs) && Arranged(slots, num, runs) && Unmarked(slots)
    requires Live(slots, 0, num) && InOrder(cfg, slots, 0, num)
    requires |after| == |slots| && n <= num <= n + 1 && (n == 0 || n < num)
    requires forall j :: 0 <= j < n ==> after[j] == Marked(cfg, slots, num, j)
    requires forall j :: n <= j < |slots| ==> after[j] == slots[j]
    ensures Ready(cfg, after, num, runs)
  {
    forall i | 0 <= i < |slots| ensures after[i].curr == slots[i].curr && after[i].seqNo == slots[i].seqNo {
    }
    ClearedNumbered(slots, after, |runs|);
    forall i | 0 <= i < num ensures BitExact(cfg, after, num, i) {
      assert i < n ==> after[i] == Marked(cfg, slots, num, i);
    }
  }

  // ------------------------------------------------------------- what a step did

  lemma LeastUnique(cfg: DataConfig, runs: Runs, k: nat, j: nat)
    requires LeastHead(cfg, runs, k) && LeastHead(cfg, runs, j)
    ensures k == j
  {
  }

  /** With the first bit set, the second slot holds the next copy of the same key and will come first. */
  lemma SecondIsNext(cfg: DataConfig, slots: seq<OrderedIterator>, num: nat, runs: Runs)
    requires Ready(cfg, slots, num, runs) && num > 0 && slots[0].nextKeyEqual
    ensures num > 1 && slots[0].seqNo < |runs| && runs[slots[0].seqNo] != []
    ensures slots[1].curr.Some? && cfg.rank(slots[1].curr.value.key) == HeadRank(cfg, slots)
    ensures var less := WithoutHead(runs, slots[0].seqNo); var second := slots[1].seqNo;
      LeastHead(cfg, less, second) && less[second][0] == slots[1].curr.value
  {
    assert BitExact(cfg, slots, num, 0) && Before(cfg, slots[0], slots[1]);
    var k, second := slots[0].seqNo, slots[1].seqNo;
    var less: Runs := WithoutHead(runs, k);
    forall j | 0 <= j < |less| && j != second && less[j] != [] ensures HeadBefore(cfg, less, second, j) {
      if j == k {
        assert StrictlySorted(cfg, runs[k]);
      } else {
        assert HasSlot(slots, j);
        var i :| 0 <= i < |slots| && slots[i].seqNo == j;
        assert Before(cfg, slots[1], slots[i]);
      }
    }
  }

  ghost predicate Above(floor: Option<real>, q: real) {
    floor.None? || floor.value < q
  }

  /** The two sets of runs have the same copies at every rank but r. */
  ghost predicate SameElsewhere(cfg: DataConfig, before: Runs, after: Runs, r: real) {
    forall q: real :: q != r ==> Copies(cfg, after, q) == Copies(cfg, before, q)
  }

  /** The runs have the same copies above the bound. */
  ghost predicate SameAbove(cfg: DataConfig, before: Runs, after: Runs, bound: real) {
    forall q: real :: bound < q ==> Copies(cfg, after, q) == Copies(cfg, before, q)
  }

  /** Between the bounds the runs have nothing to put out. */
  ghost predicate Silent(cfg: DataConfig, full: bool, runs: Runs, floor: Option<real>, ceiling: Option<real>) {
    forall q: real :: Above(floor, q) && (ceiling.None? || q < ceiling.value) ==>
      Emits(cfg, full, Copies(cfg, runs, q)) == []
  }

  lemma WithoutHeadElsewhere(cfg: DataConfig, runs: Runs, k: nat)
    requires k < |runs| && runs[k] != [] && RunsSorted(cfg, runs) && LeastHead(cfg, runs, k)
    ensures SameElsewhere(cfg, runs, WithoutHead(runs, k), cfg.rank(runs[k][0].key))
  {
    hide RunsSorted, LeastHead;
    forall q: real | q != cfg.rank(runs[k][0].key)
      ensures Copies(cfg, WithoutHead(runs, k), q) == Copies(cfg, runs, q)
    {
      TakeHead(cfg, runs, k, q);
    }
  }

  /** Once the lone first copy is gone, what is left lies above its rank. */
  lemma AfterLoneHead(cfg: DataConfig, slots: seq<OrderedIterator>, num: nat, runs: Runs,
                      slots': seq<OrderedIterator>, num': nat)
    requires Ready(cfg, slots, num, runs) && num > 0 && !slots[0].nextKeyEqual
    requires slots[0].seqNo < |runs| && runs[slots[0].seqNo] != []
    requires Ready(cfg, slots', num', WithoutHead(runs, slots[0].seqNo))
    ensures SameElsewhere(cfg, runs, WithoutHead(runs, slots[0].seqNo), HeadRank(cfg, slots))
    ensures num' > 0 ==> HeadRank(cfg, slots) < HeadRank(cfg, slots')
  {
    var k, r := slots[0].seqNo, HeadRank(cfg, slots);
    var less: Runs := WithoutHead(runs, k);
    HeadIsLeast(cfg, slots, num, runs);
    LoneHead(cfg, slots, num, runs);
    TakeHead(cfg, runs, k, r);
    WithoutHeadElsewhere(cfg, runs, k);
    if num' > 0 {
      var r' := HeadRank(cfg, slots');
      HeadIsLeast(cfg, slots', num', less);
      TakeHead(cfg, less, slots'[0].seqNo, r');
      if r' < r {
        NothingBelow(cfg, slots, num, runs, r');
      }
    }
  }
}
