/** The merge iterator run forwards (src/merge.c). */
module MergeIterators {
  import opened DataModel
  import opened MergeCopies
  import opened MergeOrder

  class MergeIterator {
    const cfg: DataConfig
    const finalizeUpdates: bool
    const emitDeletes: bool
    /** The places in order; `ordered[-1]` of the source is the pad, of which only the bit is ever written. */
    const ordered: array<OrderedIterator>
    var padKeyEqual: bool
    /** The child iterators by sequence number: what each has yet to give, its current tuple first. */
    const children: array<seq<Tuple>>
    var numRemaining: nat
    var canNext: bool
    var currKey: Option<Bytes>
    var currData: Option<Message>
    var mergeBuffer: Message
    var discardedDeletes: nat

    ghost predicate Valid()
      reads this, ordered, children
    {
      finalizeUpdates == !emitDeletes && Ready(cfg, ordered[..], numRemaining, children[..])
    }

    /** Valid, and the first slot holds the last copy of its key. */
    ghost predicate Positioned()
      reads this, ordered, children
    {
      Valid() && numRemaining > 0 && !ordered[0].nextKeyEqual
    }

    ghost function Rank(): real
      requires Valid() && numRemaining > 0
      reads this, ordered, children
    {
      HeadRank(cfg, ordered[..])
    }

    /** The current tuple, unless it was discarded. */
    function Current(discarded: bool): seq<Tuple>
      requires currKey.Some? && currData.Some?
      reads this
    {
      if discarded then [] else [Tuple(currKey.value, currData.value)]
    }

    // -------------------------------------------------------------- advancing

    method MoveFirstTo(index: nat)
      requires index < ordered.Length
      modifies ordered
      ensures ordered[..] == Rotated(old(ordered[..]), index)
    {
      ghost var slots := ordered[..];
      var first := ordered[0];
      ghost var rest := slots[1..];
      for i := 0 to index
        invariant forall j :: 0 <= j < i ==> ordered[j] == rest[j]
        invariant forall j :: i <= j < ordered.Length ==> ordered[j] == slots[j]
      {
        ordered[i] := ordered[i + 1];
      }
      ordered[index] := first;
    }

    /** Steps the first child and puts its slot back in order. */
    method AdvanceAndResortMinRitor()
      requires Valid() && numRemaining > 0
      modifies this`numRemaining, this`padKeyEqual, ordered, children
      ensures Valid()
      ensures old(children[..])[old(ordered[0].seqNo)] != []
      ensures children[..] == WithoutHead(old(children[..]), old(ordered[0].seqNo))
    {
      ghost var slots, num, runs: Runs := ordered[..], numRemaining, children[..];
      assert runs[slots[0].seqNo] != [];
      var k := ordered[0].seqNo;
      ordered[0] := ordered[0].(nextKeyEqual := false, curr := None);
      children[k] := children[k][1..];
      assert children[..] == WithoutHead(runs, k);
      if children[k] == [] {
        numRemaining := numRemaining - 1;
        assert ordered[..] == slots[0 := slots[0].(nextKeyEqual := false, curr := None)];
        MoveFirstTo(numRemaining);
        AfterExhausted(cfg, slots, num, runs);
        return;
      }
      ghost var t := runs[k][1];
      ordered[0] := ordered[0].(curr := Some(children[k][0]));
      Resort(slots, runs, t);
    }

    /** Puts the first slot, whose child has stepped to t, where it belongs; `slots` is the array as it was. */
    method Resort(ghost slots: seq<OrderedIterator>, ghost runs: Runs, ghost t: Tuple)
      requires Ready(cfg, slots, numRemaining, runs) && 0 < numRemaining <= |slots| == ordered.Length
      requires slots[0].seqNo < |runs| && |runs[slots[0].seqNo]| > 1 && t == runs[slots[0].seqNo][1]
      requires ordered[..] == slots[0 := slots[0].(nextKeyEqual := false, curr := Some(t))]
      modifies this`padKeyEqual, ordered
      ensures Ready(cfg, ordered[..], numRemaining, WithoutHead(runs, slots[0].seqNo))
    {
      hide Ready, Numbered, Loaded, InOrder, BitsExact, Before;
      ghost var key := slots[0].(nextKeyEqual := false, curr := Some(t));
      ReadyToSearch(cfg, slots, numRemaining, runs, key);
      ghost var prev, next, at: nat := false, false, 0;
      if numRemaining > 1 {
        var p, prevEqual, nextEqual := BsearchInsert(cfg, ordered[0], ordered, 1, numRemaining - 1);
        var index := 1 + p;
        prev, next, at := prevEqual, nextEqual, index;
        FoundBelongs(cfg, slots, numRemaining, key, index, prevEqual, nextEqual);
        if index != 0 {
          MoveFirstTo(index);
        }
        if index == 0 {
          padKeyEqual := prevEqual;
        } else {
          ordered[index - 1] := ordered[index - 1].(nextKeyEqual := prevEqual);
        }
        ordered[index] := ordered[index].(nextKeyEqual := nextEqual);
      }
      assert ordered[..] == Resorted(slots, t, at, prev, next);
      AfterResorted(cfg, slots, numRemaining, runs, t, at, prev, next);
    }

    // ---------------------------------------------------------------- merging

    /** Merges the next copy of the first key under what has been merged so far, and steps the copy before it. */
    method MergeNextCopy()
      requires Valid() && numRemaining > 0 && ordered[0].nextKeyEqual && currKey.Some?
      modifies this`numRemaining, this`padKeyEqual, this`currKey, this`mergeBuffer, ordered, children
      ensures Valid() && numRemaining > 0 && Rank() == old(Rank())
      ensures currKey == Some(ordered[0].curr.value.key)
      ensures mergeBuffer == MergeTuples(cfg, old(currKey.value), ordered[0].curr.value.msg, old(mergeBuffer))
      ensures old(Copies(cfg, children[..], Rank()))
           == [old(ordered[0].curr.value)] + Copies(cfg, children[..], Rank())
      ensures SameElsewhere(cfg, old(children[..]), children[..], Rank())
      ensures TotalLength(children[..]) < old(TotalLength(children[..]))
    {
      ghost var slots, num, runs: Runs := ordered[..], numRemaining, children[..];
      SecondIsNext(cfg, slots, num, runs);
      mergeBuffer := MergeTuples(cfg, currKey.value, ordered[1].curr.value.msg, mergeBuffer);
      currKey := Some(ordered[1].curr.value.key);
      AdvanceAndResortMinRitor();
      NextCopy(cfg, slots, num, runs, ordered[..], numRemaining);
      TotalDrops(runs, slots[0].seqNo);
    }

    /** Merges the copies of the first key into one message; the first slot is left at the oldest copy. */
    method MergeResolveEqualKeys()
      requires Valid() && numRemaining > 0 && ordered[0].nextKeyEqual
      requires currKey == Some(ordered[0].curr.value.key) && currData == Some(ordered[0].curr.value.msg)
      modifies this`numRemaining, this`padKeyEqual, this`currKey, this`currData, this`mergeBuffer, ordered, children
      ensures Positioned() && Rank() == old(Rank())
      ensures currKey.Some? && currData.Some? && old(Copies(cfg, children[..], Rank())) != []
      ensures Tuple(currKey.value, currData.value) == Fold(cfg, old(Copies(cfg, children[..], Rank())))
      ensures SameElsewhere(cfg, old(children[..]), children[..], Rank())
      ensures TotalLength(children[..]) <= old(TotalLength(children[..]))
    {
      hide Absorbed, Copies, TotalLength, SameElsewhere, Fold, Numbered, InOrder, BitsExact, RunsSorted;
      ghost var r, start := Rank(), children[..];
      mergeBuffer := currData.value;
      AbsorbFirst(cfg, start, r, ordered[0].curr.value);
      ghost var acc := [ordered[0].curr.value];
      var more := true;
      while more
        invariant Valid() && numRemaining > 0 && Rank() == r && more == ordered[0].nextKeyEqual
        invariant currKey == Some(ordered[0].curr.value.key)
        invariant Absorbed(cfg, start, children[..], r, acc, ordered[0].curr.value, mergeBuffer)
        decreases TotalLength(children[..])
      {
        ghost var runs: Runs, head, msg := children[..], ordered[0].curr.value, mergeBuffer;
        MergeNextCopy();
        AbsorbNext(cfg, start, runs, children[..], r, acc, head, msg, ordered[0].curr.value);
        acc := acc + [ordered[0].curr.value];
        more := ordered[0].nextKeyEqual;
      }
      LoneHead(cfg, ordered[..], numRemaining, children[..]);
      AbsorbedAll(cfg, start, children[..], r, acc, ordered[0].curr.value, mergeBuffer);
      currData := Some(mergeBuffer);
    }

    /** Finalises the current message if asked to, and tells whether it is a delete to be left out. */
    method MergeFinalizeUpdatesAndDiscardDeletes() returns (discarded: bool)
      requires currKey.Some? && currData.Some? && finalizeUpdates == !emitDeletes
      modifies this`currData, this`mergeBuffer, this`discardedDeletes
      ensures currData.Some?
      ensures Tuple(currKey.value, currData.value)
           == Finished(cfg, finalizeUpdates, Tuple(currKey.value, old(currData).value))
      ensures discarded <==> finalizeUpdates && currData.value.kind.Delete?
      ensures discardedDeletes == old(discardedDeletes) + if discarded then 1 else 0
    {
      var kind := currData.value.kind;
      if !kind.Insert? && finalizeUpdates {
        mergeBuffer := MergeTuplesFinal(cfg, currKey.value, currData.value);
        currData := Some(mergeBuffer);
        kind := currData.value.kind;
      }
      if kind.Delete? && !emitDeletes {
        discardedDeletes := discardedDeletes + 1;
        discarded := true;
      } else {
        discarded := false;
      }
    }

    /** Makes the first key current, with all its copies merged; asks for a retry when it comes to nothing. */
    method AdvanceOneLoop() returns (retry: bool)
      requires Valid()
      modifies this, ordered, children
      ensures Valid()
      ensures old(numRemaining) == 0 ==> numRemaining == 0 && !retry && !canNext
      ensures old(numRemaining) > 0 ==> Positioned() && canNext == old(canNext) && Rank() == old(Rank())
      ensures old(numRemaining) > 0 ==> SameElsewhere(cfg, old(children[..]), children[..], Rank())
      ensures old(numRemaining) > 0 ==> currKey.Some? && currData.Some?
      ensures old(numRemaining) > 0 ==>
        Emits(cfg, finalizeUpdates, old(Copies(cfg, children[..], Rank()))) == Current(retry)
      ensures TotalLength(children[..]) <= old(TotalLength(children[..]))
    {
      retry := false;
      if numRemaining == 0 {
        canNext := false;
        return;
      }
      currKey := Some(ordered[0].curr.value.key);
      currData := Some(ordered[0].curr.value.msg);
      if ordered[0].nextKeyEqual {
        MergeResolveEqualKeys();
      } else {
        LoneHead(cfg, ordered[..], numRemaining, children[..]);
      }
      retry := MergeFinalizeUpdatesAndDiscardDeletes();
    }

    // ---------------------------------------------------------------- stepping

    /** What callers see between calls. */
    ghost predicate Usable()
      reads this, ordered, children
    {
      && Valid() && (canNext <==> numRemaining > 0)
      && (canNext ==> Positioned() && currKey.Some? && currData.Some?)
    }

    ghost function Position(): Option<real>
      requires Usable()
      reads this, ordered, children
    {
      if canNext then Some(Rank()) else None
    }

    ghost function Output(): seq<Tuple>
      requires Usable()
      reads this, ordered, children
    {
      if canNext then Current(false) else []
    }

    /** Steps on until a key comes that is put out, or until the children are exhausted. */
    method MergeAdvanceHelper()
      requires Usable() && canNext
      modifies this, ordered, children
      ensures Usable() && TotalLength(children[..]) < old(TotalLength(children[..]))
      ensures Landed(cfg, finalizeUpdates, old(children[..]), Some(old(Rank())), children[..], Position(), Output())
    {
      hide Copies, TotalLength, SameElsewhere, SameAbove, Silent, SilentThrough, Numbered, InOrder, BitsExact;
      hide RunsSorted;
      ghost var start, floor := children[..], Some(Rank());
      SilentAtOnce(cfg, finalizeUpdates, start, Rank());
      var retry := true;
      while retry
        invariant Valid()
        invariant retry ==> canNext && Positioned() && floor.value <= Rank()
        invariant retry ==> SameAbove(cfg, start, children[..], Rank())
        invariant retry ==> SilentThrough(cfg, finalizeUpdates, start, floor, Rank())
        invariant !retry ==> Usable()
        invariant !retry ==> Landed(cfg, finalizeUpdates, start, floor, children[..], Position(), Output())
        invariant !retry ==> TotalLength(children[..]) < TotalLength(start)
        invariant TotalLength(children[..]) <= TotalLength(start)
        decreases TotalLength(children[..]), retry
      {
        currKey, currData := None, None;
        ghost var slots, num, runs: Runs := ordered[..], numRemaining, children[..];
        HeadIsLeast(cfg, slots, num, runs);
        AdvanceAndResortMinRitor();
        TotalDrops(runs, slots[0].seqNo);
        ghost var slots', num', runs' := ordered[..], numRemaining, children[..];
        Jump(cfg, finalizeUpdates, start, floor, slots, num, runs, slots', num', runs');
        retry := AdvanceOneLoop();
        if num' > 0 {
          Land(cfg, finalizeUpdates, start, floor, HeadRank(cfg, slots), Rank(), runs', children[..], Current(retry));
        }
      }
    }

    method MergeNext()
      requires Usable() && canNext
      modifies this, ordered, children
      ensures Usable() && TotalLength(children[..]) < old(TotalLength(children[..]))
      ensures Landed(cfg, finalizeUpdates, old(children[..]), Some(old(Rank())), children[..], Position(), Output())
    {
      MergeAdvanceHelper();
    }

    method MergeCurr() returns (key: Bytes, data: Message)
      requires Usable() && canNext
      ensures [Tuple(key, data)] == Output()
    {
      key, data := currKey.value, currData.value;
    }

    // ------------------------------------------------------------------- setup

    constructor (cfg: DataConfig, itors: Runs, full: bool)
      requires RunsSorted(cfg, itors)
      ensures Usable() && fresh(ordered) && fresh(children) && this.cfg == cfg && finalizeUpdates == full
      ensures Landed(cfg, full, itors, None, children[..], Position(), Output())
    {
      this.cfg := cfg;
      finalizeUpdates, emitDeletes := full, !full;
      ordered := new OrderedIterator[|itors|](i => OrderedIterator(i, None, false));
      children := new seq<Tuple>[|itors|](i requires 0 <= i < |itors| => itors[i]);
      padKeyEqual, discardedDeletes, mergeBuffer := false, 0, Message(Invalid, []);
      currKey, currData := None, None;
      new;
      assert children[..] == itors;
      forall k | 0 <= k < |itors| ensures HasSlot(ordered[..], k) {
        assert ordered[..][k].seqNo == k;
      }
      SetupOrderedIterators();
    }

    /** Puts the exhausted children last and loads the others' current tuples. */
    method MoveDeadToEnd()
      requires Numbered(ordered[..], children.Length) && Unmarked(ordered[..]) && RunsSorted(cfg, children[..])
      modifies this`numRemaining, this`canNext, ordered
      ensures Arranged(ordered[..], numRemaining, children[..]) && Unmarked(ordered[..])
      ensures canNext <==> numRemaining > 0
    {
      hide Numbered, LoadedPart, Unmarked;
      canNext := false;
      numRemaining := ordered.Length;
      var i: nat := 0;
      NothingLoaded(ordered[..], children[..]);
      while i < numRemaining
        invariant i <= numRemaining <= ordered.Length
        invariant Numbered(ordered[..], children.Length) && Unmarked(ordered[..])
        invariant LoadedPart(ordered[..], i, numRemaining, children[..])
        invariant canNext <==> i > 0
        decreases numRemaining - i
      {
        ghost var slots := ordered[..];
        SlotInRange(slots, i, children.Length);
        var k := ordered[i].seqNo;
        if children[k] != [] {
          canNext := true;
        }
        if children[k] == [] {
          var last := numRemaining - 1;
          ordered[last], ordered[i] := ordered[i], ordered[last];
          numRemaining := last;
          assert ordered[..] == Swapped(slots, i, last);
          DeadSwapped(slots, i, last, children[..]);
        } else {
          ordered[i] := ordered[i].(curr := Some(children[k][0]));
          assert ordered[..] == slots[i := ordered[i]];
          HeadLoaded(slots, i, numRemaining, children[..]);
          i := i + 1;
        }
      }
      AllLoaded(ordered[..], numRemaining, children[..]);
    }

    /** Stands for the library sort the source calls with its comparison. */
    method PlatformSortSlow()
      requires Arranged(ordered[..], numRemaining, children[..]) && Unmarked(ordered[..])
      modifies ordered
      ensures Arranged(ordered[..], numRemaining, children[..]) && Unmarked(ordered[..])
      ensures InOrder(cfg, ordered[..], 0, numRemaining)
    {
      hide Numbered, Loaded, Unmarked;
      for i := 0 to numRemaining
        invariant Arranged(ordered[..], numRemaining, children[..]) && Unmarked(ordered[..])
        invariant Live(ordered[..], 0, i) && InOrder(cfg, ordered[..], 0, i)
      {
        var j := i;
        ArrangedLive(ordered[..], numRemaining, children[..]);
        while j > 0 && BsearchComp(cfg, ordered[j - 1], ordered[j]) > 0
          invariant j <= i && Arranged(ordered[..], numRemaining, children[..]) && Unmarked(ordered[..])
          invariant Live(ordered[..], 0, numRemaining) && OrderedBut(cfg, ordered[..], i + 1, j)
        {
          ghost var slots := ordered[..];
          ordered[j - 1], ordered[j] := ordered[j], ordered[j - 1];
          assert ordered[..] == Swapped(slots, j - 1, j);
          SwappedArranged(slots, numRemaining, children[..], j - 1, j);
          SwappedDown(cfg, slots, i + 1, j);
          ArrangedLive(ordered[..], numRemaining, children[..]);
          j := j - 1;
        }
        Sunk(cfg, ordered[..], numRemaining, children[..], i + 1, j);
      }
      ArrangedLive(ordered[..], numRemaining, children[..]);
    }

    method SetNextKeyEqual()
      requires Arranged(ordered[..], numRemaining, children[..]) && Unmarked(ordered[..])
      requires Live(ordered[..], 0, numRemaining) && InOrder(cfg, ordered[..], 0, numRemaining)
      requires RunsSorted(cfg, children[..])
      modifies ordered
      ensures Ready(cfg, ordered[..], numRemaining, children[..])
    {
      hide InOrder, RunsSorted, Unmarked, Ready, KeysEqual;
      ghost var slots := ordered[..];
      ArrangedLive(slots, numRemaining, children[..]);
      var i: nat := 0;
      while i + 1 < numRemaining
        invariant i == 0 || i < numRemaining
        invariant |slots| == ordered.Length
        invariant forall j :: 0 <= j < i ==> ordered[j] == Marked(cfg, slots, numRemaining, j)
        invariant forall j :: i <= j < ordered.Length ==> ordered[j] == slots[j]
        decreases numRemaining - i
      {
        var next := i + 1;
        ordered[i] := ordered[i].(nextKeyEqual := KeysEqual(cfg, ordered[i], ordered[next]));
        i := next;
      }
      MarkedReady(cfg, slots, numRemaining, children[..], ordered[..], i);
    }

    method SetupOrderedIterators()
      requires Numbered(ordered[..], children.Length) && Unmarked(ordered[..]) && RunsSorted(cfg, children[..])
      requires finalizeUpdates == !emitDeletes
      modifies this, ordered, children
      ensures Usable()
      ensures Landed(cfg, finalizeUpdates, old(children[..]), None, children[..], Position(), Output())
    {
      hide Copies, TotalLength, SameElsewhere, SameAbove, Silent, SilentThrough, Numbered, InOrder, BitsExact;
      hide RunsSorted, Landed;
      ghost var start: Runs := children[..];
      MoveDeadToEnd();
      PlatformSortSlow();
      SetNextKeyEqual();
      ghost var slots, num := ordered[..], numRemaining;
      BeforeFirst(cfg, finalizeUpdates, slots, num, start);
      var retry := AdvanceOneLoop();
      if num > 0 {
        LandFirst(cfg, finalizeUpdates, start, Rank(), children[..], Current(retry));
      }
      if retry {
        ghost var r, runs: Runs := Rank(), children[..];
        MergeNext();
        LandedLater(cfg, finalizeUpdates, start, r, runs, children[..], Position(), Output());
      } else if num == 0 {
        LandedNowhere(cfg, finalizeUpdates, start, children[..], Output());
      }
    }
  }

  /** Stepping the newest of several copies brings the next one to the front. */
  lemma NextCopy(cfg: DataConfig, slots: seq<OrderedIterator>, num: nat, runs: Runs, slots': seq<OrderedIterator>,
                 num': nat)
    requires Ready(cfg, slots, num, runs) && num > 0 && slots[0].nextKeyEqual
    requires num > 1 && slots[0].seqNo < |runs| && runs[slots[0].seqNo] != [] && slots[1].curr.Some?
    requires Ready(cfg, slots', num', WithoutHead(runs, slots[0].seqNo))
    ensures num' > 0 && slots'[0].curr == slots[1].curr && HeadRank(cfg, slots') == HeadRank(cfg, slots)
    ensures var r := HeadRank(cfg, slots); var less := WithoutHead(runs, slots[0].seqNo);
      Copies(cfg, runs, r) == [slots[0].curr.value] + Copies(cfg, less, r) && SameElsewhere(cfg, runs, less, r)
  {
    var k, second := slots[0].seqNo, slots[1].seqNo;
    var less: Runs := WithoutHead(runs, k);
    HeadIsLeast(cfg, slots, num, runs);
    SecondIsNext(cfg, slots, num, runs);
    TakeHead(cfg, runs, k, HeadRank(cfg, slots));
    WithoutHeadElsewhere(cfg, runs, k);
    assert HasSlot(slots', second);
    HeadIsLeast(cfg, slots', num', less);
    LeastUnique(cfg, less, second, slots'[0].seqNo);
  }

  /** The copies in acc, down to `head`, are folded into head's key and msg; `now` still has head and what follows. */
  ghost predicate Absorbed(cfg: DataConfig, start: Runs, now: Runs, r: real, acc: seq<Tuple>, head: Tuple,
                           msg: Message) {
    && acc != [] && acc[|acc| - 1] == head && Fold(cfg, acc) == Tuple(head.key, msg)
    && acc[..|acc| - 1] + Copies(cfg, now, r) == Copies(cfg, start, r)
    && SameElsewhere(cfg, start, now, r) && TotalLength(now) <= TotalLength(start)
  }

  lemma AbsorbFirst(cfg: DataConfig, start: Runs, r: real, head: Tuple)
    ensures Absorbed(cfg, start, start, r, [head], head, head.msg)
  {
    hide Copies, TotalLength;
  }

  lemma AbsorbNext(cfg: DataConfig, start: Runs, now: Runs, now': Runs, r: real, acc: seq<Tuple>, head: Tuple,
                   msg: Message, head': Tuple)
    requires Absorbed(cfg, start, now, r, acc, head, msg)
    requires Copies(cfg, now, r) == [head] + Copies(cfg, now', r) && SameElsewhere(cfg, now, now', r)
    requires TotalLength(now') < TotalLength(now)
    ensures Absorbed(cfg, start, now', r, acc + [head'], head', MergeTuples(cfg, head.key, head'.msg, msg))
  {
    hide Copies, TotalLength;
    assert (acc + [head'])[..|acc|] == acc;
    assert acc == acc[..|acc| - 1] + [head];
  }

  lemma AbsorbedAll(cfg: DataConfig, start: Runs, now: Runs, r: real, acc: seq<Tuple>, head: Tuple, msg: Message)
    requires Absorbed(cfg, start, now, r, acc, head, msg) && Copies(cfg, now, r) == [head]
    ensures Copies(cfg, start, r) != [] && Fold(cfg, Copies(cfg, start, r)) == Tuple(head.key, msg)
    ensures SameElsewhere(cfg, start, now, r) && TotalLength(now) <= TotalLength(start)
  {
    hide Copies, TotalLength;
    assert acc[..|acc| - 1] + [head] == acc;
  }

  // ------------------------------------------------------------------ landing

  /** From the bound on, up to rank r itself, the runs put nothing out. */
  ghost predicate SilentThrough(cfg: DataConfig, full: bool, runs: Runs, floor: Option<real>, r: real) {
    forall q: real :: Above(floor, q) && q <= r ==> Emits(cfg, full, Copies(cfg, runs, q)) == []
  }

  /** The iterator has come to the first rank above the bound at which the runs put something out, which is `out`,
      or there is none. What lies above the rank is untouched. */
  ghost predicate Landed(cfg: DataConfig, full: bool, start: Runs, floor: Option<real>, now: Runs,
                         rank: Option<real>, out: seq<Tuple>) {
    && Silent(cfg, full, start, floor, rank)
    && (rank.Some? ==> Above(floor, rank.value) && SameAbove(cfg, start, now, rank.value))
    && (rank.Some? ==> |out| == 1 && out == Emits(cfg, full, Copies(cfg, start, rank.value)))
  }

  lemma SilentAtOnce(cfg: DataConfig, full: bool, runs: Runs, r: real)
    ensures SilentThrough(cfg, full, runs, Some(r), r) && SameAbove(cfg, runs, runs, r)
  {
  }

  /** Stepping off the lone first copy skips no rank that has copies. */
  lemma Jump(cfg: DataConfig, full: bool, start: Runs, floor: Option<real>, slots: seq<OrderedIterator>, num: nat,
             runs: Runs, slots': seq<OrderedIterator>, num': nat, runs': Runs)
    requires Ready(cfg, slots, num, runs) && num > 0 && !slots[0].nextKeyEqual && Ready(cfg, slots', num', runs')
    requires slots[0].seqNo < |runs| && runs[slots[0].seqNo] != [] && runs' == WithoutHead(runs, slots[0].seqNo)
    requires SameAbove(cfg, start, runs, HeadRank(cfg, slots))
    requires SilentThrough(cfg, full, start, floor, HeadRank(cfg, slots))
    ensures num' == 0 ==> Silent(cfg, full, start, floor, None)
    ensures num' > 0 ==> HeadRank(cfg, slots) < HeadRank(cfg, slots')
    ensures num' > 0 ==> Silent(cfg, full, start, floor, Some(HeadRank(cfg, slots')))
    ensures SameAbove(cfg, start, runs', HeadRank(cfg, slots))
  {
    var r := HeadRank(cfg, slots);
    AfterLoneHead(cfg, slots, num, runs, slots', num');
    hide Copies, Ready, Emits;
    assert SameAbove(cfg, start, runs', r);
    forall q: real | r < q && (num' > 0 ==> q < HeadRank(cfg, slots'))
      ensures Copies(cfg, start, q) == []
    {
      NothingBelow(cfg, slots', num', runs', q);
      assert Copies(cfg, runs', q) == Copies(cfg, start, q);
    }
    EmitsNothing(cfg, full);
  }

  lemma EmitsNothing(cfg: DataConfig, full: bool)
    ensures Emits(cfg, full, []) == []
  {
  }

  lemma Land(cfg: DataConfig, full: bool, start: Runs, floor: Option<real>, r: real, r': real, runs: Runs, now: Runs,
             out: seq<Tuple>)
    requires r < r' && Above(floor, r') && Silent(cfg, full, start, floor, Some(r')) && SameAbove(cfg, start, runs, r)
    requires SameElsewhere(cfg, runs, now, r') && Emits(cfg, full, Copies(cfg, runs, r')) == out && |out| <= 1
    ensures SameAbove(cfg, start, now, r')
    ensures out == [] ==> SilentThrough(cfg, full, start, floor, r')
    ensures out != [] ==> Landed(cfg, full, start, floor, now, Some(r'), out)
  {
    hide Copies, Emits;
    assert Copies(cfg, runs, r') == Copies(cfg, start, r');
    forall q: real | r' < q ensures Copies(cfg, now, q) == Copies(cfg, start, q) {
      assert Copies(cfg, runs, q) == Copies(cfg, start, q);
    }
  }

  lemma LandFirst(cfg: DataConfig, full: bool, start: Runs, r: real, now: Runs, out: seq<Tuple>)
    requires Silent(cfg, full, start, None, Some(r)) && SameElsewhere(cfg, start, now, r)
    requires Emits(cfg, full, Copies(cfg, start, r)) == out && |out| <= 1
    ensures SameAbove(cfg, start, now, r)
    ensures out == [] ==> SilentThrough(cfg, full, start, None, r)
    ensures out != [] ==> Landed(cfg, full, start, None, now, Some(r), out)
  {
    hide Copies, Emits;
  }

  lemma LandedLater(cfg: DataConfig, full: bool, start: Runs, r: real, runs: Runs, now: Runs, rank: Option<real>,
                    out: seq<Tuple>)
    requires SilentThrough(cfg, full, start, None, r) && SameAbove(cfg, start, runs, r)
    requires Landed(cfg, full, runs, Some(r), now, rank, out)
    ensures Landed(cfg, full, start, None, now, rank, out)
  {
    hide Copies, Emits;
    forall q: real | r < q ensures Copies(cfg, runs, q) == Copies(cfg, start, q) {
    }
  }

  lemma LandedNowhere(cfg: DataConfig, full: bool, start: Runs, now: Runs, out: seq<Tuple>)
    requires Silent(cfg, full, start, None, None)
    ensures Landed(cfg, full, start, None, now, None, out)
  {
  }

  lemma BeforeFirst(cfg: DataConfig, full: bool, slots: seq<OrderedIterator>, num: nat, runs: Runs)
    requires Ready(cfg, slots, num, runs) && (num > 0 ==> slots != [] && slots[0].curr.Some?)
    ensures Silent(cfg, full, runs, None, if num > 0 then Some(HeadRank(cfg, slots)) else None)
  {
    hide Copies, Ready, Emits;
    forall q: real | num > 0 ==> q < HeadRank(cfg, slots) ensures Copies(cfg, runs, q) == [] {
      NothingBelow(cfg, slots, num, runs, q);
    }
    EmitsNothing(cfg, full);
  }
}
