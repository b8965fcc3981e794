/** routing_filter_add (src/routing_filter.c): fingerprints are sorted, and every block of the old filter is
    unpacked, rewritten for the new sizes and merged with the new fingerprints of its range. */
module FilterAdd {
  import opened Bits
  import opened PackedArray
  import opened UnaryHeader
  import opened RadixSorting
  import opened RoutingFilter

  // -------------------------------------------- preparing the new fingerprints

  /** Each hash becomes an entry. */
  method MakeEntries(cfg: Config, arr: array<Word>, n: nat, vs: nat, value: nat)
    requires LegalConfig(cfg) && cfg.fingerprintSize + vs <= 32 && n <= arr.Length && value < Pow2(vs)
    modifies arr
    ensures forall i :: 0 <= i < n ==> arr[i] == Entry(Fingerprint(cfg, old(arr[i])), vs, value)
    ensures forall i :: n <= i < arr.Length ==> arr[i] == old(arr[i])
  {
    hide Entry, Fingerprint, Pow2, Shl, Or;
    for i := 0 to n
      invariant forall k :: 0 <= k < i ==> arr[k] == Entry(Fingerprint(cfg, old(arr[k])), vs, value)
      invariant forall k :: i <= k < arr.Length ==> arr[k] == old(arr[k])
    {
      MakeEntry(cfg, arr[i], vs, value);
      arr[i] := Shr(arr[i], 32 - cfg.fingerprintSize);
      arr[i] := Shl(arr[i], vs);
      arr[i] := Or(arr[i], value);
    }
  }

  lemma MakeEntry(cfg: Config, hash: Word, vs: nat, value: nat)
    requires LegalConfig(cfg) && cfg.fingerprintSize + vs <= 32 && value < Pow2(vs)
    ensures Shr(hash, 32 - cfg.fingerprintSize) == Fingerprint(cfg, hash) < B32
    ensures Or(Shl(Fingerprint(cfg, hash), vs), value) == Entry(Fingerprint(cfg, hash), vs, value)
    ensures Entry(Fingerprint(cfg, hash), vs, value) < Pow2(cfg.fingerprintSize + vs) <= B32
  {
    hide Pow2, Fingerprint, Or, Shl;
    var fp := Fingerprint(cfg, hash);
    assert fp == Shr(hash, 32 - cfg.fingerprintSize) by { FingerprintIs(cfg, hash); }
    FingerprintBound(cfg, hash);
    ShrBound(hash, 32 - cfg.fingerprintSize);
    ShiftedFits(fp, vs, cfg.fingerprintSize);
    OrLow(fp, vs, value);
    Pow2Of32();
    Pow2Add(cfg.fingerprintSize, vs);
    Pow2Monotone(cfg.fingerprintSize + vs, 32);
    EntryBound(fp, Pow2(cfg.fingerprintSize), Pow2(vs), value);
  }

  lemma FingerprintIs(cfg: Config, hash: Word)
    requires LegalConfig(cfg)
    ensures Fingerprint(cfg, hash) == Shr(hash, 32 - cfg.fingerprintSize)
  {
  }

  lemma EntryBound(fp: nat, m: nat, k: nat, v: nat)
    requires fp < m && v < k
    ensures fp * k + v < m * k
  {
    Times(k, fp + 1, m);
    assert (fp + 1) * k == fp * k + k;
  }

  /** s without the elements that repeat their left neighbour. */
  function Distinct(s: seq<Word>): (r: seq<Word>)
    ensures |r| <= |s| && (|s| > 0 ==> |r| > 0 && r[|r| - 1] == s[|s| - 1])
  {
    if |s| == 0 then []
    else
      var r := Distinct(s[..|s| - 1]);
      if |r| > 0 && r[|r| - 1] == s[|s| - 1] then r else r + [s[|s| - 1]]
  }

  lemma {:induction false} DistinctMembers(s: seq<Word>, x: Word)
    ensures x in Distinct(s) <==> x in s
  {
    if |s| > 0 {
      DistinctMembers(s[..|s| - 1], x);
      assert s == s[..|s| - 1] + [s[|s| - 1]];
    }
  }

  lemma {:induction false} DistinctIncreases(s: seq<Word>)
    requires SortedEntries(s)
    ensures forall i, k :: 0 <= i < k < |Distinct(s)| ==> Distinct(s)[i] < Distinct(s)[k]
  {
    if |s| > 0 {
      var s' := s[..|s| - 1];
      DistinctIncreases(s');
      var r := Distinct(s');
      forall i | 0 <= i < |r| ensures r[i] <= s[|s| - 1] {
        DistinctMembers(s', r[i]);
      }
    }
  }

  /** Equal neighbours of a sorted array are dropped in place. */
  method Dedupe(arr: array<Word>, n: nat) returns (m: nat)
    requires n <= arr.Length
    modifies arr
    ensures m <= n && arr[..m] == Distinct(old(arr[..n]))
  {
    hide Distinct;
    ghost var was := arr[..n];
    var dst := 0;
    NoneDistinct();
    for src := 0 to n
      invariant dst <= src && arr[..dst] == Distinct(was[..src])
      invariant forall i :: src <= i < n ==> arr[i] == was[i]
    {
      ghost var kept := arr[..dst];
      DistinctStep(was, src);
      arr[dst] := arr[src];
      assert arr[..dst] == kept && arr[..dst + 1] == kept + [was[src]];
      if dst == 0 || arr[dst] != arr[dst - 1] {
        dst := dst + 1;
      } else {
        assert kept[dst - 1] == was[src];
      }
    }
    assert was[..n] == was;
    m := dst;
  }

  lemma NoneDistinct()
    ensures Distinct([]) == []
  {
  }

  lemma DistinctStep(s: seq<Word>, i: nat)
    requires i < |s|
    ensures var r := Distinct(s[..i]);
      Distinct(s[..i + 1]) == if |r| > 0 && r[|r| - 1] == s[i] then r else r + [s[i]]
  {
    assert s[..i + 1][..i] == s[..i];
  }

  // --------------------------------------------------- counting by index

  function Indices(es: seq<Word>, shift: nat): (r: seq<nat>)
    ensures |r| == |es|
  {
    seq(|es|, k requires 0 <= k < |es| => Shr(es[k], shift))
  }

  /** How many entries belong to the indices before i. */
  function Cut(es: seq<Word>, shift: nat, i: int): (n: nat)
    ensures n <= |es|
  {
    CountUpTo(Indices(es, shift), i - 1)
  }

  lemma IndicesSorted(es: seq<Word>, shift: nat)
    requires SortedEntries(es)
    ensures NonDecreasing(Indices(es, shift))
  {
    forall i, k | 0 <= i < k < |es| ensures Shr(es[i], shift) <= Shr(es[k], shift) {
      DivMonotone(es[i], es[k], Pow2(shift));
    }
  }

  lemma DivMonotone(x: nat, y: nat, d: nat)
    requires x <= y && d > 0
    ensures x / d <= y / d
  {
    var p, q := x / d, y / d;
    assert x == d * p + x % d && y == d * q + y % d;
    if p > q {
      Times(d, q + 1, p);
    }
  }

  /** A cut separates the entries of smaller indices from the others. */
  lemma CutSplits(es: seq<Word>, shift: nat, i: int, k: nat)
    requires SortedEntries(es) && k < |es|
    ensures Shr(es[k], shift) < i <==> k < Cut(es, shift, i)
  {
    IndicesSorted(es, shift);
    CountSplits(Indices(es, shift), i - 1, k);
  }

  lemma CutIs(es: seq<Word>, shift: nat, i: int, n: nat)
    requires SortedEntries(es) && n <= |es|
    requires n > 0 ==> Shr(es[n - 1], shift) < i
    requires n < |es| ==> Shr(es[n], shift) >= i
    ensures n == Cut(es, shift, i)
  {
    hide Shr, Cut;
    if n > 0 {
      CutSplits(es, shift, i, n - 1);
    }
    if n < |es| {
      CutSplits(es, shift, i, n);
    }
  }

  /** Entry i of the counts is the number of fingerprints in index i. */
  ghost predicate Counted(counts: seq<nat>, es: seq<Word>, shift: nat) {
    forall i :: 0 <= i < |counts| ==> counts[i] == Cut(es, shift, i + 1) - Cut(es, shift, i)
  }

  /** index_count */
  method CountIndices(arr: array<Word>, m: nat, shift: nat, counts: array<nat>)
    requires m <= arr.Length && SortedEntries(arr[..m])
    requires forall k :: 0 <= k < m ==> Shr(arr[k], shift) < counts.Length
    modifies counts
    ensures Counted(counts[..], arr[..m], shift)
    ensures Cut(arr[..m], shift, 0) == 0 && Cut(arr[..m], shift, counts.Length) == m
  {
    hide Shr, Cut;
    ghost var es := arr[..m];
    var fpNo := 0;
    CutIs(es, shift, 0, 0);
    for i := 0 to counts.Length
      invariant fpNo == Cut(es, shift, i)
      invariant forall k :: 0 <= k < i ==> counts[k] == Cut(es, shift, k + 1) - Cut(es, shift, k)
    {
      var start := fpNo;
      if fpNo < m {
        CutSplits(es, shift, i, fpNo);
      }
      if fpNo > 0 {
        CutSplits(es, shift, i, fpNo - 1);
      }
      while fpNo < m && Shr(arr[fpNo], shift) == i
        invariant start <= fpNo <= m && (fpNo > 0 ==> Shr(es[fpNo - 1], shift) <= i)
        invariant fpNo < m ==> Shr(es[fpNo], shift) >= i
        invariant forall k :: 0 <= k < i ==> counts[k] == Cut(es, shift, k + 1) - Cut(es, shift, k)
      {
        NextIndex(es, shift, fpNo);
        fpNo := fpNo + 1;
      }
      CutIs(es, shift, i + 1, fpNo);
      counts[i] := fpNo - start;
    }
    if m > 0 {
      CutSplits(es, shift, counts.Length, m - 1);
    }
  }

  lemma NextIndex(es: seq<Word>, shift: nat, k: nat)
    requires SortedEntries(es) && k < |es|
    ensures k + 1 < |es| ==> Shr(es[k], shift) <= Shr(es[k + 1], shift)
  {
    hide Shr;
    IndicesSorted(es, shift);
    if k + 1 < |es| {
      assert Indices(es, shift)[k] <= Indices(es, shift)[k + 1];
    }
  }

  // ------------------------------------------------ unpacking an old block

  /** Putting the bucket back above the remainder and value. */
  lemma RestoreEntry(e: Word, rv: nat)
    ensures Bucket(e, rv) < B32
    ensures Or(Low(e, rv), Shl(Bucket(e, rv), rv)) == e
  {
    hide Pow2, Or;
    EntrySplits(e, rv);
    ShrBound(e, rv);
    ShiftBack(e, rv);
    OrComm(Low(e, rv), Shl(Bucket(e, rv), rv));
    OrLow(Shr(e, rv), rv, Low(e, rv));
  }

  lemma ShiftBack(e: Word, rv: nat)
    ensures Shl(Shr(e, rv), rv) == Shr(e, rv) * Pow2(rv)
  {
    EntrySplits(e, rv);
  }

  /** The buckets read off the header are or-ed back into the unpacked remainders. */
  method RestoreBuckets(buf: array<Word>, counts: array<nat>, first: nat, buckets: nat, rv: nat, b: Block,
                        ghost es: seq<Word>)
    requires BlockHolds(b, es, rv, first, buckets) && |es| <= buf.Length && 0 < buckets <= counts.Length
    requires forall k :: 0 <= k < |es| ==> buf[k] == Low(es[k], rv)
    requires buckets <= Ones(b.encoding)
    requires forall j :: 0 <= j < buckets ==> counts[j] == BucketEnd(b.encoding, j) - BucketStart(b.encoding, j)
    modifies buf
    ensures buf[..|es|] == es
  {
    hide BlockHolds, BucketStart, BucketEnd, Ones, Low, Bucket, Or, Shl;
    var no := 0;
    HeaderBegins(b, es, rv, first, buckets);
    for off := 0 to buckets
      invariant off < buckets ==> no == BucketStart(b.encoding, off)
      invariant off == buckets ==> no == |es|
      invariant no <= |es| && forall k :: 0 <= k < no ==> buf[k] == es[k]
      invariant forall k :: no <= k < |es| ==> buf[k] == Low(es[k], rv)
    {
      var bucket := first + off;
      BlockBounds(b, es, rv, first, buckets, off);
      HeaderMeets(b, es, rv, first, buckets, off);
      for i := 0 to counts[off]
        invariant no == BucketStart(b.encoding, off) + i
        invariant forall k :: 0 <= k < no ==> buf[k] == es[k]
        invariant forall k :: no <= k < |es| ==> buf[k] == Low(es[k], rv)
      {
        RestoreEntry(es[no], rv);
        buf[no] := Or(buf[no], Shl(bucket, rv));
        no := no + 1;
      }
    }
  }

  lemma HeaderBegins(b: Block, es: seq<Word>, rv: nat, first: nat, buckets: nat)
    requires BlockHolds(b, es, rv, first, buckets) && buckets > 0
    ensures 0 < Ones(b.encoding) && BucketStart(b.encoding, 0) == 0
  {
    hide Ones, IsHeader, Bucket;
    BlockBounds(b, es, rv, first, buckets, 0);
  }

  /** The last bucket ends with the last entry. */
  lemma HeaderMeets(b: Block, es: seq<Word>, rv: nat, first: nat, buckets: nat, j: nat)
    requires BlockHolds(b, es, rv, first, buckets) && j < buckets <= Ones(b.encoding)
    ensures j + 1 < buckets ==> BucketStart(b.encoding, j + 1) == BucketEnd(b.encoding, j)
    ensures j + 1 == buckets ==> BucketEnd(b.encoding, j) == |es|
  {
    hide Ones, Pos, BucketEnd, BucketStart, IsHeader;
    BucketsMeet(b.encoding, j);
    if j + 1 == buckets {
      var offs := Offsets(es, rv, first, buckets);
      assert IsHeader(b.encoding, offs, buckets);
      HeaderEnds(b.encoding, offs, buckets, j);
      AllUpTo(offs, j, b.encoding, buckets);
    }
  }

  lemma AllUpTo(offs: seq<nat>, j: nat, bs: seq<bool>, buckets: nat)
    requires IsHeader(bs, offs, buckets) && j + 1 == buckets
    ensures CountUpTo(offs, j) == |offs|
  {
    if |offs| > 0 {
      CountAll(offs, j);
    }
  }

  /** Entries with their values in vs bits instead of ovs. */
  function Widened(es: seq<Word>, ovs: nat, vs: nat): (r: seq<nat>)
    ensures |r| == |es|
  {
    seq(|es|, k requires 0 <= k < |es| => Entry(Shr(es[k], ovs), vs, Low(es[k], ovs)))
  }

  lemma WidenEntry(e: Word, ovs: nat, vs: nat, f: nat)
    requires e < Pow2(f + ovs) && ovs < vs && f + vs <= 32
    ensures And(e, Mask(ovs)) == Low(e, ovs) <= e && Shl(e - Low(e, ovs), vs - ovs) == Shr(e, ovs) * Pow2(vs)
    ensures Or(Shr(e, ovs) * Pow2(vs), Low(e, ovs)) == Entry(Shr(e, ovs), vs, Low(e, ovs)) < B32
  {
    hide Pow2, Or, And, Mask;
    AndMask(e, ovs);
    EntrySplits(e, ovs);
    Pow2Add(ovs, vs - ovs);
    assert (Shr(e, ovs) * Pow2(ovs)) * Pow2(vs - ovs) == Shr(e, ovs) * (Pow2(ovs) * Pow2(vs - ovs));
    assert f + ovs == ovs + f;
    ShrLess(e, ovs, f);
    Pow2Monotone(ovs, vs);
    Pow2Add(f, vs);
    Pow2Monotone(f + vs, 32);
    Pow2Of32();
    EntryBound(Shr(e, ovs), Pow2(f), Pow2(vs), Low(e, ovs));
    OrLow(Shr(e, ovs), vs, Low(e, ovs));
    ShlFits(e - Low(e, ovs), vs - ovs);
  }

  lemma ShlFits(x: nat, s: nat)
    requires x * Pow2(s) < B32
    ensures Shl(x, s) == x * Pow2(s)
  {
  }

  /** Making room for longer values. */
  method Widen(buf: array<Word>, n: nat, ovs: nat, vs: nat, ghost f: nat)
    requires n <= buf.Length && ovs < vs && f + vs <= 32 && forall k :: 0 <= k < n ==> buf[k] < Pow2(f + ovs)
    modifies buf
    ensures buf[..n] == Widened(old(buf[..n]), ovs, vs)
  {
    hide Entry, Shr, Low, Pow2, Or, And, Shl, Mask;
    ghost var was := buf[..n];
    for i := 0 to n
      invariant forall k :: 0 <= k < i ==> buf[k] == Entry(Shr(was[k], ovs), vs, Low(was[k], ovs))
      invariant forall k :: i <= k < n ==> buf[k] == was[k]
    {
      WidenEntry(buf[i], ovs, vs, f);
      var oldValue := And(buf[i], Mask(ovs));
      buf[i] := buf[i] - oldValue;
      buf[i] := Shl(buf[i], vs - ovs);
      buf[i] := Or(buf[i], oldValue);
    }
  }

  /** The old block's fingerprints, rewritten for the new value size. */
  method LoadOld(b: Block, ghost es: seq<Word>, orv: nat, ovs: nat, vs: nat, first: nat, buckets: nat,
                 counts: array<nat>, buf: array<Word>, ghost f: nat)
    returns (n: nat)
    requires BlockHolds(b, es, orv, first, buckets) && 0 < orv <= 32 && ovs <= vs && f + vs <= 32
    requires forall k :: 0 <= k < |es| ==> es[k] < Pow2(f + ovs)
    requires |es| <= buf.Length && buckets <= counts.Length && 0 < buckets
    modifies counts, buf
    ensures n == |es| && buf[..n] == Widened(es, ovs, vs)
  {
    hide Pow2, Widened, Low, Bucket, Ones, Pos, BucketStart, BucketEnd, Items, Shr, Entry, IsHeader, Offsets;
    n := b.numRemainders;
    BlockBounds(b, es, orv, first, buckets, buckets - 1);
    GetBucketCounts(b.encoding, counts, buckets);
    if n != 0 {
      Unpack(b.remainders, 0, buf, n, orv);
      forall k | 0 <= k < n ensures buf[k] == Low(es[k], orv) {
        assert buf[..n][k] == Items(b.remainders, orv, 0, |es|)[k];
      }
      RestoreBuckets(buf, counts, first, buckets, orv, b, es);
      if ovs != vs {
        forall k | 0 <= k < n ensures buf[k] < Pow2(f + ovs) {
          assert buf[..n][k] == es[k];
        }
        Widen(buf, n, ovs, vs, f);
      } else {
        SameWidth(es, vs);
      }
    } else {
      NoneWidened(es, ovs, vs);
    }
  }

  lemma SameWidth(es: seq<Word>, vs: nat)
    ensures Widened(es, vs, vs) == es
  {
    forall k | 0 <= k < |es| ensures Widened(es, vs, vs)[k] == es[k] {
      EntrySplits(es[k], vs);
    }
  }

  lemma NoneWidened(es: seq<Word>, ovs: nat, vs: nat)
    requires |es| == 0
    ensures Widened(es, ovs, vs) == []
  {
  }

  // ------------------------------------------------ merging one new index

  /** Header and remainders of the entries es, as they build up in the buffers. */
  ghost predicate Built(es: seq<Word>, enc: seq<bool>, dst: seq<Word>, rv: nat, first: nat, buckets: nat) {
    && SortedEntries(es) && InIndex(es, rv, first, buckets) && |es| <= |dst|
    && (forall k :: 0 <= k < |es| ==> dst[k] == Low(es[k], rv))
    && (forall p :: 0 <= p < |enc| ==> enc[p] == !ZeroAt(Offsets(es, rv, first, buckets), p))
  }

  /** The bucket of the last entry. */
  function LastBucket(es: seq<Word>, rv: nat, first: nat): nat {
    if |es| == 0 then first else Bucket(es[|es| - 1], rv)
  }

  lemma {:induction false} BuiltEmpty(enc: seq<bool>, dst: seq<Word>, rv: nat, first: nat, buckets: nat)
    requires forall p :: 0 <= p < |enc| ==> enc[p]
    ensures Built([], enc, dst, rv, first, buckets)
  {
    assert |Offsets([], rv, first, buckets)| == 0;
  }

  lemma BuiltStep(es: seq<Word>, enc: seq<bool>, dst: seq<Word>, rv: nat, first: nat, buckets: nat, x: Word)
    requires Built(es, enc, dst, rv, first, buckets) && |es| < |dst| && |es| + buckets <= |enc|
    requires |es| > 0 ==> es[|es| - 1] <= x
    requires first <= Bucket(x, rv) < first + buckets
    ensures Bucket(x, rv) >= LastBucket(es, rv, first) >= first && Low(x, rv) < B32
    ensures Built(es + [x], enc[Bucket(x, rv) - first + |es| := false], dst[|es| := Low(x, rv)], rv, first, buckets)
  {
    hide Bucket, Low, ZeroAt;
    if |es| > 0 {
      DivMonotone(es[|es| - 1], x, Pow2(rv));
      BucketIs(es[|es| - 1], rv);
      BucketIs(x, rv);
    }
    LowBound(x, rv);
    var es' := es + [x];
    var offs, offs' := Offsets(es, rv, first, buckets), Offsets(es', rv, first, buckets);
    assert offs' == offs + [Bucket(x, rv) - first];
    forall p | 0 <= p < |enc|
      ensures ZeroAt(offs', p) == (ZeroAt(offs, p) || p == Bucket(x, rv) - first + |es|)
    {
      ZeroAdded(offs, Bucket(x, rv) - first, p);
    }
  }

  lemma BucketIs(x: nat, rv: nat)
    ensures Bucket(x, rv) == x / Pow2(rv)
  {
  }

  lemma LowBound(x: Word, rv: nat)
    ensures Low(x, rv) <= x
  {
    EntrySplits(x, rv);
  }

  lemma ZeroAdded(offs: seq<nat>, o: nat, p: nat)
    ensures ZeroAt(offs + [o], p) == (ZeroAt(offs, p) || p == o + |offs|)
  {
    if ZeroAt(offs, p) {
      var k :| 0 <= k < |offs| && offs[k] + k == p;
      assert (offs + [o])[k] + k == p;
    }
    if p == o + |offs| {
      assert (offs + [o])[|offs|] + |offs| == p;
    }
  }

  /** What the merge has taken so far: entries a of the old block and b of the new fingerprints. */
  ghost predicate Merged(es: seq<Word>, olds: seq<Word>, news: seq<Word>, a: nat, b: nat) {
    && a <= |olds| && b <= |news| && |es| == a + b
    && (forall x :: x in es <==> x in olds[..a] || x in news[..b])
    && (|es| > 0 && a < |olds| ==> es[|es| - 1] <= olds[a])
    && (|es| > 0 && b < |news| ==> es[|es| - 1] <= news[b])
  }

  lemma MergedOld(es: seq<Word>, olds: seq<Word>, news: seq<Word>, a: nat, b: nat)
    requires Merged(es, olds, news, a, b) && SortedEntries(olds) && a < |olds| && (b < |news| ==> olds[a] <= news[b])
    ensures Merged(es + [olds[a]], olds, news, a + 1, b) && (|es| > 0 ==> es[|es| - 1] <= olds[a])
  {
    assert olds[..a + 1] == olds[..a] + [olds[a]];
  }

  lemma MergedNew(es: seq<Word>, olds: seq<Word>, news: seq<Word>, a: nat, b: nat)
    requires Merged(es, olds, news, a, b) && SortedEntries(news) && b < |news| && (a < |olds| ==> news[b] < olds[a])
    ensures Merged(es + [news[b]], olds, news, a, b + 1) && (|es| > 0 ==> es[|es| - 1] <= news[b])
  {
    assert news[..b + 1] == news[..b] + [news[b]];
  }

  /** The inner loop of routing_filter_add: old and new entries of one index, merged. It stops at the first old
      entry of a later index. */
  method MergeIndex(oldFp: array<Word>, oldN: nat, oldStart: nat, newFp: array<Word>, newStart: nat, newCount: nat,
                    first: nat, buckets: nat, rv: nat, enc: array<bool>, dst: array<Word>)
    returns (oldAdded: nat, added: nat, ghost es: seq<Word>)
    requires oldStart <= oldN <= oldFp.Length && newStart + newCount <= newFp.Length
    requires SortedEntries(oldFp[oldStart..oldN]) && SortedEntries(newFp[newStart..newStart + newCount])
    requires forall k :: oldStart <= k < oldN ==> first <= Bucket(oldFp[k], rv)
    requires InIndex(newFp[newStart..newStart + newCount], rv, first, buckets)
    requires oldFp != dst && newFp != dst && forall p :: 0 <= p < enc.Length ==> enc[p]
    requires oldN - oldStart + newCount <= dst.Length && oldN - oldStart + newCount + buckets <= enc.Length
    modifies enc, dst
    ensures oldStart <= oldAdded <= oldN && added == |es| == oldAdded - oldStart + newCount
    ensures Built(es, enc[..], dst[..], rv, first, buckets)
    ensures forall x :: x in es <==> x in oldFp[oldStart..oldAdded] || x in newFp[newStart..newStart + newCount]
    ensures oldAdded < oldN ==> Bucket(oldFp[oldAdded], rv) >= first + buckets
  {
    hide Bucket, Low, Built, Merged, ZeroAt;
    ghost var olds, news := oldFp[oldStart..oldN], newFp[newStart..newStart + newCount];
    BuiltEmpty(enc[..], dst[..], rv, first, buckets);
    MergedNone(olds, news);
    es := [];
    var lastBucket, headerBit, newAdded := first, 0, 0;
    oldAdded, added := oldStart, 0;
    while newAdded < newCount || oldAdded < oldN
      invariant oldStart <= oldAdded <= oldN && newAdded <= newCount && added == |es| == oldAdded - oldStart + newAdded
      invariant oldFp[oldStart..oldN] == olds && newFp[newStart..newStart + newCount] == news
      invariant Built(es, enc[..], dst[..], rv, first, buckets) && Merged(es, olds, news, oldAdded - oldStart, newAdded)
      invariant lastBucket == LastBucket(es, rv, first) && headerBit == lastBucket - first + added
      decreases oldN - oldAdded + (newCount - newAdded)
    {
      ghost var a, b := oldAdded - oldStart, newAdded;
      assert oldAdded < oldN ==> oldFp[oldAdded] == olds[a];
      assert newAdded < newCount ==> newFp[newStart + newAdded] == news[b];
      var isOld := newAdded == newCount || (oldAdded != oldN && oldFp[oldAdded] <= newFp[newStart + newAdded]);
      var fp;
      if isOld {
        fp := oldFp[oldAdded];
        oldAdded := oldAdded + 1;
      } else {
        fp := newFp[newStart + newAdded];
        newAdded := newAdded + 1;
      }
      var bucket := Bucket(fp, rv);
      if bucket >= first + buckets {
        if b < newCount {
          NewInIndex(news, rv, first, buckets, b, fp);
        }
        assert isOld && newAdded == newCount;
        oldAdded := oldAdded - 1;
        break;
      }
      if isOld {
        MergedOld(es, olds, news, a, b);
      } else {
        MergedNew(es, olds, news, a, b);
        NewInIndex(news, rv, first, buckets, b, fp);
      }
      BuiltStep(es, enc[..], dst[..], rv, first, buckets, fp);
      headerBit := headerBit + (bucket - lastBucket);
      lastBucket := bucket;
      enc[headerBit] := false;
      headerBit := headerBit + 1;
      dst[added] := Low(fp, rv);
      added := added + 1;
      es := es + [fp];
    }
    MergeDone(es, olds, news, oldAdded - oldStart);
    assert olds[..oldAdded - oldStart] == oldFp[oldStart..oldAdded];
  }

  lemma MergedNone(olds: seq<Word>, news: seq<Word>)
    ensures Merged([], olds, news, 0, 0)
  {
  }

  lemma MergeDone(es: seq<Word>, olds: seq<Word>, news: seq<Word>, a: nat)
    requires Merged(es, olds, news, a, |news|)
    ensures forall x :: x in es <==> x in olds[..a] || x in news
  {
    assert news[..|news|] == news;
  }

  /** A bucket past the index cannot come before a new fingerprint. */
  lemma NewInIndex(news: seq<Word>, rv: nat, first: nat, buckets: nat, b: nat, fp: Word)
    requires InIndex(news, rv, first, buckets) && b < |news|
    ensures first <= Bucket(news[b], rv) < first + buckets
    ensures fp <= news[b] ==> Bucket(fp, rv) < first + buckets
  {
    if fp <= news[b] {
      DivMonotone(fp, news[b], Pow2(rv));
    }
  }

  /** Writing a block out and clearing the header buffer for the next one. */
  method WriteBlock(enc: array<bool>, dst: array<Word>, added: nat, rv: nat, ghost first: nat, buckets: nat,
                    ghost es: seq<Word>)
    returns (b: Block)
    requires Built(es, enc[..], dst[..], rv, first, buckets) && added == |es| && 0 < rv <= 32 && 0 < buckets
    requires added + buckets + 64 <= enc.Length && added <= dst.Length
    requires forall k :: 0 <= k < added ==> Low(es[k], rv) < Pow2(rv)
    modifies enc
    ensures BlockHolds(b, es, rv, first, buckets) && forall p :: 0 <= p < enc.Length ==> enc[p]
  {
    hide Low, Pow2, ZeroAt, Bucket, IsHeader, Items, Built, BlockHolds;
    var encodingSize := (added + buckets - 1) / 8 + 4;
    var len := 8 * encodingSize;
    var pad := 64 - len % 64;
    assert |seq(pad, i => true)| == pad;
    var tail: seq<bool> :| |tail| == pad;
    var encoding := enc[..len] + tail;
    HeaderWritten(es, enc[..], encoding, dst[..], rv, first, buckets, len);
    BuiltWords(es, enc[..], dst[..], rv, first, buckets);
    for p := 0 to len
      invariant forall q :: 0 <= q < p ==> enc[q]
      invariant forall q :: len <= q < enc.Length ==> enc[q]
    {
      enc[p] := true;
    }
    var remainders := PackBlock(dst, added, rv);
    b := Block(added, encoding, remainders);
    BlockWritten(es, b, dst[..added], rv, first, buckets);
  }

  lemma BuiltWords(es: seq<Word>, enc: seq<bool>, dst: seq<Word>, rv: nat, first: nat, buckets: nat)
    requires Built(es, enc, dst, rv, first, buckets)
    ensures SortedEntries(es) && InIndex(es, rv, first, buckets) && |es| <= |dst|
    ensures forall k :: 0 <= k < |es| ==> dst[k] == Low(es[k], rv)
  {
  }

  lemma BlockWritten(es: seq<Word>, b: Block, items: seq<Word>, rv: nat, first: nat, buckets: nat)
    requires SortedEntries(es) && InIndex(es, rv, first, buckets) && b.numRemainders == |es| == |items|
    requires forall k :: 0 <= k < |es| ==> items[k] == Low(es[k], rv)
    requires |b.encoding| % 64 == 0 && |b.encoding| > 0
    requires IsHeader(b.encoding, Offsets(es, rv, first, buckets), buckets)
    requires |es| * rv <= 32 * |b.remainders| && Items(b.remainders, rv, 0, |es|) == items
    ensures BlockHolds(b, es, rv, first, buckets)
  {
    hide Low, Items, IsHeader, Bucket, SortedEntries, InIndex;
  }

  /** The remainder block of the first `added` words of the buffer. */
  method PackBlock(dst: array<Word>, added: nat, rv: nat) returns (remainders: seq<Word>)
    requires 0 < rv <= 32 && added <= dst.Length && forall k :: 0 <= k < added ==> dst[k] < Pow2(rv)
    ensures added * rv <= 32 * |remainders| && Items(remainders, rv, 0, added) == dst[..added]
  {
    hide Pow2, Items, PackedBit, BitAt;
    if added == 0 {
      remainders := [];
      NoItems(rv);
      assert dst[..0] == [];
    } else {
      Times(rv, 1, added);
      var words := new Word[(added * rv - 1) / 32 + 1];
      ghost var was := words[..];
      Pack(words, 0, dst, added, rv);
      remainders := words[..];
      PackedItems(was, remainders, rv, dst[..added]);
    }
  }

  lemma NoItems(rv: nat)
    ensures Items([], rv, 0, 0) == []
  {
  }

  lemma PackedItems(was: seq<Word>, words: seq<Word>, rv: nat, items: seq<Word>)
    requires 0 < rv <= 32 && |words| == |was| && (0 + |items|) * rv <= 32 * |words|
    requires forall k :: 0 <= k < |items| ==> items[k] < Pow2(rv)
    requires forall k :: 0 <= k < 32 * |words| ==> BitAt(words, k) == PackedBit(was, rv, 0, items, k)
    ensures Items(words, rv, 0, |items|) == items
  {
    hide Pow2, PackedBit, BitAt, ItemAt;
    forall k | 0 <= k < |items| ensures Items(words, rv, 0, |items|)[k] == items[k] {
      ItemEnds(rv, 0 + k, 0 + |items|, 32 * |words|);
      PackedItem(was, words, rv, 0, items, k);
    }
  }

  /** The copied bytes contain the whole header, and only they were cleared. */
  lemma HeaderWritten(es: seq<Word>, enc: seq<bool>, encoding: seq<bool>, dst: seq<Word>, rv: nat, first: nat,
                      buckets: nat, len: nat)
    requires Built(es, enc, dst, rv, first, buckets) && |es| + buckets <= len <= |enc|
    requires len <= |encoding| && encoding[..len] == enc[..len]
    ensures IsHeader(encoding, Offsets(es, rv, first, buckets), buckets)
    ensures forall p :: len <= p < |enc| ==> enc[p]
  {
    hide Bucket;
    var offs := Offsets(es, rv, first, buckets);
    forall i, k | 0 <= i < k < |offs| ensures offs[i] <= offs[k] {
      BucketIs(es[i], rv);
      BucketIs(es[k], rv);
      DivMonotone(es[i], es[k], Pow2(rv));
    }
    forall p | 0 <= p < |es| + buckets ensures encoding[p] == !ZeroAt(offs, p) {
      assert encoding[..len][p] == enc[..len][p];
    }
  }

  // ----------------------------------------------------- one old index's share

  ghost function Elements(es: seq<Word>): set<Word> { set x | x in es }

  ghost function AllElements(lists: seq<seq<Word>>): set<Word> {
    if |lists| == 0 then {} else AllElements(lists[..|lists| - 1]) + Elements(lists[|lists| - 1])
  }

  lemma ElementsSplit(es: seq<Word>, i: nat, j: nat, k: nat)
    requires i <= j <= k <= |es|
    ensures Elements(es[i..k]) == Elements(es[i..j]) + Elements(es[j..k])
  {
    assert es[i..k] == es[i..j] + es[j..k];
  }

  lemma BucketInIndex(x: Word, rv: nat, l: nat, i: nat)
    ensures Shr(x, rv + l) == i <==> i * Pow2(l) <= Bucket(x, rv) < i * Pow2(l) + Pow2(l)
    ensures Shr(x, rv + l) >= i <==> i * Pow2(l) <= Bucket(x, rv)
  {
    hide Pow2;
    IndexOfBucket(x, rv, l);
    EntrySplits(Bucket(x, rv), l);
    var q := Shr(x, rv + l);
    if q < i {
      Times(Pow2(l), q + 1, i);
      assert (q + 1) * Pow2(l) == q * Pow2(l) + Pow2(l);
    } else {
      Times(Pow2(l), i, q);
      if q > i {
        Times(Pow2(l), i + 1, q);
        assert (i + 1) * Pow2(l) == i * Pow2(l) + Pow2(l);
      }
    }
  }

  /** The blocks written hold the lists, from index `first` on. */
  ghost predicate BlocksHold(blocks: seq<Block>, lists: seq<seq<Word>>, rv: nat, l: nat, first: nat, limit: nat) {
    && |blocks| == |lists|
    && forall i :: 0 <= i < |lists| ==> OneHolds(blocks[i], lists[i], rv, l, first + i, limit)
  }

  ghost predicate OneHolds(b: Block, es: seq<Word>, rv: nat, l: nat, i: nat, limit: nat) {
    |es| <= limit && BlockHolds(b, es, rv, i * Pow2(l), Pow2(l))
  }

  lemma CountAt(counts: seq<nat>, es: seq<Word>, shift: nat, i: nat)
    requires Counted(counts, es, shift) && i < |counts|
    ensures counts[i] == Cut(es, shift, i + 1) - Cut(es, shift, i)
  {
  }

  lemma SliceOfPrefix(a: array<Word>, m: nat, lo: nat, hi: nat)
    requires lo <= hi <= m <= a.Length
    ensures a[..m][lo..hi] == a[lo..hi]
  {
  }

  /** The new blocks whose range one old block covered. */
  method AddRange(oldFp: array<Word>, oldN: nat, fpArr: array<Word>, m: nat, indexCount: array<nat>, first: nat,
                  ratio: nat, rv: nat, l: nat, start: nat, enc: array<bool>, dst: array<Word>, ghost limit: nat)
    returns (blocks: seq<Block>, fpNo: nat, ghost lists: seq<seq<Word>>)
    requires oldN <= oldFp.Length && m <= fpArr.Length && oldN + m <= limit && 0 < rv <= 32
    requires SortedEntries(oldFp[..oldN]) && SortedEntries(fpArr[..m])
    requires forall k :: 0 <= k < oldN ==> first <= Shr(oldFp[k], rv + l) < first + ratio
    requires first + ratio <= indexCount.Length && start == Cut(fpArr[..m], rv + l, first)
    requires Counted(indexCount[..], fpArr[..m], rv + l)
    requires oldFp != dst && fpArr != dst && limit <= dst.Length && limit + Pow2(l) + 64 <= enc.Length
    requires forall p :: 0 <= p < enc.Length ==> enc[p]
    modifies enc, dst
    ensures |lists| == ratio && BlocksHold(blocks, lists, rv, l, first, limit)
    ensures start <= fpNo == Cut(fpArr[..m], rv + l, first + ratio) && fpNo <= m
    ensures AllElements(lists) == Elements(oldFp[..oldN]) + Elements(fpArr[start..fpNo])
    ensures forall p :: 0 <= p < enc.Length ==> enc[p]
  {
    hide Shr, Pow2, Bucket, Cut, Counted, Built, BlockHolds, SortedEntries, Elements, AllElements, Low, InIndex;
    ghost var counts := indexCount[..];
    ghost var olds, news := oldFp[..oldN], fpArr[..m];
    blocks, lists, fpNo := [], [], start;
    var oldAdded := 0;
    NoElements(olds, news, start);
    for off := 0 to ratio
      invariant |lists| == off && BlocksHold(blocks, lists, rv, l, first, limit)
      invariant start <= fpNo == Cut(news, rv + l, first + off) && oldAdded <= oldN
      invariant forall k :: oldAdded <= k < oldN ==> first + off <= Shr(olds[k], rv + l)
      invariant AllElements(lists) == Elements(olds[..oldAdded]) + Elements(news[start..fpNo])
      invariant forall p :: 0 <= p < enc.Length ==> enc[p]
      invariant oldFp[..oldN] == olds && fpArr[..m] == news && indexCount[..] == counts
    {
      var indexNo := first + off;
      var count := indexCount[indexNo];
      CountAt(counts, news, rv + l, indexNo);
      RangeReady(olds, news, oldAdded, fpNo, count, rv, l, indexNo);
      assert oldFp[oldAdded..oldN] == olds[oldAdded..];
      SliceOfPrefix(fpArr, m, fpNo, fpNo + count);
      assert forall k :: oldAdded <= k < oldN ==> oldFp[k] == olds[k];
      ghost var was := oldAdded;
      var added;
      ghost var es;
      oldAdded, added, es := MergeIndex(oldFp, oldN, oldAdded, fpArr, fpNo, count, indexNo * Pow2(l), Pow2(l), rv,
                                        enc, dst);
      LowFits(es, rv);
      var block := WriteBlock(enc, dst, added, rv, indexNo * Pow2(l), Pow2(l), es);
      assert oldFp[was..oldAdded] == olds[was..oldAdded];
      RangeGrown(olds, news, lists, es, was, oldAdded, start, fpNo, fpNo + count, rv, l, indexNo);
      blocks, lists := blocks + [block], lists + [es];
      fpNo := fpNo + count;
    }
    RangeDone(olds, oldAdded, rv, l, first + ratio);
    assert news[start..fpNo] == fpArr[start..fpNo];
  }

  lemma NoElements(olds: seq<Word>, news: seq<Word>, start: nat)
    requires start <= |news|
    ensures AllElements([]) == Elements(olds[..0]) + Elements(news[start..start])
  {
  }

  lemma LowFits(es: seq<Word>, rv: nat)
    ensures forall k :: 0 <= k < |es| ==> Low(es[k], rv) < Pow2(rv)
  {
    forall k | 0 <= k < |es| ensures Low(es[k], rv) < Pow2(rv) {
      EntrySplits(es[k], rv);
    }
  }

  lemma SortedSlice(es: seq<Word>, i: nat, j: nat)
    requires SortedEntries(es) && i <= j <= |es|
    ensures SortedEntries(es[i..j])
  {
  }

  /** What MergeIndex needs at the start of an index. */
  lemma RangeReady(olds: seq<Word>, news: seq<Word>, oldAdded: nat, fpNo: nat, count: nat, rv: nat, l: nat, i: nat)
    requires SortedEntries(olds) && SortedEntries(news) && oldAdded <= |olds|
    requires fpNo == Cut(news, rv + l, i) && count == Cut(news, rv + l, i + 1) - fpNo
    requires forall k :: oldAdded <= k < |olds| ==> i <= Shr(olds[k], rv + l)
    ensures SortedEntries(olds[oldAdded..]) && fpNo + count <= |news| && SortedEntries(news[fpNo..fpNo + count])
    ensures forall k :: oldAdded <= k < |olds| ==> i * Pow2(l) <= Bucket(olds[k], rv)
    ensures InIndex(news[fpNo..fpNo + count], rv, i * Pow2(l), Pow2(l))
  {
    hide Shr, Pow2, Bucket, Cut, SortedEntries;
    SortedSlice(olds, oldAdded, |olds|);
    assert olds[oldAdded..|olds|] == olds[oldAdded..];
    SortedSlice(news, fpNo, fpNo + count);
    forall k | oldAdded <= k < |olds| ensures i * Pow2(l) <= Bucket(olds[k], rv) {
      BucketInIndex(olds[k], rv, l, i);
    }
    var slice := news[fpNo..fpNo + count];
    forall k | 0 <= k < |slice| ensures i * Pow2(l) <= Bucket(slice[k], rv) < i * Pow2(l) + Pow2(l) {
      CutSplits(news, rv + l, i, fpNo + k);
      CutSplits(news, rv + l, i + 1, fpNo + k);
      BucketInIndex(news[fpNo + k], rv, l, i);
    }
  }

  /** What one index adds. */
  lemma RangeGrown(olds: seq<Word>, news: seq<Word>, lists: seq<seq<Word>>, es: seq<Word>, was: nat, oldAdded: nat,
                   start: nat, fpNo: nat, fpNo': nat, rv: nat, l: nat, i: nat)
    requires was <= oldAdded <= |olds| && start <= fpNo <= fpNo' <= |news| && SortedEntries(olds)
    requires AllElements(lists) == Elements(olds[..was]) + Elements(news[start..fpNo])
    requires forall x :: x in es <==> x in olds[was..oldAdded] || x in news[fpNo..fpNo']
    requires oldAdded < |olds| ==> Bucket(olds[oldAdded], rv) >= i * Pow2(l) + Pow2(l)
    ensures AllElements(lists + [es]) == Elements(olds[..oldAdded]) + Elements(news[start..fpNo'])
    ensures forall k :: oldAdded <= k < |olds| ==> i + 1 <= Shr(olds[k], rv + l)
  {
    hide Shr, Pow2, Bucket;
    ElementsSplit(olds, 0, was, oldAdded);
    ElementsSplit(news, start, fpNo, fpNo');
    assert olds[0..was] == olds[..was] && olds[0..oldAdded] == olds[..oldAdded];
    assert (lists + [es])[..|lists|] == lists;
    assert Elements(es) == Elements(olds[was..oldAdded]) + Elements(news[fpNo..fpNo']);
    if oldAdded < |olds| {
      assert (i + 1) * Pow2(l) == i * Pow2(l) + Pow2(l);
      BucketInIndex(olds[oldAdded], rv, l, i + 1);
      forall k | oldAdded <= k < |olds| ensures i + 1 <= Shr(olds[k], rv + l) {
        ShrMonotone(olds[oldAdded], olds[k], rv + l);
      }
    }
  }

  lemma ShrMonotone(x: nat, y: nat, s: nat)
    requires x <= y
    ensures Shr(x, s) <= Shr(y, s)
  {
    DivMonotone(x, y, Pow2(s));
  }

  /** Every old entry has been taken by the end of its old index. */
  lemma RangeDone(olds: seq<Word>, oldAdded: nat, rv: nat, l: nat, end: nat)
    requires oldAdded <= |olds| && forall k :: oldAdded <= k < |olds| ==> end <= Shr(olds[k], rv + l)
    requires forall k :: 0 <= k < |olds| ==> Shr(olds[k], rv + l) < end
    ensures oldAdded == |olds| && olds[..oldAdded] == olds
  {
    if |olds| > 0 {
      var k := if oldAdded < |olds| then oldAdded else 0;
      assert Shr(olds[k], rv + l) < end;
    }
  }
}
