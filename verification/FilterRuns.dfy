/** Whole calls of routing_filter_add, and any history of them (src/routing_filter.c). */
module FilterRuns {
  import opened Bits
  import opened PackedArray
  import opened UnaryHeader
  import opened RadixSorting
  import opened RoutingFilter
  import opened FilterAdd

  lemma {:induction false} Log2Bounds(n: nat)
    requires n > 0
    ensures Pow2(Log2(n)) <= n < Pow2(Log2(n) + 1)
  {
    if n > 1 {
      Log2Bounds(n / 2);
    }
  }

  /** The value width is the least into which the value fits. */
  lemma ValueFits(value: nat)
    ensures value < Pow2(ValueSize(value))
    ensures forall w: nat :: value < Pow2(w) ==> ValueSize(value) <= w
  {
    if value > 0 {
      Log2Bounds(value);
      forall w: nat | value < Pow2(w) ensures ValueSize(value) <= w {
        if w < ValueSize(value) {
          Pow2Monotone(w, Log2(value));
        }
      }
    }
  }

  /** There are fewer than two fingerprints for each bucket and, above the least number of buckets, at least one. */
  lemma BucketLoad(cfg: Config, n: nat)
    requires n > 0
    ensures cfg.logIndexSize <= LogBuckets(cfg, n) && n < 2 * Pow2(LogBuckets(cfg, n))
    ensures cfg.logIndexSize < LogBuckets(cfg, n) ==> Pow2(LogBuckets(cfg, n)) <= n
  {
    Log2Bounds(n);
    Pow2Monotone(Log2(n), LogBuckets(cfg, n));
  }

  lemma {:induction false} Log2Monotone(a: nat, b: nat)
    requires 0 < a <= b
    ensures Log2(a) <= Log2(b)
  {
    if a > 1 {
      Log2Monotone(a / 2, b / 2);
    }
  }

  /** Fingerprint fp is among the first n hashes. */
  ghost predicate Among(cfg: Config, hashes: seq<Word>, fp: nat)
    requires LegalConfig(cfg)
  {
    exists i :: 0 <= i < |hashes| && Fingerprint(cfg, hashes[i]) == fp
  }

  // ------------------------------------------------- the new fingerprints

  /** The new hashes as strictly increasing entries. */
  method PrepareNew(cfg: Config, arr: array<Word>, temp: array<Word>, n: nat, vs: nat, value: nat)
    returns (fpArr: array<Word>, m: nat)
    requires LegalConfig(cfg) && cfg.fingerprintSize + vs <= 32 && value < Pow2(vs)
    requires n <= arr.Length && n <= temp.Length && arr != temp
    modifies arr, temp
    ensures (fpArr == arr || fpArr == temp) && m <= n && SortedEntries(fpArr[..m])
    ensures forall x :: x in fpArr[..m] <==> IsNew(cfg, old(arr[..n]), vs, value, x)
  {
    hide Pow2, Entry, Fingerprint, IsNew, Sortable, SortedEntries;
    ghost var hashes := arr[..n];
    var matrix := new nat[ROWS, COLS]((i, j) => 0);
    MakeEntries(cfg, arr, n, vs, value);
    ghost var entries := arr[..n];
    EntriesSortable(cfg, hashes, entries, vs, value);
    fpArr := RadixSort(arr, matrix, temp, n, cfg.fingerprintSize, vs);
    ghost var sorted := fpArr[..n];
    SortedIs(sorted);
    m := Dedupe(fpArr, n);
    DistinctSorted(sorted);
    forall x ensures x in fpArr[..m] <==> IsNew(cfg, hashes, vs, value, x) {
      DistinctMembers(sorted, x);
      SameMembers(sorted, entries, x);
      EntryIsNew(cfg, hashes, entries, vs, value, x);
    }
  }

  /** x is the entry of one of the hashes. */
  ghost predicate IsNew(cfg: Config, hashes: seq<Word>, vs: nat, value: nat, x: Word)
    requires LegalConfig(cfg)
  {
    exists i :: 0 <= i < |hashes| && Entry(Fingerprint(cfg, hashes[i]), vs, value) == x
  }

  lemma EntriesSortable(cfg: Config, hashes: seq<Word>, entries: seq<Word>, vs: nat, value: nat)
    requires LegalConfig(cfg) && cfg.fingerprintSize + vs <= 32 && value < Pow2(vs) && |entries| == |hashes|
    requires forall i :: 0 <= i < |hashes| ==> entries[i] == Entry(Fingerprint(cfg, hashes[i]), vs, value)
    ensures Sortable(entries, cfg.fingerprintSize, vs)
  {
    hide Pow2, Entry, Fingerprint;
    forall i | 0 <= i < |entries|
      ensures entries[i] < Pow2(cfg.fingerprintSize + vs) && entries[i] % Pow2(vs) == value
    {
      MakeEntry(cfg, hashes[i], vs, value);
      EntryParts(Fingerprint(cfg, hashes[i]), vs, value);
      LowIs(entries[i], vs);
    }
  }

  lemma LowIs(x: nat, b: nat)
    ensures Low(x, b) == x % Pow2(b)
  {
  }

  lemma SortedIs(s: seq<Word>)
    requires forall i, k :: 0 <= i < k < |s| ==> s[i] <= s[k]
    ensures SortedEntries(s)
  {
  }

  lemma DistinctSorted(s: seq<Word>)
    requires SortedEntries(s)
    ensures SortedEntries(Distinct(s))
  {
    hide Distinct;
    DistinctIncreases(s);
  }

  lemma SameMembers(s: seq<Word>, t: seq<Word>, x: Word)
    requires multiset(s) == multiset(t)
    ensures x in s <==> x in t
  {
    assert x in s <==> x in multiset(s);
    assert x in t <==> x in multiset(t);
  }

  lemma EntryIsNew(cfg: Config, hashes: seq<Word>, entries: seq<Word>, vs: nat, value: nat, x: Word)
    requires LegalConfig(cfg) && |entries| == |hashes|
    requires forall i :: 0 <= i < |hashes| ==> entries[i] == Entry(Fingerprint(cfg, hashes[i]), vs, value)
    ensures x in entries <==> IsNew(cfg, hashes, vs, value, x)
  {
    hide Entry, Fingerprint;
    if x in entries {
      var i :| 0 <= i < |entries| && entries[i] == x;
      assert Entry(Fingerprint(cfg, hashes[i]), vs, value) == x;
    }
    if IsNew(cfg, hashes, vs, value, x) {
      var i :| 0 <= i < |hashes| && Entry(Fingerprint(cfg, hashes[i]), vs, value) == x;
      assert entries[i] == x;
    }
  }

  // ------------------------------------------------------ the old entries

  /** Entries of old block o, rewritten, fall into the new blocks o * ratio, ..., (o + 1) * ratio - 1. */
  lemma OldEntry(cfg: Config, n: nat, n': nat, ovs: nat, vs: nat, e: Word, o: nat)
    requires LegalSize(cfg, n, ovs) && LegalSize(cfg, n', vs) && ovs <= vs && n <= n'
    requires o < Pow2(LogBuckets(cfg, n) - cfg.logIndexSize)
    requires o * Pow2(cfg.logIndexSize) <= Bucket(e, RemainderSize(cfg, n) + ovs)
           < o * Pow2(cfg.logIndexSize) + Pow2(cfg.logIndexSize)
    ensures e < Pow2(cfg.fingerprintSize + ovs) && LogBuckets(cfg, n) <= LogBuckets(cfg, n')
    ensures var ratio := Pow2(LogBuckets(cfg, n') - LogBuckets(cfg, n));
      var x := Entry(Shr(e, ovs), vs, Low(e, ovs));
      o * ratio <= Shr(x, RemainderSize(cfg, n') + vs + cfg.logIndexSize) < o * ratio + ratio
  {
    hide Pow2, Shr, Low, Bucket, Entry, Log2;
    var l, r, r' := cfg.logIndexSize, RemainderSize(cfg, n), RemainderSize(cfg, n');
    Log2Monotone(n, n');
    var d := LogBuckets(cfg, n') - LogBuckets(cfg, n);
    BucketInIndex(e, r + ovs, l, o);
    ShrBelow(e, r + ovs + l, LogBuckets(cfg, n) - l, o);
    assert (r + ovs + l) + (LogBuckets(cfg, n) - l) == cfg.fingerprintSize + ovs;
    EntrySplits(e, ovs);
    Pow2Monotone(ovs, vs);
    var fp, v := Shr(e, ovs), Low(e, ovs);
    EntryParts(fp, vs, v);
    ShrShr(Entry(fp, vs, v), vs, r' + l);
    assert vs + (r' + l) == r' + vs + l;
    ShrShr(e, ovs, r + l);
    assert ovs + (r + l) == r + ovs + l;
    ShrShr(fp, r' + l, d);
    assert r' + l + d == r + l;
    RangeOf(Shr(fp, r' + l), d, o);
  }

  /** x >> s == o with o of b bits leaves x with s + b bits. */
  lemma ShrBelow(x: nat, s: nat, b: nat, o: nat)
    requires Shr(x, s) == o < Pow2(b)
    ensures x < Pow2(s + b)
  {
    hide Pow2;
    EntrySplits(x, s);
    Pow2Add(b, s);
    assert b + s == s + b;
    EntryIs(o, s, Low(x, s));
    EntryBound(o, Pow2(b), Pow2(s), Low(x, s));
  }

  lemma EntryIs(q: nat, s: nat, r: nat)
    ensures Entry(q, s, r) == q * Pow2(s) + r
  {
  }

  lemma RangeOf(x: nat, d: nat, o: nat)
    requires Shr(x, d) == o
    ensures o * Pow2(d) <= x < o * Pow2(d) + Pow2(d)
  {
    hide Pow2;
    EntrySplits(x, d);
    EntryIs(o, d, Low(x, d));
  }

  lemma WidenedSorted(es: seq<Word>, ovs: nat, vs: nat, f: nat)
    requires SortedEntries(es) && ovs <= vs && f + vs <= 32 && forall k :: 0 <= k < |es| ==> es[k] < Pow2(f + ovs)
    ensures forall k :: 0 <= k < |es| ==> Widened(es, ovs, vs)[k] < B32
    ensures forall i, k :: 0 <= i < k < |es| ==> Widened(es, ovs, vs)[i] <= Widened(es, ovs, vs)[k]
  {
    hide Pow2, Shr, Low, Entry;
    forall k | 0 <= k < |es| ensures Widened(es, ovs, vs)[k] < B32 {
      if ovs < vs {
        WidenEntry(es[k], ovs, vs, f);
      } else {
        EntrySplits(es[k], vs);
      }
    }
    forall i, k | 0 <= i < k < |es| ensures Widened(es, ovs, vs)[i] <= Widened(es, ovs, vs)[k] {
      WidenKeepsOrder(es[i], es[k], ovs, vs);
    }
  }

  lemma WidenKeepsOrder(x: nat, y: nat, ovs: nat, vs: nat)
    requires x <= y && ovs <= vs
    ensures Entry(Shr(x, ovs), vs, Low(x, ovs)) <= Entry(Shr(y, ovs), vs, Low(y, ovs))
  {
    hide Pow2, Shr, Low, Entry;
    EntrySplits(x, ovs);
    EntrySplits(y, ovs);
    ShrMonotone(x, y, ovs);
    Pow2Monotone(ovs, vs);
    EntryIs(Shr(x, ovs), ovs, Low(x, ovs));
    EntryIs(Shr(y, ovs), ovs, Low(y, ovs));
    EntryIs(Shr(x, ovs), vs, Low(x, ovs));
    EntryIs(Shr(y, ovs), vs, Low(y, ovs));
    KeysCompare(Low(x, ovs), Low(y, ovs), Shr(x, ovs), Shr(y, ovs), Pow2(vs));
  }

  /** Widening moves entries, not their fingerprints and values. */
  lemma WidenedEntry(e: Word, ovs: nat, vs: nat, fp: nat, v: nat)
    requires ovs <= vs
    ensures IsEntry(Entry(Shr(e, ovs), vs, Low(e, ovs)), vs, fp, v) <==> IsEntry(e, ovs, fp, v)
  {
    hide Pow2, Shr, Low, Entry;
    EntrySplits(e, ovs);
    Pow2Monotone(ovs, vs);
    EntryParts(Shr(e, ovs), vs, Low(e, ovs));
  }

  /** Unpacking old block o. */
  method LoadOldIndex(cfg: Config, f: Filter, ghost lists: seq<seq<Word>>, o: nat, ghost total: nat, vs: nat,
                      counts: array<nat>, buf: array<Word>)
    returns (n: nat)
    requires Holds(cfg, f, lists) && o < |lists| && LegalSize(cfg, total, vs)
    requires f.numFingerprints <= total && f.valueSize <= vs
    requires counts.Length == Pow2(cfg.logIndexSize) && f.numFingerprints <= buf.Length
    modifies counts, buf
    ensures n <= f.numFingerprints && buf[..n] == Widened(lists[o], f.valueSize, vs) && SortedEntries(buf[..n])
    ensures LogBuckets(cfg, f.numFingerprints) <= LogBuckets(cfg, total)
    ensures var ratio := Pow2(LogBuckets(cfg, total) - LogBuckets(cfg, f.numFingerprints));
      forall k :: 0 <= k < n ==>
        o * ratio <= Shr(buf[k], RemainderSize(cfg, total) + vs + cfg.logIndexSize) < o * ratio + ratio
  {
    hide Pow2, Shr, Low, Bucket, BlockHolds, Widened, Entry, LogBuckets;
    SizesOf(cfg, f, lists);
    var l := cfg.logIndexSize;
    var orv := RemainderSize(cfg, f.numFingerprints) + f.valueSize;
    ghost var es := lists[o];
    BlockOf(cfg, f, lists, o);
    OldEntries(cfg, f.numFingerprints, total, f.valueSize, vs, es, o);
    n := LoadOld(f.blocks[o], es, orv, f.valueSize, vs, o * Pow2(l), Pow2(l), counts, buf, cfg.fingerprintSize);
    WidenedSorted(es, f.valueSize, vs, cfg.fingerprintSize);
    SortedIs(buf[..n]);
    forall k | 0 <= k < n ensures buf[k] == Entry(Shr(es[k], f.valueSize), vs, Low(es[k], f.valueSize)) {
      assert buf[..n][k] == Widened(es, f.valueSize, vs)[k];
      WidenedAt(es, f.valueSize, vs, k);
    }
  }

  lemma WidenedAt(es: seq<Word>, ovs: nat, vs: nat, k: nat)
    requires k < |es|
    ensures Widened(es, ovs, vs)[k] == Entry(Shr(es[k], ovs), vs, Low(es[k], ovs))
  {
  }

  lemma BlockOf(cfg: Config, f: Filter, lists: seq<seq<Word>>, o: nat)
    requires Holds(cfg, f, lists) && o < |lists|
    ensures |lists| == |f.blocks| == Pow2(LogBuckets(cfg, f.numFingerprints) - cfg.logIndexSize)
    ensures BlockHolds(f.blocks[o], lists[o], RemainderSize(cfg, f.numFingerprints) + f.valueSize,
                       o * Pow2(cfg.logIndexSize), Pow2(cfg.logIndexSize))
    ensures |lists[o]| <= f.numFingerprints && SortedEntries(lists[o])
    ensures InIndex(lists[o], RemainderSize(cfg, f.numFingerprints) + f.valueSize,
                    o * Pow2(cfg.logIndexSize), Pow2(cfg.logIndexSize))
  {
    hide Pow2, IsHeader, Items, SortedEntries, InIndex;
  }

  lemma OldEntries(cfg: Config, n: nat, n': nat, ovs: nat, vs: nat, es: seq<Word>, o: nat)
    requires LegalSize(cfg, n, ovs) && LegalSize(cfg, n', vs) && ovs <= vs && n <= n'
    requires o < Pow2(LogBuckets(cfg, n) - cfg.logIndexSize)
    requires InIndex(es, RemainderSize(cfg, n) + ovs, o * Pow2(cfg.logIndexSize), Pow2(cfg.logIndexSize))
    ensures LogBuckets(cfg, n) <= LogBuckets(cfg, n')
    ensures forall k :: 0 <= k < |es| ==> es[k] < Pow2(cfg.fingerprintSize + ovs)
    ensures var ratio := Pow2(LogBuckets(cfg, n') - LogBuckets(cfg, n));
      forall k :: 0 <= k < |es| ==>
        o * ratio <= Shr(Entry(Shr(es[k], ovs), vs, Low(es[k], ovs)), RemainderSize(cfg, n') + vs + cfg.logIndexSize)
          < o * ratio + ratio
  {
    hide Pow2, Shr, Low, Bucket, Entry, Log2;
    Log2Monotone(n, n');
    var ratio := Pow2(LogBuckets(cfg, n') - LogBuckets(cfg, n));
    forall k | 0 <= k < |es|
      ensures es[k] < Pow2(cfg.fingerprintSize + ovs)
      ensures o * ratio <= Shr(Entry(Shr(es[k], ovs), vs, Low(es[k], ovs)), RemainderSize(cfg,
          n') + vs + cfg.logIndexSize)
                < o * ratio + ratio
    {
      OldEntry(cfg, n, n', ovs, vs, es[k], o);
    }
  }

  // ------------------------------------------------------------- the whole

  lemma {:induction false} AllElementsConcat(a: seq<seq<Word>>, b: seq<seq<Word>>)
    ensures AllElements(a + b) == AllElements(a) + AllElements(b)
  {
    if |b| == 0 {
      assert a + b == a;
    } else {
      assert (a + b)[..|a + b| - 1] == a + b[..|b| - 1];
      AllElementsConcat(a, b[..|b| - 1]);
    }
  }

  lemma {:induction false} InAllElements(lists: seq<seq<Word>>, x: Word)
    ensures x in AllElements(lists) <==> exists i :: 0 <= i < |lists| && x in lists[i]
  {
    if |lists| > 0 {
      var init := lists[..|lists| - 1];
      InAllElements(init, x);
      if x in AllElements(init) {
        var i :| 0 <= i < |init| && x in init[i];
        assert x in lists[i];
      }
    }
  }

  lemma BlocksConcat(blocks: seq<Block>, lists: seq<seq<Word>>, blocks': seq<Block>, lists': seq<seq<Word>>, rv: nat,
                     l: nat, limit: nat)
    requires BlocksHold(blocks, lists, rv, l, 0, limit) && BlocksHold(blocks', lists', rv, l, |lists|, limit)
    ensures BlocksHold(blocks + blocks', lists + lists', rv, l, 0, limit)
  {
    hide OneHolds;
    var b, ls := blocks + blocks', lists + lists';
    forall i | 0 <= i < |ls| ensures OneHolds(b[i], ls[i], rv, l, 0 + i, limit) {
      if i < |lists| {
        assert OneHolds(blocks[i], lists[i], rv, l, 0 + i, limit);
      } else {
        assert OneHolds(blocks'[i - |lists|], lists'[i - |lists|], rv, l, |lists| + (i - |lists|), limit);
      }
    }
  }

  /** All the new blocks: one pass over the old ones. */
  method AddAll(cfg: Config, old': Filter, ghost oldLists: seq<seq<Word>>, fpArr: array<Word>, m: nat, total: nat,
      vs: nat,
                oldNumIndices: nat, ratio: nat, indexCount: array<nat>, ghost limit: nat, dst: array<Word>,
                oldBuf: array<Word>, oldCount: array<nat>, enc: array<bool>)
    returns (blocks: seq<Block>, ghost lists: seq<seq<Word>>, ghost taken: seq<seq<Word>>)
    requires LegalSize(cfg, total, vs) && m <= fpArr.Length && SortedEntries(fpArr[..m])
    requires old'.Filter? ==> Holds(cfg, old', oldLists) && oldNumIndices == |oldLists| && old'.valueSize <= vs
    requires old'.Filter? ==> old'.numFingerprints + m <= limit && old'.numFingerprints <= total
    requires old'.Filter? ==> LogBuckets(cfg, old'.numFingerprints) <= LogBuckets(cfg, total)
    requires old'.Filter? ==> ratio == Pow2(LogBuckets(cfg, total) - LogBuckets(cfg, old'.numFingerprints))
    requires old'.NoFilter? ==> oldNumIndices == 1 && oldLists == []
    requires m <= limit && oldNumIndices * ratio == indexCount.Length
    requires var shift := RemainderSize(cfg, total) + vs + cfg.logIndexSize;
      Counted(indexCount[..], fpArr[..m], shift) && Cut(fpArr[..m], shift, 0) == 0
    requires fpArr != dst && fpArr != oldBuf && oldBuf != dst && indexCount != oldCount
    requires oldCount.Length == Pow2(cfg.logIndexSize) && limit <= dst.Length && limit <= oldBuf.Length
    requires limit + Pow2(cfg.logIndexSize) + 64 <= enc.Length && forall p :: 0 <= p < enc.Length ==> enc[p]
    modifies dst, oldBuf, oldCount, enc
    ensures |lists| == indexCount.Length && |taken| == oldNumIndices
    ensures BlocksHold(blocks, lists, RemainderSize(cfg, total) + vs, cfg.logIndexSize, 0, limit)
    ensures var shift := RemainderSize(cfg, total) + vs + cfg.logIndexSize;
      AllElements(lists) == AllElements(taken) + Elements(fpArr[..Cut(fpArr[..m], shift, indexCount.Length)])
    ensures forall j :: 0 <= j < |taken| ==>
      taken[j] == if old'.Filter? then Widened(oldLists[j], old'.valueSize, vs) else []
  {
    hide Pow2, Shr, Low, Bucket, Holds, BlocksHold, Widened, Cut, Counted, AllElements, Elements, LogBuckets;
    hide SortedEntries;
    var l := cfg.logIndexSize;
    SizesOfNew(cfg, total, vs);
    var rv := RemainderSize(cfg, total) + vs;
    ghost var news := fpArr[..m];
    blocks, lists, taken := [], [], [];
    var fpNo := 0;
    NoBlocks(rv, l, limit, news);
    for o := 0 to oldNumIndices
      invariant |lists| == o * ratio && |taken| == o && BlocksHold(blocks, lists, rv, l, 0, limit)
      invariant fpArr[..m] == news && fpNo == Cut(news, rv + l, o * ratio)
      invariant Counted(indexCount[..], news, rv + l)
      invariant AllElements(lists) == AllElements(taken) + Elements(news[..fpNo])
      invariant forall j :: 0 <= j < |taken| ==>
        taken[j] == if old'.Filter? then Widened(oldLists[j], old'.valueSize, vs) else []
      invariant forall p :: 0 <= p < enc.Length ==> enc[p]
    {
      var oldN := 0;
      if old'.Filter? {
        oldN := LoadOldIndex(cfg, old', oldLists, o, total, vs, oldCount, oldBuf);
      } else {
        NoneSorted(oldBuf[..0]);
      }
      var first := o * ratio;
      NextRange(o, oldNumIndices, ratio);
      ghost var start, cur := fpNo, oldBuf[..oldN];
      var newBlocks;
      ghost var newLists;
      newBlocks, fpNo, newLists := AddRange(oldBuf, oldN, fpArr, m, indexCount, first, ratio, rv, l, fpNo, enc, dst,
                                            limit);
      assert fpArr[..m] == news;
      SliceOfPrefix(fpArr, m, start, fpNo);
      AddedRange(lists, newLists, taken, cur, news, start, fpNo);
      BlocksConcat(blocks, lists, newBlocks, newLists, rv, l, limit);
      blocks, lists, taken := blocks + newBlocks, lists + newLists, taken + [cur];
    }
    assert fpArr[..fpNo] == news[..fpNo];
  }

  lemma SizesOfNew(cfg: Config, total: nat, vs: nat)
    requires LegalSize(cfg, total, vs)
    ensures total > 0 && LogBuckets(cfg, total) <= cfg.fingerprintSize && 0 < RemainderSize(cfg, total) + vs < 32
  {
  }

  lemma NoBlocks(rv: nat, l: nat, limit: nat, news: seq<Word>)
    ensures BlocksHold([], [], rv, l, 0, limit)
    ensures AllElements([]) == AllElements([]) + Elements(news[..0])
  {
  }

  lemma NoneSorted(es: seq<Word>)
    requires |es| == 0
    ensures SortedEntries(es)
  {
  }

  lemma NextRange(o: nat, n: nat, ratio: nat)
    requires o < n
    ensures o * ratio + ratio == (o + 1) * ratio <= n * ratio
  {
    Times(ratio, o + 1, n);
  }

  lemma AddedRange(lists: seq<seq<Word>>, newLists: seq<seq<Word>>, taken: seq<seq<Word>>, cur: seq<Word>,
                   news: seq<Word>, start: nat, fpNo: nat)
    requires start <= fpNo <= |news|
    requires AllElements(lists) == AllElements(taken) + Elements(news[..start])
    requires AllElements(newLists) == Elements(cur) + Elements(news[start..fpNo])
    ensures AllElements(lists + newLists) == AllElements(taken + [cur]) + Elements(news[..fpNo])
  {
    hide AllElements, Elements;
    AllElementsConcat(lists, newLists);
    OneMore(taken, cur);
    ElementsSplit(news, 0, start, fpNo);
    assert news[0..start] == news[..start] && news[0..fpNo] == news[..fpNo];
  }

  lemma OneMore(taken: seq<seq<Word>>, cur: seq<Word>)
    ensures AllElements(taken + [cur]) == AllElements(taken) + Elements(cur)
  {
    assert (taken + [cur])[..|taken|] == taken;
  }

  /** How many fingerprints a filter counts. */
  function CountOf(f: Filter): nat { if f.Filter? then f.numFingerprints else 0 }

  /** The sizes of the old and new index tables. */
  method IndexSizes(cfg: Config, old': Filter, ghost oldLists: seq<seq<Word>>, total: nat)
    returns (numIndices: nat, oldNumIndices: nat, ratio: nat)
    requires LegalConfig(cfg) && (old'.Filter? ==> Holds(cfg, old', oldLists))
    requires 0 < total && CountOf(old') <= total && LogBuckets(cfg, total) <= cfg.fingerprintSize
    ensures numIndices == Pow2(LogBuckets(cfg, total) - cfg.logIndexSize) && oldNumIndices * ratio == numIndices
    ensures old'.NoFilter? ==> oldNumIndices == 1
    ensures old'.Filter? ==> oldNumIndices == |oldLists| && old'.numFingerprints > 0
    ensures old'.Filter? ==> LogBuckets(cfg, old'.numFingerprints) <= LogBuckets(cfg, total)
    ensures old'.Filter? ==> ratio == Pow2(LogBuckets(cfg, total) - LogBuckets(cfg, old'.numFingerprints))
  {
    hide Pow2, LogBuckets, Holds;
    numIndices, oldNumIndices := Pow2(LogBuckets(cfg, total) - cfg.logIndexSize), 1;
    if old'.Filter? {
      SizesOf(cfg, old', oldLists);
      BlockCount(cfg, old', oldLists);
      RatioOf(cfg, old'.numFingerprints, total);
      oldNumIndices := Pow2(LogBuckets(cfg, old'.numFingerprints) - cfg.logIndexSize);
    }
    ratio := numIndices / oldNumIndices;
  }

  /** The new filter, from the old one and the prepared entries. */
  method BuildFilter(cfg: Config, old': Filter, ghost oldLists: seq<seq<Word>>, fpArr: array<Word>, m: nat, total: nat,
                     vs: nat)
    returns (f: Filter, ghost lists: seq<seq<Word>>, ghost taken: seq<seq<Word>>)
    requires LegalSize(cfg, total, vs) && m <= fpArr.Length && m + CountOf(old') <= total && SortedEntries(fpArr[..m])
    requires old'.Filter? ==> Holds(cfg, old', oldLists) && old'.valueSize <= vs
    requires old'.NoFilter? ==> oldLists == []
    requires forall k :: 0 <= k < m ==>
      Shr(fpArr[k], RemainderSize(cfg, total) + vs + cfg.logIndexSize) < Pow2(LogBuckets(cfg, total) - cfg.logIndexSize)
    ensures Holds(cfg, f, lists) && f.Filter? && f.numFingerprints == total && f.valueSize == vs
    ensures AllElements(lists) == AllElements(taken) + Elements(fpArr[..m])
    ensures old'.Filter? ==> |taken| == |oldLists|
    ensures forall j :: 0 <= j < |taken| ==>
      taken[j] == if old'.Filter? then Widened(oldLists[j], old'.valueSize, vs) else []
  {
    hide Pow2, LogBuckets, Holds, BlocksHold, Cut, AllElements, Elements, SortedEntries, Widened, Shr, BlockHolds;
    var l := cfg.logIndexSize;
    SizesOfNew(cfg, total, vs);
    var numIndices, oldNumIndices, ratio := IndexSizes(cfg, old', oldLists, total);
    var indexCount := new nat[numIndices](_ => 0);
    CountIndices(fpArr, m, RemainderSize(cfg, total) + vs + l, indexCount);
    var dst, oldBuf := new Word[total](_ => 0), new Word[total](_ => 0);
    var oldCount := new nat[Pow2(l)](_ => 0);
    var enc := new bool[total + Pow2(l) + 64](_ => true);
    var blocks;
    blocks, lists, taken := AddAll(cfg, old', oldLists, fpArr, m, total, vs, oldNumIndices, ratio, indexCount, total,
                                   dst, oldBuf, oldCount, enc);
    f := Filter(total, vs, blocks);
    FilterHolds(cfg, f, lists);
  }

  /** routing_filter_add: the new filter stores what the old one did, and the new fingerprints with `value`. */
  method Add(cfg: Config, old': Filter, ghost oldLists: seq<seq<Word>>, newFpArr: array<Word>, n: nat, value: nat)
    returns (f: Filter, ghost lists: seq<seq<Word>>)
    requires LegalConfig(cfg) && n <= newFpArr.Length && (old'.Filter? ==> Holds(cfg, old', oldLists))
    requires LegalSize(cfg, n + CountOf(old'),
        ValueSize(value)) && (old'.Filter? ==> old'.valueSize <= ValueSize(value))
    modifies newFpArr
    ensures Holds(cfg, f, lists) && f.Filter?
    ensures f.numFingerprints == n + CountOf(old') && f.valueSize == ValueSize(value)
    ensures forall fp, v :: Stored(f, lists, fp, v) <==>
      Stored(old', oldLists, fp, v) || (v == value && Among(cfg, old(newFpArr[..n]), fp))
  {
    hide Pow2, LogBuckets, Holds, Stored, Among, AllElements, Elements, SortedEntries, Widened, Shr, IsNew;
    ghost var hashes := newFpArr[..n];
    var vs, total := ValueSize(value), n + CountOf(old');
    ValueFits(value);
    var temp := new Word[n](_ => 0);
    var fpArr, m := PrepareNew(cfg, newFpArr, temp, n, vs, value);
    ghost var es := fpArr[..m];
    NewIndices(cfg, hashes, total, vs, value, es);
    assert forall k :: 0 <= k < m ==> fpArr[k] == es[k];
    ghost var taken;
    ghost var olds := if old'.Filter? then oldLists else [];
    f, lists, taken := BuildFilter(cfg, old', olds, fpArr, m, total, vs);
    forall fp, v
      ensures Stored(f, lists, fp, v) <==> Stored(old', oldLists, fp, v) || (v == value && Among(cfg, hashes, fp))
    {
      AddedStored(cfg, old', oldLists, f, lists, taken, es, hashes, value, fp, v);
    }
  }

  lemma BlockCount(cfg: Config, f: Filter, lists: seq<seq<Word>>)
    requires Holds(cfg, f, lists)
    ensures |lists| == Pow2(LogBuckets(cfg, f.numFingerprints) - cfg.logIndexSize)
  {
    hide BlockHolds;
  }

  lemma RatioOf(cfg: Config, n: nat, n': nat)
    requires LegalConfig(cfg) && 0 < n <= n' && LogBuckets(cfg, n') <= cfg.fingerprintSize
    ensures cfg.logIndexSize <= LogBuckets(cfg, n) <= LogBuckets(cfg, n')
    ensures var small, big := Pow2(LogBuckets(cfg, n) - cfg.logIndexSize), Pow2(LogBuckets(cfg, n') - cfg.logIndexSize);
      && big / small == Pow2(LogBuckets(cfg, n') - LogBuckets(cfg, n)) && small * (big / small) == big
  {
    hide Pow2, Log2;
    Log2Monotone(n, n');
    var a, b := LogBuckets(cfg, n) - cfg.logIndexSize, LogBuckets(cfg, n') - LogBuckets(cfg, n);
    Pow2Add(a, b);
    assert a + b == LogBuckets(cfg, n') - cfg.logIndexSize;
    DivUnique(Pow2(a + b), Pow2(a), Pow2(b), 0);
  }

  lemma NewIndices(cfg: Config, hashes: seq<Word>, total: nat, vs: nat, value: nat, es: seq<Word>)
    requires LegalSize(cfg, total, vs) && value < Pow2(vs)
    requires forall x :: x in es <==> IsNew(cfg, hashes, vs, value, x)
    ensures forall k :: 0 <= k < |es| ==>
      Shr(es[k], RemainderSize(cfg, total) + vs + cfg.logIndexSize) < Pow2(LogBuckets(cfg, total) - cfg.logIndexSize)
  {
    hide Pow2, LogBuckets, Shr, Entry, Fingerprint;
    forall k | 0 <= k < |es|
      ensures Shr(es[k], RemainderSize(cfg, total) + vs + cfg.logIndexSize) < Pow2(LogBuckets(cfg,
          total) - cfg.logIndexSize)
    {
      assert es[k] in es;
      var i :| 0 <= i < |hashes| && Entry(Fingerprint(cfg, hashes[i]), vs, value) == es[k];
      var fp := Fingerprint(cfg, hashes[i]);
      FingerprintBound(cfg, hashes[i]);
      EntryParts(fp, vs, value);
      SameIndex(es[k], fp, vs, RemainderSize(cfg, total) + vs, cfg.logIndexSize);
      IndexInRange(cfg, total, vs, fp);
    }
  }

  lemma FilterHolds(cfg: Config, f: Filter, lists: seq<seq<Word>>)
    requires f.Filter? && LegalSize(cfg, f.numFingerprints, f.valueSize)
    requires |lists| == Pow2(LogBuckets(cfg, f.numFingerprints) - cfg.logIndexSize)
    requires BlocksHold(f.blocks, lists, RemainderSize(cfg, f.numFingerprints) + f.valueSize, cfg.logIndexSize, 0,
                        f.numFingerprints)
    ensures Holds(cfg, f, lists)
  {
    hide Pow2, BlockHolds, LogBuckets;
    var rv := RemainderSize(cfg, f.numFingerprints) + f.valueSize;
    forall i | 0 <= i < |lists|
      ensures |lists[i]| <= f.numFingerprints
      ensures BlockHolds(f.blocks[i], lists[i], rv, i * Pow2(cfg.logIndexSize), Pow2(cfg.logIndexSize))
    {
      assert OneHolds(f.blocks[i], lists[i], rv, cfg.logIndexSize, 0 + i, f.numFingerprints);
    }
  }

  lemma StoredElement(f: Filter, lists: seq<seq<Word>>, fp: nat, v: nat)
    requires f.Filter?
    ensures Stored(f, lists, fp, v) <==> exists x :: x in AllElements(lists) && IsEntry(x, f.valueSize, fp, v)
  {
    hide IsEntry, AllElements;
    if Stored(f, lists, fp, v) {
      var i :| 0 <= i < |lists| && InList(lists[i], f.valueSize, fp, v);
      var k :| 0 <= k < |lists[i]| && IsEntry(lists[i][k], f.valueSize, fp, v);
      InAllElements(lists, lists[i][k]);
    }
    if x :| x in AllElements(lists) && IsEntry(x, f.valueSize, fp, v) {
      InAllElements(lists, x);
      var i :| 0 <= i < |lists| && x in lists[i];
      assert InList(lists[i], f.valueSize, fp, v);
    }
  }

  /** What the new filter stores. */
  lemma AddedStored(cfg: Config, old': Filter, oldLists: seq<seq<Word>>, f: Filter, lists: seq<seq<Word>>,
                    taken: seq<seq<Word>>, es: seq<Word>, hashes: seq<Word>, value: nat, fp: nat, v: nat)
    requires LegalConfig(cfg) && f.Filter? && value < Pow2(f.valueSize) && cfg.fingerprintSize + f.valueSize <= 32
    requires AllElements(lists) == AllElements(taken) + Elements(es)
    requires forall x :: x in es <==> IsNew(cfg, hashes, f.valueSize, value, x)
    requires old'.Filter? ==> |taken| == |oldLists| && old'.valueSize <= f.valueSize
    requires forall j :: 0 <= j < |taken| ==>
      taken[j] == if old'.Filter? then Widened(oldLists[j], old'.valueSize, f.valueSize) else []
    ensures Stored(f, lists, fp, v) <==> Stored(old', oldLists, fp, v) || (v == value && Among(cfg, hashes, fp))
  {
    hide IsEntry, AllElements, Widened, Pow2, Entry, Fingerprint, IsNew, Among, Stored;
    StoredElement(f, lists, fp, v);
    NewStored(cfg, es, hashes, f.valueSize, value, fp, v);
    TakenStored(old', oldLists, taken, f.valueSize, fp, v);
  }

  lemma NewStored(cfg: Config, es: seq<Word>, hashes: seq<Word>, vs: nat, value: nat, fp: nat, v: nat)
    requires LegalConfig(cfg) && value < Pow2(vs) && cfg.fingerprintSize + vs <= 32
    requires forall x :: x in es <==> IsNew(cfg, hashes, vs, value, x)
    ensures (exists x :: x in Elements(es) && IsEntry(x, vs, fp, v)) <==> (v == value && Among(cfg, hashes, fp))
  {
    hide Pow2, Entry, Fingerprint, Shr, Low;
    if x :| x in Elements(es) && IsEntry(x, vs, fp, v) {
      assert x in es;
      var i :| 0 <= i < |hashes| && Entry(Fingerprint(cfg, hashes[i]), vs, value) == x;
      EntryParts(Fingerprint(cfg, hashes[i]), vs, value);
    }
    if v == value && Among(cfg, hashes, fp) {
      var i :| 0 <= i < |hashes| && Fingerprint(cfg, hashes[i]) == fp;
      EntryParts(fp, vs, value);
      EntryInWord(cfg, hashes, i, es, vs, value);
    }
  }

  lemma EntryInWord(cfg: Config, hashes: seq<Word>, i: nat, es: seq<Word>, vs: nat, value: nat)
    requires LegalConfig(cfg) && i < |hashes| && value < Pow2(vs) && cfg.fingerprintSize + vs <= 32
    requires forall x :: x in es <==> IsNew(cfg, hashes, vs, value, x)
    ensures Entry(Fingerprint(cfg, hashes[i]), vs, value) < B32
    ensures Entry(Fingerprint(cfg, hashes[i]), vs, value) in Elements(es)
  {
    hide Pow2, Entry, Fingerprint;
    MakeEntry(cfg, hashes[i], vs, value);
    var x: Word := Entry(Fingerprint(cfg, hashes[i]), vs, value);
    assert IsNew(cfg, hashes, vs, value, x);
  }

  lemma TakenStored(old': Filter, oldLists: seq<seq<Word>>, taken: seq<seq<Word>>, vs: nat, fp: nat, v: nat)
    requires old'.Filter? ==> |taken| == |oldLists| && old'.valueSize <= vs
    requires forall j :: 0 <= j < |taken| ==>
      taken[j] == if old'.Filter? then Widened(oldLists[j], old'.valueSize, vs) else []
    ensures (exists x :: x in AllElements(taken) && IsEntry(x, vs, fp, v)) <==> Stored(old', oldLists, fp, v)
  {
    hide IsEntry, AllElements, Widened, Entry, Shr, Low;
    if x :| x in AllElements(taken) && IsEntry(x, vs, fp, v) {
      InAllElements(taken, x);
      var j :| 0 <= j < |taken| && x in taken[j];
      var k :| 0 <= k < |taken[j]| && taken[j][k] == x;
      WidenedAt(oldLists[j], old'.valueSize, vs, k);
      WidenedEntry(oldLists[j][k], old'.valueSize, vs, fp, v);
      assert InList(oldLists[j], old'.valueSize, fp, v);
    }
    if Stored(old', oldLists, fp, v) {
      var j :| 0 <= j < |oldLists| && InList(oldLists[j], old'.valueSize, fp, v);
      var k :| 0 <= k < |oldLists[j]| && IsEntry(oldLists[j][k], old'.valueSize, fp, v);
      WidenedAt(oldLists[j], old'.valueSize, vs, k);
      WidenedEntry(oldLists[j][k], old'.valueSize, vs, fp, v);
      assert taken[j][k] in taken[j];
      InAllElements(taken, taken[j][k]);
    }
  }

  // --------------------------------------------------------- any history

  /** One call of routing_filter_add: hashes and their value. */
  datatype Batch = Batch(hashes: seq<Word>, value: nat)

  function TotalOf(history: seq<Batch>): nat {
    if |history| == 0 then 0
    else TotalOf(history[..|history| - 1]) + |history[|history| - 1].hashes|
  }

  /** What the callers keep to: values never decrease and stay below 64, and every filter fits its words. */
  ghost predicate LegalHistory(cfg: Config, history: seq<Batch>) {
    && LegalConfig(cfg)
    && (forall i :: 0 <= i < |history| ==> history[i].value < 64 && LegalBatch(cfg, history, i))
    && (forall i, j :: 0 <= i < j < |history| ==> history[i].value <= history[j].value)
  }

  ghost predicate LegalBatch(cfg: Config, history: seq<Batch>, i: nat)
    requires i < |history|
  {
    LegalSize(cfg, TotalOf(history[..i + 1]), ValueSize(history[i].value))
  }

  /** Some batch added fingerprint fp with value v. */
  ghost predicate Added(cfg: Config, history: seq<Batch>, fp: nat, v: nat)
    requires LegalConfig(cfg)
  {
    exists i :: 0 <= i < |history| && history[i].value == v && Among(cfg, history[i].hashes, fp)
  }

  lemma ValueSizeMonotone(a: nat, b: nat)
    requires a <= b
    ensures ValueSize(a) <= ValueSize(b)
  {
    if a > 0 {
      Log2Monotone(a, b);
    }
  }

  lemma TotalStep(history: seq<Batch>, i: nat)
    requires i < |history|
    ensures TotalOf(history[..i + 1]) == TotalOf(history[..i]) + |history[i].hashes|
  {
    assert history[..i + 1][..i] == history[..i];
  }

  lemma AddedStep(cfg: Config, history: seq<Batch>, i: nat, fp: nat, v: nat)
    requires LegalConfig(cfg) && i < |history|
    ensures Added(cfg, history[..i + 1], fp, v) <==>
      Added(cfg, history[..i], fp, v) || (v == history[i].value && Among(cfg, history[i].hashes, fp))
  {
    hide Among;
    if Added(cfg, history[..i], fp, v) {
      var j :| 0 <= j < i && history[..i][j].value == v && Among(cfg, history[..i][j].hashes, fp);
      assert history[..i + 1][j] == history[..i][j];
    }
    if v == history[i].value && Among(cfg, history[i].hashes, fp) {
      assert history[..i + 1][i] == history[i];
    }
    if Added(cfg, history[..i + 1], fp, v) {
      var j :| 0 <= j < i + 1 && history[..i + 1][j].value == v && Among(cfg, history[..i + 1][j].hashes, fp);
      if j < i {
        assert history[..i][j] == history[..i + 1][j];
      }
    }
  }

  /** After any history of additions the filter stores exactly what was added. */
  method RunAdds(cfg: Config, history: seq<Batch>) returns (f: Filter, ghost lists: seq<seq<Word>>)
    requires LegalHistory(cfg, history)
    ensures f.NoFilter? <==> |history| == 0
    ensures f.Filter? ==> Holds(cfg, f, lists)
    ensures forall fp, v :: Stored(f, lists, fp, v) <==> Added(cfg, history, fp, v)
  {
    hide Holds, Stored, Added, Among, LegalSize, LogBuckets, Log2;
    f, lists := NoFilter, [];
    NothingAdded(cfg, lists);
    for i := 0 to |history|
      invariant f.NoFilter? <==> i == 0
      invariant f.Filter? ==> Holds(cfg, f, lists) && f.valueSize == ValueSize(history[i - 1].value)
      invariant CountOf(f) == TotalOf(history[..i])
      invariant forall fp, v :: Stored(f, lists, fp, v) <==> Added(cfg, history[..i], fp, v)
    {
      var batch := history[i];
      var arr := new Word[|batch.hashes|](j requires 0 <= j < |batch.hashes| => batch.hashes[j]);
      assert arr[..|batch.hashes|] == batch.hashes;
      assert LegalBatch(cfg, history, i);
      TotalStep(history, i);
      if i > 0 {
        ValueSizeMonotone(history[i - 1].value, batch.value);
      }
      f, lists := Add(cfg, f, lists, arr, |batch.hashes|, batch.value);
      AddedOneMore(cfg, history, i);
    }
    assert history[..|history|] == history;
  }

  lemma NothingAdded(cfg: Config, lists: seq<seq<Word>>)
    requires LegalConfig(cfg)
    ensures forall fp: nat, v: nat :: !Stored(NoFilter, lists, fp, v) && !Added(cfg, [], fp, v)
  {
  }

  lemma AddedOneMore(cfg: Config, history: seq<Batch>, i: nat)
    requires LegalConfig(cfg) && i < |history|
    ensures forall fp, v :: Added(cfg, history[..i + 1], fp, v) <==>
      Added(cfg, history[..i], fp, v) || (v == history[i].value && Among(cfg, history[i].hashes, fp))
  {
    hide Added, Among;
    var after := history[..i + 1];
    forall fp, v
      ensures Added(cfg, after, fp, v) <==>
        Added(cfg, history[..i], fp, v) || (v == history[i].value && Among(cfg, history[i].hashes, fp))
    {
      AddedStep(cfg, history, i, fp, v);
    }
  }

  /** Filter exactness: after any history of additions, bit v of a lookup is set if and only if some hash with the
      same fingerprint was added with value v. In particular there are no false negatives. */
  method RunThenLookup(cfg: Config, history: seq<Batch>, hash: Word) returns (found: nat)
    requires LegalHistory(cfg, history)
    ensures forall v: nat :: Bit(found, v) <==> Added(cfg, history, Fingerprint(cfg, hash), v)
  {
    hide Holds, Stored, Bit, Among, LegalBatch;
    var f, lists := RunAdds(cfg, history);
    found := Lookup(cfg, f, lists, hash);
  }
}
