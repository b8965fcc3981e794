/** The routing filter (src/routing_filter.c): what its blocks hold, and looking fingerprints up. */
module RoutingFilter {
  import opened Bits
  import opened PackedArray
  import opened UnaryHeader

  datatype Config = Config(fingerprintSize: nat, logIndexSize: nat)

  /** One index: header, then remainders and values packed in words. The encoding is the memory from the header
      on, so its end belongs to whatever follows. */
  datatype Block = Block(numRemainders: nat, encoding: seq<bool>, remainders: seq<Word>)

  datatype Filter = NoFilter | Filter(numFingerprints: nat, valueSize: nat, blocks: seq<Block>)

  predicate LegalConfig(cfg: Config) {
    0 < cfg.logIndexSize <= cfg.fingerprintSize <= 32
  }

  /** 31 - __builtin_clz(n) */
  function Log2(n: nat): nat
    requires n > 0
  {
    if n == 1 then 0 else 1 + Log2(n / 2)
  }

  function LogBuckets(cfg: Config, numFingerprints: nat): (n: nat)
    requires numFingerprints > 0
    ensures n >= cfg.logIndexSize
  {
    var l := Log2(numFingerprints);
    if l < cfg.logIndexSize then cfg.logIndexSize else l
  }

  /** 32 - __builtin_clz(value), or 0 */
  function ValueSize(value: nat): nat {
    if value == 0 then 0 else 1 + Log2(value)
  }

  /** The sizes that fit a filter of n fingerprints and values of vs bits in 32-bit entries. */
  predicate LegalSize(cfg: Config, n: nat, vs: nat) {
    && LegalConfig(cfg) && n > 0 && cfg.fingerprintSize + vs <= 32
    && LogBuckets(cfg, n) <= cfg.fingerprintSize && cfg.fingerprintSize - LogBuckets(cfg, n) + vs > 0
  }

  /** remainder_size */
  function RemainderSize(cfg: Config, n: nat): nat
    requires n > 0 && LogBuckets(cfg, n) <= cfg.fingerprintSize
  {
    cfg.fingerprintSize - LogBuckets(cfg, n)
  }

  /** The high bits of the hash. */
  function Fingerprint(cfg: Config, hash: Word): nat
    requires LegalConfig(cfg)
  {
    Shr(hash, 32 - cfg.fingerprintSize)
  }

  // ------------------------------------------------------- the contents

  /** Fingerprint and value in one word. */
  function Entry(fp: nat, vs: nat, v: nat): nat { fp * Pow2(vs) + v }

  /** routing_get_bucket */
  function Bucket(e: nat, rv: nat): nat { Shr(e, rv) }

  ghost predicate SortedEntries(es: seq<Word>) {
    forall i, k :: 0 <= i < k < |es| ==> es[i] <= es[k]
  }

  ghost predicate InIndex(es: seq<Word>, rv: nat, first: nat, buckets: nat) {
    forall k :: 0 <= k < |es| ==> first <= Bucket(es[k], rv) < first + buckets
  }

  function Offsets(es: seq<Word>, rv: nat, first: nat, buckets: nat): (r: seq<nat>)
    requires InIndex(es, rv, first, buckets)
    ensures |r| == |es|
  {
    seq(|es|, k requires 0 <= k < |es| => Bucket(es[k], rv) - first)
  }

  /** The block holds the sorted entries es, whose buckets are the `buckets` ones from `first` on. */
  ghost predicate BlockHolds(b: Block, es: seq<Word>, rv: nat, first: nat, buckets: nat) {
    && SortedEntries(es) && InIndex(es, rv, first, buckets) && b.numRemainders == |es|
    && |b.encoding| % 64 == 0 && |b.encoding| > 0 && IsHeader(b.encoding, Offsets(es, rv, first, buckets), buckets)
    && |es| * rv <= 32 * |b.remainders|
    && Items(b.remainders, rv, 0, |es|) == seq(|es|, k requires 0 <= k < |es| => Low(es[k], rv))
  }

  /** The filter holds, index by index, the entries in `lists`. */
  ghost predicate Holds(cfg: Config, f: Filter, lists: seq<seq<Word>>) {
    && f.Filter? && LegalSize(cfg, f.numFingerprints, f.valueSize)
    && |lists| == |f.blocks| == Pow2(LogBuckets(cfg, f.numFingerprints) - cfg.logIndexSize)
    && (forall i :: 0 <= i < |lists| ==> |lists[i]| <= f.numFingerprints)
    && var rv := RemainderSize(cfg, f.numFingerprints) + f.valueSize;
      forall i :: 0 <= i < |lists| ==> BlockHolds(f.blocks[i], lists[i], rv, i * Pow2(cfg.logIndexSize),
          Pow2(cfg.logIndexSize))
  }

  predicate IsEntry(e: nat, vs: nat, fp: nat, v: nat) {
    Shr(e, vs) == fp && Low(e, vs) == v
  }

  /** Some entry of the list has fingerprint fp and value v. */
  ghost predicate InList(es: seq<Word>, vs: nat, fp: nat, v: nat) {
    exists k :: 0 <= k < |es| && IsEntry(es[k], vs, fp, v)
  }

  /** Fingerprint fp is stored with value v. */
  ghost predicate Stored(f: Filter, lists: seq<seq<Word>>, fp: nat, v: nat) {
    f.Filter? && exists i :: 0 <= i < |lists| && InList(lists[i], f.valueSize, fp, v)
  }

  // ------------------------------------------------------------- arithmetic

  lemma EntryParts(fp: nat, vs: nat, v: nat)
    requires v < Pow2(vs)
    ensures Shr(Entry(fp, vs, v), vs) == fp && Low(Entry(fp, vs, v), vs) == v
  {
    DivUnique(fp * Pow2(vs) + v, Pow2(vs), fp, v);
  }

  lemma EntrySplits(e: nat, vs: nat)
    ensures Entry(Shr(e, vs), vs, Low(e, vs)) == e && Low(e, vs) < Pow2(vs)
  {
    hide Pow2;
    DivMod(e, Pow2(vs));
  }

  lemma DivMod(e: nat, m: nat)
    requires m > 0
    ensures (e / m) * m + e % m == e && e % m < m
  {
  }

  /** Cutting an entry at the value and then at the remainder. */
  lemma BucketOfEntry(e: nat, vs: nat, r: nat)
    ensures Bucket(e, r + vs) == Shr(Shr(e, vs), r)
    ensures Shr(Low(e, r + vs), vs) == Low(Shr(e, vs), r)
    ensures Low(Low(e, r + vs), vs) == Low(e, vs)
  {
    Pow2Add(vs, r);
    DivDiv(e, Pow2(vs), Pow2(r));
    SplitMod(e, Pow2(vs), Pow2(r));
  }

  lemma Regroup(a: nat, b: nat, k: nat, m: nat)
    ensures (a * k + b) * m == a * (m * k) + b * m
  {
    assert (a * k + b) * m == a * k * m + b * m;
    assert a * k * m == a * (m * k);
  }

  lemma RowBelow(b: nat, k: nat, r: nat, m: nat)
    requires b < k && r < m
    ensures 0 < m * k && b * m + r < m * k
  {
    Times(m, b + 1, k);
    assert m * (b + 1) == b * m + m;
  }

  lemma SplitMod(e: nat, m: nat, k: nat)
    requires m > 0 && k > 0
    ensures m * k > 0 && (e % (m * k)) / m == (e / m) % k && (e % (m * k)) % m == e % m
  {
    var q, r := e / m, e % m;
    var a, b := q / k, q % k;
    DivMod(e, m);
    DivMod(q, k);
    Regroup(a, b, k, m);
    RowBelow(b, k, r, m);
    DivUnique(e, m * k, a, b * m + r);
    DivUnique(b * m + r, m, b, r);
  }

  lemma SameEntry(e: nat, vs: nat, r: nat, fp: nat)
    requires Bucket(e, r + vs) == Shr(fp, r)
    ensures Shr(Low(e, r + vs), vs) == Low(fp, r) <==> Shr(e, vs) == fp
  {
    BucketOfEntry(e, vs, r);
    EntrySplits(Shr(e, vs), r);
    EntrySplits(fp, r);
  }

  /** In which block and bucket an entry lies. */
  lemma IndexOfBucket(x: nat, rv: nat, l: nat)
    ensures Shr(x, rv + l) == Shr(Bucket(x, rv), l)
    ensures Bucket(x, rv) == Shr(x, rv + l) * Pow2(l) + Low(Bucket(x, rv), l)
  {
    Pow2Add(rv, l);
    DivDiv(x, Pow2(rv), Pow2(l));
    EntrySplits(Bucket(x, rv), l);
  }

  lemma OrPow2(x: nat, v: nat, j: nat)
    ensures Bit(Or(x, Pow2(v)), j) == (Bit(x, j) || j == v)
  {
    OrBit(x, Pow2(v), j);
    ScaledBit(1, v, j);
    assert 1 * Pow2(v) == Pow2(v);
    if v <= j {
      OneBit(j - v);
    }
  }

  lemma OneBit(i: nat)
    ensures Bit(1, i) == (i == 0)
  {
    if i > 0 {
      ZeroBit(i - 1);
    }
  }

  // ------------------------------------------------------------------ lookup

  /** The block that would hold fp. */
  function IndexOf(fp: nat, vs: nat, rv: nat, l: nat): nat { Shr(fp * Pow2(vs), rv + l) }

  /** Everything a filter stores for fp is in one block. */
  lemma StoredInBlock(cfg: Config, f: Filter, lists: seq<seq<Word>>, fp: nat, v: nat)
    requires Holds(cfg, f, lists) && fp < Pow2(cfg.fingerprintSize)
    ensures var i := IndexOf(fp, f.valueSize, RemainderSize(cfg, f.numFingerprints) + f.valueSize, cfg.logIndexSize);
      i < |lists| && (Stored(f, lists, fp, v) <==> InList(lists[i], f.valueSize, fp, v))
  {
    hide BlockHolds, Pow2, IndexOf, IsEntry;
    var vs, l := f.valueSize, cfg.logIndexSize;
    var rv := RemainderSize(cfg, f.numFingerprints) + vs;
    var i := IndexOf(fp, vs, rv, l);
    IndexInRange(cfg, f.numFingerprints, vs, fp);
    if Stored(f, lists, fp, v) {
      var j :| 0 <= j < |lists| && InList(lists[j], vs, fp, v);
      OnlyBlock(f.blocks[j], lists[j], rv, j, l, vs, fp, v);
    }
  }

  lemma OnlyBlock(b: Block, es: seq<Word>, rv: nat, j: nat, l: nat, vs: nat, fp: nat, v: nat)
    requires BlockHolds(b, es, rv, j * Pow2(l), Pow2(l)) && InList(es, vs, fp, v) && vs <= rv
    ensures j == IndexOf(fp, vs, rv, l)
  {
    hide IsHeader, Items, Pow2, IndexOf;
    var k :| 0 <= k < |es| && IsEntry(es[k], vs, fp, v);
    var e := es[k];
    SameIndex(e, fp, vs, rv, l);
    IndexOfBucket(e, rv, l);
    BucketRange(Bucket(e, rv), j, l);
  }

  lemma BucketRange(b: nat, j: nat, l: nat)
    requires j * Pow2(l) <= b < j * Pow2(l) + Pow2(l)
    ensures Shr(b, l) == j && Low(b, l) == b - j * Pow2(l)
  {
    DivUnique(b, Pow2(l), j, b - j * Pow2(l));
  }

  /** The value bits do not matter for the index. */
  lemma SameIndex(e: nat, fp: nat, vs: nat, rv: nat, l: nat)
    requires Shr(e, vs) == fp && vs <= rv
    ensures Shr(e, rv + l) == IndexOf(fp, vs, rv, l)
  {
    ShrShr(e, vs, rv - vs + l);
    ShrShr(fp * Pow2(vs), vs, rv - vs + l);
    ScaleShr(fp, vs);
    assert vs + (rv - vs + l) == rv + l;
  }

  lemma ShrShr(x: nat, a: nat, b: nat)
    ensures Shr(x, a + b) == Shr(Shr(x, a), b)
  {
    Pow2Add(a, b);
    DivDiv(x, Pow2(a), Pow2(b));
  }

  lemma ScaleShr(x: nat, a: nat)
    ensures Shr(x * Pow2(a), a) == x
  {
    DivUnique(x * Pow2(a), Pow2(a), x, 0);
  }

  lemma IndexInRange(cfg: Config, n: nat, vs: nat, fp: nat)
    requires LegalSize(cfg, n, vs) && fp < Pow2(cfg.fingerprintSize)
    ensures IndexOf(fp, vs, RemainderSize(cfg, n) + vs, cfg.logIndexSize) < Pow2(LogBuckets(cfg, n) - cfg.logIndexSize)
  {
    hide Pow2, Shr;
    var low := RemainderSize(cfg, n) + cfg.logIndexSize;
    ShrShr(fp * Pow2(vs), vs, low);
    ScaleShr(fp, vs);
    assert vs + low == RemainderSize(cfg, n) + vs + cfg.logIndexSize;
    ShrLess(fp, low, LogBuckets(cfg, n) - cfg.logIndexSize);
  }

  lemma ShrLess(x: nat, a: nat, b: nat)
    requires x < Pow2(a + b)
    ensures Shr(x, a) < Pow2(b)
  {
    Pow2Add(a, b);
    QuotientBound(x, Pow2(a), Pow2(b));
  }

  lemma QuotientBound(x: nat, m: nat, k: nat)
    requires m > 0 && x < m * k
    ensures x / m < k
  {
    var q := x / m;
    assert x == m * q + x % m;
    if q >= k {
      Times(m, k, q);
    }
  }

  /** routing_filter_lookup: bit v of the answer is set exactly when the fingerprint is stored with value v. The
      assertion that found values are below 64 is the requirement on what is stored. */
  method Lookup(cfg: Config, f: Filter, ghost lists: seq<seq<Word>>, hash: Word) returns (found: nat)
    requires LegalConfig(cfg) && (f.Filter? ==> Holds(cfg, f, lists))
    requires forall v :: Stored(f, lists, Fingerprint(cfg, hash), v) ==> v < 64
    ensures forall v: nat :: Bit(found, v) <==> Stored(f, lists, Fingerprint(cfg, hash), v)
  {
    hide Holds, Stored, Fingerprint, IsEntry, InList, Shr, Shl, Low, Bucket, Pow2, Bit, BlockHolds, IndexOf, LogBuckets;
    var fp := Fingerprint(cfg, hash);
    FingerprintBound(cfg, hash);
    if f.NoFilter? {
      found := 0;
      NoneStored(f, lists);
      ZeroHasNoBits();
      return;
    }
    var vs, l := f.valueSize, cfg.logIndexSize;
    SizesOf(cfg, f, lists);
    var remainderSize := RemainderSize(cfg, f.numFingerprints);
    var rv := remainderSize + vs;
    ShiftedFits(fp, vs, cfg.fingerprintSize);
    var bucket := Bucket(Shl(fp, vs), rv);
    var bucketOff := Low(bucket, l);
    var index := Shr(Shl(fp, vs), rv + l);
    var remainder := Low(fp, remainderSize);
    IndexIs(fp, vs, rv, l);
    StoredAll(cfg, f, lists, fp);
    found := LookupInBlock(f.blocks[index], lists[index], rv, vs, index * Pow2(l), Pow2(l), bucketOff, remainder, fp);
  }

  /** The scan of one bucket. */
  method LookupInBlock(b: Block, ghost es: seq<Word>, rv: nat, vs: nat, ghost first: nat, buckets: nat, bucketOff: nat,
                       remainder: nat, ghost fp: nat)
    returns (found: nat)
    requires BlockHolds(b, es, rv, first, buckets) && vs <= rv <= 32 && 0 < rv && bucketOff < buckets
    requires Shr(fp, rv - vs) == first + bucketOff && remainder == Low(fp, rv - vs)
    requires forall k :: 0 <= k < |es| && Shr(es[k], vs) == fp ==> Low(es[k], vs) < 64
    ensures forall v: nat :: Bit(found, v) <==> InList(es, vs, fp, v)
  {
    hide Bit, BlockHolds, Shr, Low, Bucket, InList, InRange, Ones, Pos, BucketStart, BucketEnd, Or, Pow2, ItemAt;
    hide IsHeader;
    var encodingSize := (b.numRemainders + buckets - 1) / 8 + 4;
    BlockBounds(b, es, rv, first, buckets, bucketOff);
    var start, end := GetBucketBounds(b.encoding, encodingSize + 2, bucketOff);
    found := 0;
    ZeroHasNoBits();
    ghost var lo := end;
    EmptyRange(es, end, vs, fp);
    for i := 0 to end - start
      invariant lo == end - i && forall v: nat :: Bit(found, v) <==> InRange(es, lo, end, vs, fp, v)
    {
      var pos := end - i - 1;
      BlockItem(b, es, rv, first, buckets, pos);
      var rvFound := Get(b.remainders, pos, rv);
      BucketOfEntry(es[pos], vs, rv - vs);
      EntrySplits(es[pos], vs);
      SameEntry(es[pos], vs, rv - vs, fp);
      ghost var before := found;
      if Shr(rvFound, vs) == remainder {
        var value := Low(rvFound, vs);
        assert value < 64;
        found := Or(found, Pow2(value));
        OrPow2All(before, value);
      }
      RangeGrows(es, pos, end, vs, fp);
      lo := pos;
    }
    WholeBucket(es, start, end, rv, vs, fp, first + bucketOff);
  }

  lemma ZeroHasNoBits()
    ensures forall v: nat :: !Bit(0, v)
  {
    forall v: nat ensures !Bit(0, v) {
      ZeroBit(v);
    }
  }

  lemma OrPow2All(x: nat, v: nat)
    ensures forall j: nat :: Bit(Or(x, Pow2(v)), j) == (Bit(x, j) || j == v)
  {
    hide *;
    var y := Or(x, Pow2(v));
    forall j: nat ensures Bit(y, j) == (Bit(x, j) || j == v) {
      OrPow2(x, v, j);
    }
  }

  lemma FingerprintBound(cfg: Config, hash: Word)
    requires LegalConfig(cfg)
    ensures Fingerprint(cfg, hash) < Pow2(cfg.fingerprintSize)
  {
    hide Pow2;
    Pow2Of32();
    ShrLess(hash, 32 - cfg.fingerprintSize, cfg.fingerprintSize);
  }

  lemma NoneStored(f: Filter, lists: seq<seq<Word>>)
    requires f.NoFilter?
    ensures forall fp: nat, v: nat :: !Stored(f, lists, fp, v)
  {
  }

  lemma SizesOf(cfg: Config, f: Filter, lists: seq<seq<Word>>)
    requires Holds(cfg, f, lists)
    ensures LegalSize(cfg, f.numFingerprints, f.valueSize) && |lists| == |f.blocks|
    ensures f.numFingerprints > 0 && LogBuckets(cfg, f.numFingerprints) <= cfg.fingerprintSize
    ensures 0 < RemainderSize(cfg, f.numFingerprints) + f.valueSize < 32 && cfg.fingerprintSize + f.valueSize <= 32
  {
    hide BlockHolds;
  }

  lemma ShiftedFits(fp: nat, vs: nat, f: nat)
    requires fp < Pow2(f) && f + vs <= 32
    ensures Shl(fp, vs) == fp * Pow2(vs)
  {
    hide Pow2;
    Pow2Of32();
    Pow2Add(f, vs);
    Pow2Monotone(f + vs, 32);
    MulLess(fp, Pow2(f), Pow2(vs));
  }

  lemma MulLess(x: nat, m: nat, k: nat)
    requires x < m && k > 0
    ensures x * k < m * k
  {
  }

  lemma IndexIs(fp: nat, vs: nat, rv: nat, l: nat)
    requires vs <= rv
    ensures Shr(fp * Pow2(vs), rv + l) == IndexOf(fp, vs, rv, l)
    ensures Shr(fp, rv - vs) == IndexOf(fp, vs, rv, l) * Pow2(l) + Low(Bucket(fp * Pow2(vs), rv), l)
    ensures Low(Bucket(fp * Pow2(vs), rv), l) < Pow2(l)
  {
    hide Pow2;
    IndexOfBucket(fp * Pow2(vs), rv, l);
    ShrShr(fp * Pow2(vs), vs, rv - vs);
    ScaleShr(fp, vs);
    EntrySplits(Bucket(fp * Pow2(vs), rv), l);
  }

  lemma StoredAll(cfg: Config, f: Filter, lists: seq<seq<Word>>, fp: nat)
    requires Holds(cfg, f, lists) && fp < Pow2(cfg.fingerprintSize)
    requires forall v :: Stored(f, lists, fp, v) ==> v < 64
    ensures |lists| == |f.blocks|
    ensures var rv := RemainderSize(cfg, f.numFingerprints) + f.valueSize;
      var i := IndexOf(fp, f.valueSize, rv, cfg.logIndexSize);
      && i < |lists|
      && BlockHolds(f.blocks[i], lists[i], rv, i * Pow2(cfg.logIndexSize), Pow2(cfg.logIndexSize))
      && (forall v: nat :: Stored(f, lists, fp, v) <==> InList(lists[i], f.valueSize, fp, v))
      && (forall k :: 0 <= k < |lists[i]| && Shr(lists[i][k], f.valueSize) == fp ==> Low(lists[i][k], f.valueSize) < 64)
  {
    hide BlockHolds, Stored, IndexOf, Pow2, Shr, Low;
    StoredInBlock(cfg, f, lists, fp, 0);
    var i := IndexOf(fp, f.valueSize, RemainderSize(cfg, f.numFingerprints) + f.valueSize, cfg.logIndexSize);
    forall v: nat ensures Stored(f, lists, fp, v) <==> InList(lists[i], f.valueSize, fp, v) {
      StoredInBlock(cfg, f, lists, fp, v);
    }
    forall k | 0 <= k < |lists[i]| && Shr(lists[i][k], f.valueSize) == fp ensures Low(lists[i][k], f.valueSize) < 64 {
      assert IsEntry(lists[i][k], f.valueSize, fp, Low(lists[i][k], f.valueSize));
      assert InList(lists[i], f.valueSize, fp, Low(lists[i][k], f.valueSize));
    }
  }

  /** What the header says about a bucket of a block. */
  lemma BlockBounds(b: Block, es: seq<Word>, rv: nat, first: nat, buckets: nat, j: nat)
    requires BlockHolds(b, es, rv, first, buckets) && j < buckets
    ensures j < Ones(b.encoding) && |b.encoding| % 32 == 0
    ensures Pos(b.encoding, j) < 8 * ((b.numRemainders + buckets - 1) / 8 + 4 + 2)
    ensures BucketStart(b.encoding, j) <= BucketEnd(b.encoding, j) <= |es|
    ensures forall k :: 0 <= k < |es| ==>
      (BucketStart(b.encoding, j) <= k < BucketEnd(b.encoding, j) <==> Bucket(es[k], rv) == first + j)
  {
    hide Items, Bucket, BucketStart, BucketEnd, Ones, Pos, IsHeader;
    var offs := Offsets(es, rv, first, buckets);
    HeaderBounds(b.encoding, offs, buckets, j);
    BucketsMeet(b.encoding, j);
    forall k | 0 <= k < |es|
      ensures BucketStart(b.encoding, j) <= k < BucketEnd(b.encoding, j) <==> Bucket(es[k], rv) == first + j
    {
      assert offs[k] == Bucket(es[k], rv) - first;
    }
  }

  lemma BlockItem(b: Block, es: seq<Word>, rv: nat, first: nat, buckets: nat, k: nat)
    requires BlockHolds(b, es, rv, first, buckets) && k < |es|
    ensures k * rv + rv <= 32 * |b.remainders| && ItemAt(b.remainders, rv, k) == Low(es[k], rv)
  {
    hide ItemAt, IsHeader, Low;
    ItemEnds(rv, k, |es|, 32 * |b.remainders|);
    assert Items(b.remainders, rv, 0, |es|)[k] == ItemOf(b.remainders, rv, 0, |es|, k);
    assert 0 + k == k;
  }

  ghost predicate InRange(es: seq<Word>, lo: int, hi: int, vs: nat, fp: nat, v: nat)
    requires 0 <= lo <= hi <= |es|
  {
    exists k :: lo <= k < hi && IsEntry(es[k], vs, fp, v)
  }

  lemma EmptyRange(es: seq<Word>, hi: nat, vs: nat, fp: nat)
    requires hi <= |es|
    ensures forall v: nat :: !InRange(es, hi, hi, vs, fp, v)
  {
  }

  lemma RangeGrows(es: seq<Word>, lo: nat, hi: nat, vs: nat, fp: nat)
    requires lo < hi <= |es|
    ensures forall v: nat :: InRange(es, lo, hi, vs, fp, v) <==>
      InRange(es, lo + 1, hi, vs, fp, v) || IsEntry(es[lo], vs, fp, v)
  {
    hide IsEntry;
  }

  lemma WholeBucket(es: seq<Word>, start: nat, end: nat, rv: nat, vs: nat, fp: nat, bucket: nat)
    requires start <= end <= |es| && vs <= rv && Shr(fp, rv - vs) == bucket
    requires forall k :: 0 <= k < |es| ==> (start <= k < end <==> Bucket(es[k], rv) == bucket)
    ensures forall v: nat :: InRange(es, start, end, vs, fp, v) <==> InList(es, vs, fp, v)
  {
    hide Bucket, Shr, Low;
    forall k | 0 <= k < |es| && Shr(es[k], vs) == fp ensures start <= k < end {
      BucketOfEntry(es[k], vs, rv - vs);
    }
  }
}
