/** The unary bucket header of a routing filter index (src/routing_filter.c): zeros count fingerprints, ones end
    buckets. Read by 32-bit words for one bucket, and by 64-bit words for all of them. */
module UnaryHeader {
  import opened Bits
  import opened PackedArray

  // ------------------------------------------------- what a header means

  function Ones(bs: seq<bool>): (n: nat)
    ensures n <= |bs|
  {
    if |bs| == 0 then 0 else Ones(bs[..|bs| - 1]) + if bs[|bs| - 1] then 1 else 0
  }

  /** Where the one that ends bucket j stands. */
  function Pos(bs: seq<bool>, j: nat): (p: nat)
    requires j < Ones(bs)
    ensures p < |bs|
  {
    var n := |bs| - 1;
    if j < Ones(bs[..n]) then Pos(bs[..n], j) else n
  }

  /** How many fingerprints lie in buckets 0 to j. */
  function BucketEnd(bs: seq<bool>, j: nat): nat
    requires j < Ones(bs)
  {
    OnesUpTo(bs, Pos(bs, j));
    PosIs(bs, j);
    Pos(bs, j) - j
  }

  function BucketStart(bs: seq<bool>, j: nat): nat
    requires j < Ones(bs)
  {
    if j == 0 then 0 else BucketEnd(bs, j - 1)
  }

  lemma {:induction false} OnesUpTo(bs: seq<bool>, p: nat)
    requires p <= |bs|
    ensures Ones(bs[..p]) <= Ones(bs) && Ones(bs) - Ones(bs[..p]) <= |bs| - p
  {
    if p < |bs| {
      OnesUpTo(bs[..|bs| - 1], p);
      assert bs[..|bs| - 1][..p] == bs[..p];
    } else {
      assert bs[..p] == bs;
    }
  }

  lemma {:induction false} PosIs(bs: seq<bool>, j: nat)
    requires j < Ones(bs)
    ensures bs[Pos(bs, j)] && Ones(bs[..Pos(bs, j)]) == j
  {
    var n := |bs| - 1;
    if j < Ones(bs[..n]) {
      PosIs(bs[..n], j);
      assert bs[..n][..Pos(bs, j)] == bs[..Pos(bs, j)];
    }
  }

  lemma OnesStep(bs: seq<bool>, p: nat)
    requires p < |bs|
    ensures Ones(bs[..p + 1]) == Ones(bs[..p]) + if bs[p] then 1 else 0
  {
    assert bs[..p + 1][..p] == bs[..p];
  }

  lemma OnesMonotone(bs: seq<bool>, p: nat, q: nat)
    requires p <= q <= |bs|
    ensures Ones(bs[..p]) <= Ones(bs[..q])
  {
    OnesUpTo(bs[..q], p);
    assert bs[..q][..p] == bs[..p];
  }

  /** The ones before position p are exactly those numbered below Ones(bs[..p]). */
  lemma PosBefore(bs: seq<bool>, j: nat, p: nat)
    requires j < Ones(bs) && p <= |bs|
    ensures Pos(bs, j) < p <==> j < Ones(bs[..p])
  {
    PosIs(bs, j);
    var q := Pos(bs, j);
    if q < p {
      OnesStep(bs, q);
      OnesMonotone(bs, q + 1, p);
    } else {
      OnesMonotone(bs, p, q);
    }
  }

  lemma PosUnique(bs: seq<bool>, j: nat, p: nat)
    requires p < |bs| && bs[p] && Ones(bs[..p]) == j
    ensures j < Ones(bs) && Pos(bs, j) == p
  {
    OnesStep(bs, p);
    OnesUpTo(bs, p + 1);
    PosBefore(bs, j, p);
    PosBefore(bs, j, p + 1);
  }

  lemma PosIncreases(bs: seq<bool>, i: nat, j: nat)
    requires i < j < Ones(bs)
    ensures Pos(bs, i) < Pos(bs, j)
  {
    PosIs(bs, j);
    PosBefore(bs, i, Pos(bs, j));
  }

  /** Buckets do not overlap. */
  lemma BucketsMeet(bs: seq<bool>, j: nat)
    requires j < Ones(bs)
    ensures BucketStart(bs, j) <= BucketEnd(bs, j)
    ensures j + 1 < Ones(bs) ==> BucketStart(bs, j + 1) == BucketEnd(bs, j)
  {
    if j > 0 {
      PosIncreases(bs, j - 1, j);
    }
  }

  // ------------------------------------------------------- words of memory

  /** The word of w bits at bit `base` of the memory bs. */
  function WordAt(bs: seq<bool>, base: nat, w: nat): nat
    requires base + w <= |bs|
  {
    FromBits(bs[base..base + w])
  }

  lemma WordBit(bs: seq<bool>, base: nat, w: nat, j: nat)
    requires base + w <= |bs|
    ensures Bit(WordAt(bs, base, w), j) == (j < w && bs[base + j])
  {
    FromBitsBit(bs[base..base + w], j);
  }

  /** __builtin_ffs(x) - 1 */
  function Lowest(x: nat): nat
    requires x > 0
  {
    if x % 2 == 1 then 0 else 1 + Lowest(x / 2)
  }

  lemma {:induction false} LowestBit(x: nat)
    requires x > 0
    ensures Bit(x, Lowest(x)) && forall j :: 0 <= j < Lowest(x) ==> !Bit(x, j)
  {
    if x % 2 == 0 {
      LowestBit(x / 2);
      forall j | 0 <= j < Lowest(x) ensures !Bit(x, j) {
        if j > 0 {
          assert !Bit(x / 2, j - 1);
        }
      }
    }
  }

  /** __builtin_popcount */
  function Popcount(x: nat): nat {
    if x == 0 then 0 else x % 2 + Popcount(x / 2)
  }

  lemma {:induction false} PopcountIsOnes(bs: seq<bool>)
    ensures Popcount(FromBits(bs)) == Ones(bs)
  {
    if |bs| > 0 {
      FromBitsStep(bs);
      PopcountIsOnes(bs[1..]);
      OnesHead(bs);
      hide Ones, FromBits;
    }
  }

  lemma {:induction false} OnesHead(bs: seq<bool>)
    requires |bs| > 0
    ensures Ones(bs) == (if bs[0] then 1 else 0) + Ones(bs[1..])
  {
    if |bs| > 1 {
      var n := |bs| - 1;
      OnesHead(bs[..n]);
      assert bs[..n][1..] == bs[1..][..n - 1];
    }
  }

  lemma {:induction false} OnesConcat(a: seq<bool>, b: seq<bool>)
    ensures Ones(a + b) == Ones(a) + Ones(b)
  {
    if |b| == 0 {
      assert a + b == a;
    } else {
      assert (a + b)[..|a + b| - 1] == a + b[..|b| - 1];
      OnesConcat(a, b[..|b| - 1]);
    }
  }

  /** A one at position p that ends bucket b or a later one. */
  ghost predicate EndsFrom(bs: seq<bool>, p: nat, b: nat)
    requires p < |bs|
  {
    bs[p] && Ones(bs[..p]) >= b
  }

  /** e holds the ones of the word at `base` that end bucket b or a later one. */
  ghost predicate Remaining(bs: seq<bool>, base: nat, w: nat, e: nat, b: nat) {
    && base + w <= |bs|
    && forall j: nat :: Bit(e, j) == (j < w && EndsFrom(bs, base + j, b))
  }

  lemma WholeWordRemains(bs: seq<bool>, base: nat, w: nat, b: nat)
    requires base + w <= |bs| && Ones(bs[..base]) >= b
    ensures Remaining(bs, base, w, WordAt(bs, base, w), b)
  {
    hide WordAt, Ones, Bit;
    forall j: nat ensures Bit(WordAt(bs, base, w), j) == (j < w && EndsFrom(bs, base + j, b)) {
      WordBit(bs, base, w, j);
      if j < w {
        OnesMonotone(bs, base, base + j);
      }
    }
  }

  /** The lowest remaining one ends bucket b, if the word has it. */
  lemma LowestIsNext(bs: seq<bool>, base: nat, w: nat, e: nat, b: nat)
    requires Remaining(bs, base, w, e, b) && b < Ones(bs) && base <= Pos(bs, b) < base + w
    ensures e > 0 && base + Lowest(e) == Pos(bs, b) && Bit(e, Lowest(e))
    ensures forall j :: 0 <= j < Lowest(e) ==> !Bit(e, j)
  {
    hide Ones, Bit, Lowest, Pos;
    var f := Pos(bs, b) - base;
    PosIs(bs, b);
    assert EndsFrom(bs, base + f, b) && Bit(e, f);
    ZeroBit(f);
    LowestBit(e);
    if Lowest(e) < f {
      RankBelow(bs, base + Lowest(e), b);
    }
  }

  /** Clearing it leaves the ones that end later buckets. */
  lemma ClearOne(bs: seq<bool>, base: nat, w: nat, e: nat, b: nat)
    requires Remaining(bs, base, w, e, b) && b < Ones(bs) && base <= Pos(bs, b) < base + w
    ensures e > 0 && Remaining(bs, base, w, And(e, e - 1), b + 1)
  {
    hide And, Ones, Bit, Lowest, Pos;
    LowestIsNext(bs, base, w, e, b);
    var e', b' := And(e, e - 1), b + 1;
    forall j: nat ensures Bit(e', j) == (j < w && EndsFrom(bs, base + j, b')) {
      ClearLowest(e, Lowest(e), j);
      if Bit(e, j) {
        RankAbove(bs, base + j, b);
      }
    }
  }

  lemma RankBelow(bs: seq<bool>, p: nat, b: nat)
    requires b < Ones(bs) && p < |bs| && bs[p] && p < Pos(bs, b)
    ensures Ones(bs[..p]) < b
  {
    PosIs(bs, b);
    OnesStep(bs, p);
    OnesMonotone(bs, p + 1, Pos(bs, b));
  }

  lemma RankAbove(bs: seq<bool>, p: nat, b: nat)
    requires b < Ones(bs) && p < |bs| && bs[p] && Ones(bs[..p]) >= b
    ensures Ones(bs[..p]) == b <==> p == Pos(bs, b)
  {
    PosIs(bs, b);
    if Ones(bs[..p]) == b {
      PosUnique(bs, b, p);
    }
  }

  /** An empty word holds no end of bucket b or later; otherwise the next end is in it. */
  lemma NextEnd(bs: seq<bool>, base: nat, w: nat, e: nat, b: nat)
    requires Remaining(bs, base, w, e, b) && b < Ones(bs) && base <= Pos(bs, b)
    ensures e == 0 <==> base + w <= Pos(bs, b)
  {
    hide Ones, Bit, Lowest, Pos;
    PosIs(bs, b);
    if e == 0 {
      ZeroBit(Pos(bs, b) - base);
    } else {
      LowestBit(e);
      assert EndsFrom(bs, base + Lowest(e), b);
      if base + Lowest(e) < Pos(bs, b) {
        RankBelow(bs, base + Lowest(e), b);
      }
    }
  }

  // --------------------------------------------------------- reading headers

  /** Stepping over empty words to the next end of a bucket. */
  method SkipEmptyWords(bs: seq<bool>, word: nat, e: nat, ghost b: nat) returns (word': nat, e': nat)
    requires Remaining(bs, 32 * word, 32, e, b) && b < Ones(bs) && 32 * word <= Pos(bs, b) && |bs| % 32 == 0
    requires b > 0 ==> Pos(bs, b - 1) < 32 * word + 32
    ensures e' > 0 && Remaining(bs, 32 * word', 32, e', b) && 32 * word' <= Pos(bs, b) < 32 * word' + 32
    ensures word <= word'
  {
    hide Ones, Pos, Remaining, WordAt;
    word', e' := word, e;
    while e' == 0
      invariant Remaining(bs, 32 * word', 32, e', b) && 32 * word' <= Pos(bs, b) && word <= word'
      invariant b > 0 ==> Pos(bs, b - 1) < 32 * word' + 32
      decreases |bs| - word'
    {
      NextEnd(bs, 32 * word', 32, e', b);
      word' := word' + 1;
      EndsAfter(bs, b, 32 * word');
      WholeWordRemains(bs, 32 * word', 32, b);
      e' := WordAt(bs, 32 * word', 32);
    }
    NextEnd(bs, 32 * word', 32, e', b);
  }

  /** routing_get_bucket_bounds */
  method GetBucketBounds(bs: seq<bool>, len: nat, bucketOffset: nat) returns (start: nat, end: nat)
    requires bucketOffset < Ones(bs) && |bs| % 32 == 0 && Pos(bs, bucketOffset) < 8 * len
    ensures start == BucketStart(bs, bucketOffset) && end == BucketEnd(bs, bucketOffset)
  {
    hide Ones, Pos, Remaining, WordAt, Popcount, Lowest, And;
    PosIs(bs, bucketOffset);
    OnesUpTo(bs, Pos(bs, bucketOffset));
    if bucketOffset == 0 {
      start := 0;
      WholeWordRemains(bs, 0, 32, 0);
      var word, e := SkipEmptyWords(bs, 0, WordAt(bs, 0, 32), 0);
      LowestIsNext(bs, 32 * word, 32, e, 0);
      end := 32 * word + Lowest(e);
    } else {
      start, end := SelectTwo(bs, len, bucketOffset);
    }
  }

  /** The bounds of a bucket that is not the first: two ends in a row, found in one scan. */
  method SelectTwo(bs: seq<bool>, len: nat, bucketOffset: nat) returns (start: nat, end: nat)
    requires 0 < bucketOffset < Ones(bs) && |bs| % 32 == 0 && Pos(bs, bucketOffset) < 8 * len
    ensures start == BucketStart(bs, bucketOffset) && end == BucketEnd(bs, bucketOffset)
  {
    hide Ones, Pos, Remaining, WordAt, Popcount, Lowest, And;
    var word, bucket := FindWord(bs, len, bucketOffset);
    var e := WordAt(bs, 32 * word, 32);
    WholeWordRemains(bs, 32 * word, 32, bucket);
    while bucket < bucketOffset - 1
      invariant bucket <= bucketOffset - 1 && Remaining(bs, 32 * word, 32, e, bucket)
      invariant Ones(bs[..32 * word]) <= bucket
    {
      PosBefore(bs, bucket, 32 * word);
      PosIncreases(bs, bucket, bucketOffset - 1);
      ClearOne(bs, 32 * word, 32, e, bucket);
      e := And(e, e - 1);
      bucket := bucket + 1;
    }
    LowestIsNext(bs, 32 * word, 32, e, bucket);
    ClearOne(bs, 32 * word, 32, e, bucket);
    PosAtLeast(bs, bucketOffset - 1);
    start := 32 * word + Lowest(e) - bucketOffset + 1;
    e := And(e, e - 1);
    PosIncreases(bs, bucketOffset - 1, bucketOffset);
    word, e := SkipEmptyWords(bs, word, e, bucketOffset);
    LowestIsNext(bs, 32 * word, 32, e, bucketOffset);
    PosAtLeast(bs, bucketOffset);
    end := 32 * word + Lowest(e) - bucketOffset;
  }

  lemma PosAtLeast(bs: seq<bool>, j: nat)
    requires j < Ones(bs)
    ensures Pos(bs, j) >= j
  {
    PosIs(bs, j);
  }

  /** The word that holds the end of the bucket before `bucketOffset`, found by counting ones. */
  method FindWord(bs: seq<bool>, len: nat, bucketOffset: nat) returns (word: nat, bucket: nat)
    requires 0 < bucketOffset < Ones(bs) && |bs| % 32 == 0 && Pos(bs, bucketOffset) < 8 * len
    ensures 32 * word <= Pos(bs, bucketOffset - 1) < 32 * word + 32 <= |bs|
    ensures bucket == Ones(bs[..32 * word]) <= bucketOffset - 1
  {
    hide Ones, Pos, WordAt, Popcount;
    ghost var p := Pos(bs, bucketOffset - 1);
    PosIncreases(bs, bucketOffset - 1, bucketOffset);
    word, bucket := 0, 0;
    OnesUpTo(bs, 0);
    NoOnes(bs);
    WordOnes(bs, 0);
    var pop := Popcount(WordAt(bs, 0, 32));
    while 4 * word < len && bucket + pop < bucketOffset
      invariant 32 * word + 32 <= |bs| && bucket == Ones(bs[..32 * word]) && bucket < bucketOffset
      invariant pop == Popcount(WordAt(bs, 32 * word, 32)) && bucket + pop == Ones(bs[..32 * word + 32])
      invariant 32 * word <= p
      decreases |bs| - word
    {
      bucket := bucket + pop;
      word := word + 1;
      PosBefore(bs, bucketOffset - 1, 32 * word);
      WordOnes(bs, word);
      pop := Popcount(WordAt(bs, 32 * word, 32));
    }
    PosBefore(bs, bucketOffset - 1, 32 * word + 32);
  }

  lemma NoOnes(bs: seq<bool>)
    ensures Ones(bs[..0]) == 0
  {
  }

  lemma WordOnes(bs: seq<bool>, word: nat)
    requires 32 * word + 32 <= |bs|
    ensures Ones(bs[..32 * word]) + Popcount(WordAt(bs, 32 * word, 32)) == Ones(bs[..32 * word + 32])
  {
    var base := 32 * word;
    assert bs[..base + 32] == bs[..base] + bs[base..base + 32];
    OnesConcat(bs[..base], bs[base..base + 32]);
    PopcountIsOnes(bs[base..base + 32]);
  }

  /** The zeros of bucket i up to the word that ends it. */
  method CountZeros(bs: seq<bool>, cursor: nat, start: nat, word: nat, ghost i: nat)
    returns (cursor': nat, start': nat, word': nat, zeros: nat)
    requires i < Ones(bs) && |bs| % 64 == 0 && start <= 64 && Remaining(bs, 64 * cursor, 64, word, i)
    requires 64 * cursor + start == if i == 0 then 0 else Pos(bs, i - 1) + 1
    ensures start' <= 64 && word' > 0 && Remaining(bs, 64 * cursor', 64, word', i)
    ensures 64 * cursor' + start' <= Pos(bs, i) && 64 * cursor' + start' == 64 * cursor + start + zeros
  {
    hide Ones, Pos, Remaining, WordAt;
    if i > 0 {
      PosIncreases(bs, i - 1, i);
    }
    cursor', start', word', zeros := cursor, start, word, 0;
    while word' == 0
      invariant start' <= 64 && Remaining(bs, 64 * cursor', 64, word', i)
      invariant 64 * cursor + start <= 64 * cursor' + start' <= Pos(bs, i)
      invariant 64 * cursor' + start' == 64 * cursor + start + zeros
      decreases |bs| - cursor'
    {
      NextEnd(bs, 64 * cursor', 64, word', i);
      zeros := zeros + (64 - start');
      start' := 0;
      cursor' := cursor' + 1;
      EndsAfter(bs, i, 64 * cursor');
      WholeWordRemains(bs, 64 * cursor', 64, i);
      word' := WordAt(bs, 64 * cursor', 64);
    }
  }

  /** routing_get_bucket_counts */
  method GetBucketCounts(bs: seq<bool>, count: array<nat>, indexSize: nat)
    requires indexSize <= Ones(bs) && |bs| % 64 == 0 && |bs| > 0 && indexSize <= count.Length
    modifies count
    ensures forall i :: 0 <= i < indexSize ==> count[i] == BucketEnd(bs, i) - BucketStart(bs, i)
    ensures forall i :: indexSize <= i < count.Length ==> count[i] == old(count[i])
  {
    hide *;
    var cursor: nat, start: nat := 0, 0;
    NoOnes(bs);
    WholeWordRemains(bs, 0, 64, 0);
    var word := WordAt(bs, 0, 64);
    for i := 0 to indexSize
      invariant start <= 64 && Remaining(bs, 64 * cursor, 64, word, i)
      invariant 64 * cursor + start == if i == 0 then 0 else Pos(bs, i - 1) + 1
      invariant forall k :: 0 <= k < i ==> count[k] == BucketEnd(bs, k) - BucketStart(bs, k)
      invariant forall k :: indexSize <= k < count.Length ==> count[k] == old(count[k])
    {
      count[i] := 0;
      var zeros;
      cursor, start, word, zeros := CountZeros(bs, cursor, start, word, i);
      count[i] := count[i] + zeros;
      NextEnd(bs, 64 * cursor, 64, word, i);
      LowestIsNext(bs, 64 * cursor, 64, word, i);
      ClearOne(bs, 64 * cursor, 64, word, i);
      var end: nat := Lowest(word);
      word := And(word, word - 1);
      count[i] := count[i] + (end - start);
      start := end + 1;
      BucketSize(bs, i);
    }
  }

  lemma BucketSize(bs: seq<bool>, i: nat)
    requires i < Ones(bs)
    ensures BucketEnd(bs, i) - BucketStart(bs, i) == Pos(bs, i) - if i == 0 then 0 else Pos(bs, i - 1) + 1
  {
  }

  /** Every one numbered below i stands before the end of bucket i. */
  lemma EndsAfter(bs: seq<bool>, i: nat, p: nat)
    requires i < Ones(bs) && p <= |bs| && (i > 0 ==> Pos(bs, i - 1) < p)
    ensures Ones(bs[..p]) >= i
  {
    if i > 0 {
      PosBefore(bs, i - 1, p);
    }
  }

  // --------------------------------------------------------- writing headers

  ghost predicate NonDecreasing(offs: seq<nat>) {
    forall i, k :: 0 <= i < k < |offs| ==> offs[i] <= offs[k]
  }

  /** Bit p is the zero of some fingerprint: the k-th one, in bucket offs[k], clears bit offs[k] + k. */
  ghost predicate ZeroAt(offs: seq<nat>, p: nat) {
    exists k :: 0 <= k < |offs| && offs[k] + k == p
  }

  /** The header of fingerprints in buckets `offs` of `buckets` buckets. */
  ghost predicate IsHeader(bs: seq<bool>, offs: seq<nat>, buckets: nat) {
    && |offs| + buckets <= |bs|
    && (forall k :: 0 <= k < |offs| ==> offs[k] < buckets)
    && NonDecreasing(offs)
    && forall p :: 0 <= p < |offs| + buckets ==> bs[p] == !ZeroAt(offs, p)
  }

  function CountUpTo(offs: seq<nat>, j: int): (n: nat)
    ensures n <= |offs|
  {
    if |offs| == 0 then 0
    else CountUpTo(offs[..|offs| - 1], j) + if offs[|offs| - 1] <= j then 1 else 0
  }

  lemma {:induction false} CountSplits(offs: seq<nat>, j: int, k: nat)
    requires NonDecreasing(offs) && k < |offs|
    ensures offs[k] <= j <==> k < CountUpTo(offs, j)
  {
    var n := |offs| - 1;
    if k < n {
      CountSplits(offs[..n], j, k);
    } else {
      CountAll(offs, j);
    }
  }

  lemma {:induction false} CountAll(offs: seq<nat>, j: int)
    requires NonDecreasing(offs) && |offs| > 0
    ensures offs[|offs| - 1] <= j <==> CountUpTo(offs, j) == |offs|
  {
    var n := |offs| - 1;
    if offs[n] <= j && n > 0 {
      assert offs[n - 1] <= j;
      CountAll(offs[..n], j);
    }
  }

  /** Zeros do not count. */
  lemma {:induction false} OnesInGap(bs: seq<bool>, q: nat, p: nat)
    requires q <= p <= |bs| && forall x :: q <= x < p ==> !bs[x]
    ensures Ones(bs[..p]) == Ones(bs[..q])
    decreases p - q
  {
    if q < p {
      OnesInGap(bs, q, p - 1);
      OnesStep(bs, p - 1);
    }
  }

  /** The zeros of bucket j stand together, and the one that ends it follows them. */
  lemma HeaderBits(bs: seq<bool>, offs: seq<nat>, buckets: nat, j: nat)
    requires IsHeader(bs, offs, buckets) && j < buckets
    ensures CountUpTo(offs, j - 1) <= CountUpTo(offs, j) && CountUpTo(offs, j) + j < |bs|
    ensures forall x :: CountUpTo(offs, j - 1) + j <= x < CountUpTo(offs, j) + j ==> !bs[x]
    ensures bs[CountUpTo(offs, j) + j]
  {
    var a, b := CountUpTo(offs, j - 1), CountUpTo(offs, j);
    if b < a {
      CountSplits(offs, j - 1, b);
      CountSplits(offs, j, b);
    }
    forall x | a + j <= x < b + j ensures !bs[x] {
      var k := x - j;
      CountSplits(offs, j, k);
      CountSplits(offs, j - 1, k);
      assert offs[k] + k == x;
      assert ZeroAt(offs, x);
    }
    if ZeroAt(offs, b + j) {
      var k :| 0 <= k < |offs| && offs[k] + k == b + j;
      CountSplits(offs, j, k);
    }
  }

  /** The end of bucket j, read off the header, is the number of fingerprints in buckets 0 to j. */
  lemma {:induction false} HeaderEnds(bs: seq<bool>, offs: seq<nat>, buckets: nat, j: nat)
    requires IsHeader(bs, offs, buckets) && j < buckets
    ensures j < Ones(bs) && Pos(bs, j) == CountUpTo(offs, j) + j && BucketEnd(bs, j) == CountUpTo(offs, j)
  {
    hide Ones, Pos, IsHeader;
    HeaderBits(bs, offs, buckets, j);
    var p := CountUpTo(offs, j) + j;
    if j == 0 {
      NoneBelow(offs);
      OnesInGap(bs, 0, p);
      NoOnes(bs);
    } else {
      HeaderEnds(bs, offs, buckets, j - 1);
      PosIs(bs, j - 1);
      OnesStep(bs, Pos(bs, j - 1));
      OnesInGap(bs, Pos(bs, j - 1) + 1, p);
    }
    PosUnique(bs, j, p);
  }

  lemma {:induction false} NoneBelow(offs: seq<nat>)
    ensures CountUpTo(offs, -1) == 0
  {
    if |offs| > 0 {
      NoneBelow(offs[..|offs| - 1]);
    }
  }

  /** The bounds of bucket j enclose exactly the fingerprints in it. */
  lemma HeaderBounds(bs: seq<bool>, offs: seq<nat>, buckets: nat, j: nat)
    requires IsHeader(bs, offs, buckets) && j < buckets
    ensures j < Ones(bs) && Pos(bs, j) < |offs| + buckets && BucketEnd(bs, j) <= |offs|
    ensures forall k :: 0 <= k < |offs| ==> (BucketStart(bs, j) <= k < BucketEnd(bs, j) <==> offs[k] == j)
  {
    hide Ones, Pos;
    HeaderEnds(bs, offs, buckets, j);
    if j > 0 {
      HeaderEnds(bs, offs, buckets, j - 1);
    }
    forall k | 0 <= k < |offs| ensures BucketStart(bs, j) <= k < BucketEnd(bs, j) <==> offs[k] == j {
      CountSplits(offs, j, k);
      CountSplits(offs, j - 1, k);
      if j == 0 {
        NoneBelow(offs);
      }
    }
  }
}
