/** RadixSort of src/routing_filter.c: least significant byte first, one stable counting pass per byte. */
module RadixSorting {
  import opened Bits
  import opened Concatenation

  // -------------------------------------------------- one stable pass

  /** Byte d of a word, as ((uint8 *)&x)[d] on a little-endian machine. */
  function Digit(x: Word, d: nat): (c: nat)
    ensures c < 256
  {
    Shr(x, 8 * d) % 256
  }

  /** The words whose byte d is c, in order. */
  function Bin(s: seq<Word>, d: nat, c: nat): seq<Word> {
    if |s| == 0 then []
    else Bin(s[..|s| - 1], d, c) + if Digit(s[|s| - 1], d) == c then [s[|s| - 1]] else []
  }

  function Bins(s: seq<Word>, d: nat): (r: seq<seq<Word>>)
    ensures |r| == 256
  {
    seq(256, c requires 0 <= c < 256 => Bin(s, d, c))
  }

  /** What a counting pass on byte d makes of s. */
  function Pass(s: seq<Word>, d: nat): seq<Word> { Flat(Bins(s, d)) }

  /** The words of a bin come from increasing positions. */
  lemma {:induction false} BinOrder(s: seq<Word>, d: nat, c: nat, k: nat, l: nat) returns (i: nat, j: nat)
    requires k < l < |Bin(s, d, c)|
    ensures i < j < |s| && s[i] == Bin(s, d, c)[k] && s[j] == Bin(s, d, c)[l]
  {
    var n := |s| - 1;
    if l < |Bin(s[..n], d, c)| {
      i, j := BinOrder(s[..n], d, c, k, l);
    } else {
      i := BinMember(s[..n], d, c, k);
      j := n;
    }
  }

  lemma {:induction false} BinMember(s: seq<Word>, d: nat, c: nat, k: nat) returns (i: nat)
    requires k < |Bin(s, d, c)|
    ensures i < |s| && s[i] == Bin(s, d, c)[k] && Digit(s[i], d) == c
  {
    var n := |s| - 1;
    if k < |Bin(s[..n], d, c)| {
      i := BinMember(s[..n], d, c, k);
    } else {
      i := n;
    }
  }

  lemma {:induction false} BinConcat(s: seq<Word>, t: seq<Word>, d: nat, c: nat)
    ensures Bin(s + t, d, c) == Bin(s, d, c) + Bin(t, d, c)
  {
    if |t| == 0 {
      assert s + t == s;
    } else {
      var t' := t[..|t| - 1];
      assert (s + t)[..|s + t| - 1] == s + t';
      BinConcat(s, t', d, c);
    }
  }

  /** The size of a bin does not depend on the order. */
  lemma {:induction false} BinSize(s: seq<Word>, t: seq<Word>, d: nat, c: nat)
    requires multiset(s) == multiset(t)
    ensures |Bin(s, d, c)| == |Bin(t, d, c)|
  {
    if |s| == 0 {
      assert |multiset(t)| == |t|;
    } else {
      var n := |s| - 1;
      assert s == s[..n] + [s[n]];
      assert s[n] in s && s[n] in multiset(t);
      var k :| 0 <= k < |t| && t[k] == s[n];
      var rest := t[..k] + t[k + 1..];
      assert t == t[..k] + [t[k]] + t[k + 1..];
      assert multiset(s[..n]) == multiset(s) - multiset([s[n]]);
      assert multiset(t) == multiset(t[..k]) + multiset([t[k]]) + multiset(t[k + 1..]);
      assert multiset(rest) == multiset(t) - multiset([t[k]]);
      BinSize(s[..n], rest, d, c);
      BinWithout(t, k, d, c);
    }
  }

  lemma BinWithout(t: seq<Word>, k: nat, d: nat, c: nat)
    requires k < |t|
    ensures |Bin(t, d, c)| == |Bin(t[..k] + t[k + 1..], d, c)| + if Digit(t[k], d) == c then 1 else 0
  {
    assert t == (t[..k] + [t[k]]) + t[k + 1..];
    BinConcat(t[..k] + [t[k]], t[k + 1..], d, c);
    BinConcat(t[..k], [t[k]], d, c);
    BinConcat(t[..k], t[k + 1..], d, c);
    assert [t[k]][..0] == [];
    assert |Bin([t[k]], d, c)| == if Digit(t[k], d) == c then 1 else 0;
  }

  // ------------------------------------------- a pass permutes and sorts

  /** The bins below b and the words in bins b and up. */
  function Above(s: seq<Word>, d: nat, b: nat): seq<Word> {
    if |s| == 0 then []
    else Above(s[..|s| - 1], d, b) + if Digit(s[|s| - 1], d) >= b then [s[|s| - 1]] else []
  }

  lemma {:induction false} AboveSplits(s: seq<Word>, d: nat, b: nat)
    ensures multiset(Above(s, d, b)) == multiset(Bin(s, d, b)) + multiset(Above(s, d, b + 1))
  {
    if |s| > 0 {
      AboveSplits(s[..|s| - 1], d, b);
    }
  }

  lemma {:induction false} AboveAll(s: seq<Word>, d: nat)
    ensures Above(s, d, 0) == s && Above(s, d, 256) == []
  {
    if |s| > 0 {
      AboveAll(s[..|s| - 1], d);
      assert s == s[..|s| - 1] + [s[|s| - 1]];
    }
  }

  lemma {:induction false} BinsUpTo(s: seq<Word>, d: nat, b: nat)
    requires b <= 256
    ensures multiset(Flat(Bins(s, d)[..b])) + multiset(Above(s, d, b)) == multiset(s)
  {
    if b == 0 {
      AboveAll(s, d);
      assert Bins(s, d)[..0] == [];
    } else {
      BinsUpTo(s, d, b - 1);
      AboveSplits(s, d, b - 1);
      assert Bins(s, d)[..b][..b - 1] == Bins(s, d)[..b - 1];
      assert Flat(Bins(s, d)[..b]) == Flat(Bins(s, d)[..b - 1]) + Bin(s, d, b - 1);
    }
  }

  lemma PassPermutes(s: seq<Word>, d: nat)
    ensures multiset(Pass(s, d)) == multiset(s) && |Pass(s, d)| == |s|
  {
    hide Flat, Bin, Above;
    BinsUpTo(s, d, 256);
    AboveAll(s, d);
    assert Bins(s, d)[..256] == Bins(s, d);
    assert |multiset(s)| == |s| && |multiset(Pass(s, d))| == |Pass(s, d)|;
  }

  /** Bytes sh, ..., sh + j - 1 of x, as a number. */
  function SortKey(x: Word, sh: nat, j: nat): nat { Shr(x, 8 * sh) % Pow2(8 * j) }

  ghost predicate SortedBy(s: seq<Word>, sh: nat, j: nat) {
    forall p, q :: 0 <= p < q < |s| ==> SortKey(s[p], sh, j) <= SortKey(s[q], sh, j)
  }

  lemma NextKey(x: Word, sh: nat, j: nat)
    ensures SortKey(x, sh, j + 1) == SortKey(x, sh, j) + Digit(x, sh + j) * Pow2(8 * j)
    ensures SortKey(x, sh, j) < Pow2(8 * j)
  {
    var y, m := Shr(x, 8 * sh), Pow2(8 * j);
    Pow2Add(8 * sh, 8 * j);
    DivDiv(x, Pow2(8 * sh), m);
    assert 8 * sh + 8 * j == 8 * (sh + j);
    assert Digit(x, sh + j) == (y / m) % 256;
    assert Pow2(8) == 256;
    Pow2Add(8 * j, 8);
    assert 8 * j + 8 == 8 * (j + 1);
    ModSplit(y, m, 256);
  }

  lemma ModSplit(y: nat, m: nat, k: nat)
    requires m > 0 && k > 0
    ensures m * k > 0 && y % (m * k) == y % m + ((y / m) % k) * m && y % m < m
  {
    var q, r := y / m, y % m;
    var a, b := q / k, q % k;
    Regroup(m, k, a);
    Spread(m, k * a, b);
    Times(m, b + 1, k);
    Spread(m, b, 1);
    Positive(m, k);
    DivUnique(y, m * k, a, b * m + r);
  }

  lemma KeysCompare(p: nat, q: nat, a: nat, b: nat, m: nat)
    requires p < m && q < m && (a < b || (a == b && p <= q))
    ensures p + a * m <= q + b * m
  {
    if a < b {
      Times(m, a + 1, b);
      assert (a + 1) * m == a * m + m;
    }
  }

  /** Stability: a pass on the next byte extends the sorted part of the key. */
  lemma PassSorts(s: seq<Word>, sh: nat, j: nat)
    requires SortedBy(s, sh, j)
    ensures SortedBy(Pass(s, sh + j), sh, j + 1)
  {
    hide Flat, Bin, SortKey, Digit;
    var d := sh + j;
    var t := Pass(s, d);
    forall p, q | 0 <= p < q < |t| ensures SortKey(t[p], sh, j + 1) <= SortKey(t[q], sh, j + 1) {
      var c, k := FlatSource(Bins(s, d), p);
      var c', k' := FlatSource(Bins(s, d), q);
      var i := BinMember(s, d, c, k);
      var i' := BinMember(s, d, c', k');
      NextKey(t[p], sh, j);
      NextKey(t[q], sh, j);
      if c == c' {
        i, i' := BinOrder(s, d, c, k, k');
      } else if c' < c {
        OffsetMonotone(Bins(s, d), c' + 1, c);
        FlatAround(Bins(s, d), c');
        assert false;
      }
      KeysCompare(SortKey(t[p], sh, j), SortKey(t[q], sh, j), c, c', Pow2(8 * j));
    }
  }

  // ----------------------------------------------------------- one pass, done

  /** Where the next word of bin c goes after the first i words have been moved. */
  ghost function Cursor(s: seq<Word>, d: nat, i: nat, c: nat): nat
    requires i <= |s| && c < 256
  {
    Offset(Bins(s, d), c) + |Bin(s[..i], d, c)|
  }

  /** The words moved so far stand in their bins' ranges. */
  ghost predicate Scattered(s: seq<Word>, t: seq<Word>, d: nat, i: nat) {
    && i <= |s| <= |t|
    && forall c, k :: 0 <= c < 256 && 0 <= k < |Bin(s[..i], d, c)| ==> InPlace(s, t, d, i, c, k)
  }

  ghost predicate InPlace(s: seq<Word>, t: seq<Word>, d: nat, i: nat, c: nat, k: nat)
    requires i <= |s| <= |t| && c < 256 && k < |Bin(s[..i], d, c)|
  {
    Offset(Bins(s, d), c) + k < |s| && t[Offset(Bins(s, d), c) + k] == Bin(s[..i], d, c)[k]
  }

  lemma BinGrows(s: seq<Word>, d: nat, i: nat, c: nat)
    requires i < |s|
    ensures Bin(s[..i + 1], d, c) == Bin(s[..i], d, c) + if Digit(s[i], d) == c then [s[i]] else []
  {
    assert s[..i + 1][..i] == s[..i];
  }

  /** A bin has at most its final size, so its cursor stays below the next bin. */
  lemma CursorBound(s: seq<Word>, d: nat, i: nat, c: nat)
    requires i <= |s| && c < 256
    ensures |Bin(s[..i], d, c)| <= |Bin(s, d, c)|
    ensures Offset(Bins(s, d), c) + |Bin(s, d, c)| == Offset(Bins(s, d), c + 1) <= |s|
  {
    hide Flat, Bin;
    assert s == s[..i] + s[i..];
    BinConcat(s[..i], s[i..], d, c);
    FlatAround(Bins(s, d), c);
    PassPermutes(s, d);
    OffsetMonotone(Bins(s, d), c + 1, 256);
  }

  lemma CursorInside(s: seq<Word>, d: nat, i: nat)
    requires i < |s|
    ensures Cursor(s, d, i, Digit(s[i], d)) < Offset(Bins(s, d), Digit(s[i], d) + 1) <= |s|
  {
    hide Flat, Bin, Digit;
    BinGrows(s, d, i, Digit(s[i], d));
    CursorBound(s, d, i + 1, Digit(s[i], d));
  }

  lemma CursorsApart(s: seq<Word>, d: nat, i: nat, c: nat, c': nat, k: nat)
    requires i < |s| && c == Digit(s[i], d) && c' < 256 && k < |Bin(s[..i], d, c')|
    ensures Offset(Bins(s, d), c') + k != Cursor(s, d, i, c)
    ensures Offset(Bins(s, d), c') + k < |s|
  {
    hide Flat, Bin, Digit;
    CursorBound(s, d, i, c');
    CursorInside(s, d, i);
    if c < c' {
      OffsetMonotone(Bins(s, d), c + 1, c');
    } else if c' < c {
      OffsetMonotone(Bins(s, d), c' + 1, c);
    }
  }

  lemma ScatterStep(s: seq<Word>, t: seq<Word>, d: nat, i: nat)
    requires i < |s| && Scattered(s, t, d, i)
    ensures Cursor(s, d, i, Digit(s[i], d)) < |s|
    ensures Scattered(s, t[Cursor(s, d, i, Digit(s[i], d)) := s[i]], d, i + 1)
  {
    hide Flat, Bin, Digit;
    var at := Cursor(s, d, i, Digit(s[i], d));
    CursorInside(s, d, i);
    var t', n := t[at := s[i]], i + 1;
    forall c, k | 0 <= c < 256 && 0 <= k < |Bin(s[..n], d, c)| ensures InPlace(s, t', d, n, c, k) {
      BinGrows(s, d, i, c);
      if k < |Bin(s[..i], d, c)| {
        CursorsApart(s, d, i, Digit(s[i], d), c, k);
        assert InPlace(s, t, d, i, c, k);
      }
    }
  }

  lemma ScatterDone(s: seq<Word>, t: seq<Word>, d: nat)
    requires Scattered(s, t, d, |s|)
    ensures t[..|s|] == Pass(s, d)
  {
    hide Flat, Bin, Digit;
    PassPermutes(s, d);
    assert s[..|s|] == s;
    forall p | 0 <= p < |s| ensures t[p] == Pass(s, d)[p] {
      var c, k := FlatSource(Bins(s, d), p);
      assert InPlace(s, t, d, |s|, c, k);
    }
  }

  // ------------------------------------------------------------- the method

  const ROWS: nat := 4
  const COLS: nat := 256

  /** Byte j of u = x >> (8 * sh). */
  lemma ShiftedDigit(x: Word, sh: nat, j: nat)
    ensures Shr(x, 8 * sh) < B32 && Digit(Shr(x, 8 * sh), j) == Digit(x, sh + j)
  {
    Pow2Add(8 * sh, 8 * j);
    DivDiv(x, Pow2(8 * sh), Pow2(8 * j));
    assert 8 * sh + 8 * j == 8 * (sh + j);
    DivBound(x, Pow2(8 * sh));
  }

  lemma DivBound(x: nat, d: nat)
    requires d > 0
    ensures x / d <= x
  {
    var q := x / d;
    assert x == q * d + x % d;
    Times(q, 1, d);
  }

  /** Generating the histograms of `rounds` bytes from byte sh on. */
  method CountBytes(pData: array<Word>, mIndex: array2<nat>, count: nat, rounds: nat, sh: nat)
    requires count <= pData.Length && mIndex.Length0 == ROWS && mIndex.Length1 == COLS && rounds <= ROWS
    requires forall j, c :: 0 <= j < ROWS && 0 <= c < COLS ==> mIndex[j, c] == 0
    modifies mIndex
    ensures forall j, c :: 0 <= j < rounds && 0 <= c < COLS ==> mIndex[j, c] == |Bin(pData[..count], sh + j, c)|
  {
    hide Bin, Digit;
    NoBins();
    for i := 0 to count
      invariant forall j, c :: 0 <= j < rounds && 0 <= c < COLS ==> mIndex[j, c] == |Bin(pData[..i], sh + j, c)|
    {
      ShiftedBound(pData[i], sh);
      var u := Shr(pData[i], 8 * sh);
      ghost var before, after := pData[..i], pData[..i + 1];
      assert after == before + [pData[i]];
      for j := 0 to rounds
        invariant forall k, c :: 0 <= k < j && 0 <= c < COLS ==> mIndex[k, c] == |Bin(after, sh + k, c)|
        invariant forall k, c :: j <= k < rounds && 0 <= c < COLS ==> mIndex[k, c] == |Bin(before, sh + k, c)|
      {
        var c := Digit(u, j);
        ShiftedDigit(pData[i], sh, j);
        BinsGrow(before, pData[i], sh + j);
        mIndex[j, c] := mIndex[j, c] + 1;
      }
    }
  }

  lemma BinsGrow(s: seq<Word>, x: Word, d: nat)
    ensures forall c :: 0 <= c < COLS ==> |Bin(s + [x], d, c)| == |Bin(s, d, c)| + if c == Digit(x, d) then 1 else 0
  {
    assert (s + [x])[..|s|] == s;
  }

  lemma NoBins()
    ensures forall d, c :: |Bin([], d, c)| == 0
  {
  }

  lemma ShiftedBound(x: Word, sh: nat)
    ensures Shr(x, 8 * sh) < B32
  {
    DivBound(x, Pow2(8 * sh));
  }

  /** Converting the counts to start positions. No position exceeds the number of words. */
  method ToIndices(mIndex: array2<nat>, rounds: nat, ghost s: seq<Word>, ghost sh: nat)
    requires mIndex.Length0 == ROWS && mIndex.Length1 == COLS && rounds <= ROWS
    requires forall j, c :: 0 <= j < rounds && 0 <= c < COLS ==> mIndex[j, c] == |Bin(s, sh + j, c)|
    modifies mIndex
    ensures forall j, c :: 0 <= j < rounds && 0 <= c < COLS ==> mIndex[j, c] == Offset(Bins(s, sh + j), c)
  {
    hide Bin, Flat;
    for j := 0 to rounds
      invariant forall k, c :: 0 <= k < j && 0 <= c < COLS ==> mIndex[k, c] == Offset(Bins(s, sh + k), c)
      invariant forall k, c :: j <= k < rounds && 0 <= c < COLS ==> mIndex[k, c] == |Bin(s, sh + k, c)|
    {
      var n := 0;
      ghost var d := sh + j;
      StartsAtZero(Bins(s, d));
      for i := 0 to COLS
        invariant n == Offset(Bins(s, d), i)
        invariant forall c :: 0 <= c < i ==> mIndex[j, c] == Offset(Bins(s, d), c)
        invariant forall c :: i <= c < COLS ==> mIndex[j, c] == |Bin(s, d, c)|
        invariant forall k, c :: 0 <= k < j && 0 <= c < COLS ==> mIndex[k, c] == Offset(Bins(s, sh + k), c)
        invariant forall k, c :: j < k < rounds && 0 <= c < COLS ==> mIndex[k, c] == |Bin(s, sh + k, c)|
      {
        CursorBound(s, d, 0, i);
        var m := mIndex[j, i];
        mIndex[j, i] := n;
        assert mIndex[j, i] <= |s|;
        n := n + m;
      }
    }
  }

  lemma StartsAtZero(xs: seq<seq<Word>>)
    ensures Offset(xs, 0) == 0
  {
    assert xs[..0] == [];
  }

  /** Moving the words of pSrc to their bins in pDst, by byte j + sh. The index assertion never fires. */
  method Scatter(pSrc: array<Word>, pDst: array<Word>, mIndex: array2<nat>, count: nat, j: nat, sh: nat)
    requires mIndex.Length0 == ROWS && mIndex.Length1 == COLS && j < ROWS
    requires count <= pSrc.Length && count <= pDst.Length && pSrc != pDst
    requires forall c :: 0 <= c < COLS ==> mIndex[j, c] == Offset(Bins(pSrc[..count], sh + j), c)
    modifies pDst, mIndex
    ensures pDst[..count] == Pass(pSrc[..count], sh + j)
    ensures forall k, c :: 0 <= k < ROWS && 0 <= c < COLS && k != j ==> mIndex[k, c] == old(mIndex[k, c])
  {
    hide Bin, Flat, Digit, Pass, Scattered, Cursor;
    ghost var s, d := pSrc[..count], sh + j;
    ScatterBegins(s, pDst[..], d);
    for i := 0 to count
      invariant forall c :: 0 <= c < COLS ==> mIndex[j, c] == Cursor(s, d, i, c)
      invariant Scattered(s, pDst[..], d, i) && pSrc[..count] == s
      invariant forall k, c :: 0 <= k < ROWS && 0 <= c < COLS && k != j ==> mIndex[k, c] == old(mIndex[k, c])
    {
      var u := pSrc[i];
      assert u == s[i];
      var c := Digit(u, j + sh);
      ScatterStep(s, pDst[..], d, i);
      CursorsStep(s, d, i);
      assert mIndex[j, c] < count;
      pDst[mIndex[j, c]] := u;
      mIndex[j, c] := mIndex[j, c] + 1;
    }
    ScatterDone(s, pDst[..], d);
  }

  lemma ScatterBegins(s: seq<Word>, t: seq<Word>, d: nat)
    requires |s| <= |t|
    ensures Scattered(s, t, d, 0)
    ensures forall c :: 0 <= c < COLS ==> Cursor(s, d, 0, c) == Offset(Bins(s, d), c)
  {
    NoBins();
    assert s[..0] == [];
  }

  lemma CursorsStep(s: seq<Word>, d: nat, i: nat)
    requires i < |s|
    ensures forall c :: 0 <= c < COLS ==>
      Cursor(s, d, i + 1, c) == Cursor(s, d, i, c) + if c == Digit(s[i], d) then 1 else 0
  {
    hide Bin, Flat, Digit;
    forall c | 0 <= c < COLS
      ensures Cursor(s, d, i + 1, c) == Cursor(s, d, i, c) + if c == Digit(s[i], d) then 1 else 0
    {
      BinGrows(s, d, i, c);
    }
  }

  /** Where bins begin does not depend on the order of the words. */
  lemma {:induction false} SameStarts(s: seq<Word>, t: seq<Word>, d: nat, c: nat)
    requires multiset(s) == multiset(t) && c <= COLS
    ensures Offset(Bins(s, d), c) == Offset(Bins(t, d), c)
  {
    hide Flat, Bin;
    if c == 0 {
      StartsAtZero(Bins(s, d));
      StartsAtZero(Bins(t, d));
    } else {
      SameStarts(s, t, d, c - 1);
      BinSize(s, t, d, c - 1);
      FlatAround(Bins(s, d), c - 1);
      FlatAround(Bins(t, d), c - 1);
    }
  }

  /** The words agree in their low value bits and have nothing above fp_size + value_size bits. */
  ghost predicate Sortable(s: seq<Word>, fpSize: nat, valueSize: nat) {
    && (forall i :: 0 <= i < |s| ==> s[i] < Pow2(fpSize + valueSize))
    && (forall i, k :: 0 <= i < k < |s| ==> s[i] % Pow2(valueSize) == s[k] % Pow2(valueSize))
  }

  /** RadixSort: the result is sorted and holds the same words. */
  method RadixSort(pData: array<Word>, mIndex: array2<nat>, pTemp: array<Word>, count: nat, fp_size: nat,
                   value_size: nat)
    returns (sorted: array<Word>)
    requires mIndex.Length0 == ROWS && mIndex.Length1 == COLS && pData != pTemp
    requires forall j, c :: 0 <= j < ROWS && 0 <= c < COLS ==> mIndex[j, c] == 0
    requires count <= pData.Length && count <= pTemp.Length
    requires (if fp_size == 0 then 1 else fp_size) + value_size <= 32
    requires Sortable(pData[..count], if fp_size == 0 then 1 else fp_size, value_size)
    modifies pData, pTemp, mIndex
    ensures sorted == pData || sorted == pTemp
    ensures multiset(sorted[..count]) == multiset(old(pData[..count]))
    ensures forall i, k :: 0 <= i < k < count ==> sorted[i] <= sorted[k]
  {
    hide Bin, Flat, SortedBy, Pass, Sortable;
    var fpover := value_size % 8;
    var fpSize := if fp_size == 0 then 1 else fp_size;
    var rounds := (fpSize + fpover - 1) / 8 + 1;
    var fpshift := value_size / 8;
    ghost var all := pData[..count];
    CountBytes(pData, mIndex, count, rounds, fpshift);
    ToIndices(mIndex, rounds, all, fpshift);
    var pDst, pSrc := pTemp, pData;
    NoKey(all, fpshift);
    for j := 0 to rounds
      invariant (pSrc == pData && pDst == pTemp) || (pSrc == pTemp && pDst == pData)
      invariant multiset(pSrc[..count]) == multiset(all) && SortedBy(pSrc[..count], fpshift, j)
      invariant forall k, c :: j <= k < rounds && 0 <= c < COLS ==> mIndex[k, c] == Offset(Bins(all, fpshift + k), c)
    {
      ghost var src, d := pSrc[..count], fpshift + j;
      forall c | 0 <= c < COLS ensures Offset(Bins(src, d), c) == Offset(Bins(all, d), c) {
        SameStarts(src, all, d, c);
      }
      PassSorts(pSrc[..count], fpshift, j);
      PassPermutes(pSrc[..count], fpshift + j);
      Scatter(pSrc, pDst, mIndex, count, j, fpshift);
      pSrc, pDst := pDst, pSrc;
    }
    SortedAtLast(all, pSrc[..count], fpSize, value_size, rounds);
    return pSrc;
  }

  lemma NoKey(s: seq<Word>, sh: nat)
    ensures SortedBy(s, sh, 0)
  {
    assert Pow2(8 * 0) == 1;
  }

  /** All bytes that can differ have been sorted on. */
  lemma SortedAtLast(all: seq<Word>, s: seq<Word>, fpSize: nat, valueSize: nat, rounds: nat)
    requires Sortable(all, fpSize, valueSize) && multiset(s) == multiset(all) && fpSize > 0
    requires rounds == (fpSize + valueSize % 8 - 1) / 8 + 1 && SortedBy(s, valueSize / 8, rounds)
    ensures forall i, k :: 0 <= i < k < |s| ==> s[i] <= s[k]
  {
    hide SortKey, Pow2;
    forall i, k | 0 <= i < k < |s| ensures s[i] <= s[k] {
      assert s[i] in multiset(s) && s[k] in multiset(s);
      assert s[i] in all && s[k] in all;
      KeyDecides(s[i], s[k], fpSize, valueSize, rounds);
    }
  }

  lemma KeyDecides(x: Word, y: Word, fpSize: nat, valueSize: nat, rounds: nat)
    requires x < Pow2(fpSize + valueSize) && y < Pow2(fpSize + valueSize) && fpSize > 0
    requires x % Pow2(valueSize) == y % Pow2(valueSize)
    requires rounds == (fpSize + valueSize % 8 - 1) / 8 + 1
    requires SortKey(x, valueSize / 8, rounds) <= SortKey(y, valueSize / 8, rounds)
    ensures x <= y
  {
    hide Pow2;
    var lo := 8 * (valueSize / 8);
    WholeKey(x, fpSize, valueSize, rounds);
    WholeKey(y, fpSize, valueSize, rounds);
    LowPart(x, valueSize, lo);
    LowPart(y, valueSize, lo);
    DivOrder(x, y, Pow2(lo));
  }

  lemma DivOrder(x: nat, y: nat, d: nat)
    requires d > 0 && x / d <= y / d && x % d == y % d
    ensures x <= y
  {
    assert x == (x / d) * d + x % d && y == (y / d) * d + y % d;
    Times(d, x / d, y / d);
  }

  lemma LowPart(x: nat, v: nat, lo: nat)
    requires lo <= v
    ensures x % Pow2(lo) == (x % Pow2(v)) % Pow2(lo)
  {
    hide Pow2;
    Pow2Add(lo, v - lo);
    ModMod(x, Pow2(lo), Pow2(v - lo));
  }

  lemma ModMod(x: nat, m: nat, k: nat)
    requires m > 0 && k > 0
    ensures m * k > 0 && (x % (m * k)) % m == x % m
  {
    ModSplit(x, m, k);
    DivUnique(x % m + ((x / m) % k) * m, m, (x / m) % k, x % m);
  }

  /** The key of all the bytes from sh on is the word without its low bytes. */
  lemma WholeKey(x: Word, fpSize: nat, valueSize: nat, rounds: nat)
    requires x < Pow2(fpSize + valueSize) && fpSize > 0 && rounds == (fpSize + valueSize % 8 - 1) / 8 + 1
    ensures SortKey(x, valueSize / 8, rounds) == x / Pow2(8 * (valueSize / 8))
  {
    hide Pow2;
    var lo := 8 * (valueSize / 8);
    Pow2Monotone(fpSize + valueSize, lo + 8 * rounds);
    Pow2Add(lo, 8 * rounds);
    DivLess(x, Pow2(lo), Pow2(8 * rounds));
  }

  lemma DivLess(x: nat, m: nat, k: nat)
    requires m > 0 && k > 0 && x < m * k
    ensures x / m < k && (x / m) % k == x / m
  {
    var q := x / m;
    assert x == m * q + x % m;
    if q >= k {
      Times(m, k, q);
    }
    DivUnique(q, k, 0, q);
  }
}
