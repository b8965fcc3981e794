/** src/PackedArray.c: items of 1 to 32 bits laid end to end in an array of 32-bit words. */
module PackedArray {
  import opened Bits

  // ------------------------------------------------- bits of a word array

  predicate BitAt(a: seq<Word>, k: nat)
    requires k < 32 * |a|
  {
    Bit(a[k / 32], k % 32)
  }

  function FromBits(bs: seq<bool>): nat {
    if |bs| == 0 then 0 else (if bs[0] then 1 else 0) + 2 * FromBits(bs[1..])
  }

  lemma FromBitsStep(bs: seq<bool>)
    requires |bs| > 0
    ensures FromBits(bs) / 2 == FromBits(bs[1..]) && (FromBits(bs) % 2 == 1) == bs[0]
  {
  }

  lemma {:induction false} FromBitsBit(bs: seq<bool>, i: nat)
    ensures Bit(FromBits(bs), i) == (i < |bs| && bs[i])
    decreases |bs|
  {
    if |bs| == 0 {
      ZeroBit(i);
    } else {
      hide FromBits;
      FromBitsStep(bs);
      if i > 0 {
        FromBitsBit(bs[1..], i - 1);
      }
    }
  }

  lemma {:induction false} FromBitsBound(bs: seq<bool>)
    ensures FromBits(bs) < Pow2(|bs|)
  {
    if |bs| > 0 {
      FromBitsBound(bs[1..]);
    }
  }

  /** Item i: the b bits starting at bit i * b. */
  function ItemAt(a: seq<Word>, b: nat, i: nat): nat
    requires i * b + b <= 32 * |a|
  {
    FromBits(seq(b, j requires 0 <= j < b => BitAt(a, i * b + j)))
  }

  lemma ItemAtBit(a: seq<Word>, b: nat, i: nat, j: nat)
    requires i * b + b <= 32 * |a|
    ensures Bit(ItemAt(a, b, i), j) == (j < b && BitAt(a, i * b + j))
    ensures ItemAt(a, b, i) < Pow2(b)
  {
    var bs := seq(b, k requires 0 <= k < b => BitAt(a, i * b + k));
    FromBitsBit(bs, j);
    FromBitsBound(bs);
  }

  /** A word with the right bits is the item. */
  lemma ItemIs(a: seq<Word>, b: nat, i: nat, pos: nat, v: Word)
    requires b <= 32 && pos == i * b && pos + b <= 32 * |a|
    requires forall j :: 0 <= j < 32 ==> Bit(v, j) == (j < b && BitAt(a, pos + j))
    ensures v == ItemAt(a, b, i)
  {
    hide ItemAt, BitAt;
    Pow2Of32();
    Pow2Monotone(b, 32);
    forall j | 0 <= j < 32 ensures Bit(v, j) == Bit(ItemAt(a, b, i), j) {
      ItemAtBit(a, b, i, j);
    }
    ItemAtBit(a, b, i, 0);
    SameBits(v, ItemAt(a, b, i), 32);
  }

  lemma MaskIsWord(b: nat)
    requires b <= 32
    ensures Mask(b) < B32
  {
    Pow2Of32();
    Pow2Monotone(b, 32);
  }

  // --------------------------------------------------- extracting a value

  /** The two ways to cut an item out of the word it starts in and, when it spans two, the next one. */
  function Within(x: Word, s: nat, b: nat): nat { And(Shr(x, s), Mask(b)) }

  function Spanning(x: Word, y: Word, s: nat, b: nat): nat
    requires s <= 32
  {
    And(Or(Shr(x, s), Shl(y, 32 - s)), Mask(b))
  }

  lemma WithinBit(x: Word, s: nat, b: nat, j: nat)
    ensures Bit(Within(x, s, b), j) == (j < b && Bit(x, j + s))
  {
    AndBit(Shr(x, s), Mask(b), j);
    ShrBit(x, s, j);
    MaskBit(b, j);
  }

  lemma SpanningBit(x: Word, y: Word, s: nat, b: nat, j: nat)
    requires s < 32 && b <= 32 && j < 32
    ensures Bit(Spanning(x, y, s, b), j) == (j < b && if j < 32 - s then Bit(x, j + s) else Bit(y, j + s - 32))
  {
    AndBit(Or(Shr(x, s), Shl(y, 32 - s)), Mask(b), j);
    OrBit(Shr(x, s), Shl(y, 32 - s), j);
    ShrBit(x, s, j);
    ShlBit(y, 32 - s, j);
    MaskBit(b, j);
    if j >= 32 - s {
      Pow2Of32();
      HighBits(x, 32, j + s);
    }
  }

  lemma WithinIsItem(a: seq<Word>, b: nat, i: nat)
    requires 0 < b <= 32 && i * b + b <= 32 * |a| && (i * b) % 32 + b <= 32
    ensures Within(a[(i * b) / 32], (i * b) % 32, b) == ItemAt(a, b, i)
  {
    hide Within, ItemAt;
    var pos := i * b;
    var x, s := a[pos / 32], pos % 32;
    forall j | 0 <= j < 32 ensures Bit(Within(x, s, b), j) == (j < b && BitAt(a, pos + j)) {
      WithinBit(x, s, b, j);
      if j < b {
        assert (pos + j) / 32 == pos / 32 && (pos + j) % 32 == s + j;
      }
    }
    WithinBound(x, s, b);
    ItemIs(a, b, i, pos, Within(x, s, b));
  }

  lemma WithinBound(x: Word, s: nat, b: nat)
    requires b <= 32
    ensures Within(x, s, b) < B32
  {
    MaskIsWord(b);
    AndBound(Shr(x, s), Mask(b));
  }

  lemma SpanningIsItem(a: seq<Word>, b: nat, i: nat)
    requires 0 < b <= 32 && i * b + b <= 32 * |a| && (i * b) % 32 + b > 32
    ensures (i * b) / 32 + 1 < |a|
    ensures Spanning(a[(i * b) / 32], a[(i * b) / 32 + 1], (i * b) % 32, b) == ItemAt(a, b, i)
  {
    hide Spanning, ItemAt;
    var pos := i * b;
    var w, s := pos / 32, pos % 32;
    var v := Spanning(a[w], a[w + 1], s, b);
    forall j | 0 <= j < 32 ensures Bit(v, j) == (j < b && BitAt(a, pos + j)) {
      SpanningBit(a[w], a[w + 1], s, b, j);
      if j < b {
        if j < 32 - s {
          assert (pos + j) / 32 == w && (pos + j) % 32 == s + j;
        } else {
          assert (pos + j) / 32 == w + 1 && (pos + j) % 32 == s + j - 32;
        }
      }
    }
    SpanningBound(a[w], a[w + 1], s, b);
    ItemIs(a, b, i, pos, v);
  }

  lemma SpanningBound(x: Word, y: Word, s: nat, b: nat)
    requires s <= 32 && b <= 32
    ensures Spanning(x, y, s, b) < B32
  {
    MaskIsWord(b);
    AndBound(Or(Shr(x, s), Shl(y, 32 - s)), Mask(b));
  }

  // ------------------------------------------------------------------ get

  /** PackedArray_get */
  method Get(a: seq<Word>, offset: nat, b: nat) returns (out: Word)
    requires 0 < b <= 32 && offset * b + b <= 32 * |a|
    ensures out == ItemAt(a, b, offset)
  {
    hide ItemAt;
    var pos := offset * b;
    var w, startBit := pos / 32, pos % 32;
    var bitsAvailable := 32 - startBit;
    if b <= bitsAvailable {
      WithinIsItem(a, b, offset);
      WithinBound(a[w], startBit, b);
      out := And(Shr(a[w], startBit), Mask(b));
    } else {
      SpanningIsItem(a, b, offset);
      var low, high := Shr(a[w], startBit), Shl(a[w + 1], 32 - startBit);
      SelectHigh(a[w], a[w + 1], startBit, b);
      out := Xor(low, And(Xor(low, high), Shl(Shr(Mask(b), bitsAvailable), bitsAvailable)));
    }
  }

  /** Selecting by xor: the bits under the mask come from `high`, the others from `low`. */
  lemma SelectHigh(x: Word, y: Word, s: nat, b: nat)
    requires s < 32 && b <= 32 && 32 - s < b
    ensures var low, high := Shr(x, s), Shl(y, 32 - s);
      Xor(low, And(Xor(low, high), Shl(Shr(Mask(b), 32 - s), 32 - s))) == Spanning(x, y, s, b) < B32
  {
    var low, high, m := Shr(x, s), Shl(y, 32 - s), Shl(Shr(Mask(b), 32 - s), 32 - s);
    var v := Xor(low, And(Xor(low, high), m));
    Pow2Of32();
    forall j | 0 <= j < 32 ensures Bit(v, j) == Bit(Spanning(x, y, s, b), j) {
      hide *;
      SelectBit(x, y, s, b, j);
      SpanningBit(x, y, s, b, j);
    }
    ShrBound(x, s);
    AndBound(Xor(low, high), m);
    OrBound(low, And(Xor(low, high), m), 32);
    SpanningBound(x, y, s, b);
    SameBits(v, Spanning(x, y, s, b), 32);
  }

  lemma ShrBound(x: nat, s: nat)
    ensures Shr(x, s) <= x
  {
    DivSmaller(x, Pow2(s));
  }

  lemma DivSmaller(x: nat, d: nat)
    requires d > 0
    ensures x / d <= x
  {
    var q := x / d;
    assert x == q * d + x % d;
    Times(q, 1, d);
  }

  lemma SelectBit(x: Word, y: Word, s: nat, b: nat, j: nat)
    requires s < 32 && b <= 32 && 32 - s < b && j < 32
    ensures var low, high := Shr(x, s), Shl(y, 32 - s);
      Bit(Xor(low, And(Xor(low, high), Shl(Shr(Mask(b), 32 - s), 32 - s))), j)
      == if j < 32 - s then Bit(x, j + s) else j < b && Bit(y, j + s - 32)
  {
    hide *;
    var low, high, m := Shr(x, s), Shl(y, 32 - s), Shl(Shr(Mask(b), 32 - s), 32 - s);
    XorBit(low, And(Xor(low, high), m), j);
    AndBit(Xor(low, high), m, j);
    XorBit(low, high, j);
    ShrBit(x, s, j);
    ShlBit(y, 32 - s, j);
    ShlBit(Shr(Mask(b), 32 - s), 32 - s, j);
    if j >= 32 - s {
      ShrBit(Mask(b), 32 - s, j - (32 - s));
      MaskBit(b, j);
      Pow2Of32();
      HighBits(x, 32, j + s);
    }
  }

  // ------------------------------------------------------------------ set

  /** Bit k after item `offset` has been replaced by v. */
  ghost predicate SetBit(was: seq<Word>, b: nat, offset: nat, v: Word, k: nat)
    requires k < 32 * |was|
  {
    if offset * b <= k < offset * b + b then Bit(v, k - offset * b) else BitAt(was, k)
  }

  /** PackedArray_set: only the item's own bits change. */
  method Set(a: array<Word>, offset: nat, v: Word, b: nat)
    requires 0 < b <= 32 && offset * b + b <= 32 * a.Length && v < Pow2(b)
    modifies a
    ensures forall k :: 0 <= k < 32 * a.Length ==> BitAt(a[..], k) == SetBit(old(a[..]), b, offset, v, k)
  {
    hide And, Or, Shl, Shr, Not, Mask;
    ghost var was := a[..];
    var pos := offset * b;
    var w, startBit := pos / 32, pos % 32;
    var bitsAvailable := 32 - startBit;
    MaskIsWord(b);
    ReplacedIsWord(a[w], Shl(Mask(b), startBit), Shl(v, startBit));
    a[w] := Or(And(a[w], Not(Shl(Mask(b), startBit))), Shl(v, startBit));
    ghost var low := a[w];
    forall j | 0 <= j < 32
      ensures Bit(low, j) == if startBit <= j < startBit + b then Bit(v, j - startBit) else Bit(was[w], j)
    {
      SetLowBit(was[w], startBit, b, v, j);
    }
    if b > bitsAvailable {
      ShrBound(Mask(b), bitsAvailable);
      ShrBound(v, bitsAvailable);
      ReplacedIsWord(a[w + 1], Shr(Mask(b), bitsAvailable), Shr(v, bitsAvailable));
      a[w + 1] := Or(And(a[w + 1], Not(Shr(Mask(b), bitsAvailable))), Shr(v, bitsAvailable));
      ghost var high := a[w + 1];
      forall j | 0 <= j < 32
        ensures Bit(high, j) == if j + bitsAvailable < b then Bit(v, j + bitsAvailable) else Bit(was[w + 1], j)
      {
        SetHighBit(was[w + 1], bitsAvailable, b, v, j);
      }
    }
    forall k | 0 <= k < 32 * a.Length ensures BitAt(a[..], k) == SetBit(was, b, offset, v, k) {
      if k / 32 == w {
        assert k == 32 * w + k % 32 && pos == 32 * w + startBit;
      } else if k / 32 == w + 1 {
        assert k == 32 * w + 32 + k % 32;
      }
    }
  }

  lemma ReplacedIsWord(x: Word, m: Word, y: Word)
    ensures Or(And(x, Not(m)), y) < B32
  {
    Pow2Of32();
    AndBound(x, Not(m));
    OrBound(And(x, Not(m)), y, 32);
  }

  lemma SetLowBit(x: Word, s: nat, b: nat, v: Word, j: nat)
    requires s < 32 && b <= 32 && v < Pow2(b) && j < 32
    ensures Mask(b) < B32
    ensures Bit(Or(And(x, Not(Shl(Mask(b), s))), Shl(v, s)), j)
         == if s <= j < s + b then Bit(v, j - s) else Bit(x, j)
  {
    hide *;
    MaskIsWord(b);
    OrBit(And(x, Not(Shl(Mask(b), s))), Shl(v, s), j);
    AndBit(x, Not(Shl(Mask(b), s)), j);
    NotBit(Shl(Mask(b), s), j);
    ShlBit(Mask(b), s, j);
    ShlBit(v, s, j);
    if s <= j {
      MaskBit(b, j - s);
      if s + b <= j {
        HighBits(v, b, j - s);
      }
    }
  }

  lemma SetHighBit(y: Word, avail: nat, b: nat, v: Word, j: nat)
    requires avail < b <= 32 && v < Pow2(b) && j < 32
    ensures Shr(Mask(b), avail) < B32
    ensures Bit(Or(And(y, Not(Shr(Mask(b), avail))), Shr(v, avail)), j)
         == if j + avail < b then Bit(v, j + avail) else Bit(y, j)
  {
    hide *;
    MaskIsWord(b);
    ShrBound(Mask(b), avail);
    OrBit(And(y, Not(Shr(Mask(b), avail))), Shr(v, avail), j);
    AndBit(y, Not(Shr(Mask(b), avail)), j);
    NotBit(Shr(Mask(b), avail), j);
    ShrBit(Mask(b), avail, j);
    ShrBit(v, avail, j);
    MaskBit(b, j + avail);
    if b <= j + avail {
      HighBits(v, b, j + avail);
    }
  }

  // ----------------------------------------------------------------- pack

  /** Bit k once items have been packed from item `offset` on. */
  ghost predicate PackedBit(was: seq<Word>, b: nat, offset: nat, items: seq<Word>, k: nat)
    requires b > 0
  {
    if offset <= k / b < offset + |items| then Bit(items[k / b - offset], k % b)
    else k < 32 * |was| && BitAt(was, k)
  }

  /** The first w words are written, `packed` holds s bits of the next one, and the rest is untouched; T is the
      bit string being written. */
  ghost predicate Streamed(words: seq<Word>, was: seq<Word>, packed: Word, w: nat, s: nat, T: nat -> bool) {
    && |words| == |was| && w <= |words| && s < 32
    && (forall k :: 0 <= k < 32 * w ==> BitAt(words, k) == T(k))
    && (forall i :: w <= i < |words| ==> words[i] == was[i])
    && Begun(packed, w, s, T)
  }

  ghost predicate Begun(packed: Word, w: nat, s: nat, T: nat -> bool) {
    forall j :: 0 <= j < 32 ==> Bit(packed, j) == (j < s && T(32 * w + j))
  }

  /** The b bits from bit `pos` on are those of v. */
  ghost predicate ItemBits(v: Word, b: nat, pos: nat, T: nat -> bool) {
    forall j :: 0 <= j < b ==> T(pos + j) == Bit(v, j)
  }

  /** One case of the unrolled packing loop. */
  method PackCase(a: array<Word>, cursor: nat, acc: Word, v: Word, startBit: nat, b: nat,
                  ghost was: seq<Word>, ghost T: nat -> bool)
    returns (out: nat, packed: Word)
    requires 0 < b <= 32 && v < Pow2(b) && 32 * cursor + startBit + b <= 32 * a.Length
    requires Streamed(a[..], was, acc, cursor, startBit, T) && ItemBits(v, b, 32 * cursor + startBit, T)
    modifies a
    ensures out == if startBit + b < 32 then cursor else cursor + 1
    ensures Streamed(a[..], was, packed, out, if startBit + b < 32 then startBit + b else startBit + b - 32, T)
  {
    hide Or, Shl, Shr, BitAt, Bit;
    out := cursor;
    var bitsAvailable := 32 - startBit;
    AppendedBits(acc, v, cursor, startBit, b, T);
    packed := Or(acc, Shl(v, startBit));
    if b <= bitsAvailable {
      if b == bitsAvailable {
        WriteWord(a[..], was, cursor, packed, T);
        a[out] := packed;
        out := out + 1;
        packed := 0;
        ZeroBits();
      }
    } else {
      WriteWord(a[..], was, cursor, packed, T);
      a[out] := packed;
      out := out + 1;
      ShrBound(v, bitsAvailable);
      packed := Shr(v, bitsAvailable);
      SpilledBits(v, packed, b, bitsAvailable, 32 * out, 32 * cursor + startBit, T);
    }
  }

  /** The word in progress after an item has been or-ed in. */
  lemma AppendedBits(acc: Word, v: Word, w: nat, s: nat, b: nat, T: nat -> bool)
    requires s < 32 && v < Pow2(b) && Begun(acc, w, s, T) && ItemBits(v, b, 32 * w + s, T)
    ensures Or(acc, Shl(v, s)) < B32 && Begun(Or(acc, Shl(v, s)), w, s + b, T)
  {
    hide Bit, Or, Shl;
    OrIsWord(acc, Shl(v, s));
    forall j | 0 <= j < 32 ensures Bit(Or(acc, Shl(v, s)), j) == (j < s + b && T(32 * w + j)) {
      AppendBit(acc, v, s, b, j);
      assert s <= j < s + b ==> T(32 * w + s + (j - s)) == Bit(v, j - s);
    }
  }

  /** What is left of an item after its first `avail` bits begins the next word, at bit `base`. */
  lemma SpilledBits(v: Word, rest: Word, b: nat, avail: nat, base: nat, pos: nat, T: nat -> bool)
    requires v < Pow2(b) && b <= 32 && avail < b && base == pos + avail && rest == Shr(v, avail)
    requires ItemBits(v, b, pos, T)
    ensures forall j :: 0 <= j < 32 ==> Bit(rest, j) == (j < b - avail && T(base + j))
  {
    hide Bit, Shr;
    forall j | 0 <= j < 32 ensures Bit(rest, j) == (j < b - avail && T(base + j)) {
      ShrBit(v, avail, j);
      if j + avail < b {
        assert T(pos + (j + avail)) == Bit(v, j + avail);
      } else {
        HighBits(v, b, j + avail);
      }
    }
  }

  lemma OrIsWord(x: Word, y: Word)
    ensures Or(x, y) < B32
  {
    Pow2Of32();
    OrBound(x, y, 32);
  }

  lemma ZeroBits()
    ensures forall j :: 0 <= j < 32 ==> !Bit(0, j)
  {
    forall j | 0 <= j < 32 ensures !Bit(0, j) {
      ZeroBit(j);
    }
  }

  lemma AppendBit(packed: Word, v: Word, s: nat, b: nat, j: nat)
    requires s < 32 && v < Pow2(b) && j < 32
    ensures Bit(Or(packed, Shl(v, s)), j) == (Bit(packed, j) || (s <= j < s + b && Bit(v, j - s)))
  {
    hide *;
    OrBit(packed, Shl(v, s), j);
    ShlBit(v, s, j);
    if s + b <= j {
      HighBits(v, b, j - s);
    }
  }

  /** Writing the full word w extends the finished part. */
  lemma WriteWord(words: seq<Word>, was: seq<Word>, w: nat, packed: Word, T: nat -> bool)
    requires |words| == |was| && w < |words|
    requires forall k :: 0 <= k < 32 * w ==> BitAt(words, k) == T(k)
    requires forall i :: w <= i < |words| ==> words[i] == was[i]
    requires exists s :: s >= 32 && Begun(packed, w, s, T)
    ensures forall k :: 0 <= k < 32 * (w + 1) ==> BitAt(words[w := packed], k) == T(k)
    ensures forall i :: w + 1 <= i < |words| ==> words[w := packed][i] == was[i]
  {
    forall k | 0 <= k < 32 * (w + 1) ensures BitAt(words[w := packed], k) == T(k) {
      if k < 32 * w {
        assert BitAt(words, k) == T(k);
      } else {
        assert k / 32 == w && k == 32 * w + k % 32;
      }
    }
  }

  lemma ItemOfBit(b: nat, g: nat, j: nat)
    requires j < b
    ensures (g * b + j) / b == g && (g * b + j) % b == j
  {
    DivUnique(g * b + j, b, g, j);
  }

  /** Bits before item g belong to earlier items, bits from item g on to later ones. */
  lemma ItemOrder(b: nat, g: nat, k: nat)
    requires b > 0
    ensures k < g * b <==> k / b < g
  {
    var q := k / b;
    assert k == q * b + k % b;
    if q < g { Times(b, q + 1, g); } else { Times(b, g, q); }
  }

  lemma NextItem(was: seq<Word>, b: nat, offset: nat, items: seq<Word>, i: nat, pos: nat, T: nat -> bool)
    requires b > 0 && i < |items| && pos == (offset + i) * b
    requires forall k: nat :: T(k) == PackedBit(was, b, offset, items, k)
    ensures ItemBits(items[i], b, pos, T)
  {
    hide Bit, BitAt;
    forall j | 0 <= j < b ensures T(pos + j) == Bit(items[i], j) {
      PackedBitOf(was, b, offset, items, i, pos, j);
    }
  }

  /** The start bit compiled into case `caseI` of the unrolled loop. */
  function StartBit(caseI: nat, b: nat): nat { (caseI * b) % 32 }

  /** The unrolled loop's case number gives the right start bit. */
  lemma CaseStart(g: nat, b: nat, w: nat, s: nat)
    requires g * b == 32 * w + s && s < 32
    ensures StartBit(g % 32, b) == s
  {
    var q, c := g / 32, g % 32;
    assert (32 * q + c) * b == 32 * (q * b) + c * b;
    assert c * b == 32 * (w - q * b) + s;
  }

  /** i of the items are packed so far, ending at bit s of word w. */
  ghost predicate Packing(words: seq<Word>, was: seq<Word>, packed: Word, w: nat, s: nat, b: nat, offset: nat,
                          items: seq<Word>, i: nat, T: nat -> bool) {
    && 0 < b <= 32 && i <= |items| && (offset + |items|) * b <= 32 * |words|
    && (forall j :: 0 <= j < |items| ==> items[j] < Pow2(b))
    && (forall k: nat :: T(k) == PackedBit(was, b, offset, items, k))
    && Streamed(words, was, packed, w, s, T) && (offset + i) * b == 32 * w + s
  }

  lemma ItemFits(g: nat, end: nat, b: nat, bound: nat, w: nat, s: nat)
    requires g < end && end * b <= bound && g * b == 32 * w + s && s < 32
    ensures 32 * w + s + b <= bound && (g + 1) * b == 32 * w + s + b && StartBit(g % 32, b) == s
  {
    CaseStart(g, b, w, s);
    assert (g + 1) * b == g * b + b;
    Times(b, g + 1, end);
  }

  lemma PackingItem(words: seq<Word>, was: seq<Word>, packed: Word, w: nat, s: nat, b: nat, offset: nat,
                    items: seq<Word>, i: nat, T: nat -> bool)
    requires Packing(words, was, packed, w, s, b, offset, items, i, T) && i < |items|
    ensures s < 32 && w < |words| && StartBit((offset + i) % 32, b) == s && items[i] < Pow2(b)
    ensures 32 * w + s + b <= 32 * |words| && (offset + i + 1) * b == 32 * w + s + b
    ensures Streamed(words, was, packed, w, s, T) && ItemBits(items[i], b, 32 * w + s, T)
  {
    hide Begun, PackedBit, ItemBits, Pow2, BitAt;
    ItemFits(offset + i, offset + |items|, b, 32 * |words|, w, s);
    NextItem(was, b, offset, items, i, 32 * w + s, T);
  }

  /** One pass of the unrolled loop, for item i. */
  method PackItem(a: array<Word>, cursor: nat, acc: Word, v: Word, caseI: nat, b: nat, ghost was: seq<Word>,
                  ghost offset: nat, ghost items: seq<Word>, ghost i: nat, ghost s: nat, ghost T: nat -> bool)
    returns (out: nat, packed: Word, ghost s': nat)
    requires Packing(a[..], was, acc, cursor, s, b, offset, items, i, T)
    requires i < |items| && v == items[i] && caseI == (offset + i) % 32
    modifies a
    ensures Packing(a[..], was, packed, out, s', b, offset, items, i + 1, T)
  {
    hide Streamed, Begun, PackedBit, ItemBits;
    PackingItem(a[..], was, acc, cursor, s, b, offset, items, i, T);
    out, packed := PackCase(a, cursor, acc, v, StartBit(caseI, b), b, was, T);
    s' := if s + b < 32 then s + b else s + b - 32;
  }

  /** The groups of 32 cases, entered at the case of the first item (a switch into a do-while loop). */
  method PackGroups(a: array<Word>, cursor: nat, acc: Word, input: array<Word>, caseFirst: nat, groups: nat, b: nat,
                    ghost was: seq<Word>, ghost offset: nat, ghost items: seq<Word>, ghost first: nat,
                    ghost T: nat -> bool)
    returns (out: nat, packed: Word, i: nat)
    requires Packing(a[..], was, acc, cursor, first, b, offset, items, 0, T) && a != input
    requires |items| <= input.Length && input[..|items|] == items
    requires caseFirst == offset % 32 && groups > 0 && 32 * groups - caseFirst <= |items|
    modifies a
    ensures i == 32 * groups - caseFirst && Packing(a[..], was, packed, out, 0, b, offset, items, i, T)
  {
    hide Packing;
    ghost var s := first;
    var caseI, n := caseFirst, groups;
    out, packed, i := cursor, acc, 0;
    while n > 0
      invariant i + 32 * n - caseI == 32 * groups - caseFirst && 0 <= caseI < 32 && caseI == (offset + i) % 32
      invariant n == 0 ==> caseI == 0
      invariant Packing(a[..], was, packed, out, s, b, offset, items, i, T) && input[..|items|] == items
    {
      while caseI < 32
        invariant caseI <= 32 && i + 32 * n - caseI == 32 * groups - caseFirst
        invariant (offset + i) % 32 == if caseI < 32 then caseI else 0
        invariant Packing(a[..], was, packed, out, s, b, offset, items, i, T) && input[..|items|] == items
      {
        assert input[i] == items[i];
        out, packed, s := PackItem(a, out, packed, input[i], caseI, b, was, offset, items, i, s, T);
        i := i + 1;
        caseI := caseI + 1;
      }
      n := n - 1;
      caseI := 0;
    }
    GroupsEnd(a[..], was, packed, out, s, b, offset, items, i, T);
  }

  lemma GroupsEnd(words: seq<Word>, was: seq<Word>, packed: Word, w: nat, s: nat, b: nat, offset: nat,
                  items: seq<Word>, i: nat, T: nat -> bool)
    requires Packing(words, was, packed, w, s, b, offset, items, i, T) && (offset + i) % 32 == 0
    ensures s == 0
  {
    hide Begun, PackedBit;
    CaseStart(offset + i, b, w, s);
    assert ((offset + i) % 32) * b == 0;
  }

  /** The remaining cases, left when the input is used up. */
  method PackTail(a: array<Word>, cursor: nat, acc: Word, input: array<Word>, first: nat, end: nat, caseFirst: nat,
                  b: nat, ghost was: seq<Word>, ghost offset: nat, ghost items: seq<Word>, ghost first': nat,
                  ghost T: nat -> bool)
    returns (out: nat, packed: Word, ghost s: nat)
    requires Packing(a[..], was, acc, cursor, first', b, offset, items, first, T) && a != input
    requires |items| <= input.Length && input[..|items|] == items && first <= end == |items|
    requires caseFirst == (offset + first) % 32 && caseFirst + (end - first) <= 32
    modifies a
    ensures Packing(a[..], was, packed, out, s, b, offset, items, |items|, T)
  {
    hide *;
    s := first';
    var caseI, i := caseFirst, first;
    out, packed := cursor, acc;
    while i < end
      invariant i <= end && caseI - caseFirst == i - first && (i < end ==> caseI == (offset + i) % 32)
      invariant Packing(a[..], was, packed, out, s, b, offset, items, i, T) && input[..|items|] == items
    {
      assert input[i] == items[i];
      out, packed, s := PackItem(a, out, packed, input[i], caseI, b, was, offset, items, i, s, T);
      i := i + 1;
      caseI := caseI + 1;
    }
  }

  /** The remaining cases and the last partial word. */
  method PackRest(a: array<Word>, cursor: nat, acc: Word, startBit: nat, input: array<Word>, first: nat, left: nat,
                  caseFirst: nat, b: nat, ghost was: seq<Word>, ghost offset: nat, ghost items: seq<Word>,
                  ghost T: nat -> bool)
    requires Packing(a[..], was, acc, cursor, startBit, b, offset, items, first, T) && a != input
    requires |items| <= input.Length && input[..|items|] == items && first + left == |items| && left > 0
    requires caseFirst == (offset + first) % 32 && caseFirst + left <= 32
    modifies a
    ensures forall k :: 0 <= k < 32 * a.Length ==> BitAt(a[..], k) == PackedBit(was, b, offset, items, k)
  {
    hide *;
    PackingAt(a[..], was, acc, cursor, startBit, b, offset, items, first, T);
    var out, packed, s := PackTail(a, cursor, acc, input, first, first + left, caseFirst, b, was, offset, items,
                                   startBit, T);
    PackingEnds(a[..], was, packed, out, s, b, offset, items, T);
    EndBit(offset + first, b, cursor, startBit, left, out, s);
    PackFinish(a, out, packed, startBit, left, b, was, offset, items, s, T);
  }

  /** The last partial word keeps its bits above the last item. */
  method PackFinish(a: array<Word>, out: nat, packed: Word, startBit: nat, left: nat, b: nat, ghost was: seq<Word>,
                    ghost offset: nat, ghost items: seq<Word>, ghost s: nat, ghost T: nat -> bool)
    requires Packing(a[..], was, packed, out, s, b, offset, items, |items|, T)
    requires (left * b + startBit) % 32 == s && left * b + startBit > 0 && (s > 0 ==> out < a.Length)
    modifies a
    ensures forall k :: 0 <= k < 32 * a.Length ==> BitAt(a[..], k) == PackedBit(was, b, offset, items, k)
  {
    hide *;
    var end := left * b + startBit;
    if end % 32 != 0 {
      var kept := (end - 1) % 32 + 1;
      PackEnds(a[..], was, packed, out, s, b, offset, items, T);
      a[out] := Or(packed, And(a[out], Not(Mask(kept))));
    } else {
      PackAligned(a[..], was, packed, out, s, b, offset, items, T);
    }
  }

  lemma PackingAt(words: seq<Word>, was: seq<Word>, packed: Word, w: nat, s: nat, b: nat, offset: nat,
                  items: seq<Word>, i: nat, T: nat -> bool)
    requires Packing(words, was, packed, w, s, b, offset, items, i, T)
    ensures (offset + i) * b == 32 * w + s && s < 32 && b > 0
  {
    hide Begun, PackedBit;
  }

  lemma PackingEnds(words: seq<Word>, was: seq<Word>, packed: Word, w: nat, s: nat, b: nat, offset: nat,
                    items: seq<Word>, T: nat -> bool)
    requires Packing(words, was, packed, w, s, b, offset, items, |items|, T)
    ensures (offset + |items|) * b == 32 * w + s && s < 32 && w <= |words| && (s > 0 ==> w < |words|)
  {
    hide Begun, PackedBit;
  }

  /** Finding the first word and keeping the bits before the first item. */
  method PackStart(a: array<Word>, offset: nat, b: nat, ghost items: seq<Word>)
    returns (out: nat, startBit: nat, packed: Word, ghost T: nat -> bool)
    requires 0 < b <= 32 && |items| > 0 && (offset + |items|) * b <= 32 * a.Length
    requires forall j :: 0 <= j < |items| ==> items[j] < Pow2(b)
    ensures Packing(a[..], a[..], packed, out, startBit, b, offset, items, 0, T)
  {
    hide Streamed, PackedBit, And, Mask, Pow2;
    ghost var was := a[..];
    T := (k: nat) => PackedBit(was, b, offset, items, k);
    var pos := offset * b;
    out, startBit := pos / 32, pos % 32;
    ItemFits(offset, offset + |items|, b, 32 * a.Length, out, startBit);
    StreamStarts(a[..], b, offset, items, out, startBit, T);
    packed := And(a[out], Mask(startBit));
  }

  /** PackedArray_pack: items go to positions offset, offset + 1, ...; bits outside them stay. */
  method Pack(a: array<Word>, offset: nat, input: array<Word>, count: nat, b: nat)
    requires 0 < b <= 32 && 0 < count <= input.Length && a != input
    requires (offset + count) * b <= 32 * a.Length
    requires forall i :: 0 <= i < count ==> input[i] < Pow2(b)
    modifies a
    ensures forall k :: 0 <= k < 32 * a.Length ==>
      BitAt(a[..], k) == PackedBit(old(a[..]), b, offset, old(input[..count]), k)
  {
    hide *;
    ghost var was, items := a[..], input[..count];
    var out, startBit, packed, T := PackStart(a, offset, b, items);
    var caseI, left, i := offset % 32, count, 0;
    if left >= 32 - caseI {
      var n := (left + caseI) / 32;
      left := left - (32 * n - caseI);
      out, packed, i := PackGroups(a, out, packed, input, caseI, n, b, was, offset, items, startBit, T);
      if left == 0 {
        PackAligned(a[..], was, packed, out, 0, b, offset, items, T);
        return;
      }
      caseI, startBit := 0, 0;
    }
    PackRest(a, out, packed, startBit, input, i, left, caseI, b, was, offset, items, T);
  }

  /** Where the last item ends in its word. */
  lemma EndBit(g: nat, b: nat, w: nat, startBit: nat, left: nat, out: nat, s: nat)
    requires g * b == 32 * w + startBit && (g + left) * b == 32 * out + s && s < 32 && left > 0 && b > 0
    ensures left * b + startBit > 0 && (left * b + startBit) % 32 == s
  {
    assert (g + left) * b == g * b + left * b;
    assert left * b + startBit == 32 * (out - w) + s;
    Times(b, 1, left);
  }

  lemma StreamStarts(was: seq<Word>, b: nat, offset: nat, items: seq<Word>, w: nat, s: nat, T: nat -> bool)
    requires b > 0 && offset * b == 32 * w + s && s < 32 && w < |was|
    requires forall k: nat :: T(k) == PackedBit(was, b, offset, items, k)
    ensures And(was[w], Mask(s)) < B32 && Streamed(was, was, And(was[w], Mask(s)), w, s, T)
  {
    hide Bit, And, Mask, PackedBit, Pow2;
    AndBound(was[w], Mask(s));
    forall k | 0 <= k < 32 * w + s ensures T(k) == BitAt(was, k) {
      EarlierBit(was, b, offset, items, k);
    }
    forall j | 0 <= j < 32 ensures Bit(And(was[w], Mask(s)), j) == (j < s && T(32 * w + j)) {
      AndBit(was[w], Mask(s), j);
      MaskBit(s, j);
      if j < s {
        assert T(32 * w + j) == BitAt(was, 32 * w + j);
      }
    }
  }

  lemma EarlierBit(was: seq<Word>, b: nat, offset: nat, items: seq<Word>, k: nat)
    requires b > 0 && k < offset * b && k < 32 * |was|
    ensures PackedBit(was, b, offset, items, k) == BitAt(was, k)
  {
    ItemOrder(b, offset, k);
  }

  /** When packing ends on a word boundary nothing is left to write. */
  lemma PackAligned(words: seq<Word>, was: seq<Word>, packed: Word, w: nat, s: nat, b: nat, offset: nat,
                    items: seq<Word>, T: nat -> bool)
    requires Packing(words, was, packed, w, s, b, offset, items, |items|, T) && s == 0
    ensures forall k :: 0 <= k < 32 * |words| ==> BitAt(words, k) == PackedBit(was, b, offset, items, k)
  {
    hide Bit, Begun;
    forall k | 0 <= k < 32 * |words| ensures BitAt(words, k) == T(k) {
      if k >= 32 * w {
        ItemOrder(b, offset + |items|, k);
      }
    }
  }

  /** Otherwise the last word keeps its bits above the last item. */
  lemma PackEnds(words: seq<Word>, was: seq<Word>, packed: Word, w: nat, s: nat, b: nat, offset: nat,
                 items: seq<Word>, T: nat -> bool)
    requires Packing(words, was, packed, w, s, b, offset, items, |items|, T) && 0 < s && w < |words|
    ensures Mask(s) < B32 && Or(packed, And(words[w], Not(Mask(s)))) < B32
    ensures var words' := words[w := Or(packed, And(words[w], Not(Mask(s))))];
      forall k :: 0 <= k < 32 * |words| ==> BitAt(words', k) == PackedBit(was, b, offset, items, k)
  {
    hide Bit, Or, And, Not, Mask;
    MaskIsWord(s);
    AndBound(words[w], Not(Mask(s)));
    var last := Or(packed, And(words[w], Not(Mask(s))));
    OrIsWord(packed, And(words[w], Not(Mask(s))));
    forall j | 0 <= j < 32 ensures Bit(last, j) == T(32 * w + j) {
      LastWordBit(packed, words[w], s, j);
      LaterBit(was, b, offset, items, 32 * w + j, 32 * w + s);
    }
    forall k | 0 <= k < 32 * |words| ensures BitAt(words[w := last], k) == T(k) {
      if k / 32 == w {
        assert k == 32 * w + k % 32;
      } else if k >= 32 * w {
        LaterBit(was, b, offset, items, k, 32 * w + s);
      }
    }
  }

  lemma LastWordBit(packed: Word, x: Word, s: nat, j: nat)
    requires s < 32 && j < 32
    ensures Mask(s) < B32
    ensures Bit(Or(packed, And(x, Not(Mask(s)))), j) == (Bit(packed, j) || (s <= j && Bit(x, j)))
  {
    hide *;
    MaskIsWord(s);
    OrBit(packed, And(x, Not(Mask(s))), j);
    AndBit(x, Not(Mask(s)), j);
    NotBit(Mask(s), j);
    MaskBit(s, j);
  }

  lemma LaterBit(was: seq<Word>, b: nat, offset: nat, items: seq<Word>, k: nat, end: nat)
    requires b > 0 && (offset + |items|) * b == end && k < 32 * |was|
    ensures end <= k ==> PackedBit(was, b, offset, items, k) == BitAt(was, k)
  {
    ItemOrder(b, offset + |items|, k);
  }

  /** What was packed can be read back, item by item. */
  lemma PackedItem(was: seq<Word>, words: seq<Word>, b: nat, offset: nat, items: seq<Word>, i: nat)
    requires 0 < b <= 32 && |words| == |was| && i < |items| && items[i] < Pow2(b)
    requires (offset + i) * b + b <= 32 * |words|
    requires forall k :: 0 <= k < 32 * |words| ==> BitAt(words, k) == PackedBit(was, b, offset, items, k)
    ensures ItemAt(words, b, offset + i) == items[i]
  {
    hide Bit, ItemAt, BitAt, Pow2, PackedBit;
    var pos := (offset + i) * b;
    forall j | 0 <= j < 32 ensures Bit(items[i], j) == (j < b && BitAt(words, pos + j)) {
      if j < b {
        PackedBitOf(was, b, offset, items, i, pos, j);
      } else {
        HighBits(items[i], b, j);
      }
    }
    ItemIs(words, b, offset + i, pos, items[i]);
  }

  lemma PackedBitOf(was: seq<Word>, b: nat, offset: nat, items: seq<Word>, i: nat, pos: nat, j: nat)
    requires j < b && i < |items| && pos == (offset + i) * b
    ensures PackedBit(was, b, offset, items, pos + j) == Bit(items[i], j)
  {
    ItemOfBit(b, offset + i, j);
  }

  lemma UnpackedBitOf(was: seq<Word>, b: nat, offset: nat, items: seq<Word>, i: nat, pos: nat, j: nat)
    requires j < b && !(offset <= i < offset + |items|) && pos == i * b && pos + b <= 32 * |was|
    ensures PackedBit(was, b, offset, items, pos + j) == BitAt(was, pos + j)
  {
    ItemOfBit(b, i, j);
  }

  /** Items outside the packed range are untouched. */
  lemma OtherItem(was: seq<Word>, words: seq<Word>, b: nat, offset: nat, items: seq<Word>, i: nat)
    requires 0 < b <= 32 && |words| == |was| && !(offset <= i < offset + |items|) && i * b + b <= 32 * |words|
    requires forall k :: 0 <= k < 32 * |words| ==> BitAt(words, k) == PackedBit(was, b, offset, items, k)
    ensures ItemAt(words, b, i) == ItemAt(was, b, i)
  {
    hide Bit, ItemAt, BitAt, Pow2, PackedBit;
    var pos := i * b;
    Pow2Of32();
    Pow2Monotone(b, 32);
    ItemAtBit(was, b, i, 0);
    forall j | 0 <= j < 32 ensures Bit(ItemAt(was, b, i), j) == (j < b && BitAt(words, pos + j)) {
      ItemAtBit(was, b, i, j);
      if j < b {
        UnpackedBitOf(was, b, offset, items, i, pos, j);
      }
    }
    ItemIs(words, b, i, pos, ItemAt(was, b, i));
  }

  /** Setting one item is packing a run of one. */
  lemma SetIsPackOfOne(was: seq<Word>, b: nat, offset: nat, v: Word, k: nat)
    requires b > 0 && k < 32 * |was|
    ensures SetBit(was, b, offset, v, k) == PackedBit(was, b, offset, [v], k)
  {
    ItemOrder(b, offset, k);
    ItemOrder(b, offset + 1, k);
    assert (offset + 1) * b == offset * b + b;
    if k / b == offset {
      assert k == offset * b + k % b;
    }
  }

  // --------------------------------------------------------------- unpack

  /** i of the items are unpacked; the next one starts at bit s of word w. */
  ghost predicate Unpacking(words: seq<Word>, result: seq<Word>, w: nat, s: nat, b: nat, offset: nat, count: nat,
      i: nat) {
    && 0 < b <= 32 && i <= count <= |result| && (offset + count) * b <= 32 * |words| && s < 32
    && (offset + i) * b == 32 * w + s
    && forall j :: 0 <= j < i ==> Unpacked(words, result[j], b, offset + j)
  }

  ghost predicate Unpacked(words: seq<Word>, v: Word, b: nat, g: nat) {
    g * b + b <= 32 * |words| && v == ItemAt(words, b, g)
  }

  /** The items from `offset` on. */
  function Items(words: seq<Word>, b: nat, offset: nat, count: nat): (r: seq<nat>)
    requires (offset + count) * b <= 32 * |words|
    ensures |r| == count
  {
    seq(count, i requires 0 <= i < count => ItemOf(words, b, offset, count, i))
  }

  function ItemOf(words: seq<Word>, b: nat, offset: nat, count: nat, i: nat): nat
    requires (offset + count) * b <= 32 * |words| && i < count
  {
    ItemEnds(b, offset + i, offset + count, 32 * |words|);
    ItemAt(words, b, offset + i)
  }

  lemma ItemEnds(b: nat, g: nat, end: nat, bound: nat)
    requires g < end && end * b <= bound
    ensures g * b + b <= bound
  {
    assert (g + 1) * b == g * b + b;
    Times(b, g + 1, end);
  }

  lemma ItemCut(words: seq<Word>, w: nat, s: nat, b: nat, g: nat)
    requires 0 < b <= 32 && s < 32 && g * b == 32 * w + s && g * b + b <= 32 * |words|
    ensures w < |words| && (s + b > 32 ==> w + 1 < |words|)
    ensures s + b <= 32 ==> And(Shr(words[w], s), Mask(b)) < B32
    ensures s + b <= 32 ==> Unpacked(words, And(Shr(words[w], s), Mask(b)), b, g)
    ensures s + b > 32 ==> And(Or(Shr(words[w], s), Shl(words[w + 1], 32 - s)), Mask(b)) < B32
    ensures s + b > 32 ==> Unpacked(words, And(Or(Shr(words[w], s), Shl(words[w + 1], 32 - s)), Mask(b)), b, g)
  {
    hide Bit, BitAt, ItemAt, And, Or, Shl, Shr, Mask;
    if s + b <= 32 {
      WithinIsItem(words, b, g);
      WithinBound(words[w], s, b);
    } else {
      SpanningIsItem(words, b, g);
      SpanningBound(words[w], words[w + 1], s, b);
    }
  }

  /** One case of the unrolled unpacking loop: the item is cut out of one word or two. */
  method UnpackCase(a: seq<Word>, cursor: nat, word: Word, out: array<Word>, i: nat, startBit: nat, b: nat,
                    ghost offset: nat, ghost count: nat)
    returns (w: nat, packed: Word)
    requires Unpacking(a, out[..], cursor, startBit, b, offset, count, i) && i < count
    requires cursor < |a| && word == a[cursor]
    modifies out
    ensures w == (if startBit + b <= 32 then cursor else cursor + 1) && w < |a| && packed == a[w]
    ensures Unpacking(a, out[..], if startBit + b < 32 then cursor else cursor + 1,
                      if startBit + b < 32 then startBit + b else startBit + b - 32, b, offset, count, i + 1)
    ensures out[count..] == old(out[count..])
  {
    hide And, Or, Shl, Shr, Mask, Unpacked;
    ItemFits(offset + i, offset + count, b, 32 * |a|, cursor, startBit);
    ItemCut(a, cursor, startBit, b, offset + i);
    w, packed := cursor, word;
    if b <= 32 - startBit {
      out[i] := And(Shr(packed, startBit), Mask(b));
    } else {
      var low := Shr(packed, startBit);
      w := w + 1;
      packed := a[w];
      var high := Shl(packed, 32 - startBit);
      out[i] := And(Or(low, high), Mask(b));
    }
  }

  /** A case and the step to the next word that follows it, unless it is case 31 or the last item. */
  method UnpackNext(a: seq<Word>, cursor: nat, word: Word, out: array<Word>, i: nat, caseI: nat, last: bool, b: nat,
                    ghost offset: nat, ghost count: nat, ghost s: nat)
    returns (w: nat, packed: Word, ghost next: nat, ghost s': nat)
    requires Unpacking(a, out[..], cursor, s, b, offset, count, i) && i < count
    requires cursor < |a| && word == a[cursor] && caseI == (offset + i) % 32
    requires caseI < 31 && !last ==> i + 1 < count
    modifies out
    ensures Unpacking(a, out[..], next, s', b, offset, count, i + 1) && out[count..] == old(out[count..])
    ensures caseI < 31 && !last ==> w == next && w < |a| && packed == a[w]
    ensures caseI == 31 ==> next == w + 1 && s' == 0
  {
    hide Unpacking, StartBit;
    CaseBit(a, out[..], cursor, s, b, offset, count, i);
    var startBit := StartBit(caseI, b);
    w, packed := UnpackCase(a, cursor, word, out, i, startBit, b, offset, count);
    next := if s + b < 32 then cursor else cursor + 1;
    s' := if s + b < 32 then s + b else s + b - 32;
    MoreToRead(a, out[..], next, s', b, offset, count, i + 1);
    if caseI == 31 {
      GroupBoundary(offset + (i + 1), b, next, s');
    }
    if last {
      return;
    }
    if caseI < 31 && b == 32 - startBit {
      w := w + 1;
      packed := a[w];
    }
  }

  lemma CaseBit(words: seq<Word>, result: seq<Word>, w: nat, s: nat, b: nat, offset: nat, count: nat, i: nat)
    requires Unpacking(words, result, w, s, b, offset, count, i)
    ensures 0 < b <= 32 && s < 32 && StartBit((offset + i) % 32, b) == s
  {
    hide Unpacked;
    CaseStart(offset + i, b, w, s);
  }

  /** One group of cases, from case `caseFirst` to case 31. */
  method UnpackGroup(a: seq<Word>, cursor: nat, out: array<Word>, first: nat, caseFirst: nat, b: nat,
                     ghost offset: nat, ghost count: nat, ghost s: nat)
    returns (w: nat)
    requires Unpacking(a, out[..], cursor, s, b, offset, count, first) && cursor < |a|
    requires caseFirst == (offset + first) % 32 && first + (32 - caseFirst) <= count <= out.Length
    modifies out
    ensures Unpacking(a, out[..], w + 1, 0, b, offset, count, first + (32 - caseFirst))
    ensures out[count..] == old(out[count..])
  {
    hide Unpacking;
    ghost var s': nat, next: nat := s, cursor;
    var i, caseI := first, caseFirst;
    w := cursor;
    var packed := a[w];
    while caseI < 32
      invariant caseI <= 32 && i - first == caseI - caseFirst && out[count..] == old(out[count..])
      invariant Unpacking(a, out[..], next, s', b, offset, count, i)
      invariant caseI < 32 ==> caseI == (offset + i) % 32 && next == w && w < |a| && packed == a[w]
      invariant caseI == 32 ==> next == w + 1 && s' == 0
    {
      w, packed, next, s' := UnpackNext(a, w, packed, out, i, caseI, false, b, offset, count, s');
      i := i + 1;
      caseI := caseI + 1;
    }
  }

  lemma MoreToRead(words: seq<Word>, result: seq<Word>, w: nat, s: nat, b: nat, offset: nat, count: nat, i: nat)
    requires Unpacking(words, result, w, s, b, offset, count, i)
    ensures i < count ==> w < |words|
    ensures s < 32 && (offset + i) * b == 32 * w + s
  {
    hide Unpacked;
    if i < count {
      ItemFits(offset + i, offset + count, b, 32 * |words|, w, s);
    }
  }

  lemma GroupBoundary(g: nat, b: nat, w: nat, s: nat)
    requires g % 32 == 0 && g * b == 32 * w + s && s < 32
    ensures s == 0
  {
    CaseStart(g, b, w, s);
    assert (g % 32) * b == 0;
  }

  /** PackedArray_unpack */
  method Unpack(a: seq<Word>, offset: nat, out: array<Word>, count: nat, b: nat)
    requires 0 < b <= 32 && 0 < count <= out.Length && (offset + count) * b <= 32 * |a|
    modifies out
    ensures out[..count] == Items(a, b, offset, count)
    ensures out[count..] == old(out[count..])
  {
    hide Unpacking, Items;
    var w: nat, caseI: nat, left: nat, i: nat := (offset * b) / 32, offset % 32, count, 0;
    ghost var s: nat := (offset * b) % 32;
    UnpackStarts(a, out[..], w, s, b, offset, count);
    MoreToRead(a, out[..], w, s, b, offset, count, 0);
    if left >= 32 - caseI {
      w, i, left := UnpackGroups(a, w, out, caseI, left, b, offset, s);
      if left == 0 {
        AllUnpacked(a, out[..], w + 1, 0, b, offset, count);
        return;
      }
      w, caseI, s := w + 1, 0, 0;
      MoreToRead(a, out[..], w, s, b, offset, count, i);
    }
    UnpackRest(a, w, out, i, left, caseI, b, offset, count, s);
  }

  /** The groups of 32 cases. All but the first begin by stepping to the next word. */
  method UnpackGroups(a: seq<Word>, cursor: nat, out: array<Word>, caseFirst: nat, count: nat, b: nat,
                      ghost offset: nat, ghost first: nat)
    returns (w: nat, i: nat, left: nat)
    requires Unpacking(a, out[..], cursor, first, b, offset, count, 0) && cursor < |a|
    requires caseFirst == offset % 32 && 32 - caseFirst <= count <= out.Length
    modifies out
    ensures i + left == count && left < 32 && (offset + i) % 32 == 0 && out[count..] == old(out[count..])
    ensures Unpacking(a, out[..], w + 1, 0, b, offset, count, i)
  {
    hide *;
    var n: nat := (count + caseFirst) / 32;
    left := count - (32 * n - caseFirst);
    GroupArithmetic(offset, caseFirst, count, n);
    w := UnpackGroup(a, cursor, out, 0, caseFirst, b, offset, count, first);
    i, n := 32 - caseFirst, n - 1;
    ghost var k := (offset + i) / 32;
    while n > 0
      invariant i + 32 * n + left == count && offset + i == 32 * k && out[count..] == old(out[count..])
      invariant Unpacking(a, out[..], w + 1, 0, b, offset, count, i)
    {
      w := UnpackNextGroup(a, w, out, i, b, offset, count);
      i, n, k := i + 32, n - 1, k + 1;
    }
  }

  /** A later group begins by stepping to the next word. */
  method UnpackNextGroup(a: seq<Word>, cursor: nat, out: array<Word>, i: nat, b: nat, ghost offset: nat,
                         ghost count: nat)
    returns (w: nat)
    requires Unpacking(a, out[..], cursor + 1, 0, b, offset, count, i)
    requires (offset + i) % 32 == 0 && i + 32 <= count <= out.Length
    modifies out
    ensures Unpacking(a, out[..], w + 1, 0, b, offset, count, i + 32) && out[count..] == old(out[count..])
  {
    hide *;
    MoreToRead(a, out[..], cursor + 1, 0, b, offset, count, i);
    w := UnpackGroup(a, cursor + 1, out, i, 0, b, offset, count, 0);
  }

  lemma GroupArithmetic(offset: nat, caseFirst: nat, count: nat, n: nat)
    requires caseFirst == offset % 32 && 32 - caseFirst <= count && n == (count + caseFirst) / 32
    ensures n > 0 && (offset + (32 - caseFirst)) % 32 == 0 && 0 <= count - (32 * n - caseFirst) < 32
  {
  }

  lemma UnpackStarts(words: seq<Word>, result: seq<Word>, w: nat, s: nat, b: nat, offset: nat, count: nat)
    requires 0 < b <= 32 && 0 < count <= |result| && (offset + count) * b <= 32 * |words|
    requires offset * b == 32 * w + s && s < 32
    ensures Unpacking(words, result, w, s, b, offset, count, 0)
  {
    assert offset + 0 == offset;
  }

  lemma AllUnpacked(words: seq<Word>, result: seq<Word>, w: nat, s: nat, b: nat, offset: nat, count: nat)
    requires Unpacking(words, result, w, s, b, offset, count, count)
    ensures count <= |result| && (offset + count) * b <= 32 * |words|
    ensures result[..count] == Items(words, b, offset, count)
  {
    hide ItemAt;
    forall i | 0 <= i < count ensures result[i] == Items(words, b, offset, count)[i] {
      assert Unpacked(words, result[i], b, offset + i);
    }
  }

  /** The remaining cases, left when the output is complete. */
  method UnpackRest(a: seq<Word>, cursor: nat, out: array<Word>, first: nat, left: nat, caseFirst: nat, b: nat,
                    ghost offset: nat, ghost count: nat, ghost s: nat)
    requires Unpacking(a, out[..], cursor, s, b, offset, count, first) && cursor < |a|
    requires 0 < b <= 32 && s < 32
    requires caseFirst == (offset + first) % 32 && first + left == count <= out.Length && left > 0
        && caseFirst + left <= 32
    modifies out
    ensures (offset + count) * b <= 32 * |a| && count <= out.Length
    ensures out[..count] == Items(a, b, offset, count)
    ensures out[count..] == old(out[count..])
  {
    hide Unpacking, Items;
    ghost var s': nat, next: nat := s, cursor;
    var w: nat, i: nat, caseI: nat := cursor, first, caseFirst;
    var packed := a[w];
    while true
      invariant i < count && caseI - caseFirst == i - first && caseI == (offset + i) % 32
      invariant Unpacking(a, out[..], w, s', b, offset, count, i) && w < |a| && packed == a[w]
      invariant out[count..] == old(out[count..])
      decreases count - i
    {
      w, packed, next, s' := UnpackNext(a, w, packed, out, i, caseI, i + 1 == first + left, b, offset, count, s');
      i := i + 1;
      if i == first + left {
        break;
      }
      caseI := caseI + 1;
    }
    AllUnpacked(a, out[..], next, s', b, offset, count);
  }
}
