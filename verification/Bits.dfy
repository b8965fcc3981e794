/** Unsigned machine words as natural numbers, and what the C operators do to their bits. */
module Bits {

  function Pow2(n: nat): (r: nat)
    ensures r > 0
  {
    if n == 0 then 1 else 2 * Pow2(n - 1)
  }

  /** Bit i of x, counting from the least significant. */
  predicate Bit(x: nat, i: nat)
    decreases i
  {
    if i == 0 then x % 2 == 1 else Bit(x / 2, i - 1)
  }

  const B32: nat := 0x1_0000_0000

  type Word = x: nat | x < B32

  lemma Pow2Of32()
    ensures Pow2(32) == B32
  {
    assert Pow2(8) == 256;
    assert Pow2(16) == 65536 by { Pow2Add(8, 8); }
    Pow2Add(16, 16);
  }

  lemma {:induction false} Pow2Add(a: nat, b: nat)
    ensures Pow2(a + b) == Pow2(a) * Pow2(b)
  {
    if a > 0 {
      Pow2Add(a - 1, b);
      assert a + b - 1 == a - 1 + b;
      Regroup(2, Pow2(a - 1), Pow2(b));
    }
  }

  lemma Regroup(a: nat, b: nat, c: nat)
    ensures (a * b) * c == a * (b * c)
  {
  }

  lemma {:induction false} Pow2Monotone(a: nat, b: nat)
    requires a <= b
    ensures Pow2(a) <= Pow2(b)
  {
    if a < b {
      Pow2Monotone(a, b - 1);
    }
  }

  /** No bit lies beyond a bound on the word. */
  lemma {:induction false} HighBits(x: nat, n: nat, i: nat)
    requires x < Pow2(n) && n <= i
    ensures !Bit(x, i)
    decreases i
  {
    if n > 0 {
      HighBits(x / 2, n - 1, i - 1);
    } else if i > 0 {
      HighBits(0, 0, i - 1);
    }
  }

  /** Words are equal when their bits are. */
  lemma {:induction false} SameBits(x: nat, y: nat, n: nat)
    requires x < Pow2(n) && y < Pow2(n) && forall i :: 0 <= i < n ==> Bit(x, i) == Bit(y, i)
    ensures x == y
  {
    if n > 0 {
      assert Bit(x, 0) == Bit(y, 0);
      forall i | 0 <= i < n - 1 ensures Bit(x / 2, i) == Bit(y / 2, i) {
        assert Bit(x, i + 1) == Bit(y, i + 1);
      }
      SameBits(x / 2, y / 2, n - 1);
    }
  }

  // -------------------------------------------------------- the operators

  function Quotient(x: nat, d: nat): nat
    requires d > 0
  {
    x / d
  }

  function Shr(x: nat, s: nat): nat { Quotient(x, Pow2(s)) }

  function Modulo(x: nat, d: nat): nat
    requires d > 0
  {
    x % d
  }

  /** The low b bits of x. */
  function Low(x: nat, b: nat): nat { Modulo(x, Pow2(b)) }

  /** x << s in 32 bits */
  function Shl(x: nat, s: nat): Word {
    Pow2Of32();
    (x * Pow2(s)) % B32
  }

  function Mask(b: nat): nat { Pow2(b) - 1 }

  function And(x: nat, y: nat): nat
    decreases x
  {
    if x == 0 then 0 else (x % 2) * (y % 2) + 2 * And(x / 2, y / 2)
  }

  function Or(x: nat, y: nat): nat
    decreases x + y
  {
    if x + y == 0 then 0 else (if x % 2 + y % 2 == 0 then 0 else 1) + 2 * Or(x / 2, y / 2)
  }

  function Xor(x: nat, y: nat): nat
    decreases x + y
  {
    if x + y == 0 then 0 else (x + y) % 2 + 2 * Xor(x / 2, y / 2)
  }

  /** ~x in 32 bits */
  function Not(x: Word): Word { B32 - 1 - x }

  lemma {:induction false} AndBit(x: nat, y: nat, i: nat)
    ensures Bit(And(x, y), i) == (Bit(x, i) && Bit(y, i))
    decreases i
  {
    ZeroBit(i);
    if x > 0 {
      var r := And(x / 2, y / 2);
      assert And(x, y) / 2 == r && And(x, y) % 2 == (x % 2) * (y % 2);
      if i > 0 {
        AndBit(x / 2, y / 2, i - 1);
      }
    }
  }

  lemma {:induction false} OrBit(x: nat, y: nat, i: nat)
    ensures Bit(Or(x, y), i) == (Bit(x, i) || Bit(y, i))
    decreases i
  {
    ZeroBit(i);
    if i > 0 {
      assert Or(x, y) / 2 == Or(x / 2, y / 2);
      OrBit(x / 2, y / 2, i - 1);
    }
  }

  lemma XorStep(x: nat, y: nat)
    ensures Xor(x, y) / 2 == Xor(x / 2, y / 2) && Xor(x, y) % 2 == (x + y) % 2
  {
  }

  lemma {:induction false} XorBit(x: nat, y: nat, i: nat)
    ensures Bit(Xor(x, y), i) == (Bit(x, i) != Bit(y, i))
    decreases i
  {
    hide Xor;
    XorStep(x, y);
    if i > 0 {
      XorBit(x / 2, y / 2, i - 1);
    }
  }

  lemma {:induction false} ZeroBit(i: nat)
    ensures !Bit(0, i)
  {
    if i > 0 {
      ZeroBit(i - 1);
    }
  }

  lemma {:induction false} ShrBit(x: nat, s: nat, i: nat)
    ensures Bit(Shr(x, s), i) == Bit(x, i + s)
  {
    if s > 0 {
      HalfThenShift(x, s - 1);
      ShrBit(x / 2, s - 1, i);
    }
  }

  lemma HalfThenShift(x: nat, s: nat)
    ensures x / Pow2(s + 1) == (x / 2) / Pow2(s)
  {
    DivDiv(x, 2, Pow2(s));
  }

  lemma DivDiv(x: nat, a: nat, b: nat)
    requires a > 0 && b > 0
    ensures a * b > 0 && x / (a * b) == (x / a) / b
  {
    var y := x / a;
    var q, r := y / b, y % b;
    Regroup(a, b, q);
    Spread(a, b * q, r);
    Times(a, r + 1, b);
    Spread(a, r, 1);
    Positive(a, b);
    DivUnique(x, a * b, q, a * r + x % a);
  }

  lemma Spread(a: nat, b: nat, c: nat)
    ensures a * (b + c) == a * b + a * c
  {
  }

  lemma Positive(a: nat, b: nat)
    requires a > 0 && b > 0
    ensures a * b > 0
  {
  }

  lemma Times(a: nat, x: nat, y: nat)
    requires x <= y
    ensures a * x <= a * y
  {
  }

  lemma DivUnique(x: nat, d: nat, q: nat, r: nat)
    requires d > 0 && x == d * q + r && r < d
    ensures x / d == q && x % d == r
  {
    var q', r' := x / d, x % d;
    assert d * q' + r' == d * q + r;
    if q' < q { Times(d, q' + 1, q); } else if q < q' { Times(d, q + 1, q'); }
  }

  /** x * Pow2(s) has the bits of x moved up. */
  lemma {:induction false} ScaledBit(x: nat, s: nat, i: nat)
    ensures Bit(x * Pow2(s), i) == (i >= s && Bit(x, i - s))
    decreases s
  {
    if s > 0 {
      var y := x * Pow2(s - 1);
      assert x * Pow2(s) == 2 * y;
      if i > 0 {
        ScaledBit(x, s - 1, i - 1);
      }
    }
  }

  /** Cutting a word down to its low b bits. */
  lemma {:induction false} LowBit(x: nat, b: nat, i: nat)
    ensures Bit(x % Pow2(b), i) == (i < b && Bit(x, i))
    decreases b, 1
  {
    if b == 0 {
      ZeroBit(i);
      assert Pow2(0) == 1 && x % 1 == 0;
    } else {
      LowSplit(x, b);
      LowBitStep(x, b, i, x % Pow2(b), (x / 2) % Pow2(b - 1));
    }
  }

  lemma {:induction false} LowBitStep(x: nat, b: nat, i: nat, low: nat, half: nat)
    requires b > 0 && low == x % 2 + 2 * half && half == (x / 2) % Pow2(b - 1)
    ensures Bit(low, i) == (i < b && Bit(x, i))
    decreases b, 0
  {
    if i > 0 {
      LowBit(x / 2, b - 1, i - 1);
      assert low / 2 == half;
    } else {
      assert low % 2 == x % 2;
    }
  }

  lemma LowSplit(x: nat, b: nat)
    requires b > 0
    ensures x % Pow2(b) == x % 2 + 2 * ((x / 2) % Pow2(b - 1))
  {
    LowSplitBy(x, Pow2(b - 1));
  }

  lemma LowSplitBy(x: nat, m: nat)
    requires m > 0
    ensures x % (2 * m) == x % 2 + 2 * ((x / 2) % m)
  {
    var q, r := (x / 2) / m, (x / 2) % m;
    assert x == 2 * (m * q + r) + x % 2;
    assert 2 * (m * q) == (2 * m) * q;
    DivUnique(x, 2 * m, q, 2 * r + x % 2);
  }

  lemma ShlBit(x: nat, s: nat, i: nat)
    ensures Bit(Shl(x, s), i) == (s <= i < 32 && Bit(x, i - s))
  {
    Pow2Of32();
    LowBit(x * Pow2(s), 32, i);
    ScaledBit(x, s, i);
  }

  lemma MaskBit(b: nat, i: nat)
    ensures Bit(Mask(b), i) == (i < b)
  {
    if i < b {
      OnesBit(b, i);
    } else {
      HighBits(Mask(b), b, i);
    }
  }

  lemma {:induction false} OnesBit(b: nat, i: nat)
    requires i < b
    ensures Bit(Mask(b), i)
  {
    assert Mask(b) == 2 * Mask(b - 1) + 1;
    if i > 0 {
      OnesBit(b - 1, i - 1);
    }
  }

  lemma NotBit(x: Word, i: nat)
    requires i < 32
    ensures Bit(Not(x), i) == !Bit(x, i)
  {
    Pow2Of32();
    FlippedBit(x, 32, i);
  }

  lemma {:induction false} FlippedBit(x: nat, n: nat, i: nat)
    requires x < Pow2(n) && i < n
    ensures Bit(Pow2(n) - 1 - x, i) == !Bit(x, i)
  {
    assert (Pow2(n) - 1 - x) / 2 == Pow2(n - 1) - 1 - x / 2;
    if i > 0 {
      FlippedBit(x / 2, n - 1, i - 1);
    }
  }

  // ------------------------------------------- sizes of the results

  lemma {:induction false} AndBound(x: nat, y: nat)
    ensures And(x, y) <= x && And(x, y) <= y
    decreases x
  {
    if x > 0 {
      AndBound(x / 2, y / 2);
    }
  }

  lemma {:induction false} OrBound(x: nat, y: nat, n: nat)
    requires x < Pow2(n) && y < Pow2(n)
    ensures Or(x, y) < Pow2(n) && Xor(x, y) < Pow2(n)
  {
    if n > 0 {
      OrBound(x / 2, y / 2, n - 1);
    }
  }

  // ------------------------------------------- in terms of arithmetic

  lemma AndMask(x: nat, b: nat)
    ensures And(x, Mask(b)) == x % Pow2(b)
  {
    AndBound(x, Mask(b));
    forall i | 0 <= i < b ensures Bit(And(x, Mask(b)), i) == Bit(x % Pow2(b), i) {
      AndBit(x, Mask(b), i);
      MaskBit(b, i);
      LowBit(x, b, i);
    }
    SameBits(And(x, Mask(b)), x % Pow2(b), b);
  }

  lemma Doubled(x: nat, s: nat)
    requires s > 0
    ensures x * Pow2(s) == 2 * (x * Pow2(s - 1)) && Pow2(s) == 2 * Pow2(s - 1)
  {
  }

  lemma OrStep(h: nat, y: nat)
    ensures Or(2 * h, y) == y % 2 + 2 * Or(h, y / 2)
  {
    if 2 * h + y == 0 {
      assert Or(0, 0) == 0;
    }
  }

  /** Putting y into the low s bits that x left free. */
  lemma {:induction false} OrLow(x: nat, s: nat, y: nat)
    requires y < Pow2(s)
    ensures Or(x * Pow2(s), y) == x * Pow2(s) + y
  {
    hide Or;
    if s == 0 {
      OrZero(x);
      assert Pow2(0) == 1 && x * 1 == x;
    } else {
      hide Pow2;
      Doubled(x, s);
      OrLow(x, s - 1, y / 2);
      OrStep(x * Pow2(s - 1), y);
    }
  }

  lemma {:induction false} OrZero(x: nat)
    ensures Or(x, 0) == x
  {
    if x > 0 {
      OrZero(x / 2);
    }
  }

  lemma {:induction false} OrComm(x: nat, y: nat)
    ensures Or(x, y) == Or(y, x)
    decreases x + y
  {
    if x + y > 0 {
      OrComm(x / 2, y / 2);
    }
  }

  /** w & (w - 1) clears the lowest set bit, bit f. */
  lemma {:induction false} ClearLowest(w: nat, f: nat, i: nat)
    requires Bit(w, f) && forall j :: 0 <= j < f ==> !Bit(w, j)
    ensures w > 0 && Bit(And(w, w - 1), i) == (i != f && Bit(w, i))
    decreases f
  {
    ZeroBit(f);
    if f == 0 {
      AndBit(w, w - 1, i);
      if i > 0 {
        assert w / 2 == (w - 1) / 2;
      }
    } else {
      assert !Bit(w, 0);
      assert w % 2 == 0 && (w - 1) / 2 == w / 2 - 1;
      forall j | 0 <= j < f - 1 ensures !Bit(w / 2, j) {
        assert !Bit(w, j + 1);
      }
      if i > 0 {
        ClearLowest(w / 2, f - 1, i - 1);
      }
      assert And(w, w - 1) / 2 == And(w / 2, (w - 1) / 2);
      assert And(w, w - 1) % 2 == 0;
    }
  }

  /** Some bit of a nonzero word is set. */
  lemma {:induction false} LowestExists(w: nat) returns (f: nat)
    requires w > 0
    ensures Bit(w, f) && forall j :: 0 <= j < f ==> !Bit(w, j)
    decreases w
  {
    if w % 2 == 1 {
      f := 0;
    } else {
      var g := LowestExists(w / 2);
      f := g + 1;
      forall j | 0 <= j < f ensures !Bit(w, j) {
        if j > 0 {
          assert !Bit(w / 2, j - 1);
        }
      }
    }
  }
}
