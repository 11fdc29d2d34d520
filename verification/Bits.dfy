/**
 Bit algebra on natural numbers.

 A machine word of width `w` is a natural number below `Pow2(w)`.  The C operators `&`, `|`,
 `^`, `>>` and the idiom `x & ~y` do not depend on the width and are defined here by recursion
 on the lowest bit; the operators that do depend on it (`~`, `<<`, `+`, `-`) are written out
 with an explicit `% Pow2(w)` where they are used.
 */
module Bits {

  function Pow2(n: nat): (r: nat)
    ensures 1 <= r
    ensures n > 0 ==> r % 2 == 0
  {
    if n == 0 then 1 else 2 * Pow2(n - 1)
  }

  /** The value of bit `i` of `x`: the reference by which the operators below are pinned down. */
  predicate Bit(x: nat, i: nat) {
    if i == 0 then x % 2 == 1 else Bit(x / 2, i - 1)
  }

  function FromBit(b: bool): (r: nat)
    ensures r < 2
  {
    if b then 1 else 0
  }

  function And(x: nat, y: nat): (r: nat)
    ensures r <= x && r <= y
  {
    if x == 0 then 0 else FromBit(x % 2 == 1 && y % 2 == 1) + 2 * And(x / 2, y / 2)
  }

  function Or(x: nat, y: nat): (r: nat)
    ensures x <= r && y <= r && r <= x + y
    decreases x + y
  {
    if x == 0 && y == 0 then 0 else FromBit(x % 2 == 1 || y % 2 == 1) + 2 * Or(x / 2, y / 2)
  }

  function Xor(x: nat, y: nat): (r: nat)
    ensures r <= x + y
    decreases x + y
  {
    if x == 0 && y == 0 then 0 else FromBit((x % 2 == 1) != (y % 2 == 1)) + 2 * Xor(x / 2, y / 2)
  }

  /** `x & ~y`. */
  function AndNot(x: nat, y: nat): (r: nat)
    ensures r <= x
  {
    if x == 0 then 0 else FromBit(x % 2 == 1 && y % 2 == 0) + 2 * AndNot(x / 2, y / 2)
  }

  /** `~x` at width `w`. */
  function Not(x: nat, w: nat): (r: nat)
    ensures r < Pow2(w)
  {
    if w == 0 then 0 else FromBit(x % 2 == 0) + 2 * Not(x / 2, w - 1)
  }

  /** `x >> k`. */
  function Shr(x: nat, k: nat): (r: nat)
    ensures r <= x
  {
    if k == 0 then x else Shr(x / 2, k - 1)
  }

  /** `x` cut down to a word of width `w`. */
  function Trunc(x: nat, w: nat): (r: nat)
    ensures r < Pow2(w) && r <= x
    ensures x < Pow2(w) ==> r == x
  {
    if w == 0 then 0 else x % 2 + 2 * Trunc(x / 2, w - 1)
  }

  function PopCount(x: nat): (r: nat) {
    if x == 0 then 0 else x % 2 + PopCount(x / 2)
  }

  // ----- the operators act bit by bit -----

  lemma {:induction false} BitsOfAnd(x: nat, y: nat, i: nat)
    ensures Bit(And(x, y), i) == (Bit(x, i) && Bit(y, i))
  {
    if i > 0 {
      BitsOfAnd(x / 2, y / 2, i - 1);
    }
  }

  lemma {:induction false} BitsOfOr(x: nat, y: nat, i: nat)
    ensures Bit(Or(x, y), i) == (Bit(x, i) || Bit(y, i))
  {
    if i > 0 {
      BitsOfOr(x / 2, y / 2, i - 1);
    }
  }

  lemma {:induction false} BitsOfXor(x: nat, y: nat, i: nat)
    ensures Bit(Xor(x, y), i) == (Bit(x, i) != Bit(y, i))
  {
    if i > 0 {
      BitsOfXor(x / 2, y / 2, i - 1);
    }
  }

  lemma {:induction false} BitsOfAndNot(x: nat, y: nat, i: nat)
    ensures Bit(AndNot(x, y), i) == (Bit(x, i) && !Bit(y, i))
  {
    if i > 0 {
      BitsOfAndNot(x / 2, y / 2, i - 1);
    }
  }

  lemma {:induction false} BitsOfNot(x: nat, w: nat, i: nat)
    ensures Bit(Not(x, w), i) == (i < w && !Bit(x, i))
  {
    if w > 0 && i > 0 {
      BitsOfNot(x / 2, w - 1, i - 1);
    } else if w == 0 {
      ZeroHasNoBits(i);
    }
  }

  lemma {:induction false} BitsOfTrunc(x: nat, w: nat, i: nat)
    ensures Bit(Trunc(x, w), i) == (i < w && Bit(x, i))
  {
    hide Pow2;
    if w == 0 {
      ZeroHasNoBits(i);
    } else if i > 0 {
      BitsOfTrunc(x / 2, w - 1, i - 1);
    }
  }

  lemma {:induction false} ZeroHasNoBits(i: nat)
    ensures !Bit(0, i)
  {
    if i > 0 {
      ZeroHasNoBits(i - 1);
    }
  }

  lemma {:induction false} BitsOfShr(x: nat, k: nat, i: nat)
    ensures Bit(Shr(x, k), i) == Bit(x, i + k)
  {
    if k > 0 {
      BitsOfShr(x / 2, k - 1, i);
    }
  }

  /** Two numbers with the same bits are equal. */
  lemma {:induction false} Extensional(x: nat, y: nat)
    requires forall i: nat :: Bit(x, i) == Bit(y, i)
    ensures x == y
    decreases x + y
  {
    assert Bit(x, 0) == Bit(y, 0);
    if x + y > 0 {
      forall i: nat ensures Bit(x / 2, i) == Bit(y / 2, i) {
        assert Bit(x, i + 1) == Bit(y, i + 1);
      }
      Extensional(x / 2, y / 2);
    }
  }

  // ----- powers of two, masks of low bits, alignment -----

  lemma {:induction false} Pow2Monotone(m: nat, n: nat)
    requires m <= n
    ensures Pow2(m) <= Pow2(n)
    decreases n
  {
    if m < n {
      Pow2Monotone(m, n - 1);
    }
  }

  lemma {:induction false} Pow2Add(m: nat, n: nat)
    ensures Pow2(m + n) == Pow2(m) * Pow2(n)
  {
    if m > 0 {
      Pow2Add(m - 1, n);
    }
  }

  /** Truncation to a word is the remainder by a power of two. */
  lemma {:induction false} TruncIsMod(x: nat, w: nat)
    ensures Trunc(x, w) == x % Pow2(w)
  {
    if w > 0 {
      TruncIsMod(x / 2, w - 1);
      DoubleMod(x / 2, Pow2(w - 1), x % 2);
    }
  }

  lemma DoubleMod(h: nat, p: nat, bit: nat)
    requires p > 0 && bit < 2
    ensures (2 * h + bit) % (2 * p) == 2 * (h % p) + bit
  {
    var q := h / p;
    assert h == p * q + h % p;
    assert 2 * (p * q) == 2 * p * q;
    Quotient(2 * h + bit, 2 * p, q, 2 * (h % p) + bit);
  }

  lemma Quotient(x: nat, d: nat, q: nat, r: nat)
    requires r < d && x == d * q + r
    ensures x % d == r && x / d == q
  {
    var k := x / d - q;
    assert d * k == r - x % d by {
      assert d * (k + q) == d * k + d * q;
    }
    OnlyZeroMultiple(d, k);
  }

  lemma OnlyZeroMultiple(d: int, k: int)
    requires -d < d * k < d
    ensures k == 0
  {
    assert k >= 1 ==> d * k >= d;
    assert k <= -1 ==> d * k <= -d;
  }

  /** `x & (2^k - 1)` is the remainder and `x & ~(2^k - 1)` is what is left. */
  lemma {:induction false} LowMask(x: nat, k: nat)
    ensures And(x, Pow2(k) - 1) == Trunc(x, k)
    ensures AndNot(x, Pow2(k) - 1) == x - Trunc(x, k)
  {
    if k == 0 {
      AndZero(x);
      AndNotZero(x);
    } else {
      LowMask(x / 2, k - 1);
      assert (Pow2(k) - 1) / 2 == Pow2(k - 1) - 1;
    }
  }

  lemma {:induction false} AndZero(x: nat)
    ensures And(x, 0) == 0
  {
    if x > 0 {
      AndZero(x / 2);
    }
  }

  lemma {:induction false} AndNotZero(x: nat)
    ensures AndNot(x, 0) == x
  {
    if x > 0 {
      AndNotZero(x / 2);
    }
  }

  lemma {:induction false} OrZero(x: nat)
    ensures Or(x, 0) == x && Or(0, x) == x
  {
    if x > 0 {
      OrZero(x / 2);
    }
  }

  lemma TruncOfOr(x: nat, y: nat, w: nat)
    ensures Trunc(Or(x, y), w) == Or(Trunc(x, w), Trunc(y, w))
  {
    forall i: nat ensures Bit(Trunc(Or(x, y), w), i) == Bit(Or(Trunc(x, w), Trunc(y, w)), i) {
      BitsOfTrunc(Or(x, y), w, i);
      BitsOfTrunc(x, w, i);
      BitsOfTrunc(y, w, i);
      BitsOfOr(x, y, i);
      BitsOfOr(Trunc(x, w), Trunc(y, w), i);
    }
    Extensional(Trunc(Or(x, y), w), Or(Trunc(x, w), Trunc(y, w)));
  }

  lemma {:induction false} OrBound(x: nat, y: nat, w: nat)
    requires x < Pow2(w) && y < Pow2(w)
    ensures Or(x, y) < Pow2(w)
  {
    if w > 0 {
      OrBound(x / 2, y / 2, w - 1);
    }
  }

  /** Setting bits above `x` is addition. */
  lemma {:induction false} OrShifted(x: nat, y: nat, k: nat)
    requires x < Pow2(k)
    ensures Or(x, y * Pow2(k)) == x + y * Pow2(k)
  {
    if k == 0 {
      OrZero(y);
    } else {
      var z := y * Pow2(k - 1);
      assert y * Pow2(k) == 2 * z;
      OrShifted(x / 2, y, k - 1);
      assert Or(x, 2 * z) == FromBit(x % 2 == 1) + 2 * Or(x / 2, z);
    }
  }

  // ----- masks and complements -----

  /** Shifting left moves the bits up. */
  lemma {:induction false} BitsOfShifted(x: nat, k: nat, i: nat)
    ensures Bit(x * Pow2(k), i) == (i >= k && Bit(x, i - k))
  {
    if k > 0 {
      assert x * Pow2(k) == 2 * (x * Pow2(k - 1));
      if i > 0 {
        BitsOfShifted(x, k - 1, i - 1);
      }
    }
  }

  lemma {:induction false} AndSingleBit(x: nat, k: nat)
    ensures And(x, Pow2(k)) == if Bit(x, k) then Pow2(k) else 0
  {
    if k > 0 {
      AndSingleBit(x / 2, k - 1);
    } else {
      AndZero(x / 2);
    }
  }

  lemma SplitByMask(a: nat, all: nat, m: nat)
    requires AndNot(a, all) == 0
    ensures And(a, AndNot(all, m)) == AndNot(a, m)
    ensures AndNot(a, AndNot(all, m)) == And(a, m)
  {
    hide *;
    forall i: nat
      ensures Bit(And(a, AndNot(all, m)), i) == Bit(AndNot(a, m), i)
      ensures Bit(AndNot(a, AndNot(all, m)), i) == Bit(And(a, m), i)
    {
      BitsOfAnd(a, AndNot(all, m), i);
      BitsOfAndNot(a, AndNot(all, m), i);
      BitsOfAndNot(all, m, i);
      BitsOfAnd(a, m, i);
      BitsOfAndNot(a, m, i);
      BitsOfAndNot(a, all, i);
      ZeroHasNoBits(i);
    }
    Extensional(And(a, AndNot(all, m)), AndNot(a, m));
    Extensional(AndNot(a, AndNot(all, m)), And(a, m));
  }

  lemma {:induction false} NotIsAndNot(x: nat, w: nat)
    ensures Not(x, w) == AndNot(Pow2(w) - 1, x)
  {
    if w > 0 {
      NotIsAndNot(x / 2, w - 1);
      assert (Pow2(w) - 1) / 2 == Pow2(w - 1) - 1;
    }
  }

  lemma {:induction false} BelowMask(x: nat, w: nat)
    requires x < Pow2(w)
    ensures AndNot(x, Pow2(w) - 1) == 0
  {
    if w > 0 {
      BelowMask(x / 2, w - 1);
      assert (Pow2(w) - 1) / 2 == Pow2(w - 1) - 1;
    }
  }

  // ----- filling every bit below the highest one -----

  /** The least number of the form `2^k - 1` that is not below `n`. */
  function Fill(n: nat): (r: nat)
    ensures n > 0 ==> n <= r < 2 * n
    ensures n == 0 ==> r == 0
  {
    if n == 0 then 0 else 1 + 2 * Fill(n / 2)
  }

  /** The highest set bit of `n`, or 0. */
  function TopBit(n: nat): (r: nat)
    ensures n > 0 ==> 0 < r <= n < 2 * r
    ensures r == 0 <==> n == 0
  {
    if n == 0 then 0 else if n == 1 then 1 else 2 * TopBit(n / 2)
  }

  lemma {:induction false} FillIsLeastMask(n: nat, k: nat)
    ensures exists j: nat :: Fill(n) + 1 == Pow2(j)
    ensures n < Pow2(k) ==> Fill(n) < Pow2(k)
    ensures n < Pow2(k) <== Fill(n) < Pow2(k)
  {
    if n == 0 {
      assert Fill(n) + 1 == Pow2(0);
    } else {
      FillIsLeastMask(n / 2, if k == 0 then 0 else k - 1);
      var j: nat :| Fill(n / 2) + 1 == Pow2(j);
      assert Fill(n) + 1 == Pow2(j + 1);
    }
  }

  lemma {:induction false} FillMonotone(x: nat, y: nat)
    requires x <= y
    ensures Fill(x) <= Fill(y)
  {
    if x > 0 {
      FillMonotone(x / 2, y / 2);
    }
  }

  lemma {:induction false} FillOfMask(k: nat)
    ensures Fill(Pow2(k) - 1) == Pow2(k) - 1
  {
    if k > 0 {
      FillOfMask(k - 1);
      assert (Pow2(k) - 1) / 2 == Pow2(k - 1) - 1;
    }
  }

  lemma {:induction false} TopBitIsPowerOfTwo(n: nat)
    requires n > 0
    ensures exists k: nat :: TopBit(n) == Pow2(k)
  {
    if n == 1 {
      assert TopBit(n) == Pow2(0);
    } else {
      TopBitIsPowerOfTwo(n / 2);
      var k: nat :| TopBit(n / 2) == Pow2(k);
      assert TopBit(n) == Pow2(k + 1);
    }
  }

  /** Comparing highest bits is comparing filled masks. */
  lemma {:induction false} TopBitOrdersFill(x: nat, y: nat)
    ensures TopBit(x) <= TopBit(y) <==> Fill(x) <= Fill(y)
  {
    if x > 0 && y > 0 {
      TopBitOrdersFill(x / 2, y / 2);
    }
  }

  // ----- the shift cascades -----

  /** The disjunction of `n >> 0` to `n >> (k - 1)`. */
  ghost function Smear(n: nat, k: nat): nat {
    if k == 0 then 0 else Or(n, Smear(n / 2, k - 1))
  }

  lemma OrAssociative(x: nat, y: nat, z: nat)
    ensures Or(Or(x, y), z) == Or(x, Or(y, z))
  {
    forall i: nat ensures Bit(Or(Or(x, y), z), i) == Bit(Or(x, Or(y, z)), i) {
      BitsOfOr(Or(x, y), z, i);
      BitsOfOr(x, y, i);
      BitsOfOr(x, Or(y, z), i);
      BitsOfOr(y, z, i);
    }
    Extensional(Or(Or(x, y), z), Or(x, Or(y, z)));
  }

  lemma {:induction false} SmearSplit(n: nat, a: nat, b: nat)
    ensures Smear(n, a + b) == Or(Smear(n, a), Smear(Shr(n, a), b))
  {
    hide Or;
    if a == 0 {
      OrZero(Smear(n, b));
    } else {
      var tail := Smear(Shr(n / 2, a - 1), b);
      calc {
        Smear(n, a + b);
        Or(n, Smear(n / 2, a - 1 + b));
        { SmearSplit(n / 2, a - 1, b); }
        Or(n, Or(Smear(n / 2, a - 1), tail));
        { OrAssociative(n, Smear(n / 2, a - 1), tail); }
        Or(Smear(n, a), tail);
      }
    }
  }

  lemma {:induction false} HalfOfSmear(n: nat, k: nat)
    ensures Smear(n, k) / 2 == Smear(n / 2, k)
  {
    if k > 0 {
      HalfOfSmear(n / 2, k - 1);
    }
  }

  lemma {:induction false} ShrOfSmear(n: nat, k: nat, j: nat)
    ensures Shr(Smear(n, k), j) == Smear(Shr(n, j), k)
  {
    if j > 0 {
      HalfOfSmear(n, k);
      ShrOfSmear(n / 2, k, j - 1);
    }
  }

  /** One cascade step doubles the reach of the smear. */
  lemma CascadeStep(n: nat, k: nat)
    ensures Or(Smear(n, k), Shr(Smear(n, k), k)) == Smear(n, k + k)
  {
    ShrOfSmear(n, k, k);
    SmearSplit(n, k, k);
  }

  lemma FillStep(n: nat)
    requires n > 0
    ensures Fill(n) == 1 + 2 * Fill(n / 2) && Fill(n) / 2 == Fill(n / 2)
  {
  }

  lemma OrStep(x: nat, y: nat)
    requires y % 2 == 1
    ensures Or(x, y) == 1 + 2 * Or(x / 2, y / 2)
  {
  }

  lemma XorStep(x: nat, y: nat)
    requires x % 2 == 1 && y % 2 == 1
    ensures Xor(x, y) == 2 * Xor(x / 2, y / 2)
  {
  }

  lemma {:induction false} OrFillHalf(n: nat)
    requires n > 0
    ensures Or(n, Fill(n / 2)) == Fill(n)
  {
    if n == 1 {
      OrZero(1);
    } else {
      hide *;
      FillStep(n);
      FillStep(n / 2);
      OrStep(n, Fill(n / 2));
      OrFillHalf(n / 2);
    }
  }

  /** A smear at least as long as the number fills it. */
  lemma {:induction false} SmearFills(n: nat, k: nat)
    requires n < Pow2(k)
    ensures Smear(n, k) == Fill(n)
  {
    if k > 0 {
      SmearFills(n / 2, k - 1);
      if n > 0 {
        OrFillHalf(n);
      } else {
        OrZero(0);
      }
    }
  }

  /** `f ^ (f >> 1)` isolates the highest bit of a filled word. */
  lemma {:induction false} XorIsolatesTop(n: nat)
    ensures Xor(Fill(n), Fill(n) / 2) == TopBit(n)
  {
    if n > 1 {
      hide *;
      XorIsolatesTop(n / 2);
      FillStep(n);
      FillStep(n / 2);
      XorStep(Fill(n), Fill(n / 2));
      TopBitStep(n);
    } else if n == 1 {
      assert Fill(1) == 1;
      assert Xor(1, 0) == 1 + 2 * Xor(0, 0);
    }
  }

  lemma TopBitStep(n: nat)
    requires n > 1
    ensures TopBit(n) == 2 * TopBit(n / 2)
  {
  }
}
