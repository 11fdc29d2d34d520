/**
 Inserting and deleting address bits under a mask: what `mmap_inflate` and `mmap_reduce` compute,
 the laws relating them, and the two loops proved against them.
 */
module AddressMask {
  import opened Bits

  /** Spread the bits of `a` over the positions that are clear in `m`, lowest first. */
  function Inflate(a: nat, m: nat): (r: nat)
    decreases m
  {
    if m == 0 then a
    else if m % 2 == 1 then 2 * Inflate(a, m / 2)
    else a % 2 + 2 * Inflate(a / 2, m / 2)
  }

  /** Collect the bits of `x` at the positions that are clear in `m`. */
  function Reduce(x: nat, m: nat): (r: nat)
    ensures r <= x
    decreases m
  {
    if m == 0 then x
    else if m % 2 == 1 then Reduce(x / 2, m / 2)
    else x % 2 + 2 * Reduce(x / 2, m / 2)
  }

  lemma InflateOdd(a: nat, m: nat)
    requires m % 2 == 1
    ensures Inflate(a, m) == 2 * Inflate(a, m / 2)
  {
  }

  lemma InflateEven(a: nat, m: nat)
    requires m % 2 == 0
    ensures Inflate(a, m) == a % 2 + 2 * Inflate(a / 2, m / 2)
  {
  }

  lemma ReduceOdd(b: nat, h: nat, m: nat)
    requires b < 2 && m % 2 == 1
    ensures Reduce(b + 2 * h, m) == Reduce(h, m / 2)
  {
    assert (b + 2 * h) / 2 == h;
  }

  lemma ReduceEven(b: nat, h: nat, m: nat)
    requires b < 2 && m % 2 == 0
    ensures Reduce(b + 2 * h, m) == b + 2 * Reduce(h, m / 2)
  {
    assert (b + 2 * h) / 2 == h;
  }

  lemma EmptyWord(x: nat)
    ensures Trunc(x, 0) == 0
  {
  }

  lemma TruncStep(b: nat, h: nat, w: nat)
    requires b < 2 && w > 0
    ensures Trunc(b + 2 * h, w) == b + 2 * Trunc(h, w - 1)
  {
    assert (b + 2 * h) / 2 == h;
  }

  // ----- the two functions are inverse to each other -----

  lemma {:induction false} ReduceInflate(a: nat, m: nat)
    ensures Reduce(Inflate(a, m), m) == a
    decreases m
  {
    if m > 0 {
      ReduceInflate(if m % 2 == 1 then a else a / 2, m / 2);
    }
  }

  lemma {:induction false} InflateReduce(x: nat, m: nat)
    ensures Inflate(Reduce(x, m), m) == AndNot(x, m)
    decreases m
  {
    if m == 0 {
      AndNotZero(x);
    } else {
      InflateReduce(x / 2, m / 2);
    }
  }

  lemma {:induction false} InflateAvoidsMask(a: nat, m: nat)
    ensures And(Inflate(a, m), m) == 0
    decreases m
  {
    if m == 0 {
      AndZero(a);
    } else {
      InflateAvoidsMask(if m % 2 == 1 then a else a / 2, m / 2);
    }
  }

  /** Spreading keeps the order of addresses; with its range, that makes it the only such map. */
  lemma {:induction false} InflateOrders(a: nat, b: nat, m: nat)
    requires a < b
    ensures Inflate(a, m) < Inflate(b, m)
    decreases m
  {
    if m > 0 {
      hide Inflate;
      if m % 2 == 1 {
        InflateOdd(a, m);
        InflateOdd(b, m);
        InflateOrders(a, b, m / 2);
      } else {
        InflateEven(a, m);
        InflateEven(b, m);
        if a / 2 < b / 2 {
          InflateOrders(a / 2, b / 2, m / 2);
        }
      }
    }
  }

  lemma {:induction false} InflateOfZero(m: nat)
    ensures Inflate(0, m) == 0
  {
    if m > 0 {
      InflateOfZero(m / 2);
    }
  }

  lemma {:induction false} PopCountFits(m: nat, w: nat)
    requires m < Pow2(w)
    ensures PopCount(m) <= w
  {
    if w > 0 {
      PopCountFits(m / 2, w - 1);
    }
  }

  /** Inflating into a word of width `w` keeps exactly the bits that still fit. */
  lemma {:induction false} ReduceTruncatedInflate(a: nat, m: nat, w: nat)
    requires m < Pow2(w)
    ensures PopCount(m) <= w
    ensures Reduce(Trunc(Inflate(a, m), w), m) == Trunc(a, w - PopCount(m))
  {
    hide *;
    PopCountFits(m, w);
    if m == 0 {
      UnmaskedWord(a, w);
    } else {
      PopCountStep(m, w);
      if m % 2 == 1 {
        ReduceTruncatedInflate(a, m / 2, w - 1);
        InflateOdd(a, m);
        TruncStep(0, Inflate(a, m / 2), w);
        ReduceOdd(0, Trunc(Inflate(a, m / 2), w - 1), m);
      } else {
        ReduceTruncatedInflate(a / 2, m / 2, w - 1);
        InflateEven(a, m);
        TruncStep(a % 2, Inflate(a / 2, m / 2), w);
        ReduceEven(a % 2, Trunc(Inflate(a / 2, m / 2), w - 1), m);
        TruncStep(a % 2, a / 2, w - PopCount(m));
      }
    }
  }

  lemma UnmaskedWord(a: nat, w: nat)
    ensures PopCount(0) == 0 && Reduce(Trunc(Inflate(a, 0), w), 0) == Trunc(a, w)
  {
  }

  lemma PopCountStep(m: nat, w: nat)
    requires 0 < m < Pow2(w)
    ensures w > 0 && m / 2 < Pow2(w - 1)
    ensures PopCount(m / 2) < w && PopCount(m) == m % 2 + PopCount(m / 2)
  {
    PopCountFits(m / 2, w - 1);
  }

  /** Bits above the word do not influence the word that inflation produces. */
  lemma {:induction false} InflateTruncated(a: nat, m: nat, v: nat, w: nat)
    requires w <= v
    ensures Trunc(Inflate(Trunc(a, v), m), w) == Trunc(Inflate(a, m), w)
    decreases w
  {
    hide *;
    if w == 0 {
      EmptyWord(Inflate(a, m));
      EmptyWord(Inflate(Trunc(a, v), m));
    } else {
      if m % 2 == 1 {
        InflateOdd(a, m);
        InflateOdd(Trunc(a, v), m);
        TruncStep(0, Inflate(a, m / 2), w);
        TruncStep(0, Inflate(Trunc(a, v), m / 2), w);
        InflateTruncated(a, m / 2, v, w - 1);
      } else {
        TruncStep(a % 2, a / 2, v);
        InflateEven(a, m);
        InflateEven(Trunc(a, v), m);
        TruncStep(a % 2, Inflate(a / 2, m / 2), w);
        TruncStep(a % 2, Inflate(Trunc(a / 2, v - 1), m / 2), w);
        InflateTruncated(a / 2, m / 2, v - 1, w - 1);
      }
    }
  }

  // ----- one iteration of each loop -----

  /** `(mask - 1) & ~mask`: the run of ones below the lowest bit of the mask. */
  function LowRun(m: nat): (t: nat)
    requires m > 0
    ensures t < m
  {
    AndNot(m - 1, m)
  }

  /** `mask & (mask - 1)`: the mask without its lowest bit. */
  function ClearLow(m: nat): (r: nat)
    requires m > 0
    ensures r < m
  {
    And(m, m - 1)
  }

  lemma {:induction false} AndSelf(x: nat)
    ensures And(x, x) == x && AndNot(x, x) == 0
  {
    if x > 0 {
      AndSelf(x / 2);
    }
  }

  lemma LowBitOfMask(m: nat)
    requires m > 0
    ensures m % 2 == 1 ==> LowRun(m) == 0 && ClearLow(m) == m - 1
    ensures m % 2 == 0 ==> LowRun(m) == 1 + 2 * LowRun(m / 2) && ClearLow(m) == 2 * ClearLow(m / 2)
  {
    AndSelf(m / 2);
    if m % 2 == 1 {
      assert (m - 1) / 2 == m / 2;
    } else {
      assert (m - 1) / 2 == m / 2 - 1;
    }
  }

  /** `((addr & ~tmp) << 1) | (addr & tmp)`, before truncation to a word. */
  function InsertAbove(a: nat, t: nat): nat {
    Or(2 * AndNot(a, t), And(a, t))
  }

  /** `(addr & tmp) | ((addr >> 1) & ~tmp)`. */
  function DeleteAbove(a: nat, t: nat): (r: nat) {
    Or(And(a, t), AndNot(a / 2, t))
  }

  lemma InsertAboveBits(a: nat, t: nat)
    ensures InsertAbove(a, 0) == 2 * a
    ensures InsertAbove(a, 1 + 2 * t) == a % 2 + 2 * InsertAbove(a / 2, t)
  {
    AndNotZero(a);
    AndZero(a);
    OrZero(2 * a);
    assert (1 + 2 * t) / 2 == t;
    assert AndNot(a, 1 + 2 * t) == 2 * AndNot(a / 2, t);
    assert And(a, 1 + 2 * t) == a % 2 + 2 * And(a / 2, t);
  }

  lemma DeleteAboveBits(a: nat, t: nat)
    ensures DeleteAbove(a, 0) == a / 2
    ensures DeleteAbove(a, 1 + 2 * t) == a % 2 + 2 * DeleteAbove(a / 2, t)
  {
    hide Or;
    AndNotZero(a / 2);
    AndZero(a);
    OrZero(a / 2);
    assert (1 + 2 * t) / 2 == t;
    assert AndNot(a / 2, 1 + 2 * t) == 2 * AndNot(a / 2 / 2, t);
    assert And(a, 1 + 2 * t) == a % 2 + 2 * And(a / 2, t);
    OrAboveBit(a % 2, And(a / 2, t), AndNot(a / 2 / 2, t));
  }

  lemma OrAboveBit(b: nat, x: nat, y: nat)
    requires b < 2
    ensures Or(b + 2 * x, 2 * y) == b + 2 * Or(x, y)
  {
    assert (b + 2 * x) / 2 == x && (2 * y) / 2 == y;
  }

  lemma InflateEvenStep(b: nat, h: nat, m: nat)
    requires b < 2
    ensures Inflate(b + 2 * h, 2 * m) == b + 2 * Inflate(h, m)
  {
    assert (b + 2 * h) / 2 == h && (2 * m) / 2 == m;
    InflateEven(b + 2 * h, 2 * m);
  }

  lemma {:induction false} InflateStep(a: nat, m: nat)
    requires m > 0
    ensures Inflate(InsertAbove(a, LowRun(m)), ClearLow(m)) == Inflate(a, m)
    decreases m
  {
    hide InsertAbove, LowRun, ClearLow;
    LowBitOfMask(m);
    if m % 2 == 1 {
      InsertAboveBits(a, 0);
      InflateEvenStep(0, a, m / 2);
    } else {
      InsertAboveBits(a, LowRun(m / 2));
      InflateEvenStep(a % 2, InsertAbove(a / 2, LowRun(m / 2)), ClearLow(m / 2));
      InflateStep(a / 2, m / 2);
    }
  }

  lemma ClearLowEven(m: nat)
    requires m > 0
    ensures ClearLow(m) % 2 == 0
  {
    hide *;
    LowBitOfMask(m);
  }

  lemma {:induction false} ReduceStep(x: nat, m: nat)
    requires m > 0
    ensures Reduce(DeleteAbove(x, LowRun(m)), ClearLow(m) / 2) == Reduce(x, m)
    decreases m
  {
    hide *;
    LowBitOfMask(m);
    if m % 2 == 1 {
      DeleteAboveBits(x, 0);
      ReduceOdd(x % 2, x / 2, m);
    } else {
      var t := LowRun(m / 2);
      DeleteAboveBits(x, t);
      ClearLowEven(m / 2);
      ReduceEven(x % 2, x / 2, m);
      ReduceEven(x % 2, DeleteAbove(x / 2, t), ClearLow(m / 2));
      ReduceStep(x / 2, m / 2);
    }
  }

  lemma NothingToInflate(a: nat)
    ensures Inflate(a, 0) == a
  {
  }

  lemma NothingToReduce(x: nat)
    ensures Reduce(x, 0) == x
  {
  }

  // ----- the loops -----

  lemma {:induction false} InsertAboveLow(a: nat, t: nat, w: nat)
    requires a < Pow2(w)
    ensures Or(Trunc(2 * AndNot(a, t), w), And(a, t)) == Trunc(InsertAbove(a, t), w)
  {
    TruncOfOr(2 * AndNot(a, t), And(a, t), w);
  }

  method MmapInflate(addr0: nat, mask0: nat, w: nat) returns (addr: nat)
    requires addr0 < Pow2(w) && mask0 < Pow2(w)
    ensures addr == Trunc(Inflate(addr0, mask0), w)
  {
    hide And, Or, AndNot, Inflate, Trunc, Pow2;
    addr := addr0;
    var mask: nat := mask0;
    while mask != 0
      invariant addr < Pow2(w)
      invariant Trunc(Inflate(addr, mask), w) == Trunc(Inflate(addr0, mask0), w)
    {
      var tmp := AndNot(mask - 1, mask);
      InflateStep(addr, mask);
      InsertAboveLow(addr, tmp, w);
      InflateTruncated(InsertAbove(addr, tmp), ClearLow(mask), w, w);
      addr := Or(Trunc(2 * AndNot(addr, tmp), w), And(addr, tmp));
      mask := And(mask, mask - 1);
    }
    NothingToInflate(addr);
  }

  method MmapReduce(addr0: nat, mask0: nat) returns (addr: nat)
    ensures addr == Reduce(addr0, mask0)
  {
    hide And, Or, AndNot, Reduce;
    addr := addr0;
    var mask: nat := mask0;
    while mask != 0
      invariant Reduce(addr, mask) == Reduce(addr0, mask0)
    {
      var tmp := AndNot(mask - 1, mask);
      ReduceStep(addr, mask);
      addr := Or(And(addr, tmp), AndNot(addr / 2, tmp));
      mask := And(mask, mask - 1) / 2;
    }
    NothingToReduce(addr);
  }

  // ----- the word-level round trip and its exact condition -----

  /** `mmap_reduce` undoes `mmap_inflate` exactly for the addresses that fit beside the mask. */
  lemma RoundTripExactlyWhenItFits(a: nat, m: nat, w: nat)
    requires a < Pow2(w) && m < Pow2(w)
    ensures PopCount(m) <= w
    ensures Reduce(Trunc(Inflate(a, m), w), m) == a <==> a < Pow2(w - PopCount(m))
  {
    ReduceTruncatedInflate(a, m, w);
  }

  // ----- order and stability -----

  lemma {:induction false} AndOfTrunc(x: nat, m: nat, w: nat)
    requires And(x, m) == 0
    ensures And(Trunc(x, w), m) == 0
  {
    if w > 0 && x > 0 {
      AndOfTrunc(x / 2, m / 2, w - 1);
    }
  }

  lemma {:induction false} DisjointAndNot(x: nat, m: nat)
    requires And(x, m) == 0
    ensures AndNot(x, m) == x
  {
    if x > 0 {
      DisjointAndNot(x / 2, m / 2);
    }
  }

  /** A word that avoids the mask is zero exactly if its reduction is. */
  lemma ReduceZero(v: nat, m: nat)
    requires And(v, m) == 0
    ensures Reduce(v, m) == 0 <==> v == 0
  {
    InflateReduce(v, m);
    DisjointAndNot(v, m);
    InflateOfZero(m);
  }

  lemma {:induction false} ReduceIgnoresMasked(x: nat, m: nat)
    ensures Reduce(AndNot(x, m), m) == Reduce(x, m)
    decreases m
  {
    if m == 0 {
      AndNotZero(x);
    } else {
      ReduceIgnoresMasked(x / 2, m / 2);
    }
  }

  /** Reduction preserves the order of highest bits. */
  lemma {:induction false} ReduceKeepsFillOrder(u: nat, v: nat, m: nat)
    requires And(u, m) == 0 && And(v, m) == 0
    requires Fill(u) <= Fill(v)
    ensures Fill(Reduce(u, m)) <= Fill(Reduce(v, m))
    decreases m
  {
    if m > 0 && u > 0 {
      ReduceZero(v, m);
      ReduceKeepsFillOrder(u / 2, v / 2, m / 2);
      FillReduced(u, m);
      FillReduced(v, m);
    } else if m > 0 {
      ReduceZero(u, m);
    }
  }

  lemma FillAboveBit(b: nat, h: nat)
    requires b < 2 && b + 2 * h > 0
    ensures Fill(b + 2 * h) == 1 + 2 * Fill(h)
  {
    assert (b + 2 * h) / 2 == h;
  }

  lemma FillReduced(v: nat, m: nat)
    requires v > 0 && m > 0 && And(v, m) == 0
    ensures And(v / 2, m / 2) == 0
    ensures m % 2 == 1 ==> v % 2 == 0 && Reduce(v, m) == Reduce(v / 2, m / 2)
    ensures m % 2 == 0 ==> Fill(Reduce(v, m)) == 1 + 2 * Fill(Reduce(v / 2, m / 2))
  {
    hide *;
    AndStep(v, m);
    ReduceZero(v, m);
    var b, h := v % 2, v / 2;
    assert v == b + 2 * h;
    if m % 2 == 0 {
      ReduceEven(b, h, m);
      FillAboveBit(b, Reduce(h, m / 2));
    } else {
      ReduceOdd(b, h, m);
    }
  }

  lemma AndStep(v: nat, m: nat)
    requires And(v, m) == 0
    ensures And(v / 2, m / 2) == 0
    ensures m % 2 == 1 ==> v % 2 == 0
  {
  }

  lemma {:induction false} DoubledStaysBelow(b: nat, m: nat, w: nat)
    requires Trunc(Inflate(b, m), w) == 0
    ensures Trunc(Inflate(2 * b, m), w) == 0
    decreases w
  {
    hide *;
    if w == 0 {
      EmptyWord(Inflate(2 * b, m));
    } else {
      if m % 2 == 1 {
        InflateOdd(b, m);
        InflateOdd(2 * b, m);
        TruncStep(0, Inflate(b, m / 2), w);
        TruncStep(0, Inflate(2 * b, m / 2), w);
        DoubledStaysBelow(b, m / 2, w - 1);
      } else {
        InflateEven(b, m);
        InflateEven(2 * b, m);
        TruncStep(b % 2, Inflate(b / 2, m / 2), w);
        TruncStep(0, Inflate(b, m / 2), w);
        DoubledStaysBelow(b / 2, m / 2, w - 1);
        assert 2 * b / 2 == b && (2 * b) % 2 == 0;
      }
    }
  }

  lemma OrPow2(m: nat, k: nat)
    ensures Pow2(k) == if k == 0 then 1 else 2 * Pow2(k - 1)
    ensures k == 0 ==> Or(m, Pow2(k)) == 1 + 2 * (m / 2)
    ensures k > 0 ==> Or(m, Pow2(k)) == m % 2 + 2 * Or(m / 2, Pow2(k - 1))
  {
    OrZero(m / 2);
    if k > 0 {
      assert Pow2(k) / 2 == Pow2(k - 1);
    }
  }

  /** Masking one more position above everything inflation produced changes nothing. */
  lemma {:induction false} MaskAboveIsHarmless(a: nat, m: nat, k: nat, w: nat)
    requires k < w
    requires Trunc(Inflate(a, m), w) < Pow2(k)
    ensures Trunc(Inflate(a, Or(m, Pow2(k))), w) == Trunc(Inflate(a, m), w)
    decreases k
  {
    hide *;
    OrPow2(m, k);
    if k == 0 {
      MaskBottomIsHarmless(a, m, w);
    } else {
      var m' := Or(m / 2, Pow2(k - 1));
      var b, h := if m % 2 == 1 then 0 else a % 2, if m % 2 == 1 then a else a / 2;
      InflateAny(a, m, b, h, m / 2);
      InflateAny(a, Or(m, Pow2(k)), b, h, m');
      TruncStep(b, Inflate(h, m / 2), w);
      TruncStep(b, Inflate(h, m'), w);
      MaskAboveIsHarmless(h, m / 2, k - 1, w - 1);
    }
  }

  lemma InflateAny(a: nat, m: nat, b: nat, h: nat, rest: nat)
    requires m == m % 2 + 2 * rest
    requires b == if m % 2 == 1 then 0 else a % 2
    requires h == if m % 2 == 1 then a else a / 2
    ensures Inflate(a, m) == b + 2 * Inflate(h, rest)
  {
    assert m / 2 == rest;
    if m % 2 == 0 {
      InflateEven(a, m);
    }
  }

  lemma MaskBottomIsHarmless(a: nat, m: nat, w: nat)
    requires w > 0 && Trunc(Inflate(a, m), w) == 0
    ensures Trunc(Inflate(a, 1 + 2 * (m / 2)), w) == 0
  {
    hide *;
    if m % 2 == 0 {
      InflateEven(a, m);
      TruncStep(a % 2, Inflate(a / 2, m / 2), w);
      DoubledStaysBelow(a / 2, m / 2, w - 1);
      InflateAny(a, 1 + 2 * (m / 2), 0, a, m / 2);
      TruncStep(0, Inflate(a, m / 2), w);
    }
  }
}
