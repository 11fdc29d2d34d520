/**
 What the normalisation computes where the core leaves a word open: the length of a descriptor that came without one,
 the select word of a descriptor that came without one, and the highest address.
 */
module MemoryMapWords {
  import opened Bits
  import opened AddressMask
  import opened MemoryMap
  import opened MemoryMapTheorems

  // ----- a length that is filled in -----

  /** The number of bytes a length word stands for: 0 is what the size of the whole address space wraps to. */
  function Capacity(len: nat, w: nat): (n: nat) {
    if len == 0 then Pow2(w) else len
  }

  /** Filling the low bits of an index does not raise the address it spreads to. */
  lemma {:induction false} InflateKeepsFill(r: nat, m: nat)
    ensures Fill(Inflate(Fill(r), m)) == Fill(Inflate(r, m))
    decreases m
  {
    if m == 0 || r == 0 {
      hide Fill;
      NothingToInflate(r);
      NothingToInflate(Fill(r));
      FillIdempotent(r);
      EmptyFilled();
    } else {
      hide *;
      SpreadPositive(r, m);
      SpreadPositive(Fill(r), m);
      if m % 2 == 1 {
        InflateOdd(r, m);
        InflateOdd(Fill(r), m);
        FillAboveBit(0, Inflate(r, m / 2));
        FillAboveBit(0, Inflate(Fill(r), m / 2));
        InflateKeepsFill(r, m / 2);
      } else {
        FillStep(r);
        InflateEven(r, m);
        InflateEven(Fill(r), m);
        FillAboveBit(r % 2, Inflate(r / 2, m / 2));
        FillAboveBit(1, Inflate(Fill(r / 2), m / 2));
        InflateKeepsFill(r / 2, m / 2);
      }
    }
  }

  lemma EmptyFilled()
    ensures Fill(0) == 0
  {
  }

  lemma SpreadPositive(r: nat, m: nat)
    requires r > 0
    ensures Inflate(r, m) > 0 && Fill(r) > 0
  {
    hide Inflate, Reduce;
    ReduceInflate(r, m);
  }

  /** With the length filled in, the highest address it makes reachable is above every connected bit. */
  lemma FilledReachesAll(free: nat, disc: nat, w: nat)
    requires Word(free, w)
    ensures TopBit(AndNot(free, disc)) <= TopBit(Trunc(Inflate(Fill(Reduce(free, disc)), disc), w))
  {
    hide And, Or, AndNot, Fill, TopBit, Trunc, Inflate, Reduce, Pow2;
    var r, x := Reduce(free, disc), AndNot(free, disc);
    var spread := Inflate(Fill(r), disc);
    InflateReduce(free, disc);
    InflateKeepsFill(r, disc);
    FillIsLeastMask(x, w);
    FillCovers(spread);
    TopBitOrdersFill(x, spread);
  }

  /** The filled-in length, less one, is the reduction of the unselected bits with every lower bit set. */
  lemma FilledLast(d: Descriptor, top: nat, select: nat, w: nat)
    requires d.Fits(w) && Word(top, w) && d.len == 0 && select == SelectOf(d, top, w)
    ensures var last := Fill(Reduce(AndNot(top, select), d.disconnect));
            Capacity(LenOf(d, top, w), w) == last + 1 <= Pow2(w) && Dec(LenOf(d, top, w), w) == last
  {
    hide *;
    FilledLen(d, top, select, w);
    ReducedFits(top, select, d.disconnect, w);
    NextPower(Reduce(AndNot(top, select), d.disconnect), w);
  }

  lemma FilledLen(d: Descriptor, top: nat, select: nat, w: nat)
    requires d.Fits(w) && Word(top, w) && d.len == 0 && select == SelectOf(d, top, w)
    ensures LenOf(d, top, w) == Trunc(Fill(Reduce(AndNot(top, select), d.disconnect)) + 1, w)
  {
    hide AndNot, Fill, Reduce, SelectOf, Pow2, Trunc, Word, Inflate, And, Or, TopBit;
  }

  lemma ReducedFits(x: nat, y: nat, m: nat, w: nat)
    requires Word(x, w)
    ensures Reduce(AndNot(x, y), m) < Pow2(w)
  {
    hide AndNot, Reduce, Pow2;
  }

  lemma NextPower(r: nat, w: nat)
    requires r < Pow2(w)
    ensures Fill(r) < Pow2(w)
    ensures Capacity(Trunc(Fill(r) + 1, w), w) == Fill(r) + 1 && Dec(Trunc(Fill(r) + 1, w), w) == Fill(r)
  {
    hide Fill, Pow2, Trunc;
    FillIsLeastMask(r, w);
    TruncOfPower(w);
  }

  lemma TruncOfPower(w: nat)
    ensures Trunc(Pow2(w), w) == 0
  {
    hide Pow2, Trunc;
    TruncIsMod(Pow2(w), w);
    Quotient(Pow2(w), Pow2(w), 1, 0);
  }

  /** The highest index of a descriptor whose length was filled in. */
  lemma FilledTopIndex(d: Descriptor, top: nat, w: nat)
    requires d.Fits(w) && Word(top, w) && d.len == 0
    ensures BufferIndex(Normalised(d, top, w), top) == Reduce(AndNot(top, SelectOf(d, top, w)), d.disconnect)
  {
    hide AndNot, Fill, Reduce, SelectOf, LenOf, Pow2, Trunc, Inflate, TopBit, Capacity;
    var free := AndNot(top, SelectOf(d, top, w));
    FilledLast(d, top, SelectOf(d, top, w), w);
    FilledReachesAll(free, d.disconnect, w);
    assert DisconnectOf(d, top, w) == d.disconnect;
  }

  /**
   A descriptor that comes without a length gets the least power of two above every index: every selected address
   indexes below it, and unless it is one, some selected address indexes in its upper half.
   */
  lemma FilledLengthIsLeast(before: seq<Descriptor>, after: seq<Descriptor>, i: nat, w: nat)
    requires Width(w) && |before| == |after| && i < |before|
    requires forall d :: d in before ==> d.Fits(w)
    requires Progress(before, after, |before|, TopAddr(before, w), w) && before[i].len == 0
    ensures exists k: nat :: k <= w && Capacity(after[i].len, w) == Pow2(k)
    ensures forall a :: 0 <= a <= TopAddr(before, w) && Selects(after[i], a) ==>
              BufferIndex(after[i], a) < Capacity(after[i].len, w)
    ensures Capacity(after[i].len, w) > 1 ==>
              exists a :: 0 <= a <= TopAddr(before, w) && Selects(after[i], a)
                          && 2 * BufferIndex(after[i], a) >= Capacity(after[i].len, w)
  {
    hide And, Or, AndNot, Fill, Trunc, Pow2, Inflate, Reduce, LenOf, SelectOf, DisconnectOf, Reached, BufferIndex,
        Selects, Capacity;
    var top := TopAddr(before, w);
    assert before[i] in before;
    var r := Reduce(AndNot(top, SelectOf(before[i], top, w)), before[i].disconnect);
    FilledLast(before[i], top, SelectOf(before[i], top, w), w);
    FilledTopIndex(before[i], top, w);
    HighestIndex(before, after, i, w);
    PowerAbove(r, w);
  }

  lemma PowerAbove(r: nat, w: nat)
    requires Fill(r) + 1 <= Pow2(w)
    ensures exists k: nat :: k <= w && Fill(r) + 1 == Pow2(k)
    ensures r <= Fill(r) && (Fill(r) > 0 ==> 2 * r >= Fill(r) + 1)
  {
    hide Pow2;
    FillIsLeastMask(r, w);
    var k: nat :| Fill(r) + 1 == Pow2(k);
    if k > w {
      Pow2Monotone(w, k);
      assert Pow2(k) == Pow2(w);
    }
  }

  // ----- the highest address -----

  /** The word a descriptor stretches the address space to: its select word, or the address of its last byte. */
  function Mentioned(d: Descriptor, w: nat): (x: int) {
    if d.select != 0 then d.select else (d.start + d.len - 1) % Pow2(w)
  }

  lemma ReachIsMentioned(d: Descriptor, w: nat)
    requires d.Fits(w)
    ensures Reach(d, w) == Mentioned(d, w)
  {
    hide Pow2, Trunc;
    TruncIsMod(d.start + d.len, w);
    OneBefore(d.start + d.len, Pow2(w));
  }

  /** Counting down modulo `p`. */
  lemma OneBefore(x: nat, p: nat)
    requires p > 0
    ensures (x - 1) % p == if x % p == 0 then p - 1 else x % p - 1
  {
    hide *;
    if x % p == 0 {
      LastBefore(x, p);
    } else {
      Remainder(x - 1, p, x / p, x % p - 1);
    }
  }

  lemma LastBefore(x: int, p: int)
    requires p > 0 && x % p == 0
    ensures (x - 1) % p == p - 1
  {
    var q := x / p;
    assert x - 1 == p * (q - 1) + (p - 1);
    Remainder(x - 1, p, q - 1, p - 1);
  }

  lemma Remainder(x: int, d: int, q: int, r: int)
    requires 0 <= r < d && x == d * q + r
    ensures x % d == r
  {
    var k := x / d - q;
    assert r - x % d == d * k;
    OnlyZeroMultiple(d, k);
  }

  /** The top address is the least all-ones word, 1 at least, that covers every word the descriptors mention. */
  lemma {:induction false} TopAddrIsLeast(ds: seq<Descriptor>, k: nat, w: nat)
    requires w > 0
    requires forall d :: d in ds ==> d.Fits(w)
    ensures exists j: nat :: TopAddr(ds, w) + 1 == Pow2(j)
    ensures TopAddr(ds, w) < Pow2(k) <==> k > 0 && forall d :: d in ds ==> Mentioned(d, w) < Pow2(k)
  {
    hide Reached, Mentioned, Fill, Pow2;
    FillIsLeastMask(Reached(ds, w), k);
    ReachedBelow(ds, k, w);
  }

  lemma {:induction false} ReachedBelow(ds: seq<Descriptor>, k: nat, w: nat)
    requires w > 0
    requires forall d :: d in ds ==> d.Fits(w)
    ensures Reached(ds, w) < Pow2(k) <==> k > 0 && forall d :: d in ds ==> Mentioned(d, w) < Pow2(k)
    decreases |ds|
  {
    if ds == [] {
      Pow2AboveOne(k);
    } else {
      hide Or, Reach, Mentioned, Pow2;
      var last := |ds| - 1;
      ReachedBelow(ds[..last], k, w);
      ReachIsMentioned(ds[last], w);
      assert ds == ds[..last] + [ds[last]];
      var x, y := Reached(ds[..last], w), Reach(ds[last], w);
      if x < Pow2(k) && y < Pow2(k) {
        OrBound(x, y, k);
      }
    }
  }

  lemma Pow2AboveOne(k: nat)
    ensures 1 < Pow2(k) <==> k > 0
  {
  }

  // ----- a select word that is filled in -----

  /** The words made of the bits an index below `2^k` can spread to. */
  lemma {:induction false} Covered(a: nat, m: nat, k: nat)
    ensures AndNot(a, Inflate(Pow2(k) - 1, m)) == 0 <==> And(a, m) == 0 && Reduce(a, m) < Pow2(k)
    decreases a
  {
    hide *;
    if a == 0 {
      NothingCovered(m, k);
    } else if m % 2 == 1 {
      Covered(a / 2, m / 2, k);
      InflateOdd(Pow2(k) - 1, m);
      ReduceOdd(a % 2, a / 2, m);
      MaskedBit(a, m);
      AndNotStep(a, 2 * Inflate(Pow2(k) - 1, m / 2));
    } else if k == 0 {
      InflateOfZero(m);
      AndNotZero(a);
      OnlyOne();
      if And(a, m) == 0 {
        ReduceZero(a, m);
      }
    } else {
      Covered(a / 2, m / 2, k - 1);
      Pow2Doubles(k);
      InflateEven(Pow2(k) - 1, m);
      ReduceEven(a % 2, a / 2, m);
      MaskedBit(a, m);
      AndNotStep(a, 1 + 2 * Inflate(Pow2(k - 1) - 1, m / 2));
    }
  }

  lemma OnlyOne()
    ensures Pow2(0) == 1
  {
  }

  lemma NothingCovered(m: nat, k: nat)
    ensures AndNot(0, Inflate(Pow2(k) - 1, m)) == 0 && And(0, m) == 0 && Reduce(0, m) < Pow2(k)
  {
    hide Inflate, Reduce, Pow2;
  }

  lemma MaskedBit(a: nat, m: nat)
    ensures And(a, m) == 0 <==> (a % 2 == 0 || m % 2 == 0) && And(a / 2, m / 2) == 0
  {
  }

  /**
   A descriptor without a select word gets one that leaves exactly its own indices free: the addresses without selected
   bits are those that avoid the disconnect mask and, squeezed through it, are below the length.
   */
  lemma FilledSelectFreesIndices(d: Descriptor, top: nat, w: nat, a: nat)
    requires d.Fits(w) && Word(top, w) && Fill(top) == top && a <= top
    requires d.select == 0 && PowerOfTwo(d.len)
    ensures And(a, SelectOf(d, top, w)) == 0 <==> And(a, d.disconnect) == 0 && Reduce(a, d.disconnect) < d.len
  {
    hide And, Or, AndNot, Fill, Trunc, Inflate, Reduce, Pow2, PowerOfTwo;
    PositivePower(d.len);
    var spread := Inflate(d.len - 1, d.disconnect);
    PowerOfTwoFill(d.len);
    FillIsLeastMask(d.len - 1, 0);
    var k: nat :| Fill(d.len - 1) + 1 == Pow2(k);
    BelowFilled(a, top);
    assert SelectOf(d, top, w) == AndNot(top, Trunc(spread, w));
    SplitByMask(a, top, Trunc(spread, w));
    WordCovers(a, spread, w);
    Covered(a, d.disconnect, k);
  }

  /** Bits beyond a word do not matter to what is in it. */
  lemma WordCovers(a: nat, x: nat, w: nat)
    requires Word(a, w)
    ensures AndNot(a, Trunc(x, w)) == AndNot(a, x)
  {
    hide *;
    forall i: nat ensures Bit(AndNot(a, Trunc(x, w)), i) == Bit(AndNot(a, x), i) {
      BitsOfAndNot(a, Trunc(x, w), i);
      BitsOfAndNot(a, x, i);
      BitsOfTrunc(x, w, i);
      BitsOfTrunc(a, w, i);
      TruncOfWord(a, w);
    }
    Extensional(AndNot(a, Trunc(x, w)), AndNot(a, x));
  }

  lemma TruncOfWord(a: nat, w: nat)
    requires Word(a, w)
    ensures Trunc(a, w) == a
  {
    hide Trunc, Pow2;
  }

  // ----- what is refused -----

  /** A descriptor is refused exactly for a length that is no power of two where it had to do for a select word, or for
      a start outside its select word. */
  lemma AcceptedExactly(d: Descriptor, top: nat, w: nat)
    requires d.Fits(w) && Word(top, w)
    ensures Accepted(d, top, w) <==>
              && (d.select == 0 ==> exists k: nat :: d.len == Pow2(k))
              && And(d.start, Normalised(d, top, w).select) == d.start
  {
    hide And, AndNot, Fill, Trunc, Inflate, Pow2, SelectOf, LenOf, DisconnectOf;
    SubsetIsAnd(d.start, SelectOf(d, top, w));
    PowerOfTwoIsPower(d.len);
  }

  lemma {:induction false} SubsetIsAnd(x: nat, y: nat)
    ensures AndNot(x, y) == 0 <==> And(x, y) == x
  {
    if x > 0 {
      SubsetIsAnd(x / 2, y / 2);
    }
  }

  lemma PowerOfTwoIsPower(n: nat)
    ensures PowerOfTwo(n) <==> exists k: nat :: n == Pow2(k)
  {
    hide *;
    if PowerOfTwo(n) {
      PositivePower(n);
      PowerOfTwoFill(n);
      FillIsLeastMask(n - 1, 0);
    }
    if k: nat :| n == Pow2(k) {
      Pow2IsPowerOfTwo(k);
    }
  }

  lemma PositivePower(n: nat)
    requires PowerOfTwo(n)
    ensures n > 0
  {
    hide And;
  }
}
