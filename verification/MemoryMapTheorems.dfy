/**
 What the normalisation of memory-map descriptors guarantees, for every list of descriptors.
 */
module MemoryMapTheorems {
  import opened Bits
  import opened AddressMask
  import opened MemoryMap

  // ----- words below an all-ones word -----

  lemma {:induction false} BelowFilled(a: nat, n: nat)
    requires a <= Fill(n)
    ensures AndNot(a, Fill(n)) == 0
    decreases n
  {
    if a > 0 {
      assert n > 0;
      BelowFilled(a / 2, n / 2);
    }
  }

  /** Clearing bits keeps a subset below its superset. */
  lemma {:induction false} SubsetBelow(x: nat, y: nat)
    requires AndNot(x, y) == 0
    ensures x <= y
  {
    if x > 0 {
      SubsetBelow(x / 2, y / 2);
    }
  }

  lemma SubsetAfterClearing(x: nat, y: nat, m: nat)
    requires AndNot(x, y) == 0
    ensures AndNot(AndNot(x, m), AndNot(y, m)) == 0
  {
    hide *;
    forall i: nat ensures Bit(AndNot(AndNot(x, m), AndNot(y, m)), i) == Bit(0, i) {
      BitsOfAndNot(AndNot(x, m), AndNot(y, m), i);
      BitsOfAndNot(x, m, i);
      BitsOfAndNot(y, m, i);
      BitsOfAndNot(x, y, i);
      ZeroHasNoBits(i);
    }
    Extensional(AndNot(AndNot(x, m), AndNot(y, m)), 0);
  }

  lemma {:induction false} AndNotDisjoint(x: nat, m: nat)
    ensures And(AndNot(x, m), m) == 0
  {
    if x > 0 {
      AndNotDisjoint(x / 2, m / 2);
    }
  }

  lemma {:induction false} ReduceMonotone(x: nat, y: nat, m: nat)
    requires AndNot(x, y) == 0
    ensures Reduce(x, m) <= Reduce(y, m)
    decreases m
  {
    if m == 0 {
      SubsetBelow(x, y);
    } else {
      SubsetHalves(x, y);
      ReduceMonotone(x / 2, y / 2, m / 2);
    }
  }

  lemma SubsetHalves(x: nat, y: nat)
    requires AndNot(x, y) == 0
    ensures AndNot(x / 2, y / 2) == 0 && x % 2 <= y % 2
  {
  }

  // ----- every address lands in the buffer -----

  /** Index into the core's buffer that address `a` selects. */
  function BufferIndex(d: Descriptor, a: nat): (r: nat)
    ensures r <= a
  {
    Reduce(AndNot(a, d.select), d.disconnect)
  }

  predicate Selects(d: Descriptor, a: nat) {
    And(a, d.select) == d.start
  }

  lemma PowerOfTwoFill(n: nat)
    requires PowerOfTwo(n)
    ensures Fill(n - 1) == n - 1
  {
    if n > 1 {
      if n % 2 == 1 {
        AndSelf(n / 2);
        assert (n - 1) / 2 == n / 2;
      } else {
        assert (n - 1) / 2 == n / 2 - 1;
        PowerOfTwoFill(n / 2);
      }
    }
  }

  lemma {:induction false} Pow2IsPowerOfTwo(k: nat)
    ensures PowerOfTwo(Pow2(k))
  {
    if k > 0 {
      Pow2IsPowerOfTwo(k - 1);
      assert (Pow2(k) - 1) / 2 == Pow2(k - 1) - 1;
    }
  }

  /** No address up to `top_addr` indexes beyond the filled mask of the buffer's last index. */
  lemma IndexBounded(d: Descriptor, top: nat, w: nat, a: nat)
    requires d.Fits(w) && Word(top, w) && Fill(top) == top && a <= top
    ensures BufferIndex(Normalised(d, top, w), a) <= Fill(Dec(LenOf(d, top, w), w))
  {
    hide And, Or, AndNot, Fill, TopBit, Trunc, Pow2, Inflate, Reduce, Grow, LenOf, SelectOf;
    var select, l := SelectOf(d, top, w), Dec(LenOf(d, top, w), w);
    var free, reachable := AndNot(top, select), ReachableOf(d, top, w);
    var disc := DisconnectOf(d, top, w);
    var x := AndNot(a, select);
    GrowStops(free, d.disconnect, reachable);
    GrowKeepsReachable(free, d.disconnect, l, w);
    ConnectedPartBounded(a, top, select, disc, reachable);
    assert And(reachable, disc) == 0 by {
      InflateAvoidsMask(l, disc);
      AndOfTrunc(Inflate(l, disc), disc, w);
    }
    AndNotDisjoint(x, disc);
    ReduceKeepsFillOrder(AndNot(x, disc), reachable, disc);
    ReduceIgnoresMasked(x, disc);
    ReduceTruncatedInflate(l, disc, w);
    FillMonotone(Reduce(reachable, disc), l);
  }

  lemma ConnectedPartBounded(a: nat, top: nat, select: nat, disc: nat, reachable: nat)
    requires Fill(top) == top && a <= top
    requires TopBit(AndNot(AndNot(top, select), disc)) <= TopBit(reachable)
    ensures Fill(AndNot(AndNot(a, select), disc)) <= Fill(reachable)
  {
    hide *;
    var x, free := AndNot(a, select), AndNot(top, select);
    BelowFilled(a, top);
    SubsetAfterClearing(a, top, select);
    SubsetAfterClearing(x, free, disc);
    SubsetBelow(AndNot(x, disc), AndNot(free, disc));
    FillMonotone(AndNot(x, disc), AndNot(free, disc));
    TopBitOrdersFill(AndNot(free, disc), reachable);
  }

  lemma {:induction false} FillIdempotent(n: nat)
    ensures Fill(Fill(n)) == Fill(n)
  {
    if n > 0 {
      FillIdempotent(n / 2);
      assert Fill(n) / 2 == Fill(n / 2);
    }
  }

  /** The main theorem, over a whole accepted list and without any hypothesis on overflow. */
  lemma EveryAddressInBuffer(before: seq<Descriptor>, after: seq<Descriptor>, i: nat, a: nat, w: nat)
    requires Width(w) && |before| == |after| && i < |before|
    requires forall d :: d in before ==> d.Fits(w)
    requires Progress(before, after, |before|, TopAddr(before, w), w)
    requires a <= TopAddr(before, w) && Selects(after[i], a)
    ensures BufferIndex(after[i], a) <= Fill(Dec(after[i].len, w))
    ensures PowerOfTwo(after[i].len) ==> BufferIndex(after[i], a) < after[i].len
  {
    hide And, Or, AndNot, Fill, Trunc, Pow2, Inflate, Reduce, LenOf, SelectOf, DisconnectOf, BufferIndex, Reached,
        PowerOfTwo;
    var top := TopAddr(before, w);
    assert before[i] in before;
    FillIdempotent(Reached(before, w));
    IndexBounded(before[i], top, w, a);
    if PowerOfTwo(after[i].len) {
      PowerOfTwoFill(after[i].len);
    }
  }

  // ----- exactly when a buffer whose length is not a power of two is safe -----

  lemma {:induction false} OrKeepsOld(ds: seq<Descriptor>, i: nat, w: nat)
    requires w > 0 && i < |ds|
    requires forall d :: d in ds ==> d.Fits(w)
    ensures Reach(ds[i], w) <= Reached(ds, w)
    decreases |ds|
  {
    hide Or, Reach;
    if i < |ds| - 1 {
      OrKeepsOld(ds[..|ds| - 1], i, w);
    }
  }

  /** Accepted start and select words are addresses up to `top_addr`. */
  lemma StartBelowTop(ds: seq<Descriptor>, i: nat, w: nat)
    requires w > 0 && i < |ds|
    requires forall d :: d in ds ==> d.Fits(w)
    requires Accepted(ds[i], TopAddr(ds, w), w)
    ensures ds[i].start <= SelectOf(ds[i], TopAddr(ds, w), w) <= TopAddr(ds, w)
  {
    hide Or, AndNot, Fill, Trunc, Inflate, Reached;
    OrKeepsOld(ds, i, w);
    SubsetBelow(ds[i].start, SelectOf(ds[i], TopAddr(ds, w), w));
  }

  /** The address with the given start and every unselected bit set. */
  lemma HighestSelected(start: nat, select: nat, top: nat)
    requires AndNot(start, select) == 0 && AndNot(start, top) == 0
    ensures var a := Or(start, AndNot(top, select));
            && And(a, select) == start && AndNot(a, select) == AndNot(top, select)
            && AndNot(a, top) == 0
  {
    hide *;
    var free := AndNot(top, select);
    var a := Or(start, free);
    forall i: nat
      ensures Bit(And(a, select), i) == Bit(start, i)
      ensures Bit(AndNot(a, select), i) == Bit(free, i)
      ensures Bit(AndNot(a, top), i) == Bit(0, i)
    {
      BitsOfOr(start, free, i);
      BitsOfAndNot(top, select, i);
      BitsOfAnd(a, select, i);
      BitsOfAndNot(a, select, i);
      BitsOfAndNot(a, top, i);
      BitsOfAndNot(start, select, i);
      BitsOfAndNot(start, top, i);
      ZeroHasNoBits(i);
    }
    Extensional(And(a, select), start);
    Extensional(AndNot(a, select), free);
    Extensional(AndNot(a, top), 0);
  }

  /** No index is above that of the top address, and some selected address has it. */
  lemma HighestIndex(before: seq<Descriptor>, after: seq<Descriptor>, i: nat, w: nat)
    requires Width(w) && |before| == |after| && i < |before|
    requires forall d :: d in before ==> d.Fits(w)
    requires Progress(before, after, |before|, TopAddr(before, w), w)
    ensures forall a :: 0 <= a <= TopAddr(before, w) ==>
              BufferIndex(after[i], a) <= BufferIndex(after[i], TopAddr(before, w))
    ensures exists a :: 0 <= a <= TopAddr(before, w) && Selects(after[i], a)
                        && BufferIndex(after[i], a) == BufferIndex(after[i], TopAddr(before, w))
  {
    hide And, Or, AndNot, Fill, Trunc, Pow2, Inflate, Reduce, LenOf, SelectOf, DisconnectOf, Reached, BufferIndex;
    var top, n := TopAddr(before, w), after[i];
    assert before[i] in before;
    FillIdempotent(Reached(before, w));
    StartBelowTop(before, i, w);
    BelowFilled(n.start, top);
    HighestSelected(n.start, n.select, top);
    var highest := Or(n.start, AndNot(top, n.select));
    SubsetBelow(highest, top);
    SameIndex(n, highest, top);
    assert Selects(n, highest);
    forall a | 0 <= a <= top ensures BufferIndex(n, a) <= BufferIndex(n, top) {
      BelowFilled(a, top);
      IndexMonotone(n, a, top);
    }
  }

  /**
   For any length, all selected addresses stay inside the buffer if and only if the single index
   formed from all unselected bits does.
   */
  lemma InsideExactlyWhenTopIndexIs(before: seq<Descriptor>, after: seq<Descriptor>, i: nat, w: nat)
    requires Width(w) && |before| == |after| && i < |before|
    requires forall d :: d in before ==> d.Fits(w)
    requires Progress(before, after, |before|, TopAddr(before, w), w)
    ensures (forall a :: 0 <= a <= TopAddr(before, w) && Selects(after[i], a) ==>
             BufferIndex(after[i], a) < after[i].len)
       <==> BufferIndex(after[i], TopAddr(before, w)) < after[i].len
  {
    hide Selects, BufferIndex, Progress, TopAddr;
    HighestIndex(before, after, i, w);
  }

  lemma SameIndex(n: Descriptor, a: nat, b: nat)
    requires AndNot(a, n.select) == AndNot(b, n.select)
    ensures BufferIndex(n, a) == BufferIndex(n, b)
  {
  }

  lemma IndexMonotone(n: Descriptor, a: nat, b: nat)
    requires AndNot(a, b) == 0
    ensures BufferIndex(n, a) <= BufferIndex(n, b)
  {
    hide AndNot, Reduce;
    SubsetAfterClearing(a, b, n.select);
    ReduceMonotone(AndNot(a, n.select), AndNot(b, n.select), n.disconnect);
  }

  // ----- the same condition on the words the caller passes in -----

  /** A mask bit above every bit of a word does not take part in its reduction. */
  lemma {:induction false} MaskAboveKeepsReduce(x: nat, m: nat, k: nat)
    requires x < Pow2(k)
    ensures Reduce(x, Or(m, Pow2(k))) == Reduce(x, m)
    decreases k
  {
    if k == 0 {
      ReduceZero(x, m);
      ReduceZero(x, Or(m, Pow2(k)));
    } else {
      hide *;
      Pow2Doubles(k);
      OrDoubled(m, Pow2(k - 1));
      MaskAboveKeepsReduce(x / 2, m / 2, k - 1);
      if m % 2 == 1 {
        ReduceOdd(x % 2, x / 2, m);
        ReduceOdd(x % 2, x / 2, Or(m, Pow2(k)));
      } else {
        ReduceEven(x % 2, x / 2, m);
        ReduceEven(x % 2, x / 2, Or(m, Pow2(k)));
      }
    }
  }

  lemma Pow2Doubles(k: nat)
    requires k > 0
    ensures Pow2(k) == 2 * Pow2(k - 1)
  {
  }

  /** What the grown mask leaves of the unselected bits are those the old mask leaves below the reachable ones. */
  lemma {:induction false} GrownReduction(free: nat, disc: nat, reachable: nat)
    ensures Reduce(free, Grow(free, disc, reachable)) == Reduce(And(free, Fill(reachable)), disc)
    decreases AndNot(free, disc)
  {
    var bit := TopBit(AndNot(free, disc));
    if bit > TopBit(reachable) {
      hide And, Or, AndNot, Fill, TopBit, Reduce;
      ConnectedShrinks(free, disc);
      GrownReduction(free, Or(disc, bit), reachable);
      TopBitIsPowerOfTwo(AndNot(free, disc));
      var k: nat :| bit == Pow2(k);
      LowerTopBit(reachable, k);
      FillIsLeastMask(reachable, k);
      MaskAboveKeepsReduce(And(free, Fill(reachable)), disc, k);
    } else {
      hide And, Or, AndNot, Fill, TopBit, Reduce;
      NothingAbove(free, disc, reachable);
      ReduceIgnoresMasked(free, disc);
      ReduceIgnoresMasked(And(free, Fill(reachable)), disc);
    }
  }

  lemma NothingAbove(free: nat, disc: nat, reachable: nat)
    requires TopBit(AndNot(free, disc)) <= TopBit(reachable)
    ensures AndNot(And(free, Fill(reachable)), disc) == AndNot(free, disc)
  {
    hide *;
    var low := Fill(reachable);
    TopBitOrdersFill(AndNot(free, disc), reachable);
    FillCovers(AndNot(free, disc));
    BelowFilled(AndNot(free, disc), reachable);
    forall i: nat ensures Bit(AndNot(And(free, low), disc), i) == Bit(AndNot(free, disc), i) {
      BitsOfAndNot(And(free, low), disc, i);
      BitsOfAnd(free, low, i);
      BitsOfAndNot(free, disc, i);
      BitsOfAndNot(AndNot(free, disc), low, i);
      ZeroHasNoBits(i);
    }
    Extensional(AndNot(And(free, low), disc), AndNot(free, disc));
  }

  lemma FillCovers(n: nat)
    ensures n <= Fill(n)
  {
  }

  /**
   The unselected bits that lie below the highest reachable one, squeezed through the descriptor's own mask, are an
   index of the buffer. Everything here is known before the descriptors are normalised.
   */
  predicate HoldsEveryIndex(d: Descriptor, top: nat, w: nat)
    requires d.Fits(w) && Word(top, w)
  {
    Reduce(And(AndNot(top, SelectOf(d, top, w)), Fill(ReachableOf(d, top, w))), d.disconnect) < LenOf(d, top, w)
  }

  /** For any length, all selected addresses stay inside the buffer if and only if the descriptor holds every index. */
  lemma InsideExactlyWhenBufferHolds(before: seq<Descriptor>, after: seq<Descriptor>, i: nat, w: nat)
    requires Width(w) && |before| == |after| && i < |before|
    requires forall d :: d in before ==> d.Fits(w)
    requires Progress(before, after, |before|, TopAddr(before, w), w)
    ensures (forall a :: 0 <= a <= TopAddr(before, w) && Selects(after[i], a) ==>
             BufferIndex(after[i], a) < after[i].len)
       <==> HoldsEveryIndex(before[i], TopAddr(before, w), w)
  {
    hide And, Or, AndNot, Fill, Trunc, Pow2, Inflate, Reduce, LenOf, SelectOf, ReachableOf, Reached, Grow, Selects;
    var top := TopAddr(before, w);
    assert before[i] in before;
    InsideExactlyWhenTopIndexIs(before, after, i, w);
    GrownReduction(AndNot(top, SelectOf(before[i], top, w)), before[i].disconnect, ReachableOf(before[i], top, w));
  }

  /** Without a disconnect mask: the unselected bits below the length, filled up, must be below the length. */
  lemma HoldsWithoutDisconnect(d: Descriptor, top: nat, w: nat)
    requires d.Fits(w) && Word(top, w) && d.disconnect == 0 && d.len > 0
    ensures HoldsEveryIndex(d, top, w) <==> And(AndNot(top, SelectOf(d, top, w)), Fill(d.len - 1)) < d.len
  {
    hide And, AndNot, Fill, Pow2, SelectOf, ReachableOf, Reduce;
    ReachableIsLast(d, top, w);
    NothingToReduce(And(AndNot(top, SelectOf(d, top, w)), Fill(d.len - 1)));
  }

  lemma ReachableIsLast(d: Descriptor, top: nat, w: nat)
    requires d.Fits(w) && Word(top, w) && d.disconnect == 0 && d.len > 0
    ensures ReachableOf(d, top, w) == d.len - 1
  {
    hide Trunc, Pow2, SelectOf, Inflate, Fill, Reduce, AndNot;
    NothingToInflate(d.len - 1);
  }

  /** A length that is not a power of two can be overrun: three bytes, and address 3 is selected. */
  lemma ThreeByteBufferIsOverrun()
    ensures var ds := [Descriptor(0, 0, 0, 4, 0, 3)];
            && (forall d :: d in ds ==> d.Fits(32))
            && TopAddr(ds, 32) == 7
            && Accepted(ds[0], 7, 32)
            && Selects(Normalised(ds[0], 7, 32), 3)
            && BufferIndex(Normalised(ds[0], 7, 32), 3) == Normalised(ds[0], 7, 32).len == 3
  {
    var d := Descriptor(0, 0, 0, 4, 0, 3);
    assert Pow2(3) == 8;
    Pow2Monotone(3, 32);
    assert d.Fits(32);
    SmallWords();
    assert Reached([d], 32) == Or(1, 4) by {
      assert [d][..0] == [];
    }
    assert ReachableOf(d, 7, 32) == 2 by {
      assert Inflate(2, 0) == 2;
    }
  }

  lemma SmallWords()
    ensures Or(1, 4) == 5 && Fill(5) == 7
    ensures AndNot(7, 4) == 3 && AndNot(3, 0) == 3 && AndNot(3, 4) == 3 && And(3, 4) == 0
    ensures TopBit(3) == 2 && TopBit(2) == 2
  {
    assert Or(1, 4) == 1 + 2 * Or(0, 2);
    assert Or(0, 2) == 0 + 2 * Or(0, 1);
    assert Fill(5) == 1 + 2 * Fill(2);
    assert AndNot(7, 4) == 1 + 2 * AndNot(3, 2);
    assert AndNot(3, 2) == 1 + 2 * AndNot(1, 1);
    assert AndNot(3, 0) == 1 + 2 * AndNot(1, 0);
    assert AndNot(3, 4) == 1 + 2 * AndNot(1, 2);
    assert And(3, 4) == 0 + 2 * And(1, 2);
  }
}
