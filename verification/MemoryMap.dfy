/**
 The memory-map descriptors of a libretro core: the shift cascades, the in-place normalisation
 that the frontend runs over the descriptors a core hands it, and the theorem that every address
 it can then form lands inside the descriptor's buffer.
 */
module MemoryMap {
  import opened Bits
  import opened AddressMask

  predicate Width(w: nat) {
    w == 32 || w == 64
  }

  predicate Word(x: nat, w: nat) {
    x < Pow2(w)
  }

  /** `x - 1` in a word of width `w`. */
  function Dec(x: nat, w: nat): (r: nat)
    ensures x < Pow2(w) ==> r < Pow2(w)
  {
    if x == 0 then Pow2(w) - 1 else x - 1
  }

  datatype Descriptor = Descriptor(flags: nat, ptr: nat, start: nat, select: nat, disconnect: nat, len: nat)
  {
    predicate Fits(w: nat) {
      Word(start, w) && Word(select, w) && Word(disconnect, w) && Word(len, w)
    }
  }

  // ----- the shift cascades -----

  lemma ShrTwice(n: nat, j: nat, k: nat)
    ensures Shr(Shr(n, j), k) == Shr(n, j + k)
    decreases j
  {
    if j > 0 {
      ShrTwice(n / 2, j - 1, k);
    }
  }

  lemma SmearOne(n: nat)
    ensures Smear(n, 1) == n
  {
    OrZero(n);
  }

  method MmapAddBitsDown(n0: nat, w: nat) returns (n: nat)
    requires Width(w) && Word(n0, w)
    ensures n == Fill(n0)
  {
    hide *;
    n := n0;
    SmearOne(n0);
    CascadeStep(n0, 1);
    n := Or(n, Shr(n, 1));
    CascadeStep(n0, 2);
    n := Or(n, Shr(n, 2));
    CascadeStep(n0, 4);
    n := Or(n, Shr(n, 4));
    CascadeStep(n0, 8);
    n := Or(n, Shr(n, 8));
    CascadeStep(n0, 16);
    n := Or(n, Shr(n, 16));
    if w > 32 {
      CascadeStep(n0, 32);
      ShrTwice(n, 16, 16);
      n := Or(n, Shr(Shr(n, 16), 16));
    }
    CascadeIsComplete(n0, w);
  }

  lemma CascadeIsComplete(n: nat, w: nat)
    requires Width(w) && Word(n, w)
    ensures w == 32 || w == 64
    ensures Smear(n, w) == Fill(n)
  {
    SmearFills(n, w);
  }

  method MmapHighestBit(n0: nat, w: nat) returns (bit: nat)
    requires Width(w) && Word(n0, w)
    ensures bit == TopBit(n0)
  {
    var n := MmapAddBitsDown(n0, w);
    XorIsolatesTop(n0);
    bit := Xor(n, n / 2);
  }

  // ----- growing the disconnect mask -----

  /** Removing the highest connected bit from the connected bits. */
  lemma {:induction false} ConnectedShrinks(free: nat, disc: nat)
    requires AndNot(free, disc) > 0
    ensures AndNot(free, Or(disc, TopBit(AndNot(free, disc)))) == AndNot(free, disc) - TopBit(AndNot(free, disc))
  {
    hide *;
    var y := AndNot(free / 2, disc / 2);
    AndNotStep(free, disc);
    var bit := AndNot(free, disc) - 2 * y;
    if y > 0 {
      ConnectedShrinks(free / 2, disc / 2);
      TopBitAboveBit(bit, y);
      OrDoubled(disc, TopBit(y));
      AndNotStep(free, Or(disc, 2 * TopBit(y)));
    } else {
      TopBitOfOne();
      OrOne(disc);
      AndNotStep(free, Or(disc, 1));
    }
  }

  lemma AndNotStep(x: nat, y: nat)
    ensures AndNot(x, y) == FromBit(x % 2 == 1 && y % 2 == 0) + 2 * AndNot(x / 2, y / 2)
    ensures FromBit(x % 2 == 1 && y % 2 == 0) == if x % 2 == 1 && y % 2 == 0 then 1 else 0
  {
  }

  lemma TopBitAboveBit(b: nat, y: nat)
    requires b < 2 && y > 0
    ensures TopBit(b + 2 * y) == 2 * TopBit(y)
  {
    assert (b + 2 * y) / 2 == y;
  }

  lemma TopBitOfOne()
    ensures TopBit(1) == 1
  {
  }

  lemma OrDoubled(x: nat, y: nat)
    ensures Or(x, 2 * y) % 2 == x % 2 && Or(x, 2 * y) / 2 == Or(x / 2, y)
  {
    hide *;
    OrAboveBit(x % 2, x / 2, y);
  }

  lemma OrOne(x: nat)
    ensures Or(x, 1) % 2 == 1 && Or(x, 1) / 2 == x / 2
  {
    hide *;
    OrPow2(x, 0);
  }

  /** What the `while` loop at the end of the normalisation leaves in `disconnect`. */
  function Grow(free: nat, disc: nat, reachable: nat): (r: nat)
    decreases AndNot(free, disc)
  {
    if TopBit(AndNot(free, disc)) > TopBit(reachable) then
      ConnectedShrinks(free, disc);
      Grow(free, Or(disc, TopBit(AndNot(free, disc))), reachable)
    else
      disc
  }

  lemma {:induction false} GrowStops(free: nat, disc: nat, reachable: nat)
    ensures TopBit(AndNot(free, Grow(free, disc, reachable))) <= TopBit(reachable)
    decreases AndNot(free, disc)
  {
    if TopBit(AndNot(free, disc)) > TopBit(reachable) {
      ConnectedShrinks(free, disc);
      GrowStops(free, Or(disc, TopBit(AndNot(free, disc))), reachable);
    }
  }

  /** The highest reachable address is computed once, before the loop; growing keeps it valid. */
  lemma {:induction false} GrowKeepsReachable(free: nat, disc: nat, l: nat, w: nat)
    requires Word(free, w) && Word(disc, w)
    ensures var reachable := Trunc(Inflate(l, disc), w);
            && Word(Grow(free, disc, reachable), w)
            && Trunc(Inflate(l, Grow(free, disc, reachable)), w) == reachable
    decreases AndNot(free, disc)
  {
    var reachable := Trunc(Inflate(l, disc), w);
    var bit := TopBit(AndNot(free, disc));
    if bit > TopBit(reachable) {
      ConnectedShrinks(free, disc);
      GrowthIsHarmless(free, disc, l, w);
      GrowKeepsReachable(free, Or(disc, bit), l, w);
    }
  }

  lemma GrowthIsHarmless(free: nat, disc: nat, l: nat, w: nat)
    requires Word(free, w) && Word(disc, w)
    requires TopBit(AndNot(free, disc)) > TopBit(Trunc(Inflate(l, disc), w))
    ensures var bit := TopBit(AndNot(free, disc));
            && Word(Or(disc, bit), w)
            && Trunc(Inflate(l, Or(disc, bit)), w) == Trunc(Inflate(l, disc), w)
  {
    hide *;
    var bit := TopBit(AndNot(free, disc));
    var reachable := Trunc(Inflate(l, disc), w);
    assert Word(disc, w) && Word(bit, w) && disc < Pow2(w) && bit < Pow2(w) by {
      WordBound(disc, w);
      WordBound(bit, w);
      WordBound(free, w);
    }
    OrBound(disc, bit, w);
    WordBound(Or(disc, bit), w);
    TopBitIsPowerOfTwo(AndNot(free, disc));
    var k: nat :| bit == Pow2(k);
    if w <= k {
      Pow2Monotone(w, k);
    }
    LowerTopBit(reachable, k);
    MaskAboveIsHarmless(l, disc, k, w);
  }

  lemma WordBound(x: nat, w: nat)
    ensures Word(x, w) <==> x < Pow2(w)
  {
  }

  /** A number whose highest bit is below `2^k` is itself below `2^k`. */
  lemma {:induction false} LowerTopBit(x: nat, k: nat)
    requires TopBit(x) < Pow2(k)
    ensures x < Pow2(k)
  {
    if x > 1 && k > 0 {
      LowerTopBit(x / 2, k - 1);
    }
  }

  // ----- the normalisation of one descriptor -----

  /** The address word a descriptor forces into `top_addr`. */
  function Reach(d: Descriptor, w: nat): (r: nat)
    requires d.Fits(w)
    ensures Word(r, w)
  {
    if d.select != 0 then d.select else Dec(Trunc(d.start + d.len, w), w)
  }

  function Reached(ds: seq<Descriptor>, w: nat): (r: nat)
    requires w > 0
    requires forall d :: d in ds ==> d.Fits(w)
    ensures Word(r, w)
  {
    if ds == [] then 1
    else
      var last := |ds| - 1;
      OrBound(Reached(ds[..last], w), Reach(ds[last], w), w);
      Or(Reached(ds[..last], w), Reach(ds[last], w))
  }

  lemma NothingReached(w: nat)
    requires w > 0
    ensures Reached([], w) == 1
  {
  }

  lemma ReachedNext(ds: seq<Descriptor>, d: Descriptor, w: nat)
    requires w > 0 && d.Fits(w) && forall e :: e in ds ==> e.Fits(w)
    ensures Word(Or(Reached(ds, w), Reach(d, w)), w)
    ensures Reached(ds + [d], w) == Or(Reached(ds, w), Reach(d, w))
  {
    hide Or, Reach;
    var all := ds + [d];
    assert all[..|all| - 1] == ds && all[|all| - 1] == d;
    OrBound(Reached(ds, w), Reach(d, w), w);
  }

  /** All ones up to the highest address any descriptor mentions. */
  function TopAddr(ds: seq<Descriptor>, w: nat): (r: nat)
    requires w > 0
    requires forall d :: d in ds ==> d.Fits(w)
    ensures Word(r, w)
  {
    FillIsLeastMask(Reached(ds, w), w);
    Fill(Reached(ds, w))
  }

  predicate PowerOfTwo(n: nat) {
    n != 0 && And(n, n - 1) == 0
  }

  function SelectOf(d: Descriptor, top: nat, w: nat): (r: nat)
    requires d.Fits(w) && Word(top, w)
    ensures Word(r, w)
  {
    if d.select != 0 then d.select
    else AndNot(top, Trunc(Inflate(Fill(Dec(d.len, w)), d.disconnect), w))
  }

  function LenOf(d: Descriptor, top: nat, w: nat): (r: nat)
    requires d.Fits(w) && Word(top, w)
    ensures Word(r, w)
  {
    if d.len != 0 then d.len
    else Trunc(Fill(Reduce(AndNot(top, SelectOf(d, top, w)), d.disconnect)) + 1, w)
  }

  function ReachableOf(d: Descriptor, top: nat, w: nat): (r: nat)
    requires d.Fits(w) && Word(top, w)
    ensures Word(r, w)
  {
    Trunc(Inflate(Dec(LenOf(d, top, w), w), d.disconnect), w)
  }

  function DisconnectOf(d: Descriptor, top: nat, w: nat): (r: nat)
    requires d.Fits(w) && Word(top, w)
    ensures Word(r, w)
  {
    GrowKeepsReachable(AndNot(top, SelectOf(d, top, w)), d.disconnect, Dec(LenOf(d, top, w), w), w);
    Grow(AndNot(top, SelectOf(d, top, w)), d.disconnect, ReachableOf(d, top, w))
  }

  /** Whether the normalisation lets the descriptor through. */
  predicate Accepted(d: Descriptor, top: nat, w: nat)
    requires d.Fits(w) && Word(top, w)
  {
    && (d.select == 0 ==> PowerOfTwo(d.len))
    && AndNot(d.start, SelectOf(d, top, w)) == 0
  }

  function Normalised(d: Descriptor, top: nat, w: nat): (r: Descriptor)
    requires d.Fits(w) && Word(top, w)
    ensures r.Fits(w)
  {
    d.(select := SelectOf(d, top, w), len := LenOf(d, top, w), disconnect := DisconnectOf(d, top, w))
  }

  /** What a refused descriptor has become when the normalisation gives up on it. */
  function Refused(d: Descriptor, top: nat, w: nat): (r: Descriptor)
    requires d.Fits(w) && Word(top, w)
  {
    if d.select == 0 && !PowerOfTwo(d.len) then d
    else d.(select := SelectOf(d, top, w), len := LenOf(d, top, w))
  }

  // ----- the loops -----

  method CollectTopAddr(descs: array<Descriptor>, w: nat) returns (top: nat)
    requires Width(w)
    requires forall i :: 0 <= i < descs.Length ==> descs[i].Fits(w)
    ensures forall d :: d in descs[..] ==> d.Fits(w)
    ensures top == TopAddr(descs[..], w)
  {
    hide And, Or, AndNot, Fill, Trunc, Reached;
    top := 1;
    NothingReached(w);
    var i := 0;
    while i < descs.Length
      invariant 0 <= i <= descs.Length
      invariant forall d :: d in descs[..i] ==> d.Fits(w)
      invariant top == Reached(descs[..i], w)
    {
      var d := descs[i];
      assert descs[..i + 1] == descs[..i] + [d];
      ReachedNext(descs[..i], d, w);
      if d.select != 0 {
        top := Or(top, d.select);
      } else {
        top := Or(top, Dec(Trunc(d.start + d.len, w), w));
      }
      i := i + 1;
    }
    assert descs[..i] == descs[..];
    top := MmapAddBitsDown(top, w);
  }

  /** The inner loop: disconnect unselected bits too high to index into the buffer. */
  method DisconnectHighBits(top: nat, select: nat, disc0: nat, reachable: nat, w: nat) returns (disc: nat)
    requires Width(w) && Word(top, w) && Word(disc0, w) && Word(reachable, w)
    ensures disc == Grow(AndNot(top, select), disc0, reachable)
  {
    hide And, Or, AndNot, TopBit, Fill, Pow2;
    ghost var free := AndNot(top, select);
    disc := disc0;
    var bit := MmapHighestBit(AndNot(AndNot(top, select), disc), w);
    var limit := MmapHighestBit(reachable, w);
    while bit > limit
      invariant Word(disc, w)
      invariant bit == TopBit(AndNot(free, disc)) && limit == TopBit(reachable)
      invariant Grow(free, disc, reachable) == Grow(free, disc0, reachable)
      decreases AndNot(free, disc)
    {
      ConnectedShrinks(free, disc);
      OrBound(disc, bit, w);
      disc := Or(disc, bit);
      bit := MmapHighestBit(AndNot(AndNot(top, select), disc), w);
    }
  }

  /** The body of the second loop, on the descriptor at index `i`. */
  method NormaliseAt(descs: array<Descriptor>, i: nat, top: nat, w: nat) returns (ok: bool)
    requires Width(w) && Word(top, w) && i < descs.Length && descs[i].Fits(w)
    modifies descs
    ensures forall j :: 0 <= j < descs.Length && j != i ==> descs[j] == old(descs[j])
    ensures ok == Accepted(old(descs[i]), top, w)
    ensures descs[i] == if ok then Normalised(old(descs[i]), top, w) else Refused(old(descs[i]), top, w)
  {
    hide And, Or, AndNot, Fill, TopBit, Trunc, Pow2, Inflate, Reduce, Grow;
    ghost var d := descs[i];
    if descs[i].select == 0 {
      if descs[i].len == 0 {
        return false;
      }
      if And(descs[i].len, descs[i].len - 1) != 0 {
        return false;
      }
      FillIsLeastMask(Dec(d.len, w), w);
      var low := MmapAddBitsDown(descs[i].len - 1, w);
      var spread := MmapInflate(low, descs[i].disconnect, w);
      descs[i] := descs[i].(select := AndNot(top, spread));
    }
    assert descs[i] == d.(select := SelectOf(d, top, w));
    if descs[i].len == 0 {
      var reduced := MmapReduce(AndNot(top, descs[i].select), descs[i].disconnect);
      var filled := MmapAddBitsDown(reduced, w);
      descs[i] := descs[i].(len := Trunc(filled + 1, w));
    }
    assert descs[i] == d.(select := SelectOf(d, top, w), len := LenOf(d, top, w));
    if AndNot(descs[i].start, descs[i].select) != 0 {
      return false;
    }
    var reachable := MmapInflate(Dec(descs[i].len, w), descs[i].disconnect, w);
    var disc := DisconnectHighBits(top, descs[i].select, descs[i].disconnect, reachable, w);
    descs[i] := descs[i].(disconnect := disc);
    return true;
  }

  /** How far the normalisation got: every descriptor before `k` is normalised, none after it touched. */
  ghost predicate Progress(before: seq<Descriptor>, after: seq<Descriptor>, k: nat, top: nat, w: nat)
    requires |before| == |after| && k <= |before| && Word(top, w)
    requires forall d :: d in before ==> d.Fits(w)
  {
    && (forall i :: 0 <= i < k ==> Accepted(before[i], top, w) && after[i] == Normalised(before[i], top, w))
    && (forall i :: k <= i < |before| ==> after[i] == before[i])
  }

  /** The normalisation refused descriptor `k` and returned at once. */
  ghost predicate StoppedAt(before: seq<Descriptor>, after: seq<Descriptor>, k: nat, top: nat, w: nat)
    requires |before| == |after| && k < |before| && Word(top, w)
    requires forall d :: d in before ==> d.Fits(w)
  {
    && !Accepted(before[k], top, w)
    && after[k] == Refused(before[k], top, w)
    && Progress(before, after[k := before[k]], k, top, w)
  }

  method MmapPreprocessDescriptors(descs: array<Descriptor>, w: nat) returns (ok: bool)
    requires Width(w)
    requires forall i :: 0 <= i < descs.Length ==> descs[i].Fits(w)
    modifies descs
    ensures forall d :: d in old(descs[..]) ==> d.Fits(w)
    ensures ok <==> forall i :: 0 <= i < descs.Length ==> Accepted(old(descs[..])[i], TopAddr(old(descs[..]), w), w)
    ensures ok ==> Progress(old(descs[..]), descs[..], descs.Length, TopAddr(old(descs[..]), w), w)
    ensures !ok ==> exists k :: 0 <= k < descs.Length && StoppedAt(old(descs[..]), descs[..], k,
                                                                   TopAddr(old(descs[..]), w), w)
  {
    hide And, Or, AndNot, Fill, Trunc, Pow2, Inflate, Reduce, Grow, Normalised, Accepted, Refused, Reached;
    var top := CollectTopAddr(descs, w);
    ghost var before := descs[..];
    var i := 0;
    while i < descs.Length
      invariant 0 <= i <= descs.Length
      invariant Progress(before, descs[..], i, top, w)
    {
      assert before[i] in before;
      assert descs[i] == before[i];
      var accepted := NormaliseAt(descs, i, top, w);
      if !accepted {
        assert StoppedAt(before, descs[..], i, top, w);
        return false;
      }
      i := i + 1;
    }
    return true;
  }
}
