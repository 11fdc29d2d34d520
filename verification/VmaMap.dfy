/**
 The descriptors the core emits for the memory areas of a 3DS process, and what the frontend's
 normalisation makes of them.
 */
module VmaMap {
  import opened Bits
  import opened AddressMask
  import opened MemoryMap
  import opened MemoryMapTheorems

  /** The descriptor words are 64 bits wide; guest addresses and sizes are 32 bits wide. */
  const WORD: nat := 64
  const GUEST: nat := 32

  datatype Region = Region(begin: nat, end: nat)

  /** The well-known regions of the guest address space and the libretro flags for them. */
  datatype Layout = Layout(heap: Region, linearHeap: Region, newLinearHeap: Region, vram: Region,
                           systemRam: nat, videoRam: nat)

  /** A virtual memory area; `ptr == 0` stands for missing backing memory. */
  datatype Vma = Vma(backing: bool, base: nat, size: nat, ptr: nat)
  {
    predicate Fits() {
      Word(base, GUEST) && Word(size, GUEST)
    }
  }

  predicate In(r: Region, x: nat) {
    r.begin <= x < r.end
  }

  predicate InHeap(base: nat, layout: Layout) {
    In(layout.heap, base) || In(layout.linearHeap, base) || In(layout.newLinearHeap, base)
  }

  /** Heaps are system memory, the video memory is video memory, and nothing else is shown. */
  function FlagsFor(base: nat, layout: Layout): (r: Exposure)
    ensures r.Flags? <==> InHeap(base, layout) || In(layout.vram, base)
    ensures InHeap(base, layout) ==> r == Flags(layout.systemRam)
    ensures In(layout.vram, base) && !InHeap(base, layout) ==> r == Flags(layout.videoRam)
  {
    if In(layout.heap, base) then Flags(layout.systemRam)
    else if In(layout.linearHeap, base) then Flags(layout.systemRam)
    else if In(layout.newLinearHeap, base) then Flags(layout.systemRam)
    else if In(layout.vram, base) then Flags(layout.videoRam)
    else Hidden
  }

  datatype Exposure = Hidden | Flags(flags: nat)

  predicate Exposed(v: Vma, layout: Layout) {
    v.backing && v.size != 0 && v.ptr != 0 && FlagsFor(v.base, layout).Flags?
  }

  /** The exponent of the least power of two that is not below `size`. */
  function CeilLog(size: nat): (k: nat)
    requires size > 0
    ensures size <= Pow2(k)
    ensures k > 0 ==> Pow2(k - 1) < size
  {
    if size == 1 then 0 else 1 + CeilLog((size + 1) / 2)
  }

  lemma {:induction false} CeilLogUnique(size: nat, k: nat)
    requires size > 0 && size <= Pow2(k) && (k > 0 ==> Pow2(k - 1) < size)
    ensures CeilLog(size) == k
  {
    var c := CeilLog(size);
    if c < k {
      Pow2Monotone(c, k - 1);
    } else if k < c {
      Pow2Monotone(k, c - 1);
    }
  }

  /** An area becomes a descriptor exactly if its base is aligned to the power of two around its size. */
  predicate Emitted(v: Vma, layout: Layout) {
    Exposed(v, layout) && Trunc(v.base, CeilLog(v.size)) == 0
  }

  function DescriptorOf(v: Vma, layout: Layout): (d: Descriptor)
    requires Emitted(v, layout)
  {
    var np2 := Pow2(CeilLog(v.size));
    Descriptor(FlagsFor(v.base, layout).flags, v.ptr, v.base, if v.size == np2 then 0 else Not(np2 - 1, WORD), 0,
               v.size)
  }

  function Descriptors(vmas: seq<Vma>, layout: Layout): (ds: seq<Descriptor>)
    ensures forall v :: v in vmas && Emitted(v, layout) ==> DescriptorOf(v, layout) in ds
    ensures forall d :: d in ds ==> exists v :: v in vmas && Emitted(v, layout) && d == DescriptorOf(v, layout)
  {
    if vmas == [] then []
    else
      var last := vmas[|vmas| - 1];
      var rest := Descriptors(vmas[..|vmas| - 1], layout);
      assert vmas == vmas[..|vmas| - 1] + [last];
      if Emitted(last, layout) then rest + [DescriptorOf(last, layout)] else rest
  }

  // ----- the loop -----

  lemma PowerOfTwoIsPow2(size: nat)
    requires size > 0
    ensures PowerOfTwo(size) <==> size == Pow2(CeilLog(size))
  {
    if size == Pow2(CeilLog(size)) {
      Pow2IsPowerOfTwo(CeilLog(size));
    } else if PowerOfTwo(size) {
      PowerOfTwoHasExponent(size);
      var k: nat :| size == Pow2(k);
      CeilLogUnique(size, k);
    }
  }

  lemma PowerOfTwoHasExponent(n: nat)
    requires PowerOfTwo(n)
    ensures exists k: nat :: n == Pow2(k)
  {
    PowerOfTwoFill(n);
    FillIsLeastMask(n - 1, 0);
  }

  /** The doubling loop. */
  method NextPowerOfTwo(size: nat) returns (np2: nat)
    requires size > 0
    ensures np2 == Pow2(CeilLog(size))
  {
    np2 := 1;
    ghost var k := 0;
    while np2 < size
      invariant np2 == Pow2(k)
      invariant k > 0 ==> Pow2(k - 1) < size
      decreases size - np2
    {
      np2 := 2 * np2;
      k := k + 1;
    }
    CeilLogUnique(size, k);
  }

  /** The body of the loop over the areas: whether an area becomes a descriptor, and which. */
  method DescribeArea(vma: Vma, layout: Layout) returns (emitted: bool, desc: Descriptor)
    ensures emitted == Emitted(vma, layout)
    ensures emitted ==> desc == DescriptorOf(vma, layout)
  {
    hide And, Trunc, Pow2, Not, CeilLog, FlagsFor, PowerOfTwo;
    desc := Descriptor(0, vma.ptr, vma.base, 0, 0, vma.size);
    if !vma.backing || vma.size == 0 || vma.ptr == 0 {
      return false, desc;
    }
    var flags := FlagsFor(vma.base, layout);
    if flags.Hidden? {
      return false, desc;
    }
    desc := desc.(flags := flags.flags);
    LowMask(vma.base, CeilLog(vma.size));
    PowerOfTwoIsPow2(vma.size);
    PowerOfTwoTest(vma.size);
    var needSelect := And(vma.size, vma.size - 1) != 0;
    if !needSelect && And(vma.base, vma.size - 1) != 0 {
      needSelect := true;
    }
    if needSelect {
      var np2 := NextPowerOfTwo(vma.size);
      if And(vma.base, np2 - 1) != 0 {
        return false, desc;
      }
      desc := desc.(select := Not(np2 - 1, WORD));
    }
    emitted := true;
  }

  lemma PowerOfTwoTest(n: nat)
    requires n > 0
    ensures PowerOfTwo(n) <==> And(n, n - 1) == 0
  {
    hide And;
  }

  lemma DescriptorsNext(vmas: seq<Vma>, i: nat, layout: Layout)
    requires i < |vmas|
    ensures Descriptors(vmas[..i + 1], layout)
         == Descriptors(vmas[..i], layout) + if Emitted(vmas[i], layout) then [DescriptorOf(vmas[i], layout)] else []
  {
    hide Emitted, DescriptorOf;
    assert vmas[..i + 1][..i] == vmas[..i];
  }

  method SetupMemoryMaps(vmas: seq<Vma>, layout: Layout) returns (descs: seq<Descriptor>)
    requires forall v :: v in vmas ==> v.Fits()
    ensures descs == Descriptors(vmas, layout)
  {
    hide Descriptors, Emitted, DescriptorOf;
    descs := [];
    NoDescriptors(vmas, layout);
    for i := 0 to |vmas|
      invariant descs == Descriptors(vmas[..i], layout)
    {
      var emitted, desc := DescribeArea(vmas[i], layout);
      DescriptorsNext(vmas, i, layout);
      if emitted {
        descs := descs + [desc];
      }
    }
    assert vmas[..|vmas|] == vmas;
  }

  lemma NoDescriptors(vmas: seq<Vma>, layout: Layout)
    ensures Descriptors(vmas[..0], layout) == []
  {
  }

  // ----- what the normalisation makes of the emitted descriptors -----

  lemma GuestFitsTwice(x: nat, y: nat)
    requires Word(x, GUEST) && Word(y, GUEST)
    ensures x + y < Pow2(WORD)
  {
    assert Pow2(33) == 2 * Pow2(32);
    Pow2Monotone(33, 64);
  }

  /** Addresses of an aligned area split into base and offset. */
  lemma OffsetInArea(base: nat, offset: nat, k: nat)
    requires Trunc(base, k) == 0 && offset < Pow2(k)
    ensures And(base + offset, Pow2(k) - 1) == offset
    ensures AndNot(base + offset, Pow2(k) - 1) == base
  {
    hide *;
    LowMask(base + offset, k);
    TruncIsMod(base, k);
    TruncIsMod(base + offset, k);
    Quotient(base + offset, Pow2(k), base / Pow2(k), offset) by {
      assert base == Pow2(k) * (base / Pow2(k)) + base % Pow2(k);
    }
  }

  lemma DescriptorFits(v: Vma, layout: Layout)
    requires v.Fits() && Emitted(v, layout)
    ensures DescriptorOf(v, layout).Fits(WORD)
  {
    hide Emitted, CeilLog, Pow2, Not, FlagsFor;
    GuestFitsTwice(v.base, v.size);
  }

  /** All the unselected bits lie below the power of two around the size. */
  lemma NoBitDisconnected(size: nat, free: nat)
    requires size > 0 && free < Pow2(CeilLog(size))
    ensures TopBit(free) <= TopBit(size - 1)
  {
    hide *;
    var k := CeilLog(size);
    TopBitOrdersFill(free, size - 1);
    if k == 0 {
      EmptyFill(free, size);
    } else {
      FillIsLeastMask(free, k);
      FillIsLeastMask(size - 1, k - 1);
      var j: nat :| Fill(size - 1) + 1 == Pow2(j);
      if j < k {
        Pow2Monotone(j, k - 1);
      }
      Pow2Monotone(k, j);
    }
  }

  lemma EmptyFill(free: nat, size: nat)
    requires size > 0 && free < Pow2(0)
    ensures Fill(free) <= Fill(size - 1)
  {
  }

  /** The select word and the disconnect word that an emitted descriptor ends up with. */
  lemma NormalisedSelect(d: Descriptor, top: nat, k: nat)
    requires d.Fits(WORD) && Word(top, WORD) && Fill(top) == top
    requires d.disconnect == 0 && 0 < d.len <= Pow2(k) <= Pow2(WORD)
    requires d.select == if d.len == Pow2(k) then 0 else Not(Pow2(k) - 1, WORD)
    requires d.select != 0 || d.len == Pow2(k)
    requires d.len == Pow2(k) ==> d.len - 1 <= top
    ensures SelectOf(d, top, WORD) == AndNot(if d.select == 0 then top else Pow2(WORD) - 1, Pow2(k) - 1)
  {
    hide AndNot, Fill, Pow2, Not, Trunc;
    if d.select == 0 {
      FillOfMask(k);
      assert Inflate(d.len - 1, 0) == d.len - 1;
    } else {
      NotIsAndNot(Pow2(k) - 1, WORD);
    }
  }

  lemma EmittedSelectNonzero(k: nat)
    requires k <= GUEST
    ensures Not(Pow2(k) - 1, WORD) != 0
    ensures Pow2(k) <= Pow2(WORD)
  {
    hide And, AndNot, Not, Trunc, Pow2;
    NotIsAndNot(Pow2(k) - 1, WORD);
    LowMask(Pow2(WORD) - 1, k);
    Pow2Monotone(k, GUEST);
    GuestMaskFits();
  }

  lemma GuestMaskFits()
    ensures Pow2(GUEST) < Pow2(WORD)
  {
    assert Pow2(33) == 2 * Pow2(32);
    Pow2Monotone(33, 64);
  }

  lemma AreaExponent(size: nat)
    requires size > 0 && Word(size, GUEST)
    ensures CeilLog(size) <= GUEST
  {
    hide Pow2;
    var k := CeilLog(size);
    if k > 0 {
      ExponentsOrdered(GUEST, k - 1);
    }
  }

  lemma ExponentsOrdered(m: nat, n: nat)
    ensures m <= n ==> Pow2(m) <= Pow2(n)
  {
    if m <= n {
      Pow2Monotone(m, n);
    }
  }

  /** Every address of the area is an address up to `top_addr`, or the select word spans everything. */
  lemma AreaBelowTop(ds: seq<Descriptor>, i: nat)
    requires i < |ds| && (forall d :: d in ds ==> d.Fits(WORD))
    requires ds[i].select == 0 && ds[i].len > 0
    requires Word(ds[i].start, GUEST) && Word(ds[i].len, GUEST)
    ensures ds[i].start + ds[i].len - 1 <= TopAddr(ds, WORD)
  {
    hide Or, Fill, Trunc, Pow2, Reached;
    OrKeepsOld(ds, i, WORD);
    GuestFitsTwice(ds[i].start, ds[i].len);
  }

  /** The unselected words below the power of two, for a descriptor of an emitted area. */
  lemma AreaIndex(d: Descriptor, top: nat, k: nat, all: nat, a: nat)
    requires d.Fits(WORD) && Word(top, WORD) && d.disconnect == 0
    requires d.len > 0 && k == CeilLog(d.len)
    requires SelectOf(d, top, WORD) == AndNot(all, Pow2(k) - 1)
    requires AndNot(top, all) == 0 && AndNot(a, all) == 0
    requires Trunc(d.start, k) == 0 && d.start <= a < d.start + Pow2(k)
    ensures AndNot(d.start, SelectOf(d, top, WORD)) == 0
    ensures Selects(Normalised(d, top, WORD), a)
    ensures BufferIndex(Normalised(d, top, WORD), a) == a - d.start
  {
    hide And, AndNot, Or, Fill, TopBit, Trunc, Pow2, SelectOf, CeilLog, Grow;
    var low := Pow2(k) - 1;
    SplitByMask(a, all, low);
    SplitByMask(top, all, low);
    OffsetInArea(d.start, a - d.start, k);
    OffsetInArea(d.start, 0, k);
    StartBelow(d.start, a, all, low);
    NoBitDisconnected(d.len, And(top, low));
    DisconnectStaysZero(d, top);
    assert Reduce(a - d.start, 0) == a - d.start;
  }

  lemma StartBelow(start: nat, a: nat, all: nat, low: nat)
    requires AndNot(a, low) == start && AndNot(a, all) == 0 && And(start, low) == 0
    ensures AndNot(start, AndNot(all, low)) == 0
  {
    hide *;
    forall i: nat ensures Bit(AndNot(start, all), i) == Bit(0, i) {
      BitsOfAndNot(a, low, i);
      BitsOfAndNot(a, all, i);
      BitsOfAndNot(start, all, i);
      ZeroHasNoBits(i);
    }
    Extensional(AndNot(start, all), 0);
    SplitByMask(start, all, low);
  }

  lemma DisconnectStaysZero(d: Descriptor, top: nat)
    requires d.Fits(WORD) && Word(top, WORD) && d.disconnect == 0 && d.len > 0
    requires TopBit(AndNot(top, SelectOf(d, top, WORD))) <= TopBit(d.len - 1)
    ensures DisconnectOf(d, top, WORD) == 0
  {
    hide *;
    var free := AndNot(top, SelectOf(d, top, WORD));
    AndNotZero(free);
    ReachableIsLast(d, top, WORD);
    NothingToGrow(free, 0, d.len - 1);
    assert DisconnectOf(d, top, WORD) == Grow(free, d.disconnect, ReachableOf(d, top, WORD)) by {
      DisconnectUnfolded(d, top);
    }
  }

  lemma DisconnectUnfolded(d: Descriptor, top: nat)
    requires d.Fits(WORD) && Word(top, WORD)
    ensures DisconnectOf(d, top, WORD) == Grow(AndNot(top, SelectOf(d, top, WORD)), d.disconnect,
                                               ReachableOf(d, top, WORD))
  {
    hide Grow, AndNot, SelectOf, ReachableOf, Pow2;
  }

  lemma NothingToGrow(free: nat, disc: nat, reachable: nat)
    requires TopBit(AndNot(free, disc)) <= TopBit(reachable)
    ensures Grow(free, disc, reachable) == disc
  {
  }

  /** The aligned block around an area: as long as the least power of two that holds the area. */
  predicate InBlock(v: Vma, a: nat) {
    v.size > 0 && v.base <= a < v.base + Pow2(CeilLog(v.size))
  }

  predicate InArea(v: Vma, a: nat) {
    v.base <= a < v.base + v.size
  }

  lemma AreaInBlock(v: Vma, a: nat)
    requires InArea(v, a)
    ensures InBlock(v, a)
  {
  }

  /** What the frontend's normalisation is told about the addresses in use. */
  function TopOf(vmas: seq<Vma>, layout: Layout): (top: nat)
    requires forall u :: u in vmas ==> u.Fits()
    ensures Word(top, WORD)
  {
    DescriptorsFit(vmas, layout);
    TopAddr(Descriptors(vmas, layout), WORD)
  }

  /** The descriptor of an emitted area after the normalisation. */
  function Mapped(vmas: seq<Vma>, layout: Layout, v: Vma): (d: Descriptor)
    requires (forall u :: u in vmas ==> u.Fits()) && v in vmas && Emitted(v, layout)
  {
    DescriptorFits(v, layout);
    Normalised(DescriptorOf(v, layout), TopOf(vmas, layout), WORD)
  }

  /** All ones, as far as the select word of the area reaches. */
  function Span(v: Vma, layout: Layout, top: nat): (r: nat)
    requires Emitted(v, layout)
  {
    if DescriptorOf(v, layout).select == 0 then top else Pow2(WORD) - 1
  }

  predicate SelectSpans(v: Vma, layout: Layout, top: nat)
    requires Emitted(v, layout) && DescriptorOf(v, layout).Fits(WORD) && Word(top, WORD)
  {
    SelectOf(DescriptorOf(v, layout), top, WORD) == AndNot(Span(v, layout, top), Pow2(CeilLog(v.size)) - 1)
  }

  /** The select word after the normalisation, and the addresses it can tell apart. */
  lemma EmittedSelect(vmas: seq<Vma>, layout: Layout, v: Vma)
    requires (forall u :: u in vmas ==> u.Fits()) && v in vmas && Emitted(v, layout)
    ensures DescriptorOf(v, layout).Fits(WORD) && DescriptorOf(v, layout) in Descriptors(vmas, layout)
    ensures Fill(TopOf(vmas, layout)) == TopOf(vmas, layout)
    ensures SelectSpans(v, layout, TopOf(vmas, layout))
  {
    hide And, AndNot, Or, Fill, Trunc, Pow2, Not, CeilLog, FlagsFor, Descriptors, Reached, SelectOf;
    var ds := Descriptors(vmas, layout);
    DescriptorsFit(vmas, layout);
    var d := DescriptorOf(v, layout);
    var i :| 0 <= i < |ds| && ds[i] == d;
    var k := CeilLog(v.size);
    FillIdempotent(Reached(ds, WORD));
    AreaExponent(v.size);
    EmittedSelectNonzero(k);
    PowerOfTwoIsPow2(v.size);
    if d.select == 0 {
      AreaBelowTop(ds, i);
    }
    NormalisedSelect(d, TopOf(vmas, layout), k);
  }

  /** The addresses up to the top one, and those of the block, are within the span. */
  lemma WithinSpan(vmas: seq<Vma>, layout: Layout, v: Vma, a: nat)
    requires (forall u :: u in vmas ==> u.Fits()) && v in vmas && Emitted(v, layout)
    requires a <= TopOf(vmas, layout) || InBlock(v, a)
    ensures AndNot(a, Span(v, layout, TopOf(vmas, layout))) == 0
  {
    hide And, AndNot, Or, Fill, Trunc, Pow2, Not, CeilLog, FlagsFor, Descriptors, Reached;
    var ds := Descriptors(vmas, layout);
    DescriptorsFit(vmas, layout);
    var d := DescriptorOf(v, layout);
    var i :| 0 <= i < |ds| && ds[i] == d;
    FillIdempotent(Reached(ds, WORD));
    FillOfMask(WORD);
    AreaExponent(v.size);
    EmittedSelectNonzero(CeilLog(v.size));
    BlockFits(v.base, CeilLog(v.size));
    if d.select == 0 {
      AreaBelowTop(ds, i);
    }
    BelowFilled(a, Span(v, layout, TopOf(vmas, layout)));
  }

  lemma BlockFits(base: nat, k: nat)
    requires Word(base, GUEST) && k <= GUEST
    ensures base + Pow2(k) < Pow2(WORD)
  {
    hide Pow2;
    Pow2Monotone(k, GUEST);
    TwiceGuest();
  }

  lemma TwiceGuest()
    ensures Pow2(GUEST) + Pow2(GUEST) < Pow2(WORD)
  {
    assert Pow2(33) == 2 * Pow2(32) && Pow2(34) == 2 * Pow2(33);
    Pow2Monotone(34, 64);
  }

  /**
   For every list of memory areas, every emitted descriptor is accepted, and every address of the block around its area
   selects it and indexes the buffer at exactly its offset from the base.
   */
  lemma BlocksMapExactly(vmas: seq<Vma>, layout: Layout, v: Vma, a: nat)
    requires forall u :: u in vmas ==> u.Fits()
    requires v in vmas && Emitted(v, layout) && InBlock(v, a)
    ensures DescriptorOf(v, layout) in Descriptors(vmas, layout) && DescriptorOf(v, layout).Fits(WORD)
    ensures Accepted(DescriptorOf(v, layout), TopOf(vmas, layout), WORD)
    ensures Selects(Mapped(vmas, layout, v), a) && BufferIndex(Mapped(vmas, layout, v), a) == a - v.base
  {
    hide And, AndNot, Or, Fill, Trunc, Pow2, Not, CeilLog, FlagsFor, Descriptors, Reached, Normalised, BufferIndex,
        Selects, SelectOf, Span, TopOf;
    EmittedSelect(vmas, layout, v);
    var top := TopOf(vmas, layout);
    PowerOfTwoIsPow2(v.size);
    AreaExponent(v.size);
    EmittedSelectNonzero(CeilLog(v.size));
    WithinSpan(vmas, layout, v, a);
    WithinSpan(vmas, layout, v, top);
    AreaIndex(DescriptorOf(v, layout), top, CeilLog(v.size), Span(v, layout, top), a);
  }

  /** Among the addresses up to the top one, an emitted descriptor selects exactly the block around its area. */
  lemma SelectsExactlyItsBlock(vmas: seq<Vma>, layout: Layout, v: Vma, a: nat)
    requires forall u :: u in vmas ==> u.Fits()
    requires v in vmas && Emitted(v, layout) && a <= TopOf(vmas, layout)
    ensures Selects(Mapped(vmas, layout, v), a) <==> InBlock(v, a)
  {
    hide And, AndNot, Or, Fill, Trunc, Pow2, Not, CeilLog, FlagsFor, Descriptors, SelectOf, Span, LenOf, DisconnectOf,
        TopOf;
    EmittedSelect(vmas, layout, v);
    var top, k := TopOf(vmas, layout), CeilLog(v.size);
    WithinSpan(vmas, layout, v, a);
    SplitByMask(a, Span(v, layout, top), Pow2(k) - 1);
    InAlignedBlock(v.base, a, k);
  }

  lemma InAlignedBlock(base: nat, a: nat, k: nat)
    requires Trunc(base, k) == 0
    ensures AndNot(a, Pow2(k) - 1) == base <==> base <= a < base + Pow2(k)
  {
    hide AndNot, And, Trunc, Pow2;
    LowMask(a, k);
    if base <= a < base + Pow2(k) {
      OffsetInArea(base, a - base, k);
    }
  }

  /** The first address after an area that does not fill its block still selects the area, one past its last byte. */
  lemma PaddedAreaIsOverrun(vmas: seq<Vma>, layout: Layout, v: Vma)
    requires forall u :: u in vmas ==> u.Fits()
    requires v in vmas && Emitted(v, layout) && !PowerOfTwo(v.size)
    ensures v.base + v.size <= TopOf(vmas, layout) && Selects(Mapped(vmas, layout, v), v.base + v.size)
    ensures BufferIndex(Mapped(vmas, layout, v), v.base + v.size) == v.size == Mapped(vmas, layout, v).len
  {
    hide And, AndNot, Or, Fill, Trunc, Pow2, Not, CeilLog, FlagsFor, Descriptors, BufferIndex, Selects, SelectOf,
        DisconnectOf, TopOf, PowerOfTwo;
    PowerOfTwoIsPow2(v.size);
    BlocksMapExactly(vmas, layout, v, v.base + v.size);
    AllOnes(vmas, layout, v);
    GuestFitsTwice(v.base, v.size);
  }

  /** A descriptor with a select word lets the top address reach every bit of the word. */
  lemma AllOnes(vmas: seq<Vma>, layout: Layout, v: Vma)
    requires forall u :: u in vmas ==> u.Fits()
    requires v in vmas && Emitted(v, layout) && !PowerOfTwo(v.size)
    ensures TopOf(vmas, layout) == Pow2(WORD) - 1
  {
    hide And, AndNot, Or, Fill, Trunc, Pow2, Not, CeilLog, FlagsFor, Descriptors, Reached, PowerOfTwo;
    var ds := Descriptors(vmas, layout);
    DescriptorsFit(vmas, layout);
    var d := DescriptorOf(v, layout);
    var i :| 0 <= i < |ds| && ds[i] == d;
    PowerOfTwoIsPow2(v.size);
    AreaExponent(v.size);
    HighSelect(CeilLog(v.size));
    OrKeepsOld(ds, i, WORD);
    FilledWord(Reached(ds, WORD));
  }

  /** Every address of an emitted area is an address up to the top one. */
  lemma AreaUpToTop(vmas: seq<Vma>, layout: Layout, v: Vma, a: nat)
    requires forall u :: u in vmas ==> u.Fits()
    requires v in vmas && Emitted(v, layout) && InArea(v, a)
    ensures a <= TopOf(vmas, layout)
  {
    hide And, AndNot, Or, Fill, Trunc, Pow2, Not, CeilLog, FlagsFor, Descriptors, Reached, PowerOfTwo;
    if PowerOfTwo(v.size) {
      var ds := Descriptors(vmas, layout);
      DescriptorsFit(vmas, layout);
      var d := DescriptorOf(v, layout);
      var i :| 0 <= i < |ds| && ds[i] == d;
      PowerOfTwoIsPow2(v.size);
      AreaBelowTop(ds, i);
    } else {
      AllOnes(vmas, layout, v);
      GuestFitsTwice(v.base, v.size);
    }
  }

  /** An area's address is selected by its own descriptor alone exactly if it lies in no other area's block. */
  lemma SelectedAloneExactly(vmas: seq<Vma>, layout: Layout, v: Vma, a: nat)
    requires forall u :: u in vmas ==> u.Fits()
    requires v in vmas && Emitted(v, layout) && InArea(v, a)
    ensures (forall u :: u in vmas && Emitted(u, layout) && Selects(Mapped(vmas, layout, u), a) ==> u == v)
       <==> (forall u :: u in vmas && Emitted(u, layout) && InBlock(u, a) ==> u == v)
  {
    hide Selects, Mapped, TopOf, Emitted, InBlock, InArea;
    AreaUpToTop(vmas, layout, v, a);
    forall u | u in vmas && Emitted(u, layout)
      ensures Selects(Mapped(vmas, layout, u), a) <==> InBlock(u, a)
    {
      SelectsExactlyItsBlock(vmas, layout, u, a);
    }
  }

  lemma HighSelect(k: nat)
    requires k <= GUEST
    ensures Not(Pow2(k) - 1, WORD) >= Pow2(WORD - 1)
  {
    hide And, AndNot, Not, Trunc, Pow2;
    NotIsAndNot(Pow2(k) - 1, WORD);
    LowMask(Pow2(WORD) - 1, k);
    Pow2Monotone(k, GUEST);
    HalfWord();
  }

  lemma HalfWord()
    ensures Pow2(WORD) == 2 * Pow2(WORD - 1) && Pow2(GUEST) <= Pow2(WORD - 1)
  {
    Pow2Monotone(32, 63);
  }

  lemma FilledWord(n: nat)
    requires Pow2(WORD - 1) <= n < Pow2(WORD)
    ensures Fill(n) == Pow2(WORD) - 1
  {
    hide Pow2, Fill;
    FillIsLeastMask(n, WORD);
    var j: nat :| Fill(n) + 1 == Pow2(j);
    FillCovers(n);
    if j < WORD {
      Pow2Monotone(j, WORD - 1);
    }
    Pow2Monotone(WORD, j);
  }

  /** An emitted descriptor holds every index exactly if its area fills its block. */
  lemma EmittedHoldsExactly(vmas: seq<Vma>, layout: Layout, v: Vma)
    requires forall u :: u in vmas ==> u.Fits()
    requires v in vmas && Emitted(v, layout)
    ensures DescriptorOf(v, layout).Fits(WORD)
    ensures HoldsEveryIndex(DescriptorOf(v, layout), TopOf(vmas, layout), WORD) <==> PowerOfTwo(v.size)
  {
    hide And, AndNot, Or, Fill, Trunc, Pow2, Not, FlagsFor, Descriptors, SelectOf, HoldsEveryIndex, Span, CeilLog,
        PowerOfTwo, TopOf;
    EmittedSelect(vmas, layout, v);
    var d, top, k := DescriptorOf(v, layout), TopOf(vmas, layout), CeilLog(v.size);
    HoldsWithoutDisconnect(d, top, WORD);
    WithinSpan(vmas, layout, v, top);
    SplitByMask(top, Span(v, layout, top), Pow2(k) - 1);
    if PowerOfTwo(v.size) {
      PowerOfTwoFill(v.size);
    } else {
      AllOnes(vmas, layout, v);
      PowerOfTwoIsPow2(v.size);
      AreaExponent(v.size);
      LastFillsBlock(v.size);
      LowOnes(k);
    }
  }

  lemma LastFillsBlock(size: nat)
    requires size > 0 && size != Pow2(CeilLog(size))
    ensures Fill(size - 1) == Pow2(CeilLog(size)) - 1
  {
    hide *;
    var k := CeilLog(size);
    FillIsLeastMask(size - 1, k);
    FillCovers(size - 1);
    var j: nat :| Fill(size - 1) + 1 == Pow2(j);
    PowerPinned(size, k, j);
  }

  /** The least power of two not below a size is the only one between the size and itself. */
  lemma PowerPinned(size: nat, k: nat, j: nat)
    requires size <= Pow2(j) <= Pow2(k) && (k > 0 ==> Pow2(k - 1) < size)
    ensures Pow2(j) == Pow2(k)
  {
    hide *;
    if k > 0 {
      ExponentsOrdered(j, k - 1);
    }
    ExponentsOrdered(k, j);
  }

  lemma LowOnes(k: nat)
    requires k <= WORD
    ensures And(And(Pow2(WORD) - 1, Pow2(k) - 1), Pow2(k) - 1) == Pow2(k) - 1
  {
    hide And, Trunc, Pow2;
    LowMask(Pow2(WORD) - 1, k);
    TruncOfOnes(WORD, k);
    LowMask(Pow2(k) - 1, k);
  }

  lemma {:induction false} TruncOfOnes(w: nat, k: nat)
    requires k <= w
    ensures Trunc(Pow2(w) - 1, k) == Pow2(k) - 1
  {
    hide *;
    if k == 0 {
      TruncToNothing(Pow2(w) - 1);
    } else {
      TruncOfOnes(w - 1, k - 1);
      OnesHalved(w);
      OnesHalved(k);
      TruncStep(Pow2(w) - 1, k);
    }
  }

  lemma TruncToNothing(x: nat)
    ensures Trunc(x, 0) == Pow2(0) - 1
  {
  }

  lemma OnesHalved(w: nat)
    requires w > 0
    ensures (Pow2(w) - 1) / 2 == Pow2(w - 1) - 1 && (Pow2(w) - 1) % 2 == 1
    ensures Pow2(w) == 2 * Pow2(w - 1)
  {
  }

  lemma TruncStep(x: nat, k: nat)
    requires k > 0
    ensures Trunc(x, k) == x % 2 + 2 * Trunc(x / 2, k - 1)
  {
  }

  lemma DescriptorsFit(vmas: seq<Vma>, layout: Layout)
    requires forall u :: u in vmas ==> u.Fits()
    ensures forall d :: d in Descriptors(vmas, layout) ==> d.Fits(WORD)
  {
    hide Descriptors, Emitted, DescriptorOf;
    forall d | d in Descriptors(vmas, layout) ensures d.Fits(WORD) {
      var v :| v in vmas && Emitted(v, layout) && d == DescriptorOf(v, layout);
      DescriptorFits(v, layout);
    }
  }

  /** The frontend accepts everything the core emits. */
  lemma AllEmittedAccepted(vmas: seq<Vma>, layout: Layout)
    requires forall u :: u in vmas ==> u.Fits()
    ensures forall d :: d in Descriptors(vmas, layout) ==> d.Fits(WORD)
    ensures forall d :: d in Descriptors(vmas, layout) ==> Accepted(d, TopAddr(Descriptors(vmas, layout), WORD), WORD)
  {
    hide Accepted, Normalised, BufferIndex, Selects, TopAddr, Descriptors, DescriptorOf;
    DescriptorsFit(vmas, layout);
    forall d | d in Descriptors(vmas, layout)
      ensures Accepted(d, TopAddr(Descriptors(vmas, layout), WORD), WORD)
    {
      var v :| v in vmas && Emitted(v, layout) && d == DescriptorOf(v, layout);
      BaseInBlock(v, layout);
      BlocksMapExactly(vmas, layout, v, v.base);
    }
  }

  lemma BaseInBlock(v: Vma, layout: Layout)
    requires Emitted(v, layout)
    ensures InBlock(v, v.base)
  {
  }

  /** Address `a` of area `v` reaches byte `a - base` of the area's backing memory through descriptor `d`. */
  predicate Reaches(d: Descriptor, v: Vma, a: nat) {
    d.ptr == v.ptr && Selects(d, a) && BufferIndex(d, a) == a - v.base
  }

  /** The core's descriptors, copied and normalised by the frontend. */
  method PublishAreas(vmas: seq<Vma>, layout: Layout) returns (descriptors: array<Descriptor>)
    requires forall v :: v in vmas ==> v.Fits()
    ensures descriptors.Length == |Descriptors(vmas, layout)|
    ensures forall v, a :: v in vmas && Emitted(v, layout) && InArea(v, a)
              ==> exists i :: 0 <= i < descriptors.Length && Reaches(descriptors[i], v, a)
  {
    hide *;
    var emitted := SetupMemoryMaps(vmas, layout);
    DescriptorsFit(vmas, layout);
    descriptors := new Descriptor[|emitted|](i requires 0 <= i < |emitted| => emitted[i]);
    assert descriptors[..] == emitted;
    var ok := MmapPreprocessDescriptors(descriptors, WORD) by {
      WordIsWide();
    }
    AllEmittedAccepted(vmas, layout);
    assert forall i :: 0 <= i < |emitted| ==> emitted[i] in emitted;
    assert AllNormalised(emitted, descriptors[..]) by {
      NormalisedWhenAccepted(emitted, descriptors[..]);
    }
    forall v, a | v in vmas && Emitted(v, layout) && InArea(v, a)
      ensures exists i :: 0 <= i < descriptors.Length && Reaches(descriptors[i], v, a)
    {
      var i := PublishedAt(vmas, layout, v, a, emitted, descriptors[..]);
      assert Reaches(descriptors[i], v, a);
    }
  }

  lemma WordIsWide()
    ensures Width(WORD)
  {
  }

  lemma NormalisedWhenAccepted(before: seq<Descriptor>, after: seq<Descriptor>)
    requires |after| == |before| && forall d :: d in before ==> d.Fits(WORD)
    requires Progress(before, after, |before|, TopAddr(before, WORD), WORD)
    ensures AllNormalised(before, after)
  {
  }

  ghost predicate AllNormalised(before: seq<Descriptor>, after: seq<Descriptor>) {
    && |after| == |before|
    && (forall d :: d in before ==> d.Fits(WORD))
    && Progress(before, after, |before|, TopAddr(before, WORD), WORD)
  }

  lemma PublishedAt(vmas: seq<Vma>, layout: Layout, v: Vma, a: nat, before: seq<Descriptor>, after: seq<Descriptor>)
    returns (i: nat)
    requires forall u :: u in vmas ==> u.Fits()
    requires v in vmas && Emitted(v, layout) && InArea(v, a)
    requires before == Descriptors(vmas, layout) && AllNormalised(before, after)
    ensures i < |after| && Reaches(after[i], v, a)
  {
    hide Accepted, Normalised, SelectOf, DisconnectOf, LenOf, BufferIndex, Selects, TopAddr, Descriptors, DescriptorOf,
        Emitted, Trunc, Pow2;
    AreaInBlock(v, a);
    BlocksMapExactly(vmas, layout, v, a);
    i :| 0 <= i < |before| && before[i] == DescriptorOf(v, layout);
    assert after[i] == Normalised(before[i], TopAddr(before, WORD), WORD);
    PtrKept(v, layout, TopAddr(before, WORD));
  }

  lemma PtrKept(v: Vma, layout: Layout, top: nat)
    requires Emitted(v, layout) && Word(top, WORD) && DescriptorOf(v, layout).Fits(WORD)
    ensures Normalised(DescriptorOf(v, layout), top, WORD).ptr == v.ptr
  {
    hide SelectOf, DisconnectOf, LenOf, Trunc, Pow2, CeilLog, Not;
  }
}
