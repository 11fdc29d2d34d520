/**
 The bounds an update file must satisfy before anything is installed: integers of either byte order,
 the alignment of sections, the header, and the signature prefix of signed blobs.
 */
module CiaPolicy {
  import opened Bits
  import opened Bytes

  /** `uint64_t`: Dafny checks that no operation on it leaves the range. */
  newtype u64 = n: int | 0 <= n < 0x1_0000_0000_0000_0000

  datatype Status =
    | Success
    | InvalidFile
    | Unsupported
    | WrongEnvironment
    | InstallFailed
    | AlreadyInstalled
    | Busy
    | Cancelled
    | NoSpace

  type Failure = s: Status | s != Success witness InvalidFile

  datatype Outcome<+T> = Done(value: T) | Failed(status: Failure)
  {
    predicate IsFailure() { Failed? }
    function PropagateFailure<U>(): Outcome<U>
      requires Failed?
    {
      Failed(status)
    }
    function Extract(): T
      requires Done?
    {
      value
    }
  }

  function Require(ok: bool, status: Failure): (r: Outcome<()>) {
    if ok then Done(()) else Failed(status)
  }

  const MAX_INPUT: u64 := 0x2_0000_0000
  const HEADER_SIZE: u64 := 0x2020

  // ----- integers -----

  /** The bytes `[offset, offset + n)`. */
  function Field(data: bytes, offset: nat, n: nat): (r: bytes)
    requires offset + n <= |data|
    ensures |r| == n
  {
    data[offset..offset + n]
  }

  function Read(data: bytes, offset: nat, n: nat, big: bool): (v: u64)
    requires offset + n <= |data| && n <= 8
  {
    FieldBound(Field(data, offset, n), big);
    Number(Field(data, offset, n), big) as u64
  }

  lemma FieldBound(bs: bytes, big: bool)
    requires |bs| <= 8
    ensures Number(bs, big) < 0x1_0000_0000_0000_0000
  {
    hide Number;
    NumberBound(bs, big);
    Pow2Monotone(8 * |bs|, 64);
    WordSize();
  }

  lemma WordSize()
    ensures Pow2(64) == 0x1_0000_0000_0000_0000 && Pow2(32) == 0x1_0000_0000
  {
    hide Pow2;
    assert Pow2(4) == 16 by { Pow2Four(); }
    Pow2Add(4, 4);
    Pow2Add(8, 8);
    Pow2Add(16, 16);
    Pow2Add(32, 32);
  }

  lemma Pow2Four()
    ensures Pow2(4) == 16
  {
  }

  /** `v |= uint64_t(p[..]) << (i * 8)`, walking from the least significant byte. */
  method Integer(data: bytes, offset: nat, n: nat, big: bool) returns (v: u64)
    requires offset + n <= |data| && n <= 8
    ensures v == Read(data, offset, n, big)
  {
    hide Number, Or, Pow2;
    var value: nat := 0;
    EmptyNumber(data, offset, n, big);
    for i := 0 to n
      invariant value == Number(Taken(data, offset, n, big, i), big)
    {
      var b := data[offset + if big then n - 1 - i else i];
      TakeNext(data, offset, n, big, i);
      NumberBound(Taken(data, offset, n, big, i), big);
      OrShifted(value, b, 8 * i);
      value := Or(value, b * Pow2(i * 8));
    }
    assert Taken(data, offset, n, big, n) == Field(data, offset, n);
    FieldBound(Field(data, offset, n), big);
    v := value as u64;
  }

  /** The `i` least significant bytes of the field. */
  function Taken(data: bytes, offset: nat, n: nat, big: bool, i: nat): (r: bytes)
    requires offset + n <= |data| && i <= n
    ensures |r| == i
  {
    if big then data[offset + n - i..offset + n] else data[offset..offset + i]
  }

  lemma EmptyNumber(data: bytes, offset: nat, n: nat, big: bool)
    requires offset + n <= |data|
    ensures Number(Taken(data, offset, n, big, 0), big) == 0
  {
  }

  lemma TakeNext(data: bytes, offset: nat, n: nat, big: bool, i: nat)
    requires offset + n <= |data| && i < n
    ensures Number(Taken(data, offset, n, big, i + 1), big)
         == Number(Taken(data, offset, n, big, i), big) + data[offset + if big then n - 1 - i else i] * Pow2(8 * i)
  {
    hide Little, Big, Pow2;
    var taken, b := Taken(data, offset, n, big, i), data[offset + if big then n - 1 - i else i];
    if big {
      assert Taken(data, offset, n, big, i + 1) == [b] + taken;
      BigPrepend(b, taken);
    } else {
      assert Taken(data, offset, n, big, i + 1) == taken + [b];
      LittleAppend(taken, b);
    }
  }

  // ----- alignment -----

  /** `m` is the least multiple of 64 that is not below `n`. */
  predicate IsAligned(n: nat, m: nat) {
    m % 64 == 0 && n <= m < n + 64
  }

  /** The next multiple of 64; `MaskFormAligns` says that the source's mask expression computes it. */
  function Align(n: u64): (m: u64)
    requires n <= 0xffff_ffff_ffff_ffc0
    ensures IsAligned(n as nat, m as nat)
  {
    (n + 63) / 64 * 64
  }

  /** `(n + 63) & ~uint64_t(63)` is the least multiple of 64 not below `n`. */
  lemma MaskFormAligns(n: u64)
    requires n <= 0xffff_ffff_ffff_ffc0
    ensures And((n + 63) as nat, Not(63, 64)) == Align(n) as nat
  {
    hide *;
    MaskAligns((n + 63) as nat);
    AlignIsFloor(n);
  }

  lemma AlignIsFloor(n: u64)
    requires n <= 0xffff_ffff_ffff_ffc0
    ensures Align(n) as nat == (n + 63) as nat - (n + 63) as nat % 64
  {
  }

  lemma MaskAligns(x: nat)
    requires x < 0x1_0000_0000_0000_0000
    ensures And(x, Not(63, 64)) == x - x % 64
  {
    hide And, AndNot, Not, Pow2, Trunc;
    WordSize();
    Pow2Add(4, 2);
    Pow2Six();
    NotIsAndNot(63, 64);
    BelowMask(x, 64);
    SplitByMask(x, Pow2(64) - 1, 63);
    LowMask(x, 6);
    TruncIsMod(x, 6);
  }

  lemma Pow2Six()
    ensures Pow2(6) == 64
  {
    assert Pow2(3) == 8 && Pow2(6) == 8 * Pow2(3);
  }

  lemma AlignUnique(n: nat, m: nat, m': nat)
    requires IsAligned(n, m) && IsAligned(n, m')
    ensures m == m'
  {
    assert m == 64 * (m / 64) && m' == 64 * (m' / 64);
  }

  // ----- the header -----

  datatype Sections = Sections(ticket: u64, tmd: u64, content: u64, end: u64, ticketSize: u64, tmdSize: u64)

  /** The sizes the header declares are within the accepted bounds. */
  predicate Bounded(h: bytes)
    requires |h| == HEADER_SIZE as nat
  {
    && Little(Field(h, 8, 4)) <= 0x100000
    && 0x164 <= Little(Field(h, 12, 4)) <= 0x100000
    && 0x9c4 <= Little(Field(h, 16, 4)) <= 0x100000
    && Little(Field(h, 20, 4)) <= 0x100000
    && Little(Field(h, 24, 8)) <= MAX_INPUT as nat
  }

  predicate Supported(h: bytes)
    requires |h| == HEADER_SIZE as nat
  {
    Little(Field(h, 0, 4)) == 0x2020 && Little(Field(h, 4, 2)) == 0 && Little(Field(h, 6, 2)) == 0
  }

  /** The bytes between `n` and the next multiple of 64. */
  function Padding(n: nat): (p: nat)
    ensures IsAligned(n, n + p)
  {
    (64 - n % 64) % 64
  }

  /** The sections follow the header in order, each at the next multiple of 64 after the one before it. */
  predicate SectionsAt(h: bytes, s: Sections)
    requires |h| == HEADER_SIZE as nat
  {
    && IsAligned(0x2020 + Little(Field(h, 8, 4)), s.ticket as nat)
    && s.ticketSize as nat == Little(Field(h, 12, 4))
    && IsAligned(s.ticket as nat + s.ticketSize as nat, s.tmd as nat)
    && s.tmdSize as nat == Little(Field(h, 16, 4))
    && IsAligned(s.tmd as nat + s.tmdSize as nat, s.content as nat)
    && s.end as nat == s.content as nat + Little(Field(h, 24, 8))
  }

  /** The contents, and the aligned meta section if there is one, end inside the file. */
  predicate EndsInside(h: bytes, fileSize: u64, end: u64)
    requires |h| == HEADER_SIZE as nat
  {
    && end <= fileSize
    && (Little(Field(h, 20, 4)) != 0 ==> end as nat + Padding(end as nat) + Little(Field(h, 20, 4)) <= fileSize as nat)
  }

  predicate Placed(h: bytes, fileSize: u64, s: Sections)
    requires |h| == HEADER_SIZE as nat
  {
    SectionsAt(h, s) && EndsInside(h, fileSize, s.end)
  }

  predicate SizedAsHeader(h: bytes, fileSize: u64) {
    |h| == HEADER_SIZE as nat && |h| <= fileSize as nat && fileSize <= MAX_INPUT
  }

  /** Each section starts at the next multiple of 64 after the one before it. */
  function Place(cert: u64, tik: u64, tmd: u64, content: u64): (s: Sections)
    requires cert <= 0x100000 && tik <= 0x100000 && tmd <= 0x100000 && content <= MAX_INPUT
    ensures s.end <= MAX_INPUT + 0x1000000
  {
    var ticketAt := Align(0x2020 + cert);
    var tmdAt := Align(ticketAt + tik);
    var contentAt := Align(tmdAt + tmd);
    Sections(ticketAt, tmdAt, contentAt, contentAt + content, tik, tmd)
  }

  /** `HeaderAcceptsExactly` says which headers are accepted, and with which sections. */
  function Header(h: bytes, fileSize: u64): (r: Outcome<Sections>)
    ensures r == Failed(Unsupported) <==> SizedAsHeader(h, fileSize) && !Supported(h)
    ensures r.Failed? ==> r.status == InvalidFile || r.status == Unsupported
  {
    if !(|h| == 0x2020 && fileSize as int >= |h| && fileSize <= MAX_INPUT) then Failed(InvalidFile)
    else if !(Read(h, 0, 4, false) == 0x2020 && Read(h, 4, 2, false) == 0 && Read(h, 6, 2, false) == 0) then
      LittleFields(h);
      Failed(Unsupported)
    else
      LittleFields(h);
      var cert, tik, tmd, meta, content :=
        Read(h, 8, 4, false), Read(h, 12, 4, false), Read(h, 16, 4, false), Read(h, 20, 4, false),
        Read(h, 24, 8, false);
      if !(cert <= 0x100000 && tik >= 0x164 && tik <= 0x100000 &&
           tmd >= 0x9c4 && tmd <= 0x100000 && meta <= 0x100000 && content <= MAX_INPUT) then Failed(InvalidFile)
      else
        var s := Place(cert, tik, tmd, content);
        if s.end <= fileSize && (meta == 0 || Align(s.end) + meta <= fileSize) then Done(s)
        else Failed(InvalidFile)
  }

  lemma LittleFields(h: bytes)
    requires |h| == 0x2020
    ensures Read(h, 0, 4, false) as nat == Little(Field(h, 0, 4))
    ensures Read(h, 4, 2, false) as nat == Little(Field(h, 4, 2))
    ensures Read(h, 6, 2, false) as nat == Little(Field(h, 6, 2))
    ensures Read(h, 8, 4, false) as nat == Little(Field(h, 8, 4))
    ensures Read(h, 12, 4, false) as nat == Little(Field(h, 12, 4))
    ensures Read(h, 16, 4, false) as nat == Little(Field(h, 16, 4))
    ensures Read(h, 20, 4, false) as nat == Little(Field(h, 20, 4))
    ensures Read(h, 24, 8, false) as nat == Little(Field(h, 24, 8))
  {
    hide Little;
  }

  /** The header is accepted exactly if it is supported, bounded and places its sections in the file. */
  lemma HeaderAcceptsExactly(h: bytes, fileSize: u64, s: Sections)
    ensures Header(h, fileSize) == Done(s) <==>
              SizedAsHeader(h, fileSize) && Supported(h) && Bounded(h) && Placed(h, fileSize, s)
  {
    hide Little, Number, Align, SectionsAt, EndsInside, Place;
    if SizedAsHeader(h, fileSize) {
      LittleFields(h);
      if Bounded(h) {
        PlacedExactly(h, fileSize, s);
        MetaFits(h, fileSize, s.end);
      }
    }
  }

  lemma PlacedExactly(h: bytes, fileSize: u64, s: Sections)
    requires SizedAsHeader(h, fileSize) && Bounded(h)
    ensures SectionsAt(h, s) <==>
              s == Place(Read(h, 8, 4, false), Read(h, 12, 4, false), Read(h, 16, 4, false), Read(h, 24, 8, false))
  {
    hide Little, Number;
    LittleFields(h);
    var cert, tik, tmd := Read(h, 8, 4, false), Read(h, 12, 4, false), Read(h, 16, 4, false);
    if SectionsAt(h, s) {
      AlignUnique((0x2020 + cert) as nat, Align(0x2020 + cert) as nat, s.ticket as nat);
      AlignUnique((s.ticket + tik) as nat, Align(s.ticket + tik) as nat, s.tmd as nat);
      AlignUnique((s.tmd + tmd) as nat, Align(s.tmd + tmd) as nat, s.content as nat);
    }
  }

  lemma MetaFits(h: bytes, fileSize: u64, end: u64)
    requires SizedAsHeader(h, fileSize) && Bounded(h)
    ensures EndsInside(h, fileSize, end) <==>
              end <= fileSize && (Read(h, 20, 4, false) == 0 || Align(end) + Read(h, 20, 4, false) <= fileSize)
  {
    hide Little, Number;
    LittleFields(h);
    if end <= fileSize {
      AlignUnique(end as nat, end as nat + Padding(end as nat), Align(end) as nat);
    }
  }

  /** Accepted sections are in order, disjoint, aligned and inside a file of at most 8 GiB. */
  lemma SectionsInOrder(h: bytes, fileSize: u64)
    requires Header(h, fileSize).Done?
    ensures var s := Header(h, fileSize).value;
            && HEADER_SIZE <= s.ticket && s.ticket % 64 == 0 && s.tmd % 64 == 0 && s.content % 64 == 0
            && s.ticket + s.ticketSize <= s.tmd < s.ticket + s.ticketSize + 64
            && s.tmd + s.tmdSize <= s.content < s.tmd + s.tmdSize + 64
            && s.content <= s.end <= fileSize <= MAX_INPUT
            && s.ticketSize >= 0x164 && s.tmdSize >= 0x9c4
  {
    hide Little, Header;
    HeaderAcceptsExactly(h, fileSize, Header(h, fileSize).value);
  }

  // ----- signed blobs -----

  /** Where the signed body starts, by signature type. */
  function SignedBody(data: bytes): (r: Outcome<nat>)
    ensures r == Done(0x240) <==> |data| >= 4 && Big(Field(data, 0, 4)) in {0x10000, 0x10003}
    ensures r == Done(0x140) <==> |data| >= 4 && Big(Field(data, 0, 4)) in {0x10001, 0x10004}
    ensures r == Done(0x40) <==> |data| >= 4 && Big(Field(data, 0, 4)) in {0x10002, 0x10005}
    ensures r.Done? <==> |data| >= 4 && 0x10000 <= Big(Field(data, 0, 4)) <= 0x10005
    ensures r.Failed? ==> r.status == InvalidFile
  {
    hide Big;
    if |data| < 4 then Failed(InvalidFile)
    else
      var kind := Read(data, 0, 4, true);
      if kind == 0x10000 || kind == 0x10003 then Done(0x240)
      else if kind == 0x10001 || kind == 0x10004 then Done(0x140)
      else if kind == 0x10002 || kind == 0x10005 then Done(0x40)
      else Failed(InvalidFile)
  }
}
