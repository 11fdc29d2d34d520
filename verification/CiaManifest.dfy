/**
 Which files are accepted as updates, in terms of their bytes alone: the header, the fields of the title metadata and
 of the ticket, and the records of the content list.
 */
module CiaManifest {
  import opened Bits
  import opened Bytes
  import opened CiaPolicy
  import opened CiaContents

  // ----- the metadata and the ticket -----

  /** A signature of one of the six types, and the place behind it and its padding. */
  predicate Signed(blob: bytes, body: nat) {
    |blob| >= 4 && (
      || (Big(Field(blob, 0, 4)) in {0x10000, 0x10003} && body == 0x240)
      || (Big(Field(blob, 0, 4)) in {0x10001, 0x10004} && body == 0x140)
      || (Big(Field(blob, 0, 4)) in {0x10002, 0x10005} && body == 0x40))
  }

  /** The metadata has its fixed part, which says how many contents there are and of which title. */
  predicate MetadataOf(tmd: bytes, body: nat, count: nat, titleId: nat) {
    && Signed(tmd, body) && body + 0x9c4 <= |tmd|
    && count == Big(Field(tmd, body + 0x9e, 2))
    && titleId == Big(Field(tmd, body + 0x4c, 8))
  }

  /** It lists 1 to 256 contents, has room for their records, and belongs to the category of updates. */
  predicate ListsUpdate(tmd: bytes, body: nat, count: nat, titleId: nat) {
    0 < count <= 256 && body + 0x9c4 + count * 0x30 <= |tmd| && titleId / 0x1_0000_0000 == 0x0004000e
  }

  /** The ticket is for the title, and its content index has a whole header and lies inside it. */
  predicate TicketFor(ticket: bytes, titleId: nat) {
    exists body: nat ::
      && Signed(ticket, body) && body + 0x16c <= |ticket|
      && Big(Field(ticket, body + 0x9c, 8)) == titleId
      && 0x14 <= Big(Field(ticket, body + 0x168, 4)) <= |ticket| - body - 0x164
  }

  /** The header is supported, within its bounds, and places the sections inside the file. */
  predicate HeaderOf(file: File, header: bytes, s: Sections) {
    && |file| >= 0x2020 && header == file[..0x2020]
    && SizedAsHeader(header, |file| as u64) && Supported(header) && Bounded(header)
    && Placed(header, |file| as u64, s)
  }

  function TmdOf(file: File, s: Sections): bytes {
    Range(file, s.tmd as nat, s.tmdSize as nat)
  }

  function TicketOf(file: File, s: Sections): bytes {
    Range(file, s.ticket as nat, s.ticketSize as nat)
  }

  lemma SignedExactly(blob: bytes, body: nat)
    ensures Signed(blob, body) <==> SignedBody(blob) == Done(body)
  {
    hide Big, Field;
  }

  lemma BigField(data: bytes, offset: nat, n: nat)
    requires offset + n <= |data| && n <= 8
    ensures Read(data, offset, n, true) as nat == Big(Field(data, offset, n))
  {
    hide Big, Little;
  }

  /** The sections of an accepted header can be read. */
  lemma SectionsReadable(file: File, header: bytes, s: Sections)
    requires |header| == 0x2020 && Header(header, |file| as u64) == Done(s)
    ensures ReadAt(file, s.tmd as nat, s.tmdSize as nat) == Done(TmdOf(file, s))
    ensures ReadAt(file, s.ticket as nat, s.ticketSize as nat) == Done(TicketOf(file, s))
    ensures s.content <= s.end
  {
    hide Header, Range;
    SectionsInOrder(header, |file| as u64);
  }

  lemma TicketExactly(file: File, s: Sections, titleId: u64)
    requires ReadAt(file, s.ticket as nat, s.ticketSize as nat) == Done(TicketOf(file, s))
    ensures CheckTicket(file, s, titleId).Done? <==> TicketFor(TicketOf(file, s), titleId as nat)
  {
    hide Big, Little, Range, Field, ReadAt, SignedBody, TicketOf, Signed, CiaPolicy.Read;
    var ticket := TicketOf(file, s);
    forall body: nat ensures Signed(ticket, body) <==> SignedBody(ticket) == Done(body) {
      SignedExactly(ticket, body);
    }
    if SignedBody(ticket).Done? && SignedBody(ticket).value + 0x16c <= |ticket| {
      var body := SignedBody(ticket).value;
      BigField(ticket, body + 0x9c, 8);
      BigField(ticket, body + 0x168, 4);
    }
  }

  lemma MetadataExactly(file: File, header: bytes, s: Sections, m: Manifest)
    requires |header| == 0x2020 && s.content <= s.end
    requires ReadAt(file, s.tmd as nat, s.tmdSize as nat) == Done(TmdOf(file, s))
    ensures ReadMetadata(file, header, s) == Done(m) <==>
              && m.header == header && m.sections == s && m.tmd == TmdOf(file, s)
              && MetadataOf(m.tmd, m.body, m.count, m.titleId as nat)
              && ListsUpdate(m.tmd, m.body, m.count, m.titleId as nat)
  {
    hide Big, Little, Range, Field, ReadAt, SignedBody, TmdOf, Signed, CiaPolicy.Read;
    var tmd := TmdOf(file, s);
    forall body: nat ensures Signed(tmd, body) <==> SignedBody(tmd) == Done(body) {
      SignedExactly(tmd, body);
    }
    if SignedBody(tmd).Done? && SignedBody(tmd).value + 0x9c4 <= |tmd| {
      var body := SignedBody(tmd).value;
      BigField(tmd, body + 0x9e, 2);
      BigField(tmd, body + 0x4c, 8);
      assert MetadataOf(tmd, body, Big(Field(tmd, body + 0x9e, 2)), Big(Field(tmd, body + 0x4c, 8)));
    }
  }

  lemma MetadataUnsupportedExactly(file: File, header: bytes, s: Sections)
    requires |header| == 0x2020 && s.content <= s.end
    requires ReadAt(file, s.tmd as nat, s.tmdSize as nat) == Done(TmdOf(file, s))
    ensures ReadMetadata(file, header, s) == Failed(Unsupported) <==>
              exists body: nat, count: nat, titleId: nat ::
                && MetadataOf(TmdOf(file, s), body, count, titleId)
                && !ListsUpdate(TmdOf(file, s), body, count, titleId)
  {
    hide Big, Little, Range, Field, ReadAt, SignedBody, TmdOf, Signed, CiaPolicy.Read;
    var tmd := TmdOf(file, s);
    forall body: nat ensures Signed(tmd, body) <==> SignedBody(tmd) == Done(body) {
      SignedExactly(tmd, body);
    }
    if SignedBody(tmd).Done? && SignedBody(tmd).value + 0x9c4 <= |tmd| {
      var body := SignedBody(tmd).value;
      BigField(tmd, body + 0x9e, 2);
      BigField(tmd, body + 0x4c, 8);
      assert MetadataOf(tmd, body, Big(Field(tmd, body + 0x9e, 2)), Big(Field(tmd, body + 0x4c, 8)));
    }
  }

  /** A file is accepted as an update, with given lists, exactly if header, metadata and ticket say so. */
  lemma ManifestAcceptsExactly(file: File, m: Manifest)
    ensures ReadManifest(file) == Done(m) <==>
              && HeaderOf(file, m.header, m.sections)
              && m.tmd == TmdOf(file, m.sections)
              && MetadataOf(m.tmd, m.body, m.count, m.titleId as nat)
              && ListsUpdate(m.tmd, m.body, m.count, m.titleId as nat)
              && TicketFor(TicketOf(file, m.sections), m.titleId as nat)
  {
    hide Header, Placed, Supported, Bounded, SizedAsHeader, ReadMetadata, CheckTicket, MetadataOf, ListsUpdate,
        TicketFor, TmdOf, TicketOf;
    if |file| >= 0x2020 {
      var header := file[..0x2020];
      assert Range(file, 0, 0x2020) == header;
      HeaderAcceptsExactly(header, |file| as u64, m.sections);
      if Header(header, |file| as u64).Done? {
        var s := Header(header, |file| as u64).value;
        SectionsReadable(file, header, s);
        SectionsInOrder(header, |file| as u64);
        MetadataExactly(file, header, s, m);
        TicketExactly(file, s, m.titleId);
      }
    }
  }

  /** It is refused as unsupported exactly for its header's type and version, or for the count or the category. */
  lemma ManifestUnsupportedExactly(file: File)
    ensures ReadManifest(file) == Failed(Unsupported) <==>
              |file| >= 0x2020 && (
                || (SizedAsHeader(file[..0x2020], |file| as u64) && !Supported(file[..0x2020]))
                || exists s: Sections, body: nat, count: nat, titleId: nat ::
                     && HeaderOf(file, file[..0x2020], s) && MetadataOf(TmdOf(file, s), body, count, titleId)
                     && !ListsUpdate(TmdOf(file, s), body, count, titleId))
  {
    hide Header, Placed, Supported, Bounded, SizedAsHeader, ReadMetadata, CheckTicket, MetadataOf, ListsUpdate, TmdOf,
        TicketOf;
    if |file| >= 0x2020 {
      var header := file[..0x2020];
      assert Range(file, 0, 0x2020) == header;
      forall s ensures HeaderOf(file, header, s) <==> Header(header, |file| as u64) == Done(s) {
        HeaderAcceptsExactly(header, |file| as u64, s);
      }
      if Header(header, |file| as u64).Done? {
        var s := Header(header, |file| as u64).value;
        SectionsReadable(file, header, s);
        SectionsInOrder(header, |file| as u64);
        MetadataUnsupportedExactly(file, header, s);
      }
    }
  }

  // ----- the records of the content list -----

  function BigBytes(n: nat, k: nat): (bs: bytes)
    ensures |bs| == k
  {
    if k == 0 then [] else BigBytes(n / 256, k - 1) + [n % 256]
  }

  lemma {:induction false} BigOfBytes(n: nat, k: nat)
    requires n < Pow2(8 * k)
    ensures Big(BigBytes(n, k)) == n
  {
    if k > 0 {
      EightBits(k - 1);
      BigOfBytes(n / 256, k - 1);
    }
  }

  lemma {:induction false} BytesOfBig(bs: bytes)
    ensures BigBytes(Big(bs), |bs|) == bs
  {
    if bs != [] {
      BytesOfBig(bs[..|bs| - 1]);
    }
  }

  /** Identifier, index, type, size and digest, in the order and widths of the list. */
  function RecordBytes(c: Record): (bs: bytes) {
    BigBytes(c.id as nat, 4) + (BigBytes(c.index as nat, 2) + (BigBytes(c.kind as nat, 2)
                                                                + (BigBytes(c.size as nat, 8) + c.hash)))
  }

  /** The values the fields of a record have room for. */
  predicate ProperRecord(c: Record) {
    c.id < 0x1_0000_0000 && c.index < 0x1_0000 && c.kind < 0x1_0000 && |c.hash| == 32
  }

  /** The bytes of the record with this number. */
  function Slot(m: Manifest, i: nat): (bs: bytes)
    requires m.Listed() && i < m.count
    ensures |bs| == 0x30
  {
    m.tmd[m.body + 0x9c4 + i * 0x30..m.body + 0x9c4 + (i + 1) * 0x30]
  }

  /** A number is read from a field exactly if the field is how the number is written. */
  lemma FieldExactly(data: bytes, offset: nat, n: nat, v: u64)
    requires offset + n <= |data| && n <= 8 && v as nat < Pow2(8 * n)
    ensures Read(data, offset, n, true) == v <==> Field(data, offset, n) == BigBytes(v as nat, n)
  {
    hide Big, Pow2, BigBytes;
    BigField(data, offset, n);
    BigOfBytes(v as nat, n);
    BytesOfBig(Field(data, offset, n));
  }

  lemma FieldSizes()
    ensures Pow2(8 * 2) == 0x1_0000 && Pow2(8 * 4) == 0x1_0000_0000 && Pow2(8 * 8) == 0x1_0000_0000_0000_0000
  {
    hide Pow2;
    WordSize();
    assert Pow2(16) * Pow2(16) == 0x1_0000_0000 by { Pow2Add(16, 16); }
    assert Pow2(4) == 16 by { Pow2Four(); }
    Pow2Add(4, 4);
    Pow2Add(8, 8);
  }

  /** A record is read from its slot exactly if the slot holds the bytes of the record. */
  lemma RecordExactly(m: Manifest, i: nat, c: Record)
    requires m.Listed() && i < m.count && ProperRecord(c)
    ensures RecordAt(m, i) == c <==> Slot(m, i) == RecordBytes(c)
  {
    hide *;
    var slot := Slot(m, i);
    Properly(c);
    RecordFields(m, i);
    FieldExactly(slot, 0, 4, c.id);
    FieldExactly(slot, 4, 2, c.index);
    FieldExactly(slot, 6, 2, c.kind);
    FieldExactly(slot, 8, 8, c.size);
    FieldsOf(slot, BigBytes(c.id as nat, 4), BigBytes(c.index as nat, 2), BigBytes(c.kind as nat, 2),
             BigBytes(c.size as nat, 8), c.hash);
  }

  lemma Properly(c: Record)
    requires ProperRecord(c)
    ensures c.id as nat < Pow2(8 * 4) && c.index as nat < Pow2(8 * 2) && c.kind as nat < Pow2(8 * 2)
    ensures c.size as nat < Pow2(8 * 8) && |c.hash| == 32
    ensures RecordBytes(c) == BigBytes(c.id as nat, 4) + (BigBytes(c.index as nat, 2)
                                                          + (BigBytes(c.kind as nat, 2)
                                                             + (BigBytes(c.size as nat, 8) + c.hash)))
  {
    hide Pow2, BigBytes;
    FieldSizes();
  }

  /** The fields of a record, by their places in its slot. */
  lemma RecordFields(m: Manifest, i: nat)
    requires m.Listed() && i < m.count
    ensures var c, slot := RecordAt(m, i), Slot(m, i);
            && c.id == Read(slot, 0, 4, true) && c.index == Read(slot, 4, 2, true)
            && c.kind == Read(slot, 6, 2, true) && c.size == Read(slot, 8, 8, true) && c.hash == slot[16..48]
  {
    hide Number, Slot;
    SlotPart(m, i, 0, 4);
    SlotPart(m, i, 4, 6);
    SlotPart(m, i, 6, 8);
    SlotPart(m, i, 8, 16);
    SlotPart(m, i, 16, 48);
  }

  lemma SlotPart(m: Manifest, i: nat, from: nat, to: nat)
    requires m.Listed() && i < m.count && from <= to <= 0x30
    ensures var at := m.body + 0x9c4 + i * 0x30; m.tmd[at + from..at + to] == Slot(m, i)[from..to]
  {
  }

  lemma FieldsOf(slot: bytes, a: bytes, b: bytes, c: bytes, d: bytes, e: bytes)
    requires |slot| == 48 && |a| == 4 && |b| == 2 && |c| == 2 && |d| == 8 && |e| == 32
    ensures slot == a + (b + (c + (d + e))) <==>
              && Field(slot, 0, 4) == a && Field(slot, 4, 2) == b && Field(slot, 6, 2) == c && Field(slot, 8, 8) == d
              && slot[16..48] == e
  {
    FirstField(slot, a, b + (c + (d + e)));
    FirstField(slot[4..], b, c + (d + e));
    FirstField(slot[6..], c, d + e);
    FirstField(slot[8..], d, e);
    assert slot[4..][..2] == slot[4..6] && slot[6..][..2] == slot[6..8] && slot[8..][..8] == slot[8..16];
    assert slot[4..][2..] == slot[6..] && slot[6..][2..] == slot[8..] && slot[8..][8..] == slot[16..48];
  }

  lemma FirstField(whole: bytes, first: bytes, rest: bytes)
    requires |first| <= |whole|
    ensures whole == first + rest <==> whole[..|first|] == first && whole[|first|..] == rest
  {
    assert whole == whole[..|first|] + whole[|first|..];
  }
}
