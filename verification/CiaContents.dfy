/**
 What an update file contains: the title metadata that lists its contents, and the scan that checks
 that the contents lie back to back in the content section and hash to the listed digests.
 */
module CiaContents {
  import opened Bits
  import opened Bytes
  import opened CiaPolicy

  /** A file whose offsets fit a `streamoff`. */
  type File = f: bytes | |f| < 0x8000_0000_0000_0000

  const CHUNK: u64 := 65536

  /** The bytes `[offset, offset + n)`, where the file has them. */
  function Range(file: File, offset: nat, n: nat): (r: bytes)
    ensures offset + n <= |file| ==> |r| == n
    ensures n == 0 ==> r == []
  {
    if offset + n <= |file| then file[offset..offset + n] else []
  }

  /** The range, if the file has all of it. */
  function ReadAt(file: File, offset: nat, n: nat): (r: Outcome<bytes>)
    ensures r.Done? <==> offset + n <= |file|
    ensures r.Done? ==> r.value == Range(file, offset, n)
    ensures r.Failed? ==> r.status == InvalidFile
  {
    if offset + n <= |file| then Done(Range(file, offset, n)) else Failed(InvalidFile)
  }

  /** A read that the device may also fail. */
  method ReadChunk(file: File, offset: u64, n: u64) returns (r: Outcome<bytes>, ghost broken: bool)
    ensures broken ==> r == Failed(InvalidFile)
    ensures !broken ==> r == ReadAt(file, offset as nat, n as nat)
  {
    var fails: bool := *;
    broken := fails;
    r := if fails then Failed(InvalidFile) else ReadAt(file, offset as nat, n as nat);
  }

  method Poll() returns (r: Outcome<()>, ghost asked: bool)
    ensures asked ==> r == Failed(Cancelled)
    ensures !asked ==> r == Done(())
  {
    var cancels: bool := *;
    asked := cancels;
    r := if cancels then Failed(Cancelled) else Done(());
  }

  /**
   Hashing in chunks is hashing the whole range, whatever the chunk boundaries; it fails exactly when
   it is interrupted (a cancel or a failing device) or the range leaves the file.
   */
  method Hash(file: File, offset: u64, size: u64, sha: bytes -> bytes)
    returns (r: Outcome<bytes>, ghost interrupted: bool)
    ensures r.Done? ==> offset as nat + size as nat <= |file| || size == 0
    ensures r.Done? ==> r.value == sha(Range(file, offset as nat, size as nat))
    ensures r.Failed? ==> r.status == Cancelled || r.status == InvalidFile
    ensures interrupted ==> r.Failed?
    ensures !interrupted ==> (r.Done? <==> size == 0 || offset as nat + size as nat <= |file|)
    ensures !interrupted && r.Failed? ==> r.status == InvalidFile
  {
    hide Range, ReadAt;
    var fed: bytes := [];
    var at, left := offset, size;
    interrupted := false;
    while left > 0
      invariant left <= size && at as int == offset as int + (size - left) as int
      invariant left < size ==> at as int <= |file|
      invariant fed == Range(file, offset as nat, (size - left) as nat)
      invariant !interrupted
    {
      var poll;
      poll, interrupted := Poll();
      if poll.Failed? { return Failed(poll.status), interrupted; }
      var n := if left < CHUNK then left else CHUNK;
      var chunk;
      chunk, interrupted := ReadChunk(file, at, n);
      if chunk.Failed? { return Failed(chunk.status), interrupted; }
      RangeExtends(file, offset as nat, (size - left) as nat, n as nat);
      fed := fed + chunk.value;
      at := at + n;
      left := left - n;
    }
    r := Done(sha(fed));
  }

  lemma RangeExtends(file: File, offset: nat, m: nat, n: nat)
    requires offset + m + n <= |file|
    ensures Range(file, offset, m) + Range(file, offset + m, n) == Range(file, offset, m + n)
  {
  }

  // ----- the lists of the file -----

  /** What the importer keeps of the header, the title metadata and the ticket. */
  datatype Manifest = Manifest(header: bytes, sections: Sections, tmd: bytes, body: nat, count: nat, titleId: u64)
  {
    /** The metadata holds every record it declares, and the header's content bitmap covers them. */
    predicate Listed() {
      && |header| == 0x2020 && 0 < count <= 256
      && body + 0x9c4 + count * 0x30 <= |tmd|
      && sections.content <= sections.end
    }
  }

  /** An entry of the content list of the title metadata. */
  datatype Record = Record(id: u64, index: u64, kind: u64, size: u64, hash: bytes)

  function RecordAt(m: Manifest, i: nat): (c: Record)
    requires m.Listed() && i < m.count
  {
    var at := m.body + 0x9c4 + i * 0x30;
    Record(Read(m.tmd, at, 4, true), Read(m.tmd, at + 4, 2, true), Read(m.tmd, at + 6, 2, true),
           Read(m.tmd, at + 8, 8, true), m.tmd[at + 16..at + 48])
  }

  /** The metadata and its place in the file: `SignedBody` bytes of signature, then the fixed part and the records. */
  function ReadMetadata(file: File, header: bytes, s: Sections): (r: Outcome<Manifest>)
    requires |header| == 0x2020 && s.content <= s.end
    ensures r.Done? ==> r.value.Listed() && r.value.header == header && r.value.sections == s
    ensures r.Done? ==> r.value.titleId / 0x1_0000_0000 == 0x0004000e
  {
    var tmd :- ReadAt(file, s.tmd as nat, s.tmdSize as nat);
    var body :- SignedBody(tmd);
    var _ :- Require(|tmd| >= body + 0x9c4, InvalidFile);
    var count := Read(tmd, body + 0x9e, 2, true) as nat;
    var _ :- Require(0 < count <= 256 && |tmd| >= body + 0x9c4 + count * 0x30, Unsupported);
    var tid := Read(tmd, body + 0x4c, 8, true);
    var _ :- Require(tid / 0x1_0000_0000 == 0x0004000e, Unsupported);
    Done(Manifest(header, s, tmd, body, count, tid))
  }

  /** The ticket must be for the same title and large enough for the reader of its content index. */
  function CheckTicket(file: File, s: Sections, titleId: u64): (r: Outcome<()>)
    ensures r.Failed? ==> r.status == InvalidFile
  {
    var ticket :- ReadAt(file, s.ticket as nat, s.ticketSize as nat);
    var body :- SignedBody(ticket);
    var _ :- Require(|ticket| >= body + 0x164 + 8, InvalidFile);
    var _ :- Require(Read(ticket, body + 0x9c, 8, true) == titleId, InvalidFile);
    var indexSize := Read(ticket, body + 0x164 + 4, 4, true) as nat;
    Require(indexSize >= 0x14 && body + 0x164 + indexSize <= |ticket|, InvalidFile)
  }

  function ReadManifest(file: File): (r: Outcome<Manifest>)
    ensures r.Done? ==> r.value.Listed() && Header(r.value.header, |file| as u64) == Done(r.value.sections)
    ensures r.Done? ==> r.value.titleId / 0x1_0000_0000 == 0x0004000e
    ensures r.Failed? ==> r.status == InvalidFile || r.status == Unsupported
  {
    var header :- ReadAt(file, 0, 0x2020);
    var sections :- Header(header, |file| as u64);
    SectionsInOrder(header, |file| as u64);
    var m :- ReadMetadata(file, header, sections);
    var _ :- CheckTicket(file, sections, m.titleId);
    Done(m)
  }

  // ----- the scan -----

  /** The sum of the sizes of the first `k` records. */
  function Total(m: Manifest, k: nat): (n: nat)
    requires m.Listed() && k <= m.count
  {
    if k == 0 then 0 else Total(m, k - 1) + RecordAt(m, k - 1).size as nat
  }

  function StartOf(m: Manifest, i: nat): (at: nat)
    requires m.Listed() && i <= m.count
  {
    m.sections.content as nat + Total(m, i)
  }

  function ContentOf(file: File, m: Manifest, i: nat): (r: bytes)
    requires m.Listed() && i < m.count
  {
    Range(file, StartOf(m, i), RecordAt(m, i).size as nat)
  }

  /** The content bitmap of the header has the bit of content `i`, counted from the high end of each byte. */
  predicate Marked(m: Manifest, i: nat)
    requires m.Listed() && i < m.count
  {
    And(m.header[0x20 + i / 8], Pow2(7 - i % 8)) != 0
  }

  /** Neither encrypted, nor optional, nor shared. */
  predicate Plain(kind: u64) {
    And(kind as nat, 1 + 0x4000 + 0x8000) == 0
  }

  predicate Declared(m: Manifest, i: nat)
    requires m.Listed() && i < m.count
  {
    RecordAt(m, i).index as nat == i && Marked(m, i) && Plain(RecordAt(m, i).kind)
  }

  predicate NewId(m: Manifest, i: nat)
    requires m.Listed() && i < m.count
  {
    forall j: nat :: j < i ==> RecordAt(m, j).id != RecordAt(m, i).id
  }

  predicate Sized(m: Manifest, i: nat)
    requires m.Listed() && i < m.count
  {
    0x200 <= RecordAt(m, i).size && StartOf(m, i) + RecordAt(m, i).size as nat <= m.sections.end as nat
  }

  predicate Good(file: File, m: Manifest, i: nat, sha: bytes -> bytes)
    requires m.Listed() && i < m.count
  {
    Declared(m, i) && NewId(m, i) && Sized(m, i) && sha(ContentOf(file, m, i)) == RecordAt(m, i).hash
  }

  predicate GoodUpTo(file: File, m: Manifest, k: nat, sha: bytes -> bytes)
    requires m.Listed() && k <= m.count
  {
    forall i: nat :: i < k ==> Good(file, m, i, sha)
  }

  /** Every record is good, and together they fill the content section. */
  predicate Complete(file: File, m: Manifest, sha: bytes -> bytes)
    requires m.Listed()
  {
    GoodUpTo(file, m, m.count, sha) && StartOf(m, m.count) == m.sections.end as nat
  }

  /** The identifiers of the first `k` records. */
  function Ids(m: Manifest, k: nat): (ids: set<u64>)
    requires m.Listed() && k <= m.count
  {
    set i: nat | i < k :: RecordAt(m, i).id
  }

  lemma NextId(m: Manifest, i: nat)
    requires m.Listed() && i < m.count
    ensures RecordAt(m, i).id !in Ids(m, i) <==> NewId(m, i)
    ensures Ids(m, i + 1) == Ids(m, i) + {RecordAt(m, i).id}
  {
    hide RecordAt;
  }

  /** One record: the checks of the loop body, in the loop's order. */
  method CheckRecord(file: File, m: Manifest, i: nat, ids: set<u64>, offset: u64, sha: bytes -> bytes)
    returns (r: Outcome<bytes>, ghost interrupted: bool)
    requires m.Listed() && i < m.count && m.sections.end as nat <= |file|
    requires ids == Ids(m, i) && offset as nat == StartOf(m, i) && offset <= m.sections.end
    ensures interrupted ==> r.Failed? && (r.status == Cancelled || r.status == InvalidFile)
    ensures r.Done? ==> Good(file, m, i, sha) && r.value == RecordAt(m, i).hash
    ensures !interrupted ==> (r.Done? <==> Good(file, m, i, sha))
    ensures !interrupted ==> (r == Failed(Unsupported) <==> !Declared(m, i))
    ensures !interrupted && r.Failed? ==> r.status == Unsupported || r.status == InvalidFile
  {
    hide RecordAt, Total, Marked, Plain, Range, NewId;
    var c := RecordAt(m, i);
    interrupted := false;
    if !(c.index as nat == i && Marked(m, i)) { return Failed(Unsupported), false; }
    if !Plain(c.kind) { return Failed(Unsupported), false; }
    NextId(m, i);
    if c.id in ids { return Failed(InvalidFile), false; }
    if !(c.size >= 0x200 && c.size <= m.sections.end - offset) { return Failed(InvalidFile), false; }
    var hash;
    hash, interrupted := Hash(file, offset, c.size, sha);
    if hash.Failed? { return Failed(hash.status), interrupted; }
    r := if hash.value == c.hash then hash else Failed(InvalidFile);
  }

  /**
   The scan accepts exactly the files whose records are good and fill the content section, unless it
   is interrupted.
   */
  method ScanContents(file: File, m: Manifest, sha: bytes -> bytes)
    returns (r: Outcome<seq<bytes>>, ghost interrupted: bool)
    requires m.Listed() && m.sections.end as nat <= |file|
    ensures r.Done? ==> Complete(file, m, sha) && |r.value| == m.count
    ensures r.Done? ==> forall i: nat :: i < m.count ==> r.value[i] == RecordAt(m, i).hash
    ensures interrupted ==> r.Failed? && (r.status == Cancelled || r.status == InvalidFile)
    ensures !interrupted ==> (r.Done? <==> Complete(file, m, sha))
    ensures !interrupted ==> (r == Failed(Unsupported) <==> FirstUndeclared(file, m, sha))
    ensures !interrupted && r.Failed? ==> r.status == Unsupported || r.status == InvalidFile
    ensures r.Failed? ==> r.status == Cancelled || r.status == InvalidFile || r.status == Unsupported
  {
    hide *;
    var ids: set<u64> := {};
    var hashes: seq<bytes> := [];
    var offset := m.sections.content;
    interrupted := false;
    ScanBegins(file, m, sha);
    for i := 0 to m.count
      invariant ids == Ids(m, i) && offset as nat == StartOf(m, i) && offset <= m.sections.end
      invariant GoodUpTo(file, m, i, sha)
      invariant |hashes| == i && forall j: nat :: j < i ==> hashes[j] == RecordAt(m, j).hash
      invariant !interrupted
    {
      var hash;
      hash, interrupted := CheckRecord(file, m, i, ids, offset, sha);
      if hash.Failed? {
        if !interrupted { ScanStops(file, m, i, sha); }
        return Failed(hash.status), interrupted;
      }
      NextId(m, i);
      ScanContinues(file, m, i, sha);
      ids := ids + {RecordAt(m, i).id};
      offset := offset + RecordAt(m, i).size;
      hashes := hashes + [hash.value];
    }
    ScanEnds(file, m, sha);
    r := if offset == m.sections.end then Done(hashes) else Failed(InvalidFile);
  }

  lemma ScanBegins(file: File, m: Manifest, sha: bytes -> bytes)
    requires m.Listed()
    ensures Ids(m, 0) == {} && StartOf(m, 0) == m.sections.content as nat && m.sections.content <= m.sections.end
    ensures GoodUpTo(file, m, 0, sha)
  {
  }

  lemma ScanContinues(file: File, m: Manifest, i: nat, sha: bytes -> bytes)
    requires m.Listed() && i < m.count && GoodUpTo(file, m, i, sha) && Good(file, m, i, sha)
    ensures GoodUpTo(file, m, i + 1, sha)
    ensures StartOf(m, i + 1) == StartOf(m, i) + RecordAt(m, i).size as nat <= m.sections.end as nat
  {
    hide RecordAt, Declared, NewId, ContentOf;
  }

  lemma ScanStops(file: File, m: Manifest, i: nat, sha: bytes -> bytes)
    requires m.Listed() && i < m.count && GoodUpTo(file, m, i, sha) && !Good(file, m, i, sha)
    ensures !Complete(file, m, sha)
    ensures FirstUndeclared(file, m, sha) <==> !Declared(m, i)
  {
    hide RecordAt, Declared, NewId, ContentOf, Sized;
    forall k: nat | k < m.count && GoodUpTo(file, m, k, sha) && !Declared(m, k) ensures k == i {
      assert !Good(file, m, k, sha);
    }
  }

  lemma ScanEnds(file: File, m: Manifest, sha: bytes -> bytes)
    requires m.Listed() && GoodUpTo(file, m, m.count, sha)
    ensures Complete(file, m, sha) <==> StartOf(m, m.count) == m.sections.end as nat
    ensures !FirstUndeclared(file, m, sha)
  {
    hide RecordAt, Declared, NewId, ContentOf, Sized;
    forall k: nat | k < m.count ensures Declared(m, k) {
      assert Good(file, m, k, sha);
    }
  }

  /** The first record that is not good is not even declared as its position demands. */
  predicate FirstUndeclared(file: File, m: Manifest, sha: bytes -> bytes)
    requires m.Listed()
  {
    exists k: nat :: k < m.count && GoodUpTo(file, m, k, sha) && !Declared(m, k)
  }

  // ----- what an accepted file guarantees -----

  /** The contents in the order of the list, one after the other. */
  function Joined(file: File, m: Manifest, k: nat): (r: bytes)
    requires m.Listed() && k <= m.count
  {
    if k == 0 then [] else Joined(file, m, k - 1) + ContentOf(file, m, k - 1)
  }

  lemma {:induction false} JoinedIsRange(file: File, m: Manifest, k: nat, sha: bytes -> bytes)
    requires m.Listed() && m.sections.end as nat <= |file| && k <= m.count && GoodUpTo(file, m, k, sha)
    ensures Joined(file, m, k) == Range(file, m.sections.content as nat, Total(m, k))
    ensures StartOf(m, k) <= m.sections.end as nat
  {
    hide Range, RecordAt, Declared, NewId;
    if k > 0 {
      JoinedIsRange(file, m, k - 1, sha);
      assert Good(file, m, k - 1, sha);
      RangeExtends(file, m.sections.content as nat, Total(m, k - 1), RecordAt(m, k - 1).size as nat);
    }
  }

  /** The contents tile the section: joined they are the section, and their sizes are the reported number of bytes. */
  lemma ContentsTile(file: File, m: Manifest, sha: bytes -> bytes)
    requires m.Listed() && m.sections.end as nat <= |file| && Complete(file, m, sha)
    ensures Total(m, m.count) == (m.sections.end - m.sections.content) as nat
    ensures Joined(file, m, m.count) == file[m.sections.content as nat..m.sections.end as nat]
  {
    hide Joined, Total, GoodUpTo;
    JoinedIsRange(file, m, m.count, sha);
  }

  lemma {:induction false} StartsOrdered(m: Manifest, i: nat, j: nat)
    requires m.Listed() && i < j <= m.count
    ensures StartOf(m, i) + RecordAt(m, i).size as nat <= StartOf(m, j)
  {
    hide RecordAt;
    if i + 1 < j {
      StartsOrdered(m, i, j - 1);
    }
  }

  /** No two listed contents share an identifier. */
  lemma IdentifiersDistinct(file: File, m: Manifest, i: nat, j: nat, sha: bytes -> bytes)
    requires m.Listed() && Complete(file, m, sha) && i < j < m.count
    ensures RecordAt(m, i).id != RecordAt(m, j).id
  {
    hide RecordAt, Sized, Declared, ContentOf;
    assert Good(file, m, j, sha);
  }

  lemma HolderStep(m: Manifest, at: nat, k: nat)
    requires m.Listed() && k <= m.count && StartOf(m, 0) <= at < StartOf(m, k)
    ensures k > 0 && StartOf(m, k) == StartOf(m, k - 1) + RecordAt(m, k - 1).size as nat
  {
    hide RecordAt;
  }

  /** The content that holds the byte at `at`. */
  lemma {:induction false} FindHolder(m: Manifest, at: nat, k: nat) returns (i: nat)
    requires m.Listed() && k <= m.count && StartOf(m, 0) <= at < StartOf(m, k)
    ensures i < k && StartOf(m, i) <= at < StartOf(m, i) + RecordAt(m, i).size as nat
  {
    hide *;
    HolderStep(m, at, k);
    if StartOf(m, k - 1) <= at {
      i := k - 1;
    } else {
      i := FindHolder(m, at, k - 1);
    }
  }

  /** Every byte of the section belongs to one content and to no other. */
  lemma ByteBelongsToOne(file: File, m: Manifest, at: nat, sha: bytes -> bytes) returns (i: nat)
    requires m.Listed() && Complete(file, m, sha) && m.sections.content as nat <= at < m.sections.end as nat
    ensures i < m.count && StartOf(m, i) <= at < StartOf(m, i) + RecordAt(m, i).size as nat
    ensures forall j: nat :: j < m.count && StartOf(m, j) <= at < StartOf(m, j) + RecordAt(m, j).size as nat ==> j == i
  {
    hide RecordAt, Total, GoodUpTo;
    ScanBegins(file, m, sha);
    i := FindHolder(m, at, m.count);
    forall j: nat | j < m.count && StartOf(m, j) <= at < StartOf(m, j) + RecordAt(m, j).size as nat ensures j == i {
      if i < j {
        StartsOrdered(m, i, j);
      } else if j < i {
        StartsOrdered(m, j, i);
      }
    }
  }

  // ----- the bit tests -----

  /** The bitmap test reads bit `7 - i % 8` of the byte. */
  lemma MarkedReadsBit(m: Manifest, i: nat)
    requires m.Listed() && i < m.count
    ensures Marked(m, i) <==> Bit(m.header[0x20 + i / 8], 7 - i % 8)
  {
    hide And, Bit, Pow2;
    AndSingleBit(m.header[0x20 + i / 8], 7 - i % 8);
  }

  /** The mask tests bits 0, 14 and 15. */
  lemma PlainReadsBits(kind: u64)
    ensures Plain(kind) <==> !Bit(kind as nat, 0) && !Bit(kind as nat, 14) && !Bit(kind as nat, 15)
  {
    hide *;
    var k := kind as nat;
    PlainIsMask(kind);
    MaskBits();
    forall i: nat ensures Bit(And(k, 0xC001), i) == (Bit(k, i) && Bit(0xC001, i)) {
      BitsOfAnd(k, 0xC001, i);
    }
    forall i: nat ensures !Bit(0, i) {
      ZeroHasNoBits(i);
    }
    if !Bit(k, 0) && !Bit(k, 14) && !Bit(k, 15) {
      Extensional(And(k, 0xC001), 0);
    }
  }

  lemma PlainIsMask(kind: u64)
    ensures Plain(kind) <==> And(kind as nat, 0xC001) == 0
  {
    hide And;
  }

  lemma MaskBits()
    ensures forall i: nat :: Bit(0xC001, i) <==> i == 0 || i == 14 || i == 15
  {
    hide *;
    forall i: nat ensures Bit(0xC001, i) <==> i == 0 || i == 14 || i == 15 {
      MaskBit(i);
    }
  }

  lemma MaskBit(i: nat)
    ensures Bit(0xC001, i) <==> i == 0 || i == 14 || i == 15
  {
    if i > 0 {
      hide Bit;
      BitsOfShifted(3, 13, i - 1);
      ShiftedThree();
      BitStep(0xC001, i);
      if i >= 14 { BitsOfThree(i - 14); }
    }
  }

  lemma BitStep(x: nat, i: nat)
    requires i > 0
    ensures Bit(x, i) == Bit(x / 2, i - 1)
  {
  }

  lemma ShiftedThree()
    ensures 3 * Pow2(13) == 0x6000
  {
    assert Pow2(6) == 64 && Pow2(13) == 128 * Pow2(6);
  }

  lemma BitsOfThree(i: nat)
    ensures Bit(3, i) <==> i < 2
  {
    if i >= 2 {
      ZeroHasNoBits(i - 2);
      assert Bit(3, i) == Bit(1, i - 1) == Bit(0, i - 2);
    }
  }
}
