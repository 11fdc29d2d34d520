/**
 An encoder of export tries, and the proof that the decoder gives back every trie it encodes: a node is followed by the
 subtrees it points to, and offsets are written in fields of a fixed width.
 */
module ExportTrieEncoding {
  import opened Bits
  import opened Bytes
  import opened Options
  import opened Uleb
  import opened ExportTrie

  datatype Body =
    | ToImport(ordinal: nat, text: bytes)
    | ToAddress(address: nat)
    | ToResolver(address: nat, resolver: nat)

  /** What a terminal says; its flags tell re-exports and resolvers. */
  datatype Export = Export(flags: nat, body: Body)
  {
    predicate Proper() {
      && flags < Pow2(70) && |ExportBytes(this)| < Pow2(70)
      && (body.ToImport? <==> Bit(flags, 3)) && (body.ToResolver? <==> !Bit(flags, 3) && Bit(flags, 4))
      && match body
         case ToImport(ordinal, text) => ordinal < Pow2(70) && 0 !in text
         case ToAddress(address) => address < Pow2(70)
         case ToResolver(address, resolver) => address < Pow2(70) && resolver < Pow2(70)
    }
  }

  datatype Branch = Branch(tag: bytes, trie: Trie)
  datatype Trie = Trie(terminal: Option<Export>, branches: seq<Branch>)

  predicate Proper(t: Trie)
    decreases t
  {
    && |t.branches| < 256
    && (t.terminal.Some? ==> t.terminal.value.Proper())
    && ProperBranches(t.branches)
  }

  predicate ProperBranches(bs: seq<Branch>)
    decreases bs
  {
    bs != [] ==> 0 !in bs[0].tag && Proper(bs[0].trie) && ProperBranches(bs[1..])
  }

  // ----- the bytes -----

  function BodyBytes(body: Body): bytes {
    match body
    case ToImport(ordinal, text) => Encode(ordinal) + (text + [0])
    case ToAddress(address) => Encode(address)
    case ToResolver(address, resolver) => Encode(address) + Encode(resolver)
  }

  function ExportBytes(e: Export): bytes {
    Encode(e.flags) + BodyBytes(e.body)
  }

  function HeadBytes(terminal: Option<Export>): bytes {
    match terminal
    case None => [0]
    case Some(e) => Encode(|ExportBytes(e)|) + ExportBytes(e)
  }

  /** A field of `k` bytes, whatever the number. */
  function Padded(n: nat, k: nat): (bs: bytes)
    requires k > 0
    ensures |bs| == k
  {
    if k == 1 then [n % 128] else [n % 128 + 128] + Padded(n / 128, k - 1)
  }

  /** An offset, in a field as wide as can be. */
  function OffsetBytes(n: nat): (bs: bytes)
    ensures |bs| == MAX_BYTES
  {
    Padded(n, MAX_BYTES)
  }

  function TrieSize(t: Trie): nat
    decreases t
  {
    |HeadBytes(t.terminal)| + 1 + LabelsSize(t.branches) + BranchesSize(t.branches)
  }

  function LabelsSize(bs: seq<Branch>): nat {
    if bs == [] then 0 else |bs[0].tag| + 1 + MAX_BYTES + LabelsSize(bs[1..])
  }

  function BranchesSize(bs: seq<Branch>): nat
    decreases bs
  {
    if bs == [] then 0 else TrieSize(bs[0].trie) + BranchesSize(bs[1..])
  }

  /** The trie, to stand at offset `at`. */
  function TrieBytes(t: Trie, at: nat): (bs: bytes)
    requires Proper(t)
    ensures |bs| == TrieSize(t)
    decreases t
  {
    var below := Below(t, at);
    HeadBytes(t.terminal) + ([|t.branches|] + (LabelBytes(t.branches, below) + BranchBytes(t.branches, below)))
  }

  /** Where the subtrees of a node at offset `at` begin. */
  function Below(t: Trie, at: nat): nat {
    at + |HeadBytes(t.terminal)| + 1 + LabelsSize(t.branches)
  }

  function LabelBytes(bs: seq<Branch>, at: nat): (r: bytes)
    ensures |r| == LabelsSize(bs)
  {
    if bs == [] then []
    else bs[0].tag + ([0] + (OffsetBytes(at) + LabelBytes(bs[1..], at + TrieSize(bs[0].trie))))
  }

  function BranchBytes(bs: seq<Branch>, at: nat): (r: bytes)
    requires ProperBranches(bs)
    ensures |r| == BranchesSize(bs)
    decreases bs
  {
    if bs == [] then [] else TrieBytes(bs[0].trie, at) + BranchBytes(bs[1..], at + TrieSize(bs[0].trie))
  }

  // ----- the tree it is -----

  function PayloadOf(body: Body, decode: bytes -> string): Payload {
    match body
    case ToImport(ordinal, text) => ReExport(ordinal, decode(text))
    case ToAddress(address) => Address(address)
    case ToResolver(address, resolver) => Resolved(address, resolver)
  }

  function TerminalOf(e: Export, decode: bytes -> string): Terminal {
    Terminal(e.flags, PayloadOf(e.body, decode))
  }

  function TreeOf(t: Trie, at: nat, decode: bytes -> string): (r: Tree)
    decreases t
  {
    Node(at, match t.terminal case None => None case Some(e) => Some(TerminalOf(e, decode)),
         EdgesOf(t.branches, Below(t, at), decode))
  }

  function EdgesOf(bs: seq<Branch>, at: nat, decode: bytes -> string): (r: seq<Edge>)
    ensures |r| == |bs|
    decreases bs
  {
    if bs == [] then []
    else [Edge(bs[0].tag, TreeOf(bs[0].trie, at, decode))] + EdgesOf(bs[1..], at + TrieSize(bs[0].trie), decode)
  }

  // ----- the tree is represented -----

  /** The bytes `bs` stand at `pos`. */
  predicate Stands(data: bytes, pos: nat, bs: bytes) {
    pos + |bs| <= |data| && data[pos..pos + |bs|] == bs
  }

  lemma StandsApart(data: bytes, pos: nat, xs: bytes, ys: bytes)
    requires Stands(data, pos, xs + ys)
    ensures Stands(data, pos, xs) && Stands(data, pos + |xs|, ys)
  {
    var all := data[pos..pos + |xs + ys|];
    assert data[pos..pos + |xs|] == all[..|xs|] == xs;
    assert data[pos + |xs|..pos + |xs| + |ys|] == all[|xs|..] == ys;
  }

  lemma NumberStands(data: bytes, pos: nat, n: nat)
    requires Stands(data, pos, Encode(n)) && n < Pow2(70)
    ensures UlebAt(data, pos, n, pos + |Encode(n)|)
  {
    hide Encode, Value, Pow2;
    var bs := Encode(n);
    EncodeShape(n);
    EncodeLength(n, MAX_BYTES);
    assert forall i :: pos <= i < pos + |bs| ==> data[i] == bs[i - pos];
  }

  lemma {:induction false} PaddedShape(n: nat, k: nat)
    requires k > 0 && n < Pow2(7 * k)
    ensures Value(Padded(n, k)) == n && Padded(n, k)[k - 1] < 128
    ensures forall i :: 0 <= i < k - 1 ==> Padded(n, k)[i] >= 128
  {
    hide Pow2, Value;
    Pow2Digit(k - 1);
    var bs := Padded(n, k);
    if k > 1 {
      PaddedShape(n / 128, k - 1);
      assert bs[1..] == Padded(n / 128, k - 1);
      ValueStep(bs);
    } else {
      OneDigit();
      assert bs[1..] == [];
      ValueStep(bs);
      EmptyValue();
    }
  }

  lemma ValueStep(bs: bytes)
    requires bs != []
    ensures Value(bs) == bs[0] % 128 + 128 * Value(bs[1..])
  {
  }

  lemma OneDigit()
    ensures Pow2(7 * 0) == 1
  {
  }

  lemma OffsetStands(data: bytes, pos: nat, n: nat)
    requires Stands(data, pos, OffsetBytes(n)) && n < Pow2(70)
    ensures UlebAt(data, pos, n, pos + MAX_BYTES)
  {
    hide Padded, Value, Pow2;
    var bs := Padded(n, MAX_BYTES);
    PaddedShape(n, MAX_BYTES);
    assert forall i :: pos <= i < pos + |bs| ==> data[i] == bs[i - pos];
  }

  lemma TextStands(data: bytes, pos: nat, text: bytes)
    requires Stands(data, pos, text + [0]) && 0 !in text
    ensures CstrAt(data, pos, text, pos + |text| + 1)
  {
    StandsApart(data, pos, text, [0]);
    assert data[pos + |text|..pos + |text| + 1] == [0];
    assert data[pos + |text|] == 0;
  }

  lemma BodyStands(img: Image, pos: nat, e: Export)
    requires Stands(img.data, pos, BodyBytes(e.body)) && e.Proper()
    ensures PayloadAt(img, e.flags, pos, PayloadOf(e.body, img.decode), pos + |BodyBytes(e.body)|)
  {
    hide Stands, Encode, UlebAt, CstrAt, IsReExport, HasResolver, Bit, Pow2;
    FlagBits(e.flags);
    match e.body {
      case ToImport(ordinal, text) =>
        StandsApart(img.data, pos, Encode(ordinal), text + [0]);
        NumberStands(img.data, pos, ordinal);
        TextStands(img.data, pos + |Encode(ordinal)|, text);
      case ToAddress(address) => NumberStands(img.data, pos, address);
      case ToResolver(address, resolver) =>
        StandsApart(img.data, pos, Encode(address), Encode(resolver));
        NumberStands(img.data, pos, address);
        NumberStands(img.data, pos + |Encode(address)|, resolver);
    }
  }

  lemma ExportStands(img: Image, pos: nat, e: Export)
    requires Stands(img.data, pos, ExportBytes(e)) && e.Proper()
    ensures TerminalAt(img, pos, TerminalOf(e, img.decode), pos + |ExportBytes(e)|)
  {
    hide Stands, Encode, UlebAt, PayloadAt, BodyBytes, PayloadOf, Pow2;
    StandsApart(img.data, pos, Encode(e.flags), BodyBytes(e.body));
    NumberStands(img.data, pos, e.flags);
    BodyStands(img, pos + |Encode(e.flags)|, e);
  }

  lemma HeadStands(img: Image, t: Trie, at: nat)
    requires Stands(img.data, at, HeadBytes(t.terminal)) && (t.terminal.Some? ==> t.terminal.value.Proper())
    ensures HeadAt(img, TreeOf(t, at, img.decode), at + |HeadBytes(t.terminal)|)
  {
    hide Stands, Encode, UlebAt, TerminalAt, TerminalOf, ExportBytes, EdgesOf, Pow2;
    match t.terminal {
      case None =>
        assert Encode(0) == [0] by { EncodeZero(); }
        NumberStands(img.data, at, 0);
      case Some(e) =>
        var size := |ExportBytes(e)|;
        StandsApart(img.data, at, Encode(size), ExportBytes(e));
        NumberStands(img.data, at, size);
        ExportStands(img, at + |Encode(size)|, e);
        ExportNotEmpty(e);
    }
  }

  lemma EncodeZero()
    ensures Encode(0) == [0]
  {
  }

  lemma ExportNotEmpty(e: Export)
    ensures |ExportBytes(e)| > 0
  {
  }

  lemma {:induction false} TrieStands(img: Image, t: Trie, at: nat)
    requires Proper(t) && Stands(img.data, at, TrieBytes(t, at)) && |img.data| < Pow2(70)
    ensures Represents(img, TreeOf(t, at, img.decode))
    decreases t
  {
    hide *;
    var head, below := HeadBytes(t.terminal), Below(t, at);
    SplitTrie(t, at);
    var rest := LabelBytes(t.branches, below) + BranchBytes(t.branches, below);
    StandsApart(img.data, at, head, [|t.branches|] + rest);
    StandsApart(img.data, at + |head|, [|t.branches|], rest);
    StandsApart(img.data, at + |head| + 1, LabelBytes(t.branches, below), BranchBytes(t.branches, below));
    HeadStands(img, t, at);
    BranchesStand(img, t.branches, at + |head| + 1, below);
    OneByte(img.data, at + |head|, |t.branches|);
    InData(img.data, at + |head|, [|t.branches|] + rest);
    NodeStands(img, TreeOf(t, at, img.decode), at + |head|);
  }

  lemma SplitTrie(t: Trie, at: nat)
    requires Proper(t)
    ensures |t.branches| < 256 && ProperBranches(t.branches)
    ensures t.terminal.Some? ==> t.terminal.value.Proper()
    ensures var below := Below(t, at);
            && TrieBytes(t, at) == HeadBytes(t.terminal)
                                   + ([|t.branches|]
                                      + (LabelBytes(t.branches, below) + BranchBytes(t.branches, below)))
            && |LabelBytes(t.branches, below)| == LabelsSize(t.branches)
            && below == at + |HeadBytes(t.terminal)| + 1 + LabelsSize(t.branches)
    ensures forall decode :: TreeOf(t, at, decode).offset == at
                             && TreeOf(t, at, decode).edges == EdgesOf(t.branches, Below(t, at), decode)
                             && |TreeOf(t, at, decode).edges| == |t.branches|
    ensures |HeadBytes(t.terminal)| > 0
  {
    hide LabelBytes, BranchBytes, EdgesOf, Encode, Export.Proper, ExportBytes;
  }

  lemma NodeStands(img: Image, t: Tree, end: nat)
    requires t.offset < end < |img.data| && HeadAt(img, t, end) && img.data[end] == |t.edges|
    requires EdgesAt(img, t.edges, end + 1)
    ensures Represents(img, t)
  {
    hide HeadAt, EdgesAt;
  }

  lemma OneByte(data: bytes, pos: nat, b: byte)
    requires Stands(data, pos, [b])
    ensures pos < |data| && data[pos] == b
  {
    assert data[pos..pos + 1][0] == b;
  }

  lemma {:induction false} BranchesStand(img: Image, bs: seq<Branch>, pos: nat, at: nat)
    requires ProperBranches(bs) && |img.data| < Pow2(70)
    requires Stands(img.data, pos, LabelBytes(bs, at)) && Stands(img.data, at, BranchBytes(bs, at))
    ensures EdgesAt(img, EdgesOf(bs, at, img.decode), pos)
    decreases bs
  {
    hide *;
    if bs == [] {
      NothingStands(img, at, pos);
    } else {
      var b, next := bs[0], at + TrieSize(bs[0].trie);
      var after := pos + |b.tag| + 1 + MAX_BYTES;
      SplitBranches(bs, at);
      LabelStands(img.data, pos, b.tag, OffsetBytes(at), LabelBytes(bs[1..], next));
      StandsApart(img.data, at, TrieBytes(b.trie, at), BranchBytes(bs[1..], next));
      InData(img.data, at, TrieBytes(b.trie, at));
      OffsetStands(img.data, pos + |b.tag| + 1, at);
      TrieStands(img, b.trie, at);
      BranchesStand(img, bs[1..], after, next);
      SplitEdges(bs, at, img.decode);
      EdgeStands(img, EdgesOf(bs, at, img.decode), pos, pos + |b.tag| + 1, after);
    }
  }

  lemma NothingStands(img: Image, at: nat, pos: nat)
    ensures EdgesAt(img, EdgesOf([], at, img.decode), pos)
  {
  }

  lemma SplitBranches(bs: seq<Branch>, at: nat)
    requires bs != [] && ProperBranches(bs)
    ensures 0 !in bs[0].tag && Proper(bs[0].trie) && ProperBranches(bs[1..])
    ensures var next := at + TrieSize(bs[0].trie);
            && LabelBytes(bs, at) == bs[0].tag + ([0] + (OffsetBytes(at) + LabelBytes(bs[1..], next)))
            && BranchBytes(bs, at) == TrieBytes(bs[0].trie, at) + BranchBytes(bs[1..], next)
            && |TrieBytes(bs[0].trie, at)| == TrieSize(bs[0].trie)
  {
    hide OffsetBytes, TrieBytes, TrieSize, Proper;
  }

  lemma SplitEdges(bs: seq<Branch>, at: nat, decode: bytes -> string)
    requires bs != []
    ensures var edges := EdgesOf(bs, at, decode);
            && edges != [] && edges[0].tag == bs[0].tag && edges[0].child == TreeOf(bs[0].trie, at, decode)
            && edges[0].child.offset == at && edges[1..] == EdgesOf(bs[1..], at + TrieSize(bs[0].trie), decode)
  {
    TreeStandsAt(bs[0].trie, at, decode);
  }

  lemma EdgeStands(img: Image, edges: seq<Edge>, pos: nat, p: nat, next: nat)
    requires edges != [] && CstrAt(img.data, pos, edges[0].tag, p) && UlebAt(img.data, p, edges[0].child.offset, next)
    requires Represents(img, edges[0].child) && EdgesAt(img, edges[1..], next)
    ensures EdgesAt(img, edges, pos)
  {
    hide CstrAt, UlebAt, Represents;
  }

  lemma TreeStandsAt(t: Trie, at: nat, decode: bytes -> string)
    ensures TreeOf(t, at, decode).offset == at
  {
  }

  lemma InData(data: bytes, pos: nat, bs: bytes)
    requires Stands(data, pos, bs)
    ensures pos <= |data|
  {
  }

  lemma LabelStands(data: bytes, pos: nat, tag: bytes, offset: bytes, rest: bytes)
    requires Stands(data, pos, tag + ([0] + (offset + rest))) && 0 !in tag
    ensures CstrAt(data, pos, tag, pos + |tag| + 1)
    ensures Stands(data, pos + |tag| + 1, offset) && Stands(data, pos + |tag| + 1 + |offset|, rest)
  {
    hide Stands, CstrAt;
    assert tag + ([0] + (offset + rest)) == (tag + [0]) + (offset + rest);
    StandsApart(data, pos, tag + [0], offset + rest);
    StandsApart(data, pos + |tag| + 1, offset, rest);
    TextStands(data, pos, tag);
  }

  // ----- what is decoded -----

  /** The exports of a trie, each with the labels on its path. */
  function Exports(t: Trie, name: string, decode: bytes -> string): (r: seq<(string, Terminal)>)
    decreases t
  {
    (if t.terminal.Some? then [(name, TerminalOf(t.terminal.value, decode))] else [])
    + BranchExports(t.branches, name, decode)
  }

  function BranchExports(bs: seq<Branch>, name: string, decode: bytes -> string): (r: seq<(string, Terminal)>)
    decreases bs
  {
    if bs == [] then []
    else Exports(bs[0].trie, name + decode(bs[0].tag), decode) + BranchExports(bs[1..], name, decode)
  }

  /** Rows without the offsets of their nodes. */
  function Plain(rows: seq<Row>): (r: seq<(string, Terminal)>)
    ensures |r| == |rows|
  {
    seq(|rows|, i requires 0 <= i < |rows| => (rows[i].name, rows[i].terminal))
  }

  lemma {:induction false} ExportsAreTerminals(img: Image, t: Trie, at: nat, name: string)
    ensures Plain(Terminals(img, TreeOf(t, at, img.decode), name)) == Exports(t, name, img.decode)
    decreases t
  {
    hide *;
    BranchExportsAreTerminals(img, t.branches, Below(t, at), name);
    TerminalsOf(img, t, at, name);
    PlainConcat(OwnRow(img, t, at, name), EdgeTerminals(img, EdgesOf(t.branches, Below(t, at), img.decode), name));
    OwnExport(img, t, at, name);
  }

  /** The row of the node itself. */
  function OwnRow(img: Image, t: Trie, at: nat, name: string): (rows: seq<Row>) {
    if t.terminal.Some? then [Row(name, at, TerminalOf(t.terminal.value, img.decode))] else []
  }

  lemma TerminalsOf(img: Image, t: Trie, at: nat, name: string)
    ensures Terminals(img, TreeOf(t, at, img.decode), name)
         == OwnRow(img, t, at, name) + EdgeTerminals(img, EdgesOf(t.branches, Below(t, at), img.decode), name)
  {
    hide TerminalOf, EdgesOf, EdgeTerminals, Below;
  }

  lemma OwnExport(img: Image, t: Trie, at: nat, name: string)
    ensures Exports(t, name, img.decode)
         == Plain(OwnRow(img, t, at, name)) + BranchExports(t.branches, name, img.decode)
  {
    hide TerminalOf, BranchExports;
  }

  lemma {:induction false} BranchExportsAreTerminals(img: Image, bs: seq<Branch>, at: nat, name: string)
    ensures Plain(EdgeTerminals(img, EdgesOf(bs, at, img.decode), name)) == BranchExports(bs, name, img.decode)
    decreases bs
  {
    if bs != [] {
      hide TreeOf, Terminals, Exports, TrieSize;
      var next, deeper := at + TrieSize(bs[0].trie), name + img.decode(bs[0].tag);
      var edges := EdgesOf(bs, at, img.decode);
      assert edges[1..] == EdgesOf(bs[1..], next, img.decode);
      ExportsAreTerminals(img, bs[0].trie, at, deeper);
      BranchExportsAreTerminals(img, bs[1..], next, name);
      PlainConcat(Terminals(img, TreeOf(bs[0].trie, at, img.decode), deeper),
                  EdgeTerminals(img, EdgesOf(bs[1..], next, img.decode), name));
    }
  }

  lemma PlainConcat(a: seq<Row>, b: seq<Row>)
    ensures Plain(a + b) == Plain(a) + Plain(b)
  {
  }

  /** Every trie that fits is decoded back: exactly its exports, sorted by name and otherwise in their order. */
  lemma EncodedTrieDecodes(t: Trie, decode: bytes -> string)
    requires Proper(t) && TrieSize(t) < Pow2(70)
    ensures var r := Decode(Image(TrieBytes(t, 0), decode));
            && r.Ok? && SortedByName(r.value)
            && exists rows :: Plain(rows) == Exports(t, "", decode) && r.value == SortByName(rows)
  {
    hide TrieBytes, Represents, Walk, Terminals, Exports, TreeOf, SortByName, SortedByName, Pow2, TrieSize;
    var img := Image(TrieBytes(t, 0), decode);
    assert img.data[0..0 + |img.data|] == img.data;
    TrieStands(img, t, 0);
    TreeStandsAt(t, 0, decode);
    WalkFinds(img, TreeOf(t, 0, decode), "", {});
    ExportsAreTerminals(img, t, 0, "");
  }
}
