/**
 The Mach-O export trie: a relation between bytes and the tree they represent, the recursive
 offset-jumping decoder, and the proof that the decoder finds exactly the represented tree.
 */
module ExportTrie {
  import opened Bits
  import opened Bytes
  import opened Options
  import opened Uleb

  /** The bytes of a trie and the text decoding applied to its labels. */
  datatype Image = Image(data: bytes, decode: bytes -> string)

  datatype Payload =
    | ReExport(ordinal: nat, importName: string)
    | Address(address: nat)
    | Resolved(address: nat, resolver: nat)

  datatype Terminal = Terminal(flags: nat, payload: Payload)

  datatype Edge = Edge(tag: bytes, child: Tree)
  datatype Tree = Node(offset: nat, terminal: Option<Terminal>, edges: seq<Edge>)

  datatype Row = Row(name: string, offset: nat, terminal: Terminal)

  // ----- zero-terminated strings -----

  /** Bytes `[pos, next)` are a string without zero bytes followed by one zero byte. */
  predicate CstrAt(data: bytes, pos: nat, text: bytes, next: nat) {
    && pos < next <= |data|
    && data[next - 1] == 0
    && text == data[pos..next - 1]
    && 0 !in text
  }

  function ZeroFrom(data: bytes, pos: nat): (r: Result<nat>)
    ensures r.Ok? ==> pos <= r.value < |data| && data[r.value] == 0 && 0 !in data[pos..r.value]
    ensures r.Err? ==> r.error == NoTerminator && (pos <= |data| ==> 0 !in data[pos..])
    decreases |data| - pos
  {
    if pos >= |data| then Err(NoTerminator)
    else if data[pos] == 0 then Ok(pos)
    else
      var r := ZeroFrom(data, pos + 1);
      assert r.Ok? ==> data[pos..r.value] == [data[pos]] + data[pos + 1..r.value];
      assert data[pos..] == [data[pos]] + data[pos + 1..];
      r
  }

  function ReadCstr(data: bytes, pos: nat): (r: Result<(bytes, nat)>)
    ensures r.Ok? ==> CstrAt(data, pos, r.value.0, r.value.1)
  {
    var end :- ZeroFrom(data, pos);
    Ok((data[pos..end], end + 1))
  }

  lemma {:induction false} ZeroFound(data: bytes, pos: nat, end: nat)
    requires pos <= end < |data| && data[end] == 0
    requires forall i :: pos <= i < end ==> data[i] != 0
    ensures ZeroFrom(data, pos) == Ok(end)
    decreases end - pos
  {
    if pos < end {
      ZeroFound(data, pos + 1, end);
    }
  }

  lemma ReadCstrExactly(data: bytes, pos: nat, text: bytes, next: nat)
    ensures CstrAt(data, pos, text, next) <==> ReadCstr(data, pos) == Ok((text, next))
  {
    hide ZeroFrom;
    if CstrAt(data, pos, text, next) {
      assert forall i :: pos <= i < next - 1 ==> data[i] == text[i - pos];
      ZeroFound(data, pos, next - 1);
    }
  }

  // ----- which bytes represent which tree -----

  predicate IsReExport(flags: nat) {
    And(flags, 8) != 0
  }

  predicate HasResolver(flags: nat) {
    And(flags, 16) != 0
  }

  /** The flag of a re-export is bit 3 and that of a resolver bit 4. */
  lemma FlagBits(flags: nat)
    ensures IsReExport(flags) <==> Bit(flags, 3)
    ensures HasResolver(flags) <==> Bit(flags, 4)
  {
    hide And, Bit;
    AndSingleBit(flags, 3);
    AndSingleBit(flags, 4);
    assert Pow2(3) == 8 && Pow2(4) == 16;
  }

  /** The bits of the flags tell the kind of the payload. */
  predicate OfKind(t: Terminal) {
    && (t.payload.ReExport? <==> Bit(t.flags, 3))
    && (t.payload.Resolved? <==> !Bit(t.flags, 3) && Bit(t.flags, 4))
  }

  /** Bytes `[pos, next)` are the payload of a terminal with these flags. */
  ghost predicate PayloadAt(img: Image, flags: nat, pos: nat, payload: Payload, next: nat) {
    if IsReExport(flags) then
      && payload.ReExport?
      && exists p: nat, text :: && UlebAt(img.data, pos, payload.ordinal, p)
                           && CstrAt(img.data, p, text, next)
                           && payload.importName == img.decode(text)
    else if HasResolver(flags) then
      && payload.Resolved?
      && exists p: nat :: UlebAt(img.data, pos, payload.address, p) && UlebAt(img.data, p, payload.resolver, next)
    else
      && payload.Address?
      && UlebAt(img.data, pos, payload.address, next)
  }

  ghost predicate TerminalAt(img: Image, pos: nat, t: Terminal, next: nat) {
    exists p: nat :: UlebAt(img.data, pos, t.flags, p) && PayloadAt(img, t.flags, p, t.payload, next)
  }

  /** The head of node `t`: the size of its terminal part, then that part, up to position `end`. */
  ghost predicate HeadAt(img: Image, t: Tree, end: nat) {
    exists size: nat, body: nat ::
      && UlebAt(img.data, t.offset, size, body)
      && (t.terminal.Some? <==> size > 0)
      && (size > 0 ==> TerminalAt(img, body, t.terminal.value, body + size))
      && end == body + size
  }

  /** A node: its head, a byte counting the edges, the edges. */
  ghost predicate Represents(img: Image, t: Tree)
    decreases t
  {
    && t.offset < |img.data|
    && exists end: nat :: && HeadAt(img, t, end) && end < |img.data|
                          && img.data[end] == |t.edges| && EdgesAt(img, t.edges, end + 1)
  }

  /** An edge: a label and the offset of the child, which may lie anywhere in the bytes. */
  ghost predicate EdgesAt(img: Image, edges: seq<Edge>, pos: nat)
    decreases edges
  {
    edges != [] ==>
      exists p: nat, next: nat ::
        && CstrAt(img.data, pos, edges[0].tag, p)
        && UlebAt(img.data, p, edges[0].child.offset, next)
        && Represents(img, edges[0].child)
        && EdgesAt(img, edges[1..], next)
  }

  // ----- what a tree exports -----

  /** The terminals in the order of a depth-first walk, each named by the labels on its path. */
  function Terminals(img: Image, t: Tree, name: string): (rows: seq<Row>)
    decreases t
  {
    (if t.terminal.Some? then [Row(name, t.offset, t.terminal.value)] else []) + EdgeTerminals(img, t.edges, name)
  }

  function EdgeTerminals(img: Image, edges: seq<Edge>, name: string): (rows: seq<Row>)
    decreases edges
  {
    if edges == [] then []
    else Terminals(img, edges[0].child, name + img.decode(edges[0].tag)) + EdgeTerminals(img, edges[1..], name)
  }

  // ----- the decoder -----

  function ReadPayload(img: Image, flags: nat, pos: nat): (r: Result<(Payload, nat)>)
  {
    if IsReExport(flags) then
      var (ordinal, p) :- Read(img.data, pos);
      var (text, next) :- ReadCstr(img.data, p);
      Ok((ReExport(ordinal, img.decode(text)), next))
    else
      var (address, p) :- Read(img.data, pos);
      if HasResolver(flags) then
        var (resolver, next) :- Read(img.data, p);
        Ok((Resolved(address, resolver), next))
      else
        Ok((Address(address), p))
  }

  /** The terminal part of a node, which must fill exactly the declared size. */
  function ReadTerminal(img: Image, pos: nat, end: nat): (r: Result<Terminal>)
  {
    var (flags, p) :- Read(img.data, pos);
    var (payload, next) :- ReadPayload(img, flags, p);
    if next != end then Err(UnconsumedTerminal) else Ok(Terminal(flags, payload))
  }

  /** The terminal of the node at `offset` and the position of its edge count. */
  function ReadNode(img: Image, offset: nat): (r: Result<(Option<Terminal>, nat)>)
  {
    var (size, body) :- Read(img.data, offset);
    if size == 0 then Ok((None, body))
    else
      var t :- ReadTerminal(img, body, body + size);
      Ok((Some(t), body + size))
  }

  predicate InData(img: Image, ancestors: set<nat>) {
    forall a :: a in ancestors ==> a < |img.data|
  }

  /** Offsets into the data are no more than the data is long: the walk cannot go deeper. */
  lemma {:induction false} OffsetsBounded(s: set<nat>, n: nat)
    requires forall a :: a in s ==> a < n
    ensures |s| <= n
  {
    if n > 0 {
      OffsetsBounded(s - {n - 1}, n - 1);
    } else {
      assert s == {};
    }
  }

  function Room(img: Image, ancestors: set<nat>): (room: nat)
    requires InData(img, ancestors)
    ensures room == |img.data| - |ancestors|
  {
    OffsetsBounded(ancestors, |img.data|);
    |img.data| - |ancestors|
  }

  function Walk(img: Image, offset: nat, name: string, ancestors: set<nat>): (r: Result<seq<Row>>)
    requires InData(img, ancestors)
    decreases Room(img, ancestors), 0, 0
  {
    if offset in ancestors || offset >= |img.data| then Err(InvalidTrie)
    else
      var (terminal, end) :- ReadNode(img, offset);
      if end >= |img.data| then Err(OutOfBytes)
      else
        var below :- WalkEdges(img, img.data[end], end + 1, name, ancestors + {offset});
        Ok((if terminal.Some? then [Row(name, offset, terminal.value)] else []) + below)
  }

  function WalkEdges(img: Image, count: nat, pos: nat, name: string, ancestors: set<nat>): (r: Result<seq<Row>>)
    requires InData(img, ancestors)
    decreases Room(img, ancestors), 1, count
  {
    if count == 0 then Ok([])
    else
      var (tag, p) :- ReadCstr(img.data, pos);
      var (child, next) :- Read(img.data, p);
      var first :- Walk(img, child, name + img.decode(tag), ancestors);
      var rest :- WalkEdges(img, count - 1, next, name, ancestors);
      Ok(first + rest)
  }

  // ----- the readers against the layout -----

  lemma PayloadExactly(img: Image, flags: nat, pos: nat, payload: Payload, next: nat)
    ensures PayloadAt(img, flags, pos, payload, next) <==> ReadPayload(img, flags, pos) == Ok((payload, next))
  {
    hide UlebAt, CstrAt, Read, ReadCstr, IsReExport, HasResolver;
    if PayloadAt(img, flags, pos, payload, next) {
      if IsReExport(flags) {
        var p: nat, text :| UlebAt(img.data, pos, payload.ordinal, p) && CstrAt(img.data, p, text, next)
                       && payload.importName == img.decode(text);
        ReadExactly(img.data, pos, payload.ordinal, p);
        ReadCstrExactly(img.data, p, text, next);
      } else if HasResolver(flags) {
        var p: nat :| UlebAt(img.data, pos, payload.address, p) && UlebAt(img.data, p, payload.resolver, next);
        ReadExactly(img.data, pos, payload.address, p);
        ReadExactly(img.data, p, payload.resolver, next);
      } else {
        ReadExactly(img.data, pos, payload.address, next);
      }
    }
  }

  lemma PayloadKind(img: Image, flags: nat, pos: nat, payload: Payload, next: nat)
    requires PayloadAt(img, flags, pos, payload, next)
    ensures OfKind(Terminal(flags, payload))
  {
    hide Bit, UlebAt, CstrAt, IsReExport, HasResolver;
    FlagBits(flags);
  }

  /** A terminal is read exactly if it is there, filling its size; its flags tell what it holds. */
  lemma TerminalExactly(img: Image, pos: nat, t: Terminal, end: nat)
    ensures TerminalAt(img, pos, t, end) <==> ReadTerminal(img, pos, end) == Ok(t)
    ensures TerminalAt(img, pos, t, end) ==> OfKind(t)
  {
    hide UlebAt, PayloadAt, Read, ReadPayload, OfKind;
    if TerminalAt(img, pos, t, end) {
      var p: nat :| UlebAt(img.data, pos, t.flags, p) && PayloadAt(img, t.flags, p, t.payload, end);
      ReadExactly(img.data, pos, t.flags, p);
      PayloadExactly(img, t.flags, p, t.payload, end);
      PayloadKind(img, t.flags, p, t.payload, end);
    }
    if ReadTerminal(img, pos, end) == Ok(t) {
      var (flags, p) := Read(img.data, pos).value;
      var (payload, next) := ReadPayload(img, flags, p).value;
      PayloadExactly(img, flags, p, payload, next);
    }
  }

  lemma HeadExactly(img: Image, t: Tree, end: nat)
    ensures HeadAt(img, t, end) <==> ReadNode(img, t.offset) == Ok((t.terminal, end))
  {
    hide UlebAt, TerminalAt, Read, ReadTerminal;
    if HeadAt(img, t, end) {
      var size: nat, body: nat :| && UlebAt(img.data, t.offset, size, body)
                        && (t.terminal.Some? <==> size > 0)
                        && (size > 0 ==> TerminalAt(img, body, t.terminal.value, body + size))
                        && end == body + size;
      ReadExactly(img.data, t.offset, size, body);
      if size > 0 {
        TerminalExactly(img, body, t.terminal.value, body + size);
      }
    }
    if ReadNode(img, t.offset) == Ok((t.terminal, end)) {
      var (size, body) := Read(img.data, t.offset).value;
      if size > 0 {
        TerminalExactly(img, body, t.terminal.value, body + size);
      }
    }
  }

  // ----- a place represents at most one tree -----

  lemma {:induction false} RepresentedOnce(img: Image, t: Tree, u: Tree)
    requires Represents(img, t) && Represents(img, u) && t.offset == u.offset
    ensures t == u
    decreases t
  {
    hide HeadAt, EdgesAt, ReadNode;
    var end: nat :| HeadAt(img, t, end) && end < |img.data| && img.data[end] == |t.edges|
        && EdgesAt(img, t.edges, end + 1);
    var end': nat :| HeadAt(img, u, end') && end' < |img.data| && img.data[end'] == |u.edges|
        && EdgesAt(img, u.edges, end' + 1);
    HeadExactly(img, t, end);
    HeadExactly(img, u, end');
    EdgesRepresentedOnce(img, t.edges, u.edges, end + 1);
  }

  lemma {:induction false} EdgesRepresentedOnce(img: Image, es: seq<Edge>, fs: seq<Edge>, pos: nat)
    requires |es| == |fs| && EdgesAt(img, es, pos) && EdgesAt(img, fs, pos)
    ensures es == fs
    decreases es
  {
    hide Represents, CstrAt, UlebAt;
    if es != [] {
      var e, f := es[0], fs[0];
      var p: nat, next: nat :| CstrAt(img.data, pos, e.tag, p) && UlebAt(img.data, p, e.child.offset, next)
                               && Represents(img, e.child) && EdgesAt(img, es[1..], next);
      var p': nat, next': nat :| CstrAt(img.data, pos, f.tag, p') && UlebAt(img.data, p', f.child.offset, next')
                                 && Represents(img, f.child) && EdgesAt(img, fs[1..], next');
      ReadCstrExactly(img.data, pos, e.tag, p);
      ReadCstrExactly(img.data, pos, f.tag, p');
      ReadExactly(img.data, p, e.child.offset, next);
      ReadExactly(img.data, p, f.child.offset, next');
      RepresentedOnce(img, e.child, f.child);
      EdgesRepresentedOnce(img, es[1..], fs[1..], next);
      assert es == [e] + es[1..] && fs == [f] + fs[1..];
    }
  }

  // ----- no node is below itself -----

  function Offsets(t: Tree): (s: set<nat>)
    ensures t.offset in s
    decreases t
  {
    {t.offset} + EdgeOffsets(t.edges)
  }

  function EdgeOffsets(edges: seq<Edge>): (s: set<nat>)
    decreases edges
  {
    if edges == [] then {} else Offsets(edges[0].child) + EdgeOffsets(edges[1..])
  }

  function Size(t: Tree): (n: nat)
    decreases t
  {
    1 + EdgesSize(t.edges)
  }

  function EdgesSize(edges: seq<Edge>): (n: nat)
    decreases edges
  {
    if edges == [] then 0 else Size(edges[0].child) + EdgesSize(edges[1..])
  }

  /** The node at offset `o` inside a represented tree is itself represented there. */
  lemma {:induction false} NodeBelow(img: Image, t: Tree, o: nat) returns (u: Tree)
    requires Represents(img, t) && o in Offsets(t)
    ensures Represents(img, u) && u.offset == o && Size(u) <= Size(t)
    decreases t
  {
    hide HeadAt;
    if o == t.offset {
      u := t;
    } else {
      var end: nat :| HeadAt(img, t, end) && end < |img.data| && img.data[end] == |t.edges|
          && EdgesAt(img, t.edges, end + 1);
      u := NodeBelowEdges(img, t.edges, end + 1, o);
    }
  }

  lemma {:induction false} NodeBelowEdges(img: Image, edges: seq<Edge>, pos: nat, o: nat) returns (u: Tree)
    requires EdgesAt(img, edges, pos) && o in EdgeOffsets(edges)
    ensures Represents(img, u) && u.offset == o && Size(u) <= EdgesSize(edges)
    decreases edges
  {
    hide Represents, CstrAt, UlebAt;
    var p: nat, next: nat :| CstrAt(img.data, pos, edges[0].tag, p) && UlebAt(img.data, p, edges[0].child.offset, next)
                             && Represents(img, edges[0].child) && EdgesAt(img, edges[1..], next);
    if o in Offsets(edges[0].child) {
      u := NodeBelow(img, edges[0].child, o);
    } else {
      u := NodeBelowEdges(img, edges[1..], next, o);
    }
  }

  /** A represented tree cannot contain its own root again: that would be an infinite tree. */
  lemma RootNotBelow(img: Image, t: Tree, end: nat)
    requires Represents(img, t)
    requires HeadAt(img, t, end) && end < |img.data| && img.data[end] == |t.edges| && EdgesAt(img, t.edges, end + 1)
    ensures t.offset !in EdgeOffsets(t.edges)
  {
    hide HeadAt, EdgesAt, EdgeOffsets, EdgesSize, Represents;
    if t.offset in EdgeOffsets(t.edges) {
      var u := NodeBelowEdges(img, t.edges, end + 1, t.offset);
      RepresentedOnce(img, t, u);
    }
  }

  // ----- completeness: a represented tree is found -----

  lemma {:induction false} WalkFinds(img: Image, t: Tree, name: string, ancestors: set<nat>)
    requires Represents(img, t) && InData(img, ancestors) && ancestors !! Offsets(t)
    ensures Walk(img, t.offset, name, ancestors) == Ok(Terminals(img, t, name))
    decreases t
  {
    hide HeadAt, ReadNode, WalkEdges, Walk, Terminals, EdgesAt;
    var end: nat :| HeadAt(img, t, end) && end < |img.data| && img.data[end] == |t.edges|
        && EdgesAt(img, t.edges, end + 1);
    RootNotBelow(img, t, end);
    HeadExactly(img, t, end);
    WalkFindsEdges(img, t.edges, end + 1, name, ancestors + {t.offset});
    WalkStep(img, t, end, name, ancestors);
  }

  /** A node whose head and edges are read is walked to its own terminal and those below. */
  lemma WalkStep(img: Image, t: Tree, end: nat, name: string, ancestors: set<nat>)
    requires InData(img, ancestors) && t.offset !in ancestors && t.offset < |img.data|
    requires ReadNode(img, t.offset) == Ok((t.terminal, end)) && end < |img.data| && img.data[end] == |t.edges|
    requires WalkEdges(img, |t.edges|, end + 1, name, ancestors + {t.offset}) == Ok(EdgeTerminals(img, t.edges, name))
    ensures Walk(img, t.offset, name, ancestors) == Ok(Terminals(img, t, name))
  {
    hide ReadNode, WalkEdges, EdgeTerminals;
  }

  lemma {:induction false} WalkFindsEdges(img: Image, edges: seq<Edge>, pos: nat, name: string, ancestors: set<nat>)
    requires EdgesAt(img, edges, pos) && InData(img, ancestors) && ancestors !! EdgeOffsets(edges)
    ensures WalkEdges(img, |edges|, pos, name, ancestors) == Ok(EdgeTerminals(img, edges, name))
    decreases edges
  {
    hide Represents, CstrAt, UlebAt, Walk, Terminals, Offsets;
    if edges != [] {
      var e := edges[0];
      var p: nat, next: nat :| CstrAt(img.data, pos, e.tag, p) && UlebAt(img.data, p, e.child.offset, next)
                               && Represents(img, e.child) && EdgesAt(img, edges[1..], next);
      ReadCstrExactly(img.data, pos, e.tag, p);
      ReadExactly(img.data, p, e.child.offset, next);
      WalkFinds(img, e.child, name + img.decode(e.tag), ancestors);
      WalkFindsEdges(img, edges[1..], next, name, ancestors);
    }
  }

  // ----- soundness: whatever is found is represented -----

  lemma {:induction false} WalkRepresents(img: Image, offset: nat, name: string, ancestors: set<nat>) returns (t: Tree)
    requires InData(img, ancestors) && Walk(img, offset, name, ancestors).Ok?
    ensures Represents(img, t) && t.offset == offset
    ensures Walk(img, offset, name, ancestors).value == Terminals(img, t, name)
    decreases Room(img, ancestors), 0, 0
  {
    hide HeadAt, ReadNode, WalkEdges, EdgeTerminals;
    var (terminal, end) := ReadNode(img, offset).value;
    var edges := WalkRepresentsEdges(img, img.data[end], end + 1, name, ancestors + {offset});
    t := Node(offset, terminal, edges);
    HeadExactly(img, t, end);
  }

  lemma {:induction false} WalkRepresentsEdges(img: Image, count: nat, pos: nat, name: string, ancestors: set<nat>)
    returns (edges: seq<Edge>)
    requires InData(img, ancestors) && WalkEdges(img, count, pos, name, ancestors).Ok?
    ensures |edges| == count && EdgesAt(img, edges, pos)
    ensures WalkEdges(img, count, pos, name, ancestors).value == EdgeTerminals(img, edges, name)
    decreases Room(img, ancestors), 1, count
  {
    hide Represents, CstrAt, UlebAt, Walk, Terminals;
    if count == 0 {
      edges := [];
    } else {
      var (tag, p) := ReadCstr(img.data, pos).value;
      var (child, next) := Read(img.data, p).value;
      var t := WalkRepresents(img, child, name + img.decode(tag), ancestors);
      var rest := WalkRepresentsEdges(img, count - 1, next, name, ancestors);
      edges := [Edge(tag, t)] + rest;
      assert edges[0] == Edge(tag, t) && edges[1..] == rest;
      assert CstrAt(img.data, pos, edges[0].tag, p) && UlebAt(img.data, p, edges[0].child.offset, next);
    }
  }

  // ----- sorting by name -----

  /** Lexicographic order by code point. */
  predicate NameLeq(a: string, b: string) {
    if a == [] then true
    else if b == [] then false
    else if a[0] != b[0] then a[0] < b[0]
    else NameLeq(a[1..], b[1..])
  }

  lemma {:induction false} NameLeqTotal(a: string, b: string)
    ensures NameLeq(a, b) || NameLeq(b, a)
    ensures NameLeq(a, b) && NameLeq(b, a) ==> a == b
  {
    if a != [] && b != [] && a[0] == b[0] {
      NameLeqTotal(a[1..], b[1..]);
      assert a == [a[0]] + a[1..] && b == [b[0]] + b[1..];
    }
  }

  lemma {:induction false} NameLeqTransitive(a: string, b: string, c: string)
    requires NameLeq(a, b) && NameLeq(b, c)
    ensures NameLeq(a, c)
  {
    if a != [] && a[0] == b[0] == c[0] {
      NameLeqTransitive(a[1..], b[1..], c[1..]);
    }
  }

  predicate SortedByName(rows: seq<Row>) {
    forall i, j :: 0 <= i < j < |rows| ==> NameLeq(rows[i].name, rows[j].name)
  }

  /** The rows with a given name, in their order. */
  function Named(rows: seq<Row>, name: string): (r: seq<Row>) {
    if rows == [] then []
    else (if rows[0].name == name then [rows[0]] else []) + Named(rows[1..], name)
  }

  function Insert(row: Row, rows: seq<Row>): (r: seq<Row>)
    ensures multiset(r) == multiset{row} + multiset(rows)
  {
    if rows == [] then [row]
    else if NameLeq(row.name, rows[0].name) then [row] + rows
    else
      assert rows == [rows[0]] + rows[1..];
      [rows[0]] + Insert(row, rows[1..])
  }

  /** A stable sort by name. */
  function SortByName(rows: seq<Row>): (r: seq<Row>)
    ensures multiset(r) == multiset(rows)
  {
    if rows == [] then []
    else
      assert rows == [rows[0]] + rows[1..];
      Insert(rows[0], SortByName(rows[1..]))
  }

  lemma {:induction false} InsertSorted(row: Row, rows: seq<Row>)
    requires SortedByName(rows)
    ensures SortedByName(Insert(row, rows))
    ensures forall name :: NameLeq(name, row.name) && (rows != [] ==> NameLeq(name, rows[0].name)) ==>
              NameLeq(name, Insert(row, rows)[0].name)
  {
    if rows != [] {
      if NameLeq(row.name, rows[0].name) {
        forall j | 0 <= j < |rows| ensures NameLeq(row.name, rows[j].name) {
          NameLeqTotal(rows[0].name, rows[0].name);
          NameLeqTransitive(row.name, rows[0].name, rows[j].name);
        }
      } else {
        var rest := Insert(row, rows[1..]);
        NameLeqTotal(row.name, rows[0].name);
        InsertSorted(row, rows[1..]);
        forall j | 0 <= j < |rest| ensures NameLeq(rows[0].name, rest[j].name) {
          NameLeqTotal(rest[0].name, rest[0].name);
          NameLeqTransitive(rows[0].name, rest[0].name, rest[j].name);
        }
      }
    }
  }

  lemma {:induction false} SortSorts(rows: seq<Row>)
    ensures SortedByName(SortByName(rows))
  {
    if rows != [] {
      SortSorts(rows[1..]);
      InsertSorted(rows[0], SortByName(rows[1..]));
    }
  }

  lemma NamedCons(row: Row, rows: seq<Row>, name: string)
    ensures Named([row] + rows, name) == (if row.name == name then [row] else []) + Named(rows, name)
  {
    assert ([row] + rows)[1..] == rows;
  }

  lemma InsertCases(row: Row, rows: seq<Row>)
    ensures rows == [] ==> Insert(row, rows) == [row] + rows
    ensures rows != [] && NameLeq(row.name, rows[0].name) ==> Insert(row, rows) == [row] + rows
    ensures rows != [] && !NameLeq(row.name, rows[0].name) ==> Insert(row, rows) == [rows[0]] + Insert(row, rows[1..])
  {
    hide NameLeq;
  }

  lemma {:induction false} InsertStable(row: Row, rows: seq<Row>, name: string)
    ensures Named(Insert(row, rows), name) == (if row.name == name then [row] else []) + Named(rows, name)
  {
    hide *;
    InsertCases(row, rows);
    NamedCons(row, rows, name);
    if rows != [] && !NameLeq(row.name, rows[0].name) {
      NameLeqTotal(row.name, rows[0].name);
      NameLeqTotal(row.name, row.name);
      NamedCons(rows[0], Insert(row, rows[1..]), name);
      NamedCons(rows[0], rows[1..], name);
      assert rows == [rows[0]] + rows[1..];
      InsertStable(row, rows[1..], name);
    }
  }

  /** Rows with equal names keep their order. */
  lemma {:induction false} SortStable(rows: seq<Row>, name: string)
    ensures Named(SortByName(rows), name) == Named(rows, name)
  {
    if rows != [] {
      SortStable(rows[1..], name);
      InsertStable(rows[0], SortByName(rows[1..]), name);
    }
  }

  // ----- the whole decoder -----

  function Decode(img: Image): (r: Result<seq<Row>>)
    ensures r.Ok? ==> SortedByName(r.value)
  {
    var rows :- Walk(img, 0, "", {});
    SortSorts(rows);
    Ok(SortByName(rows))
  }

  /** The bytes decode to `rows` exactly if they represent a tree whose sorted terminals are `rows`. */
  lemma DecodesExactlyTries(img: Image, rows: seq<Row>)
    ensures Decode(img) == Ok(rows) <==>
      exists t: Tree :: Represents(img, t) && t.offset == 0 && rows == SortByName(Terminals(img, t, ""))
  {
    hide Represents, Walk, Terminals, SortByName;
    if Decode(img) == Ok(rows) {
      var t := WalkRepresents(img, 0, "", {});
    }
    if exists t: Tree :: Represents(img, t) && t.offset == 0 && rows == SortByName(Terminals(img, t, "")) {
      var t: Tree :| Represents(img, t) && t.offset == 0 && rows == SortByName(Terminals(img, t, ""));
      WalkFinds(img, t, "", {});
    }
  }

  /** The decoder's traversal: recursive calls append to one shared list. */
  class TrieDecoder {
    const img: Image
    var found: seq<Row>

    constructor (img: Image)
      ensures this.img == img && found == []
    {
      this.img := img;
      found := [];
    }

    method ReadTerminalRow(name: string, offset: nat) returns (r: Result<nat>)
      modifies this
      ensures r == match ReadNode(img, offset) case Ok(head) => Ok(head.1) case Err(e) => Err(e)
      ensures found == old(found) + match ReadNode(img, offset)
                case Ok((Some(t), _)) => [Row(name, offset, t)]
                case _ => []
    {
      hide Read, ReadPayload;
      var head :- ReadUleb(img.data, offset);
      var size, pos := head.0, head.1;
      var end := pos + size;
      if size != 0 {
        var field :- ReadUleb(img.data, pos);
        var flags := field.0;
        var body :- ReadPayload(img, flags, field.1);
        var payload, next := body.0, body.1;
        if next != end {
          return Err(UnconsumedTerminal);
        }
        found := found + [Row(name, offset, Terminal(flags, payload))];
      }
      return Ok(end);
    }

    method WalkNode(offset: nat, name: string, ancestors: set<nat>) returns (r: Result<()>)
      requires InData(img, ancestors)
      modifies this
      ensures match Walk(img, offset, name, ancestors)
              case Ok(rows) => r == Ok(()) && found == old(found) + rows
              case Err(e) => r == Err(e)
      decreases Room(img, ancestors)
    {
      hide ReadNode, WalkEdges, Walk;
      WalkUnfolds(img, offset, name, ancestors);
      if offset in ancestors || offset >= |img.data| {
        return Err(InvalidTrie);
      }
      var end :- ReadTerminalRow(name, offset);
      if end >= |img.data| {
        return Err(OutOfBytes);
      }
      ghost var before := found;
      var count: nat, pos: nat, below := img.data[end], end + 1, ancestors + {offset};
      ghost var all := WalkEdges(img, count, pos, name, below);
      while count > 0
        invariant match WalkEdges(img, count, pos, name, below)
                  case Ok(rest) => all.Ok? && before + all.value == found + rest
                  case Err(e) => all == Err(e)
        decreases count
      {
        EdgesStep(img, count, pos, name, below);
        var text :- ReadCstr(img.data, pos);
        var target :- ReadUleb(img.data, text.1);
        var _ :- WalkNode(target.0, name + img.decode(text.0), below);
        count, pos := count - 1, target.1;
      }
      EdgesStep(img, count, pos, name, below);
      assert found == before + all.value;
      return Ok(());
    }

    /** `export_trie`, for a decoder that has found nothing yet. */
    method ExportTrie() returns (r: Result<seq<Row>>)
      requires found == []
      modifies this
      ensures r == Decode(img)
    {
      var _ :- WalkNode(0, "", {});
      assert found == Walk(img, 0, "", {}).value;
      return Ok(SortByName(found));
    }
  }

  lemma WalkUnfolds(img: Image, offset: nat, name: string, ancestors: set<nat>)
    requires InData(img, ancestors)
    ensures offset in ancestors || offset >= |img.data| ==> Walk(img, offset, name, ancestors) == Err(InvalidTrie)
    ensures offset !in ancestors && offset < |img.data| ==>
              Walk(img, offset, name, ancestors) == WalkFrom(img, offset, name, ancestors)
  {
    hide ReadNode, WalkEdges;
  }

  /** The node, then what is below it. */
  function WalkFrom(img: Image, offset: nat, name: string, ancestors: set<nat>): (r: Result<seq<Row>>)
    requires InData(img, ancestors) && offset < |img.data|
  {
    match ReadNode(img, offset)
    case Err(e) => Err(e)
    case Ok((terminal, end)) =>
      if end >= |img.data| then Err(OutOfBytes)
      else
        match WalkEdges(img, img.data[end], end + 1, name, ancestors + {offset})
        case Err(e) => Err(e)
        case Ok(below) => Ok((if terminal.Some? then [Row(name, offset, terminal.value)] else []) + below)
  }

  lemma EdgesStep(img: Image, count: nat, pos: nat, name: string, below: set<nat>)
    requires InData(img, below)
    ensures count == 0 ==> WalkEdges(img, count, pos, name, below) == Ok([])
    ensures count > 0 ==> WalkEdges(img, count, pos, name, below) == EdgesFrom(img, count, pos, name, below)
  {
    hide Read, ReadCstr, Walk;
  }

  /** The first edge, then the rest. */
  function EdgesFrom(img: Image, count: nat, pos: nat, name: string, below: set<nat>): (r: Result<seq<Row>>)
    requires InData(img, below) && count > 0
  {
    match ReadCstr(img.data, pos)
    case Err(e) => Err(e)
    case Ok((tag, p)) =>
      match Read(img.data, p)
      case Err(e) => Err(e)
      case Ok((child, next)) =>
        match Walk(img, child, name + img.decode(tag), below)
        case Err(e) => Err(e)
        case Ok(first) =>
          match WalkEdges(img, count - 1, next, name, below)
          case Err(e) => Err(e)
          case Ok(rest) => Ok(first + rest)
  }
}
