/**
 The byte format of node files: what the writer emits, what the parser makes of any byte
 string, and the proof that the second undoes the first.

 A node is START, a type byte, its escaped property bytes, its children and END. The parser
 leaves a first-child/next-sibling tree of records that hold offsets into the file; property
 bytes are read and unescaped on demand.
 */
module NodeFormat {
  import opened Wrappers

  type byte = x: int | 0 <= x < 256

  /** The bytes s stand in the file at offset at. */
  predicate Stands(file: seq<byte>, at: nat, s: seq<byte>) {
    at + |s| <= |file| && file[at..at + |s|] == s
  }

  lemma StandsParts(file: seq<byte>, at: nat, s: seq<byte>, t: seq<byte>)
    ensures Stands(file, at, s + t) <==> Stands(file, at, s) && Stands(file, at + |s|, t)
  {
    if at + |s + t| <= |file| {
      var d := file[at..at + |s + t|];
      assert d[..|s|] == file[at..at + |s|];
      assert d[|s|..] == file[at + |s|..at + |s| + |t|];
      assert (s + t)[..|s|] == s && (s + t)[|s|..] == t;
      assert d == d[..|s|] + d[|s|..];
    }
  }

  const NODE_START: byte := 0xFE
  const NODE_END: byte := 0xFF
  const ESCAPE_CHAR: byte := 0xFD

  predicate Special(b: byte) {
    b == NODE_START || b == NODE_END || b == ESCAPE_CHAR
  }

  // ---------------------------------------------------------------------------------------
  // Escaping

  /** The bytes written for one data byte. */
  function EscapeByte(b: byte): seq<byte> {
    if Special(b) then [ESCAPE_CHAR, b] else [b]
  }

  function Escape(s: seq<byte>): seq<byte> {
    if s == [] then [] else EscapeByte(s[0]) + Escape(s[1..])
  }

  /** No escape character stands last, without the byte it protects. */
  predicate WellEscaped(s: seq<byte>) {
    s == [] || (if s[0] == ESCAPE_CHAR then |s| >= 2 && WellEscaped(s[2..]) else WellEscaped(s[1..]))
  }

  /** Each escape character dropped, the byte after it kept. */
  function Unescape(s: seq<byte>): seq<byte>
    requires WellEscaped(s)
  {
    if s == [] then []
    else if s[0] == ESCAPE_CHAR then [s[1]] + Unescape(s[2..])
    else [s[0]] + Unescape(s[1..])
  }

  lemma EscapeHead(s: seq<byte>)
    requires s != []
    ensures Escape(s) == EscapeByte(s[0]) + Escape(s[1..])
  {
  }

  lemma {:induction false} EscapeConcat(s: seq<byte>, t: seq<byte>)
    ensures Escape(s + t) == Escape(s) + Escape(t)
  {
    if s == [] {
      assert s + t == t;
    } else {
      hide Escape, EscapeByte;
      EscapeConcat(s[1..], t);
      EscapeHead(s);
      EscapeHead(s + t);
      assert (s + t)[1..] == s[1..] + t;
      Regroup(EscapeByte(s[0]), Escape(s[1..]), Escape(t));
    }
  }

  lemma {:induction false} UnescapeEscape(s: seq<byte>)
    ensures WellEscaped(Escape(s))
    ensures Unescape(Escape(s)) == s
  {
    if s != [] {
      UnescapeEscape(s[1..]);
      var e := Escape(s);
      if Special(s[0]) {
        assert e[2..] == Escape(s[1..]);
      } else {
        assert e[1..] == Escape(s[1..]);
      }
    }
  }

  // ---------------------------------------------------------------------------------------
  // What is written

  /** A forest of nodes to be written: first child and next sibling. */
  datatype Nodes =
    | NoNodes
    | Node(typ: byte, props: seq<byte>, child: Nodes, next: Nodes)

  function Emit(f: Nodes): seq<byte> {
    match f
    case NoNodes => []
    case Node(typ, props, child, next) =>
      [NODE_START] + EscapeByte(typ) + Escape(props) + Emit(child) + [NODE_END] + Emit(next)
  }

  /** What setProps takes of the properties: their size is handed over in 16 bits. */
  function Sized(props: seq<byte>): seq<byte> {
    props[..|props| % 0x1_0000]
  }

  function AllSized(f: Nodes): Nodes {
    match f
    case NoNodes => NoNodes
    case Node(typ, props, child, next) => Node(typ, Sized(props), AllSized(child), AllSized(next))
  }

  /** All properties are shorter than 65536 bytes. */
  predicate AllShort(f: Nodes) {
    f.Node? ==> |f.props| < 0x1_0000 && AllShort(f.child) && AllShort(f.next)
  }

  /** Nothing is cut exactly if all properties are short. */
  lemma {:induction false} SizedIsSame(f: Nodes)
    ensures AllSized(f) == f <==> AllShort(f)
  {
    if f.Node? {
      SizedIsSame(f.child);
      SizedIsSame(f.next);
      assert |Sized(f.props)| < 0x1_0000;
    }
  }

  // ---------------------------------------------------------------------------------------
  // What is parsed

  /** The records the parser builds: offsets into the file, and the two links. */
  datatype Records =
    | NoRecords
    | Record(start: nat, propsSize: nat, typ: byte, child: Records, next: Records)

  datatype Error = Eof | InvalidFormat

  datatype Parsed =
    | Ok(records: Records, pos: nat)
    | Fail(error: Error)

  /** A node followed by the parse of its next siblings. */
  function WithNext(node: Records, next: Parsed): Parsed
    requires node.Record?
  {
    if next.Fail? then next else Ok(node.(next := next.records), next.pos)
  }

  /** The list of siblings whose first START stands at offset start. */
  function ParseList(file: seq<byte>, start: nat): (r: Parsed)
    requires start < |file|
    ensures r.Ok? ==> start + 1 < r.pos <= |file| && r.records.Record?
    decreases |file| - start, 0
  {
    if start + 1 == |file| then Fail(Eof)
    else ParseBody(file, start + 2, start, file[start + 1], NoRecords, None)
  }

  /** The rest of a node whose type is known; size is set once a child has begun. */
  function ParseBody(file: seq<byte>, pos: nat, start: nat, typ: byte,
                     child: Records, size: Option<nat>): (r: Parsed)
    requires start + 2 <= pos <= |file|
    ensures r.Ok? ==> pos < r.pos <= |file| && r.records.Record?
    decreases |file| - pos, 1
  {
    if pos == |file| then
      Fail(Eof)
    else if file[pos] == NODE_START then
      match ParseList(file, pos)
      case Fail(e) => Fail(e)
      case Ok(c, p) => ParseBody(file, p, start, typ, c, Some(pos - start - 2))
    else if file[pos] == NODE_END then
      var node := Record(start, size.GetOr(pos - start - 2), typ, child, NoRecords);
      if pos + 1 == |file| then
        Ok(node, pos + 1)
      else if file[pos + 1] == NODE_START then
        WithNext(node, ParseList(file, pos + 1))
      else if file[pos + 1] == NODE_END then
        Ok(node, pos + 1)
      else
        Fail(InvalidFormat)
    else if file[pos] == ESCAPE_CHAR then
      if pos + 1 == |file| then Fail(Eof)
      else ParseBody(file, pos + 2, start, typ, child, size)
    else
      ParseBody(file, pos + 1, start, typ, child, size)
  }

  /** One step of the parser into a list of siblings. */
  lemma ListStep(file: seq<byte>, start: nat)
    requires start < |file|
    ensures ParseList(file, start)
         == if start + 1 == |file| then Fail(Eof)
            else ParseBody(file, start + 2, start, file[start + 1], NoRecords, None)
  {
  }

  /** One step of the parser inside a node. */
  lemma BodyStep(file: seq<byte>, pos: nat, start: nat, typ: byte, child: Records, size: Option<nat>)
    requires start + 2 <= pos <= |file|
    ensures var node := Record(start, size.GetOr(pos - start - 2), typ, child, NoRecords);
            var r := ParseBody(file, pos, start, typ, child, size);
            if pos == |file| then
              r == Fail(Eof)
            else if file[pos] == NODE_START then
              var c := ParseList(file, pos);
              r == if c.Fail? then c else ParseBody(file, c.pos, start, typ, c.records, Some(pos - start - 2))
            else if file[pos] == NODE_END then
              if pos + 1 == |file| || file[pos + 1] == NODE_END then
                r == Ok(node, pos + 1)
              else if file[pos + 1] == NODE_START then
                r == WithNext(node, ParseList(file, pos + 1))
              else
                r == Fail(InvalidFormat)
            else if file[pos] == ESCAPE_CHAR then
              r == if pos + 1 == |file| then Fail(Eof) else ParseBody(file, pos + 2, start, typ, child, size)
            else
              r == ParseBody(file, pos + 1, start, typ, child, size)
  {
    hide ParseList;
  }

  /**
   Between a parse r of a file and a parse r' of its first cut bytes: the same if r ends in these; otherwise a
   failure, unless the cut is just behind a node that has more siblings.
   */
  predicate CutShort(r: Parsed, r': Parsed, cut: nat) {
    r.Ok? ==>
      if r.pos <= cut then r' == r
      else r'.Fail? || (r'.pos == cut && r.records.Record? && r.records.next.Record?)
  }

  lemma {:induction false} ListCut(file: seq<byte>, start: nat, cut: nat)
    requires start < cut <= |file|
    ensures CutShort(ParseList(file, start), ParseList(file[..cut], start), cut)
    decreases |file| - start, 0
  {
    hide ParseList, ParseBody;
    ListStep(file, start);
    ListStep(file[..cut], start);
    if start + 1 < cut {
      BodyCut(file, start + 2, start, file[start + 1], NoRecords, None, cut);
    }
  }

  lemma {:induction false} BodyCut(file: seq<byte>, pos: nat, start: nat, typ: byte, child: Records, size: Option<nat>,
                                   cut: nat)
    requires start + 2 <= pos <= cut <= |file|
    ensures CutShort(ParseBody(file, pos, start, typ, child, size),
                     ParseBody(file[..cut], pos, start, typ, child, size), cut)
    decreases |file| - pos, 1
  {
    hide ParseList, ParseBody;
    var file' := file[..cut];
    BodyStep(file, pos, start, typ, child, size);
    BodyStep(file', pos, start, typ, child, size);
    if pos == cut {
    } else if file[pos] == NODE_START {
      ListCut(file, pos, cut);
      ChildCut(file, pos, start, typ, child, size, cut);
      var c := ParseList(file, pos);
      if c.Ok? && c.pos <= cut { BodyCut(file, c.pos, start, typ, c.records, Some(pos - start - 2), cut); }
    } else if file[pos] == NODE_END {
      if pos + 1 < cut && file[pos + 1] == NODE_START { ListCut(file, pos + 1, cut); }
    } else if file[pos] == ESCAPE_CHAR {
      if pos + 1 < cut { BodyCut(file, pos + 2, start, typ, child, size, cut); }
    } else {
      BodyCut(file, pos + 1, start, typ, child, size, cut);
    }
  }

  /** A cut inside a node's children is inside the node. */
  lemma ChildCut(file: seq<byte>, pos: nat, start: nat, typ: byte, child: Records, size: Option<nat>, cut: nat)
    requires start + 2 <= pos < cut <= |file| && file[pos] == NODE_START
    requires CutShort(ParseList(file, pos), ParseList(file[..cut], pos), cut)
    ensures var c := ParseList(file, pos);
            c.Ok? && c.pos > cut ==> ParseBody(file[..cut], pos, start, typ, child, size).Fail?
  {
    hide ParseList, ParseBody;
    var c' := ParseList(file[..cut], pos);
    BodyStep(file[..cut], pos, start, typ, child, size);
    if c'.Ok? && c'.pos == cut { BodyStep(file[..cut], cut, start, typ, c'.records, Some(pos - start - 2)); }
  }

  /** A file with one node at the top does not parse any more when anything is missing at its end. */
  lemma TruncatedFails(file: seq<byte>, start: nat, cut: nat)
    requires start < cut < |file| && ParseList(file, start).Ok?
    requires ParseList(file, start).pos == |file| && ParseList(file, start).records.next == NoRecords
    ensures ParseList(file[..cut], start).Fail?
  {
    hide ParseList, ParseBody;
    ListCut(file, start, cut);
  }

  predicate AtEnd(file: seq<byte>, pos: nat) {
    pos == |file| || (pos < |file| && file[pos] == NODE_END)
  }

  /** The parser stops at the end of the file or on the END byte the enclosing node still needs. */
  lemma {:induction false} ParseListStops(file: seq<byte>, start: nat)
    requires start < |file|
    ensures ParseList(file, start).Ok? ==>
              var r := ParseList(file, start);
              r.records.start == start && r.records.typ == file[start + 1] &&
              AtEnd(file, r.pos)
    decreases |file| - start, 0
  {
    if start + 1 < |file| {
      ParseBodyStops(file, start + 2, start, file[start + 1], NoRecords, None);
    }
  }

  lemma {:induction false} ParseBodyStops(file: seq<byte>, pos: nat, start: nat, typ: byte,
                                          child: Records, size: Option<nat>)
    requires start + 2 <= pos <= |file|
    requires size.Some? ==> AtEnd(file, pos)
    ensures ParseBody(file, pos, start, typ, child, size).Ok? ==>
              var r := ParseBody(file, pos, start, typ, child, size);
              r.records.start == start && r.records.typ == typ &&
              AtEnd(file, r.pos) &&
              (if size.Some? then r.records.propsSize == size.value
               else start + 2 + r.records.propsSize >= pos)
    decreases |file| - pos, 1
  {
    if pos == |file| {
    } else if file[pos] == NODE_START {
      ParseListStops(file, pos);
      match ParseList(file, pos)
      case Fail(_) =>
      case Ok(c, p) => ParseBodyStops(file, p, start, typ, c, Some(pos - start - 2));
    } else if file[pos] == NODE_END {
      if pos + 1 < |file| && file[pos + 1] == NODE_START {
        ParseListStops(file, pos + 1);
      }
    } else if file[pos] == ESCAPE_CHAR {
      if pos + 1 < |file| {
        ParseBodyStops(file, pos + 2, start, typ, child, size);
      }
    } else {
      ParseBodyStops(file, pos + 1, start, typ, child, size);
    }
  }

  // ---------------------------------------------------------------------------------------
  // Reading the property bytes of parsed records

  predicate ReadableRegion(file: seq<byte>, start: nat, size: nat) {
    start + 2 + size <= |file| && WellEscaped(file[start + 2..start + 2 + size])
  }

  /** Every record's property bytes lie in the file and end on a complete escape. */
  predicate Readable(file: seq<byte>, r: Records) {
    r.Record? ==>
      && ReadableRegion(file, r.start, r.propsSize)
      && Readable(file, r.child)
      && Readable(file, r.next)
  }

  /** The bytes a record stands for. */
  function PropsOf(file: seq<byte>, start: nat, size: nat): seq<byte>
    requires ReadableRegion(file, start, size)
  {
    Unescape(file[start + 2..start + 2 + size])
  }

  /** The forest that a client sees through the records and the file. */
  function Decode(file: seq<byte>, r: Records): Nodes
    requires Readable(file, r)
  {
    match r
    case NoRecords => NoNodes
    case Record(start, size, typ, child, next) =>
      Node(typ, PropsOf(file, start, size), Decode(file, child), Decode(file, next))
  }

  lemma {:induction false} WellEscapedConcat(s: seq<byte>, t: seq<byte>)
    requires WellEscaped(s)
    ensures WellEscaped(s + t) <==> WellEscaped(t)
    ensures WellEscaped(t) ==> Unescape(s + t) == Unescape(s) + Unescape(t)
  {
    if s == [] {
      assert s + t == t;
    } else if s[0] == ESCAPE_CHAR {
      WellEscapedConcat(s[2..], t);
      assert (s + t)[2..] == s[2..] + t;
    } else {
      WellEscapedConcat(s[1..], t);
      assert (s + t)[1..] == s[1..] + t;
    }
  }

  /** Whatever the file holds, the records of a successful parse can be read back. */
  lemma {:induction false} ParsedIsReadable(file: seq<byte>, start: nat)
    requires start < |file|
    ensures ParseList(file, start).Ok? ==> Readable(file, ParseList(file, start).records)
    decreases |file| - start, 0
  {
    if start + 1 < |file| {
      assert file[start + 2..start + 2] == [];
      BodyIsReadable(file, start + 2, start, file[start + 1], NoRecords, None);
    }
  }

  lemma {:induction false} BodyIsReadable(file: seq<byte>, pos: nat, start: nat, typ: byte,
                                          child: Records, size: Option<nat>)
    requires start + 2 <= pos <= |file|
    requires size.Some? ==> AtEnd(file, pos)
    requires Readable(file, child)
    requires ReadableRegion(file, start, size.GetOr(pos - start - 2))
    ensures ParseBody(file, pos, start, typ, child, size).Ok? ==>
              Readable(file, ParseBody(file, pos, start, typ, child, size).records)
    decreases |file| - pos, 1
  {
    hide ReadableRegion, ParseList;
    if pos == |file| {
    } else if file[pos] == NODE_START {
      ParsedIsReadable(file, pos);
      match ParseList(file, pos)
      case Fail(_) =>
      case Ok(c, p) =>
        ParseListStops(file, pos);
        BodyIsReadable(file, p, start, typ, c, Some(pos - start - 2));
    } else if file[pos] == NODE_END {
      if pos + 1 < |file| && file[pos + 1] == NODE_START {
        ParsedIsReadable(file, pos + 1);
      }
    } else if file[pos] == ESCAPE_CHAR {
      if pos + 1 < |file| {
        if size.None? { RegionGrows(file, start, pos, 2); }
        BodyIsReadable(file, pos + 2, start, typ, child, size);
      }
    } else {
      if size.None? { RegionGrows(file, start, pos, 1); }
      BodyIsReadable(file, pos + 1, start, typ, child, size);
    }
  }

  /** One more byte, or an escape and the byte behind it, keeps a region readable. */
  lemma RegionGrows(file: seq<byte>, start: nat, pos: nat, k: nat)
    requires start + 2 <= pos && pos + k <= |file| && ReadableRegion(file, start, pos - start - 2)
    requires k == 1 || k == 2
    requires file[pos] == ESCAPE_CHAR <==> k == 2
    ensures ReadableRegion(file, start, pos + k - start - 2)
  {
    var s, t := file[start + 2..pos], file[pos..pos + k];
    assert file[start + 2..pos + k] == s + t;
    assert t[k..] == [] && WellEscaped(t);
    hide WellEscaped, Unescape;
    WellEscapedConcat(s, t);
  }
}
