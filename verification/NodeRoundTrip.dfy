/** Parsing what was written gives the written forest back, and exactly for which forests. */
module NodeRoundTrip {
  import opened Wrappers
  import opened NodeFormat

  /** Bytes the parser walks over without leaving the node: whole escapes and ordinary bytes. */
  predicate Plain(w: seq<byte>) {
    w == [] ||
    (if w[0] == ESCAPE_CHAR then |w| >= 2 && Plain(w[2..])
     else w[0] != NODE_START && w[0] != NODE_END && Plain(w[1..]))
  }

  lemma {:induction false} PlainIsWellEscaped(w: seq<byte>)
    requires Plain(w)
    ensures WellEscaped(w)
  {
    if w != [] {
      PlainIsWellEscaped(if w[0] == ESCAPE_CHAR then w[2..] else w[1..]);
    }
  }

  lemma {:induction false} EscapeIsPlain(s: seq<byte>)
    ensures Plain(Escape(s))
  {
    if s != [] {
      EscapeIsPlain(s[1..]);
      var e := Escape(s);
      assert e[|EscapeByte(s[0])|..] == Escape(s[1..]);
    }
  }

  // ---------------------------------------------------------------------------------------
  // Which nodes survive

  /**
   The type byte is written through the escaper but read raw. An escaped type 0xFD still reads
   as 0xFD, and its second 0xFD then pairs off with the first byte of the properties, that
   byte's own escape with the next one, and so on; the pairing is harmless only if it reaches
   an ordinary property byte.
   */
  predicate Anchored(props: seq<byte>) {
    props != [] && (if props[0] == ESCAPE_CHAR then Anchored(props[1..]) else !Special(props[0]))
  }

  predicate Codable(typ: byte, props: seq<byte>) {
    !Special(typ) || (typ == ESCAPE_CHAR && Anchored(props))
  }

  predicate AllCodable(f: Nodes) {
    f.Node? ==> Codable(f.typ, f.props) && AllCodable(f.child) && AllCodable(f.next)
  }

  /** What follows the byte the parser takes for the type. */
  function Body(typ: byte, props: seq<byte>): seq<byte> {
    EscapeByte(typ)[1..] + Escape(props)
  }

  lemma {:induction false} AnchoredBody(p: seq<byte>)
    requires Anchored(p)
    ensures Plain([ESCAPE_CHAR] + Escape(p))
    ensures WellEscaped([ESCAPE_CHAR] + Escape(p))
    ensures Unescape([ESCAPE_CHAR] + Escape(p)) == p
  {
    hide Plain, WellEscaped, Unescape, Escape;
    var w, e := [ESCAPE_CHAR] + Escape(p), Escape(p[1..]);
    EscapeHead(p);
    if p[0] == ESCAPE_CHAR {
      AnchoredBody(p[1..]);
      assert w == [ESCAPE_CHAR, p[0]] + ([ESCAPE_CHAR] + e);
      AfterEscape(p[0], [ESCAPE_CHAR] + e);
    } else {
      UnescapeEscape(p[1..]);
      EscapeIsPlain(p[1..]);
      assert w == [ESCAPE_CHAR, p[0]] + e;
      AfterEscape(p[0], e);
    }
    PlainIsWellEscaped(w);
  }

  lemma AfterEscape(b: byte, rest: seq<byte>)
    ensures Plain([ESCAPE_CHAR, b] + rest) == Plain(rest)
    ensures WellEscaped([ESCAPE_CHAR, b] + rest) == WellEscaped(rest)
    ensures WellEscaped(rest) ==> Unescape([ESCAPE_CHAR, b] + rest) == [b] + Unescape(rest)
  {
    assert ([ESCAPE_CHAR, b] + rest)[2..] == rest;
  }

  lemma CodableBody(typ: byte, p: seq<byte>)
    requires Codable(typ, p)
    ensures Plain(Body(typ, p))
    ensures WellEscaped(Body(typ, p))
    ensures Unescape(Body(typ, p)) == p
    ensures EscapeByte(typ)[0] == typ
  {
    if Special(typ) {
      AnchoredBody(p);
      assert Body(typ, p) == [ESCAPE_CHAR] + Escape(p);
    } else {
      EscapeIsPlain(p);
      UnescapeEscape(p);
      assert Body(typ, p) == Escape(p);
    }
  }

  /** Without an anchor the parser is led over bytes that cannot be the properties. */
  lemma {:induction false} UnanchoredBody(p: seq<byte>, m: byte) returns (w: seq<byte>)
    requires !Anchored(p)
    requires Special(m)
    ensures w <= [ESCAPE_CHAR] + Escape(p) + [m]
    ensures Plain(w) && WellEscaped(w)
    ensures !(Unescape(w) <= p)
  {
    if p != [] && p[0] == ESCAPE_CHAR {
      var v := UnanchoredBody(p[1..], m);
      w := [ESCAPE_CHAR, ESCAPE_CHAR] + v;
      assert w[2..] == v;
      assert [ESCAPE_CHAR] + Escape(p) + [m]
          == [ESCAPE_CHAR, ESCAPE_CHAR] + ([ESCAPE_CHAR] + Escape(p[1..]) + [m]);
      assert Unescape(w) == [p[0]] + Unescape(v);
      assert p == [p[0]] + p[1..];
    } else {
      w := if p == [] then [ESCAPE_CHAR, m] else [ESCAPE_CHAR, ESCAPE_CHAR];
      assert w[2..] == [];
      assert Unescape(w) == [w[1]];
    }
  }

  // ---------------------------------------------------------------------------------------
  // Positions inside the emitted bytes

  lemma StandsAt(file: seq<byte>, at: nat, s: seq<byte>, i: nat)
    requires Stands(file, at, s) && i < |s|
    ensures at + |s| <= |file| && file[at + i] == s[i]
  {
    assert file[at..at + |s|][i] == file[at + i];
  }

  lemma EmitShape(f: Nodes)
    requires f.Node?
    ensures Emit(f) == [NODE_START, EscapeByte(f.typ)[0]]
                     + (Body(f.typ, f.props) + (Emit(f.child) + ([NODE_END] + Emit(f.next))))
  {
    var t, x := EscapeByte(f.typ), Escape(f.props);
    var h, b, c, n := [NODE_START, t[0]], Body(f.typ, f.props), Emit(f.child), Emit(f.next);
    assert [NODE_START] + t == h + t[1..];
    Regroup(h, t[1..], x);
    Regroup(h, b, c);
    Regroup(h, b + c, [NODE_END]);
    Regroup(b, c, [NODE_END]);
    Regroup(h, b + (c + [NODE_END]), n);
    Regroup(b, c + [NODE_END], n);
    Regroup(c, [NODE_END], n);
  }

  lemma FiveParts(file: seq<byte>, at: nat, h: seq<byte>, b: seq<byte>, c: seq<byte>, m: seq<byte>,
                  n: seq<byte>)
    requires |h| == 2 && |m| == 1
    requires Stands(file, at, h + (b + (c + (m + n))))
    ensures Stands(file, at + 2, b) && Stands(file, at + 2 + |b|, c)
    ensures var e := at + 2 + |b| + |c|;
            && Stands(file, e + 1, n) && e + 1 + |n| <= |file|
            && file[at] == h[0] && file[at + 1] == h[1] && file[e] == m[0]
  {
    hide Stands;
    StandsParts(file, at, h, b + (c + (m + n)));
    StandsParts(file, at + 2, b, c + (m + n));
    StandsParts(file, at + 2 + |b|, c, m + n);
    StandsParts(file, at + 2 + |b| + |c|, m, n);
    StandsAt(file, at, h, 0);
    StandsAt(file, at, h, 1);
    StandsAt(file, at + 2 + |b| + |c|, m, 0);
    WithinFile(file, at + 3 + |b| + |c|, n);
  }

  lemma EmitParts(file: seq<byte>, at: nat, f: Nodes)
    requires f.Node?
    requires Stands(file, at, Emit(f))
    ensures Stands(file, at + 2, Body(f.typ, f.props))
    ensures var c := at + 2 + |Body(f.typ, f.props)|;
            var e := c + |Emit(f.child)|;
            && Stands(file, c, Emit(f.child))
            && Stands(file, e + 1, Emit(f.next))
            && at + |Emit(f)| == e + 1 + |Emit(f.next)| <= |file|
            && file[at] == NODE_START && file[at + 1] == EscapeByte(f.typ)[0] && file[e] == NODE_END
  {
    hide Emit, Body, Stands;
    EmitShape(f);
    FiveParts(file, at, [NODE_START, EscapeByte(f.typ)[0]], Body(f.typ, f.props), Emit(f.child),
              [NODE_END], Emit(f.next));
  }

  lemma {:induction false} SkipPlain(file: seq<byte>, pos: nat, w: seq<byte>, start: nat, typ: byte)
    requires start + 2 <= pos
    requires Stands(file, pos, w) && Plain(w)
    ensures ParseBody(file, pos, start, typ, NoRecords, None)
         == ParseBody(file, pos + |w|, start, typ, NoRecords, None)
    decreases |w|
  {
    if w != [] {
      var k := if w[0] == ESCAPE_CHAR then 2 else 1;
      assert w == w[..k] + w[k..];
      StandsParts(file, pos, w[..k], w[k..]);
      assert file[pos] == w[0];
      SkipPlain(file, pos + k, w[k..], start, typ);
    }
  }

  // ---------------------------------------------------------------------------------------
  // The two directions

  /** A client of the parsed records sees the forest f. */
  predicate Shows(file: seq<byte>, at: nat, f: Nodes) {
    at < |file| &&
    var r := ParseList(file, at);
    r.Ok? && Readable(file, r.records) && Decode(file, r.records) == f
  }

  /** The bytes at offset at parse to the forest f, all of them and nothing more. */
  predicate Parses(file: seq<byte>, at: nat, f: Nodes) {
    Shows(file, at, f) && ParseList(file, at).pos == at + |Emit(f)|
  }

  /** The records a body ends up with once it has walked over the children. */
  function ChildRecords(file: seq<byte>, pos: nat, child: Nodes): Records
    requires child.Node? ==> Parses(file, pos, child)
  {
    if child.Node? then ParseList(file, pos).records else NoRecords
  }

  lemma NoRecordsShowNothing(file: seq<byte>)
    ensures Readable(file, NoRecords) && Decode(file, NoRecords) == NoNodes
  {
  }

  lemma ChildThenEnd(file: seq<byte>, pos: nat, start: nat, typ: byte, child: Nodes)
    requires start + 2 <= pos
    requires Stands(file, pos, Emit(child))
    requires pos + |Emit(child)| < |file| && file[pos + |Emit(child)|] == NODE_END
    requires child.Node? ==> Parses(file, pos, child)
    ensures var c := ChildRecords(file, pos, child);
            && Readable(file, c) && Decode(file, c) == child
            && ParseBody(file, pos, start, typ, NoRecords, None)
            == ParseBody(file, pos + |Emit(child)|, start, typ, c, Some(pos - start - 2))
  {
    hide ParseList, ParseBody, Decode, Readable, Emit, Stands;
    EmitNone();
    NoRecordsShowNothing(file);
    if child.Node? {
      EmitParts(file, pos, child);
    } else {
      BodyStep(file, pos, start, typ, NoRecords, Some(pos - start - 2));
    }
    BodyStep(file, pos, start, typ, NoRecords, None);
  }

  /** The parser reads the head of a codable node as it was written. */
  lemma HeadParses(file: seq<byte>, at: nat, f: Nodes)
    requires f.Node? && Codable(f.typ, f.props)
    requires Stands(file, at, Emit(f))
    ensures var n := |Body(f.typ, f.props)|;
            && at + 2 + n <= |file|
            && ParseList(file, at) == ParseBody(file, at + 2 + n, at, f.typ, NoRecords, None)
            && ReadableRegion(file, at, n) && PropsOf(file, at, n) == f.props
  {
    EmitParts(file, at, f);
    CodableBody(f.typ, f.props);
    SkipPlain(file, at + 2, Body(f.typ, f.props), at, f.typ);
  }

  /** What the parser does on the END byte of a node. */
  lemma EndStep(file: seq<byte>, e: nat, start: nat, typ: byte, child: Records, size: nat)
    requires start + 2 <= e < |file| && file[e] == NODE_END
    ensures var r := ParseBody(file, e, start, typ, child, Some(size));
            var node := Record(start, size, typ, child, NoRecords);
            && (AtEnd(file, e + 1) ==> r == Ok(node, e + 1))
            && (e + 1 < |file| && file[e + 1] == NODE_START ==>
                  var n := ParseList(file, e + 1);
                  r == if n.Ok? then Ok(node.(next := n.records), n.pos) else n)
  {
    hide ParseList;
  }

  /** From the start of its children to the end of the list, a node parses as it should. */
  lemma TailParses(file: seq<byte>, pos: nat, start: nat, f: Nodes, size: nat)
    requires f.Node? && start + 2 + size == pos
    requires Stands(file, pos, Emit(f.child))
    requires pos + |Emit(f.child)| < |file| && file[pos + |Emit(f.child)|] == NODE_END
    requires ReadableRegion(file, start, size) && PropsOf(file, start, size) == f.props
    requires f.child.Node? ==> Parses(file, pos, f.child)
    requires var n := pos + |Emit(f.child)| + 1;
             if f.next.Node? then Parses(file, n, f.next) && file[n] == NODE_START else AtEnd(file, n)
    ensures var r := ParseBody(file, pos, start, f.typ, NoRecords, None);
            && r.Ok? && r.pos == pos + |Emit(f.child)| + 1 + |Emit(f.next)|
            && Readable(file, r.records) && Decode(file, r.records) == f
  {
    hide ParseList, ParseBody, ReadableRegion, PropsOf, Emit, Stands;
    ChildThenEnd(file, pos, start, f.typ, f.child);
    var e := pos + |Emit(f.child)|;
    var c := ChildRecords(file, pos, f.child);
    EndStep(file, e, start, f.typ, c, size);
    EmitNone();
  }

  lemma EmitNone()
    ensures Emit(NoNodes) == []
  {
  }

  lemma {:induction false} EmitParses(file: seq<byte>, at: nat, f: Nodes)
    requires f.Node? && AllCodable(f)
    requires Stands(file, at, Emit(f))
    requires AtEnd(file, at + |Emit(f)|)
    ensures Parses(file, at, f)
    decreases f
  {
    hide ParseList, ParseBody, Emit, ReadableRegion, PropsOf, Body, Readable, Decode, Stands;
    EmitParts(file, at, f);
    HeadParses(file, at, f);
    EmitNone();
    var b := at + 2 + |Body(f.typ, f.props)|;
    var n := b + |Emit(f.child)| + 1;
    if f.child.Node? {
      EmitParses(file, b, f.child);
    }
    if f.next.Node? {
      EmitParts(file, n, f.next);
      EmitParses(file, n, f.next);
    }
    TailParses(file, b, at, f, |Body(f.typ, f.props)|);
  }

  /** A record whose property bytes begin with w decodes to properties that begin with w. */
  lemma PropsBegin(file: seq<byte>, start: nat, size: nat, w: seq<byte>)
    requires ReadableRegion(file, start, size) && |w| <= size
    requires Stands(file, start + 2, w) && WellEscaped(w)
    ensures Unescape(w) <= PropsOf(file, start, size)
  {
    var region := file[start + 2..start + 2 + size];
    assert region == w + region[|w|..];
    WellEscapedConcat(w, region[|w|..]);
  }

  /** The first bytes of s + [m] stand wherever s stands before m. */
  lemma PrefixStands(file: seq<byte>, at: nat, s: seq<byte>, w: seq<byte>)
    requires Stands(file, at, s) && at + |s| < |file|
    requires w <= s + [file[at + |s|]]
    ensures Stands(file, at, w)
  {
    var t := file[at..at + |s| + 1];
    assert t == s + [file[at + |s|]];
    assert file[at..at + |w|] == t[..|w|];
  }

  /** An unanchored node of type 0xFD reads property bytes it never had. */
  lemma Overrun(file: seq<byte>, at: nat, f: Nodes)
    requires f.Node? && f.typ == ESCAPE_CHAR && !Anchored(f.props)
    requires Stands(file, at, Emit(f))
    ensures !Shows(file, at, f)
  {
    hide Emit, ParseBody, Unescape, Stands, Escape, Anchored, Plain, WellEscaped, Decode, ReadableRegion, PropsOf,
         ParseList;
    var p, b := at + 2, Body(f.typ, f.props);
    var m := AfterBody(file, at, f);
    var w := UnanchoredBody(f.props, m);
    assert b == [ESCAPE_CHAR] + Escape(f.props);
    ListStep(file, at);
    PrefixStands(file, p, b, w);
    assert p + |w| <= |file| by { WithinFile(file, p, w); }
    SkipPlain(file, p, w, at, file[at + 1]);
    ParseBodyStops(file, p + |w|, at, file[at + 1], NoRecords, None);
    if Shows(file, at, f) {
      ShownProps(file, at, f);
      PropsBegin(file, at, ParseList(file, at).records.propsSize, w);
    }
  }

  lemma ShownProps(file: seq<byte>, at: nat, f: Nodes)
    requires f.Node? && Shows(file, at, f)
    ensures var r := ParseList(file, at).records;
            r.Record? && ReadableRegion(file, r.start, r.propsSize) && PropsOf(file, r.start, r.propsSize) == f.props
  {
    hide ParseList, PropsOf, ReadableRegion;
  }

  lemma WithinFile(file: seq<byte>, at: nat, s: seq<byte>)
    requires Stands(file, at, s)
    ensures at + |s| <= |file|
  {
  }

  /** The byte behind a node's properties starts its first child or ends the node. */
  lemma AfterBody(file: seq<byte>, at: nat, f: Nodes) returns (m: byte)
    requires f.Node?
    requires Stands(file, at, Emit(f))
    ensures var e := at + 2 + |Body(f.typ, f.props)|;
            && Stands(file, at + 2, Body(f.typ, f.props))
            && e < |file| && m == file[e] && Special(m)
  {
    EmitParts(file, at, f);
    hide Emit, Body, Stands;
    EmitNone();
    var e := at + 2 + |Body(f.typ, f.props)|;
    if f.child.Node? {
      EmitParts(file, e, f.child);
    }
    m := file[e];
  }

  /** A node whose children cannot be shown cannot be shown. */
  lemma ChildMisparses(file: seq<byte>, at: nat, pos: nat, f: Nodes)
    requires f.Node? && at + 2 <= pos < |file| && file[pos] == NODE_START
    requires ParseList(file, at) == ParseBody(file, pos, at, f.typ, NoRecords, None)
    requires !Shows(file, pos, f.child)
    ensures !Shows(file, at, f)
  {
    ParseListStops(file, pos);
    var r := ParseList(file, pos);
    if r.Ok? && r.pos < |file| {
      EndStep(file, r.pos, at, f.typ, r.records, pos - at - 2);
      hide ParseList;
    }
  }

  /** A node whose siblings cannot be shown cannot be shown. */
  lemma NextMisparses(file: seq<byte>, at: nat, e: nat, c: Records, size: nat, f: Nodes)
    requires f.Node? && at + 2 <= e && e + 1 < |file|
    requires file[e] == NODE_END && file[e + 1] == NODE_START
    requires ParseList(file, at) == ParseBody(file, e, at, f.typ, c, Some(size))
    requires !Shows(file, e + 1, f.next)
    ensures !Shows(file, at, f)
  {
    hide ParseList;
  }

  /** A forest with a node that is not codable is never what a client sees. */
  lemma {:induction false} EmitMisparses(file: seq<byte>, at: nat, f: Nodes)
    requires !AllCodable(f)
    requires Stands(file, at, Emit(f))
    ensures !Shows(file, at, f)
    decreases f
  {
    hide ParseBody, ParseList, Emit, Body, Escape, EscapeByte, Decode, Readable, Stands, Shows, Anchored, Codable;
    EmitParts(file, at, f);
    var b := at + 2 + |Body(f.typ, f.props)|;
    if !Codable(f.typ, f.props) {
      BadHead(file, at, f);
    } else if !AllCodable(f.child) {
      HeadParses(file, at, f);
      EmitParts(file, b, f.child);
      EmitMisparses(file, b, f.child);
      ChildMisparses(file, at, b, f);
    } else {
      var e := GoodFirst(file, at, f);
      EmitParts(file, e + 1, f.next);
      EmitMisparses(file, e + 1, f.next);
      NextMisparses(file, at, e, ChildRecords(file, b, f.child), b - at - 2, f);
    }
  }

  /** The parser reaches the END byte of a first node that is codable all the way down. */
  lemma GoodFirst(file: seq<byte>, at: nat, f: Nodes) returns (e: nat)
    requires f.Node? && Codable(f.typ, f.props) && AllCodable(f.child)
    requires Stands(file, at, Emit(f))
    ensures var b := at + 2 + |Body(f.typ, f.props)|;
            && e == b + |Emit(f.child)| < |file| && file[e] == NODE_END
            && Stands(file, e + 1, Emit(f.next))
            && (f.child.Node? ==> Parses(file, b, f.child))
            && var c := ChildRecords(file, b, f.child);
               (ParseList(file, at) == ParseBody(file, e, at, f.typ, c, Some(b - at - 2)))
  {
    hide ParseBody, ParseList, Emit, Body, Escape, EscapeByte, Decode, Readable, Stands, Shows, Anchored, Codable;
    EmitParts(file, at, f);
    HeadParses(file, at, f);
    var b := at + 2 + |Body(f.typ, f.props)|;
    e := b + |Emit(f.child)|;
    if f.child.Node? {
      EmitParses(file, b, f.child);
    }
    EmitNone();
    ChildThenEnd(file, b, at, f.typ, f.child);
  }

  lemma BadHead(file: seq<byte>, at: nat, f: Nodes)
    requires f.Node? && !Codable(f.typ, f.props)
    requires Stands(file, at, Emit(f))
    ensures !Shows(file, at, f)
  {
    EmitParts(file, at, f);
    hide ParseBody, ParseList, Emit, Body;
    ParseListStops(file, at);
    if f.typ == ESCAPE_CHAR {
      Overrun(file, at, f);
    }
  }

  // ---------------------------------------------------------------------------------------
  // The file as a whole

  /** A file written by openFile for writing and one startNode/setProps/endNode walk. */
  function FileOf(f: Nodes): seq<byte> {
    [0, 0, 0, 0] + Emit(f)
  }

  /** Writing a forest and parsing the file shows the same forest exactly when it is codable. */
  lemma RoundTrip(f: Nodes)
    requires f.Node?
    ensures Shows(FileOf(f), 4, f) <==> AllCodable(f)
    ensures AllCodable(f) ==> ParseList(FileOf(f), 4).pos == |FileOf(f)|
  {
    hide Emit, AllCodable, Readable, Decode, ParseList;
    StandsParts(FileOf(f), 0, [0, 0, 0, 0], Emit(f));
    if AllCodable(f) {
      EmitParses(FileOf(f), 4, f);
    } else {
      EmitMisparses(FileOf(f), 4, f);
    }
  }

  /** Types below the three marker values are always codable, whatever the properties. */
  predicate OrdinaryTypes(f: Nodes) {
    f.Node? ==> f.typ < ESCAPE_CHAR && OrdinaryTypes(f.child) && OrdinaryTypes(f.next)
  }

  lemma {:induction false} OrdinaryTypesRoundTrip(f: Nodes)
    requires f.Node? && OrdinaryTypes(f)
    ensures Parses(FileOf(f), 4, f)
  {
    OrdinaryIsCodable(f);
    RoundTrip(f);
  }

  lemma {:induction false} OrdinaryIsCodable(f: Nodes)
    requires OrdinaryTypes(f)
    ensures AllCodable(f)
  {
    if f.Node? {
      OrdinaryIsCodable(f.child);
      OrdinaryIsCodable(f.next);
    }
  }

  /** A lone node of type 0xFE: its escaped type byte is taken for the start of a child. */
  lemma MarkerTypeIsLost()
    ensures var f := Node(NODE_START, [], NoNodes, NoNodes);
            FileOf(f)[4..] == [NODE_START, ESCAPE_CHAR, NODE_START, NODE_END] &&
            ParseList(FileOf(f), 4) == Fail(Eof)
  {
    var f := Node(NODE_START, [], NoNodes, NoNodes);
    assert Emit(f) == [NODE_START, ESCAPE_CHAR, NODE_START, NODE_END];
    var file := FileOf(f);
    assert file == [0, 0, 0, 0, NODE_START, ESCAPE_CHAR, NODE_START, NODE_END];
    assert ParseList(file, 6) == ParseBody(file, 8, 6, NODE_END, NoRecords, None);
  }
}
