/**
 Storing house items: what saveItem writes, what loadItem makes of any bytes, and when the second
 undoes the first.

 An item is its type, its attributes and, if it is a container, its count of items, the items in
 reverse order, and a zero byte. Loading pushes every item to the front of its container's list, so
 reading them in reverse restores the order, at every depth.
 */
module MapStore {
  import opened Wrappers
  import opened NodeFormat
  import opened Streams
  import Containers

  const ATTR_ACTION_ID: byte := 4
  const ATTR_UNIQUE_ID: byte := 5
  const ATTR_TEXT: byte := 6
  const ATTR_DESC: byte := 7
  const ATTR_TELE_DEST: byte := 8
  const ATTR_DEPOT_ID: byte := 10
  const ATTR_RUNE_CHARGES: byte := 12
  const ATTR_HOUSEDOORID: byte := 14
  const ATTR_COUNT: byte := 15
  const ATTR_DURATION: byte := 16
  const ATTR_DECAYING_STATE: byte := 17
  const ATTR_WRITTENBY: byte := 19
  const ATTR_SLEEPERGUID: byte := 20
  const ATTR_SLEEPSTART: byte := 21
  const ATTR_CONTAINER_ITEMS: byte := 22

  const DECAYING_TRUE := 1
  const DECAYING_PENDING := 2

  /** An attribute as a getter gives it to the writer, or as the reader gives it to a setter. */
  datatype Attr =
    | Num(tag: byte, value: nat)
    | Text(tag: byte, text: seq<byte>)

  /** What Item::items says about a type. A depot is a container that reads no container tag. */
  datatype Kind = NoItem | Thing | Box | DepotBox {
    predicate Holds() { Box? || DepotBox? }
  }

  type Kinds = nat -> Kind

  /** What the getters of an item answer to the writer. */
  datatype Getters = Getters(fluidType: nat, charges: nat, actionId: nat, text: seq<byte>, writer: seq<byte>,
                             specialDesc: seq<byte>, duration: nat, decaying: nat)

  /** getSubType */
  function SubType(t: Containers.ItemType, count: nat, g: Getters): nat {
    if t.fluid then g.fluidType else if t.Charged() then g.charges else count
  }

  /** The attributes that serializeAttr writes, in its order. */
  function Serialized(t: Containers.ItemType, count: nat, g: Getters): seq<Attr> {
    (if t.stackable || t.fluid then [Num(ATTR_COUNT, SubType(t, count, g))] else [])
    + (if t.Charged() then [Num(ATTR_RUNE_CHARGES, g.charges)] else [])
    + Details(t, g)
  }

  /** Those that do not bear on the count. */
  function Details(t: Containers.ItemType, g: Getters): seq<Attr> {
    (if t.moveable && g.actionId != 0 then [Num(ATTR_ACTION_ID, g.actionId)] else []) + Texts(g) + Decay(g)
  }

  function Texts(g: Getters): seq<Attr> {
    (if g.text != [] then [Text(ATTR_TEXT, g.text)] else [])
    + (if g.writer != [] then [Text(ATTR_WRITTENBY, g.writer)] else [])
    + (if g.specialDesc != [] then [Text(ATTR_DESC, g.specialDesc)] else [])
  }

  function Decay(g: Getters): seq<Attr> {
    (if g.duration != 0 then [Num(ATTR_DURATION, g.duration)] else [])
    + (if g.decaying == DECAYING_TRUE || g.decaying == DECAYING_PENDING then [Num(ATTR_DECAYING_STATE, g.decaying)]
       else [])
  }

  datatype Item = Item(id: nat, attrs: seq<Attr>, items: seq<Item>)

  /** An item as the writer finds it. */
  datatype Held = Held(id: nat, count: nat, getters: Getters, items: seq<Held>)

  /** What the writer writes of it. */
  function Stored(types: Containers.ItemTypes, x: Held): Item
    decreases x, |x.items| + 1
  {
    Item(x.id, Serialized(types(x.id), x.count, x.getters), StoredList(types, x, |x.items|))
  }

  function StoredList(types: Containers.ItemTypes, x: Held, k: nat): (s: seq<Item>)
    requires k <= |x.items|
    ensures |s| == k && forall i :: 0 <= i < k ==> s[i] == Stored(types, x.items[i])
    decreases x, k
  {
    if k == 0 then [] else StoredList(types, x, k - 1) + [Stored(types, x.items[k - 1])]
  }

  /** How many bytes the number behind a tag takes; 0 if no number stands there. */
  function Width(tag: byte): nat {
    if tag == ATTR_COUNT || tag == ATTR_RUNE_CHARGES || tag == ATTR_DECAYING_STATE || tag == ATTR_HOUSEDOORID then 1
    else if tag == ATTR_ACTION_ID || tag == ATTR_UNIQUE_ID || tag == ATTR_DEPOT_ID then 2
    else if tag == ATTR_DURATION || tag == ATTR_SLEEPERGUID || tag == ATTR_SLEEPSTART then 4
    else if tag == ATTR_TELE_DEST then 5
    else 0
  }

  predicate IsText(tag: byte) {
    tag == ATTR_TEXT || tag == ATTR_WRITTENBY || tag == ATTR_DESC
  }

  /** The attributes serializeAttr can write. */
  predicate Written(attr: Attr) {
    match attr
    case Num(tag, _) =>
      tag == ATTR_COUNT || tag == ATTR_RUNE_CHARGES || tag == ATTR_ACTION_ID || tag == ATTR_DURATION ||
      tag == ATTR_DECAYING_STATE
    case Text(tag, _) => IsText(tag)
  }

  /** What readAttr hands to a setter when it has read a number behind a tag. */
  function Taken(tag: byte, value: nat): Option<Attr> {
    if tag == ATTR_DURATION then Some(Num(tag, if value >= 0x8000_0000 then 0 else value))
    else if tag == ATTR_DECAYING_STATE then if value != 0 then Some(Num(tag, DECAYING_PENDING)) else None
    else if tag == ATTR_COUNT || tag == ATTR_RUNE_CHARGES || tag == ATTR_ACTION_ID || tag == ATTR_UNIQUE_ID
    then Some(Num(tag, value))
    else None
  }

  // ---------------------------------------------------------------------------------------
  // The bytes

  function AttrBytes(attr: Attr): seq<byte> {
    match attr
    case Num(tag, value) => [tag] + Le(value, Width(tag))
    case Text(tag, text) => [tag] + StringBytes(text)
  }

  function AttrsBytes(attrs: seq<Attr>): seq<byte> {
    if attrs == [] then [] else AttrBytes(attrs[0]) + AttrsBytes(attrs[1..])
  }

  /** What saveItem writes. */
  function ItemBytes(kinds: Kinds, x: Item): seq<byte>
    decreases x, |x.items| + 1
  {
    Le(x.id, 2) + AttrsBytes(x.attrs)
    + (if kinds(x.id).Holds() then [ATTR_CONTAINER_ITEMS] + Le(|x.items|, 4) + ListBytes(kinds, x, |x.items|) else [])
    + [0]
  }

  /** The first k items of x's list, last one first. */
  function ListBytes(kinds: Kinds, x: Item, k: nat): seq<byte>
    requires k <= |x.items|
    decreases x, k
  {
    if k == 0 then [] else ItemBytes(kinds, x.items[k - 1]) + ListBytes(kinds, x, k - 1)
  }

  /** A letter that says Hi takes eight bytes: its type 2597, the tag of the text, its length, the text, a zero. */
  lemma LetterBytes(kinds: Kinds, types: Containers.ItemTypes)
    requires kinds(2597) == Thing && types(2597).SubTypeIsCount() && !types(2597).stackable
    ensures var letter := Held(2597, 1, Getters(0, 0, 0, [0x48, 0x69], [], [], 0, 0), []);
            ItemBytes(kinds, Stored(types, letter)) == [0x25, 0x0A, 6, 2, 0, 0x48, 0x69, 0]
  {
    hide AttrsBytes, Serialized, Le;
    var g := Getters(0, 0, 0, [0x48, 0x69], [], [], 0, 0);
    var text := [Text(ATTR_TEXT, g.text)];
    LetterSays(types(2597), g);
    TextBytes(g.text);
    TwoBytes(2597);
    assert StoredList(types, Held(2597, 1, g, []), 0) == [];
  }

  lemma LetterSays(t: Containers.ItemType, g: Getters)
    requires t.SubTypeIsCount() && !t.stackable && g == Getters(0, 0, 0, [0x48, 0x69], [], [], 0, 0)
    ensures Serialized(t, 1, g) == [Text(ATTR_TEXT, g.text)]
  {
  }

  lemma TextBytes(text: seq<byte>)
    requires text == [0x48, 0x69]
    ensures AttrsBytes([Text(ATTR_TEXT, text)]) == [6, 2, 0, 0x48, 0x69]
  {
    hide Le;
    var attrs := [Text(ATTR_TEXT, text)];
    TwoBytes(2);
    assert attrs[1..] == [] && text[..2] == text;
    assert AttrsBytes(attrs) == AttrBytes(attrs[0]) + [] == AttrBytes(attrs[0]);
  }

  lemma TwoBytes(n: nat)
    requires n < 65536
    ensures Le(n, 2) == [(n % 256) as byte, (n / 256) as byte]
  {
    assert Le(n / 256, 1) == [(n / 256) as byte] + Le(n / 256 / 256, 0);
  }

  // ---------------------------------------------------------------------------------------
  // What the reader makes of any bytes

  /** A value read and where reading goes on, or a failure. */
  datatype Read<T> = Read(value: T, pos: nat) | Bad

  function ReadNum(data: seq<byte>, p: nat, w: nat): (r: Read<nat>)
    ensures r.Read? ==> r.pos == p + w <= |data|
  {
    if p + w <= |data| then Read.Read(Val(data[p..p + w]), p + w) else Bad
  }

  function ReadString(data: seq<byte>, p: nat): (r: Read<seq<byte>>)
    ensures r.Read? ==> p < r.pos <= |data|
  {
    match ReadNum(data, p, 2)
    case Bad => Bad
    case Read(n, q) => if q + n <= |data| then Read.Read(data[q..q + n], q + n) else Bad
  }

  /** One attribute behind its tag. */
  function ReadAttr(data: seq<byte>, p: nat, tag: byte): (r: Read<Option<Attr>>)
    ensures r.Read? ==> p <= r.pos <= |data|
  {
    if IsText(tag) then
      match ReadString(data, p)
      case Bad => Bad
      case Read(text, q) => Read.Read(Some(Text(tag, text)), q)
    else if Width(tag) > 0 then
      match ReadNum(data, p, Width(tag))
      case Bad => Bad
      case Read(n, q) => Read.Read(Taken(tag, n), q)
    else Bad
  }

  /** All attributes, and the serialization count of a container. */
  datatype Attrs = Attrs(attrs: seq<Attr>, number: nat)

  function ReadAttrs(data: seq<byte>, p: nat, kind: Kind): (r: Read<Attrs>)
    requires p <= |data|
    ensures r.Read? ==> p <= r.pos <= |data|
    decreases |data| - p
  {
    if p == |data| then Read.Read(Attrs([], 0), p)
    else if data[p] == 0 then Read.Read(Attrs([], 0), p + 1)
    else if data[p] == ATTR_CONTAINER_ITEMS then
      match ReadNum(data, p + 1, 4)
      case Bad => Bad
      case Read(n, q) => if kind.Box? then Read.Read(Attrs([], n), q) else Bad
    else
      match ReadAttr(data, p + 1, data[p])
      case Bad => Bad
      case Read(attr, q) =>
        Behind(AsList(attr), ReadAttrs(data, q, kind))
  }

  /** More attributes read, with some already there. */
  function Behind(attrs: seq<Attr>, r: Read<Attrs>): (b: Read<Attrs>)
    ensures b.Read? <==> r.Read?
    ensures b.Read? ==> b.pos == r.pos
  {
    match r
    case Bad => Bad
    case Read(rest, e) => Read.Read(Attrs(attrs + rest.attrs, rest.number), e)
  }

  lemma BehindTwice(a: seq<Attr>, b: seq<Attr>, r: Read<Attrs>)
    ensures Behind(a, Behind(b, r)) == Behind(a + b, r)
    ensures Behind([], r) == r
  {
    if r.Read? {
      assert a + (b + r.value.attrs) == (a + b) + r.value.attrs;
      assert [] + r.value.attrs == r.value.attrs;
    }
  }

  function AsList<T>(x: Option<T>): seq<T> {
    if x.Some? then [x.value] else []
  }

  /** Item::CreateItem makes nothing of type 0 and of unknown types. */
  predicate Creates(kinds: Kinds, id: nat) {
    id != 0 && !kinds(id).NoItem?
  }

  /** loadItem: no item if the type does not exist. */
  function ReadItem(kinds: Kinds, data: seq<byte>, p: nat): (r: Read<Option<Item>>)
    requires p <= |data|
    ensures r.Read? ==> p <= r.pos <= |data|
    decreases |data| - p, 0, 0
  {
    match ReadNum(data, p, 2)
    case Bad => Read.Read(None, p)
    case Read(id, q) =>
      if !Creates(kinds, id) then Read.Read(None, q)
      else
        match ReadAttrs(data, q, kinds(id))
        case Bad => Bad
        case Read(a, s) =>
          if !kinds(id).Holds() then Read.Read(Some(Item(id, a.attrs, [])), s)
          else
            match ReadContents(kinds, data, s, a.number)
            case Bad => Bad
            case Read(items, e) => Read.Read(Some(Item(id, a.attrs, items)), e)
  }

  /** loadContainer: n items and a zero byte, if there is a byte at all. */
  function ReadContents(kinds: Kinds, data: seq<byte>, p: nat, n: nat): (r: Read<seq<Item>>)
    requires p <= |data|
    ensures r.Read? ==> p <= r.pos <= |data|
    decreases |data| - p, 2, n
  {
    match ReadList(kinds, data, p, n)
    case Bad => Bad
    case Read(items, e) =>
      if e == |data| then Read.Read(items, e)
      else if data[e] == 0 then Read.Read(items, e + 1)
      else Bad
  }

  /** n items, each pushed to the front of the list. */
  function ReadList(kinds: Kinds, data: seq<byte>, p: nat, n: nat): (r: Read<seq<Item>>)
    requires p <= |data|
    ensures r.Read? ==> p <= r.pos <= |data|
    decreases |data| - p, 1, n
  {
    if n == 0 then Read.Read([], p)
    else
      match ReadItem(kinds, data, p)
      case Bad => Bad
      case Read(item, q) =>
        match ReadList(kinds, data, q, n - 1)
        case Bad => Bad
        case Read(rest, e) => Read.Read(rest + AsList(item), e)
  }

  // ---------------------------------------------------------------------------------------
  // What survives

  /** What an attribute is after it has been written and read. */
  function Kept(attr: Attr): Option<Attr> {
    match attr
    case Num(tag, value) => Taken(tag, value % Radix(Width(tag)))
    case Text(tag, text) => Some(Text(tag, Cut(text)))
  }

  function KeptAll(attrs: seq<Attr>): seq<Attr> {
    if attrs == [] then [] else AsList(Kept(attrs[0])) + KeptAll(attrs[1..])
  }

  /** What an item is after it has been stored and loaded. */
  function Settled(x: Item): Item
    decreases x, |x.items| + 1
  {
    Item(x.id, KeptAll(x.attrs), SettledList(x, |x.items|))
  }

  function SettledList(x: Item, k: nat): (s: seq<Item>)
    requires k <= |x.items|
    ensures |s| == k && forall i :: 0 <= i < k ==> s[i] == Settled(x.items[i])
    decreases x, k
  {
    if k == 0 then [] else SettledList(x, k - 1) + [Settled(x.items[k - 1])]
  }

  /** An item the server can hold: known types, 16-bit ids, 32-bit list sizes. */
  predicate Storable(kinds: Kinds, x: Item) {
    && x.id < 65536 && Creates(kinds, x.id)
    && (forall a :: a in x.attrs ==> Written(a))
    && (!kinds(x.id).Holds() ==> x.items == [])
    && |x.items| < 0x1_0000_0000
    && forall i :: 0 <= i < |x.items| ==> Storable(kinds, x.items[i])
  }

  /** No depot, at any depth. */
  predicate DepotFree(kinds: Kinds, x: Item) {
    && !kinds(x.id).DepotBox?
    && forall i :: 0 <= i < |x.items| ==> DepotFree(kinds, x.items[i])
  }

  // -- the count of an item

  /** The count of an item after one setter: setSubType takes counts and charges, unless they are kept elsewhere. */
  function CountSet(subTypeIsCount: bool, attr: Attr, count: nat): nat {
    match attr
    case Num(tag, value) =>
      if (tag == ATTR_COUNT || tag == ATTR_RUNE_CHARGES) && subTypeIsCount then value else count
    case Text(_, _) => count
  }

  function CountRead(subTypeIsCount: bool, attrs: seq<Attr>, count: nat): nat {
    if attrs == [] then count else CountRead(subTypeIsCount, attrs[1..], CountSet(subTypeIsCount, attrs[0], count))
  }

  /** The count of an item that is made for a subtype: only that of a stack counts. */
  function CountMade(t: Containers.ItemType, subType: nat): nat {
    if t.stackable && !t.fluid && subType != 0 then subType else 1
  }

  lemma {:induction false} KeptAllConcat(s: seq<Attr>, t: seq<Attr>)
    ensures KeptAll(s + t) == KeptAll(s) + KeptAll(t)
  {
    hide Kept;
    if s == [] {
      assert s + t == t && KeptAll(s) + KeptAll(t) == KeptAll(t);
    } else {
      assert (s + t)[1..] == s[1..] + t;
      KeptAllConcat(s[1..], t);
      Regroup(AsList(Kept(s[0])), KeptAll(s[1..]), KeptAll(t));
    }
  }

  lemma {:induction false} CountReadConcat(subTypeIsCount: bool, s: seq<Attr>, t: seq<Attr>, count: nat)
    ensures CountRead(subTypeIsCount, s + t, count)
         == CountRead(subTypeIsCount, t, CountRead(subTypeIsCount, s, count))
  {
    hide CountSet;
    if s == [] {
      assert s + t == t;
    } else {
      assert (s + t)[1..] == s[1..] + t;
      CountReadConcat(subTypeIsCount, s[1..], t, CountSet(subTypeIsCount, s[0], count));
    }
  }

  /** Neither a count nor charges. */
  predicate NoCount(attr: Attr) {
    attr.tag != ATTR_COUNT && attr.tag != ATTR_RUNE_CHARGES
  }

  /** What sets no count leaves it, as does everything if the subtype is no count. */
  lemma {:induction false} CountStays(subTypeIsCount: bool, attrs: seq<Attr>, count: nat)
    requires !subTypeIsCount || forall a :: a in attrs ==> NoCount(a)
    ensures CountRead(subTypeIsCount, KeptAll(attrs), count) == count
  {
    hide Kept;
    if attrs != [] {
      var one := AsList(Kept(attrs[0]));
      KeptTag(attrs[0]);
      assert attrs[0] in attrs;
      CountStays(subTypeIsCount, attrs[1..], count);
      CountReadConcat(subTypeIsCount, one, KeptAll(attrs[1..]), count);
      if Kept(attrs[0]).Some? { CountReadOne(subTypeIsCount, Kept(attrs[0]).value, count); }
    }
  }

  lemma CountReadOne(subTypeIsCount: bool, attr: Attr, count: nat)
    ensures CountRead(subTypeIsCount, [attr], count) == CountSet(subTypeIsCount, attr, count)
  {
    var one := [attr];
    assert one[1..] == [];
  }

  lemma KeptTag(attr: Attr)
    ensures Kept(attr).Some? ==> Kept(attr).value.tag == attr.tag
  {
  }

  /** When the count of an item that is made for its subtype and reads its attributes is what it was. */
  predicate CountComesBack(t: Containers.ItemType, count: nat, g: Getters) {
    if t.fluid || !t.stackable then count == 1
    else if t.Charged() then count == CountMade(t, g.charges)
    else count < 256
  }

  lemma CountBack(t: Containers.ItemType, count: nat, g: Getters)
    ensures CountRead(t.SubTypeIsCount(), KeptAll(Serialized(t, count, g)), CountMade(t, SubType(t, count, g))) == count
            <==> CountComesBack(t, count, g)
  {
    hide CountRead, KeptAll, Serialized;
    CountAfter(t, count, g, CountMade(t, SubType(t, count, g)));
  }

  /** The count that the written attributes set: that of a stack modulo 256, and none otherwise. */
  lemma CountAfter(t: Containers.ItemType, count: nat, g: Getters, made: nat)
    ensures CountRead(t.SubTypeIsCount(), KeptAll(Serialized(t, count, g)), made)
         == if t.stackable && t.SubTypeIsCount() then count % 256 else made
  {
    hide CountRead, KeptAll, Details;
    if t.SubTypeIsCount() {
      var first: seq<Attr> := if t.stackable then [Num(ATTR_COUNT, count)] else [];
      DetailsSetNothing(t, g);
      assert Serialized(t, count, g) == first + Details(t, g);
      KeptAllConcat(first, Details(t, g));
      CountReadConcat(true, KeptAll(first), KeptAll(Details(t, g)), made);
      CountStays(true, Details(t, g), CountRead(true, KeptAll(first), made));
      if t.stackable { CountOfOne(count, made); } else { CountStays(true, first, made); }
    } else {
      CountStays(false, Serialized(t, count, g), made);
    }
  }

  lemma CountOfOne(count: nat, made: nat)
    ensures CountRead(true, KeptAll([Num(ATTR_COUNT, count)]), made) == count % 256
  {
    var one := [Num(ATTR_COUNT, count)];
    assert one[1..] == [] && Radix(1) == 256 * Radix(0);
    var kept := [Num(ATTR_COUNT, count % 256)];
    assert KeptAll(one) == kept + [] == kept && kept[1..] == [];
  }

  // -- what else comes back

  /** The getters of an item just made: no text, no action, the charges and the duration of its type. */
  function GettersMade(t: Containers.ItemType, subType: nat): Getters {
    Getters(if t.fluid then subType else 0,
            if t.fluid || t.stackable || subType == 0 || !t.Charged() then t.charges else subType,
            0, [], [], [], 1000 * t.decayTime, 0)
  }

  /** The getters after one setter. */
  function Set(t: Containers.ItemType, g: Getters, attr: Attr): Getters {
    match attr
    case Num(tag, value) =>
      if tag == ATTR_COUNT || tag == ATTR_RUNE_CHARGES then
        if t.fluid then g.(fluidType := value) else if t.Charged() then g.(charges := value) else g
      else if tag == ATTR_ACTION_ID then g.(actionId := Max(100, value))
      else if tag == ATTR_DURATION then g.(duration := value)
      else if tag == ATTR_DECAYING_STATE then g.(decaying := value)
      else g
    case Text(tag, text) =>
      if tag == ATTR_TEXT then g.(text := text)
      else if tag == ATTR_WRITTENBY then g.(writer := text)
      else if tag == ATTR_DESC then g.(specialDesc := text)
      else g
  }

  function SetAll(t: Containers.ItemType, g: Getters, attrs: seq<Attr>): Getters
    decreases |attrs|
  {
    if attrs == [] then g else SetAll(t, Set(t, g, attrs[0]), attrs[1..])
  }

  /** When an item that is made and reads what was written of another answers to every getter as that did. */
  predicate GettersComeBack(t: Containers.ItemType, g: Getters) {
    && g.fluidType == (if !t.fluid then 0 else if t.Charged() then g.charges % 256 else g.fluidType % 256)
    && g.charges == (if t.fluid || !t.Charged() then t.charges else g.charges % 256)
    && (if t.moveable then g.actionId == 0 || 100 <= g.actionId < 65536 else g.actionId == 0)
    && |g.text| < 65536 && |g.writer| < 65536 && |g.specialDesc| < 65536
    && (g.duration == 0 ==> t.decayTime == 0) && g.duration < 0x8000_0000
    && (g.decaying == 0 || g.decaying == DECAYING_PENDING)
  }

  /** What comes back, getter by getter, whatever subtype the item is made for. */
  lemma GettersAre(t: Containers.ItemType, count: nat, g: Getters, subType: nat)
    ensures var r := SetAll(t, GettersMade(t, subType), KeptAll(Serialized(t, count, g)));
            && r.fluidType == (if !t.fluid then 0 else (if t.Charged() then g.charges else g.fluidType) % 256)
            && r.charges == (if t.fluid || !t.Charged() then t.charges else g.charges % 256)
            && r.actionId == (if t.moveable && g.actionId != 0 then Max(100, g.actionId % 65536) else 0)
            && r.text == g.text[..|g.text| % 65536]
            && r.writer == g.writer[..|g.writer| % 65536]
            && r.specialDesc == g.specialDesc[..|g.specialDesc| % 65536]
            && r.duration == (if g.duration == 0 then 1000 * t.decayTime
                              else if g.duration % 0x1_0000_0000 < 0x8000_0000 then g.duration % 0x1_0000_0000 else 0)
            && r.decaying == (if g.decaying == 1 || g.decaying == 2 then 2 else 0)
  {
    hide KeptAll, Texts, Decay, SetAll, Set;
    var h := GettersMade(t, subType);
    var first := (if t.stackable || t.fluid then [Num(ATTR_COUNT, SubType(t, count, g))] else [])
                 + (if t.Charged() then [Num(ATTR_RUNE_CHARGES, g.charges)] else []);
    var second := if t.moveable && g.actionId != 0 then [Num(ATTR_ACTION_ID, g.actionId)] else [];
    assert Serialized(t, count, g) == first + (second + Texts(g) + Decay(g));
    SetTwice(t, h, first, second + Texts(g) + Decay(g));
    CountsSet(t, h, count, g);
    var h1 := SetAll(t, h, KeptAll(first));
    SetTwice(t, h1, second + Texts(g), Decay(g));
    SetTwice(t, h1, second, Texts(g));
    ActionSet(t, h1, g);
    var h2 := SetAll(t, h1, KeptAll(second));
    TextsSet(t, h2, g);
    DecaySet(t, SetAll(t, h2, KeptAll(Texts(g))), g);
  }

  /** Whatever subtype an item is made for, the attributes bring back all getters exactly if these come back. */
  ghost predicate BringsBack(t: Containers.ItemType, g: Getters, attrs: seq<Attr>) {
    forall subType: nat :: SetAll(t, GettersMade(t, subType), attrs) == g <==> GettersComeBack(t, g)
  }

  lemma GettersBack(t: Containers.ItemType, count: nat, g: Getters)
    ensures BringsBack(t, g, KeptAll(Serialized(t, count, g)))
  {
    hide SetAll, KeptAll, Serialized, GettersMade;
    forall subType: nat
      ensures SetAll(t, GettersMade(t, subType), KeptAll(Serialized(t, count, g))) == g <==> GettersComeBack(t, g)
    {
      GettersAre(t, count, g, subType);
    }
  }

  /** When the count of an item in a house comes back, and of all items in it: a byte for a stack, 1 for others. */
  predicate CountsBack(types: Containers.ItemTypes, h: Held) {
    && (if types(h.id).stackable && types(h.id).SubTypeIsCount() then h.count < 256 else h.count == 1)
    && forall i :: 0 <= i < |h.items| ==> CountsBack(types, h.items[i])
  }

  /** x is h, type by type, nesting and order, and its attributes bring back the getters of every item. */
  ghost predicate Gives(types: Containers.ItemTypes, h: Held, x: Item)
    decreases h
  {
    && x.id == h.id && |x.items| == |h.items| && BringsBack(types(h.id), h.getters, x.attrs)
    && forall i :: 0 <= i < |h.items| ==> Gives(types, h.items[i], x.items[i])
  }

  lemma {:induction false} LoadedGives(types: Containers.ItemTypes, h: Held)
    ensures Gives(types, h, Settled(Stored(types, h)))
  {
    hide KeptAll, Serialized, BringsBack;
    GettersBack(types(h.id), h.count, h.getters);
    forall i | 0 <= i < |h.items| ensures Gives(types, h.items[i], Settled(Stored(types, h.items[i]))) {
      LoadedGives(types, h.items[i]);
    }
  }

  lemma SetTwice(t: Containers.ItemType, g: Getters, s: seq<Attr>, s': seq<Attr>)
    ensures SetAll(t, g, KeptAll(s + s')) == SetAll(t, SetAll(t, g, KeptAll(s)), KeptAll(s'))
  {
    hide KeptAll, Set;
    KeptAllConcat(s, s');
    SetAllConcat(t, g, KeptAll(s), KeptAll(s'));
  }

  lemma {:induction false} SetAllConcat(t: Containers.ItemType, g: Getters, s: seq<Attr>, s': seq<Attr>)
    ensures SetAll(t, g, s + s') == SetAll(t, SetAll(t, g, s), s')
    decreases |s|
  {
    hide Set;
    if s == [] {
      assert s + s' == s';
    } else {
      assert (s + s')[1..] == s[1..] + s';
      SetAllConcat(t, Set(t, g, s[0]), s[1..], s');
    }
  }

  lemma NoneSet(t: Containers.ItemType, g: Getters)
    ensures SetAll(t, g, KeptAll([])) == g
  {
  }

  lemma OneSet(t: Containers.ItemType, g: Getters, attr: Attr)
    ensures SetAll(t, g, KeptAll([attr])) == if Kept(attr).Some? then Set(t, g, Kept(attr).value) else g
  {
    hide Set, Kept;
    var one, kept := [attr], AsList(Kept(attr));
    assert one[1..] == [] && KeptAll(one) == kept + [] == kept;
    if kept != [] { assert kept[1..] == []; }
  }

  lemma CountsSet(t: Containers.ItemType, h: Getters, count: nat, g: Getters)
    ensures var first := (if t.stackable || t.fluid then [Num(ATTR_COUNT, SubType(t, count, g))] else [])
                         + (if t.Charged() then [Num(ATTR_RUNE_CHARGES, g.charges)] else []);
            SetAll(t, h, KeptAll(first))
            == h.(fluidType := if t.fluid then (if t.Charged() then g.charges else g.fluidType) % 256 else h.fluidType,
                  charges := if t.Charged() && !t.fluid then g.charges % 256 else h.charges)
  {
    hide SetAll, KeptAll;
    assert Radix(1) == 256 * Radix(0);
    var s := if t.stackable || t.fluid then [Num(ATTR_COUNT, SubType(t, count, g))] else [];
    var s' := if t.Charged() then [Num(ATTR_RUNE_CHARGES, g.charges)] else [];
    SetTwice(t, h, s, s');
    NoneSet(t, h);
    OneSet(t, h, Num(ATTR_COUNT, SubType(t, count, g)));
    var h' := SetAll(t, h, KeptAll(s));
    NoneSet(t, h');
    OneSet(t, h', Num(ATTR_RUNE_CHARGES, g.charges));
  }

  lemma ActionSet(t: Containers.ItemType, h: Getters, g: Getters)
    ensures var s := if t.moveable && g.actionId != 0 then [Num(ATTR_ACTION_ID, g.actionId)] else [];
            SetAll(t, h, KeptAll(s))
            == h.(actionId := if t.moveable && g.actionId != 0 then Max(100, g.actionId % 65536) else h.actionId)
  {
    hide SetAll, KeptAll;
    FourBytes();
    NoneSet(t, h);
    OneSet(t, h, Num(ATTR_ACTION_ID, g.actionId));
  }

  lemma TextsSet(t: Containers.ItemType, h: Getters, g: Getters)
    ensures SetAll(t, h, KeptAll(Texts(g)))
         == h.(text := if g.text != [] then Cut(g.text) else h.text,
               writer := if g.writer != [] then Cut(g.writer) else h.writer,
               specialDesc := if g.specialDesc != [] then Cut(g.specialDesc) else h.specialDesc)
  {
    hide SetAll, KeptAll;
    var s := if g.text != [] then [Text(ATTR_TEXT, g.text)] else [];
    var s' := if g.writer != [] then [Text(ATTR_WRITTENBY, g.writer)] else [];
    var s'' := if g.specialDesc != [] then [Text(ATTR_DESC, g.specialDesc)] else [];
    SetTwice(t, h, s + s', s'');
    SetTwice(t, h, s, s');
    NoneSet(t, h);
    OneSet(t, h, Text(ATTR_TEXT, g.text));
    var h' := SetAll(t, h, KeptAll(s));
    NoneSet(t, h');
    OneSet(t, h', Text(ATTR_WRITTENBY, g.writer));
    var h'' := SetAll(t, h', KeptAll(s'));
    NoneSet(t, h'');
    OneSet(t, h'', Text(ATTR_DESC, g.specialDesc));
  }

  lemma DecaySet(t: Containers.ItemType, h: Getters, g: Getters)
    ensures var d := g.duration % 0x1_0000_0000;
            SetAll(t, h, KeptAll(Decay(g)))
            == h.(duration := if g.duration == 0 then h.duration else if d < 0x8000_0000 then d else 0,
                  decaying := if g.decaying == 1 || g.decaying == 2 then DECAYING_PENDING else h.decaying)
  {
    hide SetAll, KeptAll;
    FourBytes();
    assert Radix(1) == 256 * Radix(0);
    var s := if g.duration != 0 then [Num(ATTR_DURATION, g.duration)] else [];
    var s' := if g.decaying == DECAYING_TRUE || g.decaying == DECAYING_PENDING
              then [Num(ATTR_DECAYING_STATE, g.decaying)] else [];
    SetTwice(t, h, s, s');
    NoneSet(t, h);
    OneSet(t, h, Num(ATTR_DURATION, g.duration));
    var h' := SetAll(t, h, KeptAll(s));
    NoneSet(t, h');
    OneSet(t, h', Num(ATTR_DECAYING_STATE, g.decaying));
  }

  lemma DetailsSetNothing(t: Containers.ItemType, g: Getters)
    ensures forall a :: a in Details(t, g) ==> NoCount(a) && Written(a)
  {
  }

  lemma SerializedIsWritten(t: Containers.ItemType, count: nat, g: Getters)
    ensures forall a :: a in Serialized(t, count, g) ==> Written(a)
  {
    hide Details;
    DetailsSetNothing(t, g);
  }

  // ---------------------------------------------------------------------------------------
  // Reading what was written

  lemma AttrRoundTrip(data: seq<byte>, p: nat, attr: Attr)
    requires Written(attr) && Stands(data, p, AttrBytes(attr))
    ensures |AttrBytes(attr)| >= 1 && p + |AttrBytes(attr)| <= |data|
    ensures data[p] == attr.tag && data[p] != 0 && data[p] != ATTR_CONTAINER_ITEMS
    ensures ReadAttr(data, p + 1, data[p]) == Read.Read(Kept(attr), p + |AttrBytes(attr)|)
  {
    match attr
    case Num(tag, value) =>
      StandsParts(data, p, [tag], Le(value, Width(tag)));
      NumberRoundTrip(data, p + 1, value, Width(tag));
    case Text(tag, text) =>
      StandsParts(data, p, [tag], StringBytes(text));
      StringRoundTrip(data, p + 1, text);
  }

  lemma AttrsUnfold(attrs: seq<Attr>)
    requires attrs != []
    ensures AttrsBytes(attrs) == AttrBytes(attrs[0]) + AttrsBytes(attrs[1..])
    ensures KeptAll(attrs) == AsList(Kept(attrs[0])) + KeptAll(attrs[1..])
  {
  }

  lemma ReadAttrsStep(data: seq<byte>, p: nat, kind: Kind, attr: Attr)
    requires Written(attr) && Stands(data, p, AttrBytes(attr))
    ensures var q := p + |AttrBytes(attr)|;
            && q <= |data| && p <= |data|
            && ReadAttrs(data, p, kind) == Behind(AsList(Kept(attr)), ReadAttrs(data, q, kind))
  {
    hide ReadAttr, Kept, AttrBytes, Behind;
    AttrRoundTrip(data, p, attr);
  }

  /** Written attributes are read one by one, up to what follows them. */
  lemma {:induction false} AttrsRoundTrip(data: seq<byte>, p: nat, kind: Kind, attrs: seq<Attr>)
    requires (forall a :: a in attrs ==> Written(a)) && Stands(data, p, AttrsBytes(attrs))
    ensures var q := p + |AttrsBytes(attrs)|;
            && q <= |data| && p <= |data|
            && ReadAttrs(data, p, kind) == Behind(KeptAll(attrs), ReadAttrs(data, q, kind))
    decreases |attrs|
  {
    hide ReadAttrs, Kept, AttrBytes, Stands, Written, Behind;
    if attrs == [] {
      NoAttrs(data, p);
      BehindTwice([], [], ReadAttrs(data, p, kind));
    } else {
      AttrsUnfold(attrs);
      StandsParts(data, p, AttrBytes(attrs[0]), AttrsBytes(attrs[1..]));
      var q := p + |AttrBytes(attrs[0])|;
      ReadAttrsStep(data, p, kind, attrs[0]);
      AttrsRoundTrip(data, q, kind, attrs[1..]);
      BehindTwice(AsList(Kept(attrs[0])), KeptAll(attrs[1..]), ReadAttrs(data, q + |AttrsBytes(attrs[1..])|, kind));
    }
  }

  /** The bytes of attributes alone are read to their end. */
  lemma AttrsAlone(kind: Kind, attrs: seq<Attr>)
    requires forall a :: a in attrs ==> Written(a)
    ensures ReadAttrs(AttrsBytes(attrs), 0, kind) == Read.Read(Attrs(KeptAll(attrs), 0), |AttrsBytes(attrs)|)
  {
    hide AttrsBytes, KeptAll, Written;
    var data := AttrsBytes(attrs);
    assert data[0..0 + |data|] == data;
    AttrsRoundTrip(data, 0, kind, attrs);
    assert KeptAll(attrs) + [] == KeptAll(attrs);
  }

  lemma NoAttrs(data: seq<byte>, p: nat)
    requires Stands(data, p, AttrsBytes([]))
    ensures p <= |data| && AttrsBytes([]) == [] && KeptAll([]) == []
  {
  }

  /** An item that holds nothing ends with a zero byte. */
  lemma ReadPlainEnd(data: seq<byte>, p: nat, kind: Kind)
    requires Stands(data, p, [0])
    ensures p <= |data| && ReadAttrs(data, p, kind) == Read.Read(Attrs([], 0), p + 1)
  {
    assert data[p] == data[p..p + 1][0];
  }

  /** The container tag ends the attributes of a container, and fails those of a depot. */
  lemma ReadBoxEnd(data: seq<byte>, p: nat, kind: Kind, n: nat)
    requires Stands(data, p, [ATTR_CONTAINER_ITEMS] + Le(n, 4)) && n < 0x1_0000_0000
    ensures p + 5 <= |data|
    ensures ReadAttrs(data, p, kind) == if kind.Box? then Read.Read(Attrs([], n), p + 5) else Bad
  {
    hide Le, Radix, Val, Behind, ReadAttr;
    StandsParts(data, p, [ATTR_CONTAINER_ITEMS], Le(n, 4));
    assert data[p] == data[p..p + 1][0];
    NumberRoundTrip(data, p + 1, n, 4);
    FourBytes();
  }

  lemma FourBytes()
    ensures Radix(4) == 0x1_0000_0000 && Radix(2) == 0x1_0000
  {
    assert Radix(1) == 256 * Radix(0) && Radix(2) == 256 * Radix(1);
    assert Radix(3) == 256 * Radix(2) && Radix(4) == 256 * Radix(3);
  }

  /** Where the parts of a stored item stand. */
  lemma ItemParts(kinds: Kinds, data: seq<byte>, p: nat, x: Item)
    requires Stands(data, p, ItemBytes(kinds, x))
    ensures |ItemBytes(kinds, x)| == 2 + |AttrsBytes(x.attrs)|
                                  + (if kinds(x.id).Holds() then 5 + |ListBytes(kinds, x, |x.items|)| else 0) + 1
    ensures Stands(data, p, Le(x.id, 2)) && Stands(data, p + 2, AttrsBytes(x.attrs))
    ensures var q := p + 2 + |AttrsBytes(x.attrs)|;
            if kinds(x.id).Holds() then
              && Stands(data, q, [ATTR_CONTAINER_ITEMS] + Le(|x.items|, 4))
              && Stands(data, q + 5, ListBytes(kinds, x, |x.items|))
              && Stands(data, q + 5 + |ListBytes(kinds, x, |x.items|)|, [0])
            else Stands(data, q, [0])
  {
    hide Stands, AttrsBytes, ListBytes, Le;
    var s, t, z := Le(x.id, 2), AttrsBytes(x.attrs), [0];
    var l := ListBytes(kinds, x, |x.items|);
    var n := [ATTR_CONTAINER_ITEMS] + Le(|x.items|, 4);
    if kinds(x.id).Holds() {
      StandsParts(data, p, s + t + (n + l), z);
      StandsParts(data, p, s + t, n + l);
      StandsParts(data, p, s, t);
      StandsParts(data, p + |s + t|, n, l);
    } else {
      assert s + t + [] == s + t;
      StandsParts(data, p, s + t, z);
      StandsParts(data, p, s, t);
    }
  }

  lemma ReadId(data: seq<byte>, p: nat, id: nat)
    requires Stands(data, p, Le(id, 2)) && id < 65536
    ensures ReadNum(data, p, 2) == Read.Read(id, p + 2)
  {
    NumberRoundTrip(data, p, id, 2);
    FourBytes();
  }

  /** The first k items of a stored list come back in their order, or fail at a depot. */
  lemma {:induction false} ListRoundTrip(kinds: Kinds, data: seq<byte>, p: nat, x: Item, k: nat)
    requires k <= |x.items| && (forall i :: 0 <= i < |x.items| ==> Storable(kinds, x.items[i]))
    requires Stands(data, p, ListBytes(kinds, x, k))
    ensures p <= |data|
    ensures (forall i :: 0 <= i < k ==> DepotFree(kinds, x.items[i])) ==>
              ReadList(kinds, data, p, k)
              == Read.Read(SettledList(x, k), p + |ListBytes(kinds, x, k)|)
    ensures (exists i :: 0 <= i < k && !DepotFree(kinds, x.items[i])) ==> ReadList(kinds, data, p, k) == Bad
    decreases x, k
  {
    hide Settled, ItemBytes, ReadItem, Stands, Storable, DepotFree;
    if k == 0 {
      assert p <= |data| by { StandsIn(data, p, []); }
    } else {
      var y, rest := x.items[k - 1], ListBytes(kinds, x, k - 1);
      StandsParts(data, p, ItemBytes(kinds, y), rest);
      StandsIn(data, p, ItemBytes(kinds, y));
      ItemRoundTrip(kinds, data, p, y);
      if DepotFree(kinds, y) {
        ListRoundTrip(kinds, data, p + |ItemBytes(kinds, y)|, x, k - 1);
      }
    }
  }

  lemma StandsIn(data: seq<byte>, p: nat, s: seq<byte>)
    requires Stands(data, p, s)
    ensures p + |s| <= |data|
  {
  }

  /**
   What saveItem wrote is read back: the same types, nesting and order, each attribute as far as it
   survives, and reading stops right behind the item; loading fails exactly if a depot is inside.
   */
  lemma {:induction false} ItemRoundTrip(kinds: Kinds, data: seq<byte>, p: nat, x: Item)
    requires Storable(kinds, x) && Stands(data, p, ItemBytes(kinds, x))
    ensures p <= |data|
    ensures ReadItem(kinds, data, p)
         == if DepotFree(kinds, x) then Read.Read(Some(Settled(x)), p + |ItemBytes(kinds, x)|) else Bad
    decreases x, |x.items| + 1
  {
    hide ItemBytes, ListBytes, AttrsBytes, KeptAll, ReadAttrs, ReadNum, Stands, ReadList;
    StandsIn(data, p, ItemBytes(kinds, x));
    ItemParts(kinds, data, p, x);
    ReadId(data, p, x.id);
    var q := p + 2 + |AttrsBytes(x.attrs)|;
    AttrsRoundTrip(data, p + 2, kinds(x.id), x.attrs);
    assert KeptAll(x.attrs) + [] == KeptAll(x.attrs);
    if kinds(x.id).Holds() {
      ReadBoxEnd(data, q, kinds(x.id), |x.items|);
      if kinds(x.id).Box? {
        ListRoundTrip(kinds, data, q + 5, x, |x.items|);
        ReadZero(data, q + 5 + |ListBytes(kinds, x, |x.items|)|);
      }
    } else {
      ReadPlainEnd(data, q, kinds(x.id));
    }
  }

  lemma ReadZero(data: seq<byte>, p: nat)
    requires Stands(data, p, [0])
    ensures p + 1 <= |data| && data[p] == 0
  {
    assert data[p] == data[p..p + 1][0];
  }

  // ---------------------------------------------------------------------------------------
  // When nothing is lost

  /** The attribute fits its field, and loading does not change it. */
  predicate Exact(attr: Attr) {
    match attr
    case Num(tag, value) =>
      && value < Radix(Width(tag))
      && (tag == ATTR_DURATION ==> value < 0x8000_0000)
      && (tag == ATTR_DECAYING_STATE ==> value == DECAYING_PENDING)
    case Text(_, text) => |text| < 65536
  }

  predicate ExactItem(x: Item) {
    && (forall a :: a in x.attrs ==> Exact(a))
    && forall i :: 0 <= i < |x.items| ==> ExactItem(x.items[i])
  }

  lemma KeptExact(attr: Attr)
    requires Written(attr)
    ensures Kept(attr) == Some(attr) <==> Exact(attr)
    ensures Kept(attr).Some? ==> Written(Kept(attr).value) && Exact(Kept(attr).value)
  {
    match attr
    case Num(tag, value) =>
      FourBytes();
      assert Radix(1) == 256 * Radix(0);
      ModSmall(value, Radix(Width(tag)));
    case Text(_, text) =>
      assert |text| >= 65536 ==> |Cut(text)| < |text|;
  }

  lemma ModSmall(n: nat, m: nat)
    requires m >= 1
    ensures n % m < m
    ensures n % m == n <==> n < m
  {
    ModIs(n % m, m, 0, n % m);
    if n < m { ModIs(n, m, 0, n); }
  }

  lemma {:induction false} KeptAllExact(attrs: seq<Attr>)
    requires forall a :: a in attrs ==> Written(a)
    ensures |KeptAll(attrs)| <= |attrs|
    ensures KeptAll(attrs) == attrs <==> forall a :: a in attrs ==> Exact(a)
    ensures forall a :: a in KeptAll(attrs) ==> Written(a) && Exact(a)
  {
    hide Kept, Exact, Written;
    if attrs != [] {
      var a, rest := attrs[0], attrs[1..];
      KeptExact(a);
      KeptAllExact(rest);
      AttrsUnfold(attrs);
      assert attrs == [a] + rest;
      if Kept(a).Some? {
        assert KeptAll(attrs) == [Kept(a).value] + KeptAll(rest);
        assert KeptAll(attrs)[1..] == KeptAll(rest);
      }
    }
  }

  /** An item comes back unchanged exactly if every attribute fits, at every depth. */
  lemma {:induction false} SettledExact(kinds: Kinds, x: Item)
    requires Storable(kinds, x)
    ensures Settled(x) == x <==> ExactItem(x)
  {
    hide Written, Exact, KeptAll;
    KeptAllExact(x.attrs);
    var l := SettledList(x, |x.items|);
    forall i | 0 <= i < |x.items|
      ensures l[i] == x.items[i] <==> ExactItem(x.items[i])
    {
      SettledExact(kinds, x.items[i]);
    }
    assert l == x.items <==> forall i :: 0 <= i < |x.items| ==> l[i] == x.items[i];
  }

  /** What has been stored and loaded once is storable and loses nothing any more. */
  lemma {:induction false} SettledIsExact(kinds: Kinds, x: Item)
    requires Storable(kinds, x)
    ensures Storable(kinds, Settled(x)) && ExactItem(Settled(x)) && Settled(Settled(x)) == Settled(x)
  {
    hide Written, Exact, KeptAll;
    KeptAllExact(x.attrs);
    var y := Settled(x);
    forall i | 0 <= i < |x.items|
      ensures Storable(kinds, y.items[i]) && ExactItem(y.items[i])
    {
      SettledIsExact(kinds, x.items[i]);
    }
    assert Storable(kinds, y);
    SettledExact(kinds, y);
  }

  // ---------------------------------------------------------------------------------------
  // The program

  /** One attribute, tag and value. */
  method AddAttr(stream: PropWriteStream, attr: Attr)
    requires stream.Valid()
    modifies stream, stream.buffer
    ensures stream.Valid() && (stream.buffer == old(stream.buffer) || fresh(stream.buffer))
    ensures stream.Contents() == old(stream.Contents()) + AttrBytes(attr)
  {
    hide Le, StringBytes;
    ghost var now := stream.Contents();
    stream.AddBytes([attr.tag]);
    match attr {
      case Num(tag, value) => stream.AddValue(value, Width(tag));
      case Text(tag, text) => stream.AddString(text);
    }
    AttrAppended(now, attr, stream.Contents());
  }

  /** Item::serializeAttr. */
  method SerializeAttr(stream: PropWriteStream, t: Containers.ItemType, count: nat, g: Getters)
    requires stream.Valid()
    modifies stream, stream.buffer
    ensures stream.Valid() && (stream.buffer == old(stream.buffer) || fresh(stream.buffer))
    ensures stream.Contents() == old(stream.Contents()) + AttrsBytes(Serialized(t, count, g))
  {
    hide AttrsBytes, AttrBytes, Details;
    ghost var before := stream.Contents();
    ghost var done: seq<Attr> := [];
    NothingWritten(before);
    if t.stackable || t.fluid {
      AddAttr(stream, Num(ATTR_COUNT, SubType(t, count, g)));
      done := WrittenOn(before, done, Num(ATTR_COUNT, SubType(t, count, g)));
    }
    if t.Charged() {
      AddAttr(stream, Num(ATTR_RUNE_CHARGES, g.charges));
      done := WrittenOn(before, done, Num(ATTR_RUNE_CHARGES, g.charges));
    }
    SerializeDetails(stream, t, g);
    AllWritten(before, done, Details(t, g));
    assert Serialized(t, count, g) == done + Details(t, g);
  }

  /** The part of serializeAttr behind counts and charges. */
  method SerializeDetails(stream: PropWriteStream, t: Containers.ItemType, g: Getters)
    requires stream.Valid()
    modifies stream, stream.buffer
    ensures stream.Valid() && (stream.buffer == old(stream.buffer) || fresh(stream.buffer))
    ensures stream.Contents() == old(stream.Contents()) + AttrsBytes(Details(t, g))
  {
    hide AttrsBytes, AttrBytes, Texts, Decay;
    ghost var before := stream.Contents();
    ghost var done: seq<Attr> := [];
    NothingWritten(before);
    if t.moveable {
      if g.actionId != 0 {
        AddAttr(stream, Num(ATTR_ACTION_ID, g.actionId));
        done := WrittenOn(before, done, Num(ATTR_ACTION_ID, g.actionId));
      }
    }
    SerializeTexts(stream, g);
    AllWritten(before, done, Texts(g));
    SerializeDecay(stream, g);
    AllWritten(before, done + Texts(g), Decay(g));
    assert Details(t, g) == done + Texts(g) + Decay(g);
  }

  /** The part of serializeAttr that writes texts. */
  method SerializeTexts(stream: PropWriteStream, g: Getters)
    requires stream.Valid()
    modifies stream, stream.buffer
    ensures stream.Valid() && (stream.buffer == old(stream.buffer) || fresh(stream.buffer))
    ensures stream.Contents() == old(stream.Contents()) + AttrsBytes(Texts(g))
  {
    hide AttrsBytes, AttrBytes;
    ghost var before := stream.Contents();
    ghost var done: seq<Attr> := [];
    NothingWritten(before);
    if g.text != [] {
      AddAttr(stream, Text(ATTR_TEXT, g.text));
      done := WrittenOn(before, done, Text(ATTR_TEXT, g.text));
    }
    if g.writer != [] {
      AddAttr(stream, Text(ATTR_WRITTENBY, g.writer));
      done := WrittenOn(before, done, Text(ATTR_WRITTENBY, g.writer));
    }
    if g.specialDesc != [] {
      AddAttr(stream, Text(ATTR_DESC, g.specialDesc));
      done := WrittenOn(before, done, Text(ATTR_DESC, g.specialDesc));
    }
    assert done == Texts(g);
  }

  /** The part of serializeAttr about decay. */
  method SerializeDecay(stream: PropWriteStream, g: Getters)
    requires stream.Valid()
    modifies stream, stream.buffer
    ensures stream.Valid() && (stream.buffer == old(stream.buffer) || fresh(stream.buffer))
    ensures stream.Contents() == old(stream.Contents()) + AttrsBytes(Decay(g))
  {
    hide AttrsBytes, AttrBytes;
    ghost var before := stream.Contents();
    ghost var done: seq<Attr> := [];
    NothingWritten(before);
    if g.duration != 0 {
      AddAttr(stream, Num(ATTR_DURATION, g.duration));
      done := WrittenOn(before, done, Num(ATTR_DURATION, g.duration));
    }
    if g.decaying == DECAYING_TRUE || g.decaying == DECAYING_PENDING {
      AddAttr(stream, Num(ATTR_DECAYING_STATE, g.decaying));
      done := WrittenOn(before, done, Num(ATTR_DECAYING_STATE, g.decaying));
    }
    assert done == Decay(g);
  }

  lemma NothingWritten(before: seq<byte>)
    ensures before + AttrsBytes([]) == before
  {
  }

  lemma AllWritten(before: seq<byte>, done: seq<Attr>, more: seq<Attr>)
    ensures before + AttrsBytes(done) + AttrsBytes(more) == before + AttrsBytes(done + more)
  {
    hide AttrsBytes;
    AttrsConcat(done, more);
    Regroup(before, AttrsBytes(done), AttrsBytes(more));
  }

  /** One more attribute behind those already written. */
  lemma WrittenOn(before: seq<byte>, done: seq<Attr>, attr: Attr) returns (more: seq<Attr>)
    ensures more == done + [attr]
    ensures before + AttrsBytes(done) + AttrBytes(attr) == before + AttrsBytes(more)
  {
    hide AttrBytes;
    more := done + [attr];
    AttrsConcat(done, [attr]);
    var one := [attr];
    assert one[1..] == [] && AttrBytes(attr) + [] == AttrBytes(attr);
    Regroup(before, AttrsBytes(done), AttrBytes(attr));
  }

  lemma {:induction false} AttrsConcat(s: seq<Attr>, t: seq<Attr>)
    ensures AttrsBytes(s + t) == AttrsBytes(s) + AttrsBytes(t)
  {
    hide AttrBytes;
    if s == [] {
      assert s + t == t && AttrsBytes(s) + AttrsBytes(t) == AttrsBytes(t);
    } else {
      assert (s + t)[1..] == s[1..] + t;
      AttrsConcat(s[1..], t);
      Regroup(AttrBytes(s[0]), AttrsBytes(s[1..]), AttrsBytes(t));
    }
  }

  lemma AttrAppended(now: seq<byte>, attr: Attr, after: seq<byte>)
    requires match attr case Num(tag, value) => after == now + [tag] + Le(value, Width(tag))
                        case Text(tag, text) => after == now + [tag] + StringBytes(text)
    ensures after == now + AttrBytes(attr)
  {
    hide Le, StringBytes;
  }

  method SaveItem(kinds: Kinds, types: Containers.ItemTypes, stream: PropWriteStream, x: Held)
    requires stream.Valid()
    modifies stream, stream.buffer
    ensures stream.Valid() && (stream.buffer == old(stream.buffer) || fresh(stream.buffer))
    ensures stream.Contents() == old(stream.Contents()) + ItemBytes(kinds, Stored(types, x))
    decreases x, 1
  {
    hide AttrsBytes, ListBytes, ItemBytes, Le, Serialized;
    ghost var before := stream.Contents();
    // what it is, and what it has
    stream.AddValue(x.id, 2);
    SerializeAttr(stream, types(x.id), x.count, x.getters);
    if kinds(x.id).Holds() {
      stream.AddBytes([ATTR_CONTAINER_ITEMS]);
      stream.AddValue(|x.items|, 4);
      SaveContents(kinds, types, stream, x);
    }
    ghost var last := stream.Contents();
    stream.AddBytes([0]);
    SavedIs(kinds, Stored(types, x), before, last);
  }

  /** The items of a container, last one first. */
  method SaveContents(kinds: Kinds, types: Containers.ItemTypes, stream: PropWriteStream, x: Held)
    requires stream.Valid()
    modifies stream, stream.buffer
    ensures stream.Valid() && (stream.buffer == old(stream.buffer) || fresh(stream.buffer))
    ensures stream.Contents() == old(stream.Contents()) + ListBytes(kinds, Stored(types, x), |x.items|)
    decreases x, 0
  {
    hide ListBytes, ItemBytes, Serialized;
    ghost var y := Stored(types, x);
    ghost var now, all := stream.Contents(), ListBytes(kinds, y, |x.items|);
    for i := |x.items| downto 0
      invariant stream.Valid() && (stream.buffer == old(stream.buffer) || fresh(stream.buffer))
      invariant stream.Contents() + ListBytes(kinds, y, i) == now + all
    {
      ghost var was := stream.Contents();
      SaveItem(kinds, types, stream, x.items[i]);
      ListUnfold(kinds, y, i + 1);
      Regroup(was, ItemBytes(kinds, y.items[i]), ListBytes(kinds, y, i));
    }
    ListUnfold(kinds, y, 0);
    assert stream.Contents() + [] == stream.Contents();
  }

  lemma ListUnfold(kinds: Kinds, x: Item, k: nat)
    requires k <= |x.items|
    ensures ListBytes(kinds, x, k)
         == if k == 0 then [] else ItemBytes(kinds, x.items[k - 1]) + ListBytes(kinds, x, k - 1)
  {
  }

  lemma SavedIs(kinds: Kinds, x: Item, before: seq<byte>, last: seq<byte>)
    requires last == if kinds(x.id).Holds()
                     then before + Le(x.id, 2) + AttrsBytes(x.attrs) + [ATTR_CONTAINER_ITEMS] + Le(|x.items|, 4)
                          + ListBytes(kinds, x, |x.items|)
                     else before + Le(x.id, 2) + AttrsBytes(x.attrs)
    ensures last + [0] == before + ItemBytes(kinds, x)
  {
    hide AttrsBytes, ListBytes, Le;
    var s, t := Le(x.id, 2), AttrsBytes(x.attrs);
    if kinds(x.id).Holds() {
      var n, l := Le(|x.items|, 4), ListBytes(kinds, x, |x.items|);
      assert before + s + t + [ATTR_CONTAINER_ITEMS] + n + l + [0]
          == before + (s + t + ([ATTR_CONTAINER_ITEMS] + n + l) + [0]);
    } else {
      assert s + t + [] == s + t;
    }
  }

  /** readAttr: one attribute behind its tag. */
  method LoadAttr(stream: PropStream, tag: byte) returns (ok: bool, attr: Option<Attr>)
    requires stream.Valid()
    modifies stream
    ensures stream.Valid() && stream.p >= old(stream.p)
    ensures ok <==> ReadAttr(stream.data, old(stream.p), tag).Read?
    ensures ok ==> ReadAttr(stream.data, old(stream.p), tag) == Read.Read(attr, stream.p)
  {
    hide Radix, Val;
    ok, attr := false, None;
    var n;
    if tag == ATTR_COUNT || tag == ATTR_RUNE_CHARGES {
      ok, n := stream.GetValue(1);
      attr := Some(Num(tag, n));
    } else if tag == ATTR_ACTION_ID || tag == ATTR_UNIQUE_ID {
      ok, n := stream.GetValue(2);
      attr := Some(Num(tag, n));
    } else if tag == ATTR_TEXT || tag == ATTR_WRITTENBY || tag == ATTR_DESC {
      var text;
      ok, text := stream.GetString();
      attr := Some(Text(tag, text));
    } else if tag == ATTR_DURATION {
      ok, n := stream.GetValue(4);
      if n >= 0x8000_0000 {   // negative as a signed number
        n := 0;
      }
      attr := Some(Num(tag, n));
    } else if tag == ATTR_DECAYING_STATE {
      ok, n := stream.GetValue(1);
      if n != 0 {
        attr := Some(Num(tag, DECAYING_PENDING));
      }
    } else if tag == ATTR_DEPOT_ID {
      // this and what follows is for other classes of items; it is read and dropped
      ok, n := stream.GetValue(2);
    } else if tag == ATTR_HOUSEDOORID {
      ok, n := stream.GetValue(1);
    } else if tag == ATTR_SLEEPERGUID || tag == ATTR_SLEEPSTART {
      ok, n := stream.GetValue(4);
    } else if tag == ATTR_TELE_DEST {
      ok, n := stream.GetValue(2);
      if ok { ok, n := stream.GetValue(2); }
      if ok { ok, n := stream.GetValue(1); }
    }
  }

  /** unserializeAttr: all attributes; number is the serialization count they leave in a container. */
  method UnserializeAttr(stream: PropStream, kind: Kind) returns (ok: bool, attrs: seq<Attr>, number: nat)
    requires stream.Valid()
    modifies stream
    ensures stream.Valid() && stream.p >= old(stream.p)
    ensures ok <==> ReadAttrs(stream.data, old(stream.p), kind).Read?
    ensures ok ==> ReadAttrs(stream.data, old(stream.p), kind) == Read.Read(Attrs(attrs, number), stream.p)
  {
    hide ReadAttr, Width, IsText, Taken, Radix, Val, Behind;
    attrs, number := [], 0;
    ghost var all := ReadAttrs(stream.data, stream.p, kind);
    BehindTwice([], [], all);
    while true
      invariant stream.Valid() && number == 0 && stream.p >= old(stream.p)
      invariant all == Behind(attrs, ReadAttrs(stream.data, stream.p, kind))
      decreases |stream.data| - stream.p
    {
      var more, tag := stream.GetValue(1);
      if more { OneByte(stream.data, stream.p - 1); }
      if !more || tag == 0 {
        BehindEnd(attrs, 0, stream.p);
        return true, attrs, number;
      }
      if tag == ATTR_CONTAINER_ITEMS {
        var got, n := stream.GetValue(4);
        if !got || !kind.Box? {
          return false, attrs, number;
        }
        BehindEnd(attrs, n, stream.p);
        return true, attrs, n;
      }
      var attr;
      ok, attr := LoadAttr(stream, tag);
      if !ok {
        return;
      }
      BehindTwice(attrs, AsList(attr), ReadAttrs(stream.data, stream.p, kind));
      attrs := attrs + AsList(attr);
    }
  }

  lemma BehindEnd(attrs: seq<Attr>, n: nat, p: nat)
    ensures Behind(attrs, Read.Read(Attrs([], n), p)) == Read.Read(Attrs(attrs, n), p)
    ensures Behind(attrs, Bad) == Bad
  {
    assert attrs + [] == attrs;
  }

  lemma OneByte(data: seq<byte>, p: nat)
    requires p < |data|
    ensures Val(data[p..p + 1]) == data[p]
  {
    assert data[p..p + 1][1..] == [];
  }
}
