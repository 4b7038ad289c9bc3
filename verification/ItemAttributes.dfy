/**
 The attributes of an item, as the server keeps them: a list, and a set of flags for what is in it.

 A setter changes an attribute that is there. None of them puts one there, and a new item has none,
 so whatever setters are called, the getters of an item answer as those of a new one.
 */
module ItemAttributes {
  import opened Wrappers

  datatype AttrType =
    | ATTR_ITEM_ACTIONID | ATTR_ITEM_UNIQUEID | ATTR_ITEM_DESC | ATTR_ITEM_TEXT | ATTR_ITEM_WRITTENBY
    | ATTR_ITEM_OWNER | ATTR_ITEM_DURATION | ATTR_ITEM_DECAYING | ATTR_ITEM_CHARGES | ATTR_ITEM_FLUIDTYPE

  datatype ItemAttribute = ItemAttribute(typ: AttrType, integer: int, str: string)

  /** The first attribute of a type. */
  function Find(list: seq<ItemAttribute>, typ: AttrType): (r: Option<ItemAttribute>)
    ensures r.Some? ==> r.value.typ == typ
  {
    if list == [] then None else if list[0].typ == typ then Some(list[0]) else Find(list[1..], typ)
  }

  predicate Listed(list: seq<ItemAttribute>, typ: AttrType) {
    Find(list, typ).Some?
  }

  /** The list with another attribute instead of the first one of its type, if there is one. */
  function With(list: seq<ItemAttribute>, a: ItemAttribute): seq<ItemAttribute> {
    if list == [] then [] else if list[0].typ == a.typ then [a] + list[1..] else [list[0]] + With(list[1..], a)
  }

  /** The list without the attributes of a type. */
  function Without(list: seq<ItemAttribute>, typ: AttrType): seq<ItemAttribute> {
    if list == [] then []
    else if list[0].typ == typ then Without(list[1..], typ) else [list[0]] + Without(list[1..], typ)
  }

  lemma FindHead(list: seq<ItemAttribute>, typ: AttrType)
    ensures Find(list, typ).Some? ==> list != []
    ensures list != [] ==> Find(list, typ) == if list[0].typ == typ then Some(list[0]) else Find(list[1..], typ)
  {
  }

  lemma WithBegin(list: seq<ItemAttribute>, a: ItemAttribute)
    ensures list[..0] + With(list[0..], a) == With(list, a) && list[0..] == list
    ensures Find(list, a.typ).Some? ==> list != []
  {
    assert list[0..] == list;
  }

  lemma WithStep(list: seq<ItemAttribute>, i: nat, a: ItemAttribute)
    requires i < |list| && list[i].typ != a.typ && Find(list[i..], a.typ).Some?
    ensures list[..i] + With(list[i..], a) == list[..i + 1] + With(list[i + 1..], a)
    ensures i + 1 < |list| && Find(list[i + 1..], a.typ).Some?
  {
    FindHead(list[i..], a.typ);
    FindHead(list[i + 1..], a.typ);
    var rest := list[i..];
    assert rest[0] == list[i] && rest[1..] == list[i + 1..];
    assert With(rest, a) == [list[i]] + With(list[i + 1..], a);
    assert list[..i + 1] == list[..i] + [list[i]];
  }

  lemma WithEnd(list: seq<ItemAttribute>, i: nat, a: ItemAttribute)
    requires i < |list| && list[i].typ == a.typ
    ensures list[..i] + With(list[i..], a) == list[i := a]
  {
    var rest := list[i..];
    assert rest[0] == list[i] && rest[1..] == list[i + 1..];
    assert With(rest, a) == [a] + list[i + 1..];
  }

  lemma {:induction false} FindWithout(list: seq<ItemAttribute>, typ: AttrType, other: AttrType)
    ensures Find(Without(list, typ), other) == if other == typ then None else Find(list, other)
  {
    if list != [] { FindWithout(list[1..], typ, other); }
  }

  lemma {:induction false} FindWith(list: seq<ItemAttribute>, a: ItemAttribute, other: AttrType)
    ensures Find(With(list, a), other)
         == if other == a.typ && Listed(list, other) then Some(a) else Find(list, other)
  {
    if list != [] { FindWith(list[1..], a, other); }
  }

  class Attributes {
    var attributes: seq<ItemAttribute>
    var flags: set<AttrType>

    /** What is flagged is in the list. */
    ghost predicate Valid()
      reads this
    {
      forall typ :: typ in flags ==> Listed(attributes, typ)
    }

    constructor ()
      ensures Valid() && attributes == [] && flags == {}
    {
      attributes, flags := [], {};
    }

    /** A copy has the list of the other, but not its flags. */
    constructor Copy(other: Attributes)
      ensures Valid() && attributes == other.attributes && flags == {}
    {
      attributes, flags := other.attributes, {};
    }

    function GetIntAttr(typ: AttrType): int
      reads this
    {
      match Find(attributes, typ)
      case Some(a) => a.integer
      case None => 0
    }

    function GetStrAttr(typ: AttrType): string
      reads this
    {
      if typ !in flags then "" else
        match Find(attributes, typ)
        case Some(a) => a.str
        case None => ""
    }

    /** The value is what the getter answers afterwards only if there is such an attribute already. */
    method SetIntAttr(typ: AttrType, value: int)
      requires Valid()
      modifies this`attributes
      ensures Valid()
      ensures GetIntAttr(typ) == value <==> Listed(old(attributes), typ) || value == 0
      ensures forall other :: other != typ ==> GetIntAttr(other) == old(GetIntAttr(other))
      ensures forall other :: GetStrAttr(other) == old(GetStrAttr(other))
      ensures forall other :: Listed(attributes, other) <==> Listed(old(attributes), other)
    {
      var attr := Find(attributes, typ);
      if attr.Some? {
        Put(attr.value.(integer := value));
      }
    }

    /** The first attribute of a's type becomes a. */
    method Put(a: ItemAttribute)
      requires Valid() && Find(attributes, a.typ).Some?
      modifies this`attributes
      ensures Valid() && forall other :: Find(attributes, other)
                                      == if other == a.typ then Some(a) else Find(old(attributes), other)
    {
      hide Find, With;
      ghost var before, all := attributes, With(attributes, a);
      var i := 0;
      WithBegin(attributes, a);
      while attributes[i].typ != a.typ
        invariant i < |attributes| && Find(attributes[i..], a.typ).Some?
        invariant attributes[..i] + With(attributes[i..], a) == all
        decreases |attributes| - i
      {
        WithStep(attributes, i, a);
        i := i + 1;
      }
      WithEnd(attributes, i, a);
      attributes := attributes[i := a];
      forall other
        ensures Find(attributes, other) == if other == a.typ then Some(a) else Find(before, other)
      {
        FindWith(before, a, other);
      }
    }

    /** The same for texts, and only if the attribute is flagged. */
    method SetStrAttr(typ: AttrType, value: string)
      requires Valid()
      modifies this`attributes
      ensures Valid()
      ensures GetStrAttr(typ) == value <==> typ in flags || value == ""
      ensures forall other :: other != typ ==> GetStrAttr(other) == old(GetStrAttr(other))
      ensures forall other :: GetIntAttr(other) == old(GetIntAttr(other))
      ensures forall other :: Listed(attributes, other) <==> Listed(old(attributes), other)
    {
      if typ in flags {
        var attr := Find(attributes, typ);
        Put(attr.value.(str := value));
      }
    }

    method RemoveAttribute(typ: AttrType)
      requires Valid()
      modifies this
      ensures Valid()
      ensures typ in old(flags) ==> GetIntAttr(typ) == 0 && GetStrAttr(typ) == "" && !Listed(attributes, typ)
      ensures typ !in old(flags) ==> attributes == old(attributes) && flags == old(flags)
      ensures forall other :: other != typ ==>
                GetIntAttr(other) == old(GetIntAttr(other)) && GetStrAttr(other) == old(GetStrAttr(other))
      ensures forall other :: Listed(attributes, other) ==> Listed(old(attributes), other)
    {
      if typ in flags {
        ghost var before := attributes;
        attributes, flags := Without(attributes, typ), flags - {typ};
        forall other ensures Find(attributes, other) == if other == typ then None else Find(before, other) {
          FindWithout(before, typ, other);
        }
      }
    }
  }

  datatype Call = SetInt(typ: AttrType, integer: int) | SetStr(typ: AttrType, str: string) | Remove(typ: AttrType)

  /** Whatever is set on a new item, its getters answer 0 and the empty string. */
  method Run(calls: seq<Call>) returns (a: Attributes)
    ensures fresh(a) && a.Valid()
    ensures forall typ :: a.GetIntAttr(typ) == 0 && a.GetStrAttr(typ) == ""
  {
    a := new Attributes();
    for i := 0 to |calls|
      invariant fresh(a) && a.Valid() && forall typ :: !Listed(a.attributes, typ)
    {
      match calls[i] {
        case SetInt(typ, integer) => a.SetIntAttr(typ, integer);
        case SetStr(typ, str) => a.SetStrAttr(typ, str);
        case Remove(typ) => a.RemoveAttribute(typ);
      }
    }
    forall typ ensures a.GetIntAttr(typ) == 0 && a.GetStrAttr(typ) == "" {
      assert !Listed(a.attributes, typ);
    }
  }
}
