/**
 Loading house items into containers on the heap: loadItem makes the item, sets its count, fills it
 and only then adds it to its parent, so the weights that __internalAddThing passes upwards are
 final. The forest that is built stands for the value that the bytes say, every cached weight is
 right, and an item that was stored comes back with the weight it had.
 */
module MapLoad {
  import opened Wrappers
  import opened Forest
  import opened LevelOrder
  import opened Search
  import opened Transfers
  import opened Containers
  import NodeFormat
  import opened Streams
  import M = MapStore
  import PlayerStore

  /** Item::items: what loading asks about a type. */
  datatype Catalog = Catalog(types: ItemTypes, kinds: M.Kinds, maxItems: nat -> nat)

  /** In b, y stands for the value x: type, count and form, and the same for what is in it, in order. */
  ghost predicate Embodies(cat: Catalog, b: Arena<Item>, y: Item, x: M.Item)
    decreases x
  {
    && y in b && b[y].id == x.id && b[y].count == M.CountRead(cat.types(x.id).SubTypeIsCount(), x.attrs, 1)
    && b[y].isContainer == cat.kinds(x.id).Holds() && b[y].capacity == cat.maxItems(x.id)
    && |b[y].items| == |x.items|
    && forall i :: 0 <= i < |x.items| ==> Embodies(cat, b, b[y].items[i], x.items[i])
  }

  /** The items of a list stand for values. */
  ghost predicate Filled(cat: Catalog, b: Arena<Item>, items: seq<Item>, values: seq<M.Item>) {
    |items| == |values| && forall i :: 0 <= i < |values| ==> Embodies(cat, b, items[i], values[i])
  }

  /** From b to e nothing changed below y but links upwards and weights. */
  ghost predicate SameBelow(b: Arena<Item>, e: Arena<Item>, y: Item)
    requires Acyclic(b)
  {
    forall z :: z in b && AtOrAbove(b, y, z) ==> z in e && e[z].items == b[z].items && PlayerStore.SameItem(b[z], e[z])
  }

  lemma SameBelowChild(b: Arena<Item>, e: Arena<Item>, y: Item, x: Item)
    requires Sound(b) && y in b && x in b[y].items && SameBelow(b, e, y)
    ensures x in b && SameBelow(b, e, x)
  {
    hide Acyclic, AtOrAbove;
    AtOrAboveStep(b, y, x);
    AtOrAboveIsSelf(b, y);
    forall z | z in b && AtOrAbove(b, x, z)
      ensures AtOrAbove(b, y, z)
    {
      AboveTransitive(b, y, x, z);
    }
  }

  lemma {:induction false} EmbodiesStays(cat: Catalog, b: Arena<Item>, e: Arena<Item>, y: Item, x: M.Item)
    requires Sound(b) && Embodies(cat, b, y, x) && SameBelow(b, e, y)
    ensures Embodies(cat, e, y, x)
    decreases x
  {
    hide Linked, Acyclic, AtOrAbove, SameBelow;
    assert y in e && e[y].items == b[y].items && PlayerStore.SameItem(b[y], e[y]) by { SameAtTop(b, e, y); }
    forall i | 0 <= i < |x.items|
      ensures Embodies(cat, e, e[y].items[i], x.items[i])
    {
      SameBelowChild(b, e, y, b[y].items[i]);
      EmbodiesStays(cat, b, e, b[y].items[i], x.items[i]);
    }
  }

  lemma SameAtTop(b: Arena<Item>, e: Arena<Item>, y: Item)
    requires Sound(b) && y in b && SameBelow(b, e, y)
    ensures y in e && e[y].items == b[y].items && PlayerStore.SameItem(b[y], e[y])
  {
    AtOrAboveIsSelf(b, y);
  }

  // ---------------------------------------------------------------------------------------
  // Two forests side by side

  lemma BothSound(a: Arena<Item>, b: Arena<Item>)
    requires Sound(a) && Sound(b) && a.Keys !! b.Keys
    ensures Sound(a + b)
  {
    hide Linked, IsRanking;
    BothLinked(a, b);
    BothRanked(a, Rank(a), b, Rank(b));
  }

  lemma BothRanked(a: Arena<Item>, r: Ranking<Item>, b: Arena<Item>, s: Ranking<Item>)
    requires IsRanking(a, r) && IsRanking(b, s) && a.Keys !! b.Keys
    ensures IsRanking(a + b, Ranking(r.of + s.of, r.bound + s.bound))
  {
  }

  lemma BothLinked(a: Arena<Item>, b: Arena<Item>)
    requires Linked(a) && Linked(b) && a.Keys !! b.Keys
    ensures Linked(a + b)
  {
  }

  lemma {:induction false} BothSum(a: Arena<Item>, b: Arena<Item>, s: seq<Item>, f: Measure)
    requires forall x :: x in s ==> x in a && x in b && b[x] == a[x]
    ensures Sum(b, s, f) == Sum(a, s, f)
  {
    if s != [] { BothSum(a, b, s[1..], f); }
  }

  lemma BothWeighed(a: Arena<Item>, b: Arena<Item>, f: Measure)
    requires WellWeighed(a, f) && WellWeighed(b, f) && a.Keys !! b.Keys
    ensures WellWeighed(a + b, f)
  {
    hide Linked, Acyclic, WellWeighed, Sum;
    WeighedIsSound(a, f);
    WeighedIsSound(b, f);
    BothSound(a, b);
    forall c | c in a + b
      ensures forall x :: x in (a + b)[c].items ==> x in a + b
      ensures (a + b)[c].total == Sum(a + b, (a + b)[c].items, f)
    {
      if c in b {
        ListIsHere(b, c);
        BothSum(b, a + b, b[c].items, f);
      } else {
        ListIsHere(a, c);
        BothSum(a, a + b, a[c].items, f);
      }
    }
    WeighedIsBalanced(a + b, f);
  }

  /** A forest beside another one stands for what it stood for. */
  lemma BothEmbody(cat: Catalog, a: Arena<Item>, b: Arena<Item>, y: Item, x: M.Item)
    requires Sound(b) && a.Keys !! b.Keys
    requires Embodies(cat, b, y, x)
    ensures Embodies(cat, a + b, y, x) && Embodies(cat, b + a, y, x)
  {
    hide Linked, Acyclic, AtOrAbove;
    EmbodiesStays(cat, b, a + b, y, x);
    EmbodiesStays(cat, b, b + a, y, x);
  }

  // ---------------------------------------------------------------------------------------
  // Filling a container

  /** An item that lies in no container with a right list. */
  ghost predicate Filling(cat: Catalog, b: Arena<Item>, c: Item, values: seq<M.Item>) {
    && WellWeighed(b, WeightOf(cat.types)) && c in b && b[c].isContainer && b[c].parent.None?
    && Filled(cat, b, b[c].items, values)
  }

  /** One more item, loaded on its own, goes to the front of the list. */
  lemma FillOne(cat: Catalog, a: Arena<Item>, b: Arena<Item>, c: Item, values: seq<M.Item>, y: Item, x: M.Item)
    requires Filling(cat, a, c, values) && a.Keys !! b.Keys
    requires WellWeighed(b, WeightOf(cat.types)) && Embodies(cat, b, y, x) && b[y].parent.None?
    ensures WellWeighed(a + b, WeightOf(cat.types)) && Fits(a + b, c, y)
    ensures Filling(cat, Added(a + b, WeightOf(cat.types), c, y), c, [x] + values)
  {
    hide Linked, Acyclic, AtOrAbove, WellWeighed, Added, Fits, WeightOf, Embodies, SameBelow;
    var f := WeightOf(cat.types);
    BothWeighed(a, b, f);
    WeighedIsSound(a, f);
    WeighedIsSound(b, f);
    WeighedIsSound(a + b, f);
    EmbodiesTop(cat, b, y, x);
    PlayerStore.LooseFits(a + b, c, y);
    AddedKeepsWeights(a + b, f, c, y);
    AddedNodes(a + b, f, c, y);
    BothEmbody(cat, a, b, y, x);
    var e := Added(a + b, f, c, y);
    AddedSameBelow(a + b, f, c, y);
    EmbodiesStays(cat, a + b, e, y, x);
    forall i | 0 <= i < |values|
      ensures Embodies(cat, e, a[c].items[i], values[i])
    {
      OldStays(cat, a, b, f, c, y, i, values[i]);
    }
  }

  lemma EmbodiesTop(cat: Catalog, b: Arena<Item>, y: Item, x: M.Item)
    requires Embodies(cat, b, y, x)
    ensures y in b && b[y].id == x.id && b[y].isContainer == cat.kinds(x.id).Holds()
  {
  }

  /** What does not hold c stays as it is below when c's list grows. */
  lemma AddedSameBelow(a: Arena<Item>, f: Measure, c: Item, y: Item)
    requires Fits(a, c, y)
    ensures Sound(a) && forall z :: z in a && !AtOrAbove(a, z, c) ==> SameBelow(a, Added(a, f, c, y), z)
  {
    hide Linked, Acyclic, AtOrAbove, Added;
    FitsApart(a, c, y);
    AddedNodes(a, f, c, y);
  }

  /** The items that were in c's list before do not hold c. */
  lemma OldStays(cat: Catalog, a: Arena<Item>, b: Arena<Item>, f: Measure, c: Item, y: Item, i: nat, x: M.Item)
    requires Sound(a) && Sound(b) && a.Keys !! b.Keys && c in a && i < |a[c].items|
    requires Embodies(cat, a, a[c].items[i], x) && Fits(a + b, c, y)
    ensures Embodies(cat, Added(a + b, f, c, y), a[c].items[i], x)
  {
    hide Linked, Acyclic, AtOrAbove, Added, Fits, Embodies, SameBelow;
    var z := a[c].items[i];
    BothEmbody(cat, b, a, z, x);
    AddedSameBelow(a + b, f, c, y);
    assert (a + b)[c] == a[c];
    ListedIsBelow(a + b, c, z);
    EmbodiesStays(cat, a + b, Added(a + b, f, c, y), z, x);
  }

  // ---------------------------------------------------------------------------------------
  // The program

  /**
   loadItem: makes the item the stream goes on with, and everything in it. T is what was made; the
   item itself lies nowhere yet.
   */
  method LoadItem(cat: Catalog, stream: PropStream)
      returns (ok: bool, item: Item?, ghost value: Option<M.Item>, ghost T: set<Item>)
    requires stream.Valid()
    modifies stream
    ensures stream.Valid() && stream.p >= old(stream.p)
    ensures fresh(T) && WellWeighed(Snap(T), WeightOf(cat.types))
    ensures ok <==> M.ReadItem(cat.kinds, stream.data, old(stream.p)).Read?
    ensures ok ==> M.ReadItem(cat.kinds, stream.data, old(stream.p)) == M.Read.Read(value, stream.p)
    ensures ok ==> (item == null <==> value == None)
    ensures ok && item != null ==> item.id != 0 && !cat.kinds(item.id).NoItem?
    ensures old(stream.p) + 2 <= |stream.data| ==>
              var id := Val(stream.data[old(stream.p)..old(stream.p) + 2]);
              id == 0 || cat.kinds(id).NoItem? ==> ok && item == null && stream.p == old(stream.p) + 2
    ensures ok && item != null ==>
              item in T && item.parent == null && Embodies(cat, Snap(T), item, value.value)
    decreases |stream.data| - stream.p, 0, 0
  {
    hide M.ReadAttrs, M.ReadContents, WellWeighed, WeightOf, M.CountRead, Snap, Embodies, Filling, Radix;
    item, value, T := null, None, {};
    PlayerStore.LooseIsWeighed(Snap({}), WeightOf(cat.types));
    var got, id := stream.GetValue(2);
    if !got {
      id := 0;
    }
    if !M.Creates(cat.kinds, id) {
      return true, item, value, T;
    }
    var attrs, number;
    ok, attrs, number := M.UnserializeAttr(stream, cat.kinds(id));
    if !ok {
      return;
    }
    var made := MakeItem(cat, id, attrs);
    T := {made};
    ghost var values: seq<M.Item> := [];
    if cat.kinds(id).Holds() {
      ok, values, T := LoadContainer(cat, stream, made, number, T);
      if ok { FillingIsWeighed(cat, Snap(T), made, values); }
    }
    if ok {
      item, value := made, Some(M.Item(id, attrs, values));
      SnapNode(T, made);
      MadeEmbodies(cat, Snap(T), made, M.Item(id, attrs, values));
    }
  }

  /** Item::CreateItem, and the count the attributes set. */
  method MakeItem(cat: Catalog, id: nat, attrs: seq<M.Attr>) returns (item: Item)
    ensures fresh(item)
    ensures item.AsNode() == Node(id, M.CountRead(cat.types(id).SubTypeIsCount(), attrs, 1), cat.kinds(id).Holds(),
                                  cat.maxItems(id), None, [], 0)
    ensures Snap({item}) == map[item := item.AsNode()]
    ensures WellWeighed(Snap({item}), WeightOf(cat.types))
    ensures cat.kinds(id).Holds() ==> Filling(cat, Snap({item}), item, [])
  {
    hide WellWeighed, WeightOf, M.CountRead;
    item := new Item(id, 1, cat.kinds(id).Holds(), cat.maxItems(id));
    item.count := M.CountRead(cat.types(id).SubTypeIsCount(), attrs, 1);
    assert Snap({item}) == map[item := item.AsNode()];
    PlayerStore.LooseIsWeighed(Snap({item}), WeightOf(cat.types));
  }

  /** serializationCount items, each added to the container as it comes, and the zero byte. */
  method LoadContainer(cat: Catalog, stream: PropStream, container: Item, number: nat, ghost S: set<Item>)
      returns (ok: bool, ghost values: seq<M.Item>, ghost S': set<Item>)
    requires stream.Valid() && container in S && Filling(cat, Snap(S), container, [])
    modifies stream, S
    ensures stream.Valid() && stream.p >= old(stream.p)
    ensures S' >= S && fresh(S' - S) && WellWeighed(Snap(S'), WeightOf(cat.types))
    ensures ok <==> M.ReadContents(cat.kinds, stream.data, old(stream.p), number).Read?
    ensures ok ==> M.ReadContents(cat.kinds, stream.data, old(stream.p), number) == M.Read.Read(values, stream.p)
    ensures ok ==> Filling(cat, Snap(S'), container, values)
    ensures ok ==> stream.p == |stream.data| || (stream.p > 0 && stream.data[stream.p - 1] == 0)
    ensures container.id == old(container.id) && container.count == old(container.count)
    decreases |stream.data| - stream.p, 2, number
  {
    hide M.ReadItem, M.ReadList, WellWeighed, WeightOf, Filling, Snap, Radix, Before;
    values, S' := [], S;
    var serializationCount := number;
    ghost var all := M.ReadList(cat.kinds, stream.data, stream.p, number);
    NothingBefore(cat.kinds, stream.data, stream.p, all, values);
    FillingIsWeighed(cat, Snap(S), container, []);
    while serializationCount > 0
      invariant stream.Valid() && stream.p >= old(stream.p)
      invariant S' >= S && fresh(S' - S) && container in S'
      invariant Filling(cat, Snap(S'), container, values) && WellWeighed(Snap(S'), WeightOf(cat.types))
      invariant container.id == old(container.id) && container.count == old(container.count)
      invariant all == Before(M.ReadList(cat.kinds, stream.data, stream.p, serializationCount), values)
      decreases serializationCount
    {
      ghost var value, p;
      p := stream.p;
      ok, value, S' := LoadInto(cat, stream, container, S', values);
      BeforeStep(cat.kinds, stream.data, p, serializationCount, values);
      if !ok {
        return;
      }
      values := M.AsList(value) + values;
      serializationCount := serializationCount - 1;
    }
    NothingBefore(cat.kinds, stream.data, stream.p, all, values);
    var got, endAttr := stream.GetValue(1);
    if got {
      M.OneByte(stream.data, stream.p - 1);
    }
    return !got || endAttr == 0, values, S';
  }

  /** What has been read of a list, behind what is read of it before. */
  function Before(r: M.Read<seq<M.Item>>, values: seq<M.Item>): M.Read<seq<M.Item>> {
    match r
    case Bad => M.Bad
    case Read(first, e) => M.Read.Read(first + values, e)
  }

  lemma NothingBefore(kinds: M.Kinds, data: seq<NodeFormat.byte>, p: nat, all: M.Read<seq<M.Item>>, values: seq<M.Item>)
    requires p <= |data|
    ensures Before(all, []) == all
    ensures M.ReadList(kinds, data, p, 0) == M.Read.Read([], p)
    ensures Before(M.Read.Read([], p), values) == M.Read.Read(values, p)
  {
    assert all.Read? ==> all.value + [] == all.value;
    assert [] + values == values;
  }

  lemma BeforeStep(kinds: M.Kinds, data: seq<NodeFormat.byte>, p: nat, n: nat, values: seq<M.Item>)
    requires p <= |data| && n > 0
    ensures var r := M.ReadItem(kinds, data, p);
            Before(M.ReadList(kinds, data, p, n), values)
            == if r.Bad? then M.Bad else Before(M.ReadList(kinds, data, r.pos, n - 1), M.AsList(r.value) + values)
  {
    hide M.ReadItem;
    var r := M.ReadItem(kinds, data, p);
    if r.Read? {
      var rest := M.ReadList(kinds, data, r.pos, n - 1);
      assert rest.Read? ==> rest.value + M.AsList(r.value) + values == rest.value + (M.AsList(r.value) + values);
    }
  }

  /** loadItem with a container for parent. */
  method LoadInto(cat: Catalog, stream: PropStream, container: Item, ghost S: set<Item>, ghost values: seq<M.Item>)
      returns (ok: bool, ghost value: Option<M.Item>, ghost S': set<Item>)
    requires stream.Valid() && container in S && Filling(cat, Snap(S), container, values)
    modifies stream, S
    ensures stream.Valid() && stream.p >= old(stream.p)
    ensures S' >= S && fresh(S' - S) && WellWeighed(Snap(S'), WeightOf(cat.types))
    ensures ok <==> M.ReadItem(cat.kinds, stream.data, old(stream.p)).Read?
    ensures ok ==> M.ReadItem(cat.kinds, stream.data, old(stream.p)) == M.Read.Read(value, stream.p)
    ensures ok ==> Filling(cat, Snap(S'), container, M.AsList(value) + values)
    ensures container.id == old(container.id) && container.count == old(container.count)
    decreases |stream.data| - stream.p, 1
  {
    hide M.ReadItem, WellWeighed, WeightOf, Embodies, Filling, Snap, Radix;
    S' := S;
    FillingIsWeighed(cat, Snap(S), container, values);
    ghost var T;
    var item;
    ok, item, value, T := LoadItem(cat, stream);
    if ok && item != null {
      S' := AddLoaded(cat, container, item, S, T, values, value.value);
    }
    assert [] + values == values;
  }

  /** A loaded item joins the container; its weight goes up from there. */
  method AddLoaded(cat: Catalog, container: Item, item: Item, ghost S: set<Item>, ghost T: set<Item>,
                   ghost values: seq<M.Item>, ghost value: M.Item)
      returns (ghost S': set<Item>)
    requires container in S && item in T && S !! T && item.parent == null
    requires Filling(cat, Snap(S), container, values)
    requires WellWeighed(Snap(T), WeightOf(cat.types)) && Embodies(cat, Snap(T), item, value)
    modifies S, T
    ensures S' == S + T
    ensures Filling(cat, Snap(S'), container, [value] + values) && WellWeighed(Snap(S'), WeightOf(cat.types))
    ensures container.id == old(container.id) && container.count == old(container.count)
  {
    hide WellWeighed, WeightOf, Embodies, Filling, Fits, Added;
    FillOne(cat, Snap(S), Snap(T), container, values, item, value);
    S' := S + T;
    assert Snap(S') == Snap(S) + Snap(T);
    container.InternalAddThing(item, cat.types, S');
  }

  lemma FillingIsWeighed(cat: Catalog, b: Arena<Item>, c: Item, values: seq<M.Item>)
    requires Filling(cat, b, c, values)
    ensures WellWeighed(b, WeightOf(cat.types))
    ensures c in b && b[c].parent.None? && Filled(cat, b, b[c].items, values)
  {
  }

  lemma MadeEmbodies(cat: Catalog, b: Arena<Item>, y: Item, x: M.Item)
    requires y in b && b[y].id == x.id && b[y].count == M.CountRead(cat.types(x.id).SubTypeIsCount(), x.attrs, 1)
    requires b[y].isContainer == cat.kinds(x.id).Holds() && b[y].capacity == cat.maxItems(x.id)
    requires Filled(cat, b, b[y].items, x.items)
    ensures Embodies(cat, b, y, x)
  {
  }

  // ---------------------------------------------------------------------------------------
  // There and back

  /** In a, x0 is the item h: type, count and form, and the same for what is in it, in order. */
  ghost predicate StandsFor(cat: Catalog, a: Arena<Item>, x0: Item, h: M.Held)
    decreases h
  {
    && x0 in a && a[x0].id == h.id && a[x0].count == h.count
    && a[x0].isContainer == cat.kinds(h.id).Holds() && a[x0].capacity == cat.maxItems(h.id)
    && |a[x0].items| == |h.items|
    && forall i :: 0 <= i < |h.items| ==> StandsFor(cat, a, a[x0].items[i], h.items[i])
  }

  /** What has been stored and loaded is the item it was, exactly if all its counts are ones that come back. */
  lemma {:induction false} LoadedStands(cat: Catalog, b: Arena<Item>, y: Item, h: M.Held)
    requires Embodies(cat, b, y, M.Settled(M.Stored(cat.types, h)))
    ensures StandsFor(cat, b, y, h) <==> M.CountsBack(cat.types, h)
    decreases h
  {
    hide M.CountRead, M.KeptAll, M.Serialized;
    M.CountAfter(cat.types(h.id), h.count, h.getters, 1);
    forall i | 0 <= i < |h.items|
      ensures StandsFor(cat, b, b[y].items[i], h.items[i]) <==> M.CountsBack(cat.types, h.items[i])
    {
      LoadedStands(cat, b, b[y].items[i], h.items[i]);
    }
  }

  /** Two forests that hold the same item have the same weights, container by container. */
  lemma {:induction false} SameWeight(cat: Catalog, a: Arena<Item>, x0: Item, b: Arena<Item>, y: Item, h: M.Held)
    requires WellWeighed(a, WeightOf(cat.types)) && WellWeighed(b, WeightOf(cat.types))
    requires StandsFor(cat, a, x0, h) && StandsFor(cat, b, y, h)
    ensures x0 in a && y in b && PlayerStore.SameItem(a[x0], b[y]) && a[x0].total == b[y].total
    decreases h
  {
    hide Linked, Acyclic, Sum, WellWeighed, WeightOf;
    var f := WeightOf(cat.types);
    WeighedIsSound(a, f);
    WeighedIsSound(b, f);
    ListIsHere(a, x0);
    ListIsHere(b, y);
    forall i | 0 <= i < |h.items|
      ensures var s, t := a[x0].items[i], b[y].items[i];
              PlayerStore.SameItem(a[s], b[t]) && a[s].total == b[t].total
    {
      SameWeight(cat, a, a[x0].items[i], b, b[y].items[i], h.items[i]);
    }
    PlayerStore.SameSum(a, b, a[x0].items, b[y].items, f);
  }

  /**
   Storing an item and loading it again: a forest of its own that holds the same item exactly if the counts
   are ones that come back, with right weights, as heavy as before then, and with attributes that
   bring back the getters of every item in it as far as these are ones that come back.
   */
  method SaveThenLoad(cat: Catalog, held: M.Held, ghost S: set<Item>, ghost x0: Item)
      returns (ok: bool, item: Item?, ghost x: M.Item, ghost T: set<Item>)
    requires M.Storable(cat.kinds, M.Stored(cat.types, held))
    ensures ok <==> M.DepotFree(cat.kinds, M.Stored(cat.types, held))
    ensures fresh(T) && WellWeighed(Snap(T), WeightOf(cat.types))
    ensures ok ==> item != null && item in T && item.parent == null && Embodies(cat, Snap(T), item, x)
    ensures ok ==> M.Gives(cat.types, held, x)
    ensures ok ==> (StandsFor(cat, Snap(T), item, held) <==> M.CountsBack(cat.types, held))
    ensures x == M.Settled(M.Stored(cat.types, held))
    ensures M.ExactItem(M.Stored(cat.types, held)) ==>
              x == M.Stored(cat.types, held)
    ensures ok && M.CountsBack(cat.types, held)
            && WellWeighed(Snap(S), WeightOf(cat.types)) && StandsFor(cat, Snap(S), x0, held) ==>
              x0 in S && item.totalWeight == x0.totalWeight && item.count == x0.count
  {
    hide M.ItemBytes, M.ReadItem, M.Settled, M.Stored, M.ExactItem, M.DepotFree, M.Gives, M.CountsBack, Embodies,
         WellWeighed, WeightOf, StandsFor, Snap;
    ghost var stored := M.Stored(cat.types, held);
    x := M.Settled(stored);
    var out := new PropWriteStream();
    M.SaveItem(cat.kinds, cat.types, out, held);
    var bytes := out.buffer[..out.size];
    assert bytes == [] + M.ItemBytes(cat.kinds, stored);
    var stream := new PropStream(bytes);
    assert bytes[0..0 + |bytes|] == bytes;
    M.ItemRoundTrip(cat.kinds, bytes, 0, stored);
    M.SettledExact(cat.kinds, stored);
    M.LoadedGives(cat.types, held);
    ghost var value;
    ok, item, value, T := LoadItem(cat, stream);
    if ok {
      LoadedStands(cat, Snap(T), item, held);
      SnapNode(T, item);
      if x0 in S { SnapNode(S, x0); }
      if M.CountsBack(cat.types, held) && WellWeighed(Snap(S), WeightOf(cat.types))
         && StandsFor(cat, Snap(S), x0, held) {
        SameWeight(cat, Snap(S), x0, Snap(T), item, held);
      }
    }
  }
}
