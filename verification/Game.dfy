/**
 Game: moving, adding and removing items, and money.

 The laws are stated for every additive measure at once, so one statement covers units of any type
 and the worth of coins, in the containers involved and in everything that holds them.
 */
module Game {
  import opened Wrappers
  import opened Forest
  import opened LevelOrder
  import opened Search
  import opened Containers
  import opened Transfers

  const MAP_MAX_LAYERS := 16

  /** A stack holds 1 to 100 units and is no container. */
  ghost predicate StacksProper(types: ItemTypes, a: Arena<Item>) {
    forall x :: x in a && types(a[x].id).stackable ==> !a[x].isContainer && 1 <= a[x].count <= 100
  }

  /** The count of a stackable type is its subtype: it is neither a fluid nor a charged item. */
  ghost predicate TypesProper(types: ItemTypes) {
    forall id :: types(id).stackable ==> types(id).SubTypeIsCount()
  }

  // ---------------------------------------------------------------------------------------
  // What one step leaves alone

  /** Between a and b only c's list and the stack x changed, and cached weights. */
  ghost predicate OnlyAt(a: Arena<Item>, b: Arena<Item>, c: Item, x: Item) {
    && a.Keys <= b.Keys && c in a
    && (forall y :: y in a && y != c ==> b[y].items == a[y].items)
    && (forall y :: y in a && y != x ==> b[y].id == a[y].id && b[y].count == a[y].count)
    && (forall y :: y in a[c].items && y != x ==> y in b[c].items)
    && (x in a ==> b[x].id == a[x].id)
    && (forall y :: y in a ==> b[y].isContainer == a[y].isContainer && b[y].capacity == a[y].capacity)
  }

  lemma ChangedOnlyAt(a: Arena<Item>, f: Measure, c: Item, x: Item, count: nat)
    requires Sound(a) && c in a && x in a[c].items && x in a
    ensures OnlyAt(a, Changed(a, f, c, x, a[x].id, count), c, x)
    ensures var b := Changed(a, f, c, x, a[x].id, count);
            && b.Keys == a.Keys && b[c].items == a[c].items && b[x].count == count
            && forall y :: y in a ==> b[y].parent == a[y].parent
  {
    hide Linked, AddUp;
    RetypeSound(a, x, a[x].id, count);
  }

  lemma RemovedOnlyAt(a: Arena<Item>, f: Measure, c: Item, x: Item)
    requires Sound(a) && c in a && x in a[c].items && x in a && x != c
    ensures OnlyAt(a, Removed(a, f, c, x), c, x)
    ensures var b := Removed(a, f, c, x);
            && b.Keys == a.Keys && |b[c].items| == |a[c].items| - 1 && b[x].count == a[x].count
  {
    hide Linked, Acyclic, Without, IndexOf, AddUp, Unlink;
    UnlinkSound(a, c, x);
    UnlinkOnlyAt(a, c, x);
  }

  lemma UnlinkOnlyAt(a: Arena<Item>, c: Item, x: Item)
    requires Sound(a) && c in a && x in a[c].items && x in a && x != c
    ensures OnlyAt(a, Unlink(a, c, x), c, x)
    ensures var b := Unlink(a, c, x);
            && b.Keys == a.Keys && |b[c].items| == |a[c].items| - 1 && b[x].count == a[x].count
  {
    hide Linked, Acyclic, Without, IndexOf;
    ListIsDistinct(a, c);
    WithoutParts(a[c].items, x);
    WithoutLength(a[c].items, x);
  }

  lemma ListIsDistinct(a: Arena<Item>, c: Item)
    requires Linked(a) && c in a
    ensures Distinct(a[c].items)
  {
  }

  lemma WithoutLength(s: seq<Item>, x: Item)
    requires x in s
    ensures |Without(s, x)| == |s| - 1
  {
  }

  /** What is left when m units of the stack have gone. */
  ghost function LessStack(a: Arena<Item>, f: Measure, c: Item, x: Item, m: nat): Arena<Item>
    requires Sound(a) && c in a && x in a[c].items && x in a && m <= a[x].count
  {
    if m != a[x].count then Changed(a, f, c, x, a[x].id, a[x].count - m) else Removed(a, f, c, x)
  }

  /** Stacks stay proper when only x's count changes, to a proper one. */
  lemma StacksKept(types: ItemTypes, a: Arena<Item>, b: Arena<Item>, c: Item, x: Item)
    requires StacksProper(types, a) && OnlyAt(a, b, c, x) && b.Keys == a.Keys && x in a
    requires 1 <= b[x].count <= 100
    ensures StacksProper(types, b)
  {
  }

  /** What taking m units out of a stack does to everything else. */
  ghost predicate TakenOut(types: ItemTypes, a: Arena<Item>, b: Arena<Item>, f: Measure, c: Item, x: Item,
                           m: nat, to: Item) {
    && WellWeighed(b, f) && StacksProper(types, b)
    && OnlyAt(a, b, c, x) && b.Keys == a.Keys && x in a && c in a && |b[c].items| <= |a[c].items|
    && GainedStack(a, b, c, a[x].id, 0 - m)
    && Sound(a) && Sound(b) && to in a && SameLines(a, b, to)
  }

  lemma LessByPart(types: ItemTypes, a: Arena<Item>, f: Measure, c: Item, x: Item, m: nat, to: Item)
    requires WellWeighed(a, f) && StacksProper(types, a)
    requires Sound(a) && c in a && x in a[c].items && x in a && to in a && !a[x].isContainer
    requires 1 <= m < a[x].count <= 100
    ensures TakenOut(types, a, Changed(a, f, c, x, a[x].id, a[x].count - m), f, c, x, m, to)
  {
    hide Linked, Acyclic, AtOrAbove, AddUp, WellWeighed, Changed, GainedStack, SameLines, StacksProper, OnlyAt;
    var b := Changed(a, f, c, x, a[x].id, a[x].count - m);
    ChangedKeepsWeights(a, f, c, x, a[x].id, a[x].count - m);
    WeighedIsSound(b, f);
    ChangedStack(a, f, c, x, a[x].count - m);
    ChangedOnlyAt(a, f, c, x, a[x].count - m);
    ParentsDecide(a, b, to);
    StacksKept(types, a, b, c, x);
  }

  lemma LessByAll(types: ItemTypes, a: Arena<Item>, f: Measure, c: Item, x: Item, to: Item)
    requires WellWeighed(a, f) && StacksProper(types, a)
    requires Sound(a) && c in a && x in a[c].items && x in a && to in a && !a[x].isContainer
    requires 1 <= a[x].count <= 100 && !AtOrAbove(a, x, to)
    ensures TakenOut(types, a, Removed(a, f, c, x), f, c, x, a[x].count, to)
  {
    ListedIsBelow(a, c, x);
    hide Linked, Acyclic, AtOrAbove, AddUp, WellWeighed, Removed, GainedStack, SameLines, StacksProper, OnlyAt;
    var b := Removed(a, f, c, x);
    RemovedKeepsWeights(a, f, c, x);
    WeighedIsSound(b, f);
    RemovedStack(a, f, c, x);
    RemovedOnlyAt(a, f, c, x);
    RemovedLines(a, f, c, to, x);
    StacksKept(types, a, b, c, x);
  }

  lemma LessStackLaw(types: ItemTypes, a: Arena<Item>, f: Measure, c: Item, x: Item, m: nat, to: Item)
    requires WellWeighed(a, f) && StacksProper(types, a)
    requires Sound(a) && c in a && x in a[c].items && x in a && to in a && !a[x].isContainer
    requires 1 <= m <= a[x].count <= 100
    requires !AtOrAbove(a, x, to)
    ensures TakenOut(types, a, LessStack(a, f, c, x, m), f, c, x, m, to)
  {
    hide Linked, Acyclic, AtOrAbove, WellWeighed, Changed, Removed, StacksProper, TakenOut;
    if m != a[x].count {
      LessByPart(types, a, f, c, x, m, to);
    } else {
      LessByAll(types, a, f, c, x, to);
    }
  }

  /** No container has moved from a to b. */
  ghost predicate AllLines(a: Arena<Item>, b: Arena<Item>)
    requires Acyclic(a) && Acyclic(b)
  {
    a.Keys <= b.Keys && forall u :: u in a && a[u].isContainer ==> SameLines(a, b, u)
  }

  /** What is below something that moves is a line of its own; a leaf has none. */
  lemma LeafAboveNothing(a: Arena<Item>, x: Item, u: Item)
    requires Sound(a) && x in a && !a[x].isContainer && u in a && u != x
    ensures !AtOrAbove(a, x, u)
  {
    if AtOrAbove(a, x, u) { ChildOnTheWay(a, Rank(a), x, u); }
  }

  /** When only a leaf changes its parent, no container moves. */
  lemma LeafMoves(a: Arena<Item>, b: Arena<Item>, x: Item)
    requires Sound(a) && Sound(b) && a.Keys == b.Keys && x in a && !a[x].isContainer
    requires forall y :: y in a && y != x ==> b[y].parent == a[y].parent
    ensures AllLines(a, b)
  {
    hide Linked, Acyclic, AtOrAbove;
    forall u | u in a && a[u].isContainer
      ensures SameLines(a, b, u)
    {
      LeafAboveNothing(a, x, u);
      LinkAbove(a, b, u, x);
    }
  }

  /** When no parent changes, no container moves. */
  lemma ParentsKeepLines(a: Arena<Item>, b: Arena<Item>)
    requires Sound(a) && Sound(b) && a.Keys <= b.Keys
    requires forall y :: y in a ==> b[y].parent == a[y].parent
    ensures AllLines(a, b)
  {
    hide Linked, Acyclic, AtOrAbove, SameLines;
    forall u | u in a && a[u].isContainer
      ensures SameLines(a, b, u)
    {
      ParentsDecide(a, b, u);
    }
  }

  lemma LinesTwice(a: Arena<Item>, b: Arena<Item>, e: Arena<Item>)
    requires Acyclic(a) && Acyclic(b) && Acyclic(e) && AllLines(a, b) && AllLines(b, e)
    requires forall y :: y in a ==> y in b && b[y].isContainer == a[y].isContainer
    ensures AllLines(a, e)
  {
    hide Linked, Acyclic, AtOrAbove;
  }

  /** From a to b, c and all that holds it gained m units of type id; other lists are as they were. */
  ghost predicate PutIn(types: ItemTypes, a: Arena<Item>, b: Arena<Item>, f: Measure, c: Item, id: nat, m: nat) {
    && WellWeighed(b, f) && StacksProper(types, b)
    && Sound(a) && Sound(b) && a.Keys <= b.Keys && c in a
    && GainedStack(a, b, c, id, m)
    && a[c].isContainer && AllLines(a, b)
    && (forall y :: y in a && y != c ==> b[y].items == a[y].items)
    && (forall y :: y in a ==> b[y].isContainer == a[y].isContainer && b[y].capacity == a[y].capacity)
    && (m == 0 ==> b[c].items == a[c].items)
    && |a[c].items| <= |b[c].items| <= |a[c].items| + 1
  }

  lemma PutNothing(types: ItemTypes, a: Arena<Item>, f: Measure, c: Item, id: nat)
    requires WellWeighed(a, f) && StacksProper(types, a) && c in a && a[c].isContainer
    ensures PutIn(types, a, a, f, c, id, 0)
  {
    hide Linked, Acyclic, AtOrAbove, WellWeighed, StacksProper, Below, AllLines;
    WeighedIsSound(a, f);
    ParentsKeepLines(a, a);
    forall g: Measure | Additive(g)
      ensures Gained(a, a, g, c, g(id, 0, false))
    {
      assert g(id, 0 + 0, false) == g(id, 0, false) + g(id, 0, false);
    }
  }

  lemma PutOnStack(types: ItemTypes, a: Arena<Item>, f: Measure, c: Item, x: Item, n: nat)
    requires WellWeighed(a, f) && StacksProper(types, a) && Sound(a)
    requires c in a && x in a[c].items && x in a && !a[x].isContainer && 1 <= a[x].count && a[x].count + n <= 100
    requires a[c].isContainer
    ensures var b := Changed(a, f, c, x, a[x].id, a[x].count + n);
            PutIn(types, a, b, f, c, a[x].id, n) && b[c].items == a[c].items
  {
    hide Linked, Acyclic, AtOrAbove, AddUp, WellWeighed, Changed, GainedStack, AllLines, StacksProper;
    var b := Changed(a, f, c, x, a[x].id, a[x].count + n);
    ChangedKeepsWeights(a, f, c, x, a[x].id, a[x].count + n);
    WeighedIsSound(b, f);
    ChangedStack(a, f, c, x, a[x].count + n);
    ChangedOnlyAt(a, f, c, x, a[x].count + n);
    ParentsKeepLines(a, b);
    StacksKept(types, a, b, c, x);
  }

  lemma PutNew(types: ItemTypes, a: Arena<Item>, f: Measure, c: Item, x: Item, n: Node<Item>)
    requires WellWeighed(a, f) && StacksProper(types, a) && Sound(a)
    requires x !in a && Loose(n) && !n.isContainer && 1 <= n.count <= 100 && c in a && a[c].isContainer
    ensures Fits(a[x := n], c, x) && WellWeighed(a[x := n], f)
    ensures PutIn(types, a, Added(a[x := n], f, c, x), f, c, n.id, n.count)
  {
    hide Linked, Acyclic, AtOrAbove, AddUp, WellWeighed, Added, GainedStack, AllLines, Fits;
    var e := a[x := n];
    NewStack(a, f, c, x, n);
    ExtendWeighed(a, x, n, f);
    AddedKeepsWeights(e, f, c, x);
    FitsIsSound(e, c, x);
    var b := Added(e, f, c, x);
    WeighedIsSound(b, f);
    AddedNodes(e, f, c, x);
    ParentsKeepLines(a, b);
  }

  lemma FitsIsSound(a: Arena<Item>, c: Item, x: Item)
    requires Fits(a, c, x)
    ensures Sound(a) && c in a && x in a && c != x && a[c].isContainer
  {
  }

  lemma PutTwice(types: ItemTypes, a: Arena<Item>, b: Arena<Item>, e: Arena<Item>, f: Measure, c: Item,
                 id: nat, m: nat, n: nat)
    requires PutIn(types, a, b, f, c, id, m) && b[c].items == a[c].items && PutIn(types, b, e, f, c, id, n)
    ensures PutIn(types, a, e, f, c, id, m + n)
  {
    hide Linked, Acyclic, AtOrAbove, WellWeighed, StacksProper, GainedStack, AllLines;
    PutInLines(types, a, b, f, c, id, m);
    LinesTwice(a, b, e);
    StackTwice(a, b, e, c, id, m, n);
  }

  lemma PutInLines(types: ItemTypes, a: Arena<Item>, b: Arena<Item>, f: Measure, c: Item, id: nat, m: nat)
    requires PutIn(types, a, b, f, c, id, m)
    ensures SameLines(a, b, c)
  {
    hide Linked, Acyclic, AtOrAbove, WellWeighed, StacksProper, GainedStack;
  }

  /** Every list of a is as long in b at most; c's may have grown by k. */
  ghost predicate ListsWithin(a: Arena<Item>, b: Arena<Item>, c: Item, k: nat) {
    && a.Keys <= b.Keys
    && forall y :: y in a ==> |b[y].items| <= |a[y].items| + (if y == c then k else 0)
  }

  /**
   From a to b, n units of item, or all of an item that does not stack, went from its container to
   dest: under every measure the two containers, and all that hold just one of them, saw exactly
   that much go and come, and everything else saw no change.
   */
  ghost predicate WentOver(types: ItemTypes, a: Arena<Item>, b: Arena<Item>, from: Item, dest: Item,
                           item: Item, n: nat) {
    && Sound(a) && from in a && dest in a && item in a && item in a[from].items && a[dest].isContainer
    && if types(a[item].id).stackable then n <= a[item].count && MovedStack(a, b, from, dest, a[item].id, n)
       else MovedWhole(a, b, from, dest, item)
  }

  /** What holds both containers, or neither, has as many units of every type as before. */
  lemma UnitsConserved(types: ItemTypes, a: Arena<Item>, b: Arena<Item>, from: Item, dest: Item, item: Item, n: nat,
                       k: nat, t: Item)
    requires WentOver(types, a, b, from, dest, item, n) && t in a
    requires AtOrAbove(a, t, from) <==> AtOrAbove(a, t, dest)
    ensures Sound(b) && t in b && Below(b, t, Units(k)) == Below(a, t, Units(k))
  {
    hide Linked, Acyclic, AtOrAbove, Below;
    UnitsAdditive(k);
    assert exists d :: Transferred(a, b, Units(k), from, dest, d) by {
      if types(a[item].id).stackable {
        assert Transferred(a, b, Units(k), from, dest, Units(k)(a[item].id, n, false));
      } else {
        assert Transferred(a, b, Units(k), from, dest, Own(Units(k), a[item]) + Below(a, item, Units(k)));
      }
    }
  }

  /** Two containers side by side have together as many units of every type as before. */
  lemma UnitsAcross(types: ItemTypes, a: Arena<Item>, b: Arena<Item>, from: Item, dest: Item, item: Item, n: nat,
                    k: nat)
    requires WentOver(types, a, b, from, dest, item, n)
    requires !AtOrAbove(a, from, dest) && !AtOrAbove(a, dest, from)
    ensures Sound(b) && from in b && dest in b
    ensures Below(b, from, Units(k)) + Below(b, dest, Units(k)) == Below(a, from, Units(k)) + Below(a, dest, Units(k))
  {
    hide Linked, Acyclic, AtOrAbove, Below;
    UnitsAdditive(k);
    AtOrAboveIsSelf(a, from);
    AtOrAboveIsSelf(a, dest);
    if types(a[item].id).stackable {
      assert Transferred(a, b, Units(k), from, dest, Units(k)(a[item].id, n, false));
    } else {
      assert Transferred(a, b, Units(k), from, dest, Own(Units(k), a[item]) + Below(a, item, Units(k)));
    }
  }

  /** No list went over its capacity. */
  ghost predicate CapacityKept(a: Arena<Item>, b: Arena<Item>) {
    a.Keys <= b.Keys &&
    forall c :: c in a && |a[c].items| <= a[c].capacity ==> |b[c].items| <= a[c].capacity
  }

  lemma TakenOutFrame(types: ItemTypes, a: Arena<Item>, b: Arena<Item>, f: Measure, c: Item, x: Item,
                      m: nat, to: Item)
    requires TakenOut(types, a, b, f, c, x, m, to)
    ensures OnlyAt(a, b, c, x) && b.Keys == a.Keys && x in a && c in a && to in a
    ensures forall y :: y in a[to].items && y != x ==> y in b[to].items
    ensures Acyclic(a) && Acyclic(b) && SameLines(a, b, to)
  {
    hide Linked, Acyclic, AtOrAbove, WellWeighed, GainedStack, SameLines, StacksProper;
  }

  lemma StackWentOver(types: ItemTypes, a: Arena<Item>, b: Arena<Item>, e: Arena<Item>, f: Measure,
                      from: Item, x: Item, m: nat, to: Item)
    requires TakenOut(types, a, b, f, from, x, m, to) && m > 0 && x in a
    requires PutIn(types, b, e, f, to, a[x].id, m)
    ensures MovedStack(a, e, from, to, a[x].id, m)
  {
    hide Linked, Acyclic, AtOrAbove, WellWeighed, GainedStack, SameLines, StacksProper, OnlyAt, MovedStack;
    StackOver(a, b, e, from, to, a[x].id, m);
  }

  lemma ListsAfter(types: ItemTypes, a: Arena<Item>, b: Arena<Item>, e: Arena<Item>, f: Measure,
                   from: Item, x: Item, m: nat, to: Item, n: nat)
    requires TakenOut(types, a, b, f, from, x, m, to) && x in a && to in b
    requires PutIn(types, b, e, f, to, a[x].id, m)
    requires m == n ==> to in e && e[to].items == b[to].items
    ensures ListsWithin(a, e, to, if m == n then 0 else 1)
  {
    hide Linked, Acyclic, AtOrAbove, WellWeighed, GainedStack, SameLines, StacksProper;
  }

  /** Taking an item out of one list and putting it into another keeps stacks, and grows one list. */
  lemma WholeFrame(types: ItemTypes, a: Arena<Item>, f: Measure, from: Item, to: Item, x: Item)
    requires WellWeighed(a, f) && StacksProper(types, a)
    requires Sound(a) && from in a && x in a[from].items && x in a && x != from && to in a
    requires Fits(Removed(a, f, from, x), to, x)
    ensures var b := Removed(a, f, from, x);
            var e := Added(b, f, to, x);
            && WellWeighed(b, f) && StacksProper(types, e) && ListsWithin(a, e, to, 1)
  {
    hide Linked, Acyclic, AtOrAbove, WellWeighed, Removed, Added, StacksProper;
    var b := Removed(a, f, from, x);
    RemovedKeepsWeights(a, f, from, x);
    RemovedOnlyAt(a, f, from, x);
    FitsApart(b, to, x);
    AddedNodes(b, f, to, x);
    StacksSame(types, a, Added(b, f, to, x));
  }

  lemma StacksSame(types: ItemTypes, a: Arena<Item>, b: Arena<Item>)
    requires StacksProper(types, a) && a.Keys == b.Keys
    requires forall y :: y in a ==>
               b[y].id == a[y].id && b[y].count == a[y].count && b[y].isContainer == a[y].isContainer
    ensures StacksProper(types, b)
  {
  }

  // -- where everything is afterwards

  /** A list without an item. */
  ghost function Rid(s: seq<Item>, x: Item): seq<Item> {
    if x in s then Without(s, x) else s
  }

  /** From a to b m units left the stack x of c's list; if that is all of it, it is not listed any more. */
  ghost predicate Reduced(a: Arena<Item>, b: Arena<Item>, c: Item, x: Item, m: nat) {
    && b.Keys == a.Keys && c in a && x in a
    && (forall y :: y in a ==>
          b[y].id == a[y].id && b[y].count == if y == x && m != a[x].count then a[x].count - m else a[y].count)
    && forall y :: y in a ==>
         b[y].items == if y == c && m == a[x].count then Rid(a[c].items, x) else a[y].items
  }

  lemma LessIsReduced(a: Arena<Item>, f: Measure, c: Item, x: Item, m: nat)
    requires Sound(a) && c in a && x in a[c].items && x in a && m <= a[x].count
    ensures Reduced(a, LessStack(a, f, c, x, m), c, x, m)
  {
    hide Linked, Acyclic, AtOrAbove, Changed, Removed, Without;
    ListedIsBelow(a, c, x);
    if m != a[x].count {
      ChangedOnlyAt(a, f, c, x, a[x].count - m);
    } else {
      RemovedNodes(a, f, c, x);
    }
  }

  lemma RemovedNodes(a: Arena<Item>, f: Measure, c: Item, x: Item)
    requires Sound(a) && c in a && x in a[c].items && x in a && x != c
    ensures var b := Removed(a, f, c, x);
            && b.Keys == a.Keys
            && (forall y :: y in a ==> b[y].id == a[y].id && b[y].count == a[y].count)
            && (forall y :: y in a ==> b[y].items == if y == c then Without(a[c].items, x) else a[y].items)
  {
    hide Linked, Acyclic, AtOrAbove, AddUp, Without;
    UnlinkSound(a, c, x);
  }

  /** How many of m units of a type the stack onto takes. */
  ghost function OnTop(a: Arena<Item>, id: nat, onto: Item?, m: nat): nat {
    if onto != null && onto in a && a[onto].id == id && a[onto].count <= 100 then Min(100 - a[onto].count, m) else 0
  }

  /** From a to b m units of a type joined c's list: first the stack onto, then as a new stack in front. */
  ghost predicate Joined(a: Arena<Item>, b: Arena<Item>, c: Item, id: nat, onto: Item?, m: nat) {
    var n := OnTop(a, id, onto, m);
    && a.Keys <= b.Keys && c in a
    && (forall y :: y in a ==> b[y].id == a[y].id && b[y].count == a[y].count + if y == onto then n else 0)
    && (forall y :: y in a && y != c ==> b[y].items == a[y].items)
    && if m == n then b[c].items == a[c].items else InFront(a, b, b[c].items, a[c].items, id, m - n)
  }

  /** A new stack stands in front of the list. */
  ghost predicate InFront(a: Arena<Item>, b: Arena<Item>, list: seq<Item>, rest: seq<Item>, id: nat, n: nat) {
    && list != [] && list[1..] == rest
    && list[0] !in a && list[0] in b && b[list[0]].id == id && b[list[0]].count == n
  }

  lemma NothingJoins(a: Arena<Item>, c: Item, id: nat, onto: Item?)
    requires c in a
    ensures Joined(a, a, c, id, onto, 0)
  {
  }

  lemma ChangedIsJoined(a: Arena<Item>, f: Measure, c: Item, x: Item, m: nat)
    requires Sound(a) && c in a && x in a[c].items && x in a && a[x].count + m <= 100
    ensures Joined(a, Changed(a, f, c, x, a[x].id, a[x].count + m), c, a[x].id, x, m)
  {
    hide Linked, Acyclic, AtOrAbove, AddUp;
    RetypeSound(a, x, a[x].id, a[x].count + m);
  }

  lemma NewIsJoined(a: Arena<Item>, f: Measure, c: Item, x: Item, n: Node<Item>)
    requires Sound(a) && c in a && x !in a && Fits(a[x := n], c, x) && n.count > 0
    ensures Joined(a, Added(a[x := n], f, c, x), c, n.id, null, n.count)
  {
    hide Linked, Acyclic, AtOrAbove, Added;
    AddedNodes(a[x := n], f, c, x);
    var b := Added(a[x := n], f, c, x);
    assert b[c].items[1..] == a[c].items;
  }

  /** First the stack takes what it can, and then the rest stands in front. */
  lemma JoinedTwice(a: Arena<Item>, b: Arena<Item>, e: Arena<Item>, c: Item, id: nat, onto: Item?, m: nat)
    requires var n := OnTop(a, id, onto, m);
             Joined(a, b, c, id, onto, n) && (if n == m then e == b else Joined(b, e, c, id, null, m - n))
    requires b.Keys == a.Keys
    ensures Joined(a, e, c, id, onto, m)
  {
  }

  /** From a to e m units went from the stack item in from's list over to dest's list, and nothing else changed. */
  ghost predicate Restacked(a: Arena<Item>, e: Arena<Item>, from: Item, dest: Item, item: Item, onto: Item?, m: nat) {
    && a.Keys <= e.Keys && from in a && dest in a && item in a
    && var id, n := a[item].id, OnTop(a, a[item].id, onto, m);
    && (forall y :: y in a ==>
          && e[y].id == a[y].id
          && e[y].count == if y == item && m != a[item].count then a[item].count - m
                           else if y == onto then a[y].count + n else a[y].count)
    && forall y :: y in a ==>
         var rest := if y == from && m == a[item].count then Rid(a[y].items, item) else a[y].items;
         if y == dest && n != m then InFront(a, e, e[y].items, rest, id, m - n) else e[y].items == rest
  }

  lemma ReducedJoined(a: Arena<Item>, b: Arena<Item>, e: Arena<Item>, from: Item, dest: Item, item: Item,
                      onto: Item?, m: nat)
    requires Reduced(a, b, from, item, m) && Joined(b, e, dest, a[item].id, onto, m) && onto != item
    ensures Restacked(a, e, from, dest, item, onto, m)
  {
    hide Rid, InFront;
    assert OnTop(b, a[item].id, onto, m) == OnTop(a, a[item].id, onto, m);
    if OnTop(a, a[item].id, onto, m) != m { FrontStays(a, b, e, e[dest].items, b[dest].items, a[item].id); }
  }

  lemma FrontStays(a: Arena<Item>, b: Arena<Item>, e: Arena<Item>, list: seq<Item>, rest: seq<Item>, id: nat)
    requires b.Keys == a.Keys
    ensures forall n :: InFront(b, e, list, rest, id, n) ==> InFront(a, e, list, rest, id, n)
  {
  }

  /** From a to e item went from from's list to the front of dest's, and nothing else changed. */
  ghost predicate Rehung(a: Arena<Item>, e: Arena<Item>, from: Item, dest: Item, item: Item) {
    && e.Keys == a.Keys && (forall y :: y in a ==> e[y].id == a[y].id && e[y].count == a[y].count)
    && forall y :: y in a ==>
         var rest := if y == from then Rid(a[y].items, item) else a[y].items;
         e[y].items == if y == dest then [item] + rest else rest
  }

  lemma WholeIsRehung(a: Arena<Item>, f: Measure, from: Item, dest: Item, item: Item)
    requires Sound(a) && from in a && item in a[from].items && item in a && item != from
    requires dest in a && Fits(Removed(a, f, from, item), dest, item)
    ensures Rehung(a, Added(Removed(a, f, from, item), f, dest, item), from, dest, item)
  {
    hide Linked, Acyclic, AtOrAbove, AddUp, Without, Added, Fits;
    UnlinkSound(a, from, item);
    var b := Removed(a, f, from, item);
    FitsApart(b, dest, item);
    AddedNodes(b, f, dest, item);
  }

  // -- weights that go over

  /** From a to b from and all that holds it lost d, and to and all that holds it gained it. */
  ghost predicate WeightWentOver(a: Arena<Item>, b: Arena<Item>, from: Item, to: Item, d: int) {
    && Acyclic(a) && a.Keys <= b.Keys && from in a && to in a
    && forall t :: t in a ==>
         b[t].total == a[t].total - (if AtOrAbove(a, t, from) then d else 0) + (if AtOrAbove(a, t, to) then d else 0)
  }

  lemma HeavierOver(a: Arena<Item>, b: Arena<Item>, e: Arena<Item>, from: Item, to: Item, d: int)
    requires Heavier(a, b, from, -d) && Heavier(b, e, to, d) && to in a && SameLines(a, b, to)
    ensures WeightWentOver(a, e, from, to, d)
  {
    hide Acyclic, AtOrAbove;
  }

  lemma HeavierTwice(a: Arena<Item>, b: Arena<Item>, e: Arena<Item>, c: Item, d: int, d': int)
    requires Heavier(a, b, c, d) && Heavier(b, e, c, d') && SameLines(a, b, c)
    ensures Heavier(a, e, c, d + d')
  {
    hide Acyclic, AtOrAbove;
  }

  /** What is taken out has the contents it had. */
  lemma StaysAsHeavy(a: Arena<Item>, f: Measure, c: Item, x: Item)
    requires Sound(a) && c in a && x in a[c].items
    ensures x in a && x in Removed(a, f, c, x) && Removed(a, f, c, x)[x].total == a[x].total
  {
    hide Linked, Acyclic, AtOrAbove, Removed, Load;
    ListedIsBelow(a, c, x);
    RemovedIsHeavier(a, f, c, x);
  }

  lemma WholeTaken(a: Arena<Item>, f: Measure, c: Item, to: Item, x: Item)
    requires Sound(a) && c in a && x in a[c].items && x in a && to in a && !AtOrAbove(a, x, to)
    ensures var b := Removed(a, f, c, x);
            && Acyclic(b) && SameLines(a, b, to) && x in b && b[x].id == a[x].id && b[x].total == a[x].total
  {
    hide Linked, Acyclic, AtOrAbove, Removed, SameLines;
    ListedIsBelow(a, c, x);
    RemovedLines(a, f, c, to, x);
    RemovedNodes(a, f, c, x);
    StaysAsHeavy(a, f, c, x);
  }

  /** As many units as there is room for leave none. */
  lemma GapFilled(a: Arena<Item>, e: Arena<Item>, from: Item, to: Item, item: Item, onto: Item?, m: nat)
    requires Restacked(a, e, from, to, item, onto, m) && 1 <= m <= a[item].count <= 100
    requires m < a[item].count || from != to
    requires onto != null ==> onto in a && onto != item
    requires onto != null && a[onto].id == a[item].id ==> a[onto].count <= 100
    requires m == 100 * Max(0, a[to].capacity - |a[to].items|)
                  + if onto != null && a[onto].id == a[item].id then 100 - a[onto].count else 0
    ensures |e[to].items| >= a[to].capacity
    ensures onto != null ==> e[onto].id == a[onto].id && (a[onto].id == a[item].id ==> e[onto].count >= 100)
  {
    hide Rid;
  }

  lemma NoHeavier(a: Arena<Item>, c: Item)
    requires Acyclic(a) && c in a
    ensures Heavier(a, a, c, 0)
  {
  }

  /** The weight of a new item does not count before it lies somewhere. */
  lemma HeavierNew(a: Arena<Item>, b: Arena<Item>, c: Item, x: Item, n: Node<Item>, d: int)
    requires Sound(a) && x !in a && Loose(n) && c in a && Heavier(a[x := n], b, c, d)
    ensures Heavier(a, b, c, d)
  {
    hide Linked, Acyclic, AtOrAbove;
    ExtendLines(a, x, n, c);
  }

  // ---------------------------------------------------------------------------------------
  // Adding items

  /** A stack that lay in no container joins the list. */
  lemma PutLoose(types: ItemTypes, a: Arena<Item>, f: Measure, c: Item, x: Item)
    requires WellWeighed(a, f) && StacksProper(types, a) && Fits(a, c, x) && !a[x].isContainer
    requires a[x].count >= 1
    ensures PutIn(types, a, Added(a, f, c, x), f, c, a[x].id, a[x].count)
  {
    hide Linked, Acyclic, AtOrAbove, AddUp, WellWeighed, Added, GainedStack, AllLines, Fits, StacksProper;
    var b := Added(a, f, c, x);
    FitsIsSound(a, c, x);
    AddedKeepsWeights(a, f, c, x);
    WeighedIsSound(b, f);
    AddedStack(a, f, c, x);
    AddedNodes(a, f, c, x);
    StacksSame(types, a, b);
    LeafMoves(a, b, x);
  }

  // ---------------------------------------------------------------------------------------
  // Money

  const ITEM_COINS_GOLD := 2148
  const ITEM_COINS_PLATINUM := 2152
  const ITEM_COINS_CRYSTAL := 2160

  /** Item::getWorth. */
  function CoinWorth(id: nat, count: nat): int {
    if id == ITEM_COINS_GOLD then count
    else if id == ITEM_COINS_PLATINUM then count * 100
    else if id == ITEM_COINS_CRYSTAL then count * 10000
    else 0
  }

  /** What an item adds to the money count; containers are searched instead. */
  function Worth(): Measure {
    (id: nat, count: nat, isContainer: bool) => if isContainer then 0 else CoinWorth(id, count)
  }

  lemma WorthAdditive()
    ensures Additive(Worth())
  {
  }

  ghost predicate CoinsStack(types: ItemTypes) {
    types(ITEM_COINS_GOLD).stackable && types(ITEM_COINS_PLATINUM).stackable && types(ITEM_COINS_CRYSTAL).stackable
  }

  /** Stacks, as types and counts. */
  type Pile = seq<(nat, nat)>

  /** A pile under a measure. */
  function PileSum(g: Measure, pile: Pile): int {
    if pile == [] then 0 else g(pile[0].0, pile[0].1, false) + PileSum(g, pile[1..])
  }

  lemma {:induction false} PileSumConcat(g: Measure, p: Pile, q: Pile)
    ensures PileSum(g, p + q) == PileSum(g, p) + PileSum(g, q)
  {
    if p == [] {
      assert p + q == q;
    } else {
      assert (p + q)[1..] == p[1..] + q;
      PileSumConcat(g, p[1..], q);
    }
  }

  lemma PileSumOne(g: Measure, id: nat, n: nat)
    ensures PileSum(g, []) == 0 && PileSum(g, [(id, n)]) == g(id, n, false)
  {
    var one := [(id, n)];
    assert one[1..] == [];
  }

  /** From a to b, c and all that holds it gained the stacks of the pile, whatever is measured. */
  ghost predicate Paid(a: Arena<Item>, b: Arena<Item>, c: Item, got: Pile) {
    && Sound(a) && Sound(b) && a.Keys <= b.Keys && c in a && a[c].isContainer && AllLines(a, b)
    && (forall y :: y in a ==> b[y].isContainer == a[y].isContainer)
    && forall g: Measure :: Additive(g) ==> Gained(a, b, g, c, PileSum(g, got))
  }

  lemma PutInPays(types: ItemTypes, a: Arena<Item>, b: Arena<Item>, f: Measure, c: Item, id: nat, m: nat)
    requires PutIn(types, a, b, f, c, id, m)
    ensures Paid(a, b, c, [(id, m)])
  {
    hide Linked, Acyclic, AtOrAbove, WellWeighed, StacksProper, AllLines, Gained, PileSum, Additive;
    forall g: Measure | Additive(g)
      ensures Gained(a, b, g, c, PileSum(g, [(id, m)]))
    {
      PileSumOne(g, id, m);
    }
  }

  lemma PaidTwice(a: Arena<Item>, b: Arena<Item>, e: Arena<Item>, c: Item, got: Pile, got': Pile)
    requires Paid(a, b, c, got) && Paid(b, e, c, got')
    ensures Paid(a, e, c, got + got')
  {
    hide Linked, Acyclic, AtOrAbove, Below, Gained, PileSum, Additive;
    LinesTwice(a, b, e);
    forall g: Measure | Additive(g)
      ensures Gained(a, e, g, c, PileSum(g, got + got'))
    {
      GainTwice(a, b, e, g, c, PileSum(g, got), PileSum(g, got'));
      PileSumConcat(g, got, got');
    }
  }

  lemma NothingPaid(types: ItemTypes, a: Arena<Item>, f: Measure, c: Item)
    requires WellWeighed(a, f) && c in a && a[c].isContainer
    ensures Paid(a, a, c, [])
  {
    hide Linked, Acyclic, AtOrAbove, Below, AllLines;
    WeighedIsSound(a, f);
    ParentsKeepLines(a, a);
  }

  /** A newly made coin stack changes nothing until it is put somewhere. */
  lemma CoinIsNew(types: ItemTypes, a: Arena<Item>, f: Measure, x: Item, n: Node<Item>, c: Item)
    requires WellWeighed(a, f) && StacksProper(types, a) && x !in a && Loose(n) && !n.isContainer && 1 <= n.count <= 100
    requires c in a && a[c].isContainer
    ensures WellWeighed(a[x := n], f) && StacksProper(types, a[x := n])
    ensures Paid(a, a[x := n], c, [])
  {
    hide Linked, Acyclic, AtOrAbove, Below, WellWeighed, AllLines, Additive;
    ExtendWeighed(a, x, n, f);
    WeighedIsSound(a, f);
    WeighedIsSound(a[x := n], f);
    ParentsKeepLines(a, a[x := n]);
    forall g: Measure | Additive(g)
      ensures Gained(a, a[x := n], g, c, PileSum(g, []))
    {
      ExtendSums(a, x, n, g);
    }
  }

  // -- stacks of coins

  /** The pile of coins with the fewest stacks: full ones of crystals and their rest, then platinum, then gold. */
  function CoinStacks(money: nat): Pile {
    Crystals(money / 10000) + Few(ITEM_COINS_PLATINUM, money / 100 % 100) + Few(ITEM_COINS_GOLD, money % 100)
  }

  function Crystals(n: nat): Pile {
    if n == 0 then [] else [(ITEM_COINS_CRYSTAL, Min(100, n))] + Crystals(n - Min(100, n))
  }

  function Few(id: nat, n: nat): Pile {
    if n == 0 then [] else [(id, n)]
  }

  /** What one coin of a kind is worth, in gold. */
  function CoinValue(id: nat): int {
    CoinWorth(id, 1)
  }

  /** The more valuable coins come first, and of one kind only the last stack may be less than 100. */
  lemma CoinStacksFall(money: nat)
    ensures var s := CoinStacks(money);
            forall i, j :: 0 <= i < j < |s| ==>
              CoinValue(s[i].0) > CoinValue(s[j].0) || (s[i].0 == s[j].0 && s[i].1 == 100)
  {
    hide Crystals;
    CrystalsFull(money / 10000);
    var c, p := Crystals(money / 10000), Few(ITEM_COINS_PLATINUM, money / 100 % 100);
    var g := Few(ITEM_COINS_GOLD, money % 100);
    var s := CoinStacks(money);
    forall i, j | 0 <= i < j < |s|
      ensures CoinValue(s[i].0) > CoinValue(s[j].0) || (s[i].0 == s[j].0 && s[i].1 == 100)
    {
      assert i < |c| ==> s[i] == c[i];
      assert s[j] == if j < |c| then c[j] else if j - |c| < |p| then p[j - |c|] else g[j - |c| - |p|];
      assert i < |c| - 1 ==> c[i].1 == 100;
    }
  }

  lemma {:induction false} CrystalsFull(n: nat)
    ensures forall i :: 0 <= i < |Crystals(n)| ==>
              Crystals(n)[i].0 == ITEM_COINS_CRYSTAL && (i < |Crystals(n)| - 1 ==> Crystals(n)[i].1 == 100)
  {
    if n > 0 {
      var rest := Crystals(n - Min(100, n));
      CrystalsFull(n - Min(100, n));
      assert Crystals(n) == [(ITEM_COINS_CRYSTAL, Min(100, n))] + rest;
      assert rest != [] ==> n > 100;
    }
  }

  /** 1 to 100 coins of one kind. */
  predicate IsCoinStack(stack: (nat, nat)) {
    && (stack.0 == ITEM_COINS_GOLD || stack.0 == ITEM_COINS_PLATINUM || stack.0 == ITEM_COINS_CRYSTAL)
    && 1 <= stack.1 <= 100
  }

  lemma CrystalsStep(made: Pile, n: nat)
    requires n > 0
    ensures made + Crystals(n) == made + [(ITEM_COINS_CRYSTAL, Min(100, n))] + Crystals(n - Min(100, n))
  {
  }

  /** How many coins of each kind there are. */
  lemma Digits(money: nat, crys: nat, plat: nat, gold: nat)
    requires crys == money / 10000 && plat == (money - crys * 10000) / 100 && gold == money - crys * 10000 - plat * 100
    ensures plat < 100 && gold < 100
    ensures CoinStacks(money) == Crystals(crys) + Few(ITEM_COINS_PLATINUM, plat) + Few(ITEM_COINS_GOLD, gold)
  {
    hide Crystals, Few;
    var rest := money - crys * 10000;
    assert 0 <= rest < 10000 && 0 <= rest - plat * 100 < 100;
    DigitsOf(crys, plat, gold);
  }

  lemma NoCoinsForNothing()
    ensures CoinStacks(0) == []
  {
  }

  lemma CrystalsEnd(made: Pile)
    ensures made + Crystals(0) == made
  {
  }

  /** Every stack is of one kind of coin and holds 1 to 100. */
  lemma CoinStacksProper(money: nat)
    ensures forall i :: 0 <= i < |CoinStacks(money)| ==> IsCoinStack(CoinStacks(money)[i])
  {
    CrystalsProper(money / 10000);
  }

  lemma {:induction false} CrystalsProper(n: nat)
    ensures forall i :: 0 <= i < |Crystals(n)| ==> IsCoinStack(Crystals(n)[i])
    ensures PileSum(Worth(), Crystals(n)) == 10000 * n
    ensures |Crystals(n)| == (n + 99) / 100
  {
    if n > 0 {
      CrystalsProper(n - Min(100, n));
      assert Crystals(n)[1..] == Crystals(n - Min(100, n));
    }
  }

  /** Together they are worth the money. */
  lemma CoinStacksWorth(money: nat)
    ensures PileSum(Worth(), CoinStacks(money)) == money
    ensures |CoinStacks(money)| == FewestStacks(money)
  {
    hide Crystals, Few, PileSum, Worth;
    var crys, plat, gold := money / 10000, money / 100 % 100, money % 100;
    CrystalsProper(crys);
    var p, q := Few(ITEM_COINS_PLATINUM, plat), Few(ITEM_COINS_GOLD, gold);
    FewWorth(ITEM_COINS_PLATINUM, plat);
    FewWorth(ITEM_COINS_GOLD, gold);
    PileSumConcat(Worth(), Crystals(crys) + p, q);
    PileSumConcat(Worth(), Crystals(crys), p);
    MoneyOf(money);
  }

  lemma FewWorth(id: nat, n: nat)
    ensures PileSum(Worth(), Few(id, n)) == CoinWorth(id, n)
    ensures |Few(id, n)| == if n == 0 then 0 else 1
  {
    PileSumOne(Worth(), id, n);
  }

  lemma MoneyOf(money: nat)
    ensures money == 10000 * (money / 10000) + 100 * (money / 100 % 100) + money % 100
  {
    var crys, rest := money / 10000, money % 10000;
    assert money == crys * 10000 + rest && 0 <= rest < 10000;
    var plat, gold := rest / 100, rest % 100;
    assert rest == plat * 100 + gold && 0 <= gold < 100;
    DigitsOf(crys, plat, gold);
  }

  function FewestStacks(money: nat): nat {
    (money / 10000 + 99) / 100 + (if money / 100 % 100 == 0 then 0 else 1) + (if money % 100 == 0 then 0 else 1)
  }

  /** One more stack, of whatever coin, never saves more than a stack. */
  lemma StackSavesOne(money: nat, stack: (nat, nat))
    requires IsCoinStack(stack)
    ensures FewestStacks(money + CoinWorth(stack.0, stack.1)) <= FewestStacks(money) + 1
  {
    var crys, plat, gold := money / 10000, money / 100 % 100, money % 100;
    var n := stack.1;
    MoneyOf(money);
    if stack.0 == ITEM_COINS_CRYSTAL {
      DigitsOf(crys + n, plat, gold);
    } else if stack.0 == ITEM_COINS_PLATINUM {
      if plat + n < 100 { DigitsOf(crys, plat + n, gold); } else { DigitsOf(crys + 1, plat + n - 100, gold); }
    } else if gold + n < 100 {
      DigitsOf(crys, plat, gold + n);
    } else if plat < 99 {
      DigitsOf(crys, plat + 1, gold + n - 100);
    } else {
      DigitsOf(crys + 1, 0, gold + n - 100);
    }
  }

  lemma DigitsOf(crys: nat, plat: nat, gold: nat)
    requires plat < 100 && gold < 100
    ensures var money := 10000 * crys + 100 * plat + gold;
            money / 10000 == crys && money / 100 % 100 == plat && money % 100 == gold
  {
    var money := 10000 * crys + 100 * plat + gold;
    assert money / 100 == 100 * crys + plat;
  }

  /** No other pile of coin stacks of the same worth has fewer of them. */
  lemma {:induction false} NoFewerStacks(pile: Pile, money: nat)
    requires forall i :: 0 <= i < |pile| ==> IsCoinStack(pile[i])
    requires PileSum(Worth(), pile) == money
    ensures |CoinStacks(money)| <= |pile|
  {
    CoinStacksWorth(money);
    if pile != [] {
      var rest := money - CoinWorth(pile[0].0, pile[0].1);
      WorthIsNat(pile[1..]);
      NoFewerStacks(pile[1..], rest);
      CoinStacksWorth(rest);
      StackSavesOne(rest, pile[0]);
    }
  }

  lemma {:induction false} WorthIsNat(pile: Pile)
    requires forall i :: 0 <= i < |pile| ==> IsCoinStack(pile[i])
    ensures PileSum(Worth(), pile) >= 0
  {
    if pile != [] { WorthIsNat(pile[1..]); }
  }

  /** The stacks made, those of them that were kept and those that were dropped, each in order. */
  datatype Deal = Deal(made: Pile, kept: Pile, dropped: Pile)

  ghost predicate Proper(d: Deal)
    decreases |d.made|
  {
    if d.made == [] then d.kept == [] && d.dropped == []
    else
      var k := |d.made| - 1;
      || (d.kept != [] && d.kept[|d.kept| - 1] == d.made[k]
          && Proper(Deal(d.made[..k], d.kept[..|d.kept| - 1], d.dropped)))
      || (d.dropped != [] && d.dropped[|d.dropped| - 1] == d.made[k]
          && Proper(Deal(d.made[..k], d.kept, d.dropped[..|d.dropped| - 1])))
  }

  /** Under which terms stacks are handed out: free slots, and what the owner says to each stack. */
  datatype Terms = Terms(types: ItemTypes, free: int, noLimit: bool, says: nat -> ReturnValue)

  /** Who gets which stack: the container as long as it has room, if it may hold the type and its owner agrees. */
  function Dealt(t: Terms, made: Pile): (d: Deal)
    ensures d.made == made
    decreases |made|
  {
    if made == [] then Deal([], [], [])
    else
      var k := |made| - 1;
      var d, e := Dealt(t, made[..k]), made[k];
      if t.types(e.0).pickupable && t.says(k) == RET_NOERROR && (t.noLimit || |d.kept| < t.free)
      then Deal(made, d.kept + [e], d.dropped)
      else Deal(made, d.kept, d.dropped + [e])
  }

  lemma NothingDealt()
    ensures forall t: Terms :: Dealt(t, []) == Deal([], [], [])
  {
  }

  lemma DealtOn(t: Terms, made: Pile, e: (nat, nat))
    ensures var d := Dealt(t, made);
            Dealt(t, made + [e]) ==
              if t.types(e.0).pickupable && t.says(|made|) == RET_NOERROR && (t.noLimit || |d.kept| < t.free)
              then Deal(made + [e], d.kept + [e], d.dropped) else Deal(made + [e], d.kept, d.dropped + [e])
  {
    assert (made + [e])[..|made|] == made;
  }

  lemma ProperOn(d: Deal, e: (nat, nat))
    requires Proper(d)
    ensures Proper(Deal(d.made + [e], d.kept + [e], d.dropped))
    ensures Proper(Deal(d.made + [e], d.kept, d.dropped + [e]))
  {
    hide Proper;
    ProperIs(Deal(d.made + [e], d.kept + [e], d.dropped));
    ProperIs(Deal(d.made + [e], d.kept, d.dropped + [e]));
    assert (d.made + [e])[..|d.made|] == d.made;
    assert (d.kept + [e])[..|d.kept|] == d.kept && (d.dropped + [e])[..|d.dropped|] == d.dropped;
  }

  lemma ProperIs(d: Deal)
    requires d.made != []
    ensures var k := |d.made| - 1;
            Proper(d) <==>
              || (d.kept != [] && d.kept[|d.kept| - 1] == d.made[k]
                  && Proper(Deal(d.made[..k], d.kept[..|d.kept| - 1], d.dropped)))
              || (d.dropped != [] && d.dropped[|d.dropped| - 1] == d.made[k]
                  && Proper(Deal(d.made[..k], d.kept, d.dropped[..|d.dropped| - 1])))
  {
  }

  /** Nothing is lost between made and handed out. */
  lemma {:induction false} ProperSum(d: Deal, g: Measure)
    requires Proper(d)
    ensures PileSum(g, d.made) == PileSum(g, d.kept) + PileSum(g, d.dropped)
    decreases |d.made|
  {
    if d.made != [] {
      LastOf(g, d.made);
      if d.kept != [] { LastOf(g, d.kept); }
      if d.dropped != [] { LastOf(g, d.dropped); }
      var k := |d.made| - 1;
      if d.kept != [] && d.kept[|d.kept| - 1] == d.made[k]
         && Proper(Deal(d.made[..k], d.kept[..|d.kept| - 1], d.dropped)) {
        ProperSum(Deal(d.made[..k], d.kept[..|d.kept| - 1], d.dropped), g);
      } else {
        ProperSum(Deal(d.made[..k], d.kept, d.dropped[..|d.dropped| - 1]), g);
      }
    }
  }

  lemma LastOf(g: Measure, p: Pile)
    requires p != []
    ensures PileSum(g, p) == PileSum(g, p[..|p| - 1]) + g(p[|p| - 1].0, p[|p| - 1].1, false)
  {
    var k := |p| - 1;
    assert p == p[..k] + [p[k]];
    PileSumConcat(g, p[..k], [p[k]]);
    PileSumOne(g, p[k].0, p[k].1);
  }

  /** Items other than those excepted keep their place, type and count. */
  ghost predicate Untouched(a: Arena<Item>, b: Arena<Item>, except: set<Item>) {
    && a.Keys <= b.Keys
    && forall y :: y in a && y !in except ==>
         b[y].parent == a[y].parent && b[y].id == a[y].id && b[y].count == a[y].count
         && b[y].isContainer == a[y].isContainer
  }

  /** What a new item does is no touch on the items that were there before. */
  lemma UntouchedByNew(a: Arena<Item>, b: Arena<Item>, e: Arena<Item>, x: Item)
    requires Untouched(a, b, {}) && Untouched(b, e, {x}) && x !in a
    ensures Untouched(a, e, {})
  {
  }

  lemma UntouchedTwice(a: Arena<Item>, b: Arena<Item>, e: Arena<Item>)
    requires Untouched(a, b, {}) && Untouched(b, e, {})
    ensures Untouched(a, e, {})
  {
  }

  /** From a to b, c got what it kept of a deal, and nothing else happened. */
  ghost predicate Dealing(a: Arena<Item>, b: Arena<Item>, c: Item, deal: Deal) {
    && Proper(deal) && Paid(a, b, c, deal.kept) && Untouched(a, b, {})
    && c in a && c in b && |b[c].items| == |a[c].items| + |deal.kept|
  }

  // -- the search for coins

  /** Everything nested in c, in the order of the search. */
  ghost function Nested(a: Arena<Item>, c: Item): seq<Item>
    requires Sound(a) && c in a
  {
    Walk(a, Holders(a, [c]))
  }

  /** The items of done have been looked at, the containers of q are still to be searched. */
  ghost predicate Searching(a: Arena<Item>, c: Item, done: seq<Item>, q: seq<Item>) {
    && Sound(a) && c in a && (forall x :: x in q ==> x in a)
    && done + Walk(a, Holders(a, q)) == Nested(a, c)
  }

  lemma SearchBegins(a: Arena<Item>, c: Item)
    requires Sound(a) && c in a
    ensures Searching(a, c, [], [c])
  {
  }

  /** Searching the front container: its list has been looked at, its bags join the queue. */
  lemma SearchStep(a: Arena<Item>, c: Item, done: seq<Item>, q: seq<Item>)
    requires Searching(a, c, done, q) && q != []
    ensures forall x :: x in a[q[0]].items ==> x in a
    ensures Searching(a, c, done + a[q[0]].items, q[1..] + Bags(a, a[q[0]].items))
    ensures |Walk(a, Holders(a, q))|
         == |a[q[0]].items| + |Walk(a, Holders(a, q[1..] + Bags(a, a[q[0]].items)))|
  {
    hide Linked, Acyclic, Walk, Holders, Step, Bags;
    SearchOn(a, q);
    var items := a[q[0]].items;
    Regroup(done, items, Walk(a, Holders(a, q[1..] + Bags(a, items))));
  }

  /** When the queue is empty, everything nested has been looked at, and no item twice. */
  lemma SearchEnds(a: Arena<Item>, c: Item, done: seq<Item>)
    requires Searching(a, c, done, [])
    ensures done == Nested(a, c)
  {
  }

  lemma NestedLaw(a: Arena<Item>, c: Item, f: Measure)
    requires Sound(a) && c in a
    ensures Distinct(Nested(a, c))
    ensures forall x :: x in Nested(a, c) ==> x in a && x != c && AtOrAbove(a, c, x)
    ensures forall x :: x in a && x != c && AtOrAbove(a, c, x) ==> x in Nested(a, c)
    ensures OwnSum(a, Nested(a, c), f) == Below(a, c, f)
  {
    hide Linked, Acyclic, Walk, AtOrAbove, Below, Inside, Apart;
    RemainingAtBegin(a, c);
    OneHolder(a, c);
    var q := Holders(a, [c]);
    OneApart(a, q);
    WalkSum(a, q, f);
    WalkIsComplete(a, q);
    OneTotal(a, c, f);
  }

  lemma OneHolder(a: Arena<Item>, c: Item)
    requires Sound(a) && c in a
    ensures Holders(a, [c]) == if a[c].items != [] then [c] else []
    ensures Nested(a, c) == if a[c].items != [] then Walk(a, [c]) else []
  {
    var one := [c];
    assert one[1..] == [];
    HoldersHead(a, one);
    NoHolders(a);
  }

  lemma OneApart(a: Arena<Item>, q: seq<Item>)
    requires Sound(a) && Busy(a, q) && |q| <= 1
    ensures Apart(a, q)
  {
  }

  lemma OneTotal(a: Arena<Item>, c: Item, f: Measure)
    requires Sound(a) && c in a
    ensures Total(a, Holders(a, [c]), f) == Below(a, c, f)
  {
    TotalOfHolders(a, [c], f);
    var one := [c];
    assert one[1..] == [];
  }

  // -- the coins found

  /**
   The multimap of removeMoney: the coin stacks among the items of done, cheapest first, each once,
   with their worth.
   */
  ghost predicate CoinMap(a: Arena<Item>, done: seq<Item>, mm: seq<(int, Item)>) {
    && (forall x :: x in done ==> x in a)
    && (forall i :: 0 <= i < |mm| ==> mm[i].1 in done && !a[mm[i].1].isContainer)
    && (forall i :: 0 <= i < |mm| ==> mm[i].0 == Own(Worth(), a[mm[i].1]) && mm[i].0 > 0)
    && (forall i, j :: 0 <= i < j < |mm| ==> mm[i].1 != mm[j].1 && mm[i].0 <= mm[j].0)
    && Firsts(mm) == OwnSum(a, done, Worth())
  }

  ghost function Firsts(mm: seq<(int, Item)>): int {
    if mm == [] then 0 else mm[0].0 + Firsts(mm[1..])
  }

  lemma {:induction false} FirstsInsert(mm: seq<(int, Item)>, p: nat, e: (int, Item))
    requires p <= |mm|
    ensures Firsts(mm[..p] + [e] + mm[p..]) == Firsts(mm) + e.0
  {
    var r := mm[..p] + [e] + mm[p..];
    if p == 0 {
      assert r[1..] == mm;
    } else {
      FirstsInsert(mm[1..], p - 1, e);
      assert r[1..] == mm[1..][..p - 1] + [e] + mm[1..][p - 1..];
    }
  }

  lemma OwnSumOne(a: Arena<Item>, done: seq<Item>, x: Item, f: Measure)
    requires x in a && forall y :: y in done ==> y in a
    ensures forall y :: y in done + [x] ==> y in a
    ensures OwnSum(a, done + [x], f) == OwnSum(a, done, f) + Own(f, a[x])
  {
    OwnSumConcat(a, done, [x], f);
    var one := [x];
    assert one[1..] == [];
  }

  lemma CoinMapSkips(a: Arena<Item>, done: seq<Item>, mm: seq<(int, Item)>, x: Item)
    requires CoinMap(a, done, mm) && x in a && Own(Worth(), a[x]) == 0
    ensures CoinMap(a, done + [x], mm)
  {
    OwnSumOne(a, done, x, Worth());
    hide Worth;
  }

  lemma CoinMapGrows(a: Arena<Item>, done: seq<Item>, mm: seq<(int, Item)>, x: Item, p: nat)
    requires CoinMap(a, done, mm) && x in a && x !in done && !a[x].isContainer && Own(Worth(), a[x]) > 0
    requires p <= |mm|
    requires forall i :: 0 <= i < p ==> mm[i].0 <= Own(Worth(), a[x])
    requires forall i :: p <= i < |mm| ==> Own(Worth(), a[x]) <= mm[i].0
    ensures CoinMap(a, done + [x], mm[..p] + [(Own(Worth(), a[x]), x)] + mm[p..])
  {
    hide Worth, Own, Firsts, OwnSum;
    OwnSumOne(a, done, x, Worth());
    FirstsInsert(mm, p, (Own(Worth(), a[x]), x));
    InsertedAt(mm, p, (Own(Worth(), a[x]), x));
  }

  lemma InsertedAt<T>(s: seq<T>, p: nat, e: T)
    requires p <= |s|
    ensures var t := s[..p] + [e] + s[p..];
            && |t| == |s| + 1
            && forall i :: 0 <= i < |t| ==> t[i] == if i < p then s[i] else if i == p then e else s[i - 1]
  {
  }

  /** Coin stacks nested in c, each once, with their worth. */
  ghost predicate Payable(a: Arena<Item>, c: Item, mm: seq<(int, Item)>) {
    && Sound(a) && c in a && a[c].isContainer
    && (forall i :: 0 <= i < |mm| ==> CoinIn(a, c, mm[i].0, mm[i].1))
    && (forall i, j :: 0 <= i < j < |mm| ==> mm[i].1 != mm[j].1)
  }

  /** x is a coin stack worth w, nested in c. */
  ghost predicate CoinIn(a: Arena<Item>, c: Item, w: int, x: Item)
    requires Sound(a)
  {
    && x in a && !a[x].isContainer && w == Own(Worth(), a[x]) && w > 0
    && a[x].parent.Some? && AtOrAbove(a, c, x)
  }

  lemma FoundIsPayable(a: Arena<Item>, c: Item, mm: seq<(int, Item)>)
    requires Sound(a) && c in a && a[c].isContainer && CoinMap(a, Nested(a, c), mm)
    ensures Payable(a, c, mm) && Firsts(mm) == Below(a, c, Worth())
  {
    NestedLaw(a, c, Worth());
    hide Linked, Acyclic, AtOrAbove, Below, Nested, Worth, Own;
    forall i | 0 <= i < |mm|
      ensures CoinIn(a, c, mm[i].0, mm[i].1)
    {
      AtOrAboveStep(a, c, mm[i].1);
    }
  }

  /** From a to b, c and all that holds it gained d under g; what neither holds c nor lies in it, nothing. */
  ghost predicate Shows(a: Arena<Item>, b: Arena<Item>, g: Measure, c: Item, d: int) {
    && Sound(a) && Sound(b) && a.Keys <= b.Keys && c in a
    && (forall t :: t in a && AtOrAbove(a, t, c) ==> Below(b, t, g) == Below(a, t, g) + d)
    && (forall t :: t in a && a[t].isContainer && !AtOrAbove(a, t, c) && !AtOrAbove(a, c, t) ==>
          Below(b, t, g) == Below(a, t, g))
  }

  /**
   From a to b, c and everything that holds c lost and got the stacks of two piles, whatever is
   measured; what neither holds c nor lies in it saw nothing; no container has moved.
   */
  ghost predicate Settled(a: Arena<Item>, b: Arena<Item>, c: Item, lost: Pile, got: Pile) {
    && Sound(a) && Sound(b) && a.Keys <= b.Keys && c in a && a[c].isContainer && AllLines(a, b)
    && (forall y :: y in a ==> b[y].isContainer == a[y].isContainer)
    && forall g: Measure :: Additive(g) ==> Shows(a, b, g, c, PileSum(g, got) - PileSum(g, lost))
  }

  lemma PaidIsSettled(a: Arena<Item>, b: Arena<Item>, c: Item, got: Pile)
    requires Paid(a, b, c, got)
    ensures Settled(a, b, c, [], got)
  {
    hide Linked, Acyclic, AtOrAbove, Below, AllLines, Additive, Gained, Shows;
    forall g: Measure | Additive(g)
      ensures Shows(a, b, g, c, PileSum(g, got) - PileSum(g, []))
    {
      GainShows(a, b, g, c, PileSum(g, got));
    }
  }

  lemma GainShows(a: Arena<Item>, b: Arena<Item>, g: Measure, c: Item, d: int)
    requires Gained(a, b, g, c, d)
    ensures Shows(a, b, g, c, d)
  {
    hide Linked, Acyclic, AtOrAbove, Below;
  }

  lemma SettledTwice(a: Arena<Item>, b: Arena<Item>, e: Arena<Item>, c: Item, lost: Pile, got: Pile,
                     lost': Pile, got': Pile)
    requires Settled(a, b, c, lost, got) && Settled(b, e, c, lost', got')
    ensures Settled(a, e, c, lost + lost', got + got')
  {
    hide Linked, Acyclic, AtOrAbove, Below, Additive, Shows, PileSum;
    LinesTwice(a, b, e);
    forall g: Measure | Additive(g)
      ensures Shows(a, e, g, c, PileSum(g, got + got') - PileSum(g, lost + lost'))
    {
      PileSumConcat(g, got, got');
      PileSumConcat(g, lost, lost');
      ShowsTwice(a, b, e, g, c, PileSum(g, got) - PileSum(g, lost), PileSum(g, got') - PileSum(g, lost'));
    }
  }

  lemma ShowsTwice(a: Arena<Item>, b: Arena<Item>, e: Arena<Item>, g: Measure, c: Item, d: int, d': int)
    requires Shows(a, b, g, c, d) && Shows(b, e, g, c, d') && a[c].isContainer && AllLines(a, b)
    requires forall y :: y in a ==> b[y].isContainer == a[y].isContainer
    ensures Shows(a, e, g, c, d + d')
  {
    hide Linked, Acyclic, AtOrAbove, Below;
  }

  lemma NothingSettled(a: Arena<Item>, c: Item)
    requires Sound(a) && c in a && a[c].isContainer
    ensures Settled(a, a, c, [], [])
  {
    hide Linked, Acyclic, AtOrAbove, Below, AllLines, Additive;
    ParentsKeepLines(a, a);
  }

  /** All that taking a leaf out of its list leaves alone. */
  lemma LeafGone(a: Arena<Item>, f: Measure, p: Item, x: Item)
    requires Sound(a) && p in a && x in a[p].items && x in a && !a[x].isContainer
    ensures var b := Removed(a, f, p, x);
            && Sound(b) && b.Keys == a.Keys && AllLines(a, b)
            && (forall y :: y in a && y != x ==> b[y].parent == a[y].parent)
            && (forall y :: y in a ==>
                  b[y].id == a[y].id && b[y].count == a[y].count && b[y].isContainer == a[y].isContainer)
  {
    ListedIsBelow(a, p, x);
    hide Linked, Acyclic, AtOrAbove, Below, AllLines, Removed, Without;
    RemovedLines(a, f, p, p, x);
    RemovedOnlyAt(a, f, p, x);
    RemovedParents(a, f, p, x);
    LeafMoves(a, Removed(a, f, p, x), x);
  }

  lemma RemovedParents(a: Arena<Item>, f: Measure, p: Item, x: Item)
    requires Sound(a) && p in a && x in a[p].items && x in a && x != p
    ensures var b := Removed(a, f, p, x);
            b.Keys == a.Keys && forall y :: y in a && y != x ==> b[y].parent == a[y].parent
  {
    hide Linked, Without, AddUp;
    UnlinkSound(a, p, x);
  }

  /** Whatever holds c, or does not lie in it, sees the coin go exactly if it holds c. */
  lemma CoinLine(a: Arena<Item>, c: Item, w: int, x: Item, t: Item)
    requires Sound(a) && c in a && a[c].isContainer && CoinIn(a, c, w, x) && t in a
    ensures a[x].parent.value in a
    ensures AtOrAbove(a, t, c) ==> AtOrAbove(a, t, a[x].parent.value)
    ensures !AtOrAbove(a, t, c) && !AtOrAbove(a, c, t) ==> !AtOrAbove(a, t, a[x].parent.value)
  {
    var p := a[x].parent.value;
    AtOrAboveStep(a, c, x);
    if AtOrAbove(a, t, c) { AboveTransitive(a, t, c, p); }
    if AtOrAbove(a, t, p) { AboveLinearR(a, Rank(a), t, c, p); }
  }

  lemma CoinGone(a: Arena<Item>, f: Measure, c: Item, w: int, x: Item)
    requires Sound(a) && c in a && a[c].isContainer && CoinIn(a, c, w, x)
    ensures var p := a[x].parent.value;
            p in a && x in a[p].items && Settled(a, Removed(a, f, p, x), c, [(a[x].id, a[x].count)], [])
  {
    hide Linked, Acyclic, AtOrAbove, Below, AllLines, Removed, Worth, Shows, PileSum, Additive;
    var p := a[x].parent.value;
    var lost := [(a[x].id, a[x].count)];
    ParentHolds(a, x);
    LeafGone(a, f, p, x);
    forall g: Measure | Additive(g)
      ensures Shows(a, Removed(a, f, p, x), g, c, PileSum(g, []) - PileSum(g, lost))
    {
      PileSumOne(g, a[x].id, a[x].count);
      CoinGoneShows(a, f, c, w, x, g);
    }
  }

  lemma CoinGoneShows(a: Arena<Item>, f: Measure, c: Item, w: int, x: Item, g: Measure)
    requires Sound(a) && c in a && a[c].isContainer && CoinIn(a, c, w, x)
    requires a[x].parent.value in a && x in a[a[x].parent.value].items
    ensures Shows(a, Removed(a, f, a[x].parent.value, x), g, c, 0 - g(a[x].id, a[x].count, false))
  {
    hide Linked, Acyclic, AtOrAbove, Below, AllLines, Removed, Worth;
    var p := a[x].parent.value;
    LeafItem(a, x);
    LeafBelow(a, x, g);
    RemovedShifts(a, f, p, x, g);
    forall t | t in a
      ensures AtOrAbove(a, t, c) ==> AtOrAbove(a, t, p)
      ensures !AtOrAbove(a, t, c) && !AtOrAbove(a, c, t) ==> !AtOrAbove(a, t, p)
    {
      CoinLine(a, c, w, x, t);
    }
  }

  lemma CoinStays(a: Arena<Item>, b: Arena<Item>, c: Item, w: int, x: Item, y: Item)
    requires Sound(a) && Sound(b) && a.Keys == b.Keys && x in a && y != x && CoinIn(a, c, w, y)
    requires !a[x].isContainer
    requires forall z :: z in a && z != x ==> b[z].parent == a[z].parent
    requires b[y].id == a[y].id && b[y].count == a[y].count && b[y].isContainer == a[y].isContainer
    ensures CoinIn(b, c, w, y)
  {
    LeafAboveNothing(a, x, y);
    hide Linked, Acyclic, AtOrAbove, Worth;
    LinkAbove(a, b, y, x);
  }

  /** Taking a nested coin stack out settles its worth; the other stacks stay payable. */
  lemma PayOne(a: Arena<Item>, f: Measure, c: Item, mm: seq<(int, Item)>)
    requires Payable(a, c, mm) && mm != []
    ensures var x := mm[0].1;
            && x in a && a[x].parent.Some? && a[x].parent.value in a && x in a[a[x].parent.value].items
            && var b := Removed(a, f, a[x].parent.value, x);
               Settled(a, b, c, [(a[x].id, a[x].count)], []) && Payable(b, c, mm[1..])
  {
    hide Linked, Acyclic, AtOrAbove, Below, Removed, Worth, Own, AllLines, Settled;
    var w, x := mm[0].0, mm[0].1;
    assert CoinIn(a, c, w, x);
    CoinGone(a, f, c, w, x);
    LeafGone(a, f, a[x].parent.value, x);
    var b := Removed(a, f, a[x].parent.value, x);
    forall i | 0 <= i < |mm[1..]|
      ensures CoinIn(b, c, mm[1..][i].0, mm[1..][i].1)
    {
      assert mm[1..][i] == mm[i + 1] && CoinIn(a, c, mm[i + 1].0, mm[i + 1].1);
      CoinStays(a, b, c, mm[i + 1].0, x, mm[i + 1].1);
    }
  }

  /** What the stacks of a list of coins are. */
  ghost function Stacks(a: Arena<Item>, mm: seq<(int, Item)>): Pile
    requires forall i :: 0 <= i < |mm| ==> mm[i].1 in a
  {
    seq(|mm|, i requires 0 <= i < |mm| => (a[mm[i].1].id, a[mm[i].1].count))
  }

  /** The coin stacks of a container, cheapest first; how many of them were used up; and the change. */
  datatype Bill = Bill(coins: seq<(int, Item)>, used: nat, deal: Deal)

  /** From a to b the first k coin stacks went and the change came; the others are as they were. */
  ghost predicate Paying(a: Arena<Item>, b: Arena<Item>, c: Item, mm: seq<(int, Item)>, k: nat, deal: Deal) {
    && k <= |mm| && Payable(a, c, mm) && a.Keys <= b.Keys
    && Settled(a, b, c, Stacks(a, mm[..k]), deal.kept) && Proper(deal)
    && (forall i :: 0 <= i < k ==> b[mm[i].1].parent.None?)
    && Payable(b, c, mm[k..])
    && (forall y :: y in a ==> b[y].id == a[y].id && b[y].count == a[y].count)
  }

  /**
   From a to b, money was taken from c: the cheapest of its coin stacks went, no more of them than
   needed, and of the last one the rest came back; the other coin stacks are still in c.
   */
  ghost predicate Honours(a: Arena<Item>, b: Arena<Item>, c: Item, money: int, bill: Bill)
    requires Sound(a) && c in a
  {
    && Paying(a, b, c, bill.coins, bill.used, bill.deal)
    && Firsts(bill.coins) == Below(a, c, Worth())
    && (forall i, j :: 0 <= i < j < |bill.coins| ==> bill.coins[i].0 <= bill.coins[j].0)
    && Firsts(bill.coins[..bill.used]) >= money
    && (forall j :: 0 <= j < bill.used ==> Firsts(bill.coins[..j]) < money)
    && bill.deal.made == CoinStacks(Firsts(bill.coins[..bill.used]) - money)
  }

  /** All but the last stack are spent whole: the change is less than that one is worth. */
  lemma ChangeOfOne(a: Arena<Item>, b: Arena<Item>, c: Item, money: nat, bill: Bill)
    requires Sound(a) && c in a && Honours(a, b, c, money, bill) && money > 0
    ensures bill.used > 0
    ensures 0 <= Firsts(bill.coins[..bill.used]) - money < bill.coins[bill.used - 1].0
  {
    hide Settled, Payable, Proper, CoinStacks, Linked, Acyclic, AtOrAbove, Below;
    if bill.used > 0 {
      FirstsOn(bill.coins, bill.used - 1);
      assert Firsts(bill.coins[..bill.used - 1]) < money;
    }
  }

  /** The container and all above it lose exactly the money, but for the change dropped on the ground. */
  lemma MoneyBalances(a: Arena<Item>, b: Arena<Item>, c: Item, money: nat, bill: Bill, t: Item)
    requires Sound(a) && c in a && t in a && AtOrAbove(a, t, c) && Honours(a, b, c, money, bill)
    ensures Sound(b) && t in b
    ensures Below(b, t, Worth()) + PileSum(Worth(), bill.deal.dropped) == Below(a, t, Worth()) - money
  {
    hide Payable, Proper, CoinStacks, Linked, Acyclic, AtOrAbove, Below, PileSum, Worth, Firsts, Additive;
    WorthAdditive();
    PayableHere(a, c, bill.coins);
    PaidInCoins(a, c, bill.coins, bill.used);
    var paid := Stacks(a, bill.coins[..bill.used]);
    ProperSum(bill.deal, Worth());
    CoinStacksWorth(Firsts(bill.coins[..bill.used]) - money);
    assert Shows(a, b, Worth(), c, PileSum(Worth(), bill.deal.kept) - PileSum(Worth(), paid));
  }

  lemma {:induction false} PaidInCoins(a: Arena<Item>, c: Item, mm: seq<(int, Item)>, k: nat)
    requires Payable(a, c, mm) && k <= |mm|
    ensures forall i :: 0 <= i < |mm| ==> mm[i].1 in a
    ensures PileSum(Worth(), Stacks(a, mm[..k])) == Firsts(mm[..k])
  {
    hide Linked, Acyclic, AtOrAbove, Below, Firsts, PileSum;
    PayableHere(a, c, mm);
    if k == 0 {
      assert mm[..0] == [] && Stacks(a, mm[..0]) == [];
      NothingOwed([]);
      PileSumOne(Worth(), 0, 0);
    } else {
      PaidInCoins(a, c, mm, k - 1);
      FirstsOn(mm, k - 1);
      var x := mm[k - 1].1;
      assert CoinIn(a, c, mm[k - 1].0, x);
      var one := [(a[x].id, a[x].count)];
      assert Stacks(a, mm[..k]) == Stacks(a, mm[..k - 1]) + one;
      PileSumConcat(Worth(), Stacks(a, mm[..k - 1]), one);
      PileSumOne(Worth(), a[x].id, a[x].count);
    }
  }

  lemma NothingPaying(a: Arena<Item>, c: Item, mm: seq<(int, Item)>)
    requires Payable(a, c, mm)
    ensures Paying(a, a, c, mm, 0, Deal([], [], [])) && Firsts(mm[..0]) == 0
  {
    hide Linked, Acyclic, AtOrAbove, Below, Settled;
    assert mm[0..] == mm;
    NothingSettled(a, c);
    assert Stacks(a, mm[..0]) == [];
  }

  lemma PayingAt(a: Arena<Item>, b: Arena<Item>, c: Item, mm: seq<(int, Item)>, k: nat, deal: Deal)
    requires Paying(a, b, c, mm, k, deal) && k < |mm|
    ensures mm[k..] != [] && mm[k..][0] == mm[k] && mm[k..][1..] == mm[k + 1..]
    ensures Payable(b, c, mm[k..]) && c in b && mm[k].1 in a && mm[k].1 in b && mm[k].0 > 0
    ensures b[mm[k].1].id == a[mm[k].1].id && b[mm[k].1].count == a[mm[k].1].count
  {
    hide Linked, Acyclic, AtOrAbove, Below, Settled;
    assert CoinIn(a, c, mm[k].0, mm[k].1);
  }

  lemma PayingStep(a: Arena<Item>, b: Arena<Item>, e: Arena<Item>, c: Item, mm: seq<(int, Item)>, k: nat, deal: Deal)
    requires Paying(a, b, c, mm, k, deal) && k < |mm|
    requires var x := mm[k].1;
             && x in b && Settled(b, e, c, [(b[x].id, b[x].count)], []) && OnlyLeft(b, e, x)
             && Payable(e, c, mm[k + 1..])
    ensures Paying(a, e, c, mm, k + 1, deal)
  {
    hide Linked, Acyclic, AtOrAbove, Below, Settled, Proper, CoinIn;
    var x := mm[k].1;
    var one := [(b[x].id, b[x].count)];
    PayingAt(a, b, c, mm, k, deal);
    PayableHere(a, c, mm);
    SettledTwice(a, b, e, c, Stacks(a, mm[..k]), deal.kept, one, []);
    assert Stacks(a, mm[..k + 1]) == Stacks(a, mm[..k]) + one;
    assert deal.kept + [] == deal.kept;
  }

  lemma PayableHere(a: Arena<Item>, c: Item, mm: seq<(int, Item)>)
    requires Payable(a, c, mm)
    ensures forall i :: 0 <= i < |mm| ==> mm[i].1 in a && !a[mm[i].1].isContainer
  {
    hide Linked, Acyclic, AtOrAbove, Below;
    forall i | 0 <= i < |mm| ensures mm[i].1 in a && !a[mm[i].1].isContainer {
      assert CoinIn(a, c, mm[i].0, mm[i].1);
    }
  }

  lemma PayingChange(a: Arena<Item>, b: Arena<Item>, e: Arena<Item>, c: Item, mm: seq<(int, Item)>, k: nat, deal: Deal)
    requires Paying(a, b, c, mm, k, Deal([], [], [])) && Dealing(b, e, c, deal)
    ensures Paying(a, e, c, mm, k, deal)
  {
    hide Linked, Acyclic, AtOrAbove, Below, Settled, Proper, CoinIn, Paid, Payable;
    PayableHere(a, c, mm);
    PaidIsSettled(b, e, c, deal.kept);
    var lost := Stacks(a, mm[..k]);
    SettledTwice(a, b, e, c, lost, [], [], deal.kept);
    assert lost + [] == lost && [] + deal.kept == deal.kept;
    PayableStays(b, e, c, mm[k..], deal.kept);
  }

  /** Coins that nobody touched are still in c. */
  lemma PayableStays(a: Arena<Item>, b: Arena<Item>, c: Item, mm: seq<(int, Item)>, got: Pile)
    requires Payable(a, c, mm) && Paid(a, b, c, got) && Untouched(a, b, {})
    ensures Payable(b, c, mm)
  {
    hide Linked, Acyclic, AtOrAbove, Below, CoinIn, Gained, PileSum, Additive, AllLines;
    forall i | 0 <= i < |mm| ensures CoinIn(b, c, mm[i].0, mm[i].1) {
      CoinStaysPut(a, b, c, mm[i].0, mm[i].1);
    }
  }

  lemma CoinStaysPut(a: Arena<Item>, b: Arena<Item>, c: Item, w: int, x: Item)
    requires Sound(a) && Sound(b) && c in a && CoinIn(a, c, w, x) && Untouched(a, b, {})
    ensures CoinIn(b, c, w, x)
  {
    hide Linked, Acyclic, AtOrAbove, Below;
    ParentsDecide(a, b, x);
  }

  lemma FirstsOn(mm: seq<(int, Item)>, k: nat)
    requires k < |mm|
    ensures Firsts(mm[..k + 1]) == Firsts(mm[..k]) + mm[k].0
  {
    var s := mm[..k + 1];
    assert s[..k] + [mm[k]] + s[k..k] == s;
    FirstsInsert(mm[..k], k, mm[k]);
    assert mm[..k][..k] + [mm[k]] + mm[..k][k..] == s;
  }

  /** x is in no list any more; all else is where and what it was, and so is x itself otherwise. */
  ghost predicate OnlyLeft(a: Arena<Item>, b: Arena<Item>, x: Item) {
    && x in a && Untouched(a, b, {x})
    && b[x].parent.None? && b[x].id == a[x].id && b[x].count == a[x].count && b[x].isContainer == a[x].isContainer
  }

  lemma CoinLeaves(a: Arena<Item>, f: Measure, x: Item)
    requires Sound(a) && x in a && a[x].parent.Some? && a[x].parent.value in a && !a[x].isContainer
    requires x in a[a[x].parent.value].items
    ensures var b := Removed(a, f, a[x].parent.value, x);
            OnlyLeft(a, b, x)
  {
    ListedIsBelow(a, a[x].parent.value, x);
    hide Linked, Acyclic, AtOrAbove, Removed, AllLines;
    LeafGone(a, f, a[x].parent.value, x);
    RemovedIsLoose(a, f, a[x].parent.value, x);
  }

  lemma RemovedIsLoose(a: Arena<Item>, f: Measure, p: Item, x: Item)
    requires Sound(a) && p in a && x in a[p].items && x in a && x != p
    ensures Removed(a, f, p, x)[x].parent.None?
  {
    hide Linked, Without, AddUp;
    UnlinkSound(a, p, x);
  }

  class Game {
    const types: ItemTypes
    ghost var S: set<Item>
    var ground: seq<(nat, nat)>   // type and count of the stacks that found no room and were dropped

    constructor (types: ItemTypes)
      ensures this.types == types && S == {} && ground == []
    {
      this.types := types;
      S, ground := {}, [];
    }

    /** Cached weights are right everywhere and stacks are proper. */
    ghost predicate Valid()
      reads this, S
    {
      && TypesProper(types)
      && WellWeighed(Snap(S), WeightOf(types))
      && StacksProper(types, Snap(S))
    }

    /** The flags a caller gave hold for the container it named, and for none behind it. */
    function FlagsAt(to0: Item, to: Item, flags0: Flags): Flags {
      if to == to0 then flags0 else Flags(false, false, false)
    }

    /** Whether item may be added at a place, room set aside. */
    ghost predicate MayAdd(at: Aim, item: Item, flags: Flags, ownerSays: ReturnValue)
      reads this, S
    {
      && Valid() && at.cylinder in S && item in S && Sound(Snap(S))
      && ownerSays == RET_NOERROR && types(item.id).pickupable
      && !AtOrAbove(Snap(S), item, at.cylinder)
      && (at.index == INDEX_WHEREEVER && !flags.noLimit ==> |at.cylinder.itemlist| < at.cylinder.maxSize)
    }

    lemma MayAddIs(at: Aim, item: Item, flags: Flags, ownerSays: ReturnValue)
      requires Valid() && at.cylinder in S && item in S && Sound(Snap(S))
      ensures MayAdd(at, item, flags, ownerSays) <==>
                && types(item.id).pickupable && !AtOrAbove(Snap(S), item, at.cylinder)
                && !(at.index == INDEX_WHEREEVER && !flags.noLimit && |at.cylinder.itemlist| >= at.cylinder.maxSize)
                && ownerSays == RET_NOERROR
    {
    }

    /** How much of the n units of item is to go to a place; of an item that does not stack, any amount is all. */
    ghost function Amount(at: Aim, item: Item, n: nat, flags: Flags): int
      reads at.cylinder, at.cylinder.itemlist, item
    {
      var room := at.cylinder.Room(at.index, item, n, flags, types);
      if types(item.id).stackable then Min(n, room) else room
    }

    /** Whether n units of item can go from one container to a place. */
    ghost predicate MayMove(from: Item, at: Aim, item: Item, n: nat, flags: Flags, ownerSays: ReturnValue)
      reads this, S, from, at.cylinder, at.cylinder.itemlist, item
    {
      && MayAdd(at, item, flags, ownerSays)
      && item in from.itemlist && item != at.item
      && (types(item.id).moveable || flags.ignoreNotMoveable)
      && 1 <= Amount(at, item, n, flags)
      && (types(item.id).stackable ==> Amount(at, item, n, flags) <= item.count)
    }

    /** Neither a free slot nor room on the stack toItem. */
    ghost predicate Full(to: Item, toItem: Item?, id: nat)
      reads to, toItem
    {
      |to.itemlist| >= to.maxSize && (types(id).stackable && toItem != null && toItem.id == id ==> toItem.count >= 100)
    }

    /** What free slots and the stack toItem can take of a type. */
    ghost function Gap(to: Item, toItem: Item?, id: nat): int
      reads to, toItem
    {
      100 * Max(0, to.maxSize - |to.itemlist|) + if toItem != null && toItem.id == id then 100 - toItem.count else 0
    }

    /** What may move, in units: at least one must fit, and no more may be asked for than there are, or than fit. */
    lemma MayMoveIs(from: Item, at: Aim, item: Item, n: nat, flags: Flags, ownerSays: ReturnValue)
      requires Valid() && at.cylinder in S && item in S && Sound(Snap(S)) && at.item == at.cylinder.Lying(at.index)
      ensures MayMove(from, at, item, n, flags, ownerSays) <==>
                && ownerSays == RET_NOERROR && types(item.id).pickupable && !AtOrAbove(Snap(S), item, at.cylinder)
                && item in from.itemlist && item != at.item && (types(item.id).moveable || flags.ignoreNotMoveable)
                && if !types(item.id).stackable then flags.noLimit || |at.cylinder.itemlist| < at.cylinder.maxSize
                   else 1 <= n && (flags.noLimit || at.cylinder.Takes(at.item, item, 1))
                        && (n <= item.count
                            || (!flags.noLimit && !at.cylinder.Takes(at.item, item, item.count + 1)))
    {
      hide AtOrAbove, Sound, Valid, Snap, Item.Rest, Item.Takes;
      AmountIs(at, item, n, flags);
    }

    /** The amount is the largest that fits and is asked for. */
    lemma AmountIs(at: Aim, item: Item, n: nat, flags: Flags)
      requires Valid() && at.cylinder in S && at.item == at.cylinder.Lying(at.index)
      ensures !types(item.id).stackable ==>
                (Amount(at, item, n, flags) >= 1 <==> flags.noLimit || |at.cylinder.itemlist| < at.cylinder.maxSize)
      ensures types(item.id).stackable && flags.noLimit ==> Amount(at, item, n, flags) == n
      ensures types(item.id).stackable && !flags.noLimit ==>
                && Amount(at, item, n, flags) <= n
                && forall m: nat :: m <= n ==>
                     (m <= Amount(at, item, n, flags) <==> at.cylinder.Takes(at.item, item, m))
      ensures at.index == INDEX_WHEREEVER && types(item.id).stackable && at.cylinder.Takes(at.item, item, 1) ==>
                |at.cylinder.itemlist| < at.cylinder.maxSize
    {
      hide Valid, Snap, Item.Rest;
      StacksHere(at.cylinder);
      if !flags.noLimit && types(item.id).stackable { at.cylinder.RoomIs(at.index, item, n, flags, types); }
    }

    /** m units of item find room on the stack toItem or in a free slot. */
    ghost predicate HasRoom(to: Item, toItem: Item?, item: Item, m: int)
      reads to, toItem, item
    {
      || |to.itemlist| < to.maxSize
      || (types(item.id).stackable && toItem != null && toItem.id == item.id && m <= 100 - toItem.count)
    }

    lemma AmountFits(at: Aim, item: Item, n: nat, flags: Flags)
      requires 1 <= Amount(at, item, n, flags) && !flags.noLimit
      requires 0 <= at.index < |at.cylinder.itemlist| ==> at.item == at.cylinder.itemlist[at.index]
      ensures HasRoom(at.cylinder, at.item, item, Amount(at, item, n, flags))
    {
    }

    /** m units of a stack leave its container. */
    method TakeOut(from: Item, item: Item, m: nat, ghost to: Item)
      requires Valid() && from in S && item in S && item in from.itemlist && to in S
      requires types(item.id).stackable && 1 <= m <= item.count
      requires Sound(Snap(S)) && !AtOrAbove(Snap(S), item, to)
      modifies S`totalWeight, from`itemlist, item`parent, item`id, item`count
      ensures Valid()
      ensures item.id == old(item.id) && forall y :: y in old(to.itemlist) && y != item ==> y in to.itemlist
      ensures TakenOut(types, old(Snap(S)), Snap(S), WeightOf(types), from, item, m, to)
      ensures Reduced(old(Snap(S)), Snap(S), from, item, m)
      ensures Heavier(old(Snap(S)), Snap(S), from, -(m * types(old(item.id)).weight))
    {
      hide Linked, Acyclic, AtOrAbove, WellWeighed, TakenOut, StacksProper, WeightOf, Changed, Removed, Reduced,
           Heavier;
      ghost var a := Snap(S);
      StackIsSmall(types, a, item);
      LessStackLaw(types, a, WeightOf(types), from, item, m, to);
      LessIsReduced(a, WeightOf(types), from, item, m);
      SnapNode(S, to);
      from.RemoveThing(item, m, types, S);
      SnapNode(S, to);
      SnapNode(S, item);
      TakenOutFrame(types, a, Snap(S), WeightOf(types), from, item, m, to);
      TakenOutKeeps(types, a, Snap(S), WeightOf(types), from, item, m, to);
    }

    /** m units of a stackable type join a container: first the stack toItem, then a new stack. */
    method PutStack(to: Item, index: int, toItem: Item?, id: nat, m: nat) returns (n: nat)
      requires Valid() && to in S && to.isContainer
      requires types(id).stackable && 1 <= m <= 100 && index < to.maxSize
      requires toItem != null ==> toItem in S && toItem in to.itemlist
      modifies this`S, S
      ensures Valid() && S >= old(S) && fresh(S - old(S))
      ensures n == if toItem != null && old(toItem.id) == id then Min(100 - old(toItem.count), m) else 0
      ensures PutIn(types, old(Snap(S)), Snap(S), WeightOf(types), to, id, m)
      ensures m == n ==> to.itemlist == old(to.itemlist)
      ensures Joined(old(Snap(S)), Snap(S), to, id, toItem, m)
      ensures Heavier(old(Snap(S)), Snap(S), to, m * types(id).weight)
    {
      hide Linked, Acyclic, AtOrAbove, WellWeighed, StacksProper, WeightOf, Changed, Added, PutIn, Snap, Joined,
           Heavier, SameLines;
      ghost var a := Snap(S);
      SnapNode(S, to);
      n := 0;
      ValidIsSound();
      PutNothing(types, a, WeightOf(types), to, id);
      NothingJoins(a, to, id, toItem);
      NoHeavier(a, to);
      Distribute(m, 0, types(id).weight);
      if toItem != null { SnapNode(S, toItem); }
      if toItem != null && toItem.id == id {
        StackIsSmall(types, a, toItem);
        n := Min(100 - toItem.count, m);
        Distribute(m, n, types(id).weight);
        Merge(to, toItem, n);
      }
      ghost var b := Snap(S);
      SnapNode(S, to);
      if m - n > 0 {
        AddNew(to, index, id, m - n);
        PutTwice(types, a, b, Snap(S), WeightOf(types), to, id, n, m - n);
        PutInLines(types, a, b, WeightOf(types), to, id, n);
        HeavierTwice(a, b, Snap(S), to, n * types(id).weight, (m - n) * types(id).weight);
      }
      JoinedTwice(a, b, Snap(S), to, id, toItem, m);
    }

    method Merge(to: Item, toItem: Item, n: nat)
      requires Valid() && to in S && to.isContainer && toItem in S && toItem in to.itemlist
      requires types(toItem.id).stackable && toItem.count + n <= 100
      modifies S
      ensures Valid() && to.itemlist == old(to.itemlist)
      ensures PutIn(types, old(Snap(S)), Snap(S), WeightOf(types), to, old(toItem.id), n)
      ensures Joined(old(Snap(S)), Snap(S), to, old(toItem.id), toItem, n) && Snap(S).Keys == old(Snap(S)).Keys
      ensures Heavier(old(Snap(S)), Snap(S), to, n * types(old(toItem.id)).weight)
    {
      hide Linked, Acyclic, AtOrAbove, WellWeighed, StacksProper, WeightOf, Changed, PutIn, Joined, Heavier, Snap;
      ghost var a := Snap(S);
      SnapNode(S, to);
      SnapNode(S, toItem);
      WeighedIsSound(a, WeightOf(types));
      StackIsSmall(types, a, toItem);
      PutOnStack(types, a, WeightOf(types), to, toItem, n);
      ChangedIsJoined(a, WeightOf(types), to, toItem, n);
      to.UpdateThing(toItem, toItem.id, toItem.count + n, types, S);
      PutInKeeps(types, a, Snap(S), WeightOf(types), to, old(toItem.id), n);
    }

    method AddNew(to: Item, index: int, id: nat, n: nat)
      requires Valid() && to in S && to.isContainer
      requires 1 <= n <= 100 && index < to.maxSize
      modifies this`S, S
      ensures Valid() && S >= old(S) && fresh(S - old(S))
      ensures PutIn(types, old(Snap(S)), Snap(S), WeightOf(types), to, id, n)
      ensures Joined(old(Snap(S)), Snap(S), to, id, null, n)
      ensures types(id).stackable ==> Heavier(old(Snap(S)), Snap(S), to, n * types(id).weight)
    {
      hide Linked, Acyclic, AtOrAbove, WellWeighed, StacksProper, WeightOf, Added, PutIn, Fits, Joined, Heavier;
      ghost var a := Snap(S);
      WeighedIsSound(a, WeightOf(types));
      var moveItem := new Item(id, n, false, 0);
      PutNew(types, a, WeightOf(types), to, moveItem, moveItem.AsNode());
      NewIsJoined(a, WeightOf(types), to, moveItem, moveItem.AsNode());
      S := S + {moveItem};
      ghost var n0 := moveItem.AsNode();
      assert Snap(S) == a[moveItem := n0];
      to.AddThing(index, moveItem, types, S);
      if types(id).stackable { HeavierNew(a, Snap(S), to, moveItem, n0, n * types(id).weight); }
      PutInKeeps(types, a, Snap(S), WeightOf(types), to, id, n);
    }

    /**
     Follows a client's index to the container and the item it means. The second step never leaves
     the container it reaches, so the loop makes one hop at most and its bound is out of reach.
     */
    method FindDestination(to0: Item, index0: int, flags0: Flags)
        returns (to: Item, index: int, toItem: Item?, flags: Flags)
      requires Valid() && to0 in S && to0.isContainer
      ensures Aim(to, index, toItem) == to0.Aimed(index0) && flags == FlagsAt(to0, to, flags0)
      ensures to in S && to.isContainer && index < to.maxSize
      ensures toItem != null ==> toItem in S && toItem in to.itemlist
    {
      hide Valid, Snap;
      AimIsHere(to0, index0);
      to, flags := to0, flags0;
      var floorN := 0;
      var subCylinder;
      subCylinder, index, toItem := to.QueryDestination(index0, null);
      while subCylinder != to
        invariant floorN == 0 ==> to == to0 && flags == flags0
        invariant floorN != 0 ==> floorN == 1 && to == subCylinder != to0 && flags == Flags(false, false, false)
        invariant Aim(subCylinder, index, toItem) == to0.Aimed(index0)
        decreases floorN == 0
      {
        to := subCylinder;
        flags := Flags(false, false, false);
        floorN := floorN + 1;
        if floorN >= MAP_MAX_LAYERS {
          break;
        }
        subCylinder, index, toItem := to.QueryDestination(index, toItem);
      }
    }

    lemma ValidIsSound()
      requires Valid()
      ensures Sound(Snap(S))
    {
      hide Linked, Acyclic, WellWeighed, StacksProper;
      WeighedIsSound(Snap(S), WeightOf(types));
    }

    lemma StacksHere(c: Item)
      requires Valid() && c in S
      ensures forall i :: 0 <= i < |c.itemlist| ==>
                types(c.itemlist[i].id).stackable ==> 1 <= c.itemlist[i].count <= 100
    {
      hide Linked, Acyclic, AtOrAbove, StacksProper, WellWeighed, WeightOf;
      WeighedIsSound(Snap(S), WeightOf(types));
      ListIsSmall(types, Snap(S), c);
    }

    /** Where an index leads is a container at hand, and what lies at the place lies in it. */
    lemma AimIsHere(c: Item, index: int)
      requires Valid() && c in S && c.isContainer
      ensures Sound(Snap(S))
      ensures var at := c.Aimed(index);
              && at.cylinder in S && at.cylinder.isContainer && at.index < at.cylinder.maxSize
              && (at.item != null ==> at.item in S && at.item in at.cylinder.itemlist)
              && at.item == at.cylinder.Lying(at.index)
      ensures index == INDEX_WHEREEVER ==> c.Aimed(index) == Aim(c, INDEX_WHEREEVER, null)
    {
      hide Acyclic, AtOrAbove, StacksProper, WeightOf;
      WeighedIsSound(Snap(S), WeightOf(types));
      hide WellWeighed;
      HoldersAreContainers(Snap(S), c);
    }

    /** m units of item go over to another container, first onto the stack toItem. */
    method MoveStack(from: Item, to: Item, index: int, toItem: Item?, item: Item, m: nat) returns (n: nat)
      requires Valid() && from in S && to in S && item in S && item in from.itemlist && to.isContainer
      requires types(item.id).stackable && 1 <= m <= item.count
      requires Acyclic(Snap(S)) && !AtOrAbove(Snap(S), item, to)
      requires index < to.maxSize
      requires toItem != null ==> toItem in S && toItem in to.itemlist && toItem != item
      modifies this`S, S
      ensures Valid() && S >= old(S) && fresh(S - old(S))
      ensures n == if toItem != null && old(toItem.id) == old(item.id) then Min(100 - old(toItem.count), m) else 0
      ensures WentOver(types, old(Snap(S)), Snap(S), from, to, item, m)
      ensures ListsWithin(old(Snap(S)), Snap(S), to, if m == n then 0 else 1)
      ensures Restacked(old(Snap(S)), Snap(S), from, to, item, toItem, m)
      ensures WeightWentOver(old(Snap(S)), Snap(S), from, to, m * types(old(item.id)).weight)
    {
      hide Linked, Acyclic, AtOrAbove, WellWeighed, WeightOf, TakenOut, PutIn, StacksProper, ListsWithin, MovedStack,
           Reduced, Joined, Restacked, Heavier, WeightWentOver, SameLines, Snap, OnlyAt;
      ghost var a := Snap(S);
      SnapNode(S, item);
      SnapNode(S, from);
      SnapNode(S, to);
      WeighedIsSound(a, WeightOf(types));
      StackIsSmall(types, a, item);
      var id := item.id;
      TakeOut(from, item, m, to);
      ghost var b := Snap(S);
      TakenOutFrame(types, a, b, WeightOf(types), from, item, m, to);
      SnapNode(S, to);
      n := PutStack(to, index, toItem, id, m);
      SnapNode(S, to);
      StackWentOver(types, a, b, Snap(S), WeightOf(types), from, item, m, to);
      ListsAfter(types, a, b, Snap(S), WeightOf(types), from, item, m, to, n);
      ReducedJoined(a, b, Snap(S), from, to, item, toItem, m);
      HeavierOver(a, b, Snap(S), from, to, m * types(id).weight);
    }

    /** item goes over to another container with everything in it. */
    method MoveWhole(from: Item, to: Item, index: int, item: Item, m: nat)
      requires Valid() && from in S && to in S && item in S && item in from.itemlist && to.isContainer
      requires !types(item.id).stackable
      requires Sound(Snap(S)) && !AtOrAbove(Snap(S), item, to)
      requires index < to.maxSize
      modifies S
      ensures Valid()
      ensures WentOver(types, old(Snap(S)), Snap(S), from, to, item, 1)
      ensures ListsWithin(old(Snap(S)), Snap(S), to, 1)
      ensures Rehung(old(Snap(S)), Snap(S), from, to, item)
      ensures WeightWentOver(old(Snap(S)), Snap(S), from, to, types(old(item.id)).weight + old(item.totalWeight))
    {
      hide Linked, Acyclic, AtOrAbove, WellWeighed, WeightOf, StacksProper, Removed, Added, Fits, MovedWhole,
           ListsWithin, Rehung, Heavier, WeightWentOver, SameLines;
      ghost var a := Snap(S);
      ListedIsBelow(a, from, item);
      WholeOver(a, WeightOf(types), from, to, item);
      WholeFrame(types, a, WeightOf(types), from, to, item);
      WholeIsRehung(a, WeightOf(types), from, to, item);
      TakeWhole(from, to, item, m);
      ghost var b := Snap(S);
      to.AddThing(index, item, types, S);
      HeavierOver(a, b, Snap(S), from, to, types(item.id).weight + old(item.totalWeight));
    }

    /** item leaves its container with everything in it. */
    method TakeWhole(from: Item, ghost to: Item, item: Item, m: nat)
      requires from in S && to in S && item in S && item in from.itemlist && !types(item.id).stackable
      requires WellWeighed(Snap(S), WeightOf(types)) && Sound(Snap(S)) && !AtOrAbove(Snap(S), item, to)
      modifies S`totalWeight, from`itemlist, item`parent, item`id, item`count
      ensures Sound(old(Snap(S))) && Snap(S) == Removed(old(Snap(S)), WeightOf(types), from, item)
      ensures WellWeighed(Snap(S), WeightOf(types)) && Acyclic(Snap(S)) && SameLines(old(Snap(S)), Snap(S), to)
      ensures item.id == old(item.id) && item.totalWeight == old(item.totalWeight)
      ensures Heavier(old(Snap(S)), Snap(S), from, -(types(item.id).weight + old(item.totalWeight)))
    {
      hide Linked, Acyclic, AtOrAbove, WellWeighed, WeightOf, Removed, Heavier, SameLines, Snap;
      SnapNode(S, item);
      SnapNode(S, from);
      WholeTaken(Snap(S), WeightOf(types), from, to, item);
      from.RemoveThing(item, m, types, S);
      SnapNode(S, item);
    }

    /**
     Moves count units of item, or the whole item if it does not stack, to the place the index leads
     to: dest, and there the stack onto if one lies at the place. moved is what went over: nothing, or as
     many units as fit (1 for a whole item).
     */
    method InternalMoveItem(from: Item, to0: Item?, index0: int, item: Item, count: nat, flags0: Flags,
                            ownerSays: ReturnValue)
        returns (ret: ReturnValue, ghost dest: Item, ghost onto: Item?, ghost moved: nat)
      requires Valid() && from in S && item in S
      requires to0 != null ==> to0 in S && to0.isContainer
      requires !flags0.childIsOwner
      modifies this`S, S
      ensures Valid() && S >= old(S) && fresh(S - old(S))
      // where to
      ensures to0 != null ==>
                dest == old(if index0 == 254 then if to0.parent == null then to0 else to0.parent
                            else if index0 != 255 && 0 <= index0 < to0.maxSize && index0 < |to0.itemlist|
                                    && to0.itemlist[index0].isContainer then to0.itemlist[index0]
                            else to0)
                && onto == old(if index0 !in {254, 255} && 0 <= index0 < to0.maxSize && index0 < |to0.itemlist|
                                  && !to0.itemlist[index0].isContainer then to0.itemlist[index0] else null)
      ensures to0 != null ==> dest in old(S)
      // whether at all
      ensures to0 == null ==> moved == 0 && ret == RET_NOTPOSSIBLE
      ensures to0 != null ==>
                var free := flags0.noLimit && dest == to0;
                moved > 0 <==>
                  && ownerSays == RET_NOERROR && types(old(item.id)).pickupable && dest in old(S)
                  && !AtOrAbove(old(Snap(S)), item, dest) && item in old(from.itemlist) && item != onto
                  && (types(old(item.id)).moveable || (flags0.ignoreNotMoveable && dest == to0))
                  && if !types(old(item.id)).stackable then free || old(|dest.itemlist|) < dest.maxSize
                     else 1 <= count && (free || old(dest.Takes(onto, item, 1)))
                          && (count <= old(item.count) || (!free && !old(dest.Takes(onto, item, item.count + 1))))
      // how much: the largest amount that is asked for and fits
      ensures moved > 0 && types(old(item.id)).stackable ==> moved <= count && moved <= old(item.count)
      ensures moved > 0 && types(old(item.id)).stackable ==>
                if flags0.noLimit && dest == to0 then moved == count
                else old(dest.Takes(onto, item, moved))
                     && forall m: nat :: moved < m <= count ==> !old(dest.Takes(onto, item, m))
      ensures moved > 0 && !types(old(item.id)).stackable ==> moved == 1
      // what is where afterwards
      ensures moved == 0 ==> S == old(S) && Snap(S) == old(Snap(S))
      ensures moved > 0 ==>
                if types(old(item.id)).stackable
                then Restacked(old(Snap(S)), Snap(S), from, dest, item, onto, moved)
                else Rehung(old(Snap(S)), Snap(S), from, dest, item)
      ensures moved > 0 ==> WentOver(types, old(Snap(S)), Snap(S), from, dest, item, moved)
      ensures moved > 0 ==>
                WeightWentOver(old(Snap(S)), Snap(S), from, dest,
                               if types(old(item.id)).stackable then moved * types(old(item.id)).weight
                               else types(old(item.id)).weight + old(item.totalWeight))
      ensures to0 == null || dest != to0 || !flags0.noLimit ==> CapacityKept(old(Snap(S)), Snap(S))
      // and what is answered
      ensures to0 != null ==>
                (ret == RET_NOERROR <==>
                   item == onto || (moved > 0 && (types(old(item.id)).stackable ==> moved == count)))
      ensures moved > 0 && ret != RET_NOERROR ==> ret == RET_CONTAINERNOTENOUGHROOM
      ensures to0 != null && item != onto && !types(old(item.id)).pickupable ==> ret == RET_CANNOTPICKUP
      ensures to0 != null && item != onto && types(old(item.id)).pickupable
              && dest in old(S) && AtOrAbove(old(Snap(S)), item, dest) ==>
                ret == RET_THISISIMPOSSIBLE
      ensures ret == RET_CONTAINERNOTENOUGHROOM && ownerSays != RET_CONTAINERNOTENOUGHROOM
              && (count <= old(item.count) || from != dest) ==>
                && !(flags0.noLimit && dest == to0) && |dest.itemlist| >= dest.maxSize
                && (types(old(item.id)).stackable && onto != null && onto.id == old(item.id) ==> onto.count >= 100)
    {
      hide Linked, Acyclic, AtOrAbove, WellWeighed, WeightOf, StacksProper, WentOver, ListsWithin, CapacityKept,
           MayMove, Amount, HasRoom, Valid, Snap, Restacked, Rehung, WeightWentOver, Item.Takes, Item.Room;
      ghost var a := Snap(S);
      CapacitySame(a);
      dest, onto, moved := from, null, 0;
      if to0 == null {
        return RET_NOTPOSSIBLE, dest, onto, moved;
      }
      AimIsHere(to0, index0);
      MayMoveIs(from, to0.Aimed(index0), item, count, FlagsAt(to0, to0.Aimed(index0).cylinder, flags0), ownerSays);
      AmountIs(to0.Aimed(index0), item, count, FlagsAt(to0, to0.Aimed(index0).cylinder, flags0));
      var go, to, index, toItem, m, noLimit;
      go, ret, to, index, toItem, m, noLimit := CheckMove(from, to0, index0, item, count, flags0, ownerSays);
      dest, onto := to, toItem;
      if !go {
        return;
      }
      moved := Carry(from, to, index, toItem, item, m);
    }

    /** The move itself, once everything has been checked. */
    method Carry(from: Item, to: Item, index: int, toItem: Item?, item: Item, m: nat) returns (ghost moved: nat)
      requires Valid() && from in S && to in S && item in S && item in from.itemlist && to.isContainer
      requires types(item.id).stackable ==> m <= item.count
      requires m >= 1 && Sound(Snap(S)) && !AtOrAbove(Snap(S), item, to)
      requires index < to.maxSize
      requires toItem != null ==> toItem in S && toItem in to.itemlist && toItem != item
      modifies this`S, S
      ensures Valid() && S >= old(S) && fresh(S - old(S))
      ensures moved == if types(old(item.id)).stackable then m else 1
      ensures WentOver(types, old(Snap(S)), Snap(S), from, to, item, moved)
      ensures old(HasRoom(to, toItem, item, m)) ==> CapacityKept(old(Snap(S)), Snap(S))
      ensures if types(old(item.id)).stackable then Restacked(old(Snap(S)), Snap(S), from, to, item, toItem, m)
              else Rehung(old(Snap(S)), Snap(S), from, to, item)
      ensures WeightWentOver(old(Snap(S)), Snap(S), from, to,
                             if types(old(item.id)).stackable then m * types(old(item.id)).weight
                             else types(old(item.id)).weight + old(item.totalWeight))
      ensures types(old(item.id)).stackable && m == old(Gap(to, toItem, item.id))
              && (m < old(item.count) || from != to) ==>
                Full(to, toItem, old(item.id))
    {
      hide Linked, Acyclic, AtOrAbove, WellWeighed, WeightOf, StacksProper, WentOver, ListsWithin, CapacityKept,
           Restacked, Rehung, WeightWentOver, HasRoom, Gap, Full, Snap;
      SnapNode(S, to);
      if types(item.id).stackable {
        CarryStack(from, to, index, toItem, item, m);
        moved := m;
      } else {
        ghost var a, room := Snap(S), HasRoom(to, toItem, item, m);
        RoomIsSlot(to, toItem, item, m);
        MoveWhole(from, to, index, item, m);
        moved := 1;
        if room { RoomKept(a, Snap(S), to, 1); }
      }
    }

    lemma RoomIsSlot(to: Item, toItem: Item?, item: Item, m: nat)
      requires !types(item.id).stackable
      ensures HasRoom(to, toItem, item, m) <==> |to.itemlist| < to.maxSize
    {
    }

    /** The same for a stack. */
    method CarryStack(from: Item, to: Item, index: int, toItem: Item?, item: Item, m: nat)
      requires Valid() && from in S && to in S && item in S && item in from.itemlist && to.isContainer
      requires types(item.id).stackable && 1 <= m <= item.count
      requires Sound(Snap(S)) && !AtOrAbove(Snap(S), item, to)
      requires index < to.maxSize
      requires toItem != null ==> toItem in S && toItem in to.itemlist && toItem != item
      modifies this`S, S
      ensures Valid() && S >= old(S) && fresh(S - old(S))
      ensures WentOver(types, old(Snap(S)), Snap(S), from, to, item, m)
      ensures old(HasRoom(to, toItem, item, m)) ==> CapacityKept(old(Snap(S)), Snap(S))
      ensures Restacked(old(Snap(S)), Snap(S), from, to, item, toItem, m)
      ensures WeightWentOver(old(Snap(S)), Snap(S), from, to, m * types(old(item.id)).weight)
      ensures m == old(Gap(to, toItem, item.id)) && (m < old(item.count) || from != to) ==>
                Full(to, toItem, old(item.id))
    {
      hide Linked, Acyclic, AtOrAbove, WellWeighed, WeightOf, StacksProper, WentOver, ListsWithin, CapacityKept,
           Restacked, WeightWentOver, Snap;
      ghost var a, gap, room := Snap(S), Gap(to, toItem, item.id), HasRoom(to, toItem, item, m);
      SnapNode(S, item);
      SnapNode(S, to);
      StackIsSmall(types, a, item);
      if toItem != null { SnapNode(S, toItem); }
      if toItem != null && toItem.id == item.id { StackIsSmall(types, a, toItem); }
      var n := MoveStack(from, to, index, toItem, item, m);
      SnapNode(S, to);
      if toItem != null { SnapNode(S, toItem); }
      if m == gap && (m < a[item].count || from != to) { GapFilled(a, Snap(S), from, to, item, toItem, m); }
      if room { RoomKept(a, Snap(S), to, if m == n then 0 else 1); }
    }

    /**
     The checks of internalMoveItem. If all pass (go), m is how much will move and ret is what
     internalMoveItem is to answer afterwards; otherwise ret is its answer right away.
     */
    method CheckMove(from: Item, to0: Item, index0: int, item: Item, count: nat, flags0: Flags,
                     ownerSays: ReturnValue)
        returns (go: bool, ret: ReturnValue, to: Item, index: int, toItem: Item?, m: nat, noLimit: bool)
      requires Valid() && from in S && item in S && to0 in S && to0.isContainer
      requires !flags0.childIsOwner
      ensures Aim(to, index, toItem) == to0.Aimed(index0) && noLimit == FlagsAt(to0, to, flags0).noLimit
      ensures go <==> MayMove(from, to0.Aimed(index0), item, count, FlagsAt(to0, to, flags0), ownerSays)
      ensures go ==>
                && to in S && to.isContainer && index < to.maxSize
                && (toItem != null ==> toItem in S && toItem in to.itemlist && toItem != item)
                && item in from.itemlist && Sound(Snap(S)) && !AtOrAbove(Snap(S), item, to)
      ensures go ==> m == Amount(to0.Aimed(index0), item, count, FlagsAt(to0, to, flags0)) >= 1
      ensures go && types(item.id).stackable ==> m <= item.count && m <= count
      ensures go ==> ret == if types(item.id).stackable && m < count then RET_CONTAINERNOTENOUGHROOM else RET_NOERROR
      ensures !go ==> (ret == RET_NOERROR <==> item == toItem)
      ensures go && !noLimit ==> HasRoom(to, toItem, item, m)
      ensures item != toItem && !types(item.id).pickupable ==> ret == RET_CANNOTPICKUP
      ensures item != toItem && types(item.id).pickupable && AtOrAbove(Snap(S), item, to) ==>
                ret == RET_THISISIMPOSSIBLE
      ensures !go && ret == RET_CONTAINERNOTENOUGHROOM && ownerSays != RET_CONTAINERNOTENOUGHROOM ==>
                !noLimit && Full(to, toItem, item.id)
      ensures go && ret == RET_CONTAINERNOTENOUGHROOM ==>
                !noLimit && types(item.id).stackable && m < count && m == Gap(to, toItem, item.id)
    {
      hide AtOrAbove, Sound, Valid, Snap, Item.Aimed, Item.Room, Item.Rest, HasRoom, MayAdd, Amount, Full, Gap;
      AimIsHere(to0, index0);
      go, m := false, 0;
      var flags;
      to, index, toItem, flags := FindDestination(to0, index0, flags0);
      noLimit := flags.noLimit;
      StacksHere(to);
      // the item is to go where it already is?
      if item == toItem {
        ret := RET_NOERROR;
        return;
      }
      MayAddIs(Aim(to, index, toItem), item, flags, ownerSays);
      FullIs(Aim(to, index, toItem), item, count, flags);
      // may it be added there?
      ret := to.QueryAdd(index, item, flags, ownerSays, types, S);
      if ret != RET_NOERROR {
        return;
      }
      go, ret, m := CheckAmount(from, to, index, toItem, item, count, flags);
    }

    /** When nothing fits, and when an item may lie anywhere but the list is full. */
    lemma FullIs(at: Aim, item: Item, n: nat, flags: Flags)
      requires Valid() && at.cylinder in S && at.item == at.cylinder.Lying(at.index)
      ensures !flags.noLimit && at.cylinder.Room(at.index, item, n, flags, types) <= 0 ==>
                Full(at.cylinder, at.item, item.id)
      ensures at.index == INDEX_WHEREEVER && |at.cylinder.itemlist| >= at.cylinder.maxSize ==>
                Full(at.cylinder, at.item, item.id)
      ensures !flags.noLimit && types(item.id).stackable ==>
                at.cylinder.Room(at.index, item, n, flags, types) == Gap(at.cylinder, at.item, item.id)
    {
      hide Valid, Snap;
      StacksHere(at.cylinder);
    }

    /** The second half of the checks: how much fits, and whether that may be taken away. */
    method CheckAmount(from: Item, to: Item, index: int, toItem: Item?, item: Item, count: nat, flags: Flags)
        returns (go: bool, ret: ReturnValue, m: nat)
      requires forall i :: 0 <= i < |to.itemlist| ==>
                types(to.itemlist[i].id).stackable ==> to.itemlist[i].count <= 100
      requires 0 <= index < |to.itemlist| ==> toItem == to.itemlist[index]
      ensures var at := Aim(to, index, toItem);
              && (go <==>
                    && item in from.itemlist && (types(item.id).moveable || flags.ignoreNotMoveable)
                    && 1 <= Amount(at, item, count, flags)
                    && (types(item.id).stackable ==> Amount(at, item, count, flags) <= item.count))
              && (go ==> m == Amount(at, item, count, flags))
      ensures !go ==> ret != RET_NOERROR
      ensures go ==> ret == if types(item.id).stackable && m < count then RET_CONTAINERNOTENOUGHROOM else RET_NOERROR
      ensures go && types(item.id).stackable ==> m <= count
      ensures go && !flags.noLimit ==> HasRoom(to, toItem, item, m)
      ensures !go ==> ret in {RET_CONTAINERNOTENOUGHROOM, RET_NOTPOSSIBLE, RET_NOTMOVEABLE}
      ensures !go && ret == RET_CONTAINERNOTENOUGHROOM ==>
                !flags.noLimit && to.Room(index, item, count, flags, types) <= 0
      ensures go && ret == RET_CONTAINERNOTENOUGHROOM ==>
                !flags.noLimit && m == to.Room(index, item, count, flags, types)
    {
      hide Item.Room, Item.Rest, HasRoom;
      go, m := false, 0;
      // how much of it?
      var retMaxCount, maxQueryCount := to.QueryMaxCount(index, item, count, flags, types);
      if retMaxCount != RET_NOERROR && maxQueryCount == 0 {
        ret := retMaxCount;
        return;
      }
      m := if types(item.id).stackable then Min(count, maxQueryCount) else maxQueryCount;
      // may that be taken away?
      ret := from.QueryRemove(item, m, flags, types);
      if ret != RET_NOERROR {
        return;
      }
      go := true;
      if !flags.noLimit { AmountFits(Aim(to, index, toItem), item, count, flags); }
      // not all of it
      if types(item.id).stackable && maxQueryCount < count {
        ret := retMaxCount;
      }
    }

    /** Whether all of item may be added at a place, and fits. */
    ghost predicate MayTake(at: Aim, item: Item, flags: Flags, ownerSays: ReturnValue)
      reads this, S, at.cylinder, at.cylinder.itemlist, item
    {
      && MayAdd(at, item, flags, ownerSays)
      && at.cylinder.Room(at.index, item, item.count, flags, types)
         >= if types(item.id).stackable then item.count else 1
    }

    /**
     Adds an item that lies nowhere yet, all of it or nothing. A stack may be merged into the stack
     the index points at; the item itself is used up then. dest is where it went.
     */
    method InternalAddItem(toCylinder: Item?, item: Item, index0: int, flags: Flags,
                           ownerSays: ReturnValue, test: bool)
        returns (ret: ReturnValue, ghost dest: Item, ghost onto: Item?)
      requires Valid() && item in S && item.parent == null
      requires toCylinder != null ==> toCylinder in S && toCylinder.isContainer
      requires !flags.childIsOwner
      modifies this`S, S
      ensures Valid() && S >= old(S) && fresh(S - old(S))
      ensures toCylinder == null ==> ret == RET_NOTPOSSIBLE
      ensures toCylinder != null ==> dest in old(S)
      ensures toCylinder != null ==>
                dest == old(if index0 == 254 then if toCylinder.parent == null then toCylinder else toCylinder.parent
                            else if index0 != 255 && 0 <= index0 < toCylinder.maxSize && index0 < |toCylinder.itemlist|
                                    && toCylinder.itemlist[index0].isContainer then toCylinder.itemlist[index0]
                            else toCylinder)
                && onto == old(if index0 !in {254, 255} && 0 <= index0 < toCylinder.maxSize
                                  && index0 < |toCylinder.itemlist| && !toCylinder.itemlist[index0].isContainer
                               then toCylinder.itemlist[index0] else null)
      ensures toCylinder != null ==>
                (ret == RET_NOERROR <==>
                   && ownerSays == RET_NOERROR && types(old(item.id)).pickupable && dest in old(S)
                   && !AtOrAbove(old(Snap(S)), item, dest)
                   && (flags.noLimit
                       || if types(old(item.id)).stackable then old(dest.Takes(onto, item, item.count))
                          else old(|dest.itemlist|) < dest.maxSize))
      ensures toCylinder != null && !types(old(item.id)).pickupable ==> ret == RET_CANNOTPICKUP
      ensures toCylinder != null && types(old(item.id)).pickupable
              && dest in old(S) && AtOrAbove(old(Snap(S)), item, dest) ==>
                ret == RET_THISISIMPOSSIBLE
      ensures toCylinder != null && ret != RET_NOERROR && ownerSays == RET_NOERROR ==>
                ret in {RET_CANNOTPICKUP, RET_THISISIMPOSSIBLE, RET_CONTAINERNOTENOUGHROOM}
      ensures ret != RET_NOERROR || test ==> S == old(S) && Snap(S) == old(Snap(S))
      ensures ret == RET_NOERROR && !test ==>
                if types(old(item.id)).stackable && onto != null && old(onto.id) == old(item.id)
                   && old(onto.count) < 100
                then Joined(old(Snap(S)), Snap(S), dest, old(item.id), onto, old(item.count))
                else S == old(S) && Fits(old(Snap(S)), dest, item)
                     && Snap(S) == Added(old(Snap(S)), WeightOf(types), dest, item)
      ensures ret == RET_NOERROR && !test ==>
                Heavier(old(Snap(S)), Snap(S), dest,
                        if types(old(item.id)).stackable then old(item.count) * types(old(item.id)).weight
                        else types(old(item.id)).weight + old(item.totalWeight))
      ensures ret == RET_NOERROR && !test && types(old(item.id)).stackable ==>
                PutIn(types, old(Snap(S)), Snap(S), WeightOf(types), dest, old(item.id), old(item.count))
      ensures index0 == INDEX_WHEREEVER && toCylinder != null ==> dest == toCylinder
      ensures index0 == INDEX_WHEREEVER ==> S == old(S) && Untouched(old(Snap(S)), Snap(S), {item})
      ensures index0 == INDEX_WHEREEVER && toCylinder != null ==>
                |toCylinder.itemlist| == old(|toCylinder.itemlist|) + (if ret == RET_NOERROR && !test then 1 else 0)
    {
      hide Linked, Acyclic, AtOrAbove, WellWeighed, WeightOf, StacksProper, PutIn, Added, Fits, Valid, MayTake, Snap,
           Joined, Heavier, Item.Takes, Item.Aimed;
      dest, onto := item, null;
      if toCylinder == null {
        return RET_NOTPOSSIBLE, dest, onto;
      }
      AimIsHere(toCylinder, index0);
      MayTakeIs(toCylinder.Aimed(index0), item, flags, ownerSays);
      var to, index, toItem := toCylinder.QueryDestination(index0, null);
      dest, onto := to, toItem;
      var m;
      ret, m := CheckTake(to, index, toItem, item, flags, ownerSays);
      if ret == RET_NOERROR && !test {
        PutItem(to, index, toItem, item, m);
      }
    }

    /** The checks of internalAddItem; m is how much is to be added. */
    method CheckTake(to: Item, index: int, toItem: Item?, item: Item, flags: Flags, ownerSays: ReturnValue)
        returns (ret: ReturnValue, m: nat)
      requires Valid() && to in S && item in S && !flags.childIsOwner && Sound(Snap(S))
      ensures ret == RET_NOERROR <==> MayTake(Aim(to, index, toItem), item, flags, ownerSays)
      ensures ret == RET_NOERROR && types(item.id).stackable ==> m == item.count
      ensures ret == RET_NOERROR ==> !AtOrAbove(Snap(S), item, to)
      ensures !types(item.id).pickupable ==> ret == RET_CANNOTPICKUP
      ensures types(item.id).pickupable && AtOrAbove(Snap(S), item, to) ==> ret == RET_THISISIMPOSSIBLE
      ensures ret != RET_NOERROR && ownerSays == RET_NOERROR ==>
                ret in {RET_CANNOTPICKUP, RET_THISISIMPOSSIBLE, RET_CONTAINERNOTENOUGHROOM}
    {
      hide AtOrAbove, Sound, Valid, Snap, Item.Room, Item.Rest, MayAdd;
      m := 0;
      StacksHere(to);
      MayAddIs(Aim(to, index, toItem), item, flags, ownerSays);
      // may it be added there?
      ret := to.QueryAdd(index, item, flags, ownerSays, types, S);
      if ret != RET_NOERROR {
        return;
      }
      // how much of it?
      var maxQueryCount;
      ret, maxQueryCount := to.QueryMaxCount(index, item, item.count, flags, types);
      if ret != RET_NOERROR {
        return;
      }
      m := if types(item.id).stackable then Min(item.count, maxQueryCount) else maxQueryCount;
    }

    lemma MayTakeIs(at: Aim, item: Item, flags: Flags, ownerSays: ReturnValue)
      requires Valid() && at.cylinder in S && item in S && Sound(Snap(S)) && at.item == at.cylinder.Lying(at.index)
      ensures MayTake(at, item, flags, ownerSays) <==>
                && ownerSays == RET_NOERROR && types(item.id).pickupable && !AtOrAbove(Snap(S), item, at.cylinder)
                && (flags.noLimit
                    || if types(item.id).stackable then at.cylinder.Takes(at.item, item, item.count)
                       else |at.cylinder.itemlist| < at.cylinder.maxSize)
    {
      hide AtOrAbove, Sound, Item.Rest, StacksProper, WellWeighed, Linked, Acyclic;
      if types(item.id).stackable { StackIsSmall(types, Snap(S), item); }
      StacksHere(at.cylinder);
      if !flags.noLimit && types(item.id).stackable { at.cylinder.RoomIs(at.index, item, item.count, flags, types); }
    }

    /** The adding itself, once everything has been checked. */
    method PutItem(to: Item, index: int, toItem: Item?, item: Item, m: nat)
      requires Valid() && to in S && to.isContainer && item in S && item.parent == null
      requires types(item.id).stackable ==> m == item.count
      requires index < to.maxSize
      requires toItem != null ==> toItem in S && toItem in to.itemlist
      requires Sound(Snap(S)) && !AtOrAbove(Snap(S), item, to)
      modifies this`S, S
      ensures Valid() && S >= old(S) && fresh(S - old(S))
      ensures types(old(item.id)).stackable ==>
                PutIn(types, old(Snap(S)), Snap(S), WeightOf(types), to, old(item.id), m)
      ensures if types(old(item.id)).stackable && toItem != null && old(toItem.id) == old(item.id)
                 && old(toItem.count) < 100
              then Joined(old(Snap(S)), Snap(S), to, old(item.id), toItem, m)
              else S == old(S) && Fits(old(Snap(S)), to, item)
                   && Snap(S) == Added(old(Snap(S)), WeightOf(types), to, item)
      ensures Heavier(old(Snap(S)), Snap(S), to,
                      if types(old(item.id)).stackable then m * types(old(item.id)).weight
                      else types(old(item.id)).weight + old(item.totalWeight))
      ensures toItem == null ==> S == old(S) && Untouched(old(Snap(S)), Snap(S), {item})
      ensures toItem == null ==> |to.itemlist| == old(|to.itemlist|) + 1
    {
      hide Linked, Acyclic, AtOrAbove, WeightOf, PutIn, Added, Valid, Untouched, Joined, Heavier, Snap, StacksProper,
           WellWeighed, Fits;
      SnapNode(S, item);
      ghost var a := Snap(S);
      FitsHere(to, item);
      if types(item.id).stackable {
        if toItem != null && toItem.id == item.id && toItem.count < 100 {
          // the item is used up; what the stack has no room for is a new stack
          var n := PutStack(to, index, toItem, item.id, m);
        } else {
          PutLoose(types, a, WeightOf(types), to, item);
          Lay(to, index, item);
        }
      } else {
        Lay(to, index, item);
      }
    }

    lemma FitsHere(to: Item, item: Item)
      requires Valid() && to in S && to.isContainer && item in S && item.parent == null
      requires Sound(Snap(S)) && !AtOrAbove(Snap(S), item, to)
      ensures Fits(Snap(S), to, item) && WellWeighed(Snap(S), WeightOf(types)) && StacksProper(types, Snap(S))
      ensures types(item.id).stackable ==> 1 <= item.count <= 100 && !item.isContainer
    {
      hide Linked, Acyclic, AtOrAbove, WellWeighed, WeightOf, StacksProper;
      if types(item.id).stackable { StackIsSmall(types, Snap(S), item); }
    }

    /** The item itself becomes the first of the list. */
    method Lay(to: Item, index: int, item: Item)
      requires Valid() && to in S && item in S && Fits(Snap(S), to, item) && index < to.maxSize
      modifies S
      ensures Valid() && Snap(S) == Added(old(Snap(S)), WeightOf(types), to, item)
      ensures Untouched(old(Snap(S)), Snap(S), {item}) && to.itemlist == [item] + old(to.itemlist)
      ensures Heavier(old(Snap(S)), Snap(S), to,
                      if types(old(item.id)).stackable then old(item.count) * types(old(item.id)).weight
                      else types(old(item.id)).weight + old(item.totalWeight))
    {
      hide Linked, Acyclic, AtOrAbove, WellWeighed, WeightOf, StacksProper, Added, Fits, Heavier, Snap;
      ghost var a := Snap(S);
      SnapNode(S, to);
      SnapNode(S, item);
      FitsIsSound(a, to, item);
      AddedNodes(a, WeightOf(types), to, item);
      StacksSame(types, a, Added(a, WeightOf(types), to, item));
      if types(item.id).stackable { StackIsSmall(types, a, item); }
      to.AddThing(index, item, types, S);
      SnapNode(S, to);
    }

  // -- money

    /** A stack of coins for the container, or for the ground if the container will not take it. */
    method AddCoins(cylinder: Item, id: nat, n: nat, flags: Flags, ownerSays: ReturnValue) returns (ghost kept: bool)
      requires Valid() && cylinder in S && cylinder.isContainer && !flags.childIsOwner
      requires types(id).stackable && 1 <= n <= 100
      modifies this`S, this`ground, S
      ensures Valid() && S >= old(S) && fresh(S - old(S))
      ensures kept <==> types(id).pickupable && ownerSays == RET_NOERROR
                        && (flags.noLimit || old(|cylinder.itemlist|) < cylinder.maxSize)
      ensures Paid(old(Snap(S)), Snap(S), cylinder, if kept then [(id, n)] else [])
      ensures ground == old(ground) + if kept then [] else [(id, n)]
      ensures Untouched(old(Snap(S)), Snap(S), {})
      ensures |cylinder.itemlist| == old(|cylinder.itemlist|) + if kept then 1 else 0
    {
      hide Linked, Acyclic, AtOrAbove, WellWeighed, WeightOf, StacksProper, PutIn, Added, Paid, Fits, Snap, Untouched,
           Item.Takes, Heavier, Joined;
      ghost var a := Snap(S);
      var remaindItem := NewCoins(cylinder, id, n);
      ghost var e := Snap(S);
      CoinFits(cylinder, remaindItem);
      ghost var dest, onto;
      var ret;
      ret, dest, onto := InternalAddItem(cylinder, remaindItem, INDEX_WHEREEVER, flags, ownerSays, false);
      UntouchedByNew(a, e, Snap(S), remaindItem);
      kept := ret == RET_NOERROR;
      if ret != RET_NOERROR {
        ground := ground + [(id, n)];
      } else {
        PutInPays(types, e, Snap(S), WeightOf(types), cylinder, id, n);
        PaidTwice(a, e, Snap(S), cylinder, [], [(id, n)]);
        assert [] + [(id, n)] == [(id, n)];
      }
    }

    /** When the container takes a newly made stack of coins. */
    /** A stack of coins fits wherever there is a free slot. */
    lemma CoinFits(c: Item, item: Item)
      requires Valid() && c in S && item in S && c != item && !item.isContainer && 1 <= item.count <= 100
      ensures Sound(Snap(S)) && !AtOrAbove(Snap(S), item, c)
      ensures c.Takes(null, item, item.count) <==> |c.itemlist| < c.maxSize
    {
      hide Linked, Acyclic, AtOrAbove, WellWeighed, WeightOf, StacksProper;
      WeighedIsSound(Snap(S), WeightOf(types));
      LeafAboveNothing(Snap(S), item, c);
      if |c.itemlist| < c.maxSize { assert c.Lays(null, item, item.count, 0, 1); }
    }

    method NewCoins(cylinder: Item, id: nat, n: nat) returns (item: Item)
      requires Valid() && cylinder in S && cylinder.isContainer && 1 <= n <= 100
      modifies this`S
      ensures Valid() && S == old(S) + {item} && fresh(item)
      ensures item.id == id && item.count == n && item.parent == null && !item.isContainer
      ensures Paid(old(Snap(S)), Snap(S), cylinder, [])
      ensures Untouched(old(Snap(S)), Snap(S), {})
    {
      hide Linked, Acyclic, AtOrAbove, WellWeighed, WeightOf, StacksProper, Paid;
      ghost var a := Snap(S);
      item := new Item(id, n, false, 0);
      CoinIsNew(types, a, WeightOf(types), item, item.AsNode(), cylinder);
      S := S + {item};
      assert Snap(S) == a[item := item.AsNode()];
    }

    /** Another stack is handed out, on top of the earlier k ones of the deal. */
    method PayOut(cylinder: Item, id: nat, n: nat, flags: Flags, says: nat -> ReturnValue, k: nat,
                  ghost a: Arena<Item>, ghost t: Terms, ghost dealt: Deal)
        returns (ghost deal: Deal)
      requires Valid() && cylinder in S && cylinder.isContainer && !flags.childIsOwner
      requires types(id).stackable && 1 <= n <= 100
      requires Dealing(a, Snap(S), cylinder, dealt) && k == |dealt.made| && dealt == Dealt(t, dealt.made)
      requires cylinder in a && t == Terms(types, cylinder.maxSize - |a[cylinder].items|, flags.noLimit, says)
      modifies this`S, this`ground, S
      ensures Valid() && S >= old(S) && fresh(S - old(S))
      ensures Dealing(a, Snap(S), cylinder, deal) && deal == Dealt(t, dealt.made + [(id, n)])
      ensures forall g0 :: old(ground) == g0 + dealt.dropped ==> ground == g0 + deal.dropped
    {
      hide Linked, Acyclic, AtOrAbove, WellWeighed, WeightOf, StacksProper, Paid, Snap, Untouched, Valid, Proper, Dealt;
      ghost var b := Snap(S);
      SnapNode(S, cylinder);
      ghost var kept := AddCoins(cylinder, id, n, flags, says(k));
      SnapNode(S, cylinder);
      ghost var one := [(id, n)];
      PaidTwice(a, b, Snap(S), cylinder, dealt.kept, if kept then one else []);
      UntouchedTwice(a, b, Snap(S));
      ProperOn(dealt, (id, n));
      DealtOn(t, dealt.made, (id, n));
      deal := Dealt(t, dealt.made + one);
      assert dealt.kept + [] == dealt.kept && dealt.dropped + [] == dealt.dropped && old(ground) + [] == old(ground);
    }

    /**
     Pays out money in crystals, platinum and gold: deal says which stacks, and which of them the
     container keeps, as long as it has room, and which were dropped on the ground. says is what the
     outermost holder answers for each stack.
     */
    method AddMoney(cylinder: Item, money0: nat, flags: Flags, says: nat -> ReturnValue) returns (ghost deal: Deal)
      requires Valid() && cylinder in S && cylinder.isContainer && !flags.childIsOwner && CoinsStack(types)
      modifies this`S, this`ground, S
      ensures Valid() && S >= old(S) && fresh(S - old(S))
      ensures deal == Dealt(Terms(types, cylinder.maxSize - old(|cylinder.itemlist|), flags.noLimit, says),
                            CoinStacks(money0))
      ensures Dealing(old(Snap(S)), Snap(S), cylinder, deal)
      ensures ground == old(ground) + deal.dropped
    {
      hide Snap, Valid, Crystals, Dealing, CoinStacks, Dealt;
      ghost var a := Snap(S);
      var money := money0;
      var crys := money / 10000;
      money := money - crys * 10000;
      var plat := money / 100;
      money := money - plat * 100;
      var gold := money;
      Digits(money0, crys, plat, gold);
      deal := Deal([], [], []);
      SnapNode(S, cylinder);
      ghost var t := Terms(types, cylinder.maxSize - |a[cylinder].items|, flags.noLimit, says);
      NothingPaidOut(cylinder, t);
      ghost var all := Crystals(crys);
      assert [] + all == all && ground + [] == ground;
      var k := 0;
      while crys > 0
        invariant Valid() && S >= old(S) && fresh(S - old(S)) && crys >= 0
        invariant Dealing(a, Snap(S), cylinder, deal) && deal == Dealt(t, deal.made) && k == |deal.made|
        invariant ground == old(ground) + deal.dropped
        invariant deal.made + Crystals(crys) == all
      {
        ghost var made := deal.made;
        CrystalsStep(made, crys);
        deal := PayOut(cylinder, ITEM_COINS_CRYSTAL, Min(100, crys), flags, says, k, a, t, deal);
        crys, k := crys - Min(100, crys), k + 1;
      }
      CrystalsEnd(deal.made);
      if plat != 0 {
        deal := PayOut(cylinder, ITEM_COINS_PLATINUM, plat, flags, says, k, a, t, deal);
        k := k + 1;
      }
      ghost var most := all + Few(ITEM_COINS_PLATINUM, plat);
      assert deal == Dealt(t, most) && deal.made == most && most + [] == most;
      if gold != 0 {
        deal := PayOut(cylinder, ITEM_COINS_GOLD, gold, flags, says, k, a, t, deal);
      }
      assert deal == Dealt(t, most + Few(ITEM_COINS_GOLD, gold));
    }

    lemma NothingPaidOut(c: Item, t: Terms)
      requires Valid() && c in S && c.isContainer
      ensures Dealing(Snap(S), Snap(S), c, Deal([], [], [])) && Dealt(t, []) == Deal([], [], [])
    {
      hide Linked, Acyclic, AtOrAbove, WellWeighed, WeightOf, StacksProper, Paid;
      NothingPaid(types, Snap(S), WeightOf(types), c);
    }

    /** Takes n units of an item out of its container, or the whole item (n = -1). */
    method InternalRemoveItem(item: Item, n0: int, test: bool, flags: Flags) returns (ret: ReturnValue)
      requires Valid() && item in S && n0 >= -1
      modifies S
      ensures Valid()
      ensures ret != RET_NOERROR || test ==> Snap(S) == old(Snap(S))
      ensures ret == RET_NOERROR <==>
                var n := if n0 == -1 then old(item.count) else n0;
                old(item.parent) != null && n != 0 && (types(old(item.id)).stackable ==> n <= old(item.count))
      ensures ret == RET_NOERROR && !test ==>
                var n := if n0 == -1 then old(item.count) else n0;
                && Sound(old(Snap(S))) && old(item.parent) in S && item in old(item.parent.itemlist)
                && Snap(S) == if types(old(item.id)).stackable && n != old(item.count)
                              then Changed(old(Snap(S)), WeightOf(types), old(item.parent), item, old(item.id),
                                  old(item.count) - n)
                              else Removed(old(Snap(S)), WeightOf(types), old(item.parent), item)
    {
      hide Valid, Snap, Sound, AtOrAbove, WeightOf, Changed, Removed;
      var cylinder := item.parent;
      if cylinder == null {
        return RET_NOTPOSSIBLE;
      }
      ParentIsHere(item);
      var n: nat := if n0 == -1 then item.count else n0;
      // may it be taken away?
      ret := cylinder.QueryRemove(item, n, flags.(ignoreNotMoveable := true), types);
      if ret != RET_NOERROR {
        return;
      }
      if !test {
        TakeAway(cylinder, item, n);
      }
    }

    lemma ParentIsHere(item: Item)
      requires Valid() && item in S && item.parent != null
      ensures Sound(Snap(S)) && item.parent in S && item in item.parent.itemlist && item != item.parent
    {
      hide Linked, Acyclic, AtOrAbove, WellWeighed, WeightOf, StacksProper;
      ghost var a := Snap(S);
      WeighedIsSound(a, WeightOf(types));
      ParentHolds(a, item);
      ListedIsBelow(a, item.parent, item);
    }

    /** The removal itself, once everything has been checked. */
    method TakeAway(cylinder: Item, item: Item, n: nat)
      requires Valid() && cylinder in S && item in S && item in cylinder.itemlist && item != cylinder
      requires n > 0 && (types(item.id).stackable ==> n <= item.count) && Sound(Snap(S))
      modifies S
      ensures Valid()
      ensures Snap(S) == if types(old(item.id)).stackable && n != old(item.count)
                         then Changed(old(Snap(S)), WeightOf(types), cylinder, item, old(item.id), old(item.count) - n)
                         else Removed(old(Snap(S)), WeightOf(types), cylinder, item)
    {
      hide Linked, Acyclic, AtOrAbove, WellWeighed, WeightOf, StacksProper, Changed, Removed;
      RemoveKeepsStacks(types, Snap(S), WeightOf(types), cylinder, item, n);
      cylinder.RemoveThing(item, n, types, S);
    }

    /** One list of the search for money: bags join the queue, coins are counted. */
    method ScanWorth(c: Item, queue0: seq<Item>, count0: int) returns (queue: seq<Item>, moneyCount: int)
      requires Valid() && c in S
      ensures Linked(Snap(S)) && forall x :: x in c.itemlist ==> x in S
      ensures queue == queue0 + Bags(Snap(S), c.itemlist)
      ensures moneyCount == count0 + OwnSum(Snap(S), c.itemlist, Worth())
    {
      hide Acyclic, AtOrAbove, WellWeighed, WeightOf, StacksProper, Linked, Bags, OwnSum;
      ghost var a := Snap(S);
      WeighedIsSound(a, WeightOf(types));
      ListIsHere(a, c);
      queue, moneyCount := queue0, count0;
      ghost var all := c.itemlist;
      ScanBegins(a);
      for i := 0 to |c.itemlist|
        invariant queue == queue0 + Bags(a, all[..i])
        invariant moneyCount == count0 + OwnSum(a, all[..i], Worth())
      {
        var item := c.itemlist[i];
        ScanOne(a, all[..i], item);
        assert all[..i + 1] == all[..i] + [item];
        if item.isContainer {
          queue := queue + [item];
        } else if CoinWorth(item.id, item.count) != 0 {
          moneyCount := moneyCount + CoinWorth(item.id, item.count);
        }
      }
      assert all[..|all|] == all;
    }

    /** The worth of all coins nested in a container. */
    method GetMoney(cylinder: Item?) returns (moneyCount: int)
      requires Valid() && (cylinder != null ==> cylinder in S)
      ensures cylinder == null ==> moneyCount == 0
      ensures cylinder != null ==> Sound(Snap(S)) && moneyCount == Below(Snap(S), cylinder, Worth())
    {
      hide Linked, Acyclic, AtOrAbove, Below, WellWeighed, WeightOf, StacksProper, Bags, OwnSum, Walk, Holders,
           Searching, Nested, Worth, Snap;
      if cylinder == null {
        return 0;
      }
      ghost var a := Snap(S);
      WeighedIsSound(a, WeightOf(types));
      var c: Item := cylinder;
      ghost var done: seq<Item> := [];
      SnapNode(S, c);
      SearchBegins(a, c);
      SearchStep(a, c, done, [c]);
      var listContainer;
      listContainer, moneyCount := ScanWorth(c, [], 0);
      done := c.itemlist;
      assert [] + done == done && [c][1..] + Bags(a, done) == [] + Bags(a, done);
      while listContainer != []
        invariant Searching(a, c, done, listContainer)
        invariant forall x :: x in done ==> x in a
        invariant forall x :: x in listContainer ==> x in a
        invariant moneyCount == OwnSum(a, done, Worth())
        decreases |Walk(a, Holders(a, listContainer))| + |listContainer|
      {
        var container := listContainer[0];
        SnapNode(S, container);
        SearchStep(a, c, done, listContainer);
        OwnSumConcat(a, done, container.itemlist, Worth());
        listContainer, moneyCount := ScanWorth(container, listContainer[1..], moneyCount);
        done := done + container.itemlist;
      }
      SearchEnds(a, c, done);
      NestedLaw(a, c, Worth());
    }

    /** multimap::insert: the new coin goes behind those worth no more. */
    method InsertCoin(mm: seq<(int, Item)>, w: int, x: Item) returns (r: seq<(int, Item)>, p: nat)
      requires forall i, j :: 0 <= i < j < |mm| ==> mm[i].0 <= mm[j].0
      ensures p <= |mm| && r == mm[..p] + [(w, x)] + mm[p..]
      ensures forall i :: 0 <= i < p ==> mm[i].0 <= w
      ensures forall i :: p <= i < |mm| ==> w < mm[i].0
    {
      p := 0;
      while p < |mm| && mm[p].0 <= w
        invariant p <= |mm|
        invariant forall i :: 0 <= i < p ==> mm[i].0 <= w
      {
        p := p + 1;
      }
      r := mm[..p] + [(w, x)] + mm[p..];
    }

    /** One list of the search for coins: bags join the queue, coins join the multimap. */
    method ScanCoins(c: Item, queue0: seq<Item>, mm0: seq<(int, Item)>, count0: int, ghost done: seq<Item>)
        returns (queue: seq<Item>, mm: seq<(int, Item)>, moneyCount: int)
      requires Valid() && c in S && count0 == Firsts(mm0)
      requires Distinct(done + c.itemlist) && CoinMap(Snap(S), done, mm0)
      ensures Linked(Snap(S)) && forall x :: x in c.itemlist ==> x in S
      ensures queue == queue0 + Bags(Snap(S), c.itemlist)
      ensures CoinMap(Snap(S), done + c.itemlist, mm) && moneyCount == Firsts(mm)
    {
      hide Acyclic, AtOrAbove, WellWeighed, WeightOf, StacksProper, Linked, Bags, OwnSum, CoinMap, Firsts, Own,
           Distinct, CoinWorth;
      ghost var a := Snap(S);
      WeighedIsSound(a, WeightOf(types));
      ListIsHere(a, c);
      queue, mm, moneyCount := queue0, mm0, count0;
      ghost var all := c.itemlist;
      ScanBegins(a);
      assert done + all[..0] == done;
      for i := 0 to |c.itemlist|
        invariant queue == queue0 + Bags(a, all[..i])
        invariant CoinMap(a, done + all[..i], mm) && moneyCount == Firsts(mm)
      {
        var item := c.itemlist[i];
        assert all[..i + 1] == all[..i] + [item];
        assert done + all[..i + 1] == done + all[..i] + [item];
        BagsAppend(a, all[..i], item);
        OwnWorth(a, item);
        if item.isContainer {
          queue := queue + [item];
          CoinMapSkips(a, done + all[..i], mm, item);
        } else if CoinWorth(item.id, item.count) != 0 {
          var w := CoinWorth(item.id, item.count);
          moneyCount := moneyCount + w;
          var p;
          ghost var was := mm;
          CoinMapSorted(a, done + all[..i], mm);
          mm, p := InsertCoin(mm, w, item);
          NotYet(done, all, i);
          CoinMapGrows(a, done + all[..i], was, item, p);
          FirstsInsert(was, p, (w, item));
        } else {
          CoinMapSkips(a, done + all[..i], mm, item);
        }
      }
      assert all[..|all|] == all;
    }

    /** All coin stacks nested in a container, cheapest first, and what they are worth together. */
    method FindCoins(c: Item) returns (mm: seq<(int, Item)>, moneyCount: int)
      requires Valid() && c in S && c.isContainer
      ensures Sound(Snap(S)) && Payable(Snap(S), c, mm)
      ensures moneyCount == Firsts(mm) == Below(Snap(S), c, Worth())
      ensures forall i, j :: 0 <= i < j < |mm| ==> mm[i].0 <= mm[j].0
    {
      hide Linked, Acyclic, AtOrAbove, Below, WellWeighed, WeightOf, StacksProper, Bags, OwnSum, Walk, Holders,
           Searching, Nested, CoinMap, Payable, Distinct, Firsts, Worth, Snap;
      ghost var a := Snap(S);
      WeighedIsSound(a, WeightOf(types));
      ghost var done: seq<Item> := [];
      SnapNode(S, c);
      SearchBegins(a, c);
      SearchStep(a, c, done, [c]);
      DoneIsDistinct(a, c, done + c.itemlist, [c][1..] + Bags(a, c.itemlist));
      NoCoins(a);
      var listContainer;
      listContainer, mm, moneyCount := ScanCoins(c, [], [], 0, done);
      done := c.itemlist;
      assert [] + done == done && [c][1..] + Bags(a, done) == [] + Bags(a, done);
      while listContainer != []
        invariant Searching(a, c, done, listContainer)
        invariant forall x :: x in listContainer ==> x in a
        invariant CoinMap(a, done, mm) && moneyCount == Firsts(mm)
        decreases |Walk(a, Holders(a, listContainer))| + |listContainer|
      {
        var container := listContainer[0];
        SnapNode(S, container);
        SearchStep(a, c, done, listContainer);
        DoneIsDistinct(a, c, done + container.itemlist, listContainer[1..] + Bags(a, container.itemlist));
        listContainer, mm, moneyCount := ScanCoins(container, listContainer[1..], mm, moneyCount, done);
        done := done + container.itemlist;
      }
      SearchEnds(a, c, done);
      CoinMapSorted(a, done, mm);
      FoundIsPayable(a, c, mm);
    }

    /** The terms for a container whose list has grown by some stacks already. */
    function TermsAt(c: Item, more: nat, flags: Flags, says: nat -> ReturnValue): Terms
      reads c
    {
      Terms(types, c.maxSize - (|c.itemlist| - more), flags.noLimit, says)
    }

    /** Takes one whole coin stack out of wherever it lies below c. */
    method TakeCoin(c: Item, ghost mm: seq<(int, Item)>, item: Item)
      requires Valid() && c in S && CoinsStack(types)
      requires mm != [] && mm[0].1 == item && Payable(Snap(S), c, mm)
      modifies S
      ensures Valid() && item in S && Payable(Snap(S), c, mm[1..])
      ensures Settled(old(Snap(S)), Snap(S), c, [(old(Snap(S))[item].id, old(Snap(S))[item].count)], [])
      ensures OnlyLeft(old(Snap(S)), Snap(S), item)
      ensures mm[0].0 == CoinWorth(item.id, item.count)
    {
      hide Linked, Acyclic, AtOrAbove, Below, WellWeighed, WeightOf, StacksProper, Payable, Settled, Removed, Changed,
           Worth, Untouched;
      ghost var a := Snap(S);
      PayOne(a, WeightOf(types), c, mm);
      IsCoin(types, a, c, mm);
      CoinLeaves(a, WeightOf(types), item);
      var ret := InternalRemoveItem(item, -1, false, Flags(false, false, false));
    }

    /**
     Takes coins worth money: cheapest stacks first, as many as are needed; what the last one is
     worth beyond the money is paid back.
     */
    method RemoveMoney(cylinder: Item?, money0: int, flags: Flags, says: nat -> ReturnValue)
        returns (ok: bool, ghost bill: Bill)
      requires Valid() && (cylinder != null ==> cylinder in S && cylinder.isContainer)
      requires !flags.childIsOwner && CoinsStack(types)
      modifies this`S, this`ground, S
      ensures Valid() && S >= old(S) && fresh(S - old(S))
      ensures Sound(old(Snap(S)))
      ensures ok <==> cylinder != null && (money0 <= 0 || Below(old(Snap(S)), cylinder, Worth()) >= money0)
      ensures cylinder == null || money0 <= 0 || !ok ==>
                S == old(S) && Snap(S) == old(Snap(S)) && ground == old(ground)
      ensures ok && money0 > 0 ==>
                && Honours(old(Snap(S)), Snap(S), cylinder, money0, bill) && ground == old(ground) + bill.deal.dropped
                && bill.deal == Dealt(TermsAt(cylinder, |bill.deal.kept|, flags, says), bill.deal.made)
    {
      hide Linked, Acyclic, AtOrAbove, Below, WellWeighed, WeightOf, StacksProper, Payable, Settled, Firsts, Worth,
           Paid, CoinWorth, Snap, Paying, CoinStacks, Proper, OnlyLeft, Valid, Dealing,
           Dealt;
      ghost var a := Snap(S);
      ValidIsSound();
      ghost var deal := Deal([], [], []);
      bill := Bill([], 0, deal);
      if cylinder == null {
        return false, bill;
      }
      if money0 <= 0 {
        return true, bill;
      }
      var c: Item := cylinder;
      var mm, moneyCount := FindCoins(c);
      if moneyCount < money0 {
        return false, bill;
      }
      var money := money0;
      SnapNode(S, c);
      NothingPaying(a, c, mm);
      NoCoinsForNothing();
      NothingDealt();
      var k := 0;
      while k < |mm| && money > 0
        invariant 0 <= k <= |mm| && 0 <= money && c in S
        invariant Valid() && S >= old(S) && fresh(S - old(S))
        invariant Paying(a, Snap(S), c, mm, k, deal) && ground == old(ground) + deal.dropped
        invariant forall j :: 0 <= j < k ==> Firsts(mm[..j]) < money0
        invariant money > 0 ==> Firsts(mm[..k]) == money0 - money && deal == Deal([], [], [])
        invariant money == 0 ==> Firsts(mm[..k]) >= money0 && deal.made == CoinStacks(Firsts(mm[..k]) - money0)
        invariant deal == Dealt(TermsAt(c, |deal.kept|, flags, says), deal.made)
      {
        var item := mm[k].1;
        ghost var b := Snap(S);
        PayingAt(a, b, c, mm, k, deal);
        TakeCoin(c, mm[k..], item);
        ghost var e := Snap(S);
        PayingStep(a, b, e, c, mm, k, deal);
        FirstsOn(mm, k);
        if mm[k].0 <= money {
          money := money - mm[k].0;
        } else {
          // only a part of the stack is owed
          var remaind := CoinWorth(item.id, item.count) - money;
          SnapNode(S, c);
          deal := AddMoney(c, remaind, flags, says);
          SnapNode(S, c);
          ListGrew(e, Snap(S), c, deal);
          PayingChange(a, e, Snap(S), c, mm, k + 1, deal);
          money := 0;
        }
        k := k + 1;
      }
      assert mm[..|mm|] == mm;
      bill := Bill(mm, k, deal);
      return money == 0, bill;
    }
  }

  lemma ListGrew(a: Arena<Item>, b: Arena<Item>, c: Item, deal: Deal)
    requires Dealing(a, b, c, deal)
    ensures c in a && c in b && |b[c].items| == |a[c].items| + |deal.kept|
  {
    hide Paid, Proper;
  }

  lemma NoCoins(a: Arena<Item>)
    ensures CoinMap(a, [], []) && Firsts([]) == 0
  {
  }

  lemma OwnWorth(a: Arena<Item>, x: Item)
    requires x in a
    ensures Own(Worth(), a[x]) == if a[x].isContainer then 0 else CoinWorth(a[x].id, a[x].count)
    ensures Own(Worth(), a[x]) >= 0
  {
  }

  lemma CoinMapSorted(a: Arena<Item>, done: seq<Item>, mm: seq<(int, Item)>)
    requires CoinMap(a, done, mm)
    ensures forall i, j :: 0 <= i < j < |mm| ==> mm[i].0 <= mm[j].0
  {
  }

  /** An item of a list of distinct items has not been looked at before. */
  lemma NotYet(done: seq<Item>, all: seq<Item>, i: nat)
    requires Distinct(done + all) && i < |all|
    ensures all[i] !in done + all[..i]
  {
    var s := done + all;
    assert s[|done| + i] == all[i];
    forall j | 0 <= j < |done| + i ensures (done + all[..i])[j] != all[i] {
      assert (done + all[..i])[j] == s[j];
    }
  }

  lemma DoneIsDistinct(a: Arena<Item>, c: Item, done: seq<Item>, q: seq<Item>)
    requires Searching(a, c, done, q)
    ensures Distinct(done)
  {
    hide Walk, Holders, Nested, Linked, Acyclic, AtOrAbove;
    NestedLaw(a, c, Worth());
    var all := Nested(a, c);
    forall i | 0 <= i < |done| ensures done[i] == all[i] {
      assert all[i] == (done + Walk(a, Holders(a, q)))[i];
    }
  }

  lemma IsCoin(types: ItemTypes, a: Arena<Item>, c: Item, mm: seq<(int, Item)>)
    requires mm != [] && Payable(a, c, mm) && CoinsStack(types) && StacksProper(types, a)
    ensures var x := mm[0].1;
            && Sound(a) && x in a && types(a[x].id).stackable && 1 <= a[x].count && !a[x].isContainer
            && mm[0].0 == CoinWorth(a[x].id, a[x].count)
            && a[x].parent.Some? && a[x].parent.value in a && x != a[x].parent.value
  {
    hide Linked, Acyclic, AtOrAbove;
    assert CoinIn(a, c, mm[0].0, mm[0].1);
    var x := mm[0].1;
    OwnWorth(a, x);
    StackIsSmall(types, a, x);
    AtOrAboveParent(a, x);
  }

  lemma AtOrAboveParent(a: Arena<Item>, x: Item)
    requires Sound(a) && x in a && a[x].parent.Some?
    ensures a[x].parent.value in a && x != a[x].parent.value
  {
    ParentHolds(a, x);
    ListedIsBelow(a, a[x].parent.value, x);
  }

  lemma NothingOwed(mm: seq<(int, Item)>)
    ensures mm == [] ==> Firsts(mm) == 0
  {
  }

  lemma ParentHolds(a: Arena<Item>, x: Item)
    requires Linked(a) && x in a && a[x].parent.Some?
    ensures a[x].parent.value in a && x in a[a[x].parent.value].items
  {
  }

  /** Taking n units out of a stack, or an item out of its list, keeps stacks proper. */
  lemma RemoveKeepsStacks(types: ItemTypes, a: Arena<Item>, f: Measure, c: Item, x: Item, n: nat)
    requires StacksProper(types, a) && Sound(a) && c in a && x in a[c].items && x in a
    requires n > 0 && (types(a[x].id).stackable ==> n <= a[x].count)
    ensures StacksProper(types, if types(a[x].id).stackable && n != a[x].count
                                then Changed(a, f, c, x, a[x].id, Max(0, a[x].count - n) % 256)
                                else Removed(a, f, c, x))
    ensures types(a[x].id).stackable ==> Max(0, a[x].count - n) % 256 == a[x].count - n
  {
    hide Linked, Acyclic, AtOrAbove, Changed, Removed, StacksProper;
    if types(a[x].id).stackable {
      StackIsSmall(types, a, x);
      SmallByte(a[x].count - n);
    }
    if types(a[x].id).stackable && n != a[x].count {
      LessKeepsStacks(types, a, f, c, x, a[x].count - n);
    } else {
      GoneKeepsStacks(types, a, f, c, x);
    }
  }

  lemma SmallByte(n: nat)
    requires n <= 100
    ensures Max(0, n) % 256 == n
  {
  }

  lemma LessKeepsStacks(types: ItemTypes, a: Arena<Item>, f: Measure, c: Item, x: Item, n: nat)
    requires StacksProper(types, a) && Sound(a) && c in a && x in a[c].items && x in a && 1 <= n <= 100
    ensures StacksProper(types, Changed(a, f, c, x, a[x].id, n))
  {
    hide Linked, Acyclic, AtOrAbove, Changed, StacksProper;
    ChangedOnlyAt(a, f, c, x, n);
    StacksKept(types, a, Changed(a, f, c, x, a[x].id, n), c, x);
  }

  lemma GoneKeepsStacks(types: ItemTypes, a: Arena<Item>, f: Measure, c: Item, x: Item)
    requires StacksProper(types, a) && Sound(a) && c in a && x in a[c].items && x in a
    ensures StacksProper(types, Removed(a, f, c, x))
  {
    ListedIsBelow(a, c, x);
    hide Linked, Acyclic, AtOrAbove, Removed, StacksProper;
    RemovedOnlyAt(a, f, c, x);
    StacksSame(types, a, Removed(a, f, c, x));
  }

  lemma ScanBegins(a: Arena<Item>)
    ensures Bags(a, []) == [] && OwnSum(a, [], Worth()) == 0
  {
  }

  lemma ScanOne(a: Arena<Item>, s: seq<Item>, x: Item)
    requires x in a && forall y :: y in s ==> y in a
    ensures forall y :: y in s + [x] ==> y in a
    ensures Bags(a, s + [x]) == Bags(a, s) + (if a[x].isContainer then [x] else [])
    ensures OwnSum(a, s + [x], Worth())
         == OwnSum(a, s, Worth()) + (if a[x].isContainer then 0 else CoinWorth(a[x].id, a[x].count))
  {
    OwnSumOne(a, s, x, Worth());
    BagsAppend(a, s, x);
  }

  lemma ListIsSmall(types: ItemTypes, a: Arena<Item>, c: Item)
    requires StacksProper(types, a) && Linked(a) && c in a
    ensures forall i :: 0 <= i < |a[c].items| ==>
              a[c].items[i] in a && (types(a[a[c].items[i]].id).stackable ==> 1 <= a[a[c].items[i]].count <= 100)
  {
  }

  /** If only a list with room grew, capacities are kept. */
  lemma RoomKept(a: Arena<Item>, b: Arena<Item>, c: Item, k: nat)
    requires ListsWithin(a, b, c, k) && c in a && (k == 0 || (k == 1 && |a[c].items| < a[c].capacity))
    ensures CapacityKept(a, b)
  {
  }

  lemma CapacitySame(a: Arena<Item>)
    ensures CapacityKept(a, a)
  {
  }

  lemma HoldersAreContainers(a: Arena<Item>, c: Item)
    requires Linked(a) && c in a
    ensures a[c].parent.Some? ==> a[c].parent.value in a && a[a[c].parent.value].isContainer
    ensures forall y :: y in a[c].items ==> y in a
  {
  }

  lemma PutInKeeps(types: ItemTypes, a: Arena<Item>, b: Arena<Item>, f: Measure, c: Item, id: nat, n: nat)
    requires PutIn(types, a, b, f, c, id, n)
    ensures WellWeighed(b, f) && StacksProper(types, b)
  {
  }

  lemma TakenOutKeeps(types: ItemTypes, a: Arena<Item>, b: Arena<Item>, f: Measure, c: Item, x: Item,
                      m: nat, to: Item)
    requires TakenOut(types, a, b, f, c, x, m, to)
    ensures WellWeighed(b, f) && StacksProper(types, b)
  {
  }

  lemma StackIsSmall(types: ItemTypes, a: Arena<Item>, x: Item)
    requires StacksProper(types, a) && x in a && types(a[x].id).stackable
    ensures 1 <= a[x].count <= 100 && !a[x].isContainer
  {
  }
}
