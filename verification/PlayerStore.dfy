/**
 Storing a player's items as table rows: each item gets a row with its own number (sid) and its
 parent's (pid), breadth first. Loading makes the items of all rows and hangs them up by descending
 sid, each at the front of its parent's list, which restores every list.
 */
module PlayerStore {
  import opened Wrappers
  import opened Forest
  import opened LevelOrder
  import opened Search
  import opened Containers
  import opened Transfers
  import opened Streams
  import NodeFormat
  import M = MapStore

  /** Numbers up to here are slots and depots; items are numbered from the next one on. */
  const LAST_SLOT_ID := 100

  /** A row of player_items or player_depotitems. */
  datatype Row = Row(pid: int, sid: int, itemType: nat, count: nat, attributes: seq<NodeFormat.byte>)

  // ---------------------------------------------------------------------------------------
  // Numbers and rows

  function Sid(i: nat): int {
    LAST_SLOT_ID + 1 + i
  }

  /** The rows from number i on that name p as their parent. */
  ghost function Kids(rows: seq<Row>, p: int, i: nat): (s: seq<nat>)
    requires i <= |rows|
    ensures forall k :: k in s ==> i <= k < |rows| && rows[k].pid == p
    decreases |rows| - i
  {
    if i == |rows| then []
    else (if rows[i].pid == p then [i] else []) + Kids(rows, p, i + 1)
  }

  ghost function Pick<T>(s: seq<T>, at: seq<nat>): (r: seq<T>)
    requires forall k :: k in at ==> k < |s|
    ensures |r| == |at|
  {
    seq(|at|, j requires 0 <= j < |at| => assert at[j] in at; s[at[j]])
  }

  /** Row i describes item i of order. */
  ghost predicate Describes(a: Arena<Item>, rows: seq<Row>, order: seq<Item>) {
    && |rows| == |order|
    && forall i :: 0 <= i < |rows| ==>
         && order[i] in a && rows[i].sid == Sid(i)
         && rows[i].itemType == a[order[i]].id
  }

  /** What the count and attribute columns have of an item. */
  datatype Mark = Mark(subType: nat, attrs: seq<M.Attr>)

  function MarkOf(types: ItemTypes, id: nat, count: nat, g: M.Getters): Mark {
    Mark(M.SubType(types(id), count, g), M.Serialized(types(id), count, g))
  }

  ghost function MarksOf(types: ItemTypes, a: Arena<Item>, getters: Item -> M.Getters): Item -> Mark {
    (x: Item) => if x in a then MarkOf(types, a[x].id, a[x].count, getters(x)) else Mark(0, [])
  }

  /** The two columns have what every item has. */
  ghost predicate Carried(rows: seq<Row>, order: seq<Item>, marks: Item -> Mark) {
    && |rows| == |order|
    && forall i :: 0 <= i < |rows| ==>
         rows[i].count == marks(order[i]).subType && rows[i].attributes == M.AttrsBytes(marks(order[i]).attrs)
  }

  lemma CarriedGrows(rows: seq<Row>, order: seq<Item>, marks: Item -> Mark, r: Row, x: Item)
    requires Carried(rows, order, marks) && r.count == marks(x).subType && r.attributes == M.AttrsBytes(marks(x).attrs)
    ensures Carried(rows + [r], order + [x], marks)
  {
    hide M.AttrsBytes;
  }

  /** The lists of the first m items have been written, in order; the others' have not. */
  ghost predicate Written(a: Arena<Item>, rows: seq<Row>, order: seq<Item>, m: nat) {
    && Describes(a, rows, order) && m <= |rows|
    && (forall i :: 0 <= i < |rows| ==> rows[i].pid < Sid(m) && rows[i].pid < rows[i].sid)
    && forall k :: 0 <= k < m ==> a[order[k]].items == Pick(order, Kids(rows, Sid(k), 0))
  }

  lemma {:induction false} KidsAppend(rows: seq<Row>, r: Row, p: int, i: nat)
    requires i <= |rows|
    ensures Kids(rows + [r], p, i) == Kids(rows, p, i) + (if r.pid == p then [|rows|] else [])
    decreases |rows| - i
  {
    if i == |rows| {
      assert Kids(rows + [r], p, i + 1) == [];
    } else {
      KidsAppend(rows, r, p, i + 1);
    }
  }

  /** No row names p, so p has no kids. */
  lemma {:induction false} NoKids(rows: seq<Row>, p: int, i: nat)
    requires i <= |rows| && forall j :: i <= j < |rows| ==> rows[j].pid != p
    ensures Kids(rows, p, i) == []
    decreases |rows| - i
  {
    if i < |rows| { NoKids(rows, p, i + 1); }
  }

  lemma PickAppend<T>(s: seq<T>, x: T, at: seq<nat>)
    requires forall k :: k in at ==> k < |s|
    ensures Pick(s + [x], at) == Pick(s, at)
    ensures Pick(s + [x], at + [|s|]) == Pick(s, at) + [x]
  {
    forall j | 0 <= j < |at| ensures at[j] < |s| { assert at[j] in at; }
  }

  /** The containers among the items from number m on. */
  ghost function Boxes(a: Arena<Item>, order: seq<Item>, m: nat): (s: seq<nat>)
    requires m <= |order| && forall x :: x in order ==> x in a
    ensures forall k :: k in s ==> m <= k < |order| && a[order[k]].isContainer
    decreases |order| - m
  {
    if m == |order| then [] else (if a[order[m]].isContainer then [m] else []) + Boxes(a, order, m + 1)
  }

  lemma {:induction false} BoxesAppend(a: Arena<Item>, order: seq<Item>, x: Item, m: nat)
    requires m <= |order| && (forall y :: y in order ==> y in a) && x in a
    ensures forall y :: y in order + [x] ==> y in a
    ensures Boxes(a, order + [x], m) == Boxes(a, order, m) + (if a[x].isContainer then [|order|] else [])
    decreases |order| - m
  {
    if m == |order| {
      assert Boxes(a, order + [x], m + 1) == [];
    } else {
      BoxesAppend(a, order, x, m + 1);
      assert (order + [x])[m] == order[m];
    }
  }

  lemma BoxesStep(a: Arena<Item>, order: seq<Item>, m: nat)
    requires m <= |order| && forall x :: x in order ==> x in a
    ensures Boxes(a, order, m) == if m == |order| then []
                                  else (if a[order[m]].isContainer then [m] else []) + Boxes(a, order, m + 1)
  {
  }

  /** The front of the queue is the next container; what lies before it holds nothing. */
  lemma {:induction false} BoxesFront(a: Arena<Item>, order: seq<Item>, m: nat)
    requires m <= |order| && forall x :: x in order ==> x in a
    ensures var b := Boxes(a, order, m);
            if b == [] then forall k :: m <= k < |order| ==> !a[order[k]].isContainer
            else m <= b[0] < |order| && b[1..] == Boxes(a, order, b[0] + 1)
                 && forall k :: m <= k < b[0] ==> !a[order[k]].isContainer
    decreases |order| - m
  {
    hide Boxes;
    BoxesStep(a, order, m);
    if m < |order| {
      BoxesFront(a, order, m + 1);
    }
  }

  /** The containers still to be written, first in first out. */
  ghost function Queue(a: Arena<Item>, order: seq<Item>, m: nat): (q: seq<Item>)
    requires m <= |order| && forall x :: x in order ==> x in a
    ensures forall x :: x in q ==> x in a
  {
    Pick(order, Boxes(a, order, m))
  }

  /** The work list: each container with its number. */
  ghost predicate Stacked(a: Arena<Item>, order: seq<Item>, m: nat, stack: seq<(Item, int)>)
    requires m <= |order| && forall x :: x in order ==> x in a
  {
    var b := Boxes(a, order, m);
    |stack| == |b| && forall j :: 0 <= j < |b| ==> b[j] in b && stack[j] == (order[b[j]], Sid(b[j]))
  }

  lemma StackPush(a: Arena<Item>, order: seq<Item>, m: nat, stack: seq<(Item, int)>, x: Item)
    requires m <= |order| && (forall y :: y in order ==> y in a) && Stacked(a, order, m, stack) && x in a
    ensures forall y :: y in order + [x] ==> y in a
    ensures Stacked(a, order + [x], m, if a[x].isContainer then stack + [(x, Sid(|order|))] else stack)
    ensures Queue(a, order + [x], m) == Queue(a, order, m) + (if a[x].isContainer then [x] else [])
  {
    hide Boxes;
    BoxesAppend(a, order, x, m);
    PickAppend(order, x, Boxes(a, order, m));
    var b, b' := Boxes(a, order, m), Boxes(a, order + [x], m);
    forall j | 0 <= j < |b'| ensures b'[j] in b' {}
    assert forall j :: 0 <= j < |b| ==> b'[j] == b[j] && b[j] in b;
  }

  /** Popping the front container, number k: what lies before it holds nothing. */
  lemma StackPop(a: Arena<Item>, rows: seq<Row>, order: seq<Item>, m: nat, stack: seq<(Item, int)>) returns (k: nat)
    requires Sound(a) && Written(a, rows, order, m) && (forall x :: x in order ==> x in a)
    requires Stacked(a, order, m, stack) && stack != []
    ensures m <= k < |order| && stack[0] == (order[k], Sid(k)) && a[order[k]].isContainer
    ensures Written(a, rows, order, k)
    ensures Stacked(a, order, k + 1, stack[1..])
    ensures Queue(a, order, m) != [] && Queue(a, order, m)[0] == order[k]
    ensures Queue(a, order, k + 1) == Queue(a, order, m)[1..]
  {
    hide Boxes, Linked, Acyclic;
    BoxesFront(a, order, m);
    var b := Boxes(a, order, m);
    k := b[0];
    assert b[0] in b;
    assert forall j :: 0 <= j < |b[1..]| ==> b[1..][j] == b[j + 1] && b[1..][j] in b[1..];
    SkipEmpty(a, rows, order, m, k);
  }

  lemma SkipEmpty(a: Arena<Item>, rows: seq<Row>, order: seq<Item>, m: nat, k: nat)
    requires Sound(a) && Written(a, rows, order, m) && m <= k <= |order|
    requires forall i :: m <= i < k ==> order[i] in a && !a[order[i]].isContainer
    ensures Written(a, rows, order, k)
  {
    forall i | m <= i < k
      ensures a[order[i]].items == Pick(order, Kids(rows, Sid(i), 0))
    {
      NoKids(rows, Sid(i), 0);
      LeafItem(a, order[i]);
    }
  }

  /** At the end, all lists have been written. */
  lemma StackEmpty(a: Arena<Item>, rows: seq<Row>, order: seq<Item>, m: nat)
    requires Sound(a) && Written(a, rows, order, m) && (forall x :: x in order ==> x in a)
    requires Stacked(a, order, m, [])
    ensures Written(a, rows, order, |order|) && Queue(a, order, m) == []
  {
    hide Boxes, Linked, Acyclic;
    BoxesFront(a, order, m);
    assert forall i :: m <= i < |order| ==> order[i] in order;
    SkipEmpty(a, rows, order, m, |order|);
  }

  // ---------------------------------------------------------------------------------------
  // One more row

  /** While container k is being written: its first items have rows, the last of all rows. */
  ghost predicate Writing(a: Arena<Item>, rows: seq<Row>, order: seq<Item>, k: nat, done: seq<Item>) {
    && Describes(a, rows, order) && k < |rows|
    && (forall i :: 0 <= i < |rows| ==> rows[i].pid <= Sid(k) && rows[i].pid < rows[i].sid)
    && (forall j :: 0 <= j < k ==> a[order[j]].items == Pick(order, Kids(rows, Sid(j), 0)))
    && Pick(order, Kids(rows, Sid(k), 0)) == done
  }

  lemma WritingBegins(a: Arena<Item>, rows: seq<Row>, order: seq<Item>, k: nat)
    requires Written(a, rows, order, k) && k < |rows|
    ensures Writing(a, rows, order, k, [])
  {
    NoKids(rows, Sid(k), 0);
  }

  lemma WritingStep(a: Arena<Item>, rows: seq<Row>, order: seq<Item>, k: nat, done: seq<Item>, x: Item,
                    subType: nat, bytes: seq<NodeFormat.byte>)
    requires Writing(a, rows, order, k, done) && x in a
    ensures Writing(a, rows + [Row(Sid(k), Sid(|rows|), a[x].id, subType, bytes)], order + [x], k, done + [x])
  {
    hide Kids, Pick;
    var r := Row(Sid(k), Sid(|rows|), a[x].id, subType, bytes);
    forall j | 0 <= j <= k
      ensures Pick(order + [x], Kids(rows + [r], Sid(j), 0))
           == Pick(order, Kids(rows, Sid(j), 0)) + (if j == k then [x] else [])
    {
      KidsAppend(rows, r, Sid(j), 0);
      assert Kids(rows, Sid(j), 0) + [] == Kids(rows, Sid(j), 0);
      PickAppend(order, x, Kids(rows, Sid(j), 0));
    }
    assert forall j :: 0 <= j < k ==> (order + [x])[j] == order[j];
  }

  lemma WritingEnds(a: Arena<Item>, rows: seq<Row>, order: seq<Item>, k: nat, done: seq<Item>)
    requires Writing(a, rows, order, k, done) && order[k] in a && done == a[order[k]].items
    ensures Written(a, rows, order, k + 1)
  {
  }

  /** The rows of the slots or depots themselves. */
  ghost predicate Topped(rows: seq<Row>, order: seq<Item>, tops: seq<(int, Item)>) {
    && |tops| <= |rows| && |tops| <= |order|
    && (forall i :: 0 <= i < |tops| ==> rows[i].pid == tops[i].0 && order[i] == tops[i].1)
    && (forall i :: |tops| <= i < |rows| ==> rows[i].pid > LAST_SLOT_ID)
  }

  lemma ToppedGrows(rows: seq<Row>, order: seq<Item>, tops: seq<(int, Item)>, r: Row, x: Item)
    requires Topped(rows, order, tops) && |rows| == |order| && r.pid > LAST_SLOT_ID
    ensures Topped(rows + [r], order + [x], tops)
  {
  }

  /** The rows say all there is to say: numbers, parents, lists, and the slots. */
  ghost predicate Saved(a: Arena<Item>, rows: seq<Row>, order: seq<Item>, tops: seq<(int, Item)>) {
    Written(a, rows, order, |order|) && Topped(rows, order, tops)
  }

  ghost function Roots(tops: seq<(int, Item)>): (s: seq<Item>)
    ensures |s| == |tops| && forall i :: 0 <= i < |s| ==> s[i] == tops[i].1
  {
    seq(|tops|, i requires 0 <= i < |tops| => tops[i].1)
  }

  /** The rows of the slots: saving has not looked into any container yet. */
  ghost predicate TopsWritten(a: Arena<Item>, rows: seq<Row>, order: seq<Item>, tops: seq<(int, Item)>, n: nat) {
    && n <= |tops| && |rows| == n && Written(a, rows, order, 0)
    && (forall i :: 0 <= i < n ==> rows[i].pid == tops[i].0)
    && order == Roots(tops[..n])
  }

  lemma TopsStep(a: Arena<Item>, rows: seq<Row>, order: seq<Item>, tops: seq<(int, Item)>, n: nat,
                 subType: nat, bytes: seq<NodeFormat.byte>)
    requires TopsWritten(a, rows, order, tops, n) && n < |tops| && tops[n].1 in a && tops[n].0 <= LAST_SLOT_ID
    ensures var x := tops[n].1;
            TopsWritten(a, rows + [Row(tops[n].0, Sid(n), a[x].id, subType, bytes)], order + [x], tops, n + 1)
  {
    assert Roots(tops[..n + 1]) == Roots(tops[..n]) + [tops[n].1];
  }

  lemma TopsDone(a: Arena<Item>, rows: seq<Row>, order: seq<Item>, tops: seq<(int, Item)>)
    requires TopsWritten(a, rows, order, tops, |tops|)
    ensures Written(a, rows, order, 0) && Topped(rows, order, tops) && order == Roots(tops)
  {
    assert tops[..|tops|] == tops;
  }

  lemma NothingYet(a: Arena<Item>, tops: seq<(int, Item)>)
    ensures TopsWritten(a, [], [], tops, 0)
    ensures Stacked(a, [], 0, []) && Queue(a, [], 0) == [] == Bags(a, [])
  {
  }

  /** The items of the slots, and then all that is in them, level by level. */
  ghost function Order(a: Arena<Item>, tops: seq<(int, Item)>): seq<Item>
    requires Sound(a) && forall i :: 0 <= i < |tops| ==> tops[i].1 in a
  {
    Roots(tops) + Walk(a, Holders(a, Roots(tops)))
  }

  /** What has been written and what is still inside the queue make up all. */
  ghost predicate Ahead(a: Arena<Item>, order: seq<Item>, m: nat, all: seq<Item>) {
    && Sound(a) && m <= |order| && (forall x :: x in order ==> x in a)
    && order + Walk(a, Holders(a, Queue(a, order, m))) == all
  }

  lemma AheadOfTops(a: Arena<Item>, tops: seq<(int, Item)>)
    requires Sound(a) && forall i :: 0 <= i < |tops| ==> tops[i].1 in a
    requires Queue(a, Roots(tops), 0) == Bags(a, Roots(tops))
    ensures Ahead(a, Roots(tops), 0, Order(a, tops))
  {
    hide Linked, Acyclic, Walk, Holders, Bags, Queue, Roots;
    ListsAreProper(a);
    BagsHold(a, Roots(tops));
  }

  /** One container written: its list has moved from the front of the queue to the end of the order. */
  lemma AheadStep(a: Arena<Item>, before: seq<Item>, m: nat, order: seq<Item>, k: nat, all: seq<Item>)
    requires Ahead(a, before, m, all) && k < |order| && forall x :: x in order ==> x in a
    requires var q := Queue(a, before, m);
             && q != [] && order == before + a[q[0]].items && (forall x :: x in a[q[0]].items ==> x in a)
             && Queue(a, order, k + 1) == q[1..] + Bags(a, a[q[0]].items)
    ensures Ahead(a, order, k + 1, all)
    ensures |order| == |before| + |a[Queue(a, before, m)[0]].items|
  {
    hide Linked, Acyclic, Walk, Holders, Bags, Queue;
    var q := Queue(a, before, m);
    SearchOn(a, q);
    Regroup(before, a[q[0]].items, Walk(a, Holders(a, Queue(a, order, k + 1))));
  }

  lemma AheadEnds(a: Arena<Item>, order: seq<Item>, m: nat, all: seq<Item>)
    requires Ahead(a, order, m, all)
    ensures |order| <= |all|
    ensures Queue(a, order, m) == [] ==> order == all
  {
    hide Linked, Acyclic, Queue;
    NoHolders(a);
    EmptyWalk(a);
    assert order + [] == order;
  }

  /** Writes the rows of all slots or depots and of everything in them. order says whose rows they are. */
  method SaveItems(itemList: seq<(int, Item)>, types: ItemTypes, getters: Item -> M.Getters, ghost S: set<Item>)
      returns (rows: seq<Row>, ghost order: seq<Item>)
    requires Sound(Snap(S))
    requires forall i :: 0 <= i < |itemList| ==> itemList[i].1 in S && itemList[i].0 <= LAST_SLOT_ID
    ensures Saved(Snap(S), rows, order, itemList) && Carried(rows, order, MarksOf(types, Snap(S), getters))
    ensures forall x :: x in Roots(itemList) ==> x in S
    ensures order == Order(Snap(S), itemList) && |rows| == |order|
    ensures forall i :: 0 <= i < |itemList| ==>
              var x := itemList[i].1;
              var mark := MarkOf(types, x.id, x.count, getters(x));
              rows[i] == Row(itemList[i].0, Sid(i), x.id, mark.subType, M.AttrsBytes(mark.attrs))
    ensures forall i :: |itemList| <= i < |rows| ==> LAST_SLOT_ID < rows[i].pid < rows[i].sid == Sid(i)
  {
    hide Linked, Acyclic, Written, Stacked, Boxes, Pick, Roots, Bags, Topped, TopsWritten, Queue, Order, Ahead,
         Carried, M.AttrsBytes, MarkOf, MarksOf;
    ghost var a := Snap(S);
    ghost var marks := MarksOf(types, a, getters);
    var stack, runningId;
    rows, order, stack, runningId := SaveTops(itemList, types, getters, S);
    ghost var all := Order(a, itemList);
    ghost var m := 0;
    RootsHere(itemList, S);
    while |stack| > 0
      invariant m <= |order| && (forall x :: x in order ==> x in a)
      invariant |rows| == |order| && runningId == LAST_SLOT_ID + |rows|
      invariant Written(a, rows, order, m) && Topped(rows, order, itemList) && Carried(rows, order, marks)
      invariant Stacked(a, order, m, stack)
      invariant Ahead(a, order, m, all)
      decreases |all| - |order|, |stack|
    {
      var container, parentId := stack[0].0, stack[0].1;
      ghost var k := StackPop(a, rows, order, m, stack);
      stack := stack[1..];
      ghost var before := order;
      rows, order, stack, runningId :=
        SaveContents(container, parentId, rows, stack, runningId, types, getters, S, order, k, itemList);
      SnapNode(S, container);
      AheadStep(a, before, m, order, k, all);
      m := k + 1;
      AheadEnds(a, order, m, all);
    }
    StackEmpty(a, rows, order, m);
    AheadEnds(a, order, m, all);
    RowsAre(a, rows, order, itemList);
    forall i | 0 <= i < |itemList|
      ensures var x := itemList[i].1;
              var mark := MarkOf(types, x.id, x.count, getters(x));
              rows[i] == Row(itemList[i].0, Sid(i), x.id, mark.subType, M.AttrsBytes(mark.attrs))
    {
      SnapNode(S, itemList[i].1);
      CarriedAt(rows, order, marks, i);
      MarkAt(types, S, getters, itemList[i].1);
    }
  }

  lemma CarriedAt(rows: seq<Row>, order: seq<Item>, marks: Item -> Mark, i: nat)
    requires Carried(rows, order, marks) && i < |rows|
    ensures |order| == |rows|
    ensures rows[i].count == marks(order[i]).subType && rows[i].attributes == M.AttrsBytes(marks(order[i]).attrs)
  {
  }

  lemma MarkAt(types: ItemTypes, S: set<Item>, getters: Item -> M.Getters, x: Item)
    requires x in S
    ensures MarksOf(types, Snap(S), getters)(x) == MarkOf(types, x.id, x.count, getters(x))
  {
    hide MarkOf;
  }

  /** The count and attribute columns of one item. */
  method Columns(item: Item, types: ItemTypes, getters: Item -> M.Getters, ghost S: set<Item>)
      returns (subType: nat, attributes: seq<NodeFormat.byte>)
    requires item in S
    ensures var mark := MarksOf(types, Snap(S), getters)(item);
            subType == mark.subType && attributes == M.AttrsBytes(mark.attrs)
  {
    hide M.AttrsBytes, M.Serialized, M.SubType;
    MarkAt(types, S, getters, item);
    var t := types(item.id);
    subType := M.SubType(t, item.count, getters(item));
    var propWriteStream := new PropWriteStream();
    M.SerializeAttr(propWriteStream, t, item.count, getters(item));
    attributes := propWriteStream.buffer[..propWriteStream.size];
    assert attributes == [] + M.AttrsBytes(M.Serialized(t, item.count, getters(item)));
  }

  lemma RowsAre(a: Arena<Item>, rows: seq<Row>, order: seq<Item>, tops: seq<(int, Item)>)
    requires Saved(a, rows, order, tops)
    ensures |rows| == |order| && |tops| <= |rows|
    ensures forall i :: 0 <= i < |tops| ==>
              && tops[i].1 in a && order[i] == tops[i].1 && rows[i].pid == tops[i].0 && rows[i].sid == Sid(i)
              && rows[i].itemType == a[tops[i].1].id
    ensures forall i :: |tops| <= i < |rows| ==> LAST_SLOT_ID < rows[i].pid < rows[i].sid == Sid(i)
  {
    hide Kids, Pick;
  }

  lemma EmptyWalk(a: Arena<Item>)
    requires Sound(a)
    ensures Busy(a, []) && Walk(a, []) == []
  {
  }

  /** The rows of the slots or depots. */
  method SaveTops(itemList: seq<(int, Item)>, types: ItemTypes, getters: Item -> M.Getters, ghost S: set<Item>)
      returns (rows: seq<Row>, ghost order: seq<Item>, stack: seq<(Item, int)>, runningId: int)
    requires Sound(Snap(S))
    requires forall i :: 0 <= i < |itemList| ==> itemList[i].1 in S && itemList[i].0 <= LAST_SLOT_ID
    ensures |rows| == |order| && runningId == LAST_SLOT_ID + |rows|
    ensures Written(Snap(S), rows, order, 0) && Topped(rows, order, itemList)
    ensures Carried(rows, order, MarksOf(types, Snap(S), getters))
    ensures forall x :: x in order ==> x in S
    ensures Stacked(Snap(S), order, 0, stack) && Ahead(Snap(S), order, 0, Order(Snap(S), itemList))
  {
    hide Linked, Acyclic, Order, Ahead, Carried, M.AttrsBytes, MarksOf, Written, Stacked, Boxes, Pick, Roots, Bags,
         Topped, TopsWritten, Queue;
    ghost var a := Snap(S);
    ghost var marks := MarksOf(types, a, getters);
    rows, order, stack := [], [], [];
    runningId := LAST_SLOT_ID;
    NothingYet(a, itemList);
    NothingCarried(marks);
    for i := 0 to |itemList|
      invariant |rows| == |order| == i && runningId == LAST_SLOT_ID + i
      invariant TopsWritten(a, rows, order, itemList, i) && Carried(rows, order, marks)
      invariant forall x :: x in order ==> x in a
      invariant Stacked(a, order, 0, stack)
      invariant Queue(a, order, 0) == Bags(a, order)
    {
      var pid, item := itemList[i].0, itemList[i].1;
      runningId := runningId + 1;
      var subType, attributes := Columns(item, types, getters, S);
      TopsStep(a, rows, order, itemList, i, subType, attributes);
      CarriedGrows(rows, order, marks, Row(pid, runningId, item.id, subType, attributes), item);
      StackPush(a, order, 0, stack, item);
      BagsAppend(a, order, item);
      rows := rows + [Row(pid, runningId, item.id, subType, attributes)];
      if item.isContainer {
        stack := stack + [(item, runningId)];
      }
      order := order + [item];
    }
    TopsDone(a, rows, order, itemList);
    AheadOfTops(a, itemList);
  }

  lemma NothingCarried(marks: Item -> Mark)
    ensures Carried([], [], marks)
  {
  }

  lemma RootsHere(itemList: seq<(int, Item)>, S: set<Item>)
    requires forall i :: 0 <= i < |itemList| ==> itemList[i].1 in S
    ensures forall x :: x in Roots(itemList) ==> x in S
  {
    forall x | x in Roots(itemList) ensures x in S {
      var i :| 0 <= i < |itemList| && Roots(itemList)[i] == x;
    }
  }

  /** The rows of one container's list. */
  method SaveContents(container: Item, parentId: int, rows0: seq<Row>, stack0: seq<(Item, int)>, runningId0: int,
                      types: ItemTypes, getters: Item -> M.Getters, ghost S: set<Item>, ghost order0: seq<Item>,
                      ghost k: nat, ghost tops: seq<(int, Item)>)
      returns (rows: seq<Row>, ghost order: seq<Item>, stack: seq<(Item, int)>, runningId: int)
    requires container in S && Sound(Snap(S)) && parentId == Sid(k) && runningId0 == LAST_SLOT_ID + |rows0|
    requires |rows0| == |order0| && k < |order0| && order0[k] == container
    requires Written(Snap(S), rows0, order0, k) && Topped(rows0, order0, tops)
    requires Carried(rows0, order0, MarksOf(types, Snap(S), getters))
    requires (forall x :: x in order0 ==> x in S) && Stacked(Snap(S), order0, k + 1, stack0)
    ensures |rows| == |order| && runningId == LAST_SLOT_ID + |rows|
    ensures order == order0 + container.itemlist && forall x :: x in order ==> x in S
    ensures Written(Snap(S), rows, order, k + 1) && Topped(rows, order, tops)
    ensures Carried(rows, order, MarksOf(types, Snap(S), getters))
    ensures Stacked(Snap(S), order, k + 1, stack)
    ensures forall x :: x in container.itemlist ==> x in S
    ensures Queue(Snap(S), order, k + 1) == Queue(Snap(S), order0, k + 1) + Bags(Snap(S), container.itemlist)
    ensures container.itemlist == [] ==> stack == stack0
  {
    hide Linked, Acyclic, Carried, M.AttrsBytes, MarksOf, Writing, Written, Stacked, Boxes, Pick, Bags, Topped, Queue;
    ghost var a := Snap(S);
    ghost var marks := MarksOf(types, a, getters);
    ListIsHere(a, container);
    rows, order, stack, runningId := rows0, order0, stack0, runningId0;
    ghost var all := container.itemlist;
    ghost var q := Queue(a, order, k + 1);
    WritingBegins(a, rows, order, k);
    NoBags(a);
    assert all[..0] == [] && q + [] == q && order + [] == order;
    for i := 0 to |container.itemlist|
      invariant |rows| == |order| && order == order0 + all[..i] && runningId == LAST_SLOT_ID + |rows|
      invariant forall x :: x in order ==> x in a
      invariant Writing(a, rows, order, k, all[..i]) && Topped(rows, order, tops) && Carried(rows, order, marks)
      invariant Stacked(a, order, k + 1, stack)
      invariant Queue(a, order, k + 1) == q + Bags(a, all[..i])
      invariant i == 0 ==> stack == stack0
    {
      var item := container.itemlist[i];
      runningId := runningId + 1;
      assert all[..i + 1] == all[..i] + [item];
      var subType, attributes := Columns(item, types, getters, S);
      WritingStep(a, rows, order, k, all[..i], item, subType, attributes);
      StackPush(a, order, k + 1, stack, item);
      BagsAppend(a, all[..i], item);
      var row := Row(parentId, runningId, item.id, subType, attributes);
      ToppedGrows(rows, order, tops, row, item);
      CarriedGrows(rows, order, marks, row, item);
      Regroup(q, Bags(a, all[..i]), if item.isContainer then [item] else []);
      Regroup(order0, all[..i], [item]);
      if item.isContainer {
        stack := stack + [(item, runningId)];
      }
      rows := rows + [row];
      order := order + [item];
    }
    assert all[..|all|] == all;
    WritingEnds(a, rows, order, k, all);
  }

  // ---------------------------------------------------------------------------------------
  // Loading

  /** What Item::items says about a type when an item is made. */
  datatype Form = NoItem | Plain | Box(capacity: nat, depot: bool)

  type Forms = nat -> Form

  /** How an item of this type reads its attributes. */
  function KindOf(forms: Forms, id: nat): M.Kind {
    match forms(id)
    case NoItem => M.NoItem
    case Plain => M.Thing
    case Box(_, depot) => if depot then M.DepotBox else M.Box
  }

  /** What the attribute column of a row says. */
  function AttrsOf(forms: Forms, r: Row): M.Read<M.Attrs> {
    M.ReadAttrs(r.attributes, 0, KindOf(forms, r.itemType))
  }

  /** The item exists and its attributes can be read. */
  predicate Known(forms: Forms, r: Row) {
    !forms(r.itemType).NoItem? && AttrsOf(forms, r).Read?
  }

  /** The item Item::CreateItem makes of a row, with the attributes it reads. */
  ghost function NewNode(types: ItemTypes, forms: Forms, r: Row): Node<Item>
    requires Known(forms, r)
  {
    Node(r.itemType,
         M.CountRead(types(r.itemType).SubTypeIsCount(), AttrsOf(forms, r).value.attrs,
                     M.CountMade(types(r.itemType), r.count)),
         forms(r.itemType).Box?,
         match forms(r.itemType) case Box(capacity, _) => capacity case _ => 0, None, [], 0)
  }

  ghost predicate AllKnown(forms: Forms, rows: seq<Row>) {
    forall i :: 0 <= i < |rows| ==> Known(forms, rows[i])
  }

  /** The item map after loading the rows from number i on: one loose new item each. */
  ghost predicate Loaded(types: ItemTypes, forms: Forms, rows: seq<Row>, i: nat,
                         itemMap: map<int, (Item, int)>, made: seq<Item>, b: Arena<Item>) {
    && AllKnown(forms, rows) && i <= |rows| && |made| == |rows| - i
    && (forall k :: i <= k < |rows| ==> Sid(k) in itemMap && itemMap[Sid(k)] == (made[k - i], rows[k].pid))
    && (forall sid :: sid in itemMap ==> Sid(i) <= sid < Sid(|rows|))
    && (forall k :: i <= k < |rows| ==> made[k - i] in b && b[made[k - i]] == NewNode(types, forms, rows[k]))
    && (forall j, k :: 0 <= j < k < |made| ==> made[j] != made[k])
    && (forall x :: x in b ==> x in made) && (forall x :: x in made ==> x in b)
  }

  /** CreateItem and unserializeAttr: the item of a row, and the attributes it has read. */
  method CreateItem(types: ItemTypes, forms: Forms, r: Row) returns (item: Item?, attrs: seq<M.Attr>)
    ensures item == null <==> forms(r.itemType).NoItem?
    ensures item != null ==> fresh(item)
    ensures Known(forms, r) ==>
              item != null && item.AsNode() == NewNode(types, forms, r) && attrs == AttrsOf(forms, r).value.attrs
  {
    hide M.ReadAttrs, M.CountRead, M.CountMade;
    attrs := [];
    match forms(r.itemType) {
      case NoItem => item := null;
      case Plain => item := new Item(r.itemType, M.CountMade(types(r.itemType), r.count), false, 0);
      case Box(capacity, _) => item := new Item(r.itemType, M.CountMade(types(r.itemType), r.count), true, capacity);
    }
    if item != null {
      var propStream := new PropStream(r.attributes);
      var _, read, _ := M.UnserializeAttr(propStream, KindOf(forms, r.itemType));
      attrs := read;
      item.count := M.CountRead(types(r.itemType).SubTypeIsCount(), attrs, item.count);
    }
  }

  lemma KnownRows(forms: Forms, rows: seq<Row>)
    ensures AllKnown(forms, rows) ==> forall i :: 0 <= i < |rows| ==> Known(forms, rows[i])
  {
  }

  lemma LoadedNone(types: ItemTypes, forms: Forms, rows: seq<Row>)
    requires AllKnown(forms, rows)
    ensures Loaded(types, forms, rows, |rows|, map[], [], Snap({})) && Marked(forms, rows, |rows|, map[])
  {
  }

  lemma LoadedStep(types: ItemTypes, forms: Forms, rows: seq<Row>, i: nat, itemMap: map<int, (Item, int)>,
                   made: seq<Item>, b: Arena<Item>, x: Item)
    requires i < |rows| && Loaded(types, forms, rows, i + 1, itemMap, made, b) && x !in b
    ensures Loaded(types, forms, rows, i, itemMap[Sid(i) := (x, rows[i].pid)], [x] + made,
                   b[x := NewNode(types, forms, rows[i])])
  {
    hide NewNode, Known, AttrsOf;
    assert ([x] + made)[0] == x;
  }

  /** The attributes read for the rows from number i on. */
  ghost predicate Marked(forms: Forms, rows: seq<Row>, i: nat, marks: map<int, seq<M.Attr>>) {
    && AllKnown(forms, rows)
    && forall k :: i <= k < |rows| ==> Sid(k) in marks && marks[Sid(k)] == AttrsOf(forms, rows[k]).value.attrs
  }

  lemma MarkedStep(forms: Forms, rows: seq<Row>, i: nat, marks: map<int, seq<M.Attr>>)
    requires i < |rows| && Marked(forms, rows, i + 1, marks)
    ensures Known(forms, rows[i]) && Marked(forms, rows, i, marks[Sid(i) := AttrsOf(forms, rows[i]).value.attrs])
  {
    hide AttrsOf;
  }

  /** Makes the items of all rows, highest sid first. */
  method LoadItems(types: ItemTypes, forms: Forms, rows: seq<Row>)
      returns (itemMap: map<int, (Item, int)>, marks: map<int, seq<M.Attr>>, ghost made: seq<Item>, ghost S: set<Item>)
    requires forall i :: 0 <= i < |rows| ==> rows[i].sid == Sid(i)
    ensures fresh(S)
    ensures AllKnown(forms, rows) ==> Loaded(types, forms, rows, 0, itemMap, made, Snap(S))
    ensures AllKnown(forms, rows) ==> Marked(forms, rows, 0, marks)
    ensures forall sid :: sid in itemMap ==>
              Sid(0) <= sid < Sid(|rows|) && !forms(rows[sid - Sid(0)].itemType).NoItem?
  {
    hide Loaded, Marked, AllKnown, Known, NewNode, AttrsOf;
    itemMap, marks, made, S := map[], map[], [], {};
    if AllKnown(forms, rows) { LoadedNone(types, forms, rows); }
    KnownRows(forms, rows);
    for i := |rows| downto 0
      invariant fresh(S)
      invariant AllKnown(forms, rows) ==> Loaded(types, forms, rows, i, itemMap, made, Snap(S))
      invariant AllKnown(forms, rows) ==> Marked(forms, rows, i, marks)
      invariant forall sid :: sid in itemMap ==>
                  Sid(0) <= sid < Sid(|rows|) && !forms(rows[sid - Sid(0)].itemType).NoItem?
    {
      var row := rows[i];
      ghost var b := Snap(S);
      var item, attrs := CreateItem(types, forms, row);
      if item != null {
        S := S + {item};
        if AllKnown(forms, rows) {
          assert Snap(S) == b[item := NewNode(types, forms, row)];
          LoadedStep(types, forms, rows, i, itemMap, made, b, item);
          MarkedStep(forms, rows, i, marks);
        }
        marks := marks[row.sid := attrs];
        itemMap := itemMap[row.sid := (item, row.pid)];
        made := [item] + made;
      }
    }
  }

  // ---------------------------------------------------------------------------------------
  // Hanging up

  /**
   While the items are hung up by descending number, those from number i on are where they belong:
   every container holds its kids among them, in ascending order, and the first i items are loose.
   */
  ghost predicate Hanging(types: ItemTypes, forms: Forms, rows: seq<Row>, made: seq<Item>, b: Arena<Item>, i: nat) {
    && AllKnown(forms, rows) && |made| == |rows| && i <= |rows| && Sound(b)
    && (forall j, k :: 0 <= j < k < |made| ==> made[j] != made[k])
    && (forall k :: 0 <= k < |made| ==> made[k] in b && SameItem(b[made[k]], NewNode(types, forms, rows[k])))
    && (forall k :: 0 <= k < |made| ==>
          b[made[k]].items == if b[made[k]].isContainer then Pick(made, Kids(rows, Sid(k), i)) else [])
    && (forall k :: 0 <= k < i ==> b[made[k]].parent.None?)
  }

  predicate SameItem(m: Node<Item>, n: Node<Item>) {
    m.id == n.id && m.count == n.count && m.isContainer == n.isContainer && m.capacity == n.capacity
  }

  /** Every row's parent is no item, or an item of a smaller number. */
  ghost predicate ParentsFirst(rows: seq<Row>) {
    && (forall i :: 0 <= i < |rows| ==> rows[i].sid == Sid(i))
    && forall i :: 0 <= i < |rows| ==> rows[i].pid < rows[i].sid
  }

  lemma NothingHangs(types: ItemTypes, forms: Forms, rows: seq<Row>, itemMap: map<int, (Item, int)>,
                     made: seq<Item>, b: Arena<Item>, f: Measure)
    requires Loaded(types, forms, rows, 0, itemMap, made, b)
    ensures Hanging(types, forms, rows, made, b, |rows|) && WellWeighed(b, f)
  {
    hide Known, NewNode, Loaded, Sound, WellWeighed;
    LoadedIsLoose(types, forms, rows, itemMap, made, b);
    LooseIsWeighed(b, f);
    LoadedNodes(types, forms, rows, itemMap, made, b);
    forall k | 0 <= k < |made| ensures Pick(made, Kids(rows, Sid(k), |rows|)) == [] {}
  }

  /** What loading the rows gave, row by row. */
  lemma LoadedNodes(types: ItemTypes, forms: Forms, rows: seq<Row>, itemMap: map<int, (Item, int)>,
                    made: seq<Item>, b: Arena<Item>)
    requires Loaded(types, forms, rows, 0, itemMap, made, b)
    ensures AllKnown(forms, rows) && |made| == |rows| && forall j, k :: 0 <= j < k < |made| ==> made[j] != made[k]
    ensures forall k :: 0 <= k < |made| ==>
              made[k] in b && SameItem(b[made[k]], NewNode(types, forms, rows[k])) && Loose(b[made[k]])
  {
    hide Known, M.CountRead, AttrsOf, M.CountMade;
    forall k | 0 <= k < |made| ensures made[k] in b && b[made[k]] == NewNode(types, forms, rows[k]) {
      assert made[k - 0] == made[k];
    }
  }

  lemma LoadedIsLoose(types: ItemTypes, forms: Forms, rows: seq<Row>, itemMap: map<int, (Item, int)>,
                      made: seq<Item>, b: Arena<Item>)
    requires Loaded(types, forms, rows, 0, itemMap, made, b)
    ensures forall x :: x in b ==> Loose(b[x])
  {
    hide Known, NewNode, Loose;
    LoadedNodes(types, forms, rows, itemMap, made, b);
    forall x | x in b ensures Loose(b[x]) {
      var k :| 0 <= k < |made| && made[k] == x;
    }
  }

  /** Items that hold nothing weigh what their totals say. */
  lemma LooseIsWeighed(b: Arena<Item>, f: Measure)
    requires forall x :: x in b ==> Loose(b[x])
    ensures Sound(b) && WellWeighed(b, f)
  {
    hide Below, Sound;
    LooseIsSound(b);
    forall x | x in b ensures b[x].total == Below(b, x, f) {
      LeafBelow(b, x, f);
    }
  }

  lemma LooseIsSound(b: Arena<Item>)
    requires forall x :: x in b ==> Loose(b[x])
    ensures Sound(b)
  {
    assert IsRanking(b, Ranking(map x | x in b :: 0, 0));
  }

  /** A loose container is at or below itself only. */
  lemma LooseFits(b: Arena<Item>, c: Item, x: Item)
    requires Sound(b) && c in b && x in b && c != x && b[c].isContainer && b[c].parent.None? && b[x].parent.None?
    ensures Fits(b, c, x)
  {
    AtOrAboveStep(b, x, c);
  }

  lemma KidsStep(rows: seq<Row>, p: int, i: nat)
    requires i < |rows|
    ensures Kids(rows, p, i) == (if rows[i].pid == p then [i] else []) + Kids(rows, p, i + 1)
  {
  }

  lemma PickHead<T>(s: seq<T>, i: nat, at: seq<nat>)
    requires i < |s| && forall k :: k in at ==> k < |s|
    ensures forall k :: k in [i] + at ==> k < |s|
    ensures Pick(s, [i] + at) == [s[i]] + Pick(s, at)
  {
  }

  /** Item i, of no parent among the containers, stays loose. */
  lemma HangsNowhere(types: ItemTypes, forms: Forms, rows: seq<Row>, made: seq<Item>, b: Arena<Item>, i: nat)
    requires Hanging(types, forms, rows, made, b, i + 1)
    requires forall k :: 0 <= k < |made| && rows[i].pid == Sid(k) ==> !b[made[k]].isContainer
    ensures Hanging(types, forms, rows, made, b, i)
  {
    hide Sound, NewNode, Kids, Pick;
    forall k | 0 <= k < |made| && b[made[k]].isContainer
      ensures b[made[k]].items == Pick(made, Kids(rows, Sid(k), i))
    {
      KidsStep(rows, Sid(k), i);
      assert [] + Kids(rows, Sid(k), i + 1) == Kids(rows, Sid(k), i + 1);
    }
  }

  /** Item i goes to the front of container p's list. */
  lemma HangsThere(types: ItemTypes, forms: Forms, rows: seq<Row>, made: seq<Item>, b: Arena<Item>, i: nat,
                   f: Measure, p: nat)
    requires Hanging(types, forms, rows, made, b, i + 1) && i < |rows|
    requires p < i && rows[i].pid == Sid(p) && b[made[p]].isContainer
    ensures Fits(b, made[p], made[i])
    ensures Sound(Added(b, f, made[p], made[i])) ==>
              Hanging(types, forms, rows, made, Added(b, f, made[p], made[i]), i)
  {
    hide Linked, Acyclic, NewNode, Kids, Pick, Added, AtOrAbove;
    var c, x := made[p], made[i];
    LooseFits(b, c, x);
    AddedNodes(b, f, c, x);
    var e := Added(b, f, c, x);
    forall k | 0 <= k < |made| && b[made[k]].isContainer
      ensures e[made[k]].items == Pick(made, Kids(rows, Sid(k), i))
    {
      KidsStep(rows, Sid(k), i);
      assert [] + Kids(rows, Sid(k), i + 1) == Kids(rows, Sid(k), i + 1);
      PickHead(made, i, Kids(rows, Sid(k), i + 1));
      assert made[k] == c ==> k == p;
    }
  }

  /**
   The slots or depots that are filled: those of rows in range. Of several rows for one place that
   with the largest number counts; it is hung first, and the place is taken then.
   */
  ghost predicate Filled(forms: Forms, rows: seq<Row>, made: seq<Item>, i: nat, lo: int, hi: int, depots: bool,
                         tops: map<int, Item>)
    requires i <= |rows| && |made| == |rows|
  {
    && (forall k :: i <= k < |rows| && IsTop(forms, rows[k], lo, hi, depots) ==> rows[k].pid in tops)
    && (forall pid :: pid in tops ==>
          exists k :: i <= k < |rows| && IsTop(forms, rows[k], lo, hi, depots) && rows[k].pid == pid
                      && tops[pid] == made[k]
                      && forall j :: k < j < |rows| && IsTop(forms, rows[j], lo, hi, depots) ==> rows[j].pid != pid)
  }

  /** A row that fills a slot; a depot's place takes depots only. */
  predicate IsTop(forms: Forms, r: Row, lo: int, hi: int, depots: bool) {
    lo <= r.pid < hi && (depots ==> forms(r.itemType).Box? && forms(r.itemType).depot)
  }

  lemma FilledStep(forms: Forms, rows: seq<Row>, made: seq<Item>, i: nat, lo: int, hi: int, depots: bool,
                   tops: map<int, Item>)
    requires i < |rows| && |made| == |rows| && Filled(forms, rows, made, i + 1, lo, hi, depots, tops)
    ensures var top := IsTop(forms, rows[i], lo, hi, depots) && rows[i].pid !in tops;
            Filled(forms, rows, made, i, lo, hi, depots, if top then tops[rows[i].pid := made[i]] else tops)
  {
    hide IsTop;
    var top := IsTop(forms, rows[i], lo, hi, depots) && rows[i].pid !in tops;
    var tops' := if top then tops[rows[i].pid := made[i]] else tops;
    forall pid | pid in tops'
      ensures exists k :: i <= k < |rows| && IsTop(forms, rows[k], lo, hi, depots) && rows[k].pid == pid
                      && tops'[pid] == made[k]
                      && forall j :: k < j < |rows| && IsTop(forms, rows[j], lo, hi, depots) ==> rows[j].pid != pid
    {
      if top && pid == rows[i].pid {
        assert tops'[pid] == made[i];
      } else {
        var k :| i + 1 <= k < |rows| && IsTop(forms, rows[k], lo, hi, depots) && rows[k].pid == pid
                      && tops[pid] == made[k]
                      && forall j :: k < j < |rows| && IsTop(forms, rows[j], lo, hi, depots) ==> rows[j].pid != pid;
        assert tops'[pid] == made[k];
      }
    }
  }

  lemma Greatest(s: set<int>) returns (m: int)
    requires s != {}
    ensures m in s && forall k :: k in s ==> k <= m
    decreases |s|
  {
    assert (forall k :: k !in s) ==> s == {};
    m :| m in s;
    if s != {m} {
      assert s == (s - {m}) + {m};
      var n := Greatest(s - {m});
      m := Max(m, n);
    }
  }

  /** The numbers of the first i rows. */
  ghost function SidsBelow(i: nat): (s: set<int>)
    ensures forall sid :: sid in s <==> Sid(0) <= sid < Sid(i)
  {
    if i == 0 then {} else SidsBelow(i - 1) + {Sid(i - 1)}
  }

  /**
   The rebuild loop: by descending number, every item goes to its slot or depot place, or to the
   front of its parent's list; a place that is taken stays as it is. tops holds the slots or depots
   from lo up to but not including hi.
   */
  method HangUp(itemMap: map<int, (Item, int)>, lo: int, hi: int, depots: bool, types: ItemTypes, forms: Forms,
                ghost rows: seq<Row>, ghost made: seq<Item>, ghost S: set<Item>)
      returns (tops: map<int, Item>)
    requires ParentsFirst(rows) && hi <= LAST_SLOT_ID + 1
    requires Loaded(types, forms, rows, 0, itemMap, made, Snap(S))
    modifies S
    ensures WellWeighed(Snap(S), WeightOf(types))
    ensures Hanging(types, forms, rows, made, Snap(S), 0)
    ensures Filled(forms, rows, made, 0, lo, hi, depots, tops)
  {
    hide Linked, Acyclic, WellWeighed, WeightOf, Added, Hanging, Filled, Loaded, ParentsFirst, Mapped, SidsBelow,
         IsTop, Fits;
    NothingHangs(types, forms, rows, itemMap, made, Snap(S), WeightOf(types));
    LoadedKeys(types, forms, rows, itemMap, made, Snap(S));
    KeysAre(rows, itemMap, made);
    tops := map[];
    NothingFilled(forms, rows, made, lo, hi, depots);
    var left := itemMap.Keys;
    ghost var i := |rows|;
    while left != {}
      invariant 0 <= i <= |rows| && left == SidsBelow(i)
      invariant WellWeighed(Snap(S), WeightOf(types))
      invariant Hanging(types, forms, rows, made, Snap(S), i)
      invariant Filled(forms, rows, made, i, lo, hi, depots, tops)
      decreases i
    {
      ghost var top := Greatest(left);
      var sid :| sid in left && forall k :: k in left ==> k <= sid;
      left := left - {sid};
      i := LastSid(i, sid);
      MappedAt(rows, itemMap, made, i);
      FilledStep(forms, rows, made, i, lo, hi, depots, tops);
      HangingAt(types, forms, rows, made, Snap(S), i + 1, i);
      var item, pid := itemMap[sid].0, itemMap[sid].1;
      TopIs(forms, rows[i], lo, hi, depots);
      if lo <= pid < hi && (!depots || (item.isContainer && IsDepot(forms, item.id))) && pid !in tops {
        tops := tops[pid := item];
      }
      if !(lo <= pid < hi) && pid in itemMap {
        Hang(itemMap, item, pid, types, forms, rows, made, S, i);
      } else {
        NoParentThere(rows, itemMap, made, i);
        HangsNowhere(types, forms, rows, made, Snap(S), i);
      }
    }
    NoneLeft(i);
  }

  lemma KeysAre(rows: seq<Row>, itemMap: map<int, (Item, int)>, made: seq<Item>)
    requires Mapped(rows, itemMap, made)
    ensures itemMap.Keys == SidsBelow(|rows|) && |made| == |rows|
  {
  }

  lemma TopIs(forms: Forms, r: Row, lo: int, hi: int, depots: bool)
    ensures IsTop(forms, r, lo, hi, depots) <==>
              lo <= r.pid < hi && (!depots || (forms(r.itemType).Box? && IsDepot(forms, r.itemType)))
  {
  }

  /** One item goes to the front of its parent's list, if that is a container. */
  method Hang(itemMap: map<int, (Item, int)>, item: Item, pid: int, types: ItemTypes, forms: Forms,
              ghost rows: seq<Row>, ghost made: seq<Item>, ghost S: set<Item>, ghost i: nat)
    requires ParentsFirst(rows) && Mapped(rows, itemMap, made) && i < |rows| && pid in itemMap
    requires Hanging(types, forms, rows, made, Snap(S), i + 1) && WellWeighed(Snap(S), WeightOf(types))
    requires item == made[i] && pid == rows[i].pid
    modifies S
    ensures Hanging(types, forms, rows, made, Snap(S), i) && WellWeighed(Snap(S), WeightOf(types))
  {
    hide Linked, Acyclic, WellWeighed, WeightOf, Added, Hanging, Filled, Loaded, ParentsFirst, Mapped, SidsBelow, Fits;
    MappedOnly(rows, itemMap, made, pid);
    ParentAt(rows, i);
    HangingAt(types, forms, rows, made, Snap(S), i + 1, i);
    var holder := itemMap[pid].0;
    ghost var p: nat := pid - Sid(0);
    MappedAt(rows, itemMap, made, p);
    HangingAt(types, forms, rows, made, Snap(S), i + 1, p);
    if holder.isContainer {
      HangsThere(types, forms, rows, made, Snap(S), i, WeightOf(types), p);
      holder.InternalAddThing(item, types, S);
      WeighedIsSound(Snap(S), WeightOf(types));
    } else {
      HangsNowhere(types, forms, rows, made, Snap(S), i);
    }
  }

  predicate IsDepot(forms: Forms, id: nat) {
    forms(id).Box? && forms(id).depot
  }

  lemma NothingFilled(forms: Forms, rows: seq<Row>, made: seq<Item>, lo: int, hi: int, depots: bool)
    requires |made| == |rows|
    ensures Filled(forms, rows, made, |rows|, lo, hi, depots, map[])
  {
  }

  lemma LoadedKeys(types: ItemTypes, forms: Forms, rows: seq<Row>, itemMap: map<int, (Item, int)>,
                   made: seq<Item>, b: Arena<Item>)
    requires Loaded(types, forms, rows, 0, itemMap, made, b)
    ensures Mapped(rows, itemMap, made)
  {
    forall k: nat | k < |rows| ensures Sid(k) in itemMap && itemMap[Sid(k)] == (made[k], rows[k].pid) {
      assert made[k - 0] == made[k];
    }
    forall sid | sid in SidsBelow(|rows|) ensures sid in itemMap {
      assert Sid(sid - Sid(0)) == sid;
    }
    assert itemMap.Keys == SidsBelow(|rows|);
  }

  lemma LastSid(i: nat, sid: int) returns (k: nat)
    requires SidsBelow(i) != {} && sid in SidsBelow(i) && forall k :: k in SidsBelow(i) ==> k <= sid
    ensures i > 0 && k == i - 1 && sid == Sid(k) && SidsBelow(i) - {sid} == SidsBelow(k)
  {
    assert i > 0;
    k := i - 1;
    assert Sid(k) in SidsBelow(i);
    assert SidsBelow(i) - {sid} == SidsBelow(k);
  }

  lemma NoneLeft(i: nat)
    requires SidsBelow(i) == {}
    ensures i == 0
  {
    assert Sid(0) in SidsBelow(i) <==> i > 0;
  }

  /** The item map says which item and which parent each number has. */
  ghost predicate Mapped(rows: seq<Row>, itemMap: map<int, (Item, int)>, made: seq<Item>) {
    && |made| == |rows| && itemMap.Keys == SidsBelow(|rows|)
    && forall k :: 0 <= k < |rows| ==> Sid(k) in itemMap && itemMap[Sid(k)] == (made[k], rows[k].pid)
  }

  lemma MappedAt(rows: seq<Row>, itemMap: map<int, (Item, int)>, made: seq<Item>, k: nat)
    requires Mapped(rows, itemMap, made) && k < |rows|
    ensures |made| == |rows| && Sid(k) in itemMap && itemMap[Sid(k)] == (made[k], rows[k].pid)
  {
  }

  lemma MappedOnly(rows: seq<Row>, itemMap: map<int, (Item, int)>, made: seq<Item>, sid: int)
    requires Mapped(rows, itemMap, made) && sid in itemMap
    ensures Sid(0) <= sid < Sid(|rows|)
  {
  }

  lemma ParentAt(rows: seq<Row>, i: nat)
    requires ParentsFirst(rows) && i < |rows|
    ensures rows[i].pid < Sid(i)
  {
  }

  lemma HangingAt(types: ItemTypes, forms: Forms, rows: seq<Row>, made: seq<Item>, b: Arena<Item>, i: nat, k: nat)
    requires Hanging(types, forms, rows, made, b, i) && k < |rows|
    ensures |made| == |rows| && made[k] in b && b[made[k]].id == rows[k].itemType
    ensures b[made[k]].isContainer == forms(rows[k].itemType).Box?
  {
  }

  lemma NoParentThere(rows: seq<Row>, itemMap: map<int, (Item, int)>, made: seq<Item>, i: nat)
    requires Mapped(rows, itemMap, made) && i < |rows|
    ensures forall k: nat :: k < |rows| && rows[i].pid == Sid(k) ==> rows[i].pid in itemMap
    ensures rows[i].pid <= LAST_SLOT_ID ==> forall k: nat :: rows[i].pid != Sid(k)
  {
  }

  // ---------------------------------------------------------------------------------------
  // There and back

  /** The item is what its type makes it, and its count is one that comes back. */
  predicate Typed(types: ItemTypes, forms: Forms, n: Node<Item>, g: M.Getters) {
    && !forms(n.id).NoItem? && n.isContainer == forms(n.id).Box?
    && n.capacity == (match forms(n.id) case Box(capacity, _) => capacity case _ => 0)
    && M.CountComesBack(types(n.id), n.count, g)
  }

  /** x and y are the same member, behind number k, of the two sequences. */
  ghost predicate Twins(order: seq<Item>, made: seq<Item>, k: nat, x: Item, y: Item) {
    exists c :: k < c < |order| && c < |made| && x == order[c] && y == made[c]
  }

  /** made[k] stands for order[k]: same item, and the same items in its list, in the same order. */
  ghost predicate Alike(a: Arena<Item>, order: seq<Item>, b: Arena<Item>, made: seq<Item>) {
    && |order| == |made|
    && forall k :: 0 <= k < |order| ==>
         && order[k] in a && made[k] in b && SameItem(a[order[k]], b[made[k]])
         && |a[order[k]].items| == |b[made[k]].items|
         && forall j :: 0 <= j < |a[order[k]].items| ==>
             Twins(order, made, k, a[order[k]].items[j], b[made[k]].items[j])
  }

  /** What has been written into the attribute column is read from it. */
  lemma CarriedIsRead(types: ItemTypes, forms: Forms, a: Arena<Item>, rows: seq<Row>, order: seq<Item>,
                      getters: Item -> M.Getters, k: nat)
    requires Carried(rows, order, MarksOf(types, a, getters)) && k < |rows| && order[k] in a
    ensures var mark := MarkOf(types, a[order[k]].id, a[order[k]].count, getters(order[k]));
            && rows[k].count == mark.subType
            && AttrsOf(forms, rows[k]).Read? && AttrsOf(forms, rows[k]).value.attrs == M.KeptAll(mark.attrs)
  {
    hide M.ReadAttrs, M.AttrsBytes, M.KeptAll, M.Written, M.Serialized;
    var n := a[order[k]];
    M.SerializedIsWritten(types(n.id), n.count, getters(order[k]));
    M.AttrsAlone(KindOf(forms, rows[k].itemType), MarksOf(types, a, getters)(order[k]).attrs);
  }

  /** The item made of a row is the saved one, its count included, exactly if that is one that comes back. */
  lemma MadeIsSame(types: ItemTypes, forms: Forms, a: Arena<Item>, rows: seq<Row>, order: seq<Item>,
                   getters: Item -> M.Getters, k: nat)
    requires Carried(rows, order, MarksOf(types, a, getters)) && k < |order| == |rows| && order[k] in a
    requires rows[k].itemType == a[order[k]].id && !forms(rows[k].itemType).NoItem?
    ensures Known(forms, rows[k])
    ensures NewNode(types, forms, rows[k]).count == a[order[k]].count <==>
              M.CountComesBack(types(a[order[k]].id), a[order[k]].count, getters(order[k]))
  {
    hide AttrsOf, Carried, MarksOf, M.CountRead, M.KeptAll, M.Serialized, M.SubType, M.CountMade, M.CountComesBack;
    CarriedIsRead(types, forms, a, rows, order, getters, k);
    var n := a[order[k]];
    M.CountBack(types(n.id), n.count, getters(order[k]));
  }

  lemma ListOf(types: ItemTypes, forms: Forms, a: Arena<Item>, b: Arena<Item>, rows: seq<Row>, order: seq<Item>,
               made: seq<Item>, k: nat, getters: Item -> M.Getters)
    requires Sound(a) && Written(a, rows, order, |order|) && Hanging(types, forms, rows, made, b, 0) && k < |order|
    requires order[k] in a && Typed(types, forms, a[order[k]], getters(order[k]))
    requires Carried(rows, order, MarksOf(types, a, getters))
    ensures |made| == |order| && made[k] in b && SameItem(a[order[k]], b[made[k]])
    ensures a[order[k]].items == Pick(order, Kids(rows, Sid(k), 0))
    ensures b[made[k]].items == Pick(made, Kids(rows, Sid(k), 0))
    ensures forall c :: c in Kids(rows, Sid(k), 0) ==> k < c
  {
    hide Kids, Pick, AttrsOf, Carried, MarksOf, M.CountRead, M.KeptAll, M.CountMade, M.CountComesBack;
    forall c | c in Kids(rows, Sid(k), 0) ensures k < c {
      assert rows[c].pid < rows[c].sid;
    }
    MadeIsSame(types, forms, a, rows, order, getters, k);
    if !a[order[k]].isContainer {
      LeafItem(a, order[k]);
      assert Pick(order, Kids(rows, Sid(k), 0)) == [];
      assert |Pick(made, Kids(rows, Sid(k), 0))| == 0;
    }
  }

  /** Rows that were saved hang up to the forest they were saved from. */
  lemma SameForest(types: ItemTypes, forms: Forms, a: Arena<Item>, b: Arena<Item>, rows: seq<Row>, order: seq<Item>,
                   made: seq<Item>, getters: Item -> M.Getters)
    requires Sound(a) && Written(a, rows, order, |order|) && Hanging(types, forms, rows, made, b, 0)
    requires Carried(rows, order, MarksOf(types, a, getters))
    requires forall x :: x in a ==> Typed(types, forms, a[x], getters(x))
    ensures Alike(a, order, b, made)
  {
    hide Linked, Acyclic, Kids, Hanging, Typed, SameItem;
    assert |made| == |order| by { HangingSize(types, forms, rows, made, b); }
    forall k | 0 <= k < |order|
      ensures && order[k] in a && made[k] in b && SameItem(a[order[k]], b[made[k]])
              && |a[order[k]].items| == |b[made[k]].items|
              && forall j :: 0 <= j < |a[order[k]].items| ==>
                  Twins(order, made, k, a[order[k]].items[j], b[made[k]].items[j])
    {
      assert rows[k].sid == Sid(k);
      ListOf(types, forms, a, b, rows, order, made, k, getters);
      var at := Kids(rows, Sid(k), 0);
      forall j | 0 <= j < |a[order[k]].items|
        ensures Twins(order, made, k, a[order[k]].items[j], b[made[k]].items[j])
      {
        assert at[j] in at;
        assert a[order[k]].items[j] == order[at[j]] && b[made[k]].items[j] == made[at[j]];
      }
    }
  }

  lemma HangingSize(types: ItemTypes, forms: Forms, rows: seq<Row>, made: seq<Item>, b: Arena<Item>)
    requires Hanging(types, forms, rows, made, b, 0)
    ensures |made| == |rows|
  {
  }

  /** Lists that stand for each other weigh the same. */
  lemma {:induction false} SameSum(a: Arena<Item>, b: Arena<Item>, s: seq<Item>, t: seq<Item>, f: Measure)
    requires |s| == |t| && (forall x :: x in s ==> x in a) && (forall y :: y in t ==> y in b)
    requires forall j :: 0 <= j < |s| ==> SameItem(a[s[j]], b[t[j]]) && a[s[j]].total == b[t[j]].total
    ensures Sum(a, s, f) == Sum(b, t, f)
  {
    if s != [] {
      SameSum(a, b, s[1..], t[1..], f);
      assert SameItem(a[s[0]], b[t[0]]);
    }
  }

  /** Forests that are alike weigh the same, container by container. */
  lemma {:induction false} SameWeights(a: Arena<Item>, b: Arena<Item>, order: seq<Item>, made: seq<Item>, f: Measure,
                                       k: nat)
    requires Linked(a) && Linked(b) && Balanced(a, f) && Balanced(b, f)
    requires Alike(a, order, b, made) && k < |order|
    ensures order[k] in a && made[k] in b && a[order[k]].total == b[made[k]].total
    decreases |order| - k
  {
    hide Linked, Sum;
    var s, t := a[order[k]].items, b[made[k]].items;
    ListIsHere(a, order[k]);
    ListIsHere(b, made[k]);
    forall j | 0 <= j < |s|
      ensures SameItem(a[s[j]], b[t[j]]) && a[s[j]].total == b[t[j]].total
    {
      assert Twins(order, made, k, s[j], t[j]);
      var c :| k < c < |order| && c < |made| && s[j] == order[c] && t[j] == made[c];
      SameWeights(a, b, order, made, f, c);
    }
    SameSum(a, b, s, t, f);
  }

  ghost predicate SlotsProper(itemList: seq<(int, Item)>, lo: int, hi: int) {
    && (forall i :: 0 <= i < |itemList| ==> lo <= itemList[i].0 < hi)
    && forall i, j :: 0 <= i < j < |itemList| ==> itemList[i].0 != itemList[j].0
  }

  lemma SavedIsKnown(types: ItemTypes, forms: Forms, a: Arena<Item>, rows: seq<Row>, order: seq<Item>,
                     tops: seq<(int, Item)>, getters: Item -> M.Getters)
    requires Saved(a, rows, order, tops) && Carried(rows, order, MarksOf(types, a, getters))
    requires forall x :: x in a ==> Typed(types, forms, a[x], getters(x))
    ensures AllKnown(forms, rows) && ParentsFirst(rows)
  {
    hide AttrsOf, Carried, MarksOf, M.CountComesBack;
    forall k | 0 <= k < |rows| ensures Known(forms, rows[k]) {
      assert Typed(types, forms, a[order[k]], getters(order[k]));
      CarriedIsRead(types, forms, a, rows, order, getters, k);
    }
  }

  /** Every slot or depot gets the copy of its own item back, and no other place is filled. */
  lemma SlotsBack(types: ItemTypes, forms: Forms, a: Arena<Item>, rows: seq<Row>, order: seq<Item>, made: seq<Item>,
                  itemList: seq<(int, Item)>, lo: int, hi: int, depots: bool, tops: map<int, Item>)
    requires Saved(a, rows, order, itemList) && |made| == |rows| && hi <= LAST_SLOT_ID + 1
    requires SlotsProper(itemList, lo, hi)
    requires depots ==> forall i :: 0 <= i < |itemList| ==> itemList[i].1 in a && IsDepot(forms, a[itemList[i].1].id)
    requires Filled(forms, rows, made, 0, lo, hi, depots, tops)
    ensures |itemList| <= |made|
    ensures forall i :: 0 <= i < |itemList| ==> itemList[i].0 in tops && tops[itemList[i].0] == made[i]
    ensures forall pid :: pid in tops ==> exists i :: 0 <= i < |itemList| && itemList[i].0 == pid
  {
    hide Written;
    assert Describes(a, rows, order) by { WrittenDescribes(a, rows, order); }
    forall i | 0 <= i < |itemList|
      ensures IsTop(forms, rows[i], lo, hi, depots) && rows[i].pid == itemList[i].0
    {
      assert order[i] == itemList[i].1;
    }
    forall k | 0 <= k < |rows| && IsTop(forms, rows[k], lo, hi, depots) ensures k < |itemList| {}
    forall i | 0 <= i < |itemList|
      ensures itemList[i].0 in tops && tops[itemList[i].0] == made[i]
    {
      var k :| 0 <= k < |rows| && IsTop(forms, rows[k], lo, hi, depots) && rows[k].pid == itemList[i].0
               && tops[itemList[i].0] == made[k]
               && forall j :: k < j < |rows| && IsTop(forms, rows[j], lo, hi, depots) ==> rows[j].pid != itemList[i].0;
      assert rows[k].pid == itemList[k].0;
    }
    forall pid | pid in tops
      ensures exists i :: 0 <= i < |itemList| && itemList[i].0 == pid
    {
      var k :| 0 <= k < |rows| && IsTop(forms, rows[k], lo, hi, depots) && rows[k].pid == pid;
      assert itemList[k].0 == pid;
    }
  }

  lemma WrittenDescribes(a: Arena<Item>, rows: seq<Row>, order: seq<Item>)
    requires Written(a, rows, order, |order|)
    ensures Describes(a, rows, order)
  {
  }

  /**
   Saving and loading: inventories (slots 1 to 10) and depots (0 to 99) alike. The forest that comes
   back is like the one that was saved, down to the cached weights, and sits in the same slots.
   */
  method SaveThenLoad(itemList: seq<(int, Item)>, lo: int, hi: int, depots: bool, types: ItemTypes, forms: Forms,
                      getters: Item -> M.Getters, ghost S: set<Item>)
      returns (tops: map<int, Item>, marks: map<int, seq<M.Attr>>, ghost order: seq<Item>, ghost made: seq<Item>,
               ghost S': set<Item>)
    requires WellWeighed(Snap(S), WeightOf(types))
    requires forall x :: x in S ==> Typed(types, forms, x.AsNode(), getters(x))
    requires hi <= LAST_SLOT_ID + 1 && SlotsProper(itemList, lo, hi)
    requires forall i :: 0 <= i < |itemList| ==> itemList[i].1 in S && (depots ==> IsDepot(forms, itemList[i].1.id))
    ensures fresh(S') && WellWeighed(Snap(S'), WeightOf(types))
    ensures Snap(S) == old(Snap(S))
    ensures order == Order(Snap(S), itemList)
    ensures Alike(Snap(S), order, Snap(S'), made)
    ensures forall k :: 0 <= k < |order| ==>
              var x := order[k];
              && x in S && Sid(k) in marks
              && marks[Sid(k)] == M.KeptAll(M.Serialized(types(x.id), x.count, getters(x)))
              && M.BringsBack(types(x.id), getters(x), marks[Sid(k)])
    ensures forall k :: 0 <= k < |order| ==>
              order[k] in S && made[k] in S' && made[k].totalWeight == order[k].totalWeight
    ensures |itemList| <= |made|
    ensures forall i :: 0 <= i < |itemList| ==> itemList[i].0 in tops && tops[itemList[i].0] == made[i]
    ensures forall pid :: pid in tops ==> exists i :: 0 <= i < |itemList| && itemList[i].0 == pid
  {
    hide Linked, Acyclic, WellWeighed, WeightOf, Hanging, Filled, Loaded, ParentsFirst, Saved, Alike, AllKnown, Typed,
         Balanced, Order, M.BringsBack;
    ghost var a := Snap(S);
    WeighedIsSound(a, WeightOf(types));
    var rows;
    rows, order := SaveItems(itemList, types, getters, S);
    SavedIsKnown(types, forms, a, rows, order, itemList, getters);
    RowsNumbered(rows);
    var itemMap;
    itemMap, marks, made, S' := LoadItems(types, forms, rows);
    tops := HangUp(itemMap, lo, hi, depots, types, forms, rows, made, S');
    ghost var b := Snap(S');
    assert Snap(S) == a;
    WeighedIsSound(b, WeightOf(types));
    SavedIsWritten(a, rows, order, itemList);
    SameForest(types, forms, a, b, rows, order, made, getters);
    MarksAre(types, forms, a, rows, order, getters, marks);
    HangingSize(types, forms, rows, made, b);
    forall k | 0 <= k < |order|
      ensures order[k] in S && made[k] in S' && made[k].totalWeight == order[k].totalWeight
    {
      SameWeights(a, b, order, made, WeightOf(types), k);
      SnapNode(S, order[k]);
      SnapNode(S', made[k]);
    }
    SlotsBack(types, forms, a, rows, order, made, itemList, lo, hi, depots, tops);
  }

  lemma MarksAre(types: ItemTypes, forms: Forms, a: Arena<Item>, rows: seq<Row>, order: seq<Item>,
                 getters: Item -> M.Getters, marks: map<int, seq<M.Attr>>)
    requires Written(a, rows, order, |order|) && Carried(rows, order, MarksOf(types, a, getters))
    requires Marked(forms, rows, 0, marks)
    ensures forall k :: 0 <= k < |order| ==>
              && order[k] in a && Sid(k) in marks
              && var n := a[order[k]];
                 && marks[Sid(k)] == M.KeptAll(M.Serialized(types(n.id), n.count, getters(order[k])))
                 && M.BringsBack(types(n.id), getters(order[k]), marks[Sid(k)])
  {
    hide AttrsOf, Carried, MarksOf, M.KeptAll, M.Serialized, M.BringsBack, Known;
    forall k | 0 <= k < |order|
      ensures && order[k] in a && Sid(k) in marks
              && var n := a[order[k]];
                 && marks[Sid(k)] == M.KeptAll(M.Serialized(types(n.id), n.count, getters(order[k])))
                 && M.BringsBack(types(n.id), getters(order[k]), marks[Sid(k)])
    {
      var n := a[order[k]];
      M.GettersBack(types(n.id), n.count, getters(order[k]));
      CarriedIsRead(types, forms, a, rows, order, getters, k);
    }
  }

  lemma RowsNumbered(rows: seq<Row>)
    requires ParentsFirst(rows)
    ensures forall i :: 0 <= i < |rows| ==> rows[i].sid == Sid(i)
  {
  }

  lemma SavedIsWritten(a: Arena<Item>, rows: seq<Row>, order: seq<Item>, tops: seq<(int, Item)>)
    requires Saved(a, rows, order, tops)
    ensures Written(a, rows, order, |order|) && |rows| == |order|
  {
  }
}
