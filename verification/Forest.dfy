/**
 Forests of items as values: who is in which container, and sums over everything below a
 container. The heap of Item objects is compared with these values; nothing here changes state.
 */
module Forest {
  import opened Wrappers

  /** What one item knows. total is the container's cached weight of its contents. */
  datatype Node<R> = Node(id: nat, count: nat, isContainer: bool, capacity: nat,
                          parent: Option<R>, items: seq<R>, total: int)

  type Arena<R> = map<R, Node<R>>

  /** A number for every item, larger for the parent than for the child. */
  datatype Ranking<R> = Ranking(of: map<R, nat>, bound: nat)

  /** What an item contributes by itself: a function of type, count and being a container. */
  type Measure = (nat, nat, bool) -> int

  function Own<R>(f: Measure, n: Node<R>): int {
    f(n.id, n.count, n.isContainer)
  }

  // ---------------------------------------------------------------------------------------
  // Shape

  /** What is in a list has that list's owner for parent. */
  ghost predicate ListsPoint<R>(a: Arena<R>) {
    forall c, x :: c in a && x in a[c].items ==> x in a && a[x].parent == Some(c)
  }

  /** What has a parent is in the parent's list. */
  ghost predicate ParentsPoint<R>(a: Arena<R>) {
    forall x :: x in a && a[x].parent.Some? ==> a[x].parent.value in a && x in a[a[x].parent.value].items
  }

  /** Nothing is twice in a list, and only containers have lists. */
  ghost predicate ListsProper<R>(a: Arena<R>) {
    forall c :: c in a ==> Distinct(a[c].items) && (a[c].items != [] ==> a[c].isContainer)
  }

  /** Lists and parent links agree; so every item is in at most one list, and there once. */
  ghost predicate Linked<R>(a: Arena<R>) {
    ListsPoint(a) && ParentsPoint(a) && ListsProper(a)
  }

  ghost predicate IsRanking<R>(a: Arena<R>, older r: Ranking<R>) {
    && r.of.Keys == a.Keys
    && (forall x :: x in a ==> r.of[x] <= r.bound)
    && (forall x :: x in a && a[x].parent.Some? ==>
          a[x].parent.value in a && r.of[x] < r.of[a[x].parent.value])
  }

  ghost predicate Acyclic<R>(a: Arena<R>) {
    exists r: Ranking<R> :: IsRanking(a, r)
  }

  ghost function Rank<R>(a: Arena<R>): (r: Ranking<R>)
    requires Acyclic(a)
    ensures IsRanking(a, r)
  {
    var r: Ranking<R> :| IsRanking(a, r); r
  }

  ghost predicate Sound<R>(a: Arena<R>) {
    Linked(a) && Acyclic(a)
  }

  /** t is c or holds c at some depth. */
  ghost predicate AtOrAboveR<R>(a: Arena<R>, r: Ranking<R>, t: R, c: R)
    requires IsRanking(a, r) && c in a
    decreases r.bound - r.of[c]
  {
    t == c || (a[c].parent.Some? && AtOrAboveR(a, r, t, a[c].parent.value))
  }

  ghost predicate AtOrAbove<R>(a: Arena<R>, t: R, c: R)
    requires Acyclic(a) && c in a
  {
    AtOrAboveR(a, Rank(a), t, c)
  }

  lemma {:induction false} AtOrAboveAny<R>(a: Arena<R>, r: Ranking<R>, s: Ranking<R>, t: R, c: R)
    requires IsRanking(a, r) && IsRanking(a, s) && c in a
    ensures AtOrAboveR(a, r, t, c) == AtOrAboveR(a, s, t, c)
    decreases r.bound - r.of[c]
  {
    if t != c && a[c].parent.Some? {
      AtOrAboveAny(a, r, s, t, a[c].parent.value);
    }
  }

  /** One step up. */
  lemma AtOrAboveStep<R>(a: Arena<R>, t: R, c: R)
    requires Acyclic(a) && c in a
    ensures a[c].parent.Some? ==> a[c].parent.value in a
    ensures AtOrAbove(a, t, c) <==> t == c || (a[c].parent.Some? && AtOrAbove(a, t, a[c].parent.value))
  {
  }

  // ---------------------------------------------------------------------------------------
  // Sums

  /** What a list of items weighs according to the cached totals. */
  ghost function Sum<R>(a: Arena<R>, s: seq<R>, f: Measure): int
    requires forall x :: x in s ==> x in a
  {
    if s == [] then 0 else Own(f, a[s[0]]) + a[s[0]].total + Sum(a, s[1..], f)
  }

  /** Every cached total is what its list says. */
  ghost predicate Balanced<R>(a: Arena<R>, f: Measure)
    requires Linked(a)
  {
    forall c :: c in a ==> a[c].total == Sum(a, a[c].items, f)
  }

  /** Every cached total is right, except that c's lacks d. */
  ghost predicate OffBy<R>(a: Arena<R>, f: Measure, c: R, d: int)
    requires Linked(a)
  {
    forall x :: x in a ==> a[x].total + (if x == c then d else 0) == Sum(a, a[x].items, f)
  }

  /** The sum of f over everything below c, at every depth. */
  ghost function BelowR<R>(a: Arena<R>, r: Ranking<R>, c: R, f: Measure): int
    requires Linked(a) && IsRanking(a, r) && c in a
    decreases r.of[c], |a[c].items| + 1
  {
    ListR(a, r, c, a[c].items, f)
  }

  ghost function ListR<R>(a: Arena<R>, r: Ranking<R>, c: R, s: seq<R>, f: Measure): int
    requires Linked(a) && IsRanking(a, r) && c in a
    requires forall x :: x in s ==> x in a[c].items
    decreases r.of[c], |s|
  {
    if s == [] then 0
    else
      assert s[0] in s && a[s[0]].parent == Some(c);
      Own(f, a[s[0]]) + BelowR(a, r, s[0], f) + ListR(a, r, c, s[1..], f)
  }

  ghost function Below<R>(a: Arena<R>, c: R, f: Measure): int
    requires Sound(a) && c in a
  {
    BelowR(a, Rank(a), c, f)
  }

  /** Correct local totals are the recursive sums: the only solution of the local equations. */
  lemma {:induction false} BalancedIsBelowR<R>(a: Arena<R>, r: Ranking<R>, b: Arena<R>, c: R, f: Measure)
    requires Linked(a) && IsRanking(a, r) && c in a
    requires Linked(b) && Balanced(b, f) && SameShape(a, b)
    ensures b[c].total == BelowR(a, r, c, f)
    decreases r.of[c], |a[c].items| + 1
  {
    ListIsSum(a, r, b, c, a[c].items, f);
  }

  lemma ListStep<R>(a: Arena<R>, r: Ranking<R>, c: R, s: seq<R>, f: Measure)
    requires Linked(a) && IsRanking(a, r) && c in a
    requires forall x :: x in s ==> x in a[c].items
    ensures forall x :: x in s ==> x in a
    ensures if s == [] then ListR(a, r, c, s, f) == 0
            else
              && r.of.Keys == a.Keys && r.of[s[0]] < r.of[c]
              && ListR(a, r, c, s, f) == Own(f, a[s[0]]) + BelowR(a, r, s[0], f) + ListR(a, r, c, s[1..], f)
  {
    hide ParentsPoint, ListsProper, Own, BelowR;
    if s != [] {
      assert s[0] in s && a[s[0]].parent == Some(c);
    }
  }

  lemma {:induction false} ListIsSum<R>(a: Arena<R>, r: Ranking<R>, b: Arena<R>, c: R, s: seq<R>, f: Measure)
    requires Linked(a) && IsRanking(a, r) && c in a
    requires Linked(b) && Balanced(b, f) && SameShape(a, b)
    requires forall x :: x in s ==> x in a[c].items
    ensures forall x :: x in s ==> x in b
    ensures Sum(b, s, f) == ListR(a, r, c, s, f)
    decreases r.of[c], |s|
  {
    hide Linked, IsRanking, Balanced, ListR, BelowR;
    ListStep(a, r, c, s, f);
    if s != [] {
      BalancedIsBelowR(a, r, b, s[0], f);
      ListIsSum(a, r, b, c, s[1..], f);
    }
  }

  /** The two arenas differ in cached totals at most. */
  ghost predicate SameShape<R>(a: Arena<R>, b: Arena<R>) {
    a.Keys == b.Keys && forall x :: x in a ==> b[x] == a[x].(total := b[x].total)
  }

  lemma SameShapeKeeps<R>(a: Arena<R>, b: Arena<R>, r: Ranking<R>)
    requires SameShape(a, b)
    ensures IsRanking(a, r) ==> IsRanking(b, r)
    ensures Linked(a) ==> Linked(b)
  {
  }

  lemma {:induction false} SameShapeAbove<R>(a: Arena<R>, b: Arena<R>, r: Ranking<R>, t: R, c: R)
    requires SameShape(a, b) && IsRanking(a, r) && IsRanking(b, r) && c in a
    ensures AtOrAboveR(a, r, t, c) == AtOrAboveR(b, r, t, c)
    decreases r.bound - r.of[c]
  {
    if t != c && a[c].parent.Some? {
      SameShapeAbove(a, b, r, t, a[c].parent.value);
    }
  }

  // ---------------------------------------------------------------------------------------
  // Adding to a container and to everything above it

  /** c and every container above it gain d; nothing else changes. */
  ghost function AddUp<R>(a: Arena<R>, c: R, d: int): (b: Arena<R>)
    requires Acyclic(a) && c in a
    ensures SameShape(a, b)
  {
    map t | t in a :: a[t].(total := a[t].total + (if AtOrAbove(a, t, c) then d else 0))
  }

  ghost function Bump<R>(a: Arena<R>, c: R, d: int): (b: Arena<R>)
    requires c in a
    ensures SameShape(a, b)
  {
    a[c := a[c].(total := a[c].total + d)]
  }

  lemma AboveIsHigher<R>(a: Arena<R>, r: Ranking<R>, t: R, c: R)
    requires IsRanking(a, r) && c in a && AtOrAboveR(a, r, t, c)
    ensures t in a && (t == c || r.of[c] < r.of[t])
    decreases r.bound - r.of[c]
  {
    if t != c {
      AboveIsHigher(a, r, t, a[c].parent.value);
    }
  }

  /** Raising a total moves no container. */
  lemma BumpAbove<R>(a: Arena<R>, c: R, d: int, t: R, x: R)
    requires Acyclic(a) && c in a && x in a
    ensures Acyclic(Bump(a, c, d))
    ensures AtOrAbove(Bump(a, c, d), t, x) == AtOrAbove(a, t, x)
  {
    var b := Bump(a, c, d);
    SameShapeKeeps(a, b, Rank(a));
    AtOrAboveAny(b, Rank(b), Rank(a), t, x);
    SameShapeAbove(a, b, Rank(a), t, x);
  }

  /** No container is above itself. */
  lemma NotAboveParent<R>(a: Arena<R>, c: R)
    requires Acyclic(a) && c in a && a[c].parent.Some?
    ensures a[c].parent.value in a && !AtOrAbove(a, c, a[c].parent.value)
  {
    if AtOrAbove(a, c, a[c].parent.value) {
      AboveIsHigher(a, Rank(a), c, a[c].parent.value);
    }
  }

  /** The container whose total changes next when c's has changed by d, and the arena by then. */
  ghost function Next<R>(a: Arena<R>, c: R, d: int): (b: Arena<R>)
    requires Acyclic(a) && c in a
    ensures SameShape(a, b)
  {
    BumpAbove(a, c, d, c, c);
    if a[c].parent.Some? then AddUp(Bump(a, c, d), a[c].parent.value, d) else Bump(a, c, d)
  }

  lemma NextAt<R>(a: Arena<R>, c: R, d: int, t: R)
    requires Acyclic(a) && c in a && t in a
    ensures AddUp(a, c, d)[t].total == Next(a, c, d)[t].total
  {
    hide Acyclic, AtOrAbove;
    AtOrAboveStep(a, t, c);
    if a[c].parent.Some? {
      BumpAbove(a, c, d, t, a[c].parent.value);
      NotAboveParent(a, c);
    }
  }

  lemma ListedIsBelow<R>(a: Arena<R>, c: R, x: R)
    requires Sound(a) && c in a && x in a[c].items
    ensures x in a && x != c && a[x].parent == Some(c) && !AtOrAbove(a, x, c)
  {
    NotAboveParent(a, x);
    AtOrAboveStep(a, c, c);
  }

  /** The recursion of updateItemWeight: add here, then do the same from the parent on. */
  lemma AddUpStep<R>(a: Arena<R>, c: R, d: int)
    requires Acyclic(a) && c in a
    ensures AddUp(a, c, d) == Next(a, c, d)
  {
    hide AddUp, Next, Acyclic;
    forall t | t in a
      ensures AddUp(a, c, d)[t].total == Next(a, c, d)[t].total
    {
      NextAt(a, c, d, t);
    }
  }

  lemma {:induction false} SumChange<R>(a: Arena<R>, b: Arena<R>, s: seq<R>, f: Measure, c: R, d: int)
    requires forall x :: x in s ==> x in a && x in b
    requires Distinct(s)
    requires forall x :: x in s ==>
               Own(f, b[x]) + b[x].total == Own(f, a[x]) + a[x].total + (if x == c then d else 0)
    ensures Sum(b, s, f) == Sum(a, s, f) + (if c in s then d else 0)
  {
    if s != [] {
      SumChange(a, b, s[1..], f, c, d);
    }
  }

  /** Raising c by d is felt by the list c is in. */
  lemma BumpSum<R>(a: Arena<R>, f: Measure, c: R, d: int, x: R)
    requires Linked(a) && c in a && x in a
    ensures Linked(Bump(a, c, d))
    ensures Sum(Bump(a, c, d), a[x].items, f) == Sum(a, a[x].items, f) + (if a[c].parent == Some(x) then d else 0)
  {
    SumChange(a, Bump(a, c, d), a[x].items, f, c, d);
    hide Sum;
  }

  lemma BumpSound<R>(a: Arena<R>, c: R, d: int)
    requires Sound(a) && c in a
    ensures Sound(Bump(a, c, d))
  {
    hide Linked, IsRanking;
    SameShapeKeeps(a, Bump(a, c, d), Rank(a));
  }

  /** Raising c by d repairs c and leaves its parent short by d. */
  lemma BumpRepairs<R>(a: Arena<R>, f: Measure, c: R, d: int)
    requires Sound(a) && c in a && OffBy(a, f, c, d)
    ensures Sound(Bump(a, c, d))
    ensures a[c].parent.None? ==> Balanced(Bump(a, c, d), f)
    ensures a[c].parent.Some? ==> OffBy(Bump(a, c, d), f, a[c].parent.value, d)
  {
    hide Sum, Acyclic, ParentsPoint, ListsProper;
    BumpSound(a, c, d);
    forall x | x in a
      ensures Sum(Bump(a, c, d), a[x].items, f) == Sum(a, a[x].items, f) + (if a[c].parent == Some(x) then d else 0)
    {
      BumpSum(a, f, c, d, x);
    }
  }

  /** If only c's total is short, adding the missing amount upwards makes every total right. */
  lemma {:induction false} AddUpBalances<R>(a: Arena<R>, f: Measure, c: R, d: int)
    requires Sound(a) && c in a && OffBy(a, f, c, d)
    ensures Sound(AddUp(a, c, d)) && Balanced(AddUp(a, c, d), f)
  {
    AddUpBalancesR(a, Rank(a), f, c, d);
  }

  lemma {:induction false} AddUpBalancesR<R>(a: Arena<R>, r: Ranking<R>, f: Measure, c: R, d: int)
    requires Sound(a) && IsRanking(a, r) && c in a && OffBy(a, f, c, d)
    ensures Sound(AddUp(a, c, d)) && Balanced(AddUp(a, c, d), f)
    decreases r.bound - r.of[c]
  {
    AddUpStep(a, c, d);
    BumpRepairs(a, f, c, d);
    if a[c].parent.Some? {
      SameShapeKeeps(a, Bump(a, c, d), r);
      AddUpBalancesR(Bump(a, c, d), r, f, a[c].parent.value, d);
    }
  }

  // ---------------------------------------------------------------------------------------
  // What an edit does to recursive sums

  /** The arena with the recursive sums of f as totals. */
  ghost function WithSums<R>(a: Arena<R>, f: Measure): (b: Arena<R>)
    requires Sound(a)
    ensures SameShape(a, b)
  {
    map x | x in a :: a[x].(total := Below(a, x, f))
  }

  lemma {:induction false} ListOfSums<R>(a: Arena<R>, c: R, s: seq<R>, f: Measure)
    requires Sound(a) && c in a
    requires forall x :: x in s ==> x in a[c].items
    ensures forall x :: x in s ==> x in WithSums(a, f)
    ensures Sum(WithSums(a, f), s, f) == ListR(a, Rank(a), c, s, f)
  {
    if s != [] {
      assert s[0] in s && a[s[0]].parent == Some(c);
      ListOfSums(a, c, s[1..], f);
    }
  }

  lemma WithSumsBalanced<R>(a: Arena<R>, f: Measure)
    requires Sound(a)
    ensures Linked(WithSums(a, f)) && Balanced(WithSums(a, f), f)
  {
    SameShapeKeeps(a, WithSums(a, f), Rank(a));
    forall c | c in a {
      ListOfSums(a, c, a[c].items, f);
    }
  }

  /** Balanced totals are the recursive sums, at every level. */
  lemma BalancedIsBelow<R>(a: Arena<R>, f: Measure, c: R)
    requires Sound(a) && Balanced(a, f) && c in a
    ensures a[c].total == Below(a, c, f)
  {
    BalancedIsBelowR(a, Rank(a), a, c, f);
  }

  /**
   If the lists of e hold what the recursive sums of a say, except that c's list holds d more,
   then going from a to e raises the sum below c and below everything above c by d, and no other.
   */
  lemma BelowEdit<R>(a: Arena<R>, e: Arena<R>, f: Measure, c: R, d: int)
    requires Sound(a) && Sound(e) && a.Keys == e.Keys && c in a
    requires OffBy(Graft(e, WithSums(a, f)), f, c, d)
    ensures forall t :: t in a ==>
              Below(e, t, f) == Below(a, t, f) + (if AtOrAbove(e, t, c) then d else 0)
  {
    var g := Graft(e, WithSums(a, f));
    SameShapeKeeps(e, g, Rank(e));
    AddUpBalances(g, f, c, d);
    var b := AddUp(g, c, d);
    forall t | t in a
      ensures Below(e, t, f) == Below(a, t, f) + (if AtOrAbove(e, t, c) then d else 0)
    {
      BalancedIsBelowR(e, Rank(e), b, t, f);
      SameShapeAbove(e, g, Rank(e), t, c);
      AtOrAboveAny(g, Rank(g), Rank(e), t, c);
    }
  }

  /** The shape of e with the totals of b. */
  ghost function Graft<R>(e: Arena<R>, b: Arena<R>): (g: Arena<R>)
    requires e.Keys == b.Keys
    ensures SameShape(e, g)
    ensures Linked(e) ==> Linked(g)
  {
    map x | x in e :: e[x].(total := b[x].total)
  }

  // ---------------------------------------------------------------------------------------
  // Edits of the forest

  /** x goes to the front of c's list. */
  ghost function Link<R>(a: Arena<R>, c: R, x: R): (b: Arena<R>)
    requires c in a && x in a && c != x
    ensures b.Keys == a.Keys
  {
    a[x := a[x].(parent := Some(c))][c := a[c].(items := [x] + a[c].items)]
  }

  ghost function IndexOf<R>(s: seq<R>, x: R): (k: nat)
    requires x in s
    ensures k < |s| && s[k] == x && x !in s[..k]
  {
    if s[0] == x then 0 else 1 + IndexOf(s[1..], x)
  }

  ghost function Without<R>(s: seq<R>, x: R): seq<R>
    requires x in s
  {
    s[..IndexOf(s, x)] + s[IndexOf(s, x) + 1..]
  }

  /** x leaves c's list. */
  ghost function Unlink<R>(a: Arena<R>, c: R, x: R): (b: Arena<R>)
    requires c in a && x in a && c != x && x in a[c].items
    ensures b.Keys == a.Keys
  {
    a[x := a[x].(parent := None)][c := a[c].(items := Without(a[c].items, x))]
  }

  /** x becomes count units of type id. */
  ghost function Retype<R>(a: Arena<R>, x: R, id: nat, count: nat): (b: Arena<R>)
    requires x in a
    ensures b.Keys == a.Keys
  {
    a[x := a[x].(id := id, count := count)]
  }

  /** y takes x's place in c's list. */
  ghost function Swap<R>(a: Arena<R>, c: R, x: R, y: R): (b: Arena<R>)
    requires c in a && x in a && y in a && c != x && c != y && x != y && x in a[c].items
    ensures b.Keys == a.Keys
  {
    a[x := a[x].(parent := None)][y := a[y].(parent := Some(c))]
     [c := a[c].(items := a[c].items[IndexOf(a[c].items, x) := y])]
  }

  /** x may be put into c: it is in no container, c is one, and c is not inside x. */
  ghost predicate Fits<R>(a: Arena<R>, c: R, x: R) {
    && Sound(a) && c in a && x in a
    && a[x].parent.None? && a[c].isContainer && !AtOrAbove(a, x, c)
  }

  lemma FitsApart<R>(a: Arena<R>, c: R, x: R)
    requires Fits(a, c, x)
    ensures c != x && x !in a[c].items
  {
  }

  ghost function Load<R>(f: Measure, n: Node<R>): int {
    Own(f, n) + n.total
  }

  // -- soundness

  ghost function RaiseAbove<R>(a: Arena<R>, r: Ranking<R>, c: R, k: nat): Ranking<R>
    requires IsRanking(a, r) && c in a
  {
    Ranking(map t | t in a :: if AtOrAboveR(a, r, t, c) then r.of[t] + k else r.of[t], r.bound + k)
  }

  lemma {:induction false} AboveParent<R>(a: Arena<R>, r: Ranking<R>, t: R, c: R)
    requires IsRanking(a, r) && c in a && AtOrAboveR(a, r, t, c)
    ensures t in a
    ensures a[t].parent.Some? ==> AtOrAboveR(a, r, a[t].parent.value, c)
    decreases r.bound - r.of[c]
  {
    if t != c {
      AboveParent(a, r, t, a[c].parent.value);
    } else if a[c].parent.Some? {
      var p := a[c].parent.value;
      assert AtOrAboveR(a, r, p, p);
    }
  }

  lemma LinkAcyclic<R>(a: Arena<R>, c: R, x: R)
    requires Fits(a, c, x)
    ensures c != x && Acyclic(Link(a, c, x))
  {
    var r := Rank(a);
    var s := RaiseAbove(a, r, c, r.of[x] + 1);
    var b := Link(a, c, x);
    forall t | t in b && b[t].parent.Some?
      ensures b[t].parent.value in b && s.of[t] < s.of[b[t].parent.value]
    {
      if t == x {
        assert AtOrAboveR(a, r, c, c);
      } else if AtOrAboveR(a, r, t, c) {
        AboveParent(a, r, t, c);
      }
    }
    assert IsRanking(b, s);
  }

  lemma LinkSound<R>(a: Arena<R>, c: R, x: R)
    requires Fits(a, c, x)
    ensures c != x && Sound(Link(a, c, x))
  {
    hide Acyclic;
    LinkAcyclic(a, c, x);
    LinkPoints(a, c, x);
  }

  lemma LinkPoints<R>(a: Arena<R>, c: R, x: R)
    requires Linked(a) && c in a && x in a && c != x && a[x].parent.None? && a[c].isContainer
    ensures Linked(Link(a, c, x))
  {
    hide ListsPoint, ParentsPoint, ListsProper;
    LinkLists(a, c, x);
    LinkParents(a, c, x);
    LinkProper(a, c, x);
  }

  lemma LinkLists<R>(a: Arena<R>, c: R, x: R)
    requires ListsPoint(a) && c in a && x in a && c != x && a[x].parent.None?
    ensures ListsPoint(Link(a, c, x))
  {
  }

  lemma LinkParents<R>(a: Arena<R>, c: R, x: R)
    requires ParentsPoint(a) && c in a && x in a && c != x && a[x].parent.None?
    ensures ParentsPoint(Link(a, c, x))
  {
    var b := Link(a, c, x);
    forall y | y in b && b[y].parent.Some?
      ensures b[y].parent.value in b && y in b[b[y].parent.value].items
    {
    }
  }

  lemma LinkProper<R>(a: Arena<R>, c: R, x: R)
    requires ListsPoint(a) && ListsProper(a) && c in a && x in a && c != x && a[x].parent.None? && a[c].isContainer
    ensures ListsProper(Link(a, c, x))
  {
    assert x !in a[c].items;
  }

  lemma WithoutParts<R>(s: seq<R>, x: R)
    requires x in s && Distinct(s)
    ensures Distinct(Without(s, x))
    ensures forall y :: y in Without(s, x) <==> y in s && y != x
  {
    var k := IndexOf(s, x);
    assert s == s[..k] + [x] + s[k + 1..];
  }

  lemma UnlinkPoints<R>(a: Arena<R>, c: R, x: R)
    requires Linked(a) && c in a && x in a[c].items && x in a && x != c
    ensures Linked(Unlink(a, c, x))
  {
    hide ParentsPoint, Without;
    WithoutParts(a[c].items, x);
    UnlinkParents(a, c, x);
    UnlinkProper(a, c, x);
    assert ListsPoint(Unlink(a, c, x)) by { hide ListsProper; }
  }

  lemma UnlinkParents<R>(a: Arena<R>, c: R, x: R)
    requires ListsPoint(a) && ParentsPoint(a) && ListsProper(a)
    requires c in a && x in a[c].items && x in a && x != c
    ensures ParentsPoint(Unlink(a, c, x))
  {
    hide ListsPoint, ListsProper, Without;
    NothingTwice(a, c);
    WithoutParts(a[c].items, x);
  }

  lemma NothingTwice<R>(a: Arena<R>, c: R)
    requires ListsProper(a) && c in a
    ensures Distinct(a[c].items)
  {
  }

  lemma UnlinkProper<R>(a: Arena<R>, c: R, x: R)
    requires ListsProper(a)
    requires c in a && x in a[c].items && x in a && x != c
    ensures ListsProper(Unlink(a, c, x))
  {
    hide Without;
    WithoutParts(a[c].items, x);
  }

  lemma UnlinkSound<R>(a: Arena<R>, c: R, x: R)
    requires Sound(a) && c in a && x in a[c].items
    ensures x in a && x != c && Sound(Unlink(a, c, x))
  {
    hide Linked, Acyclic, AtOrAbove, IsRanking;
    ListedIsBelow(a, c, x);
    UnlinkPoints(a, c, x);
    UnlinkRanked(a, Rank(a), c, x);
    assert Acyclic(Unlink(a, c, x)) by { RankedIsAcyclic(Unlink(a, c, x), Rank(a)); }
  }

  lemma RankedIsAcyclic<R>(a: Arena<R>, r: Ranking<R>)
    requires IsRanking(a, r)
    ensures Acyclic(a)
  {
  }

  lemma UnlinkRanked<R>(a: Arena<R>, r: Ranking<R>, c: R, x: R)
    requires IsRanking(a, r) && c in a && x in a && c != x && x in a[c].items
    ensures IsRanking(Unlink(a, c, x), r)
  {
    hide Without;
  }

  lemma RetypeSound<R>(a: Arena<R>, x: R, id: nat, count: nat)
    requires Sound(a) && x in a
    ensures Sound(Retype(a, x, id, count))
  {
    hide Linked, IsRanking;
    RetypeLinked(a, x, id, count);
    RetypeRanked(a, Rank(a), x, id, count);
  }

  lemma RetypeLinked<R>(a: Arena<R>, x: R, id: nat, count: nat)
    requires Linked(a) && x in a
    ensures Linked(Retype(a, x, id, count))
  {
  }

  lemma RetypeRanked<R>(a: Arena<R>, r: Ranking<R>, x: R, id: nat, count: nat)
    requires IsRanking(a, r) && x in a
    ensures IsRanking(Retype(a, x, id, count), r)
  {
  }

  lemma SwapAcyclic<R>(a: Arena<R>, c: R, x: R, y: R)
    requires Fits(a, c, y) && x in a[c].items
    ensures x in a && c != x && c != y && x != y && Acyclic(Swap(a, c, x, y))
  {
    hide Linked, IsRanking, IndexOf;
    ListedIsBelow(a, c, x);
    FitsApart(a, c, y);
    SwapRanked(a, Rank(a), c, x, y);
  }

  lemma SwapRanked<R>(a: Arena<R>, r: Ranking<R>, c: R, x: R, y: R)
    requires IsRanking(a, r) && c in a && x in a && y in a && c != x && c != y && x != y
    requires x in a[c].items && a[y].parent.None? && !AtOrAboveR(a, r, y, c)
    ensures Acyclic(Swap(a, c, x, y))
  {
    hide IndexOf;
    var s := RaiseAbove(a, r, c, r.of[y] + 1);
    var b := Swap(a, c, x, y);
    forall t | t in b && b[t].parent.Some?
      ensures b[t].parent.value in b && s.of[t] < s.of[b[t].parent.value]
    {
      if t == y {
        assert AtOrAboveR(a, r, c, c);
      } else if AtOrAboveR(a, r, t, c) {
        AboveParent(a, r, t, c);
      }
    }
    assert IsRanking(b, s);
  }

  lemma PlaceParts<R>(s: seq<R>, x: R, y: R)
    requires x in s && y !in s && Distinct(s)
    ensures Distinct(s[IndexOf(s, x) := y])
    ensures forall z :: z in s[IndexOf(s, x) := y] <==> z == y || (z in s && z != x)
  {
    var k := IndexOf(s, x);
    var t := s[k := y];
    assert t[k] == y;
    forall z | z in s && z != x
      ensures z in t
    {
      var i :| 0 <= i < |s| && s[i] == z;
      assert t[i] == z;
    }
  }

  lemma SwapSound<R>(a: Arena<R>, c: R, x: R, y: R)
    requires Fits(a, c, y) && x in a[c].items
    ensures x in a && c != x && c != y && x != y && Sound(Swap(a, c, x, y))
  {
    hide Acyclic, AtOrAbove, IndexOf, ListsPoint, ParentsPoint, ListsProper;
    SwapAcyclic(a, c, x, y);
    SwapPoints(a, c, x, y);
    SwapParents(a, c, x, y);
    SwapProper(a, c, x, y);
  }

  lemma SwapList<R>(a: Arena<R>, c: R, x: R, y: R)
    requires ListsPoint(a) && ListsProper(a)
    requires c in a && y in a && c != y && x in a[c].items && a[y].parent.None?
    ensures y !in a[c].items && Distinct(a[c].items)
    ensures var t := a[c].items[IndexOf(a[c].items, x) := y];
            Distinct(t) && forall z :: z in t <==> z == y || (z in a[c].items && z != x)
  {
    hide IndexOf;
    PlaceParts(a[c].items, x, y);
  }

  lemma SwapPoints<R>(a: Arena<R>, c: R, x: R, y: R)
    requires ListsPoint(a) && ListsProper(a)
    requires c in a && x in a && y in a && c != x && c != y && x != y && x in a[c].items && a[y].parent.None?
    ensures ListsPoint(Swap(a, c, x, y))
  {
    hide ListsProper, IndexOf;
    SwapList(a, c, x, y);
  }

  lemma SwapParents<R>(a: Arena<R>, c: R, x: R, y: R)
    requires ListsPoint(a) && ParentsPoint(a) && ListsProper(a)
    requires c in a && x in a && y in a && c != x && c != y && x != y && x in a[c].items && a[y].parent.None?
    ensures ParentsPoint(Swap(a, c, x, y))
  {
    hide ListsPoint, ListsProper, IndexOf;
    SwapList(a, c, x, y);
  }

  lemma SwapProper<R>(a: Arena<R>, c: R, x: R, y: R)
    requires ListsPoint(a) && ListsProper(a)
    requires c in a && x in a && y in a && c != x && c != y && x != y && x in a[c].items && a[y].parent.None?
    ensures ListsProper(Swap(a, c, x, y))
  {
    hide ListsPoint, IndexOf;
    SwapList(a, c, x, y);
  }

  // -- sums

  /** A list none of whose members changed weighs the same. */
  lemma {:induction false} SumSame<R>(a: Arena<R>, b: Arena<R>, s: seq<R>, f: Measure)
    requires forall x :: x in s ==> x in a && x in b && Load(f, a[x]) == Load(f, b[x])
    ensures Sum(b, s, f) == Sum(a, s, f)
  {
    if s != [] {
      SumSame(a, b, s[1..], f);
    }
  }

  lemma {:induction false} SumConcat<R>(a: Arena<R>, s: seq<R>, t: seq<R>, f: Measure)
    requires forall x :: x in s + t ==> x in a
    ensures (forall x :: x in s ==> x in a) && (forall x :: x in t ==> x in a)
    ensures Sum(a, s + t, f) == Sum(a, s, f) + Sum(a, t, f)
  {
    forall x | x in s ensures x in a { assert x in s + t; }
    forall x | x in t ensures x in a { assert x in s + t; }
    if s == [] {
      assert s + t == t;
    } else {
      assert (s + t)[1..] == s[1..] + t;
      SumConcat(a, s[1..], t, f);
    }
  }

  lemma SumWithout<R>(a: Arena<R>, s: seq<R>, x: R, f: Measure)
    requires x in s && forall y :: y in s ==> y in a
    ensures forall y :: y in Without(s, x) ==> y in a
    ensures Sum(a, Without(s, x), f) == Sum(a, s, f) - Load(f, a[x])
  {
    var k := IndexOf(s, x);
    assert s == s[..k] + ([x] + s[k + 1..]);
    SumConcat(a, s[..k], [x] + s[k + 1..], f);
    SumConcat(a, [x], s[k + 1..], f);
    SumConcat(a, s[..k], s[k + 1..], f);
  }

  lemma SumPlaced<R>(a: Arena<R>, s: seq<R>, x: R, y: R, f: Measure)
    requires x in s && y in a && forall z :: z in s ==> z in a
    ensures forall z :: z in s[IndexOf(s, x) := y] ==> z in a
    ensures Sum(a, s[IndexOf(s, x) := y], f) == Sum(a, s, f) - Load(f, a[x]) + Load(f, a[y])
  {
    var k := IndexOf(s, x);
    assert s[k := y] == s[..k] + ([y] + s[k + 1..]);
    assert s == s[..k] + ([x] + s[k + 1..]);
    SumConcat(a, s[..k], [x] + s[k + 1..], f);
    SumConcat(a, [x], s[k + 1..], f);
    SumConcat(a, s[..k], [y] + s[k + 1..], f);
    SumConcat(a, [y], s[k + 1..], f);
  }

  // -- how far an edit puts the totals off

  lemma LinkSum<R>(a: Arena<R>, f: Measure, c: R, x: R, t: R)
    requires ListsPoint(a) && c in a && x in a && c != x && t in a
    ensures var b := Link(a, c, x);
            && (forall y :: y in b[t].items ==> y in b)
            && Sum(b, b[t].items, f) == Sum(a, a[t].items, f) + (if t == c then Load(f, a[x]) else 0)
  {
    var b := Link(a, c, x);
    SumSame(a, b, a[t].items, f);
    if t == c { assert b[c].items[1..] == a[c].items; }
  }

  lemma LinkOffBy<R>(a: Arena<R>, f: Measure, c: R, x: R)
    requires Fits(a, c, x) && Balanced(a, f)
    ensures c != x && Sound(Link(a, c, x)) && OffBy(Link(a, c, x), f, c, Load(f, a[x]))
  {
    hide Sum, Acyclic, Load, ParentsPoint, ListsProper;
    LinkSound(a, c, x);
    forall t | t in a
      ensures var b := Link(a, c, x);
              && (forall y :: y in b[t].items ==> y in b)
              && Sum(b, b[t].items, f) == Sum(a, a[t].items, f) + (if t == c then Load(f, a[x]) else 0)
    {
      LinkSum(a, f, c, x, t);
    }
  }

  lemma UnlinkSum<R>(a: Arena<R>, f: Measure, c: R, x: R, t: R)
    requires Linked(a) && c in a && x in a && c != x && t in a && x in a[c].items
    ensures var b := Unlink(a, c, x);
            && (forall y :: y in b[t].items ==> y in b)
            && Sum(b, b[t].items, f) == Sum(a, a[t].items, f) - (if t == c then Load(f, a[x]) else 0)
  {
    hide ParentsPoint, IndexOf, Without;
    var b := Unlink(a, c, x);
    if t == c {
      SumWithout(a, a[c].items, x, f);
      WithoutParts(a[c].items, x);
    }
    SumSame(a, b, b[t].items, f);
  }

  lemma UnlinkOffBy<R>(a: Arena<R>, f: Measure, c: R, x: R)
    requires Sound(a) && c in a && x in a[c].items && Balanced(a, f)
    ensures x in a && x != c && Sound(Unlink(a, c, x)) && OffBy(Unlink(a, c, x), f, c, -Load(f, a[x]))
  {
    hide Sum, Acyclic, Load, ParentsPoint, ListsProper, Without, IndexOf;
    UnlinkSound(a, c, x);
    forall t | t in a
      ensures var b := Unlink(a, c, x);
              && (forall y :: y in b[t].items ==> y in b)
              && Sum(b, b[t].items, f) == Sum(a, a[t].items, f) - (if t == c then Load(f, a[x]) else 0)
    {
      UnlinkSum(a, f, c, x, t);
    }
  }

  lemma RetypeSum<R>(a: Arena<R>, f: Measure, x: R, id: nat, count: nat, t: R)
    requires Linked(a) && x in a && t in a
    ensures var b := Retype(a, x, id, count);
            var d := f(id, count, a[x].isContainer) - Own(f, a[x]);
            && (forall y :: y in a[t].items ==> y in a && y in b)
            && Sum(b, a[t].items, f) == Sum(a, a[t].items, f) + (if a[x].parent == Some(t) then d else 0)
  {
    hide Sum;
    SumChange(a, Retype(a, x, id, count), a[t].items, f, x, f(id, count, a[x].isContainer) - Own(f, a[x]));
  }

  lemma RetypeOffBy<R>(a: Arena<R>, f: Measure, x: R, id: nat, count: nat)
    requires Sound(a) && x in a && Balanced(a, f)
    ensures Sound(Retype(a, x, id, count))
    ensures a[x].parent.None? ==> Balanced(Retype(a, x, id, count), f)
    ensures a[x].parent.Some? ==>
              OffBy(Retype(a, x, id, count), f, a[x].parent.value, f(id, count, a[x].isContainer) - Own(f, a[x]))
  {
    hide Sum, Acyclic, Own, ParentsPoint, ListsProper;
    RetypeSound(a, x, id, count);
    var d := f(id, count, a[x].isContainer) - Own(f, a[x]);
    forall t | t in a
      ensures var b := Retype(a, x, id, count);
              && (forall y :: y in a[t].items ==> y in a && y in b)
              && Sum(b, a[t].items, f) == Sum(a, a[t].items, f) + (if a[x].parent == Some(t) then d else 0)
    {
      RetypeSum(a, f, x, id, count, t);
    }
  }

  lemma SwapSum<R>(a: Arena<R>, f: Measure, c: R, x: R, y: R, t: R)
    requires Fits(a, c, y) && x in a[c].items && t in a
    requires x in a && c != x && c != y && x != y
    ensures var b := Swap(a, c, x, y);
            && (forall z :: z in b[t].items ==> z in b)
            && Sum(b, b[t].items, f)
            == Sum(a, a[t].items, f) + (if t == c then Load(f, a[y]) - Load(f, a[x]) else 0)
  {
    hide ParentsPoint, ListsProper, IndexOf, Acyclic, AtOrAbove, Sum;
    var b := Swap(a, c, x, y);
    if t == c {
      SumPlaced(a, a[c].items, x, y, f);
    }
    SumSame(a, b, b[t].items, f);
  }

  lemma SwapOffBy<R>(a: Arena<R>, f: Measure, c: R, x: R, y: R)
    requires Fits(a, c, y) && x in a[c].items && Balanced(a, f)
    ensures x in a && c != x && c != y && x != y && Sound(Swap(a, c, x, y))
    ensures OffBy(Swap(a, c, x, y), f, c, Load(f, a[y]) - Load(f, a[x]))
  {
    hide Sum, Acyclic, Load, ParentsPoint, ListsProper, IndexOf;
    SwapSound(a, c, x, y);
    forall t | t in a
      ensures var b := Swap(a, c, x, y);
              && (forall z :: z in b[t].items ==> z in b)
              && Sum(b, b[t].items, f)
              == Sum(a, a[t].items, f) + (if t == c then Load(f, a[y]) - Load(f, a[x]) else 0)
    {
      SwapSum(a, f, c, x, y, t);
    }
  }

  // ---------------------------------------------------------------------------------------
  // The container operations, with the cached totals brought up to date

  ghost function Added<R>(a: Arena<R>, f: Measure, c: R, x: R): Arena<R>
    requires Fits(a, c, x)
  {
    LinkSound(a, c, x);
    AddUp(Link(a, c, x), c, Load(f, a[x]))
  }

  ghost function Removed<R>(a: Arena<R>, f: Measure, c: R, x: R): Arena<R>
    requires Sound(a) && c in a && x in a[c].items
  {
    UnlinkSound(a, c, x);
    AddUp(Unlink(a, c, x), c, -Load(f, a[x]))
  }

  ghost function Changed<R>(a: Arena<R>, f: Measure, c: R, x: R, id: nat, count: nat): Arena<R>
    requires Sound(a) && c in a && x in a[c].items
  {
    RetypeSound(a, x, id, count);
    AddUp(Retype(a, x, id, count), c, f(id, count, a[x].isContainer) - Own(f, a[x]))
  }

  ghost function Replaced<R>(a: Arena<R>, f: Measure, c: R, x: R, y: R): Arena<R>
    requires Fits(a, c, y) && x in a[c].items
  {
    SwapSound(a, c, x, y);
    AddUp(Swap(a, c, x, y), c, Load(f, a[y]) - Load(f, a[x]))
  }

  /** A sound forest whose every cached weight is the recursive sum of what is inside. */
  ghost predicate WellWeighed<R>(a: Arena<R>, f: Measure) {
    Sound(a) && forall c :: c in a ==> a[c].total == Below(a, c, f)
  }

  lemma WeighedIsBalanced<R>(a: Arena<R>, f: Measure)
    requires Sound(a)
    ensures WellWeighed(a, f) <==> Balanced(a, f)
  {
    if Balanced(a, f) {
      forall c | c in a ensures a[c].total == Below(a, c, f) { BalancedIsBelow(a, f, c); }
    }
    if WellWeighed(a, f) {
      WithSumsBalanced(a, f);
      assert WithSums(a, f) == a;
    }
  }

  lemma WeighedIsSound<R>(a: Arena<R>, f: Measure)
    requires WellWeighed(a, f)
    ensures Sound(a) && Balanced(a, f)
  {
    WeighedIsBalanced(a, f);
  }

  lemma RepairedIsWeighed<R>(e: Arena<R>, f: Measure, c: R, d: int)
    requires Sound(e) && c in e && OffBy(e, f, c, d)
    ensures WellWeighed(AddUp(e, c, d), f)
  {
    AddUpBalances(e, f, c, d);
    WeighedIsBalanced(AddUp(e, c, d), f);
  }

  lemma AddedKeepsWeights<R>(a: Arena<R>, f: Measure, c: R, x: R)
    requires WellWeighed(a, f) && Fits(a, c, x)
    ensures WellWeighed(Added(a, f, c, x), f)
  {
    hide OffBy, Balanced, AddUp, WellWeighed, Link, Linked, Acyclic, AtOrAbove;
    WeighedIsSound(a, f);
    LinkOffBy(a, f, c, x);
    RepairedIsWeighed(Link(a, c, x), f, c, Load(f, a[x]));
  }

  lemma RemovedKeepsWeights<R>(a: Arena<R>, f: Measure, c: R, x: R)
    requires WellWeighed(a, f) && c in a && x in a[c].items
    ensures Sound(a) && WellWeighed(Removed(a, f, c, x), f)
  {
    hide OffBy, Balanced, AddUp, WellWeighed, Unlink, Linked, Acyclic, AtOrAbove;
    WeighedIsSound(a, f);
    UnlinkOffBy(a, f, c, x);
    RepairedIsWeighed(Unlink(a, c, x), f, c, -Load(f, a[x]));
  }

  lemma ChangedKeepsWeights<R>(a: Arena<R>, f: Measure, c: R, x: R, id: nat, count: nat)
    requires WellWeighed(a, f) && c in a && x in a[c].items
    ensures Sound(a) && WellWeighed(Changed(a, f, c, x, id, count), f)
  {
    hide OffBy, Balanced, AddUp, WellWeighed, Retype, Linked, Acyclic, AtOrAbove;
    WeighedIsSound(a, f);
    ListedIsBelow(a, c, x);
    RetypeOffBy(a, f, x, id, count);
    RepairedIsWeighed(Retype(a, x, id, count), f, c, f(id, count, a[x].isContainer) - Own(f, a[x]));
  }

  lemma ReplacedKeepsWeights<R>(a: Arena<R>, f: Measure, c: R, x: R, y: R)
    requires WellWeighed(a, f) && Fits(a, c, y) && x in a[c].items
    ensures WellWeighed(Replaced(a, f, c, x, y), f)
  {
    hide OffBy, Balanced, AddUp, WellWeighed, Swap, Linked, Acyclic, AtOrAbove;
    WeighedIsSound(a, f);
    SwapOffBy(a, f, c, x, y);
    RepairedIsWeighed(Swap(a, c, x, y), f, c, Load(f, a[y]) - Load(f, a[x]));
  }

  // ---------------------------------------------------------------------------------------
  // What the operations do to the recursive sum of any other measure

  lemma LeafBelow<R>(a: Arena<R>, x: R, g: Measure)
    requires Sound(a) && x in a && a[x].items == []
    ensures Below(a, x, g) == 0
  {
    var empty: seq<R> := [];
    assert ListR(a, Rank(a), x, empty, g) == 0;
  }

  /** Recursive sums do not depend on the cached totals. */
  lemma BelowShape<R>(a: Arena<R>, b: Arena<R>, g: Measure, t: R)
    requires Sound(a) && SameShape(a, b) && t in a
    ensures Sound(b) && Below(b, t, g) == Below(a, t, g)
  {
    SameShapeKeeps(a, b, Rank(a));
    WithSumsBalanced(a, g);
    BalancedIsBelowR(b, Rank(b), WithSums(a, g), t, g);
  }

  lemma {:induction false} MovedAboveR<R>(a: Arena<R>, r: Ranking<R>, b: Arena<R>, s: Ranking<R>, t: R, c: R,
                                          moved: set<R>)
    requires IsRanking(a, r) && IsRanking(b, s) && a.Keys == b.Keys && c in a
    requires forall y :: y in a && y !in moved ==> b[y].parent == a[y].parent
    requires forall x :: x in moved ==> !AtOrAboveR(a, r, x, c)
    ensures AtOrAboveR(b, s, t, c) == AtOrAboveR(a, r, t, c)
    decreases r.bound - r.of[c]
  {
    if t != c && a[c].parent.Some? {
      MovedAboveR(a, r, b, s, t, a[c].parent.value, moved);
    }
  }

  /** What is above c stays above c when only things that are not above c move. */
  lemma MovedAbove<R>(a: Arena<R>, b: Arena<R>, c: R, moved: set<R>)
    requires Acyclic(a) && Acyclic(b) && a.Keys == b.Keys && c in a
    requires forall y :: y in a && y !in moved ==> b[y].parent == a[y].parent
    requires forall x :: x in moved ==> !AtOrAbove(a, x, c)
    ensures forall t :: AtOrAbove(b, t, c) == AtOrAbove(a, t, c)
  {
    forall t ensures AtOrAbove(b, t, c) == AtOrAbove(a, t, c) {
      MovedAboveR(a, Rank(a), b, Rank(b), t, c, moved);
    }
  }

  lemma LinkAbove<R>(a: Arena<R>, b: Arena<R>, c: R, x: R)
    requires Acyclic(a) && Acyclic(b) && a.Keys == b.Keys && c in a && x in a
    requires forall y :: y in a && y != x ==> b[y].parent == a[y].parent
    requires !AtOrAbove(a, x, c)
    ensures forall t :: AtOrAbove(b, t, c) == AtOrAbove(a, t, c)
  {
    hide AtOrAbove, Acyclic;
    MovedAbove(a, b, c, {x});
  }

  /** c and everything above it gain d under g, and nothing else changes. */
  ghost predicate Shifted<R>(a: Arena<R>, b: Arena<R>, g: Measure, c: R, d: int) {
    && Sound(a) && Sound(b) && a.Keys == b.Keys && c in a
    && forall t :: t in a ==> Below(b, t, g) == Below(a, t, g) + (if AtOrAbove(a, t, c) then d else 0)
  }

  /** From a to b the cached weight of c and of everything above it grew by d, and no other. */
  ghost predicate Heavier<R>(a: Arena<R>, b: Arena<R>, c: R, d: int) {
    && Acyclic(a) && a.Keys <= b.Keys && c in a
    && forall t :: t in a ==> b[t].total == a[t].total + (if AtOrAbove(a, t, c) then d else 0)
  }

  lemma AddedIsHeavier<R>(a: Arena<R>, f: Measure, c: R, x: R)
    requires Fits(a, c, x)
    ensures Heavier(a, Added(a, f, c, x), c, Load(f, a[x]))
  {
    hide Linked, Acyclic, AtOrAbove, Load;
    LinkSound(a, c, x);
    MovedAbove(a, Link(a, c, x), c, {x});
  }

  lemma RemovedIsHeavier<R>(a: Arena<R>, f: Measure, c: R, x: R)
    requires Sound(a) && c in a && x in a[c].items
    ensures x in a && Heavier(a, Removed(a, f, c, x), c, -Load(f, a[x]))
  {
    hide Linked, Acyclic, AtOrAbove, Load, Without;
    UnlinkSound(a, c, x);
    ListedIsBelow(a, c, x);
    MovedAbove(a, Unlink(a, c, x), c, {x});
  }

  lemma ChangedIsHeavier<R>(a: Arena<R>, f: Measure, c: R, x: R, id: nat, count: nat)
    requires Sound(a) && c in a && x in a[c].items
    ensures x in a && Heavier(a, Changed(a, f, c, x, id, count), c, f(id, count, a[x].isContainer) - Own(f, a[x]))
  {
    hide Linked, Acyclic, AtOrAbove, Own;
    ListedIsBelow(a, c, x);
    RetypeSound(a, x, id, count);
    MovedAbove(a, Retype(a, x, id, count), c, {});
  }

  lemma ReplacedIsHeavier<R>(a: Arena<R>, f: Measure, c: R, x: R, y: R)
    requires Fits(a, c, y) && x in a[c].items
    ensures x in a && Heavier(a, Replaced(a, f, c, x, y), c, Load(f, a[y]) - Load(f, a[x]))
  {
    hide Linked, Acyclic, AtOrAbove, Load, IndexOf;
    SwapSound(a, c, x, y);
    FitsApart(a, c, y);
    ListedIsBelow(a, c, x);
    var b := Swap(a, c, x, y);
    assert forall z :: z in a && z !in {x, y} ==> b[z].parent == a[z].parent;
    MovedAbove(a, b, c, {x, y});
  }

  lemma EditShifts<R>(a: Arena<R>, e: Arena<R>, b: Arena<R>, g: Measure, c: R, x: R, d: int)
    requires Sound(a) && Sound(e) && a.Keys == e.Keys && SameShape(e, b) && c in a && x in a
    requires forall y :: y in a && y != x ==> e[y].parent == a[y].parent
    requires !AtOrAbove(a, x, c)
    requires OffBy(Graft(e, WithSums(a, g)), g, c, d)
    ensures Shifted(a, b, g, c, d)
  {
    hide OffBy, Linked, IsRanking, AtOrAbove, Below, Graft;
    BelowEdit(a, e, g, c, d);
    LinkAbove(a, e, c, x);
    BelowShape(e, b, g, c);
    forall t | t in a
      ensures Below(b, t, g) == Below(a, t, g) + (if AtOrAbove(a, t, c) then d else 0)
    {
      BelowShape(e, b, g, t);
    }
  }

  lemma SumsFit<R>(a: Arena<R>, g: Measure)
    requires Sound(a)
    ensures Sound(WithSums(a, g)) && Balanced(WithSums(a, g), g)
    ensures forall c, x :: c in a && x in a ==> AtOrAbove(WithSums(a, g), x, c) == AtOrAbove(a, x, c)
  {
    WithSumsBalanced(a, g);
    var b := WithSums(a, g);
    SameShapeKeeps(a, b, Rank(a));
    forall c, x | c in a && x in a
      ensures AtOrAbove(b, x, c) == AtOrAbove(a, x, c)
    {
      SameShapeAbove(a, b, Rank(a), x, c);
      AtOrAboveAny(b, Rank(b), Rank(a), x, c);
    }
  }

  lemma WithSumsSound<R>(a: Arena<R>, g: Measure)
    requires Sound(a)
    ensures Sound(WithSums(a, g))
  {
    hide Below;
    SameShapeKeeps(a, WithSums(a, g), Rank(a));
  }

  lemma LinkOffSums<R>(a: Arena<R>, g: Measure, c: R, x: R)
    requires Fits(a, c, x)
    ensures c != x && Sound(Link(a, c, x))
    ensures OffBy(Graft(Link(a, c, x), WithSums(a, g)), g, c, Own(g, a[x]) + Below(a, x, g))
  {
    hide OffBy, Balanced, IsRanking, AtOrAbove, Below, Linked;
    SumsFit(a, g);
    var w := WithSums(a, g);
    LinkOffBy(w, g, c, x);
    LinkSound(a, c, x);
    assert Graft(Link(a, c, x), w) == Link(w, c, x);
  }

  lemma UnlinkOffSums<R>(a: Arena<R>, g: Measure, c: R, x: R)
    requires Sound(a) && c in a && x in a[c].items
    ensures x in a && c != x && Sound(Unlink(a, c, x)) && !AtOrAbove(a, x, c)
    ensures OffBy(Graft(Unlink(a, c, x), WithSums(a, g)), g, c, -(Own(g, a[x]) + Below(a, x, g)))
  {
    hide OffBy, Balanced, IsRanking, AtOrAbove, Below, Linked, Without;
    SumsFit(a, g);
    var w := WithSums(a, g);
    UnlinkOffBy(w, g, c, x);
    UnlinkSound(a, c, x);
    assert Graft(Unlink(a, c, x), w) == Unlink(w, c, x);
    ListedIsBelow(a, c, x);
  }

  lemma RetypeOffSums<R>(a: Arena<R>, g: Measure, c: R, x: R, id: nat, count: nat)
    requires Sound(a) && x in a && a[x].parent == Some(c)
    ensures c in a && Sound(Retype(a, x, id, count)) && !AtOrAbove(a, x, c)
    ensures OffBy(Graft(Retype(a, x, id, count), WithSums(a, g)), g, c,
                  g(id, count, a[x].isContainer) - Own(g, a[x]))
  {
    hide OffBy, Balanced, Acyclic, AtOrAbove, Below, Linked, Rank, Retype, Graft, WithSums, Own;
    NotAboveParent(a, x);
    RetypeGraft(a, g, x, id, count);
    WithSumsBalanced(a, g);
    WithSumsSound(a, g);
    RetypeSound(a, x, id, count);
    RetypeOffBy(WithSums(a, g), g, x, id, count);
  }

  lemma RetypeGraft<R>(a: Arena<R>, g: Measure, x: R, id: nat, count: nat)
    requires Sound(a) && x in a
    ensures Graft(Retype(a, x, id, count), WithSums(a, g)) == Retype(WithSums(a, g), x, id, count)
    ensures WithSums(a, g)[x].parent == a[x].parent && WithSums(a, g)[x].isContainer == a[x].isContainer
    ensures Own(g, WithSums(a, g)[x]) == Own(g, a[x])
  {
    hide Below, Acyclic, Linked;
  }

  /** Putting x into c adds what x is and holds to c and to everything above it. */
  lemma AddedShifts<R>(a: Arena<R>, f: Measure, c: R, x: R, g: Measure)
    requires Fits(a, c, x)
    ensures Shifted(a, Added(a, f, c, x), g, c, Own(g, a[x]) + Below(a, x, g))
  {
    hide OffBy, Linked, Acyclic, AtOrAbove, Below, Graft, WithSums, AddUp;
    LinkOffSums(a, g, c, x);
    EditShifts(a, Link(a, c, x), Added(a, f, c, x), g, c, x, Own(g, a[x]) + Below(a, x, g));
  }

  /** Taking x out of c takes what x is and holds away from c and from everything above it. */
  lemma RemovedShifts<R>(a: Arena<R>, f: Measure, c: R, x: R, g: Measure)
    requires Sound(a) && c in a && x in a[c].items
    ensures x in a && Shifted(a, Removed(a, f, c, x), g, c, -(Own(g, a[x]) + Below(a, x, g)))
  {
    hide OffBy, Linked, Acyclic, AtOrAbove, Below, Graft, WithSums, AddUp, Without;
    UnlinkOffSums(a, g, c, x);
    EditShifts(a, Unlink(a, c, x), Removed(a, f, c, x), g, c, x, -(Own(g, a[x]) + Below(a, x, g)));
  }

  /** Changing type or count of x adds the difference to c and to everything above it. */
  lemma ChangedShifts<R>(a: Arena<R>, f: Measure, c: R, x: R, id: nat, count: nat, g: Measure)
    requires Sound(a) && c in a && x in a[c].items
    ensures x in a
    ensures Shifted(a, Changed(a, f, c, x, id, count), g, c, g(id, count, a[x].isContainer) - Own(g, a[x]))
  {
    hide OffBy, Linked, Acyclic, AtOrAbove, Below, Graft, WithSums, AddUp;
    ListedIsBelow(a, c, x);
    RetypeOffSums(a, g, c, x, id, count);
    EditShifts(a, Retype(a, x, id, count), Changed(a, f, c, x, id, count), g, c, x,
               g(id, count, a[x].isContainer) - Own(g, a[x]));
  }
}
