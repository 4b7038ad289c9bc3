/** Moving quantities between containers: how the shifts of single operations add up. */
module Transfers {
  import opened Wrappers
  import opened Forest

  /** A leaf that is in no container yet. */
  predicate Loose<R>(n: Node<R>) {
    n.parent.None? && n.items == [] && n.total == 0
  }

  /** Every container line of a is a container line of b. */
  ghost predicate SameLines<R>(a: Arena<R>, b: Arena<R>, c: R)
    requires Acyclic(a) && Acyclic(b) && c in a && c in b
  {
    forall t :: t in a ==> AtOrAbove(b, t, c) == AtOrAbove(a, t, c)
  }

  lemma {:induction false} ParentsDecideR<R>(a: Arena<R>, r: Ranking<R>, b: Arena<R>, s: Ranking<R>, t: R, c: R)
    requires IsRanking(a, r) && IsRanking(b, s) && a.Keys <= b.Keys && c in a
    requires forall y :: y in a ==> b[y].parent == a[y].parent
    ensures AtOrAboveR(b, s, t, c) == AtOrAboveR(a, r, t, c)
    decreases r.bound - r.of[c]
  {
    if t != c && a[c].parent.Some? {
      ParentsDecideR(a, r, b, s, t, a[c].parent.value);
    }
  }

  /** Lines depend on parents only. */
  lemma ParentsDecide<R>(a: Arena<R>, b: Arena<R>, c: R)
    requires Acyclic(a) && Acyclic(b) && a.Keys <= b.Keys && c in a
    requires forall y :: y in a ==> b[y].parent == a[y].parent
    ensures SameLines(a, b, c)
  {
    forall t | t in a ensures AtOrAbove(b, t, c) == AtOrAbove(a, t, c) {
      ParentsDecideR(a, Rank(a), b, Rank(b), t, c);
    }
  }

  // ---------------------------------------------------------------------------------------
  // A new item

  lemma ExtendSound<R>(a: Arena<R>, x: R, n: Node<R>)
    requires Sound(a) && x !in a && Loose(n)
    ensures Sound(a[x := n])
  {
    var r := Rank(a);
    ExtendRanked(a, x, n, r);
  }

  lemma ExtendRanked<R>(a: Arena<R>, x: R, n: Node<R>, r: Ranking<R>)
    requires Linked(a) && IsRanking(a, r) && x !in a && Loose(n)
    ensures IsRanking(a[x := n], Ranking(r.of[x := 0], r.bound)) && Linked(a[x := n])
  {
    hide Linked;
    ExtendLinked(a, x, n);
  }

  lemma ExtendLinked<R>(a: Arena<R>, x: R, n: Node<R>)
    requires Linked(a) && x !in a && Loose(n)
    ensures Linked(a[x := n])
  {
  }

  /** A loose new item changes no sum. */
  lemma {:induction false} ExtendSums<R>(a: Arena<R>, x: R, n: Node<R>, g: Measure)
    requires Sound(a) && x !in a && Loose(n)
    ensures Sound(a[x := n])
    ensures forall t :: t in a ==> Below(a[x := n], t, g) == Below(a, t, g)
    ensures Below(a[x := n], x, g) == 0
  {
    ExtendSound(a, x, n);
    var b := a[x := n];
    var w := WithSums(a, g)[x := n];
    WithSumsBalanced(a, g);
    ExtendBalanced(a, x, n, g);
    forall t | t in b
      ensures w[t].total == Below(b, t, g)
    {
      BalancedIsBelowR(b, Rank(b), w, t, g);
    }
  }

  lemma ExtendSum<R>(v: Arena<R>, x: R, n: Node<R>, g: Measure, c: R)
    requires Linked(v) && x !in v && Loose(n) && c in v
    ensures forall y :: y in v[c].items ==> y in v
    ensures Sum(v[x := n], v[c].items, g) == Sum(v, v[c].items, g)
  {
    SumSame(v, v[x := n], v[c].items, g);
  }

  lemma ExtendBalanced<R>(a: Arena<R>, x: R, n: Node<R>, g: Measure)
    requires Sound(a) && x !in a && Loose(n)
    ensures var w := WithSums(a, g)[x := n];
            Linked(w) && Balanced(w, g) && SameShape(a[x := n], w)
  {
    hide Sum, Below, AtOrAbove, IsRanking, ParentsPoint, ListsProper;
    ExtendSound(a, x, n);
    WithSumsBalanced(a, g);
    var v, w := WithSums(a, g), WithSums(a, g)[x := n];
    SameShapeKeeps(a[x := n], w, Rank(a[x := n]));
    forall c | c in a
      ensures (forall y :: y in v[c].items ==> y in v) && Sum(w, v[c].items, g) == Sum(v, v[c].items, g)
    {
      ExtendSum(v, x, n, g, c);
    }
    EmptySum(w, g);
  }

  lemma EmptySum<R>(a: Arena<R>, g: Measure)
    ensures Sum(a, [], g) == 0
  {
  }

  lemma ExtendWeighed<R>(a: Arena<R>, x: R, n: Node<R>, f: Measure)
    requires WellWeighed(a, f) && x !in a && Loose(n)
    ensures WellWeighed(a[x := n], f)
  {
    ExtendSums(a, x, n, f);
  }

  /** A loose new item may be put into any container. */
  lemma ExtendFits<R>(a: Arena<R>, x: R, n: Node<R>, c: R)
    requires Sound(a) && x !in a && Loose(n) && c in a && a[c].isContainer
    ensures Fits(a[x := n], c, x)
  {
    ExtendSound(a, x, n);
    var b := a[x := n];
    if AtOrAbove(b, x, c) {
      ChildOnTheWay(b, Rank(b), x, c);
    }
  }

  lemma ChildOnTheWay<R>(a: Arena<R>, r: Ranking<R>, t: R, c: R)
    requires Linked(a) && IsRanking(a, r) && c in a && t != c && AtOrAboveR(a, r, t, c)
    ensures t in a && a[t].items != []
    decreases r.bound - r.of[c]
  {
    var p := a[c].parent.value;
    if p != t {
      ChildOnTheWay(a, r, t, p);
    }
  }

  // ---------------------------------------------------------------------------------------
  // Putting shifts together

  /** d units under g went from one container to another; each container above them saw just that. */
  ghost predicate Transferred<R>(a: Arena<R>, b: Arena<R>, g: Measure, from: R, to: R, d: int) {
    && Sound(a) && Sound(b) && a.Keys <= b.Keys && from in a && to in a
    && forall t :: t in a ==>
         Below(b, t, g) == Below(a, t, g)
                         - (if AtOrAbove(a, t, from) then d else 0)
                         + (if AtOrAbove(a, t, to) then d else 0)
  }

  /** As Shifted, when new items may have come up. */
  ghost predicate Gained<R>(a: Arena<R>, b: Arena<R>, g: Measure, c: R, d: int) {
    && Sound(a) && Sound(b) && a.Keys <= b.Keys && c in a
    && forall t :: t in a ==> Below(b, t, g) == Below(a, t, g) + (if AtOrAbove(a, t, c) then d else 0)
  }

  lemma GainTwice<R>(a: Arena<R>, b: Arena<R>, e: Arena<R>, g: Measure, c: R, d: int, d': int)
    requires Gained(a, b, g, c, d) && Gained(b, e, g, c, d') && SameLines(a, b, c)
    ensures Gained(a, e, g, c, d + d')
  {
    hide AtOrAbove, Below, Linked, Acyclic;
  }

  lemma LossThenGain<R>(a: Arena<R>, b: Arena<R>, e: Arena<R>, g: Measure, from: R, to: R, d: int)
    requires Gained(a, b, g, from, -d) && Gained(b, e, g, to, d) && to in a && SameLines(a, b, to)
    ensures Transferred(a, e, g, from, to, d)
  {
    hide AtOrAbove, Below, Linked, Acyclic;
  }

  // ---------------------------------------------------------------------------------------
  // Stacks

  /** A measure that counts every unit of a stack alike: units of one type, coin values, and so on. */
  ghost predicate Additive(g: Measure) {
    forall id: nat, m: nat, n: nat :: g(id, m + n, false) == g(id, m, false) + g(id, n, false)
  }

  /** Units of one type. */
  function Units(k: nat): Measure {
    (id: nat, count: nat, isContainer: bool) => if id == k then count else 0
  }

  lemma UnitsAdditive(k: nat)
    ensures Additive(Units(k))
  {
  }

  /** From a to b, c gained n units of type id, whatever is measured; so did all that hold c. */
  ghost predicate GainedStack<R>(a: Arena<R>, b: Arena<R>, c: R, id: nat, n: int) {
    && Sound(a) && Sound(b) && a.Keys <= b.Keys && c in a
    && forall g: Measure :: Additive(g) ==>
         Gained(a, b, g, c, if n >= 0 then g(id, n, false) else -g(id, -n, false))
  }

  /** From a to b, n units of type id went from one container to the other. */
  ghost predicate MovedStack<R>(a: Arena<R>, b: Arena<R>, from: R, to: R, id: nat, n: nat) {
    forall g: Measure :: Additive(g) ==> Transferred(a, b, g, from, to, g(id, n, false))
  }

  /** From a to b, item and everything in it went from one container to the other. */
  ghost predicate MovedWhole<R>(a: Arena<R>, b: Arena<R>, from: R, to: R, item: R)
    requires Sound(a) && item in a
  {
    forall g: Measure :: Transferred(a, b, g, from, to, Own(g, a[item]) + Below(a, item, g))
  }

  /** A stack of the list grows or shrinks. */
  lemma ChangedStack<R>(a: Arena<R>, f: Measure, c: R, x: R, count: nat)
    requires Sound(a) && c in a && x in a[c].items && x in a && !a[x].isContainer
    ensures GainedStack(a, Changed(a, f, c, x, a[x].id, count), c, a[x].id, count - a[x].count)
  {
    hide Below, Linked, Acyclic, AtOrAbove, AddUp, Retype, Additive, Changed;
    var b := Changed(a, f, c, x, a[x].id, count);
    var n := count - a[x].count;
    ChangedShifts(a, f, c, x, a[x].id, count, Units(0));
    forall g: Measure | Additive(g)
      ensures Gained(a, b, g, c, if n >= 0 then g(a[x].id, n, false) else -g(a[x].id, -n, false))
    {
      ChangedShifts(a, f, c, x, a[x].id, count, g);
      CountChanged(g, a[x].id, a[x].count, count);
    }
  }

  lemma CountChanged(g: Measure, id: nat, was: nat, count: nat)
    requires Additive(g)
    ensures g(id, count, false) - g(id, was, false)
         == if count >= was then g(id, count - was, false) else -g(id, was - count, false)
  {
    assert count >= was ==> g(id, was + (count - was), false) == g(id, was, false) + g(id, count - was, false);
    assert count < was ==> g(id, count + (was - count), false) == g(id, count, false) + g(id, was - count, false);
  }

  /** A whole stack leaves the list. */
  lemma RemovedStack<R>(a: Arena<R>, f: Measure, c: R, x: R)
    requires Sound(a) && c in a && x in a[c].items && x in a && !a[x].isContainer && a[x].count > 0
    ensures GainedStack(a, Removed(a, f, c, x), c, a[x].id, 0 - a[x].count)
  {
    hide Below, Linked, Acyclic, AtOrAbove, AddUp, Unlink;
    LeafItem(a, x);
    RemovedShifts(a, f, c, x, Units(0));
    forall g: Measure | Additive(g)
      ensures Gained(a, Removed(a, f, c, x), g, c, -g(a[x].id, a[x].count, false))
    {
      RemovedShifts(a, f, c, x, g);
      LeafBelow(a, x, g);
    }
  }

  lemma LeafItem<R>(a: Arena<R>, x: R)
    requires Linked(a) && x in a && !a[x].isContainer
    ensures a[x].items == []
  {
  }

  /** A stack that is in no container joins the list. */
  lemma AddedStack<R>(a: Arena<R>, f: Measure, c: R, x: R)
    requires Fits(a, c, x) && !a[x].isContainer
    ensures GainedStack(a, Added(a, f, c, x), c, a[x].id, a[x].count)
  {
    hide Below, Linked, Acyclic, AtOrAbove, AddUp, Link;
    LeafItem(a, x);
    AddedShifts(a, f, c, x, Units(0));
    forall g: Measure | Additive(g)
      ensures Gained(a, Added(a, f, c, x), g, c, g(a[x].id, a[x].count, false))
    {
      AddedShifts(a, f, c, x, g);
      LeafBelow(a, x, g);
    }
  }

  /** A newly made stack joins the list. */
  lemma NewStack<R>(a: Arena<R>, f: Measure, c: R, x: R, n: Node<R>)
    requires Sound(a) && x !in a && Loose(n) && !n.isContainer && c in a && a[c].isContainer
    ensures Fits(a[x := n], c, x)
    ensures GainedStack(a, Added(a[x := n], f, c, x), c, n.id, n.count)
  {
    hide Below, Linked, Acyclic, AtOrAbove, Added;
    ExtendFits(a, x, n, c);
    ExtendSound(a, x, n);
    var e := a[x := n];
    var b := Added(e, f, c, x);
    AddedStack(e, f, c, x);
    forall g: Measure | Additive(g)
      ensures Gained(a, b, g, c, g(n.id, n.count, false))
    {
      ExtendSums(a, x, n, g);
      ExtendLines(a, x, n, c);
      assert Gained(e, b, g, c, g(n.id, n.count, false));
    }
  }

  lemma ExtendLines<R>(a: Arena<R>, x: R, n: Node<R>, c: R)
    requires Sound(a) && x !in a && Loose(n) && c in a
    ensures Sound(a[x := n]) && SameLines(a, a[x := n], c)
  {
    ExtendSound(a, x, n);
    ParentsDecide(a, a[x := n], c);
  }

  lemma StackTwice<R>(a: Arena<R>, b: Arena<R>, e: Arena<R>, c: R, id: nat, m: nat, n: nat)
    requires GainedStack(a, b, c, id, m) && GainedStack(b, e, c, id, n) && SameLines(a, b, c)
    ensures GainedStack(a, e, c, id, m + n)
  {
    hide Below, Linked, Acyclic, AtOrAbove, Gained, SameLines;
    forall g: Measure | Additive(g)
      ensures Gained(a, e, g, c, g(id, m + n, false))
    {
      GainTwice(a, b, e, g, c, g(id, m, false), g(id, n, false));
    }
  }

  lemma StackOver<R>(a: Arena<R>, b: Arena<R>, e: Arena<R>, from: R, to: R, id: nat, n: nat)
    requires n > 0
    requires GainedStack(a, b, from, id, 0 - n) && GainedStack(b, e, to, id, n) && to in a && SameLines(a, b, to)
    ensures MovedStack(a, e, from, to, id, n)
  {
    hide Below, Linked, Acyclic, AtOrAbove, Gained, SameLines, Transferred;
    forall g: Measure | Additive(g)
      ensures Transferred(a, e, g, from, to, g(id, n, false))
    {
      LossThenGain(a, b, e, g, from, to, g(id, n, false));
    }
  }

  /** Once x is out, the lines of all other containers are what they were, and x still fits to. */
  lemma RemovedLines<R>(a: Arena<R>, f: Measure, from: R, to: R, x: R)
    requires Sound(a) && from in a && x in a[from].items && x in a
    requires to in a && !AtOrAbove(a, x, to)
    ensures var b := Removed(a, f, from, x);
            && Sound(b) && b.Keys == a.Keys
            && SameLines(a, b, to) && SameLines(a, b, from)
            && !AtOrAbove(b, x, to)
            && b[x].parent.None? && b[to].isContainer == a[to].isContainer
  {
    hide Linked, Acyclic, AtOrAbove, Below, Removed;
    var b := Removed(a, f, from, x);
    ListedIsBelow(a, from, x);
    RemovedLinks(a, f, from, x);
    LinkAbove(a, b, to, x);
    LinkAbove(a, b, from, x);
  }

  /** Taking x out of its list cuts its link upwards and no other. */
  lemma RemovedLinks<R>(a: Arena<R>, f: Measure, from: R, x: R)
    requires Sound(a) && from in a && x in a[from].items && x in a
    ensures var b := Removed(a, f, from, x);
            && Sound(b) && b.Keys == a.Keys && b[x].parent.None?
            && forall y :: y in a ==> b[y].isContainer == a[y].isContainer && (y != x ==> b[y].parent == a[y].parent)
  {
    hide Linked, AtOrAbove, IsRanking, AddUp, Without;
    ListedIsBelow(a, from, x);
    UnlinkSound(a, from, x);
    var e, b := Unlink(a, from, x), Removed(a, f, from, x);
    SameShapeKeeps(e, b, Rank(e));
  }

  /** Under any measure, x weighs outside what it weighed inside, and goes from one to the other. */
  lemma WholeOverAt<R>(a: Arena<R>, f: Measure, from: R, to: R, x: R, g: Measure)
    requires Sound(a) && from in a && x in a[from].items && x in a && to in a
    requires Fits(Removed(a, f, from, x), to, x) && SameLines(a, Removed(a, f, from, x), to)
    ensures Transferred(a, Added(Removed(a, f, from, x), f, to, x), g, from, to, Own(g, a[x]) + Below(a, x, g))
  {
    hide Below, AtOrAbove, Linked, Acyclic, Removed, Added;
    var b := Removed(a, f, from, x);
    var d := Own(g, a[x]) + Below(a, x, g);
    RemovedShifts(a, f, from, x, g);
    AddedShifts(b, f, to, x, g);
    ListedIsBelow(a, from, x);
    RemovedNode(a, f, from, x);
    LossThenGain(a, b, Added(b, f, to, x), g, from, to, d);
  }

  /** Out of one container and into another, contents and all. */
  lemma WholeOver<R>(a: Arena<R>, f: Measure, from: R, to: R, x: R)
    requires Sound(a) && from in a && x in a[from].items && x in a
    requires to in a && a[to].isContainer && !AtOrAbove(a, x, to)
    ensures var b := Removed(a, f, from, x);
            Fits(b, to, x) && MovedWhole(a, Added(b, f, to, x), from, to, x)
  {
    hide Below, AtOrAbove, Linked, Acyclic, Removed, Added, SameLines, Transferred;
    RemovedLines(a, f, from, to, x);
    forall g: Measure
      ensures Transferred(a, Added(Removed(a, f, from, x), f, to, x), g, from, to, Own(g, a[x]) + Below(a, x, g))
    {
      WholeOverAt(a, f, from, to, x, g);
    }
  }

  /** Being taken out changes nothing about an item but its parent link. */
  lemma RemovedNode<R>(a: Arena<R>, f: Measure, c: R, x: R)
    requires Sound(a) && c in a && x in a[c].items && x in a && x != c
    ensures x in Removed(a, f, c, x)
    ensures Removed(a, f, c, x)[x] == a[x].(parent := None, total := Removed(a, f, c, x)[x].total)
  {
    hide Without, Linked;
    UnlinkSound(a, c, x);
  }

  /** What joining a list leaves alone. */
  lemma AddedNodes<R>(a: Arena<R>, f: Measure, c: R, x: R)
    requires Fits(a, c, x) && x != c
    ensures var b := Added(a, f, c, x);
            && b.Keys == a.Keys
            && b[c].items == [x] + a[c].items
            && (forall y :: y in a && y != c ==> b[y].items == a[y].items)
            && (forall y :: y in a && y != x ==> b[y].parent == a[y].parent)
            && (forall y :: y in a ==> b[y].id == a[y].id && b[y].count == a[y].count)
            && (forall y :: y in a ==> b[y].isContainer == a[y].isContainer && b[y].capacity == a[y].capacity)
  {
    hide Linked, Acyclic, AtOrAbove, AddUp;
    LinkSound(a, c, x);
  }
}
