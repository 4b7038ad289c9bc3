/**
 The level-order walk over everything nested in a container: the order in which
 ContainerIterator visits items.
 */
module LevelOrder {
  import opened Wrappers
  import opened Forest

  /** Counts items. */
  function One(): Measure {
    (id: nat, count: nat, isContainer: bool) => 1
  }

  /** The members of a list that hold something. */
  ghost function Holders<R>(a: Arena<R>, s: seq<R>): (h: seq<R>)
    requires forall x :: x in s ==> x in a
    ensures forall x :: x in h ==> x in s && a[x].items != []
    ensures forall x :: x in s && a[x].items != [] ==> x in h
  {
    if s == [] then []
    else (if a[s[0]].items != [] then [s[0]] else []) + Holders(a, s[1..])
  }

  /** What is below the members of a list, per measure. */
  ghost function Total<R>(a: Arena<R>, q: seq<R>, f: Measure): int
    requires Sound(a) && forall c :: c in q ==> c in a
  {
    if q == [] then 0 else Below(a, q[0], f) + Total(a, q[1..], f)
  }

  lemma {:induction false} TotalConcat<R>(a: Arena<R>, q: seq<R>, s: seq<R>, f: Measure)
    requires Sound(a) && (forall c :: c in q ==> c in a) && (forall c :: c in s ==> c in a)
    ensures forall c :: c in q + s ==> c in a
    ensures Total(a, q + s, f) == Total(a, q, f) + Total(a, s, f)
  {
    if q == [] {
      assert q + s == s;
    } else {
      assert (q + s)[1..] == q[1..] + s;
      TotalConcat(a, q[1..], s, f);
    }
  }

  /** The sum below a container, one level down. */
  lemma BelowStep<R>(a: Arena<R>, c: R, f: Measure)
    requires Sound(a) && c in a
    ensures Below(a, c, f) == OwnSum(a, a[c].items, f) + Total(a, a[c].items, f)
  {
    WithSumsBalanced(a, f);
    SumSplits(a, a[c].items, f);
  }

  ghost function OwnSum<R>(a: Arena<R>, s: seq<R>, f: Measure): int
    requires forall x :: x in s ==> x in a
  {
    if s == [] then 0 else Own(f, a[s[0]]) + OwnSum(a, s[1..], f)
  }

  lemma {:induction false} SumSplits<R>(a: Arena<R>, s: seq<R>, f: Measure)
    requires Sound(a) && forall x :: x in s ==> x in a
    ensures Sum(WithSums(a, f), s, f) == OwnSum(a, s, f) + Total(a, s, f)
  {
    if s != [] {
      SumSplits(a, s[1..], f);
    }
  }

  /** Members that hold nothing add nothing. */
  lemma {:induction false} TotalOfHolders<R>(a: Arena<R>, s: seq<R>, f: Measure)
    requires Sound(a) && forall x :: x in s ==> x in a
    ensures Total(a, Holders(a, s), f) == Total(a, s, f)
  {
    if s != [] {
      TotalOfHolders(a, s[1..], f);
      BelowStep(a, s[0], f);
      var h := if a[s[0]].items != [] then [s[0]] else [];
      TotalConcat(a, h, Holders(a, s[1..]), f);
      if h != [] { assert h[1..] == []; }
    }
  }

  lemma {:induction false} OwnSumOfOnes<R>(a: Arena<R>, s: seq<R>)
    requires forall x :: x in s ==> x in a
    ensures OwnSum(a, s, One()) == |s|
  {
    if s != [] { OwnSumOfOnes(a, s[1..]); }
  }

  lemma {:induction false} BelowNonNegative<R>(a: Arena<R>, r: Ranking<R>, c: R, s: seq<R>)
    requires Linked(a) && IsRanking(a, r) && c in a
    requires forall x :: x in s ==> x in a[c].items
    ensures ListR(a, r, c, s, One()) >= |s|
    decreases r.of[c], |s|
  {
    if s != [] {
      assert s[0] in s && a[s[0]].parent == Some(c);
      BelowNonNegative(a, r, s[0], a[s[0]].items);
      BelowNonNegative(a, r, c, s[1..]);
    }
  }

  lemma CountNonNegative<R>(a: Arena<R>, c: R)
    requires Sound(a) && c in a
    ensures Below(a, c, One()) >= |a[c].items|
  {
    BelowNonNegative(a, Rank(a), c, a[c].items);
  }

  lemma {:induction false} TotalNonNegative<R>(a: Arena<R>, q: seq<R>)
    requires Sound(a) && forall c :: c in q ==> c in a
    ensures Total(a, q, One()) >= 0
  {
    if q != [] {
      CountNonNegative(a, q[0]);
      TotalNonNegative(a, q[1..]);
    }
  }

  /** Items still to be visited when the containers of q wait in the queue. */
  ghost function Pending<R>(a: Arena<R>, q: seq<R>): (n: nat)
    requires Sound(a) && forall c :: c in q ==> c in a
  {
    TotalNonNegative(a, q);
    Total(a, q, One())
  }

  /** The queue after its front container has been visited. */
  ghost function Step<R>(a: Arena<R>, q: seq<R>): (q': seq<R>)
    requires Sound(a) && q != [] && forall c :: c in q ==> c in a
    ensures forall c :: c in q' ==> c in a
  {
    q[1..] + Holders(a, a[q[0]].items)
  }

  lemma StepPends<R>(a: Arena<R>, q: seq<R>)
    requires Sound(a) && q != [] && forall c :: c in q ==> c in a
    ensures Pending(a, q) == Pending(a, Step(a, q)) + |a[q[0]].items|
  {
    var s := a[q[0]].items;
    BelowStep(a, q[0], One());
    OwnSumOfOnes(a, s);
    TotalOfHolders(a, s, One());
    TotalConcat(a, q[1..], Holders(a, s), One());
  }

  /** The containers of a queue hold something. */
  ghost predicate Busy<R>(a: Arena<R>, q: seq<R>) {
    forall c :: c in q ==> c in a && a[c].items != []
  }

  /** Everything below the containers of q, front container first, level by level. */
  ghost function Walk<R>(a: Arena<R>, q: seq<R>): seq<R>
    requires Sound(a) && Busy(a, q)
    decreases Pending(a, q)
  {
    if q == [] then []
    else
      StepPends(a, q);
      a[q[0]].items + Walk(a, Step(a, q))
  }

  /** The walk visits as many items as there are. */
  lemma {:induction false} WalkLength<R>(a: Arena<R>, q: seq<R>)
    requires Sound(a) && Busy(a, q)
    ensures |Walk(a, q)| == Pending(a, q)
    decreases Pending(a, q)
  {
    if q != [] {
      StepPends(a, q);
      WalkLength(a, Step(a, q));
    }
  }

  // ---------------------------------------------------------------------------------------
  // Each item once

  /** Strictly inside one of the containers of q. */
  ghost predicate Inside<R>(a: Arena<R>, q: seq<R>, x: R)
    requires Sound(a) && Busy(a, q)
  {
    x in a && exists k :: 0 <= k < |q| && x != q[k] && AtOrAbove(a, q[k], x)
  }

  /** No container of q is inside another or listed twice. */
  ghost predicate Apart<R>(a: Arena<R>, q: seq<R>)
    requires Sound(a) && Busy(a, q)
  {
    forall i, j :: 0 <= i < |q| && 0 <= j < |q| && i != j ==> !AtOrAbove(a, q[i], q[j])
  }

  lemma {:induction false} AboveTransitiveR<R>(a: Arena<R>, r: Ranking<R>, t: R, u: R, x: R)
    requires IsRanking(a, r) && u in a && x in a && AtOrAboveR(a, r, t, u) && AtOrAboveR(a, r, u, x)
    ensures AtOrAboveR(a, r, t, x)
    decreases r.bound - r.of[x]
  {
    if u != x {
      AboveTransitiveR(a, r, t, u, a[x].parent.value);
    }
  }

  /** Two containers above the same item: one is above the other. */
  lemma {:induction false} AboveLinearR<R>(a: Arena<R>, r: Ranking<R>, t: R, u: R, x: R)
    requires IsRanking(a, r) && x in a && AtOrAboveR(a, r, t, x) && AtOrAboveR(a, r, u, x)
    ensures t in a && u in a && (AtOrAboveR(a, r, t, u) || AtOrAboveR(a, r, u, t))
    decreases r.bound - r.of[x]
  {
    AboveIsHigher(a, r, t, x);
    AboveIsHigher(a, r, u, x);
    if t != x && u != x {
      AboveLinearR(a, r, t, u, a[x].parent.value);
    }
  }

  /** Below t there is a child of t on the way to x. */
  lemma {:induction false} ChildTowardsR<R>(a: Arena<R>, r: Ranking<R>, t: R, x: R) returns (y: R)
    requires Linked(a) && IsRanking(a, r) && x in a && t in a && t != x && AtOrAboveR(a, r, t, x)
    ensures y in a[t].items && AtOrAboveR(a, r, y, x)
    decreases r.bound - r.of[x]
  {
    if a[x].parent.value == t {
      y := x;
    } else {
      y := ChildTowardsR(a, r, t, a[x].parent.value);
    }
  }

  /** A child of c is above exactly what is at or below it; only it and c's line are above it. */
  lemma ChildAbove<R>(a: Arena<R>, c: R, y: R)
    requires Sound(a) && c in a && y in a[c].items
    ensures y in a && y != c && AtOrAbove(a, c, y) && !AtOrAbove(a, y, c)
    ensures forall t :: AtOrAbove(a, t, y) <==> t == y || AtOrAbove(a, t, c)
  {
    ListedIsBelow(a, c, y);
    forall t ensures AtOrAbove(a, t, y) <==> t == y || AtOrAbove(a, t, c) {
      AtOrAboveStep(a, t, y);
    }
    AtOrAboveStep(a, c, c);
  }

  lemma StepApart<R>(a: Arena<R>, q: seq<R>)
    requires Sound(a) && Busy(a, q) && Apart(a, q) && q != []
    ensures Busy(a, Step(a, q)) && Apart(a, Step(a, q))
  {
    StepBusy(a, q);
    hide Linked, Acyclic, AtOrAbove, Busy, Step;
    var q' := Step(a, q);
    forall i, j | 0 <= i < |q'| && 0 <= j < |q'| && i != j
      ensures !AtOrAbove(a, q'[i], q'[j])
    {
      PairApart(a, q, i, j);
    }
  }

  /** The next queue is the old one without its front, and then containers of the front's list. */
  lemma StepAt<R>(a: Arena<R>, q: seq<R>, i: nat)
    requires Sound(a) && Busy(a, q) && q != [] && i < |Step(a, q)|
    ensures i < |q| - 1 ==> Step(a, q)[i] == q[i + 1]
    ensures i >= |q| - 1 ==> Step(a, q)[i] in a[q[0]].items
  {
    FrontList(a, q);
    hide Linked, Acyclic, Busy, Holders;
    if i >= |q| - 1 {
      var h := Holders(a, a[q[0]].items);
      assert Step(a, q)[i] == h[i - (|q| - 1)] && h[i - (|q| - 1)] in h;
    }
  }

  lemma TwoOfFront<R>(a: Arena<R>, q: seq<R>, i: nat, j: nat)
    requires Sound(a) && Busy(a, q) && q != [] && |q| - 1 <= i < |Step(a, q)| && |q| - 1 <= j < |Step(a, q)| && i != j
    ensures Step(a, q)[i] != Step(a, q)[j]
  {
    FrontList(a, q);
    hide Linked, Acyclic, Busy, Holders;
    HoldersDistinct(a, a[q[0]].items);
    var h := Holders(a, a[q[0]].items);
    assert h[i - (|q| - 1)] != h[j - (|q| - 1)];
  }

  lemma PairApart<R>(a: Arena<R>, q: seq<R>, i: nat, j: nat)
    requires Sound(a) && Busy(a, q) && Apart(a, q) && q != []
    requires i < |Step(a, q)| && j < |Step(a, q)| && i != j
    ensures !AtOrAbove(a, Step(a, q)[i], Step(a, q)[j])
  {
    hide Linked, Acyclic, AtOrAbove, Step;
    StepAt(a, q, i);
    StepAt(a, q, j);
    var n, y, z := |q| - 1, Step(a, q)[i], Step(a, q)[j];
    if i < n && j >= n {
      ChildOfFront(a, q, i + 1, z);
    } else if i >= n && j < n {
      ChildOfFront(a, q, j + 1, y);
    } else if i >= n && j >= n {
      TwoOfFront(a, q, i, j);
      ChildAbove(a, q[0], y);
      ChildAbove(a, q[0], z);
    }
  }

  /** A child of the front container and another container of the queue are apart. */
  lemma ChildOfFront<R>(a: Arena<R>, q: seq<R>, k: nat, y: R)
    requires Sound(a) && Busy(a, q) && Apart(a, q) && 0 < k < |q| && y in a[q[0]].items
    ensures y in a && !AtOrAbove(a, y, q[k]) && !AtOrAbove(a, q[k], y)
  {
    ChildAbove(a, q[0], y);
    hide Linked, Acyclic, AtOrAbove;
    if AtOrAbove(a, y, q[k]) { AboveTransitive(a, q[0], y, q[k]); }
    AtOrAboveIsSelf(a, q[k]);
  }

  lemma AtOrAboveIsSelf<R>(a: Arena<R>, c: R)
    requires Sound(a) && c in a
    ensures AtOrAbove(a, c, c)
  {
  }

  lemma {:induction false} HoldersDistinct<R>(a: Arena<R>, s: seq<R>)
    requires Distinct(s) && forall x :: x in s ==> x in a
    ensures Distinct(Holders(a, s))
  {
    if s != [] {
      HoldersDistinct(a, s[1..]);
    }
  }

  /** What is inside q is in the front container's list or inside the next queue, never both. */
  lemma InsideStep<R>(a: Arena<R>, q: seq<R>, x: R)
    requires Sound(a) && Busy(a, q) && Apart(a, q) && q != [] && x in a
    ensures Inside(a, q, x) <==> x in a[q[0]].items || Inside(a, Step(a, q), x)
    ensures !(x in a[q[0]].items && Inside(a, Step(a, q), x))
  {
    var c, s := q[0], a[q[0]].items;
    var h, q' := Holders(a, s), Step(a, q);
    if x in s {
      ChildAbove(a, c, x);
      assert x != q[0] && AtOrAbove(a, q[0], x);
      NotInsideNext(a, q, x);
    } else if Inside(a, q, x) {
      var k :| 0 <= k < |q| && x != q[k] && AtOrAbove(a, q[k], x);
      if k > 0 {
        assert q'[k - 1] == q[k];
      } else {
        var y := TowardsHolder(a, c, x);
        var i :| 0 <= i < |h| && h[i] == y;
        assert q'[|q| - 1 + i] == y;
      }
    } else if Inside(a, q', x) {
      NextIsInside(a, q, x);
    }
  }

  /** What is deeper than the list of c is inside a holder of that list. */
  lemma TowardsHolder<R>(a: Arena<R>, c: R, x: R) returns (y: R)
    requires Sound(a) && c in a && x in a && x != c && AtOrAbove(a, c, x) && x !in a[c].items
    ensures y in Holders(a, a[c].items) && y != x && AtOrAbove(a, y, x)
  {
    y := ChildTowardsR(a, Rank(a), c, x);
    ListedIsBelow(a, c, y);
    var z := ChildTowardsR(a, Rank(a), y, x);
  }

  lemma NextIsInside<R>(a: Arena<R>, q: seq<R>, x: R)
    requires Sound(a) && Busy(a, q) && q != [] && Busy(a, Step(a, q)) && Inside(a, Step(a, q), x)
    ensures Inside(a, q, x)
  {
    hide AtOrAbove, ParentsPoint, ListsProper, Acyclic, Holders;
    var q' := Step(a, q);
    var k :| 0 <= k < |q'| && x != q'[k] && AtOrAbove(a, q'[k], x);
    if k < |q| - 1 {
      assert q'[k] == q[k + 1];
    } else {
      assert q'[k] in Holders(a, a[q[0]].items);
      InsideChild(a, q[0], q'[k], x);
      assert x != q[0] && AtOrAbove(a, q[0], x);
    }
  }

  lemma InsideChild<R>(a: Arena<R>, c: R, y: R, x: R)
    requires Sound(a) && c in a && y in a[c].items && x in a && y in a && AtOrAbove(a, y, x)
    ensures x != c && AtOrAbove(a, c, x)
  {
    hide AtOrAbove, ParentsPoint, ListsProper;
    ChildAbove(a, c, y);
    AboveTransitive(a, c, y, x);
  }

  lemma AboveTransitive<R>(a: Arena<R>, t: R, u: R, x: R)
    requires Acyclic(a) && u in a && x in a && AtOrAbove(a, t, u) && AtOrAbove(a, u, x)
    ensures AtOrAbove(a, t, x)
  {
    AboveTransitiveR(a, Rank(a), t, u, x);
  }

  lemma NotInsideMember<R>(a: Arena<R>, q: seq<R>, x: R, y: R)
    requires Sound(a) && Busy(a, q) && Apart(a, q) && q != [] && x in a[q[0]].items
    requires y in Step(a, q)
    ensures x in a && y in a && (x == y || !AtOrAbove(a, y, x))
  {
    hide AtOrAbove, Acyclic;
    ChildAbove(a, q[0], x);
    if y in q[1..] {
      var k :| 0 <= k < |q[1..]| && q[1..][k] == y;
      assert y == q[k + 1] && !AtOrAbove(a, q[k + 1], q[0]);
    } else {
      HolderIsChild(a, q, y);
      ChildAbove(a, q[0], y);
    }
  }

  lemma HolderIsChild<R>(a: Arena<R>, q: seq<R>, y: R)
    requires Sound(a) && Busy(a, q) && q != [] && y in Step(a, q) && y !in q[1..]
    ensures y in a[q[0]].items
  {
    hide ParentsPoint, ListsProper, Acyclic;
    var r, h := q[1..], Holders(a, a[q[0]].items);
    assert y in r + h;
  }

  /** A child of the front container is not inside anything that waits behind it. */
  lemma NotInsideNext<R>(a: Arena<R>, q: seq<R>, x: R)
    requires Sound(a) && Busy(a, q) && Apart(a, q) && q != [] && x in a[q[0]].items
    ensures Busy(a, Step(a, q)) && !Inside(a, Step(a, q), x)
  {
    hide AtOrAbove, Linked, Acyclic, Apart, Step;
    StepBusy(a, q);
    forall y | y in Step(a, q)
      ensures x in a && y in a && (x == y || !AtOrAbove(a, y, x))
    {
      NotInsideMember(a, q, x, y);
    }
  }

  lemma StepBusy<R>(a: Arena<R>, q: seq<R>)
    requires Sound(a) && Busy(a, q) && q != []
    ensures Busy(a, Step(a, q))
  {
  }

  lemma DistinctConcat<R>(s: seq<R>, t: seq<R>)
    requires Distinct(s) && Distinct(t) && forall x :: x in s ==> x !in t
    ensures Distinct(s + t)
  {
    forall i, j | 0 <= i < j < |s + t| ensures (s + t)[i] != (s + t)[j] {
      if i < |s| <= j { assert s[i] in s && t[j - |s|] in t; }
    }
  }

  /** The walk visits exactly what is inside, and nothing twice. */
  lemma {:induction false} WalkIsComplete<R>(a: Arena<R>, q: seq<R>)
    requires Sound(a) && Busy(a, q) && Apart(a, q)
    ensures Distinct(Walk(a, q))
    ensures forall x :: x in a ==> (x in Walk(a, q) <==> Inside(a, q, x))
    ensures forall x :: x in Walk(a, q) ==> x in a
    decreases Pending(a, q)
  {
    hide Inside, Apart, Step, Pending, Linked, Acyclic, Walk;
    WalkStep(a, q);
    if q != [] {
      StepApart(a, q);
      StepPends(a, q);
      WalkIsComplete(a, Step(a, q));
      forall x | x in a
        ensures Inside(a, q, x) <==> x in a[q[0]].items || Inside(a, Step(a, q), x)
        ensures !(x in a[q[0]].items && Inside(a, Step(a, q), x))
      {
        InsideStep(a, q, x);
      }
      FrontList(a, q);
      DistinctConcat(a[q[0]].items, Walk(a, Step(a, q)));
    } else {
      NothingInside(a);
    }
  }

  lemma FrontList<R>(a: Arena<R>, q: seq<R>)
    requires Sound(a) && Busy(a, q) && q != []
    ensures Distinct(a[q[0]].items) && forall x :: x in a[q[0]].items ==> x in a
  {
  }

  lemma NothingInside<R>(a: Arena<R>)
    requires Sound(a)
    ensures forall x :: !Inside(a, [], x)
  {
  }

  lemma WalkStep<R>(a: Arena<R>, q: seq<R>)
    requires Sound(a) && Busy(a, q)
    ensures q == [] ==> Walk(a, q) == []
    ensures q != [] ==> |a[q[0]].items| > 0 && Busy(a, Step(a, q)) && Walk(a, q) == a[q[0]].items + Walk(a, Step(a, q))
  {
  }

  // ---------------------------------------------------------------------------------------
  // Sums over the walk

  lemma {:induction false} OwnSumConcat<R>(a: Arena<R>, s: seq<R>, t: seq<R>, f: Measure)
    requires forall x :: x in s + t ==> x in a
    ensures (forall x :: x in s ==> x in a) && (forall x :: x in t ==> x in a)
    ensures OwnSum(a, s + t, f) == OwnSum(a, s, f) + OwnSum(a, t, f)
  {
    forall x | x in s ensures x in a { assert x in s + t; }
    forall x | x in t ensures x in a { assert x in s + t; }
    if s == [] {
      assert s + t == t;
    } else {
      assert (s + t)[1..] == s[1..] + t;
      OwnSumConcat(a, s[1..], t, f);
    }
  }

  /** Adding up what the walk visits gives the recursive sum. */
  lemma {:induction false} WalkSum<R>(a: Arena<R>, q: seq<R>, f: Measure)
    requires Sound(a) && Busy(a, q)
    ensures forall x :: x in Walk(a, q) ==> x in a
    ensures OwnSum(a, Walk(a, q), f) == Total(a, q, f)
    decreases Pending(a, q)
  {
    hide Linked, Acyclic, Pending, Walk, Step, Below;
    WalkStep(a, q);
    if q != [] {
      StepPends(a, q);
      WalkSum(a, Step(a, q), f);
      FrontList(a, q);
      OwnSumConcat(a, a[q[0]].items, Walk(a, Step(a, q)), f);
      BelowStep(a, q[0], f);
      StepTotal(a, q, f);
    }
  }

  lemma StepTotal<R>(a: Arena<R>, q: seq<R>, f: Measure)
    requires Sound(a) && Busy(a, q) && q != []
    ensures forall x :: x in a[q[0]].items ==> x in a
    ensures Total(a, Step(a, q), f) == Total(a, q[1..], f) + Total(a, a[q[0]].items, f)
  {
    TotalOfHolders(a, a[q[0]].items, f);
    TotalConcat(a, q[1..], Holders(a, a[q[0]].items), f);
  }

  lemma HoldersHead<R>(a: Arena<R>, s: seq<R>)
    requires s != [] && forall x :: x in s ==> x in a
    ensures Holders(a, s) == (if a[s[0]].items != [] then [s[0]] else []) + Holders(a, s[1..])
  {
  }

  lemma {:induction false} HoldersConcat<R>(a: Arena<R>, s: seq<R>, t: seq<R>)
    requires (forall x :: x in s ==> x in a) && (forall x :: x in t ==> x in a)
    ensures forall x :: x in s + t ==> x in a
    ensures Holders(a, s + t) == Holders(a, s) + Holders(a, t)
  {
    if s == [] {
      assert s + t == t;
      assert Holders(a, s) == [];
    } else {
      HoldersConcat(a, s[1..], t);
      HoldersPrepend(a, s[0], s[1..], t);
      assert [s[0]] + s[1..] == s;
    }
  }

  lemma HoldersPrepend<R>(a: Arena<R>, x: R, s: seq<R>, t: seq<R>)
    requires x in a && (forall y :: y in s ==> y in a) && (forall y :: y in t ==> y in a)
    requires (forall y :: y in s + t ==> y in a) && Holders(a, s + t) == Holders(a, s) + Holders(a, t)
    ensures forall y :: y in [x] + s ==> y in a
    ensures forall y :: y in ([x] + s) + t ==> y in a
    ensures Holders(a, ([x] + s) + t) == Holders(a, [x] + s) + Holders(a, t)
  {
    hide Holders;
    assert ([x] + s) + t == [x] + (s + t);
    assert ([x] + (s + t))[1..] == s + t && ([x] + s)[1..] == s;
    HoldersHead(a, [x] + s);
    HoldersHead(a, [x] + (s + t));
    var h: seq<R> := if a[x].items != [] then [x] else [];
    Regroup(h, Holders(a, s), Holders(a, t));
  }

  // ---------------------------------------------------------------------------------------
  // Level by level

  ghost function DepthR<R>(a: Arena<R>, r: Ranking<R>, x: R): nat
    requires IsRanking(a, r) && x in a
    decreases r.bound - r.of[x]
  {
    if a[x].parent.None? then 0 else 1 + DepthR(a, r, a[x].parent.value)
  }

  /** How many containers hold x, one inside the other. */
  ghost function Depth<R>(a: Arena<R>, x: R): nat
    requires Acyclic(a) && x in a
  {
    DepthR(a, Rank(a), x)
  }

  /** The depths of a list never go down, and go up by one at most. */
  ghost predicate Leveled<R>(a: Arena<R>, q: seq<R>)
    requires Acyclic(a) && forall c :: c in q ==> c in a
  {
    && (forall i, j :: 0 <= i < j < |q| ==> Depth(a, q[i]) <= Depth(a, q[j]))
    && (forall i :: 0 <= i < |q| ==> Depth(a, q[i]) <= Depth(a, q[0]) + 1)
  }

  lemma ListDepth<R>(a: Arena<R>, c: R)
    requires Sound(a) && c in a
    ensures forall y :: y in a[c].items ==> y in a && Depth(a, y) == Depth(a, c) + 1
  {
  }

  lemma StepLeveled<R>(a: Arena<R>, q: seq<R>)
    requires Sound(a) && Busy(a, q) && q != [] && Leveled(a, q)
    ensures Busy(a, Step(a, q)) && Leveled(a, Step(a, q))
    ensures forall c :: c in Step(a, q) ==> Depth(a, c) >= Depth(a, q[0])
  {
    hide Depth, Acyclic, ParentsPoint, ListsProper;
    ListDepth(a, q[0]);
    var q', n := Step(a, q), |q| - 1;
    var h := Holders(a, a[q[0]].items);
    forall i | 0 <= i < |q'|
      ensures i < n ==> q'[i] == q[i + 1]
      ensures i >= n ==> Depth(a, q'[i]) == Depth(a, q[0]) + 1
    {
      if i >= n { assert q'[i] == h[i - n] && h[i - n] in h; }
    }
  }

  /** Items nearer to the surface are visited first. */
  lemma {:induction false} WalkByLevel<R>(a: Arena<R>, q: seq<R>)
    requires Sound(a) && Busy(a, q) && Leveled(a, q)
    ensures forall x :: x in Walk(a, q) ==> x in a && Depth(a, x) > Depth(a, q[0])
    ensures forall i, j :: 0 <= i < j < |Walk(a, q)| ==> Depth(a, Walk(a, q)[i]) <= Depth(a, Walk(a, q)[j])
    decreases Pending(a, q)
  {
    hide Depth, Acyclic, ParentsPoint, ListsProper, Walk, Step, Pending, Leveled;
    WalkStep(a, q);
    if q != [] {
      StepLeveled(a, q);
      StepPends(a, q);
      WalkByLevel(a, Step(a, q));
      ListDepth(a, q[0]);
      WalkStep(a, Step(a, q));
      if Step(a, q) != [] { assert Step(a, q)[0] in Step(a, q); }
    }
  }

  lemma NoHolders<R>(a: Arena<R>)
    ensures Holders(a, []) == []
  {
  }
}
