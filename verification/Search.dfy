/** Breadth-first searches whose queue holds every container, empty ones included. */
module Search {
  import opened Wrappers
  import opened Forest
  import opened LevelOrder

  /** The containers of a list. */
  ghost function Bags<R>(a: Arena<R>, s: seq<R>): (q: seq<R>)
    requires forall x :: x in s ==> x in a
    ensures forall x :: x in q ==> x in s && x in a && a[x].isContainer
    ensures |q| <= |s|
  {
    if s == [] then []
    else (if a[s[0]].isContainer then [s[0]] else []) + Bags(a, s[1..])
  }

  /** What holds something is a container. */
  lemma {:induction false} BagsHold<R>(a: Arena<R>, s: seq<R>)
    requires ListsProper(a) && forall x :: x in s ==> x in a
    ensures Holders(a, Bags(a, s)) == Holders(a, s)
  {
    if s != [] {
      BagsHold(a, s[1..]);
      var h: seq<R> := if a[s[0]].isContainer then [s[0]] else [];
      HoldersConcat(a, h, Bags(a, s[1..]));
      if h != [] { assert h[1..] == []; }
    }
  }

  lemma NoBags<R>(a: Arena<R>)
    ensures Bags(a, []) == []
  {
  }

  lemma BagsHead<R>(a: Arena<R>, s: seq<R>)
    requires s != [] && forall y :: y in s ==> y in a
    ensures Bags(a, s) == (if a[s[0]].isContainer then [s[0]] else []) + Bags(a, s[1..])
  {
  }

  lemma {:induction false} BagsAppend<R>(a: Arena<R>, s: seq<R>, x: R)
    requires x in a && forall y :: y in s ==> y in a
    ensures forall y :: y in s + [x] ==> y in a
    ensures Bags(a, s + [x]) == Bags(a, s) + (if a[x].isContainer then [x] else [])
  {
    hide Bags;
    var r := s + [x];
    BagsHead(a, r);
    if s == [] {
      assert r[1..] == [];
      NoBags(a);
    } else {
      BagsAppend(a, s[1..], x);
      assert r[1..] == s[1..] + [x];
      BagsHead(a, s);
    }
  }

  lemma ListIsHere<R>(a: Arena<R>, c: R)
    requires Linked(a) && c in a
    ensures forall x :: x in a[c].items ==> x in a
  {
  }

  lemma NextQueue<R>(a: Arena<R>, q: seq<R>)
    requires Sound(a) && (forall x :: x in q ==> x in a) && q != []
    ensures forall x :: x in a[q[0]].items ==> x in a
    ensures var h := Holders(a, q[1..]) + Holders(a, a[q[0]].items);
            Busy(a, h) && Walk(a, Holders(a, q)) == a[q[0]].items + Walk(a, h)
  {
    hide Linked, Acyclic, Walk, Holders;
    ListIsHere(a, q[0]);
    HoldersHead(a, q);
    if a[q[0]].items != [] {
      var h := [q[0]] + Holders(a, q[1..]);
      assert h[1..] == Holders(a, q[1..]);
      WalkStep(a, h);
    } else {
      NoHolders(a);
      var h := Holders(a, q[1..]);
      assert [] + h == h && h + [] == h;
    }
  }

  /** Searching the front container: its list comes next in the walk, its bags join the queue. */
  lemma SearchOn<R>(a: Arena<R>, q: seq<R>)
    requires Sound(a) && (forall x :: x in q ==> x in a) && q != []
    ensures forall x :: x in a[q[0]].items ==> x in a
    ensures var q' := q[1..] + Bags(a, a[q[0]].items);
            Walk(a, Holders(a, q)) == a[q[0]].items + Walk(a, Holders(a, q'))
  {
    hide Linked, Acyclic, Walk, Holders, Step, ListsProper, Bags;
    var items := a[q[0]].items;
    ListIsHere(a, q[0]);
    ListsAreProper(a);
    BagsHold(a, items);
    HoldersHead(a, q);
    HoldersConcat(a, q[1..], Bags(a, items));
    NextQueue(a, q);
  }

  lemma ListsAreProper<R>(a: Arena<R>)
    requires Sound(a)
    ensures ListsProper(a)
  {
  }
}
