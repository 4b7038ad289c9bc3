/** Bitwise AND of unsigned machine words, on natural numbers and for every width. */
module Bits {

  /** a & b */
  function And(a: nat, b: nat): (r: nat)
    ensures r <= a && r <= b
  {
    if a == 0 || b == 0 then 0
    else 2 * And(a / 2, b / 2) + (a % 2) * (b % 2)
  }

  /** a & ~b */
  function AndNot(a: nat, b: nat): (r: nat)
    ensures r <= a
  {
    if a == 0 then 0
    else 2 * AndNot(a / 2, b / 2) + (a % 2) * (1 - b % 2)
  }

  /** Clearing the bits of b and keeping the bits of b split a number in two. */
  lemma {:induction false} SplitByMask(a: nat, b: nat)
    ensures AndNot(a, b) + And(a, b) == a
  {
    if a == 0 {
    } else if b == 0 {
      SplitByMask(a / 2, b / 2);
    } else {
      SplitByMask(a / 2, b / 2);
      assert (a % 2) * (1 - b % 2) + (a % 2) * (b % 2) == a % 2;
    }
  }

  /** Bit number k is set. */
  predicate Bit(a: nat, k: nat) {
    if k == 0 then a % 2 == 1 else Bit(a / 2, k - 1)
  }

  /** Bit by bit: set in both, set in a and not in b. */
  lemma {:induction false} BitByBit(a: nat, b: nat, k: nat)
    ensures Bit(And(a, b), k) <==> Bit(a, k) && Bit(b, k)
    ensures Bit(AndNot(a, b), k) <==> Bit(a, k) && !Bit(b, k)
  {
    hide And, AndNot;
    Halves(a, b);
    if k > 0 { BitByBit(a / 2, b / 2, k - 1); }
  }

  lemma Halves(a: nat, b: nat)
    ensures And(a, b) / 2 == And(a / 2, b / 2) && (And(a, b) % 2 == 1 <==> a % 2 == 1 && b % 2 == 1)
    ensures AndNot(a, b) / 2 == AndNot(a / 2, b / 2) && (AndNot(a, b) % 2 == 1 <==> a % 2 == 1 && b % 2 == 0)
  {
    hide And, AndNot;
    AndIs(a, b);
    AndNotIs(a, b);
    Times01(a % 2, b % 2);
    Times01(a % 2, 1 - b % 2);
  }

  lemma AndIs(a: nat, b: nat)
    ensures And(a, b) == 2 * And(a / 2, b / 2) + (a % 2) * (b % 2)
  {
  }

  lemma AndNotIs(a: nat, b: nat)
    ensures AndNot(a, b) == 2 * AndNot(a / 2, b / 2) + (a % 2) * (1 - b % 2)
  {
  }

  lemma Times01(x: nat, y: nat)
    requires x <= 1
    ensures x * y == if x == 1 then y else 0
  {
  }

  function Power(k: nat): (r: nat)
    ensures r >= 1
  {
    if k == 0 then 1 else 2 * Power(k - 1)
  }

  /** With a mask of k ones, clearing rounds down to a multiple of 2 to the k. */
  lemma {:induction false} RoundsDown(a: nat, k: nat)
    ensures AndNot(a, Power(k) - 1) == a / Power(k) * Power(k)
  {
    hide AndNot, Power;
    PowerIs(k);
    if k > 0 {
      var p := Power(k - 1);
      Mask(p);
      Halves(a, 2 * p - 1);
      RoundsDown(a / 2, k - 1);
      Doubled(AndNot(a, 2 * p - 1), a / 2 / p * p);
      DivTwice(a, p);
    } else {
      NothingCleared(a);
    }
  }

  lemma PowerIs(k: nat)
    ensures Power(k) == if k == 0 then 1 else 2 * Power(k - 1)
  {
  }

  lemma Mask(p: nat)
    requires p >= 1
    ensures (2 * p - 1) / 2 == p - 1 && (2 * p - 1) % 2 == 1
  {
  }

  lemma Doubled(x: nat, h: nat)
    requires x / 2 == h && x % 2 != 1
    ensures x == 2 * h
  {
  }

  lemma {:induction false} NothingCleared(a: nat)
    ensures AndNot(a, 0) == a
  {
    if a > 0 { NothingCleared(a / 2); }
  }

  lemma DivTwice(a: nat, p: nat)
    requires p >= 1
    ensures 2 * (a / 2 / p * p) == a / (2 * p) * (2 * p)
  {
    var q := a / 2 / p;
    var r := a / 2 - q * p;
    assert a == 2 * (q * p + r) + a % 2;
    assert a - q * (2 * p) == 2 * r + a % 2 && 0 <= 2 * r + a % 2 < 2 * p;
    QuotientIs(a, 2 * p, q);
  }

  lemma QuotientIs(a: nat, m: nat, q: nat)
    requires m >= 1 && 0 <= a - q * m < m
    ensures a / m == q
  {
    var d := a / m;
    assert (d - q) * m == d * m - q * m;
    Times(d - q, m);
  }

  lemma Times(x: int, m: nat)
    ensures x >= 1 ==> x * m >= m
    ensures x <= -1 ==> x * m <= 0 - m
  {
  }
}
