/**
 Damage over time: how a total is split into a falling list of hits, and the condition that deals
 them out.
 */
module DamageList {
  import opened Wrappers


  function AbsReal(a: real): real { if a >= 0.0 then a else -a }

  function Total(s: seq<int>): int {
    if s == [] then 0 else Total(s[..|s| - 1]) + s[|s| - 1]
  }

  lemma TotalGrows(s: seq<int>, x: int)
    ensures Total(s + [x]) == Total(s) + x
  {
    assert (s + [x])[..|s|] == s;
  }

  /** 1 + 2 + ... + n */
  function Triangle(n: int): int {
    n * (n + 1) / 2
  }

  lemma TriangleStep(n: int)
    ensures Triangle(n + 1) == Triangle(n) + n + 1
  {
    assert (n + 1) * (n + 2) == n * (n + 1) + 2 * (n + 1);
  }

  /** How far the sum is from the mark, relative to the mark. */
  function Off(sum: int, med: int): real
    requires med > 0
  {
    AbsReal(1.0 - sum as real / med as real)
  }

  /** Whether one more hit of size i brings the sum closer; a mark of zero is infinitely far off. */
  function Closer(sum: int, i: int, med: int): bool {
    med > 0 && Off(sum + i, med) < Off(sum, med)
  }

  /** One more hit brings the sum closer exactly while it lacks more than half of that hit. */
  lemma CloserIs(sum: int, i: int, med: int)
    requires i > 0 && sum >= 0 && med >= 0
    ensures Closer(sum, i, med) <==> 2 * (med - sum) > i
  {
    hide Off, AbsReal;
    if med > 0 {
      OffScaled(sum, med);
      OffScaled(sum + i, med);
      MulOrder(Off(sum + i, med), Off(sum, med), med as real);
      RealDistance(med, sum);
      RealDistance(med, sum + i);
      var x, y := Abs(med - (sum + i)), Abs(med - sum);
      assert Closer(sum, i, med) <==> (x as real) < (y as real);
      assert (x as real) < (y as real) <==> x < y;
    }
  }

  lemma RealDistance(a: int, b: int)
    ensures AbsReal(a as real - b as real) == Abs(a - b) as real
  {
  }

  lemma OffScaled(sum: int, med: int)
    requires med > 0
    ensures Off(sum, med) * (med as real) == AbsReal(med as real - sum as real)
  {
    var s, m := sum as real, med as real;
    var q := s / m;
    assert q * m == s;
    assert (1.0 - q) * m == m - s;
    if 1.0 - q >= 0.0 {
      SignOf(1.0 - q, m);
    } else {
      SignOf(q - 1.0, m);
      assert (q - 1.0) * m == s - m;
    }
  }

  lemma SignOf(a: real, m: real)
    requires a >= 0.0 && m > 0.0
    ensures a * m >= 0.0
  {
  }

  lemma MulOrder(a: real, b: real, m: real)
    requires m > 0.0
    ensures a < b <==> a * m < b * m
  {
    assert (b - a) * m == b * m - a * m;
    if a < b { MulPositive(b - a, m); }
    if a > b { MulPositive(a - b, m); assert (a - b) * m == a * m - b * m; }
  }

  lemma MulPositive(a: real, m: real)
    requires a > 0.0 && m > 0.0
    ensures a * m > 0.0
  {
  }

  // ---------------------------------------------------------------------------------------
  // The list

  /** A falling list of hits from start down to 1, none left out. */
  ghost predicate Falling(list: seq<int>, start: int, last: int) {
    && (forall k :: 0 <= k < |list| ==> last <= list[k] <= start)
    && (forall j, k :: 0 <= j < k < |list| ==> list[j] >= list[k])
    && (forall v :: last <= v <= start ==> v in list)
  }

  /** The mark of the stage that deals hits of size i. */
  function Mark(amount: int, start: int, i: int): int
    requires start > 0
  {
    (start + 1 - i) * amount / start
  }

  /**
   Behind the stage of size i: every size from start to i has been dealt, and the sum lacks at most
   half a hit of the stage's mark. If the amount is large enough for all sizes, the sizes to come
   still fit; otherwise every size has been dealt just once.
   */
  ghost predicate Staged(sum: int, amount: int, start: int, i: int)
    requires start > 0
  {
    && sum >= 0
    && (i <= start ==> 2 * (Mark(amount, start, i) - sum) <= i)
    && (amount >= Triangle(start) ==> sum + Triangle(i - 1) <= amount)
    && (amount <= Triangle(start) ==> sum + Triangle(i - 1) == Triangle(start))
  }

  /** s * x <= s * y cancels to x <= y. */
  lemma Cancel(s: int, x: int, y: int)
    requires s > 0 && s * x <= s * y
    ensures x <= y
  {
    assert s * (x - y) == s * x - s * y;
    assert x - y >= 1 ==> s * (x - y) >= s * 1;
  }

  /** The mark is what a division gives: s * m lies within s of n * amount. */
  lemma MarkIs(amount: int, start: int, i: int) returns (r: int)
    requires amount >= 0 && 1 <= i <= start
    ensures start * Mark(amount, start, i) + r == (start + 1 - i) * amount && 0 <= r < start
  {
    r := (start + 1 - i) * amount % start;
  }

  lemma MarkNonNegative(amount: int, start: int, i: int)
    requires amount >= 0 && 1 <= i <= start
    ensures Mark(amount, start, i) >= 0
  {
    var r := MarkIs(amount, start, i);
    var m := Mark(amount, start, i);
    assert (start + 1 - i) * amount >= 0;
    assert m <= -1 ==> start * m <= start * -1;
  }

  /** The step of LargeMark, with the products multiplied out. */
  lemma Spread(start: int, amount: int, i: int, m: int)
    requires start * m <= (start + 1 - i) * amount
    requires (i - 1) * (start * (start + 1)) <= (i - 1) * (2 * amount)
    ensures start * (2 * m) <= start * (2 * amount - (start + 1) * (i - 1))
  {
    var k := i - 1;
    assert (start + 1 - i) * amount == start * amount - k * amount;
    assert start * (2 * amount - (start + 1) * k) == 2 * (start * amount) - k * (start * (start + 1));
  }

  /** If all sizes fit into the amount, no mark comes too close to it. */
  lemma LargeMark(amount: int, start: int, i: int)
    requires amount >= Triangle(start) && 1 <= i <= start
    ensures 2 * Mark(amount, start, i) <= 2 * amount - (start + 1) * (i - 1)
  {
    TwiceTriangle(start);
    TriangleSize(start);
    var r := MarkIs(amount, start, i);
    var m := Mark(amount, start, i);
    var all := start * (start + 1);
    MulMonotone(i - 1, all, 2 * amount);
    assert start * (2 * m) <= start * (2 * amount - (start + 1) * (i - 1)) by { Spread(start, amount, i, m); }
    Cancel(start, 2 * m, 2 * amount - (start + 1) * (i - 1));
  }

  /** If they do not, no mark gets beyond what is dealt anyway. */
  lemma SmallMark(amount: int, start: int, i: int)
    requires 0 <= amount <= Triangle(start) && 1 <= i <= start
    ensures 2 * Mark(amount, start, i) <= (start + 1 - i) * (start + 1)
  {
    TwiceTriangle(start);
    var r := MarkIs(amount, start, i);
    var m, n := Mark(amount, start, i), start + 1 - i;
    MulMonotone(n, 2 * amount, start * (start + 1));
    assert start * (2 * m) <= n * (2 * amount);
    assert n * (start * (start + 1)) == start * (n * (start + 1));
    Cancel(start, 2 * m, n * (start + 1));
  }

  lemma MulMonotone(k: int, x: int, y: int)
    requires k >= 0 && x <= y
    ensures k * x <= k * y
  {
    assert k * (y - x) == k * y - k * x;
  }

  /** The last mark is the amount itself. */
  lemma LastMark(amount: int, start: int)
    requires amount >= 0 && 1 <= start
    ensures Mark(amount, start, 1) == amount
  {
    var r := MarkIs(amount, start, 1);
    var m := Mark(amount, start, 1);
    assert start * (amount - m) == r;
    assert amount - m >= 1 ==> start * (amount - m) >= start * 1;
    assert amount - m <= -1 ==> start * (amount - m) <= start * -1;
  }

  lemma TriangleSize(n: int)
    requires n >= 0
    ensures Triangle(n) >= 0
  {
    assert n * (n + 1) >= 0;
  }

  lemma Even(n: int, p: int, q: int)
    requires n == (2 * p) * q
    ensures 2 * (n / 2) == n
  {
    assert n == 2 * (p * q);
  }

  lemma TwiceTriangle(n: int)
    ensures 2 * Triangle(n) == n * (n + 1)
  {
    var h := n / 2;
    if n % 2 == 0 {
      Even(n * (n + 1), h, n + 1);
    } else {
      Even(n * (n + 1), h + 1, n);
    }
  }

  // -- one stage

  /** In the middle of a stage of size i, with the stages before it complete and i dealt at least once. */
  ghost predicate InStage(sum: int, amount: int, start: int, i: int)
    requires start > 0
  {
    && sum >= 0
    && (amount >= Triangle(start) ==> sum + Triangle(i - 1) <= amount)
    && (amount <= Triangle(start) ==> sum + Triangle(i - 1) == Triangle(start))
  }

  /** The first hit of a size is always dealt, and fits. */
  lemma FirstHit(sum: int, amount: int, start: int, i: int)
    requires start > 0 && 1 <= i <= start && Staged(sum, amount, start, i + 1)
    ensures InStage(sum + i, amount, start, i)
  {
    TriangleStep(i - 1);
  }

  /** Another hit of the size is dealt only if it fits; if the amount is small, there is none. */
  lemma NextHit(sum: int, amount: int, start: int, i: int)
    requires 1 <= i <= start && amount >= 0 && InStage(sum, amount, start, i)
    requires 2 * (Mark(amount, start, i) - sum) > i
    ensures amount > Triangle(start) && InStage(sum + i, amount, start, i)
  {
    TwiceTriangle(i - 1);
    TwiceTriangle(start);
    if amount <= Triangle(start) {
      SmallMark(amount, start, i);
      assert start * (start + 1) - (i - 1) * i == (start + 1 - i) * (start + i);
      MulMonotone(start + 1 - i, start + 1, start + i);
      assert false;
    }
    LargeMark(amount, start, i);
    MulMonotone(i - 1, i + 1, start + 1);
    assert (i - 1) * (i + 1) == (i - 1) * i + i - 1;
    assert (start + 1) * (i - 1) == (i - 1) * (start + 1);
  }

  lemma StageEnds(sum: int, amount: int, start: int, i: int)
    requires 1 <= i <= start && InStage(sum, amount, start, i)
    requires 2 * (Mark(amount, start, i) - sum) <= i
    ensures Staged(sum, amount, start, i)
  {
  }

  lemma StagesBegin(amount: int, start: int)
    requires start > 0
    ensures Staged(0, amount, start, start + 1)
  {
  }

  /** Behind the last stage the sum is the amount, or all the sizes if the amount is less. */
  lemma StagesEnd(sum: int, amount: int, start: int)
    requires start > 0 && amount >= 0 && Staged(sum, amount, start, 1)
    ensures sum == Max(amount, Triangle(start))
  {
    LastMark(amount, start);
  }

  lemma FallingGrows(list: seq<int>, start: int, i: int, last: int)
    requires Falling(list, start, last) && 1 <= i <= start && (i == last || i == last - 1)
    ensures Falling(list + [i], start, i)
  {
    var l := list + [i];
    assert l[|list|] == i;
    forall v | i <= v <= start ensures v in l {
      if v != i { assert v in list; }
    }
  }

  /**
   A size is dealt again exactly as long as the sum lacks more than half a hit of its share of the
   amount: at start hits of the largest size it is 1/start of the amount, one more with every size.
   */
  ghost predicate Paced(list: seq<int>, amount: int, start: int)
    requires start > 0
  {
    && Repeats(list, amount, start) && Turns(list, amount, start)
    && (list != [] ==> Enough(list, |list| - 1, amount, start))
  }

  /** Behind hit number k the sum lacks half a hit at most. */
  ghost predicate Enough(list: seq<int>, k: nat, amount: int, start: int)
    requires start > 0 && k < |list|
  {
    2 * ((start + 1 - list[k]) * amount / start - Total(list[..k + 1])) <= list[k]
  }

  /** Before a hit of the size of the last one the sum lacks more than half a hit. */
  ghost predicate Repeats(list: seq<int>, amount: int, start: int)
    requires start > 0
  {
    forall k :: 0 < k < |list| && list[k - 1] == list[k] ==> !Enough(list, k - 1, amount, start)
  }

  /** Before a hit of another size it does not. */
  ghost predicate Turns(list: seq<int>, amount: int, start: int)
    requires start > 0
  {
    forall k :: 0 < k < |list| && list[k - 1] != list[k] ==> Enough(list, k - 1, amount, start)
  }

  lemma PacedGrows(list: seq<int>, v: int, amount: int, start: int)
    requires start > 0 && Repeats(list, amount, start) && Turns(list, amount, start)
    requires list != [] ==> (list[|list| - 1] == v <==> !Enough(list, |list| - 1, amount, start))
    ensures Repeats(list + [v], amount, start) && Turns(list + [v], amount, start)
  {
    hide Enough;
    var l := list + [v];
    forall k | 0 <= k < |list| ensures Enough(l, k, amount, start) <==> Enough(list, k, amount, start) {
      EnoughStays(list, v, k, amount, start);
    }
  }

  lemma EnoughStays(list: seq<int>, v: int, k: nat, amount: int, start: int)
    requires start > 0 && k < |list|
    ensures Enough(list + [v], k, amount, start) <==> Enough(list, k, amount, start)
  {
    hide Total;
    assert (list + [v])[..k + 1] == list[..k + 1];
  }

  lemma PacedIs(list: seq<int>, amount: int, start: int)
    requires start > 0
    ensures Paced(list, amount, start) <==>
              && Repeats(list, amount, start) && Turns(list, amount, start)
              && (list != [] ==> Enough(list, |list| - 1, amount, start))
  {
  }

  lemma LastIsLeast(list: seq<int>, start: int, last: int)
    requires Falling(list, start, last)
    ensures list != [] && last <= start ==> list[|list| - 1] == last
    ensures last > start ==> list == []
  {
    if last <= start { assert last in list; }
    if list != [] { assert last <= list[0] <= start; }
  }

  lemma EnoughIs(list: seq<int>, amount: int, start: int, i: int)
    requires start > 0 && list != [] && list[|list| - 1] == i
    ensures Enough(list, |list| - 1, amount, start) <==> 2 * ((start + 1 - i) * amount / start - Total(list)) <= i
  {
    hide Total;
    assert list[..|list|] == list;
  }

  /**
   Splits an amount into hits of falling size. Their sum is the amount whenever that is at least
   1 + 2 + ... + start, and 1 + 2 + ... + start otherwise. With what Falling and Paced say there
   is one such list only.
   */
  method GenerateDamageList(amount0: int, start: int) returns (list: seq<int>)
    ensures start <= 0 ==> list == []
    ensures start > 0 ==> Falling(list, start, 1) && Total(list) == Max(Abs(amount0), Triangle(start))
    ensures start > 0 ==> Total(list) >= Abs(amount0) &&
                          (Total(list) == Abs(amount0) <==> 2 * Abs(amount0) >= start * (start + 1))
    ensures start > 0 ==> Paced(list, Abs(amount0), start)
  {
    hide Staged, InStage, Mark, Triangle, Falling, Total, Closer, Max, Abs, Paced, Repeats, Turns, Enough;
    AbsSign(amount0);
    var amount := Abs(amount0);
    var sum, med := 0, 0;
    list := [];
    NothingYet(start);
    if start > 0 { StagesBegin(amount, start); }
    var i := start;
    while i > 0
      invariant i <= start && (start > 0 ==> i >= 0)
      invariant start > 0 ==> Staged(sum, amount, start, i + 1) && Falling(list, start, i + 1)
      invariant start <= 0 ==> list == []
      invariant start > 0 ==> Paced(list, amount, start)
      invariant sum == Total(list)
    {
      var n := start + 1 - i;
      med := n * amount / start;
      MarkOf(amount, start, i);
      StagedSum(sum, amount, start, i + 1);
      // do
      sum := sum + i;
      TotalGrows(list, i);
      FallingGrows(list, start, i, i + 1);
      FirstHit(sum - i, amount, start, i);
      PacedIs(list, amount, start);
      LastIsLeast(list, start, i + 1);
      PacedGrows(list, i, amount, start);
      list := list + [i];
      CloserIs(sum, i, med);
      while Closer(sum, i, med)
        invariant InStage(sum, amount, start, i) && Falling(list, start, i)
        invariant sum == Total(list) && sum >= 0
        invariant Repeats(list, amount, start) && Turns(list, amount, start) && list != [] && list[|list| - 1] == i
        invariant Closer(sum, i, med) <==> 2 * (med - sum) > i
        decreases med - sum
      {
        NextHit(sum, amount, start, i);
        TotalGrows(list, i);
        FallingGrows(list, start, i, i);
        EnoughIs(list, amount, start, i);
        PacedGrows(list, i, amount, start);
        sum := sum + i;
        list := list + [i];
        CloserIs(sum, i, med);
      }
      StageEnds(sum, amount, start, i);
      EnoughIs(list, amount, start, i);
      PacedIs(list, amount, start);
      i := i - 1;
    }
    if start > 0 {
      StagesEnd(sum, amount, start);
      RoomForAll(amount, start);
    }
  }

  lemma AbsSign(a: int)
    ensures Abs(a) >= 0
  {
  }

  lemma MarkOf(amount: int, start: int, i: int)
    requires amount >= 0 && 1 <= i <= start
    ensures Mark(amount, start, i) == (start + 1 - i) * amount / start && Mark(amount, start, i) >= 0
  {
    MarkNonNegative(amount, start, i);
  }

  lemma StagedSum(sum: int, amount: int, start: int, i: int)
    requires start > 0 && Staged(sum, amount, start, i)
    ensures sum >= 0
  {
  }

  lemma NothingYet(start: int)
    ensures Falling([], start, start + 1) && Total([]) == 0
    ensures start > 0 ==> forall amount :: Paced([], amount, start)
  {
  }

  /** There is room for one hit of every size exactly if half of start * (start + 1) is no more. */
  lemma RoomForAll(amount: int, start: int)
    requires start > 0 && amount >= 0
    ensures Max(amount, Triangle(start)) >= amount
    ensures Max(amount, Triangle(start)) == amount <==> 2 * amount >= start * (start + 1)
    ensures amount >= start * start ==> Max(amount, Triangle(start)) == amount
  {
    TwiceTriangle(start);
    if amount >= start * start {
      MulMonotone(start, start + 1, 2 * start);
      assert start * (2 * start) == 2 * (start * start);
    }
  }

  // ---------------------------------------------------------------------------------------
  // The condition

  datatype IntervalInfo = IntervalInfo(interval: int, timeLeft: int, value: int)

  function Damage(list: seq<IntervalInfo>): int {
    if list == [] then 0 else Damage(list[..|list| - 1]) + list[|list| - 1].value
  }

  lemma DamageGrows(list: seq<IntervalInfo>, e: IntervalInfo)
    ensures Damage(list + [e]) == Damage(list) + e.value
  {
    assert (list + [e])[..|list|] == list;
  }

  class ConditionDamage {
    var ticks: int
    var tickInterval: nat
    var periodDamage: int
    var minDamage: nat
    var maxDamage: nat
    var startDamage: nat
    var damageList: seq<IntervalInfo>

    constructor (tickInterval: nat, minDamage: nat, maxDamage: nat, startDamage: nat)
      ensures this.tickInterval == tickInterval && this.minDamage == minDamage && this.maxDamage == maxDamage
      ensures this.startDamage == startDamage && ticks == 0 && periodDamage == 0 && damageList == []
    {
      this.tickInterval, this.minDamage := tickInterval, minDamage;
      this.maxDamage, this.startDamage := maxDamage, startDamage;
      ticks, periodDamage, damageList := 0, 0, [];
    }

    /** The same hit a number of times, or (rounds = -1) a hit every so often without end. */
    method AddDamage(rounds: int, time: int, value: int) returns (ok: bool)
      modifies this
      ensures ok <==> rounds == -1 || old(periodDamage) <= 0
      ensures rounds == -1 ==>
                periodDamage == value && tickInterval == Abs(time) && ticks == -1 && damageList == old(damageList)
      ensures rounds != -1 ==> periodDamage == old(periodDamage) && tickInterval == old(tickInterval)
      ensures minDamage == old(minDamage) && maxDamage == old(maxDamage) && startDamage == old(startDamage)
      ensures rounds != -1 && !ok ==> damageList == old(damageList) && ticks == old(ticks)
      ensures rounds != -1 && ok ==>
                && damageList == old(damageList) + seq(Max(0, rounds), _ => IntervalInfo(time, time, value))
                && (old(ticks) >= 0 && time >= 0 ==> ticks == old(ticks) + Max(0, rounds) * time)
                && (old(ticks) == -1 ==> ticks == -1)
    {
      if rounds == -1 {
        // one hit per interval
        periodDamage := value;
        tickInterval := Abs(time);
        ticks := -1;
        return true;
      }
      if periodDamage > 0 {
        return false;
      }
      // a counted number of hits
      var i := 0;
      while i < rounds
        invariant 0 <= i <= Max(0, rounds)
        invariant damageList == old(damageList) + seq(i, _ => IntervalInfo(time, time, value))
        invariant old(ticks) >= 0 && time >= 0 ==> ticks == old(ticks) + i * time && ticks >= 0
        invariant old(ticks) == -1 ==> ticks == -1
        invariant periodDamage == old(periodDamage) && tickInterval == old(tickInterval)
        invariant minDamage == old(minDamage) && maxDamage == old(maxDamage) && startDamage == old(startDamage)
      {
        var damageInfo := IntervalInfo(time, time, value);
        damageList := damageList + [damageInfo];
        assert (i + 1) * time == i * time + time;
        if ticks != -1 {
          ticks := ticks + damageInfo.interval;
        }
        i := i + 1;
      }
      return true;
    }

    /**
     Fills the list, unless it is filled already. amount is the random number drawn between minDamage
     and maxDamage. The hits deal the amount in all, or 1 + ... + start if that is more, and the
     condition lasts one tick interval for each of them.
     */
    method Init(amount: int) returns (ok: bool, ghost start: int, ghost hits: seq<int>)
      requires minDamage <= amount <= maxDamage || maxDamage <= amount <= minDamage
      modifies this
      ensures ok <==> periodDamage != 0 || damageList != []
      ensures periodDamage == old(periodDamage)
      ensures periodDamage != 0 || old(damageList) != [] ==> damageList == old(damageList) && ticks == old(ticks)
      ensures periodDamage == 0 && old(damageList) == [] ==>
                && ticks == |damageList| * tickInterval
                && (amount == 0 || start == 0 ==> damageList == [])
                && (amount != 0 && start > 0 ==>
                      && Damage(damageList) == -Max(amount, Triangle(start))
                      && Falling(hits, start, 1) && Paced(hits, amount, start) && |hits| == |damageList|
                      && forall k :: 0 <= k < |hits| ==>
                           damageList[k] == IntervalInfo(tickInterval, tickInterval, -hits[k]))
      ensures old(damageList) == [] && periodDamage == 0 && amount != 0 ==>
                start == if old(startDamage) > maxDamage then maxDamage
                         else if old(startDamage) == 0 then (amount + 19) / 20
                         else old(startDamage)
    {
      hide Falling, Total, Triangle, Paced;
      start, hits := 0, [];
      if periodDamage != 0 {
        return true, start, hits;
      }
      if damageList == [] {
        ticks := 0;
        if amount != 0 {
          if startDamage > maxDamage {
            startDamage := maxDamage;
          } else if startDamage == 0 {
            startDamage := Max(1, (amount + 19) / 20); // the amount divided by 20, rounded up
          }
          start := startDamage;
          var list := GenerateDamageList(amount, startDamage);
          FallingRange(list, start);
          AddAll(list, start);
          hits := list;
        }
      }
      return damageList != [], start, hits;
    }

    /** One hit of the list after the other, a tick interval apart. */
    method AddAll(list: seq<int>, ghost start: int)
      requires periodDamage == 0 && damageList == [] && ticks == 0
      requires forall k :: 0 <= k < |list| ==> 1 <= list[k] <= start
      modifies this
      ensures periodDamage == 0 && tickInterval == old(tickInterval) && maxDamage == old(maxDamage)
      ensures |damageList| == |list| && ticks == |list| * tickInterval && Damage(damageList) == -Total(list)
      ensures forall k :: 0 <= k < |list| ==> damageList[k] == IntervalInfo(tickInterval, tickInterval, -list[k])
    {
      hide Total, Damage;
      NoDamage();
      TotalNothing();
      assert list[..0] == [];
      for i := 0 to |list|
        invariant periodDamage == 0 && maxDamage == old(maxDamage) && tickInterval == old(tickInterval)
        invariant |damageList| == i && ticks == i * tickInterval
        invariant Damage(damageList) == -Total(list[..i])
        invariant forall k :: 0 <= k < i ==> damageList[k] == IntervalInfo(tickInterval, tickInterval, -list[k])
      {
        ghost var before := damageList;
        var _ := AddDamage(1, tickInterval, -list[i]);
        assert damageList == before + [IntervalInfo(tickInterval, tickInterval, -list[i])];
        DamageGrows(before, IntervalInfo(tickInterval, tickInterval, -list[i]));
        assert list[..i + 1] == list[..i] + [list[i]];
        TotalGrows(list[..i], list[i]);
        assert (i + 1) * tickInterval == i * tickInterval + 1 * tickInterval;
      }
      assert list[..|list|] == list;
    }
  }

  lemma NoDamage()
    ensures Damage([]) == 0
  {
  }

  lemma TotalNothing()
    ensures Total([]) == 0
  {
  }

  lemma FallingRange(list: seq<int>, start: int)
    ensures start > 0 && Falling(list, start, 1) ==> forall k :: 0 <= k < |list| ==> 1 <= list[k] <= start
  {
  }
}
