/**
 The decay wheel: sixteen buckets of decaying items, one of which is looked at every second.
 Timing is in milliseconds, ticks are looks.
 */
module DecayWheel {
  import opened Wrappers

  const EVENT_DECAYINTERVAL := 1000
  const EVENT_DECAY_BUCKETS := 16

  /** The time of one turn of the wheel. */
  const TURN := EVENT_DECAYINTERVAL * EVENT_DECAY_BUCKETS

  // ---------------------------------------------------------------------------------------
  // Timing

  /** How many ticks until bucket b is looked at, when last was looked at last: 1 to 16. */
  function Wait(last: nat, b: nat): (w: nat)
    ensures 1 <= w <= EVENT_DECAY_BUCKETS
  {
    (b - last - 1) % EVENT_DECAY_BUCKETS + 1
  }

  /** What becomes of an item when its bucket is looked at. */
  datatype Fate = Stays | GoesTo(bucket: nat) | Decays | IsDropped

  /** The time left after a look. */
  function Left(dur: int): int {
    if dur - TURN < 0 then 0 else dur - TURN
  }

  /** The bucket for the rest of the time, rounded to full seconds. */
  function NewBucket(dur: int, bucket: nat): nat
    requires dur >= 0
  {
    (bucket + (dur + EVENT_DECAYINTERVAL / 2) / 1000) % EVENT_DECAY_BUCKETS
  }

  function FateOf(dur: int, canDecay: bool, bucket: nat): Fate
    requires bucket < EVENT_DECAY_BUCKETS
  {
    var left := Left(dur);
    if !canDecay then IsDropped
    else if left <= 0 then Decays
    else if left < TURN then
      if NewBucket(left, bucket) == bucket then Decays else GoesTo(NewBucket(left, bucket))
    else Stays
  }

  /** The bucket of an item that is scheduled. */
  function FirstBucket(dur: int, last: nat): nat
    requires dur > 0 && last < EVENT_DECAY_BUCKETS
  {
    if dur >= TURN then last else (last + 1 + dur / 1000) % EVENT_DECAY_BUCKETS
  }

  /** How many ticks follow on a look at an item until it decays: none if it decays there and then. */
  function More(dur: int): nat
    decreases if dur > 0 then dur else 0
  {
    var left := Left(dur);
    if left <= 0 then 0
    else if left < TURN then (left + EVENT_DECAYINTERVAL / 2) / 1000 % EVENT_DECAY_BUCKETS
    else EVENT_DECAY_BUCKETS + More(left)
  }

  /** How many ticks until an item decays that lies in bucket b with time dur to go. */
  function Due(last: nat, b: nat, dur: int): nat {
    Wait(last, b) + More(dur)
  }

  /** The tick at which an item of this duration decays, counted from when it is scheduled. */
  function DecayTick(dur: int): nat
    requires dur > 0
  {
    if dur < TURN then dur / 1000 + 1
    else dur / TURN * EVENT_DECAY_BUCKETS + (dur % TURN + 500) / 1000 % EVENT_DECAY_BUCKETS
  }

  lemma {:induction false} MoreIs(dur: int)
    requires dur >= TURN
    ensures EVENT_DECAY_BUCKETS + More(dur) == DecayTick(dur)
    decreases dur
  {
    TurnLess(dur);
    if dur >= 2 * TURN {
      MoreIs(dur - TURN);
      hide DecayTick;
      TickTurnLess(dur);
    }
  }

  lemma TurnLess(dur: int)
    requires dur >= TURN
    ensures (dur - TURN) / TURN == dur / TURN - 1 && (dur - TURN) % TURN == dur % TURN
    ensures dur < 2 * TURN ==> dur / TURN == 1 && dur % TURN == dur - TURN
  {
  }

  lemma TickTurnLess(dur: int)
    requires dur >= 2 * TURN
    ensures DecayTick(dur) == DecayTick(dur - TURN) + EVENT_DECAY_BUCKETS
  {
    TurnLess(dur);
  }

  /** Scheduling puts an item where it will be due at its tick. */
  lemma DueAtFirst(dur: int, last: nat)
    requires dur > 0 && last < EVENT_DECAY_BUCKETS
    ensures FirstBucket(dur, last) < EVENT_DECAY_BUCKETS
    ensures Due(last, FirstBucket(dur, last), dur) == DecayTick(dur)
  {
    if dur >= TURN {
      MoreIs(dur);
    } else {
      WaitAhead(last, dur / 1000);
    }
  }

  /** A bucket k ahead of the next one is looked at k + 1 ticks from now. */
  lemma WaitAhead(last: nat, k: nat)
    requires last < EVENT_DECAY_BUCKETS && k < EVENT_DECAY_BUCKETS
    ensures Wait(last, (last + 1 + k) % EVENT_DECAY_BUCKETS) == k + 1
  {
  }

  /** Every tick brings the buckets not looked at one tick nearer. */
  lemma WaitPasses(last: nat, b: nat)
    requires last < EVENT_DECAY_BUCKETS && b < EVENT_DECAY_BUCKETS && b != (last + 1) % EVENT_DECAY_BUCKETS
    ensures Wait(last, b) == Wait((last + 1) % EVENT_DECAY_BUCKETS, b) + 1
  {
  }

  /** A look decays exactly the items that are due, and brings the others one tick nearer. */
  lemma LookIsOnTime(last: nat, dur: int)
    requires last < EVENT_DECAY_BUCKETS
    ensures var b := (last + 1) % EVENT_DECAY_BUCKETS;
            && (FateOf(dur, true, b).Decays? <==> Due(last, b, dur) == 1)
            && (FateOf(dur, true, b).Stays? ==> Due(last, b, dur) == Due(b, b, Left(dur)) + 1)
            && (FateOf(dur, true, b).GoesTo? ==>
                  var c := FateOf(dur, true, b).bucket;
                  c < EVENT_DECAY_BUCKETS && c != b && Due(last, b, dur) == Due(b, c, Left(dur)) + 1)
  {
    hide Wait, NewBucket;
    var b := (last + 1) % EVENT_DECAY_BUCKETS;
    var left := Left(dur);
    WaitNext(last);
    if 0 < left < TURN {
      BucketAhead(left, b);
    }
  }

  /** The next bucket comes up with the next tick, and again a turn later. */
  lemma WaitNext(last: nat)
    requires last < EVENT_DECAY_BUCKETS
    ensures var b := (last + 1) % EVENT_DECAY_BUCKETS;
            b < EVENT_DECAY_BUCKETS && Wait(last, b) == 1 && Wait(b, b) == EVENT_DECAY_BUCKETS
  {
  }

  /** The new bucket is as many ticks ahead as full seconds are left; a full turn is none. */
  lemma BucketAhead(left: int, b: nat)
    requires 0 < left < TURN && b < EVENT_DECAY_BUCKETS
    ensures var k, c := (left + EVENT_DECAYINTERVAL / 2) / 1000 % EVENT_DECAY_BUCKETS, NewBucket(left, b);
            c < EVENT_DECAY_BUCKETS && (c == b <==> k == 0) && (k > 0 ==> Wait(b, c) == k)
  {
    hide Wait;
    var k := (left + EVENT_DECAYINTERVAL / 2) / 1000;
    if k == EVENT_DECAY_BUCKETS || k == 0 {
      assert NewBucket(left, b) == b;
    } else {
      WaitAhead(b, k - 1);
      assert NewBucket(left, b) == (b + 1 + (k - 1)) % EVENT_DECAY_BUCKETS;
      NotHere(b, k);
    }
  }

  lemma NotHere(b: nat, k: nat)
    requires b < EVENT_DECAY_BUCKETS && 0 < k < EVENT_DECAY_BUCKETS
    ensures (b + k) % EVENT_DECAY_BUCKETS != b
  {
  }

  /** How late an item decays, in milliseconds; negative if it is early. */
  function Lateness(dur: int): int
    requires dur > 0
  {
    DecayTick(dur) * EVENT_DECAYINTERVAL - dur
  }

  /**
   An item is never more than one interval late; and it is more than half an interval early exactly
   if it outlasts a turn and would need more than 15.5 seconds of its last one: those it loses.
   */
  lemma NeverLate(dur: int)
    requires dur > 0
    ensures Lateness(dur) <= EVENT_DECAYINTERVAL
    ensures Lateness(dur) < -500 <==> dur >= TURN && dur % TURN >= 15500
    ensures dur >= TURN && dur % TURN >= 15500 ==> Lateness(dur) == -(dur % TURN)
  {
    if dur >= TURN {
      var k, r := dur / TURN, dur % TURN;
      assert dur == k * TURN + r;
    }
  }

  // ---------------------------------------------------------------------------------------
  // The wheel

  class Item {
    var duration: int
    var canDecay: bool
    var decaying: bool

    constructor (duration: int)
      ensures this.duration == duration && canDecay && !decaying
    {
      this.duration, canDecay, decaying := duration, true, false;
    }
  }

  /** The list in which the items wait to be put into a bucket, behind the buckets. */
  const WAITING: nat := EVENT_DECAY_BUCKETS

  /** place says where every scheduled item is; each is in that one list, and there once. */
  ghost predicate Placed(lists: seq<seq<Item>>, place: map<Item, nat>) {
    && |lists| == WAITING + 1
    && (forall b :: 0 <= b < |lists| ==> Distinct(lists[b]))
    && (forall b, x :: 0 <= b < |lists| && x in lists[b] ==> x in place && place[x] == b)
    && (forall x :: x in place ==> place[x] < |lists| && x in lists[place[x]])
  }

  lemma PlacedAppend(lists: seq<seq<Item>>, place: map<Item, nat>, b: nat, x: Item)
    requires Placed(lists, place) && x !in place && b <= WAITING
    ensures Placed(lists[b := lists[b] + [x]], place[x := b])
  {
    var l := lists[b] + [x];
    assert Distinct(l) by { assert x !in lists[b]; }
  }

  lemma WithoutAt(l: seq<Item>, i: nat)
    requires Distinct(l) && i < |l|
    ensures var m := l[..i] + l[i + 1..];
            Distinct(m) && l[i] !in m && forall x :: x in l && x != l[i] ==> x in m
    ensures forall x :: x in l[..i] + l[i + 1..] ==> x in l
  {
    var m := l[..i] + l[i + 1..];
    forall x | x in l && x != l[i] ensures x in m {
      var j :| 0 <= j < |l| && l[j] == x;
      assert j < i ==> m[j] == x;
      assert j > i ==> m[j - 1] == x;
    }
  }

  lemma PlacedRemove(lists: seq<seq<Item>>, place: map<Item, nat>, b: nat, i: nat)
    requires Placed(lists, place) && b <= WAITING && i < |lists[b]|
    ensures lists[b][i] in place && place[lists[b][i]] == b
    ensures Placed(lists[b := lists[b][..i] + lists[b][i + 1..]], place - {lists[b][i]})
  {
    hide Distinct;
    WithoutAt(lists[b], i);
  }

  lemma PlacedAt(lists: seq<seq<Item>>, place: map<Item, nat>, b: nat)
    requires Placed(lists, place) && b <= WAITING
    ensures Distinct(lists[b]) && forall x :: x in lists[b] <==> x in place && place[x] == b
  {
  }

  class Wheel {
    var decayItems: seq<seq<Item>>
    var toDecayItems: seq<Item>
    var lastBucket: nat
    var decayed: seq<Item>          // the items that have decayed, in order
    ghost var place: map<Item, nat> // where every scheduled item is
    ghost var looks: nat            // how often checkDecay has run

    constructor ()
      ensures Valid() && place == map[] && decayed == [] && lastBucket == 0 && looks == 0
    {
      decayItems, toDecayItems, lastBucket, decayed := seq(EVENT_DECAY_BUCKETS, _ => []), [], 0, [];
      place, looks := map[], 0;
    }

    ghost function Lists(): seq<seq<Item>>
      reads this
    {
      decayItems + [toDecayItems]
    }

    ghost predicate Valid()
      reads this, place.Keys
    {
      && |decayItems| == EVENT_DECAY_BUCKETS && lastBucket < EVENT_DECAY_BUCKETS
      && Placed(Lists(), place)
      && forall x :: x in place ==> x.decaying && x.duration > 0
    }

    /** How many ticks until an item in a bucket decays. */
    ghost function DueIn(x: Item): nat
      requires x in place
      reads this, x
    {
      Due(lastBucket, place[x], x.duration)
    }

    /** Schedules an item; one without duration decays at once. */
    method StartDecay(item: Item)
      requires Valid()
      modifies this`toDecayItems, this`place, this`decayed, item`decaying
      ensures Valid()
      ensures item.canDecay && !old(item.decaying) && item.duration > 0 ==>
                place == old(place)[item := WAITING] && decayed == old(decayed)
      ensures item.canDecay && !old(item.decaying) && item.duration <= 0 ==>
                place == old(place) && decayed == old(decayed) + [item]
      ensures !item.canDecay || old(item.decaying) ==> place == old(place) && decayed == old(decayed)
    {
      hide Placed;
      if item.canDecay {
        if item.decaying {
          // it is on the wheel
          return;
        }
        if item.duration > 0 {
          PlacedAppend(Lists(), place, WAITING, item);
          item.decaying := true;
          toDecayItems := toDecayItems + [item];
          assert Lists() == old(Lists())[WAITING := toDecayItems];
          place := place[item := WAITING];
        } else {
          decayed := decayed + [item];
        }
      }
    }

    lemma FirstBucketIs(dur: int, last: nat)
      requires dur > 0 && last < EVENT_DECAY_BUCKETS
      ensures FirstBucket(dur, last) == if dur >= TURN then last else (last + 1 + dur / 1000) % EVENT_DECAY_BUCKETS
    {
    }

    /** Puts the waiting items into their buckets. */
    method Cleanup()
      requires Valid()
      modifies this`decayItems, this`toDecayItems, this`place
      ensures Valid() && toDecayItems == []
      ensures place.Keys == old(place.Keys)
      ensures forall x :: x in place ==>
                place[x] == if old(place[x]) == WAITING then FirstBucket(x.duration, lastBucket) else old(place[x])
    {
      hide Placed, Distinct, FirstBucket;
      while toDecayItems != []
        invariant Valid() && place.Keys == old(place.Keys)
        invariant forall x :: x in place && place[x] == WAITING ==> old(place[x]) == WAITING
        invariant forall x :: x in place && place[x] != WAITING ==>
                    place[x] == if old(place[x]) == WAITING then FirstBucket(x.duration, lastBucket) else old(place[x])
        decreases |toDecayItems|
      {
        ghost var lists, was := Lists(), place;
        var item := toDecayItems[0];
        PlacedRemove(lists, was, WAITING, 0);
        var dur := item.duration;
        var bucket := if dur >= TURN then lastBucket else (lastBucket + 1 + dur / 1000) % EVENT_DECAY_BUCKETS;
        assert bucket == FirstBucket(dur, lastBucket) by { FirstBucketIs(dur, lastBucket); }
        toDecayItems := toDecayItems[1..];
        assert lists[WAITING][..0] + lists[WAITING][1..] == toDecayItems;
        assert Lists() == lists[WAITING := lists[WAITING][..0] + lists[WAITING][1..]];
        place := place - {item};
        Insert(bucket, item);
      }
      PlacedAt(Lists(), place, WAITING);
      assert Lists()[WAITING] == [];
    }

    /** Looks at item number i of the bucket. */
    method Look(bucket: nat, i: nat, item: Item) returns (stays: bool)
      requires Valid() && bucket < EVENT_DECAY_BUCKETS && i < |decayItems[bucket]| && item == decayItems[bucket][i]
      modifies this`decayItems, this`place, this`decayed, item`duration, item`decaying
      ensures Valid()
      ensures Fulfilled(FateOf(old(item.duration), item.canDecay, bucket), item, old(item.duration), bucket,
                        place, old(place), decayed, old(decayed))
      ensures decayItems[bucket] == if stays then old(decayItems[bucket])
                                    else old(decayItems[bucket])[..i] + old(decayItems[bucket])[i + 1..]
      ensures stays <==> FateOf(old(item.duration), item.canDecay, bucket).Stays?
    {
      hide Placed, Distinct;
      ghost var lists, was := Lists(), place;
      PlacedAt(lists, was, bucket);
      PlacedRemove(lists, was, bucket, i);
      var decreaseTime := TURN;
      if item.duration - decreaseTime < 0 {
        decreaseTime := item.duration;
      }
      item.duration := item.duration - decreaseTime;
      stays := false;
      if !item.canDecay {
        item.decaying := false;
        Erase(bucket, i);
        return;
      }
      var dur := item.duration;
      if dur <= 0 {
        Erase(bucket, i);
        InternalDecayItem(item);
      } else if dur < TURN {
        Erase(bucket, i);
        var newBucket := (bucket + (dur + EVENT_DECAYINTERVAL / 2) / 1000) % EVENT_DECAY_BUCKETS;
        if newBucket == bucket {
          InternalDecayItem(item);
        } else {
          Insert(newBucket, item);
        }
      } else {
        stays := true;
      }
    }

    method Insert(bucket: nat, item: Item)
      requires |decayItems| == EVENT_DECAY_BUCKETS && Placed(Lists(), place)
      requires bucket < EVENT_DECAY_BUCKETS && item !in place
      modifies this`decayItems, this`place
      ensures |decayItems| == EVENT_DECAY_BUCKETS && Placed(Lists(), place)
      ensures place == old(place)[item := bucket]
      ensures decayItems == old(decayItems)[bucket := old(decayItems)[bucket] + [item]]
    {
      hide Placed;
      ghost var lists := Lists();
      PlacedAppend(lists, place, bucket, item);
      place := place[item := bucket];
      decayItems := decayItems[bucket := decayItems[bucket] + [item]];
      assert Lists() == lists[bucket := lists[bucket] + [item]];
    }

    method Erase(bucket: nat, i: nat)
      requires |decayItems| == EVENT_DECAY_BUCKETS && Placed(Lists(), place)
      requires bucket < EVENT_DECAY_BUCKETS && i < |decayItems[bucket]|
      modifies this`decayItems, this`place
      ensures |decayItems| == EVENT_DECAY_BUCKETS && Placed(Lists(), place)
      ensures place == old(place) - {old(decayItems[bucket][i])}
      ensures decayItems == old(decayItems)[bucket := old(decayItems[bucket])[..i] + old(decayItems[bucket])[i + 1..]]
    {
      hide Placed;
      ghost var lists := Lists();
      PlacedRemove(lists, place, bucket, i);
      place := place - {decayItems[bucket][i]};
      decayItems := decayItems[bucket := decayItems[bucket][..i] + decayItems[bucket][i + 1..]];
      assert Lists() == lists[bucket := lists[bucket][..i] + lists[bucket][i + 1..]];
    }

    /** Looks at all items of the bucket. */
    method LookAtBucket(bucket: nat)
      requires Valid() && bucket < EVENT_DECAY_BUCKETS
      modifies this`decayItems, this`place, this`decayed, place.Keys`duration, place.Keys`decaying
      ensures Valid()
      ensures |decayed| >= |old(decayed)| && decayed[..|old(decayed)|] == old(decayed)
      ensures LookedAt(bucket, old(place), Durations(old(place.Keys)), place, old(Durations(place.Keys)),
                       Cans(old(place.Keys)), decayed[|old(decayed)|..])
    {
      hide Placed, Distinct, FateOf, Fulfilled, Left, NewBucket, Progress;
      ghost var all, S, n := decayItems[bucket], place.Keys, |decayed|;
      ghost var dur0, cans := Durations(S), Cans(S);
      PlacedAt(Lists(), place, bucket);
      ProgressBegins(bucket, all, place, dur0, cans);
      ghost var k := 0;
      var i := 0;
      assert decayed[n..] == [];
      while i < |decayItems[bucket]|
        invariant Valid() && place.Keys <= S
        invariant 0 <= k <= |all| && i <= |decayItems[bucket]| && decayItems[bucket][i..] == all[k..]
        invariant |decayed| >= n && decayed[..n] == old(decayed)
        invariant Progress(bucket, all, k, old(place), dur0, place, Durations(S), cans, decayed[n..]) && Cans(S) == cans
        decreases |decayItems[bucket]| - i
      {
        var stays := LookNext(bucket, i, decayItems[bucket][i], all, k, old(place), dur0, cans, n);
        k := k + 1;
        if stays {
          i := i + 1;
        }
      }
      ProgressEnds(bucket, all, old(place), dur0, place, Durations(S), cans, decayed[n..]);
    }

    /** One round of the loop over the bucket. */
    method LookNext(bucket: nat, i: nat, item: Item, ghost all: seq<Item>, ghost k: nat, ghost place0: map<Item, nat>,
                    ghost dur0: map<Item, int>, ghost cans: map<Item, bool>, ghost n: nat) returns (stays: bool)
      requires Valid() && bucket < EVENT_DECAY_BUCKETS && i < |decayItems[bucket]| && k < |all| && n <= |decayed|
      requires item == decayItems[bucket][i]
      requires decayItems[bucket][i..] == all[k..] && cans == Cans(place0.Keys)
      requires Progress(bucket, all, k, place0, dur0, place, Durations(place0.Keys), cans, decayed[n..])
      modifies this`decayItems, this`place, this`decayed, item`duration, item`decaying
      ensures Valid() && place.Keys <= old(place.Keys)
      ensures |decayed| >= n && decayed[..n] == old(decayed[..n])
      ensures Progress(bucket, all, k + 1, place0, dur0, place, Durations(place0.Keys), cans, decayed[n..])
      ensures cans == Cans(place0.Keys)
      ensures |decayItems[bucket]| == old(|decayItems[bucket]|) - (if stays then 0 else 1)
      ensures (if stays then i + 1 else i) <= |decayItems[bucket]|
      ensures decayItems[bucket][if stays then i + 1 else i..] == all[k + 1..]
    {
      hide Placed, Distinct, FateOf, Fulfilled, Left, NewBucket, Progress;
      ghost var S, was, before, dur := place0.Keys, place, decayed, Durations(place0.Keys);
      assert item == all[k..][0] == all[k];
      ProgressAt(bucket, all, k, place0, dur0, place, dur, cans, decayed[n..]);
      FreshIn(all, k);
      DurationOf(S, item);
      stays := Look(bucket, i, item);
      assert Durations(S) == dur[item := item.duration];
      assert Cans(S) == cans;
      MetOne(FateOf(dur0[item], cans[item], bucket), item, dur0[item], bucket, place, was, decayed, before, n);
      ProgressStep(bucket, all, k, place0, dur0, was, dur, cans, before[n..], place, item.duration, decayed[n..]);
    }

    lemma PlacesHere()
      requires Valid()
      ensures lastBucket < EVENT_DECAY_BUCKETS
      ensures forall x :: x in place ==> place[x] <= WAITING && x.duration > 0
    {
      PlacesAre(Lists(), place);
    }

    /** The bucket behind the last one is looked at. */
    method LookAtNext()
      requires Valid()
      modifies this`decayItems, this`place, this`decayed, this`lastBucket, this`looks
      modifies place.Keys`duration, place.Keys`decaying
      ensures Valid() && lastBucket == (old(lastBucket) + 1) % EVENT_DECAY_BUCKETS && looks == old(looks) + 1
      ensures |decayed| >= |old(decayed)| && decayed[..|old(decayed)|] == old(decayed)
      ensures LookedAt(lastBucket, old(place), Durations(old(place.Keys)), place, old(Durations(place.Keys)),
                       Cans(old(place.Keys)), decayed[|old(decayed)|..])
    {
      hide Placed, LookedAt;
      var bucket := (lastBucket + 1) % EVENT_DECAY_BUCKETS;
      LookAtBucket(bucket);
      lastBucket, looks := bucket, looks + 1;
    }

    /**
     One tick of the wheel. Items that were due decay, the others are one tick nearer; an item that may
     no longer decay is dropped when its bucket comes up. Items that waited get their places.
     */
    method CheckDecay()
      requires Valid()
      modifies this, place.Keys`duration, place.Keys`decaying
      ensures Valid() && toDecayItems == [] && place.Keys <= old(place.Keys) && looks == old(looks) + 1
      ensures |decayed| >= |old(decayed)| && decayed[..|old(decayed)|] == old(decayed)
      ensures forall x :: x in old(place) && old(place[x]) == WAITING ==>
                x in place && x.duration == old(x.duration) && DueIn(x) == DecayTick(x.duration)
      ensures forall x :: x in old(place) && old(place[x]) != WAITING && x.canDecay ==>
                if old(DueIn(x)) == 1 then x !in place && x in decayed[|old(decayed)|..]
                else x in place && x !in decayed[|old(decayed)|..] && DueIn(x) == old(DueIn(x)) - 1
      ensures forall x :: x in place ==> place[x] != WAITING
      ensures forall x :: x in decayed[|old(decayed)|..] ==>
                x in old(place) && old(place[x]) != WAITING && x.canDecay && old(DueIn(x)) == 1
    {
      hide Placed, Due, DecayTick, FateOf, Met, FirstBucket, LookedAt, Valid;
      ghost var place0, dur0, cans, last := place, Durations(place.Keys), Cans(place.Keys), lastBucket;
      PlacesHere();
      LookAtNext();
      PlacesHere();
      assert Cans(place0.Keys) == cans;
      LookedKeys(lastBucket, place0, Durations(place0.Keys), place, dur0, cans, decayed[|old(decayed)|..]);
      ghost var place1, dur1, gone := place, Durations(place0.Keys), decayed[|old(decayed)|..];
      Cleanup();
      TickIsRight(last, place0, dur0, place1, dur1, cans, gone, place);
      assert forall x :: x in place0 ==> dur0[x] == old(x.duration) && dur1[x] == x.duration && cans[x] == x.canDecay;
    }

    /**
     Lets the wheel turn until a scheduled item has decayed. Counted from the first tick after its
     placing, that takes exactly the tick its duration says, whatever else is on the wheel: the tick that
     places it, and as many more as ticks says.
     */
    method RunUntilDecayed(item: Item) returns (ticks: nat)
      requires Valid() && item in place && place[item] == WAITING && item.canDecay
      modifies this, place.Keys`duration, place.Keys`decaying
      ensures Valid() && item !in place && item in decayed
      ensures ticks == DecayTick(old(item.duration)) && looks == old(looks) + 1 + ticks
    {
      hide Placed, Due, DecayTick;
      CheckDecay();   // places it
      ghost var S, all := old(place.Keys), DueIn(item);
      ticks := 0;
      var gone := false;
      while !gone
        invariant Valid() && place.Keys <= S && item.canDecay && looks == old(looks) + 1 + ticks
        invariant gone <==> item !in place
        invariant !gone ==> place[item] != WAITING && DueIn(item) + ticks == all
        invariant gone ==> ticks == all && item in decayed
        decreases if item in place then DueIn(item) + 1 else 0
      {
        DueIsPositive(lastBucket, place[item], item.duration);
        var before := |decayed|;
        CheckDecay();
        assert decayed == decayed[..before] + decayed[before..];
        ticks := ticks + 1;
        gone := item in decayed[before..];
      }
    }

    method InternalDecayItem(item: Item)
      modifies this`decayed, item`decaying
      ensures decayed == old(decayed) + [item] && !item.decaying
    {
      item.decaying := false;
      decayed := decayed + [item];
    }
  }

  /** What a look has done with an item, according to its fate. */
  ghost predicate Fulfilled(fate: Fate, item: Item, dur: int, bucket: nat, place: map<Item, nat>, was: map<Item, nat>,
                            decayed: seq<Item>, before: seq<Item>)
    reads item
  {
    match fate
    case Stays => place == was && decayed == before && item.duration == Left(dur)
    case GoesTo(b) => b != bucket && place == was[item := b] && decayed == before && item.duration == Left(dur)
    case Decays => place == was - {item} && decayed == before + [item]
    case IsDropped => place == was - {item} && decayed == before
  }

  ghost function Durations(S: set<Item>): (m: map<Item, int>)
    reads S
    ensures m.Keys == S
  {
    map x | x in S :: x.duration
  }

  ghost function Cans(S: set<Item>): (m: map<Item, bool>)
    reads S
    ensures m.Keys == S
  {
    map x | x in S :: x.canDecay
  }

  lemma DurationOf(S: set<Item>, x: Item)
    requires x in S
    ensures Durations(S)[x] == x.duration && Cans(S)[x] == x.canDecay
  {
  }

  /** What has become of an item after a look at its bucket; gone are the items decayed since. */
  ghost predicate Met(fate: Fate, x: Item, dur: int, left: int, bucket: nat, place: map<Item, nat>, gone: seq<Item>) {
    match fate
    case Stays => x in place && place[x] == bucket && x !in gone && left == Left(dur)
    case GoesTo(b) => x in place && place[x] == b && x !in gone && left == Left(dur)
    case Decays => x !in place && x in gone
    case IsDropped => x !in place && x !in gone
  }

  lemma MetOne(fate: Fate, x: Item, dur: int, bucket: nat, place: map<Item, nat>, was: map<Item, nat>,
               decayed: seq<Item>, before: seq<Item>, n: nat)
    requires Fulfilled(fate, x, dur, bucket, place, was, decayed, before)
    requires x in was && was[x] == bucket && n <= |before| && x !in before[n..]
    ensures |decayed| >= n && decayed[..n] == before[..n]
    ensures Met(fate, x, dur, x.duration, bucket, place, decayed[n..])
    ensures decayed[n..] == before[n..] + (if fate.Decays? then [x] else [])
    ensures place.Keys <= was.Keys
    ensures forall y :: y in was && y != x ==> y in place && place[y] == was[y]
  {
    if fate.Decays? {
      assert (before + [x])[n..] == before[n..] + [x];
    } else {
      assert before[n..] + [] == before[n..];
    }
  }

  /** The first k items of the bucket have been looked at, and nothing else has happened. */
  ghost predicate Progress(bucket: nat, all: seq<Item>, k: nat, place0: map<Item, nat>, dur0: map<Item, int>,
                           place: map<Item, nat>, dur: map<Item, int>, cans: map<Item, bool>, gone: seq<Item>) {
    && bucket < EVENT_DECAY_BUCKETS && k <= |all| && Bucketed(bucket, all, place0)
    && dur0.Keys == dur.Keys == cans.Keys == place0.Keys && place.Keys <= place0.Keys
    && RestStays(all[..k], place0, dur0, place, dur)
    && AllMet(bucket, all, k, place0, dur0, place, dur, cans, gone)
  }

  lemma ProgressBegins(bucket: nat, all: seq<Item>, place: map<Item, nat>, dur: map<Item, int>, cans: map<Item, bool>)
    requires bucket < EVENT_DECAY_BUCKETS && dur.Keys == cans.Keys == place.Keys
    requires Distinct(all) && forall x :: x in all <==> x in place && place[x] == bucket
    ensures Progress(bucket, all, 0, place, dur, place, dur, cans, [])
  {
  }

  lemma ProgressAt(bucket: nat, all: seq<Item>, k: nat, place0: map<Item, nat>, dur0: map<Item, int>,
                   place: map<Item, nat>, dur: map<Item, int>, cans: map<Item, bool>, gone: seq<Item>)
    requires Progress(bucket, all, k, place0, dur0, place, dur, cans, gone) && k < |all|
    ensures var x := all[k];
            && x in place0 && x in place && place[x] == bucket && x !in gone
            && x in dur0 && x in dur && x in cans && dur[x] == dur0[x]
    ensures Distinct(all)
  {
    FreshIn(all, k);
    assert all[k] in all;
  }

  /** The parts of Progress that do not change as it goes on. */
  ghost predicate Bucketed(bucket: nat, all: seq<Item>, place0: map<Item, nat>) {
    && Distinct(all)
    && (forall x :: x in all ==> x in place0 && place0[x] == bucket)
    && (forall x :: x in place0 && place0[x] == bucket ==> x in all)
  }

  /** Whatever has not been looked at is as it was. */
  ghost predicate RestStays(seen: seq<Item>, place0: map<Item, nat>, dur0: map<Item, int>, place: map<Item, nat>,
                            dur: map<Item, int>)
    requires dur0.Keys == dur.Keys == place0.Keys
  {
    forall x :: x in place0 && x !in seen ==> x in place && place[x] == place0[x] && dur[x] == dur0[x]
  }

  /** The first k items have met their fate. */
  ghost predicate AllMet(bucket: nat, all: seq<Item>, k: nat, place0: map<Item, nat>, dur0: map<Item, int>,
                         place: map<Item, nat>, dur: map<Item, int>, cans: map<Item, bool>, gone: seq<Item>)
    requires bucket < EVENT_DECAY_BUCKETS && dur0.Keys == dur.Keys == cans.Keys == place0.Keys && k <= |all|
  {
    && (forall x :: x in all[..k] ==>
          x in place0 && Met(FateOf(dur0[x], cans[x], bucket), x, dur0[x], dur[x], bucket, place, gone))
    && (forall x :: x in gone ==> x in all[..k] && x !in place)
  }

  lemma ProgressStep(bucket: nat, all: seq<Item>, k: nat, place0: map<Item, nat>, dur0: map<Item, int>,
                     was: map<Item, nat>, dur: map<Item, int>, cans: map<Item, bool>, gone: seq<Item>,
                     place: map<Item, nat>, left: int, gone': seq<Item>)
    requires Progress(bucket, all, k, place0, dur0, was, dur, cans, gone) && k < |all|
    requires all[k] in dur0 && all[k] in cans
    requires var x := all[k];
             var fate := FateOf(dur0[x], cans[x], bucket);
             && Met(fate, x, dur0[x], left, bucket, place, gone')
             && gone' == gone + (if fate.Decays? then [x] else [])
             && place.Keys <= was.Keys && (forall y :: y in was && y != x ==> y in place && place[y] == was[y])
    ensures Progress(bucket, all, k + 1, place0, dur0, place, dur[all[k] := left], cans, gone')
  {
    hide Bucketed, AllMet, RestStays, FateOf, Left, Met;
    BucketIsDistinct(bucket, all, place0);
    FreshIn(all, k);
    MetGrows(bucket, all, k, place0, dur0, was, dur, cans, gone, place, left, gone');
    OthersStay(bucket, all, k, place0, dur0, was, dur, cans, gone, place, left);
  }

  lemma BucketIsDistinct(bucket: nat, all: seq<Item>, place0: map<Item, nat>)
    requires Bucketed(bucket, all, place0)
    ensures Distinct(all)
  {
  }

  /** The items yet to be looked at are as they were. */
  lemma OthersStay(bucket: nat, all: seq<Item>, k: nat, place0: map<Item, nat>, dur0: map<Item, int>,
                   was: map<Item, nat>, dur: map<Item, int>, cans: map<Item, bool>, gone: seq<Item>,
                   place: map<Item, nat>, left: int)
    requires Progress(bucket, all, k, place0, dur0, was, dur, cans, gone) && k < |all| && all[k] in dur0
    requires place.Keys <= was.Keys && (forall y :: y in was && y != all[k] ==> y in place && place[y] == was[y])
    ensures RestStays(all[..k + 1], place0, dur0, place, dur[all[k] := left])
  {
    hide Bucketed, AllMet;
    assert all[..k + 1] == all[..k] + [all[k]];
  }

  /** With the next item, one more has met its fate. */
  lemma MetGrows(bucket: nat, all: seq<Item>, k: nat, place0: map<Item, nat>, dur0: map<Item, int>,
                 was: map<Item, nat>, dur: map<Item, int>, cans: map<Item, bool>, gone: seq<Item>,
                 place: map<Item, nat>, left: int, gone': seq<Item>)
    requires Progress(bucket, all, k, place0, dur0, was, dur, cans, gone) && k < |all|
    requires all[k] !in all[..k] && all[k] in dur0
    requires var x := all[k];
             var fate := FateOf(dur0[x], cans[x], bucket);
             && Met(fate, x, dur0[x], left, bucket, place, gone')
             && gone' == gone + (if fate.Decays? then [x] else [])
             && place.Keys <= was.Keys && (forall y :: y in was && y != x ==> y in place && place[y] == was[y])
    ensures AllMet(bucket, all, k + 1, place0, dur0, place, dur[all[k] := left], cans, gone')
  {
    hide Bucketed, RestStays, FateOf, Left, Met;
    var x := all[k];
    assert all[..k + 1] == all[..k] + [x];
    MetDecays(FateOf(dur0[x], cans[x], bucket), x, dur0[x], left, bucket, place, gone');
    forall y | y in all[..k]
      ensures Met(FateOf(dur0[y], cans[y], bucket), y, dur0[y], dur[y], bucket, place, gone')
    {
      MetStill(FateOf(dur0[y], cans[y], bucket), y, dur0[y], dur[y], bucket, was, gone, place, gone');
    }
  }

  lemma MetDecays(fate: Fate, x: Item, dur: int, left: int, bucket: nat, place: map<Item, nat>, gone: seq<Item>)
    requires Met(fate, x, dur, left, bucket, place, gone)
    ensures fate.Decays? ==> x !in place
  {
  }

  /** What happens to another item does not matter to y. */
  lemma MetStill(fate: Fate, y: Item, dur: int, left: int, bucket: nat, was: map<Item, nat>, gone: seq<Item>,
                 place: map<Item, nat>, gone': seq<Item>)
    requires Met(fate, y, dur, left, bucket, was, gone)
    requires y in place <==> y in was
    requires y in was ==> place[y] == was[y]
    requires y in gone <==> y in gone'
    ensures Met(fate, y, dur, left, bucket, place, gone')
  {
  }

  /** After a look at a bucket: every item of it has met its fate, the others are as they were. */
  ghost predicate LookedAt(bucket: nat, place0: map<Item, nat>, dur: map<Item, int>, place: map<Item, nat>,
                           dur0: map<Item, int>, cans: map<Item, bool>, gone: seq<Item>) {
    && bucket < EVENT_DECAY_BUCKETS && dur0.Keys == dur.Keys == cans.Keys == place0.Keys && place.Keys <= place0.Keys
    && (forall x :: x in place0 && place0[x] != bucket ==> x in place && place[x] == place0[x] && dur[x] == dur0[x])
    && (forall x :: x in place0 && place0[x] == bucket ==>
          Met(FateOf(dur0[x], cans[x], bucket), x, dur0[x], dur[x], bucket, place, gone))
    && (forall x :: x in gone ==> x in place0 && place0[x] == bucket && x !in place)
  }

  lemma ProgressEnds(bucket: nat, all: seq<Item>, place0: map<Item, nat>, dur0: map<Item, int>,
                     place: map<Item, nat>, dur: map<Item, int>, cans: map<Item, bool>, gone: seq<Item>)
    requires Progress(bucket, all, |all|, place0, dur0, place, dur, cans, gone)
    ensures LookedAt(bucket, place0, dur, place, dur0, cans, gone)
  {
    hide FateOf, Left, Distinct;
    assert all[..|all|] == all;
  }

  lemma FreshIn(all: seq<Item>, k: nat)
    requires Distinct(all) && k < |all|
    ensures all[k] !in all[..k] && all[k..][1..] == all[k + 1..]
  {
  }

  /** What a tick does, in terms of how soon each item is due. */
  lemma TickIsRight(last: nat, place0: map<Item, nat>, dur0: map<Item, int>, place1: map<Item, nat>,
                    dur1: map<Item, int>, cans: map<Item, bool>, gone: seq<Item>, place: map<Item, nat>)
    requires last < EVENT_DECAY_BUCKETS
    requires LookedAt((last + 1) % EVENT_DECAY_BUCKETS, place0, dur1, place1, dur0, cans, gone)
    requires (forall x :: x in place0 ==> place0[x] <= WAITING && dur0[x] > 0)
    requires (forall x :: x in place1 ==> dur1[x] > 0) && place.Keys == place1.Keys
    requires forall x :: x in place ==>
               place[x] == if place1[x] == WAITING
                   then FirstBucket(dur1[x], (last + 1) % EVENT_DECAY_BUCKETS) else place1[x]
    ensures var b := (last + 1) % EVENT_DECAY_BUCKETS;
            && (forall x :: x in place0 && place0[x] == WAITING ==>
                  x in place && dur1[x] == dur0[x] && Due(b, place[x], dur1[x]) == DecayTick(dur1[x]))
            && (forall x :: x in place0 && place0[x] != WAITING && cans[x] ==>
                  if Due(last, place0[x], dur0[x]) == 1 then x !in place && x in gone
                  else x in place && x !in gone && Due(b, place[x], dur1[x]) == Due(last, place0[x], dur0[x]) - 1)
            && (forall x :: x in place ==> place[x] != WAITING)
            && (forall x :: x in gone ==>
                  x in place0 && place0[x] != WAITING && cans[x] && Due(last, place0[x], dur0[x]) == 1)
  {
    hide Due, DecayTick;
    var b := (last + 1) % EVENT_DECAY_BUCKETS;
    forall x | x in place0
      ensures TickOne(last, x, place0, dur0, dur1, cans, gone, place)
    {
      OneTick(last, x, place0, dur0, place1, dur1, cans, gone, place);
    }
  }

  lemma LookedKeys(bucket: nat, place0: map<Item, nat>, dur: map<Item, int>, place: map<Item, nat>,
                   dur0: map<Item, int>, cans: map<Item, bool>, gone: seq<Item>)
    requires LookedAt(bucket, place0, dur, place, dur0, cans, gone)
    ensures place.Keys <= place0.Keys
  {
  }

  lemma DueIsPositive(last: nat, b: nat, dur: int)
    ensures Due(last, b, dur) >= 1
  {
  }

  lemma PlacesAre(lists: seq<seq<Item>>, place: map<Item, nat>)
    requires Placed(lists, place)
    ensures forall x :: x in place ==> place[x] <= WAITING
  {
  }

  /** What a tick does with one item. */
  ghost predicate TickOne(last: nat, x: Item, place0: map<Item, nat>, dur0: map<Item, int>, dur1: map<Item, int>,
                          cans: map<Item, bool>, gone: seq<Item>, place: map<Item, nat>)
    requires last < EVENT_DECAY_BUCKETS && x in place0 && x in dur0 && x in dur1 && x in cans && dur0[x] > 0
  {
    var b := (last + 1) % EVENT_DECAY_BUCKETS;
    if place0[x] == WAITING then
      && x in place && dur1[x] == dur0[x] && place[x] != WAITING && x !in gone
      && Due(b, place[x], dur1[x]) == DecayTick(dur0[x])
    else if cans[x] then
      if Due(last, place0[x], dur0[x]) == 1 then x !in place && x in gone
      else
        && x in place && place[x] != WAITING && x !in gone
        && Due(b, place[x], dur1[x]) == Due(last, place0[x], dur0[x]) - 1
    else x !in gone && (x in place ==> place[x] != WAITING)
  }

  lemma OneTick(last: nat, x: Item, place0: map<Item, nat>, dur0: map<Item, int>, place1: map<Item, nat>,
                dur1: map<Item, int>, cans: map<Item, bool>, gone: seq<Item>, place: map<Item, nat>)
    requires last < EVENT_DECAY_BUCKETS && x in place0
    requires LookedAt((last + 1) % EVENT_DECAY_BUCKETS, place0, dur1, place1, dur0, cans, gone)
    requires place0[x] <= WAITING && dur0[x] > 0 && (x in place1 ==> dur1[x] > 0) && place.Keys == place1.Keys
    requires x in place ==>
               place[x] == if place1[x] == WAITING
                   then FirstBucket(dur1[x], (last + 1) % EVENT_DECAY_BUCKETS) else place1[x]
    ensures TickOne(last, x, place0, dur0, dur1, cans, gone, place)
  {
    hide Due, DecayTick, FirstBucket, NewBucket, Left;
    var b := (last + 1) % EVENT_DECAY_BUCKETS;
    if place0[x] == WAITING {
      DueAtFirst(dur0[x], b);
    } else if place0[x] != b {
      DuePasses(last, place0[x], dur0[x]);
    } else if cans[x] {
      LookIsOnTime(last, dur0[x]);
    }
  }

  lemma DuePasses(last: nat, b: nat, dur: int)
    requires last < EVENT_DECAY_BUCKETS && b < EVENT_DECAY_BUCKETS && b != (last + 1) % EVENT_DECAY_BUCKETS
    ensures Due((last + 1) % EVENT_DECAY_BUCKETS, b, dur) == Due(last, b, dur) - 1
    ensures Due(last, b, dur) >= 2
  {
    WaitPasses(last, b);
  }
}
