/**
 Haste and paralysis: every speed condition of a creature adds its delta to the creature's speed
 and takes the same delta back when it ends, however it ends and whatever has happened between.
 */
module Speed {
  import opened Wrappers

  datatype ConditionType = CONDITION_HASTE | CONDITION_PARALYZE | OtherType(n: nat) {
    predicate IsSpeed() { CONDITION_HASTE? || CONDITION_PARALYZE? }
  }

  /** ticks is -1 for a condition without end; endTime is the time of the clock at which it runs out. */
  datatype Condition = Condition(typ: ConditionType, id: int, ticks: int, speedDelta: int, endTime: int)

  /** setTicks */
  function WithTicks(c: Condition, ticks: int, now: int): Condition {
    c.(ticks := ticks, endTime := ticks + now)
  }

  /** What executeCondition leaves of a condition, and whether it goes on. */
  function Aged(c: Condition, interval: nat): Condition {
    if c.ticks != -1 then c.(ticks := Max(0, c.ticks - interval)) else c
  }

  predicate GoesOn(c: Condition, now: int) {
    c.ticks != -1 ==> c.endTime >= now
  }

  /** The conditions that outlast a tick of the clock, in their order. */
  function Survivors(list: seq<Condition>, interval: nat, now: int): seq<Condition> {
    if list == [] then []
    else (if GoesOn(list[0], now) then [Aged(list[0], interval)] else []) + Survivors(list[1..], interval, now)
  }

  /** A condition in the list has survived, and every survivor was in the list. */
  lemma {:induction false} SurvivorsAre(list: seq<Condition>, interval: nat, now: int)
    ensures forall c :: c in list && GoesOn(c, now) ==> Aged(c, interval) in Survivors(list, interval, now)
    ensures forall d :: d in Survivors(list, interval, now) ==>
              exists c :: c in list && GoesOn(c, now) && d == Aged(c, interval)
  {
    if list != [] { SurvivorsAre(list[1..], interval, now); }
  }

  /** startCondition: the clock of a condition starts with it. */
  function Started(c: Condition, delta: int, now: int): Condition {
    if c.ticks > 0 then WithTicks(c, c.ticks, now).(speedDelta := delta) else c.(speedDelta := delta)
  }

  /** addCondition of a condition in the list, with a new one of its type. */
  function Merged(c: Condition, condition: Condition, delta: int, now: int): Condition {
    if c.ticks == -1 && condition.ticks > 0 then c
    else if c.typ.IsSpeed() then WithTicks(c, condition.ticks, now).(speedDelta := delta)
    else if condition.ticks >= 0 && c.endTime > now + condition.ticks then c
    else WithTicks(c, condition.ticks, now)
  }

  /** The place of the first condition of this type and id, or the length of the list. */
  function PlaceIn(list: seq<Condition>, typ: ConditionType, id: int): (i: nat)
    ensures i <= |list| && forall j :: 0 <= j < i ==> !(list[j].typ == typ && list[j].id == id)
    ensures i < |list| ==> list[i].typ == typ && list[i].id == id
  {
    if list == [] || (list[0].typ == typ && list[0].id == id) then 0 else 1 + PlaceIn(list[1..], typ, id)
  }

  /** The list without the conditions of a type, in its order. */
  function Dispelled(list: seq<Condition>, typ: ConditionType): (r: seq<Condition>)
    ensures forall c :: c in r <==> c in list && c.typ != typ
  {
    if list == [] then [] else (if list[0].typ != typ then [list[0]] else []) + Dispelled(list[1..], typ)
  }

  /** The list after addCondition: merged, or started and its opposite driven out. */
  function WithAdded(list: seq<Condition>, condition: Condition, delta: int, now: int, hasHaste: bool,
                     hasParalyze: bool): seq<Condition>
  {
    var i := PlaceIn(list, condition.typ, condition.id);
    var longer := list + [Started(condition, delta, now)];
    if i < |list| then list[i := Merged(list[i], condition, delta, now)]
    else if condition.typ == CONDITION_PARALYZE && hasHaste then Dispelled(longer, CONDITION_HASTE)
    else if condition.typ == CONDITION_HASTE && hasParalyze then Dispelled(longer, CONDITION_PARALYZE)
    else longer
  }

  /** The sum of the deltas of the speed conditions in a list. */
  function Deltas(list: seq<Condition>): int {
    if list == [] then 0
    else (if list[0].typ.IsSpeed() then list[0].speedDelta else 0) + Deltas(list[1..])
  }

  lemma {:induction false} DeltasConcat(s: seq<Condition>, t: seq<Condition>)
    ensures Deltas(s + t) == Deltas(s) + Deltas(t)
  {
    if s == [] {
      assert s + t == t;
    } else {
      DeltasConcat(s[1..], t);
      assert (s + t)[1..] == s[1..] + t;
    }
  }

  lemma DeltasOne(c: Condition)
    ensures Deltas([c]) == if c.typ.IsSpeed() then c.speedDelta else 0
  {
    assert [c][1..] == [];
  }

  lemma DeltasErase(s: seq<Condition>, i: nat)
    requires i < |s|
    ensures Deltas(s[..i] + s[i + 1..]) == Deltas(s) - (if s[i].typ.IsSpeed() then s[i].speedDelta else 0)
  {
    hide Deltas;
    assert s == s[..i] + ([s[i]] + s[i + 1..]);
    DeltasConcat(s[..i], [s[i]] + s[i + 1..]);
    DeltasConcat([s[i]], s[i + 1..]);
    DeltasConcat(s[..i], s[i + 1..]);
    DeltasOne(s[i]);
  }

  lemma DeltasUpdate(s: seq<Condition>, i: nat, c: Condition)
    requires i < |s| && c.typ == s[i].typ
    ensures Deltas(s[i := c]) == Deltas(s) + (if c.typ.IsSpeed() then c.speedDelta - s[i].speedDelta else 0)
  {
    var t := s[i := c];
    DeltasErase(s, i);
    DeltasErase(t, i);
    assert t[..i] + t[i + 1..] == s[..i] + s[i + 1..];
  }

  lemma {:induction false} NoSpeedNoDelta(s: seq<Condition>)
    requires forall c :: c in s ==> !c.typ.IsSpeed()
    ensures Deltas(s) == 0
  {
    if s != [] { NoSpeedNoDelta(s[1..]); }
  }

  class Creature {
    var baseSpeed: int
    var varSpeed: int
    var conditions: seq<Condition>
    ghost var others: int   // what other callers of changeSpeed have added in all

    constructor (baseSpeed: int)
      ensures Valid() && others == 0 && conditions == [] && this.baseSpeed == baseSpeed
    {
      this.baseSpeed, varSpeed, conditions, others := baseSpeed, 0, [], 0;
    }

    /** The speed is off its base by the listed conditions and by what others have done, no more and no less. */
    ghost predicate Valid()
      reads this
    {
      varSpeed == Deltas(conditions) + others
    }

    function GetSpeed(): int
      reads this
    {
      baseSpeed + varSpeed
    }

    /** Once no speed condition is left, the speed is the base speed and what others have added. */
    lemma BackToBase()
      requires Valid() && forall c :: c in conditions ==> !c.typ.IsSpeed()
      ensures GetSpeed() == baseSpeed + others
    {
      NoSpeedNoDelta(conditions);
    }

    method ChangeSpeed(delta: int)
      modifies this`varSpeed
      ensures varSpeed == old(varSpeed) + delta
    {
      var v := GetSpeed() - baseSpeed;
      v := v + delta;
      varSpeed := v;
    }

    /** A change by somebody else: equipment, a script. */
    method ChangeSpeedOtherwise(delta: int)
      requires Valid()
      modifies this`varSpeed, this`others
      ensures Valid() && others == old(others) + delta && conditions == old(conditions)
    {
      ChangeSpeed(delta);
      others := others + delta;
    }

    /** The place of the first condition of this type and id, or the length of the list. */
    method GetCondition(typ: ConditionType, id: int) returns (i: nat)
      ensures i == PlaceIn(conditions, typ, id)
    {
      i := 0;
      while i < |conditions| && !(conditions[i].typ == typ && conditions[i].id == id)
        invariant i <= |conditions|
        invariant forall j :: 0 <= j < i ==> !(conditions[j].typ == typ && conditions[j].id == id)
      {
        i := i + 1;
      }
    }

    /** Ends condition number i. */
    method End(i: nat)
      requires Valid() && i < |conditions|
      modifies this`varSpeed, this`conditions
      ensures Valid() && conditions == old(conditions)[..i] + old(conditions)[i + 1..]
      ensures GetSpeed() == old(GetSpeed()) - if old(conditions)[i].typ in {CONDITION_HASTE, CONDITION_PARALYZE}
                                              then old(conditions)[i].speedDelta else 0
    {
      var condition := conditions[i];
      DeltasErase(conditions, i);
      conditions := conditions[..i] + conditions[i + 1..];
      if condition.typ.IsSpeed() {
        ChangeSpeed(-condition.speedDelta);
      }
    }

    /** Ends all conditions of a type: dispelled, or driven out by their opposite. */
    method RemoveCondition(typ: ConditionType)
      requires Valid()
      modifies this`varSpeed, this`conditions
      ensures Valid() && conditions == Dispelled(old(conditions), typ)
    {
      ghost var all := Dispelled(conditions, typ);
      var i := 0;
      assert conditions[0..] == conditions && conditions[..0] == [];
      assert [] + all == all;
      while i < |conditions|
        invariant Valid() && i <= |conditions|
        invariant conditions[..i] + Dispelled(conditions[i..], typ) == all
        decreases |conditions| - i
      {
        ghost var was := conditions;
        DispelledStep(was, i, typ);
        if conditions[i].typ == typ {
          End(i);
          assert conditions[..i] == was[..i] && conditions[i..] == was[i + 1..];
        } else {
          i := i + 1;
        }
      }
      assert conditions[i..] == [] && conditions[..i] == conditions;
      assert conditions + [] == conditions;
    }

    /**
     Adds a condition. One of the same type and id is brought up to date instead; a new haste drives out
     paralysis and the other way round. delta is the speed delta it starts with, drawn from its
     formula if it has none.
     */
    method AddCondition(condition: Condition, delta: int, now: int, hasHaste: bool, hasParalyze: bool)
      requires Valid()
      requires condition.speedDelta != 0 ==> delta == condition.speedDelta
      modifies this`varSpeed, this`conditions
      ensures Valid()
      ensures conditions == WithAdded(old(conditions), condition, delta, now, hasHaste, hasParalyze)
      ensures !Has(old(conditions), condition.typ, condition.id) && !hasHaste && !hasParalyze ==>
                GetSpeed() == old(GetSpeed()) + if condition.typ in {CONDITION_HASTE, CONDITION_PARALYZE}
                                                then delta else 0
    {
      var i := GetCondition(condition.typ, condition.id);
      if i < |conditions| {
        Merge(i, condition, delta, now);
        return;
      }
      var started := Started(condition, delta, now);
      if started.typ.IsSpeed() {
        ChangeSpeed(started.speedDelta);
      }
      DeltasConcat(conditions, [started]);
      DeltasOne(started);
      conditions := conditions + [started];
      // onAddCondition
      if condition.typ == CONDITION_PARALYZE && hasHaste {
        RemoveCondition(CONDITION_HASTE);
      } else if condition.typ == CONDITION_HASTE && hasParalyze {
        RemoveCondition(CONDITION_PARALYZE);
      }
    }

    /**
     ConditionSpeed::addCondition: the condition in the list takes over the new one's delta and time.
     One of another kind takes over the time, unless it lasts longer itself.
     */
    method Merge(i: nat, condition: Condition, delta: int, now: int)
      requires Valid() && i < |conditions| && conditions[i].typ == condition.typ
      modifies this`varSpeed, this`conditions
      ensures Valid() && conditions == old(conditions)[i := Merged(old(conditions)[i], condition, delta, now)]
      ensures GetSpeed() - old(GetSpeed())
           == if condition.typ in {CONDITION_HASTE, CONDITION_PARALYZE}
                 && !(old(conditions)[i].ticks == -1 && condition.ticks > 0)
              then delta - old(conditions)[i].speedDelta else 0
    {
      var c := conditions[i];
      if c.ticks == -1 && condition.ticks > 0 {
        return;
      }
      if !c.typ.IsSpeed() {
        if condition.ticks >= 0 && c.endTime > now + condition.ticks {
          return;
        }
        Change(i, WithTicks(c, condition.ticks, now));
        return;
      }
      var oldSpeedDelta := c.speedDelta;
      var newSpeedChange := delta - oldSpeedDelta;
      DeltasUpdate(conditions, i, WithTicks(c, condition.ticks, now).(speedDelta := delta));
      conditions := conditions[i := WithTicks(c, condition.ticks, now).(speedDelta := delta)];
      if newSpeedChange != 0 {
        ChangeSpeed(newSpeedChange);
      }
    }

    /** A condition changes, but not its effect on the speed. */
    method Change(i: nat, c: Condition)
      requires Valid() && i < |conditions| && c.typ == conditions[i].typ && c.speedDelta == conditions[i].speedDelta
      modifies this`conditions
      ensures Valid() && conditions == old(conditions)[i := c]
    {
      DeltasUpdate(conditions, i, c);
      conditions := conditions[i := c];
    }

    /** interval has passed and the clock shows now: every condition grows older, and those that are over end. */
    method ExecuteConditions(interval: nat, now: int)
      requires Valid()
      modifies this`varSpeed, this`conditions
      ensures Valid()
      ensures conditions == Survivors(old(conditions), interval, now)
    {
      hide Survivors, Aged, GoesOn;
      ghost var all := Survivors(conditions, interval, now);
      var i := 0;
      assert conditions[0..] == conditions && conditions[..0] == [];
      assert [] + all == all;
      while i < |conditions|
        invariant Valid() && i <= |conditions|
        invariant conditions[..i] + Survivors(conditions[i..], interval, now) == all
        decreases |conditions| - i
      {
        ghost var was := conditions;
        SurvivorsStep(was, i, interval, now);
        AgedKeeps(conditions[i], interval);
        var older := if conditions[i].ticks != -1 then conditions[i].(ticks := Max(0, conditions[i].ticks - interval))
                     else conditions[i];
        Change(i, older);
        if older.ticks != -1 && !(older.endTime >= now) {
          End(i);
          assert conditions[..i] == was[..i] && conditions[i..] == was[i + 1..];
        } else {
          assert conditions[..i + 1] == was[..i] + [older] && conditions[i + 1..] == was[i + 1..];
          i := i + 1;
        }
      }
      SurvivorsEnd(interval, now);
      assert conditions[i..] == [] && conditions[..i] == conditions;
      assert conditions + [] == conditions;
    }
  }

  /** One condition of the list: it grows older and goes on, or it goes. */
  lemma SurvivorsStep(list: seq<Condition>, i: nat, interval: nat, now: int)
    requires i < |list|
    ensures var rest := Survivors(list[i + 1..], interval, now);
            list[..i] + Survivors(list[i..], interval, now)
            == if GoesOn(list[i], now) then list[..i] + [Aged(list[i], interval)] + rest else list[..i] + rest
  {
    hide Aged, GoesOn;
    assert list[i..][0] == list[i] && list[i..][1..] == list[i + 1..];
    var rest := Survivors(list[i + 1..], interval, now);
    assert [] + rest == rest;
    Regroup(list[..i], [Aged(list[i], interval)], rest);
  }

  lemma SurvivorsEnd(interval: nat, now: int)
    ensures Survivors([], interval, now) == []
  {
  }

  lemma AgedKeeps(c: Condition, interval: nat)
    ensures Aged(c, interval) == if c.ticks != -1 then c.(ticks := Max(0, c.ticks - interval)) else c
    ensures forall now :: GoesOn(c, now) <==> GoesOn(Aged(c, interval), now)
    ensures forall now :: GoesOn(c, now) <==> (c.ticks != -1 ==> c.endTime >= now)
    ensures Aged(c, interval).ticks != -1 <==> c.ticks != -1
  {
  }

  /** One condition of the list: it stays, or it is of the type and goes. */
  lemma DispelledStep(list: seq<Condition>, i: nat, typ: ConditionType)
    requires i < |list|
    ensures list[..i] + Dispelled(list[i..], typ)
         == if list[i].typ != typ then list[..i + 1] + Dispelled(list[i + 1..], typ)
            else list[..i] + Dispelled(list[i + 1..], typ)
  {
    hide Dispelled;
    DispelledUnfold(list[i..], typ);
    assert list[i..][0] == list[i] && list[i..][1..] == list[i + 1..];
    var rest := Dispelled(list[i + 1..], typ);
    assert [] + rest == rest;
    Regroup(list[..i], [list[i]], rest);
  }

  lemma DispelledUnfold(list: seq<Condition>, typ: ConditionType)
    requires list != []
    ensures Dispelled(list, typ) == (if list[0].typ != typ then [list[0]] else []) + Dispelled(list[1..], typ)
  {
  }

  /** After addCondition of a condition that is not in the list yet: it is, and what it drives out is not. */
  lemma AddedIs(list: seq<Condition>, condition: Condition, delta: int, now: int, hasHaste: bool, hasParalyze: bool)
    requires forall c :: c in list ==> c.typ != condition.typ || c.id != condition.id
    ensures forall c :: c in WithAdded(list, condition, delta, now, hasHaste, hasParalyze) <==>
              (c in list || c == Started(condition, delta, now))
              && !(condition.typ == CONDITION_PARALYZE && hasHaste && c.typ == CONDITION_HASTE)
              && !(condition.typ == CONDITION_HASTE && hasParalyze && c.typ == CONDITION_PARALYZE)
  {
    assert forall j :: 0 <= j < |list| ==> list[j] in list;
  }

  datatype Event =
    | Adds(condition: Condition, delta: int, now: int, hasHaste: bool, hasParalyze: bool)
    | Dispels(typ: ConditionType)
    | TimePasses(interval: nat, now: int)
    | OtherChange(amount: int)

  function OtherChanges(run: seq<Event>): int {
    if run == [] then 0
    else OtherChanges(run[..|run| - 1]) + (if run[|run| - 1].OtherChange? then run[|run| - 1].amount else 0)
  }

  lemma OtherChangesStep(run: seq<Event>, i: nat)
    requires i < |run|
    ensures OtherChanges(run[..i + 1]) == OtherChanges(run[..i]) + (if run[i].OtherChange? then run[i].amount else 0)
  {
    assert run[..i + 1][..i] == run[..i];
  }

  /** The conditions that an event leaves, and that a run leaves. */
  function After(list: seq<Condition>, e: Event): seq<Condition> {
    match e
    case Adds(condition, delta, now, hasHaste, hasParalyze) =>
      WithAdded(list, condition, delta, now, hasHaste, hasParalyze)
    case Dispels(typ) => Dispelled(list, typ)
    case TimePasses(interval, now) => Survivors(list, interval, now)
    case OtherChange(_) => list
  }

  function AfterAll(run: seq<Event>): seq<Condition> {
    if run == [] then [] else After(AfterAll(run[..|run| - 1]), run[|run| - 1])
  }

  // ---------------------------------------------------------------------------------------
  // How long a condition lasts

  predicate Of(c: Condition, typ: ConditionType, id: int) {
    c.typ == typ && c.id == id
  }

  /** A condition of this type and id is listed. */
  predicate Has(list: seq<Condition>, typ: ConditionType, id: int) {
    exists i :: 0 <= i < |list| && Of(list[i], typ, id)
  }

  /** No two conditions of the same type and id. */
  predicate OneEach(list: seq<Condition>) {
    forall i, j :: 0 <= i < j < |list| ==> !Of(list[i], list[j].typ, list[j].id)
  }

  /** The event adds a condition of this type and id, or renews it. */
  predicate Renews(e: Event, typ: ConditionType, id: int) {
    e.Adds? && Of(e.condition, typ, id)
  }

  /** The event dispels the type, or may drive it out. */
  predicate Clears(e: Event, typ: ConditionType) {
    || e == Dispels(typ)
    || (e.Adds? && e.condition.typ == CONDITION_PARALYZE && e.hasHaste && typ == CONDITION_HASTE)
    || (e.Adds? && e.condition.typ == CONDITION_HASTE && e.hasParalyze && typ == CONDITION_PARALYZE)
  }

  /** An endless condition of this type and id has been added and not been dispelled since. */
  predicate Endless(run: seq<Event>, typ: ConditionType, id: int) {
    run != [] &&
    var e := run[|run| - 1];
    if Renews(e, typ, id) && e.condition.ticks == -1 then true
    else if e == Dispels(typ) then false
    else Endless(run[..|run| - 1], typ, id)
  }

  /**
   Event number k adds a speed condition for some time or renews one that is not endless, and nothing
   after it renews or clears that.
   */
  predicate Timed(run: seq<Event>, k: nat) {
    && k < |run| && run[k].Adds? && run[k].condition.typ in {CONDITION_HASTE, CONDITION_PARALYZE}
    && run[k].condition.ticks > 0
    && !Endless(run[..k], run[k].condition.typ, run[k].condition.id)
    && forall j :: k < j < |run| ==>
         !Renews(run[j], run[k].condition.typ, run[k].condition.id) && !Clears(run[j], run[k].condition.typ)
  }

  /** Event number k adds a speed condition for ever, and what comes after it renews that for some time at most. */
  predicate Unending(run: seq<Event>, k: nat) {
    && k < |run| && run[k].Adds? && run[k].condition.typ in {CONDITION_HASTE, CONDITION_PARALYZE}
    && run[k].condition.ticks == -1
    && forall j :: k < j < |run| ==>
         && !Clears(run[j], run[k].condition.typ)
         && (Renews(run[j], run[k].condition.typ, run[k].condition.id) ==> run[j].condition.ticks > 0)
  }

  /** The clock has not been seen behind the time t since event number k. */
  predicate NotLater(run: seq<Event>, k: nat, t: int) {
    forall j :: k < j < |run| && run[j].TimePasses? ==> run[j].now <= t
  }

  /** What time passes behind event number k. */
  function Elapsed(run: seq<Event>, k: nat): nat
    requires k < |run|
  {
    if k == |run| - 1 then 0
    else
      var e := run[|run| - 1];
      Elapsed(run[..|run| - 1], k) + if e.TimePasses? then e.interval else 0
  }

  /** What of this type and id is listed runs out at t, has some ticks left, and has the delta. */
  predicate RunsOut(list: seq<Condition>, typ: ConditionType, id: int, t: int, left: nat, delta: int) {
    forall i :: 0 <= i < |list| && Of(list[i], typ, id) ==>
      list[i].endTime == t && list[i].ticks == left && list[i].speedDelta == delta
  }

  /** What of this type and id is listed has no end, and has the delta. */
  predicate HasNoEnd(list: seq<Condition>, typ: ConditionType, id: int, delta: int) {
    forall i :: 0 <= i < |list| && Of(list[i], typ, id) ==> list[i].ticks == -1 && list[i].speedDelta == delta
  }

  /** What event number k adds is listed exactly until its time is over, and with its delta. */
  predicate ListedInTime(list: seq<Condition>, run: seq<Event>, k: nat)
    requires k < |run| && run[k].Adds?
  {
    var c, t := run[k].condition, run[k].now + run[k].condition.ticks;
    && (Has(list, c.typ, c.id) <==> NotLater(run, k, t))
    && RunsOut(list, c.typ, c.id, t, Max(0, c.ticks - Elapsed(run, k)), run[k].delta)
  }

  /** What of this type and id is listed has an end. */
  predicate Ending(list: seq<Condition>, typ: ConditionType, id: int) {
    forall i :: 0 <= i < |list| && Of(list[i], typ, id) ==> list[i].ticks != -1
  }

  lemma {:induction false} DispelledOneEach(list: seq<Condition>, typ: ConditionType)
    requires OneEach(list)
    ensures OneEach(Dispelled(list, typ))
  {
    if list != [] {
      assert forall i :: 1 <= i < |list| ==> !Of(list[0], list[i].typ, list[i].id);
      DispelledOneEach(list[1..], typ);
      var rest := Dispelled(list[1..], typ);
      assert forall i :: 0 <= i < |rest| ==> rest[i] in list[1..];
    }
  }

  lemma {:induction false} SurvivorsOneEach(list: seq<Condition>, interval: nat, now: int)
    requires OneEach(list)
    ensures OneEach(Survivors(list, interval, now))
  {
    if list != [] {
      assert forall i :: 1 <= i < |list| ==> !Of(list[0], list[i].typ, list[i].id);
      SurvivorsOneEach(list[1..], interval, now);
      SurvivorsAre(list[1..], interval, now);
      var rest := Survivors(list[1..], interval, now);
      forall i | 0 <= i < |rest| ensures !Of(list[0], rest[i].typ, rest[i].id) {
        assert rest[i] in rest;
        var c :| c in list[1..] && GoesOn(c, now) && rest[i] == Aged(c, interval);
      }
    }
  }

  lemma AfterOneEach(list: seq<Condition>, e: Event)
    requires OneEach(list)
    ensures OneEach(After(list, e))
  {
    hide Dispelled, Survivors;
    match e
    case Adds(condition, delta, now, hasHaste, hasParalyze) =>
      var longer := list + [Started(condition, delta, now)];
      if PlaceIn(list, condition.typ, condition.id) == |list| {
        DispelledOneEach(longer, CONDITION_HASTE);
        DispelledOneEach(longer, CONDITION_PARALYZE);
      }
    case Dispels(typ) => DispelledOneEach(list, typ);
    case TimePasses(interval, now) => SurvivorsOneEach(list, interval, now);
    case OtherChange(_) =>
  }

  /** What an event that neither renews nor clears them does to the conditions of a type and id. */
  lemma OthersStep(list: seq<Condition>, e: Event, typ: ConditionType, id: int)
    requires !Renews(e, typ, id) && !Clears(e, typ)
    ensures forall i :: 0 <= i < |list| && Of(list[i], typ, id) && (e.TimePasses? ==> GoesOn(list[i], e.now)) ==>
              (if e.TimePasses? then Aged(list[i], e.interval) else list[i]) in After(list, e)
    ensures forall c :: c in After(list, e) && Of(c, typ, id) ==>
              if e.TimePasses? then exists d :: d in list && GoesOn(d, e.now) && c == Aged(d, e.interval) else c in list
  {
    hide Survivors, Dispelled, Aged, GoesOn;
    match e
    case Adds(condition, delta, now, hasHaste, hasParalyze) =>
      AddedOther(list, condition, delta, now, hasHaste, hasParalyze, typ, id);
    case Dispels(_) =>
    case TimePasses(interval, now) =>
      SurvivorsAre(list, interval, now);
      forall i | 0 <= i < |list| && GoesOn(list[i], now) ensures Aged(list[i], interval) in After(list, e) {
        assert list[i] in list;
      }
    case OtherChange(_) =>
  }

  /** Adding a condition leaves those of other types and ids alone, unless it drives them out. */
  lemma AddedOther(list: seq<Condition>, condition: Condition, delta: int, now: int, hasHaste: bool,
                   hasParalyze: bool, typ: ConditionType, id: int)
    requires !Of(condition, typ, id)
    requires !(condition.typ == CONDITION_PARALYZE && hasHaste && typ == CONDITION_HASTE)
    requires !(condition.typ == CONDITION_HASTE && hasParalyze && typ == CONDITION_PARALYZE)
    ensures var r := WithAdded(list, condition, delta, now, hasHaste, hasParalyze);
            && (forall i :: 0 <= i < |list| && Of(list[i], typ, id) ==> list[i] in r)
            && (forall c :: c in r && Of(c, typ, id) ==> c in list)
  {
    hide Dispelled;
    var r := WithAdded(list, condition, delta, now, hasHaste, hasParalyze);
    var i := PlaceIn(list, condition.typ, condition.id);
    if i < |list| {
      forall j | 0 <= j < |list| && Of(list[j], typ, id) ensures list[j] in r {
        assert r[j] == list[j];
      }
    }
  }

  /** The condition that an event adds or renews is the one listed then, unless an endless one is there. */
  lemma RenewedStep(list: seq<Condition>, e: Event)
    requires OneEach(list) && e.Adds? && e.condition.typ.IsSpeed()
    requires e.condition.ticks > 0 || e.condition.ticks == -1
    requires e.condition.ticks > 0 ==> Ending(list, e.condition.typ, e.condition.id)
    ensures var typ, id := e.condition.typ, e.condition.id;
            && Has(After(list, e), typ, id)
            && if e.condition.ticks > 0
               then RunsOut(After(list, e), typ, id, e.now + e.condition.ticks, e.condition.ticks, e.delta)
               else HasNoEnd(After(list, e), typ, id, e.delta)
  {
    var typ, id := e.condition.typ, e.condition.id;
    var i := PlaceIn(list, typ, id);
    var r := After(list, e);
    if i < |list| {
      assert Of(r[i], typ, id);
      forall j | 0 <= j < |r| && j != i ensures !Of(r[j], typ, id) {
        assert r[j] == list[j];
      }
    } else {
      var started := Started(e.condition, e.delta, e.now);
      AddedIs(list, e.condition, e.delta, e.now, e.hasHaste, e.hasParalyze);
      assert started in r;
      forall j | 0 <= j < |r| && Of(r[j], typ, id) ensures r[j] == started {
        assert r[j] in r;
      }
    }
  }


  lemma EndingStep(list: seq<Condition>, e: Event, typ: ConditionType, id: int)
    requires e == Dispels(typ) || (Ending(list, typ, id) && !(Renews(e, typ, id) && e.condition.ticks == -1))
    ensures Ending(After(list, e), typ, id)
  {
    hide Dispelled, Survivors;
    var r := After(list, e);
    forall i | 0 <= i < |r| && Of(r[i], typ, id) ensures r[i].ticks != -1 {
      assert r[i] in r;
      if e.TimePasses? {
        SurvivorsAre(list, e.interval, e.now);
        var d :| d in list && GoesOn(d, e.now) && r[i] == Aged(d, e.interval);
      }
    }
  }

  lemma {:induction false} NotEndless(run: seq<Event>, typ: ConditionType, id: int)
    requires !Endless(run, typ, id)
    ensures Ending(AfterAll(run), typ, id)
  {
    if run != [] {
      var n := |run| - 1;
      if run[n] != Dispels(typ) { NotEndless(run[..n], typ, id); }
      EndingStep(AfterAll(run[..n]), run[n], typ, id);
    }
  }

  lemma {:induction false} AllOneEach(run: seq<Event>)
    ensures OneEach(AfterAll(run))
  {
    hide OneEach, After;
    if run == [] {
      NoneTwice();
    } else {
      AllOneEach(run[..|run| - 1]);
      AfterOneEach(AfterAll(run[..|run| - 1]), run[|run| - 1]);
    }
  }

  lemma NoneTwice()
    ensures OneEach([])
  {
  }

  /** Of what runs out at t, a step of the run leaves all or nothing: it goes when the clock shows a later time. */
  lemma RunsOutStep(list: seq<Condition>, e: Event, typ: ConditionType, id: int, t: int, left: nat, delta: int)
    requires RunsOut(list, typ, id, t, left, delta) && !Renews(e, typ, id) && !Clears(e, typ)
    ensures RunsOut(After(list, e), typ, id, t, if e.TimePasses? then Max(0, left - e.interval) else left, delta)
    ensures Has(After(list, e), typ, id) <==> Has(list, typ, id) && (e.TimePasses? ==> e.now <= t)
  {
    hide After, Clears;
    OthersStep(list, e, typ, id);
    var r := After(list, e);
    forall i | 0 <= i < |r| && Of(r[i], typ, id)
      ensures r[i].endTime == t && r[i].speedDelta == delta
      ensures r[i].ticks == if e.TimePasses? then Max(0, left - e.interval) else left
      ensures Has(list, typ, id) && (e.TimePasses? ==> e.now <= t)
    {
      assert r[i] in r;
      if e.TimePasses? {
        var d :| d in list && GoesOn(d, e.now) && r[i] == Aged(d, e.interval);
        assert Of(d, typ, id);
      }
    }
    if Has(list, typ, id) && (e.TimePasses? ==> e.now <= t) {
      var i :| 0 <= i < |list| && Of(list[i], typ, id);
      var c := if e.TimePasses? then Aged(list[i], e.interval) else list[i];
      var j :| 0 <= j < |r| && r[j] == c;
      assert Of(r[j], typ, id);
    }
  }

  /** What has no end stays, with its delta, and cannot be renewed for a time. */
  lemma NoEndStep(list: seq<Condition>, e: Event, typ: ConditionType, id: int, delta: int)
    requires HasNoEnd(list, typ, id, delta) && Has(list, typ, id) && !Clears(e, typ)
    requires Renews(e, typ, id) ==> e.condition.ticks > 0
    ensures HasNoEnd(After(list, e), typ, id, delta) && Has(After(list, e), typ, id)
  {
    var i :| 0 <= i < |list| && Of(list[i], typ, id);
    var r := After(list, e);
    if Renews(e, typ, id) {
      var k := PlaceIn(list, typ, id);
      assert r == list[k := list[k]] == list;
    } else {
      OthersStep(list, e, typ, id);
      hide After, Clears;
      var c := if e.TimePasses? then Aged(list[i], e.interval) else list[i];
      var j :| 0 <= j < |r| && r[j] == c;
      assert Of(r[j], typ, id);
      forall j | 0 <= j < |r| && Of(r[j], typ, id) ensures r[j].ticks == -1 && r[j].speedDelta == delta {
        assert r[j] in r;
      }
    }
  }

  /**
   Added or renewed at now for ticks, and neither renewed nor cleared since: listed exactly as long as
   the clock has not been seen behind now + ticks, and with the delta of that addition.
   */
  lemma {:induction false} LastsItsTime(run: seq<Event>, k: nat)
    requires Timed(run, k)
    ensures ListedInTime(AfterAll(run), run, k)
    decreases |run|
  {
    hide After, Clears, RunsOut, Has, Endless, OneEach, Ending;
    var typ, id, t := run[k].condition.typ, run[k].condition.id, run[k].now + run[k].condition.ticks;
    var n := |run| - 1;
    if k == n {
      AllOneEach(run[..n]);
      NotEndless(run[..n], typ, id);
      RenewedStep(AfterAll(run[..n]), run[n]);
    } else {
      assert run[..n][..k] == run[..k];
      LastsItsTime(run[..n], k);
      RunsOutStep(AfterAll(run[..n]), run[n], typ, id, t, Max(0, run[k].condition.ticks - Elapsed(run[..n], k)),
                  run[k].delta);
    }
  }

  /** Added for ever, and only renewed for some time since: listed, whatever the clock shows. */
  lemma {:induction false} LastsForEver(run: seq<Event>, k: nat)
    requires Unending(run, k)
    ensures var typ, id := run[k].condition.typ, run[k].condition.id;
            Has(AfterAll(run), typ, id) && HasNoEnd(AfterAll(run), typ, id, run[k].delta)
    decreases |run|
  {
    hide After, Clears, HasNoEnd, Has, OneEach, Ending;
    var typ, id := run[k].condition.typ, run[k].condition.id;
    var n := |run| - 1;
    if k == n {
      AllOneEach(run[..n]);
      RenewedStep(AfterAll(run[..n]), run[n]);
    } else {
      LastsForEver(run[..n], k);
      NoEndStep(AfterAll(run[..n]), run[n], typ, id, run[k].delta);
    }
  }

  lemma AllLast(run: seq<Event>)
    ensures forall k: nat :: Timed(run, k) ==> ListedInTime(AfterAll(run), run, k)
    ensures forall k: nat :: Unending(run, k) ==>
              Has(AfterAll(run), run[k].condition.typ, run[k].condition.id)
              && HasNoEnd(AfterAll(run), run[k].condition.typ, run[k].condition.id, run[k].delta)
  {
    hide Has, HasNoEnd, Clears, AfterAll;
    forall k: nat | Timed(run, k) ensures ListedInTime(AfterAll(run), run, k) {
      LastsItsTime(run, k);
    }
    forall k: nat | Unending(run, k)
      ensures Has(AfterAll(run), run[k].condition.typ, run[k].condition.id)
      ensures HasNoEnd(AfterAll(run), run[k].condition.typ, run[k].condition.id, run[k].delta)
    {
      LastsForEver(run, k);
    }
  }

  /** A condition of another kind lasts as long as the new one would, or as it would have lasted itself. */
  lemma MergedLasts(c: Condition, condition: Condition, delta: int, now: int, later: int)
    requires c.ticks != -1 && condition.ticks > 0 && !c.typ.IsSpeed()
    ensures GoesOn(Merged(c, condition, delta, now), later) <==> later <= now + condition.ticks || GoesOn(c, later)
    ensures Merged(c, condition, delta, now).typ == c.typ && Merged(c, condition, delta, now).id == c.id
    ensures Merged(c, condition, delta, now).speedDelta == c.speedDelta
  {
  }

  /**
   Over any run of additions, merges, dispels, expiries and changes by others: whenever no speed
   condition is left, the speed is the base speed plus just what the others have added.
   */
  method Run(baseSpeed: int, run: seq<Event>) returns (c: Creature)
    requires forall e :: e in run && e.Adds? && e.condition.speedDelta != 0 ==> e.delta == e.condition.speedDelta
    ensures fresh(c) && c.Valid() && c.conditions == AfterAll(run)
    ensures c.GetSpeed() == baseSpeed + Deltas(AfterAll(run)) + OtherChanges(run)
    ensures (forall d :: d in c.conditions ==> !d.typ.IsSpeed()) ==> c.GetSpeed() == baseSpeed + OtherChanges(run)
    ensures forall k: nat :: Timed(run, k) ==> ListedInTime(c.conditions, run, k)
    ensures forall k: nat :: Unending(run, k) ==>
              Has(c.conditions, run[k].condition.typ, run[k].condition.id)
              && HasNoEnd(c.conditions, run[k].condition.typ, run[k].condition.id, run[k].delta)
    ensures OneEach(c.conditions)
  {
    hide Clears, Has, HasNoEnd, Timed, Unending, ListedInTime, OneEach;
    c := new Creature(baseSpeed);
    for i := 0 to |run|
      invariant fresh(c) && c.Valid() && c.baseSpeed == baseSpeed && c.others == OtherChanges(run[..i])
      invariant c.conditions == AfterAll(run[..i])
    {
      OtherChangesStep(run, i);
      assert run[..i + 1][..i] == run[..i];
      match run[i] {
        case Adds(condition, delta, now, hasHaste, hasParalyze) =>
          assert run[i] in run;
          c.AddCondition(condition, delta, now, hasHaste, hasParalyze);
        case Dispels(typ) => c.RemoveCondition(typ);
        case TimePasses(interval, now) => c.ExecuteConditions(interval, now);
        case OtherChange(delta) => c.ChangeSpeedOtherwise(delta);
      }
    }
    assert run[..|run|] == run;
    AllOneEach(run);
    AllLast(run);
    if forall d :: d in c.conditions ==> !d.typ.IsSpeed() { c.BackToBase(); }
  }
}
