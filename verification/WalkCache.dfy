/**
 The walk cache of a creature: a window of 23 by 23 tiles around it that says which of them it
 could enter. A step shifts the window in place and refreshes one edge; changes on the map refresh
 single tiles, unless the handler thinks that the type of an item rules out a difference; and nothing
 is refreshed when the creature itself changes. So the cache can fall behind, and it is proved when.
 */
module WalkCache {
  import opened Wrappers

  const MAX_VIEWPORT_X := 11
  const MAX_VIEWPORT_Y := 11
  const MAP_WALK_WIDTH := MAX_VIEWPORT_X * 2 + 1
  const MAP_WALK_HEIGHT := MAX_VIEWPORT_Y * 2 + 1

  datatype Position = Position(x: int, y: int, z: int)

  /** Which tiles the creature could enter: there is a tile, and it answers RET_NOERROR. */
  type Ground = Position -> bool


  predicate InWindow(y: int, x: int) {
    0 <= y < MAP_WALK_HEIGHT && 0 <= x < MAP_WALK_WIDTH
  }

  /** The place that cell (y, x) of a window around pos stands for. */
  function PlaceOf(pos: Position, y: int, x: int): Position {
    Position(pos.x + x - MAX_VIEWPORT_X, pos.y + y - MAX_VIEWPORT_Y, pos.z)
  }

  /** A window as a value. */
  type Window = w: seq<seq<bool>> | |w| == MAP_WALK_HEIGHT && forall y :: 0 <= y < |w| ==> |w[y]| == MAP_WALK_WIDTH
    ghost witness seq(MAP_WALK_HEIGHT, _ => seq(MAP_WALK_WIDTH, _ => false))

  /** Every cell but the creature's own says what the ground says. */
  ghost predicate Shows(w: Window, pos: Position, g: Ground) {
    forall y, x :: InWindow(y, x) && PlaceOf(pos, y, x) != pos ==> w[y][x] == g(PlaceOf(pos, y, x))
  }

  // ---------------------------------------------------------------------------------------
  // What a step on the same floor makes of a window

  /** The first and the last row that an eastward or westward shift touches. */
  function StartY(from: Position, to: Position): int {
    if from.y - to.y > 0 then from.y - to.y else 0
  }

  function EndY(from: Position, to: Position): int {
    if from.y - to.y < 0 then MAP_WALK_HEIGHT - 1 + (from.y - to.y) else MAP_WALK_HEIGHT - 1
  }

  /** After the shift north or south and the new edge row. */
  function RowsMoved(w: Window, from: Position, to: Position, g: Ground, y: int, x: int): bool
    requires InWindow(y, x)
  {
    if from.y > to.y then if y == 0 then g(PlaceOf(to, y, x)) else w[y - 1][x]
    else if from.y < to.y then if y == MAP_WALK_HEIGHT - 1 then g(PlaceOf(to, y, x)) else w[y + 1][x]
    else w[y][x]
  }

  /** After the shift east or west and the new edge column as well. */
  function AllMoved(w: Window, from: Position, to: Position, g: Ground, y: int, x: int): bool
    requires InWindow(y, x)
  {
    var inside := StartY(from, to) <= y <= EndY(from, to);
    if from.x < to.x then
      if x == MAP_WALK_WIDTH - 1 then g(PlaceOf(to, y, x))
      else RowsMoved(w, from, to, g, y, if inside then x + 1 else x)
    else if from.x > to.x then
      if x == 0 then g(PlaceOf(to, y, x))
      else RowsMoved(w, from, to, g, y, if inside then x - 1 else x)
    else RowsMoved(w, from, to, g, y, x)
  }

  /** The window after the whole step. */
  function Stepped(w: Window, from: Position, to: Position, g: Ground, y: int, x: int): bool
    requires InWindow(y, x)
  {
    if PlaceOf(to, y, x) == from then g(from) else AllMoved(w, from, to, g, y, x)
  }

  predicate OneStep(from: Position, to: Position) {
    from.z == to.z && Abs(to.x - from.x) <= 1 && Abs(to.y - from.y) <= 1
  }

  /** Between two grounds only these two places may differ. */
  ghost predicate ChangedAt(g: Ground, g': Ground, p: Position, q: Position) {
    forall r: Position :: r != p && r != q ==> g(r) == g'(r)
  }

  /** The shifted window is the one a rebuild would make, in all eight directions. */
  lemma StepShows(w: Window, from: Position, to: Position, g: Ground, g': Ground, y: int, x: int)
    requires OneStep(from, to) && Shows(w, from, g) && ChangedAt(g, g', from, to)
    requires InWindow(y, x) && PlaceOf(to, y, x) != to
    ensures Stepped(w, from, to, g', y, x) == g'(PlaceOf(to, y, x))
  {
    var p := PlaceOf(to, y, x);
    if p != from {
      var sy := y + (to.y - from.y);
      var sx := x + (to.x - from.x);
      if InWindow(sy, sx) {
        assert PlaceOf(from, sy, sx) == p;
        assert w[sy][sx] == g(p) == g'(p);
      }
    }
  }

  /**
   A longer move on the same floor is too much for the shift: for some ground the window it leaves
   is wrong, though it was right before and nothing on the ground has changed.
   */
  lemma LongStepFails(from: Position, to: Position) returns (w: Window, g: Ground, y: int, x: int)
    requires from.z == to.z && !OneStep(from, to)
    ensures Shows(w, from, g) && InWindow(y, x) && PlaceOf(to, y, x) != to
    ensures Stepped(w, from, to, g, y, x) != g(PlaceOf(to, y, x))
  {
    y := 1;
    x := if PlaceOf(to, 1, 1) != from then 1 else 2;
    var p := PlaceOf(to, y, x);
    g := r => r == p;
    w := seq(MAP_WALK_HEIGHT, i => seq(MAP_WALK_WIDTH, j => g(PlaceOf(from, i, j))));
    assert forall i, j :: InWindow(i, j) ==> w[i][j] == g(PlaceOf(from, i, j));
    assert forall i, j :: Abs(i - y) <= 1 && Abs(j - x) <= 1 ==> PlaceOf(from, i, j) != p;
  }

  /** So the shift is right for every ground exactly if the creature moved to a neighbouring tile. */
  lemma ShiftIsRight(from: Position, to: Position)
    requires from.z == to.z
    ensures OneStep(from, to) <==>
              forall w: Window, g: Ground, y: int, x: int ::
                Shows(w, from, g) && InWindow(y, x) && PlaceOf(to, y, x) != to ==>
                  Stepped(w, from, to, g, y, x) == g(PlaceOf(to, y, x))
  {
    if OneStep(from, to) {
      forall w: Window, g: Ground, y: int, x: int | Shows(w, from, g) && InWindow(y, x) && PlaceOf(to, y, x) != to
        ensures Stepped(w, from, to, g, y, x) == g(PlaceOf(to, y, x))
      {
        StepShows(w, from, to, g, g, y, x);
      }
    } else {
      var w, g, y, x := LongStepFails(from, to);
    }
  }

  // ---------------------------------------------------------------------------------------
  // Runs

  /** What the handlers look at in the type of an item on a tile. */
  datatype ItemType = ItemType(blockSolid: bool, blockPathFind: bool, isGroundTile: bool)

  /** onUpdateTileItem: only these changes of an item refresh its tile. */
  predicate UpdateRefreshes(oldType: ItemType, newType: ItemType) {
    oldType.blockSolid || oldType.blockPathFind || newType.blockPathFind || newType.blockSolid
  }

  /** onRemoveTileItem: only the removal of such an item refreshes its tile. */
  predicate RemovalRefreshes(typ: ItemType) {
    typ.blockSolid || typ.blockPathFind || typ.isGroundTile
  }

  /** What can happen to a creature or around it. */
  datatype Event =
    | Appears
    | Moves(to: Position, teleport: bool)
    | OtherMoves(from: Position, to: Position)
    | OtherAppears(at: Position)
    | OtherDisappears(at: Position)
    | ItemAdded(at: Position)
    | ItemUpdated(at: Position, oldType: ItemType, newType: ItemType)
    | ItemRemoved(at: Position, typ: ItemType)
    | SelfChanges

  /** An event changes the ground only where it says, and a plain move on one floor is a single step. */
  ghost predicate Local(g: Ground, pos: Position, e: Event, g': Ground) {
    match e
    case Appears => true
    case Moves(to, teleport) =>
      ChangedAt(g, g', pos, to) && (!teleport && pos.z == to.z ==> OneStep(pos, to))
    case OtherMoves(p, q) => ChangedAt(g, g', p, q)
    case OtherAppears(p) => ChangedAt(g, g', p, p)
    case OtherDisappears(p) => ChangedAt(g, g', p, p)
    case ItemAdded(p) => ChangedAt(g, g', p, p)
    case ItemUpdated(p, _, _) => ChangedAt(g, g', p, p)
    case ItemRemoved(p, _) => ChangedAt(g, g', p, p)
    case SelfChanges => true
  }

  /** A place in the window around pos, other than pos itself. */
  predicate InSight(pos: Position, p: Position) {
    p.z == pos.z && p != pos && Abs(p.x - pos.x) <= MAX_VIEWPORT_X && Abs(p.y - pos.y) <= MAX_VIEWPORT_Y
  }

  /** The event passes without harm: what is not refreshed is out of sight or has not changed. */
  ghost predicate Harmless(g: Ground, pos: Position, e: Event, g': Ground) {
    match e
    case ItemUpdated(p, oldType, newType) => UpdateRefreshes(oldType, newType) || !InSight(pos, p) || g(p) == g'(p)
    case ItemRemoved(p, typ) => RemovalRefreshes(typ) || !InSight(pos, p) || g(p) == g'(p)
    case SelfChanges => forall p :: InSight(pos, p) ==> g(p) == g'(p)
    case _ => true
  }

  /** Harmless whatever the ground: a caller can tell from the event and the creature's position. */
  predicate AlwaysHarmless(pos: Position, e: Event) {
    match e
    case ItemUpdated(p, oldType, newType) => UpdateRefreshes(oldType, newType) || !InSight(pos, p)
    case ItemRemoved(p, typ) => RemovalRefreshes(typ) || !InSight(pos, p)
    case SelfChanges => false
    case _ => true
  }

  /** Any other event does harm on some ground. */
  lemma HarmlessForAll(pos: Position, e: Event)
    ensures AlwaysHarmless(pos, e) <==> forall g: Ground, g': Ground :: Local(g, pos, e, g') ==> Harmless(g, pos, e, g')
  {
    if !AlwaysHarmless(pos, e) {
      var p := if e.SelfChanges? then Position(pos.x + 1, pos.y, pos.z) else e.at;
      var g: Ground := r => true;
      var g': Ground := r => r != p;
      assert InSight(pos, p) && g(p) != g'(p);
      assert Local(g, pos, e, g') && !Harmless(g, pos, e, g');
    }
  }

  function PositionAfter(pos: Position, e: Event): Position {
    if e.Moves? then e.to else pos
  }

  /** A run of events, each with the ground it leaves. */
  ghost predicate IsRun(g: Ground, pos: Position, events: seq<(Event, Ground)>)
    decreases |events|
  {
    events == [] ||
    (Local(g, pos, events[0].0, events[0].1) && IsRun(events[0].1, PositionAfter(pos, events[0].0), events[1..]))
  }

  /** No event of the run did harm. */
  ghost predicate AllHarmless(g: Ground, pos: Position, events: seq<(Event, Ground)>)
    decreases |events|
  {
    events == [] ||
    (Harmless(g, pos, events[0].0, events[0].1) &&
     AllHarmless(events[0].1, PositionAfter(pos, events[0].0), events[1..]))
  }

  function GroundAfter(g: Ground, events: seq<(Event, Ground)>): Ground {
    if events == [] then g else events[|events| - 1].1
  }

  function PlaceAfter(pos: Position, events: seq<(Event, Ground)>): Position
    decreases |events|
  {
    if events == [] then pos else PlaceAfter(PositionAfter(pos, events[0].0), events[1..])
  }

  /** One more event at the end of a run. */
  lemma {:induction false} RunOn(g: Ground, pos: Position, events: seq<(Event, Ground)>, e: (Event, Ground))
    ensures IsRun(g, pos, events + [e]) <==>
              IsRun(g, pos, events) && Local(GroundAfter(g, events), PlaceAfter(pos, events), e.0, e.1)
    ensures AllHarmless(g, pos, events + [e]) <==>
              AllHarmless(g, pos, events) && Harmless(GroundAfter(g, events), PlaceAfter(pos, events), e.0, e.1)
    ensures PlaceAfter(pos, events + [e]) == PositionAfter(PlaceAfter(pos, events), e.0)
    ensures GroundAfter(g, events + [e]) == e.1
    decreases |events|
  {
    hide Local, Harmless;
    var all := events + [e];
    if events == [] {
      assert all[1..] == [];
    } else {
      assert all[1..] == events[1..] + [e];
      RunOn(events[0].1, PositionAfter(pos, events[0].0), events[1..], e);
    }
  }

  lemma {:induction false} RunBefore(g: Ground, pos: Position, events: seq<(Event, Ground)>, k: nat)
    requires IsRun(g, pos, events) && k <= |events|
    ensures IsRun(g, pos, events[..k])
    decreases |events|
  {
    hide Local;
    if k > 0 {
      RunBefore(events[0].1, PositionAfter(pos, events[0].0), events[1..], k - 1);
      assert events[..k][1..] == events[1..][..k - 1];
    }
  }

  /** One place has changed and has not been refreshed: the window is right exactly if it cannot tell. */
  lemma LeftAlone(w: Window, pos: Position, g: Ground, g': Ground, p: Position)
    requires Shows(w, pos, g) && ChangedAt(g, g', p, p)
    ensures Shows(w, pos, g') <==> !InSight(pos, p) || g(p) == g'(p)
  {
    if InSight(pos, p) {
      CellOf(pos, p);
      var y, x := MAX_VIEWPORT_Y + (p.y - pos.y), MAX_VIEWPORT_X + (p.x - pos.x);
      assert w[y][x] == g(PlaceOf(pos, y, x));
    }
  }

  lemma CellOf(pos: Position, p: Position)
    requires InSight(pos, p)
    ensures var y, x := MAX_VIEWPORT_Y + (p.y - pos.y), MAX_VIEWPORT_X + (p.x - pos.x);
            InWindow(y, x) && PlaceOf(pos, y, x) == p
  {
  }

  /** Nothing has been refreshed: the window is right exactly if nothing in sight has changed. */
  lemma NothingRefreshed(w: Window, pos: Position, g: Ground, g': Ground)
    requires Shows(w, pos, g)
    ensures Shows(w, pos, g') <==> forall p :: InSight(pos, p) ==> g(p) == g'(p)
  {
    if Shows(w, pos, g') {
      forall p | InSight(pos, p) ensures g(p) == g'(p) {
        CellOf(pos, p);
        var y, x := MAX_VIEWPORT_Y + (p.y - pos.y), MAX_VIEWPORT_X + (p.x - pos.x);
        assert w[y][x] == g(PlaceOf(pos, y, x)) && w[y][x] == g'(PlaceOf(pos, y, x));
      }
    }
    if forall p :: InSight(pos, p) ==> g(p) == g'(p) {
      forall y, x | InWindow(y, x) && PlaceOf(pos, y, x) != pos ensures w[y][x] == g'(PlaceOf(pos, y, x)) {
        assert InSight(pos, PlaceOf(pos, y, x));
      }
    }
  }

  // ---------------------------------------------------------------------------------------
  // Where the ground comes from

  /** A magic field on a tile, and the kind of damage it does. */
  datatype Field = Field(blocking: bool, combatType: nat)

  /** The state of a tile, as far as it decides whether a monster may enter. */
  datatype Tile = Tile(
    hasGround: bool, protectionZone: bool, floorChange: bool, positionChange: bool,
    blockSolid: bool, immovableBlockSolid: bool, noFieldBlockPath: bool, immovableNoFieldBlockPath: bool,
    field: Option<Field>, creatures: seq<Standing>)

  /** A creature that stands on a tile. */
  datatype Standing = Standing(isMonster: bool, isPushable: bool, isPlayersSummon: bool)

  datatype Monster = Monster(canPushCreatures: bool, canPushItems: bool, isSummon: bool,
                             isImmune: nat -> bool, hasCondition: nat -> bool)

  /** Tile::__queryAdd for a monster, with FLAG_PATHFINDING and FLAG_IGNOREFIELDDAMAGE. */
  predicate MayEnter(tile: Tile, monster: Monster) {
    && !tile.floorChange && !tile.positionChange && tile.hasGround && !tile.protectionZone
    && (if monster.canPushCreatures && !monster.isSummon
        then forall i :: 0 <= i < |tile.creatures| ==> !InTheWay(tile.creatures[i])
        else tile.creatures == [])
    && !tile.immovableBlockSolid && !tile.immovableNoFieldBlockPath
    && (tile.blockSolid || tile.noFieldBlockPath ==> monster.canPushItems)
    && (tile.field.Some? && !tile.field.value.blocking && !monster.isImmune(tile.field.value.combatType) ==>
          monster.canPushItems || monster.hasCondition(tile.field.value.combatType))
  }

  datatype ReturnValue = RET_NOERROR | RET_NOTPOSSIBLE | RET_NOTENOUGHROOM

  /** A monster does not push players, monsters that are not to be pushed, or a player's summons aside. */
  predicate InTheWay(c: Standing) {
    !c.isMonster || !c.isPushable || c.isPlayersSummon
  }

  /** The checks of Tile::__queryAdd for a monster, in their order. */
  method QueryAdd(tile: Tile, monster: Monster) returns (ret: ReturnValue)
    ensures ret == RET_NOERROR <==> MayEnter(tile, monster)
    ensures !tile.hasGround || tile.floorChange || tile.positionChange || tile.protectionZone ==> ret == RET_NOTPOSSIBLE
    ensures ret == RET_NOTENOUGHROOM <==>
              && tile.hasGround && !tile.floorChange && !tile.positionChange && !tile.protectionZone
              && (!monster.canPushCreatures || monster.isSummon) && tile.creatures != []
    ensures ret == RET_NOERROR && monster.canPushCreatures && !monster.isSummon ==>
              forall c :: c in tile.creatures ==> !InTheWay(c)
    ensures ret == RET_NOERROR && (!monster.canPushCreatures || monster.isSummon) ==> tile.creatures == []
    ensures ret == RET_NOERROR ==> !tile.immovableBlockSolid && !tile.immovableNoFieldBlockPath
    ensures ret == RET_NOERROR && !monster.canPushItems ==>
              && !tile.blockSolid && !tile.noFieldBlockPath
              && (tile.field.Some? ==>
                    var field := tile.field.value;
                    field.blocking || monster.isImmune(field.combatType) || monster.hasCondition(field.combatType))
    ensures && tile.hasGround && !tile.floorChange && !tile.positionChange && !tile.protectionZone
            && tile.creatures == [] && !tile.immovableBlockSolid && !tile.immovableNoFieldBlockPath
            && monster.canPushItems ==>
              ret == RET_NOERROR
  {
    if tile.floorChange || tile.positionChange {
      return RET_NOTPOSSIBLE;
    }
    if !tile.hasGround {
      return RET_NOTPOSSIBLE;
    }
    if tile.protectionZone {
      return RET_NOTPOSSIBLE;
    }
    if monster.canPushCreatures && !monster.isSummon {
      for i := 0 to |tile.creatures|
        invariant forall j :: 0 <= j < i ==> !InTheWay(tile.creatures[j])
      {
        if InTheWay(tile.creatures[i]) {
          return RET_NOTPOSSIBLE;
        }
      }
    } else if tile.creatures != [] {
      return RET_NOTENOUGHROOM;
    }
    if tile.immovableBlockSolid || tile.immovableNoFieldBlockPath {
      return RET_NOTPOSSIBLE;
    }
    if (tile.blockSolid || tile.noFieldBlockPath) && !monster.canPushItems {
      return RET_NOTPOSSIBLE;
    }
    if tile.field.Some? && !tile.field.value.blocking {
      // it walks into a field that does it no harm, that it is strong enough for, or that it suffers from already
      var combatType := tile.field.value.combatType;
      if !monster.isImmune(combatType) && !(monster.canPushItems || monster.hasCondition(combatType)) {
        return RET_NOTPOSSIBLE;
      }
    }
    return RET_NOERROR;
  }

  /** An item lying on a tile. */
  datatype Thing = Thing(typ: ItemType, moveable: bool, changesFloor: bool, isTeleport: bool, damage: Option<nat>)

  /** Tile::updateTileFlags when an item goes; rest is the state the other things on the tile would give alone. */
  function WithoutItem(tile: Tile, item: Thing, rest: Tile): Tile {
    var solid, path := item.typ.blockSolid, item.damage.None? && item.typ.blockPathFind;
    tile.(hasGround := tile.hasGround && !item.typ.isGroundTile,
          floorChange := tile.floorChange && !item.changesFloor,
          positionChange := tile.positionChange && !item.isTeleport,
          field := if item.damage.Some? then None else tile.field,
          blockSolid := tile.blockSolid && (!solid || rest.blockSolid),
          immovableBlockSolid := tile.immovableBlockSolid && (!(solid && !item.moveable) || rest.immovableBlockSolid),
          noFieldBlockPath := tile.noFieldBlockPath && (!path || rest.noFieldBlockPath),
          immovableNoFieldBlockPath :=
            tile.immovableNoFieldBlockPath && (!(path && !item.moveable) || rest.immovableNoFieldBlockPath))
  }

  /**
   The filter of onRemoveTileItem is right about an item exactly if the item is let through, or is no
   stairs, no teleport and no magic field: any of these can close a tile that its removal opens.
   */
  lemma RemovalFilter(item: Thing)
    ensures RemovalRefreshes(item.typ) || (!item.changesFloor && !item.isTeleport && item.damage.None?) <==>
              (!RemovalRefreshes(item.typ) ==>
                 forall tile: Tile, rest: Tile, m: Monster ::
                   MayEnter(WithoutItem(tile, item, rest), m) == MayEnter(tile, m))
  {
    if !RemovalRefreshes(item.typ) {
      var free := Tile(true, false, false, false, false, false, false, false, None, []);
      var tile := free.(floorChange := item.changesFloor, positionChange := item.isTeleport,
                        field := if item.damage.Some? then Some(Field(false, item.damage.value)) else None);
      var m := Monster(false, false, false, c => false, c => false);
      assert WithoutItem(tile, item, free) == free && MayEnter(free, m);
      assert !item.changesFloor && !item.isTeleport && item.damage.None? ==>
               forall t: Tile, rest: Tile :: WithoutItem(t, item, rest) == t;
      assert item.changesFloor || item.isTeleport || item.damage.Some? ==> !MayEnter(tile, m);
    }
  }

  /** Tile::updateTileFlags when an item comes. */
  function WithItem(tile: Tile, item: Thing): Tile {
    var solid, path := item.typ.blockSolid, item.damage.None? && item.typ.blockPathFind;
    tile.(floorChange := tile.floorChange || item.changesFloor,
          positionChange := tile.positionChange || item.isTeleport,
          field := if item.damage.Some? then Some(Field(solid, item.damage.value)) else tile.field,
          blockSolid := tile.blockSolid || solid,
          immovableBlockSolid := tile.immovableBlockSolid || (solid && !item.moveable),
          noFieldBlockPath := tile.noFieldBlockPath || path,
          immovableNoFieldBlockPath := tile.immovableNoFieldBlockPath || (path && !item.moveable))
  }

  /**
   Putting an item on a tile and taking it away again leaves the tile as it was, exactly if it is no ground for a
   tile that has some, no second stairs or teleport, and no second field.
   */
  lemma PutAndTaken(tile: Tile, item: Thing)
    ensures WithoutItem(WithItem(tile, item), item, tile) == tile <==>
              && !(item.typ.isGroundTile && tile.hasGround)
              && !(item.changesFloor && tile.floorChange) && !(item.isTeleport && tile.positionChange)
              && !(item.damage.Some? && tile.field.Some?)
  {
  }

  /** An item becomes another: ground stays ground, whatever its type. */
  function WithUpdated(tile: Tile, item: Thing, newItem: Thing, rest: Tile): Tile {
    WithItem(WithoutItem(tile, item, rest), newItem).(hasGround := tile.hasGround)
  }

  /** The tile shows what the item does to it, and has no other magic field. */
  predicate Holds(tile: Tile, item: Thing) {
    && (item.changesFloor ==> tile.floorChange) && (item.isTeleport ==> tile.positionChange)
    && (item.damage.Some? ==> tile.field == Some(Field(item.typ.blockSolid, item.damage.value)))
    && (item.damage.None? ==> tile.field.None?)
  }

  /** Stairs and teleports keep every monster out. */
  predicate Bars(item: Thing) {
    item.changesFloor || item.isTeleport
  }

  /**
   The filter of onUpdateTileItem is right about a change exactly if the change is let through, or the
   item keeps monsters out before and after, or at neither time and does the same damage.
   */
  lemma UpdateFilter(item: Thing, newItem: Thing)
    ensures UpdateRefreshes(item.typ, newItem.typ)
            || (Bars(item) == Bars(newItem) && (Bars(item) || item.damage == newItem.damage)) <==>
              (!UpdateRefreshes(item.typ, newItem.typ) ==>
                 forall tile: Tile, rest: Tile, m: Monster :: Holds(tile, item) ==>
                   MayEnter(WithUpdated(tile, item, newItem, rest), m) == MayEnter(tile, m))
  {
    if !UpdateRefreshes(item.typ, newItem.typ) {
      if Bars(item) == Bars(newItem) && (Bars(item) || item.damage == newItem.damage) {
        forall tile: Tile, rest: Tile, m: Monster | Holds(tile, item)
          ensures MayEnter(WithUpdated(tile, item, newItem, rest), m) == MayEnter(tile, m)
        {
          SameUpdated(tile, item, newItem, rest, m);
        }
      } else {
        UpdateMissed(item, newItem);
      }
    }
  }

  lemma SameUpdated(tile: Tile, item: Thing, newItem: Thing, rest: Tile, m: Monster)
    requires !UpdateRefreshes(item.typ, newItem.typ) && Holds(tile, item)
    requires Bars(item) == Bars(newItem) && (Bars(item) || item.damage == newItem.damage)
    ensures MayEnter(WithUpdated(tile, item, newItem, rest), m) == MayEnter(tile, m)
  {
    if !Bars(item) { assert WithUpdated(tile, item, newItem, rest) == tile; }
  }

  /** A tile with nothing else on it, and a monster that tells the two items apart. */
  lemma UpdateMissed(item: Thing, newItem: Thing)
    requires !UpdateRefreshes(item.typ, newItem.typ)
    requires Bars(item) != Bars(newItem) || (!Bars(item) && item.damage != newItem.damage)
    ensures exists tile: Tile, rest: Tile, m: Monster :: Holds(tile, item)
              && MayEnter(WithUpdated(tile, item, newItem, rest), m) != MayEnter(tile, m)
  {
    var free := Tile(true, false, false, false, false, false, false, false, None, []);
    var tile := WithItem(free, item);
    // it walks into any field where one of the items keeps it out anyway, and else into the old field alone
    var m := Monster(false, false, false, c => false,
                     c => Bars(item) != Bars(newItem) || (newItem.damage.Some? && Some(c) == item.damage));
    assert Holds(tile, item) && MayEnter(WithUpdated(tile, item, newItem, free), m) != MayEnter(tile, m);
  }

  /** What a monster that burns or not decides on a tile: a field of that kind, and nothing else in the way. */
  predicate Decides(tile: Tile, m: Monster, c: nat) {
    && tile.field == Some(Field(false, c)) && !m.isImmune(c) && !m.canPushItems
    && MayEnter(tile.(field := None), m)
  }

  /** The monster starts or stops to have a condition. */
  function Toggled(m: Monster, c: nat): Monster {
    m.(hasCondition := (r: nat) => if r == c then !m.hasCondition(c) else m.hasCondition(r))
  }

  lemma ConditionDecides(tile: Tile, m: Monster, c: nat)
    ensures MayEnter(tile, Toggled(m, c)) != MayEnter(tile, m) <==> Decides(tile, m, c)
  {
  }

  function GroundFor(tiles: Position -> Tile, m: Monster): Ground {
    p => MayEnter(tiles(p), m)
  }

  /**
   When a monster starts or stops to have a condition, exactly those cells of its window go wrong whose
   tiles the condition decides on.
   */
  lemma ConditionSpoils(w: Window, pos: Position, tiles: Position -> Tile, m: Monster, c: nat)
    requires Shows(w, pos, GroundFor(tiles, m))
    ensures forall y, x :: InWindow(y, x) && PlaceOf(pos, y, x) != pos ==>
              (w[y][x] != GroundFor(tiles, Toggled(m, c))(PlaceOf(pos, y, x)) <==>
               Decides(tiles(PlaceOf(pos, y, x)), m, c))
    ensures Shows(w, pos, GroundFor(tiles, Toggled(m, c))) <==>
              forall p :: InSight(pos, p) ==> !Decides(tiles(p), m, c)
  {
    hide MayEnter, Decides, Toggled;
    forall p ensures GroundFor(tiles, Toggled(m, c))(p) != GroundFor(tiles, m)(p) <==> Decides(tiles(p), m, c) {
      ConditionDecides(tiles(p), m, c);
    }
    NothingRefreshed(w, pos, GroundFor(tiles, m), GroundFor(tiles, Toggled(m, c)));
  }

  /** A monster that starts to burn may enter a field of fire that stopped it before; no handler sees it. */
  lemma ConditionOpensField(tile: Tile, m: Monster, c: nat)
    requires tile.field == Some(Field(false, c)) && !m.isImmune(c) && !m.canPushItems
    requires MayEnter(tile.(field := None), m)
    ensures MayEnter(tile, m) <==> m.hasCondition(c)
    ensures MayEnter(tile, m.(hasCondition := r => true)) && !MayEnter(tile, m.(hasCondition := r => false))
  {
  }

  // ---------------------------------------------------------------------------------------
  // The creature

  class Creature {
    var position: Position
    var isMapLoaded: bool
    const useCacheMap: bool
    const localMapCache: array2<bool>

    ghost predicate Valid() {
      localMapCache.Length0 == MAP_WALK_HEIGHT && localMapCache.Length1 == MAP_WALK_WIDTH
    }

    /** The window as a value. */
    ghost function Image(): (w: Window)
      requires Valid()
      reads this, localMapCache
      ensures forall y, x :: InWindow(y, x) ==> w[y][x] == localMapCache[y, x]
    {
      seq(MAP_WALK_HEIGHT, y requires 0 <= y < MAP_WALK_HEIGHT reads this, localMapCache =>
          seq(MAP_WALK_WIDTH, x requires 0 <= x < MAP_WALK_WIDTH reads this, localMapCache => localMapCache[y, x]))
    }

    /** Once the map is loaded, the cache is right. */
    ghost predicate Current(g: Ground)
      requires Valid()
      reads this, localMapCache
    {
      isMapLoaded ==> Shows(Image(), position, g)
    }

    constructor (position: Position, useCacheMap: bool)
      ensures Valid() && !isMapLoaded && this.position == position && this.useCacheMap == useCacheMap
      ensures fresh(localMapCache)
    {
      this.position, this.useCacheMap := position, useCacheMap;
      isMapLoaded := false;
      localMapCache := new bool[MAP_WALK_HEIGHT, MAP_WALK_WIDTH]((_, _) => false);
    }

    /** updateTileCache(tile, dx, dy): one cell, if it is in the window. */
    method UpdateCell(open: bool, dx: int, dy: int)
      requires Valid()
      modifies localMapCache
      ensures forall y, x :: InWindow(y, x) ==>
                localMapCache[y, x] == if y == MAX_VIEWPORT_Y + dy && x == MAX_VIEWPORT_X + dx then open
                                       else old(localMapCache[y, x])
    {
      if Abs(dx) <= (MAP_WALK_WIDTH - 1) / 2 && Abs(dy) <= (MAP_WALK_HEIGHT - 1) / 2 {
        var x := (MAP_WALK_WIDTH - 1) / 2 + dx;
        var y := (MAP_WALK_HEIGHT - 1) / 2 + dy;
        localMapCache[y, x] := open;
      }
    }

    /** updateTileCache(tile, pos): one place, if it is on the creature's floor. */
    method UpdateTileCache(g: Ground, pos: Position)
      requires Valid()
      modifies localMapCache
      ensures forall y, x :: InWindow(y, x) ==>
                localMapCache[y, x] == if PlaceOf(position, y, x) == pos then g(pos) else old(localMapCache[y, x])
    {
      if pos.z == position.z {
        UpdateCell(g(pos), pos.x - position.x, pos.y - position.y);
      }
    }

    /** Builds the window anew. */
    method UpdateMapCache(g: Ground)
      requires Valid()
      modifies localMapCache
      ensures forall y, x :: InWindow(y, x) ==> localMapCache[y, x] == g(PlaceOf(position, y, x))
    {
      for y := -MAX_VIEWPORT_Y to MAX_VIEWPORT_Y + 1
        invariant forall i, j :: InWindow(i, j) && i < MAX_VIEWPORT_Y + y ==>
                    localMapCache[i, j] == g(PlaceOf(position, i, j))
      {
        for x := -MAX_VIEWPORT_X to MAX_VIEWPORT_X + 1
          invariant forall i, j ::
                      && InWindow(i, j)
                      && (i < MAX_VIEWPORT_Y + y || (i == MAX_VIEWPORT_Y + y && j < MAX_VIEWPORT_X + x)) ==>
                        localMapCache[i, j] == g(PlaceOf(position, i, j))
        {
          UpdateTileCache(g, Position(position.x + x, position.y + y, position.z));
        }
      }
    }

    /** May the creature enter this place: 1 yes, 0 no, 2 unknown. */
    method GetWalkCache(pos: Position) returns (r: int)
      requires Valid()
      ensures r == if !useCacheMap then 2
                   else if pos.z != position.z then 0
                   else if pos == position then 1
                   else if Abs(pos.x - position.x) <= MAX_VIEWPORT_X && Abs(pos.y - position.y) <= MAX_VIEWPORT_Y then
                     var y, x := MAX_VIEWPORT_Y + (pos.y - position.y), MAX_VIEWPORT_X + (pos.x - position.x);
                     if localMapCache[y, x] then 1 else 0
                   else 2
      ensures forall g: Ground :: Current(g) && isMapLoaded && r != 2 && pos.z == position.z && pos != position ==>
                (r == 1 <==> g(pos)) && (r == 0 <==> !g(pos))
    {
      if !useCacheMap {
        return 2;
      }
      if position.z != pos.z {
        return 0;
      }
      if pos == position {
        return 1;
      }
      var dx := pos.x - position.x;
      var dy := pos.y - position.y;
      if Abs(dx) <= (MAP_WALK_WIDTH - 1) / 2 && Abs(dy) <= (MAP_WALK_HEIGHT - 1) / 2 {
        var x := (MAP_WALK_WIDTH - 1) / 2 + dx;
        var y := (MAP_WALK_HEIGHT - 1) / 2 + dy;
        assert PlaceOf(position, y, x) == pos && InWindow(y, x);
        if localMapCache[y, x] {
          return 1;
        } else {
          return 0;
        }
      }
      // not in the window
      return 2;
    }

    // -- the shifts

    method CopyRow(to: nat, from: nat)
      requires Valid() && to < MAP_WALK_HEIGHT && from < MAP_WALK_HEIGHT && to != from
      modifies localMapCache
      ensures forall y, x :: InWindow(y, x) ==>
                localMapCache[y, x] == if y == to then old(localMapCache[from, x]) else old(localMapCache[y, x])
    {
      for k := 0 to MAP_WALK_WIDTH
        invariant forall y, x :: InWindow(y, x) ==>
                    localMapCache[y, x] == old(localMapCache[if y == to && x < k then from else y, x])
      {
        localMapCache[to, k] := localMapCache[from, k];
      }
    }

    /** The step went north: rows move south. */
    method ShiftSouth()
      requires Valid()
      modifies localMapCache
      ensures forall y, x :: InWindow(y, x) ==>
                localMapCache[y, x] == old(localMapCache[if y == 0 then 0 else y - 1, x])
    {
      for y := MAP_WALK_HEIGHT - 1 downto 0
        invariant forall i, j :: InWindow(i, j) && i <= y ==> localMapCache[i, j] == old(localMapCache[i, j])
        invariant forall i, j :: InWindow(i, j) && i > y ==> localMapCache[i, j] == old(localMapCache[i - 1, j])
      {
        CopyRow(y + 1, y);
      }
    }

    /** The step went south: rows move north. */
    method ShiftNorth()
      requires Valid()
      modifies localMapCache
      ensures forall y, x :: InWindow(y, x) ==>
                localMapCache[y, x] == old(localMapCache[if y == MAP_WALK_HEIGHT - 1 then y else y + 1, x])
    {
      for y := 0 to MAP_WALK_HEIGHT - 1
        invariant forall i, j :: InWindow(i, j) ==>
                    localMapCache[i, j] == old(localMapCache[if i < y then i + 1 else i, j])
      {
        CopyRow(y, y + 1);
      }
    }

    /** The step went east: the rows from starty to endy move west. */
    method ShiftWest(starty: int, endy: int)
      requires Valid() && 0 <= starty && endy < MAP_WALK_HEIGHT
      modifies localMapCache
      ensures forall y, x :: InWindow(y, x) ==>
                var moves := starty <= y <= endy && x < MAP_WALK_WIDTH - 1;
                localMapCache[y, x] == old(localMapCache[y, if moves then x + 1 else x])
    {
      var y := starty;
      while y <= endy
        invariant starty <= y
        invariant forall i, j :: InWindow(i, j) ==>
                    var moves := starty <= i <= endy && i < y && j < MAP_WALK_WIDTH - 1;
                    localMapCache[i, j] == old(localMapCache[i, if moves then j + 1 else j])
      {
        for x := 0 to MAP_WALK_WIDTH - 1
          invariant forall i, j :: InWindow(i, j) ==>
                      var moves := starty <= i <= endy && (i < y || (i == y && j < x)) && j < MAP_WALK_WIDTH - 1;
                      localMapCache[i, j] == old(localMapCache[i, if moves then j + 1 else j])
        {
          localMapCache[y, x] := localMapCache[y, x + 1];
        }
        y := y + 1;
      }
    }

    /** The step went west: the rows from starty to endy move east. */
    method ShiftEast(starty: int, endy: int)
      requires Valid() && 0 <= starty && endy < MAP_WALK_HEIGHT
      modifies localMapCache
      ensures forall y, x :: InWindow(y, x) ==>
                localMapCache[y, x] == old(localMapCache[y, if starty <= y <= endy && x > 0 then x - 1 else x])
    {
      var y := starty;
      while y <= endy
        invariant starty <= y
        invariant forall i, j :: InWindow(i, j) ==>
                    var moves := starty <= i <= endy && i < y && j > 0;
                    localMapCache[i, j] == old(localMapCache[i, if moves then j - 1 else j])
      {
        for x := MAP_WALK_WIDTH - 1 downto 0
          invariant forall i, j :: InWindow(i, j) ==>
                      var moves := starty <= i <= endy && (i < y || (i == y && j > x)) && j > 0;
                      localMapCache[i, j] == old(localMapCache[i, if moves then j - 1 else j])
        {
          localMapCache[y, x + 1] := localMapCache[y, x];
        }
        y := y + 1;
      }
    }

    method UpdateRow(g: Ground, dy: int)
      requires Valid() && Abs(dy) == MAX_VIEWPORT_Y
      modifies localMapCache
      ensures forall y, x :: InWindow(y, x) ==>
                localMapCache[y, x]
                == if y == MAX_VIEWPORT_Y + dy then g(PlaceOf(position, y, x)) else old(localMapCache[y, x])
    {
      for x := -MAX_VIEWPORT_X to MAX_VIEWPORT_X + 1
        invariant forall i, j :: InWindow(i, j) ==>
                    var done := i == MAX_VIEWPORT_Y + dy && j < MAX_VIEWPORT_X + x;
                    localMapCache[i, j] == if done then g(PlaceOf(position, i, j)) else old(localMapCache[i, j])
      {
        UpdateCell(g(Position(position.x + x, position.y + dy, position.z)), x, dy);
      }
    }

    method UpdateColumn(g: Ground, dx: int)
      requires Valid() && Abs(dx) == MAX_VIEWPORT_X
      modifies localMapCache
      ensures forall y, x :: InWindow(y, x) ==>
                localMapCache[y, x]
                == if x == MAX_VIEWPORT_X + dx then g(PlaceOf(position, y, x)) else old(localMapCache[y, x])
    {
      for y := -MAX_VIEWPORT_Y to MAX_VIEWPORT_Y + 1
        invariant forall i, j :: InWindow(i, j) ==>
                    var done := j == MAX_VIEWPORT_X + dx && i < MAX_VIEWPORT_Y + y;
                    localMapCache[i, j] == if done then g(PlaceOf(position, i, j)) else old(localMapCache[i, j])
      {
        UpdateCell(g(Position(position.x + dx, position.y + y, position.z)), dx, y);
      }
    }

    /** The part of onCreatureMove that follows a step on the same floor; position is the new one already. */
    method MoveRows(g: Ground, oldPos: Position)
      requires Valid()
      modifies localMapCache
      ensures forall y, x :: InWindow(y, x) ==>
                localMapCache[y, x] == RowsMoved(old(Image()), oldPos, position, g, y, x)
    {
      if oldPos.y > position.y {
        ShiftSouth();
        UpdateRow(g, -((MAP_WALK_HEIGHT - 1) / 2));
      } else if oldPos.y < position.y {
        ShiftNorth();
        UpdateRow(g, (MAP_WALK_HEIGHT - 1) / 2);
      }
    }

    method MoveColumns(g: Ground, oldPos: Position)
      requires Valid()
      modifies localMapCache
      ensures forall y, x :: InWindow(y, x) ==>
                localMapCache[y, x] ==
                  var inside := StartY(oldPos, position) <= y <= EndY(oldPos, position);
                  var was := old(Image());
                  if oldPos.x < position.x then
                    if x == MAP_WALK_WIDTH - 1 then g(PlaceOf(position, y, x)) else was[y][if inside then x + 1 else x]
                  else if oldPos.x > position.x then
                    if x == 0 then g(PlaceOf(position, y, x)) else was[y][if inside then x - 1 else x]
                  else was[y][x]
    {
      var starty, endy := 0, MAP_WALK_HEIGHT - 1;
      var dy := oldPos.y - position.y;
      if dy < 0 {
        endy := endy + dy;
      } else if dy > 0 {
        starty := starty + dy;
      }
      if oldPos.x < position.x {
        ShiftWest(starty, endy);
        UpdateColumn(g, (MAP_WALK_WIDTH - 1) / 2);
      } else if oldPos.x > position.x {
        ShiftEast(starty, endy);
        UpdateColumn(g, -((MAP_WALK_WIDTH - 1) / 2));
      }
    }

    method StepWindow(g: Ground, oldPos: Position)
      requires Valid() && oldPos.z == position.z
      modifies localMapCache
      ensures forall y, x :: InWindow(y, x) ==>
                localMapCache[y, x] == Stepped(old(Image()), oldPos, position, g, y, x)
    {
      ghost var w := Image();
      MoveRows(g, oldPos);
      ghost var v := Image();
      MoveColumns(g, oldPos);
      assert forall y, x :: InWindow(y, x) ==> localMapCache[y, x] == AllMoved(w, oldPos, position, g, y, x);
      UpdateTileCache(g, oldPos);
    }

    /** onCreatureMove for the creature itself, which is in its new place by then. */
    method OnMove(to: Position, teleport: bool, g: Ground, ghost was: Ground)
      requires Valid() && Local(was, position, Moves(to, teleport), g)
      modifies this`position, localMapCache
      ensures position == to
      ensures old(Current(was)) || teleport || old(position).z != to.z ==> Current(g)
    {
      ghost var w, now := Image(), Current(was);
      var oldPos := position;
      position := to;
      if isMapLoaded {
        if teleport || oldPos.z != to.z {
          UpdateMapCache(g);
        } else {
          StepWindow(g, oldPos);
          if now {
            forall y, x | InWindow(y, x) && PlaceOf(to, y, x) != to
              ensures localMapCache[y, x] == g(PlaceOf(to, y, x))
            {
              StepShows(w, oldPos, to, was, g, y, x);
            }
          }
        }
      }
    }

    /** onCreatureAppear for the creature itself. */
    method OnAppear(g: Ground)
      requires Valid()
      modifies this`isMapLoaded, localMapCache
      ensures isMapLoaded == (useCacheMap || old(isMapLoaded))
      ensures useCacheMap || !isMapLoaded ==> Current(g)
    {
      if useCacheMap {
        isMapLoaded := true;
        UpdateMapCache(g);
      }
    }

    /** onCreatureMove for another creature. */
    method OnOtherMove(from: Position, to: Position, g: Ground, ghost was: Ground)
      requires Valid() && ChangedAt(was, g, from, to)
      modifies localMapCache
      ensures old(Current(was)) ==> Current(g)
    {
      if isMapLoaded {
        if to.z == position.z {
          UpdateTileCache(g, to);
        }
        if from.z == position.z {
          UpdateTileCache(g, from);
        }
      }
    }

    /** onAddTileItem, and other creatures that come and go. */
    method OnTile(at: Position, g: Ground, ghost was: Ground)
      requires Valid() && ChangedAt(was, g, at, at)
      modifies localMapCache
      ensures old(Current(was)) ==> Current(g)
      ensures forall y, x :: InWindow(y, x) ==>
                localMapCache[y, x]
                == if isMapLoaded && PlaceOf(position, y, x) == at then g(at) else old(localMapCache[y, x])
    {
      if isMapLoaded {
        if at.z == position.z {
          UpdateTileCache(g, at);
        }
      }
    }

    /** The cache stays right exactly if the place is refreshed, is out of sight, or has not changed. */
    method OnUpdateTileItem(at: Position, oldType: ItemType, newType: ItemType, g: Ground, ghost was: Ground)
      requires Valid() && ChangedAt(was, g, at, at)
      modifies localMapCache
      ensures old(Current(was)) ==>
                (Current(g) <==> !isMapLoaded || Harmless(was, position, ItemUpdated(at, oldType, newType), g))
      ensures var blocks := oldType.blockSolid || oldType.blockPathFind || newType.blockPathFind || newType.blockSolid;
              forall y, x :: InWindow(y, x) ==>
                localMapCache[y, x]
                == if isMapLoaded && blocks && PlaceOf(position, y, x) == at then g(at) else old(localMapCache[y, x])
    {
      if Shows(Image(), position, was) { LeftAlone(Image(), position, was, g, at); }
      if isMapLoaded {
        if oldType.blockSolid || oldType.blockPathFind || newType.blockPathFind || newType.blockSolid {
          OnTile(at, g, was);
        }
      }
    }

    /** The same for an item that goes. */
    method OnRemoveTileItem(at: Position, typ: ItemType, g: Ground, ghost was: Ground)
      requires Valid() && ChangedAt(was, g, at, at)
      modifies localMapCache
      ensures old(Current(was)) ==>
                (Current(g) <==> !isMapLoaded || Harmless(was, position, ItemRemoved(at, typ), g))
      ensures var blocks := typ.blockSolid || typ.blockPathFind || typ.isGroundTile;
              forall y, x :: InWindow(y, x) ==>
                localMapCache[y, x]
                == if isMapLoaded && blocks && PlaceOf(position, y, x) == at then g(at) else old(localMapCache[y, x])
    {
      if Shows(Image(), position, was) { LeftAlone(Image(), position, was, g, at); }
      if isMapLoaded {
        if typ.blockSolid || typ.blockPathFind || typ.isGroundTile {
          OnTile(at, g, was);
        }
      }
    }

    /** The creature itself changes, and with it what it may enter. Nothing handles that. */
    lemma OnSelfChange(g: Ground, was: Ground)
      requires Valid() && Current(was)
      ensures Current(g) <==> !isMapLoaded || Harmless(was, position, SelfChanges, g)
    {
      if isMapLoaded { NothingRefreshed(Image(), position, was, g); }
    }

    /** One event of a run. */
    method Handle(e: Event, g: Ground, ghost was: Ground)
      requires Valid() && Local(was, position, e, g) && (isMapLoaded ==> useCacheMap)
      modifies this`position, this`isMapLoaded, localMapCache
      ensures position == PositionAfter(old(position), e) && (isMapLoaded ==> useCacheMap)
      ensures isMapLoaded <==> old(isMapLoaded) || (e.Appears? && useCacheMap)
      ensures old(Current(was)) ==> (Current(g) <==> !isMapLoaded || Harmless(was, old(position), e, g))
    {
      if e.SelfChanges? && Current(was) { OnSelfChange(g, was); }
      match e {
        case Appears => OnAppear(g);
        case Moves(to, teleport) => OnMove(to, teleport, g, was);
        case OtherMoves(from, to) => OnOtherMove(from, to, g, was);
        case OtherAppears(at) => OnTile(at, g, was);
        case OtherDisappears(at) => OnTile(at, g, was);
        case ItemAdded(at) => OnTile(at, g, was);
        case ItemUpdated(at, oldType, newType) => OnUpdateTileItem(at, oldType, newType, g, was);
        case ItemRemoved(at, typ) => OnRemoveTileItem(at, typ, g, was);
        case SelfChanges =>
      }
    }

    /**
     From the creature's own appearance on, along every run: as long as no event has done harm the cache
     is right, and with the first one that does it is wrong. So it has been right after every event if
     and only if no event did harm.
     */
    method Run(g: Ground, events: seq<(Event, Ground)>)
      requires Valid() && useCacheMap && isMapLoaded && Current(g) && IsRun(g, position, events)
      modifies this`position, this`isMapLoaded, localMapCache
      ensures isMapLoaded && position == PlaceAfter(old(position), events)
      ensures AllHarmless(g, old(position), events) ==> Current(GroundAfter(g, events))
      ensures events != [] && AllHarmless(g, old(position), events[..|events| - 1]) ==>
                (Current(GroundAfter(g, events)) <==> AllHarmless(g, old(position), events))
    {
      hide Local, Harmless, IsRun, AllHarmless, PlaceAfter, GroundAfter, Current;
      ghost var pos := position;
      NoEvents(g, pos);
      assert events[..0] == [];
      for i := 0 to |events|
        invariant isMapLoaded && position == PlaceAfter(pos, events[..i])
        invariant AllHarmless(g, pos, events[..i]) ==> Current(GroundAfter(g, events[..i]))
        invariant i > 0 && AllHarmless(g, pos, events[..i - 1]) ==>
                    (Current(GroundAfter(g, events[..i])) <==> AllHarmless(g, pos, events[..i]))
      {
        assert events[..i + 1] == events[..i] + [events[i]];
        RunBefore(g, pos, events, i + 1);
        RunOn(g, pos, events[..i], events[i]);
        Handle(events[i].0, events[i].1, GroundAfter(g, events[..i]));
      }
      assert events[..|events|] == events;
    }
  }

  lemma NoEvents(g: Ground, pos: Position)
    ensures AllHarmless(g, pos, []) && GroundAfter(g, []) == g && PlaceAfter(pos, []) == pos
  {
  }
}
