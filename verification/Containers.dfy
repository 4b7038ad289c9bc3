/**
 Items and containers on the heap.

 Every operation of a container is compared with a value: Snap(S), the forest that the objects of
 S form, changes exactly as the operation of the same name in Forest says. S is the set of all
 items around; it exists for the proof only.
 */
module Containers {
  import opened Wrappers
  import opened Forest
  import opened LevelOrder

  /**
   fluid says whether it holds or is a fluid, charges how many it has at first; either is its subtype then.
   decayTime is in seconds.
   */
  datatype ItemType = ItemType(stackable: bool, weight: int, pickupable: bool, moveable: bool,
                               fluid: bool, charges: nat, decayTime: nat) {
    predicate Charged() { charges != 0 }
    predicate SubTypeIsCount() { !fluid && !Charged() }
  }

  /** Item::items, the table of all item types. */
  type ItemTypes = nat -> ItemType

  const INDEX_WHEREEVER: int := -1

  datatype ReturnValue =
    | RET_NOERROR
    | RET_NOTPOSSIBLE
    | RET_CANNOTPICKUP
    | RET_THISISIMPOSSIBLE
    | RET_CONTAINERNOTENOUGHROOM
    | RET_NOTMOVEABLE
    | RET_OTHER

  /** The flags a container looks at. */
  datatype Flags = Flags(noLimit: bool, childIsOwner: bool, ignoreNotMoveable: bool)

  /** Where an index of a client leads: a container, a place in its list and the item found there. */
  datatype Aim = Aim(cylinder: Item, index: int, item: Item?)

  /** Item::getWeight: what an item weighs without its contents. */
  function WeightOf(types: ItemTypes): Measure {
    (id: nat, count: nat, isContainer: bool) =>
      if types(id).stackable then types(id).weight * Max(1, count) else types(id).weight
  }

  /** The forest formed by a set of items. */
  ghost function Snap(S: set<Item>): (a: Arena<Item>)
    reads S
    ensures a.Keys == S
  {
    map x | x in S :: x.AsNode()
  }

  /** A stack weighs its unit as many times as it has units. */
  lemma UnitsWeigh(types: ItemTypes, id: nat, n: nat, isContainer: bool)
    ensures types(id).stackable && n >= 1 ==> WeightOf(types)(id, n, isContainer) == n * types(id).weight
    ensures !types(id).stackable ==> WeightOf(types)(id, n, isContainer) == types(id).weight
  {
  }

  lemma Distribute(m: int, n: int, w: int)
    ensures (m - n) * w == m * w - n * w
  {
  }

  class Item {
    var id: nat
    var count: nat
    var parent: Item?       // the container it lies in; null also on the ground or on a creature
    const isContainer: bool
    const maxSize: nat
    var itemlist: seq<Item>
    var totalWeight: int

    constructor (id: nat, count: nat, isContainer: bool, maxSize: nat)
      ensures AsNode() == Node(id, count, isContainer, maxSize, None, [], 0)
    {
      this.id, this.count, this.isContainer, this.maxSize := id, count, isContainer, maxSize;
      parent, itemlist, totalWeight := null, [], 0;
    }

    ghost function AsNode(): Node<Item>
      reads this
    {
      Node(id, count, isContainer, maxSize, Holder(), itemlist, totalWeight)
    }

    ghost function Holder(): Option<Item>
      reads this
    {
      if parent == null then None else var p: Item := parent; Some(p)
    }

    function Weight(types: ItemTypes): int
      reads this
    {
      WeightOf(types)(id, count, isContainer) + (if isContainer then totalWeight else 0)
    }

    /** What an item weighs with its contents: a stack as many times its unit as it has units. */
    lemma WeightIs(types: ItemTypes, S: set<Item>)
      requires this in S && WellWeighed(Snap(S), WeightOf(types))
      ensures !isContainer ==> totalWeight == 0
      ensures types(id).stackable && !isContainer && count >= 1 ==> Weight(types) == count * types(id).weight
      ensures !types(id).stackable ==> Weight(types) == types(id).weight + totalWeight
    {
      hide Below, Acyclic;
      if !isContainer { LeafBelow(Snap(S), this, WeightOf(types)); }
    }

    /** Adds diff here and in every container above. */
    method UpdateItemWeight(diff: int, ghost S: set<Item>, ghost r: Ranking<Item>)
      requires this in S && IsRanking(Snap(S), r)
      modifies S`totalWeight
      ensures Acyclic(old(Snap(S))) && Snap(S) == AddUp(old(Snap(S)), this, diff)
      decreases r.bound - r.of[this]
    {
      hide AddUp, IsRanking, AtOrAbove;
      ghost var a := Snap(S);
      RankedAt(S, this, r);
      totalWeight := totalWeight + diff;
      assert Snap(S) == Bump(a, this, diff);
      SameShapeKeeps(a, Bump(a, this, diff), r);
      AddUpStep(a, this, diff);
      if parent != null {
        parent.UpdateItemWeight(diff, S, r);
      }
    }

    method AddThing(index: int, item: Item, types: ItemTypes, ghost S: set<Item>)
      requires this in S && item in S
      requires WellWeighed(Snap(S), WeightOf(types)) && Fits(Snap(S), this, item)
      modifies S`totalWeight, this`itemlist, item`parent
      ensures index >= maxSize ==> Snap(S) == old(Snap(S))
      ensures index < maxSize ==> Snap(S) == Added(old(Snap(S)), WeightOf(types), this, item)
      ensures WellWeighed(Snap(S), WeightOf(types))
      ensures index < maxSize && types(item.id).stackable && !item.isContainer && item.count >= 1 ==>
                Heavier(old(Snap(S)), Snap(S), this, item.count * types(item.id).weight)
      ensures index < maxSize && !types(item.id).stackable ==>
                Heavier(old(Snap(S)), Snap(S), this, types(item.id).weight + old(item.totalWeight))
    {
      hide *;
      if index >= maxSize {
        return;
      }
      item.WeightIs(types, S);
      Attach(item, types, S);
    }

    /** item becomes the first of the list; the weights are brought up to date. */
    method Attach(item: Item, types: ItemTypes, ghost S: set<Item>)
      requires this in S && item in S
      requires WellWeighed(Snap(S), WeightOf(types)) && Fits(Snap(S), this, item)
      modifies S`totalWeight, this`itemlist, item`parent
      ensures Snap(S) == Added(old(Snap(S)), WeightOf(types), this, item)
      ensures WellWeighed(Snap(S), WeightOf(types))
      ensures Heavier(old(Snap(S)), Snap(S), this, old(item.Weight(types)))
    {
      hide Below, AddUp, Linked, IsRanking, Acyclic, AtOrAbove, WellWeighed, Own, Load, WeightOf, Heavier;
      ghost var a := Snap(S);
      LinkSound(a, this, item);
      AddedKeepsWeights(a, WeightOf(types), this, item);
      AddedIsHeavier(a, WeightOf(types), this, item);
      WeightIsLoad(item, types, S);
      var weight := item.Weight(types);
      item.parent := this;
      itemlist := [item] + itemlist;
      assert Snap(S) == Link(a, this, item);
      UpdateItemWeight(weight, S, Rank(Snap(S)));
    }

    method InternalAddThing(item: Item, types: ItemTypes, ghost S: set<Item>)
      requires this in S && item in S
      requires WellWeighed(Snap(S), WeightOf(types)) && Fits(Snap(S), this, item)
      modifies S`totalWeight, this`itemlist, item`parent
      ensures Snap(S) == Added(old(Snap(S)), WeightOf(types), this, item)
      ensures WellWeighed(Snap(S), WeightOf(types))
      ensures types(item.id).stackable && !item.isContainer && item.count >= 1 ==>
                Heavier(old(Snap(S)), Snap(S), this, item.count * types(item.id).weight)
      ensures !types(item.id).stackable ==>
                Heavier(old(Snap(S)), Snap(S), this, types(item.id).weight + old(item.totalWeight))
    {
      hide *;
      item.WeightIs(types, S);
      Attach(item, types, S);
    }

    /** The position of an item in the list, or -1. */
    method GetIndexOfThing(item: Item) returns (index: int)
      ensures -1 <= index < |itemlist|
      ensures index == -1 <==> item !in itemlist
      ensures index >= 0 ==> itemlist[index] == item && item !in itemlist[..index]
    {
      index := 0;
      while index < |itemlist|
        invariant 0 <= index <= |itemlist|
        invariant item !in itemlist[..index]
      {
        if itemlist[index] == item {
          return;
        }
        index := index + 1;
      }
      index := -1;
    }

    method GetThing(index: int) returns (item: Item?)
      ensures item == Lying(index)
    {
      item := null;
      if 0 <= index < |itemlist| {
        item := itemlist[index];
      }
    }

    /** The item becomes another type or another count. */
    method UpdateThing(item: Item, itemId: nat, n: nat, types: ItemTypes, ghost S: set<Item>)
      requires this in S && item in S
      requires WellWeighed(Snap(S), WeightOf(types))
      modifies S`totalWeight, item`id, item`count
      ensures item !in itemlist ==> Snap(S) == old(Snap(S))
      ensures item in itemlist ==>
                Snap(S) == Changed(old(Snap(S)), WeightOf(types), this, item, itemId,
                                   if types(itemId).SubTypeIsCount() then n else old(item.count))
      ensures WellWeighed(Snap(S), WeightOf(types))
      ensures item in itemlist && itemId == old(item.id) && types(itemId).stackable && types(itemId).SubTypeIsCount()
              && !item.isContainer && old(item.count) >= 1 && n >= 1 ==>
                Heavier(old(Snap(S)), Snap(S), this, (n - old(item.count)) * types(itemId).weight)
    {
      hide *;
      var index := GetIndexOfThing(item);
      if index == -1 {
        return;
      }
      UnitsWeigh(types, itemId, item.count, item.isContainer);
      UnitsWeigh(types, itemId, n, item.isContainer);
      Distribute(n, item.count, types(itemId).weight);
      Remake(item, itemId, if types(itemId).SubTypeIsCount() then n else item.count, types, S);
    }

    /** setID and setSubType on an item of the list, and the weights brought up to date. */
    method Remake(item: Item, itemId: nat, n: nat, types: ItemTypes, ghost S: set<Item>)
      requires this in S && item in S && item in itemlist
      requires WellWeighed(Snap(S), WeightOf(types))
      modifies S`totalWeight, item`id, item`count
      ensures Sound(old(Snap(S)))
      ensures Snap(S) == Changed(old(Snap(S)), WeightOf(types), this, item, itemId, n)
      ensures WellWeighed(Snap(S), WeightOf(types))
      ensures Heavier(old(Snap(S)), Snap(S), this,
                      WeightOf(types)(itemId, n, item.isContainer)
                      - WeightOf(types)(old(item.id), old(item.count), item.isContainer))
    {
      hide Below, AddUp, Linked, IsRanking, Acyclic, AtOrAbove, WellWeighed, WeightOf, Retype, Changed, Own, Heavier;
      ghost var a := Snap(S);
      WeighedIsSound(a, WeightOf(types));
      RetypeSound(a, item, itemId, n);
      OwnIs(WeightOf(types), a[item]);
      ChangedKeepsWeights(a, WeightOf(types), this, item, itemId, n);
      ChangedIsHeavier(a, WeightOf(types), this, item, itemId, n);
      var diff := BecomeOther(item, itemId, n, types, S);
      ChangedIs(a, WeightOf(types), this, item, itemId, n, diff);
      UpdateItemWeight(diff, S, Rank(Snap(S)));
    }

    /** setID and setSubType alone; diff is by how much the item has become heavier. */
    method BecomeOther(item: Item, itemId: nat, n: nat, types: ItemTypes, ghost S: set<Item>) returns (diff: int)
      requires item in S
      modifies item`id, item`count
      ensures Snap(S) == Retype(old(Snap(S)), item, itemId, n)
      ensures diff == WeightOf(types)(itemId, n, item.isContainer)
                      - WeightOf(types)(old(item.id), old(item.count), item.isContainer)
    {
      hide WeightOf, Retype;
      ghost var a := Snap(S);
      var oldWeight := item.Weight(types);
      item.id := itemId;
      item.count := n;
      diff := -oldWeight + item.Weight(types);
      IsRetype(a, Snap(S), item, itemId, n);
    }

    /** Takes count units of the item out, or all of it. */
    method RemoveThing(item: Item, n: nat, types: ItemTypes, ghost S: set<Item>)
      requires this in S && item in S
      requires WellWeighed(Snap(S), WeightOf(types))
      modifies S`totalWeight, this`itemlist, item`parent, item`id, item`count
      ensures item !in old(itemlist) ==> Snap(S) == old(Snap(S))
      ensures item in old(itemlist) ==>
                Snap(S) == if types(old(item.id)).stackable && n != old(item.count)
                           then Changed(old(Snap(S)), WeightOf(types), this, item, old(item.id),
                                        Max(0, old(item.count) - n) % 256)
                           else Removed(old(Snap(S)), WeightOf(types), this, item)
      ensures WellWeighed(Snap(S), WeightOf(types))
      ensures item in old(itemlist) && types(old(item.id)).stackable && !item.isContainer && n <= old(item.count) <= 255
              && old(item.count) >= 1 ==>
                Heavier(old(Snap(S)), Snap(S), this, -(n * types(old(item.id)).weight))
      ensures item in old(itemlist) && !types(old(item.id)).stackable ==>
                Heavier(old(Snap(S)), Snap(S), this, -(types(old(item.id)).weight + old(item.totalWeight)))
    {
      hide Below, AddUp, Linked, IsRanking, Acyclic, AtOrAbove, WellWeighed, Own, Load, WeightOf, Changed, Removed,
           Snap, Heavier, Item.Weight;
      var index := GetIndexOfThing(item);
      if index == -1 {
        return;
      }
      item.WeightIs(types, S);
      Distribute(item.count, n, types(item.id).weight);
      if types(item.id).stackable && n != item.count {
        UnitsWeigh(types, item.id, item.count, item.isContainer);
        UnitsWeigh(types, item.id, Max(0, item.count - n) % 256, item.isContainer);
        Remake(item, item.id, Max(0, item.count - n) % 256, types, S);
      } else {
        Detach(item, index, types, S);
      }
    }

    /** The item leaves the list; the weights are brought up to date. */
    method Detach(item: Item, index: nat, types: ItemTypes, ghost S: set<Item>)
      requires this in S && item in S
      requires WellWeighed(Snap(S), WeightOf(types))
      requires index < |itemlist| && itemlist[index] == item && item !in itemlist[..index]
      modifies S`totalWeight, this`itemlist, item`parent
      ensures Snap(S) == Removed(old(Snap(S)), WeightOf(types), this, item)
      ensures WellWeighed(Snap(S), WeightOf(types))
      ensures Heavier(old(Snap(S)), Snap(S), this, -old(item.Weight(types)))
    {
      hide Below, AddUp, Linked, IsRanking, Acyclic, AtOrAbove, WellWeighed, Own, Load, WeightOf, Snap, Unlink, Heavier;
      ghost var a := Snap(S);
      SnapNode(S, this);
      WeighedIsSound(a, WeightOf(types));
      WeightIsLoad(item, types, S);
      UnlinkSound(a, this, item);
      ListedIsBelow(a, this, item);
      RemovedKeepsWeights(a, WeightOf(types), this, item);
      RemovedIsHeavier(a, WeightOf(types), this, item);
      var weight := item.Weight(types);
      TakeOff(item, index, S);
      UpdateItemWeight(-weight, S, Rank(Snap(S)));
    }

    /** The item leaves the list, and the list leaves the item. */
    method TakeOff(item: Item, index: nat, ghost S: set<Item>)
      requires this in S && item in S && item != this
      requires index < |itemlist| && itemlist[index] == item && item !in itemlist[..index]
      modifies this`itemlist, item`parent
      ensures Snap(S) == Unlink(old(Snap(S)), this, item)
    {
      ghost var a := Snap(S);
      item.parent := null;
      itemlist := itemlist[..index] + itemlist[index + 1..];
      IsUnlink(a, Snap(S), this, item, index);
    }

    /** item takes the place of the one at index. */
    method ReplaceThing(index: nat, item: Item, types: ItemTypes, ghost S: set<Item>)
      requires this in S && item in S
      requires WellWeighed(Snap(S), WeightOf(types)) && Fits(Snap(S), this, item)
      modifies S`totalWeight, S`parent, this`itemlist
      ensures index >= |old(itemlist)| ==> Snap(S) == old(Snap(S))
      ensures index < |old(itemlist)| ==>
                Snap(S) == Replaced(old(Snap(S)), WeightOf(types), this, old(itemlist)[index], item)
      ensures WellWeighed(Snap(S), WeightOf(types))
      ensures index < |old(itemlist)| ==>
                Heavier(old(Snap(S)), Snap(S), this, old(item.Weight(types)) - old(itemlist[index].Weight(types)))
    {
      if index >= |itemlist| {
        return;
      }
      PutAt(index, item, types, S);
    }

    method PutAt(index: nat, item: Item, types: ItemTypes, ghost S: set<Item>)
      requires this in S && item in S && index < |itemlist|
      requires WellWeighed(Snap(S), WeightOf(types)) && Fits(Snap(S), this, item)
      modifies S`totalWeight, S`parent, this`itemlist
      ensures Snap(S) == Replaced(old(Snap(S)), WeightOf(types), this, old(itemlist)[index], item)
      ensures WellWeighed(Snap(S), WeightOf(types))
      ensures Heavier(old(Snap(S)), Snap(S), this, old(item.Weight(types)) - old(itemlist[index].Weight(types)))
    {
      hide Below, AddUp, Linked, IsRanking, Acyclic, AtOrAbove, WellWeighed, Own, Load, WeightOf, Swap, Snap, Heavier;
      var oldItem := itemlist[index];
      ghost var a := Snap(S);
      SnapNode(S, this);
      ListIsProper(a, this, item);
      SwapSound(a, this, oldItem, item);
      ReplacedKeepsWeights(a, WeightOf(types), this, oldItem, item);
      ReplacedIsHeavier(a, WeightOf(types), this, oldItem, item);
      WeightIsLoad(oldItem, types, S);
      WeightIsLoad(item, types, S);
      var diff := -oldItem.Weight(types) + item.Weight(types);
      Exchange(index, item, oldItem, S);
      UpdateItemWeight(diff, S, Rank(Snap(S)));
    }

    /** item takes old's place in the list. */
    method Exchange(index: nat, item: Item, oldItem: Item, ghost S: set<Item>)
      requires this in S && item in S && oldItem in S && index < |itemlist| && itemlist[index] == oldItem
      requires Distinct(itemlist) && this != item && this != oldItem && item != oldItem
      modifies this`itemlist, item`parent, oldItem`parent
      ensures Snap(S) == Swap(old(Snap(S)), this, oldItem, item)
    {
      ghost var a := Snap(S);
      itemlist := itemlist[index := item];
      item.parent := this;
      oldItem.parent := null;
      IsSwap(a, Snap(S), this, oldItem, item, index);
    }

    // -- queries

    /**
     May item be added? ownerSays is the answer of the outermost holder: RET_NOERROR when that is
     a container or a tile, and the carrying player's answer otherwise.
     */
    method QueryAdd(index: int, item: Item, flags: Flags, ownerSays: ReturnValue, types: ItemTypes,
                    ghost S: set<Item>) returns (ret: ReturnValue)
      requires this in S && item in S && Sound(Snap(S))
      ensures ret ==
                if flags.childIsOwner then RET_NOERROR
                else if !types(item.id).pickupable then RET_CANNOTPICKUP
                else if AtOrAbove(Snap(S), item, this) then RET_THISISIMPOSSIBLE
                else if index == INDEX_WHEREEVER && !flags.noLimit && |itemlist| >= maxSize
                then RET_CONTAINERNOTENOUGHROOM
                else ownerSays
    {
      hide Linked;
      if flags.childIsOwner {
        return RET_NOERROR;
      }
      if !types(item.id).pickupable {
        return RET_CANNOTPICKUP;
      }
      ghost var a := Snap(S);
      AtOrAboveStep(a, item, this);
      if item == this {
        return RET_THISISIMPOSSIBLE;
      }
      var cylinder := parent;
      while cylinder != null
        invariant cylinder != null ==> cylinder in S
        invariant AtOrAbove(a, item, this) <==> cylinder != null && AtOrAbove(a, item, cylinder)
        decreases if cylinder == null then 0 else Rank(a).bound - Rank(a).of[cylinder] + 1
      {
        AtOrAboveStep(a, item, cylinder);
        if cylinder == item {
          return RET_THISISIMPOSSIBLE;
        }
        cylinder := cylinder.parent;
      }
      if index == INDEX_WHEREEVER && !flags.noLimit {
        if |itemlist| >= maxSize {
          return RET_CONTAINERNOTENOUGHROOM;
        }
      }
      return ownerSays;
    }

    /** How much of item fits: every free slot takes a stack, and a like stack at index takes its rest. */
    method QueryMaxCount(index: int, item: Item, n: nat, flags: Flags, types: ItemTypes)
        returns (ret: ReturnValue, maxQueryCount: int)
      requires forall i :: 0 <= i < |itemlist| ==> types(itemlist[i].id).stackable ==> itemlist[i].count <= 100
      ensures maxQueryCount == Room(index, item, n, flags, types) && maxQueryCount >= 0
      ensures ret == RET_NOERROR <==>
                maxQueryCount >= (if types(item.id).stackable then n else 1)
      ensures ret == RET_NOERROR || ret == RET_CONTAINERNOTENOUGHROOM
      ensures flags.noLimit ==> maxQueryCount == Max(1, n)
      ensures !flags.noLimit && types(item.id).stackable ==>
                forall m: nat :: m <= maxQueryCount <==> Takes(Lying(index), item, m)
      ensures !flags.noLimit && !types(item.id).stackable ==>
                maxQueryCount == if |itemlist| <= maxSize then maxSize - |itemlist| else 0
    {
      if !flags.noLimit && types(item.id).stackable { RoomIs(index, item, n, flags, types); }
      if flags.noLimit {
        return RET_NOERROR, Max(1, n);
      }
      var freeSlots := Max(maxSize - |itemlist|, 0);
      if types(item.id).stackable {
        var rest := 0;
        if index != INDEX_WHEREEVER {
          var destItem := GetThing(index);
          if destItem != null && destItem.id == item.id {
            rest := 100 - destItem.count;
          }
        }
        maxQueryCount := freeSlots * 100 + rest;
        if maxQueryCount < n {
          return RET_CONTAINERNOTENOUGHROOM, maxQueryCount;
        }
      } else {
        maxQueryCount := freeSlots;
        if maxQueryCount == 0 {
          return RET_CONTAINERNOTENOUGHROOM, maxQueryCount;
        }
      }
      return RET_NOERROR, maxQueryCount;
    }

    /**
     How many units fit: without a limit all n; else a full stack for each free slot and what the
     stack at index has left, or one item for each free slot.
     */
    function Room(index: int, item: Item, n: nat, flags: Flags, types: ItemTypes): int
      reads this, item, itemlist
    {
      var freeSlots := Max(0, maxSize - |itemlist|);
      if flags.noLimit then Max(1, n)
      else if types(item.id).stackable then 100 * freeSlots + Rest(index, item)
      else freeSlots
    }

    /** What is left of the stack at index, if it is of item's type. */
    function Rest(index: int, item: Item): int
      reads this, item, itemlist
    {
      if 0 <= index < |itemlist| && itemlist[index].id == item.id then 100 - itemlist[index].count else 0
    }

    /** Of m units of item, more go onto the stack toItem and the others into new stacks in free slots. */
    ghost predicate Lays(toItem: Item?, item: Item, m: nat, more: nat, slots: nat)
      reads this, item, toItem
    {
      && more <= m <= more + 100 * slots
      && (more > 0 ==> toItem != null && toItem.id == item.id && toItem.count + more <= 100)
      && (slots > 0 ==> |itemlist| + slots <= maxSize)
    }

    /** m units of item can join without a stack above 100 or a list above the capacity. */
    ghost predicate Takes(toItem: Item?, item: Item, m: nat)
      reads this, item, toItem
    {
      exists more: nat, slots: nat :: Lays(toItem, item, m, more, slots)
    }

    /** Room is the largest number of units that can join. */
    lemma RoomIs(index: int, item: Item, n: nat, flags: Flags, types: ItemTypes)
      requires !flags.noLimit && types(item.id).stackable
      requires forall i :: 0 <= i < |itemlist| ==> types(itemlist[i].id).stackable ==> itemlist[i].count <= 100
      ensures forall m: nat :: m <= Room(index, item, n, flags, types) <==> Takes(Lying(index), item, m)
    {
      forall m: nat ensures m <= Room(index, item, n, flags, types) <==> Takes(Lying(index), item, m) {
        var rest := Rest(index, item);
        if m <= Room(index, item, n, flags, types) {
          assert Lays(Lying(index), item, m, Min(m, rest), if m <= rest then 0 else maxSize - |itemlist|);
        }
      }
    }

    /** What lies at an index. */
    function Lying(index: int): Item?
      reads this
    {
      if 0 <= index < |itemlist| then itemlist[index] else null
    }

    method QueryRemove(item: Item, n: nat, flags: Flags, types: ItemTypes) returns (ret: ReturnValue)
      ensures ret == RET_NOERROR <==>
                && item in itemlist
                && n != 0 && (types(item.id).stackable ==> n <= item.count)
                && (types(item.id).moveable || flags.ignoreNotMoveable)
      ensures item in itemlist && n != 0 && (types(item.id).stackable ==> n <= item.count) ==>
                ret == RET_NOERROR || ret == RET_NOTMOVEABLE
      ensures item !in itemlist || n == 0 || (types(item.id).stackable && n > item.count) ==> ret == RET_NOTPOSSIBLE
    {
      var index := GetIndexOfThing(item);
      if index == -1 {
        return RET_NOTPOSSIBLE;
      }
      if n == 0 || (types(item.id).stackable && n > item.count) {
        return RET_NOTPOSSIBLE;
      }
      if !types(item.id).moveable && !flags.ignoreNotMoveable {
        return RET_NOTMOVEABLE;
      }
      return RET_NOERROR;
    }

    /** Where a client's index leads from here. */
    function Aimed(index: int): Aim
      reads this, itemlist
    {
      if index == 254 then Aim(if parent == null then this else parent, INDEX_WHEREEVER, null)
      else if index == 255 || index >= maxSize then Aim(this, INDEX_WHEREEVER, null)
      else if !(0 <= index < |itemlist|) then Aim(this, index, null)
      else if itemlist[index].isContainer then Aim(itemlist[index], INDEX_WHEREEVER, null)
      else Aim(this, index, itemlist[index])
    }

    /**
     Where a client's index points: the parent (254), this container anywhere (255), a container
     lying there, or an item lying there.
     */
    method QueryDestination(index0: int, destItem0: Item?) returns (cylinder: Item, index: int, destItem: Item?)
      requires destItem0 != null ==> !destItem0.isContainer
      ensures index0 == 254 ==>
                index == INDEX_WHEREEVER && destItem == null && cylinder == if parent == null then this else parent
      ensures index0 == 255 ==> cylinder == this && index == INDEX_WHEREEVER && destItem == null
      ensures index0 != 254 && index0 != 255 && (index0 == INDEX_WHEREEVER || index0 >= maxSize) ==>
                cylinder == this && index == INDEX_WHEREEVER && destItem == destItem0
      ensures index0 != 254 && index0 != 255 && 0 <= index0 < maxSize && index0 < |itemlist| ==>
                if itemlist[index0].isContainer
                then cylinder == itemlist[index0] && index == INDEX_WHEREEVER && destItem == null
                else cylinder == this && index == index0 && destItem == itemlist[index0]
      ensures index0 != 254 && index0 != 255 && index0 != INDEX_WHEREEVER && index0 < maxSize
              && !(0 <= index0 < |itemlist|) ==>
                cylinder == this && index == index0 && destItem == destItem0
      ensures destItem0 == null ==> Aim(cylinder, index, destItem) == Aimed(index0)
    {
      index, destItem, cylinder := index0, destItem0, this;
      if index == 254 {
        // the client means the container around this one
        index := INDEX_WHEREEVER;
        destItem := null;
        if parent != null {
          cylinder := parent;
        }
        return;
      } else if index == 255 {
        // any free place will do
        index := INDEX_WHEREEVER;
        destItem := null;
        return;
      }
      if index >= maxSize {
        index := INDEX_WHEREEVER;
      }
      if index != INDEX_WHEREEVER {
        var destThing := GetThing(index);
        if destThing != null {
          destItem := destThing;
        }
        if destItem != null && destItem.isContainer {
          cylinder := destItem;
          index := INDEX_WHEREEVER;
          destItem := null;
        }
      }
    }

    /** How many items are nested in this container, at any depth. */
    method GetItemHoldingCount(ghost S: set<Item>) returns (counter: nat)
      requires this in S && Sound(Snap(S))
      ensures counter == Below(Snap(S), this, One())
    {
      hide Walk, Linked, Acyclic, Below, Busy, Pending, IterValid, Remaining;
      ghost var a := Snap(S);
      var iter := new ContainerIterator(this, S);
      counter := 0;
      while !iter.Done()
        invariant IterValid(a, iter.over, iter.cur)
        invariant counter + |Remaining(a, iter.over, iter.cur)| == Below(a, this, One())
        decreases |Remaining(a, iter.over, iter.cur)|
      {
        counter := counter + 1;
        iter.Next(S);
      }
      RemainingAtEnd(a, iter.over, iter.cur);
    }

    /** Whether an item is nested in this container, at any depth. */
    method IsHoldingItem(item: Item, ghost S: set<Item>) returns (holding: bool)
      requires this in S && item in S && Sound(Snap(S))
      ensures holding <==> item != this && AtOrAbove(Snap(S), this, item)
    {
      hide Walk, Linked, Acyclic, Below, Busy, Pending, IterValid, Remaining, AtOrAbove;
      ghost var a := Snap(S);
      var iter := new ContainerIterator(this, S);
      ghost var all := Remaining(a, iter.over, iter.cur);
      while !iter.Done()
        invariant IterValid(a, iter.over, iter.cur)
        invariant item in all <==> item in Remaining(a, iter.over, iter.cur)
        decreases |Remaining(a, iter.over, iter.cur)|
      {
        ghost var rest := Remaining(a, iter.over, iter.cur);
        var current := iter.Current(S);
        assert rest == [rest[0]] + rest[1..];
        if current == item {
          return true;
        }
        iter.Next(S);
      }
      RemainingAtEnd(a, iter.over, iter.cur);
      return false;
    }
  }

  lemma RankedAt(S: set<Item>, x: Item, r: Ranking<Item>)
    requires x in S && IsRanking(Snap(S), r)
    ensures Acyclic(Snap(S)) && x in r.of && r.of[x] <= r.bound
    ensures x.parent != null ==> x.parent in S && x.parent in r.of && r.of[x] < r.of[x.parent] <= r.bound
  {
  }

  lemma SnapNode(S: set<Item>, x: Item)
    requires x in S
    ensures Snap(S)[x] == x.AsNode()
  {
  }

  lemma ListIsProper(a: Arena<Item>, c: Item, x: Item)
    requires Fits(a, c, x)
    ensures Distinct(a[c].items) && x !in a[c].items && c !in a[c].items
    ensures forall y :: y in a[c].items ==> y in a
  {
    FitsApart(a, c, x);
    if c in a[c].items { ListedIsBelow(a, c, c); }
  }

  lemma OwnIs(f: Measure, n: Node<Item>)
    ensures Own(f, n) == f(n.id, n.count, n.isContainer)
  {
  }

  lemma ChangedIs(a: Arena<Item>, f: Measure, c: Item, x: Item, id: nat, n: nat, d: int)
    requires Sound(a) && c in a && x in a[c].items && x in a
    requires d == f(id, n, a[x].isContainer) - Own(f, a[x])
    ensures Sound(Retype(a, x, id, n)) && Changed(a, f, c, x, id, n) == AddUp(Retype(a, x, id, n), c, d)
  {
    hide Linked, Acyclic, AddUp, Retype;
    RetypeSound(a, x, id, n);
  }

  lemma IsRetype(a: Arena<Item>, b: Arena<Item>, x: Item, id: nat, n: nat)
    requires a.Keys == b.Keys && x in a
    requires forall y :: y in a && y != x ==> b[y] == a[y]
    requires b[x] == a[x].(id := id, count := n)
    ensures b == Retype(a, x, id, n)
  {
  }

  lemma IsUnlink(a: Arena<Item>, b: Arena<Item>, c: Item, x: Item, k: nat)
    requires a.Keys == b.Keys && c in a && x in a && c != x
    requires k < |a[c].items| && a[c].items[k] == x && x !in a[c].items[..k]
    requires forall y :: y in a && y != c && y != x ==> b[y] == a[y]
    requires b[x] == a[x].(parent := None)
    requires b[c] == a[c].(items := a[c].items[..k] + a[c].items[k + 1..])
    ensures b == Unlink(a, c, x)
  {
    assert IndexOf(a[c].items, x) == k;
  }

  lemma IsSwap(a: Arena<Item>, b: Arena<Item>, c: Item, x: Item, y: Item, k: nat)
    requires a.Keys == b.Keys && c in a && x in a && y in a && c != x && c != y && x != y
    requires k < |a[c].items| && a[c].items[k] == x && Distinct(a[c].items)
    requires forall z :: z in a && z != c && z != x && z != y ==> b[z] == a[z]
    requires b[x] == a[x].(parent := None) && b[y] == a[y].(parent := Some(c))
    requires b[c] == a[c].(items := a[c].items[k := y])
    ensures b == Swap(a, c, x, y)
  {
    assert IndexOf(a[c].items, x) == k;
  }

  lemma WeightIsLoad(item: Item, types: ItemTypes, S: set<Item>)
    requires item in S && WellWeighed(Snap(S), WeightOf(types))
    ensures item.Weight(types) == Load(WeightOf(types), Snap(S)[item])
  {
    WeighedIsBalanced(Snap(S), WeightOf(types));
    assert !item.isContainer ==> item.itemlist == [];
  }

  // ---------------------------------------------------------------------------------------
  // ContainerIterator

  /** The iterator stands on an item: number cur of the front container's list. */
  ghost predicate IterValid(a: Arena<Item>, over: seq<Item>, cur: nat) {
    && Sound(a) && Busy(a, over)
    && (over != [] ==> cur < |a[over[0]].items|)
  }

  /** What the iterator has yet to visit, the current item included. */
  ghost function Remaining(a: Arena<Item>, over: seq<Item>, cur: nat): seq<Item>
    requires IterValid(a, over, cur)
  {
    if over == [] then []
    else
      var rest := a[over[0]].items[cur..];
      rest + Walk(a, over[1..] + Holders(a, rest))
  }

  lemma RemainingAtEnd(a: Arena<Item>, over: seq<Item>, cur: nat)
    requires IterValid(a, over, cur)
    ensures over == [] <==> Remaining(a, over, cur) == []
  {
  }

  /** A fresh iterator has the whole level-order walk before it. */
  lemma RemainingAtBegin(a: Arena<Item>, c: Item)
    requires Sound(a) && c in a
    ensures a[c].items != [] ==> Busy(a, [c]) && IterValid(a, [c], 0) && Remaining(a, [c], 0) == Walk(a, [c])
    ensures a[c].items == [] ==> IterValid(a, [], 0) && Remaining(a, [], 0) == []
    ensures var all := if a[c].items != [] then Walk(a, [c]) else [];
            && |all| == Below(a, c, One())
            && forall x :: x in a ==> (x in all <==> x != c && AtOrAbove(a, c, x))
  {
    if a[c].items != [] {
      var q := [c];
      assert Busy(a, q);
      assert a[c].items[0..] == a[c].items;
      assert q[1..] == [];
      assert Total(a, q, One()) == Below(a, c, One());
      WalkLength(a, q);
      WalkIsComplete(a, q);
      forall x | x in a
        ensures Inside(a, q, x) <==> x != c && AtOrAbove(a, c, x)
      {
        assert q[0] == c;
      }
    } else {
      BelowStep(a, c, One());
      forall x | x in a ensures !(x != c && AtOrAbove(a, c, x)) {
        if x != c && AtOrAbove(a, c, x) {
          var y := ChildTowardsR(a, Rank(a), c, x);
        }
      }
    }
  }

  class ContainerIterator {
    var over: seq<Item>
    var cur: nat

    constructor (c: Item, ghost S: set<Item>)
      requires c in S && Sound(Snap(S))
      ensures IterValid(Snap(S), over, cur)
      ensures var all := Remaining(Snap(S), over, cur);
              && |all| == Below(Snap(S), c, One())
              && forall x :: x in S ==> (x in all <==> x != c && AtOrAbove(Snap(S), c, x))
    {
      hide Linked, Acyclic, AtOrAbove, Below, Remaining, IterValid;
      RemainingAtBegin(Snap(S), c);
      over := if c.itemlist != [] then [c] else [];
      cur := 0;
    }

    predicate Done()
      reads this
    {
      over == []
    }

    method Current(ghost S: set<Item>) returns (item: Item)
      requires IterValid(Snap(S), over, cur) && !Done()
      ensures Remaining(Snap(S), over, cur) != [] && item == Remaining(Snap(S), over, cur)[0]
    {
      item := over[0].itemlist[cur];
    }

    method Next(ghost S: set<Item>)
      requires IterValid(Snap(S), over, cur) && !Done()
      modifies this
      ensures IterValid(Snap(S), over, cur)
      ensures old(Remaining(Snap(S), over, cur)) != []
      ensures Remaining(Snap(S), over, cur) == old(Remaining(Snap(S), over, cur))[1..]
    {
      hide Linked, Acyclic, Walk, Remaining, Busy, Holders;
      ghost var a := Snap(S);
      ListIsKnown(a, over);
      assert over[0].itemlist == a[over[0]].items;
      NextIsRest(a, over, cur);
      var i := over[0].itemlist[cur];
      if i.isContainer && i.itemlist != [] {
        over := over + [i];
      }
      cur := cur + 1;
      if cur == |over[0].itemlist| {
        over := over[1..];
        if over == [] {
          return;
        }
        cur := 0;
      }
    }
  }

  /** The state an increment leads to. */
  ghost function NextState(a: Arena<Item>, over: seq<Item>, cur: nat): (seq<Item>, nat)
    requires IterValid(a, over, cur) && over != []
  {
    var i := a[over[0]].items[cur];
    var over' := if i in a && a[i].items != [] then over + [i] else over;
    if cur + 1 < |a[over[0]].items| then (over', cur + 1)
    else if |over'| == 1 then ([], cur + 1) else (over'[1..], 0)
  }

  lemma NextIsRest(a: Arena<Item>, over: seq<Item>, cur: nat)
    requires IterValid(a, over, cur) && over != []
    ensures var (o, k) := NextState(a, over, cur);
            && IterValid(a, o, k)
            && Remaining(a, over, cur) != []
            && Remaining(a, o, k) == Remaining(a, over, cur)[1..]
  {
    hide Linked, Acyclic, Walk, Remaining, Busy, Holders;
    ListIsKnown(a, over);
    var rest, i := a[over[0]].items[cur..], a[over[0]].items[cur];
    var over' := if a[i].items != [] then over + [i] else over;
    HoldersSplit(a, rest, i);
    PushedBusy(a, over, i);
    var tail := rest[1..];
    assert tail == a[over[0]].items[cur + 1..];
    assert over'[1..] + Holders(a, tail) == over[1..] + Holders(a, rest);
    RemainingIs(a, over, cur, rest);
    if cur + 1 < |a[over[0]].items| {
      RemainingIs(a, over', cur + 1, tail);
    } else {
      NoHolders(a);
      assert over'[1..] + [] == over'[1..];
      RemainingAfter(a, over'[1..], cur + 1);
    }
  }

  lemma ListIsKnown(a: Arena<Item>, over: seq<Item>)
    requires Sound(a) && Busy(a, over) && over != []
    ensures over[0] in a && forall x :: x in a[over[0]].items ==> x in a && (a[x].items != [] ==> a[x].isContainer)
  {
  }

  lemma HoldersSplit(a: Arena<Item>, rest: seq<Item>, i: Item)
    requires rest != [] && rest[0] == i && forall x :: x in rest ==> x in a
    ensures Holders(a, rest) == (if a[i].items != [] then [i] else []) + Holders(a, rest[1..])
  {
  }

  lemma PushedBusy(a: Arena<Item>, over: seq<Item>, i: Item)
    requires Sound(a) && Busy(a, over) && over != [] && i in a[over[0]].items
    ensures i in a
    ensures Busy(a, if a[i].items != [] then over + [i] else over)
    ensures Busy(a, (if a[i].items != [] then over + [i] else over)[1..])
  {
  }

  lemma RemainingIs(a: Arena<Item>, over: seq<Item>, cur: nat, rest: seq<Item>)
    requires IterValid(a, over, cur) && over != [] && rest == a[over[0]].items[cur..]
    ensures forall x :: x in rest ==> x in a
    ensures Busy(a, over[1..] + Holders(a, rest))
    ensures Remaining(a, over, cur) == rest + Walk(a, over[1..] + Holders(a, rest))
  {
    hide Acyclic, Walk, Holders;
  }

  /** At the end of a list the walk goes on with the queue. */
  lemma RemainingAfter(a: Arena<Item>, o: seq<Item>, cur: nat)
    requires Sound(a) && Busy(a, o)
    ensures IterValid(a, o, 0) && IterValid(a, [], cur)
    ensures Walk(a, o) == if o == [] then Remaining(a, [], cur) else Remaining(a, o, 0)
  {
    WalkStep(a, o);
    if o != [] {
      assert a[o[0]].items[0..] == a[o[0]].items;
    }
  }
}
