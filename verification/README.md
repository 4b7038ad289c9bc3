# Verification of the game server's data structures and protocols

This project models parts of the server in Dafny and proves what they are relied on for. All
line numbers refer to the repository's own files; `dafny verify dfyconfig.toml` checks everything.

**Node files** (`Bits`, `NodeFormat`, `NodeRoundTrip`, `FileLoader`, `NodeFile`). The writer emits a
tree of nodes with START, END and ESCAPE bytes; the parser rebuilds a first-child/next-sibling tree of
objects, and property bytes are unescaped in place on demand. Reading goes straight to the file or
through three cached blocks. `NodeFormat` says what the parser makes of any byte string; `NodeRoundTrip`
proves exactly which trees come back. The type byte is written through the escaper and read raw, so a
type of 0xFE or 0xFF is always lost and a type of 0xFD survives only in front of certain properties.
`FileLoader` has the program itself; every reading operation has one contract for both branches.

**Items, containers, moves and money** (`Forest`, `LevelOrder`, `Search`, `Containers`, `Transfers`,
`Game`). `Forest` is the theory of a container forest as a value: lists, parent links, cached weights,
and what each edit does to them. `Containers` has the item objects; `Snap(S)` is the forest they
form, and every operation is proved to change it as the function of the same meaning in `Forest` does.
`Game` moves, adds and removes items. Its laws are stated for every additive measure at once: units of
any type, the worth of coins, and so on, in every container at every level.

**Stored items** (`Streams`, `ItemAttributes`, `MapStore`, `MapLoad`, `PlayerStore`). House items go into a
binary format that nests, player items into rows (pid, sid) written breadth first. Both push items to the front
of a list when loading and rely on that reversing the order back; the weights that are passed upwards meanwhile
end up right.

**The walk cache** (`WalkCache`), a 23 by 23 window that is shifted in place when the creature steps, and
refreshed for those changes that the handlers take for important.

**Closing a connection** (`Connection`): close requests, completions and the release of the object, as
a state machine over all interleavings, and the handlers that implement it.

**Schedules and arithmetic** (`DamageList`, `DecayWheel`, `Speed`, `Trade`, `SpellArea`).

Some properties that one would expect turned out not to hold as such. The code is modelled as it is, and
what holds is proved with its exact condition:

- a node tree survives writing and reading if and only if it is codable (`NodeRoundTrip.RoundTrip`), and its
  properties are cut unless they are shorter than 65536 bytes (`NodeFormat.SizedIsSame`, `NodeFile.SaveThenOpen`);
- properties are read exactly if one growth step of the buffer is enough for them (`FileLoader.Loader.GetProps`),
  and cached reading ends exactly if the bytes are in the file (`FileLoader.Loader.ReadBytes`);
- a stored house item loads if and only if there is no depot in it (`MapStore.ItemRoundTrip`), and comes
  back unchanged if and only if its attributes fit their fields (`MapStore.SettledExact`);
- the count of a player's item comes back if and only if `MapStore.CountComesBack` holds of it, a byte for a
  stack and 1 for what does not stack (`PlayerStore.MadeIsSame`), that of a house item if and only if
  `MapStore.CountsBack` does (`MapLoad.LoadedStands`);
- what else the getters of an item answer comes back if and only if `MapStore.GettersComeBack` holds: an action id
  below 100 comes back as 100, a duration of 0 as that of the type, decay as pending (`MapStore.GettersAre`);
- that is with setters that keep what they are given. Those of the server change an attribute only if it is there
  already, and no item ever has one (`ItemAttributes.Run`);
- an accepted connection is deleted in the end, unless one of its reads is aborted before anybody has asked for
  its closing: nothing is under way then, and nobody closes it (`Connection.NothingLeaks`,
  `Connection.AbortLeaks`);
- the shift of the walk cache is right on one floor, for every ground, if and only if the step leads to a
  neighbouring tile (`WalkCache.ShiftIsRight`; no caller makes a longer move on one floor without a teleport,
  Source/game.cpp:963-972 and Source/beds.cpp:181, so this is a limit of the code and no failure of it);
- the walk cache falls behind with the items and the monsters that its handlers let pass: it is right along
  a run as long as every change that was not refreshed was out of sight or made no difference, and wrong with
  the first that did (`WalkCache.Creature.Run`). The filter for removed items is right exactly for items that are
  no stairs, no teleport and no magic field (`WalkCache.RemovalFilter`), that for updated items exactly for those
  that stay as they are in this respect (`WalkCache.UpdateFilter`). A monster that starts or stops to burn changes
  what it may enter without any handler being told, on exactly the fields that this decides on
  (`WalkCache.ConditionSpoils`). Of two stairs, teleports or fields on a tile, the flags forget both when one is
  taken away (`WalkCache.PutAndTaken`);
- the copies of a spell area for the other diagonals are its reflections if and only if it is square or has
  no cell (`SpellArea.SetupExtArea`);
- an item that outlasts a turn of the decay wheel and needs more than 15.5 seconds of its last turn loses
  these seconds (`DecayWheel.NeverLate`);
- a trade that is completed lacks an offer, and the completion then dereferences null, if and only if one of the
  two players accepted before having made an offer (`Trade.Trades.AcceptTrade`, over every run `Trade.Run`;
  `Trade.HastyTrade` gets there in three steps).

A damage list adds up to more than its amount exactly if there is no room for one hit of every size;
the sum is then 1 + 2 + ... + start.

## Model

| member | source | states |
|---|---|---|
| Bits.SplitByMask | Source/fileloader.cpp:438-502 | `a & ~b` and `a & b` split a number in two, for every mask, power of two or not |
| Bits.BitByBit | Source/fileloader.cpp:438-502 | `a & ~b` and `a & b` bit by bit: set in a and not in b, set in both |
| FileLoader.BlockHolds | Source/fileloader.cpp:396-455 | every position lies inside the cache block that serves it, for every cache size, 24576 included |
| FileLoader.CacheSizePositive | Source/fileloader.cpp:64-70 | openFile never picks an empty cache block |
| FileLoader.CacheSizeIs | Source/fileloader.cpp:64-70 | the block size is a twentieth of the file in whole steps of 8192 bytes, one at least and four at most |
| NodeFormat.UnescapeEscape | Source/fileloader.h:149-169 | unescaping undoes escaping, for all bytes |
| NodeFormat.ParseListStops | Source/fileloader.cpp:96-175 | parsing a list ends at the end of the file or on the END byte its parent still needs |
| NodeFormat.ParsedIsReadable | Source/fileloader.cpp:96-213 | whatever the file holds, after a successful parse every node's property bytes lie in it and end on a complete escape |
| NodeFormat.TruncatedFails | Source/fileloader.cpp:96-175 | a file that parses as one node with everything in it does not parse any more when any number of bytes is missing at its end |
| NodeRoundTrip.RoundTrip | Source/fileloader.cpp:96-249 | a written forest, types, properties, children and siblings, is seen again by a client if and only if every node is codable; the parser then consumes the file |
| NodeRoundTrip.OrdinaryTypesRoundTrip | Source/fileloader.cpp:96-249 | with all types below 0xFD every forest comes back, whatever the property bytes |
| NodeRoundTrip.EmitParses | Source/fileloader.cpp:96-175 | a codable forest parses to itself at any place of any file, and parsing stops where it ends |
| NodeRoundTrip.EmitMisparses | Source/fileloader.cpp:96-175 | a forest with a node that is not codable is never what a client sees |
| NodeRoundTrip.UnanchoredBody | Source/fileloader.h:149-169 | why: the shifted pairing of escapes leads over bytes that cannot be the properties |
| NodeRoundTrip.MarkerTypeIsLost | Source/fileloader.cpp:238-243 | a node of type 0xFE does not parse |
| FileLoader.Loader.LoadCacheBlock | Source/fileloader.cpp:457-502 | takes the first free block, else the first one that is more than two blocks away, else block 0, leaves the others alone and every loaded block faithful to the file; fails only behind the end of the file |
| FileLoader.Loader.GetCacheBlock | Source/fileloader.cpp:438-455 | finds a block that serves the position or reports that there is none |
| FileLoader.Loader.ReadByte | Source/fileloader.cpp:279-311 | cached and uncached, reads the file's byte at the current position, across block boundaries |
| FileLoader.Loader.ReadBytes | Source/fileloader.cpp:313-356 | from a position in the file: uncached reads all or fails; cached copies the file's bytes, and gets stuck exactly if they run past the end of the file |
| FileLoader.Loader.SafeSeek | Source/fileloader.cpp:396-414 | cached and uncached, the next byte comes from the given position |
| FileLoader.Loader.SafeTell | Source/fileloader.cpp:416-436 | cached and uncached, tells the position before the next byte |
| FileLoader.Loader.Run | Source/fileloader.cpp:279-502 | any sequence of seeks, tells and reads gives the replies of plain file access |
| FileLoader.Loader.ParseOne | Source/fileloader.cpp:96-175 | one round of the parser's outer loop: one node with its children, as NodeFormat has it |
| FileLoader.Loader.ParseNode | Source/fileloader.cpp:96-175 | the objects built hold exactly the records of the parse, linked as a tree of distinct new nodes, no two of them at the same start |
| FileLoader.Loader.GetProps | Source/fileloader.cpp:177-213 | leaves the unescaped property bytes at the front of the buffer and returns how many there are; one growth step is enough exactly if there are at most 1024 bytes more than the buffer holds |
| FileLoader.Loader.UnescapeBuffer | Source/fileloader.cpp:191-208 | the in-place displacement is unescaping |
| FileLoader.Loader.OpenFile | Source/fileloader.cpp:41-94 | opens exactly the files with version 0 and a parsable forest, with the cache or without |
| FileLoader.Loader.WriteData | Source/fileloader.h:149-169 | appends the bytes, escaped on demand |
| FileLoader.Loader.WriteNodes | Source/fileloader.cpp:228-249 | startNode, setProps and endNode along a forest append its emitted bytes, every node's properties cut to their size modulo 65536 |
| NodeFormat.SizedIsSame | Source/fileloader.cpp:228-236 | the 16-bit size of setProps loses nothing exactly if all properties are shorter than 65536 bytes |
| NodeFile.SaveThenOpen | Source/fileloader.cpp:41-249 | what was written and opened, cached or not, is a tree of distinct objects that shows the forest, properties cut to 16-bit sizes, if and only if that is codable; it is the forest itself if and only if all properties are short |
| Forest.AddUpBalances | Source/container.cpp:129-135 | if one list is off by d, adding d there and in every container above puts all cached weights right |
| Forest.AddUpStep | Source/container.cpp:129-135 | the recursion of updateItemWeight: add here, then go on from the parent |
| Forest.LinkSound | Source/container.cpp:250-295 | an item that passed the cycle check can be added: links stay consistent and free of cycles |
| Forest.AddedKeepsWeights | Source/container.cpp:422-463 | after adding, every cached weight at every level is the recursive sum of the contents |
| Forest.RemovedKeepsWeights | Source/container.cpp:555-614 | the same after taking an item out |
| Forest.ChangedKeepsWeights | Source/container.cpp:465-503 | the same after changing type or count |
| Forest.ReplacedKeepsWeights | Source/container.cpp:505-553 | the same after replacing an item |
| Forest.BelowEdit | Source/container.cpp:129-140 | an edit that adds d to one list adds d below it and everything above it, and nowhere else |
| Forest.AddedShifts | Source/container.cpp:422-463 | adding an item adds what it is and holds to its container and all above, under every measure |
| Forest.RemovedShifts | Source/container.cpp:555-614 | taking it out takes the same away |
| Containers.Item.UpdateItemWeight | Source/container.cpp:129-135 | adds the difference to this container and everything above it, and terminates |
| Containers.Item.AddThing | Source/container.cpp:422-463 | the item becomes first of the list, nothing happens beyond the capacity; weights right at every level: this container and all above it become heavier by count times the unit for a stack, by the item and its contents otherwise |
| Containers.Item.InternalAddThing | Source/container.cpp:750-781 | the same without the capacity check |
| Containers.Item.UpdateThing | Source/container.cpp:465-503 | type and count of a listed item change, weights stay right: m units more or less make it and all above m times the unit heavier or lighter; an unlisted item changes nothing |
| Containers.Item.RemoveThing | Source/container.cpp:555-614 | part of a stack or the whole item goes, weights stay right: n units make the container and all above it n times the unit lighter, a whole item its own weight and that of its contents |
| Containers.Item.ReplaceThing | Source/container.cpp:505-553 | the item takes the place of the one at the index, weights stay right: the container and all above it become heavier by the difference |
| Containers.Item.WeightIs | Source/item.cpp:549-556 | a stack weighs its unit as often as it has units, any other item its type's weight and its contents |
| Containers.Item.GetIndexOfThing | Source/container.cpp:616-628 | the first position of the item, or -1 exactly if it is not listed |
| Containers.Item.QueryAdd | Source/container.cpp:250-295 | refuses exactly the items that are or hold this container (and unpickable ones, and full containers) |
| Containers.Item.QueryMaxCount | Source/container.cpp:297-342 | the largest number of units that can be laid in with no stack above 100 and no list above the capacity, or of items in the free slots; without a limit all of it; no error exactly if all of it fits |
| Containers.Item.RoomIs | Source/container.cpp:297-342 | m units can be laid in, some onto the stack at the index and the others into free slots, if and only if m is no more than the room computed |
| Containers.Item.QueryRemove | Source/container.cpp:344-366 | no error exactly if the item is listed, the count is right and it may be moved; not moveable and impossible told apart |
| Containers.Item.QueryDestination | Source/container.cpp:368-415 | 254 leads to the parent, or stays here if there is none; 255, no index and one beyond the capacity stay here, anywhere; an index with nothing at it stays here; any other index leads into the container lying there, or to the item lying there |
| LevelOrder.WalkIsComplete | Source/container.cpp:887-909 | the level-order walk visits exactly what is nested inside, and nothing twice |
| LevelOrder.WalkByLevel | Source/container.cpp:887-909 | it visits shallower items before deeper ones |
| LevelOrder.WalkSum | Source/container.cpp:887-909 | any measure summed along the walk is its recursive sum |
| Containers.NextIsRest | Source/container.cpp:887-909 | incrementing the iterator drops exactly the current item from what is still to come |
| Containers.RemainingAtBegin | Source/container.cpp:790-798 | a fresh iterator has all nested items before it, as many as the recursive count |
| Containers.ContainerIterator.Next | Source/container.cpp:887-909 | the queue and cursor updates do that |
| Containers.Item.GetItemHoldingCount | Source/container.cpp:156-165 | the number of items nested at any depth |
| Containers.Item.IsHoldingItem | Source/container.cpp:167-176 | true exactly for the items nested at any depth |
| Transfers.StackOver | Source/game.cpp:1257-1295 | n units gone here and come there are a transfer, under every additive measure |
| Transfers.WholeOver | Source/game.cpp:1257-1295 | an item taken out fits the other container and carries everything in it along |
| Game.Game.InternalMoveItem | Source/game.cpp:1168-1330 | the destination is the container named unless the index is 254 or leads to a container lying there; something moves exactly if the item may be added there, is listed at the source, may be taken away, and at least one unit fits; then the largest amount asked for that fits goes over, first onto the stack at the place, the rest as a new stack in front, or the whole item with its contents; ids, counts, lists and weights of everything else stay, and weights go over with it; if there was no room for all, the list is full afterwards and the stack at the place holds 100 or is of another type; capacities are kept without the no-limit flag, which counts for the container named only |
| Game.Game.FindDestination | Source/game.cpp:1180-1192 | ends where the first query leads: a second one stays there, so there is one hop at most and the bound of 16 is out of reach; the flags hold for the container named by the caller only |
| Game.Game.CheckMove | Source/game.cpp:1180-1261 | passes exactly for another item that may be added at the place (no cycle), is listed at the source, may be taken away, and fits in part at least; the amount is what was asked for, cut to what fits |
| Game.Game.CheckAmount | Source/game.cpp:1234-1261 | its second half: free slots count 100, the like stack at the index its rest; an error if not all fits |
| Game.Game.MayMoveIs | Source/game.cpp:1194-1261 | the checks in units: at least one fits, and no more is asked for than there is, unless no more fits |
| Game.UnitsConserved | Source/game.cpp:1168-1330 | a container that holds source and destination, or neither, keeps its units of every type |
| Game.UnitsAcross | Source/game.cpp:1168-1330 | source and destination side by side keep their units of every type together |
| Game.Game.InternalAddItem | Source/game.cpp:1332-1405 | the destination as for a move; no error exactly if the item may be added there and all of it can be laid in; then the stack at the place is filled up and the rest, or the item itself, becomes first of the list, and the destination and all above it grow heavier by just that; otherwise, or in a test, nothing changes |
| Game.Game.InternalRemoveItem | Source/game.cpp:1407-1446 | succeeds exactly for a listed item and a right count, and takes just that out |
| Game.NestedLaw | Source/game.cpp:1587-1636 | the breadth-first search for money sees every nested item once; coins found add up to the recursive worth |
| Game.Game.GetMoney | Source/game.cpp:1587-1636 | the worth of all coins nested in the container |
| Game.Game.FindCoins | Source/game.cpp:1638-1690 | the coin stacks nested in the container, each once, cheapest first, worth what getMoney says |
| Game.Game.InsertCoin | Source/game.cpp:1650-1690 | multimap::insert keeps the order, behind equal keys |
| Game.PayOne | Source/game.cpp:1698-1702 | taking one stack settles its worth in every container above it and leaves the others payable |
| Game.Game.RemoveMoney | Source/game.cpp:1638-1718 | true exactly if there is enough; then the coin stacks that go are the shortest prefix of the list, cheapest first, that suffices; the rest of the last one comes back as coins, each stack kept or dropped as addMoney says; all other coin stacks are where they were; otherwise nothing changes |
| Game.Game.AddMoney | Source/game.cpp:1720-1754 | hands out exactly the stacks of CoinStacks: crystals, then platinum, then gold; one goes into the container exactly if its type may, there is room left after those before it or no limit, and the owner agrees, and to the ground otherwise; nothing else moves |
| Game.Game.AddCoins | Source/game.cpp:1727-1734 | one stack: into the container exactly if that may hold the type, has room or no limit, and its owner agrees; onto the ground otherwise |
| Game.CoinStacksProper | Source/game.cpp:1720-1754 | every stack is of one kind of coin and holds 1 to 100 |
| Game.CoinStacksWorth | Source/game.cpp:1720-1754 | together they are worth exactly the money |
| Game.CoinStacksFall | Source/game.cpp:1720-1754 | the more valuable coins come first, and of one kind only the last stack may hold less than 100 |
| Game.NoFewerStacks | Source/game.cpp:1720-1754 | no other pile of coin stacks of that worth has fewer of them |
| Game.ChangeOfOne | Source/game.cpp:1693-1712 | all stacks taken but the last are spent whole: the change is less than that one is worth |
| Game.MoneyBalances | Source/game.cpp:1638-1754 | the container and all that holds it lose exactly the money, but for the change dropped on the ground |
| Streams.ValOfLe | Source/fileloader.h:370-378 | a number written with w bytes is read back modulo 256^w |
| Streams.StringRoundTrip | Source/fileloader.h:294-313 | a string is read back cut to its length modulo 65536 |
| Streams.PropWriteStream.AddBytes | Source/fileloader.h:500-509 | appends the bytes and keeps what is there, growing the buffer when needed |
| Streams.PropWriteStream.AddString | Source/fileloader.h:469-482 | appends a 16-bit length and so many bytes |
| Streams.PropStream.GetValue | Source/fileloader.h:370-378 | reads w bytes exactly if they are there, and does not move otherwise |
| Streams.PropStream.GetString | Source/fileloader.h:294-313 | reads a string exactly if all of it is there |
| ItemAttributes.Attributes.SetIntAttr | Source/ItemAttributes.cpp:79-87 | the getter answers the value afterwards exactly if there is such an attribute already, or the value is 0; no other getter changes |
| ItemAttributes.Attributes.SetStrAttr | Source/ItemAttributes.cpp:47-63 | the same for texts, and only if the attribute is flagged |
| ItemAttributes.Attributes.RemoveAttribute | Source/ItemAttributes.cpp:66-76 | a flagged attribute goes and its getter answers 0 or the empty text; no other getter changes |
| ItemAttributes.Run | Source/ItemAttributes.cpp:47-98 | whatever setters are called on a new item, all its getters answer 0 or the empty text |
| MapStore.AttrsRoundTrip | Source/item.cpp:391-464 | written attributes are read one by one, each as its setter gets it, up to what follows |
| MapStore.ReadBoxEnd | Source/container.cpp:74-91 | the container tag ends attribute reading early in a container and fails it in a depot |
| MapStore.ItemRoundTrip | Source/iomapserialize.cpp:457-525 | what saveItem wrote loads as the same types, nesting and order at every depth, consuming exactly those bytes; it fails exactly if a depot is inside |
| MapStore.SettledExact | Source/item.cpp:219-464 | an item comes back unchanged exactly if every attribute fits its field, at every depth |
| MapStore.SettledIsExact | Source/item.cpp:219-464 | what has been stored and loaded once loses nothing any more |
| MapStore.LetterBytes | Source/iomapserialize.cpp:633-653 | a letter that says Hi is stored as eight bytes, one by one |
| MapStore.SerializeAttr | Source/item.cpp:411-464 | appends the bytes of exactly the attributes that type and getters call for: counts, charges, action id of what moves, texts that are not empty, duration, decay state |
| MapStore.SaveItem | Source/iomapserialize.cpp:633-653 | appends the bytes of the item, children last one first |
| MapStore.UnserializeAttr | Source/item.cpp:391-404 | reads attributes until a zero byte, the container tag, a failure or the end |
| MapStore.LoadAttr | Source/item.cpp:219-389 | one attribute of any tag: how many bytes it takes, and what its setter is given |
| MapStore.CountAfter | Source/item.cpp:206-464 | the count that the written attributes set: that of a stack modulo 256, none otherwise |
| MapStore.CountBack | Source/item.cpp:85-242 | the count of an item made for its subtype and set by its attributes is the old one if and only if it is 1 for fluids and what does not stack, that of its charges for charged stacks, and below 256 for the others |
| MapStore.GettersAre | Source/item.cpp:206-464 | what every getter answers of an item that is made and read from what was written of another: fluid, charges, action id, the three texts, duration, decay state |
| MapStore.GettersBack | Source/item.cpp:206-464 | all getters answer as before if and only if: texts are shorter than 65536 bytes; the action id is 0, or 100 to 65535 on what moves; the duration is below 2^31, and not 0 where the type decays; decay is off or pending; fluid type and charges fit a byte, or are those of the type |
| MapLoad.LoadItem | Source/iomapserialize.cpp:482-516 | for any bytes, builds new objects that stand for what the format says, type, count, form, nesting and order; every cached weight is right; a type that does not exist is skipped |
| MapLoad.LoadInto | Source/iomapserialize.cpp:504-516 | the loaded item goes to the front of its parent, which still has right weights |
| MapLoad.LoadContainer | Source/iomapserialize.cpp:457-480 | loads the announced number of items, each to the front of the list, and ends on a zero byte or the end of the data |
| MapLoad.FillOne | Source/container.cpp:750-781 | a forest loaded on its own fits the container, and adding it keeps what both stand for and all weights |
| MapLoad.SameWeight | Source/container.cpp:750-781 | two forests that hold the same item weigh the same, container by container |
| MapLoad.LoadedStands | Source/iomapserialize.cpp:457-525 | what has been stored and loaded holds the item that was stored, types, counts, nesting and order, if and only if stacks are below 256 and what does not stack counts 1 |
| MapLoad.SaveThenLoad | Source/iomapserialize.cpp:457-653 | both together: loaded unless there is a depot inside; the loaded objects hold the stored item if and only if its counts come back, with right weights, the same as before then; every item's attributes bring back all its getters if and only if GettersComeBack holds of them |
| PlayerStore.SaveItems | Source/ioplayer.cpp:373-442 | one row for every nested item, breadth first, with its subtype and its attributes; numbers from 101; each list is the rows naming its owner, in order |
| PlayerStore.HangsThere | Source/ioplayer.cpp:279-291 | the next item by descending number fits its parent and goes in front of its later siblings |
| PlayerStore.LoadItems | Source/ioplayer.cpp:951-975 | a loose new item for every row of a known type, under its number, with the attributes of its row and the count they set |
| PlayerStore.CarriedIsRead | Source/ioplayer.cpp:951-975 | count and attribute column of a saved item hold its subtype and its attributes, and are read as those, as far as they survive |
| PlayerStore.MadeIsSame | Source/ioplayer.cpp:951-975 | the item made of a saved row has the count that was saved if and only if that is one that comes back |
| PlayerStore.HangUp | Source/ioplayer.cpp:275-292 | every container ends up with its rows' items in ascending order, all weights right; a slot in range has the item of its row, that with the largest number if there are several |
| PlayerStore.SameForest | Source/ioplayer.cpp:266-335 | saved rows hang up to the forest they were saved from, if its items are what their types make them and their counts come back: items, nesting, sibling order |
| PlayerStore.SameWeights | Source/container.cpp:750-781 | forests that are alike have the same cached weight in every container |
| PlayerStore.SlotsBack | Source/ioplayer.cpp:279-323 | every slot (1..10) or depot (0..99) gets its own item's copy, and no other place is filled |
| PlayerStore.SaveThenLoad | Source/ioplayer.cpp:266-442 | all of it end to end, for inventories and depots, under the same conditions: forest, weights, slots and attributes come back; every item's attributes bring back all its getters if and only if GettersComeBack holds of them |
| WalkCache.StepShows | Source/creature.cpp:587-685 | after a step in any of the eight directions every cell but the creature's own shows the ground |
| WalkCache.LongStepFails | Source/creature.cpp:587-685 | for any longer move there is a ground on which the shifted window is wrong |
| WalkCache.ShiftIsRight | Source/creature.cpp:587-685 | so the shift is right exactly for single steps |
| WalkCache.Creature.UpdateMapCache | Source/creature.cpp:335-349 | the rebuilt window shows the ground everywhere |
| WalkCache.Creature.UpdateTileCache | Source/creature.cpp:363-389 | refreshes the one cell of a place on the creature's floor, if it is in the window |
| WalkCache.Creature.GetWalkCache | Source/creature.cpp:391-437 | with a current cache the answer for a place in range is never wrong |
| WalkCache.Creature.StepWindow | Source/creature.cpp:595-677 | the in-place row and column shifts and edge refreshes make the window of the specification |
| WalkCache.Creature.ShiftWest | Source/creature.cpp:628-643 | rows starty to endy move one cell west, the others stay |
| WalkCache.Creature.OnMove | Source/creature.cpp:539-680 | the creature's own moves, teleports and floor changes keep the cache current |
| WalkCache.Creature.OnOtherMove | Source/creature.cpp:683-694 | another creature's move keeps it current |
| WalkCache.Creature.OnTile | Source/creature.cpp:439-446 | a change of a tile that is refreshed keeps the cache current; its cell is refreshed and no other |
| WalkCache.Creature.OnUpdateTileItem | Source/creature.cpp:448-463 | its cell is refreshed exactly if a type blocks, and no other; so the cache is current afterwards if and only if a type blocks, or the place is out of sight, or it can be entered as before |
| WalkCache.Creature.OnRemoveTileItem | Source/creature.cpp:465-474 | the same after a removed item, if it blocks or is ground |
| WalkCache.Creature.OnSelfChange | Source/tile.cpp:504-523 | after a change of the monster itself it is current if and only if nothing in sight changed for it |
| WalkCache.HarmlessForAll | Source/creature.cpp:439-508 | which events keep the cache right whatever the ground, as the event and the position tell; any other does harm on some ground |
| WalkCache.QueryAdd | Source/tile.cpp:455-523 | a monster may enter exactly where MayEnter says so; which tiles it never enters, and which answer it gets |
| WalkCache.RemovalFilter | Source/tile.cpp:1332-1381 | what a monster may enter is untouched by the removals that are let pass, for all tiles, exactly if the item is no stairs, no teleport and no field |
| WalkCache.UpdateFilter | Source/creature.cpp:448-463 | the same for updates: right for all tiles and monsters exactly if the change is let through, or the item keeps monsters out before and after, or at neither time and does the same damage |
| WalkCache.PutAndTaken | Source/tile.cpp:1332-1381 | putting an item on a tile and taking it away leaves the tile's flags as they were, exactly if it is no second ground, stairs, teleport or field |
| WalkCache.ConditionOpensField | Source/tile.cpp:504-523 | a field stops a monster or not as it burns or not; both answers occur |
| WalkCache.ConditionSpoils | Source/tile.cpp:504-523 | when a monster starts or stops to burn, exactly those cells go wrong on whose tiles that decides: a field of that kind that is no solid block, and nothing else in the way |
| WalkCache.Creature.Run | Source/creature.cpp:439-694 | along every run the cache is right as long as no change that was not refreshed was in sight and made a difference, and wrong with the first that did |
| Connection.StepKeeps | Source/connection.cpp:84-400 | every step keeps the invariant: at most one read and one write pending, tasks and release counted right |
| Connection.DecidedWhenIdle | Source/connection.cpp:130-173 | the release is decided on exactly when a closing connection, its socket closed, has nothing pending any more |
| Connection.ReleasedOnce | Source/connection.cpp:130-184 | over every interleaving it is decided on once or not at all |
| Connection.NothingComesBack | Source/connection.cpp:130-192 | after that no completion and no close task can fire |
| Connection.DeletedOnce | Source/connection.cpp:175-192 | the object is deleted at most once, and then nothing happens any more |
| Connection.ClosingEnds | Source/connection.cpp:130-173 | once closing, at most two completions follow, and the release comes with exactly the last one pending |
| Connection.HeaderDecides | Source/connection.cpp:202-225 | a good header is followed by the read of its packet; an error that is no abort, or a bad size, begins the closing, and nothing else does |
| Connection.PacketDecides | Source/connection.cpp:227-275 | a packet that its protocol takes is followed by the read of a header; an error that is no abort, an unknown protocol or the protocol itself begins the closing, and nothing else does |
| Connection.WriteDecides | Source/connection.cpp:355-400 | a write error that is no abort begins the closing, and nothing else does |
| Connection.SendDecides | Source/connection.cpp:298-340 | a write is under way after a send exactly if one was, or the connection is neither closing nor broken |
| Connection.NothingLeaks | Source/connection.cpp:84-400 | over every run, when nothing is under way any more an accepted connection is deleted if and only if its closing has begun; so it is, unless one of its reads was aborted |
| Connection.AbortLeaks | Source/connection.cpp:277-283 | a read that is aborted before any close request leaves the connection behind |
| Connection.ProtocolReleased | Source/connection.cpp:101-128 | a protocol the connection ever had is released exactly once, by the time it is closing |
| Connection.RefsCounted | Source/connection.cpp:175-192 | the reference count is references taken less those given back, over every run |
| Connection.WholeLife | Source/connection.cpp:84-400 | over every run, from a new connection or any state of the invariant that is not released: one decision at most, exactly when closing with nothing pending, one deletion at most, and its protocol is released at most once |
| Connection.Connection.CloseConnection | Source/connection.cpp:84-99 | requests the closing once; the lock is as before |
| Connection.Connection.CloseConnectionTask | Source/connection.cpp:101-128 | the specified step; the lock is released once |
| Connection.Connection.ClosingConnection | Source/connection.cpp:130-173 | releases the lock exactly if it returns true |
| Connection.Connection.ReleaseConnection | Source/connection.cpp:175-192 | reschedules itself while references remain, and deletes otherwise |
| Connection.Connection.ParseHeader | Source/connection.cpp:202-225 | the specified step on every path, closing begun exactly after an error that is no abort or a bad size; the lock is released once |
| Connection.Connection.ParsePacket | Source/connection.cpp:227-275 | the same, protocol callbacks under the lock included; closing begun exactly after an error that is no abort, an unknown protocol or a callback that closes |
| Connection.Connection.SendMessage | Source/connection.cpp:298-340 | starts exactly one write if none is pending; false exactly if closing or broken |
| Connection.Connection.OnWriteOperation | Source/connection.cpp:355-400 | the specified step on every path, closing begun exactly after an error that is no abort; the lock is released once |
| Connection.Connection.Step | Source/connection.cpp:84-400 | the handlers refine the state machine and keep its invariant |
| DamageList.CloserIs | Source/condition.cpp:1384-1389 | the relative-distance test holds exactly while the sum lacks more than half a hit |
| DamageList.NextHit | Source/condition.cpp:1371-1391 | a further hit of a size is dealt only if all smaller sizes still fit |
| DamageList.GenerateDamageList | Source/condition.cpp:1371-1391 | terminates; falling hits with every size from start to 1, a size again exactly while the sum lacks more than half a hit of its share of the amount, so there is one such list only; the sum is the larger of the amount and 1 + ... + start, so exact exactly if there is room for all sizes |
| DamageList.RoomForAll | Source/condition.cpp:1371-1391 | there is room whenever the amount is at least start * start |
| DamageList.ConditionDamage.AddDamage | Source/condition.cpp:1103-1131 | appends the rounds and lengthens the condition by their time |
| DamageList.ConditionDamage.Init | Source/condition.cpp:1133-1162 | the hits are those of the list, in its order, and deal the drawn amount in all; the condition lasts one interval for each |
| DecayWheel.MoreIs | Source/game.cpp:4130-4174 | d = 16000k + r decays at tick 16k + ((r + 500) / 1000 mod 16) |
| DecayWheel.DueAtFirst | Source/game.cpp:4325-4345 | an item's first bucket makes it due at its tick |
| DecayWheel.LookIsOnTime | Source/game.cpp:4137-4170 | a look decays exactly the items that are due and brings the others one tick nearer |
| DecayWheel.NeverLate | Source/game.cpp:4130-4174 | never more than one interval late; more than 500 ms early exactly if d >= 16000 and d mod 16000 >= 15500 |
| DecayWheel.Wheel.StartDecay | Source/game.cpp:4093-4111 | schedules an item once; one without duration decays at once |
| DecayWheel.Wheel.Cleanup | Source/game.cpp:4325-4345 | every waiting item goes into its bucket, nothing else moves |
| DecayWheel.Wheel.Look | Source/game.cpp:4137-4170 | one item: stays, changes bucket, decays or is dropped, as its fate says |
| DecayWheel.Wheel.CheckDecay | Source/game.cpp:4130-4174 | decays exactly the items due; the others are one tick nearer; each scheduled item is in one list, once |
| DecayWheel.Wheel.RunUntilDecayed | Source/game.cpp:4130-4174 | whatever else is on the wheel, an item decays in exactly that call of checkDecay, counted from the one that places it, which its duration says |
| Speed.DeltasErase | Source/condition.cpp:1533-1536 | ending a condition takes its own delta out of the sum |
| Speed.Creature.End | Source/condition.cpp:1533-1536 | speed and list stay in step when a condition ends: haste and paralysis take their delta with them |
| Speed.Creature.Merge | Source/condition.cpp:1538-1570 | a merged condition takes over time and delta, and the speed changes by the difference of the deltas, unless the old one is endless and the new one is not |
| Speed.Creature.AddCondition | Source/creature.cpp:1268-1290 | the list is that of WithAdded: the first condition of the type and id merged, or the new one at the end and its opposite driven out; a new haste or paralysis adds its delta to the speed; sum and list stay in step |
| Speed.AddedIs | Source/creature.cpp:1268-1290 | after adding a new kind the list has exactly the old conditions and the new one, without what haste and paralysis drive out |
| Speed.Creature.RemoveCondition | Source/creature.cpp:1304-1319 | removes exactly the conditions of the type and their deltas |
| Speed.Creature.ExecuteConditions | Source/creature.cpp:1386-1406 | every condition grows older by the interval, and exactly those whose end time has passed end, with their deltas; the others keep their order |
| Speed.SurvivorsAre | Source/condition.cpp:129-139 | a condition goes on if and only if it has no end or its end time has not passed |
| Speed.LastsItsTime | Source/condition.cpp:123-139 | a condition added or renewed at t for d, and neither renewed nor cleared since, is listed exactly until the clock is seen behind t + d, with that delta and d less the time passed for ticks |
| Speed.LastsForEver | Source/condition.cpp:1538-1570 | an endless condition is not renewed for a time, and stays whatever the clock shows |
| Speed.MergedLasts | Source/condition.cpp:263-278 | a condition of another kind lasts as long as the new one would, or as it would have lasted itself |
| Speed.Creature.ChangeSpeed | Source/game.cpp:3694-3699 | adds to the variable part of the speed |
| Speed.Run | Source/creature.cpp:1268-1406 | over any run every timed condition is listed exactly until its time is over, the speed is base, listed deltas and what other callers added, and it is back to base and those when no speed condition is left |
| Trade.Trades.StartTrade | Source/game.cpp:2677-2709 | succeeds exactly for idle or asked players and a free item; partners and table stay consistent |
| Trade.Trades.AcceptTrade | Source/game.cpp:2711-2795 | refused, waits, completes or faults: it completes exactly if the partner has accepted, with both idle and both offers off the table then; it faults if and only if an offer is missing, that is if one of the two accepted in TRADE_ACKNOWLEDGE |
| Trade.Trades.Transfer | Source/game.cpp:2718-2778 | the completion takes both offers off the table, and faults exactly if one is missing |
| Trade.Run | Source/game.cpp:2677-2958 | over every run, whose log is one entry for each event, a completion lacks an offer if and only if one of the two accepted in TRADE_ACKNOWLEDGE, and there is a fault if and only if there was such a completion |
| Trade.HastyTrade | Source/game.cpp:2718-2778 | an offer, an acceptance of the one asked, an acceptance of the one who asked: the completion faults |
| Trade.Trades.CloseTrade | Source/game.cpp:2908-2958 | both partners idle, neither offer on the table |
| SpellArea.TurnedBack | Source/combat.cpp:1202-1251 | a quarter turn is undone by its opposite, so no two cells collide |
| SpellArea.Rotate | Source/combat.cpp:1202-1251 | every write is in bounds and the covered offsets are exactly the turned ones |
| SpellArea.Mirror | Source/combat.cpp:1182-1190 | the mirrored offsets, off by the difference of columns and rows |
| SpellArea.Flip | Source/combat.cpp:1191-1200 | the flipped offsets, off by the difference of rows and columns |
| SpellArea.SetupArea | Source/combat.cpp:1282-1305 | south, east and west are the north area turned by 180, 90 and 270 degrees |
| SpellArea.SetupExtArea | Source/combat.cpp:1369-1397 | what the three copies cover, for every area; each is the reflection of the area if and only if that is square or has no cell |
| SpellArea.ReflectsIfSquare | Source/combat.cpp:1182-1200 | a copy that is reflected and shifted is a reflection exactly if the shift is none or the area empty |

## Left out

- Node files: `long` is 32 bits wide, so that -1 and NO_VALID_CACHE are the same; fseek and fwrite do not fail.
- FileLoader.Loader.ReadBytes: with the cache only from positions inside the file or at its end, as all its callers have them.
- FileLoader.Loader.GetProps: where the buffer is too short after its one growth step, the model stops.
- Containers.Item.QueryAdd: a tile or a player as a parent is not told apart from no parent; what the outermost holder answers is a parameter.
- Containers.Item.AddThing: weights are integers and the client notifications are not modelled.
- Container::addItem and clone, which bypass the cached weight, and depots as containers in the game.
- Game.Game.InternalMoveItem: the exchange of two items (RET_NEEDEXCHANGE) needs the code of players and tiles, which is not part of this model, and FLAG_CHILDISOWNER is not passed by its callers. Source and destination are containers.
- Game.Game.InternalAddItem: an item put into a container; tiles, mailboxes and trash holders as destinations are not modelled.
- Game.Game.RemoveMoney: coins can always be removed, sums stay below 2^31, and the ground that takes change without room is a pile.
- transformItem, reference counts and FreeThing.
- Loading and the server's own store of attributes together: the loaders' calls of setters are a list, and MapStore.SetAll is what setters that keep their values make of it. House door numbers and the bits of the flags are not modelled.
- MapStore.SerializeAttr: that of ordinary items and containers; what beds, doors and teleports write is not modelled.
- MapLoad.LoadItem: items that are loaded into a container or are moveable; matching stationary items of a tile is not modelled, nor is decay. The writer takes the item as a value that an object stands for.
- PlayerStore.SaveItems: row batching of the database layer.
- PlayerStore.LoadItems: of a row whose attributes cannot be read to the end, only the type is stated.
- PlayerStore.HangUp: depot numbers above 99 are not loaded as depots by the source; rows naming such a number, or a later row, as parent are excluded.
- The tile variant of the row encoding in iomapserialize.cpp.
- WalkCache: the search for summons out of range, follow paths and step costs. Which changes on the map a creature is told of is not modelled: every change in its range.
- WalkCache.RemovalFilter: of Tile::__queryAdd the case of a monster looking for a path; houses and players are not part of it.
- Connection: the output queue, addresses and the sockets themselves; protocols call in only for accepted connections. closeAll is not modelled.
- DamageList.CloserIs: exact real arithmetic instead of floats. Executing a damage condition is not modelled.
- DecayWheel.Wheel.CheckDecay: what an item becomes when it decays is scheduled by a separate call.
- Speed: deltas drawn from a formula, the clock and suppressed conditions are parameters; what conditions of other kinds do when they are merged, beyond their time, is not modelled.
- Trade.Trades.StartTrade: distance checks, and whether an item is inside another offer, are parameters; the moving of the items on completion is Game.Game.InternalMoveItem.
- SpellArea.Rotate: exact quarter turns instead of rounded sines; reading an area from a list of numbers is not modelled.
- BanManager, WaitingList, the map, scripts, chat, commands and spectators.
