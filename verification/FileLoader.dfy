/**
 FileLoader: the node-file reader and writer over one open file.

 Reading goes either straight to the file or through a cache of three blocks. Every reading
 operation is specified once, by the file's bytes and the abstract position Pos(), so its
 contract says that the cached branch and the uncached branch do the same thing.
 */
module FileLoader {
  import opened Wrappers
  import opened Bits
  import opened NodeFormat

  datatype LoaderError =
    | ERROR_NONE
    | ERROR_INVALID_FILE_VERSION
    | ERROR_EOF
    | ERROR_SEEK_ERROR
    | ERROR_INVALID_FORMAT
    | ERROR_CACHE_ERROR

  const CACHE_BLOCKS := 3

  /** One cache slot; data holds the bytes that fread delivered, so its length is the slot's size. */
  datatype CacheBlock = CacheBlock(loaded: bool, base: nat, data: seq<byte>)

  /** A loaded slot holds exactly what the file holds from its base on. */
  ghost predicate Faithful(file: seq<byte>, cacheSize: nat, b: CacheBlock) {
    b.loaded ==> b.data == FreadAt(file, b.base, cacheSize)
  }

  // ---------------------------------------------------------------------------------------
  // Cache geometry

  /** Where the block that serves pos begins. */
  function BlockBase(pos: nat, cacheSize: nat): (b: nat)
    requires cacheSize > 0
    ensures b <= pos
  {
    AndNot(pos, cacheSize - 1)
  }

  /** A position lies inside the block that serves it, whether or not the size is a power of two. */
  lemma BlockHolds(pos: nat, cacheSize: nat)
    requires cacheSize > 0
    ensures BlockBase(pos, cacheSize) <= pos < BlockBase(pos, cacheSize) + cacheSize
  {
    hide And, AndNot;
    SplitByMask(pos, cacheSize - 1);
    assert And(pos, cacheSize - 1) <= cacheSize - 1;
  }

  function FreadAt(file: seq<byte>, base: nat, n: nat): (r: seq<byte>) {
    if base >= |file| then [] else if base + n <= |file| then file[base..base + n] else file[base..]
  }

  /** What a block holds from an inner offset on. */
  lemma FreadFrom(file: seq<byte>, base: nat, n: nat, off: nat, k: nat)
    requires off < n && base + off + k <= |file| && k <= n - off
    ensures off + k <= |FreadAt(file, base, n)|
    ensures FreadAt(file, base, n)[off..off + k] == file[base + off..base + off + k]
  {
    var r := FreadAt(file, base, n);
    assert forall j :: 0 <= j < |r| ==> r[j] == file[base + j];
    var u, v := r[off..off + k], file[base + off..base + off + k];
    assert forall j :: 0 <= j < k ==> u[j] == v[j];
  }

  /** Every byte of a loaded block is the file's. */
  lemma ByteOfBlock(file: seq<byte>, cacheSize: nat, b: CacheBlock, off: nat)
    requires b.loaded && Faithful(file, cacheSize, b) && off < |b.data|
    ensures b.base + off < |file| && b.data[off] == file[b.base + off] && off < cacheSize
  {
  }

  lemma FreadSize(file: seq<byte>, base: nat, n: nat)
    ensures |FreadAt(file, base, n)| == if base >= |file| then 0 else Min(n, |file| - base)
  {
  }


  /** The block size openFile picks for a file. */
  function CacheSizeFor(fileSize: nat): (n: nat) {
    AndNot(Min(32768, Max(fileSize / 20, 8192)), 0x1FFF)
  }

  /** Masking with 0x1FFF leaves at least one byte, so openFile never picks an empty block. */
  lemma CacheSizePositive(fileSize: nat)
    ensures 0 < CacheSizeFor(fileSize) <= 32768
  {
    SplitByMask(Min(32768, Max(fileSize / 20, 8192)), 0x1FFF);
  }

  /** A twentieth of the file in whole steps of 8192, one at least and four at most. */
  lemma CacheSizeIs(fileSize: nat)
    ensures CacheSizeFor(fileSize) == 8192 * Min(4, Max(1, fileSize / 163840))
  {
    hide AndNot;
    var n := Min(32768, Max(fileSize / 20, 8192));
    assert Power(13) == 8192 by { Powers(); }
    RoundsDown(n, 13);
    assert fileSize / 20 / 8192 == fileSize / 163840;
  }

  lemma Powers()
    ensures Power(13) == 8192
  {
    assert Power(3) == 8 && Power(6) == 64 && Power(9) == 512 && Power(12) == 4096;
  }

  lemma SliceOn(file: seq<byte>, pos: nat, p: nat, n: nat)
    requires pos <= p && p + n <= |file|
    ensures file[pos..p + n] == file[pos..p] + file[p..p + n]
  {
  }

  // ---------------------------------------------------------------------------------------
  // The parsed nodes

  class NodeStruct {
    var start: nat
    var propsSize: nat
    var typ: byte
    var next: NodeStruct?
    var child: NodeStruct?

    constructor (start: nat)
      ensures this.start == start && propsSize == 0 && typ == 0 && next == null && child == null
    {
      this.start := start;
      propsSize, typ, next, child := 0, 0, null, null;
    }
  }

  /** The shape of a finished tree: which object sits where. */
  datatype Shape =
    | NoShape
    | At(node: NodeStruct, child: Shape, next: Shape)
  {
    ghost function Root(): NodeStruct? {
      if NoShape? then null else node
    }

    ghost function Objects(): set<NodeStruct> {
      if NoShape? then {} else {node} + child.Objects() + next.Objects()
    }

    /** No object stands at two places. */
    ghost predicate Apart() {
      At? ==>
        && node !in child.Objects() && node !in next.Objects() && child.Objects() !! next.Objects()
        && child.Apart() && next.Apart()
    }

    /** The links of the heap objects draw this shape. */
    ghost predicate Linked()
      reads Objects()
    {
      At? ==>
        && node.child == child.Root() && node.next == next.Root()
        && child.Linked() && next.Linked()
    }

    /** The records the objects hold. */
    ghost function Records(): Records
      reads Objects()
    {
      if NoShape? then NoRecords
      else Record(node.start, node.propsSize, node.typ, child.Records(), next.Records())
    }
  }

  lemma NoShapeIsEmpty()
    ensures NoShape.Linked() && NoShape.Records() == NoRecords
    ensures NoShape.Root() == null && NoShape.Objects() == {} && NoShape.Apart()
  {
  }

  /** The siblings already finished, last one outermost. */
  datatype Siblings =
    | First
    | After(front: Siblings, node: NodeStruct, child: Shape)
  {
    ghost function Objects(): set<NodeStruct> {
      if First? then {} else {node} + child.Objects() + front.Objects()
    }

    ghost predicate Apart() {
      After? ==>
        && node !in child.Objects() && child.Apart()
        && front.Objects() !! {node} + child.Objects() && front.Apart()
    }

    ghost predicate Linked(last: NodeStruct?)
      reads Objects()
    {
      After? ==>
        && node.next == last && node.child == child.Root()
        && child.Linked() && front.Linked(node)
    }

    ghost function Root(last: NodeStruct?): NodeStruct? {
      if First? then last else front.Root(node)
    }

    /** The whole list, once the rest of it is known. */
    ghost function Close(tail: Shape): Shape {
      if First? then tail else front.Close(At(node, child, tail))
    }

    /** The parse of the whole list, once the parse of the rest of it is known. */
    ghost function Prepend(r: Parsed): Parsed
      reads Objects()
    {
      if First? || r.Fail? then r
      else front.Prepend(Ok(Record(node.start, node.propsSize, node.typ, child.Records(), r.records), r.pos))
    }
  }

  /** The last sibling closes the list. */
  lemma LastCloses(s: Siblings, node: NodeStruct, child: Shape, pos: nat)
    requires child.Linked() && node.child == child.Root() && node.next == null && s.Linked(node)
    ensures var all := s.Close(At(node, child, NoShape));
            && all.Linked() && all.Root() == s.Root(node)
            && all.Objects() == s.Objects() + ({node} + child.Objects())
            && s.Prepend(Ok(Record(node.start, node.propsSize, node.typ, child.Records(), NoRecords), pos))
            == Ok(all.Records(), pos)
  {
    CloseIsLinked(s, At(node, child, NoShape), pos);
  }

  lemma {:induction false} CloseIsLinked(s: Siblings, tail: Shape, pos: nat)
    requires tail.Linked() && s.Linked(tail.Root())
    ensures s.Close(tail).Linked()
    ensures s.Close(tail).Root() == s.Root(tail.Root())
    ensures s.Close(tail).Objects() == s.Objects() + tail.Objects()
    ensures s.Prepend(Ok(tail.Records(), pos)) == Ok(s.Close(tail).Records(), pos)
    decreases s
  {
    if s.After? {
      CloseIsLinked(s.front, At(s.node, s.child, tail), pos);
    }
  }

  /** Distinct siblings with a distinct last one make a list of distinct objects. */
  lemma {:induction false} CloseIsApart(s: Siblings, tail: Shape)
    requires s.Apart() && tail.Apart() && s.Objects() !! tail.Objects()
    ensures s.Close(tail).Apart()
    decreases s
  {
    if s.After? {
      CloseIsApart(s.front, At(s.node, s.child, tail));
    }
  }

  lemma LastIsApart(s: Siblings, node: NodeStruct, child: Shape)
    requires s.Apart() && child.Apart() && node !in child.Objects() && s.Objects() !! {node} + child.Objects()
    ensures s.Close(At(node, child, NoShape)).Apart() && After(s, node, child).Apart()
  {
    CloseIsApart(s, At(node, child, NoShape));
  }

  /** How the parse of one node ends. */
  datatype Outcome = Failed | ListEnds | NextStarts

  // ---------------------------------------------------------------------------------------
  // The loader

  class Loader {
    var file: seq<byte>
    var filePos: nat
    var lastError: LoaderError
    var root: NodeStruct?
    var buffer: array<byte>
    var useCache: bool
    var cacheSize: nat
    const blocks: array<CacheBlock>
    var cacheIndex: int    // -1 is NO_VALID_CACHE
    var cacheOffset: nat

    constructor (file: seq<byte>)
      ensures Unread() && fresh(blocks) && fresh(buffer)
      ensures this.file == file && filePos == 0 && root == null && lastError == ERROR_NONE
    {
      this.file := file;
      filePos, lastError, root := 0, ERROR_NONE, null;
      buffer := new byte[1024](_ => 0);
      useCache, cacheSize, cacheIndex, cacheOffset := false, 0, -1, 0;
      blocks := new CacheBlock[CACHE_BLOCKS](_ => CacheBlock(false, 0, []));
    }

    ghost predicate Valid()
      reads this, blocks
    {
      && blocks.Length == CACHE_BLOCKS
      && (forall i :: 0 <= i < CACHE_BLOCKS ==> Faithful(file, cacheSize, blocks[i]))
      && -1 <= cacheIndex < CACHE_BLOCKS
      && (useCache ==> cacheSize > 0 && (cacheIndex >= 0 ==> blocks[cacheIndex].loaded))
    }

    /** A position has been set and lies in the file or at its end. */
    ghost predicate Positioned()
      reads this, blocks
    {
      && Valid()
      && (useCache ==> cacheIndex >= 0 && cacheOffset <= cacheSize)
      && Pos() <= |file|
    }

    /** Where the next byte is read. */
    ghost function Pos(): nat
      requires Valid()
      reads this, blocks
    {
      if useCache && cacheIndex >= 0 then blocks[cacheIndex].base + cacheOffset else filePos
    }

    /** fread at the stdio position. */
    method Fread(n: nat) returns (data: seq<byte>)
      modifies this`filePos
      ensures data == FreadAt(file, old(filePos), n)
      ensures filePos == old(filePos) + |data|
    {
      if filePos >= |file| {
        data := [];
      } else if filePos + n <= |file| {
        data := file[filePos..filePos + n];
      } else {
        data := file[filePos..];
      }
      filePos := filePos + |data|;
    }

    /** Two blocks and more away from the one that serves pos. */
    predicate IsFar(b: CacheBlock, pos: nat)
      reads this
      requires cacheSize > 0
    {
      b.base - BlockBase(pos, cacheSize) > 2 * cacheSize || BlockBase(pos, cacheSize) - b.base > 2 * cacheSize
    }

    method LoadCacheBlock(pos: nat) returns (i: int)
      requires Valid() && useCache
      modifies this`filePos, this`lastError, blocks
      ensures Valid()
      ensures -1 <= i < CACHE_BLOCKS
      ensures pos <= |file| ==> i >= 0
      ensures i >= 0 ==> blocks[i].loaded && blocks[i].base == BlockBase(pos, cacheSize)
      ensures i >= 0 ==> forall k :: 0 <= k < CACHE_BLOCKS && k != i ==> blocks[k] == old(blocks[k])
      ensures i >= 0 && !old(blocks[i].loaded) ==> forall k :: 0 <= k < i ==> old(blocks[k].loaded)
      ensures i >= 0 && old(blocks[i].loaded) ==>
                && (forall k :: 0 <= k < CACHE_BLOCKS ==> old(blocks[k].loaded))
                && (forall k :: 0 <= k < i ==> !old(IsFar(blocks[k], pos)))
                && (old(IsFar(blocks[i], pos))
                    || (i == 0 && forall k :: 0 <= k < CACHE_BLOCKS ==> !old(IsFar(blocks[k], pos))))
    {
      BlockHolds(pos, cacheSize);
      var loading := -1;
      var basePos := BlockBase(pos, cacheSize);
      var k := 0;
      while k < CACHE_BLOCKS
        invariant 0 <= k <= CACHE_BLOCKS && loading == -1
        invariant forall m :: 0 <= m < k ==> blocks[m].loaded
      {
        if !blocks[k].loaded {
          loading := k;
          break;
        }
        k := k + 1;
      }
      if loading == -1 {
        k := 0;
        while k < CACHE_BLOCKS
          invariant 0 <= k <= CACHE_BLOCKS && loading == -1
          invariant forall m :: 0 <= m < k ==> !IsFar(blocks[m], pos)
        {
          if Abs(blocks[k].base - basePos) > 2 * cacheSize {
            loading := k;
            break;
          }
          k := k + 1;
        }
        if loading == -1 {
          loading := 0;
        }
      }
      filePos := basePos;
      var data := Fread(cacheSize);
      blocks[loading] := CacheBlock(blocks[loading].loaded, basePos, data);
      if |data| < pos - basePos {
        lastError := ERROR_SEEK_ERROR;
        return -1;
      }
      blocks[loading] := CacheBlock(true, basePos, data);
      return loading;
    }

    method GetCacheBlock(pos: nat) returns (i: int)
      requires Valid() && useCache
      modifies this`filePos, this`lastError, blocks
      ensures Valid()
      ensures -1 <= i < CACHE_BLOCKS
      ensures pos <= |file| ==> i >= 0
      ensures i >= 0 ==> blocks[i].loaded && blocks[i].base == BlockBase(pos, cacheSize)
    {
      var basePos := BlockBase(pos, cacheSize);
      i := 0;
      while i < CACHE_BLOCKS
        invariant 0 <= i <= CACHE_BLOCKS
      {
        if blocks[i].loaded && blocks[i].base == basePos {
          return;
        }
        i := i + 1;
      }
      i := LoadCacheBlock(pos);
    }

    /** Goes on in the block that serves the position behind the current one's last byte. */
    method EnterNextBlock() returns (ok: bool)
      requires Positioned() && useCache && cacheOffset >= |blocks[cacheIndex].data|
      modifies this`filePos, this`lastError, this`cacheIndex, this`cacheOffset, blocks
      ensures ok && Positioned() && Pos() == old(Pos())
      ensures cacheOffset < |blocks[cacheIndex].data| <==> Pos() < |file|
    {
      hide FreadAt, BlockBase;
      var pos := cacheOffset + blocks[cacheIndex].base;
      var tmp := GetCacheBlock(pos);
      if tmp < 0 {
        return false;
      }
      BlockHolds(pos, cacheSize);
      cacheIndex := tmp;
      cacheOffset := pos - blocks[cacheIndex].base;
      FreadSize(file, blocks[cacheIndex].base, cacheSize);
      return true;
    }

    method ReadByte() returns (ok: bool, value: byte)
      requires Positioned()
      modifies this`filePos, this`lastError, this`cacheIndex, this`cacheOffset, blocks
      ensures Positioned()
      ensures ok == (old(Pos()) < |file|)
      ensures ok ==> value == file[old(Pos())]
      ensures Pos() == if ok then old(Pos()) + 1 else old(Pos())
    {
      hide FreadAt, BlockBase;
      value := 0;
      if useCache {
        if cacheOffset >= |blocks[cacheIndex].data| {
          var entered := EnterNextBlock();
          if !entered {
            return false, value;
          }
          if cacheOffset >= |blocks[cacheIndex].data| {
            return false, value;
          }
        }
        ByteOfBlock(file, cacheSize, blocks[cacheIndex], cacheOffset);
        value := blocks[cacheIndex].data[cacheOffset];
        cacheOffset := cacheOffset + 1;
        return true, value;
      } else {
        if filePos >= |file| {
          lastError := ERROR_EOF;
          return false, value;
        }
        value := file[filePos];
        filePos := filePos + 1;
        return true, value;
      }
    }

    method SafeSeek(pos: nat) returns (ok: bool)
      requires Valid()
      modifies this`filePos, this`lastError, this`cacheIndex, this`cacheOffset, blocks
      ensures Valid()
      ensures pos <= |file| ==> ok && Positioned() && Pos() == pos && (useCache ==> cacheOffset < cacheSize)
    {
      if useCache {
        var i := GetCacheBlock(pos);
        if i == -1 {
          return false;
        }
        BlockHolds(pos, cacheSize);
        cacheIndex := i;
        cacheOffset := pos - blocks[i].base;
      } else {
        filePos := pos;
      }
      return true;
    }

    method SafeTell() returns (ok: bool, pos: int)
      requires Positioned()
      ensures ok && pos == Pos() - 1
    {
      if useCache {
        return true, blocks[cacheIndex].base + cacheOffset - 1;
      } else {
        return true, filePos - 1;
      }
    }

    /** Copies to the buffer as much of the next remain bytes as the current block still holds. */
    method CopyFromBlock(remain: nat, at: nat) returns (reading: nat)
      requires Positioned() && useCache && cacheOffset < cacheSize
      requires at + remain <= buffer.Length
      modifies this`cacheOffset, buffer
      ensures Positioned() && Pos() == old(Pos()) + reading <= |file|
      ensures reading <= remain && (reading == 0 <==> remain == 0 || old(Pos()) == |file|)
      ensures buffer[..] == old(buffer[..at]) + file[old(Pos())..Pos()] + old(buffer[at + reading..])
    {
      hide FreadAt, BlockBase;
      var b := blocks[cacheIndex];
      FreadSize(file, b.base, cacheSize);
      reading := Min(remain, |b.data| - cacheOffset);
      FreadFrom(file, b.base, cacheSize, cacheOffset, reading);
      Copy(b.data[cacheOffset..cacheOffset + reading], at);
      cacheOffset := cacheOffset + reading;
    }

    /** The same, as what becomes of the buffer before and behind the bytes that are still to come. */
    method CopyOn(remain: nat, at: nat) returns (reading: nat)
      requires Positioned() && useCache && cacheOffset < cacheSize
      requires at + remain <= buffer.Length
      modifies this`cacheOffset, buffer
      ensures Positioned() && Pos() == old(Pos()) + reading <= |file|
      ensures reading <= remain && (reading == 0 <==> remain == 0 || old(Pos()) == |file|)
      ensures buffer[..at + reading] == old(buffer[..at]) + file[old(Pos())..Pos()]
      ensures buffer[at + remain..] == old(buffer[at + remain..])
    {
      hide Positioned, Faithful;
      ghost var before, tail := buffer[..at], buffer[at + remain..];
      reading := CopyFromBlock(remain, at);
      ghost var all := buffer[..];
      assert buffer[..at + reading] == all[..at + reading];
      assert buffer[at + remain..] == all[at + remain..];
    }

    /**
     The cached branch of readBytes. stuck: the loop has reached the end of the file before it has read
     all, and goes on for ever, since another round changes nothing.
     */
    method ReadBytesCached(size: nat, pos: nat) returns (ok: bool, stuck: bool)
      requires Valid() && useCache
      requires size <= buffer.Length && pos <= |file|
      modifies this`filePos, this`lastError, this`cacheIndex, this`cacheOffset, blocks, buffer
      ensures stuck <==> pos + size > |file|
      ensures Positioned() && Pos() == Min(pos + size, |file|) && (ok <==> !stuck)
      ensures buffer[..Pos() - pos] == file[pos..Pos()]
      ensures buffer[size..] == old(buffer[size..])
    {
      hide FreadAt, BlockBase, Faithful;
      var remain, p, bufferPos := size, pos, 0;
      while true
        invariant Valid()
        invariant remain >= 0 && p + remain == pos + size && p == pos + bufferPos <= |file|
        invariant buffer[..bufferPos] == file[pos..p]
        invariant buffer[size..] == old(buffer[size..])
        decreases remain
      {
        ok := SafeSeek(p);
        if !ok {
          return false, false;
        }
        var reading := CopyOn(remain, bufferPos);
        SliceOn(file, pos, p, reading);
        remain := remain - reading;
        bufferPos := bufferPos + reading;
        p := p + reading;
        if remain == 0 {
          return true, false;
        }
        if reading == 0 {
          return false, true;
        }
      }
    }

    /** Copies size bytes from offset pos to the front of the buffer. */
    method ReadBytes(size: nat, pos: nat) returns (ok: bool, stuck: bool)
      requires Valid()
      requires size <= buffer.Length
      requires useCache ==> pos <= |file|
      modifies this`filePos, this`lastError, this`cacheIndex, this`cacheOffset, blocks, buffer
      ensures Valid()
      ensures stuck <==> useCache && pos + size > |file|
      ensures pos + size <= |file| ==> ok && Positioned() && Pos() == pos + size
      ensures pos + size <= |file| ==> buffer[..size] == file[pos..pos + size]
      ensures buffer[size..] == old(buffer[size..])
      ensures pos + size > |file| && size > 0 ==> !ok
    {
      hide Faithful;
      stuck := false;
      if useCache {
        ok, stuck := ReadBytesCached(size, pos);
      } else {
        filePos := pos;
        var data := Fread(size);
        Copy(data, 0);
        if |data| != size {
          lastError := ERROR_EOF;
          return false, stuck;
        }
        return true, stuck;
      }
    }

    /** memcpy into the buffer. */
    method Copy(data: seq<byte>, at: nat)
      requires at + |data| <= buffer.Length
      modifies buffer
      ensures buffer[..] == old(buffer[..at]) + data + old(buffer[at + |data|..])
    {
      for k := 0 to |data|
        invariant buffer[..at] == old(buffer[..at])
        invariant buffer[at..at + k] == data[..k]
        invariant buffer[at + k..] == old(buffer[at + k..])
      {
        buffer[at + k] := data[k];
      }
    }

    /** Nothing about a freshly started node is known but where it starts. */
    ghost predicate Opened(node: NodeStruct)
      reads this, blocks, node
    {
      && Positioned()
      && node.start < |file| && Pos() == node.start + 1
      && node.child == null && node.next == null
    }

    /**
     The parse r of the list that begins with node, as far as it is known once node has ended
     and its children are the records c.
     */
    ghost predicate EndsAs(node: NodeStruct, c: Records, outcome: Outcome, r: Parsed)
      requires Valid()
      reads this, blocks, node, node.next
    {
      var record := Record(node.start, node.propsSize, node.typ, c, NoRecords);
      match outcome
      case Failed => r.Fail?
      case ListEnds => node.next == null && r == Ok(record, Pos())
      case NextStarts =>
        && node.next != null && Opened(node.next)
        && r == WithNext(record, ParseList(file, node.next.start))
    }

    /** A child node starts: its START byte has just been read. */
    method ParseChild(current: NodeStruct) returns (ok: bool, ghost child: Shape)
      requires Positioned()
      requires current.start + 2 < Pos() && file[Pos() - 1] == NODE_START
      modifies this`filePos, this`lastError, this`cacheIndex, this`cacheOffset, blocks,
               current`propsSize, current`child
      ensures Positioned()
      ensures ok == ParseList(file, old(Pos()) - 1).Ok?
      ensures ok ==> ParseList(file, old(Pos()) - 1) == Ok(child.Records(), Pos())
      ensures ok ==> current.propsSize == old(Pos()) - 1 - current.start - 2
      ensures ok ==> child.Linked() && child.Apart() && current.child == child.Root() && fresh(child.Objects())
      decreases |file| - Pos(), 2
    {
      hide ParseList, Faithful;
      var _, pos := SafeTell();
      var childNode := new NodeStruct(pos);
      current.propsSize := pos - current.start - 2;
      current.child := childNode;
      ok, child := ParseNode(childNode);
    }

    method InvalidFormat()
      requires Positioned()
      modifies this`lastError
      ensures Positioned() && Pos() == old(Pos()) && lastError == ERROR_INVALID_FORMAT
    {
      lastError := ERROR_INVALID_FORMAT;
    }

    /** A node ends: its END byte has just been read. Its children are the records c. */
    method FinishNode(current: NodeStruct, setPropsSize: bool, ghost c: Records) returns (outcome: Outcome)
      requires Positioned()
      requires current.start + 2 < Pos() && file[Pos() - 1] == NODE_END
      requires current.next == null
      modifies this`filePos, this`lastError, this`cacheIndex, this`cacheOffset, blocks,
               current`propsSize, current`next
      ensures Positioned()
      ensures Pos() >= old(Pos())
      ensures var size := if setPropsSize then Some(old(current.propsSize)) else None;
              EndsAs(current, c, outcome, ParseBody(file, old(Pos()) - 1, current.start, current.typ, c, size))
      ensures current.next != null ==> fresh(current.next)
    {
      hide ParseBody, ParseList, Valid, Pos, FreadAt, BlockBase;
      BodyStep(file, Pos() - 1, current.start, current.typ, c,
               if setPropsSize then Some(current.propsSize) else None);
      if !setPropsSize {
        var _, pos := SafeTell();
        current.propsSize := pos - current.start - 2;
      }
      var more, b := ReadByte();
      if !more {
        // nothing follows: this list is the last
        return ListEnds;
      }
      if b == NODE_START {
        // a sibling follows
        var _, pos := SafeTell();
        var nextNode := new NodeStruct(pos);
        current.next := nextNode;
        return NextStarts;
      } else if b == NODE_END {
        // up one level and one byte back
        var _, pos := SafeTell();
        var _ := SafeSeek(pos);
        return ListEnds;
      } else {
        InvalidFormat();
        return Failed;
      }
    }

    /**
     Parses one node, children included, up to the byte that ends its list or starts its next
     sibling. This is one round of the outer loop of parseNode.
     */
    method ParseOne(current: NodeStruct) returns (outcome: Outcome, ghost child: Shape)
      requires Opened(current)
      modifies this`filePos, this`lastError, this`cacheIndex, this`cacheOffset, blocks, current
      ensures Positioned()
      ensures current.start == old(current.start)
      ensures outcome != Failed ==>
                && Pos() > old(Pos())
                && child.Linked() && child.Apart() && current.child == child.Root() && fresh(child.Objects())
      ensures outcome == Failed ==> ParseList(file, current.start).Fail?
      ensures outcome != Failed ==>
                && EndsAs(current, child.Records(), outcome, ParseList(file, current.start))
                && (current.next != null ==> fresh(current.next) && current.next !in child.Objects())
      decreases |file| - Pos(), 0
    {
      hide ParseBody, ParseList, Valid, EndsAs, Shape.Linked, Shape.Apart, Shape.Records, Shape.Root, Shape.Objects,
           Faithful, FreadAt, BlockBase, WithNext, AtEnd, Pos;
      ListStep(file, current.start);
      var more, b := ReadByte();
      if !more {
        return Failed, NoShape;
      }
      current.typ := b;
      outcome, child := ParseRest(current);
    }

    /** The loop of parseNode behind the type byte: children and escapes, up to the END byte. */
    method ParseRest(current: NodeStruct) returns (outcome: Outcome, ghost child: Shape)
      requires Positioned() && current.start < |file| && Pos() == current.start + 2
      requires current.child == null && current.next == null
      requires ParseList(file, current.start)
            == ParseBody(file, current.start + 2, current.start, current.typ, NoRecords, None)
      modifies this`filePos, this`lastError, this`cacheIndex, this`cacheOffset, blocks, current
      ensures Positioned()
      ensures current.start == old(current.start)
      ensures outcome != Failed ==>
                && Pos() > old(Pos())
                && child.Linked() && child.Apart() && current.child == child.Root() && fresh(child.Objects())
      ensures outcome == Failed ==> ParseList(file, current.start).Fail?
      ensures outcome != Failed ==>
                && EndsAs(current, child.Records(), outcome, ParseList(file, current.start))
                && (current.next != null ==> fresh(current.next) && current.next !in child.Objects())
      decreases |file| - Pos(), 0
    {
      hide ParseBody, ParseList, Valid, EndsAs, Shape.Linked, Shape.Apart, Shape.Records, Shape.Root, Shape.Objects,
           Faithful, FreadAt, BlockBase, WithNext, AtEnd, Pos;
      NoShapeIsEmpty();
      child := NoShape;
      ghost var objects: set<NodeStruct> := {};
      var more, b;
      var setPropsSize := false;
      ghost var size: Option<nat> := None;
      while true
        invariant Positioned()
        invariant Pos() >= current.start + 2
        invariant current.start == old(current.start)
        invariant size == if setPropsSize then Some(current.propsSize) else None
        invariant current.child == child.Root() && current.next == null
        invariant child.Objects() == objects && fresh(objects) && child.Linked() && child.Apart()
        invariant ParseList(file, current.start)
               == ParseBody(file, Pos(), current.start, current.typ, child.Records(), size)
        decreases |file| - Pos()
      {
        // one more byte of this node
        BodyStep(file, Pos(), current.start, current.typ, child.Records(), size);
        more, b := ReadByte();
        if !more {
          return Failed, child;
        }
        if b == NODE_START {
          setPropsSize := true;
          more, child := ParseChild(current);
          if !more {
            return Failed, child;
          }
          objects := child.Objects();
          size := Some(current.propsSize);
        } else if b == NODE_END {
          outcome := FinishNode(current, setPropsSize, child.Records());
          if outcome == Failed {
            FailedIsFailed(current, child.Records(), ParseList(file, current.start));
          }
          return;
        } else if b == ESCAPE_CHAR {
          more, b := ReadByte();
          if !more {
            return Failed, child;
          }
        }
      }
    }

    lemma FailedIsFailed(node: NodeStruct, c: Records, r: Parsed)
      requires Valid() && EndsAs(node, c, Failed, r)
      ensures r.Fail?
    {
    }

    /**
     Parses the siblings that begin with node, whose START byte has just been read. The tree of
     objects left behind holds the records of NodeFormat.ParseList.
     */
    method ParseNode(node: NodeStruct) returns (ok: bool, ghost shape: Shape)
      requires Opened(node)
      modifies this`filePos, this`lastError, this`cacheIndex, this`cacheOffset, blocks, node
      ensures Positioned()
      ensures ok ==> Pos() > old(Pos())
      ensures ok == ParseList(file, old(node.start)).Ok?
      ensures ok ==> ParseList(file, old(node.start)) == Ok(shape.Records(), Pos())
      ensures ok ==> shape.Linked() && shape.Apart() && shape.Root() == node
      ensures ok ==> forall o :: o in shape.Objects() ==> o == node || fresh(o)
      decreases |file| - Pos(), 1
    {
      hide ParseBody, ParseList, Valid, Shape.Linked, Shape.Apart, Shape.Records, Shape.Root, Shape.Objects, Pos;
      ghost var done := First;
      ghost var objects: set<NodeStruct> := {};
      var current: NodeStruct := node;
      while true
        invariant Opened(current) && Pos() >= old(Pos())
        invariant done.Objects() == objects && fresh(objects - {node}) && done.Apart()
        invariant current !in objects && done.Linked(current) && done.Root(current) == node
        invariant current == node || fresh(current)
        invariant ParseList(file, old(node.start)) == done.Prepend(ParseList(file, current.start))
        decreases |file| - Pos()
      {
        var outcome;
        ghost var child;
        outcome, child := ParseOne(current);
        ghost var below: set<NodeStruct> := child.Objects();
        if outcome == Failed {
          return false, NoShape;
        }
        if outcome == ListEnds {
          shape := done.Close(At(current, child, NoShape));
          LastCloses(done, current, child, Pos());
          LastIsApart(done, current, child);
          return true, shape;
        }
        LastIsApart(done, current, child);
        done := After(done, current, child);
        objects := {current} + below + objects;
        current := current.next;
      }
    }

    method Grow()
      requires Valid()
      modifies this`buffer
      ensures Valid() && fresh(buffer) && buffer.Length == old(buffer.Length) + 1024
    {
      buffer := new byte[buffer.Length + 1024](_ => 0);
    }

    /**
     Unescapes the property bytes of a node in the buffer; size is how many are left. The buffer grows
     by one step only. fits: it is long enough then, otherwise the model stops there.
     */
    method GetProps(node: NodeStruct) returns (fits: bool, ok: bool, size: nat)
      requires Valid()
      requires ReadableRegion(file, node.start, node.propsSize)
      modifies this`filePos, this`lastError, this`cacheIndex, this`cacheOffset, this`buffer, blocks, buffer
      ensures Valid()
      ensures fits <==> node.propsSize <= old(buffer.Length) + 1024
      ensures fits ==> ok && size <= buffer.Length && buffer[..size] == PropsOf(file, node.start, node.propsSize)
      ensures buffer == old(buffer) || fresh(buffer)
    {
      hide Valid, Pos, FreadAt, BlockBase, Unescape, WellEscaped;
      size := 0;
      if node.propsSize >= buffer.Length {
        Grow();
      }
      fits, ok := node.propsSize <= buffer.Length, false;
      if !fits {
        return;
      }
      var stuck;
      ok, stuck := ReadBytes(node.propsSize, node.start + 2);
      if !ok {
        return;
      }
      ghost var s := file[node.start + 2..node.start + 2 + node.propsSize];
      size := UnescapeBuffer(node.propsSize, s);
    }

    /** The unescaping loop of getProps over the first n bytes of the buffer. */
    method UnescapeBuffer(n: nat, ghost s: seq<byte>) returns (j: nat)
      requires n <= buffer.Length && buffer[..n] == s && WellEscaped(s)
      modifies buffer
      ensures j <= n && buffer[..j] == Unescape(s)
    {
      hide Unescape, WellEscaped;
      var i, escaped := 0, false;
      j := 0;
      ghost var done: seq<byte> := [];
      assert s[0..] == s;
      while i < n
        invariant j <= i <= n
        invariant !escaped ==> i == j
        invariant |s| == n && forall k :: i <= k < n ==> buffer[k] == s[k]
        invariant WellEscaped(s[i..])
        invariant buffer[..j] == done
        invariant done + Unescape(s[i..]) == Unescape(s)
      {
        UnescapeStep(s, i);
        if buffer[i] == ESCAPE_CHAR {
          // the byte behind an escape counts as it is
          i := i + 1;
          buffer[j] := buffer[i];
          escaped := true;
        } else if escaped {
          // from the first escape on, bytes move down
          buffer[j] := buffer[i];
        }
        Regroup(done, [s[i]], Unescape(s[i + 1..]));
        done := done + [s[i]];
        i, j := i + 1, j + 1;
      }
      UnescapeNone(s[i..]);
    }

    // -------------------------------------------------------------------------------------
    // Opening

    /** openFile for reading. version0 is what the version variable holds if the file is too short. */
    method OpenFile(caching: bool, version0: nat) returns (ok: bool, ghost shape: Shape)
      requires Unread() && filePos == 0
      modifies this`filePos, this`lastError, this`cacheIndex, this`cacheOffset, this`useCache,
               this`cacheSize, this`root, blocks
      ensures Valid()
      ensures ok == ((if |file| >= 4 then file[..4] == [0, 0, 0, 0] else version0 == 0) &&
                     |file| > 4 && file[4] == NODE_START && ParseList(file, 4).Ok?)
      ensures ok ==>
                && root != null && shape.Root() == root && shape.Linked() && shape.Apart()
                && shape.Records() == ParseList(file, 4).records
      ensures |file| >= 4 && file[..4] != [0, 0, 0, 0] ==> lastError == ERROR_INVALID_FILE_VERSION
    {
      hide ParseList, Shape.Linked, Shape.Apart, Shape.Records, Shape.Root, Shape.Objects, CacheSizeFor, Pos,
           Positioned, BlockBase;
      shape := NoShape;
      var bytes := Fread(4);
      var version := if |bytes| < 4 then version0 else LittleEndian32(bytes);
      if version > 0 {
        lastError := ERROR_INVALID_FILE_VERSION;
        return false, shape;
      }
      if caching {
        useCache := true;
        CacheSizePositive(|file|);
        cacheSize := CacheSizeFor(|file|);
      }
      ok, shape := OpenRoot();
    }

    /** The part of openFile behind the version check: the root node. */
    method OpenRoot() returns (ok: bool, ghost shape: Shape)
      requires Valid()
      modifies this`filePos, this`lastError, this`cacheIndex, this`cacheOffset, this`root, blocks
      ensures Valid()
      ensures ok == (|file| > 4 && file[4] == NODE_START && ParseList(file, 4).Ok?)
      ensures ok ==>
                && root != null && shape.Root() == root && shape.Linked() && shape.Apart()
                && shape.Records() == ParseList(file, 4).records
    {
      hide ParseList, Shape.Linked, Shape.Apart, Shape.Records, Shape.Root, Shape.Objects, Pos;
      shape := NoShape;
      ok := SafeSeek(4);
      if !ok {
        lastError := ERROR_INVALID_FORMAT;
        return false, shape;
      }
      root := new NodeStruct(4);
      ok := SafeSeek(4);
      if !ok || |file| < 4 {
        return false, shape;
      }
      var more, b := ReadByte();
      if !more || b != NODE_START {
        return false, shape;
      }
      ok, shape := ParseNode(root);
    }

    // -------------------------------------------------------------------------------------
    // Runs of reading operations

    /** Any sequence of seeks, tells and reads answers as the plain file would, cache or no cache. */
    method Run(ops: seq<Op>) returns (replies: seq<Reply>)
      requires Positioned()
      requires forall op :: op in ops ==> InFile(file, op) && Fits(op, buffer.Length)
      modifies this`filePos, this`lastError, this`cacheIndex, this`cacheOffset, blocks, buffer
      ensures Positioned()
      ensures replies == PlainRun(file, old(Pos()), ops)
    {
      hide Valid;
      replies := [];
      var k := 0;
      assert ops[0..] == ops;
      while k < |ops|
        invariant k <= |ops| && Positioned()
        invariant replies + PlainRun(file, Pos(), ops[k..]) == PlainRun(file, old(Pos()), ops)
      {
        assert ops[k..][0] == ops[k] && ops[k..][1..] == ops[k + 1..];
        var reply := Perform(ops[k]);
        replies := replies + [reply];
        k := k + 1;
      }
    }

    method Perform(op: Op) returns (reply: Reply)
      requires Positioned() && InFile(file, op) && Fits(op, buffer.Length)
      modifies this`filePos, this`lastError, this`cacheIndex, this`cacheOffset, blocks, buffer
      ensures Positioned()
      ensures (reply, Pos()) == PlainStep(file, old(Pos()), op)
    {
      match op
      case Seek(pos) =>
        var _ := SafeSeek(pos);
        reply := Done;
      case Tell =>
        var _, pos := SafeTell();
        reply := Told(pos);
      case Byte =>
        var more, b := ReadByte();
        reply := if more then Got(b) else AtEof;
      case Bytes(size, pos) =>
        var _, _ := ReadBytes(size, pos);
        reply := GotBytes(buffer[..size]);
    }

    // -------------------------------------------------------------------------------------
    // Writing

    /** No block has been loaded: the loader is new, or it has only been written through. */
    ghost predicate Unread()
      reads this, blocks
    {
      Valid() && !useCache && cacheIndex == -1 && forall i :: 0 <= i < CACHE_BLOCKS ==> !blocks[i].loaded
    }

    method WriteData(data: seq<byte>, unescape: bool)
      requires Unread()
      modifies this`file
      ensures Unread()
      ensures file == old(file) + if unescape then Escape(data) else data
    {
      hide Escape, EscapeByte;
      EscapeNothing();
      assert data[..0] == [] && file == old(file) + [];
      for i := 0 to |data|
        invariant Unread()
        invariant file == old(file) + if unescape then Escape(data[..i]) else data[..i]
      {
        var c := data[i];
        assert data[..i + 1] == data[..i] + [c];
        EscapeConcat(data[..i], [c]);
        EscapeOne(c);
        ghost var before := file;
        if unescape && (c == NODE_START || c == NODE_END || c == ESCAPE_CHAR) {
          file := file + [ESCAPE_CHAR];
        }
        file := file + [c];
        WrittenByte(c);
        assert file == before + (if unescape then EscapeByte(c) else [c]);
      }
      assert data[..|data|] == data;
    }

    lemma EscapeNothing()
      ensures Escape([]) == []
    {
    }

    lemma WrittenByte(c: byte)
      ensures EscapeByte(c) == if c == NODE_START || c == NODE_END || c == ESCAPE_CHAR then [ESCAPE_CHAR, c] else [c]
    {
    }

    method StartNode(typ: byte)
      requires Unread()
      modifies this`file
      ensures Unread()
      ensures file == old(file) + ([NODE_START] + EscapeByte(typ))
    {
      EscapeOne(typ);
      WriteData([NODE_START], false);
      WriteData([typ], true);
    }

    /** The size a client hands over has 16 bits: of longer properties only a part is written. */
    method SetProps(data: seq<byte>)
      requires Unread()
      modifies this`file
      ensures Unread()
      ensures file == old(file) + Escape(Sized(data))
    {
      var size := |data| % 0x1_0000;
      WriteData(data[..size], true);
    }

    method EndNode()
      requires Unread()
      modifies this`file
      ensures Unread()
      ensures file == old(file) + [NODE_END]
    {
      WriteData([NODE_END], false);
    }

    /** openFile for writing. */
    method CreateFile()
      requires Unread()
      modifies this`file
      ensures Unread()
      ensures file == [0, 0, 0, 0]
    {
      file := [];
      WriteData([0, 0, 0, 0], false);
    }

    /** A client writes a forest: each node is started, given its properties, and ended after its children. */
    method WriteNodes(f: Nodes)
      requires Unread()
      modifies this`file
      ensures Unread()
      ensures file == old(file) + Emit(AllSized(f))
      decreases f
    {
      hide Unread, Emit, Escape, EscapeByte, Sized;
      EmitStep(AllSized(f));
      if f.Node? {
        StartNode(f.typ);
        SetProps(f.props);
        WriteNodes(f.child);
        EndNode();
        WriteNodes(f.next);
      }
    }
  }

  // ---------------------------------------------------------------------------------------
  // The plain file machine

  datatype Op = Seek(pos: nat) | Tell | Byte | Bytes(size: nat, at: nat)

  datatype Reply = Done | Told(pos: int) | Got(b: byte) | AtEof | GotBytes(data: seq<byte>)

  /** Seeks stay in the file and block reads end in it. */
  predicate InFile(file: seq<byte>, op: Op) {
    match op
    case Seek(pos) => pos <= |file|
    case Bytes(size, at) => at + size <= |file|
    case _ => true
  }

  predicate Fits(op: Op, room: nat) {
    op.Bytes? ==> op.size <= room
  }

  /** fseek, ftell, fgetc and fread on a file position. */
  function PlainStep(file: seq<byte>, pos: nat, op: Op): (Reply, nat)
    requires InFile(file, op)
  {
    match op
    case Seek(p) => (Done, p)
    case Tell => (Told(pos - 1), pos)
    case Byte => if pos < |file| then (Got(file[pos]), pos + 1) else (AtEof, pos)
    case Bytes(size, at) => (GotBytes(file[at..at + size]), at + size)
  }

  function PlainRun(file: seq<byte>, pos: nat, ops: seq<Op>): seq<Reply>
    requires forall op :: op in ops ==> InFile(file, op)
    decreases |ops|
  {
    if ops == [] then []
    else
      var (reply, p) := PlainStep(file, pos, ops[0]);
      [reply] + PlainRun(file, p, ops[1..])
  }

  function LittleEndian32(b: seq<byte>): (n: nat)
    requires |b| == 4
    ensures n == 0 <==> b == [0, 0, 0, 0]
  {
    (b[0] as int) + 256 * (b[1] as int) + 65536 * (b[2] as int) + 16777216 * (b[3] as int)
  }

  lemma EscapeOne(b: byte)
    ensures Escape([b]) == EscapeByte(b)
  {
    assert [b][1..] == [];
  }

  lemma EmitStep(f: Nodes)
    ensures f.NoNodes? ==> forall s: seq<byte> :: s + Emit(f) == s
    ensures f.Node? ==>
              forall s: seq<byte> :: s + Emit(f)
                == s + ([NODE_START] + EscapeByte(f.typ)) + Escape(f.props) + Emit(f.child) + [NODE_END] + Emit(f.next)
  {
    if f.Node? {
      hide Emit, Escape, EscapeByte;
      forall s: seq<byte> {
        EmitGrouped(s, f);
      }
    }
  }

  lemma EmitGrouped(s: seq<byte>, f: Nodes)
    requires f.Node?
    ensures s + Emit(f)
         == s + ([NODE_START] + EscapeByte(f.typ)) + Escape(f.props) + Emit(f.child) + [NODE_END] + Emit(f.next)
  {
    var t, p, c, n := [NODE_START] + EscapeByte(f.typ), Escape(f.props), Emit(f.child), Emit(f.next);
    assert Emit(f) == t + p + c + [NODE_END] + n;
    Regroup(s, t, p);
    Regroup(s, t + p, c);
    Regroup(s, t + p + c, [NODE_END]);
    Regroup(s, t + p + c + [NODE_END], n);
  }

  lemma UnescapeNone(s: seq<byte>)
    requires s == []
    ensures WellEscaped(s) && Unescape(s) == []
  {
  }

  lemma UnescapeStep(s: seq<byte>, i: nat)
    requires i < |s| && WellEscaped(s[i..])
    ensures s[i] == ESCAPE_CHAR ==>
              i + 1 < |s| && WellEscaped(s[i + 2..]) && Unescape(s[i..]) == [s[i + 1]] + Unescape(s[i + 2..])
    ensures s[i] != ESCAPE_CHAR ==>
              WellEscaped(s[i + 1..]) && Unescape(s[i..]) == [s[i]] + Unescape(s[i + 1..])
  {
    var t := s[i..];
    assert t[1..] == s[i + 1..];
    if s[i] == ESCAPE_CHAR {
      assert t[2..] == s[i + 2..];
    }
  }
}
