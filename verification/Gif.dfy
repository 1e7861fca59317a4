/**
 The GIF validator: it accepts exactly the byte strings that are a header, a list of image
 and extension blocks with at least one image, and the trailer, with nothing left over.
 Sections 15 to 22 and 27 of the GIF89a specification.
 */
module Gif {
  import opened Bytes
  import opened DeliveryTypes

  const IMAGE: Byte := 0x2c
  const EXTENSION: Byte := 0x21
  const TRAILER: Byte := 0x3b
  const MAX_PIXELS: nat := 16 * 1024 * 1024

  /** Three bytes for each of 2, 4, ... 256 colours. */
  const TABLE_BYTES: seq<nat> := [6, 12, 24, 48, 96, 192, 384, 768]

  function TableSize(packed: Byte): nat {
    if packed >= 0x80 then TABLE_BYTES[packed % 8] else 0
  }

  /** Section 18 of the GIF89a specification: 2 to the power (bits + 1) colours, when the top bit announces a table. */
  lemma TableSizeIs(packed: Byte)
    ensures TableSize(packed) == if packed / 0x80 == 1 then 3 * Pow2(packed % 8 + 1) else 0
  {
    assert Pow2(1) == 2 && Pow2(2) == 4 && Pow2(3) == 8 && Pow2(4) == 16;
    assert Pow2(5) == 32 && Pow2(6) == 64 && Pow2(7) == 128 && Pow2(8) == 256;
  }

  function Pow2(n: nat): nat {
    if n == 0 then 1 else 2 * Pow2(n - 1)
  }

  predicate Dimensions(width: nat, height: nat) {
    width > 0 && height > 0 && width * height <= MAX_PIXELS
  }

  // ---------------------------------------------------------------- the grammar

  datatype Block =
    | Image(descriptor: seq<Byte>, table: seq<Byte>, codeSize: Byte, data: seq<seq<Byte>>)
    | Extension(tag: Byte, data: seq<seq<Byte>>)

  datatype File = File(header: seq<Byte>, table: seq<Byte>, blocks: seq<Block>)

  ghost predicate DataFits(data: seq<seq<Byte>>) {
    forall k :: 0 <= k < |data| ==> 1 <= |data[k]| <= 255
  }

  ghost predicate BlockFits(b: Block) {
    && DataFits(b.data)
    && (b.Image? ==>
          && |b.descriptor| == 9 && Dimensions(Le16(b.descriptor, 4), Le16(b.descriptor, 6))
          && |b.table| == TableSize(b.descriptor[8])
          && 2 <= b.codeSize <= 8)
  }

  ghost predicate BlocksFit(blocks: seq<Block>) {
    forall k :: 0 <= k < |blocks| ==> BlockFits(blocks[k])
  }

  predicate HasImage(blocks: seq<Block>) {
    exists k :: 0 <= k < |blocks| && blocks[k].Image?
  }

  ghost predicate FileFits(f: File) {
    && |f.header| == 13 && Dimensions(Le16(f.header, 6), Le16(f.header, 8))
    && |f.table| == TableSize(f.header[10])
    && BlocksFit(f.blocks) && HasImage(f.blocks)
  }

  /** Length-prefixed sub-blocks and the empty one that ends them. */
  ghost function DataBytes(data: seq<seq<Byte>>): seq<Byte>
    requires DataFits(data)
  {
    if data == [] then [0] else [|data[0]|] + data[0] + DataBytes(data[1..])
  }

  ghost function BlockBytes(b: Block): seq<Byte>
    requires BlockFits(b)
  {
    match b
    case Image(descriptor, table, codeSize, data) => [IMAGE] + descriptor + table + [codeSize] + DataBytes(data)
    case Extension(tag, data) => [EXTENSION, tag] + DataBytes(data)
  }

  ghost function BlocksBytes(blocks: seq<Block>): seq<Byte>
    requires BlocksFit(blocks)
  {
    if blocks == [] then [TRAILER] else BlockBytes(blocks[0]) + BlocksBytes(blocks[1..])
  }

  ghost function FileBytes(f: File): seq<Byte>
    requires FileFits(f)
  {
    f.header + f.table + BlocksBytes(f.blocks)
  }

  // ---------------------------------------------------------------- what the scanner sees

  /** The sub-blocks from `at` on, and where they end. */
  function ReadData(raw: seq<Byte>, at: nat): (r: Option<(seq<seq<Byte>>, nat)>)
    ensures r.Some? ==> at < r.value.1 <= |raw|
    decreases |raw| - at
  {
    if at >= |raw| then None
    else
      var next := at + 1 + raw[at];
      if next > |raw| then None
      else if raw[at] == 0 then Some(([], next))
      else
        var more := ReadData(raw, next);
        if more.None? then None else Some(([raw[at + 1..next]] + more.value.0, more.value.1))
  }

  /** Where an image's code size is, when its descriptor and table are in order. */
  function CodeSizeAt(raw: seq<Byte>, at: nat): (r: Option<nat>)
    ensures r.Some? ==> at + 9 <= r.value < |raw|
  {
    if at + 9 >= |raw| || !Dimensions(Le16(raw, at + 4), Le16(raw, at + 6)) then None
    else
      var next := at + 9 + TableSize(raw[at + 8]);
      if next >= |raw| || !(2 <= raw[next] <= 8) then None else Some(next)
  }

  function ReadBlock(raw: seq<Byte>, at: nat): (r: Option<(Block, nat)>)
    requires at < |raw|
    ensures r.Some? ==> at < r.value.1 <= |raw|
  {
    if raw[at] == IMAGE then
      var code := CodeSizeAt(raw, at + 1);
      if code.None? then None
      else
        var data := ReadData(raw, code.value + 1);
        if data.None? then None
        else Some((Image(raw[at + 1..at + 10], raw[at + 10..code.value], raw[code.value], data.value.0), data.value.1))
    else if raw[at] == EXTENSION then
      var data := ReadData(raw, at + 2);
      if data.None? then None else Some((Extension(raw[at + 1], data.value.0), data.value.1))
    else None
  }

  function ReadBlocks(raw: seq<Byte>, at: nat): (r: Option<seq<Block>>)
    ensures r.Some? ==> at < |raw|
    decreases |raw| - at
  {
    if at >= |raw| then None
    else if raw[at] == TRAILER then if at + 1 == |raw| then Some([]) else None
    else
      var block := ReadBlock(raw, at);
      if block.None? then None
      else
        var more := ReadBlocks(raw, block.value.1);
        if more.None? then None else Some([block.value.0] + more.value)
  }

  function BlocksStart(raw: seq<Byte>): nat
    requires |raw| >= 14
  {
    13 + TableSize(raw[10])
  }

  // ---------------------------------------------------------------- soundness

  lemma {:induction false} DataRead(raw: seq<Byte>, at: nat)
    requires ReadData(raw, at).Some?
    ensures var r := ReadData(raw, at).value; DataFits(r.0) && raw[at..r.1] == DataBytes(r.0)
    decreases |raw| - at
  {
    if raw[at] != 0 {
      var next := at + 1 + raw[at];
      DataRead(raw, next);
      var rest := ReadData(raw, next).value;
      DataStep(raw, at, rest.0, rest.1);
    }
  }

  lemma DataStep(raw: seq<Byte>, at: nat, rest: seq<seq<Byte>>, end: nat)
    requires at < |raw| && raw[at] != 0 && at + 1 + raw[at] <= end <= |raw|
    requires DataFits(rest) && raw[at + 1 + raw[at]..end] == DataBytes(rest)
    ensures var data := [raw[at + 1..at + 1 + raw[at]]] + rest; DataFits(data) && raw[at..end] == DataBytes(data)
  {
    var next := at + 1 + raw[at];
    var data := [raw[at + 1..next]] + rest;
    assert data[1..] == rest;
    Joined(raw, at, at + 1, next);
    Joined(raw, at, next, end);
    assert [raw[at]] == raw[at..at + 1];
  }

  lemma ImageRead(raw: seq<Byte>, at: nat)
    requires at < |raw| && raw[at] == IMAGE && ReadBlock(raw, at).Some?
    ensures var (block, end) := ReadBlock(raw, at).value; BlockFits(block) && raw[at..end] == BlockBytes(block)
  {
    hide DataBytes, ReadData, Dimensions;
    var (block, end) := ReadBlock(raw, at).value;
    var code := CodeSizeAt(raw, at + 1).value;
    DataRead(raw, code + 1);
    assert Le16(block.descriptor, 4) == Le16(raw, at + 5) && Le16(block.descriptor, 6) == Le16(raw, at + 7);
    assert block.descriptor[8] == raw[at + 9];
    assert [IMAGE] == raw[at..at + 1] && [raw[code]] == raw[code..code + 1];
    Joined(raw, at, at + 1, at + 10);
    Joined(raw, at, at + 10, code);
    Joined(raw, at, code, code + 1);
    Joined(raw, at, code + 1, end);
  }

  lemma BlockRead(raw: seq<Byte>, at: nat)
    requires at < |raw| && ReadBlock(raw, at).Some?
    ensures var (block, end) := ReadBlock(raw, at).value; BlockFits(block) && raw[at..end] == BlockBytes(block)
  {
    hide DataBytes, ReadData;
    if raw[at] == IMAGE {
      ImageRead(raw, at);
    } else {
      var end := ReadBlock(raw, at).value.1;
      DataRead(raw, at + 2);
      assert [EXTENSION, raw[at + 1]] == raw[at..at + 2];
      Joined(raw, at, at + 2, end);
    }
  }

  lemma {:induction false} BlocksRead(raw: seq<Byte>, at: nat)
    requires ReadBlocks(raw, at).Some?
    ensures BlocksFit(ReadBlocks(raw, at).value) && raw[at..] == BlocksBytes(ReadBlocks(raw, at).value)
    decreases |raw| - at
  {
    if raw[at] != TRAILER {
      BlockRead(raw, at);
      var r := ReadBlock(raw, at).value;
      BlocksRead(raw, r.1);
      BlocksStep(raw, at, r.0, r.1, ReadBlocks(raw, r.1).value);
    }
  }

  lemma BlocksStep(raw: seq<Byte>, at: nat, block: Block, next: nat, rest: seq<Block>)
    requires at <= next <= |raw| && BlockFits(block) && raw[at..next] == BlockBytes(block)
    requires BlocksFit(rest) && raw[next..] == BlocksBytes(rest)
    ensures BlocksFit([block] + rest) && raw[at..] == BlocksBytes([block] + rest)
  {
    assert ([block] + rest)[1..] == rest;
    Joined(raw, at, next, |raw|);
    assert raw[next..] == raw[next..|raw|] && raw[at..] == raw[at..|raw|];
  }

  // ---------------------------------------------------------------- completeness

  lemma DataEnds(raw: seq<Byte>, at: nat)
    requires at < |raw| && raw[at] == 0
    ensures ReadData(raw, at) == Some(([], at + 1))
  {
  }

  lemma DataNext(raw: seq<Byte>, at: nat, next: nat, first: seq<Byte>, rest: seq<seq<Byte>>)
    requires at < next <= |raw| && raw[at] > 0 && next == at + 1 + raw[at] && raw[at + 1..next] == first
    requires ReadData(raw, next).Some? && ReadData(raw, next).value.0 == rest
    ensures ReadData(raw, at) == Some(([first] + rest, ReadData(raw, next).value.1))
  {
  }

  lemma {:induction false} DataFound(raw: seq<Byte>, at: nat, data: seq<seq<Byte>>)
    requires at <= |raw| && DataFits(data) && DataBytes(data) <= raw[at..]
    ensures ReadData(raw, at) == Some((data, at + |DataBytes(data)|))
    decreases |data|
  {
    hide ReadData;
    if data == [] {
      assert raw[at] == DataBytes(data)[0];
      DataEnds(raw, at);
    } else {
      var size: Byte := |data[0]|;
      var rest := DataBytes(data[1..]);
      assert DataBytes(data) == [size] + (data[0] + rest);
      Dropped(raw, at, [size], data[0] + rest);
      Dropped(raw, at + 1, data[0], rest);
      DataFound(raw, at + 1 + size, data[1..]);
      DataNext(raw, at, at + 1 + size, data[0], data[1..]);
      assert [data[0]] + data[1..] == data;
    }
  }

  lemma ImageParts(raw: seq<Byte>, at: nat, b: Block)
    requires at <= |raw| && BlockFits(b) && b.Image? && BlockBytes(b) <= raw[at..]
    ensures var code := at + 10 + |b.table|;
            && code < |raw| && raw[at] == IMAGE && raw[at + 1..at + 10] == b.descriptor
            && raw[at + 10..code] == b.table && raw[code] == b.codeSize
            && DataBytes(b.data) <= raw[code + 1..]
    ensures |BlockBytes(b)| == 11 + |b.table| + |DataBytes(b.data)|
  {
    var data := DataBytes(b.data);
    var afterTable := [b.codeSize] + data;
    ImageSpelt(b, data);
    hide BlockBytes, DataBytes, BlockFits;
    DroppedTwice(raw, at, [IMAGE], b.descriptor, b.table + afterTable);
    DroppedTwice(raw, at + 10, b.table, [b.codeSize], data);
    assert raw[at] == raw[at..at + 1][0];
    var code := at + 10 + |b.table|;
    assert raw[code] == raw[code..code + 1][0];
  }

  lemma ImageSpelt(b: Block, data: seq<Byte>)
    requires BlockFits(b) && b.Image? && data == DataBytes(b.data)
    ensures BlockBytes(b) == [IMAGE] + (b.descriptor + (b.table + ([b.codeSize] + data)))
    ensures |b.descriptor| == 9
  {
  }

  lemma ImageCode(raw: seq<Byte>, at: nat, code: nat)
    requires at + 10 <= code < |raw| && raw[at] == IMAGE
    requires Dimensions(Le16(raw[at + 1..at + 10], 4), Le16(raw[at + 1..at + 10], 6))
    requires code == at + 10 + TableSize(raw[at + 9]) && 2 <= raw[code] <= 8
    ensures CodeSizeAt(raw, at + 1) == Some(code)
  {
    var descriptor := raw[at + 1..at + 10];
    assert Le16(raw, at + 5) == Le16(descriptor, 4) && Le16(raw, at + 7) == Le16(descriptor, 6);
  }

  lemma ImageFound(raw: seq<Byte>, at: nat, b: Block)
    requires at <= |raw| && BlockFits(b) && b.Image? && BlockBytes(b) <= raw[at..]
    ensures at < |raw| && ReadBlock(raw, at) == Some((b, at + |BlockBytes(b)|)) && raw[at] == IMAGE
  {
    hide ReadData, ReadBlock, CodeSizeAt, Dimensions, DataBytes;
    ImageParts(raw, at, b);
    var code := at + 10 + |b.table|;
    assert raw[at + 9] == raw[at + 1..at + 10][8];
    ImageCode(raw, at, code);
    DataFound(raw, code + 1, b.data);
    ReadImage(raw, at, code, b.data, code + 1 + |DataBytes(b.data)|);
  }

  lemma ReadImage(raw: seq<Byte>, at: nat, code: nat, data: seq<seq<Byte>>, end: nat)
    requires at < code < |raw| && raw[at] == IMAGE && CodeSizeAt(raw, at + 1) == Some(code)
    requires ReadData(raw, code + 1) == Some((data, end))
    ensures ReadBlock(raw, at) == Some((Image(raw[at + 1..at + 10], raw[at + 10..code], raw[code], data), end))
  {
    hide CodeSizeAt, ReadData;
  }

  lemma BlockFound(raw: seq<Byte>, at: nat, b: Block)
    requires at <= |raw| && BlockFits(b) && BlockBytes(b) <= raw[at..]
    ensures at < |raw| && ReadBlock(raw, at) == Some((b, at + |BlockBytes(b)|))
    ensures raw[at] != TRAILER
  {
    hide ReadData, DataBytes;
    if b.Image? {
      ImageFound(raw, at, b);
    } else {
      Dropped(raw, at, [EXTENSION, b.tag], DataBytes(b.data));
      assert raw[at] == EXTENSION && raw[at + 1] == b.tag;
      DataFound(raw, at + 2, b.data);
    }
  }

  lemma ReadStep(raw: seq<Byte>, at: nat, block: Block, next: nat, rest: seq<Block>)
    requires at < |raw| && raw[at] != TRAILER && ReadBlock(raw, at) == Some((block, next))
    requires ReadBlocks(raw, next) == Some(rest)
    ensures ReadBlocks(raw, at) == Some([block] + rest)
  {
  }

  lemma {:induction false} BlocksFound(raw: seq<Byte>, at: nat, blocks: seq<Block>)
    requires at <= |raw| && BlocksFit(blocks) && raw[at..] == BlocksBytes(blocks)
    ensures ReadBlocks(raw, at) == Some(blocks)
    decreases |blocks|
  {
    hide ReadBlock, BlockBytes;
    if blocks == [] {
      assert raw[at] == BlocksBytes(blocks)[0];
    } else {
      var next := at + |BlockBytes(blocks[0])|;
      Dropped(raw, at, BlockBytes(blocks[0]), BlocksBytes(blocks[1..]));
      BlockFound(raw, at, blocks[0]);
      BlocksFound(raw, next, blocks[1..]);
      ReadStep(raw, at, blocks[0], next, blocks[1..]);
      assert [blocks[0]] + blocks[1..] == blocks;
    }
  }

  // ---------------------------------------------------------------- the validator

  ghost predicate WellFormed(raw: seq<Byte>) {
    exists f :: FileFits(f) && FileBytes(f) == raw
  }

  predicate Accepted(raw: seq<Byte>) {
    && |raw| >= 14
    && Dimensions(Le16(raw, 6), Le16(raw, 8))
    && var blocks := ReadBlocks(raw, BlocksStart(raw));
    && blocks.Some? && HasImage(blocks.value)
  }

  lemma Sound(raw: seq<Byte>)
    requires Accepted(raw)
    ensures WellFormed(raw)
  {
    hide BlocksBytes, ReadBlocks, Dimensions;
    var start := BlocksStart(raw);
    BlocksRead(raw, start);
    var f := File(raw[..13], raw[13..start], ReadBlocks(raw, start).value);
    assert raw == raw[..13] + raw[13..start] + raw[start..];
    assert FileFits(f) && FileBytes(f) == raw;
  }

  lemma Complete(raw: seq<Byte>, f: File)
    requires FileFits(f) && FileBytes(f) == raw
    ensures Accepted(raw)
  {
    hide BlocksBytes, ReadBlocks, Dimensions;
    assert f.header == raw[..13];
    var start := 13 + |f.table|;
    assert raw[start..] == BlocksBytes(f.blocks);
    BlocksFound(raw, start, f.blocks);
  }

  /** The scanner accepts exactly the files of the grammar. */
  lemma AcceptedIsWellFormed(raw: seq<Byte>)
    ensures Accepted(raw) <==> WellFormed(raw)
  {
    if Accepted(raw) {
      Sound(raw);
    }
    if f :| FileFits(f) && FileBytes(f) == raw {
      Complete(raw, f);
    }
  }

  predicate Pending(images: nat, blocks: Option<seq<Block>>) {
    blocks.Some? && (images > 0 || HasImage(blocks.value))
  }

  method ValidateGif(raw: seq<Byte>) returns (ok: bool)
    ensures ok <==> WellFormed(raw)
  {
    hide Dimensions, CodeSizeAt, ReadData, WellFormed;
    AcceptedIsWellFormed(raw);
    if |raw| < 14 {
      return false;
    }
    if !Dimensions(Le16(raw, 6), Le16(raw, 8)) {
      return false;
    }
    var position := 13 + TableSize(raw[10]);
    var images := 0;
    while position < |raw|
      invariant Accepted(raw) <==> Pending(images, ReadBlocks(raw, position))
      decreases |raw| - position
    {
      var block := raw[position];
      ghost var start := position;
      position := position + 1;
      if block == TRAILER {
        return images > 0 && position == |raw|;
      }
      if block == IMAGE {
        var code := SkipImage(raw, position);
        if code.None? {
          return false;
        }
        position := code.value + 1;
        images := images + 1;
      } else if block == EXTENSION {
        position := position + 1;
      } else {
        return false;
      }
      BlockAt(raw, start, position);
      position := SkipData(raw, position);
      if position > |raw| {
        return false;
      }
    }
    return false;
  }

  /** The image descriptor, its colour table and the code size that must follow. */
  method SkipImage(raw: seq<Byte>, at: nat) returns (code: Option<nat>)
    ensures code == CodeSizeAt(raw, at)
  {
    if at + 9 >= |raw| || !Dimensions(Le16(raw, at + 4), Le16(raw, at + 6)) {
      return None;
    }
    var position := at + 9 + TableSize(raw[at + 8]);
    if position >= |raw| || !(2 <= raw[position] <= 8) {
      return None;
    }
    return Some(position);
  }

  /** The inner loop: the end of the sub-blocks, or a position past the end of a truncated file. */
  method SkipData(raw: seq<Byte>, start: nat) returns (position: nat)
    ensures ReadData(raw, start).Some? ==> position == ReadData(raw, start).value.1
    ensures ReadData(raw, start).None? ==> position > |raw|
  {
    position := start;
    while true
      invariant position <= |raw| || position == start
      invariant ReadData(raw, start).Some? <==> ReadData(raw, position).Some?
      invariant ReadData(raw, start).Some? ==> ReadData(raw, start).value.1 == ReadData(raw, position).value.1
      decreases |raw| - position
    {
      if position >= |raw| {
        return |raw| + 1;
      }
      var size := raw[position];
      position := position + 1 + size;
      if position > |raw| {
        return;
      }
      if size == 0 {
        return;
      }
    }
  }

  /** What is left of a block is its data. */
  lemma BlockAt(raw: seq<Byte>, start: nat, data: nat)
    requires start < |raw| && raw[start] != TRAILER
    requires raw[start] == IMAGE ==> CodeSizeAt(raw, start + 1) == Some(data - 1)
    requires raw[start] == EXTENSION ==> data == start + 2
    requires raw[start] == IMAGE || raw[start] == EXTENSION
    ensures ReadBlocks(raw, start).Some? ==>
              ReadData(raw, data).Some? && ReadBlocks(raw, ReadData(raw, data).value.1).Some?
              && (HasImage(ReadBlocks(raw, start).value) <==>
                    raw[start] == IMAGE || HasImage(ReadBlocks(raw, ReadData(raw, data).value.1).value))
    ensures ReadData(raw, data).Some? && ReadBlocks(raw, ReadData(raw, data).value.1).Some? ==> ReadBlocks(raw, start).Some?
  {
    var blocks := ReadBlocks(raw, start);
    if blocks.Some? {
      var rest := ReadBlocks(raw, ReadData(raw, data).value.1).value;
      assert blocks.value[1..] == rest;
      assert blocks.value[0].Image? <==> raw[start] == IMAGE;
      if k :| 0 <= k < |rest| && rest[k].Image? {
        assert blocks.value[k + 1].Image?;
      }
    }
  }
}
