/**
 The chunk scanner of the PNG validator: what it accepts is exactly a list of well-formed
 chunks in an allowed order, with the end chunk last and nothing after it. The checksum is a
 parameter; the eight signature bytes are checked by the caller.
 */
module PngChunks {
  import opened Bytes
  import opened DeliveryTypes

  const IHDR: seq<Byte> := [0x49, 0x48, 0x44, 0x52]
  const IDAT: seq<Byte> := [0x49, 0x44, 0x41, 0x54]
  const PLTE: seq<Byte> := [0x50, 0x4c, 0x54, 0x45]
  const IEND: seq<Byte> := [0x49, 0x45, 0x4e, 0x44]

  datatype Chunk = Chunk(kind: seq<Byte>, data: seq<Byte>)

  /** CRC-32 as a number. */
  type Checksum = seq<Byte> -> Word

  type Word = x: int | 0 <= x < 0x1_0000_0000

  predicate Letter(b: Byte) {
    0x41 <= b <= 0x5a || 0x61 <= b <= 0x7a
  }

  predicate KindFits(kind: seq<Byte>) {
    |kind| == 4 && Letter(kind[0]) && Letter(kind[1]) && Letter(kind[2]) && Letter(kind[3])
  }

  // ---------------------------------------------------------------- the grammar

  predicate ChunkFits(c: Chunk) {
    KindFits(c.kind) && |c.data| < 0x1_0000_0000
  }

  ghost function ChunkBytes(c: Chunk, crc: Checksum): (s: seq<Byte>)
    requires ChunkFits(c)
    ensures |s| == 12 + |c.data|
  {
    Be32Bytes(|c.data|) + c.kind + c.data + Be32Bytes(crc(c.kind + c.data))
  }

  ghost predicate AllFit(chunks: seq<Chunk>) {
    forall k :: 0 <= k < |chunks| ==> ChunkFits(chunks[k])
  }

  ghost function ChunksBytes(chunks: seq<Chunk>, crc: Checksum): seq<Byte>
    requires AllFit(chunks)
  {
    if chunks == [] then [] else ChunkBytes(chunks[0], crc) + ChunksBytes(chunks[1..], crc)
  }

  /** No image data before chunk k. */
  predicate BeforeImage(chunks: seq<Chunk>, k: nat)
    requires k <= |chunks|
  {
    forall j :: 0 <= j < k ==> chunks[j].kind != IDAT
  }

  /** Where each kind of chunk may stand. */
  predicate Placed(chunks: seq<Chunk>, k: nat)
    requires k < |chunks| && |chunks[k].kind| == 4
  {
    var c := chunks[k];
    && (k == 0 <==> c.kind == IHDR)
    && (c.kind == IHDR ==> |c.data| == 13)
    && (c.kind == PLTE ==> BeforeImage(chunks, k) && 0 < |c.data| <= 768 && |c.data| % 3 == 0)
    && (c.kind == IEND ==> |c.data| == 0 && k == |chunks| - 1)
    && (c.kind[0] < 97 ==> c.kind == IHDR || c.kind == IDAT || c.kind == PLTE || c.kind == IEND)
  }

  ghost predicate Ordered(chunks: seq<Chunk>)
    requires AllFit(chunks)
  {
    && (forall k :: 0 <= k < |chunks| ==> Placed(chunks, k))
    && chunks != [] && chunks[|chunks| - 1].kind == IEND
    && !BeforeImage(chunks, |chunks|)
  }

  // ---------------------------------------------------------------- reading

  function ReadChunk(raw: seq<Byte>, at: nat, crc: Checksum): (r: Option<(Chunk, nat)>)
    ensures r.Some? ==> at + 12 <= r.value.1 <= |raw| && ChunkFits(r.value.0)
  {
    if at + 12 > |raw| then None
    else
      var length := Be32(raw, at);
      var end := at + 12 + length;
      var kind := raw[at + 4..at + 8];
      if end > |raw| || !KindFits(kind) then None
      else
        var data := raw[at + 8..at + 8 + length];
        Be32Small(raw, at);
        if crc(kind + data) != Be32(raw, at + 8 + length) then None else Some((Chunk(kind, data), end))
  }

  lemma Be32Small(raw: seq<Byte>, at: nat)
    requires at + 4 <= |raw|
    ensures Be32(raw, at) < 0x1_0000_0000
  {
  }

  function ReadChunks(raw: seq<Byte>, at: nat, crc: Checksum): (r: Option<seq<Chunk>>)
    ensures r.Some? ==> AllFit(r.value)
    decreases |raw| - at
  {
    if at >= |raw| then Some([])
    else
      var chunk := ReadChunk(raw, at, crc);
      if chunk.None? then None
      else
        var more := ReadChunks(raw, chunk.value.1, crc);
        if more.None? then None else Some([chunk.value.0] + more.value)
  }

  lemma ChunkRead(raw: seq<Byte>, at: nat, crc: Checksum)
    requires ReadChunk(raw, at, crc).Some?
    ensures var r := ReadChunk(raw, at, crc).value; raw[at..r.1] == ChunkBytes(r.0, crc)
  {
    var r := ReadChunk(raw, at, crc).value;
    var length := Be32(raw, at);
    hide Be32, Be32Bytes;
    Be32Writes(raw, at);
    Be32Writes(raw, at + 8 + length);
    Joined(raw, at, at + 4, at + 8);
    Joined(raw, at, at + 8, at + 8 + length);
    Joined(raw, at, at + 8 + length, r.1);
  }

  lemma {:induction false} ChunksRead(raw: seq<Byte>, at: nat, crc: Checksum)
    requires at <= |raw| && ReadChunks(raw, at, crc).Some?
    ensures raw[at..] == ChunksBytes(ReadChunks(raw, at, crc).value, crc)
    decreases |raw| - at
  {
    hide ReadChunk, ChunkBytes;
    if at < |raw| {
      ChunkRead(raw, at, crc);
      var r := ReadChunk(raw, at, crc).value;
      ChunksRead(raw, r.1, crc);
      var rest := ReadChunks(raw, r.1, crc).value;
      assert ([r.0] + rest)[1..] == rest;
      Joined(raw, at, r.1, |raw|);
      assert raw[r.1..] == raw[r.1..|raw|] && raw[at..] == raw[at..|raw|];
    }
  }

  lemma Be32At(raw: seq<Byte>, at: nat, n: nat)
    requires at + 4 <= |raw| && n < 0x1_0000_0000 && raw[at..at + 4] == Be32Bytes(n)
    ensures Be32(raw, at) == n
  {
    Be32Reads(n);
    var s := raw[at..at + 4];
    assert raw[at] == s[0] && raw[at + 1] == s[1] && raw[at + 2] == s[2] && raw[at + 3] == s[3];
  }

  lemma ChunkFound(raw: seq<Byte>, at: nat, c: Chunk, crc: Checksum)
    requires at <= |raw| && ChunkFits(c) && ChunkBytes(c, crc) <= raw[at..]
    ensures ReadChunk(raw, at, crc) == Some((c, at + |ChunkBytes(c, crc)|))
  {
    hide Be32, Be32Bytes, KindFits;
    ChunkParts(raw, at, c, crc);
    Be32At(raw, at, |c.data|);
    Be32At(raw, at + 8 + |c.data|, crc(c.kind + c.data));
  }

  lemma ChunkParts(raw: seq<Byte>, at: nat, c: Chunk, crc: Checksum)
    requires at <= |raw| && ChunkFits(c) && ChunkBytes(c, crc) <= raw[at..]
    ensures var data := at + 8 + |c.data|;
            && data + 4 <= |raw| && raw[at..at + 4] == Be32Bytes(|c.data|) && raw[at + 4..at + 8] == c.kind
            && raw[at + 8..data] == c.data && raw[data..data + 4] == Be32Bytes(crc(c.kind + c.data))
  {
    hide Be32Bytes, KindFits;
    var length, sum := Be32Bytes(|c.data|), Be32Bytes(crc(c.kind + c.data));
    FourLetters(c.kind);
    var afterKind := c.data + sum;
    var afterLength := c.kind + afterKind;
    assert ChunkBytes(c, crc) == length + afterLength;
    Dropped(raw, at, length, afterLength);
    Dropped(raw, at + 4, c.kind, afterKind);
    Dropped(raw, at + 8, c.data, sum);
  }

  lemma FourLetters(kind: seq<Byte>)
    requires KindFits(kind)
    ensures |kind| == 4
  {
  }

  lemma {:induction false} ChunksFound(raw: seq<Byte>, at: nat, chunks: seq<Chunk>, crc: Checksum)
    requires at <= |raw| && AllFit(chunks) && raw[at..] == ChunksBytes(chunks, crc)
    ensures ReadChunks(raw, at, crc) == Some(chunks)
    decreases |chunks|
  {
    hide ReadChunk, ChunkBytes;
    if chunks != [] {
      var first := ChunkBytes(chunks[0], crc);
      Dropped(raw, at, first, ChunksBytes(chunks[1..], crc));
      ChunkFound(raw, at, chunks[0], crc);
      ChunksFound(raw, at + |first|, chunks[1..], crc);
      assert [chunks[0]] + chunks[1..] == chunks;
    }
  }

  /** The chunks of a file, when it splits into chunks and they stand in order. */
  ghost predicate Splits(raw: seq<Byte>, chunks: seq<Chunk>, crc: Checksum) {
    |raw| >= 8 && AllFit(chunks) && raw[8..] == ChunksBytes(chunks, crc) && Ordered(chunks)
  }

  lemma SplitsIsRead(raw: seq<Byte>, chunks: seq<Chunk>, crc: Checksum)
    requires AllFit(chunks)
    ensures Splits(raw, chunks, crc) <==> ReadChunks(raw, 8, crc) == Some(chunks) && Ordered(chunks)
  {
    if Splits(raw, chunks, crc) {
      ChunksFound(raw, 8, chunks, crc);
    }
    if ReadChunks(raw, 8, crc) == Some(chunks) && Ordered(chunks) {
      ChunksRead(raw, 8, crc);
    }
  }

  // ---------------------------------------------------------------- the scanner

  function ImageData(chunks: seq<Chunk>): seq<Byte> {
    if chunks == [] then []
    else ImageData(chunks[..|chunks| - 1]) + (if chunks[|chunks| - 1].kind == IDAT then chunks[|chunks| - 1].data else [])
  }

  predicate HasPalette(chunks: seq<Chunk>) {
    exists k :: 0 <= k < |chunks| && chunks[k].kind == PLTE
  }

  /** What the loop collects. */
  datatype Found = Found(header: seq<Byte>, image: seq<Byte>, palette: bool)

  /** What the loop has collected after the first n chunks. */
  datatype Scan = Scan(header: Option<seq<Byte>>, image: seq<Byte>, images: nat, palette: bool, ended: bool)

  ghost predicate ScanFits(s: Scan, chunks: seq<Chunk>, n: nat)
    requires AllFit(chunks) && n <= |chunks|
  {
    && (forall k :: 0 <= k < n ==> Placed(chunks, k))
    && s.header == (if n == 0 then None else Some(chunks[0].data))
    && s.image == ImageData(chunks[..n])
    && (s.images == 0 <==> BeforeImage(chunks, n))
    && s.palette == HasPalette(chunks[..n])
    && s.ended == (n > 0 && chunks[n - 1].kind == IEND)
  }

  lemma PaletteStep(chunks: seq<Chunk>, n: nat)
    requires n < |chunks|
    ensures HasPalette(chunks[..n + 1]) <==> HasPalette(chunks[..n]) || chunks[n].kind == PLTE
    ensures ImageData(chunks[..n + 1]) == ImageData(chunks[..n]) + (if chunks[n].kind == IDAT then chunks[n].data else [])
  {
    assert chunks[..n + 1][..n] == chunks[..n];
    if k :| 0 <= k < n && chunks[..n][k].kind == PLTE {
      assert chunks[..n + 1][k].kind == PLTE;
    }
    if chunks[n].kind == PLTE {
      assert chunks[..n + 1][n].kind == PLTE;
    }
  }

  lemma NotEnded(s: Scan, chunks: seq<Chunk>, n: nat)
    requires AllFit(chunks) && n < |chunks| && ScanFits(s, chunks, n)
    ensures !s.ended
    ensures n > 0 <==> s.header.Some?
  {
    if n > 0 {
      assert Placed(chunks, n - 1);
    }
  }

  /** The next state fits when its fields follow the chunk's kind. */
  lemma FitsNext(s: Scan, chunks: seq<Chunk>, n: nat, t: Scan)
    requires AllFit(chunks) && n < |chunks| && ScanFits(s, chunks, n) && Placed(chunks, n)
    requires var c := chunks[n];
             && t.header == (if c.kind == IHDR then Some(c.data) else s.header)
             && t.image == (if c.kind == IDAT then s.image + c.data else s.image)
             && (t.images == if c.kind == IDAT then s.images + 1 else s.images)
             && t.palette == (s.palette || c.kind == PLTE) && t.ended == (s.ended || c.kind == IEND)
    ensures ScanFits(t, chunks, n + 1)
  {
    PaletteStep(chunks, n);
    NotEnded(s, chunks, n);
    assert ImageData(chunks[..n]) + [] == ImageData(chunks[..n]);
  }

  /** One chunk: its place is checked and its content kept. `all` is the whole file, if it can be read. */
  method Take(s: Scan, c: Chunk, last: bool, ghost all: Option<seq<Chunk>>, ghost n: nat) returns (next: Option<Scan>)
    requires |c.kind| == 4
    requires all.Some? ==>
               && AllFit(all.value) && n < |all.value| && all.value[n] == c && last == (n == |all.value| - 1)
               && ScanFits(s, all.value, n)
    ensures all.Some? ==> (next.Some? <==> Placed(all.value, n))
    ensures all.Some? && next.Some? ==> ScanFits(next.value, all.value, n + 1)
  {
    hide BeforeImage;
    if all.Some? {
      NotEnded(s, all.value, n);
    }
    if s.header.None? && c.kind != IHDR {
      return None;
    }
    var t := s;
    if c.kind == IHDR {
      if s.header.Some? || |c.data| != 13 {
        return None;
      }
      t := s.(header := Some(c.data));
    } else if c.kind == IDAT {
      t := s.(image := s.image + c.data, images := s.images + 1);
    } else if c.kind == PLTE {
      if s.images > 0 || |c.data| == 0 || |c.data| > 768 || |c.data| % 3 != 0 {
        return None;
      }
      t := s.(palette := true);
    } else if c.kind == IEND {
      if |c.data| > 0 || !last {
        return None;
      }
      t := s.(ended := true);
    } else if c.kind[0] < 97 {
      return None;
    }
    if all.Some? {
      FitsNext(s, all.value, n, t);
    }
    return Some(t);
  }

  /** A file with a misplaced chunk is not in order. */
  lemma Misplaced(chunks: seq<Chunk>, n: nat)
    requires AllFit(chunks) && n < |chunks| && !Placed(chunks, n)
    ensures !Ordered(chunks)
  {
  }

  lemma Finished(s: Scan, chunks: seq<Chunk>)
    requires AllFit(chunks) && ScanFits(s, chunks, |chunks|)
    ensures s.header.Some? && s.ended && s.images > 0 <==> Ordered(chunks)
    ensures s.image == ImageData(chunks) && s.palette == HasPalette(chunks)
  {
    assert chunks[..|chunks|] == chunks;
  }

  method ScanChunks(raw: seq<Byte>, crc: Checksum) returns (found: Option<Found>)
    ensures var chunks := ReadChunks(raw, 8, crc);
            && (found.Some? <==> chunks.Some? && Ordered(chunks.value))
            && (found.Some? ==> found.value == Found(chunks.value[0].data, ImageData(chunks.value), HasPalette(chunks.value)))
  {
    ghost var all := ReadChunks(raw, 8, crc);
    ghost var n := 0;
    var position: nat := 8;
    var s := Scan(None, [], 0, false, false);
    while position < |raw|
      invariant all.None? <==> ReadChunks(raw, position, crc).None?
      invariant all.Some? ==> n <= |all.value| && all.value[n..] == ReadChunks(raw, position, crc).value
      invariant all.Some? ==> ScanFits(s, all.value, n)
      decreases |raw| - position
    {
      hide ReadChunk, Placed, ScanFits, Ordered;
      var chunk := ReadChunk(raw, position, crc);
      if chunk.None? {
        return None;
      }
      var end := chunk.value.1;
      ghost var rest := ReadChunks(raw, end, crc);
      if all.Some? {
        assert all.value[n] == all.value[n..][0] == chunk.value.0;
        assert all.value[n + 1..] == all.value[n..][1..] == rest.value;
        assert end == |raw| <==> rest.value == [];
      }
      var next := Take(s, chunk.value.0, end == |raw|, all, n);
      if next.None? {
        if all.Some? {
          Misplaced(all.value, n);
        }
        return None;
      }
      s := next.value;
      n := n + 1;
      position := end;
    }
    Finished(s, all.value);
    if s.header.None? || !s.ended || s.images == 0 {
      return None;
    }
    found := Some(Found(s.header.value, s.image, s.palette));
  }
}
