/**
 The PNG validator after its chunks are read: the pixel format, the size of the decoded
 scanlines, and the filter byte in front of each of them. Decompression is a parameter.
 */
module Png {
  import opened Adam7
  import opened Bytes
  import opened DeliveryTypes
  import opened PngChunks

  const MAX_DECODED: nat := 64 * 1024 * 1024

  /** A complete zlib stream to its output; None for anything else. */
  type Inflate = seq<Byte> -> Option<seq<Byte>>

  predicate DepthFits(color: Byte, depth: Byte) {
    match color
    case 0 => depth == 1 || depth == 2 || depth == 4 || depth == 8 || depth == 16
    case 2 => depth == 8 || depth == 16
    case 3 => depth == 1 || depth == 2 || depth == 4 || depth == 8
    case 4 => depth == 8 || depth == 16
    case 6 => depth == 8 || depth == 16
    case _ => false
  }

  function Channels(color: Byte): nat {
    match color
    case 2 => 3
    case 4 => 2
    case 6 => 4
    case _ => 1
  }

  predicate HeaderFits(h: seq<Byte>, palette: bool) {
    && |h| == 13 && Be32(h, 0) > 0 && Be32(h, 4) > 0
    && DepthFits(h[9], h[8])
    && h[10] == 0 && h[11] == 0 && (h[12] == 0 || h[12] == 1)
    && (h[9] == 3 ==> palette)
  }

  /**
   The colour types and depths of table 11.1 of the W3C PNG Specification. A colour type is a
   sum: 1 for a palette, 2 for colour, 4 for alpha; a pixel has one sample with a palette, and
   otherwise one or three and one more for alpha.
   */
  lemma FormatsAreTable(color: Byte, depth: Byte)
    ensures DepthFits(color, depth) <==>
              (color, depth) in {(0, 1), (0, 2), (0, 4), (0, 8), (0, 16), (2, 8), (2, 16), (3, 1), (3, 2), (3, 4), (3, 8),
                                 (4, 8), (4, 16), (6, 8), (6, 16)}
    ensures DepthFits(color, depth) ==>
              Channels(color) == if color % 2 == 1 then 1 else (if color / 2 % 2 == 1 then 3 else 1) + color / 4 % 2
  {
  }

  function BitsPerPixel(h: seq<Byte>): nat
    requires |h| == 13
  {
    Channels(h[9]) * h[8]
  }

  // ---------------------------------------------------------------- scanlines

  /** The rows of a pass, each `stride` bytes with its filter byte. */
  datatype Lines = Lines(rows: nat, stride: nat)

  /** A filter byte and the packed bits of one row. */
  function Stride(width: nat, bits: nat): (s: nat)
    ensures 8 * (s - 1) >= width * bits
    ensures s >= 1
    ensures 8 * (s - 1) < width * bits + 8
  {
    (width * bits + 7) / 8 + 1
  }

  function LinesOf(p: Pass, width: nat, height: nat, bits: nat): seq<Lines>
    requires Fits(p)
  {
    var w, h := Extent(width, p.x, p.dx), Extent(height, p.y, p.dy);
    if w > 0 && h > 0 then [Lines(h, Stride(w, bits))] else []
  }

  function Layout(passes: seq<Pass>, width: nat, height: nat, bits: nat): seq<Lines>
    requires forall k :: 0 <= k < |passes| ==> Fits(passes[k])
  {
    if passes == [] then []
    else
      var last := passes[|passes| - 1];
      assert Fits(last);
      Layout(passes[..|passes| - 1], width, height, bits) + LinesOf(last, width, height, bits)
  }

  function Size(l: Lines): nat {
    l.rows * l.stride
  }

  function Total(lines: seq<Lines>): nat {
    if lines == [] then 0 else Total(lines[..|lines| - 1]) + Size(lines[|lines| - 1])
  }

  lemma TotalAppend(lines: seq<Lines>, more: seq<Lines>)
    requires |more| <= 1
    ensures Total(lines + more) == Total(lines) + (if more == [] then 0 else Size(more[0]))
  {
    if more == [] {
      assert lines + more == lines;
    } else {
      assert (lines + more)[..|lines|] == lines;
    }
  }

  /** Where row r of pass s begins. */
  function RowStart(lines: seq<Lines>, s: nat, r: nat): nat
    requires s < |lines|
  {
    Total(lines[..s]) + r * lines[s].stride
  }

  lemma {:induction false} TotalGrows(lines: seq<Lines>, s: nat)
    requires s <= |lines|
    ensures Total(lines[..s]) <= Total(lines)
    decreases |lines|
  {
    if s < |lines| {
      TotalGrows(lines[..|lines| - 1], s);
      assert lines[..|lines| - 1][..s] == lines[..s];
    } else {
      assert lines[..s] == lines;
    }
  }

  /** Rows follow one another without gaps, and the last one ends where the passes do. */
  lemma RowsTile(lines: seq<Lines>, s: nat, r: nat)
    requires s < |lines| && r < lines[s].rows
    ensures RowStart(lines, s, r) + lines[s].stride
         == if r + 1 < lines[s].rows then RowStart(lines, s, r + 1) else Total(lines[..s + 1])
    ensures RowStart(lines, s, r) + lines[s].stride <= Total(lines)
  {
    var rows, stride := lines[s].rows, lines[s].stride;
    assert lines[..s + 1][..s] == lines[..s];
    RowInside(rows, stride, r);
    TotalGrows(lines, s + 1);
  }

  lemma RowInside(rows: nat, stride: nat, r: nat)
    requires r < rows
    ensures r * stride + stride == (r + 1) * stride <= rows * stride
    ensures r + 1 == rows ==> (r + 1) * stride == rows * stride
  {
    Distribute(r, 1, stride);
    Distribute(r + 1, rows - r - 1, stride);
  }

  lemma Distribute(a: nat, b: nat, c: nat)
    ensures a * c + b * c == (a + b) * c >= a * c
  {
  }

  /** Every scanline starts with a filter type that exists. */
  ghost predicate FiltersFit(decoded: seq<Byte>, lines: seq<Lines>) {
    forall s, r :: 0 <= s < |lines| && 0 <= r < lines[s].rows ==> FilterAt(decoded, lines, s, r)
  }

  ghost predicate FilterAt(decoded: seq<Byte>, lines: seq<Lines>, s: nat, r: nat)
    requires s < |lines|
  {
    RowStart(lines, s, r) < |decoded| && decoded[RowStart(lines, s, r)] <= 4
  }

  ghost predicate HaveBytes(lines: seq<Lines>) {
    forall s :: 0 <= s < |lines| ==> lines[s].stride >= 1
  }

  /** The offset visits exactly the row starts, in bounds, and ends at the end. */
  method CheckFilters(decoded: seq<Byte>, lines: seq<Lines>) returns (ok: bool)
    requires |decoded| == Total(lines) && HaveBytes(lines)
    ensures ok <==> FiltersFit(decoded, lines)
  {
    var offset, s := 0, 0;
    while s < |lines|
      invariant 0 <= s <= |lines| && offset == Total(lines[..s])
      invariant forall t, r :: 0 <= t < s && 0 <= r < lines[t].rows ==> FilterAt(decoded, lines, t, r)
    {
      var row := 0;
      while row < lines[s].rows
        invariant 0 <= row <= lines[s].rows && offset == RowStart(lines, s, row)
        invariant forall r :: 0 <= r < row ==> FilterAt(decoded, lines, s, r)
      {
        RowsTile(lines, s, row);
        assert offset + 1 <= offset + lines[s].stride <= |decoded|;
        if decoded[offset] > 4 {
          assert !FilterAt(decoded, lines, s, row);
          return false;
        }
        offset := offset + lines[s].stride;
        row := row + 1;
      }
      assert lines[..s + 1][..s] == lines[..s];
      s := s + 1;
    }
    assert lines[..s] == lines && offset == |decoded|;
    return true;
  }

  lemma LayoutStep(passes: seq<Pass>, width: nat, height: nat, bits: nat, n: nat)
    requires n < |passes| && forall k :: 0 <= k < |passes| ==> Fits(passes[k])
    ensures Layout(passes[..n + 1], width, height, bits)
         == Layout(passes[..n], width, height, bits) + LinesOf(passes[n], width, height, bits)
  {
    assert passes[..n + 1][..n] == passes[..n];
  }

  lemma NothingLaidOut(width: nat, height: nat, bits: nat)
    ensures Layout([], width, height, bits) == [] && Total([]) == 0
  {
  }

  /** The loop over the passes: their lines, and how many bytes they take together. */
  method Measure(passes: seq<Pass>, width: nat, height: nat, bits: nat) returns (lines: seq<Lines>, expected: nat)
    requires forall k :: 0 <= k < |passes| ==> Fits(passes[k])
    ensures lines == Layout(passes, width, height, bits) && expected == Total(lines) && HaveBytes(lines)
  {
    hide Extent, Stride, Size, Layout, Total;
    lines, expected := [], 0;
    NothingLaidOut(width, height, bits);
    assert passes[..0] == [];
    var n := 0;
    while n < |passes|
      invariant 0 <= n <= |passes|
      invariant lines == Layout(passes[..n], width, height, bits) && expected == Total(lines) && HaveBytes(lines)
    {
      var p := passes[n];
      assert Fits(p) && passes[..n + 1][..n] == passes[..n];
      var w, h := Extent(width, p.x, p.dx), Extent(height, p.y, p.dy);
      LayoutStep(passes, width, height, bits, n);
      if w > 0 && h > 0 {
        var line := Lines(h, Stride(w, bits));
        expected := expected + Size(line);
        TotalAppend(lines, [line]);
        lines := lines + [line];
      }
      n := n + 1;
    }
    assert passes[..n] == passes;
  }

  // ---------------------------------------------------------------- the validator

  lemma PassesFit(interlaced: bool)
    ensures forall k :: 0 <= k < |Passes(interlaced)| ==> Fits(Passes(interlaced)[k])
  {
  }

  function LayoutOf(h: seq<Byte>): seq<Lines>
    requires |h| == 13
  {
    PassesFit(h[12] == 1);
    Layout(Passes(h[12] == 1), Be32(h, 0), Be32(h, 4), BitsPerPixel(h))
  }

  ghost predicate PixelsFit(h: seq<Byte>, image: seq<Byte>, palette: bool, inflate: Inflate) {
    && HeaderFits(h, palette)
    && var lines := LayoutOf(h);
    && Total(lines) <= MAX_DECODED
    && inflate(image).Some? && |inflate(image).value| == Total(lines)
    && FiltersFit(inflate(image).value, lines)
  }

  ghost predicate ValidPng(raw: seq<Byte>, crc: Checksum, inflate: Inflate) {
    exists chunks: seq<Chunk> :: Splits(raw, chunks, crc)
                     && PixelsFit(chunks[0].data, ImageData(chunks), HasPalette(chunks), inflate)
  }

  method CheckPixels(h: seq<Byte>, image: seq<Byte>, palette: bool, inflate: Inflate) returns (ok: bool)
    requires |h| == 13
    ensures ok <==> PixelsFit(h, image, palette, inflate)
  {
    if !HeaderFits(h, palette) {
      return false;
    }
    PassesFit(h[12] == 1);
    var lines, expected := Measure(Passes(h[12] == 1), Be32(h, 0), Be32(h, 4), BitsPerPixel(h));
    if expected > MAX_DECODED {
      return false;
    }
    var decoded := inflate(image);
    if decoded.None? || |decoded.value| != expected {
      return false;
    }
    ok := CheckFilters(decoded.value, lines);
  }

  method ValidatePng(raw: seq<Byte>, crc: Checksum, inflate: Inflate) returns (ok: bool)
    ensures ok <==> ValidPng(raw, crc, inflate)
  {
    var found := ScanChunks(raw, crc);
    ghost var all := ReadChunks(raw, 8, crc);
    OnlyTheseChunks(raw, crc);
    if found.None? {
      return false;
    }
    assert |found.value.header| == 13 by {
      HeaderLength(all.value);
    }
    ok := CheckPixels(found.value.header, found.value.image, found.value.palette, inflate);
  }

  lemma HeaderLength(chunks: seq<Chunk>)
    requires AllFit(chunks) && Ordered(chunks)
    ensures |chunks[0].data| == 13
  {
    assert Placed(chunks, 0);
  }

  /** A file splits into chunks in one way only. */
  lemma OnlyTheseChunks(raw: seq<Byte>, crc: Checksum)
    ensures forall chunks: seq<Chunk> :: Splits(raw, chunks, crc) <==>
              AllFit(chunks) && ReadChunks(raw, 8, crc) == Some(chunks) && Ordered(chunks)
  {
    forall chunks: seq<Chunk> ensures Splits(raw, chunks, crc) <==>
                            AllFit(chunks) && ReadChunks(raw, 8, crc) == Some(chunks) && Ordered(chunks)
    {
      if AllFit(chunks) {
        SplitsIsRead(raw, chunks, crc);
      }
    }
  }
}
