/**
 The scanlines of a PNG: how many columns and rows each interlace pass holds, and where the
 filter bytes are. Section 8.2 of the W3C PNG Specification (ISO/IEC 15948).
 */
module Adam7 {
  import opened Bytes

  /** Column and row offsets and steps of one pass. */
  datatype Pass = Pass(x: nat, y: nat, dx: nat, dy: nat)

  const WHOLE: seq<Pass> := [Pass(0, 0, 1, 1)]
  const INTERLACED: seq<Pass> := [
    Pass(0, 0, 8, 8), Pass(4, 0, 8, 8), Pass(0, 4, 4, 8), Pass(2, 0, 4, 4), Pass(0, 2, 2, 4), Pass(1, 0, 2, 2), Pass(0, 1, 1, 2)]

  function Passes(interlaced: bool): seq<Pass> {
    if interlaced then INTERLACED else WHOLE
  }

  predicate Fits(p: Pass) {
    p.x < p.dx && p.y < p.dy
  }

  /** max(0, (n - first + step - 1) // step). */
  function Extent(n: nat, first: nat, step: nat): nat
    requires first < step
  {
    (n - first + step - 1) / step
  }

  predicate Hit(c: nat, first: nat, step: nat)
    requires step > 0
  {
    c % step == first
  }

  /** Whether the pass carries the pixel in column c and row r. */
  predicate Covers(p: Pass, c: nat, r: nat)
    requires Fits(p)
  {
    Hit(c, p.x, p.dx) && Hit(r, p.y, p.dy)
  }

  // ---------------------------------------------------------------- the formulas count pixels

  /** How many of the first n positions are hit. */
  function Hits(n: nat, first: nat, step: nat): nat
    requires step > 0
  {
    if n == 0 then 0 else Hits(n - 1, first, step) + (if Hit(n - 1, first, step) then 1 else 0)
  }

  lemma DivStep(n: nat, first: nat, step: nat)
    requires first < step
    ensures Extent(n + 1, first, step) == Extent(n, first, step) + (if Hit(n, first, step) then 1 else 0)
  {
    ExtentIs(n, first, step, n / step, n % step);
    if n % step + 1 < step {
      ExtentIs(n + 1, first, step, n / step, n % step + 1);
    } else {
      assert step * (n / step + 1) == step * (n / step) + step;
      ExtentIs(n + 1, first, step, n / step + 1, 0);
    }
  }

  /** Whole steps below n, and one more when the last one reaches past the offset. */
  lemma ExtentIs(n: nat, first: nat, step: nat, q: nat, r: nat)
    requires first < step && r < step && n == step * q + r
    ensures Extent(n, first, step) == q + (if r > first then 1 else 0)
  {
    if r > first {
      assert step * (q + 1) == step * q + step;
      DivIs(n - first + step - 1, step, q + 1, r - first - 1);
    } else {
      DivIs(n - first + step - 1, step, q, r - first + step - 1);
    }
  }

  lemma MulGrows(d: int, k: int)
    requires d >= 0
    ensures k >= 1 ==> d * k >= d
    ensures k <= -1 ==> d * k <= -d
  {
  }

  lemma DivIs(a: nat, d: nat, q: nat, r: nat)
    requires r < d && a == d * q + r
    ensures a / d == q
  {
    var k := a / d - q;
    assert a == d * (a / d) + a % d;
    assert d * k == d * (a / d) - d * q;
    MulGrows(d, k);
  }

  /** A pass is as wide as the columns it hits, and as high as the rows. */
  lemma {:induction false} ExtentCounts(n: nat, first: nat, step: nat)
    requires first < step
    ensures Extent(n, first, step) == Hits(n, first, step)
  {
    if n == 0 {
      DivIs(step - 1 - first, step, 0, step - 1 - first);
    } else {
      ExtentCounts(n - 1, first, step);
      DivStep(n - 1, first, step);
    }
  }

  // ---------------------------------------------------------------- the passes tile the image

  /** The pixels of the first r rows that a pass carries. */
  function Carried(p: Pass, width: nat, height: nat): nat
    requires Fits(p)
  {
    if height == 0 then 0
    else Carried(p, width, height - 1) + (if Hit(height - 1, p.y, p.dy) then Hits(width, p.x, p.dx) else 0)
  }

  lemma {:induction false} CarriedIs(p: Pass, width: nat, height: nat)
    requires Fits(p)
    ensures Carried(p, width, height) == Extent(width, p.x, p.dx) * Extent(height, p.y, p.dy)
  {
    ExtentCounts(width, p.x, p.dx);
    ExtentCounts(height, p.y, p.dy);
    if height > 0 {
      CarriedIs(p, width, height - 1);
      ExtentCounts(height - 1, p.y, p.dy);
      var w, h := Hits(width, p.x, p.dx), Hits(height - 1, p.y, p.dy);
      assert w * (h + 1) == w * h + w;
    }
  }

  /** The positions hit by a step are those hit by its two halves. */
  lemma {:induction false} HitsNest(n: nat, first: nat, step: nat, both: nat)
    requires first < step && both == 2 * step && (step == 1 || step == 2 || step == 4)
    ensures Hits(n, first, both) + Hits(n, first + step, both) == Hits(n, first, step)
  {
    if n > 0 {
      HitsNest(n - 1, first, step, both);
      HalfOrHalf(n - 1, first, step, both);
    }
  }

  lemma HalfOrHalf(c: nat, first: nat, step: nat, both: nat)
    requires first < step && both == 2 * step && (step == 1 || step == 2 || step == 4)
    ensures Hit(c, first, step) <==> Hit(c, first, both) || Hit(c, first + step, both)
  {
    if step == 4 {
      assert c % 4 == if c % 8 < 4 then c % 8 else c % 8 - 4;
    } else if step == 2 {
      assert c % 2 == if c % 4 < 2 then c % 4 else c % 4 - 2;
    } else {
      assert c % 1 == 0 && (c % 2 == 0 || c % 2 == 1);
    }
  }

  lemma {:induction false} HitsAll(n: nat)
    ensures Hits(n, 0, 1) == n
  {
    if n > 0 {
      HitsAll(n - 1);
    }
  }

  function Pixels(passes: seq<Pass>, width: nat, height: nat): nat
    requires forall k :: 0 <= k < |passes| ==> Fits(passes[k])
  {
    if passes == [] then 0
    else
      var p := passes[|passes| - 1];
      assert Fits(p);
      Pixels(passes[..|passes| - 1], width, height) + Extent(width, p.x, p.dx) * Extent(height, p.y, p.dy)
  }

  /** Rewriting the seven products two by two. */
  lemma Telescope(a0: nat, a1: nat, b1: nat, c1: nat, n: nat, p0: nat, p1: nat, q1: nat, r1: nat, m: nat)
    requires n == a0 + a1 + b1 + c1 && m == p0 + p1 + q1 + r1
    ensures a0 * p0 + a1 * p0 + (a0 + a1) * p1 + b1 * (p0 + p1) + (a0 + a1 + b1) * q1 + c1 * (p0 + p1 + q1) + n * r1 == n * m
  {
    var a, b := a0 + a1, a0 + a1 + b1;
    var p, q := p0 + p1, p0 + p1 + q1;
    assert a0 * p0 + a1 * p0 == a * p0;
    assert a * p0 + a * p1 == a * p;
    assert a * p + b1 * p == b * p;
    assert b * p + b * q1 == b * q;
    assert b * q + c1 * q == n * q;
    assert n * q + n * r1 == n * m;
  }

  /** Counting an axis by the offsets of the passes. */
  lemma Axis(n: nat)
    ensures Extent(n, 0, 8) + Extent(n, 4, 8) == Extent(n, 0, 4)
    ensures Extent(n, 0, 4) + Extent(n, 2, 4) == Extent(n, 0, 2)
    ensures Extent(n, 0, 2) + Extent(n, 1, 2) == Extent(n, 0, 1) == n
  {
    ExtentCounts(n, 0, 8);
    ExtentCounts(n, 4, 8);
    ExtentCounts(n, 0, 4);
    ExtentCounts(n, 2, 4);
    ExtentCounts(n, 0, 2);
    ExtentCounts(n, 1, 2);
    ExtentCounts(n, 0, 1);
    HitsNest(n, 0, 4, 8);
    HitsNest(n, 0, 2, 4);
    HitsNest(n, 0, 1, 2);
    HitsAll(n);
  }

  /** For every size the pass sizes add up to the whole image. */
  lemma PassesFillImage(interlaced: bool, width: nat, height: nat)
    ensures Pixels(Passes(interlaced), width, height) == width * height
  {
    hide Extent;
    Axis(width);
    Axis(height);
    if interlaced {
      Telescope(Extent(width, 0, 8), Extent(width, 4, 8), Extent(width, 2, 4), Extent(width, 1, 2), width,
                Extent(height, 0, 8), Extent(height, 4, 8), Extent(height, 2, 4), Extent(height, 1, 2), height);
      PixelsUnfold(width, height);
    } else {
      assert WHOLE[..0] == [];
      assert Pixels(WHOLE, width, height) == Pixels(WHOLE[..0], width, height) + width * height;
    }
  }

  lemma PixelsUnfold(w: nat, h: nat)
    ensures Pixels(INTERLACED, w, h)
         == Extent(w, 0, 8) * Extent(h, 0, 8) + Extent(w, 4, 8) * Extent(h, 0, 8) + Extent(w, 0, 4) * Extent(h, 4, 8)
          + Extent(w, 2, 4) * Extent(h, 0, 4) + Extent(w, 0, 2) * Extent(h, 2, 4) + Extent(w, 1, 2) * Extent(h, 0, 2)
          + Extent(w, 0, 1) * Extent(h, 1, 2)
  {
    var P := INTERLACED;
    hide Extent;
    PixelsTo(w, h, 7);
    PixelsTo(w, h, 6);
    PixelsTo(w, h, 5);
    PixelsTo(w, h, 4);
    PixelsTo(w, h, 3);
    PixelsTo(w, h, 2);
    PixelsTo(w, h, 1);
    assert P[..0] == [] && P[..7] == P;
  }

  lemma PixelsTo(w: nat, h: nat, k: nat)
    requires 0 < k <= 7
    ensures Pixels(INTERLACED[..k], w, h)
         == Pixels(INTERLACED[..k - 1], w, h)
          + Extent(w, INTERLACED[k - 1].x, INTERLACED[k - 1].dx) * Extent(h, INTERLACED[k - 1].y, INTERLACED[k - 1].dy)
  {
    assert INTERLACED[..k][..k - 1] == INTERLACED[..k - 1];
  }

  /** Every pixel is in exactly one pass. */
  lemma OnePassEach(interlaced: bool, c: nat, r: nat)
    ensures exists k :: 0 <= k < |Passes(interlaced)| && Covers(Passes(interlaced)[k], c, r)
    ensures forall j, k :: 0 <= j < k < |Passes(interlaced)| ==>
              !(Covers(Passes(interlaced)[j], c, r) && Covers(Passes(interlaced)[k], c, r))
  {
    HalfOrHalf(c, 0, 4, 8);
    HalfOrHalf(c, 0, 2, 4);
    HalfOrHalf(c, 0, 1, 2);
    HalfOrHalf(r, 0, 4, 8);
    HalfOrHalf(r, 0, 2, 4);
    HalfOrHalf(r, 0, 1, 2);
    var P := Passes(interlaced);
    if interlaced {
      var k := if Hit(r, 1, 2) then 6 else if Hit(c, 1, 2) then 5 else if Hit(r, 2, 4) then 4 else if Hit(c, 2, 4) then 3
               else if Hit(r, 4, 8) then 2 else if Hit(c, 4, 8) then 1 else 0;
      assert Covers(P[k], c, r);
    } else {
      assert Covers(P[0], c, r);
    }
  }
}
