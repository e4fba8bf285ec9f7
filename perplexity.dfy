/**
 * The horizontal perplexity scan of imagesplit.c: for every row of a strided
 * 8-bit grayscale buffer, a 5-pixel sliding window is moved along the row and
 * every pixel that differs from the window just before it (scaled by 5) by more
 * than 50 is counted as a transition.
 */
module Perplexity {

  type Byte = b: int | 0 <= b < 256

  /** Number of pixels in the sliding window. */
  const WindowWidth: nat := 5
  /** A transition is a difference strictly greater than this. */
  const Threshold: nat := 50

  function Sum(s: seq<Byte>): int
  {
    if s == [] then 0 else Sum(s[..|s| - 1]) + s[|s| - 1]
  }

  function Abs(x: int): nat
  {
    if x < 0 then -x else x
  }

  /** Pixel x of the row is a transition: 5 * row[x] is more than 50 away from the sum of the 5 pixels before it. */
  predicate IsTransition(row: seq<Byte>, x: nat)
    requires WindowWidth <= x < |row|
  {
    Abs(5 * row[x] - Sum(row[x - WindowWidth..x])) > Threshold
  }

  /** Number of transitions at positions 5 .. |row|-1 of one row: at most one per pixel after the first 5. */
  function RowCount(row: seq<Byte>): nat
  {
    if |row| <= WindowWidth then 0
    else RowCount(row[..|row| - 1]) + (if IsTransition(row, |row| - 1) then 1 else 0)
  }

  /** A buffer of this length holds `height` rows of `width` pixels, `stride` apart. */
  predicate Fits(length: nat, width: nat, height: nat, stride: nat)
  {
    height == 0 || (height - 1) * stride + width <= length
  }

  /** Row y of a fitting buffer lies inside it, and so do the rows before it. */
  lemma {:induction false} RowFits(length: nat, width: nat, height: nat, stride: nat, y: nat)
    requires Fits(length, width, height, stride) && y < height
    ensures y * stride + width <= length
    ensures Fits(length, width, y, stride)
  {
    assert (height - 1) * stride == y * stride + (height - 1 - y) * stride;
    if y > 0 {
      assert y * stride == (y - 1) * stride + stride;
    }
  }

  /** The first `height` rows of the buffer: row y is the `width` pixels from offset y * stride. */
  function Rows(pixels: seq<Byte>, width: nat, height: nat, stride: nat): (rows: seq<seq<Byte>>)
    requires Fits(|pixels|, width, height, stride)
    ensures |rows| == height
    ensures forall y | 0 <= y < height :: |rows[y]| == width
  {
    if height == 0 then []
    else
      RowFits(|pixels|, width, height, stride, height - 1);
      var start := (height - 1) * stride;
      Rows(pixels, width, height - 1, stride) + [pixels[start..start + width]]
  }

  /** Total transition count of a list of rows. */
  function Count(rows: seq<seq<Byte>>): nat
  {
    if rows == [] then 0 else Count(rows[..|rows| - 1]) + RowCount(rows[|rows| - 1])
  }

  /** Total transition count of the first `height` rows of the buffer. */
  function ImageCount(pixels: seq<Byte>, width: nat, height: nat, stride: nat): nat
    requires Fits(|pixels|, width, height, stride)
  {
    Count(Rows(pixels, width, height, stride))
  }

  /** Counting one more row adds that row's transitions. */
  lemma ImageCountStep(pixels: seq<Byte>, width: nat, y: nat, stride: nat)
    requires y * stride + width <= |pixels| && Fits(|pixels|, width, y, stride)
    ensures Fits(|pixels|, width, y + 1, stride)
    ensures ImageCount(pixels, width, y + 1, stride) ==
      ImageCount(pixels, width, y, stride) + RowCount(pixels[y * stride..y * stride + width])
  {
    assert Rows(pixels, width, y + 1, stride)[..y] == Rows(pixels, width, y, stride);
  }

  /** Extending a prefix by one element adds that element. */
  lemma {:induction false} SumExtend(s: seq<Byte>, x: nat)
    requires x < |s|
    ensures Sum(s[..x + 1]) == Sum(s[..x]) + s[x]
  {
    assert s[..x + 1][..x] == s[..x];
  }

  lemma {:induction false} SumFront(s: seq<Byte>)
    requires s != []
    ensures Sum(s) == s[0] + Sum(s[1..])
  {
    if |s| > 1 {
      SumFront(s[..|s| - 1]);
      assert s[..|s| - 1][1..] == s[1..][..|s| - 2];
    }
  }

  /** Moving a window one step right removes its first element and adds the next one. */
  lemma {:induction false} SumSlide(s: seq<Byte>, lo: nat, hi: nat)
    requires lo < hi < |s|
    ensures Sum(s[lo + 1..hi + 1]) == Sum(s[lo..hi]) - s[lo] + s[hi]
  {
    SumFront(s[lo..hi + 1]);
    assert s[lo..hi + 1][1..] == s[lo + 1..hi + 1];
    assert s[lo..hi + 1][..hi - lo] == s[lo..hi];
  }

  /** RowCount of a prefix one pixel longer adds the transition test of that pixel. */
  lemma {:induction false} RowCountStep(row: seq<Byte>, x: nat)
    requires WindowWidth <= x < |row|
    ensures RowCount(row[..x + 1]) == RowCount(row[..x]) + (if IsTransition(row, x) then 1 else 0)
  {
    var p := row[..x + 1];
    assert p[..|p| - 1] == row[..x];
    assert p[x - WindowWidth..x] == row[x - WindowWidth..x];
  }

  /**
   * One step of the scan at pixel x, given the window sum before it and the
   * pixels that leave and enter the window: the window slides, and the count
   * grows by the transition test of pixel x.
   */
  lemma {:induction false} ScanStep(row: seq<Byte>, x: nat, prevAvg: int, leaving: Byte, entering: Byte)
    requires WindowWidth <= x < |row|
    requires prevAvg == Sum(row[x - WindowWidth..x]) && leaving == row[x - WindowWidth] && entering == row[x]
    ensures Sum(row[x - WindowWidth + 1..x + 1]) == prevAvg - leaving + entering
    ensures RowCount(row[..x + 1]) == RowCount(row[..x]) + (if Abs(entering * 5 - prevAvg) > Threshold then 1 else 0)
  {
    SumSlide(row, x - WindowWidth, x);
    RowCountStep(row, x);
  }

  /** The first min(width, 5) pixels of the row seed the window sum. */
  method SeedWindow(pixels: array<Byte>, base: nat, width: nat) returns (windowSum: int)
    requires base + width <= pixels.Length
    ensures var n := if width < WindowWidth then width else WindowWidth;
      windowSum == Sum(pixels[base..base + width][..n])
  {
    ghost var row := pixels[base..base + width];
    windowSum := 0;
    for x := 0 to if width < WindowWidth then width else WindowWidth
      invariant windowSum == Sum(row[..x])
    {
      SumExtend(row, x);
      windowSum := windowSum + pixels[base + x];
    }
  }

  /**
   * One row of the scan of imagesplit.c: the `width` pixels from offset `base`.
   * The first 5 pixels seed the window sum; from pixel 5 on, `prevAvg` holds the
   * sum of the 5 pixels before the current one and `windowSum` is slid forward.
   */
  method RowTransitions(pixels: array<Byte>, base: nat, width: nat) returns (transitions: nat)
    requires base + width <= pixels.Length
    ensures transitions == RowCount(pixels[base..base + width])
  {
    ghost var row: seq<Byte> := pixels[base..base + width];
    var windowSum := SeedWindow(pixels, base, width);
    transitions := 0;
    if width < WindowWidth {
      return;
    }
    var prevAvg: int := windowSum;
    var x := WindowWidth;
    while x < width
      invariant WindowWidth <= x <= width
      invariant windowSum == prevAvg == Sum(row[x - WindowWidth..x])
      invariant transitions == RowCount(row[..x])
    {
      var leaving, entering := pixels[base + x - WindowWidth], pixels[base + x];
      assert leaving == row[x - WindowWidth] && entering == row[x];
      ScanStep(row, x, prevAvg, leaving, entering);
      windowSum := windowSum - leaving + entering;
      var currAvg := windowSum;
      var diff: int := entering * 5 - prevAvg;
      if diff < 0 {
        diff := -diff;
      }
      if diff > Threshold {
        transitions := transitions + 1;
      }
      prevAvg := currAvg;
      x := x + 1;
    }
    assert row[..width] == row;
  }

  /**
   * The scan of imagesplit.c. The buffer must hold `height` rows of `width`
   * pixels `stride` apart; only offsets y * stride + x with y < height and
   * x < width are read.
   * The float ratio count / (width * height) that the C function returns is
   * left to the caller.
   */
  method HorizontalPerplexity(pixels: array<Byte>, width: nat, height: nat, stride: nat) returns (count: nat)
    requires Fits(pixels.Length, width, height, stride)
    ensures count == ImageCount(pixels[..], width, height, stride)
  {
    ghost var image := pixels[..];
    count := 0;
    var y := 0;
    while y < height
      invariant y <= height && Fits(pixels.Length, width, y, stride)
      invariant count == ImageCount(image, width, y, stride)
    {
      RowFits(pixels.Length, width, height, stride, y);
      var transitions := RowTransitions(pixels, y * stride, width);
      ImageCountStep(image, width, y, stride);
      count := count + transitions;
      y := y + 1;
    }
  }

  lemma {:induction false} MulSplit(a: nat, b: nat)
    requires a > 0
    ensures a * b == (a - 1) * b + b
  {
  }

  lemma {:induction false} MulStrict(h: nat, a: nat, b: nat)
    requires h > 0 && a < b
    ensures h * a < h * b
  {
  }

  /** Pixels a row can contribute: those after the first 5. */
  function Scanned(width: nat): nat
  {
    if width > WindowWidth then width - WindowWidth else 0
  }

  /** The value imagesplit.c returns: transitions per pixel of the image. */
  function Ratio(count: nat, width: nat, height: nat): real
    requires width > 0 && height > 0
  {
    count as real / (width * height) as real
  }

  /** A row contributes at most one per pixel after its first 5. */
  lemma {:induction false} RowCountBound(row: seq<Byte>)
    ensures RowCount(row) <= Scanned(|row|)
  {
    if |row| > WindowWidth {
      RowCountBound(row[..|row| - 1]);
    }
  }

  /** Rows of `width` pixels contribute at most (width - 5) each. */
  lemma {:induction false} CountBound(rows: seq<seq<Byte>>, width: nat)
    requires forall y | 0 <= y < |rows| :: |rows[y]| == width
    ensures Count(rows) <= |rows| * Scanned(width)
  {
    if rows != [] {
      var init := rows[..|rows| - 1];
      assert forall y | 0 <= y < |init| :: init[y] == rows[y];
      CountBound(init, width);
      RowCountBound(rows[|rows| - 1]);
      MulSplit(|rows|, Scanned(width));
    }
  }

  /** Each row contributes at most one per pixel after its first 5. */
  lemma ImageCountBound(pixels: seq<Byte>, width: nat, height: nat, stride: nat)
    requires Fits(|pixels|, width, height, stride)
    ensures ImageCount(pixels, width, height, stride) <= height * Scanned(width)
  {
    CountBound(Rows(pixels, width, height, stride), width);
  }

  /** Rows narrower than the window contribute nothing. */
  lemma {:induction false} NarrowRowsCountNothing(rows: seq<seq<Byte>>)
    requires forall y | 0 <= y < |rows| :: |rows[y]| < WindowWidth
    ensures Count(rows) == 0
  {
    if rows != [] {
      var init := rows[..|rows| - 1];
      assert forall y | 0 <= y < |init| :: init[y] == rows[y];
      NarrowRowsCountNothing(init);
    }
  }

  /** An image narrower than the window has no transitions. */
  lemma NarrowImageCountsNothing(pixels: seq<Byte>, width: nat, height: nat, stride: nat)
    requires Fits(|pixels|, width, height, stride) && width < WindowWidth
    ensures ImageCount(pixels, width, height, stride) == 0
  {
    NarrowRowsCountNothing(Rows(pixels, width, height, stride));
  }

  lemma {:induction false} SumUniform(s: seq<Byte>, v: Byte)
    requires forall i | 0 <= i < |s| :: s[i] == v
    ensures Sum(s) == |s| * v
  {
    if s != [] {
      SumUniform(s[..|s| - 1], v);
    }
  }

  /** A row of one repeated value has no transitions: every difference is 5v - 5v. */
  lemma {:induction false} UniformRowCountsNothing(row: seq<Byte>)
    requires forall i | 0 <= i < |row| :: row[i] == row[0]
    ensures RowCount(row) == 0
  {
    if |row| > WindowWidth {
      var x := |row| - 1;
      UniformRowCountsNothing(row[..x]);
      SumUniform(row[x - WindowWidth..x], row[0]);
    }
  }

  lemma {:induction false} DivBelowOne(a: real, d: real)
    requires 0.0 <= a < d
    ensures 0.0 <= a / d < 1.0
  {
  }

  /** For a non-empty image the returned ratio lies in [0, 1). */
  lemma {:induction false} RatioInUnitInterval(pixels: seq<Byte>, width: nat, height: nat, stride: nat)
    requires Fits(|pixels|, width, height, stride) && width > 0 && height > 0
    ensures 0.0 <= Ratio(ImageCount(pixels, width, height, stride), width, height) < 1.0
  {
    var count := ImageCount(pixels, width, height, stride);
    ImageCountBound(pixels, width, height, stride);
    MulStrict(height, Scanned(width), width);
    assert count < width * height;
    DivBelowOne(count as real, (width * height) as real);
  }

  /** The pixel at column x of row y, or -1 past the end of the buffer. */
  function PixelAt(pixels: seq<Byte>, stride: nat, y: nat, x: nat): int
  {
    var i := y * stride + x;
    if i < |pixels| then pixels[i] else -1
  }

  /** Two buffers that agree on the pixels of row y hold the same row y. */
  lemma SameRow(p: seq<Byte>, q: seq<Byte>, width: nat, stride: nat, y: nat)
    requires y * stride + width <= |p| && y * stride + width <= |q|
    requires forall x | 0 <= x < width :: PixelAt(p, stride, y, x) == PixelAt(q, stride, y, x)
    ensures p[y * stride..y * stride + width] == q[y * stride..y * stride + width]
  {
    var start := y * stride;
    var rp, rq := p[start..start + width], q[start..start + width];
    forall x | 0 <= x < width
      ensures rp[x] == rq[x]
    {
      assert PixelAt(p, stride, y, x) == PixelAt(q, stride, y, x);
    }
  }

  /** Two buffers that agree on every pixel inside the rows have the same rows. */
  lemma {:induction false} SameRows(p: seq<Byte>, q: seq<Byte>, width: nat, height: nat, stride: nat)
    requires Fits(|p|, width, height, stride) && Fits(|q|, width, height, stride)
    requires forall y, x | 0 <= y < height && 0 <= x < width :: PixelAt(p, stride, y, x) == PixelAt(q, stride, y, x)
    ensures Rows(p, width, height, stride) == Rows(q, width, height, stride)
  {
    if height > 0 {
      RowFits(|p|, width, height, stride, height - 1);
      RowFits(|q|, width, height, stride, height - 1);
      SameRows(p, q, width, height - 1, stride);
      SameRow(p, q, width, stride, height - 1);
    }
  }

  /** The padding between rows (stride > width) and bytes after the last row never affect the count. */
  lemma CountIgnoresPadding(p: seq<Byte>, q: seq<Byte>, width: nat, height: nat, stride: nat)
    requires Fits(|p|, width, height, stride) && Fits(|q|, width, height, stride)
    requires forall y, x | 0 <= y < height && 0 <= x < width :: PixelAt(p, stride, y, x) == PixelAt(q, stride, y, x)
    ensures ImageCount(p, width, height, stride) == ImageCount(q, width, height, stride)
  {
    SameRows(p, q, width, height, stride);
  }
}
