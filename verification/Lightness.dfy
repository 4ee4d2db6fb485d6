/**
 `compute_lightness_histogram` of src/algorithm.cpp over an array of lightness values, and
 what matching two such histograms means for the images they were taken from.
 */
module Lightness {
  import opened Matching
  import opened Interpolation

  /** Lightness values on the quantum scale. */
  predicate Pixels(pixels: seq<real>, quantumRange: real) {
    quantumRange > 0.0 && forall k | 0 <= k < |pixels| :: 0.0 <= pixels[k] <= quantumRange
  }

  /** The rounded bucket of one pixel. */
  function Bucket(pixel: real, quantumRange: real, segments: nat): (bucket: nat)
    requires segments >= 2 && quantumRange > 0.0 && 0.0 <= pixel <= quantumRange
    ensures bucket < segments
  {
    PositionInRange(pixel, quantumRange, segments);
    Round(BinPosition(pixel, quantumRange, segments))
  }

  /** It is the nearest one; half-way between two it is the upper one. */
  lemma BucketIsNearest(pixel: real, quantumRange: real, segments: nat, b: nat)
    requires segments >= 2 && quantumRange > 0.0 && 0.0 <= pixel <= quantumRange
    ensures Bucket(pixel, quantumRange, segments) == b <==>
            -0.5 <= pixel / quantumRange * (segments - 1) as real - b as real < 0.5
  {
    PositionInRange(pixel, quantumRange, segments);
  }

  /** How many pixels fall into bucket `b`. */
  function CountIn(pixels: seq<real>, quantumRange: real, segments: nat, b: nat): nat
    requires segments >= 2 && Pixels(pixels, quantumRange)
  {
    if pixels == [] then 0
    else
      var last := |pixels| - 1;
      CountIn(pixels[..last], quantumRange, segments, b)
      + if Bucket(pixels[last], quantumRange, segments) == b then 1 else 0
  }

  /** How many pixels fall into a bucket below `b`. */
  function CountBelow(pixels: seq<real>, quantumRange: real, segments: nat, b: nat): nat
    requires segments >= 2 && Pixels(pixels, quantumRange)
  {
    if pixels == [] then 0
    else
      var last := |pixels| - 1;
      CountBelow(pixels[..last], quantumRange, segments, b)
      + if Bucket(pixels[last], quantumRange, segments) < b then 1 else 0
  }

  /** The share of an image that is darker than bucket `b`. */
  function FractionBelow(pixels: seq<real>, quantumRange: real, segments: nat, b: nat): real
    requires segments >= 2 && Pixels(pixels, quantumRange) && pixels != []
  {
    CountBelow(pixels, quantumRange, segments, b) as real / |pixels| as real
  }

  function LightnessHistogram(pixels: seq<real>, quantumRange: real, segments: nat): (h: seq<real>)
    requires segments >= 2 && Pixels(pixels, quantumRange) && pixels != []
    ensures |h| == segments
  {
    seq(segments, b requires 0 <= b < segments =>
      CountIn(pixels, quantumRange, segments, b) as real / |pixels| as real)
  }

  lemma ProductAtLeast(k: nat, columns: nat)
    requires k >= 1
    ensures k * columns >= columns
  {
    assert k * columns == (k - 1) * columns + columns;
  }

  lemma PixelIndex(x: nat, y: nat, columns: nat, rows: nat)
    requires x < columns && y < rows
    ensures x + y * columns < rows * columns
  {
    ProductAtLeast(rows - y, columns);
    assert rows * columns == (rows - y) * columns + y * columns;
  }

  lemma CountSnoc(pixels: seq<real>, quantumRange: real, segments: nat, k: nat, b: nat)
    requires segments >= 2 && Pixels(pixels, quantumRange) && k < |pixels|
    ensures CountIn(pixels[..k + 1], quantumRange, segments, b)
         == CountIn(pixels[..k], quantumRange, segments, b)
            + if Bucket(pixels[k], quantumRange, segments) == b then 1 else 0
  {
    assert pixels[..k + 1][..k] == pixels[..k];
  }

  /** The counters after the first `k` pixels of the buffer. */
  predicate Counted(counts: seq<nat>, pixels: seq<real>, quantumRange: real, k: nat)
    requires Pixels(pixels, quantumRange) && k <= |pixels| && |counts| >= 2
  {
    forall b | 0 <= b < |counts| :: counts[b] == CountIn(pixels[..k], quantumRange, |counts|, b)
  }

  lemma CountOne(counts: seq<nat>, pixels: seq<real>, quantumRange: real, k: nat)
    requires Pixels(pixels, quantumRange) && k < |pixels| && |counts| >= 2
    requires Counted(counts, pixels, quantumRange, k)
    ensures var bucket := Bucket(pixels[k], quantumRange, |counts|);
            Counted(counts[bucket := counts[bucket] + 1], pixels, quantumRange, k + 1)
  {
    forall b | 0 <= b < |counts|
      ensures CountIn(pixels[..k + 1], quantumRange, |counts|, b)
           == counts[b] + if Bucket(pixels[k], quantumRange, |counts|) == b then 1 else 0
    {
      CountSnoc(pixels, quantumRange, |counts|, k, b);
    }
  }

  /** The counting loops, row by row; every bucket is an index of the array. */
  method CountPixels(pixels: seq<real>, rows: nat, columns: nat, quantumRange: real, segments: nat)
    returns (counts: array<nat>)
    requires segments >= 2 && Pixels(pixels, quantumRange) && |pixels| == rows * columns
    ensures counts.Length == segments && Counted(counts[..], pixels, quantumRange, |pixels|)
  {
    counts := new nat[segments](_ => 0);
    var y := 0;
    ghost var start := 0;
    while y < rows
      invariant 0 <= y <= rows && start == y * columns <= |pixels|
      invariant counts.Length == segments && Counted(counts[..], pixels, quantumRange, start)
    {
      assert (y + 1) * columns == start + columns;
      var x := 0;
      while x < columns
        invariant 0 <= x <= columns && 0 <= start + x <= |pixels|
        invariant counts.Length == segments && Counted(counts[..], pixels, quantumRange, start + x)
      {
        PixelIndex(x, y, columns, rows);
        var bucket := Bucket(pixels[x + y * columns], quantumRange, segments);
        CountOne(counts[..], pixels, quantumRange, start + x);
        ghost var before := counts[..];
        counts[bucket] := counts[bucket] + 1;
        assert counts[..] == before[bucket := before[bucket] + 1];
        x := x + 1;
      }
      y, start := y + 1, start + columns;
    }
  }

  /** The loop that turns counters into proportions. */
  method Proportions(counts: array<nat>, pixelCount: real) returns (proportional: seq<real>)
    requires pixelCount > 0.0
    ensures |proportional| == counts.Length
    ensures forall b | 0 <= b < counts.Length :: proportional[b] == counts[b] as real / pixelCount
  {
    var histogram := new real[counts.Length](_ => 0.0);
    var i := 0;
    while i < counts.Length
      invariant 0 <= i <= counts.Length
      invariant forall b | 0 <= b < i :: histogram[b] == counts[b] as real / pixelCount
    {
      histogram[i] := counts[i] as real / pixelCount;
      i := i + 1;
    }
    proportional := histogram[..];
  }

  lemma ProductAsReal(rows: nat, columns: nat)
    ensures rows as real * columns as real == (rows * columns) as real
  {
  }

  method ComputeLightnessHistogram(pixels: seq<real>, rows: nat, columns: nat,
                                   quantumRange: real, segments: nat)
    returns (histogram: seq<real>)
    requires segments >= 2 && Pixels(pixels, quantumRange)
    requires |pixels| == rows * columns > 0
    ensures histogram == LightnessHistogram(pixels, quantumRange, segments)
  {
    var counts := CountPixels(pixels, rows, columns, quantumRange, segments);
    ProductAsReal(rows, columns);
    histogram := Proportions(counts, rows as real * columns as real);
    assert pixels[..|pixels|] == pixels;
  }

  lemma {:induction false} CountBelowStep(pixels: seq<real>, quantumRange: real, segments: nat, b: nat)
    requires segments >= 2 && Pixels(pixels, quantumRange)
    ensures CountBelow(pixels, quantumRange, segments, b + 1)
         == CountBelow(pixels, quantumRange, segments, b) + CountIn(pixels, quantumRange, segments, b)
    decreases |pixels|
  {
    if pixels != [] { CountBelowStep(pixels[..|pixels| - 1], quantumRange, segments, b); }
  }

  lemma {:induction false} CountBelowEnds(pixels: seq<real>, quantumRange: real, segments: nat)
    requires segments >= 2 && Pixels(pixels, quantumRange)
    ensures CountBelow(pixels, quantumRange, segments, 0) == 0
    ensures CountBelow(pixels, quantumRange, segments, segments) == |pixels|
    decreases |pixels|
  {
    if pixels != [] { CountBelowEnds(pixels[..|pixels| - 1], quantumRange, segments); }
  }

  /** The running sum over a lightness histogram is the exact share of darker pixels. */
  lemma {:induction false} CumulativeIsFraction(pixels: seq<real>, quantumRange: real, segments: nat, b: nat)
    requires segments >= 2 && Pixels(pixels, quantumRange) && pixels != [] && b <= segments
    ensures Below(LightnessHistogram(pixels, quantumRange, segments), b)
         == FractionBelow(pixels, quantumRange, segments, b)
    decreases b
  {
    var n := |pixels| as real;
    if b == 0 {
      CountBelowEnds(pixels, quantumRange, segments);
    } else {
      CumulativeIsFraction(pixels, quantumRange, segments, b - 1);
      CountBelowStep(pixels, quantumRange, segments, b - 1);
      AddFractions(CountBelow(pixels, quantumRange, segments, b - 1) as real,
                   CountIn(pixels, quantumRange, segments, b - 1) as real, n);
    }
  }

  lemma AddFractions(x: real, y: real, n: real)
    requires n > 0.0
    ensures x / n + y / n == (x + y) / n
  {
  }

  lemma FractionsSumToOne(pixels: seq<real>, quantumRange: real, segments: nat)
    requires segments >= 2 && Pixels(pixels, quantumRange) && pixels != []
    ensures Below(LightnessHistogram(pixels, quantumRange, segments), segments) == 1.0
  {
    CumulativeIsFraction(pixels, quantumRange, segments, segments);
    CountBelowEnds(pixels, quantumRange, segments);
    WholeIsOne(|pixels| as real);
  }

  lemma WholeIsOne(n: real)
    requires n > 0.0
    ensures n / n == 1.0
  {
  }

  /** A lightness histogram has non-negative bins that sum to one. */
  lemma LightnessHistogramIsDistribution(pixels: seq<real>, quantumRange: real, segments: nat)
    requires segments >= 2 && Pixels(pixels, quantumRange) && pixels != []
    ensures NonNegative(LightnessHistogram(pixels, quantumRange, segments))
    ensures Below(LightnessHistogram(pixels, quantumRange, segments), segments) == 1.0
  {
    FractionsSumToOne(pixels, quantumRange, segments);
    forall b | 0 <= b < segments
      ensures LightnessHistogram(pixels, quantumRange, segments)[b] >= 0.0
    {
      DividePositive(CountIn(pixels, quantumRange, segments, b) as real, |pixels| as real);
    }
  }

  /**
   For any two images, the share of the current one below a bin and the share of the
   previous one below its matched bin differ by at most the fullest previous bin.
   */
  lemma MatchedImagesAgree(previous: seq<real>, current: seq<real>, quantumRange: real,
                           segments: nat, i: nat, largest: real)
    requires segments >= 2 && previous != [] && current != []
    requires Pixels(previous, quantumRange) && Pixels(current, quantumRange)
    requires i < segments - 1
    requires BinsAtMost(LightnessHistogram(previous, quantumRange, segments), largest)
    ensures var m := MatchedBin(LightnessHistogram(previous, quantumRange, segments),
                                LightnessHistogram(current, quantumRange, segments), i);
            -largest
            <= FractionBelow(previous, quantumRange, segments, m)
               - FractionBelow(current, quantumRange, segments, i)
            <= largest
  {
    var prev := LightnessHistogram(previous, quantumRange, segments);
    var cur := LightnessHistogram(current, quantumRange, segments);
    LightnessHistogramIsDistribution(previous, quantumRange, segments);
    LightnessHistogramIsDistribution(current, quantumRange, segments);
    MatchedFractionsAreClose(prev, cur, i, largest);
    CumulativeIsFraction(previous, quantumRange, segments, MatchedBin(prev, cur, i));
    CumulativeIsFraction(current, quantumRange, segments, i);
  }
}
