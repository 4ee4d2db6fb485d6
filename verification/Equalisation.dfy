/**
 What the algorithm is for: mapping every pixel of the current image through the table makes
 its distribution of lightness follow the previous image's.
 */
module Equalisation {
  import opened Matching
  import opened Interpolation
  import opened Lightness

  /** The lightness values after equalisation. */
  function Equalised(pixels: seq<real>, table: seq<real>, quantumRange: real): (image: seq<real>)
    requires |table| >= 2 && Pixels(pixels, quantumRange)
    ensures |image| == |pixels|
  {
    seq(|pixels|, k requires 0 <= k < |pixels| => LinearMap(pixels[k], table, quantumRange))
  }

  // ---------------------------------------------------------------- the pixel buffer

  /** The first of the three channels of every pixel. */
  function Lightnesses(buffer: seq<real>): (channel: seq<real>)
    ensures |channel| == |buffer| / 3
  {
    seq(|buffer| / 3, k requires 0 <= k < |buffer| / 3 => buffer[3 * k])
  }

  /** The buffer with the first `done` entries treated. */
  predicate Mapped(before: seq<real>, after: seq<real>, table: seq<real>, quantumRange: real, done: nat)
    requires |table| >= 2 && quantumRange > 0.0 && |before| == |after|
    requires forall k | 0 <= k < |before| && k % 3 == 0 :: 0.0 <= before[k] <= quantumRange
  {
    forall k | 0 <= k < |before| ::
      after[k] == if k < done && k % 3 == 0 then LinearMap(before[k], table, quantumRange) else before[k]
  }

  lemma LightnessesMapped(before: seq<real>, after: seq<real>, table: seq<real>, quantumRange: real)
    requires |table| >= 2 && quantumRange > 0.0 && |before| == |after|
    requires forall k | 0 <= k < |before| && k % 3 == 0 :: 0.0 <= before[k] <= quantumRange
    requires Mapped(before, after, table, quantumRange, |before|)
    ensures Pixels(Lightnesses(before), quantumRange)
    ensures Lightnesses(after) == Equalised(Lightnesses(before), table, quantumRange)
  {
    forall k | 0 <= k < |before| / 3
      ensures 0.0 <= Lightnesses(before)[k] <= quantumRange
      ensures Lightnesses(after)[k] == LinearMap(Lightnesses(before)[k], table, quantumRange)
    {
      assert 3 * k % 3 == 0;
      assert after[3 * k] == LinearMap(before[3 * k], table, quantumRange);
    }
  }

  lemma RowAfterRow(row: nat, columns: nat)
    ensures 3 * ((row + 1) * columns) == 3 * (row * columns) + 3 * columns
  {
  }

  lemma RowsFit(row: nat, rows: nat, columns: nat)
    requires row < rows
    ensures row * columns + columns <= rows * columns
  {
    ProductAtLeast(rows - row, columns);
    assert rows * columns == (rows - row) * columns + row * columns;
  }

  lemma MapNext(before: seq<real>, after: seq<real>, table: seq<real>, quantumRange: real, next: nat)
    requires |table| >= 2 && quantumRange > 0.0 && next < |before| == |after| && next % 3 == 0
    requires forall k | 0 <= k < |before| && k % 3 == 0 :: 0.0 <= before[k] <= quantumRange
    requires Mapped(before, after, table, quantumRange, next)
    ensures 0.0 <= after[next] <= quantumRange
    ensures Mapped(before, after[next := LinearMap(after[next], table, quantumRange)], table, quantumRange,
                   next + 3)
  {
  }

  /** One row, from entry `next` on. */
  method EqualiseRow(pixels: array<real>, next: nat, columns: nat, table: seq<real>, quantumRange: real,
                     ghost before: seq<real>)
    requires |table| >= 2 && quantumRange > 0.0 && |before| == pixels.Length
    requires next % 3 == 0 && next + 3 * columns <= pixels.Length
    requires forall k | 0 <= k < |before| && k % 3 == 0 :: 0.0 <= before[k] <= quantumRange
    requires Mapped(before, pixels[..], table, quantumRange, next)
    modifies pixels
    ensures Mapped(before, pixels[..], table, quantumRange, next + 3 * columns)
  {
    var pixel := next;
    for col := 0 to columns
      invariant pixel == next + 3 * col
      invariant Mapped(before, pixels[..], table, quantumRange, pixel)
    {
      ghost var was := pixels[..];
      MapNext(before, was, table, quantumRange, pixel);
      pixels[pixel] := LinearMap(pixels[pixel], table, quantumRange);
      assert pixels[..] == was[pixel := LinearMap(was[pixel], table, quantumRange)];
      pixel := pixel + 3;
    }
  }

  /** The loops of `image_equalise`: the lightness of every pixel, in place, row by row. */
  method EqualisePixels(pixels: array<real>, rows: nat, columns: nat, table: seq<real>, quantumRange: real)
    requires |table| >= 2 && quantumRange > 0.0 && pixels.Length == 3 * (rows * columns)
    requires forall k | 0 <= k < pixels.Length && k % 3 == 0 :: 0.0 <= pixels[k] <= quantumRange
    modifies pixels
    ensures forall k | 0 <= k < pixels.Length && k % 3 != 0 :: pixels[k] == old(pixels[k])
    ensures Pixels(Lightnesses(old(pixels[..])), quantumRange)
    ensures Lightnesses(pixels[..]) == Equalised(Lightnesses(old(pixels[..])), table, quantumRange)
  {
    ghost var before := pixels[..];
    var next := 0;
    var row := 0;
    while row < rows
      invariant 0 <= row <= rows && next == 3 * (row * columns) <= pixels.Length
      invariant Mapped(before, pixels[..], table, quantumRange, next)
    {
      RowAfterRow(row, columns);
      RowsFit(row, rows, columns);
      EqualiseRow(pixels, next, columns, table, quantumRange, before);
      next := next + 3 * columns;
      row := row + 1;
    }
    LightnessesMapped(before, pixels[..], table, quantumRange);
    ghost var after := pixels[..];
    assert forall k | 0 <= k < |before| && k % 3 != 0 :: after[k] == before[k];
  }

  // ---------------------------------------------------------------- shares of an image

  function CountLess(image: seq<real>, level: real): nat {
    if image == [] then 0
    else CountLess(image[..|image| - 1], level) + if image[|image| - 1] < level then 1 else 0
  }

  /** The share of an image that is darker than `level`. */
  function ShareBelow(image: seq<real>, level: real): real
    requires image != []
  {
    CountLess(image, level) as real / |image| as real
  }

  // ---------------------------------------------------------------- where a level is reached

  lemma {:induction false} FirstOfEqual(bins: seq<nat>, i: nat) returns (start: nat)
    requires i < |bins| && forall k | 0 < k < |bins| :: bins[k - 1] <= bins[k]
    ensures start <= i && bins[start] == bins[i]
    ensures start > 0 ==> bins[start - 1] < bins[start]
    decreases i
  {
    if i == 0 || bins[i - 1] < bins[i] {
      start := i;
    } else {
      start := FirstOfEqual(bins, i - 1);
    }
  }

  /** The first row that is matched with the same bin. */
  lemma FlatFrom(prev: seq<real>, cur: seq<real>, i: nat) returns (start: nat)
    requires Comparable(prev, cur) && i < |cur| - 1
    ensures start <= i && MatchedBin(prev, cur, start) == MatchedBin(prev, cur, i)
    ensures start > 0 ==> MatchedBin(prev, cur, start - 1) < MatchedBin(prev, cur, start)
  {
    var bins := seq(|cur|, k requires 0 <= k < |cur| => MatchedBin(prev, cur, k));
    forall k | 0 < k < |bins|
      ensures bins[k - 1] <= bins[k]
    {
      MatchedBinsAscend(prev, cur, k - 1, k);
    }
    start := FirstOfEqual(bins, i);
    assert bins[start] == MatchedBin(prev, cur, start);
    if start > 0 { assert bins[start - 1] == MatchedBin(prev, cur, start - 1); }
  }

  lemma LevelsStrict(a: nat, b: nat, quantumRange: real, segments: nat)
    requires a < b && quantumRange > 0.0 && segments > 0
    ensures Level(a, quantumRange, segments) < Level(b, quantumRange, segments)
  {
    var n := segments as real;
    DivideDifference(Scaled(b, quantumRange), Scaled(a, quantumRange), n);
    assert Scaled(b, quantumRange) - Scaled(a, quantumRange) == (b - a) as real * quantumRange;
    ScaleStrict((b - a) as real, quantumRange);
    DivideStrict((b - a) as real * quantumRange, n);
  }

  lemma DivideStrict(x: real, n: real)
    requires x > 0.0 && n > 0.0
    ensures x / n > 0.0
  {
  }

  lemma LerpStrict(a: real, b: real, t: real, top: real)
    requires a < top && b <= top && 0.0 <= t < 1.0
    ensures Lerp(a, b, t) < top
  {
    assert Lerp(a, b, t) == a * (1.0 - t) + b * t;
    ScaleStrict(top - a, 1.0 - t);
    ScalePositive(top - b, t);
    assert top - Lerp(a, b, t) == (top - a) * (1.0 - t) + (top - b) * t;
  }

  /** A row of the table is reached from its position on, and strictly not before it rises. */
  lemma ReachedFrom(table: seq<real>, start: nat, position: real)
    requires |table| >= 2 && Ascending(table) && start < |table| - 1
    requires start > 0 ==> table[start - 1] < table[start]
    requires 0.0 <= position <= (|table| - 1) as real
    ensures Interpolate(table, position) < table[start] <==> position < start as real
  {
    if position < start as real {
      var k := position.Floor;
      assert table[k] <= table[start - 1] && table[k + 1] <= table[start];
      LerpStrict(table[k], table[k + 1], position - k as real, table[start]);
    } else {
      InterpolateMonotone(table, start as real, position);
    }
  }

  lemma TableRises(prev: seq<real>, cur: seq<real>, quantumRange: real, start: nat)
    requires Comparable(prev, cur) && quantumRange > 0.0 && start < |cur| - 1
    requires start > 0 ==> MatchedBin(prev, cur, start - 1) < MatchedBin(prev, cur, start)
    ensures var table := Parameters(prev, cur, quantumRange);
            && table[start] == Level(MatchedBin(prev, cur, start), quantumRange, |cur|)
            && (start > 0 ==> table[start - 1] < table[start])
  {
    if start > 0 {
      LevelsStrict(MatchedBin(prev, cur, start - 1), MatchedBin(prev, cur, start), quantumRange, |cur|);
    }
  }

  /** A pixel ends up below the level of row `i` exactly when its position is before that row. */
  lemma PixelBelow(prev: seq<real>, cur: seq<real>, quantumRange: real, start: nat, pixel: real)
    requires Comparable(prev, cur) && quantumRange > 0.0 && 0.0 <= pixel <= quantumRange
    requires start < |cur| - 1
    requires start > 0 ==> MatchedBin(prev, cur, start - 1) < MatchedBin(prev, cur, start)
    ensures LinearMap(pixel, Parameters(prev, cur, quantumRange), quantumRange)
            < Level(MatchedBin(prev, cur, start), quantumRange, |cur|)
            <==> BinPosition(pixel, quantumRange, |cur|) < start as real
  {
    var table := Parameters(prev, cur, quantumRange);
    LinearMapInterpolates(pixel, table, quantumRange);
    ParametersAscend(prev, cur, quantumRange);
    TableRises(prev, cur, quantumRange, start);
    ReachedFrom(table, start, BinPosition(pixel, quantumRange, |cur|));
  }

  // ---------------------------------------------------------------- counting pixels

  /** Rounding moves a position by less than one bucket. */
  lemma BucketOf(pixel: real, quantumRange: real, segments: nat, b: nat)
    requires segments >= 2 && quantumRange > 0.0 && 0.0 <= pixel <= quantumRange
    ensures Bucket(pixel, quantumRange, segments) < b ==> BinPosition(pixel, quantumRange, segments) < b as real
    ensures BinPosition(pixel, quantumRange, segments) < b as real ==>
              Bucket(pixel, quantumRange, segments) < b + 1
  {
    PositionInRange(pixel, quantumRange, segments);
  }

  /** If a pixel's bucket decides up to one bucket whether its value is below a level, so do the counts. */
  lemma {:induction false} CountsBetween(pixels: seq<real>, image: seq<real>, quantumRange: real,
                                         segments: nat, level: real, lo: nat, hi: nat)
    requires segments >= 2 && Pixels(pixels, quantumRange) && |image| == |pixels|
    requires forall k | 0 <= k < |pixels| ::
               && (Bucket(pixels[k], quantumRange, segments) < lo ==> image[k] < level)
               && (image[k] < level ==> Bucket(pixels[k], quantumRange, segments) < hi)
    ensures CountBelow(pixels, quantumRange, segments, lo) <= CountLess(image, level)
    ensures CountLess(image, level) <= CountBelow(pixels, quantumRange, segments, hi)
    decreases |pixels|
  {
    if pixels != [] {
      var last := |pixels| - 1;
      CountsBetween(pixels[..last], image[..last], quantumRange, segments, level, lo, hi);
    }
  }

  lemma FractionsOrdered(a: nat, b: nat, n: nat)
    requires a <= b && n > 0
    ensures a as real / n as real <= b as real / n as real
  {
    DivideMonotoneAny(a as real, b as real, n as real);
  }

  lemma DivideMonotoneAny(x: real, y: real, n: real)
    requires x <= y && n > 0.0
    ensures x / n <= y / n
  {
    DivideDifference(y, x, n);
    DividePositive(y - x, n);
  }

  lemma SharesBetween(pixels: seq<real>, image: seq<real>, quantumRange: real, segments: nat, level: real,
                      lo: nat, hi: nat)
    requires segments >= 2 && Pixels(pixels, quantumRange) && |image| == |pixels| > 0
    requires forall k | 0 <= k < |pixels| ::
               && (Bucket(pixels[k], quantumRange, segments) < lo ==> image[k] < level)
               && (image[k] < level ==> Bucket(pixels[k], quantumRange, segments) < hi)
    ensures FractionBelow(pixels, quantumRange, segments, lo) <= ShareBelow(image, level)
    ensures ShareBelow(image, level) <= FractionBelow(pixels, quantumRange, segments, hi)
  {
    CountsBetween(pixels, image, quantumRange, segments, level, lo, hi);
    FractionsOrdered(CountBelow(pixels, quantumRange, segments, lo), CountLess(image, level), |pixels|);
    FractionsOrdered(CountLess(image, level), CountBelow(pixels, quantumRange, segments, hi), |pixels|);
  }

  /** One more bucket is worth at most the fullest bin. */
  lemma NextFraction(pixels: seq<real>, quantumRange: real, segments: nat, b: nat, largest: real)
    requires segments >= 2 && Pixels(pixels, quantumRange) && pixels != [] && b < segments
    requires BinsAtMost(LightnessHistogram(pixels, quantumRange, segments), largest)
    ensures FractionBelow(pixels, quantumRange, segments, b + 1)
            <= FractionBelow(pixels, quantumRange, segments, b) + largest
  {
    CumulativeIsFraction(pixels, quantumRange, segments, b);
    CumulativeIsFraction(pixels, quantumRange, segments, b + 1);
    assert LightnessHistogram(pixels, quantumRange, segments)[b] <= largest;
  }

  // ---------------------------------------------------------------- the current image

  /** Equalised, the current image has as much below the level as it had before the row. */
  lemma CurrentShare(prev: seq<real>, cur: seq<real>, pixels: seq<real>, quantumRange: real, start: nat,
                     largest: real)
    requires Comparable(prev, cur) && Pixels(pixels, quantumRange) && pixels != [] && start < |cur| - 1
    requires start > 0 ==> MatchedBin(prev, cur, start - 1) < MatchedBin(prev, cur, start)
    requires BinsAtMost(LightnessHistogram(pixels, quantumRange, |cur|), largest)
    ensures var image := Equalised(pixels, Parameters(prev, cur, quantumRange), quantumRange);
            var share := ShareBelow(image, Level(MatchedBin(prev, cur, start), quantumRange, |cur|));
            var before := FractionBelow(pixels, quantumRange, |cur|, start);
            before <= share <= before + largest
  {
    var image := Equalised(pixels, Parameters(prev, cur, quantumRange), quantumRange);
    var level := Level(MatchedBin(prev, cur, start), quantumRange, |cur|);
    forall k | 0 <= k < |pixels|
      ensures Bucket(pixels[k], quantumRange, |cur|) < start ==> image[k] < level
      ensures image[k] < level ==> Bucket(pixels[k], quantumRange, |cur|) < start + 1
    {
      PixelBelow(prev, cur, quantumRange, start, pixels[k]);
      BucketOf(pixels[k], quantumRange, |cur|, start);
    }
    SharesBetween(pixels, image, quantumRange, |cur|, level, start, start + 1);
    NextFraction(pixels, quantumRange, |cur|, start, largest);
  }

  // ---------------------------------------------------------------- the previous image

  /** The level of bin `m` of `n` lies at position m - m/n: above m - 1/2 in the lower half. */
  lemma LevelPosition(pixel: real, quantumRange: real, segments: nat, m: nat)
    requires segments >= 2 && quantumRange > 0.0 && 0.0 <= pixel <= quantumRange
    ensures var p, level := BinPosition(pixel, quantumRange, segments), Level(m, quantumRange, segments);
            && (pixel < level ==> p < m as real)
            && (p < m as real - 1.0 ==> pixel < level)
            && (2 * m <= segments && p < m as real - 0.5 ==> pixel < level)
            && (2 * m > segments && pixel < level ==> p < m as real - 0.5)
  {
    var n, t := segments as real, pixel / quantumRange;
    DivideBound(pixel, quantumRange);
    assert t * quantumRange == pixel;
    assert BinPosition(pixel, quantumRange, segments) == t * (n - 1.0) == t * n - t;
    CompareLevel(t, n, m as real, quantumRange);
    assert Level(m, quantumRange, segments) == m as real * quantumRange / n;
    HalfWay(t, n, m as real);
  }

  lemma HalfWay(t: real, n: real, m: real)
    requires n >= 2.0
    ensures 2.0 * m <= n && t * (n - 1.0) < m - 0.5 ==> t * n < m
    ensures 2.0 * m > n && t * n < m ==> t * (n - 1.0) < m - 0.5
  {
    var x, y := t * n - m, t * (n - 1.0) - (m - 0.5);
    assert y * n == x * (n - 1.0) + (n / 2.0 - m);
    if x >= 0.0 { ScalePositive(x, n - 1.0); } else { ScaleStrict(-x, n - 1.0); }
    if y < 0.0 { ScaleStrict(-y, n); } else { ScalePositive(y, n); }
  }

  lemma CompareLevel(t: real, n: real, m: real, quantumRange: real)
    requires n > 0.0 && quantumRange > 0.0
    ensures t * quantumRange < m * quantumRange / n <==> t * n < m
  {
    var level := m * quantumRange / n;
    assert level * n == m * quantumRange;
    assert (level - t * quantumRange) * n == (m - t * n) * quantumRange;
    SameSign(level - t * quantumRange, n, m - t * n, quantumRange);
  }

  lemma SameSign(x: real, n: real, y: real, q: real)
    requires n > 0.0 && q > 0.0 && x * n == y * q
    ensures x > 0.0 <==> y > 0.0
  {
    if x > 0.0 {
      ScaleStrict(x, n);
      if y <= 0.0 { ScalePositive(-y, q); }
    } else {
      ScalePositive(-x, n);
      if y > 0.0 { ScaleStrict(y, q); }
    }
  }

  /** A bucket is below `b` exactly when the position is half a bucket below it. */
  lemma BucketBelow(pixel: real, quantumRange: real, segments: nat, b: nat)
    requires segments >= 2 && quantumRange > 0.0 && 0.0 <= pixel <= quantumRange
    ensures Bucket(pixel, quantumRange, segments) < b <==>
            BinPosition(pixel, quantumRange, segments) < b as real - 0.5
  {
    PositionInRange(pixel, quantumRange, segments);
  }

  /** The buckets between which the previous image reaches the level of bin `m`. */
  function From(segments: nat, m: nat): nat {
    if 2 * m <= segments || m == 0 then m else m - 1
  }

  function To(segments: nat, m: nat): nat {
    if 2 * m <= segments then m + 1 else m
  }

  /**
   The previous image's share below a bin's level is that below the bin, up to one bin: more in
   the lower half of the scale, less in the upper.
   */
  lemma PreviousShare(pixels: seq<real>, quantumRange: real, segments: nat, m: nat, largest: real)
    requires segments >= 2 && Pixels(pixels, quantumRange) && pixels != [] && m < segments
    requires BinsAtMost(LightnessHistogram(pixels, quantumRange, segments), largest)
    ensures var below := FractionBelow(pixels, quantumRange, segments, m);
            var share := ShareBelow(pixels, Level(m, quantumRange, segments));
            if 2 * m <= segments then below <= share <= below + largest
            else below - largest <= share <= below
  {
    var lo, hi, level := From(segments, m), To(segments, m), Level(m, quantumRange, segments);
    forall k | 0 <= k < |pixels|
      ensures Bucket(pixels[k], quantumRange, segments) < lo ==> pixels[k] < level
      ensures pixels[k] < level ==> Bucket(pixels[k], quantumRange, segments) < hi
    {
      LevelPosition(pixels[k], quantumRange, segments, m);
      BucketBelow(pixels[k], quantumRange, segments, lo);
      BucketBelow(pixels[k], quantumRange, segments, hi);
    }
    SharesBetween(pixels, pixels, quantumRange, segments, level, lo, hi);
    if 2 * m <= segments {
      NextFraction(pixels, quantumRange, segments, m, largest);
    } else {
      NextFraction(pixels, quantumRange, segments, lo, largest);
    }
  }

  // ---------------------------------------------------------------- both

  lemma {:induction false} CountAtMostAll(image: seq<real>, level: real)
    ensures CountLess(image, level) <= |image|
    decreases |image|
  {
    if image != [] { CountAtMostAll(image[..|image| - 1], level); }
  }

  lemma ShareAtMostOne(image: seq<real>, level: real)
    requires image != []
    ensures ShareBelow(image, level) <= 1.0
  {
    CountAtMostAll(image, level);
    FractionsOrdered(CountLess(image, level), |image|, |image|);
    WholeIsOne(|image| as real);
  }

  /** The last bin is all that is missing. */
  lemma LastFraction(pixels: seq<real>, quantumRange: real, segments: nat, largest: real)
    requires segments >= 2 && Pixels(pixels, quantumRange) && pixels != []
    requires BinsAtMost(LightnessHistogram(pixels, quantumRange, segments), largest)
    ensures FractionBelow(pixels, quantumRange, segments, segments - 1) >= 1.0 - largest
  {
    NextFraction(pixels, quantumRange, segments, segments - 1, largest);
    CumulativeIsFraction(pixels, quantumRange, segments, segments);
    FractionsSumToOne(pixels, quantumRange, segments);
  }

  /** The matched fractions: the previous image is ahead, by at most one bin. */
  lemma MatchedFractions(previous: seq<real>, current: seq<real>, quantumRange: real, segments: nat,
                         i: nat, largest: real)
    requires segments >= 2 && previous != [] && current != []
    requires Pixels(previous, quantumRange) && Pixels(current, quantumRange) && i < segments - 1
    requires BinsAtMost(LightnessHistogram(previous, quantumRange, segments), largest)
    ensures var m := MatchedBin(LightnessHistogram(previous, quantumRange, segments),
                                LightnessHistogram(current, quantumRange, segments), i);
            var ahead := FractionBelow(previous, quantumRange, segments, m)
                         - FractionBelow(current, quantumRange, segments, i);
            ahead <= largest && (m < segments - 1 ==> 0.0 <= ahead)
  {
    var prev := LightnessHistogram(previous, quantumRange, segments);
    var cur := LightnessHistogram(current, quantumRange, segments);
    LightnessHistogramIsDistribution(current, quantumRange, segments);
    Sandwich(prev, cur, i);
    CumulativeIsFraction(previous, quantumRange, segments, MatchedBin(prev, cur, i));
    CumulativeIsFraction(current, quantumRange, segments, i);
    MatchedImagesAgree(previous, current, quantumRange, segments, i, largest);
  }

  lemma Combined(equalised: real, reference: real, current: real, previous: real, p: real, c: real,
                 lower: bool, last: bool)
    requires current <= equalised <= current + c && equalised <= 1.0
    requires previous - current <= p && (last ==> previous >= 1.0 - p) && (!last ==> previous >= current)
    requires if lower then previous <= reference <= previous + p else previous - p <= reference <= previous
    ensures var difference, up := equalised - reference, if last then p else c;
            if lower then -(2.0 * p) <= difference <= up else -p <= difference <= p + up
  {
  }
  /** How far the shares below a level may differ. */
  predicate Close(difference: real, segments: nat, m: nat, fullestPrevious: real, fullestCurrent: real) {
    var up := if m == segments - 1 then fullestPrevious else fullestCurrent;
    if 2 * m <= segments then -(2.0 * fullestPrevious) <= difference <= up
    else -fullestPrevious <= difference <= fullestPrevious + up
  }

  /** At a row where the table rises. */
  lemma RisingRowAgrees(previous: seq<real>, current: seq<real>, quantumRange: real, prev: seq<real>,
                        cur: seq<real>, start: nat, fullestPrevious: real, fullestCurrent: real)
    requires |prev| == |cur| >= 2 && previous != [] && current != [] && start < |cur| - 1
    requires Pixels(previous, quantumRange) && Pixels(current, quantumRange)
    requires prev == LightnessHistogram(previous, quantumRange, |cur|)
    requires cur == LightnessHistogram(current, quantumRange, |cur|)
    requires BinsAtMost(prev, fullestPrevious) && BinsAtMost(cur, fullestCurrent)
    requires start > 0 ==> MatchedBin(prev, cur, start - 1) < MatchedBin(prev, cur, start)
    ensures var m := MatchedBin(prev, cur, start);
            var level := Level(m, quantumRange, |cur|);
            var image := Equalised(current, Parameters(prev, cur, quantumRange), quantumRange);
            Close(ShareBelow(image, level) - ShareBelow(previous, level), |cur|, m, fullestPrevious, fullestCurrent)
  {
    var n, m := |cur|, MatchedBin(prev, cur, start);
    var level := Level(m, quantumRange, n);
    var image := Equalised(current, Parameters(prev, cur, quantumRange), quantumRange);
    CurrentShare(prev, cur, current, quantumRange, start, fullestCurrent);
    MatchedFractions(previous, current, quantumRange, n, start, fullestPrevious);
    PreviousShare(previous, quantumRange, n, m, fullestPrevious);
    LastFraction(previous, quantumRange, n, fullestPrevious);
    ShareAtMostOne(image, level);
    Combined(ShareBelow(image, level), ShareBelow(previous, level),
             FractionBelow(current, quantumRange, n, start), FractionBelow(previous, quantumRange, n, m),
             fullestPrevious, fullestCurrent, 2 * m <= n, m == n - 1);
  }

  /**
   For any two images and every row of the table below the last: after equalisation the share
   of the current image that is darker than the row's level is the previous image's, up to one
   fullest bin either way, and one more of the previous image's: downwards for levels in the
   lower half of the scale, upwards in the upper.
   */
  lemma EqualisedImagesAgree(previous: seq<real>, current: seq<real>, quantumRange: real, segments: nat,
                             i: nat, fullestPrevious: real, fullestCurrent: real)
    requires segments >= 2 && previous != [] && current != []
    requires Pixels(previous, quantumRange) && Pixels(current, quantumRange) && i < segments - 1
    requires BinsAtMost(LightnessHistogram(previous, quantumRange, segments), fullestPrevious)
    requires BinsAtMost(LightnessHistogram(current, quantumRange, segments), fullestCurrent)
    ensures var prev := LightnessHistogram(previous, quantumRange, segments);
            var cur := LightnessHistogram(current, quantumRange, segments);
            var m := MatchedBin(prev, cur, i);
            var level := Level(m, quantumRange, segments);
            var image := Equalised(current, Parameters(prev, cur, quantumRange), quantumRange);
            Close(ShareBelow(image, level) - ShareBelow(previous, level), segments, m,
                  fullestPrevious, fullestCurrent)
  {
    var prev := LightnessHistogram(previous, quantumRange, segments);
    var cur := LightnessHistogram(current, quantumRange, segments);
    var start := FlatFrom(prev, cur, i);
    RisingRowAgrees(previous, current, quantumRange, prev, cur, start, fullestPrevious, fullestCurrent);
  }
}
