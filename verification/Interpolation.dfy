/**
 `linear_map`, `lerp` and `identity_equalisation_histogram_mapping` of src/algorithm.cpp:
 applying a mapping table to one quantum value.
 */
module Interpolation {
  import opened Matching

  /** `round` on the non-negative values it is given. */
  function Round(x: real): int {
    (x + 0.5).Floor
  }

  function Abs(x: real): real {
    if x < 0.0 then -x else x
  }

  function Lerp(a: real, b: real, t: real): real {
    a + (b - a) * t
  }

  predicate Ascending(table: seq<real>) {
    forall i, k | 0 <= i <= k < |table| :: table[i] <= table[k]
  }

  /** A quantum value on the scale of table indices. */
  function BinPosition(value: real, quantumRange: real, segments: nat): real
    requires quantumRange > 0.0
  {
    value / quantumRange * (segments - 1) as real
  }

  /** `linear_map` from the point where the value has become a position in the table. */
  function RoundedLookup(table: seq<real>, position: real): real
    requires |table| >= 2 && 0.0 <= position <= (|table| - 1) as real
  {
    var rounded := Round(position);
    var errorDelta := position - rounded as real;
    var base := table[rounded];
    var below := table[if rounded == 0 then 0 else rounded - 1];
    var above := table[if rounded >= |table| - 1 then rounded else rounded + 1];
    Lerp(base, if errorDelta >= 0.0 then above else below, Abs(errorDelta))
  }

  function LinearMap(value: real, table: seq<real>, quantumRange: real): real
    requires |table| >= 2 && quantumRange > 0.0 && 0.0 <= value <= quantumRange
  {
    PositionInRange(value, quantumRange, |table|);
    RoundedLookup(table, BinPosition(value, quantumRange, |table|))
  }

  /** The `assert` in `linear_map`. */
  predicate NeighboursOrdered(table: seq<real>, position: real)
    requires |table| >= 2 && 0.0 <= position <= (|table| - 1) as real
  {
    var rounded := Round(position);
    && table[if rounded == 0 then 0 else rounded - 1] <= table[rounded]
    && table[rounded] <= table[if rounded >= |table| - 1 then rounded else rounded + 1]
  }

  lemma ScaleBound(t: real, k: real)
    requires 0.0 <= t <= 1.0 && k >= 0.0
    ensures 0.0 <= t * k <= k
  {
  }

  lemma DivideBound(value: real, range: real)
    requires range > 0.0 && 0.0 <= value <= range
    ensures 0.0 <= value / range <= 1.0
  {
  }

  lemma PositionInRange(value: real, quantumRange: real, segments: nat)
    requires segments >= 2 && quantumRange > 0.0 && 0.0 <= value <= quantumRange
    ensures 0.0 <= BinPosition(value, quantumRange, segments) <= (segments - 1) as real
  {
    var t, k := value / quantumRange, (segments - 1) as real;
    DivideBound(value, quantumRange);
    assert 0.0 <= t <= 1.0 && k >= 0.0;
    ScaleBound(t, k);
    assert BinPosition(value, quantumRange, segments) == t * k;
  }

  lemma PositionMonotone(v: real, w: real, quantumRange: real, segments: nat)
    requires segments >= 2 && quantumRange > 0.0 && 0.0 <= v <= w <= quantumRange
    ensures BinPosition(v, quantumRange, segments) <= BinPosition(w, quantumRange, segments)
  {
    DivideDifference(w, v, quantumRange);
    DivideBound(w - v, quantumRange);
    var k := (segments - 1) as real;
    ScaleBound((w - v) / quantumRange, k);
    assert w / quantumRange * k - v / quantumRange * k == (w - v) / quantumRange * k;
  }

  // ---------------------------------------------------------------- the simple form

  /** Textbook piecewise-linear interpolation between the two entries around a position. */
  function Interpolate(table: seq<real>, position: real): real
    requires |table| >= 2 && 0.0 <= position <= (|table| - 1) as real
  {
    var k := position.Floor;
    if k >= |table| - 1 then table[|table| - 1]
    else Lerp(table[k], table[k + 1], position - k as real)
  }

  /** Rounding to the nearest entry and leaning towards a neighbour is plain interpolation. */
  lemma RoundingIsInterpolation(table: seq<real>, position: real)
    requires |table| >= 2 && 0.0 <= position <= (|table| - 1) as real
    ensures RoundedLookup(table, position) == Interpolate(table, position)
  {
    var k := position.Floor;
    var t := position - k as real;
    if t < 0.5 {
      assert Round(position) == k;
    } else {
      assert Round(position) == k + 1;
      LerpBackwards(table[k], table[k + 1], t);
    }
  }

  /** The same for a quantum value and any table of at least two entries. */
  lemma LinearMapInterpolates(value: real, table: seq<real>, quantumRange: real)
    requires |table| >= 2 && quantumRange > 0.0 && 0.0 <= value <= quantumRange
    ensures 0.0 <= BinPosition(value, quantumRange, |table|) <= (|table| - 1) as real
    ensures LinearMap(value, table, quantumRange)
         == Interpolate(table, BinPosition(value, quantumRange, |table|))
  {
    PositionInRange(value, quantumRange, |table|);
    RoundingIsInterpolation(table, BinPosition(value, quantumRange, |table|));
  }

  lemma LerpBackwards(a: real, b: real, t: real)
    ensures Lerp(b, a, 1.0 - t) == Lerp(a, b, t)
  {
  }

  lemma LerpBetween(a: real, b: real, t: real)
    requires a <= b && 0.0 <= t <= 1.0
    ensures a <= Lerp(a, b, t) <= b
  {
    var d := b - a;
    ScaleBound(t, d);
    assert Lerp(a, b, t) == a + d * t;
  }

  lemma LerpMonotone(a: real, b: real, s: real, t: real)
    requires a <= b && 0.0 <= s <= t <= 1.0
    ensures Lerp(a, b, s) <= Lerp(a, b, t)
  {
    ScaleBound(t - s, b - a);
    assert Lerp(a, b, t) - Lerp(a, b, s) == (t - s) * (b - a);
  }

  /** Interpolation stays between the entries around the position. */
  lemma InterpolateBetween(table: seq<real>, position: real)
    requires |table| >= 2 && Ascending(table) && 0.0 <= position <= (|table| - 1) as real
    ensures table[position.Floor] <= Interpolate(table, position)
    ensures position.Floor < |table| - 1 ==>
              Interpolate(table, position) <= table[position.Floor + 1]
    ensures table[0] <= Interpolate(table, position) <= table[|table| - 1]
  {
    var k := position.Floor;
    if k < |table| - 1 {
      LerpBetween(table[k], table[k + 1], position - k as real);
    }
  }

  lemma InterpolateMonotone(table: seq<real>, p: real, q: real)
    requires |table| >= 2 && Ascending(table) && 0.0 <= p <= q <= (|table| - 1) as real
    ensures Interpolate(table, p) <= Interpolate(table, q)
  {
    var k, l := p.Floor, q.Floor;
    InterpolateBetween(table, p);
    InterpolateBetween(table, q);
    if k < l {
      assert table[k + 1] <= table[l];
    } else if k < |table| - 1 {
      LerpMonotone(table[k], table[k + 1], p - k as real, q - k as real);
    }
  }

  /**
   For an ascending table the assertion holds, the map is monotone across every rounding
   boundary and its values stay between the first and the last entry.
   */
  lemma LinearMapKeepsOrder(table: seq<real>, v: real, w: real, quantumRange: real)
    requires |table| >= 2 && Ascending(table) && quantumRange > 0.0
    requires 0.0 <= v <= w <= quantumRange
    ensures LinearMap(v, table, quantumRange) <= LinearMap(w, table, quantumRange)
    ensures table[0] <= LinearMap(v, table, quantumRange) <= table[|table| - 1]
    ensures 0.0 <= BinPosition(v, quantumRange, |table|) <= (|table| - 1) as real
    ensures NeighboursOrdered(table, BinPosition(v, quantumRange, |table|))
  {
    var p, q := BinPosition(v, quantumRange, |table|), BinPosition(w, quantumRange, |table|);
    LinearMapInterpolates(v, table, quantumRange);
    LinearMapInterpolates(w, table, quantumRange);
    PositionMonotone(v, w, quantumRange, |table|);
    InterpolateMonotone(table, p, q);
    InterpolateBetween(table, p);
  }

  // ---------------------------------------------------------------- tables of the walk

  lemma LevelsAscend(a: nat, b: nat, quantumRange: real, segments: nat)
    requires a <= b && quantumRange > 0.0 && segments > 0
    ensures Scaled(a, quantumRange) <= Scaled(b, quantumRange)
    ensures Level(a, quantumRange, segments) <= Level(b, quantumRange, segments)
    ensures Level(a, quantumRange, segments) <= Scaled(b, quantumRange)
    ensures 0.0 <= Level(a, quantumRange, segments)
  {
    assert Scaled(b, quantumRange) - Scaled(a, quantumRange) == (b - a) as real * quantumRange;
    DivideMonotone(Scaled(a, quantumRange), Scaled(b, quantumRange), segments as real);
  }

  lemma DivideMonotone(x: real, y: real, n: real)
    requires 0.0 <= x <= y && n >= 1.0
    ensures 0.0 <= x / n <= y / n && x / n <= x
  {
    DivideDifference(y, x, n);
    DividePositive(y - x, n);
    DividePositive(x, n);
    assert x / n * n == x;
    ScalePositive(x / n, n - 1.0);
  }

  lemma DividePositive(x: real, n: real)
    requires 0.0 <= x && n > 0.0
    ensures 0.0 <= x / n
  {
  }

  lemma ScalePositive(x: real, y: real)
    requires x >= 0.0 && y >= 0.0
    ensures x * y >= 0.0
  {
  }

  /** Every table the walk produces is ascending, whatever the two histograms. */
  lemma ParametersAscend(prev: seq<real>, cur: seq<real>, quantumRange: real)
    requires Comparable(prev, cur) && quantumRange > 0.0
    ensures Ascending(Parameters(prev, cur, quantumRange))
  {
    var table := Parameters(prev, cur, quantumRange);
    forall i, k | 0 <= i <= k < |table|
      ensures table[i] <= table[k]
    {
      MatchedBinsAscend(prev, cur, i, k);
      if k < |cur| - 1 {
        LevelsAscend(MatchedBin(prev, cur, i), MatchedBin(prev, cur, k), quantumRange, |cur|);
      } else {
        LevelsAscend(MatchedBin(prev, cur, i), |cur| - 1, quantumRange, |cur|);
      }
    }
  }

  /** Equalisation keeps the order of lightness values and never trips the assertion. */
  lemma EqualisationKeepsOrder(prev: seq<real>, cur: seq<real>, v: real, w: real, quantumRange: real)
    requires Comparable(prev, cur) && quantumRange > 0.0 && 0.0 <= v <= w <= quantumRange
    ensures var table := Parameters(prev, cur, quantumRange);
            && LinearMap(v, table, quantumRange) <= LinearMap(w, table, quantumRange)
            && 0.0 <= BinPosition(v, quantumRange, |table|) <= (|table| - 1) as real
            && NeighboursOrdered(table, BinPosition(v, quantumRange, |table|))
  {
    ParametersAscend(prev, cur, quantumRange);
    LinearMapKeepsOrder(Parameters(prev, cur, quantumRange), v, w, quantumRange);
  }

  /** All entries below the last fit the quantum range; the last does only with two bins. */
  lemma TableFitsRange(prev: seq<real>, cur: seq<real>, quantumRange: real)
    requires Comparable(prev, cur) && quantumRange > 0.0
    ensures var table := Parameters(prev, cur, quantumRange);
            && (forall i | 0 <= i < |cur| - 1 :: 0.0 <= table[i] < quantumRange)
            && ((forall i | 0 <= i < |cur| :: 0.0 <= table[i] <= quantumRange) <==> |cur| == 2)
  {
    var table := Parameters(prev, cur, quantumRange);
    var n := |cur|;
    forall i | 0 <= i < n - 1
      ensures 0.0 <= table[i] < quantumRange
    {
      var m := MatchedBin(prev, cur, i);
      LevelsAscend(m, n - 1, quantumRange, n);
      LevelBelowRange(n - 1, quantumRange, n);
    }
    assert table[n - 1] == Scaled(n - 1, quantumRange);
    if n == 2 {
      assert Scaled(1, quantumRange) == quantumRange;
    } else {
      LevelsAscend(2, n - 1, quantumRange, n);
      assert Scaled(2, quantumRange) == 2.0 * quantumRange;
    }
  }

  /** Beyond the last but one entry the map climbs straight to the unscaled last entry. */
  lemma LastStretch(table: seq<real>, position: real, top: real)
    requires |table| >= 2 && Ascending(table) && table[|table| - 2] < top <= table[|table| - 1]
    requires 0.0 <= position <= (|table| - 1) as real
    ensures var low, last := table[|table| - 2], table[|table| - 1];
            Interpolate(table, position) <= top
            <==> position <= (|table| - 2) as real + (top - low) / (last - low)
  {
    var n, low, last := |table|, table[|table| - 2], table[|table| - 1];
    var t := position - (n - 2) as real;
    DivideStrictly(top - low, last - low);
    if t <= 0.0 {
      InterpolateMonotone(table, position, (n - 2) as real);
    } else {
      assert position.Floor == n - 2 || (position.Floor == n - 1 && t == 1.0);
      assert Interpolate(table, position) == low + (last - low) * t;
      CompareQuotient(t, top - low, last - low);
    }
  }

  lemma DivideStrictly(x: real, n: real)
    requires x > 0.0 && n > 0.0
    ensures x / n > 0.0
  {
  }

  lemma CompareQuotient(t: real, x: real, n: real)
    requires n > 0.0
    ensures n * t <= x <==> t <= x / n
  {
    var q := x / n;
    assert q * n == x;
    if t <= q { ScalePositive(q - t, n); } else { ScaleStrict(t - q, n); }
  }

  /** Where the table starts, and between what it crosses the quantum range. */
  lemma TableEdges(prev: seq<real>, cur: seq<real>, quantumRange: real)
    requires Comparable(prev, cur) && quantumRange > 0.0
    ensures var n, table := |cur|, Parameters(prev, cur, quantumRange);
            && table[0] >= 0.0
            && table[n - 2] == Level(MatchedBin(prev, cur, n - 2), quantumRange, n) < quantumRange
            && quantumRange <= table[n - 1] == Scaled(n - 1, quantumRange)
  {
    var n := |cur|;
    LevelBelowRange(MatchedBin(prev, cur, n - 2), quantumRange, n);
    LevelsAscend(0, MatchedBin(prev, cur, 0), quantumRange, n);
    LevelsAscend(1, n - 1, quantumRange, n);
    assert Scaled(1, quantumRange) == quantumRange;
  }

  lemma PixelBelowTop(table: seq<real>, value: real, quantumRange: real)
    requires |table| >= 2 && Ascending(table) && quantumRange > 0.0 && 0.0 <= value <= quantumRange
    requires 0.0 <= table[0] && table[|table| - 2] < quantumRange <= table[|table| - 1]
    ensures var low, last := table[|table| - 2], table[|table| - 1];
            0.0 <= LinearMap(value, table, quantumRange) <= quantumRange
            <==> BinPosition(value, quantumRange, |table|)
                 <= (|table| - 2) as real + (quantumRange - low) / (last - low)
  {
    LinearMapKeepsOrder(table, value, value, quantumRange);
    LinearMapInterpolates(value, table, quantumRange);
    LastStretch(table, BinPosition(value, quantumRange, |table|), quantumRange);
  }

  /**
   Which pixels leave the quantum range: with `low` the level of the last but one row, those
   whose table position lies further beyond it than the range's share of the last stretch.
   */
  lemma PixelFitsRange(prev: seq<real>, cur: seq<real>, value: real, quantumRange: real)
    requires Comparable(prev, cur) && quantumRange > 0.0 && 0.0 <= value <= quantumRange
    ensures var n := |cur|;
            var low := Level(MatchedBin(prev, cur, n - 2), quantumRange, n);
            var last := Scaled(n - 1, quantumRange);
            && low < last
            && (0.0 <= LinearMap(value, Parameters(prev, cur, quantumRange), quantumRange) <= quantumRange
                <==> BinPosition(value, quantumRange, n)
                     <= (n - 2) as real + (quantumRange - low) / (last - low))
  {
    ParametersAscend(prev, cur, quantumRange);
    TableEdges(prev, cur, quantumRange);
    PixelBelowTop(Parameters(prev, cur, quantumRange), value, quantumRange);
  }

  lemma LevelBelowRange(bin: nat, quantumRange: real, segments: nat)
    requires bin < segments && quantumRange > 0.0
    ensures Level(bin, quantumRange, segments) < quantumRange
  {
    var n := segments as real;
    var p := Level(bin, quantumRange, segments);
    assert p * n == Scaled(bin, quantumRange);
    assert n * quantumRange - Scaled(bin, quantumRange) == (n - bin as real) * quantumRange;
    ScaleStrict(n - bin as real, quantumRange);
    if p >= quantumRange { ScalePositive(p - quantumRange, n); }
  }

  lemma ScaleStrict(x: real, y: real)
    requires x > 0.0 && y > 0.0
    ensures x * y > 0.0
  {
  }

  // ---------------------------------------------------------------- the identity table

  function IdentityTable(segments: nat, quantumRange: real): (table: seq<real>)
    requires segments > 0
    ensures |table| == segments
  {
    seq(segments, i requires 0 <= i < segments => Level(i, quantumRange, segments))
  }

  /** `std::generate` with a counter. */
  method IdentityEqualisationMapping(segments: nat, quantumRange: real) returns (table: seq<real>)
    requires segments > 0
    ensures table == IdentityTable(segments, quantumRange)
  {
    var mapping := new real[segments](_ => 0.0);
    var i := 0;
    while i < segments
      invariant 0 <= i <= segments
      invariant forall k | 0 <= k < i :: mapping[k] == Level(k, quantumRange, segments)
    {
      mapping[i] := Level(i, quantumRange, segments);
      i := i + 1;
    }
    table := mapping[..];
  }

  lemma DivideFactor(x: real, y: real, n: real)
    requires n > 0.0
    ensures x * y / n == x * (y / n)
  {
    var q := y / n;
    assert x * y == x * q * n;
  }

  lemma LerpOnLine(x: real, t: real, unit: real)
    ensures Lerp(x * unit, (x + 1.0) * unit, t) == (x + t) * unit
  {
    assert (x + 1.0) * unit - x * unit == unit;
  }

  lemma IdentityInterpolates(segments: nat, quantumRange: real, position: real)
    requires segments >= 2 && 0.0 <= position <= (segments - 1) as real
    ensures Interpolate(IdentityTable(segments, quantumRange), position)
         == position * quantumRange / segments as real
  {
    var n := segments as real;
    var k := position.Floor;
    DivideFactor(position, quantumRange, n);
    DivideFactor(k as real, quantumRange, n);
    if k < segments - 1 {
      DivideFactor((k + 1) as real, quantumRange, n);
      LerpOnLine(k as real, position - k as real, quantumRange / n);
    } else {
      assert position == k as real;
    }
  }

  lemma DivideDifference(x: real, y: real, n: real)
    requires n > 0.0
    ensures x / n - y / n == (x - y) / n
  {
  }

  /** An identity table stretches positions evenly, also when looked up by rounding. */
  lemma IdentityLookup(segments: nat, quantumRange: real, position: real)
    requires segments >= 2 && 0.0 <= position <= (segments - 1) as real
    ensures RoundedLookup(IdentityTable(segments, quantumRange), position)
         == position * quantumRange / segments as real
  {
    RoundingIsInterpolation(IdentityTable(segments, quantumRange), position);
    IdentityInterpolates(segments, quantumRange, position);
  }

  /** Under the identity table a value loses one N-th of itself: at most one bin width. */
  lemma IdentityMapsCloseTo(value: real, segments: nat, quantumRange: real)
    requires segments >= 2 && quantumRange > 0.0 && 0.0 <= value <= quantumRange
    ensures var mapped := LinearMap(value, IdentityTable(segments, quantumRange), quantumRange);
            && mapped == value * (segments - 1) as real / segments as real
            && value - quantumRange / segments as real <= mapped <= value
  {
    IdentityStretches(value, segments, quantumRange);
    StretchedPosition(value, segments, quantumRange);
  }

  lemma IdentityStretches(value: real, segments: nat, quantumRange: real)
    requires segments >= 2 && quantumRange > 0.0 && 0.0 <= value <= quantumRange
    ensures LinearMap(value, IdentityTable(segments, quantumRange), quantumRange)
         == BinPosition(value, quantumRange, segments) * quantumRange / segments as real
  {
    PositionInRange(value, quantumRange, segments);
    IdentityLookup(segments, quantumRange, BinPosition(value, quantumRange, segments));
  }

  lemma StretchedPosition(value: real, segments: nat, quantumRange: real)
    requires segments >= 2 && quantumRange > 0.0 && 0.0 <= value <= quantumRange
    ensures var mapped := BinPosition(value, quantumRange, segments) * quantumRange / segments as real;
            && mapped == value * (segments - 1) as real / segments as real
            && value - quantumRange / segments as real <= mapped <= value
  {
    ShareOfValue(value, BinPosition(value, quantumRange, segments), (segments - 1) as real,
                 segments as real, quantumRange);
  }

  lemma ShareOfValue(value: real, p: real, k: real, n: real, quantumRange: real)
    requires k >= 1.0 && n == k + 1.0 && quantumRange > 0.0 && 0.0 <= value <= quantumRange
    requires p == value / quantumRange * k
    ensures p * quantumRange / n == value * k / n
    ensures value - quantumRange / n <= p * quantumRange / n <= value
  {
    PositionTimesRange(value, quantumRange, k);
    OnePartLost(value, k);
    DivideMonotone(value, quantumRange, n);
  }

  lemma PositionTimesRange(value: real, quantumRange: real, k: real)
    requires quantumRange > 0.0
    ensures value / quantumRange * k * quantumRange == value * k
  {
    var r := value / quantumRange;
    assert r * quantumRange == value;
    assert r * k * quantumRange == r * quantumRange * k;
  }

  lemma OnePartLost(value: real, k: real)
    requires k >= 0.0
    ensures value * k / (k + 1.0) == value - value / (k + 1.0)
  {
    var n := k + 1.0;
    assert value * n == value * k + value;
    DivideDifference(value * n, value, n);
    assert value * n / n == value;
  }

  /** Below the last entry, matching a histogram with itself gives the identity table. */
  lemma SelfMatchTable(h: seq<real>, quantumRange: real, i: nat)
    requires |h| >= 2 && quantumRange > 0.0 && i < |h|
    ensures Parameters(h, h, quantumRange)[i] == IdentityTable(|h|, quantumRange)[i] <==> i < |h| - 1
  {
    SelfMatch(h, i);
    if i == |h| - 1 {
      LevelBelowRange(i, quantumRange, |h|);
      LevelsAscend(1, i, quantumRange, |h|);
      assert Scaled(1, quantumRange) == quantumRange;
    }
  }

  /**
   So an image matched with its equal is left as the identity leaves it exactly up to the
   last but one table position; brighter values are pulled towards the unscaled last entry.
   */
  lemma SelfMatchedImage(h: seq<real>, value: real, quantumRange: real)
    requires |h| >= 2 && quantumRange > 0.0 && 0.0 <= value <= quantumRange
    ensures (LinearMap(value, Parameters(h, h, quantumRange), quantumRange)
             == LinearMap(value, IdentityTable(|h|, quantumRange), quantumRange))
            <==> BinPosition(value, quantumRange, |h|) <= (|h| - 2) as real
  {
    var table, identity := Parameters(h, h, quantumRange), IdentityTable(|h|, quantumRange);
    var p := BinPosition(value, quantumRange, |h|);
    LinearMapInterpolates(value, table, quantumRange);
    LinearMapInterpolates(value, identity, quantumRange);
    SelfMatchInterpolation(h, quantumRange, p);
  }

  lemma SelfMatchInterpolation(h: seq<real>, quantumRange: real, p: real)
    requires |h| >= 2 && quantumRange > 0.0 && 0.0 <= p <= (|h| - 1) as real
    ensures (Interpolate(Parameters(h, h, quantumRange), p)
             == Interpolate(IdentityTable(|h|, quantumRange), p))
            <==> p <= (|h| - 2) as real
  {
    var k := p.Floor;
    SelfMatchTable(h, quantumRange, k);
    if k < |h| - 1 { SelfMatchTable(h, quantumRange, k + 1); }
    TablesAgreeAt(Parameters(h, h, quantumRange), IdentityTable(|h|, quantumRange), p);
  }

  lemma TablesAgreeAt(s: seq<real>, t: seq<real>, p: real)
    requires |s| == |t| >= 2 && 0.0 <= p <= (|s| - 1) as real
    requires p.Floor < |s| - 1 ==> s[p.Floor] == t[p.Floor]
    ensures (Interpolate(s, p) == Interpolate(t, p))
            <==> (if p.Floor < |s| - 1 then s[p.Floor + 1] == t[p.Floor + 1] || p == p.Floor as real
                  else s[|s| - 1] == t[|s| - 1])
  {
    var k := p.Floor;
    if k < |s| - 1 { DifferentSlopes(s[k], s[k + 1], t[k + 1], p - k as real); }
  }

  lemma DifferentSlopes(a: real, b: real, c: real, t: real)
    ensures Lerp(a, b, t) == Lerp(a, c, t) <==> b == c || t == 0.0
  {
    assert Lerp(a, b, t) - Lerp(a, c, t) == (b - c) * t;
  }
}
