/**
 `get_equalisation_parameters` of src/algorithm.cpp: a walk over two cumulative histograms
 that pairs every bin of the current histogram with a bin of the previous one.
 Any number of bins, at least two.
 */
module Matching {

  /** Sum of the first `k` bins: the running `cumulative...Histogram` variables. */
  function Below(h: seq<real>, k: nat): real
    requires k <= |h|
  {
    if k == 0 then 0.0 else Below(h, k - 1) + h[k - 1]
  }

  predicate NonNegative(h: seq<real>) {
    forall k | 0 <= k < |h| :: h[k] >= 0.0
  }

  predicate Positive(h: seq<real>) {
    forall k | 0 <= k < |h| :: h[k] > 0.0
  }

  /** `bound` is at least every bin. */
  predicate BinsAtMost(h: seq<real>, bound: real) {
    forall k | 0 <= k < |h| :: h[k] <= bound
  }

  lemma {:induction false} BelowMonotone(h: seq<real>, a: nat, b: nat)
    requires NonNegative(h) && a <= b <= |h|
    ensures Below(h, a) <= Below(h, b)
    decreases b - a
  {
    if a < b { BelowMonotone(h, a, b - 1); }
  }

  // ---------------------------------------------------------------- the walk

  /** The pair (currentHistogramBin, previousHistogramBin). */
  datatype Cell = Cell(cur: nat, prev: nat)

  predicate Comparable(prev: seq<real>, cur: seq<real>) {
    |prev| == |cur| >= 2
  }

  predicate OnGrid(prev: seq<real>, cur: seq<real>, c: Cell) {
    Comparable(prev, cur) && c.cur < |cur| && c.prev < |prev|
  }

  predicate AtEnd(prev: seq<real>, cur: seq<real>, c: Cell) {
    c.cur == |cur| - 1 && c.prev == |prev| - 1
  }

  /** One pass through the loop body: the histogram that is behind moves on, unless at its end. */
  function Move(prev: seq<real>, cur: seq<real>, c: Cell): (next: Cell)
    requires OnGrid(prev, cur, c) && !AtEnd(prev, cur, c)
    ensures OnGrid(prev, cur, next)
    ensures c.cur <= next.cur <= c.cur + 1 && c.prev <= next.prev <= c.prev + 1 && next != c
  {
    var last := |cur| - 1;
    if Below(cur, c.cur) < Below(prev, c.prev) then
      if c.cur < last then Cell(c.cur + 1, c.prev) else Cell(c.cur, c.prev + 1)
    else if Below(cur, c.cur) > Below(prev, c.prev) then
      if c.prev < last then Cell(c.cur, c.prev + 1) else Cell(c.cur + 1, c.prev)
    else
      Cell(if c.cur < last then c.cur + 1 else c.cur, if c.prev < last then c.prev + 1 else c.prev)
  }

  function Distance(cur: seq<real>, c: Cell): int {
    2 * (|cur| - 1) - c.cur - c.prev
  }

  /** The last previous bin written for row `c.cur`, walking on from `c`. */
  function RowEnd(prev: seq<real>, cur: seq<real>, c: Cell): (end: nat)
    requires OnGrid(prev, cur, c)
    ensures c.prev <= end < |prev|
    ensures var e := Cell(c.cur, end);
            AtEnd(prev, cur, e) || (!AtEnd(prev, cur, e) && Move(prev, cur, e).cur == c.cur + 1)
    decreases Distance(cur, c)
  {
    if AtEnd(prev, cur, c) || Move(prev, cur, c).cur != c.cur then c.prev
    else RowEnd(prev, cur, Move(prev, cur, c))
  }

  /** The previous bin in force when row `i` is entered. */
  function RowStart(prev: seq<real>, cur: seq<real>, i: nat): (start: nat)
    requires Comparable(prev, cur) && i < |cur|
    ensures start < |prev|
    decreases i, 0
  {
    if i == 0 then 0 else Move(prev, cur, Cell(i - 1, MatchedBin(prev, cur, i - 1))).prev
  }

  /** m(i): the previous bin that row `i` of the table is left with. */
  function MatchedBin(prev: seq<real>, cur: seq<real>, i: nat): (bin: nat)
    requires Comparable(prev, cur) && i < |cur|
    ensures bin < |prev|
    ensures i < |cur| - 1 ==> Move(prev, cur, Cell(i, bin)).cur == i + 1
    decreases i, 1
  {
    RowEnd(prev, cur, Cell(i, RowStart(prev, cur, i)))
  }

  /** Does the walk that starts at `from` pass through `c`? */
  predicate Visits(prev: seq<real>, cur: seq<real>, from: Cell, c: Cell)
    requires OnGrid(prev, cur, from)
    decreases Distance(cur, from)
  {
    from == c || (!AtEnd(prev, cur, from) && Visits(prev, cur, Move(prev, cur, from), c))
  }

  /** Is `c` one of the cells the loop runs through? */
  predicate Visited(prev: seq<real>, cur: seq<real>, c: Cell)
    requires Comparable(prev, cur)
  {
    Visits(prev, cur, Cell(0, 0), c)
  }

  lemma {:induction false} VisitsNext(prev: seq<real>, cur: seq<real>, from: Cell, c: Cell)
    requires OnGrid(prev, cur, from) && Visits(prev, cur, from, c)
    ensures OnGrid(prev, cur, c)
    ensures !AtEnd(prev, cur, c) ==> Visits(prev, cur, from, Move(prev, cur, c))
    decreases Distance(cur, from)
  {
    if from != c { VisitsNext(prev, cur, Move(prev, cur, from), c); }
  }

  lemma {:induction false} RowEndVisited(prev: seq<real>, cur: seq<real>, c: Cell)
    requires Comparable(prev, cur) && Visited(prev, cur, c) && OnGrid(prev, cur, c)
    ensures Visited(prev, cur, Cell(c.cur, RowEnd(prev, cur, c)))
    decreases Distance(cur, c)
  {
    if !(AtEnd(prev, cur, c) || Move(prev, cur, c).cur != c.cur) {
      VisitsNext(prev, cur, Cell(0, 0), c);
      RowEndVisited(prev, cur, Move(prev, cur, c));
    }
  }

  lemma {:induction false} MatchedBinVisited(prev: seq<real>, cur: seq<real>, i: nat)
    requires Comparable(prev, cur) && i < |cur|
    ensures Visited(prev, cur, Cell(i, RowStart(prev, cur, i)))
    ensures Visited(prev, cur, Cell(i, MatchedBin(prev, cur, i)))
    decreases i
  {
    if i > 0 {
      MatchedBinVisited(prev, cur, i - 1);
      VisitsNext(prev, cur, Cell(0, 0), Cell(i - 1, MatchedBin(prev, cur, i - 1)));
    }
    RowEndVisited(prev, cur, Cell(i, RowStart(prev, cur, i)));
  }

  /** Staying on course: every visited cell leads to the same end of its row. */
  predicate OnCourse(prev: seq<real>, cur: seq<real>, c: Cell)
    requires OnGrid(prev, cur, c)
  {
    RowEnd(prev, cur, c) == MatchedBin(prev, cur, c.cur)
  }

  lemma MoveOnCourse(prev: seq<real>, cur: seq<real>, c: Cell)
    requires OnGrid(prev, cur, c) && !AtEnd(prev, cur, c) && OnCourse(prev, cur, c)
    ensures OnCourse(prev, cur, Move(prev, cur, c))
    ensures Move(prev, cur, c).cur != c.cur ==> c.prev == MatchedBin(prev, cur, c.cur)
  {
  }

  lemma {:induction false} VisitedOnCourse(prev: seq<real>, cur: seq<real>, from: Cell, c: Cell)
    requires OnGrid(prev, cur, from) && OnCourse(prev, cur, from) && Visits(prev, cur, from, c)
    ensures OnGrid(prev, cur, c) && OnCourse(prev, cur, c)
    decreases Distance(cur, from)
  {
    if from != c {
      MoveOnCourse(prev, cur, from);
      VisitedOnCourse(prev, cur, Move(prev, cur, from), c);
    }
  }

  /** m(i) is the largest previous bin the walk pairs with row `i`. */
  lemma MatchedBinIsLastVisited(prev: seq<real>, cur: seq<real>, i: nat)
    requires Comparable(prev, cur) && i < |cur|
    ensures Visited(prev, cur, Cell(i, MatchedBin(prev, cur, i)))
    ensures forall j: nat | Visited(prev, cur, Cell(i, j)) :: j <= MatchedBin(prev, cur, i)
  {
    MatchedBinVisited(prev, cur, i);
    forall j: nat | Visited(prev, cur, Cell(i, j))
      ensures j <= MatchedBin(prev, cur, i)
    {
      VisitedOnCourse(prev, cur, Cell(0, 0), Cell(i, j));
    }
  }

  lemma MatchedBinsAscend(prev: seq<real>, cur: seq<real>, i: nat, k: nat)
    requires Comparable(prev, cur) && i <= k < |cur|
    ensures MatchedBin(prev, cur, i) <= MatchedBin(prev, cur, k)
    decreases k - i
  {
    if i < k { MatchedBinsAscend(prev, cur, i, k - 1); }
  }

  lemma {:induction false} LastRowReachesEnd(prev: seq<real>, cur: seq<real>)
    requires Comparable(prev, cur)
    ensures MatchedBin(prev, cur, |cur| - 1) == |prev| - 1
  {
    MatchedBinVisited(prev, cur, |cur| - 1);
    var e := Cell(|cur| - 1, MatchedBin(prev, cur, |cur| - 1));
    assert AtEnd(prev, cur, e);
  }

  // ---------------------------------------------------------------- number of iterations

  /** Loop iterations left from `c`. */
  function Iterations(prev: seq<real>, cur: seq<real>, c: Cell): nat
    requires OnGrid(prev, cur, c)
    decreases Distance(cur, c)
  {
    if AtEnd(prev, cur, c) then 0 else 1 + Iterations(prev, cur, Move(prev, cur, c))
  }

  lemma {:induction false} IterationBounds(prev: seq<real>, cur: seq<real>, c: Cell)
    requires OnGrid(prev, cur, c)
    ensures |cur| - 1 - c.cur <= Iterations(prev, cur, c) <= Distance(cur, c)
    ensures |prev| - 1 - c.prev <= Iterations(prev, cur, c)
    decreases Distance(cur, c)
  {
    if !AtEnd(prev, cur, c) { IterationBounds(prev, cur, Move(prev, cur, c)); }
  }

  // ---------------------------------------------------------------- the two distributions agree

  /** The previous distribution has not overtaken the current one by more than its last bin. */
  predicate NotAhead(prev: seq<real>, cur: seq<real>, c: Cell)
    requires OnGrid(prev, cur, c)
  {
    c.cur < |cur| - 1 && c.prev > 0 ==> Below(prev, c.prev - 1) <= Below(cur, c.cur)
  }

  lemma {:induction false} VisitedNotAhead(prev: seq<real>, cur: seq<real>, from: Cell, c: Cell)
    requires OnGrid(prev, cur, from) && NotAhead(prev, cur, from) && NonNegative(cur)
    requires Visits(prev, cur, from, c)
    ensures OnGrid(prev, cur, c) && NotAhead(prev, cur, c)
    decreases Distance(cur, from)
  {
    if from != c { VisitedNotAhead(prev, cur, Move(prev, cur, from), c); }
  }

  /** Each row but the last is left where the two cumulative distributions cross. */
  lemma Sandwich(prev: seq<real>, cur: seq<real>, i: nat)
    requires Comparable(prev, cur) && NonNegative(cur) && i < |cur| - 1
    ensures var m := MatchedBin(prev, cur, i);
            && (m == |prev| - 1 || Below(prev, m) >= Below(cur, i))
            && (m == 0 || Below(prev, m - 1) <= Below(cur, i))
  {
    MatchedBinVisited(prev, cur, i);
    VisitedNotAhead(prev, cur, Cell(0, 0), Cell(i, MatchedBin(prev, cur, i)));
  }

  /** For equal total mass the matched fractions differ by at most one previous bin. */
  lemma MatchedFractionsAreClose(prev: seq<real>, cur: seq<real>, i: nat, largest: real)
    requires Comparable(prev, cur) && NonNegative(prev) && NonNegative(cur) && i < |cur| - 1
    requires Below(prev, |prev|) == Below(cur, |cur|) && BinsAtMost(prev, largest)
    ensures var m := MatchedBin(prev, cur, i);
            -largest <= Below(prev, m) - Below(cur, i) <= largest
  {
    var m := MatchedBin(prev, cur, i);
    Sandwich(prev, cur, i);
    BelowMonotone(cur, 0, i);
    BelowMonotone(cur, i, |cur|);
    assert Below(prev, |prev|) == Below(prev, |prev| - 1) + prev[|prev| - 1];
    assert prev[|prev| - 1] <= largest;
    if m > 0 { assert prev[m - 1] <= largest; }
  }

  // ---------------------------------------------------------------- refinement of a search

  /** `j` is the first bin whose lower part weighs at least `target`, or the last bin. */
  predicate FirstAtLeast(prev: seq<real>, target: real, j: nat)
    requires j < |prev|
  {
    && (j == |prev| - 1 || Below(prev, j) >= target)
    && (forall k | 0 <= k < j :: Below(prev, k) < target)
  }

  predicate StrictlyBehind(prev: seq<real>, cur: seq<real>, c: Cell)
    requires OnGrid(prev, cur, c)
  {
    c.cur < |cur| - 1 && c.prev > 0 ==> Below(prev, c.prev - 1) < Below(cur, c.cur)
  }

  lemma {:induction false} RowStaysBehind(prev: seq<real>, cur: seq<real>, c: Cell)
    requires OnGrid(prev, cur, c) && StrictlyBehind(prev, cur, c)
    ensures StrictlyBehind(prev, cur, Cell(c.cur, RowEnd(prev, cur, c)))
    decreases Distance(cur, c)
  {
    if !(AtEnd(prev, cur, c) || Move(prev, cur, c).cur != c.cur) {
      RowStaysBehind(prev, cur, Move(prev, cur, c));
    }
  }

  lemma RowStartsBehind(prev: seq<real>, cur: seq<real>, i: nat)
    requires Comparable(prev, cur) && NonNegative(prev) && NonNegative(cur) && i < |cur| - 1
    requires i == 0 || cur[i - 1] > 0.0
    ensures StrictlyBehind(prev, cur, Cell(i, RowStart(prev, cur, i)))
  {
    if i > 0 { Sandwich(prev, cur, i - 1); }
  }

  /** A row entered over a bin that is not empty is left where a linear search would stop. */
  lemma RowIsSearched(prev: seq<real>, cur: seq<real>, i: nat)
    requires Comparable(prev, cur) && NonNegative(prev) && NonNegative(cur) && i < |cur| - 1
    requires i == 0 || cur[i - 1] > 0.0
    ensures FirstAtLeast(prev, Below(cur, i), MatchedBin(prev, cur, i))
  {
    var m := MatchedBin(prev, cur, i);
    Sandwich(prev, cur, i);
    RowStartsBehind(prev, cur, i);
    RowStaysBehind(prev, cur, Cell(i, RowStart(prev, cur, i)));
    forall k | 0 <= k < m
      ensures Below(prev, k) < Below(cur, i)
    {
      BelowMonotone(prev, k, m - 1);
    }
  }

  /** With no empty current bin the walk finds, for every row, what a linear search would. */
  lemma WalkRefinesSearch(prev: seq<real>, cur: seq<real>, i: nat, j: nat)
    requires Comparable(prev, cur) && NonNegative(prev) && Positive(cur)
    requires i < |cur| - 1 && j < |prev|
    ensures FirstAtLeast(prev, Below(cur, i), j) <==> j == MatchedBin(prev, cur, i)
  {
    RowIsSearched(prev, cur, i);
  }

  /** The walk never stops short of the bin the search finds. */
  lemma NotBeforeSearched(prev: seq<real>, cur: seq<real>, i: nat, found: nat)
    requires Comparable(prev, cur) && NonNegative(cur) && i < |cur| - 1 && found < |prev|
    requires FirstAtLeast(prev, Below(cur, i), found)
    ensures MatchedBin(prev, cur, i) >= found
  {
    Sandwich(prev, cur, i);
  }

  /**
   With empty bins allowed, a row agrees with the search exactly when the bin before it is
   not empty, or the search ends at the last bin, or it ends strictly above its target.
   */
  lemma {:induction false} SearchedExactly(prev: seq<real>, cur: seq<real>, i: nat, found: nat)
    requires Comparable(prev, cur) && NonNegative(prev) && NonNegative(cur)
    requires i < |cur| - 1 && found < |prev| && FirstAtLeast(prev, Below(cur, i), found)
    ensures MatchedBin(prev, cur, i) == found <==>
            i == 0 || cur[i - 1] > 0.0 || found == |prev| - 1 || Below(prev, found) > Below(cur, i)
    decreases i
  {
    if i == 0 || cur[i - 1] > 0.0 {
      RowIsSearched(prev, cur, i);
    } else {
      SearchedExactly(prev, cur, i - 1, found);
      NotBeforeSearched(prev, cur, i - 1, found);
      MatchedBinsAscend(prev, cur, i - 1, i);
      EmptyRow(prev, cur, i);
    }
  }

  /** Crossing an empty bin: from a tie the walk steps on, from above it stays. */
  lemma EmptyRow(prev: seq<real>, cur: seq<real>, i: nat)
    requires Comparable(prev, cur) && 0 < i < |cur| - 1 && cur[i - 1] == 0.0
    ensures var m := MatchedBin(prev, cur, i - 1);
            && (Below(prev, m) > Below(cur, i) ==> MatchedBin(prev, cur, i) == m)
            && (Below(prev, m) == Below(cur, i) && m < |prev| - 1 ==> MatchedBin(prev, cur, i) > m)
  {
    var m := MatchedBin(prev, cur, i - 1);
    assert Below(cur, i) == Below(cur, i - 1);
    assert RowStart(prev, cur, i) == Move(prev, cur, Cell(i - 1, m)).prev;
  }

  /** Two equal halves, in the bins from `first` on. */
  function Halves(n: nat, first: nat): (h: seq<real>)
    ensures |h| == n
  {
    seq(n, i requires 0 <= i < n => if i == first || i == first + 1 then 0.5 else 0.0)
  }

  /**
   For any number of bins from three on, an empty current bin can make the walk overshoot:
   row 1 asks for bin 0 and is given bin 1.
   */
  lemma EmptyBinOvershoots(n: nat)
    requires n >= 3
    ensures var prev, cur := Halves(n, 0), Halves(n, 1);
            && NonNegative(prev) && NonNegative(cur)
            && Below(prev, 2) == 1.0 && Below(cur, 3) == 1.0
            && FirstAtLeast(prev, Below(cur, 1), 0) && MatchedBin(prev, cur, 1) == 1
  {
    var prev, cur := Halves(n, 0), Halves(n, 1);
    assert Below(cur, 0) == 0.0 && Below(cur, 1) == 0.0 && Below(cur, 2) == 0.5;
    assert Below(prev, 0) == 0.0 && Below(prev, 1) == 0.5;
    assert Move(prev, cur, Cell(0, 0)) == Cell(1, 1);
    assert RowStart(prev, cur, 1) == 1;
    assert Move(prev, cur, Cell(1, 1)) == Cell(2, 1);
  }

  // ---------------------------------------------------------------- symmetry

  function Swap(c: Cell): Cell {
    Cell(c.prev, c.cur)
  }

  lemma {:induction false} VisitsTransposed(prev: seq<real>, cur: seq<real>, from: Cell, c: Cell)
    requires OnGrid(prev, cur, from)
    ensures Visits(prev, cur, from, c) <==> Visits(cur, prev, Swap(from), Swap(c))
    decreases Distance(cur, from)
  {
    if from != c && !AtEnd(prev, cur, from) {
      assert Move(cur, prev, Swap(from)) == Swap(Move(prev, cur, from));
      VisitsTransposed(prev, cur, Move(prev, cur, from), c);
    }
  }

  /** Swapping the histograms transposes the walk, so mapping there and back never loses a row. */
  lemma ReverseMapCovers(prev: seq<real>, cur: seq<real>, i: nat)
    requires Comparable(prev, cur) && i < |cur|
    ensures MatchedBin(cur, prev, MatchedBin(prev, cur, i)) >= i
    ensures forall j: nat :: Visited(prev, cur, Cell(i, j)) <==> Visited(cur, prev, Cell(j, i))
  {
    var m := MatchedBin(prev, cur, i);
    forall j: nat
      ensures Visited(prev, cur, Cell(i, j)) <==> Visited(cur, prev, Cell(j, i))
    {
      VisitsTransposed(prev, cur, Cell(0, 0), Cell(i, j));
    }
    MatchedBinVisited(prev, cur, i);
    MatchedBinIsLastVisited(cur, prev, m);
    assert Visited(cur, prev, Cell(m, i));
  }

  /** A histogram is matched with itself bin by bin. */
  lemma {:induction false} SelfMatch(h: seq<real>, i: nat)
    requires |h| >= 2 && i < |h|
    ensures MatchedBin(h, h, i) == i
    decreases i
  {
    if i > 0 {
      SelfMatch(h, i - 1);
      assert RowStart(h, h, i) == i;
    }
  }

  // ---------------------------------------------------------------- the table

  function Scaled(bin: nat, quantumRange: real): real {
    bin as real * quantumRange
  }

  /** The lower edge of a bin on the quantum scale. */
  function Level(bin: nat, quantumRange: real, segments: nat): real
    requires segments > 0
  {
    Scaled(bin, quantumRange) / segments as real
  }

  /** An entry of the table; the last is scaled without the division by the bin count. */
  function Entry(prev: seq<real>, cur: seq<real>, quantumRange: real, i: nat): real
    requires Comparable(prev, cur) && i < |cur|
  {
    if i < |cur| - 1 then Level(MatchedBin(prev, cur, i), quantumRange, |cur|)
    else Scaled(|cur| - 1, quantumRange)
  }

  function Parameters(prev: seq<real>, cur: seq<real>, quantumRange: real): (table: seq<real>)
    requires Comparable(prev, cur)
    ensures |table| == |cur|
  {
    var n := |cur|;
    seq(n, i requires 0 <= i < n => Entry(prev, cur, quantumRange, i))
  }

  /** Leaving a row, the walk has just written the row's final entry. */
  lemma RowsWritten(prev: seq<real>, cur: seq<real>, quantumRange: real, c: Cell)
    requires OnGrid(prev, cur, c) && !AtEnd(prev, cur, c) && OnCourse(prev, cur, c)
    ensures OnCourse(prev, cur, Move(prev, cur, c))
    ensures Move(prev, cur, c).cur != c.cur ==>
              Parameters(prev, cur, quantumRange)[c.cur] == Level(c.prev, quantumRange, |cur|)
  {
    MoveOnCourse(prev, cur, c);
  }

  /** The five-way branch of the loop body, with the running sums kept in step. */
  method Advance(prev: seq<real>, cur: seq<real>, i: nat, j: nat, current: real, previous: real)
    returns (i': nat, j': nat, current': real, previous': real)
    requires OnGrid(prev, cur, Cell(i, j)) && !AtEnd(prev, cur, Cell(i, j))
    requires current == Below(cur, i) && previous == Below(prev, j)
    ensures Cell(i', j') == Move(prev, cur, Cell(i, j))
    ensures current' == Below(cur, i') && previous' == Below(prev, j')
  {
    var n := |cur|;
    i', j', current', previous' := i, j, current, previous;
    if current < previous {
      if i < n - 1 {
        current' := current + cur[i];
        i' := i + 1;
      } else {
        previous' := previous + prev[j];
        j' := j + 1;
      }
    } else if current > previous {
      if j < n - 1 {
        previous' := previous + prev[j];
        j' := j + 1;
      } else {
        current' := current + cur[i];
        i' := i + 1;
      }
    } else {
      if i < n - 1 {
        current' := current + cur[i];
        i' := i + 1;
      }
      if j < n - 1 {
        previous' := previous + prev[j];
        j' := j + 1;
      }
    }
  }

  method GetEqualisationParameters(prev: seq<real>, cur: seq<real>, quantumRange: real)
    returns (table: seq<real>)
    requires Comparable(prev, cur)
    ensures table == Parameters(prev, cur, quantumRange)
  {
    var n := |cur|;
    var cumulativePrevious, cumulativeCurrent := 0.0, 0.0;
    var previousBin, currentBin := 0, 0;
    var mapping := new real[n](_ => 0.0);
    ghost var expected := Parameters(prev, cur, quantumRange);
    while currentBin != n - 1 || previousBin != n - 1
      invariant 0 <= currentBin < n && 0 <= previousBin < n
      invariant cumulativePrevious == Below(prev, previousBin)
      invariant cumulativeCurrent == Below(cur, currentBin)
      invariant OnCourse(prev, cur, Cell(currentBin, previousBin))
      invariant forall k | 0 <= k < currentBin :: mapping[k] == expected[k]
      decreases 2 * (n - 1) - currentBin - previousBin
    {
      ghost var c := Cell(currentBin, previousBin);
      RowsWritten(prev, cur, quantumRange, c);
      mapping[currentBin] := Level(previousBin, quantumRange, n);
      currentBin, previousBin, cumulativeCurrent, cumulativePrevious :=
        Advance(prev, cur, currentBin, previousBin, cumulativeCurrent, cumulativePrevious);
    }
    mapping[n - 1] := Scaled(previousBin, quantumRange);
    table := mapping[..];
    assert forall k | 0 <= k < n :: table[k] == expected[k];
  }
}
