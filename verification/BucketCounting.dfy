/** Counting buckets: the closed forms the auditor and the retention rules use, against the
    buckets they stand for. */
module BucketCounting {
  import opened Calendar
  import opened Timeframe

  lemma BoundaryOrder(tf: Frame, i: int, j: int)
    ensures i < j <==> Boundary(tf, i) < Boundary(tf, j)
    ensures i == j <==> Boundary(tf, i) == Boundary(tf, j)
  {
    hide Boundary;
    if i < j { BoundariesIncrease(tf, i, j); }
    if j < i { BoundariesIncrease(tf, j, i); }
  }

  /** The neighbours of an aligned start in terms of its index. */
  lemma AlignedNeighbours(start: int, tf: Frame)
    requires Aligned(start, tf)
    ensures start == Boundary(tf, BucketIndex(tf, start))
    ensures NextStart(start, tf) == Boundary(tf, BucketIndex(tf, start) + 1)
    ensures PreviousStart(start, tf) == Boundary(tf, BucketIndex(tf, start) - 1)
    ensures EndMS(start, tf) == NextStart(start, tf) - 1
    ensures Aligned(NextStart(start, tf), tf) && Aligned(PreviousStart(start, tf), tf)
    ensures BucketIndex(tf, NextStart(start, tf)) == BucketIndex(tf, start) + 1
    ensures BucketIndex(tf, PreviousStart(start, tf)) == BucketIndex(tf, start) - 1
  {
    hide Aligned, Boundary, BucketIndex, NextStart, PreviousStart, EndMS;
    var k := BucketIndex(tf, start);
    AlignedIsBoundary(start, tf);
    NextOfBoundary(tf, k);
    BoundaryAligned(tf, k + 1);
    BoundaryAligned(tf, k - 1);
    BoundaryIndex(tf, k + 1);
    BoundaryIndex(tf, k - 1);
  }

  /** Aligned starts are ordered as their indices are. */
  lemma AlignedOrder(a: int, b: int, tf: Frame)
    requires Aligned(a, tf) && Aligned(b, tf)
    ensures a < b <==> BucketIndex(tf, a) < BucketIndex(tf, b)
    ensures a == b <==> BucketIndex(tf, a) == BucketIndex(tf, b)
  {
    hide Aligned, Boundary, BucketIndex;
    AlignedIsBoundary(a, tf);
    AlignedIsBoundary(b, tf);
    BoundaryOrder(tf, BucketIndex(tf, a), BucketIndex(tf, b));
  }

  /** The aligned starts strictly between two aligned starts. */
  lemma StrictlyBetween(a: int, b: int, t: int, tf: Frame)
    requires Aligned(a, tf) && Aligned(b, tf) && Aligned(t, tf)
    ensures a < t < b <==> NextStart(a, tf) <= t <= PreviousStart(b, tf)
  {
    hide Aligned, Boundary, BucketIndex, NextStart, PreviousStart;
    AlignedNeighbours(a, tf);
    AlignedNeighbours(b, tf);
    AlignedOrder(a, t, tf);
    AlignedOrder(t, b, tf);
    AlignedOrder(NextStart(a, tf), t, tf);
    AlignedOrder(t, PreviousStart(b, tf), tf);
  }

  /** How many buckets start in first..last, by arithmetic alone. */
  function BucketCount(first: int, last: int, tf: Frame): int {
    if last < first then 0
    else if PeriodOf(tf).Months? then
      TruncDiv(MonthIndexOf(Day(last)) - MonthIndexOf(Day(first)), PeriodOf(tf).n) + 1
    else
      var width := NextStart(first, tf) - first;
      if width > 0 then (last - first) / width + 1 else 1
  }

  /** The closed form is right on aligned starts, calendar months included. */
  lemma CountIsDistance(first: int, last: int, tf: Frame)
    requires Aligned(first, tf) && Aligned(last, tf) && first <= last
    ensures BucketCount(first, last, tf) == BucketIndex(tf, last) - BucketIndex(tf, first) + 1
  {
    hide Aligned, FirstOfMonth, MonthIndexOf, Boundary, BucketIndex, BucketCount;
    AlignedIsBoundary(first, tf);
    AlignedIsBoundary(last, tf);
    var i, j := BucketIndex(tf, first), BucketIndex(tf, last);
    BoundaryOrder(tf, j, i);
    if PeriodOf(tf).Months? { MonthsApart(tf, i, j); } else { WidthsApart(tf, i, j); }
  }

  lemma MonthsApart(tf: Frame, i: int, j: int)
    requires PeriodOf(tf).Months? && i <= j && Boundary(tf, i) <= Boundary(tf, j)
    ensures BucketCount(Boundary(tf, i), Boundary(tf, j), tf) == j - i + 1
  {
    hide FirstOfMonth, MonthIndexOf, Boundary;
    var n := PeriodOf(tf).n;
    MonthOfBoundary(tf, i);
    MonthOfBoundary(tf, j);
    assert j * n - i * n == (j - i) * n;
    DivUnique((j - i) * n, n, j - i, 0);
    Nonnegative(j - i, n);
  }

  lemma WidthsApart(tf: Frame, i: int, j: int)
    requires !PeriodOf(tf).Months? && i <= j && Boundary(tf, i) <= Boundary(tf, j)
    ensures BucketCount(Boundary(tf, i), Boundary(tf, j), tf) == j - i + 1
  {
    hide NextStart;
    NextOfBoundary(tf, i);
    var w := WidthMS(tf);
    assert Boundary(tf, j) - Boundary(tf, i) == (j - i) * w && Boundary(tf, i + 1) - Boundary(tf, i) == w by {
      assert (i + 1) * w == i * w + w && (j - i) * w == j * w - i * w;
    }
    DivUnique((j - i) * w, w, j - i, 0);
  }

  lemma Nonnegative(a: int, n: int)
    requires a >= 0 && n > 0
    ensures a * n >= 0
  {
  }

  lemma MonthOfBoundary(tf: Frame, k: int)
    requires PeriodOf(tf).Months?
    ensures MonthIndexOf(Day(Boundary(tf, k))) == k * PeriodOf(tf).n
  {
    hide FirstOfMonth, MonthIndexOf;
    MonthsIncrease(k * PeriodOf(tf).n, k * PeriodOf(tf).n + 1);
    MonthUnique(Day(Boundary(tf, k)), k * PeriodOf(tf).n);
  }

  /** The starts reached from `first` by stepping `n` times. */
  function Steps(first: int, n: nat, tf: Frame): seq<int>
    decreases n
  {
    if n == 0 then [] else [first] + Steps(NextStart(first, tf), n - 1, tf)
  }

  /** Stepping that often visits each aligned start of the range once, and nothing else. */
  lemma {:induction false} StepsAreTheStarts(first: int, n: nat, tf: Frame)
    requires Aligned(first, tf)
    ensures |Steps(first, n, tf)| == n
    ensures forall i :: 0 <= i < n ==> Steps(first, n, tf)[i] == Boundary(tf, BucketIndex(tf, first) + i)
    ensures forall t :: t in Steps(first, n, tf) <==>
              Aligned(t, tf) && BucketIndex(tf, first) <= BucketIndex(tf, t) < BucketIndex(tf, first) + n
    decreases n
  {
    hide Aligned, Boundary, BucketIndex, NextStart;
    AlignedNeighbours(first, tf);
    if n > 0 {
      StepsAreTheStarts(NextStart(first, tf), n - 1, tf);
      forall t | Aligned(t, tf) && BucketIndex(tf, t) == BucketIndex(tf, first) ensures t == first {
        AlignedOrder(t, first, tf);
      }
    }
  }

  // ----- completed buckets -----

  /** The start of the last bucket that ended by `watermark`. */
  function LatestCompletedStart(tf: Frame, watermark: int): int {
    var start := FloorStart(watermark, tf);
    if EndMS(start, tf) > watermark then PreviousStart(start, tf) else start
  }

  lemma LatestCompletedIsLatest(tf: Frame, watermark: int)
    requires watermark >= EPOCH_MONDAY
    ensures var latest := LatestCompletedStart(tf, watermark);
            && Aligned(latest, tf) && EndMS(latest, tf) <= watermark
            && forall start :: Aligned(start, tf) && start > latest ==> EndMS(start, tf) > watermark
  {
    hide Aligned, Boundary, BucketIndex, NextStart, PreviousStart, EndMS, FloorStart;
    Tiling(watermark, tf);
    var floor := FloorStart(watermark, tf);
    AlignedNeighbours(floor, tf);
    AlignedNeighbours(PreviousStart(floor, tf), tf);
    var latest := LatestCompletedStart(tf, watermark);
    forall start | Aligned(start, tf) && start > latest ensures EndMS(start, tf) > watermark {
      AlignedNeighbours(start, tf);
      AlignedOrder(latest, start, tf);
      AlignedOrder(floor, start, tf);
      AlignedOrder(NextStart(floor, tf), NextStart(start, tf), tf);
    }
  }

  /** The start of the oldest of the latest `keep` completed buckets. */
  method BarWindowStart(tf: Frame, end: int, keep: int) returns (start: int)
    requires end >= EPOCH_MONDAY
    ensures keep <= 0 ==> start == 0
    ensures keep > 0 ==> Aligned(start, tf) && BucketCount(start, LatestCompletedStart(tf, end), tf) == keep
    ensures keep > 0 ==> start == Boundary(tf, BucketIndex(tf, LatestCompletedStart(tf, end)) - keep + 1)
  {
    hide Aligned, Boundary, BucketIndex, NextStart, PreviousStart, EndMS, FloorStart, BucketCount;
    if keep <= 0 {
      return 0;
    }
    start := FloorStart(end, tf);
    if EndMS(start, tf) > end {
      start := PreviousStart(start, tf);
    }
    ghost var latest := LatestCompletedStart(tf, end);
    LatestCompletedIsLatest(tf, end);
    for i := 1 to keep
      invariant Aligned(start, tf) && BucketIndex(tf, start) == BucketIndex(tf, latest) - i + 1
    {
      AlignedNeighbours(start, tf);
      start := PreviousStart(start, tf);
    }
    AlignedNeighbours(start, tf);
    AlignedOrder(latest, start, tf);
    CountIsDistance(start, latest, tf);
  }

  /** The kept window is exactly the newest `keep` completed buckets. */
  lemma WindowHoldsKept(tf: Frame, end: int, keep: int, start: int)
    requires end >= EPOCH_MONDAY && keep > 0 && Aligned(start, tf)
    requires BucketCount(start, LatestCompletedStart(tf, end), tf) == keep
    ensures forall t :: t in Steps(start, keep, tf) <==> Aligned(t, tf) && start <= t && EndMS(t, tf) <= end
  {
    hide Aligned, Boundary, BucketIndex, NextStart, PreviousStart, EndMS, FloorStart, LatestCompletedStart;
    var latest := LatestCompletedStart(tf, end);
    LatestCompletedIsLatest(tf, end);
    CountIsDistance(start, latest, tf);
    StepsAreTheStarts(start, keep, tf);
    forall t | Aligned(t, tf)
      ensures BucketIndex(tf, start) <= BucketIndex(tf, t) < BucketIndex(tf, start) + keep <==> start <= t && EndMS(t, tf) <= end
    {
      AlignedOrder(t, start, tf);
      AlignedOrder(latest, t, tf);
      EarlierEnds(t, latest, tf);
    }
  }

  lemma EarlierEnds(a: int, b: int, tf: Frame)
    requires Aligned(a, tf) && Aligned(b, tf)
    ensures a <= b <==> EndMS(a, tf) <= EndMS(b, tf)
  {
    hide Aligned, Boundary, BucketIndex, NextStart, PreviousStart, EndMS, FloorStart;
    AlignedNeighbours(a, tf);
    AlignedNeighbours(b, tf);
    AlignedOrder(b, a, tf);
    AlignedOrder(NextStart(b, tf), NextStart(a, tf), tf);
  }
}
