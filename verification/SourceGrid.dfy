/** The sources of a bucket seen through the boundaries of the source timeframe. */
module SourceGrid {
  import opened Timeframe
  import opened Rollup
  import opened Storage
  import opened Cascade

  function GridKey(series: Series, frame: Frame, j: int): Key { Key(series, frame, Boundary(frame, j)) }

  predicate GridFilled(rows: Rows, series: Series, frame: Frame, first: int, limit: int) {
    forall j :: first <= j < limit ==> HasFinal(rows, GridKey(series, frame, j))
  }

  /** The rows at the boundaries from..to. */
  function GridRows(rows: Rows, series: Series, frame: Frame, first: int, limit: int): (bars: seq<Bar>)
    requires GridFilled(rows, series, frame, first, limit)
    ensures |bars| == if first <= limit then limit - first else 0
    ensures forall i :: 0 <= i < |bars| ==> bars[i] == rows[GridKey(series, frame, first + i)]
    decreases limit - first
  {
    if first >= limit then []
    else [rows[GridKey(series, frame, first)]] + GridRows(rows, series, frame, first + 1, limit)
  }

  /** A final row between two boundaries of its own timeframe. */
  ghost predicate OffGrid(rows: Rows, series: Series, frame: Frame, lo: int, hi: int) {
    exists t :: lo <= t <= hi && HasFinal(rows, Key(series, frame, t)) && !Aligned(t, frame)
  }

  lemma {:induction false} RangeIsGrid(rows: Rows, series: Series, frame: Frame, first: int, limit: int)
    requires first <= limit && GridFilled(rows, series, frame, first, limit)
    requires !OffGrid(rows, series, frame, Boundary(frame, first), Boundary(frame, limit) - 1)
    ensures RangeBars(rows, series, frame, Boundary(frame, first), Boundary(frame, limit) - 1)
         == GridRows(rows, series, frame, first, limit)
    decreases limit - first
  {
    hide Boundary, Aligned;
    if first < limit {
      var lo, mid, hi := Boundary(frame, first), Boundary(frame, first + 1), Boundary(frame, limit) - 1;
      BoundariesIncrease(frame, first, first + 1);
      if first + 1 < limit { BoundariesIncrease(frame, first + 1, limit); }
      RangeSplit(rows, series, frame, lo, mid, hi);
      assert HasFinal(rows, GridKey(series, frame, first));
      forall t | lo + 1 <= t <= mid - 1 ensures !HasFinal(rows, Key(series, frame, t)) {
        StrictlyInside(frame, first, t);
      }
      OneRow(rows, series, frame, lo, mid - 1);
      RangeIsGrid(rows, series, frame, first + 1, limit);
    }
  }

  lemma OneRow(rows: Rows, series: Series, frame: Frame, lo: int, hi: int)
    requires lo <= hi && HasFinal(rows, Key(series, frame, lo))
    requires forall t :: lo + 1 <= t <= hi ==> !HasFinal(rows, Key(series, frame, t))
    ensures RangeBars(rows, series, frame, lo, hi) == [rows[Key(series, frame, lo)]]
  {
    RangeSplit(rows, series, frame, lo, lo + 1, hi);
    RangeSingle(rows, series, frame, lo);
    RangeSkipsEmpty(rows, series, frame, lo + 1, hi);
  }

  lemma StrictlyInside(frame: Frame, j: int, t: int)
    requires Boundary(frame, j) < t < Boundary(frame, j + 1)
    ensures !Aligned(t, frame)
  {
    hide Boundary, Aligned, BucketIndex;
    BucketUnique(frame, t, j);
    AlignedIsBoundary(t, frame);
  }

  /** The source boundaries of an aligned bucket: the first one, and the first one past its end. */
  function FirstSource(bucket: Key): int
    requires RollupSource(bucket.frame).Some?
  {
    BucketIndex(RollupSource(bucket.frame).value, bucket.start)
  }

  function LastSource(bucket: Key): int
    requires RollupSource(bucket.frame).Some?
  {
    BucketIndex(RollupSource(bucket.frame).value, NextStart(bucket.start, bucket.frame))
  }

  lemma SourceSpan(bucket: Key)
    requires RollupSource(bucket.frame).Some? && Aligned(bucket.start, bucket.frame)
    ensures var source := RollupSource(bucket.frame).value;
            && Boundary(source, FirstSource(bucket)) == bucket.start
            && Boundary(source, LastSource(bucket)) == EndMS(bucket.start, bucket.frame) + 1
            && FirstSource(bucket) < LastSource(bucket)
  {
    hide Boundary, BucketIndex, Aligned, NextStart, EndMS, Refines;
    var source := RollupSource(bucket.frame).value;
    var k := BucketIndex(bucket.frame, bucket.start);
    SourceRefines(bucket.frame);
    AlignedIsBoundary(bucket.start, bucket.frame);
    SharedBoundary(source, bucket.frame, k);
    SharedBoundary(source, bucket.frame, k + 1);
    NextOfBoundary(bucket.frame, k);
    BoundariesIncrease(bucket.frame, k, k + 1);
    var first, limit := FirstSource(bucket), LastSource(bucket);
    if limit < first { BoundariesIncrease(source, limit, first); }
  }

  /** A complete list of sources steps through the source boundaries one by one. */
  lemma {:induction false} CompleteSteps(bars: seq<Bar>, source: Frame, first: int, hi: int, i: nat)
    requires Complete(bars, source, Boundary(source, first), hi) && i < |bars|
    ensures bars[i].start == Boundary(source, first + i)
  {
    hide Boundary, NextStart;
    if i > 0 {
      CompleteSteps(bars, source, first, hi, i - 1);
      NextOfBoundary(source, first + i - 1);
    }
  }

  lemma CompleteFillsGrid(rows: Rows, bucket: Key)
    requires WellKeyed(rows) && Ready(rows, bucket) && Aligned(bucket.start, bucket.frame)
    ensures var source := RollupSource(bucket.frame).value;
            && GridFilled(rows, bucket.series, source, FirstSource(bucket), LastSource(bucket))
            && !OffGrid(rows, bucket.series, source, bucket.start, EndMS(bucket.start, bucket.frame))
  {
    hide Boundary, NextStart, EndMS, Aligned, FirstSource, LastSource, RangeBars, BucketIndex;
    var source, series := RollupSource(bucket.frame).value, bucket.series;
    var lo, hi := bucket.start, EndMS(bucket.start, bucket.frame);
    var first, limit := FirstSource(bucket), LastSource(bucket);
    var bars := SourceBars(rows, bucket);
    SourceSpan(bucket);
    RangeContents(rows, series, source, lo, hi);
    var last := |bars| - 1;
    CompleteSteps(bars, source, first, hi, last);
    NextOfBoundary(source, first + last);
    assert bars[last] in bars && RowOfRange(rows, series, source, lo, hi, bars[last]);
    assert first + |bars| >= limit by {
      if first + |bars| < limit { BoundariesIncrease(source, first + last + 1, limit); }
    }
    forall j | first <= j < limit ensures HasFinal(rows, GridKey(series, source, j)) {
      CompleteSteps(bars, source, first, hi, j - first);
      assert bars[j - first] in bars && RowOfRange(rows, series, source, lo, hi, bars[j - first]);
    }
    forall t | lo <= t <= hi && HasFinal(rows, Key(series, source, t)) ensures Aligned(t, source) {
      var bar := rows[Key(series, source, t)];
      assert bar in bars;
      var i :| 0 <= i < |bars| && bars[i] == bar;
      CompleteSteps(bars, source, first, hi, i);
      BoundaryAligned(source, first + i);
      assert RowOfRange(rows, series, source, lo, hi, bar);
    }
  }

  /** What the batch repair looks at: the rows found at the source boundaries. */
  predicate GridReady(rows: Rows, bucket: Key) {
    && RollupSource(bucket.frame).Some?
    && var source := RollupSource(bucket.frame).value;
    && GridFilled(rows, bucket.series, source, FirstSource(bucket), LastSource(bucket))
    && Complete(GridRows(rows, bucket.series, source, FirstSource(bucket), LastSource(bucket)), source,
                bucket.start, EndMS(bucket.start, bucket.frame))
  }

  /** The queue reads a bucket's whole range, the batch repair only its boundaries: they find
      the same bucket ready exactly when no final source row lies between boundaries. */
  lemma ReadyIffOnGrid(rows: Rows, bucket: Key)
    requires WellKeyed(rows) && RollupSource(bucket.frame).Some? && Aligned(bucket.start, bucket.frame)
    ensures var source := RollupSource(bucket.frame).value;
            && (Ready(rows, bucket) <==>
                  GridReady(rows, bucket)
                  && !OffGrid(rows, bucket.series, source, bucket.start, EndMS(bucket.start, bucket.frame)))
            && (Ready(rows, bucket) ==>
                  SourceBars(rows, bucket) == GridRows(rows, bucket.series, source, FirstSource(bucket), LastSource(bucket)))
  {
    hide Boundary, NextStart, EndMS, Aligned, FirstSource, LastSource, RangeBars, GridRows, Complete, BucketIndex, OffGrid;
    var source := RollupSource(bucket.frame).value;
    SourceSpan(bucket);
    if Ready(rows, bucket) {
      CompleteFillsGrid(rows, bucket);
    }
    if GridFilled(rows, bucket.series, source, FirstSource(bucket), LastSource(bucket)) {
      if !OffGrid(rows, bucket.series, source, bucket.start, EndMS(bucket.start, bucket.frame)) {
        RangeIsGrid(rows, bucket.series, source, FirstSource(bucket), LastSource(bucket));
      }
    }
  }

  /** One final row between boundaries is enough to part the two: the batch repair still
      rebuilds the bucket, the queue no longer does. */
  lemma OffGridRowParts(rows: Rows, bucket: Key, stray: Bar)
    requires WellKeyed(rows) && Ready(rows, bucket) && Aligned(bucket.start, bucket.frame)
    requires stray.isFinal && stray.series == bucket.series && Some(stray.frame) == RollupSource(bucket.frame)
    requires bucket.start <= stray.start <= EndMS(bucket.start, bucket.frame) && !Aligned(stray.start, stray.frame)
    ensures var rows' := rows[KeyOf(stray) := stray];
            GridReady(rows', bucket) && !Ready(rows', bucket)
  {
    hide Boundary, NextStart, EndMS, Aligned, FirstSource, LastSource, RangeBars, Complete, BucketIndex;
    var rows' := rows[KeyOf(stray) := stray];
    var source := RollupSource(bucket.frame).value;
    var first, limit := FirstSource(bucket), LastSource(bucket);
    ReadyIffOnGrid(rows, bucket);
    ReadyIffOnGrid(rows', bucket);
    forall j | first <= j < limit
      ensures HasFinal(rows', GridKey(bucket.series, source, j))
           && rows'[GridKey(bucket.series, source, j)] == rows[GridKey(bucket.series, source, j)]
    {
      BoundaryAligned(source, j);
      assert HasFinal(rows, GridKey(bucket.series, source, j));
    }
    assert GridRows(rows', bucket.series, source, first, limit) == GridRows(rows, bucket.series, source, first, limit);
    assert HasFinal(rows', Key(bucket.series, source, stray.start));
  }
}
