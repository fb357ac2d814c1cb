/** A consistent store against the minutes: stored candles and live candles of every timeframe
    are flat rollups of one-minute candles. */
module FlatRollup {
  import opened Timeframe
  import opened Rollup
  import opened Aggregator
  import opened Storage
  import opened Cascade
  import opened SourceGrid

  /** The rows of a series that others are rolled up from sit on the grid of their timeframe; its
      minutes end where they should and report activity. */
  ghost predicate SoundRows(rows: Rows, series: Series) {
    && WellKeyed(rows)
    && forall k :: HasFinal(rows, k) && k.series == series && FeedsOthers(k.frame) ==>
         Aligned(k.start, k.frame) && (k.frame == M1 ==> SoundMinute(rows[k]))
  }

  predicate SoundMinute(bar: Bar) { NonNegative(bar) && bar.end == EndMS(bar.start, M1) }

  /** The timeframes that a configured one is built from are configured too. */
  predicate ChainClosed(frames: seq<Frame>) {
    forall tf :: tf in frames && RollupSource(tf).Some? && RollupSource(tf).value != M1 ==>
      RollupSource(tf).value in frames
  }

  function Minutes(rows: Rows, series: Series, lo: int, hi: int): seq<Bar> {
    RangeBars(rows, series, M1, lo, hi)
  }

  /** Every minute that starts in lo..hi is stored. */
  ghost predicate MinutesStored(rows: Rows, series: Series, lo: int, hi: int) {
    forall t :: lo <= t <= hi && Aligned(t, M1) ==> HasFinal(rows, Key(series, M1, t))
  }

  lemma StoredMinutes(rows: Rows, series: Series, lo: int, hi: int)
    requires SoundRows(rows, series) && MinutesStored(rows, series, lo, hi)
    requires lo <= hi && Aligned(lo, M1)
    ensures var minutes := Minutes(rows, series, lo, hi);
            && |minutes| > 0 && minutes[0].start == lo && minutes[0].series == series && AllNonNegative(minutes)
  {
    hide Aligned, EndMS, NonNegative;
    RangeContents(rows, series, M1, lo, hi);
    var minutes := Minutes(rows, series, lo, hi);
    RangeSplit(rows, series, M1, lo, lo + 1, hi);
    RangeSingle(rows, series, M1, lo);
    assert HasFinal(rows, Key(series, M1, lo));
    forall i | 0 <= i < |minutes| ensures NonNegative(minutes[i]) && minutes[i].series == series {
      assert minutes[i] in minutes && RowOfRange(rows, series, M1, lo, hi, minutes[i]);
    }
  }

  lemma NoOffGrid(rows: Rows, series: Series, frame: Frame, lo: int, hi: int)
    requires SoundRows(rows, series) && FeedsOthers(frame)
    ensures !OffGrid(rows, series, frame, lo, hi)
  {
    hide Aligned, EndMS, NonNegative;
  }

  /** Source bucket `j` is stored and ends where the next one starts. */
  predicate SourceAt(rows: Rows, series: Series, frame: Frame, j: int) {
    HasFinal(rows, GridKey(series, frame, j)) && rows[GridKey(series, frame, j)].end == Boundary(frame, j + 1) - 1
  }

  /** The row of source bucket `j` is the flat rollup of its minutes. */
  ghost predicate FlatAt(rows: Rows, series: Series, frame: Frame, j: int) {
    var minutes := Minutes(rows, series, Boundary(frame, j), Boundary(frame, j + 1) - 1);
    && SourceAt(rows, series, frame, j) && |minutes| > 0 && AllNonNegative(minutes)
    && rows[GridKey(series, frame, j)] == Rolled(frame, minutes, true)
  }

  lemma {:induction false} GridFold(rows: Rows, series: Series, frame: Frame, first: int, limit: int)
    requires first < limit
    requires forall j :: first <= j < limit ==> FlatAt(rows, series, frame, j)
    ensures GridFilled(rows, series, frame, first, limit)
    ensures var bars := GridRows(rows, series, frame, first, limit);
            var minutes := Minutes(rows, series, Boundary(frame, first), Boundary(frame, limit) - 1);
            |minutes| > 0 && AllNonNegative(minutes) && Fold(bars) == Fold(minutes)
    decreases limit - first
  {
    hide Boundary, RangeBars, Rolled, NonNegative, SummaryOf, Join;
    forall j | first <= j < limit ensures HasFinal(rows, GridKey(series, frame, j)) {
      assert FlatAt(rows, series, frame, j);
    }
    assert FlatAt(rows, series, frame, first);
    var bars := GridRows(rows, series, frame, first, limit);
    var lo, mid, hi := Boundary(frame, first), Boundary(frame, first + 1), Boundary(frame, limit) - 1;
    var head := Minutes(rows, series, lo, mid - 1);
    RolledSummary(frame, head, true);
    if first + 1 == limit {
      assert bars == [rows[GridKey(series, frame, first)]];
    } else {
      GridFold(rows, series, frame, first + 1, limit);
      BoundariesIncrease(frame, first, first + 1);
      BoundariesIncrease(frame, first + 1, limit);
      RangeSplit(rows, series, M1, lo, mid, hi);
      FoldConcat(head, Minutes(rows, series, mid, hi));
      assert bars[1..] == GridRows(rows, series, frame, first + 1, limit);
    }
  }

  /** Source rows that are rollups make their bucket ready. */
  lemma GridComplete(rows: Rows, bucket: Key)
    requires SoundRows(rows, bucket.series) && RollupSource(bucket.frame).Some? && Aligned(bucket.start, bucket.frame)
    requires var source := RollupSource(bucket.frame).value;
             forall j :: FirstSource(bucket) <= j < LastSource(bucket) ==> SourceAt(rows, bucket.series, source, j)
    ensures Ready(rows, bucket)
    ensures var source := RollupSource(bucket.frame).value;
            GridFilled(rows, bucket.series, source, FirstSource(bucket), LastSource(bucket))
            && SourceBars(rows, bucket) == GridRows(rows, bucket.series, source, FirstSource(bucket), LastSource(bucket))
  {
    hide Boundary, NextStart, EndMS, Aligned, FirstSource, LastSource, NonNegative, Ready, SourceBars;
    var source := RollupSource(bucket.frame).value;
    var first, limit := FirstSource(bucket), LastSource(bucket);
    SourceSpan(bucket);
    forall j | first <= j < limit ensures HasFinal(rows, GridKey(bucket.series, source, j)) {
      assert SourceAt(rows, bucket.series, source, j);
    }
    var bars := GridRows(rows, bucket.series, source, first, limit);
    forall i | 0 <= i < |bars|
      ensures bars[i].isFinal && bars[i].start == Boundary(source, first + i)
           && NextStart(bars[i].start, source) == Boundary(source, first + i + 1)
    {
      assert SourceAt(rows, bucket.series, source, first + i);
      NextOfBoundary(source, first + i);
    }
    assert SourceAt(rows, bucket.series, source, limit - 1);
    assert Complete(bars, source, bucket.start, EndMS(bucket.start, bucket.frame));
    SourceFeeds(bucket.frame);
    NoOffGrid(rows, bucket.series, source, bucket.start, EndMS(bucket.start, bucket.frame));
    ReadyIffOnGrid(rows, bucket);
  }

  lemma SubBucket(frames: seq<Frame>, bucket: Key, j: int)
    requires Configured(frames, bucket) && ChainClosed(frames)
    requires RollupSource(bucket.frame).value != M1
    requires FirstSource(bucket) <= j < LastSource(bucket)
    ensures var sub := GridKey(bucket.series, RollupSource(bucket.frame).value, j);
            && Configured(frames, sub)
            && bucket.start <= sub.start && EndMS(sub.start, sub.frame) <= EndMS(bucket.start, bucket.frame)
            && EndMS(sub.start, sub.frame) == Boundary(sub.frame, j + 1) - 1
  {
    hide Boundary, NextStart, EndMS, Aligned, FirstSource, LastSource;
    var source := RollupSource(bucket.frame).value;
    SourceSpan(bucket);
    BoundaryAligned(source, j);
    NextOfBoundary(source, j);
    if FirstSource(bucket) < j { BoundariesIncrease(source, FirstSource(bucket), j); }
    if j + 1 < LastSource(bucket) { BoundariesIncrease(source, j + 1, LastSource(bucket)); }
    SourceHasSource(bucket.frame);
  }

  lemma SourceHasSource(tf: Frame)
    requires RollupSource(tf).Some? && RollupSource(tf).value != M1
    ensures RollupSource(RollupSource(tf).value).Some? && Enabled(RollupSource(tf).value)
  {
  }

  /** In a consistent store, a configured candle whose minutes are all stored is stored too,
      and it is the flat rollup of those minutes, however many levels lie between. */
  lemma {:induction false} StoredIsFlat(rows: Rows, frames: seq<Frame>, bucket: Key)
    requires SoundRows(rows, bucket.series) && Consistent(rows, frames) && ChainClosed(frames)
    requires Configured(frames, bucket)
    requires MinutesStored(rows, bucket.series, bucket.start, EndMS(bucket.start, bucket.frame))
    ensures var minutes := Minutes(rows, bucket.series, bucket.start, EndMS(bucket.start, bucket.frame));
            && |minutes| > 0 && HasFinal(rows, bucket)
            && rows[bucket] == Rolled(bucket.frame, minutes, true)
    decreases Rank(bucket.frame), 0
  {
    hide Boundary, NextStart, EndMS, Aligned, FirstSource, LastSource, NonNegative, Ready, FloorStart, Refines,
         SoundRows, MinutesStored, ChainClosed, Minutes, FlatAt, GridFilled, Fold, Rank;
    var source, series := RollupSource(bucket.frame).value, bucket.series;
    var first, limit := FirstSource(bucket), LastSource(bucket);
    SourceRefines(bucket.frame);
    SourceSpan(bucket);
    MinutesOfBucket(rows, bucket);
    var minutes := Minutes(rows, series, bucket.start, EndMS(bucket.start, bucket.frame));
    if source == M1 {
      forall j | first <= j < limit
        ensures SourceAt(rows, series, M1, j)
      {
        MinuteRow(rows, bucket, j);
      }
      GridComplete(rows, bucket);
      assert ConsistentAt(rows, bucket);
      assert SourceBars(rows, bucket) == minutes by { MinutesAreSources(rows, bucket); }
    } else {
      forall j | first <= j < limit
        ensures FlatAt(rows, series, source, j) && SourceAt(rows, series, source, j)
      {
        SubBucket(frames, bucket, j);
        assert MinutesStored(rows, series, Boundary(source, j), Boundary(source, j + 1) - 1) by {
          StoredInside(rows, series, bucket.start, EndMS(bucket.start, bucket.frame), Boundary(source, j), Boundary(source, j + 1) - 1);
        }
        FlatBucket(rows, frames, series, source, j);
        FlatIsSource(rows, series, source, j);
      }
      GridComplete(rows, bucket);
      GridFold(rows, series, source, first, limit);
      assert ConsistentAt(rows, bucket);
      assert WellKeyed(rows) by { SoundKeyed(rows, series); }
      RolledLikeMinutes(rows, bucket, minutes);
    }
  }

  lemma FlatIsSource(rows: Rows, series: Series, frame: Frame, j: int)
    requires FlatAt(rows, series, frame, j)
    ensures SourceAt(rows, series, frame, j)
  {
    hide Boundary, Minutes, Rolled, NonNegative;
  }

  lemma SoundKeyed(rows: Rows, series: Series)
    requires SoundRows(rows, series)
    ensures WellKeyed(rows)
  {
  }

  lemma StoredInside(rows: Rows, series: Series, lo: int, hi: int, lo': int, hi': int)
    requires MinutesStored(rows, series, lo, hi) && lo <= lo' && hi' <= hi
    ensures MinutesStored(rows, series, lo', hi')
  {
    hide Aligned;
  }

  lemma MinutesAreSources(rows: Rows, bucket: Key)
    requires RollupSource(bucket.frame) == Some(M1)
    ensures SourceBars(rows, bucket) == Minutes(rows, bucket.series, bucket.start, EndMS(bucket.start, bucket.frame))
  {
    hide EndMS, RangeBars;
  }

  lemma MinutesOfBucket(rows: Rows, bucket: Key)
    requires SoundRows(rows, bucket.series) && RollupSource(bucket.frame).Some? && Aligned(bucket.start, bucket.frame)
    requires MinutesStored(rows, bucket.series, bucket.start, EndMS(bucket.start, bucket.frame))
    ensures var minutes := Minutes(rows, bucket.series, bucket.start, EndMS(bucket.start, bucket.frame));
            |minutes| > 0 && minutes[0].start == bucket.start && minutes[0].series == bucket.series
            && AllNonNegative(minutes)
  {
    hide Boundary, NextStart, EndMS, NonNegative, SoundRows, MinutesStored, BucketIndex, Aligned, Refines;
    var k := BucketIndex(bucket.frame, bucket.start);
    AlignedIsBoundary(bucket.start, bucket.frame);
    MinutesRefine(bucket.frame);
    SharedBoundary(M1, bucket.frame, k);
    BoundaryAligned(M1, BucketIndex(M1, bucket.start));
    NextOfBoundary(bucket.frame, k);
    BoundariesIncrease(bucket.frame, k, k + 1);
    StoredMinutes(rows, bucket.series, bucket.start, EndMS(bucket.start, bucket.frame));
  }

  lemma MinutesRefine(tf: Frame)
    ensures Refines(M1, tf)
  {
  }

  lemma MinuteRow(rows: Rows, bucket: Key, j: int)
    requires SoundRows(rows, bucket.series) && RollupSource(bucket.frame) == Some(M1) && Aligned(bucket.start, bucket.frame)
    requires MinutesStored(rows, bucket.series, bucket.start, EndMS(bucket.start, bucket.frame))
    requires FirstSource(bucket) <= j < LastSource(bucket)
    ensures SourceAt(rows, bucket.series, M1, j)
  {
    hide Boundary, NextStart, EndMS, NonNegative, Aligned, FirstSource, LastSource;
    SourceSpan(bucket);
    BoundaryAligned(M1, j);
    NextOfBoundary(M1, j);
    if FirstSource(bucket) < j { BoundariesIncrease(M1, FirstSource(bucket), j); }
    BoundariesIncrease(M1, j, LastSource(bucket));
  }

  lemma {:induction false} FlatBucket(rows: Rows, frames: seq<Frame>, series: Series, frame: Frame, j: int)
    requires SoundRows(rows, series) && Consistent(rows, frames) && ChainClosed(frames)
    requires Configured(frames, GridKey(series, frame, j))
    requires MinutesStored(rows, series, Boundary(frame, j), Boundary(frame, j + 1) - 1)
    ensures FlatAt(rows, series, frame, j)
    decreases Rank(frame), 1
  {
    hide Boundary, NextStart, EndMS, Aligned, NonNegative, FloorStart,
         SoundRows, ChainClosed, Minutes, Fold, Refines, Configured, Consistent, Rank;
    var sub := GridKey(series, frame, j);
    NextOfBoundary(frame, j);
    ConfiguredAligned(frames, sub);
    StoredIsFlat(rows, frames, sub);
    MinutesOfBucket(rows, sub);
    RolledSpan(frame, Minutes(rows, series, sub.start, EndMS(sub.start, frame)), true);
  }

  lemma RolledSpan(tf: Frame, bars: seq<Bar>, isFinal: bool)
    requires |bars| > 0
    ensures Aligned(bars[0].start, tf) ==>
              Rolled(tf, bars, isFinal).start == bars[0].start
              && Rolled(tf, bars, isFinal).end == EndMS(bars[0].start, tf)
  {
    hide FloorStart, EndMS, Fold;
  }

  lemma RolledLikeMinutes(rows: Rows, bucket: Key, minutes: seq<Bar>)
    requires WellKeyed(rows) && Ready(rows, bucket) && |minutes| > 0
    requires minutes[0].start == bucket.start && minutes[0].series == bucket.series
    requires Fold(SourceBars(rows, bucket)) == Fold(minutes)
    ensures RollupOf(rows, bucket) == Rolled(bucket.frame, minutes, true)
  {
    hide FloorStart, EndMS, Fold, NextStart, RangeBars;
    var source := RollupSource(bucket.frame).value;
    RangeContents(rows, bucket.series, source, bucket.start, EndMS(bucket.start, bucket.frame));
    assert SourceBars(rows, bucket)[0] in SourceBars(rows, bucket);
  }

  // ----- the live candle -----

  /** The stored sources of the bucket so far, the one in progress last. */
  function LiveInputs(rows: Rows, target: Frame, source: Frame, live: Bar, liveSource: Bar): seq<Bar> {
    RangeBars(rows, live.series, source, FloorStart(live.start, target), liveSource.start - 1) + [liveSource]
  }

  function LiveFrom(rows: Rows, target: Frame, source: Frame, live: Bar, liveSource: Bar): Bar {
    SortSorts(LiveInputs(rows, target, source, live, liveSource));
    Rolled(target, SortByStart(LiveInputs(rows, target, source, live, liveSource)), false)
  }

  /** The unfinished candle of `target` while a minute is in progress: the stored sources of
      the bucket so far, and the source in progress, which is itself built this way. */
  function LiveRollup(rows: Rows, target: Frame, live: Bar): Bar
    decreases Rank(target)
  {
    if RollupSource(target).None? then live
    else
      SourceRefines(target);
      var source := RollupSource(target).value;
      LiveFrom(rows, target, source, live, if source == M1 then live else LiveRollup(rows, source, live))
  }

  /** The minutes of the bucket in progress, the live one last. */
  function MinutesSoFar(rows: Rows, target: Frame, live: Bar): seq<Bar> {
    Minutes(rows, live.series, FloorStart(live.start, target), live.start - 1) + [live]
  }

  ghost predicate LiveReady(rows: Rows, frames: seq<Frame>, target: Frame, live: Bar) {
    && SoundRows(rows, live.series) && Consistent(rows, frames) && ChainClosed(frames)
    && (RollupSource(target).Some? && RollupSource(target).value != M1 ==> RollupSource(target).value in frames)
    && live.frame == M1 && NonNegative(live) && live.start >= EPOCH_MONDAY && Aligned(live.start, M1)
    && MinutesStored(rows, live.series, FloorStart(live.start, target), live.start - 1)
  }

  /** On a consistent store that holds the earlier minutes, the recursively built live candle
      is the flat rollup of the bucket's minutes so far. */
  lemma {:induction false} LiveIsFlat(rows: Rows, frames: seq<Frame>, target: Frame, live: Bar)
    requires LiveReady(rows, frames, target, live) && target != M1
    ensures LiveRollup(rows, target, live) == Rolled(target, MinutesSoFar(rows, target, live), false)
    decreases Rank(target)
  {
    hide LiveFrom, Rolled, RangeBars, SortByStart, Rank, FloorStart, Refines, LiveReady, MinutesSoFar, RollupSource;
    HasSource(target);
    SourceRefines(target);
    var source := RollupSource(target).value;
    if source == M1 {
      LiveFromMinutes(rows, frames, target, live);
    } else {
      LiveSourceReady(rows, frames, target, live);
      LiveIsFlat(rows, frames, source, live);
      LiveStep(rows, frames, target, live, LiveRollup(rows, source, live));
    }
  }

  lemma HasSource(tf: Frame)
    ensures tf != M1 ==> RollupSource(tf).Some?
  {
  }

  lemma LiveFromMinutes(rows: Rows, frames: seq<Frame>, target: Frame, live: Bar)
    requires LiveReady(rows, frames, target, live) && RollupSource(target) == Some(M1)
    ensures |MinutesSoFar(rows, target, live)| > 0
    ensures LiveFrom(rows, target, M1, live, live) == Rolled(target, MinutesSoFar(rows, target, live), false)
  {
    hide Rolled, RangeBars, SortByStart, FloorStart, Aligned, NonNegative, SoundRows, Consistent, MinutesStored;
    LiveSorted(rows, M1, FloorStart(live.start, target), live);
  }

  lemma LiveSorted(rows: Rows, source: Frame, lo: int, liveSource: Bar)
    requires SoundRows(rows, liveSource.series)
    ensures var bars := RangeBars(rows, liveSource.series, source, lo, liveSource.start - 1) + [liveSource];
            SortByStart(bars) == bars
  {
    hide Aligned, NonNegative, EndMS, RangeBars;
    var before := RangeBars(rows, liveSource.series, source, lo, liveSource.start - 1);
    RangeContents(rows, liveSource.series, source, lo, liveSource.start - 1);
    forall i | 0 <= i < |before| ensures before[i].start <= liveSource.start {
      assert before[i] in before && RowOfRange(rows, liveSource.series, source, lo, liveSource.start - 1, before[i]);
    }
    SortKeepsOrdered(before + [liveSource]);
  }

  lemma LiveSourceReady(rows: Rows, frames: seq<Frame>, target: Frame, live: Bar)
    requires LiveReady(rows, frames, target, live)
    requires RollupSource(target).Some? && RollupSource(target).value != M1
    ensures var source := RollupSource(target).value;
            && LiveReady(rows, frames, source, live)
            && FloorStart(live.start, target) <= FloorStart(live.start, source) <= live.start
  {
    hide Boundary, NextStart, EndMS, Aligned, NonNegative, FloorStart, Refines, SoundRows, Consistent, PreviousStart;
    SourceRefines(target);
    var source := RollupSource(target).value;
    BucketsNest(source, target, live.start);
    Tiling(live.start, source);
    SourceHasSource(target);
  }

  lemma LiveStep(rows: Rows, frames: seq<Frame>, target: Frame, live: Bar, liveSource: Bar)
    requires LiveReady(rows, frames, target, live)
    requires RollupSource(target).Some? && RollupSource(target).value != M1
    requires var source := RollupSource(target).value;
             liveSource == Rolled(source, MinutesSoFar(rows, source, live), false)
    ensures LiveFrom(rows, target, RollupSource(target).value, live, liveSource)
         == Rolled(target, MinutesSoFar(rows, target, live), false)
  {
    hide Boundary, NextStart, EndMS, Aligned, NonNegative, FloorStart, Refines, SoundRows, MinutesStored, ChainClosed,
         Consistent, Minutes, RangeBars, Fold, SortByStart, BucketIndex, Rolled, FlatAt, GridFilled, PreviousStart;
    var source, series := RollupSource(target).value, live.series;
    var start, mid := FloorStart(live.start, target), FloorStart(live.start, source);
    LiveSourceReady(rows, frames, target, live);
    SoFarStarts(rows, frames, source, live);
    var recent := MinutesSoFar(rows, source, live);
    RolledSummary(source, recent, false);
    RolledSpan(source, recent, false);
    RolledSeries(source, recent, false);
    Tiling(live.start, source);
    assert liveSource.start == mid && liveSource.series == series;
    LiveSorted(rows, source, start, liveSource);
    SoFarStarts(rows, frames, target, live);
    var before, minutes := RangeBars(rows, series, source, start, mid - 1), MinutesSoFar(rows, target, live);
    LiveFold(rows, frames, target, live, liveSource, before);
    RolledEqual(target, before + [liveSource], minutes, false);
  }

  /** The finished sources and the live one fold to what the minutes so far fold to. */
  lemma LiveFold(rows: Rows, frames: seq<Frame>, target: Frame, live: Bar, liveSource: Bar, before: seq<Bar>)
    requires LiveReady(rows, frames, target, live)
    requires RollupSource(target).Some? && RollupSource(target).value != M1
    requires MinutesSoFar(rows, RollupSource(target).value, live) != [] && MinutesSoFar(rows, target, live) != []
    requires liveSource.start == FloorStart(live.start, RollupSource(target).value) && liveSource.series == live.series
    requires SummaryOf(liveSource) == Fold(MinutesSoFar(rows, RollupSource(target).value, live))
    requires before == RangeBars(rows, live.series, RollupSource(target).value, FloorStart(live.start, target),
                                 FloorStart(live.start, RollupSource(target).value) - 1)
    ensures Fold(before + [liveSource]) == Fold(MinutesSoFar(rows, target, live))
    ensures (before + [liveSource])[0].start == FloorStart(live.start, target) && (before + [liveSource])[0].series == live.series
  {
    hide Boundary, NextStart, EndMS, Aligned, NonNegative, FloorStart, Refines, SoundRows, MinutesStored, ChainClosed,
         Consistent, Minutes, RangeBars, Fold, SortByStart, BucketIndex, Rolled, FlatAt, GridFilled, PreviousStart;
    var source, series := RollupSource(target).value, live.series;
    var start, mid := FloorStart(live.start, target), FloorStart(live.start, source);
    FoldOne(liveSource);
    LiveSourceReady(rows, frames, target, live);
    if start == mid {
      EmptyRange(rows, series, source, start);
      assert before + [liveSource] == [liveSource];
    } else {
      Tiling(live.start, source);
      EarlierSourcesFlat(rows, frames, target, live);
      var early := Minutes(rows, series, start, mid - 1);
      SplitSoFar(rows, target, source, live);
      FoldConcat(early, MinutesSoFar(rows, source, live));
      FoldConcat(before, [liveSource]);
    }
  }

  lemma RolledSeries(tf: Frame, bars: seq<Bar>, isFinal: bool)
    requires |bars| > 0
    ensures Rolled(tf, bars, isFinal).series == bars[0].series
  {
    hide FloorStart, EndMS, Fold;
  }

  lemma RolledEqual(tf: Frame, a: seq<Bar>, b: seq<Bar>, isFinal: bool)
    requires |a| > 0 && |b| > 0 && Fold(a) == Fold(b)
    requires a[0].start == b[0].start && a[0].series == b[0].series
    ensures Rolled(tf, a, isFinal) == Rolled(tf, b, isFinal)
  {
    hide FloorStart, EndMS, Fold;
  }

  lemma FoldOne(bar: Bar)
    ensures Fold([bar]) == SummaryOf(bar)
  {
    hide SummaryOf;
  }

  lemma EmptyRange(rows: Rows, series: Series, frame: Frame, lo: int)
    ensures RangeBars(rows, series, frame, lo, lo - 1) == []
  {
  }

  lemma SoFarStarts(rows: Rows, frames: seq<Frame>, target: Frame, live: Bar)
    requires LiveReady(rows, frames, target, live)
    ensures var minutes := MinutesSoFar(rows, target, live);
            && |minutes| > 0 && minutes[0].start == FloorStart(live.start, target) && minutes[0].series == live.series
            && AllNonNegative(minutes)
  {
    hide Boundary, NextStart, EndMS, Aligned, NonNegative, FloorStart, Refines, SoundRows, Consistent,
         PreviousStart, MinutesStored, RangeBars;
    var start := FloorStart(live.start, target);
    Tiling(live.start, target);
    MinutesRefine(target);
    BucketsNest(M1, target, live.start);
    if start < live.start {
      StoredMinutes(rows, live.series, start, live.start - 1);
    } else {
      EmptyRange(rows, live.series, M1, start);
    }
  }

  lemma SplitSoFar(rows: Rows, target: Frame, source: Frame, live: Bar)
    requires FloorStart(live.start, target) <= FloorStart(live.start, source) <= live.start
    ensures MinutesSoFar(rows, target, live)
         == Minutes(rows, live.series, FloorStart(live.start, target), FloorStart(live.start, source) - 1)
            + MinutesSoFar(rows, source, live)
  {
    hide FloorStart;
    RangeSplit(rows, live.series, M1, FloorStart(live.start, target), FloorStart(live.start, source), live.start - 1);
  }

  ghost predicate FoldsToMinutes(rows: Rows, series: Series, source: Frame, lo: int, hi: int) {
    var bars, minutes := RangeBars(rows, series, source, lo, hi), Minutes(rows, series, lo, hi);
    && |bars| > 0 && |minutes| > 0 && Fold(bars) == Fold(minutes)
    && bars[0].start == lo && bars[0].series == series
  }

  /** The stored sources before the one in progress fold to the minutes before it. */
  lemma EarlierSourcesFlat(rows: Rows, frames: seq<Frame>, target: Frame, live: Bar)
    requires LiveReady(rows, frames, target, live)
    requires RollupSource(target).Some? && RollupSource(target).value != M1
    requires FloorStart(live.start, target) < FloorStart(live.start, RollupSource(target).value)
    ensures var source := RollupSource(target).value;
            FoldsToMinutes(rows, live.series, source, FloorStart(live.start, target), FloorStart(live.start, source) - 1)
  {
    hide Boundary, NextStart, EndMS, Aligned, NonNegative, FloorStart, Refines, SoundRows, MinutesStored, ChainClosed,
         Consistent, Minutes, RangeBars, Fold, BucketIndex, Rolled, FlatAt, PreviousStart;
    var source, series := RollupSource(target).value, live.series;
    var start, mid := FloorStart(live.start, target), FloorStart(live.start, source);
    SourceRefines(target);
    LiveSourceReady(rows, frames, target, live);
    FloorAfterEpoch(live.start, target);
    FloorAfterEpoch(live.start, source);
    SharedBoundary(source, target, BucketIndex(target, live.start));
    var first, limit := BucketIndex(source, start), BucketIndex(source, live.start);
    if limit < first { BoundariesIncrease(source, limit, first); }
    forall j | first <= j < limit ensures FlatAt(rows, series, source, j) {
      BoundaryAligned(source, j);
      if first < j { BoundariesIncrease(source, first, j); }
      if j + 1 < limit { BoundariesIncrease(source, j + 1, limit); }
      SourceHasSource(target);
      StoredInside(rows, series, start, live.start - 1, Boundary(source, j), Boundary(source, j + 1) - 1);
      FlatBucket(rows, frames, series, source, j);
    }
    GridFold(rows, series, source, first, limit);
    SourceFeeds(target);
    NoOffGrid(rows, series, source, start, mid - 1);
    RangeIsGrid(rows, series, source, first, limit);
    SoundKeyed(rows, series);
    RangeContents(rows, series, source, start, mid - 1);
    var before := RangeBars(rows, series, source, start, mid - 1);
    assert before[0] == rows[GridKey(series, source, first)];
  }
}
