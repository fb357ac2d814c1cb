/** What the batch repair of derived candles leaves in a store, for any store at all, and exactly
    when that is what the queue leaves. */
module BatchRepair {
  import opened Timeframe
  import opened Rollup
  import opened Storage
  import opened Cascade
  import opened SourceGrid

  predicate PositivePrices(bar: Bar) {
    && bar.series.exchange != "" && bar.series.symbol != "" && bar.end >= bar.start
    && bar.open > 0.0 && bar.high > 0.0 && bar.low > 0.0 && bar.close > 0.0
  }

  /** The batch repair ignores any other candle; the queue does not look. */
  predicate ValidBar(bar: Bar) { bar.start > 0 && PositivePrices(bar) }

  // ----- one level -----

  function GridRollup(rows: Rows, bucket: Key): Bar
    requires GridReady(rows, bucket)
  {
    var source := RollupSource(bucket.frame).value;
    var bars := GridRows(rows, bucket.series, source, FirstSource(bucket), LastSource(bucket));
    Rolled(bucket.frame, bars, true)
  }

  /** The dependent buckets that the batch repair finds complete. */
  ghost function GridBuildable(rows: Rows, frames: seq<Frame>, changed: set<Key>): set<Key> {
    set b | b in Dependents(frames, changed) && GridReady(rows, b)
  }

  ghost function GridBuilt(rows: Rows, buckets: set<Key>): Rows
    requires forall b :: b in buckets ==> GridReady(rows, b)
  {
    map b | b in buckets :: GridRollup(rows, b)
  }

  /** The rebuilt buckets whose candle the next level accepts as a source. */
  ghost function Accepted(rows: Rows, buckets: set<Key>): set<Key>
    requires forall b :: b in buckets ==> GridReady(rows, b)
  {
    set b | b in buckets && ValidBar(GridRollup(rows, b))
  }

  lemma GridDepth(rows: Rows, frames: seq<Frame>, changed: set<Key>, depth: nat)
    requires AtDepth(changed, depth)
    ensures AtDepth(GridBuildable(rows, frames, changed), depth + 1)
    ensures AtDepth(Accepted(rows, GridBuildable(rows, frames, changed)), depth + 1)
    ensures GridBuildable(rows, frames, changed) != {} ==> depth < 5
  {
    hide GridReady, GridRollup, ValidBar;
    forall b | b in GridBuildable(rows, frames, changed)
      ensures Depth(b.frame) == depth + 1 && depth < 5
    {
      DependentsAreFed(frames, changed, b);
      DepthStep(b.frame);
    }
  }

  ghost function GridNext(rows: Rows, frames: seq<Frame>, changed: set<Key>): Rows {
    rows + GridBuilt(rows, GridBuildable(rows, frames, changed))
  }

  /** The batch repair: level by level, every dependent bucket whose boundaries are all filled. */
  ghost function BatchRows(rows: Rows, frames: seq<Frame>, changed: set<Key>, depth: nat): Rows
    requires AtDepth(changed, depth)
    decreases 6 - depth
  {
    GridDepth(rows, frames, changed, depth);
    var built := GridBuildable(rows, frames, changed);
    if built == {} then rows
    else BatchRows(GridNext(rows, frames, changed), frames, Accepted(rows, built), depth + 1)
  }

  lemma NothingBatched(rows: Rows, frames: seq<Frame>, changed: set<Key>, depth: nat)
    requires AtDepth(changed, depth) && GridBuildable(rows, frames, changed) == {}
    ensures BatchRows(rows, frames, changed, depth) == rows == GridNext(rows, frames, changed)
    ensures Accepted(rows, GridBuildable(rows, frames, changed)) == {}
  {
  }

  /** The rolled candle of a bucket is stored under its key. */
  lemma GridRollupKey(rows: Rows, bucket: Key)
    requires WellKeyed(rows) && GridReady(rows, bucket) && Aligned(bucket.start, bucket.frame)
    ensures KeyOf(GridRollup(rows, bucket)) == bucket && GridRollup(rows, bucket).isFinal
    ensures GridRollup(rows, bucket).end == EndMS(bucket.start, bucket.frame)
  {
    hide FloorStart, EndMS, NextStart, Boundary, FirstSource, LastSource, Fold;
    var source := RollupSource(bucket.frame).value;
    var bars := GridRows(rows, bucket.series, source, FirstSource(bucket), LastSource(bucket));
    CompleteNonempty(bars, source, bucket.start, EndMS(bucket.start, bucket.frame));
    SourceSpan(bucket);
    assert bars[0] == rows[GridKey(bucket.series, source, FirstSource(bucket))];
  }

  lemma BucketsConfigured(frames: seq<Frame>, changed: set<Key>)
    requires AllTimely(changed)
    ensures forall b :: b in Dependents(frames, changed) ==>
              Configured(frames, b) && Timely(b) && RollupSource(b.frame).Some? && Aligned(b.start, b.frame)
              && b.frame != M1 && Enabled(b.frame)
  {
    hide Feeds, Aligned, Timely, Dependents;
    forall b | b in Dependents(frames, changed)
      ensures Configured(frames, b) && Timely(b) && RollupSource(b.frame).Some? && Aligned(b.start, b.frame)
           && b.frame != M1 && Enabled(b.frame)
    {
      DependentsAreFed(frames, changed, b);
      var k :| k in changed && Feeds(frames, k, b);
      FedBucketAligned(frames, k, b);
    }
  }

  lemma GridLevelKeepsKeys(rows: Rows, frames: seq<Frame>, changed: set<Key>)
    requires WellKeyed(rows) && AllTimely(changed)
    ensures WellKeyed(GridNext(rows, frames, changed))
    ensures AllTimely(Accepted(rows, GridBuildable(rows, frames, changed)))
  {
    hide GridReady, GridRollup, ValidBar, Dependents, Timely, Configured, Aligned;
    BucketsConfigured(frames, changed);
    forall b | b in GridBuildable(rows, frames, changed) ensures KeyOf(GridRollup(rows, b)) == b {
      GridRollupKey(rows, b);
    }
  }

  /** The batch repair changes no row at or below the depth it starts from. */
  lemma {:induction false} BatchKeepsLower(rows: Rows, frames: seq<Frame>, changed: set<Key>, depth: nat)
    requires AtDepth(changed, depth)
    ensures SameUpTo(rows, BatchRows(rows, frames, changed, depth), depth)
    decreases 6 - depth
  {
    hide GridReady, GridRollup, Dependents, Accepted;
    GridDepth(rows, frames, changed, depth);
    var built := GridBuildable(rows, frames, changed);
    if built != {} {
      assert forall k :: k in GridBuilt(rows, built) ==> Depth(k.frame) == depth + 1;
      BatchKeepsLower(GridNext(rows, frames, changed), frames, Accepted(rows, built), depth + 1);
    }
  }

  // ----- against the queue -----

  /** At this level, whatever one of the two builds and the other does not is already there. */
  ghost predicate LevelAgrees(rows: Rows, frames: seq<Frame>, batch: set<Key>, queue: set<Key>) {
    && (forall b :: b in GridBuildable(rows, frames, batch) && b !in Rebuildable(rows, frames, queue) ==>
          Holds(rows, b, GridRollup(rows, b)))
    && (forall b :: b in Rebuildable(rows, frames, queue) && b !in GridBuildable(rows, frames, batch) ==>
          Holds(rows, b, RollupOf(rows, b)))
  }

  /** The same on every level. */
  ghost predicate Agrees(rows: Rows, frames: seq<Frame>, batch: set<Key>, queue: set<Key>, depth: nat)
    decreases 6 - depth
  {
    && LevelAgrees(rows, frames, batch, queue)
    && (depth < 5 ==>
          Agrees(NextRows(rows, frames, queue), frames, Accepted(rows, GridBuildable(rows, frames, batch)),
                 Rebuildable(rows, frames, queue), depth + 1))
  }

  lemma BothReadySame(rows: Rows, bucket: Key)
    requires WellKeyed(rows) && Ready(rows, bucket) && Aligned(bucket.start, bucket.frame)
    ensures GridReady(rows, bucket) && GridRollup(rows, bucket) == RollupOf(rows, bucket)
  {
    hide GridReady, Aligned, FirstSource, LastSource, Rolled;
    ReadyIffOnGrid(rows, bucket);
  }

  /** One level leaves the same rows exactly if it agrees. */
  lemma LevelSame(rows: Rows, frames: seq<Frame>, batch: set<Key>, queue: set<Key>)
    requires WellKeyed(rows) && AllTimely(batch) && AllTimely(queue)
    ensures GridNext(rows, frames, batch) == NextRows(rows, frames, queue) <==> LevelAgrees(rows, frames, batch, queue)
  {
    hide GridReady, GridRollup, Ready, RollupOf, Dependents, Configured, Aligned, Timely;
    var ours, theirs := GridNext(rows, frames, batch), NextRows(rows, frames, queue);
    BucketsConfigured(frames, queue);
    forall b | b in Rebuildable(rows, frames, queue) ensures GridReady(rows, b) && GridRollup(rows, b) == RollupOf(rows, b) {
      BothReadySame(rows, b);
    }
    if LevelAgrees(rows, frames, batch, queue) {
      forall k ensures (k in ours <==> k in theirs) && (k in ours ==> ours[k] == theirs[k]) {
      }
    } else if b :| b in GridBuildable(rows, frames, batch) && b !in Rebuildable(rows, frames, queue)
                   && !Holds(rows, b, GridRollup(rows, b)) {
      assert ours[b] == GridRollup(rows, b) && (b in theirs ==> theirs[b] == rows[b]);
    } else {
      var b :| b in Rebuildable(rows, frames, queue) && b !in GridBuildable(rows, frames, batch)
               && !Holds(rows, b, RollupOf(rows, b));
      assert theirs[b] == RollupOf(rows, b) && (b in ours ==> ours[b] == rows[b]);
    }
  }

  lemma BatchStep(rows: Rows, frames: seq<Frame>, changed: set<Key>, depth: nat)
    requires AtDepth(changed, depth) && AtDepth(Accepted(rows, GridBuildable(rows, frames, changed)), depth + 1)
    ensures BatchRows(rows, frames, changed, depth)
         == BatchRows(GridNext(rows, frames, changed), frames, Accepted(rows, GridBuildable(rows, frames, changed)), depth + 1)
  {
    hide GridReady, GridRollup, Dependents;
    if GridBuildable(rows, frames, changed) == {} {
      NothingBatched(rows, frames, changed, depth);
      NothingDependsOnNothing(frames);
      assert GridBuildable(rows, frames, {}) == {};
    }
  }

  lemma QueueStep(rows: Rows, frames: seq<Frame>, changed: set<Key>, depth: nat)
    requires AtDepth(changed, depth) && AtDepth(Rebuildable(rows, frames, changed), depth + 1)
    ensures CascadeRows(rows, frames, changed, depth)
         == CascadeRows(NextRows(rows, frames, changed), frames, Rebuildable(rows, frames, changed), depth + 1)
  {
    hide Ready, RollupOf, Dependents;
    if Rebuildable(rows, frames, changed) == {} {
      NothingBuilt(rows, frames, changed);
      NothingDependsOnNothing(frames);
      assert Rebuildable(rows, frames, {}) == {};
    }
  }

  /** On any store, the batch repair and the queue leave the same rows if and only if, level by
      level, whatever only one of them builds is already stored. */
  lemma {:induction false} BatchEqualsQueueExactly(rows: Rows, frames: seq<Frame>, batch: set<Key>, queue: set<Key>, depth: nat)
    requires WellKeyed(rows) && depth <= 5
    requires AtDepth(batch, depth) && AllTimely(batch) && AtDepth(queue, depth) && AllTimely(queue)
    ensures BatchRows(rows, frames, batch, depth) == CascadeRows(rows, frames, queue, depth)
       <==> Agrees(rows, frames, batch, queue, depth)
    decreases 6 - depth
  {
    hide GridReady, GridRollup, Ready, RollupOf, Dependents, LevelAgrees, Accepted, BatchRows, CascadeRows, WellKeyed, Timely, Depth;
    var built, rebuilt := GridBuildable(rows, frames, batch), Rebuildable(rows, frames, queue);
    var ours, theirs := GridNext(rows, frames, batch), NextRows(rows, frames, queue);
    GridDepth(rows, frames, batch, depth);
    NextDepth(rows, frames, queue, depth);
    NothingFrom(frames, queue);
    LevelSame(rows, frames, batch, queue);
    BatchStep(rows, frames, batch, depth);
    QueueStep(rows, frames, queue, depth);
    GridLevelKeepsKeys(rows, frames, batch);
    LevelKeepsKeys(rows, frames, queue);
    if depth == 5 {
      assert built == {} && rebuilt == {};
      NothingBatched(rows, frames, batch, depth);
      NothingQueued(rows, frames, queue, depth);
    } else if ours == theirs {
      BatchEqualsQueueExactly(ours, frames, Accepted(rows, built), rebuilt, depth + 1);
    } else {
      var ours' := BatchRows(ours, frames, Accepted(rows, built), depth + 1);
      var theirs' := CascadeRows(theirs, frames, rebuilt, depth + 1);
      BatchKeepsLower(ours, frames, Accepted(rows, built), depth + 1);
      CascadeKeepsLower(theirs, frames, rebuilt, depth + 1);
      EqualEndEqualLevel(rows, ours, theirs, ours', theirs', depth + 1);
    }
  }

  lemma NothingFrom(frames: seq<Frame>, changed: set<Key>)
    ensures Dependents(frames, changed) != {} ==> changed != {}
  {
    if changed == {} { NothingDependsOnNothing(frames); }
  }

  lemma NothingQueued(rows: Rows, frames: seq<Frame>, changed: set<Key>, depth: nat)
    requires AtDepth(changed, depth) && Rebuildable(rows, frames, changed) == {}
    ensures CascadeRows(rows, frames, changed, depth) == rows
  {
  }

  // ----- when they agree -----

  /** Level by level, no final row lies between the source boundaries of a bucket that the batch
      repair rebuilds, and every rolled candle is one that it accepts as a source. */
  ghost predicate ClearPath(rows: Rows, frames: seq<Frame>, changed: set<Key>, depth: nat)
    decreases 6 - depth
  {
    && (forall b :: b in GridBuildable(rows, frames, changed) ==> OnGrid(rows, b))
    && (forall b :: b in Rebuildable(rows, frames, changed) ==> PositivePrices(RollupOf(rows, b)))
    && (depth < 5 ==> ClearPath(NextRows(rows, frames, changed), frames, Rebuildable(rows, frames, changed), depth + 1))
  }

  ghost predicate OnGrid(rows: Rows, bucket: Key)
    requires RollupSource(bucket.frame).Some?
  {
    !OffGrid(rows, bucket.series, RollupSource(bucket.frame).value, bucket.start, EndMS(bucket.start, bucket.frame))
  }

  /** Buckets that start before 1970 or at its beginning are not accepted, but feed nothing either. */
  lemma EarlyFeedNothing(frames: seq<Frame>, rebuilt: set<Key>, valid: set<Key>)
    requires valid <= rebuilt && AllTimely(rebuilt) && forall k :: k in rebuilt && k !in valid ==> k.start <= 0
    ensures Dependents(frames, valid) == Dependents(frames, rebuilt)
  {
    hide FloorStart, RollupSource, Refines, Feeds, Dependents;
    forall b ensures b in Dependents(frames, valid) <==> b in Dependents(frames, rebuilt) {
      DependentsAreFed(frames, valid, b);
      DependentsAreFed(frames, rebuilt, b);
      if b in Dependents(frames, rebuilt) {
        var k :| k in rebuilt && Feeds(frames, k, b);
        FedBucketAligned(frames, k, b);
      }
    }
  }

  /** On a clear path the two agree, also when the queue starts from some candles more that feed nothing. */
  lemma {:induction false} ClearPathAgrees(rows: Rows, frames: seq<Frame>, batch: set<Key>, queue: set<Key>, depth: nat)
    requires WellKeyed(rows) && AllTimely(batch) && AllTimely(queue) && Dependents(frames, batch) == Dependents(frames, queue)
    requires ClearPath(rows, frames, queue, depth)
    ensures Agrees(rows, frames, batch, queue, depth)
    decreases 6 - depth
  {
    hide GridReady, GridRollup, Ready, RollupOf, Dependents, Configured, Aligned, Timely, WellKeyed, PositivePrices, OffGrid;
    var built, rebuilt := GridBuildable(rows, frames, batch), Rebuildable(rows, frames, queue);
    BucketsConfigured(frames, queue);
    forall b | b in Dependents(frames, queue) ensures b in built <==> b in rebuilt {
      ReadyIffOnGrid(rows, b);
      assert b in GridBuildable(rows, frames, queue) <==> GridReady(rows, b);
    }
    assert built == rebuilt;
    if depth < 5 {
      LevelKeepsKeys(rows, frames, queue);
      forall b | b in rebuilt && b !in Accepted(rows, built) ensures b.start <= 0 {
        BothReadySame(rows, b);
        RollupKey(rows, b);
      }
      EarlyFeedNothing(frames, rebuilt, Accepted(rows, built));
      GridLevelKeepsKeys(rows, frames, batch);
      ClearPathAgrees(NextRows(rows, frames, queue), frames, Accepted(rows, built), rebuilt, depth + 1);
    }
  }

  /** A condition on the stored rows alone: in the given series, the rows that others are rolled up
      from sit on their grid and have positive prices. */
  ghost predicate CleanSources(rows: Rows, changed: set<Key>) {
    forall k, c :: HasFinal(rows, k) && c in changed && k.series == c.series && FeedsOthers(k.frame) ==>
      Aligned(k.start, k.frame) && PositivePrices(rows[k])
  }

  lemma RolledPositive(rows: Rows, changed: set<Key>, bucket: Key)
    requires CleanSources(rows, changed) && WellKeyed(rows) && Ready(rows, bucket) && Aligned(bucket.start, bucket.frame)
    requires exists c :: c in changed && c.series == bucket.series
    ensures PositivePrices(RollupOf(rows, bucket))
  {
    hide FloorStart, EndMS, NextStart, Boundary, BucketIndex, RangeBars, HasTradeActivity, SetsPrice, RollupSource, Aligned;
    var c :| c in changed && c.series == bucket.series;
    var bars := SourceBars(rows, bucket);
    var source := RollupSource(bucket.frame).value;
    SourceFeeds(bucket.frame);
    RangeContents(rows, bucket.series, source, bucket.start, EndMS(bucket.start, bucket.frame));
    forall i | 0 <= i < |bars| ensures PositivePrices(bars[i]) {
      assert bars[i] in bars && RowOfRange(rows, bucket.series, source, bucket.start, EndMS(bucket.start, bucket.frame), bars[i]);
    }
    FoldMeetsRule(bars);
    RollupKey(rows, bucket);
    var k := BucketIndex(bucket.frame, bucket.start);
    AlignedIsBoundary(bucket.start, bucket.frame);
    NextOfBoundary(bucket.frame, k);
    BoundariesIncrease(bucket.frame, k, k + 1);
    SeriesOfFirst(bucket.frame, bars);
  }

  lemma SeriesOfFirst(tf: Frame, bars: seq<Bar>)
    requires |bars| > 0
    ensures Rolled(tf, bars, true).series == bars[0].series
  {
    hide FloorStart, EndMS, Fold;
  }

  lemma DependentSeries(frames: seq<Frame>, changed: set<Key>)
    ensures forall b :: b in Dependents(frames, changed) ==> exists c :: c in changed && c.series == b.series
  {
    hide Feeds, Dependents;
    forall b | b in Dependents(frames, changed) ensures exists c :: c in changed && c.series == b.series {
      DependentsAreFed(frames, changed, b);
      var c :| c in changed && Feeds(frames, c, b);
      FedSeries(frames, c, b);
    }
  }

  lemma FedSeries(frames: seq<Frame>, key: Key, bucket: Key)
    requires Feeds(frames, key, bucket)
    ensures key.series == bucket.series
  {
    hide FloorStart, RollupSource;
  }

  lemma CleanLevel(rows: Rows, frames: seq<Frame>, changed: set<Key>)
    requires CleanSources(rows, changed) && WellKeyed(rows) && AllTimely(changed)
    ensures forall b :: b in Rebuildable(rows, frames, changed) ==> PositivePrices(RollupOf(rows, b))
    ensures CleanSources(NextRows(rows, frames, changed), Rebuildable(rows, frames, changed))
  {
    hide Ready, RollupOf, Aligned, PositivePrices, RollupSource, Dependents, Configured, Timely, FeedsOthers;
    BucketsConfigured(frames, changed);
    DependentSeries(frames, changed);
    forall b | b in Rebuildable(rows, frames, changed)
      ensures KeyOf(RollupOf(rows, b)) == b && Aligned(b.start, b.frame) && PositivePrices(RollupOf(rows, b))
      ensures exists c :: c in changed && c.series == b.series
    {
      RollupKey(rows, b);
      RolledPositive(rows, changed, b);
    }
  }

  /** Clean sources in the series concerned make the path clear, whatever else is stored. */
  lemma {:induction false} CleanIsClear(rows: Rows, frames: seq<Frame>, changed: set<Key>, depth: nat)
    requires CleanSources(rows, changed) && WellKeyed(rows) && AllTimely(changed)
    ensures ClearPath(rows, frames, changed, depth)
    decreases 6 - depth
  {
    hide Ready, RollupOf, GridReady, Aligned, PositivePrices, Dependents, Configured, Timely, FeedsOthers, WellKeyed;
    DependentSeries(frames, changed);
    BucketsConfigured(frames, changed);
    forall b | b in GridBuildable(rows, frames, changed) ensures OnGrid(rows, b) {
      SourceFeeds(b.frame);
      CleanOnGrid(rows, changed, b);
    }
    CleanLevel(rows, frames, changed);
    if depth < 5 {
      LevelKeepsKeys(rows, frames, changed);
      CleanIsClear(NextRows(rows, frames, changed), frames, Rebuildable(rows, frames, changed), depth + 1);
    }
  }

  lemma CleanOnGrid(rows: Rows, changed: set<Key>, bucket: Key)
    requires CleanSources(rows, changed) && RollupSource(bucket.frame).Some? && FeedsOthers(RollupSource(bucket.frame).value)
    requires exists c :: c in changed && c.series == bucket.series
    ensures OnGrid(rows, bucket)
  {
    hide Aligned, PositivePrices, EndMS, FeedsOthers;
  }

  /** With clean sources in the series concerned, the batch repair and the queue leave the same rows. */
  lemma CleanSourcesAgree(rows: Rows, frames: seq<Frame>, changed: set<Key>, depth: nat)
    requires CleanSources(rows, changed) && WellKeyed(rows) && AllTimely(changed) && AtDepth(changed, depth) && depth <= 5
    ensures BatchRows(rows, frames, changed, depth) == CascadeRows(rows, frames, changed, depth)
  {
    hide CleanSources, ClearPath, Agrees, BatchRows, CascadeRows, WellKeyed, Timely;
    CleanIsClear(rows, frames, changed, depth);
    ClearPathAgrees(rows, frames, changed, changed, depth);
    BatchEqualsQueueExactly(rows, frames, changed, changed, depth);
  }

  // ----- where they part -----

  /** A stray row does part them: the bucket's sources are complete but for one final row between
      boundaries, and the bucket is not stored yet. */
  lemma StrayRowParts(rows: Rows, frames: seq<Frame>, changed: set<Key>, depth: nat, bucket: Key)
    requires WellKeyed(rows) && AtDepth(changed, depth) && AllTimely(changed) && depth <= 5
    requires bucket in GridBuildable(rows, frames, changed) && !OnGrid(rows, bucket) && bucket !in rows
    ensures BatchRows(rows, frames, changed, depth) != CascadeRows(rows, frames, changed, depth)
  {
    hide GridReady, GridRollup, Ready, RollupOf, Dependents, BatchRows, CascadeRows, WellKeyed, Timely, Depth, OffGrid;
    BucketsConfigured(frames, changed);
    ReadyIffOnGrid(rows, bucket);
    assert !LevelAgrees(rows, frames, changed, changed);
    BatchEqualsQueueExactly(rows, frames, changed, changed, depth);
  }
}
