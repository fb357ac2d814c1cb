/** The integrity auditor: an independent look at whether stored candles are the rollups of their sources. */
module Integrity {
  import opened Timeframe
  import opened Rollup
  import opened Aggregator
  import opened Storage
  import opened Cascade

  datatype IssueKind = Missing | Mismatch | InvalidOhlc | SourceIncomplete

  function RelativeDifference(left: real, right: real): real {
    var scale := Max(Abs(left), Abs(right));
    if scale == 0.0 then 0.0 else Abs(left - right) / scale
  }

  predicate BarsDiffer(actual: Bar, expected: Bar, tolerance: real) {
    || RelativeDifference(actual.open, expected.open) > tolerance
    || RelativeDifference(actual.high, expected.high) > tolerance
    || RelativeDifference(actual.low, expected.low) > tolerance
    || RelativeDifference(actual.close, expected.close) > tolerance
    || RelativeDifference(actual.volume, expected.volume) > tolerance
    || RelativeDifference(actual.quoteVolume, expected.quoteVolume) > tolerance
    || RelativeDifference(actual.contractVolume, expected.contractVolume) > tolerance
    || actual.tradeCount != expected.tradeCount
  }

  predicate ValidOhlc(bar: Bar) {
    && bar.open > 0.0 && bar.high > 0.0 && bar.low > 0.0 && bar.close > 0.0
    && bar.high >= Max(bar.open, bar.close) && bar.low <= Min(bar.open, bar.close) && bar.high >= bar.low
  }

  /** The values the auditor compares. */
  predicate SameValues(a: Bar, b: Bar) {
    && a.open == b.open && a.high == b.high && a.low == b.low && a.close == b.close
    && a.volume == b.volume && a.quoteVolume == b.quoteVolume && a.contractVolume == b.contractVolume
    && a.tradeCount == b.tradeCount
  }

  lemma DifferenceVanishes(x: real, y: real)
    ensures RelativeDifference(x, y) > 0.0 <==> x != y
    ensures RelativeDifference(x, y) >= 0.0
  {
    var scale := Max(Abs(x), Abs(y));
    if scale != 0.0 && x != y {
      Positive(Abs(x - y), scale);
    }
  }

  lemma Positive(x: real, y: real)
    requires x > 0.0 && y > 0.0
    ensures x / y > 0.0
  {
  }

  lemma DifferWithoutTolerance(a: Bar, b: Bar)
    ensures BarsDiffer(a, b, 0.0) <==> !SameValues(a, b)
    ensures forall tolerance :: tolerance >= 0.0 && SameValues(a, b) ==> !BarsDiffer(a, b, tolerance)
  {
    hide RelativeDifference;
    DifferenceVanishes(a.open, b.open);
    DifferenceVanishes(a.high, b.high);
    DifferenceVanishes(a.low, b.low);
    DifferenceVanishes(a.close, b.close);
    DifferenceVanishes(a.volume, b.volume);
    DifferenceVanishes(a.quoteVolume, b.quoteVolume);
    DifferenceVanishes(a.contractVolume, b.contractVolume);
  }

  method CompleteSource(bars: seq<Bar>, source: Frame, targetStart: int, targetEnd: int) returns (ok: bool)
    ensures ok == Complete(SortByStart(bars), source, targetStart, targetEnd)
  {
    hide NextStart, SortByStart;
    SortSorts(bars);
    if |bars| == 0 {
      return false;
    }
    var sorted := SortByStart(bars);
    var expected := targetStart;
    for i := 0 to |sorted|
      invariant i > 0 ==> sorted[0].start == targetStart
      invariant forall j :: 0 <= j < i ==> sorted[j].isFinal
      invariant forall j :: 0 <= j < i - 1 ==> sorted[j + 1].start == NextStart(sorted[j].start, source)
      invariant expected == if i == 0 then targetStart else NextStart(sorted[i - 1].start, source)
    {
      if !sorted[i].isFinal || sorted[i].start != expected {
        assert i > 0 && sorted[i].isFinal ==> sorted[(i - 1) + 1].start != NextStart(sorted[i - 1].start, source);
        return false;
      }
      expected := NextStart(sorted[i].start, source);
    }
    return expected > targetEnd && sorted[|sorted| - 1].end >= targetEnd;
  }

  /** The conditions an audit of one bucket looks for. */
  ghost predicate Holds(kind: IssueKind, rows: Rows, bucket: Key, tolerance: real) {
    match kind
    case InvalidOhlc => HasFinal(rows, bucket) && !ValidOhlc(rows[bucket])
    case SourceIncomplete => RollupSource(bucket.frame).Some? && !Ready(rows, bucket)
    case Missing => Ready(rows, bucket) && !HasFinal(rows, bucket)
    case Mismatch =>
      Ready(rows, bucket) && HasFinal(rows, bucket) && BarsDiffer(rows[bucket], RollupOf(rows, bucket), tolerance)
  }

  /** What an audit of one bucket has to report: with complete sources, a missing target or
      one that differs from their rollup; without them, that they are incomplete. */
  ghost predicate ReportsBucket(issues: set<IssueKind>, rows: Rows, bucket: Key, listedAt: int, tolerance: real) {
    var audited := listedAt <= 0 || bucket.start >= listedAt;
    && (Missing in issues <==> audited && Holds(Missing, rows, bucket, tolerance))
    && (Mismatch in issues <==> audited && Holds(Mismatch, rows, bucket, tolerance))
    && (InvalidOhlc in issues <==> audited && Holds(InvalidOhlc, rows, bucket, tolerance))
    && (SourceIncomplete in issues <==> audited && Holds(SourceIncomplete, rows, bucket, tolerance))
  }

  method AuditBucket(store: MemoryStore, bucket: Key, listedAt: int, tolerance: real) returns (issues: set<IssueKind>)
    requires WellKeyed(store.rows)
    ensures ReportsBucket(issues, store.rows, bucket, listedAt, tolerance)
  {
    hide EndMS, FloorStart, Complete, RangeBars, SortByStart, RollupSource, Rolled, BarsDiffer, ValidOhlc;
    issues := {};
    if listedAt > 0 && bucket.start < listedAt {
      return;
    }
    var bucketEnd := EndMS(bucket.start, bucket.frame);
    var targetBars := store.BarsInRange(bucket.series, bucket.frame, bucket.start, bucket.start);
    RangeSingle(store.rows, bucket.series, bucket.frame, bucket.start);
    if |targetBars| > 0 && !ValidOhlc(targetBars[|targetBars| - 1]) {
      issues := issues + {InvalidOhlc};
    }
    if RollupSource(bucket.frame).None? {
      return;
    }
    var source := RollupSource(bucket.frame).value;
    var sourceBars := store.BarsInRange(bucket.series, source, bucket.start, bucketEnd);
    RangeContents(store.rows, bucket.series, source, bucket.start, bucketEnd);
    SortKeepsOrdered(sourceBars);
    var complete := CompleteSource(sourceBars, source, bucket.start, bucketEnd);
    if !complete {
      issues := issues + {SourceIncomplete};
      return;
    }
    CompleteNonempty(sourceBars, source, bucket.start, bucketEnd);
    var expected := RollupBars(bucket.frame, sourceBars, true);
    if expected.None? {
      return;
    }
    if |targetBars| == 0 {
      issues := issues + {Missing};
      return;
    }
    if BarsDiffer(targetBars[|targetBars| - 1], expected.value, tolerance) {
      issues := issues + {Mismatch};
    }
  }

  /** Bucket `back` steps before `start`. */
  function Earlier(start: int, tf: Frame, back: nat): int {
    if back == 0 then start else PreviousStart(Earlier(start, tf, back - 1), tf)
  }

  /** Audits the latest completed buckets of one series, newest first. */
  method AuditSeries(store: MemoryStore, series: Series, tf: Frame, eligible: int, listedAt: int, buckets: nat, tolerance: real)
    returns (issues: seq<set<IssueKind>>)
    requires WellKeyed(store.rows)
    ensures |issues| == buckets
    ensures forall i :: 0 <= i < buckets ==>
              ReportsBucket(issues[i], store.rows, Key(series, tf, Earlier(AuditStart(eligible, tf), tf, i)), listedAt, tolerance)
  {
    hide FloorStart, EndMS, PreviousStart, ReportsBucket;
    var start := FloorStart(eligible, tf);
    if EndMS(start, tf) > eligible {
      start := PreviousStart(start, tf);
    }
    issues := [];
    for i := 0 to buckets
      invariant |issues| == i
      invariant forall j :: 0 <= j < i ==>
                  ReportsBucket(issues[j], store.rows, Key(series, tf, Earlier(start, tf, j)), listedAt, tolerance)
    {
      var bucketStart := start;
      for step := 0 to i
        invariant bucketStart == Earlier(start, tf, step)
      {
        bucketStart := PreviousStart(bucketStart, tf);
      }
      var found := AuditBucket(store, Key(series, tf, bucketStart), listedAt, tolerance);
      issues := issues + [found];
    }
  }

  function AuditStart(eligible: int, tf: Frame): int {
    var start := FloorStart(eligible, tf);
    if EndMS(start, tf) > eligible then PreviousStart(start, tf) else start
  }

  lemma {:induction false} EarlierAligned(start: int, tf: Frame, back: nat)
    requires Aligned(start, tf)
    ensures Aligned(Earlier(start, tf, back), tf)
  {
    hide Aligned, PreviousStart, Boundary, BucketIndex;
    if back > 0 {
      EarlierAligned(start, tf, back - 1);
      var at := Earlier(start, tf, back - 1);
      AlignedIsBoundary(at, tf);
      NextOfBoundary(tf, BucketIndex(tf, at));
      BoundaryAligned(tf, BucketIndex(tf, at) - 1);
    }
  }

  /** The auditor finds no missing and no mismatched candle, with no tolerance at all, in
      exactly those buckets whose sources are incomplete or whose candle is their rollup. */
  lemma CleanIffConsistent(issues: set<IssueKind>, rows: Rows, bucket: Key, listedAt: int)
    requires ReportsBucket(issues, rows, bucket, listedAt, 0.0)
    requires listedAt <= 0 || bucket.start >= listedAt
    ensures Missing !in issues && Mismatch !in issues <==>
            (Ready(rows, bucket) ==> HasFinal(rows, bucket) && SameValues(rows[bucket], RollupOf(rows, bucket)))
  {
    hide Ready, RollupOf, BarsDiffer, ValidOhlc, SameValues;
    if Ready(rows, bucket) {
      if HasFinal(rows, bucket) {
        DifferWithoutTolerance(rows[bucket], RollupOf(rows, bucket));
        if BarsDiffer(rows[bucket], RollupOf(rows, bucket), 0.0) {
          assert Mismatch in issues;
        }
      } else {
        assert Missing in issues;
      }
    }
  }

  /** After a cascade the auditor has nothing to say about any configured bucket. */
  lemma ConsistentIsClean(issues: set<IssueKind>, rows: Rows, frames: seq<Frame>, series: Series, tf: Frame,
                          eligible: int, back: nat, listedAt: int, tolerance: real)
    requires Consistent(rows, frames) && tf in frames && Enabled(tf) && RollupSource(tf).Some?
    requires eligible >= EPOCH_MONDAY && tolerance >= 0.0
    requires ReportsBucket(issues, rows, Key(series, tf, Earlier(AuditStart(eligible, tf), tf, back)), listedAt, tolerance)
    ensures Missing !in issues && Mismatch !in issues
  {
    hide Ready, RollupOf, BarsDiffer, ValidOhlc, SameValues, FloorStart, EndMS, NextStart, PreviousStart, Aligned, Earlier;
    var bucket := Key(series, tf, Earlier(AuditStart(eligible, tf), tf, back));
    Tiling(eligible, tf);
    EarlierAligned(AuditStart(eligible, tf), tf, back);
    assert Configured(frames, bucket);
    assert ConsistentAt(rows, bucket);
    if Ready(rows, bucket) {
      SameAsRollup(rows[bucket]);
      DifferWithoutTolerance(rows[bucket], RollupOf(rows, bucket));
    }
  }

  lemma SameAsRollup(bar: Bar)
    ensures SameValues(bar, bar)
  {
  }
}
