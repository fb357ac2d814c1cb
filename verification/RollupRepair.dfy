/** The batch repair of derived candles: rebuilds every bucket above some verified source
    candles, one level per recursion, and ends where the queue cascade ends. */
module RollupRepair {
  import opened Timeframe
  import opened Rollup
  import opened Aggregator
  import opened Storage
  import opened Cascade
  import opened SourceGrid
  import opened BatchRepair
  import opened MarketService

  ghost function ValidKeys(bars: seq<Bar>): set<Key> {
    set b | b in bars && b.isFinal && ValidBar(b) :: KeyOf(b)
  }

  method CollectBuckets(frames: seq<Frame>, sourceBars: seq<Bar>) returns (ok: bool, buckets: set<Key>)
    ensures ok <==> forall b :: b in sourceBars ==> Enabled(b.frame)
    ensures ok ==> buckets == Dependents(frames, ValidKeys(sourceBars))
  {
    hide FloorStart, ValidBar, Enabled, RollupSource;
    buckets := {};
    for i := 0 to |sourceBars|
      invariant forall j :: 0 <= j < i ==> Enabled(sourceBars[j].frame)
      invariant forall b :: b in buckets <==> exists k :: k in ValidKeys(sourceBars[..i]) && Feeds(frames, k, b)
    {
      var bar := sourceBars[i];
      if !Enabled(bar.frame) {
        return false, {};
      }
      ValidKeysAppend(sourceBars[..i], bar);
      assert sourceBars[..i + 1] == sourceBars[..i] + [bar];
      if !bar.isFinal || !ValidBar(bar) {
        continue;
      }
      ghost var before := buckets;
      for j := 0 to |frames|
        invariant forall b :: b in buckets <==> b in before || Feeds(frames[..j], KeyOf(bar), b)
      {
        var target := frames[j];
        FeedsAppend(frames, j, KeyOf(bar));
        NoSourceBelowMinutes(target);
        if !Enabled(target) {
          continue;
        }
        if target == M1 || RollupSource(target) != Some(bar.frame) {
          continue;
        }
        buckets := buckets + {Key(bar.series, target, FloorStart(bar.start, target))};
      }
      assert frames[..|frames|] == frames;
    }
    assert sourceBars[..|sourceBars|] == sourceBars;
    ok := true;
    forall b ensures b in buckets <==> b in Dependents(frames, ValidKeys(sourceBars)) {
      DependentsAreFed(frames, ValidKeys(sourceBars), b);
    }
  }

  lemma NoSourceBelowMinutes(tf: Frame)
    ensures tf == M1 ==> RollupSource(tf).None?
  {
  }

  lemma FeedsAppend(frames: seq<Frame>, j: nat, key: Key)
    requires j < |frames|
    ensures forall b :: Feeds(frames[..j + 1], key, b) <==>
              Feeds(frames[..j], key, b)
              || (b == BucketOf(key, frames[j]) && Enabled(frames[j]) && RollupSource(frames[j]) == Some(key.frame))
  {
    hide FloorStart, RollupSource, Enabled;
    assert frames[..j + 1] == frames[..j] + [frames[j]];
  }

  lemma ValidKeysAppend(bars: seq<Bar>, bar: Bar)
    ensures ValidKeys(bars + [bar]) == ValidKeys(bars) + if bar.isFinal && ValidBar(bar) then {KeyOf(bar)} else {}
  {
    hide ValidBar;
    forall k ensures k in ValidKeys(bars + [bar]) <==>
                       k in ValidKeys(bars) || (bar.isFinal && ValidBar(bar) && k == KeyOf(bar)) {
      if k in ValidKeys(bars) {
        var b :| b in bars && b.isFinal && ValidBar(b) && KeyOf(b) == k;
        assert b in bars + [bar];
      }
      assert bar in bars + [bar];
    }
  }

  /** Source rows indexed by their start. */
  ghost predicate Indexes(byStart: map<int, Bar>, rows: Rows, series: Series, frame: Frame, lo: int, hi: int) {
    forall t :: lo <= t <= hi ==>
      (t in byStart <==> HasFinal(rows, Key(series, frame, t)))
      && (t in byStart ==> byStart[t] == rows[Key(series, frame, t)])
  }

  method IndexByStart(store: MemoryStore, series: Series, frame: Frame, lo: int, hi: int) returns (byStart: map<int, Bar>)
    requires WellKeyed(store.rows)
    ensures Indexes(byStart, store.rows, series, frame, lo, hi)
  {
    hide RangeBars;
    var bars := store.BarsInRange(series, frame, lo, hi);
    RangeContents(store.rows, series, frame, lo, hi);
    byStart := map[];
    for i := 0 to |bars|
      invariant forall t :: t in byStart <==> exists j :: 0 <= j < i && bars[j].start == t
      invariant forall t :: t in byStart ==> byStart[t] in bars && byStart[t].start == t
    {
      byStart := byStart[bars[i].start := bars[i]];
    }
    forall t | lo <= t <= hi
      ensures t in byStart <==> HasFinal(store.rows, Key(series, frame, t))
      ensures t in byStart ==> byStart[t] == store.rows[Key(series, frame, t)]
    {
      if HasFinal(store.rows, Key(series, frame, t)) {
        assert store.rows[Key(series, frame, t)] in bars;
      }
      if t in byStart {
        assert RowOfRange(store.rows, series, frame, lo, hi, byStart[t]);
      }
    }
  }

  /** Walks from boundary to boundary of the source; a hole leaves nothing. */
  method WalkSources(byStart: map<int, Bar>, source: Frame, bucket: Key, ghost rows: Rows) returns (bars: seq<Bar>)
    requires RollupSource(bucket.frame) == Some(source) && Aligned(bucket.start, bucket.frame)
    requires Indexes(byStart, rows, bucket.series, source, bucket.start, EndMS(bucket.start, bucket.frame))
    ensures if GridFilled(rows, bucket.series, source, FirstSource(bucket), LastSource(bucket))
            then bars == GridRows(rows, bucket.series, source, FirstSource(bucket), LastSource(bucket))
            else bars == []
  {
    hide Boundary, NextStart, EndMS, Aligned, FirstSource, LastSource;
    bars := [];
    var end := EndMS(bucket.start, bucket.frame);
    var cursor := bucket.start;
    ghost var first, limit := FirstSource(bucket), LastSource(bucket);
    SourceSpan(bucket);
    ghost var j := first;
    while cursor <= end
      invariant first <= j <= limit && cursor == Boundary(source, j)
      invariant forall i :: first <= i < j ==> HasFinal(rows, GridKey(bucket.series, source, i))
      invariant |bars| == j - first
      invariant forall i :: 0 <= i < |bars| ==> bars[i] == rows[GridKey(bucket.series, source, first + i)]
      decreases limit - j
    {
      assert j < limit;
      if first < j { BoundariesIncrease(source, first, j); }
      if cursor !in byStart {
        assert !HasFinal(rows, GridKey(bucket.series, source, j));
        return [];
      }
      assert HasFinal(rows, GridKey(bucket.series, source, j));
      bars := bars + [byStart[cursor]];
      NextOfBoundary(source, j);
      cursor := NextStart(cursor, source);
      j := j + 1;
    }
    if j < limit {
      BoundariesIncrease(source, j, limit);
    }
    assert bars == GridRows(rows, bucket.series, source, first, limit);
  }

  datatype SourceKey = SourceKey(series: Series, frame: Frame)
  datatype Span = Span(lo: int, hi: int)

  function SourceKeyOf(bucket: Key): SourceKey
    requires RollupSource(bucket.frame).Some?
  {
    SourceKey(bucket.series, RollupSource(bucket.frame).value)
  }

  /** One read per source series, wide enough for all of its buckets. */
  method SourceRanges(buckets: set<Key>) returns (ranges: map<SourceKey, Span>)
    requires forall b :: b in buckets ==> RollupSource(b.frame).Some?
    ensures forall b :: b in buckets ==>
              SourceKeyOf(b) in ranges
              && ranges[SourceKeyOf(b)].lo <= b.start && EndMS(b.start, b.frame) <= ranges[SourceKeyOf(b)].hi
  {
    hide EndMS, RollupSource;
    ranges := map[];
    var rest := buckets;
    while rest != {}
      invariant rest <= buckets
      invariant forall b :: b in buckets && b !in rest ==>
                  SourceKeyOf(b) in ranges
                  && ranges[SourceKeyOf(b)].lo <= b.start && EndMS(b.start, b.frame) <= ranges[SourceKeyOf(b)].hi
      decreases rest
    {
      var b :| b in rest;
      rest := rest - {b};
      var key, end := SourceKeyOf(b), EndMS(b.start, b.frame);
      var span := if key in ranges then ranges[key] else Span(b.start, end);
      if b.start < span.lo {
        span := Span(b.start, span.hi);
      }
      if end > span.hi {
        span := Span(span.lo, end);
      }
      ranges := ranges[key := span];
    }
  }

  /** Reads every source series once, before anything is written. */
  method ReadSources(store: MemoryStore, ranges: map<SourceKey, Span>) returns (sources: map<SourceKey, map<int, Bar>>)
    requires WellKeyed(store.rows)
    ensures sources.Keys == ranges.Keys
    ensures forall key :: key in ranges ==>
              Indexes(sources[key], store.rows, key.series, key.frame, ranges[key].lo, ranges[key].hi)
  {
    hide Indexes, WellKeyed;
    sources := map[];
    var rest := ranges.Keys;
    while rest != {}
      invariant rest <= ranges.Keys && sources.Keys == ranges.Keys - rest
      invariant forall key :: key in sources ==>
                  Indexes(sources[key], store.rows, key.series, key.frame, ranges[key].lo, ranges[key].hi)
      decreases rest
    {
      var key :| key in rest;
      rest := rest - {key};
      var byStart := IndexByStart(store, key.series, key.frame, ranges[key].lo, ranges[key].hi);
      sources := sources[key := byStart];
    }
  }

  lemma IndexesInside(byStart: map<int, Bar>, rows: Rows, series: Series, frame: Frame, lo: int, hi: int, lo': int, hi': int)
    requires Indexes(byStart, rows, series, frame, lo, hi) && lo <= lo' && hi' <= hi
    ensures Indexes(byStart, rows, series, frame, lo', hi')
  {
  }

  /** The rebuilt candle of one bucket, if its sources are all there. */
  method BuildBucket(service: Service, sources: map<int, Bar>, bucket: Key, ghost rows: Rows) returns (rollup: Option<Bar>)
    requires RollupSource(bucket.frame).Some? && Aligned(bucket.start, bucket.frame) && WellKeyed(rows)
    requires Indexes(sources, rows, bucket.series, RollupSource(bucket.frame).value,
                     bucket.start, EndMS(bucket.start, bucket.frame))
    ensures rollup.Some? <==> GridReady(rows, bucket)
    ensures rollup.Some? ==> rollup.value == GridRollup(rows, bucket) && KeyOf(rollup.value) == bucket && rollup.value.isFinal
  {
    hide EndMS, Aligned, FloorStart, FirstSource, LastSource, Complete, SortByStart, Rolled, RollupSource, Indexes;
    var source := RollupSource(bucket.frame).value;
    var bars := WalkSources(sources, source, bucket, rows);
    var end := EndMS(bucket.start, bucket.frame);
    var complete := service.SourceBarsComplete(bars, source, bucket.start, end);
    NothingIncomplete(source, bucket.start, end);
    if !complete {
      return None;
    }
    CompleteNonempty(bars, source, bucket.start, end);
    GridOrdered(rows, bucket);
    SortKeepsOrdered(bars);
    rollup := RollupBars(bucket.frame, bars, true);
    GridRollupKey(rows, bucket);
  }

  lemma NothingIncomplete(source: Frame, lo: int, hi: int)
    ensures !Complete([], source, lo, hi)
  {
  }

  lemma GridOrdered(rows: Rows, bucket: Key)
    requires WellKeyed(rows) && GridReady(rows, bucket)
    ensures OrderedByStart(GridRows(rows, bucket.series, RollupSource(bucket.frame).value, FirstSource(bucket), LastSource(bucket)))
  {
    hide Boundary, FirstSource, LastSource, Complete, RollupSource;
    var source, first := RollupSource(bucket.frame).value, FirstSource(bucket);
    var bars := GridRows(rows, bucket.series, source, first, LastSource(bucket));
    forall i, j | 0 <= i < j < |bars| ensures bars[i].start <= bars[j].start {
      BoundariesIncrease(source, first + i, first + j);
      assert HasFinal(rows, GridKey(bucket.series, source, first + i)) && HasFinal(rows, GridKey(bucket.series, source, first + j));
    }
  }

  ghost function KeysOf(bars: seq<Bar>): set<Key> { set b | b in bars :: KeyOf(b) }

  lemma KeysOfAppend(bars: seq<Bar>, bar: Bar)
    ensures KeysOf(bars + [bar]) == KeysOf(bars) + {KeyOf(bar)}
  {
    forall k | k in KeysOf(bars) ensures k in KeysOf(bars + [bar]) {
      var b :| b in bars && KeyOf(b) == k;
      assert b in bars + [bar];
    }
    assert bar in bars + [bar];
  }

  /** Writing some rows of `built` stores exactly those. */
  lemma {:induction false} UpsertsBuilt(rows: Rows, verifiedAt: map<Key, int>, built: Rows, batch: seq<Bar>)
    requires forall b :: b in batch ==> KeyOf(b) in built && built[KeyOf(b)] == b && b.frame != M1
    ensures KeysOf(batch) <= built.Keys
    ensures Upserted(rows, verifiedAt, batch) == rows + map k | k in KeysOf(batch) :: built[k]
  {
    if batch != [] {
      var front, last := batch[..|batch| - 1], batch[|batch| - 1];
      UpsertsBuilt(rows, verifiedAt, built, front);
      assert batch == front + [last];
      assert !Protected(verifiedAt, KeyOf(last));
      KeysOfAppend(front, last);
      OneMoreBuilt(rows, built, KeysOf(front), KeyOf(last));
    }
  }

  lemma OneMoreBuilt(rows: Rows, built: Rows, keys: set<Key>, key: Key)
    requires keys <= built.Keys && key in built
    ensures (rows + map k | k in keys :: built[k])[key := built[key]] == rows + map k | k in keys + {key} :: built[k]
  {
  }

  lemma LevelStored(rows: Rows, verifiedAt: map<Key, int>, built: Rows, repairs: seq<Bar>, after: Rows)
    requires forall b :: b in repairs ==> KeyOf(b) in built && built[KeyOf(b)] == b && b.frame != M1
    requires forall k :: k in built && k !in KeysOf(repairs) ==> k in rows && rows[k] == built[k]
    requires after == if repairs == [] then rows else Upserted(rows, verifiedAt, repairs)
    ensures after == rows + built
  {
    hide Upserted;
    UpsertsBuilt(rows, verifiedAt, built, repairs);
    if repairs == [] {
      assert KeysOf(repairs) == {};
    }
  }

  /** What the next level starts from. */
  lemma LevelContinues(rows: Rows, frames: seq<Frame>, changed: set<Key>, depth: nat, dependents: seq<Bar>)
    requires AtDepth(changed, depth) && AllTimely(changed) && WellKeyed(rows)
    requires KeysOf(dependents) == GridBuildable(rows, frames, changed)
    requires forall b :: b in dependents ==> b.isFinal && GridReady(rows, KeyOf(b)) && b == GridRollup(rows, KeyOf(b))
    ensures ValidKeys(dependents) == Accepted(rows, GridBuildable(rows, frames, changed))
    ensures AtDepth(ValidKeys(dependents), depth + 1) && AllTimely(ValidKeys(dependents))
    ensures forall b :: b in dependents ==> Enabled(b.frame)
    ensures BatchRows(rows, frames, changed, depth)
         == BatchRows(GridNext(rows, frames, changed), frames, ValidKeys(dependents), depth + 1)
  {
    hide GridReady, GridRollup, ValidBar, Dependents, Configured, Timely, GridNext, BatchRows, Enabled, Aligned, WellKeyed;
    var built := GridBuildable(rows, frames, changed);
    forall k ensures k in ValidKeys(dependents) <==> k in Accepted(rows, built) {
      if k in Accepted(rows, built) {
        assert k in KeysOf(dependents);
        var b :| b in dependents && KeyOf(b) == k;
      }
    }
    GridDepth(rows, frames, changed, depth);
    GridLevelKeepsKeys(rows, frames, changed);
    BatchStep(rows, frames, changed, depth);
    BucketsConfigured(frames, changed);
    forall b | b in dependents ensures Enabled(b.frame) {
      assert KeyOf(b) in KeysOf(dependents);
    }
  }

  lemma NoDependents(rows: Rows, frames: seq<Frame>, changed: set<Key>, depth: nat, dependents: seq<Bar>)
    requires AtDepth(changed, depth) && KeysOf(dependents) == GridBuildable(rows, frames, changed)
    ensures dependents == [] ==> BatchRows(rows, frames, changed, depth) == rows == GridNext(rows, frames, changed)
    ensures dependents != [] ==> depth < 5
  {
    hide GridReady, GridRollup, Dependents;
    GridDepth(rows, frames, changed, depth);
    if dependents == [] {
      NothingBatched(rows, frames, changed, depth);
    } else {
      assert KeyOf(dependents[0]) in KeysOf(dependents);
    }
  }

  /** Repairs every configured candle above the given source candles, in any store. */
  method RepairRollupsLocked(service: Service, sourceBars: seq<Bar>, ghost depth: nat) returns (ok: bool)
    requires WellKeyed(service.store.rows) && depth <= 5
    requires AtDepth(ValidKeys(sourceBars), depth) && AllTimely(ValidKeys(sourceBars))
    modifies service.store`rows
    ensures ok <==> forall b :: b in sourceBars ==> Enabled(b.frame)
    ensures !ok ==> service.store.rows == old(service.store.rows)
    ensures WellKeyed(service.store.rows)
    ensures ok ==>
      service.store.rows == BatchRows(old(service.store.rows), service.frames, ValidKeys(sourceBars), depth)
    decreases 6 - depth
  {
    hide GridReady, GridRollup, Aligned, RollupSource, EndMS, Feeds, Timely, BatchRows, Dependents, Upserted,
         Indexes, Enabled, Configured, ValidKeys, GridNext, AtDepth, WellKeyed;
    var store, frames := service.store, service.frames;
    ghost var rows, changed := store.rows, ValidKeys(sourceBars);
    var collected, buckets := CollectBuckets(frames, sourceBars);
    if !collected {
      return false;
    }
    BucketsConfigured(frames, changed);
    GridLevelKeepsKeys(rows, frames, changed);
    var ranges := SourceRanges(buckets);
    var sources := ReadSources(store, ranges);
    var dependents, repairs := BuildBuckets(service, buckets, ranges, sources);
    ghost var built := GridBuildable(rows, frames, changed);
    assert KeysOf(dependents) == built;
    if |repairs| > 0 {
      store.UpsertBars(repairs);
    }
    StoredNext(rows, store.verifiedAt, frames, changed, dependents, repairs, store.rows);
    NoDependents(rows, frames, changed, depth, dependents);
    ok := true;
    if |dependents| > 0 {
      LevelContinues(rows, frames, changed, depth, dependents);
      ok := RepairRollupsLocked(service, dependents, depth + 1);
    }
  }

  lemma StoredNext(rows: Rows, verifiedAt: map<Key, int>, frames: seq<Frame>, changed: set<Key>, dependents: seq<Bar>,
                   repairs: seq<Bar>, after: Rows)
    requires AllTimely(changed) && KeysOf(dependents) == GridBuildable(rows, frames, changed)
    requires forall b :: b in dependents ==> GridReady(rows, KeyOf(b)) && b == GridRollup(rows, KeyOf(b))
    requires forall b :: b in repairs ==> b in dependents
    requires forall k :: k in KeysOf(dependents) && k !in KeysOf(repairs) ==>
               GridReady(rows, k) && k in rows && rows[k] == GridRollup(rows, k)
    requires after == if repairs == [] then rows else Upserted(rows, verifiedAt, repairs)
    ensures after == GridNext(rows, frames, changed)
  {
    hide GridReady, GridRollup, Dependents, Configured, Timely, Upserted, Aligned;
    BucketsConfigured(frames, changed);
    var built := GridBuilt(rows, GridBuildable(rows, frames, changed));
    forall b | b in repairs ensures KeyOf(b) in built && built[KeyOf(b)] == b && b.frame != M1 {
      assert KeyOf(b) in KeysOf(dependents);
    }
    LevelStored(rows, verifiedAt, built, repairs, after);
  }

  /** Rebuilds the collected buckets from the sources read beforehand; those not yet stored so are
      to be written. */
  method BuildBuckets(service: Service, buckets: set<Key>, ranges: map<SourceKey, Span>, sources: map<SourceKey, map<int, Bar>>)
    returns (dependents: seq<Bar>, repairs: seq<Bar>)
    requires WellKeyed(service.store.rows)
    requires forall b :: b in buckets ==> RollupSource(b.frame).Some? && Aligned(b.start, b.frame)
    requires forall b :: b in buckets ==>
               SourceKeyOf(b) in ranges && SourceKeyOf(b) in sources
               && ranges[SourceKeyOf(b)].lo <= b.start && EndMS(b.start, b.frame) <= ranges[SourceKeyOf(b)].hi
    requires forall key :: key in ranges && key in sources ==>
               Indexes(sources[key], service.store.rows, key.series, key.frame, ranges[key].lo, ranges[key].hi)
    ensures forall k :: k in KeysOf(dependents) <==> k in buckets && GridReady(service.store.rows, k)
    ensures forall b :: b in dependents ==>
              b.isFinal && GridReady(service.store.rows, KeyOf(b)) && b == GridRollup(service.store.rows, KeyOf(b))
    ensures forall b :: b in repairs ==> b in dependents
    ensures forall k :: k in KeysOf(dependents) && k !in KeysOf(repairs) ==>
              GridReady(service.store.rows, k) && k in service.store.rows && service.store.rows[k] == GridRollup(service.store.rows, k)
  {
    hide GridReady, GridRollup, Aligned, RollupSource, EndMS, Indexes;
    ghost var rows := service.store.rows;
    dependents, repairs := [], [];
    var rest := buckets;
    while rest != {}
      invariant rest <= buckets
      invariant forall b :: b in dependents ==> b.isFinal && GridReady(rows, KeyOf(b)) && b == GridRollup(rows, KeyOf(b))
      invariant forall k :: k in KeysOf(dependents) <==> k in buckets && k !in rest && GridReady(rows, k)
      invariant forall b :: b in repairs ==> b in dependents
      invariant forall k :: k in KeysOf(dependents) && k !in KeysOf(repairs) ==>
                  GridReady(rows, k) && k in rows && rows[k] == GridRollup(rows, k)
      decreases rest
    {
      var bucket :| bucket in rest;
      rest := rest - {bucket};
      var span := ranges[SourceKeyOf(bucket)];
      IndexesInside(sources[SourceKeyOf(bucket)], rows, bucket.series, RollupSource(bucket.frame).value,
                    span.lo, span.hi, bucket.start, EndMS(bucket.start, bucket.frame));
      var rollup := BuildBucket(service, sources[SourceKeyOf(bucket)], bucket, rows);
      if rollup.None? {
        continue;
      }
      KeysOfAppend(dependents, rollup.value);
      KeysOfAppend(repairs, rollup.value);
      dependents := dependents + [rollup.value];
      if bucket in service.store.rows && service.store.rows[bucket].isFinal && service.store.rows[bucket] == rollup.value {
        continue;
      }
      repairs := repairs + [rollup.value];
    }
  }
}
