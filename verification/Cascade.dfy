/** What a cascade of rollups must leave in the store, and when a store is consistent. */
module Cascade {
  import opened Timeframe
  import opened Rollup
  import opened Storage

  /** How many rollups separate a timeframe from the minutes. */
  function Depth(tf: Frame): nat {
    match tf
    case M1 => 0
    case M5 => 1 case M15 => 1
    case M30 => 2
    case H1 => 3
    case H2 => 4 case H4 => 4 case H6 => 4 case H12 => 4 case D1 => 4
    case D2 => 5 case D3 => 5 case D5 => 5 case W1 => 5 case W2 => 5 case Mon1 => 5 case Mon3 => 5
  }

  lemma DepthStep(tf: Frame)
    ensures Depth(tf) <= 5
    ensures RollupSource(tf).Some? ==> Depth(tf) == Depth(RollupSource(tf).value) + 1
  {
  }

  /** The service no longer offers the 3-day timeframe. */
  predicate Enabled(tf: Frame) { tf != D3 }

  /** A list of source candles that covers lo..hi without a hole. */
  predicate Complete(bars: seq<Bar>, source: Frame, lo: int, hi: int) {
    && |bars| > 0 && bars[0].start == lo
    && (forall i :: 0 <= i < |bars| ==> bars[i].isFinal)
    && (forall i :: 0 <= i < |bars| - 1 ==> bars[i + 1].start == NextStart(bars[i].start, source))
    && NextStart(bars[|bars| - 1].start, source) > hi
    && bars[|bars| - 1].end >= hi
  }

  lemma CompleteNonempty(bars: seq<Bar>, source: Frame, lo: int, hi: int)
    requires Complete(bars, source, lo, hi)
    ensures bars != []
  {
  }

  function SourceBars(rows: Rows, bucket: Key): seq<Bar>
    requires RollupSource(bucket.frame).Some?
  {
    RangeBars(rows, bucket.series, RollupSource(bucket.frame).value,
              bucket.start, EndMS(bucket.start, bucket.frame))
  }

  /** The sources of a bucket are all stored, so the bucket can be built. */
  predicate Ready(rows: Rows, bucket: Key) {
    && RollupSource(bucket.frame).Some?
    && Complete(SourceBars(rows, bucket), RollupSource(bucket.frame).value,
                bucket.start, EndMS(bucket.start, bucket.frame))
  }

  function RollupOf(rows: Rows, bucket: Key): Bar
    requires Ready(rows, bucket)
  {
    Rolled(bucket.frame, SourceBars(rows, bucket), true)
  }

  /** `bucket` is a configured bucket built from, among others, the row `key`. */
  predicate Feeds(frames: seq<Frame>, key: Key, bucket: Key) {
    && bucket.frame in frames && Enabled(bucket.frame)
    && RollupSource(bucket.frame) == Some(key.frame)
    && bucket.series == key.series
    && bucket.start == FloorStart(key.start, bucket.frame)
  }

  function BucketOf(key: Key, tf: Frame): Key { Key(key.series, tf, FloorStart(key.start, tf)) }

  ghost function Dependents(frames: seq<Frame>, changed: set<Key>): set<Key> {
    set k, tf | k in changed && tf in frames && Feeds(frames, k, BucketOf(k, tf)) :: BucketOf(k, tf)
  }

  lemma DependentsAreFed(frames: seq<Frame>, changed: set<Key>, bucket: Key)
    ensures bucket in Dependents(frames, changed) <==> exists k :: k in changed && Feeds(frames, k, bucket)
  {
    hide FloorStart;
    forall k | k in changed && Feeds(frames, k, bucket) ensures bucket in Dependents(frames, changed) {
      assert BucketOf(k, bucket.frame) == bucket;
    }
  }

  ghost function Rebuildable(rows: Rows, frames: seq<Frame>, changed: set<Key>): set<Key> {
    set b | b in Dependents(frames, changed) && Ready(rows, b)
  }

  ghost function Built(rows: Rows, buckets: set<Key>): Rows
    requires forall b :: b in buckets ==> Ready(rows, b)
  {
    map b | b in buckets :: RollupOf(rows, b)
  }

  ghost function FinalKeys(bars: seq<Bar>): set<Key> {
    set b | b in bars && b.isFinal :: KeyOf(b)
  }

  ghost predicate AtDepth(keys: set<Key>, depth: nat) {
    forall k :: k in keys ==> Depth(k.frame) == depth
  }

  /** One level: every dependent bucket whose sources are all stored is rebuilt, at once. */
  ghost function NextRows(rows: Rows, frames: seq<Frame>, changed: set<Key>): Rows {
    rows + Built(rows, Rebuildable(rows, frames, changed))
  }

  lemma NextDepth(rows: Rows, frames: seq<Frame>, changed: set<Key>, depth: nat)
    requires AtDepth(changed, depth)
    ensures AtDepth(Rebuildable(rows, frames, changed), depth + 1)
    ensures changed != {} && Rebuildable(rows, frames, changed) != {} ==> depth < 5
  {
    hide Ready;
    forall b | b in Rebuildable(rows, frames, changed)
      ensures Depth(b.frame) == depth + 1 && depth < 5
    {
      DependentsAreFed(frames, changed, b);
      DepthStep(b.frame);
    }
  }

  /** The specification of a cascade: rebuild level by level until nothing depends on the changes. */
  ghost function CascadeRows(rows: Rows, frames: seq<Frame>, changed: set<Key>, depth: nat): Rows
    requires AtDepth(changed, depth)
    decreases 6 - depth
  {
    NextDepth(rows, frames, changed, depth);
    if Rebuildable(rows, frames, changed) == {} then rows
    else CascadeRows(NextRows(rows, frames, changed), frames, Rebuildable(rows, frames, changed), depth + 1)
  }

  // ----- consistency -----

  /** A bucket that the service is configured to keep, on its timeframe's grid. */
  predicate Configured(frames: seq<Frame>, bucket: Key) {
    && bucket.frame in frames && Enabled(bucket.frame) && RollupSource(bucket.frame).Some?
    && Aligned(bucket.start, bucket.frame)
  }

  /** If the sources of a bucket are all there, the bucket holds their rollup. */
  ghost predicate ConsistentAt(rows: Rows, bucket: Key) {
    Ready(rows, bucket) ==> HasFinal(rows, bucket) && rows[bucket] == RollupOf(rows, bucket)
  }

  ghost predicate Consistent(rows: Rows, frames: seq<Frame>) {
    forall b :: Configured(frames, b) ==> ConsistentAt(rows, b)
  }

  ghost predicate ConsistentOutside(rows: Rows, frames: seq<Frame>, buckets: set<Key>) {
    forall b :: Configured(frames, b) && b !in buckets ==> ConsistentAt(rows, b)
  }

  /** Timestamps that flooring is right for; rows that feed other timeframes must have them. */
  predicate Timely(key: Key) { Refines(key.frame, W1) ==> key.start >= EPOCH_MONDAY }

  ghost predicate AllTimely(keys: set<Key>) { forall k :: k in keys ==> Timely(k) }

  lemma FedBucketAligned(frames: seq<Frame>, key: Key, bucket: Key)
    requires Timely(key) && Feeds(frames, key, bucket)
    ensures Configured(frames, bucket) && Timely(bucket)
    ensures key.start >= EPOCH_MONDAY
  {
    hide FloorStart, Refines, EndMS, NextStart, PreviousStart, Aligned;
    SourceRefines(bucket.frame);
    Tiling(key.start, bucket.frame);
    if Refines(bucket.frame, W1) { FloorKeepsEpoch(key.start, bucket.frame); }
  }

  /** A rollup of a ready, aligned bucket is stored under that bucket's key. */
  lemma RollupKey(rows: Rows, bucket: Key)
    requires WellKeyed(rows) && Ready(rows, bucket) && Aligned(bucket.start, bucket.frame)
    ensures KeyOf(RollupOf(rows, bucket)) == bucket && RollupOf(rows, bucket).isFinal
    ensures RollupOf(rows, bucket).end == EndMS(bucket.start, bucket.frame)
  {
    hide FloorStart, EndMS, NextStart, PreviousStart, RangeBars, Fold;
    var source := RollupSource(bucket.frame).value;
    RangeContents(rows, bucket.series, source, bucket.start, EndMS(bucket.start, bucket.frame));
    assert SourceBars(rows, bucket)[0] in SourceBars(rows, bucket);
  }

  /** Sources are read at one timeframe only, so writes elsewhere do not change them. */
  lemma SameSources(rows: Rows, rows': Rows, bucket: Key)
    requires RollupSource(bucket.frame).Some?
    requires forall t :: bucket.start <= t <= EndMS(bucket.start, bucket.frame) ==>
               SameFinal(rows, rows', Key(bucket.series, RollupSource(bucket.frame).value, t))
    ensures SourceBars(rows, bucket) == SourceBars(rows', bucket)
    ensures Ready(rows, bucket) == Ready(rows', bucket)
    ensures Ready(rows, bucket) ==> RollupOf(rows, bucket) == RollupOf(rows', bucket)
  {
    hide EndMS, FloorStart, RangeBars, Complete;
    RangeAgrees(rows, rows', bucket.series, RollupSource(bucket.frame).value,
                bucket.start, EndMS(bucket.start, bucket.frame));
  }

  /** Rebuilding buckets of one depth leaves the sources of every bucket of that depth alone. */
  lemma BuiltKeepsSources(rows: Rows, done: set<Key>, depth: nat, bucket: Key)
    requires forall b :: b in done ==> Ready(rows, b)
    requires AtDepth(done, depth) && RollupSource(bucket.frame).Some? && Depth(bucket.frame) != depth + 1
    ensures Ready(rows + Built(rows, done), bucket) == Ready(rows, bucket)
    ensures Ready(rows, bucket) ==> RollupOf(rows + Built(rows, done), bucket) == RollupOf(rows, bucket)
  {
    hide EndMS, FloorStart, RollupOf, Ready;
    DepthStep(bucket.frame);
    SameSources(rows, rows + Built(rows, done), bucket);
  }

  /** A row inside an aligned bucket feeds that bucket. */
  lemma InsideFeeds(frames: seq<Frame>, key: Key, bucket: Key)
    requires Configured(frames, bucket) && Timely(key)
    requires RollupSource(bucket.frame) == Some(key.frame) && key.series == bucket.series
    requires bucket.start <= key.start <= EndMS(bucket.start, bucket.frame)
    ensures Feeds(frames, key, bucket)
  {
    hide FloorStart, Refines, PreviousStart, NextStart, Aligned;
    SourceRefines(bucket.frame);
    Tiling(key.start, bucket.frame);
    assert EndMS(bucket.start, bucket.frame) == NextStart(bucket.start, bucket.frame) - 1;
  }

  lemma LevelKeepsKeys(rows: Rows, frames: seq<Frame>, changed: set<Key>)
    requires WellKeyed(rows) && AllTimely(changed)
    ensures WellKeyed(NextRows(rows, frames, changed)) && AllTimely(Rebuildable(rows, frames, changed))
    ensures forall b :: b in Rebuildable(rows, frames, changed) ==> RollupOf(rows, b).isFinal
  {
    hide Ready, RollupOf, Feeds, Dependents, Configured, Timely;
    forall b | b in Rebuildable(rows, frames, changed)
      ensures Timely(b) && KeyOf(RollupOf(rows, b)) == b && RollupOf(rows, b).isFinal
    {
      DependentsAreFed(frames, changed, b);
      var k :| k in changed && Feeds(frames, k, b);
      FedBucketAligned(frames, k, b);
      ConfiguredAligned(frames, b);
      RollupKey(rows, b);
    }
  }

  lemma {:induction false} CascadeKeepsKeys(rows: Rows, frames: seq<Frame>, changed: set<Key>, depth: nat)
    requires WellKeyed(rows) && AtDepth(changed, depth) && AllTimely(changed)
    ensures WellKeyed(CascadeRows(rows, frames, changed, depth))
    decreases 6 - depth
  {
    hide Ready, Dependents, Timely, NextRows;
    NextDepth(rows, frames, changed, depth);
    LevelKeepsKeys(rows, frames, changed);
    if Rebuildable(rows, frames, changed) != {} {
      CascadeKeepsKeys(NextRows(rows, frames, changed), frames, Rebuildable(rows, frames, changed), depth + 1);
    }
  }

  lemma LevelRestores(rows: Rows, frames: seq<Frame>, changed: set<Key>, depth: nat, except: set<Key>)
    requires WellKeyed(rows) && AtDepth(changed, depth) && AllTimely(changed)
    requires ConsistentOutside(rows, frames, Dependents(frames, changed) + except)
    ensures var built := Rebuildable(rows, frames, changed);
            && WellKeyed(NextRows(rows, frames, changed)) && AllTimely(built)
            && ConsistentOutside(NextRows(rows, frames, changed), frames, Dependents(frames, built) + except)
  {
    hide Ready, RollupOf, Feeds, Dependents, Configured, Timely;
    var built := Rebuildable(rows, frames, changed);
    NextDepth(rows, frames, changed, depth);
    LevelKeepsKeys(rows, frames, changed);
    forall b | Configured(frames, b) && b !in Dependents(frames, built) + except
      ensures ConsistentAt(NextRows(rows, frames, changed), b)
    {
      BucketRestored(rows, frames, changed, depth, except, b);
    }
  }

  lemma ConfiguredAligned(frames: seq<Frame>, b: Key)
    requires Configured(frames, b)
    ensures Aligned(b.start, b.frame) && RollupSource(b.frame).Some?
  {
  }

  lemma BucketRestored(rows: Rows, frames: seq<Frame>, changed: set<Key>, depth: nat, except: set<Key>, b: Key)
    requires WellKeyed(rows) && AtDepth(changed, depth) && AllTimely(changed)
    requires ConsistentOutside(rows, frames, Dependents(frames, changed) + except)
    requires AtDepth(Rebuildable(rows, frames, changed), depth + 1)
    requires AllTimely(Rebuildable(rows, frames, changed))
    requires forall x :: x in Rebuildable(rows, frames, changed) ==> RollupOf(rows, x).isFinal
    requires Configured(frames, b) && b !in Dependents(frames, Rebuildable(rows, frames, changed)) + except
    ensures ConsistentAt(NextRows(rows, frames, changed), b)
  {
    hide Ready, RollupOf, Feeds, Dependents, Configured, Timely, EndMS;
    var built := Rebuildable(rows, frames, changed);
    var rows' := NextRows(rows, frames, changed);
    ConfiguredAligned(frames, b);
    forall t | b.start <= t <= EndMS(b.start, b.frame)
      ensures SameFinal(rows, rows', Key(b.series, RollupSource(b.frame).value, t))
    {
      var k := Key(b.series, RollupSource(b.frame).value, t);
      if k in built {
        InsideFeeds(frames, k, b);
        DependentsAreFed(frames, built, b);
        assert false;
      }
    }
    SameSources(rows, rows', b);
    if b !in built && b in Dependents(frames, changed) {
      assert !Ready(rows, b);
    }
  }

  /** The consistency theorem: once the cascade of some changed rows is through, every
      configured bucket whose sources are all stored holds exactly their rollup.  `except`
      is for buckets that were themselves overwritten from outside. */
  lemma {:induction false} CascadeRestores(rows: Rows, frames: seq<Frame>, changed: set<Key>, depth: nat, except: set<Key>)
    requires WellKeyed(rows) && AtDepth(changed, depth) && AllTimely(changed)
    requires ConsistentOutside(rows, frames, Dependents(frames, changed) + except)
    ensures WellKeyed(CascadeRows(rows, frames, changed, depth))
    ensures ConsistentOutside(CascadeRows(rows, frames, changed, depth), frames, except)
    decreases 6 - depth
  {
    hide Ready, Dependents, Configured, Timely, NextRows;
    var built := Rebuildable(rows, frames, changed);
    NextDepth(rows, frames, changed, depth);
    LevelRestores(rows, frames, changed, depth, except);
    if built == {} {
      NothingBuilt(rows, frames, changed);
      NothingDependsOnNothing(frames);
      assert {} + except == except;
    } else {
      CascadeRestores(NextRows(rows, frames, changed), frames, built, depth + 1, except);
    }
  }

  lemma NothingDependsOnNothing(frames: seq<Frame>)
    ensures Dependents(frames, {}) == {}
  {
  }

  lemma NothingBuilt(rows: Rows, frames: seq<Frame>, changed: set<Key>)
    requires Rebuildable(rows, frames, changed) == {}
    ensures NextRows(rows, frames, changed) == rows
  {
  }

  /** Rows of the timeframes up to a depth are the same. */
  ghost predicate SameUpTo(rows: Rows, rows': Rows, depth: nat) {
    forall k: Key :: Depth(k.frame) <= depth ==> (k in rows <==> k in rows') && (k in rows ==> rows[k] == rows'[k])
  }

  /** A cascade changes no row at or below the depth it starts from. */
  lemma {:induction false} CascadeKeepsLower(rows: Rows, frames: seq<Frame>, changed: set<Key>, depth: nat)
    requires AtDepth(changed, depth)
    ensures SameUpTo(rows, CascadeRows(rows, frames, changed, depth), depth)
    decreases 6 - depth
  {
    hide Ready, Dependents, RollupOf;
    NextDepth(rows, frames, changed, depth);
    if Rebuildable(rows, frames, changed) != {} {
      assert forall k :: k in Built(rows, Rebuildable(rows, frames, changed)) ==> Depth(k.frame) == depth + 1;
      CascadeKeepsLower(NextRows(rows, frames, changed), frames, Rebuildable(rows, frames, changed), depth + 1);
    }
  }

  /** The bucket already holds the candle that would be written. */
  ghost predicate Holds(rows: Rows, bucket: Key, bar: Bar) { bucket in rows && rows[bucket] == bar }

  ghost predicate SameAbove(rows: Rows, rows': Rows, depth: nat) {
    forall k: Key :: Depth(k.frame) > depth ==> (k in rows <==> k in rows') && (k in rows ==> rows[k] == rows'[k])
  }

  /** Later levels leave the rows of this one alone, so an equal end means an equal level. */
  lemma EqualEndEqualLevel(rows: Rows, ours: Rows, theirs: Rows, ours': Rows, theirs': Rows, depth: nat)
    requires SameUpTo(ours, ours', depth) && SameUpTo(theirs, theirs', depth)
    requires SameAbove(rows, ours, depth) && SameAbove(rows, theirs, depth)
    ensures ours' == theirs' ==> ours == theirs
  {
    hide Depth;
    if ours' == theirs' {
      forall k ensures (k in ours <==> k in theirs) && (k in ours ==> ours[k] == theirs[k]) {
        assert Depth(k.frame) <= depth || Depth(k.frame) > depth;
      }
    }
  }
}
