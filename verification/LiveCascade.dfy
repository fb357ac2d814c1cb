/** The queue of the rollup service on any batch, in both its modes: in live mode a candle only
    starts the rollup of the buckets that it closes. */
module LiveCascade {
  import opened Timeframe
  import opened Rollup
  import opened Storage
  import opened Cascade

  /** A candle with this end reaches the end of the bucket. */
  predicate Closes(end: int, bucket: Key) { end >= EndMS(bucket.start, bucket.frame) }

  /** The bucket is looked at when the candle is taken from the queue. */
  predicate Rolls(live: bool, frames: seq<Frame>, bar: Bar, bucket: Key) {
    Feeds(frames, KeyOf(bar), bucket) && (live ==> Closes(bar.end, bucket))
  }

  ghost function Candidates(live: bool, frames: seq<Frame>, bars: seq<Bar>): set<Key> {
    set b, tf | b in bars && b.isFinal && tf in frames && Rolls(live, frames, b, BucketOf(KeyOf(b), tf)) :: BucketOf(KeyOf(b), tf)
  }

  lemma CandidatesAreRolled(live: bool, frames: seq<Frame>, bars: seq<Bar>, bucket: Key)
    ensures bucket in Candidates(live, frames, bars) <==> exists b :: b in bars && b.isFinal && Rolls(live, frames, b, bucket)
  {
    hide FloorStart, Closes;
    forall b | b in bars && b.isFinal && Rolls(live, frames, b, bucket) ensures bucket in Candidates(live, frames, bars) {
      assert BucketOf(KeyOf(b), bucket.frame) == bucket;
    }
  }

  ghost predicate FedBy(live: bool, frames: seq<Frame>, key: Key, bucket: Key) {
    Feeds(frames, key, bucket) && (live ==> Closes(EndMS(key.start, key.frame), bucket))
  }

  /** The buckets that the rebuilt ones lead to. */
  ghost function Above(live: bool, frames: seq<Frame>, built: set<Key>): set<Key> {
    set b | b in Dependents(frames, built) && exists k :: k in built && FedBy(live, frames, k, b)
  }

  lemma AboveAreFed(live: bool, frames: seq<Frame>, built: set<Key>, bucket: Key)
    ensures bucket in Above(live, frames, built) <==> exists k :: k in built && FedBy(live, frames, k, bucket)
  {
    hide Feeds, Closes, Dependents;
    DependentsAreFed(frames, built, bucket);
  }

  ghost function ReadyOf(rows: Rows, buckets: set<Key>): set<Key> { set b | b in buckets && Ready(rows, b) }

  lemma AboveDepth(live: bool, frames: seq<Frame>, built: set<Key>, depth: nat)
    requires AtDepth(built, depth)
    ensures AtDepth(Above(live, frames, built), depth + 1)
    ensures built != {} ==> depth <= 5
    ensures Above(live, frames, built) != {} ==> depth < 5
  {
    hide Closes, Dependents;
    forall b | b in Above(live, frames, built) ensures Depth(b.frame) == depth + 1 && depth < 5 {
      AboveAreFed(live, frames, built, b);
      DepthStep(b.frame);
    }
    forall k | k in built ensures depth <= 5 { DepthStep(k.frame); }
  }

  /** What the queue leaves: the ready ones of the buckets are rebuilt, then those they lead to. */
  ghost function QueueRows(live: bool, rows: Rows, frames: seq<Frame>, buckets: set<Key>, depth: nat): Rows
    requires AtDepth(buckets, depth)
    decreases 6 - depth
  {
    var built := ReadyOf(rows, buckets);
    AboveDepth(live, frames, built, depth);
    if built == {} then rows
    else QueueRows(live, rows + Built(rows, built), frames, Above(live, frames, built), depth + 1)
  }

  // ----- repair mode is the cascade -----

  lemma CandidateDepth(live: bool, frames: seq<Frame>, bars: seq<Bar>, depth: nat)
    requires AtDepth(FinalKeys(bars), depth)
    ensures AtDepth(Candidates(live, frames, bars), depth + 1)
  {
    hide Closes;
    forall b | b in Candidates(live, frames, bars) ensures Depth(b.frame) == depth + 1 {
      CandidatesAreRolled(live, frames, bars, b);
      var bar :| bar in bars && bar.isFinal && Rolls(live, frames, bar, b);
      assert KeyOf(bar) in FinalKeys(bars);
      DepthStep(b.frame);
    }
  }

  /** What rolling up a batch of one depth leaves. */
  ghost function RolledUp(live: bool, rows: Rows, frames: seq<Frame>, batch: seq<Bar>, depth: nat): Rows
    requires AtDepth(FinalKeys(batch), depth)
  {
    CandidateDepth(live, frames, batch, depth);
    QueueRows(live, rows, frames, Candidates(live, frames, batch), depth + 1)
  }

  lemma RepairCandidates(frames: seq<Frame>, bars: seq<Bar>)
    ensures Candidates(false, frames, bars) == Dependents(frames, FinalKeys(bars))
  {
    hide Feeds, Closes, Dependents, Candidates;
    forall b ensures b in Candidates(false, frames, bars) <==> b in Dependents(frames, FinalKeys(bars)) {
      CandidatesAreRolled(false, frames, bars, b);
      DependentsAreFed(frames, FinalKeys(bars), b);
      if b in Candidates(false, frames, bars) {
        var bar :| bar in bars && bar.isFinal && Rolls(false, frames, bar, b);
        assert KeyOf(bar) in FinalKeys(bars);
      }
    }
  }

  lemma RepairAbove(frames: seq<Frame>, built: set<Key>)
    ensures Above(false, frames, built) == Dependents(frames, built)
  {
    hide Feeds, Closes, Dependents;
    forall b ensures b in Above(false, frames, built) <==> b in Dependents(frames, built) {
      DependentsAreFed(frames, built, b);
      if b in Dependents(frames, built) {
        var k :| k in built && Feeds(frames, k, b);
        assert FedBy(false, frames, k, b);
      }
    }
  }

  lemma {:induction false} RepairQueue(rows: Rows, frames: seq<Frame>, changed: set<Key>, depth: nat)
    requires AtDepth(changed, depth) && AtDepth(Dependents(frames, changed), depth + 1)
    ensures QueueRows(false, rows, frames, Dependents(frames, changed), depth + 1) == CascadeRows(rows, frames, changed, depth)
    decreases 6 - depth
  {
    hide Ready, Dependents, Above, Built;
    var built := Rebuildable(rows, frames, changed);
    assert ReadyOf(rows, Dependents(frames, changed)) == built;
    NextDepth(rows, frames, changed, depth);
    RepairAbove(frames, built);
    AboveDepth(false, frames, built, depth + 1);
    if built != {} {
      RepairQueue(NextRows(rows, frames, changed), frames, built, depth + 1);
    }
  }

  /** In repair mode a batch is cascaded in full. */
  lemma RepairIsCascade(rows: Rows, frames: seq<Frame>, batch: seq<Bar>, depth: nat)
    requires AtDepth(FinalKeys(batch), depth)
    ensures RolledUp(false, rows, frames, batch, depth) == CascadeRows(rows, frames, FinalKeys(batch), depth)
  {
    hide QueueRows, CascadeRows, Candidates, Dependents, AtDepth, FinalKeys;
    CandidateDepth(false, frames, batch, depth);
    RepairCandidates(frames, batch);
    RepairQueue(rows, frames, FinalKeys(batch), depth);
  }

  // ----- when live mode leaves the same rows -----

  lemma QueueStep(live: bool, rows: Rows, frames: seq<Frame>, buckets: set<Key>, depth: nat)
    requires AtDepth(buckets, depth) && AtDepth(Above(live, frames, ReadyOf(rows, buckets)), depth + 1)
    ensures QueueRows(live, rows, frames, buckets, depth)
         == QueueRows(live, rows + Built(rows, ReadyOf(rows, buckets)), frames, Above(live, frames, ReadyOf(rows, buckets)), depth + 1)
  {
    hide Ready, RollupOf, FedBy;
    if ReadyOf(rows, buckets) == {} {
      assert rows + Built(rows, {}) == rows;
      assert Above(live, frames, {}) == {} && ReadyOf(rows, {}) == {};
    }
  }

  /** The queue changes no row below the buckets it starts with. */
  lemma {:induction false} QueueKeepsLower(live: bool, rows: Rows, frames: seq<Frame>, buckets: set<Key>, depth: nat)
    requires AtDepth(buckets, depth) && depth > 0
    ensures SameUpTo(rows, QueueRows(live, rows, frames, buckets, depth), depth - 1)
    decreases 6 - depth
  {
    hide Ready, RollupOf, Above;
    var built := ReadyOf(rows, buckets);
    AboveDepth(live, frames, built, depth);
    if built != {} {
      assert forall k :: k in Built(rows, built) ==> Depth(k.frame) == depth;
      QueueKeepsLower(live, rows + Built(rows, built), frames, Above(live, frames, built), depth + 1);
    }
  }

  /** Level by level, what only repair mode rebuilds is already stored. */
  ghost predicate NothingSkipped(rows: Rows, frames: seq<Frame>, buckets: set<Key>, all: set<Key>, depth: nat)
    decreases 6 - depth
  {
    && (forall b :: b in ReadyOf(rows, all) && b !in buckets ==> Holds(rows, b, RollupOf(rows, b)))
    && (depth < 5 ==>
          NothingSkipped(rows + Built(rows, ReadyOf(rows, all)), frames, Above(true, frames, ReadyOf(rows, buckets)),
                         Above(false, frames, ReadyOf(rows, all)), depth + 1))
  }

  lemma LevelSkipsNothing(rows: Rows, buckets: set<Key>, all: set<Key>)
    requires buckets <= all
    ensures rows + Built(rows, ReadyOf(rows, buckets)) == rows + Built(rows, ReadyOf(rows, all))
       <==> forall b :: b in ReadyOf(rows, all) && b !in buckets ==> Holds(rows, b, RollupOf(rows, b))
  {
    hide Ready, RollupOf;
    var ours, theirs := rows + Built(rows, ReadyOf(rows, buckets)), rows + Built(rows, ReadyOf(rows, all));
    if forall b :: b in ReadyOf(rows, all) && b !in buckets ==> Holds(rows, b, RollupOf(rows, b)) {
      forall k ensures (k in ours <==> k in theirs) && (k in ours ==> ours[k] == theirs[k]) {
      }
    } else {
      var b :| b in ReadyOf(rows, all) && b !in buckets && !Holds(rows, b, RollupOf(rows, b));
      assert theirs[b] == RollupOf(rows, b) && (b in ours ==> ours[b] == rows[b]);
    }
  }

  lemma FewerAbove(frames: seq<Frame>, built: set<Key>, all: set<Key>)
    requires built <= all
    ensures Above(true, frames, built) <= Above(false, frames, all)
  {
    hide Feeds, Closes, Dependents, Above;
    forall b | b in Above(true, frames, built) ensures b in Above(false, frames, all) {
      AboveAreFed(true, frames, built, b);
      AboveAreFed(false, frames, all, b);
      var k :| k in built && FedBy(true, frames, k, b);
      assert FedBy(false, frames, k, b);
    }
  }

  /** On any store, live mode leaves the rows of repair mode if and only if, level by level, the
      ready buckets that it passes over already hold their rollup. */
  lemma {:induction false} QueuesAgreeExactly(rows: Rows, frames: seq<Frame>, buckets: set<Key>, all: set<Key>, depth: nat)
    requires buckets <= all && AtDepth(buckets, depth) && AtDepth(all, depth) && 0 < depth <= 6
    ensures QueueRows(true, rows, frames, buckets, depth) == QueueRows(false, rows, frames, all, depth)
       <==> NothingSkipped(rows, frames, buckets, all, depth)
    decreases 6 - depth
  {
    hide Ready, RollupOf, Above, QueueRows, Built, Holds, Depth;
    var built, rebuilt := ReadyOf(rows, buckets), ReadyOf(rows, all);
    var ours, theirs := rows + Built(rows, built), rows + Built(rows, rebuilt);
    var next, nextAll := Above(true, frames, built), Above(false, frames, rebuilt);
    AboveDepth(true, frames, built, depth);
    AboveDepth(false, frames, rebuilt, depth);
    FewerAbove(frames, built, rebuilt);
    LevelSkipsNothing(rows, buckets, all);
    QueueStep(true, rows, frames, buckets, depth);
    QueueStep(false, rows, frames, all, depth);
    if depth >= 5 {
      assert next == {} && nextAll == {};
      NothingQueued(true, ours, frames, depth + 1);
      NothingQueued(false, theirs, frames, depth + 1);
    } else if ours == theirs {
      QueuesAgreeExactly(ours, frames, next, nextAll, depth + 1);
    } else {
      QueueKeepsLower(true, ours, frames, next, depth + 1);
      QueueKeepsLower(false, theirs, frames, nextAll, depth + 1);
      BuiltAtDepth(rows, built, depth);
      BuiltAtDepth(rows, rebuilt, depth);
      EqualEndEqualLevel(rows, ours, theirs, QueueRows(true, ours, frames, next, depth + 1),
                         QueueRows(false, theirs, frames, nextAll, depth + 1), depth);
    }
  }

  lemma NothingQueued(live: bool, rows: Rows, frames: seq<Frame>, depth: nat)
    ensures QueueRows(live, rows, frames, {}, depth) == rows
  {
  }

  lemma BuiltAtDepth(rows: Rows, built: set<Key>, depth: nat)
    requires AtDepth(built, depth) && forall b :: b in built ==> Ready(rows, b)
    ensures SameAbove(rows, rows + Built(rows, built), depth)
  {
    hide Ready, RollupOf;
  }

  lemma FewerCandidates(frames: seq<Frame>, bars: seq<Bar>)
    ensures Candidates(true, frames, bars) <= Candidates(false, frames, bars)
  {
    hide Feeds, Closes, Candidates;
    forall b | b in Candidates(true, frames, bars) ensures b in Candidates(false, frames, bars) {
      CandidatesAreRolled(true, frames, bars, b);
      CandidatesAreRolled(false, frames, bars, b);
      var bar :| bar in bars && bar.isFinal && Rolls(true, frames, bar, b);
      assert Rolls(false, frames, bar, b);
    }
  }

  /** A live batch leaves what the same batch leaves in repair mode exactly when nothing is skipped. */
  lemma LiveEqualsRepairExactly(rows: Rows, frames: seq<Frame>, batch: seq<Bar>, depth: nat)
    requires AtDepth(FinalKeys(batch), depth) && depth <= 5
    ensures RolledUp(true, rows, frames, batch, depth) == CascadeRows(rows, frames, FinalKeys(batch), depth)
       <==> NothingSkipped(rows, frames, Candidates(true, frames, batch), Candidates(false, frames, batch), depth + 1)
  {
    hide QueueRows, CascadeRows, NothingSkipped, Candidates, Dependents, AtDepth, FinalKeys;
    CandidateDepth(true, frames, batch, depth);
    CandidateDepth(false, frames, batch, depth);
    FewerCandidates(frames, batch);
    RepairIsCascade(rows, frames, batch, depth);
    QueuesAgreeExactly(rows, frames, Candidates(true, frames, batch), Candidates(false, frames, batch), depth + 1);
  }

  // ----- arrival in order -----

  /** Nothing of the series is stored beyond the buckets that hold time `now`. */
  ghost predicate NothingLater(rows: Rows, series: Series, now: int) {
    forall k :: k in rows && k.series == series ==> k.start <= FloorStart(now, k.frame)
  }

  predicate BucketOfNow(key: Key, series: Series, now: int) { key.series == series && key.start == FloorStart(now, key.frame) }

  /** The candles just stored are the newest of their series. */
  ghost predicate NewestOf(rows: Rows, batch: seq<Bar>, series: Series, now: int) {
    && now >= EPOCH_MONDAY && NothingLater(rows, series, now)
    && forall b :: b in batch ==> BucketOfNow(KeyOf(b), series, now) && b.end == EndMS(b.start, b.frame)
  }

  lemma EndIsNext(start: int, tf: Frame)
    ensures EndMS(start, tf) == NextStart(start, tf) - 1
  {
  }

  /** Every timeframe that others are built from has buckets of one fixed width. */
  lemma SourceWidth(target: Frame, start: int)
    requires RollupSource(target).Some?
    ensures var source := RollupSource(target).value;
            !PeriodOf(source).Months? && NextStart(start, source) == start + WidthMS(source)
  {
  }

  /** While nothing later is stored, a bucket that the newest candle does not close cannot be
      ready: waiting for its closing candle skips nothing. */
  lemma UnclosedNotReady(rows: Rows, series: Series, now: int, key: Key, bucket: Key)
    requires now >= EPOCH_MONDAY && WellKeyed(rows) && NothingLater(rows, series, now)
    requires BucketOfNow(key, series, now) && RollupSource(bucket.frame) == Some(key.frame)
    requires bucket.series == series && !Closes(EndMS(key.start, key.frame), bucket)
    ensures !Ready(rows, bucket)
  {
    hide FloorStart, NextStart, PreviousStart, EndMS, RollupSource, Aligned;
    if Ready(rows, bucket) {
      var end := EndMS(bucket.start, bucket.frame);
      var bars := SourceBars(rows, bucket);
      var last := bars[|bars| - 1];
      RangeContents(rows, series, key.frame, bucket.start, end);
      assert last in bars && RowOfRange(rows, series, key.frame, bucket.start, end, last);
      SourceWidth(bucket.frame, last.start);
      SourceWidth(bucket.frame, key.start);
      EndIsNext(key.start, key.frame);
    }
  }

  lemma FedOfNow(frames: seq<Frame>, key: Key, bucket: Key, series: Series, now: int)
    requires now >= EPOCH_MONDAY && BucketOfNow(key, series, now) && Feeds(frames, key, bucket)
    ensures BucketOfNow(bucket, series, now)
  {
    hide FloorStart, Refines, EndMS, RollupSource;
    SourceRefines(bucket.frame);
    FloorOfFloor(now, key.frame, bucket.frame);
  }

  ghost predicate AllOfNow(keys: set<Key>, series: Series, now: int) { forall k :: k in keys ==> BucketOfNow(k, series, now) }

  lemma {:induction false} InOrderSkipsNothing(rows: Rows, frames: seq<Frame>, buckets: set<Key>, all: set<Key>, depth: nat, series: Series, now: int)
    requires now >= EPOCH_MONDAY && WellKeyed(rows) && NothingLater(rows, series, now) && AllOfNow(all, series, now) && AllTimely(all)
    requires buckets <= all && forall b :: b in all && b !in buckets ==> !Ready(rows, b)
    requires forall b :: b in all ==> Aligned(b.start, b.frame)
    ensures NothingSkipped(rows, frames, buckets, all, depth)
    decreases 6 - depth
  {
    hide Ready, RollupOf, FloorStart, EndMS, Feeds, Closes, Above, Timely, Aligned, BucketOfNow;
    var built := ReadyOf(rows, all);
    assert ReadyOf(rows, buckets) == built;
    if depth < 5 {
      var rows' := rows + Built(rows, built);
      forall b | b in built ensures KeyOf(RollupOf(rows, b)) == b { RollupKey(rows, b); }
      NextNothingLater(rows, built, series, now);
      forall b | b in Above(false, frames, built)
        ensures BucketOfNow(b, series, now) && Timely(b) && Aligned(b.start, b.frame)
        ensures b !in Above(true, frames, built) ==> !Ready(rows', b)
      {
        AboveOfNow(rows', frames, built, b, series, now);
      }
      FewerAbove(frames, built, built);
      InOrderSkipsNothing(rows', frames, Above(true, frames, built), Above(false, frames, built), depth + 1, series, now);
    }
  }

  lemma NextNothingLater(rows: Rows, built: set<Key>, series: Series, now: int)
    requires NothingLater(rows, series, now) && AllOfNow(built, series, now) && forall b :: b in built ==> Ready(rows, b)
    ensures NothingLater(rows + Built(rows, built), series, now)
  {
    hide Ready, RollupOf, FloorStart;
  }

  lemma AboveOfNow(rows: Rows, frames: seq<Frame>, built: set<Key>, b: Key, series: Series, now: int)
    requires now >= EPOCH_MONDAY && WellKeyed(rows) && NothingLater(rows, series, now) && AllOfNow(built, series, now) && AllTimely(built)
    requires b in Above(false, frames, built)
    ensures BucketOfNow(b, series, now) && Timely(b) && Aligned(b.start, b.frame)
    ensures b !in Above(true, frames, built) ==> !Ready(rows, b)
  {
    hide Ready, FloorStart, EndMS, Closes, Above, Timely, Aligned, RollupSource, Enabled;
    AboveAreFed(false, frames, built, b);
    AboveAreFed(true, frames, built, b);
    var k :| k in built && FedBy(false, frames, k, b);
    FedOfNow(frames, k, b, series, now);
    FedBucketAligned(frames, k, b);
    ConfiguredAligned(frames, b);
    if b !in Above(true, frames, built) {
      UnclosedNotReady(rows, series, now, k, b);
    }
  }

  /** Finals that arrive in order lose nothing by live mode. */
  lemma InOrderIsCascade(rows: Rows, frames: seq<Frame>, batch: seq<Bar>, depth: nat, series: Series, now: int)
    requires WellKeyed(rows) && NewestOf(rows, batch, series, now)
    requires AtDepth(FinalKeys(batch), depth) && AllTimely(FinalKeys(batch)) && depth <= 5
    ensures RolledUp(true, rows, frames, batch, depth) == CascadeRows(rows, frames, FinalKeys(batch), depth)
  {
    hide Ready, FloorStart, EndMS, Feeds, Closes, Candidates, Timely, Aligned, RolledUp, CascadeRows, NothingSkipped;
    var live, all := Candidates(true, frames, batch), Candidates(false, frames, batch);
    FewerCandidates(frames, batch);
    forall b | b in all
      ensures BucketOfNow(b, series, now) && Timely(b) && Aligned(b.start, b.frame)
      ensures b !in live ==> !Ready(rows, b)
    {
      CandidateOfNow(rows, frames, batch, b, series, now);
    }
    InOrderSkipsNothing(rows, frames, live, all, depth + 1, series, now);
    LiveEqualsRepairExactly(rows, frames, batch, depth);
  }

  lemma CandidateOfNow(rows: Rows, frames: seq<Frame>, batch: seq<Bar>, b: Key, series: Series, now: int)
    requires WellKeyed(rows) && NewestOf(rows, batch, series, now) && AllTimely(FinalKeys(batch))
    requires b in Candidates(false, frames, batch)
    ensures BucketOfNow(b, series, now) && Timely(b) && Aligned(b.start, b.frame)
    ensures b !in Candidates(true, frames, batch) ==> !Ready(rows, b)
  {
    hide Ready, FloorStart, EndMS, Closes, Candidates, Timely, Aligned, RollupSource, Enabled;
    CandidatesAreRolled(false, frames, batch, b);
    CandidatesAreRolled(true, frames, batch, b);
    var bar :| bar in batch && bar.isFinal && Rolls(false, frames, bar, b);
    assert KeyOf(bar) in FinalKeys(batch);
    FedOfNow(frames, KeyOf(bar), b, series, now);
    FedBucketAligned(frames, KeyOf(bar), b);
    ConfiguredAligned(frames, b);
    if b !in Candidates(true, frames, batch) {
      UnclosedNotReady(rows, series, now, KeyOf(bar), b);
    }
  }

  // ----- a late final -----

  /** A final candle that comes after the one that closed its bucket starts nothing in live mode:
      if it changes the rollup of a complete bucket, the bucket is left with the old one. */
  lemma LateFinalIsSkipped(rows: Rows, frames: seq<Frame>, bar: Bar, depth: nat, bucket: Key)
    requires bar.isFinal && Depth(bar.frame) == depth
    requires Feeds(frames, KeyOf(bar), bucket) && !Closes(bar.end, bucket)
    requires Ready(rows, bucket) && !Holds(rows, bucket, RollupOf(rows, bucket))
    ensures FinalKeys([bar]) == {KeyOf(bar)}
    ensures RolledUp(true, rows, frames, [bar], depth) != CascadeRows(rows, frames, FinalKeys([bar]), depth)
  {
    hide FloorStart, Ready, RollupOf, Closes, RolledUp, CascadeRows, Candidates, RollupSource, Enabled;
    assert FinalKeys([bar]) == {KeyOf(bar)};
    DepthStep(bar.frame);
    CandidatesAreRolled(false, frames, [bar], bucket);
    CandidatesAreRolled(true, frames, [bar], bucket);
    assert bar in [bar] && Rolls(false, frames, bar, bucket);
    LiveEqualsRepairExactly(rows, frames, [bar], depth);
    assert bucket in ReadyOf(rows, Candidates(false, frames, [bar])) && bucket !in Candidates(true, frames, [bar]);
  }

  const LATE_SERIES: Series := Series("okx", "BTC-USDT")

  function DayCandle(day: int, volume: real): Bar {
    Bar(LATE_SERIES, D1, day * DAY_MS, (day + 1) * DAY_MS - 1, 1.0, 1.0, 1.0, 1.0, volume, 0.0, 0.0, 1, 0, true)
  }

  /** Two days and the two-day candle they were rolled up to, before the first day was corrected. */
  function LateStore(): Rows {
    map[Key(LATE_SERIES, D1, 4 * DAY_MS) := DayCandle(4, 2.0), Key(LATE_SERIES, D1, 5 * DAY_MS) := DayCandle(5, 1.0),
        Key(LATE_SERIES, D2, 4 * DAY_MS) := DayCandle(4, 2.0).(frame := D2, end := 6 * DAY_MS - 1)]
  }

  const LATE_BUCKET: Key := Key(LATE_SERIES, D2, 4 * DAY_MS)

  lemma TwoSources(bars: seq<Bar>, a: Bar, b: Bar)
    requires a.start < b.start && a in bars && b in bars && forall x :: x in bars ==> x == a || x == b
    requires forall i, j :: 0 <= i < j < |bars| ==> bars[i].start < bars[j].start
    ensures bars == [a, b]
  {
    var i :| 0 <= i < |bars| && bars[i] == a;
    var j :| 0 <= j < |bars| && bars[j] == b;
    forall k | 0 <= k < |bars| ensures bars[k] == a || bars[k] == b { assert bars[k] in bars; }
    assert i < j && bars[i + 1] == b;
    assert bars[0] == a && bars[|bars| - 1] == b;
  }

  lemma RangeOfTwo(rows: Rows, series: Series, frame: Frame, lo: int, mid: int, hi: int)
    requires WellKeyed(rows) && lo < mid <= hi
    requires HasFinal(rows, Key(series, frame, lo)) && HasFinal(rows, Key(series, frame, mid))
    requires forall t :: lo <= t <= hi ==> (HasFinal(rows, Key(series, frame, t)) <==> t == lo || t == mid)
    ensures RangeBars(rows, series, frame, lo, hi) == [rows[Key(series, frame, lo)], rows[Key(series, frame, mid)]]
  {
    hide RangeBars;
    RangeContents(rows, series, frame, lo, hi);
    var bars := RangeBars(rows, series, frame, lo, hi);
    var a, b := rows[Key(series, frame, lo)], rows[Key(series, frame, mid)];
    assert a in bars && b in bars;
    forall x | x in bars ensures x == a || x == b {
      assert RowOfRange(rows, series, frame, lo, hi, x) && HasFinal(rows, Key(series, frame, x.start));
    }
    TwoSources(bars, a, b);
  }

  lemma LateTimes()
    ensures EndMS(4 * DAY_MS, D2) == 6 * DAY_MS - 1 && FloorStart(4 * DAY_MS, D2) == 4 * DAY_MS
    ensures NextStart(4 * DAY_MS, D1) == 5 * DAY_MS && NextStart(5 * DAY_MS, D1) == 6 * DAY_MS
  {
  }

  lemma LateSources()
    ensures WellKeyed(LateStore()) && SourceBars(LateStore(), LATE_BUCKET) == [DayCandle(4, 2.0), DayCandle(5, 1.0)]
  {
    hide RangeBars, EndMS, FloorStart, NextStart;
    LateTimes();
    RangeOfTwo(LateStore(), LATE_SERIES, D1, 4 * DAY_MS, 5 * DAY_MS, 6 * DAY_MS - 1);
  }

  lemma LateReady()
    ensures Ready(LateStore(), LATE_BUCKET) && RollupOf(LateStore(), LATE_BUCKET).volume == 3.0
  {
    hide SourceBars, EndMS, FloorStart, NextStart;
    LateTimes();
    LateSources();
    assert [DayCandle(4, 2.0), DayCandle(5, 1.0)][1..] == [DayCandle(5, 1.0)];
  }

  /** The corrected first day arrives live: the two-day candle keeps the old total. */
  lemma LateFinalExample()
    ensures AtDepth(FinalKeys([DayCandle(4, 2.0)]), 4)
    ensures RolledUp(true, LateStore(), [D2], [DayCandle(4, 2.0)], 4)
         != CascadeRows(LateStore(), [D2], FinalKeys([DayCandle(4, 2.0)]), 4)
  {
    hide RolledUp, CascadeRows, Candidates, Ready, RollupOf, EndMS, FloorStart;
    var bar := DayCandle(4, 2.0);
    assert FinalKeys([bar]) == {KeyOf(bar)};
    LateTimes();
    LateReady();
    LateFinalIsSkipped(LateStore(), [D2], bar, 4, LATE_BUCKET);
  }
}
