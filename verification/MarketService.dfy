/** The market service: storing final candles and rolling them up through the configured timeframes. */
module MarketService {
  import opened Timeframe
  import opened Rollup
  import opened Aggregator
  import opened Storage
  import opened Cascade
  import opened LiveCascade

  lemma FinalKeysSplit(bars: seq<Bar>)
    requires bars != []
    ensures FinalKeys(bars) == FinalKeys(bars[1..]) + if bars[0].isFinal then {KeyOf(bars[0])} else {}
  {
    assert bars == [bars[0]] + bars[1..];
    forall k | k in FinalKeys(bars) ensures k in FinalKeys(bars[1..]) || (bars[0].isFinal && k == KeyOf(bars[0])) {
      var b :| b in bars && b.isFinal && KeyOf(b) == k;
      assert b == bars[0] || b in bars[1..];
    }
  }

  /** What rolling up one more row adds to the buckets rebuilt so far. */
  ghost predicate Extends(live: bool, rows: Rows, frames: seq<Frame>, bar: Bar, before: set<Key>, after: set<Key>) {
    forall b :: b in after <==> b in before || (Rolls(live, frames, bar, b) && Ready(rows, b))
  }

  lemma ExtendsByFrame(live: bool, rows: Rows, frames: seq<Frame>, j: nat, bar: Bar, before: set<Key>, mid: set<Key>, after: set<Key>)
    requires j < |frames|
    requires Extends(live, rows, frames[..j], bar, before, mid)
    requires forall b :: b in after <==> b in mid || (b == BucketOf(KeyOf(bar), frames[j]) && Rolls(live, frames, bar, b) && Ready(rows, b))
    ensures Extends(live, rows, frames[..j + 1], bar, before, after)
  {
    hide Ready, FloorStart, RollupSource, Enabled, Closes;
    assert frames[..j + 1] == frames[..j] + [frames[j]];
    forall b ensures Rolls(live, frames[..j + 1], bar, b) <==>
                       Rolls(live, frames[..j], bar, b) || (b == BucketOf(KeyOf(bar), frames[j]) && Rolls(live, frames, bar, b))
    {
    }
  }

  /** Taking the first candle off the queue leaves the candidates of the others. */
  lemma CandidatesSplit(live: bool, rows: Rows, frames: seq<Frame>, pending: seq<Bar>, before: set<Key>, after: set<Key>)
    requires pending != []
    requires if pending[0].isFinal then Extends(live, rows, frames, pending[0], before, after) else after == before
    ensures after + ReadyOf(rows, Candidates(live, frames, pending[1..])) == before + ReadyOf(rows, Candidates(live, frames, pending))
  {
    hide Ready, Rolls, Candidates;
    assert pending == [pending[0]] + pending[1..];
    forall b ensures b in after + ReadyOf(rows, Candidates(live, frames, pending[1..]))
                 <==> b in before + ReadyOf(rows, Candidates(live, frames, pending))
    {
      CandidatesAreRolled(live, frames, pending[1..], b);
      CandidatesAreRolled(live, frames, pending, b);
    }
  }

  /** The rows of one level while its buckets are rebuilt one by one: `done` so far. */
  ghost predicate Building(base: Rows, depth: nat, done: set<Key>, produced: seq<Bar>, processed: set<Key>, rows: Rows) {
    && WellKeyed(base) && WellKeyed(rows)
    && AtDepth(done, depth + 1) && AllTimely(done)
    && (forall b :: b in done ==> Ready(base, b))
    && rows == base + Built(base, done)
    && FinalKeys(produced) == done && (forall b :: b in produced ==> b.isFinal && b.end == EndMS(b.start, b.frame))
    && done <= processed && (forall p :: p in processed ==> Depth(p.frame) <= depth + 1)
    && (forall p :: p in processed && Depth(p.frame) == depth + 1 ==> p in done)
  }

  /** The state of the queue inside one level, which is to rebuild the ready ones of `buckets`:
      `done` is rebuilt, `pending` is still to be rolled up. */
  ghost predicate InLevel(live: bool, base: Rows, frames: seq<Frame>, buckets: set<Key>, depth: nat, done: set<Key>,
                          pending: seq<Bar>, produced: seq<Bar>, processed: set<Key>, rows: Rows) {
    && Building(base, depth, done, produced, processed, rows)
    && AtDepth(buckets, depth + 1)
    && done + ReadyOf(base, Candidates(live, frames, pending)) == ReadyOf(base, buckets)
    && AtDepth(FinalKeys(pending), depth) && AllTimely(FinalKeys(pending))
  }

  /** The candles produced on a level lead to the buckets above those it rebuilt. */
  lemma ProducedCandidates(live: bool, frames: seq<Frame>, produced: seq<Bar>, done: set<Key>)
    requires FinalKeys(produced) == done && forall b :: b in produced ==> b.isFinal && b.end == EndMS(b.start, b.frame)
    ensures Candidates(live, frames, produced) == Above(live, frames, done)
  {
    hide Feeds, Closes, EndMS, Candidates, Above;
    forall b ensures b in Candidates(live, frames, produced) <==> b in Above(live, frames, done) {
      CandidatesAreRolled(live, frames, produced, b);
      AboveAreFed(live, frames, done, b);
      if b in Candidates(live, frames, produced) {
        var bar :| bar in produced && bar.isFinal && Rolls(live, frames, bar, b);
        assert KeyOf(bar) in done && FedBy(live, frames, KeyOf(bar), b);
      }
      if b in Above(live, frames, done) {
        var k :| k in done && FedBy(live, frames, k, b);
        var bar :| bar in produced && bar.isFinal && KeyOf(bar) == k;
        assert Rolls(live, frames, bar, b);
      }
    }
  }

  lemma LevelDone(live: bool, base: Rows, frames: seq<Frame>, buckets: set<Key>, depth: nat, done: set<Key>,
                  produced: seq<Bar>, processed: set<Key>, rows: Rows)
    requires InLevel(live, base, frames, buckets, depth, done, [], produced, processed, rows)
    ensures AtDepth(Above(live, frames, done), depth + 2)
    ensures produced == [] ==> QueueRows(live, base, frames, buckets, depth + 1) == rows
    ensures produced != [] ==>
      && InLevel(live, rows, frames, Above(live, frames, done), depth + 1, {}, produced, [], processed, rows)
      && QueueRows(live, base, frames, buckets, depth + 1) == QueueRows(live, rows, frames, Above(live, frames, done), depth + 2)
      && depth < 5
  {
    hide Ready, Above, Timely, Built, Candidates, QueueRows, EndMS;
    NothingPending(live, frames);
    assert ReadyOf(base, {}) == {};
    assert done == ReadyOf(base, buckets);
    AboveDepth(live, frames, done, depth + 1);
    if produced != [] {
      assert KeyOf(produced[0]) in done;
      QueueStep(live, base, frames, buckets, depth + 1);
      ProducedCandidates(live, frames, produced, done);
      NextLevel(base, depth, done, produced, processed, rows);
      assert {} + ReadyOf(rows, Candidates(live, frames, produced)) == ReadyOf(rows, Above(live, frames, done));
    } else {
      assert done == {};
      NothingReady(live, base, frames, buckets, depth + 1);
      BuiltNone(base);
      assert rows == base;
    }
  }

  lemma NothingPending(live: bool, frames: seq<Frame>)
    ensures Candidates(live, frames, []) == {} && FinalKeys([]) == {}
  {
  }

  lemma NothingReady(live: bool, rows: Rows, frames: seq<Frame>, buckets: set<Key>, depth: nat)
    requires AtDepth(buckets, depth) && ReadyOf(rows, buckets) == {}
    ensures QueueRows(live, rows, frames, buckets, depth) == rows
  {
  }

  lemma NextLevel(base: Rows, depth: nat, done: set<Key>, produced: seq<Bar>, processed: set<Key>, rows: Rows)
    requires Building(base, depth, done, produced, processed, rows)
    ensures Building(rows, depth + 1, {}, [], processed, rows)
    ensures AtDepth(FinalKeys(produced), depth + 1) && AllTimely(FinalKeys(produced))
  {
    hide Ready, Timely, Built;
    BuiltNone(rows);
    assert rows + Built(rows, {}) == rows;
    assert FinalKeys([]) == {};
  }

  lemma BuiltNone(rows: Rows)
    ensures Built(rows, {}) == map[]
  {
  }

  lemma FirstLevel(live: bool, rows: Rows, frames: seq<Frame>, batch: seq<Bar>, depth: nat)
    requires WellKeyed(rows) && AtDepth(FinalKeys(batch), depth) && AllTimely(FinalKeys(batch))
    ensures InLevel(live, rows, frames, Candidates(live, frames, batch), depth, {}, batch, [], {}, rows)
  {
    hide Ready, Timely, Candidates;
    CandidateDepth(live, frames, batch, depth);
    BuiltNone(rows);
    assert rows + Built(rows, {}) == rows;
    assert FinalKeys([]) == {};
  }

  /** One more bucket of the level. */
  lemma AddBucket(base: Rows, depth: nat, done: set<Key>, produced: seq<Bar>, processed: set<Key>, rows: Rows,
                  bucket: Key, rollup: Bar)
    requires Building(base, depth, done, produced, processed, rows)
    requires Depth(bucket.frame) == depth + 1 && Timely(bucket)
    requires Ready(base, bucket) && rollup == RollupOf(base, bucket) && KeyOf(rollup) == bucket && rollup.isFinal
    requires rollup.end == EndMS(bucket.start, bucket.frame)
    ensures Building(base, depth, done + {bucket}, produced + [rollup], processed + {bucket}, rows[bucket := rollup])
  {
    hide Ready, RollupOf, Timely, FinalKeys, Built, EndMS;
    BuiltAppend(base, done, bucket, rollup);
    FinalKeysAppend(produced, rollup);
  }

  lemma BuiltAppend(base: Rows, done: set<Key>, bucket: Key, rollup: Bar)
    requires forall b :: b in done ==> Ready(base, b)
    requires Ready(base, bucket) && rollup == RollupOf(base, bucket)
    ensures (base + Built(base, done))[bucket := rollup] == base + Built(base, done + {bucket})
  {
    hide Ready, RollupOf;
  }

  lemma FinalKeysAppend(bars: seq<Bar>, bar: Bar)
    requires bar.isFinal
    ensures FinalKeys(bars + [bar]) == FinalKeys(bars) + {KeyOf(bar)}
  {
    forall k | k in FinalKeys(bars) ensures k in FinalKeys(bars + [bar]) {
      var b :| b in bars && b.isFinal && KeyOf(b) == k;
      assert b in bars + [bar];
    }
    assert bar in bars + [bar];
  }

  /** A bucket of the level is ready now if and only if it was when the level began. */
  lemma ReadyInLevel(base: Rows, depth: nat, done: set<Key>, produced: seq<Bar>, processed: set<Key>, rows: Rows, bucket: Key)
    requires Building(base, depth, done, produced, processed, rows)
    requires Depth(bucket.frame) == depth + 1 && RollupSource(bucket.frame).Some?
    ensures Ready(rows, bucket) == Ready(base, bucket)
    ensures Ready(base, bucket) ==> RollupOf(rows, bucket) == RollupOf(base, bucket)
  {
    hide Ready, RollupOf, Timely;
    BuiltKeepsSources(base, done, depth + 1, bucket);
  }

  lemma RowDone(live: bool, base: Rows, frames: seq<Frame>, buckets: set<Key>, depth: nat, done0: set<Key>, done: set<Key>,
                pending: seq<Bar>, produced0: seq<Bar>, produced: seq<Bar>,
                processed0: set<Key>, processed: set<Key>, rows0: Rows, rows: Rows)
    requires pending != [] && InLevel(live, base, frames, buckets, depth, done0, pending, produced0, processed0, rows0)
    requires Building(base, depth, done, produced, processed, rows)
    requires if pending[0].isFinal then Extends(live, base, frames, pending[0], done0, done) else done == done0
    ensures InLevel(live, base, frames, buckets, depth, done, pending[1..], produced, processed, rows)
  {
    hide Ready, Timely, Building, ReadyOf, Candidates, Extends;
    FinalKeysSplit(pending);
    CandidatesSplit(live, base, frames, pending, done0, done);
  }

  lemma NothingExtended(live: bool, rows: Rows, frames: seq<Frame>, bar: Bar, done: set<Key>)
    ensures Extends(live, rows, frames[..0], bar, done, done)
  {
    hide Ready, FloorStart;
  }

  class Service {
    const store: MemoryStore
    const frames: seq<Frame>
    /** The newest verification each series has seen. */
    var latestVerification: map<Series, int>

    constructor (store: MemoryStore, frames: seq<Frame>)
      ensures this.store == store && this.frames == frames && latestVerification == map[]
    {
      this.store, this.frames, latestVerification := store, frames, map[];
    }

    method SourceBarsComplete(bars: seq<Bar>, source: Frame, targetStart: int, targetEnd: int) returns (ok: bool)
      ensures ok == Complete(bars, source, targetStart, targetEnd)
    {
      hide NextStart;
      if |bars| == 0 {
        return false;
      }
      var expectedStart := targetStart;
      for i := 0 to |bars|
        invariant i > 0 ==> bars[0].start == targetStart
        invariant forall j :: 0 <= j < i ==> bars[j].isFinal
        invariant forall j :: 0 <= j < i - 1 ==> bars[j + 1].start == NextStart(bars[j].start, source)
        invariant expectedStart == if i == 0 then targetStart else NextStart(bars[i - 1].start, source)
      {
        if !bars[i].isFinal || bars[i].start != expectedStart {
          assert i > 0 && bars[i].isFinal ==> bars[(i - 1) + 1].start != NextStart(bars[i - 1].start, source);
          return false;
        }
        expectedStart := NextStart(bars[i].start, source);
      }
      return expectedStart > targetEnd && bars[|bars| - 1].end >= targetEnd;
    }

    /** Builds one bucket from the stored sources, if they are all there. */
    method RebuildRollupBucket(bucket: Key, source: Frame) returns (rollup: Option<Bar>)
      requires RollupSource(bucket.frame) == Some(source) && Enabled(bucket.frame)
      requires WellKeyed(store.rows) && Aligned(bucket.start, bucket.frame)
      modifies store`rows
      ensures rollup.Some? <==> Ready(old(store.rows), bucket)
      ensures rollup.Some? ==> rollup.value == RollupOf(old(store.rows), bucket) && KeyOf(rollup.value) == bucket
      ensures store.rows == if rollup.Some? then old(store.rows)[bucket := rollup.value] else old(store.rows)
    {
      hide Aligned, EndMS, FloorStart, Complete, RangeBars, SortByStart, RollupSource, Rolled;
      var end := EndMS(bucket.start, bucket.frame);
      var sourceBars := store.BarsInRange(bucket.series, source, bucket.start, end);
      var complete := SourceBarsComplete(sourceBars, source, bucket.start, end);
      if !complete {
        return None;
      }
      assert Ready(store.rows, bucket);
      RangeContents(store.rows, bucket.series, source, bucket.start, end);
      SortKeepsOrdered(sourceBars);
      CompleteNonempty(sourceBars, source, bucket.start, end);
      rollup := RollupBars(bucket.frame, sourceBars, true);
      if rollup.None? {
        return None;
      }
      RollupKey(store.rows, bucket);
      OneUpsert(store.rows, store.verifiedAt, rollup.value);
      SourceIsNotMinute(bucket.frame);
      store.UpsertBars([rollup.value]);
    }

    lemma SourceIsNotMinute(tf: Frame)
      ensures RollupSource(tf).Some? ==> tf != M1
    {
    }

    lemma OneUpsert(rows: Rows, verifiedAt: map<Key, int>, bar: Bar)
      ensures Upserted(rows, verifiedAt, [bar]) == if Protected(verifiedAt, KeyOf(bar)) then rows else rows[KeyOf(bar) := bar]
    {
      assert [bar][..0] == [];
    }
  
    /** One step of the queue: rolls the bucket of `tf` that holds `bar`, unless it was done. */
    method RollInto(bar: Bar, tf: Frame, repairRollups: bool, processed: set<Key>,
                    ghost base: Rows, ghost depth: nat, ghost done: set<Key>, ghost produced: seq<Bar>)
      returns (rollup: Option<Bar>)
      requires Building(base, depth, done, produced, processed, store.rows)
      requires Depth(bar.frame) == depth && Timely(KeyOf(bar)) && tf in frames
      modifies store`rows
      ensures rollup.None? ==> store.rows == old(store.rows)
      ensures rollup.None? ==>
                var bucket := BucketOf(KeyOf(bar), tf);
                Rolls(!repairRollups, frames, bar, bucket) && Ready(base, bucket) ==> bucket in done
      ensures rollup.Some? ==>
                var bucket := BucketOf(KeyOf(bar), tf);
                && Rolls(!repairRollups, frames, bar, bucket) && Ready(base, bucket) && KeyOf(rollup.value) == bucket
                && Building(base, depth, done + {bucket}, produced + [rollup.value], processed + {bucket}, store.rows)
    {
      hide Ready, FloorStart, EndMS, Timely, RollupOf, RollupSource, Built, FinalKeys, AtDepth, AllTimely;
      if !Enabled(tf) {
        return None;
      }
      SourceIsNotMinute(tf);
      if tf == M1 {
        return None;
      }
      if RollupSource(tf) != Some(bar.frame) {
        return None;
      }
      var targetStart := FloorStart(bar.start, tf);
      var targetEnd := EndMS(targetStart, tf);
      var bucket := Key(bar.series, tf, targetStart);
      if !repairRollups && bar.end < targetEnd {
        return None;
      }
      FedBucketAligned(frames, KeyOf(bar), bucket);
      ConfiguredAligned(frames, bucket);
      DepthStep(tf);
      ReadyInLevel(base, depth, done, produced, processed, store.rows, bucket);
      if bucket in processed {
        return None;
      }
      rollup := RebuildRollupBucket(bucket, bar.frame);
      if rollup.Some? {
        RollupKey(old(store.rows), bucket);
        AddBucket(base, depth, done, produced, processed, old(store.rows), bucket, rollup.value);
      }
    }

    /** Rolls stored candles up, first in first out, building each bucket at most once.  In live
        mode a bucket waits for a candle that closes it. */
    method RollupFinalBars(batch: seq<Bar>, repairRollups: bool, ghost depth0: nat)
      requires WellKeyed(store.rows) && depth0 <= 5
      requires AtDepth(FinalKeys(batch), depth0) && AllTimely(FinalKeys(batch))
      modifies store`rows
      ensures store.rows == RolledUp(!repairRollups, old(store.rows), frames, batch, depth0)
      ensures repairRollups ==> store.rows == CascadeRows(old(store.rows), frames, FinalKeys(batch), depth0)
    {
      hide Ready, Rolls, FloorStart, EndMS, Timely, Built, ReadyOf, Candidates, CascadeRows, QueueRows, Building, Extends, Above;
      var queue := batch;
      var processed: set<Key> := {};
      ghost var live := !repairRollups;
      ghost var goal := RolledUp(live, store.rows, frames, batch, depth0);
      ghost var base, buckets, done, depth := store.rows, Candidates(live, frames, batch), {}, depth0;
      ghost var pending: seq<Bar>, produced: seq<Bar> := batch, [];
      FirstLevel(live, base, frames, batch, depth0);
      if repairRollups { RepairIsCascade(base, frames, batch, depth0); }
      while |queue| > 0
        invariant queue == pending + produced
        invariant InLevel(live, base, frames, buckets, depth, done, pending, produced, processed, store.rows)
        invariant depth <= 5
        invariant QueueRows(live, base, frames, buckets, depth + 1) == goal
        decreases 6 - depth, |pending|
      {
        if pending == [] {
          LevelDone(live, base, frames, buckets, depth, done, produced, processed, store.rows);
          base, buckets, done, depth := store.rows, Above(live, frames, done), {}, depth + 1;
          pending, produced := produced, [];
        }
        var bar := queue[0];
        queue := queue[1..];
        ghost var done0, produced0, processed0, rows0 := done, produced, processed, store.rows;
        if bar.isFinal {
          assert KeyOf(bar) in FinalKeys(pending);
          NothingExtended(live, base, frames, bar, done);
          for j := 0 to |frames|
            invariant queue == pending[1..] + produced
            invariant Building(base, depth, done, produced, processed, store.rows)
            invariant Extends(live, base, frames[..j], bar, done0, done)
          {
            ghost var bucket, mid := BucketOf(KeyOf(bar), frames[j]), done;
            var rollup := RollInto(bar, frames[j], repairRollups, processed, base, depth, done, produced);
            if rollup.Some? {
              processed := processed + {KeyOf(rollup.value)};
              queue := queue + [rollup.value];
              produced := produced + [rollup.value];
              done := done + {bucket};
            }
            ExtendsByFrame(live, base, frames, j, bar, done0, mid, done);
          }
          assert frames[..|frames|] == frames;
        }
        RowDone(live, base, frames, buckets, depth, done0, done, pending, produced0, produced,
                processed0, processed, rows0, store.rows);
        pending := pending[1..];
      }
      LevelDone(live, base, frames, buckets, depth, done, produced, processed, store.rows);
    }

    /** Stores a batch of final candles and rolls them up; refuses a batch with a disabled timeframe. */
    method PersistFinalBars(batch: seq<Bar>, repairRollups: bool, ghost depth0: nat) returns (ok: bool)
      requires WellKeyed(store.rows) && depth0 <= 5
      requires AtDepth(FinalKeys(batch), depth0) && AllTimely(FinalKeys(batch))
      modifies store`rows
      ensures ok <==> forall b :: b in batch ==> Enabled(b.frame)
      ensures !ok ==> store.rows == old(store.rows)
      ensures ok ==> store.rows == RolledUp(!repairRollups, Upserted(old(store.rows), store.verifiedAt, batch), frames, batch, depth0)
      ensures ok && repairRollups ==>
                store.rows == CascadeRows(Upserted(old(store.rows), store.verifiedAt, batch), frames, FinalKeys(batch), depth0)
    {
      hide Timely, FloorStart, Ready, Upserted, AtDepth, CascadeRows, RolledUp;
      for i := 0 to |batch|
        invariant forall j :: 0 <= j < i ==> Enabled(batch[j].frame)
      {
        if !Enabled(batch[i].frame) {
          return false;
        }
      }
      UpsertedKeeps(store.rows, store.verifiedAt, batch);
      store.UpsertBars(batch);
      RollupFinalBars(batch, repairRollups, depth0);
      ok := true;
    }
  }

  /** Storing a batch can only upset the buckets it feeds and the buckets it overwrites. */
  lemma UpsertUpsetsDependents(rows: Rows, verifiedAt: map<Key, int>, frames: seq<Frame>, batch: seq<Bar>)
    requires WellKeyed(rows) && Consistent(rows, frames)
    requires forall b :: b in batch ==> b.isFinal
    requires AllTimely(FinalKeys(batch))
    ensures ConsistentOutside(Upserted(rows, verifiedAt, batch), frames,
                              Dependents(frames, FinalKeys(batch)) + FinalKeys(batch))
  {
    hide Ready, RollupOf, Feeds, Dependents, Configured, Timely, EndMS, Upserted;
    var rows', changed := Upserted(rows, verifiedAt, batch), FinalKeys(batch);
    UpsertedKeeps(rows, verifiedAt, batch);
    forall k | k !in changed ensures SameFinal(rows, rows', k) {
      assert forall b :: b in batch ==> KeyOf(b) in changed;
    }
    forall b | Configured(frames, b) && b !in Dependents(frames, changed) + changed
      ensures ConsistentAt(rows', b)
    {
      ConfiguredAligned(frames, b);
      forall t | b.start <= t <= EndMS(b.start, b.frame)
        ensures SameFinal(rows, rows', Key(b.series, RollupSource(b.frame).value, t))
      {
        var k := Key(b.series, RollupSource(b.frame).value, t);
        if k in changed {
          InsideFeeds(frames, k, b);
          DependentsAreFed(frames, changed, b);
          assert false;
        }
      }
      SameSources(rows, rows', b);
      assert SameFinal(rows, rows', b);
    }
  }

  /** Storing final candles and cascading keeps a consistent store consistent, save for the
      buckets the batch itself overwrote. Minutes overwrite no bucket. */
  lemma PersistKeepsConsistent(rows: Rows, verifiedAt: map<Key, int>, frames: seq<Frame>, batch: seq<Bar>, depth: nat)
    requires WellKeyed(rows) && Consistent(rows, frames)
    requires forall b :: b in batch ==> b.isFinal
    requires AtDepth(FinalKeys(batch), depth) && AllTimely(FinalKeys(batch))
    ensures var after := CascadeRows(Upserted(rows, verifiedAt, batch), frames, FinalKeys(batch), depth);
            && WellKeyed(after) && ConsistentOutside(after, frames, FinalKeys(batch))
            && (depth == 0 ==> Consistent(after, frames))
  {
    hide Ready, RollupOf, Dependents, Timely, Upserted, Aligned, ConsistentAt;
    UpsertedKeeps(rows, verifiedAt, batch);
    UpsertUpsetsDependents(rows, verifiedAt, frames, batch);
    CascadeRestores(Upserted(rows, verifiedAt, batch), frames, FinalKeys(batch), depth, FinalKeys(batch));
    forall b | Configured(frames, b) && depth == 0 ensures b !in FinalKeys(batch) {
      DepthStep(b.frame);
    }
  }
}
