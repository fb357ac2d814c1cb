/** Candle rows of the in-memory history store, and the verification marks of its minutes. */
module Storage {
  import opened Timeframe
  import opened Rollup
  import opened Collections

  datatype Key = Key(series: Series, frame: Frame, start: int)

  type Rows = map<Key, Bar>

  function KeyOf(bar: Bar): Key { Key(bar.series, bar.frame, bar.start) }

  ghost predicate WellKeyed(rows: Rows) {
    forall k :: k in rows ==> KeyOf(rows[k]) == k
  }

  predicate HasFinal(rows: Rows, key: Key) { key in rows && rows[key].isFinal }

  predicate SameFinal(rows: Rows, rows': Rows, key: Key) {
    HasFinal(rows, key) == HasFinal(rows', key) && (HasFinal(rows, key) ==> rows[key] == rows'[key])
  }

  /** The final rows of one series and timeframe that start in lo..hi, in order. */
  function RangeBars(rows: Rows, series: Series, frame: Frame, lo: int, hi: int): (bars: seq<Bar>)
    ensures |bars| <= if lo <= hi then hi - lo + 1 else 0
    decreases hi - lo
  {
    if hi < lo then []
    else
      var key := Key(series, frame, lo);
      (if HasFinal(rows, key) then [rows[key]] else []) + RangeBars(rows, series, frame, lo + 1, hi)
  }

  lemma {:induction false} RangeSplit(rows: Rows, series: Series, frame: Frame, lo: int, mid: int, hi: int)
    requires lo <= mid <= hi + 1
    ensures RangeBars(rows, series, frame, lo, hi)
         == RangeBars(rows, series, frame, lo, mid - 1) + RangeBars(rows, series, frame, mid, hi)
    decreases mid - lo
  {
    if lo < mid {
      RangeSplit(rows, series, frame, lo + 1, mid, hi);
    }
  }

  lemma {:induction false} RangeAgrees(rows: Rows, rows': Rows, series: Series, frame: Frame, lo: int, hi: int)
    requires forall t :: lo <= t <= hi ==> SameFinal(rows, rows', Key(series, frame, t))
    ensures RangeBars(rows, series, frame, lo, hi) == RangeBars(rows', series, frame, lo, hi)
    decreases hi - lo
  {
    if lo <= hi {
      assert SameFinal(rows, rows', Key(series, frame, lo));
      RangeAgrees(rows, rows', series, frame, lo + 1, hi);
    }
  }

  lemma {:induction false} RangeSkipsEmpty(rows: Rows, series: Series, frame: Frame, lo: int, hi: int)
    requires forall t :: lo <= t <= hi ==> !HasFinal(rows, Key(series, frame, t))
    ensures RangeBars(rows, series, frame, lo, hi) == []
    decreases hi - lo
  {
    if lo <= hi {
      assert !HasFinal(rows, Key(series, frame, lo));
      RangeSkipsEmpty(rows, series, frame, lo + 1, hi);
    }
  }

  predicate RowOfRange(rows: Rows, series: Series, frame: Frame, lo: int, hi: int, bar: Bar) {
    && lo <= bar.start <= hi && bar.series == series && bar.frame == frame
    && HasFinal(rows, KeyOf(bar)) && rows[KeyOf(bar)] == bar
  }

  ghost predicate RowsOfRange(rows: Rows, series: Series, frame: Frame, lo: int, hi: int, bars: seq<Bar>) {
    && (forall bar :: bar in bars ==> RowOfRange(rows, series, frame, lo, hi, bar))
    && (forall i, j :: 0 <= i < j < |bars| ==> bars[i].start < bars[j].start)
    && (forall t :: lo <= t <= hi && HasFinal(rows, Key(series, frame, t)) ==> rows[Key(series, frame, t)] in bars)
  }

  /** The rows of a range are final, lie in it, have the range's key and increase strictly. */
  lemma {:induction false} RangeContents(rows: Rows, series: Series, frame: Frame, lo: int, hi: int)
    requires WellKeyed(rows)
    ensures RowsOfRange(rows, series, frame, lo, hi, RangeBars(rows, series, frame, lo, hi))
    decreases hi - lo
  {
    if lo <= hi {
      RangeContents(rows, series, frame, lo + 1, hi);
      var here := Key(series, frame, lo);
      var rest := RangeBars(rows, series, frame, lo + 1, hi);
      if HasFinal(rows, here) {
        assert KeyOf(rows[here]) == here;
        RowInFront(rows, series, frame, lo, hi, rest);
      } else {
        NoRowInFront(rows, series, frame, lo, hi, rest);
      }
    }
  }

  lemma RowInFront(rows: Rows, series: Series, frame: Frame, lo: int, hi: int, rest: seq<Bar>)
    requires RowsOfRange(rows, series, frame, lo + 1, hi, rest) && lo <= hi
    requires HasFinal(rows, Key(series, frame, lo)) && KeyOf(rows[Key(series, frame, lo)]) == Key(series, frame, lo)
    ensures RowsOfRange(rows, series, frame, lo, hi, [rows[Key(series, frame, lo)]] + rest)
  {
    var here := rows[Key(series, frame, lo)];
    var bars := [here] + rest;
    forall bar | bar in bars ensures RowOfRange(rows, series, frame, lo, hi, bar) {
      if bar in rest { assert RowOfRange(rows, series, frame, lo + 1, hi, bar); }
    }
    forall t | lo <= t <= hi && HasFinal(rows, Key(series, frame, t))
      ensures rows[Key(series, frame, t)] in bars
    {
      if t != lo { assert rows[Key(series, frame, t)] in rest; }
    }
    forall i, j | 0 <= i < j < |bars| ensures bars[i].start < bars[j].start {
      assert bars[j] == rest[j - 1];
      assert RowOfRange(rows, series, frame, lo + 1, hi, rest[j - 1]);
      if i > 0 { assert bars[i] == rest[i - 1]; }
    }
  }

  lemma NoRowInFront(rows: Rows, series: Series, frame: Frame, lo: int, hi: int, rest: seq<Bar>)
    requires RowsOfRange(rows, series, frame, lo + 1, hi, rest) && !HasFinal(rows, Key(series, frame, lo))
    ensures RowsOfRange(rows, series, frame, lo, hi, rest)
  {
    forall bar | bar in rest ensures RowOfRange(rows, series, frame, lo, hi, bar) {
      assert RowOfRange(rows, series, frame, lo + 1, hi, bar);
    }
    forall t | lo <= t <= hi && HasFinal(rows, Key(series, frame, t))
      ensures rows[Key(series, frame, t)] in rest
    {
      assert t != lo;
    }
  }

  lemma RangeSingle(rows: Rows, series: Series, frame: Frame, at: int)
    ensures RangeBars(rows, series, frame, at, at)
         == if HasFinal(rows, Key(series, frame, at)) then [rows[Key(series, frame, at)]] else []
  {
    assert RangeBars(rows, series, frame, at + 1, at) == [];
  }

  /** Up to and including the next final row. */
  lemma RangeGoesOn(rows: Rows, series: Series, frame: Frame, lo: int, next: int, start: int)
    requires lo <= next <= start && forall t :: next <= t < start ==> !HasFinal(rows, Key(series, frame, t))
    ensures RangeBars(rows, series, frame, lo, start) == RangeBars(rows, series, frame, lo, next - 1)
              + if HasFinal(rows, Key(series, frame, start)) then [rows[Key(series, frame, start)]] else []
  {
    hide RangeBars;
    RangeSplit(rows, series, frame, lo, next, start);
    RangeSplit(rows, series, frame, next, start, start);
    RangeSkipsEmpty(rows, series, frame, next, start - 1);
    RangeSingle(rows, series, frame, start);
  }

  lemma RangeEnds(rows: Rows, series: Series, frame: Frame, lo: int, next: int, hi: int)
    requires lo <= next && forall t :: next <= t <= hi ==> !HasFinal(rows, Key(series, frame, t))
    requires next <= hi + 1 || next == lo
    ensures RangeBars(rows, series, frame, lo, hi) == RangeBars(rows, series, frame, lo, next - 1)
  {
    hide RangeBars;
    if next <= hi {
      RangeSplit(rows, series, frame, lo, next, hi);
      RangeSkipsEmpty(rows, series, frame, next, hi);
    } else if next > hi + 1 {
      RangeSkipsEmpty(rows, series, frame, lo, hi);
      RangeSkipsEmpty(rows, series, frame, lo, next - 1);
    }
  }

  // ----- writes -----

  /** An ordinary write leaves a verified minute alone. */
  predicate Protected(verifiedAt: map<Key, int>, key: Key) {
    key.frame == M1 && key in verifiedAt && verifiedAt[key] > 0
  }

  function Upserted(rows: Rows, verifiedAt: map<Key, int>, batch: seq<Bar>): Rows {
    if batch == [] then rows
    else
      var bar := batch[|batch| - 1];
      var before := Upserted(rows, verifiedAt, batch[..|batch| - 1]);
      if Protected(verifiedAt, KeyOf(bar)) then before else before[KeyOf(bar) := bar]
  }

  lemma {:induction false} UpsertedKeeps(rows: Rows, verifiedAt: map<Key, int>, batch: seq<Bar>)
    ensures WellKeyed(rows) ==> WellKeyed(Upserted(rows, verifiedAt, batch))
    ensures forall k :: k in rows && (Protected(verifiedAt, k) || forall b :: b in batch ==> KeyOf(b) != k) ==>
              k in Upserted(rows, verifiedAt, batch) && Upserted(rows, verifiedAt, batch)[k] == rows[k]
    ensures forall k :: k in Upserted(rows, verifiedAt, batch) ==>
              k in rows || exists b :: b in batch && KeyOf(b) == k
  {
    if batch != [] {
      var last := |batch| - 1;
      UpsertedKeeps(rows, verifiedAt, batch[..last]);
      forall k | k in Upserted(rows, verifiedAt, batch) && k !in rows
        ensures exists b :: b in batch && KeyOf(b) == k
      {
        if k == KeyOf(batch[last]) {
          assert batch[last] in batch;
        } else {
          var b :| b in batch[..last] && KeyOf(b) == k;
          assert b in batch;
        }
      }
    }
  }

  /** Every key of the batch that is not protected holds the last of its candles. */
  lemma {:induction false} UpsertedLast(rows: Rows, verifiedAt: map<Key, int>, batch: seq<Bar>, i: nat)
    requires i < |batch| && !Protected(verifiedAt, KeyOf(batch[i])) && forall j :: i < j < |batch| ==> KeyOf(batch[j]) != KeyOf(batch[i])
    ensures var key := KeyOf(batch[i]);
            key in Upserted(rows, verifiedAt, batch) && Upserted(rows, verifiedAt, batch)[key] == batch[i]
    decreases |batch|
  {
    hide Protected;
    if i < |batch| - 1 {
      assert batch[..|batch| - 1][i] == batch[i];
      UpsertedLast(rows, verifiedAt, batch[..|batch| - 1], i);
    }
  }

  /** When a minute was last verified; 0 if never. */
  function Generation(verifiedAt: map<Key, int>, key: Key): int {
    if key in verifiedAt then verifiedAt[key] else 0
  }

  /** The revisions of a generation that no newer verification forbids. */
  function Permitted(verifiedAt: map<Key, int>, batch: seq<Bar>, generation: int): seq<Bar> {
    if batch == [] then []
    else
      var bar := batch[|batch| - 1];
      Permitted(verifiedAt, batch[..|batch| - 1], generation)
      + if Generation(verifiedAt, KeyOf(bar)) > generation then [] else [bar]
  }

  lemma {:induction false} PermittedBars(verifiedAt: map<Key, int>, batch: seq<Bar>, generation: int)
    ensures forall b :: b in Permitted(verifiedAt, batch, generation) <==>
              b in batch && Generation(verifiedAt, KeyOf(b)) <= generation
  {
    if batch != [] {
      PermittedBars(verifiedAt, batch[..|batch| - 1], generation);
      assert batch == batch[..|batch| - 1] + [batch[|batch| - 1]];
    }
  }

  /** The rows with a batch written over them, verified or not. */
  function Overwritten(rows: Rows, batch: seq<Bar>): Rows { Upserted(rows, map[], batch) }

  function Marked(verifiedAt: map<Key, int>, batch: seq<Bar>, generation: int): map<Key, int> {
    if batch == [] then verifiedAt
    else
      var key := KeyOf(batch[|batch| - 1]);
      var before := Marked(verifiedAt, batch[..|batch| - 1], generation);
      if generation > Generation(before, key) then before[key := generation] else before
  }

  predicate Matches(rows: Rows, bar: Bar) {
    KeyOf(bar) in rows && SameOfficialValues(rows[KeyOf(bar)], bar)
  }

  function Abs(x: real): real { if x < 0.0 then -x else x }

  predicate Close(x: real, official: real) {
    Abs(x - official) <= Max(0.00000001, Abs(official) * 0.00000001)
  }

  predicate TradeCountAvailable(bar: Bar) { bar.tradeCount > 0 || bar.series.exchange == "binance" }

  /** Equality of a stored minute with an official one, up to the store's float tolerance. */
  predicate SameOfficialValues(local: Bar, official: Bar) {
    && local.isFinal && official.isFinal && local.end == official.end
    && Close(local.open, official.open) && Close(local.high, official.high)
    && Close(local.low, official.low) && Close(local.close, official.close)
    && Close(local.volume, official.volume) && Close(local.quoteVolume, official.quoteVolume)
    && Close(local.contractVolume, official.contractVolume)
    && (TradeCountAvailable(official) ==> local.tradeCount == official.tradeCount)
  }

  lemma SameAsItself(bar: Bar)
    requires bar.isFinal
    ensures SameOfficialValues(bar, bar)
  {
  }

  /** Each price and each volume is compared, to a hundred-millionth of the official one but no finer
      than a hundred-millionth; the end and, where it is reported, the number of trades exactly. */
  lemma EachValueCounts(official: Bar, x: real, n: int)
    requires official.isFinal
    ensures SameOfficialValues(official.(open := x), official) <==> Close(x, official.open)
    ensures SameOfficialValues(official.(high := x), official) <==> Close(x, official.high)
    ensures SameOfficialValues(official.(low := x), official) <==> Close(x, official.low)
    ensures SameOfficialValues(official.(close := x), official) <==> Close(x, official.close)
    ensures SameOfficialValues(official.(volume := x), official) <==> Close(x, official.volume)
    ensures SameOfficialValues(official.(quoteVolume := x), official) <==> Close(x, official.quoteVolume)
    ensures SameOfficialValues(official.(contractVolume := x), official) <==> Close(x, official.contractVolume)
    ensures SameOfficialValues(official.(tradeCount := n), official) <==>
              n == official.tradeCount || (official.tradeCount <= 0 && official.series.exchange != "binance")
    ensures SameOfficialValues(official.(end := n), official) <==> n == official.end
    ensures SameOfficialValues(official.(lastTick := n), official)
    ensures !SameOfficialValues(official.(isFinal := false), official) && !SameOfficialValues(official, official.(isFinal := false))
    ensures Close(1.0, 0.0) == false && Close(100_000_000.0, 100_000_001.0) && !Close(100_000_000.0, 100_000_002.0)
  {
  }

  datatype VerifiedMinute = VerifiedMinute(bar: Bar, verifiedAt: int)

  class MemoryStore {
    var rows: Rows
    var verifiedAt: map<Key, int>

    constructor ()
      ensures rows == map[] && verifiedAt == map[]
    {
      rows, verifiedAt := map[], map[];
    }

    method UpsertBars(batch: seq<Bar>)
      modifies this`rows
      ensures rows == Upserted(old(rows), verifiedAt, batch)
    {
      ghost var before := rows;
      for i := 0 to |batch|
        invariant rows == Upserted(before, verifiedAt, batch[..i])
      {
        assert batch[..i + 1][..i] == batch[..i];
        var bar := batch[i];
        if bar.frame == M1 && KeyOf(bar) in verifiedAt && verifiedAt[KeyOf(bar)] > 0 {
          continue;
        }
        rows := rows[KeyOf(bar) := bar];
      }
      assert batch[..|batch|] == batch;
    }

    /** Collects the keys of the range, orders them and keeps the final rows. */
    method BarsInRange(series: Series, frame: Frame, lo: int, hi: int) returns (bars: seq<Bar>)
      ensures bars == RangeBars(rows, series, frame, lo, hi)
    {
      hide RangeBars;
      var starts := set k | k in rows && k.series == series && k.frame == frame && lo <= k.start <= hi :: k.start;
      bars := [];
      ghost var next := lo;
      RangeSkipsEmpty(rows, series, frame, lo, lo - 1);
      while starts != {}
        invariant lo <= next && (next <= hi + 1 || (next == lo && starts == {}))
        invariant forall t :: t in starts <==> next <= t <= hi && Key(series, frame, t) in rows
        invariant bars == RangeBars(rows, series, frame, lo, next - 1)
        decreases starts
      {
        var start := Smallest(starts);
        RangeGoesOn(rows, series, frame, lo, next, start);
        if rows[Key(series, frame, start)].isFinal {
          bars := bars + [rows[Key(series, frame, start)]];
        }
        starts := starts - {start};
        next := start + 1;
      }
      RangeEnds(rows, series, frame, lo, next, hi);
    }

    method DeleteBarsInRange(series: Series, frame: Frame, lo: int, hi: int)
      modifies this
      ensures forall k :: k in rows <==> k in old(rows) && !(k.series == series && k.frame == frame && lo <= k.start <= hi)
      ensures forall k :: k in rows ==> rows[k] == old(rows)[k]
      ensures forall k :: k in verifiedAt <==>
                k in old(verifiedAt) && !(k.series == series && k.frame == frame && lo <= k.start <= hi && k in old(rows))
      ensures forall k :: k in verifiedAt ==> verifiedAt[k] == old(verifiedAt)[k]
    {
      var doomed := set k | k in rows && k.series == series && k.frame == frame && lo <= k.start <= hi;
      rows := rows - doomed;
      verifiedAt := verifiedAt - doomed;
    }

    /** The final minutes of a range with their verification. */
    method LoadMinuteVerifications(series: Series, lo: int, hi: int) returns (found: seq<VerifiedMinute>)
      ensures var bars := RangeBars(rows, series, M1, lo, hi);
              && |found| == |bars|
              && forall i :: 0 <= i < |bars| ==> found[i] == VerifiedMinute(bars[i], Generation(verifiedAt, KeyOf(bars[i])))
    {
      var bars := BarsInRange(series, M1, lo, hi);
      found := [];
      for i := 0 to |bars|
        invariant |found| == i
        invariant forall j :: 0 <= j < i ==> found[j] == VerifiedMinute(bars[j], Generation(verifiedAt, KeyOf(bars[j])))
      {
        var at := 0;
        if KeyOf(bars[i]) in verifiedAt {
          at := verifiedAt[KeyOf(bars[i])];
        }
        found := found + [VerifiedMinute(bars[i], at)];
      }
    }

    /** Overwrites minutes with official ones of a generation, except where verified more recently. */
    method UpsertMinuteRevisions(batch: seq<Bar>, generation: int) returns (accepted: Option<seq<Bar>>)
      modifies this`rows
      ensures accepted.Some? <==> generation > 0 && forall b :: b in batch ==> b.frame == M1 && b.isFinal
      ensures accepted.Some? ==> accepted.value == Permitted(verifiedAt, batch, generation)
      ensures accepted.Some? ==> rows == Overwritten(old(rows), accepted.value)
      ensures accepted.None? ==>
                exists n :: 0 <= n <= |batch| && rows == Overwritten(old(rows), Permitted(verifiedAt, batch[..n], generation))
    {
      ghost var before := rows;
      if generation <= 0 {
        assert batch[..0] == [];
        return None;
      }
      var taken := [];
      for i := 0 to |batch|
        invariant rows == Overwritten(before, taken) && taken == Permitted(verifiedAt, batch[..i], generation)
        invariant forall b :: b in batch[..i] ==> b.frame == M1 && b.isFinal
      {
        assert batch[..i + 1][..i] == batch[..i];
        var bar := batch[i];
        if bar.frame != M1 || !bar.isFinal {
          return None;
        }
        if KeyOf(bar) in verifiedAt && verifiedAt[KeyOf(bar)] > generation {
          continue;
        }
        rows := rows[KeyOf(bar) := bar];
        assert (taken + [bar])[..|taken|] == taken;
        taken := taken + [bar];
      }
      assert batch[..|batch|] == batch;
      accepted := Some(taken);
    }

    /** Marks minutes as verified as long as the stored values are the given ones. */
    method MarkMinutesVerified(batch: seq<Bar>, generation: int) returns (ok: bool)
      modifies this`verifiedAt
      ensures ok <==> generation > 0 && forall b :: b in batch ==> Matches(rows, b)
      ensures ok ==> verifiedAt == Marked(old(verifiedAt), batch, generation)
      ensures !ok && generation <= 0 ==> verifiedAt == old(verifiedAt)
      ensures !ok && generation > 0 ==>
                exists n :: 0 <= n < |batch| && (forall b :: b in batch[..n] ==> Matches(rows, b)) && !Matches(rows, batch[n])
                  && verifiedAt == Marked(old(verifiedAt), batch[..n], generation)
    {
      hide SameOfficialValues;
      if generation <= 0 {
        return false;
      }
      ghost var before := verifiedAt;
      for i := 0 to |batch|
        invariant verifiedAt == Marked(before, batch[..i], generation)
        invariant forall b :: b in batch[..i] ==> Matches(rows, b)
      {
        assert batch[..i + 1][..i] == batch[..i];
        var key := KeyOf(batch[i]);
        if key !in rows || !SameOfficialValues(rows[key], batch[i]) {
          assert !Matches(rows, batch[i]) && batch[i] in batch;
          return false;
        }
        if generation > (if key in verifiedAt then verifiedAt[key] else 0) {
          verifiedAt := verifiedAt[key := generation];
        }
      }
      assert batch[..|batch|] == batch;
      ok := true;
    }
  }
}
