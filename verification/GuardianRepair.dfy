/** The guardian's repair of one range against the exchange's official candles. */
module GuardianRepair {
  import opened Timeframe
  import opened Rollup
  import opened Storage
  import opened Collections
  import GapTargets

  datatype Request = Request(series: Series, frame: Frame, start: int, end: int,
                             expectData: bool, expectedStart: int, forceReplay: bool)

  predicate ValidOHLC(bar: Bar) {
    && bar.open > 0.0 && bar.high > 0.0 && bar.low > 0.0 && bar.close > 0.0
    && bar.high >= bar.open && bar.high >= bar.close && bar.low <= bar.open && bar.low <= bar.close && bar.high >= bar.low
  }

  predicate InRange(bar: Bar, request: Request) { request.start <= bar.start <= request.end }

  /** A closed candle of the requested series and grid. */
  predicate Acceptable(bar: Bar, request: Request, now: int) {
    && InRange(bar, request) && bar.series == request.series && bar.frame == request.frame && bar.isFinal
    && bar.start > 0 && Aligned(bar.start, request.frame) && bar.end == EndMS(bar.start, request.frame)
    && bar.end < now && ValidOHLC(bar)
  }

  predicate Rejectable(bar: Bar, request: Request, now: int) { InRange(bar, request) && !Acceptable(bar, request, now) }

  predicate HasStart(bars: seq<Bar>, t: int) { exists bar :: bar in bars && bar.start == t }

  ghost predicate StartsIncrease(bars: seq<Bar>) { forall i, j :: 0 <= i < j < |bars| ==> bars[i].start < bars[j].start }

  /** What is left of a response: one acceptable candle for every start that has one, in order. */
  ghost predicate Filtered(bars: seq<Bar>, request: Request, now: int, accepted: seq<Bar>) {
    && StartsIncrease(accepted)
    && (forall bar :: bar in accepted ==> bar in bars && Acceptable(bar, request, now))
    && (forall bar :: bar in bars && Acceptable(bar, request, now) ==> HasStart(accepted, bar.start))
  }

  method FilterOfficialBars(bars: seq<Bar>, request: Request, now: int) returns (accepted: seq<Bar>, rejected: nat)
    ensures Filtered(bars, request, now, accepted)
    ensures rejected == 0 <==> forall bar :: bar in bars ==> !Rejectable(bar, request, now)
    ensures |accepted| <= |bars|
  {
    hide Acceptable, InRange;
    var byStart: map<int, Bar> := map[];
    rejected := 0;
    for i := 0 to |bars|
      invariant forall t :: t in byStart ==> byStart[t].start == t && byStart[t] in bars && Acceptable(byStart[t], request, now)
      invariant forall j :: 0 <= j < i && Acceptable(bars[j], request, now) ==> bars[j].start in byStart
      invariant rejected == 0 <==> forall j :: 0 <= j < i ==> !Rejectable(bars[j], request, now)
      invariant |byStart| <= i
    {
      var bar := bars[i];
      if !InRange(bar, request) {
        OutOfRange(bar, request, now);
        continue;
      }
      if !Acceptable(bar, request, now) {
        rejected := rejected + 1;
        continue;
      }
      byStart := byStart[bar.start := bar];
    }
    accepted := SortedValues(byStart);
    forall bar | bar in bars && Acceptable(bar, request, now) ensures HasStart(accepted, bar.start) {
      var j :| 0 <= j < |bars| && bars[j] == bar;
      assert byStart[bar.start] in accepted;
    }
  }

  method SortedValues(byStart: map<int, Bar>) returns (values: seq<Bar>)
    requires forall t :: t in byStart ==> byStart[t].start == t
    ensures StartsIncrease(values) && |values| == |byStart|
    ensures forall bar :: bar in values <==> bar.start in byStart && byStart[bar.start] == bar
  {
    values := [];
    var rest := byStart.Keys;
    while rest != {}
      invariant rest <= byStart.Keys && |values| + |rest| == |byStart.Keys|
      invariant StartsIncrease(values)
      invariant forall bar :: bar in values <==> bar.start in byStart && byStart[bar.start] == bar && bar.start !in rest
      invariant forall bar, t :: bar in values && t in rest ==> bar.start < t
      decreases rest
    {
      var start := Smallest(rest);
      assert forall i :: 0 <= i < |values| ==> values[i] in values;
      values := values + [byStart[start]];
      rest := rest - {start};
    }
    assert |byStart| == |byStart.Keys|;
  }

  lemma OutOfRange(bar: Bar, request: Request, now: int)
    requires !InRange(bar, request)
    ensures !Acceptable(bar, request, now) && !Rejectable(bar, request, now)
  {
  }

  // ----- days without trades -----

  predicate ZeroActivity(bar: Bar) {
    bar.tradeCount == 0 && bar.volume == 0.0 && bar.quoteVolume == 0.0 && bar.contractVolume == 0.0
  }

  const MAX_DAY_CHECKS: nat := 7

  function HourRequest(request: Request, day: int): Request {
    Request(request.series, H1, day, EndMS(day, D1) - HOUR_MS + 1, false, 0, false)
  }

  /** The official hours of a day: 24 candles in all, one for every hour, none with any trade. */
  ghost predicate EmptyDay(hours: seq<Bar>, request: Request, day: int, now: int) {
    && |hours| == 24
    && forall h :: 0 <= h < 24 ==> HourIsEmpty(hours, request, day, h, now)
  }

  ghost predicate HourIsEmpty(hours: seq<Bar>, request: Request, day: int, h: int, now: int) {
    exists bar :: bar in hours && EmptyHour(bar, request, day, h, now)
  }

  predicate EmptyHour(bar: Bar, request: Request, day: int, h: int, now: int) {
    bar.start == day + h * HOUR_MS && Acceptable(bar, HourRequest(request, day), now) && ZeroActivity(bar)
  }

  predicate Contradicts(bar: Bar) { !ZeroActivity(bar) || !ValidOHLC(bar) }

  /** Nothing stored speaks against the day having been empty. */
  ghost predicate NoLocalTrades(rows: Rows, request: Request, local: seq<Bar>, day: int) {
    && (forall bar :: bar in local && bar.start == day ==> !Contradicts(bar))
    && (forall bar :: bar in RangeBars(rows, request.series, H1, day, EndMS(day, D1)) ==> !Contradicts(bar))
  }

  ghost predicate ProvenEmpty(rows: Rows, hourly: map<int, seq<Bar>>, request: Request, local: seq<Bar>, day: int, now: int) {
    && day in hourly && EmptyDay(hourly[day], request, day, now) && NoLocalTrades(rows, request, local, day)
  }

  /** Whether a stored candle (of one start, if given) speaks against an empty day. */
  method AnyContradicts(bars: seq<Bar>, start: Option<int>) returns (found: bool)
    ensures found <==> exists bar :: bar in bars && (start.Some? ==> bar.start == start.value) && Contradicts(bar)
  {
    for i := 0 to |bars|
      invariant forall j :: 0 <= j < i && (start.Some? ==> bars[j].start == start.value) ==> !Contradicts(bars[j])
    {
      if (start.None? || bars[i].start == start.value) && Contradicts(bars[i]) {
        return true;
      }
    }
    return false;
  }

  /** Whether 24 accepted hours are the hours of the day, all without trades. */
  method CompleteZeroDay(valid: seq<Bar>, day: int) returns (complete: bool)
    requires |valid| == 24
    ensures complete <==> forall h :: 0 <= h < 24 ==> valid[h].start == day + h * HOUR_MS && ZeroActivity(valid[h])
  {
    for i := 0 to |valid|
      invariant forall h :: 0 <= h < i ==> valid[h].start == day + h * HOUR_MS && ZeroActivity(valid[h])
    {
      if valid[i].start != day + i * HOUR_MS || !ZeroActivity(valid[i]) {
        return false;
      }
    }
    return true;
  }

  lemma ZeroDayIsEmpty(hours: seq<Bar>, request: Request, day: int, now: int, valid: seq<Bar>)
    requires |hours| == |valid| == 24 && Filtered(hours, HourRequest(request, day), now, valid)
    requires forall h :: 0 <= h < 24 ==> valid[h].start == day + h * HOUR_MS && ZeroActivity(valid[h])
    ensures EmptyDay(hours, request, day, now)
  {
    hide Acceptable, ZeroActivity;
    forall h | 0 <= h < 24 ensures HourIsEmpty(hours, request, day, h, now) {
      assert valid[h] in valid && EmptyHour(valid[h], request, day, h, now);
    }
  }

  // Conversely, the evidence of an empty day always passes those tests.

  /** Indices of candles that are the first `n` hours of an empty day. */
  lemma {:induction false} HoursTakeIndices(hours: seq<Bar>, request: Request, day: int, now: int, n: nat) returns (taken: set<int>)
    requires EmptyDay(hours, request, day, now) && n <= 24
    ensures |taken| == n && forall i :: i in taken ==> 0 <= i < 24 && HourBefore(hours[i], request, day, n, now)
  {
    hide Acceptable, ZeroActivity;
    if n == 0 {
      taken := {};
    } else {
      var before := HoursTakeIndices(hours, request, day, now, n - 1);
      assert HourIsEmpty(hours, request, day, n - 1, now);
      var bar :| bar in hours && EmptyHour(bar, request, day, n - 1, now);
      var i :| 0 <= i < |hours| && hours[i] == bar;
      assert !HourBefore(hours[i], request, day, n - 1, now);
      taken := before + {i};
    }
  }

  ghost predicate HourBefore(bar: Bar, request: Request, day: int, n: nat, now: int) {
    exists h :: 0 <= h < n && EmptyHour(bar, request, day, h, now)
  }

  function Numbers(n: nat): set<int> { if n == 0 then {} else Numbers(n - 1) + {n - 1} }

  lemma {:induction false} FirstNumbers(n: nat)
    ensures |Numbers(n)| == n && forall i :: i in Numbers(n) <==> 0 <= i < n
  {
    if n > 0 { FirstNumbers(n - 1); }
  }

  lemma AllTaken(taken: set<int>, n: nat)
    requires |taken| == n && forall i :: i in taken ==> 0 <= i < n
    ensures forall i :: 0 <= i < n ==> i in taken
  {
    hide Numbers;
    FirstNumbers(n);
    var all := Numbers(n);
    forall i | i in taken ensures i in all {
    }
    assert taken <= all;
    GapTargets.SubsetSize(taken, all);
  }

  lemma EveryCandleIsAnHour(hours: seq<Bar>, request: Request, day: int, now: int)
    requires EmptyDay(hours, request, day, now)
    ensures forall bar :: bar in hours ==> HourBefore(bar, request, day, 24, now)
  {
    hide EmptyHour, HourBefore;
    var taken := HoursTakeIndices(hours, request, day, now, 24);
    AllTaken(taken, 24);
    forall bar | bar in hours ensures HourBefore(bar, request, day, 24, now) {
      var i :| 0 <= i < |hours| && hours[i] == bar;
      assert i in taken;
    }
  }

  predicate HasHour(valid: seq<Bar>, day: int, h: int) { HasStart(valid, day + h * HOUR_MS) }

  lemma {:induction false} PlaceFromBelow(valid: seq<Bar>, day: int, h: nat) returns (k: nat)
    requires h < 24 && StartsIncrease(valid) && forall g :: 0 <= g < 24 ==> HasHour(valid, day, g)
    ensures h <= k < |valid| && valid[k].start == day + h * HOUR_MS
  {
    assert HasHour(valid, day, h);
    var bar :| bar in valid && bar.start == day + h * HOUR_MS;
    k :| 0 <= k < |valid| && valid[k] == bar;
    if h > 0 { var below := PlaceFromBelow(valid, day, h - 1); }
  }

  lemma {:induction false} PlaceIsHour(valid: seq<Bar>, day: int, h: nat)
    requires h < 24 && |valid| == 24 && StartsIncrease(valid) && forall g :: 0 <= g < 24 ==> HasHour(valid, day, g)
    ensures valid[h].start == day + h * HOUR_MS
    decreases 24 - h
  {
    var k := PlaceFromBelow(valid, day, h);
    if h < 23 { PlaceIsHour(valid, day, h + 1); }
  }

  lemma EmptyDayPasses(hours: seq<Bar>, request: Request, day: int, now: int, valid: seq<Bar>)
    requires EmptyDay(hours, request, day, now) && Filtered(hours, HourRequest(request, day), now, valid) && |valid| <= 24
    ensures |valid| == 24 && forall bar :: bar in hours ==> !Rejectable(bar, HourRequest(request, day), now)
    ensures forall h :: 0 <= h < 24 ==> valid[h].start == day + h * HOUR_MS && ZeroActivity(valid[h])
  {
    hide Acceptable, ZeroActivity, InRange;
    EveryCandleIsAnHour(hours, request, day, now);
    forall h | 0 <= h < 24 ensures HasHour(valid, day, h) {
      assert HourIsEmpty(hours, request, day, h, now);
      var bar :| bar in hours && EmptyHour(bar, request, day, h, now);
    }
    var k := PlaceFromBelow(valid, day, 23);
    forall h | 0 <= h < 24 ensures valid[h].start == day + h * HOUR_MS && ZeroActivity(valid[h]) {
      PlaceIsHour(valid, day, h);
      assert valid[h] in valid && valid[h] in hours;
      assert HourBefore(valid[h], request, day, 24, now);
    }
  }

  /** One day's evidence: whether it is proven empty, and whether its hours were looked up. */
  method ExamineDay(rows: Rows, store: MemoryStore, hourly: map<int, seq<Bar>>, request: Request, local: seq<Bar>, day: int, now: int)
    returns (empty: Option<bool>, looked: bool)
    requires store.rows == rows
    ensures empty == Some(true) <==> ProvenEmpty(rows, hourly, request, local, day, now)
    ensures empty == None <==> looked && day !in hourly
    ensures looked <==> NoLocalTrades(rows, request, local, day)
  {
    hide Acceptable, ZeroActivity, ValidOHLC, EndMS, RangeBars, EmptyHour;
    var denied := AnyContradicts(local, Some(day));
    if denied {
      return Some(false), false;
    }
    var localHours := store.BarsInRange(request.series, H1, day, EndMS(day, D1));
    var contradiction := AnyContradicts(localHours, None);
    if contradiction {
      return Some(false), false;
    }
    assert NoLocalTrades(rows, request, local, day);
    if day !in hourly {
      return None, true;
    }
    var hours := hourly[day];
    if |hours| != 24 {
      return Some(false), true;
    }
    var valid, rejected := FilterOfficialBars(hours, HourRequest(request, day), now);
    if EmptyDay(hours, request, day, now) { EmptyDayPasses(hours, request, day, now, valid); }
    if rejected != 0 || |valid| != 24 {
      return Some(false), true;
    }
    var complete := CompleteZeroDay(valid, day);
    if complete { ZeroDayIsEmpty(hours, request, day, now, valid); }
    return Some(complete), true;
  }

  /** A day of the range without an official candle. */
  predicate Unanswered(request: Request, official: seq<Bar>, day: int) {
    request.start <= day <= request.end && Aligned(day, D1) && !HasStart(official, day)
  }

  /** Looks for evidence that days without an official candle had no trades: exactly the proven
      empty ones before the day `reached`, where the range ended or seven days had been looked up.
      `looked` are the days that were: those that nothing stored speaks against.  A failed look-up
      fails the whole search. */
  method ConfirmNoTradeDays(rows: Rows, store: MemoryStore, hourly: map<int, seq<Bar>>, request: Request,
                            official: seq<Bar>, local: seq<Bar>, now: int)
    returns (confirmed: Option<set<int>>, ghost looked: set<int>, ghost reached: int)
    requires store.rows == rows && Aligned(request.start, D1)
    ensures forall day :: day in looked <==>
              Unanswered(request, official, day) && day < reached && NoLocalTrades(rows, request, local, day)
    ensures |looked| <= MAX_DAY_CHECKS && (confirmed.Some? ==> confirmed.value <= looked)
    ensures confirmed.Some? ==> |looked| == MAX_DAY_CHECKS || reached > request.end
    ensures confirmed.Some? ==> forall day :: day in confirmed.value <==>
              Unanswered(request, official, day) && day < reached && ProvenEmpty(rows, hourly, request, local, day, now)
    ensures confirmed.Some? ==> forall day :: day in confirmed.value ==>
              Unanswered(request, official, day) && ProvenEmpty(rows, hourly, request, local, day, now)
    ensures confirmed.None? ==> exists day :: day in looked && day !in hourly
  {
    hide ZeroActivity, ValidOHLC, Aligned, EndMS, NextStart, ProvenEmpty, NoLocalTrades;
    var found: set<int> := {};
    var checked := 0;
    looked := {};
    var day := request.start;
    while day <= request.end && checked < MAX_DAY_CHECKS
      invariant Aligned(day, D1) && request.start <= day && checked == |looked| <= MAX_DAY_CHECKS && found <= looked
      invariant forall d :: d in looked <==> Unanswered(request, official, d) && d < day && NoLocalTrades(rows, request, local, d)
      invariant forall d :: d in found <==>
                  Unanswered(request, official, d) && d < day && ProvenEmpty(rows, hourly, request, local, d, now)
      decreases request.end - day
    {
      var today := day;
      DayAfter(day);
      day := NextStart(day, D1);
      if HasStart(official, today) {
        continue;
      }
      assert Unanswered(request, official, today);
      var empty, here := ExamineDay(rows, store, hourly, request, local, today, now);
      if here {
        checked := checked + 1;
        looked := looked + {today};
      }
      if empty.None? {
        return None, looked, day;
      }
      if empty.value {
        ProvenIsLooked(rows, hourly, request, local, today, now);
        found := found + {today};
      }
    }
    confirmed, reached := Some(found), day;
  }

  lemma ProvenIsLooked(rows: Rows, hourly: map<int, seq<Bar>>, request: Request, local: seq<Bar>, day: int, now: int)
    requires ProvenEmpty(rows, hourly, request, local, day, now)
    ensures NoLocalTrades(rows, request, local, day)
  {
    hide NoLocalTrades, EmptyDay;
  }

  lemma DayAfter(day: int)
    requires Aligned(day, D1)
    ensures day < NextStart(day, D1) && Aligned(NextStart(day, D1), D1)
    ensures forall d :: Aligned(d, D1) && d < NextStart(day, D1) ==> d <= day
  {
    hide Aligned, NextStart;
    GapTargets.RangeGrows(day, day, D1);
    forall d | Aligned(d, D1) && day <= d < NextStart(day, D1) ensures d == day {
      assert d in GapTargets.RangeStarts(day, NextStart(day, D1), D1);
    }
  }

  // ----- the verdict on a response -----

  predicate Answered(accepted: seq<Bar>, confirmed: set<int>, t: int) { HasStart(accepted, t) || t in confirmed }

  /** Every bucket from `from` through the request's end has a candle or is proven empty. */
  ghost predicate Covered(request: Request, accepted: seq<Bar>, confirmed: set<int>, from: int) {
    forall t :: t in GapTargets.RangeStarts(from, request.end + 1, request.frame) ==> Answered(accepted, confirmed, t)
  }

  /** The first bucket that candles are expected for. */
  function ExpectedFrom(request: Request): int {
    if request.expectedStart > request.start then FloorStart(request.expectedStart, request.frame) else request.start
  }

  method AllAnswered(request: Request, accepted: seq<Bar>, confirmed: set<int>, from: int) returns (all: bool)
    requires Aligned(from, request.frame)
    ensures all <==> Covered(request, accepted, confirmed, from)
  {
    hide Aligned, NextStart, HasStart;
    var cursor := from;
    while cursor <= request.end
      invariant Aligned(cursor, request.frame) && from <= cursor
      invariant forall t :: t in GapTargets.RangeStarts(from, cursor, request.frame) ==> Answered(accepted, confirmed, t)
      decreases request.end - cursor
    {
      GapTargets.RangeGrows(from, cursor, request.frame);
      if !Answered(accepted, confirmed, cursor) {
        assert cursor in GapTargets.RangeStarts(from, request.end + 1, request.frame);
        return false;
      }
      cursor := NextStart(cursor, request.frame);
    }
    all := true;
  }

  /** A stored candle that the response does not account for. */
  ghost predicate Stray(local: seq<Bar>, accepted: seq<Bar>, confirmed: set<int>) {
    exists bar :: bar in local && !Answered(accepted, confirmed, bar.start)
  }

  predicate ChecksExpected(request: Request) { request.expectData || (request.frame == D1 && request.expectedStart > 0) }

  predicate NothingKnown(request: Request) { !request.expectData && request.expectedStart == 0 }

  /** What is wrong with a response, and whether it leaves the range unchecked. */
  method JudgeResponse(request: Request, accepted: seq<Bar>, rejected: nat, confirmed: set<int>, local: seq<Bar>)
    returns (faulty: bool, unchecked: bool)
    requires Aligned(request.start, request.frame)
    ensures faulty <==>
              || rejected > 0 || Stray(local, accepted, confirmed)
              || (ChecksExpected(request) && !Covered(request, accepted, confirmed, ExpectedFrom(request)))
    ensures unchecked <==> NothingKnown(request) && !Covered(request, accepted, confirmed, request.start)
  {
    hide Aligned, Covered, Answered, FloorStart;
    faulty := rejected > 0;
    FloorAligned(request.expectedStart, request.frame);
    if request.expectData || (request.frame == D1 && request.expectedStart > 0) {
      var expectedStart := request.start;
      if request.expectedStart > expectedStart {
        expectedStart := FloorStart(request.expectedStart, request.frame);
      }
      var all := AllAnswered(request, accepted, confirmed, expectedStart);
      if !all {
        faulty := true;
      }
    }
    unchecked := false;
    if !request.expectData && request.expectedStart == 0 {
      var all := AllAnswered(request, accepted, confirmed, request.start);
      unchecked := !all;
    }
    var before := faulty;
    for i := 0 to |local|
      invariant faulty <==> before || exists j :: 0 <= j < i && !Answered(accepted, confirmed, local[j].start)
    {
      if !Answered(accepted, confirmed, local[i].start) {
        faulty := true;
      }
    }
  }

  lemma FloorAligned(ms: int, frame: Frame)
    ensures Aligned(FloorStart(ms, frame), frame)
  {
    hide Boundary, BucketIndex, RoundsDown, FloorStart, Aligned;
    FloorIsBoundary(ms, frame);
    BoundaryAligned(frame, BucketIndex(frame, ms));
    BoundaryAligned(frame, BucketIndex(frame, ms) + 1);
  }
}
