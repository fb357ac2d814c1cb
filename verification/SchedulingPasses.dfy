/** The scheduling passes as they run against the store, cut off after any number of store calls. */
module SchedulingPasses {
  import opened Timeframe
  import opened Rollup
  import opened MinuteLedger
  import opened MinuteWorker
  import opened Scheduling

  predicate Scheduled(event: Event, key: CursorKey) {
    event.Enqueue? && event.request.identity.series == key.series
    && match key.pass
       case WindowPass => event.request.identity.kind in {Window, CatchUp}
       case DailyPass => event.request.identity.kind == Daily
  }

  function RangeOf(event: Event): Range
    requires event.Enqueue?
  {
    Range(event.request.identity.start, event.request.identity.end)
  }

  ghost function RegisteredRanges(events: seq<Event>, key: CursorKey): seq<Range> {
    if events == [] then []
    else
      var event := events[|events| - 1];
      RegisteredRanges(events[..|events| - 1], key) + if Scheduled(event, key) then [RangeOf(event)] else []
  }

  lemma {:induction false} RangesGrow(events: seq<Event>, events': seq<Event>, key: CursorKey)
    requires events <= events'
    ensures RegisteredRanges(events, key) <= RegisteredRanges(events', key)
    decreases |events'|
  {
    if |events| < |events'| {
      RangesGrow(events, events'[..|events'| - 1], key);
    } else {
      assert events == events';
    }
  }

  lemma LastIsRegistered(events: seq<Event>, key: CursorKey)
    requires events != [] && Scheduled(events[|events| - 1], key)
    ensures RangeOf(events[|events| - 1]) in RegisteredRanges(events, key)
  {
  }

  ghost function ViewOf(events: seq<Event>, cursors: map<CursorKey, int>, key: CursorKey): Sched {
    Sched(RegisteredRanges(events, key), if key in cursors then Some(cursors[key]) else None)
  }

  /** What others do meanwhile leaves the pass's outcome as it is. */
  lemma OutcomeGrows(before: Sched, plan: seq<Range>, calls: nat, events: seq<Event>, events': seq<Event>,
                     cursors: map<CursorKey, int>, key: CursorKey)
    requires PassOutcome(before, plan, calls, ViewOf(events, cursors, key)) && events <= events'
    ensures PassOutcome(before, plan, calls, ViewOf(events', cursors, key))
  {
    hide Acceptable, SavedAll, RegisteredRanges;
    RangesGrow(events, events', key);
  }

  lemma OutcomeExtends(before: Sched, done: seq<Range>, middle: Sched, range: Range, calls: nat, after: Sched)
    requires PassOutcome(before, done, 2 * |done|, middle) && PassOutcome(middle, [range], calls, after)
    ensures PassOutcome(before, done + [range], 2 * |done| + calls, after)
  {
    hide Acceptable, SavedAll, Saved;
    var plan := done + [range];
    SavedOneMore(before.cursor, done, range);
    SavedOneMore(middle.cursor, [], range);
    assert done[..|done|] == done && plan[..|done|] == done && plan[..|plan|] == plan;
    assert [range][..0] == [] && [range][..1] == [range] && [] + [range] == [range];
    assert (2 * |done| + calls) / 2 == |done| + calls / 2 && (2 * |done|) / 2 == |done|;
    if calls / 2 == 0 {
      assert after.cursor == SavedAll(before.cursor, plan[..|done|]);
    } else {
      assert after.cursor == SavedAll(before.cursor, plan);
    }
    forall k | 0 <= k < |done| + (calls + 1) / 2 ensures Acceptable(plan[k]) && plan[k] in after.registered {
      if k < |done| {
        assert plan[k] == done[k] && done[k] in middle.registered;
      } else {
        assert plan[k] == [range][0];
      }
    }
  }

  lemma SavedOneMore(cursor: Option<int>, ranges: seq<Range>, range: Range)
    ensures SavedAll(cursor, []) == cursor
    ensures SavedAll(cursor, ranges + [range]) == Saved(SavedAll(cursor, ranges), range.hi)
  {
    assert (ranges + [range])[..|ranges|] == ranges;
  }

  lemma OutcomeOfLonger(before: Sched, done: seq<Range>, rest: seq<Range>, calls: nat, after: Sched)
    requires PassOutcome(before, done, calls, after)
    ensures PassOutcome(before, done + rest, calls, after)
  {
    hide Acceptable, SavedAll;
    assert (done + rest)[..calls / 2] == done[..calls / 2];
  }

  predicate Refused(series: Series, range: Range) {
    !ValidIdentity(Identity(series, Window, range.lo, range.hi))
  }

  /** No other cursor has moved. */
  predicate OnlyCursor(before: map<CursorKey, int>, key: CursorKey, after: map<CursorKey, int>) {
    before - {key} == after - {key}
  }

  /** What is asked of the store for a range: data is expected exactly where a listing time is known,
      and the first attempt is due at once. */
  function RangeRequest(series: Series, kind: TaskKind, range: Range, listedAt: int, now: int): Request {
    Request(Identity(series, kind, range.lo, range.hi), listedAt, listedAt > 0, false, now, now)
  }

  /** It was asked for, and the store answered with task `id`. */
  ghost predicate AskedAs(events: seq<Event>, from: nat, request: Request, id: int) {
    exists k :: from <= k < |events| && events[k].Enqueue? && events[k].request == request && events[k].id == id
  }

  /** A pass catches up day by day and ends with its window; a daily pass has whole days. */
  function KindAt(pass: Pass, n: nat, k: nat): TaskKind {
    if pass == DailyPass then Daily else if k + 1 == n then Window else CatchUp
  }

  /** The first ranges of the plan have been asked for, as far as the calls of the pass got. */
  ghost predicate PassAsked(events: seq<Event>, from: nat, key: CursorKey, plan: seq<Range>, calls: nat, listedAt: int, now: int) {
    forall k :: 0 <= k < |plan| && k < (calls + 1) / 2 ==>
      Asked(events, from, RangeRequest(key.series, KindAt(key.pass, |plan|, k), plan[k], listedAt, now))
  }

  lemma AskedAsLater(events: seq<Event>, events': seq<Event>, from: nat, request: Request, id: int)
    requires AskedAs(events, from, request, id) && events <= events'
    ensures AskedAs(events', from, request, id)
  {
    var k :| from <= k < |events| && events[k].Enqueue? && events[k].request == request && events[k].id == id;
    assert events'[k] == events[k];
  }

  lemma PassAskedSince(events: seq<Event>, from: nat, later: nat, key: CursorKey, plan: seq<Range>, calls: nat, listedAt: int, now: int)
    requires from <= later && PassAsked(events, later, key, plan, calls, listedAt, now)
    ensures PassAsked(events, from, key, plan, calls, listedAt, now)
  {
    hide Asked;
    forall k | 0 <= k < |plan| && k < (calls + 1) / 2
      ensures Asked(events, from, RangeRequest(key.series, KindAt(key.pass, |plan|, k), plan[k], listedAt, now))
    {
      AskedSince(events, from, later, RangeRequest(key.series, KindAt(key.pass, |plan|, k), plan[k], listedAt, now));
    }
  }

  lemma PassAskedLater(events: seq<Event>, events': seq<Event>, from: nat, key: CursorKey, plan: seq<Range>, calls: nat, listedAt: int, now: int)
    requires PassAsked(events, from, key, plan, calls, listedAt, now) && events <= events'
    ensures PassAsked(events', from, key, plan, calls, listedAt, now)
  {
    hide Asked;
    forall k | 0 <= k < |plan| && k < (calls + 1) / 2
      ensures Asked(events', from, RangeRequest(key.series, KindAt(key.pass, |plan|, k), plan[k], listedAt, now))
    {
      AskedLater(events, events', from, RangeRequest(key.series, KindAt(key.pass, |plan|, k), plan[k], listedAt, now));
    }
  }

  /** One more range of the plan. */
  lemma AsksNext(events: seq<Event>, events': seq<Event>, from: nat, key: CursorKey, plan: seq<Range>, done: nat, made: nat, listedAt: int, now: int)
    requires PassAsked(events, from, key, plan, 2 * done, listedAt, now) && events <= events' && from <= |events|
    requires done < |plan| && made <= 2
    requires made > 0 ==> Asked(events', |events|, RangeRequest(key.series, KindAt(key.pass, |plan|, done), plan[done], listedAt, now))
    ensures PassAsked(events', from, key, plan, 2 * done + made, listedAt, now)
  {
    hide Asked;
    PassAskedLater(events, events', from, key, plan, 2 * done, listedAt, now);
    if made > 0 {
      AskedSince(events', from, |events|, RangeRequest(key.series, KindAt(key.pass, |plan|, done), plan[done], listedAt, now));
    }
  }

  lemma AskedSince(events: seq<Event>, from: nat, later: nat, request: Request)
    requires from <= later && Asked(events, later, request)
    ensures Asked(events, from, request)
  {
  }

  lemma NothingAsked(events: seq<Event>, from: nat, key: CursorKey, plan: seq<Range>, listedAt: int, now: int)
    ensures PassAsked(events, from, key, plan, 0, listedAt, now)
  {
  }

  /** Registers one range and then moves the cursor to its end; `budget` store calls succeed. */
  method RegisterRange(store: MinuteAuditStore, key: CursorKey, kind: TaskKind, range: Range, listedAt: int, now: int, budget: nat)
    returns (calls: nat, id: Option<int>)
    requires store.Valid() && LastTime(store.events, now)
    requires range.lo % MINUTE_MS == 0 && range.hi % MINUTE_MS == 0
    requires if key.pass == DailyPass then kind == Daily else kind in {Window, CatchUp}
    modifies store
    ensures store.Valid() && LastTime(store.events, now) && old(store.events) <= store.events
    ensures OnlyCursor(old(store.cursors), key, store.cursors)
    ensures calls == (if Refused(key.series, range) then 0 else Earlier(budget, 2)) && (id.Some? <==> calls == 2)
    ensures PassOutcome(ViewOf(old(store.events), old(store.cursors), key), [range], calls,
                        ViewOf(store.events, store.cursors, key))
    ensures calls > 0 ==> Asked(store.events, |old(store.events)|, RangeRequest(key.series, kind, range, listedAt, now))
    ensures id.Some? ==> AskedAs(store.events, |old(store.events)|, RangeRequest(key.series, kind, range, listedAt, now), id.value)
  {
    hide FloorStart, RegisteredRanges, RetainedStart, MinuteAuditStore.Valid, SavedAll;
    calls, id := 0, None;
    ghost var before := ViewOf(store.events, store.cursors, key);
    ghost var events := store.events;
    assert [range][..0] == [] && [range][..1] == [range];
    SavedOneMore(before.cursor, [], range);
    assert [] + [range] == [range];
    if budget == 0 {
      return;
    }
    FloorMinute(range.lo);
    FloorMinute(range.hi);
    var request := Request(Identity(key.series, kind, FloorStart(range.lo, M1), FloorStart(range.hi, M1)),
                           listedAt, listedAt > 0, false, now, now);
    var known := store.EnqueueTask(request, now);
    if known.None? {
      return;
    }
    calls := 1;
    assert store.events[|events|] == Enqueue(RangeRequest(key.series, kind, range, listedAt, now), known.value, now);
    LastIsRegistered(store.events, key);
    RangesGrow(events, store.events, key);
    ghost var enqueued := store.events;
    OtherWorkers(store, now);
    RangesGrow(enqueued, store.events, key);
    assert store.events[|events|] == enqueued[|events|];
    if budget == 1 {
      return;
    }
    store.SaveCursor(key, range.hi);
    calls, id := 2, known;
  }

  lemma FloorMinute(ms: int)
    requires ms % MINUTE_MS == 0
    ensures FloorStart(ms, M1) == ms
  {
    hide Boundary;
    if ms < 0 { assert -ms / MINUTE_MS * MINUTE_MS == -ms; }
  }

  /** The pass ended early: its budget was used up, or the store refused the next range. */
  ghost predicate CutOff(series: Series, plan: seq<Range>, calls: nat, budget: nat) {
    calls < 2 * |plan| && (calls == budget || (calls % 2 == 0 && Refused(series, plan[calls / 2])))
  }

  /** One more range of a pass. */
  lemma Continues(before: Sched, done: seq<Range>, middle: Sched, range: Range, rest: seq<Range>,
                  calls: nat, budget: nat, after: Sched, series: Series)
    requires PassOutcome(before, done, 2 * |done|, middle) && PassOutcome(middle, [range], calls, after)
    requires calls == if Refused(series, range) then 0 else Earlier(budget, 2)
    ensures PassOutcome(before, done + [range], 2 * |done| + calls, after)
    ensures PassOutcome(before, done + [range] + rest, 2 * |done| + calls, after)
    ensures calls < 2 ==> CutOff(series, done + [range] + rest, 2 * |done| + calls, 2 * |done| + budget)
  {
    hide PassOutcome, Refused;
    OutcomeExtends(before, done, middle, range, calls, after);
    OutcomeOfLonger(before, done + [range], rest, 2 * |done| + calls, after);
    assert (done + [range] + rest)[|done|] == range;
  }

  lemma StartsWithNothing(before: Sched)
    ensures PassOutcome(before, [], 0, before)
  {
  }

  /** Registers the next range of a pass that has registered `done` since `before`. */
  method RegisterNext(store: MinuteAuditStore, key: CursorKey, kind: TaskKind, range: Range, listedAt: int, now: int,
                      calls: nat, budget: nat, ghost before: Sched, ghost done: seq<Range>, ghost rest: seq<Range>, ghost first: nat)
    returns (total: nat, id: Option<int>)
    requires store.Valid() && LastTime(store.events, now) && calls == 2 * |done| <= budget
    requires range.lo % MINUTE_MS == 0 && range.hi % MINUTE_MS == 0
    requires kind == KindAt(key.pass, |done + [range] + rest|, |done|)
    requires PassOutcome(before, done, calls, ViewOf(store.events, store.cursors, key))
    requires first <= |store.events| && PassAsked(store.events, first, key, done + [range] + rest, calls, listedAt, now)
    modifies store
    ensures store.Valid() && LastTime(store.events, now) && old(store.events) <= store.events && total <= budget
    ensures PassAsked(store.events, first, key, done + [range] + rest, total, listedAt, now)
    ensures id.Some? ==> AskedAs(store.events, |old(store.events)|, RangeRequest(key.series, kind, range, listedAt, now), id.value)
    ensures OnlyCursor(old(store.cursors), key, store.cursors)
    ensures PassOutcome(before, done + [range] + rest, total, ViewOf(store.events, store.cursors, key))
    ensures if id.Some? then
              total == 2 * |done + [range]| && PassOutcome(before, done + [range], total, ViewOf(store.events, store.cursors, key))
            else CutOff(key.series, done + [range] + rest, total, budget)
  {
    hide PassOutcome, RegisteredRanges, Refused, CutOff, PassAsked, Asked;
    ghost var plan := done + [range] + rest;
    assert plan[|done|] == range;
    ghost var events := store.events;
    ghost var middle := ViewOf(store.events, store.cursors, key);
    var made, registered := RegisterRange(store, key, kind, range, listedAt, now, budget - calls);
    Continues(before, done, middle, range, rest, made, budget - calls, ViewOf(store.events, store.cursors, key), key.series);
    AsksNext(events, store.events, first, key, plan, |done|, made, listedAt, now);
    total, id := calls + made, registered;
  }

  lemma ChunkAhead(from: int, start: int)
    requires from < start
    ensures DayChunks(from, start) == [Range(from, Earlier(from + DAY_MS, start) - MINUTE_MS)]
                                      + DayChunks(Earlier(from + DAY_MS, start), start)
  {
  }

  lemma NoChunkAhead(from: int, start: int)
    requires from >= start
    ensures DayChunks(from, start) == []
  {
  }

  /** The downtime before `start`, a day at a time. */
  method RegisterDowntime(store: MinuteAuditStore, key: CursorKey, first: int, start: int, listedAt: int, now: int,
                          made: nat, budget: nat, ghost before: Sched, ghost front: seq<Range>, ghost last: Range, ghost asked: nat)
    returns (calls: nat, completed: bool)
    requires store.Valid() && LastTime(store.events, now) && made == 2 * |front| <= budget
    requires first % MINUTE_MS == 0 && start % MINUTE_MS == 0 && key.pass == WindowPass
    requires PassOutcome(before, front, made, ViewOf(store.events, store.cursors, key))
    requires asked <= |store.events| && PassAsked(store.events, asked, key, front + DayChunks(first, start) + [last], made, listedAt, now)
    modifies store
    ensures store.Valid() && LastTime(store.events, now) && old(store.events) <= store.events && calls <= budget
    ensures PassAsked(store.events, asked, key, front + DayChunks(first, start) + [last], calls, listedAt, now)
    ensures var chunks := DayChunks(first, start);
            if completed then
              calls == 2 * |front + chunks| && PassOutcome(before, front + chunks, calls, ViewOf(store.events, store.cursors, key))
            else
              CutOff(key.series, front + chunks + [last], calls, budget)
              && PassOutcome(before, front + chunks + [last], calls, ViewOf(store.events, store.cursors, key))
  {
    hide PassOutcome, ViewOf, Refused, CutOff, DayChunks, MinuteAuditStore.Valid, LastTime, PassAsked, RangeRequest;
    calls, completed := made, false;
    var registered: Option<int>;
    ghost var plan := front + DayChunks(first, start) + [last];
    var from := first;
    ghost var done := front;
    while from < start
      invariant store.Valid() && LastTime(store.events, now) && old(store.events) <= store.events
      invariant from % MINUTE_MS == 0 && calls == 2 * |done| <= budget
      invariant PassOutcome(before, done, calls, ViewOf(store.events, store.cursors, key))
      invariant front + DayChunks(first, start) == done + DayChunks(from, start)
      invariant PassAsked(store.events, asked, key, plan, calls, listedAt, now)
      decreases start - from
    {
      var end := from + DAY_MS - MINUTE_MS;
      if end >= start {
        end := start - MINUTE_MS;
      }
      ChunkAhead(from, start);
      ghost var rest := DayChunks(end + MINUTE_MS, start);
      assert plan == done + [Range(from, end)] + (rest + [last]);
      calls, registered := RegisterNext(store, key, CatchUp, Range(from, end), listedAt, now, calls, budget, before, done, rest + [last], asked);
      if registered.None? {
        return;
      }
      done := done + [Range(from, end)];
      from := end + MINUTE_MS;
    }
    NoChunkAhead(from, start);
    assert done + [] == done;
    completed := true;
  }

  lemma WindowPlanIs(cursor: Option<int>, start: int, end: int, retained: int)
    ensures var from := if cursor.Some? then cursor.value + MINUTE_MS else start;
            var stop := Earlier(retained, start);
            Planned(cursor, WindowInput(start, end, retained)) == (
              if from < stop then [] + [Range(from, stop - MINUTE_MS)] + (DayChunks(stop, start) + [Range(start, end)])
              else [] + DayChunks(from, start) + [Range(start, end)])
  {
    hide DayChunks;
  }

  /** Registers the downtime since the cursor and then the current window. */
  method RegisterWindow(store: MinuteAuditStore, series: Series, start: int, end: int, retention: int, listedAt: int,
                           now: int, budget: nat)
    returns (calls: nat, id: Option<int>, ghost plan: seq<Range>)
    requires store.Valid() && LastTime(store.events, now)
    requires start % MINUTE_MS == 0 && end % MINUTE_MS == 0
    requires Fits(ViewOf(store.events, store.cursors, CursorKey(series, WindowPass)).cursor)
    modifies store
    ensures store.Valid() && LastTime(store.events, now) && old(store.events) <= store.events
    ensures plan == Planned(ViewOf(old(store.events), old(store.cursors), CursorKey(series, WindowPass)).cursor,
                            WindowInput(start, end, RetainedStart(now, retention)))
    ensures PassOutcome(ViewOf(old(store.events), old(store.cursors), CursorKey(series, WindowPass)), plan, calls,
                        ViewOf(store.events, store.cursors, CursorKey(series, WindowPass)))
    ensures if id.Some? then calls == 2 * |plan| else CutOff(series, plan, calls, budget)
    ensures PassAsked(store.events, |old(store.events)|, CursorKey(series, WindowPass), plan, calls, listedAt, now)
    ensures id.Some? ==> AskedAs(store.events, |old(store.events)|, RangeRequest(series, Window, Range(start, end), listedAt, now), id.value)
  {
    hide PassOutcome, RegisteredRanges, Refused, CutOff, FloorStart, DayChunks, Planned, MinuteAuditStore.Valid, LastTime, PassAsked, RangeRequest;
    ghost var asked := |store.events|;
    var key := CursorKey(series, WindowPass);
    calls, id := 0, None;
    ghost var before := ViewOf(store.events, store.cursors, key);
    var from := start;
    if key in store.cursors {
      from := store.cursors[key] + MINUTE_MS;
    }
    AlignedRetained(now, retention);
    var retained := FloorStart(now - retention, M1) + MINUTE_MS;
    plan := Planned(before.cursor, WindowInput(start, end, retained));
    WindowPlanIs(before.cursor, start, end, retained);
    ghost var done: seq<Range> := [];
    ghost var last := Range(start, end);
    StartsWithNothing(before);
    NothingAsked(store.events, asked, key, plan, listedAt, now);
    if from < retained && from < start {
      var stop := retained - MINUTE_MS;
      if stop >= start {
        stop := start - MINUTE_MS;
      }
      ghost var rest := DayChunks(stop + MINUTE_MS, start) + [last];
      assert plan == done + [Range(from, stop)] + rest;
      var registered: Option<int>;
      calls, registered := RegisterNext(store, key, CatchUp, Range(from, stop), listedAt, now, calls, budget, before, done, rest, asked);
      if registered.None? {
        return;
      }
      done := done + [Range(from, stop)];
      from := stop + MINUTE_MS;
    }
    assert plan == done + DayChunks(from, start) + [last];
    var completed: bool;
    calls, completed := RegisterDowntime(store, key, from, start, listedAt, now, calls, budget, before, done, last, asked);
    if !completed {
      return;
    }
    done := done + DayChunks(from, start);
    assert plan == done + [last] + [];
    calls, id := RegisterNext(store, key, Window, Range(start, end), listedAt, now, calls, budget, before, done, [], asked);
  }

  lemma DayAhead(day: int, latest: int)
    ensures DayRanges(day, latest)
         == if day > latest then [] else [Range(day, day + DAY_MS - MINUTE_MS)] + DayRanges(day + DAY_MS, latest)
  {
  }

  /** Registers the settled days since the cursor, skipped days before the retained ones in one range. */
  method ScheduleDays(store: MinuteAuditStore, series: Series, offset: int, retention: int, listedAt: int, now: int, budget: nat)
    returns (calls: nat, completed: bool, ghost plan: seq<Range>)
    requires store.Valid() && LastTime(store.events, now)
    requires FloorStart(now - offset, D1) - DAY_MS > 0
    requires Fits(ViewOf(store.events, store.cursors, CursorKey(series, DailyPass)).cursor)
    modifies store
    ensures store.Valid() && LastTime(store.events, now) && old(store.events) <= store.events
    ensures OnlyCursor(old(store.cursors), CursorKey(series, DailyPass), store.cursors)
    ensures plan == Planned(ViewOf(old(store.events), old(store.cursors), CursorKey(series, DailyPass)).cursor,
                            DailyInput(FloorStart(now - offset, D1) - DAY_MS, FloorStart(now - retention, D1) + DAY_MS))
    ensures PassOutcome(ViewOf(old(store.events), old(store.cursors), CursorKey(series, DailyPass)), plan, calls,
                        ViewOf(store.events, store.cursors, CursorKey(series, DailyPass)))
    ensures calls <= budget
    ensures if completed then calls == 2 * |plan| else CutOff(series, plan, calls, budget)
    ensures PassAsked(store.events, |old(store.events)|, CursorKey(series, DailyPass), plan, calls, listedAt, now)
  {
    hide PassOutcome, RegisteredRanges, Refused, CutOff, FloorStart, DayRanges, MinuteAuditStore.Valid, LastTime, PassAsked, RangeRequest;
    ghost var asked := |store.events|;
    var key := CursorKey(series, DailyPass);
    calls, completed := 0, false;
    ghost var before := ViewOf(store.events, store.cursors, key);
    var latest := FloorStart(now - offset, D1) - DAY_MS;
    var first := latest;
    if key in store.cursors {
      first := FloorStart(store.cursors[key] + MINUTE_MS, D1);
      FloorIsMinute(store.cursors[key] + MINUTE_MS);
    }
    var oldest := FloorStart(now - retention, D1) + DAY_MS;
    FloorIsMinute(now - offset);
    FloorIsMinute(now - retention);
    plan := Planned(before.cursor, DailyInput(latest, oldest));
    ghost var done: seq<Range> := [];
    StartsWithNothing(before);
    NothingAsked(store.events, asked, key, plan, listedAt, now);
    if first < oldest && first <= latest {
      var skipped := Range(first, oldest - MINUTE_MS);
      ghost var rest := DayRanges(oldest, latest);
      assert plan == done + [skipped] + rest;
      var registered: Option<int>;
      calls, registered := RegisterNext(store, key, Daily, skipped, listedAt, now, calls, budget, before, done, rest, asked);
      if registered.None? {
        return;
      }
      done := done + [skipped];
      first := oldest;
    }
    assert plan == done + DayRanges(first, latest);
    calls, completed := RegisterDays(store, key, first, latest, listedAt, now, calls, budget, before, done, asked);
  }

  /** The whole days from `first` through `latest`. */
  method RegisterDays(store: MinuteAuditStore, key: CursorKey, first: int, latest: int, listedAt: int, now: int,
                      made: nat, budget: nat, ghost before: Sched, ghost front: seq<Range>, ghost asked: nat)
    returns (calls: nat, completed: bool)
    requires store.Valid() && LastTime(store.events, now) && made == 2 * |front| <= budget
    requires first % MINUTE_MS == 0 && key.pass == DailyPass
    requires PassOutcome(before, front, made, ViewOf(store.events, store.cursors, key))
    requires asked <= |store.events| && PassAsked(store.events, asked, key, front + DayRanges(first, latest), made, listedAt, now)
    modifies store
    ensures store.Valid() && LastTime(store.events, now) && old(store.events) <= store.events
    ensures PassAsked(store.events, asked, key, front + DayRanges(first, latest), calls, listedAt, now)
    ensures OnlyCursor(old(store.cursors), key, store.cursors)
    ensures PassOutcome(before, front + DayRanges(first, latest), calls, ViewOf(store.events, store.cursors, key))
    ensures calls <= budget
    ensures if completed then calls == 2 * |front + DayRanges(first, latest)|
            else CutOff(key.series, front + DayRanges(first, latest), calls, budget)
  {
    hide PassOutcome, ViewOf, Refused, CutOff, DayRanges, MinuteAuditStore.Valid, LastTime, PassAsked, RangeRequest;
    calls, completed := made, false;
    var registered: Option<int>;
    var day := first;
    ghost var done := front;
    while day <= latest
      invariant store.Valid() && LastTime(store.events, now) && old(store.events) <= store.events
      invariant OnlyCursor(old(store.cursors), key, store.cursors)
      invariant day % MINUTE_MS == 0 && calls == 2 * |done| <= budget
      invariant PassOutcome(before, done, calls, ViewOf(store.events, store.cursors, key))
      invariant front + DayRanges(first, latest) == done + DayRanges(day, latest)
      invariant PassAsked(store.events, asked, key, front + DayRanges(first, latest), calls, listedAt, now)
      decreases latest - day
    {
      var range := Range(day, day + DAY_MS - MINUTE_MS);
      ghost var rest := DayRanges(day + DAY_MS, latest);
      DayAhead(day, latest);
      assert front + DayRanges(first, latest) == done + [range] + rest;
      calls, registered := RegisterNext(store, key, Daily, range, listedAt, now, calls, budget, before, done, rest, asked);
      if registered.None? {
        return;
      }
      done := done + [range];
      day := day + DAY_MS;
    }
    DayAhead(day, latest);
    assert done + [] == done;
    completed := true;
  }

  lemma FloorIsMinute(ms: int)
    ensures FloorStart(ms, D1) % MINUTE_MS == 0
  {
    hide Boundary;
    var days := TruncDiv(Day(ms) * DAY_MS, DAY_MS);
    assert FloorStart(ms, D1) == (days * 1440) * MINUTE_MS;
  }

  /** A whole window pass: registers, and then executes the task of the window if it got that far. */
  method AuditMinuteWindow(store: MinuteAuditStore, series: Series, start: int, end: int, retention: int, listedAt: int,
                           now: int, budget: nat, token: string, repair: RepairOutcome, repairedAt: int)
    returns (calls: nat, verdict: Option<FinishResult>, ghost plan: seq<Range>)
    requires store.Valid() && LastTime(store.events, now) && now <= repairedAt && token != ""
    requires start % MINUTE_MS == 0 && end % MINUTE_MS == 0
    requires Fits(ViewOf(store.events, store.cursors, CursorKey(series, WindowPass)).cursor)
    modifies store
    ensures store.Valid() && LastTime(store.events, repairedAt) && old(store.events) <= store.events
    ensures plan == Planned(ViewOf(old(store.events), old(store.cursors), CursorKey(series, WindowPass)).cursor,
                            WindowInput(start, end, RetainedStart(now, retention)))
    ensures PassOutcome(ViewOf(old(store.events), old(store.cursors), CursorKey(series, WindowPass)), plan, calls,
                        ViewOf(store.events, store.cursors, CursorKey(series, WindowPass)))
    ensures calls < 2 * |plan| ==> CutOff(series, plan, calls, budget) && verdict == None
    ensures PassAsked(store.events, |old(store.events)|, CursorKey(series, WindowPass), plan, calls, listedAt, now)
    ensures verdict.Some? ==>
              exists id :: EndsWithFinish(store.events, id, token, verdict.value)
                && AskedAs(store.events, |old(store.events)|, RangeRequest(series, Window, Range(start, end), listedAt, now), id)
    ensures verdict.Some? ==> (store.events[|store.events| - 1].outcome == Completed <==> repair == RepairOk)
  {
    hide PassOutcome, RegisteredRanges, CutOff, Planned, RetainedStart, RetryDelay, MinuteAuditStore.Valid, PassAsked, RangeRequest;
    var id: Option<int>;
    calls, id, plan := RegisterWindow(store, series, start, end, retention, listedAt, now, budget);
    verdict := None;
    if id.Some? {
      ghost var events := store.events;
      ghost var at: nat;
      verdict, at := ExecuteMinuteTask(store, id.value, token, now, repair, repairedAt);
      OutcomeGrows(ViewOf(old(store.events), old(store.cursors), CursorKey(series, WindowPass)), plan, calls,
                   events, store.events, store.cursors, CursorKey(series, WindowPass));
      PassAskedLater(events, store.events, |old(store.events)|, CursorKey(series, WindowPass), plan, calls, listedAt, now);
      AskedAsLater(events, store.events, |old(store.events)|, RangeRequest(series, Window, Range(start, end), listedAt, now), id.value);
    }
  }

  // ----- the daily pass over all targets -----

  datatype DayTarget = DayTarget(series: Series, listedAt: int)

  ghost predicate DifferentSeries(targets: seq<DayTarget>) {
    forall i, j :: 0 <= i < j < |targets| ==> targets[i].series != targets[j].series
  }

  function DayKey(target: DayTarget): CursorKey { CursorKey(target.series, DailyPass) }

  ghost predicate AllFit(cursors: map<CursorKey, int>, targets: seq<DayTarget>) {
    forall i :: 0 <= i < |targets| ==>
      DayKey(targets[i]) in cursors ==> cursors[DayKey(targets[i])] > 0 && cursors[DayKey(targets[i])] % MINUTE_MS == 0
  }

  /** The target's days are all registered: its pass was not cut off. */
  ghost predicate DaysDone(before: Sched, input: Input, after: Sched) {
    var plan := Planned(before.cursor, input);
    PassOutcome(before, plan, 2 * |plan|, after)
  }

  /** All of them have been asked for. */
  ghost predicate DaysAsked(events: seq<Event>, from: nat, target: DayTarget, cursors: map<CursorKey, int>, input: Input, now: int) {
    var plan := Planned(if DayKey(target) in cursors then Some(cursors[DayKey(target)]) else None, input);
    PassAsked(events, from, DayKey(target), plan, 2 * |plan|, target.listedAt, now)
  }

  lemma DaysAskedLater(events: seq<Event>, events': seq<Event>, from: nat, target: DayTarget, cursors: map<CursorKey, int>, input: Input, now: int)
    requires DaysAsked(events, from, target, cursors, input, now) && events <= events'
    ensures DaysAsked(events', from, target, cursors, input, now)
  {
    hide Planned, PassAsked;
    var plan := Planned(if DayKey(target) in cursors then Some(cursors[DayKey(target)]) else None, input);
    PassAskedLater(events, events', from, DayKey(target), plan, 2 * |plan|, target.listedAt, now);
  }

  predicate SameCursor(cursors: map<CursorKey, int>, cursors': map<CursorKey, int>, key: CursorKey) {
    (key in cursors <==> key in cursors') && (key in cursors ==> cursors[key] == cursors'[key])
  }

  /** What is done stays done while other targets are scheduled. */
  lemma DoneStays(before: Sched, input: Input, events: seq<Event>, cursors: map<CursorKey, int>,
                  events': seq<Event>, cursors': map<CursorKey, int>, key: CursorKey)
    requires DaysDone(before, input, ViewOf(events, cursors, key)) && events <= events' && SameCursor(cursors, cursors', key)
    ensures DaysDone(before, input, ViewOf(events', cursors', key))
  {
    hide PassOutcome, Planned, RegisteredRanges;
    var plan := Planned(before.cursor, input);
    OutcomeGrows(before, plan, 2 * |plan|, events, events', cursors, key);
  }

  /** It is done from the start of the pass on, not only from its own turn. */
  lemma DoneFromStart(events: seq<Event>, cursors: map<CursorKey, int>, events': seq<Event>, cursors': map<CursorKey, int>,
                      key: CursorKey, input: Input, after: Sched)
    requires DaysDone(ViewOf(events', cursors', key), input, after) && events <= events' && SameCursor(cursors, cursors', key)
    ensures DaysDone(ViewOf(events, cursors, key), input, after)
  {
    hide Planned, RegisteredRanges, SavedAll, Acceptable;
    RangesGrow(events, events', key);
  }

  lemma OthersKeep(cursors: map<CursorKey, int>, key: CursorKey, cursors': map<CursorKey, int>)
    requires OnlyCursor(cursors, key, cursors')
    ensures forall other :: other != key ==> SameCursor(cursors, cursors', other)
  {
    forall other | other != key ensures SameCursor(cursors, cursors', other) {
      assert other in cursors <==> other in cursors - {key};
      assert other in cursors' <==> other in cursors' - {key};
      if other in cursors { assert (cursors - {key})[other] == (cursors' - {key})[other]; }
    }
  }

  /** One daily pass over all targets.  It stops at the first target whose pass is cut off or whose
      range is refused; the targets before it are done and the ones after it untouched. */
  method MinuteDayAuditOnce(store: MinuteAuditStore, targets: seq<DayTarget>, offset: int, retention: int, now: int, budget: nat)
    returns (done: nat)
    requires store.Valid() && LastTime(store.events, now) && DifferentSeries(targets) && AllFit(store.cursors, targets)
    modifies store
    ensures store.Valid() && LastTime(store.events, now) && old(store.events) <= store.events && done <= |targets|
    ensures FloorStart(now - offset, D1) - DAY_MS <= 0 ==> done == |targets| && store.cursors == old(store.cursors)
    ensures FloorStart(now - offset, D1) - DAY_MS > 0 ==> forall i :: 0 <= i < done ==>
              DaysDone(ViewOf(old(store.events), old(store.cursors), DayKey(targets[i])),
                       DailyInput(FloorStart(now - offset, D1) - DAY_MS, FloorStart(now - retention, D1) + DAY_MS),
                       ViewOf(store.events, store.cursors, DayKey(targets[i])))
    ensures FloorStart(now - offset, D1) - DAY_MS > 0 ==> forall i :: 0 <= i < done ==>
              DaysAsked(store.events, |old(store.events)|, targets[i], old(store.cursors),
                        DailyInput(FloorStart(now - offset, D1) - DAY_MS, FloorStart(now - retention, D1) + DAY_MS), now)
    ensures forall i :: done < i < |targets| ==> SameCursor(old(store.cursors), store.cursors, DayKey(targets[i]))
  {
    hide DaysAsked, PassAsked, DaysDone, PassOutcome, CutOff, RegisteredRanges, Planned, OnlyCursor, FloorStart, MinuteAuditStore.Valid, LastTime;
    var latest := FloorStart(now - offset, D1) - DAY_MS;
    if latest <= 0 {
      return |targets|;
    }
    ghost var input := DailyInput(latest, FloorStart(now - retention, D1) + DAY_MS);
    ghost var events, cursors := store.events, store.cursors;
    done := 0;
    var left := budget;
    while done < |targets|
      invariant store.Valid() && LastTime(store.events, now) && events <= store.events && done <= |targets|
      invariant forall i :: 0 <= i < done ==>
                  DaysDone(ViewOf(events, cursors, DayKey(targets[i])), input, ViewOf(store.events, store.cursors, DayKey(targets[i])))
      invariant forall i :: 0 <= i < done ==> DaysAsked(store.events, |events|, targets[i], cursors, input, now)
      invariant forall i :: done <= i < |targets| ==> SameCursor(cursors, store.cursors, DayKey(targets[i]))
    {
      var target := targets[done];
      ghost var events', cursors' := store.events, store.cursors;
      var calls, completed;
      ghost var plan: seq<Range>;
      calls, completed, plan := ScheduleDays(store, target.series, offset, retention, target.listedAt, now, left);
      OthersKeep(cursors', DayKey(target), store.cursors);
      forall i | 0 <= i < done ensures DaysAsked(store.events, |events|, targets[i], cursors, input, now) {
        DaysAskedLater(events', store.events, |events|, targets[i], cursors, input, now);
      }
      forall i | 0 <= i < done
        ensures DaysDone(ViewOf(events, cursors, DayKey(targets[i])), input, ViewOf(store.events, store.cursors, DayKey(targets[i])))
      {
        DoneStays(ViewOf(events, cursors, DayKey(targets[i])), input, events', cursors', store.events, store.cursors, DayKey(targets[i]));
      }
      forall i | done < i < |targets| ensures SameCursor(cursors, store.cursors, DayKey(targets[i])) {
        assert targets[done].series != targets[i].series;
        assert SameCursor(cursors', store.cursors, DayKey(targets[i]));
      }
      if !completed {
        return;
      }
      assert DaysDone(ViewOf(events', cursors', DayKey(target)), input, ViewOf(store.events, store.cursors, DayKey(target))) by {
        AllOfThePlan(ViewOf(events', cursors', DayKey(target)), input, plan, calls, ViewOf(store.events, store.cursors, DayKey(target)));
      }
      DoneFromStart(events, cursors, events', cursors', DayKey(target), input, ViewOf(store.events, store.cursors, DayKey(target)));
      WholePlanAsked(store.events, events, events', target, cursors, cursors', input, plan, now);
      done := done + 1;
      left := left - calls;
    }
  }

  lemma WholePlanAsked(events: seq<Event>, first: seq<Event>, later: seq<Event>, target: DayTarget, cursors: map<CursorKey, int>,
                       cursors': map<CursorKey, int>, input: Input, plan: seq<Range>, now: int)
    requires first <= later && SameCursor(cursors, cursors', DayKey(target))
    requires plan == Planned(ViewOf(later, cursors', DayKey(target)).cursor, input)
    requires PassAsked(events, |later|, DayKey(target), plan, 2 * |plan|, target.listedAt, now)
    ensures DaysAsked(events, |first|, target, cursors, input, now)
  {
    hide Planned, PassAsked, RegisteredRanges;
    PassAskedSince(events, |first|, |later|, DayKey(target), plan, 2 * |plan|, target.listedAt, now);
  }

  lemma AllOfThePlan(before: Sched, input: Input, plan: seq<Range>, calls: nat, after: Sched)
    requires plan == Planned(before.cursor, input) && calls == 2 * |plan| && PassOutcome(before, plan, calls, after)
    ensures DaysDone(before, input, after)
  {
    hide Planned;
  }

  // ----- registered work is accounted for -----

  predicate KindOf(key: CursorKey, kind: TaskKind) {
    match key.pass
    case WindowPass => kind in {Window, CatchUp}
    case DailyPass => kind == Daily
  }

  /** Every registered range was enqueued as a task of its series. */
  lemma {:induction false} RangeWasEnqueued(events: seq<Event>, key: CursorKey, range: Range) returns (identity: Identity)
    requires range in RegisteredRanges(events, key)
    ensures Enqueued(events, |events|, identity) && identity.series == key.series && KindOf(key, identity.kind)
    ensures identity.start == range.lo && identity.end == range.hi
  {
    var front, last := events[..|events| - 1], events[|events| - 1];
    if Scheduled(last, key) && RangeOf(last) == range {
      identity := last.request.identity;
    } else {
      identity := RangeWasEnqueued(front, key, range);
      var k :| 0 <= k < |front| && front[k].Enqueue? && front[k].request.identity == identity;
      assert events[k] == front[k];
    }
  }

  /** Where the audit work for a scheduled minute stands. */
  ghost predicate MinuteAccounted(states: seq<Ledger>, events: seq<Event>, retention: int, key: CursorKey, minute: int)
    requires |states| == |events| + 1
  {
    exists kind :: KindOf(key, kind) && Accounted(states, events, |events|, retention, key.series, kind, minute)
  }

  lemma RegisteredIsAccounted(states: seq<Ledger>, events: seq<Event>, cursors: map<CursorKey, int>, retention: int,
                              key: CursorKey, minute: int)
    requires Run(states, events) && AllExpireSafely(states, events, retention)
    requires Registered(ViewOf(events, cursors, key), minute)
    ensures MinuteAccounted(states, events, retention, key, minute)
  {
    hide RegisteredRanges, Accounted, Run, AllExpireSafely;
    var range :| range in RegisteredRanges(events, key) && range.lo <= minute <= range.hi;
    var identity := RangeWasEnqueued(events, key, range);
    NoWorkLost(states, events, |events|, retention, identity, minute);
  }

  /** Scheduling and ledger together: in every run of passes, cut off wherever they are, and of workers,
      every minute from the first recorded range through the cursor is in an unfinished task, was completed
      or excluded by the holder of a current lease, or had left the retained minutes. */
  lemma EveryMinuteAccounted(states: seq<Sched>, passes: seq<PassRecord>, j: nat, ledgers: seq<Ledger>, events: seq<Event>,
                             cursors: map<CursorKey, int>, retention: int, key: CursorKey)
    requires PassRun(states, passes) && j < |passes| && states[j].cursor.None? && states[j + 1].cursor.Some?
    requires Run(ledgers, events) && AllExpireSafely(ledgers, events, retention)
    requires states[|passes|] == ViewOf(events, cursors, key)
    ensures key in cursors && Planned(None, passes[j].input) != []
    ensures forall t :: Planned(None, passes[j].input)[0].lo <= t <= cursors[key] && t % MINUTE_MS == 0 ==>
              MinuteAccounted(ledgers, events, retention, key, t)
  {
    hide RegisteredRanges, Planned, PassRun, Next, AllExpireSafely, MinuteAccounted, Registered;
    EveryMinuteRegistered(states, passes, j, |passes|);
    forall t | Planned(None, passes[j].input)[0].lo <= t <= cursors[key] && t % MINUTE_MS == 0
      ensures MinuteAccounted(ledgers, events, retention, key, t)
    {
      RegisteredIsAccounted(ledgers, events, cursors, retention, key, t);
    }
  }
}
