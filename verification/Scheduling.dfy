/** Scheduling of minute audits: the window pass and the daily pass register ranges and move a
    cursor, and may be cut off between any two store calls. */
module Scheduling {
  import opened Timeframe

  /** An inclusive range of minute starts. */
  datatype Range = Range(lo: int, hi: int)

  /** What the store knows of one audit series: the ranges in order of registration, and the cursor. */
  datatype Sched = Sched(registered: seq<Range>, cursor: Option<int>)

  const NOTHING: Sched := Sched([], None)

  function Earlier(a: int, b: int): int { if a < b then a else b }

  // ----- what a pass sets out to register -----

  datatype Input =
    | WindowInput(start: int, end: int, retained: int)
    | DailyInput(latest: int, oldest: int)

  /** Downtime is cut into days. */
  function DayChunks(from: int, start: int): seq<Range>
    decreases start - from
  {
    if from >= start then []
    else
      var next := Earlier(from + DAY_MS, start);
      [Range(from, next - MINUTE_MS)] + DayChunks(next, start)
  }

  function DayRanges(first: int, latest: int): seq<Range>
    decreases latest - first
  {
    if first > latest then [] else [Range(first, first + DAY_MS - MINUTE_MS)] + DayRanges(first + DAY_MS, latest)
  }

  function Planned(cursor: Option<int>, input: Input): seq<Range> {
    match input
    case WindowInput(start, end, retained) =>
      var from := if cursor.Some? then cursor.value + MINUTE_MS else start;
      var stop := if from < retained && from < start then Earlier(retained, start) else from;
      (if stop > from then [Range(from, stop - MINUTE_MS)] else []) + DayChunks(stop, start) + [Range(start, end)]
    case DailyInput(latest, oldest) =>
      var first := if cursor.Some? then FloorStart(cursor.value + MINUTE_MS, D1) else latest;
      if first < oldest && first <= latest then [Range(first, oldest - MINUTE_MS)] + DayRanges(oldest, latest)
      else DayRanges(first, latest)
  }

  predicate Minutely(input: Input) {
    match input
    case WindowInput(start, end, retained) => start % MINUTE_MS == 0 && end % MINUTE_MS == 0 && retained % MINUTE_MS == 0
    case DailyInput(latest, oldest) => latest > 0 && latest % DAY_MS == 0 && oldest % DAY_MS == 0
  }

  /** Ranges the store accepts. */
  predicate Acceptable(range: Range) {
    0 < range.lo <= range.hi && range.lo % MINUTE_MS == 0 && range.hi % MINUTE_MS == 0
  }

  function Saved(cursor: Option<int>, through: int): Option<int> {
    if cursor.Some? && cursor.value > through then cursor else Some(through)
  }

  function SavedAll(cursor: Option<int>, ranges: seq<Range>): Option<int> {
    if ranges == [] then cursor else Saved(SavedAll(cursor, ranges[..|ranges| - 1]), ranges[|ranges| - 1].hi)
  }

  /** The pass made `calls` store calls, registering and saving in turn, before it ended or was
      cut off.  Others may have registered ranges in the meantime. */
  ghost predicate PassOutcome(before: Sched, plan: seq<Range>, calls: nat, after: Sched) {
    && calls <= 2 * |plan|
    && before.registered <= after.registered
    && (forall k :: 0 <= k < (calls + 1) / 2 ==> Acceptable(plan[k]) && plan[k] in after.registered)
    && after.cursor == SavedAll(before.cursor, plan[..calls / 2])
  }

  ghost predicate Undisturbed(before: Sched, plan: seq<Range>, calls: nat, after: Sched) {
    calls <= 2 * |plan| && after.registered == before.registered + plan[..(calls + 1) / 2]
  }

  datatype PassRecord = PassRecord(input: Input, calls: nat)

  /** A run of passes over one cursor, each possibly cut off. */
  ghost predicate PassRun(states: seq<Sched>, passes: seq<PassRecord>) {
    && |states| == |passes| + 1 && states[0] == NOTHING
    && forall k :: 0 <= k < |passes| ==> PassAt(states, passes, k)
  }

  ghost predicate PassAt(states: seq<Sched>, passes: seq<PassRecord>, k: nat)
    requires |states| == |passes| + 1 && k < |passes|
  {
    Minutely(passes[k].input)
    && PassOutcome(states[k], Planned(states[k].cursor, passes[k].input), passes[k].calls, states[k + 1])
  }

  // ----- plans leave no hole -----

  ghost predicate Linked(ranges: seq<Range>) {
    forall i, j :: 0 <= i < j < |ranges| && j == i + 1 ==> ranges[j].lo <= ranges[i].hi + MINUTE_MS
  }

  lemma LinkedPrefix(ranges: seq<Range>, n: nat)
    requires Linked(ranges) && n <= |ranges|
    ensures Linked(ranges[..n])
  {
  }

  lemma LinkedJoin(front: seq<Range>, back: seq<Range>)
    requires Linked(front) && Linked(back)
    requires front != [] && back != [] ==> back[0].lo <= front[|front| - 1].hi + MINUTE_MS
    ensures Linked(front + back)
  {
    var ranges := front + back;
    forall i, j | 0 <= i < j < |ranges| && j == i + 1 ensures ranges[j].lo <= ranges[i].hi + MINUTE_MS {
      if j < |front| {
        assert ranges[i] == front[i] && ranges[j] == front[j];
      } else if i >= |front| {
        assert ranges[i] == back[i - |front|] && ranges[j] == back[j - |front|];
      }
    }
  }

  /** The ranges abut and run from `from` to the minute before `end`. */
  ghost predicate Spans(ranges: seq<Range>, from: int, end: int) {
    && Linked(ranges) && (forall r :: r in ranges ==> r.lo >= from)
    && (ranges == [] <==> from >= end)
    && (ranges != [] ==> ranges[0].lo == from && ranges[|ranges| - 1].hi == end - MINUTE_MS)
  }

  lemma SpansJoin(range: Range, rest: seq<Range>, end: int)
    requires range.lo <= range.hi && Spans(rest, range.hi + MINUTE_MS, end) && range.hi + MINUTE_MS <= end
    ensures Spans([range] + rest, range.lo, end)
  {
    hide Linked;
    SingleLinked(range);
    LinkedJoin([range], rest);
  }

  lemma SingleLinked(range: Range)
    ensures Linked([range]) && Linked([])
  {
  }

  lemma {:induction false} ChunksSpan(from: int, start: int)
    requires from % MINUTE_MS == 0 && start % MINUTE_MS == 0
    ensures Spans(DayChunks(from, start), from, start)
    decreases start - from
  {
    hide Spans;
    if from < start {
      var next := Earlier(from + DAY_MS, start);
      ChunksSpan(next, start);
      SpansJoin(Range(from, next - MINUTE_MS), DayChunks(next, start), start);
    } else {
      NothingSpans(from, start);
    }
  }

  lemma NothingSpans(from: int, end: int)
    requires from >= end
    ensures Spans([], from, end)
  {
  }

  lemma {:induction false} DaysSpan(first: int, latest: int)
    requires first % DAY_MS == 0 && latest % DAY_MS == 0
    ensures Spans(DayRanges(first, latest), first, latest + DAY_MS)
    decreases latest - first
  {
    hide Spans;
    if first <= latest {
      DaysSpan(first + DAY_MS, latest);
      SpansJoin(Range(first, first + DAY_MS - MINUTE_MS), DayRanges(first + DAY_MS, latest), latest + DAY_MS);
    } else {
      NothingSpans(first, latest + DAY_MS);
    }
  }

  function PlanFrom(cursor: Option<int>, input: Input): int {
    match input
    case WindowInput(start, _, _) => if cursor.Some? then Earlier(cursor.value + MINUTE_MS, start) else start
    case DailyInput(latest, _) => if cursor.Some? then FloorStart(cursor.value + MINUTE_MS, D1) else latest
  }

  ghost predicate GoodPlan(cursor: Option<int>, input: Input, plan: seq<Range>) {
    && Linked(plan)
    && (plan != [] ==> plan[0].lo == PlanFrom(cursor, input))
    && (forall r :: r in plan ==> r.lo >= PlanFrom(cursor, input))
    && (input.WindowInput? ==> plan != [] && plan[|plan| - 1] == Range(input.start, input.end))
    && (input.DailyInput? && plan == [] ==> cursor.Some? && cursor.value + MINUTE_MS >= input.latest + DAY_MS)
    && (input.DailyInput? && plan != [] ==> plan[|plan| - 1].hi + MINUTE_MS >= input.latest + DAY_MS)
  }

  ghost predicate Fits(cursor: Option<int>) { cursor.Some? ==> cursor.value > 0 && cursor.value % MINUTE_MS == 0 }

  /** Consecutive ranges of a plan leave no minute out, nor does its first range after the cursor. */
  lemma PlanIsGood(cursor: Option<int>, input: Input)
    requires Minutely(input) && Fits(cursor)
    ensures GoodPlan(cursor, input, Planned(cursor, input))
    ensures cursor.Some? ==> PlanFrom(cursor, input) <= cursor.value + MINUTE_MS
  {
    hide GoodPlan;
    match input
    case WindowInput(start, end, retained) => WindowIsGood(cursor, input);
    case DailyInput(latest, oldest) => DailyIsGood(cursor, input);
  }

  /** No task is longer than a day but one: the first, if it lies before the retained minutes as a whole.
      Of the daily tasks each other one is a whole day. */
  lemma PlanIsShort(cursor: Option<int>, input: Input)
    requires Minutely(input) && Fits(cursor)
    ensures input.WindowInput? ==>
              var plan := Planned(cursor, input);
              forall i :: 0 <= i < |plan| - 1 ==>
                (i == 0 && plan[i].hi < input.retained) || (plan[i].hi - plan[i].lo + MINUTE_MS <= DAY_MS && plan[i].hi < input.start)
    ensures input.DailyInput? ==>
              var plan := Planned(cursor, input);
              forall i :: 0 <= i < |plan| ==>
                (i == 0 && plan[i].hi < input.oldest) || (plan[i].lo % DAY_MS == 0 && plan[i].hi == plan[i].lo + DAY_MS - MINUTE_MS)
  {
    hide DayChunks, DayRanges;
    match input
    case WindowInput(start, end, retained) =>
      var from := if cursor.Some? then cursor.value + MINUTE_MS else start;
      var stop := if from < retained && from < start then Earlier(retained, start) else from;
      ChunksAreShort(stop, start);
      WindowParts(if stop > from then [Range(from, stop - MINUTE_MS)] else [], DayChunks(stop, start), Range(start, end), input);
    case DailyInput(latest, oldest) =>
      var first := if cursor.Some? then FloorStart(cursor.value + MINUTE_MS, D1) else latest;
      if cursor.Some? { FloorIsDay(cursor.value + MINUTE_MS); }
      RangesAreDays(first, latest);
      RangesAreDays(oldest, latest);
  }

  lemma WindowParts(skipped: seq<Range>, chunks: seq<Range>, last: Range, input: Input)
    requires input.WindowInput? && |skipped| <= 1 && (skipped != [] ==> skipped[0].hi < input.retained)
    requires forall r :: r in chunks ==> r.hi - r.lo + MINUTE_MS <= DAY_MS && r.hi < input.start
    ensures var plan := skipped + chunks + [last];
            forall i :: 0 <= i < |plan| - 1 ==>
              (i == 0 && plan[i].hi < input.retained) || (plan[i].hi - plan[i].lo + MINUTE_MS <= DAY_MS && plan[i].hi < input.start)
  {
    var plan := skipped + chunks + [last];
    forall i | 0 <= i < |plan| - 1
      ensures (i == 0 && plan[i].hi < input.retained) || (plan[i].hi - plan[i].lo + MINUTE_MS <= DAY_MS && plan[i].hi < input.start)
    {
      if i >= |skipped| {
        assert plan[i] == chunks[i - |skipped|];
        assert plan[i] in chunks;
      }
    }
  }

  lemma {:induction false} ChunksAreShort(from: int, start: int)
    ensures forall r :: r in DayChunks(from, start) ==> r.hi - r.lo + MINUTE_MS <= DAY_MS && r.hi < start
    decreases start - from
  {
    if from < start { ChunksAreShort(Earlier(from + DAY_MS, start), start); }
  }

  lemma {:induction false} RangesAreDays(first: int, latest: int)
    requires first % DAY_MS == 0
    ensures forall r :: r in DayRanges(first, latest) ==> r.lo % DAY_MS == 0 && r.hi == r.lo + DAY_MS - MINUTE_MS
    decreases latest - first
  {
    if first <= latest { RangesAreDays(first + DAY_MS, latest); }
  }

  lemma FloorIsDay(ms: int)
    ensures FloorStart(ms, D1) % DAY_MS == 0
  {
    hide Boundary;
    assert FloorStart(ms, D1) == TruncDiv(Day(ms) * DAY_MS, DAY_MS) * DAY_MS;
  }

  lemma WindowIsGood(cursor: Option<int>, input: Input)
    requires Minutely(input) && Fits(cursor) && input.WindowInput?
    ensures GoodPlan(cursor, input, Planned(cursor, input))
  {
    hide Linked, GoodPlan, DayChunks, Spans;
    var start := input.start;
    var from := if cursor.Some? then cursor.value + MINUTE_MS else start;
    var stop := if from < input.retained && from < start then Earlier(input.retained, start) else from;
    var chunks := DayChunks(stop, start);
    ChunksSpan(stop, start);
    if stop > from {
      var skipped := Range(from, stop - MINUTE_MS);
      SpansJoin(skipped, chunks, start);
      WindowEnds(cursor, input, from, [skipped] + chunks);
    } else {
      WindowEnds(cursor, input, from, chunks);
      assert [] + chunks == chunks;
    }
  }

  lemma WindowEnds(cursor: Option<int>, input: Input, from: int, chunks: seq<Range>)
    requires input.WindowInput? && from == if cursor.Some? then cursor.value + MINUTE_MS else input.start
    requires Spans(chunks, from, input.start)
    ensures GoodPlan(cursor, input, chunks + [Range(input.start, input.end)])
  {
    hide Linked;
    var last := Range(input.start, input.end);
    SingleLinked(last);
    LinkedJoin(chunks, [last]);
  }

  lemma DailyIsGood(cursor: Option<int>, input: Input)
    requires Minutely(input) && Fits(cursor) && input.DailyInput?
    ensures GoodPlan(cursor, input, Planned(cursor, input))
    ensures cursor.Some? ==> PlanFrom(cursor, input) <= cursor.value + MINUTE_MS
  {
    hide Linked;
    var latest, oldest := input.latest, input.oldest;
    var first := PlanFrom(cursor, input);
    FloorDay(if cursor.Some? then cursor.value + MINUTE_MS else latest);
    if first < oldest && first <= latest {
      var skipped := Range(first, oldest - MINUTE_MS);
      DaysSpan(oldest, latest);
      SingleLinked(skipped);
      LinkedJoin([skipped], DayRanges(oldest, latest));
      assert Planned(cursor, input) == [skipped] + DayRanges(oldest, latest);
    } else {
      DaysSpan(first, latest);
      assert Planned(cursor, input) == DayRanges(first, latest);
    }
  }

  lemma FloorDay(ms: int)
    requires ms >= 0
    ensures FloorStart(ms, D1) == ms / DAY_MS * DAY_MS
  {
    hide Boundary;
    assert TruncDiv(Day(ms) * DAY_MS, DAY_MS) == Day(ms);
  }

  // ----- the cursor -----

  lemma {:induction false} SavedGrows(cursor: Option<int>, ranges: seq<Range>)
    ensures ranges != [] || cursor.Some? ==> SavedAll(cursor, ranges).Some?
    ensures cursor.Some? ==> SavedAll(cursor, ranges).value >= cursor.value
    ensures forall r :: r in ranges ==> SavedAll(cursor, ranges).value >= r.hi
    ensures SavedAll(cursor, ranges) == cursor || exists r :: r in ranges && SavedAll(cursor, ranges) == Some(r.hi)
  {
    if ranges != [] {
      var front, last := ranges[..|ranges| - 1], ranges[|ranges| - 1];
      SavedGrows(cursor, front);
      assert last in ranges;
      assert SavedAll(cursor, ranges) == Saved(SavedAll(cursor, front), last.hi);
      forall r | r in ranges ensures SavedAll(cursor, ranges).value >= r.hi {
        if r != last { assert r in front; }
      }
      if SavedAll(cursor, ranges) == SavedAll(cursor, front) != cursor {
        var r :| r in front && SavedAll(cursor, front) == Some(r.hi);
        assert r in ranges;
      }
    }
  }

  lemma {:induction false} CursorsFit(states: seq<Sched>, passes: seq<PassRecord>, m: nat)
    requires PassRun(states, passes) && m <= |passes|
    ensures Fits(states[m].cursor)
  {
    hide Planned;
    if m > 0 {
      CursorsFit(states, passes, m - 1);
      assert PassAt(states, passes, m - 1);
      var before, pass := states[m - 1], passes[m - 1];
      SavedGrows(before.cursor, Planned(before.cursor, pass.input)[..pass.calls / 2]);
    }
  }

  /** The cursor never moves back. */
  lemma {:induction false} CursorNeverBack(states: seq<Sched>, passes: seq<PassRecord>, a: nat, b: nat)
    requires PassRun(states, passes) && a <= b <= |passes| && states[a].cursor.Some?
    ensures states[b].cursor.Some? && states[a].cursor.value <= states[b].cursor.value
    decreases b - a
  {
    hide Planned;
    if a < b {
      assert PassAt(states, passes, a);
      SavedGrows(states[a].cursor, Planned(states[a].cursor, passes[a].input)[..passes[a].calls / 2]);
      CursorNeverBack(states, passes, a + 1, b);
    }
  }

  /** A pass that was not cut off moves the cursor to its end. */
  lemma FullPassReachesEnd(before: Sched, input: Input, after: Sched)
    requires Minutely(input) && Fits(before.cursor)
    requires PassOutcome(before, Planned(before.cursor, input), 2 * |Planned(before.cursor, input)|, after)
    ensures after.cursor.Some?
    ensures after.cursor.value >= if input.WindowInput? then input.end else input.latest + DAY_MS - MINUTE_MS
  {
    hide SavedAll, Planned;
    var plan := Planned(before.cursor, input);
    assert plan[..|plan|] == plan;
    SavedGrows(before.cursor, plan);
    PlanIsGood(before.cursor, input);
    if plan != [] { assert plan[|plan| - 1] in plan; }
  }

  // ----- every minute up to the cursor is registered -----

  ghost predicate Registered(state: Sched, minute: int) {
    exists r :: r in state.registered && r.lo <= minute <= r.hi
  }

  ghost predicate Covered(state: Sched, from: int, through: int) {
    forall t :: from <= t <= through && t % MINUTE_MS == 0 ==> Registered(state, t)
  }

  lemma CoveredGrows(before: Sched, after: Sched, from: int, through: int)
    requires Covered(before, from, through) && before.registered <= after.registered
    ensures Covered(after, from, through)
  {
    forall t | from <= t <= through && t % MINUTE_MS == 0 ensures Registered(after, t) {
      assert Registered(before, t);
      var r :| r in before.registered && r.lo <= t <= r.hi;
      assert r in after.registered;
    }
  }

  lemma CoveredByRange(state: Sched, from: int, through: int, range: Range)
    requires Covered(state, from, through) && range in state.registered
    requires through % MINUTE_MS == 0 && range.lo <= through + MINUTE_MS
    ensures Covered(state, from, range.hi)
  {
    hide Registered;
    forall t | from <= t <= range.hi && t % MINUTE_MS == 0 ensures Registered(state, t) {
      if t <= through {
        assert Registered(state, t);
      } else {
        NextMinute(through, t);
        InRange(state, range, t);
      }
    }
  }

  lemma InRange(state: Sched, range: Range, minute: int)
    requires range in state.registered && range.lo <= minute <= range.hi
    ensures Registered(state, minute)
  {
  }

  lemma NextMinute(a: int, b: int)
    requires a % MINUTE_MS == 0 && b % MINUTE_MS == 0 && a < b
    ensures a + MINUTE_MS <= b
  {
    var m, n := a / MINUTE_MS, b / MINUTE_MS;
    assert a == m * MINUTE_MS && b == n * MINUTE_MS;
  }

  /** A linked plan moves the cursor without uncovering a minute. */
  lemma {:induction false} SavesStayCovered(state: Sched, from: int, cursor: Option<int>, ranges: seq<Range>)
    requires Linked(ranges) && forall r :: r in ranges ==> Acceptable(r) && r in state.registered
    requires cursor.Some? ==> cursor.value % MINUTE_MS == 0 && Covered(state, from, cursor.value)
    requires ranges != [] ==> ranges[0].lo <= if cursor.Some? then cursor.value + MINUTE_MS else from
    ensures var saved := SavedAll(cursor, ranges);
            saved.Some? ==> saved.value % MINUTE_MS == 0 && Covered(state, from, saved.value)
  {
    hide Covered, Linked;
    if ranges != [] {
      var last := |ranges| - 1;
      var front := ranges[..last];
      assert SavedAll(cursor, ranges) == Saved(SavedAll(cursor, front), ranges[last].hi);
      assert ranges[last] in ranges;
      if last > 0 {
        LinkedPrefix(ranges, last);
        LinkedStep(ranges, last);
        SavesStayCovered(state, from, cursor, front);
        SavedGrows(cursor, front);
        assert front[last - 1] in front;
        CoveredByRange(state, from, SavedAll(cursor, front).value, ranges[last]);
      } else if cursor.Some? {
        CoveredByRange(state, from, cursor.value, ranges[0]);
      } else {
        OneRangeCovers(state, from, ranges[0]);
      }
    }
  }

  lemma LinkedStep(ranges: seq<Range>, k: nat)
    requires Linked(ranges) && 0 < k < |ranges|
    ensures ranges[k].lo <= ranges[k - 1].hi + MINUTE_MS
  {
  }

  lemma OneRangeCovers(state: Sched, from: int, range: Range)
    requires range in state.registered && range.lo <= from
    ensures Covered(state, from, range.hi)
  {
  }

  /** Nothing is left out, whatever passes are cut off wherever: from the start of the range whose
      registration the cursor first records, every minute through the cursor is registered. */
  lemma {:induction false} EveryMinuteRegistered(states: seq<Sched>, passes: seq<PassRecord>, j: nat, m: nat)
    requires PassRun(states, passes) && j < m <= |passes|
    requires states[j].cursor.None? && states[j + 1].cursor.Some?
    ensures states[m].cursor.Some?
    ensures Planned(None, passes[j].input) != []
    ensures Covered(states[m], Planned(None, passes[j].input)[0].lo, states[m].cursor.value)
    decreases m
  {
    hide Covered, Planned, Linked, SavedAll;
    var before, input, calls := states[m - 1], passes[m - 1].input, passes[m - 1].calls;
    assert PassAt(states, passes, m - 1);
    assert PassAt(states, passes, j);
    var plan := Planned(before.cursor, input);
    CursorsFit(states, passes, m - 1);
    PlanIsGood(before.cursor, input);
    SavedGrows(states[j].cursor, Planned(None, passes[j].input)[..passes[j].calls / 2]);
    SavedNothing(None);
    assert Planned(None, passes[j].input) != [];
    var from := Planned(None, passes[j].input)[0].lo;
    if j + 1 < m {
      EveryMinuteRegistered(states, passes, j, m - 1);
      CoveredGrows(before, states[m], from, before.cursor.value);
    }
    var saved := plan[..calls / 2];
    LinkedPrefix(plan, calls / 2);
    SavesStayCovered(states[m], from, before.cursor, saved);
    CursorNeverBack(states, passes, j + 1, m);
  }

  lemma SavedNothing(cursor: Option<int>)
    ensures SavedAll(cursor, []) == cursor
  {
  }

  // ----- passes cut off before the first cursor -----

  function StartOf(input: Input): int { if input.WindowInput? then input.start else input.latest }

  /** The inputs of later passes lie later, as they do under a clock that does not run back. */
  ghost predicate Forward(passes: seq<PassRecord>) {
    forall i, j :: 0 <= i < j < |passes| ==>
      passes[i].input.WindowInput? == passes[j].input.WindowInput? && StartOf(passes[i].input) <= StartOf(passes[j].input)
  }

  ghost predicate Quiet(states: seq<Sched>, passes: seq<PassRecord>)
    requires |states| == |passes| + 1
  {
    forall k :: 0 <= k < |passes| ==> QuietAt(states, passes, k)
  }

  ghost predicate QuietAt(states: seq<Sched>, passes: seq<PassRecord>, k: nat)
    requires |states| == |passes| + 1 && k < |passes|
  {
    Undisturbed(states[k], Planned(states[k].cursor, passes[k].input), passes[k].calls, states[k + 1])
  }

  /** The last minute of the ranges. */
  function Reach(ranges: seq<Range>): int
    requires ranges != []
  {
    var last := |ranges| - 1;
    if last == 0 then ranges[0].hi
    else if Reach(ranges[..last]) > ranges[last].hi then Reach(ranges[..last]) else ranges[last].hi
  }

  lemma {:induction false} ReachIsLargest(ranges: seq<Range>)
    requires ranges != []
    ensures exists r :: r in ranges && r.hi == Reach(ranges)
    ensures forall r :: r in ranges ==> r.hi <= Reach(ranges)
  {
    var last := |ranges| - 1;
    if last > 0 {
      ReachIsLargest(ranges[..last]);
      var before :| before in ranges[..last] && before.hi == Reach(ranges[..last]);
      forall r | r in ranges ensures r == ranges[last] || r in ranges[..last] { LastOrBefore(ranges, r); }
      LastOrBefore(ranges, before);
      var top := if Reach(ranges[..last]) > ranges[last].hi then before else ranges[last];
      assert top in ranges && top.hi == Reach(ranges);
    } else {
      assert ranges[0] in ranges;
    }
  }

  lemma LastOrBefore(ranges: seq<Range>, r: Range)
    requires ranges != []
    ensures r in ranges <==> r == ranges[|ranges| - 1] || r in ranges[..|ranges| - 1]
  {
    assert ranges == ranges[..|ranges| - 1] + [ranges[|ranges| - 1]];
  }

  /** Pass `k` starts without a cursor beyond what earlier passes registered before they were cut off. */
  ghost predicate LeavesOrphan(states: seq<Sched>, passes: seq<PassRecord>, k: nat)
    requires |states| == |passes| + 1 && k < |passes|
  {
    && states[k].cursor.None? && states[k].registered != [] && passes[k].calls > 0
    && StartOf(passes[k].input) > Reach(states[k].registered) + MINUTE_MS
  }

  lemma {:induction false} AllAcceptable(states: seq<Sched>, passes: seq<PassRecord>, m: nat)
    requires PassRun(states, passes) && Quiet(states, passes) && m <= |passes|
    ensures forall r :: r in states[m].registered ==> Acceptable(r)
  {
    hide Planned, Acceptable, SavedAll, Reach;
    if m > 0 {
      AllAcceptable(states, passes, m - 1);
      assert PassAt(states, passes, m - 1) && QuietAt(states, passes, m - 1);
    }
  }

  /** Before the first cursor, passes register without a hole if none leaves an orphan. */
  lemma {:induction false} CoveredToReach(states: seq<Sched>, passes: seq<PassRecord>, m: nat)
    requires PassRun(states, passes) && Quiet(states, passes) && m <= |passes| && states[m].cursor.None?
    requires forall k :: 0 <= k < m ==> !LeavesOrphan(states, passes, k)
    requires states[m].registered != []
    ensures Covered(states[m], states[m].registered[0].lo, Reach(states[m].registered))
  {
    hide Planned, SavedAll, Covered, Acceptable, Linked;
    var before, input, calls := states[m - 1], passes[m - 1].input, passes[m - 1].calls;
    assert PassAt(states, passes, m - 1) && QuietAt(states, passes, m - 1);
    var plan := Planned(before.cursor, input);
    SavedGrows(before.cursor, plan[..calls / 2]);
    assert before.cursor.None? && calls < 2;
    if calls == 0 {
      assert states[m].registered == before.registered;
      CoveredToReach(states, passes, m - 1);
      CoveredGrows(before, states[m], before.registered[0].lo, Reach(before.registered));
    } else {
      PlanIsGood(before.cursor, input);
      assert plan[..1] == [plan[0]];
      assert states[m].registered == before.registered + [plan[0]];
      if before.registered == [] {
        OneRangeCovers(states[m], plan[0].lo, plan[0]);
      } else {
        CoveredToReach(states, passes, m - 1);
        assert !LeavesOrphan(states, passes, m - 1);
        ExtendReach(before, states[m], states, passes, m - 1, plan[0]);
      }
    }
  }

  lemma ReachIsMinute(states: seq<Sched>, passes: seq<PassRecord>, k: nat)
    requires PassRun(states, passes) && Quiet(states, passes) && k <= |passes| && states[k].registered != []
    ensures Reach(states[k].registered) % MINUTE_MS == 0
    ensures states[k].registered[0].lo <= Reach(states[k].registered)
  {
    hide Planned, SavedAll, PassAt, QuietAt, Reach;
    AllAcceptable(states, passes, k);
    ReachIsLargest(states[k].registered);
    assert states[k].registered[0] in states[k].registered;
  }

  lemma ExtendReach(before: Sched, after: Sched, states: seq<Sched>, passes: seq<PassRecord>, k: nat, range: Range)
    requires PassRun(states, passes) && Quiet(states, passes) && k < |passes| && before == states[k]
    requires before.registered != [] && after.registered == before.registered + [range]
    requires range.lo <= Reach(before.registered) + MINUTE_MS
    requires Covered(before, before.registered[0].lo, Reach(before.registered))
    ensures Covered(after, after.registered[0].lo, Reach(after.registered))
  {
    hide Planned, SavedAll, Covered, PassAt, QuietAt;
    var first, reach := before.registered[0].lo, Reach(before.registered);
    CoveredGrows(before, after, first, reach);
    ReachIsMinute(states, passes, k);
    CoveredByRange(after, first, reach, range);
    assert after.registered[..|before.registered|] == before.registered;
  }

  lemma {:induction false} FirstCursor(states: seq<Sched>, passes: seq<PassRecord>, m: nat) returns (j: nat)
    requires PassRun(states, passes) && m <= |passes| && states[m].cursor.Some?
    ensures j < m && states[j].cursor.None? && states[j + 1].cursor.Some?
  {
    if states[m - 1].cursor.None? {
      j := m - 1;
    } else {
      j := FirstCursor(states, passes, m - 1);
    }
  }

  lemma {:induction false} RegisteredStays(states: seq<Sched>, passes: seq<PassRecord>, a: nat, b: nat)
    requires PassRun(states, passes) && a <= b <= |passes|
    ensures states[a].registered <= states[b].registered
    decreases b - a
  {
    hide Planned, SavedAll, Acceptable;
    if a < b {
      assert PassAt(states, passes, a);
      RegisteredStays(states, passes, a + 1, b);
    }
  }

  lemma NoOrphanCovers(states: seq<Sched>, passes: seq<PassRecord>, m: nat)
    requires PassRun(states, passes) && Quiet(states, passes) && m <= |passes| && states[m].cursor.Some?
    requires forall k :: 0 <= k < m ==> !LeavesOrphan(states, passes, k)
    ensures states[m].registered != []
    ensures Covered(states[m], states[m].registered[0].lo, states[m].cursor.value)
  {
    hide Planned, SavedAll, Covered, Reach, Linked;
    var j := FirstCursor(states, passes, m);
    EveryMinuteRegistered(states, passes, j, m);
    assert PassAt(states, passes, j) && QuietAt(states, passes, j);
    var plan := Planned(None, passes[j].input);
    SavedNothing(None);
    assert passes[j].calls >= 2;
    PlanIsGood(None, passes[j].input);
    RegisteredStays(states, passes, j, m);
    RegisteredStays(states, passes, j + 1, m);
    assert states[j + 1].registered[|states[j].registered|] == plan[0];
    if states[j].registered != [] {
      CoveredToReach(states, passes, j);
      CoveredGrows(states[j], states[m], states[j].registered[0].lo, Reach(states[j].registered));
      ReachIsMinute(states, passes, j);
      assert !LeavesOrphan(states, passes, j);
      Joined(states[m], states[m].registered[0].lo, Reach(states[j].registered), plan[0].lo, states[m].cursor.value);
    }
  }

  lemma Joined(state: Sched, from: int, middle: int, again: int, through: int)
    requires Covered(state, from, middle) && Covered(state, again, through) && again <= middle + MINUTE_MS
    requires middle % MINUTE_MS == 0
    ensures Covered(state, from, through)
  {
  }

  // ----- an orphan is never reached again -----

  predicate Apart(base: int, reach: int, range: Range) { range.hi <= reach || range.lo >= base }

  lemma PlanBeyond(cursor: Option<int>, input: Input, base: int)
    requires Minutely(input) && Fits(cursor) && (cursor.Some? ==> cursor.value >= base)
    requires StartOf(input) >= base && (input.DailyInput? ==> base % DAY_MS == 0)
    ensures PlanFrom(cursor, input) >= base
  {
    if input.DailyInput? && cursor.Some? { FloorDay(cursor.value + MINUTE_MS); }
  }

  lemma {:induction false} OrphanStays(states: seq<Sched>, passes: seq<PassRecord>, k: nat, m: nat)
    requires PassRun(states, passes) && Quiet(states, passes) && Forward(passes) && k < m <= |passes|
    requires LeavesOrphan(states, passes, k)
    ensures forall r :: r in states[m].registered ==> Apart(StartOf(passes[k].input), Reach(states[k].registered), r)
    ensures states[m].cursor.Some? ==> states[m].cursor.value >= StartOf(passes[k].input)
    decreases m
  {
    hide Planned, SavedAll, Linked, Acceptable, PlanFrom, Reach;
    var before, input, calls := states[m - 1], passes[m - 1].input, passes[m - 1].calls;
    var base := StartOf(passes[k].input);
    assert PassAt(states, passes, k) && PassAt(states, passes, m - 1) && QuietAt(states, passes, m - 1);
    var plan := Planned(before.cursor, input);
    CursorsFit(states, passes, m - 1);
    PlanIsGood(before.cursor, input);
    if k < m - 1 {
      OrphanStays(states, passes, k, m - 1);
    } else {
      ReachIsLargest(before.registered);
    }
    PlanBeyond(before.cursor, input, base);
    SavedBeyond(states, passes, m - 1, base);
  }

  lemma SavedBeyond(states: seq<Sched>, passes: seq<PassRecord>, k: nat, base: int)
    requires PassRun(states, passes) && k < |passes|
    requires forall r :: r in Planned(states[k].cursor, passes[k].input) ==> r.lo >= base
    requires states[k].cursor.Some? ==> states[k].cursor.value >= base
    ensures states[k + 1].cursor.Some? ==> states[k + 1].cursor.value >= base
  {
    hide Planned, SavedAll;
    assert PassAt(states, passes, k);
    SavedGrows(states[k].cursor, Planned(states[k].cursor, passes[k].input)[..passes[k].calls / 2]);
  }

  /** When passes alone register, and later passes lie later, every minute from the first one ever
      registered through the cursor is registered if and only if no pass that finds no cursor
      starts beyond the minutes that earlier passes registered before they were cut off. */
  lemma CoveredExactly(states: seq<Sched>, passes: seq<PassRecord>, m: nat)
    requires PassRun(states, passes) && Quiet(states, passes) && Forward(passes)
    requires m <= |passes| && states[m].cursor.Some?
    ensures states[m].registered != []
    ensures Covered(states[m], states[m].registered[0].lo, states[m].cursor.value)
       <==> forall k :: 0 <= k < m ==> !LeavesOrphan(states, passes, k)
  {
    hide Planned, SavedAll, Covered, Reach, LeavesOrphan, PassAt, QuietAt;
    if k :| 0 <= k < m && LeavesOrphan(states, passes, k) {
      OrphanUncovered(states, passes, k, m);
    } else {
      NoOrphanCovers(states, passes, m);
    }
  }

  lemma OrphanUncovered(states: seq<Sched>, passes: seq<PassRecord>, k: nat, m: nat)
    requires PassRun(states, passes) && Quiet(states, passes) && Forward(passes)
    requires k < m <= |passes| && states[m].cursor.Some? && LeavesOrphan(states, passes, k)
    ensures states[m].registered != []
    ensures !Covered(states[m], states[m].registered[0].lo, states[m].cursor.value)
  {
    hide Planned, SavedAll, Reach, PassAt, QuietAt;
    OrphanStays(states, passes, k, m);
    RegisteredStays(states, passes, k, m);
    ReachIsMinute(states, passes, k);
    var hole := Reach(states[k].registered) + MINUTE_MS;
    assert states[m].registered[0] == states[k].registered[0];
    assert hole % MINUTE_MS == 0 && hole < StartOf(passes[k].input);
    assert !Registered(states[m], hole);
  }

  /** Such a run exists: the first daily pass is cut off between its registration and its cursor,
      and the next one comes two days later. */
  lemma OrphanExample() returns (states: seq<Sched>, passes: seq<PassRecord>)
    ensures PassRun(states, passes) && Quiet(states, passes) && Forward(passes) && |passes| == 2
    ensures states[2].registered != [] && states[2].cursor.Some?
    ensures !Covered(states[2], states[2].registered[0].lo, states[2].cursor.value)
  {
    hide Covered;
    var first, second := DailyInput(10 * DAY_MS, 4 * DAY_MS), DailyInput(12 * DAY_MS, 6 * DAY_MS);
    var a, b := Range(10 * DAY_MS, 11 * DAY_MS - MINUTE_MS), Range(12 * DAY_MS, 13 * DAY_MS - MINUTE_MS);
    passes := [PassRecord(first, 1), PassRecord(second, 2)];
    states := [NOTHING, Sched([a], None), Sched([a, b], Some(b.hi))];
    assert Planned(None, first) == [a] by { assert DayRanges(11 * DAY_MS, 10 * DAY_MS) == []; }
    assert Planned(None, second) == [b] by { assert DayRanges(13 * DAY_MS, 12 * DAY_MS) == []; }
    assert SavedAll(None, [b]) == Saved(SavedAll(None, [b][..0]), b.hi) == Some(b.hi) by { SavedNothing(None); }
    assert PassAt(states, passes, 0) && QuietAt(states, passes, 0) by { assert [a][..1] == [a]; SavedNothing(None); }
    assert PassAt(states, passes, 1) && QuietAt(states, passes, 1) by { assert [b][..1] == [b]; }
    assert LeavesOrphan(states, passes, 1);
    OrphanUncovered(states, passes, 1, 2);
  }
}
