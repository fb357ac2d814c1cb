/** Auditor, planner and executor fit together: what one stage hands on, the next accepts. */
module GapPipeline {
  import opened Timeframe
  import opened BucketCounting
  import opened TimeAudit
  import opened GapAuditor
  import opened GapTargets
  import opened GapPlan
  import opened Collections
  import Cascade

  // ----- the auditor's gaps are what the planner expects -----

  lemma {:induction false} RangeSize(first: int, n: nat, tf: Frame)
    requires Aligned(first, tf)
    ensures var end := Boundary(tf, BucketIndex(tf, first) + n);
            Aligned(end, tf) && first <= end && BucketIndex(tf, end) == BucketIndex(tf, first) + n
            && |RangeStarts(first, end, tf)| == n
  {
    hide Aligned, Boundary, BucketIndex, RangeStarts;
    var k := BucketIndex(tf, first);
    AlignedIsBoundary(first, tf);
    BoundaryAligned(tf, k + n);
    BoundaryIndex(tf, k + n);
    BoundariesBetween(tf, k, n);
  }

  lemma {:induction false} BoundariesBetween(tf: Frame, k: int, n: nat)
    ensures Boundary(tf, k) <= Boundary(tf, k + n) && |RangeStarts(Boundary(tf, k), Boundary(tf, k + n), tf)| == n
  {
    hide Aligned, Boundary, BucketIndex, NextStart, PreviousStart, EndMS;
    if n == 0 {
      assert RangeStarts(Boundary(tf, k), Boundary(tf, k), tf) == {};
    } else {
      hide RangeStarts;
      var last := Boundary(tf, k + n - 1);
      BoundariesBetween(tf, k, n - 1);
      NextOfBoundary(tf, k + n - 1);
      BoundaryAligned(tf, k + n - 1);
      RangeGrows(Boundary(tf, k), last, tf);
      StartsBefore(Boundary(tf, k), last, tf);
      OneMember(RangeStarts(Boundary(tf, k), last, tf), last);
    }
  }

  lemma StartsBefore(first: int, end: int, tf: Frame)
    ensures end !in RangeStarts(first, end, tf)
  {
  }

  lemma OneMember(starts: set<int>, t: int)
    requires t !in starts
    ensures |starts + {t}| == |starts| + 1
  {
  }

  /** There are as many aligned starts in first..last as the closed form says. */
  lemma AsManyStarts(first: int, last: int, tf: Frame)
    requires Aligned(first, tf) && Aligned(last, tf) && first <= last
    ensures |RangeStarts(first, last + 1, tf)| == BucketCount(first, last, tf)
  {
    hide Aligned, Boundary, BucketIndex, NextStart, BucketCount;
    CountIsDistance(first, last, tf);
    AlignedOrder(last, first, tf);
    AlignedNeighbours(last, tf);
    RangeSize(first, BucketIndex(tf, last) - BucketIndex(tf, first) + 1, tf);
    forall t | Aligned(t, tf) ensures t < last + 1 <==> t < NextStart(last, tf) { BeforeNext(last, t, tf); }
    assert RangeStarts(first, last + 1, tf) == RangeStarts(first, NextStart(last, tf), tf);
  }

  function Members(starts: seq<int>): set<int> { set t | t in starts }

  lemma {:induction false} IncreasingSize(starts: seq<int>)
    requires forall i, j :: 0 <= i < j < |starts| ==> starts[i] < starts[j]
    ensures |Members(starts)| == |starts|
  {
    if starts != [] {
      var front, last := starts[..|starts| - 1], starts[|starts| - 1];
      IncreasingSize(front);
      assert Members(starts) == Members(front) + {last};
    }
  }

  lemma {:induction false} StartsInGaps(gaps: seq<Gap>, tf: Frame)
    ensures forall t :: t in AllStarts(gaps, tf) <==> Aligned(t, tf) && InGaps(gaps, t)
  {
    hide Aligned;
    if gaps != [] {
      var front, last := gaps[..|gaps| - 1], gaps[|gaps| - 1];
      StartsInGaps(front, tf);
      assert gaps == front + [last];
      InEither(front, [last]);
      OneGap(last);
    }
  }

  /** The gaps of an audit are exactly what the planner expects: it finds no fault with them, they
      hold exactly the absent starts, and as many as the audit reports. */
  lemma AuditIsPlannable(audit: SeriesAudit, rows: seq<Row>, tf: Frame)
    requires Audits(audit, rows, tf) && Ordered(rows) && audit.canonical > 0
    requires forall gap :: gap in audit.gaps ==> gap.count <= MAX_TARGETS
    ensures AllValid(audit.gaps, tf) && |AllStarts(audit.gaps, tf)| == audit.missing
    ensures forall t :: t in AllStarts(audit.gaps, tf) <==>
              Aligned(t, tf) && audit.firstCanonical <= t <= audit.lastCanonical && !HasStart(rows, t)
  {
    hide Aligned, BucketCount, CountOf, Starts, GapsOf, Missing, HasStart, InGaps, WrongEnds, RightGap, AllStarts, Canonicals;
    AuditIsExact(audit, rows, tf);
    StartsInGaps(audit.gaps, tf);
    StartsOfRows(rows, tf);
    var starts := Starts(rows, tf);
    var a, b := audit.firstCanonical, audit.lastCanonical;
    CanonicalsPrefix(starts, 0, tf);
    AsManyStarts(a, b, tf);
    IncreasingSize(starts);
    AbsentSize(starts, AllStarts(audit.gaps, tf), tf);
    forall gap | gap in audit.gaps ensures ValidGap(gap, tf) {
      RightEnds(gap, tf);
      InGap(audit.gaps, gap, gap.first);
      assert starts[0] in starts;
    }
  }

  lemma RightEnds(gap: Gap, tf: Frame)
    requires RightGap(gap, tf)
    ensures gap.first <= gap.last
  {
    hide Aligned, BucketCount;
  }

  lemma InGap(gaps: seq<Gap>, gap: Gap, t: int)
    requires gap in gaps && gap.first <= t <= gap.last
    ensures InGaps(gaps, t)
  {
  }

  lemma AbsentSize(starts: seq<int>, absent: set<int>, tf: Frame)
    requires Canonicals(starts, tf) && starts != []
    requires forall t :: t in absent ==> Aligned(t, tf) && starts[0] <= t <= starts[|starts| - 1]
    requires forall t :: Aligned(t, tf) && starts[0] <= t <= starts[|starts| - 1] ==> (t in absent <==> t !in starts)
    ensures |absent| + |Members(starts)| == |RangeStarts(starts[0], starts[|starts| - 1] + 1, tf)|
  {
    hide Aligned;
    var range := RangeStarts(starts[0], starts[|starts| - 1] + 1, tf);
    forall t | t in Members(starts) ensures t in range {
      var i :| 0 <= i < |starts| && starts[i] == t;
    }
    assert absent + Members(starts) == range;
    assert absent * Members(starts) == {};
  }

  // ----- the planner's tasks are what the executor accepts -----

  predicate FinishedTarget(task: Task, start: int, now: int) {
    task.start <= start && EndMS(start, task.frame) <= task.end && Aligned(start, task.frame) && EndMS(start, task.frame) < now
  }

  /** The tasks that the executor accepts at `now`. */
  predicate ValidTask(task: Task, now: int) {
    && Supported(task.exchange) && Cascade.Enabled(task.frame) && Rank(task.frame) >= Rank(M15)
    && task.symbol != "" && task.symbol == NormalSymbol(task.symbol)
    && task.source == SourceOf(task.exchange, task.frame)
    && 0 < task.start <= task.end && task.targets != []
    && (forall start :: start in task.targets ==> FinishedTarget(task, start, now))
    && task.start in task.targets && (exists start :: start in task.targets && EndMS(start, task.frame) == task.end)
    && Aligned(task.start, task.source) && TaskSpan(task) <= MaxSourceBars(task.exchange, task.source)
  }

  lemma LastEnds(task: Task, starts: seq<int>, now: int)
    requires Increasing(starts) && starts != [] && forall t :: t in starts <==> t in task.targets
    requires forall start :: start in task.targets ==> FinishedTarget(task, start, now)
    ensures task.start in task.targets <==> starts[0] == task.start
    ensures (exists start :: start in task.targets && EndMS(start, task.frame) == task.end)
       <==> EndMS(starts[|starts| - 1], task.frame) == task.end
  {
    hide Aligned, EndMS;
    assert starts[0] in starts && starts[|starts| - 1] in starts;
    if start :| start in task.targets && EndMS(start, task.frame) == task.end {
      EarlierEnds(start, starts[|starts| - 1], task.frame);
    }
  }

  method ValidateTask(task: Task, now: int) returns (starts: Option<seq<int>>)
    ensures starts.Some? <==> ValidTask(task, now)
    ensures starts.Some? ==> Increasing(starts.value) && forall t :: t in starts.value <==> t in task.targets
  {
    hide Aligned, EndMS, Span, BucketIndex, Boundary, RoundsDown, NormalSymbol;
    if !Supported(task.exchange) || !Cascade.Enabled(task.frame) || Rank(task.frame) < Rank(M15) {
      return None;
    }
    if task.symbol == "" || task.symbol != NormalSymbol(task.symbol) {
      return None;
    }
    if task.source != SourceOf(task.exchange, task.frame) || task.start <= 0 || task.end < task.start || |task.targets| == 0 {
      return None;
    }
    var distinct: set<int> := {};
    for i := 0 to |task.targets|
      invariant forall k :: 0 <= k < i ==> task.targets[k] in distinct
      invariant forall t :: t in distinct ==> t in task.targets && FinishedTarget(task, t, now)
    {
      assert task.targets[i] in task.targets;
      if !FinishedTarget(task, task.targets[i], now) {
        return None;
      }
      distinct := distinct + {task.targets[i]};
    }
    assert forall k :: 0 <= k < |task.targets| ==> task.targets[k] in distinct;
    assert task.targets[0] in distinct;
    var sorted := InOrder(distinct);
    assert forall t :: t in distinct ==> t in sorted;
    assert task.targets[0] in sorted;
    LastEnds(task, sorted, now);
    if task.start != sorted[0] || task.end != EndMS(sorted[|sorted| - 1], task.frame) {
      return None;
    }
    if !Aligned(task.start, task.source) {
      return None;
    }
    var maximum := MaxSourceBars(task.exchange, task.source);
    AlignedIsBoundary(task.start, task.source);
    BoundaryRoundsDown(task.source, BucketIndex(task.source, task.start));
    var span := SourceSpan(task.start, task.end, task.source, maximum);
    if span > maximum {
      return None;
    }
    starts := Some(sorted);
  }

  /** Every planned task passes the executor's validation at any time after its targets ended. */
  lemma PlannedTaskIsValid(exchange: string, symbol: string, tf: Frame, task: Task, now: int)
    requires Supported(exchange) && Cascade.Enabled(tf) && Rank(tf) >= Rank(M15) && symbol != "" && symbol == NormalSymbol(symbol)
    requires Fits(exchange, symbol, tf, task) && Canonicals(task.targets, tf)
    requires EndMS(task.targets[|task.targets| - 1], tf) < now
    ensures ValidTask(task, now)
  {
    hide Aligned, EndMS, TaskSpan, MaxSourceBars, SourceOf, RoundsDown, NormalSymbol;
    var targets := task.targets;
    var last := targets[|targets| - 1];
    CanonicalsPrefix(targets, 0, tf);
    SourceRoundsDown(exchange, tf, task.start);
    EndAfterStart(task.start, last, tf);
    assert targets[0] in targets && last in targets;
    forall start | start in targets ensures FinishedTarget(task, start, now) {
      EarlierEnds(start, last, tf);
    }
  }

  lemma {:induction false} TasksHoldParts(exchange: string, symbol: string, tf: Frame, tasks: seq<Task>, starts: seq<int>, rest: seq<int>)
    requires Chunked(exchange, symbol, tf, tasks, starts, rest) && Canonicals(starts, tf)
    ensures forall task :: task in tasks ==> Canonicals(task.targets, tf) && forall t :: t in task.targets ==> t in starts
  {
    hide Aligned, Full, Fits, Canonicals;
    if tasks != [] {
      var front, last := tasks[..|tasks| - 1], tasks[|tasks| - 1];
      var before := AllTargets(front);
      assert starts == before + last.targets;
      CanonicalsParts(starts, |before|, tf);
      assert starts[..|before|] == before && starts[|before|..] == last.targets;
      assert tasks == front + [last];
      assert Chunked(exchange, symbol, tf, front, before, []);
      TasksHoldParts(exchange, symbol, tf, front, before, []);
    }
  }

  lemma CanonicalsParts(starts: seq<int>, n: nat, tf: Frame)
    requires Canonicals(starts, tf) && n <= |starts|
    ensures Canonicals(starts[..n], tf) && Canonicals(starts[n..], tf)
  {
    hide Aligned;
  }

  /** Plans the internal gaps of one series. */
  method PlanGaps(exchange: string, symbol: string, tf: Frame, gaps: seq<Gap>, minimum: int, reported: Option<int>, room: nat)
    returns (tasks: Option<seq<Task>>, missing: seq<int>)
    requires Supported(exchange) && Cascade.Enabled(tf)
    ensures tasks.Some? <==>
              && AllValid(gaps, tf) && |Kept(AllStarts(gaps, tf), minimum)| <= room
              && (reported.Some? ==> reported.value == |AllStarts(gaps, tf)|)
    ensures tasks.Some? ==> Chunked(exchange, symbol, tf, tasks.value, missing, []) && Increasing(missing)
    ensures tasks.Some? ==> forall t :: t in missing <==> t in AllStarts(gaps, tf) && t >= minimum
  {
    hide Aligned, Chunked, AllStarts, AllValid;
    missing := [];
    var targets := PlanSeries(gaps, tf, minimum, reported, room);
    if targets.None? {
      return None, missing;
    }
    var starts := InOrder(targets.value.kept);
    missing := starts;
    StartsArePositive(gaps, tf);
    var planned := ChunkTargets(exchange, symbol, tf, starts);
    tasks := Some(planned);
  }

  lemma {:induction false} StartsArePositive(gaps: seq<Gap>, tf: Frame)
    requires AllValid(gaps, tf)
    ensures forall t :: t in AllStarts(gaps, tf) ==> t > 0 && Aligned(t, tf)
  {
    hide Aligned, RightGap;
    if gaps != [] {
      assert gaps[|gaps| - 1] in gaps;
      StartsArePositive(gaps[..|gaps| - 1], tf);
    }
  }

  /** The stages compose: planning an audited series with its own figures succeeds within the cap;
      the targets of the tasks are, in order and each once, the absent starts from the boundary on;
      and each task passes validation at any time after the series' last candle ended. */
  lemma AuditPlanExecute(audit: SeriesAudit, rows: seq<Row>, exchange: string, symbol: string, tf: Frame, minimum: int,
                         tasks: seq<Task>, missing: seq<int>, now: int)
    requires Audits(audit, rows, tf) && Ordered(rows) && audit.canonical > 0
    requires forall gap :: gap in audit.gaps ==> gap.count <= MAX_TARGETS
    requires Supported(exchange) && Cascade.Enabled(tf) && Rank(tf) >= Rank(M15) && symbol != "" && symbol == NormalSymbol(symbol)
    requires Chunked(exchange, symbol, tf, tasks, missing, []) && Increasing(missing)
    requires forall t :: t in missing <==> t in AllStarts(audit.gaps, tf) && t >= minimum
    requires EndMS(audit.lastCanonical, tf) < now
    ensures AllTargets(tasks) == missing
    ensures forall t :: t in missing <==>
              Aligned(t, tf) && audit.firstCanonical <= t <= audit.lastCanonical && !HasStart(rows, t) && t >= minimum
    ensures forall task :: task in tasks ==> ValidTask(task, now)
  {
    hide Aligned, EndMS, Audits, HasStart, AllStarts, Full, Fits, ValidTask, Ordered, NormalSymbol;
    AuditIsPlannable(audit, rows, tf);
    StartsArePositive(audit.gaps, tf);
    LastIsAligned(audit, rows, tf);
    TasksAreValid(exchange, symbol, tf, tasks, missing, audit.lastCanonical, now);
  }

  /** Tasks cut from finished starts are accepted. */
  lemma TasksAreValid(exchange: string, symbol: string, tf: Frame, tasks: seq<Task>, starts: seq<int>, latest: int, now: int)
    requires Supported(exchange) && Cascade.Enabled(tf) && Rank(tf) >= Rank(M15) && symbol != "" && symbol == NormalSymbol(symbol)
    requires Chunked(exchange, symbol, tf, tasks, starts, []) && Canonicals(starts, tf)
    requires (forall t :: t in starts ==> t <= latest) && Aligned(latest, tf) && EndMS(latest, tf) < now
    ensures forall task :: task in tasks ==> ValidTask(task, now)
  {
    hide Aligned, EndMS, Full, Fits, ValidTask, NormalSymbol;
    TasksHoldParts(exchange, symbol, tf, tasks, starts, []);
    forall task | task in tasks ensures ValidTask(task, now) {
      HasTargets(exchange, symbol, tf, task);
      var last := task.targets[|task.targets| - 1];
      assert last in task.targets && last in starts;
      EarlierEnds(last, latest, tf);
      PlannedTaskIsValid(exchange, symbol, tf, task, now);
    }
  }

  lemma HasTargets(exchange: string, symbol: string, tf: Frame, task: Task)
    requires Fits(exchange, symbol, tf, task)
    ensures task.targets != []
  {
  }

  lemma LastIsAligned(audit: SeriesAudit, rows: seq<Row>, tf: Frame)
    requires Audits(audit, rows, tf) && Ordered(rows) && audit.canonical > 0
    ensures Aligned(audit.lastCanonical, tf)
  {
    hide Aligned, CountOf, WrongEnds, Starts, GapsOf, Missing;
    StartsOfRows(rows, tf);
    CanonicalsPrefix(Starts(rows, tf), 0, tf);
  }

  // ----- the boundary from which a series can be repaired -----

  function CeilStart(ms: int, tf: Frame): int {
    var floor := FloorStart(ms, tf);
    if floor < ms then NextStart(floor, tf) else floor
  }

  /** A bucket that the exchange itself offers may begin before the listing; one that is built
      from smaller candles may not. */
  function HistoryBoundary(listedAt: int, exchange: string, tf: Frame): int {
    if SourceOf(exchange, tf) == tf then FloorStart(listedAt, tf) else CeilStart(listedAt, tf)
  }

  lemma BoundaryIsFirst(listedAt: int, exchange: string, tf: Frame)
    requires listedAt >= EPOCH_MONDAY
    ensures var first := HistoryBoundary(listedAt, exchange, tf);
            && Aligned(first, tf)
            && forall t :: Aligned(t, tf) ==>
                 (t >= first <==> if SourceOf(exchange, tf) == tf then EndMS(t, tf) >= listedAt else t >= listedAt)
  {
    hide Aligned, EndMS, FloorStart, NextStart, PreviousStart, BucketIndex, Boundary;
    Tiling(listedAt, tf);
    var floor := FloorStart(listedAt, tf);
    AlignedNeighbours(floor, tf);
    forall t | Aligned(t, tf)
      ensures t >= floor <==> EndMS(t, tf) >= listedAt
      ensures t > floor <==> t >= NextStart(floor, tf)
      ensures t > floor ==> t >= listedAt
    {
      AlignedNeighbours(t, tf);
      AlignedOrder(t, floor, tf);
      AlignedOrder(floor, t, tf);
      AlignedOrder(NextStart(floor, tf), NextStart(t, tf), tf);
      AlignedOrder(NextStart(t, tf), floor, tf);
      AlignedOrder(NextStart(floor, tf), t, tf);
      AlignedOrder(t, NextStart(floor, tf), tf);
      AlignedOrder(floor, NextStart(t, tf), tf);
    }
  }
}
