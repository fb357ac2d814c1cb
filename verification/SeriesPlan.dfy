/** The whole plan of one series: what is missing before its first candle, inside it and after its
    last one, or everything where it has no candle at all. */
module SeriesPlan {
  import opened Calendar
  import opened Timeframe
  import opened BucketCounting
  import opened Collections
  import opened TimeAudit
  import opened GapAuditor
  import opened GapTargets
  import opened GapPlan
  import opened GapPipeline
  import Cascade

  /** What the planner is told about a series besides its audit.  Times that are not known are 0. */
  datatype Options = Options(allowed: bool, leading: bool, tail: bool, noData: bool, listedAt: int, lowerStart: int, retained: int,
                             latest: int, asOf: int)

  predicate KnownOrZero(o: Options, tf: Frame) {
    && (o.listedAt == 0 || o.listedAt >= EPOCH_MONDAY) && (o.lowerStart == 0 || o.lowerStart >= EPOCH_MONDAY)
    && (o.retained == 0 || (o.retained > 0 && Aligned(o.retained, tf)))
  }

  predicate FiguresAligned(audit: SeriesAudit, tf: Frame) {
    audit.canonical > 0 ==> Aligned(audit.firstCanonical, tf) && Aligned(audit.lastCanonical, tf)
  }

  /** The first start that is planned at all. */
  function Minimum(exchange: string, tf: Frame, o: Options): int {
    if o.listedAt > 0 && HistoryBoundary(o.listedAt, exchange, tf) > o.retained then HistoryBoundary(o.listedAt, exchange, tf)
    else o.retained
  }

  predicate LatestClosed(o: Options, tf: Frame) { o.latest > 0 && Aligned(o.latest, tf) && EndMS(o.latest, tf) < o.asOf }

  predicate WantsLeading(audit: SeriesAudit, o: Options) {
    o.leading && o.listedAt > 0 && audit.canonical > 0 && audit.firstCanonical > 0
  }

  function LeadingEnd(audit: SeriesAudit, tf: Frame, o: Options): int {
    if PreviousStart(audit.firstCanonical, tf) > o.latest then o.latest else PreviousStart(audit.firstCanonical, tf)
  }

  /** Where the starts after the last candle begin, or all starts of a series without candles. */
  function OuterFirst(exchange: string, tf: Frame, audit: SeriesAudit, o: Options): Option<int> {
    if o.noData && audit.canonical == 0 then
      var from := if o.listedAt != 0 then o.listedAt else o.lowerStart;
      if from == 0 then None else Some(HistoryBoundary(from, exchange, tf))
    else if o.tail && audit.canonical > 0 && audit.lastCanonical > 0 && audit.lastCanonical < o.latest then
      Some(NextStart(audit.lastCanonical, tf))
    else None
  }

  // ----- stepping from one start to the next -----

  lemma StepsForward(start: int, tf: Frame)
    ensures start < NextStart(start, tf)
  {
    hide FirstOfMonth, MonthIndexOf;
    if PeriodOf(tf).Months? {
      var month := MonthIndexOf(Day(start));
      MonthsIncrease(month, month + PeriodOf(tf).n);
    }
  }

  function Steps(first: int, last: int, tf: Frame): seq<int>
    decreases last - first
  {
    if first > last then []
    else
      StepsForward(first, tf);
      [first] + Steps(NextStart(first, tf), last, tf)
  }

  function From(first: int, minimum: int): int { if first < minimum then minimum else first }

  /** Stepping from an aligned start visits exactly the aligned starts of the range, in order. */
  lemma {:induction false} StepsAreStarts(first: int, last: int, tf: Frame)
    requires Aligned(first, tf)
    ensures OnGrid(Steps(first, last, tf), tf)
    ensures forall t :: t in Steps(first, last, tf) <==> first <= t <= last && Aligned(t, tf)
    decreases last - first
  {
    hide Aligned, NextStart, Boundary, BucketIndex, OnGrid;
    if first <= last {
      StepsForward(first, tf);
      var next := NextStart(first, tf);
      AlignedNeighbours(first, tf);
      StepsAreStarts(next, last, tf);
      var rest := Steps(next, last, tf);
      assert Steps(first, last, tf) == [first] + rest;
      forall t | Aligned(t, tf) ensures t > first <==> t >= next { BeforeNext(first, t, tf); }
      OneInFront(first, rest, tf);
    } else {
      NothingOnGrid(tf);
    }
  }

  lemma OneInFront(first: int, rest: seq<int>, tf: Frame)
    requires Aligned(first, tf) && OnGrid(rest, tf) && forall t :: t in rest ==> first < t
    ensures OnGrid([first] + rest, tf)
  {
    hide Aligned;
    forall k | 0 <= k < |rest| ensures first < rest[k] { assert rest[k] in rest; }
  }

  lemma NothingOnGrid(tf: Frame)
    ensures OnGrid([], tf)
  {
  }

  /** Adds the starts of first..last while there is room. */
  method AddSteps(first: int, last: int, minimum: int, tf: Frame, room: int) returns (starts: Option<seq<int>>)
    requires room >= 0
    ensures starts.Some? <==> |Steps(From(first, minimum), last, tf)| <= room
    ensures starts.Some? ==> starts.value == Steps(From(first, minimum), last, tf)
  {
    hide NextStart, Steps, From;
    var cursor := From(first, minimum);
    var found: seq<int> := [];
    while cursor <= last
      invariant found + Steps(cursor, last, tf) == Steps(From(first, minimum), last, tf) && |found| <= room
      decreases last - cursor
    {
      StepsForward(cursor, tf);
      OneStep(found, cursor, last, tf);
      if |found| + 1 > room {
        return None;
      }
      found := found + [cursor];
      cursor := NextStart(cursor, tf);
    }
    NoStep(cursor, last, tf);
    starts := Some(found);
  }

  lemma OneStep(found: seq<int>, cursor: int, last: int, tf: Frame)
    requires cursor <= last
    ensures found + Steps(cursor, last, tf) == (found + [cursor]) + Steps(NextStart(cursor, tf), last, tf)
  {
    hide NextStart;
  }

  lemma NoStep(cursor: int, last: int, tf: Frame)
    requires cursor > last
    ensures Steps(cursor, last, tf) == []
  {
  }

  // ----- boundaries are aligned -----

  lemma OriginAligned(tf: Frame)
    ensures Aligned(Origin(tf), tf)
  {
    hide FirstOfMonth;
    EpochMonth();
    var n := PeriodOf(tf).n;
    if PeriodOf(tf).Months? {
      assert (12 * 1970 / n) * n == 12 * 1970;
      assert Boundary(tf, 12 * 1970 / n) == 0;
      BoundaryAligned(tf, 12 * 1970 / n);
    } else {
      assert Boundary(tf, 0) == Origin(tf);
      BoundaryAligned(tf, 0);
    }
  }

  lemma BoundaryIsAligned(listedAt: int, exchange: string, tf: Frame)
    requires listedAt >= EPOCH_MONDAY
    ensures Aligned(HistoryBoundary(listedAt, exchange, tf), tf) && HistoryBoundary(listedAt, exchange, tf) >= 0
  {
    hide Aligned, FloorStart, NextStart, PreviousStart, Boundary, BucketIndex;
    var floor := FloorStart(listedAt, tf);
    Tiling(listedAt, tf);
    OriginAligned(tf);
    if floor < Origin(tf) {
      BeforeNext(floor, Origin(tf), tf);
    }
  }

  lemma OuterAligned(exchange: string, tf: Frame, audit: SeriesAudit, o: Options)
    requires KnownOrZero(o, tf) && FiguresAligned(audit, tf) && OuterFirst(exchange, tf, audit, o).Some?
    ensures Aligned(From(OuterFirst(exchange, tf, audit, o).value, Minimum(exchange, tf, o)), tf)
  {
    hide Aligned, NextStart, HistoryBoundary;
    if o.listedAt != 0 { BoundaryIsAligned(o.listedAt, exchange, tf); }
    if o.lowerStart != 0 { BoundaryIsAligned(o.lowerStart, exchange, tf); }
    if audit.canonical > 0 {
      AlignedNeighbours(audit.lastCanonical, tf);
      StepsForward(audit.lastCanonical, tf);
    }
  }

  // ----- the plan -----

  ghost function LeadingStarts(exchange: string, tf: Frame, audit: SeriesAudit, o: Options): seq<int> {
    if WantsLeading(audit, o) then
      Steps(From(HistoryBoundary(o.listedAt, exchange, tf), Minimum(exchange, tf, o)), LeadingEnd(audit, tf, o), tf)
    else []
  }

  ghost function OuterStarts(exchange: string, tf: Frame, audit: SeriesAudit, o: Options): seq<int> {
    var first := OuterFirst(exchange, tf, audit, o);
    if first.Some? then Steps(From(first.value, Minimum(exchange, tf, o)), o.latest, tf) else []
  }

  ghost predicate Plannable(exchange: string, tf: Frame, audit: SeriesAudit, reported: Option<int>, o: Options, room: int) {
    && AllValid(audit.gaps, tf) && (reported.Some? ==> reported.value == |AllStarts(audit.gaps, tf)|)
    && (WantsLeading(audit, o) || OuterFirst(exchange, tf, audit, o).Some? ==> LatestClosed(o, tf))
    && |Kept(AllStarts(audit.gaps, tf), Minimum(exchange, tf, o))| + |LeadingStarts(exchange, tf, audit, o)|
       + |OuterStarts(exchange, tf, audit, o)| <= room
  }

  datatype SeriesTasks = SeriesTasks(leading: seq<Task>, internal: seq<Task>, outer: seq<Task>)

  /** A list of starts is cut into the tasks. */
  ghost predicate CutInto(exchange: string, symbol: string, tf: Frame, starts: seq<int>, tasks: seq<Task>) {
    Chunked(exchange, NormalSymbol(symbol), tf, tasks, starts, [])
  }

  /** The internal starts that are planned, in order. */
  ghost predicate Internal(audit: SeriesAudit, tf: Frame, minimum: int, starts: seq<int>) {
    Increasing(starts) && forall t :: t in starts <==> t in AllStarts(audit.gaps, tf) && t >= minimum
  }

  lemma AsManyKept(audit: SeriesAudit, tf: Frame, minimum: int, starts: seq<int>)
    requires Internal(audit, tf, minimum, starts)
    ensures |starts| == |Kept(AllStarts(audit.gaps, tf), minimum)|
  {
    hide AllStarts;
    IncreasingSize(starts);
    assert Members(starts) == Kept(AllStarts(audit.gaps, tf), minimum);
  }

  /** The starts before the first candle. */
  method PlanLeading(exchange: string, tf: Frame, audit: SeriesAudit, o: Options, room: int) returns (starts: Option<seq<int>>)
    requires room >= 0
    ensures starts.Some? <==> (WantsLeading(audit, o) ==> LatestClosed(o, tf)) && |LeadingStarts(exchange, tf, audit, o)| <= room
    ensures starts.Some? ==> starts.value == LeadingStarts(exchange, tf, audit, o)
  {
    hide Aligned, Steps, HistoryBoundary, PreviousStart, EndMS;
    if !WantsLeading(audit, o) {
      return Some([]);
    }
    if !LatestClosed(o, tf) {
      return None;
    }
    starts := AddSteps(HistoryBoundary(o.listedAt, exchange, tf), LeadingEnd(audit, tf, o), Minimum(exchange, tf, o), tf, room);
  }

  /** The starts after the last candle, or all of a series without candles. */
  method PlanOuter(exchange: string, tf: Frame, audit: SeriesAudit, o: Options, room: int) returns (starts: Option<seq<int>>)
    requires room >= 0
    ensures starts.Some? <==>
              && (OuterFirst(exchange, tf, audit, o).Some? ==> LatestClosed(o, tf))
              && |OuterStarts(exchange, tf, audit, o)| <= room
    ensures starts.Some? ==> starts.value == OuterStarts(exchange, tf, audit, o)
  {
    hide Aligned, Steps, HistoryBoundary, NextStart, EndMS;
    var first := OuterFirst(exchange, tf, audit, o);
    if first.None? {
      return Some([]);
    }
    if !LatestClosed(o, tf) {
      return None;
    }
    starts := AddSteps(first.value, o.latest, Minimum(exchange, tf, o), tf, room);
  }

  /** Plans one audited series.  It fails exactly for an unknown exchange, an interval below fifteen
      minutes, an empty symbol, a report that contradicts itself, an unfinished end or too many
      targets; a series that must not be repaired is skipped. */
  method PlanSeriesTasks(exchange: string, symbol: string, tf: Frame, audit: SeriesAudit, reported: Option<int>, o: Options, room: nat)
    returns (plan: Option<SeriesTasks>, missing: seq<int>)
    requires KnownOrZero(o, tf) && FiguresAligned(audit, tf)
    ensures plan.Some? <==>
              && Supported(exchange) && Rank(tf) >= Rank(M15) && NormalSymbol(symbol) != ""
              && (Cascade.Enabled(tf) && o.allowed ==> Plannable(exchange, tf, audit, reported, o, room))
    ensures plan.Some? && !(Cascade.Enabled(tf) && o.allowed) ==> plan.value == SeriesTasks([], [], [])
    ensures plan.Some? && Cascade.Enabled(tf) && o.allowed ==>
              && Internal(audit, tf, Minimum(exchange, tf, o), missing)
              && CutInto(exchange, symbol, tf, LeadingStarts(exchange, tf, audit, o), plan.value.leading)
              && CutInto(exchange, symbol, tf, missing, plan.value.internal)
              && CutInto(exchange, symbol, tf, OuterStarts(exchange, tf, audit, o), plan.value.outer)
  {
    hide Aligned, Chunked, AllStarts, AllValid, HistoryBoundary, NextStart, PreviousStart, EndMS, NormalSymbol, Kept, RoundsDown,
         LeadingStarts, OuterStarts, OuterFirst, WantsLeading, LatestClosed, Minimum, OnGrid;
    missing := [];
    if !Supported(exchange) || Rank(tf) < Rank(M15) || NormalSymbol(symbol) == "" {
      return None, missing;
    }
    if !Cascade.Enabled(tf) || !o.allowed {
      return Some(SeriesTasks([], [], [])), missing;
    }
    var name, minimum := NormalSymbol(symbol), Minimum(exchange, tf, o);
    var internal;
    internal, missing := PlanGaps(exchange, name, tf, audit.gaps, minimum, reported, room);
    if internal.None? {
      return None, missing;
    }
    AsManyKept(audit, tf, minimum, missing);
    var rest := room - |missing|;
    var leading := PlanLeading(exchange, tf, audit, o, rest);
    if leading.None? {
      return None, missing;
    }
    var outer := PlanOuter(exchange, tf, audit, o, rest - |leading.value|);
    if outer.None? {
      return None, missing;
    }
    LeadingOnGrid(exchange, tf, audit, o);
    OuterOnGrid(exchange, tf, audit, o);
    var leadingTasks := ChunkTargets(exchange, name, tf, leading.value);
    var outerTasks := ChunkTargets(exchange, name, tf, outer.value);
    plan := Some(SeriesTasks(leadingTasks, internal.value, outerTasks));
  }

  lemma LeadingOnGrid(exchange: string, tf: Frame, audit: SeriesAudit, o: Options)
    requires KnownOrZero(o, tf)
    ensures OnGrid(LeadingStarts(exchange, tf, audit, o), tf)
    ensures WantsLeading(audit, o) ==>
              forall t :: t in LeadingStarts(exchange, tf, audit, o) <==>
                Minimum(exchange, tf, o) <= t <= LeadingEnd(audit, tf, o) && Aligned(t, tf)
  {
    hide Aligned, HistoryBoundary, Steps, LeadingEnd;
    if WantsLeading(audit, o) {
      BoundaryIsAligned(o.listedAt, exchange, tf);
      StepsAreStarts(Minimum(exchange, tf, o), LeadingEnd(audit, tf, o), tf);
    }
  }

  lemma OuterOnGrid(exchange: string, tf: Frame, audit: SeriesAudit, o: Options)
    requires KnownOrZero(o, tf) && FiguresAligned(audit, tf)
    ensures OnGrid(OuterStarts(exchange, tf, audit, o), tf)
    ensures OuterFirst(exchange, tf, audit, o).Some? ==>
              forall t :: t in OuterStarts(exchange, tf, audit, o) <==>
                From(OuterFirst(exchange, tf, audit, o).value, Minimum(exchange, tf, o)) <= t <= o.latest && Aligned(t, tf)
  {
    hide Aligned, HistoryBoundary, Steps, OuterFirst, Minimum, From;
    var first := OuterFirst(exchange, tf, audit, o);
    if first.Some? {
      OuterAligned(exchange, tf, audit, o);
      StepsAreStarts(From(first.value, Minimum(exchange, tf, o)), o.latest, tf);
    }
  }

  // ----- what the plan covers -----

  /** With its leading and tail targets, the plan of a series with candles leaves nothing out: from
      the first plannable start to the latest finished one, each start that has no candle is in
      exactly one of the three lists, and nothing else is in any. */
  lemma EverythingIsPlanned(audit: SeriesAudit, rows: seq<Row>, exchange: string, tf: Frame, o: Options, missing: seq<int>, t: int)
    requires Audits(audit, rows, tf) && Ordered(rows) && audit.canonical > 0 && audit.lastCanonical <= o.latest
    requires forall gap :: gap in audit.gaps ==> gap.count <= MAX_TARGETS
    requires KnownOrZero(o, tf) && o.listedAt > 0 && o.leading && o.tail && LatestClosed(o, tf)
    requires Internal(audit, tf, Minimum(exchange, tf, o), missing) && Aligned(t, tf) && t > 0
    ensures var leading, outer := LeadingStarts(exchange, tf, audit, o), OuterStarts(exchange, tf, audit, o);
            && (t in leading || t in missing || t in outer <==> Minimum(exchange, tf, o) <= t <= o.latest && !HasStart(rows, t))
            && !(t in leading && t in missing) && !(t in leading && t in outer) && !(t in missing && t in outer)
  {
    hide Aligned, HistoryBoundary, Steps, NextStart, PreviousStart, EndMS, Audits, HasStart, AllStarts, Ordered, Minimum,
         LeadingStarts, OuterStarts;
    AuditIsPlannable(audit, rows, tf);
    CanonicalEnds(audit, rows, tf);
    LeadingOnGrid(exchange, tf, audit, o);
    OuterOnGrid(exchange, tf, audit, o);
    BeforeFirst(audit.firstCanonical, t, tf);
    BeforeNext(audit.lastCanonical, t, tf);
    if !OuterFirst(exchange, tf, audit, o).Some? {
      NoOuter(exchange, tf, audit, o);
    }
  }

  lemma NoOuter(exchange: string, tf: Frame, audit: SeriesAudit, o: Options)
    requires OuterFirst(exchange, tf, audit, o).None?
    ensures OuterStarts(exchange, tf, audit, o) == []
  {
  }

  lemma BeforeFirst(first: int, t: int, tf: Frame)
    requires Aligned(first, tf) && Aligned(t, tf)
    ensures t < first <==> t <= PreviousStart(first, tf)
  {
    hide Aligned, Boundary, BucketIndex, NextStart, PreviousStart, EndMS;
    AlignedNeighbours(first, tf);
    AlignedOrder(t, first, tf);
    AlignedOrder(PreviousStart(first, tf), t, tf);
  }

  /** The candles of an audited series lie between its first and its last canonical start. */
  lemma CanonicalEnds(audit: SeriesAudit, rows: seq<Row>, tf: Frame)
    requires Audits(audit, rows, tf) && Ordered(rows) && audit.canonical > 0
    ensures 0 < audit.firstCanonical <= audit.lastCanonical
    ensures Aligned(audit.firstCanonical, tf) && Aligned(audit.lastCanonical, tf)
    ensures HasStart(rows, audit.firstCanonical) && HasStart(rows, audit.lastCanonical)
    ensures forall t :: t > 0 && Aligned(t, tf) && HasStart(rows, t) ==> audit.firstCanonical <= t <= audit.lastCanonical
  {
    hide Aligned, CountOf, WrongEnds, Starts, GapsOf, Missing, HasStart;
    StartsOfRows(rows, tf);
    var starts := Starts(rows, tf);
    CanonicalsPrefix(starts, 0, tf);
    assert starts[0] in starts && starts[|starts| - 1] in starts;
    forall t | t > 0 && Aligned(t, tf) && HasStart(rows, t) ensures audit.firstCanonical <= t <= audit.lastCanonical {
      var i :| 0 <= i < |starts| && starts[i] == t;
    }
  }

  /** Every planned task is accepted by the executor once its targets have ended. */
  lemma PlannedTasksAreValid(exchange: string, symbol: string, tf: Frame, audit: SeriesAudit, o: Options, plan: SeriesTasks, now: int)
    requires KnownOrZero(o, tf) && FiguresAligned(audit, tf) && Minimum(exchange, tf, o) > 0
    requires WantsLeading(audit, o) || OuterFirst(exchange, tf, audit, o).Some? ==> LatestClosed(o, tf)
    requires Supported(exchange) && Cascade.Enabled(tf) && Rank(tf) >= Rank(M15) && NormalSymbol(symbol) != "" && now >= o.asOf
    requires CutInto(exchange, symbol, tf, LeadingStarts(exchange, tf, audit, o), plan.leading)
    requires CutInto(exchange, symbol, tf, OuterStarts(exchange, tf, audit, o), plan.outer)
    ensures forall task :: task in plan.leading || task in plan.outer ==> ValidTask(task, now)
  {
    hide Aligned, HistoryBoundary, Steps, NextStart, PreviousStart, EndMS, NormalSymbol, ValidTask, Chunked, OuterFirst, Minimum;
    NormalIsNormal(symbol);
    LeadingOnGrid(exchange, tf, audit, o);
    OuterOnGrid(exchange, tf, audit, o);
    if WantsLeading(audit, o) {
      TasksAreValid(exchange, NormalSymbol(symbol), tf, plan.leading, LeadingStarts(exchange, tf, audit, o), o.latest, now);
    } else {
      NoTasks(exchange, NormalSymbol(symbol), tf, plan.leading);
    }
    if OuterFirst(exchange, tf, audit, o).Some? {
      TasksAreValid(exchange, NormalSymbol(symbol), tf, plan.outer, OuterStarts(exchange, tf, audit, o), o.latest, now);
    } else {
      NoTasks(exchange, NormalSymbol(symbol), tf, plan.outer);
    }
  }

  lemma SomeStarts(exchange: string, symbol: string, tf: Frame, tasks: seq<Task>, starts: seq<int>)
    requires Chunked(exchange, symbol, tf, tasks, starts, []) && tasks != []
    ensures starts != []
  {
    assert tasks[|tasks| - 1] in tasks;
  }

  lemma NoTasks(exchange: string, symbol: string, tf: Frame, tasks: seq<Task>)
    requires Chunked(exchange, symbol, tf, tasks, [], [])
    ensures tasks == []
  {
    hide Chunked;
    if tasks != [] { SomeStarts(exchange, symbol, tf, tasks, []); }
  }
}
