/** The repair planner: from the auditor's gaps to bounded repair tasks. */
module GapPlan {
  import opened Calendar
  import opened Timeframe
  import opened BucketCounting
  import Cascade

  datatype Task = Task(exchange: string, symbol: string, frame: Frame, source: Frame, start: int, end: int, targets: seq<int>)

  predicate Supported(exchange: string) { exchange == "binance" || exchange == "okx" }

  /** The timeframe that the exchange offers officially and a target is repaired from. */
  function SourceOf(exchange: string, target: Frame): Frame {
    if exchange == "binance" && target in {D2, D3, D5, W2} then D1
    else if exchange == "binance" && target == Mon3 then Mon1
    else if exchange == "okx" && target in {D5, W2} then D1
    else target
  }

  /** What the exchanges offer as official candles. */
  predicate Offers(exchange: string, tf: Frame) {
    || tf in {M1, M5, M15, M30, H1, H2, H4, H6, H12, D1, W1, Mon1}
    || (exchange == "okx" && tf in {D2, Mon3})
  }

  /** A target is repaired from its own candles exactly where the exchange offers them, and else from
      the days or the months that make it up, which it always offers. */
  lemma SourceIsOffered(exchange: string, tf: Frame)
    requires Supported(exchange) && Cascade.Enabled(tf)
    ensures Offers(exchange, SourceOf(exchange, tf))
    ensures SourceOf(exchange, tf) == tf <==> Offers(exchange, tf)
    ensures !Offers(exchange, tf) ==> SourceOf(exchange, tf) == if PeriodOf(tf).Months? then Mon1 else D1
    ensures forall k :: Aligned(Boundary(tf, k), SourceOf(exchange, tf))
  {
    hide Boundary, BucketIndex, Aligned;
    var source := SourceOf(exchange, tf);
    assert Refines(source, tf);
    forall k ensures Aligned(Boundary(tf, k), source) {
      SharedBoundary(source, tf, k);
      BoundaryAligned(source, BucketIndex(source, Boundary(tf, k)));
    }
  }

  /** A request to Binance never asks for more than the 200 days that it answers at most. */
  lemma RequestFitsHistory(source: Frame, k: int)
    requires Offers("binance", source)
    ensures Boundary(source, k + MaxSourceBars("binance", source)) - Boundary(source, k) <= 200 * DAY_MS
  {
    hide FirstOfMonth;
    if source == Mon1 { MonthsAtMost(k, 6); }
  }

  lemma {:induction false} MonthsAtMost(month: int, n: nat)
    ensures FirstOfMonth(month + n) - FirstOfMonth(month) <= 31 * n
  {
    hide FirstOfMonth;
    if n > 0 {
      MonthsAtMost(month, n - 1);
      MonthLength(month + n - 1);
    }
  }

  function MaxSourceBars(exchange: string, source: Frame): (n: int)
    ensures n >= 6
  {
    if exchange == "okx" then 80
    else match source case D1 => 198 case W1 => 26 case Mon1 => 6 case _ => 400
  }

  // ----- spans -----

  /** How many source buckets reach into start..end. */
  function Span(start: int, end: int, source: Frame): int {
    BucketIndex(source, end) - BucketIndex(source, start) + 1
  }

  /** Counts the source buckets of a range one by one, but not far beyond the maximum. */
  method SourceSpan(start: int, end: int, source: Frame, maximum: int) returns (count: int)
    requires RoundsDown(start, source) && start <= end && maximum >= 0
    ensures count == if Span(start, end, source) <= maximum then Span(start, end, source) else maximum + 1
  {
    hide FloorStart, NextStart, Boundary, BucketIndex, RoundsDown;
    ghost var i, j := BucketIndex(source, start), BucketIndex(source, end);
    FloorIsBoundary(start, source);
    BucketBracket(source, start);
    BucketBracket(source, end);
    BoundaryOrder(source, j + 1, i);
    var cursor := FloorStart(start, source);
    count := 0;
    while cursor <= end
      invariant 0 <= count <= maximum && cursor == Boundary(source, i + count) && i + count <= j + 1
      decreases j + 1 - i - count
    {
      BoundaryOrder(source, j, i + count);
      BoundaryOrder(source, i + count, j + 1);
      NextOfBoundary(source, i + count);
      count := count + 1;
      if count > maximum {
        break;
      }
      cursor := NextStart(cursor, source);
    }
    BoundaryOrder(source, i + count, j + 1);
    BoundaryOrder(source, i + count, j);
  }

  lemma SpanBetween(source: Frame, i: int, j: int)
    requires i < j
    ensures Span(Boundary(source, i), Boundary(source, j) - 1, source) == j - i
  {
    hide Boundary, BucketIndex;
    BoundaryIndex(source, i);
    BoundariesIncrease(source, j - 1, j);
    BucketUnique(source, Boundary(source, j) - 1, j - 1);
  }

  /** How many source buckets make up one target bucket. */
  function SourcesPerTarget(tf: Frame, source: Frame): int {
    if source == tf then 1
    else match tf case D2 => 2 case D5 => 5 case W2 => 14 case _ => 3
  }

  lemma TargetSpan(tf: Frame, source: Frame, k: int)
    requires source == tf || (source == D1 && tf in {D2, D5, W2}) || (source == Mon1 && tf == Mon3)
    ensures Span(Boundary(tf, k), EndMS(Boundary(tf, k), tf), source) == SourcesPerTarget(tf, source)
  {
    hide Boundary, BucketIndex, EndMS, Span;
    NextOfBoundary(tf, k);
    var n := SourcesPerTarget(tf, source);
    var i := SourceIndex(tf, source, k);
    SpanBetween(source, i, i + n);
  }

  lemma SourceIndex(tf: Frame, source: Frame, k: int) returns (i: int)
    requires source == tf || (source == D1 && tf in {D2, D5, W2}) || (source == Mon1 && tf == Mon3)
    ensures Boundary(source, i) == Boundary(tf, k)
    ensures Boundary(source, i + SourcesPerTarget(tf, source)) == Boundary(tf, k + 1)
  {
    hide Boundary;
    if source == tf {
      i := k;
    } else if source == D1 {
      i := DayOf(tf, k, SourcesPerTarget(tf, source));
    } else {
      QuarterOf(k);
      QuarterOf(k + 1);
      i := 3 * k;
    }
  }

  /** A single target never exceeds the limit of its source, so the planner cannot fail on one. */
  lemma OneTargetFits(exchange: string, tf: Frame, k: int)
    requires Supported(exchange) && Cascade.Enabled(tf)
    ensures 1 <= Span(Boundary(tf, k), EndMS(Boundary(tf, k), tf), SourceOf(exchange, tf)) <= MaxSourceBars(exchange, SourceOf(exchange, tf))
  {
    hide Boundary, BucketIndex, EndMS, Span;
    TargetSpan(tf, SourceOf(exchange, tf), k);
  }

  lemma DayOf(tf: Frame, k: int, n: int) returns (i: int)
    requires (tf == D2 && n == 2) || (tf == D5 && n == 5) || (tf == W2 && n == 14)
    ensures Boundary(D1, i) == Boundary(tf, k) && Boundary(D1, i + n) == Boundary(tf, k + 1)
  {
    i := if tf == W2 then 4 + 14 * k else n * k;
  }

  lemma QuarterOf(k: int)
    ensures Boundary(Mon3, k) == Boundary(Mon1, 3 * k)
  {
    hide FirstOfMonth;
  }

  // ----- names -----

  predicate White(c: char) { c in {' ', '\t', '\n', '\r'} }

  function TrimLeft(s: string): string { if s != [] && White(s[0]) then TrimLeft(s[1..]) else s }

  function TrimRight(s: string): string {
    if s != [] && White(s[|s| - 1]) then TrimRight(s[..|s| - 1]) else s
  }

  function Upper(c: char): char { if 'a' <= c <= 'z' then c - 'a' + 'A' else c }

  function UpperCase(s: string): string { seq(|s|, i requires 0 <= i < |s| => Upper(s[i])) }

  function NormalSymbol(s: string): string { UpperCase(TrimRight(TrimLeft(s))) }

  predicate Trim(s: string) { s != [] ==> !White(s[0]) && !White(s[|s| - 1]) }

  lemma {:induction false} RightTrimmed(s: string)
    ensures var t := TrimRight(s); |t| <= |s| && t == s[..|t|] && (t != [] ==> !White(t[|t| - 1]))
  {
    if s != [] && White(s[|s| - 1]) { RightTrimmed(s[..|s| - 1]); }
  }

  lemma {:induction false} LeftTrimmed(s: string)
    ensures TrimLeft(s) != [] ==> !White(TrimLeft(s)[0])
  {
    if s != [] && White(s[0]) { LeftTrimmed(s[1..]); }
  }

  /** A normalized symbol is normal, so the executor's test passes what the planner wrote. */
  lemma NormalIsNormal(s: string)
    ensures NormalSymbol(NormalSymbol(s)) == NormalSymbol(s)
  {
    LeftTrimmed(s);
    RightTrimmed(TrimLeft(s));
    var t := TrimRight(TrimLeft(s));
    var u := UpperCase(t);
    assert Trim(u);
    assert TrimLeft(u) == u && TrimRight(u) == u;
    assert UpperCase(u) == u;
  }

  // ----- chunks -----

  /** Aligned starts in order. */
  ghost predicate OnGrid(starts: seq<int>, tf: Frame) {
    && (forall t :: t in starts ==> Aligned(t, tf))
    && (forall i, j :: 0 <= i < j < |starts| ==> starts[i] < starts[j])
  }

  function TaskOf(exchange: string, symbol: string, tf: Frame, targets: seq<int>): Task
    requires targets != []
  {
    Task(exchange, symbol, tf, SourceOf(exchange, tf), targets[0], EndMS(targets[|targets| - 1], tf), targets)
  }

  function TaskSpan(task: Task): int { Span(task.start, task.end, task.source) }

  function AllTargets(tasks: seq<Task>): seq<int> {
    if tasks == [] then [] else AllTargets(tasks[..|tasks| - 1]) + tasks[|tasks| - 1].targets
  }

  predicate Fits(exchange: string, symbol: string, tf: Frame, task: Task) {
    && task.targets != [] && task == TaskOf(exchange, symbol, tf, task.targets)
    && TaskSpan(task) <= MaxSourceBars(exchange, task.source)
  }

  /** A target could not have been added to the task. */
  predicate Full(task: Task, target: int) {
    Span(task.start, EndMS(target, task.frame), task.source) > MaxSourceBars(task.exchange, task.source)
  }

  lemma SourceRoundsDown(exchange: string, tf: Frame, start: int)
    requires Supported(exchange) && Cascade.Enabled(tf) && Aligned(start, tf)
    ensures RoundsDown(start, SourceOf(exchange, tf)) && Aligned(start, SourceOf(exchange, tf))
  {
    hide Boundary, BucketIndex, Aligned, RoundsDown;
    var source := SourceOf(exchange, tf);
    AlignedIsBoundary(start, tf);
    SharedBoundary(source, tf, BucketIndex(tf, start));
    BoundaryRoundsDown(source, BucketIndex(source, start));
    BoundaryAligned(source, BucketIndex(source, start));
  }

  /** How many of the first starts go into one task. */
  method ChunkLength(exchange: string, tf: Frame, starts: seq<int>) returns (n: nat)
    requires Supported(exchange) && Cascade.Enabled(tf) && OnGrid(starts, tf) && starts != []
    ensures 0 < n <= |starts|
    ensures Fits(exchange, "", tf, TaskOf(exchange, "", tf, starts[..n]))
    ensures n < |starts| ==> Full(TaskOf(exchange, "", tf, starts[..n]), starts[n])
  {
    hide Aligned, Boundary, BucketIndex, EndMS, RoundsDown, Span;
    var source := SourceOf(exchange, tf);
    var maximum := MaxSourceBars(exchange, source);
    GridParts(starts, 0, tf);
    SourceRoundsDown(exchange, tf, starts[0]);
    AlignedIsBoundary(starts[0], tf);
    OneTargetFits(exchange, tf, BucketIndex(tf, starts[0]));
    var last := 0;
    while last + 1 < |starts|
      invariant last < |starts| && Span(starts[0], EndMS(starts[last], tf), source) <= maximum
    {
      EndAfterStart(starts[0], starts[last + 1], tf);
      var span := SourceSpan(starts[0], EndMS(starts[last + 1], tf), source, maximum);
      if span > maximum {
        return last + 1;
      }
      last := last + 1;
    }
    n := last + 1;
  }

  lemma EndAfterStart(a: int, b: int, tf: Frame)
    requires Aligned(b, tf) && a <= b
    ensures a <= EndMS(b, tf)
  {
    hide Aligned, Boundary, BucketIndex, EndMS, NextStart;
    AlignedNeighbours(b, tf);
    AlignedOrder(b, NextStart(b, tf), tf);
  }

  /** The tasks take up the given starts in order, each start once, and each task is as long as
      its source allows before `rest` goes on. */
  ghost predicate Chunked(exchange: string, symbol: string, tf: Frame, tasks: seq<Task>, starts: seq<int>, rest: seq<int>) {
    && AllTargets(tasks) == starts
    && (forall task :: task in tasks ==> Fits(exchange, symbol, tf, task))
    && (forall i, j :: 0 <= i < j < |tasks| && j == i + 1 ==> Full(tasks[i], tasks[j].start))
    && (tasks != [] && rest != [] ==> Full(tasks[|tasks| - 1], rest[0]))
  }

  lemma ChunkAppended(exchange: string, symbol: string, tf: Frame, tasks: seq<Task>, task: Task, starts: seq<int>, rest: seq<int>)
    requires Chunked(exchange, symbol, tf, tasks, starts, task.targets + rest)
    requires Fits(exchange, symbol, tf, task) && (rest != [] ==> Full(task, rest[0]))
    ensures Chunked(exchange, symbol, tf, tasks + [task], starts + task.targets, rest)
  {
    hide Full, EndMS, TaskSpan, MaxSourceBars, SourceOf;
    assert (tasks + [task])[..|tasks|] == tasks;
    assert (task.targets + rest)[0] == task.start;
    forall i, j | 0 <= i < j < |tasks + [task]| && j == i + 1 ensures Full((tasks + [task])[i], (tasks + [task])[j].start) {
      if j < |tasks| { assert Full(tasks[i], tasks[j].start); }
    }
  }

  /** Cuts the ordered missing starts of one series into tasks, each as long as its source allows. */
  method ChunkTargets(exchange: string, symbol: string, tf: Frame, missing: seq<int>) returns (tasks: seq<Task>)
    requires Supported(exchange) && Cascade.Enabled(tf) && OnGrid(missing, tf)
    ensures Chunked(exchange, symbol, tf, tasks, missing, [])
  {
    hide Aligned, Boundary, BucketIndex, EndMS, RoundsDown, Span, OnGrid, Chunked, Fits, Full;
    var starts := missing;
    tasks := [];
    ghost var done: seq<int> := [];
    NothingChunked(exchange, symbol, tf, starts);
    while |starts| > 0
      invariant done + starts == missing && OnGrid(starts, tf)
      invariant Chunked(exchange, symbol, tf, tasks, done, starts)
      decreases |starts|
    {
      var n := ChunkLength(exchange, tf, starts);
      var task := TaskOf(exchange, symbol, tf, starts[..n]);
      GridParts(starts, n, tf);
      TakeOver(done, starts, n);
      NameOnly(exchange, symbol, tf, starts[..n]);
      ChunkAppended(exchange, symbol, tf, tasks, task, done, starts[n..]);
      tasks := tasks + [task];
      done := done + starts[..n];
      starts := starts[n..];
    }
    assert done == missing && starts == [];
  }

  lemma TakeOver(done: seq<int>, starts: seq<int>, n: nat)
    requires n <= |starts|
    ensures starts == starts[..n] + starts[n..] && (done + starts[..n]) + starts[n..] == done + starts
  {
  }

  lemma NameOnly(exchange: string, symbol: string, tf: Frame, targets: seq<int>)
    requires targets != []
    ensures Fits(exchange, "", tf, TaskOf(exchange, "", tf, targets)) ==> Fits(exchange, symbol, tf, TaskOf(exchange, symbol, tf, targets))
    ensures forall t :: Full(TaskOf(exchange, "", tf, targets), t) <==> Full(TaskOf(exchange, symbol, tf, targets), t)
  {
    hide Span, EndMS;
  }

  lemma NothingChunked(exchange: string, symbol: string, tf: Frame, rest: seq<int>)
    ensures Chunked(exchange, symbol, tf, [], [], rest)
  {
  }

  lemma GridParts(starts: seq<int>, n: nat, tf: Frame)
    requires OnGrid(starts, tf) && n <= |starts|
    ensures OnGrid(starts[..n], tf) && OnGrid(starts[n..], tf)
    ensures forall i, j :: 0 <= i < j < |starts| ==> starts[i] < starts[j]
    ensures forall i :: 0 <= i < |starts| ==> Aligned(starts[i], tf)
  {
    hide Aligned;
  }
}
