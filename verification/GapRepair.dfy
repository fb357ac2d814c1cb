/** The repair executor: fetches one bounded task and inserts what is missing, never touching a
    row that is already stored. */
module GapRepair {
  import opened Timeframe
  import opened BucketCounting
  import opened Rollup
  import opened Aggregator
  import opened Storage
  import opened GapPlan

  predicate Positive(bar: Bar) {
    && bar.open > 0.0 && bar.high > 0.0 && bar.low > 0.0 && bar.close > 0.0
    && bar.volume >= 0.0 && bar.quoteVolume >= 0.0 && bar.contractVolume >= 0.0 && bar.tradeCount >= 0
    && bar.high >= bar.open && bar.high >= bar.close && bar.low <= bar.open && bar.low <= bar.close && bar.high >= bar.low
  }

  /** A complete, closed candle of the series on its timeframe's grid. */
  predicate ValidBar(bar: Bar, series: Series, frame: Frame, now: int) {
    && bar.series == series && bar.frame == frame && bar.isFinal && bar.start > 0
    && Aligned(bar.start, frame) && bar.end == EndMS(bar.start, frame) && bar.end < now && Positive(bar)
  }

  function SeriesOf(task: Task): Series { Series(task.exchange, task.symbol) }

  function TargetKey(task: Task, t: int): Key { Key(SeriesOf(task), task.frame, t) }

  // ----- what the fetched candles offer -----

  predicate InTask(task: Task, t: int) { task.start <= t <= task.end }

  /** The fetched list has one candle only for this start, and it is valid. */
  ghost predicate OfferedAt(official: seq<Bar>, task: Task, now: int, i: nat) {
    && i < |official| && InTask(task, official[i].start) && ValidBar(official[i], SeriesOf(task), task.source, now)
    && forall j :: 0 <= j < |official| && j != i ==> official[j].start != official[i].start
  }

  ghost predicate Offered(official: seq<Bar>, task: Task, now: int, bar: Bar) {
    exists i: nat :: OfferedAt(official, task, now, i) && official[i] == bar
  }

  /** Candles that follow each other without a hole and fill the bucket at `t` exactly. */
  ghost predicate Tiles(inputs: seq<Bar>, official: seq<Bar>, task: Task, now: int, t: int) {
    && inputs != [] && inputs[0].start == t
    && (forall i, j :: 0 <= i < j < |inputs| && j == i + 1 ==> inputs[j].start == NextStart(inputs[i].start, task.source))
    && NextStart(inputs[|inputs| - 1].start, task.source) == EndMS(t, task.frame) + 1
    && (forall bar :: bar in inputs ==> Offered(official, task, now, bar) && bar.end <= EndMS(t, task.frame))
  }

  /** `row` is a repair of the target at `t`: the official candle itself, or the rollup of official
      candles that fill the bucket exactly. */
  ghost predicate Repairs(official: seq<Bar>, task: Task, now: int, t: int, row: Bar) {
    && ValidBar(row, SeriesOf(task), task.frame, now) && row.start == t
    && if task.source == task.frame then Offered(official, task, now, row)
       else exists inputs :: inputs != [] && Tiles(inputs, official, task, now, t) && row == Rolled(task.frame, inputs, true)
  }

  // ----- the sources, by start -----

  /** The sources collected so far are the candles that are alone at their start. */
  ghost predicate Collected(official: seq<Bar>, task: Task, now: int, sources: map<int, Bar>) {
    && (forall t :: t in sources ==> sources[t].start == t && Offered(official, task, now, sources[t]))
    && (forall bar :: Offered(official, task, now, bar) ==> bar.start in sources && sources[bar.start] == bar)
  }

  ghost predicate Candidate(bar: Bar, task: Task, now: int, t: int) {
    bar.start == t && InTask(task, t) && ValidBar(bar, SeriesOf(task), task.source, now)
  }

  /** While collecting: the first valid candle of each start, and the starts found at fault. */
  ghost predicate Collecting(official: seq<Bar>, task: Task, now: int, n: nat, sources: map<int, Bar>, invalid: set<int>)
    requires n <= |official|
  {
    && (forall t :: t in sources ==> exists i :: 0 <= i < n && official[i] == sources[t] && Candidate(official[i], task, now, t))
    && (forall i :: 0 <= i < n && InTask(task, official[i].start) ==> official[i].start in sources || official[i].start in invalid)
    && (forall t :: t in invalid ==> Faulty(official, task, now, n, t))
    && (forall i, j :: 0 <= i < j < n && InTask(task, official[i].start) && official[i].start == official[j].start ==>
          official[i].start in invalid)
    && (forall i :: 0 <= i < n && InTask(task, official[i].start) && !ValidBar(official[i], SeriesOf(task), task.source, now) ==>
          official[i].start in invalid)
  }

  ghost predicate Faulty(official: seq<Bar>, task: Task, now: int, n: nat, t: int)
    requires n <= |official|
  {
    || (exists i :: 0 <= i < n && official[i].start == t && !ValidBar(official[i], SeriesOf(task), task.source, now))
    || (exists i, j :: 0 <= i < j < n && official[i].start == t && official[j].start == t)
  }

  lemma FaultyStays(official: seq<Bar>, task: Task, now: int, n: nat, t: int)
    requires n < |official| && Faulty(official, task, now, n, t)
    ensures Faulty(official, task, now, n + 1, t)
  {
    hide ValidBar;
  }

  method CollectSources(official: seq<Bar>, task: Task, now: int) returns (sources: map<int, Bar>)
    ensures Collected(official, task, now, sources)
  {
    hide ValidBar, Faulty, Offered;
    sources := map[];
    var invalid: set<int> := {};
    for n := 0 to |official|
      invariant Collecting(official, task, now, n, sources, invalid)
    {
      forall t | t in invalid ensures Faulty(official, task, now, n + 1, t) { FaultyStays(official, task, now, n, t); }
      var bar := official[n];
      if bar.start < task.start || bar.start > task.end {
        continue;
      }
      if !ValidBar(bar, SeriesOf(task), task.source, now) {
        FaultHere(official, task, now, n);
        invalid := invalid + {bar.start};
        continue;
      }
      if bar.start in sources {
        FaultHere(official, task, now, n);
        invalid := invalid + {bar.start};
        continue;
      }
      sources := sources[bar.start := bar];
    }
    AllCollected(official, task, now, sources, invalid);
    sources := sources - invalid;
  }

  lemma FaultHere(official: seq<Bar>, task: Task, now: int, n: nat)
    requires n < |official|
    requires !ValidBar(official[n], SeriesOf(task), task.source, now) || exists i :: 0 <= i < n && official[i].start == official[n].start
    ensures Faulty(official, task, now, n + 1, official[n].start)
  {
    hide ValidBar;
  }

  lemma AllCollected(official: seq<Bar>, task: Task, now: int, sources: map<int, Bar>, invalid: set<int>)
    requires Collecting(official, task, now, |official|, sources, invalid)
    ensures Collected(official, task, now, sources - invalid)
  {
    hide ValidBar;
    var kept := sources - invalid;
    forall t | t in kept ensures kept[t].start == t && Offered(official, task, now, kept[t]) {
      var i :| 0 <= i < |official| && official[i] == sources[t] && Candidate(official[i], task, now, t);
      assert OfferedAt(official, task, now, i);
    }
    forall bar | Offered(official, task, now, bar) ensures bar.start in kept && kept[bar.start] == bar {
      var i: nat :| OfferedAt(official, task, now, i) && official[i] == bar;
      assert !Faulty(official, task, now, |official|, bar.start);
    }
  }

  // ----- one candidate per target -----

  /** The candles that follow each other from `cursor` on and end by `end`. */
  function Gather(sources: map<int, Bar>, cursor: int, end: int, source: Frame): seq<Bar>
    decreases end - cursor
  {
    if cursor <= end && cursor in sources && sources[cursor].end <= end && NextStart(cursor, source) > cursor
    then [sources[cursor]] + Gather(sources, NextStart(cursor, source), end, source)
    else []
  }

  ghost predicate SoundSources(sources: map<int, Bar>, source: Frame) {
    forall t :: t in sources ==> sources[t].start == t && Aligned(t, source) && sources[t].end == EndMS(t, source)
  }

  ghost predicate Adjacent(inputs: seq<Bar>, source: Frame) {
    forall i, j :: 0 <= i < j < |inputs| && j == i + 1 ==> inputs[j].start == NextStart(inputs[i].start, source)
  }

  lemma AdjacentTail(inputs: seq<Bar>, source: Frame)
    requires Adjacent(inputs, source) && |inputs| > 1
    ensures Adjacent(inputs[1..], source) && inputs[1].start == NextStart(inputs[0].start, source)
  {
    hide NextStart;
    assert forall k :: 0 <= k < |inputs[1..]| ==> inputs[1..][k] == inputs[k + 1];
  }

  lemma {:induction false} GatherIsChain(sources: map<int, Bar>, cursor: int, end: int, source: Frame)
    requires SoundSources(sources, source)
    ensures var inputs := Gather(sources, cursor, end, source);
            && Adjacent(inputs, source) && (inputs != [] ==> inputs[0].start == cursor)
            && forall bar :: bar in inputs ==> bar.start in sources && sources[bar.start] == bar && bar.end <= end
    decreases end - cursor
  {
    hide NextStart, Aligned, EndMS;
    var inputs := Gather(sources, cursor, end, source);
    if inputs != [] {
      var rest := Gather(sources, NextStart(cursor, source), end, source);
      GatherIsChain(sources, NextStart(cursor, source), end, source);
      assert inputs == [sources[cursor]] + rest;
      forall i, j | 0 <= i < j < |inputs| && j == i + 1 ensures inputs[j].start == NextStart(inputs[i].start, source) {
        if i > 0 { assert inputs[i] == rest[i - 1] && inputs[j] == rest[j - 1]; }
      }
    }
  }

  /** Any chain of sources that fills the range is the gathered one. */
  lemma {:induction false} ChainIsGathered(sources: map<int, Bar>, inputs: seq<Bar>, end: int, source: Frame)
    requires SoundSources(sources, source) && inputs != [] && Adjacent(inputs, source)
    requires forall bar :: bar in inputs ==> bar.start in sources && sources[bar.start] == bar && bar.end <= end
    requires NextStart(inputs[|inputs| - 1].start, source) == end + 1
    ensures Gather(sources, inputs[0].start, end, source) == inputs
    decreases |inputs|
  {
    hide NextStart, Aligned, EndMS;
    var first := inputs[0];
    assert first in inputs;
    StartBeforeEnd(first.start, source);
    if |inputs| == 1 {
      assert Gather(sources, end + 1, end, source) == [];
      assert inputs == [first];
    } else {
      AdjacentTail(inputs, source);
      assert inputs[1..][|inputs| - 2] == inputs[|inputs| - 1];
      ChainIsGathered(sources, inputs[1..], end, source);
      assert inputs == [first] + inputs[1..];
    }
  }

  lemma StartBeforeEnd(start: int, source: Frame)
    requires Aligned(start, source)
    ensures start <= EndMS(start, source) < NextStart(start, source)
  {
    hide NextStart, Aligned, EndMS, Boundary, BucketIndex;
    AlignedNeighbours(start, source);
    AlignedOrder(start, NextStart(start, source), source);
  }

  method GatherInputs(sources: map<int, Bar>, start: int, end: int, source: Frame) returns (inputs: seq<Bar>, cursor: int)
    requires SoundSources(sources, source)
    ensures inputs == Gather(sources, start, end, source)
    ensures cursor == if inputs == [] then start else NextStart(inputs[|inputs| - 1].start, source)
  {
    hide NextStart, EndMS, Aligned, Gather;
    inputs := [];
    cursor := start;
    while cursor <= end && cursor in sources && sources[cursor].end <= end
      invariant inputs + Gather(sources, cursor, end, source) == Gather(sources, start, end, source)
      invariant cursor == if inputs == [] then start else NextStart(inputs[|inputs| - 1].start, source)
      decreases end - cursor
    {
      StartBeforeEnd(cursor, source);
      GatherStep(sources, cursor, end, source);
      ghost var rest := Gather(sources, NextStart(cursor, source), end, source);
      assert inputs + ([sources[cursor]] + rest) == inputs + [sources[cursor]] + rest;
      inputs := inputs + [sources[cursor]];
      cursor := NextStart(cursor, source);
    }
    GatherStep(sources, cursor, end, source);
  }

  lemma GatherStep(sources: map<int, Bar>, cursor: int, end: int, source: Frame)
    ensures Gather(sources, cursor, end, source) ==
              if cursor <= end && cursor in sources && sources[cursor].end <= end && NextStart(cursor, source) > cursor
              then [sources[cursor]] + Gather(sources, NextStart(cursor, source), end, source) else []
  {
    hide NextStart;
  }

  /** The repair of the target at `t` from the collected sources, if there is one. */
  method BuildRepair(official: seq<Bar>, task: Task, sources: map<int, Bar>, t: int, now: int) returns (row: Option<Bar>)
    requires Collected(official, task, now, sources) && Aligned(t, task.frame)
    ensures row.Some? ==> Repairs(official, task, now, t, row.value)
    ensures row.None? ==> forall other :: !Repairs(official, task, now, t, other)
  {
    hide ValidBar, Offered, NextStart, EndMS, Aligned, Rolled, SortByStart, Gather;
    if task.source == task.frame {
      if t !in sources {
        return None;
      }
      OfferedIsValid(official, task, now, sources[t]);
      return Some(sources[t]);
    }
    SourcesAreSound(official, task, sources, now);
    var end := EndMS(t, task.frame);
    var inputs, cursor := GatherInputs(sources, t, end, task.source);
    GatherIsChain(sources, t, end, task.source);
    if |inputs| == 0 || cursor != end + 1 {
      NothingTiles(official, task, sources, t, now);
      return None;
    }
    assert Tiles(inputs, official, task, now, t);
    ChainOrdered(inputs, official, task, now, t);
    SortKeepsOrdered(inputs);
    row := RollupBars(task.frame, inputs, true);
    OnlyRepair(official, task, sources, t, now, inputs);
    if row.None? || !ValidBar(row.value, SeriesOf(task), task.frame, now) || row.value.start != t {
      return None;
    }
  }

  lemma OfferedIsValid(official: seq<Bar>, task: Task, now: int, bar: Bar)
    requires Offered(official, task, now, bar)
    ensures ValidBar(bar, SeriesOf(task), task.source, now)
  {
    hide ValidBar;
  }

  lemma SourcesAreSound(official: seq<Bar>, task: Task, sources: map<int, Bar>, now: int)
    requires Collected(official, task, now, sources)
    ensures SoundSources(sources, task.source)
  {
    hide Aligned, EndMS, Offered, Positive;
    forall t | t in sources ensures sources[t].start == t && Aligned(t, task.source) && sources[t].end == EndMS(t, task.source) {
      OfferedIsValid(official, task, now, sources[t]);
    }
  }

  lemma NothingTiles(official: seq<Bar>, task: Task, sources: map<int, Bar>, t: int, now: int)
    requires Collected(official, task, now, sources) && task.source != task.frame
    requires var inputs := Gather(sources, t, EndMS(t, task.frame), task.source);
             inputs == [] || NextStart(inputs[|inputs| - 1].start, task.source) != EndMS(t, task.frame) + 1
    ensures forall inputs :: !Tiles(inputs, official, task, now, t)
    ensures forall row :: !Repairs(official, task, now, t, row)
  {
    hide ValidBar, Offered, NextStart, EndMS, Aligned, Rolled;
    SourcesAreSound(official, task, sources, now);
    forall inputs ensures !Tiles(inputs, official, task, now, t) {
      if Tiles(inputs, official, task, now, t) {
        ChainIsGathered(sources, inputs, EndMS(t, task.frame), task.source);
        assert false;
      }
    }
  }

  lemma OnlyRepair(official: seq<Bar>, task: Task, sources: map<int, Bar>, t: int, now: int, inputs: seq<Bar>)
    requires Collected(official, task, now, sources) && task.source != task.frame
    requires inputs != [] && inputs == Gather(sources, t, EndMS(t, task.frame), task.source)
    ensures forall row :: Repairs(official, task, now, t, row) ==> row == Rolled(task.frame, inputs, true)
  {
    hide ValidBar, Offered, NextStart, EndMS, Aligned, Rolled;
    SourcesAreSound(official, task, sources, now);
    forall row | Repairs(official, task, now, t, row) ensures row == Rolled(task.frame, inputs, true) {
      var others :| others != [] && Tiles(others, official, task, now, t) && row == Rolled(task.frame, others, true);
      ChainIsGathered(sources, others, EndMS(t, task.frame), task.source);
    }
  }

  lemma {:induction false} ChainGrows(inputs: seq<Bar>, source: Frame, i: nat, j: nat)
    requires Adjacent(inputs, source) && i <= j < |inputs| && forall bar :: bar in inputs ==> Aligned(bar.start, source)
    ensures inputs[i].start <= inputs[j].start
    decreases j - i
  {
    hide Aligned, NextStart, EndMS;
    if i < j {
      ChainGrows(inputs, source, i, j - 1);
      assert inputs[j - 1] in inputs;
      StartBeforeEnd(inputs[j - 1].start, source);
    }
  }

  lemma ChainOrdered(inputs: seq<Bar>, official: seq<Bar>, task: Task, now: int, t: int)
    requires Tiles(inputs, official, task, now, t)
    ensures OrderedByStart(inputs)
  {
    hide Aligned, NextStart, EndMS, Offered, Positive;
    forall bar | bar in inputs ensures Aligned(bar.start, task.source) { OfferedIsValid(official, task, now, bar); }
    forall i, j | 0 <= i < j < |inputs| ensures inputs[i].start <= inputs[j].start { ChainGrows(inputs, task.source, i, j); }
  }
}
