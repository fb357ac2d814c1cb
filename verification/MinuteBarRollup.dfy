/** The streaming rollup of minute candles: one rolling state per series and timeframe. */
module MinuteBarRollup {
  import opened Timeframe
  import opened Rollup
  import opened RollingFold

  class RollingBarState {
    const frame: Frame
    const start: int
    const end: int
    const open: real
    var high: real
    var low: real
    var close: real
    var volume: real
    var quoteVolume: real
    var tradeCount: int
    var lastTick: int
    var isClosed: bool
    var closedAt: int

    function View(): Values
      reads this
    {
      Values(open, high, low, close, volume, quoteVolume, tradeCount, lastTick)
    }

    constructor FromBar(bar: Bar, frame: Frame, start: int, end: int)
      ensures this.frame == frame && this.start == start && this.end == end && !isClosed && View() == ValuesOf(bar)
    {
      this.frame, this.start, this.end, isClosed, closedAt := frame, start, end, false, 0;
      open, high, low, close := bar.open, bar.high, bar.low, bar.close;
      volume, quoteVolume, tradeCount, lastTick := bar.volume, bar.quoteVolume, bar.tradeCount, TickOf(bar);
    }

    method UpdateWithBar(bar: Bar)
      modifies this
      ensures isClosed == old(isClosed) && View() == if isClosed then old(View()) else Extended(old(View()), bar)
    {
      if isClosed {
        return;
      }
      high, low := Max(high, bar.high), Min(low, bar.low);
      close := bar.close;
      volume, quoteVolume, tradeCount := volume + bar.volume, quoteVolume + bar.quoteVolume, tradeCount + bar.tradeCount;
      if TickOf(bar) > lastTick {
        lastTick := TickOf(bar);
      }
    }

    method MarkClosed(at: int)
      modifies this
      ensures isClosed && View() == old(View())
    {
      isClosed, closedAt := true, at;
    }

    method ToBar(isFinal: bool) returns (bar: Emitted)
      ensures bar == Emitted(start, end, View(), isFinal, false)
    {
      return Emitted(start, end, View(), isFinal, false);
    }
  }

  datatype StateKey = StateKey(series: Series, frame: Frame)

  /** The state, together with the finals handed out, holds what was accepted. */
  ghost predicate InTune(start: int, end: int, closed: bool, values: Values, accepted: seq<Bar>, finals: seq<Emitted>, tf: Frame) {
    && end == EndMS(start, tf)
    && (closed ==> finals != [] && finals[|finals| - 1] == FinalOf(start, values, tf))
    && Settled(if closed then finals else finals + [FinalOf(start, values, tf)], accepted, tf)
  }

  lemma TuneClosed(start: int, end: int, values: Values, accepted: seq<Bar>, finals: seq<Emitted>, tf: Frame)
    requires InTune(start, end, false, values, accepted, finals, tf)
    ensures InTune(start, end, true, values, accepted, finals + [FinalOf(start, values, tf)], tf)
  {
    hide Settled;
  }

  lemma TuneStarts(start: int, end: int, closed: bool, values: Values, accepted: seq<Bar>, finals: seq<Emitted>, tf: Frame)
    requires InTune(start, end, closed, values, accepted, finals, tf)
    ensures BucketStart(start, tf) == start
  {
    hide BucketStart, EndMS, OfBucket, FoldValues, NextStart, HasFinalOf;
    var all := if closed then finals else finals + [FinalOf(start, values, tf)];
    assert all[|all| - 1] in all;
  }

  lemma TuneFirst(bar: Bar, tf: Frame)
    ensures var start := BucketStart(bar.start, tf); InTune(start, EndMS(start, tf), false, ValuesOf(bar), [bar], [], tf)
  {
    hide Settled, BucketStart, EndMS;
    var final := FinalOf(BucketStart(bar.start, tf), ValuesOf(bar), tf);
    FirstSettles(bar, tf);
    assert [] + [final] == [final];
  }

  lemma TuneExtended(start: int, end: int, values: Values, accepted: seq<Bar>, finals: seq<Emitted>, bar: Bar, tf: Frame)
    requires InTune(start, end, false, values, accepted, finals, tf) && BucketStart(bar.start, tf) == start
    ensures InTune(start, end, false, Extended(values, bar), accepted + [bar], finals, tf)
  {
    hide Settled, BucketStart, EndMS;
    ExtendingSettles(finals, start, values, accepted, bar, tf);
  }

  lemma TuneOpened(accepted: seq<Bar>, finals: seq<Emitted>, bar: Bar, tf: Frame)
    requires Settled(finals, accepted, tf) && NextStart(finals[|finals| - 1].start, tf) == BucketStart(bar.start, tf)
    ensures var start := BucketStart(bar.start, tf);
            InTune(start, EndMS(start, tf), false, ValuesOf(bar), accepted + [bar], finals, tf)
  {
    OpeningSettles(finals, accepted, bar, tf);
  }

  /** The finals end with a closed bucket that starts at `last` and closes at `close`. */
  ghost predicate EndsAt(all: seq<Emitted>, accepted: seq<Bar>, last: int, close: real, tf: Frame) {
    Settled(all, accepted, tf) && BucketStart(last, tf) == last && all[|all| - 1].start == last && all[|all| - 1].values.close == close
  }

  function GapBar(start: int, close: real, lastTick: int, tf: Frame): Emitted {
    Emitted(start, EndMS(start, tf), Values(close, close, close, close, 0.0, 0.0, 0, lastTick), true, true)
  }

  lemma GapStep(all: seq<Emitted>, accepted: seq<Bar>, last: int, close: real, lastTick: int, tf: Frame)
    requires EndsAt(all, accepted, last, close, tf)
    ensures EndsAt(all + [GapBar(NextStart(last, tf), close, lastTick, tf)], accepted, NextStart(last, tf), close, tf)
  {
    hide BucketStart, EndMS, NextStart;
    GapSettles(all, accepted, lastTick, tf);
    NextBucket(last, tf);
  }

  /** Empty buckets between the closed one and the next candle. */
  method FillGapBars(start: int, end: int, close: real, next: int, tf: Frame, ghost finals: seq<Emitted>, ghost accepted: seq<Bar>)
    returns (gaps: seq<Emitted>, ghost last: int)
    requires EndsAt(finals, accepted, start, close, tf) && BucketStart(next, tf) == next && start < next
    ensures EndsAt(finals + gaps, accepted, last, close, tf) && NextStart(last, tf) == next
    ensures forall gap :: gap in gaps ==> gap == GapBar(gap.start, close, end, tf)
  {
    hide EndsAt, NextStart, EndMS, BucketStart;
    gaps := [];
    assert finals + gaps == finals;
    last := start;
    var gapStart := NextStart(start, tf);
    AfterLast(finals, accepted, start, close, next, tf);
    while gapStart < next
      invariant EndsAt(finals + gaps, accepted, last, close, tf) && gapStart == NextStart(last, tf) && last < gapStart <= next
      invariant forall gap :: gap in gaps ==> gap == GapBar(gap.start, close, end, tf)
      decreases next - gapStart
    {
      var gap := Emitted(gapStart, EndMS(gapStart, tf), Values(close, close, close, close, 0.0, 0.0, 0, end), true, true);
      GapStep(finals + gaps, accepted, last, close, end, tf);
      assert finals + (gaps + [gap]) == finals + gaps + [gap];
      gaps := gaps + [gap];
      last := gapStart;
      gapStart := NextStart(gapStart, tf);
      AfterLast(finals + gaps, accepted, last, close, next, tf);
    }
  }

  lemma AfterLast(all: seq<Emitted>, accepted: seq<Bar>, last: int, close: real, next: int, tf: Frame)
    requires EndsAt(all, accepted, last, close, tf) && last < next && BucketStart(next, tf) == next
    ensures last < NextStart(last, tf) <= next
  {
    hide Settled, BucketStart, NextStart;
    NextBucket(last, tf);
  }

  ghost predicate Tuned(state: RollingBarState, accepted: seq<Bar>, finals: seq<Emitted>, frame: Frame)
    reads state
  {
    state.frame == frame && InTune(state.start, state.end, state.isClosed, state.View(), accepted, finals, frame)
  }

  lemma JoinAll<T>(a: seq<T>, b: seq<T>, c: seq<T>)
    ensures a + b + c == a + (b + c)
  {
  }

  lemma SameEntry<V>(entries: map<StateKey, V>, key: StateKey)
    requires key in entries
    ensures entries[key := entries[key]] == entries
  {
  }

  lemma EntryTwice<V>(entries: map<StateKey, V>, key: StateKey, first: V, second: V)
    ensures entries[key := first][key := second] == entries[key := second]
  {
  }

  method ExtendOne(state: RollingBarState, bar: Bar, ghost accepted: seq<Bar>, ghost finals: seq<Emitted>, frame: Frame)
    requires Tuned(state, accepted, finals, frame) && !state.isClosed && state.start == BucketStart(bar.start, frame)
    modifies state
    ensures Tuned(state, accepted + [bar], finals, frame) && !state.isClosed
  {
    hide InTune, BucketStart, EndMS;
    TuneExtended(state.start, state.end, state.View(), accepted, finals, bar, frame);
    state.UpdateWithBar(bar);
  }

  method CloseOne(state: RollingBarState, at: int, ghost accepted: seq<Bar>, ghost finals: seq<Emitted>, frame: Frame)
    returns (final: Emitted)
    requires Tuned(state, accepted, finals, frame) && !state.isClosed
    modifies state
    ensures state.isClosed && final == FinalOf(state.start, state.View(), frame)
    ensures Tuned(state, accepted, finals + [final], frame)
  {
    hide Settled, EndMS;
    TuneClosed(state.start, state.end, state.View(), accepted, finals, frame);
    state.MarkClosed(at);
    final := state.ToBar(true);
  }

  /** What a state shows. */
  datatype Shot = Shot(start: int, end: int, values: Values, closed: bool)

  /** Everything the aggregator holds and has handed out. */
  datatype Books = Books(shots: map<StateKey, Shot>, accepted: map<StateKey, seq<Bar>>, finals: map<StateKey, seq<Emitted>>)

  function Entry<V>(entries: map<StateKey, seq<V>>, key: StateKey): seq<V> { if key in entries then entries[key] else [] }

  predicate LateFor(books: Books, bar: Bar, tf: Frame) {
    var key := StateKey(bar.series, tf);
    key in books.shots && (BucketStart(bar.start, tf) < books.shots[key].start
                           || (BucketStart(bar.start, tf) == books.shots[key].start && books.shots[key].closed))
  }

  function UpdateOf(shot: Shot): seq<Emitted> {
    if shot.closed then [] else [Emitted(shot.start, shot.end, shot.values, false, false)]
  }

  /** One timeframe has taken the candle, if it was not too late, and nothing else has changed. */
  ghost predicate Applied(before: Books, bar: Bar, tf: Frame, emitted: seq<Emitted>, updates: seq<Emitted>, after: Books) {
    var key := StateKey(bar.series, tf);
    if LateFor(before, bar, tf) then after == before && emitted == [] && updates == []
    else
      && key in after.shots && after.shots == before.shots[key := after.shots[key]]
      && after.accepted == before.accepted[key := Entry(before.accepted, key) + [bar]]
      && after.finals == before.finals[key := Entry(before.finals, key) + emitted]
      && after.shots[key].start == BucketStart(bar.start, tf) && (after.shots[key].closed <==> bar.end >= after.shots[key].end)
      && updates == UpdateOf(after.shots[key])
  }

  /** The candle has opened or extended the bucket of its timeframe. */
  ghost predicate Received(before: Books, bar: Bar, tf: Frame, emitted: seq<Emitted>, after: Books) {
    var key := StateKey(bar.series, tf);
    && key in after.shots && after.shots == before.shots[key := after.shots[key]]
    && after.accepted == before.accepted[key := Entry(before.accepted, key) + [bar]]
    && after.finals == before.finals[key := Entry(before.finals, key) + emitted]
    && after.shots[key].start == BucketStart(bar.start, tf)
  }

  /** And has closed it or left it open. */
  ghost predicate Decided(before: Books, bar: Bar, key: StateKey, due: seq<Emitted>, updates: seq<Emitted>, after: Books) {
    && key in before.shots && key in after.shots && after.shots == before.shots[key := after.shots[key]]
    && after.accepted == before.accepted && after.finals == before.finals[key := Entry(before.finals, key) + due]
    && after.shots[key].start == before.shots[key].start
    && (after.shots[key].closed <==> bar.end >= after.shots[key].end) && updates == UpdateOf(after.shots[key])
  }

  lemma ReceivedDecided(before: Books, bar: Bar, tf: Frame, emitted: seq<Emitted>, middle: Books, due: seq<Emitted>, updates: seq<Emitted>, after: Books)
    requires !LateFor(before, bar, tf) && Received(before, bar, tf, emitted, middle)
    requires Decided(middle, bar, StateKey(bar.series, tf), due, updates, after)
    ensures Applied(before, bar, tf, emitted + due, updates, after)
  {
    hide LateFor, BucketStart, UpdateOf;
    var key := StateKey(bar.series, tf);
    EntryTwice(before.shots, key, middle.shots[key], after.shots[key]);
    EntryTwice(before.finals, key, Entry(before.finals, key) + emitted, Entry(before.finals, key) + emitted + due);
    JoinAll(Entry(before.finals, key), emitted, due);
  }

  /** What became of one timeframe while a candle went through all of them. */
  ghost predicate Fed(before: Books, bar: Bar, tf: Frame, after: Books) {
    var key := StateKey(bar.series, tf);
    if LateFor(before, bar, tf) then Untouched(before, key, after)
    else
      && Entry(after.accepted, key) == Entry(before.accepted, key) + [bar]
      && Entry(before.finals, key) <= Entry(after.finals, key)
      && key in after.shots && after.shots[key].start == BucketStart(bar.start, tf)
      && (after.shots[key].closed <==> bar.end >= after.shots[key].end)
  }

  predicate Untouched(before: Books, key: StateKey, after: Books) {
    && Entry(after.accepted, key) == Entry(before.accepted, key) && Entry(after.finals, key) == Entry(before.finals, key)
    && (key in after.shots <==> key in before.shots) && (key in after.shots ==> after.shots[key] == before.shots[key])
  }

  /** The finals that the timeframes have got, one timeframe after the other. */
  ghost function NewFinals(before: Books, series: Series, frames: seq<Frame>, after: Books): seq<Emitted> {
    if frames == [] then []
    else
      var last := StateKey(series, frames[|frames| - 1]);
      var given := |Entry(before.finals, last)|;
      NewFinals(before, series, frames[..|frames| - 1], after)
      + if given <= |Entry(after.finals, last)| then Entry(after.finals, last)[given..] else []
  }

  /** The present state of each timeframe that took the candle and was left open by it. */
  ghost function OpenUpdates(before: Books, bar: Bar, frames: seq<Frame>, after: Books): seq<Emitted> {
    if frames == [] then []
    else
      var tf := frames[|frames| - 1];
      var key := StateKey(bar.series, tf);
      OpenUpdates(before, bar, frames[..|frames| - 1], after)
      + if LateFor(before, bar, tf) || key !in after.shots then [] else UpdateOf(after.shots[key])
  }

  predicate Different(frames: seq<Frame>) { forall i, j :: 0 <= i < j < |frames| ==> frames[i] != frames[j] }

  /** The first `i` timeframes have been fed, the others wait. */
  ghost predicate FedUpTo(before: Books, bar: Bar, frames: seq<Frame>, i: nat, finalized: seq<Emitted>, current: seq<Emitted>, now: Books)
    requires i <= |frames|
  {
    && (forall j :: 0 <= j < i ==> Fed(before, bar, frames[j], now))
    && (forall j :: i <= j < |frames| ==> Untouched(before, StateKey(bar.series, frames[j]), now))
    && finalized == NewFinals(before, bar.series, frames[..i], now)
    && current == OpenUpdates(before, bar, frames[..i], now)
  }

  lemma NothingFed(books: Books, bar: Bar, frames: seq<Frame>)
    ensures FedUpTo(books, bar, frames, 0, [], [], books)
  {
  }

  lemma {:induction false} OthersSameFinals(before: Books, series: Series, frames: seq<Frame>, now: Books, after: Books)
    requires forall f :: f in frames ==> Untouched(now, StateKey(series, f), after)
    ensures NewFinals(before, series, frames, after) == NewFinals(before, series, frames, now)
  {
    if frames != [] {
      assert frames[|frames| - 1] in frames;
      OthersSameFinals(before, series, frames[..|frames| - 1], now, after);
    }
  }

  lemma {:induction false} OthersSameUpdates(before: Books, bar: Bar, frames: seq<Frame>, now: Books, after: Books)
    requires forall f :: f in frames ==> Untouched(now, StateKey(bar.series, f), after)
    ensures OpenUpdates(before, bar, frames, after) == OpenUpdates(before, bar, frames, now)
  {
    hide LateFor;
    if frames != [] {
      assert frames[|frames| - 1] in frames;
      OthersSameUpdates(before, bar, frames[..|frames| - 1], now, after);
    }
  }

  lemma AppliedElsewhere(now: Books, bar: Bar, tf: Frame, emitted: seq<Emitted>, updates: seq<Emitted>, after: Books, key: StateKey)
    requires Applied(now, bar, tf, emitted, updates, after) && key != StateKey(bar.series, tf)
    ensures Untouched(now, key, after)
  {
    hide LateFor, BucketStart, UpdateOf;
  }

  /** What is new of the timeframe that waited so far. */
  lemma AppliedIsNew(before: Books, now: Books, bar: Bar, tf: Frame, emitted: seq<Emitted>, updates: seq<Emitted>, after: Books)
    requires Untouched(before, StateKey(bar.series, tf), now) && Applied(now, bar, tf, emitted, updates, after)
    ensures Fed(before, bar, tf, after)
    ensures var key := StateKey(bar.series, tf);
            && Entry(before.finals, key) + emitted == Entry(after.finals, key)
            && updates == if LateFor(before, bar, tf) || key !in after.shots then [] else UpdateOf(after.shots[key])
  {
    hide BucketStart, UpdateOf;
  }

  lemma FedNext(before: Books, now: Books, bar: Bar, frames: seq<Frame>, i: nat, finalized: seq<Emitted>, current: seq<Emitted>,
                emitted: seq<Emitted>, updates: seq<Emitted>, after: Books)
    requires Different(frames) && i < |frames| && FedUpTo(before, bar, frames, i, finalized, current, now)
    requires Applied(now, bar, frames[i], emitted, updates, after)
    ensures FedUpTo(before, bar, frames, i + 1, finalized + emitted, current + updates, after)
  {
    hide LateFor, UpdateOf, Applied, Fed, Untouched;
    var tf, key := frames[i], StateKey(bar.series, frames[i]);
    forall j | 0 <= j < |frames| && j != i ensures Untouched(now, StateKey(bar.series, frames[j]), after) {
      AppliedElsewhere(now, bar, tf, emitted, updates, after, StateKey(bar.series, frames[j]));
    }
    AppliedIsNew(before, now, bar, tf, emitted, updates, after);
    OthersSameFinals(before, bar.series, frames[..i], now, after);
    OthersSameUpdates(before, bar, frames[..i], now, after);
    assert frames[..i + 1][..i] == frames[..i] && frames[..i + 1][i] == tf;
    NextFinals(before, bar.series, frames[..i + 1], after, emitted);
    NextUpdates(before, bar, frames[..i + 1], after, updates);
    forall j | 0 <= j < i + 1 ensures Fed(before, bar, frames[j], after) {
      if j < i { FedStays(before, bar, frames[j], now, after); }
    }
    forall j | i + 1 <= j < |frames| ensures Untouched(before, StateKey(bar.series, frames[j]), after) {
      UntouchedStays(before, StateKey(bar.series, frames[j]), now, after);
    }
  }

  lemma NextFinals(before: Books, series: Series, frames: seq<Frame>, after: Books, emitted: seq<Emitted>)
    requires frames != []
    requires var key := StateKey(series, frames[|frames| - 1]); Entry(before.finals, key) + emitted == Entry(after.finals, key)
    ensures NewFinals(before, series, frames, after) == NewFinals(before, series, frames[..|frames| - 1], after) + emitted
  {
  }

  lemma NextUpdates(before: Books, bar: Bar, frames: seq<Frame>, after: Books, updates: seq<Emitted>)
    requires frames != []
    requires var tf, key := frames[|frames| - 1], StateKey(bar.series, frames[|frames| - 1]);
             updates == if LateFor(before, bar, tf) || key !in after.shots then [] else UpdateOf(after.shots[key])
    ensures OpenUpdates(before, bar, frames, after) == OpenUpdates(before, bar, frames[..|frames| - 1], after) + updates
  {
    hide LateFor, UpdateOf;
  }

  lemma FedStays(before: Books, bar: Bar, tf: Frame, now: Books, after: Books)
    requires Fed(before, bar, tf, now) && Untouched(now, StateKey(bar.series, tf), after)
    ensures Fed(before, bar, tf, after)
  {
    hide LateFor, BucketStart;
  }

  lemma UntouchedStays(before: Books, key: StateKey, now: Books, after: Books)
    requires Untouched(before, key, now) && Untouched(now, key, after)
    ensures Untouched(before, key, after)
  {
  }

  class MinuteBarRollupAggregator {
    var states: map<StateKey, RollingBarState>
    ghost var accepted: map<StateKey, seq<Bar>>
    ghost var finals: map<StateKey, seq<Emitted>>

    ghost predicate Valid()
      reads this, states.Values
    {
      && states.Keys == accepted.Keys == finals.Keys
      && (forall a, b :: a in states && b in states && a != b ==> states[a] != states[b])
      && forall key :: key in states ==> Tuned(states[key], accepted[key], finals[key], key.frame)
    }

    constructor ()
      ensures Valid() && states == map[]
    {
      states, accepted, finals := map[], map[], map[];
    }

    /** What all states show. */
    ghost function Snapshot(): map<StateKey, Shot>
      reads this, states.Values
    {
      map k | k in states :: Shot(states[k].start, states[k].end, states[k].View(), states[k].isClosed)
    }

    lemma ShowsStart(key: StateKey)
      requires key in states
      ensures key in Snapshot() && Snapshot()[key].start == states[key].start
    {
      hide RollingBarState.View;
    }

    ghost function AllBooks(): Books
      reads this, states.Values
    {
      Books(Snapshot(), accepted, finals)
    }

    /** A call that touches the state of one key leaves what the others show. */
    twostate lemma OthersShow(key: StateKey)
      requires key in states && states == old(states)[key := states[key]]
      requires forall k :: k in old(states) && k != key ==> unchanged(old(states[k]))
      ensures Snapshot() == old(Snapshot())[key := Snapshot()[key]]
    {
      hide RollingBarState.View;
    }

    /** It stays valid if that state is in tune again. */
    twostate lemma OneTuned(key: StateKey)
      requires old(Valid()) && key in states && states == old(states)
      requires forall k :: k in states && k != key ==> unchanged(states[k])
      requires key in accepted && accepted == old(accepted)[key := accepted[key]]
      requires key in finals && finals == old(finals)[key := finals[key]]
      requires Tuned(states[key], accepted[key], finals[key], key.frame)
      ensures Valid()
    {
      hide Tuned;
      forall k | k in states ensures Tuned(states[k], accepted[k], finals[k], k.frame) {
        if k != key { assert old(Tuned(states[k], accepted[k], finals[k], k.frame)); }
      }
    }

    lemma Separate(key: StateKey)
      requires Valid() && key in states
      ensures key in accepted && key in finals && Tuned(states[key], accepted[key], finals[key], key.frame)
      ensures forall k :: k in states && k != key ==> states[k] != states[key]
    {
      hide Tuned;
    }

    /** Too late: the candle's bucket is past or already closed. */
    predicate TooLate(bar: Bar, tf: Frame)
      reads this, states.Values
    {
      var key := StateKey(bar.series, tf);
      key in states && (BucketStart(bar.start, tf) < states[key].start
                        || (BucketStart(bar.start, tf) == states[key].start && states[key].isClosed))
    }

    /** Puts the state of a newly first bucket in place. */
    method Install(key: StateKey, state: RollingBarState, ghost taken: seq<Bar>, ghost given: seq<Emitted>)
      requires Valid() && state !in states.Values && Tuned(state, taken, given, key.frame)
      modifies this
      ensures Valid() && states == old(states)[key := state]
      ensures accepted == old(accepted)[key := taken] && finals == old(finals)[key := given]
      ensures Snapshot() == old(Snapshot())[key := Snapshot()[key]]
    {
      hide Tuned, Snapshot;
      assert forall k :: k in states ==> states[k] in states.Values;
      states, accepted, finals := states[key := state], accepted[key := taken], finals[key := given];
      OthersShow(key);
    }

    method OpenFirst(bar: Bar, tf: Frame)
      requires Valid() && StateKey(bar.series, tf) !in states
      modifies this
      ensures var key := StateKey(bar.series, tf);
              && Valid() && key in states && fresh(states[key]) && !states[key].isClosed
              && states[key].start == BucketStart(bar.start, tf) && states == old(states)[key := states[key]]
              && Received(old(AllBooks()), bar, tf, [], AllBooks())
    {
      hide InTune, BucketStart, EndMS, Snapshot;
      TuneFirst(bar, tf);
      assert StateKey(bar.series, tf) !in accepted.Keys && StateKey(bar.series, tf) !in finals.Keys;
      var start := BucketStart(bar.start, tf);
      var state := new RollingBarState.FromBar(bar, tf, start, EndMS(start, tf));
      Install(StateKey(bar.series, tf), state, [bar], []);
      assert [] + [bar] == [bar] && finals[StateKey(bar.series, tf)] == [] + [];
      ShowsStart(StateKey(bar.series, tf));
    }

    method ExtendState(bar: Bar, tf: Frame)
      requires Valid() && StateKey(bar.series, tf) in states
      requires !states[StateKey(bar.series, tf)].isClosed && states[StateKey(bar.series, tf)].start == BucketStart(bar.start, tf)
      modifies this`accepted, states[StateKey(bar.series, tf)]
      ensures var key := StateKey(bar.series, tf);
              && Valid() && !states[key].isClosed && Received(old(AllBooks()), bar, tf, [], AllBooks())
    {
      hide Valid, Tuned, BucketStart, Snapshot;
      var key := StateKey(bar.series, tf);
      Separate(key);
      var state := states[key];
      ExtendOne(state, bar, accepted[key], finals[key], tf);
      SameEntry(finals, key);
      SameEntry(states, key);
      accepted := accepted[key := accepted[key] + [bar]];
      OneTuned(key);
      OthersShow(key);
      ShowsStart(key);
      assert finals[key] + [] == finals[key];
    }

    /** Closes the state of a key and hands out its final candle. */
    method FinalizeState(key: StateKey, at: int) returns (final: Emitted)
      requires Valid() && key in states && !states[key].isClosed
      modifies this`finals, states[key]
      ensures Valid() && states[key].isClosed && final.isFinal && !final.gap && final.start == states[key].start
      ensures finals == old(finals)[key := old(finals)[key] + [final]]
      ensures Snapshot() == old(Snapshot())[key := Snapshot()[key]]
    {
      hide Valid, Tuned, Snapshot, RollingBarState.View;
      Separate(key);
      var state := states[key];
      final := CloseOne(state, at, accepted[key], finals[key], key.frame);
      SameEntry(accepted, key);
      SameEntry(states, key);
      finals := finals[key := finals[key] + [final]];
      OneTuned(key);
      OthersShow(key);
    }

    /** Fills the buckets after a closed state and starts the one of the candle. */
    method StartNext(bar: Bar, tf: Frame) returns (gaps: seq<Emitted>)
      requires Valid() && StateKey(bar.series, tf) in states
      requires states[StateKey(bar.series, tf)].isClosed && states[StateKey(bar.series, tf)].start < BucketStart(bar.start, tf)
      modifies this
      ensures var key := StateKey(bar.series, tf);
              && Valid() && key in states && fresh(states[key]) && !states[key].isClosed && states == old(states)[key := states[key]]
              && states[key].start == BucketStart(bar.start, tf)
              && accepted == old(accepted)[key := old(accepted)[key] + [bar]]
              && finals == old(finals)[key := old(finals)[key] + gaps]
              && Snapshot() == old(Snapshot())[key := Snapshot()[key]]
      ensures forall gap :: gap in gaps ==>
                gap == GapBar(gap.start, old(states[StateKey(bar.series, tf)].close), old(states[StateKey(bar.series, tf)].end), tf)
    {
      hide Settled, BucketStart, EndMS, NextStart, Snapshot;
      var key, start := StateKey(bar.series, tf), BucketStart(bar.start, tf);
      var previous := states[key];
      BucketIsAligned(bar.start, tf);
      TuneStarts(previous.start, previous.end, true, previous.View(), accepted[key], finals[key], tf);
      ghost var last: int;
      gaps, last := FillGapBars(previous.start, previous.end, previous.close, start, tf, finals[key], accepted[key]);
      TuneOpened(accepted[key], finals[key] + gaps, bar, tf);
      var state := new RollingBarState.FromBar(bar, tf, start, EndMS(start, tf));
      Install(key, state, accepted[key] + [bar], finals[key] + gaps);
    }

    /** Ends the bucket of a state, if it is still open, and goes on to the bucket of the candle. */
    method MoveOn(bar: Bar, tf: Frame) returns (finalized: seq<Emitted>)
      requires Valid() && StateKey(bar.series, tf) in states
      requires states[StateKey(bar.series, tf)].start < BucketStart(bar.start, tf)
      modifies this, states[StateKey(bar.series, tf)]
      ensures Valid() && StateKey(bar.series, tf) in states && fresh(states[StateKey(bar.series, tf)])
      ensures !states[StateKey(bar.series, tf)].isClosed && states[StateKey(bar.series, tf)].start == BucketStart(bar.start, tf)
      ensures states == old(states)[StateKey(bar.series, tf) := states[StateKey(bar.series, tf)]]
      ensures Received(old(AllBooks()), bar, tf, finalized, AllBooks())
      ensures forall f :: f in finalized ==> f.isFinal
    {
      hide Tuned, BucketStart, FinalOf, RollingBarState.View, ValuesOf, Snapshot;
      var key := StateKey(bar.series, tf);
      ghost var before, given := finals, finals[key];
      ghost var shown := Snapshot();
      var closing := EndBucket(key, TickOf(bar));
      ghost var shot := Snapshot()[key];
      var gaps := StartNext(bar, tf);
      EntryTwice(shown, key, shot, Snapshot()[key]);
      ShowsStart(key);
      finalized := closing + gaps;
      EntryTwice(before, key, given + closing, given + closing + gaps);
      JoinAll(given, closing, gaps);
    }

    /** Ends the bucket of a state, if it is still open. */
    method EndBucket(key: StateKey, at: int) returns (closing: seq<Emitted>)
      requires Valid() && key in states
      modifies this`finals, states[key]
      ensures Valid() && states[key].isClosed && finals == old(finals)[key := old(finals[key]) + closing]
      ensures Snapshot() == old(Snapshot())[key := Snapshot()[key]]
      ensures forall f :: f in closing ==> f.isFinal
    {
      hide Tuned;
      closing := [];
      if states[key].isClosed {
        SameEntry(finals, key);
        assert finals[key] + [] == finals[key];
      } else {
        var final := FinalizeState(key, at);
        closing := [final];
      }
    }

    /** Takes in a candle that is not too late: it opens or extends the state of its bucket. */
    method Receive(bar: Bar, tf: Frame) returns (finalized: seq<Emitted>)
      requires Valid() && !TooLate(bar, tf)
      modifies this, states.Values
      ensures Valid() && StateKey(bar.series, tf) in states && !states[StateKey(bar.series, tf)].isClosed
      ensures Received(old(AllBooks()), bar, tf, finalized, AllBooks())
      ensures forall f :: f in finalized ==> f.isFinal
      ensures forall k :: k in states ==> states[k] in old(states).Values || fresh(states[k])
    {
      hide Valid, Tuned, BucketStart, RollingBarState.View, Received, Snapshot;
      var key := StateKey(bar.series, tf);
      finalized := [];
      if key !in states {
        OpenFirst(bar, tf);
        return;
      }
      if states[key].start == BucketStart(bar.start, tf) {
        ExtendState(bar, tf);
        return;
      }
      finalized := MoveOn(bar, tf);
    }

    lemma LateShows(bar: Bar, tf: Frame)
      ensures TooLate(bar, tf) <==> LateFor(AllBooks(), bar, tf)
    {
      hide BucketStart, RollingBarState.View;
    }

    /** Takes a candle that is not too late. */
    method Take(bar: Bar, tf: Frame) returns (finalized: seq<Emitted>, current: Option<Emitted>)
      requires Valid() && !TooLate(bar, tf)
      modifies this, states.Values
      ensures Valid() && Applied(old(AllBooks()), bar, tf, finalized, if current.Some? then [current.value] else [], AllBooks())
      ensures forall k :: k in states ==> states[k] in old(states).Values || fresh(states[k])
      ensures (forall f :: f in finalized ==> f.isFinal) && (current.Some? ==> !current.value.isFinal)
    {
      hide Valid, TooLate, BucketStart, RollingBarState.View, LateFor, Snapshot, Received, Decided, Applied;
      LateShows(bar, tf);
      var key := StateKey(bar.series, tf);
      ghost var before := AllBooks();
      var first := Receive(bar, tf);
      ghost var middle := AllBooks();
      var due: seq<Emitted>;
      due, current := CloseIfDue(bar, key);
      ReceivedDecided(before, bar, tf, first, middle, due, if current.Some? then [current.value] else [], AllBooks());
      finalized := first + due;
    }

    /** Takes a minute candle for one timeframe, unless it is too late: final candles that became
        due, and then either the candle that it closes or the present state of its bucket. */
    method ApplyBar(bar: Bar, tf: Frame) returns (finalized: seq<Emitted>, current: Option<Emitted>)
      requires Valid()
      modifies this, states.Values
      ensures Valid() && Applied(old(AllBooks()), bar, tf, finalized, if current.Some? then [current.value] else [], AllBooks())
      ensures forall k :: k in states ==> states[k] in old(states).Values || fresh(states[k])
      ensures (forall f :: f in finalized ==> f.isFinal) && (current.Some? ==> !current.value.isFinal)
    {
      hide Valid, BucketStart, RollingBarState.View, LateFor, Snapshot;
      LateShows(bar, tf);
      var key := StateKey(bar.series, tf);
      if key in states {
        var state := states[key];
        if BucketStart(bar.start, tf) < state.start || (BucketStart(bar.start, tf) == state.start && state.isClosed) {
          return [], None;
        }
      }
      finalized, current := Take(bar, tf);
    }

    /** The candle either closes the bucket of its state or leaves it open. */
    method CloseIfDue(bar: Bar, key: StateKey) returns (due: seq<Emitted>, current: Option<Emitted>)
      requires Valid() && key in states && !states[key].isClosed
      modifies this`finals, states[key]
      ensures Valid() && Decided(old(AllBooks()), bar, key, due, if current.Some? then [current.value] else [], AllBooks())
      ensures current.Some? ==> !current.value.isFinal
      ensures forall f :: f in due ==> f.isFinal
    {
      hide Valid, Tuned, RollingBarState.View;
      due, current := [], None;
      Separate(key);
      if bar.end >= states[key].end {
        var final := FinalizeState(key, TickOf(bar));
        due := [final];
      } else {
        var update := states[key].ToBar(false);
        current := Some(update);
        SameEntry(finals, key);
        assert finals[key] + [] == finals[key];
      }
    }

    /** Takes a minute candle for every configured timeframe: each of them takes it unless it is too
        late there, the finals are those that have become due, one timeframe after the other, and the
        current candles those of the timeframes that were left open. */
    method On1mBar(bar: Bar, frames: seq<Frame>) returns (finalized: seq<Emitted>, current: seq<Emitted>, ok: bool)
      requires Valid()
      modifies this, states.Values
      ensures Valid() && (ok <==> bar.frame == M1)
      ensures !ok ==> finalized == [] && current == [] && AllBooks() == old(AllBooks())
      ensures ok && Different(frames) ==> forall f :: f in frames ==> Fed(old(AllBooks()), bar, f, AllBooks())
      ensures ok && Different(frames) ==> finalized == NewFinals(old(AllBooks()), bar.series, frames, AllBooks())
      ensures ok && Different(frames) ==> current == OpenUpdates(old(AllBooks()), bar, frames, AllBooks())
      ensures (forall f :: f in finalized ==> f.isFinal) && (forall f :: f in current ==> !f.isFinal)
      ensures SameElsewhere(old(accepted), accepted, bar.series, frames) && SameElsewhere(old(finals), finals, bar.series, frames)
      ensures SameElsewhere(old(Snapshot()), Snapshot(), bar.series, frames)
    {
      hide Valid, BucketStart, EndMS, RollingBarState.View, SameElsewhere, Snapshot, FedUpTo, Fed,
           Applied, NewFinals, OpenUpdates;
      finalized, current, ok := [], [], bar.frame == M1;
      ghost var before := AllBooks();
      NothingElsewhere(accepted, bar.series, frames);
      NothingElsewhere(finals, bar.series, frames);
      NothingElsewhere(before.shots, bar.series, frames);
      NothingFed(before, bar, frames);
      if !ok {
        return;
      }
      for i := 0 to |frames|
        invariant Valid() && forall k :: k in states ==> states[k] in old(states).Values || fresh(states[k])
        invariant (forall f :: f in finalized ==> f.isFinal) && (forall f :: f in current ==> !f.isFinal)
        invariant AllElsewhere(before, AllBooks(), bar.series, frames)
        invariant Different(frames) ==> FedUpTo(before, bar, frames, i, finalized, current, AllBooks())
      {
        ghost var now := AllBooks();
        var emitted, update := ApplyBar(bar, frames[i]);
        ghost var updates := if update.Some? then [update.value] else [];
        StillAllElsewhere(before, now, bar, frames, i, emitted, updates, AllBooks());
        if Different(frames) { FedNext(before, now, bar, frames, i, finalized, current, emitted, updates, AllBooks()); }
        assert current + [] == current;
        finalized := finalized + emitted;
        if update.Some? {
          current := current + [update.value];
        }
      }
      FedAll(before, bar, frames, finalized, current, AllBooks());
    }
  }

  lemma FedAll(before: Books, bar: Bar, frames: seq<Frame>, finalized: seq<Emitted>, current: seq<Emitted>, after: Books)
    ensures FedUpTo(before, bar, frames, |frames|, finalized, current, after) ==>
              && (forall f :: f in frames ==> Fed(before, bar, f, after))
              && finalized == NewFinals(before, bar.series, frames, after) && current == OpenUpdates(before, bar, frames, after)
  {
    hide Fed;
    assert frames[..|frames|] == frames;
  }

  ghost predicate AllElsewhere(before: Books, after: Books, series: Series, frames: seq<Frame>) {
    && SameElsewhere(before.accepted, after.accepted, series, frames) && SameElsewhere(before.finals, after.finals, series, frames)
    && SameElsewhere(before.shots, after.shots, series, frames)
  }

  lemma StillAllElsewhere(before: Books, now: Books, bar: Bar, frames: seq<Frame>, i: nat, emitted: seq<Emitted>, updates: seq<Emitted>, after: Books)
    requires AllElsewhere(before, now, bar.series, frames) && i < |frames| && Applied(now, bar, frames[i], emitted, updates, after)
    ensures AllElsewhere(before, after, bar.series, frames)
  {
    hide SameElsewhere, LateFor, UpdateOf, BucketStart;
    var key := StateKey(bar.series, frames[i]);
    if !LateFor(now, bar, frames[i]) {
      StillElsewhere(before.accepted, now.accepted, key, Entry(now.accepted, key) + [bar], frames);
      StillElsewhere(before.finals, now.finals, key, Entry(now.finals, key) + emitted, frames);
      StillElsewhere(before.shots, now.shots, key, after.shots[key], frames);
    }
  }

  /** Entries of other series and timeframes are the same. */
  ghost predicate SameElsewhere<V(!new)>(before: map<StateKey, V>, after: map<StateKey, V>, series: Series, frames: seq<Frame>) {
    forall k: StateKey :: k.series != series || k.frame !in frames ==>
      (k in before <==> k in after) && (k in before ==> before[k] == after[k])
  }

  lemma NothingElsewhere<V(!new)>(entries: map<StateKey, V>, series: Series, frames: seq<Frame>)
    ensures SameElsewhere(entries, entries, series, frames)
  {
  }

  lemma StillElsewhere<V(!new)>(before: map<StateKey, V>, middle: map<StateKey, V>, key: StateKey, value: V, frames: seq<Frame>)
    requires SameElsewhere(before, middle, key.series, frames) && key.frame in frames
    ensures SameElsewhere(before, middle[key := value], key.series, frames)
  {
  }

  /** The streaming rollup is exact for every stream: its finals tile time without a hole or a repeat,
      each one that is no gap holds exactly the accepted candles of its bucket, the open bucket comes
      next, and finals and open bucket together hold all that was accepted. */
  lemma StreamIsExact(start: int, end: int, closed: bool, values: Values, accepted: seq<Bar>, finals: seq<Emitted>, tf: Frame)
    requires InTune(start, end, closed, values, accepted, finals, tf)
    ensures forall i, j :: 0 <= i < j < |finals| && j == i + 1 ==> finals[j].start == NextStart(finals[i].start, tf)
    ensures forall f :: f in finals && !f.gap ==>
              OfBucket(accepted, f.start, tf) != [] && f.values == FoldValues(OfBucket(accepted, f.start, tf))
    ensures forall f :: f in finals && f.gap ==> OfBucket(accepted, f.start, tf) == []
    ensures OfBucket(accepted, start, tf) != [] && values == FoldValues(OfBucket(accepted, start, tf))
    ensures !closed && finals != [] ==> start == NextStart(finals[|finals| - 1].start, tf)
    ensures TotalsOf(accepted) == if closed then TotalsOfFinals(finals)
                                  else AddTotals(TotalsOfFinals(finals), values.volume, values.quoteVolume, values.tradeCount)
  {
    hide BucketStart, NextStart, EndMS, OfBucket, FoldValues, HasFinalOf, TotalsOf, TotalsOfFinals;
    var all := if closed then finals else finals + [FinalOf(start, values, tf)];
    assert all[|all| - 1] in all && Faithful(all[|all| - 1], accepted, tf);
    forall f | f in finals ensures Faithful(f, accepted, tf) { assert f in all; }
    forall i, j | 0 <= i < j < |finals| && j == i + 1 ensures finals[j].start == NextStart(finals[i].start, tf) {
      assert Follows(all[i], all[j], tf);
    }
    if !closed {
      TotalsOfFinalsAppend(finals, FinalOf(start, values, tf));
      if finals != [] { assert Follows(all[|finals| - 1], all[|finals|], tf); }
    }
  }
}
