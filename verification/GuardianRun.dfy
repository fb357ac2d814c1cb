/** Whole repair runs of the guardian, and the retry state that survives them. */
module GuardianRun {
  import opened Timeframe
  import opened Rollup
  import opened Storage
  import opened GuardianRepair
  import opened BucketCounting
  import GapTargets

  // ----- the retry state -----

  datatype Status =
    | Fine | Repaired | ConfirmedNoTrades | NotListed | NoData
    | Unchecked | RestError | EmptyResponse | IncompleteResponse | RepairError

  datatype AuditState = AuditState(start: int, end: int, status: Status)

  predicate Retryable(status: Status) {
    status in {RepairError, RestError, EmptyResponse, IncompleteResponse, Unchecked}
  }

  /** Results of one series, in order of writing. */
  function AfterUpsert(state: Option<AuditState>, update: AuditState): Option<AuditState> {
    if state.Some? && Retryable(state.value.status) && (update.start > state.value.start || update.end < state.value.end)
    then state
    else Some(update)
  }

  function AfterUpserts(state: Option<AuditState>, updates: seq<AuditState>): Option<AuditState> {
    if updates == [] then state
    else AfterUpsert(AfterUpserts(state, updates[..|updates| - 1]), updates[|updates| - 1])
  }

  predicate Encloses(outer: AuditState, inner: AuditState) { outer.start <= inner.start && inner.end <= outer.end }

  predicate Resolves(update: AuditState, pending: AuditState) { !Retryable(update.status) && Encloses(update, pending) }

  /** A pending retry is never forgotten: however results come in, it stays pending over at least
      its own range until a result that covers that range settles it. */
  lemma {:induction false} PendingRetryStays(pending: AuditState, updates: seq<AuditState>)
    requires Retryable(pending.status)
    ensures var after := AfterUpserts(Some(pending), updates);
            || (after.Some? && Retryable(after.value.status) && Encloses(after.value, pending))
            || exists update :: update in updates && Resolves(update, pending)
  {
    if updates != [] {
      var front, last := updates[..|updates| - 1], updates[|updates| - 1];
      PendingRetryStays(pending, front);
      assert updates == front + [last];
      var before := AfterUpserts(Some(pending), front);
      if before.Some? && Retryable(before.value.status) && Encloses(before.value, pending) {
        if AfterUpsert(before, last) != before && !Retryable(last.status) {
          assert last in updates && Resolves(last, pending);
        }
      } else {
        var update :| update in front && Resolves(update, pending);
        assert update in updates;
      }
    }
  }

  // ----- one run -----

  /** What the exchange answers and what else may fail. */
  datatype World = World(fetched: Option<seq<Bar>>, hourly: map<int, seq<Bar>>, repairs: bool, rollups: bool,
                         eventsStored: bool, stateStored: bool)

  datatype Outcome = Done | Error

  /** The request on the grid. */
  function OnGrid(request: Request): Request {
    request.(start := FloorStart(request.start, request.frame), end := FloorStart(request.end, request.frame))
  }

  /** Daily ranges begin no earlier than the listing day. */
  function Clipped(request: Request): Request {
    if request.frame == D1 && request.expectedStart > 0 && request.start < FloorStart(request.expectedStart, D1)
    then request.(start := FloorStart(request.expectedStart, D1)) else request
  }

  predicate Differs(local: Bar, official: Bar, tolerance: real) {
    || local.end != official.end || !local.isFinal
    || FarApart(local.open, official.open, tolerance) || FarApart(local.high, official.high, tolerance)
    || FarApart(local.low, official.low, tolerance) || FarApart(local.close, official.close, tolerance)
    || FarApart(local.volume, official.volume, tolerance) || FarApart(local.quoteVolume, official.quoteVolume, tolerance)
    || FarApart(local.contractVolume, official.contractVolume, tolerance)
    || (TradeCountAvailable(official) && local.tradeCount != official.tradeCount)
  }

  predicate FarApart(x: real, official: real, tolerance: real) {
    Abs(x - official) > Max(tolerance, Abs(official) * tolerance)
  }

  /** Each price and each volume makes a difference beyond the tolerance, and the end, the final flag and,
      where it is reported, the number of trades always. */
  lemma EachDifferenceCounts(official: Bar, x: real, n: int, tolerance: real)
    requires official.isFinal && tolerance >= 0.0
    ensures Differs(official.(open := x), official, tolerance) <==> FarApart(x, official.open, tolerance)
    ensures Differs(official.(high := x), official, tolerance) <==> FarApart(x, official.high, tolerance)
    ensures Differs(official.(low := x), official, tolerance) <==> FarApart(x, official.low, tolerance)
    ensures Differs(official.(close := x), official, tolerance) <==> FarApart(x, official.close, tolerance)
    ensures Differs(official.(volume := x), official, tolerance) <==> FarApart(x, official.volume, tolerance)
    ensures Differs(official.(quoteVolume := x), official, tolerance) <==> FarApart(x, official.quoteVolume, tolerance)
    ensures Differs(official.(contractVolume := x), official, tolerance) <==> FarApart(x, official.contractVolume, tolerance)
    ensures Differs(official.(tradeCount := n), official, tolerance) <==>
              n != official.tradeCount && (official.tradeCount > 0 || official.series.exchange == "binance")
    ensures Differs(official.(end := n), official, tolerance) <==> n != official.end
    ensures Differs(official.(isFinal := false), official, tolerance)
    ensures !Differs(official.(lastTick := n), official, tolerance)
  {
    hide FarApart;
    NotFarFromItself(official.open, tolerance);
    NotFarFromItself(official.high, tolerance);
    NotFarFromItself(official.low, tolerance);
    NotFarFromItself(official.close, tolerance);
    NotFarFromItself(official.volume, tolerance);
    NotFarFromItself(official.quoteVolume, tolerance);
    NotFarFromItself(official.contractVolume, tolerance);
  }

  lemma NotFarFromItself(x: real, tolerance: real)
    requires tolerance >= 0.0
    ensures !FarApart(x, x, tolerance)
  {
  }

  /** The official candles to be written: new ones, different ones, or all of them on a replay. */
  predicate Needed(local: seq<Bar>, official: Bar, replay: bool, tolerance: real) {
    || replay || !HasStart(local, official.start)
    || exists bar :: bar in local && bar.start == official.start && Differs(bar, official, tolerance)
  }

  method ToRepair(accepted: seq<Bar>, local: seq<Bar>, replay: bool, tolerance: real) returns (needed: seq<Bar>, differing: nat)
    requires StartsIncrease(local)
    ensures forall bar :: bar in needed <==> bar in accepted && Needed(local, bar, replay, tolerance)
    ensures differing == 0 <==> forall bar :: bar in accepted ==> !Needed(local, bar, false, tolerance)
  {
    hide Differs;
    var byStart: map<int, Bar> := map[];
    for i := 0 to |local|
      invariant forall t :: t in byStart ==> byStart[t] in local[..i] && byStart[t].start == t
      invariant forall j :: 0 <= j < i ==> local[j].start in byStart && byStart[local[j].start] == local[j]
    {
      byStart := byStart[local[i].start := local[i]];
    }
    needed, differing := [], 0;
    for i := 0 to |accepted|
      invariant forall bar :: bar in needed <==> bar in accepted[..i] && Needed(local, bar, replay, tolerance)
      invariant differing == 0 <==> forall bar :: bar in accepted[..i] ==> !Needed(local, bar, false, tolerance)
    {
      var bar := accepted[i];
      assert accepted[..i + 1] == accepted[..i] + [bar];
      var changed := bar.start !in byStart || Differs(byStart[bar.start], bar, tolerance);
      ByStartDecides(local, byStart, bar, tolerance);
      if changed {
        differing := differing + 1;
      }
      if changed || replay {
        needed := needed + [bar];
      }
    }
    assert accepted[..|accepted|] == accepted;
  }

  lemma ByStartDecides(local: seq<Bar>, byStart: map<int, Bar>, official: Bar, tolerance: real)
    requires forall t :: t in byStart ==> byStart[t] in local && byStart[t].start == t
    requires forall j :: 0 <= j < |local| ==> local[j].start in byStart && byStart[local[j].start] == local[j]
    ensures Needed(local, official, false, tolerance)
       <==> official.start !in byStart || Differs(byStart[official.start], official, tolerance)
  {
    hide Differs;
  }

  datatype StateKey = StateKey(series: Series, frame: Frame)

  class GuardianStates {
    var states: map<StateKey, AuditState>

    function StateOf(key: StateKey): Option<AuditState>
      reads this
    {
      if key in states then Some(states[key]) else None
    }

    constructor ()
      ensures states == map[]
    {
      states := map[];
    }

    method UpsertAuditState(request: Request, status: Status)
      modifies this
      ensures var key := StateKey(request.series, request.frame);
              && StateOf(key) == AfterUpsert(old(StateOf(key)), AuditState(request.start, request.end, status))
              && Recorded(old(StateOf(key)), request, status, StateOf(key))
              && forall other :: other != key ==> StateOf(other) == old(StateOf(other))
    {
      var key := StateKey(request.series, request.frame);
      if key in states {
        var pending := states[key];
        if Retryable(pending.status) && (request.start > pending.start || request.end < pending.end) {
          return;
        }
      }
      states := states[key := AuditState(request.start, request.end, status)];
    }
  }

  /** The range has an answer from the exchange that accounts for every stored candle; `accepted`
      are its candles and `confirmed` the days proven to be without trades. */
  ghost predicate Accounts(rows: Rows, world: World, request: Request, now: int, accepted: seq<Bar>, confirmed: set<int>) {
    var local := RangeBars(rows, request.series, request.frame, request.start, request.end);
    && world.fetched.Some? && Filtered(world.fetched.value, request, now, accepted)
    && (forall bar :: bar in world.fetched.value ==> !Rejectable(bar, request, now))
    && (confirmed != {} ==> request.frame == D1)
    && (forall day :: day in confirmed ==> ProvenEmpty(rows, world.hourly, request, local, day, now))
    && !Stray(local, accepted, confirmed)
  }

  predicate AllGoesWell(world: World) {
    world.fetched.Some? && world.repairs && world.rollups && world.eventsStored && world.stateStored
  }

  /** The answer is complete as far as completeness is expected, and accounts for what is stored. */
  ghost predicate AnswerHolds(request: Request, accepted: seq<Bar>, rejected: nat, confirmed: set<int>, local: seq<Bar>) {
    && rejected == 0 && !Stray(local, accepted, confirmed)
    && (ChecksExpected(request) ==> Covered(request, accepted, confirmed, ExpectedFrom(request)))
    && (NothingKnown(request) ==> Covered(request, accepted, confirmed, request.start))
  }

  /** What an answer must fulfil for the run to succeed. */
  ghost predicate Passes(rows: Rows, world: World, request: Request, now: int, accepted: seq<Bar>, confirmed: set<int>) {
    && (accepted != [] || confirmed != {})
    && (world.fetched.Some? ==> forall bar :: bar in world.fetched.value ==> !Rejectable(bar, request, now))
    && AnswerHolds(request, accepted, 0, confirmed, RangeBars(rows, request.series, request.frame, request.start, request.end))
  }

  /** A listing time comes with the expectation of data, as the guardian's own tasks have it. */
  predicate ListingExpectsData(request: Request) { request.expectedStart > 0 ==> request.expectData || request.frame == D1 }

  /** The state after a result: a retry that is pending beyond the range stays, otherwise the result is stored. */
  predicate Recorded(before: Option<AuditState>, range: Request, status: Status, after: Option<AuditState>) {
    if Pending(before) && !(range.start <= before.value.start && before.value.end <= range.end) then after == before
    else after == Some(AuditState(range.start, range.end, status))
  }

  /** Everything is written again: on demand, or because an overlapping repair or its rollups failed. */
  predicate Replays(before: Option<AuditState>, range: Request) {
    range.forceReplay || (before.Some? && before.value.status == RepairError
                          && range.start <= before.value.end && before.value.start <= range.end)
  }

  /** Something had to be written: an accepted candle was new or different, or all are replayed. */
  ghost predicate Changes(accepted: seq<Bar>, local: seq<Bar>, replay: bool, tolerance: real) {
    replay || exists bar :: bar in accepted && Needed(local, bar, false, tolerance)
  }

  /** How a success is recorded, by what was found. */
  ghost predicate SuccessStatus(status: Status, request: Request, accepted: seq<Bar>, confirmed: set<int>, changes: bool) {
    if request.start > request.end then status == NotListed
    else if accepted == [] && confirmed == {} then status == NoData
    else
      && status in {Fine, Repaired, ConfirmedNoTrades}
      && (status == ConfirmedNoTrades <==> confirmed != {} && (accepted == [] || !changes))
      && (status == Repaired <==> changes && (accepted != [] || confirmed == {}))
  }

  /** How a failure is recorded: to be replayed if it was a replay, or if a repair or its rollups failed. */
  predicate FailureStatus(status: Status, frame: Frame, replay: bool, world: World) {
    || (status == NoData && frame == M1 && !replay)
    || status == Unchecked
    || (status in {RestError, EmptyResponse, IncompleteResponse} && !replay)
    || (status == RepairError && (replay || !world.repairs || !world.rollups))
  }

  predicate Pending(state: Option<AuditState>) { state.Some? && Retryable(state.value.status) }

  method RecordFailure(states: GuardianStates, stateRequest: Request, replay: bool, status: Status)
    returns (ghost recorded: Status)
    modifies states
    ensures recorded == if replay then RepairError else status
    ensures var key := StateKey(stateRequest.series, stateRequest.frame);
            Recorded(old(states.StateOf(key)), stateRequest, recorded, states.StateOf(key))
    ensures Retryable(status) ==> Pending(states.StateOf(StateKey(stateRequest.series, stateRequest.frame)))
  {
    recorded := if replay then RepairError else status;
    states.UpsertAuditState(stateRequest, if replay then RepairError else status);
  }

  /** The days that need evidence can all be looked up. */
  ghost predicate HoursKnown(world: World, request: Request, accepted: seq<Bar>) {
    request.frame == D1 ==> forall day :: Unanswered(request, accepted, day) ==> day in world.hourly
  }

  /** The proven empty days among the unanswered ones, up to the day reached: the end of the range
      unless seven days had to be looked up before it. */
  ghost predicate AllProven(rows: Rows, world: World, request: Request, local: seq<Bar>, now: int, accepted: seq<Bar>,
                            confirmed: set<int>, reached: int) {
    && (forall day :: day in confirmed <==>
          Unanswered(request, accepted, day) && day < reached && ProvenEmpty(rows, world.hourly, request, local, day, now))
    && (reached > request.end
        || exists looked: set<int> :: |looked| == MAX_DAY_CHECKS
             && forall day :: day in looked <==>
                  Unanswered(request, accepted, day) && day < reached && NoLocalTrades(rows, request, local, day))
  }

  /** The answer of the exchange, as far as it can be used: accepted candles, days proven to be
      without trades, and whether some candles had to be rejected. */
  method ReadAnswer(store: MemoryStore, request: Request, world: World, local: seq<Bar>, now: int)
    returns (accepted: seq<Bar>, confirmed: Option<set<int>>, rejected: nat, ghost reached: int)
    requires world.fetched.Some? && Aligned(request.start, request.frame)
    ensures Filtered(world.fetched.value, request, now, accepted)
    ensures rejected == 0 <==> forall bar :: bar in world.fetched.value ==> !Rejectable(bar, request, now)
    ensures confirmed.None? ==> !HoursKnown(world, request, accepted)
    ensures confirmed.Some? && confirmed.value != {} ==>
              request.frame == D1 && rejected == 0 && (world.fetched.value == [] || accepted != [])
    ensures confirmed.Some? ==>
              forall day :: day in confirmed.value ==> ProvenEmpty(store.rows, world.hourly, request, local, day, now)
    ensures confirmed.Some? && request.frame == D1 && rejected == 0 && (world.fetched.value == [] || accepted != []) ==>
              AllProven(store.rows, world, request, local, now, accepted, confirmed.value, reached)
  {
    hide Filtered, Rejectable, ProvenEmpty, Aligned, Unanswered, NoLocalTrades;
    var official := world.fetched.value;
    accepted, rejected := FilterOfficialBars(official, request, now);
    confirmed, reached := Some({}), request.start;
    if request.frame == D1 && rejected == 0 && !(|official| > 0 && |accepted| == 0) {
      ghost var looked: set<int>;
      confirmed, looked, reached := ConfirmNoTradeDays(store.rows, store, world.hourly, request, accepted, local, now);
    }
  }

  lemma LocalIsOrdered(rows: Rows, request: Request)
    requires WellKeyed(rows)
    ensures StartsIncrease(RangeBars(rows, request.series, request.frame, request.start, request.end))
  {
    RangeContents(rows, request.series, request.frame, request.start, request.end);
  }

  lemma GridAligned(asked: Request)
    ensures Aligned(Clipped(OnGrid(asked)).start, asked.frame)
    ensures asked.frame in {M1, D1} && asked.start >= 0 ==> Clipped(OnGrid(asked)).start >= 0
  {
    hide Aligned;
    FloorAligned(asked.start, asked.frame);
    FloorAligned(asked.expectedStart, asked.frame);
  }

  /** Compares a range with the official candles, repairs it and records how it stands. */
  method CompareRange(states: GuardianStates, store: MemoryStore, stateRequest: Request, request: Request, replay: bool,
                      world: World, tolerance: real, now: int)
    returns (outcome: Outcome, toRepair: seq<Bar>, ghost accepted: seq<Bar>, ghost confirmed: set<int>, ghost reached: int, ghost recorded: Status)
    requires WellKeyed(store.rows) && Aligned(request.start, request.frame) && request.start <= request.end && request.expectedStart >= 0
    requires request.frame in {M1, D1} ==> request.start >= 0
    requires stateRequest.frame == request.frame && stateRequest.series == request.series
    modifies states
    ensures outcome == Done && request.frame in {M1, D1} ==>
              && Accounts(store.rows, world, request, now, accepted, confirmed)
              && (ListingExpectsData(request) ==> Covered(request, accepted, confirmed, ExpectedFrom(request)))
    ensures outcome == Done ==> forall bar :: bar in toRepair <==> bar in accepted && Needed(StoredBars(store.rows, request), bar, replay, tolerance)
    ensures var key := StateKey(request.series, request.frame);
            outcome == Done || (world.eventsStored && world.stateStored) ==>
              Recorded(old(states.StateOf(key)), stateRequest, recorded, states.StateOf(key))
    ensures outcome == Done ==>
              SuccessStatus(recorded, request, accepted, confirmed, Changes(accepted, StoredBars(store.rows, request), replay, tolerance))
    ensures outcome == Error && world.eventsStored && world.stateStored ==> FailureStatus(recorded, request.frame, replay, world)
    ensures forall bar :: bar in toRepair ==> bar in accepted
    ensures outcome == Error && world.eventsStored && world.stateStored ==>
              var state := states.StateOf(StateKey(request.series, request.frame));
              Pending(state) || (request.frame == M1 && state.Some? && state.value.status == NoData)
    ensures world.fetched.Some? ==> Filtered(world.fetched.value, request, now, accepted)
    ensures request.frame in {M1, D1} && AllGoesWell(world) && HoursKnown(world, request, accepted)
              && Passes(store.rows, world, request, now, accepted, confirmed) ==>
              outcome == Done
    ensures request.frame == D1 && world.fetched.Some? && HoursKnown(world, request, accepted)
              && (world.fetched.value == [] || accepted != [])
              && (forall bar :: bar in world.fetched.value ==> !Rejectable(bar, request, now)) ==>
              AllProven(store.rows, world, request, StoredBars(store.rows, request), now, accepted, confirmed, reached)
  {
    hide Recorded, SuccessStatus, FailureStatus, Changes, AllProven, HoursKnown, Passes, AnswerHolds, Accounts, Covered, Filtered,
         Rejectable, ProvenEmpty, Stray, FloorStart, Aligned, RangeBars, Needed;
    outcome, toRepair, accepted, confirmed, reached, recorded := Error, [], [], {}, 0, RestError;
    if world.fetched.None? {
      recorded := RecordFailure(states, stateRequest, replay, RestError);
      FailsAtOnce(request.frame, replay, world);
      return;
    }
    LocalIsOrdered(store.rows, request);
    var local := store.BarsInRange(request.series, request.frame, request.start, request.end);
    var usable, days, rejected;
    usable, days, rejected, reached := ReadAnswer(store, request, world, local, now);
    accepted := usable;
    if days.None? {
      recorded := RecordFailure(states, stateRequest, replay, RestError);
      FailsAtOnce(request.frame, replay, world);
      return;
    }
    confirmed := days.value;
    PassesHolds(store.rows, world, request, now, usable, rejected, days.value);
    var spoilt := rejected > 0 || (|world.fetched.value| > 0 && |usable| == 0);
    if |usable| == 0 && |days.value| == 0 {
      outcome, recorded := NothingAnswered(states, stateRequest, |local| > 0 || request.expectData || replay || spoilt, replay, world);
      SucceedsEmpty(request, Changes(accepted, local, replay, tolerance));
      return;
    }
    var done: bool;
    done, toRepair, recorded := Conclude(states, stateRequest, request, replay, usable, rejected, days.value, local, world, tolerance);
    if done {
      outcome := Done;
      AnswerAccounts(store.rows, world, request, now, usable, rejected, days.value);
    }
  }

  ghost function StoredBars(rows: Rows, request: Request): seq<Bar> {
    RangeBars(rows, request.series, request.frame, request.start, request.end)
  }

  /** Compares one range with the official candles, repairs it and says how it stands.  For minutes
      and days, success means that every expected bucket has an accepted official candle or is a
      day proven to be without trades, and that no stored candle lies outside those. */
  method RepairTimeframeRange(states: GuardianStates, store: MemoryStore, asked: Request, world: World, tolerance: real, now: int)
    returns (outcome: Outcome, toRepair: seq<Bar>, ghost accepted: seq<Bar>, ghost confirmed: set<int>, ghost reached: int, ghost recorded: Status)
    requires WellKeyed(store.rows) && asked.start >= 0 && asked.expectedStart >= 0
    modifies states
    ensures var request := Clipped(OnGrid(asked));
            outcome == Done && request.frame in {M1, D1} && request.start <= request.end ==>
              && Accounts(store.rows, world, request, now, accepted, confirmed)
              && (ListingExpectsData(request) ==> Covered(request, accepted, confirmed, ExpectedFrom(request)))
    ensures var range, before := OnGrid(asked), old(states.StateOf(StateKey(asked.series, asked.frame)));
            outcome == Done && range.start <= range.end ==>
              forall bar :: bar in toRepair <==> bar in accepted && Needed(LocalBars(store.rows, asked), bar, Replays(before, range), tolerance)
    ensures var range, before := OnGrid(asked), old(states.StateOf(StateKey(asked.series, asked.frame)));
            outcome == Done && range.start <= range.end ==>
              && Recorded(before, range, recorded, states.StateOf(StateKey(asked.series, asked.frame)))
              && SuccessStatus(recorded, Clipped(range), accepted, confirmed,
                               Changes(accepted, LocalBars(store.rows, asked), Replays(before, range), tolerance))
    ensures var range, before := OnGrid(asked), old(states.StateOf(StateKey(asked.series, asked.frame)));
            outcome == Error && world.eventsStored && world.stateStored ==>
              && Recorded(before, range, recorded, states.StateOf(StateKey(asked.series, asked.frame)))
              && FailureStatus(recorded, asked.frame, Replays(before, range), world)
    ensures var range, before := OnGrid(asked), old(states.StateOf(StateKey(asked.series, asked.frame)));
            outcome == Done && range.start <= range.end && (Pending(before) ==> range.start <= before.value.start && before.value.end <= range.end) ==>
              var after := states.StateOf(StateKey(asked.series, asked.frame));
              after.Some? && !Pending(after)
    ensures OnGrid(asked).start > OnGrid(asked).end ==> outcome == Done && states.states == old(states.states)
    ensures forall bar :: bar in toRepair ==> bar in accepted
    ensures outcome == Error && world.eventsStored && world.stateStored ==>
              var state := states.StateOf(StateKey(asked.series, asked.frame));
              Pending(state) || (asked.frame == M1 && state.Some? && state.value.status == NoData)
    ensures var request := Clipped(OnGrid(asked));
            world.fetched.Some? && request.start <= request.end ==> Filtered(world.fetched.value, request, now, accepted)
    ensures var request := Clipped(OnGrid(asked));
            request.frame in {M1, D1} && request.start <= request.end && AllGoesWell(world)
              && HoursKnown(world, request, accepted) && Passes(store.rows, world, request, now, accepted, confirmed) ==>
              outcome == Done
    ensures var request := Clipped(OnGrid(asked));
            var local := RangeBars(store.rows, request.series, request.frame, request.start, request.end);
            request.frame == D1 && request.start <= request.end && world.fetched.Some?
              && HoursKnown(world, request, accepted) && (world.fetched.value == [] || accepted != [])
              && (forall bar :: bar in world.fetched.value ==> !Rejectable(bar, request, now)) ==>
              AllProven(store.rows, world, request, local, now, accepted, confirmed, reached)
  {
    hide Recorded, SuccessStatus, FailureStatus, Changes, AllProven, HoursKnown, Passes, AnswerHolds, Accounts, Covered, Filtered, Rejectable, ProvenEmpty, Stray, FloorStart, Aligned, RangeBars, Needed;
    outcome, toRepair, accepted, confirmed, reached, recorded := Error, [], [], {}, 0, RestError;
    var stateRequest := OnGrid(asked);
    if stateRequest.end < stateRequest.start {
      outcome := Done;
      return;
    }
    var key := StateKey(asked.series, asked.frame);
    ghost var before := states.StateOf(key);
    var replay := asked.forceReplay;
    if key in states.states {
      var pending := states.states[key];
      replay := replay || (pending.status == RepairError && stateRequest.start <= pending.end && stateRequest.end >= pending.start);
    }
    assert replay == Replays(before, stateRequest);
    var request := Clipped(stateRequest);
    if asked.frame == D1 && asked.expectedStart > 0 && stateRequest.end < FloorStart(asked.expectedStart, D1) {
      states.UpsertAuditState(stateRequest, NotListed);
      outcome, recorded := if world.stateStored then Done else Error, NotListed;
      SucceedsUnlisted(request, Changes(accepted, LocalBars(store.rows, asked), replay, tolerance));
      SuccessSettles(before, stateRequest, recorded, states.StateOf(key));
      return;
    }
    GridAligned(asked);
    outcome, toRepair, accepted, confirmed, reached, recorded := CompareRange(states, store, stateRequest, request, replay, world, tolerance, now);
    if outcome == Done {
      SuccessIsFinal(recorded, request, accepted, confirmed, Changes(accepted, LocalBars(store.rows, asked), replay, tolerance));
      SuccessSettles(before, stateRequest, recorded, states.StateOf(key));
    }
  }

  lemma SuccessIsFinal(status: Status, request: Request, accepted: seq<Bar>, confirmed: set<int>, changes: bool)
    requires SuccessStatus(status, request, accepted, confirmed, changes)
    ensures !Retryable(status)
  {
  }

  /** A success settles the retry that is pending within its range. */
  lemma SuccessSettles(before: Option<AuditState>, range: Request, status: Status, after: Option<AuditState>)
    requires Recorded(before, range, status, after) && !Retryable(status)
    ensures (Pending(before) ==> range.start <= before.value.start && before.value.end <= range.end) ==>
              after.Some? && !Pending(after)
  {
  }

  /** What is stored of the range that is compared. */
  ghost function LocalBars(rows: Rows, asked: Request): seq<Bar> {
    StoredBars(rows, Clipped(OnGrid(asked)))
  }

  lemma FailsAtOnce(frame: Frame, replay: bool, world: World)
    ensures FailureStatus(if replay then RepairError else RestError, frame, replay, world)
  {
  }

  lemma SucceedsUnlisted(request: Request, changes: bool)
    requires request.start > request.end
    ensures SuccessStatus(NotListed, request, [], {}, changes)
  {
  }

  lemma SucceedsEmpty(request: Request, changes: bool)
    requires request.start <= request.end
    ensures SuccessStatus(NoData, request, [], {}, changes)
  {
  }

  /** Records an answer without candles: a failure where data are due, and no data elsewhere. */
  method NothingAnswered(states: GuardianStates, stateRequest: Request, due: bool, replay: bool, world: World)
    returns (outcome: Outcome, ghost recorded: Status)
    requires replay ==> due
    modifies states
    ensures outcome == Done ==> stateRequest.frame !in {M1, D1} && recorded == NoData
    ensures outcome == Error && world.stateStored ==> FailureStatus(recorded, stateRequest.frame, replay, world)
    ensures var key := StateKey(stateRequest.series, stateRequest.frame);
            Recorded(old(states.StateOf(key)), stateRequest, recorded, states.StateOf(key))
    ensures outcome == Error && world.stateStored ==>
              var state := states.StateOf(StateKey(stateRequest.series, stateRequest.frame));
              Pending(state) || (stateRequest.frame == M1 && state.Some? && state.value.status == NoData)
  {
    if stateRequest.frame == D1 || due {
      recorded := RecordFailure(states, stateRequest, replay, EmptyResponse);
      outcome := Error;
      return;
    }
    states.UpsertAuditState(stateRequest, NoData);
    outcome, recorded := if world.stateStored && stateRequest.frame != M1 then Done else Error, NoData;
  }

  /** Judges an answer, writes what it calls for and records the result. */
  method Conclude(states: GuardianStates, stateRequest: Request, request: Request, replay: bool, accepted: seq<Bar>,
                  rejected: nat, confirmed: set<int>, local: seq<Bar>, world: World, tolerance: real)
    returns (done: bool, toRepair: seq<Bar>, ghost recorded: Status)
    requires Aligned(request.start, request.frame) && StartsIncrease(local)
    requires world.fetched.Some? && (accepted != [] || confirmed != {})
    requires confirmed != {} ==> world.fetched.value == [] || accepted != []
    requires request.start <= request.end && stateRequest.frame == request.frame
    modifies states
    ensures world.eventsStored ==>
              var key := StateKey(stateRequest.series, stateRequest.frame);
              Recorded(old(states.StateOf(key)), stateRequest, recorded, states.StateOf(key))
    ensures done ==> world.eventsStored && SuccessStatus(recorded, request, accepted, confirmed, Changes(accepted, local, replay, tolerance))
    ensures !done && world.eventsStored && world.stateStored ==> FailureStatus(recorded, request.frame, replay, world)
    ensures done ==> AnswerHolds(request, accepted, rejected, confirmed, local)
    ensures AllGoesWell(world) && AnswerHolds(request, accepted, rejected, confirmed, local) ==> done
    ensures !done && world.eventsStored && world.stateStored ==>
              Pending(states.StateOf(StateKey(stateRequest.series, stateRequest.frame)))
    ensures forall bar :: bar in toRepair <==> bar in accepted && Needed(local, bar, replay, tolerance)
  {
    hide Covered, Stray, Aligned, Needed, Recorded;
    done, recorded := false, Unchecked;
    var faulty, unchecked := JudgeResponse(request, accepted, rejected, confirmed, local);
    var differing: nat;
    toRepair, differing := ToRepair(accepted, local, replay, tolerance);
    if request.frame == M1 && (!world.repairs || (replay && !world.rollups)) {
      recorded := RecordFailure(states, stateRequest, replay, RepairError);
      return;
    }
    if request.frame != M1 && |toRepair| > 0 && !world.repairs {
      recorded := RecordFailure(states, stateRequest, replay, RepairError);
      return;
    }
    if !world.eventsStored {
      return;
    }
    if faulty {
      recorded := RecordFailure(states, stateRequest, replay, IncompleteResponse);
      return;
    }
    if request.frame == D1 && |accepted| > 0 && !world.rollups {
      recorded := RecordFailure(states, stateRequest, replay, RepairError);
      return;
    }
    var status := Fine;
    if differing > 0 || replay {
      status := Repaired;
    }
    if unchecked {
      status := Unchecked;
    } else if |confirmed| > 0 && (|accepted| == 0 || (differing == 0 && !replay)) {
      status := ConfirmedNoTrades;
    }
    recorded := status;
    states.UpsertAuditState(stateRequest, status);
    done := world.stateStored && !unchecked;
  }

  lemma AnswerAccounts(rows: Rows, world: World, request: Request, now: int, accepted: seq<Bar>, rejected: nat, confirmed: set<int>)
    requires world.fetched.Some? && Filtered(world.fetched.value, request, now, accepted)
    requires rejected == 0 <==> forall bar :: bar in world.fetched.value ==> !Rejectable(bar, request, now)
    requires confirmed != {} ==> request.frame == D1
    requires var local := RangeBars(rows, request.series, request.frame, request.start, request.end);
             (forall day :: day in confirmed ==> ProvenEmpty(rows, world.hourly, request, local, day, now))
             && AnswerHolds(request, accepted, rejected, confirmed, local)
    ensures Accounts(rows, world, request, now, accepted, confirmed)
    ensures request.start >= 0 && request.expectedStart >= 0 && ListingExpectsData(request) ==>
              Covered(request, accepted, confirmed, ExpectedFrom(request))
  {
    hide Filtered, Rejectable, ProvenEmpty, Stray, RangeBars, Covered, FloorStart;
  }

  lemma PassesHolds(rows: Rows, world: World, request: Request, now: int, accepted: seq<Bar>, rejected: nat, confirmed: set<int>)
    requires world.fetched.Some? && (rejected == 0 <==> forall bar :: bar in world.fetched.value ==> !Rejectable(bar, request, now))
    ensures Passes(rows, world, request, now, accepted, confirmed) ==>
              rejected == 0 && (accepted != [] || confirmed != {})
              && AnswerHolds(request, accepted, rejected, confirmed,
                             RangeBars(rows, request.series, request.frame, request.start, request.end))
  {
    hide Rejectable, Stray, RangeBars, Covered, FloorStart;
  }

  /** An answer of minutes on which a run can succeed. */
  ghost predicate AnswerPasses(request: Request, accepted: seq<Bar>, local: seq<Bar>, now: int) {
    && accepted != [] && (forall bar :: bar in accepted ==> Acceptable(bar, request, now))
    && AnswerHolds(request, accepted, 0, {}, local)
  }

  function SampleMinute(request: Request, t: int): Bar {
    Bar(request.series, M1, t, EndMS(t, M1), 1.0, 1.0, 1.0, 1.0, 0.0, 0.0, 0.0, 0, 1, true)
  }

  /** For a range of minutes with a listing time, every answer that passes covers the expected
      minutes if and only if data is expected, the range is one minute, or the listing comes after it. */
  lemma ListingAloneIsNotEnough(request: Request, now: int)
    requires request.frame == M1 && request.expectedStart > 0 && 0 < request.start <= request.end
    requires Aligned(request.start, M1) && Aligned(request.end, M1) && EndMS(request.end, M1) < now
    ensures (forall accepted, local :: AnswerPasses(request, accepted, local, now) ==>
               Covered(request, accepted, {}, ExpectedFrom(request)))
       <==> request.expectData || request.start == request.end || ExpectedFrom(request) > request.end
  {
    hide Aligned, EndMS, FloorStart, Covered, AnswerPasses, ExpectedFrom;
    if request.expectData || request.start == request.end || ExpectedFrom(request) > request.end {
      forall accepted, local | AnswerPasses(request, accepted, local, now)
        ensures Covered(request, accepted, {}, ExpectedFrom(request))
      {
        PassingCovers(request, accepted, local, now);
      }
    } else {
      var from := ExpectedFrom(request);
      ExpectedIsAligned(request);
      var only := if from < request.end then request.end else request.start;
      var missing := if from < request.end then from else request.end;
      SamplePasses(request, only, now);
      SampleMisses(request, only, missing, from);
    }
  }

  lemma ExpectedIsAligned(request: Request)
    requires request.frame == M1 && Aligned(request.start, M1) && request.start > 0
    ensures Aligned(ExpectedFrom(request), M1) && request.start <= ExpectedFrom(request)
  {
    FloorAligned(request.expectedStart, M1);
  }

  lemma PassingCovers(request: Request, accepted: seq<Bar>, local: seq<Bar>, now: int)
    requires request.frame == M1 && 0 < request.start <= request.end && Aligned(request.start, M1)
    requires request.expectData || request.start == request.end || ExpectedFrom(request) > request.end
    requires AnswerPasses(request, accepted, local, now)
    ensures Covered(request, accepted, {}, ExpectedFrom(request))
  {
    hide Aligned, EndMS, FloorStart, Stray, ExpectedFrom;
    if !request.expectData {
      ExpectedIsAligned(request);
      assert accepted[0] in accepted;
    }
  }

  lemma SamplePasses(request: Request, only: int, now: int)
    requires request.frame == M1 && !request.expectData && request.expectedStart > 0
    requires 0 < request.start <= only <= request.end && Aligned(only, M1)
    requires Aligned(request.end, M1) && EndMS(request.end, M1) < now
    ensures AnswerPasses(request, [SampleMinute(request, only)], [], now)
  {
    hide Aligned, EndMS, FloorStart, Covered;
    EarlierEnds(only, request.end, M1);
  }

  lemma SampleMisses(request: Request, only: int, missing: int, from: int)
    requires request.frame == M1 && only != missing && from <= missing <= request.end && Aligned(missing, M1)
    ensures !Covered(request, [SampleMinute(request, only)], {}, from)
  {
    hide Aligned, EndMS, FloorStart;
    assert missing in GapTargets.RangeStarts(from, request.end + 1, M1);
    assert !Answered([SampleMinute(request, only)], {}, missing);
  }
}
