/** One repair run that only ever adds to the store, whatever other writers do meanwhile. */
module GapExecutor {
  import opened Timeframe
  import opened Rollup
  import opened Collections
  import opened Storage
  import opened GapPlan
  import opened GapPipeline
  import opened GapRepair

  /** The rows with those of the batch added that are not there yet. */
  function Inserted(rows: Rows, batch: seq<Bar>): Rows {
    if batch == [] then rows
    else
      var bar := batch[|batch| - 1];
      var before := Inserted(rows, batch[..|batch| - 1]);
      if KeyOf(bar) in before then before else before[KeyOf(bar) := bar]
  }

  lemma {:induction false} InsertedRows(rows: Rows, batch: seq<Bar>)
    ensures forall k :: k in rows ==> k in Inserted(rows, batch) && Inserted(rows, batch)[k] == rows[k]
    ensures forall k :: k in Inserted(rows, batch) && k !in rows ==>
              Inserted(rows, batch)[k] in batch && KeyOf(Inserted(rows, batch)[k]) == k
    ensures forall bar :: bar in batch ==> KeyOf(bar) in Inserted(rows, batch)
  {
    if batch != [] {
      var front, last := batch[..|batch| - 1], batch[|batch| - 1];
      InsertedRows(rows, front);
      assert batch == front + [last];
    }
  }

  class GapStore {
    var rows: Rows
    /** Whether reads show final rows only. */
    const finalsOnly: bool

    predicate Visible(key: Key)
      reads this
    {
      key in rows && (rows[key].isFinal || !finalsOnly)
    }

    predicate Shows(bar: Bar, series: Series, frame: Frame, lo: int, hi: int)
      reads this
    {
      && Visible(KeyOf(bar)) && rows[KeyOf(bar)] == bar
      && bar.series == series && bar.frame == frame && lo <= bar.start <= hi
    }

    constructor (rows: Rows, finalsOnly: bool)
      ensures this.rows == rows && this.finalsOnly == finalsOnly
    {
      this.rows, this.finalsOnly := rows, finalsOnly;
    }

    method BarsInRange(series: Series, frame: Frame, lo: int, hi: int) returns (bars: seq<Bar>)
      requires WellKeyed(rows)
      ensures forall bar :: bar in bars ==> Shows(bar, series, frame, lo, hi)
      ensures forall t :: lo <= t <= hi && Visible(Key(series, frame, t)) ==> rows[Key(series, frame, t)] in bars
    {
      var starts := set k | k in rows && k.series == series && k.frame == frame && lo <= k.start <= hi :: k.start;
      bars := [];
      var rest := starts;
      while rest != {}
        invariant rest <= starts
        invariant forall bar :: bar in bars ==> Shows(bar, series, frame, lo, hi)
        invariant forall t :: t in starts && t !in rest && Visible(Key(series, frame, t)) ==> rows[Key(series, frame, t)] in bars
        decreases rest
      {
        var start := Smallest(rest);
        var key := Key(series, frame, start);
        assert KeyOf(rows[key]) == key;
        if Visible(key) {
          bars := bars + [rows[key]];
        }
        rest := rest - {start};
      }
    }

    /** Adds rows, skipping every key that is taken. */
    method InsertMissingBars(batch: seq<Bar>) returns (inserted: nat)
      modifies this`rows
      ensures rows == Inserted(old(rows), batch)
    {
      inserted := 0;
      ghost var before := rows;
      for i := 0 to |batch|
        invariant rows == Inserted(before, batch[..i])
      {
        assert batch[..i + 1][..i] == batch[..i];
        if KeyOf(batch[i]) !in rows {
          rows := rows[KeyOf(batch[i]) := batch[i]];
          inserted := inserted + 1;
        }
      }
      assert batch[..|batch|] == batch;
    }
  }

  datatype Outcome = Failed | AlreadyPresent | Conflict | DryRun | NoData | Repaired | Partial

  datatype Report = Report(outcome: Outcome, unverified: bool, missing: seq<int>)

  /** What happens around the executor: reads, the fetch and the insert may fail, the insert before
      or after its rows are in, and other writers may do anything to the rows while candles are
      fetched and before they are verified. */
  datatype World = World(readFails: bool, fetched: Option<seq<Bar>>, previousReadFails: bool,
                         insertFails: bool, insertLands: bool, verifyReadFails: bool,
                         whileFetching: Rows -> Rows, beforeVerifying: Rows -> Rows)

  ghost predicate KeepsKeys(writers: Rows -> Rows) {
    forall rows: Rows :: WellKeyed(rows) ==> WellKeyed(writers(rows))
  }

  function Official(world: World): seq<Bar> { if world.fetched.Some? then world.fetched.value else [] }

  method StoredTargets(task: Task, bars: seq<Bar>, starts: seq<int>) returns (occupied: set<int>, present: set<int>)
    ensures forall t :: t in occupied <==> t in starts && exists bar :: bar in bars && KeyOf(bar) == TargetKey(task, t)
    ensures forall t :: t in present <==> t in starts && exists bar :: bar in bars && KeyOf(bar) == TargetKey(task, t) && bar.isFinal
  {
    occupied, present := {}, {};
    for i := 0 to |bars|
      invariant forall t :: t in occupied <==> t in starts && exists bar :: bar in bars[..i] && KeyOf(bar) == TargetKey(task, t)
      invariant forall t :: t in present <==> t in starts && exists bar :: bar in bars[..i] && KeyOf(bar) == TargetKey(task, t) && bar.isFinal
    {
      var bar := bars[i];
      assert bars[..i + 1] == bars[..i] + [bar];
      if KeyOf(bar) == TargetKey(task, bar.start) && bar.start in starts {
        occupied := occupied + {bar.start};
        if bar.isFinal {
          present := present + {bar.start};
        }
      }
    }
    assert bars[..|bars|] == bars;
  }

  /** The targets that have no final row, in order. */
  ghost predicate ListsMissing(rows: Rows, task: Task, missing: seq<int>) {
    && Increasing(missing)
    && forall t :: t in missing <==> t in task.targets && !HasFinal(rows, TargetKey(task, t))
  }

  method MissingOf(starts: seq<int>, present: set<int>) returns (missing: seq<int>)
    requires Increasing(starts)
    ensures Increasing(missing) && forall t :: t in missing <==> t in starts && t !in present
  {
    missing := [];
    for i := 0 to |starts|
      invariant Increasing(missing) && (forall t :: t in missing <==> t in starts[..i] && t !in present)
    {
      assert starts[..i + 1] == starts[..i] + [starts[i]];
      forall k | 0 <= k < |missing| ensures missing[k] < starts[i] {
        assert missing[k] in missing;
      }
      if starts[i] !in present {
        missing := missing + [starts[i]];
      }
    }
    assert starts[..|starts|] == starts;
  }

  /** Reads which targets have a row, and which a final one. */
  method ReadTargets(store: GapStore, task: Task, starts: seq<int>) returns (occupied: set<int>, present: set<int>, missing: seq<int>)
    requires WellKeyed(store.rows) && Increasing(starts) && starts != [] && forall t :: t in starts <==> t in task.targets
    ensures forall t :: t in occupied <==> t in task.targets && store.Visible(TargetKey(task, t))
    ensures forall t :: t in present <==> t in task.targets && HasFinal(store.rows, TargetKey(task, t))
    ensures ListsMissing(store.rows, task, missing)
  {
    var bars := store.BarsInRange(SeriesOf(task), task.frame, starts[0], starts[|starts| - 1]);
    occupied, present := StoredTargets(task, bars, starts);
    missing := MissingOf(starts, present);
    forall t | t in starts
      ensures t in occupied <==> store.Visible(TargetKey(task, t))
      ensures t in present <==> HasFinal(store.rows, TargetKey(task, t))
    {
      var k :| 0 <= k < |starts| && starts[k] == t;
      assert starts[0] <= t <= starts[|starts| - 1];
    }
  }

  /** The repairs of the needed targets, and which needed targets have none. */
  method BuildRepairs(official: seq<Bar>, task: Task, starts: seq<int>, occupied: set<int>, missing: seq<int>, now: int)
    returns (available: seq<Bar>)
    requires forall t :: t in starts ==> Aligned(t, task.frame)
    ensures forall bar :: bar in available ==>
              Repairs(official, task, now, bar.start, bar) && bar.start in starts && bar.start in missing && bar.start !in occupied
    ensures forall t :: t in starts && t in missing && t !in occupied ==>
              (exists bar :: bar in available && bar.start == t) || (forall other :: !Repairs(official, task, now, t, other))
  {
    hide Repairs, Aligned;
    var sources := CollectSources(official, task, now);
    available := [];
    for i := 0 to |starts|
      invariant forall bar :: bar in available ==>
                  Repairs(official, task, now, bar.start, bar) && bar.start in starts && bar.start in missing && bar.start !in occupied
      invariant forall t :: t in starts[..i] && t in missing && t !in occupied ==>
                  (exists bar :: bar in available && bar.start == t) || (forall other :: !Repairs(official, task, now, t, other))
    {
      assert starts[..i + 1] == starts[..i] + [starts[i]] && starts[i] in starts;
      if starts[i] !in missing || starts[i] in occupied {
        continue;
      }
      var row := BuildRepair(official, task, sources, starts[i], now);
      ghost var before := available;
      if row.Some? {
        RepairStart(official, task, now, starts[i], row.value);
        available := available + [row.value];
        assert row.value in available;
      }
      assert forall bar :: bar in before ==> bar in available;
    }
    assert starts[..|starts|] == starts;
  }

  lemma RepairStart(official: seq<Bar>, task: Task, now: int, t: int, row: Bar)
    requires Repairs(official, task, now, t, row)
    ensures row.start == t && KeyOf(row) == TargetKey(task, t) && row.isFinal
  {
    hide Tiles, Offered;
  }

  /** The store after an insert of the repairs: nothing that was there changed, and what is new
      is a repair of a requested target. */
  ghost predicate OnlyRepaired(before: Rows, official: seq<Bar>, task: Task, now: int, after: Rows) {
    && (forall k :: k in before ==> k in after && after[k] == before[k])
    && (forall k :: k in after && k !in before ==>
          k.start in task.targets && k == TargetKey(task, k.start) && Repairs(official, task, now, k.start, after[k]))
  }

  lemma InsertOnlyRepairs(rows: Rows, available: seq<Bar>, official: seq<Bar>, task: Task, now: int)
    requires WellKeyed(rows)
    requires forall bar :: bar in available ==> Repairs(official, task, now, bar.start, bar) && bar.start in task.targets
    ensures WellKeyed(Inserted(rows, available)) && OnlyRepaired(rows, official, task, now, Inserted(rows, available))
    ensures forall bar :: bar in available ==> TargetKey(task, bar.start) in Inserted(rows, available)
  {
    hide Repairs;
    InsertedRows(rows, available);
    forall bar | bar in available ensures KeyOf(bar) == TargetKey(task, bar.start) { RepairStart(official, task, now, bar.start, bar); }
  }

  /** Every target that had no row when the targets were read has one after the insert, or could not
      be repaired from what was fetched. */
  ghost predicate AllRepaired(read: Rows, official: seq<Bar>, task: Task, now: int, rows: Rows) {
    forall t :: t in task.targets && TargetKey(task, t) !in read && TargetKey(task, t) !in rows ==>
      forall row :: !Repairs(official, task, now, t, row)
  }

  /** A read shows the row of this key. */
  predicate VisibleIn(rows: Rows, finalsOnly: bool, key: Key) { key in rows && (rows[key].isFinal || !finalsOnly) }

  /** The targets that have no row when they are read. */
  ghost function NeededTargets(rows: Rows, finalsOnly: bool, task: Task): set<int> {
    set t | t in task.targets && !VisibleIn(rows, finalsOnly, TargetKey(task, t))
  }

  ghost predicate AllFinal(rows: Rows, task: Task) { forall t :: t in task.targets ==> HasFinal(rows, TargetKey(task, t)) }

  ghost predicate AnyFinal(rows: Rows, task: Task) { exists t :: t in task.targets && HasFinal(rows, TargetKey(task, t)) }

  /** Something that was missing when the targets were read can be repaired. */
  ghost predicate SomeRepair(needed: set<int>, official: seq<Bar>, task: Task, now: int) {
    exists t, row :: t in needed && Repairs(official, task, now, t, row)
  }

  /** What is reported of a run in which nothing failed. */
  ghost predicate Reported(outcome: Outcome, apply: bool, repairable: bool, anyFinal: bool, allFinal: bool) {
    if !apply then outcome == if repairable then DryRun else NoData
    else
      && (outcome == Repaired <==> allFinal)
      && (outcome == NoData <==> !allFinal && !repairable && !anyFinal)
      && outcome in {Repaired, NoData, Partial}
  }

  lemma RepairsAvailable(available: seq<Bar>, needed: set<int>, official: seq<Bar>, task: Task, now: int)
    requires forall bar :: bar in available ==> bar.start in needed && Repairs(official, task, now, bar.start, bar)
    requires forall t :: t in needed ==>
               (exists bar :: bar in available && bar.start == t) || (forall other :: !Repairs(official, task, now, t, other))
    ensures SomeRepair(needed, official, task, now) <==> available != []
  {
    hide Repairs;
    if available != [] {
      assert available[0] in available;
      assert Repairs(official, task, now, available[0].start, available[0]);
    }
  }

  predicate AllGoesWell(world: World) {
    !world.readFails && world.fetched.Some? && !world.previousReadFails && !world.insertFails && !world.verifyReadFails
  }

  /** Fetches and inserts the missing targets of one task.  `met` is what the insert finds and `put`
      what it leaves. */
  method Repair(store: GapStore, task: Task, apply: bool, world: World, startedAt: int, now: int)
    returns (report: Report, ghost met: Rows, ghost put: Rows)
    requires WellKeyed(store.rows) && KeepsKeys(world.whileFetching) && KeepsKeys(world.beforeVerifying)
    modifies store`rows
    ensures met == old(store.rows) || met == world.whileFetching(old(store.rows))
    ensures OnlyRepaired(met, Official(world), task, now, put)
    ensures store.rows == put || store.rows == world.beforeVerifying(put)
    ensures !apply || !ValidTask(task, startedAt) || world.fetched.None? ==> put == met
    ensures !report.unverified && report.outcome in {Repaired, NoData, Partial} && apply ==> ListsMissing(store.rows, task, report.missing)
    ensures !report.unverified && !(report.outcome in {Repaired, NoData, Partial} && apply) ==>
              ListsMissing(old(store.rows), task, report.missing)
    ensures report.outcome in {AlreadyPresent, Repaired} ==>
              !report.unverified && forall t :: t in task.targets ==> HasFinal(store.rows, TargetKey(task, t))
    ensures ValidTask(task, startedAt) && AllGoesWell(world) ==> report.outcome != Failed && !report.unverified
    ensures ValidTask(task, startedAt) && AllGoesWell(world) && apply ==>
              AllRepaired(old(store.rows), Official(world), task, now, put)
    ensures report.outcome == Repaired ==> apply
    ensures ValidTask(task, startedAt) && !world.readFails ==>
              && (report.outcome == AlreadyPresent <==> AllFinal(old(store.rows), task))
              && (report.outcome == Conflict <==>
                    !AllFinal(old(store.rows), task) && NeededTargets(old(store.rows), store.finalsOnly, task) == {})
    ensures ValidTask(task, startedAt) && AllGoesWell(world) && report.outcome !in {AlreadyPresent, Conflict} ==>
              Reported(report.outcome, apply, SomeRepair(NeededTargets(old(store.rows), store.finalsOnly, task), Official(world), task, now),
                       AnyFinal(store.rows, task), AllFinal(store.rows, task))
    ensures report.outcome in {AlreadyPresent, Conflict} ==> store.rows == old(store.rows)
  {
    hide Repairs, ValidTask, Aligned, Increasing, SomeRepair, AllFinal, AnyFinal, NeededTargets, ListsMissing, Reported;
    report := Report(Failed, true, []);
    met, put := store.rows, store.rows;
    NothingInserted(store.rows, Official(world), task, now);
    var validated := ValidateTask(task, startedAt);
    if validated.None? || world.readFails {
      return;
    }
    var starts := validated.value;
    ValidTargets(task, startedAt);
    assert task.targets[0] in task.targets;
    assert forall t :: t in task.targets ==> t in starts;
    var occupied, present, missing := ReadTargets(store, task, starts);
    TargetsRead(store.rows, store.finalsOnly, task, occupied, missing);
    report := Report(Failed, false, missing);
    if |missing| == 0 {
      AllAreFinal(store.rows, task);
      return Report(AlreadyPresent, false, missing), met, put;
    }
    if forall t :: t in missing ==> t in occupied {
      return Report(Conflict, false, missing), met, put;
    }
    report, met, put := FetchAndInsert(store, task, apply, world, starts, occupied, missing, now);
    if AllFinal(store.rows, task) { AllAreFinal(store.rows, task); }
  }

  lemma MissingDecides(rows: Rows, task: Task, missing: seq<int>)
    requires ListsMissing(rows, task, missing)
    ensures AllFinal(rows, task) <==> missing == []
  {
    hide Increasing;
    if missing != [] {
      var t := missing[0];
      assert t in missing;
      assert t in task.targets && !HasFinal(rows, TargetKey(task, t));
    } else {
      forall t | t in task.targets ensures HasFinal(rows, TargetKey(task, t)) { assert t !in missing; }
    }
  }

  /** What the first read tells. */
  lemma TargetsRead(rows: Rows, finalsOnly: bool, task: Task, occupied: set<int>, missing: seq<int>)
    requires ListsMissing(rows, task, missing)
    requires forall t :: t in occupied <==> t in task.targets && VisibleIn(rows, finalsOnly, TargetKey(task, t))
    ensures AllFinal(rows, task) <==> missing == []
    ensures (forall t :: t in missing ==> t in occupied) <==> NeededTargets(rows, finalsOnly, task) == {}
    ensures forall t :: t in NeededTargets(rows, finalsOnly, task) <==> t in missing && t !in occupied
  {
    hide Increasing;
    MissingDecides(rows, task, missing);
    var needed := NeededTargets(rows, finalsOnly, task);
    forall t ensures t in needed <==> t in missing && t !in occupied {
    }
    if forall t :: t in missing ==> t in occupied {
      assert forall t :: t !in needed;
    } else {
      var t :| t in missing && t !in occupied;
      assert t in needed;
    }
  }

  lemma AllAreFinal(rows: Rows, task: Task)
    requires AllFinal(rows, task)
    ensures forall t :: t in task.targets ==> HasFinal(rows, TargetKey(task, t)) && TargetKey(task, t) in rows
  {
  }

  /** Fetches the official candles, inserts the repairs and reads again. */
  method FetchAndInsert(store: GapStore, task: Task, apply: bool, world: World, starts: seq<int>, occupied: set<int>, missing: seq<int>, now: int)
    returns (report: Report, ghost met: Rows, ghost put: Rows)
    requires WellKeyed(store.rows) && KeepsKeys(world.whileFetching) && KeepsKeys(world.beforeVerifying)
    requires Increasing(starts) && starts != [] && (forall t :: t in starts <==> t in task.targets) && forall t :: t in starts ==> Aligned(t, task.frame)
    requires ListsMissing(store.rows, task, missing)
    requires forall t :: t in NeededTargets(store.rows, store.finalsOnly, task) <==> t in missing && t !in occupied
    modifies store`rows
    ensures met == old(store.rows) || met == world.whileFetching(old(store.rows))
    ensures OnlyRepaired(met, Official(world), task, now, put)
    ensures store.rows == put || store.rows == world.beforeVerifying(put)
    ensures !apply || world.fetched.None? ==> put == met
    ensures report.outcome !in {AlreadyPresent, Conflict} && (report.outcome == Repaired ==> apply)
    ensures !report.unverified && report.outcome in {Repaired, NoData, Partial} && apply ==> ListsMissing(store.rows, task, report.missing)
    ensures !report.unverified && !(report.outcome in {Repaired, NoData, Partial} && apply) ==>
              ListsMissing(old(store.rows), task, report.missing)
    ensures report.outcome == Repaired ==> !report.unverified && AllFinal(store.rows, task)
    ensures AllGoesWell(world) ==>
              && report.outcome != Failed && !report.unverified
              && Reported(report.outcome, apply, SomeRepair(NeededTargets(old(store.rows), store.finalsOnly, task), Official(world), task, now),
                          AnyFinal(store.rows, task), AllFinal(store.rows, task))
    ensures AllGoesWell(world) && apply ==> AllRepaired(old(store.rows), Official(world), task, now, put)
  {
    hide Repairs, Aligned, Increasing, SomeRepair, AllFinal, AnyFinal, NeededTargets, OnlyRepaired, AllRepaired;
    ghost var official, read := Official(world), store.rows;
    report := Report(Failed, false, missing);
    met, put := store.rows, store.rows;
    NothingInserted(store.rows, official, task, now);
    if world.fetched.None? {
      return;
    }
    store.rows := world.whileFetching(store.rows);
    met, put := store.rows, store.rows;
    NothingInserted(store.rows, official, task, now);
    var available := BuildRepairs(world.fetched.value, task, starts, occupied, missing, now);
    RepairsAvailable(available, NeededTargets(read, store.finalsOnly, task), official, task, now);
    if world.previousReadFails {
      return;
    }
    if !apply {
      return Report(if |available| == 0 then NoData else DryRun, false, missing), met, put;
    }
    InsertOnlyRepairs(store.rows, available, official, task, now);
    if |available| > 0 {
      report := report.(unverified := true);
      if world.insertFails {
        if world.insertLands {
          var landed := store.InsertMissingBars(available);
          put := store.rows;
        }
        return;
      }
      var inserted := store.InsertMissingBars(available);
    }
    put := store.rows;
    assert put == Inserted(met, available);
    if world.verifyReadFails {
      return;
    }
    NeededAreRepaired(read, store.finalsOnly, official, task, now, available, put);
    store.rows := world.beforeVerifying(store.rows);
    var again, final, left := ReadTargets(store, task, starts);
    TargetsVerified(store.rows, task, final, left);
    if |left| == 0 {
      return Report(Repaired, false, left), met, put;
    }
    report := Report(if |available| == 0 && |final| == 0 then NoData else Partial, false, left);
  }

  /** What the last read tells. */
  lemma TargetsVerified(rows: Rows, task: Task, final: set<int>, left: seq<int>)
    requires ListsMissing(rows, task, left) && forall t :: t in final <==> t in task.targets && HasFinal(rows, TargetKey(task, t))
    ensures AllFinal(rows, task) <==> left == []
    ensures AnyFinal(rows, task) <==> |final| > 0
  {
    hide Increasing, HasFinal;
    MissingDecides(rows, task, left);
    if AnyFinal(rows, task) {
      var t :| t in task.targets && HasFinal(rows, TargetKey(task, t));
      assert t in final;
    } else {
      EmptyOrHasMember(final);
    }
  }

  lemma NeededAreRepaired(read: Rows, finalsOnly: bool, official: seq<Bar>, task: Task, now: int, available: seq<Bar>, put: Rows)
    requires forall t :: t in NeededTargets(read, finalsOnly, task) ==>
               (exists bar :: bar in available && bar.start == t) || (forall other :: !Repairs(official, task, now, t, other))
    requires forall bar :: bar in available ==> TargetKey(task, bar.start) in put
    ensures AllRepaired(read, official, task, now, put)
  {
    hide Repairs;
    forall t | t in task.targets && TargetKey(task, t) !in read && TargetKey(task, t) !in put
      ensures forall row :: !Repairs(official, task, now, t, row)
    {
      assert t in NeededTargets(read, finalsOnly, task);
    }
  }

  lemma NothingInserted(rows: Rows, official: seq<Bar>, task: Task, now: int)
    ensures OnlyRepaired(rows, official, task, now, rows)
  {
  }

  lemma ValidTargets(task: Task, now: int)
    requires ValidTask(task, now)
    ensures task.targets != [] && forall t :: t in task.targets ==> Aligned(t, task.frame)
  {
    hide Aligned, EndMS, Span;
  }
}
