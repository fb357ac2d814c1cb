/** Verified minutes over whole runs of the store: marks, revisions, ordinary writes and deletions. */
module VerifiedMinutes {
  import opened Timeframe
  import opened Rollup
  import opened Storage

  datatype State = State(rows: Rows, verifiedAt: map<Key, int>)

  datatype Event =
    | Write(batch: seq<Bar>)
    | Revise(batch: seq<Bar>, generation: int)
    | Mark(batch: seq<Bar>, generation: int)
    | Delete(series: Series, frame: Frame, lo: int, hi: int)

  predicate InRange(key: Key, series: Series, frame: Frame, lo: int, hi: int) {
    key.series == series && key.frame == frame && lo <= key.start <= hi
  }

  /** One store call; a revision writes the permitted bars, a mark the ones it got to. */
  ghost predicate Step(before: State, event: Event, after: State) {
    match event
    case Write(batch) => after == State(Upserted(before.rows, before.verifiedAt, batch), before.verifiedAt)
    case Revise(batch, generation) =>
      && generation > 0 && (forall b :: b in batch ==> Generation(before.verifiedAt, KeyOf(b)) <= generation)
      && after == State(Overwritten(before.rows, batch), before.verifiedAt)
    case Mark(batch, generation) =>
      && generation > 0 && (forall b :: b in batch ==> b.frame == M1 && Matches(before.rows, b))
      && after == State(before.rows, Marked(before.verifiedAt, batch, generation))
    case Delete(series, frame, lo, hi) =>
      && (forall k :: k in after.rows <==> k in before.rows && !InRange(k, series, frame, lo, hi))
      && (forall k :: k in after.rows ==> after.rows[k] == before.rows[k])
      && (forall k :: k in after.verifiedAt <==> k in before.verifiedAt && !(InRange(k, series, frame, lo, hi) && k in before.rows))
      && (forall k :: k in after.verifiedAt ==> after.verifiedAt[k] == before.verifiedAt[k])
  }

  ghost predicate StoreRun(states: seq<State>, events: seq<Event>) {
    && |states| == |events| + 1 && states[0] == State(map[], map[])
    && forall k :: 0 <= k < |events| ==> Step(states[k], events[k], states[k + 1])
  }

  predicate Deletes(event: Event, key: Key) {
    event.Delete? && InRange(key, event.series, event.frame, event.lo, event.hi)
  }

  lemma {:induction false} OverwrittenRow(rows: Rows, batch: seq<Bar>, key: Key)
    ensures if exists b :: b in batch && KeyOf(b) == key then
              key in Overwritten(rows, batch) && KeyOf(Overwritten(rows, batch)[key]) == key && Overwritten(rows, batch)[key] in batch
            else
              (key in Overwritten(rows, batch) <==> key in rows)
              && (key in rows ==> Overwritten(rows, batch)[key] == rows[key])
  {
    if batch != [] {
      var front, last := batch[..|batch| - 1], batch[|batch| - 1];
      assert batch == front + [last];
      OverwrittenRow(rows, front, key);
      assert last in batch;
    }
  }

  lemma {:induction false} MarkedGeneration(verifiedAt: map<Key, int>, batch: seq<Bar>, generation: int, key: Key)
    requires generation > 0
    ensures Generation(Marked(verifiedAt, batch, generation), key)
         == if (exists b :: b in batch && KeyOf(b) == key) && generation > Generation(verifiedAt, key) then generation
            else Generation(verifiedAt, key)
  {
    if batch != [] {
      var front, last := batch[..|batch| - 1], batch[|batch| - 1];
      assert batch == front + [last];
      MarkedGeneration(verifiedAt, front, generation, key);
      assert last in batch;
    }
  }

  lemma {:induction false} WrittenStays(rows: Rows, verifiedAt: map<Key, int>, batch: seq<Bar>)
    ensures forall k :: k in rows ==> k in Upserted(rows, verifiedAt, batch)
    ensures forall k :: k in rows && Protected(verifiedAt, k) ==> Upserted(rows, verifiedAt, batch)[k] == rows[k]
  {
    if batch != [] { WrittenStays(rows, verifiedAt, batch[..|batch| - 1]); }
  }

  /** A mark of this generation on values that match the stored row. */
  ghost predicate MarksRow(event: Event, key: Key, row: Bar) {
    event.Mark? && exists b :: b in event.batch && KeyOf(b) == key && SameOfficialValues(row, b)
  }

  ghost predicate WritesRow(event: Event, key: Key, row: Bar) {
    event.Revise? && KeyOf(row) == key && row in event.batch
  }

  /** What a step can do to one minute that it does not delete: its generation never goes down
      and goes up only by a mark on matching values; once verified, its row changes only by a
      revision whose generation is at least as new. */
  lemma MinuteStep(before: State, event: Event, after: State, key: Key)
    requires Step(before, event, after) && !Deletes(event, key) && key.frame == M1 && key in before.rows
    ensures key in after.rows && Generation(before.verifiedAt, key) <= Generation(after.verifiedAt, key)
    ensures Generation(before.verifiedAt, key) < Generation(after.verifiedAt, key) ==>
              MarksRow(event, key, after.rows[key]) && Generation(after.verifiedAt, key) == event.generation
    ensures Protected(before.verifiedAt, key) && after.rows[key] != before.rows[key] ==>
              WritesRow(event, key, after.rows[key]) && Generation(before.verifiedAt, key) <= event.generation
  {
    hide SameOfficialValues;
    match event
    case Write(batch) => WrittenStays(before.rows, before.verifiedAt, batch);
    case Revise(batch, generation) => OverwrittenRow(before.rows, batch, key);
    case Mark(batch, generation) =>
      MarkedGeneration(before.verifiedAt, batch, generation, key);
      if b :| b in batch && KeyOf(b) == key {
        assert Matches(before.rows, b);
      }
    case Delete(series, frame, lo, hi) =>
  }

  ghost predicate Survives(events: seq<Event>, a: nat, b: nat, key: Key)
    requires a <= b <= |events|
  {
    forall k :: a <= k < b ==> !Deletes(events[k], key)
  }

  /** Over any stretch of a run that does not delete a minute, its generation never goes down. */
  lemma {:induction false} GenerationNeverFalls(states: seq<State>, events: seq<Event>, a: nat, b: nat, key: Key)
    requires StoreRun(states, events) && a <= b <= |events| && Survives(events, a, b, key)
    requires key.frame == M1 && key in states[a].rows
    ensures key in states[b].rows
    ensures Generation(states[a].verifiedAt, key) <= Generation(states[b].verifiedAt, key)
    decreases b - a
  {
    hide Step;
    if a < b {
      assert Step(states[a], events[a], states[a + 1]);
      MinuteStep(states[a], events[a], states[a + 1], key);
      GenerationNeverFalls(states, events, a + 1, b, key);
    }
  }

  /** A verified minute that is not deleted either keeps its row, or got it from a revision
      at least as new as its verification. */
  lemma {:induction false} VerifiedRowChanges(states: seq<State>, events: seq<Event>, a: nat, b: nat, key: Key)
    requires StoreRun(states, events) && a <= b <= |events| && Survives(events, a, b, key)
    requires key.frame == M1 && key in states[a].rows && Protected(states[a].verifiedAt, key)
    ensures key in states[b].rows
    ensures states[b].rows[key] == states[a].rows[key]
         || exists k :: a <= k < b && WritesRow(events[k], key, states[b].rows[key])
              && Generation(states[a].verifiedAt, key) <= events[k].generation
    decreases b
  {
    hide Step;
    if a < b {
      GenerationNeverFalls(states, events, a, b - 1, key);
      VerifiedRowChanges(states, events, a, b - 1, key);
      assert Step(states[b - 1], events[b - 1], states[b]);
      MinuteStep(states[b - 1], events[b - 1], states[b], key);
    }
  }

  /** The evidence for a verification: a mark of just this generation on matching values, or a
      later revision of the row itself, at least as new. */
  ghost predicate Backed(states: seq<State>, events: seq<Event>, m: nat, key: Key)
    requires |states| == |events| + 1 && m <= |events|
  {
    && key in states[m].rows
    && exists k :: 0 <= k < m && Supports(events[k], key, states[m].rows[key], Generation(states[m].verifiedAt, key))
  }

  ghost predicate Supports(event: Event, key: Key, row: Bar, generation: int) {
    (MarksRow(event, key, row) && event.generation == generation)
    || (WritesRow(event, key, row) && event.generation >= generation)
  }

  ghost predicate OnlyMinutesMarked(state: State) {
    forall k :: k in state.verifiedAt ==> k.frame == M1 && k in state.rows && state.verifiedAt[k] > 0
  }

  lemma {:induction false} MarkedKeys(verifiedAt: map<Key, int>, batch: seq<Bar>, generation: int)
    requires generation > 0
    ensures forall k :: k in Marked(verifiedAt, batch, generation) ==> k in verifiedAt || exists b :: b in batch && KeyOf(b) == k
    ensures forall k :: k in Marked(verifiedAt, batch, generation) ==>
              Marked(verifiedAt, batch, generation)[k] > 0 || (k in verifiedAt && Marked(verifiedAt, batch, generation)[k] == verifiedAt[k])
  {
    if batch != [] {
      var front, last := batch[..|batch| - 1], batch[|batch| - 1];
      assert batch == front + [last];
      MarkedKeys(verifiedAt, front, generation);
      assert last in batch;
      forall k | k in Marked(verifiedAt, batch, generation) && k !in verifiedAt ensures exists b :: b in batch && KeyOf(b) == k {
        if k != KeyOf(last) {
          var b :| b in front && KeyOf(b) == k;
          assert b in batch;
        }
      }
    }
  }

  lemma {:induction false} MarksHaveRows(states: seq<State>, events: seq<Event>, m: nat)
    requires StoreRun(states, events) && m <= |events|
    ensures OnlyMinutesMarked(states[m])
  {
    if m > 0 {
      MarksHaveRows(states, events, m - 1);
      var before, event, after := states[m - 1], events[m - 1], states[m];
      assert Step(before, event, after);
      match event
      case Write(batch) => WrittenStays(before.rows, before.verifiedAt, batch);
      case Revise(batch, generation) => WrittenStays(before.rows, map[], batch);
      case Mark(batch, generation) => MarkedKeys(before.verifiedAt, batch, generation);
      case Delete(_, _, _, _) =>
    }
  }

  /** In every run, a verified minute shows an official value at least as new as its mark. */
  lemma {:induction false} VerifiedIsBacked(states: seq<State>, events: seq<Event>, m: nat, key: Key)
    requires StoreRun(states, events) && m <= |events| && Protected(states[m].verifiedAt, key)
    ensures Backed(states, events, m, key)
  {
    hide Step;
    MarksHaveRows(states, events, m);
    var before, event, after := states[m - 1], events[m - 1], states[m];
    assert Step(before, event, after);
    MarksHaveRows(states, events, m - 1);
    if key in before.rows && !Deletes(event, key) {
      MinuteStep(before, event, after, key);
      var generation := Generation(after.verifiedAt, key);
      if generation == Generation(before.verifiedAt, key) {
        VerifiedIsBacked(states, events, m - 1, key);
        var k :| 0 <= k < m - 1 && Supports(events[k], key, before.rows[key], generation);
        if after.rows[key] == before.rows[key] {
          assert Supports(events[k], key, after.rows[key], generation);
        } else {
          assert Supports(event, key, after.rows[key], generation);
        }
      } else {
        assert Supports(event, key, after.rows[key], generation);
      }
    } else {
      NotMarkedFromNothing(before, event, after, key);
    }
  }

  lemma NotMarkedFromNothing(before: State, event: Event, after: State, key: Key)
    requires Step(before, event, after) && OnlyMinutesMarked(before) && (key !in before.rows || Deletes(event, key))
    ensures key !in after.verifiedAt
  {
    match event
    case Mark(batch, generation) =>
      MarkedKeys(before.verifiedAt, batch, generation);
      if b :| b in batch && KeyOf(b) == key {
        assert Matches(before.rows, b);
      }
    case _ =>
  }
}
