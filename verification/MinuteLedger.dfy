/** The durable ledger of minute-audit tasks: what one store call does, and what holds over
    every run of store calls by any number of workers. */
module MinuteLedger {
  import opened Timeframe
  import opened Rollup

  const LEASE_MS: int := 600_000
  const LONGEST_DELAY_MS: int := 900_000
  const KEEP_FINISHED_MS: int := 7 * DAY_MS

  datatype TaskKind = Window | Daily | Conflict | CatchUp

  datatype Status = Pending | Running | Retry | Blocked | Completed | Excluded | Expired

  /** An inclusive range of minute starts to audit; tasks are deduplicated by it. */
  datatype Identity = Identity(series: Series, kind: TaskKind, start: int, end: int)

  datatype Request = Request(identity: Identity, expectedStart: int, expectData: bool, forceReplay: bool,
                             nextAttempt: int, createdAt: int)

  datatype Task = Task(id: int, identity: Identity, expectedStart: int, expectData: bool, status: Status,
                       attempts: nat, nextAttempt: int, leaseUntil: int, token: string, forceReplay: bool,
                       updatedAt: int)

  datatype Ledger = Ledger(tasks: map<int, Task>, nextId: int)

  const EMPTY: Ledger := Ledger(map[], 0)

  /** Requests with these identities are accepted; all others are refused. */
  predicate ValidIdentity(identity: Identity) {
    && identity.series.exchange != "" && |identity.series.exchange| <= 16
    && identity.series.symbol != "" && |identity.series.symbol| <= 64
    && 0 < identity.start <= identity.end
    && identity.start % MINUTE_MS == 0 && identity.end % MINUTE_MS == 0
  }

  predicate Terminal(status: Status) { status in {Completed, Excluded, Expired} }

  function NewTask(request: Request, id: int): Task {
    Task(id, request.identity, request.expectedStart, request.expectData, Pending, 0,
         request.nextAttempt, 0, "", request.forceReplay, request.createdAt)
  }

  /** When a task that is not finished may be leased (again). */
  function DueAt(task: Task): int {
    if task.status == Running then task.leaseUntil else task.nextAttempt
  }

  predicate Due(task: Task, now: int) {
    match task.status
    case Pending => task.nextAttempt <= now
    case Retry => task.nextAttempt <= now
    case Blocked => task.nextAttempt <= now
    case Running => task.leaseUntil <= now
    case _ => false
  }

  // ----- one store call -----

  datatype FinishResult = Accepted | Ignored | LeaseLost

  datatype Event =
    | Enqueue(request: Request, id: int, now: int)
    | Lease(id: int, token: string, now: int, until: int, granted: bool)
    | Finish(id: int, token: string, outcome: Status, next: int, force: bool, now: int, result: FinishResult)

  ghost predicate Enqueues(before: Ledger, request: Request, id: int, after: Ledger) {
    if exists known :: known in before.tasks && before.tasks[known].identity == request.identity then
      id in before.tasks && before.tasks[id].identity == request.identity && after == before
    else
      id == before.nextId + 1 && after == Ledger(before.tasks[id := NewTask(request, id)], id)
  }

  predicate CanLease(ledger: Ledger, id: int, now: int) { id in ledger.tasks && Due(ledger.tasks[id], now) }

  function AfterLease(ledger: Ledger, id: int, token: string, now: int, until: int): Ledger {
    if CanLease(ledger, id, now) then
      var task := ledger.tasks[id];
      ledger.(tasks := ledger.tasks[id := task.(status := Running, token := token, leaseUntil := until,
                                                attempts := task.attempts + 1, updatedAt := now)])
    else ledger
  }

  function FinishVerdict(ledger: Ledger, id: int, token: string, now: int): FinishResult {
    if id !in ledger.tasks || Terminal(ledger.tasks[id].status) then Ignored
    else
      var task := ledger.tasks[id];
      if task.status != Running || task.token != token || task.leaseUntil <= now then LeaseLost else Accepted
  }

  function Finished(task: Task, outcome: Status, next: int, force: bool, now: int): Task {
    task.(status := outcome, token := "", leaseUntil := 0, nextAttempt := next, forceReplay := force, updatedAt := now)
  }

  /** Finished tasks are dropped a week later. */
  function Pruned(tasks: map<int, Task>, now: int): map<int, Task> {
    map id | id in tasks && !(Terminal(tasks[id].status) && tasks[id].updatedAt < now - KEEP_FINISHED_MS) :: tasks[id]
  }

  function AfterFinish(ledger: Ledger, id: int, token: string, outcome: Status, next: int, force: bool, now: int): Ledger {
    if FinishVerdict(ledger, id, token, now) != Accepted then ledger
    else
      var task := ledger.tasks[id];
      if outcome == Completed && task.identity.kind != Daily then
        ledger.(tasks := ledger.tasks - {id})
      else
        var tasks := ledger.tasks[id := Finished(task, outcome, next, force, now)];
        if task.identity.kind == Daily || outcome == Excluded || outcome == Expired
        then ledger.(tasks := Pruned(tasks, now))
        else ledger.(tasks := tasks)
  }

  predicate IsOutcome(outcome: Status) { outcome in {Completed, Retry, Blocked, Excluded, Expired} }

  ghost predicate Next(before: Ledger, event: Event, after: Ledger) {
    match event
    case Enqueue(request, id, now) => Enqueues(before, request, id, after)
    case Lease(id, token, now, until, granted) =>
      && token != "" && now < until && granted == CanLease(before, id, now)
      && after == AfterLease(before, id, token, now, until)
    case Finish(id, token, outcome, next, force, now, result) =>
      && IsOutcome(outcome) && result == FinishVerdict(before, id, token, now)
      && after == AfterFinish(before, id, token, outcome, next, force, now)
  }

  // ----- runs -----

  /** `states[k]` is the ledger before event `k`; the clock never runs backwards. */
  ghost predicate Run(states: seq<Ledger>, events: seq<Event>) {
    && |states| == |events| + 1 && states[0] == EMPTY
    && (forall k :: 0 <= k < |events| ==> Next(states[k], events[k], states[k + 1]))
    && (forall i, j :: 0 <= i < j < |events| ==> events[i].now <= events[j].now)
  }

  predicate GrantedTo(event: Event, id: int) { event.Lease? && event.id == id && event.granted }

  predicate FinishedBy(event: Event, id: int) { event.Finish? && event.id == id && event.result == Accepted }

  ghost predicate WellFormed(ledger: Ledger) {
    && (forall id :: id in ledger.tasks ==> 0 < id <= ledger.nextId && ledger.tasks[id].id == id)
    && (forall a, b :: a in ledger.tasks && b in ledger.tasks && ledger.tasks[a].identity == ledger.tasks[b].identity ==> a == b)
  }

  lemma StepWellFormed(before: Ledger, event: Event, after: Ledger)
    requires WellFormed(before) && before.nextId >= 0 && Next(before, event, after)
    ensures WellFormed(after) && after.nextId >= before.nextId
  {
  }

  lemma {:induction false} RunWellFormed(states: seq<Ledger>, events: seq<Event>, m: nat)
    requires Run(states, events) && m <= |events|
    ensures WellFormed(states[m]) && states[m].nextId >= 0
  {
    if m > 0 {
      RunWellFormed(states, events, m - 1);
      StepWellFormed(states[m - 1], events[m - 1], states[m]);
    }
  }

  /** What a step can do to one task: nothing, a lease when due, an accepted finish, or, when
      finished, being dropped. */
  lemma TaskStep(before: Ledger, event: Event, after: Ledger, id: int)
    requires WellFormed(before) && Next(before, event, after) && id in before.tasks
    ensures if GrantedTo(event, id) then
              && Due(before.tasks[id], event.now)
              && id in after.tasks && after.tasks[id] == before.tasks[id].(status := Running, token := event.token,
                   leaseUntil := event.until, attempts := before.tasks[id].attempts + 1, updatedAt := event.now)
            else if FinishedBy(event, id) then
              && before.tasks[id].status == Running && before.tasks[id].token == event.token
              && event.now < before.tasks[id].leaseUntil
              && (id in after.tasks ==>
                    after.tasks[id] == Finished(before.tasks[id], event.outcome, event.next, event.force, event.now))
              && (id !in after.tasks <==> event.outcome == Completed && before.tasks[id].identity.kind != Daily)
            else
              if id in after.tasks then after.tasks[id] == before.tasks[id]
              else Terminal(before.tasks[id].status) && before.tasks[id].updatedAt < event.now - KEEP_FINISHED_MS
  {
  }

  /** What an accepted finish leaves of the tasks: a completed one goes at once unless it is daily, any
      other keeps what it was enqueued with and its attempts, and takes the outcome, the next attempt
      and the replay flag.  Of the other tasks only finished ones of more than a week are dropped, by
      the finish of a daily task and by one that excludes or expires. */
  ghost predicate FinishLeaves(before: map<int, Task>, id: int, outcome: Status, next: int, force: bool, now: int, after: map<int, Task>)
    requires id in before
  {
    var task := before[id];
    && (if outcome == Completed && task.identity.kind != Daily then id !in after
        else
          && id in after
          && after[id] == Task(task.id, task.identity, task.expectedStart, task.expectData, outcome, task.attempts, next, 0, "", force, now))
    && (forall other :: other in after && other != id ==> other in before && after[other] == before[other])
    && (forall other :: other in before && other != id ==>
          (other !in after <==>
             && (outcome in {Excluded, Expired} || task.identity.kind == Daily)
             && Terminal(before[other].status) && before[other].updatedAt < now - KEEP_FINISHED_MS))
  }

  lemma FinishStep(before: Ledger, event: Event, after: Ledger)
    requires WellFormed(before) && Next(before, event, after) && event.Finish? && event.result == Accepted
    ensures event.id in before.tasks && after.nextId == before.nextId
    ensures FinishLeaves(before.tasks, event.id, event.outcome, event.next, event.force, event.now, after.tasks)
  {
  }

  /** What a granted lease leaves: the task was due, and is running under the token with one attempt more. */
  ghost predicate LeaseLeaves(before: map<int, Task>, id: int, token: string, now: int, until: int, after: map<int, Task>)
    requires id in before
  {
    var task := before[id];
    && !Terminal(task.status) && (if task.status == Running then task.leaseUntil else task.nextAttempt) <= now
    && after == before[id := Task(task.id, task.identity, task.expectedStart, task.expectData, Running, task.attempts + 1,
                                  task.nextAttempt, until, token, task.forceReplay, now)]
  }

  /** Identifiers are never reused. */
  lemma {:induction false} GoneForGood(states: seq<Ledger>, events: seq<Event>, a: nat, b: nat, id: int)
    requires Run(states, events) && a <= b <= |events|
    requires id <= states[a].nextId && id !in states[a].tasks
    ensures id !in states[b].tasks && id <= states[b].nextId
    decreases b - a
  {
    if a < b {
      assert Next(states[a], events[a], states[a + 1]);
      GoneForGood(states, events, a + 1, b, id);
    }
  }

  /** Terminal statuses are absorbing: a finished task never changes again, it is only dropped. */
  lemma {:induction false} FinishedStays(states: seq<Ledger>, events: seq<Event>, a: nat, b: nat, id: int)
    requires Run(states, events) && a <= b <= |events|
    requires id in states[a].tasks && Terminal(states[a].tasks[id].status)
    ensures id in states[b].tasks ==> states[b].tasks[id] == states[a].tasks[id]
    decreases b - a
  {
    if a < b {
      RunWellFormed(states, events, a);
      assert Next(states[a], events[a], states[a + 1]);
      TaskStep(states[a], events[a], states[a + 1], id);
      if id in states[a + 1].tasks {
        FinishedStays(states, events, a + 1, b, id);
      } else {
        StepWellFormed(states[a], events[a], states[a + 1]);
        GoneForGood(states, events, a + 1, b, id);
      }
    }
  }

  /** In no run is a completed task of another kind than daily ever stored. */
  lemma {:induction false} OnlyDailyStaysCompleted(states: seq<Ledger>, events: seq<Event>, m: nat, id: int)
    requires Run(states, events) && m <= |events|
    requires id in states[m].tasks && states[m].tasks[id].status == Completed
    ensures states[m].tasks[id].identity.kind == Daily
  {
    if m > 0 {
      RunWellFormed(states, events, m - 1);
      assert Next(states[m - 1], events[m - 1], states[m]);
      if id in states[m - 1].tasks {
        TaskStep(states[m - 1], events[m - 1], states[m], id);
        if states[m - 1].tasks[id].status == Completed {
          OnlyDailyStaysCompleted(states, events, m - 1, id);
        }
      }
    }
  }

  /** A finished task that is stored, such as a completed daily one, stays for a week. */
  lemma {:induction false} FinishedStaysAWeek(states: seq<Ledger>, events: seq<Event>, a: nat, b: nat, id: int)
    requires Run(states, events) && a <= b <= |events|
    requires id in states[a].tasks && Terminal(states[a].tasks[id].status)
    requires a < b ==> events[b - 1].now <= states[a].tasks[id].updatedAt + KEEP_FINISHED_MS
    ensures id in states[b].tasks && states[b].tasks[id] == states[a].tasks[id]
    decreases b - a
  {
    if a < b {
      if a < b - 1 { assert events[b - 2].now <= events[b - 1].now; }
      FinishedStaysAWeek(states, events, a, b - 1, id);
      RunWellFormed(states, events, b - 1);
      assert Next(states[b - 1], events[b - 1], states[b]);
      TaskStep(states[b - 1], events[b - 1], states[b], id);
    }
  }

  /** The lease a running task is held under: granted earlier, and nothing happened to it since. */
  ghost predicate HeldUnder(states: seq<Ledger>, events: seq<Event>, m: nat, id: int, i: nat)
    requires |states| == |events| + 1 && m <= |events|
  {
    && i < m && GrantedTo(events[i], id)
    && id in states[m].tasks && states[m].tasks[id].status == Running
    && states[m].tasks[id].token == events[i].token && states[m].tasks[id].leaseUntil == events[i].until
    && forall k :: i < k < m ==> !GrantedTo(events[k], id) && !FinishedBy(events[k], id)
  }

  lemma {:induction false} RunningIsHeld(states: seq<Ledger>, events: seq<Event>, m: nat, id: int) returns (i: nat)
    requires Run(states, events) && m <= |events|
    requires id in states[m].tasks && states[m].tasks[id].status == Running
    ensures HeldUnder(states, events, m, id, i)
  {
    assert m > 0;
    var before, event := states[m - 1], events[m - 1];
    assert Next(before, event, states[m]);
    RunWellFormed(states, events, m - 1);
    assert id in before.tasks;
    TaskStep(before, event, states[m], id);
    if GrantedTo(event, id) {
      i := m - 1;
    } else {
      assert !FinishedBy(event, id);
      i := RunningIsHeld(states, events, m - 1, id);
    }
  }

  /** A finish call changes the ledger only for the worker that holds the latest lease, before
      it lapses; for a worker whose lease lapsed or was retaken it changes nothing. */
  lemma FinishNeedsCurrentLease(states: seq<Ledger>, events: seq<Event>, j: nat)
    requires Run(states, events) && j < |events| && events[j].Finish?
    ensures states[j + 1] != states[j] ==> events[j].result == Accepted
    ensures events[j].result == Accepted ==>
              exists i :: 0 <= i < j && HeldUnder(states, events, j, events[j].id, i)
                && events[i].token == events[j].token && events[j].now < events[i].until
  {
    assert Next(states[j], events[j], states[j + 1]);
    if events[j].result == Accepted {
      var i := RunningIsHeld(states, events, j, events[j].id);
    }
  }

  /** The fate of a lease: still held, given back by its own holder, or lapsed before the next one. */
  lemma {:induction false} LeaseFate(states: seq<Ledger>, events: seq<Event>, i: nat, m: nat)
    requires Run(states, events) && i < m <= |events| && events[i].Lease? && events[i].granted
    ensures var id := events[i].id;
            || HeldUnder(states, events, m, id, i)
            || (exists k :: i < k < m && FinishedBy(events[k], id) && events[k].token == events[i].token)
            || (exists k :: i < k < m && GrantedTo(events[k], id) && events[i].until <= events[k].now)
    decreases m - i
  {
    var id := events[i].id;
    assert Next(states[m - 1], events[m - 1], states[m]);
    RunWellFormed(states, events, m - 1);
    if m == i + 1 {
      TaskStep(states[i], events[i], states[m], id);
    } else {
      LeaseFate(states, events, i, m - 1);
      if HeldUnder(states, events, m - 1, id, i) {
        TaskStep(states[m - 1], events[m - 1], states[m], id);
      }
    }
  }

  /** Mutual exclusion: two leases of one task overlap in time only if the first holder
      finished in between. */
  lemma LeasesExclusive(states: seq<Ledger>, events: seq<Event>, i: nat, j: nat)
    requires Run(states, events) && i < j < |events|
    requires events[i].Lease? && events[i].granted && GrantedTo(events[j], events[i].id)
    ensures events[i].until <= events[j].now
         || exists k :: i < k < j && FinishedBy(events[k], events[i].id) && events[k].token == events[i].token
  {
    LeaseFate(states, events, i, j);
    assert Next(states[j], events[j], states[j + 1]);
  }

  // ----- progress -----

  /** How the guardian times its calls: leases run ten minutes, and whatever it leaves
      unfinished is due again within a quarter of an hour. */
  predicate Timed(event: Event) {
    match event
    case Enqueue(request, _, now) => request.nextAttempt <= request.createdAt + LONGEST_DELAY_MS && request.createdAt <= now
    case Lease(_, _, now, until, _) => until == now + LEASE_MS
    case Finish(_, _, outcome, next, _, now, _) => Terminal(outcome) || next <= now + LONGEST_DELAY_MS
  }

  predicate AllTimed(events: seq<Event>) { forall k :: 0 <= k < |events| ==> Timed(events[k]) }

  /** In milliseconds: thirty seconds, doubled with every attempt, at most fifteen minutes. */
  function RetryDelay(attempts: int): int {
    var n := if attempts < 0 then 0 else if attempts > 5 then 5 else attempts;
    var delay := 30_000 * Power2(n);
    if delay > 900_000 then 900_000 else delay
  }

  function Power2(n: nat): nat { if n == 0 then 1 else 2 * Power2(n - 1) }

  lemma RetryDelayGrows(a: int, b: int)
    requires a <= b
    ensures 30_000 <= RetryDelay(a) <= RetryDelay(b) <= LONGEST_DELAY_MS
    ensures b >= 5 ==> RetryDelay(b) == LONGEST_DELAY_MS
    ensures a >= 0 ==> RetryDelay(a + 1) == if 2 * RetryDelay(a) > LONGEST_DELAY_MS then LONGEST_DELAY_MS else 2 * RetryDelay(a)
  {
    assert Power2(1) == 2 && Power2(2) == 4 && Power2(3) == 8 && Power2(4) == 16 && Power2(5) == 32;
  }

  /** Being due lasts: an unfinished task is due from one moment on, until something happens to it. */
  lemma DueFrom(task: Task, now: int)
    ensures Due(task, now) <==> !Terminal(task.status) && DueAt(task) <= now
  {
  }

  lemma {:induction false} TouchedRecently(states: seq<Ledger>, events: seq<Event>, m: nat, id: int)
    requires Run(states, events) && AllTimed(events) && m <= |events|
    requires id in states[m].tasks && !Terminal(states[m].tasks[id].status)
    ensures m > 0 && states[m].tasks[id].updatedAt <= events[m - 1].now
    ensures DueAt(states[m].tasks[id]) <= states[m].tasks[id].updatedAt + LONGEST_DELAY_MS
  {
    assert m > 0;
    assert Timed(events[m - 1]);
    var before, event := states[m - 1], events[m - 1];
    assert Next(before, event, states[m]);
    if id in before.tasks {
      RunWellFormed(states, events, m - 1);
      TaskStep(before, event, states[m], id);
      if !Terminal(before.tasks[id].status) {
        TouchedRecently(states, events, m - 1, id);
      }
    }
  }

  /** No task is stuck: a quarter of an hour after the last event, every unfinished task is due. */
  lemma EveryTaskComesBack(states: seq<Ledger>, events: seq<Event>, id: int, now: int)
    requires Run(states, events) && AllTimed(events) && events != []
    requires id in states[|events|].tasks && !Terminal(states[|events|].tasks[id].status)
    requires now >= events[|events| - 1].now + LONGEST_DELAY_MS
    ensures CanLease(states[|events|], id, now)
  {
    TouchedRecently(states, events, |events|, id);
    DueFrom(states[|events|].tasks[id], now);
  }

  // ----- no work is lost -----

  predicate Covers(identity: Identity, series: Series, kind: TaskKind, minute: int) {
    identity.series == series && identity.kind == kind && identity.start <= minute <= identity.end
  }

  /** The first minute that is still kept at `now`. */
  function RetainedStart(now: int, retention: int): int { FloorStart(now - retention, M1) + MINUTE_MS }

  /** It is the first whole minute after the retention period began. */
  lemma RetainedIsFirst(now: int, retention: int, minute: int)
    requires now - retention >= 0 && minute % MINUTE_MS == 0
    ensures minute >= RetainedStart(now, retention) <==> minute > now - retention
  {
    hide Boundary;
    var q, m := (now - retention) / MINUTE_MS, minute / MINUTE_MS;
    assert FloorStart(now - retention, M1) == q * MINUTE_MS && minute == m * MINUTE_MS;
  }

  ghost predicate Enqueued(events: seq<Event>, m: nat, identity: Identity)
    requires m <= |events|
  {
    exists k :: 0 <= k < m && events[k].Enqueue? && events[k].request.identity == identity
  }

  /** Exactly this was asked of the store, at event `from` or later. */
  ghost predicate Asked(events: seq<Event>, from: nat, request: Request) {
    exists k :: from <= k < |events| && events[k].Enqueue? && events[k].request == request
  }

  lemma AskedLater(events: seq<Event>, events': seq<Event>, from: nat, request: Request)
    requires Asked(events, from, request) && events <= events'
    ensures Asked(events', from, request)
  {
    var k :| from <= k < |events| && events[k].Enqueue? && events[k].request == request;
    assert events'[k] == events[k];
  }

  /** Event `k` closes the task of this identity with a terminal outcome. */
  ghost predicate Closes(states: seq<Ledger>, events: seq<Event>, k: nat, identity: Identity)
    requires |states| == |events| + 1 && k < |events|
  {
    && events[k].Finish? && events[k].result == Accepted && Terminal(events[k].outcome)
    && events[k].id in states[k].tasks && states[k].tasks[events[k].id].identity == identity
  }

  ghost predicate Open(ledger: Ledger, identity: Identity) {
    exists id :: id in ledger.tasks && ledger.tasks[id].identity == identity && !Terminal(ledger.tasks[id].status)
  }

  /** A task of this identity is unfinished, or was closed by an accepted finish. */
  ghost predicate Tracked(states: seq<Ledger>, events: seq<Event>, m: nat, identity: Identity)
    requires |states| == |events| + 1 && m <= |events|
  {
    Open(states[m], identity) || exists k :: 0 <= k < m && Closes(states, events, k, identity)
  }

  lemma {:induction false} TerminalWasClosed(states: seq<Ledger>, events: seq<Event>, m: nat, id: int)
    requires Run(states, events) && m <= |events|
    requires id in states[m].tasks && Terminal(states[m].tasks[id].status)
    ensures exists k :: 0 <= k < m && Closes(states, events, k, states[m].tasks[id].identity)
  {
    assert m > 0;
    var before, event := states[m - 1], events[m - 1];
    assert Next(before, event, states[m]);
    RunWellFormed(states, events, m - 1);
    assert id in before.tasks;
    TaskStep(before, event, states[m], id);
    if FinishedBy(event, id) && !GrantedTo(event, id) {
      assert Closes(states, events, m - 1, states[m].tasks[id].identity);
    } else {
      TerminalWasClosed(states, events, m - 1, id);
    }
  }

  lemma RequestIsThere(before: Ledger, event: Event, after: Ledger, identity: Identity)
    requires Next(before, event, after) && Requests(event, identity)
    ensures exists id :: id in after.tasks && after.tasks[id].identity == identity
  {
    assert event.id in after.tasks && after.tasks[event.id].identity == identity;
  }

  lemma {:induction false} EnqueuedIsTracked(states: seq<Ledger>, events: seq<Event>, m: nat, identity: Identity)
    requires Run(states, events) && m <= |events| && Enqueued(events, m, identity)
    ensures Tracked(states, events, m, identity)
  {
    hide Next, Closes;
    var before, event := states[m - 1], events[m - 1];
    assert Next(before, event, states[m]);
    RunWellFormed(states, events, m - 1);
    if Requests(event, identity) {
      RequestIsThere(before, event, states[m], identity);
      var after := states[m];
      var id :| id in after.tasks && after.tasks[id].identity == identity;
      if Terminal(after.tasks[id].status) { TerminalWasClosed(states, events, m, id); }
    } else {
      assert Enqueued(events, m - 1, identity);
      EnqueuedIsTracked(states, events, m - 1, identity);
      if Open(before, identity) { OpenStep(states, events, m - 1, identity); }
    }
  }

  // A request is open unless it was folded into a task that had finished before.

  /** A finished task of this identity is still in the ledger. */
  ghost predicate FinishedAlready(ledger: Ledger, identity: Identity) {
    exists id :: id in ledger.tasks && ledger.tasks[id].identity == identity && Terminal(ledger.tasks[id].status)
  }

  lemma RequestIsOpen(before: Ledger, request: Request, id: int, after: Ledger)
    requires WellFormed(before) && Enqueues(before, request, id, after)
    ensures Open(after, request.identity) <==> !FinishedAlready(before, request.identity)
  {
    if known :| known in before.tasks && before.tasks[known].identity == request.identity {
      assert after == before;
      assert Terminal(before.tasks[known].status) || Open(before, request.identity);
    } else {
      assert id in after.tasks && after.tasks[id] == NewTask(request, id);
    }
  }

  ghost predicate ClosedBetween(states: seq<Ledger>, events: seq<Event>, a: nat, b: nat, identity: Identity)
    requires |states| == |events| + 1 && a <= b <= |events|
  {
    exists j :: a <= j < b && Closes(states, events, j, identity)
  }

  predicate Requests(event: Event, identity: Identity) { event.Enqueue? && event.request.identity == identity }

  /** What is open stays open until it is closed. */
  lemma {:induction false} OpenUntilClosed(states: seq<Ledger>, events: seq<Event>, a: nat, b: nat, identity: Identity)
    requires Run(states, events) && a <= b <= |events| && Open(states[a], identity)
    ensures Open(states[b], identity) || ClosedBetween(states, events, a, b, identity)
    decreases b - a
  {
    hide Next;
    if a < b {
      OpenUntilClosed(states, events, a, b - 1, identity);
      if Open(states[b - 1], identity) {
        RunWellFormed(states, events, b - 1);
        assert Next(states[b - 1], events[b - 1], states[b]);
        OpenStep(states, events, b - 1, identity);
      }
    }
  }

  lemma OpenStep(states: seq<Ledger>, events: seq<Event>, k: nat, identity: Identity)
    requires |states| == |events| + 1 && k < |events| && WellFormed(states[k]) && Next(states[k], events[k], states[k + 1])
    requires Open(states[k], identity)
    ensures Open(states[k + 1], identity) || Closes(states, events, k, identity)
  {
    hide Next;
    var id :| id in states[k].tasks && states[k].tasks[id].identity == identity && !Terminal(states[k].tasks[id].status);
    TaskStep(states[k], events[k], states[k + 1], id);
    if !(id in states[k + 1].tasks && !Terminal(states[k + 1].tasks[id].status)) {
      assert FinishedBy(events[k], id);
    }
  }

  /** What is not open is neither opened nor closed without a new request. */
  lemma {:induction false} ClosedUntilRequested(states: seq<Ledger>, events: seq<Event>, a: nat, b: nat, identity: Identity)
    requires Run(states, events) && a <= b <= |events| && !Open(states[a], identity)
    requires forall j :: a <= j < b ==> !Requests(events[j], identity)
    ensures !Open(states[b], identity) && !ClosedBetween(states, events, a, b, identity)
    decreases b - a
  {
    hide Next;
    if a < b {
      ClosedUntilRequested(states, events, a, b - 1, identity);
      RunWellFormed(states, events, b - 1);
      assert Next(states[b - 1], events[b - 1], states[b]);
      ClosedStep(states, events, b - 1, identity);
    }
  }

  lemma ClosedStep(states: seq<Ledger>, events: seq<Event>, k: nat, identity: Identity)
    requires |states| == |events| + 1 && k < |events| && WellFormed(states[k]) && Next(states[k], events[k], states[k + 1])
    requires !Open(states[k], identity) && !Requests(events[k], identity)
    ensures !Open(states[k + 1], identity) && !Closes(states, events, k, identity)
  {
    var after := states[k + 1];
    if id :| id in after.tasks && after.tasks[id].identity == identity && !Terminal(after.tasks[id].status) {
      NoOpening(states[k], events[k], after, id);
    }
  }

  lemma NoOpening(before: Ledger, event: Event, after: Ledger, id: int)
    requires WellFormed(before) && Next(before, event, after)
    requires id in after.tasks && !Terminal(after.tasks[id].status) && !Requests(event, after.tasks[id].identity)
    ensures id in before.tasks && before.tasks[id].identity == after.tasks[id].identity && !Terminal(before.tasks[id].status)
  {
  }

  /** What becomes of a request: until it is made again it is open, or closed after it was made, if
      and only if no finished task of its identity was in the ledger when it was made. */
  lemma RequestOpenOrClosedSince(states: seq<Ledger>, events: seq<Event>, k: nat, m: nat, identity: Identity)
    requires Run(states, events) && k < m <= |events| && Requests(events[k], identity)
    requires forall j :: k < j < m ==> !Requests(events[j], identity)
    ensures Open(states[m], identity) || ClosedBetween(states, events, k + 1, m, identity)
       <==> !FinishedAlready(states[k], identity)
  {
    hide Open, FinishedAlready, ClosedBetween, Enqueues;
    RunWellFormed(states, events, k);
    assert Next(states[k], events[k], states[k + 1]);
    RequestIsOpen(states[k], events[k].request, events[k].id, states[k + 1]);
    if FinishedAlready(states[k], identity) {
      ClosedUntilRequested(states, events, k + 1, m, identity);
    } else {
      OpenUntilClosed(states, events, k + 1, m, identity);
    }
  }

  /** Once a task that is not daily has been completed, nothing of its identity is left until the
      next request, which opens a fresh task under a number never used before. */
  lemma CompletedOpensAfresh(states: seq<Ledger>, events: seq<Event>, j: nat, k: nat, identity: Identity)
    requires Run(states, events) && j < k < |events| && identity.kind != Daily
    requires Closes(states, events, j, identity) && events[j].outcome == Completed
    requires Requests(events[k], identity) && forall i :: j < i < k ==> !Requests(events[i], identity)
    ensures forall id :: id in states[k].tasks ==> states[k].tasks[id].identity != identity
    ensures var id := events[k].id;
            && states[k].nextId < id && id in states[k + 1].tasks
            && states[k + 1].tasks[id] == NewTask(events[k].request, id)
    ensures Open(states[k + 1], identity)
  {
    RunWellFormed(states, events, j);
    assert Next(states[j], events[j], states[j + 1]);
    FinishStep(states[j], events[j], states[j + 1]);
    NoneUntilRequested(states, events, j + 1, k, identity);
    RunWellFormed(states, events, k);
    assert Next(states[k], events[k], states[k + 1]);
  }

  lemma {:induction false} NoneUntilRequested(states: seq<Ledger>, events: seq<Event>, a: nat, b: nat, identity: Identity)
    requires Run(states, events) && a <= b <= |events|
    requires forall id :: id in states[a].tasks ==> states[a].tasks[id].identity != identity
    requires forall i :: a <= i < b ==> !Requests(events[i], identity)
    ensures forall id :: id in states[b].tasks ==> states[b].tasks[id].identity != identity
    decreases b - a
  {
    if a < b {
      NoneUntilRequested(states, events, a, b - 1, identity);
      RunWellFormed(states, events, b - 1);
      assert Next(states[b - 1], events[b - 1], states[b]);
      NoneNew(states[b - 1], events[b - 1], states[b], identity);
    }
  }

  lemma NoneNew(before: Ledger, event: Event, after: Ledger, identity: Identity)
    requires WellFormed(before) && Next(before, event, after) && !Requests(event, identity)
    requires forall id :: id in before.tasks ==> before.tasks[id].identity != identity
    ensures forall id :: id in after.tasks ==> after.tasks[id].identity != identity
  {
  }

  /** A request that is not daily is only ever folded into an excluded or an expired task. */
  lemma FoldedIntoExcluded(states: seq<Ledger>, events: seq<Event>, m: nat, identity: Identity)
    requires Run(states, events) && m <= |events| && identity.kind != Daily
    ensures FinishedAlready(states[m], identity) <==>
              exists id :: id in states[m].tasks && states[m].tasks[id].identity == identity && states[m].tasks[id].status in {Excluded, Expired}
  {
    if FinishedAlready(states[m], identity) {
      var id :| id in states[m].tasks && states[m].tasks[id].identity == identity && Terminal(states[m].tasks[id].status);
      if states[m].tasks[id].status == Completed {
        OnlyDailyStaysCompleted(states, events, m, id);
      }
    }
  }

  /** The rule the guardian keeps when it lets a task expire: the task reaches back before the
      retained minutes, and if it also reaches into them, the rest was enqueued before. */
  ghost predicate ExpiresSafely(states: seq<Ledger>, events: seq<Event>, k: nat, retention: int)
    requires |states| == |events| + 1 && k < |events|
  {
    events[k].Finish? && events[k].result == Accepted && events[k].outcome == Expired
    && events[k].id in states[k].tasks ==>
      var identity := states[k].tasks[events[k].id].identity;
      exists seen :: identity.start < RetainedStart(seen, retention) && seen <= events[k].now
        && (RetainedStart(seen, retention) <= identity.end ==>
              Enqueued(events, k, identity.(start := RetainedStart(seen, retention))))
  }

  ghost predicate AllExpireSafely(states: seq<Ledger>, events: seq<Event>, retention: int)
    requires |states| == |events| + 1
  {
    forall k :: 0 <= k < |events| ==> ExpiresSafely(states, events, k, retention)
  }

  /** Where the audit work for one minute stands. */
  ghost predicate Accounted(states: seq<Ledger>, events: seq<Event>, m: nat, retention: int,
                            series: Series, kind: TaskKind, minute: int)
    requires |states| == |events| + 1 && m <= |events|
  {
    || (exists id :: id in states[m].tasks && !Terminal(states[m].tasks[id].status)
          && Covers(states[m].tasks[id].identity, series, kind, minute))
    || (exists k, identity :: 0 <= k < m && Closes(states, events, k, identity)
          && events[k].outcome in {Completed, Excluded} && Covers(identity, series, kind, minute))
    || (exists k :: 0 <= k < m && exists seen :: seen <= events[k].now && minute < RetainedStart(seen, retention))
  }

  /** No audit work is lost: in every run, each minute that was ever enqueued is in an
      unfinished task, or was completed or excluded by the holder of a current lease, or had
      left the retained minutes. */
  lemma {:induction false} NoWorkLost(states: seq<Ledger>, events: seq<Event>, m: nat, retention: int,
                                      identity: Identity, minute: int)
    requires Run(states, events) && AllExpireSafely(states, events, retention) && m <= |events|
    requires Enqueued(events, m, identity) && identity.start <= minute <= identity.end
    ensures Accounted(states, events, m, retention, identity.series, identity.kind, minute)
    decreases identity.end - identity.start
  {
    hide RetainedStart;
    EnqueuedIsTracked(states, events, m, identity);
    if Open(states[m], identity) {
      var id :| id in states[m].tasks && states[m].tasks[id].identity == identity && !Terminal(states[m].tasks[id].status);
      assert Covers(states[m].tasks[id].identity, identity.series, identity.kind, minute);
    } else {
      var k :| 0 <= k < m && Closes(states, events, k, identity);
      if events[k].outcome == Expired {
        assert ExpiresSafely(states, events, k, retention);
        var seen :| identity.start < RetainedStart(seen, retention) && seen <= events[k].now
          && (RetainedStart(seen, retention) <= identity.end ==>
                Enqueued(events, k, identity.(start := RetainedStart(seen, retention))));
        if minute >= RetainedStart(seen, retention) {
          var rest := identity.(start := RetainedStart(seen, retention));
          assert Enqueued(events, m, rest);
          NoWorkLost(states, events, m, retention, rest, minute);
        }
      } else {
        assert Covers(identity, identity.series, identity.kind, minute);
      }
    }
  }
}
