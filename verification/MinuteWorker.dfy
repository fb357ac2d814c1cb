/** The minute-audit store and the guardian's workers that execute, defer and expire its tasks. */
module MinuteWorker {
  import opened Timeframe
  import opened Rollup
  import opened Collections
  import opened MinuteLedger

  datatype Pass = WindowPass | DailyPass
  datatype CursorKey = CursorKey(series: Series, pass: Pass)

  ghost predicate ValidRequests(events: seq<Event>) {
    forall k :: 0 <= k < |events| && events[k].Enqueue? ==> ValidIdentity(events[k].request.identity)
  }

  function LastTime(events: seq<Event>, now: int): bool {
    events == [] || events[|events| - 1].now <= now
  }

  lemma AppendEvent(states: seq<Ledger>, events: seq<Event>, event: Event, after: Ledger, retention: int)
    requires Run(states, events) && LastTime(events, event.now) && Next(states[|events|], event, after)
    requires AllTimed(events) && Timed(event)
    requires AllExpireSafely(states, events, retention) && ValidRequests(events)
    requires event.Enqueue? ==> ValidIdentity(event.request.identity)
    requires ExpiresSafely(states + [after], events + [event], |events|, retention)
    ensures Run(states + [after], events + [event])
    ensures AllTimed(events + [event]) && ValidRequests(events + [event])
    ensures AllExpireSafely(states + [after], events + [event], retention)
  {
    hide Next, RetainedStart;
    var states', events' := states + [after], events + [event];
    forall k | 0 <= k < |events'| ensures Next(states'[k], events'[k], states'[k + 1]) {
    }
    forall k | 0 <= k < |events'| ensures ExpiresSafely(states', events', k, retention) {
      if k < |events| {
        assert ExpiresSafely(states, events, k, retention);
        KeepsSafety(states, events, event, after, k, retention);
      }
    }
  }

  lemma KeepsSafety(states: seq<Ledger>, events: seq<Event>, event: Event, after: Ledger, k: nat, retention: int)
    requires |states| == |events| + 1 && k < |events| && ExpiresSafely(states, events, k, retention)
    ensures ExpiresSafely(states + [after], events + [event], k, retention)
  {
    hide RetainedStart;
    forall identity | Enqueued(events, k, identity) ensures Enqueued(events + [event], k, identity) {
      var i :| 0 <= i < k && events[i].Enqueue? && events[i].request.identity == identity;
      assert (events + [event])[i] == events[i];
    }
  }

  class MinuteAuditStore {
    var tasks: map<int, Task>
    var nextId: int
    var cursors: map<CursorKey, int>
    ghost const retention: int
    ghost var events: seq<Event>
    ghost var states: seq<Ledger>

    /** The tasks are the outcome of a run in which the guardian kept its own rules. */
    ghost predicate Valid()
      reads this
    {
      && |states| == |events| + 1 && Run(states, events) && states[|events|] == Ledger(tasks, nextId)
      && AllTimed(events) && ValidRequests(events) && AllExpireSafely(states, events, retention)
    }

    constructor (ghost retention: int)
      ensures Valid() && events == [] && this.retention == retention && cursors == map[]
    {
      this.retention := retention;
      tasks, nextId, cursors := map[], 0, map[];
      events, states := [], [EMPTY];
    }

    method FindTask(identity: Identity) returns (id: Option<int>)
      ensures id.Some? ==> id.value in tasks && tasks[id.value].identity == identity
      ensures id.None? ==> forall known :: known in tasks ==> tasks[known].identity != identity
    {
      var rest := tasks.Keys;
      while rest != {}
        invariant rest <= tasks.Keys
        invariant forall known :: known in tasks && known !in rest ==> tasks[known].identity != identity
        decreases rest
      {
        EmptyOrHasMember(rest);
        var known :| known in rest;
        if tasks[known].identity == identity {
          return Some(known);
        }
        rest := rest - {known};
      }
      return None;
    }

    /** Registers a range, unless a task of the same identity is already there. */
    method EnqueueTask(request: Request, ghost now: int) returns (id: Option<int>)
      requires Valid() && LastTime(events, now) && Timed(Enqueue(request, 0, now))
      modifies this`tasks, this`nextId, this`events, this`states
      ensures Valid() && (id.Some? <==> ValidIdentity(request.identity))
      ensures id.None? ==> unchanged(this)
      ensures id.Some? ==> events == old(events) + [Enqueue(request, id.value, now)] && |states| == |old(states)| + 1
      ensures id.Some? ==> Enqueues(old(Ledger(tasks, nextId)), request, id.value, Ledger(tasks, nextId))
      ensures id.Some? ==> id.value in tasks && tasks[id.value].identity == request.identity
      ensures id.Some? && id.value in old(tasks) ==> tasks == old(tasks) && nextId == old(nextId)
      ensures id.Some? && id.value !in old(tasks) ==>
                && (forall known :: known in old(tasks) ==> old(tasks)[known].identity != request.identity)
                && tasks == old(tasks)[id.value := Task(id.value, request.identity, request.expectedStart, request.expectData, Pending, 0,
                                                        request.nextAttempt, 0, "", request.forceReplay, request.createdAt)]
      ensures old(states) <= states
    {
      hide RetainedStart;
      if !ValidIdentity(request.identity) {
        return None;
      }
      ghost var before := Ledger(tasks, nextId);
      var known := FindTask(request.identity);
      RunWellFormed(states, events, |events|);
      if known.Some? {
        Record(Enqueue(request, known.value, now), before);
        return known;
      }
      nextId := nextId + 1;
      tasks := tasks[nextId := NewTask(request, nextId)];
      Record(Enqueue(request, nextId, now), before);
      return Some(nextId);
    }

    method LeaseTask(id: int, token: string, now: int, until: int) returns (granted: bool)
      requires Valid() && LastTime(events, now) && token != "" && until == now + LEASE_MS
      modifies this`tasks, this`events, this`states
      ensures Valid() && granted == CanLease(old(Ledger(tasks, nextId)), id, now)
      ensures !granted ==> tasks == old(tasks)
      ensures granted ==> id in old(tasks) && LeaseLeaves(old(tasks), id, token, now, until, tasks)
      ensures events == old(events) + [Lease(id, token, now, until, granted)]
      ensures old(states) <= states
    {
      hide RetainedStart, Run, AllTimed, ValidRequests, AllExpireSafely;
      ghost var before := Ledger(tasks, nextId);
      if id !in tasks || !Due(tasks[id], now) {
        Record(Lease(id, token, now, until, false), before);
        return false;
      }
      var task := tasks[id];
      tasks := tasks[id := task.(status := Running, token := token, leaseUntil := until,
                                 attempts := task.attempts + 1, updatedAt := now)];
      Record(Lease(id, token, now, until, true), before);
      return true;
    }

    method FinishTask(id: int, token: string, outcome: Status, next: int, force: bool, now: int) returns (result: FinishResult)
      requires Valid() && LastTime(events, now) && IsOutcome(outcome) && (Terminal(outcome) || next <= now + LONGEST_DELAY_MS)
      requires outcome == Expired && id in tasks ==>
        var identity := tasks[id].identity;
        exists seen :: identity.start < RetainedStart(seen, retention) && seen <= now
          && (RetainedStart(seen, retention) <= identity.end ==>
                Enqueued(events, |events|, identity.(start := RetainedStart(seen, retention))))
      modifies this`tasks, this`events, this`states
      ensures Valid()
      ensures result == FinishVerdict(old(Ledger(tasks, nextId)), id, token, now)
      ensures result != Accepted ==> tasks == old(tasks)
      ensures result == Accepted ==> id in old(tasks) && FinishLeaves(old(tasks), id, outcome, next, force, now, tasks)
      ensures events == old(events) + [Finish(id, token, outcome, next, force, now, result)]
      ensures old(states) <= states
    {
      hide RetainedStart, FinishLeaves, Run, AllTimed, ValidRequests, AllExpireSafely, ExpiresSafely, Enqueued, WellFormed;
      ghost var before := Ledger(tasks, nextId);
      RunWellFormed(states, events, |events|);
      result := Accepted;
      if id !in tasks || Terminal(tasks[id].status) {
        result := Ignored;
      } else if tasks[id].status != Running || tasks[id].token != token || tasks[id].leaseUntil <= now {
        result := LeaseLost;
      } else {
        var task := tasks[id];
        if outcome == Completed && task.identity.kind != Daily {
          tasks := tasks - {id};
        } else {
          tasks := tasks[id := Finished(task, outcome, next, force, now)];
          if task.identity.kind == Daily || outcome == Excluded || outcome == Expired {
            tasks := Pruned(tasks, now);
          }
        }
      }
      if result == Accepted {
        FinishStep(before, Finish(id, token, outcome, next, force, now, result), Ledger(tasks, nextId));
      }
      FinishKeepsSafety(before, Finish(id, token, outcome, next, force, now, result), Ledger(tasks, nextId));
      Record(Finish(id, token, outcome, next, force, now, result), before);
    }

    lemma FinishKeepsSafety(before: Ledger, event: Event, after: Ledger)
      requires |states| == |events| + 1 && states[|events|] == before && event.Finish?
      requires event.outcome == Expired && event.id in before.tasks ==>
        var identity := before.tasks[event.id].identity;
        exists seen :: identity.start < RetainedStart(seen, retention) && seen <= event.now
          && (RetainedStart(seen, retention) <= identity.end ==>
                Enqueued(events, |events|, identity.(start := RetainedStart(seen, retention))))
      ensures ExpiresSafely(states + [after], events + [event], |events|, retention)
    {
      hide RetainedStart;
      forall identity | Enqueued(events, |events|, identity) ensures Enqueued(events + [event], |events|, identity) {
        var i :| 0 <= i < |events| && events[i].Enqueue? && events[i].request.identity == identity;
        assert (events + [event])[i] == events[i];
      }
    }

    /** Notes the step just taken in the history. */
    ghost method Record(event: Event, before: Ledger)
      requires Run(states, events) && states[|events|] == before && Next(before, event, Ledger(tasks, nextId))
      requires LastTime(events, event.now) && Timed(event) && AllTimed(events) && ValidRequests(events)
      requires AllExpireSafely(states, events, retention)
      requires event.Enqueue? ==> ValidIdentity(event.request.identity)
      requires ExpiresSafely(states + [Ledger(tasks, nextId)], events + [event], |events|, retention)
      modifies this`events, this`states
      ensures Valid() && events == old(events) + [event] && states == old(states) + [Ledger(tasks, nextId)]
    {
      hide Next, RetainedStart;
      AppendEvent(states, events, event, Ledger(tasks, nextId), retention);
      states := states + [Ledger(tasks, nextId)];
      events := events + [event];
    }

    method LoadTask(id: int) returns (task: Option<Task>)
      ensures task == if id in tasks then Some(tasks[id]) else None
    {
      return if id in tasks then Some(tasks[id]) else None;
    }

    /** Cursors only move forward. */
    method SaveCursor(key: CursorKey, through: int)
      modifies this`cursors
      ensures old(Valid()) ==> Valid()
      ensures cursors == old(cursors)[key := if key in old(cursors) && old(cursors)[key] > through then old(cursors)[key] else through]
    {
      var value := through;
      if key in cursors && cursors[key] > through {
        value := cursors[key];
      }
      cursors := cursors[key := value];
    }
  }

  // ----- workers -----

  /** Whatever other workers do to the store in the meantime, up to time `now`. */
  method OtherWorkers(store: MinuteAuditStore, ghost now: int)
    requires store.Valid() && LastTime(store.events, now)
    modifies store
    ensures store.Valid() && LastTime(store.events, now) && store.cursors == old(store.cursors)
    ensures old(store.events) <= store.events && old(store.states) <= store.states
  {
  }

  datatype RepairOutcome = RepairOk | RepairFailed | RepairUnchecked

  lemma {:induction false} IdentityFixed(states: seq<Ledger>, events: seq<Event>, a: nat, b: nat, id: int)
    requires Run(states, events) && a <= b <= |events|
    requires id in states[a].tasks && id in states[b].tasks
    ensures states[a].tasks[id].identity == states[b].tasks[id].identity
    decreases b - a
  {
    if a < b {
      RunWellFormed(states, events, a);
      assert Next(states[a], events[a], states[a + 1]);
      TaskStep(states[a], events[a], states[a + 1], id);
      StepWellFormed(states[a], events[a], states[a + 1]);
      if id in states[a + 1].tasks {
        IdentityFixed(states, events, a + 1, b, id);
      } else {
        GoneForGood(states, events, a + 1, b, id);
      }
    }
  }

  /** The last event is a finish of this task under this token. */
  ghost predicate EndsWithFinish(events: seq<Event>, id: int, token: string, verdict: FinishResult) {
    events != [] && var last := events[|events| - 1];
      last.Finish? && last.id == id && last.token == token && last.result == verdict
  }

  /** The event at `at` asks for this lease, and the ledger just before decides it. */
  ghost predicate AsksLease(states: seq<Ledger>, events: seq<Event>, at: nat, id: int, token: string, now: int, granted: bool)
    requires |states| == |events| + 1
  {
    && at < |events| && events[at] == Lease(id, token, now, now + LEASE_MS, granted)
    && granted == CanLease(states[at], id, now)
  }

  lemma LeaseStays(states: seq<Ledger>, events: seq<Event>, states': seq<Ledger>, events': seq<Event>, at: nat, id: int,
                   token: string, now: int, granted: bool)
    requires |states| == |events| + 1 && |states'| == |events'| + 1 && states <= states' && events <= events'
    requires AsksLease(states, events, at, id, token, now, granted)
    ensures AsksLease(states', events', at, id, token, now, granted)
  {
  }

  /** Claims a stored task under a fresh token, repairs it and reports how that went: completed if
      and only if the repair succeeded, otherwise due again after a delay that grows.  Other workers
      may act between any two calls; `at` is where the lease was asked for. */
  method ExecuteMinuteTask(store: MinuteAuditStore, id: int, token: string, leasedAt: int, repair: RepairOutcome, repairedAt: int)
    returns (verdict: Option<FinishResult>, ghost at: nat)
    requires store.Valid() && LastTime(store.events, leasedAt) && leasedAt <= repairedAt && token != ""
    modifies store
    ensures store.Valid() && LastTime(store.events, repairedAt) && store.cursors == old(store.cursors)
    ensures old(store.events) <= store.events && old(store.states) <= store.states
    ensures id !in old(store.tasks) ==> verdict == None && store.events == old(store.events)
    ensures id in old(store.tasks) ==>
              |old(store.events)| <= at && AsksLease(store.states, store.events, at, id, token, leasedAt, verdict.Some?)
    ensures verdict.Some? ==> EndsWithFinish(store.events, id, token, verdict.value)
    ensures verdict.Some? ==>
              var last := store.events[|store.events| - 1];
              && last.outcome == (match repair case RepairOk => Completed case RepairFailed => Retry case RepairUnchecked => Blocked)
              && last.force == (repair != RepairOk)
              && (repair != RepairOk ==> last.next == repairedAt + RetryDelay(old(store.tasks[id].attempts)))
  {
    hide RetainedStart, RetryDelay, CanLease, Run, AllTimed, ValidRequests, AllExpireSafely;
    verdict, at := None, |store.events|;
    var stored := store.LoadTask(id);
    if stored.None? {
      return;
    }
    var task := stored.value;
    OtherWorkers(store, leasedAt);
    at := |store.events|;
    ghost var before := store.states;
    var leased := store.LeaseTask(id, token, leasedAt, leasedAt + LEASE_MS);
    assert store.states[at] == before[at];
    assert AsksLease(store.states, store.events, at, id, token, leasedAt, leased);
    ghost var states, events := store.states, store.events;
    if !leased {
      return;
    }
    OtherWorkers(store, repairedAt);
    var outcome, next := Completed, 0;
    if repair != RepairOk {
      outcome := Retry;
      if repair == RepairUnchecked {
        outcome := Blocked;
      }
      next := repairedAt + RetryDelay(task.attempts);
      RetryDelayGrows(task.attempts, task.attempts);
    }
    var result := store.FinishTask(id, token, outcome, next, repair != RepairOk, repairedAt);
    LeaseStays(states, events, store.states, store.events, at, id, token, leasedAt, true);
    verdict := Some(result);
  }

  /** Settles a task without repairing it. */
  method DeferMinuteTask(store: MinuteAuditStore, task: Task, outcome: Status, token: string, now: int)
    returns (verdict: Option<FinishResult>)
    requires store.Valid() && LastTime(store.events, now) && token != "" && outcome in {Blocked, Excluded, Expired}
    requires exists a :: 0 <= a < |store.states| && task.id in store.states[a].tasks
               && store.states[a].tasks[task.id].identity == task.identity
    requires outcome == Expired ==>
      exists seen :: task.identity.start < RetainedStart(seen, store.retention) && seen <= now
        && (RetainedStart(seen, store.retention) <= task.identity.end ==>
              Enqueued(store.events, |store.events|, task.identity.(start := RetainedStart(seen, store.retention))))
    modifies store
    ensures store.Valid() && LastTime(store.events, now)
    ensures old(store.events) <= store.events && old(store.states) <= store.states
    ensures verdict.Some? <==> CanLease(old(Ledger(store.tasks, store.nextId)), task.id, now)
    ensures verdict.Some? ==> EndsWithFinish(store.events, task.id, token, verdict.value)
    ensures verdict.Some? ==>
              var last := store.events[|store.events| - 1];
              last.outcome == outcome && last.next == now + 300_000 && last.force == task.forceReplay
  {
    hide RetainedStart, Run, AllTimed, ValidRequests, AllExpireSafely, CanLease;
    verdict := None;
    var leased := store.LeaseTask(task.id, token, now, now + LEASE_MS);
    if !leased {
      return;
    }
    OtherWorkers(store, now);
    if task.id in store.tasks {
      ghost var a :| 0 <= a < |old(store.states)| && task.id in old(store.states)[a].tasks
               && old(store.states)[a].tasks[task.id].identity == task.identity;
      assert store.states[a] == old(store.states)[a];
      IdentityFixed(store.states, store.events, a, |store.events|, task.id);
    }
    EnqueuedLater(old(store.events), store.events, task.identity, store.retention);
    var result := store.FinishTask(task.id, token, outcome, now + 300_000, task.forceReplay, now);
    verdict := Some(result);
  }

  lemma EnqueuedLater(earlier: seq<Event>, later: seq<Event>, identity: Identity, retention: int)
    requires earlier <= later
    ensures forall seen :: Enqueued(earlier, |earlier|, identity.(start := RetainedStart(seen, retention))) ==>
              Enqueued(later, |later|, identity.(start := RetainedStart(seen, retention)))
  {
    hide RetainedStart;
    forall i | Enqueued(earlier, |earlier|, i) ensures Enqueued(later, |later|, i) {
      var k :| 0 <= k < |earlier| && earlier[k].Enqueue? && earlier[k].request.identity == i;
      assert later[k] == earlier[k];
    }
  }

  /** What a retry pass knows about a task's symbol. */
  datatype Target = Target(eligible: bool, listedAt: int, officiallyGone: bool)

  function ListedAt(task: Task, target: Target): int {
    if target.eligible && target.listedAt > 0 then target.listedAt else task.expectedStart
  }

  /** The retained rest of a task: due at once, to be replayed, and from the official listing time on. */
  function RestRequest(task: Task, target: Target, seenAt: int, retention: int): Request {
    Request(task.identity.(start := RetainedStart(seenAt, retention)), ListedAt(task, target),
            task.expectData || (target.eligible && target.listedAt > 0), true, seenAt, seenAt)
  }

  /** Queues the retained part of a task that starts before the retained minutes. */
  method QueueRemainder(store: MinuteAuditStore, task: Task, target: Target, expectedStart: int, seenAt: int, retention: int)
    requires store.Valid() && LastTime(store.events, seenAt) && retention == store.retention
    requires exists a :: 0 <= a < |store.states| && task.id in store.states[a].tasks
               && store.states[a].tasks[task.id].identity == task.identity
    requires task.identity.start < RetainedStart(seenAt, retention) <= task.identity.end && expectedStart == ListedAt(task, target)
    modifies store
    ensures Asked(store.events, |old(store.events)|, RestRequest(task, target, seenAt, retention))
    ensures store.Valid() && LastTime(store.events, seenAt)
    ensures old(store.events) <= store.events && old(store.states) <= store.states
    ensures Enqueued(store.events, |store.events|, task.identity.(start := RetainedStart(seenAt, retention)))
  {
    hide RetainedStart;
    ghost var a :| 0 <= a < |store.states| && task.id in store.states[a].tasks
               && store.states[a].tasks[task.id].identity == task.identity;
    var rest := Request(task.identity.(start := RetainedStart(seenAt, retention)), expectedStart,
                        task.expectData || (target.eligible && target.listedAt > 0), true, seenAt, seenAt);
    RestIsValid(store.states, store.events, a, task.id, seenAt, retention);
    var id := store.EnqueueTask(rest, seenAt);
    assert store.events[|old(store.events)|].request == rest;
  }

  /** Decides whether a task is settled without executing it, and queues the retained rest of an expired one. */
  method SettleBeforehand(store: MinuteAuditStore, task: Task, target: Target, seenAt: int, retention: int)
    returns (settled: Option<Status>)
    requires store.Valid() && LastTime(store.events, seenAt) && retention == store.retention
    requires exists a :: 0 <= a < |store.states| && task.id in store.states[a].tasks
               && store.states[a].tasks[task.id].identity == task.identity
    modifies store
    ensures store.Valid() && LastTime(store.events, seenAt)
    ensures old(store.events) <= store.events && old(store.states) <= store.states
    ensures settled == Some(Expired) <==> task.identity.start < RetainedStart(seenAt, retention)
    ensures settled == Some(Excluded) <==>
              && settled != Some(Expired)
              && (ListedAt(task, target) > task.identity.end + MINUTE_MS - 1 || (!target.eligible && target.officiallyGone))
    ensures settled == Some(Blocked) <==> settled != Some(Expired) && settled != Some(Excluded) && !target.eligible
    ensures settled.Some? ==> settled.value in {Expired, Excluded, Blocked}
    ensures settled == Some(Expired) && RetainedStart(seenAt, retention) <= task.identity.end ==>
              Enqueued(store.events, |store.events|, task.identity.(start := RetainedStart(seenAt, retention)))
    ensures settled == Some(Expired) && RetainedStart(seenAt, retention) <= task.identity.end ==>
              Asked(store.events, |old(store.events)|, RestRequest(task, target, seenAt, retention))
  {
    hide RetainedStart, MinuteAuditStore.Valid, Asked, RestRequest;
    var expectedStart := task.expectedStart;
    if target.eligible && target.listedAt > 0 {
      expectedStart := target.listedAt;
    }
    settled := None;
    var retainedStart := RetainedStart(seenAt, retention);
    if task.identity.start < retainedStart {
      if task.identity.end >= retainedStart {
        QueueRemainder(store, task, target, expectedStart, seenAt, retention);
      }
      settled := Some(Expired);
    } else if expectedStart > task.identity.end + MINUTE_MS - 1 {
      settled := Some(Excluded);
    } else if !target.eligible {
      settled := Some(Blocked);
      if target.officiallyGone {
        settled := Some(Excluded);
      }
    }
  }

  /** One task of a retry pass: expire it, exclude it, block it or execute it.  A task that
      reaches back before the retained minutes is only expired after its retained rest is
      queued, even though other workers and crashes may come between any two store calls. */
  method RetryTask(store: MinuteAuditStore, task: Task, target: Target, token: string,
                   seenAt: int, actedAt: int, repair: RepairOutcome, repairedAt: int, retention: int)
    returns (settled: Option<Status>, verdict: Option<FinishResult>)
    requires store.Valid() && LastTime(store.events, seenAt) && seenAt <= actedAt <= repairedAt && token != ""
    requires retention == store.retention
    requires exists a :: 0 <= a < |store.states| && task.id in store.states[a].tasks
               && store.states[a].tasks[task.id].identity == task.identity
    modifies store
    ensures store.Valid() && LastTime(store.events, repairedAt)
    ensures old(store.events) <= store.events
    ensures settled == Some(Expired) <==> task.identity.start < RetainedStart(seenAt, retention)
    ensures settled == Some(Excluded) <==>
              && settled != Some(Expired)
              && (ListedAt(task, target) > task.identity.end + MINUTE_MS - 1 || (!target.eligible && target.officiallyGone))
    ensures settled == Some(Blocked) <==> settled != Some(Expired) && settled != Some(Excluded) && !target.eligible
    ensures settled.Some? ==> settled.value in {Expired, Excluded, Blocked}
    ensures settled == Some(Expired) && RetainedStart(seenAt, retention) <= task.identity.end ==>
              Enqueued(store.events, |store.events|, task.identity.(start := RetainedStart(seenAt, retention)))
    ensures settled == Some(Expired) && RetainedStart(seenAt, retention) <= task.identity.end ==>
              Asked(store.events, |old(store.events)|, RestRequest(task, target, seenAt, retention))
    ensures verdict.Some? ==> EndsWithFinish(store.events, task.id, token, verdict.value)
    ensures verdict.Some? ==>
              var outcome := store.events[|store.events| - 1].outcome;
              if settled.Some? then outcome == settled.value
              else outcome == (match repair case RepairOk => Completed case RepairFailed => Retry case RepairUnchecked => Blocked)
    ensures verdict.Some? && settled.Some? ==>
              var last := store.events[|store.events| - 1];
              last.next == actedAt + 300_000 && last.force == task.forceReplay
  {
    hide RetainedStart, MinuteAuditStore.Valid, Asked, RestRequest;
    ghost var a :| 0 <= a < |store.states| && task.id in store.states[a].tasks
               && store.states[a].tasks[task.id].identity == task.identity;
    ghost var before := store.states;
    settled := SettleBeforehand(store, task, target, seenAt, retention);
    ghost var middle := store.events;
    OtherWorkers(store, actedAt);
    EnqueuedLater(middle, store.events, task.identity, retention);
    ghost var rest := RestRequest(task, target, seenAt, retention);
    if Asked(middle, |old(store.events)|, rest) { AskedLater(middle, store.events, |old(store.events)|, rest); }
    assert store.states[a] == before[a];
    ghost var acting := store.events;
    if settled.Some? {
      verdict := DeferMinuteTask(store, task, settled.value, token, actedAt);
    } else {
      ghost var at: nat;
      verdict, at := ExecuteMinuteTask(store, task.id, token, actedAt, repair, repairedAt);
    }
    EnqueuedLater(acting, store.events, task.identity, retention);
    if Asked(acting, |old(store.events)|, rest) { AskedLater(acting, store.events, |old(store.events)|, rest); }
  }

  /** The retained rest of a stored task is itself an acceptable range. */
  lemma RestIsValid(states: seq<Ledger>, events: seq<Event>, a: nat, id: int, seen: int, retention: int)
    requires Run(states, events) && ValidRequests(events) && a <= |events| && id in states[a].tasks
    requires states[a].tasks[id].identity.start < RetainedStart(seen, retention) <= states[a].tasks[id].identity.end
    ensures ValidIdentity(states[a].tasks[id].identity.(start := RetainedStart(seen, retention)))
  {
    StoredIsValid(states, events, a, id);
    AlignedRetained(seen, retention);
  }

  lemma AlignedRetained(seen: int, retention: int)
    ensures RetainedStart(seen, retention) % MINUTE_MS == 0
  {
    hide Boundary;
    assert FloorStart(seen - retention, M1) == TruncDiv(seen - retention, MINUTE_MS) * MINUTE_MS;
  }

  lemma {:induction false} StoredIsValid(states: seq<Ledger>, events: seq<Event>, m: nat, id: int)
    requires Run(states, events) && ValidRequests(events) && m <= |events| && id in states[m].tasks
    ensures ValidIdentity(states[m].tasks[id].identity)
  {
    hide ValidIdentity;
    assert m > 0;
    var before, event := states[m - 1], events[m - 1];
    assert Next(before, event, states[m]);
    RunWellFormed(states, events, m - 1);
    if id in before.tasks {
      StoredIsValid(states, events, m - 1, id);
      TaskStep(before, event, states[m], id);
    }
  }
}
