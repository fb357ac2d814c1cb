/** The service's guard for unverified final candles: a late one never replaces a verified minute. */
module LateFinals {
  import opened Timeframe
  import opened Rollup
  import opened Storage
  import opened MinuteLedger
  import opened MinuteWorker
  import opened Cascade
  import opened MarketService
  import BatchRepair

  datatype Admission = Admitted | AlreadyKnown | Conflicting | Failed | Refused

  function ConflictOf(bar: Bar): Identity {
    Identity(bar.series, Conflict, bar.start, bar.start)
  }

  function ConflictRequest(bar: Bar, now: int): Request {
    Request(ConflictOf(bar), bar.start, true, true, now, now)
  }

  /** Admits a candle unless it is a final minute that is already verified.  A verified minute
      that it contradicts becomes a task to look into. */
  method AcceptUnverifiedFinal(store: MemoryStore, audit: MinuteAuditStore, bar: Bar, now: int)
    returns (admission: Admission)
    requires WellKeyed(store.rows)
    requires audit.Valid() && LastTime(audit.events, now)
    modifies audit
    ensures audit.Valid() && old(audit.events) <= audit.events
    ensures admission == Admitted <==>
              !(bar.frame == M1 && bar.isFinal && HasFinal(store.rows, KeyOf(bar)) && Protected(store.verifiedAt, KeyOf(bar)))
    ensures admission == AlreadyKnown <==>
              admission != Admitted && SameOfficialValues(bar, store.rows[KeyOf(bar)])
    ensures admission == Failed <==>
              admission != Admitted && admission != AlreadyKnown && !ValidIdentity(ConflictOf(bar))
    ensures admission != Refused
    ensures admission != Conflicting ==> audit.events == old(audit.events) && audit.tasks == old(audit.tasks)
    ensures admission == Conflicting ==>
              exists id :: Enqueues(old(Ledger(audit.tasks, audit.nextId)), ConflictRequest(bar, now), id,
                                                 Ledger(audit.tasks, audit.nextId))
    ensures admission == Conflicting ==>
              Enqueued(audit.events, |audit.events|, ConflictOf(bar))
  {
    hide SameOfficialValues;
    if bar.frame != M1 || !bar.isFinal {
      return Admitted;
    }
    RangeSingle(store.rows, bar.series, M1, bar.start);
    var found := store.LoadMinuteVerifications(bar.series, bar.start, bar.start);
    for i := 0 to |found|
      invariant i > 0 ==> found[0].verifiedAt <= 0
    {
      var row := found[i];
      if row.verifiedAt <= 0 {
        continue;
      }
      if SameOfficialValues(bar, row.bar) {
        return AlreadyKnown;
      }
      var id := audit.EnqueueTask(ConflictRequest(bar, now), now);
      if id.None? {
        return Failed;
      }
      assert audit.events[|audit.events| - 1].request.identity == ConflictOf(bar);
      return Conflicting;
    }
    return Admitted;
  }

  /** In every run a conflict leaves unfinished work exactly when no task of the same minute has been
      excluded or has expired and is still in the ledger: into such a task a new request is folded,
      and stays closed with it.  A completed one is gone and does not stand in the way. */
  lemma ConflictIsOpen(states: seq<Ledger>, events: seq<Event>, k: nat, bar: Bar, now: int)
    requires Run(states, events) && k < |events| && events[k].Enqueue? && events[k].request == ConflictRequest(bar, now)
    ensures !Open(states[k + 1], ConflictOf(bar)) <==>
              exists id :: id in states[k].tasks && states[k].tasks[id].identity == ConflictOf(bar)
                        && states[k].tasks[id].status in {Excluded, Expired}
  {
    hide Open, FinishedAlready, Enqueues;
    RunWellFormed(states, events, k);
    assert Next(states[k], events[k], states[k + 1]);
    RequestIsOpen(states[k], events[k].request, events[k].id, states[k + 1]);
    FoldedIntoExcluded(states, events, k, ConflictOf(bar));
  }

  /** Such a task can be there: a conflict is excluded, and the next conflict of the same minute
      is folded into it. */
  lemma ConflictFoldedAway(identity: Identity) returns (states: seq<Ledger>, events: seq<Event>)
    requires identity.kind == Conflict
    ensures Run(states, events) && |events| == 4
    ensures events[3].Enqueue? && events[3].request.identity == identity && !Open(states[4], identity)
  {
    var request := Request(identity, 1, true, true, 1, 1);
    var pending := NewTask(request, 1);
    var leased := pending.(status := Running, token := "a", leaseUntil := 10, attempts := 1, updatedAt := 2);
    var closed := Finished(leased, Excluded, 0, false, 3);
    events := [Enqueue(request, 1, 1), Lease(1, "a", 2, 10, true),
               Finish(1, "a", Excluded, 0, false, 3, Accepted),
               Enqueue(request, 1, 4)];
    var ledger := Ledger(map[1 := closed], 1);
    states := [EMPTY, Ledger(map[1 := pending], 1), Ledger(map[1 := leased], 1), ledger, ledger];
    assert Next(states[0], events[0], states[1]);
    assert Next(states[1], events[1], states[2]);
    assert Pruned(map[1 := closed], 3) == map[1 := closed];
    assert Next(states[2], events[2], states[3]);
    assert Next(states[3], events[3], states[4]);
  }

  /** One candle of an ordinary repair: admitted, stored and rolled up, or turned away; a disabled
      timeframe is refused.  However it ends, a verified minute keeps its row. */
  method RepairFinalBar(service: Service, audit: MinuteAuditStore, given: Bar, now: int) returns (admission: Admission)
    requires WellKeyed(service.store.rows) && audit.Valid() && LastTime(audit.events, now)
    requires Timely(KeyOf(given))
    modifies service.store`rows, audit
    ensures audit.Valid() && old(audit.events) <= audit.events
    ensures admission == Refused <==> !Enabled(given.frame)
    ensures admission == Refused ==> audit.events == old(audit.events) && audit.tasks == old(audit.tasks)
    ensures var bar := given.(isFinal := true);
            service.store.rows ==
              if admission == Admitted && BatchRepair.ValidBar(bar)
              then CascadeRows(Upserted(old(service.store.rows), service.store.verifiedAt, [bar]), service.frames,
                               FinalKeys([bar]), Depth(bar.frame))
              else old(service.store.rows)
    ensures given.frame == M1 && Consistent(old(service.store.rows), service.frames) ==>
              Consistent(service.store.rows, service.frames)
    ensures given.frame == M1 && HasFinal(old(service.store.rows), KeyOf(given)) && Protected(service.store.verifiedAt, KeyOf(given)) ==>
              service.store.rows == old(service.store.rows)
  {
    hide SameOfficialValues, Consistent, CascadeRows, Timely, Upserted, MinuteAuditStore.Valid, BatchRepair.ValidBar, Protected;
    if !Enabled(given.frame) {
      return Refused;
    }
    var bar := given.(isFinal := true);
    admission := AcceptUnverifiedFinal(service.store, audit, bar, now);
    if admission != Admitted || !BatchRepair.ValidBar(bar) {
      return;
    }
    DepthStep(bar.frame);
    assert FinalKeys([bar]) == {KeyOf(bar)};
    if bar.frame == M1 && Consistent(service.store.rows, service.frames) {
      PersistKeepsConsistent(service.store.rows, service.store.verifiedAt, service.frames, [bar], 0);
    }
    var stored := service.PersistFinalBars([bar], true, Depth(bar.frame));
  }
}
