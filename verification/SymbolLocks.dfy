/** The service's sharded symbol locks: every batch takes its shards in increasing order. */
module SymbolLocks {
  import opened Rollup
  import opened Collections

  /** The shards of a batch, in the order in which they are locked. */
  method LockOrder(bars: seq<Bar>, shard: Series -> int) returns (order: seq<int>)
    ensures Increasing(order)
    ensures forall l :: l in order <==> exists i :: 0 <= i < |bars| && shard(bars[i].series) == l
  {
    var indexes: set<int> := {};
    for i := 0 to |bars|
      invariant forall l :: l in indexes <==> exists j :: 0 <= j < i && shard(bars[j].series) == l
    {
      indexes := indexes + {shard(bars[i].series)};
    }
    order := InOrder(indexes);
  }

  /** A batch on its way: it takes its locks one by one, works, and gives them back in reverse. */
  datatype Batch = Batch(order: seq<int>, held: nat, releasing: bool)

  ghost predicate WellOrdered(batch: Batch) { Increasing(batch.order) && batch.held <= |batch.order| }

  predicate Holds(batch: Batch, l: int) { l in batch.order[..if batch.held <= |batch.order| then batch.held else 0] }

  predicate Finished(batch: Batch) { batch.releasing && batch.held == 0 }

  predicate Waits(batch: Batch) { !batch.releasing && batch.held < |batch.order| }

  ghost predicate Free(batches: seq<Batch>, l: int) { forall j :: 0 <= j < |batches| ==> !Holds(batches[j], l) }

  datatype Step = Acquire | Finish | Release

  ghost predicate CanStep(batches: seq<Batch>, i: nat, step: Step)
    requires i < |batches|
  {
    var batch := batches[i];
    match step
    case Acquire => Waits(batch) && Free(batches, batch.order[batch.held])
    case Finish => !batch.releasing && batch.held == |batch.order|
    case Release => batch.releasing && batch.held > 0
  }

  function Stepped(batch: Batch, step: Step): Batch
    requires step.Release? ==> batch.held > 0
  {
    match step
    case Acquire => batch.(held := batch.held + 1)
    case Finish => batch.(releasing := true)
    case Release => batch.(held := batch.held - 1)
  }

  ghost predicate Sound(batches: seq<Batch>) {
    && (forall i :: 0 <= i < |batches| ==> WellOrdered(batches[i]))
    && (forall i, j, l :: 0 <= i < j < |batches| && Holds(batches[i], l) ==> !Holds(batches[j], l))
  }

  lemma HeldGrows(batch: Batch)
    requires WellOrdered(batch) && batch.held < |batch.order|
    ensures forall l :: Holds(batch.(held := batch.held + 1), l) <==> Holds(batch, l) || l == batch.order[batch.held]
  {
    var grown, last := batch.(held := batch.held + 1), batch.order[batch.held];
    assert grown.order[..grown.held] == batch.order[..batch.held] + [last];
    forall l ensures Holds(grown, l) <==> Holds(batch, l) || l == last {
      assert Holds(grown, l) <==> l in batch.order[..batch.held] + [last];
    }
  }

  lemma HeldShrinks(batch: Batch)
    requires WellOrdered(batch) && batch.held > 0
    ensures forall l :: Holds(batch.(held := batch.held - 1), l) ==> Holds(batch, l)
  {
    var shrunk, last := batch.(held := batch.held - 1), batch.order[batch.held - 1];
    assert batch.order[..batch.held] == shrunk.order[..shrunk.held] + [last];
    forall l | Holds(shrunk, l) ensures Holds(batch, l) {
      assert l in shrunk.order[..shrunk.held] + [last];
    }
  }

  /** No two batches ever hold the same lock. */
  lemma StepIsSound(batches: seq<Batch>, i: nat, step: Step)
    requires Sound(batches) && i < |batches| && CanStep(batches, i, step)
    ensures Sound(batches[i := Stepped(batches[i], step)])
  {
    hide Holds;
    match step
    case Acquire => HeldGrows(batches[i]);
    case Finish => SameHeld(batches[i]);
    case Release => HeldShrinks(batches[i]);
  }

  lemma SameHeld(batch: Batch)
    ensures forall l :: Holds(batch.(releasing := true), l) <==> Holds(batch, l)
  {
  }

  /** How many steps a batch still has to make. */
  function Remaining(batch: Batch): int {
    if batch.releasing then batch.held else 2 * |batch.order| - batch.held + 1
  }

  function AllRemaining(batches: seq<Batch>): int {
    if batches == [] then 0 else AllRemaining(batches[..|batches| - 1]) + Remaining(batches[|batches| - 1])
  }

  lemma {:induction false} RemainingReplaced(batches: seq<Batch>, i: nat, batch: Batch)
    requires i < |batches|
    ensures AllRemaining(batches[i := batch]) == AllRemaining(batches) - Remaining(batches[i]) + Remaining(batch)
  {
    var last := |batches| - 1;
    if i < last {
      RemainingReplaced(batches[..last], i, batch);
      assert batches[i := batch][..last] == batches[..last][i := batch];
    } else {
      assert batches[i := batch][..last] == batches[..last];
    }
  }

  lemma {:induction false} RemainingIsSome(batches: seq<Batch>)
    requires forall i :: 0 <= i < |batches| ==> WellOrdered(batches[i])
    ensures AllRemaining(batches) >= 0
  {
    if batches != [] { RemainingIsSome(batches[..|batches| - 1]); }
  }

  /** Among the waiting batches, one waits for the greatest lock. */
  lemma {:induction false} GreatestWait(batches: seq<Batch>, n: nat) returns (i: nat)
    requires n <= |batches| && exists j :: 0 <= j < n && Waits(batches[j])
    ensures i < n && Waits(batches[i])
    ensures forall j :: 0 <= j < n && Waits(batches[j]) ==> batches[j].order[batches[j].held] <= batches[i].order[batches[i].held]
  {
    if exists j :: 0 <= j < n - 1 && Waits(batches[j]) {
      i := GreatestWait(batches, n - 1);
      var last := n - 1;
      if Waits(batches[last]) && batches[last].order[batches[last].held] > batches[i].order[batches[i].held] {
        i := last;
      }
    } else {
      i := n - 1;
    }
  }

  /** No deadlock: as long as a batch is unfinished, some batch can go on. */
  lemma SomeoneCanStep(batches: seq<Batch>) returns (i: nat, step: Step)
    requires Sound(batches) && exists j :: 0 <= j < |batches| && !Finished(batches[j])
    ensures i < |batches| && CanStep(batches, i, step)
  {
    if j :| 0 <= j < |batches| && !Finished(batches[j]) && !Waits(batches[j]) {
      i, step := j, if batches[j].releasing then Release else Finish;
      assert WellOrdered(batches[j]);
    } else {
      i := GreatestWait(batches, |batches|);
      step := Acquire;
      var l := batches[i].order[batches[i].held];
      forall j | 0 <= j < |batches| ensures !Holds(batches[j], l) {
        WaitsAboveHeld(batches[j], l);
      }
    }
  }

  lemma WaitsAboveHeld(batch: Batch, l: int)
    requires WellOrdered(batch) && (Finished(batch) || Waits(batch))
    requires Waits(batch) ==> batch.order[batch.held] <= l
    ensures !Holds(batch, l)
  {
    if Waits(batch) {
      assert forall k :: 0 <= k < batch.held ==> batch.order[k] < batch.order[batch.held];
    }
  }

  /** Every batch gets through: steps cannot go on forever, and they only end when all batches have
      finished. */
  lemma EveryStepCounts(batches: seq<Batch>, i: nat, step: Step)
    requires Sound(batches) && i < |batches| && CanStep(batches, i, step)
    ensures 0 <= AllRemaining(batches[i := Stepped(batches[i], step)]) == AllRemaining(batches) - 1
  {
    hide Holds;
    StepIsSound(batches, i, step);
    RemainingReplaced(batches, i, Stepped(batches[i], step));
    RemainingIsSome(batches[i := Stepped(batches[i], step)]);
    assert WellOrdered(batches[i]);
  }
}
