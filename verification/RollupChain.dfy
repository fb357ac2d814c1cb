/** Rolling minutes up through the source chain (1m, 15m, 30m, 1H, 1D, ...) against one flat rollup. */
module RollupChain {
  import opened Timeframe
  import opened Rollup

  /** Splits a list into its runs of candles that share a bucket of `tf`. */
  function GroupByBucket(tf: Frame, bars: seq<Bar>): seq<seq<Bar>> {
    if bars == [] then [] else PutInFront(tf, bars[0], GroupByBucket(tf, bars[1..]))
  }

  function PutInFront(tf: Frame, bar: Bar, groups: seq<seq<Bar>>): seq<seq<Bar>> {
    if groups != [] && groups[0] != [] && FloorStart(groups[0][0].start, tf) == FloorStart(bar.start, tf)
    then [[bar] + groups[0]] + groups[1..]
    else [[bar]] + groups
  }

  function Flatten(groups: seq<seq<Bar>>): seq<Bar> {
    if groups == [] then [] else groups[0] + Flatten(groups[1..])
  }

  /** A nonempty part of one bucket. */
  ghost predicate InOneBucket(tf: Frame, group: seq<Bar>) {
    group != [] && forall j :: 0 <= j < |group| ==> FloorStart(group[j].start, tf) == FloorStart(group[0].start, tf)
  }

  /** Every group is a nonempty part of one bucket, and neighbouring groups lie in different buckets. */
  ghost predicate GroupsAreBuckets(tf: Frame, groups: seq<seq<Bar>>) {
    groups == [] ||
    (&& InOneBucket(tf, groups[0])
     && (|groups| > 1 && groups[1] != [] ==>
           FloorStart(groups[0][0].start, tf) != FloorStart(groups[1][0].start, tf))
     && GroupsAreBuckets(tf, groups[1..]))
  }

  lemma {:induction false} GroupsNonempty(tf: Frame, groups: seq<seq<Bar>>)
    requires GroupsAreBuckets(tf, groups)
    ensures forall i :: 0 <= i < |groups| ==> groups[i] != []
  {
    if groups != [] {
      GroupsNonempty(tf, groups[1..]);
      assert forall i :: 1 <= i < |groups| ==> groups[i] == groups[1..][i - 1];
    }
  }

  lemma PutInFrontKeeps(tf: Frame, bar: Bar, groups: seq<seq<Bar>>)
    requires GroupsAreBuckets(tf, groups)
    ensures var all := PutInFront(tf, bar, groups);
            && Flatten(all) == [bar] + Flatten(groups)
            && GroupsAreBuckets(tf, all)
            && all != [] && all[0] != [] && all[0][0] == bar
  {
    hide FloorStart;
    var all := PutInFront(tf, bar, groups);
    if groups != [] && groups[0] != [] && FloorStart(groups[0][0].start, tf) == FloorStart(bar.start, tf) {
      assert all[1..] == groups[1..];
    } else {
      assert all[1..] == groups;
    }
  }

  lemma {:induction false} GroupingPartitions(tf: Frame, bars: seq<Bar>)
    ensures Flatten(GroupByBucket(tf, bars)) == bars
    ensures GroupsAreBuckets(tf, GroupByBucket(tf, bars))
    ensures forall i :: 0 <= i < |GroupByBucket(tf, bars)| ==> GroupByBucket(tf, bars)[i] != []
    ensures bars != [] ==> GroupByBucket(tf, bars) != [] && GroupByBucket(tf, bars)[0][0] == bars[0]
  {
    hide FloorStart, PutInFront, GroupsAreBuckets;
    if bars != [] {
      GroupingPartitions(tf, bars[1..]);
      PutInFrontKeeps(tf, bars[0], GroupByBucket(tf, bars[1..]));
      assert bars == [bars[0]] + bars[1..];
      GroupsNonempty(tf, GroupByBucket(tf, bars));
    } else {
      EmptyGroups(tf);
    }
  }

  lemma EmptyGroups(tf: Frame)
    ensures GroupsAreBuckets(tf, [])
  {
  }

  /** The candle that the cascade builds for one bucket of `tf` from that bucket's minutes. */
  function ChainRollup(tf: Frame, minutes: seq<Bar>): Bar
    requires RollupSource(tf).Some? && |minutes| > 0
    decreases Rank(tf), 1, 0
  {
    SourceRefines(tf);
    var source := RollupSource(tf).value;
    if source == M1 then Rolled(tf, minutes, true)
    else
      GroupingPartitions(source, minutes);
      Rolled(tf, ChainRollups(source, GroupByBucket(source, minutes)), true)
  }

  function ChainRollups(tf: Frame, groups: seq<seq<Bar>>): (bars: seq<Bar>)
    requires RollupSource(tf).Some?
    requires forall i :: 0 <= i < |groups| ==> groups[i] != []
    ensures |bars| == |groups|
    decreases Rank(tf), 2, |groups|
  {
    if groups == [] then [] else [ChainRollup(tf, groups[0])] + ChainRollups(tf, groups[1..])
  }

  /** The chain gives, field by field, the candle of one flat rollup of all the minutes. */
  lemma {:induction false} ChainEqualsFlat(tf: Frame, minutes: seq<Bar>)
    requires RollupSource(tf).Some? && |minutes| > 0
    requires AllNonNegative(minutes)
    requires forall i :: 0 <= i < |minutes| ==> minutes[i].start >= EPOCH_MONDAY
    ensures ChainRollup(tf, minutes) == Rolled(tf, minutes, true)
    decreases Rank(tf), 1, 0
  {
    hide FloorStart, EndMS, NonNegative, Refines, SummaryOf, Join;
    SourceRefines(tf);
    var source := RollupSource(tf).value;
    if source != M1 {
      GroupingPartitions(source, minutes);
      var groups := GroupByBucket(source, minutes);
      ChainsEqualFlat(source, groups);
      var first := ChainRollups(source, groups)[0];
      assert first == Rolled(source, groups[0], true);
      FloorOfFloor(minutes[0].start, source, tf);
    }
  }

  lemma {:induction false} ChainsEqualFlat(tf: Frame, groups: seq<seq<Bar>>)
    requires RollupSource(tf).Some? && |groups| > 0
    requires forall i :: 0 <= i < |groups| ==> groups[i] != []
    requires AllNonNegative(Flatten(groups))
    requires forall i :: 0 <= i < |Flatten(groups)| ==> Flatten(groups)[i].start >= EPOCH_MONDAY
    ensures |Flatten(groups)| > 0
    ensures Fold(ChainRollups(tf, groups)) == Fold(Flatten(groups))
    ensures ChainRollups(tf, groups)[0] == Rolled(tf, groups[0], true)
    decreases Rank(tf), 2, |groups|
  {
    hide FloorStart, EndMS, NonNegative, Refines, SummaryOf, Join;
    var head, rest := groups[0], Flatten(groups[1..]);
    assert Flatten(groups) == head + rest;
    assert forall i :: 0 <= i < |head| ==> head[i] == Flatten(groups)[i];
    ChainEqualsFlat(tf, head);
    RolledSummary(tf, head, true);
    var bars := ChainRollups(tf, groups);
    if |groups| == 1 {
      assert rest == [] && Flatten(groups) == head;
    } else {
      assert forall i :: 0 <= i < |rest| ==> rest[i] == Flatten(groups)[|head| + i];
      ChainsEqualFlat(tf, groups[1..]);
      assert bars[1..] == ChainRollups(tf, groups[1..]);
      FoldConcat(head, rest);
    }
  }
}
