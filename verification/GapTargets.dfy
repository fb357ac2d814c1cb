/** From the auditor's gaps to the planner's targets: every start of every gap, checked against the
    gap's own count, and kept from the retention or listing boundary on. */
module GapTargets {
  import opened Timeframe
  import opened BucketCounting
  import opened TimeAudit
  import opened GapAuditor

  const MAX_TARGETS: int := 2_000_000

  ghost predicate ValidGap(gap: Gap, tf: Frame) {
    gap.first > 0 && RightGap(gap, tf) && gap.count <= MAX_TARGETS
  }

  ghost function RangeStarts(first: int, end: int, tf: Frame): set<int> { set t | first <= t < end && Aligned(t, tf) }

  ghost function GapStarts(gap: Gap, tf: Frame): set<int> { RangeStarts(gap.first, gap.last + 1, tf) }

  ghost function AllStarts(gaps: seq<Gap>, tf: Frame): set<int> {
    if gaps == [] then {} else AllStarts(gaps[..|gaps| - 1], tf) + GapStarts(gaps[|gaps| - 1], tf)
  }

  ghost function Kept(all: set<int>, minimum: int): set<int> { set t | t in all && t >= minimum }

  ghost function Dropped(all: set<int>, minimum: int): set<int> { set t | t in all && t < minimum }

  datatype Targets = Targets(all: set<int>, kept: set<int>, outside: int)

  ghost predicate Sorted(targets: Targets, minimum: int) {
    targets.kept == Kept(targets.all, minimum) && targets.outside == |Dropped(targets.all, minimum)|
  }

  lemma OneMore(all: set<int>, t: int, minimum: int)
    ensures Kept(all + {t}, minimum) == Kept(all, minimum) + if t >= minimum then {t} else {}
    ensures |Dropped(all + {t}, minimum)| == |Dropped(all, minimum)| + if t < minimum && t !in all then 1 else 0
  {
    if t < minimum && t !in all {
      assert Dropped(all + {t}, minimum) == Dropped(all, minimum) + {t};
    } else {
      assert Dropped(all + {t}, minimum) == Dropped(all, minimum);
    }
  }

  lemma FewerKept(all: set<int>, all': set<int>, minimum: int)
    requires all <= all'
    ensures |Kept(all, minimum)| <= |Kept(all', minimum)|
  {
    SubsetSize(Kept(all, minimum), Kept(all', minimum));
  }

  lemma SubsetSize(a: set<int>, b: set<int>)
    requires a <= b
    ensures |a| <= |b| && (|a| == |b| ==> a == b)
  {
    assert b == a + (b - a);
    assert |b| == |a| + |b - a|;
  }

  lemma RangeGrows(first: int, cursor: int, tf: Frame)
    requires Aligned(cursor, tf) && first <= cursor
    ensures RangeStarts(first, NextStart(cursor, tf), tf) == RangeStarts(first, cursor, tf) + {cursor}
    ensures cursor < NextStart(cursor, tf) && Aligned(NextStart(cursor, tf), tf)
    ensures BucketIndex(tf, NextStart(cursor, tf)) == BucketIndex(tf, cursor) + 1
  {
    hide Aligned, Boundary, BucketIndex, NextStart;
    AlignedNeighbours(cursor, tf);
    AlignedOrder(cursor, NextStart(cursor, tf), tf);
    forall t | Aligned(t, tf) ensures t < NextStart(cursor, tf) <==> t <= cursor { BeforeNext(cursor, t, tf); }
    OneStartMore(first, cursor, NextStart(cursor, tf), tf);
  }

  lemma BeforeNext(cursor: int, t: int, tf: Frame)
    requires Aligned(cursor, tf) && Aligned(t, tf)
    ensures t < NextStart(cursor, tf) <==> t <= cursor
  {
    hide Aligned, Boundary, BucketIndex, NextStart;
    AlignedNeighbours(cursor, tf);
    AlignedOrder(t, NextStart(cursor, tf), tf);
    AlignedOrder(cursor, t, tf);
  }

  lemma OneStartMore(first: int, cursor: int, next: int, tf: Frame)
    requires first <= cursor && Aligned(cursor, tf) && forall t :: Aligned(t, tf) ==> (t < next <==> t <= cursor)
    ensures RangeStarts(first, next, tf) == RangeStarts(first, cursor, tf) + {cursor}
  {
    hide Aligned;
  }

  method AddTarget(start: int, minimum: int, before: Targets, room: int) returns (after: Option<Targets>)
    requires Sorted(before, minimum) && start > 0 && |before.kept| <= room
    ensures after.Some? <==> |Kept(before.all + {start}, minimum)| <= room
    ensures after.Some? ==> after.value.all == before.all + {start} && Sorted(after.value, minimum)
  {
    hide Kept, Dropped;
    OneMore(before.all, start, minimum);
    KeptMember(before.all, start, minimum);
    var outside := before.outside;
    if start !in before.all && start < minimum {
      outside := outside + 1;
    }
    var kept := before.kept;
    if !(minimum > 0 && start < minimum) && start !in kept {
      if |kept| + 1 > room {
        return None;
      }
      kept := kept + {start};
    }
    after := Some(Targets(before.all + {start}, kept, outside));
  }

  lemma KeptMember(all: set<int>, t: int, minimum: int)
    ensures t in Kept(all, minimum) <==> t in all && t >= minimum
    ensures t in Kept(all, minimum) ==> Kept(all, minimum) + {t} == Kept(all, minimum)
  {
  }

  lemma CountOfValid(gap: Gap, tf: Frame)
    requires ValidGap(gap, tf)
    ensures gap.count > 0 && gap.count == BucketIndex(tf, gap.last) - BucketIndex(tf, gap.first) + 1
  {
    hide Aligned, Boundary, BucketIndex, BucketCount;
    CountIsDistance(gap.first, gap.last, tf);
    AlignedOrder(gap.last, gap.first, tf);
  }

  lemma ValidByCount(gap: Gap, tf: Frame)
    requires Aligned(gap.first, tf) && Aligned(gap.last, tf) && 0 < gap.first <= gap.last && gap.count <= MAX_TARGETS
    requires gap.count == BucketIndex(tf, gap.last) - BucketIndex(tf, gap.first) + 1
    ensures ValidGap(gap, tf)
  {
    hide Aligned, Boundary, BucketIndex, BucketCount;
    CountIsDistance(gap.first, gap.last, tf);
  }

  lemma PartOfGap(gap: Gap, cursor: int, tf: Frame)
    requires gap.first <= cursor <= gap.last && Aligned(cursor, tf)
    ensures RangeStarts(gap.first, cursor, tf) + {cursor} <= GapStarts(gap, tf)
    ensures cursor == gap.last ==> RangeStarts(gap.first, cursor, tf) + {cursor} == GapStarts(gap, tf)
    ensures RangeStarts(gap.first, gap.first, tf) == {}
  {
    hide Aligned;
  }

  /** Walks one gap; its count must lead from its first start to its last. */
  method ExpandGap(gap: Gap, tf: Frame, minimum: int, before: Targets, room: int) returns (after: Option<Targets>)
    requires Sorted(before, minimum) && |before.kept| <= room
    ensures after.Some? <==> ValidGap(gap, tf) && |Kept(before.all + GapStarts(gap, tf), minimum)| <= room
    ensures after.Some? ==> after.value.all == before.all + GapStarts(gap, tf) && Sorted(after.value, minimum)
  {
    hide Aligned, Boundary, BucketIndex, BucketCount, NextStart, Kept, Dropped, RangeStarts, ValidGap, GapStarts;
    if ValidGap(gap, tf) { CountOfValid(gap, tf); ValidParts(gap, tf); }
    if gap.count <= 0 || gap.count > MAX_TARGETS || gap.first <= 0 || gap.last < gap.first {
      return None;
    }
    if !Aligned(gap.first, tf) || !Aligned(gap.last, tf) {
      return None;
    }
    PartOfGap(gap, gap.first, tf);
    var cursor := gap.first;
    var targets := before;
    for n := 0 to gap.count
      invariant Aligned(cursor, tf) && gap.first <= cursor && BucketIndex(tf, cursor) == BucketIndex(tf, gap.first) + n
      invariant n == gap.count ==> BucketIndex(tf, cursor) == BucketIndex(tf, gap.last) + 1
      invariant if n < gap.count then targets.all == before.all + RangeStarts(gap.first, cursor, tf)
                else targets.all == before.all + GapStarts(gap, tf)
      invariant Sorted(targets, minimum) && |targets.kept| <= room
    {
      AlignedOrder(gap.last, cursor, tf);
      if cursor > gap.last {
        return None;
      }
      PartOfGap(gap, cursor, tf);
      RangeGrows(gap.first, cursor, tf);
      assert targets.all + {cursor} == before.all + (RangeStarts(gap.first, cursor, tf) + {cursor});
      FewerKept(targets.all + {cursor}, before.all + GapStarts(gap, tf), minimum);
      var added := AddTarget(cursor, minimum, targets, room);
      if added.None? {
        return None;
      }
      targets := added.value;
      if n == gap.count - 1 && cursor != gap.last {
        return None;
      }
      cursor := NextStart(cursor, tf);
    }
    ValidByCount(gap, tf);
    after := Some(targets);
  }

  lemma ValidParts(gap: Gap, tf: Frame)
    requires ValidGap(gap, tf)
    ensures Aligned(gap.first, tf) && Aligned(gap.last, tf) && 0 < gap.first <= gap.last && gap.count <= MAX_TARGETS
  {
    hide Aligned, BucketCount;
  }

  ghost predicate AllValid(gaps: seq<Gap>, tf: Frame) { forall gap :: gap in gaps ==> ValidGap(gap, tf) }

  /** The targets of one audited series.  The plan fails exactly when a gap is not what its count
      says, the gaps do not add up to the reported number, or there are too many targets. */
  method PlanSeries(gaps: seq<Gap>, tf: Frame, minimum: int, reported: Option<int>, room: nat) returns (targets: Option<Targets>)
    ensures targets.Some? <==>
              && AllValid(gaps, tf) && |Kept(AllStarts(gaps, tf), minimum)| <= room
              && (reported.Some? ==> reported.value == |AllStarts(gaps, tf)|)
    ensures targets.Some? ==> targets.value.all == AllStarts(gaps, tf) && Sorted(targets.value, minimum)
  {
    hide Kept, Dropped, ValidGap, GapStarts;
    var found := Targets({}, {}, 0);
    NothingKept(minimum);
    for i := 0 to |gaps|
      invariant AllValid(gaps[..i], tf) && found.all == AllStarts(gaps[..i], tf)
      invariant Sorted(found, minimum) && |found.kept| <= room
    {
      assert gaps[..i + 1][..i] == gaps[..i] && gaps[..i + 1][i] == gaps[i] && gaps[i] in gaps;
      FewerStarts(gaps, i + 1, tf, minimum);
      var next := ExpandGap(gaps[i], tf, minimum, found, room);
      if next.None? {
        return None;
      }
      found := next.value;
    }
    assert gaps[..|gaps|] == gaps;
    if reported.Some? && |found.all| != reported.value {
      return None;
    }
    targets := Some(found);
  }

  lemma NothingKept(minimum: int)
    ensures Kept({}, minimum) == {} && Dropped({}, minimum) == {}
  {
  }

  lemma {:induction false} FewerStarts(gaps: seq<Gap>, n: nat, tf: Frame, minimum: int)
    requires n <= |gaps|
    ensures AllStarts(gaps[..n], tf) <= AllStarts(gaps, tf)
    ensures |Kept(AllStarts(gaps[..n], tf), minimum)| <= |Kept(AllStarts(gaps, tf), minimum)|
    decreases |gaps|
  {
    hide Kept, GapStarts;
    if n < |gaps| {
      var front := gaps[..|gaps| - 1];
      FewerStarts(front, n, tf, minimum);
      assert front[..n] == gaps[..n];
    } else {
      assert gaps[..n] == gaps;
    }
    FewerKept(AllStarts(gaps[..n], tf), AllStarts(gaps, tf), minimum);
  }
}
