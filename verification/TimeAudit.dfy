/** The continuity auditor: one pass over an ordered stream of timestamps that records, per
    symbol, which bucket starts are absent. */
module TimeAudit {
  import opened Timeframe
  import opened BucketCounting

  datatype Row = Row(symbol: string, start: int, end: int)

  datatype Gap = Gap(previous: int, next: int, first: int, last: int, count: int)

  datatype SeriesAudit = SeriesAudit(bars: int, first: int, last: int,
                                     canonical: int, firstCanonical: int, lastCanonical: int,
                                     missing: int, gaps: seq<Gap>,
                                     misaligned: int, invalidStart: int, invalidEnd: int, duplicates: int)

  const UNTOUCHED := SeriesAudit(0, 0, 0, 0, 0, 0, 0, [], 0, 0, 0, 0)

  datatype Kind = Duplicate | InvalidStart | Misaligned | Canonical

  // ----- what a list of one symbol's rows amounts to -----

  predicate Ordered(rows: seq<Row>) {
    forall i, j :: 0 <= i < j < |rows| ==> rows[i].start <= rows[j].start
  }

  function KindAt(rows: seq<Row>, k: nat, tf: Frame): Kind
    requires k < |rows|
  {
    if k > 0 && rows[k - 1].start == rows[k].start then Duplicate
    else if rows[k].start <= 0 then InvalidStart
    else if !Aligned(rows[k].start, tf) then Misaligned
    else Canonical
  }

  function CountOf(rows: seq<Row>, kind: Kind, tf: Frame): nat {
    if rows == [] then 0
    else CountOf(rows[..|rows| - 1], kind, tf) + if KindAt(rows, |rows| - 1, tf) == kind then 1 else 0
  }

  function WrongEnds(rows: seq<Row>, tf: Frame): nat {
    if rows == [] then 0
    else
      var row := rows[|rows| - 1];
      var kind := KindAt(rows, |rows| - 1, tf);
      WrongEnds(rows[..|rows| - 1], tf)
      + if kind != Duplicate && kind != InvalidStart && row.end != EndMS(row.start, tf) then 1 else 0
  }

  /** The starts of the canonical rows. */
  function Starts(rows: seq<Row>, tf: Frame): seq<int> {
    if rows == [] then []
    else Starts(rows[..|rows| - 1], tf)
         + if KindAt(rows, |rows| - 1, tf) == Canonical then [rows[|rows| - 1].start] else []
  }

  function GapBetween(a: int, b: int, tf: Frame): seq<Gap> {
    var first := NextStart(a, tf);
    if first < b then
      var last := PreviousStart(b, tf);
      [Gap(a, b, first, last, BucketCount(first, last, tf))]
    else []
  }

  function GapsOf(starts: seq<int>, tf: Frame): seq<Gap> {
    if |starts| <= 1 then []
    else GapsOf(starts[..|starts| - 1], tf) + GapBetween(starts[|starts| - 2], starts[|starts| - 1], tf)
  }

  function Missing(gaps: seq<Gap>): int {
    if gaps == [] then 0 else Missing(gaps[..|gaps| - 1]) + gaps[|gaps| - 1].count
  }

  /** The audit of a symbol says the truth about its rows. */
  ghost predicate Audits(audit: SeriesAudit, rows: seq<Row>, tf: Frame) {
    var starts := Starts(rows, tf);
    && audit.bars == |rows|
    && (rows != [] ==> audit.first == rows[0].start && audit.last == rows[|rows| - 1].start)
    && audit.duplicates == CountOf(rows, Duplicate, tf) && audit.invalidStart == CountOf(rows, InvalidStart, tf)
    && audit.misaligned == CountOf(rows, Misaligned, tf) && audit.invalidEnd == WrongEnds(rows, tf)
    && audit.canonical == |starts|
    && (starts != [] ==> audit.firstCanonical == starts[0] && audit.lastCanonical == starts[|starts| - 1])
    && audit.gaps == GapsOf(starts, tf) && audit.missing == Missing(audit.gaps)
  }

  /** Every row is of one kind, so the counters add up to the rows. */
  lemma {:induction false} KindsAddUp(rows: seq<Row>, tf: Frame)
    ensures CountOf(rows, Duplicate, tf) + CountOf(rows, InvalidStart, tf) + CountOf(rows, Misaligned, tf)
          + CountOf(rows, Canonical, tf) == |rows|
    ensures CountOf(rows, Canonical, tf) == |Starts(rows, tf)|
  {
    hide Aligned;
    if rows != [] { KindsAddUp(rows[..|rows| - 1], tf); }
  }

  ghost predicate Canonicals(starts: seq<int>, tf: Frame) {
    && (forall t :: t in starts ==> Aligned(t, tf) && t > 0)
    && (forall i, j :: 0 <= i < j < |starts| ==> starts[i] < starts[j])
  }

  predicate HasStart(rows: seq<Row>, t: int) { exists row :: row in rows && row.start == t }

  lemma HasStartExtends(front: seq<Row>, row: Row)
    ensures forall t :: HasStart(front + [row], t) <==> HasStart(front, t) || row.start == t
  {
    forall t ensures HasStart(front + [row], t) <==> HasStart(front, t) || row.start == t {
      assert row in front + [row];
      if r :| r in front && r.start == t { assert r in front + [row]; }
    }
  }

  /** The canonical starts are the positive aligned starts of the rows, each once, in order. */
  lemma {:induction false} StartsOfRows(rows: seq<Row>, tf: Frame)
    requires Ordered(rows)
    ensures Canonicals(Starts(rows, tf), tf)
    ensures forall t :: t in Starts(rows, tf) <==> t > 0 && Aligned(t, tf) && HasStart(rows, t)
  {
    hide Aligned, Canonicals, HasStart, KindAt, Starts, Ordered;
    if rows != [] {
      var front, row := rows[..|rows| - 1], rows[|rows| - 1];
      assert rows == front + [row];
      OrderedFront(rows);
      StartsOfRows(front, tf);
      HasStartExtends(front, row);
      KindMeans(rows, |front|, tf);
      LastStart(rows, tf);
      if KindAt(rows, |front|, tf) == Canonical {
        AppendCanonical(rows, tf);
      } else if KindAt(rows, |front|, tf) == Duplicate {
        assert front[|front| - 1] == rows[|front| - 1];
        PreviousHasStart(front);
      }
    } else {
      NoStarts(tf);
    }
  }

  lemma OrderedFront(rows: seq<Row>)
    requires Ordered(rows) && rows != []
    ensures Ordered(rows[..|rows| - 1])
  {
  }

  /** The last row adds its start if it is canonical. */
  lemma LastStart(rows: seq<Row>, tf: Frame)
    requires rows != []
    ensures Starts(rows, tf) == if KindAt(rows, |rows| - 1, tf) == Canonical then Starts(rows[..|rows| - 1], tf) + [rows[|rows| - 1].start]
                                else Starts(rows[..|rows| - 1], tf)
  {
    hide KindAt;
    assert Starts(rows[..|rows| - 1], tf) + [] == Starts(rows[..|rows| - 1], tf);
  }

  lemma KindMeans(rows: seq<Row>, k: nat, tf: Frame)
    requires k < |rows|
    ensures match KindAt(rows, k, tf)
            case Duplicate => k > 0 && rows[k - 1].start == rows[k].start
            case InvalidStart => rows[k].start <= 0
            case Misaligned => !Aligned(rows[k].start, tf)
            case Canonical => rows[k].start > 0 && Aligned(rows[k].start, tf)
  {
  }

  lemma NoStarts(tf: Frame)
    ensures Starts([], tf) == [] && Canonicals([], tf) && forall t :: !HasStart([], t)
  {
  }

  lemma PreviousHasStart(rows: seq<Row>)
    requires rows != []
    ensures HasStart(rows, rows[|rows| - 1].start)
  {
    assert rows[|rows| - 1] in rows;
  }

  lemma AppendCanonical(rows: seq<Row>, tf: Frame)
    requires Ordered(rows) && rows != [] && KindAt(rows, |rows| - 1, tf) == Canonical
    requires var front := Starts(rows[..|rows| - 1], tf);
             Canonicals(front, tf) && forall t :: t in front ==> HasStart(rows[..|rows| - 1], t)
    ensures Canonicals(Starts(rows, tf), tf)
  {
    hide Aligned;
    var front, b := Starts(rows[..|rows| - 1], tf), rows[|rows| - 1].start;
    assert Starts(rows, tf) == front + [b];
    forall t | t in front ensures t < b {
      assert HasStart(rows[..|rows| - 1], t);
      var r :| r in rows[..|rows| - 1] && r.start == t;
      LastIsStrictlyLater(rows, r);
    }
    CanonicalsAppend(front, b, tf);
  }

  lemma CanonicalsAppend(front: seq<int>, b: int, tf: Frame)
    requires Canonicals(front, tf) && Aligned(b, tf) && b > 0 && forall t :: t in front ==> t < b
    ensures Canonicals(front + [b], tf)
  {
    hide Aligned;
    forall i, j | 0 <= i < j < |front + [b]| ensures (front + [b])[i] < (front + [b])[j] {
      assert front[i] in front;
    }
  }

  lemma CanonicalsPrefix(starts: seq<int>, n: nat, tf: Frame)
    requires Canonicals(starts, tf) && n <= |starts|
    ensures Canonicals(starts[..n], tf)
    ensures forall i, j :: 0 <= i < j < |starts| ==> starts[i] < starts[j]
    ensures forall i :: 0 <= i < |starts| ==> Aligned(starts[i], tf)
  {
    hide Aligned;
  }

  lemma LastIsStrictlyLater(rows: seq<Row>, r: Row)
    requires Ordered(rows) && |rows| > 1 && r in rows[..|rows| - 1]
    requires rows[|rows| - 2].start != rows[|rows| - 1].start
    ensures r.start < rows[|rows| - 1].start
  {
    var i :| 0 <= i < |rows| - 1 && rows[i] == r;
  }

  ghost predicate InGaps(gaps: seq<Gap>, t: int) { exists g :: g in gaps && g.first <= t <= g.last }

  ghost predicate AbsentExactly(starts: seq<int>, gaps: seq<Gap>, tf: Frame, lo: int, hi: int) {
    && (forall t :: Aligned(t, tf) && lo <= t <= hi ==> (t !in starts <==> InGaps(gaps, t)))
    && (forall t :: InGaps(gaps, t) ==> lo < t < hi)
    && (forall g :: g in gaps ==> RightGap(g, tf))
  }

  predicate RightGap(gap: Gap, tf: Frame) {
    Aligned(gap.first, tf) && Aligned(gap.last, tf) && gap.first <= gap.last && gap.count == BucketCount(gap.first, gap.last, tf)
  }

  /** The audit is exact: between the first and the last canonical start, an aligned start lies in
      a recorded gap if and only if it is absent, and present and missing buckets add up to the
      calendar's count. */
  lemma {:induction false} GapsAreExact(starts: seq<int>, tf: Frame)
    requires Canonicals(starts, tf) && starts != []
    ensures AbsentExactly(starts, GapsOf(starts, tf), tf, starts[0], starts[|starts| - 1])
    ensures |starts| + Missing(GapsOf(starts, tf)) == BucketCount(starts[0], starts[|starts| - 1], tf)
  {
    hide Aligned, NextStart, PreviousStart, BucketCount, GapBetween, AbsentExactly, Canonicals;
    var n := |starts|;
    CanonicalsPrefix(starts, n - 1, tf);
    if n == 1 {
      CountIsDistance(starts[0], starts[0], tf);
      NothingAbsent(starts[0], tf);
      assert starts == [starts[0]];
    } else {
      var front, a, b := starts[..n - 1], starts[n - 2], starts[n - 1];
      assert starts == front + [b];
      assert a == front[|front| - 1];
      GapsAreExact(front, tf);
      GapIsBetween(a, b, tf);
      CountsExtend(starts, tf);
      MissingExtends(GapsOf(front, tf), a, b, tf);
      AbsentExtends(front, GapsOf(front, tf), a, b, tf);
    }
  }

  lemma NothingAbsent(start: int, tf: Frame)
    ensures AbsentExactly([start], [], tf, start, start)
  {
  }

  lemma MissingExtends(gaps: seq<Gap>, a: int, b: int, tf: Frame)
    ensures Missing(gaps + GapBetween(a, b, tf)) == Missing(gaps) + Missing(GapBetween(a, b, tf))
  {
    hide NextStart, PreviousStart, BucketCount;
    var last := GapBetween(a, b, tf);
    if last == [] {
      assert gaps + last == gaps;
    } else {
      assert (gaps + last)[..|gaps|] == gaps;
      assert last[..0] == [];
    }
  }

  lemma AbsentExtends(front: seq<int>, gaps: seq<Gap>, a: int, b: int, tf: Frame)
    requires front != [] && a == front[|front| - 1] && a < b && Aligned(b, tf) && Canonicals(front, tf)
    requires AbsentExactly(front, gaps, tf, front[0], a)
    ensures AbsentExactly(front + [b], gaps + GapBetween(a, b, tf), tf, front[0], b)
  {
    hide Aligned, NextStart, PreviousStart, BucketCount, GapBetween, InGaps, RightGap, Canonicals;
    var starts', gaps' := front + [b], gaps + GapBetween(a, b, tf);
    CanonicalsPrefix(front, 0, tf);
    GapIsBetween(a, b, tf);
    InEither(gaps, GapBetween(a, b, tf));
    forall t | t in front ensures front[0] <= t <= a {
      var i :| 0 <= i < |front| && front[i] == t;
    }
    forall t | Aligned(t, tf) && front[0] <= t <= b ensures t !in starts' <==> InGaps(gaps', t) {
      assert t in starts' <==> t in front || t == b;
    }
  }

  lemma InEither(front: seq<Gap>, back: seq<Gap>)
    ensures forall t :: InGaps(front + back, t) <==> InGaps(front, t) || InGaps(back, t)
  {
    forall t ensures InGaps(front + back, t) <==> InGaps(front, t) || InGaps(back, t) {
      if g :| g in front && g.first <= t <= g.last { assert g in front + back; }
      if g :| g in back && g.first <= t <= g.last { assert g in front + back; }
    }
  }

  lemma GapIsBetween(a: int, b: int, tf: Frame)
    requires Aligned(a, tf) && Aligned(b, tf) && a < b
    ensures forall t :: InGaps(GapBetween(a, b, tf), t) ==> a < t < b
    ensures forall t :: Aligned(t, tf) ==> (InGaps(GapBetween(a, b, tf), t) <==> a < t < b)
    ensures Missing(GapBetween(a, b, tf)) == BucketCount(a, b, tf) - 2
    ensures forall g :: g in GapBetween(a, b, tf) ==> RightGap(g, tf)
  {
    hide Aligned, NextStart, PreviousStart, BucketCount, Boundary, BucketIndex;
    AlignedNeighbours(a, tf);
    AlignedNeighbours(b, tf);
    AlignedOrder(a, b, tf);
    var first, last := NextStart(a, tf), PreviousStart(b, tf);
    AlignedOrder(first, b, tf);
    AlignedOrder(last, first, tf);
    AlignedOrder(a, first, tf);
    AlignedOrder(last, b, tf);
    CountIsDistance(a, b, tf);
    forall t | Aligned(t, tf) ensures a < t < b <==> first <= t <= last { StrictlyBetween(a, b, t, tf); }
    if first < b {
      CountIsDistance(first, last, tf);
      var gap := Gap(a, b, first, last, BucketCount(first, last, tf));
      assert GapBetween(a, b, tf) == [gap];
      assert [gap][..0] == [];
      OneGap(gap);
    }
  }

  lemma OneGap(gap: Gap)
    ensures forall t :: InGaps([gap], t) <==> gap.first <= t <= gap.last
    ensures Missing([gap]) == gap.count
  {
    assert [gap][..0] == [];
    assert gap in [gap];
  }

  lemma CountsExtend(starts: seq<int>, tf: Frame)
    requires Canonicals(starts, tf) && |starts| >= 2
    ensures BucketCount(starts[0], starts[|starts| - 1], tf)
         == BucketCount(starts[0], starts[|starts| - 2], tf) + BucketCount(starts[|starts| - 2], starts[|starts| - 1], tf) - 1
  {
    hide Aligned, BucketCount, BucketIndex;
    var n := |starts|;
    assert starts[0] in starts && starts[n - 1] in starts && starts[n - 2] in starts;
    CountIsDistance(starts[0], starts[n - 1], tf);
    CountIsDistance(starts[0], starts[n - 2], tf);
    CountIsDistance(starts[n - 2], starts[n - 1], tf);
  }
}
