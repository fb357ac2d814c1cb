/** The auditor's state over a stream of rows of many symbols. */
module GapAuditor {
  import opened Timeframe
  import opened BucketCounting
  import opened TimeAudit

  lemma CanonicalAppended(rows: seq<Row>, row: Row, tf: Frame)
    requires KindAt(rows + [row], |rows|, tf) == Canonical
    ensures Starts(rows + [row], tf) == Starts(rows, tf) + [row.start]
    ensures Starts(rows, tf) != [] ==>
              var last := Starts(rows, tf)[|Starts(rows, tf)| - 1];
              GapsOf(Starts(rows + [row], tf), tf) == GapsOf(Starts(rows, tf), tf) + GapBetween(last, row.start, tf)
    ensures Starts(rows, tf) == [] ==> GapsOf(Starts(rows + [row], tf), tf) == []
  {
    hide Aligned, GapBetween;
    var starts := Starts(rows, tf);
    assert (rows + [row])[..|rows|] == rows;
    assert (starts + [row.start])[..|starts|] == starts;
  }

  lemma OtherAppended(rows: seq<Row>, row: Row, tf: Frame)
    requires KindAt(rows + [row], |rows|, tf) != Canonical
    ensures Starts(rows + [row], tf) == Starts(rows, tf)
  {
    hide Aligned;
    assert (rows + [row])[..|rows|] == rows;
  }

  lemma CountsAppended(rows: seq<Row>, row: Row, tf: Frame)
    ensures forall kind :: CountOf(rows + [row], kind, tf)
              == CountOf(rows, kind, tf) + if KindAt(rows + [row], |rows|, tf) == kind then 1 else 0
    ensures var kind := KindAt(rows + [row], |rows|, tf);
            WrongEnds(rows + [row], tf)
              == WrongEnds(rows, tf) + if kind != Duplicate && kind != InvalidStart && row.end != EndMS(row.start, tf) then 1 else 0
  {
    hide KindAt;
    assert (rows + [row])[..|rows|] == rows;
  }

  lemma OneMoreGap(gaps: seq<Gap>, gap: Gap)
    ensures Missing(gaps + [gap]) == Missing(gaps) + gap.count
  {
    assert (gaps + [gap])[..|gaps|] == gaps;
  }

  /** Counts one row and, when it is canonical, records the gap before it. */
  method AuditRow(audit: SeriesAudit, row: Row, duplicate: bool, tf: Frame, ghost rows: seq<Row>) returns (next: SeriesAudit)
    requires Audits(audit, rows, tf)
    requires duplicate <==> rows != [] && rows[|rows| - 1].start == row.start
    ensures Audits(next, rows + [row], tf)
  {
    hide Aligned, NextStart, PreviousStart, BucketCount, EndMS, CountOf, WrongEnds, Starts, GapsOf, Missing;
    CountsAppended(rows, row, tf);
    ghost var starts := Starts(rows, tf);
    NoRowsNoStarts(tf);
    next := audit.(bars := audit.bars + 1);
    if next.bars == 1 {
      next := next.(first := row.start);
    }
    next := next.(last := row.start);
    if duplicate {
      next := next.(duplicates := next.duplicates + 1);
      OtherAppended(rows, row, tf);
      return;
    }
    if row.start <= 0 {
      next := next.(invalidStart := next.invalidStart + 1);
      OtherAppended(rows, row, tf);
      return;
    }
    if row.end != EndMS(row.start, tf) {
      next := next.(invalidEnd := next.invalidEnd + 1);
    }
    if !Aligned(row.start, tf) {
      next := next.(misaligned := next.misaligned + 1);
      OtherAppended(rows, row, tf);
      return;
    }
    next := RecordCanonical(next, row, tf, rows);
  }

  method RecordCanonical(audit: SeriesAudit, row: Row, tf: Frame, ghost rows: seq<Row>) returns (next: SeriesAudit)
    requires KindAt(rows + [row], |rows|, tf) == Canonical && audit.canonical == |Starts(rows, tf)|
    requires audit.gaps == GapsOf(Starts(rows, tf), tf) && audit.missing == Missing(audit.gaps)
    requires var starts := Starts(rows, tf);
             starts != [] ==> audit.firstCanonical == starts[0] && audit.lastCanonical == starts[|starts| - 1]
    ensures var starts := Starts(rows + [row], tf);
            next == audit.(canonical := |starts|, firstCanonical := starts[0], lastCanonical := row.start,
                           gaps := GapsOf(starts, tf), missing := Missing(GapsOf(starts, tf)))
            && starts[|starts| - 1] == row.start
  {
    hide Aligned, NextStart, PreviousStart, BucketCount, EndMS, Starts, GapsOf, Missing, KindAt;
    CanonicalAppended(rows, row, tf);
    NoRowsNoStarts(tf);
    next := audit;
    if next.canonical == 0 {
      next := next.(firstCanonical := row.start);
      assert next.gaps == [];
    } else {
      var first := NextStart(next.lastCanonical, tf);
      if first < row.start {
        var last := PreviousStart(row.start, tf);
        var count := BucketCount(first, last, tf);
        var gap := Gap(next.lastCanonical, row.start, first, last, count);
        OneMoreGap(next.gaps, gap);
        next := next.(missing := next.missing + count, gaps := next.gaps + [gap]);
      } else {
        assert next.gaps + [] == next.gaps;
      }
    }
    next := next.(lastCanonical := row.start, canonical := next.canonical + 1);
  }

  lemma NoRowsNoStarts(tf: Frame)
    ensures Starts([], tf) == [] && GapsOf([], tf) == [] && Missing([]) == 0
  {
  }

  lemma UntouchedAudits(tf: Frame)
    ensures Audits(UNTOUCHED, [], tf)
  {
  }

  /** The rows of one symbol that were counted so far. */
  ghost function RowsOf(rows: map<string, seq<Row>>, symbol: string): seq<Row> {
    if symbol in rows then rows[symbol] else []
  }

  ghost predicate AllAudited(series: map<string, SeriesAudit>, rows: map<string, seq<Row>>, tf: Frame) {
    && rows.Keys <= series.Keys
    && forall s :: s in series ==> Audits(series[s], RowsOf(rows, s), tf) && Ordered(RowsOf(rows, s))
  }

  /** How the place in the stream fits the rows counted so far; rows from `limit` on are not counted. */
  ghost predicate InStep(rows: map<string, seq<Row>>, closed: set<string>, hasRow: bool, symbol: string, start: int, limit: int) {
    var current := RowsOf(rows, symbol);
    && (forall s :: s in rows && rows[s] != [] ==> s in closed || (hasRow && s == symbol))
    && (hasRow && current != [] ==> current[|current| - 1].start <= start)
    && (hasRow && symbol !in closed && start < limit ==> current != [] && current[|current| - 1].start == start)
  }

  predicate Follows(closed: set<string>, hasRow: bool, symbol: string, start: int, row: Row) {
    && row.symbol != "" && row.symbol !in closed
    && (hasRow && row.symbol == symbol ==> start <= row.start)
  }

  function ClosedBy(closed: set<string>, hasRow: bool, symbol: string, row: Row): set<string> {
    if hasRow && row.symbol != symbol then closed + {symbol} else closed
  }

  lemma StepOn(rows: map<string, seq<Row>>, closed: set<string>, hasRow: bool, symbol: string, start: int, limit: int, row: Row)
    requires InStep(rows, closed, hasRow, symbol, start, limit)
    ensures InStep(rows, ClosedBy(closed, hasRow, symbol, row), hasRow, symbol, start, limit)
    ensures Follows(closed, hasRow, symbol, start, row) ==>
              var before := RowsOf(rows, row.symbol);
              var closed' := ClosedBy(closed, hasRow, symbol, row);
              && (before == [] || before[|before| - 1].start <= row.start)
              && (row.start >= limit ==> InStep(rows, closed', true, row.symbol, row.start, limit))
              && (row.start < limit ==> InStep(rows[row.symbol := before + [row]], closed', true, row.symbol, row.start, limit))
              && (row.start < limit ==>
                    (hasRow && row.symbol == symbol && row.start == start <==>
                     before != [] && before[|before| - 1].start == row.start))
  {
  }

  class Accumulator {
    const tf: Frame
    const latest: int
    var series: map<string, SeriesAudit>
    var lastSymbol: string
    var lastStart: int
    var hasRow: bool
    var closed: set<string>
    ghost var rows: map<string, seq<Row>>

    ghost predicate Valid()
      reads this
    {
      AllAudited(series, rows, tf) && InStep(rows, closed, hasRow, lastSymbol, lastStart, NextStart(latest, tf))
    }

    constructor (tf: Frame, watermark: int, registry: set<string>)
      ensures Valid() && rows == map[] && !hasRow && closed == {} && latest == LatestCompletedStart(tf, watermark)
      ensures series.Keys == registry && this.tf == tf
    {
      hide Audits, LatestCompletedStart, NextStart;
      this.tf, latest := tf, LatestCompletedStart(tf, watermark);
      series := map s | s in registry :: UNTOUCHED;
      lastSymbol, lastStart, hasRow, closed, rows := "", 0, false, {}, map[];
      UntouchedAudits(tf);
    }

    /** Takes the next row of the stream: symbols come in one piece each, starts in order. */
    method Add(row: Row) returns (ok: bool)
      requires Valid()
      modifies this
      ensures Valid()
      ensures ok == Follows(old(closed), old(hasRow), old(lastSymbol), old(lastStart), row)
      ensures !ok ==> rows == old(rows) && series == old(series)
      ensures ok ==> rows == if row.start < NextStart(latest, tf)
                             then old(rows)[row.symbol := RowsOf(old(rows), row.symbol) + [row]] else old(rows)
      ensures ok ==> forall s :: s in old(series) && s != row.symbol ==> s in series && series[s] == old(series)[s]
    {
      hide NextStart, LatestCompletedStart, AllAudited, InStep, RowsOf, Audits;
      StepOn(rows, closed, hasRow, lastSymbol, lastStart, NextStart(latest, tf), row);
      if row.symbol == "" {
        return false;
      }
      if hasRow && row.symbol != lastSymbol {
        closed := closed + {lastSymbol};
      }
      if row.symbol in closed || (hasRow && row.symbol == lastSymbol && row.start < lastStart) {
        return false;
      }
      var duplicate := hasRow && row.symbol == lastSymbol && row.start == lastStart;
      lastSymbol, lastStart, hasRow := row.symbol, row.start, true;
      if row.start >= NextStart(latest, tf) {
        return true;
      }
      ghost var before := RowsOf(rows, row.symbol);
      var audit := UNTOUCHED;
      if row.symbol in series {
        audit := series[row.symbol];
      }
      AuditedSymbol(series, rows, tf, row.symbol);
      var next := AuditRow(audit, row, duplicate, tf, before);
      StillAudited(series, rows, tf, row, next);
      series := series[row.symbol := next];
      rows := rows[row.symbol := before + [row]];
      ok := true;
    }
  }

  lemma AuditedSymbol(series: map<string, SeriesAudit>, rows: map<string, seq<Row>>, tf: Frame, symbol: string)
    requires AllAudited(series, rows, tf)
    ensures Audits(if symbol in series then series[symbol] else UNTOUCHED, RowsOf(rows, symbol), tf)
  {
    hide Audits;
    UntouchedAudits(tf);
  }

  lemma StillAudited(series: map<string, SeriesAudit>, rows: map<string, seq<Row>>, tf: Frame, row: Row, next: SeriesAudit)
    requires AllAudited(series, rows, tf)
    requires var before := RowsOf(rows, row.symbol);
             Audits(next, before + [row], tf) && (before == [] || before[|before| - 1].start <= row.start)
    ensures AllAudited(series[row.symbol := next], rows[row.symbol := RowsOf(rows, row.symbol) + [row]], tf)
  {
    hide Audits;
    var before := RowsOf(rows, row.symbol);
    assert Ordered(before + [row]);
  }

  /** What the finished audit of a symbol means: the recorded gaps are the absent bucket starts
      between its first and last canonical row, and the expected count is the calendar's. */
  lemma AuditIsExact(audit: SeriesAudit, rows: seq<Row>, tf: Frame)
    requires Audits(audit, rows, tf) && Ordered(rows) && audit.canonical > 0
    ensures audit.duplicates + audit.invalidStart + audit.misaligned + audit.canonical == audit.bars
    ensures audit.canonical + audit.missing == BucketCount(audit.firstCanonical, audit.lastCanonical, tf)
    ensures forall t :: Aligned(t, tf) && audit.firstCanonical <= t <= audit.lastCanonical ==>
              (InGaps(audit.gaps, t) <==> !HasStart(rows, t))
    ensures forall t :: InGaps(audit.gaps, t) ==> audit.firstCanonical < t < audit.lastCanonical
    ensures forall gap :: gap in audit.gaps ==> RightGap(gap, tf)
  {
    hide Aligned, BucketCount, CountOf, Starts, GapsOf, Missing, HasStart, InGaps, WrongEnds, RightGap;
    KindsAddUp(rows, tf);
    StartsOfRows(rows, tf);
    var starts := Starts(rows, tf);
    GapsAreExact(starts, tf);
    assert starts[0] in starts;
  }

  datatype Status = Continuous | NoData | InternalGaps | TimeAnomaly

  datatype Verdict = Verdict(status: Status, expected: int, lagging: bool, lag: int)

  /** The verdict on one symbol once the stream has ended. */
  method FinishSeries(audit: SeriesAudit, active: bool, latest: int, tf: Frame) returns (verdict: Verdict)
    ensures verdict.expected == audit.canonical + audit.missing
    ensures verdict.lagging <==> active && audit.canonical > 0 && audit.lastCanonical < latest
    ensures verdict.lagging && Aligned(audit.lastCanonical, tf) && Aligned(latest, tf) ==>
              verdict.lag == BucketIndex(tf, latest) - BucketIndex(tf, audit.lastCanonical)
    ensures verdict.status == TimeAnomaly <==>
              audit.misaligned > 0 || audit.invalidStart > 0 || audit.invalidEnd > 0 || audit.duplicates > 0
    ensures verdict.status == InternalGaps <==> verdict.status != TimeAnomaly && audit.missing > 0
    ensures verdict.status == NoData <==> verdict.status != TimeAnomaly && audit.missing <= 0 && audit.bars == 0
  {
    hide Aligned, NextStart, BucketIndex, BucketCount, Boundary;
    var status := Continuous;
    if audit.bars == 0 {
      status := NoData;
    }
    if audit.missing > 0 {
      status := InternalGaps;
    }
    if audit.misaligned > 0 || audit.invalidStart > 0 || audit.invalidEnd > 0 || audit.duplicates > 0 {
      status := TimeAnomaly;
    }
    var lagging, lag := false, 0;
    if active && audit.canonical > 0 && audit.lastCanonical < latest {
      lagging := true;
      var first := NextStart(audit.lastCanonical, tf);
      lag := BucketCount(first, latest, tf);
      if Aligned(audit.lastCanonical, tf) && Aligned(latest, tf) {
        AlignedNeighbours(audit.lastCanonical, tf);
        AlignedOrder(audit.lastCanonical, latest, tf);
        AlignedOrder(latest, first, tf);
        CountIsDistance(first, latest, tf);
      }
    }
    verdict := Verdict(status, audit.canonical + audit.missing, lagging, lag);
  }
}
