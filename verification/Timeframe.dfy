/** Bucket arithmetic of the seventeen candle timeframes.

    Each timeframe cuts the time axis at the boundaries `Boundary(tf, k)`, one per
    integer `k`.  `FloorStart`, `NextStart` and `PreviousStart` compute with dates
    and truncating division; the lemmas say how they move on that sequence, and
    everything above this module reasons with boundaries only. */
module Timeframe {
  import opened Calendar

  const MINUTE_MS: int := 60_000
  const HOUR_MS: int := 3_600_000
  const DAY_MS: int := 86_400_000
  /** 1970-01-05, the Monday that week buckets are counted from. */
  const EPOCH_MONDAY: int := 345_600_000

  datatype Frame =
    | M1 | M5 | M15 | M30 | H1 | H2 | H4 | H6 | H12
    | D1 | D2 | D3 | D5 | W1 | W2 | Mon1 | Mon3

  datatype Option<+T> = None | Some(value: T)

  datatype Period = Minutes(n: int) | Days(n: int) | Weeks(n: int) | Months(n: int)

  function PeriodOf(tf: Frame): (p: Period)
    ensures p.n > 0
  {
    match tf
    case M1 => Minutes(1) case M5 => Minutes(5) case M15 => Minutes(15) case M30 => Minutes(30)
    case H1 => Minutes(60) case H2 => Minutes(120) case H4 => Minutes(240)
    case H6 => Minutes(360) case H12 => Minutes(720)
    case D1 => Days(1) case D2 => Days(2) case D3 => Days(3) case D5 => Days(5)
    case W1 => Weeks(1) case W2 => Weeks(2)
    case Mon1 => Months(1) case Mon3 => Months(3)
  }

  /** Position in the service's list of timeframes. */
  function Rank(tf: Frame): (r: nat)
    ensures r < 17
  {
    match tf
    case M1 => 0 case M5 => 1 case M15 => 2 case M30 => 3 case H1 => 4 case H2 => 5
    case H4 => 6 case H6 => 7 case H12 => 8 case D1 => 9 case D2 => 10 case D3 => 11
    case D5 => 12 case W1 => 13 case W2 => 14 case Mon1 => 15 case Mon3 => 16
  }

  /** Integer division that rounds toward zero, as the service's machine integers do. */
  function TruncDiv(a: int, b: int): int
    requires b > 0
  {
    if a >= 0 then a / b else -(-a / b)
  }

  function Day(ms: int): int { ms / DAY_MS }

  /** Days since the last Monday; day 0 was a Thursday. */
  function WeekdayOffset(day: int): int {
    var weekday := (day + 4) % 7;
    if weekday == 0 then 6 else weekday - 1
  }

  function FloorStart(ms: int, tf: Frame): int {
    match PeriodOf(tf)
    case Minutes(n) => TruncDiv(ms, n * MINUTE_MS) * (n * MINUTE_MS)
    case Days(n) => TruncDiv(Day(ms) * DAY_MS, n * DAY_MS) * (n * DAY_MS)
    case Weeks(n) =>
      var baseDays := Day(ms) - WeekdayOffset(Day(ms)) - 4;
      (4 + TruncDiv(baseDays, 7 * n) * (7 * n)) * DAY_MS
    case Months(n) => FirstOfMonth(TruncDiv(MonthIndexOf(Day(ms)), n) * n) * DAY_MS
  }

  /** What each timeframe is: buckets of a fixed width counted from 1970, weeks from the Monday 1970-01-05,
      and calendar months and quarters. */
  lemma FrameWidths(k: int)
    ensures forall f: (Frame, int) :: f in {(M1, 60_000), (M5, 300_000), (M15, 900_000), (M30, 1_800_000), (H1, 3_600_000),
                                            (H2, 7_200_000), (H4, 14_400_000), (H6, 21_600_000), (H12, 43_200_000),
                                            (D1, 86_400_000), (D2, 172_800_000), (D3, 259_200_000), (D5, 432_000_000)} ==>
              Boundary(f.0, k) == k * f.1
    ensures Boundary(W1, k) == 345_600_000 + k * 604_800_000 && Boundary(W2, k) == 345_600_000 + k * 1_209_600_000
    ensures Boundary(Mon1, k) == FirstOfMonth(k) * 86_400_000 && Boundary(Mon3, k) == FirstOfMonth(3 * k) * 86_400_000
  {
    hide FirstOfMonth;
  }

  /** Calendar month addition: the day of the month and the time of day stay,
      and an overflowing day runs into the following month. */
  function AddMonths(ms: int, months: int): int {
    var month := MonthIndexOf(Day(ms));
    ms + (FirstOfMonth(month + months) - FirstOfMonth(month)) * DAY_MS
  }

  function Shift(start: int, tf: Frame, steps: int): int {
    match PeriodOf(tf)
    case Minutes(n) => start + steps * n * MINUTE_MS
    case Days(n) => start + steps * n * DAY_MS
    case Weeks(n) => start + steps * n * 7 * DAY_MS
    case Months(n) => AddMonths(start, steps * n)
  }

  function NextStart(start: int, tf: Frame): int { Shift(start, tf, 1) }

  function PreviousStart(start: int, tf: Frame): int { Shift(start, tf, -1) }

  function EndMS(start: int, tf: Frame): int { NextStart(start, tf) - 1 }

  // ----- the sequence of boundaries -----

  function WidthMS(tf: Frame): (w: int)
    requires !PeriodOf(tf).Months?
    ensures w >= MINUTE_MS
  {
    match PeriodOf(tf)
    case Minutes(n) => n * MINUTE_MS
    case Days(n) => n * DAY_MS
    case Weeks(n) => n * 7 * DAY_MS
  }

  function Origin(tf: Frame): int {
    if PeriodOf(tf).Weeks? then EPOCH_MONDAY else 0
  }

  function Boundary(tf: Frame, k: int): int {
    if PeriodOf(tf).Months? then FirstOfMonth(k * PeriodOf(tf).n) * DAY_MS
    else Origin(tf) + k * WidthMS(tf)
  }

  function BucketIndex(tf: Frame, ms: int): int {
    if PeriodOf(tf).Months? then MonthIndexOf(Day(ms)) / PeriodOf(tf).n
    else (ms - Origin(tf)) / WidthMS(tf)
  }

  lemma BoundariesIncrease(tf: Frame, a: int, b: int)
    requires a < b
    ensures Boundary(tf, a) + MINUTE_MS * (b - a) <= Boundary(tf, b)
  {
    hide FirstOfMonth, MonthIndexOf;
    if PeriodOf(tf).Months? {
      var n := PeriodOf(tf).n;
      assert a * n + (b - a) <= b * n by {
        Multiple(b - a, n);
        assert b * n - a * n == (b - a) * n;
        Scale(b - a, n);
      }
      MonthsIncrease(a * n, b * n);
    } else {
      assert Boundary(tf, b) - Boundary(tf, a) == (b - a) * WidthMS(tf);
      Scale2(b - a, MINUTE_MS, WidthMS(tf));
    }
  }

  lemma Scale(k: int, n: int)
    requires k >= 0 && n >= 1
    ensures k * n >= k
  {
  }

  lemma Scale2(k: int, m: int, n: int)
    requires k >= 0 && n >= m
    ensures k * n >= k * m
  {
  }

  lemma BucketBracket(tf: Frame, ms: int)
    ensures Boundary(tf, BucketIndex(tf, ms)) <= ms < Boundary(tf, BucketIndex(tf, ms) + 1)
  {
    hide FirstOfMonth, MonthIndexOf;
    var k := BucketIndex(tf, ms);
    if PeriodOf(tf).Months? {
      var n := PeriodOf(tf).n;
      var month := MonthIndexOf(Day(ms));
      MonthBracket(Day(ms));
      assert k * n <= month < (k + 1) * n;
      if k * n < month { MonthsIncrease(k * n, month); }
      if month + 1 < (k + 1) * n { MonthsIncrease(month + 1, (k + 1) * n); }
    } else {
      var w := WidthMS(tf);
      assert (ms - Origin(tf)) == k * w + (ms - Origin(tf)) % w;
      assert (k + 1) * w == k * w + w;
    }
  }

  lemma BucketUnique(tf: Frame, ms: int, k: int)
    requires Boundary(tf, k) <= ms < Boundary(tf, k + 1)
    ensures BucketIndex(tf, ms) == k
  {
    hide Boundary, BucketIndex;
    var j := BucketIndex(tf, ms);
    BucketBracket(tf, ms);
    if j < k {
      if j + 1 < k { BoundariesIncrease(tf, j + 1, k); }
    } else if k < j {
      if k + 1 < j { BoundariesIncrease(tf, k + 1, j); }
    }
  }

  lemma BoundaryIndex(tf: Frame, k: int)
    ensures BucketIndex(tf, Boundary(tf, k)) == k
  {
    hide Boundary, BucketIndex;
    BoundariesIncrease(tf, k, k + 1);
    BucketUnique(tf, Boundary(tf, k), k);
  }

  // ----- the date arithmetic moves along the sequence -----

  lemma ShiftBoundary(tf: Frame, k: int, steps: int)
    ensures Shift(Boundary(tf, k), tf, steps) == Boundary(tf, k + steps)
  {
    hide FirstOfMonth, MonthIndexOf;
    if PeriodOf(tf).Months? {
      var n := PeriodOf(tf).n;
      var start := Boundary(tf, k);
      assert Day(start) == FirstOfMonth(k * n);
      MonthsIncrease(k * n, k * n + 1);
      MonthUnique(Day(start), k * n);
      assert k * n + steps * n == (k + steps) * n;
    } else {
      assert (k + steps) * WidthMS(tf) == k * WidthMS(tf) + steps * WidthMS(tf);
      match PeriodOf(tf)
      case Minutes(n) => assert steps * n * MINUTE_MS == steps * (n * MINUTE_MS);
      case Days(n) => assert steps * n * DAY_MS == steps * (n * DAY_MS);
      case Weeks(n) => assert steps * n * 7 * DAY_MS == steps * (n * 7 * DAY_MS);
    }
  }

  /** The timestamps the service's rounding is right for: those whose quotient is
      exact or not negative, because only then truncation is a floor. */
  predicate RoundsDown(ms: int, tf: Frame) {
    match PeriodOf(tf)
    case Minutes(n) => ms >= 0 || ms % (n * MINUTE_MS) == 0
    case Days(n) => ms >= 0 || Day(ms) % n == 0
    case Weeks(n) =>
      var baseDays := Day(ms) - WeekdayOffset(Day(ms)) - 4;
      baseDays >= 0 || baseDays % (7 * n) == 0
    case Months(n) => MonthIndexOf(Day(ms)) >= 0 || MonthIndexOf(Day(ms)) % n == 0
  }

  lemma TruncDivQuotient(a: int, b: int)
    requires b > 0
    ensures TruncDiv(a, b) == if a >= 0 || a % b == 0 then a / b else a / b + 1
  {
    if a < 0 {
      var q, r := a / b, a % b;
      assert a == q * b + r;
      if r == 0 {
        DivUnique(-a, b, -q, 0);
      } else {
        assert -a == (-q - 1) * b + (b - r);
        DivUnique(-a, b, -q - 1, b - r);
      }
    }
  }

  lemma FloorIsBoundary(ms: int, tf: Frame)
    ensures FloorStart(ms, tf)
         == Boundary(tf, BucketIndex(tf, ms) + if RoundsDown(ms, tf) then 0 else 1)
  {
    hide FirstOfMonth, MonthIndexOf, WeekdayOffset, TruncDiv;
    var n := PeriodOf(tf).n;
    if PeriodOf(tf).Minutes? {
      TruncDivQuotient(ms, n * MINUTE_MS);
    } else if PeriodOf(tf).Days? {
      TruncDivQuotient(Day(ms) * DAY_MS, n * DAY_MS);
      DayQuotient(ms, n);
    } else if PeriodOf(tf).Weeks? {
      FloorOfWeeks(ms, tf);
    } else {
      TruncDivQuotient(MonthIndexOf(Day(ms)), n);
    }
  }

  lemma FloorOfWeeks(ms: int, tf: Frame)
    requires PeriodOf(tf).Weeks?
    ensures FloorStart(ms, tf)
         == Boundary(tf, BucketIndex(tf, ms) + if RoundsDown(ms, tf) then 0 else 1)
  {
    hide WeekdayOffset, TruncDiv;
    var n := PeriodOf(tf).n;
    var base := Day(ms) - WeekdayOffset(Day(ms)) - 4;
    TruncDivQuotient(base, 7 * n);
    WeekQuotient(ms, n);
    var t := TruncDiv(base, 7 * n);
    assert t * (7 * n) * DAY_MS == t * (n * 7 * DAY_MS);
  }

  lemma DayQuotient(ms: int, n: int)
    requires n > 0
    ensures Day(ms) * DAY_MS / (n * DAY_MS) == ms / (n * DAY_MS) == Day(ms) / n
    ensures Day(ms) * DAY_MS % (n * DAY_MS) == 0 <==> Day(ms) % n == 0
  {
    var day, tod := Day(ms), ms % DAY_MS;
    var q, r := day / n, day % n;
    assert day == q * n + r && ms == day * DAY_MS + tod;
    assert day * DAY_MS == q * (n * DAY_MS) + r * DAY_MS;
    assert (r + 1) * DAY_MS <= n * DAY_MS;
    DivUnique(day * DAY_MS, n * DAY_MS, q, r * DAY_MS);
    DivUnique(ms, n * DAY_MS, q, r * DAY_MS + tod);
  }

  lemma WeekQuotient(ms: int, n: int)
    requires n == 1 || n == 2
    ensures var base := Day(ms) - WeekdayOffset(Day(ms)) - 4;
            base % 7 == 0 && base / (7 * n) == (ms - EPOCH_MONDAY) / (n * 7 * DAY_MS)
  {
    hide WeekdayOffset;
    var days := Day(ms) - 4;
    var weeks := days / 7;
    WeekBase(Day(ms));
    DayQuotient(ms - EPOCH_MONDAY, 7 * n);
    DivUnique(ms - EPOCH_MONDAY, DAY_MS, days, ms % DAY_MS);
    var q, r := days / (7 * n), days % (7 * n);
    assert q * (7 * n) == 7 * (q * n);
    DivUnique(days, 7, q * n + r / 7, r % 7);
    DivUnique(7 * weeks, 7 * n, q, 7 * (r / 7));
  }

  lemma WeekBase(day: int)
    ensures day - WeekdayOffset(day) - 4 == 7 * ((day - 4) / 7)
  {
    var q, r := (day - 4) / 7, (day - 4) % 7;
    DivUnique(day + 4, 7, if r == 6 then q + 2 else q + 1, if r == 6 then 0 else r + 1);
  }

  // ----- how far week arithmetic reaches -----

  /** Whole days in the longest duration: 2^63 - 1 nanoseconds. */
  const LONGEST_DAYS: int := 106_751

  /** A difference of two dates in days, as a duration holds it. */
  function AsDuration(days: int): int {
    if days > LONGEST_DAYS then LONGEST_DAYS else if days < -LONGEST_DAYS then -LONGEST_DAYS else days
  }

  /** The floor as the service computes it: the weeks since the epoch Monday go through a duration. */
  function ServiceFloorStart(ms: int, tf: Frame): int {
    match PeriodOf(tf)
    case Weeks(n) =>
      var baseDays := AsDuration(Day(ms) - WeekdayOffset(Day(ms)) - 4);
      (4 + TruncDiv(baseDays, 7 * n) * (7 * n)) * DAY_MS
    case _ => FloorStart(ms, tf)
  }

  /** The days after the epoch Monday at which the first bucket begins that no duration reaches. */
  function ReachDays(n: int): int
    requires n > 0
  {
    (LONGEST_DAYS / (7 * n) + 1) * (7 * n)
  }

  /** The timestamps, from 1677 to 2262, whose week a duration can hold. */
  predicate InReach(ms: int, tf: Frame) {
    match PeriodOf(tf)
    case Weeks(n) => EPOCH_MONDAY - (ReachDays(n) - 7) * DAY_MS <= ms < EPOCH_MONDAY + ReachDays(n) * DAY_MS
    case _ => true
  }

  lemma ReachOfWeeks(ms: int, tf: Frame)
    requires PeriodOf(tf).Weeks?
    ensures var n, base := PeriodOf(tf).n, Day(ms) - WeekdayOffset(Day(ms)) - 4;
            InReach(ms, tf) <==> -ReachDays(n) < base < ReachDays(n)
  {
    hide WeekdayOffset;
    WeekBase(Day(ms));
    var n, week := PeriodOf(tf).n, (Day(ms) - 4) / 7;
    assert ReachDays(n) == if n == 1 then 7 * 15251 else 7 * 15252;
    assert 7 * week <= Day(ms) - 4 < 7 * week + 7;
  }

  /** Within reach, and only there, the service's floor is the floor of the unlimited arithmetic. */
  lemma FloorsAgreeExactly(ms: int, tf: Frame)
    ensures ServiceFloorStart(ms, tf) == FloorStart(ms, tf) <==> InReach(ms, tf)
    ensures !InReach(ms, tf) ==> !(ServiceFloorStart(ms, tf) <= ms < NextStart(ServiceFloorStart(ms, tf), tf))
  {
    if PeriodOf(tf).Weeks? {
      hide WeekdayOffset, InReach;
      ReachOfWeeks(ms, tf);
      WeekBase(Day(ms));
      if PeriodOf(tf).n == 1 {
        assert ReachDays(1) == 7 * 15251;
      } else {
        assert ReachDays(2) == 14 * 7626;
      }
    }
  }

  /** Buckets tile time at `ms` exactly when the service's division rounds down there and the weeks
      since the epoch Monday fit a duration. */
  lemma TilingExactly(ms: int, tf: Frame)
    ensures ServiceFloorStart(ms, tf) <= ms < NextStart(ServiceFloorStart(ms, tf), tf) <==> RoundsDown(ms, tf) && InReach(ms, tf)
    ensures ms >= EPOCH_MONDAY ==> RoundsDown(ms, tf)
  {
    hide FloorStart, ServiceFloorStart, InReach, NextStart, Boundary, BucketIndex, RoundsDown;
    FloorsAgreeExactly(ms, tf);
    FloorIsBoundary(ms, tf);
    BucketBracket(tf, ms);
    var k := BucketIndex(tf, ms);
    NextOfBoundary(tf, k);
    if ms >= EPOCH_MONDAY { AfterEpochRoundsDown(ms, tf); }
  }

  lemma AfterEpochRoundsDown(ms: int, tf: Frame)
    requires ms >= EPOCH_MONDAY
    ensures RoundsDown(ms, tf)
  {
    hide FirstOfMonth, MonthIndexOf;
    if PeriodOf(tf).Months? {
      MonthBracket(Day(ms));
      EpochMonth();
      if MonthIndexOf(Day(ms)) < 0 {
        MonthsIncrease(MonthIndexOf(Day(ms)), 12 * 1970);
        assert MonthIndexOf(Day(ms)) + 1 < 12 * 1970;
        MonthsIncrease(MonthIndexOf(Day(ms)) + 1, 12 * 1970);
      }
    }
  }

  lemma NextOfBoundary(tf: Frame, k: int)
    ensures NextStart(Boundary(tf, k), tf) == Boundary(tf, k + 1)
    ensures PreviousStart(Boundary(tf, k), tf) == Boundary(tf, k - 1)
    ensures EndMS(Boundary(tf, k), tf) == Boundary(tf, k + 1) - 1
  {
    hide Shift, Boundary;
    ShiftBoundary(tf, k, 1);
    ShiftBoundary(tf, k, -1);
  }

  // ----- consequences used by the other modules -----

  predicate Aligned(start: int, tf: Frame) { FloorStart(start, tf) == start }

  lemma AlignedIsBoundary(start: int, tf: Frame)
    ensures Aligned(start, tf) <==> start == Boundary(tf, BucketIndex(tf, start))
  {
    hide FloorStart, Boundary, BucketIndex, RoundsDown;
    FloorIsBoundary(start, tf);
    BucketBracket(tf, start);
    if start == Boundary(tf, BucketIndex(tf, start)) {
      BoundaryRoundsDown(tf, BucketIndex(tf, start));
    }
  }

  lemma BoundaryRoundsDown(tf: Frame, k: int)
    ensures RoundsDown(Boundary(tf, k), tf)
  {
    hide FirstOfMonth, MonthIndexOf, WeekdayOffset;
    var start := Boundary(tf, k);
    match PeriodOf(tf)
    case Minutes(n) => DivUnique(start, n * MINUTE_MS, k, 0);
    case Days(n) =>
      assert start == (k * n) * DAY_MS;
      DivUnique(k * n, n, k, 0);
    case Weeks(n) =>
      assert start == (4 + 7 * (k * n)) * DAY_MS;
      MondayOfWeek(k * n);
      assert 7 * (k * n) == k * (7 * n);
      DivUnique(k * (7 * n), 7 * n, k, 0);
    case Months(n) =>
      MonthsIncrease(k * n, k * n + 1);
      MonthUnique(Day(start), k * n);
      DivUnique(k * n, n, k, 0);
  }

  lemma MondayOfWeek(week: int)
    ensures var day := Day((4 + 7 * week) * DAY_MS); day - WeekdayOffset(day) - 4 == 7 * week
  {
    DivUnique((4 + 7 * week) * DAY_MS, DAY_MS, 4 + 7 * week, 0);
    assert Day((4 + 7 * week) * DAY_MS) == 4 + 7 * week;
  }

  lemma BoundaryAligned(tf: Frame, k: int)
    ensures Aligned(Boundary(tf, k), tf)
  {
    hide Aligned, Boundary, BucketIndex;
    BoundaryIndex(tf, k);
    AlignedIsBoundary(Boundary(tf, k), tf);
  }

  /** From the epoch Monday on, the floor is the boundary of the bucket that holds `ms`. */
  lemma FloorAfterEpoch(ms: int, tf: Frame)
    requires ms >= EPOCH_MONDAY
    ensures FloorStart(ms, tf) == Boundary(tf, BucketIndex(tf, ms))
  {
    hide FloorStart, Boundary, BucketIndex, RoundsDown;
    AfterEpochRoundsDown(ms, tf);
    FloorIsBoundary(ms, tf);
  }

  /** Tiling of time: the laws a caller relies on, from the epoch Monday on. */
  lemma Tiling(ms: int, tf: Frame)
    requires ms >= EPOCH_MONDAY
    ensures var start := FloorStart(ms, tf);
            && start <= ms < NextStart(start, tf)
            && Aligned(start, tf) && Aligned(NextStart(start, tf), tf) && Aligned(PreviousStart(start, tf), tf)
            && PreviousStart(NextStart(start, tf), tf) == start == NextStart(PreviousStart(start, tf), tf)
            && forall other :: other <= ms < NextStart(other, tf) && Aligned(other, tf) ==> other == start
  {
    hide FloorStart, NextStart, PreviousStart, Aligned, Boundary, BucketIndex;
    var k := BucketIndex(tf, ms);
    FloorAfterEpoch(ms, tf);
    BucketBracket(tf, ms);
    BoundaryAligned(tf, k - 1);
    BoundaryAligned(tf, k);
    BoundaryAligned(tf, k + 1);
    NextOfBoundary(tf, k - 1);
    NextOfBoundary(tf, k);
    NextOfBoundary(tf, k + 1);
    forall other | other <= ms < NextStart(other, tf) && Aligned(other, tf)
      ensures other == FloorStart(ms, tf)
    {
      AlignedIsBoundary(other, tf);
      NextOfBoundary(tf, BucketIndex(tf, other));
      BucketUnique(tf, ms, BucketIndex(tf, other));
    }
  }

  /** Every boundary of `coarse` is one of `fine`. */
  predicate Refines(fine: Frame, coarse: Frame) {
    fine == coarse ||
    match (PeriodOf(fine), PeriodOf(coarse))
    case (Minutes(m), Minutes(n)) => n % m == 0
    case (Minutes(m), _) => 1440 % m == 0
    case (Days(m), Days(_)) => m == 1
    case (Days(m), Weeks(_)) => m == 1
    case (Days(m), Months(_)) => m == 1
    case (Weeks(m), Weeks(_)) => m == 1
    case (Months(m), Months(_)) => m == 1
    case _ => false
  }

  lemma SharedBoundary(fine: Frame, coarse: Frame, k: int)
    requires Refines(fine, coarse)
    ensures Boundary(fine, BucketIndex(fine, Boundary(coarse, k))) == Boundary(coarse, k)
  {
    var j := FineIndex(fine, coarse, k);
    BoundaryIndex(fine, j);
  }

  lemma FineIndex(fine: Frame, coarse: Frame, k: int) returns (j: int)
    requires Refines(fine, coarse)
    ensures Boundary(fine, j) == Boundary(coarse, k)
  {
    if fine == coarse {
      j := k;
    } else if PeriodOf(fine).Minutes? {
      var m := PeriodOf(fine).n;
      if PeriodOf(coarse).Minutes? {
        j := Split(k, PeriodOf(coarse).n, m, MINUTE_MS);
      } else {
        DaysDivide(coarse, k);
        j := Split(Boundary(coarse, k) / DAY_MS, 1440, m, MINUTE_MS);
      }
    } else if PeriodOf(fine).Days? {
      DaysDivide(coarse, k);
      j := Boundary(coarse, k) / DAY_MS;
    } else if PeriodOf(fine).Weeks? {
      j := Split(k, PeriodOf(coarse).n, 1, 7 * DAY_MS);
    } else {
      j := k * PeriodOf(coarse).n;
    }
  }

  lemma Split(k: int, n: int, m: int, unit: int) returns (j: int)
    requires m > 0 && n % m == 0
    ensures j * (m * unit) == k * (n * unit)
  {
    j := k * (n / m);
    assert n == n / m * m;
    calc {
      j * (m * unit);
      k * (n / m) * (m * unit);
      k * (n / m * m) * unit;
      k * (n * unit);
    }
  }

  lemma DaysDivide(tf: Frame, k: int)
    requires !PeriodOf(tf).Minutes?
    ensures Boundary(tf, k) == Boundary(tf, k) / DAY_MS * DAY_MS
  {
    hide FirstOfMonth;
    match PeriodOf(tf)
    case Days(n) => assert k * (n * DAY_MS) == (k * n) * DAY_MS;
    case Weeks(n) => assert k * (n * 7 * DAY_MS) == (k * n * 7) * DAY_MS;
    case Months(n) =>
  }

  /** The buckets of a refining timeframe nest: the fine bucket that holds `ms`
      lies inside the coarse bucket that holds `ms`. */
  lemma BucketsNest(fine: Frame, coarse: Frame, ms: int)
    requires ms >= EPOCH_MONDAY && Refines(fine, coarse)
    ensures FloorStart(ms, coarse) <= FloorStart(ms, fine)
    ensures EndMS(FloorStart(ms, fine), fine) <= EndMS(FloorStart(ms, coarse), coarse)
    ensures Aligned(FloorStart(ms, coarse), fine)
  {
    hide FloorStart, EndMS, NextStart, PreviousStart, Aligned, Boundary, BucketIndex, Refines;
    FloorAfterEpoch(ms, coarse);
    FloorAfterEpoch(ms, fine);
    NextOfBoundary(coarse, BucketIndex(coarse, ms));
    NextOfBoundary(fine, BucketIndex(fine, ms));
    IndicesNest(fine, coarse, ms);
  }

  lemma IndicesNest(fine: Frame, coarse: Frame, ms: int)
    requires Refines(fine, coarse)
    ensures Boundary(coarse, BucketIndex(coarse, ms)) <= Boundary(fine, BucketIndex(fine, ms))
    ensures Boundary(fine, BucketIndex(fine, ms) + 1) <= Boundary(coarse, BucketIndex(coarse, ms) + 1)
    ensures Aligned(Boundary(coarse, BucketIndex(coarse, ms)), fine)
  {
    hide Aligned, Boundary, BucketIndex, Refines;
    var k, j := BucketIndex(coarse, ms), BucketIndex(fine, ms);
    BucketBracket(coarse, ms);
    BucketBracket(fine, ms);
    SharedBoundary(fine, coarse, k);
    SharedBoundary(fine, coarse, k + 1);
    var lo, hi := BucketIndex(fine, Boundary(coarse, k)), BucketIndex(fine, Boundary(coarse, k + 1));
    BoundaryAligned(fine, lo);
    BoundaryBelow(fine, lo, j + 1);
    BoundaryBelow(fine, j, hi);
  }

  /** An earlier boundary has a smaller index, and the one before the later is no earlier. */
  lemma BoundaryBelow(tf: Frame, a: int, b: int)
    requires Boundary(tf, a) < Boundary(tf, b)
    ensures a < b && Boundary(tf, a) <= Boundary(tf, b - 1) && Boundary(tf, a + 1) <= Boundary(tf, b)
  {
    hide Boundary;
    if b < a { BoundariesIncrease(tf, b, a); }
    if a < b - 1 {
      BoundariesIncrease(tf, a, b - 1);
      BoundariesIncrease(tf, a + 1, b);
    }
  }

  /** Weeks start on the epoch Monday, so flooring to a timeframe that divides weeks stays after it. */
  lemma FloorKeepsEpoch(ms: int, fine: Frame)
    requires ms >= EPOCH_MONDAY && Refines(fine, W1)
    ensures EPOCH_MONDAY <= FloorStart(ms, fine) <= ms
  {
    hide FloorStart, EndMS, Aligned, Boundary, BucketIndex, NextStart, PreviousStart, Refines;
    Tiling(ms, fine);
    BucketsNest(fine, W1, ms);
    FloorAfterEpoch(ms, W1);
    WeekAfterEpoch(ms);
  }

  lemma WeekAfterEpoch(ms: int)
    requires ms >= EPOCH_MONDAY
    ensures Boundary(W1, BucketIndex(W1, ms)) >= EPOCH_MONDAY
  {
  }

  lemma FloorOfFloor(ms: int, fine: Frame, coarse: Frame)
    requires ms >= EPOCH_MONDAY && Refines(fine, W1) && Refines(fine, coarse)
    ensures FloorStart(FloorStart(ms, fine), coarse) == FloorStart(ms, coarse)
  {
    hide FloorStart, EndMS, Aligned, NextStart, PreviousStart, Refines;
    FloorKeepsEpoch(ms, fine);
    BucketsNest(fine, coarse, ms);
    Tiling(ms, coarse);
    Tiling(FloorStart(ms, fine), coarse);
  }
}
