/** Candles and the rule that rolls source candles up into one target candle. */
module Rollup {
  import opened Timeframe

  datatype Series = Series(exchange: string, symbol: string)

  datatype Bar = Bar(
    series: Series, frame: Frame, start: int, end: int,
    open: real, high: real, low: real, close: real,
    volume: real, quoteVolume: real, contractVolume: real,
    tradeCount: int, lastTick: int, isFinal: bool)

  function RollupSource(target: Frame): Option<Frame> {
    match target
    case M1 => None
    case M5 => Some(M1) case M15 => Some(M1)
    case M30 => Some(M15)
    case H1 => Some(M30)
    case H2 => Some(H1) case H4 => Some(H1) case H6 => Some(H1) case H12 => Some(H1) case D1 => Some(H1)
    case D2 => Some(D1) case D3 => Some(D1) case D5 => Some(D1)
    case W1 => Some(D1) case W2 => Some(D1) case Mon1 => Some(D1) case Mon3 => Some(D1)
  }

  /** The timeframes that others are rolled up from. */
  predicate FeedsOthers(frame: Frame) { frame in {M1, M15, M30, H1, D1} }

  lemma SourceFeeds(target: Frame)
    ensures RollupSource(target).Some? ==> FeedsOthers(RollupSource(target).value)
  {
  }

  lemma SourceRefines(target: Frame)
    requires RollupSource(target).Some?
    ensures var source := RollupSource(target).value;
            Rank(source) < Rank(target) && Refines(source, target) && Refines(source, W1)
  {
  }

  /** Every timeframe above the minute is rolled up from the coarsest feeding one below it: none of the
      feeding timeframes lies between the two, and the boundaries of the source include the target's. */
  lemma SourceIsCoarsest(target: Frame)
    ensures RollupSource(target) == None <==> target == M1
    ensures target != M1 ==>
              var source := RollupSource(target).value;
              && source in {M1, M15, M30, H1, D1} && Rank(source) < Rank(target)
              && (forall f :: f in {M1, M15, M30, H1, D1} && Rank(f) < Rank(target) ==> Rank(f) <= Rank(source))
              && (forall k :: Aligned(Boundary(target, k), source))
  {
    hide Boundary, BucketIndex, Aligned;
    if target != M1 {
      SourceRefines(target);
      var source := RollupSource(target).value;
      forall k ensures Aligned(Boundary(target, k), source) {
        SharedBoundary(source, target, k);
        BoundaryAligned(source, BucketIndex(source, Boundary(target, k)));
      }
    }
  }

  predicate HasTradeActivity(bar: Bar) {
    bar.tradeCount > 0 || bar.volume > 0.0 || bar.quoteVolume > 0.0 || bar.contractVolume > 0.0
  }

  /** What every exchange reports: activity is never negative. */
  predicate NonNegative(bar: Bar) {
    bar.tradeCount >= 0 && bar.volume >= 0.0 && bar.quoteVolume >= 0.0 && bar.contractVolume >= 0.0
  }

  predicate AllNonNegative(bars: seq<Bar>) {
    forall i :: 0 <= i < |bars| ==> NonNegative(bars[i])
  }

  // ----- the algebra of rolled-up values -----

  /** The values a candle contributes to, or takes from, a rollup. */
  datatype Summary = Summary(
    traded: bool, open: real, high: real, low: real, close: real,
    volume: real, quoteVolume: real, contractVolume: real, tradeCount: int, lastTick: int)

  function Max(x: real, y: real): real { if y > x then y else x }
  function Min(x: real, y: real): real { if y < x then y else x }
  function Later(x: int, y: int): int { if y > x then y else x }

  function SummaryOf(bar: Bar): Summary {
    Summary(HasTradeActivity(bar), bar.open, bar.high, bar.low, bar.close,
            bar.volume, bar.quoteVolume, bar.contractVolume, bar.tradeCount, bar.lastTick)
  }

  /** Two adjacent stretches of candles seen as one: a stretch without trades lends
      its carried prices only to another stretch without trades. */
  function Join(x: Summary, y: Summary): Summary {
    var priced :=
      if x.traded == y.traded then
        x.(high := Max(x.high, y.high), low := Min(x.low, y.low), close := y.close)
      else if x.traded then x
      else y;
    priced.(volume := x.volume + y.volume, quoteVolume := x.quoteVolume + y.quoteVolume,
            contractVolume := x.contractVolume + y.contractVolume,
            tradeCount := x.tradeCount + y.tradeCount, lastTick := Later(x.lastTick, y.lastTick))
  }

  lemma JoinAssociative(x: Summary, y: Summary, z: Summary)
    ensures Join(Join(x, y), z) == Join(x, Join(y, z))
  {
  }

  function Fold(bars: seq<Bar>): Summary
    requires |bars| > 0
  {
    if |bars| == 1 then SummaryOf(bars[0]) else Join(SummaryOf(bars[0]), Fold(bars[1..]))
  }

  lemma {:induction false} FoldConcat(a: seq<Bar>, b: seq<Bar>)
    requires |a| > 0 && |b| > 0
    ensures Fold(a + b) == Join(Fold(a), Fold(b))
  {
    assert (a + b)[1..] == a[1..] + b;
    if |a| > 1 {
      FoldConcat(a[1..], b);
      JoinAssociative(SummaryOf(a[0]), Fold(a[1..]), Fold(b));
    } else {
      assert (a + b)[1..] == b;
    }
  }

  lemma {:induction false} FoldActivity(bars: seq<Bar>)
    requires |bars| > 0 && AllNonNegative(bars)
    ensures var s := Fold(bars);
            && s.volume >= 0.0 && s.quoteVolume >= 0.0 && s.contractVolume >= 0.0 && s.tradeCount >= 0
            && (s.traded <==> s.tradeCount > 0 || s.volume > 0.0 || s.quoteVolume > 0.0 || s.contractVolume > 0.0)
  {
    assert NonNegative(bars[0]);
    if |bars| > 1 {
      FoldActivity(bars[1..]);
    }
  }

  /** The rolled-up candle of a list that is ordered by start. */
  function Rolled(tf: Frame, ordered: seq<Bar>, isFinal: bool): Bar
    requires |ordered| > 0
  {
    var s := Fold(ordered);
    var start := FloorStart(ordered[0].start, tf);
    Bar(ordered[0].series, tf, start, EndMS(start, tf), s.open, s.high, s.low, s.close,
        s.volume, s.quoteVolume, s.contractVolume, s.tradeCount, s.lastTick, isFinal)
  }

  /** A rollup keeps exactly the summary of its sources, so it can itself be rolled up. */
  lemma RolledSummary(tf: Frame, ordered: seq<Bar>, isFinal: bool)
    requires |ordered| > 0 && AllNonNegative(ordered)
    ensures SummaryOf(Rolled(tf, ordered, isFinal)) == Fold(ordered)
    ensures NonNegative(Rolled(tf, ordered, isFinal))
  {
    hide FloorStart, EndMS;
    FoldActivity(ordered);
  }

  // ----- what the folded values mean -----

  predicate AnyTrades(bars: seq<Bar>) {
    exists i :: 0 <= i < |bars| && HasTradeActivity(bars[i])
  }

  /** The candle at `i` sets prices: every candle does when none of them traded. */
  predicate SetsPrice(bars: seq<Bar>, i: int)
    requires 0 <= i < |bars|
  {
    AnyTrades(bars) ==> HasTradeActivity(bars[i])
  }

  function Volumes(bars: seq<Bar>): (real, real, real, int) {
    if bars == [] then (0.0, 0.0, 0.0, 0)
    else
      var (v, q, c, n) := Volumes(bars[1..]);
      (bars[0].volume + v, bars[0].quoteVolume + q, bars[0].contractVolume + c, bars[0].tradeCount + n)
  }

  /** The open of the first price-setting candle and the close of the last one. */
  ghost predicate EndsRule(bars: seq<Bar>, s: Summary) {
    exists f, l :: 0 <= f <= l < |bars| && SetsPrice(bars, f) && SetsPrice(bars, l)
      && s.open == bars[f].open && s.close == bars[l].close
      && forall i :: 0 <= i < |bars| && SetsPrice(bars, i) ==> f <= i <= l
  }

  ghost predicate HighRule(bars: seq<Bar>, s: Summary) {
    && (forall i :: 0 <= i < |bars| && SetsPrice(bars, i) ==> bars[i].high <= s.high)
    && (exists i :: 0 <= i < |bars| && SetsPrice(bars, i) && s.high == bars[i].high)
  }

  ghost predicate LowRule(bars: seq<Bar>, s: Summary) {
    && (forall i :: 0 <= i < |bars| && SetsPrice(bars, i) ==> s.low <= bars[i].low)
    && (exists i :: 0 <= i < |bars| && SetsPrice(bars, i) && s.low == bars[i].low)
  }

  ghost predicate TotalsRule(bars: seq<Bar>, s: Summary) {
    && (s.volume, s.quoteVolume, s.contractVolume, s.tradeCount) == Volumes(bars)
    && (forall i :: 0 <= i < |bars| ==> bars[i].lastTick <= s.lastTick)
    && (exists i :: 0 <= i < |bars| && s.lastTick == bars[i].lastTick)
    && (s.traded <==> AnyTrades(bars))
  }

  /** Prices come from the price-setting candles only: the first one's open, the last
      one's close and the extremes between them.  Volumes and the last tick come from all. */
  ghost predicate RollupRule(bars: seq<Bar>, s: Summary) {
    EndsRule(bars, s) && HighRule(bars, s) && LowRule(bars, s) && TotalsRule(bars, s)
  }

  lemma RollupRuleUnique(bars: seq<Bar>, s: Summary, t: Summary)
    requires RollupRule(bars, s) && RollupRule(bars, t)
    ensures s == t
  {
    hide HasTradeActivity, AnyTrades, SetsPrice;
  }

  lemma {:induction false} FoldMeetsRule(bars: seq<Bar>)
    requires |bars| > 0
    ensures RollupRule(bars, Fold(bars))
  {
    if |bars| == 1 {
      SingleMeetsRule(bars);
    } else {
      hide RollupRule, Join, SummaryOf;
      FoldMeetsRule(bars[1..]);
      RuleExtends(bars, Fold(bars[1..]));
    }
  }

  lemma SingleMeetsRule(bars: seq<Bar>)
    requires |bars| == 1
    ensures RollupRule(bars, SummaryOf(bars[0]))
  {
    hide HasTradeActivity;
    assert Volumes(bars[1..]) == (0.0, 0.0, 0.0, 0);
    assert SetsPrice(bars, 0);
    assert AnyTrades(bars) <==> HasTradeActivity(bars[0]);
  }

  lemma TradesExtend(bars: seq<Bar>)
    requires |bars| > 1
    ensures AnyTrades(bars) <==> HasTradeActivity(bars[0]) || AnyTrades(bars[1..])
  {
    hide HasTradeActivity;
    if AnyTrades(bars[1..]) {
      var i :| 0 <= i < |bars[1..]| && HasTradeActivity(bars[1..][i]);
      assert HasTradeActivity(bars[i + 1]);
    }
    if AnyTrades(bars) {
      var i :| 0 <= i < |bars| && HasTradeActivity(bars[i]);
      assert i > 0 ==> HasTradeActivity(bars[1..][i - 1]);
    }
  }

  /** Which candles set prices after a candle is put in front of a list. */
  lemma SetsPriceExtends(bars: seq<Bar>)
    requires |bars| > 1
    ensures SetsPrice(bars, 0) <==> HasTradeActivity(bars[0]) || !AnyTrades(bars[1..])
    ensures forall i :: 0 <= i < |bars| - 1 ==>
              (SetsPrice(bars, i + 1) <==>
                 SetsPrice(bars[1..], i) && (HasTradeActivity(bars[0]) ==> AnyTrades(bars[1..])))
  {
    TradesExtend(bars);
    hide AnyTrades;
    forall i | 0 <= i < |bars| - 1
      ensures SetsPrice(bars, i + 1) <==>
                SetsPrice(bars[1..], i) && (HasTradeActivity(bars[0]) ==> AnyTrades(bars[1..]))
    {
      assert bars[1..][i] == bars[i + 1];
      if HasTradeActivity(bars[i + 1]) { TradedAt(bars[1..], i); }
    }
  }

  lemma TradedAt(bars: seq<Bar>, i: nat)
    requires i < |bars| && HasTradeActivity(bars[i])
    ensures AnyTrades(bars)
  {
  }

  lemma RuleExtends(bars: seq<Bar>, s: Summary)
    requires |bars| > 1 && RollupRule(bars[1..], s)
    ensures RollupRule(bars, Join(SummaryOf(bars[0]), s))
  {
    hide HasTradeActivity, SetsPrice, AnyTrades;
    SetsPriceExtends(bars);
    TradesExtend(bars);
    EndsExtend(bars, s);
    HighExtends(bars, s);
    LowExtends(bars, s);
    var k :| 0 <= k < |bars| - 1 && s.lastTick == bars[1..][k].lastTick;
    var t := Join(SummaryOf(bars[0]), s);
    assert t.lastTick == bars[0].lastTick || t.lastTick == bars[k + 1].lastTick;
    forall i | 0 <= i < |bars| ensures bars[i].lastTick <= t.lastTick {
      assert i > 0 ==> bars[i] == bars[1..][i - 1];
    }
  }

  lemma EndsExtend(bars: seq<Bar>, s: Summary)
    requires |bars| > 1 && EndsRule(bars[1..], s) && (s.traded <==> AnyTrades(bars[1..]))
    ensures EndsRule(bars, Join(SummaryOf(bars[0]), s))
  {
    hide HasTradeActivity, SetsPrice, AnyTrades;
    SetsPriceExtends(bars);
    var rest, head := bars[1..], HasTradeActivity(bars[0]);
    var f, l :| 0 <= f <= l < |rest| && SetsPrice(rest, f) && SetsPrice(rest, l)
      && s.open == rest[f].open && s.close == rest[l].close
      && forall i :: 0 <= i < |rest| && SetsPrice(rest, i) ==> f <= i <= l;
    var f' := if head || !s.traded then 0 else f + 1;
    var l' := if head && !s.traded then 0 else l + 1;
    forall i | 0 <= i < |bars| && SetsPrice(bars, i) ensures f' <= i <= l' {
      if i > 0 { assert SetsPrice(bars, (i - 1) + 1); assert SetsPrice(rest, i - 1); }
    }
    assert SetsPrice(bars, f') && SetsPrice(bars, l');
  }

  lemma HighExtends(bars: seq<Bar>, s: Summary)
    requires |bars| > 1 && HighRule(bars[1..], s) && (s.traded <==> AnyTrades(bars[1..]))
    ensures HighRule(bars, Join(SummaryOf(bars[0]), s))
  {
    hide HasTradeActivity, SetsPrice, AnyTrades;
    SetsPriceExtends(bars);
    var rest, t := bars[1..], Join(SummaryOf(bars[0]), s);
    var h :| 0 <= h < |rest| && SetsPrice(rest, h) && s.high == rest[h].high;
    forall i | 0 <= i < |bars| && SetsPrice(bars, i) ensures bars[i].high <= t.high {
      if i > 0 { assert SetsPrice(bars, (i - 1) + 1); assert SetsPrice(rest, i - 1); }
    }
    var h' := if t.high == s.high && (s.traded || !HasTradeActivity(bars[0])) then h + 1 else 0;
    assert SetsPrice(bars, h');
  }

  lemma LowExtends(bars: seq<Bar>, s: Summary)
    requires |bars| > 1 && LowRule(bars[1..], s) && (s.traded <==> AnyTrades(bars[1..]))
    ensures LowRule(bars, Join(SummaryOf(bars[0]), s))
  {
    hide HasTradeActivity, SetsPrice, AnyTrades;
    SetsPriceExtends(bars);
    var rest, t := bars[1..], Join(SummaryOf(bars[0]), s);
    var w :| 0 <= w < |rest| && SetsPrice(rest, w) && s.low == rest[w].low;
    forall i | 0 <= i < |bars| && SetsPrice(bars, i) ensures t.low <= bars[i].low {
      if i > 0 { assert SetsPrice(bars, (i - 1) + 1); assert SetsPrice(rest, i - 1); }
    }
    var w' := if t.low == s.low && (s.traded || !HasTradeActivity(bars[0])) then w + 1 else 0;
    assert SetsPrice(bars, w');
  }
}
