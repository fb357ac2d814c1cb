/** The aggregator's rollup procedure and its agreement with the rollup algebra. */
module Aggregator {
  import opened Timeframe
  import opened Rollup

  predicate OrderedByStart(bars: seq<Bar>) {
    forall i, j :: 0 <= i < j < |bars| ==> bars[i].start <= bars[j].start
  }

  function InsertByStart(bar: Bar, bars: seq<Bar>): seq<Bar> {
    if bars == [] then [bar]
    else if bar.start <= bars[0].start then [bar] + bars
    else [bars[0]] + InsertByStart(bar, bars[1..])
  }

  /** The library sort; candles of one series have distinct starts, so its tie order never shows. */
  function SortByStart(bars: seq<Bar>): seq<Bar> {
    if bars == [] then [] else InsertByStart(bars[0], SortByStart(bars[1..]))
  }

  lemma {:induction false} InsertMembers(bar: Bar, bars: seq<Bar>)
    ensures forall b :: b in InsertByStart(bar, bars) ==> b == bar || b in bars
    ensures multiset(InsertByStart(bar, bars)) == multiset(bars) + multiset{bar}
  {
    if bars != [] {
      assert bars == [bars[0]] + bars[1..];
      if bar.start > bars[0].start { InsertMembers(bar, bars[1..]); }
    }
  }

  lemma {:induction false} InsertKeepsOrder(bar: Bar, bars: seq<Bar>)
    requires OrderedByStart(bars)
    ensures OrderedByStart(InsertByStart(bar, bars))
    ensures multiset(InsertByStart(bar, bars)) == multiset(bars) + multiset{bar}
  {
    hide OrderedByStart;
    InsertMembers(bar, bars);
    if bars == [] {
      OneIsOrdered(bar);
    } else {
      TailOrdered(bars);
      if bar.start <= bars[0].start {
        HeadOrdered(bar, bars);
      } else {
        InsertKeepsOrder(bar, bars[1..]);
        InsertMembers(bar, bars[1..]);
        HeadOrdered(bars[0], InsertByStart(bar, bars[1..]));
      }
    }
  }

  lemma OneIsOrdered(bar: Bar)
    ensures OrderedByStart([bar])
  {
  }

  lemma TailOrdered(bars: seq<Bar>)
    requires OrderedByStart(bars) && bars != []
    ensures OrderedByStart(bars[1..]) && forall b :: b in bars ==> bars[0].start <= b.start
  {
  }

  lemma HeadOrdered(bar: Bar, rest: seq<Bar>)
    requires OrderedByStart(rest) && forall b :: b in rest ==> bar.start <= b.start
    ensures OrderedByStart([bar] + rest)
  {
    forall i | 0 <= i < |rest| ensures bar.start <= rest[i].start {
      assert rest[i] in rest;
    }
  }

  lemma {:induction false} SortSorts(bars: seq<Bar>)
    ensures OrderedByStart(SortByStart(bars))
    ensures multiset(SortByStart(bars)) == multiset(bars)
    ensures |SortByStart(bars)| == |bars|
  {
    if bars != [] {
      SortSorts(bars[1..]);
      InsertKeepsOrder(bars[0], SortByStart(bars[1..]));
      assert bars == [bars[0]] + bars[1..];
      assert |multiset(SortByStart(bars))| == |multiset(bars)|;
    }
  }

  lemma {:induction false} SortKeepsOrdered(bars: seq<Bar>)
    requires OrderedByStart(bars)
    ensures SortByStart(bars) == bars
  {
    if bars != [] {
      SortKeepsOrdered(bars[1..]);
    }
  }

  lemma {:induction false} VolumesAppend(bars: seq<Bar>, bar: Bar)
    ensures var (v, q, c, n) := Volumes(bars);
            Volumes(bars + [bar])
              == (v + bar.volume, q + bar.quoteVolume, c + bar.contractVolume, n + bar.tradeCount)
  {
    if bars == [] {
      assert (bars + [bar])[1..] == [];
    } else {
      VolumesAppend(bars[1..], bar);
      assert (bars + [bar])[1..] == bars[1..] + [bar];
    }
  }

  /** First scan of the rollup: the first and last candle that may set a price. */
  method FindPriceEnds(ordered: seq<Bar>) returns (firstPrice: int, lastPrice: int, hasTrades: bool)
    requires |ordered| > 0
    ensures hasTrades <==> AnyTrades(ordered)
    ensures 0 <= firstPrice <= lastPrice < |ordered|
    ensures SetsPrice(ordered, firstPrice) && SetsPrice(ordered, lastPrice)
    ensures forall j :: 0 <= j < |ordered| && SetsPrice(ordered, j) ==> firstPrice <= j <= lastPrice
  {
    hide HasTradeActivity;
    firstPrice, lastPrice, hasTrades := 0, |ordered| - 1, false;
    for i := 0 to |ordered|
      invariant !hasTrades ==> firstPrice == 0 && lastPrice == |ordered| - 1
      invariant !hasTrades ==> forall j :: 0 <= j < i ==> !HasTradeActivity(ordered[j])
      invariant hasTrades ==> 0 <= firstPrice <= lastPrice < i
      invariant hasTrades ==> HasTradeActivity(ordered[firstPrice]) && HasTradeActivity(ordered[lastPrice])
      invariant hasTrades ==>
        forall j :: 0 <= j < i && HasTradeActivity(ordered[j]) ==> firstPrice <= j <= lastPrice
    {
      if !HasTradeActivity(ordered[i]) {
        continue;
      }
      if !hasTrades {
        firstPrice := i;
        hasTrades := true;
      }
      lastPrice := i;
    }
  }

  /** `high` and `low` are those of the price-setting candles among the first `n`, attained at two of
      all of them; `tick` likewise over all candles. */
  ghost predicate Scanned(ordered: seq<Bar>, n: nat, s: Summary, atHigh: int, atLow: int, atTick: int)
    requires n <= |ordered|
  {
    && 0 <= atHigh < |ordered| && SetsPrice(ordered, atHigh) && s.high == ordered[atHigh].high
    && 0 <= atLow < |ordered| && SetsPrice(ordered, atLow) && s.low == ordered[atLow].low
    && 0 <= atTick < |ordered| && s.lastTick == ordered[atTick].lastTick
    && (forall j :: 0 <= j < n && SetsPrice(ordered, j) ==> ordered[j].high <= s.high && s.low <= ordered[j].low)
    && (forall j :: 0 <= j < n ==> ordered[j].lastTick <= s.lastTick)
  }

  lemma ScannedMeetsRules(ordered: seq<Bar>, s: Summary, atHigh: int, atLow: int, atTick: int)
    requires Scanned(ordered, |ordered|, s, atHigh, atLow, atTick) && (s.traded <==> AnyTrades(ordered))
    requires (s.volume, s.quoteVolume, s.contractVolume, s.tradeCount) == Volumes(ordered)
    ensures HighRule(ordered, s) && LowRule(ordered, s) && TotalsRule(ordered, s)
  {
    hide SetsPrice, AnyTrades, Volumes;
  }

  /** Second scan: extremes over the price-setting candles, totals over all of them. */
  method Accumulate(ordered: seq<Bar>, firstPrice: int, hasTrades: bool) returns (s: Summary)
    requires 0 <= firstPrice < |ordered| && SetsPrice(ordered, firstPrice)
    requires hasTrades <==> AnyTrades(ordered)
    ensures HighRule(ordered, s) && LowRule(ordered, s) && TotalsRule(ordered, s)
    ensures s.open == ordered[firstPrice].open
  {
    hide HasTradeActivity, AnyTrades, RollupRule, HighRule, LowRule, TotalsRule, Volumes, Max, Min, Later;
    var first := ordered[firstPrice];
    s := Summary(hasTrades, first.open, first.high, first.low, first.close,
                 0.0, 0.0, 0.0, 0, ordered[|ordered| - 1].lastTick);
    ghost var atHigh, atLow, atTick := firstPrice, firstPrice, |ordered| - 1;
    NoVolumes(ordered);
    for i := 0 to |ordered|
      invariant Scanned(ordered, i, s, atHigh, atLow, atTick)
      invariant (s.volume, s.quoteVolume, s.contractVolume, s.tradeCount) == Volumes(ordered[..i])
      invariant s.traded == hasTrades && s.open == first.open
    {
      var bar := ordered[i];
      if !hasTrades || HasTradeActivity(bar) {
        if bar.high > s.high {
          s := s.(high := bar.high);
          atHigh := i;
        }
        if bar.low < s.low {
          s := s.(low := bar.low);
          atLow := i;
        }
      }
      VolumesAppend(ordered[..i], bar);
      assert ordered[..i + 1] == ordered[..i] + [bar];
      s := s.(volume := s.volume + bar.volume, quoteVolume := s.quoteVolume + bar.quoteVolume,
              contractVolume := s.contractVolume + bar.contractVolume,
              tradeCount := s.tradeCount + bar.tradeCount);
      if bar.lastTick > s.lastTick {
        s := s.(lastTick := bar.lastTick);
        atTick := i;
      }
    }
    assert ordered[..|ordered|] == ordered;
    ScannedMeetsRules(ordered, s, atHigh, atLow, atTick);
  }

  lemma NoVolumes(bars: seq<Bar>)
    ensures Volumes(bars[..0]) == (0.0, 0.0, 0.0, 0)
  {
  }

  method RollupBars(tf: Frame, bars: seq<Bar>, isFinal: bool) returns (rollup: Option<Bar>)
    ensures rollup.None? <==> bars == []
    ensures bars != [] ==> |SortByStart(bars)| > 0 && rollup == Some(Rolled(tf, SortByStart(bars), isFinal))
  {
    hide FloorStart, EndMS, HasTradeActivity, SetsPrice, AnyTrades, SortByStart;
    if |bars| == 0 {
      return None;
    }
    SortSorts(bars);
    var ordered := SortByStart(bars);
    var firstPrice, lastPrice, hasTrades := FindPriceEnds(ordered);
    var s := Accumulate(ordered, firstPrice, hasTrades);
    s := s.(close := ordered[lastPrice].close);
    assert RollupRule(ordered, s);
    FoldMeetsRule(ordered);
    RollupRuleUnique(ordered, s, Fold(ordered));
    var start := FloorStart(ordered[0].start, tf);
    rollup := Some(Bar(ordered[0].series, tf, start, EndMS(start, tf), s.open, s.high, s.low, s.close,
                       s.volume, s.quoteVolume, s.contractVolume, s.tradeCount, s.lastTick, isFinal));
  }
}
