/** Adjusting candle history for corporate actions such as splits. */
module CorporateAction {
  import opened Timeframe
  import opened Rollup
  import opened Aggregator

  datatype Action = Action(effective: int, factor: real)

  // ----- scaling and rollups -----

  function Scale(bar: Bar, multiplier: real): Bar {
    if multiplier == 0.0 then
      bar.(open := bar.open * multiplier, high := bar.high * multiplier,
           low := bar.low * multiplier, close := bar.close * multiplier)
    else
      bar.(open := bar.open * multiplier, high := bar.high * multiplier,
           low := bar.low * multiplier, close := bar.close * multiplier,
           volume := bar.volume / multiplier, contractVolume := bar.contractVolume / multiplier)
  }

  function Times(x: real, multiplier: real): real { x * multiplier }

  function Over(x: real, multiplier: real): real
    requires multiplier > 0.0
  {
    x / multiplier
  }

  function ScaleSummary(s: Summary, multiplier: real): Summary
    requires multiplier > 0.0
  {
    s.(open := Times(s.open, multiplier), high := Times(s.high, multiplier),
       low := Times(s.low, multiplier), close := Times(s.close, multiplier),
       volume := Over(s.volume, multiplier), contractVolume := Over(s.contractVolume, multiplier))
  }

  function ScaleAll(bars: seq<Bar>, multiplier: real): seq<Bar> {
    seq(|bars|, i requires 0 <= i < |bars| => Scale(bars[i], multiplier))
  }

  lemma MultiplyKeepsOrder(x: real, y: real, m: real)
    requires m > 0.0
    ensures x > y <==> x * m > y * m
  {
    if x > y { Product(x - y, m); }
    if x < y { Product(y - x, m); }
  }

  lemma Product(x: real, y: real)
    requires x > 0.0 && y > 0.0
    ensures x * y > 0.0 && x / y > 0.0
  {
  }

  lemma DividePositive(x: real, m: real)
    requires m > 0.0
    ensures x / m > 0.0 <==> x > 0.0
    ensures x >= 0.0 ==> x / m >= 0.0
  {
    if x > 0.0 { Product(x, m); }
    if x < 0.0 { Product(-x, m); assert x / m == -((-x) / m); }
  }

  lemma ScaleKeepsSummary(bar: Bar, multiplier: real)
    requires multiplier > 0.0
    ensures SummaryOf(Scale(bar, multiplier)) == ScaleSummary(SummaryOf(bar), multiplier)
    ensures NonNegative(bar) ==> NonNegative(Scale(bar, multiplier))
  {
    DividePositive(bar.volume, multiplier);
    DividePositive(bar.contractVolume, multiplier);
  }

  lemma SumDivides(x: real, y: real, m: real)
    requires m > 0.0
    ensures Over(x + y, m) == Over(x, m) + Over(y, m)
  {
  }

  lemma ScaleExtremes(x: real, y: real, multiplier: real)
    requires multiplier > 0.0
    ensures Max(Times(x, multiplier), Times(y, multiplier)) == Times(Max(x, y), multiplier)
    ensures Min(Times(x, multiplier), Times(y, multiplier)) == Times(Min(x, y), multiplier)
  {
    MultiplyKeepsOrder(x, y, multiplier);
    MultiplyKeepsOrder(y, x, multiplier);
  }

  lemma ScaleJoin(x: Summary, y: Summary, multiplier: real)
    requires multiplier > 0.0
    ensures Join(ScaleSummary(x, multiplier), ScaleSummary(y, multiplier)) == ScaleSummary(Join(x, y), multiplier)
  {
    hide Max, Min, Times, Over;
    ScaleExtremes(x.high, y.high, multiplier);
    ScaleExtremes(x.low, y.low, multiplier);
    SumDivides(x.volume, y.volume, multiplier);
    SumDivides(x.contractVolume, y.contractVolume, multiplier);
  }

  /** Scaling every source by one positive factor scales the rollup by it. */
  lemma {:induction false} ScaleFold(bars: seq<Bar>, multiplier: real)
    requires |bars| > 0 && multiplier > 0.0
    ensures Fold(ScaleAll(bars, multiplier)) == ScaleSummary(Fold(bars), multiplier)
  {
    hide Scale, Join, SummaryOf, ScaleSummary;
    ScaleKeepsSummary(bars[0], multiplier);
    if |bars| > 1 {
      assert ScaleAll(bars, multiplier)[1..] == ScaleAll(bars[1..], multiplier);
      ScaleFold(bars[1..], multiplier);
      ScaleJoin(SummaryOf(bars[0]), Fold(bars[1..]), multiplier);
    }
  }

  lemma ScaleRolled(tf: Frame, bars: seq<Bar>, multiplier: real, isFinal: bool)
    requires |bars| > 0 && multiplier > 0.0
    ensures Rolled(tf, ScaleAll(bars, multiplier), isFinal) == Scale(Rolled(tf, bars, isFinal), multiplier)
  {
    hide FloorStart, EndMS, Fold;
    ScaleFold(bars, multiplier);
  }

  // ----- what an adjusted candle is -----

  /** The raw candle at another price level: prices are multiplied, volumes in units divided, and
      everything else stays. */
  ghost predicate AtLevel(raw: Bar, level: real, bar: Bar) {
    && bar.open == raw.open * level && bar.high == raw.high * level && bar.low == raw.low * level && bar.close == raw.close * level
    && bar.volume * level == raw.volume && bar.contractVolume * level == raw.contractVolume
    && bar.quoteVolume == raw.quoteVolume && bar.tradeCount == raw.tradeCount && bar.lastTick == raw.lastTick
    && bar.series == raw.series && bar.frame == raw.frame && bar.start == raw.start && bar.end == raw.end && bar.isFinal == raw.isFinal
  }

  lemma DivideBack(x: real, m: real)
    requires m > 0.0
    ensures x / m * m == x
  {
  }

  lemma ScaleIsLevel(raw: Bar, level: real)
    requires level > 0.0
    ensures AtLevel(raw, level, Scale(raw, level))
  {
    DivideBack(raw.volume, level);
    DivideBack(raw.contractVolume, level);
  }

  lemma Exchange(x: real, m: real, v: real)
    ensures (x * m) * v == x * (v * m)
  {
  }

  /** What was traded is worth the same at every level: price times volume does not change, and any
      other volumes would change it. */
  lemma TurnoverKept(raw: Bar, level: real, bar: Bar)
    requires AtLevel(raw, level, bar)
    ensures bar.open * bar.volume == raw.open * raw.volume && bar.close * bar.volume == raw.close * raw.volume
    ensures bar.high * bar.volume == raw.high * raw.volume && bar.low * bar.volume == raw.low * raw.volume
    ensures bar.close * bar.contractVolume == raw.close * raw.contractVolume
  {
    Exchange(raw.open, level, bar.volume);
    Exchange(raw.close, level, bar.volume);
    Exchange(raw.high, level, bar.volume);
    Exchange(raw.low, level, bar.volume);
    Exchange(raw.close, level, bar.contractVolume);
  }

  /** Every candle stands at the level of the actions after it. */
  ghost predicate AllAtLevel(raw: seq<Bar>, actions: seq<Action>, bars: seq<Bar>) {
    |bars| == |raw| && forall i :: 0 <= i < |bars| ==> AtLevel(raw[i], After(actions, raw[i].start), bars[i])
  }

  lemma AdjustedAtLevel(raw: seq<Bar>, actions: seq<Action>)
    ensures AllAtLevel(raw, actions, Adjusted(raw, actions))
  {
    hide Scale, After, AtLevel;
    forall i | 0 <= i < |raw| ensures AtLevel(raw[i], After(actions, raw[i].start), Adjusted(raw, actions)[i]) {
      AfterPositive(actions, raw[i].start);
      ScaleIsLevel(raw[i], After(actions, raw[i].start));
    }
  }

  /** A crossed candle is the rollup of its minutes, each at its own level; its quote volume and its
      trades are those of the raw minutes. */
  ghost predicate CrossedFrom(tf: Frame, minutes: seq<Bar>, actions: seq<Action>, bar: Bar) {
    exists adjusted: seq<Bar> ::
      && adjusted != [] && AllAtLevel(minutes, actions, adjusted) && bar == Rolled(tf, adjusted, true)
      && Volumes(adjusted).1 == Volumes(minutes).1 && Volumes(adjusted).3 == Volumes(minutes).3
      && (bar.volume, bar.quoteVolume, bar.contractVolume, bar.tradeCount) == Volumes(adjusted)
  }

  lemma {:induction false} SameTurnover(minutes: seq<Bar>, actions: seq<Action>, adjusted: seq<Bar>)
    requires AllAtLevel(minutes, actions, adjusted)
    ensures Volumes(adjusted).1 == Volumes(minutes).1 && Volumes(adjusted).3 == Volumes(minutes).3
  {
    hide After;
    if minutes != [] {
      SameTurnover(minutes[1..], actions, adjusted[1..]);
    }
  }

  lemma Crossed(tf: Frame, minutes: seq<Bar>, actions: seq<Action>)
    requires minutes != []
    ensures CrossedFrom(tf, minutes, actions, Rolled(tf, Adjusted(minutes, actions), true))
  {
    hide Scale, After, AllAtLevel, EndsRule, HighRule, LowRule, Volumes;
    AdjustedAtLevel(minutes, actions);
    SameTurnover(minutes, actions, Adjusted(minutes, actions));
    FoldMeetsRule(Adjusted(minutes, actions));
  }

  // ----- the multipliers -----

  /** The product of the factors of all actions after `time`. */
  function After(actions: seq<Action>, time: int): real {
    if actions == [] then 1.0
    else
      var last := actions[|actions| - 1];
      After(actions[..|actions| - 1], time) * FactorAfter(last, time)
  }

  function FactorAfter(action: Action, time: int): real {
    if time < action.effective && action.factor > 0.0 then action.factor else 1.0
  }

  predicate Crosses(actions: seq<Action>, start: int, end: int) {
    exists i :: 0 <= i < |actions| && actions[i].factor > 0.0 && start < actions[i].effective <= end
  }

  lemma {:induction false} AfterPositive(actions: seq<Action>, time: int)
    ensures After(actions, time) > 0.0
  {
    if actions != [] {
      AfterPositive(actions[..|actions| - 1], time);
    }
  }

  /** A one-for-two split: minutes before it show half the price and twice the volume, and the
      minute it takes effect with is as it was. */
  lemma SplitExample(raw: Bar, bar: Bar)
    requires raw.open == 200.0 && raw.volume == 100.0
    requires AtLevel(raw, After([Action(600_000, 0.5)], raw.start), bar)
    ensures raw.start < 600_000 ==> bar.open == 100.0 && bar.volume == 200.0
    ensures raw.start >= 600_000 ==> bar.open == 200.0 && bar.volume == 100.0
  {
    var actions := [Action(600_000, 0.5)];
    assert actions[..0] == [] && After([], raw.start) == 1.0;
    assert After(actions, raw.start) == if raw.start < 600_000 then 0.5 else 1.0;
  }

  /** Inside a bucket that no action crosses, every minute has the bucket's multiplier. */
  lemma {:induction false} SameMultiplier(actions: seq<Action>, start: int, end: int, time: int)
    requires start <= time <= end && !Crosses(actions, start, end)
    ensures After(actions, time) == After(actions, end)
  {
    if actions != [] {
      var last := |actions| - 1;
      assert forall i :: 0 <= i < last ==> actions[..last][i] == actions[i];
      SameMultiplier(actions[..last], start, end, time);
      assert !(actions[last].factor > 0.0 && start < actions[last].effective <= end);
    }
  }

  /** Applies every action after a candle's start to it: the adjustment of raw minutes. */
  function Adjusted(bars: seq<Bar>, actions: seq<Action>): seq<Bar> {
    seq(|bars|, i requires 0 <= i < |bars| => Scale(bars[i], After(actions, bars[i].start)))
  }

  method ApplyFactors(bars: seq<Bar>, actions: seq<Action>) returns (out: seq<Bar>)
    ensures out == Adjusted(SortByStart(bars), actions)
    ensures AllAtLevel(SortByStart(bars), actions, out)
  {
    hide SortByStart, Scale;
    var ordered := SortByStart(bars);
    out := [];
    for i := 0 to |ordered|
      invariant |out| == i
      invariant forall j :: 0 <= j < i ==> out[j] == Scale(ordered[j], After(actions, ordered[j].start))
    {
      var multiplier := 1.0;
      for k := 0 to |actions|
        invariant multiplier == After(actions[..k], ordered[i].start)
      {
        assert actions[..k + 1][..k] == actions[..k];
        if ordered[i].start < actions[k].effective && actions[k].factor > 0.0 {
          multiplier := multiplier * actions[k].factor;
        }
      }
      assert actions[..|actions|] == actions;
      out := out + [Scale(ordered[i], multiplier)];
    }
    AdjustedAtLevel(ordered, actions);
  }

  /** A target candle together with the raw minutes the exchange has for its bucket. */
  datatype Fetched = Fetched(bar: Bar, minutes: seq<Bar>)

  function AdjustedBar(tf: Frame, item: Fetched, actions: seq<Action>): Option<Bar> {
    if Crosses(actions, item.bar.start, item.bar.end) && tf != M1 then
      if item.minutes == [] then None
      else
        SortSorts(item.minutes);
        Some(Rolled(tf, Adjusted(SortByStart(item.minutes), actions), true))
    else Some(Scale(item.bar, After(actions, item.bar.end)))
  }

  /** Whether an action falls inside a candle, and the factor of all actions after it. */
  method ScanActions(bar: Bar, actions: seq<Action>) returns (crossesAction: bool, multiplier: real)
    ensures crossesAction <==> Crosses(actions, bar.start, bar.end)
    ensures multiplier == After(actions, bar.end)
  {
    crossesAction, multiplier := false, 1.0;
    for k := 0 to |actions|
      invariant crossesAction <==> Crosses(actions[..k], bar.start, bar.end)
      invariant multiplier == After(actions[..k], bar.end)
    {
      CrossesAppend(actions, k, bar.start, bar.end);
      assert actions[..k + 1][..k] == actions[..k];
      if actions[k].factor <= 0.0 {
        continue;
      }
      if bar.start < actions[k].effective && bar.end >= actions[k].effective {
        crossesAction := true;
      }
      if bar.end < actions[k].effective {
        multiplier := multiplier * actions[k].factor;
      }
    }
    assert actions[..|actions|] == actions;
  }

  /** Adjusts fetched candles: directly where no action falls inside, by re-rolling adjusted
      minutes where one does.  Fails on a crossed bucket without minutes. */
  method AdjustBars(tf: Frame, items: seq<Fetched>, actions: seq<Action>) returns (out: Option<seq<Bar>>)
    ensures out.Some? <==> forall i :: 0 <= i < |items| ==> AdjustedBar(tf, items[i], actions).Some?
    ensures out.Some? ==> |out.value| == |items|
    ensures out.Some? ==>
      forall i :: 0 <= i < |items| ==> AdjustedBar(tf, items[i], actions) == Some(out.value[i])
    ensures out.Some? ==>
      forall i :: 0 <= i < |items| ==> WellAdjusted(tf, items[i], actions, out.value[i])
  {
    hide Scale, Rolled, SortByStart, After, WellAdjusted;
    var bars: seq<Bar> := [];
    for i := 0 to |items|
      invariant |bars| == i
      invariant forall j :: 0 <= j < i ==> AdjustedBar(tf, items[j], actions) == Some(bars[j])
    {
      var bar := items[i].bar;
      var crossesAction, multiplier := ScanActions(bar, actions);
      if crossesAction && tf != M1 {
        var adjusted := ApplyFactors(items[i].minutes, actions);
        SortSorts(items[i].minutes);
        AdjustedOrdered(items[i].minutes, actions);
        var rollup := RollupBars(tf, adjusted, true);
        if rollup.None? {
          return None;
        }
        bars := bars + [rollup.value];
        continue;
      }
      bars := bars + [Scale(bar, multiplier)];
    }
    forall i | 0 <= i < |items| ensures WellAdjusted(tf, items[i], actions, bars[i]) { AdjustedWell(tf, items[i], actions); }
    out := Some(bars);
  }

  /** A candle that no action falls into stands at the level of the actions after it; one that an action
      falls into comes from its minutes.  Minutes themselves are never rebuilt. */
  ghost predicate WellAdjusted(tf: Frame, item: Fetched, actions: seq<Action>, bar: Bar) {
    if Crosses(actions, item.bar.start, item.bar.end) && tf != M1 then CrossedFrom(tf, SortByStart(item.minutes), actions, bar)
    else AtLevel(item.bar, After(actions, item.bar.end), bar)
  }

  lemma AdjustedWell(tf: Frame, item: Fetched, actions: seq<Action>)
    ensures AdjustedBar(tf, item, actions).Some? ==> WellAdjusted(tf, item, actions, AdjustedBar(tf, item, actions).value)
  {
    hide Scale, Rolled, SortByStart, After, AtLevel, CrossedFrom;
    if Crosses(actions, item.bar.start, item.bar.end) && tf != M1 {
      if item.minutes != [] {
        SortSorts(item.minutes);
        Crossed(tf, SortByStart(item.minutes), actions);
      }
    } else {
      AfterPositive(actions, item.bar.end);
      ScaleIsLevel(item.bar, After(actions, item.bar.end));
    }
  }

  lemma CrossesAppend(actions: seq<Action>, k: nat, start: int, end: int)
    requires k < |actions|
    ensures Crosses(actions[..k + 1], start, end) <==>
              Crosses(actions[..k], start, end) || (actions[k].factor > 0.0 && start < actions[k].effective <= end)
  {
    var before, all := actions[..k], actions[..k + 1];
    if Crosses(before, start, end) {
      var i :| 0 <= i < |before| && before[i].factor > 0.0 && start < before[i].effective <= end;
      assert all[i] == before[i];
    }
    if Crosses(all, start, end) {
      var i :| 0 <= i < |all| && all[i].factor > 0.0 && start < all[i].effective <= end;
      assert i < k ==> before[i] == all[i];
    }
    assert all[k] == actions[k];
  }

  lemma AdjustedOrdered(bars: seq<Bar>, actions: seq<Action>)
    ensures var adjusted := Adjusted(SortByStart(bars), actions);
            SortByStart(adjusted) == adjusted && |adjusted| == |bars|
  {
    hide SortByStart;
    SortSorts(bars);
    SortKeepsOrdered(Adjusted(SortByStart(bars), actions));
  }

  // ----- adjusting the rollup is rolling up the adjusted -----

  /** The fetched candle is what its raw minutes roll up to, all of them inside it. */
  ghost predicate RolledFrom(tf: Frame, item: Fetched) {
    && item.minutes != [] && OrderedByStart(item.minutes)
    && item.bar == Rolled(tf, item.minutes, true)
    && forall i :: 0 <= i < |item.minutes| ==> item.bar.start <= item.minutes[i].start <= item.bar.end
  }

  /** Adjusting candles in place gives exactly what rolling up adjusted minutes gives, for
      every list of actions and every timeframe above the minute. */
  lemma AdjustCommutesWithRollup(tf: Frame, item: Fetched, actions: seq<Action>)
    requires tf != M1 && RolledFrom(tf, item)
    ensures AdjustedBar(tf, item, actions) == Some(Rolled(tf, Adjusted(item.minutes, actions), true))
  {
    hide Rolled, SortByStart, Scale;
    SortKeepsOrdered(item.minutes);
    if !Crosses(actions, item.bar.start, item.bar.end) {
      var multiplier := After(actions, item.bar.end);
      AfterPositive(actions, item.bar.end);
      forall i | 0 <= i < |item.minutes|
        ensures After(actions, item.minutes[i].start) == multiplier
      {
        SameMultiplier(actions, item.bar.start, item.bar.end, item.minutes[i].start);
      }
      assert Adjusted(item.minutes, actions) == ScaleAll(item.minutes, multiplier);
      ScaleRolled(tf, item.minutes, multiplier, true);
    }
  }

  /** The product of the factors of the actions that take effect inside a candle. */
  function Inside(actions: seq<Action>, start: int, end: int): real {
    if actions == [] then 1.0
    else Inside(actions[..|actions| - 1], start, end) * FactorInside(actions[|actions| - 1], start, end)
  }

  function FactorInside(action: Action, start: int, end: int): real {
    if start < action.effective <= end && action.factor > 0.0 then action.factor else 1.0
  }

  lemma {:induction false} InsidePositive(actions: seq<Action>, start: int, end: int)
    ensures Inside(actions, start, end) > 0.0
  {
    if actions != [] {
      InsidePositive(actions[..|actions| - 1], start, end);
    }
  }

  /** The actions after a candle's start are those inside it and those after its end. */
  lemma {:induction false} AfterStart(actions: seq<Action>, start: int, end: int)
    requires start <= end
    ensures IsProduct(After(actions, start), Inside(actions, start, end), After(actions, end))
  {
    if actions != [] {
      var front, last := actions[..|actions| - 1], actions[|actions| - 1];
      AfterStart(front, start, end);
      OneAction(After(front, start), Inside(front, start, end), After(front, end), last, start, end);
    }
  }

  lemma OneAction(all: real, inside: real, later: real, action: Action, start: int, end: int)
    requires IsProduct(all, inside, later) && start <= end
    ensures IsProduct(all * FactorAfter(action, start), inside * FactorInside(action, start, end), later * FactorAfter(action, end))
  {
    var x, y, z := FactorAfter(action, start), FactorInside(action, start, end), FactorAfter(action, end);
    assert (x == y && z == 1.0) || (x == z && y == 1.0);
    if z == 1.0 { Rearrange(inside, later, y); } else { Rearrange(inside, later, z); }
  }

  lemma Rearrange(x: real, y: real, z: real)
    ensures x * y * z == (x * z) * y == x * (y * z)
  {
  }

  lemma OneIsNeutral(all: real, inside: real, later: real)
    requires IsProduct(all, inside, later) && later > 0.0
    ensures all == later <==> inside == 1.0
  {
    if all == later && inside != 1.0 { Cancel(later, inside, 1.0); }
  }

  /** For a single minute the two adjustments agree exactly when the actions that take effect inside
      it multiply to one. */
  lemma MinuteAdjustmentExactly(bar: Bar, actions: seq<Action>)
    requires bar.frame == M1 && bar.open != 0.0 && bar.start <= bar.end
    ensures AdjustedBar(M1, Fetched(bar, [bar]), actions) == Some(Adjusted([bar], actions)[0])
            <==> Inside(actions, bar.start, bar.end) == 1.0
  {
    hide Scale, After, Inside, IsProduct;
    var x, y := After(actions, bar.start), After(actions, bar.end);
    AfterPositive(actions, bar.end);
    AfterStart(actions, bar.start, bar.end);
    OneIsNeutral(x, Inside(actions, bar.start, bar.end), y);
    SameScaleSameFactor(bar, x, y);
  }

  lemma SameScaleSameFactor(bar: Bar, x: real, y: real)
    requires bar.open != 0.0
    ensures Scale(bar, x) == Scale(bar, y) <==> x == y
  {
    hide Scale;
    ScaleOpen(bar, x);
    ScaleOpen(bar, y);
    if x != y { Cancel(bar.open, x, y); }
  }

  /** Effective times on whole minutes never fall inside one. */
  lemma WholeMinutesNeverCross(actions: seq<Action>, start: int)
    requires start % MINUTE_MS == 0
    requires forall i :: 0 <= i < |actions| ==> actions[i].effective % MINUTE_MS == 0
    ensures After(actions, start) == After(actions, start + MINUTE_MS - 1)
    ensures !Crosses(actions, start, start + MINUTE_MS - 1)
  {
    hide After;
    SameMultiplier(actions, start, start + MINUTE_MS - 1, start);
  }

  lemma ScaleOpen(bar: Bar, multiplier: real)
    ensures Scale(bar, multiplier).open == bar.open * multiplier
  {
  }

  lemma Cancel(x: real, y: real, z: real)
    requires x != 0.0 && y != z
    ensures x * y != x * z
  {
    assert x * y - x * z == x * (y - z);
  }

  // ----- the backward pass over raw minutes -----

  const COMMON_FACTORS: seq<real> := [2.0, 2.5, 3.0, 4.0, 5.0, 10.0, 12.5, 20.0, 25.0, 50.0, 100.0]

  function Distance(x: real, y: real): real {
    var scale := Max(Magnitude(x), Magnitude(y));
    if scale == 0.0 then 0.0 else Magnitude(x - y) / scale
  }

  function Magnitude(x: real): real { if x < 0.0 then -x else x }

  /** The first of the nearest among the first `n` common factors. */
  function BestFactor(magnitude: real, n: nat): real
    requires 1 <= n <= |COMMON_FACTORS|
  {
    if n == 1 then COMMON_FACTORS[0]
    else
      var best := BestFactor(magnitude, n - 1);
      if Distance(magnitude, COMMON_FACTORS[n - 1]) < Distance(magnitude, best) then COMMON_FACTORS[n - 1] else best
  }

  /** A price ratio read as a common split factor, or as the reciprocal of one. */
  function SnapRatio(observedRatio: real): Option<real> {
    if observedRatio <= 0.0 then None
    else
      var magnitude := if observedRatio < 1.0 then 1.0 / observedRatio else observedRatio;
      var nearest := BestFactor(magnitude, |COMMON_FACTORS|);
      if magnitude < 1.75 || Distance(magnitude, nearest) > 0.08 then None
      else
        BestIsNearest(magnitude, |COMMON_FACTORS|);
        CommonFactorsPositive(nearest);
        Some(if observedRatio < 1.0 then 1.0 / nearest else nearest)
  }

  /** The library call both adjusters use to recognize a factor. */
  method SnapFactor(observedRatio: real) returns (factor: Option<real>)
    ensures factor == SnapRatio(observedRatio)
  {
    hide Distance;
    if observedRatio <= 0.0 {
      return None;
    }
    var magnitude := observedRatio;
    if magnitude < 1.0 {
      magnitude := 1.0 / magnitude;
    }
    if magnitude < 1.75 {
      return None;
    }
    var nearest := COMMON_FACTORS[0];
    var errorRate := Distance(magnitude, nearest);
    for i := 1 to |COMMON_FACTORS|
      invariant nearest == BestFactor(magnitude, i) && errorRate == Distance(magnitude, nearest)
    {
      var diff := Distance(magnitude, COMMON_FACTORS[i]);
      if diff < errorRate {
        nearest, errorRate := COMMON_FACTORS[i], diff;
      }
    }
    if errorRate > 0.08 {
      return None;
    }
    BestIsNearest(magnitude, |COMMON_FACTORS|);
    CommonFactorsPositive(nearest);
    if observedRatio < 1.0 {
      return Some(1.0 / nearest);
    }
    return Some(nearest);
  }

  lemma {:induction false} BestIsNearest(magnitude: real, n: nat)
    requires 1 <= n <= |COMMON_FACTORS|
    ensures BestFactor(magnitude, n) in COMMON_FACTORS
    ensures forall j :: 0 <= j < n ==> Distance(magnitude, BestFactor(magnitude, n)) <= Distance(magnitude, COMMON_FACTORS[j])
  {
    hide Distance;
    if n > 1 {
      BestIsNearest(magnitude, n - 1);
    }
  }

  lemma CommonFactorsPositive(f: real)
    requires f in COMMON_FACTORS
    ensures f >= 2.0
  {
  }

  /** A recognized ratio is at least doubled or halved, and reading prices the other way
      round gives the reciprocal factor. */
  lemma SnapReciprocal(r: real)
    requires r > 0.0 && r != 1.0
    ensures SnapRatio(r).Some? ==>
              SnapRatio(r).value > 0.0 && (if r < 1.0 then SnapRatio(r).value <= 0.5 else SnapRatio(r).value >= 2.0)
    ensures SnapRatio(1.0 / r).Some? <==> SnapRatio(r).Some?
    ensures SnapRatio(r).Some? ==> SnapRatio(1.0 / r).value == 1.0 / SnapRatio(r).value
  {
    hide Distance, BestFactor;
    Inverse(r);
    var magnitude := if r < 1.0 then 1.0 / r else r;
    var nearest := BestFactor(magnitude, |COMMON_FACTORS|);
    BestIsNearest(magnitude, |COMMON_FACTORS|);
    CommonFactorsPositive(nearest);
    Inverse(nearest);
    assert (if 1.0 / r < 1.0 then 1.0 / (1.0 / r) else 1.0 / r) == magnitude;
  }

  lemma Inverse(r: real)
    requires r > 0.0
    ensures 1.0 / r > 0.0 && 1.0 / (1.0 / r) == r
    ensures r < 1.0 ==> 1.0 / r > 1.0
    ensures r > 1.0 ==> 1.0 / r < 1.0
    ensures r >= 2.0 ==> 1.0 / r <= 0.5
  {
    Product(1.0, r);
    var q := 1.0 / r;
    assert q * r == 1.0;
    MultiplyKeepsOrder(q, 1.0, r);
    MultiplyKeepsOrder(1.0, q, r);
    MultiplyKeepsOrder(q, 0.5, r);
  }

  /** A ratio that is exactly a common factor, or the reciprocal of one, is read as that. */
  lemma ExactRatioSnaps(f: real)
    requires f in COMMON_FACTORS
    ensures SnapRatio(f) == Some(f) && SnapRatio(1.0 / f) == Some(1.0 / f)
  {
    hide BestFactor, Distance;
    CommonFactorsPositive(f);
    Inverse(f);
    BestIsNearest(f, |COMMON_FACTORS|);
    var best := BestFactor(f, |COMMON_FACTORS|);
    CommonFactorsPositive(best);
    NoDistance(f, f);
    NoDistance(f, best);
  }

  lemma NoDistance(x: real, y: real)
    requires x > 0.0 && y > 0.0
    ensures Distance(x, y) <= 0.0 <==> x == y
    ensures Distance(x, y) >= 0.0
  {
    if x != y { Product(Magnitude(x - y), Max(Magnitude(x), Magnitude(y))); }
  }

  lemma SnapPositive(r: real)
    ensures SnapRatio(r).Some? ==> SnapRatio(r).value > 0.0
  {
    if r > 0.0 && r != 1.0 { SnapReciprocal(r); }
  }

  /** The factor detected between candle `i` and the one before it. */
  function DetectedAt(ordered: seq<Bar>, i: nat): Option<real>
    requires i < |ordered|
  {
    if i == 0 || ordered[i].start - ordered[i - 1].start != MINUTE_MS
       || ordered[i - 1].close <= 0.0 || ordered[i].open <= 0.0 then None
    else SnapRatio(ordered[i].open / ordered[i - 1].close)
  }

  /** The actions detected at candles first..limit, in order of time. */
  function Detected(ordered: seq<Bar>, first: nat, limit: nat): seq<Action>
    requires first <= limit <= |ordered|
    decreases limit - first
  {
    if first == limit then [] else DetectedHere(ordered, first) + Detected(ordered, first + 1, limit)
  }

  function DetectedHere(ordered: seq<Bar>, i: nat): seq<Action>
    requires i < |ordered|
  {
    match DetectedAt(ordered, i)
    case Some(factor) => [Action(ordered[i].start, factor)]
    case None => []
  }

  function Cumulative(ordered: seq<Bar>, first: nat): real
    requires first <= |ordered|
    decreases |ordered| - first
  {
    if first == |ordered| then 1.0
    else
      match DetectedAt(ordered, first)
      case Some(factor) => Cumulative(ordered, first + 1) * factor
      case None => Cumulative(ordered, first + 1)
  }

  predicate IsProduct(z: real, x: real, y: real) { z == x * y }

  lemma AfterAppend(actions: seq<Action>, action: Action, time: int)
    ensures IsProduct(After(actions + [action], time), After(actions, time), FactorAfter(action, time))
  {
    hide FactorAfter;
    assert (actions + [action])[..|actions|] == actions;
  }

  lemma {:induction false} AfterJoin(a: seq<Action>, b: seq<Action>, time: int)
    ensures IsProduct(After(a + b, time), After(a, time), After(b, time))
  {
    hide IsProduct, After, FactorAfter;
    if b == [] {
      assert a + b == a;
      NothingAfter(a, time);
    } else {
      var front, last := b[..|b| - 1], b[|b| - 1];
      assert b == front + [last] && a + b == a + front + [last];
      AfterJoin(a, front, time);
      AfterAppend(a + front, last, time);
      AfterAppend(front, last, time);
      Associate(After(a, time), After(front, time), FactorAfter(last, time),
                After(a + front, time), After(b, time), After(a + b, time));
    }
  }

  lemma NothingAfter(a: seq<Action>, time: int)
    ensures IsProduct(After(a, time), After(a, time), After([], time))
  {
  }

  lemma Associate(x: real, y: real, z: real, xy: real, yz: real, xyz: real)
    requires IsProduct(xy, x, y) && IsProduct(yz, y, z) && IsProduct(xyz, xy, z)
    ensures IsProduct(xyz, x, yz)
  {
  }

  lemma AfterConcat(a: seq<Action>, b: seq<Action>, time: int)
    ensures After(a + b, time) == After(a, time) * After(b, time)
  {
    hide After;
    AfterJoin(a, b, time);
  }

  lemma {:induction false} NoneAfter(actions: seq<Action>, time: int)
    requires forall a :: a in actions ==> a.effective <= time
    ensures After(actions, time) == 1.0
  {
    if actions != [] {
      NoneAfter(actions[..|actions| - 1], time);
    }
  }

  lemma {:induction false} AllAfter(ordered: seq<Bar>, first: nat, time: int)
    requires first <= |ordered| && OrderedByStart(ordered)
    requires first > 0 ==> time <= ordered[first - 1].start
    requires first == 0 ==> forall i :: 0 <= i < |ordered| ==> time < ordered[i].start
    ensures After(Detected(ordered, first, |ordered|), time) == Cumulative(ordered, first)
    decreases |ordered| - first
  {
    hide SnapRatio, After, Cumulative, Detected;
    if first < |ordered| {
      AllAfter(ordered, first + 1, time);
      var rest := Detected(ordered, first + 1, |ordered|);
      CumulativeStep(ordered, first);
      DetectedStep(ordered, first);
      match DetectedAt(ordered, first)
      case None => assert [] + rest == rest;
      case Some(factor) =>
        SnapPositive(ordered[first].open / ordered[first - 1].close);
        AfterConcat([Action(ordered[first].start, factor)], rest, time);
        AfterOne(Action(ordered[first].start, factor), time);
    } else {
      NothingDetected(ordered);
      NoneAfter([], time);
    }
  }

  lemma AfterOne(action: Action, time: int)
    ensures After([action], time) == FactorAfter(action, time)
  {
    assert [action][..0] == [];
  }

  lemma {:induction false} DetectedSplit(ordered: seq<Bar>, first: nat, mid: nat, limit: nat)
    requires first <= mid <= limit <= |ordered|
    ensures Detected(ordered, first, limit) == Detected(ordered, first, mid) + Detected(ordered, mid, limit)
    decreases mid - first
  {
    hide DetectedHere;
    if first < mid {
      DetectedSplit(ordered, first + 1, mid, limit);
    }
  }

  lemma {:induction false} DetectedNoLater(ordered: seq<Bar>, first: nat, limit: nat)
    requires first < limit <= |ordered| && OrderedByStart(ordered)
    ensures forall a :: a in Detected(ordered, first, limit) ==> a.effective <= ordered[limit - 1].start
    decreases limit - first
  {
    hide DetectedHere;
    HereIsHere(ordered, first);
    if first + 1 < limit {
      DetectedNoLater(ordered, first + 1, limit);
    } else {
      assert Detected(ordered, limit, limit) == [];
    }
  }

  lemma HereIsHere(ordered: seq<Bar>, i: nat)
    requires i < |ordered|
    ensures forall a :: a in DetectedHere(ordered, i) ==> a.effective == ordered[i].start
  {
    hide DetectedAt;
  }

  /** The cumulative multiplier of the backward pass at candle `i` is the product of all
      detected actions that take effect after it. */
  lemma CumulativeIsAfter(ordered: seq<Bar>, i: nat)
    requires i < |ordered| && OrderedByStart(ordered)
    ensures After(Detected(ordered, 0, |ordered|), ordered[i].start) == Cumulative(ordered, i + 1)
  {
    hide DetectedAt, After, Cumulative;
    var n, time := |ordered|, ordered[i].start;
    DetectedSplit(ordered, 0, i + 1, n);
    DetectedNoLater(ordered, 0, i + 1);
    AfterConcat(Detected(ordered, 0, i + 1), Detected(ordered, i + 1, n), time);
    NoneAfter(Detected(ordered, 0, i + 1), time);
    AllAfter(ordered, i + 1, time);
  }

  /** The point of the adjustment: where the price jumps by exactly a common factor between two adjacent
      minutes, the adjusted candles continue without a jump. */
  lemma JumpRemoved(ordered: seq<Bar>, i: nat, f: real)
    requires 0 < i < |ordered| && OrderedByStart(ordered) && ordered[i].start == ordered[i - 1].start + MINUTE_MS
    requires f in COMMON_FACTORS || (f > 0.0 && 1.0 / f in COMMON_FACTORS)
    requires ordered[i - 1].close > 0.0 && ordered[i].open == ordered[i - 1].close * f
    ensures var actions := Detected(ordered, 0, |ordered|);
            Adjusted(ordered, actions)[i - 1].close == Adjusted(ordered, actions)[i].open
  {
    hide Detected, After, Cumulative, Scale, SnapRatio, OrderedByStart;
    var close, open := ordered[i - 1].close, ordered[i].open;
    JumpIsDetected(ordered, i, f);
    CumulativeStep(ordered, i);
    CumulativeIsAfter(ordered, i - 1);
    CumulativeIsAfter(ordered, i);
    ScalePrice(ordered[i - 1], Cumulative(ordered, i));
    ScalePrice(ordered[i], Cumulative(ordered, i + 1));
    Exchange(close, f, Cumulative(ordered, i + 1));
  }

  lemma JumpIsDetected(ordered: seq<Bar>, i: nat, f: real)
    requires 0 < i < |ordered| && ordered[i].start == ordered[i - 1].start + MINUTE_MS
    requires f in COMMON_FACTORS || (f > 0.0 && 1.0 / f in COMMON_FACTORS)
    requires ordered[i - 1].close > 0.0 && ordered[i].open == ordered[i - 1].close * f
    ensures DetectedAt(ordered, i) == Some(f)
  {
    hide SnapRatio;
    var close := ordered[i - 1].close;
    if f in COMMON_FACTORS {
      CommonFactorsPositive(f);
      ExactRatioSnaps(f);
    } else {
      Inverse(f);
      ExactRatioSnaps(1.0 / f);
    }
    Product(close, f);
    RatioBack(close, f);
  }

  lemma RatioBack(x: real, f: real)
    requires x != 0.0
    ensures x * f / x == f
  {
  }

  lemma ScalePrice(bar: Bar, multiplier: real)
    ensures Scale(bar, multiplier).open == bar.open * multiplier && Scale(bar, multiplier).close == bar.close * multiplier
  {
  }

  // Actions are collected last to first and then ordered by time.

  function InsertByTime(action: Action, actions: seq<Action>): seq<Action> {
    if actions == [] then [action]
    else if action.effective <= actions[0].effective then [action] + actions
    else [actions[0]] + InsertByTime(action, actions[1..])
  }

  function SortByTime(actions: seq<Action>): seq<Action> {
    if actions == [] then [] else InsertByTime(actions[0], SortByTime(actions[1..]))
  }

  lemma {:induction false} InsertLast(action: Action, actions: seq<Action>)
    requires forall a :: a in actions ==> a.effective < action.effective
    ensures InsertByTime(action, actions) == actions + [action]
  {
    if actions != [] {
      assert actions[0] in actions;
      InsertLast(action, actions[1..]);
    }
  }

  function Reversed(actions: seq<Action>): seq<Action> {
    if actions == [] then [] else Reversed(actions[1..]) + [actions[0]]
  }

  ghost predicate Ascending(actions: seq<Action>) {
    forall i, j :: 0 <= i < j < |actions| ==> actions[i].effective < actions[j].effective
  }

  lemma AscendingInit(actions: seq<Action>, last: Action)
    requires Ascending(actions + [last])
    ensures Ascending(actions) && forall a :: a in actions ==> a.effective < last.effective
  {
    var all := actions + [last];
    assert forall i :: 0 <= i < |actions| ==> all[i] == actions[i];
    assert all[|actions|] == last;
  }

  lemma {:induction false} SortReverses(actions: seq<Action>)
    requires Ascending(Reversed(actions))
    ensures SortByTime(actions) == Reversed(actions)
  {
    hide Ascending;
    if actions != [] {
      AscendingInit(Reversed(actions[1..]), actions[0]);
      SortReverses(actions[1..]);
      InsertLast(actions[0], Reversed(actions[1..]));
    }
  }

  lemma {:induction false} DetectedAscend(ordered: seq<Bar>, first: nat)
    requires first <= |ordered| && OrderedByStart(ordered)
    ensures Ascending(Detected(ordered, first, |ordered|))
    ensures forall a :: a in Detected(ordered, first, |ordered|) && first > 0 ==> a.effective > ordered[first - 1].start
    decreases |ordered| - first
  {
    hide SnapRatio;
    if first < |ordered| {
      DetectedAscend(ordered, first + 1);
      var rest := Detected(ordered, first + 1, |ordered|);
      var all := DetectedHere(ordered, first) + rest;
      forall i, j | 0 <= i < j < |all| ensures all[i].effective < all[j].effective {
        if DetectedHere(ordered, first) == [] {
          assert all[i] == rest[i] && all[j] == rest[j];
        } else {
          assert all[j] == rest[j - 1] && rest[j - 1] in rest;
          if i > 0 { assert all[i] == rest[i - 1]; }
        }
      }
    }
  }

  lemma {:induction false} ReversedAppend(actions: seq<Action>, action: Action)
    ensures Reversed(actions + [action]) == [action] + Reversed(actions)
  {
    if actions == [] {
      assert [] + [action] == [action];
    } else {
      ReversedAppend(actions[1..], action);
      assert (actions + [action])[1..] == actions[1..] + [action];
    }
  }

  method DetectFactor(ordered: seq<Bar>, i: nat) returns (factor: Option<real>)
    requires i < |ordered|
    ensures factor == DetectedAt(ordered, i)
  {
    hide SnapRatio;
    if i == 0 || ordered[i].start - ordered[i - 1].start != MINUTE_MS
       || ordered[i - 1].close <= 0.0 || ordered[i].open <= 0.0 {
      return None;
    }
    factor := SnapFactor(ordered[i].open / ordered[i - 1].close);
  }

  lemma BackwardStep(ordered: seq<Bar>, i: nat, collected: seq<Action>)
    requires i < |ordered| && Reversed(collected) == Detected(ordered, i + 1, |ordered|)
    ensures match DetectedAt(ordered, i)
            case Some(factor) =>
              && Cumulative(ordered, i) == Cumulative(ordered, i + 1) * factor
              && Reversed(collected + [Action(ordered[i].start, factor)]) == Detected(ordered, i, |ordered|)
            case None =>
              && Cumulative(ordered, i) == Cumulative(ordered, i + 1)
              && Reversed(collected) == Detected(ordered, i, |ordered|)
  {
    hide DetectedAt, Cumulative, Detected, Reversed;
    CumulativeStep(ordered, i);
    DetectedStep(ordered, i);
    var rest := Detected(ordered, i + 1, |ordered|);
    match DetectedAt(ordered, i)
    case Some(factor) => ReversedAppend(collected, Action(ordered[i].start, factor));
    case None => assert [] + rest == rest;
  }

  lemma CumulativeStep(ordered: seq<Bar>, i: nat)
    requires i < |ordered|
    ensures Cumulative(ordered, i) == match DetectedAt(ordered, i)
              case Some(factor) => Cumulative(ordered, i + 1) * factor
              case None => Cumulative(ordered, i + 1)
  {
    hide DetectedAt;
  }

  lemma DetectedStep(ordered: seq<Bar>, i: nat)
    requires i < |ordered|
    ensures Detected(ordered, i, |ordered|) == DetectedHere(ordered, i) + Detected(ordered, i + 1, |ordered|)
  {
    hide DetectedHere;
  }

  /** One backward pass over raw minutes: detects the actions and adjusts as it goes. */
  method ForwardAdjustOneMinuteBars(raw: seq<Bar>) returns (adjusted: seq<Bar>, actions: seq<Action>)
    ensures |SortByStart(raw)| == |raw| && actions == Detected(SortByStart(raw), 0, |raw|)
    ensures adjusted == Adjusted(SortByStart(raw), actions)
    ensures AllAtLevel(SortByStart(raw), actions, adjusted)
  {
    hide SortByStart, Scale, AllAtLevel, DetectedAt, Detected, Cumulative, Reversed, SortByTime, Ascending, After;
    SortSorts(raw);
    if |raw| == 0 {
      NothingDetected([]);
      AdjustedAtLevel([], []);
      return [], [];
    }
    var ordered := SortByStart(raw);
    var slots := new Bar[|ordered|](i requires 0 <= i < |ordered| => ordered[i]);
    var collected: seq<Action> := [];
    var cumulativeMultiplier := 1.0;
    NothingDetected(ordered);
    for i := |ordered| downto 0
      invariant cumulativeMultiplier == Cumulative(ordered, i)
      invariant Reversed(collected) == Detected(ordered, i, |ordered|)
      invariant forall j :: i <= j < |ordered| ==> slots[j] == Scale(ordered[j], Cumulative(ordered, j + 1))
    {
      BackwardStep(ordered, i, collected);
      slots[i] := Scale(ordered[i], cumulativeMultiplier);
      var multiplier := DetectFactor(ordered, i);
      if multiplier.None? {
        continue;
      }
      cumulativeMultiplier := cumulativeMultiplier * multiplier.value;
      collected := collected + [Action(ordered[i].start, multiplier.value)];
    }
    DetectedAscend(ordered, 0);
    SortReverses(collected);
    actions := SortByTime(collected);
    adjusted := slots[..];
    forall i | 0 <= i < |ordered|
      ensures adjusted[i] == Scale(ordered[i], After(actions, ordered[i].start))
    {
      CumulativeIsAfter(ordered, i);
    }
    AdjustedAtLevel(ordered, actions);
  }

  lemma NothingDetected(ordered: seq<Bar>)
    ensures Cumulative(ordered, |ordered|) == 1.0 && Detected(ordered, |ordered|, |ordered|) == [] == Reversed([])
  {
  }
}
