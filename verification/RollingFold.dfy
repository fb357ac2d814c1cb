/** What a one-pass rollup of minute candles has to have produced at any point of its stream. */
module RollingFold {
  import opened Timeframe
  import opened BucketCounting
  import opened Rollup
  import opened Aggregator

  /** The bucket of a timestamp; the streaming service's division always rounds down. */
  function BucketStart(ms: int, tf: Frame): int { Boundary(tf, BucketIndex(tf, ms)) }

  datatype Values = Values(open: real, high: real, low: real, close: real,
                           volume: real, quoteVolume: real, tradeCount: int, lastTick: int)

  function TickOf(bar: Bar): int { if bar.lastTick != 0 then bar.lastTick else bar.end }

  function ValuesOf(bar: Bar): Values {
    Values(bar.open, bar.high, bar.low, bar.close, bar.volume, bar.quoteVolume, bar.tradeCount, TickOf(bar))
  }

  function Extended(v: Values, bar: Bar): Values {
    Values(v.open, Max(v.high, bar.high), Min(v.low, bar.low), bar.close,
           v.volume + bar.volume, v.quoteVolume + bar.quoteVolume, v.tradeCount + bar.tradeCount,
           if TickOf(bar) > v.lastTick then TickOf(bar) else v.lastTick)
  }

  function FoldValues(bars: seq<Bar>): Values
    requires bars != []
  {
    if |bars| == 1 then ValuesOf(bars[0]) else Extended(FoldValues(bars[..|bars| - 1]), bars[|bars| - 1])
  }

  datatype Totals = Totals(volume: real, quoteVolume: real, tradeCount: int)

  function TotalsOf(bars: seq<Bar>): Totals {
    if bars == [] then Totals(0.0, 0.0, 0)
    else
      var t, bar := TotalsOf(bars[..|bars| - 1]), bars[|bars| - 1];
      Totals(t.volume + bar.volume, t.quoteVolume + bar.quoteVolume, t.tradeCount + bar.tradeCount)
  }

  /** What the values of a bucket mean: first open, last close, extremes that are attained, totals. */
  lemma {:induction false} FoldMeaning(bars: seq<Bar>)
    requires bars != []
    ensures var v := FoldValues(bars);
            && v.open == bars[0].open && v.close == bars[|bars| - 1].close
            && (forall bar :: bar in bars ==> bar.high <= v.high && v.low <= bar.low && TickOf(bar) <= v.lastTick)
            && (exists bar :: bar in bars && bar.high == v.high) && (exists bar :: bar in bars && bar.low == v.low)
            && (exists bar :: bar in bars && TickOf(bar) == v.lastTick)
            && Totals(v.volume, v.quoteVolume, v.tradeCount) == TotalsOf(bars)
  {
    var front, last := bars[..|bars| - 1], bars[|bars| - 1];
    assert bars == front + [last];
    assert last in bars;
    if front != [] {
      FoldMeaning(front);
      var v := FoldValues(front);
      assert FoldValues(bars) == Extended(v, last);
      hide FoldValues, TotalsOf;
      ExtendedAttains(front, v, last);
    } else {
      assert bars == [last];
      assert TotalsOf([]) == Totals(0.0, 0.0, 0);
    }
  }

  lemma ExtendedAttains(front: seq<Bar>, v: Values, last: Bar)
    requires forall bar :: bar in front ==> bar.high <= v.high && v.low <= bar.low && TickOf(bar) <= v.lastTick
    requires exists bar :: bar in front && bar.high == v.high
    requires exists bar :: bar in front && bar.low == v.low
    requires exists bar :: bar in front && TickOf(bar) == v.lastTick
    ensures var w, bars := Extended(v, last), front + [last];
            && (forall bar :: bar in bars ==> bar.high <= w.high && w.low <= bar.low && TickOf(bar) <= w.lastTick)
            && (exists bar :: bar in bars && bar.high == w.high) && (exists bar :: bar in bars && bar.low == w.low)
            && (exists bar :: bar in bars && TickOf(bar) == w.lastTick)
  {
    hide TickOf;
    var w, bars := Extended(v, last), front + [last];
    var top :| top in front && top.high == v.high;
    var bottom :| bottom in front && bottom.low == v.low;
    var latest :| latest in front && TickOf(latest) == v.lastTick;
    assert top in bars && bottom in bars && latest in bars && last in bars;
    assert w.high == top.high || w.high == last.high;
    assert w.low == bottom.low || w.low == last.low;
    assert w.lastTick == TickOf(latest) || w.lastTick == TickOf(last);
  }

  /** The candles of one bucket, in order of arrival. */
  function OfBucket(bars: seq<Bar>, start: int, tf: Frame): seq<Bar> {
    if bars == [] then []
    else OfBucket(bars[..|bars| - 1], start, tf)
         + if BucketStart(bars[|bars| - 1].start, tf) == start then [bars[|bars| - 1]] else []
  }

  lemma OfBucketAppend(bars: seq<Bar>, bar: Bar, start: int, tf: Frame)
    ensures OfBucket(bars + [bar], start, tf)
         == if BucketStart(bar.start, tf) == start then OfBucket(bars, start, tf) + [bar] else OfBucket(bars, start, tf)
  {
    hide BucketStart;
    assert (bars + [bar])[..|bars|] == bars;
  }

  lemma {:induction false} OfBucketMembers(bars: seq<Bar>, start: int, tf: Frame)
    ensures forall bar :: bar in OfBucket(bars, start, tf) <==> bar in bars && BucketStart(bar.start, tf) == start
  {
    hide BucketStart;
    if bars != [] {
      OfBucketMembers(bars[..|bars| - 1], start, tf);
      assert bars == bars[..|bars| - 1] + [bars[|bars| - 1]];
    }
  }

  // ----- finals -----

  datatype Emitted = Emitted(start: int, end: int, values: Values, isFinal: bool, gap: bool)

  function GapAfter(previous: Emitted, lastTick: int, tf: Frame): Emitted {
    var start, price := NextStart(previous.start, tf), previous.values.close;
    Emitted(start, EndMS(start, tf), Values(price, price, price, price, 0.0, 0.0, 0, lastTick), true, true)
  }

  /** The final says the truth about its bucket. */
  ghost predicate Faithful(final: Emitted, accepted: seq<Bar>, tf: Frame) {
    && final.isFinal && BucketStart(final.start, tf) == final.start && final.end == EndMS(final.start, tf)
    && (final.gap <==> OfBucket(accepted, final.start, tf) == [])
    && (!final.gap ==> final.values == FoldValues(OfBucket(accepted, final.start, tf)))
  }

  /** A gap is flat at the close before it. */
  predicate Follows(previous: Emitted, final: Emitted, tf: Frame) {
    && final.start == NextStart(previous.start, tf)
    && (final.gap ==>
          var v, price := final.values, previous.values.close;
          v.open == price && v.high == price && v.low == price && v.close == price
          && v.volume == 0.0 && v.quoteVolume == 0.0 && v.tradeCount == 0)
  }

  function TotalsOfFinals(finals: seq<Emitted>): Totals {
    if finals == [] then Totals(0.0, 0.0, 0)
    else
      var t, v := TotalsOfFinals(finals[..|finals| - 1]), finals[|finals| - 1].values;
      Totals(t.volume + v.volume, t.quoteVolume + v.quoteVolume, t.tradeCount + v.tradeCount)
  }

  ghost predicate Consecutive(finals: seq<Emitted>, tf: Frame) {
    forall i, j :: 0 <= i < j < |finals| && j == i + 1 ==> Follows(finals[i], finals[j], tf)
  }

  predicate HasFinalOf(finals: seq<Emitted>, start: int) { exists f :: f in finals && f.start == start && !f.gap }

  /** The finals tile time from the first accepted candle on, each tells the truth about its bucket,
      and together they hold everything that was accepted. */
  ghost predicate Settled(finals: seq<Emitted>, accepted: seq<Bar>, tf: Frame) {
    && finals != [] && !finals[0].gap && Consecutive(finals, tf)
    && (forall f :: f in finals ==> Faithful(f, accepted, tf))
    && (forall bar :: bar in accepted ==> HasFinalOf(finals, BucketStart(bar.start, tf)))
    && TotalsOfFinals(finals) == TotalsOf(accepted)
  }

  lemma BucketIsAligned(ms: int, tf: Frame)
    ensures Aligned(BucketStart(ms, tf), tf) && BucketStart(BucketStart(ms, tf), tf) == BucketStart(ms, tf)
    ensures ms >= EPOCH_MONDAY ==> BucketStart(ms, tf) == FloorStart(ms, tf)
  {
    hide Aligned, Boundary, BucketIndex, FloorStart;
    BoundaryAligned(tf, BucketIndex(tf, ms));
    BoundaryIndex(tf, BucketIndex(tf, ms));
    if ms >= EPOCH_MONDAY { FloorAfterEpoch(ms, tf); }
  }

  lemma NextBucket(start: int, tf: Frame)
    requires BucketStart(start, tf) == start
    ensures start < NextStart(start, tf) && BucketStart(NextStart(start, tf), tf) == NextStart(start, tf)
    ensures forall t :: BucketStart(t, tf) == t && t > start ==> t >= NextStart(start, tf)
  {
    hide Aligned, Boundary, BucketIndex, NextStart;
    BucketIsAligned(start, tf);
    AlignedNeighbours(start, tf);
    AlignedOrder(start, NextStart(start, tf), tf);
    forall t | BucketStart(t, tf) == t && t > start ensures t >= NextStart(start, tf) {
      BucketIsAligned(t, tf);
      AlignedOrder(start, t, tf);
      AlignedOrder(t, NextStart(start, tf), tf);
    }
  }

  lemma {:induction false} FinalsIncrease(finals: seq<Emitted>, tf: Frame, i: nat, j: nat)
    requires Consecutive(finals, tf) && i <= j < |finals|
    requires forall f :: f in finals ==> BucketStart(f.start, tf) == f.start
    ensures finals[i].start <= finals[j].start && (i < j ==> finals[i].start < finals[j].start)
    decreases j - i
  {
    hide BucketStart, NextStart;
    if i < j {
      FinalsIncrease(finals, tf, i, j - 1);
      assert finals[j - 1] in finals;
      assert Follows(finals[j - 1], finals[j], tf);
      NextBucket(finals[j - 1].start, tf);
    }
  }

  lemma EarlierFinals(finals: seq<Emitted>, accepted: seq<Bar>, tf: Frame)
    requires Settled(finals, accepted, tf)
    ensures forall f :: f in finals ==> f.start <= finals[|finals| - 1].start
    ensures forall f :: f in finals[..|finals| - 1] ==> f.start < finals[|finals| - 1].start
    ensures forall bar :: bar in accepted ==> BucketStart(bar.start, tf) <= finals[|finals| - 1].start
  {
    hide BucketStart, NextStart, OfBucket, EndMS;
    forall f | f in finals ensures f.start <= finals[|finals| - 1].start {
      var i :| 0 <= i < |finals| && finals[i] == f;
      FinalsIncrease(finals, tf, i, |finals| - 1);
    }
    forall f | f in finals[..|finals| - 1] ensures f.start < finals[|finals| - 1].start {
      var i :| 0 <= i < |finals| - 1 && finals[i] == f;
      FinalsIncrease(finals, tf, i, |finals| - 1);
    }
  }

  lemma FollowedBy(finals: seq<Emitted>, f: Emitted, tf: Frame)
    requires finals != [] && Consecutive(finals, tf) && Follows(finals[|finals| - 1], f, tf)
    ensures Consecutive(finals + [f], tf)
  {
    hide Follows;
    forall i, j | 0 <= i < j < |finals + [f]| && j == i + 1 ensures Follows((finals + [f])[i], (finals + [f])[j], tf) {
      if j < |finals| { assert Follows(finals[i], finals[j], tf); }
    }
  }

  function AddTotals(t: Totals, volume: real, quoteVolume: real, tradeCount: int): Totals {
    Totals(t.volume + volume, t.quoteVolume + quoteVolume, t.tradeCount + tradeCount)
  }

  lemma TotalsOfFinalsAppend(finals: seq<Emitted>, f: Emitted)
    ensures TotalsOfFinals(finals + [f]) == AddTotals(TotalsOfFinals(finals), f.values.volume, f.values.quoteVolume, f.values.tradeCount)
  {
    assert (finals + [f])[..|finals|] == finals;
  }

  lemma TotalsOfAppend(accepted: seq<Bar>, bar: Bar)
    ensures TotalsOf(accepted + [bar]) == AddTotals(TotalsOf(accepted), bar.volume, bar.quoteVolume, bar.tradeCount)
  {
    assert (accepted + [bar])[..|accepted|] == accepted;
  }

  lemma {:induction false} NoneOfBucket(bars: seq<Bar>, start: int, tf: Frame)
    requires forall bar :: bar in bars ==> BucketStart(bar.start, tf) != start
    ensures OfBucket(bars, start, tf) == []
  {
    hide BucketStart;
    if bars != [] { NoneOfBucket(bars[..|bars| - 1], start, tf); }
  }

  lemma HasFinalGrows(finals: seq<Emitted>, f: Emitted)
    ensures forall start :: HasFinalOf(finals, start) ==> HasFinalOf(finals + [f], start)
    ensures !f.gap ==> HasFinalOf(finals + [f], f.start)
  {
    assert f in finals + [f];
    forall start | HasFinalOf(finals, start) ensures HasFinalOf(finals + [f], start) {
      var g :| g in finals && g.start == start && !g.gap;
      assert g in finals + [f];
    }
  }

  /** One more gap. */
  lemma GapSettles(finals: seq<Emitted>, accepted: seq<Bar>, lastTick: int, tf: Frame)
    requires Settled(finals, accepted, tf)
    ensures Settled(finals + [GapAfter(finals[|finals| - 1], lastTick, tf)], accepted, tf)
  {
    hide BucketStart, NextStart, OfBucket, EndMS, FoldValues, HasFinalOf, TotalsOfFinals, TotalsOf;
    var last := finals[|finals| - 1];
    var gap := GapAfter(last, lastTick, tf);
    EarlierFinals(finals, accepted, tf);
    assert last in finals;
    NextBucket(last.start, tf);
    NoneOfBucket(accepted, gap.start, tf);
    FollowedBy(finals, gap, tf);
    TotalsOfFinalsAppend(finals, gap);
    HasFinalGrows(finals, gap);
  }

  function FinalOf(start: int, values: Values, tf: Frame): Emitted { Emitted(start, EndMS(start, tf), values, true, false) }

  /** A candle opens the bucket after the last final. */
  lemma OpeningSettles(finals: seq<Emitted>, accepted: seq<Bar>, bar: Bar, tf: Frame)
    requires Settled(finals, accepted, tf) && BucketStart(bar.start, tf) == NextStart(finals[|finals| - 1].start, tf)
    ensures Settled(finals + [FinalOf(BucketStart(bar.start, tf), ValuesOf(bar), tf)], accepted + [bar], tf)
  {
    hide BucketStart, NextStart, OfBucket, EndMS, HasFinalOf, TotalsOfFinals, TotalsOf;
    var last, final := finals[|finals| - 1], FinalOf(BucketStart(bar.start, tf), ValuesOf(bar), tf);
    EarlierFinals(finals, accepted, tf);
    assert last in finals;
    NextBucket(last.start, tf);
    NoneOfBucket(accepted, final.start, tf);
    OfBucketAppend(accepted, bar, final.start, tf);
    FollowedBy(finals, final, tf);
    TotalsOfFinalsAppend(finals, final);
    TotalsOfAppend(accepted, bar);
    HasFinalGrows(finals, final);
    forall f | f in finals ensures Faithful(f, accepted + [bar], tf) { OfBucketAppend(accepted, bar, f.start, tf); }
  }

  lemma FirstSettles(bar: Bar, tf: Frame)
    ensures Settled([FinalOf(BucketStart(bar.start, tf), ValuesOf(bar), tf)], [bar], tf)
  {
    hide BucketStart, NextStart, OfBucket, EndMS, HasFinalOf, TotalsOfFinals, TotalsOf;
    var final := FinalOf(BucketStart(bar.start, tf), ValuesOf(bar), tf);
    assert Faithful(final, [bar], tf) by { FirstFaithful(bar, tf); }
    hide Faithful, FinalOf, ValuesOf;
    SameTotals(final, bar);
    HasFinalGrows([], final);
    assert [] + [final] == [final];
  }

  lemma FirstFaithful(bar: Bar, tf: Frame)
    ensures Faithful(FinalOf(BucketStart(bar.start, tf), ValuesOf(bar), tf), [bar], tf)
  {
    hide BucketStart, EndMS, OfBucket;
    var start := BucketStart(bar.start, tf);
    BucketIsAligned(bar.start, tf);
    NoneOfBucket([], start, tf);
    OfBucketAppend([], bar, start, tf);
    assert [] + [bar] == [bar];
    assert FoldValues([bar]) == ValuesOf(bar);
  }

  lemma SameTotals(final: Emitted, bar: Bar)
    requires final.values == ValuesOf(bar)
    ensures TotalsOfFinals([final]) == TotalsOf([bar])
  {
    hide TotalsOfFinals, TotalsOf;
    TotalsOfFinalsAppend([], final);
    TotalsOfAppend([], bar);
    NoTotals();
    assert [] + [bar] == [bar] && [] + [final] == [final];
  }

  lemma NoTotals()
    ensures TotalsOf([]) == TotalsOfFinals([]) == Totals(0.0, 0.0, 0)
  {
  }

  /** A candle extends the last bucket. */
  lemma ExtendingSettles(front: seq<Emitted>, start: int, values: Values, accepted: seq<Bar>, bar: Bar, tf: Frame)
    requires Settled(front + [FinalOf(start, values, tf)], accepted, tf) && BucketStart(bar.start, tf) == start
    ensures Settled(front + [FinalOf(start, Extended(values, bar), tf)], accepted + [bar], tf)
  {
    hide BucketStart, NextStart, OfBucket, EndMS, HasFinalOf, TotalsOfFinals, TotalsOf, FoldValues;
    var before, after := FinalOf(start, values, tf), FinalOf(start, Extended(values, bar), tf);
    var finals, finals' := front + [before], front + [after];
    assert before in finals;
    EarlierFinals(finals, accepted, tf);
    assert finals[..|finals| - 1] == front;
    OfBucketAppend(accepted, bar, start, tf);
    FoldAppend(OfBucket(accepted, start, tf), bar);
    TotalsOfFinalsAppend(front, before);
    TotalsOfFinalsAppend(front, after);
    TotalsOfAppend(accepted, bar);
    SameStarts(front, before, after);
    ReplacedLast(front, before, after, tf);
    forall f | f in front ensures Faithful(f, accepted + [bar], tf) {
      assert f in finals;
      OfBucketAppend(accepted, bar, f.start, tf);
    }
  }

  lemma FoldAppend(bars: seq<Bar>, bar: Bar)
    requires bars != []
    ensures FoldValues(bars + [bar]) == Extended(FoldValues(bars), bar)
  {
    assert (bars + [bar])[..|bars|] == bars;
  }

  lemma SameStarts(front: seq<Emitted>, before: Emitted, after: Emitted)
    requires before.start == after.start && !before.gap && !after.gap
    ensures forall start :: HasFinalOf(front + [before], start) ==> HasFinalOf(front + [after], start)
    ensures HasFinalOf(front + [after], after.start)
  {
    assert after in front + [after];
    forall start | HasFinalOf(front + [before], start) ensures HasFinalOf(front + [after], start) {
      var g :| g in front + [before] && g.start == start && !g.gap;
      if g in front { assert g in front + [after]; }
    }
  }

  lemma ReplacedLast(front: seq<Emitted>, before: Emitted, after: Emitted, tf: Frame)
    requires before.start == after.start && !after.gap && Consecutive(front + [before], tf)
    ensures Consecutive(front + [after], tf)
  {
    forall i, j | 0 <= i < j < |front + [after]| && j == i + 1 ensures Follows((front + [after])[i], (front + [after])[j], tf) {
      assert Follows((front + [before])[i], (front + [before])[j], tf);
    }
  }

  // ----- against the service's rollup -----

  predicate FirstPriced(bars: seq<Bar>, f: int) {
    0 <= f < |bars| && SetsPrice(bars, f) && forall i :: 0 <= i < f ==> !SetsPrice(bars, i)
  }

  predicate LastPriced(bars: seq<Bar>, l: int) {
    0 <= l < |bars| && SetsPrice(bars, l) && forall i :: l < i < |bars| ==> !SetsPrice(bars, i)
  }

  /** The high, and the low, of the candle at `i` lie within those of the candles that set prices. */
  predicate BelowTop(bars: seq<Bar>, i: int)
    requires 0 <= i < |bars|
  {
    exists j :: 0 <= j < |bars| && SetsPrice(bars, j) && bars[i].high <= bars[j].high
  }

  predicate AboveBottom(bars: seq<Bar>, i: int)
    requires 0 <= i < |bars|
  {
    exists j :: 0 <= j < |bars| && SetsPrice(bars, j) && bars[j].low <= bars[i].low
  }

  lemma EndsAgree(bars: seq<Bar>, f: int, l: int)
    requires FirstPriced(bars, f) && LastPriced(bars, l)
    ensures Fold(bars).open == bars[f].open && Fold(bars).close == bars[l].close
  {
    hide SetsPrice, Fold, HighRule, LowRule, TotalsRule;
    FoldMeetsRule(bars);
    var g, m :| 0 <= g <= m < |bars| && SetsPrice(bars, g) && SetsPrice(bars, m)
      && Fold(bars).open == bars[g].open && Fold(bars).close == bars[m].close
      && forall i :: 0 <= i < |bars| && SetsPrice(bars, i) ==> g <= i <= m;
    assert g <= f && l <= m;
  }

  lemma HighsAgree(bars: seq<Bar>)
    requires bars != []
    ensures FoldValues(bars).high == Fold(bars).high <==> forall i :: 0 <= i < |bars| ==> BelowTop(bars, i)
  {
    hide SetsPrice, Fold, FoldValues, EndsRule, LowRule, TotalsRule, TotalsOf;
    FoldMeaning(bars);
    FoldMeetsRule(bars);
    var v, s := FoldValues(bars).high, Fold(bars).high;
    var top :| top in bars && top.high == v;
    var t :| 0 <= t < |bars| && bars[t] == top;
    var j :| 0 <= j < |bars| && SetsPrice(bars, j) && s == bars[j].high;
    assert bars[j] in bars;
    assert BelowTop(bars, t) ==> v <= s;
    forall i | 0 <= i < |bars| ensures v == s ==> BelowTop(bars, i) { assert bars[i] in bars; }
  }

  lemma LowsAgree(bars: seq<Bar>)
    requires bars != []
    ensures FoldValues(bars).low == Fold(bars).low <==> forall i :: 0 <= i < |bars| ==> AboveBottom(bars, i)
  {
    hide SetsPrice, Fold, FoldValues, EndsRule, HighRule, TotalsRule, TotalsOf;
    FoldMeaning(bars);
    FoldMeetsRule(bars);
    var v, s := FoldValues(bars).low, Fold(bars).low;
    var bottom :| bottom in bars && bottom.low == v;
    var t :| 0 <= t < |bars| && bars[t] == bottom;
    var j :| 0 <= j < |bars| && SetsPrice(bars, j) && s == bars[j].low;
    assert bars[j] in bars;
    assert AboveBottom(bars, t) ==> s <= v;
    forall i | 0 <= i < |bars| ensures v == s ==> AboveBottom(bars, i) { assert bars[i] in bars; }
  }

  lemma PricedIsWithin(bars: seq<Bar>, i: int)
    requires 0 <= i < |bars| && SetsPrice(bars, i)
    ensures BelowTop(bars, i) && AboveBottom(bars, i)
  {
    hide SetsPrice;
  }

  /** The streaming fold and the service's rollup have the same prices if and only if the bucket opens
      and closes as its price-setting candles do and no other candle reaches beyond them. */
  lemma PricesAgreeExactly(bars: seq<Bar>, f: int, l: int)
    requires FirstPriced(bars, f) && LastPriced(bars, l)
    ensures var v, s := FoldValues(bars), Fold(bars);
            (v.open, v.high, v.low, v.close) == (s.open, s.high, s.low, s.close) <==>
              && bars[0].open == bars[f].open && bars[|bars| - 1].close == bars[l].close
              && forall i :: 0 <= i < |bars| && !SetsPrice(bars, i) ==> BelowTop(bars, i) && AboveBottom(bars, i)
  {
    hide SetsPrice, Fold, FoldValues, BelowTop, AboveBottom, TotalsOf;
    FoldMeaning(bars);
    EndsAgree(bars, f, l);
    HighsAgree(bars);
    LowsAgree(bars);
    forall i | 0 <= i < |bars| && SetsPrice(bars, i) ensures BelowTop(bars, i) && AboveBottom(bars, i) {
      PricedIsWithin(bars, i);
    }
  }

  /** Every bucket has such candles: all of them when none traded. */
  lemma {:induction false} PricedExist(bars: seq<Bar>) returns (f: int, l: int)
    requires bars != []
    ensures FirstPriced(bars, f) && LastPriced(bars, l)
  {
    hide SetsPrice, Fold, EndsRule, HighRule, LowRule, TotalsRule, FirstPriced, LastPriced;
    FoldMeetsRule(bars);
    f, l := PricedEnds(bars, Fold(bars));
  }

  lemma PricedEnds(bars: seq<Bar>, s: Summary) returns (f: int, l: int)
    requires EndsRule(bars, s)
    ensures FirstPriced(bars, f) && LastPriced(bars, l)
  {
    hide SetsPrice;
    f, l :| 0 <= f <= l < |bars| && SetsPrice(bars, f) && SetsPrice(bars, l)
      && s.open == bars[f].open && s.close == bars[l].close
      && forall i :: 0 <= i < |bars| && SetsPrice(bars, i) ==> f <= i <= l;
  }

  lemma {:induction false} TotalsAreVolumes(bars: seq<Bar>)
    ensures var (v, q, c, n) := Volumes(bars); TotalsOf(bars) == Totals(v, q, n)
  {
    if bars != [] {
      var front, last := bars[..|bars| - 1], bars[|bars| - 1];
      assert bars == front + [last];
      TotalsAreVolumes(front);
      VolumesAppend(front, last);
    }
  }

  /** Volumes and trade counts always agree. */
  lemma TotalsAgree(bars: seq<Bar>)
    requires bars != []
    ensures var v, s := FoldValues(bars), Fold(bars);
            (v.volume, v.quoteVolume, v.tradeCount) == (s.volume, s.quoteVolume, s.tradeCount)
  {
    hide Fold, FoldValues, Volumes, TotalsOf, EndsRule, HighRule, LowRule;
    FoldMeaning(bars);
    FoldMeetsRule(bars);
    TotalsAreVolumes(bars);
  }

  /** The last ticks agree if and only if every candle without a tick ends by a tick that was reported:
      the streaming fold takes the end of such a candle for its tick. */
  lemma TicksAgreeExactly(bars: seq<Bar>)
    requires bars != [] && forall bar :: bar in bars ==> bar.end > 0
    ensures FoldValues(bars).lastTick == Fold(bars).lastTick <==>
              forall bar :: bar in bars && bar.lastTick == 0 ==> exists other :: other in bars && bar.end <= other.lastTick
  {
    hide Fold, FoldValues, Volumes, TotalsOf, EndsRule, HighRule, LowRule;
    FoldMeaning(bars);
    FoldMeetsRule(bars);
    var latest :| latest in bars && TickOf(latest) == FoldValues(bars).lastTick;
    var m :| 0 <= m < |bars| && Fold(bars).lastTick == bars[m].lastTick;
    assert bars[m] in bars;
    forall bar | bar in bars ensures bar.lastTick <= Fold(bars).lastTick {
      var i :| 0 <= i < |bars| && bars[i] == bar;
    }
  }

  /** So on a mixed bucket they may differ: a candle without trades sets the high here. */
  lemma MixedBucketsDiffer() returns (bars: seq<Bar>)
    ensures |bars| == 2 && FoldValues(bars).high != Fold(bars).high
  {
    var series := Series("okx", "BTC-USDT");
    var carried := Bar(series, M1, 0, MINUTE_MS - 1, 10.0, 10.0, 10.0, 10.0, 0.0, 0.0, 0.0, 0, 1, true);
    var traded := Bar(series, M1, MINUTE_MS, 2 * MINUTE_MS - 1, 5.0, 5.0, 5.0, 5.0, 1.0, 5.0, 0.0, 1, MINUTE_MS, true);
    bars := [carried, traded];
    assert bars[1..] == [traded] && bars[..1] == [carried];
    assert Fold(bars) == Join(SummaryOf(carried), SummaryOf(traded));
    assert FoldValues(bars) == Extended(FoldValues([carried]), traded);
  }

  /** And on a mixed bucket they may agree: a carried candle that stays within the traded ones. */
  lemma MixedBucketsMayAgree() returns (bars: seq<Bar>)
    ensures |bars| == 2 && HasTradeActivity(bars[0]) != HasTradeActivity(bars[1])
    ensures var v, s := FoldValues(bars), Fold(bars); (v.open, v.high, v.low, v.close) == (s.open, s.high, s.low, s.close)
  {
    var series := Series("okx", "BTC-USDT");
    var carried := Bar(series, M1, 0, MINUTE_MS - 1, 5.0, 5.0, 5.0, 5.0, 0.0, 0.0, 0.0, 0, 1, true);
    var traded := Bar(series, M1, MINUTE_MS, 2 * MINUTE_MS - 1, 5.0, 6.0, 4.0, 5.0, 1.0, 5.0, 0.0, 1, MINUTE_MS, true);
    bars := [carried, traded];
    assert AnyTrades(bars) by { assert HasTradeActivity(bars[1]); }
    assert SetsPrice(bars, 1);
    PricesAgreeExactly(bars, 1, 1);
  }
}
