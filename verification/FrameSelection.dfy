/** Which timeframes the service keeps: the requested ones and everything they are built from. */
module FrameSelection {
  import opened Timeframe
  import opened Rollup
  import opened Cascade
  import opened FlatRollup

  const ORDER: seq<Frame> := [M1, M5, M15, M30, H1, H2, H4, H6, H12, D1, D2, D3, D5, W1, W2, Mon1, Mon3]

  /** `g` is one of the timeframes between `f` and the minutes. */
  predicate InChain(f: Frame, g: Frame)
    decreases Rank(f)
  {
    if RollupSource(f).None? || RollupSource(f).value == M1 then false
    else
      SourceRefines(f);
      RollupSource(f).value == g || InChain(RollupSource(f).value, g)
  }

  function AddRollupDependencies(tf: Frame, selected: set<Frame>): set<Frame>
    decreases Rank(tf)
  {
    if RollupSource(tf).None? || RollupSource(tf).value == M1 then selected
    else if RollupSource(tf).value in selected then selected
    else
      SourceRefines(tf);
      AddRollupDependencies(RollupSource(tf).value, selected + {RollupSource(tf).value})
  }

  lemma {:induction false} ChainBelow(f: Frame, g: Frame)
    requires InChain(f, g)
    ensures Rank(g) < Rank(f) && Enabled(g) && g != M1
    decreases Rank(f)
  {
    hide Rank, Refines;
    SourceRefines(f);
    SourceEnabled(f);
    if RollupSource(f).value != g {
      ChainBelow(RollupSource(f).value, g);
    }
  }

  lemma SourceEnabled(f: Frame)
    ensures RollupSource(f).Some? ==> Enabled(RollupSource(f).value)
  {
  }

  lemma ChainStep(f: Frame, g: Frame)
    ensures InChain(f, g) <==>
              RollupSource(f).Some? && RollupSource(f).value != M1
              && (RollupSource(f).value == g || InChain(RollupSource(f).value, g))
  {
    hide Rank, Refines, RollupSource;
  }

  /** Stopping at the first timeframe already selected loses nothing, because everything
      selected below it brought its own chain along. */
  lemma {:induction false} DependenciesAdded(tf: Frame, selected: set<Frame>)
    requires forall f, g :: f in selected && Rank(f) < Rank(tf) && InChain(f, g) ==> g in selected
    ensures forall g :: g in AddRollupDependencies(tf, selected) <==> g in selected || InChain(tf, g)
    decreases Rank(tf)
  {
    hide Rank, Refines, RollupSource;
    if RollupSource(tf).Some? && RollupSource(tf).value != M1 {
      SourceRefines(tf);
      var source := RollupSource(tf).value;
      if source !in selected {
        DependenciesAdded(source, selected + {source});
      }
    }
  }

  lemma {:induction false} ChainTransitive(f: Frame, g: Frame, h: Frame)
    requires InChain(f, g) && InChain(g, h)
    ensures InChain(f, h)
    decreases Rank(f)
  {
    hide Rank, Refines, RollupSource, InChain;
    ChainStep(f, g);
    ChainStep(f, h);
    var source := RollupSource(f).value;
    SourceRefines(f);
    if source != g {
      ChainTransitive(source, g, h);
    }
  }

  /** The chain of a timeframe are all the feeding timeframes between it and the minutes. */
  lemma {:induction false} ChainIsFeeding(f: Frame, g: Frame)
    ensures InChain(f, g) <==> g in {M15, M30, H1, D1} && Rank(g) < Rank(f)
    decreases Rank(f)
  {
    hide Boundary, Aligned, RollupSource, Refines;
    SourceIsCoarsest(f);
    if f != M1 && RollupSource(f).value != M1 {
      ChainIsFeeding(RollupSource(f).value, g);
    }
  }

  /** What has to be kept for a list of requested timeframes. */
  ghost predicate Needed(frames: seq<Frame>, g: Frame) {
    exists f :: f in frames && Enabled(f) && (f == g || InChain(f, g))
  }

  /** The given timeframes in the service's order. */
  method InOrder(requested: set<Frame>) returns (kept: seq<Frame>)
    ensures forall g :: g in kept <==> g in ORDER && g in requested
    ensures forall i, j :: 0 <= i < j < |kept| ==> Rank(kept[i]) < Rank(kept[j])
  {
    hide Rank;
    kept := [];
    for j := 0 to |ORDER|
      invariant forall g :: g in kept <==> g in ORDER[..j] && g in requested
      invariant forall a, b :: 0 <= a < b < |kept| ==> Rank(kept[a]) < Rank(kept[b])
    {
      assert ORDER[..j + 1] == ORDER[..j] + [ORDER[j]];
      OrderedByRank(j);
      if ORDER[j] in requested {
        kept := kept + [ORDER[j]];
      }
    }
    assert ORDER[..|ORDER|] == ORDER;
  }

  method NormalizeFrames(frames: seq<Frame>) returns (kept: seq<Frame>)
    ensures var asked := if frames == [] then ORDER else frames;
            forall g :: g in kept <==> Needed(asked, g)
    ensures var asked := if frames == [] then ORDER else frames;
            forall g :: g in kept <==>
              exists f :: f in asked && f != D3 && (f == g || (g in {M15, M30, H1, D1} && Rank(g) < Rank(f)))
    ensures forall i, j :: 0 <= i < j < |kept| ==> Rank(kept[i]) < Rank(kept[j])
    ensures ChainClosed(kept) && forall g :: g in kept ==> Enabled(g)
  {
    hide InChain, Rank, RollupSource;
    var asked := if frames == [] then ORDER else frames;
    var requested: set<Frame> := {};
    for i := 0 to |asked|
      invariant forall g :: g in requested <==> Needed(asked[..i], g)
    {
      assert asked[..i + 1] == asked[..i] + [asked[i]];
      if !Enabled(asked[i]) {
        continue;
      }
      forall f, g | f in requested && InChain(f, g) ensures g in requested {
        NeededClosed(asked[..i], f, g);
      }
      ghost var before := requested;
      requested := requested + {asked[i]};
      ChainIrreflexive(asked[i]);
      DependenciesAdded(asked[i], requested);
      requested := AddRollupDependencies(asked[i], requested);
      forall g ensures g in requested <==> Needed(asked[..i + 1], g) {
        NeededStep(asked[..i], asked[i], g);
      }
    }
    assert asked[..|asked|] == asked;
    kept := InOrder(requested);
    AllInOrder();
    KeptClosed(asked, kept);
    forall g ensures Needed(asked, g) <==> exists f :: f in asked && f != D3 && (f == g || (g in {M15, M30, H1, D1} && Rank(g) < Rank(f))) {
      forall f ensures InChain(f, g) <==> g in {M15, M30, H1, D1} && Rank(g) < Rank(f) { ChainIsFeeding(f, g); }
    }
  }

  lemma ChainIrreflexive(f: Frame)
    ensures !InChain(f, f)
    ensures forall h, g :: h == f && Rank(h) < Rank(f) && InChain(h, g) ==> false
  {
    if InChain(f, f) {
      ChainBelow(f, f);
    }
  }

  lemma NeededClosed(frames: seq<Frame>, f: Frame, g: Frame)
    requires Needed(frames, f) && InChain(f, g)
    ensures Needed(frames, g)
  {
    hide InChain;
    var e :| e in frames && Enabled(e) && (e == f || InChain(e, f));
    if e != f { ChainTransitive(e, f, g); }
  }

  lemma NeededStep(frames: seq<Frame>, f: Frame, g: Frame)
    requires Enabled(f)
    ensures Needed(frames + [f], g) <==> Needed(frames, g) || f == g || InChain(f, g)
  {
    hide InChain, Enabled;
    if Needed(frames, g) {
      var e :| e in frames && Enabled(e) && (e == g || InChain(e, g));
      assert e in frames + [f];
    }
    assert f in frames + [f];
  }

  lemma OrderedByRank(j: nat)
    requires j < |ORDER|
    ensures Rank(ORDER[j]) == j
    ensures forall g :: g in ORDER[..j] ==> Rank(g) < j
  {
  }

  lemma AllInOrder()
    ensures forall g: Frame :: g in ORDER
  {
    forall g: Frame ensures g in ORDER {
      assert ORDER[Rank(g)] == g;
    }
  }

  lemma KeptClosed(asked: seq<Frame>, kept: seq<Frame>)
    requires forall g :: g in kept <==> Needed(asked, g)
    ensures ChainClosed(kept) && forall g :: g in kept ==> Enabled(g)
  {
    hide Enabled, RollupSource, Rank;
    forall g | g in kept ensures Enabled(g) {
      var e :| e in asked && Enabled(e) && (e == g || InChain(e, g));
      if e != g { ChainBelow(e, g); }
    }
    forall tf | tf in kept && RollupSource(tf).Some? && RollupSource(tf).value != M1
      ensures RollupSource(tf).value in kept
    {
      NeededClosed(asked, tf, RollupSource(tf).value);
    }
  }
}
