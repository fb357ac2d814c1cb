/** The service's verification of minutes against official candles. */
module MinuteVerification {
  import opened Timeframe
  import opened Rollup
  import opened Storage
  import opened Cascade
  import opened MarketService
  import opened VerifiedMinutes

  /** A cascade that starts at the minutes changes no minute. */
  lemma CascadeKeepsMinutes(rows: Rows, frames: seq<Frame>, changed: set<Key>, depth: nat)
    requires AtDepth(changed, depth)
    ensures SameMinutes(rows, CascadeRows(rows, frames, changed, depth))
  {
    hide CascadeRows;
    CascadeKeepsLower(rows, frames, changed, depth);
  }

  ghost predicate SameMinutes(rows: Rows, rows': Rows) {
    forall k: Key :: k.frame == M1 ==> (k in rows <==> k in rows') && (k in rows ==> rows[k] == rows'[k])
  }

  ghost predicate OfOneSeries(bars: seq<Bar>) {
    && (forall b :: b in bars ==> b.series == bars[0].series && b.frame == M1 && b.isFinal && Timely(KeyOf(b)))
    && (forall i, j :: 0 <= i < j < |bars| ==> bars[i].start <= bars[j].start)
  }

  ghost predicate Distinct(bars: seq<Bar>) {
    forall i, j :: 0 <= i < j < |bars| ==> bars[i].start < bars[j].start
  }

  /** Minutes either keep their row or take that of one of the bars, where no newer verification forbids it. */
  ghost predicate RevisedBy(rows: Rows, verifiedAt: map<Key, int>, bars: seq<Bar>, generation: int, rows': Rows) {
    forall k: Key :: k.frame == M1 ==>
      (k in rows ==> k in rows')
      && (k in rows' ==> (k in rows && rows'[k] == rows[k]) || TakenFrom(verifiedAt, bars, generation, k, rows'[k]))
  }

  ghost predicate TakenFrom(verifiedAt: map<Key, int>, bars: seq<Bar>, generation: int, key: Key, row: Bar) {
    row in bars && KeyOf(row) == key && Generation(verifiedAt, key) <= generation
  }

  method StoreRevision(store: MemoryStore, bar: Bar, generation: int) returns (ok: bool)
    requires generation > 0 && bar.frame == M1 && bar.isFinal
    modifies store`rows
    ensures ok <==> Generation(store.verifiedAt, KeyOf(bar)) <= generation
    ensures store.rows == if ok then old(store.rows)[KeyOf(bar) := bar] else old(store.rows)
  {
    ghost var before := store.rows;
    assert [bar][..0] == [] && [bar][..1] == [bar];
    assert Permitted(store.verifiedAt, [bar][..0], generation) == [];
    assert Overwritten(before, [bar][..0]) == before;
    var accepted := store.UpsertMinuteRevisions([bar], generation);
    ok := accepted.value != [];
  }

  /** What a revised minute does to the store once everything above it is brought up to date. */
  lemma RevisionCascades(rows: Rows, frames: seq<Frame>, bar: Bar)
    requires WellKeyed(rows) && bar.frame == M1 && bar.isFinal && Timely(KeyOf(bar))
    ensures AtDepth(FinalKeys([bar]), 0) && AllTimely(FinalKeys([bar]))
    ensures var after := CascadeRows(rows[KeyOf(bar) := bar], frames, FinalKeys([bar]), 0);
            && WellKeyed(after) && SameMinutes(rows[KeyOf(bar) := bar], after)
            && (Consistent(rows, frames) ==> Consistent(after, frames))
  {
    hide Timely, Consistent, CascadeRows;
    assert FinalKeys([bar]) == {KeyOf(bar)};
    CascadeKeepsMinutes(rows[KeyOf(bar) := bar], frames, FinalKeys([bar]), 0);
    CascadeKeepsKeys(rows[KeyOf(bar) := bar], frames, FinalKeys([bar]), 0);
    assert [bar][..|[bar]| - 1] == [];
    assert Upserted(rows, map[], []) == rows;
    assert Overwritten(rows, [bar]) == rows[KeyOf(bar) := bar];
    if Consistent(rows, frames) {
      PersistKeepsConsistent(rows, map[], frames, [bar], 0);
    }
  }

  /** Overwrites one minute with its official candle and brings everything above it up to date. */
  method ReviseMinute(service: Service, bar: Bar, generation: int) returns (ok: bool)
    requires WellKeyed(service.store.rows) && generation > 0
    requires bar.frame == M1 && bar.isFinal && Timely(KeyOf(bar))
    modifies service.store`rows
    ensures ok <==> Generation(service.store.verifiedAt, KeyOf(bar)) <= generation
    ensures !ok ==> service.store.rows == old(service.store.rows)
    ensures WellKeyed(service.store.rows)
    ensures Consistent(old(service.store.rows), service.frames) ==> Consistent(service.store.rows, service.frames)
    ensures ok ==> SameMinutes(old(service.store.rows)[KeyOf(bar) := bar], service.store.rows)
  {
    hide Timely, Consistent, CascadeRows, SameMinutes, AtDepth, AllTimely, FinalKeys;
    RevisionCascades(service.store.rows, service.frames, bar);
    ok := StoreRevision(service.store, bar, generation);
    if ok {
      service.RollupFinalBars([bar], true, 0);
    }
  }

  /** The stored final minutes of a range, by start. */
  method LoadExisting(store: MemoryStore, series: Series, lo: int, hi: int) returns (existing: map<int, VerifiedMinute>)
    requires WellKeyed(store.rows)
    ensures forall t :: t in existing <==> lo <= t <= hi && HasFinal(store.rows, Key(series, M1, t))
    ensures forall t :: t in existing ==>
              HasFinal(store.rows, Key(series, M1, t)) && existing[t] == VerifiedMinute(store.rows[Key(series, M1, t)], Generation(store.verifiedAt, Key(series, M1, t)))
  {
    hide RangeBars;
    ghost var bars := RangeBars(store.rows, series, M1, lo, hi);
    RangeContents(store.rows, series, M1, lo, hi);
    var found := store.LoadMinuteVerifications(series, lo, hi);
    existing := map[];
    for i := 0 to |found|
      invariant forall t :: t in existing <==> exists j :: 0 <= j < i && bars[j].start == t
      invariant forall t :: t in existing ==>
                  HasFinal(store.rows, Key(series, M1, t)) && existing[t] == VerifiedMinute(store.rows[Key(series, M1, t)], Generation(store.verifiedAt, Key(series, M1, t)))
    {
      assert bars[i] in bars && RowOfRange(store.rows, series, M1, lo, hi, bars[i]);
      existing := existing[found[i].bar.start := found[i]];
    }
    forall t ensures t in existing <==> lo <= t <= hi && HasFinal(store.rows, Key(series, M1, t)) {
      if t in existing {
        var j :| 0 <= j < |bars| && bars[j].start == t;
        assert bars[j] in bars && RowOfRange(store.rows, series, M1, lo, hi, bars[j]);
      }
    }
  }

  /** How far a verification has got after the first `i` bars. */
  ghost predicate Progress(rows0: Rows, verifiedAt: map<Key, int>, bars: seq<Bar>, i: nat, generation: int,
                           rows: Rows, toMark: seq<Bar>)
    requires i <= |bars|
  {
    && WellKeyed(rows) && RevisedBy(rows0, verifiedAt, bars[..i], generation, rows)
    && (forall j :: 0 <= j < i ==> Generation(verifiedAt, KeyOf(bars[j])) <= generation)
    && (forall b :: b in toMark ==> b in bars[..i])
    && (Distinct(bars) ==> forall j :: 0 <= j < i ==> Settled(rows0, verifiedAt, rows, toMark, bars[j]))
  }

  /** A bar that matches keeps the stored row, another one replaces it; all but the matching
      verified ones are to be marked. */
  ghost predicate Settled(rows0: Rows, verifiedAt: map<Key, int>, rows: Rows, toMark: seq<Bar>, bar: Bar) {
    && KeyOf(bar) in rows && rows[KeyOf(bar)] == (if Matches(rows0, bar) then rows0[KeyOf(bar)] else bar)
    && (bar in toMark <==> !(Matches(rows0, bar) && Generation(verifiedAt, KeyOf(bar)) > 0))
  }

  /** Only earlier bars have been revised, so the row of the next one is as it was. */
  lemma NotYetRevised(rows0: Rows, verifiedAt: map<Key, int>, bars: seq<Bar>, i: nat, generation: int, rows: Rows)
    requires i < |bars| && OfOneSeries(bars) && Distinct(bars)
    requires RevisedBy(rows0, verifiedAt, bars[..i], generation, rows) && KeyOf(bars[i]) in rows0
    ensures rows[KeyOf(bars[i])] == rows0[KeyOf(bars[i])]
  {
    var key := KeyOf(bars[i]);
    assert bars[i] in bars;
    assert forall j :: 0 <= j < i ==> bars[j].start < bars[i].start;
    assert !TakenFrom(verifiedAt, bars[..i], generation, key, rows[key]);
  }

  lemma NotYetListed(bars: seq<Bar>, i: nat, toMark: seq<Bar>)
    requires i < |bars| && Distinct(bars) && forall b :: b in toMark ==> b in bars[..i]
    ensures bars[i] !in toMark && forall j :: 0 <= j < i ==> bars[j] != bars[i]
  {
    assert forall j :: 0 <= j < i ==> bars[j].start < bars[i].start;
  }

  lemma KeptProgress(rows0: Rows, verifiedAt: map<Key, int>, bars: seq<Bar>, i: nat, generation: int,
                     rows: Rows, toMark: seq<Bar>, toMark': seq<Bar>)
    requires i < |bars| && OfOneSeries(bars) && Progress(rows0, verifiedAt, bars, i, generation, rows, toMark)
    requires Generation(verifiedAt, KeyOf(bars[i])) <= generation && Matches(rows0, bars[i])
    requires toMark' == if Generation(verifiedAt, KeyOf(bars[i])) > 0 then toMark else toMark + [bars[i]]
    requires forall k :: k in verifiedAt ==> verifiedAt[k] > 0
    ensures Progress(rows0, verifiedAt, bars, i + 1, generation, rows, toMark')
  {
    hide SameOfficialValues, Matches, RevisedBy, OfOneSeries, Distinct, WellKeyed;
    assert bars[..i + 1] == bars[..i] + [bars[i]];
    OneBarMore(rows0, verifiedAt, bars[..i], generation, rows, bars[i]);
    if Distinct(bars) {
      KeptSettles(rows0, verifiedAt, bars, i, generation, rows, toMark, toMark');
      forall j | 0 <= j < i ensures Settled(rows0, verifiedAt, rows, toMark', bars[j]) {
        NotYetListed(bars, i, toMark);
        StaysSettled(rows0, verifiedAt, rows, toMark, bars[j], bars[i], rows, toMark');
      }
    }
  }

  lemma OneBarMore(rows0: Rows, verifiedAt: map<Key, int>, bars: seq<Bar>, generation: int, rows: Rows, bar: Bar)
    requires RevisedBy(rows0, verifiedAt, bars, generation, rows)
    ensures RevisedBy(rows0, verifiedAt, bars + [bar], generation, rows)
  {
  }

  lemma KeptSettles(rows0: Rows, verifiedAt: map<Key, int>, bars: seq<Bar>, i: nat, generation: int,
                    rows: Rows, toMark: seq<Bar>, toMark': seq<Bar>)
    requires i < |bars| && OfOneSeries(bars) && Distinct(bars)
    requires RevisedBy(rows0, verifiedAt, bars[..i], generation, rows) && forall b :: b in toMark ==> b in bars[..i]
    requires Matches(rows0, bars[i])
    requires toMark' == if Generation(verifiedAt, KeyOf(bars[i])) > 0 then toMark else toMark + [bars[i]]
    ensures Settled(rows0, verifiedAt, rows, toMark', bars[i])
  {
    hide SameOfficialValues, TakenFrom;
    NotYetRevised(rows0, verifiedAt, bars, i, generation, rows);
    NotYetListed(bars, i, toMark);
    assert bars[i] in bars;
  }

  /** Settling one bar leaves another bar settled. */
  lemma StaysSettled(rows0: Rows, verifiedAt: map<Key, int>, rows: Rows, toMark: seq<Bar>, bar: Bar, other: Bar,
                     rows': Rows, toMark': seq<Bar>)
    requires Settled(rows0, verifiedAt, rows, toMark, bar) && bar != other
    requires toMark' == toMark || toMark' == toMark + [other]
    requires KeyOf(bar) in rows' && rows'[KeyOf(bar)] == rows[KeyOf(bar)]
    ensures Settled(rows0, verifiedAt, rows', toMark', bar)
  {
    hide Matches;
  }

  lemma RevisedProgress(rows0: Rows, verifiedAt: map<Key, int>, bars: seq<Bar>, i: nat, generation: int,
                        rows: Rows, toMark: seq<Bar>, rows': Rows)
    requires i < |bars| && OfOneSeries(bars) && Progress(rows0, verifiedAt, bars, i, generation, rows, toMark)
    requires Generation(verifiedAt, KeyOf(bars[i])) <= generation && !Matches(rows0, bars[i])
    requires WellKeyed(rows') && SameMinutes(rows[KeyOf(bars[i]) := bars[i]], rows')
    ensures Progress(rows0, verifiedAt, bars, i + 1, generation, rows', toMark + [bars[i]])
  {
    hide SameOfficialValues, Matches, RevisedBy, SameMinutes, OfOneSeries, Distinct, WellKeyed, Settled;
    var bar := bars[i];
    assert bars[..i + 1] == bars[..i] + [bar];
    RevisedByOneMore(rows0, verifiedAt, bars[..i], generation, rows, bar, rows');
    if Distinct(bars) {
      RevisedSettles(rows0, verifiedAt, bars, i, rows, toMark, rows');
      forall j | 0 <= j < i ensures Settled(rows0, verifiedAt, rows', toMark + [bar], bars[j]) {
        NotYetListed(bars, i, toMark);
        OtherRow(rows0, verifiedAt, bars, i, j, rows, toMark, rows');
        StaysSettled(rows0, verifiedAt, rows, toMark, bars[j], bar, rows', toMark + [bar]);
      }
    }
  }

  lemma RevisedSettles(rows0: Rows, verifiedAt: map<Key, int>, bars: seq<Bar>, i: nat, rows: Rows, toMark: seq<Bar>, rows': Rows)
    requires i < |bars| && OfOneSeries(bars) && !Matches(rows0, bars[i])
    requires SameMinutes(rows[KeyOf(bars[i]) := bars[i]], rows')
    ensures Settled(rows0, verifiedAt, rows', toMark + [bars[i]], bars[i])
  {
    hide Matches;
    assert bars[i] in bars;
    SameMinute(rows[KeyOf(bars[i]) := bars[i]], rows', KeyOf(bars[i]));
  }

  /** Revising one minute leaves the row of an earlier one alone. */
  lemma OtherRow(rows0: Rows, verifiedAt: map<Key, int>, bars: seq<Bar>, i: nat, j: nat, rows: Rows, toMark: seq<Bar>, rows': Rows)
    requires j < i < |bars| && OfOneSeries(bars) && Distinct(bars)
    requires Settled(rows0, verifiedAt, rows, toMark, bars[j]) && SameMinutes(rows[KeyOf(bars[i]) := bars[i]], rows')
    ensures KeyOf(bars[j]) in rows' && rows'[KeyOf(bars[j])] == rows[KeyOf(bars[j])]
  {
    hide Matches;
    assert bars[j] in bars && bars[j].start < bars[i].start;
    SameMinute(rows[KeyOf(bars[i]) := bars[i]], rows', KeyOf(bars[j]));
  }

  lemma SameMinute(rows: Rows, rows': Rows, key: Key)
    requires SameMinutes(rows, rows') && key.frame == M1
    ensures (key in rows <==> key in rows') && (key in rows ==> rows[key] == rows'[key])
  {
  }

  lemma RevisedByOneMore(rows0: Rows, verifiedAt: map<Key, int>, bars: seq<Bar>, generation: int, rows: Rows, bar: Bar, rows': Rows)
    requires RevisedBy(rows0, verifiedAt, bars, generation, rows)
    requires Generation(verifiedAt, KeyOf(bar)) <= generation && SameMinutes(rows[KeyOf(bar) := bar], rows')
    ensures RevisedBy(rows0, verifiedAt, bars + [bar], generation, rows')
  {
    forall k: Key | k.frame == M1 && k in rows'
      ensures (k in rows0 && rows'[k] == rows0[k]) || TakenFrom(verifiedAt, bars + [bar], generation, k, rows'[k])
    {
      if k == KeyOf(bar) {
        assert TakenFrom(verifiedAt, bars + [bar], generation, k, bar);
      } else if !(k in rows0 && rows'[k] == rows0[k]) {
        assert TakenFrom(verifiedAt, bars, generation, k, rows[k]);
      }
    }
  }

  /** Revises the minutes that differ and lists those to be marked. */
  method ReviseMinutes(service: Service, bars: seq<Bar>, generation: int) returns (ok: bool, toMark: seq<Bar>)
    requires bars != [] && OfOneSeries(bars) && generation > 0
    requires WellKeyed(service.store.rows) && forall k :: k in service.store.verifiedAt ==> service.store.verifiedAt[k] > 0
    modifies service.store`rows
    ensures WellKeyed(service.store.rows)
    ensures Consistent(old(service.store.rows), service.frames) ==> Consistent(service.store.rows, service.frames)
    ensures RevisedBy(old(service.store.rows), service.store.verifiedAt, bars, generation, service.store.rows)
    ensures ok ==> Progress(old(service.store.rows), service.store.verifiedAt, bars, |bars|, generation, service.store.rows, toMark)
    ensures ok <==> forall b :: b in bars ==> Generation(service.store.verifiedAt, KeyOf(b)) <= generation
  {
    hide SameOfficialValues, Consistent, RevisedBy, SameMinutes, Timely;
    var series := bars[0].series;
    ghost var rows0, verified0 := service.store.rows, service.store.verifiedAt;
    NothingRevised(rows0, verified0, generation);
    var existing := LoadExisting(service.store, series, bars[0].start, bars[|bars| - 1].start);
    toMark := [];
    assert bars[..0] == [];
    for i := 0 to |bars|
      invariant Consistent(rows0, service.frames) ==> Consistent(service.store.rows, service.frames)
      invariant Progress(rows0, verified0, bars, i, generation, service.store.rows, toMark)
    {
      var bar := bars[i];
      RevisedByPrefix(rows0, verified0, bars, i, generation, service.store.rows);
      assert bar in bars && KeyOf(bar) == Key(series, M1, bar.start);
      if bar.start in existing && existing[bar.start].verifiedAt > generation {
        return false, toMark;
      }
      if bar.start in existing && SameOfficialValues(existing[bar.start].bar, bar) {
        ghost var marked := toMark;
        if existing[bar.start].verifiedAt == 0 {
          toMark := toMark + [bar];
        }
        KeptProgress(rows0, verified0, bars, i, generation, service.store.rows, marked, toMark);
        continue;
      }
      assert bars[0].start <= bar.start <= bars[|bars| - 1].start;
      MatchesFinal(rows0, bar);
      assert !Matches(rows0, bar);
      ghost var rows := service.store.rows;
      var accepted := ReviseMinute(service, bar, generation);
      if !accepted {
        return false, toMark;
      }
      RevisedProgress(rows0, verified0, bars, i, generation, rows, toMark, service.store.rows);
      toMark := toMark + [bar];
    }
    RevisedByPrefix(rows0, verified0, bars, |bars|, generation, service.store.rows);
    ok := true;
  }

  lemma MatchesFinal(rows: Rows, bar: Bar)
    ensures Matches(rows, bar) ==> HasFinal(rows, KeyOf(bar))
  {
  }

  lemma NothingRevised(rows: Rows, verifiedAt: map<Key, int>, generation: int)
    ensures RevisedBy(rows, verifiedAt, [], generation, rows)
  {
  }

  lemma RevisedByPrefix(rows: Rows, verifiedAt: map<Key, int>, bars: seq<Bar>, i: nat, generation: int, rows': Rows)
    requires i <= |bars| && RevisedBy(rows, verifiedAt, bars[..i], generation, rows')
    ensures RevisedBy(rows, verifiedAt, bars, generation, rows')
  {
    forall k: Key | k.frame == M1 && k in rows' && !(k in rows && rows'[k] == rows[k])
      ensures TakenFrom(verifiedAt, bars, generation, k, rows'[k])
    {
      assert TakenFrom(verifiedAt, bars[..i], generation, k, rows'[k]);
    }
  }

  /** Generations change only for the listed bars, and then rise to `generation`. */
  ghost predicate RaisedBy(verifiedAt: map<Key, int>, bars: seq<Bar>, generation: int, verifiedAt': map<Key, int>) {
    forall k :: Generation(verifiedAt', k) != Generation(verifiedAt, k) ==>
      Generation(verifiedAt', k) == generation > Generation(verifiedAt, k) && exists b :: b in bars && KeyOf(b) == k
  }

  lemma MarksRaise(verifiedAt: map<Key, int>, batch: seq<Bar>, bars: seq<Bar>, generation: int)
    requires generation > 0 && forall b :: b in batch ==> b in bars
    ensures RaisedBy(verifiedAt, bars, generation, Marked(verifiedAt, batch, generation))
    ensures MarkedOnly(verifiedAt, batch, generation, Marked(verifiedAt, batch, generation))
  {
    forall k ensures Generation(Marked(verifiedAt, batch, generation), k) ==
              if (exists b :: b in batch && KeyOf(b) == k) && generation > Generation(verifiedAt, k) then generation
              else Generation(verifiedAt, k)
    {
      MarkedGeneration(verifiedAt, batch, generation, k);
    }
  }

  /** Exactly the listed bars have at least this generation now; all other generations are as before. */
  ghost predicate MarkedOnly(verifiedAt: map<Key, int>, batch: seq<Bar>, generation: int, verifiedAt': map<Key, int>) {
    forall k :: Generation(verifiedAt', k) ==
      if (exists b :: b in batch && KeyOf(b) == k) && generation > Generation(verifiedAt, k) then generation
      else Generation(verifiedAt, k)
  }

  method MarkRevised(store: MemoryStore, bars: seq<Bar>, toMark: seq<Bar>, generation: int) returns (ok: bool)
    requires generation > 0 && forall b :: b in toMark ==> b in bars
    modifies store`verifiedAt
    ensures RaisedBy(old(store.verifiedAt), bars, generation, store.verifiedAt)
    ensures ok <==> forall b :: b in toMark ==> Matches(store.rows, b)
    ensures ok ==> MarkedOnly(old(store.verifiedAt), toMark, generation, store.verifiedAt)
  {
    hide SameOfficialValues, RaisedBy, Marked, MarkedOnly, Matches;
    if |toMark| == 0 {
      NothingMarked(store.verifiedAt);
      MarksRaise(store.verifiedAt, [], bars, generation);
      return true;
    }
    ghost var before := store.verifiedAt;
    ok := store.MarkMinutesVerified(toMark, generation);
    if ok {
      MarksRaise(before, toMark, bars, generation);
    } else {
      ghost var n :| 0 <= n < |toMark| && store.verifiedAt == Marked(before, toMark[..n], generation);
      MarksRaise(before, toMark[..n], bars, generation);
    }
  }

  lemma NothingMarked(verifiedAt: map<Key, int>)
    ensures forall generation :: Marked(verifiedAt, [], generation) == verifiedAt
  {
  }

  /** No newer verification of the series or of one of the minutes is known. */
  ghost predicate Fresh(latest: map<Series, int>, verifiedAt: map<Key, int>, bars: seq<Bar>, generation: int)
    requires bars != []
  {
    && !(bars[0].series in latest && latest[bars[0].series] > generation)
    && forall b :: b in bars ==> Generation(verifiedAt, KeyOf(b)) <= generation
  }

  /** What verifying a minute comes to: a matching row stays, another one is replaced; the minute
      is verified, at this generation unless a matching row was verified before. */
  ghost predicate Verified(rows0: Rows, verified0: map<Key, int>, bar: Bar, generation: int, rows: Rows, verifiedAt: map<Key, int>) {
    var key, kept := KeyOf(bar), Matches(rows0, bar);
    && Matches(rows, bar) && rows[key] == (if kept then rows0[key] else bar)
    && Generation(verifiedAt, key) == (if kept && Generation(verified0, key) > 0 then Generation(verified0, key) else generation)
  }

  /** Verifies the minutes of one series against official candles fetched at `generation`. */
  method VerifySymbolMinutes(service: Service, bars: seq<Bar>, generation: int) returns (ok: bool)
    requires bars != [] && OfOneSeries(bars) && generation > 0
    requires WellKeyed(service.store.rows) && forall k :: k in service.store.verifiedAt ==> service.store.verifiedAt[k] > 0
    modifies service`latestVerification, service.store
    ensures WellKeyed(service.store.rows)
    ensures Consistent(old(service.store.rows), service.frames) ==> Consistent(service.store.rows, service.frames)
    ensures RevisedBy(old(service.store.rows), old(service.store.verifiedAt), bars, generation, service.store.rows)
    ensures RaisedBy(old(service.store.verifiedAt), bars, generation, service.store.verifiedAt)
    ensures ok ==> Fresh(old(service.latestVerification), old(service.store.verifiedAt), bars, generation)
    ensures Distinct(bars) && Fresh(old(service.latestVerification), old(service.store.verifiedAt), bars, generation) ==> ok
    ensures ok && Distinct(bars) ==>
              forall b :: b in bars ==> Verified(old(service.store.rows), old(service.store.verifiedAt), b, generation,
                                                 service.store.rows, service.store.verifiedAt)
    ensures var latest := old(service.latestVerification);
            if bars[0].series in latest && latest[bars[0].series] > generation then
              !ok && service.latestVerification == latest
              && service.store.rows == old(service.store.rows) && service.store.verifiedAt == old(service.store.verifiedAt)
            else service.latestVerification == latest[bars[0].series := generation]
  {
    hide SameOfficialValues, Consistent, RevisedBy, Timely, RaisedBy;
    var series := bars[0].series;
    ghost var rows0, verified0 := service.store.rows, service.store.verifiedAt;
    if series in service.latestVerification && service.latestVerification[series] > generation {
      assert bars[..0] == [];
      NothingRevised(rows0, verified0, generation);
      RevisedByPrefix(rows0, verified0, bars, 0, generation, rows0);
      NothingMarked(verified0);
      MarksRaise(verified0, [], bars, generation);
      return false;
    }
    service.latestVerification := service.latestVerification[series := generation];
    var revised, toMark := ReviseMinutes(service, bars, generation);
    if !revised {
      NothingMarked(verified0);
      MarksRaise(verified0, [], bars, generation);
      return false;
    }
    assert bars[..|bars|] == bars;
    if Distinct(bars) {
      forall b | b in toMark ensures Matches(service.store.rows, b) {
        SettledMatches(rows0, verified0, bars, generation, service.store.rows, toMark, b);
      }
    }
    ok := MarkRevised(service.store, bars, toMark, generation);
    if ok && Distinct(bars) {
      forall b | b in bars ensures Verified(rows0, verified0, b, generation, service.store.rows, service.store.verifiedAt) {
        SettledMatches(rows0, verified0, bars, generation, service.store.rows, toMark, b);
        OneBarPerKey(bars, toMark, b);
      }
    }
  }

  lemma SettledMatches(rows0: Rows, verifiedAt: map<Key, int>, bars: seq<Bar>, generation: int, rows: Rows, toMark: seq<Bar>, bar: Bar)
    requires Progress(rows0, verifiedAt, bars, |bars|, generation, rows, toMark) && Distinct(bars) && OfOneSeries(bars) && bar in bars
    ensures Matches(rows, bar) && Settled(rows0, verifiedAt, rows, toMark, bar) && Generation(verifiedAt, KeyOf(bar)) <= generation
  {
    hide SameOfficialValues, RevisedBy;
    var j :| 0 <= j < |bars| && bars[j] == bar;
    assert Settled(rows0, verifiedAt, rows, toMark, bars[j]);
    SameAsItself(bar);
  }

  lemma OneBarPerKey(bars: seq<Bar>, toMark: seq<Bar>, bar: Bar)
    requires Distinct(bars) && bar in bars && forall b :: b in toMark ==> b in bars
    ensures (exists b :: b in toMark && KeyOf(b) == KeyOf(bar)) <==> bar in toMark
  {
    forall b | b in bars && KeyOf(b) == KeyOf(bar) ensures b == bar {
      var i :| 0 <= i < |bars| && bars[i] == b;
      var j :| 0 <= j < |bars| && bars[j] == bar;
    }
  }
}
