/**
 Interrupted refreshes (`ensure_fresh` and `_store` in quant/market_data/service.py).

 The freshness gate looks at the newest stored bar only. It may be trusted because
 bars are inserted oldest first: here a series is refreshed any number of times, each
 refresh dying after any number of its inserts, and no listed boundary of the window
 is ever left behind the newest stored bar.
 */
module CrashSafety {
  import opened Outcomes
  import opened Intervals
  import opened Fetcher
  import opened BarStore

  /** A call of `ensure_fresh` that gets through `survived` of its missing bars. */
  datatype Attempt = Attempt(now: int, lookback: int, survived: nat)

  /** The venue serves every boundary from `listing` on, and nothing before it. */
  ghost predicate Listed(venue: Venue, listing: int, period: int)
    requires period > 0
  {
    forall lo, hi :: ListedReply(venue(lo, hi), lo, hi, listing, period)
  }

  ghost predicate ListedReply(reply: Result<seq<Bar>, FetchError>, lo: int, hi: int, listing: int, period: int)
    requires period > 0
  {
    reply.Ok? ==>
      forall t :: t in ByTime(reply.value) <==> IsBoundary(t, period) && Later(lo, listing) <= t <= hi
  }

  /** The rows an attempt leaves. */
  ghost function Attempted(rows: Rows, series: Series, period: int, a: Attempt, venue: Venue): Rows
    requires period > 0
  {
    var newest := LastClosedBar(a.now, period);
    var missing := Gaps(rows, series, WindowStart(a.now, a.lookback, period), newest, period);
    if a.lookback < 1 || Fresh(rows, series, newest) || missing == [] then rows
    else
      match venue(missing[0], newest)
      case Err(_) => rows
      case Ok(bars) =>
        if Incomplete(missing, ByTime(bars), newest) then rows
        else StoreBars(rows, series,
                       missing[..if a.survived < |missing| then a.survived else |missing|], ByTime(bars)).0
  }

  /** An outcome `EnsureFresh` allows is an attempt that survives some number of inserts. */
  lemma EnsureFreshIsAttempt(rows: Rows, rows': Rows, r: Result<nat, BarError>, series: Series, period: int,
                             lookback: int, now: int, venue: Venue, faults: Faults)
    requires period > 0 && Refreshed(rows, rows', series, period, lookback, now, venue, faults, r)
    ensures exists n: nat :: rows' == Attempted(rows, series, period, Attempt(now, lookback, n), venue)
  {
    var newest := LastClosedBar(now, period);
    var missing := Gaps(rows, series, WindowStart(now, lookback, period), newest, period);
    var n: nat := |missing|;
    if r == Err(WriteFailed) {
      n :| n < |missing| && rows' == StoreBars(rows, series, missing[..n], ByTime(venue(missing[0], newest).value)).0;
    }
    assert missing[..|missing|] == missing;
    assert rows' == Attempted(rows, series, period, Attempt(now, lookback, n), venue);
  }

  ghost function AttemptedAll(rows: Rows, series: Series, period: int, attempts: seq<Attempt>, venue: Venue): Rows
    requires period > 0
  {
    if attempts == [] then rows
    else
      var n := |attempts| - 1;
      Attempted(AttemptedAll(rows, series, period, attempts[..n], venue), series, period, attempts[n], venue)
  }

  /** The clock never goes back and no call asks for a longer lookback than one before it. */
  ghost predicate Forward(attempts: seq<Attempt>) {
    forall i, j | 0 <= i < j < |attempts| ::
      attempts[i].now <= attempts[j].now && attempts[j].lookback <= attempts[i].lookback
  }

  /** Behind each stored bar, every listed boundary from `lo` on is stored. */
  ghost predicate HoleFree(rows: Rows, series: Series, lo: int, listing: int, period: int)
    requires period > 0
  {
    forall k | k in rows && k.series == series ::
      CompleteBetween(rows, series, Later(lo, listing), k.ts, period)
  }

  lemma WindowMovesForward(now: int, lookback: int, now': int, lookback': int, period: int)
    requires period > 0 && now <= now' && lookback' <= lookback
    ensures LastClosedBar(now, period) <= LastClosedBar(now', period)
    ensures WindowStart(now, lookback, period) <= WindowStart(now', lookback', period)
  {
    FloorIsGreatestBoundary(now, period);
    FloorIsGreatestBoundary(now', period);
    assert period * (lookback - lookback') >= 0;
    assert period * (lookback - 1) == period * (lookback' - 1) + period * (lookback - lookback');
  }

  lemma AttemptKeepsHoleFree(rows: Rows, series: Series, period: int, a: Attempt, venue: Venue, listing: int)
    requires period > 0 && Listed(venue, listing, period)
    requires HoleFree(rows, series, WindowStart(a.now, a.lookback, period), listing, period)
    ensures HoleFree(Attempted(rows, series, period, a, venue), series,
                     WindowStart(a.now, a.lookback, period), listing, period)
  {
    var lo, newest := WindowStart(a.now, a.lookback, period), LastClosedBar(a.now, period);
    var missing := Gaps(rows, series, lo, newest, period);
    if a.lookback >= 1 && !Fresh(rows, series, newest) && missing != [] && venue(missing[0], newest).Ok? {
      ListedReplies(venue, missing[0], newest, listing, period);
      var n := if a.survived < |missing| then a.survived else |missing|;
      PrefixKeepsHoleFree(rows, series, lo, newest, period, n,
                          ByTime(venue(missing[0], newest).value), listing);
    }
  }

  lemma ListedReplies(venue: Venue, lo: int, hi: int, listing: int, period: int)
    requires period > 0 && Listed(venue, listing, period)
    ensures ListedReply(venue(lo, hi), lo, hi, listing, period)
  {
  }

  lemma PrefixKeepsHoleFree(rows: Rows, series: Series, lo: int, newest: int, period: int, n: nat,
                            fetched: map<int, Bar>, listing: int)
    requires period > 0 && HoleFree(rows, series, lo, listing, period)
    requires forall t | t in fetched :: fetched[t].ts == t
    requires var missing := Gaps(rows, series, lo, newest, period);
             && n <= |missing| && missing != []
             && forall t :: t in fetched <==> IsBoundary(t, period) && Later(missing[0], listing) <= t <= newest
    ensures HoleFree(StoreBars(rows, series, Gaps(rows, series, lo, newest, period)[..n], fetched).0,
                     series, lo, listing, period)
  {
    var missing := Gaps(rows, series, lo, newest, period);
    GapsExact(rows, series, lo, newest, period);
    StoreBarsExact(rows, series, missing[..n], fetched);
    var rows' := StoreBars(rows, series, missing[..n], fetched).0;
    hide Gaps, StoreBars;
    forall k, b | k in rows' && k.series == series && IsBoundary(b, period) && Later(lo, listing) <= b <= k.ts
      ensures Stored(rows', series, b)
    {
      if k !in rows && !Stored(rows, series, b) {
        var j :| 0 <= j < n && missing[j] == k.ts;
        assert missing[j] in missing;
        var i :| 0 <= i < |missing| && missing[i] == b;
        assert missing[0] <= missing[i] <= missing[j];
        assert i <= j;
        assert missing[..n][i] == b;
      }
    }
  }

  /** No sequence of interrupted refreshes leaves a hole in the window. */
  lemma {:induction false} CrashesLeaveNoHole(rows: Rows, series: Series, period: int, attempts: seq<Attempt>,
                                               venue: Venue, listing: int)
    requires period > 0 && Listed(venue, listing, period)
    requires attempts != [] && Forward(attempts)
    requires HoleFree(rows, series, WindowStart(attempts[0].now, attempts[0].lookback, period), listing, period)
    ensures var last := attempts[|attempts| - 1];
            HoleFree(AttemptedAll(rows, series, period, attempts, venue), series,
                     WindowStart(last.now, last.lookback, period), listing, period)
    decreases |attempts|
  {
    var n := |attempts| - 1;
    var last := attempts[n];
    var before := AttemptedAll(rows, series, period, attempts[..n], venue);
    if n > 0 {
      var prev := attempts[n - 1];
      CrashesLeaveNoHole(rows, series, period, attempts[..n], venue, listing);
      assert attempts[..n][n - 1] == prev;
      WindowMovesForward(prev.now, prev.lookback, last.now, last.lookback, period);
    } else {
      assert before == rows;
    }
    AttemptKeepsHoleFree(before, series, period, last, venue, listing);
  }

  /**
   When the gate of a later call returns early, nothing listed is missing: the window it
   was asked for is stored from its start, or from the listing, to the newest closed bar.
   */
  lemma GateIsSound(rows: Rows, series: Series, period: int, attempts: seq<Attempt>, venue: Venue, listing: int,
                    now: int, lookback: int)
    requires period > 0 && Listed(venue, listing, period)
    requires attempts != [] && Forward(attempts)
    requires HoleFree(rows, series, WindowStart(attempts[0].now, attempts[0].lookback, period), listing, period)
    requires var last := attempts[|attempts| - 1]; last.now <= now && lookback <= last.lookback
    requires Fresh(AttemptedAll(rows, series, period, attempts, venue), series, LastClosedBar(now, period))
    ensures CompleteBetween(AttemptedAll(rows, series, period, attempts, venue), series,
                            Later(WindowStart(now, lookback, period), listing), LastClosedBar(now, period), period)
  {
    var last := attempts[|attempts| - 1];
    CrashesLeaveNoHole(rows, series, period, attempts, venue, listing);
    WindowMovesForward(last.now, last.lookback, now, lookback, period);
  }

  /**
   The docstring promises that a call leaves the newest `lookback` closed bars stored. When
   the gate returns early over a series with no hole between its oldest and newest bar, the
   promise is kept exactly when the oldest stored bar is no newer than the window's start.
   The coverage that the gate reads says which it is.
   */
  lemma GateIsRightExactly(rows: Rows, series: Series, period: int, now: int, lookback: int, oldest: int, newest: int)
    requires period > 0 && lookback >= 1
    requires IsOldest(rows, series, oldest) && IsNewest(rows, series, newest)
    requires CompleteBetween(rows, series, oldest, newest, period)
    requires Fresh(rows, series, LastClosedBar(now, period))
    ensures CompleteBetween(rows, series, WindowStart(now, lookback, period), LastClosedBar(now, period), period)
            <==> oldest <= WindowStart(now, lookback, period)
  {
    var start, closed := WindowStart(now, lookback, period), LastClosedBar(now, period);
    WindowStartsOnGrid(now, lookback, period);
    CoverageSaysFresh(rows, series, Some((oldest, newest)), closed);
    hide WindowStart, LastClosedBar;
    if CompleteBetween(rows, series, start, closed, period) {
      assert Stored(rows, series, start);
      assert Key(series, start) in rows;
    }
  }

  lemma WindowStartsOnGrid(now: int, lookback: int, period: int)
    requires period > 0 && lookback >= 1
    ensures IsBoundary(WindowStart(now, lookback, period), period)
    ensures WindowStart(now, lookback, period) <= LastClosedBar(now, period)
  {
    var newest := LastClosedBar(now, period);
    LastClosedBarIsNewest(now, period);
    BoundaryShift(newest, period, 1 - lookback);
    assert newest - period * (lookback - 1) == newest + (1 - lookback) * period;
    assert period * (lookback - 1) >= 0;
  }

  /** A first refresh of `a` bars makes the gate right about `b` bars iff `b <= a`. */
  lemma GateTrustsShorterLookbacksOnly(rows: Rows, series: Series, period: int, now: int, a: int, b: int,
                                       venue: Venue, listing: int)
    requires period > 0 && a >= 1 && b >= 1
    requires Empty(rows, series) && Listed(venue, listing, period)
    requires listing <= WindowStart(now, a, period) && (forall lo, hi :: venue(lo, hi).Ok?)
    ensures var missing := Gaps(rows, series, WindowStart(now, a, period), LastClosedBar(now, period), period);
            var rows' := Attempted(rows, series, period, Attempt(now, a, |missing|), venue);
            && Fresh(rows', series, LastClosedBar(now, period))
            && (CompleteBetween(rows', series, WindowStart(now, b, period), LastClosedBar(now, period), period)
                <==> b <= a)
  {
    var lo, newest := WindowStart(now, a, period), LastClosedBar(now, period);
    var missing := Gaps(rows, series, lo, newest, period);
    WindowStartsOnGrid(now, a, period);
    LastClosedBarIsNewest(now, period);
    FullAttempt(rows, series, period, now, a, venue, listing);
    hide Gaps, Attempted, IsBoundary, FloorToPeriod, CompleteBetween, Fresh, LastClosedBar, WindowStart;
    var rows' := Attempted(rows, series, period, Attempt(now, a, |missing|), venue);
    NewestGivesFresh(rows', series, newest);
    FilledExactly(rows', series, lo, newest, period);
    GateIsRightExactly(rows', series, period, now, b, lo, newest);
    if b <= a {
      WindowMovesForward(now, a, now, b, period);
    } else {
      LongerWindowStartsEarlier(now, a, b, period);
    }
  }

  /** A backfill of the newest bar alone passes the gate for every lookback, and all but the first are missing bars. */
  lemma NarrowBackfillPassesGate(rows: Rows, series: Series, period: int, now: int, lookback: int, venue: Venue, listing: int)
    requires period > 0 && lookback >= 1 && Empty(rows, series) && Listed(venue, listing, period)
    requires listing <= LastClosedBar(now, period) && (forall lo, hi :: venue(lo, hi).Ok?)
    ensures var newest := LastClosedBar(now, period);
            var rows' := BackfillRows(rows, series, newest, newest, period, venue);
            && Fresh(rows', series, newest)
            && (CompleteBetween(rows', series, WindowStart(now, lookback, period), newest, period) <==> lookback == 1)
  {
    var newest := LastClosedBar(now, period);
    LastClosedBarIsNewest(now, period);
    var rows' := BackfillRows(rows, series, newest, newest, period, venue);
    OnlyNewest(rows, rows', series, newest, period, venue, listing);
    hide BackfillRows, Fresh, CompleteBetween, IsBoundary, FloorToPeriod, LastClosedBar;
    NewestGivesFresh(rows', series, newest);
    if lookback > 1 {
      LongerWindowStartsEarlier(now, 1, lookback, period);
    }
    FilledExactly(rows', series, newest, newest, period);
    GateIsRightExactly(rows', series, period, now, lookback, newest, newest);
  }

  lemma OnlyNewest(rows: Rows, rows': Rows, series: Series, newest: int, period: int, venue: Venue, listing: int)
    requires period > 0 && IsBoundary(newest, period) && Empty(rows, series) && Listed(venue, listing, period) && listing <= newest
    requires forall lo, hi :: venue(lo, hi).Ok?
    requires rows' == BackfillRows(rows, series, newest, newest, period, venue)
    ensures forall t :: Stored(rows', series, t) <==> IsBoundary(t, period) && newest <= t <= newest
  {
    var missing := Gaps(rows, series, newest, newest, period);
    GapsExact(rows, series, newest, newest, period);
    assert Stored(rows, series, newest) ==> Key(series, newest) in rows;
    assert newest in missing && missing[0] in missing;
    var reply := venue(missing[0], newest);
    ListedReplies(venue, missing[0], newest, listing, period);
    StoreBarsExact(rows, series, missing, ByTime(reply.value));
    forall t
      ensures Stored(rows', series, t) <==> t == newest
    {
      assert Stored(rows, series, t) ==> Key(series, t) in rows;
    }
  }

  /** The rows are exactly the boundaries from `lo` through `newest`. */
  lemma FilledExactly(rows: Rows, series: Series, lo: int, newest: int, period: int)
    requires period > 0 && lo <= newest && IsBoundary(lo, period) && IsBoundary(newest, period)
    requires forall t :: Stored(rows, series, t) <==> IsBoundary(t, period) && lo <= t <= newest
    ensures IsOldest(rows, series, lo) && IsNewest(rows, series, newest) && CompleteBetween(rows, series, lo, newest, period)
  {
    forall k | k in rows && k.series == series
      ensures lo <= k.ts <= newest
    {
      assert k == Key(series, k.ts);
      assert Stored(rows, series, k.ts);
    }
  }

  lemma NewestGivesFresh(rows: Rows, series: Series, newest: int)
    requires Stored(rows, series, newest)
    ensures Fresh(rows, series, newest)
  {
    assert Key(series, newest) in rows && newest <= Key(series, newest).ts;
  }

  lemma LongerWindowStartsEarlier(now: int, a: int, b: int, period: int)
    requires period > 0 && 1 <= a < b
    ensures IsBoundary(WindowStart(now, b, period), period)
    ensures WindowStart(now, b, period) < WindowStart(now, a, period) <= LastClosedBar(now, period)
  {
    var newest := LastClosedBar(now, period);
    LastClosedBarIsNewest(now, period);
    BoundaryShift(newest, period, 1 - b);
    assert newest - period * (b - 1) == newest + (1 - b) * period;
    MultiplesApart(b - 1, a - 1, period);
    assert period * (a - 1) >= 0;
  }

  lemma FullAttempt(rows: Rows, series: Series, period: int, now: int, a: int, venue: Venue, listing: int)
    requires period > 0 && a >= 1
    requires Empty(rows, series) && Listed(venue, listing, period)
    requires listing <= WindowStart(now, a, period) && (forall lo, hi :: venue(lo, hi).Ok?)
    ensures var lo, newest := WindowStart(now, a, period), LastClosedBar(now, period);
            var missing := Gaps(rows, series, lo, newest, period);
            var rows' := Attempted(rows, series, period, Attempt(now, a, |missing|), venue);
            forall t :: Stored(rows', series, t) <==> IsBoundary(t, period) && lo <= t <= newest
  {
    var lo, newest := WindowStart(now, a, period), LastClosedBar(now, period);
    var missing := Gaps(rows, series, lo, newest, period);
    LastClosedBarIsNewest(now, period);
    NewestIsMissing(rows, series, a, newest, period);
    GapsExact(rows, series, lo, newest, period);
    NothingFresh(rows, series, newest);
    AlwaysListed(venue, missing[0], newest, listing, period);
    hide *;
    assert missing[0] in missing;
    var fetched := ByTime(venue(missing[0], newest).value);
    assert forall i | 0 <= i < |missing| :: missing[0] <= missing[i];
    AllFetched(missing, fetched, newest);
    StoreBarsExact(rows, series, missing, fetched);
    WholeAttempt(rows, series, period, now, a, venue);
  }

  lemma AlwaysListed(venue: Venue, lo: int, hi: int, listing: int, period: int)
    requires period > 0 && Listed(venue, listing, period) && venue(lo, hi).Ok?
    ensures forall t :: t in ByTime(venue(lo, hi).value) <==> IsBoundary(t, period) && Later(lo, listing) <= t <= hi
    ensures Later(lo, listing) == if lo < listing then listing else lo
  {
    ListedReplies(venue, lo, hi, listing, period);
  }

  lemma WholeAttempt(rows: Rows, series: Series, period: int, now: int, a: int, venue: Venue)
    requires period > 0 && a >= 1 && !Fresh(rows, series, LastClosedBar(now, period))
    requires var newest := LastClosedBar(now, period);
             var missing := Gaps(rows, series, WindowStart(now, a, period), newest, period);
             missing != [] && venue(missing[0], newest).Ok? && !Incomplete(missing, ByTime(venue(missing[0], newest).value), newest)
    ensures var newest := LastClosedBar(now, period);
            var missing := Gaps(rows, series, WindowStart(now, a, period), newest, period);
            Attempted(rows, series, period, Attempt(now, a, |missing|), venue)
            == StoreBars(rows, series, missing, ByTime(venue(missing[0], newest).value)).0
  {
    hide Fresh, Gaps, Incomplete, ByTime, StoreBars, LastClosedBar, WindowStart;
    var missing := Gaps(rows, series, WindowStart(now, a, period), LastClosedBar(now, period), period);
    assert missing[..|missing|] == missing;
  }

  lemma NothingFresh(rows: Rows, series: Series, newest: int)
    requires Empty(rows, series)
    ensures !Fresh(rows, series, newest) && forall t :: !Stored(rows, series, t)
  {
    assert forall t :: Key(series, t) in rows ==> Key(series, t).series != series;
  }

  lemma AllFetched(missing: seq<int>, fetched: map<int, Bar>, newest: int)
    requires forall t | t in missing :: t in fetched
    ensures !Incomplete(missing, fetched, newest)
  {
  }
}
