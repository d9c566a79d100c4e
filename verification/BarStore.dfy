/**
 Keeping the stored bars of a series current (quant/market_data/service.py).

 PRICE_BAR is a map from its natural key to the row. A venue behind the service is a
 function from a requested range to the bars it returns, or a failure.
 */
module BarStore {
  import opened Outcomes
  import opened Intervals
  import opened Fetcher

  datatype Series = Series(cusip: string, interval: int, app: int)

  datatype Key = Key(series: Series, ts: int)

  type Rows = map<Key, Bar>

  type Venue = (int, int) -> Result<seq<Bar>, FetchError>

  /** Whether the database refuses a write for a reason other than a duplicate key. */
  type Faults = int -> bool

  datatype BarError = BadArgument | StaleBars | TooLarge | FetchFailed | WriteFailed

  const MAX_BACKFILL_BARS := 10_000

  // ── rows ───────────────────────────────────────────────────────────────

  ghost predicate ValidRows(rows: Rows) {
    forall k | k in rows :: rows[k].ts == k.ts
  }

  /** The series' stored rows all open on a boundary of `period`. */
  ghost predicate Gridded(rows: Rows, series: Series, period: int)
    requires period > 0
  {
    forall k | k in rows && k.series == series :: IsBoundary(k.ts, period)
  }

  /** No row of `rows` is changed or missing in `rows'`. */
  ghost predicate Extends(rows: Rows, rows': Rows) {
    forall k | k in rows :: k in rows' && rows'[k] == rows[k]
  }

  predicate Stored(rows: Rows, series: Series, ts: int) {
    Key(series, ts) in rows
  }

  /** `rows'` is `rows` with rows of this series added at boundaries of `[lo, hi]`. */
  ghost predicate Grown(rows: Rows, rows': Rows, series: Series, lo: int, hi: int, period: int)
    requires period > 0
  {
    && Extends(rows, rows')
    && forall k | k in rows' && k !in rows ::
         k.series == series && lo <= k.ts <= hi && IsBoundary(k.ts, period)
  }

  /** Every boundary in `[lo, hi]` has a row. */
  ghost predicate CompleteBetween(rows: Rows, series: Series, lo: int, hi: int, period: int)
    requires period > 0
  {
    forall b | IsBoundary(b, period) && lo <= b <= hi :: Stored(rows, series, b)
  }

  ghost predicate IsNewest(rows: Rows, series: Series, ts: int) {
    Stored(rows, series, ts) && forall k | k in rows && k.series == series :: k.ts <= ts
  }

  ghost predicate IsOldest(rows: Rows, series: Series, ts: int) {
    Stored(rows, series, ts) && forall k | k in rows && k.series == series :: ts <= k.ts
  }

  ghost predicate Empty(rows: Rows, series: Series) {
    forall k | k in rows :: k.series != series
  }

  /** The freshness gate of `ensure_fresh`: some stored bar is as new as `newest`. */
  ghost predicate Fresh(rows: Rows, series: Series, newest: int) {
    exists k :: k in rows && k.series == series && newest <= k.ts
  }

  // ── gaps and inserts ───────────────────────────────────────────────────

  function Unstored(expected: seq<int>, rows: Rows, series: Series): seq<int> {
    if expected == [] then []
    else (if Stored(rows, series, expected[0]) then [] else [expected[0]])
         + Unstored(expected[1..], rows, series)
  }

  /** What `find_gaps` returns. */
  function Gaps(rows: Rows, series: Series, lo: int, hi: int, period: int): seq<int>
    requires period > 0
  {
    Unstored(Boundaries(lo, hi, period), rows, series)
  }

  function ByTime(bars: seq<Bar>): (m: map<int, Bar>)
    ensures forall t | t in m :: m[t].ts == t && m[t] in bars
    ensures forall b | b in bars :: b.ts in m
  {
    if bars == [] then map[]
    else
      var last := bars[|bars| - 1];
      ByTime(bars[..|bars| - 1])[last.ts := last]
  }

  /** Where a reply gives two bars of one date, the later of them counts. */
  lemma {:induction false} LastOfDate(bars: seq<Bar>, i: nat)
    requires i < |bars| && forall j | i < j < |bars| :: bars[j].ts != bars[i].ts
    ensures bars[i].ts in ByTime(bars) && ByTime(bars)[bars[i].ts] == bars[i]
  {
    if i < |bars| - 1 {
      LastOfDate(bars[..|bars| - 1], i);
    }
  }

  function InsertRow(rows: Rows, series: Series, bar: Bar): (Rows, bool) {
    var key := Key(series, bar.ts);
    if key in rows then (rows, false) else (rows[key := bar], true)
  }

  /** `_store` over a prefix of `missing`: the rows it leaves and how many it added. */
  function StoreBars(rows: Rows, series: Series, missing: seq<int>, fetched: map<int, Bar>): (Rows, nat) {
    if missing == [] then (rows, 0)
    else
      var ts := missing[|missing| - 1];
      var (before, count) := StoreBars(rows, series, missing[..|missing| - 1], fetched);
      if ts !in fetched then (before, count)
      else
        var (after, won) := InsertRow(before, series, fetched[ts]);
        (after, if won then count + 1 else count)
  }

  function Unfilled(missing: seq<int>, fetched: map<int, Bar>): seq<int> {
    if missing == [] then []
    else (if missing[0] in fetched then [] else [missing[0]]) + Unfilled(missing[1..], fetched)
  }

  /** A missing boundary the venue did not return although it returned an older bar. */
  ghost predicate IsHole(ts: int, missing: seq<int>, fetched: map<int, Bar>) {
    ts in missing && ts !in fetched && exists t :: t in fetched && t < ts
  }

  /** What `_reject_incomplete` refuses. */
  ghost predicate Incomplete(missing: seq<int>, fetched: map<int, Bar>, newest: int) {
    (newest in missing && newest !in fetched) || exists ts :: IsHole(ts, missing, fetched)
  }

  lemma UnstoredStep(expected: seq<int>, i: nat, rows: Rows, series: Series)
    requires i < |expected|
    ensures Unstored(expected[i..], rows, series)
            == (if Stored(rows, series, expected[i]) then [] else [expected[i]]) + Unstored(expected[i + 1..], rows, series)
  {
    assert expected[i..][0] == expected[i] && expected[i..][1..] == expected[i + 1..];
  }

  lemma NoneUnstored(rows: Rows, series: Series)
    ensures Unstored([], rows, series) == []
  {
  }

  /** A boundary is stored exactly when a bar read for the range opens on it. */
  lemma StoredInBars(rows: Rows, series: Series, bars: seq<Bar>, lo: int, hi: int, ts: int)
    requires ValidRows(rows) && lo <= ts <= hi
    requires forall b :: b in bars <==> lo <= b.ts <= hi && Stored(rows, series, b.ts) && rows[Key(series, b.ts)] == b
    ensures Stored(rows, series, ts) <==> ts in set b | b in bars :: b.ts
  {
    if Stored(rows, series, ts) {
      assert rows[Key(series, ts)] in bars;
    }
  }

  lemma {:induction false} UnstoredMembers(expected: seq<int>, rows: Rows, series: Series)
    ensures forall t :: t in Unstored(expected, rows, series)
                        <==> t in expected && !Stored(rows, series, t)
  {
    if expected != [] {
      UnstoredMembers(expected[1..], rows, series);
      assert forall t :: t in expected <==> t == expected[0] || t in expected[1..];
      hide Stored;
    }
  }

  lemma AscendingCons(first: int, rest: seq<int>)
    requires Ascending(rest) && forall t | t in rest :: first < t
    ensures Ascending([first] + rest)
  {
    assert forall j | 0 <= j < |rest| :: rest[j] in rest;
  }

  lemma FirstIsLeast(s: seq<int>)
    requires s != [] && Ascending(s)
    ensures Ascending(s[1..]) && forall t | t in s[1..] :: s[0] < t
  {
  }

  lemma {:induction false} UnstoredExact(expected: seq<int>, rows: Rows, series: Series)
    requires Ascending(expected)
    ensures Ascending(Unstored(expected, rows, series))
    ensures forall t :: t in Unstored(expected, rows, series)
                        <==> t in expected && !Stored(rows, series, t)
  {
    UnstoredMembers(expected, rows, series);
    if expected != [] {
      FirstIsLeast(expected);
      UnstoredExact(expected[1..], rows, series);
      AscendingCons(expected[0], Unstored(expected[1..], rows, series));
      hide Stored, Ascending;
      assert [] + Unstored(expected[1..], rows, series) == Unstored(expected[1..], rows, series);
    }
  }

  /** `find_gaps` lists, oldest first, exactly the boundaries of the range with no row. */
  lemma GapsExact(rows: Rows, series: Series, lo: int, hi: int, period: int)
    requires period > 0
    ensures Ascending(Gaps(rows, series, lo, hi, period))
    ensures forall t :: t in Gaps(rows, series, lo, hi, period)
                        <==> IsBoundary(t, period) && lo <= t <= hi && !Stored(rows, series, t)
    ensures Gaps(rows, series, lo, hi, period) == []
            <==> CompleteBetween(rows, series, lo, hi, period)
  {
    BoundariesExact(lo, hi, period);
    UnstoredExact(Boundaries(lo, hi, period), rows, series);
    var gaps := Gaps(rows, series, lo, hi, period);
    if gaps != [] {
      assert gaps[0] in gaps;
    }
  }

  lemma {:induction false} UnfilledExact(missing: seq<int>, fetched: map<int, Bar>)
    ensures forall t :: t in Unfilled(missing, fetched) <==> t in missing && t !in fetched
  {
    if missing != [] {
      UnfilledExact(missing[1..], fetched);
      assert forall t :: t in missing <==> t == missing[0] || t in missing[1..];
    }
  }

  /** What one pass of inserts does to the store. */
  lemma {:induction false} StoreBarsExact(rows: Rows, series: Series, missing: seq<int>, fetched: map<int, Bar>)
    requires forall t | t in fetched :: fetched[t].ts == t
    ensures var (rows', count) := StoreBars(rows, series, missing, fetched);
            && Extends(rows, rows')
            && (forall k :: k in rows' <==>
                  k in rows || (k.series == series && k.ts in missing && k.ts in fetched))
            && (forall k | k in rows' && k !in rows :: rows'[k] == fetched[k.ts])
            && count == |rows'| - |rows|
  {
    if missing != [] {
      var n := |missing| - 1;
      StoreBarsExact(rows, series, missing[..n], fetched);
      assert forall t :: t in missing <==> t in missing[..n] || t == missing[n];
    }
  }

  /** Storing a prefix of the missing bars and then the rest is storing them all. */
  lemma {:induction false} StoreBarsSplit(rows: Rows, series: Series, a: seq<int>, b: seq<int>, fetched: map<int, Bar>)
    ensures StoreBars(StoreBars(rows, series, a, fetched).0, series, b, fetched).0
            == StoreBars(rows, series, a + b, fetched).0
  {
    if b == [] {
      assert a + b == a;
    } else {
      var n := |b| - 1;
      StoreBarsSplit(rows, series, a, b[..n], fetched);
      assert (a + b)[..|a| + n] == a + b[..n];
    }
  }

  // ── the repository and the service ─────────────────────────────────────

  /** `bars` are the series' stored rows dated in `[lo, hi]`, oldest first. */
  ghost predicate IsRange(bars: seq<Bar>, rows: Rows, series: Series, lo: int, hi: int) {
    && (forall i, j | 0 <= i < j < |bars| :: bars[i].ts < bars[j].ts)
    && forall b :: b in bars <==> lo <= b.ts <= hi && Stored(rows, series, b.ts) && rows[Key(series, b.ts)] == b
  }

  class PriceBarRepo {
    var rows: Rows

    ghost predicate Valid()
      reads this
    {
      ValidRows(rows)
    }

    constructor ()
      ensures Valid() && rows == map[]
    {
      rows := map[];
    }

    /** Oldest and newest stored open times of one series. */
    method GetCoverage(series: Series) returns (r: Option<(int, int)>)
      ensures r.None? <==> Empty(rows, series)
      ensures r.Some? ==> IsOldest(rows, series, r.value.0) && IsNewest(rows, series, r.value.1)
    {
      r := None;
      var todo := rows.Keys;
      while todo != {}
        invariant todo <= rows.Keys
        invariant r.None? <==> forall k | k in rows && k !in todo :: k.series != series
        invariant r.Some? ==>
                    && Stored(rows, series, r.value.0) && Stored(rows, series, r.value.1)
                    && forall k | k in rows && k !in todo && k.series == series ::
                         r.value.0 <= k.ts <= r.value.1
        decreases todo
      {
        var k :| k in todo;
        todo := todo - {k};
        if k.series == series {
          assert k == Key(series, k.ts);
          r := match r
               case None => Some((k.ts, k.ts))
               case Some((lo, hi)) =>
                 Some((if k.ts < lo then k.ts else lo, if k.ts > hi then k.ts else hi));
        }
      }
    }

    /** The rows of one series in `[lo, hi]`, oldest first. */
    method GetBars(series: Series, lo: int, hi: int) returns (bars: seq<Bar>)
      requires Valid()
      ensures IsRange(bars, rows, series, lo, hi)
    {
      bars := [];
      var todo := set k | k in rows && k.series == series && lo <= k.ts <= hi;
      while todo != {}
        invariant forall k | k in todo :: k in rows && k.series == series && lo <= k.ts <= hi
        invariant forall i, j | 0 <= i < j < |bars| :: bars[i].ts < bars[j].ts
        invariant forall b, k | b in bars && k in todo :: b.ts < k.ts
        invariant forall b :: b in bars <==>
                    && lo <= b.ts <= hi && Stored(rows, series, b.ts)
                    && rows[Key(series, b.ts)] == b && Key(series, b.ts) !in todo
        decreases todo
      {
        var next := OldestKey(todo);
        bars := bars + [rows[next]];
        todo := todo - {next};
      }
    }

    /** A plain INSERT: `Ok(false)` is the unique violation another worker's row causes. */
    method InsBar(series: Series, bar: Bar, faults: Faults) returns (r: Result<bool, BarError>)
      modifies this
      ensures faults(bar.ts) ==> r == Err(WriteFailed) && rows == old(rows)
      ensures !faults(bar.ts) ==>
                r.Ok? && (rows, r.value) == InsertRow(old(rows), series, bar)
    {
      if faults(bar.ts) {
        return Err(WriteFailed);
      }
      if Key(series, bar.ts) in rows {
        return Ok(false);
      }
      rows := rows[Key(series, bar.ts) := bar];
      return Ok(true);
    }
  }

  method OldestKey(keys: set<Key>) returns (oldest: Key)
    requires keys != {}
    requires forall k, k' | k in keys && k' in keys :: k.series == k'.series
    ensures oldest in keys && forall k | k in keys && k != oldest :: oldest.ts < k.ts
  {
    oldest :| oldest in keys;
    var todo := keys - {oldest};
    while todo != {}
      invariant oldest in keys && todo <= keys
      invariant forall k | k in keys && k !in todo && k != oldest :: oldest.ts < k.ts
      invariant oldest !in todo
      decreases todo
    {
      var k :| k in todo;
      todo := todo - {k};
      if k.ts < oldest.ts {
        oldest := k;
      }
    }
  }

  datatype BackfillResult = BackfillResult(
    start: int, end: int, expected: nat, missing: nat, inserted: nat, unfilled: seq<int>)
  {
    predicate IsContinuous() {
      unfilled == []
    }
  }

  /** Python's `int(a / period)`, which truncates toward zero. */
  function TruncDiv(a: int, period: int): int
    requires period > 0
  {
    if a >= 0 then a / period else -((-a) / period)
  }

  lemma SpanCounts(span: int, period: int)
    requires period > 0 && span >= 0
    ensures TruncDiv(span, period) + 1 > MAX_BACKFILL_BARS <==> span >= MAX_BACKFILL_BARS * period
  {
    var n := span / period;
    assert span == n * period + span % period;
    hide TruncDiv;
    if n >= MAX_BACKFILL_BARS {
      ProductGrows(MAX_BACKFILL_BARS, n, period);
    } else {
      ProductGrows(n + 1, MAX_BACKFILL_BARS, period);
    }
    assert TruncDiv(span, period) == n by { TruncIs(span, period); }
  }

  lemma ProductGrows(a: int, b: int, period: int)
    requires a <= b && period > 0
    ensures a * period <= b * period
  {
  }

  lemma TruncIs(span: int, period: int)
    requires period > 0 && span >= 0
    ensures TruncDiv(span, period) == span / period
  {
  }

  /** The window is of exactly `lookback` boundaries, the newest closed one last. */
  lemma WindowExact(now: int, lookback: int, period: int)
    requires period > 0 && lookback >= 1
    ensures var window := Boundaries(WindowStart(now, lookback, period), LastClosedBar(now, period), period);
            |window| == lookback && window[lookback - 1] == LastClosedBar(now, period)
  {
    var newest, start := LastClosedBar(now, period), WindowStart(now, lookback, period);
    LastClosedBarIsNewest(now, period);
    BoundaryShift(newest, period, 1 - lookback);
    assert newest + (1 - lookback) * period == start && start + (lookback - 1) * period == newest;
    BoundaryCount(start, lookback, period);
    BoundariesExact(start, newest, period);
    var window := Boundaries(start, newest, period);
    hide Boundaries, LastClosedBar, WindowStart, IsBoundary;
    assert newest in window;
    var i :| 0 <= i < |window| && window[i] == newest;
    assert window[lookback - 1] in window;
  }

  /** The window `ensure_fresh` keeps: the newest `lookback` closed bars. */
  function WindowStart(now: int, lookback: int, period: int): int
    requires period > 0
  {
    LastClosedBar(now, period) - period * (lookback - 1)
  }

  class PriceBarService {
    const repo: PriceBarRepo

    constructor (repo: PriceBarRepo)
      ensures this.repo == repo
    {
      this.repo := repo;
    }

    method FindGaps(series: Series, lo: int, hi: int, period: int) returns (gaps: seq<int>)
      requires period > 0 && repo.Valid()
      ensures gaps == Gaps(repo.rows, series, lo, hi, period)
    {
      hide Unstored, Stored, Boundaries;
      var expected := BarStarts(lo, hi, period);
      BoundariesExact(lo, hi, period);
      var bars := repo.GetBars(series, lo, hi);
      var stored := set b | b in bars :: b.ts;
      gaps := [];
      for i := 0 to |expected|
        invariant gaps + Unstored(expected[i..], repo.rows, series) == Unstored(expected, repo.rows, series)
      {
        var ts := expected[i];
        UnstoredStep(expected, i, repo.rows, series);
        assert ts in expected;
        StoredInBars(repo.rows, series, bars, lo, hi, ts);
        if ts !in stored {
          gaps := gaps + [ts];
        }
      }
      assert expected[|expected|..] == [];
      NoneUnstored(repo.rows, series);
    }

    /** Inserts oldest first, so a write that fails leaves a prefix of the bars stored. */
    method Store(series: Series, missing: seq<int>, fetched: map<int, Bar>, faults: Faults)
      returns (r: Result<nat, BarError>)
      requires forall t | t in fetched :: fetched[t].ts == t
      modifies repo
      ensures r.Ok? ==> (repo.rows, r.value) == StoreBars(old(repo.rows), series, missing, fetched)
      ensures r.Err? ==>
                && r.error == WriteFailed
                && WrittenInPart(old(repo.rows), repo.rows, series, missing, fetched, faults)
      ensures r.Err? <==> WriteFails(missing, fetched, faults)
    {
      var inserted := 0;
      for i := 0 to |missing|
        invariant forall j | 0 <= j < i :: missing[j] in fetched ==> !faults(missing[j])
        invariant (repo.rows, inserted) == StoreBars(old(repo.rows), series, missing[..i], fetched)
      {
        assert missing[..i + 1][..i] == missing[..i];
        var ts := missing[i];
        if ts in fetched {
          var won := repo.InsBar(series, fetched[ts], faults);
          if won.Err? {
            return Err(WriteFailed);
          }
          if won.value {
            inserted := inserted + 1;
          }
        }
      }
      assert missing[..|missing|] == missing;
      return Ok(inserted);
    }

    method RejectIncomplete(missing: seq<int>, fetched: map<int, Bar>, newest: int)
      returns (refused: bool)
      requires missing != []
      ensures refused <==> Incomplete(missing, fetched, newest)
    {
      var unfilled := Unfilled(missing, fetched);
      UnfilledExact(missing, fetched);
      if unfilled == [] {
        assert forall t | t in missing && t !in fetched :: t in unfilled;
        return false;
      }
      if newest in unfilled {
        return true;
      }
      for i := 0 to |unfilled|
        invariant forall j | 0 <= j < i :: !IsHole(unfilled[j], missing, fetched)
      {
        if exists t :: t in fetched.Keys && t < unfilled[i] {
          assert unfilled[i] in unfilled;
          assert IsHole(unfilled[i], missing, fetched);
          return true;
        }
      }
      assert forall ts | IsHole(ts, missing, fetched) :: ts in unfilled;
      return false;
    }

    /**
     Makes the newest `lookback` closed bars current, or refuses and writes nothing.
     A call that gets past the freshness gate and returns leaves every boundary from the
     oldest bar the venue supplied through the newest closed bar stored.
     */
    method EnsureFresh(series: Series, period: int, lookback: int, now: int, venue: Venue, faults: Faults)
      returns (r: Result<nat, BarError>)
      requires period > 0 && repo.Valid()
      modifies repo
      ensures repo.Valid()
      ensures Grown(old(repo.rows), repo.rows, series,
                    WindowStart(now, lookback, period), LastClosedBar(now, period), period)
      ensures r.Ok? ==> r.value == |repo.rows| - |old(repo.rows)|
      ensures Refreshed(old(repo.rows), repo.rows, series, period, lookback, now, venue, faults, r)
      ensures r.Ok? && !Fresh(old(repo.rows), series, LastClosedBar(now, period)) ==>
                var newest := LastClosedBar(now, period);
                var lo := WindowStart(now, lookback, period);
                Covered(repo.rows, series, lo, newest, period,
                        venue(Gaps(old(repo.rows), series, lo, newest, period)[0], newest).value)
    {
      hide StoreBars, ByTime, Incomplete, FloorToPeriod, IsBoundary, Covered, Grown, Fresh, Refilled, Gaps;
      NothingGrows(repo.rows, series, WindowStart(now, lookback, period), LastClosedBar(now, period), period);
      if lookback < 1 {
        return Err(BadArgument);
      }
      var newest := LastClosedBar(now, period);
      LastClosedBarIsNewest(now, period);
      var windowStart := newest - period * (lookback - 1);
      var coverage := repo.GetCoverage(series);
      CoverageSaysFresh(repo.rows, series, coverage, newest);
      if coverage.Some? && coverage.value.1 >= newest {
        return Ok(0);
      }
      var missing := FindGaps(series, windowStart, newest, period);
      NewestIsMissing(repo.rows, series, lookback, newest, period);
      if missing == [] {
        assert false;
      }
      ghost var rows := repo.rows;
      var reply := venue(missing[0], newest);
      if reply.Err? {
        RefillRefused(rows, series, missing, newest, reply, faults);
        return Err(FetchFailed);
      }
      var fetched := ByTime(reply.value);
      var refused := RejectIncomplete(missing, fetched, newest);
      if refused {
        RefillRefused(rows, series, missing, newest, reply, faults);
        return Err(StaleBars);
      }
      r := Store(series, missing, fetched, faults);
      if r.Err? {
        RefillStopped(rows, repo.rows, series, missing, newest, reply, faults);
        ghost var n: nat :| n < |missing| && repo.rows == StoreBars(rows, series, missing[..n], fetched).0;
        StoreGrows(rows, series, windowStart, newest, period, n, fetched);
      } else {
        assert missing[..|missing|] == missing;
        RefillDone(rows, repo.rows, r.value, series, missing, newest, reply, faults);
        CompleteAfterStore(rows, repo.rows, series, missing, reply.value, windowStart, newest, period);
        StoreGrows(rows, series, windowStart, newest, period, |missing|, fetched);
      }
    }

    /** Fills the holes of an explicit range and reports the boundaries it could not. */
    method Backfill(series: Series, period: int, start: int, until: Option<int>, now: int,
                    venue: Venue, faults: Faults)
      returns (r: Result<BackfillResult, BarError>)
      requires period > 0 && repo.Valid()
      modifies repo
      ensures repo.Valid() && Extends(old(repo.rows), repo.rows)
      ensures r.Err? && r.error != WriteFailed ==> repo.rows == old(repo.rows)
      ensures var end := if until.Some? then until.value else LastClosedBar(now, period);
              && (r == Err(BadArgument) <==> start > end)
              && (r == Err(TooLarge) <==> start <= end && end - start >= MAX_BACKFILL_BARS * period)
              && (r.Ok? ==>
                    && repo.rows == BackfillRows(old(repo.rows), series, start, end, period, venue)
                    && r.value.start == start && r.value.end == end
                    && r.value.expected == |Boundaries(start, end, period)|
                    && r.value.missing == |Gaps(old(repo.rows), series, start, end, period)|
                    && r.value.inserted == |repo.rows| - |old(repo.rows)|
                    && r.value.inserted + |r.value.unfilled| == r.value.missing
                    && r.value.unfilled == Gaps(repo.rows, series, start, end, period)
                    && (r.value.IsContinuous() <==> CompleteBetween(repo.rows, series, start, end, period)))
              && (start <= end && end - start < MAX_BACKFILL_BARS * period ==>
                    BackfillEnds(old(repo.rows), repo.rows, series, end, Gaps(old(repo.rows), series, start, end, period),
                                 venue, faults, r))
    {
      hide StoreBars, ByTime, Gaps, Boundaries, Unfilled;
      var end := if until.Some? then until.value else LastClosedBar(now, period);
      if start > end {
        return Err(BadArgument);
      }
      var span := TruncDiv(end - start, period) + 1;
      SpanCounts(end - start, period);
      if span > MAX_BACKFILL_BARS {
        return Err(TooLarge);
      }
      var missing := FindGaps(series, start, end, period);
      var expected := BarStarts(start, end, period);
      GapsExact(repo.rows, series, start, end, period);
      if missing == [] {
        return Ok(BackfillResult(start, end, |expected|, 0, 0, []));
      }
      var reply := venue(missing[0], end);
      if reply.Err? {
        return Err(FetchFailed);
      }
      var fetched := ByTime(reply.value);
      var inserted := Store(series, missing, fetched, faults);
      if inserted.Err? {
        ghost var n: nat :| n < |missing| && repo.rows == StoreBars(old(repo.rows), series, missing[..n], fetched).0;
        StoreBarsExact(old(repo.rows), series, missing[..n], fetched);
        return Err(WriteFailed);
      }
      StoreBarsExact(old(repo.rows), series, missing, fetched);
      var unfilled := Unfilled(missing, fetched);
      UnfilledAreGaps(old(repo.rows), repo.rows, series, start, end, period, fetched);
      GapsExact(repo.rows, series, start, end, period);
      InsertedAndUnfilled(old(repo.rows), series, missing, fetched);
      return Ok(BackfillResult(start, end, |expected|, |missing|, inserted.value, unfilled));
    }

    /**
     The newest `lookback` bars, the last of them the still-open one when `includeForming`.
     The frame is strictly ascending, never shorter than 80% of `lookback` and, on a grid,
     never longer than `lookback`; the open bar is read from the venue and not stored.
     */
    method LoadWindow(series: Series, period: int, lookback: int, now: int, venue: Venue, faults: Faults,
                      includeForming: bool)
      returns (r: Result<seq<Bar>, BarError>, ghost refreshed: Result<nat, BarError>)
      requires period > 0 && repo.Valid()
      modifies repo
      ensures repo.Valid()
      ensures Grown(old(repo.rows), repo.rows, series,
                    WindowStart(now, lookback, period), LastClosedBar(now, period), period)
      ensures Refreshed(old(repo.rows), repo.rows, series, period, lookback, now, venue, faults, refreshed)
      ensures LoadEnds(repo.rows, series, period, lookback, now, venue, includeForming, refreshed, r)
      ensures r.Ok? ==> 5 * |r.value| >= 4 * lookback
      ensures r.Ok? && Gridded(repo.rows, series, period) ==> |r.value| <= lookback
    {
      hide Refreshed, Covered, Gaps, Fresh, Grown, StoreBars, WindowKeys, LastClosedBar, FloorToPeriod, Gridded, IsRange, ByTime;
      refreshed := Err(BadArgument);
      var refresh := EnsureFresh(series, period, lookback, now, venue, faults);
      refreshed := refresh;
      if refresh.Err? {
        return Err(refresh.error), refreshed;
      }
      var newest := LastClosedBar(now, period);
      var closed := if includeForming then lookback - 1 else lookback;
      var bars: seq<Bar> := [];
      AtLeastOne(old(repo.rows), repo.rows, series, period, lookback, now, venue, faults, refresh);
      if closed >= 1 {
        bars := repo.GetBars(series, newest - period * (closed - 1), newest);
      }
      WindowRead(bars, repo.rows, series, now, closed, period);
      if includeForming {
        var forming := FloorToPeriod(now, period);
        var reply := venue(forming, forming);
        if reply.Err? {
          return Err(FetchFailed), refreshed;
        }
        var fetched := ByTime(reply.value);
        if forming !in fetched {
          return Err(StaleBars), refreshed;
        }
        ghost var read := bars;
        bars := bars + [fetched[forming]];
        assert bars[..|bars| - 1] == read;
      }
      if |bars| < RequiredBars(lookback) {
        return Err(StaleBars), refreshed;
      }
      r := Ok(bars);
    }
  }

  /** `math.ceil(lookback * 0.8)`. */
  function RequiredBars(lookback: int): int {
    (4 * lookback + 4) / 5
  }

  /** `bars` are the stored rows of the newest `count` closed boundaries' range, oldest first. */
  ghost predicate IsWindow(bars: seq<Bar>, rows: Rows, series: Series, now: int, count: int, period: int)
    requires period > 0
  {
    IsRange(bars, rows, series, WindowStart(now, count, period), LastClosedBar(now, period))
  }

  /** The keys of the newest `count` closed boundaries' range. */
  function WindowKeys(rows: Rows, series: Series, now: int, count: int, period: int): set<Key>
    requires period > 0
  {
    set k | k in rows && k.series == series && WindowStart(now, count, period) <= k.ts <= LastClosedBar(now, period)
  }

  /** The reply holds the bar that is still open at `now`. */
  ghost predicate ServesForming(reply: Result<seq<Bar>, FetchError>, now: int, period: int)
    requires period > 0
  {
    reply.Ok? && FloorToPeriod(now, period) in ByTime(reply.value)
  }

  /**
   How `load_window` ends, on the rows that the refresh left: it succeeds exactly when the
   refresh did, the venue serves the open bar if it is wanted, and the bars are at least
   four in five of those asked for.
   */
  ghost predicate LoadEnds(rows: Rows, series: Series, period: int, lookback: int, now: int, venue: Venue, includeForming: bool,
                           refreshed: Result<nat, BarError>, r: Result<seq<Bar>, BarError>)
    requires period > 0
  {
    var closed := if includeForming then lookback - 1 else lookback;
    var forming := FloorToPeriod(now, period);
    var available := |WindowKeys(rows, series, now, closed, period)| + if includeForming then 1 else 0;
    if refreshed.Err? then r == Err(refreshed.error)
    else if includeForming && venue(forming, forming).Err? then r == Err(FetchFailed)
    else if includeForming && !ServesForming(venue(forming, forming), now, period) then r == Err(StaleBars)
    else if 5 * available < 4 * lookback then r == Err(StaleBars)
    else
      && r.Ok? && |r.value| == available
      && (includeForming ==> r.value[available - 1] == ByTime(venue(forming, forming).value)[forming])
      && IsWindow(if includeForming then r.value[..available - 1] else r.value, rows, series, now, closed, period)
  }

  /** A refresh never succeeds for less than one bar. */
  lemma AtLeastOne(rows: Rows, rows': Rows, series: Series, period: int, lookback: int, now: int, venue: Venue, faults: Faults,
                   r: Result<nat, BarError>)
    requires period > 0 && Refreshed(rows, rows', series, period, lookback, now, venue, faults, r)
    ensures r.Ok? ==> lookback >= 1
  {
  }

  lemma WindowRead(bars: seq<Bar>, rows: Rows, series: Series, now: int, count: int, period: int)
    requires period > 0 && count >= 0 && ValidRows(rows)
    requires count == 0 ==> bars == []
    requires count >= 1 ==> IsWindow(bars, rows, series, now, count, period)
    ensures IsWindow(bars, rows, series, now, count, period)
    ensures |bars| == |WindowKeys(rows, series, now, count, period)|
    ensures Gridded(rows, series, period) ==> |bars| <= count
  {
    hide LastClosedBar;
    if count == 0 {
      EmptyWindow(now, count, period);
    }
    if Gridded(rows, series, period) {
      WindowFits(bars, rows, series, now, count, period);
    }
    KeysCounted(bars, series);
    var keys := set i: nat | i < |bars| :: Key(series, bars[i].ts);
    forall k
      ensures k in keys <==> k in WindowKeys(rows, series, now, count, period)
    {
      if k in keys {
        var i: nat :| i < |bars| && k == Key(series, bars[i].ts);
        assert bars[i] in bars;
      }
      if k in WindowKeys(rows, series, now, count, period) {
        assert rows[k] in bars;
        var i :| 0 <= i < |bars| && bars[i] == rows[k];
        assert Key(series, bars[i].ts) == k;
      }
    }
    assert keys == WindowKeys(rows, series, now, count, period);
  }

  /** Bars in ascending order have as many keys as there are bars. */
  lemma {:induction false} KeysCounted(bars: seq<Bar>, series: Series)
    requires forall i, j | 0 <= i < j < |bars| :: bars[i].ts < bars[j].ts
    ensures |set i: nat | i < |bars| :: Key(series, bars[i].ts)| == |bars|
  {
    var keys := set i: nat | i < |bars| :: Key(series, bars[i].ts);
    if bars == [] {
      assert keys == {};
    } else {
      var n := |bars| - 1;
      KeysCounted(bars[..n], series);
      var before := set i: nat | i < n :: Key(series, bars[..n][i].ts);
      assert before == set i: nat | i < |bars[..n]| :: Key(series, bars[..n][i].ts);
      assert keys == before + {Key(series, bars[n].ts)};
      assert Key(series, bars[n].ts) !in before;
    }
  }

  lemma EmptyWindow(now: int, count: int, period: int)
    requires period > 0 && count <= 0
    ensures WindowStart(now, count, period) > LastClosedBar(now, period)
  {
    assert period * (count - 1) < 0;
  }

  lemma WindowFits(bars: seq<Bar>, rows: Rows, series: Series, now: int, count: int, period: int)
    requires period > 0 && count >= 0
    requires IsWindow(bars, rows, series, now, count, period) && Gridded(rows, series, period)
    ensures |bars| <= count
  {
    forall i | 0 <= i < |bars|
      ensures IsBoundary(bars[i].ts, period)
      ensures WindowStart(now, count, period) <= bars[i].ts <= LastClosedBar(now, period)
    {
      assert bars[i] in bars;
      assert Key(series, bars[i].ts) in rows;
    }
    BarsFit(bars, LastClosedBar(now, period), count, period);
  }

  lemma {:induction false} BarsFit(bars: seq<Bar>, hi: int, count: nat, period: int)
    requires period > 0
    requires forall i | 0 <= i < |bars| ::
               IsBoundary(bars[i].ts, period) && hi - period * (count - 1) <= bars[i].ts <= hi
    requires forall i, j | 0 <= i < j < |bars| :: bars[i].ts < bars[j].ts
    ensures |bars| <= count
    decreases count
  {
    if bars != [] {
      var n := |bars| - 1;
      assert hi - period * (count - 1) <= bars[n].ts <= hi;
      assert count == 0 ==> period * (count - 1) == -period;
      if n > 0 {
        BoundaryGap(bars[n - 1].ts, bars[n].ts, period);
      }
      assert hi - period * (count - 1) == (hi - period) - period * (count - 1 - 1);
      BarsFit(bars[..n], hi - period, count - 1, period);
    }
  }

  /**
   The outcome of a refill of `missing` from `reply`: nothing is written unless the reply
   is complete, and a write that fails leaves the bars before it stored.
   */
  ghost predicate Refilled(rows: Rows, rows': Rows, r: Result<nat, BarError>, series: Series,
                           missing: seq<int>, newest: int, reply: Result<seq<Bar>, FetchError>, faults: Faults)
  {
    if reply.Err? then r == Err(FetchFailed) && rows' == rows
    else
      var fetched := ByTime(reply.value);
      if Incomplete(missing, fetched, newest) then r == Err(StaleBars) && rows' == rows
      else if WriteFails(missing, fetched, faults) then r == Err(WriteFailed) && WrittenInPart(rows, rows', series, missing, fetched, faults)
      else r.Ok? && rows' == StoreBars(rows, series, missing, fetched).0
  }

  /** How a backfill of `missing` ends; unlike a refill, it stores a reply that has holes. */
  ghost predicate BackfillEnds(rows: Rows, rows': Rows, series: Series, end: int, missing: seq<int>, venue: Venue, faults: Faults,
                               r: Result<BackfillResult, BarError>)
  {
    if missing == [] then r.Ok?
    else if venue(missing[0], end).Err? then r == Err(FetchFailed)
    else
      var fetched := ByTime(venue(missing[0], end).value);
      if WriteFails(missing, fetched, faults)
      then r == Err(WriteFailed) && WrittenInPart(rows, rows', series, missing, fetched, faults)
      else r.Ok?
  }

  /** Some bar that is to be written is refused. */
  ghost predicate WriteFails(missing: seq<int>, fetched: map<int, Bar>, faults: Faults) {
    exists t :: t in missing && t in fetched && faults(t)
  }

  /** The bars before a refused one are stored. */
  ghost predicate WrittenInPart(rows: Rows, rows': Rows, series: Series, missing: seq<int>, fetched: map<int, Bar>,
                                faults: Faults)
  {
    exists n: nat | n < |missing| ::
      missing[n] in fetched && faults(missing[n]) && rows' == StoreBars(rows, series, missing[..n], fetched).0
  }

  /** How a call of `ensure_fresh` ends. */
  ghost predicate Refreshed(rows: Rows, rows': Rows, series: Series, period: int, lookback: int, now: int, venue: Venue,
                            faults: Faults, r: Result<nat, BarError>)
    requires period > 0
  {
    var newest := LastClosedBar(now, period);
    var missing := Gaps(rows, series, WindowStart(now, lookback, period), newest, period);
    if lookback < 1 then r == Err(BadArgument) && rows' == rows
    else if Fresh(rows, series, newest) then r == Ok(0) && rows' == rows
    else newest in missing && Refilled(rows, rows', r, series, missing, newest, venue(missing[0], newest), faults)
  }

  lemma RefillRefused(rows: Rows, series: Series, missing: seq<int>, newest: int, reply: Result<seq<Bar>, FetchError>, faults: Faults)
    requires reply.Ok? ==> Incomplete(missing, ByTime(reply.value), newest)
    ensures Refilled(rows, rows, Err(if reply.Err? then FetchFailed else StaleBars), series, missing, newest, reply, faults)
  {
  }

  lemma RefillStopped(rows: Rows, rows': Rows, series: Series, missing: seq<int>, newest: int,
                      reply: Result<seq<Bar>, FetchError>, faults: Faults)
    requires reply.Ok? && !Incomplete(missing, ByTime(reply.value), newest)
    requires WriteFails(missing, ByTime(reply.value), faults)
    requires WrittenInPart(rows, rows', series, missing, ByTime(reply.value), faults)
    ensures Refilled(rows, rows', Err(WriteFailed), series, missing, newest, reply, faults)
  {
    hide StoreBars, Incomplete, ByTime, WriteFails, WrittenInPart;
  }

  lemma RefillDone(rows: Rows, rows': Rows, count: nat, series: Series, missing: seq<int>, newest: int,
                   reply: Result<seq<Bar>, FetchError>, faults: Faults)
    requires reply.Ok? && !Incomplete(missing, ByTime(reply.value), newest)
    requires !WriteFails(missing, ByTime(reply.value), faults)
    requires rows' == StoreBars(rows, series, missing, ByTime(reply.value)).0
    ensures Refilled(rows, rows', Ok(count), series, missing, newest, reply, faults)
  {
    hide StoreBars, Incomplete, ByTime;
  }

  /** The gate reads the newest stored bar; it passes exactly when some bar is new enough. */
  lemma CoverageSaysFresh(rows: Rows, series: Series, coverage: Option<(int, int)>, newest: int)
    requires coverage.None? <==> Empty(rows, series)
    requires coverage.Some? ==> IsNewest(rows, series, coverage.value.1)
    ensures Fresh(rows, series, newest) <==> coverage.Some? && coverage.value.1 >= newest
  {
    if coverage.Some? && coverage.value.1 >= newest {
      assert Key(series, coverage.value.1) in rows && newest <= Key(series, coverage.value.1).ts;
    }
  }

  lemma NothingGrows(rows: Rows, series: Series, lo: int, hi: int, period: int)
    requires period > 0
    ensures Grown(rows, rows, series, lo, hi, period)
  {
  }

  /** Every boundary from the oldest of `bars` in the window through `newest` is stored. */
  ghost predicate Covered(rows: Rows, series: Series, lo: int, newest: int, period: int, bars: seq<Bar>)
    requires period > 0
  {
    && Stored(rows, series, newest)
    && forall b | b in bars :: CompleteBetween(rows, series, Later(b.ts, lo), newest, period)
  }

  function Later(a: int, b: int): int {
    if a < b then b else a
  }

  /** The rows after a backfill of `[lo, hi]` that no write interrupts. */
  function BackfillRows(rows: Rows, series: Series, lo: int, hi: int, period: int, venue: Venue): Rows
    requires period > 0
  {
    var missing := Gaps(rows, series, lo, hi, period);
    if missing == [] then rows
    else
      var reply := venue(missing[0], hi);
      if reply.Err? then rows else StoreBars(rows, series, missing, ByTime(reply.value)).0
  }

  lemma NewestIsMissing(rows: Rows, series: Series, lookback: int, newest: int, period: int)
    requires period > 0 && lookback >= 1 && IsBoundary(newest, period)
    requires !Fresh(rows, series, newest)
    ensures newest in Gaps(rows, series, newest - period * (lookback - 1), newest, period)
  {
    var lo := newest - period * (lookback - 1);
    assert period * (lookback - 1) >= 0;
    GapsExact(rows, series, lo, newest, period);
    assert Stored(rows, series, newest) ==> Key(series, newest) in rows;
  }

  /** Storing the first `n` gaps of a range only adds rows inside it. */
  lemma StoreGrows(rows: Rows, series: Series, lo: int, hi: int, period: int, n: nat, fetched: map<int, Bar>)
    requires period > 0 && ValidRows(rows)
    requires forall t | t in fetched :: fetched[t].ts == t
    requires n <= |Gaps(rows, series, lo, hi, period)|
    ensures var (rows', count) := StoreBars(rows, series, Gaps(rows, series, lo, hi, period)[..n], fetched);
            && ValidRows(rows') && Grown(rows, rows', series, lo, hi, period)
            && count == |rows'| - |rows|
  {
    var missing := Gaps(rows, series, lo, hi, period);
    StoreBarsExact(rows, series, missing[..n], fetched);
    GapsExact(rows, series, lo, hi, period);
    assert forall t | t in missing[..n] :: t in missing;
  }

  lemma CompleteAfterStore(rows: Rows, rows': Rows, series: Series, missing: seq<int>, bars: seq<Bar>,
                           lo: int, newest: int, period: int)
    requires period > 0
    requires missing == Gaps(rows, series, lo, newest, period) && newest in missing
    requires rows' == StoreBars(rows, series, missing, ByTime(bars)).0
    requires !Incomplete(missing, ByTime(bars), newest)
    ensures Covered(rows', series, lo, newest, period, bars)
  {
    forall b, t | b in bars && IsBoundary(t, period) && Later(b.ts, lo) <= t <= newest
      ensures Stored(rows', series, t)
    {
      FilledAfterStore(rows, rows', series, missing, ByTime(bars), lo, newest, period, b.ts, t);
    }
    StoreBarsExact(rows, series, missing, ByTime(bars));
  }

  lemma FilledAfterStore(rows: Rows, rows': Rows, series: Series, missing: seq<int>, fetched: map<int, Bar>,
                         lo: int, newest: int, period: int, s: int, t: int)
    requires period > 0
    requires forall t | t in fetched :: fetched[t].ts == t
    requires missing == Gaps(rows, series, lo, newest, period)
    requires rows' == StoreBars(rows, series, missing, fetched).0
    requires !Incomplete(missing, fetched, newest)
    requires s in fetched && s <= t && lo <= t <= newest && IsBoundary(t, period)
    ensures Stored(rows', series, t)
  {
    StoreBarsExact(rows, series, missing, fetched);
    GapsExact(rows, series, lo, newest, period);
    assert !IsHole(t, missing, fetched);
  }

  lemma UnfilledAreGaps(rows: Rows, rows': Rows, series: Series, lo: int, hi: int, period: int, fetched: map<int, Bar>)
    requires period > 0
    requires forall t | t in fetched :: fetched[t].ts == t
    requires rows' == StoreBars(rows, series, Gaps(rows, series, lo, hi, period), fetched).0
    ensures Unfilled(Gaps(rows, series, lo, hi, period), fetched) == Gaps(rows', series, lo, hi, period)
  {
    var expected := Boundaries(lo, hi, period);
    BoundariesExact(lo, hi, period);
    UnstoredExact(expected, rows, series);
    StoreBarsExact(rows, series, Gaps(rows, series, lo, hi, period), fetched);
    UnfilledOfUnstored(expected, rows, rows', series, fetched);
  }

  lemma {:induction false} UnfilledOfUnstored(expected: seq<int>, rows: Rows, rows': Rows, series: Series, fetched: map<int, Bar>)
    requires forall t | t in expected ::
               Stored(rows', series, t) <==> Stored(rows, series, t) || t in fetched
    ensures Unfilled(Unstored(expected, rows, series), fetched) == Unstored(expected, rows', series)
  {
    if expected != [] {
      UnfilledOfUnstored(expected[1..], rows, rows', series, fetched);
      var rest := Unstored(expected[1..], rows, series);
      assert expected[0] in expected;
      if Stored(rows, series, expected[0]) {
        assert [] + rest == rest;
      } else {
        assert ([expected[0]] + rest)[1..] == rest;
      }
    }
  }

  lemma LastStoreCounts(rows: Rows, series: Series, missing: seq<int>, fetched: map<int, Bar>)
    requires missing != [] && Ascending(missing)
    requires forall t | t in fetched :: fetched[t].ts == t
    requires forall t | t in missing :: !Stored(rows, series, t)
    ensures var n := |missing| - 1;
            StoreBars(rows, series, missing, fetched).1
            == StoreBars(rows, series, missing[..n], fetched).1 + (if missing[n] in fetched then 1 else 0)
  {
    var n := |missing| - 1;
    StoreBarsExact(rows, series, missing[..n], fetched);
    assert missing[n] in missing && missing[n] !in missing[..n];
    var before := StoreBars(rows, series, missing[..n], fetched).0;
    assert !Stored(before, series, missing[n]);
  }

  /** No missing boundary is both inserted and unfilled, and none is neither. */
  lemma {:induction false} InsertedAndUnfilled(rows: Rows, series: Series, missing: seq<int>, fetched: map<int, Bar>)
    requires Ascending(missing)
    requires forall t | t in fetched :: fetched[t].ts == t
    requires forall t | t in missing :: !Stored(rows, series, t)
    ensures StoreBars(rows, series, missing, fetched).1 + |Unfilled(missing, fetched)| == |missing|
  {
    if missing != [] {
      var n := |missing| - 1;
      InsertedAndUnfilled(rows, series, missing[..n], fetched);
      LastStoreCounts(rows, series, missing, fetched);
      UnfilledAppend(missing[..n], missing[n], fetched);
      hide Unfilled, StoreBars;
      assert missing == missing[..n] + [missing[n]];
    }
  }

  lemma {:induction false} UnfilledAppend(missing: seq<int>, ts: int, fetched: map<int, Bar>)
    ensures Unfilled(missing + [ts], fetched)
            == Unfilled(missing, fetched) + (if ts in fetched then [] else [ts])
  {
    if missing == [] {
      assert [] + [ts] == [ts];
    } else {
      assert (missing + [ts])[1..] == missing[1..] + [ts];
      UnfilledAppend(missing[1..], ts, fetched);
    }
  }
}
