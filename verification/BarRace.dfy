/**
 Workers racing on one series (`ensure_fresh`, `_store` and `_insert` in
 quant/market_data/service.py).

 Each worker runs the steps of `ensure_fresh`; a step is one read or write of the
 database or one request to the venue, and the steps of different workers interleave
 in any order. A worker may die between two inserts.
 */
module BarRace {
  import opened Outcomes
  import opened Intervals
  import opened Fetcher
  import opened BarStore

  datatype Market = Market(series: Series, period: int, venues: seq<Venue>)

  datatype Worker =
    | Called(lookback: int, now: int)
    | PastGate(lookback: int, now: int)
    | Asking(lo: int, newest: int, missing: seq<int>)
    | Storing(lo: int, newest: int, missing: seq<int>, bars: seq<Bar>, next: nat, inserted: nat)
    | Returned(lo: int, newest: int, missing: seq<int>, bars: seq<Bar>, inserted: nat)
    | FoundFresh(lo: int, newest: int)
    | FoundComplete(lo: int, newest: int)
    | Refused
    | Died(inserted: nat)

  datatype State = State(rows: Rows, workers: seq<Worker>)

  ghost predicate ValidMarket(m: Market) {
    m.period > 0
  }

  /** One step of worker `i`: the rows and the worker after it. */
  ghost function Advance(m: Market, i: nat, rows: Rows, w: Worker): (Rows, Worker)
    requires ValidMarket(m) && i < |m.venues|
  {
    match w
    case Called(lookback, now) =>
      (rows,
       if lookback < 1 then Refused
       else if Fresh(rows, m.series, LastClosedBar(now, m.period))
       then FoundFresh(WindowStart(now, lookback, m.period), LastClosedBar(now, m.period))
       else PastGate(lookback, now))
    case PastGate(lookback, now) =>
      var lo, newest := WindowStart(now, lookback, m.period), LastClosedBar(now, m.period);
      var missing := Gaps(rows, m.series, lo, newest, m.period);
      (rows, if missing == [] then FoundComplete(lo, newest) else Asking(lo, newest, missing))
    case Asking(lo, newest, missing) =>
      (rows,
       if missing == [] then FoundComplete(lo, newest)
       else match m.venues[i](missing[0], newest)
            case Err(_) => Refused
            case Ok(bars) =>
              if Incomplete(missing, ByTime(bars), newest) then Refused
              else Storing(lo, newest, missing, bars, 0, 0))
    case Storing(lo, newest, missing, bars, next, inserted) =>
      if next >= |missing| then (rows, Returned(lo, newest, missing, bars, inserted))
      else if missing[next] !in ByTime(bars) then
        (rows, Storing(lo, newest, missing, bars, next + 1, inserted))
      else
        var (rows', won) := InsertRow(rows, m.series, ByTime(bars)[missing[next]]);
        (rows', Storing(lo, newest, missing, bars, next + 1, if won then inserted + 1 else inserted))
    case _ => (rows, w)
  }

  /** Worker `i` takes a step, or dies between two inserts. */
  ghost predicate Step(m: Market, s: State, s': State, i: nat)
    requires ValidMarket(m)
  {
    && i < |s.workers| == |m.venues|
    && var (rows', w') := Advance(m, i, s.rows, s.workers[i]);
       || s' == State(rows', s.workers[i := w'])
       || (s.workers[i].Storing? && s' == s.(workers := s.workers[i := Died(s.workers[i].inserted)]))
  }

  ghost predicate Next(m: Market, s: State, s': State)
    requires ValidMarket(m)
  {
    exists i: nat :: Step(m, s, s', i)
  }

  ghost predicate IsRun(m: Market, run: seq<State>)
    requires ValidMarket(m)
  {
    && run != []
    && |run[0].workers| == |m.venues|
    && (forall w | w in run[0].workers :: w.Called?)
    && forall k | 0 <= k < |run| - 1 :: Next(m, run[k], run[k + 1])
  }

  // ── what a run keeps ───────────────────────────────────────────────────

  function Inserted(w: Worker): nat {
    if w.Storing? || w.Returned? || w.Died? then w.inserted else 0
  }

  function TotalInserted(workers: seq<Worker>): nat {
    if workers == [] then 0 else Inserted(workers[0]) + TotalInserted(workers[1..])
  }

  /** Of the first `n` missing bars, those the venue returned are stored. */
  ghost predicate StoredUpTo(rows: Rows, series: Series, missing: seq<int>, bars: seq<Bar>, n: nat) {
    && n <= |missing|
    && forall j | 0 <= j < n && missing[j] in ByTime(bars) :: Stored(rows, series, missing[j])
  }

  /** Every boundary of the window is stored or on the worker's list. */
  ghost predicate Accounted(m: Market, rows: Rows, lo: int, newest: int, missing: seq<int>)
    requires ValidMarket(m)
  {
    forall b | IsBoundary(b, m.period) && lo <= b <= newest :: Stored(rows, m.series, b) || b in missing
  }

  ghost predicate WorkerInv(m: Market, rows: Rows, w: Worker)
    requires ValidMarket(m)
  {
    match w
    case Asking(lo, newest, missing) => Accounted(m, rows, lo, newest, missing)
    case Storing(lo, newest, missing, bars, next, _) =>
      && Accounted(m, rows, lo, newest, missing)
      && !Incomplete(missing, ByTime(bars), newest)
      && StoredUpTo(rows, m.series, missing, bars, next)
    case Returned(lo, newest, missing, bars, _) =>
      && Accounted(m, rows, lo, newest, missing)
      && !Incomplete(missing, ByTime(bars), newest)
      && StoredUpTo(rows, m.series, missing, bars, |missing|)
    case FoundFresh(_, newest) => Fresh(rows, m.series, newest)
    case FoundComplete(lo, newest) => CompleteBetween(rows, m.series, lo, newest, m.period)
    case _ => true
  }

  ghost predicate Inv(m: Market, rows0: Rows, s: State)
    requires ValidMarket(m)
  {
    && |s.workers| == |m.venues|
    && Extends(rows0, s.rows)
    && TotalInserted(s.workers) == |s.rows| - |rows0|
    && forall i | 0 <= i < |s.workers| :: WorkerInv(m, s.rows, s.workers[i])
  }

  lemma {:induction false} TotalAfterUpdate(workers: seq<Worker>, i: nat, w: Worker)
    requires i < |workers|
    ensures TotalInserted(workers[i := w]) == TotalInserted(workers) - Inserted(workers[i]) + Inserted(w)
  {
    if i == 0 {
      assert workers[0 := w][1..] == workers[1..];
    } else {
      assert workers[i := w][1..] == workers[1..][i - 1 := w];
      TotalAfterUpdate(workers[1..], i - 1, w);
    }
  }

  lemma InvUnderGrowth(m: Market, rows: Rows, rows': Rows, w: Worker)
    requires ValidMarket(m) && WorkerInv(m, rows, w) && Extends(rows, rows')
    ensures WorkerInv(m, rows', w)
  {
  }

  lemma StoringKeeps(m: Market, i: nat, rows: Rows, w: Worker)
    requires ValidMarket(m) && i < |m.venues| && WorkerInv(m, rows, w) && w.Storing?
    ensures var (rows', w') := Advance(m, i, rows, w);
            && Extends(rows, rows')
            && Inserted(w') - Inserted(w) == |rows'| - |rows|
            && WorkerInv(m, rows', w')
  {
    hide Gaps, ByTime, Incomplete, IsBoundary;
    if w.next < |w.missing| && w.missing[w.next] in ByTime(w.bars) {
      var (rows', _) := InsertRow(rows, m.series, ByTime(w.bars)[w.missing[w.next]]);
      InvUnderGrowth(m, rows, rows', w);
    }
  }

  lemma AdvanceKeeps(m: Market, i: nat, rows: Rows, w: Worker)
    requires ValidMarket(m) && i < |m.venues| && WorkerInv(m, rows, w)
    ensures var (rows', w') := Advance(m, i, rows, w);
            && Extends(rows, rows')
            && Inserted(w') - Inserted(w) == |rows'| - |rows|
            && WorkerInv(m, rows', w')
  {
    hide Gaps, ByTime, Incomplete, IsBoundary;
    match w
    case PastGate(lookback, now) =>
      GapsExact(rows, m.series, WindowStart(now, lookback, m.period), LastClosedBar(now, m.period), m.period);
    case Asking(lo, newest, missing) =>
    case Storing(_, _, _, _, _, _) =>
      StoringKeeps(m, i, rows, w);
    case _ =>
  }

  lemma StepKeeps(m: Market, rows0: Rows, s: State, s': State, i: nat)
    requires ValidMarket(m) && Inv(m, rows0, s) && Step(m, s, s', i)
    ensures Inv(m, rows0, s') && Extends(s.rows, s'.rows)
  {
    var w' := s'.workers[i];
    AdvanceKeeps(m, i, s.rows, s.workers[i]);
    TotalAfterUpdate(s.workers, i, w');
    forall j | 0 <= j < |s'.workers|
      ensures WorkerInv(m, s'.rows, s'.workers[j])
    {
      InvUnderGrowth(m, s.rows, s'.rows, s.workers[j]);
    }
  }

  lemma {:induction false} InitTotal(workers: seq<Worker>)
    requires forall w | w in workers :: w.Called?
    ensures TotalInserted(workers) == 0
  {
    if workers != [] {
      assert workers[0] in workers;
      InitTotal(workers[1..]);
    }
  }

  lemma {:induction false} RunKeeps(m: Market, run: seq<State>, k: nat)
    requires ValidMarket(m) && IsRun(m, run) && k < |run|
    ensures Inv(m, run[0].rows, run[k])
    ensures k > 0 ==> Extends(run[k - 1].rows, run[k].rows)
    decreases k
  {
    if k == 0 {
      InitTotal(run[0].workers);
      assert forall j | 0 <= j < |run[0].workers| :: run[0].workers[j] in run[0].workers;
    } else {
      RunKeeps(m, run, k - 1);
      assert Next(m, run[k - 1], run[k - 1 + 1]);
      var i: nat :| Step(m, run[k - 1], run[k], i);
      StepKeeps(m, run[0].rows, run[k - 1], run[k], i);
    }
  }

  /** However the workers interleave, a stored row is never changed or lost. */
  lemma {:induction false} RowsArePermanent(m: Market, run: seq<State>, a: nat, b: nat)
    requires ValidMarket(m) && IsRun(m, run) && a <= b < |run|
    ensures Extends(run[a].rows, run[b].rows)
    decreases b - a
  {
    if a < b {
      RowsArePermanent(m, run, a, b - 1);
      RunKeeps(m, run, b);
    }
  }

  /**
   The counts the workers return add up to the rows added, although any number of them
   list the same bar as missing and all but one lose each race; what the workers that
   died had already inserted makes up the difference.
   */
  lemma CountsAddUp(m: Market, run: seq<State>)
    requires ValidMarket(m) && IsRun(m, run)
    ensures var last := run[|run| - 1];
            TotalInserted(last.workers) == |last.rows| - |run[0].rows|
  {
    RunKeeps(m, run, |run| - 1);
  }

  /**
   A worker that returns has its window stored, whoever stored it: every boundary from the
   oldest bar it fetched through the newest closed bar, and still so at every later state.
   */
  lemma ReturnedIsCovered(m: Market, run: seq<State>, k: nat, j: nat, i: nat)
    requires ValidMarket(m) && IsRun(m, run) && k <= j < |run| && i < |m.venues|
    requires i < |run[k].workers|
    ensures run[k].workers[i].Returned? ==>
              var w := run[k].workers[i];
              forall b | b in w.bars ::
                CompleteBetween(run[j].rows, m.series, Later(b.ts, w.lo), w.newest, m.period)
    ensures run[k].workers[i].FoundComplete? ==>
              var w := run[k].workers[i];
              CompleteBetween(run[j].rows, m.series, w.lo, w.newest, m.period)
    ensures run[k].workers[i].FoundFresh? ==> Fresh(run[j].rows, m.series, run[k].workers[i].newest)
  {
    RunKeeps(m, run, k);
    RowsArePermanent(m, run, k, j);
    var w := run[k].workers[i];
    hide *;
    InvOf(m, run[0].rows, run[k], i);
    InvUnderGrowth(m, run[k].rows, run[j].rows, w);
    InvCovers(m, run[j].rows, w);
  }

  lemma InvOf(m: Market, rows0: Rows, s: State, i: nat)
    requires ValidMarket(m) && Inv(m, rows0, s) && i < |s.workers|
    ensures WorkerInv(m, s.rows, s.workers[i])
  {
    hide WorkerInv;
  }

  lemma InvCovers(m: Market, rows: Rows, w: Worker)
    requires ValidMarket(m) && WorkerInv(m, rows, w)
    ensures w.Returned? ==> forall b | b in w.bars :: CompleteBetween(rows, m.series, Later(b.ts, w.lo), w.newest, m.period)
    ensures w.FoundComplete? ==> CompleteBetween(rows, m.series, w.lo, w.newest, m.period)
    ensures w.FoundFresh? ==> Fresh(rows, m.series, w.newest)
  {
    hide IsBoundary, ByTime;
    if w.Returned? {
      forall b, t | b in w.bars && IsBoundary(t, m.period) && Later(b.ts, w.lo) <= t <= w.newest
        ensures Stored(rows, m.series, t)
      {
        assert b.ts in ByTime(w.bars);
        assert !IsHole(t, w.missing, ByTime(w.bars));
      }
    }
  }

  // ── the rows are the venue's ───────────────────────────────────────────

  /** All workers see the same bar at the same time, and so did whoever stored `rows`. */
  ghost predicate SameVenue(m: Market, truth: int -> Bar) {
    forall v | v in m.venues :: TrueVenue(v, truth)
  }

  ghost predicate TrueVenue(venue: Venue, truth: int -> Bar) {
    forall lo, hi :: TrueReply(venue(lo, hi), truth)
  }

  ghost predicate TrueReply(reply: Result<seq<Bar>, FetchError>, truth: int -> Bar) {
    reply.Ok? ==> forall b | b in reply.value :: b == truth(b.ts)
  }

  ghost predicate TrueRows(m: Market, rows: Rows, truth: int -> Bar) {
    forall k | k in rows && k.series == m.series :: rows[k] == truth(k.ts)
  }

  ghost predicate TrueBars(w: Worker, truth: int -> Bar) {
    w.Storing? || w.Returned? ==> forall b | b in w.bars :: b == truth(b.ts)
  }

  /**
   Losing the race is harmless: the row a worker finds in place of its own is the row it
   would have written.
   */
  lemma {:induction false} LosersAgree(m: Market, run: seq<State>, truth: int -> Bar, k: nat)
    requires ValidMarket(m) && IsRun(m, run) && k < |run|
    requires SameVenue(m, truth) && TrueRows(m, run[0].rows, truth)
    ensures TrueRows(m, run[k].rows, truth)
    ensures forall w | w in run[k].workers :: TrueBars(w, truth)
    ensures forall w, t | w in run[k].workers && w.Returned? && t in w.missing && t in ByTime(w.bars) ::
              Key(m.series, t) in run[k].rows && run[k].rows[Key(m.series, t)] == ByTime(w.bars)[t]
    decreases k
  {
    if k > 0 {
      LosersAgree(m, run, truth, k - 1);
      RunKeeps(m, run, k - 1);
      assert Next(m, run[k - 1], run[k - 1 + 1]);
      var i: nat :| Step(m, run[k - 1], run[k], i);
      var w := run[k - 1].workers[i];
      assert w in run[k - 1].workers;
      AdvanceTruly(m, i, run[k - 1].rows, w, truth);
      forall v | v in run[k].workers
        ensures TrueBars(v, truth)
      {
        assert v == run[k].workers[i] || v in run[k - 1].workers;
      }
    }
    RunKeeps(m, run, k);
    forall w, t | w in run[k].workers && w.Returned? && t in w.missing && t in ByTime(w.bars)
      ensures Key(m.series, t) in run[k].rows && run[k].rows[Key(m.series, t)] == ByTime(w.bars)[t]
    {
      WorkerRowsTrue(m, run[k].rows, w, truth, t);
    }
  }

  lemma VenueRepliesTruly(venue: Venue, truth: int -> Bar, lo: int, hi: int)
    requires TrueVenue(venue, truth)
    ensures TrueReply(venue(lo, hi), truth)
  {
  }

  lemma AdvanceTruly(m: Market, i: nat, rows: Rows, w: Worker, truth: int -> Bar)
    requires ValidMarket(m) && i < |m.venues|
    requires SameVenue(m, truth) && TrueRows(m, rows, truth) && TrueBars(w, truth)
    ensures var (rows', w') := Advance(m, i, rows, w);
            TrueRows(m, rows', truth) && TrueBars(w', truth)
  {
    hide Gaps, Incomplete;
    if w.Asking? && w.missing != [] {
      assert TrueVenue(m.venues[i], truth);
      VenueRepliesTruly(m.venues[i], truth, w.missing[0], w.newest);
    }
  }

  lemma WorkerRowsTrue(m: Market, rows: Rows, w: Worker, truth: int -> Bar, t: int)
    requires ValidMarket(m) && WorkerInv(m, rows, w) && w.Returned?
    requires TrueRows(m, rows, truth) && TrueBars(w, truth)
    requires t in w.missing && t in ByTime(w.bars)
    ensures Key(m.series, t) in rows && rows[Key(m.series, t)] == ByTime(w.bars)[t]
  {
    var j :| 0 <= j < |w.missing| && w.missing[j] == t;
    assert Stored(rows, m.series, w.missing[j]);
  }

  // ── a worker alone is `EnsureFresh` ────────────────────────────────────

  ghost function AdvanceBy(m: Market, i: nat, rows: Rows, w: Worker, n: nat): (Rows, Worker)
    requires ValidMarket(m) && i < |m.venues|
    decreases n
  {
    if n == 0 then (rows, w)
    else
      var (rows', w') := AdvanceBy(m, i, rows, w, n - 1);
      Advance(m, i, rows', w')
  }

  /** Uninterrupted, the insert steps add up to `StoreBars`, the specification of `Store`. */
  lemma {:induction false} AloneIsStore(m: Market, i: nat, rows: Rows, w: Worker, n: nat)
    requires ValidMarket(m) && i < |m.venues|
    requires w.Storing? && w.next == 0 && w.inserted == 0 && n <= |w.missing|
    ensures var (rows', count) := StoreBars(rows, m.series, w.missing[..n], ByTime(w.bars));
            AdvanceBy(m, i, rows, w, n) == (rows', w.(next := n, inserted := count))
  {
    hide ByTime, Gaps, Incomplete, Fresh, IsBoundary;
    if n > 0 {
      AloneIsStore(m, i, rows, w, n - 1);
      assert w.missing[..n][..n - 1] == w.missing[..n - 1];
      assert w.missing[..n][n - 1] == w.missing[n - 1];
      var (rows', w') := AdvanceBy(m, i, rows, w, n - 1);
      assert AdvanceBy(m, i, rows, w, n) == Advance(m, i, rows', w');
    }
  }

  lemma {:induction false} AdvanceOn(m: Market, i: nat, rows: Rows, w: Worker, a: nat, b: nat)
    requires ValidMarket(m) && i < |m.venues|
    ensures var (rows', w') := AdvanceBy(m, i, rows, w, a);
            AdvanceBy(m, i, rows, w, a + b) == AdvanceBy(m, i, rows', w', b)
    decreases b
  {
    hide Advance;
    if b > 0 {
      AdvanceOn(m, i, rows, w, a, b - 1);
    }
  }

  /** A worker that has come to an end, and what the call then returns. */
  ghost predicate Ends(w: Worker, r: Result<nat, BarError>, lo: int, newest: int) {
    match w
    case Refused => r.Err?
    case FoundFresh(l, n) => r == Ok(0) && l == lo && n == newest
    case Returned(l, n, _, _, inserted) => r == Ok(inserted) && l == lo && n == newest
    case _ => false
  }

  /** Alone, a worker ends, and leaves and returns what `EnsureFresh` may leave and return. */
  lemma AloneIsEnsureFresh(m: Market, i: nat, rows: Rows, lookback: int, now: int) returns (n: nat, r: Result<nat, BarError>)
    requires ValidMarket(m) && i < |m.venues|
    ensures var (rows', w) := AdvanceBy(m, i, rows, Called(lookback, now), n);
            && Ends(w, r, WindowStart(now, lookback, m.period), LastClosedBar(now, m.period))
            && Refreshed(rows, rows', m.series, m.period, lookback, now, m.venues[i], _ => false, r)
  {
    var lo, newest := WindowStart(now, lookback, m.period), LastClosedBar(now, m.period);
    var start := Called(lookback, now);
    n, r := 1, Err(BadArgument);
    assert AdvanceBy(m, i, rows, start, 0) == (rows, start);
    if lookback < 1 {
      assert AdvanceBy(m, i, rows, start, 1) == (rows, Refused);
      return;
    }
    if Fresh(rows, m.series, newest) {
      assert AdvanceBy(m, i, rows, start, 1) == (rows, FoundFresh(lo, newest));
      r := Ok(0);
      return;
    }
    LastClosedBarIsNewest(now, m.period);
    NewestIsMissing(rows, m.series, lookback, newest, m.period);
    var missing := Gaps(rows, m.series, lo, newest, m.period);
    AsksInTwo(m, i, rows, lookback, now);
    n, r := AskedEnds(m, i, rows, lo, newest, missing);
    AdvanceOn(m, i, rows, start, 2, n);
    n := 2 + n;
  }

  lemma AsksInTwo(m: Market, i: nat, rows: Rows, lookback: int, now: int)
    requires ValidMarket(m) && i < |m.venues| && lookback >= 1 && !Fresh(rows, m.series, LastClosedBar(now, m.period))
    requires var lo, newest := WindowStart(now, lookback, m.period), LastClosedBar(now, m.period);
             newest in Gaps(rows, m.series, lo, newest, m.period)
    ensures var lo, newest := WindowStart(now, lookback, m.period), LastClosedBar(now, m.period);
            AdvanceBy(m, i, rows, Called(lookback, now), 2)
            == (rows, Asking(lo, newest, Gaps(rows, m.series, lo, newest, m.period)))
  {
    hide Gaps, Fresh, WindowStart, LastClosedBar;
    assert AdvanceBy(m, i, rows, Called(lookback, now), 0) == (rows, Called(lookback, now));
    assert AdvanceBy(m, i, rows, Called(lookback, now), 1) == (rows, PastGate(lookback, now));
  }

  lemma AskedEnds(m: Market, i: nat, rows: Rows, lo: int, newest: int, missing: seq<int>)
    returns (n: nat, r: Result<nat, BarError>)
    requires ValidMarket(m) && i < |m.venues| && newest in missing
    ensures var (rows', w) := AdvanceBy(m, i, rows, Asking(lo, newest, missing), n);
            && Ends(w, r, lo, newest)
            && Refilled(rows, rows', r, m.series, missing, newest, m.venues[i](missing[0], newest), _ => false)
  {
    hide Gaps, Incomplete, StoreBars, ByTime;
    var start, reply := Asking(lo, newest, missing), m.venues[i](missing[0], newest);
    assert AdvanceBy(m, i, rows, start, 0) == (rows, start);
    n := 1;
    if reply.Err? {
      r := Err(FetchFailed);
      assert AdvanceBy(m, i, rows, start, 1) == (rows, Refused);
      return;
    }
    if Incomplete(missing, ByTime(reply.value), newest) {
      r := Err(StaleBars);
      assert AdvanceBy(m, i, rows, start, 1) == (rows, Refused);
      return;
    }
    var storing := Storing(lo, newest, missing, reply.value, 0, 0);
    assert AdvanceBy(m, i, rows, start, 1) == (rows, storing);
    AloneIsStore(m, i, rows, storing, |missing|);
    assert missing[..|missing|] == missing;
    var (rows', count) := StoreBars(rows, m.series, missing, ByTime(reply.value));
    AdvanceOn(m, i, rows, start, 1, |missing|);
    n, r := |missing| + 2, Ok(count);
    assert AdvanceBy(m, i, rows, start, n)
        == Advance(m, i, rows', Storing(lo, newest, missing, reply.value, |missing|, count));
  }
}
