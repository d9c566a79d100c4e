/**
 Racing workers that may die (`ensure_fresh` and `_store` in quant/market_data/service.py).

 Interrupted refreshes leave no hole even when they interleave: a worker inserts a bar
 only when everything older in its window is stored, whoever stored it.
 */
module RaceSafety {
  import opened Outcomes
  import opened Intervals
  import opened Fetcher
  import opened BarStore
  import opened BarRace
  import opened CrashSafety

  ghost predicate AllListed(m: Market, listing: int)
    requires ValidMarket(m)
  {
    forall v | v in m.venues :: Listed(v, listing, m.period)
  }

  /** The worker's window starts no later than `latest`. */
  ghost predicate StartsBy(m: Market, w: Worker, latest: int)
    requires ValidMarket(m)
  {
    match w
    case Called(lookback, now) => lookback >= 1 ==> WindowStart(now, lookback, m.period) <= latest
    case PastGate(lookback, now) => WindowStart(now, lookback, m.period) <= latest
    case Asking(lo, _, _) => lo <= latest
    case Storing(lo, _, _, _, _, _) => lo <= latest
    case _ => true
  }

  /** What the worker lists is in order, and what it fetched is all that is listed of it. */
  ghost predicate ListsInOrder(m: Market, w: Worker, listing: int)
    requires ValidMarket(m)
  {
    match w
    case Asking(lo, newest, missing) => Ascending(missing) && missing != []
    case Storing(lo, newest, missing, bars, next, _) =>
      && Ascending(missing) && missing != []
      && forall t :: t in ByTime(bars) <==> IsBoundary(t, m.period) && Later(missing[0], listing) <= t <= newest
    case _ => true
  }

  /** Everything listed in the window before the worker's next bar is stored. */
  lemma NextIsReady(m: Market, rows: Rows, w: Worker, listing: int, b: int)
    requires ValidMarket(m) && WorkerInv(m, rows, w) && ListsInOrder(m, w, listing)
    requires w.Storing? && w.next < |w.missing| && w.missing[w.next] in ByTime(w.bars)
    requires IsBoundary(b, m.period) && Later(w.lo, listing) <= b < w.missing[w.next]
    ensures Stored(rows, m.series, b)
  {
    hide ByTime, Incomplete, IsBoundary;
    var missing := w.missing;
    if b in missing {
      var j :| 0 <= j < |missing| && missing[j] == b;
      assert j < w.next;
      assert missing[0] <= missing[j];
      assert b in ByTime(w.bars);
    }
  }

  lemma InsertKeepsHoleFree(m: Market, rows: Rows, w: Worker, latest: int, listing: int)
    requires ValidMarket(m) && WorkerInv(m, rows, w) && ListsInOrder(m, w, listing) && StartsBy(m, w, latest)
    requires HoleFree(rows, m.series, latest, listing, m.period)
    requires w.Storing? && w.next < |w.missing| && w.missing[w.next] in ByTime(w.bars)
    ensures HoleFree(InsertRow(rows, m.series, ByTime(w.bars)[w.missing[w.next]]).0, m.series, latest, listing, m.period)
  {
    var t := w.missing[w.next];
    var (rows', won) := InsertRow(rows, m.series, ByTime(w.bars)[t]);
    hide ByTime, IsBoundary;
    forall k, b | k in rows' && k.series == m.series && IsBoundary(b, m.period) && Later(latest, listing) <= b <= k.ts
      ensures Stored(rows', m.series, b)
    {
      if k in rows {
        assert CompleteBetween(rows, m.series, Later(latest, listing), k.ts, m.period);
        assert Stored(rows, m.series, b);
      } else if b < t {
        NextIsReady(m, rows, w, listing, b);
      }
    }
  }

  lemma AdvanceKeepsHoleFree(m: Market, i: nat, rows: Rows, w: Worker, latest: int, listing: int)
    requires ValidMarket(m) && i < |m.venues| && AllListed(m, listing)
    requires WorkerInv(m, rows, w) && ListsInOrder(m, w, listing) && StartsBy(m, w, latest)
    requires HoleFree(rows, m.series, latest, listing, m.period)
    ensures var (rows', w') := Advance(m, i, rows, w);
            && HoleFree(rows', m.series, latest, listing, m.period)
            && ListsInOrder(m, w', listing) && StartsBy(m, w', latest)
  {
    hide Gaps, ByTime, Incomplete, IsBoundary, HoleFree, WorkerInv;
    match w
    case PastGate(lookback, now) =>
      GapsExact(rows, m.series, WindowStart(now, lookback, m.period), LastClosedBar(now, m.period), m.period);
    case Asking(lo, newest, missing) =>
      ListedReplies(m.venues[i], missing[0], newest, listing, m.period);
    case Storing(lo, newest, missing, bars, next, inserted) =>
      if next < |missing| && missing[next] in ByTime(bars) {
        InsertKeepsHoleFree(m, rows, w, latest, listing);
      }
    case _ =>
  }

  ghost predicate SafeState(m: Market, s: State, latest: int, listing: int)
    requires ValidMarket(m)
  {
    && HoleFree(s.rows, m.series, latest, listing, m.period)
    && forall i | 0 <= i < |s.workers| :: ListsInOrder(m, s.workers[i], listing) && StartsBy(m, s.workers[i], latest)
  }

  lemma StepKeepsHoleFree(m: Market, rows0: Rows, s: State, s': State, i: nat, latest: int, listing: int)
    requires ValidMarket(m) && AllListed(m, listing)
    requires BarRace.Inv(m, rows0, s) && SafeState(m, s, latest, listing) && Step(m, s, s', i)
    ensures SafeState(m, s', latest, listing)
  {
    hide WorkerInv, ListsInOrder, StartsBy, HoleFree, Advance;
    assert WorkerInv(m, s.rows, s.workers[i]);
    AdvanceKeepsHoleFree(m, i, s.rows, s.workers[i], latest, listing);
    DeadListsNothing(m, s.workers[i], latest, listing);
  }

  lemma DeadListsNothing(m: Market, w: Worker, latest: int, listing: int)
    requires ValidMarket(m)
    ensures w.Storing? ==> ListsInOrder(m, Died(w.inserted), listing) && StartsBy(m, Died(w.inserted), latest)
  {
  }

  /**
   However the workers interleave, and whichever of them die between two inserts, no
   listed boundary is missing behind a stored bar, from the latest of their windows' starts.
   */
  lemma {:induction false} RaceLeavesNoHole(m: Market, run: seq<State>, latest: int, listing: int, k: nat)
    requires ValidMarket(m) && IsRun(m, run) && k < |run| && AllListed(m, listing)
    requires forall w | w in run[0].workers :: StartsBy(m, w, latest)
    requires HoleFree(run[0].rows, m.series, latest, listing, m.period)
    ensures SafeState(m, run[k], latest, listing)
    decreases k
  {
    if k == 0 {
      assert forall j | 0 <= j < |run[0].workers| :: run[0].workers[j] in run[0].workers;
    } else {
      RaceLeavesNoHole(m, run, latest, listing, k - 1);
      RunKeeps(m, run, k - 1);
      assert Next(m, run[k - 1], run[k - 1 + 1]);
      var i: nat :| Step(m, run[k - 1], run[k], i);
      StepKeepsHoleFree(m, run[0].rows, run[k - 1], run[k], i, latest, listing);
    }
  }

  /**
   So the gate may be trusted in the race too: a call whose window starts no earlier than
   any of theirs and that returns early passes over no listed boundary of its window.
   */
  lemma RaceGateIsSound(m: Market, run: seq<State>, latest: int, listing: int, k: nat, now: int, lookback: int)
    requires ValidMarket(m) && IsRun(m, run) && k < |run| && AllListed(m, listing)
    requires forall w | w in run[0].workers :: StartsBy(m, w, latest)
    requires HoleFree(run[0].rows, m.series, latest, listing, m.period)
    requires latest <= WindowStart(now, lookback, m.period)
    requires Fresh(run[k].rows, m.series, LastClosedBar(now, m.period))
    ensures CompleteBetween(run[k].rows, m.series, Later(WindowStart(now, lookback, m.period), listing),
                            LastClosedBar(now, m.period), m.period)
  {
    RaceLeavesNoHole(m, run, latest, listing, k);
    hide WindowStart, LastClosedBar, SafeState;
    assert HoleFree(run[k].rows, m.series, latest, listing, m.period) by { HoleFreeOf(m, run[k], latest, listing); }
    var key :| key in run[k].rows && key.series == m.series && LastClosedBar(now, m.period) <= key.ts;
    assert CompleteBetween(run[k].rows, m.series, Later(latest, listing), key.ts, m.period);
  }

  lemma HoleFreeOf(m: Market, s: State, latest: int, listing: int)
    requires ValidMarket(m) && SafeState(m, s, latest, listing)
    ensures HoleFree(s.rows, m.series, latest, listing, m.period)
  {
  }

  /** What one race leaves is what the next may start from, once no window starts earlier. */
  lemma NextRaceMayStart(rows: Rows, series: Series, latest: int, later: int, listing: int, period: int)
    requires period > 0 && latest <= later && HoleFree(rows, series, latest, listing, period)
    ensures HoleFree(rows, series, later, listing, period)
  {
    forall k | k in rows && k.series == series
      ensures CompleteBetween(rows, series, Later(later, listing), k.ts, period)
    {
      assert CompleteBetween(rows, series, Later(latest, listing), k.ts, period);
    }
  }
}
