/**
 Reaching deep history in bounded passes (`plan_backfill` and `backfill` in
 quant/market_data/service.py).

 A caller asks for a plan, runs it, and asks again. Here that loop is followed to its
 end, with the clock free to move forward between passes.
 */
module BackfillPlan {
  import opened Outcomes
  import opened Intervals
  import opened Fetcher
  import opened BarStore

  datatype Plan = Plan(start: Option<int>, end: Option<int>, bars: int, passes: int, target: int) {
    predicate IsComplete() {
      start.None?
    }
  }

  /** The next pass toward `target`, from the oldest stored bar if there is one. */
  function PlanBackfill(oldest: Option<int>, target: int, lastClosed: int, period: int): Plan
    requires period > 0
  {
    var nothing := Plan(None, None, 0, 0, target);
    if target > lastClosed then nothing
    else if oldest.Some? && oldest.value <= target then nothing
    else
      var end := if oldest.Some? then oldest.value - period else lastClosed;
      var start := Later(target, end - period * (MAX_BACKFILL_BARS - 1));
      var bars := TruncDiv(end - start, period) + 1;
      var outstanding := TruncDiv(end - target, period) + 1;
      Plan(Some(start), Some(end), bars, CeilPasses(outstanding), target)
  }

  /** The passes `outstanding` boundaries take, rounded up without a float. */
  function CeilPasses(outstanding: int): int {
    -((-outstanding) / MAX_BACKFILL_BARS)
  }

  datatype Campaign = Campaign(series: Series, period: int, target: int, venue: Venue)

  /** The venue answers every request and serves every boundary from the target on. */
  ghost predicate ServesFromTarget(c: Campaign) {
    && c.period > 0
    && forall lo, hi :: ServedReply(c, c.venue(lo, hi), lo, hi)
  }

  ghost predicate ServedReply(c: Campaign, reply: Result<seq<Bar>, FetchError>, lo: int, hi: int)
    requires c.period > 0
  {
    && reply.Ok?
    && forall t | IsBoundary(t, c.period) && Later(lo, c.target) <= t <= hi :: t in ByTime(reply.value)
  }

  ghost function OldestOf(rows: Rows, series: Series): (r: Option<int>)
    ensures r.None? <==> Empty(rows, series)
    ensures r.Some? ==> IsOldest(rows, series, r.value)
  {
    if Empty(rows, series) then None
    else
      OldestExists(rows, series, rows.Keys);
      var ts :| IsOldest(rows, series, ts);
      Some(ts)
  }

  lemma {:induction false} OldestExists(rows: Rows, series: Series, keys: set<Key>)
    requires keys <= rows.Keys && exists k :: k in keys && k.series == series
    ensures exists ts :: Stored(rows, series, ts) && forall k | k in keys && k.series == series :: ts <= k.ts
    ensures keys == rows.Keys ==> exists ts :: IsOldest(rows, series, ts)
    decreases keys
  {
    var k :| k in keys && k.series == series;
    assert k == Key(series, k.ts);
    var rest := keys - {k};
    var ts := k.ts;
    if exists k' :: k' in rest && k'.series == series {
      OldestExists(rows, series, rest);
      var older :| Stored(rows, series, older) && forall k | k in rest && k.series == series :: older <= k.ts;
      ts := if older < k.ts then older else k.ts;
    }
    assert Stored(rows, series, ts) && forall k | k in keys && k.series == series :: ts <= k.ts;
    assert keys == rows.Keys ==> IsOldest(rows, series, ts);
  }

  lemma OldestIs(rows: Rows, series: Series, ts: int)
    requires IsOldest(rows, series, ts)
    ensures OldestOf(rows, series) == Some(ts)
  {
    var key := Key(series, ts);
    assert key in rows;
    var r := OldestOf(rows, series);
    assert Key(series, r.value) in rows;
  }

  ghost function PlanFor(c: Campaign, rows: Rows, lastClosed: int): Plan
    requires c.period > 0
  {
    PlanBackfill(OldestOf(rows, c.series), c.target, lastClosed, c.period)
  }

  /** Reads the stored bounds and plans the next pass; no request goes to the venue. */
  method PlanNextPass(repo: PriceBarRepo, series: Series, target: int, now: int, period: int)
    returns (plan: Plan)
    requires period > 0
    ensures plan == PlanBackfill(OldestOf(repo.rows, series), target, LastClosedBar(now, period), period)
  {
    var lastClosed := LastClosedBar(now, period);
    if target > lastClosed {
      return Plan(None, None, 0, 0, target);
    }
    var bounds := repo.GetCoverage(series);
    if bounds.None? {
      plan := PlanBackfill(None, target, lastClosed, period);
    } else {
      OldestIs(repo.rows, series, bounds.value.0);
      plan := PlanBackfill(Some(bounds.value.0), target, lastClosed, period);
    }
  }

  /** The rows after the planned pass; a plan `backfill` refuses leaves them alone. */
  ghost function AfterPass(c: Campaign, rows: Rows, lastClosed: int): Rows
    requires c.period > 0
  {
    var plan := PlanFor(c, rows, lastClosed);
    if plan.IsComplete() || plan.end.None? || !Accepted(plan, c.period) then rows
    else BackfillRows(rows, c.series, plan.start.value, plan.end.value, c.period, c.venue)
  }

  /** `Backfill` runs the plan rather than refusing its range. */
  predicate Accepted(plan: Plan, period: int)
    requires period > 0 && plan.start.Some? && plan.end.Some?
  {
    && plan.start.value <= plan.end.value
    && plan.end.value - plan.start.value < MAX_BACKFILL_BARS * period
  }

  ghost function AfterPasses(c: Campaign, rows: Rows, clock: nat -> int, n: nat): Rows
    requires c.period > 0
  {
    if n == 0 then rows else AfterPass(c, AfterPasses(c, rows, clock, n - 1), LastClosedBar(clock(n - 1), c.period))
  }

  ghost predicate Forward(clock: nat -> int) {
    forall n: nat, m: nat | n <= m :: clock(n) <= clock(m)
  }

  // ── one pass ───────────────────────────────────────────────────────────

  /** On the grid, the distance from target to edge is a whole number of periods. */
  lemma Outstanding(target: int, end: int, period: int) returns (n: int)
    requires period > 0 && IsBoundary(target, period) && IsBoundary(end, period) && target <= end
    ensures n >= 0 && end == target + n * period && TruncDiv(end - target, period) == n
  {
    n := end / period - target / period;
    assert end == (end / period) * period && target == (target / period) * period;
    assert end - target == n * period;
    if n < 0 { MultiplesApart(target / period, end / period, period); }
    DivisionIs(end - target, n, 0, period);
  }

  /**
   A plan on the grid is one `backfill` accepts: at most 10,000 boundaries, all older than
   the oldest stored bar and none older than the target.
   */
  lemma PlanFits(oldest: Option<int>, target: int, lastClosed: int, period: int)
    requires period > 0 && IsBoundary(target, period)
    requires IsBoundary(if oldest.Some? then oldest.value else lastClosed, period)
    ensures var plan := PlanBackfill(oldest, target, lastClosed, period);
            !plan.IsComplete() ==>
              && plan.end.Some? && Accepted(plan, period)
              && IsBoundary(plan.start.value, period) && IsBoundary(plan.end.value, period)
              && target <= plan.start.value
              && plan.bars == |Boundaries(plan.start.value, plan.end.value, period)| <= MAX_BACKFILL_BARS
              && plan.end.value == (if oldest.Some? then oldest.value - period else lastClosed)
              && plan.passes >= 1
              && (plan.passes == 1 <==> plan.start.value == target)
  {
    var plan := PlanBackfill(oldest, target, lastClosed, period);
    if !plan.IsComplete() {
      var end := plan.end.value;
      if oldest.Some? {
        BoundaryShift(oldest.value, period, -1);
        BoundaryGap(target, oldest.value, period);
      }
      var n := Outstanding(target, end, period);
      DeepestStart(target, end, n, period);
      PassSpan(plan.start.value, end, if n < MAX_BACKFILL_BARS then n + 1 else MAX_BACKFILL_BARS, period);
    }
  }

  /** How far back one pass from `end` reaches, `n` periods short of it being the target. */
  lemma DeepestStart(target: int, end: int, n: nat, period: int)
    requires period > 0 && IsBoundary(target, period) && IsBoundary(end, period)
    requires end == target + n * period
    ensures var start := Later(target, end - period * (MAX_BACKFILL_BARS - 1));
            && IsBoundary(start, period)
            && (start == target <==> n < MAX_BACKFILL_BARS)
            && (n < MAX_BACKFILL_BARS ==> end == start + n * period)
            && (n >= MAX_BACKFILL_BARS ==> end == start + (MAX_BACKFILL_BARS - 1) * period)
  {
    var deepest := end - period * (MAX_BACKFILL_BARS - 1);
    assert deepest == end + (1 - MAX_BACKFILL_BARS) * period;
    BoundaryShift(end, period, 1 - MAX_BACKFILL_BARS);
    MultiplesApart(n, MAX_BACKFILL_BARS - 1, period);
    MultiplesApart(MAX_BACKFILL_BARS - 1, n, period);
  }

  lemma PassSpan(start: int, end: int, n: nat, period: int)
    requires period > 0 && IsBoundary(start, period) && n >= 1 && end == start + (n - 1) * period
    ensures TruncDiv(end - start, period) + 1 == n == |Boundaries(start, end, period)|
    ensures start <= end
  {
    assert (n - 1) * period >= 0;
    DivisionIs(end - start, n - 1, 0, period);
    BoundaryCount(start, n, period);
  }

  /** What a pass leaves: the planned range stored, and a plan one pass shorter. */
  lemma PassProgress(c: Campaign, rows: Rows, lastClosed: int, later: int)
    requires ServesFromTarget(c) && IsBoundary(c.target, c.period)
    requires IsBoundary(lastClosed, c.period) && lastClosed <= later
    requires Gridded(rows, c.series, c.period)
    requires !PlanFor(c, rows, lastClosed).IsComplete()
    ensures var plan := PlanFor(c, rows, lastClosed);
            var rows' := AfterPass(c, rows, lastClosed);
            && plan.end.Some? && Accepted(plan, c.period)
            && Grown(rows, rows', c.series, plan.start.value, plan.end.value, c.period)
            && Gridded(rows', c.series, c.period)
            && CompleteBetween(rows', c.series, plan.start.value, plan.end.value, c.period)
            && OldestOf(rows', c.series) == plan.start
            && IsBoundary(plan.start.value, c.period) && IsBoundary(plan.end.value, c.period)
            && (plan.passes == 1 <==> plan.start.value == c.target)
            && PlanFor(c, rows', later).passes == plan.passes - 1
            && (PlanFor(c, rows', later).IsComplete() <==> plan.passes == 1)
            && (plan.passes > 1 ==>
                  && PlanFor(c, rows', later).end == Some(plan.start.value - c.period)
                  && Accepted(PlanFor(c, rows', later), c.period))
  {
    hide PlanBackfill, BackfillRows, Boundaries, Accepted, IsBoundary;
    var plan := PlanFor(c, rows, lastClosed);
    var oldest := OldestOf(rows, c.series);
    OldestOnGrid(rows, c.series, c.period);
    PlanFits(oldest, c.target, lastClosed, c.period);
    var start, end := plan.start.value, plan.end.value;
    PassStores(c, rows, start, end);
    var rows' := AfterPass(c, rows, lastClosed);
    assert Stored(rows', c.series, start);
    forall k | k in rows' && k.series == c.series
      ensures start <= k.ts && IsBoundary(k.ts, c.period)
    {
    }
    OldestIs(rows', c.series, start);
    PassesFall(oldest, c.target, lastClosed, later, c.period);
  }

  lemma BackfillGrows(rows: Rows, series: Series, start: int, end: int, period: int, venue: Venue)
    requires period > 0
    ensures Grown(rows, BackfillRows(rows, series, start, end, period, venue), series, start, end, period)
  {
    var missing := Gaps(rows, series, start, end, period);
    GapsExact(rows, series, start, end, period);
    if missing != [] && venue(missing[0], end).Ok? {
      StoreBarsExact(rows, series, missing, ByTime(venue(missing[0], end).value));
    }
  }

  lemma PassStores(c: Campaign, rows: Rows, start: int, end: int)
    requires ServesFromTarget(c) && c.target <= start <= end
    ensures var rows' := BackfillRows(rows, c.series, start, end, c.period, c.venue);
            && Grown(rows, rows', c.series, start, end, c.period)
            && CompleteBetween(rows', c.series, start, end, c.period)
  {
    var missing := Gaps(rows, c.series, start, end, c.period);
    GapsExact(rows, c.series, start, end, c.period);
    if missing != [] {
      assert missing[0] in missing;
      var reply := c.venue(missing[0], end);
      assert ServedReply(c, reply, missing[0], end);
      StoreBarsExact(rows, c.series, missing, ByTime(reply.value));
      forall t | t in missing
        ensures t in ByTime(reply.value)
      {
        var i :| 0 <= i < |missing| && missing[i] == t;
        assert i > 0 ==> missing[0] < missing[i];
      }
    }
  }

  lemma PassesFall(oldest: Option<int>, target: int, lastClosed: int, later: int, period: int)
    requires period > 0 && IsBoundary(target, period) && IsBoundary(lastClosed, period) && lastClosed <= later
    requires oldest.Some? ==> IsBoundary(oldest.value, period)
    requires !PlanBackfill(oldest, target, lastClosed, period).IsComplete()
    ensures var plan := PlanBackfill(oldest, target, lastClosed, period);
            var next := PlanBackfill(plan.start, target, later, period);
            && next.passes == plan.passes - 1
            && (next.IsComplete() <==> plan.passes == 1)
            && (plan.passes > 1 ==> next.end == Some(plan.start.value - period) && Accepted(next, period))
  {
    var plan := PlanBackfill(oldest, target, lastClosed, period);
    PlanFits(oldest, target, lastClosed, period);
    PlanFits(plan.start, target, later, period);
    var end := plan.end.value;
    var n := Outstanding(target, end, period);
    if plan.start.value != target {
      var end' := plan.start.value - period;
      assert end' == target + (n - MAX_BACKFILL_BARS) * period by {
        assert period * (MAX_BACKFILL_BARS - 1) + period == MAX_BACKFILL_BARS * period;
      }
      BoundaryGap(target, plan.start.value, period);
      BoundaryShift(plan.start.value, period, -1);
      var n' := Outstanding(target, end', period);
      DivisionUnique(n', 0, n - MAX_BACKFILL_BARS, 0, period);
    }
  }

  // ── the whole campaign ─────────────────────────────────────────────────

  /**
   Exactly `passes_remaining` passes reach an aligned target: none of the plans is
   refused, the number falls by one each time, no stored row changes, and every boundary
   from the target to the edge the first plan started from ends up stored.
   */
  lemma {:induction false} CampaignConverges(c: Campaign, rows: Rows, clock: nat -> int, n: nat)
    requires ServesFromTarget(c) && IsBoundary(c.target, c.period)
    requires Gridded(rows, c.series, c.period) && Forward(clock)
    requires var first := PlanFor(c, rows, LastClosedBar(clock(0), c.period));
             !first.IsComplete() && n <= first.passes
    ensures var first := PlanFor(c, rows, LastClosedBar(clock(0), c.period));
            var rows' := AfterPasses(c, rows, clock, n);
            Underway(c, rows, first, rows', PlanFor(c, rows', LastClosedBar(clock(n), c.period)), n)
    decreases n
  {
    hide PlanFor, IsBoundary, FloorToPeriod, Underway;
    var first := PlanFor(c, rows, LastClosedBar(clock(0), c.period));
    LastClosedBarIsNewest(clock(0), c.period);
    FirstPlanAccepted(c, rows, LastClosedBar(clock(0), c.period));
    if n > 0 {
      CampaignConverges(c, rows, clock, n - 1);
      ClockedForward(clock, n, c.period);
      CampaignStep(c, rows, first, AfterPasses(c, rows, clock, n - 1), n - 1,
                   LastClosedBar(clock(n - 1), c.period), LastClosedBar(clock(n), c.period));
    }
  }

  /** Where `n` passes of a campaign that began with plan `first` have got to. */
  ghost predicate Underway(c: Campaign, rows: Rows, first: Plan, rows': Rows, next: Plan, n: nat)
    requires c.period > 0
  {
    && Extends(rows, rows') && Gridded(rows', c.series, c.period) && first.end.Some?
    && next.passes == first.passes - n
    && (next.IsComplete() <==> n == first.passes)
    && (n < first.passes ==>
          && next.end.Some? && Accepted(next, c.period)
          && IsBoundary(next.end.value, c.period)
          && CompleteBetween(rows', c.series, next.end.value + c.period, first.end.value, c.period))
    && (n == first.passes ==> CompleteBetween(rows', c.series, c.target, first.end.value, c.period))
  }

  lemma ClockedForward(clock: nat -> int, n: nat, period: int)
    requires period > 0 && n > 0 && Forward(clock)
    ensures IsBoundary(LastClosedBar(clock(n - 1), period), period)
    ensures LastClosedBar(clock(n - 1), period) <= LastClosedBar(clock(n), period)
  {
    LastClosedBarIsNewest(clock(n - 1), period);
    LastClosedBarIsNewest(clock(n), period);
  }

  lemma CampaignStep(c: Campaign, rows: Rows, first: Plan, before: Rows, n: nat, lastClosed: int, later: int)
    requires ServesFromTarget(c) && IsBoundary(c.target, c.period)
    requires IsBoundary(lastClosed, c.period) && lastClosed <= later
    requires n < first.passes && Underway(c, rows, first, before, PlanFor(c, before, lastClosed), n)
    ensures var rows' := AfterPass(c, before, lastClosed);
            Underway(c, rows, first, rows', PlanFor(c, rows', later), n + 1)
  {
    hide PlanFor, AfterPass, IsBoundary, CompleteBetween, Accepted, Gridded;
    var plan := PlanFor(c, before, lastClosed);
    PassProgress(c, before, lastClosed, later);
    var rows' := AfterPass(c, before, lastClosed);
    PassJoins(c, before, rows', plan, first.end.value);
    BoundaryShift(plan.start.value, c.period, -1);
    assert plan.start.value + -1 * c.period == plan.start.value - c.period;
  }

  lemma FirstPlanAccepted(c: Campaign, rows: Rows, lastClosed: int)
    requires c.period > 0 && IsBoundary(c.target, c.period) && IsBoundary(lastClosed, c.period)
    requires Gridded(rows, c.series, c.period)
    requires !PlanFor(c, rows, lastClosed).IsComplete()
    ensures var plan := PlanFor(c, rows, lastClosed);
            plan.passes >= 1 && Underway(c, rows, plan, rows, plan, 0)
  {
    OldestOnGrid(rows, c.series, c.period);
    PlanFits(OldestOf(rows, c.series), c.target, lastClosed, c.period);
  }

  lemma OldestOnGrid(rows: Rows, series: Series, period: int)
    requires period > 0 && Gridded(rows, series, period)
    ensures var oldest := OldestOf(rows, series);
            oldest.Some? ==> IsBoundary(oldest.value, period)
  {
    var oldest := OldestOf(rows, series);
    assert oldest.Some? ==> Key(series, oldest.value) in rows;
  }

  lemma PassJoins(c: Campaign, before: Rows, rows': Rows, plan: Plan, edge: int)
    requires c.period > 0 && plan.start.Some? && plan.end.Some?
    requires Extends(before, rows')
    requires CompleteBetween(before, c.series, plan.end.value + c.period, edge, c.period)
    requires CompleteBetween(rows', c.series, plan.start.value, plan.end.value, c.period)
    requires IsBoundary(plan.end.value, c.period)
    ensures CompleteBetween(rows', c.series, plan.start.value, edge, c.period)
  {
    forall b | IsBoundary(b, c.period) && plan.start.value <= b <= edge
      ensures Stored(rows', c.series, b)
    {
      if plan.end.value < b {
        BoundaryGap(plan.end.value, b, c.period);
        assert Stored(before, c.series, b);
      }
    }
  }

  // ── targets off the grid ───────────────────────────────────────────────

  /**
   A plan is one `backfill` refuses exactly when the target falls inside the bar just
   before the stored ones: the plan then starts after it ends.
   */
  lemma RefusedExactly(oldest: Option<int>, target: int, lastClosed: int, period: int)
    requires period > 0
    requires !PlanBackfill(oldest, target, lastClosed, period).IsComplete()
    ensures var plan := PlanBackfill(oldest, target, lastClosed, period);
            && plan.end.Some?
            && (!Accepted(plan, period) <==> oldest.Some? && oldest.value - period < target < oldest.value)
  {
    var plan := PlanBackfill(oldest, target, lastClosed, period);
    var start, end := plan.start.value, plan.end.value;
    if start <= end {
      assert (MAX_BACKFILL_BARS - 1) * period == period * (MAX_BACKFILL_BARS - 1) >= end - start;
      MultiplesApart((end - start) / period, MAX_BACKFILL_BARS - 1, period);
      assert end - start == (end - start) / period * period + (end - start) % period;
    }
  }

  /** Nothing at or before the target is stored, so the target does not count as reached. */
  ghost predicate Short(c: Campaign, rows: Rows)
    requires c.period > 0
  {
    && Gridded(rows, c.series, c.period)
    && forall k | k in rows && k.series == c.series :: c.target < k.ts
  }

  lemma ShortIsIncomplete(c: Campaign, rows: Rows, lastClosed: int)
    requires c.period > 0 && c.target <= lastClosed
    ensures Gridded(rows, c.series, c.period) ==>
              (!PlanFor(c, rows, lastClosed).IsComplete() <==> Short(c, rows))
  {
    var oldest := OldestOf(rows, c.series);
    assert oldest.Some? ==> Key(c.series, oldest.value) in rows;
  }

  lemma PassStaysShort(c: Campaign, rows: Rows, lastClosed: int)
    requires c.period > 0 && !IsBoundary(c.target, c.period) && Short(c, rows)
    ensures Short(c, AfterPass(c, rows, lastClosed))
  {
    var plan := PlanFor(c, rows, lastClosed);
    if !plan.IsComplete() && plan.end.Some? && Accepted(plan, c.period) {
      var start, end := plan.start.value, plan.end.value;
      BackfillGrows(rows, c.series, start, end, c.period, c.venue);
      hide BackfillRows, IsBoundary;
      forall k | k in AfterPass(c, rows, lastClosed) && k.series == c.series
        ensures IsBoundary(k.ts, c.period) && c.target < k.ts
      {
      }
    }
  }

  /** Whatever the venue serves, a target off the grid is never reported as reached. */
  lemma {:induction false} OffGridNeverCompletes(c: Campaign, rows: Rows, clock: nat -> int, n: nat)
    requires c.period > 0 && !IsBoundary(c.target, c.period)
    requires Gridded(rows, c.series, c.period) && Forward(clock)
    requires !PlanFor(c, rows, LastClosedBar(clock(0), c.period)).IsComplete()
    ensures Short(c, AfterPasses(c, rows, clock, n))
    ensures !PlanFor(c, AfterPasses(c, rows, clock, n), LastClosedBar(clock(n), c.period)).IsComplete()
    decreases n
  {
    ShortIsIncomplete(c, rows, LastClosedBar(clock(0), c.period));
    if n > 0 {
      OffGridNeverCompletes(c, rows, clock, n - 1);
      PassStaysShort(c, AfterPasses(c, rows, clock, n - 1), LastClosedBar(clock(n - 1), c.period));
    }
    FloorIsGreatestBoundary(clock(0), c.period);
    FloorIsGreatestBoundary(clock(n), c.period);
    ShortIsIncomplete(c, AfterPasses(c, rows, clock, n), LastClosedBar(clock(n), c.period));
  }

  /** A campaign on a venue that serves its target ends iff the target is on the grid. */
  lemma CompletesIffOnGrid(c: Campaign, rows: Rows, clock: nat -> int)
    requires ServesFromTarget(c) && Gridded(rows, c.series, c.period) && Forward(clock)
    requires !PlanFor(c, rows, LastClosedBar(clock(0), c.period)).IsComplete()
    ensures (exists n: nat :: PlanFor(c, AfterPasses(c, rows, clock, n), LastClosedBar(clock(n), c.period)).IsComplete())
            <==> IsBoundary(c.target, c.period)
  {
    var first := PlanFor(c, rows, LastClosedBar(clock(0), c.period));
    if IsBoundary(c.target, c.period) {
      LastClosedBarIsNewest(clock(0), c.period);
      FirstPlanAccepted(c, rows, LastClosedBar(clock(0), c.period));
      CampaignConverges(c, rows, clock, first.passes);
    } else {
      forall n: nat
        ensures !PlanFor(c, AfterPasses(c, rows, clock, n), LastClosedBar(clock(n), c.period)).IsComplete()
      {
        OffGridNeverCompletes(c, rows, clock, n);
      }
    }
  }
}
