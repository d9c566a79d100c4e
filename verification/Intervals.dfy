/**
 Interval arithmetic on the grid of bar boundaries (quant/shared/intervals.py).

 A timestamp is an integer count of milliseconds since the Unix epoch, in UTC; a
 period is a positive number of milliseconds. Dafny's `/` and `%` with a positive
 divisor floor, as Python's timedelta `//` does.
 */
module Intervals {
  import opened Outcomes

  const DAY := 86_400_000

  /** The longest run of days `NextSessionApplySlot` looks at. */
  const SESSION_HORIZON := 10

  datatype IntervalError = OffsetOutOfRange | NoSessionClose

  ghost predicate IsBoundary(t: int, period: int)
    requires period > 0
  {
    t % period == 0
  }

  ghost predicate Ascending(s: seq<int>) {
    forall i, j | 0 <= i < j < |s| :: s[i] < s[j]
  }

  // ── boundaries ─────────────────────────────────────────────────────────

  function FloorToPeriod(ts: int, period: int): int
    requires period > 0
  {
    (ts / period) * period
  }

  function LastClosedBar(now: int, period: int): int
    requires period > 0
  {
    FloorToPeriod(now, period) - period
  }

  /** Different multiples of a period are at least a period apart. */
  lemma MultiplesApart(q: int, q': int, period: int)
    requires period > 0
    ensures q' < q ==> q' * period + period <= q * period
    decreases q
  {
    if q' < q {
      var k := q - q';
      assert k * period >= period by { MultipleAtLeast(k, period); }
      assert k * period == q * period - q' * period;
    }
  }

  lemma MultipleAtLeast(k: int, period: int)
    requires k >= 1 && period > 0
    ensures k * period >= period
  {
    if k > 1 { MultipleAtLeast(k - 1, period); }
  }

  lemma DivisionUnique(q: int, r: int, q': int, r': int, period: int)
    requires 0 <= r < period && 0 <= r' < period
    requires q * period + r == q' * period + r'
    ensures q == q' && r == r'
  {
    MultiplesApart(q, q', period);
    MultiplesApart(q', q, period);
  }

  lemma DivisionIs(t: int, q: int, r: int, period: int)
    requires 0 <= r < period && t == q * period + r
    ensures t / period == q && t % period == r
  {
    assert t == (t / period) * period + t % period;
    DivisionUnique(q, r, t / period, t % period, period);
  }

  lemma BoundaryShift(t: int, period: int, k: int)
    requires period > 0
    ensures IsBoundary(t + k * period, period) == IsBoundary(t, period)
  {
    var q, r := t / period, t % period;
    assert t == q * period + r;
    assert t + k * period == (q + k) * period + r;
    DivisionIs(t + k * period, q + k, r, period);
  }

  /** Two distinct boundaries are at least a period apart. */
  lemma BoundaryGap(a: int, b: int, period: int)
    requires period > 0
    requires IsBoundary(a, period) && IsBoundary(b, period) && a < b
    ensures a + period <= b
  {
    var qa, qb := a / period, b / period;
    assert a == qa * period && b == qb * period;
    MultiplesApart(qa, qb, period);
    MultiplesApart(qb, qa, period);
  }

  /** `FloorToPeriod` is the greatest boundary at or before `ts`. */
  lemma FloorIsGreatestBoundary(ts: int, period: int)
    requires period > 0
    ensures var f := FloorToPeriod(ts, period);
            && IsBoundary(f, period)
            && f <= ts < f + period
            && forall b | IsBoundary(b, period) && b <= ts :: b <= f
  {
    var f := FloorToPeriod(ts, period);
    DivisionIs(f, ts / period, 0, period);
    assert ts == f + ts % period;
    forall b | IsBoundary(b, period) && b <= ts
      ensures b <= f
    {
      if f < b { BoundaryGap(f, b, period); }
    }
  }

  /**
   The newest closed bar has closed by `now`, and every later boundary opens a
   bar that is still forming or not yet begun.
   */
  lemma LastClosedBarIsNewest(now: int, period: int)
    requires period > 0
    ensures var c := LastClosedBar(now, period);
            && IsBoundary(c, period)
            && c + period <= now
            && forall b | IsBoundary(b, period) && b + period <= now :: b <= c
  {
    FloorIsGreatestBoundary(now, period);
    BoundaryShift(LastClosedBar(now, period), period, 1);
    forall b | IsBoundary(b, period) && b + period <= now
      ensures b <= LastClosedBar(now, period)
    {
      BoundaryShift(b, period, 1);
    }
  }

  // ── every boundary in a range ──────────────────────────────────────────

  function FirstBoundary(start: int, period: int): int
    requires period > 0
  {
    var f := FloorToPeriod(start, period);
    if f < start then f + period else f
  }

  function StepsFrom(current: int, end: int, period: int): seq<int>
    requires period > 0
    decreases end - current
  {
    if current > end then [] else [current] + StepsFrom(current + period, end, period)
  }

  /** What `BarStarts` returns: the boundaries in `[start, end]`, oldest first. */
  function Boundaries(start: int, end: int, period: int): seq<int>
    requires period > 0
  {
    StepsFrom(FirstBoundary(start, period), end, period)
  }

  method BarStarts(start: int, end: int, period: int) returns (out: seq<int>)
    requires period > 0
    ensures out == Boundaries(start, end, period)
  {
    var current := FloorToPeriod(start, period);
    if current < start {
      current := current + period;
    }
    out := [];
    while current <= end
      invariant out + StepsFrom(current, end, period) == Boundaries(start, end, period)
      decreases end - current
    {
      out := out + [current];
      current := current + period;
    }
  }

  lemma FirstBoundaryIsLeast(start: int, period: int)
    requires period > 0
    ensures var f := FirstBoundary(start, period);
            && IsBoundary(f, period)
            && start <= f < start + period
            && forall b | IsBoundary(b, period) && start <= b :: f <= b
  {
    FloorIsGreatestBoundary(start, period);
    var g := FloorToPeriod(start, period);
    BoundaryShift(g, period, 1);
    forall b | IsBoundary(b, period) && start <= b
      ensures FirstBoundary(start, period) <= b
    {
      if g < b { BoundaryGap(g, b, period); }
    }
  }

  lemma {:induction false} StepsFromExact(current: int, end: int, period: int)
    requires period > 0 && IsBoundary(current, period)
    ensures Ascending(StepsFrom(current, end, period))
    ensures forall t :: t in StepsFrom(current, end, period)
                        <==> IsBoundary(t, period) && current <= t <= end
    decreases end - current
  {
    if current <= end {
      BoundaryShift(current, period, 1);
      StepsFromExact(current + period, end, period);
      forall t | IsBoundary(t, period) && current <= t <= end
        ensures t in StepsFrom(current, end, period)
      {
        if current < t { BoundaryGap(current, t, period); }
      }
      var rest := StepsFrom(current + period, end, period);
      assert forall j | 0 <= j < |rest| :: rest[j] in rest;
    }
  }

  /** `BarStarts` lists each boundary of the range exactly once, in order. */
  lemma BoundariesExact(start: int, end: int, period: int)
    requires period > 0
    ensures Ascending(Boundaries(start, end, period))
    ensures forall t :: t in Boundaries(start, end, period)
                        <==> IsBoundary(t, period) && start <= t <= end
  {
    FirstBoundaryIsLeast(start, period);
    StepsFromExact(FirstBoundary(start, period), end, period);
  }

  /** A range of `n` periods from a boundary holds `n` boundaries. */
  lemma {:induction false} BoundaryCount(first: int, n: nat, period: int)
    requires period > 0 && IsBoundary(first, period)
    ensures |Boundaries(first, first + (n - 1) * period, period)| == n
  {
    FirstBoundaryIsLeast(first, period);
    StepsCount(first, first + (n - 1) * period, n, period);
  }

  lemma {:induction false} StepsCount(current: int, end: int, n: nat, period: int)
    requires period > 0 && end == current + (n - 1) * period
    ensures |StepsFrom(current, end, period)| == n
    decreases n
  {
    if n > 0 {
      assert (n - 1) * period >= 0;
      assert end == current + period + (n - 1 - 1) * period;
      StepsCount(current + period, end, n - 1, period);
    }
  }

  // ── apply slots ────────────────────────────────────────────────────────

  /** `s` is `offset` before a boundary. */
  ghost predicate IsApplySlot(s: int, period: int, offset: int)
    requires period > 0
  {
    IsBoundary(s + offset, period)
  }

  function NextApplySlot(after: int, period: int, offset: int): Result<int, IntervalError>
    requires period > 0
  {
    if !(0 <= offset < period) then Err(OffsetOutOfRange)
    else
      var close := FloorToPeriod(after, period) + period;
      var candidate := close - offset;
      if candidate > after then Ok(candidate) else Ok(candidate + period)
  }

  /**
   The slot is the least instant `offset` before a boundary that is strictly after
   `after`; from one slot the next is exactly one period on.
   */
  lemma NextApplySlotIsLeast(after: int, period: int, offset: int)
    requires period > 0
    ensures NextApplySlot(after, period, offset).Ok? <==> 0 <= offset < period
    ensures 0 <= offset < period ==>
              var slot := NextApplySlot(after, period, offset).value;
              && after < slot && IsApplySlot(slot, period, offset)
              && (forall s | after < s && IsApplySlot(s, period, offset) :: slot <= s)
              && NextApplySlot(slot, period, offset) == Ok(slot + period)
  {
    if 0 <= offset < period {
      SlotIsLeast(after, period, offset);
      var slot := NextApplySlot(after, period, offset).value;
      SlotIsLeast(slot, period, offset);
      var next := NextApplySlot(slot, period, offset).value;
      BoundaryShift(slot + offset, period, 1);
      BoundaryGap(slot + offset, next + offset, period);
      assert (slot + period) + offset == (slot + offset) + 1 * period;
      assert IsApplySlot(slot + period, period, offset);
    }
  }

  lemma SlotIsLeast(after: int, period: int, offset: int)
    requires period > 0 && 0 <= offset < period
    ensures var slot := NextApplySlot(after, period, offset).value;
            && after < slot && IsApplySlot(slot, period, offset)
            && forall s | after < s && IsApplySlot(s, period, offset) :: slot <= s
  {
    var floor := FloorToPeriod(after, period);
    FloorIsGreatestBoundary(after, period);
    BoundaryShift(floor, period, 1);
    BoundaryShift(floor, period, 2);
    var slot := NextApplySlot(after, period, offset).value;
    forall s | after < s && IsApplySlot(s, period, offset)
      ensures slot <= s
    {
      BoundaryGap(floor, s + offset, period);
      if floor + period - offset <= after {
        BoundaryGap(floor + period, s + offset, period);
      }
    }
  }

  // ── session slots ──────────────────────────────────────────────────────

  /** The day is no Saturday, as day 2, 3 January 1970, was, and no Sunday, as the day after it. */
  ghost predicate OnSessionDay(day: int) {
    (day - 2) % 7 != 0 && (day - 3) % 7 != 0
  }

  /** Monday is 0. Day 0, 1 January 1970, was a Thursday. */
  function Weekday(day: int): int {
    (day + 3) % 7
  }

  lemma WeekdayMeans(day: int)
    ensures Weekday(day) < 5 <==> OnSessionDay(day)
  {
  }

  /** No three days in a row are without a session. */
  lemma SessionDayFrom(day: int) returns (last: int)
    ensures day <= last <= day + 2 && OnSessionDay(last)
  {
    last := if OnSessionDay(day) then day else if OnSessionDay(day + 1) then day + 1 else day + 2;
  }

  /** The close of a day before that of `after` is past, and one a week or more later is not for six days. */
  lemma DayOf(after: int, closeTime: int, day: int)
    requires 0 <= closeTime < DAY
    ensures forall d | d < after / DAY :: d * DAY + closeTime < after
    ensures day >= after / DAY + 7 ==> day * DAY + closeTime > after + 6 * DAY
  {
    assert (after / DAY) * DAY <= after < (after / DAY + 1) * DAY;
  }

  function SessionSlot(day: int, closeTime: int, offset: int): int {
    day * DAY + closeTime - offset
  }

  /**
   The next apply before a listed session's close. `after` and the result are
   wall-clock milliseconds in the market's own zone, the clock the source compares on.
   */
  method NextSessionApplySlot(after: int, closeTime: int, offset: int)
    returns (r: Result<int, IntervalError>)
    requires 0 <= closeTime < DAY
    ensures offset < 0 <==> r == Err(OffsetOutOfRange)
    ensures r.Ok? ==>
              && after < r.value
              && (exists d :: OnSessionDay(d) && r.value == d * DAY + closeTime - offset)
              && forall d | OnSessionDay(d) && after < d * DAY + closeTime - offset :: r.value <= d * DAY + closeTime - offset
    ensures r == Err(NoSessionClose) <==>
            && 0 <= offset
            && forall d | 0 <= d - after / DAY < SESSION_HORIZON && OnSessionDay(d) :: d * DAY + closeTime - offset <= after
    ensures 0 <= offset <= 6 * DAY ==> r.Ok?
  {
    hide OnSessionDay, Weekday;
    if offset < 0 {
      return Err(OffsetOutOfRange);
    }
    var day := after / DAY;
    DayOf(after, closeTime, day);
    for n := 0 to SESSION_HORIZON
      invariant day == after / DAY + n
      invariant forall d | after / DAY <= d < day && OnSessionDay(d) :: d * DAY + closeTime - offset <= after
    {
      WeekdayMeans(day);
      if Weekday(day) >= 5 {
        day := day + 1;
        continue;
      }
      var candidate := SessionSlot(day, closeTime, offset);
      if candidate > after {
        return Ok(candidate);
      }
      day := day + 1;
    }
    ghost var last := SessionDayFrom(after / DAY + 7);
    DayOf(after, closeTime, last);
    return Err(NoSessionClose);
  }
}
