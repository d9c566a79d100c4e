/**
 What the compounded equity curve and its drawdown mean (quant/strategy/performance.py).
 */
module Equity {
  import opened Outcomes
  import opened Columns
  import opened Indicators
  import opened Signals
  import opened FactorFrames
  import opened Performance

  function EquityAfter(pnl: Column, n: nat): real
    requires n <= |pnl|
  {
    CurveAfter(pnl, n).equity
  }

  /** Simple gains compounded, floored at a loss of everything. */
  function Growth(gains: seq<real>): real {
    if gains == [] then 1.0
    else Growth(gains[..|gains| - 1]) * Max(0.0, 1.0 + gains[|gains| - 1])
  }

  /** The equity is the growth of the gains that are known; a gap neither gains nor loses. */
  lemma {:induction false} EquityIsGrowth(pnl: Column, n: nat)
    requires n <= |pnl|
    ensures EquityAfter(pnl, n) == Growth(Present(pnl[..n]))
  {
    if n > 0 {
      EquityIsGrowth(pnl, n - 1);
      assert pnl[..n][..n - 1] == pnl[..n - 1];
      var before := Present(pnl[..n - 1]);
      assert Present(pnl[..n]) == before + (if pnl[n - 1].Some? then [pnl[n - 1].value] else []);
      if pnl[n - 1].Some? {
        GrowthStep(before, pnl[n - 1].value);
      } else {
        assert Present(pnl[..n]) == before;
      }
    }
  }

  lemma GrowthStep(before: seq<real>, gain: real)
    requires Growth(before) >= 0.0
    ensures Growth(before + [gain]) == Grow(Growth(before), gain)
  {
    assert (before + [gain])[..|before|] == before;
  }

  /** The peak is the highest equity so far, the starting capital among them. */
  lemma {:induction false} PeakIsHighest(pnl: Column, n: nat)
    requires n <= |pnl|
    ensures forall j | 0 <= j <= n :: EquityAfter(pnl, j) <= CurveAfter(pnl, n).peak
    ensures exists j :: 0 <= j <= n && EquityAfter(pnl, j) == CurveAfter(pnl, n).peak
  {
    hide Grow;
    if n == 0 {
      assert EquityAfter(pnl, 0) == CurveAfter(pnl, 0).peak;
    } else {
      PeakIsHighest(pnl, n - 1);
      var before := CurveAfter(pnl, n - 1).peak;
      var k :| 0 <= k <= n - 1 && EquityAfter(pnl, k) == before;
      assert CurveAfter(pnl, n).peak == EquityAfter(pnl, if CurveAfter(pnl, n).peak == before then k else n);
    }
  }

  /** The share of an earlier equity lost by a later one. */
  function Fall(from: real, to: real): real
    requires from > 0.0
  {
    1.0 - to / from
  }

  lemma FallGrows(low: real, high: real, to: real)
    requires 0.0 < low <= high && to >= 0.0
    ensures Fall(low, to) <= Fall(high, to)
  {
    assert to / low * low == to && to / high * high == to;
    assert to / high * low <= to / high * high;
    assert to / high <= to / low;
  }

  lemma FallBounds(from: real, to: real)
    requires 0.0 <= to <= from && from > 0.0
    ensures 0.0 <= Fall(from, to) <= 1.0
  {
    assert to / from * from == to;
    assert to / from <= 1.0;
    assert to / from >= 0.0;
  }

  /**
   The one-pass drawdown is the peak-to-trough definition: the greatest fall to this bar
   from the starting capital or from the equity after any bar so far.
   */
  lemma DrawdownIsGreatestFall(pnl: Column, i: nat)
    requires i < |pnl| && pnl[i].Some?
    ensures var dd := DrawdownColumn(pnl)[i];
            && dd.Some?
            && (forall j | 0 <= j <= i + 1 && EquityAfter(pnl, j) > 0.0 ::
                  Fall(EquityAfter(pnl, j), EquityAfter(pnl, i + 1)) <= dd.value)
            && exists j :: 0 <= j <= i + 1 && EquityAfter(pnl, j) > 0.0
                           && Fall(EquityAfter(pnl, j), EquityAfter(pnl, i + 1)) == dd.value
  {
    hide CurveAfter;
    PeakIsHighest(pnl, i + 1);
    var peak, now := CurveAfter(pnl, i + 1).peak, EquityAfter(pnl, i + 1);
    forall j | 0 <= j <= i + 1 && EquityAfter(pnl, j) > 0.0
      ensures Fall(EquityAfter(pnl, j), now) <= Fall(peak, now)
    {
      FallGrows(EquityAfter(pnl, j), peak, now);
    }
    var k :| 0 <= k <= i + 1 && EquityAfter(pnl, k) == peak;
    assert Fall(EquityAfter(pnl, k), now) == DrawdownColumn(pnl)[i].value;
  }

  /** A drawdown is a share of the peak, and no loss exceeds the capital. */
  lemma LossesBounded(pnl: Column, i: nat)
    requires i < |pnl|
    ensures DrawdownColumn(pnl)[i].Some? <==> pnl[i].Some?
    ensures CumulativeColumn(pnl)[i].Some? <==> pnl[i].Some?
    ensures pnl[i].Some? ==>
              0.0 <= DrawdownColumn(pnl)[i].value <= 1.0 && -1.0 <= CumulativeColumn(pnl)[i].value
  {
    hide CurveAfter;
    var c := CurveAfter(pnl, i + 1);
    FallBounds(c.peak, c.equity);
  }

  lemma {:induction false} EquityStaysZero(pnl: Column, k: nat, n: nat)
    requires k <= n <= |pnl| && EquityAfter(pnl, k) == 0.0
    ensures EquityAfter(pnl, n) == 0.0
  {
    if k < n {
      EquityStaysZero(pnl, k, n - 1);
    }
  }

  /** Ruin is for good: after a bar that loses everything, nothing is ever regained. */
  lemma RuinIsFinal(pnl: Column, k: nat, i: nat)
    requires k <= i < |pnl| && pnl[k].Some? && pnl[i].Some? && CumulativeColumn(pnl)[k] == Some(-1.0)
    ensures CumulativeColumn(pnl)[i] == Some(-1.0) && DrawdownColumn(pnl)[i] == Some(1.0)
  {
    EquityStaysZero(pnl, k + 1, i + 1);
    assert 0.0 / CurveAfter(pnl, i + 1).peak == 0.0;
  }

  /** A short that loses more than everything on one bar is ruined, not turned round. */
  lemma OverLossIsRuin(pnl: Column, k: nat)
    requires k < |pnl| && pnl[k].Some? && pnl[k].value <= -1.0
    ensures CumulativeColumn(pnl)[k] == Some(-1.0)
  {
    assert Max(0.0, 1.0 + pnl[k].value) == 0.0;
    assert CurveAfter(pnl, k).equity * 0.0 == 0.0;
  }

  // ── what the returns mean ──────────────────────────────────────────────

  /**
   A bar's return goes to the position held entering it: with no fee, a new position at
   the bar changes nothing, and with one it costs the size of the change.
   */
  lemma ReturnsAreLagged(position: Column, other: Column, chg: Column, cost: real, i: nat)
    requires 0 < i < |position| == |other| == |chg|
    requires other[i - 1] == position[i - 1] && position[i].Some? && other[i].Some? && PnlAt(position, chg, cost, i).Some?
    ensures PnlAt(other, chg, cost, i).Some?
    ensures PnlAt(other, chg, 0.0, i) == PnlAt(position, chg, 0.0, i)
    ensures PnlAt(position, chg, cost, i).value
            == PnlAt(position, chg, 0.0, i).value - cost * Abs(position[i].value - position[i - 1].value)
  {
    var prior, change := position[i - 1].value, chg[i].value;
    var t, t' := Abs(position[i].value - prior), Abs(other[i].value - prior);
    hide Net;
    NetOfFee(prior, change, t, cost);
    NetOfFee(prior, change, t', 0.0);
    assert TurnoverAt(position, i) == Some(t) && TurnoverAt(other, i) == Some(t');
  }

  lemma NetOfFee(prior: real, change: real, turnover: real, cost: real)
    ensures Net(prior, change, turnover, cost) == Net(prior, change, turnover, 0.0) - cost * turnover
    ensures Net(prior, change, turnover, 0.0) == prior * change
  {
  }

  /** A position of 1 held throughout earns what buying and holding does, whatever the fee. */
  lemma LongIsBuyHold(chg: Column, cost: real)
    ensures var long := seq(|chg|, i => Some(1.0));
            PnlColumn(long, chg, cost) == BuyHoldColumn(long, chg)
  {
    var long: Column := seq(|chg|, i => Some(1.0));
    forall i | 0 <= i < |chg|
      ensures PnlAt(long, chg, cost, i) == BuyHoldColumn(long, chg)[i]
    {
      if i > 0 && chg[i].Some? {
        assert PnlAt(long, chg, cost, i).value == 1.0 * chg[i].value - 0.0 * cost;
      }
    }
  }

  /** Simple returns compound back to the price: buying and holding is worth the ratio of the prices. */
  lemma {:induction false} BuyHoldIsPriceRatio(price: Column, position: Column, i: nat)
    requires i < |price| == |position|
    requires forall j | 0 <= j <= i :: price[j].Some? && price[j].value > 0.0 && position[j].Some?
    ensures EquityAfter(BuyHoldColumn(position, ChangeColumn(price)), i + 1) == price[i].value / price[0].value
  {
    var held := BuyHoldColumn(position, ChangeColumn(price));
    if i == 0 {
      assert CurveAfter(held, 1).equity == CurveAfter(held, 0).equity;
      NoFallFromItself(price[0].value);
    } else {
      BuyHoldIsPriceRatio(price, position, i - 1);
      assert held[i] == ChangeAt(price, i);
      assert CurveAfter(held, i + 1).equity == Grow(CurveAfter(held, i).equity, held[i].value);
      RatiosCompound(price[0].value, price[i - 1].value, price[i].value);
    }
  }

  lemma RatiosCompound(first: real, before: real, now: real)
    requires first > 0.0 && before > 0.0 && now > 0.0
    ensures before / first >= 0.0
    ensures Grow(before / first, now / before - 1.0) == now / first
  {
    var a, b := before / first, now / before;
    assert a * first == before && b * before == now;
    assert a > 0.0 && b > 0.0;
    assert Max(0.0, 1.0 + (b - 1.0)) == b;
    assert (a * b) * first == now;
  }

  // ── fees ───────────────────────────────────────────────────────────────

  lemma FeeLowersPnl(position: Column, chg: Column, fee: real, higher: real, i: nat)
    requires i < |position| == |chg| && fee <= higher
    ensures var a, b := PnlAt(position, chg, fee, i), PnlAt(position, chg, higher, i);
            (a.Some? <==> b.Some?) && (a.Some? ==> b.value <= a.value)
  {
    var turnover := TurnoverAt(position, i);
    if turnover.Some? {
      assert turnover.value >= 0.0;
      assert turnover.value * fee <= turnover.value * higher;
    }
  }

  lemma TimesMonotone(a: real, b: real, c: real)
    requires a <= b && c >= 0.0
    ensures Times(a, c) <= Times(b, c) && Times(c, a) <= Times(c, b)
  {
  }

  lemma GrowMonotone(e: real, e': real, gain: real, gain': real)
    requires 0.0 <= e <= e' && gain <= gain'
    ensures Grow(e, gain) <= Grow(e', gain')
  {
    var g, g' := Max(0.0, 1.0 + gain), Max(0.0, 1.0 + gain');
    TimesMonotone(e, e', g);
    TimesMonotone(g, g', e');
    assert Times(e, g) == Grow(e, gain) && Times(e', g') == Grow(e', gain');
  }

  lemma {:induction false} LowerReturnsLowerEquity(low: Column, high: Column, n: nat)
    requires n <= |low| == |high|
    requires forall i | 0 <= i < n :: low[i].Some? <==> high[i].Some?
    requires forall i | 0 <= i < n && low[i].Some? :: low[i].value <= high[i].value
    ensures EquityAfter(low, n) <= EquityAfter(high, n)
  {
    if n > 0 {
      LowerReturnsLowerEquity(low, high, n - 1);
      if low[n - 1].Some? {
        GrowMonotone(EquityAfter(low, n - 1), EquityAfter(high, n - 1), low[n - 1].value, high[n - 1].value);
      }
    }
  }

  /** A higher fee never raises the equity at any bar. */
  lemma FeeNeverHelps(position: Column, chg: Column, fee: real, higher: real, i: nat)
    requires i < |position| == |chg| && fee <= higher
    ensures var a, b := CumulativeColumn(PnlColumn(position, chg, fee))[i],
                        CumulativeColumn(PnlColumn(position, chg, higher))[i];
            (a.Some? <==> b.Some?) && (a.Some? ==> b.value <= a.value)
  {
    var high, low := PnlColumn(position, chg, fee), PnlColumn(position, chg, higher);
    forall j | 0 <= j < |position|
      ensures (low[j].Some? <==> high[j].Some?) && (low[j].Some? ==> low[j].value <= high[j].value)
    {
      FeeLowersPnl(position, chg, fee, higher, j);
    }
    hide CurveAfter;
    LowerReturnsLowerEquity(low, high, i + 1);
  }

  // ── the worst drawdown ─────────────────────────────────────────────────

  /** `Series.max()`: the greatest present cell. */
  function Greatest(col: Column): (m: Cell)
    ensures m.None? <==> forall i | 0 <= i < |col| :: col[i].None?
    ensures m.Some? ==> m in col
    ensures m.Some? ==> forall i | 0 <= i < |col| && col[i].Some? :: col[i].value <= m.value
  {
    if col == [] then None
    else
      var last := col[|col| - 1];
      assert col == col[..|col| - 1] + [last];
      match (Greatest(col[..|col| - 1]), last)
      case (None, _) => last
      case (m, None) => m
      case (Some(a), Some(b)) => Some(Max(a, b))
  }

  /** The share lost between two moments of a run; nothing once there is nothing to lose. */
  function FallBetween(pnl: Column, j: nat, n: nat): real
    requires j <= n <= |pnl|
  {
    if EquityAfter(pnl, j) > 0.0 then Fall(EquityAfter(pnl, j), EquityAfter(pnl, n)) else 0.0
  }

  lemma NoFallFromItself(e: real)
    ensures e > 0.0 ==> Fall(e, e) == 0.0
  {
    assert e > 0.0 ==> e / e == 1.0;
  }

  lemma {:induction false} NoFallIsWorse(pnl: Column, worst: real, j: nat, n: nat)
    requires j <= n <= |pnl| && worst >= 0.0
    requires forall i | 0 <= i < |pnl| && pnl[i].Some? :: DrawdownColumn(pnl)[i].Some? && DrawdownColumn(pnl)[i].value <= worst
    ensures FallBetween(pnl, j, n) <= worst
  {
    if j == n {
      NoFallFromItself(EquityAfter(pnl, n));
    } else if pnl[n - 1].Some? {
      hide DrawdownColumn;
      DrawdownIsGreatestFall(pnl, n - 1);
    } else {
      NoFallIsWorse(pnl, worst, j, n - 1);
    }
  }

  /** `get_max_drawdown` bounds the fall between any two moments of the run, and is one of them. */
  lemma MaxDrawdownIsWorstFall(pnl: Column)
    requires exists i :: 0 <= i < |pnl| && pnl[i].Some?
    ensures var worst := Greatest(DrawdownColumn(pnl));
            && worst.Some? && 0.0 <= worst.value <= 1.0
            && (forall j, n | 0 <= j <= n <= |pnl| :: FallBetween(pnl, j, n) <= worst.value)
            && exists j, n :: 0 <= j <= n <= |pnl| && FallBetween(pnl, j, n) == worst.value
  {
    hide EquityAfter, Fall, DrawdownColumn;
    var dd := DrawdownColumn(pnl);
    var worst := Greatest(dd);
    forall i | 0 <= i < |pnl|
      ensures dd[i].Some? <==> pnl[i].Some?
      ensures pnl[i].Some? ==> 0.0 <= dd[i].value <= 1.0
    {
      LossesBounded(pnl, i);
    }
    forall j, n | 0 <= j <= n <= |pnl|
      ensures FallBetween(pnl, j, n) <= worst.value
    {
      NoFallIsWorse(pnl, worst.value, j, n);
    }
    var i :| 0 <= i < |pnl| && dd[i] == worst;
    DrawdownIsGreatestFall(pnl, i);
    var k :| 0 <= k <= i + 1 && EquityAfter(pnl, k) > 0.0
             && Fall(EquityAfter(pnl, k), EquityAfter(pnl, i + 1)) == worst.value;
    assert FallBetween(pnl, k, i + 1) == worst.value;
  }

  // ── when there is no Sharpe ────────────────────────────────────────────

  lemma {:induction false} NoDeviation(xs: seq<real>, mean: real)
    ensures SquaredDeviations(xs, mean) >= 0.0
    ensures SquaredDeviations(xs, mean) == 0.0 <==> forall i | 0 <= i < |xs| :: xs[i] == mean
  {
    hide Square;
    if xs != [] {
      var n := |xs| - 1;
      NoDeviation(xs[..n], mean);
      SquareIsPositive(xs[n] - mean);
      assert forall i | 0 <= i < n :: xs[..n][i] == xs[i];
    }
  }

  lemma SignOfTimes(a: real, b: real)
    ensures a > 0.0 && b > 0.0 ==> Times(a, b) > 0.0
    ensures a < 0.0 && b < 0.0 ==> Times(a, b) > 0.0
    ensures a == 0.0 ==> Times(a, b) == 0.0
  {
  }

  lemma SquareIsPositive(d: real)
    ensures Square(d) >= 0.0 && (Square(d) == 0.0 <==> d == 0.0)
  {
    hide Times;
    SignOfTimes(d, d);
  }

  lemma {:induction false} SumOfEquals(xs: seq<real>, c: real)
    requires forall i | 0 <= i < |xs| :: xs[i] == c
    ensures Sum(xs) == Scaled(c, |xs|)
  {
    if xs != [] {
      var n := |xs| - 1;
      SumOfEquals(xs[..n], c);
      ScaledStep(c, n);
      hide Scaled;
    } else {
      assert c * (0 as real) == 0.0;
    }
  }

  lemma NoSpread(xs: seq<real>, root: Root)
    requires |xs| >= 2 && forall v | v >= 0.0 :: root(v) == 0.0 <==> v == 0.0
    ensures SampleStd(xs, root) == 0.0 <==> forall i | 0 <= i < |xs| :: xs[i] == xs[0]
  {
    var n := |xs| as real;
    var mean := Sum(xs) / n;
    assert mean * n == Sum(xs);
    NoDeviation(xs, mean);
    var total, variance := SquaredDeviations(xs, mean), SquaredDeviations(xs, mean) / ((|xs| - 1) as real);
    assert variance * ((|xs| - 1) as real) == total;
    assert variance >= 0.0 && (variance == 0.0 <==> total == 0.0);
    if forall i | 0 <= i < |xs| :: xs[i] == xs[0] {
      SumOfEquals(xs, xs[0]);
      assert mean == xs[0];
    }
  }

  /** There is no Sharpe exactly when too few returns are known, or all of them are the same. */
  lemma SharpeUndefined(pnl: Column, tradingPeriod: nat, minObs: int, root: Root)
    requires forall v | v >= 0.0 :: root(v) == 0.0 <==> v == 0.0
    ensures var known := Present(pnl);
            Sharpe(pnl, tradingPeriod, minObs, root).None?
            <==> |known| < minObs || |known| < 2 || forall i | 0 <= i < |known| :: known[i] == known[0]
  {
    var known := Present(pnl);
    if |known| >= 2 {
      NoSpread(known, root);
    }
    hide SampleStd;
  }
}
