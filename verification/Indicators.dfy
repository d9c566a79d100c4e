/**
 Technical indicators as functions of a column (quant/strategy/indicators.py).

 The rolling and exponentially weighted operations are pandas': a rolling window with a
 missing cell gives a missing one, and `ewm(adjust=False)` decays the weight of the past
 across gaps. The square root is a parameter, because no statement here depends on which
 function it is.
 */
module Indicators {
  import opened Outcomes
  import opened Columns

  /** An indicator's lookback. */
  type Window = w: int | 1 <= w witness 1

  type Root = real -> real

  datatype Indicator = Sma | Ema | Rsi | Bollinger | Stochastic

  datatype Ohlc = Ohlc(high: Column, low: Column, close: Column)

  /** What an indicator reads: the factor column, and the bars' prices where they are. */
  datatype Frame = Frame(factor: Column, ohlc: Option<Ohlc>) {
    ghost predicate Valid() {
      ohlc.Some? ==> |ohlc.value.high| == |ohlc.value.low| == |ohlc.value.close| == |factor|
    }
  }

  // ── rolling windows ────────────────────────────────────────────────────

  function MeanOf(xs: Column): Cell {
    if xs == [] || !AllPresent(xs) then None else Some(Sum(Present(xs)) / (|xs| as real))
  }

  /** `rolling(w).mean()` at bar `i`. */
  function MeanAt(xs: Column, w: Window, i: nat): Cell
    requires i < |xs|
  {
    if i + 1 < w then None else MeanOf(xs[i + 1 - w..i + 1])
  }

  function SquaredDeviations(xs: seq<real>, mean: real): real {
    if xs == [] then 0.0
    else SquaredDeviations(xs[..|xs| - 1], mean) + Square(xs[|xs| - 1] - mean)
  }

  function Times(a: real, b: real): real {
    a * b
  }

  function Square(d: real): real {
    Times(d, d)
  }

  /** The sample standard deviation (one degree of freedom) of two or more values. */
  function SampleStd(xs: seq<real>, root: Root): real
    requires |xs| >= 2
  {
    var mean := Sum(xs) / (|xs| as real);
    root(SquaredDeviations(xs, mean) / ((|xs| - 1) as real))
  }

  /** `rolling(w).std()` at bar `i`. */
  function StdAt(xs: Column, w: Window, i: nat, root: Root): Cell
    requires i < |xs|
  {
    if i + 1 < w || w < 2 || !AllPresent(xs[i + 1 - w..i + 1]) then None
    else
      var ys := Present(xs[i + 1 - w..i + 1]);
      if |ys| < 2 then None else Some(SampleStd(ys, root))
  }

  function ExtremeOf(xs: seq<real>, highest: bool): real
    requires xs != []
  {
    if |xs| == 1 then xs[0]
    else
      var rest := ExtremeOf(xs[..|xs| - 1], highest);
      if highest then Max(rest, xs[|xs| - 1]) else Min(rest, xs[|xs| - 1])
  }

  /** `rolling(w).max()` or `rolling(w).min()` at bar `i`. */
  function ExtremeAt(xs: Column, w: Window, i: nat, highest: bool): Cell
    requires i < |xs|
  {
    if i + 1 < w || !AllPresent(xs[i + 1 - w..i + 1]) then None
    else
      var ys := Present(xs[i + 1 - w..i + 1]);
      if ys == [] then None else Some(ExtremeOf(ys, highest))
  }

  // ── the five indicators, bar by bar ────────────────────────────────────

  function BollingerAt(xs: Column, w: Window, i: nat, root: Root): Cell
    requires i < |xs|
  {
    match (xs[i], MeanAt(xs, w, i), StdAt(xs, w, i, root))
    case (Some(x), Some(mean), Some(std)) => if std == 0.0 then None else Some((x - mean) / std)
    case _ => None
  }

  datatype EmaState = EmaState(weighted: Cell, weight: real)

  /** `alpha` of a span of `w` bars. */
  function Smoothing(w: Window): (alpha: real)
    ensures 0.0 < alpha <= 1.0
  {
    2.0 / (w as real + 1.0)
  }

  /** What one more bar leaves of a weight. */
  function Faded(weight: real, alpha: real): (r: real)
    ensures weight >= 0.0 && alpha <= 1.0 ==> r >= 0.0
  {
    weight * (1.0 - alpha)
  }

  /** One step of `ewm(span=w, adjust=False).mean()`. */
  function EmaStep(state: EmaState, x: Cell, w: Window): (r: EmaState)
    requires state.weight >= 0.0
    ensures r.weight >= 0.0
  {
    var alpha := Smoothing(w);
    if state.weighted.None? then EmaState(x, state.weight)
    else
      var decayed := Faded(state.weight, alpha);
      if x.None? then EmaState(state.weighted, decayed)
      else
        EmaState(Some((Times(decayed, state.weighted.value) + Times(alpha, x.value)) / (decayed + alpha)), 1.0)
  }

  function EmaThrough(xs: Column, w: Window, i: nat): (r: EmaState)
    requires i < |xs|
    ensures r.weight >= 0.0
  {
    if i == 0 then EmaState(xs[0], 1.0) else EmaStep(EmaThrough(xs, w, i - 1), xs[i], w)
  }

  function DeltaAt(xs: Column, i: nat): Cell
    requires i < |xs|
  {
    if i > 0 && xs[i].Some? && xs[i - 1].Some? then Some(xs[i].value - xs[i - 1].value) else None
  }

  /** `diff(1).dropna()` over the first `n` bars. */
  function Deltas(xs: Column, n: nat): seq<real>
    requires n <= |xs|
  {
    if n == 0 then []
    else
      var d := DeltaAt(xs, n - 1);
      Deltas(xs, n - 1) + (if d.Some? then [d.value] else [])
  }

  /** The sum of the rises (`sign` 1) or of the falls (`sign` -1). */
  function Moves(ds: seq<real>, sign: real): (r: real)
    ensures r >= 0.0
  {
    if ds == [] then 0.0 else Moves(ds[..|ds| - 1], sign) + Max(0.0, sign * ds[|ds| - 1])
  }

  function RsiOf(ds: seq<real>): Cell
    requires ds != []
  {
    var n := |ds| as real;
    var up, down := Moves(ds, 1.0) / n, Moves(ds, -1.0) / n;
    if down == 0.0 then if up == 0.0 then None else Some(100.0)
    else
      assert up / down >= 0.0;
      Some(100.0 - 100.0 / (1.0 + up / down))
  }

  function RsiAt(xs: Column, w: Window, i: nat): Cell
    requires i < |xs|
  {
    var ds := Deltas(xs, i + 1);
    if DeltaAt(xs, i).None? || |ds| < w then None else RsiOf(ds[|ds| - w..])
  }

  function FastStochasticAt(bars: Ohlc, w: Window, i: nat): Cell
    requires i < |bars.high| == |bars.low| == |bars.close|
  {
    match (bars.close[i], ExtremeAt(bars.high, w, i, true), ExtremeAt(bars.low, w, i, false))
    case (Some(c), Some(h), Some(l)) => if h == l then None else Some(100.0 * (c - l) / (h - l))
    case _ => None
  }

  function FastStochastic(bars: Ohlc, w: Window): (k: Column)
    requires |bars.high| == |bars.low| == |bars.close|
    ensures |k| == |bars.close|
  {
    seq(|bars.close|, i requires 0 <= i < |bars.close| => FastStochasticAt(bars, w, i))
  }

  /** Whether the frame has the columns the indicator reads. */
  predicate Readable(frame: Frame, ind: Indicator) {
    ind.Stochastic? ==> frame.ohlc.Some?
  }

  function IndicatorAt(frame: Frame, ind: Indicator, w: Window, root: Root, i: nat): Cell
    requires frame.Valid() && Readable(frame, ind) && i < |frame.factor|
  {
    match ind
    case Sma => MeanAt(frame.factor, w, i)
    case Ema => EmaThrough(frame.factor, w, i).weighted
    case Rsi => RsiAt(frame.factor, w, i)
    case Bollinger => BollingerAt(frame.factor, w, i, root)
    case Stochastic => MeanAt(FastStochastic(frame.ohlc.value, w), w, i)
  }

  /** The indicator aligned to the frame's index. */
  function IndicatorColumn(frame: Frame, ind: Indicator, w: Window, root: Root): (c: Column)
    requires frame.Valid() && Readable(frame, ind)
    ensures |c| == |frame.factor|
  {
    seq(|frame.factor|, i requires 0 <= i < |frame.factor| => IndicatorAt(frame, ind, w, root, i))
  }

  // ── ranges ─────────────────────────────────────────────────────────────

  ghost predicate Within(xs: Column, lo: real, hi: real) {
    forall i | 0 <= i < |xs| && xs[i].Some? :: lo <= xs[i].value <= hi
  }

  lemma PresentLast(xs: Column)
    requires xs != [] && AllPresent(xs)
    ensures AllPresent(xs[..|xs| - 1])
    ensures Present(xs) == Present(xs[..|xs| - 1]) + [xs[|xs| - 1].value]
    ensures Sum(Present(xs)) == Sum(Present(xs[..|xs| - 1])) + xs[|xs| - 1].value
  {
    var before := Present(xs[..|xs| - 1]);
    assert (before + [xs[|xs| - 1].value])[..|before|] == before;
  }

  function Scaled(x: real, n: nat): real {
    x * (n as real)
  }

  lemma ScaledStep(x: real, n: nat)
    ensures Scaled(x, n + 1) == Scaled(x, n) + x
  {
    assert (n + 1) as real == n as real + 1.0;
  }

  lemma {:induction false} SumWithin(xs: Column, lo: real, hi: real)
    requires AllPresent(xs) && Within(xs, lo, hi)
    ensures |Present(xs)| == |xs|
    ensures Scaled(lo, |xs|) <= Sum(Present(xs)) <= Scaled(hi, |xs|)
  {
    if xs != [] {
      var n := |xs| - 1;
      PresentLast(xs);
      SumWithin(xs[..n], lo, hi);
      hide Present, Sum, Scaled;
      assert lo <= xs[n].value <= hi;
      ScaledStep(lo, n);
      ScaledStep(hi, n);
    }
  }

  /** A rolling mean stays within the readings of its window. */
  lemma MeanWithin(xs: Column, w: Window, i: nat, lo: real, hi: real)
    requires i < |xs| && MeanAt(xs, w, i).Some? && Within(xs[i + 1 - w..i + 1], lo, hi)
    ensures lo <= MeanAt(xs, w, i).value <= hi
  {
    var part := xs[i + 1 - w..i + 1];
    SumWithin(part, lo, hi);
    QuotientWithin(Sum(Present(part)), |part| as real, lo, hi);
  }

  lemma QuotientWithin(sum: real, n: real, lo: real, hi: real)
    requires n > 0.0 && lo * n <= sum <= hi * n
    ensures lo <= sum / n <= hi
  {
    var q := sum / n;
    assert q * n == sum;
    assert q < lo ==> q * n < lo * n;
    assert q > hi ==> q * n > hi * n;
  }

  /** The exponential average stays within everything read so far. */
  lemma {:induction false} EmaWithin(xs: Column, w: Window, i: nat, lo: real, hi: real)
    requires i < |xs| && Within(xs[..i + 1], lo, hi)
    ensures EmaThrough(xs, w, i).weighted.Some? ==> lo <= EmaThrough(xs, w, i).weighted.value <= hi
  {
    assert xs[..i + 1][i] == xs[i];
    if i > 0 {
      assert forall j | 0 <= j < i :: xs[..i][j] == xs[..i + 1][j];
      EmaWithin(xs, w, i - 1, lo, hi);
      BlendWithin(EmaThrough(xs, w, i - 1), xs[i], w, lo, hi);
    }
  }

  lemma TimesKeepsOrder(k: real, lo: real, x: real, hi: real)
    requires k >= 0.0 && lo <= x <= hi
    ensures Times(k, lo) <= Times(k, x) <= Times(k, hi)
  {
  }

  lemma TimesDistributes(x: real, a: real, b: real)
    ensures Times(a, x) + Times(b, x) == x * (a + b)
  {
  }

  lemma Blend(d: real, a: real, e: real, x: real, lo: real, hi: real)
    requires d >= 0.0 && a > 0.0 && lo <= e <= hi && lo <= x <= hi
    ensures lo <= (Times(d, e) + Times(a, x)) / (d + a) <= hi
  {
    hide Times;
    TimesKeepsOrder(d, lo, e, hi);
    TimesKeepsOrder(a, lo, x, hi);
    TimesDistributes(lo, d, a);
    TimesDistributes(hi, d, a);
    QuotientWithin(Times(d, e) + Times(a, x), d + a, lo, hi);
  }

  lemma BlendWithin(state: EmaState, x: Cell, w: Window, lo: real, hi: real)
    requires state.weight >= 0.0
    requires state.weighted.Some? ==> lo <= state.weighted.value <= hi
    requires x.Some? ==> lo <= x.value <= hi
    ensures EmaStep(state, x, w).weighted.Some? ==> lo <= EmaStep(state, x, w).weighted.value <= hi
  {
    var alpha := Smoothing(w);
    hide Smoothing;
    if state.weighted.Some? && x.Some? {
      var decayed := Faded(state.weight, alpha);
      hide Faded, Times;
      Blend(decayed, alpha, state.weighted.value, x.value, lo, hi);
    }
  }

  /** RSI is a percentage: 100 exactly when nothing fell, 0 exactly when nothing rose. */
  lemma RsiInRange(xs: Column, w: Window, i: nat)
    requires i < |xs| && RsiAt(xs, w, i).Some?
    ensures 0.0 <= RsiAt(xs, w, i).value <= 100.0
    ensures var ds := Deltas(xs, i + 1);
            && w <= |ds|
            && (RsiAt(xs, w, i).value == 100.0 <==> Moves(ds[|ds| - w..], -1.0) == 0.0)
            && (RsiAt(xs, w, i).value == 0.0 <==> Moves(ds[|ds| - w..], 1.0) == 0.0)
  {
    var ds := Deltas(xs, i + 1);
    RsiOfInRange(ds[|ds| - w..]);
  }

  lemma RsiOfInRange(ds: seq<real>)
    requires ds != [] && RsiOf(ds).Some?
    ensures 0.0 <= RsiOf(ds).value <= 100.0
    ensures RsiOf(ds).value == 100.0 <==> Moves(ds, -1.0) == 0.0
    ensures RsiOf(ds).value == 0.0 <==> Moves(ds, 1.0) == 0.0
  {
    var n := |ds| as real;
    var rises, falls := Moves(ds, 1.0), Moves(ds, -1.0);
    hide Moves;
    var up, down := rises / n, falls / n;
    assert up * n == rises && down * n == falls;
    assert up >= 0.0 && down >= 0.0;
    assert up == 0.0 <==> rises == 0.0;
    assert down == 0.0 <==> falls == 0.0;
    if down > 0.0 {
      RatioToPercent(up, down);
    }
  }

  lemma RatioToPercent(up: real, down: real)
    requires up >= 0.0 && down > 0.0
    ensures up / down >= 0.0
    ensures 0.0 <= 100.0 - 100.0 / (1.0 + up / down) < 100.0
    ensures 100.0 - 100.0 / (1.0 + up / down) == 0.0 <==> up == 0.0
  {
    var rs := up / down;
    assert rs * down == up;
    assert rs >= 0.0 && (rs == 0.0 <==> up == 0.0);
    var share := 100.0 / (1.0 + rs);
    assert share * (1.0 + rs) == 100.0;
    assert 0.0 < share <= 100.0 && (share == 100.0 <==> rs == 0.0);
  }

  lemma {:induction false} ExtremeBounds(xs: Column, highest: bool, j: nat)
    requires xs != [] && AllPresent(xs) && j < |xs|
    ensures |Present(xs)| == |xs|
    ensures var e := ExtremeOf(Present(xs), highest);
            if highest then xs[j].value <= e else e <= xs[j].value
  {
    var n := |xs| - 1;
    PresentLast(xs);
    if n == 0 {
      assert Present(xs[..0]) == [];
    } else {
      ExtremeBounds(xs[..n], highest, if j < n then j else 0);
      assert Present(xs)[..n] == Present(xs[..n]);
    }
  }

  /** The fast stochastic is where the close lies between the window's low and high, as a percentage. */
  lemma FastStochasticInRange(bars: Ohlc, w: Window, i: nat)
    requires i < |bars.high| == |bars.low| == |bars.close|
    requires FastStochasticAt(bars, w, i).Some?
    requires bars.high[i].Some? && bars.low[i].Some? && bars.low[i].value <= bars.close[i].value <= bars.high[i].value
    ensures 0.0 <= FastStochasticAt(bars, w, i).value <= 100.0
  {
    ExtremeBounds(bars.high[i + 1 - w..i + 1], true, w - 1);
    ExtremeBounds(bars.low[i + 1 - w..i + 1], false, w - 1);
    hide Present, ExtremeOf;
    var h, l, c := ExtremeAt(bars.high, w, i, true).value, ExtremeAt(bars.low, w, i, false).value, bars.close[i].value;
    assert l <= c <= h;
    QuotientWithin(100.0 * (c - l), h - l, 0.0, 100.0);
  }

  // ── causality ──────────────────────────────────────────────────────────

  ghost predicate FramesAgree(a: Frame, b: Frame, n: nat) {
    && a.Valid() && b.Valid()
    && Agree(a.factor, b.factor, n)
    && (a.ohlc.Some? <==> b.ohlc.Some?)
    && (a.ohlc.Some? ==>
          && Agree(a.ohlc.value.high, b.ohlc.value.high, n)
          && Agree(a.ohlc.value.low, b.ohlc.value.low, n)
          && Agree(a.ohlc.value.close, b.ohlc.value.close, n))
  }

  lemma {:induction false} EmaCausal(a: Column, b: Column, w: Window, n: nat, i: nat)
    requires Agree(a, b, n) && i < n
    ensures EmaThrough(a, w, i) == EmaThrough(b, w, i)
  {
    AgreeAt(a, b, n, i);
    if i > 0 {
      EmaCausal(a, b, w, n, i - 1);
    }
  }

  lemma {:induction false} DeltasCausal(a: Column, b: Column, n: nat, k: nat)
    requires Agree(a, b, n) && k <= n
    ensures Deltas(a, k) == Deltas(b, k)
    ensures k > 0 ==> DeltaAt(a, k - 1) == DeltaAt(b, k - 1)
  {
    if k > 0 {
      DeltasCausal(a, b, n, k - 1);
      AgreeAt(a, b, n, k - 1);
      if k > 1 {
        AgreeAt(a, b, n, k - 2);
      }
    }
  }

  lemma RollingCausal(a: Column, b: Column, w: Window, n: nat, i: nat)
    requires Agree(a, b, n) && i < n
    ensures MeanAt(a, w, i) == MeanAt(b, w, i)
    ensures forall highest :: ExtremeAt(a, w, i, highest) == ExtremeAt(b, w, i, highest)
    ensures forall root: Root :: StdAt(a, w, i, root) == StdAt(b, w, i, root)
  {
    if i + 1 >= w {
      AgreeSlice(a, b, n, i + 1 - w, i + 1);
    }
  }

  lemma FastStochasticCausal(a: Ohlc, b: Ohlc, w: Window, n: nat)
    requires |a.high| == |a.low| == |a.close| && |b.high| == |b.low| == |b.close|
    requires Agree(a.high, b.high, n) && Agree(a.low, b.low, n) && Agree(a.close, b.close, n)
    ensures Agree(FastStochastic(a, w), FastStochastic(b, w), n)
  {
    forall i | 0 <= i < n
      ensures FastStochastic(a, w)[i] == FastStochastic(b, w)[i]
    {
      RollingCausal(a.high, b.high, w, n, i);
      RollingCausal(a.low, b.low, w, n, i);
      AgreeAt(a.close, b.close, n, i);
    }
    AgreeFrom(FastStochastic(a, w), FastStochastic(b, w), n);
  }

  /** No indicator reads a later bar. */
  lemma IndicatorCausal(a: Frame, b: Frame, ind: Indicator, w: Window, root: Root, n: nat)
    requires FramesAgree(a, b, n) && Readable(a, ind)
    ensures Agree(IndicatorColumn(a, ind, w, root), IndicatorColumn(b, ind, w, root), n)
  {
    hide MeanAt, StdAt, ExtremeAt, EmaThrough, Deltas, DeltaAt, RsiOf, FastStochastic;
    forall i | 0 <= i < n
      ensures IndicatorAt(a, ind, w, root, i) == IndicatorAt(b, ind, w, root, i)
    {
      RollingCausal(a.factor, b.factor, w, n, i);
      AgreeAt(a.factor, b.factor, n, i);
      match ind
      case Ema => EmaCausal(a.factor, b.factor, w, n, i);
      case Rsi => DeltasCausal(a.factor, b.factor, n, i + 1);
      case Stochastic =>
        FastStochasticCausal(a.ohlc.value, b.ohlc.value, w, n);
        RollingCausal(FastStochastic(a.ohlc.value, w), FastStochastic(b.ohlc.value, w), w, n, i);
      case _ =>
    }
    AgreeFrom(IndicatorColumn(a, ind, w, root), IndicatorColumn(b, ind, w, root), n);
  }

  // ── bounded memory ─────────────────────────────────────────────────────

  function DropBars(frame: Frame, d: nat): Frame
    requires frame.Valid() && d <= |frame.factor|
  {
    Frame(frame.factor[d..],
          if frame.ohlc.None? then None
          else Some(Ohlc(frame.ohlc.value.high[d..], frame.ohlc.value.low[d..], frame.ohlc.value.close[d..])))
  }

  /** How many bars the indicator's latest value depends on; an average with no end, none. */
  function NeededBars(ind: Indicator, w: Window): Option<nat> {
    match ind
    case Sma => Some(w)
    case Bollinger => Some(w)
    case Rsi => Some(w + 1)
    case Stochastic => Some(2 * w - 1)
    case Ema => None
  }

  lemma RollingForgets(xs: Column, d: nat, w: Window, i: nat)
    requires d + w <= i + 1 <= |xs|
    ensures MeanAt(xs[d..], w, i - d) == MeanAt(xs, w, i)
    ensures forall highest :: ExtremeAt(xs[d..], w, i - d, highest) == ExtremeAt(xs, w, i, highest)
    ensures forall root: Root :: StdAt(xs[d..], w, i - d, root) == StdAt(xs, w, i, root)
  {
    assert xs[d..][i - d + 1 - w..i - d + 1] == xs[i + 1 - w..i + 1];
  }

  /** The moves of a suffix are the last moves of the whole. */
  lemma {:induction false} DeltasForget(xs: Column, d: nat, n: nat)
    requires d <= n <= |xs|
    ensures var whole, part := Deltas(xs, n), Deltas(xs[d..], n - d);
            |part| <= |whole| && whole[|whole| - |part|..] == part
    decreases n
  {
    if n > d {
      DeltasForget(xs, d, n - 1);
      assert n - 1 > d ==> DeltaAt(xs[d..], n - 1 - d) == DeltaAt(xs, n - 1);
    }
  }

  lemma {:induction false} DeltasOfPresent(xs: Column, n: nat)
    requires n <= |xs| && AllPresent(xs)
    ensures |Deltas(xs, n)| == if n == 0 then 0 else n - 1
  {
    if n > 0 {
      DeltasOfPresent(xs, n - 1);
    }
  }

  lemma LastOfSuffix(whole: seq<real>, part: seq<real>, w: nat)
    requires |part| <= |whole| && whole[|whole| - |part|..] == part && w <= |part|
    ensures whole[|whole| - w..] == part[|part| - w..]
  {
    assert whole[|whole| - w..] == whole[|whole| - |part|..][|part| - w..];
  }

  lemma DeltaForgets(xs: Column, d: nat, i: nat)
    requires d < i < |xs|
    ensures DeltaAt(xs[d..], i - d) == DeltaAt(xs, i)
  {
    assert xs[d..][i - d] == xs[i] && xs[d..][i - d - 1] == xs[i - 1];
  }

  lemma RsiForgets(xs: Column, d: nat, w: Window, i: nat)
    requires d + w + 1 <= i + 1 <= |xs| && AllPresent(xs[d..])
    ensures RsiAt(xs[d..], w, i - d) == RsiAt(xs, w, i)
  {
    hide Deltas, DeltaAt, RsiOf, AllPresent;
    DeltasForget(xs, d, i + 1);
    DeltasOfPresent(xs[d..], i + 1 - d);
    LastOfSuffix(Deltas(xs, i + 1), Deltas(xs[d..], i + 1 - d), w);
    DeltaForgets(xs, d, i);
  }

  lemma FastForgets(bars: Ohlc, d: nat, w: Window, j: nat)
    requires |bars.high| == |bars.low| == |bars.close|
    requires d + w <= j + 1 <= |bars.close|
    ensures FastStochasticAt(Ohlc(bars.high[d..], bars.low[d..], bars.close[d..]), w, j - d) == FastStochasticAt(bars, w, j)
  {
    hide ExtremeAt, MeanAt, StdAt;
    RollingForgets(bars.high, d, w, j);
    RollingForgets(bars.low, d, w, j);
    assert bars.close[d..][j - d] == bars.close[j];
  }

  /** Two windows with the same cells have the same mean. */
  lemma MeanOfSame(a: Column, b: Column, w: Window, i: nat, j: nat)
    requires w <= i + 1 <= |a| && w <= j + 1 <= |b|
    requires a[i + 1 - w..i + 1] == b[j + 1 - w..j + 1]
    ensures MeanAt(a, w, i) == MeanAt(b, w, j)
  {
  }

  lemma StochasticForgets(bars: Ohlc, d: nat, w: Window, i: nat)
    requires |bars.high| == |bars.low| == |bars.close|
    requires d + 2 * w - 1 <= i + 1 <= |bars.close|
    ensures var part := Ohlc(bars.high[d..], bars.low[d..], bars.close[d..]);
            MeanAt(FastStochastic(part, w), w, i - d) == MeanAt(FastStochastic(bars, w), w, i)
  {
    hide FastStochasticAt, MeanAt;
    var part := Ohlc(bars.high[d..], bars.low[d..], bars.close[d..]);
    var whole, tail := FastStochastic(bars, w), FastStochastic(part, w);
    var a, b := tail[i - d + 1 - w..i - d + 1], whole[i + 1 - w..i + 1];
    forall k | 0 <= k < w
      ensures a[k] == b[k]
    {
      FastForgets(bars, d, w, i + 1 - w + k);
    }
    MeanOfSame(tail, whole, w, i - d, i);
  }

  /**
   The latest value on a suffix with enough bars is the latest value on the whole
   history; for RSI the suffix must hold no gap, since it counts moves and not bars.
   */
  lemma IndicatorForgets(frame: Frame, ind: Indicator, w: Window, root: Root, d: nat)
    requires frame.Valid() && Readable(frame, ind) && d < |frame.factor|
    requires NeededBars(ind, w).Some? && NeededBars(ind, w).value <= |frame.factor| - d
    requires ind.Rsi? ==> AllPresent(frame.factor[d..])
    ensures var n := |frame.factor|;
            IndicatorAt(DropBars(frame, d), ind, w, root, n - d - 1) == IndicatorAt(frame, ind, w, root, n - 1)
  {
    hide Present, AllPresent, SampleStd, ExtremeOf, MeanOf, Deltas, MeanAt, StdAt, EmaThrough, RsiAt, FastStochastic;
    var i := |frame.factor| - 1;
    assert frame.factor[d..][i - d] == frame.factor[i];
    match ind
    case Sma => RollingForgets(frame.factor, d, w, i);
    case Bollinger => RollingForgets(frame.factor, d, w, i);
    case Rsi => RsiForgets(frame.factor, d, w, i);
    case Stochastic => StochasticForgets(frame.ohlc.value, d, w, i);
  }

  /** One reading of 1 followed by `n` of 0. */
  function Impulse(n: nat): (xs: Column)
    ensures |xs| == n + 1
  {
    [Some(1.0)] + seq(n, i => Some(0.0))
  }

  lemma {:induction false} ImpulseLingers(w: Window, n: nat, i: nat)
    requires w >= 2 && i <= n
    ensures var state := EmaThrough(Impulse(n), w, i);
            state.weight == 1.0 && state.weighted.Some? && state.weighted.value > 0.0
    ensures i > 0 ==> EmaThrough(Impulse(n)[1..], w, i - 1).weighted == Some(0.0)
  {
    if i > 0 {
      ImpulseLingers(w, n, i - 1);
      EmaOfZero(EmaThrough(Impulse(n), w, i - 1).weighted.value, w);
      if i > 1 {
        EmaOfZero(0.0, w);
        ImpulseTailWeight(w, n, i - 2);
      }
    }
  }

  lemma {:induction false} ImpulseTailWeight(w: Window, n: nat, i: nat)
    requires i < n
    ensures EmaThrough(Impulse(n)[1..], w, i).weight == 1.0
    ensures EmaThrough(Impulse(n)[1..], w, i).weighted.Some?
  {
    if i > 0 {
      ImpulseTailWeight(w, n, i - 1);
    }
  }

  lemma EmaOfZero(before: real, w: Window)
    requires w >= 2 && before >= 0.0
    ensures var state := EmaStep(EmaState(Some(before), 1.0), Some(0.0), w);
            && state.weight == 1.0 && state.weighted.Some?
            && (before > 0.0 ==> state.weighted.value > 0.0)
            && (before == 0.0 ==> state.weighted.value == 0.0)
  {
    var alpha := Smoothing(w);
    assert alpha < 1.0;
    assert 1.0 * (1.0 - alpha) + alpha == 1.0;
    assert before > 0.0 ==> (1.0 - alpha) * before > 0.0;
  }

  /** No number of bars is enough for the exponential average: it needs them all. */
  lemma EmaNeverForgets(w: Window, n: nat, root: Root)
    requires w >= 2 && n >= 1
    ensures exists frame: Frame, d: nat ::
              && frame.Valid() && d <= |frame.factor| && |frame.factor| - d == n
              && IndicatorAt(DropBars(frame, d), Ema, w, root, n - 1)
                 != IndicatorAt(frame, Ema, w, root, |frame.factor| - 1)
  {
    var frame := Frame(Impulse(n), None);
    ImpulseLingers(w, n, n);
    assert DropBars(frame, 1).factor == Impulse(n)[1..];
    assert IndicatorAt(DropBars(frame, 1), Ema, w, root, n - 1) == Some(0.0);
    assert |frame.factor| - 1 == n;
  }
}
