/**
 The full backtest engine: positions, per-bar returns net of fees, equity and drawdown,
 and the Sharpe ratio (quant/strategy/performance.py).
 */
module Performance {
  import opened Outcomes
  import opened Columns
  import opened Indicators
  import opened Signals
  import opened FactorFrames

  const DEFAULT_FEE_BPS := 10.0

  function TransactionCost(feeBps: Option<real>): real {
    (if feeBps.Some? then feeBps.value else DEFAULT_FEE_BPS) / 10_000.0
  }

  // ── returns bar by bar ─────────────────────────────────────────────────

  function PriorAt(position: Column, i: nat): Cell
    requires i < |position|
  {
    if i == 0 then None else position[i - 1]
  }

  /** Turnover counts only between two known positions; with none now, it is unknown. */
  function TurnoverAt(position: Column, i: nat): Cell
    requires i < |position|
  {
    match (PriorAt(position, i), position[i])
    case (_, None) => None
    case (None, Some(_)) => Some(0.0)
    case (Some(before), Some(now)) => Some(Abs(now - before))
  }

  function Net(prior: real, change: real, turnover: real, cost: real): real {
    prior * change - turnover * cost
  }

  /** The bar's return accrues to the position held entering it, less the fee. */
  function PnlAt(position: Column, chg: Column, cost: real, i: nat): Cell
    requires i < |position| == |chg|
  {
    match (PriorAt(position, i), chg[i], TurnoverAt(position, i))
    case (Some(prior), Some(change), Some(turnover)) => Some(Net(prior, change, turnover, cost))
    case _ => None
  }

  function PriorColumn(position: Column): (r: Column)
    ensures |r| == |position|
  {
    seq(|position|, i requires 0 <= i < |position| => PriorAt(position, i))
  }

  function TurnoverColumn(position: Column): (r: Column)
    ensures |r| == |position|
  {
    seq(|position|, i requires 0 <= i < |position| => TurnoverAt(position, i))
  }

  function PnlColumn(position: Column, chg: Column, cost: real): (r: Column)
    requires |position| == |chg|
    ensures |r| == |position|
  {
    seq(|position|, i requires 0 <= i < |position| => PnlAt(position, chg, cost, i))
  }

  function ChangeAt(price: Column, i: nat): Cell
    requires i < |price|
  {
    if i == 0 then None
    else
      match (price[i - 1], price[i])
      case (Some(before), Some(now)) => if before == 0.0 then None else Some(now / before - 1.0)
      case _ => None
  }

  /** `pct_change`, with no gap filled. */
  function ChangeColumn(price: Column): (r: Column)
    ensures |r| == |price|
  {
    seq(|price|, i requires 0 <= i < |price| => ChangeAt(price, i))
  }

  /** The asset's own change on the bars where a position was held or known flat. */
  function BuyHoldColumn(position: Column, chg: Column): (r: Column)
    requires |position| == |chg|
    ensures |r| == |position|
  {
    seq(|position|, i requires 0 <= i < |position| => if PriorAt(position, i).None? then None else chg[i])
  }

  // ── equity ─────────────────────────────────────────────────────────────

  /** The equity and its peak so far, from a starting capital of 1. */
  datatype Curve = Curve(equity: real, peak: real)

  function Grow(equity: real, gain: real): (r: real)
    requires equity >= 0.0
    ensures r >= 0.0
  {
    var growth := Max(0.0, 1.0 + gain);
    equity * growth
  }

  function CurveAfter(pnl: Column, n: nat): (c: Curve)
    requires n <= |pnl|
    ensures c.equity >= 0.0 && c.peak >= 1.0 && c.equity <= c.peak
  {
    if n == 0 then Curve(1.0, 1.0)
    else
      var before := CurveAfter(pnl, n - 1);
      if pnl[n - 1].None? then before
      else
        var equity := Grow(before.equity, pnl[n - 1].value);
        Curve(equity, Max(before.peak, equity))
  }

  /** Cumulative return; missing where the bar's return is. */
  function CumulativeColumn(pnl: Column): (r: Column)
    ensures |r| == |pnl|
  {
    seq(|pnl|, i requires 0 <= i < |pnl| =>
      if pnl[i].None? then None else Some(CurveAfter(pnl, i + 1).equity - 1.0))
  }

  function DrawdownColumn(pnl: Column): (r: Column)
    ensures |r| == |pnl|
  {
    seq(|pnl|, i requires 0 <= i < |pnl| =>
      if pnl[i].None? then None
      else
        var c := CurveAfter(pnl, i + 1);
        Some(1.0 - c.equity / c.peak))
  }

  /** A mean in standard deviations, scaled to a year. */
  function Annualised(mean: real, std: real, scale: real): real
    requires std != 0.0
  {
    mean / std * scale
  }

  function Sharpe(pnl: Column, tradingPeriod: nat, minObs: int, root: Root): Cell {
    var finite := Present(pnl);
    if |finite| < minObs || |finite| < 2 then None
    else
      var mean, std := Sum(finite) / (|finite| as real), SampleStd(finite, root);
      if std == 0.0 then None else Some(Annualised(mean, std, root(tradingPeriod as real)))
  }

  function AfterWarmup(col: Column, window: nat): Column {
    if window <= |col| then col[window..] else []
  }

  // ── positions ──────────────────────────────────────────────────────────

  datatype Output = Output(factor: Column, indicator: Column, position: Column)

  predicate IsMulti(config: Config) {
    |GetSubstrategies(config)| > 1
  }

  function OutputOn(frame: Frame, ind: Indicator, f: SignalFunc, w: Window, signal: real, root: Root)
    : (r: Result<Output, PerfError>)
    requires frame.Valid()
    ensures r.Ok? ==>
              |r.value.factor| == |r.value.indicator| == |r.value.position| == |frame.factor|
  {
    if !Readable(frame, ind) then Err(MissingColumn)
    else
      var indicator := IndicatorColumn(frame, ind, w, root);
      Ok(Output(frame.factor, indicator, PositionColumn(f, indicator, signal)))
  }

  /** The one factor, on the main frame with its other columns. */
  function SingleOutput(data: Data, config: Config, params: Params, root: Root): (r: Result<Output, PerfError>)
    requires ValidData(data)
    ensures r.Ok? ==> config.cusip in data && |r.value.position| == |data[config.cusip].index|
  {
    if params.windows == [] || params.signals == [] then Err(MissingParameter)
    else
      FactorLength(data, config, GetSubstrategies(config)[0]);
      match SingleFactor(data, config)
      case Err(e) => Err(e)
      case Ok(factor) =>
        OutputOn(Frame(factor, OhlcOf(data[config.cusip])), config.indicator, config.signalFunc,
                 params.windows[0], params.signals[0], root)
  }

  /** Factor `i` of several, on a frame with nothing but the factor. */
  function MultiOutput(data: Data, config: Config, params: Params, root: Root, i: nat)
    : (r: Result<Output, PerfError>)
    requires ValidData(data) && i < |GetSubstrategies(config)|
    ensures r.Ok? ==>
              && config.cusip in data
              && |r.value.position| == |r.value.indicator| == |data[config.cusip].index|
  {
    var sub := GetSubstrategies(config)[i];
    FactorLength(data, config, sub);
    match FactorColumn(data, config, sub)
    case Err(e) => Err(e)
    case Ok(factor) =>
      if |params.windows| <= i || |params.signals| <= i then Err(MissingParameter)
      else OutputOn(Frame(factor, None), sub.indicator, sub.signalFunc, params.windows[i], params.signals[i], root)
  }

  /** The first `k` factors in turn, or the first failure. */
  function MultiOutputs(data: Data, config: Config, params: Params, root: Root, k: nat)
    : (r: Result<seq<Output>, PerfError>)
    requires ValidData(data) && k <= |GetSubstrategies(config)|
    ensures r.Ok? <==> forall i | 0 <= i < k :: MultiOutput(data, config, params, root, i).Ok?
    ensures r.Ok? ==>
              && |r.value| == k
              && forall i | 0 <= i < k :: r.value[i] == MultiOutput(data, config, params, root, i).value
  {
    if k == 0 then Ok([])
    else
      match MultiOutputs(data, config, params, root, k - 1)
      case Err(e) => Err(e)
      case Ok(before) =>
        match MultiOutput(data, config, params, root, k - 1)
        case Err(e) => Err(e)
        case Ok(last) => Ok(before + [last])
  }

  function PositionsOf(outputs: seq<Output>): (r: seq<Column>)
    ensures |r| == |outputs| && forall i | 0 <= i < |r| :: r[i] == outputs[i].position
  {
    seq(|outputs|, i requires 0 <= i < |outputs| => outputs[i].position)
  }

  function StrengthsOf(outputs: seq<Output>): (r: seq<Column>)
    ensures |r| == |outputs| && forall i | 0 <= i < |r| :: r[i] == outputs[i].indicator
  {
    seq(|outputs|, i requires 0 <= i < |outputs| => outputs[i].indicator)
  }

  /** Factors of one length, combined with their readings as strengths. */
  function Combined(outputs: seq<Output>, conjunction: string, n: nat): (r: Result<Column, PerfError>)
    requires forall i | 0 <= i < |outputs| :: |outputs[i].position| == |outputs[i].indicator| == n
    ensures r.Ok? ==> |r.value| == n
  {
    match CombinePositions(PositionsOf(outputs), conjunction, Some(StrengthsOf(outputs)), n)
    case Err(_) => Err(BadSignals)
    case Ok(p) => Ok(p)
  }

  datatype Positions = Positions(outputs: seq<Output>, position: Column)

  function MultiPositions(data: Data, config: Config, params: Params, root: Root): (r: Result<Positions, PerfError>)
    requires ValidData(data)
    ensures r.Ok? ==> config.cusip in data && |r.value.position| == |data[config.cusip].index|
  {
    if config.cusip !in data then Err(MissingProduct)
    else if Named("factor") !in data[config.cusip].columns then Err(NoFactorColumn)
    else
      match MultiOutputs(data, config, params, root, |GetSubstrategies(config)|)
      case Err(e) => Err(e)
      case Ok(outputs) =>
        match Combined(outputs, config.conjunction, |data[config.cusip].index|)
        case Err(e) => Err(e)
        case Ok(position) => Ok(Positions(outputs, position))
  }

  /** The factors' columns and `FinalPosition`. */
  function PositionsFor(data: Data, config: Config, params: Params, root: Root): (r: Result<Positions, PerfError>)
    requires ValidData(data)
    ensures r.Ok? ==> config.cusip in data && |r.value.position| == |data[config.cusip].index|
  {
    if IsMulti(config) then MultiPositions(data, config, params, root)
    else
      match SingleOutput(data, config, params, root)
      case Err(e) => Err(e)
      case Ok(o) => Ok(Positions([o], o.position))
  }

  // ── the whole evaluation ───────────────────────────────────────────────

  function ChangeOf(data: Data, config: Config): (r: Result<Column, PerfError>)
    requires ValidData(data)
    ensures r.Ok? ==> config.cusip in data && |r.value| == |data[config.cusip].index|
  {
    if config.cusip !in data then Err(MissingProduct)
    else if Named("price") !in data[config.cusip].columns then Err(MissingColumn)
    else Ok(ChangeColumn(data[config.cusip].columns[Named("price")]))
  }

  datatype Evaluation = Evaluation(outputs: seq<Output>, chg: Column, position: Column, pnl: Column) {
    ghost predicate Valid(n: nat) {
      |chg| == |position| == |pnl| == n
    }
  }

  function Evaluate(data: Data, config: Config, params: Params, cost: real, root: Root)
    : (r: Result<Evaluation, PerfError>)
    requires ValidData(data)
    ensures r.Ok? ==> config.cusip in data && r.value.Valid(|data[config.cusip].index|)
  {
    match PositionsFor(data, config, params, root)
    case Err(e) => Err(e)
    case Ok(p) =>
      match ChangeOf(data, config)
      case Err(e) => Err(e)
      case Ok(chg) =>
        if p.position == [] then Err(NoBars)
        else Ok(Evaluation(p.outputs, chg, p.position, PnlColumn(p.position, chg, cost)))
  }

  function MaxWindow(windows: seq<Window>): (m: Window)
    requires windows != []
    ensures m in windows && forall w | w in windows :: w <= m
  {
    if |windows| == 1 then windows[0]
    else
      var m := MaxWindow(windows[..|windows| - 1]);
      assert windows == windows[..|windows| - 1] + [windows[|windows| - 1]];
      if m < windows[|windows| - 1] then windows[|windows| - 1] else m
  }

  /** The warm-up that the metrics leave out. */
  function MetricWindow(config: Config, params: Params): nat
    requires params.windows != []
  {
    if IsMulti(config) then MaxWindow(params.windows) else params.windows[0]
  }

  /** The Sharpe the full engine gives for a parameter set. */
  function SlowSharpe(data: Data, config: Config, params: Params, cost: real, minObs: int, root: Root)
    : Result<Cell, PerfError>
    requires ValidData(data) && params.windows != []
  {
    match Evaluate(data, config, params, cost, root)
    case Err(e) => Err(e)
    case Ok(e) => Ok(SharpeOf(e.pnl, config, params, minObs, root))
  }

  function SharpeOf(pnl: Column, config: Config, params: Params, minObs: int, root: Root): Cell
    requires params.windows != []
  {
    Sharpe(AfterWarmup(pnl, MetricWindow(config, params)), config.tradingPeriod, minObs, root)
  }

  // ── the class ──────────────────────────────────────────────────────────

  /** The newest known position and its date. */
  function LatestFinal(position: Column, index: seq<int>): (r: Option<(real, int)>)
    requires |position| == |index|
    ensures r.None? ==> forall i | 0 <= i < |position| :: position[i].None?
    ensures r.Some? ==> exists i :: IsLatest(position, index, i, r.value)
  {
    if position == [] then None
    else
      var last := |position| - 1;
      if position[last].Some? then
        assert IsLatest(position, index, last, (position[last].value, index[last]));
        Some((position[last].value, index[last]))
      else
        var r := LatestFinal(position[..last], index[..last]);
        assert r.Some? ==>
            forall i | IsLatest(position[..last], index[..last], i, r.value) :: IsLatest(position, index, i, r.value);
        r
  }

  /** Bar `i` is the newest with a position, and `found` is that position and its date. */
  ghost predicate IsLatest(position: Column, index: seq<int>, i: int, found: (real, int))
    requires |position| == |index|
  {
    && 0 <= i < |position| && position[i] == Some(found.0) && index[i] == found.1
    && forall j | i < j < |position| :: position[j].None?
  }

  /** The newest known position, or the error that there is none. */
  ghost predicate NewestKnown(position: Column, index: seq<int>, r: Result<(real, int), PerfError>)
    requires |position| == |index|
  {
    match r
    case Ok(found) => exists i :: IsLatest(position, index, i, found)
    case Err(e) => e == InsufficientData && forall i | 0 <= i < |position| :: position[i].None?
  }

  ghost predicate Holds(columns: map<Label, Column>, name: Label, col: Column) {
    name in columns && columns[name] == col
  }

  ghost predicate ShowsFactor(columns: map<Label, Column>, no: nat, o: Output) {
    && Holds(columns, FactorNo(no), o.factor)
    && Holds(columns, IndicatorNo(no), o.indicator)
    && Holds(columns, PositionNo(no), o.position)
  }

  /** The frame holds the factors' columns, the bar changes and the final position. */
  ghost predicate ShowsPositions(columns: map<Label, Column>, p: Positions, chg: Column) {
    && Holds(columns, Chg, chg)
    && Holds(columns, FinalPosition, p.position)
    && forall i | 0 <= i < |p.outputs| :: ShowsFactor(columns, i + 1, p.outputs[i])
  }

  /** And the return columns. */
  ghost predicate ShowsReturns(columns: map<Label, Column>, e: Evaluation)
    requires |e.chg| == |e.position|
  {
    var buyHold := BuyHoldColumn(e.position, e.chg);
    && Holds(columns, PriorPosition, PriorColumn(e.position))
    && Holds(columns, Trade, TurnoverColumn(e.position))
    && Holds(columns, Pnl, e.pnl)
    && Holds(columns, Cumu, CumulativeColumn(e.pnl))
    && Holds(columns, Dd, DrawdownColumn(e.pnl))
    && Holds(columns, BuyHold, buyHold)
    && Holds(columns, BuyHoldCumu, CumulativeColumn(buyHold))
    && Holds(columns, BuyHoldDd, DrawdownColumn(buyHold))
  }

  /** The frame still has the columns the product came with; a single factor may replace "factor". */
  ghost predicate KeepsData(product: Product, columns: map<Label, Column>, multi: bool) {
    forall name | multi || name != "factor" ::
      && (Named(name) in columns <==> Named(name) in product.columns)
      && (Named(name) in columns ==> columns[Named(name)] == product.columns[Named(name)])
  }

  function WithFactor(columns: map<Label, Column>, no: nat, o: Output): map<Label, Column> {
    columns[FactorNo(no) := o.factor][IndicatorNo(no) := o.indicator][PositionNo(no) := o.position]
  }

  lemma WithFactorShows(columns: map<Label, Column>, no: nat, o: Output)
    ensures ShowsFactor(WithFactor(columns, no, o), no, o)
    ensures forall other: nat, x: Output | other != no && ShowsFactor(columns, other, x) ::
              ShowsFactor(WithFactor(columns, no, o), other, x)
    ensures forall product: Product, multi: bool | KeepsData(product, columns, multi) ::
              KeepsData(product, WithFactor(columns, no, o), multi)
    ensures forall chg: Column | Holds(columns, Chg, chg) :: Holds(WithFactor(columns, no, o), Chg, chg)
  {
  }

  lemma AddedShows(columns: map<Label, Column>, name: Label, col: Column)
    requires name == Chg || name == FinalPosition
    ensures forall no: nat, x: Output | ShowsFactor(columns, no, x) :: ShowsFactor(columns[name := col], no, x)
  {
  }

  function WithReturns(columns: map<Label, Column>, position: Column, chg: Column, cost: real): map<Label, Column>
    requires |position| == |chg|
  {
    var pnl, buyHold := PnlColumn(position, chg, cost), BuyHoldColumn(position, chg);
    columns[PriorPosition := PriorColumn(position)][Trade := TurnoverColumn(position)][Pnl := pnl]
      [Cumu := CumulativeColumn(pnl)][Dd := DrawdownColumn(pnl)]
      [BuyHold := buyHold][BuyHoldCumu := CumulativeColumn(buyHold)][BuyHoldDd := DrawdownColumn(buyHold)]
  }

  lemma WithReturnsShows(columns: map<Label, Column>, p: Positions, chg: Column, cost: real, product: Product, multi: bool)
    requires |p.position| == |chg| && ShowsPositions(columns, p, chg) && KeepsData(product, columns, multi)
    ensures var after := WithReturns(columns, p.position, chg, cost);
            && ShowsPositions(after, p, chg) && KeepsData(product, after, multi)
            && ShowsReturns(after, Evaluation(p.outputs, chg, p.position, PnlColumn(p.position, chg, cost)))
  {
    hide PnlColumn, BuyHoldColumn, PriorColumn, TurnoverColumn, CumulativeColumn, DrawdownColumn;
    var after := WithReturns(columns, p.position, chg, cost);
    forall i | 0 <= i < |p.outputs|
      ensures ShowsFactor(after, i + 1, p.outputs[i])
    {
      assert ShowsFactor(columns, i + 1, p.outputs[i]);
    }
  }

  class Backtest {
    const data: Data
    const config: Config
    const params: Params
    const cost: real
    const minObs: int
    const root: Root
    var columns: map<Label, Column>

    ghost predicate Valid()
      reads this
    {
      && ValidData(data) && config.cusip in data && params.windows != []
      && KeepsData(data[config.cusip], columns, IsMulti(config))
    }

    constructor (data: Data, config: Config, params: Params, feeBps: Option<real>, minObs: int, root: Root)
      requires ValidData(data) && config.cusip in data && params.windows != []
      ensures Valid() && this.data == data && this.config == config && this.params == params
      ensures cost == TransactionCost(feeBps) && this.minObs == minObs && this.root == root
      ensures columns == data[config.cusip].columns
    {
      this.data, this.config, this.params := data, config, params;
      this.cost, this.minObs, this.root := TransactionCost(feeBps), minObs, root;
      columns := data[config.cusip].columns;
    }

    /** What enrichment leaves in the frame, and when it fails. */
    ghost predicate Enriched(r: Result<Positions, PerfError>)
      requires ValidData(data)
      reads this
    {
      var p, chg := PositionsFor(data, config, params, root), ChangeOf(data, config);
      && (p.Err? ==> r == Err(p.error))
      && (p.Ok? && chg.Err? ==> r == Err(chg.error))
      && (p.Ok? && chg.Ok? ==> r == p && ShowsPositions(columns, p.value, chg.value))
    }

    /** The frame holds a whole evaluation. */
    ghost predicate Evaluated()
      requires ValidData(data)
      reads this
    {
      var e := Evaluate(data, config, params, cost, root);
      && e.Ok? && ShowsReturns(columns, e.value)
      && ShowsPositions(columns, Positions(e.value.outputs, e.value.position), e.value.chg)
    }

    method ShowFactor(no: nat, o: Output)
      modifies this
      ensures columns == WithFactor(old(columns), no, o)
      ensures ShowsFactor(columns, no, o)
      ensures forall other: nat, x: Output | other != no && ShowsFactor(old(columns), other, x) ::
                ShowsFactor(columns, other, x)
      ensures forall product: Product, multi: bool | KeepsData(product, old(columns), multi) ::
                KeepsData(product, columns, multi)
      ensures forall chg: Column | Holds(old(columns), Chg, chg) :: Holds(columns, Chg, chg)
    {
      WithFactorShows(columns, no, o);
      columns := columns[FactorNo(no) := o.factor];
      columns := columns[IndicatorNo(no) := o.indicator];
      columns := columns[PositionNo(no) := o.position];
    }

    method EnrichSingleFactor() returns (r: Result<Positions, PerfError>)
      requires Valid() && !IsMulti(config)
      modifies this
      ensures Valid() && Enriched(r)
      ensures PositionsFor(data, config, params, root).Err? ==> columns == old(columns)
    {
      hide IndicatorColumn, PositionColumn, ChangeColumn, SingleOutput, ShowsFactor, FactorColumn;
      var output := SingleOutput(data, config, params, root);
      if output.Err? {
        return Err(output.error);
      }
      var o := output.value;
      columns := data[config.cusip].columns;
      columns := columns[Named("factor") := o.factor];
      ShowFactor(1, o);
      if Named("price") !in columns {
        return Err(MissingColumn);
      }
      AddedShows(columns, Chg, ChangeColumn(columns[Named("price")]));
      columns := columns[Chg := ChangeColumn(columns[Named("price")])];
      AddedShows(columns, FinalPosition, o.position);
      columns := columns[FinalPosition := o.position];
      r := Ok(Positions([o], o.position));
    }

    method EnrichMultiFactor() returns (r: Result<Positions, PerfError>)
      requires Valid() && IsMulti(config)
      modifies this
      ensures Valid() && Enriched(r)
      ensures PositionsFor(data, config, params, root).Err? ==> columns == old(columns)
    {
      hide IndicatorColumn, PositionColumn, ChangeColumn, MultiOutput, MultiOutputs, Combined, ShowsFactor, FactorColumn;
      var subs := GetSubstrategies(config);
      if Named("factor") !in columns {
        return Err(NoFactorColumn);
      }
      var outputs := [];
      for i := 0 to |subs|
        invariant MultiOutputs(data, config, params, root, i) == Ok(outputs)
        invariant columns == old(columns)
      {
        var output := MultiOutput(data, config, params, root, i);
        OneMore(data, config, params, root, i);
        if output.Err? {
          FirstFailure(data, config, params, root, i, |subs|);
          return Err(output.error);
        }
        outputs := outputs + [output.value];
      }
      var final := Combined(outputs, config.conjunction, |data[config.cusip].index|);
      if final.Err? {
        return Err(final.error);
      }
      if Named("price") !in columns {
        return Err(MissingColumn);
      }
      columns := columns[Chg := ChangeColumn(columns[Named("price")])];
      for i := 0 to |outputs|
        invariant Named("price") in columns && Holds(columns, Chg, ChangeColumn(columns[Named("price")]))
        invariant KeepsData(data[config.cusip], columns, true)
        invariant forall j | 0 <= j < i :: ShowsFactor(columns, j + 1, outputs[j])
      {
        ShowFactor(i + 1, outputs[i]);
      }
      AddedShows(columns, FinalPosition, final.value);
      columns := columns[FinalPosition := final.value];
      r := Ok(Positions(outputs, final.value));
    }

    method ComputePnlColumns(position: Column, chg: Column)
      requires |position| == |chg|
      modifies this
      ensures columns == WithReturns(old(columns), position, chg, cost)
    {
      hide CumulativeColumn, DrawdownColumn, PriorColumn, TurnoverColumn, PnlColumn, BuyHoldColumn;
      columns := columns[PriorPosition := PriorColumn(position)];
      columns := columns[Trade := TurnoverColumn(position)];
      columns := columns[Pnl := PnlColumn(position, chg, cost)];
      var pnl := columns[Pnl];
      columns := columns[Cumu := CumulativeColumn(pnl)];
      columns := columns[Dd := DrawdownColumn(pnl)];
      columns := columns[BuyHold := BuyHoldColumn(position, chg)];
      var buyHold := columns[BuyHold];
      columns := columns[BuyHoldCumu := CumulativeColumn(buyHold)];
      columns := columns[BuyHoldDd := DrawdownColumn(buyHold)];
    }

    /** `enrich_performance`. */
    method EnrichPerformance() returns (r: Result<Evaluation, PerfError>)
      requires Valid()
      modifies this
      ensures Valid() && r == Evaluate(data, config, params, cost, root)
      ensures r.Ok? ==> Evaluated()
      ensures PositionsFor(data, config, params, root).Err? ==> columns == old(columns)
    {
      hide IndicatorColumn, PositionColumn, ChangeColumn, MultiOutputs, Combined, SingleOutput, MultiPositions;
      hide CumulativeColumn, DrawdownColumn, PriorColumn, TurnoverColumn, PnlColumn, BuyHoldColumn;
      hide ShowsFactor, FactorColumn, SingleFactor, MultiOutput, PositionsFor, ChangeOf;
      var p;
      if IsMulti(config) {
        p := EnrichMultiFactor();
      } else {
        p := EnrichSingleFactor();
      }
      if p.Err? {
        return Err(p.error);
      }
      var position, chg := columns[FinalPosition], columns[Chg];
      if position == [] {
        return Err(NoBars);
      }
      WithReturnsShows(columns, p.value, chg, cost, data[config.cusip], IsMulti(config));
      ComputePnlColumns(position, chg);
      r := Ok(Evaluation(p.value.outputs, chg, position, columns[Pnl]));
    }

    /** The newest known position, by the same mathematics, leaving the frame alone. */
    method ComputeLatestPosition() returns (r: Result<(real, int), PerfError>)
      requires Valid()
      ensures var p := PositionsFor(data, config, params, root);
              if p.Err? then r == Err(p.error) else NewestKnown(p.value.position, data[config.cusip].index, r)
      ensures Evaluated() ==> NewestKnown(columns[FinalPosition], data[config.cusip].index, r)
    {
      hide PositionsFor, ChangeOf, IsLatest, KeepsData;
      var p := PositionsFor(data, config, params, root);
      if p.Err? {
        return Err(p.error);
      }
      var latest := LatestFinal(p.value.position, data[config.cusip].index);
      return if latest.None? then Err(InsufficientData) else Ok(latest.value);
    }

    /** `get_sharpe_ratio`: on an enriched frame, the Sharpe of the whole evaluation. */
    method GetSharpeRatio() returns (r: Result<Cell, PerfError>)
      requires Valid()
      ensures Evaluated() ==> r == SlowSharpe(data, config, params, cost, minObs, root)
      ensures Pnl !in columns ==> r == Err(MissingColumn)
    {
      hide PositionsFor, ChangeOf, KeepsData, Sharpe;
      if Pnl !in columns {
        return Err(MissingColumn);
      }
      r := Ok(Sharpe(AfterWarmup(columns[Pnl], MetricWindow(config, params)), config.tradingPeriod, minObs, root));
    }
  }

  lemma OneMore(data: Data, config: Config, params: Params, root: Root, i: nat)
    requires ValidData(data) && i < |GetSubstrategies(config)|
    requires MultiOutputs(data, config, params, root, i).Ok?
    ensures MultiOutputs(data, config, params, root, i + 1)
            == match MultiOutput(data, config, params, root, i)
               case Err(e) => Err(e)
               case Ok(last) => Ok(MultiOutputs(data, config, params, root, i).value + [last])
  {
  }

  lemma {:induction false} FirstFailure(data: Data, config: Config, params: Params, root: Root, i: nat, k: nat)
    requires ValidData(data) && i < k <= |GetSubstrategies(config)|
    requires MultiOutputs(data, config, params, root, i + 1).Err?
    ensures MultiOutputs(data, config, params, root, k) == MultiOutputs(data, config, params, root, i + 1)
  {
    if i + 1 < k {
      FirstFailure(data, config, params, root, i, k - 1);
    }
  }
}
