/**
 What a strategy is, and the series it reads
 (quant/strategy/signals.py, quant/strategy/performance.py).
 */
module FactorFrames {
  import opened Outcomes
  import opened Columns
  import opened Indicators
  import opened Signals

  /** A column of a frame: one the data came with, or one the engine adds. */
  datatype Label =
    | Named(name: string)
    | FactorNo(i: nat) | IndicatorNo(i: nat) | PositionNo(i: nat)
    | Chg | FinalPosition | PriorPosition | Trade | Pnl | Cumu | Dd | BuyHold | BuyHoldCumu | BuyHoldDd

  /** A product's history: the bars' dates, and columns of the same length. */
  datatype Product = Product(index: seq<int>, columns: map<Label, Column>) {
    ghost predicate Valid() {
      && (forall i, j | 0 <= i < j < |index| :: index[i] != index[j])
      && forall name | name in columns :: |columns[name]| == |index|
    }
  }

  type Data = map<string, Product>

  ghost predicate ValidData(data: Data) {
    forall cusip | cusip in data :: data[cusip].Valid()
  }

  datatype SubStrategy =
    SubStrategy(indicator: Indicator, signalFunc: SignalFunc, dataColumn: string, cusip: Option<string>)

  datatype Config =
    Config(cusip: string, indicator: Indicator, signalFunc: SignalFunc, tradingPeriod: nat,
           conjunction: string, substrategies: seq<SubStrategy>)

  /** The windows and thresholds an evaluation runs with, one per factor. */
  datatype Params = Params(windows: seq<Window>, signals: seq<real>)

  datatype PerfError =
    MissingProduct | MissingColumn | SparseFactor | NoFactorColumn | MissingParameter | NoBars | BadSignals
    | InsufficientData

  function GetSubstrategies(config: Config): (subs: seq<SubStrategy>)
    ensures subs != []
    ensures config.substrategies != [] ==> subs == config.substrategies
  {
    if config.substrategies != [] then config.substrategies
    else [SubStrategy(config.indicator, config.signalFunc, "factor", None)]
  }

  function SubCusip(config: Config, sub: SubStrategy): string {
    if sub.cusip.Some? && sub.cusip.value != "" then sub.cusip.value else config.cusip
  }

  // ── alignment ──────────────────────────────────────────────────────────

  /** The cell dated `t`. */
  function Lookup(index: seq<int>, col: Column, t: int): Cell
    requires |index| == |col|
  {
    if index == [] then None
    else if index[0] == t then col[0]
    else Lookup(index[1..], col[1..], t)
  }

  /** `Series.reindex`. */
  function Reindex(index: seq<int>, col: Column, target: seq<int>): (r: Column)
    requires |index| == |col|
    ensures |r| == |target|
  {
    seq(|target|, i requires 0 <= i < |target| => Lookup(index, col, target[i]))
  }

  lemma {:induction false} LookupOwn(index: seq<int>, col: Column, i: nat)
    requires |index| == |col| && i < |index|
    requires forall i, j | 0 <= i < j < |index| :: index[i] != index[j]
    ensures Lookup(index, col, index[i]) == col[i]
  {
    if i > 0 {
      LookupOwn(index[1..], col[1..], i - 1);
    }
  }

  /** A series aligned to its own index is itself. */
  lemma ReindexOwn(index: seq<int>, col: Column)
    requires |index| == |col|
    requires forall i, j | 0 <= i < j < |index| :: index[i] != index[j]
    ensures Reindex(index, col, index) == col
  {
    forall i | 0 <= i < |index|
      ensures Reindex(index, col, index)[i] == col[i]
    {
      LookupOwn(index, col, i);
    }
  }

  /** A series is aligned by date: the cell dated as the bar is, and none where no bar is. */
  lemma {:induction false} LookupByDate(index: seq<int>, col: Column, t: int)
    requires |index| == |col| && forall i, j | 0 <= i < j < |index| :: index[i] != index[j]
    ensures forall j | 0 <= j < |index| && index[j] == t :: Lookup(index, col, t) == col[j]
    ensures t !in index ==> Lookup(index, col, t).None?
  {
    if index != [] && index[0] != t {
      LookupByDate(index[1..], col[1..], t);
      assert index == [index[0]] + index[1..];
    }
  }

  /** Dates of the main product that the factor's product has no bar for. */
  function MissingDates(main: seq<int>, factor: seq<int>): set<int> {
    set t | t in main && t !in factor
  }

  /** Whether at least 80% of the main product's dates are covered. */
  predicate Covered(main: seq<int>, factor: seq<int>) {
    5 * |MissingDates(main, factor)| <= |set t | t in main|
  }

  /** The rule in its own words: at least four dates in five have a bar of the factor's product. */
  lemma CoveredIsFourInFive(main: seq<int>, factor: seq<int>)
    ensures Covered(main, factor) <==> 5 * |set t | t in main && t in factor| >= 4 * |set t | t in main|
  {
    var dates := set t | t in main;
    var have := set t | t in main && t in factor;
    var missing := MissingDates(main, factor);
    assert dates == have + missing && have !! missing;
    assert |dates| == |have| + |missing|;
  }

  // ── FactorFrames ───────────────────────────────────────────────────────

  /** The substrategy's factor column, aligned to the traded product's index. */
  function FactorColumn(data: Data, config: Config, sub: SubStrategy): Result<Column, PerfError>
    requires ValidData(data)
  {
    var cusip := SubCusip(config, sub);
    if config.cusip !in data || cusip !in data then Err(MissingProduct)
    else
      var main, product := data[config.cusip], data[cusip];
      if cusip != config.cusip && !Covered(main.index, product.index) then Err(SparseFactor)
      else if Named(sub.dataColumn) !in product.columns then Err(MissingColumn)
      else Ok(Reindex(product.index, product.columns[Named(sub.dataColumn)], main.index))
  }

  /** Whether the single factor replaces the main frame's own "factor" column. */
  predicate Replaces(data: Data, config: Config, sub: SubStrategy)
    requires SubCusip(config, sub) in data
  {
    || SubCusip(config, sub) != config.cusip
    || Named(sub.dataColumn) in data[SubCusip(config, sub)].columns
  }

  /** The "factor" column of `single_factor_frame`, if the frame has one. */
  function SingleFactor(data: Data, config: Config): Result<Column, PerfError>
    requires ValidData(data)
  {
    var sub := GetSubstrategies(config)[0];
    if config.cusip !in data || SubCusip(config, sub) !in data then Err(MissingProduct)
    else if Replaces(data, config, sub) then FactorColumn(data, config, sub)
    else
      var main := data[config.cusip];
      if Named("factor") in main.columns then Ok(main.columns[Named("factor")]) else Err(NoFactorColumn)
  }

  function OhlcOf(product: Product): Option<Ohlc> {
    if Named("High") in product.columns && Named("Low") in product.columns && Named("Close") in product.columns
    then Some(Ohlc(product.columns[Named("High")], product.columns[Named("Low")], product.columns[Named("Close")]))
    else None
  }

  lemma FactorLength(data: Data, config: Config, sub: SubStrategy)
    requires ValidData(data)
    ensures FactorColumn(data, config, sub).Ok? ==>
              && config.cusip in data
              && |FactorColumn(data, config, sub).value| == |data[config.cusip].index|
    ensures SingleFactor(data, config).Ok? ==>
              && config.cusip in data
              && |SingleFactor(data, config).value| == |data[config.cusip].index|
  {
  }
}
