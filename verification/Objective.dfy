/**
 The search's fast form of a backtest: indicators computed once per window, one Sharpe
 per parameter set (quant/strategy/objective.py), proved equal to the full engine.
 */
module Objective {
  import opened Outcomes
  import opened Columns
  import opened Indicators
  import opened Signals
  import opened FactorFrames
  import opened Performance

  /** `_sharpe`: the Sharpe of a position column against cached bar changes. */
  function PositionSharpe(position: Column, chg: Column, cost: real, window: nat, tradingPeriod: nat, minObs: int, root: Root)
    : Result<Cell, PerfError>
    requires |position| == |chg|
  {
    if position == [] then Err(NoBars)
    else Ok(Sharpe(AfterWarmup(PnlColumn(position, chg, cost), window), tradingPeriod, minObs, root))
  }

  /** One factor's indicator columns by window. */
  class IndicatorCache {
    const frame: Frame
    const indicator: Indicator
    const root: Root
    const arrays: map<Window, Column>

    ghost predicate Valid() {
      && frame.Valid()
      && forall w | w in arrays :: Readable(frame, indicator) && arrays[w] == IndicatorColumn(frame, indicator, w, root)
    }

    constructor (frame: Frame, indicator: Indicator, windows: seq<Window>, root: Root)
      requires frame.Valid() && (windows != [] ==> Readable(frame, indicator))
      ensures Valid() && this.frame == frame && this.indicator == indicator && this.root == root
      ensures forall w :: w in arrays <==> w in windows
    {
      var built: map<Window, Column> := map[];
      for i := 0 to |windows|
        invariant forall w :: w in built <==> w in windows[..i]
        invariant forall w | w in built :: built[w] == IndicatorColumn(frame, indicator, w, root)
      {
        built := built[windows[i] := IndicatorColumn(frame, indicator, windows[i], root)];
      }
      this.frame, this.indicator, this.root, this.arrays := frame, indicator, root, built;
    }
  }

  // ── one factor ─────────────────────────────────────────────────────────

  class SingleFactorObjective {
    const data: Data
    const config: Config
    const cost: real
    const minObs: int
    const root: Root
    const chg: Column
    const cache: IndicatorCache

    ghost predicate Valid() {
      && ValidData(data) && !IsMulti(config)
      && ChangeOf(data, config) == Ok(chg)
      && SingleFactor(data, config).Ok?
      && cache.Valid() && cache.root == root && cache.indicator == config.indicator
      && cache.frame == Frame(SingleFactor(data, config).value, OhlcOf(data[config.cusip]))
    }

    constructor (data: Data, config: Config, feeBps: Option<real>, minObs: int, root: Root, cache: IndicatorCache)
      requires ValidData(data) && !IsMulti(config)
      requires ChangeOf(data, config).Ok? && SingleFactor(data, config).Ok?
      requires cache.Valid() && cache.root == root && cache.indicator == config.indicator
      requires cache.frame == Frame(SingleFactor(data, config).value, OhlcOf(data[config.cusip]))
      ensures Valid() && this.data == data && this.config == config && this.cache == cache
      ensures cost == TransactionCost(feeBps) && this.minObs == minObs && this.root == root
    {
      this.data, this.config, this.minObs, this.root := data, config, minObs, root;
      this.cost, this.chg, this.cache := TransactionCost(feeBps), ChangeOf(data, config).value, cache;
    }

    /** Building fails only where every evaluation would. */
    static method Build(data: Data, config: Config, windows: seq<Window>, feeBps: Option<real>, minObs: int, root: Root)
      returns (r: Result<SingleFactorObjective, PerfError>)
      requires ValidData(data) && !IsMulti(config)
      ensures r.Ok? ==>
                && r.value.Valid() && r.value.data == data && r.value.config == config && r.value.minObs == minObs
                && r.value.cost == TransactionCost(feeBps) && r.value.root == root
                && forall w :: w in r.value.cache.arrays <==> w in windows
      ensures r.Err? ==>
                forall params: Params | params.windows != [] ::
                  SlowSharpe(data, config, params, TransactionCost(feeBps), minObs, root).Err?
    {
      hide ChangeColumn, IndicatorColumn, SingleFactor, OhlcOf, PositionColumn;
      FactorLength(data, config, GetSubstrategies(config)[0]);
      var chg := ChangeOf(data, config);
      if chg.Err? {
        return Err(chg.error);
      }
      var factor := SingleFactor(data, config);
      if factor.Err? {
        return Err(factor.error);
      }
      OhlcLengths(data, config);
      var frame := Frame(factor.value, OhlcOf(data[config.cusip]));
      if windows != [] && !Readable(frame, config.indicator) {
        return Err(MissingColumn);
      }
      var cache := new IndicatorCache(frame, config.indicator, windows, root);
      var objective := new SingleFactorObjective(data, config, feeBps, minObs, root, cache);
      r := Ok(objective);
    }

    /** For a cached window, the fast form is the engine's Sharpe. */
    method Call(windows: seq<Window>, signals: seq<real>) returns (r: Result<Cell, PerfError>)
      requires Valid()
      ensures windows != [] && signals != [] && windows[0] in cache.arrays ==>
                r == SlowSharpe(data, config, Params(windows, signals), cost, minObs, root)
      ensures !(windows != [] && signals != [] && windows[0] in cache.arrays) ==> r == Err(MissingParameter)
    {
      hide ChangeOf, IndicatorColumn, SingleFactor, OhlcOf, PositionColumn, PnlColumn;
      if windows == [] || signals == [] || windows[0] !in cache.arrays {
        return Err(MissingParameter);
      }
      FactorLength(data, config, GetSubstrategies(config)[0]);
      var position := PositionColumn(config.signalFunc, cache.arrays[windows[0]], signals[0]);
      r := PositionSharpe(position, chg, cost, windows[0], config.tradingPeriod, minObs, root);
    }
  }

  lemma OhlcLengths(data: Data, config: Config)
    requires ValidData(data) && SingleFactor(data, config).Ok?
    ensures config.cusip in data
    ensures Frame(SingleFactor(data, config).value, OhlcOf(data[config.cusip])).Valid()
  {
  }

  // ── several factors ────────────────────────────────────────────────────

  /** The cache of factor `i`: its aligned column and nothing else. */
  ghost predicate Caches(cache: IndicatorCache, data: Data, config: Config, i: nat, root: Root)
    requires ValidData(data) && i < |GetSubstrategies(config)|
  {
    var sub := GetSubstrategies(config)[i];
    && FactorColumn(data, config, sub).Ok?
    && cache.Valid() && cache.root == root && cache.indicator == sub.indicator
    && cache.frame == Frame(FactorColumn(data, config, sub).value, None)
  }

  /** The Sharpe of a run on the engine's outputs for the first `k` factors only. */
  function FirstFactors(data: Data, config: Config, params: Params, k: nat, cost: real, minObs: int, root: Root)
    : Result<Cell, PerfError>
    requires ValidData(data) && k <= |GetSubstrategies(config)| && params.windows != []
  {
    match ChangeOf(data, config)
    case Err(e) => Err(e)
    case Ok(chg) =>
      match MultiOutputs(data, config, params, root, k)
      case Err(e) => Err(e)
      case Ok(outputs) =>
        match Combined(outputs, config.conjunction, |chg|)
        case Err(e) => Err(e)
        case Ok(position) =>
          PositionSharpe(position, chg, cost, MaxWindow(params.windows), config.tradingPeriod, minObs, root)
  }

  /** On all its factors, and with a factor column on the traded product, that is the engine's. */
  lemma AllFactorsAreTheEngine(data: Data, config: Config, params: Params, cost: real, minObs: int, root: Root)
    requires ValidData(data) && IsMulti(config) && params.windows != []
    requires ChangeOf(data, config).Ok? && Named("factor") in data[config.cusip].columns
    requires MultiOutputs(data, config, params, root, |GetSubstrategies(config)|).Ok?
    ensures FirstFactors(data, config, params, |GetSubstrategies(config)|, cost, minObs, root)
            == SlowSharpe(data, config, params, cost, minObs, root)
  {
    hide MultiOutputs, PnlColumn, CombinePositions, ChangeColumn;
  }

  lemma EngineRefuses(data: Data, config: Config, params: Params, k: nat, cost: real, minObs: int, root: Root)
    requires ValidData(data) && IsMulti(config) && config.cusip in data
    requires 0 < |params.windows| == k <= |GetSubstrategies(config)|
    requires Named("factor") !in data[config.cusip].columns || k != |GetSubstrategies(config)|
    ensures SlowSharpe(data, config, params, cost, minObs, root).Err?
  {
    hide ChangeOf, Combined, OutputOn, FactorColumn;
    assert k < |GetSubstrategies(config)| ==> MultiOutput(data, config, params, root, k).Err?;
  }

  class MultiFactorObjective {
    const data: Data
    const config: Config
    const cost: real
    const minObs: int
    const root: Root
    const chg: Column
    const caches: seq<IndicatorCache>
    const signalFuncs: seq<SignalFunc>

    ghost predicate Valid() {
      && ValidData(data) && IsMulti(config)
      && ChangeOf(data, config) == Ok(chg)
      && |caches| == |signalFuncs| <= |GetSubstrategies(config)|
      && (forall i | 0 <= i < |caches| :: Caches(caches[i], data, config, i, root))
      && forall i | 0 <= i < |caches| :: signalFuncs[i] == GetSubstrategies(config)[i].signalFunc
    }

    /** Every factor has its window cached. */
    ghost predicate Serves(windows: seq<Window>, signals: seq<real>) {
      && |caches| <= |windows| && |caches| <= |signals|
      && forall i | 0 <= i < |caches| :: windows[i] in caches[i].arrays
    }

    /**
     What the full engine asks for and the objective does not: a factor column on the
     traded product, and a window range for every substrategy.
     */
    predicate FitsEngine()
      requires config.cusip in data
    {
      Named("factor") in data[config.cusip].columns && |caches| == |GetSubstrategies(config)|
    }

    constructor (data: Data, config: Config, feeBps: Option<real>, minObs: int, root: Root,
                 caches: seq<IndicatorCache>, signalFuncs: seq<SignalFunc>)
      requires ValidData(data) && IsMulti(config) && ChangeOf(data, config).Ok?
      requires |caches| == |signalFuncs| <= |GetSubstrategies(config)|
      requires forall i | 0 <= i < |caches| :: Caches(caches[i], data, config, i, root)
      requires forall i | 0 <= i < |caches| :: signalFuncs[i] == GetSubstrategies(config)[i].signalFunc
      ensures Valid() && this.data == data && this.config == config && this.caches == caches
      ensures cost == TransactionCost(feeBps) && this.minObs == minObs && this.root == root
    {
      this.data, this.config, this.minObs, this.root := data, config, minObs, root;
      this.cost, this.chg := TransactionCost(feeBps), ChangeOf(data, config).value;
      this.caches, this.signalFuncs := caches, signalFuncs;
    }

    /** Building fails only where every evaluation would. */
    static method Build(data: Data, config: Config, ranges: seq<seq<Window>>, feeBps: Option<real>, minObs: int, root: Root)
      returns (r: Result<MultiFactorObjective, PerfError>)
      requires ValidData(data) && IsMulti(config)
      ensures r.Ok? ==>
                && r.value.Valid() && r.value.data == data && r.value.config == config && r.value.minObs == minObs
                && r.value.cost == TransactionCost(feeBps) && r.value.root == root
                && |r.value.caches| == Shorter(|ranges|, |GetSubstrategies(config)|)
                && forall i | 0 <= i < |r.value.caches| :: forall w :: w in r.value.caches[i].arrays <==> w in ranges[i]
      ensures r.Err? ==>
                forall params: Params | params.windows != [] ::
                  SlowSharpe(data, config, params, TransactionCost(feeBps), minObs, root).Err?
    {
      hide ChangeColumn, IndicatorColumn, FactorColumn, PositionColumn, Combined;
      var chg := ChangeOf(data, config);
      if chg.Err? {
        return Err(chg.error);
      }
      var subs := GetSubstrategies(config);
      var caches: seq<IndicatorCache>, signalFuncs := [], [];
      for i := 0 to Shorter(|ranges|, |subs|)
        invariant |caches| == |signalFuncs| == i
        invariant forall j | 0 <= j < i :: Caches(caches[j], data, config, j, root)
        invariant forall j | 0 <= j < i :: forall w :: w in caches[j].arrays <==> w in ranges[j]
        invariant forall j | 0 <= j < i :: signalFuncs[j] == subs[j].signalFunc
      {
        var factor := FactorColumn(data, config, subs[i]);
        if factor.Err? || (ranges[i] != [] && !Readable(Frame(factor.value, None), subs[i].indicator)) {
          NoFactorNoSharpe(data, config, i, TransactionCost(feeBps), minObs, root);
          return Err(if factor.Err? then factor.error else MissingColumn);
        }
        var cache := new IndicatorCache(Frame(factor.value, None), subs[i].indicator, ranges[i], root);
        caches := caches + [cache];
        signalFuncs := signalFuncs + [subs[i].signalFunc];
      }
      var objective := new MultiFactorObjective(data, config, feeBps, minObs, root, caches, signalFuncs);
      r := Ok(objective);
    }

    /**
     For cached windows, the fast form is the Sharpe of the factors it has ranges for. That
     is the engine's exactly when the objective asks for what the engine asks for; otherwise
     the engine refuses every parameter set.
     */
    method Call(windows: seq<Window>, signals: seq<real>) returns (r: Result<Cell, PerfError>)
      requires Valid() && windows != []
      ensures Serves(windows, signals) ==>
                r == FirstFactors(data, config, Params(windows, signals), |caches|, cost, minObs, root)
      ensures Serves(windows, signals) && FitsEngine() ==>
                r == SlowSharpe(data, config, Params(windows, signals), cost, minObs, root)
      ensures Serves(windows, signals) && |windows| == |caches| && !FitsEngine() ==>
                SlowSharpe(data, config, Params(windows, signals), cost, minObs, root).Err?
      ensures Serves(windows, signals) ==>
                (r.Ok? <==>
                   && chg != [] && caches != []
                   && (|caches| == 1 || ParseConjunction(config.conjunction).Some?))
      ensures !Serves(windows, signals) ==> r == Err(MissingParameter)
    {
      hide ChangeOf, IndicatorColumn, FactorColumn, PositionColumn, PnlColumn, CombinePositions;
      hide FirstFactors, SlowSharpe, MultiOutputs;
      var positions: seq<Column>, strengths: seq<Column> := [], [];
      var n := |chg|;
      for i := 0 to |caches|
        invariant |positions| == |strengths| == i <= |windows|
        invariant i <= |signals| && forall j | 0 <= j < i :: windows[j] in caches[j].arrays
        invariant SameLength(positions, n) && SameLength(strengths, n)
        invariant forall j | 0 <= j < i :: Factored(positions[j], strengths[j], Params(windows, signals), j)
      {
        if |windows| <= i || |signals| <= i || windows[i] !in caches[i].arrays {
          return Err(MissingParameter);
        }
        var ind := caches[i].arrays[windows[i]];
        FactorLength(data, config, GetSubstrategies(config)[i]);
        positions := positions + [PositionColumn(signalFuncs[i], ind, signals[i])];
        strengths := strengths + [ind];
      }
      var combined := CombinePositions(positions, config.conjunction, Some(strengths), n);
      CombinedLength(positions, config.conjunction, Some(strengths), n);
      EngineCombines(positions, strengths, Params(windows, signals), n);
      if FitsEngine() {
        AllFactorsAreTheEngine(data, config, Params(windows, signals), cost, minObs, root);
      } else if |windows| == |caches| {
        EngineRefuses(data, config, Params(windows, signals), |caches|, cost, minObs, root);
      }
      if combined.Err? {
        return Err(BadSignals);
      }
      r := PositionSharpe(combined.value, chg, cost, MaxWindow(windows), config.tradingPeriod, minObs, root);
    }

    lemma EngineCombines(positions: seq<Column>, strengths: seq<Column>, params: Params, n: nat)
      requires Valid() && params.windows != [] && n == |chg|
      requires |positions| == |strengths| == |caches| && SameLength(positions, n) && SameLength(strengths, n)
      requires forall j | 0 <= j < |caches| :: Factored(positions[j], strengths[j], params, j)
      ensures MultiOutputs(data, config, params, root, |caches|).Ok?
      ensures var combined := CombinePositions(positions, config.conjunction, Some(strengths), n);
              && (combined.Err? ==> FirstFactors(data, config, params, |caches|, cost, minObs, root) == Err(BadSignals))
              && (combined.Ok? ==>
                    && |combined.value| == n
                    && FirstFactors(data, config, params, |caches|, cost, minObs, root)
                       == PositionSharpe(combined.value, chg, cost, MaxWindow(params.windows), config.tradingPeriod, minObs, root))
    {
      hide ChangeOf, MultiOutput, MultiOutputs, PnlColumn, CombinePositions;
      var outputs := MultiOutputs(data, config, params, root, |caches|);
      forall j | 0 <= j < |caches|
        ensures var o := MultiOutput(data, config, params, root, j);
                o.Ok? && o.value.position == positions[j] && o.value.indicator == strengths[j]
      {
        assert Factored(positions[j], strengths[j], params, j);
      }
      assert PositionsOf(outputs.value) == positions && StrengthsOf(outputs.value) == strengths;
      CombinedLength(positions, config.conjunction, Some(strengths), n);
    }

    /** The engine computes the same columns for factor `i`. */
    ghost predicate Factored(position: Column, strength: Column, params: Params, i: nat)
      requires ValidData(data) && i < |GetSubstrategies(config)|
    {
      var o := MultiOutput(data, config, params, root, i);
      o.Ok? && o.value.position == position && o.value.indicator == strength
    }
  }

  lemma CombinedLength(positions: seq<Column>, conjunction: string, strengths: Option<seq<Column>>, n: nat)
    requires SameLength(positions, n)
    requires strengths.Some? ==> |strengths.value| == |positions| && SameLength(strengths.value, n)
    ensures var combined := CombinePositions(positions, conjunction, strengths, n);
            && (combined.Ok? ==> |combined.value| == n)
            && (combined.Ok? <==> positions != [] && (|positions| == 1 || ParseConjunction(conjunction).Some?))
  {
  }

  function Shorter(a: nat, b: nat): nat {
    if a < b then a else b
  }

  lemma NoFactorNoSharpe(data: Data, config: Config, i: nat, cost: real, minObs: int, root: Root)
    requires ValidData(data) && IsMulti(config) && i < |GetSubstrategies(config)|
    requires var sub := GetSubstrategies(config)[i];
             var factor := FactorColumn(data, config, sub);
             factor.Err? || !Readable(Frame(factor.value, None), sub.indicator)
    ensures forall params: Params | params.windows != [] ::
              SlowSharpe(data, config, params, cost, minObs, root).Err?
  {
    hide FactorColumn, ChangeOf, Combined;
    forall params: Params | params.windows != []
      ensures SlowSharpe(data, config, params, cost, minObs, root).Err?
    {
      assert MultiOutput(data, config, params, root, i).Err?;
    }
  }
}
