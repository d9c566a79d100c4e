/**
 Several factors on the bars that a live run loads (quant/strategy/performance.py:297-317,
 quant/strategy/signals.py:100-128, quant/market_data/service.py:614-738).

 Where no conflict is settled by conviction, the newest position is the backtest's. Where
 one is, it need not be, however many bars are loaded: conviction ranks a reading among all
 earlier ones.
 */
module LiveConflict {
  import opened Outcomes
  import opened Columns
  import opened Indicators
  import opened Signals
  import opened FactorFrames
  import opened Performance
  import opened LiveWindow
  import BarStore
  import Fetcher
  import Intervals

  function Served(cusip: string, bars: seq<Fetcher.Bar>): Data {
    map[cusip := OhlcvFrame(bars)]
  }

  lemma TailServed(history: seq<Fetcher.Bar>, d: nat, config: Config)
    requires d < |history| && Ordered(history)
    ensures var live, full := Served(config.cusip, history[d..]), Served(config.cusip, history);
            && ValidData(live) && ValidData(full) && IsTail(live, full, config, d)
            && OhlcvFrame(history).Valid() && OhlcvFrame(history[d..]).Valid()
            && config.cusip in live && config.cusip in full
            && live[config.cusip].index == Dates(history[d..]) && full[config.cusip].index == Dates(history)
  {
    ServedTail(history, d, config);
    hide IsTailOf, OhlcvFrame;
  }

  /** Every factor reads a column of the frame the bar store serves, and is bounded in what it remembers. */
  predicate OwnFactors(config: Config, params: Params) {
    forall i | 0 <= i < |GetSubstrategies(config)| :: OwnFactor(config, params, i)
  }

  predicate OwnFactor(config: Config, params: Params, i: nat)
    requires i < |GetSubstrategies(config)|
  {
    var sub := GetSubstrategies(config)[i];
    && SubCusip(config, sub) == config.cusip && i < |params.windows| && i < |params.signals|
    && Named(sub.dataColumn) in OhlcvFrame([]).columns && !sub.indicator.Ema? && !sub.indicator.Stochastic?
  }

  /** The column that a factor reads. */
  function Reads(config: Config, bars: seq<Fetcher.Bar>, i: nat): (c: Column)
    requires i < |GetSubstrategies(config)| && Named(GetSubstrategies(config)[i].dataColumn) in OhlcvFrame([]).columns
    ensures |c| == |bars| && AllPresent(c)
  {
    OhlcvFrame(bars).columns[Named(GetSubstrategies(config)[i].dataColumn)]
  }

  /** Such a factor is its indicator on that column, and never fails. */
  lemma FactorServed(config: Config, params: Params, bars: seq<Fetcher.Bar>, root: Root, i: nat)
    requires OhlcvFrame(bars).Valid() && i < |GetSubstrategies(config)| && OwnFactor(config, params, i)
    ensures var sub, data := GetSubstrategies(config)[i], Served(config.cusip, bars);
            && ValidData(data) && FactorColumn(data, config, sub) == Ok(Reads(config, bars, i))
            && MultiOutput(data, config, params, root, i)
               == OutputOn(Frame(Reads(config, bars, i), None), sub.indicator, sub.signalFunc, params.windows[i], params.signals[i], root)
            && MultiOutput(data, config, params, root, i).Ok?
  {
    hide Reindex, IndicatorColumn, PositionColumn, Covered;
    ReindexOwn(OhlcvFrame(bars).index, Reads(config, bars, i));
  }

  /** A run on such factors fails for its conjunction only. */
  lemma PositionsServed(config: Config, params: Params, bars: seq<Fetcher.Bar>, root: Root)
    requires OhlcvFrame(bars).Valid() && IsMulti(config) && OwnFactors(config, params)
    ensures var data, k := Served(config.cusip, bars), |GetSubstrategies(config)|;
            && ValidData(data) && MultiOutputs(data, config, params, root, k).Ok?
            && (MultiPositions(data, config, params, root).Ok? <==> ParseConjunction(config.conjunction).Some?)
            && (MultiPositions(data, config, params, root).Ok? ==>
                  && MultiPositions(data, config, params, root).value.outputs == MultiOutputs(data, config, params, root, k).value
                  && |MultiPositions(data, config, params, root).value.position| == |bars|
                  && (bars != [] ==> CoversBar(PositionsOf(MultiPositions(data, config, params, root).value.outputs), |bars| - 1)))
  {
    hide MultiOutput, MultiOutputs, OwnFactor, CombinedAt, ParseConjunction;
    forall i | 0 <= i < |GetSubstrategies(config)|
      ensures ValidData(Served(config.cusip, bars)) && MultiOutput(Served(config.cusip, bars), config, params, root, i).Ok?
    {
      FactorServed(config, params, bars, root, i);
    }
  }

  /** At least two columns, and each with a cell at bar `i`. */
  predicate CoversBar(cols: seq<Column>, i: nat) {
    2 <= |cols| && forall j | 0 <= j < |cols| :: i < |cols[j]|
  }

  lemma CoversMeans(cols: seq<Column>, i: nat)
    requires CoversBar(cols, i)
    ensures 2 <= |cols| && forall j | 0 <= j < |cols| :: i < |cols[j]|
  {
  }

  // ── agreement ──────────────────────────────────────────────────────────

  /**
   On both frames the run is accepted, and, unless ranks decide on its newest bar, ends with
   the same position.
   */
  ghost predicate TradesAlikeUnlessConflict(part: seq<Fetcher.Bar>, whole: seq<Fetcher.Bar>, config: Config, params: Params,
                                            root: Root, conj: Conjunction)
    requires IsMulti(config)
  {
    var live, full := Served(config.cusip, part), Served(config.cusip, whole);
    && ValidData(live) && ValidData(full) && part != [] && whole != []
    && MultiPositions(live, config, params, root).Ok? && MultiPositions(full, config, params, root).Ok?
    && var l, b := MultiPositions(live, config, params, root).value, MultiPositions(full, config, params, root).value;
       && |l.position| == |part| && |b.position| == |whole| && CoversBar(PositionsOf(l.outputs), |part| - 1)
       && (Conflict(PositionsOf(l.outputs), conj, |part| - 1)
           || (l.position[|part| - 1] == b.position[|whole| - 1]
               && (l.position[|part| - 1].Some? ==>
                     LatestFinal(l.position, Dates(part)) == LatestFinal(b.position, Dates(whole)))))
  }

  lemma BarsForFactor(config: Config, params: Params, bars: seq<Fetcher.Bar>, root: Root, i: nat)
    requires OhlcvFrame(bars).Valid() && i < |GetSubstrategies(config)| && OwnFactor(config, params, i)
    requires 5 * |bars| >= 4 * LiveLookbackBars(params.windows)
    ensures ValidData(Served(config.cusip, bars)) && BarsFor(Served(config.cusip, bars), config, params, i)
  {
    var sub := GetSubstrategies(config)[i];
    FactorServed(config, params, bars, root, i);
    LiveWindowSuffices(params.windows, sub.indicator, params.windows[i]);
    hide FactorColumn, MultiOutput, LiveLookbackBars, NeededBars, SubCusip;
  }

  lemma FactorsTradeTheBacktest(history: seq<Fetcher.Bar>, d: nat, config: Config, params: Params, root: Root, conj: Conjunction)
    requires d < |history| && Ordered(history) && IsMulti(config) && OwnFactors(config, params) && params.windows != []
    requires 5 * (|history| - d) >= 4 * LiveLookbackBars(params.windows)
    requires ParseConjunction(config.conjunction) == Some(conj)
    ensures TradesAlikeUnlessConflict(history[d..], history, config, params, root, conj)
  {
    hide *;
    var live, full := Served(config.cusip, history[d..]), Served(config.cusip, history);
    TailServed(history, d, config);
    PositionsServed(config, params, history, root);
    PositionsServed(config, params, history[d..], root);
    EachOwn(config, params);
    forall i | 0 <= i < |GetSubstrategies(config)|
      ensures BarsFor(live, config, params, i)
    {
      BarsForFactor(config, params, history[d..], root, i);
    }
    var l, b := MultiPositions(live, config, params, root).value, MultiPositions(full, config, params, root).value;
    CoversMeans(PositionsOf(l.outputs), |history| - d - 1);
    if !Conflict(PositionsOf(l.outputs), conj, |history| - d - 1) {
      LiveIsBacktestUnlessConflict(live, full, config, params, root, d, conj);
      if l.position[|history| - d - 1].Some? {
        LatestWhenKnown(l.position, Dates(history[d..]));
        LatestWhenKnown(b.position, Dates(history));
      }
    }
    AlikeUnless(history[d..], history, config, params, root, conj);
  }

  lemma EachOwn(config: Config, params: Params)
    requires OwnFactors(config, params)
    ensures forall i | 0 <= i < |GetSubstrategies(config)| :: OwnFactor(config, params, i)
  {
    hide OwnFactor;
  }

  lemma AlikeUnless(part: seq<Fetcher.Bar>, whole: seq<Fetcher.Bar>, config: Config, params: Params, root: Root, conj: Conjunction)
    requires IsMulti(config) && part != [] && whole != []
    requires ValidData(Served(config.cusip, part)) && ValidData(Served(config.cusip, whole))
    requires MultiPositions(Served(config.cusip, part), config, params, root).Ok?
    requires MultiPositions(Served(config.cusip, whole), config, params, root).Ok?
    requires var l, b := MultiPositions(Served(config.cusip, part), config, params, root).value,
                         MultiPositions(Served(config.cusip, whole), config, params, root).value;
             && |l.position| == |part| && |b.position| == |whole| && CoversBar(PositionsOf(l.outputs), |part| - 1)
             && (Conflict(PositionsOf(l.outputs), conj, |part| - 1)
                 || (l.position[|part| - 1] == b.position[|whole| - 1]
                     && (l.position[|part| - 1].Some? ==>
                           LatestFinal(l.position, Dates(part)) == LatestFinal(b.position, Dates(whole)))))
    ensures TradesAlikeUnlessConflict(part, whole, config, params, root, conj)
  {
    hide Served, MultiPositions, Conflict, LatestFinal, IsMulti;
  }

  /**
   The position on the bars that `load_window` returned for `live_lookback_bars` is, unless
   ranks decide on the newest of them, the one the backtest takes on every bar the series
   has, the open one included where the call asked for it.
   */
  lemma LoadedFactorsTradeTheBacktest(stored: seq<Fetcher.Bar>, rows: BarStore.Rows, series: BarStore.Series, period: int, now: int,
                                      venue: BarStore.Venue, includeForming: bool, refreshed: Result<nat, BarStore.BarError>,
                                      bars: seq<Fetcher.Bar>, config: Config, params: Params, root: Root, conj: Conjunction)
    requires period > 0 && params.windows != [] && IsMulti(config) && OwnFactors(config, params)
    requires ParseConjunction(config.conjunction) == Some(conj)
    requires IsHistory(stored, rows, series, Intervals.LastClosedBar(now, period))
    requires BarStore.LoadEnds(rows, series, period, LiveLookbackBars(params.windows), now, venue, includeForming, refreshed,
                               Ok(bars))
    ensures TradesAlikeUnlessConflict(bars, WholeHistory(stored, bars, includeForming), config, params, root, conj)
  {
    hide *;
    var history := WholeHistory(stored, bars, includeForming);
    PositiveLookback(params.windows);
    LoadedFromHistory(stored, rows, series, period, LiveLookbackBars(params.windows), now, venue, includeForming, refreshed, bars);
    FactorsTradeTheBacktest(history, |history| - |bars|, config, params, root, conj);
  }

  // ── disagreement ───────────────────────────────────────────────────────

  /** `n` bars without volume after one with some, at one price throughout. */
  function QuietBars(n: nat): (bars: seq<Fetcher.Bar>)
    ensures |bars| == n + 1
    ensures forall i | 0 <= i <= n :: bars[i] == Fetcher.Bar(i, 1.0, 1.0, 1.0, 1.0, if i == 0 then 1.0 else 0.0)
  {
    seq(n + 1, i => Fetcher.Bar(i, 1.0, 1.0, 1.0, 1.0, if i == 0 then 1.0 else 0.0))
  }

  /** Long while the last bar's volume, and short while its price, is below 50; FILTER has a gate that is always open. */
  function VolumeAgainstPrice(cusip: string, conjunction: string, conj: Conjunction): Config {
    var band, bounded := SignalFunc(Momentum, false, false), SignalFunc(Momentum, true, false);
    var gate := SubStrategy(Sma, band, "price", None);
    var sides := [SubStrategy(Sma, band, "Volume", None), SubStrategy(Sma, bounded, "price", None)];
    Config(cusip, Sma, band, 365, conjunction, if conj.Filter? then [gate] + sides else sides)
  }

  function LastBarOnly(conj: Conjunction): Params {
    if conj.Filter? then Params([1, 1, 1], [-1.0, -1.0, 50.0]) else Params([1, 1], [-1.0, 50.0])
  }

  /**
   However many bars are loaded, a live run can trade against its backtest: short of one
   bar, the newest position is long where that of the whole history is short.
   */
  lemma ConflictCanDiffer(n: nat, cusip: string, conjunction: string, conj: Conjunction, root: Root)
    requires n >= 2 && ParseConjunction(conjunction) == Some(conj)
    ensures var config, params := VolumeAgainstPrice(cusip, conjunction, conj), LastBarOnly(conj);
            var live, full := Served(cusip, QuietBars(n)[1..]), Served(cusip, QuietBars(n));
            && IsTail(live, full, config, 1) && IsMulti(config) && OwnFactors(config, params)
            && MultiPositions(live, config, params, root).Ok? && MultiPositions(full, config, params, root).Ok?
            && MultiPositions(live, config, params, root).value.position[n - 1] == Some(1.0)
            && MultiPositions(full, config, params, root).value.position[n] == Some(-1.0)
  {
    hide *;
    var config := VolumeAgainstPrice(cusip, conjunction, conj);
    ConfigIs(cusip, conjunction, conj);
    QuietColumns(n);
    TailServed(QuietBars(n), 1, config);
    WholeRank(n);
    ConstantRank(n + 1, 1.0);
    QuietPosition(QuietBars(n), n, cusip, conjunction, conj, root);
    TailRank(n);
    ConstantRank(n, 1.0);
    QuietPosition(QuietBars(n)[1..], n - 1, cusip, conjunction, conj, root);
  }

  function Constant(n: nat, x: real): (c: Column)
    ensures |c| == n && forall i | 0 <= i < n :: c[i] == Some(x)
  {
    seq(n, _ => Some(x))
  }

  lemma ConstantRank(n: nat, x: real)
    requires n >= 2
    ensures ConvictionAt(Constant(n, x), n - 1) == 0.5
  {
    var col := Constant(n, x);
    EqualsCounted(col, n, x);
    assert col[..n] == col;
    assert (n as real) / (n as real) == 1.0;
  }

  lemma QuietColumns(n: nat)
    requires n >= 1
    ensures var bars := QuietBars(n);
            && Ordered(bars) && OhlcvFrame(bars).Valid() && OhlcvFrame(bars[1..]).Valid()
            && Cells(bars, Volume) == Impulse(n) && Cells(bars, ClosePx) == Constant(n + 1, 1.0)
            && Cells(bars[1..], Volume) == Impulse(n)[1..] && Cells(bars[1..], ClosePx) == Constant(n, 1.0)
  {
    hide *;
    var bars := QuietBars(n);
    QuietCells(n);
    FrameOfTail(bars, 1);
    CellsTail(bars, Volume, 1);
    CellsTail(bars, ClosePx, 1);
    assert Constant(n + 1, 1.0)[1..] == Constant(n, 1.0);
  }

  lemma QuietCells(n: nat)
    ensures Ordered(QuietBars(n))
    ensures Cells(QuietBars(n), Volume) == Impulse(n) && Cells(QuietBars(n), ClosePx) == Constant(n + 1, 1.0)
  {
    hide Cells, QuietBars, Constant;
    assert Cells(QuietBars(n), Volume) == Impulse(n);
    assert Cells(QuietBars(n), ClosePx) == Constant(n + 1, 1.0);
  }

  lemma ConfigIs(cusip: string, conjunction: string, conj: Conjunction)
    ensures var config, params := VolumeAgainstPrice(cusip, conjunction, conj), LastBarOnly(conj);
            && config.cusip == cusip && config.conjunction == conjunction && IsMulti(config) && OwnFactors(config, params)
            && |GetSubstrategies(config)| == if conj.Filter? then 3 else 2
  {
  }

  lemma MeanOfOne(x: real)
    ensures MeanOf([Some(x)]) == Some(x)
  {
    var one: Column := [Some(x)];
    assert one[..0] == [] && [x][..0] == [];
    assert Present(one) == [x] && Sum([x]) == x;
    assert x / 1.0 == x;
  }

  /** A moving average of one bar is the reading itself. */
  lemma SmaOfOne(col: Column, root: Root)
    requires AllPresent(col)
    ensures IndicatorColumn(Frame(col, None), Sma, 1, root) == col
  {
    forall i | 0 <= i < |col|
      ensures MeanAt(col, 1, i) == col[i]
    {
      MeanOfOne(col[i].value);
      assert col[i + 1 - 1..i + 1] == [Some(col[i].value)];
    }
  }

  /** One of its factors is the column it reads, and a position for each of its readings. */
  lemma QuietOutput(bars: seq<Fetcher.Bar>, config: Config, params: Params, root: Root, i: nat)
    requires OhlcvFrame(bars).Valid() && i < |GetSubstrategies(config)| && OwnFactor(config, params, i)
    requires GetSubstrategies(config)[i].indicator.Sma? && params.windows[i] == 1
    ensures var data, sub := Served(config.cusip, bars), GetSubstrategies(config)[i];
            var column := Reads(config, bars, i);
            && ValidData(data)
            && MultiOutput(data, config, params, root, i)
               == Ok(Output(column, column, PositionColumn(sub.signalFunc, column, params.signals[i])))
  {
    FactorServed(config, params, bars, root, i);
    hide PositionColumn, FactorColumn, MultiOutput, Reads, IndicatorColumn;
    SmaOfOne(Reads(config, bars, i), root);
  }

  /** The newest position is short where the price's conviction is the higher, and long otherwise. */
  lemma QuietPosition(bars: seq<Fetcher.Bar>, i: nat, cusip: string, conjunction: string, conj: Conjunction, root: Root)
    requires OhlcvFrame(bars).Valid() && i + 1 == |bars| && ParseConjunction(conjunction) == Some(conj)
    requires bars[i].volume == 0.0 && bars[i].close == 1.0
    ensures var config, params, data := VolumeAgainstPrice(cusip, conjunction, conj), LastBarOnly(conj), Served(cusip, bars);
            && ValidData(data) && MultiPositions(data, config, params, root).Ok?
            && MultiPositions(data, config, params, root).value.position[i]
               == Some(if ConvictionAt(Cells(bars, Volume), i) < ConvictionAt(Cells(bars, ClosePx), i) then -1.0 else 1.0)
  {
    hide *;
    var config, params, data := VolumeAgainstPrice(cusip, conjunction, conj), LastBarOnly(conj), Served(cusip, bars);
    var k := |GetSubstrategies(config)|;
    ConfigIs(cusip, conjunction, conj);
    PositionsServed(config, params, bars, root);
    forall j | 0 <= j < k
      ensures MultiOutput(data, config, params, root, j).Ok?
      ensures QuietlyOut(MultiOutput(data, config, params, root, j).value, bars, j, k)
    {
      QuietFactor(bars, j, cusip, conjunction, conj, root);
    }
    var outputs := MultiOutputs(data, config, params, root, k).value;
    QuietRow(outputs, bars, conj);
    PositionAt(data, config, params, root, conj, i);
  }

  /** Factor `j` of `k` reads the volume or the price; on the newest bar the last is short and the others are long. */
  ghost predicate QuietlyOut(o: Output, bars: seq<Fetcher.Bar>, j: nat, k: nat) {
    && o.indicator == (if j == k - 2 then Cells(bars, Volume) else Cells(bars, ClosePx))
    && bars != [] && |o.position| == |bars| && o.position[|bars| - 1] == Some(if j == k - 1 then -1.0 else 1.0)
  }

  lemma QuietFactor(bars: seq<Fetcher.Bar>, j: nat, cusip: string, conjunction: string, conj: Conjunction, root: Root)
    requires OhlcvFrame(bars).Valid() && bars != [] && bars[|bars| - 1].volume == 0.0 && bars[|bars| - 1].close == 1.0
    requires j < |GetSubstrategies(VolumeAgainstPrice(cusip, conjunction, conj))|
    ensures var config, params, data := VolumeAgainstPrice(cusip, conjunction, conj), LastBarOnly(conj), Served(cusip, bars);
            && ValidData(data) && MultiOutput(data, config, params, root, j).Ok?
            && QuietlyOut(MultiOutput(data, config, params, root, j).value, bars, j, |GetSubstrategies(config)|)
  {
    hide *;
    var config, params := VolumeAgainstPrice(cusip, conjunction, conj), LastBarOnly(conj);
    QuietSub(bars, j, cusip, conjunction, conj);
    QuietOutput(bars, config, params, root, j);
    var sub, column := GetSubstrategies(config)[j], Reads(config, bars, j);
    PositionIs(sub.signalFunc, column, params.signals[j], |bars| - 1);
    QuietlyIs(Output(column, column, PositionColumn(sub.signalFunc, column, params.signals[j])), bars, j, |GetSubstrategies(config)|);
  }

  lemma QuietlyIs(o: Output, bars: seq<Fetcher.Bar>, j: nat, k: nat)
    requires o.indicator == if j == k - 2 then Cells(bars, Volume) else Cells(bars, ClosePx)
    requires bars != [] && |o.position| == |bars| && o.position[|bars| - 1] == Some(if j == k - 1 then -1.0 else 1.0)
    ensures QuietlyOut(o, bars, j, k)
  {
    hide Cells;
  }

  lemma PositionIs(f: SignalFunc, column: Column, signal: real, i: nat)
    requires i < |column| && column[i].Some?
    ensures PositionColumn(f, column, signal)[i] == Some(PositionOf(f, column[i].value, signal))
  {
    hide PositionOf;
  }

  lemma QuietSub(bars: seq<Fetcher.Bar>, j: nat, cusip: string, conjunction: string, conj: Conjunction)
    requires bars != [] && bars[|bars| - 1].volume == 0.0 && bars[|bars| - 1].close == 1.0
    requires j < |GetSubstrategies(VolumeAgainstPrice(cusip, conjunction, conj))|
    ensures var config, params := VolumeAgainstPrice(cusip, conjunction, conj), LastBarOnly(conj);
            var sub, k := GetSubstrategies(config)[j], |GetSubstrategies(config)|;
            && config.cusip == cusip && OwnFactor(config, params, j) && sub.indicator.Sma? && params.windows[j] == 1
            && Named(sub.dataColumn) in OhlcvFrame([]).columns
            && Reads(config, bars, j) == (if j == k - 2 then Cells(bars, Volume) else Cells(bars, ClosePx))
            && j < |params.signals| && Reads(config, bars, j)[|bars| - 1].Some?
            && PositionOf(sub.signalFunc, Reads(config, bars, j)[|bars| - 1].value, params.signals[j])
               == if j == k - 1 then -1.0 else 1.0
  {
    hide Cells;
  }

  lemma QuietRow(outputs: seq<Output>, bars: seq<Fetcher.Bar>, conj: Conjunction)
    requires |outputs| == if conj.Filter? then 3 else 2
    requires forall j | 0 <= j < |outputs| :: QuietlyOut(outputs[j], bars, j, |outputs|)
    ensures bars != [] && CoversBar(PositionsOf(outputs), |bars| - 1) && CoversBar(StrengthsOf(outputs), |bars| - 1)
    ensures var i := |bars| - 1;
            CombinedAt(PositionsOf(outputs), conj, Some(StrengthsOf(outputs)), i)
            == Some(if ConvictionAt(Cells(bars, Volume), i) < ConvictionAt(Cells(bars, ClosePx), i) then -1.0 else 1.0)
  {
    hide ConvictionAt, CombinedAt, Cells;
    assert QuietlyOut(outputs[0], bars, 0, |outputs|);
    OppositeRow(PositionsOf(outputs), StrengthsOf(outputs), conj, |bars| - 1);
  }

  /** The combined position bar by bar. */
  lemma PositionAt(data: Data, config: Config, params: Params, root: Root, conj: Conjunction, i: nat)
    requires ValidData(data) && IsMulti(config) && MultiPositions(data, config, params, root).Ok?
    requires ParseConjunction(config.conjunction) == Some(conj)
    requires i < |MultiPositions(data, config, params, root).value.position|
    ensures var p := MultiPositions(data, config, params, root).value;
            && CoversBar(PositionsOf(p.outputs), i) && CoversBar(StrengthsOf(p.outputs), i)
            && |PositionsOf(p.outputs)| == |StrengthsOf(p.outputs)|
            && p.position[i] == CombinedAt(PositionsOf(p.outputs), conj, Some(StrengthsOf(p.outputs)), i)
  {
    hide MultiOutput, CombinedAt, ParseConjunction;
  }

  /** Of a long and a short factor, behind an open gate, the first wins unless the other's conviction is higher. */
  lemma OppositeRow(positions: seq<Column>, readings: seq<Column>, conj: Conjunction, i: nat)
    requires |positions| == |readings| == if conj.Filter? then 3 else 2
    requires forall j | 0 <= j < |positions| :: i < |positions[j]| && i < |readings[j]|
    requires forall j | 0 <= j < |positions| :: positions[j][i] == Some(if j == |positions| - 1 then -1.0 else 1.0)
    ensures var k := |positions|;
            CombinedAt(positions, conj, Some(readings), i)
            == Some(if ConvictionAt(readings[k - 2], i) < ConvictionAt(readings[k - 1], i) then -1.0 else 1.0)
  {
    hide ConvictionAt, Strongest;
    var row, c := RowAt(positions, i), ConvictionRow(readings, i);
    var values := seq(|row|, j requires 0 <= j < |row| => if row[j].Some? then row[j].value else 0.0);
    if conj.Filter? {
      assert row == [Some(1.0), Some(1.0), Some(-1.0)] && values == [1.0, 1.0, -1.0];
      assert Signs(values)[1..] == [1, -1];
      TwoSides(c[1..]);
    } else {
      assert row == [Some(1.0), Some(-1.0)] && values == [1.0, -1.0];
      assert Signs(values) == [1, -1];
      TwoSides(c);
    }
  }

  lemma TwoSides(c: seq<real>)
    requires |c| == 2
    ensures [1, -1][Strongest([1, -1], c)] == if c[0] < c[1] then -1 else 1
    ensures CombineAnd([1, -1], Some(c)) == CombineOr([1, -1], Some(c)) == if c[0] < c[1] then -1 else 1
  {
    hide Strongest;
    assert [1, -1][0] == 1 && [1, -1][1] == -1;
    assert Strongest([1, -1], c) == if c[0] < c[1] then 1 else 0;
  }
}
