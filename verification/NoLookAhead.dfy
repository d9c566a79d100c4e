/**
 A backtest's numbers at a bar depend only on the bars up to it.

 Two histories that agree through bar `n - 1` give the same factor, indicator, position,
 return, equity and drawdown there, whatever comes later in either, for one factor or
 many, every conjunction, and conflicts settled by strength.
 */
module NoLookAhead {
  import opened Outcomes
  import opened Columns
  import opened Indicators
  import opened Signals
  import opened FactorFrames
  import opened Performance

  ghost predicate SameLabels(a: Product, b: Product) {
    forall name :: name in a.columns <==> name in b.columns
  }

  /** The traded product's first `n` bars are the same. */
  ghost predicate MainAgrees(a: Product, b: Product, n: nat) {
    && n <= |a.index| && n <= |b.index| && a.index[..n] == b.index[..n]
    && SameLabels(a, b)
    && forall name | name in a.columns :: name in b.columns && Agree(a.columns[name], b.columns[name], n)
  }

  /** Another product has the same cells on the traded product's first `n` dates. */
  ghost predicate OtherAgrees(a: Product, b: Product, dates: seq<int>)
    requires a.Valid() && b.Valid()
  {
    forall name, t | name in a.columns && name in b.columns && t in dates ::
      Lookup(a.index, a.columns[name], t) == Lookup(b.index, b.columns[name], t)
  }

  ghost predicate HistoriesAgree(a: Data, b: Data, config: Config, n: nat) {
    && ValidData(a) && ValidData(b)
    && config.cusip in a && config.cusip in b
    && MainAgrees(a[config.cusip], b[config.cusip], n)
    && forall cusip | cusip in a && cusip in b && cusip != config.cusip ::
         OtherAgrees(a[cusip], b[cusip], a[config.cusip].index[..n])
  }

  lemma OtherCell(a: Product, b: Product, dates: seq<int>, name: Label, t: int)
    requires a.Valid() && b.Valid() && OtherAgrees(a, b, dates)
    requires name in a.columns && name in b.columns && t in dates
    ensures Lookup(a.index, a.columns[name], t) == Lookup(b.index, b.columns[name], t)
  {
  }

  lemma FactorCausal(a: Data, b: Data, config: Config, sub: SubStrategy, n: nat)
    requires HistoriesAgree(a, b, config, n)
    requires FactorColumn(a, config, sub).Ok? && FactorColumn(b, config, sub).Ok?
    ensures Agree(FactorColumn(a, config, sub).value, FactorColumn(b, config, sub).value, n)
  {
    hide Covered, Lookup;
    var cusip, name := SubCusip(config, sub), Named(sub.dataColumn);
    var fa, fb := FactorColumn(a, config, sub).value, FactorColumn(b, config, sub).value;
    if cusip == config.cusip {
      ReindexOwn(a[cusip].index, a[cusip].columns[name]);
      ReindexOwn(b[cusip].index, b[cusip].columns[name]);
    } else {
      forall i | 0 <= i < n
        ensures fa[i] == fb[i]
      {
        var t := a[config.cusip].index[i];
        assert a[config.cusip].index[..n][i] == t && b[config.cusip].index[..n][i] == b[config.cusip].index[i];
        assert t in a[config.cusip].index[..n];
        OtherCell(a[cusip], b[cusip], a[config.cusip].index[..n], name, t);
      }
      AgreeFrom(fa, fb, n);
    }
  }

  lemma SingleFactorCausal(a: Data, b: Data, config: Config, n: nat)
    requires HistoriesAgree(a, b, config, n)
    requires SingleFactor(a, config).Ok? && SingleFactor(b, config).Ok?
    ensures Agree(SingleFactor(a, config).value, SingleFactor(b, config).value, n)
  {
    hide FactorColumn;
    var sub := GetSubstrategies(config)[0];
    if Replaces(a, config, sub) {
      FactorCausal(a, b, config, sub, n);
    }
  }

  ghost predicate OutputsAgree(a: Output, b: Output, n: nat) {
    Agree(a.factor, b.factor, n) && Agree(a.indicator, b.indicator, n) && Agree(a.position, b.position, n)
  }

  lemma OutputCausal(a: Frame, b: Frame, ind: Indicator, f: SignalFunc, w: Window, signal: real, root: Root, n: nat)
    requires FramesAgree(a, b, n)
    requires OutputOn(a, ind, f, w, signal, root).Ok? && OutputOn(b, ind, f, w, signal, root).Ok?
    ensures OutputsAgree(OutputOn(a, ind, f, w, signal, root).value, OutputOn(b, ind, f, w, signal, root).value, n)
  {
    hide IndicatorColumn, PositionColumn;
    IndicatorCausal(a, b, ind, w, root, n);
    PositionCausal(f, IndicatorColumn(a, ind, w, root), IndicatorColumn(b, ind, w, root), signal, n);
  }

  lemma SingleCausal(a: Data, b: Data, config: Config, params: Params, root: Root, n: nat)
    requires HistoriesAgree(a, b, config, n)
    requires SingleOutput(a, config, params, root).Ok? && SingleOutput(b, config, params, root).Ok?
    ensures OutputsAgree(SingleOutput(a, config, params, root).value, SingleOutput(b, config, params, root).value, n)
  {
    hide OutputOn, SingleFactor;
    SingleFactorCausal(a, b, config, n);
    FactorLength(a, config, GetSubstrategies(config)[0]);
    FactorLength(b, config, GetSubstrategies(config)[0]);
    OutputCausal(Frame(SingleFactor(a, config).value, OhlcOf(a[config.cusip])),
                 Frame(SingleFactor(b, config).value, OhlcOf(b[config.cusip])),
                 config.indicator, config.signalFunc, params.windows[0], params.signals[0], root, n);
  }

  lemma MultiCausal(a: Data, b: Data, config: Config, params: Params, root: Root, n: nat, i: nat)
    requires HistoriesAgree(a, b, config, n) && i < |GetSubstrategies(config)|
    requires MultiOutput(a, config, params, root, i).Ok? && MultiOutput(b, config, params, root, i).Ok?
    ensures OutputsAgree(MultiOutput(a, config, params, root, i).value, MultiOutput(b, config, params, root, i).value, n)
  {
    hide OutputOn, FactorColumn;
    var sub := GetSubstrategies(config)[i];
    FactorCausal(a, b, config, sub, n);
    OutputCausal(Frame(FactorColumn(a, config, sub).value, None), Frame(FactorColumn(b, config, sub).value, None),
                 sub.indicator, sub.signalFunc, params.windows[i], params.signals[i], root, n);
  }

  lemma CombinedCausal(a: seq<Output>, b: seq<Output>, conjunction: string, la: nat, lb: nat, n: nat)
    requires a != [] && |a| == |b| && forall i | 0 <= i < |a| :: OutputsAgree(a[i], b[i], n)
    requires forall i | 0 <= i < |a| :: |a[i].position| == |a[i].indicator| == la
    requires forall i | 0 <= i < |b| :: |b[i].position| == |b[i].indicator| == lb
    requires Combined(a, conjunction, la).Ok? && Combined(b, conjunction, lb).Ok?
    ensures Agree(Combined(a, conjunction, la).value, Combined(b, conjunction, lb).value, n)
  {
    hide CombinePositions, Agree;
    CombineCausal(PositionsOf(a), PositionsOf(b), conjunction, Some(StrengthsOf(a)), Some(StrengthsOf(b)), la, lb, n);
  }

  ghost predicate PositionsAgree(a: Positions, b: Positions, n: nat) {
    && Agree(a.position, b.position, n)
    && |a.outputs| == |b.outputs|
    && forall i | 0 <= i < |a.outputs| :: OutputsAgree(a.outputs[i], b.outputs[i], n)
  }

  lemma PositionsCausal(a: Data, b: Data, config: Config, params: Params, root: Root, n: nat)
    requires HistoriesAgree(a, b, config, n)
    requires PositionsFor(a, config, params, root).Ok? && PositionsFor(b, config, params, root).Ok?
    ensures PositionsAgree(PositionsFor(a, config, params, root).value, PositionsFor(b, config, params, root).value, n)
  {
    hide SingleOutput, MultiOutput, MultiOutputs, Combined, Agree;
    if IsMulti(config) {
      var pa, pb := PositionsFor(a, config, params, root).value, PositionsFor(b, config, params, root).value;
      forall i | 0 <= i < |pa.outputs|
        ensures OutputsAgree(pa.outputs[i], pb.outputs[i], n)
      {
        MultiCausal(a, b, config, params, root, n, i);
      }
      CombinedCausal(pa.outputs, pb.outputs, config.conjunction,
                     |a[config.cusip].index|, |b[config.cusip].index|, n);
    } else {
      SingleCausal(a, b, config, params, root, n);
    }
  }

  lemma ChangeCausal(a: Column, b: Column, n: nat)
    requires Agree(a, b, n)
    ensures Agree(ChangeColumn(a), ChangeColumn(b), n)
  {
    forall i | 0 <= i < n
      ensures ChangeAt(a, i) == ChangeAt(b, i)
    {
      AgreeAt(a, b, n, i);
      if i > 0 {
        AgreeAt(a, b, n, i - 1);
      }
    }
    AgreeFrom(ChangeColumn(a), ChangeColumn(b), n);
  }

  lemma PnlReads(pa: Column, ca: Column, pb: Column, cb: Column, cost: real, i: nat)
    requires i < |pa| == |ca| && i < |pb| == |cb|
    requires pa[i] == pb[i] && ca[i] == cb[i] && PriorAt(pa, i) == PriorAt(pb, i)
    ensures PnlAt(pa, ca, cost, i) == PnlAt(pb, cb, cost, i)
  {
    hide Net;
  }

  lemma ReturnsCausal(pa: Column, ca: Column, pb: Column, cb: Column, cost: real, n: nat)
    requires |pa| == |ca| && |pb| == |cb| && Agree(pa, pb, n) && Agree(ca, cb, n)
    ensures Agree(PnlColumn(pa, ca, cost), PnlColumn(pb, cb, cost), n)
    ensures Agree(BuyHoldColumn(pa, ca), BuyHoldColumn(pb, cb), n)
  {
    hide Agree;
    AgreeLengths(pa, pb, n);
    forall i | 0 <= i < n
      ensures i < |pa| && i < |pb| && PnlAt(pa, ca, cost, i) == PnlAt(pb, cb, cost, i)
      ensures PriorAt(pa, i) == PriorAt(pb, i) && ca[i] == cb[i]
    {
      AgreeAt(pa, pb, n, i);
      AgreeAt(ca, cb, n, i);
      if i > 0 {
        AgreeAt(pa, pb, n, i - 1);
      }
      PnlReads(pa, ca, pb, cb, cost, i);
    }
    AgreeFrom(PnlColumn(pa, ca, cost), PnlColumn(pb, cb, cost), n);
    AgreeFrom(BuyHoldColumn(pa, ca), BuyHoldColumn(pb, cb), n);
  }

  lemma AgreeLengths(a: Column, b: Column, n: nat)
    requires Agree(a, b, n)
    ensures n <= |a| && n <= |b|
  {
  }

  lemma {:induction false} CurveCausal(a: Column, b: Column, n: nat, k: nat)
    requires Agree(a, b, n) && k <= n
    ensures CurveAfter(a, k) == CurveAfter(b, k)
  {
    if k > 0 {
      AgreeAt(a, b, n, k - 1);
      CurveCausal(a, b, n, k - 1);
    }
  }

  lemma EquityCausal(a: Column, b: Column, n: nat)
    requires Agree(a, b, n)
    ensures Agree(CumulativeColumn(a), CumulativeColumn(b), n)
    ensures Agree(DrawdownColumn(a), DrawdownColumn(b), n)
  {
    forall i | 0 <= i < n
      ensures a[i] == b[i] && CurveAfter(a, i + 1) == CurveAfter(b, i + 1)
    {
      AgreeAt(a, b, n, i);
      CurveCausal(a, b, n, i + 1);
    }
    AgreeFrom(CumulativeColumn(a), CumulativeColumn(b), n);
    AgreeFrom(DrawdownColumn(a), DrawdownColumn(b), n);
  }

  ghost predicate EvaluationsAgree(a: Evaluation, b: Evaluation, n: nat)
    requires |a.chg| == |a.position| && |b.chg| == |b.position|
  {
    var holdA, holdB := BuyHoldColumn(a.position, a.chg), BuyHoldColumn(b.position, b.chg);
    && PositionsAgree(Positions(a.outputs, a.position), Positions(b.outputs, b.position), n)
    && Agree(a.chg, b.chg, n)
    && Agree(a.pnl, b.pnl, n)
    && Agree(CumulativeColumn(a.pnl), CumulativeColumn(b.pnl), n)
    && Agree(DrawdownColumn(a.pnl), DrawdownColumn(b.pnl), n)
    && Agree(CumulativeColumn(holdA), CumulativeColumn(holdB), n)
    && Agree(DrawdownColumn(holdA), DrawdownColumn(holdB), n)
  }

  /**
   No look-ahead, end to end, for two runs that are accepted. Whether a run is accepted
   does read the whole history; `Acceptance` says exactly when two histories agree on that.
   */
  lemma NoLookAhead(a: Data, b: Data, config: Config, params: Params, cost: real, root: Root, n: nat)
    requires HistoriesAgree(a, b, config, n)
    requires Evaluate(a, config, params, cost, root).Ok? && Evaluate(b, config, params, cost, root).Ok?
    ensures EvaluationsAgree(Evaluate(a, config, params, cost, root).value,
                             Evaluate(b, config, params, cost, root).value, n)
  {
    hide PositionsFor, Agree, PnlColumn, BuyHoldColumn, ChangeColumn, CumulativeColumn, DrawdownColumn;
    var ea, eb := Evaluate(a, config, params, cost, root).value, Evaluate(b, config, params, cost, root).value;
    PositionsCausal(a, b, config, params, root, n);
    ChangeCausal(a[config.cusip].columns[Named("price")], b[config.cusip].columns[Named("price")], n);
    ReturnsCausal(ea.position, ea.chg, eb.position, eb.chg, cost, n);
    EquityCausal(ea.pnl, eb.pnl, n);
    EquityCausal(BuyHoldColumn(ea.position, ea.chg), BuyHoldColumn(eb.position, eb.chg), n);
  }
}
