/**
 When a backtest is accepted at all (quant/strategy/performance.py:158-325).

 A run's numbers read no later bar, but whether there is a run does: a factor of another
 product is refused unless it covers four in five of all the traded product's dates.
 */
module Acceptance {
  import opened Outcomes
  import opened Columns
  import opened Indicators
  import opened Signals
  import opened FactorFrames
  import opened Performance
  import opened NoLookAhead

  /** The factors that an evaluation reads. */
  function Factors(config: Config): (subs: seq<SubStrategy>)
    ensures subs != []
  {
    if IsMulti(config) then GetSubstrategies(config) else [GetSubstrategies(config)[0]]
  }

  predicate HasOhlc(labels: set<Label>) {
    Named("High") in labels && Named("Low") in labels && Named("Close") in labels
  }

  /** The parameters and columns that one factor needs, from the labels alone. */
  predicate FactorFits(labels: map<string, set<Label>>, config: Config, params: Params, i: nat)
    requires i < |Factors(config)| && config.cusip in labels
  {
    var sub := Factors(config)[i];
    var main := labels[config.cusip];
    && i < |params.windows| && i < |params.signals|
    && SubCusip(config, sub) in labels
    && if IsMulti(config) then Named(sub.dataColumn) in labels[SubCusip(config, sub)] && !sub.indicator.Stochastic?
       else
         && (config.indicator.Stochastic? ==> HasOhlc(main))
         && (Named(sub.dataColumn) in labels[SubCusip(config, sub)]
             || (SubCusip(config, sub) == config.cusip && Named("factor") in main))
  }

  /** Everything a run needs but coverage: products, columns, parameters and a conjunction. */
  predicate WellFormed(labels: map<string, set<Label>>, config: Config, params: Params) {
    && config.cusip in labels && Named("price") in labels[config.cusip]
    && (IsMulti(config) ==> Named("factor") in labels[config.cusip] && ParseConjunction(config.conjunction).Some?)
    && forall i | 0 <= i < |Factors(config)| :: FactorFits(labels, config, params, i)
  }

  function LabelsOf(data: Data): map<string, set<Label>> {
    map cusip | cusip in data :: data[cusip].columns.Keys
  }

  /** Every factor of another product covers the traded product's dates. */
  predicate AllCovered(data: Data, config: Config)
    requires config.cusip in data
  {
    forall i | 0 <= i < |Factors(config)| :: FactorCovered(data, config, Factors(config)[i])
  }

  predicate FactorCovered(data: Data, config: Config, sub: SubStrategy)
    requires config.cusip in data
  {
    var cusip := SubCusip(config, sub);
    cusip == config.cusip || (cusip in data && Covered(data[config.cusip].index, data[cusip].index))
  }

  lemma MultiAccepted(data: Data, config: Config, params: Params, root: Root, i: nat)
    requires ValidData(data) && IsMulti(config) && config.cusip in data && i < |Factors(config)|
    ensures MultiOutput(data, config, params, root, i).Ok?
            <==> FactorFits(LabelsOf(data), config, params, i) && FactorCovered(data, config, Factors(config)[i])
  {
    hide Covered, Reindex, IndicatorColumn, PositionColumn;
    FactorLength(data, config, Factors(config)[i]);
  }

  lemma SingleAccepted(data: Data, config: Config, params: Params, root: Root)
    requires ValidData(data) && !IsMulti(config) && config.cusip in data
    ensures SingleOutput(data, config, params, root).Ok?
            <==> FactorFits(LabelsOf(data), config, params, 0) && FactorCovered(data, config, Factors(config)[0])
  {
    hide Covered, Reindex, IndicatorColumn, PositionColumn;
    FactorLength(data, config, Factors(config)[0]);
  }

  lemma PositionsAccepted(data: Data, config: Config, params: Params, root: Root)
    requires ValidData(data) && config.cusip in data && Named("price") in data[config.cusip].columns
    ensures PositionsFor(data, config, params, root).Ok?
            <==> WellFormed(LabelsOf(data), config, params) && AllCovered(data, config)
  {
    hide MultiOutput, SingleOutput, FactorFits, FactorCovered, CombinedAt;
    if IsMulti(config) {
      forall i | 0 <= i < |Factors(config)|
        ensures MultiOutput(data, config, params, root, i).Ok?
                <==> FactorFits(LabelsOf(data), config, params, i) && FactorCovered(data, config, Factors(config)[i])
      {
        MultiAccepted(data, config, params, root, i);
      }
    } else {
      SingleAccepted(data, config, params, root);
    }
  }

  /** A run is accepted exactly when its inputs fit, there is a bar, and every factor covers the dates. */
  lemma AcceptedExactly(data: Data, config: Config, params: Params, cost: real, root: Root)
    requires ValidData(data) && config.cusip in data
    ensures Evaluate(data, config, params, cost, root).Ok?
            <==> && WellFormed(LabelsOf(data), config, params) && data[config.cusip].index != []
                 && AllCovered(data, config)
  {
    hide PositionsFor, AllCovered, FactorFits, ChangeColumn, PnlColumn;
    if Named("price") in data[config.cusip].columns {
      PositionsAccepted(data, config, params, root);
    }
  }

  /**
   Two histories with the same columns and at least one bar are both accepted or both
   refused exactly when their factors' coverage has the same verdict, or the inputs fit
   neither.
   */
  lemma AcceptanceAgreesExactly(a: Data, b: Data, config: Config, params: Params, cost: real, root: Root)
    requires ValidData(a) && ValidData(b) && config.cusip in a && LabelsOf(a) == LabelsOf(b)
    requires config.cusip in b && a[config.cusip].index != [] && b[config.cusip].index != []
    ensures (Evaluate(a, config, params, cost, root).Ok? <==> Evaluate(b, config, params, cost, root).Ok?)
            <==> (WellFormed(LabelsOf(a), config, params) ==> (AllCovered(a, config) <==> AllCovered(b, config)))
  {
    hide Evaluate, WellFormed, AllCovered, LabelsOf;
    AcceptedExactly(a, config, params, cost, root);
    AcceptedExactly(b, config, params, cost, root);
  }

  /** Where every factor is the traded product's own, nothing later is read at all. */
  lemma OwnFactorsLookAtNothingLater(a: Data, b: Data, config: Config, params: Params, cost: real, root: Root, n: nat)
    requires HistoriesAgree(a, b, config, n) && n > 0 && LabelsOf(a) == LabelsOf(b)
    requires forall i | 0 <= i < |Factors(config)| :: SubCusip(config, Factors(config)[i]) == config.cusip
    ensures var ra, rb := Evaluate(a, config, params, cost, root), Evaluate(b, config, params, cost, root);
            && (ra.Ok? <==> rb.Ok?)
            && (ra.Ok? ==> EvaluationsAgree(ra.value, rb.value, n))
  {
    assert AllCovered(a, config) && AllCovered(b, config);
    hide Evaluate, WellFormed, AllCovered, LabelsOf, EvaluationsAgree;
    AcceptanceAgreesExactly(a, b, config, params, cost, root);
    if Evaluate(a, config, params, cost, root).Ok? {
      NoLookAhead.NoLookAhead(a, b, config, params, cost, root, n);
    }
  }

  function History(days: seq<int>): Product {
    Product(days, map[Named("price") := seq(|days|, _ => Some(1.0))])
  }

  /** One day of SPY, and these days of BTC. */
  function SpyAnd(days: seq<int>): Data {
    map["BTC" := History(days), "SPY" := History([0])]
  }

  /** Trades BTC on the price of SPY. */
  function OnSpy(f: SignalFunc): Config {
    Config("BTC", Sma, f, 365, "AND", [SubStrategy(Sma, f, "price", Some("SPY"))])
  }

  lemma DaysAgree(f: SignalFunc)
    ensures HistoriesAgree(SpyAnd([0]), SpyAnd([0, 1]), OnSpy(f), 1)
  {
    hide Lookup;
    var short, long := History([0]), History([0, 1]);
    assert short.index[..1] == long.index[..1];
    assert short.columns[Named("price")][..1] == long.columns[Named("price")][..1];
  }

  lemma LabelsOfDays(days: seq<int>)
    ensures LabelsOf(SpyAnd(days)) == map["BTC" := {Named("price")}, "SPY" := {Named("price")}]
  {
    assert forall d: seq<int> :: History(d).columns.Keys == {Named("price")};
  }

  lemma CoverageOfOneInTwo()
    ensures Covered([0], [0]) && !Covered([0, 1], [0])
  {
    assert MissingDates([0], [0]) == {};
    assert MissingDates([0, 1], [0]) == {1} && (set t | t in [0, 1]) == {0, 1};
  }

  /**
   One more bar of the traded product, for which the factor's product has none, and the
   run that was accepted is refused: the first day's acceptance promised nothing.
   */
  lemma LaterBarRefusesTheRun(f: SignalFunc, params: Params, cost: real, root: Root)
    requires params.windows != [] && params.signals != []
    ensures HistoriesAgree(SpyAnd([0]), SpyAnd([0, 1]), OnSpy(f), 1)
    ensures LabelsOf(SpyAnd([0])) == LabelsOf(SpyAnd([0, 1]))
    ensures Evaluate(SpyAnd([0]), OnSpy(f), params, cost, root).Ok?
    ensures Evaluate(SpyAnd([0, 1]), OnSpy(f), params, cost, root).Err?
  {
    DaysAgree(f);
    LabelsOfDays([0]);
    LabelsOfDays([0, 1]);
    CoverageOfOneInTwo();
    hide Covered, HistoriesAgree, Evaluate, LabelsOf;
    assert FactorFits(LabelsOf(SpyAnd([0])), OnSpy(f), params, 0);
    assert !FactorCovered(SpyAnd([0, 1]), OnSpy(f), Factors(OnSpy(f))[0]);
    AcceptedExactly(SpyAnd([0]), OnSpy(f), params, cost, root);
    AcceptedExactly(SpyAnd([0, 1]), OnSpy(f), params, cost, root);
  }
}
