/**
 What the engine's columns and its Sharpe ratio are (quant/strategy/performance.py), without
 the functions that compute them.
 */
module EngineMeaning {
  import opened Outcomes
  import opened Columns
  import opened Indicators
  import opened Signals
  import opened FactorFrames
  import opened Performance
  import opened Statistics
  import opened Readings

  // ── factors ────────────────────────────────────────────────────────────

  /** The cell dated `t` in the product's column, and none where it has no bar of that date. */
  ghost predicate CellOfDate(product: Product, name: string, t: int, cell: Cell)
    requires product.Valid() && Named(name) in product.columns
  {
    && (t !in product.index ==> cell.None?)
    && forall j | 0 <= j < |product.index| && product.index[j] == t :: cell == product.columns[Named(name)][j]
  }

  /** The column is the product's column of that name, aligned by date to the bars. */
  ghost predicate AlignedTo(main: Product, product: Product, name: string, col: Column)
    requires main.Valid() && product.Valid()
  {
    && Named(name) in product.columns && |col| == |main.index|
    && forall i | 0 <= i < |col| :: CellOfDate(product, name, main.index[i], col[i])
  }

  /** The product that a substrategy names, if it names one, and the traded one otherwise. */
  ghost predicate ReadsFrom(data: Data, config: Config, sub: SubStrategy, cusip: string) {
    && cusip in data
    && (sub.cusip.None? || sub.cusip.value == "" ==> cusip == config.cusip)
    && (sub.cusip.Some? && sub.cusip.value != "" ==> cusip == sub.cusip.value)
  }

  /** A factor is the column its substrategy names, of the product it names, by date. */
  ghost predicate IsFactor(data: Data, config: Config, sub: SubStrategy, col: Column)
    requires ValidData(data) && config.cusip in data
  {
    exists cusip :: ReadsFrom(data, config, sub, cusip) && AlignedTo(data[config.cusip], data[cusip], sub.dataColumn, col)
  }

  lemma FactorMeans(data: Data, config: Config, sub: SubStrategy)
    requires ValidData(data) && FactorColumn(data, config, sub).Ok?
    ensures config.cusip in data && IsFactor(data, config, sub, FactorColumn(data, config, sub).value)
  {
    var cusip := SubCusip(config, sub);
    var main, product, col := data[config.cusip], data[cusip], FactorColumn(data, config, sub).value;
    assert product.Valid() && main.Valid();
    hide Covered, Lookup;
    forall i | 0 <= i < |col|
      ensures CellOfDate(product, sub.dataColumn, main.index[i], col[i])
    {
      LookupByDate(product.index, product.columns[Named(sub.dataColumn)], main.index[i]);
    }
    assert ReadsFrom(data, config, sub, cusip) && AlignedTo(main, product, sub.dataColumn, col);
  }

  /** The single factor: the column named, or, where the traded product has none of that name, its "factor". */
  lemma SingleFactorMeans(data: Data, config: Config)
    requires ValidData(data) && SingleFactor(data, config).Ok?
    ensures config.cusip in data
    ensures var main, col := data[config.cusip], SingleFactor(data, config).value;
            if config.substrategies == [] then Named("factor") in main.columns && col == main.columns[Named("factor")]
            else
              var sub := config.substrategies[0];
              || IsFactor(data, config, sub, col)
              || (ReadsFrom(data, config, sub, config.cusip) && Named(sub.dataColumn) !in main.columns
                  && Named("factor") in main.columns && col == main.columns[Named("factor")])
  {
    var sub := GetSubstrategies(config)[0];
    hide FactorColumn, IsFactor;
    if Replaces(data, config, sub) {
      FactorMeans(data, config, sub);
      if config.substrategies == [] {
        OwnFactorIs(data, config, sub);
      }
    }
  }

  lemma OwnFactorIs(data: Data, config: Config, sub: SubStrategy)
    requires ValidData(data) && sub.cusip.None? && FactorColumn(data, config, sub).Ok?
    ensures config.cusip in data && Named(sub.dataColumn) in data[config.cusip].columns
    ensures FactorColumn(data, config, sub).value == data[config.cusip].columns[Named(sub.dataColumn)]
  {
    ReindexOwn(data[config.cusip].index, data[config.cusip].columns[Named(sub.dataColumn)]);
  }

  // ── positions ──────────────────────────────────────────────────────────

  /** The side a reading takes. */
  ghost predicate TakesSide(f: SignalFunc, signal: real, x: real, p: real) {
    var over, under := x > signal, x < if f.bounded then 100.0 - signal else 0.0 - signal;
    var long, short := if f.direction.Momentum? then over else under, if f.direction.Momentum? then under else over;
    && (long <==> p == 1.0)
    && (!long && short && !f.longOnly <==> p == -1.0)
    && (p == 1.0 || p == -1.0 || p == 0.0)
  }

  ghost predicate IsPositions(f: SignalFunc, signal: real, readings: Column, positions: Column) {
    && |positions| == |readings|
    && forall i | 0 <= i < |positions| ::
         && (positions[i].Some? <==> readings[i].Some?)
         && (positions[i].Some? ==> TakesSide(f, signal, readings[i].value, positions[i].value))
  }

  lemma PositionsMean(f: SignalFunc, signal: real, readings: Column)
    ensures IsPositions(f, signal, readings, PositionColumn(f, readings, signal))
  {
  }

  // ── a whole evaluation ─────────────────────────────────────────────────

  /** One factor's columns, on the factor alone or with the bars' prices. */
  ghost predicate IsOutput(factor: Column, ohlc: Option<Ohlc>, ind: Indicator, f: SignalFunc, w: Window, signal: real, o: Output) {
    && Frame(factor, ohlc).Valid() && Readable(Frame(factor, ohlc), ind)
    && o.factor == factor && |o.indicator| == |factor|
    && IsReadings(Frame(factor, ohlc), ind, w, o.indicator)
    && IsPositions(f, signal, o.indicator, o.position)
  }

  lemma OutputMeans(frame: Frame, ind: Indicator, f: SignalFunc, w: Window, signal: real, root: Root)
    requires frame.Valid() && IsRoot(root) && OutputOn(frame, ind, f, w, signal, root).Ok?
    ensures IsOutput(frame.factor, frame.ohlc, ind, f, w, signal, OutputOn(frame, ind, f, w, signal, root).value)
  {
    ReadingsMean(frame, ind, w, root);
    PositionsMean(f, signal, IndicatorColumn(frame, ind, w, root));
    hide IndicatorColumn, PositionColumn, IsReadings, IsPositions, IsRoot;
    assert Frame(frame.factor, frame.ohlc) == frame;
  }

  /** The bars' prices are the columns of those names. */
  ghost predicate IsPrices(main: Product, ohlc: Option<Ohlc>) {
    if Named("High") in main.columns && Named("Low") in main.columns && Named("Close") in main.columns
    then ohlc == Some(Ohlc(main.columns[Named("High")], main.columns[Named("Low")], main.columns[Named("Close")]))
    else ohlc.None?
  }

  /** A single factor's columns, from the data. */
  lemma SingleOutputMeans(data: Data, config: Config, params: Params, root: Root) returns (ohlc: Option<Ohlc>)
    requires ValidData(data) && IsRoot(root) && SingleOutput(data, config, params, root).Ok?
    ensures config.cusip in data && SingleFactor(data, config).Ok? && IsPrices(data[config.cusip], ohlc)
    ensures params.windows != [] && params.signals != []
    ensures IsOutput(SingleFactor(data, config).value, ohlc, config.indicator, config.signalFunc, params.windows[0],
                     params.signals[0], SingleOutput(data, config, params, root).value)
  {
    FactorLength(data, config, GetSubstrategies(config)[0]);
    ohlc := OhlcOf(data[config.cusip]);
    hide OutputOn, SingleFactor, IsOutput, IsRoot;
    OutputMeans(Frame(SingleFactor(data, config).value, ohlc), config.indicator, config.signalFunc, params.windows[0],
                params.signals[0], root);
  }

  /** Factor `i` of several, from the data. */
  lemma MultiOutputMeans(data: Data, config: Config, params: Params, root: Root, i: nat)
    requires ValidData(data) && IsRoot(root) && i < |GetSubstrategies(config)| && MultiOutput(data, config, params, root, i).Ok?
    ensures i < |params.windows| && i < |params.signals| && config.cusip in data
    ensures var sub, o := GetSubstrategies(config)[i], MultiOutput(data, config, params, root, i).value;
            && IsFactor(data, config, sub, o.factor)
            && IsOutput(o.factor, None, sub.indicator, sub.signalFunc, params.windows[i], params.signals[i], o)
  {
    var sub := GetSubstrategies(config)[i];
    FactorLength(data, config, sub);
    FactorMeans(data, config, sub);
    hide OutputOn, FactorColumn, IsOutput, IsFactor, IsRoot;
    var frame := Frame(FactorColumn(data, config, sub).value, None);
    OutputMeans(frame, sub.indicator, sub.signalFunc, params.windows[i], params.signals[i], root);
    OutputFactor(frame, sub.indicator, sub.signalFunc, params.windows[i], params.signals[i], root);
  }

  lemma OutputFactor(frame: Frame, ind: Indicator, f: SignalFunc, w: Window, signal: real, root: Root)
    requires frame.Valid() && OutputOn(frame, ind, f, w, signal, root).Ok?
    ensures OutputOn(frame, ind, f, w, signal, root).value.factor == frame.factor
  {
  }

  // ── several factors combined ───────────────────────────────────────────

  /** The text is the upper-case word, with any of its letters in lower case. */
  ghost predicate Spells(s: string, word: string) {
    |s| == |word| && forall i | 0 <= i < |s| :: s[i] == word[i] || s[i] as int == word[i] as int + 32
  }

  ghost predicate Names(s: string, conj: Conjunction) {
    Spells(s, match conj case And => "AND" case Or => "OR" case Filter => "FILTER")
  }

  lemma {:induction false} UpperSpells(s: string, word: string)
    requires forall i | 0 <= i < |word| :: 'A' <= word[i] <= 'Z'
    ensures Upper(s) == word <==> Spells(s, word)
  {
    if s != "" && word != "" {
      UpperSpells(s[1..], word[1..]);
      assert Upper(s) == word <==> Upper(s)[0] == word[0] && Upper(s)[1..] == word[1..];
      hide Upper;
      assert forall i | 1 <= i < |s| :: s[i] == s[1..][i - 1];
      assert forall i | 1 <= i < |word| :: word[i] == word[1..][i - 1];
    }
  }

  lemma ConjunctionMeans(s: string, conj: Conjunction)
    ensures ParseConjunction(s) == Some(conj) <==> Names(s, conj)
  {
    UpperSpells(s, "AND");
    UpperSpells(s, "OR");
    UpperSpells(s, "FILTER");
    hide Upper, Spells;
  }

  /** A bar takes a position. */
  ghost predicate Trades(row: seq<real>, conj: Conjunction)
    requires |row| >= 2
  {
    match conj
    case And => 0.0 !in row
    case Or => exists k :: 0 <= k < |row| && row[k] != 0.0
    case Filter => 0.0 !in row
  }

  /** Factor `k` is the first of those from `from` on that are surest of a side. */
  ghost predicate Surest(row: seq<real>, sure: seq<real>, from: int, k: int)
    requires |row| == |sure| && from >= 0
  {
    && from <= k < |row| && row[k] != 0.0
    && forall j | from <= j < |row| && row[j] != 0.0 :: sure[j] < sure[k] || (sure[j] == sure[k] && k <= j)
  }

  /** The side of the surest factor, a FILTER's gate apart, where the bar trades at all. */
  ghost predicate IsCombination(row: seq<real>, sure: seq<real>, conj: Conjunction, r: real)
    requires |row| == |sure| >= 2
  {
    && (!Trades(row, conj) ==> r == 0.0)
    && (Trades(row, conj) ==> exists k :: Surest(row, sure, if conj.Filter? then 1 else 0, k) && r == row[k])
  }

  lemma CombinationMeans(row: seq<real>, sure: seq<real>, conj: Conjunction)
    requires |row| == |sure| >= 2 && forall i | 0 <= i < |row| :: IsPosition(row[i])
    ensures IsCombination(row, sure, conj, CombineRow(row, conj, Some(sure)))
  {
    hide IsCombination, CombineRow;
    var from := if conj.Filter? then 1 else 0;
    FlatSigns(row, from);
    CombinedPosition(row, conj, Some(sure));
    if Trades(row, conj) {
      var k := SideOfSurest(row, sure, conj, from);
      Combines(row, sure, conj, CombineRow(row, conj, Some(sure)), k);
    } else {
      Flat(row, sure, conj);
    }
  }

  lemma FlatSigns(row: seq<real>, from: nat)
    requires from <= |row|
    ensures forall i | from <= i < |row| :: row[i] != 0.0 <==> Signs(row)[from..][i - from] != 0
    ensures 0 in Signs(row)[from..] <==> 0.0 in row[from..]
  {
    var signs := Signs(row)[from..];
    forall i | from <= i < |row|
      ensures row[i] != 0.0 <==> signs[i - from] != 0
    {
      assert signs[i - from] == Sign(row[i]);
    }
    if 0 in signs {
      var i :| 0 <= i < |signs| && signs[i] == 0;
      assert row[from..][i] == row[i + from] == 0.0;
    }
    if 0.0 in row[from..] {
      var i :| 0 <= i < |row[from..]| && row[from..][i] == 0.0;
      assert signs[i] == Sign(row[i + from]) == 0;
    }
  }

  lemma Flat(row: seq<real>, sure: seq<real>, conj: Conjunction)
    requires |row| == |sure| >= 2 && !Trades(row, conj) && forall i | 0 <= i < |row| :: IsPosition(row[i])
    ensures IsCombination(row, sure, conj, CombineRow(row, conj, Some(sure)))
  {
  }

  lemma Combines(row: seq<real>, sure: seq<real>, conj: Conjunction, r: real, k: nat)
    requires |row| == |sure| >= 2 && Surest(row, sure, if conj.Filter? then 1 else 0, k) && r == row[k] && Trades(row, conj)
    ensures IsCombination(row, sure, conj, r)
  {
    hide Trades, Surest;
  }

  lemma SideOfSurest(row: seq<real>, sure: seq<real>, conj: Conjunction, from: nat) returns (k: nat)
    requires |row| == |sure| >= 2 && Trades(row, conj) && forall i | 0 <= i < |row| :: IsPosition(row[i])
    requires from == if conj.Filter? then 1 else 0
    ensures Surest(row, sure, from, k) && CombineRow(row, conj, Some(sure)) == row[k]
  {
    hide *;
    DecidingSigns(row, conj, from);
    if conj.Or? {
      OrIsStrongest(Signs(row)[from..], sure[from..]);
    } else {
      AndIsStrongest(Signs(row)[from..], sure[from..]);
    }
    k := Strongest(Signs(row)[from..], sure[from..]) + from;
    StrongestIsSurest(row, sure, from, k);
    RowOfSigns(row, sure, conj, from, k);
  }

  lemma DecidingSigns(row: seq<real>, conj: Conjunction, from: nat)
    requires |row| >= 2 && Trades(row, conj) && forall i | 0 <= i < |row| :: IsPosition(row[i])
    requires from == if conj.Filter? then 1 else 0
    ensures var signs := Signs(row)[from..];
            && (forall i | 0 <= i < |signs| :: -1 <= signs[i] <= 1)
            && (!conj.Or? ==> forall i | 0 <= i < |signs| :: signs[i] == 1 || signs[i] == -1)
            && (exists i :: 0 <= i < |signs| && signs[i] != 0)
    ensures exists i :: from <= i < |row| && row[i] != 0.0
  {
    var all := Signs(row);
    hide Signs;
    var signs := all[from..];
    forall i | 0 <= i < |signs|
      ensures -1 <= signs[i] <= 1 && (!conj.Or? ==> signs[i] != 0)
    {
      assert signs[i] == all[from + i] == Sign(row[from + i]) && row[from + i] in row;
    }
    var k := if conj.Or? then var k :| 0 <= k < |row| && row[k] != 0.0; k else from;
    assert row[k] in row && signs[k - from] == Sign(row[k]);
  }

  lemma RowOfSigns(row: seq<real>, sure: seq<real>, conj: Conjunction, from: nat, k: nat)
    requires |row| == |sure| >= 2 && Trades(row, conj) && forall i | 0 <= i < |row| :: IsPosition(row[i])
    requires from == (if conj.Filter? then 1 else 0) && from <= k < |row|
    requires var signs := Signs(row)[from..];
             (if conj.Or? then CombineOr(signs, Some(sure[from..])) else CombineAnd(signs, Some(sure[from..]))) == signs[k - from]
    ensures CombineRow(row, conj, Some(sure)) == row[k]
  {
    hide CombineOr, CombineAnd;
    assert Signs(row)[from..][k - from] == Sign(row[k]);
    assert row[k] == Sign(row[k]) as real;
    if conj.Filter? {
      assert row[0] in row;
    } else {
      assert Signs(row)[0..] == Signs(row) && sure[0..] == sure;
    }
  }

  lemma StrongestIsSurest(row: seq<real>, sure: seq<real>, from: nat, k: nat)
    requires |row| == |sure| && from < |row| && exists i :: from <= i < |row| && row[i] != 0.0
    requires k == Strongest(Signs(row)[from..], sure[from..]) + from
    ensures Surest(row, sure, from, k)
  {
    var signs, weights := Signs(row)[from..], sure[from..];
    FlatSigns(row, from);
    hide Strongest, Signs, Sign;
    var i :| from <= i < |row| && row[i] != 0.0;
    assert signs[i - from] != 0;
    var winner := Strongest(signs, weights);
    assert signs[winner] != 0;
    forall j | from <= j < |row| && row[j] != 0.0
      ensures sure[j] < sure[k] || (sure[j] == sure[k] && k <= j)
    {
      assert signs[j - from] != 0 && weights[j - from] == sure[j] && weights[winner] == sure[k];
    }
  }

  lemma AndIsStrongest(signs: seq<int>, weights: seq<real>)
    requires |signs| == |weights| > 0 && forall i | 0 <= i < |signs| :: signs[i] == 1 || signs[i] == -1
    ensures CombineAnd(signs, Some(weights)) == signs[Strongest(signs, weights)]
  {
    assert signs[0] != 0;
    hide Strongest;
  }

  lemma OrIsStrongest(signs: seq<int>, weights: seq<real>)
    requires |signs| == |weights| && forall i | 0 <= i < |signs| :: -1 <= signs[i] <= 1
    requires exists i :: 0 <= i < |signs| && signs[i] != 0
    ensures CombineOr(signs, Some(weights)) == signs[Strongest(signs, weights)]
  {
    hide Strongest;
  }

  ghost predicate LongEnough(outputs: seq<Output>, i: nat) {
    forall k | 0 <= k < |outputs| :: i < |outputs[k].position| && i < |outputs[k].indicator|
  }

  ghost predicate AllHold(outputs: seq<Output>, i: nat)
    requires LongEnough(outputs, i)
  {
    forall k | 0 <= k < |outputs| :: outputs[k].position[i].Some?
  }

  /** What each factor holds at a bar, and how sure it is. */
  ghost function HeldAt(outputs: seq<Output>, i: nat): (row: seq<real>)
    requires LongEnough(outputs, i) && AllHold(outputs, i)
    ensures |row| == |outputs| && forall k | 0 <= k < |row| :: row[k] == outputs[k].position[i].value
  {
    seq(|outputs|, k requires 0 <= k < |outputs| => outputs[k].position[i].value)
  }

  ghost function SureAt(outputs: seq<Output>, i: nat): (sure: seq<real>)
    requires LongEnough(outputs, i)
    ensures |sure| == |outputs| && forall k | 0 <= k < |sure| :: sure[k] == ConvictionAt(outputs[k].indicator, i)
  {
    seq(|outputs|, k requires 0 <= k < |outputs| => ConvictionAt(outputs[k].indicator, i))
  }

  /** A bar's combined position is the factors' combination, where every factor has a position. */
  ghost predicate IsCombined(outputs: seq<Output>, conjunction: string, i: nat, cell: Cell)
    requires |outputs| >= 2 && LongEnough(outputs, i)
  {
    && (cell.Some? <==> AllHold(outputs, i))
    && (cell.Some? ==>
          exists conj :: Names(conjunction, conj) && IsCombination(HeldAt(outputs, i), SureAt(outputs, i), conj, cell.value))
  }

  /** Several factors' positions, combined bar by bar. */
  lemma MultiPositionsMean(data: Data, config: Config, params: Params, root: Root, i: nat)
    requires ValidData(data) && IsMulti(config) && MultiPositions(data, config, params, root).Ok?
    requires i < |MultiPositions(data, config, params, root).value.position|
    ensures var p := MultiPositions(data, config, params, root).value;
            && |p.outputs| == |config.substrategies|
            && (forall k | 0 <= k < |p.outputs| ::
                  MultiOutput(data, config, params, root, k).Ok? && p.outputs[k] == MultiOutput(data, config, params, root, k).value)
            && LongEnough(p.outputs, i) && IsCombined(p.outputs, config.conjunction, i, p.position[i])
  {
    var p := MultiPositions(data, config, params, root).value;
    forall k | 0 <= k < |p.outputs|
      ensures HoldsSides(p.outputs[k].position)
    {
      SidesOf(data, config, params, root, k);
    }
    hide MultiOutput, CombinedAt, ParseConjunction, IsCombined;
    var conj := ParseConjunction(config.conjunction).value;
    ConjunctionMeans(config.conjunction, conj);
    assert p.position[i] == CombinedAt(PositionsOf(p.outputs), conj, Some(StrengthsOf(p.outputs)), i);
    CombinedMeans(p.outputs, config.conjunction, conj, i);
  }

  ghost predicate HoldsSides(position: Column) {
    forall i | 0 <= i < |position| :: position[i].Some? ==> IsPosition(position[i].value)
  }

  lemma SidesOf(data: Data, config: Config, params: Params, root: Root, k: nat)
    requires ValidData(data) && k < |GetSubstrategies(config)| && MultiOutput(data, config, params, root, k).Ok?
    ensures HoldsSides(MultiOutput(data, config, params, root, k).value.position)
  {
    hide FactorColumn, IndicatorColumn;
  }

  lemma CombinedMeans(outputs: seq<Output>, conjunction: string, conj: Conjunction, i: nat)
    requires |outputs| >= 2 && LongEnough(outputs, i) && Names(conjunction, conj)
    requires forall k | 0 <= k < |outputs| :: HoldsSides(outputs[k].position)
    ensures IsCombined(outputs, conjunction, i, CombinedAt(PositionsOf(outputs), conj, Some(StrengthsOf(outputs)), i))
  {
    hide Names, CombineRow, IsCombination, ConvictionAt;
    var row := RowAt(PositionsOf(outputs), i);
    assert forall k | 0 <= k < |outputs| :: row[k] == outputs[k].position[i];
    if AllPresent(row) {
      assert AllHold(outputs, i);
      var held, sure := HeldAt(outputs, i), SureAt(outputs, i);
      assert forall k | 0 <= k < |held| :: IsPosition(held[k]);
      CombinationMeans(held, sure, conj);
      var values := seq(|row|, j requires 0 <= j < |row| => if row[j].Some? then row[j].value else 0.0);
      assert values == held;
      assert ConvictionRow(StrengthsOf(outputs), i) == sure;
    }
  }

  // ── returns ────────────────────────────────────────────────────────────

  /** The change of a price over the one before it, as a share of that one. */
  ghost predicate IsChange(price: Column, i: nat, change: Cell)
    requires i < |price|
  {
    && (change.Some? <==> i > 0 && price[i].Some? && price[i - 1].Some? && price[i - 1].value != 0.0)
    && (change.Some? ==> Times(change.value, price[i - 1].value) == price[i].value - price[i - 1].value)
  }

  /** What the position held entering the bar earns on its change, less the fee on the turnover. */
  ghost predicate IsReturn(position: Column, change: Cell, cost: real, i: nat, pnl: Cell)
    requires i < |position|
  {
    && (pnl.Some? <==> i > 0 && position[i].Some? && position[i - 1].Some? && change.Some?)
    && (pnl.Some? ==>
          var before, now := position[i - 1].value, position[i].value;
          pnl.value == before * change.value - cost * (if now < before then before - now else now - before))
  }

  lemma ChangeMeans(price: Column, i: nat)
    requires i < |price|
    ensures IsChange(price, i, ChangeColumn(price)[i])
  {
    if i > 0 && price[i].Some? && price[i - 1].Some? && price[i - 1].value != 0.0 {
      QuotientOf(price[i].value, price[i - 1].value);
    }
  }

  lemma ReturnMeans(position: Column, chg: Column, cost: real, i: nat)
    requires i < |position| == |chg|
    ensures IsReturn(position, chg[i], cost, i, PnlColumn(position, chg, cost)[i])
  {
  }

  /** An evaluation's bar changes are those of the column "price", and its returns those of its positions. */
  lemma EvaluationMeans(data: Data, config: Config, params: Params, cost: real, root: Root, i: nat)
    requires ValidData(data) && Evaluate(data, config, params, cost, root).Ok?
    requires i < |Evaluate(data, config, params, cost, root).value.pnl|
    ensures config.cusip in data && Named("price") in data[config.cusip].columns
    ensures var e, price := Evaluate(data, config, params, cost, root).value, data[config.cusip].columns[Named("price")];
            && |price| == |e.position| == |e.chg| == |e.pnl|
            && IsChange(price, i, e.chg[i]) && IsReturn(e.position, e.chg[i], cost, i, e.pnl[i])
            && if IsMulti(config) then MultiPositions(data, config, params, root) == Ok(Positions(e.outputs, e.position))
               else |e.outputs| == 1 && SingleOutput(data, config, params, root) == Ok(e.outputs[0]) && e.position == e.outputs[0].position
  {
    var e := Evaluate(data, config, params, cost, root).value;
    hide SingleOutput, MultiPositions, IsChange, IsReturn, ChangeAt, PnlAt;
    assert data[config.cusip].Valid();
    ChangeMeans(data[config.cusip].columns[Named("price")], i);
    ReturnMeans(e.position, e.chg, cost, i);
  }

  /** The size of a change between two known positions; from an unknown one there is no trade. */
  ghost predicate IsTurnover(position: Column, i: nat, cell: Cell)
    requires i < |position|
  {
    && (cell.Some? <==> position[i].Some?)
    && (cell.Some? ==>
          if i == 0 || position[i - 1].None? then cell.value == 0.0
          else
            var rise := position[i].value - position[i - 1].value;
            cell.value >= 0.0 && (cell.value == rise || cell.value == -rise))
  }

  /** The enriched frame: what was held before a bar, what was traded on it, and what holding alone earns since. */
  lemma FrameMeans(columns: map<Label, Column>, e: Evaluation, i: nat)
    requires |e.chg| == |e.position| && ShowsReturns(columns, e) && i < |e.position|
    ensures {PriorPosition, Trade, Pnl, BuyHold} <= columns.Keys
    ensures |columns[PriorPosition]| == |columns[Trade]| == |columns[BuyHold]| == |e.position|
    ensures var before := if i == 0 then None else e.position[i - 1];
            && columns[PriorPosition][i] == before && IsTurnover(e.position, i, columns[Trade][i])
            && columns[BuyHold][i] == (if before.None? then None else e.chg[i]) && columns[Pnl] == e.pnl
  {
    hide CumulativeColumn, DrawdownColumn;
  }

  /** A fee of so many basis points, of ten where none is given, is so many ten-thousandths. */
  lemma FeeMeans(feeBps: Option<real>)
    ensures 10_000.0 * TransactionCost(feeBps) == if feeBps.Some? then feeBps.value else 10.0
  {
  }

  // ── Sharpe ─────────────────────────────────────────────────────────────

  /**
   The ratio of the mean of the returns to their sample standard deviation, times the root
   of the periods in a year: its sign, and its square by the returns' spread.
   */
  ghost predicate IsRatio(v: real, known: seq<real>, period: nat) {
    var n, total := |known| as real, Total(known);
    && (v > 0.0 <==> total > 0.0 && period > 0)
    && (v < 0.0 <==> total < 0.0 && period > 0)
    && Times(Squared(v), Times(n, Spread(known))) == Times(Times(Squared(total), n - 1.0), period as real)
  }

  /** There is a ratio where there are returns enough and they differ. */
  ghost predicate IsSharpe(s: Cell, known: seq<real>, period: nat, minObs: int) {
    && (s.Some? <==> |known| >= minObs && |known| >= 2 && Spread(known) > 0.0)
    && (s.Some? ==> IsRatio(s.value, known, period))
  }

  lemma SharpeMeans(pnl: Column, period: nat, minObs: int, root: Root)
    requires IsRoot(root)
    ensures IsSharpe(Sharpe(pnl, period, minObs, root), Known(pnl), period, minObs)
  {
    hide *;
    var known := Known(pnl);
    PresentIsKnown(pnl);
    if |known| >= minObs && |known| >= 2 {
      var mean := MeanOfTotal(known);
      StdBySpread(known, root);
      SpreadIsPositive(known);
      StdSign(SampleStd(known, root), known);
      SharpeIs(pnl, known, period, minObs, root, mean, SampleStd(known, root));
      if SampleStd(known, root) != 0.0 {
        RootOf(period as real, root);
        RatioIs(known, mean, SampleStd(known, root), root(period as real), period);
      }
    } else {
      NoSharpe(pnl, period, minObs, root);
    }
    SharpePacked(Sharpe(pnl, period, minObs, root), known, period, minObs);
  }

  lemma SharpePacked(s: Cell, known: seq<real>, period: nat, minObs: int)
    requires s.Some? <==> |known| >= minObs && |known| >= 2 && Spread(known) > 0.0
    requires s.Some? ==> IsRatio(s.value, known, period)
    ensures IsSharpe(s, known, period, minObs)
  {
    hide IsRatio, Spread;
  }

  lemma NoSharpe(pnl: Column, period: nat, minObs: int, root: Root)
    requires |Present(pnl)| < minObs || |Present(pnl)| < 2
    ensures Sharpe(pnl, period, minObs, root).None?
  {
    hide SampleStd, Present;
  }

  lemma SharpeIs(pnl: Column, known: seq<real>, period: nat, minObs: int, root: Root, mean: real, std: real)
    requires known == Present(pnl) && |known| >= minObs && |known| >= 2
    requires mean == Sum(known) / (|known| as real) && std == SampleStd(known, root)
    ensures Sharpe(pnl, period, minObs, root)
            == if std == 0.0 then None else Some(Annualised(mean, std, root(period as real)))
  {
    hide SampleStd, Present, Sum, Annualised;
  }

  lemma RootOf(v: real, root: Root)
    requires v >= 0.0 && IsRoot(root)
    ensures root(v) >= 0.0 && Squared(root(v)) == v
  {
    assert Roots(root(v), v);
    hide Squared;
  }

  lemma RatioIs(known: seq<real>, mean: real, std: real, r: real, period: nat)
    requires |known| >= 2 && mean * (|known| as real) == Total(known)
    requires IsStd(std, known) && std != 0.0 && r >= 0.0 && Squared(r) == period as real
    ensures IsRatio(Annualised(mean, std, r), known, period)
  {
    hide Total, Spread, Times, Squared, Annualised, Distances, Sum, SampleStd;
    var n, total := |known| as real, Total(known);
    var score := ScoreOf(mean, std, r);
    OfMean(mean, n, total);
    ScoreTimes(score, std, mean, n, total);
    SquareSign(r);
    SignOfProduct(score, r);
    SharpeSquare(score, r, std, n, total, Spread(known), period as real);
  }

  lemma ScoreOf(mean: real, std: real, r: real) returns (score: real)
    requires std > 0.0
    ensures Times(score, std) == mean && Annualised(mean, std, r) == Times(score, r)
    ensures (score > 0.0 <==> mean > 0.0) && (score < 0.0 <==> mean < 0.0)
  {
    score := mean / std;
    QuotientOf(mean, std);
    SignOfQuotient(mean, std);
  }

  lemma OfMean(mean: real, n: real, total: real)
    requires n > 0.0 && mean * n == total
    ensures (mean > 0.0 <==> total > 0.0) && (mean < 0.0 <==> total < 0.0)
  {
    assert Times(mean, n) == total;
    hide Times;
    SignOfProduct(mean, n);
  }

  lemma ScoreTimes(score: real, std: real, mean: real, n: real, total: real)
    requires Times(score, std) == mean && mean * n == total
    ensures n * (score * std) == total
  {
  }

  lemma SharpeSquare(score: real, r: real, std: real, n: real, total: real, spread: real, period: real)
    requires n * (score * std) == total && Squared(r) == period && Squared(std) * (n * (n - 1.0)) == spread
    ensures Times(Squared(Times(score, r)), Times(n, spread)) == Times(Times(Squared(total), n - 1.0), period)
  {
    ScoreSquare(score, std, n, total, spread);
    assert Times(score, r) == score * r;
    SquareOfTwo(score, r);
    hide Squared;
    MoveFactor(Squared(score), period, Times(n, spread), Times(Squared(total), n - 1.0));
  }

  lemma MoveFactor(a: real, p: real, v: real, c: real)
    requires Times(a, v) == c
    ensures Times(Times(a, p), v) == Times(c, p)
  {
  }

  /** Raising every known return by the same amount raises the ratio. */
  lemma HigherReturnsHigherSharpe(pnl: Column, raised: Column, more: real, period: nat, minObs: int, root: Root)
    requires IsRoot(root) && more > 0.0 && period > 0 && Known(raised) == MovedValues(Known(pnl), 1.0, more)
    ensures var s, s' := Sharpe(pnl, period, minObs, root), Sharpe(raised, period, minObs, root);
            (s.Some? <==> s'.Some?) && (s.Some? ==> s.value < s'.value)
  {
    hide *;
    var known, known' := Known(pnl), Known(raised);
    SharpeMeans(pnl, period, minObs, root);
    SharpeMeans(raised, period, minObs, root);
    RaisedSums(known, more);
    SharpeThere(Sharpe(pnl, period, minObs, root), known, period, minObs);
    SharpeThere(Sharpe(raised, period, minObs, root), known', period, minObs);
    if Sharpe(pnl, period, minObs, root).Some? {
      HigherRatio(Sharpe(pnl, period, minObs, root).value, Sharpe(raised, period, minObs, root).value, known, known', period);
    }
  }

  lemma RaisedSums(known: seq<real>, more: real)
    requires more > 0.0
    ensures var raised := MovedValues(known, 1.0, more);
            && |raised| == |known| && Spread(raised) == Spread(known)
            && (known != [] ==> Total(known) < Total(raised))
  {
    TotalMoved(known, 1.0, more);
    SpreadMoved(known, 1.0, more);
    assert Squared(1.0) == 1.0;
    hide Total, Spread, Squared;
    TimesOne(Total(known));
    TimesOne(Spread(known));
    hide Times, MovedValues;
    SignOfProduct(|known| as real, more);
  }

  lemma TimesOne(a: real)
    ensures Times(1.0, a) == a
  {
  }

  lemma SharpeThere(s: Cell, known: seq<real>, period: nat, minObs: int)
    requires IsSharpe(s, known, period, minObs)
    ensures s.Some? <==> |known| >= minObs && |known| >= 2 && Spread(known) > 0.0
    ensures s.Some? ==> IsRatio(s.value, known, period)
  {
    hide Spread, IsRatio;
  }

  lemma HigherRatio(v: real, v': real, known: seq<real>, known': seq<real>, period: nat)
    requires |known'| == |known| >= 2 && Spread(known') == Spread(known) > 0.0 && Total(known) < Total(known') && period > 0
    requires IsRatio(v, known, period) && IsRatio(v', known', period)
    ensures v < v'
  {
    hide Total, Spread, Times, Squared;
    var n := |known| as real;
    SignOfProduct(n, Spread(known));
    Ratios(v, v', Total(known), Total(known'), Times(n, Spread(known)), n - 1.0, period as real);
  }

  lemma Ratios(v: real, v': real, t: real, t': real, k: real, m: real, p: real)
    requires t < t' && k > 0.0 && m > 0.0 && p > 0.0
    requires (v > 0.0 <==> t > 0.0) && (v < 0.0 <==> t < 0.0) && (v' > 0.0 <==> t' > 0.0) && (v' < 0.0 <==> t' < 0.0)
    requires Times(Squared(v), k) == Times(Times(Squared(t), m), p) && Times(Squared(v'), k) == Times(Times(Squared(t'), m), p)
    ensures v < v'
  {
    hide Squared, Times;
    if t >= 0.0 {
      SquareOrder(t, t');
      SameOrder(Squared(t), Squared(t'), Squared(v), Squared(v'), k, m, p);
      RootOrder(v, v');
    } else if t' < 0.0 {
      SquareOrder(-t', -t);
      SquareOfNegative(t);
      SquareOfNegative(t');
      SquareOfNegative(v);
      SquareOfNegative(v');
      SameOrder(Squared(t'), Squared(t), Squared(v'), Squared(v), k, m, p);
      RootOrder(-v', -v);
    }
  }

  lemma SquareOfNegative(a: real)
    ensures Squared(-a) == Squared(a)
  {
  }

  lemma SquareOrder(a: real, b: real)
    requires 0.0 <= a < b
    ensures Squared(a) < Squared(b)
  {
    assert Squared(b) - Squared(a) == Times(b - a, b + a) by { DifferenceOfSquares(b, a); }
    hide Squared, Times;
    SignOfProduct(b - a, b + a);
  }

  lemma RootOrder(a: real, b: real)
    requires a >= 0.0 && b >= 0.0 && Squared(a) < Squared(b)
    ensures a < b
  {
    if b < a {
      SquareOrder(b, a);
    }
  }

  lemma SameOrder(a: real, b: real, va: real, vb: real, k: real, m: real, p: real)
    requires a < b && k > 0.0 && m > 0.0 && p > 0.0
    requires Times(va, k) == Times(Times(a, m), p) && Times(vb, k) == Times(Times(b, m), p)
    ensures va < vb
  {
    Difference(vb, va, k);
    Difference(b, a, m);
    Difference(Times(b, m), Times(a, m), p);
    hide Times;
    SignOfProduct(b - a, m);
    SignOfProduct(Times(b, m) - Times(a, m), p);
    SignOfProduct(vb - va, k);
  }

  lemma Difference(a: real, b: real, k: real)
    ensures Times(a - b, k) == Times(a, k) - Times(b, k)
  {
  }

  /** What is left of the returns after the longest window, or after the one there is. */
  ghost predicate AfterWarmUp(config: Config, params: Params, pnl: Column, rest: Column) {
    exists m :: LongestWindow(config, params, m) && rest == if m <= |pnl| then pnl[m..] else []
  }

  ghost predicate LongestWindow(config: Config, params: Params, m: int) {
    && m >= 0 && m in params.windows
    && if |config.substrategies| > 1 then forall w | w in params.windows :: w <= m else m == params.windows[0]
  }

  /** The engine's Sharpe is that of the returns known after the warm-up. */
  lemma EngineSharpe(data: Data, config: Config, params: Params, cost: real, minObs: int, root: Root) returns (rest: Column)
    requires ValidData(data) && IsRoot(root) && params.windows != []
    ensures var e, s := Evaluate(data, config, params, cost, root), SlowSharpe(data, config, params, cost, minObs, root);
            && (e.Err? ==> s == Err(e.error))
            && (e.Ok? ==>
                  && s.Ok? && AfterWarmUp(config, params, e.value.pnl, rest)
                  && IsSharpe(s.value, Known(rest), config.tradingPeriod, minObs))
  {
    rest := [];
    var e := Evaluate(data, config, params, cost, root);
    hide Evaluate, Sharpe, Known, IsSharpe, IsRoot;
    if e.Ok? {
      var m := MetricWindow(config, params);
      assert LongestWindow(config, params, m);
      rest := AfterWarmup(e.value.pnl, m);
      SharpeMeans(rest, config.tradingPeriod, minObs, root);
    }
  }
}
