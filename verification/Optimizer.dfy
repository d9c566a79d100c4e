/**
 Parameter search over a grid (quant/strategy/optimizer.py), and what its best row is.
 */
module Optimizer {
  import opened Outcomes
  import opened Columns
  import opened Indicators
  import opened Signals
  import opened FactorFrames
  import opened Performance
  import opened Objective

  // ── the space ──────────────────────────────────────────────────────────

  datatype Setting = Setting(window: Window, signal: real)

  /** One setting per factor. */
  type Point = seq<Setting>

  /** The windows and thresholds to try for each factor. */
  datatype Space = Space(windows: seq<seq<Window>>, signals: seq<seq<real>>)

  datatype SearchError = RangesDiffer | NoWindowAxis | BuildFailed(error: PerfError) | NoRows

  /** One prefix with each value of the next axis after it. */
  function ExtendOne<T>(prefix: seq<T>, axis: seq<T>): (r: seq<seq<T>>)
    ensures |r| == |axis| && forall i | 0 <= i < |r| :: r[i] == prefix + [axis[i]]
  {
    seq(|axis|, i requires 0 <= i < |axis| => prefix + [axis[i]])
  }

  function ExtendAll<T>(prefixes: seq<seq<T>>, axis: seq<T>): seq<seq<T>> {
    if prefixes == [] then []
    else ExtendAll(prefixes[..|prefixes| - 1], axis) + ExtendOne(prefixes[|prefixes| - 1], axis)
  }

  /** `itertools.product`: the last axis varies fastest. */
  function Cartesian<T>(axes: seq<seq<T>>): seq<seq<T>> {
    if axes == [] then [[]] else ExtendAll(Cartesian(axes[..|axes| - 1]), axes[|axes| - 1])
  }

  /** A factor's two axes, its window before its threshold. */
  function Settings(windows: seq<Window>, signals: seq<real>): seq<Setting> {
    if windows == [] then []
    else
      var last := windows[|windows| - 1];
      Settings(windows[..|windows| - 1], signals)
      + seq(|signals|, i requires 0 <= i < |signals| => Setting(last, signals[i]))
  }

  function Axes(space: Space): (a: seq<seq<Setting>>)
    requires |space.windows| == |space.signals|
    ensures |a| == |space.windows|
  {
    seq(|space.windows|, i requires 0 <= i < |space.windows| => Settings(space.windows[i], space.signals[i]))
  }

  function Points(space: Space): seq<Point>
    requires |space.windows| == |space.signals|
  {
    Cartesian(Axes(space))
  }

  /** `SearchSpace.total`, over the first `n` factors. */
  function Total(space: Space, n: nat): nat
    requires n <= |space.windows| == |space.signals|
  {
    if n == 0 then 1 else Total(space, n - 1) * (|space.windows[n - 1]| * |space.signals[n - 1]|)
  }

  ghost predicate InSpace(point: Point, space: Space)
    requires |space.windows| == |space.signals|
  {
    && |point| == |space.windows|
    && forall i | 0 <= i < |point| ::
         point[i].window in space.windows[i] && point[i].signal in space.signals[i]
  }

  ghost predicate Distinct<T(!new)>(s: seq<T>) {
    forall i, j | 0 <= i < j < |s| :: s[i] != s[j]
  }

  lemma {:induction false} ExtendAllCount<T>(prefixes: seq<seq<T>>, axis: seq<T>)
    ensures |ExtendAll(prefixes, axis)| == |prefixes| * |axis|
  {
    if prefixes != [] {
      var k := |prefixes| - 1;
      ExtendAllCount(prefixes[..k], axis);
      assert |prefixes| * |axis| == k * |axis| + |axis|;
    }
  }

  /** `p` is one of the prefixes followed by a value of the axis. */
  ghost predicate Follows<T>(p: seq<T>, prefixes: seq<seq<T>>, axis: seq<T>) {
    p != [] && p[..|p| - 1] in prefixes && p[|p| - 1] in axis
  }

  lemma {:induction false} ExtendAllExact<T>(prefixes: seq<seq<T>>, axis: seq<T>, p: seq<T>)
    ensures p in ExtendAll(prefixes, axis) <==> Follows(p, prefixes, axis)
  {
    if prefixes != [] {
      var k := |prefixes| - 1;
      ExtendAllExact(prefixes[..k], axis, p);
      ExtendOneExact(prefixes[k], axis, p);
      assert prefixes == prefixes[..k] + [prefixes[k]];
      hide ExtendOne;
    }
  }

  lemma ExtendOneExact<T>(prefix: seq<T>, axis: seq<T>, p: seq<T>)
    ensures p in ExtendOne(prefix, axis) <==> p != [] && p[..|p| - 1] == prefix && p[|p| - 1] in axis
  {
    var r := ExtendOne(prefix, axis);
    if p in r {
      var i :| 0 <= i < |r| && r[i] == p;
      assert p[..|p| - 1] == prefix;
    }
    if p != [] && p[..|p| - 1] == prefix && p[|p| - 1] in axis {
      var i :| 0 <= i < |axis| && axis[i] == p[|p| - 1];
      assert p == p[..|p| - 1] + [p[|p| - 1]];
      assert r[i] == p;
    }
  }

  /** A value of each axis in its place. */
  ghost predicate PicksFrom<T>(p: seq<T>, axes: seq<seq<T>>) {
    |p| == |axes| && forall i | 0 <= i < |p| :: p[i] in axes[i]
  }

  lemma PicksStep<T>(p: seq<T>, axes: seq<seq<T>>)
    requires axes != []
    ensures var n := |axes| - 1;
            PicksFrom(p, axes) <==> p != [] && PicksFrom(p[..|p| - 1], axes[..n]) && p[|p| - 1] in axes[n]
  {
  }

  lemma {:induction false} CartesianExact<T>(axes: seq<seq<T>>, p: seq<T>)
    ensures p in Cartesian(axes) <==> PicksFrom(p, axes)
  {
    if axes != [] {
      var n := |axes| - 1;
      PicksStep(p, axes);
      ExtendAllExact(Cartesian(axes[..n]), axes[n], p);
      if p != [] {
        CartesianExact(axes[..n], p[..|p| - 1]);
      }
      hide PicksFrom, ExtendAll;
    }
  }

  lemma {:induction false} ExtendAllDistinct<T(!new)>(prefixes: seq<seq<T>>, axis: seq<T>)
    requires Distinct(prefixes) && Distinct(axis)
    ensures Distinct(ExtendAll(prefixes, axis))
  {
    if prefixes != [] {
      var k := |prefixes| - 1;
      var before, last := prefixes[..k], prefixes[k];
      ExtendAllDistinct(before, axis);
      var a, b := ExtendAll(before, axis), ExtendOne(last, axis);
      forall i, j | 0 <= i < j < |b|
        ensures b[i] != b[j]
      {
        assert b[i][|last|] == axis[i] && b[j][|last|] == axis[j];
      }
      forall i, j | 0 <= i < |a| && 0 <= j < |b|
        ensures a[i] != b[j]
      {
        ExtendOneExact(last, axis, b[j]);
        ExtendAllExact(before, axis, a[i]);
        assert b[j] in b && a[i] in a;
        assert last !in before;
      }
    }
  }

  /** And each exactly once, when no axis repeats a value. */
  lemma {:induction false} CartesianDistinct<T(!new)>(axes: seq<seq<T>>)
    requires forall i | 0 <= i < |axes| :: Distinct(axes[i])
    ensures Distinct(Cartesian(axes))
  {
    if axes != [] {
      var n := |axes| - 1;
      CartesianDistinct(axes[..n]);
      ExtendAllDistinct(Cartesian(axes[..n]), axes[n]);
    }
  }

  lemma {:induction false} SettingsExact(windows: seq<Window>, signals: seq<real>)
    ensures |Settings(windows, signals)| == |windows| * |signals|
    ensures forall s: Setting :: s in Settings(windows, signals) <==> s.window in windows && s.signal in signals
  {
    if windows != [] {
      var k := |windows| - 1;
      SettingsExact(windows[..k], signals);
      assert windows == windows[..k] + [windows[k]];
      var b := seq(|signals|, i requires 0 <= i < |signals| => Setting(windows[k], signals[i]));
      forall s: Setting
        ensures s in b <==> s.window == windows[k] && s.signal in signals
      {
        if s.window == windows[k] && s.signal in signals {
          var i :| 0 <= i < |signals| && signals[i] == s.signal;
          assert b[i] == s;
        }
      }
      assert |windows| * |signals| == k * |signals| + |signals|;
    }
  }

  lemma {:induction false} SettingsDistinct(windows: seq<Window>, signals: seq<real>)
    requires Distinct(windows) && Distinct(signals)
    ensures Distinct(Settings(windows, signals))
  {
    if windows != [] {
      var k := |windows| - 1;
      var before, last := windows[..k], windows[k];
      SettingsDistinct(before, signals);
      SettingsExact(before, signals);
      var a := Settings(before, signals);
      forall i, j | 0 <= i < |a| && 0 <= j < |signals|
        ensures a[i] != Setting(last, signals[j])
      {
        assert a[i] in a && last !in before;
      }
    }
  }

  /** The search's points are the Cartesian product, each once, and `total` counts them. */
  lemma PointsExact(space: Space)
    requires |space.windows| == |space.signals|
    ensures forall p :: p in Points(space) <==> InSpace(p, space)
    ensures |Points(space)| == Total(space, |space.windows|)
    ensures (forall i | 0 <= i < |space.windows| :: Distinct(space.windows[i]) && Distinct(space.signals[i])) ==>
              Distinct(Points(space))
  {
    var axes := Axes(space);
    forall i | 0 <= i < |axes|
      ensures forall s: Setting :: s in axes[i] <==> s.window in space.windows[i] && s.signal in space.signals[i]
      ensures Distinct(space.windows[i]) && Distinct(space.signals[i]) ==> Distinct(axes[i])
    {
      SettingsExact(space.windows[i], space.signals[i]);
      if Distinct(space.windows[i]) && Distinct(space.signals[i]) {
        SettingsDistinct(space.windows[i], space.signals[i]);
      }
    }
    forall p
      ensures p in Points(space) <==> InSpace(p, space)
    {
      CartesianExact(axes, p);
    }
    PointCount(space, |space.windows|);
    assert axes[..|axes|] == axes;
    if forall i | 0 <= i < |space.windows| :: Distinct(space.windows[i]) && Distinct(space.signals[i]) {
      CartesianDistinct(axes);
    }
  }

  lemma {:induction false} PointCount(space: Space, n: nat)
    requires n <= |space.windows| == |space.signals|
    ensures |Cartesian(Axes(space)[..n])| == Total(space, n)
  {
    var axes := Axes(space);
    if n > 0 {
      PointCount(space, n - 1);
      assert axes[..n][..n - 1] == axes[..n - 1];
      ExtendAllCount(Cartesian(axes[..n - 1]), axes[n - 1]);
      SettingsExact(space.windows[n - 1], space.signals[n - 1]);
    }
  }

  // ── results ────────────────────────────────────────────────────────────

  /** A recorded evaluation; a missing value is the search's minus infinity. */
  datatype Trial = Trial(point: Point, value: Cell, complete: bool)

  datatype Row = Row(point: Point, sharpe: Cell)

  datatype OptimizeResult = OptimizeResult(best: Option<Row>, top10: seq<Row>, grid: seq<Row>, nValid: nat)

  /** No row is beaten by a later one. */
  ghost predicate Descending(rows: seq<Row>) {
    rows == []
    || (&& rows[0].sharpe.Some?
        && (forall row | row in rows[1..] :: AtMost(row, rows[0]))
        && Descending(rows[1..]))
  }

  ghost predicate AtMost(row: Row, other: Row) {
    row.sharpe.Some? && other.sharpe.Some? && row.sharpe.value <= other.sharpe.value
  }

  function Valued(rows: seq<Row>): (v: seq<Row>)
    ensures forall row :: row in v <==> row in rows && row.sharpe.Some?
  {
    if rows == [] then []
    else
      assert rows == [rows[0]] + rows[1..];
      (if rows[0].sharpe.Some? then [rows[0]] else []) + Valued(rows[1..])
  }

  ghost predicate AllValued(rows: seq<Row>) {
    forall row | row in rows :: row.sharpe.Some?
  }

  /** A row placed among descending ones, after its equals. */
  function Place(rows: seq<Row>, row: Row): seq<Row>
    requires row.sharpe.Some? && AllValued(rows)
  {
    if rows == [] || rows[0].sharpe.value < row.sharpe.value then [row] + rows
    else [rows[0]] + Place(rows[1..], row)
  }

  lemma {:induction false} PlaceKeeps(rows: seq<Row>, row: Row)
    requires row.sharpe.Some? && AllValued(rows)
    ensures multiset(Place(rows, row)) == multiset(rows) + multiset{row}
    ensures forall x :: x in Place(rows, row) <==> x == row || x in rows
  {
    if !(rows == [] || rows[0].sharpe.value < row.sharpe.value) {
      PlaceKeeps(rows[1..], row);
      assert rows == [rows[0]] + rows[1..];
    }
  }

  lemma {:induction false} PlaceDescends(rows: seq<Row>, row: Row)
    requires row.sharpe.Some? && AllValued(rows) && Descending(rows)
    ensures Descending(Place(rows, row))
  {
    if rows == [] || rows[0].sharpe.value < row.sharpe.value {
      assert ([row] + rows)[1..] == rows;
      forall x | x in rows
        ensures AtMost(x, row)
      {
        assert rows == [rows[0]] + rows[1..];
      }
    } else {
      PlaceDescends(rows[1..], row);
      PlaceKeeps(rows[1..], row);
      assert ([rows[0]] + Place(rows[1..], row))[1..] == Place(rows[1..], row);
      assert AtMost(row, rows[0]);
    }
  }

  function SortedBySharpe(rows: seq<Row>): (r: seq<Row>)
    requires AllValued(rows)
    ensures forall x :: x in r <==> x in rows
    ensures Descending(r) && multiset(r) == multiset(rows)
  {
    if rows == [] then []
    else
      var n := |rows| - 1;
      assert rows == rows[..n] + [rows[n]];
      var before := SortedBySharpe(rows[..n]);
      PlaceKeeps(before, rows[n]);
      PlaceDescends(before, rows[n]);
      Place(before, rows[n])
  }

  /** In a descending list, everything after the first `k` rows is at most each of them. */
  lemma {:induction false} DescendingSplit(rows: seq<Row>, k: nat, row: Row, top: Row)
    requires Descending(rows) && k <= |rows| && top in rows[..k] && row in rows[k..]
    ensures AtMost(row, top)
  {
    if top == rows[0] {
      assert k > 0 && row in rows[1..];
    } else {
      assert rows[1..][..k - 1] == rows[..k][1..] && rows[1..][k - 1..] == rows[k..];
      assert top in rows[..k][1..];
      DescendingSplit(rows[1..], k - 1, row, top);
    }
  }

  lemma {:induction false} DescendingPrefix(rows: seq<Row>, k: nat)
    requires Descending(rows) && k <= |rows|
    ensures Descending(rows[..k])
  {
    if k > 0 {
      DescendingPrefix(rows[1..], k - 1);
      assert rows[..k][1..] == rows[1..][..k - 1];
    }
  }

  function BuildResult(rows: seq<Row>): OptimizeResult {
    var sorted := SortedBySharpe(Valued(rows));
    var top10 := if |sorted| < 10 then sorted else sorted[..10];
    OptimizeResult(if top10 == [] then None else Some(top10[0]), top10, rows, |Valued(rows)|)
  }

  /** The best row has the highest Sharpe of all. */
  lemma BestRanksFirst(rows: seq<Row>)
    ensures var best := BuildResult(rows).best;
            && (best.None? <==> forall row | row in rows :: row.sharpe.None?)
            && (best.Some? ==> best.value in rows && forall row | row in rows && row.sharpe.Some? :: AtMost(row, best.value))
  {
    var valued := Valued(rows);
    var sorted := SortedBySharpe(valued);
    hide Valued, SortedBySharpe;
    if sorted != [] {
      assert sorted == [sorted[0]] + sorted[1..];
      assert BuildResult(rows).best.value in valued;
    }
    forall row | row in rows && row.sharpe.Some?
      ensures row in sorted
    {
      assert row in valued;
    }
  }

  /** The ten are the top of a descending list: no row left out beats one of them. */
  lemma TopTenRank(rows: seq<Row>)
    ensures var r := BuildResult(rows);
            && Descending(r.top10) && |r.top10| == (if r.nValid < 10 then r.nValid else 10)
            && (forall t | t in r.top10 :: t in rows)
            && forall row, t | row in rows && row.sharpe.Some? && row !in r.top10 && t in r.top10 :: AtMost(row, t)
  {
    var valued := Valued(rows);
    var sorted := SortedBySharpe(valued);
    hide Valued, SortedBySharpe, AtMost;
    var top10 := BuildResult(rows).top10;
    assert |sorted| == |multiset(sorted)| == |multiset(valued)|;
    var k := |top10|;
    DescendingPrefix(sorted, k);
    hide Descending, BuildResult;
    assert top10 == sorted[..k] && sorted == sorted[..k] + sorted[k..];
    forall row, t | row in rows && row.sharpe.Some? && row !in top10 && t in top10
      ensures AtMost(row, t)
    {
      assert row in valued && row in sorted;
      DescendingSplit(sorted, k, row, t);
    }
    assert forall t | t in top10 :: t in sorted && t in valued;
  }

  // ── the search ─────────────────────────────────────────────────────────

  const MAX_TRIALS := 10_000

  /** Whether the search is exhaustive, and how many trials it runs. */
  function SelectSearch(total: nat, nTrials: Option<nat>): (bool, nat) {
    var n := if nTrials.Some? then nTrials.value else if total < MAX_TRIALS then total else MAX_TRIALS;
    if n >= total then (true, total) else (false, n)
  }

  /** A search is exhaustive exactly when its budget covers the space; with none given, exactly up to the cap. */
  lemma SearchSelected(total: nat, nTrials: Option<nat>)
    ensures var (exhaustive, n) := SelectSearch(total, nTrials);
            && n <= total && (exhaustive <==> n == total)
            && (nTrials.None? ==> (exhaustive <==> total <= MAX_TRIALS) && n <= MAX_TRIALS)
            && (nTrials.Some? ==> (exhaustive <==> total <= nTrials.value) && n <= nTrials.value)
  {
  }

  function ParamsOf(point: Point): (p: Params)
    ensures |p.windows| == |p.signals| == |point|
  {
    Params(seq(|point|, i requires 0 <= i < |point| => point[i].window),
           seq(|point|, i requires 0 <= i < |point| => point[i].signal))
  }

  /** The value the full engine gives a point, missing where it fails or has none. */
  function SlowValue(data: Data, config: Config, point: Point, cost: real, minObs: int, root: Root): Cell
    requires ValidData(data)
  {
    if point == [] then None
    else
      match SlowSharpe(data, config, ParamsOf(point), cost, minObs, root)
      case Err(_) => None
      case Ok(sharpe) => sharpe
  }

  /** The value of the factors that ranges are given for. */
  function FirstValue(data: Data, config: Config, point: Point, ranges: nat, cost: real, minObs: int, root: Root): Cell
    requires ValidData(data)
  {
    if point == [] then None
    else
      match FirstFactors(data, config, ParamsOf(point), Shorter(ranges, |GetSubstrategies(config)|), cost, minObs, root)
      case Err(_) => None
      case Ok(sharpe) => sharpe
  }

  datatype AnyObjective = Single(single: SingleFactorObjective) | Multi(multi: MultiFactorObjective)

  /** The objective was built for this run and caches every window of the space. */
  ghost predicate BuiltFor(objective: AnyObjective, data: Data, config: Config, space: Space, cost: real, minObs: int, root: Root)
    requires ValidData(data) && |space.windows| == |space.signals|
  {
    match objective
    case Single(o) =>
      && o.Valid() && o.data == data && o.config == config && o.cost == cost && o.minObs == minObs && o.root == root
      && |space.windows| == 1
      && forall w | w in space.windows[0] :: w in o.cache.arrays
    case Multi(o) =>
      && o.Valid() && o.data == data && o.config == config && o.cost == cost && o.minObs == minObs && o.root == root
      && |o.caches| == Shorter(|space.windows|, |GetSubstrategies(config)|)
      && forall i | 0 <= i < |o.caches| :: forall w | w in space.windows[i] :: w in o.caches[i].arrays
  }

  /** The engine takes this configuration, and a range is given for every factor. */
  predicate EngineAccepts(data: Data, config: Config, space: Space) {
    IsMulti(config) ==>
      && config.cusip in data && Named("factor") in data[config.cusip].columns
      && |GetSubstrategies(config)| <= |space.windows|
  }

  /** The size of a space of one factor is that of its unnumbered axes, which a multi-factor space does not have. */
  predicate LacksAxis(config: Config, space: Space) {
    IsMulti(config) && |space.windows| == 1
  }

  method EvaluatePoint(objective: AnyObjective, point: Point, ghost data: Data, ghost config: Config, ghost space: Space,
                       ghost cost: real, ghost minObs: int, ghost root: Root)
    returns (value: Cell)
    requires ValidData(data) && |space.windows| == |space.signals|
    requires BuiltFor(objective, data, config, space, cost, minObs, root) && InSpace(point, space)
    ensures EngineAccepts(data, config, space) ==> value == SlowValue(data, config, point, cost, minObs, root)
    ensures IsMulti(config) ==> value == FirstValue(data, config, point, |space.windows|, cost, minObs, root)
  {
    if point == [] {
      return None;
    }
    var params := ParamsOf(point);
    var r: Result<Cell, PerfError>;
    match objective {
      case Single(o) =>
        r := o.Call(params.windows, params.signals);
      case Multi(o) =>
        r := o.Call(params.windows, params.signals);
    }
    assert Params(params.windows, params.signals) == params;
    return if r.Ok? then r.value else None;
  }

  /** Every point in turn, each recorded as a complete trial. */
  method Search(objective: AnyObjective, points: seq<Point>, ghost data: Data, ghost config: Config, ghost space: Space,
                ghost cost: real, ghost minObs: int, ghost root: Root)
    returns (study: seq<Trial>)
    requires ValidData(data) && |space.windows| == |space.signals|
    requires BuiltFor(objective, data, config, space, cost, minObs, root)
    requires forall i | 0 <= i < |points| :: InSpace(points[i], space)
    ensures |study| == |points| && forall i | 0 <= i < |points| :: study[i].point == points[i] && study[i].complete
    ensures EngineAccepts(data, config, space) ==>
              forall i | 0 <= i < |points| :: study[i].value == SlowValue(data, config, points[i], cost, minObs, root)
    ensures IsMulti(config) ==>
              forall i | 0 <= i < |points| ::
                study[i].value == FirstValue(data, config, points[i], |space.windows|, cost, minObs, root)
  {
    hide SlowValue, FirstValue, IsMulti, BuiltFor, InSpace, EngineAccepts;
    study := [];
    for i := 0 to |points|
      invariant |study| == i
      invariant forall j | 0 <= j < i :: study[j].point == points[j] && study[j].complete
      invariant IsMulti(config) ==>
                  forall j | 0 <= j < i ::
                    study[j].value == FirstValue(data, config, points[j], |space.windows|, cost, minObs, root)
      invariant EngineAccepts(data, config, space) ==>
                  forall j | 0 <= j < i :: study[j].value == SlowValue(data, config, points[j], cost, minObs, root)
    {
      var value := EvaluatePoint(objective, points[i], data, config, space, cost, minObs, root);
      study := study + [Trial(points[i], value, true)];
    }
  }

  function RowsOf(study: seq<Trial>): seq<Row> {
    if study == [] then []
    else
      var last := study[|study| - 1];
      RowsOf(study[..|study| - 1]) + (if last.complete then [Row(last.point, last.value)] else [])
  }

  method RowsFromStudy(study: seq<Trial>) returns (rows: seq<Row>)
    ensures rows == RowsOf(study)
  {
    rows := [];
    for i := 0 to |study|
      invariant rows == RowsOf(study[..i])
    {
      assert study[..i + 1][..i] == study[..i];
      if !study[i].complete {
        continue;
      }
      rows := rows + [Row(study[i].point, study[i].value)];
    }
    assert study[..|study|] == study;
  }

  lemma {:induction false} CompleteRows(study: seq<Trial>)
    requires forall i | 0 <= i < |study| :: study[i].complete
    ensures |RowsOf(study)| == |study|
    ensures forall i | 0 <= i < |study| :: RowsOf(study)[i] == Row(study[i].point, study[i].value)
  {
    if study != [] {
      CompleteRows(study[..|study| - 1]);
    }
  }

  /** `best` is a maximum of the full engine over the points tried. */
  ghost predicate IsBest(best: Option<Row>, points: seq<Point>, data: Data, config: Config, cost: real, minObs: int, root: Root)
    requires ValidData(data)
  {
    && (best.None? <==> forall p | p in points :: SlowValue(data, config, p, cost, minObs, root).None?)
    && (best.Some? ==>
          && best.value.point in points && best.value.sharpe.Some?
          && SlowValue(data, config, best.value.point, cost, minObs, root) == best.value.sharpe
          && forall p | p in points && SlowValue(data, config, p, cost, minObs, root).Some? ::
               SlowValue(data, config, p, cost, minObs, root).value <= best.value.sharpe.value)
  }

  lemma BestOfRows(points: seq<Point>, rows: seq<Row>, data: Data, config: Config, cost: real, minObs: int, root: Root)
    requires ValidData(data) && |rows| == |points|
    requires forall i | 0 <= i < |points| :: rows[i] == Row(points[i], SlowValue(data, config, points[i], cost, minObs, root))
    ensures IsBest(BuildResult(rows).best, points, data, config, cost, minObs, root)
  {
    hide SlowValue, BuildResult;
    BestRanksFirst(rows);
    var best := BuildResult(rows).best;
    forall p | p in points
      ensures exists i :: 0 <= i < |rows| && rows[i] == Row(p, SlowValue(data, config, p, cost, minObs, root))
    {
      var i :| 0 <= i < |points| && points[i] == p;
      assert rows[i] == Row(p, SlowValue(data, config, p, cost, minObs, root));
    }
    forall row | row in rows
      ensures row.point in points && row.sharpe == SlowValue(data, config, row.point, cost, minObs, root)
    {
      var i :| 0 <= i < |rows| && rows[i] == row;
      assert rows[i] == Row(points[i], SlowValue(data, config, points[i], cost, minObs, root));
    }
  }

  /** Where the engine does not take the configuration, it has a value at no point. */
  lemma EngineRefusesAll(data: Data, config: Config, space: Space, p: Point, cost: real, minObs: int, root: Root)
    requires ValidData(data) && |space.windows| == |space.signals| && InSpace(p, space)
    requires !EngineAccepts(data, config, space)
    ensures SlowValue(data, config, p, cost, minObs, root).None?
  {
    hide ChangeOf, Combined, MultiOutput;
    if config.cusip in data && |p| < |GetSubstrategies(config)| && p != [] {
      hide Combined, ChangeOf, FactorColumn;
      TooFewParameters(data, config, ParamsOf(p), root, |p|);
    }
  }

  lemma TooFewParameters(data: Data, config: Config, params: Params, root: Root, i: nat)
    requires ValidData(data) && |params.windows| <= i < |GetSubstrategies(config)|
    ensures MultiOutput(data, config, params, root, i).Err?
  {
  }

  /**
   A whole run. On a space of at most 10,000 points, with no budget given, every point of
   the Cartesian product is evaluated once and `best` is a true maximum of the full
   engine; with a smaller budget, over the points the sampler suggested.
   */
  method Run(data: Data, config: Config, space: Space, nTrials: Option<nat>, suggestions: seq<Point>,
             feeBps: Option<real>, minObs: int, root: Root)
    returns (r: Result<OptimizeResult, SearchError>)
    requires ValidData(data) && (!IsMulti(config) ==> |space.windows| == 1)
    requires |space.windows| == |space.signals| && !LacksAxis(config, space) ==>
               var (exhaustive, n) := SelectSearch(Total(space, |space.windows|), nTrials);
               exhaustive || (|suggestions| == n && forall i | 0 <= i < n :: InSpace(suggestions[i], space))
    ensures r == Err(RangesDiffer) <==> |space.windows| != |space.signals|
    ensures r == Err(NoWindowAxis) <==> |space.windows| == |space.signals| && LacksAxis(config, space)
    ensures r == Err(NoRows) ==>
              (if SelectSearch(Total(space, |space.windows|), nTrials).0 then Points(space) else suggestions) == []
    ensures r.Err? && r.error.BuildFailed? ==>
              forall p | InSpace(p, space) :: SlowValue(data, config, p, TransactionCost(feeBps), minObs, root).None?
    ensures r.Ok? && EngineAccepts(data, config, space) ==>
              var points := if SelectSearch(Total(space, |space.windows|), nTrials).0 then Points(space) else suggestions;
              && points != [] && IsBest(r.value.best, points, data, config, TransactionCost(feeBps), minObs, root)
              && |r.value.grid| == |points|
              && forall i | 0 <= i < |points| ::
                   r.value.grid[i] == Row(points[i], SlowValue(data, config, points[i], TransactionCost(feeBps), minObs, root))
    ensures r.Ok? && IsMulti(config) ==>
              forall row | row in r.value.grid ::
                row.sharpe == FirstValue(data, config, row.point, |space.windows|, TransactionCost(feeBps), minObs, root)
  {
    hide SlowSharpe, FirstValue, InSpace, EngineAccepts, Points, BuildResult;
    ghost var cost := TransactionCost(feeBps);
    if |space.windows| != |space.signals| {
      return Err(RangesDiffer);
    }
    if LacksAxis(config, space) {
      return Err(NoWindowAxis);
    }
    var (exhaustive, n) := SelectSearch(Total(space, |space.windows|), nTrials);
    var objective: AnyObjective;
    if IsMulti(config) {
      var built := MultiFactorObjective.Build(data, config, space.windows, feeBps, minObs, root);
      if built.Err? {
        return Err(BuildFailed(built.error));
      }
      objective := Multi(built.value);
    } else {
      var built := SingleFactorObjective.Build(data, config, space.windows[0], feeBps, minObs, root);
      if built.Err? {
        return Err(BuildFailed(built.error));
      }
      objective := Single(built.value);
    }
    PointsExact(space);
    var points := if exhaustive then Points(space) else suggestions;
    forall i | 0 <= i < |points|
      ensures InSpace(points[i], space)
    {
      if exhaustive {
        assert points[i] in Points(space);
      }
    }
    var study := Search(objective, points, data, config, space, cost, minObs, root);
    var rows := RowsFromStudy(study);
    CompleteRows(study);
    if rows == [] {
      return Err(NoRows);
    }
    r := Ok(BuildResult(rows));
    assert r.value.grid == rows by { GridIsRows(rows); }
    if EngineAccepts(data, config, space) {
      BestOfRows(points, rows, data, config, cost, minObs, root);
    }
  }

  lemma GridIsRows(rows: seq<Row>)
    ensures BuildResult(rows).grid == rows
  {
  }
}
