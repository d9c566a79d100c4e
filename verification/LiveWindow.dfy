/**
 The position computed on a live window is the backtest's.

 A live run loads `live_lookback_bars` bars and accepts as few as 80% of them
 (quant/strategy/performance.py:35-44, quant/market_data/service.py:674-681).
 */
module LiveWindow {
  import opened Outcomes
  import opened Columns
  import opened Indicators
  import opened Signals
  import opened FactorFrames
  import opened Performance
  import NoLookAhead
  import Fetcher
  import BarStore
  import Intervals

  function LiveLookbackBars(windows: seq<Window>): nat
    requires windows != []
  {
    MaxWindow(windows) * 3 + 60
  }

  /** A window of four in five of the bars asked for holds every bar that a bounded indicator needs. */
  lemma LiveWindowSuffices(windows: seq<Window>, ind: Indicator, w: Window)
    requires windows != [] && w in windows && !ind.Ema?
    ensures forall m | m in windows && (forall v | v in windows :: v <= m) :: LiveLookbackBars(windows) == 3 * m + 60
    ensures NeededBars(ind, w).Some?
    ensures forall n: nat | 5 * n >= 4 * LiveLookbackBars(windows) :: NeededBars(ind, w).value <= n
  {
  }

  // ── a frame and a suffix of it ─────────────────────────────────────────

  ghost predicate IsTailOf(live: Product, full: Product, d: nat) {
    && d < |full.index| && live.index == full.index[d..]
    && NoLookAhead.SameLabels(full, live)
    && forall name | name in full.columns ::
         name in live.columns && d <= |full.columns[name]| && live.columns[name] == full.columns[name][d..]
  }

  /** `live` is `full` with the traded product's first `d` bars left out. */
  ghost predicate IsTail(live: Data, full: Data, config: Config, d: nat) {
    && ValidData(live) && ValidData(full) && config.cusip in live && config.cusip in full
    && IsTailOf(live[config.cusip], full[config.cusip], d)
    && forall cusip | cusip in live && cusip in full && cusip != config.cusip ::
         NoLookAhead.OtherAgrees(full[cusip], live[cusip], live[config.cusip].index)
  }

  lemma FactorTail(live: Data, full: Data, config: Config, sub: SubStrategy, d: nat)
    requires IsTail(live, full, config, d)
    requires FactorColumn(live, config, sub).Ok? && FactorColumn(full, config, sub).Ok?
    ensures d <= |FactorColumn(full, config, sub).value|
    ensures FactorColumn(live, config, sub).value == FactorColumn(full, config, sub).value[d..]
  {
    hide Covered, Lookup;
    var cusip, name := SubCusip(config, sub), Named(sub.dataColumn);
    var fl, ff := FactorColumn(live, config, sub).value, FactorColumn(full, config, sub).value;
    if cusip == config.cusip {
      ReindexOwn(live[cusip].index, live[cusip].columns[name]);
      ReindexOwn(full[cusip].index, full[cusip].columns[name]);
    } else {
      var dates := live[config.cusip].index;
      forall i | 0 <= i < |fl|
        ensures fl[i] == ff[d..][i]
      {
        assert dates[i] in dates && dates[i] == full[config.cusip].index[d..][i];
        NoLookAhead.OtherCell(full[cusip], live[cusip], dates, name, dates[i]);
      }
    }
  }

  lemma SingleFactorTail(live: Data, full: Data, config: Config, d: nat)
    requires IsTail(live, full, config, d)
    requires SingleFactor(live, config).Ok? && SingleFactor(full, config).Ok?
    ensures d <= |SingleFactor(full, config).value|
    ensures SingleFactor(live, config).value == SingleFactor(full, config).value[d..]
  {
    hide FactorColumn;
    var sub := GetSubstrategies(config)[0];
    if Replaces(full, config, sub) {
      FactorTail(live, full, config, sub, d);
    }
  }

  lemma OhlcTail(live: Product, full: Product, d: nat)
    requires IsTailOf(live, full, d) && live.Valid() && full.Valid()
    requires OhlcOf(full).Some?
    ensures OhlcOf(live).Some? && d <= |OhlcOf(full).value.high|
    ensures Frame([], OhlcOf(live)).ohlc
            == Some(Ohlc(OhlcOf(full).value.high[d..], OhlcOf(full).value.low[d..], OhlcOf(full).value.close[d..]))
  {
  }

  /** The last cell of an output on the tail is the last on the whole. */
  lemma OutputTail(frame: Frame, d: nat, ind: Indicator, f: SignalFunc, w: Window, signal: real, root: Root)
    requires frame.Valid() && Readable(frame, ind) && d < |frame.factor|
    requires NeededBars(ind, w).Some? && NeededBars(ind, w).value <= |frame.factor| - d
    requires ind.Rsi? ==> AllPresent(frame.factor[d..])
    ensures var whole, part := OutputOn(frame, ind, f, w, signal, root), OutputOn(DropBars(frame, d), ind, f, w, signal, root);
            && whole.Ok? && part.Ok?
            && part.value.position[|part.value.position| - 1] == whole.value.position[|frame.factor| - 1]
  {
    hide IndicatorAt;
    IndicatorForgets(frame, ind, w, root, d);
  }

  /**
   With the needed bars loaded, the newest position of one factor is the backtest's, and
   when it is known it is what a live run trades on.
   */
  lemma LiveIsBacktest(live: Data, full: Data, config: Config, params: Params, root: Root, d: nat)
    requires IsTail(live, full, config, d)
    requires SingleOutput(live, config, params, root).Ok? && SingleOutput(full, config, params, root).Ok?
    requires var needed := NeededBars(config.indicator, params.windows[0]);
             needed.Some? && needed.value <= |live[config.cusip].index|
    requires config.indicator.Rsi? ==> AllPresent(SingleFactor(live, config).value)
    ensures var l, b := SingleOutput(live, config, params, root).value.position,
                        SingleOutput(full, config, params, root).value.position;
            && l[|l| - 1] == b[|b| - 1]
            && (l[|l| - 1].Some? ==>
                  LatestFinal(l, live[config.cusip].index) == LatestFinal(b, full[config.cusip].index))
  {
    hide OutputOn, SingleFactor, AllPresent;
    SingleFactorTail(live, full, config, d);
    FactorLength(full, config, GetSubstrategies(config)[0]);
    var frame := Frame(SingleFactor(full, config).value, OhlcOf(full[config.cusip]));
    if frame.ohlc.Some? {
      OhlcTail(live[config.cusip], full[config.cusip], d);
    }
    assert Frame(SingleFactor(live, config).value, OhlcOf(live[config.cusip])) == DropBars(frame, d);
    ReadableWhenOk(frame, config.indicator, config.signalFunc, params.windows[0], params.signals[0], root);
    OutputTail(frame, d, config.indicator, config.signalFunc, params.windows[0], params.signals[0], root);
    var l, b := SingleOutput(live, config, params, root).value.position, SingleOutput(full, config, params, root).value.position;
    if l[|l| - 1].Some? {
      LatestWhenKnown(l, live[config.cusip].index);
      LatestWhenKnown(b, full[config.cusip].index);
    }
  }

  lemma ReadableWhenOk(frame: Frame, ind: Indicator, f: SignalFunc, w: Window, signal: real, root: Root)
    requires frame.Valid() && OutputOn(frame, ind, f, w, signal, root).Ok?
    ensures Readable(frame, ind)
  {
  }

  lemma LatestWhenKnown(position: Column, index: seq<int>)
    requires |position| == |index| && position != [] && position[|position| - 1].Some?
    ensures LatestFinal(position, index) == Some((position[|position| - 1].value, index[|index| - 1]))
  {
  }

  // ── the frame the bar store serves ─────────────────────────────────────

  datatype Field = OpenPx | HighPx | LowPx | ClosePx | Volume

  function Read(bar: Fetcher.Bar, field: Field): real {
    match field
    case OpenPx => bar.open
    case HighPx => bar.high
    case LowPx => bar.low
    case ClosePx => bar.close
    case Volume => bar.volume
  }

  function Cells(bars: seq<Fetcher.Bar>, field: Field): (c: Column)
    ensures |c| == |bars| && AllPresent(c)
    ensures forall i | 0 <= i < |bars| :: c[i] == Some(Read(bars[i], field))
  {
    seq(|bars|, i requires 0 <= i < |bars| => Some(Read(bars[i], field)))
  }

  function Dates(bars: seq<Fetcher.Bar>): (t: seq<int>)
    ensures |t| == |bars| && forall i | 0 <= i < |bars| :: t[i] == bars[i].ts
  {
    seq(|bars|, i requires 0 <= i < |bars| => bars[i].ts)
  }

  /** `_ohlcv_frame`. */
  function OhlcvFrame(bars: seq<Fetcher.Bar>): Product {
    var close := Cells(bars, ClosePx);
    Product(Dates(bars),
            map[Named("price") := close, Named("factor") := close, Named("Open") := Cells(bars, OpenPx),
                Named("High") := Cells(bars, HighPx), Named("Low") := Cells(bars, LowPx),
                Named("Close") := close, Named("Volume") := Cells(bars, Volume)])
  }

  ghost predicate Shows(product: Product, name: string, i: nat, x: real) {
    && Named(name) in product.columns && i < |product.columns[Named(name)]|
    && product.columns[Named(name)][i] == Some(x)
  }

  /** A served bar is in the frame by its date and each of its prices under that price's name. */
  lemma OhlcvMeans(bars: seq<Fetcher.Bar>, i: nat)
    requires i < |bars|
    ensures var p, bar := OhlcvFrame(bars), bars[i];
            && |p.index| == |bars| && p.index[i] == bar.ts
            && Shows(p, "price", i, bar.close) && Shows(p, "factor", i, bar.close)
            && Shows(p, "Open", i, bar.open) && Shows(p, "High", i, bar.high) && Shows(p, "Low", i, bar.low)
            && Shows(p, "Close", i, bar.close) && Shows(p, "Volume", i, bar.volume)
  {
    assert Cells(bars, HighPx)[i] == Some(bars[i].high) && Cells(bars, LowPx)[i] == Some(bars[i].low);
  }

  lemma CellsTail(bars: seq<Fetcher.Bar>, field: Field, d: nat)
    requires d <= |bars|
    ensures Cells(bars[d..], field) == Cells(bars, field)[d..]
  {
  }

  ghost predicate Ordered(bars: seq<Fetcher.Bar>) {
    forall i, j | 0 <= i < j < |bars| :: bars[i].ts < bars[j].ts
  }

  lemma FrameOfTail(bars: seq<Fetcher.Bar>, d: nat)
    requires d < |bars| && Ordered(bars)
    ensures OhlcvFrame(bars).Valid() && OhlcvFrame(bars[d..]).Valid()
    ensures IsTailOf(OhlcvFrame(bars[d..]), OhlcvFrame(bars), d)
  {
    assert Dates(bars[d..]) == Dates(bars)[d..];
    CellsTail(bars, ClosePx, d);
    CellsTail(bars, OpenPx, d);
    CellsTail(bars, HighPx, d);
    CellsTail(bars, LowPx, d);
    CellsTail(bars, Volume, d);
    hide Cells, Dates;
    var part, whole := OhlcvFrame(bars[d..]), OhlcvFrame(bars);
    assert part.columns.Keys == whole.columns.Keys;
  }

  /** On both frames the run is accepted, and ends with the same position at the same date. */
  ghost predicate TradesAlike(part: seq<Fetcher.Bar>, whole: seq<Fetcher.Bar>, config: Config, params: Params, root: Root) {
    var live, full := map[config.cusip := OhlcvFrame(part)], map[config.cusip := OhlcvFrame(whole)];
    && ValidData(live) && ValidData(full)
    && SingleOutput(live, config, params, root).Ok? && SingleOutput(full, config, params, root).Ok?
    && var l, b := SingleOutput(live, config, params, root).value.position, SingleOutput(full, config, params, root).value.position;
       && l != [] && b != [] && l[|l| - 1] == b[|b| - 1]
       && (l[|l| - 1].Some? ==> LatestFinal(l, Dates(part)) == LatestFinal(b, Dates(whole)))
  }

  /**
   Every window `load_window` returns for `live_lookback_bars` is long enough: on the
   newest bars of any longer history of the series, a strategy on the product's own bars
   takes the position that the backtest of the whole history takes, unless its indicator
   is the exponential average.
   */
  lemma LoadedWindowTradesTheBacktest(history: seq<Fetcher.Bar>, d: nat, config: Config, params: Params, root: Root)
    requires d < |history| && Ordered(history)
    requires params.windows != [] && params.signals != [] && !config.indicator.Ema?
    requires 5 * (|history| - d) >= 4 * LiveLookbackBars(params.windows)
    requires SubCusip(config, GetSubstrategies(config)[0]) == config.cusip
    ensures TradesAlike(history[d..], history, config, params, root)
  {
    hide *;
    var live, full := map[config.cusip := OhlcvFrame(history[d..])], map[config.cusip := OhlcvFrame(history)];
    ServedTail(history, d, config);
    OutputServed(history, config, params, root);
    OutputServed(history[d..], config, params, root);
    LiveWindowSuffices(params.windows, config.indicator, params.windows[0]);
    LiveIsBacktest(live, full, config, params, root, d);
    Alike(history[d..], history, config, params, root);
  }

  // ── what load_window returned ──────────────────────────────────────────

  /** Every stored bar of the series through `newest`, oldest first. */
  ghost predicate IsHistory(stored: seq<Fetcher.Bar>, rows: BarStore.Rows, series: BarStore.Series, newest: int) {
    && Ordered(stored)
    && forall b :: b in stored <==>
         b.ts <= newest && BarStore.Stored(rows, series, b.ts) && rows[BarStore.Key(series, b.ts)] == b
  }

  lemma HeadIsMember(bars: seq<Fetcher.Bar>)
    ensures bars != [] ==> bars[0] in bars
  {
  }

  lemma {:induction false} SameMembers(a: seq<Fetcher.Bar>, b: seq<Fetcher.Bar>)
    requires Ordered(a) && Ordered(b) && forall x :: x in a <==> x in b
    ensures a == b
  {
    if a != [] && b != [] {
      assert a[0] in b && b[0] in a;
      assert a[0].ts == b[0].ts;
      forall x
        ensures x in a[1..] <==> x in b[1..]
      {
        assert x in a[1..] <==> x in a && x.ts > a[0].ts;
        assert x in b[1..] <==> x in b && x.ts > b[0].ts;
      }
      SameMembers(a[1..], b[1..]);
      assert a == [a[0]] + a[1..] && b == [b[0]] + b[1..];
    } else {
      HeadIsMember(a);
      HeadIsMember(b);
    }
  }

  /** The bars dated from `lo` on are a suffix. */
  lemma {:induction false} FromIsSuffix(history: seq<Fetcher.Bar>, bars: seq<Fetcher.Bar>, lo: int)
    requires Ordered(history) && Ordered(bars) && forall b :: b in bars <==> b in history && lo <= b.ts
    ensures |bars| <= |history| && bars == history[|history| - |bars|..]
  {
    if history == [] {
      HeadIsMember(bars);
    } else if history[0].ts < lo {
      forall b
        ensures b in bars <==> b in history[1..] && lo <= b.ts
      {
        assert b in history <==> b == history[0] || b in history[1..];
      }
      FromIsSuffix(history[1..], bars, lo);
      assert history[1..][|history| - 1 - |bars|..] == history[|history| - |bars|..];
    } else {
      SameMembers(bars, history);
      assert history[0..] == history;
    }
  }

  /** The window that was read is the newest part of all the series' stored bars. */
  lemma LoadedIsSuffix(stored: seq<Fetcher.Bar>, bars: seq<Fetcher.Bar>, rows: BarStore.Rows, series: BarStore.Series, now: int,
                       count: int, period: int)
    requires period > 0 && IsHistory(stored, rows, series, Intervals.LastClosedBar(now, period))
    requires BarStore.IsWindow(bars, rows, series, now, count, period)
    ensures |bars| <= |stored| && bars == stored[|stored| - |bars|..]
  {
    hide Intervals.LastClosedBar, BarStore.WindowStart;
    FromIsSuffix(stored, bars, BarStore.WindowStart(now, count, period));
  }

  lemma OpenBarComesLast(stored: seq<Fetcher.Bar>, rows: BarStore.Rows, series: BarStore.Series, now: int, period: int,
                         open: Fetcher.Bar)
    requires period > 0 && IsHistory(stored, rows, series, Intervals.LastClosedBar(now, period))
    requires open.ts == Intervals.FloorToPeriod(now, period)
    ensures Ordered(stored + [open])
  {
    hide Intervals.FloorToPeriod;
    forall i | 0 <= i < |stored|
      ensures stored[i].ts < open.ts
    {
      assert stored[i] in stored;
    }
  }

  /** All the stored bars, and the open one where the call asked for it. */
  function WholeHistory(stored: seq<Fetcher.Bar>, loaded: seq<Fetcher.Bar>, includeForming: bool): seq<Fetcher.Bar> {
    if includeForming && loaded != [] then stored + [loaded[|loaded| - 1]] else stored
  }

  lemma LoadedFromHistory(stored: seq<Fetcher.Bar>, rows: BarStore.Rows, series: BarStore.Series, period: int, lookback: int,
                          now: int, venue: BarStore.Venue, includeForming: bool, refreshed: Result<nat, BarStore.BarError>,
                          bars: seq<Fetcher.Bar>)
    requires period > 0 && lookback > 0 && IsHistory(stored, rows, series, Intervals.LastClosedBar(now, period))
    requires BarStore.LoadEnds(rows, series, period, lookback, now, venue, includeForming, refreshed, Ok(bars))
    ensures var history := WholeHistory(stored, bars, includeForming);
            && Ordered(history) && 0 < |bars| <= |history| && bars == history[|history| - |bars|..]
            && 5 * |bars| >= 4 * lookback
  {
    hide IsHistory, Intervals.LastClosedBar, Intervals.FloorToPeriod, BarStore.IsWindow, BarStore.LoadEnds, Ordered;
    LoadedParts(rows, series, period, lookback, now, venue, includeForming, refreshed, bars);
    var closed := if includeForming then bars[..|bars| - 1] else bars;
    LoadedIsSuffix(stored, closed, rows, series, now, if includeForming then lookback - 1 else lookback, period);
    OrderedHistory(stored, rows, series, now, period);
    if includeForming {
      OpenBarComesLast(stored, rows, series, now, period, bars[|bars| - 1]);
      assert bars == closed + [bars[|bars| - 1]];
    }
  }

  lemma LoadedParts(rows: BarStore.Rows, series: BarStore.Series, period: int, lookback: int, now: int, venue: BarStore.Venue,
                    includeForming: bool, refreshed: Result<nat, BarStore.BarError>, bars: seq<Fetcher.Bar>)
    requires period > 0 && lookback > 0
    requires BarStore.LoadEnds(rows, series, period, lookback, now, venue, includeForming, refreshed, Ok(bars))
    ensures 0 < |bars| && 5 * |bars| >= 4 * lookback
    ensures BarStore.IsWindow(if includeForming then bars[..|bars| - 1] else bars, rows, series, now,
                              if includeForming then lookback - 1 else lookback, period)
    ensures includeForming ==> bars[|bars| - 1].ts == Intervals.FloorToPeriod(now, period)
  {
    hide BarStore.WindowKeys, Intervals.FloorToPeriod, BarStore.IsWindow;
  }

  lemma OrderedHistory(stored: seq<Fetcher.Bar>, rows: BarStore.Rows, series: BarStore.Series, now: int, period: int)
    requires period > 0 && IsHistory(stored, rows, series, Intervals.LastClosedBar(now, period))
    ensures Ordered(stored)
  {
  }

  /**
   The position on the bars that `load_window` returned for `live_lookback_bars` is the one
   the backtest takes on every bar the series has, the open one included where the call
   asked for it.
   */
  lemma LoadedSignalIsTheBacktests(stored: seq<Fetcher.Bar>, rows: BarStore.Rows, series: BarStore.Series, period: int, now: int,
                                   venue: BarStore.Venue, includeForming: bool, refreshed: Result<nat, BarStore.BarError>,
                                   bars: seq<Fetcher.Bar>, config: Config, params: Params, root: Root)
    requires period > 0 && params.windows != [] && params.signals != [] && !config.indicator.Ema?
    requires IsHistory(stored, rows, series, Intervals.LastClosedBar(now, period))
    requires BarStore.LoadEnds(rows, series, period, LiveLookbackBars(params.windows), now, venue, includeForming, refreshed,
                               Ok(bars))
    requires SubCusip(config, GetSubstrategies(config)[0]) == config.cusip
    ensures TradesAlike(bars, WholeHistory(stored, bars, includeForming), config, params, root)
  {
    hide *;
    var history := WholeHistory(stored, bars, includeForming);
    PositiveLookback(params.windows);
    LoadedFromHistory(stored, rows, series, period, LiveLookbackBars(params.windows), now, venue, includeForming, refreshed, bars);
    LoadedWindowTradesTheBacktest(history, |history| - |bars|, config, params, root);
  }

  lemma PositiveLookback(windows: seq<Window>)
    requires windows != []
    ensures LiveLookbackBars(windows) > 0
  {
  }

  lemma Alike(part: seq<Fetcher.Bar>, whole: seq<Fetcher.Bar>, config: Config, params: Params, root: Root)
    requires var live, full := map[config.cusip := OhlcvFrame(part)], map[config.cusip := OhlcvFrame(whole)];
             && ValidData(live) && ValidData(full)
             && SingleOutput(live, config, params, root).Ok? && SingleOutput(full, config, params, root).Ok?
             && |SingleOutput(live, config, params, root).value.position| == |part|
             && |SingleOutput(full, config, params, root).value.position| == |whole|
             && var l, b := SingleOutput(live, config, params, root).value.position, SingleOutput(full, config, params, root).value.position;
                && l != [] && b != [] && l[|l| - 1] == b[|b| - 1]
                && (l[|l| - 1].Some? ==> LatestFinal(l, Dates(part)) == LatestFinal(b, Dates(whole)))
    ensures TradesAlike(part, whole, config, params, root)
  {
    hide SingleOutput, OhlcvFrame, LatestFinal;
  }

  /** The frame always has a factor column without gaps, and the prices. */
  lemma SingleFactorServed(bars: seq<Fetcher.Bar>, config: Config)
    requires OhlcvFrame(bars).Valid()
    requires SubCusip(config, GetSubstrategies(config)[0]) == config.cusip
    ensures var data := map[config.cusip := OhlcvFrame(bars)];
            && SingleFactor(data, config).Ok? && AllPresent(SingleFactor(data, config).value)
            && OhlcOf(data[config.cusip]).Some?
  {
    var sub, product := GetSubstrategies(config)[0], OhlcvFrame(bars);
    if Named(sub.dataColumn) in product.columns {
      ReindexOwn(product.index, product.columns[Named(sub.dataColumn)]);
    }
  }

  lemma ServedTail(history: seq<Fetcher.Bar>, d: nat, config: Config)
    requires d < |history| && Ordered(history)
    ensures var live, full := map[config.cusip := OhlcvFrame(history[d..])], map[config.cusip := OhlcvFrame(history)];
            && OhlcvFrame(history).Valid() && OhlcvFrame(history[d..]).Valid()
            && IsTail(live, full, config, d)
            && |live[config.cusip].index| == |history| - d
            && live[config.cusip].index == Dates(history[d..]) && full[config.cusip].index == Dates(history)
  {
    FrameOfTail(history, d);
    hide IsTailOf;
  }

  lemma OutputServed(bars: seq<Fetcher.Bar>, config: Config, params: Params, root: Root)
    requires OhlcvFrame(bars).Valid() && params.windows != [] && params.signals != []
    requires SubCusip(config, GetSubstrategies(config)[0]) == config.cusip
    ensures var data := map[config.cusip := OhlcvFrame(bars)];
            && ValidData(data) && SingleOutput(data, config, params, root).Ok?
            && SingleFactor(data, config).Ok? && AllPresent(SingleFactor(data, config).value)
  {
    SingleFactorServed(bars, config);
    hide SingleFactor, OhlcvFrame, OhlcOf;
  }

  // ── what no window can give ────────────────────────────────────────────

  lemma {:induction false} EqualsCounted(c: Column, k: nat, x: real)
    requires k <= |c| && forall i | 0 <= i < k :: c[i] == Some(x)
    ensures CountPresent(c[..k]) == k && CountAtMost(c[..k], x) == k
  {
    if k > 0 {
      assert c[..k][..k - 1] == c[..k - 1];
      EqualsCounted(c, k - 1, x);
    }
  }

  lemma {:induction false} HighAndZerosCounted(n: nat, k: nat)
    requires k <= n
    ensures var c := Impulse(n)[..k + 1];
            CountPresent(c) == k + 1 && CountAtMost(c, 0.0) == k
  {
    var c := Impulse(n);
    if k == 0 {
      assert c[..1] == [Some(1.0)];
      assert c[..1][..0] == [];
    } else {
      assert c[..k + 1][..k] == c[..k];
      HighAndZerosCounted(n, k - 1);
    }
  }

  lemma TailRank(n: nat)
    requires n >= 2
    ensures ConvictionAt(Impulse(n)[1..], n - 1) == 0.5
  {
    var col := Impulse(n)[1..];
    EqualsCounted(col, n, 0.0);
    assert col[..n] == col;
    assert (n as real) / (n as real) == 1.0;
  }

  lemma WholeRank(n: nat)
    requires n >= 2
    ensures ConvictionAt(Impulse(n), n) < 0.5
  {
    var col := Impulse(n);
    HighAndZerosCounted(n, n);
    assert col[..n + 1] == col;
    hide CountPresent, CountAtMost, Impulse;
    var share := (n as real) / ((n + 1) as real);
    assert share * ((n + 1) as real) == n as real;
    assert 0.0 < share < 1.0;
    assert PercentileAt(col, n) == share;
  }

  /** However many bars are loaded, a percentile rank can differ from the whole history's. */
  lemma RanksNeverForget(n: nat)
    requires n >= 2
    ensures exists col: Column, d: nat ::
              d <= |col| && |col| - d == n && ConvictionAt(col[d..], n - 1) != ConvictionAt(col, |col| - 1)
  {
    hide ConvictionAt, Impulse;
    TailRank(n);
    WholeRank(n);
    var col := Impulse(n);
    assert |col| - 1 == n;
  }

  // ── several factors ────────────────────────────────────────────────────

  /** The deciding factors take both sides, no gate is shut, and, but for OR, none of them is flat. */
  predicate RankDecides(row: seq<real>, conj: Conjunction)
    requires 2 <= |row|
  {
    var signs := Deciding(row, conj);
    && 1 in signs && -1 in signs
    && (!conj.Or? ==> 0 !in signs)
    && (conj.Filter? ==> row[0] != 0.0)
  }

  lemma AgreementNeedsNoRank(row: seq<real>, conj: Conjunction, c: seq<real>, c': seq<real>)
    requires 2 <= |row| == |c| == |c'|
    requires !RankDecides(row, conj)
    ensures CombineRow(row, conj, Some(c)) == CombineRow(row, conj, Some(c'))
  {
    assert conj.Filter? ==> |row| == 2 || |Signs(row)[1..]| == |c[1..]|;
  }

  /** Strengths that put every factor of one side above the rest. */
  function Favouring(row: seq<real>, side: int): (c: seq<real>)
    ensures |c| == |row|
  {
    seq(|row|, i requires 0 <= i < |row| => if Sign(row[i]) == side then 1.0 else 0.0)
  }

  lemma FavouredWins(signs: seq<int>, c: seq<real>, side: int)
    requires 0 < |signs| == |c| && side != 0 && side in signs
    requires forall i | 0 <= i < |signs| :: c[i] == if signs[i] == side then 1.0 else 0.0
    ensures signs[Strongest(signs, c)] == side
  {
    var i :| 0 <= i < |signs| && signs[i] == side;
    assert signs[i] != 0;
  }

  lemma FavouredSide(row: seq<real>, conj: Conjunction, side: int)
    requires 2 <= |row| && RankDecides(row, conj) && (side == 1 || side == -1)
    ensures CombineRow(row, conj, Some(Favouring(row, side))) == side as real
  {
    hide Strongest;
    var signs, c := Deciding(row, conj), Favouring(row, side);
    var weights := if conj.Filter? then c[1..] else c;
    FavouredWins(signs, weights, side);
    match conj
    case And => NotUnanimous(signs);
    case Or =>
    case Filter => NotUnanimous(signs);
  }

  lemma NotUnanimous(signs: seq<int>)
    requires 1 in signs && -1 in signs
    ensures |signs| >= 2
    ensures !(forall i | 0 <= i < |signs| :: signs[i] == 1) && !(forall i | 0 <= i < |signs| :: signs[i] == -1)
  {
    var i :| 0 <= i < |signs| && signs[i] == 1;
    var j :| 0 <= j < |signs| && signs[j] == -1;
  }

  ghost predicate RanksChange(row: seq<real>, conj: Conjunction, c: seq<real>, c': seq<real>)
    requires 2 <= |row| == |c| == |c'|
  {
    CombineRow(row, conj, Some(c)) != CombineRow(row, conj, Some(c'))
  }

  /** Conviction can change a combined position exactly where the deciding factors are in conflict. */
  lemma RanksMatterExactly(row: seq<real>, conj: Conjunction)
    requires 2 <= |row|
    ensures RankDecides(row, conj)
            <==> exists c: seq<real>, c': seq<real> :: |c| == |c'| == |row| && RanksChange(row, conj, c, c')
  {
    hide CombineRow, RankDecides;
    if RankDecides(row, conj) {
      FavouredSide(row, conj, 1);
      FavouredSide(row, conj, -1);
      assert RanksChange(row, conj, Favouring(row, 1), Favouring(row, -1));
    }
    forall c: seq<real>, c': seq<real> | |c| == |c'| == |row| && RanksChange(row, conj, c, c')
      ensures RankDecides(row, conj)
    {
      if !RankDecides(row, conj) {
        AgreementNeedsNoRank(row, conj, c, c');
      }
    }
  }

  /** At bar `i` every factor has a position and their ranks decide. */
  ghost predicate Conflict(positions: seq<Column>, conj: Conjunction, i: nat)
    requires 2 <= |positions| && forall j | 0 <= j < |positions| :: i < |positions[j]|
  {
    var row := RowAt(positions, i);
    AllPresent(row) &&
    var values := seq(|row|, j requires 0 <= j < |row| => if row[j].Some? then row[j].value else 0.0);
    RankDecides(values, conj)
  }

  lemma CombinedTail(l: seq<Column>, b: seq<Column>, ls: seq<Column>, bs: seq<Column>, conj: Conjunction, i: nat, k: nat)
    requires 2 <= |l| == |b| == |ls| == |bs|
    requires forall j | 0 <= j < |l| :: i < |l[j]| && i < |ls[j]| && k < |b[j]| && k < |bs[j]|
    requires forall j | 0 <= j < |l| :: l[j][i] == b[j][k]
    requires !Conflict(l, conj, i)
    ensures CombinedAt(l, conj, Some(ls), i) == CombinedAt(b, conj, Some(bs), k)
  {
    hide CombineRow, Deciding, ConvictionRow;
    assert RowAt(l, i) == RowAt(b, k);
    var row := RowAt(l, i);
    if AllPresent(row) {
      var values := seq(|row|, j requires 0 <= j < |row| => if row[j].Some? then row[j].value else 0.0);
      AgreementNeedsNoRank(values, conj, ConvictionRow(ls, i), ConvictionRow(bs, k));
    }
  }

  /** Factor `i` of several: its last position on the tail is its last on the whole. */
  lemma FactorOutputTail(live: Data, full: Data, config: Config, params: Params, root: Root, d: nat, i: nat)
    requires IsTail(live, full, config, d) && i < |GetSubstrategies(config)|
    requires MultiOutput(live, config, params, root, i).Ok? && MultiOutput(full, config, params, root, i).Ok?
    requires BarsFor(live, config, params, i)
    ensures var l, b := MultiOutput(live, config, params, root, i).value.position,
                        MultiOutput(full, config, params, root, i).value.position;
            l != [] && b != [] && l[|l| - 1] == b[|b| - 1]
  {
    hide OutputOn, FactorColumn, AllPresent;
    var sub := GetSubstrategies(config)[i];
    FactorTail(live, full, config, sub, d);
    FactorLength(full, config, sub);
    FactorLength(live, config, sub);
    var frame := Frame(FactorColumn(full, config, sub).value, None);
    ReadableWhenOk(frame, sub.indicator, sub.signalFunc, params.windows[i], params.signals[i], root);
    assert Frame(FactorColumn(live, config, sub).value, None) == DropBars(frame, d);
    OutputTail(frame, d, sub.indicator, sub.signalFunc, params.windows[i], params.signals[i], root);
  }

  /** The live frame holds the bars that factor `i` needs. */
  ghost predicate BarsFor(live: Data, config: Config, params: Params, i: nat)
    requires ValidData(live) && config.cusip in live && i < |GetSubstrategies(config)|
  {
    var sub := GetSubstrategies(config)[i];
    && i < |params.windows|
    && var needed := NeededBars(sub.indicator, params.windows[i]);
       needed.Some? && needed.value <= |live[config.cusip].index|
       && (sub.indicator.Rsi? && FactorColumn(live, config, sub).Ok? ==> AllPresent(FactorColumn(live, config, sub).value))
  }

  /**
   With several factors, too, the newest position is the backtest's, except at a bar where
   the deciding factors take both sides: only there does a rank over the whole history
   decide.
   */
  lemma LiveIsBacktestUnlessConflict(live: Data, full: Data, config: Config, params: Params, root: Root, d: nat, conj: Conjunction)
    requires IsTail(live, full, config, d) && IsMulti(config) && ParseConjunction(config.conjunction) == Some(conj)
    requires MultiPositions(live, config, params, root).Ok? && MultiPositions(full, config, params, root).Ok?
    requires forall i | 0 <= i < |GetSubstrategies(config)| :: BarsFor(live, config, params, i)
    requires !Conflict(PositionsOf(MultiPositions(live, config, params, root).value.outputs), conj,
                       |live[config.cusip].index| - 1)
    ensures var l, b := MultiPositions(live, config, params, root).value.position,
                        MultiPositions(full, config, params, root).value.position;
            l[|l| - 1] == b[|b| - 1]
  {
    hide MultiOutput, MultiOutputs, CombinedAt, Conflict, BarsFor;
    var i, k := |live[config.cusip].index| - 1, |full[config.cusip].index| - 1;
    var l, b := MultiPositions(live, config, params, root).value.outputs, MultiPositions(full, config, params, root).value.outputs;
    forall j | 0 <= j < |l|
      ensures PositionsOf(l)[j][i] == PositionsOf(b)[j][k]
    {
      FactorOutputTail(live, full, config, params, root, d, j);
    }
    CombinedTail(PositionsOf(l), PositionsOf(b), StrengthsOf(l), StrengthsOf(b), conj, i, k);
  }
}
