/**
 What each indicator's reading is (quant/strategy/indicators.py), by sums, spreads and
 extremes of the bars it reads.
 */
module Readings {
  import opened Outcomes
  import opened Columns
  import opened Indicators
  import opened Statistics

  /** The last `w` bars at bar `i`. */
  function WindowAt(xs: Column, w: Window, i: nat): (part: Column)
    requires w <= i + 1 <= |xs|
    ensures |part| == w && part[w - 1] == xs[i]
  {
    xs[i + 1 - w..i + 1]
  }

  predicate HasWindow(xs: Column, w: Window, i: nat)
    requires i < |xs|
  {
    w <= i + 1 && AllPresent(WindowAt(xs, w, i))
  }

  // ── moving averages ────────────────────────────────────────────────────

  /** The simple average, `w` times over, is the sum of its window. */
  lemma SmaMeans(xs: Column, w: Window, i: nat)
    requires i < |xs|
    ensures MeanAt(xs, w, i).Some? <==> HasWindow(xs, w, i)
    ensures MeanAt(xs, w, i).Some? ==> (w as real) * MeanAt(xs, w, i).value == Total(Known(WindowAt(xs, w, i)))
  {
    if w <= i + 1 {
      PresentIsKnown(WindowAt(xs, w, i));
      SumIsTotal(Known(WindowAt(xs, w, i)));
    }
  }

  /** What is left of a weight of 1 after `bars` bars. */
  function Decayed(alpha: real, bars: nat): real {
    if bars == 0 then 1.0 else Decayed(alpha, bars - 1) * (1.0 - alpha)
  }

  /** `now` is the average of `before` and `x` by the weights of the two. */
  ghost predicate Blended(weight: real, before: real, alpha: real, x: real, now: real) {
    (weight + alpha) * now == weight * before + alpha * x
  }

  /**
   Between two readings with a gap of any length, the exponential average moves to the new
   one by its share of the weights: that of the past has decayed over every bar.
   */
  lemma EmaMeans(xs: Column, w: Window, j: nat, i: nat)
    requires j < i < |xs| && xs[j].Some? && xs[i].Some? && forall k | j < k < i :: xs[k].None?
    ensures var before, now := EmaThrough(xs, w, j).weighted, EmaThrough(xs, w, i).weighted;
            && before.Some? && now.Some?
            && var alpha := 2.0 / (w as real + 1.0);
               Blended(Decayed(alpha, i - j), before.value, alpha, xs[i].value, now.value)
  {
    AlphaIs(w);
    hide *;
    WeightOfOne(xs, w, j);
    EmaWaits(xs, w, j, i - 1);
    EmaThroughStep(xs, w, i);
    DecaysOnce(Smoothing(w), i - 1 - j);
    BlendMeans(EmaThrough(xs, w, i - 1), xs[i].value, w);
  }

  lemma AlphaIs(w: Window)
    ensures Smoothing(w) == 2.0 / (w as real + 1.0)
  {
  }

  lemma DecaysOnce(alpha: real, bars: nat)
    ensures Decayed(alpha, bars + 1) == Faded(Decayed(alpha, bars), alpha)
    ensures Decayed(alpha, 0) == 1.0
  {
  }

  lemma EmaThroughStep(xs: Column, w: Window, i: nat)
    requires 0 < i < |xs|
    ensures EmaThrough(xs, w, i) == EmaStep(EmaThrough(xs, w, i - 1), xs[i], w)
  {
  }

  lemma BlendMeans(past: EmaState, x: real, w: Window)
    requires past.weight >= 0.0 && past.weighted.Some?
    ensures var now := EmaStep(past, Some(x), w).weighted;
            now.Some? && Blended(Faded(past.weight, Smoothing(w)), past.weighted.value, Smoothing(w), x, now.value)
  {
    var alpha := Smoothing(w);
    hide Smoothing;
    BlendOf(Faded(past.weight, alpha), past.weighted.value, alpha, x);
    StepIs(past, x, w);
    hide *;
  }

  lemma StepIs(past: EmaState, x: real, w: Window)
    requires past.weight >= 0.0 && past.weighted.Some?
    ensures var alpha := Smoothing(w);
            && Faded(past.weight, alpha) + alpha != 0.0
            && EmaStep(past, Some(x), w).weighted
               == Some((Times(Faded(past.weight, alpha), past.weighted.value) + Times(alpha, x)) / (Faded(past.weight, alpha) + alpha))
  {
    hide Smoothing, Times, Faded;
  }

  lemma BlendOf(decayed: real, before: real, alpha: real, x: real)
    requires decayed >= 0.0 && alpha > 0.0
    ensures Blended(decayed, before, alpha, x, (Times(decayed, before) + Times(alpha, x)) / (decayed + alpha))
  {
    QuotientOf(decayed * before + alpha * x, decayed + alpha);
  }

  lemma NoBlend(past: EmaState, w: Window)
    requires past.weight >= 0.0 && past.weighted.Some?
    ensures EmaStep(past, None, w) == EmaState(past.weighted, Faded(past.weight, Smoothing(w)))
  {
    hide Smoothing;
  }

  /** A reading takes a weight of 1. */
  lemma WeightOfOne(xs: Column, w: Window, j: nat)
    requires j < |xs| && xs[j].Some?
    ensures EmaThrough(xs, w, j).weighted.Some? && EmaThrough(xs, w, j).weight == 1.0
  {
    if j > 0 {
      NoReadingYet(xs, w, j - 1);
      EmaThroughStep(xs, w, j);
      hide EmaThrough, Smoothing;
    }
  }

  /** Until the first reading the weight stays 1. */
  lemma {:induction false} NoReadingYet(xs: Column, w: Window, j: nat)
    requires j < |xs|
    ensures EmaThrough(xs, w, j).weighted.None? ==> EmaThrough(xs, w, j).weight == 1.0
  {
    if j > 0 {
      NoReadingYet(xs, w, j - 1);
      hide Smoothing;
    }
  }

  lemma {:induction false} EmaWaits(xs: Column, w: Window, j: nat, i: nat)
    requires j <= i < |xs| && EmaThrough(xs, w, j).weighted.Some? && EmaThrough(xs, w, j).weight == 1.0
    requires forall k | j < k <= i :: xs[k].None?
    ensures EmaThrough(xs, w, i).weighted == EmaThrough(xs, w, j).weighted
    ensures EmaThrough(xs, w, i).weight == Decayed(Smoothing(w), i - j)
  {
    hide *;
    if j < i {
      EmaWaits(xs, w, j, i - 1);
      EmaThroughStep(xs, w, i);
      DecaysOnce(Smoothing(w), i - 1 - j);
      NoBlend(EmaThrough(xs, w, i - 1), w);
    } else {
      DecaysOnce(Smoothing(w), 0);
    }
  }

  /** The first reading is its own average, and on two bars without a gap the share is the usual one. */
  lemma EmaOfTwo(xs: Column, w: Window, i: nat)
    requires i < |xs| && xs[i].Some?
    ensures (forall k | 0 <= k < i :: xs[k].None?) ==> EmaThrough(xs, w, i).weighted == xs[i]
    ensures i > 0 && xs[i - 1].Some? ==>
              var before, now := EmaThrough(xs, w, i - 1).weighted, EmaThrough(xs, w, i).weighted;
              && before.Some? && now.Some?
              && (w as real + 1.0) * now.value == 2.0 * xs[i].value + (w as real - 1.0) * before.value
  {
    hide *;
    if i > 0 && xs[i - 1].Some? {
      EmaMeans(xs, w, i - 1, i);
      UsualShare(w as real, EmaThrough(xs, w, i - 1).weighted.value, EmaThrough(xs, w, i).weighted.value, xs[i].value);
    }
    if forall k | 0 <= k < i :: xs[k].None? {
      FirstReading(xs, w, i);
    }
  }

  lemma UsualShare(w: real, before: real, now: real, x: real)
    requires w >= 1.0 && Blended(Decayed(2.0 / (w + 1.0), 1), before, 2.0 / (w + 1.0), x, now)
    ensures (w + 1.0) * now == 2.0 * x + (w - 1.0) * before
  {
    var alpha := 2.0 / (w + 1.0);
    assert Decayed(alpha, 0) == 1.0;
    assert Decayed(alpha, 1) == 1.0 - alpha;
    assert alpha * (w + 1.0) == 2.0;
    assert now == (1.0 - alpha) * before + alpha * x;
    calc {
      (w + 1.0) * now;
      (w + 1.0) * before - (alpha * (w + 1.0)) * before + (alpha * (w + 1.0)) * x;
      (w - 1.0) * before + 2.0 * x;
    }
  }

  lemma {:induction false} FirstReading(xs: Column, w: Window, i: nat)
    requires i < |xs| && forall k | 0 <= k < i :: xs[k].None?
    ensures EmaThrough(xs, w, i).weighted == xs[i]
  {
    if i > 0 {
      FirstReading(xs, w, i - 1);
      hide Smoothing;
    }
  }

  // ── Bollinger ──────────────────────────────────────────────────────────

  /** How far the number is from the mean of the others, in their standard deviations. */
  ghost predicate IsScore(z: real, x: real, ys: seq<real>) {
    var n, far := |ys| as real, Far(x, ys);
    && (z > 0.0 <==> far > 0.0) && (z < 0.0 <==> far < 0.0)
    && Times(Squared(z), Times(n, Spread(ys))) == Times(Squared(far), n - 1.0)
  }

  /** The number as many times over as there are others, less their sum. */
  function Far(x: real, ys: seq<real>): real {
    Times(|ys| as real, x) - Total(ys)
  }

  /** The reading is the bar's score in its window, where the window has a spread. */
  lemma BollingerMeans(xs: Column, w: Window, i: nat, root: Root)
    requires i < |xs| && IsRoot(root)
    ensures BollingerAt(xs, w, i, root).Some?
            <==> w >= 2 && HasWindow(xs, w, i) && Spread(Known(WindowAt(xs, w, i))) > 0.0
    ensures BollingerAt(xs, w, i, root).Some? ==>
              IsScore(BollingerAt(xs, w, i, root).value, xs[i].value, Known(WindowAt(xs, w, i)))
  {
    if w >= 2 && HasWindow(xs, w, i) {
      ScoreInWindow(xs, w, i, root);
    } else {
      NoScore(xs, w, i, root);
    }
  }

  lemma NoScore(xs: Column, w: Window, i: nat, root: Root)
    requires i < |xs| && !(w >= 2 && HasWindow(xs, w, i))
    ensures BollingerAt(xs, w, i, root).None?
  {
    hide SampleStd, Present;
  }

  lemma ScoreInWindow(xs: Column, w: Window, i: nat, root: Root)
    requires i < |xs| && IsRoot(root) && w >= 2 && HasWindow(xs, w, i)
    ensures var ys, z := Known(WindowAt(xs, w, i)), BollingerAt(xs, w, i, root);
            && (z.Some? <==> Spread(ys) > 0.0)
            && (z.Some? ==> IsScore(z.value, xs[i].value, ys))
  {
    hide *;
    WindowKnown(xs, w, i);
    var ys := Known(WindowAt(xs, w, i));
    SmaMeans(xs, w, i);
    StdAtIs(xs, w, i, root);
    SpreadIsPositive(ys);
    StdBySpread(ys, root);
    StdSign(SampleStd(ys, root), ys);
    BollingerIs(xs, w, i, root, MeanAt(xs, w, i).value, SampleStd(ys, root));
    if SampleStd(ys, root) != 0.0 {
      ScoreIs(xs[i].value, MeanAt(xs, w, i).value, SampleStd(ys, root), ys);
    }
  }

  lemma WindowKnown(xs: Column, w: Window, i: nat)
    requires i < |xs| && HasWindow(xs, w, i)
    ensures w <= i + 1 && xs[i].Some? && |Known(WindowAt(xs, w, i))| == w
    ensures Present(WindowAt(xs, w, i)) == Known(WindowAt(xs, w, i))
  {
    KnownOfAll(WindowAt(xs, w, i));
    PresentIsKnown(WindowAt(xs, w, i));
    assert xs[i] == WindowAt(xs, w, i)[w - 1];
  }

  lemma StdSign(std: real, ys: seq<real>)
    requires IsStd(std, ys)
    ensures std == 0.0 <==> Spread(ys) == 0.0
  {
    hide Spread, Squared;
  }

  lemma BollingerIs(xs: Column, w: Window, i: nat, root: Root, mean: real, std: real)
    requires i < |xs| && xs[i].Some? && MeanAt(xs, w, i) == Some(mean) && StdAt(xs, w, i, root) == Some(std)
    ensures BollingerAt(xs, w, i, root) == if std == 0.0 then None else Some((xs[i].value - mean) / std)
  {
    hide MeanAt, StdAt;
  }

  lemma StdAtIs(xs: Column, w: Window, i: nat, root: Root)
    requires i < |xs| && 2 <= w && HasWindow(xs, w, i)
    ensures |Present(WindowAt(xs, w, i))| == w
    ensures StdAt(xs, w, i, root) == Some(SampleStd(Present(WindowAt(xs, w, i)), root))
  {
    KnownOfAll(WindowAt(xs, w, i));
    PresentIsKnown(WindowAt(xs, w, i));
    hide SampleStd;
  }

  lemma ScoreIs(x: real, mean: real, std: real, ys: seq<real>)
    requires |ys| >= 2 && (|ys| as real) * mean == Total(ys) && IsStd(std, ys) && std != 0.0
    ensures IsScore((x - mean) / std, x, ys)
  {
    var n, z := |ys| as real, (x - mean) / std;
    assert z * std == x - mean;
    hide Total, Spread;
    SignOfQuotient(x - mean, std);
    SignOfProducts(n, x - mean);
    FarOfMean(x, mean, n, Total(ys));
    ScoreSquare(z, std, n, Far(x, ys), Spread(ys));
  }

  lemma FarOfMean(x: real, mean: real, n: real, total: real)
    requires n * mean == total
    ensures n * (x - mean) == Times(n, x) - total
  {
  }

  lemma SignOfQuotient(d: real, std: real)
    requires std > 0.0
    ensures (d / std > 0.0 <==> d > 0.0) && (d / std < 0.0 <==> d < 0.0)
  {
    var z := d / std;
    assert z * std == d;
    assert Times(z, std) == d;
    hide Times;
    SignOfProduct(z, std);
  }

  lemma SignOfProducts(n: real, d: real)
    requires n > 0.0
    ensures (n * d > 0.0 <==> d > 0.0) && (n * d < 0.0 <==> d < 0.0)
  {
    assert Times(n, d) == n * d;
    hide Times;
    SignOfProduct(n, d);
  }

  lemma ScoreSquare(z: real, std: real, n: real, far: real, spread: real)
    requires n * (z * std) == far && Squared(std) * (n * (n - 1.0)) == spread
    ensures Times(Squared(z), Times(n, spread)) == Times(Squared(far), n - 1.0)
  {
    var v := Squared(std);
    assert Squared(far) == (n * n) * (Squared(z) * v) by { SquareOfThree(n, z, std); }
    hide Squared;
    assert n * spread == (n * n) * (n - 1.0) * v;
  }

  lemma SquareOfThree(n: real, z: real, std: real)
    ensures Squared(n * (z * std)) == (n * n) * (Squared(z) * Squared(std))
  {
  }

  /** The score fixes the reading. */
  lemma ScoreIsOne(z: real, z': real, x: real, ys: seq<real>)
    requires |ys| >= 2 && Spread(ys) > 0.0 && IsScore(z, x, ys) && IsScore(z', x, ys)
    ensures z == z'
  {
    hide *;
    var v, c := ScoreEquation(z, x, ys);
    var v', c' := ScoreEquation(z', x, ys);
    FromSquares(z, z', v, c);
  }

  lemma ScoreEquation(z: real, x: real, ys: seq<real>) returns (v: real, c: real)
    requires |ys| >= 2 && Spread(ys) > 0.0 && IsScore(z, x, ys)
    ensures v == Times(|ys| as real, Spread(ys)) && c == Times(Squared(Far(x, ys)), |ys| as real - 1.0)
    ensures v > 0.0 && Times(Squared(z), v) == c
    ensures (z > 0.0 <==> Far(x, ys) > 0.0) && (z < 0.0 <==> Far(x, ys) < 0.0)
  {
    hide Spread, Far, Squared, Times;
    SignOfProduct(|ys| as real, Spread(ys));
    v, c := Times(|ys| as real, Spread(ys)), Times(Squared(Far(x, ys)), |ys| as real - 1.0);
  }

  lemma FromSquares(z: real, z': real, v: real, c: real)
    requires v > 0.0 && Times(Squared(z), v) == c && Times(Squared(z'), v) == c
    requires (z > 0.0 <==> z' > 0.0) && (z < 0.0 <==> z' < 0.0)
    ensures z == z'
  {
    SameFactor(Squared(z), Squared(z'), v);
    DifferenceOfSquares(z, z');
    hide Squared, Times;
    SignOfProduct(z - z', z + z');
  }

  lemma SameFactor(a: real, b: real, v: real)
    requires v > 0.0 && Times(a, v) == Times(b, v)
    ensures a == b
  {
    assert Times(a - b, v) == 0.0;
    hide Times;
    SignOfProduct(a - b, v);
  }

  lemma DifferenceOfSquares(a: real, b: real)
    ensures Times(a - b, a + b) == Squared(a) - Squared(b)
  {
  }

  function Affine(scale: real, x: real, shift: real): real {
    scale * x + shift
  }

  /** The column with every reading scaled and shifted. */
  function Moved(xs: Column, scale: real, shift: real): (r: Column)
    ensures |r| == |xs| && forall i | 0 <= i < |xs| :: r[i] == if xs[i].None? then None else Some(Affine(scale, xs[i].value, shift))
  {
    seq(|xs|, i requires 0 <= i < |xs| => if xs[i].None? then None else Some(Affine(scale, xs[i].value, shift)))
  }

  function MovedValues(ys: seq<real>, scale: real, shift: real): (r: seq<real>)
    ensures |r| == |ys| && forall i | 0 <= i < |ys| :: r[i] == Affine(scale, ys[i], shift)
  {
    seq(|ys|, i requires 0 <= i < |ys| => Affine(scale, ys[i], shift))
  }

  lemma TailMoved(ys: seq<real>, scale: real, shift: real)
    requires ys != []
    ensures MovedValues(ys, scale, shift)[0] == Affine(scale, ys[0], shift)
    ensures MovedValues(ys, scale, shift)[1..] == MovedValues(ys[1..], scale, shift)
  {
    hide Affine;
  }

  lemma TotalStep(x: real, total: real, n: real, scale: real, shift: real)
    ensures Affine(scale, x, shift) + (Times(scale, total) + Times(n, shift)) == Times(scale, x + total) + Times(n + 1.0, shift)
  {
  }

  lemma {:induction false} TotalMoved(ys: seq<real>, scale: real, shift: real)
    ensures Total(MovedValues(ys, scale, shift)) == Times(scale, Total(ys)) + Times(|ys| as real, shift)
  {
    if ys == [] {
      assert Times(scale, 0.0) == 0.0 && Times(0.0, shift) == 0.0;
    } else {
      TotalMoved(ys[1..], scale, shift);
      TailMoved(ys, scale, shift);
      assert |ys| as real == |ys[1..]| as real + 1.0;
      TotalStep(ys[0], Total(ys[1..]), |ys[1..]| as real, scale, shift);
      hide MovedValues, Affine, Times;
    }
  }

  lemma SquareMoved(a: real, b: real, scale: real, shift: real)
    ensures Squared(Affine(scale, a, shift) - Affine(scale, b, shift)) == Times(Squared(scale), Squared(a - b))
  {
    assert Affine(scale, a, shift) - Affine(scale, b, shift) == scale * (a - b);
    SquareOfTwo(scale, a - b);
  }

  lemma SquareOfTwo(a: real, b: real)
    ensures Squared(a * b) == Times(Squared(a), Squared(b))
  {
  }

  lemma Distributes(k: real, a: real, b: real)
    ensures Times(k, a) + Times(k, b) == Times(k, a + b) && Times(k, 0.0) == 0.0
  {
  }

  lemma {:induction false} DistancesMoved(ys: seq<real>, from: real, scale: real, shift: real)
    ensures Distances(MovedValues(ys, scale, shift), Affine(scale, from, shift)) == Times(Squared(scale), Distances(ys, from))
  {
    Distributes(Squared(scale), 0.0, 0.0);
    if ys != [] {
      DistancesMoved(ys[1..], from, scale, shift);
      TailMoved(ys, scale, shift);
      SquareMoved(ys[0], from, scale, shift);
      hide Squared, Affine, MovedValues, Times;
      Distributes(Squared(scale), Squared(ys[0] - from), Distances(ys[1..], from));
    }
  }

  lemma {:induction false} SpreadMoved(ys: seq<real>, scale: real, shift: real)
    ensures Spread(MovedValues(ys, scale, shift)) == Times(Squared(scale), Spread(ys))
  {
    Distributes(Squared(scale), 0.0, 0.0);
    if ys != [] {
      SpreadMoved(ys[1..], scale, shift);
      TailMoved(ys, scale, shift);
      DistancesMoved(ys[1..], ys[0], scale, shift);
      hide Squared, Distances, Affine, MovedValues, Times;
      Distributes(Squared(scale), Distances(ys[1..], ys[0]), Spread(ys[1..]));
    }
  }

  /** A score stays what it is when everything is scaled up or down and shifted alike. */
  lemma ScoreMoved(z: real, x: real, ys: seq<real>, scale: real, shift: real)
    requires scale > 0.0 && IsScore(z, x, ys)
    ensures IsScore(z, Affine(scale, x, shift), MovedValues(ys, scale, shift))
  {
    hide *;
    FarIs(x, ys);
    FarIs(Affine(scale, x, shift), MovedValues(ys, scale, shift));
    TotalMoved(ys, scale, shift);
    FarMoved(|ys| as real, x, Total(ys), scale, shift);
    SpreadMoved(ys, scale, shift);
    ScoreScales(z, x, ys, Affine(scale, x, shift), MovedValues(ys, scale, shift), scale);
  }

  lemma FarIs(x: real, ys: seq<real>)
    ensures Far(x, ys) == Times(|ys| as real, x) - Total(ys)
  {
  }

  lemma FarMoved(n: real, x: real, total: real, scale: real, shift: real)
    ensures Times(n, Affine(scale, x, shift)) - (Times(scale, total) + Times(n, shift)) == scale * (Times(n, x) - total)
  {
  }

  lemma ScoreScales(z: real, x: real, ys: seq<real>, x': real, ys': seq<real>, scale: real)
    requires scale > 0.0 && IsScore(z, x, ys) && |ys'| == |ys|
    requires Far(x', ys') == scale * Far(x, ys) && Spread(ys') == Times(Squared(scale), Spread(ys))
    ensures IsScore(z, x', ys')
  {
    hide Far, Spread;
    SquareOfTwo(scale, Far(x, ys));
    SignOfProducts(scale, Far(x, ys));
    hide Squared, Times;
    ScoreScaled(Squared(z), |ys| as real, Spread(ys), Squared(Far(x, ys)), Squared(scale));
  }

  lemma ScoreScaled(zz: real, n: real, spread: real, far: real, scale: real)
    requires Times(zz, Times(n, spread)) == Times(far, n - 1.0)
    ensures Times(zz, Times(n, Times(scale, spread))) == Times(Times(scale, far), n - 1.0)
  {
    assert zz * (n * (scale * spread)) == scale * (zz * (n * spread));
  }

  /** Shifting the whole column, or scaling it by a positive amount, changes no Bollinger reading. */
  lemma BollingerMoved(xs: Column, w: Window, i: nat, root: Root, scale: real, shift: real)
    requires i < |xs| && IsRoot(root) && scale > 0.0
    ensures BollingerAt(Moved(xs, scale, shift), w, i, root) == BollingerAt(xs, w, i, root)
  {
    hide *;
    var moved := Moved(xs, scale, shift);
    BollingerMeans(xs, w, i, root);
    BollingerMeans(moved, w, i, root);
    WindowMovedBack(xs, w, i, scale, shift);
    if w >= 2 && HasWindow(xs, w, i) {
      WindowKnown(xs, w, i);
      WindowMoved(xs, w, i, scale, shift);
      var ys := Known(WindowAt(xs, w, i));
      SpreadMoved(ys, scale, shift);
      SquareSign(scale);
      SignOfProduct(Squared(scale), Spread(ys));
      if Spread(ys) > 0.0 {
        var z, z' := BollingerAt(xs, w, i, root).value, BollingerAt(moved, w, i, root).value;
        ScoreMoved(z, xs[i].value, ys, scale, shift);
        ScoreIsOne(z, z', Affine(scale, xs[i].value, shift), MovedValues(ys, scale, shift));
      }
    }
  }

  lemma WindowMoved(xs: Column, w: Window, i: nat, scale: real, shift: real)
    requires i < |xs| && HasWindow(xs, w, i)
    ensures w <= i + 1
    ensures HasWindow(Moved(xs, scale, shift), w, i) && xs[i].Some?
    ensures Moved(xs, scale, shift)[i] == Some(Affine(scale, xs[i].value, shift))
    ensures Known(WindowAt(Moved(xs, scale, shift), w, i)) == MovedValues(Known(WindowAt(xs, w, i)), scale, shift)
  {
    hide Affine, Known;
    var window, after := WindowAt(xs, w, i), WindowAt(Moved(xs, scale, shift), w, i);
    assert forall j | 0 <= j < w :: after[j] == Some(Affine(scale, window[j].value, shift));
    assert window[w - 1] == xs[i];
    KnownOfAll(window);
    KnownOfAll(after);
    assert Known(after) == MovedValues(Known(window), scale, shift);
  }

  lemma WindowMovedBack(xs: Column, w: Window, i: nat, scale: real, shift: real)
    requires i < |xs|
    ensures HasWindow(Moved(xs, scale, shift), w, i) ==> HasWindow(xs, w, i)
  {
    if HasWindow(Moved(xs, scale, shift), w, i) {
      var window, after := WindowAt(xs, w, i), WindowAt(Moved(xs, scale, shift), w, i);
      assert forall j | 0 <= j < w :: after[j].Some? && (window[j].None? ==> after[j].None?);
    }
  }

  // ── RSI ────────────────────────────────────────────────────────────────

  /** The changes between neighbouring bars that both have a reading. */
  function Changes(xs: Column): seq<real> {
    if |xs| < 2 then []
    else (if xs[0].Some? && xs[1].Some? then [xs[1].value - xs[0].value] else []) + Changes(xs[1..])
  }

  function Rises(ds: seq<real>): (r: real)
    ensures r >= 0.0
  {
    if ds == [] then 0.0 else (if ds[0] > 0.0 then ds[0] else 0.0) + Rises(ds[1..])
  }

  function Falls(ds: seq<real>): (r: real)
    ensures r >= 0.0
  {
    if ds == [] then 0.0 else (if ds[0] < 0.0 then -ds[0] else 0.0) + Falls(ds[1..])
  }

  lemma {:induction false} ChangesAppend(xs: Column, x: Cell)
    requires xs != []
    ensures Changes(xs + [x])
            == Changes(xs) + (if xs[|xs| - 1].Some? && x.Some? then [x.value - xs[|xs| - 1].value] else [])
  {
    assert (xs + [x])[1..] == xs[1..] + [x];
    ChangesStep(xs + [x]);
    if |xs| == 1 {
      assert xs[1..] + [x] == [x];
    } else {
      ChangesStep(xs);
      ChangesAppend(xs[1..], x);
      hide *;
      Associates(FirstChange(xs), Changes(xs[1..]), if xs[|xs| - 1].Some? && x.Some? then [x.value - xs[|xs| - 1].value] else []);
      assert FirstChange(xs + [x]) == FirstChange(xs) by { SameFirst(xs, x); }
    }
  }

  function FirstChange(xs: Column): seq<real>
    requires |xs| >= 2
  {
    if xs[0].Some? && xs[1].Some? then [xs[1].value - xs[0].value] else []
  }

  lemma SameFirst(xs: Column, x: Cell)
    requires |xs| >= 2
    ensures FirstChange(xs + [x]) == FirstChange(xs)
  {
  }

  lemma ChangesStep(xs: Column)
    requires |xs| >= 2
    ensures Changes(xs) == FirstChange(xs) + Changes(xs[1..])
  {
  }

  lemma Associates(a: seq<real>, b: seq<real>, c: seq<real>)
    ensures a + (b + c) == (a + b) + c
  {
  }

  lemma {:induction false} DeltasAreChanges(xs: Column, n: nat)
    requires n <= |xs|
    ensures Deltas(xs, n) == Changes(xs[..n])
  {
    if n == 1 {
      assert Deltas(xs, 0) == [];
    } else if n > 1 {
      DeltasAreChanges(xs, n - 1);
      ChangesAppend(xs[..n - 1], xs[n - 1]);
      assert xs[..n - 1] + [xs[n - 1]] == xs[..n];
    }
  }

  lemma {:induction false} MovesAppend(ds: seq<real>, d: real)
    ensures Rises(ds + [d]) == Rises(ds) + (if d > 0.0 then d else 0.0)
    ensures Falls(ds + [d]) == Falls(ds) + (if d < 0.0 then -d else 0.0)
  {
    if ds == [] {
      assert ds + [d] == [d] && [d][1..] == [];
    } else {
      assert (ds + [d])[1..] == ds[1..] + [d];
      MovesAppend(ds[1..], d);
    }
  }

  lemma {:induction false} MovesAre(ds: seq<real>)
    ensures Moves(ds, 1.0) == Rises(ds) && Moves(ds, -1.0) == Falls(ds)
  {
    if ds != [] {
      var n := |ds| - 1;
      MovesAre(ds[..n]);
      MovesAppend(ds[..n], ds[n]);
      assert ds[..n] + [ds[n]] == ds;
    }
  }

  /** The rises' share of all the moves, out of 100. */
  ghost predicate Shares(r: real, rises: real, falls: real) {
    r * (rises + falls) == 100.0 * rises
  }

  lemma RsiOfMeans(ds: seq<real>)
    requires ds != []
    ensures RsiOf(ds).Some? <==> Rises(ds) + Falls(ds) > 0.0
    ensures RsiOf(ds).Some? ==> Shares(RsiOf(ds).value, Rises(ds), Falls(ds))
  {
    MovesAre(ds);
    var n, rises, falls := |ds| as real, Rises(ds), Falls(ds);
    hide Moves, Rises, Falls;
    PartOf(rises, n);
    PartOf(falls, n);
    if falls != 0.0 {
      RatioOfParts(rises, falls, n);
    } else if rises != 0.0 {
      assert 100.0 * (rises + falls) == 100.0 * rises;
    }
  }

  lemma PartOf(sum: real, n: real)
    requires n > 0.0 && sum >= 0.0
    ensures (sum / n == 0.0 <==> sum == 0.0) && sum / n >= 0.0 && (sum / n) * n == sum
  {
  }

  lemma RatioOfParts(rises: real, falls: real, n: real)
    requires n > 0.0 && rises >= 0.0 && falls > 0.0
    ensures falls / n > 0.0 && 1.0 + (rises / n) / (falls / n) > 0.0
    ensures (100.0 - 100.0 / (1.0 + (rises / n) / (falls / n))) * (rises + falls) == 100.0 * rises
  {
    var up, down := rises / n, falls / n;
    assert up * n == rises && down * n == falls && down > 0.0;
    var rs := up / down;
    assert rs * down == up;
    assert rs >= 0.0;
    assert rs * falls == rises;
    hide *;
    RatioOf(rs, rises, falls);
  }

  lemma RatioOf(rs: real, rises: real, falls: real)
    requires rs >= 0.0 && rs * falls == rises
    ensures 1.0 + rs > 0.0 && (100.0 - 100.0 / (1.0 + rs)) * (rises + falls) == 100.0 * rises
  {
    var q := 100.0 / (1.0 + rs);
    assert q * (1.0 + rs) == 100.0;
    assert rises + falls == (1.0 + rs) * falls;
    calc {
      (100.0 - q) * (rises + falls);
      100.0 * (rises + falls) - (q * (1.0 + rs)) * falls;
      100.0 * rises;
    }
  }

  /** Of the last `w` changes, the share in their sum that the rises have. */
  ghost predicate RsiReading(xs: Column, w: Window, i: nat, cell: Cell)
    requires i < |xs|
  {
    var ds := Changes(xs[..i + 1]);
    if i == 0 || xs[i].None? || xs[i - 1].None? || |ds| < w then cell.None?
    else
      var last := ds[|ds| - w..];
      && (cell.Some? <==> Rises(last) + Falls(last) > 0.0)
      && (cell.Some? ==> Shares(cell.value, Rises(last), Falls(last)))
  }

  lemma RsiMeans(xs: Column, w: Window, i: nat)
    requires i < |xs|
    ensures RsiReading(xs, w, i, RsiAt(xs, w, i))
  {
    DeltasAreChanges(xs, i + 1);
    hide RsiOf, Deltas, Changes, Rises, Falls, Shares;
    var ds := Deltas(xs, i + 1);
    if |ds| >= w {
      var last := ds[|ds| - w..];
      RsiOfMeans(last);
      assert i > 0 && xs[i].Some? && xs[i - 1].Some? ==> RsiAt(xs, w, i) == RsiOf(last);
    }
  }

  // ── stochastic ─────────────────────────────────────────────────────────

  ghost predicate IsHighest(h: real, ys: seq<real>) {
    h in ys && forall y | y in ys :: y <= h
  }

  ghost predicate IsLowest(l: real, ys: seq<real>) {
    l in ys && forall y | y in ys :: l <= y
  }

  lemma {:induction false} ExtremeMeans(ys: seq<real>)
    requires ys != []
    ensures IsHighest(ExtremeOf(ys, true), ys) && IsLowest(ExtremeOf(ys, false), ys)
  {
    if |ys| > 1 {
      var n := |ys| - 1;
      ExtremeMeans(ys[..n]);
      assert ys == ys[..n] + [ys[n]];
    }
  }

  /** The close's distance from the low is so many hundredths of the range. */
  ghost predicate Stands(k: real, close: real, h: real, l: real) {
    k * (h - l) == 100.0 * (close - l)
  }

  /** Where the close stands between the lowest low and the highest high of the window, out of 100. */
  ghost predicate FastReading(bars: Ohlc, w: Window, i: nat, cell: Cell, h: real, l: real)
    requires i < |bars.high| == |bars.low| == |bars.close|
  {
    if !HasWindow(bars.high, w, i) || !HasWindow(bars.low, w, i) || bars.close[i].None? then cell.None?
    else
      && IsHighest(h, Known(WindowAt(bars.high, w, i))) && IsLowest(l, Known(WindowAt(bars.low, w, i)))
      && (cell.Some? <==> h != l)
      && (cell.Some? ==> Stands(cell.value, bars.close[i].value, h, l))
  }

  lemma FastStochasticMeans(bars: Ohlc, w: Window, i: nat) returns (h: real, l: real)
    requires i < |bars.high| == |bars.low| == |bars.close|
    ensures FastReading(bars, w, i, FastStochasticAt(bars, w, i), h, l)
  {
    h, l := 0.0, 0.0;
    ExtremeAtMeans(bars.high, w, i);
    ExtremeAtMeans(bars.low, w, i);
    var high, low := ExtremeAt(bars.high, w, i, true), ExtremeAt(bars.low, w, i, false);
    hide ExtremeAt, HasWindow, Known, WindowAt, IsHighest, IsLowest, Stands;
    if high.Some? && low.Some? && bars.close[i].Some? {
      h, l := high.value, low.value;
      if h != l {
        StandsAt(bars.close[i].value, h, l);
      }
    }
  }

  lemma StandsAt(close: real, h: real, l: real)
    requires h != l
    ensures Stands(100.0 * (close - l) / (h - l), close, h, l)
  {
    QuotientOf(100.0 * (close - l), h - l);
  }

  lemma QuotientOf(a: real, b: real)
    requires b != 0.0
    ensures (a / b) * b == a
  {
  }

  lemma ExtremeAtMeans(xs: Column, w: Window, i: nat)
    requires i < |xs|
    ensures forall highest :: ExtremeAt(xs, w, i, highest).Some? <==> HasWindow(xs, w, i)
    ensures HasWindow(xs, w, i) ==>
              && w <= i + 1
              && IsHighest(ExtremeAt(xs, w, i, true).value, Known(WindowAt(xs, w, i)))
              && IsLowest(ExtremeAt(xs, w, i, false).value, Known(WindowAt(xs, w, i)))
  {
    if HasWindow(xs, w, i) {
      WindowKnown(xs, w, i);
      ExtremeMeans(Known(WindowAt(xs, w, i)));
      hide ExtremeOf, IsHighest, IsLowest, Known, Present;
    }
  }

  // ── every reading of the engine ────────────────────────────────────────

  ghost predicate SmaReading(xs: Column, w: Window, i: nat, cell: Cell)
    requires i < |xs|
  {
    && (cell.Some? <==> HasWindow(xs, w, i))
    && (cell.Some? ==> (w as real) * cell.value == Total(Known(WindowAt(xs, w, i))))
  }

  ghost predicate BollingerReading(xs: Column, w: Window, i: nat, cell: Cell)
    requires i < |xs|
  {
    && (cell.Some? <==> w >= 2 && HasWindow(xs, w, i) && Spread(Known(WindowAt(xs, w, i))) > 0.0)
    && (cell.Some? ==> IsScore(cell.value, xs[i].value, Known(WindowAt(xs, w, i))))
  }

  ghost predicate EmaReading(xs: Column, w: Window, i: nat, cells: Column)
    requires i < |xs| == |cells|
  {
    && ((forall k | 0 <= k <= i :: xs[k].None?) ==> cells[i].None?)
    && (xs[i].Some? && (forall k | 0 <= k < i :: xs[k].None?) ==> cells[i] == xs[i])
    && (i > 0 && xs[i].None? ==> cells[i] == cells[i - 1])
    && (xs[i].Some? ==>
          forall j | 0 <= j < i && xs[j].Some? && (forall k | j < k < i :: xs[k].None?) ::
            && cells[j].Some? && cells[i].Some?
            && Blended(Decayed(2.0 / (w as real + 1.0), i - j), cells[j].value, 2.0 / (w as real + 1.0), xs[i].value, cells[i].value))
  }

  ghost predicate StochasticReading(bars: Ohlc, w: Window, i: nat, cell: Cell)
    requires i < |bars.high| == |bars.low| == |bars.close|
  {
    exists fast: Column :: FastColumn(bars, w, fast) && SmaReading(fast, w, i, cell)
  }

  ghost predicate FastColumn(bars: Ohlc, w: Window, fast: Column)
    requires |bars.high| == |bars.low| == |bars.close|
  {
    |fast| == |bars.close| && forall i: nat | i < |fast| :: IsFast(bars, w, i, fast[i])
  }

  ghost predicate IsFast(bars: Ohlc, w: Window, i: nat, cell: Cell)
    requires i < |bars.high| == |bars.low| == |bars.close|
  {
    exists h, l :: FastReading(bars, w, i, cell, h, l)
  }

  /** What each column of readings holds, whichever indicator it is. */
  ghost predicate IsReadings(frame: Frame, ind: Indicator, w: Window, cells: Column)
    requires frame.Valid() && Readable(frame, ind) && |cells| == |frame.factor|
  {
    forall i: nat | i < |cells| :: IsReading(frame, ind, w, cells, i)
  }

  ghost predicate IsReading(frame: Frame, ind: Indicator, w: Window, cells: Column, i: nat)
    requires frame.Valid() && Readable(frame, ind) && i < |cells| == |frame.factor|
  {
    match ind
    case Sma => SmaReading(frame.factor, w, i, cells[i])
    case Ema => EmaReading(frame.factor, w, i, cells)
    case Rsi => RsiReading(frame.factor, w, i, cells[i])
    case Bollinger => BollingerReading(frame.factor, w, i, cells[i])
    case Stochastic => StochasticReading(frame.ohlc.value, w, i, cells[i])
  }

  lemma ReadingsMean(frame: Frame, ind: Indicator, w: Window, root: Root)
    requires frame.Valid() && Readable(frame, ind) && IsRoot(root)
    ensures IsReadings(frame, ind, w, IndicatorColumn(frame, ind, w, root))
  {
    var cells, xs := IndicatorColumn(frame, ind, w, root), frame.factor;
    hide SmaReading, EmaReading, RsiReading, BollingerReading, StochasticReading, MeanAt, EmaThrough, RsiAt, BollingerAt, FastStochastic, IsRoot;
    forall i: nat | i < |cells|
      ensures IsReading(frame, ind, w, cells, i)
    {
      match ind
      case Sma => SmaIsReading(xs, w, i);
      case Ema => EmaIsReading(xs, w, i, cells);
      case Rsi => RsiMeans(xs, w, i);
      case Bollinger => BollingerIsReading(xs, w, i, root);
      case Stochastic => StochasticIsReading(frame.ohlc.value, w, i);
    }
  }

  lemma SmaIsReading(xs: Column, w: Window, i: nat)
    requires i < |xs|
    ensures SmaReading(xs, w, i, MeanAt(xs, w, i))
  {
    SmaMeans(xs, w, i);
    hide MeanAt;
  }

  lemma BollingerIsReading(xs: Column, w: Window, i: nat, root: Root)
    requires i < |xs| && IsRoot(root)
    ensures BollingerReading(xs, w, i, BollingerAt(xs, w, i, root))
  {
    BollingerMeans(xs, w, i, root);
    hide BollingerAt, IsScore, Spread, Known, HasWindow;
  }

  lemma EmaIsReading(xs: Column, w: Window, i: nat, cells: Column)
    requires i < |xs| == |cells| && forall k: nat | k < |xs| :: cells[k] == EmaThrough(xs, w, k).weighted
    ensures EmaReading(xs, w, i, cells)
  {
    if xs[i].Some? {
      forall j: nat | j < i && xs[j].Some? && (forall k | j < k < i :: xs[k].None?)
        ensures cells[j].Some? && cells[i].Some?
        ensures Blended(Decayed(2.0 / (w as real + 1.0), i - j), cells[j].value, 2.0 / (w as real + 1.0), xs[i].value, cells[i].value)
      {
        EmaMeans(xs, w, j, i);
      }
    } else if i > 0 {
      GapKeeps(xs, w, i);
    }
    if forall k | 0 <= k < i :: xs[k].None? {
      FirstReading(xs, w, i);
    }
    hide EmaThrough, Blended, Decayed;
  }

  lemma GapKeeps(xs: Column, w: Window, i: nat)
    requires 0 < i < |xs| && xs[i].None?
    ensures EmaThrough(xs, w, i).weighted == EmaThrough(xs, w, i - 1).weighted
  {
    hide Smoothing;
  }

  lemma StochasticIsReading(bars: Ohlc, w: Window, i: nat)
    requires i < |bars.high| == |bars.low| == |bars.close|
    ensures StochasticReading(bars, w, i, MeanAt(FastStochastic(bars, w), w, i))
  {
    var fast := FastStochastic(bars, w);
    forall k: nat | k < |fast|
      ensures IsFast(bars, w, k, fast[k])
    {
      var h, l := FastStochasticMeans(bars, w, k);
      assert fast[k] == FastStochasticAt(bars, w, k);
    }
    hide FastReading, IsFast, FastStochastic, FastStochasticAt, SmaReading, MeanAt;
    SmaIsReading(fast, w, i);
    assert FastColumn(bars, w, fast);
  }
}
