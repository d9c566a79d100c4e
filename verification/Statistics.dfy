/**
 Sums and spreads of readings, stated without the engine's own arithmetic.

 The spread of some numbers is the sum of the squared differences of all pairs of them, so
 that it speaks of no mean.
 */
module Statistics {
  import opened Outcomes
  import opened Columns
  import opened Indicators

  /** The present values, in order. */
  function Known(xs: Column): seq<real> {
    if xs == [] then [] else (if xs[0].Some? then [xs[0].value] else []) + Known(xs[1..])
  }

  function Total(xs: seq<real>): real {
    if xs == [] then 0.0 else xs[0] + Total(xs[1..])
  }

  function Squared(x: real): real {
    x * x
  }

  /** The squared distances of the numbers from one. */
  function Distances(xs: seq<real>, from: real): real {
    if xs == [] then 0.0 else Squared(xs[0] - from) + Distances(xs[1..], from)
  }

  /** The squared differences of all pairs. */
  function Spread(xs: seq<real>): real {
    if xs == [] then 0.0 else Distances(xs[1..], xs[0]) + Spread(xs[1..])
  }

  /** The root takes a non-negative number to the non-negative one whose square it is. */
  ghost predicate IsRoot(root: Root) {
    forall v: real | v >= 0.0 :: Roots(root(v), v)
  }

  ghost predicate Roots(r: real, v: real) {
    r >= 0.0 && Squared(r) == v
  }

  // ── the engine's sums are these ────────────────────────────────────────

  lemma {:induction false} KnownAppend(xs: Column, x: Cell)
    ensures Known(xs + [x]) == Known(xs) + (if x.Some? then [x.value] else [])
  {
    if xs == [] {
      assert xs + [x] == [x] && [x][1..] == [];
    } else {
      assert (xs + [x])[1..] == xs[1..] + [x];
      KnownAppend(xs[1..], x);
      var head := if xs[0].Some? then [xs[0].value] else [];
      assert Known(xs + [x]) == head + Known(xs[1..] + [x]);
      hide Known;
      assert head + (Known(xs[1..]) + (if x.Some? then [x.value] else []))
          == (head + Known(xs[1..])) + (if x.Some? then [x.value] else []);
    }
  }

  lemma {:induction false} PresentIsKnown(xs: Column)
    ensures Present(xs) == Known(xs)
  {
    if xs != [] {
      var n := |xs| - 1;
      PresentIsKnown(xs[..n]);
      KnownAppend(xs[..n], xs[n]);
      assert xs[..n] + [xs[n]] == xs;
    }
  }

  lemma {:induction false} KnownOfAll(xs: Column)
    requires AllPresent(xs)
    ensures |Known(xs)| == |xs| && forall i | 0 <= i < |xs| :: Known(xs)[i] == xs[i].value
  {
    if xs != [] {
      KnownOfAll(xs[1..]);
    }
  }

  lemma {:induction false} TotalAppend(xs: seq<real>, x: real)
    ensures Total(xs + [x]) == Total(xs) + x
  {
    if xs == [] {
      assert xs + [x] == [x] && [x][1..] == [];
    } else {
      assert (xs + [x])[1..] == xs[1..] + [x];
      TotalAppend(xs[1..], x);
    }
  }

  lemma {:induction false} SumIsTotal(xs: seq<real>)
    ensures Sum(xs) == Total(xs)
  {
    if xs != [] {
      var n := |xs| - 1;
      SumIsTotal(xs[..n]);
      TotalAppend(xs[..n], xs[n]);
      assert xs[..n] + [xs[n]] == xs;
    }
  }

  lemma {:induction false} DistancesAppend(xs: seq<real>, x: real, from: real)
    ensures Distances(xs + [x], from) == Distances(xs, from) + Squared(x - from)
  {
    if xs == [] {
      assert xs + [x] == [x] && [x][1..] == [];
    } else {
      assert (xs + [x])[1..] == xs[1..] + [x];
      DistancesAppend(xs[1..], x, from);
    }
  }

  lemma {:induction false} DeviationsAreDistances(xs: seq<real>, mean: real)
    ensures SquaredDeviations(xs, mean) == Distances(xs, mean)
  {
    if xs != [] {
      var n := |xs| - 1;
      DeviationsAreDistances(xs[..n], mean);
      DistancesAppend(xs[..n], xs[n], mean);
      assert xs[..n] + [xs[n]] == xs;
    }
  }

  // ── spread and distances from the mean ─────────────────────────────────

  function Squares(xs: seq<real>): real {
    if xs == [] then 0.0 else Squared(xs[0]) + Squares(xs[1..])
  }

  /** The distances from a number, by the sums of the numbers and of their squares. */
  function DistanceForm(k: real, squares: real, total: real, from: real): real {
    squares - 2.0 * (from * total) + k * (from * from)
  }

  function SpreadForm(k: real, squares: real, total: real): real {
    k * squares - total * total
  }

  lemma DistanceStep(x: real, from: real, k: real, q: real, t: real)
    ensures Squared(x - from) + DistanceForm(k, q, t, from) == DistanceForm(k + 1.0, Squared(x) + q, x + t, from)
  {
    assert (x - from) * (x - from) == x * x - 2.0 * (from * x) + from * from;
    assert from * (x + t) == from * x + from * t;
  }

  lemma {:induction false} DistancesBySquares(xs: seq<real>, from: real)
    ensures Distances(xs, from) == DistanceForm(|xs| as real, Squares(xs), Total(xs), from)
  {
    if xs == [] {
      assert DistanceForm(0.0, 0.0, 0.0, from) == 0.0;
    } else {
      hide DistanceForm, Squared;
      DistancesBySquares(xs[1..], from);
      DistanceStep(xs[0], from, |xs[1..]| as real, Squares(xs[1..]), Total(xs[1..]));
      assert |xs[1..]| as real + 1.0 == |xs| as real;
    }
  }

  lemma SpreadStep(x: real, k: real, q: real, t: real)
    ensures DistanceForm(k, q, t, x) + SpreadForm(k, q, t) == SpreadForm(k + 1.0, Squared(x) + q, x + t)
  {
    assert (x + t) * (x + t) == x * x + 2.0 * (x * t) + t * t;
    assert (k + 1.0) * (x * x + q) == k * (x * x) + k * q + x * x + q;
  }

  lemma {:induction false} SpreadBySquares(xs: seq<real>)
    ensures Spread(xs) == SpreadForm(|xs| as real, Squares(xs), Total(xs))
  {
    if xs == [] {
      assert SpreadForm(0.0, 0.0, 0.0) == 0.0;
    } else {
      hide DistanceForm, SpreadForm, Distances, Squared;
      SpreadBySquares(xs[1..]);
      DistancesBySquares(xs[1..], xs[0]);
      SpreadStep(xs[0], |xs[1..]| as real, Squares(xs[1..]), Total(xs[1..]));
      assert |xs[1..]| as real + 1.0 == |xs| as real;
    }
  }

  lemma MeanStep(n: real, q: real, t: real, mean: real)
    requires mean * n == t
    ensures n * DistanceForm(n, q, t, mean) == SpreadForm(n, q, t)
  {
    assert n * (mean * t) == t * t;
    assert n * (n * (mean * mean)) == t * t;
  }

  /** The squared distances from the mean, `n` times over, are the spread. */
  lemma SpreadIsVariance(xs: seq<real>, mean: real)
    requires mean * (|xs| as real) == Total(xs)
    ensures (|xs| as real) * Distances(xs, mean) == Spread(xs)
  {
    DistancesBySquares(xs, mean);
    SpreadBySquares(xs);
    MeanStep(|xs| as real, Squares(xs), Total(xs), mean);
    hide *;
  }

  lemma {:induction false} SpreadIsPositive(xs: seq<real>)
    ensures Spread(xs) >= 0.0
    ensures Spread(xs) == 0.0 <==> forall i, j | 0 <= i < j < |xs| :: xs[i] == xs[j]
  {
    if xs != [] {
      SpreadIsPositive(xs[1..]);
      DistancesArePositive(xs[1..], xs[0]);
      if forall i, j | 0 <= i < j < |xs| :: xs[i] == xs[j] {
        assert forall i | 0 <= i < |xs[1..]| :: xs[1..][i] == xs[i + 1] == xs[0];
      }
      if Spread(xs) == 0.0 {
        forall i, j | 0 <= i < j < |xs|
          ensures xs[i] == xs[j]
        {
          assert xs[j] == xs[1..][j - 1] && (i > 0 ==> xs[i] == xs[1..][i - 1]);
        }
      }
    }
  }

  lemma {:induction false} DistancesArePositive(xs: seq<real>, from: real)
    ensures Distances(xs, from) >= 0.0
    ensures Distances(xs, from) == 0.0 <==> forall i | 0 <= i < |xs| :: xs[i] == from
  {
    if xs != [] {
      DistancesArePositive(xs[1..], from);
      SquareSign(xs[0] - from);
      assert forall i | 0 < i < |xs| :: xs[i] == xs[1..][i - 1];
    }
  }

  lemma SignOfProduct(a: real, b: real)
    ensures (a > 0.0 && b > 0.0) || (a < 0.0 && b < 0.0) ==> Times(a, b) > 0.0
    ensures (a > 0.0 && b < 0.0) || (a < 0.0 && b > 0.0) ==> Times(a, b) < 0.0
    ensures a == 0.0 || b == 0.0 ==> Times(a, b) == 0.0
  {
  }

  lemma SquareSign(d: real)
    ensures Squared(d) >= 0.0 && (Squared(d) == 0.0 <==> d == 0.0)
  {
    assert Squared(d) == Times(d, d);
    hide Squared, Times;
    SignOfProduct(d, d);
  }

  /** The sample standard deviation of the numbers, by their spread. */
  ghost predicate IsStd(std: real, xs: seq<real>) {
    var n := |xs| as real;
    && std >= 0.0 && Squared(std) * (n * (n - 1.0)) == Spread(xs)
    && (std == 0.0 <==> Spread(xs) == 0.0)
  }

  lemma StdBySpread(xs: seq<real>, root: Root)
    requires |xs| >= 2 && IsRoot(root)
    ensures IsStd(SampleStd(xs, root), xs)
  {
    hide *;
    var mean := MeanOfTotal(xs);
    DeviationsAreDistances(xs, mean);
    StdIs(xs, root, mean);
    SpreadStd(xs, mean, root);
  }

  lemma MeanOfTotal(xs: seq<real>) returns (mean: real)
    requires xs != []
    ensures mean == Sum(xs) / (|xs| as real) && mean * (|xs| as real) == Total(xs)
  {
    SumIsTotal(xs);
    mean := Sum(xs) / (|xs| as real);
  }

  lemma StdIs(xs: seq<real>, root: Root, mean: real)
    requires |xs| >= 2 && mean == Sum(xs) / (|xs| as real)
    ensures SampleStd(xs, root) == root(SquaredDeviations(xs, mean) / ((|xs| as real) - 1.0))
  {
    assert (|xs| - 1) as real == (|xs| as real) - 1.0;
  }

  lemma SpreadStd(xs: seq<real>, mean: real, root: Root)
    requires |xs| >= 2 && IsRoot(root) && mean * (|xs| as real) == Total(xs)
    ensures IsStd(root(Distances(xs, mean) / ((|xs| as real) - 1.0)), xs)
  {
    hide Distances, Spread, Squared, IsRoot;
    SpreadIsVariance(xs, mean);
    DistancesArePositive(xs, mean);
    VarianceRoot(|xs| as real, Distances(xs, mean), root);
  }

  lemma VarianceRoot(n: real, d: real, root: Root)
    requires n >= 2.0 && d >= 0.0 && IsRoot(root)
    ensures var std := root(d / (n - 1.0));
            std >= 0.0 && Squared(std) * (n * (n - 1.0)) == n * d && (std == 0.0 <==> n * d == 0.0)
  {
    var v := d / (n - 1.0);
    assert v >= 0.0 && v * (n - 1.0) == d;
    assert Roots(root(v), v);
    var std := root(v);
    SquareSign(std);
    hide Squared;
    assert Squared(std) * (n * (n - 1.0)) == n * (v * (n - 1.0));
    assert v == 0.0 <==> d == 0.0;
    assert n * d == 0.0 <==> d == 0.0;
  }
}
