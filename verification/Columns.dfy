/**
 Columns of numbers with gaps.

 A missing cell is the NaN of the source; arithmetic on it is missing, and every
 comparison with it is false. Present cells are exact reals.
 */
module Columns {
  import opened Outcomes

  type Cell = Option<real>

  type Column = seq<Cell>

  predicate AllPresent(xs: Column) {
    forall i | 0 <= i < |xs| :: xs[i].Some?
  }

  /** The present values, in order. */
  function Present(xs: Column): seq<real> {
    if xs == [] then []
    else Present(xs[..|xs| - 1]) + (if xs[|xs| - 1].Some? then [xs[|xs| - 1].value] else [])
  }

  function Sum(xs: seq<real>): real {
    if xs == [] then 0.0 else Sum(xs[..|xs| - 1]) + xs[|xs| - 1]
  }

  function Max(a: real, b: real): real {
    if a < b then b else a
  }

  function Min(a: real, b: real): real {
    if a < b then a else b
  }

  function Abs(a: real): real {
    if a < 0.0 then -a else a
  }

  /** Two columns hold the same first `n` cells. */
  ghost predicate Agree(a: Column, b: Column, n: nat) {
    n <= |a| && n <= |b| && a[..n] == b[..n]
  }

  lemma AgreeAt(a: Column, b: Column, n: nat, i: nat)
    requires Agree(a, b, n) && i < n
    ensures a[i] == b[i]
  {
    assert a[i] == a[..n][i] && b[i] == b[..n][i];
  }

  lemma AgreeFrom(a: Column, b: Column, n: nat)
    requires n <= |a| && n <= |b| && forall i | 0 <= i < n :: a[i] == b[i]
    ensures Agree(a, b, n)
  {
  }

  lemma AgreeSlice(a: Column, b: Column, n: nat, lo: nat, hi: nat)
    requires Agree(a, b, n) && lo <= hi <= n
    ensures a[lo..hi] == b[lo..hi]
  {
    forall i | lo <= i < hi
      ensures a[i] == b[i]
    {
      AgreeAt(a, b, n, i);
    }
  }
}
