/**
 Positions from indicators, and one position from several (quant/strategy/signals.py).
 */
module Signals {
  import opened Outcomes
  import opened Columns

  // ── thresholds ─────────────────────────────────────────────────────────

  datatype Direction = Momentum | Reversion

  datatype SignalFunc = SignalFunc(direction: Direction, bounded: bool, longOnly: bool)

  /** Below this reading the signal is the opposite of the one above `signal`. */
  function LowerThreshold(f: SignalFunc, signal: real): real {
    if f.bounded then 100.0 - signal else -signal
  }

  function PositionOf(f: SignalFunc, x: real, signal: real): real {
    var lower := LowerThreshold(f, signal);
    var position := match f.direction
      case Momentum => if x > signal then 1.0 else if x < lower then -1.0 else 0.0
      case Reversion => if x < lower then 1.0 else if x > signal then -1.0 else 0.0;
    if f.longOnly && position < 0.0 then 0.0 else position
  }

  function PositionColumn(f: SignalFunc, indicator: Column, signal: real): (p: Column)
    ensures |p| == |indicator|
  {
    seq(|indicator|, i requires 0 <= i < |indicator| =>
      if indicator[i].None? then None else Some(PositionOf(f, indicator[i].value, signal)))
  }

  /**
   Reversion takes the other side of momentum on a reading unless the thresholds cross
   there, when both go long.
   */
  lemma ReversionOpposesMomentum(x: real, signal: real, bounded: bool)
    ensures var momentum := PositionOf(SignalFunc(Momentum, bounded, false), x, signal);
            var reversion := PositionOf(SignalFunc(Reversion, bounded, false), x, signal);
            reversion == -momentum
            <==> !(signal < x < LowerThreshold(SignalFunc(Momentum, bounded, false), signal))
  {
  }

  /** Momentum never falls as the reading rises, and reversion never rises, unless the thresholds cross. */
  lemma SignalsFollowTheReading(f: SignalFunc, x: real, y: real, signal: real)
    requires x <= y && LowerThreshold(f, signal) <= signal
    ensures f.direction.Momentum? ==> PositionOf(f, x, signal) <= PositionOf(f, y, signal)
    ensures f.direction.Reversion? ==> PositionOf(f, x, signal) >= PositionOf(f, y, signal)
    ensures x > signal ==> PositionOf(f, x, signal) == if f.direction.Momentum? then 1.0 else if f.longOnly then 0.0 else -1.0
    ensures PositionOf(f, x, signal) == Max(PositionOf(f.(longOnly := false), x, signal), if f.longOnly then 0.0 else -1.0)
  {
  }

  lemma PositionCausal(f: SignalFunc, a: Column, b: Column, signal: real, n: nat)
    requires Agree(a, b, n)
    ensures Agree(PositionColumn(f, a, signal), PositionColumn(f, b, signal), n)
  {
    forall i | 0 <= i < n
      ensures PositionColumn(f, a, signal)[i] == PositionColumn(f, b, signal)[i]
    {
      AgreeAt(a, b, n, i);
    }
    AgreeFrom(PositionColumn(f, a, signal), PositionColumn(f, b, signal), n);
  }

  // ── conviction ─────────────────────────────────────────────────────────

  predicate Sorted(s: seq<real>) {
    forall i, j | 0 <= i < j < |s| :: s[i] <= s[j]
  }

  /** Python's `bisect_right` on a sorted list. */
  function BisectRight(s: seq<real>, x: real): (p: nat)
    ensures p <= |s|
  {
    if s == [] || x < s[0] then 0 else 1 + BisectRight(s[1..], x)
  }

  /** Python's `insort`. */
  function Insort(s: seq<real>, x: real): seq<real> {
    var p := BisectRight(s, x);
    s[..p] + [x] + s[p..]
  }

  function CountPresent(xs: Column): nat {
    if xs == [] then 0
    else CountPresent(xs[..|xs| - 1]) + (if xs[|xs| - 1].Some? then 1 else 0)
  }

  /** How many of the readings are present and at most `x`. */
  function CountAtMost(xs: Column, x: real): nat {
    if xs == [] then 0
    else
      var last := xs[|xs| - 1];
      CountAtMost(xs[..|xs| - 1], x) + (if last.Some? && last.value <= x then 1 else 0)
  }

  /** The share of the readings so far that the reading at bar `i` is at least. */
  function PercentileAt(col: Column, i: nat): real
    requires i < |col|
  {
    var seen := CountPresent(col[..i + 1]);
    if col[i].None? || seen <= 1 then 0.5
    else (CountAtMost(col[..i + 1], col[i].value) as real) / (seen as real)
  }

  function ConvictionAt(col: Column, i: nat): real
    requires i < |col|
  {
    Abs(PercentileAt(col, i) - 0.5)
  }

  function CountLe(s: seq<real>, x: real): nat {
    if s == [] then 0 else (if s[0] <= x then 1 else 0) + CountLe(s[1..], x)
  }

  lemma {:induction false} BisectCounts(s: seq<real>, x: real)
    requires Sorted(s)
    ensures BisectRight(s, x) == CountLe(s, x)
    ensures forall j | 0 <= j < BisectRight(s, x) :: s[j] <= x
    ensures forall j | BisectRight(s, x) <= j < |s| :: x < s[j]
  {
    if s != [] {
      if x < s[0] {
        NoneLe(s, x);
      } else {
        BisectCounts(s[1..], x);
      }
    }
  }

  lemma {:induction false} NoneLe(s: seq<real>, x: real)
    requires forall j | 0 <= j < |s| :: x < s[j]
    ensures CountLe(s, x) == 0
  {
    if s != [] {
      NoneLe(s[1..], x);
    }
  }

  lemma {:induction false} CountLeAppend(a: seq<real>, b: seq<real>, x: real)
    ensures CountLe(a + b, x) == CountLe(a, x) + CountLe(b, x)
  {
    if a == [] {
      assert a + b == b;
    } else {
      assert (a + b)[1..] == a[1..] + b;
      CountLeAppend(a[1..], b, x);
    }
  }

  lemma InsortSorted(s: seq<real>, x: real)
    requires Sorted(s)
    ensures Sorted(Insort(s, x))
  {
    BisectCounts(s, x);
  }

  lemma InsortCounts(s: seq<real>, x: real, u: real)
    ensures CountLe(Insort(s, x), u) == CountLe(s, u) + (if x <= u then 1 else 0)
  {
    var p := BisectRight(s, x);
    CountLeAppend(s[..p] + [x], s[p..], u);
    CountLeAppend(s[..p], [x], u);
    CountLeAppend(s[..p], s[p..], u);
    assert s == s[..p] + s[p..];
  }

  /** `seen` is a sorted permutation of the readings of `col`. */
  ghost predicate Ranks(seen: seq<real>, col: Column) {
    && Sorted(seen)
    && multiset(seen) == multiset(Present(col))
    && |seen| == CountPresent(col)
    && forall u :: CountLe(seen, u) == CountAtMost(col, u)
  }

  lemma InsortMembers(seen: seq<real>, x: real)
    ensures multiset(Insort(seen, x)) == multiset(seen) + multiset{x}
    ensures |Insort(seen, x)| == |seen| + 1
  {
    var p := BisectRight(seen, x);
    assert seen == seen[..p] + seen[p..];
  }

  lemma CountsStep(seen: seq<real>, col: Column, i: nat, u: real)
    requires i < |col| && CountLe(seen, u) == CountAtMost(col[..i], u)
    ensures CountLe(if col[i].None? then seen else Insort(seen, col[i].value), u) == CountAtMost(col[..i + 1], u)
  {
    hide Insort, CountLe, BisectRight;
    assert col[..i + 1][..i] == col[..i];
    if col[i].Some? {
      InsortCounts(seen, col[i].value, u);
    }
  }

  lemma RanksStep(seen: seq<real>, col: Column, i: nat)
    requires i < |col| && Ranks(seen, col[..i])
    ensures Ranks(if col[i].None? then seen else Insort(seen, col[i].value), col[..i + 1])
  {
    hide Sorted, Insort, CountLe, CountAtMost, BisectRight;
    assert col[..i + 1][..i] == col[..i];
    var ranked := if col[i].None? then seen else Insort(seen, col[i].value);
    forall u
      ensures CountLe(ranked, u) == CountAtMost(col[..i + 1], u)
    {
      CountsStep(seen, col, i, u);
    }
    if col[i].Some? {
      InsortSorted(seen, col[i].value);
      InsortMembers(seen, col[i].value);
    }
  }

  lemma RanksRead(seen: seq<real>, col: Column, i: nat)
    requires i < |col| && col[i].Some? && Ranks(seen, col[..i + 1]) && |seen| > 1
    ensures PercentileAt(col, i) == (BisectRight(seen, col[i].value) as real) / (|seen| as real)
  {
    BisectCounts(seen, col[i].value);
  }

  /** The first `n` entries are ranked, and the rest still hold the median. */
  ghost predicate RankedThrough(pctile: seq<real>, col: Column, n: nat) {
    && n <= |col| == |pctile|
    && (forall j | 0 <= j < n :: pctile[j] == PercentileAt(col, j))
    && forall j | n <= j < |col| :: pctile[j] == 0.5
  }

  lemma RankOne(pctile: seq<real>, seen: seq<real>, col: Column, i: nat)
    requires i < |col| && RankedThrough(pctile, col, i) && Ranks(seen, col[..i + 1])
    ensures col[i].Some? && |seen| > 1 ==>
              RankedThrough(pctile[i := (BisectRight(seen, col[i].value) as real) / (|seen| as real)], col, i + 1)
    ensures !(col[i].Some? && |seen| > 1) ==> RankedThrough(pctile, col, i + 1)
  {
    hide Sorted, BisectRight, CountLe, CountPresent, CountAtMost, Present;
    if col[i].Some? && |seen| > 1 {
      RanksRead(seen, col, i);
    } else {
      assert PercentileAt(col, i) == 0.5;
    }
  }

  /**
   One column of `_conviction`: the readings seen so far are kept in a sorted list, and
   each is ranked against it as it arrives.
   */
  method Conviction(col: Column) returns (conviction: seq<real>)
    ensures |conviction| == |col|
    ensures forall i | 0 <= i < |col| :: conviction[i] == ConvictionAt(col, i)
  {
    hide Sorted, Insort, BisectRight, CountPresent, CountAtMost, CountLe, Present, PercentileAt, Ranks, RankedThrough;
    var pctile := new real[|col|](_ => 0.5);
    var seen: seq<real> := [];
    StartRanks(pctile[..], col);
    for i := 0 to |col|
      invariant Ranks(seen, col[..i])
      invariant RankedThrough(pctile[..], col, i)
    {
      RanksStep(seen, col, i);
      if col[i].None? {
        RankOne(pctile[..], seen, col, i);
        continue;
      }
      var value := col[i].value;
      seen := Insort(seen, value);
      RankOne(pctile[..], seen, col, i);
      if |seen| <= 1 {
        continue;
      }
      ghost var before := pctile[..];
      var share := (BisectRight(seen, value) as real) / (|seen| as real);
      pctile[i] := share;
      assert pctile[..] == before[i := share];
    }
    conviction := seq(pctile.Length, i requires 0 <= i < pctile.Length reads pctile => Abs(pctile[i] - 0.5));
    ReadRanks(pctile[..], col);
  }

  lemma StartRanks(pctile: seq<real>, col: Column)
    requires |pctile| == |col| && forall j | 0 <= j < |col| :: pctile[j] == 0.5
    ensures Ranks([], col[..0]) && RankedThrough(pctile, col, 0)
  {
  }

  lemma ReadRanks(pctile: seq<real>, col: Column)
    requires RankedThrough(pctile, col, |col|)
    ensures |pctile| == |col| && forall j | 0 <= j < |col| :: pctile[j] == PercentileAt(col, j)
  {
  }

  lemma ConvictionCausal(a: Column, b: Column, n: nat, i: nat)
    requires Agree(a, b, n) && i < n
    ensures ConvictionAt(a, i) == ConvictionAt(b, i)
  {
    AgreeAt(a, b, n, i);
    AgreeSlice(a, b, n, 0, i + 1);
  }

  // ── one bar's positions combined ───────────────────────────────────────

  datatype Conjunction = And | Or | Filter

  function Sign(x: real): int {
    if x > 0.0 then 1 else if x < 0.0 then -1 else 0
  }

  function Signs(row: seq<real>): (s: seq<int>)
    ensures |s| == |row| && forall i | 0 <= i < |row| :: s[i] == Sign(row[i])
  {
    seq(|row|, i requires 0 <= i < |row| => Sign(row[i]))
  }

  /** The first of the non-flat factors with the highest conviction; 0 when all are flat. */
  function Strongest(signs: seq<int>, conviction: seq<real>): (winner: nat)
    requires 0 < |signs| == |conviction|
    ensures winner < |signs|
    ensures (exists i :: 0 <= i < |signs| && signs[i] != 0) ==>
              && signs[winner] != 0
              && (forall i | 0 <= i < |signs| && signs[i] != 0 :: conviction[i] <= conviction[winner])
              && forall i | 0 <= i < winner && signs[i] != 0 :: conviction[i] < conviction[winner]
  {
    var n := |signs| - 1;
    if n == 0 then 0
    else
      var before := Strongest(signs[..n], conviction[..n]);
      assert forall i | 0 <= i < n :: signs[..n][i] == signs[i] && conviction[..n][i] == conviction[i];
      if signs[n] != 0 && (signs[before] == 0 || conviction[before] < conviction[n]) then n else before
  }

  function CombineAnd(signs: seq<int>, conviction: Option<seq<real>>): int
    requires 0 < |signs| && (conviction.Some? ==> |conviction.value| == |signs|)
  {
    if forall i | 0 <= i < |signs| :: signs[i] == 1 then 1
    else if forall i | 0 <= i < |signs| :: signs[i] == -1 then -1
    else if conviction.Some? && 1 in signs && -1 in signs && 0 !in signs
    then signs[Strongest(signs, conviction.value)]
    else 0
  }

  function CombineOr(signs: seq<int>, conviction: Option<seq<real>>): int
    requires 0 < |signs| && (conviction.Some? ==> |conviction.value| == |signs|)
  {
    if 1 in signs && -1 in signs
    then if conviction.Some? then signs[Strongest(signs, conviction.value)] else 1
    else if 1 in signs then 1
    else if -1 in signs then -1
    else 0
  }

  /** The first factor is a gate on the rest, and its own conviction plays no part. */
  function CombineFilter(row: seq<real>, conviction: Option<seq<real>>): real
    requires 2 <= |row| && (conviction.Some? ==> |conviction.value| == |row|)
  {
    if Sign(row[0]) == 0 then 0.0
    else if |row| == 2 then row[1]
    else
      CombineAnd(Signs(row)[1..],
                 if conviction.None? then None else Some(conviction.value[1..])) as real
  }

  function CombineRow(row: seq<real>, conj: Conjunction, conviction: Option<seq<real>>): real
    requires 2 <= |row| && (conviction.Some? ==> |conviction.value| == |row|)
  {
    match conj
    case And => CombineAnd(Signs(row), conviction) as real
    case Or => CombineOr(Signs(row), conviction) as real
    case Filter => CombineFilter(row, conviction)
  }

  ghost predicate IsPosition(x: real) {
    x == -1.0 || x == 0.0 || x == 1.0
  }

  /** The factors whose positions decide the direction. */
  function Deciding(row: seq<real>, conj: Conjunction): seq<int>
    requires 2 <= |row|
  {
    if conj.Filter? then Signs(row)[1..] else Signs(row)
  }

  ghost predicate Unanimous(signs: seq<int>) {
    (forall i | 0 <= i < |signs| :: signs[i] == 1) || (forall i | 0 <= i < |signs| :: signs[i] == -1)
  }

  /**
   What a combined position says: OR takes one exactly when some factor does; AND and
   FILTER exactly when the gate is open and no factor that decides is flat, and, without
   strengths, all of them agree. The side is always one that a deciding factor took.
   */
  lemma CombinedPosition(row: seq<real>, conj: Conjunction, conviction: Option<seq<real>>)
    requires 2 <= |row| && (conviction.Some? ==> |conviction.value| == |row|)
    requires forall i | 0 <= i < |row| :: IsPosition(row[i])
    ensures var r := CombineRow(row, conj, conviction);
            var signs := Deciding(row, conj);
            && IsPosition(r)
            && (r != 0.0 ==> Sign(r) in signs)
            && (r != 0.0 <==>
                  match conj
                  case Or => exists i :: 0 <= i < |signs| && signs[i] != 0
                  case And => 0 !in signs && (conviction.Some? || Unanimous(signs))
                  case Filter => row[0] != 0.0 && 0 !in signs && (conviction.Some? || Unanimous(signs)))
  {
    var signs := Deciding(row, conj);
    assert forall i | 0 <= i < |signs| :: signs[i] == -1 || signs[i] == 0 || signs[i] == 1;
    assert signs[0] in signs;
    if conj.Filter? {
      assert |row| == 2 ==> signs == [Sign(row[1])];
    }
  }

  /** The factor has the highest conviction of those that are not flat. */
  ghost predicate MostConvicted(signs: seq<int>, conviction: seq<real>, i: int)
    requires |signs| == |conviction|
  {
    0 <= i < |signs| && signs[i] != 0 && forall j | 0 <= j < |signs| && signs[j] != 0 :: conviction[j] <= conviction[i]
  }

  /** With strengths, a conflict goes to the side of a most convicted factor; OR without them goes long. */
  lemma ConflictGoesToStrongest(row: seq<real>, conj: Conjunction, conviction: Option<seq<real>>)
    requires 2 <= |row| && (conviction.Some? ==> |conviction.value| == |row|)
    requires 1 in Deciding(row, conj) && -1 in Deciding(row, conj) && CombineRow(row, conj, conviction) != 0.0
    requires conj.Filter? ==> |row| > 2
    ensures conviction.None? ==> CombineRow(row, conj, conviction) == 1.0
    ensures conviction.Some? ==>
              var signs := Deciding(row, conj);
              var weights := if conj.Filter? then conviction.value[1..] else conviction.value;
              exists i :: MostConvicted(signs, weights, i) && Sign(CombineRow(row, conj, conviction)) == signs[i]
  {
    var signs := Deciding(row, conj);
    var i :| 0 <= i < |signs| && signs[i] == 1;
    if conviction.Some? {
      var weights := if conj.Filter? then conviction.value[1..] else conviction.value;
      var winner := Strongest(signs, weights);
      assert signs[i] != 0;
      assert MostConvicted(signs, weights, winner);
      var k := if conj.Filter? then winner + 1 else winner;
      assert signs[winner] == Sign(row[k]);
    }
  }

  function Negated(row: seq<real>): (r: seq<real>)
    ensures |r| == |row| && forall i | 0 <= i < |row| :: r[i] == -row[i]
  {
    seq(|row|, i requires 0 <= i < |row| => -row[i])
  }

  lemma {:induction false} StrongestOfNegated(signs: seq<int>, flipped: seq<int>, conviction: seq<real>)
    requires 0 < |signs| == |flipped| == |conviction|
    requires forall i | 0 <= i < |signs| :: flipped[i] == -signs[i]
    ensures Strongest(flipped, conviction) == Strongest(signs, conviction)
  {
    var n := |signs| - 1;
    if n > 0 {
      StrongestOfNegated(signs[..n], flipped[..n], conviction[..n]);
    }
  }

  /**
   Long and short are treated alike, with one exception: OR without strengths resolves a
   conflict to long, so turning every position round does not turn that bar round. A
   FILTER's gate is open either way.
   */
  lemma LongAndShortAlike(row: seq<real>, conj: Conjunction, conviction: Option<seq<real>>)
    requires 2 <= |row| && (conviction.Some? ==> |conviction.value| == |row|)
    ensures CombineRow(Negated(row), conj, conviction) == -CombineRow(row, conj, conviction)
            <==> !(conj.Or? && conviction.None? && 1 in Signs(row) && -1 in Signs(row))
  {
    var signs, flipped := Signs(row), Signs(Negated(row));
    assert forall i | 0 <= i < |row| :: flipped[i] == -signs[i];
    NegatedMembers(signs, flipped);
    NegatedMembers(signs[1..], flipped[1..]);
    if conviction.Some? {
      StrongestOfNegated(signs, flipped, conviction.value);
      StrongestOfNegated(signs[1..], flipped[1..], conviction.value[1..]);
    }
    match conj
    case And => AndOfNegated(signs, flipped, conviction);
    case Or =>
    case Filter =>
      AndOfNegated(signs[1..], flipped[1..], if conviction.None? then None else Some(conviction.value[1..]));
  }

  lemma NegatedMembers(signs: seq<int>, flipped: seq<int>)
    requires |signs| == |flipped| && forall i | 0 <= i < |signs| :: flipped[i] == -signs[i]
    ensures forall s :: s in signs <==> -s in flipped
  {
    forall s
      ensures s in signs <==> -s in flipped
    {
      if s in signs {
        var i :| 0 <= i < |signs| && signs[i] == s;
        assert flipped[i] == -s;
      }
      if -s in flipped {
        var i :| 0 <= i < |flipped| && flipped[i] == -s;
        assert signs[i] == s;
      }
    }
  }

  lemma AndOfNegated(signs: seq<int>, flipped: seq<int>, conviction: Option<seq<real>>)
    requires 0 < |signs| == |flipped| && (conviction.Some? ==> |conviction.value| == |signs|)
    requires forall i | 0 <= i < |signs| :: flipped[i] == -signs[i]
    ensures CombineAnd(flipped, conviction) == -CombineAnd(signs, conviction)
  {
    NegatedMembers(signs, flipped);
    assert -0 in flipped <==> 0 in signs;
    assert -1 in flipped <==> 1 in signs;
    assert 1 in flipped <==> -1 in signs;
    if conviction.Some? {
      StrongestOfNegated(signs, flipped, conviction.value);
    }
    assert signs[0] == -flipped[0];
  }

  // ── the columns combined ───────────────────────────────────────────────

  datatype SignalError = NoPositions | BadConjunction

  function Upper(s: string): string {
    if s == "" then ""
    else [if 'a' <= s[0] <= 'z' then s[0] - 'a' + 'A' else s[0]] + Upper(s[1..])
  }

  function ParseConjunction(s: string): Option<Conjunction> {
    var u := Upper(s);
    if u == "AND" then Some(And) else if u == "OR" then Some(Or)
    else if u == "FILTER" then Some(Filter) else None
  }

  ghost predicate SameLength(cols: seq<Column>, n: nat) {
    forall j | 0 <= j < |cols| :: |cols[j]| == n
  }

  function RowAt(cols: seq<Column>, i: nat): Column
    requires forall j | 0 <= j < |cols| :: i < |cols[j]|
  {
    seq(|cols|, j requires 0 <= j < |cols| => cols[j][i])
  }

  function ConvictionRow(strengths: seq<Column>, i: nat): (r: seq<real>)
    requires forall j | 0 <= j < |strengths| :: i < |strengths[j]|
    ensures |r| == |strengths|
  {
    seq(|strengths|, j requires 0 <= j < |strengths| => ConvictionAt(strengths[j], i))
  }

  /** The combined position at bar `i`; missing when any factor's is. */
  function CombinedAt(positions: seq<Column>, conj: Conjunction, strengths: Option<seq<Column>>, i: nat): Cell
    requires 2 <= |positions| && forall j | 0 <= j < |positions| :: i < |positions[j]|
    requires strengths.Some? ==>
               && |strengths.value| == |positions|
               && forall j | 0 <= j < |positions| :: i < |strengths.value[j]|
  {
    var row := RowAt(positions, i);
    if !AllPresent(row) then None
    else
      var values := seq(|row|, j requires 0 <= j < |row| => if row[j].Some? then row[j].value else 0.0);
      Some(CombineRow(values, conj,
                      if strengths.None? then None else Some(ConvictionRow(strengths.value, i))))
  }

  function CombinePositions(positions: seq<Column>, conjunction: string, strengths: Option<seq<Column>>, n: nat)
    : Result<Column, SignalError>
    requires SameLength(positions, n)
    requires strengths.Some? ==> |strengths.value| == |positions| && SameLength(strengths.value, n)
  {
    if positions == [] then Err(NoPositions)
    else if |positions| == 1 then Ok(positions[0])
    else
      match ParseConjunction(conjunction)
      case None => Err(BadConjunction)
      case Some(conj) =>
        Ok(seq(n, i requires 0 <= i < n => CombinedAt(positions, conj, strengths, i)))
  }

  ghost predicate ColumnsAgree(a: seq<Column>, b: seq<Column>, n: nat) {
    |a| == |b| && forall j | 0 <= j < |a| :: Agree(a[j], b[j], n)
  }

  /** A combined position reads no later bar, even where strengths settle a conflict. */
  lemma CombineCausal(a: seq<Column>, b: seq<Column>, conjunction: string,
                      sa: Option<seq<Column>>, sb: Option<seq<Column>>, la: nat, lb: nat, n: nat)
    requires ColumnsAgree(a, b, n) && SameLength(a, la) && SameLength(b, lb) && a != []
    requires sa.Some? <==> sb.Some?
    requires sa.Some? ==>
               && |sa.value| == |a| && ColumnsAgree(sa.value, sb.value, n)
               && SameLength(sa.value, la) && SameLength(sb.value, lb)
    ensures var ra, rb := CombinePositions(a, conjunction, sa, la), CombinePositions(b, conjunction, sb, lb);
            && (ra.Ok? <==> rb.Ok?)
            && (ra.Ok? ==> Agree(ra.value, rb.value, n))
  {
    var conj := ParseConjunction(conjunction);
    if |a| > 1 && conj.Some? {
      forall i | 0 <= i < n
        ensures CombinedAt(a, conj.value, sa, i) == CombinedAt(b, conj.value, sb, i)
      {
        RowCausal(a, b, n, i);
        if sa.Some? {
          ConvictionRowCausal(sa.value, sb.value, n, i);
        }
      }
      assert Agree(a[0], b[0], n);
      AgreeFrom(CombinePositions(a, conjunction, sa, la).value, CombinePositions(b, conjunction, sb, lb).value, n);
    }
  }

  lemma RowCausal(a: seq<Column>, b: seq<Column>, n: nat, i: nat)
    requires ColumnsAgree(a, b, n) && i < n
    ensures RowAt(a, i) == RowAt(b, i)
  {
    forall j | 0 <= j < |a|
      ensures a[j][i] == b[j][i]
    {
      AgreeAt(a[j], b[j], n, i);
    }
  }

  lemma ConvictionRowCausal(a: seq<Column>, b: seq<Column>, n: nat, i: nat)
    requires ColumnsAgree(a, b, n) && i < n
    ensures ConvictionRow(a, i) == ConvictionRow(b, i)
  {
    forall j | 0 <= j < |a|
      ensures ConvictionAt(a[j], i) == ConvictionAt(b[j], i)
    {
      ConvictionCausal(a[j], b[j], n, i);
    }
  }
}
