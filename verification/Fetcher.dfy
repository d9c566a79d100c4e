/**
 Cursor pagination over an exchange's OHLCV endpoint (quant/market_data/fetcher.py).

 Times are integer milliseconds since the epoch. The exchange is a function from the
 number of the page request and its cursor to a reply, so two requests for the same
 cursor may be answered differently.
 */
module Fetcher {
  import opened Outcomes

  datatype Bar = Bar(ts: int, open: real, high: real, low: real, close: real, volume: real)

  datatype PageReply = Page(rows: seq<Bar>) | PageFailed

  type Exchange = (nat, int) -> PageReply

  datatype FetchError = NoTimeframe | Unreachable

  /** What `ccxt_timeframe` accepts: a period of whole minutes. */
  predicate HasTimeframe(period: int) {
    period / 1000 % 60 == 0
  }

  /** The seconds are some number of whole minutes. */
  ghost predicate InMinutes(seconds: int) {
    exists minutes :: Minutes(minutes, seconds)
  }

  ghost predicate Minutes(minutes: int, seconds: int) {
    seconds == 60 * minutes
  }

  lemma TimeframeMeans(period: int)
    requires period > 0
    ensures HasTimeframe(period) <==> InMinutes(period / 1000)
  {
    var seconds := period / 1000;
    if HasTimeframe(period) {
      assert Minutes(seconds / 60, seconds);
    }
  }

  function InRange(rows: seq<Bar>, lo: int, hi: int): seq<Bar> {
    if rows == [] then []
    else (if lo <= rows[0].ts <= hi then [rows[0]] else []) + InRange(rows[1..], lo, hi)
  }

  /** The index of the first bar at or after `cursor`. */
  function FirstFrom(venue: seq<Bar>, cursor: int): (i: nat)
    ensures i <= |venue|
    ensures forall j | 0 <= j < i :: venue[j].ts < cursor
    ensures i < |venue| ==> cursor <= venue[i].ts
  {
    if venue == [] || cursor <= venue[0].ts then 0 else 1 + FirstFrom(venue[1..], cursor)
  }

  /** Bars one period or more apart, oldest first. */
  ghost predicate OnGrid(venue: seq<Bar>, period: int) {
    forall i, j | 0 <= i < j < |venue| :: venue[i].ts + period <= venue[j].ts
  }

  /** `rows` is the first `n >= 1` of `venue`'s bars at or after `cursor`, empty if none is. */
  ghost predicate IsPageOf(rows: seq<Bar>, venue: seq<Bar>, cursor: int) {
    var i := FirstFrom(venue, cursor);
    && rows <= venue[i..]
    && (rows == [] ==> i == |venue|)
  }

  /** Every page `exchange` serves holds the next bars of `venue`. */
  ghost predicate Serves(exchange: Exchange, venue: seq<Bar>) {
    forall n: nat, cursor ::
      exchange(n, cursor).Page? ==> IsPageOf(exchange(n, cursor).rows, venue, cursor)
  }

  /** A page with a bar at or after its cursor, so that the next page can be asked for. */
  predicate GoesOn(reply: PageReply, cursor: int) {
    reply.Page? && reply.rows != [] && cursor <= reply.rows[|reply.rows| - 1].ts
  }

  /** Page `i` was asked for from `asked[i]`: the first from `since`, each later one from a period after its predecessor's newest bar. */
  ghost predicate Asked(exchange: Exchange, period: int, since: int, until: int, asked: seq<int>) {
    && (asked != [] ==> asked[0] == since)
    && (forall i | 0 <= i < |asked| :: asked[i] <= until)
    && forall i: nat | i < |asked| - 1 :: Follows(exchange(i, asked[i]), asked[i], asked[i + 1], period)
  }

  ghost predicate Follows(reply: PageReply, cursor: int, next: int, period: int) {
    GoesOn(reply, cursor) && next == reply.rows[|reply.rows| - 1].ts + period
  }

  /** After the pages asked for, there is none left to ask for. */
  ghost predicate NoneLeft(exchange: Exchange, period: int, until: int, asked: seq<int>)
    requires asked != []
  {
    var n: nat := |asked| - 1;
    var last := exchange(n, asked[n]);
    GoesOn(last, asked[n]) ==> last.rows[|last.rows| - 1].ts + period > until
  }

  /** The pages a run asks for, up to the first it gets no further from; `failed` tells whether that one failed. */
  ghost predicate AskedAll(exchange: Exchange, period: int, since: int, until: int, asked: seq<int>, failed: bool) {
    && asked != [] && Asked(exchange, period, since, until, asked) && NoneLeft(exchange, period, until, asked)
    && (failed <==> exchange(|asked| - 1, asked[|asked| - 1]).PageFailed?)
  }

  /** `cursor` is where the next page is asked for. */
  ghost predicate AskedUpTo(exchange: Exchange, period: int, since: int, until: int, asked: seq<int>, cursor: int) {
    && Asked(exchange, period, since, until, asked)
    && if asked == [] then cursor == since
       else Follows(exchange(|asked| - 1, asked[|asked| - 1]), asked[|asked| - 1], cursor, period)
  }

  lemma AskedNothing(exchange: Exchange, period: int, since: int, until: int)
    ensures AskedUpTo(exchange, period, since, until, [], since)
  {
  }

  lemma AskedOneMore(exchange: Exchange, period: int, since: int, until: int, asked: seq<int>, cursor: int)
    requires AskedUpTo(exchange, period, since, until, asked, cursor) && cursor <= until
    ensures Asked(exchange, period, since, until, asked + [cursor])
    ensures var reply := exchange(|asked|, cursor);
            if reply.Page? && reply.rows != [] && cursor <= reply.rows[|reply.rows| - 1].ts
            then AskedUpTo(exchange, period, since, until, asked + [cursor], reply.rows[|reply.rows| - 1].ts + period)
            else AskedAll(exchange, period, since, until, asked + [cursor], reply.PageFailed?)
  {
    var more := asked + [cursor];
    assert more[|more| - 1] == cursor;
    forall i: nat | i < |more| - 1
      ensures Follows(exchange(i, more[i]), more[i], more[i + 1], period)
    {
      assert more[i] == asked[i];
      if i + 1 < |asked| {
        assert more[i + 1] == asked[i + 1];
      }
    }
  }

  lemma AskedPastTheEnd(exchange: Exchange, period: int, since: int, until: int, asked: seq<int>, cursor: int)
    requires AskedUpTo(exchange, period, since, until, asked, cursor) && since <= until < cursor
    ensures AskedAll(exchange, period, since, until, asked, false)
  {
  }

  /**
   Reads `[since, until]` page by page. Whatever the exchange replies, the loop ends and
   no bar outside the range is returned; when the pages are honest ones of `venue`, the
   result is every bar of `venue` in the range, in order, once each. It fails exactly when
   a page it asks for does.
   */
  method FetchBars(exchange: Exchange, period: int, since: int, until: int, ghost venue: seq<Bar>)
    returns (r: Result<seq<Bar>, FetchError>, ghost asked: seq<int>)
    requires period > 0
    ensures r.Ok? ==> forall b | b in r.value :: since <= b.ts <= until
    ensures r.Ok? && Serves(exchange, venue) && OnGrid(venue, period) ==>
              r.value == InRange(venue, since, until)
    ensures r == Err(NoTimeframe) <==> since <= until && !InMinutes(period / 1000)
    ensures since <= until && InMinutes(period / 1000) ==>
              AskedAll(exchange, period, since, until, asked, r == Err(Unreachable))
  {
    hide *;
    asked := [];
    if since > until {
      EmptyRange(venue, since, until);
      return Ok([]), asked;
    }
    TimeframeMeans(period);
    if !HasTimeframe(period) {
      return Err(NoTimeframe), asked;
    }
    var cursor := since;
    var bars: seq<Bar> := [];
    var n: nat := 0;
    ghost var honest := Serves(exchange, venue) && OnGrid(venue, period);
    NothingCollected(venue, since, until);
    AskedNothing(exchange, period, since, until);
    ghost var ended := false;
    while cursor <= until
      invariant since <= cursor && |asked| == n
      invariant AskedUpTo(exchange, period, since, until, asked, cursor)
      invariant !ended && AllWithin(bars, since, until)
      invariant honest ==> CollectedTo(bars, venue, cursor, since, until)
      decreases until - cursor
    {
      var reply := exchange(n, cursor);
      AskedOneMore(exchange, period, since, until, asked, cursor);
      asked := asked + [cursor];
      if reply.PageFailed? {
        return Err(Unreachable), asked;
      }
      var batch := reply.rows;
      if honest {
        ServesPage(exchange, venue, n, cursor);
        LastPage(batch, venue, cursor);
        if batch != [] {
          PageCollected(bars, batch, venue, cursor, since, until, period);
        }
      }
      n := n + 1;
      if batch == [] {
        ended := true;
        break;
      }
      WithinAppend(bars, batch, since, cursor, until);
      var newest := batch[|batch| - 1].ts;
      bars := bars + InRange(batch, cursor, until);
      if newest < cursor {
        ended := true;
        break;
      }
      cursor := newest + period;
    }
    if honest {
      AllCollected(bars, venue, cursor, since, until, period);
    }
    WithinMeans(bars, since, until);
    if !ended {
      AskedPastTheEnd(exchange, period, since, until, asked, cursor);
    }
    return Ok(bars), asked;
  }

  ghost predicate AllWithin(bars: seq<Bar>, lo: int, hi: int) {
    forall b | b in bars :: lo <= b.ts <= hi
  }

  lemma WithinAppend(bars: seq<Bar>, batch: seq<Bar>, lo: int, cursor: int, hi: int)
    requires AllWithin(bars, lo, hi) && lo <= cursor
    ensures AllWithin(bars + InRange(batch, cursor, hi), lo, hi)
  {
    InRangeWithin(batch, cursor, hi);
  }

  lemma WithinMeans(bars: seq<Bar>, lo: int, hi: int)
    requires AllWithin(bars, lo, hi)
    ensures forall b | b in bars :: lo <= b.ts <= hi
  {
  }

  /** `bars` is `venue`'s share of the range up to `cursor`. */
  ghost predicate CollectedTo(bars: seq<Bar>, venue: seq<Bar>, cursor: int, since: int, until: int) {
    bars + InRange(venue[FirstFrom(venue, cursor)..], since, until) == InRange(venue, since, until)
  }

  lemma NothingCollected(venue: seq<Bar>, since: int, until: int)
    ensures CollectedTo([], venue, since, since, until) && AllWithin([], since, until)
  {
    DropBelow(venue, since, until, FirstFrom(venue, since));
  }

  lemma ServesPage(exchange: Exchange, venue: seq<Bar>, n: nat, cursor: int)
    requires Serves(exchange, venue) && exchange(n, cursor).Page?
    ensures IsPageOf(exchange(n, cursor).rows, venue, cursor)
  {
  }

  lemma LastPage(batch: seq<Bar>, venue: seq<Bar>, cursor: int)
    requires IsPageOf(batch, venue, cursor)
    ensures batch == [] ==> FirstFrom(venue, cursor) == |venue|
  {
  }

  lemma PageCollected(bars: seq<Bar>, batch: seq<Bar>, venue: seq<Bar>, cursor: int,
                      since: int, until: int, period: int)
    requires OnGrid(venue, period) && period > 0 && since <= cursor
    requires IsPageOf(batch, venue, cursor) && batch != []
    requires CollectedTo(bars, venue, cursor, since, until)
    ensures cursor <= batch[|batch| - 1].ts
    ensures CollectedTo(bars + InRange(batch, cursor, until), venue,
                        batch[|batch| - 1].ts + period, since, until)
  {
    hide InRange, FirstFrom, OnGrid, IsPageOf;
    var i := FirstFrom(venue, cursor);
    PageAdvances(batch, venue, cursor, period);
    PageSplits(batch, venue, cursor);
    var after := venue[i + |batch|..];
    InRangeAppend(batch, after, since, until);
    RaiseLow(batch, since, cursor, until);
    Regroup(bars, InRange(batch, since, until), InRange(after, since, until));
  }

  lemma PageSplits(batch: seq<Bar>, venue: seq<Bar>, cursor: int)
    requires IsPageOf(batch, venue, cursor)
    ensures FirstFrom(venue, cursor) + |batch| <= |venue|
    ensures venue[FirstFrom(venue, cursor)..] == batch + venue[FirstFrom(venue, cursor) + |batch|..]
  {
  }

  lemma Regroup(a: seq<Bar>, b: seq<Bar>, c: seq<Bar>)
    ensures a + (b + c) == (a + b) + c
  {
  }

  lemma AllCollected(bars: seq<Bar>, venue: seq<Bar>, cursor: int, since: int, until: int, period: int)
    requires OnGrid(venue, period) && period > 0
    requires CollectedTo(bars, venue, cursor, since, until)
    requires cursor > until || FirstFrom(venue, cursor) == |venue|
    ensures bars == InRange(venue, since, until)
  {
    var i := FirstFrom(venue, cursor);
    if i < |venue| {
      AllAbove(venue, i, period, cursor);
      NothingAbove(venue[i..], since, until);
    }
  }

  lemma {:induction false} InRangeWithin(rows: seq<Bar>, lo: int, hi: int)
    ensures forall b :: b in InRange(rows, lo, hi) <==> b in rows && lo <= b.ts <= hi
  {
    if rows != [] {
      InRangeWithin(rows[1..], lo, hi);
      assert forall b :: b in rows <==> b == rows[0] || b in rows[1..];
    }
  }

  lemma {:induction false} InRangeAppend(a: seq<Bar>, b: seq<Bar>, lo: int, hi: int)
    ensures InRange(a + b, lo, hi) == InRange(a, lo, hi) + InRange(b, lo, hi)
  {
    if a == [] {
      assert a + b == b;
    } else {
      assert (a + b)[1..] == a[1..] + b;
      InRangeAppend(a[1..], b, lo, hi);
    }
  }

  lemma {:induction false} DropBelow(rows: seq<Bar>, lo: int, hi: int, i: nat)
    requires i <= |rows| && forall j | 0 <= j < i :: rows[j].ts < lo
    ensures InRange(rows[i..], lo, hi) == InRange(rows, lo, hi)
  {
    if i == 0 {
      assert rows[0..] == rows;
    } else {
      assert rows[1..][i - 1..] == rows[i..];
      DropBelow(rows[1..], lo, hi, i - 1);
    }
  }

  lemma {:induction false} RaiseLow(rows: seq<Bar>, lo: int, lo': int, hi: int)
    requires lo <= lo' && forall b | b in rows :: lo' <= b.ts
    ensures InRange(rows, lo', hi) == InRange(rows, lo, hi)
  {
    if rows != [] {
      RaiseLow(rows[1..], lo, lo', hi);
    }
  }

  lemma {:induction false} NothingAbove(rows: seq<Bar>, lo: int, hi: int)
    requires forall b | b in rows :: hi < b.ts
    ensures InRange(rows, lo, hi) == []
  {
    if rows != [] {
      NothingAbove(rows[1..], lo, hi);
    }
  }

  lemma AllAbove(venue: seq<Bar>, i: nat, period: int, lo: int)
    requires OnGrid(venue, period) && period > 0
    requires i <= |venue| && (i < |venue| ==> lo <= venue[i].ts)
    ensures forall b | b in venue[i..] :: lo <= b.ts
  {
    forall j | i <= j < |venue|
      ensures lo <= venue[j].ts
    {
      if i < j { assert venue[i].ts + period <= venue[j].ts; }
    }
  }

  /** An honest page moves the cursor to the first bar after it. */
  lemma PageAdvances(batch: seq<Bar>, venue: seq<Bar>, cursor: int, period: int)
    requires OnGrid(venue, period) && period > 0
    requires IsPageOf(batch, venue, cursor) && batch != []
    ensures var i, newest := FirstFrom(venue, cursor), batch[|batch| - 1].ts;
            && cursor <= newest
            && FirstFrom(venue, newest + period) == i + |batch|
    ensures forall b | b in batch :: cursor <= b.ts
  {
    var i := FirstFrom(venue, cursor);
    var last := i + |batch| - 1;
    assert forall k | 0 <= k < |batch| :: batch[k] == venue[i..][k];
    AllAbove(venue, i, period, cursor);
    NextAfter(venue, last, period);
  }

  lemma NextAfter(venue: seq<Bar>, last: nat, period: int)
    requires OnGrid(venue, period) && period > 0 && last < |venue|
    ensures FirstFrom(venue, venue[last].ts + period) == last + 1
  {
    forall j | 0 <= j <= last
      ensures venue[j].ts < venue[last].ts + period
    {
      assert j < last ==> venue[j].ts + period <= venue[last].ts;
    }
    FirstFromIs(venue, venue[last].ts + period, last + 1);
  }

  lemma {:induction false} FirstFromIs(venue: seq<Bar>, cursor: int, i: nat)
    requires i <= |venue| && forall j | 0 <= j < i :: venue[j].ts < cursor
    requires i < |venue| ==> cursor <= venue[i].ts
    ensures FirstFrom(venue, cursor) == i
  {
    if i > 0 {
      FirstFromIs(venue[1..], cursor, i - 1);
    }
  }

  lemma {:induction false} EmptyRange(rows: seq<Bar>, lo: int, hi: int)
    requires lo > hi
    ensures InRange(rows, lo, hi) == []
  {
    if rows != [] {
      EmptyRange(rows[1..], lo, hi);
    }
  }

  /** What "every bar of the range, in order, once each" comes to. */
  lemma {:induction false} InRangeExact(venue: seq<Bar>, lo: int, hi: int, period: int)
    requires OnGrid(venue, period) && period > 0
    ensures OnGrid(InRange(venue, lo, hi), period)
    ensures forall b :: b in InRange(venue, lo, hi) <==> b in venue && lo <= b.ts <= hi
  {
    InRangeWithin(venue, lo, hi);
    if venue != [] {
      InRangeExact(venue[1..], lo, hi, period);
      var rest := InRange(venue[1..], lo, hi);
      InRangeWithin(venue[1..], lo, hi);
      forall j | 0 <= j < |rest|
        ensures venue[0].ts + period <= rest[j].ts
      {
        assert rest[j] in venue[1..];
      }
    }
  }
}
