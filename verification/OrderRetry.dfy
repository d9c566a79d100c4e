/**
 Which order to place, and how often to try (quant/trade/order_policy.py).

 The broker is the other party: it fills any share of an order, may leave the rest on its
 book, and answers as it likes, within what `Honest` says. Positions are exact reals.
 */
module OrderRetry {
  import opened Outcomes

  /** Positions smaller than this are noise. */
  const FLAT_EPS := 0.000000001

  datatype Action = Buy | Sell | Hold | OpenShort | CloseShort

  datatype Side = BuySide | SellSide

  datatype Order = Order(qty: real, side: Side)

  datatype RejectReason =
    | SizeBelowMinimum | IpNotAllowed | RegionRestricted | KeyReadOnly | KeyRefused
    | InsufficientFunds | InvalidOrder | VenueRejected | NotAcknowledged | CancelFailed

  datatype OrderResult = OrderResult(success: bool, orderId: Option<string>, message: string, reason: Option<RejectReason>)

  function Abs(x: real): real {
    if x < 0.0 then -x else x
  }

  function Max(a: real, b: real): real {
    if a < b then b else a
  }

  // ── the decision ───────────────────────────────────────────────────────

  /** Python's `round` to an integer: a half goes to the even neighbour. */
  function RoundHalfEven(x: real): int {
    var down := x.Floor;
    var rest := x - down as real;
    if rest < 0.5 then down
    else if rest > 0.5 then down + 1
    else if down % 2 == 0 then down else down + 1
  }

  /** A signal counts from strictly more than a half, on either side. */
  lemma SignalSides(x: real)
    ensures RoundHalfEven(x) > 0 <==> x > 0.5
    ensures RoundHalfEven(x) < 0 <==> x < -0.5
  {
    var down := x.Floor;
    assert down as real <= x < down as real + 1.0;
    if x > 0.5 {
      assert down >= 0;
    } else {
      assert down <= 0;
    }
    if x < -0.5 {
      assert down <= -1;
    } else {
      assert down >= -1;
    }
  }

  function IntendedAction(signal: real, position: real): Action {
    var sig := RoundHalfEven(signal);
    var held := if Abs(position) <= FLAT_EPS then 0.0 else position;
    if sig > 0 then if held < 0.0 then CloseShort else if held == 0.0 then Buy else Hold
    else if sig == 0 then if held > 0.0 then Sell else if held < 0.0 then CloseShort else Hold
    else if held > 0.0 then Sell else if held == 0.0 then OpenShort else Hold
  }

  /** At most one market order for the action. */
  function OrderFor(action: Action, qty: real, position: real): Option<Order> {
    var order :=
      match action
      case Hold => Order(0.0, BuySide)
      case Buy => Order(qty, BuySide)
      case OpenShort => Order(qty, SellSide)
      case Sell => Order(Abs(position), SellSide)
      case CloseShort => Order(Abs(position), BuySide);
    if action.Hold? || order.qty <= 0.0 then None else Some(order)
  }

  /** The change in position when the whole order fills. */
  function Signed(order: Order): real {
    Toward(order.side, order.qty)
  }

  /** The position after a full fill of the order that is due, if one is. */
  function Filled(signal: real, qty: real, position: real): real {
    var order := OrderFor(IntendedAction(signal, position), qty, position);
    if order.None? then position else position + Signed(order.value)
  }

  /**
   An order never takes a real position through zero, and leaves it no larger than it was
   or than the quantity asked for.
   */
  lemma OrderIsSafe(signal: real, qty: real, position: real)
    ensures var after := Filled(signal, qty, position);
            && (position * after < 0.0 ==> Abs(position) <= FLAT_EPS)
            && (Abs(position) > FLAT_EPS && after != position ==> after == 0.0)
            && Abs(after) <= Max(Abs(position), qty + FLAT_EPS)
  {
    SignalSides(signal);
    if Abs(position) > FLAT_EPS {
      assert position * 0.0 == 0.0;
      assert position * position >= 0.0;
    }
  }

  /**
   The table of the source, as what it is for: two full fills settle any position, and what
   they settle on is what was held, if that is on the side asked for, and otherwise the
   quantity on that side, or nothing.
   */
  lemma TwoFillsSettle(signal: real, qty: real, position: real)
    requires qty > 2.0 * FLAT_EPS
    ensures var settled := Filled(signal, qty, Filled(signal, qty, position));
            && IntendedAction(signal, settled) == Hold
            && (signal > 0.5 ==> settled > FLAT_EPS)
            && (signal < -0.5 ==> settled < -FLAT_EPS)
            && (-0.5 <= signal <= 0.5 ==> Abs(settled) <= FLAT_EPS)
            && settled == (if Abs(position) <= FLAT_EPS then
                             if signal > 0.5 then position + qty else if signal < -0.5 then position - qty else position
                           else if signal > 0.5 then if position > 0.0 then position else qty
                           else if signal < -0.5 then if position < 0.0 then position else -qty
                           else 0.0)
  {
    SignalSides(signal);
  }

  // ── the policy ─────────────────────────────────────────────────────────

  function Lower(s: string): string {
    if s == "" then ""
    else [if 'A' <= s[0] <= 'Z' then s[0] - 'A' + 'a' else s[0]] + Lower(s[1..])
  }

  predicate Contains(s: string, part: string) {
    part <= s || (s != "" && Contains(s[1..], part))
  }

  /** `part in s`: it stands somewhere in the text. */
  lemma {:induction false} ContainsExact(s: string, part: string)
    ensures Contains(s, part) <==> exists i :: 0 <= i <= |s| && part <= s[i..]
  {
    if s == "" {
      assert Contains(s, part) ==> part <= s[0..];
    } else {
      ContainsExact(s[1..], part);
      if part <= s {
        assert part <= s[0..];
      } else if Contains(s[1..], part) {
        var i :| 0 <= i <= |s[1..]| && part <= s[1..][i..];
        assert s[1..][i..] == s[i + 1..];
      }
      forall i | 0 <= i <= |s| && part <= s[i..]
        ensures Contains(s, part)
      {
        if i == 0 {
          assert s[0..] == s;
        } else {
          assert s[1..][i - 1..] == s[i..];
        }
      }
    }
  }

  predicate IsUnconfirmed(r: OrderResult) {
    var msg := Lower(r.message);
    Contains(msg, "fill unconfirmed") || Contains(msg, "requires manual reconciliation")
  }

  predicate HasId(r: OrderResult) {
    r.orderId.Some? && r.orderId.value != ""
  }

  predicate IsRetryable(r: OrderResult) {
    var msg := Lower(r.message);
    && !r.success && r.reason.None?
    && (IsUnconfirmed(r) || HasId(r)
        || Contains(msg, "unreachable") || Contains(msg, "rate") || Contains(msg, "timeout"))
  }

  // ── what the policy comes to, by what a message says ──────────────────

  /** The same letter, a capital in the text standing for its small one, or the same other character. */
  predicate Reads(c: char, small: char) {
    c == small || ('A' <= c <= 'Z' && c as int - 'A' as int == small as int - 'a' as int)
  }

  ghost predicate MentionsAt(text: string, words: string, i: int) {
    0 <= i <= |text| - |words| && forall j | 0 <= j < |words| :: Reads(text[i + j], words[j])
  }

  /** The words stand somewhere in the text, in whatever case. */
  ghost predicate Mentions(text: string, words: string) {
    exists i :: MentionsAt(text, words, i)
  }

  /** The broker could not confirm what became of the order. */
  ghost predicate FillUnknown(message: string) {
    Mentions(message, "fill unconfirmed") || Mentions(message, "requires manual reconciliation")
  }

  /** A failure with no typed reason, and with an order on record or words that tell of a passing fault. */
  ghost predicate MayPass(r: OrderResult) {
    && !r.success && r.reason.None?
    && (|| (r.orderId.Some? && r.orderId.value != "")
        || FillUnknown(r.message)
        || Mentions(r.message, "unreachable") || Mentions(r.message, "rate") || Mentions(r.message, "timeout"))
  }

  /** Such a failure of an order on record whose fill is unknown: it may still rest on the book. */
  ghost predicate MayRest(r: OrderResult) {
    !r.success && r.reason.None? && r.orderId.Some? && r.orderId.value != "" && FillUnknown(r.message)
  }

  /** None of the characters is a capital. */
  ghost predicate Small(s: string) {
    forall i | 0 <= i < |s| :: !('A' <= s[i] <= 'Z')
  }

  lemma {:induction false} LowerAt(text: string, i: nat)
    requires i < |text|
    ensures |Lower(text)| == |text|
    ensures Lower(text)[i] == if 'A' <= text[i] <= 'Z' then text[i] - 'A' + 'a' else text[i]
  {
    LowerLength(text);
    if i > 0 {
      LowerAt(text[1..], i - 1);
    }
  }

  lemma {:induction false} LowerLength(text: string)
    ensures |Lower(text)| == |text|
  {
    if text != "" {
      LowerLength(text[1..]);
    }
  }

  /** What a marker in the lower-cased message means. */
  lemma MarkerMeans(text: string, words: string)
    requires Small(words)
    ensures Contains(Lower(text), words) <==> Mentions(text, words)
  {
    var low := Lower(text);
    LowerLength(text);
    ContainsExact(low, words);
    forall k | 0 <= k < |text|
      ensures low[k] == if 'A' <= text[k] <= 'Z' then text[k] - 'A' + 'a' else text[k]
    {
      LowerAt(text, k);
    }
    hide Lower, Contains;
    forall i | 0 <= i <= |text|
      ensures words <= low[i..] <==> MentionsAt(text, words, i)
    {
      MarkerAt(text, low, words, i);
    }
  }

  lemma MarkerAt(text: string, low: string, words: string, i: nat)
    requires Small(words) && |low| == |text| && i <= |text|
    requires forall k | 0 <= k < |text| :: low[k] == if 'A' <= text[k] <= 'Z' then text[k] - 'A' + 'a' else text[k]
    ensures words <= low[i..] <==> MentionsAt(text, words, i)
  {
    if |words| <= |text| - i {
      forall j | 0 <= j < |words|
        ensures low[i..][j] == words[j] <==> Reads(text[i + j], words[j])
      {
      }
    }
  }

  lemma MarkersAreSmall()
    ensures Small("fill unconfirmed") && Small("requires manual reconciliation")
    ensures Small("unreachable") && Small("rate") && Small("timeout")
  {
  }

  /** The policy is what it says of messages, wherever and in whatever case the words stand. */
  lemma PolicyMeans(r: OrderResult)
    ensures IsUnconfirmed(r) <==> FillUnknown(r.message)
    ensures IsRetryable(r) <==> MayPass(r)
    ensures HasId(r) <==> r.orderId.Some? && r.orderId.value != ""
  {
    hide Contains, Mentions, Lower;
    MarkersAreSmall();
    MarkerMeans(r.message, "fill unconfirmed");
    MarkerMeans(r.message, "requires manual reconciliation");
    MarkerMeans(r.message, "unreachable");
    MarkerMeans(r.message, "rate");
    MarkerMeans(r.message, "timeout");
  }

  // ── the broker ─────────────────────────────────────────────────────────

  /** What a call to `place_order` does, answering or raising: so much fills, so much stays on the book. */
  datatype Reply = Reply(raises: bool, result: Option<OrderResult>, filled: real, rests: real)

  /** What a call to `cancel_order` does; the order may fill on until it is gone. */
  datatype CancelReply = CancelReply(success: bool, filled: real) | CancelRaises

  /** An order on the book, with the change in position it can still make. */
  datatype Resting = Resting(orderId: Option<string>, left: real)

  datatype ExecError = AdapterRaised | AssertionFailed

  /** A call to `cancel_order` and what it answered. */
  datatype Cancel = Cancel(orderId: string, answer: Result<bool, ExecError>)

  /** One order as it was placed, the answer it got, and the cancels called before the next one. */
  datatype Placement =
    Placement(position: real, order: Order, resting: nat, answer: Result<Option<OrderResult>, ExecError>, cancels: seq<Cancel>)

  /**
   A failure that is retried without a cancel has left nothing on the book; that is what
   the executor takes for granted.
   */
  ghost predicate Honest(reply: Reply) {
    && reply.filled >= 0.0 && reply.rests >= 0.0
    && (!reply.raises && reply.result.Some? && MayPass(reply.result.value) && !MayRest(reply.result.value) ==>
          reply.rests == 0.0)
  }

  function Least(a: real, b: real): real {
    if a < b then a else b
  }

  /** What fills of an order: never more than was asked for. */
  function Fill(reply: Reply, qty: real): real {
    Least(reply.filled, qty)
  }

  /** What stays on the book: never more than did not fill. */
  function Rest(reply: Reply, qty: real): real {
    Least(reply.rests, qty - Fill(reply, qty))
  }

  /** An amount as a change in position. */
  function Toward(side: Side, amount: real): real {
    if side.BuySide? then amount else -amount
  }

  class Broker {
    var position: real
    var resting: seq<Resting>
    var placed: seq<Placement>
    var replies: seq<Reply>
    var cancels: seq<CancelReply>

    ghost predicate Valid()
      reads this
    {
      && (forall i | 0 <= i < |replies| :: Honest(replies[i]))
      && forall i | 0 <= i < |cancels| :: cancels[i].CancelReply? ==> cancels[i].filled >= 0.0
    }

    constructor (position: real, replies: seq<Reply>, cancels: seq<CancelReply>)
      requires forall i | 0 <= i < |replies| :: Honest(replies[i])
      requires forall i | 0 <= i < |cancels| :: cancels[i].CancelReply? ==> cancels[i].filled >= 0.0
      ensures Valid() && this.position == position && resting == [] && placed == []
    {
      this.position, this.replies, this.cancels := position, replies, cancels;
      resting, placed := [], [];
    }

    method GetPosition() returns (p: real)
      ensures p == position
    {
      p := position;
    }

    /** Fills part of the order, and keeps part of it unless that part is nothing. */
    method PlaceOrder(order: Order)
      returns (r: Result<Option<OrderResult>, ExecError>, ghost filled: real, ghost left: real)
      requires Valid() && order.qty > 0.0
      modifies this
      ensures Valid()
      ensures placed == old(placed) + [Placement(old(position), order, |old(resting)|, r, [])]
      ensures r.Err? ==> r.error == AdapterRaised
      ensures Moved(old(position), position, filled, left, order)
      ensures resting == if left == 0.0 then old(resting) else old(resting) + [Resting(IdOf(r), left)]
      ensures r.Ok? && r.value.Some? && MayPass(r.value.value) && !MayRest(r.value.value) ==> left == 0.0
    {
      hide MayPass, MayRest, Moved, Fill, Rest;
      if replies == [] {
        r, filled, left := Err(AdapterRaised), 0.0, 0.0;
        placed := placed + [Placement(position, order, |resting|, r, [])];
        NothingMoved(position, order);
        return;
      }
      var reply := replies[0];
      replies := replies[1..];
      assert Honest(reply);
      r := if reply.raises then Err(AdapterRaised) else Ok(reply.result);
      placed := placed + [Placement(position, order, |resting|, r, [])];
      var fill, rest := Fill(reply, order.qty), Rest(reply, order.qty);
      filled, left := Toward(order.side, fill), Toward(order.side, rest);
      ReplyMoves(position, order, reply);
      position := position + Toward(order.side, fill);
      if rest != 0.0 {
        resting := resting + [Resting(IdOf(r), Toward(order.side, rest))];
      }
    }

    /** The order is gone when this succeeds; until then it may fill on. */
    method CancelOrder(orderId: string) returns (r: Result<bool, ExecError>)
      requires Valid() && placed != [] && (resting == [] || (|resting| == 1 && resting[0].orderId == Some(orderId)))
      modifies this
      ensures Valid() && placed == WithCancel(old(placed), Cancel(orderId, r))
      ensures r.Err? ==> r.error == AdapterRaised
      ensures r == Ok(true) ==> resting == []
      ensures old(resting) == [] ==> resting == [] && position == old(position)
      ensures old(resting) != [] ==> Between(old(position), old(position) + old(resting)[0].left, position)
      ensures resting != [] ==>
                && old(resting) != [] && |resting| == 1
                && position + resting[0].left == old(position) + old(resting)[0].left
    {
      if cancels == [] || cancels[0].CancelRaises? {
        cancels := if cancels == [] then [] else cancels[1..];
        placed := WithCancel(placed, Cancel(orderId, Err(AdapterRaised)));
        return Err(AdapterRaised);
      }
      var reply := cancels[0];
      cancels := cancels[1..];
      assert reply.filled >= 0.0;
      if resting != [] {
        var left := resting[0].left;
        var fill := if left < 0.0 then -Least(reply.filled, -left) else Least(reply.filled, left);
        position := position + fill;
        resting := if reply.success then [] else [resting[0].(left := left - fill)];
      }
      placed := WithCancel(placed, Cancel(orderId, Ok(reply.success)));
      return Ok(reply.success);
    }
  }

  /** The cancel goes with the order placed last. */
  function WithCancel(placed: seq<Placement>, c: Cancel): seq<Placement>
    requires placed != []
  {
    var n := |placed| - 1;
    placed[n := placed[n].(cancels := placed[n].cancels + [c])]
  }

  function IdOf(r: Result<Option<OrderResult>, ExecError>): Option<string> {
    if r.Ok? && r.value.Some? then r.value.value.orderId else None
  }

  ghost predicate Between(a: real, b: real, x: real) {
    a <= x <= b || b <= x <= a
  }

  /** The position moved by a part of the order, and what is left is no more than the rest of it. */
  ghost predicate Moved(before: real, after: real, filled: real, left: real, order: Order) {
    && after == before + filled
    && Between(before, before + Signed(order), after)
    && Between(before, before + Signed(order), after + left)
  }

  lemma NothingMoved(position: real, order: Order)
    ensures Moved(position, position, 0.0, 0.0, order)
  {
  }

  lemma ReplyMoves(position: real, order: Order, reply: Reply)
    requires Honest(reply) && order.qty > 0.0
    ensures var fill, rest := Fill(reply, order.qty), Rest(reply, order.qty);
            && Moved(position, position + Toward(order.side, fill), Toward(order.side, fill), Toward(order.side, rest), order)
            && (reply.rests == 0.0 ==> rest == 0.0)
  {
    hide MayPass, MayRest;
  }

  // ── the executor ───────────────────────────────────────────────────────

  datatype Attempt = Attempt(action: Action, position: real, result: Option<OrderResult>)

  datatype RetryResult =
    RetryResult(action: Action, position: real, result: Option<OrderResult>, attempts: seq<Attempt>,
                maxAttempts: int, permanentFailure: bool)

  function OutcomeOf(action: Action, position: real, result: Option<OrderResult>, attempts: seq<Attempt>, maxAttempts: int)
    : RetryResult
  {
    RetryResult(action, position, result, attempts, maxAttempts,
                result.Some? && !result.value.success && |attempts| == 1 && !IsRetryable(result.value))
  }

  /** Neither the position nor what it becomes if the book fills goes beyond `bound`. */
  ghost predicate Exposed(position: real, resting: seq<Resting>, bound: real) {
    Abs(position) <= bound && |resting| <= 1 && (|resting| == 1 ==> Abs(position + resting[0].left) <= bound)
  }

  /** The order was placed on a clear book, and does not turn a real position round. */
  ghost predicate Safe(p: Placement) {
    p.resting == 0 && (p.position * (p.position + Signed(p.order)) < 0.0 ==> Abs(p.position) <= FLAT_EPS)
  }

  /** The order is the one due for the position; an unconfirmed one, and no other, was cancelled. */
  ghost predicate Due(p: Placement, signal: real, qty: real) {
    && OrderFor(IntendedAction(signal, p.position), qty, p.position) == Some(p.order)
    && Settled(p)
  }

  ghost predicate Settled(p: Placement) {
    if Retried(p.answer) && MayRest(p.answer.value.value)
    then |p.cancels| == 1 && Some(p.cancels[0].orderId) == p.answer.value.value.orderId
    else p.cancels == []
  }

  ghost predicate Retried(answer: Result<Option<OrderResult>, ExecError>) {
    answer.Ok? && answer.value.Some? && MayPass(answer.value.value)
  }

  /** A call to the adapter raised. */
  predicate Raised(p: Placement) {
    p.answer.Err? || (p.cancels != [] && p.cancels[0].answer.Err?)
  }

  predicate CancelRefused(p: Placement) {
    p.cancels != [] && p.cancels[0].answer == Ok(false)
  }

  /** Another order may follow: a failure that may pass, cancelled where its fill is unconfirmed. */
  ghost predicate GoesOn(p: Placement) {
    Retried(p.answer) && !Raised(p) && !CancelRefused(p)
  }

  /** What the attempt records: the answer, or the reason that pauses the deployment. */
  function ResultOf(p: Placement): Option<OrderResult> {
    if p.answer.Err? || p.answer.value.None? then None
    else if CancelRefused(p) then Some(p.answer.value.value.(reason := Some(CancelFailed)))
    else p.answer.value
  }

  function AttemptsOf(run: seq<Placement>, signal: real): seq<Attempt> {
    seq(|run|, i requires 0 <= i < |run| =>
      Attempt(IntendedAction(signal, run[i].position), run[i].position, ResultOf(run[i])))
  }

  /** Every order was due, and was followed by another only where one may follow. */
  ghost predicate Underway(run: seq<Placement>, signal: real, qty: real) {
    forall i | 0 <= i < |run| :: Due(run[i], signal, qty) && GoesOn(run[i])
  }

  /**
   What the run that placed these orders answers: an exception exactly where the adapter
   raised one; otherwise one attempt for each order, and one more when nothing was due at
   the position then found. It ends with an order that may be followed only when no attempt
   is left.
   */
  ghost predicate RunOf(run: seq<Placement>, r: Result<RetryResult, ExecError>, position: real, signal: real, qty: real,
                        maxAttempts: int)
  {
    var n := |run|;
    if n > 0 && Raised(run[n - 1]) then
      r == Err(AdapterRaised) && Underway(run[..n - 1], signal, qty) && Due(run[n - 1], signal, qty)
    else if n > 0 && (!GoesOn(run[n - 1]) || n == maxAttempts) then
      && r.Ok? && r.value.attempts == AttemptsOf(run, signal)
      && Underway(run[..n - 1], signal, qty) && Due(run[n - 1], signal, qty)
    else
      && Underway(run, signal, qty)
      && if maxAttempts < 1 then n == 0 && r == Err(AssertionFailed)
         else
           && n < maxAttempts && r.Ok? && OrderFor(IntendedAction(signal, position), qty, position) == None
           && r.value.attempts == AttemptsOf(run, signal) + [Attempt(IntendedAction(signal, position), position, None)]
  }

  /** The last attempt is the outcome, and every attempt before it failed in a way that may pass. */
  ghost predicate Recorded(r: RetryResult, signal: real) {
    && r.attempts != []
    && r.attempts[|r.attempts| - 1] == Attempt(r.action, r.position, r.result)
    && r.action == IntendedAction(signal, r.position)
    && AllRetryable(r.attempts[..|r.attempts| - 1])
    && (r.permanentFailure <==> |r.attempts| == 1 && r.result.Some? && !r.result.value.success && !MayPass(r.result.value))
  }

  ghost predicate AllRetryable(attempts: seq<Attempt>) {
    forall i | 0 <= i < |attempts| :: attempts[i].result.Some? && MayPass(attempts[i].result.value)
  }

  lemma OutcomeRecorded(signal: real, position: real, result: Option<OrderResult>, attempts: seq<Attempt>, maxAttempts: int)
    requires attempts != [] && AllRetryable(attempts[..|attempts| - 1])
    requires attempts[|attempts| - 1] == Attempt(IntendedAction(signal, position), position, result)
    ensures var r := OutcomeOf(IntendedAction(signal, position), position, result, attempts, maxAttempts);
            && Recorded(r, signal) && r.attempts == attempts && r.result == result && r.position == position
            && r.action == IntendedAction(signal, position) && (r.permanentFailure ==> |attempts| == 1 && result.Some?)
  {
    hide IntendedAction, IsRetryable, MayPass;
    if result.Some? {
      PolicyMeans(result.value);
    }
  }

  lemma WithinBound(before: real, after: real, x: real, bound: real)
    requires Abs(before) <= bound && Abs(after) <= bound && Between(before, after, x)
    ensures Abs(x) <= bound
  {
  }

  /** An order that is due, however much of it fills or rests, is safe and within the bound. */
  lemma PlacementIsSafe(signal: real, qty: real, position: real, bound: real, order: Order)
    requires OrderFor(IntendedAction(signal, position), qty, position) == Some(order)
    requires Abs(position) <= bound && qty + FLAT_EPS <= bound
    ensures order.qty > 0.0 && forall p: Placement | p.position == position && p.order == order && p.resting == 0 :: Safe(p)
    ensures Abs(position + Signed(order)) <= bound
  {
    OrderIsSafe(signal, qty, position);
  }

  class OrderRetryExecutor {
    const maxAttempts: int

    constructor (maxAttempts: int)
      ensures this.maxAttempts == maxAttempts
    {
      this.maxAttempts := maxAttempts;
    }

    /**
     `execute`. Over every run of the broker: at most `maxAttempts` orders, each the one due,
     on a clear book and never through zero, exposure within the larger of the position it
     found and the quantity asked for; the trailing assertion fails only when no attempt is
     allowed.
     */
    method Execute(broker: Broker, signal: real, qty: real)
      returns (r: Result<RetryResult, ExecError>, ghost run: seq<Placement>)
      requires broker.Valid() && broker.resting == []
      modifies broker
      ensures broker.placed == old(broker.placed) + run
      ensures RunOf(run, r, broker.position, signal, qty, maxAttempts)
      ensures |run| <= (if maxAttempts < 0 then 0 else maxAttempts)
      ensures forall i | 0 <= i < |run| :: Safe(run[i])
      ensures Exposed(broker.position, broker.resting, Max(Abs(old(broker.position)), qty + FLAT_EPS))
      ensures r.Ok? ==> Recorded(r.value, signal) && |r.value.attempts| <= maxAttempts
      ensures r.Ok? && r.value.permanentFailure ==> |run| == 1
      ensures r == Err(AssertionFailed) <==> maxAttempts < 1
      ensures r.Ok? && broker.resting != [] ==>
                r.value.result.None? || !MayPass(r.value.result.value)
      ensures r.Ok? && |r.value.attempts| > |run| ==> broker.position == r.value.position && broker.resting == []
    {
      hide *;
      var attempts: seq<Attempt> := [];
      run := [];
      ghost var bound := Max(Abs(broker.position), qty + FLAT_EPS);
      ghost var before := broker.placed;
      BoundCovers(broker.position, qty);
      NoneYet(signal, qty, attempts);
      var n := 1;
      while n <= maxAttempts
        invariant broker.Valid() && broker.resting == []
        invariant |run| == n - 1 && (n == 1 || n <= maxAttempts)
        invariant broker.placed == before + run
        invariant forall i | 0 <= i < |run| :: Safe(run[i])
        invariant Abs(broker.position) <= bound
        invariant Underway(run, signal, qty) && attempts == AttemptsOf(run, signal)
      {
        var position := broker.GetPosition();
        var action := IntendedAction(signal, position);
        var order := OrderFor(action, qty, position);
        if order.None? {
          attempts := attempts + [Attempt(action, position, None)];
          r := Ok(OutcomeOf(action, position, None, attempts, maxAttempts));
          NothingDue(run, signal, qty, position, attempts, maxAttempts);
          ClearBook(position, bound);
          return;
        }
        PlacementIsSafe(signal, qty, position, bound, order.value);
        var placed, again, p := PlaceAndSettle(broker, order.value, bound);
        ghost var earlier := run;
        run := run + [p];
        OneMore(earlier, p, signal, qty);
        if placed.Err? {
          r := Err(placed.error);
          RunRaised(earlier, p, broker.position, signal, qty, maxAttempts);
          return;
        }
        attempts := attempts + [Attempt(action, position, placed.value)];
        if !again || n >= maxAttempts {
          r := Ok(OutcomeOf(action, position, placed.value, attempts, maxAttempts));
          RunEnded(earlier, p, broker.position, signal, qty, attempts, maxAttempts);
          return;
        }
        n := n + 1;
      }
      r := Err(AssertionFailed);
      NoAttempts(broker.position, signal, qty, maxAttempts);
      ClearBook(broker.position, bound);
    }

    /**
     One placement. An unconfirmed order is cancelled before anything else is tried; a
     cancel that fails ends the run, with the reason that pauses the deployment.
     */
    method PlaceAndSettle(broker: Broker, order: Order, ghost bound: real)
      returns (r: Result<Option<OrderResult>, ExecError>, again: bool, ghost p: Placement)
      requires broker.Valid() && broker.resting == [] && order.qty > 0.0
      requires Abs(broker.position) <= bound && Abs(broker.position + Signed(order)) <= bound
      modifies broker
      ensures broker.Valid() && Exposed(broker.position, broker.resting, bound) && Abs(broker.position) <= bound
      ensures broker.placed == old(broker.placed) + [p] && p.position == old(broker.position) && p.order == order && p.resting == 0
      ensures Settled(p) && (again <==> GoesOn(p))
      ensures r == if Raised(p) then Err(AdapterRaised) else Ok(ResultOf(p))
      ensures again ==> broker.resting == []
      ensures r.Ok? && broker.resting != [] ==> r.value.None? || !MayPass(r.value.value)
    {
      hide IsRetryable, IsUnconfirmed, HasId, FillUnknown, Mentions, Moved, Between, Signed, Abs, Honest;
      again := false;
      var placed, filled, left := broker.PlaceOrder(order);
      p := broker.placed[|broker.placed| - 1];
      ExposureAfter(old(broker.position), broker.position, filled, left, order, bound);
      if placed.Err? {
        return Err(placed.error), again, p;
      }
      var result := placed.value;
      if result.Some? {
        PolicyMeans(result.value);
      }
      if result.None? || result.value.success || !IsRetryable(result.value) {
        SuccessIsFinal(result);
        return Ok(result), again, p;
      }
      if IsUnconfirmed(result.value) && HasId(result.value) {
        ghost var held, book := broker.position, broker.resting;
        var cancelled := broker.CancelOrder(result.value.orderId.value);
        p := broker.placed[|broker.placed| - 1];
        if book != [] {
          WithinBound(held, held + book[0].left, broker.position, bound);
        }
        if cancelled.Err? {
          return Err(cancelled.error), again, p;
        }
        if !cancelled.value {
          var failed := result.value.(reason := Some(CancelFailed));
          TypedIsFinal(failed);
          return Ok(Some(failed)), again, p;
        }
      }
      return Ok(result), true, p;
    }
  }

  lemma NoneYet(signal: real, qty: real, attempts: seq<Attempt>)
    requires attempts == []
    ensures Underway([], signal, qty) && attempts == AttemptsOf([], signal)
  {
  }

  lemma OneMore(earlier: seq<Placement>, p: Placement, signal: real, qty: real)
    requires Underway(earlier, signal, qty) && Settled(p)
    requires OrderFor(IntendedAction(signal, p.position), qty, p.position) == Some(p.order)
    ensures Due(p, signal, qty) && (GoesOn(p) ==> Underway(earlier + [p], signal, qty))
    ensures AttemptsOf(earlier + [p], signal)
            == AttemptsOf(earlier, signal) + [Attempt(IntendedAction(signal, p.position), p.position, ResultOf(p))]
  {
    hide Settled, GoesOn, IntendedAction, OrderFor, ResultOf;
  }

  /** The attempts of a run so far are failures that may pass. */
  lemma UnderwayIsRetryable(run: seq<Placement>, signal: real, qty: real)
    requires Underway(run, signal, qty)
    ensures AllRetryable(AttemptsOf(run, signal))
  {
    hide MayPass, IntendedAction, Due;
  }

  lemma NothingDue(run: seq<Placement>, signal: real, qty: real, position: real, attempts: seq<Attempt>, maxAttempts: int)
    requires Underway(run, signal, qty) && |run| < maxAttempts
    requires OrderFor(IntendedAction(signal, position), qty, position) == None
    requires attempts == AttemptsOf(run, signal) + [Attempt(IntendedAction(signal, position), position, None)]
    ensures var r := OutcomeOf(IntendedAction(signal, position), position, None, attempts, maxAttempts);
            && RunOf(run, Ok(r), position, signal, qty, maxAttempts) && Recorded(r, signal)
            && r.attempts == attempts && |attempts| == |run| + 1 && r.position == position && !r.permanentFailure
  {
    hide MayPass, IntendedAction, Due, OrderFor, ResultOf, Recorded, OutcomeOf;
    UnderwayIsRetryable(run, signal, qty);
    assert attempts[..|attempts| - 1] == AttemptsOf(run, signal);
    OutcomeRecorded(signal, position, None, attempts, maxAttempts);
  }

  lemma RunRaised(earlier: seq<Placement>, p: Placement, position: real, signal: real, qty: real, maxAttempts: int)
    requires Underway(earlier, signal, qty) && Due(p, signal, qty) && Raised(p)
    ensures RunOf(earlier + [p], Err(AdapterRaised), position, signal, qty, maxAttempts)
  {
    hide Underway, Due, Raised;
    assert (earlier + [p])[..|earlier|] == earlier;
  }

  lemma RunEnded(earlier: seq<Placement>, p: Placement, position: real, signal: real, qty: real, attempts: seq<Attempt>,
                 maxAttempts: int)
    requires Underway(earlier, signal, qty) && Due(p, signal, qty) && !Raised(p)
    requires !GoesOn(p) || |earlier| + 1 == maxAttempts
    requires attempts == AttemptsOf(earlier + [p], signal)
    ensures var r := OutcomeOf(IntendedAction(signal, p.position), p.position, ResultOf(p), attempts, maxAttempts);
            && RunOf(earlier + [p], Ok(r), position, signal, qty, maxAttempts) && Recorded(r, signal)
            && r.attempts == attempts && |attempts| == |earlier| + 1 && r.result == ResultOf(p)
            && (r.permanentFailure ==> earlier == [])
  {
    hide MayPass, IntendedAction, Due, OrderFor, ResultOf, Recorded, OutcomeOf, Raised, GoesOn;
    assert (earlier + [p])[..|earlier|] == earlier;
    UnderwayIsRetryable(earlier, signal, qty);
    assert attempts[..|attempts| - 1] == AttemptsOf(earlier, signal);
    OutcomeRecorded(signal, p.position, ResultOf(p), attempts, maxAttempts);
  }

  lemma NoAttempts(position: real, signal: real, qty: real, maxAttempts: int)
    requires maxAttempts < 1
    ensures RunOf([], Err(AssertionFailed), position, signal, qty, maxAttempts)
  {
  }

  lemma ClearBook(position: real, bound: real)
    requires Abs(position) <= bound
    ensures Exposed(position, [], bound)
  {
  }

  lemma SuccessIsFinal(result: Option<OrderResult>)
    ensures result.Some? && result.value.success ==> !MayPass(result.value)
  {
  }

  /** A reject whose reason is known is never tried again. */
  lemma TypedIsFinal(result: OrderResult)
    ensures result.reason.Some? ==> !MayPass(result)
  {
  }

  lemma BoundCovers(position: real, qty: real)
    ensures var bound := Max(Abs(position), qty + FLAT_EPS);
            Abs(position) <= bound && qty + FLAT_EPS <= bound
  {
  }

  lemma ExposureAfter(before: real, after: real, filled: real, left: real, order: Order, bound: real)
    requires Abs(before) <= bound && Abs(before + Signed(order)) <= bound
    requires Moved(before, after, filled, left, order)
    ensures Abs(after) <= bound && Abs(after + left) <= bound
  {
  }
}
