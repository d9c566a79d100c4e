/**
 Which texts `parse_period` takes, and for what period (quant/shared/intervals.py:20-56):
 the pattern as the pieces a text is made of, and the reader that goes through it once.
 */
module PeriodPattern {
  import opened Outcomes
  import opened PeriodText

  ghost predicate Blanks(s: string) {
    forall i | 0 <= i < |s| :: IsBlank(s[i])
  }

  /** An integer, with or without a minus. */
  ghost predicate IsInteger(s: string, n: int) {
    s != "" &&
    var run := if s[0] == '-' then s[1..] else s;
    run != "" && AllDigits(run) && if s[0] == '-' then n + NatOf(run) == 0 else n == NatOf(run)
  }

  /** A colon and one or two digits. */
  ghost predicate IsField(s: string, n: int) {
    2 <= |s| <= 3 && s[0] == ':' && AllDigits(s[1..]) && n == NatOf(s[1..])
  }

  /** A point and digits, of which the first six count, or nothing. */
  ghost predicate IsFraction(s: string, micros: int) {
    if s == "" then micros == 0
    else
      && |s| >= 2 && s[0] == '.' && AllDigits(s[1..])
      && AllDigits((s[1..] + "000000")[..6]) && micros == NatOf((s[1..] + "000000")[..6])
  }

  /** "<days> day", with an optional s and comma and blanks around. */
  datatype Prefix = NoDays | Days(number: string, gap: string, plural: string, comma: string, space: string) {
    ghost predicate Means(days: int) {
      match this
      case NoDays => days == 0
      case Days(number, gap, plural, comma, space) =>
        && IsInteger(number, days) && gap != "" && Blanks(gap)
        && (plural == "" || plural == "s") && (comma == "" || comma == ",") && Blanks(space)
    }

    ghost function Before(rest: string): string {
      match this
      case NoDays => rest
      case Days(number, gap, plural, comma, space) => number + (gap + ("day" + (plural + (comma + (space + rest)))))
    }
  }

  datatype Clock = Clock(hours: string, minutes: string, seconds: string, fraction: string, trail: string) {
    ghost predicate Means(h: int, m: int, s: int, u: int) {
      && IsInteger(hours, h) && IsField(minutes, m) && IsField(seconds, s) && IsFraction(fraction, u) && Blanks(trail)
    }

    ghost function Text(): string {
      hours + (minutes + (seconds + (fraction + trail)))
    }
  }

  ghost predicate IsClock(clock: Clock, days: int, micros: int) {
    exists h, m, s, u ::
      clock.Means(h, m, s, u)
      && micros == 86_400_000_000 * days + 3_600_000_000 * h + 60_000_000 * m + 1_000_000 * s + u
  }

  /** The text is made of such pieces, and they add up to so many microseconds. */
  ghost predicate Spells(text: string, micros: int) {
    exists lead: string, prefix: Prefix, clock: Clock, days: int ::
      && text == lead + prefix.Before(clock.Text()) && Blanks(lead)
      && prefix.Means(days) && IsClock(clock, days, micros)
  }

  /** A text is taken for a period exactly when it spells a positive one, and there is only one. */
  lemma PatternExact(text: string)
    ensures forall micros :: ParsePeriod(Text(text)) == Ok(micros) <==> Spells(text, micros) && micros > 0
    ensures ParsePeriod(Text(text)) == Err(NotPositive) <==> exists micros :: Spells(text, micros) && micros <= 0
    ensures ParsePeriod(Text(text)) == Err(Unrecognised) <==> forall micros :: !Spells(text, micros)
    ensures forall a, b | Spells(text, a) && Spells(text, b) :: a == b
  {
    hide Spells;
    forall micros | Spells(text, micros)
      ensures Scanned(text) == Some(micros)
    {
      SpelledIsScanned(text, micros);
    }
    if Scanned(text).Some? {
      ScannedIsSpelled(text);
    }
    ParseIsScan(text);
    hide ParsePeriod, Scanned;
  }

  /** What the text says, positive or not. */
  function Scanned(text: string): Option<int> {
    var (days, clock) := ReadDays(SkipBlanks(text));
    ReadClock(days, clock)
  }

  lemma ParseIsScan(text: string)
    ensures ParsePeriod(Text(text))
            == match Scanned(text) case None => Err(Unrecognised) case Some(n) => if n <= 0 then Err(NotPositive) else Ok(n)
  {
    hide ReadDays, ReadClock, SkipBlanks;
  }

  // ── blanks, digits and numbers ─────────────────────────────────────────

  /** The text does not go on with a blank, or with a digit. */
  ghost predicate NoBlankNext(s: string) {
    s != "" ==> !IsBlank(s[0])
  }

  ghost predicate NoDigitNext(s: string) {
    s != "" ==> !IsDigit(s[0])
  }

  lemma {:induction false} BlanksSkipped(s: string) returns (lead: string)
    ensures s == lead + SkipBlanks(s) && Blanks(lead) && NoBlankNext(SkipBlanks(s))
  {
    lead := "";
    if s != "" && IsBlank(s[0]) {
      var more := BlanksSkipped(s[1..]);
      lead := [s[0]] + more;
    }
  }

  lemma {:induction false} SkipReads(lead: string, rest: string)
    requires Blanks(lead) && NoBlankNext(rest)
    ensures SkipBlanks(lead + rest) == rest
  {
    if lead == "" {
      assert lead + rest == rest;
    } else {
      assert (lead + rest)[1..] == lead[1..] + rest;
      SkipReads(lead[1..], rest);
    }
  }

  lemma {:induction false} DigitsTaken(s: string)
    ensures var (run, rest) := TakeDigits(s);
            s == run + rest && NoDigitNext(rest)
  {
    if s != "" && IsDigit(s[0]) {
      DigitsTaken(s[1..]);
    }
  }

  lemma IntegerTaken(s: string) returns (part: string)
    requires TakeInteger(s).Some?
    ensures s == part + TakeInteger(s).value.1 && IsInteger(part, TakeInteger(s).value.0) && NoDigitNext(TakeInteger(s).value.1)
  {
    var body := DropOptional(s, '-');
    DigitsTaken(body);
    var run := TakeDigits(body).0;
    part := if |body| < |s| then "-" + run else run;
    assert |body| < |s| ==> part[1..] == run && s == "-" + body;
    assert |body| == |s| ==> part[0] != '-';
  }

  lemma IntegerReads(part: string, n: int, rest: string)
    requires IsInteger(part, n) && NoDigitNext(rest)
    ensures TakeInteger(part + rest) == Some((n, rest))
    ensures IsDigit(part[0]) || part[0] == '-'
  {
    var run := if part[0] == '-' then part[1..] else part;
    assert DropOptional(part + rest, '-') == run + rest;
    TakeIntegerOfRun(part + rest, run, rest);
  }

  lemma FieldTaken(s: string) returns (part: string)
    requires TakeField(s).Some?
    ensures s == part + TakeField(s).value.1 && IsField(part, TakeField(s).value.0) && NoDigitNext(TakeField(s).value.1)
  {
    DigitsTaken(s[1..]);
    var run := TakeDigits(s[1..]).0;
    part := ":" + run;
    assert part[1..] == run;
  }

  lemma FieldReads(part: string, n: int, rest: string)
    requires IsField(part, n) && NoDigitNext(rest)
    ensures n >= 0 && TakeField(part + rest) == Some((n, rest))
  {
    TakeDigitsReads(part[1..], rest);
    assert (part + rest)[1..] == part[1..] + rest;
  }

  // ── the fraction and what trails it ────────────────────────────────────

  lemma FractionTaken(s: string) returns (part: string, trail: string)
    requires TakeFraction(s).Some?
    ensures s == part + trail && IsFraction(part, TakeFraction(s).value) && Blanks(trail)
  {
    if s != "" && s[0] == '.' {
      DigitsTaken(s[1..]);
      var (run, rest) := TakeDigits(s[1..]);
      trail := BlanksSkipped(rest);
      part := "." + run;
      assert part[1..] == run;
      SixOf(run);
    } else {
      trail := BlanksSkipped(s);
      part := "";
    }
  }

  lemma SixOf(run: string)
    requires AllDigits(run)
    ensures AllDigits((run + "000000")[..6]) && SixDigits(run) == (run + "000000")[..6]
  {
  }

  lemma FractionReads(part: string, micros: int, trail: string)
    requires IsFraction(part, micros) && Blanks(trail)
    ensures micros >= 0 && TakeFraction(part + trail) == Some(micros) && NoDigitNext(part + trail)
  {
    SkipReads(trail, "");
    assert trail + "" == trail;
    if part == "" {
      assert part + trail == trail;
    } else {
      assert trail != "" ==> IsBlank(trail[0]);
      TakeDigitsReads(part[1..], trail);
      assert (part + trail)[1..] == part[1..] + trail;
      SixOf(part[1..]);
    }
  }

  // ── the clock ──────────────────────────────────────────────────────────

  lemma ClockTaken(s: string, days: int) returns (clock: Clock)
    requires ReadClock(days, s).Some?
    ensures s == clock.Text() && IsClock(clock, days, ReadClock(days, s).value)
  {
    hide TakeInteger, TakeField, TakeFraction, IsInteger, IsField, IsFraction, Blanks;
    var hours := IntegerTaken(s);
    var (h, s1) := TakeInteger(s).value;
    var minutes := FieldTaken(s1);
    var (m, s2) := TakeField(s1).value;
    var seconds := FieldTaken(s2);
    var (sec, s3) := TakeField(s2).value;
    var fraction, trail := FractionTaken(s3);
    clock := Clock(hours, minutes, seconds, fraction, trail);
    assert clock.Means(h, m, sec, TakeFraction(s3).value);
  }

  lemma ClockScans(clock: Clock, days: int, micros: int)
    requires IsClock(clock, days, micros)
    ensures ReadClock(days, clock.Text()) == Some(micros)
    ensures clock.Text() != "" && (IsDigit(clock.Text()[0]) || clock.Text()[0] == '-')
    ensures TakeInteger(clock.Text()).Some? && TakeInteger(clock.Text()).value.1 != "" && TakeInteger(clock.Text()).value.1[0] == ':'
  {
    var h, m, s, u :|
      clock.Means(h, m, s, u)
      && micros == 86_400_000_000 * days + 3_600_000_000 * h + 60_000_000 * m + 1_000_000 * s + u;
    FractionReads(clock.fraction, u, clock.trail);
    var s3 := clock.fraction + clock.trail;
    FieldReads(clock.seconds, s, s3);
    var s2 := clock.seconds + s3;
    assert s2[0] == ':';
    FieldReads(clock.minutes, m, s2);
    var s1 := clock.minutes + s2;
    assert s1[0] == ':';
    IntegerReads(clock.hours, h, s1);
    hide TakeInteger, TakeField, TakeFraction, IsInteger, IsField, IsFraction, Blanks, NatOf;
    assert clock.Text() == clock.hours + s1;
  }

  // ── the days ───────────────────────────────────────────────────────────

  lemma OptionalDropped(s: string, c: char) returns (part: string)
    ensures s == part + DropOptional(s, c) && (part == "" || part == [c])
  {
    part := if s != "" && s[0] == c then [c] else "";
  }

  lemma DaysTaken(s: string) returns (prefix: Prefix)
    ensures var (days, rest) := ReadDays(s);
            s == prefix.Before(rest) && prefix.Means(days)
  {
    hide TakeInteger, SkipBlanks, DropOptional, IsInteger, Blanks;
    prefix := NoDays;
    if TakeInteger(s).Some? {
      var number := IntegerTaken(s);
      var after := TakeInteger(s).value.1;
      var gap := BlanksSkipped(after);
      var word := SkipBlanks(after);
      if |word| < |after| && "day" <= word {
        var plural, comma, space := WordTaken(word);
        prefix := Days(number, gap, plural, comma, space);
      }
    }
  }

  lemma WordTaken(word: string) returns (plural: string, comma: string, space: string)
    requires "day" <= word
    ensures word == "day" + (plural + (comma + (space + SkipBlanks(DropOptional(DropOptional(word[3..], 's'), ',')))))
    ensures (plural == "" || plural == "s") && (comma == "" || comma == ",") && Blanks(space)
  {
    plural := OptionalDropped(word[3..], 's');
    var tail := DropOptional(word[3..], 's');
    comma := OptionalDropped(tail, ',');
    space := BlanksSkipped(DropOptional(tail, ','));
    hide *;
    assert word == "day" + word[3..];
  }

  lemma DaysScan(prefix: Prefix, days: int, clock: string)
    requires prefix.Means(days)
    requires clock != "" && (IsDigit(clock[0]) || clock[0] == '-')
    requires prefix.NoDays? ==> TakeInteger(clock).Some? && TakeInteger(clock).value.1 != "" && TakeInteger(clock).value.1[0] == ':'
    ensures ReadDays(prefix.Before(clock)) == (days, clock)
    ensures NoBlankNext(prefix.Before(clock))
  {
    if prefix.Days? {
      var word := "day" + (prefix.plural + (prefix.comma + (prefix.space + clock)));
      WordScans(prefix, clock);
      SkipReads(prefix.gap, word);
      assert IsBlank(prefix.gap[0]);
      IntegerReads(prefix.number, days, prefix.gap + word);
      hide TakeInteger, SkipBlanks, DropOptional, IsInteger, Blanks;
      assert "day" <= word;
      assert prefix.Before(clock) == prefix.number + (prefix.gap + word);
    } else {
      var after := TakeInteger(clock).value.1;
      assert SkipBlanks(after) == after;
    }
  }

  lemma WordScans(prefix: Prefix, clock: string)
    requires prefix.Days? && (prefix.plural == "" || prefix.plural == "s") && (prefix.comma == "" || prefix.comma == ",")
    requires Blanks(prefix.space) && clock != "" && (IsDigit(clock[0]) || clock[0] == '-')
    ensures var word := "day" + (prefix.plural + (prefix.comma + (prefix.space + clock)));
            SkipBlanks(DropOptional(DropOptional(word[3..], 's'), ',')) == clock
  {
    var tail := prefix.space + clock;
    assert tail[0] == (if prefix.space == "" then clock[0] else prefix.space[0]);
    SkipReads(prefix.space, clock);
    assert DropOptional(prefix.comma + tail, ',') == tail;
    assert DropOptional(prefix.plural + (prefix.comma + tail), 's') == prefix.comma + tail;
    var word := "day" + (prefix.plural + (prefix.comma + tail));
    assert word[3..] == prefix.plural + (prefix.comma + tail);
  }

  // ── the whole text ─────────────────────────────────────────────────────

  lemma ScannedIsSpelled(text: string)
    requires Scanned(text).Some?
    ensures Spells(text, Scanned(text).value)
  {
    var lead := BlanksSkipped(text);
    var prefix := DaysTaken(SkipBlanks(text));
    var (days, rest) := ReadDays(SkipBlanks(text));
    var clock := ClockTaken(rest, days);
    hide ReadDays, ReadClock, SkipBlanks, Blanks, IsClock;
  }

  lemma SpelledIsScanned(text: string, micros: int)
    requires Spells(text, micros)
    ensures Scanned(text) == Some(micros)
  {
    var lead: string, prefix: Prefix, clock: Clock, days: int :|
      && text == lead + prefix.Before(clock.Text()) && Blanks(lead)
      && prefix.Means(days) && IsClock(clock, days, micros);
    ClockScans(clock, days, micros);
    hide IsClock, ReadClock;
    DaysScan(prefix, days, clock.Text());
    SkipReads(lead, prefix.Before(clock.Text()));
    hide ReadDays, SkipBlanks, Blanks;
  }
}
