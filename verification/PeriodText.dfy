/**
 Reading a period back from text (`parse_period` in quant/shared/intervals.py).

 REFDATA rows reach a reader through JSON, where Python's `str` has turned each
 timedelta into text such as "1 day, 0:00:00". Here a timedelta is an integer count of
 microseconds. The digits and blanks the pattern accepts are the ASCII ones.
 */
module PeriodText {
  import opened Outcomes

  const SECOND := 1_000_000
  const MINUTE := 60_000_000
  const HOUR := 3_600_000_000
  const DAY := 86_400_000_000

  datatype PeriodValue = Delta(micros: int) | Text(text: string) | Other

  datatype PeriodError = Unrecognised | NotPositive | WrongType

  // ── decimal numerals ───────────────────────────────────────────────────

  predicate IsDigit(c: char) {
    '0' <= c <= '9'
  }

  predicate IsBlank(c: char) {
    c == ' ' || 9 <= c as int <= 13 || 28 <= c as int <= 31
  }

  predicate AllDigits(s: string) {
    forall i | 0 <= i < |s| :: IsDigit(s[i])
  }

  function DigitChar(d: int): char
    requires 0 <= d < 10
  {
    '0' + d as char
  }

  function NatText(n: nat): (s: string)
    ensures AllDigits(s) && |s| > 0
  {
    if n < 10 then [DigitChar(n)] else NatText(n / 10) + [DigitChar(n % 10)]
  }

  /** `n`'s last `width` decimal digits, as Python's zero-padded "%0<width>d". */
  function PaddedText(n: nat, width: nat): (s: string)
    ensures AllDigits(s) && |s| == width
  {
    if width == 0 then "" else PaddedText(n / 10, width - 1) + [DigitChar(n % 10)]
  }

  function NatOf(s: string): nat
    requires AllDigits(s)
  {
    if s == "" then 0 else NatOf(s[..|s| - 1]) * 10 + (s[|s| - 1] - '0') as int
  }

  lemma NatOfAppend(s: string, d: int)
    requires AllDigits(s) && 0 <= d < 10
    ensures NatOf(s + [DigitChar(d)]) == NatOf(s) * 10 + d
  {
    assert (s + [DigitChar(d)])[..|s|] == s;
  }

  lemma {:induction false} NatTextReads(n: nat)
    ensures NatOf(NatText(n)) == n
  {
    if n < 10 {
      NatOfAppend("", n);
      assert "" + [DigitChar(n)] == [DigitChar(n)];
    } else {
      NatTextReads(n / 10);
      NatOfAppend(NatText(n / 10), n % 10);
    }
  }

  function PowerOfTen(width: nat): nat {
    if width == 0 then 1 else 10 * PowerOfTen(width - 1)
  }

  lemma {:induction false} PaddedTextReads(n: nat, width: nat)
    requires n < PowerOfTen(width)
    ensures NatOf(PaddedText(n, width)) == n
  {
    if width > 0 {
      PaddedTextReads(n / 10, width - 1);
      NatOfAppend(PaddedText(n / 10, width - 1), n % 10);
    }
  }

  // ── the pattern, read left to right ────────────────────────────────────

  function SkipBlanks(s: string): string {
    if s != "" && IsBlank(s[0]) then SkipBlanks(s[1..]) else s
  }

  function DropOptional(s: string, c: char): string {
    if s != "" && s[0] == c then s[1..] else s
  }

  function TakeDigits(s: string): (r: (string, string))
    ensures AllDigits(r.0)
  {
    if s != "" && IsDigit(s[0]) then
      var (run, rest) := TakeDigits(s[1..]);
      ([s[0]] + run, rest)
    else ("", s)
  }

  /** `-?\d+`: the integer and what follows it. */
  function TakeInteger(s: string): Option<(int, string)> {
    var body := DropOptional(s, '-');
    var (run, rest) := TakeDigits(body);
    var n: int := NatOf(run);
    if run == "" then None
    else Some((if |body| < |s| then -n else n, rest))
  }

  /** `:\d{1,2}`: the field and what follows it. */
  function TakeField(s: string): Option<(nat, string)> {
    if s == "" || s[0] != ':' then None
    else
      var (run, rest) := TakeDigits(s[1..]);
      if 1 <= |run| <= 2 then Some((NatOf(run), rest)) else None
  }

  /** `(\.\d+)?\s*$`: the microseconds, the fraction cut or padded to six digits. */
  function TakeFraction(s: string): Option<nat> {
    if s != "" && s[0] == '.' then
      var (run, rest) := TakeDigits(s[1..]);
      if run != "" && SkipBlanks(rest) == "" then Some(NatOf(SixDigits(run))) else None
    else if SkipBlanks(s) == "" then Some(0)
    else None
  }

  function SixDigits(run: string): (s: string)
    requires AllDigits(run)
    ensures AllDigits(s) && |s| == 6
  {
    (run + "000000")[..6]
  }

  function ReadClock(days: int, s: string): Option<int> {
    match TakeInteger(s)
    case None => None
    case Some((hours, s1)) =>
      match TakeField(s1)
      case None => None
      case Some((minutes, s2)) =>
        match TakeField(s2)
        case None => None
        case Some((seconds, s3)) =>
          match TakeFraction(s3)
          case None => None
          case Some(micros) =>
            Some(days * DAY + hours * HOUR + minutes * MINUTE + seconds * SECOND + micros)
  }

  /** The rest of the text after the optional "<n> days, " prefix, with its `n`. */
  function ReadDays(s: string): (int, string) {
    match TakeInteger(s)
    case None => (0, s)
    case Some((days, after)) =>
      var word := SkipBlanks(after);
      if |word| < |after| && "day" <= word then
        (days, SkipBlanks(DropOptional(DropOptional(word[3..], 's'), ',')))
      else (0, s)
  }

  function ParsePeriod(value: PeriodValue): Result<int, PeriodError> {
    match value
    case Delta(micros) => RequirePositive(micros)
    case Text(text) =>
      (var (days, clock) := ReadDays(SkipBlanks(text));
       match ReadClock(days, clock)
       case None => Err(Unrecognised)
       case Some(micros) => RequirePositive(micros))
    case Other => Err(WrongType)
  }

  function RequirePositive(micros: int): Result<int, PeriodError> {
    if micros <= 0 then Err(NotPositive) else Ok(micros)
  }

  // ── Python's str(timedelta) ────────────────────────────────────────────

  function IntText(n: int): string {
    if n < 0 then "-" + NatText(-n) else NatText(n)
  }

  function FieldText(n: nat): string {
    ":" + PaddedText(n, 2)
  }

  function FractionText(micros: nat): string {
    if micros == 0 then "" else "." + PaddedText(micros, 6)
  }

  function ClockText(hours: nat, minutes: nat, seconds: nat, micros: nat): string {
    NatText(hours) + (FieldText(minutes) + (FieldText(seconds) + FractionText(micros)))
  }

  function DayWord(days: int): string {
    if days == 1 || days == -1 then " day, " else " days, "
  }

  function TimedeltaText(micros: int): string {
    var days, rest := micros / DAY, micros % DAY;
    var clock := ClockText(
                   rest / HOUR, rest / MINUTE % 60, rest / SECOND % 60, rest % SECOND);
    AfterDays(days, clock)
  }

  function AfterDays(days: int, clock: string): string {
    if days == 0 then clock else IntText(days) + (DayWord(days) + clock)
  }

  // ── round trip ─────────────────────────────────────────────────────────

  lemma {:induction false} TakeDigitsReads(run: string, rest: string)
    requires AllDigits(run)
    requires rest != "" ==> !IsDigit(rest[0])
    ensures TakeDigits(run + rest) == (run, rest)
  {
    if run == "" {
      assert run + rest == rest;
    } else {
      assert (run + rest)[1..] == run[1..] + rest;
      TakeDigitsReads(run[1..], rest);
      assert [run[0]] + run[1..] == run;
    }
  }

  lemma TakeIntegerOfRun(s: string, run: string, rest: string)
    requires DropOptional(s, '-') == run + rest
    requires AllDigits(run) && run != ""
    requires rest != "" ==> !IsDigit(rest[0])
    ensures var n: int := NatOf(run);
            TakeInteger(s) == Some((if s[0] == '-' then -n else n, rest))
  {
    TakeDigitsReads(run, rest);
  }

  lemma TakeIntegerReads(n: int, rest: string)
    requires rest != "" ==> !IsDigit(rest[0])
    ensures TakeInteger(IntText(n) + rest) == Some((n, rest))
  {
    var m: nat := if n < 0 then -n else n;
    NatTextReads(m);
    SignReads(n, NatText(m), rest);
    TakeIntegerOfRun(IntText(n) + rest, NatText(m), rest);
  }

  lemma SignReads(n: int, run: string, rest: string)
    requires run == NatText(if n < 0 then -n else n)
    ensures DropOptional(IntText(n) + rest, '-') == run + rest
    ensures (IntText(n) + rest)[0] == '-' <==> n < 0
  {
    if n < 0 {
      assert ("-" + run + rest)[1..] == run + rest;
    } else {
      assert (run + rest)[0] == run[0] && IsDigit(run[0]);
    }
  }

  lemma TakeFieldReads(n: nat, rest: string)
    requires n < 60
    requires rest != "" ==> !IsDigit(rest[0])
    ensures TakeField(FieldText(n) + rest) == Some((n, rest))
  {
    assert PowerOfTen(2) == 100 by { assert PowerOfTen(1) == 10; }
    PaddedTextReads(n, 2);
    TakeDigitsReads(PaddedText(n, 2), rest);
    assert (FieldText(n) + rest)[1..] == PaddedText(n, 2) + rest;
  }

  lemma TakeFractionReads(micros: nat)
    requires micros < SECOND
    ensures TakeFraction(FractionText(micros)) == Some(micros)
  {
    if micros != 0 {
      var run := PaddedText(micros, 6);
      SixIsAMillion();
      PaddedTextReads(micros, 6);
      assert run + "" == run;
      TakeDigitsReads(run, "");
      assert ("." + run)[1..] == run;
      assert SixDigits(run) == run;
    }
  }

  lemma SixIsAMillion()
    ensures PowerOfTen(6) == 1_000_000
  {
    assert PowerOfTen(2) == 100;
    assert PowerOfTen(4) == 10_000;
  }

  lemma ClockReads(days: int, h: nat, m: nat, s: nat, u: nat)
    requires m < 60 && s < 60 && u < SECOND
    ensures ReadClock(days, ClockText(h, m, s, u))
            == Some(days * DAY + h * HOUR + m * MINUTE + s * SECOND + u)
  {
    hide NatText, PaddedText, TakeDigits, NatOf, SkipBlanks;
    var secs := FieldText(s) + FractionText(u);
    var mins := FieldText(m) + secs;
    assert secs[0] == ':' && mins[0] == ':';
    TakeIntegerReads(h, mins);
    TakeFieldReads(m, secs);
    TakeFieldReads(s, FractionText(u));
    TakeFractionReads(u);
  }

  lemma CalendarParts(micros: int)
    ensures var rest := micros % DAY;
            micros == micros / DAY * DAY + rest / HOUR * HOUR + rest / MINUTE % 60 * MINUTE
                      + rest / SECOND % 60 * SECOND + rest % SECOND
  {
    var rest := micros % DAY;
    assert rest / MINUTE == rest / SECOND / 60;
    assert rest / HOUR == rest / MINUTE / 60;
  }

  /** A clock text is not mistaken for a number of days. */
  lemma NoDaysRead(h: nat, m: nat, s: nat, u: nat)
    ensures ReadDays(ClockText(h, m, s, u)) == (0, ClockText(h, m, s, u))
  {
    var tail := FieldText(m) + (FieldText(s) + FractionText(u));
    assert tail[0] == ':' && !IsBlank(':') && !IsDigit(':');
    assert SkipBlanks(tail) == tail;
    assert ClockText(h, m, s, u) == IntText(h) + tail;
    hide FieldText, FractionText, ClockText, SkipBlanks, IntText, TakeInteger, DropOptional;
    TakeIntegerReads(h, tail);
  }

  lemma SomeDaysRead(days: int, clock: string)
    requires clock != "" && IsDigit(clock[0])
    ensures ReadDays(IntText(days) + (DayWord(days) + clock)) == (days, clock)
  {
    var tail := DayWord(days) + clock;
    assert tail[0] == ' ';
    TakeIntegerReads(days, tail);
    var word := tail[1..];
    assert word[0] == 'd' && "day" <= word;
    SkipOneBlank(tail);
    AfterDay(days, word[3..], clock);
  }

  lemma AfterDay(days: int, after: string, clock: string)
    requires clock != "" && IsDigit(clock[0])
    requires (DayWord(days) + clock)[4..] == after
    ensures SkipBlanks(DropOptional(DropOptional(after, 's'), ',')) == clock
  {
    var comma := DropOptional(after, 's');
    assert comma[0] == ',' && comma[1] == ' ' && comma[2..] == clock;
    SkipOneBlank(comma[1..]);
  }

  lemma SkipOneBlank(s: string)
    requires |s| > 1 && s[0] == ' ' && !IsBlank(s[1])
    ensures SkipBlanks(s) == s[1..]
  {
    assert SkipBlanks(s[1..]) == s[1..];
  }

  lemma ClockStartsWithDigit(h: nat, m: nat, s: nat, u: nat)
    ensures ClockText(h, m, s, u) != "" && IsDigit(ClockText(h, m, s, u)[0])
  {
    assert ClockText(h, m, s, u)[0] == NatText(h)[0];
  }

  lemma AfterDaysReads(days: int, clock: string)
    requires clock != "" && IsDigit(clock[0])
    requires ReadDays(clock) == (0, clock)
    ensures ReadDays(SkipBlanks(AfterDays(days, clock))) == (days, clock)
  {
    if days != 0 {
      SomeDaysRead(days, clock);
      IntTextStartsUnblank(days);
      assert AfterDays(days, clock)[0] == IntText(days)[0];
    }
  }

  lemma IntTextStartsUnblank(n: int)
    ensures IntText(n) != "" && !IsBlank(IntText(n)[0])
  {
    if n >= 0 { assert IsDigit(NatText(n)[0]); }
  }

  lemma TextReads(micros: int, days: int, h: nat, m: nat, s: nat, u: nat)
    requires m < 60 && s < 60 && u < SECOND
    requires micros == days * DAY + h * HOUR + m * MINUTE + s * SECOND + u
    ensures ParsePeriod(Text(AfterDays(days, ClockText(h, m, s, u)))) == RequirePositive(micros)
  {
    hide NatText, PaddedText, TakeDigits, NatOf, SkipBlanks, ClockText, ReadClock, ReadDays, AfterDays;
    var clock := ClockText(h, m, s, u);
    assert ReadDays(SkipBlanks(AfterDays(days, clock))) == (days, clock) by {
      ClockStartsWithDigit(h, m, s, u);
      NoDaysRead(h, m, s, u);
      AfterDaysReads(days, clock);
    }
    ClockReads(days, h, m, s, u);
    PartsParse(AfterDays(days, clock), days, clock, micros);
  }

  lemma PartsParse(text: string, days: int, clock: string, micros: int)
    requires ReadDays(SkipBlanks(text)) == (days, clock)
    requires ReadClock(days, clock) == Some(micros)
    ensures ParsePeriod(Text(text)) == RequirePositive(micros)
  {
  }

  /**
   `parse_period` inverts `str` on every positive timedelta, and refuses the text of
   every other one, as it refuses the timedelta itself.
   */
  lemma PeriodRoundTrip(micros: int)
    ensures ParsePeriod(Text(TimedeltaText(micros))) == ParsePeriod(Delta(micros))
    ensures ParsePeriod(Delta(micros)) == if micros > 0 then Ok(micros) else Err(NotPositive)
  {
    var rest := micros % DAY;
    CalendarParts(micros);
    TextReads(micros, micros / DAY,
              rest / HOUR, rest / MINUTE % 60, rest / SECOND % 60, rest % SECOND);
  }
}
