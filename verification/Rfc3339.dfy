/**
 Timestamps in the form of section 5.6 of RFC 3339, as the `chrono` crate writes a UTC time and
 reads a time with an offset. A time is kept by its civil fields; a leap second has second 60.
 */
module Rfc3339 {
  import opened Wrappers
  import opened Text

  datatype Date = Date(year: int, month: nat, day: nat) {
    predicate Ok() { 1 <= month <= 12 && 1 <= day <= DaysIn(year, month) }
  }

  datatype Time = Time(date: Date, hour: nat, minute: nat, second: nat, nanos: nat) {
    predicate Ok() { date.Ok() && hour < 24 && minute < 60 && second <= 60 && nanos < 1_000_000_000 }
  }

  predicate LeapYear(y: int) { y % 4 == 0 && (y % 100 != 0 || y % 400 == 0) }

  function DaysIn(year: int, month: nat): nat {
    if month == 2 then if LeapYear(year) then 29 else 28
    else if month == 4 || month == 6 || month == 9 || month == 11 then 30
    else 31
  }

  function NextDay(d: Date): Date {
    if d.day < DaysIn(d.year, d.month) then d.(day := d.day + 1)
    else if d.month < 12 then Date(d.year, d.month + 1, 1)
    else Date(d.year + 1, 1, 1)
  }

  function DayBefore(d: Date): Date
    requires d.Ok()
  {
    if d.day > 1 then d.(day := d.day - 1)
    else if d.month > 1 then Date(d.year, d.month - 1, DaysIn(d.year, d.month - 1))
    else Date(d.year - 1, 12, 31)
  }

  lemma DaysAreNeighbours(d: Date)
    requires d.Ok()
    ensures NextDay(d).Ok() && DayBefore(d).Ok()
    ensures DayBefore(NextDay(d)) == d && NextDay(DayBefore(d)) == d
  {
  }

  // ---- Decimal fields of fixed width ---------------------------------------

  function Pow10(k: nat): nat { if k == 0 then 1 else 10 * Pow10(k - 1) }

  function Pad(n: nat, width: nat): (s: string)
    ensures |s| == width
  {
    if width == 0 then "" else Pad(n / 10, width - 1) + [DigitChar(n % 10)]
  }

  lemma {:induction false} PadValue(n: nat, width: nat)
    requires n < Pow10(width)
    ensures AllDigits(Pad(n, width)) && DigitsValue(Pad(n, width)) == n
  {
    if width > 0 {
      PadValue(n / 10, width - 1);
      assert Pad(n, width)[..width - 1] == Pad(n / 10, width - 1);
    }
  }

  lemma Widths()
    ensures Pow10(2) == 100 && Pow10(3) == 1_000 && Pow10(4) == 10_000
    ensures Pow10(6) == 1_000_000 && Pow10(9) == 1_000_000_000
  {
    assert Pow10(1) == 10 && Pow10(5) == 100_000 && Pow10(7) == 10_000_000 && Pow10(8) == 100_000_000;
  }

  function Number(s: string): Option<nat> { if AllDigits(s) then Some(DigitsValue(s)) else None }

  // ---- Writing -------------------------------------------------------------

  /** Four digits; a year outside 0 to 9999 gets a sign. */
  function YearText(y: int): string {
    if 0 <= y <= 9999 then Pad(y, 4)
    else if y < 0 then "-" + SignedYear(-y)
    else "+" + SignedYear(y)
  }

  function SignedYear(y: nat): string { if y <= 9999 then Pad(y, 4) else NatToString(y) }

  function DateText(d: Date): string { YearText(d.year) + "-" + Pad(d.month, 2) + "-" + Pad(d.day, 2) }

  /** No fraction, milliseconds, microseconds or nanoseconds, whichever is the shortest exact one. */
  function FractionText(nanos: nat): string {
    if nanos == 0 then ""
    else if nanos % 1_000_000 == 0 then "." + Pad(nanos / 1_000_000, 3)
    else if nanos % 1_000 == 0 then "." + Pad(nanos / 1_000, 6)
    else "." + Pad(nanos, 9)
  }

  function ClockText(t: Time): string { Pad(t.hour, 2) + ":" + Pad(t.minute, 2) + ":" + Pad(t.second, 2) }

  /** `to_rfc3339` of a UTC time. */
  function ToText(t: Time): string {
    DateText(t.date) + "T" + ClockText(t) + (FractionText(t.nanos) + "+00:00")
  }

  // ---- Reading -------------------------------------------------------------

  function ParseDate(s: string): Option<Date>
    requires |s| == 10
  {
    if s[4] != '-' || s[7] != '-' then None
    else match (Number(s[..4]), Number(s[5..7]), Number(s[8..]))
      case (Some(y), Some(m), Some(d)) => if Date(y, m, d).Ok() then Some(Date(y, m, d)) else None
      case _ => None
  }

  datatype Clock = Clock(hour: nat, minute: nat, second: nat)

  function ParseClock(s: string): (r: Option<Clock>)
    requires |s| == 8
    ensures r.Some? ==> r.value.hour < 24 && r.value.minute < 60 && r.value.second <= 60
  {
    if s[2] != ':' || s[5] != ':' then None
    else match (Number(s[..2]), Number(s[3..5]), Number(s[6..]))
      case (Some(h), Some(m), Some(sec)) => if h < 24 && m < 60 && sec <= 60 then Some(Clock(h, m, sec)) else None
      case _ => None
  }

  /** How many digits a text begins with. */
  function LeadingDigits(s: string): (n: nat)
    ensures n <= |s| && forall i | 0 <= i < n :: IsDigit(s[i])
    ensures n < |s| ==> !IsDigit(s[n])
  {
    if s == "" || !IsDigit(s[0]) then 0 else 1 + LeadingDigits(s[1..])
  }

  /** A fraction of a second in nanoseconds, the digits after the ninth ignored, and how long it was. */
  function ParseFraction(s: string): (r: Option<(nat, nat)>)
    ensures r.Some? ==> r.value.1 <= |s|
  {
    if s == "" || s[0] != '.' then Some((0, 0))
    else
      var n := LeadingDigits(s[1..]);
      if n == 0 then None else Some((Nanos(s[1..][..n]), n + 1))
  }

  function Nanos(digits: string): nat
    requires AllDigits(digits)
  {
    if |digits| >= 9 then DigitsValue(digits[..9]) else DigitsValue(digits) * Pow10(9 - |digits|)
  }

  /** The offset from UTC in minutes: `Z`, or a sign with hours and minutes. */
  function ParseOffset(s: string): (r: Option<int>)
    ensures r.Some? ==> -1440 < r.value < 1440
  {
    if s == "Z" || s == "z" then Some(0)
    else if |s| == 6 && (s[0] == '+' || s[0] == '-') && s[3] == ':' then
      match (Number(s[1..3]), Number(s[4..]))
      case (Some(h), Some(m)) =>
        var minutes: int := 60 * h + m;
        if h < 24 && m < 60 then Some(if s[0] == '-' then -minutes else minutes) else None
      case _ => None
    else None
  }

  /** The same moment in UTC: minutes move, and with them at most one day; seconds stay. */
  function ToUtc(d: Date, c: Clock, nanos: nat, offset: int): Time
    requires d.Ok() && c.hour < 24 && c.minute < 60 && -1440 < offset < 1440
  {
    var minutes := 60 * c.hour + c.minute - offset;
    if minutes < 0 then Time(DayBefore(d), (minutes + 1440) / 60, minutes % 60, c.second, nanos)
    else if minutes >= 1440 then Time(NextDay(d), (minutes - 1440) / 60, minutes % 60, c.second, nanos)
    else Time(d, minutes / 60, minutes % 60, c.second, nanos)
  }

  /** `parse_from_rfc3339`, taken to UTC. Between date and time may stand `T`, `t` or, as the RFC notes, a space. */
  function Parse(s: string): Option<Time> {
    if |s| < 19 || (s[10] != 'T' && s[10] != 't' && s[10] != ' ') then None
    else ParseParts(s[..10], s[11..19], s[19..])
  }

  function ParseParts(date: string, clock: string, tail: string): Option<Time>
    requires |date| == 10 && |clock| == 8
  {
    match (ParseDate(date), ParseClock(clock), ParseFraction(tail))
    case (Some(d), Some(c), Some(f)) =>
      (match ParseOffset(tail[f.1..])
       case Some(offset) => Some(ToUtc(d, c, f.0, offset))
       case None => None)
    case _ => None
  }

  // ---- The moment a time denotes -------------------------------------------

  function DaysBeforeYear(y: int): int {
    365 * (y - 1) + (y - 1) / 4 - (y - 1) / 100 + (y - 1) / 400
  }

  function DaysBeforeMonth(y: int, m: nat): nat
    decreases m
  {
    if m <= 1 then 0 else DaysBeforeMonth(y, m - 1) + DaysIn(y, m - 1)
  }

  function DayNumber(d: Date): int { DaysBeforeYear(d.year) + DaysBeforeMonth(d.year, d.month) + d.day }

  function MinuteNumber(t: Time): int { 1440 * DayNumber(t.date) + 60 * t.hour + t.minute }

  lemma QuotientStep(x: int, k: int)
    requires k == 4 || k == 100 || k == 400
    ensures x / k == (x - 1) / k + if x % k == 0 then 1 else 0
  {
    if k == 4 {
    } else if k == 100 {
    } else {
    }
  }

  lemma CenturiesAreFourths(y: int)
    ensures y % 100 == 0 ==> y % 4 == 0
    ensures y % 400 == 0 ==> y % 100 == 0
  {
    assert y % 100 == 0 ==> y == 4 * (25 * (y / 100));
    assert y % 400 == 0 ==> y == 100 * (4 * (y / 400));
  }

  lemma MonthsOfYear(y: int)
    ensures DaysBeforeMonth(y, 12) == 306 + DaysIn(y, 2)
  {
    assert DaysBeforeMonth(y, 3) == 31 + DaysIn(y, 2);
    assert DaysBeforeMonth(y, 5) == DaysBeforeMonth(y, 3) + 61;
    assert DaysBeforeMonth(y, 7) == DaysBeforeMonth(y, 5) + 61;
    assert DaysBeforeMonth(y, 9) == DaysBeforeMonth(y, 7) + 62;
    assert DaysBeforeMonth(y, 11) == DaysBeforeMonth(y, 9) + 61;
  }

  /** Thirty days have September, April, June and November: the days before a month in closed form. */
  lemma DaysBeforeMonthFormula(y: int, m: nat)
    requires 1 <= m <= 12
    ensures DaysBeforeMonth(y, m) == (367 * m - 362) / 12 - if m <= 2 then 0 else if LeapYear(y) then 1 else 2
  {
    assert DaysBeforeMonth(y, 2) == 31 && DaysBeforeMonth(y, 3) == 31 + DaysIn(y, 2);
    assert DaysBeforeMonth(y, 4) == DaysBeforeMonth(y, 3) + 31;
    assert DaysBeforeMonth(y, 5) == DaysBeforeMonth(y, 4) + 30;
    assert DaysBeforeMonth(y, 6) == DaysBeforeMonth(y, 5) + 31;
    assert DaysBeforeMonth(y, 7) == DaysBeforeMonth(y, 6) + 30;
    assert DaysBeforeMonth(y, 8) == DaysBeforeMonth(y, 7) + 31;
    assert DaysBeforeMonth(y, 9) == DaysBeforeMonth(y, 8) + 31;
    assert DaysBeforeMonth(y, 10) == DaysBeforeMonth(y, 9) + 30;
    assert DaysBeforeMonth(y, 11) == DaysBeforeMonth(y, 10) + 31;
    assert DaysBeforeMonth(y, 12) == DaysBeforeMonth(y, 11) + 30;
  }

  lemma YearLength(y: int)
    ensures DaysBeforeYear(y + 1) == DaysBeforeYear(y) + DaysBeforeMonth(y, 12) + 31
  {
    MonthsOfYear(y);
    QuotientStep(y, 4);
    QuotientStep(y, 100);
    QuotientStep(y, 400);
    CenturiesAreFourths(y);
  }

  lemma NextMonth(y: int, m: nat)
    requires 1 <= m
    ensures DaysBeforeMonth(y, m + 1) == DaysBeforeMonth(y, m) + DaysIn(y, m)
  {
  }

  lemma NextDayNumber(d: Date)
    requires d.Ok()
    ensures DayNumber(NextDay(d)) == DayNumber(d) + 1
  {
    if d.day == DaysIn(d.year, d.month) {
      if d.month < 12 {
        NextMonth(d.year, d.month);
      } else {
        YearLength(d.year);
        assert DaysBeforeMonth(d.year + 1, 1) == 0;
      }
    }
  }

  lemma DayBeforeNumber(d: Date)
    requires d.Ok()
    ensures DayNumber(DayBefore(d)) == DayNumber(d) - 1
  {
    DaysAreNeighbours(d);
    NextDayNumber(DayBefore(d));
  }

  /** Going to UTC names the same moment: the local minute less the offset. */
  lemma ToUtcKeepsMoment(d: Date, c: Clock, nanos: nat, offset: int)
    requires d.Ok() && c.hour < 24 && c.minute < 60 && c.second <= 60 && nanos < 1_000_000_000 && -1440 < offset < 1440
    ensures var t := ToUtc(d, c, nanos, offset);
      && t.Ok() && t.second == c.second && t.nanos == nanos
      && MinuteNumber(t) == MinuteNumber(Time(d, c.hour, c.minute, c.second, nanos)) - offset
  {
    DaysAreNeighbours(d);
    NextDayNumber(d);
    DayBeforeNumber(d);
  }

  // ---- What is read is a time ----------------------------------------------

  lemma {:induction false} DigitsBound(s: string)
    requires AllDigits(s)
    ensures DigitsValue(s) < Pow10(|s|)
  {
    if s != "" { DigitsBound(s[..|s| - 1]); }
  }

  lemma FractionBound(s: string)
    requires ParseFraction(s).Some?
    ensures ParseFraction(s).value.0 < 1_000_000_000
  {
    Widths();
    if s != "" && s[0] == '.' {
      NanosBound(s[1..][..LeadingDigits(s[1..])]);
    }
  }

  lemma NanosBound(digits: string)
    requires AllDigits(digits)
    ensures Nanos(digits) < Pow10(9)
  {
    if |digits| >= 9 {
      DigitsBound(digits[..9]);
    } else {
      DigitsBound(digits);
      ScaledBound(DigitsValue(digits), |digits|);
    }
  }

  lemma {:induction false} PowerSum(a: nat, b: nat)
    ensures Pow10(a) * Pow10(b) == Pow10(a + b)
    decreases a
  {
    if a > 0 {
      PowerSum(a - 1, b);
      assert Pow10(a) * Pow10(b) == 10 * (Pow10(a - 1) * Pow10(b));
    }
  }

  lemma ScaledBound(v: nat, n: nat)
    requires v < Pow10(n) && n <= 9
    ensures v * Pow10(9 - n) < Pow10(9)
  {
    PowerSum(n, 9 - n);
    assert Pow10(9 - n) > 0 by { PowPositive(9 - n); }
    assert v * Pow10(9 - n) < Pow10(n) * Pow10(9 - n);
  }

  lemma {:induction false} PowPositive(k: nat)
    ensures Pow10(k) > 0
  {
    if k > 0 { PowPositive(k - 1); }
  }

  /** A text that reads at all reads as a valid time; its year is at most one outside 0 to 9999. */
  lemma ParsedIsTime(s: string)
    requires Parse(s).Some?
    ensures Parse(s).value.Ok() && -1 <= Parse(s).value.date.year <= 10_000
  {
    var d, c, f := ParseDate(s[..10]).value, ParseClock(s[11..19]).value, ParseFraction(s[19..]).value;
    Widths();
    assert AllDigits(s[..10][..4]);
    DigitsBound(s[..10][..4]);
    DaysAreNeighbours(d);
    FractionBound(s[19..]);
  }

  // ---- Round trip ----------------------------------------------------------

  lemma FieldReads(n: nat, width: nat)
    requires n < Pow10(width)
    ensures Number(Pad(n, width)) == Some(n)
  {
    PadValue(n, width);
  }

  lemma DateReads(d: Date)
    requires d.Ok() && 0 <= d.year <= 9999
    ensures |DateText(d)| == 10 && ParseDate(DateText(d)) == Some(d)
  {
    Widths();
    var s := DateText(d);
    assert s[..4] == Pad(d.year, 4) && s[5..7] == Pad(d.month, 2) && s[8..] == Pad(d.day, 2);
    FieldReads(d.year, 4);
    FieldReads(d.month, 2);
    FieldReads(d.day, 2);
  }

  lemma ClockReads(t: Time)
    requires t.Ok()
    ensures |ClockText(t)| == 8 && ParseClock(ClockText(t)) == Some(Clock(t.hour, t.minute, t.second))
  {
    Widths();
    var s := ClockText(t);
    assert s[..2] == Pad(t.hour, 2) && s[3..5] == Pad(t.minute, 2) && s[6..] == Pad(t.second, 2);
    FieldReads(t.hour, 2);
    FieldReads(t.minute, 2);
    FieldReads(t.second, 2);
  }

  lemma {:induction false} LeadingDigitsOf(digits: string, rest: string)
    requires AllDigits(digits) && rest != "" && !IsDigit(rest[0])
    ensures LeadingDigits(digits + rest) == |digits|
  {
    if digits == "" {
      assert digits + rest == rest;
    } else {
      assert (digits + rest)[1..] == digits[1..] + rest;
      LeadingDigitsOf(digits[1..], rest);
    }
  }

  lemma PointReads(digits: string, rest: string)
    requires AllDigits(digits) && digits != "" && rest != "" && !IsDigit(rest[0])
    ensures ParseFraction("." + digits + rest) == Some((Nanos(digits), |digits| + 1))
  {
    var s := "." + digits + rest;
    assert s[1..] == digits + rest;
    LeadingDigitsOf(digits, rest);
    assert s[1..][..|digits|] == digits;
  }

  /** A point and `n` digits of value `v` read as `v` scaled to nanoseconds. */
  lemma DigitsRead(v: nat, n: nat, rest: string)
    requires 0 < n <= 9 && v < Pow10(n) && rest != "" && !IsDigit(rest[0])
    ensures ParseFraction("." + Pad(v, n) + rest) == Some((v * Pow10(9 - n), n + 1))
  {
    PadValue(v, n);
    PointReads(Pad(v, n), rest);
    if n == 9 {
      assert Pow10(0) == 1;
      assert Pad(v, n)[..9] == Pad(v, n);
    }
  }

  lemma FractionReads(nanos: nat, rest: string)
    requires nanos < 1_000_000_000 && rest != "" && !IsDigit(rest[0]) && rest[0] != '.'
    ensures ParseFraction(FractionText(nanos) + rest) == Some((nanos, |FractionText(nanos)|))
  {
    Widths();
    if nanos == 0 {
      assert FractionText(nanos) + rest == rest;
    } else if nanos % 1_000_000 == 0 {
      ScaledRead(nanos / 1_000_000, 3, 1_000_000, nanos, rest);
    } else if nanos % 1_000 == 0 {
      ScaledRead(nanos / 1_000, 6, 1_000, nanos, rest);
    } else {
      assert Pow10(0) == 1;
      ScaledRead(nanos, 9, 1, nanos, rest);
    }
  }

  lemma ScaledRead(v: nat, n: nat, scale: nat, nanos: nat, rest: string)
    requires 0 < n <= 9 && v < Pow10(n) && rest != "" && !IsDigit(rest[0])
    requires Pow10(9 - n) == scale && v * scale == nanos
    ensures ParseFraction("." + Pad(v, n) + rest) == Some((nanos, n + 1))
  {
    DigitsRead(v, n, rest);
  }

  function OffsetText(h: nat, m: nat): string { "+" + Pad(h, 2) + ":" + Pad(m, 2) }

  lemma OffsetReads(h: nat, m: nat)
    requires h < 24 && m < 60
    ensures ParseOffset(OffsetText(h, m)) == Some(60 * h + m)
  {
    Widths();
    var s := OffsetText(h, m);
    FieldReads(h, 2);
    FieldReads(m, 2);
    assert s[1..3] == Pad(h, 2) && s[4..] == Pad(m, 2);
  }

  lemma ZeroOffset()
    ensures OffsetText(0, 0) == "+00:00"
  {
    assert Pad(0, 2) == Pad(0, 1) + "0" && Pad(0, 1) == Pad(0, 0) + "0";
  }

  lemma Parts(date: string, clock: string, tail: string)
    requires |date| == 10 && |clock| == 8
    ensures Parse(date + "T" + clock + tail) == ParseParts(date, clock, tail)
  {
    var s := date + "T" + clock + tail;
    assert s[..10] == date && s[10] == 'T' && s[11..19] == clock && s[19..] == tail;
  }

  /** The parts of a text read one by one. */
  lemma PartsRead(date: string, clock: string, fraction: string, offset: string,
                  d: Date, c: Clock, nanos: nat, minutes: int)
    requires |date| == 10 && ParseDate(date) == Some(d)
    requires |clock| == 8 && ParseClock(clock) == Some(c)
    requires ParseFraction(fraction + offset) == Some((nanos, |fraction|))
    requires ParseOffset(offset) == Some(minutes)
    ensures ParseParts(date, clock, fraction + offset) == Some(ToUtc(d, c, nanos, minutes))
  {
    assert (fraction + offset)[|fraction|..] == offset;
  }

  lemma TextReads(date: string, clock: string, fraction: string, offset: string,
                  d: Date, c: Clock, nanos: nat, minutes: int)
    requires |date| == 10 && ParseDate(date) == Some(d)
    requires |clock| == 8 && ParseClock(clock) == Some(c)
    requires ParseFraction(fraction + offset) == Some((nanos, |fraction|))
    requires ParseOffset(offset) == Some(minutes)
    ensures Parse(date + "T" + clock + (fraction + offset)) == Some(ToUtc(d, c, nanos, minutes))
  {
    Parts(date, clock, fraction + offset);
    PartsRead(date, clock, fraction, offset, d, c, nanos, minutes);
  }

  lemma UtcIsUtc(t: Time)
    requires t.Ok()
    ensures ToUtc(t.date, Clock(t.hour, t.minute, t.second), t.nanos, 0) == t
  {
  }

  lemma TimeReads(t: Time)
    requires t.Ok() && 0 <= t.date.year <= 9999
    ensures Parse(ToText(t)) == Some(t)
  {
    DateReads(t.date);
    ClockReads(t);
    FractionReads(t.nanos, "+00:00");
    assert ParseOffset("+00:00") == Some(0) by {
      ZeroOffset();
      OffsetReads(0, 0);
    }
    TextReads(DateText(t.date), ClockText(t), FractionText(t.nanos), "+00:00",
              t.date, Clock(t.hour, t.minute, t.second), t.nanos, 0);
    UtcIsUtc(t);
  }

  /** A UTC time is read back from its text if and only if its year has four digits. */
  lemma RoundTripIff(t: Time)
    requires t.Ok()
    ensures Parse(ToText(t)) == Some(t) <==> 0 <= t.date.year <= 9999
    ensures !(0 <= t.date.year <= 9999) ==> Parse(ToText(t)) == None
  {
    if 0 <= t.date.year <= 9999 {
      TimeReads(t);
    } else {
      var s := ToText(t);
      assert s[0] == '-' || s[0] == '+';
      assert |s| >= 19 ==> s[..10][..4][0] == s[0];
      assert |s| >= 19 ==> !AllDigits(s[..10][..4]);
    }
  }

  /** An hour east of Greenwich the year 0 begins in the year before: that reads, but its text does not. */
  lemma YearZeroEast()
    ensures exists s ::
      && Parse(s) == Some(Time(Date(-1, 12, 31), 23, 0, 0, 0))
      && Parse(ToText(Parse(s).value)) == None
  {
    var s := NewYearEast();
    RoundTripIff(Time(Date(-1, 12, 31), 23, 0, 0, 0));
    assert Parse(s) == Some(Time(Date(-1, 12, 31), 23, 0, 0, 0));
  }

  lemma NewYearEast() returns (s: string)
    ensures Parse(s) == Some(Time(Date(-1, 12, 31), 23, 0, 0, 0))
  {
    s := ReadsWithOffset(Date(0, 1, 1), Clock(0, 0, 0), 1, 0);
    HourBeforeNewYear();
  }

  lemma ReadsWithOffset(d: Date, c: Clock, h: nat, m: nat) returns (s: string)
    requires d.Ok() && 0 <= d.year <= 9999 && c.hour < 24 && c.minute < 60 && c.second <= 60 && h < 24 && m < 60
    ensures Parse(s) == Some(ToUtc(d, c, 0, 60 * h + m))
  {
    var t := Time(d, c.hour, c.minute, c.second, 0);
    DateReads(d);
    ClockReads(t);
    OffsetReads(h, m);
    s := PlainReads(DateText(d), ClockText(t), OffsetText(h, m), d, c, 60 * h + m);
  }

  lemma PlainReads(date: string, clock: string, offset: string, d: Date, c: Clock, minutes: int) returns (s: string)
    requires |date| == 10 && ParseDate(date) == Some(d)
    requires |clock| == 8 && ParseClock(clock) == Some(c)
    requires ParseOffset(offset) == Some(minutes) && offset != "" && offset[0] != '.'
    ensures Parse(s) == Some(ToUtc(d, c, 0, minutes))
  {
    assert "" + offset == offset;
    TextReads(date, clock, "", offset, d, c, 0, minutes);
    s := date + "T" + clock + ("" + offset);
  }

  lemma HourBeforeNewYear()
    ensures ToUtc(Date(0, 1, 1), Clock(0, 0, 0), 0, 60) == Time(Date(-1, 12, 31), 23, 0, 0, 0)
  {
  }

  // ---- The texts that read, and what they denote ---------------------------

  datatype Zone =
    | Zulu(letter: char)
    | Numeric(sign: char, hours: nat, minutes: nat)
  {
    predicate Ok() {
      match this
      case Zulu(letter) => letter == 'Z' || letter == 'z'
      case Numeric(sign, hours, minutes) => (sign == '+' || sign == '-') && hours < 24 && minutes < 60
    }

    function Text(): string {
      match this
      case Zulu(letter) => [letter]
      case Numeric(sign, hours, minutes) => [sign] + Pad(hours, 2) + ":" + Pad(minutes, 2)
    }

    /** Minutes east of Greenwich. */
    function East(): int {
      match this
      case Zulu(_) => 0
      case Numeric(sign, hours, minutes) => if sign == '-' then -(60 * hours + minutes) else 60 * hours + minutes
    }
  }

  /** A date-time of section 5.6: `fraction` is its digits behind the point, none without a point. */
  datatype Stamp = Stamp(date: Date, separator: char, clock: Clock, fraction: string, zone: Zone) {
    predicate Ok() {
      && date.Ok() && 0 <= date.year <= 9999
      && (separator == 'T' || separator == 't' || separator == ' ')
      && clock.hour < 24 && clock.minute < 60 && clock.second <= 60
      && AllDigits(fraction) && zone.Ok()
    }

    function Text(): string {
      DateText(date) + [separator] + Hms(clock) + (PointText(fraction) + zone.Text())
    }
  }

  function Hms(c: Clock): string { Pad(c.hour, 2) + ":" + Pad(c.minute, 2) + ":" + Pad(c.second, 2) }

  function PointText(fraction: string): string { if fraction == "" then "" else "." + fraction }

  /** The whole nanoseconds in a fraction of the value `v` with `n` digits. */
  ghost predicate NanosOf(nanos: nat, v: nat, n: nat) {
    nanos * Pow10(n) <= v * Pow10(9) < (nanos + 1) * Pow10(n)
  }

  /** The moment in UTC: the local minute less the offset, the second as it stands, the fraction cut to nanoseconds. */
  ghost predicate Denotes(x: Stamp, t: Time) {
    && t.Ok()
    && MinuteNumber(t) == MinuteNumber(Time(x.date, x.clock.hour, x.clock.minute, 0, 0)) - x.zone.East()
    && t.second == x.clock.second
    && AllDigits(x.fraction) && NanosOf(t.nanos, DigitsValue(x.fraction), |x.fraction|)
  }

  lemma {:induction false} DigitsSplit(s: string, k: nat)
    requires AllDigits(s) && k <= |s|
    ensures DigitsValue(s) == DigitsValue(s[..k]) * Pow10(|s| - k) + DigitsValue(s[k..])
    decreases |s|
  {
    var n := |s| - 1;
    if k == |s| {
      assert s[..k] == s && s[k..] == "" && Pow10(0) == 1;
    } else {
      DigitsSplit(s[..n], k);
      assert s[..n][..k] == s[..k] && s[..n][k..] == s[k..][..n - k];
      assert s[k..][n - k] == s[n];
      Tenfold(DigitsValue(s[..k]), n - k);
    }
  }

  lemma Tenfold(a: nat, k: nat)
    ensures a * Pow10(k + 1) == 10 * (a * Pow10(k))
  {
    assert Pow10(k + 1) == 10 * Pow10(k);
  }

  lemma CutFraction(a: nat, r: nat, p: nat, q: nat)
    requires r < p && 0 < q
    ensures a * (q * p) <= (a * p + r) * q < (a + 1) * (q * p)
  {
    assert a * (q * p) == (a * p) * q;
    assert (a * p + r) * q == (a * p) * q + r * q;
    assert (a + 1) * (q * p) == (a * p) * q + p * q;
    assert 0 <= r * q < p * q;
  }

  lemma ScaledFraction(v: nat, n: nat)
    requires n <= 9
    ensures NanosOf(v * Pow10(9 - n), v, n)
  {
    PowerSum(n, 9 - n);
    PowPositive(n);
    WholeFraction(v, Pow10(9 - n), Pow10(n), Pow10(9));
  }

  lemma WholeFraction(v: nat, s: nat, p: nat, q: nat)
    requires p * s == q && p > 0
    ensures (v * s) * p <= v * q < (v * s + 1) * p
  {
    assert (v * s) * p == v * (p * s);
    assert (v * s + 1) * p == (v * s) * p + p;
  }

  lemma CutAt(s: string, k: nat)
    requires AllDigits(s) && |s| >= k
    ensures DigitsValue(s[..k]) * Pow10(|s|) <= DigitsValue(s) * Pow10(k) < (DigitsValue(s[..k]) + 1) * Pow10(|s|)
  {
    DigitsSplit(s, k);
    DigitsBound(s[k..]);
    PowerSum(k, |s| - k);
    PowPositive(k);
    CutNanos(DigitsValue(s[..k]), DigitsValue(s[k..]), Pow10(|s| - k), Pow10(k), DigitsValue(s), Pow10(|s|));
  }

  lemma LongFraction(s: string)
    requires AllDigits(s) && |s| >= 9
    ensures NanosOf(DigitsValue(s[..9]), DigitsValue(s), |s|)
  {
    CutAt(s, 9);
  }

  lemma CutNanos(a: nat, r: nat, p: nat, q: nat, v: nat, all: nat)
    requires r < p && 0 < q && v == a * p + r && all == q * p
    ensures a * all <= v * q < (a + 1) * all
  {
    CutFraction(a, r, p, q);
  }

  lemma NanosAreWhole(digits: string)
    requires AllDigits(digits)
    ensures NanosOf(Nanos(digits), DigitsValue(digits), |digits|)
  {
    if |digits| >= 9 { LongFraction(digits); } else { ScaledFraction(DigitsValue(digits), |digits|); }
  }

  lemma NoFraction()
    ensures NanosOf(0, DigitsValue(""), 0)
  {
    assert DigitsValue("") == 0 && Pow10(0) == 1;
  }

  /** A fraction of any length is read as its whole nanoseconds. */
  lemma AnyFractionReads(fraction: string, rest: string)
    requires AllDigits(fraction) && rest != "" && !IsDigit(rest[0]) && rest[0] != '.'
    ensures var r := ParseFraction(PointText(fraction) + rest);
      r.Some? && r.value.1 == |PointText(fraction)| && NanosOf(r.value.0, DigitsValue(fraction), |fraction|)
  {
    if fraction == "" {
      NoFraction();
      assert PointText(fraction) + rest == rest;
    } else {
      PointReads(fraction, rest);
      NanosAreWhole(fraction);
    }
  }

  lemma ZoneReads(z: Zone)
    requires z.Ok()
    ensures ParseOffset(z.Text()) == Some(z.East())
    ensures z.Text() != "" && !IsDigit(z.Text()[0]) && z.Text()[0] != '.'
  {
    if z.Numeric? {
      Widths();
      var s := z.Text();
      FieldReads(z.hours, 2);
      FieldReads(z.minutes, 2);
      assert s[1..3] == Pad(z.hours, 2) && s[4..] == Pad(z.minutes, 2);
    }
  }

  lemma AnyParts(date: string, separator: char, clock: string, tail: string)
    requires |date| == 10 && |clock| == 8 && (separator == 'T' || separator == 't' || separator == ' ')
    ensures Parse(date + [separator] + clock + tail) == ParseParts(date, clock, tail)
  {
    var s := date + [separator] + clock + tail;
    assert s[..10] == date && s[10] == separator && s[11..19] == clock && s[19..] == tail;
  }

  /** Every date-time reads, whatever its separator, fraction and offset, as the moment it denotes. */
  lemma StampReads(x: Stamp)
    requires x.Ok()
    ensures Parse(x.Text()).Some? && Denotes(x, Parse(x.Text()).value)
  {
    DateReads(x.date);
    ClockReads(Time(x.date, x.clock.hour, x.clock.minute, x.clock.second, 0));
    ZoneReads(x.zone);
    AnyFractionReads(x.fraction, x.zone.Text());
    var f := ParseFraction(PointText(x.fraction) + x.zone.Text()).value;
    FractionBound(PointText(x.fraction) + x.zone.Text());
    StampParts(x, DateText(x.date), Hms(x.clock), PointText(x.fraction), x.zone.Text(), f.0);
  }

  lemma StampParts(x: Stamp, date: string, clock: string, fraction: string, offset: string, nanos: nat)
    requires x.Ok() && |date| == 10 && ParseDate(date) == Some(x.date)
    requires |clock| == 8 && ParseClock(clock) == Some(x.clock)
    requires ParseFraction(fraction + offset) == Some((nanos, |fraction|)) && nanos < 1_000_000_000
    requires ParseOffset(offset) == Some(x.zone.East()) && NanosOf(nanos, DigitsValue(x.fraction), |x.fraction|)
    ensures var s := date + [x.separator] + clock + (fraction + offset);
      Parse(s).Some? && Denotes(x, Parse(s).value)
  {
    AnyParts(date, x.separator, clock, fraction + offset);
    PartsRead(date, clock, fraction, offset, x.date, x.clock, nanos, x.zone.East());
    ToUtcKeepsMoment(x.date, x.clock, nanos, x.zone.East());
  }

  // ---- Nothing else reads --------------------------------------------------

  lemma {:induction false} DigitsPadded(s: string)
    requires AllDigits(s)
    ensures Pad(DigitsValue(s), |s|) == s
    decreases |s|
  {
    if s != "" {
      var n := |s| - 1;
      DigitsPadded(s[..n]);
      DigitKept(s[n]);
      PadNext(DigitsValue(s[..n]), DigitValue(s[n]), n);
      assert s == s[..n] + [s[n]];
    }
  }

  lemma PadNext(a: nat, d: nat, width: nat)
    requires d < 10
    ensures Pad(10 * a + d, width + 1) == Pad(a, width) + [DigitChar(d)]
  {
  }

  lemma DateSpelled(s: string)
    requires |s| == 10 && ParseDate(s).Some?
    ensures var d := ParseDate(s).value; d.Ok() && 0 <= d.year <= 9999 && DateText(d) == s
  {
    Widths();
    DigitsBound(s[..4]);
    DigitsPadded(s[..4]);
    DigitsPadded(s[5..7]);
    DigitsPadded(s[8..]);
    assert s == s[..4] + "-" + s[5..7] + "-" + s[8..];
  }

  lemma ClockSpelled(s: string)
    requires |s| == 8 && ParseClock(s).Some?
    ensures Hms(ParseClock(s).value) == s
  {
    DigitsPadded(s[..2]);
    DigitsPadded(s[3..5]);
    DigitsPadded(s[6..]);
    assert s == s[..2] + ":" + s[3..5] + ":" + s[6..];
  }

  lemma FractionSpelled(s: string) returns (fraction: string)
    requires ParseFraction(s).Some?
    ensures AllDigits(fraction) && PointText(fraction) == s[..ParseFraction(s).value.1]
  {
    var n := ParseFraction(s).value.1;
    if n == 0 {
      fraction := "";
    } else {
      fraction := s[1..][..n - 1];
      assert s[..n] == [s[0]] + fraction;
    }
  }

  lemma ZoneSpelled(s: string) returns (z: Zone)
    requires ParseOffset(s).Some?
    ensures z.Ok() && z.Text() == s
  {
    if s == "Z" || s == "z" {
      z := Zulu(s[0]);
    } else {
      z := Numeric(s[0], DigitsValue(s[1..3]), DigitsValue(s[4..]));
      DigitsPadded(s[1..3]);
      DigitsPadded(s[4..]);
      assert s == [s[0]] + s[1..3] + ":" + s[4..];
    }
  }

  lemma PartsSpelled(date: string, clock: string, tail: string, n: nat) returns (c: Clock, fraction: string, zone: Zone)
    requires |date| == 10 && |clock| == 8 && ParseParts(date, clock, tail).Some?
    requires n == ParseFraction(tail).value.1
    ensures ParseDate(date).Some? && DateText(ParseDate(date).value) == date
    ensures ParseDate(date).value.Ok() && 0 <= ParseDate(date).value.year <= 9999
    ensures c.hour < 24 && c.minute < 60 && c.second <= 60 && Hms(c) == clock
    ensures AllDigits(fraction) && zone.Ok() && PointText(fraction) + zone.Text() == tail
  {
    DateSpelled(date);
    ClockSpelled(clock);
    c := ParseClock(clock).value;
    fraction := FractionSpelled(tail);
    zone := ZoneSpelled(tail[n..]);
    assert tail == tail[..n] + tail[n..];
  }

  lemma Reassembled(s: string)
    requires |s| >= 19
    ensures s == s[..10] + [s[10]] + s[11..19] + s[19..]
  {
  }

  /** A text that reads is a date-time. */
  lemma OnlyStampsRead(s: string) returns (x: Stamp)
    requires Parse(s).Some?
    ensures x.Ok() && x.Text() == s
  {
    Reassembled(s);
    var c, fraction, zone := PartsSpelled(s[..10], s[11..19], s[19..], ParseFraction(s[19..]).value.1);
    x := Stamp(ParseDate(s[..10]).value, s[10], c, fraction, zone);
  }

  // ---- The text that is written --------------------------------------------

  /** As few digits as are exact, of none, three, six and nine. */
  lemma FractionIsShortest(nanos: nat)
    requires nanos < 1_000_000_000
    ensures FractionText(nanos) == "" <==> nanos == 0
    ensures |FractionText(nanos)| <= 4 <==> nanos % 1_000_000 == 0
    ensures |FractionText(nanos)| <= 7 <==> nanos % 1_000 == 0
    ensures |FractionText(nanos)| <= 10
  {
  }

  /** A year that does not fit four digits has a sign and all its digits, four at least. */
  lemma LongYearText(y: int)
    requires !(0 <= y <= 9999)
    ensures var s := YearText(y);
      && |s| >= 5 && s[0] == (if y < 0 then '-' else '+')
      && AllDigits(s[1..]) && DigitsValue(s[1..]) == if y < 0 then -y else y
  {
    var n := if y < 0 then -y else y;
    assert YearText(y)[1..] == SignedYear(n);
    Widths();
    if n <= 9999 {
      PadValue(n, 4);
    } else {
      DigitsOfNat(n);
      DigitsBound(NatToString(n));
      if |NatToString(n)| < 4 { ShortBound(|NatToString(n)|); }
    }
  }

  lemma ShortBound(k: nat)
    requires k < 4
    ensures Pow10(k) <= 1_000
  {
    assert Pow10(0) == 1 && Pow10(1) == 10 && Pow10(2) == 100 && Pow10(3) == 1_000;
  }

  /** What a UTC time is written as is one of the date-times, with a `T` and the offset `+00:00`. */
  lemma WrittenAs(t: Time) returns (x: Stamp)
    requires t.Ok() && 0 <= t.date.year <= 9999
    ensures x.Text() == ToText(t) && x.Ok() && x.separator == 'T' && x.zone == Numeric('+', 0, 0)
  {
    var fraction := if t.nanos == 0 then "" else FractionText(t.nanos)[1..];
    x := Stamp(t.date, 'T', Clock(t.hour, t.minute, t.second), fraction, Numeric('+', 0, 0));
    FractionDigits(t.nanos);
    ZeroZone();
  }

  lemma ZeroZone()
    ensures Numeric('+', 0, 0).Text() == "+00:00"
  {
    ZeroOffset();
  }

  lemma FractionDigits(nanos: nat)
    requires nanos < 1_000_000_000
    ensures var fraction := if nanos == 0 then "" else FractionText(nanos)[1..];
      AllDigits(fraction) && PointText(fraction) == FractionText(nanos)
  {
    Widths();
    if nanos != 0 {
      if nanos % 1_000_000 == 0 {
        PadValue(nanos / 1_000_000, 3);
      } else if nanos % 1_000 == 0 {
        PadValue(nanos / 1_000, 6);
      } else {
        PadValue(nanos, 9);
      }
    }
  }
}
