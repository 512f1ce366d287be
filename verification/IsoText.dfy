/**
 UTC times as the job store writes them: ISO text in which the fraction of a second is left out when
 it is zero. Comparing such texts byte by byte compares the times, although a text without a fraction
 meets one with a fraction at a sign and not at a digit.
 */
module IsoText {
  import opened Wrappers

  datatype DateTime = DateTime(
    year: nat, month: nat, day: nat, hour: nat, minute: nat, second: nat, microsecond: nat)

  predicate IsLeap(year: nat) {
    year % 4 == 0 && (year % 100 != 0 || year % 400 == 0)
  }

  function DaysInMonth(year: nat, month: nat): (days: nat)
    ensures 28 <= days <= 31
  {
    if month == 2 then (if IsLeap(year) then 29 else 28)
    else if month in {4, 6, 9, 11} then 30
    else 31
  }

  predicate Valid(t: DateTime) {
    && 1 <= t.year <= 9999 && 1 <= t.month <= 12 && 1 <= t.day <= DaysInMonth(t.year, t.month)
    && t.hour < 24 && t.minute < 60 && t.second < 60 && t.microsecond < 1_000_000
  }

  // ---------- Time ----------

  function DaysBeforeMonth(year: nat, month: nat): (days: nat) {
    if month <= 1 then 0 else DaysBeforeMonth(year, month - 1) + DaysInMonth(year, month - 1)
  }

  function DaysBeforeYear(year: nat): (days: nat) {
    if year <= 1 then 0 else DaysBeforeYear(year - 1) + DaysIn(year - 1)
  }

  function DaysIn(year: nat): (days: nat) {
    if IsLeap(year) then 366 else 365
  }

  /** The months of a year make up its days. */
  lemma MonthsMakeYear(year: nat)
    ensures DaysBeforeMonth(year, 13) == DaysIn(year)
  {
    var feb := DaysInMonth(year, 2);
    assert DaysBeforeMonth(year, 2) == 31;
    assert DaysBeforeMonth(year, 4) == feb + 62;
    assert DaysBeforeMonth(year, 6) == feb + 123;
    assert DaysBeforeMonth(year, 8) == feb + 184;
    assert DaysBeforeMonth(year, 10) == feb + 245;
    assert DaysBeforeMonth(year, 12) == feb + 306;
  }

  /** Days since the first day of year 1. */
  function DayNumber(t: DateTime): (days: int) {
    DaysBeforeYear(t.year) + DaysBeforeMonth(t.year, t.month) + t.day - 1
  }

  /** Microseconds since midnight. */
  function TimeOfDay(t: DateTime): (us: nat) {
    ((t.hour * 60 + t.minute) * 60 + t.second) * 1_000_000 + t.microsecond
  }

  /** Microseconds since the first midnight of year 1. */
  function Instant(t: DateTime): (us: int) {
    DayNumber(t) * 86_400_000_000 + TimeOfDay(t)
  }

  /** Field by field, the largest unit first. */
  predicate Before(a: DateTime, b: DateTime) {
    if a.year != b.year then a.year < b.year
    else if a.month != b.month then a.month < b.month
    else if a.day != b.day then a.day < b.day
    else if a.hour != b.hour then a.hour < b.hour
    else if a.minute != b.minute then a.minute < b.minute
    else if a.second != b.second then a.second < b.second
    else a.microsecond < b.microsecond
  }

  lemma {:induction false} LaterMonth(year: nat, m: nat, n: nat)
    requires 1 <= m < n <= 13
    ensures DaysBeforeMonth(year, m) + DaysInMonth(year, m) <= DaysBeforeMonth(year, n)
  {
    if m < n - 1 {
      LaterMonth(year, m, n - 1);
    }
  }

  lemma {:induction false} LaterYear(y: nat, z: nat)
    requires 1 <= y < z
    ensures DaysBeforeYear(y) + DaysIn(y) <= DaysBeforeYear(z)
  {
    if y < z - 1 {
      LaterYear(y, z - 1);
    }
  }

  lemma DayOrder(a: DateTime, b: DateTime)
    requires Valid(a) && Valid(b)
    requires a.year < b.year || (a.year == b.year && (a.month < b.month || (a.month == b.month && a.day < b.day)))
    ensures DayNumber(a) < DayNumber(b)
  {
    if a.year < b.year {
      LaterYear(a.year, b.year);
      MonthsMakeYear(a.year);
      LaterMonth(a.year, a.month, 13);
    } else if a.month < b.month {
      LaterMonth(a.year, a.month, b.month);
    }
  }

  lemma BeforeIsEarlier(a: DateTime, b: DateTime)
    requires Valid(a) && Valid(b) && Before(a, b)
    ensures Instant(a) < Instant(b)
  {
    if a.year == b.year && a.month == b.month && a.day == b.day {
      assert TimeOfDay(a) < TimeOfDay(b);
    } else {
      DayOrder(a, b);
      assert TimeOfDay(a) < 86_400_000_000;
    }
  }

  /** The order of the fields is the order of the instants they name. */
  lemma BeforeExactlyIfEarlier(a: DateTime, b: DateTime)
    requires Valid(a) && Valid(b)
    ensures Before(a, b) <==> Instant(a) < Instant(b)
  {
    if Before(a, b) {
      BeforeIsEarlier(a, b);
    } else if a != b {
      BeforeIsEarlier(b, a);
    }
  }

  // ---------- Text ----------

  function Digit(d: nat): (c: char)
    requires d < 10
    ensures '0' <= c <= '9' && c as int - '0' as int == d
  {
    ('0' as int + d) as char
  }

  function Power10(n: nat): (p: nat)
    ensures p > 0
  {
    if n == 0 then 1 else 10 * Power10(n - 1)
  }

  /** `n` in decimal, padded with zeros to `width` places. */
  function Digits(n: nat, width: nat): (text: string)
    ensures |text| == width
  {
    if width == 0 then "" else Digits(n / 10, width - 1) + [Digit(n % 10)]
  }

  function Fraction(t: DateTime): (text: string) {
    (if t.microsecond == 0 then "" else "." + Digits(t.microsecond, 6)) + "+00:00"
  }

  /** The time of day and the offset. */
  function Clock(t: DateTime): (text: string) {
    Digits(t.hour, 2) + (":" + (Digits(t.minute, 2) + (":" + (Digits(t.second, 2) + Fraction(t)))))
  }

  /** `isoformat()` of a UTC time. */
  function Iso(t: DateTime): (text: string) {
    Digits(t.year, 4) + ("-" + (Digits(t.month, 2) + ("-" + (Digits(t.day, 2) + ("T" + Clock(t))))))
  }

  lemma FieldThenSign(field: string, sign: char, rest: string)
    ensures var text := field + ([sign] + rest);
            text[..|field|] == field && text[|field|] == sign && text[|field| + 1..] == rest
  {
  }

  lemma TwiceDropped(text: string, i: nat, j: nat)
    requires i + j <= |text|
    ensures text[i..][j..] == text[i + j..]
    ensures text[i..][..j] == text[i..i + j]
  {
  }

  /** The layout YYYY-MM-DDT and the time of day. */
  lemma DateShape(t: DateTime)
    ensures var text := Iso(t);
            && |text| >= 11
            && text[..4] == Digits(t.year, 4) && text[4] == '-'
            && text[5..7] == Digits(t.month, 2) && text[7] == '-'
            && text[8..10] == Digits(t.day, 2) && text[10] == 'T'
            && text[11..] == Clock(t)
  {
    var text, day := Iso(t), Digits(t.day, 2) + ("T" + Clock(t));
    var month := Digits(t.month, 2) + ("-" + day);
    FieldThenSign(Digits(t.year, 4), '-', month);
    FieldThenSign(Digits(t.month, 2), '-', day);
    FieldThenSign(Digits(t.day, 2), 'T', Clock(t));
    assert text == Digits(t.year, 4) + ("-" + month);
    TwiceDropped(text, 5, 2);
    TwiceDropped(text, 5, 3);
    TwiceDropped(text, 8, 2);
    TwiceDropped(text, 8, 3);
  }

  /** The layout HH:MM:SS, six digits of a second unless they are zero, and the offset of UTC. */
  lemma ClockShape(t: DateTime)
    ensures var text := Clock(t);
            && |text| >= 8
            && text[..2] == Digits(t.hour, 2) && text[2] == ':'
            && text[3..5] == Digits(t.minute, 2) && text[5] == ':'
            && text[6..8] == Digits(t.second, 2)
            && text[8..] == if t.microsecond == 0 then "+00:00" else "." + Digits(t.microsecond, 6) + "+00:00"
  {
    var text, second := Clock(t), Digits(t.second, 2) + Fraction(t);
    var minute := Digits(t.minute, 2) + (":" + second);
    FieldThenSign(Digits(t.hour, 2), ':', minute);
    FieldThenSign(Digits(t.minute, 2), ':', second);
    assert text == Digits(t.hour, 2) + (":" + minute);
    TwiceDropped(text, 3, 2);
    TwiceDropped(text, 3, 3);
    TwiceDropped(text, 6, 2);
    assert second[..2] == Digits(t.second, 2) && second[2..] == Fraction(t);
  }

  /** Byte order, as SQLite compares text. */
  predicate TextLess(a: string, b: string) {
    b != "" && (a == "" || a[0] < b[0] || (a[0] == b[0] && TextLess(a[1..], b[1..])))
  }

  lemma {:induction false} TextLessIrreflexive(a: string)
    ensures !TextLess(a, a)
  {
    if a == "" {
    } else {
      TextLessIrreflexive(a[1..]);
    }
  }

  /** Texts that begin with parts of one length are ordered by those parts, and by the rest if they agree. */
  lemma {:induction false} TextLessByParts(x: string, y: string, s: string, t: string)
    requires |x| == |y|
    ensures TextLess(x + s, y + t) <==> TextLess(x, y) || (x == y && TextLess(s, t))
  {
    if x == "" {
      assert x + s == s && y + t == t;
    } else {
      TextLessByParts(x[1..], y[1..], s, t);
      assert (x + s)[1..] == x[1..] + s && (y + t)[1..] == y[1..] + t;
      assert x == y <==> x[0] == y[0] && x[1..] == y[1..] by {
        assert x == [x[0]] + x[1..] && y == [y[0]] + y[1..];
      }
    }
  }

  lemma OneCharOrder(c: char, d: char)
    ensures TextLess([c], [d]) <==> c < d
  {
  }

  /** Padded numbers are ordered as text as they are as numbers. */
  lemma {:induction false} DigitsOrder(m: nat, n: nat, width: nat)
    requires m < Power10(width) && n < Power10(width)
    ensures TextLess(Digits(m, width), Digits(n, width)) <==> m < n
    ensures Digits(m, width) == Digits(n, width) <==> m == n
  {
    if width == 0 {
    } else {
      DigitsOrder(m / 10, n / 10, width - 1);
      var x, y, c, d := Digits(m / 10, width - 1), Digits(n / 10, width - 1), Digit(m % 10), Digit(n % 10);
      TextLessByParts(x, y, [c], [d]);
      OneCharOrder(c, d);
      assert x + [c] == y + [d] <==> x == y && c == d by {
        assert (x + [c])[..width - 1] == x && (y + [d])[..width - 1] == y;
        assert (x + [c])[width - 1] == c && (y + [d])[width - 1] == d;
      }
    }
  }

  /** One field and the separator after it. */
  lemma FieldOrder(m: nat, n: nat, width: nat, s: string, t: string)
    requires m < Power10(width) && n < Power10(width)
    ensures TextLess(Digits(m, width) + s, Digits(n, width) + t) <==> m < n || (m == n && TextLess(s, t))
  {
    DigitsOrder(m, n, width);
    TextLessByParts(Digits(m, width), Digits(n, width), s, t);
  }

  lemma SeparatorOrder(sep: string, s: string, t: string)
    ensures TextLess(sep + s, sep + t) <==> TextLess(s, t)
  {
    TextLessByParts(sep, sep, s, t);
    TextLessIrreflexive(sep);
  }

  lemma SignBeforePoint(s: string, t: string)
    ensures TextLess("+" + s, "." + t) && !TextLess("." + t, "+" + s)
  {
  }

  /** No fraction comes before every fraction, because `+` comes before `.`. */
  lemma FractionOrder(a: DateTime, b: DateTime)
    requires a.microsecond < 1_000_000 && b.microsecond < 1_000_000
    ensures TextLess(Fraction(a), Fraction(b)) <==> a.microsecond < b.microsecond
  {
    var s, t := Digits(a.microsecond, 6) + "+00:00", Digits(b.microsecond, 6) + "+00:00";
    assert "." + Digits(a.microsecond, 6) + "+00:00" == "." + s && "." + Digits(b.microsecond, 6) + "+00:00" == "." + t;
    assert "" + "+00:00" == "+" + "00:00";
    TextLessIrreflexive("+00:00");
    if a.microsecond != 0 && b.microsecond != 0 {
      SeparatorOrder(".", s, t);
      assert Power10(6) == 1_000_000 by { PowersOfTen(); }
      FieldOrder(a.microsecond, b.microsecond, 6, "+00:00", "+00:00");
    } else {
      SignBeforePoint("00:00", s);
      SignBeforePoint("00:00", t);
    }
  }

  lemma PowersOfTen()
    ensures Power10(2) == 100 && Power10(4) == 10_000 && Power10(6) == 1_000_000
  {
    assert Power10(1) == 10 && Power10(2) == 100 && Power10(3) == 1_000;
    assert Power10(4) == 10_000 && Power10(5) == 100_000;
  }

  lemma ClockOrder(a: DateTime, b: DateTime)
    requires Valid(a) && Valid(b)
    ensures TextLess(Clock(a), Clock(b)) <==> Before(a, b.(year := a.year, month := a.month, day := a.day))
  {
    PowersOfTen();
    FractionOrder(a, b);
    var s5, t5 := Digits(a.second, 2) + Fraction(a), Digits(b.second, 2) + Fraction(b);
    FieldOrder(a.second, b.second, 2, Fraction(a), Fraction(b));
    SeparatorOrder(":", s5, t5);
    var s4, t4 := Digits(a.minute, 2) + (":" + s5), Digits(b.minute, 2) + (":" + t5);
    FieldOrder(a.minute, b.minute, 2, ":" + s5, ":" + t5);
    SeparatorOrder(":", s4, t4);
    FieldOrder(a.hour, b.hour, 2, ":" + s4, ":" + t4);
  }

  lemma TextOrderIsFieldOrder(a: DateTime, b: DateTime)
    requires Valid(a) && Valid(b)
    ensures TextLess(Iso(a), Iso(b)) <==> Before(a, b)
  {
    PowersOfTen();
    ClockOrder(a, b);
    var s, t := Clock(a), Clock(b);
    SeparatorOrder("T", s, t);
    FieldOrder(a.day, b.day, 2, "T" + s, "T" + t);
    var s2, t2 := Digits(a.day, 2) + ("T" + s), Digits(b.day, 2) + ("T" + t);
    SeparatorOrder("-", s2, t2);
    FieldOrder(a.month, b.month, 2, "-" + s2, "-" + t2);
    var s1, t1 := Digits(a.month, 2) + ("-" + s2), Digits(b.month, 2) + ("-" + t2);
    SeparatorOrder("-", s1, t1);
    FieldOrder(a.year, b.year, 4, "-" + s1, "-" + t1);
  }

  /** The stored texts are in byte order exactly as the times they stand for are in time order. */
  lemma TextOrderIsTimeOrder(a: DateTime, b: DateTime)
    requires Valid(a) && Valid(b)
    ensures TextLess(Iso(a), Iso(b)) <==> Instant(a) < Instant(b)
    ensures Iso(a) == Iso(b) <==> a == b
  {
    TextOrderIsFieldOrder(a, b);
    TextOrderIsFieldOrder(b, a);
    BeforeExactlyIfEarlier(a, b);
    TextLessIrreflexive(Iso(a));
  }

  // ---------- Reading it back ----------

  function DigitValue(c: char): (d: Option<nat>) {
    if '0' <= c <= '9' then Some(c as int - '0' as int) else None
  }

  function ParseNumber(text: string): (n: Option<nat>) {
    if text == "" then Some(0)
    else
      var front :- ParseNumber(text[..|text| - 1]);
      var d :- DigitValue(text[|text| - 1]);
      Some(10 * front + d)
  }

  /** A number of `width` places and the text after it. */
  function Field(text: string, width: nat): (r: Option<(nat, string)>) {
    if |text| < width then None
    else
      var n :- ParseNumber(text[..width]);
      Some((n, text[width..]))
  }

  function After(text: string, sep: string): (rest: Option<string>) {
    if sep <= text then Some(text[|sep|..]) else None
  }

  function ParseFraction(text: string): (us: Option<nat>) {
    if text == "+00:00" then Some(0)
    else
      var digits :- After(text, ".");
      var (us, rest) :- Field(digits, 6);
      if rest == "+00:00" then Some(us) else None
  }

  function ParseClock(text: string): (r: Option<(nat, nat, nat, nat)>) {
    var (hour, s1) :- Field(text, 2);
    var s2 :- After(s1, ":");
    var (minute, s3) :- Field(s2, 2);
    var s4 :- After(s3, ":");
    var (second, s5) :- Field(s4, 2);
    var us :- ParseFraction(s5);
    Some((hour, minute, second, us))
  }

  /** `datetime.fromisoformat`, on the forms `isoformat` writes for UTC. */
  function ParseIso(text: string): (t: Option<DateTime>) {
    var (year, s1) :- Field(text, 4);
    var s2 :- After(s1, "-");
    var (month, s3) :- Field(s2, 2);
    var s4 :- After(s3, "-");
    var (day, s5) :- Field(s4, 2);
    var s6 :- After(s5, "T");
    var (hour, minute, second, us) :- ParseClock(s6);
    Some(DateTime(year, month, day, hour, minute, second, us))
  }

  lemma {:induction false} NumberOfDigits(n: nat, width: nat)
    requires n < Power10(width)
    ensures ParseNumber(Digits(n, width)) == Some(n)
  {
    if width == 0 {
    } else {
      NumberOfDigits(n / 10, width - 1);
      var front, last := Digits(n / 10, width - 1), Digit(n % 10);
      assert Digits(n, width) == front + [last];
      NumberSnoc(front, last);
    }
  }

  lemma NumberSnoc(front: string, last: char)
    requires ParseNumber(front).Some? && DigitValue(last).Some?
    ensures ParseNumber(front + [last]) == Some(10 * ParseNumber(front).value + DigitValue(last).value)
  {
  }

  lemma FieldOfDigits(n: nat, width: nat, rest: string)
    requires n < Power10(width)
    ensures Field(Digits(n, width) + rest, width) == Some((n, rest))
  {
    NumberOfDigits(n, width);
    assert (Digits(n, width) + rest)[..width] == Digits(n, width) && (Digits(n, width) + rest)[width..] == rest;
  }

  lemma AfterSeparator(sep: string, rest: string)
    ensures After(sep + rest, sep) == Some(rest)
  {
  }

  lemma FractionRoundTrip(t: DateTime)
    requires t.microsecond < 1_000_000
    ensures ParseFraction(Fraction(t)) == Some(t.microsecond)
  {
    PowersOfTen();
    if t.microsecond == 0 {
      assert "" + "+00:00" == "+00:00";
    } else {
      var digits := Digits(t.microsecond, 6);
      assert ("." + digits) + "+00:00" == "." + (digits + "+00:00");
      assert ("." + (digits + "+00:00"))[0] == '.';
      AfterSeparator(".", digits + "+00:00");
      FieldOfDigits(t.microsecond, 6, "+00:00");
    }
  }

  lemma ClockRoundTrip(t: DateTime)
    requires Valid(t)
    ensures ParseClock(Clock(t)) == Some((t.hour, t.minute, t.second, t.microsecond))
  {
    PowersOfTen();
    FractionRoundTrip(t);
    var s4 := Digits(t.second, 2) + Fraction(t);
    FieldOfDigits(t.second, 2, Fraction(t));
    AfterSeparator(":", s4);
    var s2 := Digits(t.minute, 2) + (":" + s4);
    FieldOfDigits(t.minute, 2, ":" + s4);
    AfterSeparator(":", s2);
    FieldOfDigits(t.hour, 2, ":" + s2);
  }

  /** Every stored time reads back as itself. */
  lemma IsoRoundTrip(t: DateTime)
    requires Valid(t)
    ensures ParseIso(Iso(t)) == Some(t)
  {
    PowersOfTen();
    ClockRoundTrip(t);
    var s6 := Clock(t);
    AfterSeparator("T", s6);
    FieldOfDigits(t.day, 2, "T" + s6);
    var s4 := Digits(t.day, 2) + ("T" + s6);
    AfterSeparator("-", s4);
    FieldOfDigits(t.month, 2, "-" + s4);
    var s2 := Digits(t.month, 2) + ("-" + s4);
    AfterSeparator("-", s2);
    FieldOfDigits(t.year, 4, "-" + s2);
  }
}
