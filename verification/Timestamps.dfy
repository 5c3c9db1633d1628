// pkg/asymptoteobserve/ordering.go: the canonical event timestamp, whose byte order is time order.
module Timestamps {
  import opened Text

  // --------------------------------------------------------- the calendar

  predicate Leap(y: nat) { y % 4 == 0 && (y % 100 != 0 || y % 400 == 0) }

  function YearLength(y: nat): nat { if Leap(y) then 366 else 365 }

  function MonthLength(y: nat, m: nat): nat {
    if m == 2 then if Leap(y) then 29 else 28
    else if m == 4 || m == 6 || m == 9 || m == 11 then 30
    else 31
  }

  function DaysBeforeYear(y: nat): nat {
    if y == 0 then 0 else DaysBeforeYear(y - 1) + YearLength(y - 1)
  }

  function DaysBeforeMonth(y: nat, m: nat): nat {
    if m <= 1 then 0 else DaysBeforeMonth(y, m - 1) + MonthLength(y, m - 1)
  }

  datatype Utc = Utc(year: nat, month: nat, day: nat, hour: nat, minute: nat, second: nat, nanos: nat)

  const DAY := 86400 * SECOND

  predicate Valid(f: Utc) {
    && f.year < 10000 && 1 <= f.month <= 12 && 1 <= f.day <= MonthLength(f.year, f.month)
    && f.hour < 24 && f.minute < 60 && f.second < 60 && f.nanos < SECOND
  }

  function DayNumber(f: Utc): int {
    DaysBeforeYear(f.year) + DaysBeforeMonth(f.year, f.month) + f.day - 1
  }

  /** Nanoseconds since the start of year 0. */
  function Instant(f: Utc): int {
    DayNumber(f) * DAY + (f.hour * 3600 + f.minute * 60 + f.second) * SECOND + f.nanos
  }

  /** The first instant of year 10000. */
  function END(): int { DaysBeforeYear(10000) * DAY }

  /** The year a day of year `y` or later falls in, and the day of that year. */
  function YearOf(y: nat, days: nat): (nat, nat)
    decreases days
  {
    if days < YearLength(y) then (y, days) else YearOf(y + 1, days - YearLength(y))
  }

  function MonthOf(y: nat, m: nat, days: nat): (nat, nat)
    decreases days
  {
    if days < MonthLength(y, m) then (m, days) else MonthOf(y, m + 1, days - MonthLength(y, m))
  }

  /** The calendar fields of an instant. */
  function FieldsOf(instant: nat): Utc {
    var (y, dayOfYear) := YearOf(0, instant / DAY);
    var (m, dayOfMonth) := MonthOf(y, 1, dayOfYear);
    var seconds := instant % DAY / SECOND;
    Utc(y, m, dayOfMonth + 1, seconds / 3600, seconds / 60 % 60, seconds % 60, instant % SECOND)
  }

  lemma {:induction false} YearFound(y: nat, days: nat)
    ensures var (z, d) := YearOf(y, days);
            d < YearLength(z) && DaysBeforeYear(z) + d == DaysBeforeYear(y) + days
    decreases days
  {
    if days >= YearLength(y) { YearFound(y + 1, days - YearLength(y)); }
  }

  lemma YearIsMonths(y: nat)
    ensures DaysBeforeMonth(y, 13) == YearLength(y)
  {
    assert DaysBeforeMonth(y, 2) == 31;
    assert DaysBeforeMonth(y, 3) == 31 + MonthLength(y, 2);
    assert DaysBeforeMonth(y, 4) == DaysBeforeMonth(y, 3) + 31;
    assert DaysBeforeMonth(y, 6) == DaysBeforeMonth(y, 4) + 61;
    assert DaysBeforeMonth(y, 8) == DaysBeforeMonth(y, 6) + 61;
    assert DaysBeforeMonth(y, 10) == DaysBeforeMonth(y, 8) + 61;
    assert DaysBeforeMonth(y, 12) == DaysBeforeMonth(y, 10) + 61;
  }

  lemma {:induction false} MonthFound(y: nat, m: nat, days: nat)
    requires 1 <= m <= 13 && DaysBeforeMonth(y, m) + days < YearLength(y)
    ensures var (n, d) := MonthOf(y, m, days);
            m <= n <= 12 && d < MonthLength(y, n) && DaysBeforeMonth(y, n) + d == DaysBeforeMonth(y, m) + days
    decreases days
  {
    if m == 13 {
      YearIsMonths(y);
    } else if days >= MonthLength(y, m) {
      MonthFound(y, m + 1, days - MonthLength(y, m));
    }
  }

  lemma {:induction false} YearsGrow(y: nat, z: nat)
    requires y < z
    ensures DaysBeforeYear(y) + YearLength(y) <= DaysBeforeYear(z)
    decreases z
  {
    if y + 1 < z { YearsGrow(y, z - 1); }
  }

  lemma {:induction false} MonthsGrow(y: nat, m: nat, n: nat)
    requires 1 <= m < n
    ensures DaysBeforeMonth(y, m) + MonthLength(y, m) <= DaysBeforeMonth(y, n)
    decreases n
  {
    if m + 1 < n { MonthsGrow(y, m, n - 1); }
  }

  lemma DateFound(days: nat)
    requires days < DaysBeforeYear(10000)
    ensures var (y, d) := YearOf(0, days);
            var (m, e) := MonthOf(y, 1, d);
            && y < 10000 && 1 <= m <= 12 && e < MonthLength(y, m)
            && DaysBeforeYear(y) + DaysBeforeMonth(y, m) + e == days
  {
    var (y, d) := YearOf(0, days);
    YearFound(0, days);
    MonthFound(y, 1, d);
    if y > 10000 { YearsGrow(10000, y); }
  }

  /** Every instant before year 10000 has valid fields, and they name that instant. */
  lemma FieldsName(instant: nat)
    requires instant < END()
    ensures Valid(FieldsOf(instant)) && Instant(FieldsOf(instant)) == instant
  {
    hide YearOf, MonthOf, DaysBeforeYear, DaysBeforeMonth, MonthLength;
    DayBound(instant);
    var days := instant / DAY;
    DateFound(days);
    SecondsSplit(instant);
    var (y, d) := YearOf(0, days);
    var (m, e) := MonthOf(y, 1, d);
    var f, seconds := FieldsOf(instant), instant % DAY / SECOND;
    assert f == Utc(y, m, e + 1, seconds / 3600, seconds / 60 % 60, seconds % 60, instant % SECOND);
    assert DayNumber(f) == days;
    assert f.hour * 3600 + f.minute * 60 + f.second == seconds;
  }

  lemma DayBound(instant: nat)
    requires instant < END()
    ensures instant / DAY < DaysBeforeYear(10000)
  {
    hide DaysBeforeYear;
  }

  lemma SecondsSplit(instant: nat)
    ensures var seconds := instant % DAY / SECOND;
            && instant == instant / DAY * DAY + seconds * SECOND + instant % SECOND
            && seconds < 86400 && seconds / 3600 < 24
            && seconds == seconds / 3600 * 3600 + seconds / 60 % 60 * 60 + seconds % 60
  {
    var seconds := instant % DAY / SECOND;
    var minutes := seconds / 60;
    assert minutes / 60 == seconds / 3600;
    assert instant % DAY % SECOND == instant % SECOND;
  }

  /** The Gregorian calendar in closed form: which fields are valid, and the nanoseconds from the start of
      year 0 to them. */
  lemma CalendarIs(f: Utc)
    ensures var leap := f.year % 400 == 0 || (f.year % 4 == 0 && f.year % 100 != 0);
            && (Valid(f)
                <==> f.year <= 9999 && 1 <= f.month <= 12
                     && 1 <= f.day <= [31, if leap then 29 else 28, 31, 30, 31, 30, 31, 31, 30, 31, 30, 31][f.month - 1]
                     && f.hour <= 23 && f.minute <= 59 && f.second <= 59 && f.nanos <= 999_999_999)
            && (1 <= f.month <= 12 ==>
                  var days := 365 * f.year + (f.year + 3) / 4 - (f.year + 99) / 100 + (f.year + 399) / 400
                              + [0, 31, 59, 90, 120, 151, 181, 212, 243, 273, 304, 334][f.month - 1]
                              + (if leap && f.month > 2 then 1 else 0) + f.day - 1;
                  Instant(f) == (((days * 24 + f.hour) * 60 + f.minute) * 60 + f.second) * 1_000_000_000 + f.nanos)
  {
    LeapIs(f.year);
    hide Leap;
    if 1 <= f.month <= 12 {
      MonthLengths(f.year, f.month);
      YearsClosed(f.year);
      MonthsClosed(f.year, f.month);
      hide DaysBeforeYear, DaysBeforeMonth, MonthLength, Instant, Valid;
      assert DayNumber(f) == DaysBeforeYear(f.year) + DaysBeforeMonth(f.year, f.month) + f.day - 1;
      hide DayNumber;
      InstantOf(f, DayNumber(f));
      ValidIs(f);
    }
  }

  lemma LeapIs(y: nat)
    ensures Leap(y) <==> y % 400 == 0 || (y % 4 == 0 && y % 100 != 0)
  {
    Hundredth(y);
  }

  lemma MonthLengths(y: nat, m: nat)
    requires 1 <= m <= 12
    ensures MonthLength(y, m) == [31, if Leap(y) then 29 else 28, 31, 30, 31, 30, 31, 31, 30, 31, 30, 31][m - 1]
  {
    hide Leap;
  }

  lemma ValidIs(f: Utc)
    ensures Valid(f)
       <==> f.year <= 9999 && 1 <= f.month <= 12 && 1 <= f.day <= MonthLength(f.year, f.month)
            && f.hour <= 23 && f.minute <= 59 && f.second <= 59 && f.nanos <= 999_999_999
  {
    hide MonthLength;
  }

  lemma InstantOf(f: Utc, days: int)
    requires DayNumber(f) == days
    ensures Instant(f) == (((days * 24 + f.hour) * 60 + f.minute) * 60 + f.second) * 1_000_000_000 + f.nanos
  {
    hide DayNumber;
  }

  lemma {:induction false} YearsClosed(y: nat)
    ensures DaysBeforeYear(y) == 365 * y + (y + 3) / 4 - (y + 99) / 100 + (y + 399) / 400
  {
    if y > 0 {
      YearsClosed(y - 1);
      LeapCount(y - 1);
      Fours(y - 1);
      Hundreds(y - 1);
      FourHundreds(y - 1);
      hide YearLength;
    }
  }

  function One(b: bool): nat { if b then 1 else 0 }

  lemma Fours(n: nat)
    ensures (n + 4) / 4 == (n + 3) / 4 + One(n % 4 == 0)
  {
  }

  lemma Hundreds(n: nat)
    ensures (n + 100) / 100 == (n + 99) / 100 + One(n % 100 == 0)
  {
  }

  lemma FourHundreds(n: nat)
    ensures (n + 400) / 400 == (n + 399) / 400 + One(n % 400 == 0)
  {
  }

  lemma LeapCount(n: nat)
    ensures YearLength(n) == 365 + One(n % 4 == 0) - One(n % 100 == 0) + One(n % 400 == 0)
  {
    Hundredth(n);
  }

  /** What 400 divides 100 does, and what 100 divides 4 does. */
  lemma Hundredth(n: nat)
    ensures n % 400 == 0 ==> n % 100 == 0
    ensures n % 100 == 0 ==> n % 4 == 0
  {
    var q, r := n / 400, n / 100;
    if n % 400 == 0 { assert n == 100 * (4 * q); }
    if n % 100 == 0 { assert n == 4 * (25 * r); }
  }

  lemma MonthsClosed(y: nat, m: nat)
    requires 1 <= m <= 12
    ensures DaysBeforeMonth(y, m)
         == [0, 31, 59, 90, 120, 151, 181, 212, 243, 273, 304, 334][m - 1] + if Leap(y) && m > 2 then 1 else 0
  {
    var d := DaysBeforeMonth(y, 3);
    assert DaysBeforeMonth(y, 2) == 31 && d == 31 + MonthLength(y, 2);
    assert DaysBeforeMonth(y, 4) == d + 31;
    assert DaysBeforeMonth(y, 5) == d + 61;
    assert DaysBeforeMonth(y, 6) == d + 92;
    assert DaysBeforeMonth(y, 7) == d + 122;
    assert DaysBeforeMonth(y, 8) == d + 153;
    assert DaysBeforeMonth(y, 9) == d + 184;
    assert DaysBeforeMonth(y, 10) == d + 214;
    assert DaysBeforeMonth(y, 11) == d + 245;
    assert DaysBeforeMonth(y, 12) == d + 275;
  }

  // ------------------------------------------------------ digits in order

  function Pow10(w: nat): (p: nat)
    ensures p > 0
  {
    if w == 0 then 1 else 10 * Pow10(w - 1)
  }

  function Digits(n: nat, w: nat): (s: string)
    ensures |s| == w
  {
    if w == 0 then "" else Digits(n / 10, w - 1) + [Digit(n % 10)]
  }

  lemma {:induction false} DigitsValue(n: nat, w: nat)
    requires n < Pow10(w)
    ensures AllDigits(Digits(n, w)) && ParseNat(Digits(n, w)) == n
  {
    if w > 0 {
      DigitsValue(n / 10, w - 1);
      assert Digits(n, w)[..w - 1] == Digits(n / 10, w - 1);
    }
  }

  /** Byte-wise order. */
  predicate Before(s: string, t: string) {
    t != "" && (s == "" || s[0] < t[0] || (s[0] == t[0] && Before(s[1..], t[1..])))
  }

  /** Where two texts first differ, the first ends or has the smaller character. */
  lemma {:induction false} BeforeIs(s: string, t: string)
    ensures Before(s, t)
       <==> exists i: nat :: i <= |s| && i < |t| && s[..i] == t[..i] && (i == |s| || s[i] < t[i])
  {
    if s != "" && t != "" {
      var u, v := s[1..], t[1..];
      BeforeIs(u, v);
      if Before(s, t) && s[0] == t[0] {
        var i: nat :| i <= |u| && i < |v| && u[..i] == v[..i] && (i == |u| || u[i] < v[i]);
        assert s[..i + 1] == [s[0]] + u[..i] && t[..i + 1] == [t[0]] + v[..i];
        assert i + 1 == |s| || s[i + 1] < t[i + 1];
      } else if Before(s, t) {
        assert s[..0] == t[..0];
      }
      forall i: nat | i <= |s| && i < |t| && s[..i] == t[..i] && (i == |s| || s[i] < t[i]) ensures Before(s, t) {
        if i > 0 {
          assert s[..i][0] == s[0] && t[..i][0] == t[0];
          assert u[..i - 1] == s[..i][1..] && v[..i - 1] == t[..i][1..];
        }
      }
    } else if t != "" {
      assert s[..0] == t[..0];
    }
  }

  lemma BeforeStep(c: char, s: string, d: char, t: string)
    ensures Before([c] + s, [d] + t) <==> c < d || (c == d && Before(s, t))
  {
    assert ([c] + s)[1..] == s && ([d] + t)[1..] == t;
  }

  /** Numbers of one width compare as numbers, and then by what follows. */
  lemma {:induction false} DigitsOrder(m: nat, n: nat, w: nat, s: string, t: string)
    requires m < Pow10(w) && n < Pow10(w)
    ensures Before(Digits(m, w) + s, Digits(n, w) + t) <==> m < n || (m == n && Before(s, t))
    decreases w
  {
    if w == 0 {
      assert Digits(m, 0) + s == s && Digits(n, 0) + t == t;
    } else {
      var s', t' := [Digit(m % 10)] + s, [Digit(n % 10)] + t;
      assert Digits(m, w) + s == Digits(m / 10, w - 1) + s' && Digits(n, w) + t == Digits(n / 10, w - 1) + t';
      DigitsOrder(m / 10, n / 10, w - 1, s', t');
      BeforeStep(Digit(m % 10), s, Digit(n % 10), t);
    }
  }

  // ----------------------------------------------------------- the layout

  /** A number's width, and the character after it. */
  datatype Part = Part(width: nat, then_: char)

  const MINUTES := [Part(4, '-'), Part(2, '-'), Part(2, 'T'), Part(2, ':'), Part(2, ':')]
  const LAYOUT := MINUTES + [Part(2, '.'), Part(9, 'Z')]

  function Values(f: Utc): seq<nat> {
    [f.year, f.month, f.day, f.hour, f.minute, f.second, f.nanos]
  }

  function Render(values: seq<nat>, parts: seq<Part>): string
    requires |values| == |parts|
  {
    if parts == [] then "" else Digits(values[0], parts[0].width) + [parts[0].then_] + Render(values[1..], parts[1..])
  }

  predicate Fits(values: seq<nat>, parts: seq<Part>) {
    |values| == |parts| && forall i | 0 <= i < |parts| :: values[i] < Pow10(parts[i].width)
  }

  /** Lists of one length in order of their first difference. */
  predicate Less(a: seq<nat>, b: seq<nat>)
    requires |a| == |b|
  {
    a != [] && (a[0] < b[0] || (a[0] == b[0] && Less(a[1..], b[1..])))
  }

  lemma {:induction false} RenderOrder(a: seq<nat>, b: seq<nat>, parts: seq<Part>)
    requires Fits(a, parts) && Fits(b, parts)
    ensures Before(Render(a, parts), Render(b, parts)) <==> Less(a, b)
  {
    if parts != [] {
      var p := parts[0];
      var s, t := Render(a[1..], parts[1..]), Render(b[1..], parts[1..]);
      RenderOrder(a[1..], b[1..], parts[1..]);
      BeforeStep(p.then_, s, p.then_, t);
      assert Render(a, parts) == Digits(a[0], p.width) + ([p.then_] + s);
      assert Render(b, parts) == Digits(b[0], p.width) + ([p.then_] + t);
      DigitsOrder(a[0], b[0], p.width, [p.then_] + s, [p.then_] + t);
    }
  }

  /** t.UTC().Format(TimestampFormat) */
  function Format(f: Utc): string {
    Render(Values(f), LAYOUT)
  }

  function FormatTimestamp(instant: nat): string {
    Format(FieldsOf(instant))
  }

  lemma ValuesFit(f: Utc)
    requires Valid(f)
    ensures Fits(Values(f), LAYOUT)
  {
    assert Pow10(2) == 100 && Pow10(4) == 100 * Pow10(2) && Pow10(9) == 1000 * Pow10(6) &&
           Pow10(6) == 1000 * Pow10(3) && Pow10(3) == 1000;
  }

  /** The calendar is in order: earlier fields, earlier instant. */
  lemma FieldsOrder(f: Utc, g: Utc)
    requires Valid(f) && Valid(g)
    ensures Instant(f) < Instant(g) <==> Less(Values(f), Values(g))
  {
    LessTotal(Values(f), Values(g));
    if Less(Values(f), Values(g)) {
      FieldsBefore(f, g);
    } else if Less(Values(g), Values(f)) {
      FieldsBefore(g, f);
    }
  }

  lemma {:induction false} LessTotal(a: seq<nat>, b: seq<nat>)
    requires |a| == |b|
    ensures Less(a, b) || a == b || Less(b, a)
    ensures !(Less(a, b) && Less(b, a)) && (a == b ==> !Less(a, b))
  {
    if a != [] {
      LessTotal(a[1..], b[1..]);
      assert a == [a[0]] + a[1..] && b == [b[0]] + b[1..];
    }
  }

  lemma LessStep(m: nat, a: seq<nat>, n: nat, b: seq<nat>)
    requires |a| == |b|
    ensures Less([m] + a, [n] + b) <==> m < n || (m == n && Less(a, b))
  {
    assert ([m] + a)[1..] == a && ([n] + b)[1..] == b;
  }

  lemma SplitValues(f: Utc)
    ensures Values(f) == [f.year] + ([f.month] + ([f.day] + TimeValues(f)))
    ensures TimeValues(f) == [f.hour] + ([f.minute] + ([f.second] + ([f.nanos] + [])))
  {
  }

  function TimeValues(f: Utc): seq<nat> {
    [f.hour, f.minute, f.second, f.nanos]
  }

  function TimeOfDay(f: Utc): int {
    (f.hour * 3600 + f.minute * 60 + f.second) * SECOND + f.nanos
  }

  lemma TimeBefore(f: Utc, g: Utc)
    requires Valid(f) && Valid(g) && Less(TimeValues(f), TimeValues(g))
    ensures TimeOfDay(f) < TimeOfDay(g)
  {
    hide Less;
    SplitValues(f);
    SplitValues(g);
    LessStep(f.hour, [f.minute] + ([f.second] + ([f.nanos] + [])), g.hour,
        [g.minute] + ([g.second] + ([g.nanos] + [])));
    LessStep(f.minute, [f.second] + ([f.nanos] + []), g.minute, [g.second] + ([g.nanos] + []));
    LessStep(f.second, [f.nanos] + [], g.second, [g.nanos] + []);
    LessStep(f.nanos, [], g.nanos, []);
    NothingLess();
  }

  lemma NothingLess()
    ensures !Less([], [])
  {
  }

  lemma TimeInDay(f: Utc)
    requires Valid(f)
    ensures 0 <= TimeOfDay(f) < DAY
  {
  }

  lemma DayBefore(f: Utc, g: Utc)
    requires Valid(f) && Valid(g)
    requires f.year < g.year || (f.year == g.year && (f.month < g.month || (f.month == g.month && f.day < g.day)))
    ensures DayNumber(f) < DayNumber(g)
  {
    hide DaysBeforeYear, DaysBeforeMonth, MonthLength;
    if f.year < g.year {
      YearsGrow(f.year, g.year);
      YearIsMonths(f.year);
      MonthsGrow(f.year, f.month, 13);
    } else if f.month < g.month {
      MonthsGrow(f.year, f.month, g.month);
    }
  }

  lemma FieldsBefore(f: Utc, g: Utc)
    requires Valid(f) && Valid(g) && Less(Values(f), Values(g))
    ensures Instant(f) < Instant(g)
  {
    hide Less, DayNumber;
    SplitValues(f);
    SplitValues(g);
    LessStep(f.year, [f.month] + ([f.day] + TimeValues(f)), g.year, [g.month] + ([g.day] + TimeValues(g)));
    LessStep(f.month, [f.day] + TimeValues(f), g.month, [g.day] + TimeValues(g));
    LessStep(f.day, TimeValues(f), g.day, TimeValues(g));
    TimeInDay(f);
    TimeInDay(g);
    assert Instant(f) == DayNumber(f) * DAY + TimeOfDay(f) && Instant(g) == DayNumber(g) * DAY + TimeOfDay(g);
    if f.year == g.year && f.month == g.month && f.day == g.day {
      TimeBefore(f, g);
      assert DayNumber(f) == DayNumber(g) by { SameDay(f, g); }
    } else {
      DayBefore(f, g);
      assert DayNumber(f) * DAY + DAY <= DayNumber(g) * DAY;
    }
  }

  lemma SameDay(f: Utc, g: Utc)
    requires f.year == g.year && f.month == g.month && f.day == g.day
    ensures DayNumber(f) == DayNumber(g)
  {
  }

  /** Byte-wise order of formatted instants is time order, for every pair in years 0000 to 9999. */
  lemma ByteOrderIsTimeOrder(s: nat, t: nat)
    requires s < END() && t < END()
    ensures Before(FormatTimestamp(s), FormatTimestamp(t)) <==> s < t
    ensures FormatTimestamp(s) == FormatTimestamp(t) <==> s == t
  {
    hide FieldsOf, Instant, Valid, Less, Before, Render;
    var f, g := FieldsOf(s), FieldsOf(t);
    FieldsName(s);
    FieldsName(t);
    ValuesFit(f);
    ValuesFit(g);
    RenderOrder(Values(f), Values(g), LAYOUT);
    RenderOrder(Values(g), Values(f), LAYOUT);
    FieldsOrder(f, g);
    FieldsOrder(g, f);
    if FormatTimestamp(s) == FormatTimestamp(t) {
      NotBeforeItself(FormatTimestamp(s));
    }
  }

  lemma {:induction false} NotBeforeItself(s: string)
    ensures !Before(s, s)
  {
    if s != "" { NotBeforeItself(s[1..]); }
  }

  lemma Peel(value: nat, values: seq<nat>, part: Part, parts: seq<Part>)
    requires |values| == |parts| && value < Pow10(part.width)
    ensures var s, w := Render([value] + values, [part] + parts), part.width;
            && |s| == w + 1 + |Render(values, parts)| && s[w] == part.then_ && s[w + 1..] == Render(values, parts)
            && AllDigits(s[..w]) && ParseNat(s[..w]) == value
  {
    RenderOne(value, values, part, parts);
    DigitsValue(value, part.width);
    hide Render, Digits, ParseNat, AllDigits, Pow10;
    var s := Render([value] + values, [part] + parts);
    assert s[..part.width] == Digits(value, part.width);
  }

  predicate Shows(s: string, n: nat) {
    AllDigits(s) && ParseNat(s) == n
  }

  const CLOCK := [Part(2, ':'), Part(2, ':'), Part(2, '.'), Part(9, 'Z')]

  lemma DateText(f: Utc)
    requires Valid(f)
    ensures var s := Format(f);
            && |s| == 11 + |Render(TimeValues(f), CLOCK)| && s[4] == s[7] == '-' && s[10] == 'T'
            && Shows(s[..4], f.year) && Shows(s[5..7], f.month) && Shows(s[8..10], f.day)
            && s[11..] == Render(TimeValues(f), CLOCK)
  {
    ValuesFit(f);
    SplitValues(f);
    assert f.year < Pow10(4) && f.month < Pow10(2) && f.day < Pow10(2);
    assert LAYOUT == [Part(4, '-')] + ([Part(2, '-')] + ([Part(2, 'T')] + CLOCK));
    hide Render, Pow10, ParseNat, AllDigits;
    Peel(f.year, [f.month] + ([f.day] + TimeValues(f)), Part(4, '-'), [Part(2, '-')] + ([Part(2, 'T')] + CLOCK));
    Peel(f.month, [f.day] + TimeValues(f), Part(2, '-'), [Part(2, 'T')] + CLOCK);
    Peel(f.day, TimeValues(f), Part(2, 'T'), CLOCK);
    var s := Format(f);
    var t := s[5..];
    assert t[..2] == s[5..7] && t[3..] == s[8..] && t[3..][..2] == s[8..10] && t[3..][3..] == s[11..];
  }

  lemma SecondsText(f: Utc)
    requires Valid(f)
    ensures var u := Render([f.second] + ([f.nanos] + []), [Part(2, '.')] + ([Part(9, 'Z')] + []));
            |u| == 13 && u[2] == '.' && u[12] == 'Z' && Shows(u[..2], f.second) && Shows(u[3..12], f.nanos)
  {
    ValuesFit(f);
    assert Values(f)[6] < Pow10(LAYOUT[6].width) && f.second < Pow10(2);
    RenderNone();
    hide Render, Pow10, ParseNat, AllDigits;
    Peel(f.second, [f.nanos] + [], Part(2, '.'), [Part(9, 'Z')] + []);
    Peel(f.nanos, [], Part(9, 'Z'), []);
    var u := Render([f.second] + ([f.nanos] + []), [Part(2, '.')] + ([Part(9, 'Z')] + []));
    assert u[3..][..9] == u[3..12];
  }

  lemma ClockText(f: Utc)
    requires Valid(f)
    ensures var t := Render(TimeValues(f), CLOCK);
            && |t| == 19 && t[2] == t[5] == ':' && t[8] == '.' && t[18] == 'Z' && Shows(t[..2], f.hour)
            && Shows(t[3..5], f.minute) && Shows(t[6..8], f.second) && Shows(t[9..18], f.nanos)
  {
    SecondsText(f);
    SplitValues(f);
    assert Pow10(2) == 100;
    var seconds, parts := [f.second] + ([f.nanos] + []), [Part(2, '.')] + ([Part(9, 'Z')] + []);
    assert CLOCK == [Part(2, ':')] + ([Part(2, ':')] + parts);
    hide Render, Pow10, ParseNat, AllDigits;
    Peel(f.hour, [f.minute] + seconds, Part(2, ':'), [Part(2, ':')] + parts);
    Peel(f.minute, seconds, Part(2, ':'), parts);
    var t, u := Render(TimeValues(f), CLOCK), Render(seconds, parts);
    assert t[3..][..2] == t[3..5] && t[3..][3..] == u;
    assert u[..2] == t[6..8] && u[3..12] == t[9..18] && u[2] == t[8] && u[12] == t[18];
  }

  /** A formatted instant is thirty characters, yyyy-mm-ddThh:mm:ss.nnnnnnnnnZ, each number in its place. */
  lemma FormattedText(instant: nat)
    requires instant < END()
    ensures var s, f := FormatTimestamp(instant), FieldsOf(instant);
            && |s| == 30 && s[4] == s[7] == '-' && s[10] == 'T' && s[13] == s[16] == ':' && s[19] == '.' && s[29] == 'Z'
            && Shows(s[..4], f.year) && Shows(s[5..7], f.month) && Shows(s[8..10], f.day) && Shows(s[11..13], f.hour)
            && Shows(s[14..16], f.minute) && Shows(s[17..19], f.second) && Shows(s[20..29], f.nanos)
            && Valid(f) && Instant(f) == instant
  {
    FieldsName(instant);
    hide FieldsOf, Format, Valid, Instant, Shows, Render;
    DateText(FieldsOf(instant));
    ClockText(FieldsOf(instant));
    var s := FormatTimestamp(instant);
    var t := s[11..];
    assert t[..2] == s[11..13] && t[3..5] == s[14..16] && t[6..8] == s[17..19] && t[9..18] == s[20..29];
    assert t[2] == s[13] && t[5] == s[16] && t[8] == s[19] && t[18] == s[29];
  }

  // ------------------------------------------------------------- parsing

  /** Numbers of the given widths with the given characters after them, and the text behind. */
  function Read(s: string, parts: seq<Part>): Option<(seq<nat>, string)> {
    if parts == [] then Some(([], s))
    else
      var w := parts[0].width;
      if |s| <= w || !AllDigits(s[..w]) || s[w] != parts[0].then_ then None
      else
        var more := Read(s[w + 1..], parts[1..]);
        if more.None? then None else Some(([ParseNat(s[..w])] + more.value.0, more.value.1))
  }

  /** A fraction of a second in nanoseconds; digits past the ninth do not count. */
  function Fraction(digits: string): nat
    requires AllDigits(digits)
  {
    if |digits| > 9 then ParseNat(digits[..9]) else ParseNat(digits) * Pow10(9 - |digits|)
  }

  /** RFC 3339 in UTC: a whole second, or one with a fraction of any width. */
  function ParseFields(s: string): Option<Utc> {
    var read := Read(s, MINUTES);
    if read.None? then None
    else
      var (v, rest) := read.value;
      var n := |rest|;
      if n < 3 || !AllDigits(rest[..2]) || rest[n - 1] != 'Z' || |v| != 5 then None
      else
        var fraction := rest[2..n - 1];
        if fraction != "" && (|fraction| == 1 || fraction[0] != '.' || !AllDigits(fraction[1..])) then None
        else
          var nanos := if fraction == "" then 0 else Fraction(fraction[1..]);
          var f := Utc(v[0], v[1], v[2], v[3], v[4], ParseNat(rest[..2]), nanos);
          if Valid(f) then Some(f) else None
  }

  function ParseTimestamp(s: string): Option<int> {
    var f := ParseFields(s);
    if f.None? then None else Some(Instant(f.value))
  }

  lemma ReadOne(digits: string, part: Part, more: string, parts: seq<Part>)
    requires |digits| == part.width && AllDigits(digits)
    ensures Read(digits + [part.then_] + more, [part] + parts)
         == match Read(more, parts) case None => None case Some((v, rest)) => Some(([ParseNat(digits)] + v, rest))
  {
    hide ParseNat, AllDigits;
    var s := digits + [part.then_] + more;
    assert s[..part.width] == digits && s[part.width + 1..] == more && s[part.width] == part.then_;
    assert ([part] + parts)[1..] == parts;
  }

  lemma RenderOne(value: nat, values: seq<nat>, part: Part, parts: seq<Part>)
    requires |values| == |parts|
    ensures Render([value] + values, [part] + parts) == Digits(value, part.width) + [part.then_] + Render(values, parts)
  {
    hide Digits;
    assert ([value] + values)[1..] == values && ([part] + parts)[1..] == parts;
  }

  lemma FitsStep(value: nat, values: seq<nat>, part: Part, parts: seq<Part>)
    requires Fits([value] + values, [part] + parts)
    ensures value < Pow10(part.width) && Fits(values, parts)
  {
    hide Pow10;
    var vs, ps := [value] + values, [part] + parts;
    assert vs[0] < Pow10(ps[0].width);
    forall i | 0 <= i < |parts| ensures values[i] < Pow10(parts[i].width) {
      assert vs[i + 1] < Pow10(ps[i + 1].width);
    }
  }

  lemma ReadNone(rest: string)
    ensures Read(Render([], []) + rest, []) == Some(([], rest))
  {
    assert "" + rest == rest;
  }

  lemma ReadStep(value: nat, values: seq<nat>, part: Part, parts: seq<Part>, rest: string)
    requires |values| == |parts| && value < Pow10(part.width)
    requires Read(Render(values, parts) + rest, parts) == Some((values, rest))
    ensures Read(Render([value] + values, [part] + parts) + rest, [part] + parts) == Some(([value] + values, rest))
  {
    hide *;
    DigitsValue(value, part.width);
    RenderOne(value, values, part, parts);
    var digits, more := Digits(value, part.width), Render(values, parts) + rest;
    ReadOne(digits, part, more, parts);
    assert digits + [part.then_] + Render(values, parts) + rest == digits + [part.then_] + more;
  }

  lemma {:induction false} ReadRendered(values: seq<nat>, parts: seq<Part>, rest: string)
    requires Fits(values, parts)
    ensures Read(Render(values, parts) + rest, parts) == Some((values, rest))
    decreases |parts|
  {
    if parts == [] {
      ReadNone(rest);
      assert values == [] && parts == [];
    } else {
      var v, vs, p, ps := values[0], values[1..], parts[0], parts[1..];
      assert values == [v] + vs && parts == [p] + ps;
      hide *;
      FitsStep(v, vs, p, ps);
      ReadRendered(vs, ps, rest);
      ReadStep(v, vs, p, ps, rest);
    }
  }

  /** A number without its last `j` digits. */
  function Drop(n: nat, j: nat): nat {
    if j == 0 then n else Drop(n / 10, j - 1)
  }

  lemma {:induction false} DropIsFloor(n: nat, j: nat)
    ensures Drop(n, j) * Pow10(j) <= n < Drop(n, j) * Pow10(j) + Pow10(j)
  {
    if j > 0 {
      DropIsFloor(n / 10, j - 1);
      TimesTen(Drop(n, j), Pow10(j - 1));
    }
  }

  lemma TimesTen(d: nat, p: nat)
    ensures d * (10 * p) == 10 * (d * p)
  {
  }

  lemma {:induction false} DropFits(n: nat, k: nat, j: nat)
    requires n < Pow10(k + j)
    ensures Drop(n, j) < Pow10(k)
    decreases j
  {
    if j > 0 { DropFits(n / 10, k, j - 1); }
  }

  /** The text of an instant with `k` digits of its fraction, or none at all. */
  function FormatTo(f: Utc, k: nat): string
    requires k <= 9
  {
    Render([f.year, f.month, f.day, f.hour, f.minute], MINUTES) + (Digits(f.second, 2) + FractionText(f, k) + "Z")
  }

  function FractionText(f: Utc, k: nat): string
    requires k <= 9
  {
    if k == 0 then "" else "." + Digits(Drop(f.nanos, 9 - k), k)
  }

  /** The fields to `k` digits of their fraction. */
  function UpTo(f: Utc, k: nat): Utc
    requires k <= 9
  {
    f.(nanos := Drop(f.nanos, 9 - k) * Pow10(9 - k))
  }

  lemma MinutesFit(f: Utc)
    requires Valid(f)
    ensures Fits([f.year, f.month, f.day, f.hour, f.minute], MINUTES) && f.second < Pow10(2)
  {
    assert Pow10(2) == 100 && Pow10(4) == 100 * Pow10(2);
  }

  lemma NanosFit(f: Utc, k: nat)
    requires Valid(f) && k <= 9
    ensures Drop(f.nanos, 9 - k) < Pow10(k) && Drop(f.nanos, 9 - k) * Pow10(9 - k) <= f.nanos
    ensures k == 0 ==> Drop(f.nanos, 9 - k) == 0
  {
    assert Pow10(9) == 1000 * Pow10(6) && Pow10(6) == 1000 * Pow10(3) && Pow10(3) == 1000;
    DropFits(f.nanos, k, 9 - k);
    DropIsFloor(f.nanos, 9 - k);
    assert Pow10(0) == 1;
  }

  /** Parsing reads back any width of fraction, none at all included, to the last digit written. */
  lemma ParseInvertsTo(f: Utc, k: nat)
    requires Valid(f) && k <= 9
    ensures ParseFields(FormatTo(f, k)) == Some(UpTo(f, k))
  {
    hide Read, Render, Digits, AllDigits, ParseNat, Fits, Drop, Pow10, MonthLength;
    var v := [f.year, f.month, f.day, f.hour, f.minute];
    var digits, fraction := Digits(f.second, 2), FractionText(f, k);
    var rest := digits + fraction + "Z";
    MinutesFit(f);
    NanosFit(f, k);
    ReadRendered(v, MINUTES, rest);
    DigitsValue(f.second, 2);
    assert rest[..2] == digits && rest[2..|rest| - 1] == fraction;
    if k > 0 {
      var nanos := Digits(Drop(f.nanos, 9 - k), k);
      DigitsValue(Drop(f.nanos, 9 - k), k);
      assert fraction[1..] == nanos;
      assert Fraction(nanos) == Drop(f.nanos, 9 - k) * Pow10(9 - k);
    }
    assert Valid(UpTo(f, k));
  }

  lemma {:induction false} DigitsBack(s: string)
    requires AllDigits(s)
    ensures ParseNat(s) < Pow10(|s|) && Digits(ParseNat(s), |s|) == s
  {
    if s != "" {
      var front := s[..|s| - 1];
      DigitsBack(front);
      assert s == front + [s[|s| - 1]];
      assert IsDigit(s[|s| - 1]);
    }
  }

  /** What is read is what was rendered. */
  lemma {:induction false} ReadExact(s: string, parts: seq<Part>)
    requires Read(s, parts).Some?
    ensures var (v, rest) := Read(s, parts).value; |v| == |parts| && s == Render(v, parts) + rest
    decreases |parts|
  {
    if parts == [] {
      assert "" + s == s;
    } else {
      var w := parts[0].width;
      var digits, back := s[..w], s[w + 1..];
      var (v, rest) := Read(back, parts[1..]).value;
      ReadExact(back, parts[1..]);
      DigitsBack(digits);
      assert [parts[0]] + parts[1..] == parts && s == digits + [s[w]] + back;
      hide *;
      RenderOne(ParseNat(digits), v, parts[0], parts[1..]);
      Assoc(digits + [s[w]], Render(v, parts[1..]), rest);
    }
  }

  /** `s` writes the fields to the second, then nothing or a point and digits, of which nine count, then
      `Z`. */
  ghost predicate Writes(s: string, f: Utc, digits: string) {
    && AllDigits(digits) && AllDigits((digits + "000000000")[..9])
    && f.nanos == ParseNat((digits + "000000000")[..9])
    && s == Render([f.year, f.month, f.day, f.hour, f.minute], MINUTES)
            + (Digits(f.second, 2) + (if digits == "" then "" else "." + digits) + "Z")
  }

  /** Exactly the texts of valid fields parse, as those fields. */
  lemma ParsesExactly(s: string, f: Utc)
    ensures ParseFields(s) == Some(f) <==> Valid(f) && exists digits: string :: Writes(s, f, digits)
  {
    if ParseFields(s) == Some(f) {
      var digits := ParsesOnly(s);
      assert Writes(s, f, digits);
    }
    if Valid(f) {
      forall digits: string | Writes(s, f, digits) ensures ParseFields(s) == Some(f) {
        WrittenParses(s, f, digits);
      }
    }
  }

  lemma ParsesOnly(s: string) returns (digits: string)
    requires ParseFields(s).Some?
    ensures var f := ParseFields(s).value; Valid(f) && Writes(s, f, digits)
  {
    ReadExact(s, MINUTES);
    var (v, rest) := Read(s, MINUTES).value;
    var n := |rest|;
    var fraction := rest[2..n - 1];
    DigitsBack(rest[..2]);
    assert v == [v[0], v[1], v[2], v[3], v[4]];
    assert rest == rest[..2] + fraction + "Z";
    digits := if fraction == "" then "" else fraction[1..];
    FractionIs(digits);
    hide Read, Render, Digits, ParseNat, Valid, Fraction;
    assert fraction == if digits == "" then "" else "." + digits;
  }

  lemma WrittenParses(s: string, f: Utc, digits: string)
    requires Valid(f) && Writes(s, f, digits)
    ensures ParseFields(s) == Some(f)
  {
    var v, seconds := [f.year, f.month, f.day, f.hour, f.minute], Digits(f.second, 2);
    var fraction := if digits == "" then "" else "." + digits;
    var rest := seconds + fraction + "Z";
    MinutesFit(f);
    ReadRendered(v, MINUTES, rest);
    DigitsValue(f.second, 2);
    FractionIs(digits);
    hide Read, Render, Digits, AllDigits, ParseNat, Fits, Pow10, MonthLength, Fraction;
    assert rest[..2] == seconds && rest[2..|rest| - 1] == fraction;
    if digits != "" { assert fraction[1..] == digits; }
  }

  /** A fraction counts as if nine zeros stood behind it. */
  lemma FractionIs(digits: string)
    requires AllDigits(digits)
    ensures AllDigits((digits + "000000000")[..9])
    ensures ParseNat((digits + "000000000")[..9]) == if digits == "" then 0 else Fraction(digits)
  {
    var zeros := "000000000";
    var nine := (digits + zeros)[..9];
    if |digits| > 9 {
      assert nine == digits[..9];
    } else {
      var k := 9 - |digits|;
      assert nine == digits + zeros[..k];
      PaddedValue(digits, zeros[..k]);
    }
  }

  lemma {:induction false} PaddedValue(digits: string, zeros: string)
    requires AllDigits(digits) && forall i | 0 <= i < |zeros| :: zeros[i] == '0'
    ensures AllDigits(digits + zeros) && ParseNat(digits + zeros) == ParseNat(digits) * Pow10(|zeros|)
    decreases |zeros|
  {
    if zeros == "" {
      assert digits + zeros == digits;
    } else {
      var n := |zeros| - 1;
      PaddedValue(digits, zeros[..n]);
      assert digits + zeros == digits + zeros[..n] + [zeros[n]];
      assert (digits + zeros)[..|digits + zeros| - 1] == digits + zeros[..n];
      TimesTen(ParseNat(digits), Pow10(n));
    }
  }

  lemma NothingDropped(n: nat)
    ensures Drop(n, 0) == n && Pow10(0) == 1
  {
  }

  lemma CanonicalIsNine(f: Utc)
    requires Valid(f)
    ensures Format(f) == FormatTo(f, 9) && UpTo(f, 9) == f
  {
    NothingDropped(f.nanos);
    hide Digits, Render, Drop, Pow10, Valid;
    var v, w := [f.year, f.month, f.day, f.hour, f.minute], [f.second, f.nanos];
    assert Values(f) == v + w;
    RenderAppend(v, MINUTES, w, [Part(2, '.'), Part(9, 'Z')]);
    RenderTwo(f.second, f.nanos);
  }

  lemma RenderTwo(a: nat, b: nat)
    ensures Render([a, b], [Part(2, '.'), Part(9, 'Z')]) == Digits(a, 2) + "." + Digits(b, 9) + "Z"
  {
    hide Digits, Render;
    RenderOne(a, [b], Part(2, '.'), [Part(9, 'Z')]);
    RenderOne(b, [], Part(9, 'Z'), []);
    RenderNone();
    assert [a] + [b] == [a, b] && [Part(2, '.')] + [Part(9, 'Z')] == [Part(2, '.'), Part(9, 'Z')];
    assert [b] + [] == [b] && [Part(9, 'Z')] + [] == [Part(9, 'Z')];
  }

  lemma RenderNone()
    ensures Render([], []) == ""
  {
  }

  lemma {:induction false} RenderAppend(a: seq<nat>, p: seq<Part>, b: seq<nat>, q: seq<Part>)
    requires |a| == |p| && |b| == |q|
    ensures Render(a + b, p + q) == Render(a, p) + Render(b, q)
  {
    hide Digits;
    if p == [] {
      assert a + b == b && p + q == q;
    } else {
      assert (a + b)[1..] == a[1..] + b && (p + q)[1..] == p[1..] + q;
      RenderAppend(a[1..], p[1..], b, q);
    }
  }

  /** Parsing inverts formatting to the nanosecond. */
  lemma ParseInvertsFormat(instant: nat)
    requires instant < END()
    ensures ParseTimestamp(FormatTimestamp(instant)) == Some(instant)
  {
    hide FieldsOf, Format, FormatTo, ParseFields, Instant, Valid, UpTo;
    var f := FieldsOf(instant);
    FieldsName(instant);
    CanonicalIsNine(f);
    ParseInvertsTo(f, 9);
  }

  /** Why the width is fixed: with trailing zeros trimmed, half a second past sorts before the
      whole second. */
  lemma TrimmedDoesNotSort(f: Utc)
    requires Valid(f) && f.nanos == 0
    ensures var half := f.(nanos := 500_000_000);
            Instant(f) < Instant(half) && Before(FormatTo(half, 1), FormatTo(f, 0))
  {
    var half := f.(nanos := 500_000_000);
    assert Instant(f) < Instant(half);
    hide Render, Digits, Before, Instant, Valid, Drop;
    var head := Render([f.year, f.month, f.day, f.hour, f.minute], MINUTES) + Digits(f.second, 2);
    var tail := FractionText(half, 1) + "Z";
    TextOfHead(f, half);
    BeforeAfter(head, tail, "Z");
    PointBeforeZ(tail);
  }

  lemma TextOfHead(f: Utc, half: Utc)
    requires half == f.(nanos := half.nanos)
    ensures var head := Render([f.year, f.month, f.day, f.hour, f.minute], MINUTES) + Digits(f.second, 2);
            FormatTo(f, 0) == head + "Z" && FormatTo(half, 1) == head + (FractionText(half, 1) + "Z")
  {
    hide Render, Digits, Drop;
  }

  lemma PointBeforeZ(tail: string)
    requires tail != "" && tail[0] == '.'
    ensures Before(tail, "Z")
  {
  }

  lemma {:induction false} BeforeAfter(head: string, s: string, t: string)
    ensures Before(head + s, head + t) <==> Before(s, t)
  {
    if head == "" {
      assert head + s == s && head + t == t;
    } else {
      assert head + s == [head[0]] + (head[1..] + s) && head + t == [head[0]] + (head[1..] + t);
      BeforeStep(head[0], head[1..] + s, head[0], head[1..] + t);
      BeforeAfter(head[1..], s, t);
    }
  }
}
