/**
  The timestamp texts of gateway/internal/queue/queue.go ("2006-01-02T15:04:05.000Z") and the
  RFC 3339 texts on the wire.  An instant is a number of milliseconds since the start of year 0
  of the proleptic Gregorian calendar.
*/
module Timestamps {
  import opened Common

  // ---------------------------------------------------------------- calendar

  predicate Leap(y: nat) { y % 4 == 0 && (y % 100 != 0 || y % 400 == 0) }

  function DaysBeforeYear(y: nat): int { 365 * y + (y + 3) / 4 - (y + 99) / 100 + (y + 399) / 400 }

  lemma YearLength(y: nat)
    ensures DaysBeforeYear(y + 1) == DaysBeforeYear(y) + if Leap(y) then 366 else 365
  {
    assert (y + 4) / 4 - (y + 3) / 4 == if y % 4 == 0 then 1 else 0;
    assert (y + 100) / 100 - (y + 99) / 100 == if y % 100 == 0 then 1 else 0;
    assert (y + 400) / 400 - (y + 399) / 400 == if y % 400 == 0 then 1 else 0;
  }

  lemma {:induction false} YearsAscend(x: nat, y: nat)
    requires x <= y
    ensures DaysBeforeYear(x) <= DaysBeforeYear(y)
    decreases y
  {
    if x < y {
      YearsAscend(x, y - 1);
      YearLength(y - 1);
    }
  }

  /** Days of the year before month m; month 13 stands for the end of the year. */
  function DaysBeforeMonth(y: nat, m: nat): nat
    requires 1 <= m <= 13
  {
    [0, 31, 59, 90, 120, 151, 181, 212, 243, 273, 304, 334, 365][m - 1] + if m > 2 && Leap(y) then 1 else 0
  }

  /** The calendar in plain terms: thirty days hath September, and the rule for leap years. */
  lemma MonthLengths(y: nat, m: nat)
    requires 1 <= m <= 12
    ensures DaysBeforeMonth(y, 1) == 0
    ensures DaysBeforeMonth(y, m + 1) - DaysBeforeMonth(y, m) ==
              if m == 4 || m == 6 || m == 9 || m == 11 then 30
              else if m != 2 then 31
              else if y % 400 == 0 || (y % 4 == 0 && y % 100 != 0) then 29 else 28
  {
    LeapRule(y);
    hide Leap;
  }

  lemma LeapRule(y: nat)
    ensures Leap(y) <==> y % 400 == 0 || (y % 4 == 0 && y % 100 != 0)
  {
    if y % 400 == 0 {
      assert y == 400 * (y / 400) == 4 * (100 * (y / 400));
    }
  }

  /** A year is as long as its twelve months. */
  lemma YearOfMonths(y: nat)
    ensures DaysBeforeYear(0) == 0
    ensures DaysBeforeYear(y + 1) - DaysBeforeYear(y) == DaysBeforeMonth(y, 13)
  {
    YearLength(y);
    assert DaysBeforeMonth(y, 13) == if Leap(y) then 366 else 365;
  }

  lemma MonthsAscend(y: nat, m: nat, n: nat)
    requires 1 <= m <= n <= 13
    ensures DaysBeforeMonth(y, m) <= DaysBeforeMonth(y, n)
  {}

  function YearFrom(day: nat, y: nat): (r: nat)
    requires DaysBeforeYear(y) <= day
    ensures DaysBeforeYear(r) <= day < DaysBeforeYear(r + 1)
    decreases day - DaysBeforeYear(y)
  {
    YearLength(y);
    if DaysBeforeYear(y + 1) <= day then YearFrom(day, y + 1) else y
  }

  function YearOf(day: nat): (r: nat)
    ensures DaysBeforeYear(r) <= day < DaysBeforeYear(r + 1)
  {
    YearFrom(day, 0)
  }

  function MonthFrom(y: nat, dayOfYear: nat, m: nat): (r: nat)
    requires 1 <= m <= 12 && dayOfYear < DaysBeforeMonth(y, m + 1)
    ensures 1 <= r <= 12 && DaysBeforeMonth(y, r) <= dayOfYear < DaysBeforeMonth(y, r + 1)
  {
    if DaysBeforeMonth(y, m) <= dayOfYear then m else MonthFrom(y, dayOfYear, m - 1)
  }

  datatype Civil = Civil(year: nat, month: nat, day: nat, hour: nat, minute: nat, second: nat, milli: nat)

  predicate ValidCivil(c: Civil) {
    && 1 <= c.month <= 12
    && 1 <= c.day <= DaysBeforeMonth(c.year, c.month + 1) - DaysBeforeMonth(c.year, c.month)
    && c.hour < 24 && c.minute < 60 && c.second < 60 && c.milli < 1000
  }

  function DayNumber(c: Civil): int
    requires ValidCivil(c)
  {
    DaysBeforeYear(c.year) + DaysBeforeMonth(c.year, c.month) + c.day - 1
  }

  function MilliOfDay(c: Civil): nat { ((c.hour * 60 + c.minute) * 60 + c.second) * 1000 + c.milli }

  function Instant(c: Civil): int
    requires ValidCivil(c)
  {
    DayNumber(c) * 86_400_000 + MilliOfDay(c)
  }

  datatype Date = Date(year: nat, month: nat, day: nat)

  function DateOf(day: nat): (d: Date)
    ensures 1 <= d.month <= 12 && 1 <= d.day <= DaysBeforeMonth(d.year, d.month + 1) - DaysBeforeMonth(d.year, d.month)
    ensures DaysBeforeYear(d.year) + DaysBeforeMonth(d.year, d.month) + d.day - 1 == day
  {
    var y := YearOf(day);
    YearLength(y);
    var m := MonthFrom(y, day - DaysBeforeYear(y), 12);
    Date(y, m, day - DaysBeforeYear(y) - DaysBeforeMonth(y, m) + 1)
  }

  lemma ClockParts(ms: nat)
    requires ms < 86_400_000
    ensures ms / 3_600_000 < 24
    ensures ((ms / 3_600_000 * 60 + ms / 60_000 % 60) * 60 + ms / 1000 % 60) * 1000 + ms % 1000 == ms
  {}

  function ToCivil(t: nat): (c: Civil)
    ensures ValidCivil(c) && Instant(c) == t
  {
    var d, ms := DateOf(t / 86_400_000), t % 86_400_000;
    ClockParts(ms);
    Civil(d.year, d.month, d.day, ms / 3_600_000, ms / 60_000 % 60, ms / 1000 % 60, ms % 1000)
  }

  /** A valid calendar time is the one its instant is shown as. */
  lemma CivilUnique(c: Civil, t: nat)
    requires ValidCivil(c) && Instant(c) == t
    ensures ToCivil(t) == c
  {
    hide ToCivil, Instant, ValidCivil;
    var d := ToCivil(t);
    if Earlier(c, d) {
      EarlierInstant(c, d);
    } else if Earlier(d, c) {
      EarlierInstant(d, c);
    }
  }

  /** The fields of a time, most significant first. */
  function Fields(c: Civil): seq<nat> { [c.year, c.month, c.day, c.hour, c.minute, c.second, c.milli] }

  predicate FieldsLess(a: seq<nat>, b: seq<nat>)
    requires |a| == |b|
  {
    a != [] && (a[0] < b[0] || (a[0] == b[0] && FieldsLess(a[1..], b[1..])))
  }

  /** A day number orders by year, then month, then day. */
  lemma EarlierDay(a: Civil, b: Civil)
    requires ValidCivil(a) && ValidCivil(b)
    requires a.year < b.year || (a.year == b.year && (a.month < b.month || (a.month == b.month && a.day < b.day)))
    ensures DayNumber(a) < DayNumber(b)
  {
    YearLength(a.year);
    if a.year < b.year {
      MonthsAscend(a.year, a.month + 1, 13);
      YearsAscend(a.year + 1, b.year);
    } else if a.month < b.month {
      MonthsAscend(a.year, a.month + 1, b.month);
    }
  }

  predicate Earlier(a: Civil, b: Civil) {
    || a.year < b.year || (a.year == b.year && (a.month < b.month || (a.month == b.month && (a.day < b.day
    || (a.day == b.day && (a.hour < b.hour || (a.hour == b.hour && (a.minute < b.minute
    || (a.minute == b.minute && (a.second < b.second || (a.second == b.second && a.milli < b.milli)))))))))))
  }

  lemma EarlierInstant(a: Civil, b: Civil)
    requires ValidCivil(a) && ValidCivil(b) && Earlier(a, b)
    ensures Instant(a) < Instant(b)
  {
    assert MilliOfDay(a) < 86_400_000 && MilliOfDay(b) < 86_400_000;
    if a.year != b.year || a.month != b.month || a.day != b.day {
      EarlierDay(a, b);
    }
  }

  lemma FirstFieldDecides(x: nat, y: nat, f: seq<nat>, g: seq<nat>)
    requires |f| == |g|
    ensures FieldsLess([x] + f, [y] + g) <==> x < y || (x == y && FieldsLess(f, g))
  {}

  lemma FieldsLessIsEarlier(a: Civil, b: Civil)
    ensures FieldsLess(Fields(a), Fields(b)) <==> Earlier(a, b)
  {
    hide FieldsLess;
    var f6, g6: seq<nat> := [a.milli], [b.milli];
    var f5, g5: seq<nat> := [a.second] + f6, [b.second] + g6;
    var f4, g4: seq<nat> := [a.minute] + f5, [b.minute] + g5;
    var f3, g3: seq<nat> := [a.hour] + f4, [b.hour] + g4;
    var f2, g2: seq<nat> := [a.day] + f3, [b.day] + g3;
    var f1, g1: seq<nat> := [a.month] + f2, [b.month] + g2;
    assert f6 == [a.milli] + [] && g6 == [b.milli] + [];
    assert !FieldsLess([], []) by { NothingIsLess(); }
    FirstFieldDecides(a.milli, b.milli, [], []);
    FirstFieldDecides(a.second, b.second, f6, g6);
    FirstFieldDecides(a.minute, b.minute, f5, g5);
    FirstFieldDecides(a.hour, b.hour, f4, g4);
    FirstFieldDecides(a.day, b.day, f3, g3);
    FirstFieldDecides(a.month, b.month, f2, g2);
    FirstFieldDecides(a.year, b.year, f1, g1);
    assert Fields(a) == [a.year] + f1 && Fields(b) == [b.year] + g1;
  }

  lemma NothingIsLess()
    ensures !FieldsLess([], [])
  {}

  // ---------------------------------------------------------------- texts

  function Pow10(w: nat): nat { if w == 0 then 1 else 10 * Pow10(w - 1) }

  /** n without its last w digits. */
  function DropDigits(n: nat, w: nat): nat { if w == 0 then n else DropDigits(n / 10, w - 1) }

  function DigitChar(d: nat): char
    requires d < 10
  {
    '0' + d as char
  }

  /** n in decimal, padded with zeros to w characters. */
  function Digits(n: nat, w: nat): (s: string)
    ensures |s| == w
  {
    if w == 0 then "" else Digits(n / 10, w - 1) + [DigitChar(n % 10)]
  }

  /** Byte by byte, a shorter text before its extensions: SQLite's BINARY collation. */
  predicate TextLess(a: string, b: string) {
    if a == "" then b != "" else b != "" && (a[0] < b[0] || (a[0] == b[0] && TextLess(a[1..], b[1..])))
  }

  lemma {:induction false} TextLessConcat(p: string, q: string, a: string, b: string)
    requires |p| == |q|
    ensures TextLess(p + a, q + b) <==> TextLess(p, q) || (p == q && TextLess(a, b))
  {
    if p == "" {
      assert p + a == a && q + b == b;
    } else {
      assert (p + a)[1..] == p[1..] + a && (q + b)[1..] == q[1..] + b;
      TextLessConcat(p[1..], q[1..], a, b);
    }
  }

  lemma TextLessIrreflexive(a: string)
    ensures !TextLess(a, a)
  {}

  lemma {:induction false} DigitsOrder(m: nat, n: nat, w: nat)
    requires m < Pow10(w) && n < Pow10(w)
    ensures TextLess(Digits(m, w), Digits(n, w)) <==> m < n
    ensures Digits(m, w) == Digits(n, w) <==> m == n
  {
    if w > 0 {
      var p, q := Digits(m / 10, w - 1), Digits(n / 10, w - 1);
      var a, b := [DigitChar(m % 10)], [DigitChar(n % 10)];
      DigitsOrder(m / 10, n / 10, w - 1);
      TextLessConcat(p, q, a, b);
      assert Digits(m, w)[..w - 1] == p && Digits(n, w)[..w - 1] == q;
      assert Digits(m, w)[w - 1] == a[0] && Digits(n, w)[w - 1] == b[0];
      assert TextLess(a, b) <==> m % 10 < n % 10;
    }
  }

  /** Each field padded to its width and followed by its separator. */
  function Join(fields: seq<nat>, widths: seq<nat>, seps: string): (s: string)
    requires |fields| == |widths| == |seps|
  {
    if fields == [] then ""
    else Digits(fields[0], widths[0]) + [seps[0]] + Join(fields[1..], widths[1..], seps[1..])
  }

  ghost predicate Fit(fields: seq<nat>, widths: seq<nat>)
    requires |fields| == |widths|
  {
    forall i :: 0 <= i < |fields| ==> fields[i] < Pow10(widths[i])
  }

  lemma {:induction false} JoinOrder(f: seq<nat>, g: seq<nat>, widths: seq<nat>, seps: string)
    requires |f| == |g| == |widths| == |seps| && Fit(f, widths) && Fit(g, widths)
    ensures TextLess(Join(f, widths, seps), Join(g, widths, seps)) <==> FieldsLess(f, g)
    ensures Join(f, widths, seps) == Join(g, widths, seps) ==> f == g
  {
    if f != [] {
      hide Digits, TextLess;
      var w := widths[0];
      var p, q := Digits(f[0], w) + [seps[0]], Digits(g[0], w) + [seps[0]];
      var a, b := Join(f[1..], widths[1..], seps[1..]), Join(g[1..], widths[1..], seps[1..]);
      JoinOrder(f[1..], g[1..], widths[1..], seps[1..]);
      DigitsOrder(f[0], g[0], w);
      TextLessConcat(Digits(f[0], w), Digits(g[0], w), [seps[0]], [seps[0]]);
      TextLessIrreflexive([seps[0]]);
      TextLessConcat(p, q, a, b);
      if Join(f, widths, seps) == Join(g, widths, seps) {
        assert p == Join(f, widths, seps)[..w + 1] && q == Join(g, widths, seps)[..w + 1];
        assert a == Join(f, widths, seps)[w + 1..] && b == Join(g, widths, seps)[w + 1..];
        assert p[..w] == Digits(f[0], w) && q[..w] == Digits(g[0], w);
        assert f == [f[0]] + f[1..] && g == [g[0]] + g[1..];
      }
    }
  }

  /** Go pads the year to four digits and lets it grow from there. */
  function YearWidth(y: nat): (w: nat)
    ensures w >= 4 && y < Pow10(w)
  {
    assert Pow10(3) == 1000;
    if y < 10_000 then 4 else YearWidth(y / 10) + 1
  }

  const SEPARATORS := "--T::.Z"

  function Widths(year: nat): seq<nat> { [YearWidth(year), 2, 2, 2, 2, 2, 3] }

  /** The column text of an instant. */
  function Format(t: nat): string {
    Join(Fields(ToCivil(t)), Widths(ToCivil(t).year), SEPARATORS)
  }

  lemma FieldsFit(c: Civil)
    requires ValidCivil(c)
    ensures Fit(Fields(c), Widths(c.year))
  {
    assert Pow10(3) == 1000;
  }

  /** Texts whose years are equally wide compare as the times they show. */
  lemma SameWidthSorts(s: nat, t: nat)
    requires YearWidth(ToCivil(s).year) == YearWidth(ToCivil(t).year)
    ensures TextLess(Format(s), Format(t)) <==> s < t
    ensures Format(s) == Format(t) <==> s == t
  {
    hide ToCivil, Instant, ValidCivil, FieldsLess, Join, TextLess, Fit, YearWidth;
    var a, b := ToCivil(s), ToCivil(t);
    FieldsFit(a);
    FieldsFit(b);
    JoinOrder(Fields(a), Fields(b), Widths(a.year), SEPARATORS);
    FieldsLessIsEarlier(a, b);
    if Earlier(a, b) {
      EarlierInstant(a, b);
    } else if Earlier(b, a) {
      EarlierInstant(b, a);
    } else {
      assert a == b;
    }
    if Format(s) == Format(t) {
      assert Fields(a) == Fields(b);
    }
  }

  /**
    For all times of years 0000 to 9999, comparing the texts byte by byte is comparing the times,
    and equal texts are equal times.
  */
  lemma TextOrderIsTimeOrder(s: nat, t: nat)
    requires ToCivil(s).year < 10_000 && ToCivil(t).year < 10_000
    ensures TextLess(Format(s), Format(t)) <==> s < t
    ensures Format(s) == Format(t) <==> s == t
  {
    hide ToCivil, Instant, ValidCivil, Format, TextLess;
    SameWidthSorts(s, t);
  }

  // ---------------------------------------------------------------- beyond year 9999

  /** The first w of w + k digits are those of the number without its last k digits; what follows is a digit. */
  lemma {:induction false} DigitsSplit(n: nat, w: nat, k: nat)
    ensures Digits(n, w + k)[..w] == Digits(DropDigits(n, k), w)
    ensures k > 0 ==> '0' <= Digits(n, w + k)[w]
  {
    if k == 0 {
      assert Digits(n, w)[..w] == Digits(n, w);
    } else {
      DigitsSplit(n / 10, w, k - 1);
      var front := Digits(n / 10, w + k - 1);
      assert Digits(n, w + k) == front + [DigitChar(n % 10)];
      assert Digits(n, w + k)[..w] == front[..w];
    }
  }

  lemma {:induction false} DropBelow(n: nat, w: nat, k: nat)
    requires n < Pow10(w + k)
    ensures DropDigits(n, k) < Pow10(w)
  {
    if k > 0 {
      DropBelow(n / 10, w, k - 1);
    }
  }

  lemma {:induction false} WidthGrows(x: nat, y: nat)
    requires x <= y
    ensures YearWidth(x) <= YearWidth(y)
    decreases y
  {
    if x >= 10_000 {
      WidthGrows(x / 10, y / 10);
    }
  }

  lemma JoinSplit(f: seq<nat>, widths: seq<nat>, seps: string)
    requires |f| == |widths| == |seps| > 0
    ensures var text := Join(f, widths, seps);
            |text| > widths[0] && text[..widths[0]] == Digits(f[0], widths[0]) && text[widths[0]] == seps[0]
  {}

  /**
    Two texts that agree before position w are ordered by that position if it differs there, else by
    what is before.
  */
  lemma DecidedAt(a: string, b: string, w: nat)
    requires w < |a| && w < |b| && a[w] < b[w]
    ensures TextLess(a, b) <==> TextLess(a[..w], b[..w]) || a[..w] == b[..w]
  {
    var x, y := a[w..], b[w..];
    assert TextLess(x, y) by { assert x[0] < y[0]; }
    TextLessConcat(a[..w], b[..w], x, y);
    assert a == a[..w] + x && b == b[..w] + y;
  }

  /**
    A year against a wider one: the time with the wider year is the later one, and its text comes
    after if and only if its leading digits, cut to the narrower width, are not below the other year.
  */
  lemma WiderYearSorts(s: nat, t: nat)
    requires YearWidth(ToCivil(s).year) < YearWidth(ToCivil(t).year)
    ensures var y, z := ToCivil(s).year, ToCivil(t).year;
            && s < t && Format(s) != Format(t)
            && (TextLess(Format(s), Format(t)) <==> y <= DropDigits(z, YearWidth(z) - YearWidth(y)))
            && (TextLess(Format(t), Format(s)) <==> y > DropDigits(z, YearWidth(z) - YearWidth(y)))
  {
    hide ToCivil, Instant, ValidCivil, Join, TextLess, YearWidth, Digits, DropDigits;
    var a, b := ToCivil(s), ToCivil(t);
    var w := YearWidth(a.year);
    var k := YearWidth(b.year) - w;
    if a.year >= b.year {
      WidthGrows(b.year, a.year);
    }
    EarlierInstant(a, b);
    JoinSplit(Fields(a), Widths(a.year), SEPARATORS);
    JoinSplit(Fields(b), Widths(b.year), SEPARATORS);
    DigitsSplit(b.year, w, k);
    DropBelow(b.year, w, k);
    var x, y := Format(s), Format(t);
    assert y[..w] == Digits(b.year, w + k)[..w] && y[w] == Digits(b.year, w + k)[w];
    assert x[w] == '-' && x[w] < y[w];
    DigitsOrder(a.year, DropDigits(b.year, k), w);
    DecidedAt(x, y, w);
    TextLessTotal(x, y);
  }

  lemma {:induction false} TextLessTotal(a: string, b: string)
    ensures TextLess(a, b) || TextLess(b, a) || a == b
    ensures !(TextLess(a, b) && TextLess(b, a))
  {
    if a != "" && b != "" {
      TextLessTotal(a[1..], b[1..]);
      assert a == [a[0]] + a[1..] && b == [b[0]] + b[1..];
    }
  }

  /**
    The texts of these years sort right: equally wide, or the wider one's leading digits do not fall
    below the other.
  */
  predicate YearsSort(y: nat, z: nat) {
    || YearWidth(y) == YearWidth(z)
    || (YearWidth(y) < YearWidth(z) && y <= DropDigits(z, YearWidth(z) - YearWidth(y)))
    || (YearWidth(y) > YearWidth(z) && z <= DropDigits(y, YearWidth(y) - YearWidth(z)))
  }

  /** For any two times at all, the texts compare as the times if and only if their years sort. */
  lemma TextOrderIff(s: nat, t: nat)
    ensures (TextLess(Format(s), Format(t)) <==> s < t) <==> YearsSort(ToCivil(s).year, ToCivil(t).year)
  {
    hide ToCivil, Instant, ValidCivil, Format, TextLess, YearWidth, DropDigits;
    var y, z := ToCivil(s).year, ToCivil(t).year;
    if YearWidth(y) == YearWidth(z) {
      SameWidthSorts(s, t);
    } else if YearWidth(y) < YearWidth(z) {
      WiderYearSorts(s, t);
    } else {
      WiderYearSorts(t, s);
      TextLessTotal(Format(s), Format(t));
    }
  }

  /**
    Below year 100000: a year of four digits sorts right against one of five exactly when it is at most
    a tenth of it.
  */
  lemma YearsSortBelow100000(y: nat, z: nat)
    requires y < 100_000 && z < 100_000
    ensures YearsSort(y, z) <==> (y < 10_000 <==> z < 10_000) || y <= z / 10 || z <= y / 10
  {
    assert YearWidth(y / 10) == 4 && YearWidth(z / 10) == 4;
    assert DropDigits(y, 1) == y / 10 && DropDigits(z, 1) == z / 10;
  }

  /** So every time of 10000 to 19999 sorts before every time of 2000 to 9999. */
  lemma YearTenThousandSortsFirst(s: nat, t: nat)
    requires 2000 <= ToCivil(s).year < 10_000 <= ToCivil(t).year < 20_000
    ensures s < t && TextLess(Format(t), Format(s))
  {
    hide ToCivil, Instant, ValidCivil, Format, TextLess;
    var z := ToCivil(t).year;
    assert YearWidth(z / 10) == 4;
    assert DropDigits(z, 1) == z / 10;
    WiderYearSorts(s, t);
  }

  // ---------------------------------------------------------------- reading the texts back

  function DigitValue(c: char): Option<nat> {
    if '0' <= c <= '9' then Some((c - '0') as nat) else None
  }

  function ParseNumber(s: string): Option<nat> {
    if s == "" then Some(0)
    else
      var n := |s| - 1;
      match (ParseNumber(s[..n]), DigitValue(s[n]))
      case (Some(hi), Some(lo)) => Some(10 * hi + lo)
      case _ => None
  }

  lemma {:induction false} ParseNumberDigits(n: nat, w: nat)
    requires n < Pow10(w)
    ensures ParseNumber(Digits(n, w)) == Some(n)
  {
    if w > 0 {
      ParseNumberDigits(n / 10, w - 1);
      assert Digits(n, w)[..w - 1] == Digits(n / 10, w - 1);
      assert DigitValue(DigitChar(n % 10)) == Some(n % 10);
    }
  }

  function ParseFields(text: string, widths: seq<nat>, seps: string): Option<seq<nat>>
    requires |widths| == |seps|
  {
    if widths == [] then if text == "" then Some([]) else None
    else if |text| <= widths[0] || text[widths[0]] != seps[0] then None
    else
      match (ParseNumber(text[..widths[0]]), ParseFields(text[widths[0] + 1..], widths[1..], seps[1..]))
      case (Some(f), Some(rest)) => Some([f] + rest)
      case _ => None
  }

  lemma {:induction false} ParseFieldsJoin(f: seq<nat>, widths: seq<nat>, seps: string)
    requires |f| == |widths| == |seps| && Fit(f, widths)
    ensures ParseFields(Join(f, widths, seps), widths, seps) == Some(f)
  {
    if f != [] {
      var text, w := Join(f, widths, seps), widths[0];
      ParseFieldsJoin(f[1..], widths[1..], seps[1..]);
      ParseNumberDigits(f[0], w);
      assert text[..w] == Digits(f[0], w) && text[w] == seps[0];
      assert text[w + 1..] == Join(f[1..], widths[1..], seps[1..]);
      assert [f[0]] + f[1..] == f;
    }
  }

  function FromCivil(c: Civil): Option<int> {
    if ValidCivil(c) then Some(Instant(c)) else None
  }

  function Parse(text: string): Option<int> {
    match ParseFields(text, [4, 2, 2, 2, 2, 2, 3], SEPARATORS)
    case None => None
    case Some(f) => if |f| == 7 then FromCivil(Civil(f[0], f[1], f[2], f[3], f[4], f[5], f[6])) else None
  }

  /** Reading a column text back gives the instant it was written for. */
  lemma ParseFormat(t: nat)
    requires ToCivil(t).year < 10_000
    ensures Parse(Format(t)) == Some(t)
  {
    hide ToCivil, Instant, ValidCivil, Join, ParseFields, Fit;
    FieldsFit(ToCivil(t));
    assert Widths(ToCivil(t).year) == [4, 2, 2, 2, 2, 2, 3];
    ParseFieldsJoin(Fields(ToCivil(t)), [4, 2, 2, 2, 2, 2, 3], SEPARATORS);
  }

  /** The fraction of RFC3339Nano: trailing zeros dropped, nothing at all for a whole second. */
  function Fraction(milli: nat): string {
    if milli == 0 then ""
    else if milli % 100 == 0 then "." + Digits(milli / 100, 1)
    else if milli % 10 == 0 then "." + Digits(milli / 10, 2)
    else "." + Digits(milli, 3)
  }

  function ParseFraction(s: string): Option<nat> {
    if s == "" then Some(0)
    else if s[0] != '.' || |s| == 1 || |s| > 4 then None
    else
      match ParseNumber(s[1..])
      case None => None
      case Some(n) => Some(n * Pow10(4 - |s|))
  }

  lemma FractionDigits(n: nat, k: nat)
    requires 1 <= k <= 3 && n < Pow10(k)
    ensures ParseFraction("." + Digits(n, k)) == Some(n * Pow10(3 - k))
  {
    ParseNumberDigits(n, k);
    var s := "." + Digits(n, k);
    assert s[0] == '.' && s[1..] == Digits(n, k) && |s| == k + 1;
  }

  lemma FractionRoundTrip(milli: nat)
    requires milli < 1000
    ensures ParseFraction(Fraction(milli)) == Some(milli)
  {
    assert Pow10(1) == 10 && Pow10(2) == 100 && Pow10(3) == 1000;
    hide ParseFraction, Digits;
    if milli == 0 {
      assert ParseFraction("") == Some(0) by { EmptyFraction(); }
    } else if milli % 100 == 0 {
      FractionDigits(milli / 100, 1);
    } else if milli % 10 == 0 {
      FractionDigits(milli / 10, 2);
    } else {
      FractionDigits(milli, 3);
    }
  }

  lemma EmptyFraction()
    ensures ParseFraction("") == Some(0)
  {}

  /** The wire text of an instant, up to the seconds and then the fraction. */
  function FormatWire(t: nat): string {
    var c := ToCivil(t);
    Join([c.year, c.month, c.day, c.hour, c.minute], [4, 2, 2, 2, 2], "--T::") + Digits(c.second, 2)
        + Fraction(c.milli) + "Z"
  }

  function ParseWire(text: string): Option<int> {
    if |text| < 20 || text[|text| - 1] != 'Z' then None
    else
      match (ParseFields(text[..17], [4, 2, 2, 2, 2], "--T::"), ParseNumber(text[17..19]),
          ParseFraction(text[19..|text| - 1]))
      case (Some(f), Some(s), Some(ms)) =>
        if |f| == 5 then FromCivil(Civil(f[0], f[1], f[2], f[3], f[4], s, ms)) else None
      case _ => None
  }

  lemma {:induction false} JoinLength(f: seq<nat>, widths: seq<nat>, seps: string)
    requires |f| == |widths| == |seps|
    ensures |Join(f, widths, seps)| == |f| + Sum(widths)
  {
    if f != [] {
      JoinLength(f[1..], widths[1..], seps[1..]);
    }
  }

  function Sum(s: seq<nat>): nat { if s == [] then 0 else s[0] + Sum(s[1..]) }

  lemma WireWidths(widths: seq<nat>)
    requires widths == [4, 2, 2, 2, 2]
    ensures Sum(widths) == 12
  {
    var w3, w2, w1: seq<nat> := [2, 2, 2], [2, 2], [2];
    assert w1[1..] == [] && w2[1..] == w1 && w3[1..] == w2;
    assert Sum(w1) == 2 && Sum(w2) == 4 && Sum(w3) == 6;
    assert widths[1..][1..] == w3;
  }

  /** The zeros RFC 3339 with a dropped fraction leaves out. */
  function Dropped(milli: nat): string {
    if milli == 0 then ".000" else if milli % 100 == 0 then "00" else if milli % 10 == 0 then "0" else ""
  }

  /**
    The wire text is the column text without the trailing zeros of the fraction, and without the point if
    nothing is left.
  */
  lemma WireDropsZeros(t: nat)
    requires ToCivil(t).year < 10_000
    ensures var wire := FormatWire(t);
            |wire| >= 1 && Format(t) == wire[..|wire| - 1] + Dropped(ToCivil(t).milli) + "Z"
  {
    hide ToCivil, Instant, Fraction, Digits;
    var c := ToCivil(t);
    var f, widths := [c.year, c.month, c.day, c.hour, c.minute], [4, 2, 2, 2, 2];
    assert Fields(c) == f + [c.second, c.milli] && Widths(c.year) == widths + [2, 3] && SEPARATORS == "--T::" + ".Z";
    JoinAppend(f, [c.second, c.milli], widths, [2, 3], "--T::", ".Z");
    JoinTwo(c.second, c.milli);
    FractionDropsZeros(c.milli);
    hide Join;
    var head := Join(f, widths, "--T::") + Digits(c.second, 2);
    var wire := FormatWire(t);
    assert wire[..|wire| - 1] == head + Fraction(c.milli);
    assert Format(t) == Join(f, widths, "--T::") + (Digits(c.second, 2) + "." + Digits(c.milli, 3) + "Z");
    assert Format(t) == head + ("." + Digits(c.milli, 3)) + "Z";
    assert Format(t) == head + (Fraction(c.milli) + Dropped(c.milli)) + "Z";
  }

  lemma {:induction false} JoinAppend(f: seq<nat>, g: seq<nat>, v: seq<nat>, w: seq<nat>, seps: string, more: string)
    requires |f| == |v| == |seps| && |g| == |w| == |more|
    ensures Join(f + g, v + w, seps + more) == Join(f, v, seps) + Join(g, w, more)
  {
    hide Digits;
    if f == [] {
      assert f + g == g && v + w == w && seps + more == more;
    } else {
      assert (f + g)[1..] == f[1..] + g && (v + w)[1..] == v[1..] + w && (seps + more)[1..] == seps[1..] + more;
      JoinAppend(f[1..], g, v[1..], w, seps[1..], more);
    }
  }

  lemma JoinTwo(second: nat, milli: nat)
    ensures Join([second, milli], [2, 3], ".Z") == Digits(second, 2) + "." + Digits(milli, 3) + "Z"
  {
    hide Digits;
    assert [second, milli][1..] == [milli] && [2, 3][1..] == [3] && ".Z"[1..] == "Z";
    assert Join([milli], [3], "Z") == Digits(milli, 3) + "Z" + Join([milli][1..], [3][1..], "Z"[1..]);
  }

  lemma FractionDropsZeros(milli: nat)
    requires milli < 1000
    ensures Fraction(milli) + Dropped(milli) == "." + Digits(milli, 3)
  {
    assert Digits(milli, 3) == Digits(milli / 10, 2) + [DigitChar(milli % 10)];
    assert Digits(milli / 10, 2) == Digits(milli / 100, 1) + [DigitChar(milli / 10 % 10)];
  }

  /** The server reads from the wire text the very instant the gateway stored. */
  lemma WireRoundTrip(t: nat)
    requires ToCivil(t).year < 10_000
    ensures ParseWire(FormatWire(t)) == Some(t)
  {
    hide ToCivil, Instant, Join, ParseFields, Fraction, ParseFraction, ParseNumber, Digits;
    var c := ToCivil(t);
    var f, widths := [c.year, c.month, c.day, c.hour, c.minute], [4, 2, 2, 2, 2];
    WireWidths(widths);
    JoinLength(f, widths, "--T::");
    assert Pow10(2) == 100 && Pow10(4) == 10_000;
    ParseFieldsJoin(f, widths, "--T::");
    ParseNumberDigits(c.second, 2);
    FractionRoundTrip(c.milli);
    var text := FormatWire(t);
    assert text[..17] == Join(f, widths, "--T::");
    assert text[17..19] == Digits(c.second, 2);
    assert text[19..|text| - 1] == Fraction(c.milli);
  }
}

/** The SQL comparisons of the queue, which are comparisons of column texts, mean what Queue says. */
module ColumnTexts {
  import opened Common
  import opened Timestamps
  import opened Queue

  const EPOCH_MS := 719_528 * 86_400_000

  /** A time, in milliseconds of Unix time, in the years 0000 to 9999. */
  predicate InRange(ms: int) { ms + EPOCH_MS >= 0 && ToCivil(ms + EPOCH_MS).year < 10_000 }

  function ColumnText(ms: int): string
    requires InRange(ms)
  {
    Format(ms + EPOCH_MS)
  }

  lemma TwoDigits(n: nat)
    requires n < 100
    ensures Digits(n, 2) == [DigitChar(n / 10), DigitChar(n % 10)]
  {
    assert Digits(n / 10, 1) == Digits(n / 10 / 10, 0) + [DigitChar(n / 10 % 10)];
  }

  lemma MoreDigits(n: nat, w: nat)
    requires w > 0
    ensures Digits(n, w) == Digits(n / 10, w - 1) + [DigitChar(n % 10)]
  {}

  lemma MidnightText(f: seq<nat>, widths: seq<nat>)
    requires f == [0, 0, 0, 0] && widths == [2, 2, 2, 3]
    ensures Join(f, widths, "::.Z") == "00:00:00.000Z"
  {
    hide Digits, Join;
    assert Digits(0, 3) == "000" && Digits(0, 2) == "00" by { MoreDigits(0, 3); TwoDigits(0); }
    JoinLast(0, 3, 'Z');
    JoinFirst(f[2..], widths[2..], ".Z", "000Z");
    JoinFirst(f[1..], widths[1..], ":.Z", "00.000Z");
    JoinFirst(f, widths, "::.Z", "00:00.000Z");
  }

  lemma FirstOfMonthText(f: seq<nat>, widths: seq<nat>)
    requires f == [1, 0, 0, 0, 0] && widths == [2, 2, 2, 2, 3]
    ensures Join(f, widths, "T::.Z") == "01T00:00:00.000Z"
  {
    hide Digits, Join;
    assert Digits(1, 2) == "01" by { TwoDigits(1); }
    MidnightText(f[1..], widths[1..]);
    JoinFirst(f, widths, "T::.Z", "00:00:00.000Z");
  }

  lemma FirstOfYearText(f: seq<nat>, widths: seq<nat>)
    requires f == [1, 1, 0, 0, 0, 0] && widths == [2, 2, 2, 2, 2, 3]
    ensures Join(f, widths, "-T::.Z") == "01-01T00:00:00.000Z"
  {
    hide Digits, Join;
    assert Digits(1, 2) == "01" by { TwoDigits(1); }
    FirstOfMonthText(f[1..], widths[1..]);
    JoinFirst(f, widths, "-T::.Z", "01T00:00:00.000Z");
  }

  lemma EpochText(f: seq<nat>, widths: seq<nat>)
    requires f == [1970, 1, 1, 0, 0, 0, 0] && widths == [4, 2, 2, 2, 2, 2, 3]
    ensures Join(f, widths, SEPARATORS) == "1970-01-01T00:00:00.000Z"
  {
    hide Digits, Join;
    assert Digits(1970, 4) == "1970" by { MoreDigits(1970, 4); MoreDigits(197, 3); TwoDigits(19); }
    FirstOfYearText(f[1..], widths[1..]);
    JoinFirst(f, widths, SEPARATORS, "01-01T00:00:00.000Z");
  }

  /** The default of next_attempt_at is the text of the zero of the queue's clock. */
  lemma EpochIsZero(ms: int)
    requires ms == 0
    ensures InRange(ms) && ColumnText(ms) == "1970-01-01T00:00:00.000Z"
  {
    hide ToCivil, Instant, ValidCivil, Join;
    var t := ms + EPOCH_MS;
    EpochInstant(Civil(1970, 1, 1, 0, 0, 0, 0), t);
    EpochText(Fields(ToCivil(t)), Widths(ToCivil(t).year));
  }

  lemma EpochInstant(c: Civil, t: int)
    requires c == Civil(1970, 1, 1, 0, 0, 0, 0) && t == EPOCH_MS
    ensures ToCivil(t) == c
  {
    assert ValidCivil(c) && Instant(c) == t;
    CivilUnique(c, t);
  }

  lemma JoinLast(x: nat, w: nat, c: char)
    ensures Join([x], [w], [c]) == Digits(x, w) + [c]
  {
    hide Digits;
    assert [x][1..] == [];
  }

  lemma JoinFirst(f: seq<nat>, widths: seq<nat>, seps: string, rest: string)
    requires |f| == |widths| == |seps| > 0 && Join(f[1..], widths[1..], seps[1..]) == rest
    ensures Join(f, widths, seps) == Digits(f[0], widths[0]) + [seps[0]] + rest
  {}

  lemma ComparesAsTime(a: int, b: int)
    requires InRange(a) && InRange(b)
    ensures TextLess(ColumnText(a), ColumnText(b)) <==> a < b
    ensures ColumnText(a) == ColumnText(b) <==> a == b
  {
    hide ToCivil, Instant, ValidCivil, Format, TextLess;
    TextOrderIsTimeOrder(a + EPOCH_MS, b + EPOCH_MS);
  }

  /** next_attempt_at <= now and sent_at < cutoff, on texts. */
  lemma SqlMeansWhatItSays(r: Row, now: int)
    requires InRange(now) && InRange(r.nextAttempt) && (r.sentAt.Some? ==> InRange(r.sentAt.value))
    ensures Eligible(r, now) <==> r.status == Pending && !TextLess(ColumnText(now), ColumnText(r.nextAttempt))
    ensures Expired(r, now) <==>
              r.status == Sent && r.sentAt.Some? && TextLess(ColumnText(r.sentAt.value), ColumnText(now))
  {
    hide InRange, ColumnText, TextLess;
    ComparesAsTime(now, r.nextAttempt);
    if r.sentAt.Some? {
      ComparesAsTime(r.sentAt.value, now);
    }
  }

  /**
    ORDER BY event_timestamp on texts: of two rows of one priority, an eviction never keeps the one with
    the earlier text.
  */
  lemma OldestTextFirst(db: Db, limit: int, ids: seq<int>, i: nat, id: int)
    requires IsEviction(db, limit, ids) && i < |ids| && ids[i] in db.rows && id in db.rows && id !in ids
    requires db.rows[id].priority == db.rows[ids[i]].priority != "CRITICAL"
    requires InRange(db.rows[id].eventMs) && InRange(db.rows[ids[i]].eventMs)
    ensures !TextLess(ColumnText(db.rows[id].eventMs), ColumnText(db.rows[ids[i]].eventMs))
  {
    hide InRange, ColumnText, TextLess, IsEviction;
    EvictOrder(db, limit, ids, i, id);
    ComparesAsTime(db.rows[id].eventMs, db.rows[ids[i]].eventMs);
  }

  /** Cutting to the millisecond commutes with adding a whole number of milliseconds, as MarkFailed does. */
  lemma CutAfterDelay(ns: int, delayMs: int)
    ensures CutMs(ns + delayMs * 1_000_000) == CutMs(ns) + delayMs
  {}

  /**
    The event time a row is inserted with, written to its column, read back, put on the wire and read
    by the server, is the millisecond the event fell in.
  */
  lemma EventTimeSurvives(e: Reading, seqId: int)
    requires InRange(NewRow(e, seqId).eventMs)
    ensures var column := Parse(ColumnText(NewRow(e, seqId).eventMs));
            && column.Some? && column.value >= 0
            && var arrived := ParseWire(FormatWire(column.value));
               && arrived.Some?
               && (arrived.value - EPOCH_MS) * 1_000_000 <= e.eventNs < (arrived.value - EPOCH_MS + 1) * 1_000_000
  {
    NewRowIs(e, seqId);
    hide ToCivil, Format, FormatWire, Parse, ParseWire, NewRow;
    var t := NewRow(e, seqId).eventMs + EPOCH_MS;
    ParseFormat(t);
    WireRoundTrip(t);
  }
}
