/**
 The UTC timestamps written by `control_store.iso` and compared by SQLite as text.

 `datetime.isoformat` drops the fraction when the microsecond is zero, so two
 timestamps need not have the same number of digits.  The main results say that
 text order is nevertheless time order, which is what every lease-expiry
 comparison in the control store relies on.
 */
module Timestamps {

  // ---- the calendar -------------------------------------------------------

  predicate Leap(y: int) { y % 4 == 0 && (y % 100 != 0 || y % 400 == 0) }

  function DaysInMonth(y: int, m: int): int {
    if m == 2 then (if Leap(y) then 29 else 28)
    else if m == 4 || m == 6 || m == 9 || m == 11 then 30
    else 31
  }

  /** An aware UTC `datetime`; years are those Python accepts. */
  datatype DateTime = DateTime(year: int, month: int, day: int,
                               hour: int, minute: int, second: int, micro: int)
  {
    predicate Valid() {
      && 1 <= year <= 9999 && 1 <= month <= 12 && 1 <= day <= DaysInMonth(year, month)
      && 0 <= hour < 24 && 0 <= minute < 60 && 0 <= second < 60 && 0 <= micro < 1_000_000
    }
  }

  /** Days from 0001-01-01 to January 1st of year y. */
  function DaysBeforeYear(y: int): int {
    365 * (y - 1) + (y - 1) / 4 - (y - 1) / 100 + (y - 1) / 400
  }

  function DaysBeforeMonth(y: int, m: int): int
    requires 1 <= m
    decreases m
  {
    if m == 1 then 0 else DaysBeforeMonth(y, m - 1) + DaysInMonth(y, m - 1)
  }

  function DayNumber(t: DateTime): int
    requires 1 <= t.month
  {
    DaysBeforeYear(t.year) + DaysBeforeMonth(t.year, t.month) + t.day
  }

  /** Microseconds since the start of the calendar: the instant a timestamp denotes. */
  function Micros(t: DateTime): int
    requires 1 <= t.month
  {
    (((DayNumber(t) * 24 + t.hour) * 60 + t.minute) * 60 + t.second) * 1_000_000 + t.micro
  }

  // ---- the text -----------------------------------------------------------

  function Pow10(w: nat): (p: int)
    ensures p >= 1
  {
    if w == 0 then 1 else 10 * Pow10(w - 1)
  }

  function Digit(d: int): char
    requires 0 <= d < 10
  {
    '0' + d as char
  }

  /** n written with exactly w decimal digits. */
  function Digits(n: int, w: nat): (s: string)
    requires 0 <= n
    ensures |s| == w
    decreases w
  {
    if w == 0 then "" else Digits(n / 10, w - 1) + [Digit(n % 10)]
  }

  function Fraction(micro: int): string
    requires 0 <= micro
  {
    (if micro == 0 then "" else "." + Digits(micro, 6)) + "+00:00"
  }

  /** `datetime.isoformat()` of a UTC instant. */
  function Iso(t: DateTime): string
    requires t.Valid()
  {
    Digits(t.year, 4) + ("-" + (Digits(t.month, 2) + ("-" + (Digits(t.day, 2) + ("T" +
      (Digits(t.hour, 2) + (":" + (Digits(t.minute, 2) + (":" +
      (Digits(t.second, 2) + Fraction(t.micro)))))))))))
  }

  /** SQLite's BINARY collation: bytewise, a proper prefix first. */
  predicate TextLess(a: string, b: string) {
    if b == "" then false
    else if a == "" then true
    else a[0] < b[0] || (a[0] == b[0] && TextLess(a[1..], b[1..]))
  }

  // ---- order of digit strings --------------------------------------------

  lemma {:induction false} TextLessSplit(a: string, b: string, x: string, y: string)
    requires |a| == |b|
    ensures TextLess(a + x, b + y) <==> TextLess(a, b) || (a == b && TextLess(x, y))
  {
    if a == "" {
      assert a + x == x && b + y == y;
    } else {
      assert (a + x)[1..] == a[1..] + x && (b + y)[1..] == b[1..] + y;
      TextLessSplit(a[1..], b[1..], x, y);
      assert a == b <==> a[0] == b[0] && a[1..] == b[1..];
    }
  }

  lemma TextLessIrreflexive(a: string)
    ensures !TextLess(a, a)
  {}

  lemma {:induction false} DigitsOrder(m: int, n: int, w: nat)
    requires 0 <= m < Pow10(w) && 0 <= n < Pow10(w)
    ensures TextLess(Digits(m, w), Digits(n, w)) <==> m < n
    ensures Digits(m, w) == Digits(n, w) <==> m == n
    decreases w
  {
    if w > 0 {
      DigitsOrder(m / 10, n / 10, w - 1);
      var a, b, x, y := Digits(m / 10, w - 1), Digits(n / 10, w - 1), [Digit(m % 10)], [Digit(n % 10)];
      TextLessSplit(a, b, x, y);
      assert TextLess(x, y) <==> m % 10 < n % 10;
      assert Digits(m, w)[..w - 1] == a && Digits(n, w)[..w - 1] == b;
      assert Digits(m, w)[w - 1] == x[0] && Digits(n, w)[w - 1] == y[0];
    }
  }

  /** Two fixed-width fields, then anything: the first differing field decides. */
  lemma FieldOrder(m: int, n: int, w: nat, x: string, y: string)
    requires 0 <= m < Pow10(w) && 0 <= n < Pow10(w)
    ensures TextLess(Digits(m, w) + x, Digits(n, w) + y) <==> m < n || (m == n && TextLess(x, y))
  {
    DigitsOrder(m, n, w);
    TextLessSplit(Digits(m, w), Digits(n, w), x, y);
  }

  lemma SeparatorOrder(c: string, x: string, y: string)
    ensures TextLess(c + x, c + y) <==> TextLess(x, y)
  {
    TextLessIrreflexive(c);
    TextLessSplit(c, c, x, y);
  }

  /** The field left out for microsecond zero still sorts first, since '+' precedes '.'. */
  lemma FractionOrder(m: int, n: int)
    requires 0 <= m < 1_000_000 && 0 <= n < 1_000_000
    ensures TextLess(Fraction(m), Fraction(n)) <==> m < n
  {
    var z := "+00:00";
    assert Pow10(6) == 1_000_000;
    if m != 0 && n != 0 {
      assert Fraction(m) == "." + (Digits(m, 6) + z) && Fraction(n) == "." + (Digits(n, 6) + z);
      SeparatorOrder(".", Digits(m, 6) + z, Digits(n, 6) + z);
      FieldOrder(m, n, 6, z, z);
      TextLessIrreflexive(z);
    } else if m == 0 && n == 0 {
      TextLessIrreflexive(Fraction(0));
    } else {
      assert Fraction(m)[0] == (if m == 0 then '+' else '.');
      assert Fraction(n)[0] == (if n == 0 then '+' else '.');
    }
  }

  /** Field by field, most significant first. */
  predicate Earlier(a: DateTime, b: DateTime) {
    a.year < b.year || (a.year == b.year && (
    a.month < b.month || (a.month == b.month && (
    a.day < b.day || (a.day == b.day && (
    a.hour < b.hour || (a.hour == b.hour && (
    a.minute < b.minute || (a.minute == b.minute && (
    a.second < b.second || (a.second == b.second && a.micro < b.micro)))))))))))
  }

  lemma IsoOrderByFields(a: DateTime, b: DateTime)
    requires a.Valid() && b.Valid()
    ensures TextLess(Iso(a), Iso(b)) <==> Earlier(a, b)
  {
    assert Pow10(2) == 100 && Pow10(4) == 10000;
    var a6 := Fraction(a.micro);
    var b6 := Fraction(b.micro);
    FractionOrder(a.micro, b.micro);
    var a5, b5 := Digits(a.second, 2) + a6, Digits(b.second, 2) + b6;
    FieldOrder(a.second, b.second, 2, a6, b6);
    var a4, b4 := Digits(a.minute, 2) + (":" + a5), Digits(b.minute, 2) + (":" + b5);
    SeparatorOrder(":", a5, b5);
    FieldOrder(a.minute, b.minute, 2, ":" + a5, ":" + b5);
    var a3, b3 := Digits(a.hour, 2) + (":" + a4), Digits(b.hour, 2) + (":" + b4);
    SeparatorOrder(":", a4, b4);
    FieldOrder(a.hour, b.hour, 2, ":" + a4, ":" + b4);
    var a2, b2 := Digits(a.day, 2) + ("T" + a3), Digits(b.day, 2) + ("T" + b3);
    SeparatorOrder("T", a3, b3);
    FieldOrder(a.day, b.day, 2, "T" + a3, "T" + b3);
    var a1, b1 := Digits(a.month, 2) + ("-" + a2), Digits(b.month, 2) + ("-" + b2);
    SeparatorOrder("-", a2, b2);
    FieldOrder(a.month, b.month, 2, "-" + a2, "-" + b2);
    SeparatorOrder("-", a1, b1);
    FieldOrder(a.year, b.year, 4, "-" + a1, "-" + b1);
  }

  // ---- fields order the same way as instants ------------------------------

  lemma QuotientBy4(y: int)
    requires 1 <= y
    ensures y / 4 == (y - 1) / 4 + if y % 4 == 0 then 1 else 0
  {}

  lemma QuotientBy100(y: int)
    requires 1 <= y
    ensures y / 100 == (y - 1) / 100 + if y % 100 == 0 then 1 else 0
  {}

  lemma QuotientBy400(y: int)
    requires 1 <= y
    ensures y / 400 == (y - 1) / 400 + if y % 400 == 0 then 1 else 0
  {}

  lemma DaysInYear(y: int)
    requires 1 <= y
    ensures DaysBeforeMonth(y, 13) == if Leap(y) then 366 else 365
  {
    assert DaysBeforeMonth(y, 3) == 59 + (if Leap(y) then 1 else 0);
    assert DaysBeforeMonth(y, 5) == DaysBeforeMonth(y, 3) + 61;
    assert DaysBeforeMonth(y, 7) == DaysBeforeMonth(y, 5) + 61;
    assert DaysBeforeMonth(y, 9) == DaysBeforeMonth(y, 7) + 62;
    assert DaysBeforeMonth(y, 11) == DaysBeforeMonth(y, 9) + 61;
  }

  lemma LeapIsDivisible(y: int)
    requires 1 <= y
    ensures (if Leap(y) then 1 else 0) ==
      (if y % 4 == 0 then 1 else 0) - (if y % 100 == 0 then 1 else 0) + if y % 400 == 0 then 1 else 0
  {
    assert y % 400 == 0 ==> y % 100 == 0;
    assert y % 100 == 0 ==> y % 4 == 0;
  }

  lemma YearLength(y: int)
    requires 1 <= y
    ensures DaysBeforeYear(y + 1) == DaysBeforeYear(y) + DaysBeforeMonth(y, 13)
  {
    DaysInYear(y);
    LeapIsDivisible(y);
    QuotientBy4(y);
    QuotientBy100(y);
    QuotientBy400(y);
  }

  lemma {:induction false} MonthsApart(y: int, m: int, n: int)
    requires 1 <= m < n
    ensures DaysBeforeMonth(y, m) + DaysInMonth(y, m) <= DaysBeforeMonth(y, n)
    decreases n
  {
    if m < n - 1 { MonthsApart(y, m, n - 1); }
  }

  lemma {:induction false} YearsApart(y: int, z: int)
    requires 1 <= y < z
    ensures DaysBeforeYear(y) + DaysBeforeMonth(y, 13) <= DaysBeforeYear(z)
    decreases z
  {
    YearLength(z - 1);
    if y < z - 1 {
      YearsApart(y, z - 1);
      MonthsApart(z - 1, 1, 13);
    }
  }

  lemma DayNumberOrder(a: DateTime, b: DateTime)
    requires a.Valid() && b.Valid()
    requires (a.year, a.month) != (b.year, b.month)
    requires a.year < b.year || (a.year == b.year && a.month < b.month)
    ensures DayNumber(a) < DayNumber(b)
  {
    if a.year < b.year {
      YearsApart(a.year, b.year);
      MonthsApart(a.year, a.month, 13);
      if b.month > 1 { MonthsApart(b.year, 1, b.month); }
    } else {
      MonthsApart(a.year, a.month, b.month);
    }
  }

  lemma EarlierIsSmaller(a: DateTime, b: DateTime)
    requires a.Valid() && b.Valid() && Earlier(a, b)
    ensures Micros(a) < Micros(b)
  {
    if a.year == b.year && a.month == b.month {
    } else {
      DayNumberOrder(a, b);
    }
  }

  /**
   Text order is time order, and equal text means the same instant.
   The equal-digits assumption of section 5.1 of RFC 3339 is not needed.
   */
  lemma IsoOrder(a: DateTime, b: DateTime)
    requires a.Valid() && b.Valid()
    ensures TextLess(Iso(a), Iso(b)) <==> Micros(a) < Micros(b)
    ensures Iso(a) == Iso(b) <==> Micros(a) == Micros(b)
  {
    IsoOrderByFields(a, b);
    IsoOrderByFields(b, a);
    if Earlier(a, b) {
      EarlierIsSmaller(a, b);
      TextLessIrreflexive(Iso(a));
    } else if Earlier(b, a) {
      EarlierIsSmaller(b, a);
      TextLessIrreflexive(Iso(a));
    } else {
      assert a == b;
    }
  }

  /** The store's `expires_at <= now` on text decides exactly "expiry is not after now". */
  lemma ExpiryTest(expires: DateTime, now: DateTime)
    requires expires.Valid() && now.Valid()
    ensures !TextLess(Iso(now), Iso(expires)) <==> Micros(expires) <= Micros(now)
    ensures TextLess(Iso(expires), Iso(now)) || Iso(expires) == Iso(now) <==> Micros(expires) <= Micros(now)
  {
    IsoOrder(expires, now);
    IsoOrder(now, expires);
  }

  /** Two instants of the same second whose texts have different lengths. */
  lemma FractionCanBeMissing()
    ensures exists a: DateTime, b: DateTime ::
      a.Valid() && b.Valid() && |Iso(a)| != |Iso(b)| && TextLess(Iso(a), Iso(b))
  {
    var a := DateTime(2026, 9, 14, 8, 0, 0, 0);
    var b := a.(micro := 1);
    IsoOrder(a, b);
    assert |Iso(a)| == 25 && |Iso(b)| == 32;
    assert TextLess(Iso(a), Iso(b));
  }
}
