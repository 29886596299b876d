/** Stored timestamps are ISO 8601 text, and the lease sweep and the claim order compare them as text.
    A timestamp carries six fraction digits, or none when the microseconds are zero, so equal length
    is not given. Text order is shown to be time order all the same. */
module IsoTimestamps {
  import opened Ordering

  /** A UTC instant, field by field. */
  datatype Instant = Instant(
    year: nat, month: nat, day: nat, hour: nat, minute: nat, second: nat, micro: nat)

  predicate IsLeap(year: nat) {
    year % 4 == 0 && (year % 100 != 0 || year % 400 == 0)
  }

  function MonthLength(year: nat, month: nat): nat {
    if month == 2 then (if IsLeap(year) then 29 else 28)
    else if month in {4, 6, 9, 11} then 30 else 31
  }

  /** The instants a Python `datetime` can hold. */
  predicate Valid(t: Instant) {
    && 1 <= t.year <= 9999 && 1 <= t.month <= 12 && 1 <= t.day <= MonthLength(t.year, t.month)
    && t.hour < 24 && t.minute < 60 && t.second < 60 && t.micro < 1_000_000
  }

  // ---- time: microseconds since the first instant of year 1 --------------------------------

  function DaysBeforeMonth(year: nat, month: nat): nat {
    if month <= 1 then 0 else DaysBeforeMonth(year, month - 1) + MonthLength(year, month - 1)
  }

  function YearLength(year: nat): nat {
    if IsLeap(year) then 366 else 365
  }

  function DaysBeforeYear(year: nat): nat {
    if year <= 1 then 0 else DaysBeforeYear(year - 1) + YearLength(year - 1)
  }

  function Day(t: Instant): nat
    requires t.day >= 1
  {
    DaysBeforeYear(t.year) + DaysBeforeMonth(t.year, t.month) + t.day - 1
  }

  function Micros(t: Instant): nat
    requires t.day >= 1
  {
    (((Day(t) * 24 + t.hour) * 60 + t.minute) * 60 + t.second) * 1_000_000 + t.micro
  }

  lemma {:induction false} MonthsAccumulate(year: nat, m: nat, n: nat)
    requires 1 <= m < n
    ensures DaysBeforeMonth(year, m) + MonthLength(year, m) <= DaysBeforeMonth(year, n)
  {
    if m + 1 < n { MonthsAccumulate(year, m, n - 1); }
  }

  lemma MonthsFillYear(year: nat, m: nat)
    requires 1 <= m <= 12
    ensures DaysBeforeMonth(year, m) + MonthLength(year, m) <= YearLength(year)
  {
    if m < 12 { MonthsAccumulate(year, m, 12); }
    var february := MonthLength(year, 2);
    assert DaysBeforeMonth(year, 3) == 31 + february;
    assert DaysBeforeMonth(year, 5) == 92 + february;
    assert DaysBeforeMonth(year, 7) == 153 + february;
    assert DaysBeforeMonth(year, 9) == 215 + february;
    assert DaysBeforeMonth(year, 11) == 276 + february;
    assert DaysBeforeMonth(year, 12) + MonthLength(year, 12) == YearLength(year);
  }

  lemma {:induction false} YearsAccumulate(y: nat, z: nat)
    requires 1 <= y < z
    ensures DaysBeforeYear(y) + YearLength(y) <= DaysBeforeYear(z)
  {
    if y + 1 < z { YearsAccumulate(y, z - 1); }
  }

  /** Field-by-field comparison, most significant field first. */
  predicate FieldsLess(a: Instant, b: Instant) {
    if a.year != b.year then a.year < b.year
    else if a.month != b.month then a.month < b.month
    else if a.day != b.day then a.day < b.day
    else if a.hour != b.hour then a.hour < b.hour
    else if a.minute != b.minute then a.minute < b.minute
    else if a.second != b.second then a.second < b.second
    else a.micro < b.micro
  }

  lemma EarlierDate(a: Instant, b: Instant)
    requires Valid(a) && Valid(b)
    requires a.year < b.year || (a.year == b.year && (a.month < b.month || (a.month == b.month && a.day < b.day)))
    ensures Day(a) < Day(b)
  {
    if a.year < b.year {
      YearsAccumulate(a.year, b.year);
      MonthsFillYear(a.year, a.month);
    } else if a.month < b.month {
      MonthsAccumulate(a.year, a.month, b.month);
    }
  }

  lemma FieldsLessIsEarlier(a: Instant, b: Instant)
    requires Valid(a) && Valid(b) && FieldsLess(a, b)
    ensures Micros(a) < Micros(b)
  {
    if a.year != b.year || a.month != b.month || a.day != b.day { EarlierDate(a, b); }
  }

  // ---- text --------------------------------------------------------------------------------

  function Digit(d: nat): char
    requires d < 10
  {
    '0' + d as char
  }

  function Power10(k: nat): nat {
    if k == 0 then 1 else 10 * Power10(k - 1)
  }

  /** n in exactly k decimal digits. */
  function Padded(n: nat, k: nat): (s: string)
    ensures |s| == k
  {
    if k == 0 then "" else Padded(n / 10, k - 1) + [Digit(n % 10)]
  }

  function Fraction(micro: nat): string {
    if micro == 0 then "" else "." + Padded(micro, 6)
  }

  /** `value.astimezone(UTC).isoformat()` for an instant already in UTC. */
  function Iso(t: Instant): string {
    Padded(t.year, 4) + ("-" + (Padded(t.month, 2) + ("-" + (Padded(t.day, 2) + ("T" +
    (Padded(t.hour, 2) + (":" + (Padded(t.minute, 2) + (":" + (Padded(t.second, 2) +
    (Fraction(t.micro) + "+00:00")))))))))))
  }

  lemma {:induction false} PaddedOrder(a: nat, b: nat, k: nat)
    requires a < b < Power10(k)
    ensures TextLess(Padded(a, k), Padded(b, k))
  {
    if k > 0 {
      if a / 10 == b / 10 {
        TextLessCommonPrefix(Padded(a / 10, k - 1), [Digit(a % 10)], [Digit(b % 10)]);
      } else {
        PaddedOrder(a / 10, b / 10, k - 1);
        TextLessDecidedByHead(Padded(a / 10, k - 1), Padded(b / 10, k - 1), [Digit(a % 10)], [Digit(b % 10)]);
      }
    }
  }

  /** A padded field decides the comparison unless it is equal on both sides. */
  lemma FieldDecides(a: nat, b: nat, k: nat, x: string, y: string)
    requires a < Power10(k) && b < Power10(k)
    ensures TextLess(Padded(a, k) + x, Padded(b, k) + y) <==> a < b || (a == b && TextLess(x, y))
  {
    var p, q := Padded(a, k), Padded(b, k);
    if a < b {
      PaddedOrder(a, b, k);
      TextLessDecidedByHead(p, q, x, y);
    } else if b < a {
      PaddedOrder(b, a, k);
      TextLessDecidedByHead(q, p, y, x);
      TextLessAsymmetric(q + y, p + x);
    } else {
      TextLessCommonPrefix(p, x, y);
    }
  }

  lemma SeparatorSkips(sep: string, x: string, y: string)
    ensures TextLess(sep + x, sep + y) <==> TextLess(x, y)
  {
    TextLessCommonPrefix(sep, x, y);
  }

  /** The missing fraction sorts first: '+' precedes '.'. */
  lemma FractionOrder(a: nat, b: nat)
    requires a < 1_000_000 && b < 1_000_000
    ensures TextLess(Fraction(a) + "+00:00", Fraction(b) + "+00:00") <==> a < b
  {
    var z := "+00:00";
    TextLessIrreflexive(z);
    var x, y := Fraction(a) + z, Fraction(b) + z;
    if a == 0 || b == 0 {
      assert a == 0 ==> x == z;
      assert b == 0 ==> y == z;
      assert a > 0 ==> x[0] == '.';
      assert b > 0 ==> y[0] == '.';
    } else {
      assert x == "." + (Padded(a, 6) + z) && y == "." + (Padded(b, 6) + z);
      SeparatorSkips(".", Padded(a, 6) + z, Padded(b, 6) + z);
      assert Power10(3) == 1_000;
      assert Power10(6) == 1_000_000;
      FieldDecides(a, b, 6, z, z);
    }
  }

  lemma TextComparesFields(a: Instant, b: Instant)
    requires Valid(a) && Valid(b)
    ensures TextLess(Iso(a), Iso(b)) <==> FieldsLess(a, b)
  {
    assert Power10(2) == 100 && Power10(4) == 10_000;
    FractionOrder(a.micro, b.micro);
    var a6, b6 := Fraction(a.micro) + "+00:00", Fraction(b.micro) + "+00:00";
    FieldDecides(a.second, b.second, 2, a6, b6);
    var a5, b5 := Padded(a.second, 2) + a6, Padded(b.second, 2) + b6;
    SeparatorSkips(":", a5, b5);
    FieldDecides(a.minute, b.minute, 2, ":" + a5, ":" + b5);
    var a4, b4 := Padded(a.minute, 2) + (":" + a5), Padded(b.minute, 2) + (":" + b5);
    SeparatorSkips(":", a4, b4);
    FieldDecides(a.hour, b.hour, 2, ":" + a4, ":" + b4);
    var a3, b3 := Padded(a.hour, 2) + (":" + a4), Padded(b.hour, 2) + (":" + b4);
    SeparatorSkips("T", a3, b3);
    FieldDecides(a.day, b.day, 2, "T" + a3, "T" + b3);
    var a2, b2 := Padded(a.day, 2) + ("T" + a3), Padded(b.day, 2) + ("T" + b3);
    SeparatorSkips("-", a2, b2);
    FieldDecides(a.month, b.month, 2, "-" + a2, "-" + b2);
    var a1, b1 := Padded(a.month, 2) + ("-" + a2), Padded(b.month, 2) + ("-" + b2);
    SeparatorSkips("-", a1, b1);
    FieldDecides(a.year, b.year, 4, "-" + a1, "-" + b1);
  }

  /** Comparing stored timestamps as text compares the instants, and equal text is the same instant. */
  lemma TextOrderIsTimeOrder(a: Instant, b: Instant)
    requires Valid(a) && Valid(b)
    ensures TextLess(Iso(a), Iso(b)) <==> Micros(a) < Micros(b)
    ensures Iso(a) == Iso(b) <==> Micros(a) == Micros(b)
  {
    TextComparesFields(a, b);
    TextComparesFields(b, a);
    if FieldsLess(a, b) { FieldsLessIsEarlier(a, b); }
    if FieldsLess(b, a) { FieldsLessIsEarlier(b, a); }
    TextLessTotal(Iso(a), Iso(b));
    TextLessIrreflexive(Iso(a));
  }
}
