/**
 When instants may be compared as text (apps/notify/src/run.ts): the time an accepted instant names,
 and exactly when code-unit order is the order of time. The state file admits fractions of any width
 up to six digits, at which it is not always.
 */
module InstantText {
  import opened Texts
  import UrgentState

  // --- Numerals -------------------------------------------------------------------------------

  predicate IsDigit(u: Unit) {
    '0' as int <= u <= '9' as int
  }

  predicate AllDigits(t: Text) {
    forall i :: 0 <= i < |t| ==> IsDigit(t[i])
  }

  function Power(n: nat): (p: nat)
    ensures p >= 1
  {
    if n == 0 then 1 else 10 * Power(n - 1)
  }

  /** What a decimal numeral writes. */
  function Number(t: Text): (n: nat)
    requires AllDigits(t)
    ensures n < Power(|t|)
  {
    if t == [] then 0
    else
      DigitBound(t[0], Power(|t| - 1));
      (t[0] - '0' as int) * Power(|t| - 1) + Number(t[1..])
  }

  lemma DigitBound(u: Unit, p: nat)
    requires IsDigit(u) && p >= 1
    ensures 0 <= (u - '0' as int) * p && (u - '0' as int) * p + p <= 10 * p
  {
    assert (u - '0' as int + 1) * p <= 10 * p;
  }

  lemma LargerDigit(u: int, v: int, p: nat, a: nat, b: nat)
    requires u < v && a < p && b < p
    ensures u * p + a < v * p + b
  {
    assert (u + 1) * p <= v * p;
  }

  /** Numerals of one width compare as the numbers they write. */
  lemma {:induction false} NumeralOrder(a: Text, b: Text)
    requires |a| == |b| && AllDigits(a) && AllDigits(b)
    ensures Less(a, b) <==> Number(a) < Number(b)
    ensures a == b <==> Number(a) == Number(b)
  {
    if a != [] {
      var p := Power(|a| - 1);
      var u, v := a[0] - '0' as int, b[0] - '0' as int;
      NumeralOrder(a[1..], b[1..]);
      if a[0] < b[0] {
        LargerDigit(u, v, p, Number(a[1..]), Number(b[1..]));
      } else if b[0] < a[0] {
        LargerDigit(v, u, p, Number(b[1..]), Number(a[1..]));
      } else {
        assert a == [a[0]] + a[1..] && b == [b[0]] + b[1..];
      }
    }
  }

  // --- The calendar ---------------------------------------------------------------------------

  datatype Clock = Clock(year: nat, month: nat, day: nat, hour: nat, minute: nat, second: nat)

  predicate IsLeap(year: nat) {
    (year % 4 == 0 && year % 100 != 0) || year % 400 == 0
  }

  function DaysIn(year: nat, month: nat): nat {
    if month == 2 then if IsLeap(year) then 29 else 28
    else if month == 4 || month == 6 || month == 9 || month == 11 then 30 else 31
  }

  function DaysBeforeMonth(year: nat, month: nat): nat {
    if month <= 1 then 0 else DaysBeforeMonth(year, month - 1) + DaysIn(year, month - 1)
  }

  function DaysBeforeYear(year: nat): nat {
    if year == 0 then 0 else DaysBeforeYear(year - 1) + DaysBeforeMonth(year - 1, 13)
  }

  predicate IsReal(c: Clock) {
    1 <= c.month <= 12 && 1 <= c.day <= DaysIn(c.year, c.month) && c.hour < 24 && c.minute < 60 && c.second < 60
  }

  function DayOf(c: Clock): nat
    requires IsReal(c)
  {
    DaysBeforeYear(c.year) + DaysBeforeMonth(c.year, c.month) + c.day - 1
  }

  /** Seconds since the year 0 began, in the Gregorian calendar. */
  function SecondsOf(c: Clock): nat
    requires IsReal(c)
  {
    DayOf(c) * 86400 + c.hour * 3600 + c.minute * 60 + c.second
  }

  function LeapDay(year: nat): nat {
    if year % 400 == 0 || (year % 4 == 0 && year % 100 != 0) then 1 else 0
  }

  /** The days of a year that come before each of its months, and the year's own. */
  lemma DaysBeforeEachMonth(year: nat)
    ensures DaysBeforeMonth(year, 1) == 0 && DaysBeforeMonth(year, 2) == 31
    ensures DaysBeforeMonth(year, 3) == 59 + LeapDay(year) && DaysBeforeMonth(year, 4) == 90 + LeapDay(year)
    ensures DaysBeforeMonth(year, 5) == 120 + LeapDay(year) && DaysBeforeMonth(year, 6) == 151 + LeapDay(year)
    ensures DaysBeforeMonth(year, 7) == 181 + LeapDay(year) && DaysBeforeMonth(year, 8) == 212 + LeapDay(year)
    ensures DaysBeforeMonth(year, 9) == 243 + LeapDay(year) && DaysBeforeMonth(year, 10) == 273 + LeapDay(year)
    ensures DaysBeforeMonth(year, 11) == 304 + LeapDay(year) && DaysBeforeMonth(year, 12) == 334 + LeapDay(year)
    ensures DaysBeforeMonth(year, 13) == 365 + LeapDay(year)
  {
    assert DaysBeforeMonth(year, 2) == 31 && DaysBeforeMonth(year, 3) == 59 + LeapDay(year);
    assert DaysBeforeMonth(year, 4) == 90 + LeapDay(year) && DaysBeforeMonth(year, 5) == 120 + LeapDay(year);
    assert DaysBeforeMonth(year, 6) == 151 + LeapDay(year) && DaysBeforeMonth(year, 7) == 181 + LeapDay(year);
    assert DaysBeforeMonth(year, 8) == 212 + LeapDay(year) && DaysBeforeMonth(year, 9) == 243 + LeapDay(year);
    assert DaysBeforeMonth(year, 10) == 273 + LeapDay(year) && DaysBeforeMonth(year, 11) == 304 + LeapDay(year);
  }

  /** How many of the first n numbers after zero divide by 4 but, short of 400, not by 100. */
  function LeapDays(n: nat): int {
    n / 4 - n / 100 + n / 400
  }

  lemma OneMoreYear(year: nat)
    requires year > 0
    ensures LeapDays(year) == LeapDays(year - 1) + LeapDay(year)
  {
    OneMoreDivided(year);
    assert year % 400 == 0 ==> year % 100 == 0 && year % 4 == 0;
    assert year % 100 == 0 ==> year % 4 == 0;
  }

  lemma OneMoreDivided(n: nat)
    requires n > 0
    ensures n / 4 == (n - 1) / 4 + if n % 4 == 0 then 1 else 0
    ensures n / 100 == (n - 1) / 100 + if n % 100 == 0 then 1 else 0
    ensures n / 400 == (n - 1) / 400 + if n % 400 == 0 then 1 else 0
  {
  }

  /** The days before a year: those of common years, year 0's leap day and those after it. */
  lemma {:induction false} DaysBeforeEachYear(year: nat)
    requires year > 0
    ensures DaysBeforeYear(year) == 365 * year + 1 + LeapDays(year - 1)
  {
    assert LeapDays(0) == 0;
    hide DaysBeforeMonth, DaysIn, IsLeap, LeapDays;
    DaysBeforeEachMonth(year - 1);
    if year > 1 {
      DaysBeforeEachYear(year - 1);
      OneMoreYear(year - 1);
      hide LeapDay;
    } else {
      assert DaysBeforeYear(0) == 0 && LeapDay(0) == 1;
    }
  }

  /** The months' lengths, and the last hour, minute and second of a day. */
  lemma RealDates(c: Clock)
    ensures IsReal(c) <==>
            && c.day > 0
            && (|| (c.month in {1, 3, 5, 7, 8, 10, 12} && c.day <= 31)
                || (c.month in {4, 6, 9, 11} && c.day <= 30)
                || (c.month == 2 && c.day <= 28 + LeapDay(c.year)))
            && c.hour <= 23 && c.minute <= 59 && c.second <= 59
  {
  }

  /** The first second of Unix time. */
  lemma UnixEpoch(c: Clock)
    requires c == Clock(1970, 1, 1, 0, 0, 0)
    ensures IsReal(c) && SecondsOf(c) == 62167219200
  {
    hide DaysBeforeMonth, DaysBeforeYear;
    DaysBeforeEachYear(c.year);
    DaysBeforeEachMonth(c.year);
  }

  /** The last second of 29 February 2024. */
  lemma UnixLeapDay(c: Clock)
    requires c == Clock(2024, 2, 29, 23, 59, 59)
    ensures IsReal(c) && SecondsOf(c) == 62167219200 + 1709251199
  {
    hide DaysBeforeMonth, DaysBeforeYear;
    DaysBeforeEachYear(c.year);
    DaysBeforeEachMonth(c.year);
  }

  lemma {:induction false} MonthsAdvance(year: nat, a: nat, b: nat)
    requires 1 <= a < b
    ensures DaysBeforeMonth(year, a) + DaysIn(year, a) <= DaysBeforeMonth(year, b)
  {
    if a + 1 < b {
      MonthsAdvance(year, a, b - 1);
    }
  }

  lemma {:induction false} YearsAdvance(a: nat, b: nat)
    requires a < b
    ensures DaysBeforeYear(a) + DaysBeforeMonth(a, 13) <= DaysBeforeYear(b)
  {
    if a + 1 < b {
      YearsAdvance(a, b - 1);
    }
  }

  /** Field by field, most significant first. */
  predicate Earlier(a: Clock, b: Clock) {
    if a.year != b.year then a.year < b.year
    else if a.month != b.month then a.month < b.month
    else if a.day != b.day then a.day < b.day
    else if a.hour != b.hour then a.hour < b.hour
    else if a.minute != b.minute then a.minute < b.minute
    else a.second < b.second
  }

  lemma EarlierDay(a: Clock, b: Clock)
    requires IsReal(a) && IsReal(b)
    requires Earlier(a, b) && (a.year, a.month, a.day) != (b.year, b.month, b.day)
    ensures DayOf(a) < DayOf(b)
  {
    hide DaysIn, DaysBeforeMonth, DaysBeforeYear;
    if a.year < b.year {
      YearsAdvance(a.year, b.year);
      MonthsAdvance(a.year, a.month, 13);
    } else if a.month < b.month {
      MonthsAdvance(a.year, a.month, b.month);
    }
  }

  lemma EarlierIsSooner(a: Clock, b: Clock)
    requires IsReal(a) && IsReal(b) && Earlier(a, b)
    ensures SecondsOf(a) < SecondsOf(b)
  {
    if (a.year, a.month, a.day) != (b.year, b.month, b.day) {
      EarlierDay(a, b);
    }
    hide DayOf;
  }

  /** Real clocks compare field by field as they do in time. */
  lemma ClockOrder(a: Clock, b: Clock)
    requires IsReal(a) && IsReal(b)
    ensures Earlier(a, b) <==> SecondsOf(a) < SecondsOf(b)
    ensures a == b <==> SecondsOf(a) == SecondsOf(b)
  {
    hide IsReal, SecondsOf;
    if Earlier(a, b) {
      EarlierIsSooner(a, b);
    } else if Earlier(b, a) {
      EarlierIsSooner(b, a);
    }
  }

  // --- The parts of an accepted instant -------------------------------------------------------

  /** Up to the seconds: nineteen units. */
  function SecondsPart(t: Text): Text
    requires |t| >= 19
  {
    t[..19]
  }

  /** The digits between the point and the Z, if there are any. */
  function Fraction(t: Text): Text
    requires |t| >= 20
  {
    if |t| == 20 then [] else t[20..|t| - 1]
  }

  const Z: Unit := 'Z' as int
  const POINT: Unit := '.' as int

  /** What follows the seconds. */
  function Ending(fraction: Text): Text {
    if fraction == [] then [Z] else [POINT] + fraction + [Z]
  }

  predicate IsSeconds(t: Text) {
    UrgentState.Matches(t, UrgentState.TO_SECONDS)
  }

  lemma InstantParts(t: Text)
    requires UrgentState.IsInstant(t)
    ensures |t| >= 20 && IsSeconds(SecondsPart(t))
    ensures AllDigits(Fraction(t)) && |Fraction(t)| <= 6
    ensures t == SecondsPart(t) + Ending(Fraction(t))
  {
    var to := UrgentState.TO_SECONDS;
    if UrgentState.Matches(t, to + [UrgentState.Exactly(Z)]) {
      assert forall i :: 0 <= i < 19 ==> (to + [UrgentState.Exactly(Z)])[i] == to[i];
      assert t == t[..19] + [t[19]];
    } else {
      var n: nat :| 1 <= n <= 6 && UrgentState.Matches(t, UrgentState.WithFraction(n));
      FractionParts(t, n);
    }
  }

  lemma {:induction false} TimesAt(n: nat, p: UrgentState.Atom, i: nat)
    requires i < n
    ensures UrgentState.Times(n, p)[i] == p
  {
    if i > 0 {
      TimesAt(n - 1, p, i - 1);
    }
  }

  lemma PatternParts(n: nat)
    ensures var pattern := UrgentState.WithFraction(n);
            && |pattern| == 21 + n
            && (forall i :: 0 <= i < 19 ==> pattern[i] == UrgentState.TO_SECONDS[i])
            && pattern[19] == UrgentState.Exactly(POINT) && pattern[20 + n] == UrgentState.Exactly(Z)
            && (forall i :: 20 <= i < 20 + n ==> pattern[i] == UrgentState.Digit)
  {
    var digits := UrgentState.Times(n, UrgentState.Digit);
    forall i | 0 <= i < n ensures digits[i] == UrgentState.Digit {
      TimesAt(n, UrgentState.Digit, i);
    }
  }

  lemma FractionParts(t: Text, n: nat)
    requires 1 <= n <= 6 && UrgentState.Matches(t, UrgentState.WithFraction(n))
    ensures |t| == 21 + n && IsSeconds(SecondsPart(t))
    ensures AllDigits(Fraction(t)) && |Fraction(t)| == n
    ensures t == SecondsPart(t) + Ending(Fraction(t))
  {
    PatternParts(n);
    var pattern := UrgentState.WithFraction(n);
    hide UrgentState.WithFraction;
    assert forall i :: 0 <= i < |t| ==> UrgentState.Fits(t[i], pattern[i]);
    assert UrgentState.Fits(t[19], pattern[19]) && UrgentState.Fits(t[20 + n], pattern[20 + n]);
    forall i | 0 <= i < n ensures IsDigit(Fraction(t)[i]) {
      assert UrgentState.Fits(t[20 + i], pattern[20 + i]);
    }
    assert t == t[..19] + ([t[19]] + t[20..20 + n] + [t[20 + n]]);
  }

  // --- The time an instant names --------------------------------------------------------------

  lemma FieldsAreDigits(t: Text)
    requires IsSeconds(t)
    ensures |t| == 19
    ensures AllDigits(t[..4]) && AllDigits(t[5..7]) && AllDigits(t[8..10])
    ensures AllDigits(t[11..13]) && AllDigits(t[14..16]) && AllDigits(t[17..19])
    ensures t[4] == '-' as int && t[7] == '-' as int && t[10] == 'T' as int && t[13] == ':' as int && t[16] == ':' as int
  {
    var to := UrgentState.TO_SECONDS;
    assert forall i :: 0 <= i < 19 ==> UrgentState.Fits(t[i], to[i]);
    assert UrgentState.Fits(t[4], to[4]) && UrgentState.Fits(t[7], to[7]) && UrgentState.Fits(t[10], to[10]);
    assert UrgentState.Fits(t[13], to[13]) && UrgentState.Fits(t[16], to[16]);
    assert forall i :: 0 <= i < 4 ==> to[i] == UrgentState.Digit;
    assert forall i :: 5 <= i < 7 ==> to[i] == UrgentState.Digit;
    assert forall i :: 8 <= i < 10 ==> to[i] == UrgentState.Digit;
    assert forall i :: 11 <= i < 13 ==> to[i] == UrgentState.Digit;
    assert forall i :: 14 <= i < 16 ==> to[i] == UrgentState.Digit;
    assert forall i :: 17 <= i < 19 ==> to[i] == UrgentState.Digit;
  }

  /** The clock that nineteen units show. */
  function ClockOf(t: Text): Clock
    requires IsSeconds(t)
  {
    FieldsAreDigits(t);
    Clock(Number(t[..4]), Number(t[5..7]), Number(t[8..10]), Number(t[11..13]), Number(t[14..16]), Number(t[17..19]))
  }

  /** The fraction at six digits, which is its microseconds. */
  function Padded(fraction: Text): (t: Text)
    requires AllDigits(fraction) && |fraction| <= 6
    ensures |t| == 6 && AllDigits(t)
  {
    fraction + Zeros(6 - |fraction|)
  }

  function Zeros(n: nat): (t: Text)
    ensures |t| == n && AllDigits(t)
  {
    if n == 0 then [] else ['0' as int] + Zeros(n - 1)
  }

  /** An accepted text that names a time: its date is in the calendar and its clock on the day. */
  predicate NamesTime(t: Text) {
    UrgentState.IsInstant(t) && (InstantParts(t); IsReal(ClockOf(SecondsPart(t))))
  }

  /** Microseconds since the year 0 began. */
  function Micros(t: Text): nat
    requires NamesTime(t)
  {
    InstantParts(t);
    SecondsOf(ClockOf(SecondsPart(t))) * 1000000 + Number(Padded(Fraction(t)))
  }

  lemma {:induction false} ZerosAreNothing(n: nat)
    ensures Number(Zeros(n)) == 0
  {
    if n > 0 {
      ZerosAreNothing(n - 1);
      assert Zeros(n)[1..] == Zeros(n - 1);
    }
  }

  lemma {:induction false} ZerosScale(f: Text, n: nat)
    requires AllDigits(f)
    ensures AllDigits(f + Zeros(n)) && Number(f + Zeros(n)) == Number(f) * Power(n)
  {
    if f == [] {
      ZerosAreNothing(n);
      assert f + Zeros(n) == Zeros(n);
    } else {
      ZerosScale(f[1..], n);
      assert (f + Zeros(n))[1..] == f[1..] + Zeros(n);
      PowerOfSum(|f| - 1, n);
      Scaled(f[0] - '0' as int, Power(|f| - 1), Power(n), Number(f[1..]));
    }
  }

  lemma Scaled(d: int, p: int, q: int, n: int)
    ensures d * (p * q) + n * q == (d * p + n) * q
  {
  }

  lemma {:induction false} PowerOfSum(a: nat, b: nat)
    ensures Power(a + b) == Power(a) * Power(b)
  {
    if a > 0 {
      PowerOfSum(a - 1, b);
      assert 10 * (Power(a - 1) * Power(b)) == 10 * Power(a - 1) * Power(b);
    }
  }

  /** Whole seconds in microseconds, and the fraction's digits at their places. */
  lemma MicrosExactly(t: Text)
    requires NamesTime(t)
    ensures |t| >= 20 && IsSeconds(t[..19]) && IsReal(ClockOf(t[..19])) && AllDigits(Fraction(t))
    ensures |Fraction(t)| <= 6
    ensures var f := Fraction(t);
            Micros(t) == 1000000 * SecondsOf(ClockOf(t[..19])) + Number(f) * Power(6 - |f|)
  {
    InstantParts(t);
    hide IsReal, ClockOf, SecondsOf, IsSeconds, Number, Power, Zeros, Fraction;
    ZerosScale(Fraction(t), 6 - |Fraction(t)|);
  }

  // --- Text order -----------------------------------------------------------------------------

  lemma {:induction false} LessConcat(a: Text, b: Text, x: Text, y: Text)
    requires |a| == |b|
    ensures Less(a + x, b + y) <==> Less(a, b) || (a == b && Less(x, y))
  {
    if a == [] {
      assert a + x == x && b + y == y;
    } else {
      LessConcat(a[1..], b[1..], x, y);
      assert (a + x)[1..] == a[1..] + x && (b + y)[1..] == b[1..] + y;
      assert a == [a[0]] + a[1..] && b == [b[0]] + b[1..];
    }
  }

  lemma FieldOrder(a: Text, b: Text, i: nat, j: nat)
    requires i <= j <= |a| == |b| && AllDigits(a[i..j]) && AllDigits(b[i..j])
    ensures Less(a[i..], b[i..]) <==>
            Number(a[i..j]) < Number(b[i..j]) || (Number(a[i..j]) == Number(b[i..j]) && Less(a[j..], b[j..]))
  {
    assert a[i..] == a[i..j] + a[j..] && b[i..] == b[i..j] + b[j..];
    LessConcat(a[i..j], b[i..j], a[j..], b[j..]);
    NumeralOrder(a[i..j], b[i..j]);
  }

  /** A field and the separator after it. */
  lemma FieldThenSeparator(a: Text, b: Text, i: nat, j: nat)
    requires i <= j < |a| == |b| && AllDigits(a[i..j]) && AllDigits(b[i..j]) && a[j] == b[j]
    ensures Less(a[i..], b[i..]) <==>
            Number(a[i..j]) < Number(b[i..j]) || (Number(a[i..j]) == Number(b[i..j]) && Less(a[j + 1..], b[j + 1..]))
  {
    FieldOrder(a, b, i, j);
    assert a[j..][1..] == a[j + 1..] && b[j..][1..] == b[j + 1..];
  }

  lemma YearText(a: Text, b: Text)
    requires IsSeconds(a) && IsSeconds(b)
    ensures |a| == |b| == 19
    ensures var c, d := ClockOf(a), ClockOf(b);
            Less(a, b) <==> c.year < d.year || (c.year == d.year && Less(a[5..], b[5..]))
  {
    FieldsAreDigits(a);
    FieldsAreDigits(b);
    hide Less, Number, IsSeconds, AllDigits;
    assert a[0..] == a && b[0..] == b;
    FieldThenSeparator(a, b, 0, 4);
  }

  lemma MonthText(a: Text, b: Text)
    requires IsSeconds(a) && IsSeconds(b)
    ensures |a| == |b| == 19
    ensures var c, d := ClockOf(a), ClockOf(b);
            Less(a[5..], b[5..]) <==> c.month < d.month || (c.month == d.month && Less(a[8..], b[8..]))
  {
    FieldsAreDigits(a);
    FieldsAreDigits(b);
    hide Less, Number, IsSeconds, AllDigits;
    FieldThenSeparator(a, b, 5, 7);
  }

  lemma DayText(a: Text, b: Text)
    requires IsSeconds(a) && IsSeconds(b)
    ensures |a| == |b| == 19
    ensures var c, d := ClockOf(a), ClockOf(b);
            Less(a[8..], b[8..]) <==> c.day < d.day || (c.day == d.day && Less(a[11..], b[11..]))
  {
    FieldsAreDigits(a);
    FieldsAreDigits(b);
    hide Less, Number, IsSeconds, AllDigits;
    FieldThenSeparator(a, b, 8, 10);
  }

  lemma HourText(a: Text, b: Text)
    requires IsSeconds(a) && IsSeconds(b)
    ensures |a| == |b| == 19
    ensures var c, d := ClockOf(a), ClockOf(b);
            Less(a[11..], b[11..]) <==> c.hour < d.hour || (c.hour == d.hour && Less(a[14..], b[14..]))
  {
    FieldsAreDigits(a);
    FieldsAreDigits(b);
    hide Less, Number, IsSeconds, AllDigits;
    FieldThenSeparator(a, b, 11, 13);
  }

  lemma MinuteText(a: Text, b: Text)
    requires IsSeconds(a) && IsSeconds(b)
    ensures |a| == |b| == 19
    ensures var c, d := ClockOf(a), ClockOf(b);
            Less(a[14..], b[14..]) <==> c.minute < d.minute || (c.minute == d.minute && Less(a[17..], b[17..]))
  {
    FieldsAreDigits(a);
    FieldsAreDigits(b);
    hide Less, Number, IsSeconds, AllDigits;
    FieldThenSeparator(a, b, 14, 16);
  }

  lemma SecondText(a: Text, b: Text)
    requires IsSeconds(a) && IsSeconds(b)
    ensures |a| == |b| == 19
    ensures var c, d := ClockOf(a), ClockOf(b);
            Less(a[17..], b[17..]) <==> c.second < d.second || (c.second == d.second && Less(a[19..], b[19..]))
  {
    FieldsAreDigits(a);
    FieldsAreDigits(b);
    hide Less, Number, IsSeconds, AllDigits;
    FieldOrder(a, b, 17, 19);
  }

  lemma SecondsText(a: Text, b: Text)
    requires IsSeconds(a) && IsSeconds(b)
    ensures Less(a, b) <==> Earlier(ClockOf(a), ClockOf(b))
  {
    hide Less, ClockOf, IsSeconds;
    YearText(a, b);
    MonthText(a, b);
    DayText(a, b);
    HourText(a, b);
    MinuteText(a, b);
    SecondText(a, b);
    LessIrreflexive([]);
    assert a[19..] == [] && b[19..] == [];
  }

  /** Up to the seconds, text order is time order. */
  lemma SecondsOrder(a: Text, b: Text)
    requires IsSeconds(a) && IsSeconds(b) && IsReal(ClockOf(a)) && IsReal(ClockOf(b))
    ensures Less(a, b) <==> SecondsOf(ClockOf(a)) < SecondsOf(ClockOf(b))
    ensures a == b <==> SecondsOf(ClockOf(a)) == SecondsOf(ClockOf(b))
  {
    hide Less, ClockOf, IsReal, SecondsOf, Earlier, IsSeconds;
    SecondsText(a, b);
    SecondsText(b, a);
    ClockOrder(ClockOf(a), ClockOf(b));
    ClockOrder(ClockOf(b), ClockOf(a));
    LessTrichotomy(a, b);
    LessIrreflexive(a);
  }

  lemma PrefixOfTails(f: Text, g: Text)
    requires f != [] && g != [] && f[0] == g[0]
    ensures f[1..] <= g[1..] <==> f <= g
  {
    assert f == [f[0]] + f[1..] && g == [g[0]] + g[1..];
  }

  /** Where neither fraction begins the other, the first digit they differ in decides, whatever follows. */
  lemma {:induction false} DifferenceDecides(f: Text, g: Text, x: Text, y: Text)
    requires !(f <= g) && !(g <= f)
    ensures Less(f + x, g + y) <==> Less(f, g)
    ensures f + x != g + y
  {
    assert f != [] && g != [];
    assert (f + x)[0] == f[0] && (g + y)[0] == g[0];
    if f[0] == g[0] {
      PrefixOfTails(f, g);
      PrefixOfTails(g, f);
      DifferenceDecides(f[1..], g[1..], x, y);
      assert (f + x)[1..] == f[1..] + x && (g + y)[1..] == g[1..] + y;
    }
  }

  /** A longer fraction sorts before the shorter one it begins with: the Z sorts after every digit. */
  lemma {:induction false} LongerSortsFirst(f: Text, g: Text)
    requires AllDigits(f) && AllDigits(g) && f < g
    ensures Less(Ending(g), Ending(f))
  {
    var rest := g[|f|..];
    assert g == f + rest && IsDigit(rest[0]) by {
      assert rest[0] == g[|f|];
    }
    if f != [] {
      var head := [POINT] + f;
      assert Ending(g) == head + (rest + [Z]) && Ending(f) == head + [Z];
      LessConcat(head, head, rest + [Z], [Z]);
    }
  }

  lemma {:induction false} ZerosLeast(t: Text)
    requires AllDigits(t)
    ensures Number(Zeros(|t|)) <= Number(t)
  {
    if t != [] {
      ZerosLeast(t[1..]);
      DigitBound(t[0], Power(|t| - 1));
      assert Zeros(|t|)[1..] == Zeros(|t| - 1);
    }
  }

  lemma {:induction false} SamePrefix(f: Text, x: Text, y: Text)
    requires AllDigits(f) && AllDigits(x) && AllDigits(y) && |x| == |y| && Number(x) <= Number(y)
    ensures AllDigits(f + x) && AllDigits(f + y) && Number(f + x) <= Number(f + y)
  {
    if f == [] {
      assert f + x == x && f + y == y;
    } else {
      SamePrefix(f[1..], x, y);
      assert (f + x)[1..] == f[1..] + x && (f + y)[1..] == f[1..] + y;
    }
  }

  /** Yet it names no earlier a time. */
  lemma LongerIsNoEarlier(f: Text, g: Text)
    requires AllDigits(f) && AllDigits(g) && f < g && |g| <= 6
    ensures Number(Padded(f)) <= Number(Padded(g))
  {
    var rest := g[|f|..] + Zeros(6 - |g|);
    assert Padded(g) == f + rest;
    ZerosLeast(rest);
    SamePrefix(f, Zeros(6 - |f|), rest);
  }

  lemma FractionOrder(f: Text, g: Text)
    requires AllDigits(f) && AllDigits(g) && |f| <= 6 && |g| <= 6
    requires !(f < g) && !(g < f)
    ensures Less(Ending(f), Ending(g)) <==> Number(Padded(f)) < Number(Padded(g))
    ensures f == g <==> Number(Padded(f)) == Number(Padded(g))
  {
    if f == g {
      LessIrreflexive(Ending(f));
    } else {
      assert Ending(f) == [POINT] + (f + [Z]) && Ending(g) == [POINT] + (g + [Z]);
      LessConcat([POINT], [POINT], f + [Z], g + [Z]);
      LessIrreflexive([POINT]);
      DifferenceDecides(f, g, [Z], [Z]);
      DifferenceDecides(f, g, Zeros(6 - |f|), Zeros(6 - |g|));
      NumeralOrder(Padded(f), Padded(g));
    }
  }

  // --- Text order and time order --------------------------------------------------------------

  /** Comparing the texts is comparing the times, whichever way round and for equality too. */
  ghost predicate Agree(t: Text, u: Text)
    requires NamesTime(t) && NamesTime(u)
  {
    && (Less(t, u) <==> Micros(t) < Micros(u))
    && (Less(u, t) <==> Micros(u) < Micros(t))
    && (t == u <==> Micros(t) == Micros(u))
  }

  /** One instant shows the other's fraction and goes on: as no fraction goes on to any. */
  predicate OneGoesOn(t: Text, u: Text)
    requires |t| >= 20 && |u| >= 20
  {
    SecondsPart(t) == SecondsPart(u) && (Fraction(t) < Fraction(u) || Fraction(u) < Fraction(t))
  }

  lemma Split(t: Text, u: Text)
    requires NamesTime(t) && NamesTime(u)
    ensures |t| >= 20 && |u| >= 20
    ensures Less(t, u) <==> || Less(SecondsPart(t), SecondsPart(u))
                            || (SecondsPart(t) == SecondsPart(u) && Less(Ending(Fraction(t)), Ending(Fraction(u))))
    ensures t == u <==> SecondsPart(t) == SecondsPart(u) && Fraction(t) == Fraction(u)
  {
    InstantParts(t);
    InstantParts(u);
    LessConcat(SecondsPart(t), SecondsPart(u), Ending(Fraction(t)), Ending(Fraction(u)));
    hide Less, UrgentState.IsInstant, ClockOf;
  }

  lemma LongerDisagrees(t: Text, u: Text)
    requires NamesTime(t) && NamesTime(u) && |t| >= 20 && |u| >= 20
    requires SecondsPart(t) == SecondsPart(u) && Fraction(t) < Fraction(u)
    ensures Less(u, t) && Micros(t) <= Micros(u)
  {
    Split(u, t);
    InstantParts(t);
    InstantParts(u);
    hide Less, ClockOf, UrgentState.IsInstant, NamesTime;
    LongerSortsFirst(Fraction(t), Fraction(u));
    LongerIsNoEarlier(Fraction(t), Fraction(u));
  }

  lemma MicrosOrder(t: Text, u: Text)
    requires NamesTime(t) && NamesTime(u) && |t| >= 20 && |u| >= 20
    requires !OneGoesOn(t, u)
    ensures Less(t, u) <==> Micros(t) < Micros(u)
    ensures t == u <==> Micros(t) == Micros(u)
  {
    Split(t, u);
    InstantParts(t);
    InstantParts(u);
    SecondsOrder(SecondsPart(t), SecondsPart(u));
    assert Power(6) == 1000000;
    hide Less, ClockOf, UrgentState.IsInstant, SecondsOf, Number, IsReal;
    if SecondsPart(t) == SecondsPart(u) {
      FractionOrder(Fraction(t), Fraction(u));
      LessIrreflexive(SecondsPart(t));
    }
  }

  /**
   Of accepted instants that name times, text order is time order exactly unless they agree up to the
   seconds and one shows the other's fraction and goes on.
   */
  lemma {:induction false} TextOrderExact(t: Text, u: Text)
    requires NamesTime(t) && NamesTime(u)
    ensures |t| >= 20 && |u| >= 20
    ensures Agree(t, u) <==> !OneGoesOn(t, u)
  {
    InstantParts(t);
    InstantParts(u);
    hide NamesTime, Micros, Less;
    if OneGoesOn(t, u) {
      if Fraction(t) < Fraction(u) {
        LongerDisagrees(t, u);
      } else {
        LongerDisagrees(u, t);
      }
    } else {
      MicrosOrder(t, u);
      MicrosOrder(u, t);
    }
  }

  /** At one width, that of the database's own texts included, text order is time order. */
  lemma OneWidthAgrees(t: Text, u: Text)
    requires NamesTime(t) && NamesTime(u) && |t| == |u|
    ensures Agree(t, u)
  {
    InstantParts(t);
    InstantParts(u);
    hide NamesTime, Agree;
    TextOrderExact(t, u);
  }

  const HALF: Text := ['5' as int]

  lemma WholeParts(second: Text)
    requires IsSeconds(second)
    ensures UrgentState.IsInstant(second + Ending([]))
    ensures SecondsPart(second + Ending([])) == second && Fraction(second + Ending([])) == []
  {
    var t, to := second + [Z], UrgentState.TO_SECONDS;
    assert forall i :: 0 <= i < 19 ==> UrgentState.Fits(second[i], to[i]);
    assert UrgentState.Matches(t, to + [UrgentState.Exactly(Z)]);
    assert t[..19] == second;
  }

  lemma HalfParts(second: Text)
    requires IsSeconds(second)
    ensures UrgentState.IsInstant(second + Ending(HALF))
    ensures SecondsPart(second + Ending(HALF)) == second && Fraction(second + Ending(HALF)) == HALF
  {
    var t, pattern := second + Ending(HALF), UrgentState.WithFraction(1);
    PatternParts(1);
    hide UrgentState.WithFraction;
    assert forall i :: 0 <= i < 19 ==> UrgentState.Fits(second[i], UrgentState.TO_SECONDS[i]);
    assert t[19] == POINT && t[20] == '5' as int && t[21] == Z;
    assert UrgentState.Matches(t, pattern);
    assert t[..19] == second && t[20..21] == HALF;
  }

  /** A whole second and the half after it: both accepted, half a second apart, and sorted the wrong way round. */
  lemma HalfSortsFirst(second: Text)
    requires IsSeconds(second) && IsReal(ClockOf(second))
    ensures var whole, half := second + Ending([]), second + Ending(HALF);
            && NamesTime(whole) && NamesTime(half)
            && Micros(half) == Micros(whole) + 500000
            && Less(half, whole)
  {
    var whole, half := second + Ending([]), second + Ending(HALF);
    WholeParts(second);
    HalfParts(second);
    assert Number(Padded([])) == 0 by {
      assert Padded([]) == Zeros(6);
      ZerosAreNothing(6);
    }
    assert Number(Padded(HALF)) == 500000 by {
      assert Padded(HALF) == HALF + Zeros(5) && (HALF + Zeros(5))[1..] == Zeros(5);
      ZerosAreNothing(5);
      assert Power(5) == 100000;
    }
    hide ClockOf, UrgentState.IsInstant, Less, Number;
    LongerDisagrees(whole, half);
  }

  const NEW_YEAR: Text := Ascii("2026-01-01T00:00:00")

  lemma NewYearAccepted()
    ensures IsSeconds(NEW_YEAR)
  {
    assert forall i :: 0 <= i < 19 ==> UrgentState.Fits(NEW_YEAR[i], UrgentState.TO_SECONDS[i]);
  }

  lemma TwoDigits(t: Text, i: nat)
    requires i + 2 <= |t| && AllDigits(t[i..i + 2])
    ensures Number(t[i..i + 2]) == (t[i] - '0' as int) * 10 + t[i + 1] - '0' as int
  {
    var pair := t[i..i + 2];
    assert pair[0] == t[i] && pair[1..] == [t[i + 1]];
    assert pair[1..][1..] == [] && Power(1) == 10;
  }

  lemma NewYearIsReal()
    ensures IsSeconds(NEW_YEAR) && IsReal(ClockOf(NEW_YEAR))
  {
    var t := NEW_YEAR;
    NewYearAccepted();
    FieldsAreDigits(t);
    hide Number, IsSeconds, AllDigits;
    TwoDigits(t, 5);
    TwoDigits(t, 8);
    TwoDigits(t, 11);
    TwoDigits(t, 14);
    TwoDigits(t, 17);
  }

  lemma NewYearTexts()
    ensures Ascii("2026-01-01T00:00:00Z") == NEW_YEAR + Ending([])
    ensures Ascii("2026-01-01T00:00:00.5Z") == NEW_YEAR + Ending(HALF)
  {}

  /** Two accepted instants, the later one sorted first. */
  lemma MixedWidthsMisorder()
    ensures var whole, half := Ascii("2026-01-01T00:00:00Z"), Ascii("2026-01-01T00:00:00.5Z");
            && NamesTime(whole) && NamesTime(half)
            && Micros(half) == Micros(whole) + 500000
            && Less(half, whole)
  {
    NewYearTexts();
    NewYearIsReal();
    hide *;
    HalfSortsFirst(NEW_YEAR);
  }
}
