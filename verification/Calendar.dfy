/** UTC timestamps in milliseconds since 1970: the closed formula by 400-year
    eras against counting days one by one. */
module Calendar {
  import opened Common

  datatype Date = Date(year: int, month: int, day: int)

  predicate IsLeap(year: int) { year % 4 == 0 && (year % 100 != 0 || year % 400 == 0) }

  function DaysIn(year: int, month: int): int {
    if month == 2 then (if IsLeap(year) then 29 else 28)
    else if month == 4 || month == 6 || month == 9 || month == 11 then 30 else 31
  }

  predicate ValidDate(d: Date) { d.year >= 1970 && 1 <= d.month <= 12 && 1 <= d.day <= DaysIn(d.year, d.month) }

  // ------------------------------------------------------------ one day at a time

  const EPOCH := Date(1970, 1, 1)

  function NextDay(d: Date): Date {
    if d.day < DaysIn(d.year, d.month) then d.(day := d.day + 1)
    else if d.month < 12 then Date(d.year, d.month + 1, 1)
    else Date(d.year + 1, 1, 1)
  }

  /** The date `n` days after the epoch. */
  function DayAt(n: nat): Date { if n == 0 then EPOCH else NextDay(DayAt(n - 1)) }

  // ------------------------------------------------------------------ the formula

  function YearDays(year: int): int {
    var era := year / 400;
    var yearOfEra := year - era * 400;
    era * 146097 + yearOfEra * 365 + yearOfEra / 4 - yearOfEra / 100
  }

  /** Years begin in March, so that a leap day comes last. */
  function ShiftedYear(d: Date): int { if d.month <= 2 then d.year - 1 else d.year }

  function DayOfYear(month: int, day: int): int {
    (153 * (month + (if month > 2 then -3 else 9)) + 2) / 5 + day - 1
  }

  function EraDays(d: Date): int { YearDays(ShiftedYear(d)) + DayOfYear(d.month, d.day) - 719468 }

  lemma YearDaysFlat(year: nat)
    ensures YearDays(year) == 365 * year + year / 4 - year / 100 + year / 400
  {
    var e, r := year / 400, year % 400;
    assert year == 400 * e + r;
    assert year / 4 == 100 * e + r / 4;
    assert year / 100 == 4 * e + r / 100;
  }

  lemma Multiples(year: nat)
    ensures year % 400 == 0 ==> year % 100 == 0
    ensures year % 100 == 0 ==> year % 4 == 0
  {
    var a, b := year / 400, year / 100;
    if year % 400 == 0 {
      assert year == (4 * a) * 100;
    }
    if year % 100 == 0 {
      assert year == (25 * b) * 4;
    }
  }

  lemma YearStep(year: nat)
    requires year > 0
    ensures YearDays(year) - YearDays(year - 1) == if IsLeap(year) then 366 else 365
  {
    hide YearDays;
    YearDaysFlat(year);
    YearDaysFlat(year - 1);
    Quotient(year, 4);
    Quotient(year, 100);
    Quotient(year, 400);
    Multiples(year);
    YearSum(year, year / 4, (year - 1) / 4, year / 100, (year - 1) / 100, year / 400, (year - 1) / 400);
  }

  lemma YearSum(year: int, a: int, a': int, b: int, b': int, c: int, c': int)
    requires a - a' == (if year % 4 == 0 then 1 else 0) && b - b' == (if year % 100 == 0 then 1 else 0)
    requires c - c' == (if year % 400 == 0 then 1 else 0)
    requires (year % 400 == 0 ==> year % 100 == 0) && (year % 100 == 0 ==> year % 4 == 0)
    ensures (365 * year + a - b + c) - (365 * (year - 1) + a' - b' + c') == if IsLeap(year) then 366 else 365
  {}

  lemma Quotient(n: nat, k: nat)
    requires n > 0 && k > 0
    ensures n / k - (n - 1) / k == if n % k == 0 then 1 else 0
  {
    var q, r := n / k, n % k;
    assert n == q * k + r;
    if r == 0 {
      Unique(n - 1, k, q - 1, k - 1);
    } else {
      Unique(n - 1, k, q, r - 1);
    }
  }

  lemma Unique(n: int, k: nat, q: int, r: nat)
    requires k > 0 && n == q * k + r && r < k
    ensures n / k == q
  {
    var d := n / k - q;
    assert n == (n / k) * k + n % k;
    assert d * k == r - n % k;
    if d >= 1 { Times(d, k); }
    if d <= -1 { Times(-d, k); }
  }

  lemma Times(d: int, k: nat)
    requires d >= 1
    ensures d * k >= k
  {}

  /** Months before March belong to the previous shifted year. */
  lemma MonthStep(month: int)
    requires 1 <= month <= 11 && month != 2
    ensures DayOfYear(month + 1, 1) == DayOfYear(month, DaysIn(1970, month)) + 1
  {}

  lemma YearEnd()
    ensures DayOfYear(1, 1) == DayOfYear(12, 31) + 1
    ensures DayOfYear(3, 1) == 0 && DayOfYear(2, 28) == 364 && DayOfYear(2, 29) == 365
  {}

  /** The formula moves by one exactly when the calendar does. */
  lemma NextDayIsOneMore(d: Date)
    requires ValidDate(d)
    ensures ValidDate(NextDay(d)) && EraDays(NextDay(d)) == EraDays(d) + 1
  {
    hide YearDays;
    if d.day == DaysIn(d.year, d.month) {
      YearEnd();
      if d.month == 2 {
        YearStep(d.year);
      } else if d.month < 12 {
        MonthStep(d.month);
      }
      hide DayOfYear;
    }
  }

  lemma EpochIsZero()
    ensures EraDays(EPOCH) == 0
  {
    YearDaysFlat(1969);
    hide YearDays;
    assert DayOfYear(1, 1) == 306;
  }

  /** The formula is the count of days since the epoch. */
  lemma {:induction false} EraDaysCounts(n: nat)
    ensures ValidDate(DayAt(n)) && EraDays(DayAt(n)) == n
  {
    if n == 0 {
      EpochIsZero();
    } else {
      EraDaysCounts(n - 1);
      NextDayIsOneMore(DayAt(n - 1));
    }
  }

  function PreviousDay(d: Date): Date {
    if d.day > 1 then d.(day := d.day - 1)
    else if d.month > 1 then Date(d.year, d.month - 1, DaysIn(d.year, d.month - 1))
    else Date(d.year - 1, 12, 31)
  }

  lemma PreviousThenNext(d: Date)
    requires ValidDate(d) && d != EPOCH
    ensures ValidDate(PreviousDay(d)) && NextDay(PreviousDay(d)) == d
  {}

  lemma {:induction false} EraDaysNonnegative(d: Date)
    requires ValidDate(d)
    ensures EraDays(d) >= 0
    decreases d.year, d.month, d.day
  {
    hide EraDays, ValidDate, NextDay, PreviousDay, DaysIn;
    if d == EPOCH {
      EpochIsZero();
    } else {
      PreviousThenNext(d);
      PreviousIsBefore(d);
      EraDaysNonnegative(PreviousDay(d));
      NextDayIsOneMore(PreviousDay(d));
    }
  }

  lemma PreviousIsBefore(d: Date)
    requires ValidDate(d) && d != EPOCH
    ensures var p := PreviousDay(d);
      && d.year >= 0 && d.month >= 0 && d.day >= 0 && p.year >= 0 && p.month >= 0 && p.day >= 0
      && (p.year < d.year || (p.year == d.year && (p.month < d.month || (p.month == d.month && p.day < d.day))))
  {}

  /** And every valid date is counted: the formula says on which day. */
  lemma {:induction false} EveryDateIsCounted(d: Date, n: nat)
    requires ValidDate(d) && EraDays(d) == n
    ensures DayAt(n) == d
    decreases n
  {
    hide EraDays, ValidDate, NextDay, PreviousDay;
    if d == EPOCH {
      EpochIsZero();
    } else {
      PreviousThenNext(d);
      NextDayIsOneMore(PreviousDay(d));
      EraDaysNonnegative(PreviousDay(d));
      EveryDateIsCounted(PreviousDay(d), n - 1);
    }
  }

  // ------------------------------------------------------------------- timestamps

  datatype Stamp = Stamp(date: Date, hour: int, minute: int, second: int, millis: int)

  /** The years the daemon accepts end at 9999. */
  predicate ValidStamp(s: Stamp) {
    ValidDate(s.date) && s.date.year <= 9999 && 0 <= s.hour <= 23 && 0 <= s.minute <= 59 && 0 <= s.second <= 59 && 0 <= s.millis <= 999
  }

  function EpochMillis(s: Stamp): int {
    (((EraDays(s.date) * 24 + s.hour) * 60 + s.minute) * 60 + s.second) * 1000 + s.millis
  }

  predicate DateBefore(a: Date, b: Date) {
    a.year < b.year || (a.year == b.year && (a.month < b.month || (a.month == b.month && a.day < b.day)))
  }

  predicate Before(a: Stamp, b: Stamp) {
    DateBefore(a.date, b.date) || (a.date == b.date &&
      (a.hour < b.hour || (a.hour == b.hour &&
        (a.minute < b.minute || (a.minute == b.minute &&
          (a.second < b.second || (a.second == b.second && a.millis < b.millis)))))))
  }

  /** A timestamp on the `n`-th day after the epoch stands for 86400000 milliseconds
      a day and its time of day; every date is some such day. */
  lemma MillisSinceTheEpoch(s: Stamp)
    requires ValidStamp(s)
    ensures exists n: nat :: DayAt(n) == s.date &&
              EpochMillis(s) == 86_400_000 * n + 3_600_000 * s.hour + 60_000 * s.minute + 1_000 * s.second + s.millis
  {
    EraDaysNonnegative(s.date);
    EveryDateIsCounted(s.date, EraDays(s.date));
    hide EraDays, DayAt;
    var n: nat := EraDays(s.date);
    assert DayAt(n) == s.date;
  }

  /** Consecutive days differ by exactly 86400000 milliseconds. */
  lemma NextDayIsADayLater(s: Stamp)
    requires ValidStamp(s)
    ensures EpochMillis(s.(date := NextDay(s.date))) == EpochMillis(s) + 86_400_000
  {
    NextDayIsOneMore(s.date);
    hide EraDays, NextDay;
  }

  lemma {:induction false} DatesAreOrdered(a: Date, b: Date)
    requires ValidDate(a) && ValidDate(b) && DateBefore(a, b)
    ensures EraDays(a) < EraDays(b)
    decreases b.year, b.month, b.day
  {
    hide EraDays, NextDay, PreviousDay;
    EarliestDate(a, b);
    PreviousThenNext(b);
    PreviousIsBefore(b);
    NextDayIsOneMore(PreviousDay(b));
    LastBefore(a, b);
    if a != PreviousDay(b) {
      DatesAreOrdered(a, PreviousDay(b));
    }
  }

  lemma EarliestDate(a: Date, b: Date)
    requires ValidDate(a) && ValidDate(b) && DateBefore(a, b)
    ensures b != EPOCH
  {}

  /** Nothing lies between a date and the day before it. */
  lemma LastBefore(a: Date, b: Date)
    requires ValidDate(a) && ValidDate(b) && DateBefore(a, b)
    ensures a == PreviousDay(b) || DateBefore(a, PreviousDay(b))
  {}

  /** The conversion preserves order. */
  lemma MillisPreserveOrder(a: Stamp, b: Stamp)
    requires ValidStamp(a) && ValidStamp(b) && Before(a, b)
    ensures EpochMillis(a) < EpochMillis(b)
  {
    if a.date != b.date {
      DatesAreOrdered(a.date, b.date);
    }
    hide EraDays;
  }

  // -------------------------------------------------------------------- reading

  function Digits(text: string): (n: nat)
    ensures n <= |text|
  {
    if text != [] && IsDigit(text[0]) then 1 + Digits(text[1..]) else 0
  }

  function DigitValue(c: char): int { c as int - '0' as int }

  /** A decimal fraction of a second, cut to milliseconds. */
  function Fraction(digits: string): int {
    (if |digits| > 0 then 100 * DigitValue(digits[0]) else 0)
    + (if |digits| > 1 then 10 * DigitValue(digits[1]) else 0)
    + (if |digits| > 2 then DigitValue(digits[2]) else 0)
  }

  /** The digits as a whole number, and one followed by as many zeros. */
  function DigitsValue(digits: string): int {
    if digits == [] then 0 else 10 * DigitsValue(digits[..|digits| - 1]) + DigitValue(digits[|digits| - 1])
  }

  function Tens(n: nat): int { if n == 0 then 1 else 10 * Tens(n - 1) }

  lemma ShortFraction(digits: string)
    requires 1 <= |digits| <= 3
    ensures Fraction(digits) * Tens(|digits|) == DigitsValue(digits) * 1000
  {
    var one, two := digits[..1], if |digits| > 1 then digits[..2] else [];
    assert one[..0] == [] && DigitsValue(one) == DigitValue(digits[0]);
    assert Tens(1) == 10 && Tens(2) == 100 && Tens(3) == 1000;
    if |digits| == 1 {
      assert digits == one;
    } else {
      assert two[..1] == one && DigitsValue(two) == 10 * DigitsValue(one) + DigitValue(digits[1]);
      assert |digits| == 2 ==> digits == two;
    }
  }

  /** The milliseconds are the fraction cut, not rounded: of the decimal fraction
      0.digits they are the whole thousandths. */
  lemma {:induction false} FractionIsCut(digits: string)
    requires |digits| >= 1 && forall i :: 0 <= i < |digits| ==> IsDigit(digits[i])
    ensures Fraction(digits) * Tens(|digits|) <= DigitsValue(digits) * 1000
    ensures DigitsValue(digits) * 1000 < (Fraction(digits) + 1) * Tens(|digits|)
    ensures |digits| >= 3 ==> (DigitsValue(digits) + 1) * 1000 <= (Fraction(digits) + 1) * Tens(|digits|)
  {
    var k := |digits|;
    if k <= 3 {
      ShortFraction(digits);
      TensArePositive(k);
      assert (Fraction(digits) + 1) * Tens(k) == Fraction(digits) * Tens(k) + Tens(k);
      assert k == 3 ==> Tens(3) == 10 * Tens(2) && Tens(2) == 10 * Tens(1) && Tens(1) == 10;
    } else {
      var front := digits[..k - 1];
      FractionIsCut(front);
      assert Fraction(front) == Fraction(digits);
      Scale(Fraction(digits), Tens(k - 1), DigitsValue(front), DigitValue(digits[k - 1]));
    }
  }

  lemma Scale(f: int, t: int, v: int, c: int)
    requires f * t <= v * 1000 && (v + 1) * 1000 <= (f + 1) * t && 0 <= c <= 9
    ensures f * (10 * t) <= (10 * v + c) * 1000 && (10 * v + c + 1) * 1000 <= (f + 1) * (10 * t)
  {
    assert f * (10 * t) == 10 * (f * t);
    assert (f + 1) * (10 * t) == 10 * ((f + 1) * t);
  }

  lemma {:induction false} TensArePositive(n: nat)
    ensures Tens(n) >= 1
  {
    if n > 0 {
      TensArePositive(n - 1);
    }
  }

  /** What may follow the seconds: an optional fraction, then Z, then the end. */
  predicate ValidTail(tail: string) {
    tail == "Z" ||
    (tail != [] && tail[0] == '.' && Digits(tail[1..]) > 0 && tail[1 + Digits(tail[1..])..] == "Z")
  }

  function TailMillis(tail: string): int {
    if tail != [] && tail[0] == '.' then Fraction(tail[1..1 + Digits(tail[1..])]) else 0
  }

  /** The first three digits so far, as a number. */
  function Leading(digits: string): int {
    if |digits| == 0 then 0
    else if |digits| == 1 then DigitValue(digits[0])
    else if |digits| == 2 then 10 * DigitValue(digits[0]) + DigitValue(digits[1])
    else 100 * DigitValue(digits[0]) + 10 * DigitValue(digits[1]) + DigitValue(digits[2])
  }

  lemma {:induction false} DigitsAre(text: string, n: nat)
    requires n <= |text| && (forall i :: 0 <= i < n ==> IsDigit(text[i])) && (n == |text| || !IsDigit(text[n]))
    ensures Digits(text) == n
  {
    if n > 0 {
      DigitsAre(text[1..], n - 1);
    }
  }

  /** Reads what follows the seconds. */
  method ReadTail(tail: string) returns (ok: bool, millis: int)
    ensures ok == ValidTail(tail) && (ok ==> millis == TailMillis(tail) && 0 <= millis <= 999)
  {
    millis := 0;
    var at := 0;
    if |tail| > 0 && tail[0] == '.' {
      var rest, n := tail[1..], 0;
      while n < |rest| && IsDigit(rest[n])
        invariant n <= |rest| && (forall i :: 0 <= i < n ==> IsDigit(rest[i])) && millis == Leading(rest[..n])
      {
        if n < 3 {
          millis := millis * 10 + DigitValue(rest[n]);
        }
        n := n + 1;
      }
      DigitsAre(rest, n);
      hide Digits;
      if n == 0 {
        return false, 0;
      }
      var digits := n;
      while digits < 3
        invariant n <= digits <= n + 2 && (n >= 3 ==> digits == n) && (n < 3 ==> digits <= 3)
        invariant digits == n ==> millis == Leading(rest[..n])
        invariant digits == n + 1 ==> millis == 10 * Leading(rest[..n])
        invariant digits == n + 2 ==> millis == 100 * Leading(rest[..n])
      {
        millis := millis * 10;
        digits := digits + 1;
      }
      assert tail[1..1 + n] == rest[..n] && millis == Fraction(rest[..n]);
      at := 1 + n;
    }
    ok := at + 1 == |tail| && tail[at] == 'Z';
    assert ok <==> tail[at..] == "Z";
    if at == 0 {
      assert tail[0..] == tail;
    }
  }

  /** A timestamp's six numbers and what follows them, as milliseconds. */
  method EpochMilliseconds(date: Date, hour: int, minute: int, second: int, tail: string) returns (ok: bool, millis: int)
    ensures ok == (ValidStamp(Stamp(date, hour, minute, second, 0)) && ValidTail(tail))
    ensures ok ==> millis == EpochMillis(Stamp(date, hour, minute, second, TailMillis(tail)))
  {
    if date.year < 1970 || date.year > 9999 || date.month < 1 || date.month > 12 || hour < 0 || hour > 23 ||
       minute < 0 || minute > 59 || second < 0 || second > 59 || date.day < 1 || date.day > DaysIn(date.year, date.month) {
      return false, 0;
    }
    var fraction;
    ok, fraction := ReadTail(tail);
    if !ok {
      return false, 0;
    }
    var year := date.year;
    if date.month <= 2 {
      year := year - 1;
    }
    var era := year / 400;
    var yearOfEra := year - era * 400;
    var dayOfEra := yearOfEra * 365 + yearOfEra / 4 - yearOfEra / 100 + DayOfYear(date.month, date.day);
    var days := era * 146097 + dayOfEra - 719468;
    millis := (((days * 24 + hour) * 60 + minute) * 60 + second) * 1000 + fraction;
  }
}
