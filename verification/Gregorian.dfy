/**
 The calendar behind monthly recurrence. A local clock is a count of milliseconds read as
 proleptic Gregorian fields; a month is numbered `12 * year + month - 1`, and days are
 counted from 1 January 1970.
 */
module Gregorian {
  const DAY := 86_400_000

  predicate IsLeap(year: int) {
    year % 4 == 0 && (year % 100 != 0 || year % 400 == 0)
  }

  function MonthLength(month: int): int {
    var m := month % 12;
    if m == 1 then (if IsLeap(month / 12) then 29 else 28)
    else if m == 3 || m == 5 || m == 8 || m == 10 then 30
    else 31
  }

  const EPOCH := 12 * 1970

  /** The day number of the first of a month: months laid end to end, outwards from January 1970. */
  function FirstDay(month: int): int
    decreases if month >= EPOCH then month - EPOCH else EPOCH - month
  {
    if month == EPOCH then 0
    else if month > EPOCH then FirstDay(month - 1) + MonthLength(month - 1)
    else FirstDay(month + 1) - MonthLength(month)
  }

  /** Thirty days hath September: the months by number, February by the leap rule. */
  lemma MonthsByNumber(year: int, m: int)
    requires 1 <= m <= 12
    ensures MonthLength(12 * year + m - 1) ==
            match m
            case 2 => (if year % 4 == 0 && (year % 100 != 0 || year % 400 == 0) then 29 else 28)
            case 4 => 30
            case 6 => 30
            case 9 => 30
            case 11 => 30
            case _ => 31
  {
    assert (12 * year + m - 1) % 12 == m - 1 && (12 * year + m - 1) / 12 == year;
  }

  /** Day zero is the first of January 1970, and a year has 365 days or, in leap years, 366. */
  lemma YearsTile(year: int)
    ensures FirstDay(12 * 1970) == 0
    ensures FirstDay(12 * year + 12) - FirstDay(12 * year) ==
            if year % 4 == 0 && (year % 100 != 0 || year % 400 == 0) then 366 else 365
  {
    MonthsFollowTheAlmanac(year, 13);
  }

  lemma {:induction false} MonthsFollowTheAlmanac(year: int, m: int)
    requires 1 <= m <= 13
    ensures FirstDay(12 * year + m - 1) - FirstDay(12 * year) == DaysBefore(year, m)
    decreases m
  {
    if m > 1 {
      MonthsFollowTheAlmanac(year, m - 1);
      MonthsByNumber(year, m - 1);
      MonthsTile(12 * year + m - 2);
    }
  }

  /** The days of a year before its m-th month, from the almanac. */
  function DaysBefore(year: int, m: int): int
    requires 1 <= m <= 13
  {
    [0, 31, 59, 90, 120, 151, 181, 212, 243, 273, 304, 334, 365][m - 1] +
    (if m > 2 && year % 4 == 0 && (year % 100 != 0 || year % 400 == 0) then 1 else 0)
  }

  lemma MonthsTile(month: int)
    ensures FirstDay(month + 1) == FirstDay(month) + MonthLength(month)
    ensures 28 <= MonthLength(month) <= 31
  {
  }

  lemma {:induction false} MonthsAreOrdered(a: int, b: int)
    requires a <= b
    ensures 28 * (b - a) <= FirstDay(b) - FirstDay(a)
    decreases b - a
  {
    if a < b {
      MonthsAreOrdered(a, b - 1);
      MonthsTile(b - 1);
    }
  }

  function MonthFrom(day: int, month: int): (m: int)
    ensures FirstDay(m) <= day < FirstDay(m + 1)
    decreases if day < FirstDay(month) then FirstDay(month) - day
              else if FirstDay(month + 1) <= day then day - FirstDay(month) else 0
  {
    MonthsTile(month);
    MonthsTile(month - 1);
    if day < FirstDay(month) then MonthFrom(day, month - 1)
    else if FirstDay(month + 1) <= day then MonthFrom(day, month + 1)
    else month
  }

  /** The calendar month a local clock is in. */
  function MonthOf(local: int): (m: int)
    ensures FirstDay(m) * DAY <= local < FirstDay(m + 1) * DAY
  {
    MonthFrom(local / DAY, local / DAY / 31)
  }

  lemma MonthIsUnique(local: int, m: int)
    requires FirstDay(m) * DAY <= local < FirstDay(m + 1) * DAY
    ensures m == MonthOf(local)
  {
    var o := MonthOf(local);
    if m < o {
      MonthsAreOrdered(m + 1, o);
    } else if o < m {
      MonthsAreOrdered(o + 1, m);
    }
  }

  /** Later clocks are in later months, and four weeks never reach past the next one. */
  lemma MonthsFollowClocks(a: int, b: int)
    requires a <= b
    ensures MonthOf(a) <= MonthOf(b)
    ensures b <= a + 28 * DAY ==> MonthOf(b) <= MonthOf(a) + 1
  {
    var m, n := MonthOf(a), MonthOf(b);
    if n < m {
      MonthsAreOrdered(n + 1, m);
    } else if m + 2 <= n {
      MonthsAreOrdered(m + 2, n);
      MonthsTile(m + 1);
    }
  }

  function Min(a: int, b: int): int {
    if a <= b then a else b
  }

  /** A local clock as calendar fields; the day of the month counts from zero. */
  datatype Fields = Fields(month: int, day: int, time: int)

  predicate Valid(f: Fields) {
    0 <= f.day < MonthLength(f.month) && 0 <= f.time < DAY
  }

  function FieldsOf(local: int): (f: Fields)
    ensures Valid(f)
  {
    MonthsTile(MonthOf(local));
    Fields(MonthOf(local), local / DAY - FirstDay(MonthOf(local)), local % DAY)
  }

  function Millis(f: Fields): int {
    (FirstDay(f.month) + f.day) * DAY + f.time
  }

  /** Fields and clocks are two views of the same thing. */
  lemma FieldsRoundTrip(local: int, f: Fields)
    ensures Millis(FieldsOf(local)) == local
    ensures Valid(f) ==> FieldsOf(Millis(f)) == f
  {
    if Valid(f) {
      MonthsTile(f.month);
      MonthIsUnique(Millis(f), f.month);
      assert Millis(f) / DAY == FirstDay(f.month) + f.day;
    }
  }

  /** A local clock is in the month its day falls into, on that day counted from the month's first, at that time of day. */
  lemma FieldsInFull(local: int)
    ensures var f := FieldsOf(local);
            local == (FirstDay(f.month) + f.day) * 86_400_000 + f.time && 0 <= f.time < 86_400_000 &&
            FirstDay(f.month) <= FirstDay(f.month) + f.day < FirstDay(f.month + 1)
  {
    MonthsTile(MonthOf(local));
  }

  /** `plus({ months: n })`: same clock time, same day, or the last day of a shorter month. */
  function PlusMonths(f: Fields, n: int): Fields {
    Fields(f.month + n, Min(f.day, MonthLength(f.month + n) - 1), f.time)
  }

  function MonthsLater(local: int, n: int): int {
    Millis(PlusMonths(FieldsOf(local), n))
  }

  /** Adding months lands in the month asked for, on the anchor's day or that month's last, at the same time. */
  lemma MonthsLaterFields(local: int, n: int)
    ensures FieldsOf(MonthsLater(local, n)) == PlusMonths(FieldsOf(local), n)
  {
    MonthsTile(FieldsOf(local).month + n);
    FieldsRoundTrip(local, PlusMonths(FieldsOf(local), n));
  }

  /** The clamped date stays inside the month asked for. */
  lemma MonthsLaterStaysInMonth(local: int, n: int)
    ensures FirstDay(MonthOf(local) + n) * DAY <= MonthsLater(local, n) < FirstDay(MonthOf(local) + n + 1) * DAY
  {
  }

  /** Two months before a clock's own is at least four weeks before it; two months after, at least four after. */
  lemma TwoMonthsBefore(local: int, n: int, other: int)
    requires MonthOf(local) + n + 2 == MonthOf(other)
    ensures MonthsLater(local, n) <= other - 28 * DAY
  {
    MonthsLaterStaysInMonth(local, n);
    MonthsTile(MonthOf(other) - 1);
  }

  lemma TwoMonthsAfter(local: int, n: int, other: int)
    requires MonthOf(local) + n == MonthOf(other) + 2
    ensures MonthsLater(local, n) >= other + 28 * DAY
  {
    MonthsLaterStaysInMonth(local, n);
    MonthsTile(MonthOf(other) + 1);
  }

  /** However the day is clamped, successive months stay at least four weeks apart. */
  lemma MonthsAreFourWeeksApart(f: Fields, n: int)
    requires Valid(f)
    ensures Millis(PlusMonths(f, n + 1)) - Millis(PlusMonths(f, n)) >= 28 * DAY
  {
  }

  /** What stepping from the previous occurrence, rather than from the anchor, would give. */
  function Stepped(f: Fields, n: nat): Fields {
    if n == 0 then f else PlusMonths(Stepped(f, n - 1), 1)
  }

  /** Each of the `n` months after `month` has the (zero-based) day. */
  predicate NeverShorter(month: int, day: int, n: nat) {
    forall later | month < later <= month + n :: day < MonthLength(later)
  }

  /** Stepping loses the day for good at the first short month: it keeps exactly the days every month so far had. */
  lemma {:induction false} SteppingClampsForGood(f: Fields, n: nat, day: int)
    requires day <= f.day
    ensures var s := Stepped(f, n);
            s.month == f.month + n && s.time == f.time && s.day <= f.day &&
            (n > 0 ==> s.day < MonthLength(f.month + n)) &&
            (day <= s.day <==> NeverShorter(f.month, day, n))
  {
    if n > 0 {
      SteppingClampsForGood(f, n - 1, day);
      assert NeverShorter(f.month, day, n) <==>
             NeverShorter(f.month, day, n - 1) && day < MonthLength(f.month + n);
    }
  }

  /**
   The anchor never compounds a clamp: the anchored date and the stepped one agree exactly
   when no month on the way was too short for the day the anchored date shows.
   */
  lemma AnchoringAgreesWithSteppingExactlyWhen(f: Fields, n: nat)
    requires Valid(f)
    ensures PlusMonths(f, n) == Stepped(f, n) <==> NeverShorter(f.month, PlusMonths(f, n).day, n)
  {
    SteppingClampsForGood(f, n, PlusMonths(f, n).day);
  }
}
