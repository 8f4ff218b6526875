/**
 The proleptic Gregorian calendar the service's UTC arithmetic rests on.

 A `Time` is a number of nanoseconds since 0001-01-01T00:00:00Z, so the zero
 time of the original is 0. Every calendar computation goes through the month
 index `12 * year + (month - 1)`: normalising an out-of-range month into the
 neighbouring years is then plain addition.
 */
module Calendar {

  type Time = int

  const NANOS_PER_SECOND := 1_000_000_000
  const NANOS_PER_DAY := 86_400_000_000_000

  /** The leap rule of Appendix C of RFC 3339. */
  predicate IsLeap(year: int) {
    year % 4 == 0 && (year % 100 != 0 || year % 400 == 0)
  }

  /** Length of a month, from its month index. */
  function DaysIn(month: int): int {
    var m := month % 12 + 1;
    if m == 2 then (if IsLeap(month / 12) then 29 else 28)
    else if m == 4 || m == 6 || m == 9 || m == 11 then 30
    else 31
  }

  /**
   Days from 0001-01-01 to the first of a month; negative before year 1. The
   calendar is the sequence of its month lengths, laid end to end.
   */
  function MonthStart(month: int): int
    decreases if month < 12 then 12 - month else month - 12
  {
    if month == 12 then 0
    else if 12 < month then MonthStart(month - 1) + DaysIn(month - 1)
    else MonthStart(month + 1) - DaysIn(month)
  }

  lemma MonthsAreContiguous(month: int)
    ensures MonthStart(month + 1) == MonthStart(month) + DaysIn(month)
    ensures 28 <= DaysIn(month) <= 31
  {
  }

  /** Month starts spread by at least 28 and at most 31 days a month. */
  lemma {:induction false} MonthStartSpread(a: int, b: int)
    requires a <= b
    ensures MonthStart(a) + 28 * (b - a) <= MonthStart(b) <= MonthStart(a) + 31 * (b - a)
    decreases b - a
  {
    if a < b {
      MonthsAreContiguous(b - 1);
      MonthStartSpread(a, b - 1);
    }
  }

  /** The month index whose days include `day`, found by walking up from a lower bound. */
  function MonthOfDay(day: int): (month: int)
    ensures MonthStart(month) <= day < MonthStart(month + 1)
  {
    var low := if 0 <= day then 12 + day / 31 else 12 + day / 28;
    assert MonthStart(12) == 0;
    assert MonthStart(low) <= day by {
      if 0 <= day { MonthStartSpread(12, low); } else { MonthStartSpread(low, 12); }
    }
    WalkToMonth(low, day)
  }

  function WalkToMonth(month: int, day: int): (found: int)
    requires MonthStart(month) <= day
    ensures MonthStart(found) <= day < MonthStart(found + 1)
    decreases day - MonthStart(month)
  {
    MonthsAreContiguous(month);
    if MonthStart(month + 1) <= day then WalkToMonth(month + 1, day) else month
  }

  /** Exactly one month contains a day, so decoding a date is unambiguous. */
  lemma MonthOfDayUnique(day: int, month: int)
    requires MonthStart(month) <= day < MonthStart(month + 1)
    ensures MonthOfDay(day) == month
  {
    var found := MonthOfDay(day);
    if found < month {
      MonthStartSpread(found + 1, month);
    } else if month < found {
      MonthStartSpread(month + 1, found);
    }
  }

  function DayOf(t: Time): int { t / NANOS_PER_DAY }

  function ClockOf(t: Time): int { t % NANOS_PER_DAY }

  function MonthOf(t: Time): int { MonthOfDay(DayOf(t)) }

  /** The day of the month, from 1. */
  function DayOfMonth(t: Time): (day: int)
    ensures 1 <= day <= DaysIn(MonthOf(t))
  {
    MonthsAreContiguous(MonthOf(t));
    DayOf(t) - MonthStart(MonthOf(t)) + 1
  }

  function YearOf(t: Time): int { MonthOf(t) / 12 }

  /** Sunday is 0; 0001-01-01 was a Monday. */
  function Weekday(t: Time): int { (DayOf(t) + 1) % 7 }

  /** A date built from a month index and a day, either of which may be out of range. */
  function DateOf(month: int, day: int, clock: int): Time {
    (MonthStart(month) + day - 1) * NANOS_PER_DAY + clock
  }

  /** Calendar addition: years, months and days are added field by field, then normalised. */
  function AddDate(t: Time, years: int, months: int, days: int): Time {
    DateOf(MonthOf(t) + 12 * years + months, DayOfMonth(t) + days, ClockOf(t))
  }

  /** Encoding a valid date and decoding it gives the same fields back. */
  lemma DecodeEncoded(month: int, day: int, clock: int)
    requires 1 <= day <= DaysIn(month) && 0 <= clock < NANOS_PER_DAY
    ensures var t := DateOf(month, day, clock);
            DayOf(t) == MonthStart(month) + day - 1 && ClockOf(t) == clock
            && MonthOf(t) == month && DayOfMonth(t) == day
  {
    var d := MonthStart(month) + day - 1;
    DayClock(d, clock);
    MonthsAreContiguous(month);
    MonthOfDayUnique(d, month);
  }

  /** Decoding any instant and encoding its fields gives the same instant back. */
  lemma EncodeDecoded(t: Time)
    ensures DateOf(MonthOf(t), DayOfMonth(t), ClockOf(t)) == t
  {
  }

  lemma DayClock(day: int, clock: int)
    requires 0 <= clock < NANOS_PER_DAY
    ensures DayOf(day * NANOS_PER_DAY + clock) == day
    ensures ClockOf(day * NANOS_PER_DAY + clock) == clock
  {
  }

  /** Adding days alone is a shift by whole days, whatever months it crosses. */
  lemma AddDays(t: Time, days: int)
    ensures AddDate(t, 0, 0, days) == t + days * NANOS_PER_DAY
  {
    EncodeDecoded(t);
  }

  /** A year is twelve months: 365 days, and one more by the leap rule. */
  lemma YearLength(year: int)
    ensures MonthStart(12 * year + 12) == MonthStart(12 * year) + if IsLeap(year) then 366 else 365
  {
    MonthTable(year);
    MonthsAreContiguous(12 * year + 11);
    YearAndMonth(year, 11);
  }

  lemma YearAndMonth(year: int, month: int)
    requires 0 <= month < 12
    ensures (12 * year + month) / 12 == year && (12 * year + month) % 12 == month
  {
  }

  /** Where each month begins in its year. */
  lemma MonthTable(year: int)
    ensures var first, leap := MonthStart(12 * year), if IsLeap(year) then 1 else 0;
            && MonthStart(12 * year + 1) == first + 31 && MonthStart(12 * year + 2) == first + 59 + leap
            && MonthStart(12 * year + 3) == first + 90 + leap && MonthStart(12 * year + 4) == first + 120 + leap
            && MonthStart(12 * year + 5) == first + 151 + leap && MonthStart(12 * year + 6) == first + 181 + leap
            && MonthStart(12 * year + 7) == first + 212 + leap && MonthStart(12 * year + 8) == first + 243 + leap
            && MonthStart(12 * year + 9) == first + 273 + leap && MonthStart(12 * year + 10) == first + 304 + leap
            && MonthStart(12 * year + 11) == first + 334 + leap
  {
    hide MonthStart, IsLeap;
    NextMonth(year, 0); NextMonth(year, 1); NextMonth(year, 2); NextMonth(year, 3); NextMonth(year, 4); NextMonth(year, 5);
    NextMonth(year, 6); NextMonth(year, 7); NextMonth(year, 8); NextMonth(year, 9); NextMonth(year, 10);
  }

  lemma NextMonth(year: int, month: int)
    requires 0 <= month < 12
    ensures MonthStart(12 * year + month + 1) == MonthStart(12 * year + month) + DaysIn(12 * year + month)
    ensures DaysIn(12 * year + month) ==
              if month == 1 then (if IsLeap(year) then 29 else 28) else if month in [3, 5, 8, 10] then 30 else 31
  {
    MonthsAreContiguous(12 * year + month);
    YearAndMonth(year, month);
  }

  /** Days before a year, in the usual closed form: 365 a year and a leap day every 4th, not every 100th, but every 400th. */
  lemma {:induction false} YearStartClosedForm(year: int)
    ensures MonthStart(12 * year) == 365 * (year - 1) + LeapDaysBefore(year)
    decreases if year < 1 then 1 - year else year - 1
  {
    hide MonthStart, IsLeap, LeapDaysBefore;
    LeapDaysGrow(if year <= 1 then year else year - 1);
    if year == 1 {
      FirstYearStartsAtZero();
    } else if 1 < year {
      YearStartClosedForm(year - 1);
      YearLength(year - 1);
    } else {
      YearStartClosedForm(year + 1);
      YearLength(year);
    }
  }

  function LeapDaysBefore(year: int): int {
    (year - 1) / 4 - (year - 1) / 100 + (year - 1) / 400
  }

  lemma LeapDaysGrow(year: int)
    ensures LeapDaysBefore(year + 1) == LeapDaysBefore(year) + if IsLeap(year) then 1 else 0
  {
    FourthYears(year);
    HundredthYears(year);
    FourHundredthYears(year);
  }

  lemma FourthYears(year: int)
    ensures year / 4 == (year - 1) / 4 + if year % 4 == 0 then 1 else 0
  {
  }

  lemma HundredthYears(year: int)
    ensures year / 100 == (year - 1) / 100 + if year % 100 == 0 then 1 else 0
    ensures year % 100 == 0 ==> year % 4 == 0
  {
  }

  lemma FourHundredthYears(year: int)
    ensures year / 400 == (year - 1) / 400 + if year % 400 == 0 then 1 else 0
    ensures year % 400 == 0 ==> year % 100 == 0
  {
  }

  lemma FirstYearStartsAtZero()
    ensures MonthStart(12) == 0 && LeapDaysBefore(1) == 0
  {
  }

  /** The first of January 1970 was a Thursday, 719162 days after the zero time. */
  lemma UnixEpoch()
    ensures MonthStart(12 * 1970) == 719162 && Weekday(DateOf(12 * 1970, 1, 0)) == 4
  {
    hide MonthStart;
    YearStartClosedForm(1970);
    DayClock(719162, 0);
  }

  /** Adding years and months keeps the day of the month and the clock wherever the target month has such a day. */
  lemma AddDateKeepsDay(t: Time, years: int, months: int)
    requires DayOfMonth(t) <= DaysIn(MonthOf(t) + 12 * years + months)
    ensures var moved := AddDate(t, years, months, 0);
            MonthOf(moved) == MonthOf(t) + 12 * years + months && DayOfMonth(moved) == DayOfMonth(t) && ClockOf(moved) == ClockOf(t)
  {
    hide MonthStart, MonthOfDay;
    DecodeEncoded(MonthOf(t) + 12 * years + months, DayOfMonth(t), ClockOf(t));
  }
}
