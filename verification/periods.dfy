/** Rollup, budget and report periods, and the proof that each kind tiles the timeline. */
module Periods {
  import opened Calendar
  import opened Domain

  /** Truncates an instant to the start of its period; weeks start on Monday. */
  function PeriodStart(period: AnalyticsPeriod, at: Time): Time {
    var day := DateOf(MonthOf(at), DayOfMonth(at), 0);
    match period
    case Day => day
    case Week => AddDate(day, 0, 0, -((Weekday(day) + 6) % 7))
    case Month => DateOf(MonthOf(at), 1, 0)
    case Year => DateOf(12 * YearOf(at), 1, 0)
  }

  /** The exclusive end of the period that starts at `start`. */
  function PeriodEnd(period: AnalyticsPeriod, start: Time): Time {
    match period
    case Day => AddDate(start, 0, 0, 1)
    case Week => AddDate(start, 0, 0, 7)
    case Month => AddDate(start, 0, 1, 0)
    case Year => AddDate(start, 1, 0, 0)
  }

  // ---- The same periods counted in whole days

  function StartDay(period: AnalyticsPeriod, day: int): int {
    match period
    case Day => day
    case Week => day - day % 7
    case Month => MonthStart(MonthOfDay(day))
    case Year => MonthStart(12 * (MonthOfDay(day) / 12))
  }

  /** The day after the last day of the period that contains `day`. */
  function EndDay(period: AnalyticsPeriod, day: int): int {
    match period
    case Day => day + 1
    case Week => day - day % 7 + 7
    case Month => MonthStart(MonthOfDay(day) + 1)
    case Year => MonthStart(12 * (MonthOfDay(day) / 12) + 12)
  }

  lemma AtMidnight(at: Time)
    ensures PeriodStart(Day, at) == DayOf(at) * NANOS_PER_DAY
    ensures DayOf(PeriodStart(Day, at)) == DayOf(at)
  {
    DayClock(DayOf(at), 0);
  }

  /** A period starts at midnight of its start day. */
  lemma StartIsMidnight(period: AnalyticsPeriod, at: Time)
    ensures PeriodStart(period, at) == StartDay(period, DayOf(at)) * NANOS_PER_DAY
  {
    hide MonthStart, MonthOfDay, AddDate;
    if period == Week {
      var day := PeriodStart(Day, at);
      AtMidnight(at);
      AddDays(day, -((Weekday(day) + 6) % 7));
      MondayOffset(DayOf(at));
    }
  }

  /** Go's weekday arithmetic counts the days since Monday. */
  lemma MondayOffset(day: int)
    ensures ((day + 1) % 7 + 6) % 7 == day % 7
  {
  }

  lemma WholeDay(day: int)
    ensures DayOf(day * NANOS_PER_DAY) == day && ClockOf(day * NANOS_PER_DAY) == 0
  {
    DayClock(day, 0);
  }

  /** A period ends at midnight of its end day. */
  lemma EndIsMidnight(period: AnalyticsPeriod, at: Time)
    ensures PeriodEnd(period, PeriodStart(period, at)) == EndDay(period, DayOf(at)) * NANOS_PER_DAY
  {
    hide MonthStart, MonthOfDay;
    var start := PeriodStart(period, at);
    StartIsMidnight(period, at);
    WholeDay(StartDay(period, DayOf(at)));
    match period
    case Day => AddDays(start, 1);
    case Week => AddDays(start, 7);
    case Month => FirstOfMonth(MonthOf(at), start);
    case Year => FirstOfMonth(12 * YearOf(at), start);
  }

  lemma FirstOfMonth(month: int, t: Time)
    requires t == MonthStart(month) * NANOS_PER_DAY
    ensures MonthOf(t) == month && DayOfMonth(t) == 1 && ClockOf(t) == 0
  {
    MonthsAreContiguous(month);
    DecodeEncoded(month, 1, 0);
  }

  /** A day belongs to a run of months exactly when its month does. */
  lemma DayInMonths(from: int, to: int, day: int)
    ensures MonthStart(from) <= day < MonthStart(to) <==> from <= MonthOfDay(day) < to
  {
    var month := MonthOfDay(day);
    if from <= month { MonthStartSpread(from, month); } else { MonthStartSpread(month + 1, from); }
    if month < to { MonthStartSpread(month + 1, to); } else { MonthStartSpread(to, month); }
  }

  /** Two days share a period exactly when one lies between the other's bounds. */
  lemma DaysPartition(period: AnalyticsPeriod, day: int, other: int)
    ensures StartDay(period, other) == StartDay(period, day)
            <==> StartDay(period, day) <= other < EndDay(period, day)
  {
    hide MonthStart, MonthOfDay;
    var month, otherMonth := MonthOfDay(day), MonthOfDay(other);
    match period
    case Day =>
    case Week => WeeksPartition(day, other);
    case Month =>
      DayInMonths(month, month + 1, other);
      MonthStartsDiffer(month, otherMonth);
    case Year =>
      var january, otherJanuary := 12 * (month / 12), 12 * (otherMonth / 12);
      DayInMonths(january, january + 12, other);
      MonthStartsDiffer(january, otherJanuary);
  }

  lemma WeeksPartition(day: int, other: int)
    ensures other - other % 7 == day - day % 7 <==> day - day % 7 <= other < day - day % 7 + 7
  {
  }

  lemma MonthStartsDiffer(a: int, b: int)
    ensures MonthStart(a) == MonthStart(b) <==> a == b
  {
    if a < b { MonthStartSpread(a, b); } else { MonthStartSpread(b, a); }
  }

  /** The end day of a period is the start day of the next one. */
  lemma EndDayStarts(period: AnalyticsPeriod, day: int)
    ensures StartDay(period, EndDay(period, day)) == EndDay(period, day)
  {
    hide MonthStart, MonthOfDay;
    match period
    case Day =>
    case Week => MondayIsMonday(day);
    case Month => MonthStartDecodes(MonthOfDay(day) + 1);
    case Year => MonthStartDecodes(12 * (MonthOfDay(day) / 12 + 1));
  }

  lemma MondayIsMonday(day: int)
    ensures (day - day % 7 + 7) % 7 == 0
  {
  }

  lemma MonthStartDecodes(month: int)
    ensures MonthOfDay(MonthStart(month)) == month
  {
    MonthsAreContiguous(month);
    MonthOfDayUnique(MonthStart(month), month);
  }

  /** Days, in instants: t lies in the days [a, b) exactly when its day does. */
  lemma DayInterval(t: Time, a: int, b: int)
    ensures a * NANOS_PER_DAY <= t < b * NANOS_PER_DAY <==> a <= DayOf(t) < b
  {
  }

  // ---- What holds of every period kind

  /** Two instants share a period exactly when one lies between the bounds of the other's. */
  lemma PeriodsPartitionTime(period: AnalyticsPeriod, at: Time, other: Time)
    ensures PeriodStart(period, other) == PeriodStart(period, at)
            <==> PeriodStart(period, at) <= other < PeriodEnd(period, PeriodStart(period, at))
  {
    StartIsMidnight(period, at);
    StartIsMidnight(period, other);
    EndIsMidnight(period, at);
    DaysPartition(period, DayOf(at), DayOf(other));
    DayInterval(other, StartDay(period, DayOf(at)), EndDay(period, DayOf(at)));
  }

  /** Every instant is inside its own period. */
  lemma PeriodContains(period: AnalyticsPeriod, at: Time)
    ensures PeriodStart(period, at) <= at < PeriodEnd(period, PeriodStart(period, at))
  {
    PeriodsPartitionTime(period, at, at);
  }

  /** Consecutive periods meet: a period's end is the start of the period that follows it. */
  lemma PeriodsAreConsecutive(period: AnalyticsPeriod, at: Time)
    ensures var end := PeriodEnd(period, PeriodStart(period, at));
            PeriodStart(period, end) == end
  {
    EndIsMidnight(period, at);
    WholeDay(EndDay(period, DayOf(at)));
    StartIsMidnight(period, EndDay(period, DayOf(at)) * NANOS_PER_DAY);
    EndDayStarts(period, DayOf(at));
  }

  /** Days nest inside every coarser period, so no day straddles a period's bounds. */
  lemma DaysNest(period: AnalyticsPeriod, at: Time)
    ensures PeriodStart(period, PeriodStart(Day, at)) == PeriodStart(period, at)
  {
    AtMidnight(at);
    StartIsMidnight(period, at);
    StartIsMidnight(period, PeriodStart(Day, at));
  }

  /** What the four periods are, in calendar fields: a day, a week from Monday to Sunday, a month of a year, a year. */
  lemma PeriodMeans(period: AnalyticsPeriod, at: Time, t: Time)
    ensures PeriodStart(period, at) <= t < PeriodEnd(period, PeriodStart(period, at)) <==>
              match period
              case Day => DayOf(t) == DayOf(at)
              case Week => DayOf(t) / 7 == DayOf(at) / 7
              case Month => MonthOf(t) == MonthOf(at)
              case Year => YearOf(t) == YearOf(at)
  {
    hide MonthStart, MonthOfDay, PeriodStart, PeriodEnd;
    PeriodsPartitionTime(period, at, t);
    StartIsMidnight(period, at);
    StartIsMidnight(period, t);
    MonthStartsDiffer(MonthOf(at), MonthOf(t));
    MonthStartsDiffer(12 * YearOf(at), 12 * YearOf(t));
  }

  /** Weeks begin on a Monday. */
  lemma WeeksBeginOnMonday(at: Time)
    ensures Weekday(PeriodStart(Week, at)) == 1 && ClockOf(PeriodStart(Week, at)) == 0
  {
    hide PeriodStart;
    StartIsMidnight(Week, at);
    WholeDay(StartDay(Week, DayOf(at)));
  }

  // ---- Budget windows

  function CalendarPeriod(period: BudgetPeriod): AnalyticsPeriod
    requires period != Custom
  {
    match period
    case Daily => Day
    case Weekly => Week
    case Monthly => Month
    case Yearly => Year
  }

  /**
   The half-open window of a budget at an instant. A custom window runs from
   the day of the budget's creation, whatever the instant.
   */
  function BudgetWindow(budget: Budget, at: Time): (Time, Time) {
    if budget.period == Custom then
      var start := PeriodStart(Day, budget.createdAt);
      (start, if budget.dueAt.Some? then budget.dueAt.value else AddDate(start, 100, 0, 0))
    else
      var period := CalendarPeriod(budget.period);
      var start := PeriodStart(period, at);
      (start, PeriodEnd(period, start))
  }

  /** A calendar window contains the time it was asked for, and windows partition the timeline. */
  lemma CalendarWindowsPartition(budget: Budget, at: Time, other: Time)
    requires budget.period != Custom
    ensures var window := BudgetWindow(budget, at);
            && window.0 <= at < window.1
            && (window.0 <= other < window.1 <==> BudgetWindow(budget, other) == window)
            && BudgetWindow(budget, window.1).0 == window.1
  {
    var period := CalendarPeriod(budget.period);
    PeriodContains(period, at);
    PeriodsPartitionTime(period, at, other);
    PeriodsAreConsecutive(period, at);
  }

  /** What a budget's window holds, in calendar fields. */
  lemma WindowMeans(budget: Budget, at: Time, t: Time)
    requires budget.period != Custom
    ensures BudgetWindow(budget, at).0 <= t < BudgetWindow(budget, at).1 <==>
              match budget.period
              case Daily => DayOf(t) == DayOf(at)
              case Weekly => DayOf(t) / 7 == DayOf(at) / 7
              case Monthly => MonthOf(t) == MonthOf(at)
              case Yearly => YearOf(t) == YearOf(at)
              case Custom => false
  {
    hide PeriodStart, PeriodEnd, MonthOf, YearOf;
    PeriodMeans(CalendarPeriod(budget.period), at, t);
  }

  /** A custom window begins at midnight of the creation day and ends at the due date, or a century on at the same date. */
  lemma CustomWindowMeans(budget: Budget, at: Time)
    requires budget.period == Custom
    ensures var (start, end) := BudgetWindow(budget, at);
            && DayOf(start) == DayOf(budget.createdAt) && ClockOf(start) == 0
            && (budget.dueAt.Some? ==> end == budget.dueAt.value)
            && (budget.dueAt.None? && DayOfMonth(start) <= DaysIn(MonthOf(start) + 1200) ==>
                  MonthOf(end) == MonthOf(start) + 1200 && DayOfMonth(end) == DayOfMonth(start) && ClockOf(end) == 0)
  {
    hide AddDate, MonthOf, DayOfMonth, PeriodStart;
    var start := PeriodStart(Day, budget.createdAt);
    AtMidnight(budget.createdAt);
    WholeDay(DayOf(budget.createdAt));
    if budget.dueAt.None? && DayOfMonth(start) <= DaysIn(MonthOf(start) + 1200) {
      AddDateKeepsDay(start, 100, 0);
    }
  }

  /** A custom window is the same at every instant, so it need not contain the one asked for. */
  lemma CustomWindowIgnoresTheInstant(budget: Budget, at: Time, other: Time)
    requires budget.period == Custom
    ensures BudgetWindow(budget, at) == BudgetWindow(budget, other)
    ensures BudgetWindow(budget, at).0 <= at <==> DayOf(budget.createdAt) <= DayOf(at)
  {
    AtMidnight(budget.createdAt);
  }

  /** Where a custom window ends: the due date, or the same date a hundred years on. */
  function CustomEnd(budget: Budget): Time {
    if budget.dueAt.Some? then budget.dueAt.value else AddDate(PeriodStart(Day, budget.createdAt), 100, 0, 0)
  }

  /** A window contains the instant it was asked for exactly when it is a calendar window or the instant falls in the budget's life. */
  lemma WindowContainsIff(budget: Budget, at: Time)
    ensures var window := BudgetWindow(budget, at);
            window.0 <= at < window.1
            <==> budget.period != Custom || (DayOf(budget.createdAt) <= DayOf(at) && at < CustomEnd(budget))
  {
    hide PeriodStart, PeriodEnd, AddDate;
    if budget.period == Custom {
      CustomWindowIgnoresTheInstant(budget, at, at);
    } else {
      CalendarWindowsPartition(budget, at, at);
    }
  }

  /** So an expense from the day before a custom budget was created is outside the window found for it. */
  lemma CustomWindowCanMiss()
    ensures exists budget: Budget, at: Time ::
              var window := BudgetWindow(budget, at); !(window.0 <= at < window.1)
  {
    var budget := Budget("b", "o", "c", 100, 80, Custom, None, NANOS_PER_DAY, false);
    WindowContainsIff(budget, 0);
    assert !(BudgetWindow(budget, 0).0 <= 0 < BudgetWindow(budget, 0).1);
  }

  // ---- Report periods

  /** The start of the most recently completed week, month or year; a day has no completed report. */
  function LastCompletedReportPeriod(kind: AnalyticsPeriod, now: Time): Time {
    var current := PeriodStart(kind, now);
    match kind
    case Week => AddDate(current, 0, 0, -7)
    case Month => AddDate(current, 0, -1, 0)
    case Year => AddDate(current, -1, 0, 0)
    case Day => current
  }

  function ReportPeriodEnd(kind: AnalyticsPeriod, start: Time): Time {
    match kind
    case Week => AddDate(start, 0, 0, 7)
    case Month => AddDate(start, 0, 1, 0)
    case Year => AddDate(start, 1, 0, 0)
    case Day => start
  }

  function PreviousStartDay(kind: AnalyticsPeriod, day: int): int {
    match kind
    case Week => day - day % 7 - 7
    case Month => MonthStart(MonthOfDay(day) - 1)
    case Year => MonthStart(12 * (MonthOfDay(day) / 12) - 12)
    case Day => day
  }

  lemma LastReportIsPreviousPeriod(kind: AnalyticsPeriod, now: Time)
    requires kind != Day
    ensures LastCompletedReportPeriod(kind, now) == PreviousStartDay(kind, DayOf(now)) * NANOS_PER_DAY
  {
    hide MonthStart;
    var current := PeriodStart(kind, now);
    StartIsMidnight(kind, now);
    match kind
    case Week => AddDays(current, -7);
    case Month => FirstOfMonth(MonthOf(now), current);
    case Year => FirstOfMonth(12 * YearOf(now), current);
  }

  lemma PreviousPeriodIsAdjacent(kind: AnalyticsPeriod, day: int)
    requires kind != Day
    ensures var previous := PreviousStartDay(kind, day);
            StartDay(kind, previous) == previous < EndDay(kind, previous) == StartDay(kind, day)
  {
    hide MonthStart, MonthOfDay;
    match kind
    case Week => MondayIsMonday(day - 14);
    case Month =>
      var month := MonthOfDay(day);
      MonthStartDecodes(month - 1);
      MonthStartSpread(month - 1, month);
    case Year =>
      var year := MonthOfDay(day) / 12;
      MonthStartDecodes(12 * (year - 1));
      MonthStartSpread(12 * (year - 1), 12 * year);
  }

  /**
   The last completed report period is a period of its kind, strictly before
   now, and ends exactly where the current period starts.
   */
  lemma LastReportEndsAtCurrentStart(kind: AnalyticsPeriod, now: Time)
    requires kind != Day
    ensures var last := LastCompletedReportPeriod(kind, now);
            && last == PeriodStart(kind, last)
            && last < ReportPeriodEnd(kind, last) == PeriodStart(kind, now) <= now
  {
    hide MonthStart, StartDay, EndDay, PreviousStartDay, PeriodStart;
    var last := LastCompletedReportPeriod(kind, now);
    var previous := PreviousStartDay(kind, DayOf(now));
    LastReportIsPreviousPeriod(kind, now);
    PreviousPeriodIsAdjacent(kind, DayOf(now));
    WholeDay(previous);
    StartIsMidnight(kind, now);
    StartIsMidnight(kind, last);
    EndIsMidnight(kind, last);
    PeriodContains(kind, now);
  }
}
