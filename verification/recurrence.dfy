/** Month arithmetic with a permanent anchor day, and the occurrences it generates. */
module Recurrence {
  import opened Calendar
  import opened Domain

  /** `Unknown` stands for every frequency string the application does not schedule. */
  datatype Frequency = Monthly | Quarterly | Annually | EveryDays | Unknown

  datatype ScheduledPayment = ScheduledPayment(
    id: Id,
    owner: Id,
    amount: int,
    frequency: Frequency,
    intervalDays: int,
    startDate: Time,
    endDate: Option<Time>,
    nextDueAt: Time,
    lastPostedAt: Option<Time>,
    autoPost: bool,
    reminderDays: int,
    paused: bool,
    deleted: bool)

  function FrequencyMonths(frequency: Frequency): int {
    match frequency
    case Monthly => 1
    case Quarterly => 3
    case Annually => 12
    case EveryDays | Unknown => 0
  }

  function WholeSeconds(clock: int): int { clock - clock % NANOS_PER_SECOND }

  /** Day 0 of the following month is the last day of this one. */
  function DaysInMonth(month: int): int {
    DayOfMonth(DateOf(month + 1, 0, 0))
  }

  /** The last day found by normalising day 0 of the next month is the month's length. */
  lemma DayZeroIsLastDay(month: int)
    ensures DaysInMonth(month) == DaysIn(month)
  {
    hide MonthStart;
    MonthsAreContiguous(month);
    assert DateOf(month + 1, 0, 0) == DateOf(month, DaysIn(month), 0);
    DecodeEncoded(month, DaysIn(month), 0);
  }

  /**
   Moves `at` by whole months, landing on the anchor day or on the target
   month's last day. An anchor below 1 means the day of `at` itself. The clock
   loses its nanoseconds.
   */
  function AddMonthsClamped(at: Time, months: int, anchorDay: int): Time {
    var target := MonthOf(at) + months;
    var wanted := if anchorDay < 1 then DayOfMonth(at) else anchorDay;
    var last := DaysInMonth(target);
    DateOf(target, if wanted > last then last else wanted, WholeSeconds(ClockOf(at)))
  }

  function NextPaymentDue(frequency: Frequency, intervalDays: int, anchorDay: int, current: Time): Time {
    if FrequencyMonths(frequency) > 0 then AddMonthsClamped(current, FrequencyMonths(frequency), anchorDay)
    else if frequency == EveryDays then AddDate(current, 0, 0, if intervalDays < 1 then 1 else intervalDays)
    else current
  }

  function NextDueFor(payment: ScheduledPayment, current: Time): Time {
    NextPaymentDue(payment.frequency, payment.intervalDays, DayOfMonth(payment.startDate), current)
  }

  predicate Finished(payment: ScheduledPayment, dueAt: Time) {
    payment.endDate.Some? && payment.endDate.value < dueAt
  }

  function ReminderDueAt(payment: ScheduledPayment, dueAt: Time): Option<Time> {
    if payment.reminderDays <= 0 then None else Some(AddDate(dueAt, 0, 0, -payment.reminderDays))
  }

  /** A notice is due exactly when the payment asks for one, so many whole days ahead. */
  lemma ReminderMeans(payment: ScheduledPayment, dueAt: Time)
    ensures ReminderDueAt(payment, dueAt).Some? <==> 1 <= payment.reminderDays
    ensures ReminderDueAt(payment, dueAt).Some? ==>
              ReminderDueAt(payment, dueAt).value + payment.reminderDays * 86_400_000_000_000 == dueAt
  {
    hide AddDate;
    AddDays(dueAt, -payment.reminderDays);
  }

  /** The n-th occurrence of a payment; the start date is occurrence 0. */
  function Occurrence(payment: ScheduledPayment, n: nat): Time {
    if n == 0 then payment.startDate else NextDueFor(payment, Occurrence(payment, n - 1))
  }

  /** Where a clamped jump lands: the right month, min(anchor, month length), clock in whole seconds. */
  lemma ClampedLanding(at: Time, months: int, anchorDay: int)
    requires 1 <= anchorDay
    ensures var landed := AddMonthsClamped(at, months, anchorDay);
            var target := MonthOf(at) + months;
            && MonthOf(landed) == target
            && DayOfMonth(landed) == (if anchorDay < DaysIn(target) then anchorDay else DaysIn(target))
            && ClockOf(landed) == WholeSeconds(ClockOf(at))
  {
    hide MonthStart, MonthOfDay;
    var target := MonthOf(at) + months;
    MonthsAreContiguous(target);
    DayZeroIsLastDay(target);
    DecodeEncoded(target, if anchorDay < DaysIn(target) then anchorDay else DaysIn(target), WholeSeconds(ClockOf(at)));
  }

  /** Two jumps with one anchor are one jump: no drift, however short the month between. */
  lemma ClampedJumpsCompose(at: Time, first: int, second: int, anchorDay: int)
    requires 1 <= anchorDay
    ensures AddMonthsClamped(AddMonthsClamped(at, first, anchorDay), second, anchorDay)
            == AddMonthsClamped(at, first + second, anchorDay)
  {
    hide MonthStart, MonthOfDay;
    ClampedLanding(at, first, anchorDay);
    WholeSecondsOnce(ClockOf(at));
  }

  lemma WholeSecondsOnce(clock: int)
    ensures WholeSeconds(WholeSeconds(clock)) == WholeSeconds(clock)
  {
  }

  /** Walking n steps from the start date is one clamped jump of n times the frequency. */
  lemma {:induction false} OccurrenceIsOneJump(payment: ScheduledPayment, n: nat)
    requires FrequencyMonths(payment.frequency) > 0 && 1 <= n
    ensures Occurrence(payment, n)
            == AddMonthsClamped(payment.startDate, n * FrequencyMonths(payment.frequency), DayOfMonth(payment.startDate))
  {
    hide MonthStart, MonthOfDay, AddMonthsClamped;
    var months, anchor := FrequencyMonths(payment.frequency), DayOfMonth(payment.startDate);
    if n == 1 {
      assert Occurrence(payment, 0) == payment.startDate;
    } else {
      OccurrenceIsOneJump(payment, n - 1);
      ClampedJumpsCompose(payment.startDate, (n - 1) * months, months, anchor);
      assert (n - 1) * months + months == n * months;
    }
  }

  /** The start date itself is such a jump exactly when its clock is in whole seconds, because a jump drops nanoseconds. */
  lemma StartIsOneJumpIff(payment: ScheduledPayment)
    ensures Occurrence(payment, 0) == AddMonthsClamped(payment.startDate, 0, DayOfMonth(payment.startDate))
            <==> ClockOf(payment.startDate) % NANOS_PER_SECOND == 0
  {
    hide MonthStart, MonthOfDay, AddMonthsClamped;
    var start := payment.startDate;
    ClampedLanding(start, 0, DayOfMonth(start));
    EncodeDecoded(start);
    EncodeDecoded(AddMonthsClamped(start, 0, DayOfMonth(start)));
  }

  /** So every later occurrence lands on min(anchor day, length of its month). */
  lemma NoDrift(payment: ScheduledPayment, n: nat)
    requires FrequencyMonths(payment.frequency) > 0 && 1 <= n
    ensures var due := Occurrence(payment, n);
            var anchor := DayOfMonth(payment.startDate);
            && MonthOf(due) == MonthOf(payment.startDate) + n * FrequencyMonths(payment.frequency)
            && DayOfMonth(due) == (if anchor < DaysIn(MonthOf(due)) then anchor else DaysIn(MonthOf(due)))
  {
    hide MonthStart, MonthOfDay, AddMonthsClamped;
    OccurrenceIsOneJump(payment, n);
    ClampedLanding(payment.startDate, n * FrequencyMonths(payment.frequency), DayOfMonth(payment.startDate));
  }

  /** Occurrences of a day interval are evenly spaced. */
  lemma {:induction false} DayIntervalsAreEven(payment: ScheduledPayment, n: nat)
    requires payment.frequency == EveryDays
    ensures var step := if payment.intervalDays < 1 then 1 else payment.intervalDays;
            Occurrence(payment, n) == payment.startDate + n * step * NANOS_PER_DAY
  {
    hide MonthStart, MonthOfDay, AddDate;
    if n > 0 {
      var step := if payment.intervalDays < 1 then 1 else payment.intervalDays;
      DayIntervalsAreEven(payment, n - 1);
      AddDays(Occurrence(payment, n - 1), step);
      assert (n - 1) * step + step == n * step;
    }
  }

  /** What each frequency means on the calendar: a month, three months, a year, or so many days from one occurrence to the next. */
  lemma FrequencyMeans(payment: ScheduledPayment, n: nat)
    ensures var start, due := payment.startDate, Occurrence(payment, n);
            match payment.frequency
            case Monthly => MonthOf(due) == MonthOf(start) + n
            case Quarterly => MonthOf(due) == MonthOf(start) + 3 * n
            case Annually => YearOf(due) == YearOf(start) + n && MonthOf(due) % 12 == MonthOf(start) % 12
            case EveryDays => due == start + n * (if payment.intervalDays < 1 then 1 else payment.intervalDays) * 86_400_000_000_000
            case Unknown => due == start
  {
    hide MonthStart, MonthOfDay, NextPaymentDue, DayOfMonth, MonthOf;
    match payment.frequency
    case Monthly | Quarterly | Annually =>
      if 1 <= n {
        NoDrift(payment, n);
      }
    case EveryDays => DayIntervalsAreEven(payment, n);
    case Unknown => UnknownStands(payment, n);
  }

  lemma {:induction false} UnknownStands(payment: ScheduledPayment, n: nat)
    requires payment.frequency == Unknown
    ensures Occurrence(payment, n) == payment.startDate
  {
    if 0 < n {
      UnknownStands(payment, n - 1);
    }
  }

  lemma LaterMonthIsLater(t: Time, u: Time)
    requires MonthOf(t) < MonthOf(u)
    ensures t < u
  {
    hide MonthStart;
    MonthStartSpread(MonthOf(t) + 1, MonthOf(u));
    assert DayOf(t) < DayOf(u);
  }

  /** A scheduled frequency always moves strictly forward. */
  lemma NextDueIsLater(payment: ScheduledPayment, current: Time)
    requires payment.frequency != Unknown
    ensures current < NextDueFor(payment, current)
  {
    hide MonthStart, MonthOfDay, AddMonthsClamped, AddDate;
    if payment.frequency == EveryDays {
      AddDays(current, if payment.intervalDays < 1 then 1 else payment.intervalDays);
    } else {
      ClampedLanding(current, FrequencyMonths(payment.frequency), DayOfMonth(payment.startDate));
      LaterMonthIsLater(current, NextDueFor(payment, current));
    }
  }

  lemma {:induction false} OccurrencesIncrease(payment: ScheduledPayment, i: nat, j: nat)
    requires payment.frequency != Unknown && i < j
    ensures Occurrence(payment, i) < Occurrence(payment, j)
    decreases j
  {
    hide NextDueFor;
    NextDueIsLater(payment, Occurrence(payment, j - 1));
    if i < j - 1 {
      OccurrencesIncrease(payment, i, j - 1);
    }
  }

  /** Which occurrence an edit restarts from: the first after the last posting, or the 1000th. */
  ghost predicate RestartsAt(payment: ScheduledPayment, k: nat) {
    if payment.lastPostedAt.None? then k == 0
    else
      && k <= 1000
      && (forall j: nat | j < k :: Occurrence(payment, j) <= payment.lastPostedAt.value)
      && (k < 1000 ==> payment.lastPostedAt.value < Occurrence(payment, k))
  }

  /** The cursor after an edit of the recurrence, walked from the new start date in at most 1000 steps. */
  method RescheduleFrom(payment: ScheduledPayment) returns (next: Time)
    ensures exists k: nat :: RestartsAt(payment, k) && next == Occurrence(payment, k)
  {
    hide NextDueFor, MonthStart, MonthOfDay;
    next := payment.startDate;
    if payment.lastPostedAt.None? {
      assert RestartsAt(payment, 0);
      return;
    }
    var i: nat := 0;
    while i < 1000 && next <= payment.lastPostedAt.value
      invariant i <= 1000
      invariant next == Occurrence(payment, i)
      invariant forall j: nat | j < i :: Occurrence(payment, j) <= payment.lastPostedAt.value
    {
      next := NextDueFor(payment, next);
      i := i + 1;
    }
    assert RestartsAt(payment, i);
  }
}
