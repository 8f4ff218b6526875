/**
 What a budget usage row should hold, which windows an expense change touches,
 and why recomputing only those keeps every row equal to the full sum.
 */
module Spending {
  import opened Calendar
  import opened Domain
  import opened Periods
  import opened Sums

  /** The projection's state; `budgets` is the budget store it reads, removed budgets included. */
  datatype State = State(
    budgets: map<Id, Budget>,
    contributions: map<Id, Contribution>,
    usage: map<(Id, Time), Usage>)

  datatype Window = Window(budget: Budget, start: Time, end: Time)

  // ---- The from-scratch sum

  /** What one contribution adds to a window; the currency plays no part. */
  function Spent(c: Contribution, owner: Id, category: Id, from: Time, to: Time): int {
    if c.active && c.owner == owner && c.category == category && from <= c.occurredAt < to then c.amount else 0
  }

  ghost function Spends(contributions: map<Id, Contribution>, owner: Id, category: Id, from: Time, to: Time): Id -> int {
    id => if id in contributions then Spent(contributions[id], owner, category, from, to) else 0
  }

  ghost function SpendIn(contributions: map<Id, Contribution>, owner: Id, category: Id, from: Time, to: Time): int {
    Sum(contributions.Keys, Spends(contributions, owner, category, from, to))
  }

  /** Replacing one contribution moves a window's sum by the difference. */
  lemma SpendChange(contributions: map<Id, Contribution>, id: Id, c: Contribution, owner: Id, category: Id, from: Time, to: Time)
    ensures SpendIn(contributions[id := c], owner, category, from, to)
            == SpendIn(contributions, owner, category, from, to) + Spent(c, owner, category, from, to)
               - if id in contributions then Spent(contributions[id], owner, category, from, to) else 0
  {
    var next := contributions[id := c];
    var f, g := Spends(contributions, owner, category, from, to), Spends(next, owner, category, from, to);
    if id in contributions {
      assert next.Keys == contributions.Keys;
      SumChange(contributions.Keys, f, g, id);
    } else {
      assert next.Keys - {id} == contributions.Keys;
      SumPick(next.Keys, g, id);
      SumSame(contributions.Keys, f, g);
    }
  }

  // ---- Windows

  function WindowEnd(budget: Budget, start: Time): Time {
    if budget.period == Custom then (if budget.dueAt.Some? then budget.dueAt.value else AddDate(start, 100, 0, 0))
    else PeriodEnd(CalendarPeriod(budget.period), start)
  }

  function WindowAt(budget: Budget, at: Time): Window {
    var (start, end) := BudgetWindow(budget, at);
    Window(budget, start, end)
  }

  /** A window's end is settled by its start, so a row's key says which window it holds. */
  lemma EndFollowsStart(budget: Budget, at: Time)
    ensures WindowAt(budget, at).end == WindowEnd(budget, WindowAt(budget, at).start)
  {
  }

  /** The scope check of the change set: only an expense with an owner, a category and a time has windows. */
  predicate Placeable(c: Contribution) {
    c.owner != "" && c.category != "" && c.occurredAt != 0
  }

  predicate Live(budgets: map<Id, Budget>, id: Id) {
    id in budgets && !budgets[id].deleted
  }

  predicate InScope(budget: Budget, c: Contribution) {
    budget.owner == c.owner && budget.category == c.category
  }

  predicate TouchedBy(budgets: map<Id, Budget>, w: Window, c: Contribution) {
    Placeable(c) && Live(budgets, w.budget.id) && w.budget == budgets[w.budget.id]
    && InScope(w.budget, c) && w == WindowAt(w.budget, c.occurredAt)
  }

  /** A live budget has a window to recompute for a contribution. */
  predicate Wants(budgets: map<Id, Budget>, id: Id, c: Contribution) {
    Live(budgets, id) && Placeable(c) && InScope(budgets[id], c)
  }

  /** The windows of every budget in scope of a contribution, each once. */
  ghost predicate AreAffected(windows: seq<Window>, budgets: map<Id, Budget>, changed: set<Contribution>) {
    && (forall w :: w in windows ==> exists c :: c in changed && TouchedBy(budgets, w, c))
    && (forall id, c :: c in changed && Wants(budgets, id, c) ==> WindowAt(budgets[id], c.occurredAt) in windows)
    && (forall i, j :: 0 <= i < j < |windows|
          ==> (windows[i].budget.id, windows[i].start) != (windows[j].budget.id, windows[j].start))
  }

  // ---- Alerts

  /** Go's integer division, which truncates toward zero. */
  function TruncDiv(a: int, b: int): int
    requires 0 < b
  {
    if 0 <= a then a / b else -((-a) / b)
  }

  function Percent(budget: Budget, spent: int): int
    requires 0 < budget.limit
  {
    TruncDiv(spent * 100, budget.limit)
  }

  /** The level an alert would be raised at: 100, the configured threshold, or none. */
  function Rung(budget: Budget, spent: int): int
    requires 0 < budget.limit
  {
    if 100 <= Percent(budget, spent) then 100
    else if budget.threshold <= Percent(budget, spent) then budget.threshold
    else 0
  }

  predicate Crosses(budget: Budget, alerted: int, spent: int) {
    0 < budget.limit && Rung(budget, spent) != 0 && alerted < Rung(budget, spent)
  }

  function AlertedFor(budget: Budget, alerted: int, spent: int): int {
    if budget.limit <= 0 then 0
    else if 100 <= Percent(budget, spent) then 100
    else if budget.threshold <= Percent(budget, spent) then (if alerted < budget.threshold then budget.threshold else alerted)
    else 0
  }

  // ---- Recomputing

  datatype Alert = Alert(budgetId: Id, owner: Id, spent: int, limit: int, percent: int, exceeded: bool, periodStart: Time)

  function Stored(usage: map<(Id, Time), Usage>, w: Window): Usage {
    var key := (w.budget.id, w.start);
    if key in usage then usage[key].(periodStart := w.start) else Usage(w.budget.id, w.start, 0, 0, 0)
  }

  ghost function WindowSpend(contributions: map<Id, Contribution>, w: Window): int {
    SpendIn(contributions, w.budget.owner, w.budget.category, w.start, w.end)
  }

  ghost function Recomputed(usage: map<(Id, Time), Usage>, contributions: map<Id, Contribution>, w: Window, now: Time): map<(Id, Time), Usage> {
    var stored := Stored(usage, w);
    var spent := WindowSpend(contributions, w);
    usage[(stored.budgetId, w.start) := stored.(spent := spent, alerted := AlertedFor(w.budget, stored.alerted, spent), updatedAt := now)]
  }

  function AlertFor(w: Window, spent: int): Alert
    requires 0 < w.budget.limit
  {
    Alert(w.budget.id, w.budget.owner, spent, w.budget.limit, Percent(w.budget, spent), 100 <= Percent(w.budget, spent), w.start)
  }

  ghost function Raised(usage: map<(Id, Time), Usage>, contributions: map<Id, Contribution>, w: Window): seq<Alert> {
    var spent := WindowSpend(contributions, w);
    if Crosses(w.budget, Stored(usage, w).alerted, spent) then [AlertFor(w, spent)] else []
  }

  ghost function RecomputedAll(usage: map<(Id, Time), Usage>, contributions: map<Id, Contribution>, windows: seq<Window>, now: Time): map<(Id, Time), Usage> {
    if windows == [] then usage
    else Recomputed(RecomputedAll(usage, contributions, windows[..|windows| - 1], now), contributions, windows[|windows| - 1], now)
  }

  ghost function RaisedAll(usage: map<(Id, Time), Usage>, contributions: map<Id, Contribution>, windows: seq<Window>, now: Time): seq<Alert> {
    if windows == [] then []
    else
      var front := windows[..|windows| - 1];
      RaisedAll(usage, contributions, front, now)
      + Raised(RecomputedAll(usage, contributions, front, now), contributions, windows[|windows| - 1])
  }

  // ---- Rows stay exact

  ghost predicate RowsOk(st: State) {
    && (forall id :: id in st.budgets ==> st.budgets[id].id == id && WellScoped(st.budgets[id]))
    && (forall id :: id in st.contributions ==> st.contributions[id].expenseId == id)
    && (forall key :: key in st.usage ==> RowOk(st.budgets, st.usage, key))
  }

  /** Every budget has an owner and a category. */
  predicate WellScoped(budget: Budget) { budget.owner != "" && budget.category != "" }

  /** A row belongs to a known budget and its key is the start of one of the budget's windows. */
  ghost predicate RowOk(budgets: map<Id, Budget>, usage: map<(Id, Time), Usage>, key: (Id, Time))
    requires key in usage
  {
    && key.0 in budgets
    && usage[key].budgetId == key.0
    && StartsAt(budgets[key.0], key.1)
  }

  predicate StartsAt(budget: Budget, start: Time) {
    WindowAt(budget, if budget.period == Custom then 0 else start).start == start
  }

  /** The row's spend is the full sum over the contributions in its window. */
  ghost predicate RowExact(st: State, key: (Id, Time))
    requires key in st.usage && key.0 in st.budgets
  {
    var budget := st.budgets[key.0];
    st.usage[key].spent == SpendIn(st.contributions, budget.owner, budget.category, key.1, WindowEnd(budget, key.1))
  }

  /** Every stored row of a live budget is exact. */
  ghost predicate SpendExact(st: State) {
    forall key :: key in st.usage && Live(st.budgets, key.0) ==> RowExact(st, key)
  }

  ghost predicate AllTimed(contributions: map<Id, Contribution>) {
    forall id :: id in contributions && contributions[id].active ==> contributions[id].occurredAt != 0
  }

  ghost predicate Invariant(st: State) {
    RowsOk(st) && SpendExact(st) && AllTimed(st.contributions)
  }

  /** The windows of one budget that contain an instant all start alike. */
  lemma WindowFound(budget: Budget, start: Time, at: Time)
    requires StartsAt(budget, start)
    requires start <= at < WindowEnd(budget, start)
    ensures WindowAt(budget, at) == Window(budget, start, WindowEnd(budget, start))
  {
    hide PeriodStart, PeriodEnd, AddDate;
    if budget.period != Custom {
      PeriodsPartitionTime(CalendarPeriod(budget.period), start, at);
    }
  }

  lemma WindowStartsItself(budget: Budget, at: Time)
    ensures StartsAt(budget, WindowAt(budget, at).start)
  {
    hide PeriodStart, PeriodEnd, AddDate;
    if budget.period != Custom {
      var period := CalendarPeriod(budget.period);
      PeriodContains(period, at);
      PeriodsPartitionTime(period, at, PeriodStart(period, at));
    }
  }

  /** Recomputing leaves the other rows alone and makes its own exact. */
  lemma {:induction false} RecomputedRows(usage: map<(Id, Time), Usage>, contributions: map<Id, Contribution>, windows: seq<Window>, now: Time)
    requires forall key :: key in usage ==> usage[key].budgetId == key.0
    ensures var after := RecomputedAll(usage, contributions, windows, now);
            && (forall key :: key in after ==> after[key].budgetId == key.0)
            && (forall w :: w in windows ==> (w.budget.id, w.start) in after)
            && (forall key :: key in after ==> key in usage || IsWindowKey(windows, key))
            && (forall key :: key in usage && !IsWindowKey(windows, key) ==> key in after && after[key] == usage[key])
  {
    hide AlertedFor, WindowSpend;
    if windows != [] {
      var front, last := windows[..|windows| - 1], windows[|windows| - 1];
      RecomputedRows(usage, contributions, front, now);
      forall key ensures IsWindowKey(windows, key) <==> IsWindowKey(front, key) || key == (last.budget.id, last.start) {
        if IsWindowKey(front, key) {
          var w :| w in front && key == (w.budget.id, w.start);
          assert w in windows;
        }
        assert last in windows;
        assert windows == front + [last];
      }
    }
  }

  ghost predicate IsWindowKey(windows: seq<Window>, key: (Id, Time)) {
    exists w :: w in windows && key == (w.budget.id, w.start)
  }

  lemma {:induction false} RecomputedIsExact(usage: map<(Id, Time), Usage>, contributions: map<Id, Contribution>, windows: seq<Window>, now: Time, w: Window)
    requires forall key :: key in usage ==> usage[key].budgetId == key.0
    requires forall i, j :: 0 <= i < j < |windows| ==> (windows[i].budget.id, windows[i].start) != (windows[j].budget.id, windows[j].start)
    requires w in windows
    ensures var after := RecomputedAll(usage, contributions, windows, now);
            (w.budget.id, w.start) in after && after[(w.budget.id, w.start)].spent == WindowSpend(contributions, w)
  {
    hide AlertedFor, WindowSpend;
    var front, last := windows[..|windows| - 1], windows[|windows| - 1];
    RecomputedRows(usage, contributions, front, now);
    if w != last {
      assert w in front;
      RecomputedIsExact(usage, contributions, front, now, w);
    }
  }

  // ---- The steps

  /** The contribution an expense event leaves behind; None when it changes nothing. */
  function NextContribution(contributions: map<Id, Contribution>, next: Contribution): Option<Contribution> {
    if next.active then Some(next)
    else if next.expenseId in contributions then Some(contributions[next.expenseId].(active := false))
    else None
  }

  function Changed(contributions: map<Id, Contribution>, next: Contribution): set<Contribution> {
    if next.expenseId in contributions then {contributions[next.expenseId], next} else {next}
  }

  /** Handling an expense event recomputes the windows it left and the windows it entered. */
  ghost predicate ExpenseStep(st: State, event: Contribution, windows: seq<Window>, now: Time, after: State) {
    match NextContribution(st.contributions, event)
    case None => after == st
    case Some(next) =>
      && after.budgets == st.budgets
      && after.contributions == st.contributions[next.expenseId := next]
      && AreAffected(windows, st.budgets, Changed(st.contributions, next))
      && after.usage == RecomputedAll(st.usage, after.contributions, windows, now)
  }

  /** A row whose window the change left alone is still exact exactly when the new contribution adds nothing to it. */
  lemma UntouchedRow(st: State, next: Contribution, key: (Id, Time))
    requires RowsOk(st) && AllTimed(st.contributions) && key in st.usage && Live(st.budgets, key.0) && RowExact(st, key)
    requires next.expenseId in st.contributions
             ==> !TouchedBy(st.budgets, Window(st.budgets[key.0], key.1, WindowEnd(st.budgets[key.0], key.1)), st.contributions[next.expenseId])
    ensures var budget := st.budgets[key.0];
            st.usage[key].spent == SpendIn(st.contributions[next.expenseId := next], budget.owner, budget.category, key.1, WindowEnd(budget, key.1))
            <==> Spent(next, budget.owner, budget.category, key.1, WindowEnd(budget, key.1)) == 0
  {
    hide WindowAt, WindowEnd, StartsAt;
    var budget := st.budgets[key.0];
    var end := WindowEnd(budget, key.1);
    SpendChange(st.contributions, next.expenseId, next, budget.owner, budget.category, key.1, end);
    if next.expenseId in st.contributions {
      var previous := st.contributions[next.expenseId];
      assert Spent(previous, budget.owner, budget.category, key.1, end) == 0 by {
        if previous.active && previous.owner == budget.owner && previous.category == budget.category && key.1 <= previous.occurredAt < end {
          assert RowOk(st.budgets, st.usage, key);
          WindowFound(budget, key.1, previous.occurredAt);
        }
      }
    }
  }

  /** Rows the event reaches only through the new contribution, which is not recomputed when it has no time. */
  ghost predicate Misses(st: State, next: Contribution, key: (Id, Time)) {
    && key in st.usage && Live(st.budgets, key.0)
    && var budget := st.budgets[key.0];
    && var window := Window(budget, key.1, WindowEnd(budget, key.1));
    && Spent(next, budget.owner, budget.category, window.start, window.end) != 0
    && !(next.expenseId in st.contributions && TouchedBy(st.budgets, window, st.contributions[next.expenseId]))
  }

  /** A row the event recomputes is exact, and the event does not miss it. */
  lemma TouchedRow(st: State, event: Contribution, windows: seq<Window>, now: Time, after: State, next: Contribution, key: (Id, Time))
    requires RowsOk(st) && ExpenseStep(st, event, windows, now, after)
    requires NextContribution(st.contributions, event) == Some(next) && IsWindowKey(windows, key)
    ensures key in after.usage && key.0 in after.budgets && RowExact(after, key) && RowOk(after.budgets, after.usage, key)
    ensures next.occurredAt == 0 ==> !Misses(st, next, key)
  {
    hide WindowAt, WindowEnd, StartsAt, SpendIn, RecomputedAll;
    var w :| w in windows && key == (w.budget.id, w.start);
    var c :| c in Changed(st.contributions, next) && TouchedBy(st.budgets, w, c);
    RecomputedRows(st.usage, after.contributions, windows, now);
    EndFollowsStart(w.budget, c.occurredAt);
    WindowStartsItself(w.budget, c.occurredAt);
    RecomputedIsExact(st.usage, after.contributions, windows, now, w);
    assert w == Window(w.budget, key.1, WindowEnd(w.budget, key.1));
  }

  /** Whether one stored row is exact after an expense event, by how the event reaches it. */
  lemma RowAfterExpense(st: State, event: Contribution, windows: seq<Window>, now: Time, after: State, next: Contribution, key: (Id, Time))
    requires Invariant(st) && ExpenseStep(st, event, windows, now, after)
    requires NextContribution(st.contributions, event) == Some(next)
    requires key in after.usage && Live(st.budgets, key.0)
    ensures RowExact(after, key) <==> next.occurredAt != 0 || !Misses(st, next, key)
    ensures RowOk(after.budgets, after.usage, key)
  {
    hide WindowAt, WindowEnd, StartsAt, SpendIn, RecomputedAll, RowExact, Misses, AreAffected;
    RecomputedRows(st.usage, after.contributions, windows, now);
    if IsWindowKey(windows, key) {
      TouchedRow(st, event, windows, now, after, next, key);
    } else {
      PassedOverRow(st, event, windows, now, after, next, key);
    }
  }

  /** A row the event does not recompute stays exact unless the event misses it. */
  lemma PassedOverRow(st: State, event: Contribution, windows: seq<Window>, now: Time, after: State, next: Contribution, key: (Id, Time))
    requires Invariant(st) && ExpenseStep(st, event, windows, now, after)
    requires NextContribution(st.contributions, event) == Some(next)
    requires key in st.usage && Live(st.budgets, key.0) && !IsWindowKey(windows, key)
    requires key in after.usage && after.usage[key] == st.usage[key]
    ensures RowExact(after, key) <==> next.occurredAt != 0 || !Misses(st, next, key)
    ensures RowOk(after.budgets, after.usage, key)
  {
    hide WindowAt, WindowEnd, StartsAt, SpendIn, RecomputedAll;
    var budget := st.budgets[key.0];
    var window := Window(budget, key.1, WindowEnd(budget, key.1));
    assert RowOk(st.budgets, st.usage, key);
    assert window !in windows;
    UntouchedRow(st, next, key);
    if next.occurredAt != 0 && Spent(next, budget.owner, budget.category, key.1, window.end) != 0 {
      WindowFound(budget, key.1, next.occurredAt);
    }
  }

  /**
   An expense event keeps every row of every live budget exact exactly when the
   recorded contribution has a time, or no row of a live budget counts it
   without also being recomputed for the previous one.
   */
  lemma ExpenseKeepsExactIff(st: State, event: Contribution, windows: seq<Window>, now: Time, after: State, next: Contribution)
    requires Invariant(st) && ExpenseStep(st, event, windows, now, after)
    requires NextContribution(st.contributions, event) == Some(next)
    ensures RowsOk(after)
    ensures SpendExact(after) <==> next.occurredAt != 0 || forall key :: !Misses(st, next, key)
  {
    hide WindowAt, WindowEnd, StartsAt, SpendIn, Recomputed, WindowSpend, AreAffected, Misses, RowExact, RowOk;
    RecomputedRowsKept(st, event, windows, now, after, next);
    forall key | key in after.usage && Live(st.budgets, key.0) ensures RowExact(after, key) <==> next.occurredAt != 0 || !Misses(st, next, key) {
      RowAfterExpense(st, event, windows, now, after, next, key);
    }
    if SpendExact(after) && next.occurredAt == 0 {
      forall key ensures !Misses(st, next, key) {
        if Misses(st, next, key) {
          MissedRowRemains(st, event, windows, now, after, next, key);
        }
      }
    }
  }

  lemma MissedRowRemains(st: State, event: Contribution, windows: seq<Window>, now: Time, after: State, next: Contribution, key: (Id, Time))
    requires Invariant(st) && ExpenseStep(st, event, windows, now, after)
    requires NextContribution(st.contributions, event) == Some(next) && Misses(st, next, key) && next.occurredAt == 0
    ensures key in after.usage && Live(after.budgets, key.0) && !RowExact(after, key)
  {
    hide WindowAt, WindowEnd, StartsAt, SpendIn, Recomputed, WindowSpend, AreAffected, RowExact, RowOk;
    RecomputedRowsKept(st, event, windows, now, after, next);
    RowAfterExpense(st, event, windows, now, after, next, key);
  }

  lemma RecomputedRowsKept(st: State, event: Contribution, windows: seq<Window>, now: Time, after: State, next: Contribution)
    requires Invariant(st) && ExpenseStep(st, event, windows, now, after)
    requires NextContribution(st.contributions, event) == Some(next)
    ensures RowsOk(after)
    ensures st.usage.Keys <= after.usage.Keys
  {
    hide SpendIn, Recomputed, WindowSpend;
    RecomputedRows(st.usage, after.contributions, windows, now);
    forall key | key in after.usage ensures RowOk(after.budgets, after.usage, key) {
      if IsWindowKey(windows, key) {
        var w :| w in windows && key == (w.budget.id, w.start);
        var c :| c in Changed(st.contributions, next) && TouchedBy(st.budgets, w, c);
        WindowStartsItself(w.budget, c.occurredAt);
      } else {
        assert RowOk(st.budgets, st.usage, key);
      }
    }
    forall key | key in st.usage ensures key in after.usage {
      if IsWindowKey(windows, key) {
        var w :| w in windows && key == (w.budget.id, w.start);
      }
    }
  }

  /** The gap is real: an expense at the zero time is summed by the day it falls in but recomputes nothing. */
  lemma ZeroTimeExpenseGoesStale()
    ensures exists st: State, event: Contribution, windows: seq<Window>, after: State ::
              Invariant(st) && ExpenseStep(st, event, windows, 1, after) && !SpendExact(after)
  {
    hide PeriodEnd, MonthStart, MonthOfDay;
    var budget := Budget("b", "o", "c", 100, 80, Daily, None, 1, false);
    var key := ("b", 0);
    var event := Contribution("e", "o", "c", "EUR", [], 5, 0, true);
    var st := State(map["b" := budget], map[], map[key := Usage("b", 0, 0, 0, 0)]);
    var after := st.(contributions := map["e" := event]);
    AtMidnight(0);
    EndIsMidnight(Day, 0);
    SpendChange(map[], "e", event, "o", "c", 0, WindowEnd(budget, 0));
    assert map[]["e" := event] == after.contributions;
    assert RowExact(st, key);
    assert RowOk(st.budgets, st.usage, key);
    assert Invariant(st);
    assert Changed(st.contributions, event) == {event};
    assert AreAffected([], st.budgets, {event});
    assert ExpenseStep(st, event, [], 1, after);
    assert !RowExact(after, key);
  }

  // ---- Whole runs

  datatype Change =
    | ExpenseEvent(contribution: Contribution, windows: seq<Window>, now: Time)
    | CreateBudget(budget: Budget)
    | EditLimits(id: Id, limit: int, threshold: int)
    | RemoveBudget(id: Id)
    | BudgetEvent(id: Id, removed: bool, now: Time)

  function WithoutRows(usage: map<(Id, Time), Usage>, id: Id): map<(Id, Time), Usage> {
    map key | key in usage && key.0 != id :: usage[key]
  }

  /** Budget ids are new when created, edits reach the limit and the threshold only, and removal is final. */
  ghost predicate Next(st: State, change: Change, after: State) {
    match change
    case ExpenseEvent(c, windows, now) => ExpenseStep(st, c, windows, now, after)
    case CreateBudget(budget) =>
      budget.id !in st.budgets && after == st.(budgets := st.budgets[budget.id := budget])
    case EditLimits(id, limit, threshold) =>
      Live(st.budgets, id) && after == st.(budgets := st.budgets[id := st.budgets[id].(limit := limit, threshold := threshold)])
    case RemoveBudget(id) =>
      id in st.budgets && after == st.(budgets := st.budgets[id := st.budgets[id].(deleted := true)])
    case BudgetEvent(id, removed, now) =>
      if removed || !Live(st.budgets, id) then after == st.(usage := WithoutRows(st.usage, id))
      else after == st.(usage := RecomputedAll(st.usage, st.contributions, [WindowAt(st.budgets[id], now)], now))
  }

  /** What the commands guarantee: an expense that counts has a time, a new budget an owner and a category. */
  predicate Admissible(change: Change) {
    && (change.ExpenseEvent? && change.contribution.active ==> change.contribution.occurredAt != 0)
    && (change.CreateBudget? ==> WellScoped(change.budget))
  }

  lemma BudgetEventKeeps(st: State, id: Id, now: Time, after: State)
    requires Invariant(st) && Live(st.budgets, id)
    requires after == st.(usage := RecomputedAll(st.usage, st.contributions, [WindowAt(st.budgets[id], now)], now))
    ensures Invariant(after)
  {
    hide WindowAt, WindowEnd, StartsAt, SpendIn, Recomputed;
    var window := WindowAt(st.budgets[id], now);
    RecomputedRows(st.usage, st.contributions, [window], now);
    RecomputedIsExact(st.usage, st.contributions, [window], now, window);
    WindowStartsItself(st.budgets[id], now);
    EndFollowsStart(st.budgets[id], now);
    WindowsOwnBudget(st.budgets[id], now);
    forall key | key in after.usage
      ensures RowOk(after.budgets, after.usage, key) && (Live(after.budgets, key.0) ==> RowExact(after, key))
    {
      if IsWindowKey([window], key) {
        assert key == (id, window.start);
      } else {
        assert RowOk(st.budgets, st.usage, key);
        assert Live(st.budgets, key.0) ==> RowExact(st, key);
      }
    }
  }

  lemma WindowsOwnBudget(budget: Budget, at: Time)
    ensures WindowAt(budget, at).budget == budget
  {
  }

  lemma ChangeKeeps(st: State, change: Change, after: State)
    requires Invariant(st) && Next(st, change, after) && Admissible(change)
    ensures Invariant(after)
  {
    hide WindowAt, WindowEnd, StartsAt, SpendIn, RecomputedAll, WindowSpend, AreAffected;
    match change
    case ExpenseEvent(c, windows, now) =>
      var next := NextContribution(st.contributions, c);
      if next.Some? {
        ExpenseKeepsExactIff(st, c, windows, now, after, next.value);
      }
    case CreateBudget(budget) =>
      forall key | key in st.usage
        ensures RowOk(after.budgets, after.usage, key) && (Live(after.budgets, key.0) ==> RowExact(after, key))
      {
        assert RowOk(st.budgets, st.usage, key);
        assert Live(st.budgets, key.0) ==> RowExact(st, key);
      }
    case EditLimits(id, limit, threshold) =>
      RewrittenBudgetKeeps(st, id, st.budgets[id].(limit := limit, threshold := threshold));
    case RemoveBudget(id) =>
      RewrittenBudgetKeeps(st, id, st.budgets[id].(deleted := true));
    case BudgetEvent(id, removed, now) =>
      if removed || !Live(st.budgets, id) {
        forall key | key in after.usage
          ensures RowOk(after.budgets, after.usage, key) && (Live(after.budgets, key.0) ==> RowExact(after, key))
        {
          assert RowOk(st.budgets, st.usage, key);
          assert Live(st.budgets, key.0) ==> RowExact(st, key);
        }
      } else {
        BudgetEventKeeps(st, id, now, after);
      }
  }

  /** The parts of a budget that place its windows and choose its expenses. */
  predicate SameWindows(a: Budget, b: Budget) { a == b.(limit := a.limit, threshold := a.threshold, deleted := a.deleted) }

  /** Rewriting a budget's limit, threshold or removal mark moves none of its windows. */
  lemma RewrittenBudgetKeeps(st: State, id: Id, budget: Budget)
    requires Invariant(st) && id in st.budgets && SameWindows(budget, st.budgets[id]) && (Live(st.budgets, id) || budget.deleted)
    ensures Invariant(st.(budgets := st.budgets[id := budget]))
  {
    hide WindowAt, WindowEnd, StartsAt, SpendIn;
    var after := st.(budgets := st.budgets[id := budget]);
    forall key | key in st.usage
      ensures RowOk(after.budgets, after.usage, key) && (Live(after.budgets, key.0) ==> RowExact(after, key))
    {
      assert RowOk(st.budgets, st.usage, key);
      assert Live(st.budgets, key.0) ==> RowExact(st, key);
      SameWindowsSameRows(budget, st.budgets[id], key.1);
    }
  }

  lemma SameWindowsSameRows(a: Budget, b: Budget, start: Time)
    requires SameWindows(a, b)
    ensures StartsAt(a, start) == StartsAt(b, start) && WindowEnd(a, start) == WindowEnd(b, start)
  {
  }

  ghost predicate IsRun(run: seq<State>, changes: seq<Change>) {
    && |run| == |changes| + 1 && run[0] == State(map[], map[], map[])
    && forall i :: 0 <= i < |changes| ==> Next(run[i], changes[i], run[i + 1])
  }

  /**
   Over any run of expense events, budget creations, limit edits, removals and
   budget events, every stored row of a live budget equals the full sum over its
   window, though each event recomputes only the windows it touches.
   */
  lemma {:induction false} UsageIsExact(run: seq<State>, changes: seq<Change>)
    requires IsRun(run, changes) && forall i :: 0 <= i < |changes| ==> Admissible(changes[i])
    ensures Invariant(run[|changes|]) && SpendExact(run[|changes|])
    decreases |changes|
  {
    hide Next, Admissible;
    if changes != [] {
      UsageIsExact(run[..|changes|], changes[..|changes| - 1]);
      ChangeKeeps(run[|changes| - 1], changes[|changes| - 1], run[|changes|]);
    }
  }

  // ---- The alert ladder

  /** Spend has fallen under both rungs, which clears the record. */
  predicate Below(budget: Budget, spent: int)
    requires 0 < budget.limit
  {
    Percent(budget, spent) < 100 && Percent(budget, spent) < budget.threshold
  }

  /** The record after a sequence of recomputed spends, from a row never alerted. */
  function Level(budget: Budget, spends: seq<int>): int {
    if spends == [] then 0
    else AlertedFor(budget, Level(budget, spends[..|spends| - 1]), spends[|spends| - 1])
  }

  /** Spend i has not been cleared by a later fall below the threshold, nor is one itself. */
  ghost predicate Standing(budget: Budget, spends: seq<int>, i: int)
    requires 0 < budget.limit && 0 <= i < |spends|
  {
    forall j :: i <= j < |spends| ==> !Below(budget, spends[j])
  }

  /** One recomputed spend either clears the record or raises it to the rung reached. */
  lemma LadderStep(budget: Budget, alerted: int, spent: int)
    requires 0 < budget.limit && 0 <= alerted <= 100
    ensures Below(budget, spent) ==> AlertedFor(budget, alerted, spent) == 0
    ensures !Below(budget, spent) ==>
              AlertedFor(budget, alerted, spent) == if alerted < Rung(budget, spent) then Rung(budget, spent) else alerted
    ensures Rung(budget, spent) <= 100
  {
  }

  /** The record is the highest rung reached since spend was last below the threshold. */
  lemma {:induction false} LevelIsHighestRung(budget: Budget, spends: seq<int>)
    requires 0 < budget.limit
    ensures 0 <= Level(budget, spends) <= 100
    ensures forall i :: 0 <= i < |spends| && Standing(budget, spends, i) ==> Rung(budget, spends[i]) <= Level(budget, spends)
    ensures Level(budget, spends) != 0
            ==> exists i :: 0 <= i < |spends| && Standing(budget, spends, i) && Rung(budget, spends[i]) == Level(budget, spends)
  {
    hide Below, Rung, AlertedFor, Standing;
    if spends != [] {
      var front, last := spends[..|spends| - 1], spends[|spends| - 1];
      var before, level := Level(budget, front), Level(budget, spends);
      LevelIsHighestRung(budget, front);
      LadderStep(budget, before, last);
      forall i | 0 <= i < |spends|
        ensures Standing(budget, spends, i) <==> !Below(budget, last) && (i < |front| ==> Standing(budget, front, i))
      {
        StandingGrows(budget, spends, i);
      }
      if level != 0 && level == before {
        var i :| 0 <= i < |front| && Standing(budget, front, i) && Rung(budget, front[i]) == before;
        assert Standing(budget, spends, i) && Rung(budget, spends[i]) == level;
      } else if level != 0 {
        assert Standing(budget, spends, |front|) && Rung(budget, spends[|front|]) == level;
      }
    }
  }

  lemma StandingGrows(budget: Budget, spends: seq<int>, i: int)
    requires 0 < budget.limit && 0 <= i < |spends|
    ensures var front, last := spends[..|spends| - 1], spends[|spends| - 1];
            Standing(budget, spends, i) <==> !Below(budget, last) && (i < |front| ==> Standing(budget, front, i))
  {
    hide Below;
    var front := spends[..|spends| - 1];
    if Standing(budget, spends, i) && i < |front| {
      forall j | i <= j < |front| ensures !Below(budget, front[j]) {
        assert front[j] == spends[j];
      }
    }
    if i < |front| && Standing(budget, front, i) && !Below(budget, spends[|spends| - 1]) {
      forall j | i <= j < |spends| ensures !Below(budget, spends[j]) {
        assert j < |front| ==> front[j] == spends[j];
      }
    }
  }

  /** An alert fires exactly when the record rises, so at most once per rung between resets. */
  lemma AlertIffRecordRises(budget: Budget, spends: seq<int>)
    requires spends != []
    ensures var front := spends[..|spends| - 1];
            Crosses(budget, Level(budget, front), spends[|spends| - 1]) <==> Level(budget, front) < Level(budget, spends)
  {
    if 0 < budget.limit {
      LevelIsHighestRung(budget, spends[..|spends| - 1]);
    } else {
      NoLimitNoLevel(budget, spends[..|spends| - 1]);
    }
  }

  lemma NoLimitNoLevel(budget: Budget, spends: seq<int>)
    requires budget.limit <= 0
    ensures Level(budget, spends) == 0
  {
  }

  /** Between two alerts at one rung, spend fell below the threshold and cleared the record. */
  lemma OneAlertPerRung(budget: Budget, spends: seq<int>, i: int, j: int)
    requires 0 < budget.limit && 0 <= i < j < |spends| && Rung(budget, spends[i]) == Rung(budget, spends[j])
    requires Crosses(budget, Level(budget, spends[..i]), spends[i]) && Crosses(budget, Level(budget, spends[..j]), spends[j])
    ensures exists k :: i < k < j && Below(budget, spends[k])
  {
    hide Level;
    LevelIsHighestRung(budget, spends[..i]);
    LevelIsHighestRung(budget, spends[..j]);
    assert spends[..j][i] == spends[i] && !Standing(budget, spends[..j], i);
    var k :| i <= k < j && Below(budget, spends[..j][k]);
    assert spends[..j][k] == spends[k] && k != i;
  }

  // ---- The stored record, over whole runs

  /** The windows one change recomputes. */
  ghost function Recalculated(st: State, change: Change): seq<Window> {
    match change
    case ExpenseEvent(c, windows, _) => if NextContribution(st.contributions, c).Some? then windows else []
    case BudgetEvent(id, removed, now) => if removed || !Live(st.budgets, id) then [] else [WindowAt(st.budgets[id], now)]
    case _ => []
  }

  /** The change drops every row of the budget. */
  predicate Drops(st: State, change: Change, id: Id) {
    change.BudgetEvent? && change.id == id && (change.removed || !Live(st.budgets, id))
  }

  ghost function AlertsOf(st: State, change: Change, after: State): seq<Alert> {
    RaisedAll(st.usage, after.contributions, Recalculated(st, change),
              match change case ExpenseEvent(_, _, now) => now case BudgetEvent(_, _, now) => now case _ => 0)
  }

  /** What a row was recomputed to since it was last dropped, each time with the budget as it then was. */
  ghost function History(run: seq<State>, changes: seq<Change>, key: (Id, Time)): seq<(Budget, int)>
    requires |run| == |changes| + 1
  {
    if changes == [] then []
    else
      var last := |changes| - 1;
      var before := History(run[..last + 1], changes[..last], key);
      if Drops(run[last], changes[last], key.0) then []
      else if IsWindowKey(Recalculated(run[last], changes[last]), key) && key.0 in run[last].budgets
      then before + [(run[last].budgets[key.0], SpentAt(run[last + 1], key))]
      else before
  }

  /** The record a history leaves, whatever limits were in force along it. */
  ghost function RecordOver(history: seq<(Budget, int)>): int {
    if history == [] then 0
    else
      var last := history[|history| - 1];
      AlertedFor(last.0, RecordOver(history[..|history| - 1]), last.1)
  }

  function SpendsIn(history: seq<(Budget, int)>): seq<int> {
    seq(|history|, i requires 0 <= i < |history| => history[i].1)
  }

  predicate SameLimits(a: Budget, b: Budget) { a.limit == b.limit && a.threshold == b.threshold }

  ghost predicate FixedLimits(history: seq<(Budget, int)>, budget: Budget) {
    forall i :: 0 <= i < |history| ==> SameLimits(history[i].0, budget)
  }

  /** While limit and threshold stay as they are, that record is the ladder's level over the spends. */
  lemma {:induction false} RecordIsLevel(history: seq<(Budget, int)>, budget: Budget)
    requires FixedLimits(history, budget)
    ensures RecordOver(history) == Level(budget, SpendsIn(history))
  {
    if history != [] {
      var front := history[..|history| - 1];
      RecordIsLevel(front, budget);
      assert SpendsIn(history)[..|history| - 1] == SpendsIn(front);
    }
  }

  lemma {:induction false} RecordInRange(history: seq<(Budget, int)>)
    ensures 0 <= RecordOver(history) <= 100
  {
    hide AlertedFor;
    if history != [] {
      var front, last := history[..|history| - 1], history[|history| - 1];
      RecordInRange(front);
      CrossesIffRises(last.0, RecordOver(front), last.1);
    }
  }

  /** An alert is due exactly when the record rises, under any limit and threshold. */
  lemma CrossesIffRises(budget: Budget, alerted: int, spent: int)
    requires 0 <= alerted <= 100
    ensures 0 <= AlertedFor(budget, alerted, spent) <= 100
    ensures Crosses(budget, alerted, spent) <==> alerted < AlertedFor(budget, alerted, spent)
    ensures Crosses(budget, alerted, spent) ==> 0 < budget.limit
  {
    if 0 < budget.limit {
      LadderStep(budget, alerted, spent);
    }
  }

  function SpentAt(st: State, key: (Id, Time)): int { if key in st.usage then st.usage[key].spent else 0 }

  function AlertedAt(st: State, key: (Id, Time)): int { if key in st.usage then st.usage[key].alerted else 0 }

  ghost predicate Keyed(st: State) {
    && (forall id :: id in st.budgets ==> st.budgets[id].id == id)
    && (forall key :: key in st.usage ==> st.usage[key].budgetId == key.0 && key.0 in st.budgets)
  }

  ghost predicate DistinctRows(windows: seq<Window>) {
    forall i, j :: 0 <= i < j < |windows| ==> (windows[i].budget.id, windows[i].start) != (windows[j].budget.id, windows[j].start)
  }

  /** Recomputing several windows moves one row's record once, by its own window's spend, and raises its alert alone. */
  lemma {:induction false} RecomputedRecord(usage: map<(Id, Time), Usage>, contributions: map<Id, Contribution>, windows: seq<Window>, now: Time, w: Window)
    requires (forall key :: key in usage ==> usage[key].budgetId == key.0) && DistinctRows(windows) && w in windows
    ensures var after, key := RecomputedAll(usage, contributions, windows, now), (w.budget.id, w.start);
            && key in after && after[key].spent == WindowSpend(contributions, w)
            && after[key].updatedAt == now && after[key].periodStart == w.start && after[key].budgetId == w.budget.id
            && after[key].alerted == AlertedFor(w.budget, Stored(usage, w).alerted, WindowSpend(contributions, w))
            && AlertsFor(RaisedAll(usage, contributions, windows, now), key) == Raised(usage, contributions, w)
  {
    hide AlertedFor, WindowSpend, Crosses, AlertFor;
    var front, last := windows[..|windows| - 1], windows[|windows| - 1];
    var before, key := RecomputedAll(usage, contributions, front, now), (w.budget.id, w.start);
    RecomputedRows(usage, contributions, front, now);
    AlertsConcat(RaisedAll(usage, contributions, front, now), Raised(before, contributions, last), key);
    RaisedIsOwn(before, contributions, last, key);
    if w == last {
      assert !IsWindowKey(front, key);
      NoAlertsElsewhere(usage, contributions, front, now, key);
      assert Stored(before, w) == Stored(usage, w);
      assert [] + Raised(before, contributions, w) == Raised(before, contributions, w);
    } else {
      assert w in front;
      RecomputedRecord(usage, contributions, front, now, w);
      assert Raised(usage, contributions, w) + [] == Raised(usage, contributions, w);
    }
  }

  ghost function AlertsFor(alerts: seq<Alert>, key: (Id, Time)): seq<Alert> {
    if alerts == [] then []
    else
      var last := alerts[|alerts| - 1];
      AlertsFor(alerts[..|alerts| - 1], key) + if (last.budgetId, last.periodStart) == key then [last] else []
  }

  lemma {:induction false} AlertsConcat(a: seq<Alert>, b: seq<Alert>, key: (Id, Time))
    ensures AlertsFor(a + b, key) == AlertsFor(a, key) + AlertsFor(b, key)
  {
    if b == [] {
      assert a + b == a;
    } else {
      assert (a + b)[..|a + b| - 1] == a + b[..|b| - 1];
      AlertsConcat(a, b[..|b| - 1], key);
    }
  }

  lemma RaisedIsOwn(usage: map<(Id, Time), Usage>, contributions: map<Id, Contribution>, w: Window, key: (Id, Time))
    ensures AlertsFor(Raised(usage, contributions, w), key)
            == if key == (w.budget.id, w.start) then Raised(usage, contributions, w) else []
  {
    hide WindowSpend, Crosses;
    var alerts := Raised(usage, contributions, w);
    if alerts != [] {
      assert alerts[..|alerts| - 1] == [];
    }
  }

  lemma {:induction false} NoAlertsElsewhere(usage: map<(Id, Time), Usage>, contributions: map<Id, Contribution>, windows: seq<Window>, now: Time, key: (Id, Time))
    requires !IsWindowKey(windows, key)
    ensures AlertsFor(RaisedAll(usage, contributions, windows, now), key) == []
  {
    hide Raised, Recomputed;
    if windows != [] {
      var front, last := windows[..|windows| - 1], windows[|windows| - 1];
      var before := RecomputedAll(usage, contributions, front, now);
      assert forall w :: w in front ==> w in windows;
      assert last in windows;
      NoAlertsElsewhere(usage, contributions, front, now, key);
      AlertsConcat(RaisedAll(usage, contributions, front, now), Raised(before, contributions, last), key);
      RaisedIsOwn(before, contributions, last, key);
    }
  }

  /** The windows a change recomputes are distinct rows of live budgets. */
  lemma RecalculatedAreLive(st: State, change: Change, after: State)
    requires Keyed(st) && Next(st, change, after)
    ensures DistinctRows(Recalculated(st, change))
    ensures forall w :: w in Recalculated(st, change) ==> Live(st.budgets, w.budget.id) && w.budget == st.budgets[w.budget.id]
  {
    hide WindowAt, RecomputedAll;
    if change.BudgetEvent? && Live(st.budgets, change.id) {
      WindowsOwnBudget(st.budgets[change.id], change.now);
    }
  }

  lemma NextKeyed(st: State, change: Change, after: State)
    requires Keyed(st) && Next(st, change, after)
    ensures Keyed(after)
    ensures forall id :: id in after.budgets ==> id in st.budgets || change == CreateBudget(after.budgets[id])
    ensures st.budgets.Keys <= after.budgets.Keys
  {
    hide WindowAt, RecomputedAll, AreAffected;
    RecalculatedAreLive(st, change, after);
    RecomputedRows(st.usage, after.contributions, Recalculated(st, change), if change.ExpenseEvent? || change.BudgetEvent? then change.now else 0);
  }

  /** What one change does to one row's record. */
  lemma RecordStep(st: State, change: Change, after: State, key: (Id, Time))
    requires Keyed(st) && Next(st, change, after)
    ensures Drops(st, change, key.0) ==> key !in after.usage && !IsWindowKey(Recalculated(st, change), key)
    ensures !Drops(st, change, key.0) ==>
              if IsWindowKey(Recalculated(st, change), key) then
                Live(st.budgets, key.0) && AlertedAt(after, key) == AlertedFor(st.budgets[key.0], AlertedAt(st, key), SpentAt(after, key))
              else AlertedAt(after, key) == AlertedAt(st, key) && (key in after.usage ==> key in st.usage)
  {
    hide AlertedFor, WindowAt, WindowSpend, RecomputedAll, AreAffected;
    var windows, now := Recalculated(st, change), if change.ExpenseEvent? || change.BudgetEvent? then change.now else 0;
    RecalculatedAreLive(st, change, after);
    RecomputedRows(st.usage, after.contributions, windows, now);
    if IsWindowKey(windows, key) {
      var w :| w in windows && key == (w.budget.id, w.start);
      RecomputedRecord(st.usage, after.contributions, windows, now, w);
    }
  }

  /**
   In every run each row's stored record follows the row's own spends since it was
   last dropped, whatever happens to the other rows; while the limit and the
   threshold stay as they are, it is the ladder's level over those spends.
   */
  lemma {:induction false} StoredRecordIsLevel(run: seq<State>, changes: seq<Change>, key: (Id, Time))
    requires IsRun(run, changes)
    ensures var st, history := run[|changes|], History(run, changes, key);
            && Keyed(st) && AlertedAt(st, key) == RecordOver(history)
            && (key.0 !in st.budgets ==> history == [])
            && (key.0 in st.budgets && FixedLimits(history, st.budgets[key.0]) ==> AlertedAt(st, key) == Level(st.budgets[key.0], SpendsIn(history)))
    decreases |changes|
  {
    hide Next, AlertedFor, Recalculated, Drops, IsWindowKey, Level, SameLimits;
    if changes != [] {
      var last := |changes| - 1;
      var st, after, history := run[last], run[last + 1], History(run[..last + 1], changes[..last], key);
      StoredRecordIsLevel(run[..last + 1], changes[..last], key);
      NextKeyed(st, changes[last], after);
      RecordStep(st, changes[last], after, key);
      if key.0 in st.budgets {
        assert (history + [(st.budgets[key.0], SpentAt(after, key))])[..|history|] == history;
      }
    }
    var st, history := run[|changes|], History(run, changes, key);
    if key.0 in st.budgets && FixedLimits(history, st.budgets[key.0]) {
      RecordIsLevel(history, st.budgets[key.0]);
    }
  }

  /** In every run the next change queues one alert for a row exactly when it raises the row's stored record, and none otherwise. */
  lemma AlertQueuedIffRecordRises(run: seq<State>, changes: seq<Change>, change: Change, after: State, key: (Id, Time))
    requires IsRun(run, changes) && Next(run[|changes|], change, after)
    ensures var st := run[|changes|];
            var alerts := AlertsFor(AlertsOf(st, change, after), key);
            if key.0 in st.budgets && st.budgets[key.0].limit > 0 && AlertedAt(st, key) < AlertedAt(after, key)
            then alerts == [AlertFor(Window(st.budgets[key.0], key.1, WindowEnd(st.budgets[key.0], key.1)), SpentAt(after, key))]
            else alerts == []
  {
    hide Next, AlertedFor, History, RecordOver, WindowEnd, Rung, Recalculated, IsWindowKey, AlertsOf, AlertFor, Crosses, Level, SameLimits;
    var st := run[|changes|];
    StoredRecordIsLevel(run, changes, key);
    RecordInRange(History(run, changes, key));
    RecordStep(st, change, after, key);
    StepAlerts(st, change, after, key);
    if IsWindowKey(Recalculated(st, change), key) {
      CrossesIffRises(st.budgets[key.0], AlertedAt(st, key), SpentAt(after, key));
    }
  }

  lemma CrossingNeedsLimit(budget: Budget, alerted: int, spent: int)
    ensures Crosses(budget, alerted, spent) ==> 0 < budget.limit
  {
  }

  /** A removed budget is left alone by expense events: its rows stay as they are, it gets no new ones and raises no alert. */
  lemma RemovedBudgetsRest(st: State, event: Contribution, windows: seq<Window>, now: Time, after: State, key: (Id, Time))
    requires Keyed(st) && ExpenseStep(st, event, windows, now, after)
    requires key.0 in st.budgets && st.budgets[key.0].deleted
    ensures key in after.usage <==> key in st.usage
    ensures key in st.usage ==> after.usage[key] == st.usage[key]
    ensures AlertsFor(AlertsOf(st, ExpenseEvent(event, windows, now), after), key) == []
  {
    hide WindowAt, RecomputedAll, RaisedAll, AlertedFor;
    var change := ExpenseEvent(event, windows, now);
    RecalculatedAreLive(st, change, after);
    assert !IsWindowKey(Recalculated(st, change), key);
    RecomputedRows(st.usage, after.contributions, Recalculated(st, change), now);
    NoAlertsElsewhere(st.usage, after.contributions, Recalculated(st, change), now, key);
  }

  /** Expense events reach only the budgets of the owner and category the expense had or has. */
  lemma OtherBudgetsRest(st: State, event: Contribution, windows: seq<Window>, now: Time, after: State, key: (Id, Time))
    requires Keyed(st) && ExpenseStep(st, event, windows, now, after) && key.0 in st.budgets
    requires var budget, next := st.budgets[key.0], NextContribution(st.contributions, event);
             next.Some? ==> forall c :: c in Changed(st.contributions, next.value) ==> (c.owner, c.category) != (budget.owner, budget.category)
    ensures key in after.usage <==> key in st.usage
    ensures key in st.usage ==> after.usage[key] == st.usage[key]
  {
    hide WindowAt, RecomputedAll, AlertedFor;
    var change := ExpenseEvent(event, windows, now);
    RecalculatedAreLive(st, change, after);
    assert !IsWindowKey(Recalculated(st, change), key);
    RecomputedRows(st.usage, after.contributions, Recalculated(st, change), now);
  }

  /** The alerts one change raises for one row. */
  lemma StepAlerts(st: State, change: Change, after: State, key: (Id, Time))
    requires Keyed(st) && Next(st, change, after)
    ensures IsWindowKey(Recalculated(st, change), key) ==> key.0 in st.budgets
    ensures AlertsFor(AlertsOf(st, change, after), key) ==
              if IsWindowKey(Recalculated(st, change), key) && Crosses(st.budgets[key.0], AlertedAt(st, key), SpentAt(after, key))
              then (CrossingNeedsLimit(st.budgets[key.0], AlertedAt(st, key), SpentAt(after, key));
                    [AlertFor(Window(st.budgets[key.0], key.1, WindowEnd(st.budgets[key.0], key.1)), SpentAt(after, key))])
              else []
  {
    hide AlertedFor, WindowAt, WindowEnd, WindowSpend, AreAffected, Rung, RecomputedAll, RaisedAll;
    var windows := Recalculated(st, change);
    var now := match change case ExpenseEvent(_, _, now) => now case BudgetEvent(_, _, now) => now case _ => 0;
    RecalculatedAreLive(st, change, after);
    if IsWindowKey(windows, key) {
      var w :| w in windows && key == (w.budget.id, w.start);
      RecomputedRecord(st.usage, after.contributions, windows, now, w);
    } else {
      NoAlertsElsewhere(st.usage, after.contributions, windows, now, key);
    }
  }

  /** The record only ever falls to zero, by a reset. */
  lemma RecordFallsOnlyByReset(budget: Budget, spends: seq<int>)
    requires 0 < budget.limit && spends != []
    requires Level(budget, spends) < Level(budget, spends[..|spends| - 1])
    ensures Level(budget, spends) == 0 && Below(budget, spends[|spends| - 1])
  {
    LevelIsHighestRung(budget, spends[..|spends| - 1]);
  }

  /** The percentage is the spend in hundredths of the limit, cut to a whole number. */
  lemma PercentAtLeast(budget: Budget, spent: int, n: int)
    requires 0 < budget.limit && 1 <= n
    ensures n <= Percent(budget, spent) <==> n * budget.limit <= 100 * spent
  {
    var limit := budget.limit;
    assert 0 < n * limit;
    if 0 <= spent {
      DivAtLeast(spent * 100, limit, n);
    } else {
      assert 0 <= (-(spent * 100)) / limit;
    }
  }

  /** Which rung a spend reaches, in amounts: the top one at the limit, the configured one at its share of the limit. */
  lemma RungMeans(budget: Budget, spent: int)
    requires 0 < budget.limit && 1 <= budget.threshold
    ensures Rung(budget, spent) ==
              if budget.limit <= spent then 100 else if budget.threshold * budget.limit <= 100 * spent then budget.threshold else 0
    ensures Below(budget, spent) <==> spent < budget.limit && 100 * spent < budget.threshold * budget.limit
  {
    hide Percent;
    TopRungIffOverLimit(budget, spent);
    PercentAtLeast(budget, spent, budget.threshold);
  }

  /** What an alert says is so: whose it is, what was spent of what, which part of the limit, and whether the limit is reached. */
  lemma AlertSaysWhatIsSo(w: Window, spent: int)
    requires 0 < w.budget.limit && 0 <= spent
    ensures var alert := AlertFor(w, spent);
            && alert.budgetId == w.budget.id && alert.owner == w.budget.owner && alert.periodStart == w.start
            && alert.spent == spent && alert.limit == w.budget.limit
            && (alert.exceeded <==> w.budget.limit <= spent)
            && alert.percent * alert.limit <= 100 * spent < (alert.percent + 1) * alert.limit
  {
    TopRungIffOverLimit(w.budget, spent);
    var limit := w.budget.limit;
    var q := spent * 100 / limit;
    assert q * limit <= spent * 100 < q * limit + limit;
    assert (q + 1) * limit == q * limit + limit;
  }

  /** The top rung is reached exactly when spend is at least the limit. */
  lemma TopRungIffOverLimit(budget: Budget, spent: int)
    requires 0 < budget.limit
    ensures 100 <= Percent(budget, spent) <==> budget.limit <= spent
  {
    hide Percent;
    PercentAtLeast(budget, spent, 100);
  }

  lemma DivAtLeast(a: int, b: int, n: int)
    requires 0 <= a && 0 < b
    ensures n <= a / b <==> n * b <= a
  {
    var q := a / b;
    assert q * b <= a < q * b + b;
    if n <= q { assert n * b <= q * b; } else { assert (q + 1) * b <= n * b; }
  }
}
