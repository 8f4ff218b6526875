/** The values the read models exchange: contributions, budgets and usage rows. */
module Domain {
  import opened Calendar

  type Id = string

  datatype Option<+T> = None | Some(value: T)

  /** The expense state a projection has applied, as decoded from an event body. */
  datatype Contribution = Contribution(
    expenseId: Id,
    owner: Id,
    category: Id,
    currency: string,
    tags: seq<Id>,
    amount: int,
    occurredAt: Time,
    active: bool)

  datatype AnalyticsPeriod = Day | Week | Month | Year

  const ROLLUP_PERIODS: seq<AnalyticsPeriod> := [Day, Week, Month, Year]

  datatype BudgetPeriod = Daily | Weekly | Monthly | Yearly | Custom

  datatype Budget = Budget(
    id: Id,
    owner: Id,
    category: Id,
    limit: int,
    threshold: int,
    period: BudgetPeriod,
    dueAt: Option<Time>,
    createdAt: Time,
    deleted: bool)

  datatype Usage = Usage(budgetId: Id, periodStart: Time, spent: int, alerted: int, updatedAt: Time)
}
