/** The two projections agree: what a budget counts is what the analytics buckets hold. */
module Agreement {
  import opened Calendar
  import opened Domain
  import opened Periods
  import opened Rollups
  import Spending
  import opened Sums

  /** The category bucket of one currency that covers a period. */
  function CategoryBucket(owner: Id, category: Id, period: AnalyticsPeriod, at: Time, currency: string): BucketKey {
    BucketKey(owner, PeriodStart(period, at), period, category, currency, false)
  }

  ghost function BucketTotals(contributions: map<Id, Contribution>, owner: Id, category: Id, period: AnalyticsPeriod, at: Time): string -> int {
    currency => Total(contributions, CategoryBucket(owner, category, period, at, currency), Amount)
  }

  ghost function BucketReads(rollups: map<BucketKey, Bucket>, owner: Id, category: Id, period: AnalyticsPeriod, at: Time): string -> int {
    currency => Read(rollups, CategoryBucket(owner, category, period, at, currency), Amount)
  }

  /** What each contribution is worth to the bucket of one currency, and to the buckets of all of them. */
  ghost function ByCurrency(contributions: map<Id, Contribution>, owner: Id, category: Id, period: AnalyticsPeriod, at: Time): string -> Id -> int {
    currency => Shares(contributions, CategoryBucket(owner, category, period, at, currency), Amount)
  }

  ghost function ById(contributions: map<Id, Contribution>, owner: Id, category: Id, period: AnalyticsPeriod, at: Time): Id -> string -> int {
    id => OneExpense(contributions, owner, category, period, at, id)
  }

  ghost function OneExpense(contributions: map<Id, Contribution>, owner: Id, category: Id, period: AnalyticsPeriod, at: Time, id: Id): string -> int {
    currency => if id in contributions then Share(contributions[id], CategoryBucket(owner, category, period, at, currency), Amount) else 0
  }

  lemma {:induction false} NoTagsInCategory(tags: seq<Id>, k: BucketKey)
    requires !k.isTag && k.dimension != ""
    ensures TagHitCount(tags, k) == 0
  {
    if tags != [] {
      NoTagsInCategory(tags[..|tags| - 1], k);
    }
  }

  /** One contribution counts in the bucket of its own currency exactly what it counts in the window. */
  lemma ExpenseAgrees(c: Contribution, owner: Id, category: Id, period: AnalyticsPeriod, at: Time, currency: string)
    requires category != ""
    ensures var start := PeriodStart(period, at);
            Share(c, CategoryBucket(owner, category, period, at, currency), Amount)
            == if currency == c.currency then Spending.Spent(c, owner, category, start, PeriodEnd(period, start)) else 0
  {
    hide PeriodStart, PeriodEnd;
    NoTagsInCategory(c.tags, CategoryBucket(owner, category, period, at, currency));
    PeriodsPartitionTime(period, at, c.occurredAt);
  }

  /**
   The spend of a budget window over a calendar period is the sum, over the
   currencies in use, of the category buckets of that period.
   */
  lemma SpendIsSumOfBuckets(contributions: map<Id, Contribution>, owner: Id, category: Id, period: AnalyticsPeriod, at: Time, currencies: set<string>)
    requires category != "" && forall id :: id in contributions ==> contributions[id].currency in currencies
    ensures var start := PeriodStart(period, at);
            Spending.SpendIn(contributions, owner, category, start, PeriodEnd(period, start))
            == Sum(currencies, BucketTotals(contributions, owner, category, period, at))
  {
    hide PeriodStart, PeriodEnd, Share, Spending.Spent;
    var start := PeriodStart(period, at);
    var end := PeriodEnd(period, start);
    var spends := Spending.Spends(contributions, owner, category, start, end);
    forall id | id in contributions ensures spends(id) == Sum(currencies, OneExpense(contributions, owner, category, period, at, id)) {
      var c, row := contributions[id], OneExpense(contributions, owner, category, period, at, id);
      forall currency ensures row(currency) == if currency == c.currency then spends(id) else 0 {
        ExpenseAgrees(c, owner, category, period, at, currency);
        assert row(currency) == Share(c, CategoryBucket(owner, category, period, at, currency), Amount);
      }
      SumSingle(currencies, row, c.currency);
    }
    SumSwap(contributions.Keys, currencies, ById(contributions, owner, category, period, at),
            ByCurrency(contributions, owner, category, period, at), spends, BucketTotals(contributions, owner, category, period, at));
  }

  /** Two stores of contributions that say the same of every expense that counts. */
  ghost predicate SameActive(one: map<Id, Contribution>, two: map<Id, Contribution>) {
    forall id :: (id in one && one[id].active) || (id in two && two[id].active) ==> id in one && id in two && one[id] == two[id]
  }

  lemma SameActiveSameSpend(one: map<Id, Contribution>, two: map<Id, Contribution>, owner: Id, category: Id, from: Time, to: Time)
    requires SameActive(one, two)
    ensures Spending.SpendIn(one, owner, category, from, to) == Spending.SpendIn(two, owner, category, from, to)
  {
    var f, g := Spending.Spends(one, owner, category, from, to), Spending.Spends(two, owner, category, from, to);
    var all := one.Keys + two.Keys;
    forall id | id in all ensures f(id) == g(id) {
    }
    SumExtend(one.Keys, all, f);
    SumExtend(two.Keys, all, g);
    SumSame(all, f, g);
  }

  /**
   The two read models agree: where the projections have seen the same expenses,
   the exact row of a calendar budget is the sum over currencies of what the
   analytics buckets of its owner, category and period read.
   */
  lemma ProjectionsAgree(model: ReadModel, st: Spending.State, key: (Id, Time), at: Time, currencies: set<string>)
    requires Consistent(model) && Spending.RowsOk(st) && key in st.usage && key.0 in st.budgets && Spending.RowExact(st, key)
    requires SameActive(st.contributions, model.contributions)
    requires forall id :: id in model.contributions ==> model.contributions[id].currency in currencies
    requires st.budgets[key.0].period != Custom && key.1 == PeriodStart(CalendarPeriod(st.budgets[key.0].period), at)
    ensures var budget := st.budgets[key.0];
            st.usage[key].spent == Sum(currencies, BucketReads(model.rollups, budget.owner, budget.category, CalendarPeriod(budget.period), at))
  {
    hide PeriodStart, PeriodEnd, Total, Spending.SpendIn, Spending.RowOk;
    var budget := st.budgets[key.0];
    var period := CalendarPeriod(budget.period);
    SameActiveSameSpend(st.contributions, model.contributions, budget.owner, budget.category, key.1, PeriodEnd(period, key.1));
    SpendIsSumOfBuckets(model.contributions, budget.owner, budget.category, period, at, currencies);
    SumSame(currencies, BucketTotals(model.contributions, budget.owner, budget.category, period, at),
            BucketReads(model.rollups, budget.owner, budget.category, period, at));
  }
}
