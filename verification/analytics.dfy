/** The analytics projection over its in-memory repository, written as the service runs it. */
module Analytics {
  import opened Calendar
  import opened Domain
  import opened Periods
  import opened Queue
  import opened Rollups

  class AnalyticsRepository {
    var rollups: map<BucketKey, Bucket>
    var contributions: map<Id, Contribution>

    ghost function Model(): ReadModel
      reads this
    {
      ReadModel(rollups, contributions)
    }

    constructor ()
      ensures Model() == EMPTY_MODEL
    {
      rollups, contributions := map[], map[];
    }

    method LoadContribution(id: Id) returns (found: Option<Contribution>)
      ensures found == if id in contributions then Some(contributions[id]) else None
    {
      found := if id in contributions then Some(contributions[id]) else None;
    }

    method SaveContribution(c: Contribution)
      modifies this
      ensures Model() == old(Model()).(contributions := old(contributions)[c.expenseId := c])
    {
      contributions := contributions[c.expenseId := c];
    }

    /** A signed adjustment of one bucket; an empty tag id makes it a category bucket. */
    method AddRollupDelta(owner: Id, category: Id, tag: Id, currency: string, period: AnalyticsPeriod, periodStart: Time, amount: int, count: int)
      modifies this
      ensures var key := BucketKey(owner, periodStart, period, if tag != "" then tag else category, currency, tag != "");
              Model() == old(Model()).(rollups := AddDelta(old(rollups), Delta(key, amount, count)))
    {
      var dimension, isTag := category, false;
      if tag != "" {
        dimension, isTag := tag, true;
      }
      var key := BucketKey(owner, periodStart, period, dimension, currency, isTag);
      var value := if key in rollups then rollups[key] else Bucket(0, 0);
      rollups := rollups[key := Bucket(value.amount + amount, value.count + count)];
    }

    method Snapshot() returns (saved: ReadModel)
      ensures saved == Model()
    {
      saved := ReadModel(rollups, contributions);
    }

    method Restore(saved: ReadModel)
      modifies this
      ensures Model() == saved
    {
      rollups, contributions := saved.rollups, saved.contributions;
    }
  }

  class AnalyticsProjection {
    const repository: AnalyticsRepository

    constructor (repository: AnalyticsRepository)
      ensures this.repository == repository
    {
      this.repository := repository;
    }

    /** Applies a contribution to every bucket it touches, or reverses it. */
    method Adjust(c: Contribution, direction: int)
      modifies repository
      ensures repository.Model() == old(repository.Model()).(rollups := Adjusted(old(repository.rollups), c, direction))
    {
      hide AddDelta, PeriodStart;
      ghost var before := repository.rollups;
      for i := 0 to |ROLLUP_PERIODS|
        invariant repository.Model() == old(repository.Model()).(rollups := WithPeriods(before, c, ROLLUP_PERIODS[..i], direction))
      {
        var period := ROLLUP_PERIODS[i];
        var start := PeriodStart(period, c.occurredAt);
        ghost var reached := repository.rollups;
        repository.AddRollupDelta(c.owner, c.category, "", c.currency, period, start, c.amount * direction, direction);
        ghost var first := repository.rollups;
        for j := 0 to |c.tags|
          invariant repository.Model() == old(repository.Model()).(rollups := WithTags(first, c, period, c.tags[..j], direction))
        {
          assert c.tags[..j + 1][..j] == c.tags[..j];
          repository.AddRollupDelta(c.owner, "", c.tags[j], c.currency, period, start, c.amount * direction, direction);
        }
        assert c.tags[..|c.tags|] == c.tags;
        assert repository.rollups == WithPeriod(reached, c, period, direction);
        assert ROLLUP_PERIODS[..i + 1][..i] == ROLLUP_PERIODS[..i];
      }
      assert ROLLUP_PERIODS[..|ROLLUP_PERIODS|] == ROLLUP_PERIODS;
    }

    /**
     Reverses the previous contribution, then applies the new one. The new one
     is validated only after the reversal, so a rejected event leaves the
     reversal behind for the unit of work to undo.
     */
    method Handle(body: Body) returns (ok: bool)
      modifies repository
      ensures ok <==> HandleEvent(old(repository.Model()), body).Some?
      ensures ok ==> repository.Model() == HandleEvent(old(repository.Model()), body).value
      ensures !ok ==> repository.contributions == old(repository.contributions)
    {
      hide Adjusted;
      if body.Malformed? {
        return false;
      }
      if !body.ExpenseBody? {
        return true;
      }
      var next := body.contribution;
      var previous := repository.LoadContribution(next.expenseId);
      if previous.Some? && previous.value.active {
        Adjust(previous.value, -1);
      }
      if !next.active {
        if previous.None? {
          return true;
        }
        repository.SaveContribution(previous.value.(active := false));
        return true;
      }
      if !Valid(next) {
        return false;
      }
      Adjust(next, 1);
      repository.SaveContribution(next);
      ok := true;
    }
  }
}
