/**
 What the analytics rollups should hold, and the deltas that maintain them.

 A bucket is read as zero when it is absent. `Share` says directly what one
 contribution puts into one bucket; the projection only ever writes deltas.
 */
module Rollups {
  import opened Calendar
  import opened Domain
  import opened Periods
  import opened Queue
  import opened Sums

  /** One analytics bucket; `dimension` is a tag when `isTag`, a category otherwise. */
  datatype BucketKey = BucketKey(
    owner: Id,
    periodStart: Time,
    period: AnalyticsPeriod,
    dimension: Id,
    currency: string,
    isTag: bool)

  datatype Bucket = Bucket(amount: int, count: int)

  datatype Delta = Delta(key: BucketKey, amount: int, count: int)

  /** The projection's state: buckets, and the contribution last reflected in them per expense. */
  datatype ReadModel = ReadModel(rollups: map<BucketKey, Bucket>, contributions: map<Id, Contribution>)

  const EMPTY_MODEL := ReadModel(map[], map[])

  /** The two quantities a bucket measures. */
  datatype Measure = Amount | Count

  function Read(rollups: map<BucketKey, Bucket>, k: BucketKey, m: Measure): int {
    if k !in rollups then 0 else if m == Amount then rollups[k].amount else rollups[k].count
  }

  function Size(d: Delta, m: Measure): int { if m == Amount then d.amount else d.count }

  // ---- What a contribution is worth to a bucket

  /** An empty tag id names no tag: such a delta falls back to the category it carries. */
  predicate TagHits(tag: Id, k: BucketKey) {
    k.dimension == tag && k.isTag == (tag != "")
  }

  function TagHitCount(tags: seq<Id>, k: BucketKey): nat {
    if tags == [] then 0
    else TagHitCount(tags[..|tags| - 1], k) + if TagHits(tags[|tags| - 1], k) then 1 else 0
  }

  predicate InScope(c: Contribution, period: AnalyticsPeriod, k: BucketKey) {
    && k.owner == c.owner && k.currency == c.currency
    && k.period == period && k.periodStart == PeriodStart(period, c.occurredAt)
  }

  /** A contribution hits its own category once, and each tag as often as it is listed. */
  function Hits(c: Contribution, k: BucketKey): nat {
    if InScope(c, k.period, k)
    then (if k.dimension == c.category && !k.isTag then 1 else 0) + TagHitCount(c.tags, k)
    else 0
  }

  function Weight(c: Contribution, m: Measure): int { if m == Amount then c.amount else 1 }

  function Share(c: Contribution, k: BucketKey, m: Measure): int {
    if c.active then Hits(c, k) * Weight(c, m) else 0
  }

  // ---- The deltas the projection writes

  function AddDelta(rollups: map<BucketKey, Bucket>, d: Delta): map<BucketKey, Bucket> {
    var bucket := if d.key in rollups then rollups[d.key] else Bucket(0, 0);
    rollups[d.key := Bucket(bucket.amount + d.amount, bucket.count + d.count)]
  }

  /** The key of a delta: a delta without a tag id belongs to its category. */
  function KeyFor(c: Contribution, period: AnalyticsPeriod, category: Id, tag: Id): BucketKey {
    BucketKey(c.owner, PeriodStart(period, c.occurredAt), period, if tag != "" then tag else category, c.currency, tag != "")
  }

  function DeltaFor(c: Contribution, period: AnalyticsPeriod, category: Id, tag: Id, direction: int): Delta {
    Delta(KeyFor(c, period, category, tag), c.amount * direction, direction)
  }

  function WithTags(rollups: map<BucketKey, Bucket>, c: Contribution, period: AnalyticsPeriod, tags: seq<Id>, direction: int): map<BucketKey, Bucket> {
    if tags == [] then rollups
    else AddDelta(WithTags(rollups, c, period, tags[..|tags| - 1], direction), DeltaFor(c, period, "", tags[|tags| - 1], direction))
  }

  function WithPeriod(rollups: map<BucketKey, Bucket>, c: Contribution, period: AnalyticsPeriod, direction: int): map<BucketKey, Bucket> {
    WithTags(AddDelta(rollups, DeltaFor(c, period, c.category, "", direction)), c, period, c.tags, direction)
  }

  function WithPeriods(rollups: map<BucketKey, Bucket>, c: Contribution, periods: seq<AnalyticsPeriod>, direction: int): map<BucketKey, Bucket> {
    if periods == [] then rollups
    else WithPeriod(WithPeriods(rollups, c, periods[..|periods| - 1], direction), c, periods[|periods| - 1], direction)
  }

  function Adjusted(rollups: map<BucketKey, Bucket>, c: Contribution, direction: int): map<BucketKey, Bucket> {
    WithPeriods(rollups, c, ROLLUP_PERIODS, direction)
  }

  predicate Valid(c: Contribution) {
    c.owner != "" && c.category != "" && c.currency != "" && c.occurredAt != 0
  }

  /** Reverses what was counted before, then applies what the event says now. */
  function Handled(model: ReadModel, next: Contribution): Option<ReadModel> {
    var id := next.expenseId;
    var found := id in model.contributions;
    var reversed :=
      if found && model.contributions[id].active then Adjusted(model.rollups, model.contributions[id], -1) else model.rollups;
    if !next.active then
      Some(ReadModel(reversed,
        if found then model.contributions[model.contributions[id].expenseId := model.contributions[id].(active := false)]
        else model.contributions))
    else if !Valid(next) then None
    else Some(ReadModel(Adjusted(reversed, next, 1), model.contributions[id := next]))
  }

  /** The whole handler: events without an expense body change nothing, undecodable ones fail. */
  function HandleEvent(model: ReadModel, body: Body): Option<ReadModel> {
    match body
    case Malformed => None
    case ExpenseBody(c) => Handled(model, c)
    case _ => Some(model)
  }

  /** Exactly the undecodable and the active but incomplete expenses are refused, and what is no expense changes nothing. */
  lemma RefusesExactly(model: ReadModel, body: Body)
    ensures HandleEvent(model, body).None? <==>
              body.Malformed? ||
              (body.ExpenseBody? && var c := body.contribution;
                                    c.active && (c.owner == "" || c.category == "" || c.currency == "" || c.occurredAt == 0))
    ensures !body.Malformed? && !body.ExpenseBody? ==> HandleEvent(model, body) == Some(model)
  {
    hide Adjusted;
  }

  // ---- Deltas move every bucket by exactly the share

  lemma AddDeltaReads(rollups: map<BucketKey, Bucket>, d: Delta, k: BucketKey, m: Measure)
    ensures Read(AddDelta(rollups, d), k, m) == Read(rollups, k, m) + if k == d.key then Size(d, m) else 0
  {
  }

  lemma {:induction false} TagsRead(rollups: map<BucketKey, Bucket>, c: Contribution, period: AnalyticsPeriod, tags: seq<Id>, direction: int, k: BucketKey, m: Measure)
    ensures Read(WithTags(rollups, c, period, tags, direction), k, m)
            == Read(rollups, k, m)
               + if InScope(c, period, k) then TagHitCount(tags, k) * (Weight(c, m) * direction) else 0
  {
    hide PeriodStart;
    if tags != [] {
      var front, tag := tags[..|tags| - 1], tags[|tags| - 1];
      TagsRead(rollups, c, period, front, direction, k, m);
      AddDeltaReads(WithTags(rollups, c, period, front, direction), DeltaFor(c, period, "", tag, direction), k, m);
      assert (TagHitCount(front, k) + 1) * (Weight(c, m) * direction)
          == TagHitCount(front, k) * (Weight(c, m) * direction) + Weight(c, m) * direction;
    }
  }

  lemma PeriodReads(rollups: map<BucketKey, Bucket>, c: Contribution, period: AnalyticsPeriod, direction: int, k: BucketKey, m: Measure)
    ensures Read(WithPeriod(rollups, c, period, direction), k, m)
            == Read(rollups, k, m) + if k.period == period then Hits(c, k) * (Weight(c, m) * direction) else 0
  {
    hide PeriodStart;
    var first := DeltaFor(c, period, c.category, "", direction);
    AddDeltaReads(rollups, first, k, m);
    TagsRead(AddDelta(rollups, first), c, period, c.tags, direction, k, m);
    var each := Weight(c, m) * direction;
    assert (1 + TagHitCount(c.tags, k)) * each == each + TagHitCount(c.tags, k) * each;
  }

  /** Adjusting by a contribution moves each bucket by its share, in the given direction. */
  lemma AdjustedReads(rollups: map<BucketKey, Bucket>, c: Contribution, direction: int, k: BucketKey, m: Measure)
    ensures Read(Adjusted(rollups, c, direction), k, m)
            == Read(rollups, k, m) + Hits(c, k) * (Weight(c, m) * direction)
  {
    hide Hits, WithPeriod;
    var r1 := WithPeriod(rollups, c, Day, direction);
    var r2 := WithPeriod(r1, c, Week, direction);
    var r3 := WithPeriod(r2, c, Month, direction);
    FourPeriods(rollups, c, direction);
    PeriodReads(rollups, c, Day, direction, k, m);
    PeriodReads(r1, c, Week, direction, k, m);
    PeriodReads(r2, c, Month, direction, k, m);
    PeriodReads(r3, c, Year, direction, k, m);
  }

  lemma FourPeriods(rollups: map<BucketKey, Bucket>, c: Contribution, direction: int)
    ensures Adjusted(rollups, c, direction)
            == WithPeriod(WithPeriod(WithPeriod(WithPeriod(rollups, c, Day, direction), c, Week, direction), c, Month, direction), c, Year, direction)
  {
    hide WithPeriod;
    var one, two, three := [Day], [Day, Week], [Day, Week, Month];
    assert one[..0] == [] && two[..1] == one && three[..2] == two && ROLLUP_PERIODS[..3] == three;
    assert WithPeriods(rollups, c, one, direction) == WithPeriod(rollups, c, Day, direction);
    assert WithPeriods(rollups, c, two, direction)
        == WithPeriod(WithPeriods(rollups, c, one, direction), c, Week, direction);
    assert WithPeriods(rollups, c, three, direction)
        == WithPeriod(WithPeriods(rollups, c, two, direction), c, Month, direction);
  }

  /** Applying an active contribution adds its share to every bucket; reversing it takes it away. */
  lemma AppliedAndReversedReads(rollups: map<BucketKey, Bucket>, c: Contribution, k: BucketKey, m: Measure)
    requires c.active
    ensures Read(Adjusted(rollups, c, 1), k, m) == Read(rollups, k, m) + Share(c, k, m)
    ensures Read(Adjusted(rollups, c, -1), k, m) == Read(rollups, k, m) - Share(c, k, m)
  {
    hide Hits, Adjusted;
    AdjustedReads(rollups, c, 1, k, m);
    AdjustedReads(rollups, c, -1, k, m);
    assert Weight(c, m) * 1 == Weight(c, m);
    assert Hits(c, k) * (Weight(c, m) * -1) == -(Hits(c, k) * Weight(c, m));
  }

  // ---- The projection reflects the last event of every expense

  ghost function Shares(contributions: map<Id, Contribution>, k: BucketKey, m: Measure): Id -> int {
    id => if id in contributions then Share(contributions[id], k, m) else 0
  }

  /** The from-scratch aggregate: the sum over expenses of what each is worth to the bucket. */
  ghost function Total(contributions: map<Id, Contribution>, k: BucketKey, m: Measure): int {
    Sum(contributions.Keys, Shares(contributions, k, m))
  }

  ghost predicate Consistent(model: ReadModel) {
    && (forall k, m :: Read(model.rollups, k, m) == Total(model.contributions, k, m))
    && (forall id :: id in model.contributions ==> model.contributions[id].expenseId == id)
  }

  /** `latest` maps each expense to the contribution its last processed event carries. */
  ghost predicate Reflects(model: ReadModel, latest: map<Id, Contribution>) {
    && Consistent(model)
    && model.contributions.Keys <= latest.Keys
    && forall id :: id in latest ==>
         if latest[id].active then id in model.contributions && model.contributions[id] == latest[id]
         else id in model.contributions ==> !model.contributions[id].active
  }

  /** Replacing one entry moves the total by the difference of its shares. */
  lemma TotalChange(contributions: map<Id, Contribution>, id: Id, c: Contribution, k: BucketKey, m: Measure)
    ensures Total(contributions[id := c], k, m)
            == Total(contributions, k, m) + Share(c, k, m)
               - if id in contributions then Share(contributions[id], k, m) else 0
  {
    var next := contributions[id := c];
    var f, g := Shares(contributions, k, m), Shares(next, k, m);
    if id in contributions {
      assert next.Keys == contributions.Keys;
      SumChange(contributions.Keys, f, g, id);
    } else {
      assert next.Keys - {id} == contributions.Keys;
      SumPick(next.Keys, g, id);
      SumSame(contributions.Keys, f, g);
    }
  }

  lemma InactiveIsWorthless(c: Contribution, k: BucketKey, m: Measure)
    requires !c.active
    ensures Share(c, k, m) == 0
  {
  }

  /** Whatever the expense was counted as before, handling its next event leaves the model consistent. */
  lemma HandledKeepsConsistent(model: ReadModel, next: Contribution)
    requires Consistent(model) && Handled(model, next).Some?
    ensures Consistent(Handled(model, next).value)
  {
    hide Adjusted, Share, Total, Valid;
    var id := next.expenseId;
    var after := Handled(model, next).value;
    var found := id in model.contributions;
    var counted := found && model.contributions[id].active;
    forall k, m ensures Read(after.rollups, k, m) == Total(after.contributions, k, m) {
      var reversed := if counted then Adjusted(model.rollups, model.contributions[id], -1) else model.rollups;
      if counted {
        AppliedAndReversedReads(model.rollups, model.contributions[id], k, m);
      }
      if next.active {
        AppliedAndReversedReads(reversed, next, k, m);
        TotalChange(model.contributions, id, next, k, m);
      } else if found {
        TotalChange(model.contributions, id, model.contributions[id].(active := false), k, m);
        InactiveIsWorthless(model.contributions[id].(active := false), k, m);
      }
      if found && !counted {
        InactiveIsWorthless(model.contributions[id], k, m);
      }
    }
  }

  lemma HandledReflectsNext(model: ReadModel, latest: map<Id, Contribution>, next: Contribution)
    requires Reflects(model, latest) && Handled(model, next).Some?
    ensures Reflects(Handled(model, next).value, latest[next.expenseId := next])
  {
    HandledKeepsConsistent(model, next);
  }

  /** What a model holds for one expense is what the given event leaves behind; None stands for no event at all. */
  predicate Fits(model: ReadModel, id: Id, last: Option<Contribution>) {
    match last
    case None => id !in model.contributions
    case Some(c) =>
      if c.active then id in model.contributions && model.contributions[id] == c
      else id in model.contributions ==> !model.contributions[id].active
  }

  /**
   A model that reflects message c as the latest of an expense can take it back
   when the message before says the same, or both are tombstones; with none
   before, c must be a tombstone of an expense the model never counted.
   */
  predicate Retractable(model: ReadModel, c: Contribution, before: Option<Contribution>) {
    match before
    case None => !c.active && c.expenseId !in model.contributions
    case Some(p) => p == c || (!p.active && !c.active)
  }

  lemma RetractableFits(model: ReadModel, latest: map<Id, Contribution>, c: Contribution, before: Option<Contribution>)
    requires Reflects(model, latest) && Lookup(latest, c.expenseId) == Some(c)
    ensures Fits(model, c.expenseId, before) <==> Retractable(model, c, before)
  {
    hide Consistent;
  }

  function Lookup(latest: map<Id, Contribution>, id: Id): Option<Contribution> {
    if id in latest then Some(latest[id]) else None
  }

  /** Reflecting is decided expense by expense. */
  lemma ReflectsElsewhere(model: ReadModel, latest: map<Id, Contribution>, other: map<Id, Contribution>, id: Id)
    requires Reflects(model, latest) && forall x :: x != id ==> Lookup(latest, x) == Lookup(other, x)
    ensures Reflects(model, other) <==> Fits(model, id, Lookup(other, id))
  {
    hide Consistent;
    assert forall x :: x in latest ==> Lookup(latest, x) == Some(latest[x]);
    assert forall x :: x in other ==> Lookup(other, x) == Some(other[x]);
    forall x ensures x != id ==> (x in latest <==> x in other) {
      assert x != id ==> Lookup(latest, x) == Lookup(other, x);
    }
  }

  /**
   Handling an expense's message once more, after the model has moved on, is
   harmless exactly when the message is still the latest, or both are tombstones.
   */
  lemma HandledAgainIff(model: ReadModel, latest: map<Id, Contribution>, c: Contribution)
    requires Reflects(model, latest) && Handled(model, c).Some? && c.expenseId in latest
    ensures Reflects(Handled(model, c).value, latest)
            <==> latest[c.expenseId] == c || (!latest[c.expenseId].active && !c.active)
  {
    var id := c.expenseId;
    HandledReflectsNext(model, latest, c);
    forall x ensures x != id ==> Lookup(latest, x) == Lookup(latest[id := c], x) {
    }
    ReflectsElsewhere(Handled(model, c).value, latest[id := c], latest, id);
  }

  /** A consistent, reflecting model holds exactly the direct sum over the last events. */
  lemma ReflectedTotals(model: ReadModel, latest: map<Id, Contribution>, k: BucketKey, m: Measure)
    requires Reflects(model, latest)
    ensures Read(model.rollups, k, m) == Total(latest, k, m)
  {
    var f, g := Shares(model.contributions, k, m), Shares(latest, k, m);
    forall id | id in latest ensures f(id) == g(id) {
      assert latest[id].active ==> model.contributions[id] == latest[id];
    }
    SumSame(latest.Keys, f, g);
    SumExtend(model.contributions.Keys, latest.Keys, f);
  }

  // ---- Coarse buckets are sums of day buckets

  /** The midnights of a period's days. */
  ghost function DaysOf(period: AnalyticsPeriod, at: Time): set<Time> {
    set day | StartDay(period, DayOf(at)) <= day < EndDay(period, DayOf(at)) :: day * NANOS_PER_DAY
  }

  function DayBucket(k: BucketKey, day: Time): BucketKey {
    k.(period := Day, periodStart := day)
  }

  ghost function DayShares(c: Contribution, k: BucketKey, m: Measure): Time -> int {
    day => Share(c, DayBucket(k, day), m)
  }

  ghost function DayReads(rollups: map<BucketKey, Bucket>, k: BucketKey, m: Measure): Time -> int {
    day => Read(rollups, DayBucket(k, day), m)
  }

  /** Of all a period's day buckets, a contribution counts in exactly the one of its own day. */
  lemma ShareByDays(c: Contribution, k: BucketKey, at: Time, m: Measure)
    requires k.periodStart == PeriodStart(k.period, at)
    ensures Sum(DaysOf(k.period, at), DayShares(c, k, m)) == Share(c, k, m)
  {
    hide PeriodStart, MonthStart, MonthOfDay;
    var days := DaysOf(k.period, at);
    var f := DayShares(c, k, m);
    var own := PeriodStart(Day, c.occurredAt);
    AtMidnight(c.occurredAt);
    PeriodsPartitionTime(k.period, at, c.occurredAt);
    StartIsMidnight(k.period, at);
    EndIsMidnight(k.period, at);
    DayInterval(c.occurredAt, StartDay(k.period, DayOf(at)), EndDay(k.period, DayOf(at)));
    SameHits(c.tags, k, own);
    forall day | day in days && day != own ensures f(day) == 0 {
      assert !InScope(c, Day, DayBucket(k, day));
    }
    if k.periodStart == PeriodStart(k.period, c.occurredAt) {
      assert own in days;
      SumSingle(days, f, own);
    } else {
      SumExtend({}, days, f);
    }
  }

  lemma {:induction false} SameHits(tags: seq<Id>, k: BucketKey, day: Time)
    ensures TagHitCount(tags, DayBucket(k, day)) == TagHitCount(tags, k)
  {
    if tags != [] {
      SameHits(tags[..|tags| - 1], k, day);
    }
  }

  /** Every week, month and year bucket is the sum of the day buckets it contains. */
  lemma BucketIsSumOfDays(model: ReadModel, k: BucketKey, at: Time, m: Measure)
    requires Consistent(model) && k.periodStart == PeriodStart(k.period, at)
    ensures Read(model.rollups, k, m) == Sum(DaysOf(k.period, at), DayReads(model.rollups, k, m))
  {
    hide PeriodStart, Share;
    var days, ids := DaysOf(k.period, at), model.contributions.Keys;
    var f := (id: Id) => if id in ids then DayShares(model.contributions[id], k, m) else day => 0;
    var g := (day: Time) => Shares(model.contributions, DayBucket(k, day), m);
    forall id | id in ids ensures Shares(model.contributions, k, m)(id) == Sum(days, f(id)) {
      ShareByDays(model.contributions[id], k, at, m);
    }
    SumSwap(ids, days, f, g, Shares(model.contributions, k, m), DayReads(model.rollups, k, m));
  }

  // ---- Order only matters within one expense

  /** The contribution each expense's last applicable event carries, oldest event first. */
  ghost function LatestOf(events: seq<Event>): map<Id, Contribution> {
    if events == [] then map[]
    else
      var body := events[|events| - 1].body;
      var before := LatestOf(events[..|events| - 1]);
      if body.ExpenseBody? then before[body.contribution.expenseId := body.contribution] else before
  }

  /** Handling a whole schedule from an empty model; None once an event fails. */
  ghost function Replayed(events: seq<Event>): Option<ReadModel> {
    if events == [] then Some(EMPTY_MODEL)
    else
      var before := Replayed(events[..|events| - 1]);
      if before.None? then None else HandleEvent(before.value, events[|events| - 1].body)
  }

  lemma EmptyIsConsistent()
    ensures Reflects(EMPTY_MODEL, map[])
  {
  }

  lemma {:induction false} ReplayReflects(events: seq<Event>)
    requires Replayed(events).Some?
    ensures Reflects(Replayed(events).value, LatestOf(events))
  {
    if events != [] {
      var front, body := events[..|events| - 1], events[|events| - 1].body;
      ReplayReflects(front);
      if body.ExpenseBody? {
        HandledReflectsNext(Replayed(front).value, LatestOf(front), body.contribution);
      }
    }
  }

  /** The events of one expense, in the order of the schedule. */
  ghost function OfExpense(events: seq<Event>, id: Id): seq<Contribution> {
    if events == [] then []
    else
      var body := events[|events| - 1].body;
      OfExpense(events[..|events| - 1], id)
      + if body.ExpenseBody? && body.contribution.expenseId == id then [body.contribution] else []
  }

  lemma {:induction false} LatestIsLastOfExpense(events: seq<Event>, id: Id)
    ensures id in LatestOf(events) <==> OfExpense(events, id) != []
    ensures id in LatestOf(events) ==> LatestOf(events)[id] == OfExpense(events, id)[|OfExpense(events, id)| - 1]
  {
    if events != [] {
      LatestIsLastOfExpense(events[..|events| - 1], id);
    }
  }

  /**
   Two schedules that keep each expense's own order give the same totals,
   however they interleave different expenses.
   */
  lemma SchedulesAgree(one: seq<Event>, two: seq<Event>, k: BucketKey, m: Measure)
    requires forall id :: OfExpense(one, id) == OfExpense(two, id)
    requires Replayed(one).Some? && Replayed(two).Some?
    ensures Read(Replayed(one).value.rollups, k, m) == Read(Replayed(two).value.rollups, k, m)
  {
    hide Read, Replayed, OfExpense, LatestOf, Reflects;
    ReplayReflects(one);
    ReplayReflects(two);
    forall id ensures id in LatestOf(one) <==> id in LatestOf(two)
      ensures id in LatestOf(one) ==> LatestOf(one)[id] == LatestOf(two)[id]
    {
      LatestIsLastOfExpense(one, id);
      LatestIsLastOfExpense(two, id);
    }
    assert LatestOf(one) == LatestOf(two);
    ReflectedTotals(Replayed(one).value, LatestOf(one), k, m);
    ReflectedTotals(Replayed(two).value, LatestOf(two), k, m);
  }
}
