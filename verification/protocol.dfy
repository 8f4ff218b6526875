/**
 The outbox delivery protocol: any number of workers claim, commit, fail or
 crash, while commands append events, subscriptions are registered late and
 operators requeue dead letters. Every subscription here runs the analytics
 handler into a read model of its own.

 A claim is a transaction of its own; a commit writes the handler's effects and
 the processed mark together. Neither a commit nor a failure report checks that
 the worker still holds its lease, so both can come late; which late reports do
 no harm is part of what is proved.
 */
module Protocol {
  import opened Calendar
  import opened Domain
  import opened Outbox
  import opened Periods
  import opened Queue
  import opened Rollups
  import opened Sums

  /** A claim in flight: the row and the attempt count it was handed. */
  datatype Held = Held(row: int, attempts: nat)

  datatype System = System(
    events: seq<Stored>,
    deliveries: seq<Delivery>,
    subscriptions: set<string>,
    models: map<string, ReadModel>,
    workers: map<nat, Held>,
    lockedBy: map<int, nat>,
    now: Time)

  datatype Action =
    | Append(event: Event, order: seq<string>)
    | Register(name: string)
    | Claim(worker: nat, row: int)
    | Commit(worker: nat)
    | Fail(worker: nat)
    | Crash(worker: nat)
    | Requeue(row: int)
    | Tick(later: Time)

  const FILTER: seq<string> := ["expense"]

  /** Expense commands file an event under the id of the expense it carries. */
  predicate WellFormed(event: Event) {
    event.aggregateType == "expense" && event.body.ExpenseBody? ==> event.body.contribution.expenseId == event.aggregateId
  }

  /** The row is still locked by this worker, and its lease has not expired. */
  ghost predicate Holding(s: System, policy: Policy, worker: nat) {
    && worker in s.workers
    && 0 <= s.workers[worker].row < |s.deliveries|
    && var row := s.workers[worker].row;
    && row in s.lockedBy && s.lockedBy[row] == worker
    && s.deliveries[row].status == Pending
    && LeaseLive(s.deliveries[row], s.now, Lease(policy))
  }

  ghost predicate Enabled(s: System, policy: Policy, action: Action) {
    match action
    case Append(event, order) => WellFormed(event) && Lists(order, s.subscriptions)
    case Register(name) => true
    case Claim(worker, row) =>
      && worker !in s.workers
      && 0 <= row < |s.deliveries|
      && Claimable(s.deliveries, row, s.deliveries[row].subscription, FILTER, s.now, Lease(policy))
    case Commit(worker) =>
      && InFlight(s, worker)
      && var d := s.deliveries[s.workers[worker].row];
      && d.subscription in s.models
      && HandleEvent(s.models[d.subscription], d.source.event.body).Some?
    case Fail(worker) => InFlight(s, worker)
    case Crash(worker) => worker in s.workers
    case Requeue(row) => 0 <= row < |s.deliveries| && s.deliveries[row].status == Dead
    case Tick(later) => s.now <= later
  }

  predicate InFlight(s: System, worker: nat) {
    worker in s.workers && 0 <= s.workers[worker].row < |s.deliveries|
  }

  ghost function Step(s: System, policy: Policy, action: Action): System
    requires Enabled(s, policy, action)
  {
    var ds := s.deliveries;
    match action
    case Append(event, order) =>
      var source := StoredNext(s.events, event);
      s.(events := s.events + [source], deliveries := ds + Fanout(order, source))
    case Register(name) =>
      if name in s.subscriptions then s
      else s.(subscriptions := s.subscriptions + {name}, models := s.models[name := EMPTY_MODEL],
              deliveries := ds + Backfill(name, s.events))
    case Claim(worker, row) =>
      s.(deliveries := ds[row := Claimed(ds[row], s.now)], workers := s.workers[worker := Held(row, ds[row].attempts + 1)],
         lockedBy := s.lockedBy[row := worker])
    case Commit(worker) =>
      var row := s.workers[worker].row;
      var name := ds[row].subscription;
      s.(deliveries := ds[row := Completed(ds[row])],
         models := s.models[name := HandleEvent(s.models[name], ds[row].source.event.body).value],
         workers := s.workers - {worker}, lockedBy := s.lockedBy - {row})
    case Fail(worker) =>
      var row := s.workers[worker].row;
      s.(deliveries := ds[row := Failed(ds[row], s.workers[worker].attempts, policy, s.now)],
         workers := s.workers - {worker}, lockedBy := s.lockedBy - {row})
    case Crash(worker) => s.(workers := s.workers - {worker})
    case Requeue(row) => s.(deliveries := ds[row := Requeued(ds[row])], lockedBy := s.lockedBy - {row})
    case Tick(later) => s.(now := later)
  }

  ghost predicate AllEnabled(s: System, policy: Policy, run: seq<Action>)
    decreases |run|
  {
    run == [] || (Enabled(s, policy, run[0]) && AllEnabled(Step(s, policy, run[0]), policy, run[1..]))
  }

  ghost function After(s: System, policy: Policy, run: seq<Action>): System
    requires AllEnabled(s, policy, run)
    decreases |run|
  {
    if run == [] then s else After(Step(s, policy, run[0]), policy, run[1..])
  }

  function Initial(now: Time): System { System([], [], {}, map[], map[], map[], now) }

  // ---- The from-scratch view of what a subscription has processed

  predicate Counts(d: Delivery, name: string) {
    && d.subscription == name && d.status == Processed
    && d.source.event.aggregateType == "expense" && d.source.event.body.ExpenseBody?
  }

  /** Per expense, the contribution carried by the last processed event, in log order. */
  ghost function Latest(ds: seq<Delivery>, name: string): map<Id, Contribution> {
    if ds == [] then map[]
    else
      var d := ds[|ds| - 1];
      var before := Latest(ds[..|ds| - 1], name);
      if Counts(d, name) then before[d.source.event.body.contribution.expenseId := d.source.event.body.contribution] else before
  }

  /** Rows that do not count, before and after, change nothing. */
  lemma {:induction false} LatestFrame(ds: seq<Delivery>, next: seq<Delivery>, name: string)
    requires |ds| <= |next|
    requires forall i :: 0 <= i < |ds| ==> Counts(ds[i], name) == Counts(next[i], name) && ds[i].source == next[i].source
    requires forall i :: |ds| <= i < |next| ==> !Counts(next[i], name)
    ensures Latest(next, name) == Latest(ds, name)
    decreases |next|
  {
    if |ds| < |next| {
      LatestFrame(ds, next[..|next| - 1], name);
    } else if ds != [] {
      LatestFrame(ds[..|ds| - 1], next[..|next| - 1], name);
    }
  }

  /** A row that comes to count, with no counting row of its expense after it, sets that expense's entry. */
  lemma {:induction false} LatestCommit(ds: seq<Delivery>, row: int, done: Delivery, name: string)
    requires 0 <= row < |ds| && !Counts(ds[row], name) && Counts(done, name)
    requires forall j :: row < j < |ds| && Counts(ds[j], name)
               ==> ds[j].source.event.body.contribution.expenseId != done.source.event.body.contribution.expenseId
    ensures var c := done.source.event.body.contribution;
            Latest(ds[row := done], name) == Latest(ds, name)[c.expenseId := c]
  {
    var next := ds[row := done];
    var front := ds[..|ds| - 1];
    if row == |ds| - 1 {
      assert next[..|ds| - 1] == front;
    } else {
      LatestCommit(front, row, done, name);
      assert next[..|ds| - 1] == front[row := done];
    }
  }

  /** Changing how one row counts touches the entry of its own expense only. */
  lemma {:induction false} LatestElsewhere(ds: seq<Delivery>, row: int, d: Delivery, name: string, x: Id)
    requires 0 <= row < |ds| && d.source == ds[row].source && d.source.event.body.ExpenseBody?
    requires x != d.source.event.body.contribution.expenseId
    ensures Lookup(Latest(ds[row := d], name), x) == Lookup(Latest(ds, name), x)
  {
    var next := ds[row := d];
    var front := ds[..|ds| - 1];
    if row == |ds| - 1 {
      assert next[..|ds| - 1] == front;
    } else {
      LatestElsewhere(front, row, d, name, x);
      assert next[..|ds| - 1] == front[row := d];
    }
  }

  /** A counting row gives its expense an entry. */
  lemma {:induction false} LatestHas(ds: seq<Delivery>, row: int, name: string)
    requires 0 <= row < |ds| && Counts(ds[row], name)
    ensures ds[row].source.event.body.contribution.expenseId in Latest(ds, name)
  {
    if row < |ds| - 1 {
      LatestHas(ds[..|ds| - 1], row, name);
    }
  }

  // ---- The invariant

  ghost predicate LogOk(events: seq<Stored>, ds: seq<Delivery>, names: set<string>) {
    && Delivers(events, ds, names)
    && (forall k :: 0 <= k < |events| ==> WellFormed(events[k].event))
    && (forall i :: 0 <= i < |ds| ==> OnlyExpensesMove(ds[i]))
  }

  predicate OnlyExpensesMove(d: Delivery) {
    Waiting(d) || d.source.event.aggregateType == "expense"
  }

  /** Every claim in flight is on an expense message. */
  ghost predicate ClaimsOk(ds: seq<Delivery>, workers: map<nat, Held>) {
    forall w :: w in workers ==> ClaimOk(ds, workers[w])
  }

  ghost predicate ClaimOk(ds: seq<Delivery>, held: Held) {
    0 <= held.row < |ds| && ds[held.row].source.event.aggregateType == "expense"
  }

  ghost predicate ModelsOk(ds: seq<Delivery>, models: map<string, ReadModel>) {
    forall name :: name in models ==> Reflects(models[name], Latest(ds, name))
  }

  ghost predicate Invariant(s: System) {
    && LogOk(s.events, s.deliveries, s.subscriptions)
    && InOrder(s.deliveries)
    && ClaimsOk(s.deliveries, s.workers)
    && s.models.Keys == s.subscriptions
    && ModelsOk(s.deliveries, s.models)
  }

  /** What the outbox and the projections promise: streams in shape, and read models that reflect what was processed. */
  ghost predicate Promises(s: System) {
    StreamShape(s.deliveries) && ModelsOk(s.deliveries, s.models)
  }

  lemma InitialOk(now: Time)
    ensures Invariant(Initial(now))
  {
  }

  // ---- Which reports do no harm

  /**
   A commit, however late, does no harm when nothing earlier in the stream is
   outstanding and either the message was not processed yet, or it is still
   the latest of its expense, or both it and the latest are tombstones.
   */
  ghost predicate HarmlessCommit(s: System, worker: nat)
    requires InFlight(s, worker)
  {
    var ds, row := s.deliveries, s.workers[worker].row;
    && !Blocked(ds, row)
    && (Counts(ds[row], ds[row].subscription) ==>
          var c := ds[row].source.event.body.contribution;
          var last := Lookup(Latest(ds, ds[row].subscription), c.expenseId);
          last == Some(c) || (last.Some? && !last.value.active && !c.active))
  }

  /**
   A failure report does no harm when everything later in the stream is waiting,
   nothing earlier is outstanding should it dead-letter the message, and, if the
   message was processed, the one processed before it for the expense makes it
   retractable.
   */
  ghost predicate HarmlessFail(s: System, policy: Policy, worker: nat)
    requires InFlight(s, worker)
  {
    var ds, row := s.deliveries, s.workers[worker].row;
    && WaitingBehind(ds, row)
    && (policy.maxAttempts <= s.workers[worker].attempts ==> !Blocked(ds, row))
    && CanRetract(s, row)
  }

  ghost predicate CanRetract(s: System, row: int)
    requires 0 <= row < |s.deliveries|
  {
    var ds, name := s.deliveries, s.deliveries[row].subscription;
    Counts(ds[row], name) && name in s.models ==>
      var c := ds[row].source.event.body.contribution;
      Retractable(s.models[name], c, Lookup(Latest(Unprocessed(ds, row), name), c.expenseId))
  }

  function Unprocessed(ds: seq<Delivery>, row: int): seq<Delivery>
    requires 0 <= row < |ds|
  {
    ds[row := ds[row].(status := Pending)]
  }

  ghost predicate Harmless(s: System, policy: Policy, action: Action)
    requires Enabled(s, policy, action)
  {
    match action
    case Commit(worker) => HarmlessCommit(s, worker)
    case Fail(worker) => HarmlessFail(s, policy, worker)
    case _ => true
  }

  // ---- Every step keeps it

  lemma MoreRowsKeepClaims(ds: seq<Delivery>, more: seq<Delivery>, workers: map<nat, Held>)
    requires ClaimsOk(ds, workers)
    ensures ClaimsOk(ds + more, workers)
  {
    forall w | w in workers ensures ClaimOk(ds + more, workers[w]) {
      assert ClaimOk(ds, workers[w]);
    }
  }

  lemma FreshRowsKeepModels(ds: seq<Delivery>, more: seq<Delivery>, models: map<string, ReadModel>)
    requires ModelsOk(ds, models)
    requires forall i :: 0 <= i < |more| ==> Waiting(more[i])
    ensures ModelsOk(ds + more, models)
  {
    forall name | name in models ensures Reflects(models[name], Latest(ds + more, name)) {
      LatestFrame(ds, ds + more, name);
    }
  }

  lemma AppendKeeps(s: System, policy: Policy, event: Event, order: seq<string>)
    requires Invariant(s) && Enabled(s, policy, Append(event, order))
    ensures Invariant(Step(s, policy, Append(event, order)))
  {
    hide ClaimsOk, ModelsOk, InOrder, Latest, Delivers;
    var more := Fanout(order, StoredNext(s.events, event));
    FanoutDelivers(s.events, s.deliveries, s.subscriptions, event, order);
    MoreRowsKeepClaims(s.deliveries, more, s.workers);
    FreshRowsKeepModels(s.deliveries, more, s.models);
  }

  lemma RegisterKeeps(s: System, policy: Policy, name: string)
    requires Invariant(s)
    ensures Invariant(Step(s, policy, Register(name)))
  {
    hide ClaimsOk, InOrder, IsDelivery, Latest;
    if name !in s.subscriptions {
      var more := Backfill(name, s.events);
      BackfillDelivers(s.events, s.deliveries, s.subscriptions, name);
      MoreRowsKeepClaims(s.deliveries, more, s.workers);
      FreshRowsKeepModels(s.deliveries, more, s.models);
      NothingCounts(s.events, s.deliveries, s.subscriptions, name);
      LatestFrame(s.deliveries, s.deliveries + more, name);
      EmptyIsConsistent();
    }
  }

  lemma {:induction false} NothingCounts(events: seq<Stored>, ds: seq<Delivery>, names: set<string>, name: string)
    requires name !in names && forall i :: 0 <= i < |ds| ==> IsDelivery(events, names, ds[i])
    ensures Latest(ds, name) == map[]
  {
    if ds != [] {
      assert IsDelivery(events, names, ds[|ds| - 1]);
      NothingCounts(events, ds[..|ds| - 1], names, name);
    }
  }

  /** Rewriting an expense row's delivery state keeps log and claims in shape. */
  lemma UpdateKeepsLog(events: seq<Stored>, ds: seq<Delivery>, names: set<string>, workers: map<nat, Held>, row: int, d: Delivery)
    requires LogOk(events, ds, names) && ClaimsOk(ds, workers) && 0 <= row < |ds|
    requires d.subscription == ds[row].subscription && d.source == ds[row].source
    requires OnlyExpensesMove(d)
    ensures LogOk(events, ds[row := d], names) && ClaimsOk(ds[row := d], workers)
  {
    hide Delivers, Waiting;
    UpdateDelivers(events, ds, names, row, d);
    forall w | w in workers ensures ClaimOk(ds[row := d], workers[w]) {
      assert ClaimOk(ds, workers[w]);
    }
  }

  /** A row that counts neither before nor after leaves every read model as it was. */
  lemma UpdateKeepsModels(ds: seq<Delivery>, models: map<string, ReadModel>, row: int, d: Delivery)
    requires ModelsOk(ds, models) && 0 <= row < |ds| && d.source == ds[row].source
    requires ds[row].status != Processed && d.status != Processed
    ensures ModelsOk(ds[row := d], models)
  {
    forall name | name in models ensures Reflects(models[name], Latest(ds[row := d], name)) {
      LatestFrame(ds, ds[row := d], name);
    }
  }

  lemma ClaimKeeps(s: System, policy: Policy, worker: nat, row: int)
    requires Invariant(s) && Enabled(s, policy, Claim(worker, row))
    ensures Invariant(Step(s, policy, Claim(worker, row)))
  {
    hide LogOk, ModelsOk, InOrder, Latest, Blocked;
    var d := Claimed(s.deliveries[row], s.now);
    ClaimKeepsOrder(s.deliveries, row, s.now);
    UpdateKeepsLog(s.events, s.deliveries, s.subscriptions, s.workers, row, d);
    UpdateKeepsModels(s.deliveries, s.models, row, d);
    var workers := s.workers[worker := Held(row, d.attempts)];
    forall w | w in workers ensures ClaimOk(s.deliveries[row := d], workers[w]) {
      assert w != worker ==> ClaimOk(s.deliveries[row := d], s.workers[w]);
    }
  }

  /** A commit keeps the models exact if and only if it is not an outdated repetition. */
  lemma CommitKeepsModelsIff(s: System, policy: Policy, worker: nat)
    requires Invariant(s) && Enabled(s, policy, Commit(worker))
    ensures var next, ds, row := Step(s, policy, Commit(worker)), s.deliveries, s.workers[worker].row;
            ModelsOk(next.deliveries, next.models)
            <==> (Counts(ds[row], ds[row].subscription) ==>
                    var c := ds[row].source.event.body.contribution;
                    var last := Lookup(Latest(ds, ds[row].subscription), c.expenseId);
                    last == Some(c) || (last.Some? && !last.value.active && !c.active))
  {
    hide HandleEvent, Handled, Reflects, Delivers, InOrder, Waiting;
    var ds, row := s.deliveries, s.workers[worker].row;
    var next := Step(s, policy, Commit(worker));
    var d, name := ds[row], ds[row].subscription;
    forall other | other in s.models && other != name ensures Latest(next.deliveries, other) == Latest(ds, other) {
      LatestFrame(ds, next.deliveries, other);
    }
    assert ClaimOk(ds, s.workers[worker]);
    assert ModelsOk(next.deliveries, next.models) <==> Reflects(next.models[name], Latest(next.deliveries, name));
    if Counts(d, name) {
      LatestFrame(ds, next.deliveries, name);
      LatestHas(ds, row, name);
      RepeatedCommit(s.models[name], Latest(ds, name), d.source.event.body);
    } else {
      FirstCommitReflects(s, row);
    }
  }

  lemma RepeatedCommit(model: ReadModel, latest: map<Id, Contribution>, body: Body)
    requires Reflects(model, latest) && HandleEvent(model, body).Some?
    requires body.ExpenseBody? && body.contribution.expenseId in latest
    ensures var c := body.contribution;
            Reflects(HandleEvent(model, body).value, latest)
            <==> latest[c.expenseId] == c || (!latest[c.expenseId].active && !c.active)
  {
    hide Handled, Reflects;
    HandledAgainIff(model, latest, body.contribution);
  }

  /** Committing a message that does not count yet makes its model reflect it. */
  lemma FirstCommitReflects(s: System, row: int)
    requires Invariant(s) && 0 <= row < |s.deliveries|
    requires var d := s.deliveries[row];
             && !Counts(d, d.subscription) && d.source.event.aggregateType == "expense"
             && d.subscription in s.models && HandleEvent(s.models[d.subscription], d.source.event.body).Some?
    ensures var d := s.deliveries[row];
            Reflects(HandleEvent(s.models[d.subscription], d.source.event.body).value,
                     Latest(s.deliveries[row := Completed(d)], d.subscription))
  {
    hide HandleEvent, Handled, Reflects;
    var ds, d := s.deliveries, s.deliveries[row];
    var done, name := Completed(d), d.subscription;
    CommitReflects(s.models[name], Latest(ds, name), d.source.event.body);
    if Counts(done, name) {
      NothingLaterCounts(s, row);
      LatestCommit(ds, row, done, name);
    } else {
      LatestFrame(ds, ds[row := done], name);
    }
  }

  lemma CommitReflects(model: ReadModel, latest: map<Id, Contribution>, body: Body)
    requires Reflects(model, latest) && HandleEvent(model, body).Some?
    ensures Reflects(HandleEvent(model, body).value,
              if body.ExpenseBody? then latest[body.contribution.expenseId := body.contribution] else latest)
  {
    hide Handled, Reflects;
    if body.ExpenseBody? {
      HandledReflectsNext(model, latest, body.contribution);
    }
  }

  /** Behind an unprocessed row, no later row of the same expense has been processed. */
  lemma NothingLaterCounts(s: System, row: int)
    requires Invariant(s) && 0 <= row < |s.deliveries| && Counts(Completed(s.deliveries[row]), s.deliveries[row].subscription)
    requires s.deliveries[row].status != Processed
    ensures forall j :: row < j < |s.deliveries| && Counts(s.deliveries[j], s.deliveries[row].subscription)
              ==> s.deliveries[j].source.event.body.contribution.expenseId != s.deliveries[row].source.event.body.contribution.expenseId
  {
    hide ClaimsOk, ModelsOk;
    var ds, d := s.deliveries, s.deliveries[row];
    assert IsDelivery(s.events, s.subscriptions, d);
    forall j | row < j < |ds| && Counts(ds[j], d.subscription)
      ensures ds[j].source.event.body.contribution.expenseId != d.source.event.body.contribution.expenseId
    {
      assert IsDelivery(s.events, s.subscriptions, ds[j]);
      assert !Earlier(d, ds[j]);
    }
  }

  /** A commit, on time or late, keeps both promises if and only if it is harmless. */
  lemma CommitKeepsIff(s: System, policy: Policy, worker: nat)
    requires Invariant(s) && Enabled(s, policy, Commit(worker))
    ensures Promises(Step(s, policy, Commit(worker))) <==> HarmlessCommit(s, worker)
    ensures HarmlessCommit(s, worker) ==> Invariant(Step(s, policy, Commit(worker)))
  {
    hide LogOk, ModelsOk, InOrder, StreamShape, Latest, HandleEvent, Counts, Blocked;
    OrderIsShape(Step(s, policy, Commit(worker)).deliveries);
    var ds, row := s.deliveries, s.workers[worker].row;
    var d := Completed(ds[row]);
    assert ClaimOk(ds, s.workers[worker]);
    CompleteKeepsOrderIff(ds, row);
    UpdateKeepsLog(s.events, ds, s.subscriptions, s.workers, row, d);
    CommitKeepsModelsIff(s, policy, worker);
  }

  /** A counting row with only waiting rows behind it is the latest of its expense. */
  lemma LastOfItsExpense(s: System, row: int)
    requires Invariant(s) && 0 <= row < |s.deliveries|
    requires Counts(s.deliveries[row], s.deliveries[row].subscription) && WaitingBehind(s.deliveries, row)
    ensures var c := s.deliveries[row].source.event.body.contribution;
            Lookup(Latest(s.deliveries, s.deliveries[row].subscription), c.expenseId) == Some(c)
  {
    hide ClaimsOk, ModelsOk, Latest;
    var ds, d := s.deliveries, s.deliveries[row];
    assert IsDelivery(s.events, s.subscriptions, d);
    forall j | row < j < |ds| && Counts(ds[j], d.subscription)
      ensures ds[j].source.event.body.contribution.expenseId != d.source.event.body.contribution.expenseId
    {
      assert IsDelivery(s.events, s.subscriptions, ds[j]);
      assert !Earlier(d, ds[j]);
    }
    LatestCommit(Unprocessed(ds, row), row, d, d.subscription);
    assert Unprocessed(ds, row)[row := d] == ds;
  }

  /** A failure report with only waiting rows behind it keeps the models exact if and only if the message is retractable. */
  lemma FailKeepsModelsIff(s: System, policy: Policy, worker: nat)
    requires Invariant(s) && Enabled(s, policy, Fail(worker)) && WaitingBehind(s.deliveries, s.workers[worker].row)
    ensures ModelsOk(Step(s, policy, Fail(worker)).deliveries, s.models) <==> CanRetract(s, s.workers[worker].row)
  {
    hide Reflects, Fits, Retractable, Delivers, InOrder, Waiting, WaitingBehind, ClaimsOk;
    var ds, row := s.deliveries, s.workers[worker].row;
    var name, next := ds[row].subscription, Step(s, policy, Fail(worker)).deliveries;
    forall other | other in s.models && (other != name || !Counts(ds[row], name))
      ensures Latest(next, other) == Latest(ds, other)
    {
      LatestFrame(ds, next, other);
    }
    if Counts(ds[row], name) && name in s.models {
      var c := ds[row].source.event.body.contribution;
      LatestFrame(Unprocessed(ds, row), next, name);
      forall x ensures x != c.expenseId ==> Lookup(Latest(ds, name), x) == Lookup(Latest(next, name), x) {
        if x != c.expenseId { LatestElsewhere(ds, row, next[row], name, x); }
      }
      ReflectsElsewhere(s.models[name], Latest(ds, name), Latest(next, name), c.expenseId);
      LastOfItsExpense(s, row);
      RetractableFits(s.models[name], Latest(ds, name), c, Lookup(Latest(next, name), c.expenseId));
    }
  }

  /** A failure report, on time or late, keeps both promises if and only if it is harmless. */
  lemma FailKeepsIff(s: System, policy: Policy, worker: nat)
    requires Invariant(s) && Enabled(s, policy, Fail(worker))
    ensures Promises(Step(s, policy, Fail(worker))) <==> HarmlessFail(s, policy, worker)
    ensures HarmlessFail(s, policy, worker) ==> Invariant(Step(s, policy, Fail(worker)))
  {
    hide LogOk, ModelsOk, InOrder, StreamShape, CanRetract, Blocked, WaitingBehind;
    OrderIsShape(Step(s, policy, Fail(worker)).deliveries);
    var ds, row := s.deliveries, s.workers[worker].row;
    var d := Failed(ds[row], s.workers[worker].attempts, policy, s.now);
    assert ClaimOk(ds, s.workers[worker]);
    FailKeepsOrderIff(ds, row, s.workers[worker].attempts, policy, s.now);
    UpdateKeepsLog(s.events, ds, s.subscriptions, s.workers, row, d);
    if WaitingBehind(ds, row) {
      FailKeepsModelsIff(s, policy, worker);
    }
  }

  /** A report made while the lease is held is always harmless. */
  lemma LeaseMakesHarmless(s: System, policy: Policy, worker: nat)
    requires Invariant(s) && Holding(s, policy, worker)
    ensures HarmlessCommit(s, worker) && HarmlessFail(s, policy, worker)
  {
    hide LogOk, ModelsOk, InOrder, Latest, Blocked, WaitingBehind, Retractable;
    TouchedIsUnblocked(s.deliveries, s.workers[worker].row);
    BehindUnprocessedWaits(s.deliveries, s.workers[worker].row);
  }

  lemma RequeueKeeps(s: System, policy: Policy, row: int)
    requires Invariant(s) && Enabled(s, policy, Requeue(row))
    ensures Invariant(Step(s, policy, Requeue(row)))
  {
    hide LogOk, ModelsOk, InOrder, Latest, ClaimsOk;
    var ds := s.deliveries;
    var d := Requeued(ds[row]);
    RequeueKeepsOrder(ds, row);
    UpdateKeepsLog(s.events, ds, s.subscriptions, s.workers, row, d);
    UpdateKeepsModels(ds, s.models, row, d);
  }

  /** One step keeps both promises if and only if it is not a harmful late report. */
  lemma StepKeepsIff(s: System, policy: Policy, action: Action)
    requires Invariant(s) && Enabled(s, policy, action)
    ensures Promises(Step(s, policy, action)) <==> Harmless(s, policy, action)
    ensures Harmless(s, policy, action) ==> Invariant(Step(s, policy, action))
  {
    hide LogOk, ModelsOk, InOrder, StreamShape, HarmlessCommit, HarmlessFail, HandleEvent;
    OrderIsShape(Step(s, policy, action).deliveries);
    match action
    case Append(event, order) => AppendKeeps(s, policy, event, order);
    case Register(name) => RegisterKeeps(s, policy, name);
    case Claim(worker, row) => ClaimKeeps(s, policy, worker, row);
    case Commit(worker) => CommitKeepsIff(s, policy, worker);
    case Fail(worker) => FailKeepsIff(s, policy, worker);
    case Crash(worker) =>
    case Requeue(row) => RequeueKeeps(s, policy, row);
    case Tick(later) =>
  }

  /** Every report in the run is harmless at the moment it is made. */
  ghost predicate AllHarmless(s: System, policy: Policy, run: seq<Action>)
    requires AllEnabled(s, policy, run)
    decreases |run|
  {
    run == [] || (Harmless(s, policy, run[0]) && AllHarmless(Step(s, policy, run[0]), policy, run[1..]))
  }

  /** Both promises hold now and after every step of the run. */
  ghost predicate AlwaysKept(s: System, policy: Policy, run: seq<Action>)
    requires AllEnabled(s, policy, run)
    decreases |run|
  {
    Promises(s) && (run == [] || AlwaysKept(Step(s, policy, run[0]), policy, run[1..]))
  }

  /** Over any run both promises hold throughout if and only if every report is harmless. */
  lemma {:induction false} RunKeepsIff(s: System, policy: Policy, run: seq<Action>)
    requires Invariant(s) && AllEnabled(s, policy, run)
    ensures AlwaysKept(s, policy, run) <==> AllHarmless(s, policy, run)
    ensures AllHarmless(s, policy, run) ==> Invariant(After(s, policy, run))
    decreases |run|
  {
    hide Invariant, Promises, Enabled, Step, Harmless;
    InvariantKeepsPromises(s);
    if run != [] {
      StepKeepsIff(s, policy, run[0]);
      if Harmless(s, policy, run[0]) {
        RunKeepsIff(Step(s, policy, run[0]), policy, run[1..]);
      } else {
        assert !AlwaysKept(Step(s, policy, run[0]), policy, run[1..]);
      }
    }
  }

  lemma InvariantKeepsPromises(s: System)
    requires Invariant(s)
    ensures Promises(s)
  {
    OrderIsShape(s.deliveries);
  }

  /** Workers report only while they hold their lease. */
  ghost predicate AllLeased(s: System, policy: Policy, run: seq<Action>)
    requires AllEnabled(s, policy, run)
    decreases |run|
  {
    run == [] ||
    (&& (run[0].Commit? || run[0].Fail? ==> Holding(s, policy, run[0].worker))
     && AllLeased(Step(s, policy, run[0]), policy, run[1..]))
  }

  /** A run whose workers outlive no lease is harmless, so everything below holds of it. */
  lemma {:induction false} LeasedRunIsHarmless(s: System, policy: Policy, run: seq<Action>)
    requires Invariant(s) && AllEnabled(s, policy, run) && AllLeased(s, policy, run)
    ensures AllHarmless(s, policy, run)
    decreases |run|
  {
    hide Invariant, Enabled, Step, Holding, HarmlessCommit, HarmlessFail;
    if run != [] {
      if run[0].Commit? || run[0].Fail? {
        LeaseMakesHarmless(s, policy, run[0].worker);
      }
      StepKeepsIff(s, policy, run[0]);
      LeasedRunIsHarmless(Step(s, policy, run[0]), policy, run[1..]);
    }
  }

  // ---- What holds after every run

  /**
   In every reachable state each rollup bucket of each subscription holds, in
   amount and in count, the direct sum over expenses of what the last processed
   event of that expense is worth to the bucket.
   */
  lemma RollupsAreExact(start: Time, policy: Policy, run: seq<Action>, name: string, k: BucketKey, m: Measure)
    requires AllEnabled(Initial(start), policy, run) && AllHarmless(Initial(start), policy, run)
    requires name in After(Initial(start), policy, run).subscriptions
    ensures var s := After(Initial(start), policy, run);
            name in s.models && Read(s.models[name].rollups, k, m) == Total(Latest(s.deliveries, name), k, m)
  {
    hide Initial, Total, LogOk, InOrder, ClaimsOk, Latest;
    var s := After(Initial(start), policy, run);
    InitialOk(start);
    RunKeepsIff(Initial(start), policy, run);
    ReflectedTotals(s.models[name], Latest(s.deliveries, name), k, m);
  }

  /**
   In every reachable state each stream is a processed prefix, then at most one
   dead letter, then pending messages; a worker holds a lease only on a message
   all of whose predecessors are processed; and no two workers hold one stream.
   */
  lemma StreamsAreSafe(start: Time, policy: Policy, run: seq<Action>)
    requires AllEnabled(Initial(start), policy, run) && AllHarmless(Initial(start), policy, run)
    ensures var s := After(Initial(start), policy, run);
            && StreamShape(s.deliveries)
            && (forall w :: Holding(s, policy, w) ==> !Blocked(s.deliveries, s.workers[w].row))
            && (forall v, w :: Holding(s, policy, v) && Holding(s, policy, w) && v != w
                  ==> !SameStream(s.deliveries[s.workers[v].row], s.deliveries[s.workers[w].row]))
  {
    hide Initial, AllEnabled;
    var s := After(Initial(start), policy, run);
    InitialOk(start);
    RunKeepsIff(Initial(start), policy, run);
    OrderIsShape(s.deliveries);
    forall v, w | Holding(s, policy, v) && Holding(s, policy, w) && v != w
      ensures !SameStream(s.deliveries[s.workers[v].row], s.deliveries[s.workers[w].row])
    {
      HoldersDiffer(s, policy, v, w);
    }
  }

  /** In every such state each week, month and year bucket is the sum of the day buckets it contains. */
  lemma CoarseBucketsAreSumsOfDays(start: Time, policy: Policy, run: seq<Action>, name: string, k: BucketKey, at: Time, m: Measure)
    requires AllEnabled(Initial(start), policy, run) && AllHarmless(Initial(start), policy, run)
    requires name in After(Initial(start), policy, run).subscriptions && k.periodStart == PeriodStart(k.period, at)
    ensures var s := After(Initial(start), policy, run);
            name in s.models
            && Read(s.models[name].rollups, k, m) == Sum(DaysOf(k.period, at), DayReads(s.models[name].rollups, k, m))
  {
    hide Initial, LogOk, InOrder, ClaimsOk, Latest, PeriodStart;
    var s := After(Initial(start), policy, run);
    InitialOk(start);
    RunKeepsIff(Initial(start), policy, run);
    assert Reflects(s.models[name], Latest(s.deliveries, name));
    BucketIsSumOfDays(s.models[name], k, at, m);
  }

  /** While a worker holds its lease nobody else can claim a message of its stream, its own included. */
  lemma LeaseKeepsOthersOut(s: System, policy: Policy, w: nat, v: nat, row: int)
    requires Invariant(s) && Holding(s, policy, w) && Enabled(s, policy, Claim(v, row))
    ensures !SameStream(s.deliveries[row], s.deliveries[s.workers[w].row])
  {
    hide ModelsOk, IsDelivery, ClaimsOk;
    var held := s.workers[w].row;
    assert held < row ==> !Earlier(s.deliveries[held], s.deliveries[row]);
    assert row < held ==> !Earlier(s.deliveries[row], s.deliveries[held]);
  }

  lemma HoldersDiffer(s: System, policy: Policy, v: nat, w: nat)
    requires Invariant(s) && Holding(s, policy, v) && Holding(s, policy, w) && v != w
    ensures !SameStream(s.deliveries[s.workers[v].row], s.deliveries[s.workers[w].row])
  {
    hide ModelsOk, IsDelivery, ClaimsOk;
    var i, j := s.workers[v].row, s.workers[w].row;
    assert i < j ==> !Earlier(s.deliveries[i], s.deliveries[j]);
    assert j < i ==> !Earlier(s.deliveries[j], s.deliveries[i]);
  }

  // ---- A subscription registered late catches up

  /** The events delivered to one subscription, in list order. */
  ghost function SourcesOf(ds: seq<Delivery>, name: string): seq<Stored> {
    if ds == [] then []
    else SourcesOf(ds[..|ds| - 1], name) + if ds[|ds| - 1].subscription == name then [ds[|ds| - 1].source] else []
  }

  /** Every registered subscription has one delivery per stored event, in order. */
  ghost predicate Complete(s: System) {
    forall name :: name in s.subscriptions ==> SourcesOf(s.deliveries, name) == s.events
  }

  lemma {:induction false} SourcesConcat(a: seq<Delivery>, b: seq<Delivery>, name: string)
    ensures SourcesOf(a + b, name) == SourcesOf(a, name) + SourcesOf(b, name)
  {
    if b == [] {
      assert a + b == a;
    } else {
      assert (a + b)[..|a + b| - 1] == a + b[..|b| - 1];
      SourcesConcat(a, b[..|b| - 1], name);
    }
  }

  lemma {:induction false} SourcesFrame(ds: seq<Delivery>, next: seq<Delivery>, name: string)
    requires |ds| == |next|
    requires forall i :: 0 <= i < |ds| ==> ds[i].subscription == next[i].subscription && ds[i].source == next[i].source
    ensures SourcesOf(ds, name) == SourcesOf(next, name)
  {
    if ds != [] {
      SourcesFrame(ds[..|ds| - 1], next[..|next| - 1], name);
    }
  }

  lemma {:induction false} SourcesOfFanout(order: seq<string>, source: Stored, name: string)
    requires forall i, j :: 0 <= i < j < |order| ==> order[i] != order[j]
    ensures SourcesOf(Fanout(order, source), name) == if name in order then [source] else []
  {
    if order != [] {
      var front := order[..|order| - 1];
      assert Fanout(order, source)[..|order| - 1] == Fanout(front, source);
      SourcesOfFanout(front, source, name);
      assert order == front + [order[|order| - 1]];
    }
  }

  lemma BackfillGrows(name: string, events: seq<Stored>, last: Stored)
    ensures Backfill(name, events + [last]) == Backfill(name, events) + [Queued(name, last, true)]
  {
  }

  lemma SourcesOfOne(d: Delivery, other: string)
    ensures SourcesOf([d], other) == if d.subscription == other then [d.source] else []
  {
    assert [d][..0] == [];
  }

  lemma {:induction false} SourcesOfBackfill(name: string, events: seq<Stored>, other: string)
    ensures SourcesOf(Backfill(name, events), other) == if other == name then events else []
  {
    hide Backfill, SourcesOf;
    if events == [] {
      NothingBackfilled(name, other);
    } else {
      var front, last := events[..|events| - 1], events[|events| - 1];
      assert events == front + [last];
      BackfillGrows(name, front, last);
      SourcesOfBackfill(name, front, other);
      SourcesConcat(Backfill(name, front), [Queued(name, last, true)], other);
      SourcesOfOne(Queued(name, last, true), other);
    }
  }

  lemma NothingBackfilled(name: string, other: string)
    ensures SourcesOf(Backfill(name, []), other) == []
  {
  }

  lemma {:induction false} NoSources(events: seq<Stored>, ds: seq<Delivery>, names: set<string>, name: string)
    requires name !in names && forall i :: 0 <= i < |ds| ==> IsDelivery(events, names, ds[i])
    ensures SourcesOf(ds, name) == []
  {
    if ds != [] {
      assert IsDelivery(events, names, ds[|ds| - 1]);
      NoSources(events, ds[..|ds| - 1], names, name);
    }
  }

  lemma AppendKeepsComplete(s: System, source: Stored, order: seq<string>)
    requires Complete(s) && Lists(order, s.subscriptions)
    ensures Complete(s.(events := s.events + [source], deliveries := s.deliveries + Fanout(order, source)))
  {
    hide Fanout;
    forall name | name in s.subscriptions
      ensures SourcesOf(s.deliveries + Fanout(order, source), name) == s.events + [source]
    {
      SourcesConcat(s.deliveries, Fanout(order, source), name);
      SourcesOfFanout(order, source, name);
    }
  }

  lemma RegisterKeepsComplete(s: System, policy: Policy, name: string)
    requires Invariant(s) && Complete(s)
    ensures Complete(Step(s, policy, Register(name)))
  {
    hide InOrder, ClaimsOk, ModelsOk, IsDelivery, Ordered, Backfill;
    var next := Step(s, policy, Register(name));
    if name !in s.subscriptions {
      forall other | other in next.subscriptions ensures SourcesOf(next.deliveries, other) == s.events {
        SourcesConcat(s.deliveries, Backfill(name, s.events), other);
        SourcesOfBackfill(name, s.events, other);
        if other !in s.subscriptions {
          NoSources(s.events, s.deliveries, s.subscriptions, other);
        } else {
          assert s.events + [] == s.events;
        }
      }
    }
  }

  lemma StepKeepsComplete(s: System, policy: Policy, action: Action)
    requires Invariant(s) && Complete(s) && Enabled(s, policy, action)
    ensures Complete(Step(s, policy, action))
  {
    hide Invariant, Complete, HandleEvent, Fanout, Backfill, Claimable;
    var next := Step(s, policy, action);
    if action.Append? {
      AppendKeepsComplete(s, StoredNext(s.events, action.event), action.order);
    } else if action.Register? {
      RegisterKeepsComplete(s, policy, action.name);
    } else {
      SameSourcesComplete(s, next);
    }
  }

  lemma SameSourcesComplete(s: System, next: System)
    requires Complete(s) && next.events == s.events && next.subscriptions == s.subscriptions && |next.deliveries| == |s.deliveries|
    requires forall i :: 0 <= i < |s.deliveries| ==> SameSource(s.deliveries[i], next.deliveries[i])
    ensures Complete(next)
  {
    forall name | name in next.subscriptions ensures SourcesOf(next.deliveries, name) == next.events {
      SourcesFrame(s.deliveries, next.deliveries, name);
    }
  }

  predicate SameSource(a: Delivery, b: Delivery) { a.subscription == b.subscription && a.source == b.source }

  lemma {:induction false} RunKeepsComplete(s: System, policy: Policy, run: seq<Action>)
    requires Invariant(s) && Complete(s) && AllEnabled(s, policy, run) && AllHarmless(s, policy, run)
    ensures Complete(After(s, policy, run))
    decreases |run|
  {
    hide Invariant, Complete, Enabled, Step, Harmless;
    if run != [] {
      StepKeepsIff(s, policy, run[0]);
      StepKeepsComplete(s, policy, run[0]);
      RunKeepsComplete(Step(s, policy, run[0]), policy, run[1..]);
    }
  }

  /** Nothing is left to deliver: every expense message of the subscription is processed. */
  ghost predicate Drained(ds: seq<Delivery>, name: string) {
    forall i :: 0 <= i < |ds| && ds[i].subscription == name && ds[i].source.event.aggregateType == "expense"
      ==> ds[i].status == Processed
  }

  /** The last contribution of every expense in the log itself, whoever has processed it. */
  ghost function LatestStored(events: seq<Stored>): map<Id, Contribution> {
    if events == [] then map[]
    else
      var event := events[|events| - 1].event;
      var before := LatestStored(events[..|events| - 1]);
      if event.aggregateType == "expense" && event.body.ExpenseBody?
      then before[event.body.contribution.expenseId := event.body.contribution] else before
  }

  lemma {:induction false} DrainedSeesTheLog(ds: seq<Delivery>, name: string)
    requires Drained(ds, name)
    ensures Latest(ds, name) == LatestStored(SourcesOf(ds, name))
  {
    if ds != [] {
      var front, d := ds[..|ds| - 1], ds[|ds| - 1];
      DrainedSeesTheLog(front, name);
      var sources := SourcesOf(front, name);
      if d.subscription == name {
        assert (sources + [d.source])[..|sources|] == sources;
      } else {
        assert SourcesOf(ds, name) == sources;
      }
    }
  }

  /**
   Two drained subscriptions hold equal buckets whenever each was registered: a
   late one replays the log to exactly the totals of one that saw it live, and
   both equal the aggregation of the log from scratch.
   */
  lemma LateSubscriptionCatchesUp(start: Time, policy: Policy, run: seq<Action>, early: string, late: string, k: BucketKey, m: Measure)
    requires AllEnabled(Initial(start), policy, run) && AllHarmless(Initial(start), policy, run)
    requires var s := After(Initial(start), policy, run);
             && early in s.subscriptions && late in s.subscriptions
             && Drained(s.deliveries, early) && Drained(s.deliveries, late)
    ensures var s := After(Initial(start), policy, run);
            && early in s.models && late in s.models
            && Read(s.models[early].rollups, k, m) == Read(s.models[late].rollups, k, m)
            && Read(s.models[late].rollups, k, m) == Total(LatestStored(s.events), k, m)
  {
    hide Latest, Total, Read, Drained, Invariant;
    var s := After(Initial(start), policy, run);
    InitialOk(start);
    RunKeepsComplete(Initial(start), policy, run);
    DrainedSeesTheLog(s.deliveries, early);
    DrainedSeesTheLog(s.deliveries, late);
    RollupsAreExact(start, policy, run, early, k, m);
    RollupsAreExact(start, policy, run, late, k, m);
  }

  // ---- A worker left alone does what the in-memory store does in one call

  /** Undisturbed, a claim and a report come to the effect of one call that processes the message. */
  lemma ProcessIsClaimThenReport(s: System, policy: Policy, worker: nat, row: int)
    requires Invariant(s) && worker !in s.workers && 0 <= row < |s.deliveries|
    requires Claimable(s.deliveries, row, s.deliveries[row].subscription, FILTER, s.now, Lease(policy))
    ensures var ds, d := s.deliveries, s.deliveries[row];
            var claimed := Claimed(d, s.now);
            && d.subscription in s.models && Enabled(s, policy, Claim(worker, row))
            && var held, outcome := Step(s, policy, Claim(worker, row)), HandleEvent(s.models[d.subscription], d.source.event.body);
            && (Enabled(held, policy, Commit(worker)) <==> outcome.Some?)
            && (outcome.Some? ==>
                  var done := Step(held, policy, Commit(worker));
                  done.deliveries == ds[row := Completed(claimed)] && done.models == s.models[d.subscription := outcome.value] && done.workers == s.workers)
            && Enabled(held, policy, Fail(worker))
            && var failed := Step(held, policy, Fail(worker));
            && failed.deliveries == ds[row := Failed(claimed, d.attempts + 1, policy, s.now)] && failed.models == s.models && failed.workers == s.workers
  {
    hide HandleEvent, InOrder, ClaimsOk, ModelsOk, Blocked, Candidate, Backoff;
    assert IsDelivery(s.events, s.subscriptions, s.deliveries[row]);
    assert s.workers[worker := Held(row, s.deliveries[row].attempts + 1)] - {worker} == s.workers;
  }

  /** Any dead letter can be requeued and nothing else can; it comes back with a fresh budget and brings what it held up back into the lag. */
  lemma RequeueReturnsTheLetter(s: System, policy: Policy, row: int)
    requires Invariant(s) && 0 <= row < |s.deliveries|
    ensures Enabled(s, policy, Requeue(row)) <==> s.deliveries[row].status == Dead
    ensures s.deliveries[row].status == Dead ==>
              var next, name := Step(s, policy, Requeue(row)), s.deliveries[row].subscription;
              && Lag(next.deliveries, name) == Lag(s.deliveries, name) + 1 + BlockedCount(s.deliveries, row)
              && next.deliveries[row].status == Pending && next.deliveries[row].attempts == 0 && next.models == s.models
              && forall i :: 0 <= i < |s.deliveries| && i != row ==> next.deliveries[i] == s.deliveries[i]
  {
    hide InOrder, ClaimsOk, ModelsOk, Lag, BlockedCount, IsDelivery;
    if s.deliveries[row].status == Dead {
      RequeueRaisesLag(s.deliveries, row);
    }
  }

  // ---- What is a replay

  /** A subscription's replays are exactly the events that were in the log before it was registered. */
  ghost predicate ReplayedUpTo(s: System, name: string, cut: nat) {
    cut <= |s.events| && forall i :: 0 <= i < |s.deliveries| && s.deliveries[i].subscription == name
                           ==> (s.deliveries[i].replay <==> s.deliveries[i].source.globalSeq <= cut)
  }

  ghost predicate HasCut(s: System, name: string) {
    exists cut :: ReplayedUpTo(s, name, cut)
  }

  ghost predicate ReplaysAreHistory(s: System) {
    forall name :: name in s.subscriptions ==> HasCut(s, name)
  }

  lemma StepKeepsReplays(s: System, policy: Policy, action: Action)
    requires Invariant(s) && ReplaysAreHistory(s) && Enabled(s, policy, action)
    ensures ReplaysAreHistory(Step(s, policy, action))
  {
    hide InOrder, ClaimsOk, ModelsOk, Claimable, HandleEvent;
    var next := Step(s, policy, action);
    forall name | name in next.subscriptions ensures HasCut(next, name) {
      if name in s.subscriptions {
        var cut :| ReplayedUpTo(s, name, cut);
        KeepsCut(s, policy, action, name, cut);
      } else {
        RegisteredCut(s, policy, name);
      }
    }
  }

  lemma KeepsCut(s: System, policy: Policy, action: Action, name: string, cut: nat)
    requires Invariant(s) && Enabled(s, policy, action) && name in s.subscriptions && ReplayedUpTo(s, name, cut)
    ensures ReplayedUpTo(Step(s, policy, action), name, cut)
  {
    hide InOrder, ClaimsOk, ModelsOk, Claimable, HandleEvent, Ordered, Backoff;
  }

  /** What is in the log at registration is replayed, and nothing else. */
  lemma RegisteredCut(s: System, policy: Policy, name: string)
    requires Invariant(s) && name !in s.subscriptions
    ensures HasCut(Step(s, policy, Register(name)), name)
  {
    hide InOrder, ClaimsOk, ModelsOk, Ordered;
    var next := Step(s, policy, Register(name));
    forall i | 0 <= i < |s.deliveries| ensures s.deliveries[i].subscription != name {
      assert IsDelivery(s.events, s.subscriptions, s.deliveries[i]);
    }
    assert ReplayedUpTo(next, name, |s.events|);
  }

  /** Over every run a subscription's replays are exactly the events logged before it was registered. */
  lemma {:induction false} RunKeepsReplays(s: System, policy: Policy, run: seq<Action>)
    requires Invariant(s) && ReplaysAreHistory(s) && AllEnabled(s, policy, run) && AllHarmless(s, policy, run)
    ensures ReplaysAreHistory(After(s, policy, run))
    decreases |run|
  {
    hide Invariant, ReplaysAreHistory, Enabled, Step, Harmless;
    if run != [] {
      StepKeepsIff(s, policy, run[0]);
      StepKeepsReplays(s, policy, run[0]);
      RunKeepsReplays(Step(s, policy, run[0]), policy, run[1..]);
    }
  }

  // ---- A late report that does harm

  /** The state is reached by a run in which every report came in time. */
  ghost predicate Reached(s: System, policy: Policy) {
    exists start: Time, run: seq<Action> :: LeadsTo(start, policy, run, s)
  }

  ghost predicate LeadsTo(start: Time, policy: Policy, run: seq<Action>, s: System) {
    AllEnabled(Initial(start), policy, run) && AllLeased(Initial(start), policy, run) && After(Initial(start), policy, run) == s
  }

  lemma {:induction false} RunExtends(s: System, policy: Policy, run: seq<Action>, action: Action)
    requires AllEnabled(s, policy, run) && AllLeased(s, policy, run) && Enabled(After(s, policy, run), policy, action)
    requires action.Commit? || action.Fail? ==> Holding(After(s, policy, run), policy, action.worker)
    ensures var longer := run + [action];
            AllEnabled(s, policy, longer) && AllLeased(s, policy, longer)
            && After(s, policy, longer) == Step(After(s, policy, run), policy, action)
    decreases |run|
  {
    hide Enabled, Step, Holding;
    var longer := run + [action];
    if run == [] {
      assert longer[1..] == [];
    } else {
      assert longer[1..] == run[1..] + [action];
      RunExtends(Step(s, policy, run[0]), policy, run[1..], action);
    }
  }

  lemma ReachedStep(s: System, policy: Policy, action: Action)
    requires Reached(s, policy) && Enabled(s, policy, action)
    requires action.Commit? || action.Fail? ==> Holding(s, policy, action.worker)
    ensures Reached(Step(s, policy, action), policy)
  {
    hide AllEnabled, AllLeased, After, Enabled, Step, Holding;
    var start: Time, run: seq<Action> :| LeadsTo(start, policy, run, s);
    RunExtends(Initial(start), policy, run, action);
    assert LeadsTo(start, policy, run + [action], Step(s, policy, action));
  }

  lemma ReachedKeeps(s: System, policy: Policy)
    requires Reached(s, policy)
    ensures Invariant(s)
  {
    hide AllEnabled, AllLeased, After, Invariant, AllHarmless, AlwaysKept;
    var start: Time, run: seq<Action> :| LeadsTo(start, policy, run, s);
    InitialOk(start);
    LeasedRunIsHarmless(Initial(start), policy, run);
    RunKeepsIff(Initial(start), policy, run);
  }

  function Purchase(amount: int): Contribution { Contribution("x", "o", "c", "EUR", [], amount, 1, true) }

  function PurchaseEvent(id: Id, amount: int): Event { Event(id, "expense", "x", ExpenseBody(Purchase(amount))) }

  lemma PurchasesAreHandled(model: ReadModel, id: Id, amount: int)
    ensures HandleEvent(model, PurchaseEvent(id, amount).body).Some?
  {
  }

  lemma InitialIsReached(policy: Policy)
    ensures Reached(Initial(1), policy)
  {
    assert LeadsTo(1, policy, [], Initial(1));
  }

  ghost predicate TwoPurchases(ds: seq<Delivery>) {
    && |ds| == 2 && ds[0].subscription == "s" && ds[1].subscription == "s"
    && ds[0].source == Stored(PurchaseEvent("1", 1), 1, 1) && ds[1].source == Stored(PurchaseEvent("2", 2), 2, 2)
  }

  /** Appending an event for the one subscription there is. */
  lemma AppendOne(s: System, policy: Policy, event: Event) returns (next: System)
    requires Reached(s, policy) && s.subscriptions == {"s"} && WellFormed(event)
    ensures Reached(next, policy) && next.events == s.events + [StoredNext(s.events, event)]
    ensures next.deliveries == s.deliveries + [Queued("s", StoredNext(s.events, event), false)]
    ensures next.workers == s.workers && next.subscriptions == {"s"} && next.models == s.models && next.now == s.now
  {
    hide Reached, StoredNext, WellFormed, Queued;
    next := Reaches(s, policy, Append(event, ["s"]));
  }

  lemma TwoQueued(policy: Policy) returns (s: System)
    ensures Reached(s, policy) && s.workers == map[] && s.subscriptions == s.models.Keys == {"s"} && s.now == 1
    ensures TwoPurchases(s.deliveries) && forall i :: 0 <= i < 2 ==> s.deliveries[i] == Queued("s", s.deliveries[i].source, false)
  {
    hide Reached, Claimable;
    var one, two := PurchaseEvent("1", 1), PurchaseEvent("2", 2);
    InitialIsReached(policy);
    s := Reaches(Initial(1), policy, Register("s"));
    assert s.deliveries == [] && s.events == [] && s.subscriptions == {"s"};
    s := AppendOne(s, policy, one);
    assert StreamLength([], KeyOf(one)) == 0 && s.events == [Stored(one, 1, 1)];
    s := AppendOne(s, policy, two);
    assert StreamLength([Stored(one, 1, 1)], KeyOf(two)) == 1;
  }

  /** Two events of one expense; worker 0 has claimed the first and stalls past its lease. */
  lemma FirstClaim(policy: Policy) returns (s: System)
    ensures Reached(s, policy) && s.workers == map[0 := Held(0, 1)] && s.subscriptions == s.models.Keys == {"s"}
    ensures TwoPurchases(s.deliveries) && Waiting(s.deliveries[1]) && s.deliveries[1].availableAt <= s.now
    ensures Candidate(s.deliveries[0], "s", FILTER, s.now, Lease(policy))
    ensures 0 < s.now
  {
    hide Reached, PurchaseEvent;
    s := TwoQueued(policy);
    assert s.deliveries[0].source.event.aggregateType == "expense" by { PurchasesAreExpenses(); }
    s := Reaches(s, policy, Claim(0, 0));
    s := Reaches(s, policy, Tick(1 + Lease(policy)));
  }

  lemma PurchasesAreExpenses()
    ensures PurchaseEvent("1", 1).aggregateType == "expense"
  {
  }

  /** A free worker claims a row and commits it in time. */
  lemma ProcessRow(s: System, policy: Policy, worker: nat, row: int) returns (next: System)
    requires Reached(s, policy) && worker !in s.workers && 0 < s.now && s.models.Keys == {"s"}
    requires Claimable(s.deliveries, row, "s", FILTER, s.now, Lease(policy))
    requires HandleEvent(s.models["s"], s.deliveries[row].source.event.body).Some?
    ensures Reached(next, policy) && next.workers == s.workers && next.subscriptions == s.subscriptions && next.models.Keys == {"s"}
    ensures next.deliveries == s.deliveries[row := Completed(Claimed(s.deliveries[row], s.now))] && next.now == s.now
  {
    hide HandleEvent, Reached, Blocked;
    var claimed := Reaches(s, policy, Claim(worker, row));
    next := Reaches(claimed, policy, Commit(worker));
  }

  /** Worker 1 then processes the first message and worker 2 the second, with worker 0 still about. */
  lemma StalledWorker(policy: Policy) returns (s: System)
    ensures Reached(s, policy) && s.workers == map[0 := Held(0, 1)] && s.subscriptions == {"s"}
    ensures TwoPurchases(s.deliveries) && s.deliveries[0].status == s.deliveries[1].status == Processed
  {
    hide HandleEvent, Reached;
    s := FirstClaim(policy);
    PurchasesAreHandled(s.models["s"], "1", 1);
    s := ProcessRow(s, policy, 1, 0);
    PurchasesAreHandled(s.models["s"], "2", 2);
    s := ProcessRow(s, policy, 2, 1);
  }

  lemma Reaches(s: System, policy: Policy, action: Action) returns (next: System)
    requires Reached(s, policy) && Enabled(s, policy, action)
    requires action.Commit? || action.Fail? ==> Holding(s, policy, action.worker)
    ensures Reached(next, policy) && next == Step(s, policy, action)
  {
    ReachedStep(s, policy, action);
    next := Step(s, policy, action);
  }

  /**
   The unchecked reports are a real gap. Under every policy a run in which all
   reports so far came in time reaches a state where one late failure report
   reopens a processed stream, and one late commit puts an outdated amount into
   a bucket.
   */
  lemma LateReportsBreak(policy: Policy)
    ensures exists s: System, k: BucketKey ::
              && Reached(s, policy) && "s" in s.models
              && Enabled(s, policy, Fail(0)) && !StreamShape(Step(s, policy, Fail(0)).deliveries)
              && Enabled(s, policy, Commit(0))
              && var late := Step(s, policy, Commit(0));
              && Read(late.models["s"].rollups, k, Amount) != Total(Latest(late.deliveries, "s"), k, Amount)
  {
    hide HandleEvent, Reached, StreamShape, PeriodStart, Read, Total;
    var s := StalledWorker(policy);
    var k := KeyFor(Purchase(1), Day, "c", "");
    ReachedKeeps(s, policy);
    PurchasesAreHandled(s.models["s"], "1", 1);
    ReopenedBreaksShape(Step(s, policy, Fail(0)).deliveries);
    StalledCommit(s, policy, k);
  }

  lemma ReopenedBreaksShape(ds: seq<Delivery>)
    requires |ds| == 2 && Earlier(ds[0], ds[1]) && ds[0].status != Processed && ds[1].status == Processed
    ensures !StreamShape(ds)
  {
  }

  lemma StalledCommit(s: System, policy: Policy, k: BucketKey)
    requires Invariant(s) && s.workers == map[0 := Held(0, 1)] && s.subscriptions == {"s"}
    requires TwoPurchases(s.deliveries) && s.deliveries[0].status == s.deliveries[1].status == Processed
    requires k == KeyFor(Purchase(1), Day, "c", "") && Enabled(s, policy, Commit(0)) && "s" in s.models
    ensures var late := Step(s, policy, Commit(0));
            Read(late.models["s"].rollups, k, Amount) != Total(Latest(late.deliveries, "s"), k, Amount)
  {
    hide HandleEvent, PeriodStart, Read, Total, LogOk, InOrder, ClaimsOk, Reflects;
    var late := Step(s, policy, Commit(0));
    LatestOfTwo(s.deliveries);
    LatestOfTwo(late.deliveries);
    var body := s.deliveries[0].source.event.body;
    CommitReflects(s.models["s"], map["x" := Purchase(2)], body);
    assert map["x" := Purchase(2)]["x" := Purchase(1)] == map["x" := Purchase(1)];
    ReflectedTotals(late.models["s"], map["x" := Purchase(1)], k, Amount);
    TotalOfOne(1, k);
    TotalOfOne(2, k);
  }

  lemma LatestOfTwo(ds: seq<Delivery>)
    requires TwoPurchases(ds) && ds[0].status == ds[1].status == Processed
    ensures Latest(ds, "s") == map["x" := Purchase(2)]
  {
    assert ds[..1][..0] == [];
    assert Latest(ds[..1], "s") == map["x" := Purchase(1)];
    assert Latest(ds, "s") == Latest(ds[..1], "s")["x" := Purchase(2)];
  }

  lemma TotalOfOne(amount: int, k: BucketKey)
    requires k == KeyFor(Purchase(1), Day, "c", "")
    ensures Total(map["x" := Purchase(amount)], k, Amount) == amount
  {
    hide PeriodStart;
    var contributions := map["x" := Purchase(amount)];
    assert contributions.Keys == {"x"};
    SumSingle(contributions.Keys, Shares(contributions, k, Amount), "x");
  }
}
