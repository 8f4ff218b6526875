/**
 The in-memory event store, its unit of work and the engine that drains it.
 Every method is tied to the queue's specification: which row moves, how, and
 that nothing else does.
 */
module EventStores {
  import opened Analytics
  import opened Calendar
  import opened Domain
  import opened Outbox
  import opened Queue
  import opened Rollups

  /** An expense body the analytics handler accepts whatever it has counted before. */
  predicate Acceptable(body: Body) {
    !body.Malformed? && (body.ExpenseBody? && body.contribution.active ==> Valid(body.contribution))
  }

  /** Snapshots its participants before the callback and restores them when it fails. */
  class UnitOfWork {
    const participants: seq<AnalyticsRepository>

    constructor (participants: seq<AnalyticsRepository>)
      ensures this.participants == participants
    {
      this.participants := participants;
    }

    /**
     Runs the handler and then a later step that may fail. A nested call joins
     the enclosing unit: it takes no snapshot and restores nothing itself.
     */
    method Within(nested: bool, projection: AnalyticsProjection, body: Body, laterStepFails: bool) returns (ok: bool)
      requires projection.repository in participants
      modifies set r | r in participants
      ensures ok <==> HandleEvent(old(projection.repository.Model()), body).Some? && !laterStepFails
      ensures ok ==> projection.repository.Model() == HandleEvent(old(projection.repository.Model()), body).value
      ensures ok || nested ==> forall r :: r in participants && r != projection.repository ==> r.Model() == old(r.Model())
      ensures !ok && !nested ==> forall r :: r in participants ==> r.Model() == old(r.Model())
    {
      hide HandleEvent;
      if nested {
        var handled := projection.Handle(body);
        return handled && !laterStepFails;
      }
      var saved: seq<ReadModel> := [];
      for i := 0 to |participants|
        modifies {}
        invariant |saved| == i && forall j :: 0 <= j < i ==> saved[j] == participants[j].Model()
      {
        var model := participants[i].Snapshot();
        saved := saved + [model];
      }
      var handled := projection.Handle(body);
      ok := handled && !laterStepFails;
      if !ok {
        for i := 0 to |participants|
          invariant forall j :: 0 <= j < i ==> participants[j].Model() == saved[j]
          invariant forall j :: 0 <= j < |participants| ==> saved[j] == old(participants[j].Model())
        {
          participants[i].Restore(saved[i]);
        }
      }
    }
  }

  datatype Result = Idle | Delivered(row: int) | Retried(row: int) | DeadLettered(row: int)

  class EventStore {
    var events: seq<Stored>
    var deliveries: seq<Delivery>
    var subscriptions: set<string>
    var versions: map<string, nat>
    var sequence: nat
    /** The injected clock's reading. */
    var clock: Time

    ghost predicate Valid()
      reads this
    {
      && sequence == |events|
      && (forall key :: (if key in versions then versions[key] else 0) == StreamLength(events, key))
      && Delivers(events, deliveries, subscriptions)
      && InOrder(deliveries)
      && MarkedDead(deliveries)
      && Numbered(events)
    }

    constructor (clock: Time)
      ensures Valid() && events == [] && deliveries == [] && subscriptions == {} && this.clock == clock
    {
      events, deliveries, subscriptions, versions, sequence := [], [], {}, map[], 0;
      this.clock := clock;
    }

    /** Records an event with the next global number and stream version, and queues it for every subscription. */
    method Append(event: Event)
      requires Valid()
      modifies this
      ensures Valid() && subscriptions == old(subscriptions) && clock == old(clock)
      ensures events == old(events) + [StoredNext(old(events), event)]
      ensures exists order :: Lists(order, subscriptions)
                && deliveries == old(deliveries) + Fanout(order, StoredNext(old(events), event))
    {
      hide InOrder, Delivers, Numbered;
      ghost var before, rows := events, deliveries;
      sequence := sequence + 1;
      var key := KeyOf(event);
      var version := (if key in versions then versions[key] else 0) + 1;
      versions := versions[key := version];
      var stored := Stored(event, sequence, version);
      events := events + [stored];
      assert events[..|before|] == before;
      ghost var order: seq<string> := [];
      var left := subscriptions;
      while left != {}
        invariant left <= subscriptions
        invariant forall name :: name in order <==> name in subscriptions && name !in left
        invariant forall i, j :: 0 <= i < j < |order| ==> order[i] != order[j]
        invariant deliveries == rows + Fanout(order, stored)
        invariant events == before + [stored] && sequence == |events| && subscriptions == old(subscriptions) && clock == old(clock)
        invariant forall k :: (if k in versions then versions[k] else 0) == StreamLength(events, k)
        decreases left
      {
        var subscription :| subscription in left;
        left := left - {subscription};
        deliveries := deliveries + [Queued(subscription, stored, false)];
        order := order + [subscription];
      }
      FanoutDelivers(before, rows, subscriptions, event, order);
      AppendKeepsNumbered(before, event);
    }

    /** Registers a subscription once, queuing the whole log for it as a replay. */
    method EnsureSubscription(name: string)
      requires Valid()
      modifies this
      ensures Valid() && events == old(events) && clock == old(clock)
      ensures subscriptions == old(subscriptions) + {name}
      ensures deliveries == old(deliveries) + if name in old(subscriptions) then [] else Backfill(name, events)
    {
      hide InOrder, Delivers, Numbered;
      if name in subscriptions {
        return;
      }
      ghost var rows := deliveries;
      subscriptions := subscriptions + {name};
      for i := 0 to |events|
        invariant events == old(events) && versions == old(versions) && sequence == old(sequence) && clock == old(clock)
        invariant |Backfill(name, events)| == |events| && deliveries == rows + Backfill(name, events)[..i]
        invariant subscriptions == old(subscriptions) + {name}
      {
        deliveries := deliveries + [Queued(name, events[i], true)];
      }
      assert Backfill(name, events)[..|events|] == Backfill(name, events);
      BackfillDelivers(events, rows, old(subscriptions), name);
    }

    method BlockedRow(i: int) returns (blocked: bool)
      requires 0 <= i < |deliveries|
      ensures blocked == Blocked(deliveries, i)
    {
      for j := 0 to |deliveries|
        invariant forall k :: 0 <= k < j ==> !(Earlier(deliveries[k], deliveries[i]) && deliveries[k].status != Processed)
      {
        if Earlier(deliveries[j], deliveries[i]) && deliveries[j].status != Processed {
          return true;
        }
      }
      return false;
    }

    /**
     The due, unlocked messages in global order. They are gathered in list
     order, which is already event order, so the sort of the original leaves
     them as they are.
     */
    method Candidates(subscription: string, types: seq<string>, lease: int) returns (candidates: seq<int>)
      requires Ordered(deliveries)
      ensures forall c :: c in candidates <==> 0 <= c < |deliveries| && Candidate(deliveries[c], subscription, types, clock, lease)
      ensures forall a :: 0 <= a < |candidates| ==> 0 <= candidates[a] < |deliveries|
      ensures forall a, b :: 0 <= a < b < |candidates|
                ==> deliveries[candidates[a]].source.globalSeq < deliveries[candidates[b]].source.globalSeq
    {
      candidates := [];
      for i := 0 to |deliveries|
        invariant forall c :: c in candidates <==> 0 <= c < i && Candidate(deliveries[c], subscription, types, clock, lease)
        invariant forall a :: 0 <= a < |candidates| ==> 0 <= candidates[a] < i && candidates[a] in candidates
        invariant forall a, b :: 0 <= a < b < |candidates| ==> candidates[a] < candidates[b]
      {
        if Candidate(deliveries[i], subscription, types, clock, lease) {
          candidates := candidates + [i];
        }
      }
    }

    /** Locks the claimable message with the lowest global number. */
    method Claim(subscription: string, types: seq<string>, policy: Policy) returns (row: Option<int>)
      requires Valid()
      modifies this`deliveries
      ensures Valid()
      ensures row.None? ==> deliveries == old(deliveries)
      ensures row.None? ==> forall i :: !Claimable(deliveries, i, subscription, types, clock, Lease(policy))
      ensures row.Some? ==>
                && Claimable(old(deliveries), row.value, subscription, types, clock, Lease(policy))
                && deliveries == old(deliveries)[row.value := Claimed(old(deliveries)[row.value], clock)]
                && forall i :: Claimable(old(deliveries), i, subscription, types, clock, Lease(policy))
                     ==> old(deliveries)[row.value].source.globalSeq <= old(deliveries)[i].source.globalSeq
      ensures row.Some? ==>
                && var d := old(deliveries)[row.value];
                && d.subscription == subscription && d.status == Pending && d.availableAt <= clock
                && (d.lockedAt == 0 || d.lockedAt <= clock - Lease(policy))
                && (types == [] || d.source.event.aggregateType in types)
                && deliveries[row.value].lockedAt == clock && deliveries[row.value].attempts == d.attempts + 1
    {
      hide InOrder, Blocked, Candidate, Delivers, Numbered, Ordered;
      DeliversInOrder(events, deliveries, subscriptions);
      var candidates := Candidates(subscription, types, Lease(policy));
      for n := 0 to |candidates|
        invariant deliveries == old(deliveries)
        invariant forall m :: 0 <= m < n ==> Blocked(deliveries, candidates[m])
      {
        var i := candidates[n];
        var blocked := BlockedRow(i);
        if blocked {
          continue;
        }
        ClaimKeepsOrder(deliveries, i, clock);
        forall c | Claimable(deliveries, c, subscription, types, clock, Lease(policy))
          ensures deliveries[i].source.globalSeq <= deliveries[c].source.globalSeq
        {
          var m :| 0 <= m < |candidates| && candidates[m] == c;
        }
        UpdateDelivers(events, deliveries, subscriptions, i, Claimed(deliveries[i], clock));
        CandidateIsFree(deliveries[i], subscription, types, clock, Lease(policy));
        deliveries := deliveries[i := Claimed(deliveries[i], clock)];
        return Some(i);
      }
      return None;
    }

    /**
     Claims the next message and applies it inside the unit of work. A failed
     handler leaves every participant as it was just before, while the message
     keeps its counted attempt and waits out its backoff or is dead-lettered.
     */
    method ProcessNext(subscription: string, types: seq<string>, policy: Policy, unit: UnitOfWork, projection: AnalyticsProjection, laterStepFails: bool)
      returns (result: Result)
      requires Valid() && projection.repository in unit.participants
      modifies this`deliveries, set r | r in unit.participants
      ensures Valid()
      ensures result.Idle? ==> deliveries == old(deliveries)
      ensures result.Idle? ==> forall i :: !Claimable(old(deliveries), i, subscription, types, clock, Lease(policy))
      ensures !result.Idle? ==>
                && Claimable(old(deliveries), result.row, subscription, types, clock, Lease(policy))
                && var claimed := Claimed(old(deliveries)[result.row], clock);
                && var outcome := HandleEvent(old(projection.repository.Model()), claimed.source.event.body);
                && (result.Delivered? <==> outcome.Some? && !laterStepFails)
                && (result.DeadLettered? <==> !result.Delivered? && policy.maxAttempts <= claimed.attempts)
                && deliveries == old(deliveries)[result.row := if result.Delivered? then Completed(claimed) else Failed(claimed, claimed.attempts, policy, clock)]
                && (result.Delivered? ==> projection.repository.Model() == outcome.value)
      ensures !result.Delivered? ==> forall r :: r in unit.participants ==> r.Model() == old(r.Model())
      ensures !result.Idle? ==>
                && var d, before := deliveries[result.row], old(deliveries)[result.row];
                && d.lockedAt == 0 && d.attempts == before.attempts + 1 && d.source == before.source
                && (result.Delivered? ==> d.status == Processed)
                && (result.Retried? ==> d.status == Pending && d.availableAt == clock + Backoff(policy, before.attempts + 1))
                && (result.DeadLettered? ==> d.status == Dead && d.deadLetteredAt == clock)
    {
      hide HandleEvent, InOrder, Delivers, Numbered, Claimable, Blocked, Backoff, Waiting, WaitingBehind;
      var claim := Claim(subscription, types, policy);
      if claim.None? {
        return Idle;
      }
      var row := claim.value;
      ClaimedIsUnblocked(old(deliveries), row, subscription, types, clock, Lease(policy));
      var claimed := deliveries[row];
      assert claimed == Claimed(old(deliveries)[row], clock);
      var ok := unit.Within(false, projection, claimed.source.event.body, laterStepFails);
      if ok {
        CompleteKeepsOrderIff(deliveries, row);
        UpdateDelivers(events, deliveries, subscriptions, row, Completed(claimed));
        deliveries := deliveries[row := Completed(claimed)];
        return Delivered(row);
      }
      BehindUnprocessedWaits(deliveries, row);
      FailKeepsOrderIff(deliveries, row, claimed.attempts, policy, clock);
      UpdateDelivers(events, deliveries, subscriptions, row, Failed(claimed, claimed.attempts, policy, clock));
      var delay := RetryDelay(policy, claimed.attempts);
      var failed := claimed.(status := Pending, lockedAt := 0, availableAt := clock + delay);
      if policy.maxAttempts <= claimed.attempts {
        failed := failed.(status := Dead, deadLetteredAt := clock);
        result := DeadLettered(row);
      } else {
        result := Retried(row);
      }
      deliveries := deliveries[row := failed];
    }

    method DeadBlockedRow(i: int) returns (blocked: bool)
      requires 0 <= i < |deliveries|
      ensures blocked == DeadBlocked(deliveries, i)
    {
      for j := 0 to |deliveries|
        invariant forall k :: 0 <= k < j ==> !(Earlier(deliveries[k], deliveries[i]) && deliveries[k].status == Dead)
      {
        if Earlier(deliveries[j], deliveries[i]) && deliveries[j].status == Dead {
          return true;
        }
      }
      return false;
    }

    /** Counts the pending messages no dead letter holds up; aggregate type filters do not apply. */
    method CountLag(subscription: string) returns (pending: nat)
      ensures pending == Lag(deliveries, subscription)
    {
      pending := 0;
      ghost var counted: set<int> := {};
      for i := 0 to |deliveries|
        invariant pending == |counted|
        invariant counted == set k | k in LagSet(deliveries, subscription) && k < i
      {
        if deliveries[i].subscription != subscription || deliveries[i].status != Pending {
          continue;
        }
        var blocked := DeadBlockedRow(i);
        if blocked {
          continue;
        }
        pending := pending + 1;
        counted := counted + {i};
      }
      assert counted == LagSet(deliveries, subscription);
    }

    method CountBlocked(i: int) returns (blocked: nat)
      requires 0 <= i < |deliveries|
      ensures blocked == BlockedCount(deliveries, i)
    {
      hide Earlier;
      blocked := 0;
      ghost var counted: set<int> := {};
      for j := 0 to |deliveries|
        invariant blocked == |counted|
        invariant counted == set k | k in BehindSet(deliveries, i) && k < j
      {
        if Earlier(deliveries[i], deliveries[j]) && deliveries[j].status == Pending {
          blocked := blocked + 1;
          counted := counted + {j};
        }
      }
      assert counted == BehindSet(deliveries, i);
    }

    /** Returns a dead letter to the queue with a fresh attempt budget; it and what it held up become lag again. */
    method RequeueDeadLetter(subscription: string, globalSeq: nat) returns (found: bool)
      requires Valid()
      modifies this`deliveries
      ensures Valid()
      ensures found <==> exists i :: 0 <= i < |old(deliveries)| && DeadLetter(old(deliveries)[i], subscription, globalSeq)
      ensures !found ==> deliveries == old(deliveries)
      ensures found ==> exists i ::
                && 0 <= i < |old(deliveries)| && DeadLetter(old(deliveries)[i], subscription, globalSeq)
                && deliveries == old(deliveries)[i := Requeued(old(deliveries)[i])]
                && Lag(deliveries, subscription) == Lag(old(deliveries), subscription) + 1 + BlockedCount(old(deliveries), i)
    {
      hide Lag, BlockedCount, InOrder;
      for i := 0 to |deliveries|
        invariant deliveries == old(deliveries)
        invariant forall k :: 0 <= k < i ==> !DeadLetter(deliveries[k], subscription, globalSeq)
      {
        if DeadLetter(deliveries[i], subscription, globalSeq) {
          RequeueKeepsOrder(deliveries, i);
          RequeueRaisesLag(deliveries, i);
          deliveries := deliveries[i := Requeued(deliveries[i])];
          return true;
        }
      }
      return false;
    }
  }

  predicate DeadLetter(d: Delivery, subscription: string, globalSeq: nat) {
    d.status == Dead && d.subscription == subscription && d.source.globalSeq == globalSeq
  }

  /** Only dead letters carry the time they were abandoned. */
  ghost predicate MarkedDead(ds: seq<Delivery>) {
    forall i :: 0 <= i < |ds| && ds[i].status == Pending ==> ds[i].deadLetteredAt == 0
  }

  lemma DeliversInOrder(events: seq<Stored>, ds: seq<Delivery>, names: set<string>)
    requires Delivers(events, ds, names)
    ensures Ordered(ds)
  {
  }

  lemma CandidateIsFree(d: Delivery, subscription: string, types: seq<string>, now: Time, lease: int)
    requires Candidate(d, subscription, types, now, lease)
    ensures d.subscription == subscription && d.status == Pending && d.availableAt <= now
    ensures d.lockedAt == 0 || d.lockedAt <= now - lease
    ensures types == [] || d.source.event.aggregateType in types
  {
  }

  lemma ClaimedIsUnblocked(ds: seq<Delivery>, row: int, subscription: string, types: seq<string>, now: Time, lease: int)
    requires Claimable(ds, row, subscription, types, now, lease)
    ensures 0 <= row < |ds| && ds[row].status == Pending && !Blocked(ds[row := Claimed(ds[row], now)], row)
  {
  }
}
