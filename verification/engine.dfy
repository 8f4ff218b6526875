/** The engine that drives one subscription: single steps, and the drain loop between two polls. */
module Engines {
  import opened Analytics
  import opened Calendar
  import opened Domain
  import opened EventStores
  import opened Outbox
  import opened Queue
  import opened Rollups

  class Engine {
    const store: EventStore
    const unit: UnitOfWork
    const projection: AnalyticsProjection
    const subscription: string
    const types: seq<string>
    const policy: Policy
    const maxDrain: nat

    var processed: nat
    var retried: nat
    var deadLettered: nat
    var lag: nat
    var lastSuccessAt: Time
    var lastFailureAt: Time

    constructor (store: EventStore, unit: UnitOfWork, projection: AnalyticsProjection, subscription: string, types: seq<string>, policy: Policy, maxDrain: int)
      ensures this.store == store && this.unit == unit && this.projection == projection
      ensures this.subscription == subscription && this.types == types
      ensures this.policy == Normalise(policy) && this.maxDrain == (if maxDrain <= 0 then 100 else maxDrain)
      ensures processed == retried == deadLettered == lag == 0 && lastSuccessAt == lastFailureAt == 0
    {
      this.store, this.unit, this.projection := store, unit, projection;
      this.subscription, this.types := subscription, types;
      this.policy := Normalise(policy);
      this.maxDrain := if maxDrain <= 0 then 100 else maxDrain;
      processed, retried, deadLettered, lag := 0, 0, 0, 0;
      lastSuccessAt, lastFailureAt := 0, 0;
    }

    /** Every message still pending for the subscription carries a body the handler accepts. */
    ghost predicate HandlerSucceeds(ds: seq<Delivery>) {
      forall i :: 0 <= i < |ds| && ds[i].subscription == subscription && ds[i].status == Pending
        ==> Acceptable(ds[i].source.event.body)
    }

    /** Processes at most one message, counts its outcome and notes when it succeeded or failed. */
    method Step(laterStepFails: bool) returns (result: Result)
      requires store.Valid() && projection.repository in unit.participants
      modifies this, store`deliveries, set r | r in unit.participants
      ensures store.Valid()
      ensures result.Idle? ==> store.deliveries == old(store.deliveries)
                               && forall i :: !Claimable(store.deliveries, i, subscription, types, store.clock, Lease(policy))
      ensures !result.Idle? ==> Outcome(old(store.deliveries), store.deliveries, subscription, types, policy)
      ensures result.Delivered? ==>
                && Claimable(old(store.deliveries), result.row, subscription, types, store.clock, Lease(policy))
                && store.deliveries == old(store.deliveries)[result.row := Completed(Claimed(old(store.deliveries)[result.row], store.clock))]
      ensures HandlerSucceeds(old(store.deliveries)) && !laterStepFails ==> result.Idle? || result.Delivered?
      ensures processed == old(processed) + if result.Delivered? then 1 else 0
      ensures retried == old(retried) + if result.Retried? then 1 else 0
      ensures deadLettered == old(deadLettered) + if result.DeadLettered? then 1 else 0
      ensures lag == old(lag)
      ensures lastSuccessAt == if result.Delivered? then store.clock else old(lastSuccessAt)
      ensures lastFailureAt == if result.Retried? || result.DeadLettered? then store.clock else old(lastFailureAt)
    {
      hide Rollups.Handled, Backoff, InOrder;
      result := store.ProcessNext(subscription, types, policy, unit, projection, laterStepFails);
      if !result.Idle? {
        assert OutcomeAt(old(store.deliveries), store.deliveries, subscription, types, policy, result.row, store.clock);
        AcceptableIsHandled(old(projection.repository.Model()), old(store.deliveries)[result.row].source.event.body);
      }
      match result
      case Idle =>
      case Delivered(_) =>
        processed := processed + 1;
        lastSuccessAt := store.clock;
      case Retried(_) =>
        retried := retried + 1;
        lastFailureAt := store.clock;
      case DeadLettered(_) =>
        deadLettered := deadLettered + 1;
        lastFailureAt := store.clock;
    }

    /**
     One pass of the drain loop. On a settled, unfiltered subscription whose
     handler succeeds it processes exactly the lag, capped by the drain bound,
     then reports idle; dead letters stay where they are.
     */
    method Drain() returns (drained: nat)
      requires store.Valid() && projection.repository in unit.participants
      modifies this, store`deliveries, set r | r in unit.participants
      ensures store.Valid() && drained <= maxDrain
      ensures lag == Lag(store.deliveries, subscription)
      ensures types == [] && Settled(old(store.deliveries), subscription, store.clock, Lease(policy)) && HandlerSucceeds(old(store.deliveries)) ==>
                && drained == Min(maxDrain, Lag(old(store.deliveries), subscription))
                && processed == old(processed) + drained
                && lag == Lag(old(store.deliveries), subscription) - drained
                && DeadSet(store.deliveries, subscription) == DeadSet(old(store.deliveries), subscription)
      ensures drained < maxDrain ==> forall i :: !Claimable(store.deliveries, i, subscription, types, store.clock, Lease(policy))
    {
      hide Lag, Settled, Outcome, Blocked, Acceptable;
      drained := 0;
      ghost var good := types == [] && Settled(store.deliveries, subscription, store.clock, Lease(policy)) && HandlerSucceeds(store.deliveries);
      ghost var before := Lag(store.deliveries, subscription);
      var idle := false;
      while drained < maxDrain && !idle
        invariant store.Valid() && drained <= maxDrain
        invariant good ==> Settled(store.deliveries, subscription, store.clock, Lease(policy)) && HandlerSucceeds(store.deliveries)
        invariant good ==> Lag(store.deliveries, subscription) + drained == before && processed == old(processed) + drained
        invariant good ==> DeadSet(store.deliveries, subscription) == DeadSet(old(store.deliveries), subscription)
        invariant idle ==> forall i :: !Claimable(store.deliveries, i, subscription, types, store.clock, Lease(policy))
        decreases maxDrain - drained, !idle
      {
        ghost var ds := store.deliveries;
        var result := Step(false);
        if result.Idle? {
          idle := true;
        } else {
          drained := drained + 1;
          if good {
            ProcessingLowersLag(ds, result.row, subscription, types, store.clock, Lease(policy));
          }
        }
      }
      if good && idle && 0 < Lag(store.deliveries, subscription) {
        LagIsClaimable(store.deliveries, subscription, store.clock, Lease(policy));
      }
      lag := store.CountLag(subscription);
    }
  }

  lemma AcceptableIsHandled(model: ReadModel, body: Body)
    ensures Acceptable(body) ==> HandleEvent(model, body).Some?
  {
  }
}
