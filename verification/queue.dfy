/**
 The delivery queue as a value: one row per event and subscription, the blocker
 rule that keeps each aggregate's events in order, and what the rule guarantees.

 Times are nanoseconds; as in the original, a zero `lockedAt` means unlocked.
 */
module Queue {
  import opened Calendar
  import opened Domain
  import opened Outbox
  import opened Sums

  /** A decoded event body. `Malformed` is one whose payload does not decode. */
  datatype Body =
    | ExpenseBody(contribution: Contribution)
    | BudgetSaved(budget: Budget)
    | BudgetRemoved(budgetId: Id)
    | Malformed
    | OtherBody

  datatype Event = Event(id: Id, aggregateType: string, aggregateId: Id, body: Body)

  datatype Stored = Stored(event: Event, globalSeq: nat, version: nat)

  datatype Status = Pending | Processed | Dead

  datatype Delivery = Delivery(
    subscription: string,
    source: Stored,
    status: Status,
    attempts: nat,
    availableAt: Time,
    lockedAt: Time,
    deadLetteredAt: Time,
    replay: bool)

  // ---- What one row goes through

  function Queued(subscription: string, source: Stored, replay: bool): Delivery {
    Delivery(subscription, source, Pending, 0, 0, 0, 0, replay)
  }

  function Claimed(d: Delivery, now: Time): Delivery {
    d.(attempts := d.attempts + 1, lockedAt := now)
  }

  function Completed(d: Delivery): Delivery {
    d.(status := Processed, lockedAt := 0)
  }

  /** The failure of a claim, by the attempt count that claim was handed. */
  function Failed(d: Delivery, attempts: nat, policy: Policy, now: Time): Delivery {
    var retry := d.(status := Pending, lockedAt := 0, deadLetteredAt := 0, availableAt := now + Backoff(policy, attempts));
    if policy.maxAttempts <= attempts then retry.(status := Dead, deadLetteredAt := now) else retry
  }

  function Requeued(d: Delivery): Delivery {
    d.(status := Pending, attempts := 0, availableAt := 0, lockedAt := 0, deadLetteredAt := 0)
  }

  /** Neither claimed nor settled: queued, requeued or put back for a retry. */
  predicate Waiting(d: Delivery) {
    d.status == Pending && d.lockedAt == 0
  }

  // ---- Streams and the blocker rule

  predicate SameStream(a: Delivery, b: Delivery) {
    && a.subscription == b.subscription
    && a.source.event.aggregateType == b.source.event.aggregateType
    && a.source.event.aggregateId == b.source.event.aggregateId
  }

  predicate Earlier(a: Delivery, b: Delivery) {
    SameStream(a, b) && a.source.globalSeq < b.source.globalSeq
  }

  /** An earlier message of the same stream is pending or dead. */
  predicate Blocked(ds: seq<Delivery>, i: int)
    requires 0 <= i < |ds|
  {
    exists j :: 0 <= j < |ds| && Earlier(ds[j], ds[i]) && ds[j].status != Processed
  }

  predicate DeadBlocked(ds: seq<Delivery>, i: int)
    requires 0 <= i < |ds|
  {
    exists j :: 0 <= j < |ds| && Earlier(ds[j], ds[i]) && ds[j].status == Dead
  }

  /** An empty filter accepts every aggregate type. */
  predicate MatchesType(aggregateType: string, allowed: seq<string>) {
    allowed == [] || aggregateType in allowed
  }

  predicate LeaseLive(d: Delivery, now: Time, lease: int) {
    d.lockedAt != 0 && now - lease < d.lockedAt
  }

  /** Due, unlocked and of a wanted type; the blocker rule comes on top. */
  predicate Candidate(d: Delivery, subscription: string, types: seq<string>, now: Time, lease: int) {
    && d.subscription == subscription
    && d.status == Pending
    && d.availableAt <= now
    && !LeaseLive(d, now, lease)
    && MatchesType(d.source.event.aggregateType, types)
  }

  predicate Claimable(ds: seq<Delivery>, i: int, subscription: string, types: seq<string>, now: Time, lease: int) {
    0 <= i < |ds| && Candidate(ds[i], subscription, types, now, lease) && !Blocked(ds, i)
  }

  // ---- When a row can be claimed

  /** A message waits for exactly the outstanding earlier messages of its own subscription, aggregate type and aggregate. */
  lemma OnlyItsOwnStreamBlocks(ds: seq<Delivery>, i: int)
    requires 0 <= i < |ds|
    ensures Blocked(ds, i) <==> exists j ::
              && 0 <= j < |ds| && ds[j].subscription == ds[i].subscription
              && ds[j].source.event.aggregateType == ds[i].source.event.aggregateType
              && ds[j].source.event.aggregateId == ds[i].source.event.aggregateId
              && ds[j].source.globalSeq < ds[i].source.globalSeq && ds[j].status != Processed
  {
    forall j | 0 <= j < |ds| && ds[j].source.globalSeq < ds[i].source.globalSeq
      ensures Earlier(ds[j], ds[i]) <==> StreamOf(ds[j]) == StreamOf(ds[i])
    {
    }
  }

  function StreamOf(d: Delivery): (string, string, Id) {
    (d.subscription, d.source.event.aggregateType, d.source.event.aggregateId)
  }

  /** A processed message is unlocked, never claimed again, and blocks nobody. */
  lemma CompletedIsSettled(d: Delivery, subscription: string, types: seq<string>, now: Time, lease: int)
    ensures !Candidate(Completed(d), subscription, types, now, lease) && Completed(d).lockedAt == 0 && Completed(d).status == Processed
    ensures Completed(d).attempts == d.attempts && Completed(d).source == d.source && Completed(d).subscription == d.subscription
  {
  }

  /** A claim keeps everybody off the row for exactly the lease. */
  lemma ClaimLocksForLease(d: Delivery, claimedAt: Time, later: Time, subscription: string, types: seq<string>, lease: int)
    requires 0 < claimedAt <= later && Candidate(d, subscription, types, claimedAt, lease)
    ensures Candidate(Claimed(d, claimedAt), subscription, types, later, lease) <==> claimedAt + lease <= later
  {
  }

  /** A failed message is due again exactly when its backoff has passed, unless it was its last attempt: a dead letter never is. */
  lemma RetryWaitsOutBackoff(d: Delivery, attempts: nat, policy: Policy, now: Time, later: Time, types: seq<string>)
    ensures var failed := Failed(d, attempts, policy, now);
            && (Candidate(failed, d.subscription, types, later, Lease(policy))
                <==> attempts < policy.maxAttempts && now + Backoff(policy, attempts) <= later && MatchesType(d.source.event.aggregateType, types))
            && failed.deadLetteredAt == (if attempts < policy.maxAttempts then 0 else now)
            && failed.attempts == d.attempts && failed.source == d.source && failed.replay == d.replay
  {
    hide Backoff;
  }

  /** A queued or requeued message is due at once, to every subscriber that wants its type. */
  lemma QueuedIsDue(d: Delivery, source: Stored, replay: bool, types: seq<string>, now: Time, lease: int)
    requires 0 <= now
    ensures Candidate(Queued(d.subscription, source, replay), d.subscription, types, now, lease) <==> MatchesType(source.event.aggregateType, types)
    ensures Candidate(Requeued(d), d.subscription, types, now, lease) <==> MatchesType(d.source.event.aggregateType, types)
    ensures Queued(d.subscription, source, replay).deadLetteredAt == Requeued(d).deadLetteredAt == 0
    ensures Requeued(d).source == d.source && Requeued(d).replay == d.replay && Queued(d.subscription, source, replay).source == source
  {
  }

  /** A row that is claimed and fails at each of these times, one attempt after another. */
  function FailedAt(d: Delivery, policy: Policy, times: seq<Time>): Delivery {
    if times == [] then d
    else
      var before, now := FailedAt(d, policy, times[..|times| - 1]), times[|times| - 1];
      Failed(Claimed(before, now), before.attempts + 1, policy, now)
  }

  /** Queued and requeued messages start with a whole attempt budget: they are dead after exactly that many failures. */
  lemma {:induction false} BudgetIsSpentExactly(d: Delivery, source: Stored, replay: bool, policy: Policy, times: seq<Time>)
    requires times != []
    ensures FailedAt(Queued(d.subscription, source, replay), policy, times).status == Dead <==> policy.maxAttempts <= |times|
    ensures FailedAt(Requeued(d), policy, times).status == Dead <==> policy.maxAttempts <= |times|
  {
    hide Backoff;
    AttemptsCount(Queued(d.subscription, source, replay), policy, times[..|times| - 1]);
    AttemptsCount(Requeued(d), policy, times[..|times| - 1]);
  }

  lemma {:induction false} AttemptsCount(d: Delivery, policy: Policy, times: seq<Time>)
    ensures FailedAt(d, policy, times).attempts == d.attempts + |times|
  {
    hide Backoff;
    if times != [] {
      AttemptsCount(d, policy, times[..|times| - 1]);
    }
  }

  /** An empty filter takes every type, any other exactly the types it names. */
  lemma FilterTakes(aggregateType: string, one: string, other: string)
    ensures MatchesType(aggregateType, [])
    ensures MatchesType(aggregateType, [one]) <==> aggregateType == one
    ensures MatchesType(aggregateType, [one, other]) <==> aggregateType == one || aggregateType == other
  {
  }

  // ---- The ordering invariant

  /** Within a subscription, list order is event order. */
  ghost predicate Ordered(ds: seq<Delivery>) {
    forall i, j :: 0 <= i < j < |ds| && ds[i].subscription == ds[j].subscription
      ==> ds[i].source.globalSeq < ds[j].source.globalSeq
  }

  /** Behind a message that is not processed, every message of the stream is waiting. */
  ghost predicate InOrder(ds: seq<Delivery>) {
    forall i, j :: 0 <= i < |ds| && 0 <= j < |ds| && Earlier(ds[i], ds[j])
      ==> ds[i].status == Processed || Waiting(ds[j])
  }

  /**
   The promise made to handlers: each stream is a processed prefix, then at most
   one dead letter, then pending messages only, and only the first message that
   is not processed can hold a lease.
   */
  ghost predicate StreamShape(ds: seq<Delivery>) {
    forall i, j :: 0 <= i < |ds| && 0 <= j < |ds| && Earlier(ds[i], ds[j]) ==>
      && (ds[j].status != Pending ==> ds[i].status == Processed)
      && (ds[i].status != Processed ==> ds[j].status == Pending && ds[j].lockedAt == 0)
      && (ds[j].lockedAt != 0 ==> ds[i].status == Processed)
  }

  // ---- What appending and registering queue

  function KeyOf(event: Event): string { event.aggregateType + ":" + event.aggregateId }

  /** How many stored events carry this key: the version the next one follows. */
  function StreamLength(events: seq<Stored>, key: string): nat {
    if events == [] then 0
    else StreamLength(events[..|events| - 1], key) + if KeyOf(events[|events| - 1].event) == key then 1 else 0
  }

  function StoredNext(events: seq<Stored>, event: Event): Stored {
    Stored(event, |events| + 1, StreamLength(events, KeyOf(event)) + 1)
  }

  /** Each event carries its place in the log and in its stream. */
  ghost predicate Numbered(events: seq<Stored>) {
    forall k :: 0 <= k < |events| ==> NumberedAt(events, k)
  }

  ghost predicate NumberedAt(events: seq<Stored>, k: int)
    requires 0 <= k < |events|
  {
    events[k].globalSeq == k + 1 && events[k].version == StreamLength(events[..k + 1], KeyOf(events[k].event))
  }

  lemma AppendKeepsNumbered(events: seq<Stored>, event: Event)
    requires Numbered(events)
    ensures Numbered(events + [StoredNext(events, event)])
  {
    var more := events + [StoredNext(events, event)];
    assert more[..|events|] == events && more[..|events| + 1] == more;
    forall k | 0 <= k < |more| ensures NumberedAt(more, k) {
      if k < |events| {
        assert NumberedAt(events, k) && more[..k + 1] == events[..k + 1];
      }
    }
  }

  lemma {:induction false} StreamLengthGrows(events: seq<Stored>, i: nat, j: nat, key: string)
    requires i <= j <= |events|
    ensures StreamLength(events[..i], key) <= StreamLength(events[..j], key)
    ensures (forall k :: i <= k < j ==> KeyOf(events[k].event) != key) ==> StreamLength(events[..i], key) == StreamLength(events[..j], key)
    decreases j
  {
    if i < j {
      StreamLengthGrows(events, i, j - 1, key);
      assert events[..j][..j - 1] == events[..j - 1];
    }
  }

  /** The versions of a stream are 1, 2, 3 and so on, without gap or repeat. */
  lemma VersionsAreGapless(events: seq<Stored>, i: int, j: int)
    requires Numbered(events) && 0 <= i < j < |events| && KeyOf(events[i].event) == KeyOf(events[j].event)
    ensures events[i].version < events[j].version
    ensures (forall k :: i < k < j ==> KeyOf(events[k].event) != KeyOf(events[i].event)) ==> events[j].version == events[i].version + 1
    ensures (forall k :: 0 <= k < i ==> KeyOf(events[k].event) != KeyOf(events[i].event)) ==> events[i].version == 1
  {
    var key := KeyOf(events[i].event);
    assert NumberedAt(events, i) && NumberedAt(events, j);
    StreamLengthGrows(events, i + 1, j, key);
    StreamLengthGrows(events, 0, i, key);
    assert events[..j + 1][..j] == events[..j] && events[..i + 1][..i] == events[..i] && events[..0] == [];
  }

  /** The rows one new event adds, one per subscription in the order given. */
  function Fanout(order: seq<string>, source: Stored): seq<Delivery> {
    seq(|order|, i requires 0 <= i < |order| => Queued(order[i], source, false))
  }

  /** The rows a new subscription adds: the whole log, marked as replay. */
  function Backfill(name: string, events: seq<Stored>): seq<Delivery> {
    seq(|events|, i requires 0 <= i < |events| => Queued(name, events[i], true))
  }

  ghost predicate Lists(order: seq<string>, names: set<string>) {
    && (forall name :: name in order <==> name in names)
    && (forall i, j :: 0 <= i < j < |order| ==> order[i] != order[j])
  }

  /** The rows deliver stored events to registered subscriptions, each subscription's in event order. */
  ghost predicate Delivers(events: seq<Stored>, ds: seq<Delivery>, names: set<string>) {
    && (forall k :: 0 <= k < |events| ==> events[k].globalSeq == k + 1)
    && (forall i :: 0 <= i < |ds| ==> IsDelivery(events, names, ds[i]))
    && Ordered(ds)
  }

  ghost predicate IsDelivery(events: seq<Stored>, names: set<string>, d: Delivery) {
    && d.subscription in names
    && 1 <= d.source.globalSeq <= |events| && d.source == events[d.source.globalSeq - 1]
  }

  lemma FanoutDelivers(events: seq<Stored>, ds: seq<Delivery>, names: set<string>, event: Event, order: seq<string>)
    requires Delivers(events, ds, names) && Lists(order, names)
    ensures Delivers(events + [StoredNext(events, event)], ds + Fanout(order, StoredNext(events, event)), names)
    ensures InOrder(ds) ==> InOrder(ds + Fanout(order, StoredNext(events, event)))
  {
    var more := events + [StoredNext(events, event)];
    var next := ds + Fanout(order, StoredNext(events, event));
    forall i | 0 <= i < |next| ensures IsDelivery(more, names, next[i]) {
      if i < |ds| {
        assert IsDelivery(events, names, ds[i]);
      } else {
        assert order[i - |ds|] in order;
      }
    }
    forall i, j | 0 <= i < j < |next| && next[i].subscription == next[j].subscription
      ensures next[i].source.globalSeq < next[j].source.globalSeq
    {
      if i < |ds| {
        assert IsDelivery(events, names, ds[i]);
      }
    }
    if InOrder(ds) {
      FreshRowsKeepOrder(ds, Fanout(order, StoredNext(events, event)));
    }
  }

  lemma BackfillDelivers(events: seq<Stored>, ds: seq<Delivery>, names: set<string>, name: string)
    requires Delivers(events, ds, names) && name !in names
    ensures Delivers(events, ds + Backfill(name, events), names + {name})
    ensures InOrder(ds) ==> InOrder(ds + Backfill(name, events))
  {
    var next := ds + Backfill(name, events);
    forall i | 0 <= i < |ds| ensures IsDelivery(events, names + {name}, ds[i]) && ds[i].subscription != name {
      assert IsDelivery(events, names, ds[i]);
    }
    forall i, j | 0 <= i < j < |next| && next[i].subscription == next[j].subscription
      ensures next[i].source.globalSeq < next[j].source.globalSeq
    {
    }
    if InOrder(ds) {
      FreshRowsKeepOrder(ds, Backfill(name, events));
    }
  }

  /** Rewriting one row's delivery state leaves what it delivers alone. */
  lemma UpdateDelivers(events: seq<Stored>, ds: seq<Delivery>, names: set<string>, row: int, d: Delivery)
    requires Delivers(events, ds, names) && 0 <= row < |ds|
    requires d.subscription == ds[row].subscription && d.source == ds[row].source
    ensures Delivers(events, ds[row := d], names)
  {
    var next := ds[row := d];
    forall i | 0 <= i < |next| ensures IsDelivery(events, names, next[i]) {
      assert IsDelivery(events, names, ds[i]);
    }
  }

  /** Fresh rows at the end of the list, later than every row of their stream, disturb no order. */
  lemma FreshRowsKeepOrder(ds: seq<Delivery>, more: seq<Delivery>)
    requires InOrder(ds) && Ordered(ds + more)
    requires forall i :: 0 <= i < |more| ==> Waiting(more[i])
    ensures InOrder(ds + more)
  {
    var next := ds + more;
    forall i, j | 0 <= i < |next| && 0 <= j < |next| && Earlier(next[i], next[j])
      ensures next[i].status == Processed || Waiting(next[j])
    {
      if j < |ds| {
        assert i < j;
        assert Earlier(ds[i], ds[j]);
      }
    }
  }

  lemma OrderIsShape(ds: seq<Delivery>)
    ensures InOrder(ds) <==> StreamShape(ds)
  {
  }

  lemma ClaimKeepsOrder(ds: seq<Delivery>, i: int, now: Time)
    requires InOrder(ds) && 0 <= i < |ds| && !Blocked(ds, i)
    ensures InOrder(ds[i := Claimed(ds[i], now)])
  {
  }

  /** Completing keeps the order exactly when nothing earlier in the stream is outstanding, whoever reports it and when. */
  lemma CompleteKeepsOrderIff(ds: seq<Delivery>, i: int)
    requires InOrder(ds) && 0 <= i < |ds|
    ensures InOrder(ds[i := Completed(ds[i])]) <==> !Blocked(ds, i)
  {
    var done := ds[i := Completed(ds[i])];
    if InOrder(done) {
      forall j | 0 <= j < |ds| && Earlier(ds[j], ds[i]) ensures ds[j].status == Processed {
        assert Earlier(done[j], done[i]) && done[j] == ds[j];
      }
    }
  }

  /** A row that is claimed or settled has nothing outstanding before it. */
  lemma TouchedIsUnblocked(ds: seq<Delivery>, i: int)
    requires InOrder(ds) && 0 <= i < |ds| && !Waiting(ds[i])
    ensures !Blocked(ds, i)
  {
  }

  /** A row that is not processed has only waiting rows behind it. */
  lemma BehindUnprocessedWaits(ds: seq<Delivery>, i: int)
    requires InOrder(ds) && 0 <= i < |ds| && ds[i].status != Processed
    ensures WaitingBehind(ds, i)
  {
  }

  predicate WaitingBehind(ds: seq<Delivery>, i: int)
    requires 0 <= i < |ds|
  {
    forall j :: 0 <= j < |ds| && Earlier(ds[i], ds[j]) ==> Waiting(ds[j])
  }

  /**
   Reporting a failure does not check who holds the lease. It keeps the order
   exactly when everything later in the stream is waiting and, should it
   dead-letter the message, nothing earlier is outstanding.
   */
  lemma FailKeepsOrderIff(ds: seq<Delivery>, i: int, attempts: nat, policy: Policy, now: Time)
    requires InOrder(ds) && 0 <= i < |ds|
    ensures InOrder(ds[i := Failed(ds[i], attempts, policy, now)])
            <==> WaitingBehind(ds, i) && (policy.maxAttempts <= attempts ==> !Blocked(ds, i))
  {
    var failed := ds[i := Failed(ds[i], attempts, policy, now)];
    if InOrder(failed) {
      forall j | 0 <= j < |ds| && Earlier(ds[i], ds[j]) ensures Waiting(ds[j]) {
        assert Earlier(failed[i], failed[j]) && ds[j] == failed[j];
      }
      forall j | 0 <= j < |ds| && Earlier(ds[j], ds[i]) ensures ds[j].status == Processed || policy.maxAttempts > attempts {
        assert Earlier(failed[j], failed[i]) && ds[j] == failed[j];
      }
    }
    if WaitingBehind(ds, i) && (policy.maxAttempts <= attempts ==> !Blocked(ds, i)) {
      forall a, b | 0 <= a < |ds| && 0 <= b < |ds| && Earlier(failed[a], failed[b])
        ensures failed[a].status == Processed || Waiting(failed[b])
      {
        assert Earlier(ds[a], ds[b]);
      }
    }
  }

  lemma RequeueKeepsOrder(ds: seq<Delivery>, i: int)
    requires InOrder(ds) && 0 <= i < |ds| && ds[i].status == Dead
    ensures InOrder(ds[i := Requeued(ds[i])])
  {
    var requeued := ds[i := Requeued(ds[i])];
    forall a, b | 0 <= a < |ds| && 0 <= b < |ds| && Earlier(requeued[a], requeued[b])
      ensures requeued[a].status == Processed || Waiting(requeued[b])
    {
      assert Earlier(ds[a], ds[b]);
    }
  }

  // ---- Lag, dead letters and what they hold up

  ghost function PendingSet(ds: seq<Delivery>, subscription: string): set<int> {
    set i | 0 <= i < |ds| && ds[i].subscription == subscription && ds[i].status == Pending
  }

  ghost function DeadSet(ds: seq<Delivery>, subscription: string): set<int> {
    set i | 0 <= i < |ds| && ds[i].subscription == subscription && ds[i].status == Dead
  }

  ghost function LagSet(ds: seq<Delivery>, subscription: string): set<int> {
    set i | i in PendingSet(ds, subscription) && !DeadBlocked(ds, i)
  }

  /** The pending messages behind row i in its stream. */
  ghost function BehindSet(ds: seq<Delivery>, i: int): set<int>
    requires 0 <= i < |ds|
  {
    set j | 0 <= j < |ds| && Earlier(ds[i], ds[j]) && ds[j].status == Pending
  }

  ghost function Lag(ds: seq<Delivery>, subscription: string): nat { |LagSet(ds, subscription)| }

  ghost function BlockedCount(ds: seq<Delivery>, i: int): nat {
    if 0 <= i < |ds| then |BehindSet(ds, i)| else 0
  }

  ghost function BlockedCounts(ds: seq<Delivery>): int -> int { i => BlockedCount(ds, i) }

  /** The pending messages behind at least one of the given rows. */
  ghost function BehindAny(ds: seq<Delivery>, letters: set<int>): set<int> {
    set j | 0 <= j < |ds| && ds[j].status == Pending && BehindOneOf(ds, letters, j)
  }

  ghost predicate BehindOneOf(ds: seq<Delivery>, letters: set<int>, j: int)
    requires 0 <= j < |ds|
  {
    exists i :: i in letters && 0 <= i < |ds| && Earlier(ds[i], ds[j])
  }

  lemma AtMostOneDead(ds: seq<Delivery>, i: int, k: int)
    requires Ordered(ds) && InOrder(ds) && 0 <= i < |ds| && 0 <= k < |ds| && i != k
    requires ds[i].status == Dead && ds[k].status == Dead
    ensures !SameStream(ds[i], ds[k])
  {
    if SameStream(ds[i], ds[k]) {
      if i < k { assert Earlier(ds[i], ds[k]); } else { assert Earlier(ds[k], ds[i]); }
    }
  }

  /** No message is behind two dead letters, so the blocked counts add up without overlap. */
  lemma {:induction false} BlockedCountsAddUp(ds: seq<Delivery>, subscription: string, letters: set<int>)
    requires Ordered(ds) && InOrder(ds) && letters <= DeadSet(ds, subscription)
    ensures |BehindAny(ds, letters)| == Sum(letters, BlockedCounts(ds))
    decreases letters
  {
    if letters == {} {
      assert BehindAny(ds, letters) == {};
    } else {
      var i :| i in letters;
      var rest := letters - {i};
      SumPick(letters, BlockedCounts(ds), i);
      BlockedCountsAddUp(ds, subscription, rest);
      BehindSplits(ds, letters, i);
      forall j | j in BehindAny(ds, rest) ensures j !in BehindSet(ds, i) {
        var k :| k in rest && 0 <= k < |ds| && Earlier(ds[k], ds[j]);
        AtMostOneDead(ds, i, k);
      }
    }
  }

  lemma BehindSplits(ds: seq<Delivery>, letters: set<int>, i: int)
    requires i in letters && 0 <= i < |ds|
    ensures BehindAny(ds, letters) == BehindSet(ds, i) + BehindAny(ds, letters - {i})
  {
    forall j | 0 <= j < |ds|
      ensures BehindOneOf(ds, letters, j) <==> Earlier(ds[i], ds[j]) || BehindOneOf(ds, letters - {i}, j)
    {
      if BehindOneOf(ds, letters, j) && !Earlier(ds[i], ds[j]) {
        var k :| k in letters && 0 <= k < |ds| && Earlier(ds[k], ds[j]);
        assert k in letters - {i};
      }
      if BehindOneOf(ds, letters - {i}, j) {
        var k :| k in letters - {i} && 0 <= k < |ds| && Earlier(ds[k], ds[j]);
        assert k in letters;
      }
    }
  }

  lemma HeldIsPending(ds: seq<Delivery>, subscription: string, j: int)
    requires j in BehindAny(ds, DeadSet(ds, subscription))
    ensures j in PendingSet(ds, subscription)
  {
  }

  /** Conservation: every pending message is either lag or held up by exactly one dead letter. */
  lemma PendingIsLagPlusBlocked(ds: seq<Delivery>, subscription: string)
    requires Ordered(ds) && InOrder(ds)
    ensures |PendingSet(ds, subscription)|
            == Lag(ds, subscription) + Sum(DeadSet(ds, subscription), BlockedCounts(ds))
  {
    hide Ordered, InOrder, BlockedCount, Sum;
    var letters := DeadSet(ds, subscription);
    var held := BehindAny(ds, letters);
    BlockedCountsAddUp(ds, subscription, letters);
    forall j | j in PendingSet(ds, subscription) ensures DeadBlocked(ds, j) <==> j in held {
      if DeadBlocked(ds, j) {
        var k :| 0 <= k < |ds| && Earlier(ds[k], ds[j]) && ds[k].status == Dead;
        assert k in letters;
      }
    }
    forall j | j in held ensures j in PendingSet(ds, subscription) {
      HeldIsPending(ds, subscription, j);
    }
    assert PendingSet(ds, subscription) == LagSet(ds, subscription) + held;
  }

  lemma DeadBlockedAfterRequeue(ds: seq<Delivery>, i: int, j: int)
    requires Ordered(ds) && InOrder(ds) && 0 <= i < |ds| && ds[i].status == Dead && 0 <= j < |ds|
    ensures DeadBlocked(ds[i := Requeued(ds[i])], j) <==> DeadBlocked(ds, j) && !Earlier(ds[i], ds[j])
  {
    var requeued := ds[i := Requeued(ds[i])];
    if DeadBlocked(requeued, j) {
      var k :| 0 <= k < |ds| && Earlier(requeued[k], requeued[j]) && requeued[k].status == Dead;
      assert Earlier(ds[k], ds[j]) && ds[k].status == Dead;
      AtMostOneDead(ds, i, k);
    }
    if DeadBlocked(ds, j) && !Earlier(ds[i], ds[j]) {
      var k :| 0 <= k < |ds| && Earlier(ds[k], ds[j]) && ds[k].status == Dead;
      assert Earlier(requeued[k], requeued[j]) && requeued[k].status == Dead;
    }
  }

  /** Requeuing a dead letter returns it and everything it held up to the lag, and nothing else. */
  lemma RequeueRaisesLag(ds: seq<Delivery>, i: int)
    requires Ordered(ds) && InOrder(ds) && 0 <= i < |ds| && ds[i].status == Dead
    ensures Lag(ds[i := Requeued(ds[i])], ds[i].subscription)
            == Lag(ds, ds[i].subscription) + 1 + BlockedCount(ds, i)
  {
    var subscription := ds[i].subscription;
    var requeued := ds[i := Requeued(ds[i])];
    var before, after := LagSet(ds, subscription), LagSet(requeued, subscription);
    forall j | 0 <= j < |ds| ensures DeadBlocked(requeued, j) <==> DeadBlocked(ds, j) && !Earlier(ds[i], ds[j]) {
      DeadBlockedAfterRequeue(ds, i, j);
    }
    forall j | j in BehindSet(ds, i) ensures DeadBlocked(ds, j) {
      assert Earlier(ds[i], ds[j]);
    }
    NotBehindAnother(ds, i);
    assert after == before + {i} + BehindSet(ds, i);
  }

  lemma NotBehindAnother(ds: seq<Delivery>, i: int)
    requires InOrder(ds) && 0 <= i < |ds| && ds[i].status == Dead
    ensures !DeadBlocked(ds, i)
  {
  }

  // ---- Draining

  /** No live lease and every backoff elapsed, for one subscription. */
  predicate Settled(ds: seq<Delivery>, subscription: string, now: Time, lease: int) {
    forall i :: 0 <= i < |ds| && ds[i].subscription == subscription && ds[i].status == Pending
      ==> ds[i].availableAt <= now && !LeaseLive(ds[i], now, lease)
  }

  /** A settled, unfiltered subscription with lag has something to claim. */
  lemma LagIsClaimable(ds: seq<Delivery>, subscription: string, now: Time, lease: int)
    requires Settled(ds, subscription, now, lease) && 0 < Lag(ds, subscription)
    ensures exists i :: Claimable(ds, i, subscription, [], now, lease)
  {
    var i :| i in LagSet(ds, subscription);
    FirstOfStreamIsClaimable(ds, subscription, now, lease, i);
  }

  lemma {:induction false} FirstOfStreamIsClaimable(ds: seq<Delivery>, subscription: string, now: Time, lease: int, i: int)
    requires Settled(ds, subscription, now, lease) && i in LagSet(ds, subscription)
    ensures exists k :: Claimable(ds, k, subscription, [], now, lease)
    decreases ds[i].source.globalSeq
  {
    if Blocked(ds, i) {
      var j :| 0 <= j < |ds| && Earlier(ds[j], ds[i]) && ds[j].status != Processed;
      assert j in LagSet(ds, subscription);
      FirstOfStreamIsClaimable(ds, subscription, now, lease, j);
    } else {
      assert Claimable(ds, i, subscription, [], now, lease);
    }
  }

  /** Processing one claimable message lowers the lag by exactly one. */
  lemma ProcessingLowersLag(ds: seq<Delivery>, i: int, subscription: string, types: seq<string>, now: Time, lease: int)
    requires Claimable(ds, i, subscription, types, now, lease)
    ensures var done := ds[i := Completed(Claimed(ds[i], now))];
            && Lag(done, subscription) + 1 == Lag(ds, subscription)
            && DeadSet(done, subscription) == DeadSet(ds, subscription)
            && (Settled(ds, subscription, now, lease) ==> Settled(done, subscription, now, lease))
  {
    var done := ds[i := Completed(Claimed(ds[i], now))];
    assert !DeadBlocked(ds, i);
    forall j | 0 <= j < |ds| && j != i ensures DeadBlocked(done, j) <==> DeadBlocked(ds, j) {
      if DeadBlocked(ds, j) {
        var k :| 0 <= k < |ds| && Earlier(ds[k], ds[j]) && ds[k].status == Dead;
        assert Earlier(done[k], done[j]) && done[k].status == Dead;
      }
      if DeadBlocked(done, j) {
        var k :| 0 <= k < |ds| && Earlier(done[k], done[j]) && done[k].status == Dead;
        assert Earlier(ds[k], ds[j]) && ds[k].status == Dead;
      }
    }
    assert LagSet(ds, subscription) == LagSet(done, subscription) + {i};
  }

  // ---- Failing handlers cannot keep a queue busy for ever

  /** One non-idle outcome of processing: success, retry or dead-lettering. */
  ghost predicate Outcome(ds: seq<Delivery>, next: seq<Delivery>, subscription: string, types: seq<string>, policy: Policy) {
    exists i: int, now: Time :: OutcomeAt(ds, next, subscription, types, policy, i, now)
  }

  ghost predicate OutcomeAt(ds: seq<Delivery>, next: seq<Delivery>, subscription: string, types: seq<string>, policy: Policy, i: int, now: Time) {
    && Claimable(ds, i, subscription, types, now, Lease(policy))
    && (|| next == ds[i := Completed(Claimed(ds[i], now))]
        || next == ds[i := Failed(Claimed(ds[i], now), ds[i].attempts + 1, policy, now)])
  }

  function Budgeted(maxAttempts: int): int { if maxAttempts < 1 then 1 else maxAttempts }

  /** How many more outcomes a row can take: at least one while it is pending. */
  function Remaining(d: Delivery, policy: Policy): int {
    if policy.maxAttempts - d.attempts < 1 then 1 else policy.maxAttempts - d.attempts
  }

  ghost function Budgets(ds: seq<Delivery>, policy: Policy): int -> int {
    i => if 0 <= i < |ds| then Remaining(ds[i], policy) else 0
  }

  ghost function Potential(ds: seq<Delivery>, subscription: string, policy: Policy): int {
    Sum(PendingSet(ds, subscription), Budgets(ds, policy))
  }

  lemma OutcomeUsesPotential(ds: seq<Delivery>, next: seq<Delivery>, subscription: string, types: seq<string>, policy: Policy)
    requires Outcome(ds, next, subscription, types, policy)
    ensures Potential(next, subscription, policy) < Potential(ds, subscription, policy)
  {
    var i: int, now: Time :| OutcomeAt(ds, next, subscription, types, policy, i, now);
    var f, g := Budgets(ds, policy), Budgets(next, policy);
    var before, after := PendingSet(ds, subscription), PendingSet(next, subscription);
    if next[i].status == Pending {
      assert after == before;
      SumChange(before, f, g, i);
    } else {
      assert after == before - {i};
      SumPick(before, f, i);
      SumSame(after, f, g);
    }
  }

  lemma {:induction false} RunUsesPotential(run: seq<seq<Delivery>>, subscription: string, types: seq<string>, policy: Policy)
    requires 0 < |run| && forall k :: 0 <= k < |run| - 1 ==> Outcome(run[k], run[k + 1], subscription, types, policy)
    ensures |run| - 1 + Potential(run[|run| - 1], subscription, policy) <= Potential(run[0], subscription, policy)
  {
    if 1 < |run| {
      var front := run[..|run| - 1];
      RunUsesPotential(front, subscription, types, policy);
      OutcomeUsesPotential(run[|run| - 2], run[|run| - 1], subscription, types, policy);
    }
  }

  /**
   Whatever the handler does, and with no new messages or requeues, at most
   MaxAttempts outcomes per pending message happen before the queue is idle.
   */
  lemma OutcomesAreBounded(run: seq<seq<Delivery>>, subscription: string, types: seq<string>, policy: Policy)
    requires 0 < |run| && forall k :: 0 <= k < |run| - 1 ==> Outcome(run[k], run[k + 1], subscription, types, policy)
    ensures |run| - 1 <= Budgeted(policy.maxAttempts) * |PendingSet(run[0], subscription)|
  {
    var first, last := run[0], run[|run| - 1];
    RunUsesPotential(run, subscription, types, policy);
    SumAtMost(PendingSet(first, subscription), Budgets(first, policy), Budgeted(policy.maxAttempts));
    SumNonNegative(PendingSet(last, subscription), Budgets(last, policy));
  }
}
