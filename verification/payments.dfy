/** The posting pass of the recurring-payment scheduler, run by one process without failures. */
module Payments {
  import opened Calendar
  import opened Domain
  import opened Recurrence

  datatype Kind = Reminder | Due

  datatype PostingKey = PostingKey(paymentId: Id, dueAt: Time, kind: Kind)

  datatype Posting = Posting(expenseId: Option<nat>, postedAt: Time)

  datatype Expense = Expense(id: nat, paymentId: Id, amount: int, dueAt: Time)

  datatype Notice = Notice(paymentId: Id, dueAt: Time, kind: Kind)

  /** Everything the scheduler reads and writes. `nextId` supplies fresh expense ids. */
  datatype Book = Book(
    payments: map<Id, ScheduledPayment>,
    postings: map<PostingKey, Posting>,
    expenses: seq<Expense>,
    notices: seq<Notice>,
    nextId: nat)

  const BATCH := 500
  const REMINDER_LEAD_DAYS := 60

  function Advanced(payments: map<Id, ScheduledPayment>, id: Id, next: Time, last: Time, paused: bool): map<Id, ScheduledPayment> {
    if id in payments && !payments[id].deleted
    then payments[id := payments[id].(nextDueAt := next, lastPostedAt := Some(last), paused := paused)]
    else payments
  }

  predicate InReminderWindow(p: ScheduledPayment, now: Time) {
    var at := ReminderDueAt(p, p.nextDueAt);
    at.Some? && at.value <= now < p.nextDueAt
  }

  /** The occurrence at the cursor is due: at or before now and not past the end date. */
  predicate CursorDue(p: ScheduledPayment, now: Time) {
    !p.paused && !p.deleted && p.nextDueAt <= now && !Finished(p, p.nextDueAt)
  }

  function Claim(book: Book, p: ScheduledPayment, kind: Kind, expenseId: Option<nat>, now: Time): Book {
    book.(postings := book.postings[PostingKey(p.id, p.nextDueAt, kind) := Posting(expenseId, now)],
          notices := book.notices + [Notice(p.id, p.nextDueAt, kind)])
  }

  /** One payment's turn in a pass: its reminder if that is due, then its occurrence. */
  function RunOne(book: Book, p: ScheduledPayment, now: Time): (Book, nat) {
    var due := PostingKey(p.id, p.nextDueAt, Due);
    if p.paused || p.deleted then (book, 0)
    else if InReminderWindow(p, now) then
      (if PostingKey(p.id, p.nextDueAt, Reminder) in book.postings then book else Claim(book, p, Reminder, None, now), 0)
    else if now < p.nextDueAt then (book, 0)
    else if Finished(p, p.nextDueAt) then
      (book.(payments := Advanced(book.payments, p.id, p.nextDueAt, p.nextDueAt, true)), 0)
    else
      var expenseId := if p.autoPost then Some(book.nextId) else None;
      var drawn := if p.autoPost then book.(nextId := book.nextId + 1) else book;
      if due in book.postings then (drawn, 0)
      else
        var claimed := Claim(drawn, p, Due, expenseId, now);
        var posted := if p.autoPost
          then claimed.(expenses := claimed.expenses + [Expense(book.nextId, p.id, p.amount, p.nextDueAt)]) else claimed;
        var next := NextDueFor(p, p.nextDueAt);
        (posted.(payments := Advanced(posted.payments, p.id, next, p.nextDueAt, Finished(p, next))), if Advances(book, p.id) then 1 else 0)
  }

  /** The cursor of this payment can still be moved: it exists and was not deleted. */
  predicate Advances(book: Book, id: Id) {
    id in book.payments && !book.payments[id].deleted
  }

  /** The turn ends in an error: it reaches the cursor of a payment that was deleted after it was listed. */
  predicate Fails(book: Book, p: ScheduledPayment, now: Time) {
    && !p.paused && !p.deleted && !InReminderWindow(p, now) && p.nextDueAt <= now
    && (Finished(p, p.nextDueAt) || PostingKey(p.id, p.nextDueAt, Due) !in book.postings)
    && !Advances(book, p.id)
  }

  function Failures(book: Book, list: seq<ScheduledPayment>, now: Time): seq<Id> {
    if list == [] then []
    else
      var front, last := list[..|list| - 1], list[|list| - 1];
      Failures(book, front, now) + if Fails(RunAll(book, front, now).0, last, now) then [last.id] else []
  }

  function RunAll(book: Book, list: seq<ScheduledPayment>, now: Time): (Book, nat) {
    if list == [] then (book, 0)
    else
      var (before, count) := RunAll(book, list[..|list| - 1], now);
      var (after, one) := RunOne(before, list[|list| - 1], now);
      (after, count + one)
  }

  /** A reminder is due in the whole days before the due date that the payment asks for, and the due date ends it. */
  lemma ReminderWindowMeans(p: ScheduledPayment, now: Time)
    ensures InReminderWindow(p, now) <==> 1 <= p.reminderDays && p.nextDueAt - p.reminderDays * 86_400_000_000_000 <= now < p.nextDueAt
  {
    hide ReminderDueAt;
    ReminderMeans(p, p.nextDueAt);
  }

  /** A pass asks for exactly the active payments due within 60 days. */
  lemma WantedMeans(payments: map<Id, ScheduledPayment>, id: Id, now: Time)
    ensures id in Wanted(payments, Horizon(now)) <==>
              id in payments && !payments[id].deleted && !payments[id].paused && payments[id].nextDueAt <= now + 60 * 86_400_000_000_000
  {
    hide AddDate;
    AddDays(now, REMINDER_LEAD_DAYS);
  }

  /** So it overlooks no due date, and no reminder of up to 60 days. */
  lemma RemindersAreListed(payments: map<Id, ScheduledPayment>, id: Id, now: Time)
    requires id in payments && !payments[id].deleted && !payments[id].paused && payments[id].reminderDays <= 60
    requires InReminderWindow(payments[id], now) || payments[id].nextDueAt <= now
    ensures id in Wanted(payments, Horizon(now))
  {
    hide InReminderWindow;
    ReminderWindowMeans(payments[id], now);
    WantedMeans(payments, id, now);
  }

  /** A turn counts one exactly when it wins the due row of a payment whose cursor can be moved; a lost claim leaves the books as they were. */
  lemma TurnCounts(book: Book, p: ScheduledPayment, now: Time)
    ensures var (after, count) := RunOne(book, p, now);
            var due := PostingKey(p.id, p.nextDueAt, Due);
            && count == (if due !in book.postings && due in after.postings && p.id in book.payments && !book.payments[p.id].deleted then 1 else 0)
            && (due in book.postings && !InReminderWindow(p, now) ==> after.postings == book.postings && after.expenses == book.expenses && after.notices == book.notices)
  {
    hide NextDueFor, InReminderWindow, Finished;
  }

  /** A turn fails exactly when it has to move the cursor of a payment that is gone: to stop it, or after winning its due row. */
  lemma TurnFailsIff(book: Book, p: ScheduledPayment, now: Time)
    ensures var after, due := RunOne(book, p, now).0, PostingKey(p.id, p.nextDueAt, Due);
            Fails(book, p, now) <==>
              && (p.id !in book.payments || book.payments[p.id].deleted)
              && (|| (due !in book.postings && due in after.postings)
                  || (!p.paused && !p.deleted && !InReminderWindow(p, now) && p.nextDueAt <= now && p.endDate.Some? && p.endDate.value < p.nextDueAt))
  {
    hide NextDueFor, InReminderWindow;
  }

  /** What a turn does to the payment itself: on to the next occurrence after its due row is won, stopped past its end date, nothing otherwise. */
  lemma TurnMovesOnly(book: Book, p: ScheduledPayment, now: Time)
    ensures var after, due := RunOne(book, p, now).0, PostingKey(p.id, p.nextDueAt, Due);
            && (forall id :: id in book.payments && (id != p.id || book.payments[id].deleted) ==> id in after.payments && after.payments[id] == book.payments[id])
            && (p.id in book.payments && !book.payments[p.id].deleted && due !in book.postings && due in after.postings ==>
                  var moved := after.payments[p.id];
                  && moved.nextDueAt == NextDueFor(p, p.nextDueAt) && moved.lastPostedAt == Some(p.nextDueAt)
                  && (moved.paused <==> p.endDate.Some? && p.endDate.value < moved.nextDueAt)
                  && (moved.amount, moved.startDate, moved.endDate, moved.frequency) ==
                     (book.payments[p.id].amount, book.payments[p.id].startDate, book.payments[p.id].endDate, book.payments[p.id].frequency))
  {
    hide NextDueFor, InReminderWindow;
  }

  lemma FailedTurnPostsNothing(book: Book, p: ScheduledPayment, now: Time)
    ensures Fails(book, p, now) ==> RunOne(book, p, now).1 == 0
  {
  }

  /** How far ahead a pass looks: far enough for every reminder a payment may ask for. */
  function Horizon(now: Time): Time { AddDate(now, 0, 0, REMINDER_LEAD_DAYS) }

  /** The payments a pass asks for: active and due within the reminder horizon. */
  ghost function Wanted(payments: map<Id, ScheduledPayment>, through: Time): set<Id> {
    set id | id in payments && !payments[id].deleted && !payments[id].paused && payments[id].nextDueAt <= through
  }

  ghost predicate Keyed(payments: map<Id, ScheduledPayment>) {
    forall id :: id in payments ==> payments[id].id == id
  }

  /** A due list: current payments, each once, oldest occurrence first. */
  ghost predicate IsDueList(list: seq<ScheduledPayment>, payments: map<Id, ScheduledPayment>, through: Time) {
    && (forall p :: p in list ==> p.id in Wanted(payments, through) && p == payments[p.id])
    && IsSorted(list)
  }

  /** Each payment once, oldest occurrence first. */
  ghost predicate IsSorted(list: seq<ScheduledPayment>) {
    forall i, j :: 0 <= i < j < |list| ==> InDueOrder(list[i], list[j])
  }

  ghost predicate ListsAll(list: seq<ScheduledPayment>, ids: set<Id>, payments: map<Id, ScheduledPayment>) {
    forall id :: id in ids && id in payments ==> payments[id] in list
  }

  /** What the list leaves out is no older than anything it holds. */
  ghost predicate KeepsOldest(list: seq<ScheduledPayment>, payments: map<Id, ScheduledPayment>, through: Time) {
    forall p, id :: p in list && id in Wanted(payments, through) && payments[id] !in list ==> p.nextDueAt <= payments[id].nextDueAt
  }

  /** The oldest due payments, as many as the limit allows; no positive limit means all. */
  ghost predicate IsBatch(list: seq<ScheduledPayment>, payments: map<Id, ScheduledPayment>, through: Time, limit: nat) {
    && IsDueList(list, payments, through) && KeepsOldest(list, payments, through)
    && |list| == (if 0 < limit < |Wanted(payments, through)| then limit else |Wanted(payments, through)|)
    && (limit == 0 || |Wanted(payments, through)| <= limit ==> ListsAll(list, Wanted(payments, through), payments))
  }

  class ScheduledPaymentRepository {
    var payments: map<Id, ScheduledPayment>
    var postings: map<PostingKey, Posting>

    constructor ()
      ensures payments == map[] && postings == map[]
    {
      payments, postings := map[], map[];
    }

    /** Active payments due at or before `through`, oldest first. */
    method CollectDue(through: Time) returns (values: seq<ScheduledPayment>)
      requires Keyed(payments)
      ensures IsDueList(values, payments, through)
      ensures ListsAll(values, Wanted(payments, through), payments)
      ensures |values| == |Wanted(payments, through)|
    {
      values := [];
      var left := payments.Keys;
      ghost var taken: set<Id> := {};
      while left != {}
        invariant left <= payments.Keys && taken !! left
        invariant forall id :: id in taken ==> id in Wanted(payments, through) && payments[id] in values
        invariant forall id :: id in Wanted(payments, through) ==> id in taken || id in left
        invariant forall p :: p in values ==> p.id in taken && p == payments[p.id]
        invariant IsSorted(values) && |values| == |taken|
        decreases left
      {
        var id :| id in left;
        left := left - {id};
        var value := payments[id];
        if value.deleted || value.paused {
          continue;
        }
        if through < value.nextDueAt {
          continue;
        }
        values := InsertByDue(values, value);
        taken := taken + {id};
      }
      assert taken == Wanted(payments, through);
    }

    /** The due payments, cut to the limit, so a backlog drains oldest first. */
    method ListDueScheduledPayments(through: Time, limit: nat) returns (values: seq<ScheduledPayment>)
      requires Keyed(payments)
      ensures IsBatch(values, payments, through, limit)
    {
      values := CollectDue(through);
      CutIsBatch(values, payments, through, limit);
      if 0 < limit < |values| {
        values := values[..limit];
      }
    }

    /** Records one handled occurrence, or reports that it was handled before. */
    method ClaimPosting(key: PostingKey, posting: Posting) returns (won: bool)
      modifies this`postings
      ensures won <==> key !in old(postings)
      ensures postings == if won then old(postings)[key := posting] else old(postings)
    {
      if key in postings {
        return false;
      }
      postings := postings[key := posting];
      return true;
    }

    method AdvanceSchedule(id: Id, next: Time, last: Time, paused: bool) returns (found: bool)
      modifies this`payments
      ensures found <==> id in old(payments) && !old(payments)[id].deleted
      ensures payments == Advanced(old(payments), id, next, last, paused)
    {
      if id !in payments || payments[id].deleted {
        return false;
      }
      payments := payments[id := payments[id].(nextDueAt := next, lastPostedAt := Some(last), paused := paused)];
      return true;
    }
  }

  /** Cutting a sorted list keeps the oldest. */
  lemma CutKeepsOldest(all: seq<ScheduledPayment>, limit: nat, kept: ScheduledPayment, cut: ScheduledPayment)
    requires IsSorted(all) && limit <= |all| && kept in all[..limit] && cut in all && cut !in all[..limit]
    ensures kept.nextDueAt <= cut.nextDueAt
  {
    forall k | 0 <= k < limit ensures all[k] in all[..limit] {
      assert all[..limit][k] == all[k];
    }
    var i :| 0 <= i < limit && all[i] == kept;
    var j :| 0 <= j < |all| && all[j] == cut;
    assert InDueOrder(all[i], all[j]);
  }

  lemma CutIsBatch(all: seq<ScheduledPayment>, payments: map<Id, ScheduledPayment>, through: Time, limit: nat)
    requires IsDueList(all, payments, through) && ListsAll(all, Wanted(payments, through), payments)
    requires |all| == |Wanted(payments, through)|
    ensures IsBatch(if 0 < limit < |all| then all[..limit] else all, payments, through, limit)
  {
    if 0 < limit < |all| {
      var list := all[..limit];
      forall p, id | p in list && id in Wanted(payments, through) && payments[id] !in list ensures p.nextDueAt <= payments[id].nextDueAt {
        CutKeepsOldest(all, limit, p, payments[id]);
      }
    }
  }

  method InsertByDue(values: seq<ScheduledPayment>, value: ScheduledPayment) returns (more: seq<ScheduledPayment>)
    requires IsSorted(values)
    requires forall p :: p in values ==> p.id != value.id
    ensures |more| == |values| + 1
    ensures forall p :: p in more <==> p in values || p == value
    ensures IsSorted(more)
  {
    var at := 0;
    while at < |values| && values[at].nextDueAt <= value.nextDueAt
      invariant 0 <= at <= |values|
      invariant forall i :: 0 <= i < at ==> values[i].nextDueAt <= value.nextDueAt
    {
      at := at + 1;
    }
    more := values[..at] + [value] + values[at..];
    InsertedHolds(values, value, at);
    InsertedIsSorted(values, value, at);
  }

  lemma InsertedHolds(values: seq<ScheduledPayment>, value: ScheduledPayment, at: int)
    requires 0 <= at <= |values|
    ensures forall p :: p in values[..at] + [value] + values[at..] <==> p in values || p == value
  {
    assert values == values[..at] + values[at..];
  }

  lemma InsertedIsSorted(values: seq<ScheduledPayment>, value: ScheduledPayment, at: int)
    requires IsSorted(values) && 0 <= at <= |values| && forall p :: p in values ==> p.id != value.id
    requires forall i :: 0 <= i < at ==> values[i].nextDueAt <= value.nextDueAt
    requires at < |values| ==> value.nextDueAt < values[at].nextDueAt
    ensures IsSorted(values[..at] + [value] + values[at..])
  {
    var more := values[..at] + [value] + values[at..];
    forall k | at <= k < |values| ensures value.nextDueAt <= values[k].nextDueAt {
      assert at < k ==> InDueOrder(values[at], values[k]);
    }
    forall i, j | 0 <= i < j < |more| ensures InDueOrder(more[i], more[j]) {
      InsertedPair(values, value, at, i, j);
    }
  }

  predicate InDueOrder(a: ScheduledPayment, b: ScheduledPayment) {
    a.id != b.id && a.nextDueAt <= b.nextDueAt
  }

  lemma InsertedPair(values: seq<ScheduledPayment>, value: ScheduledPayment, at: int, i: int, j: int)
    requires IsSorted(values) && 0 <= at <= |values| && 0 <= i < j <= |values|
    requires forall k :: 0 <= k < |values| ==> values[k].id != value.id
    requires forall k :: 0 <= k < at ==> values[k].nextDueAt <= value.nextDueAt
    requires forall k :: at <= k < |values| ==> value.nextDueAt <= values[k].nextDueAt
    ensures var more := values[..at] + [value] + values[at..];
            InDueOrder(more[i], more[j])
  {
    var more := values[..at] + [value] + values[at..];
    assert more[i] == if i < at then values[i] else if i == at then value else values[i - 1];
    assert more[j] == if j < at then values[j] else if j == at then value else values[j - 1];
  }

  class ScheduledPaymentService {
    const repository: ScheduledPaymentRepository
    var expenses: seq<Expense>
    var notices: seq<Notice>
    var nextId: nat

    constructor (repository: ScheduledPaymentRepository)
      ensures this.repository == repository && expenses == [] && notices == [] && nextId == 0
    {
      this.repository := repository;
      expenses, notices, nextId := [], [], 0;
    }

    ghost function State(): Book
      reads this, repository
    {
      Book(repository.payments, repository.postings, expenses, notices, nextId)
    }

    /** Takes the occurrence's ledger row and, only if it wins, queues the notice. */
    method ClaimAndNotify(p: ScheduledPayment, kind: Kind, expenseId: Option<nat>, now: Time) returns (won: bool)
      modifies this`notices, repository`postings
      ensures won <==> PostingKey(p.id, p.nextDueAt, kind) !in old(repository.postings)
      ensures State() == if won then Claim(old(State()), p, kind, expenseId, now) else old(State())
    {
      won := repository.ClaimPosting(PostingKey(p.id, p.nextDueAt, kind), Posting(expenseId, now));
      if won {
        notices := notices + [Notice(p.id, p.nextDueAt, kind)];
      }
    }

    method RunOccurrence(p: ScheduledPayment, now: Time) returns (count: nat, failed: bool)
      modifies this, repository
      ensures State() == RunOne(old(State()), p, now).0 && count == RunOne(old(State()), p, now).1
      ensures failed <==> Fails(old(State()), p, now)
    {
      hide Finished, ReminderDueAt, NextDueFor;
      if p.paused || p.deleted {
        return 0, false;
      }
      if InReminderWindow(p, now) {
        var won := ClaimAndNotify(p, Reminder, None, now);
        return 0, false;
      }
      if now < p.nextDueAt {
        return 0, false;
      }
      if Finished(p, p.nextDueAt) {
        var found := repository.AdvanceSchedule(p.id, p.nextDueAt, p.nextDueAt, true);
        return 0, !found;
      }
      var expenseId := None;
      if p.autoPost {
        expenseId := Some(nextId);
        nextId := nextId + 1;
      }
      var won := ClaimAndNotify(p, Due, expenseId, now);
      if !won {
        return 0, false;
      }
      if expenseId.Some? {
        expenses := expenses + [Expense(expenseId.value, p.id, p.amount, p.nextDueAt)];
      }
      var next := NextDueFor(p, p.nextDueAt);
      var found := repository.AdvanceSchedule(p.id, next, p.nextDueAt, Finished(p, next));
      return if found then 1 else 0, !found;
    }

    /** One pass over the due payments; returns how many occurrences it posted and which payments failed. */
    method PostDue(now: Time) returns (posted: nat, errors: seq<Id>, ghost list: seq<ScheduledPayment>)
      requires Keyed(repository.payments)
      modifies this, repository
      ensures IsBatch(list, old(repository.payments), Horizon(now), BATCH)
      ensures State() == RunAll(old(State()), list, now).0 && posted == RunAll(old(State()), list, now).1
      ensures errors == Failures(old(State()), list, now)
      ensures |list| == if |Wanted(old(repository.payments), Horizon(now))| <= 500 then |Wanted(old(repository.payments), Horizon(now))| else 500
    {
      hide RunOne, Horizon, Fails, KeepsOldest, IsDueList, ListsAll, Wanted;
      var horizon := Horizon(now);
      var payments := repository.ListDueScheduledPayments(horizon, BATCH);
      list := payments;
      posted, errors := 0, [];
      for i := 0 to |payments|
        invariant State() == RunAll(old(State()), payments[..i], now).0 && posted == RunAll(old(State()), payments[..i], now).1
        invariant errors == Failures(old(State()), payments[..i], now)
      {
        assert payments[..i + 1][..i] == payments[..i];
        var count, failed := RunOccurrence(payments[i], now);
        FailedTurnPostsNothing(RunAll(old(State()), payments[..i], now).0, payments[i], now);
        if failed {
          errors := errors + [payments[i].id];
          continue;
        }
        posted := posted + count;
      }
      assert payments[..|payments|] == payments;
    }
  }
}
