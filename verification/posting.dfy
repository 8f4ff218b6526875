/**
 What repeated posting passes at a fixed time amount to, payment by payment:
 exactly the due occurrences, once each, in order, and then nothing.
 */
module PostingRuns {
  import opened Calendar
  import opened Domain
  import opened Payments
  import opened Recurrence
  import opened Sums

  /** What a pass can change of one payment: its cursor, its due rows, and the dates and amounts of its expenses. */
  datatype View = View(payment: ScheduledPayment, rows: set<Time>, posted: seq<(Time, int)>)

  ghost function DueRows(postings: map<PostingKey, Posting>, id: Id): set<Time> {
    set key | key in postings && key.paymentId == id && key.kind == Due :: key.dueAt
  }

  ghost function ExpensesOf(expenses: seq<Expense>, id: Id): seq<(Time, int)> {
    if expenses == [] then []
    else
      ExpensesOf(expenses[..|expenses| - 1], id)
      + if expenses[|expenses| - 1].paymentId == id then [(expenses[|expenses| - 1].dueAt, expenses[|expenses| - 1].amount)] else []
  }

  ghost function ViewOf(book: Book, id: Id): View
    requires id in book.payments
  {
    View(book.payments[id], DueRows(book.postings, id), ExpensesOf(book.expenses, id))
  }

  /** One pass, seen from one payment. */
  function Turn(v: View, now: Time): View {
    var p := v.payment;
    if CursorDue(p, now) then
      var next := NextDueFor(p, p.nextDueAt);
      View(p.(nextDueAt := next, lastPostedAt := Some(p.nextDueAt), paused := Finished(p, next)),
           v.rows + {p.nextDueAt}, if p.autoPost then v.posted + [(p.nextDueAt, p.amount)] else v.posted)
    else if !p.paused && !p.deleted && p.nextDueAt <= now then
      v.(payment := p.(lastPostedAt := Some(p.nextDueAt), paused := true))
    else v
  }

  // ---- A pass is one turn for every payment

  lemma RowsAfterClaim(postings: map<PostingKey, Posting>, key: PostingKey, posting: Posting, id: Id)
    ensures DueRows(postings[key := posting], id)
            == if key.paymentId == id && key.kind == Due then DueRows(postings, id) + {key.dueAt} else DueRows(postings, id)
  {
    var after := postings[key := posting];
    forall t ensures t in DueRows(after, id) <==>
      t in DueRows(postings, id) || (key.paymentId == id && key.kind == Due && t == key.dueAt)
    {
      if t in DueRows(postings, id) {
        var k :| k in postings && k.paymentId == id && k.kind == Due && k.dueAt == t;
        assert k in after;
      }
      if key.paymentId == id && key.kind == Due && t == key.dueAt {
        assert key in after;
      }
    }
  }

  lemma ExpensesAppend(expenses: seq<Expense>, e: Expense, id: Id)
    ensures ExpensesOf(expenses + [e], id) == ExpensesOf(expenses, id) + if e.paymentId == id then [(e.dueAt, e.amount)] else []
  {
    assert (expenses + [e])[..|expenses|] == expenses;
  }

  /** A payment's turn in the pass, as long as its due row has not been taken. */
  lemma OwnTurn(book: Book, id: Id, now: Time)
    requires id in book.payments && book.payments[id].id == id
    requires book.payments[id].nextDueAt !in DueRows(book.postings, id)
    ensures var (after, count) := RunOne(book, book.payments[id], now);
            && id in after.payments && ViewOf(after, id) == Turn(ViewOf(book, id), now)
            && count == if CursorDue(book.payments[id], now) then 1 else 0
  {
    hide Finished, NextDueFor, ReminderDueAt, DueRows, ExpensesOf;
    var p := book.payments[id];
    var due, reminder := PostingKey(p.id, p.nextDueAt, Due), PostingKey(p.id, p.nextDueAt, Reminder);
    DueRowTaken(book.postings, id, p.nextDueAt);
    RowsAfterClaim(book.postings, due, Posting(if p.autoPost then Some(book.nextId) else None, now), id);
    RowsAfterClaim(book.postings, reminder, Posting(None, now), id);
    ExpensesAppend(book.expenses, Expense(book.nextId, p.id, p.amount, p.nextDueAt), id);
  }

  lemma DueRowTaken(postings: map<PostingKey, Posting>, id: Id, t: Time)
    ensures PostingKey(id, t, Due) in postings <==> t in DueRows(postings, id)
  {
  }

  /** Another payment's turn leaves this one alone. */
  lemma OthersTurn(book: Book, p: ScheduledPayment, id: Id, now: Time)
    requires id in book.payments && p.id != id
    ensures var after := RunOne(book, p, now).0;
            id in after.payments && ViewOf(after, id) == ViewOf(book, id)
  {
    hide Finished, NextDueFor, ReminderDueAt, DueRows, ExpensesOf;
    RowsAfterClaim(book.postings, PostingKey(p.id, p.nextDueAt, Due), Posting(if p.autoPost then Some(book.nextId) else None, now), id);
    RowsAfterClaim(book.postings, PostingKey(p.id, p.nextDueAt, Reminder), Posting(None, now), id);
    ExpensesAppend(book.expenses, Expense(book.nextId, p.id, p.amount, p.nextDueAt), id);
  }

  lemma {:induction false} ListTurns(book: Book, list: seq<ScheduledPayment>, id: Id, now: Time)
    requires id in book.payments && book.payments[id].id == id
    requires book.payments[id].nextDueAt !in DueRows(book.postings, id)
    requires forall p :: p in list && p.id == id ==> p == book.payments[id]
    requires IsSorted(list)
    ensures var (after, count) := RunAll(book, list, now);
            && id in after.payments
            && ViewOf(after, id) == (if book.payments[id] in list then Turn(ViewOf(book, id), now) else ViewOf(book, id))
            && (book.payments[id] in list && CursorDue(book.payments[id], now) ==> 0 < count)
  {
    hide RunOne, Turn, DueRows, ExpensesOf, CursorDue;
    if list != [] {
      var front, last := list[..|list| - 1], list[|list| - 1];
      ListTurns(book, front, id, now);
      var before := RunAll(book, front, now).0;
      assert list == front + [last];
      if last.id == id {
        assert book.payments[id] !in front;
        OwnTurn(before, id, now);
      } else {
        OthersTurn(before, last, id, now);
      }
    }
  }

  /** A pass that asks for every due payment and is not cut short. */
  ghost predicate Pass(book: Book, list: seq<ScheduledPayment>, now: Time, after: Book) {
    && IsDueList(list, book.payments, Horizon(now))
    && ListsAll(list, Wanted(book.payments, Horizon(now)), book.payments)
    && after == RunAll(book, list, now).0
  }

  lemma PassIsTurn(book: Book, list: seq<ScheduledPayment>, now: Time, after: Book, id: Id)
    requires Pass(book, list, now, after) && Keyed(book.payments) && id in book.payments
    requires book.payments[id].nextDueAt !in DueRows(book.postings, id)
    ensures id in after.payments && ViewOf(after, id) == Turn(ViewOf(book, id), now)
    ensures CursorDue(book.payments[id], now) ==> 0 < RunAll(book, list, now).1
  {
    hide RunAll, DueRows, ExpensesOf, NextDueFor, AddDate;
    AddDays(now, REMINDER_LEAD_DAYS);
    ListTurns(book, list, id, now);
  }

  // ---- The cursor and the ledger agree

  /** The cursor is occurrence n and the due rows are exactly the n occurrences before it. */
  ghost predicate CursorAt(v: View, n: nat) {
    && v.payment.frequency != Unknown
    && v.payment.nextDueAt == Occurrence(v.payment, n)
    && v.rows == OccurrencesBefore(v.payment, n)
  }

  /** Occurrence i falls at or before now and is not past the end date. */
  predicate OccurrenceDue(p: ScheduledPayment, i: nat, now: Time) {
    Occurrence(p, i) <= now && (p.endDate.Some? ==> Occurrence(p, i) <= p.endDate.value)
  }

  ghost predicate SameSchedule(a: ScheduledPayment, b: ScheduledPayment) {
    a == b.(nextDueAt := a.nextDueAt, lastPostedAt := a.lastPostedAt, paused := a.paused)
  }

  lemma {:induction false} SameOccurrences(a: ScheduledPayment, b: ScheduledPayment, n: nat)
    requires SameSchedule(a, b)
    ensures Occurrence(a, n) == Occurrence(b, n)
  {
    hide NextPaymentDue;
    if n > 0 {
      SameOccurrences(a, b, n - 1);
    }
  }

  ghost function OccurrencesBefore(p: ScheduledPayment, n: nat): set<Time> {
    set i: nat | i < n :: Occurrence(p, i)
  }

  lemma OneMoreOccurrence(p: ScheduledPayment, n: nat)
    ensures OccurrencesBefore(p, n + 1) == OccurrencesBefore(p, n) + {Occurrence(p, n)}
  {
    hide NextDueFor;
    forall t ensures t in OccurrencesBefore(p, n + 1) <==> t in OccurrencesBefore(p, n) || t == Occurrence(p, n) {
      if t in OccurrencesBefore(p, n + 1) {
        var i: nat :| i < n + 1 && t == Occurrence(p, i);
        assert i < n || t == Occurrence(p, n);
      }
    }
  }

  /** The index of the cursor is the number of due rows. */
  lemma {:induction false} CursorIndexIsRowCount(p: ScheduledPayment, n: nat)
    requires p.frequency != Unknown
    ensures |OccurrencesBefore(p, n)| == n
  {
    hide NextDueFor;
    if n == 0 {
      assert OccurrencesBefore(p, 0) == {};
    } else {
      CursorIndexIsRowCount(p, n - 1);
      OneMoreOccurrence(p, n - 1);
      forall i: nat | i < n - 1 ensures Occurrence(p, i) != Occurrence(p, n - 1) {
        OccurrencesIncrease(p, i, n - 1);
      }
    }
  }

  lemma CursorIsNew(v: View, n: nat)
    requires CursorAt(v, n)
    ensures v.payment.nextDueAt !in v.rows
  {
    hide NextDueFor;
    forall i: nat | i < n ensures Occurrence(v.payment, i) != v.payment.nextDueAt {
      OccurrencesIncrease(v.payment, i, n);
    }
  }

  /** A turn at a due cursor takes its row and moves to the next occurrence; any other turn moves nothing. */
  lemma TurnMovesCursor(v: View, n: nat, now: Time)
    requires CursorAt(v, n)
    ensures SameSchedule(Turn(v, now).payment, v.payment)
    ensures CursorDue(v.payment, now) ==>
              && CursorAt(Turn(v, now), n + 1) && OccurrenceDue(v.payment, n, now)
              && Turn(v, now).posted == v.posted + if v.payment.autoPost then [(Occurrence(v.payment, n), v.payment.amount)] else []
    ensures !CursorDue(v.payment, now) ==> CursorAt(Turn(v, now), n) && Turn(v, now).posted == v.posted
  {
    hide NextDueFor;
    var after := Turn(v, now).payment;
    forall i: nat ensures Occurrence(after, i) == Occurrence(v.payment, i) {
      SameOccurrences(after, v.payment, i);
    }
    if CursorDue(v.payment, now) {
      assert Occurrence(v.payment, n + 1) == NextDueFor(v.payment, Occurrence(v.payment, n));
      OneMoreOccurrence(v.payment, n);
      assert OccurrencesBefore(after, n + 1) == OccurrencesBefore(v.payment, n + 1);
    } else {
      assert OccurrencesBefore(after, n) == OccurrencesBefore(v.payment, n);
    }
  }

  /** Occurrences from a to b, in order, each at the payment's amount. */
  ghost function Stretch(p: ScheduledPayment, a: nat, b: nat): seq<(Time, int)>
    requires a <= b
  {
    seq(b - a, i requires 0 <= i => (Occurrence(p, a + i), p.amount))
  }

  // ---- Repeating the pass

  function Turns(v: View, now: Time, k: nat): View {
    if k == 0 then v else Turn(Turns(v, now, k - 1), now)
  }

  /** A payment stops only by running past its end date. */
  ghost predicate StoppedOnlyAtEnd(p: ScheduledPayment) {
    !p.deleted && (p.paused ==> Finished(p, p.nextDueAt))
  }

  lemma {:induction false} TurnsPostTheStretch(v: View, now: Time, n: nat, k: nat) returns (m: nat)
    requires CursorAt(v, n) && StoppedOnlyAtEnd(v.payment)
    ensures var after := Turns(v, now, k);
            && n <= m <= n + k && SameSchedule(after.payment, v.payment)
            && CursorAt(after, m) && StoppedOnlyAtEnd(after.payment)
            && (forall i: nat :: n <= i < m ==> OccurrenceDue(v.payment, i, now))
            && after.posted == v.posted + (if v.payment.autoPost then Stretch(v.payment, n, m) else [])
            && (m < n + k ==> !CursorDue(after.payment, now))
  {
    hide NextDueFor, CursorAt, OccurrenceDue;
    if k == 0 {
      m := n;
    } else {
      var before := Turns(v, now, k - 1);
      m := TurnsPostTheStretch(v, now, n, k - 1);
      TurnMovesCursor(before, m, now);
      TurnKeepsStopped(before, now);
      SameOccurrences(before.payment, v.payment, m);
      SameDue(before.payment, v.payment, m, now);
      if CursorDue(before.payment, now) {
        assert Stretch(v.payment, n, m + 1) == Stretch(v.payment, n, m) + [(Occurrence(v.payment, m), v.payment.amount)];
        m := m + 1;
      }
    }
  }

  lemma SameDue(a: ScheduledPayment, b: ScheduledPayment, i: nat, now: Time)
    requires SameSchedule(a, b)
    ensures OccurrenceDue(a, i, now) == OccurrenceDue(b, i, now)
  {
    hide NextDueFor;
    SameOccurrences(a, b, i);
  }

  lemma TurnKeepsStopped(v: View, now: Time)
    requires StoppedOnlyAtEnd(v.payment)
    ensures StoppedOnlyAtEnd(Turn(v, now).payment)
    ensures !CursorDue(v.payment, now) ==> !CursorDue(Turn(v, now).payment, now)
  {
    hide NextDueFor;
  }

  /** Once the cursor is not due, no later occurrence is. */
  lemma NothingDueBeyond(v: View, m: nat, now: Time, i: nat)
    requires CursorAt(v, m) && StoppedOnlyAtEnd(v.payment) && !CursorDue(v.payment, now) && m <= i
    ensures !OccurrenceDue(v.payment, i, now)
  {
    hide NextDueFor;
    if m < i {
      OccurrencesIncrease(v.payment, m, i);
    }
  }

  lemma {:induction false} OccurrencesSpread(p: ScheduledPayment, n: nat, k: nat)
    requires p.frequency != Unknown
    ensures Occurrence(p, n) + k <= Occurrence(p, n + k)
  {
    hide NextDueFor;
    if k > 0 {
      OccurrencesSpread(p, n, k - 1);
      OccurrencesIncrease(p, n + k - 1, n + k);
    }
  }

  /** Enough passes always reach the end: the cursor cannot stay due for ever. */
  lemma PassesRunOut(v: View, now: Time, n: nat, k: nat)
    requires CursorAt(v, n) && StoppedOnlyAtEnd(v.payment)
    requires 0 < k && now - v.payment.nextDueAt + 1 < k
    ensures !CursorDue(Turns(v, now, k).payment, now)
  {
    hide NextDueFor, CursorDue;
    var m := TurnsPostTheStretch(v, now, n, k);
    if m == n + k {
      OccurrencesSpread(v.payment, n, k - 1);
      assert OccurrenceDue(v.payment, n + k - 1, now);
    }
  }

  // ---- Passes over the whole book

  /** What one call of the pass does: list, cut to the batch, and run the list. */
  ghost predicate PostsDue(book: Book, list: seq<ScheduledPayment>, now: Time, after: Book) {
    IsBatch(list, book.payments, Horizon(now), BATCH) && after == RunAll(book, list, now).0
  }

  predicate Active(p: ScheduledPayment) { !p.deleted && !p.paused }

  /** Every active payment's cursor agrees with its ledger rows. */
  ghost predicate Ready(book: Book) {
    && Keyed(book.payments)
    && forall id :: id in book.payments && Active(book.payments[id]) ==> HasCursor(book, id)
  }

  ghost predicate HasCursor(book: Book, id: Id)
    requires id in book.payments
  {
    exists n: nat :: CursorAt(ViewOf(book, id), n)
  }

  /** A payment starts out at its start date with nothing in the ledger, which is occurrence 0. */
  lemma NewPaymentHasCursor(book: Book, id: Id)
    requires id in book.payments && book.payments[id].frequency != Unknown
    requires book.payments[id].nextDueAt == book.payments[id].startDate && DueRows(book.postings, id) == {}
    ensures HasCursor(book, id)
  {
    hide NextDueFor;
    assert OccurrencesBefore(book.payments[id], 0) == {};
    assert CursorAt(ViewOf(book, id), 0);
  }

  /** A pass adds and removes no payment. */
  lemma {:induction false} PassKeepsKeys(book: Book, list: seq<ScheduledPayment>, now: Time)
    requires Keyed(book.payments)
    ensures RunAll(book, list, now).0.payments.Keys == book.payments.Keys && Keyed(RunAll(book, list, now).0.payments)
  {
    hide RunOne, Keyed;
    if list != [] {
      var front := list[..|list| - 1];
      PassKeepsKeys(book, front, now);
      TurnKeepsKeys(RunAll(book, front, now).0, list[|list| - 1], now);
    }
  }

  lemma TurnKeepsKeys(book: Book, p: ScheduledPayment, now: Time)
    requires Keyed(book.payments)
    ensures RunOne(book, p, now).0.payments.Keys == book.payments.Keys && Keyed(RunOne(book, p, now).0.payments)
  {
    hide Finished, NextDueFor, InReminderWindow;
  }

  /** A payment that is not on the list is left alone. */
  lemma {:induction false} UnlistedIsUntouched(book: Book, list: seq<ScheduledPayment>, now: Time, id: Id)
    requires id in book.payments && forall p :: p in list ==> p.id != id
    ensures var after := RunAll(book, list, now).0; id in after.payments && ViewOf(after, id) == ViewOf(book, id)
  {
    hide RunOne, DueRows, ExpensesOf;
    if list != [] {
      var front, last := list[..|list| - 1], list[|list| - 1];
      UnlistedIsUntouched(book, front, now, id);
      OthersTurn(RunAll(book, front, now).0, last, id, now);
    }
  }

  lemma {:induction false} NothingDuePostsNothing(book: Book, list: seq<ScheduledPayment>, now: Time)
    requires forall p :: p in list ==> !CursorDue(p, now)
    ensures RunAll(book, list, now).1 == 0
  {
    hide Finished, NextDueFor, ReminderDueAt;
    if list != [] {
      NothingDuePostsNothing(book, list[..|list| - 1], now);
      assert !CursorDue(list[|list| - 1], now);
    }
  }

  /** What a pass does to one payment: its turn if it is listed, nothing otherwise. */
  lemma PassOnPayment(book: Book, list: seq<ScheduledPayment>, now: Time, after: Book, id: Id)
    requires Ready(book) && PostsDue(book, list, now, after) && id in book.payments
    ensures id in after.payments
    ensures ViewOf(after, id) == if book.payments[id] in list then Turn(ViewOf(book, id), now) else ViewOf(book, id)
    ensures book.payments[id] in list ==> Active(book.payments[id])
    ensures book.payments[id] in list && CursorDue(book.payments[id], now) ==> 0 < RunAll(book, list, now).1
  {
    hide CursorAt, Turn, DueRows, ExpensesOf, RunAll, Horizon, CursorDue, KeepsOldest;
    if Active(book.payments[id]) {
      var n: nat :| CursorAt(ViewOf(book, id), n);
      CursorIsNew(ViewOf(book, id), n);
      ListTurns(book, list, id, now);
    } else {
      UnlistedIsUntouched(book, list, now, id);
    }
  }

  /** A pass keeps cursors and ledger in step, and at a fixed time makes no new payment wanted. */
  lemma PassKeepsReady(book: Book, list: seq<ScheduledPayment>, now: Time, after: Book)
    requires Ready(book) && PostsDue(book, list, now, after)
    ensures Ready(after) && after.payments.Keys == book.payments.Keys
    ensures Wanted(after.payments, Horizon(now)) <= Wanted(book.payments, Horizon(now))
  {
    hide CursorAt, RunAll, DueRows, ExpensesOf, AddDate, NextDueFor, IsBatch, Occurrence, Turn;
    PassKeepsKeys(book, list, now);
    forall id | id in after.payments && Active(after.payments[id])
      ensures Active(book.payments[id]) && HasCursor(after, id) && book.payments[id].nextDueAt <= after.payments[id].nextDueAt
    {
      PassOnPayment(book, list, now, after, id);
      var v := ViewOf(book, id);
      assert v.payment == book.payments[id] && ViewOf(after, id).payment == after.payments[id];
      if book.payments[id] in list {
        var n: nat :| CursorAt(v, n);
        var m := TurnKeepsCursor(v, n, now);
        assert CursorAt(ViewOf(after, id), m);
      }
    }
  }

  lemma TurnKeepsCursor(v: View, n: nat, now: Time) returns (m: nat)
    requires CursorAt(v, n)
    ensures CursorAt(Turn(v, now), m) && v.payment.nextDueAt <= Turn(v, now).payment.nextDueAt
  {
    hide NextDueFor, Occurrence, Finished;
    TurnMovesCursor(v, n, now);
    NextDueIsLater(v.payment, v.payment.nextDueAt);
    m := if CursorDue(v.payment, now) then n + 1 else n;
  }

  /** A pass returns zero if and only if nothing it lists is due; uncut, if and only if no cursor of the book is. */
  lemma ZeroIffNothingDue(book: Book, list: seq<ScheduledPayment>, now: Time, after: Book)
    requires Ready(book) && PostsDue(book, list, now, after)
    ensures RunAll(book, list, now).1 == 0 <==> forall p :: p in list ==> !CursorDue(p, now)
    ensures |Wanted(book.payments, Horizon(now))| <= BATCH ==>
              (RunAll(book, list, now).1 == 0 <==> forall id :: id in book.payments ==> !CursorDue(book.payments[id], now))
  {
    hide CursorAt, RunAll, DueRows, ExpensesOf, AddDate, Finished, NextDueFor, KeepsOldest;
    AddDays(now, REMINDER_LEAD_DAYS);
    if forall p :: p in list ==> !CursorDue(p, now) {
      NothingDuePostsNothing(book, list, now);
    }
    forall p | p in list && CursorDue(p, now) ensures 0 < RunAll(book, list, now).1 {
      PassOnPayment(book, list, now, after, p.id);
    }
  }

  // ---- The backlog

  /** An active payment whose cursor has come up: due, or due to be stopped. */
  predicate Overdue(p: ScheduledPayment, now: Time) { Active(p) && p.nextDueAt <= now }

  function Delay(p: ScheduledPayment, now: Time): nat {
    if Overdue(p, now) then now - p.nextDueAt + 1 else 0
  }

  ghost function Delays(book: Book, now: Time): Id -> int {
    id => if id in book.payments then Delay(book.payments[id], now) else 0
  }

  ghost function Backlog(book: Book, now: Time): int {
    Sum(book.payments.Keys, Delays(book, now))
  }

  /** Every turn of an overdue payment shortens its delay, whether it posts or stops. */
  lemma TurnShortensDelay(v: View, n: nat, now: Time)
    requires CursorAt(v, n)
    ensures Delay(Turn(v, now).payment, now) <= Delay(v.payment, now)
    ensures Overdue(v.payment, now) ==> Delay(Turn(v, now).payment, now) < Delay(v.payment, now)
  {
    hide NextDueFor, Occurrence, Finished;
    NextDueIsLater(v.payment, v.payment.nextDueAt);
  }

  /** However short the batch, an overdue payment puts an overdue one on the list. */
  lemma BatchHoldsOverdue(book: Book, list: seq<ScheduledPayment>, now: Time, after: Book, id: Id)
    requires PostsDue(book, list, now, after) && id in book.payments && Overdue(book.payments[id], now)
    ensures exists p :: p in list && Overdue(p, now)
  {
    hide RunAll, AddDate;
    AddDays(now, REMINDER_LEAD_DAYS);
    assert id in Wanted(book.payments, Horizon(now));
    if book.payments[id] !in list {
      assert list[0] in list;
    }
  }

  /** So each pass works off some of the backlog, until nothing is overdue. */
  lemma PassShortensBacklog(book: Book, list: seq<ScheduledPayment>, now: Time, after: Book)
    requires Ready(book) && PostsDue(book, list, now, after)
    ensures 0 <= Backlog(after, now) <= Backlog(book, now)
    ensures 0 < Backlog(book, now) ==> Backlog(after, now) < Backlog(book, now)
  {
    hide RunAll, IsBatch, CursorAt, Turn, DueRows, ExpensesOf, Delay, Overdue, Ready;
    PassKeepsReady(book, list, now, after);
    var keys, f, g := book.payments.Keys, Delays(book, now), Delays(after, now);
    forall id | id in keys ensures g(id) <= f(id) && (book.payments[id] in list && Overdue(book.payments[id], now) ==> g(id) < f(id)) {
      DelayAfterPass(book, list, now, after, id);
    }
    SumMonotone(keys, g, f);
    SumNonNegative(keys, g);
    if 0 < Backlog(book, now) {
      var id := SomeOverdue(book, now);
      BatchHoldsOverdue(book, list, now, after, id);
      var p :| p in list && Overdue(p, now);
      ListedIsCurrent(book, list, now, after, p);
      SumPick(keys, f, p.id);
      SumPick(keys, g, p.id);
      SumMonotone(keys - {p.id}, g, f);
    }
  }

  lemma ListedIsCurrent(book: Book, list: seq<ScheduledPayment>, now: Time, after: Book, p: ScheduledPayment)
    requires PostsDue(book, list, now, after) && p in list
    ensures p.id in book.payments && book.payments[p.id] == p
  {
    hide RunAll, Horizon;
  }

  lemma DelayAfterPass(book: Book, list: seq<ScheduledPayment>, now: Time, after: Book, id: Id)
    requires Ready(book) && PostsDue(book, list, now, after) && id in book.payments
    ensures id in after.payments && Delay(after.payments[id], now) <= Delay(book.payments[id], now)
    ensures book.payments[id] in list && Overdue(book.payments[id], now) ==> Delay(after.payments[id], now) < Delay(book.payments[id], now)
  {
    hide RunAll, IsBatch, CursorAt, Turn, DueRows, ExpensesOf, Delay;
    PassOnPayment(book, list, now, after, id);
    assert ViewOf(book, id).payment == book.payments[id] && ViewOf(after, id).payment == after.payments[id];
    if book.payments[id] in list {
      var n: nat :| CursorAt(ViewOf(book, id), n);
      TurnShortensDelay(ViewOf(book, id), n, now);
    }
  }

  lemma SomeOverdue(book: Book, now: Time) returns (id: Id)
    requires 0 < Backlog(book, now)
    ensures id in book.payments && Overdue(book.payments[id], now)
  {
    if forall id :: id in book.payments ==> !Overdue(book.payments[id], now) {
      SumAtMost(book.payments.Keys, Delays(book, now), 0);
    }
    id :| id in book.payments && Overdue(book.payments[id], now);
  }

  lemma NoBacklogNothingOverdue(book: Book, now: Time, id: Id)
    requires Backlog(book, now) <= 0 && id in book.payments
    ensures !Overdue(book.payments[id], now)
  {
    SumPick(book.payments.Keys, Delays(book, now), id);
    SumNonNegative(book.payments.Keys - {id}, Delays(book, now));
  }

  // ---- Runs of passes

  /** Consecutive passes at one fixed time. */
  ghost predicate Passes(run: seq<Book>, lists: seq<seq<ScheduledPayment>>, now: Time) {
    && |run| == |lists| + 1
    && forall i :: 0 <= i < |lists| ==> PostsDue(run[i], lists[i], now, run[i + 1])
  }

  /** A first batch that is not cut leaves no later one cut. */
  lemma {:induction false} NoPassIsCut(run: seq<Book>, lists: seq<seq<ScheduledPayment>>, now: Time, k: nat)
    requires Passes(run, lists, now) && k <= |lists| && Ready(run[0])
    ensures Ready(run[k]) && run[k].payments.Keys == run[0].payments.Keys
    ensures Wanted(run[k].payments, Horizon(now)) <= Wanted(run[0].payments, Horizon(now))
    ensures |Wanted(run[0].payments, Horizon(now))| <= BATCH && k < |lists| ==>
              ListsAll(lists[k], Wanted(run[k].payments, Horizon(now)), run[k].payments)
  {
    hide Ready, Wanted, RunAll, Horizon, ListsAll, KeepsOldest, IsDueList;
    if k > 0 {
      NoPassIsCut(run, lists, now, k - 1);
      PassKeepsReady(run[k - 1], lists[k - 1], now, run[k]);
    }
    SubsetIsSmaller(Wanted(run[k].payments, Horizon(now)), Wanted(run[0].payments, Horizon(now)));
    assert k < |lists| ==> PostsDue(run[k], lists[k], now, run[k + 1]);
  }

  lemma SubsetIsSmaller(a: set<Id>, b: set<Id>)
    requires a <= b
    ensures |a| <= |b|
  {
    assert b == a + (b - a);
  }

  /** Seen from one payment, a run of passes is as many turns as it was listed. */
  lemma {:induction false} RunIsTurns(run: seq<Book>, lists: seq<seq<ScheduledPayment>>, now: Time, id: Id, k: nat) returns (j: nat)
    requires Passes(run, lists, now) && k <= |lists| && Ready(run[0]) && id in run[0].payments
    ensures j <= k && id in run[k].payments && ViewOf(run[k], id) == Turns(ViewOf(run[0], id), now, j)
  {
    hide Turn, CursorAt, DueRows, ExpensesOf, Ready, Wanted, PostsDue, Horizon;
    j := 0;
    if k > 0 {
      j := RunIsTurns(run, lists, now, id, k - 1);
      NoPassIsCut(run, lists, now, k - 1);
      PassOnPayment(run[k - 1], lists[k - 1], now, run[k], id);
      if run[k - 1].payments[id] in lists[k - 1] {
        j := j + 1;
      }
    }
  }

  lemma ActiveStopsOnlyAtEnd(p: ScheduledPayment)
    requires Active(p)
    ensures StoppedOnlyAtEnd(p)
  {
  }

  /** Between two books the payment was posted for exactly its due occurrences from n on, once each, in order and at its amount, with one row each. */
  ghost predicate PostedExactly(before: Book, after: Book, id: Id, n: nat, now: Time)
    requires id in before.payments
  {
    exists m: nat ::
      && id in after.payments
      && var p, v := before.payments[id], ViewOf(after, id);
      && n <= m && CursorAt(v, m) && |v.rows| == m
      && (forall i: nat :: n <= i ==> (OccurrenceDue(p, i, now) <==> i < m))
      && v.posted == ViewOf(before, id).posted + (if p.autoPost then Stretch(p, n, m) else [])
  }

  /** Wherever a payment's cursor has stopped being due, exactly its due occurrences have been posted. */
  lemma PostedOnceNotDue(run: seq<Book>, lists: seq<seq<ScheduledPayment>>, now: Time, id: Id, n: nat, k: nat)
    requires Passes(run, lists, now) && k <= |lists| && Ready(run[0])
    requires id in run[0].payments && Active(run[0].payments[id]) && CursorAt(ViewOf(run[0], id), n)
    requires id in run[k].payments && !CursorDue(run[k].payments[id], now)
    ensures PostedExactly(run[0], run[k], id, n, now)
  {
    hide Ready, Turn, DueRows, ExpensesOf, RunAll, OccurrenceDue, StoppedOnlyAtEnd, CursorDue, NextDueFor, Occurrence, Wanted, Horizon, PostsDue;
    var turns := RunIsTurns(run, lists, now, id, k);
    ActiveStopsOnlyAtEnd(run[0].payments[id]);
    var p, after := run[0].payments[id], ViewOf(run[k], id);
    var m := TurnsPostTheStretch(ViewOf(run[0], id), now, n, turns);
    CursorIndexIsRowCount(after.payment, m);
    forall i: nat | n <= i ensures OccurrenceDue(p, i, now) <==> i < m {
      if m <= i {
        NothingDueBeyond(after, m, now, i);
        SameDue(after.payment, p, i, now);
      }
    }
  }

  ghost predicate AllPosted(before: Book, after: Book, now: Time) {
    forall id, n: nat ::
      id in before.payments && Active(before.payments[id]) && CursorAt(ViewOf(before, id), n) ==> PostedExactly(before, after, id, n, now)
  }

  /** When nothing is due any more, every active payment was posted for exactly its due occurrences. */
  lemma NothingDueMeansAllPosted(run: seq<Book>, lists: seq<seq<ScheduledPayment>>, now: Time, k: nat)
    requires Passes(run, lists, now) && k <= |lists| && Ready(run[0])
    requires forall id :: id in run[k].payments ==> !CursorDue(run[k].payments[id], now)
    ensures AllPosted(run[0], run[k], now)
  {
    hide CursorDue, Wanted, Ready, CursorAt, PostedExactly, PostsDue, DueRows, ExpensesOf, Horizon;
    NoPassIsCut(run, lists, now, k);
    forall id, n: nat | id in run[0].payments && Active(run[0].payments[id]) && CursorAt(ViewOf(run[0], id), n)
      ensures PostedExactly(run[0], run[k], id, n, now)
    {
      PostedOnceNotDue(run, lists, now, id, n, k);
    }
  }

  /** While the first batch is not cut, a pass that returns zero has nothing left to do. */
  lemma ZeroMeansAllPosted(run: seq<Book>, lists: seq<seq<ScheduledPayment>>, now: Time, k: nat)
    requires Passes(run, lists, now) && k < |lists|
    requires Ready(run[0]) && |Wanted(run[0].payments, Horizon(now))| <= BATCH
    requires RunAll(run[k], lists[k], now).1 == 0
    ensures AllPosted(run[0], run[k], now)
  {
    hide RunAll, CursorDue, Wanted, Ready, AllPosted, PostsDue, Horizon;
    NoPassIsCut(run, lists, now, k);
    SubsetIsSmaller(Wanted(run[k].payments, Horizon(now)), Wanted(run[0].payments, Horizon(now)));
    ZeroIffNothingDue(run[k], lists[k], now, run[k + 1]);
    NothingDueMeansAllPosted(run, lists, now, k);
  }

  lemma {:induction false} BacklogRunsOut(run: seq<Book>, lists: seq<seq<ScheduledPayment>>, now: Time, k: nat)
    requires Passes(run, lists, now) && k <= |lists| && Ready(run[0])
    ensures Backlog(run[k], now) <= 0 || Backlog(run[k], now) + k <= Backlog(run[0], now)
  {
    hide RunAll, Ready, PostsDue, Backlog;
    if k > 0 {
      BacklogRunsOut(run, lists, now, k - 1);
      NoPassIsCut(run, lists, now, k - 1);
      PassShortensBacklog(run[k - 1], lists[k - 1], now, run[k]);
    }
  }

  /** After as many passes as the backlog is long no cursor is due, however many payments share a batch. */
  lemma NothingStaysDue(run: seq<Book>, lists: seq<seq<ScheduledPayment>>, now: Time, k: nat, id: Id)
    requires Passes(run, lists, now) && k <= |lists| && Ready(run[0]) && Backlog(run[0], now) <= k
    requires id in run[k].payments
    ensures !CursorDue(run[k].payments[id], now)
  {
    hide RunAll, Ready, PostsDue, Backlog, Finished;
    BacklogRunsOut(run, lists, now, k);
    NoBacklogNothingOverdue(run[k], now, id);
  }

  /**
   Repeating the pass at a fixed time always comes to a pass that returns zero,
   however many payments are due and whatever the batch cuts off, and by then has
   posted, for each active payment, exactly the occurrences from its cursor on
   that are at or before now and not past its end date: once each, in order,
   at the payment's amount, one row each.
   */
  lemma PassesPostExactlyTheDue(book: Book, now: Time) returns (enough: nat)
    requires Ready(book)
    ensures forall run: seq<Book>, lists: seq<seq<ScheduledPayment>> ::
              Passes(run, lists, now) && enough < |lists| && run[0] == book
              ==> RunAll(run[enough], lists[enough], now).1 == 0 && AllPosted(book, run[enough], now)
  {
    hide RunAll, Ready, AllPosted, CursorDue, PostsDue, Backlog;
    enough := if 0 <= Backlog(book, now) then Backlog(book, now) else 0;
    forall run: seq<Book>, lists: seq<seq<ScheduledPayment>> | Passes(run, lists, now) && enough < |lists| && run[0] == book
      ensures RunAll(run[enough], lists[enough], now).1 == 0 && AllPosted(book, run[enough], now)
    {
      NoPassIsCut(run, lists, now, enough);
      forall id | id in run[enough].payments ensures !CursorDue(run[enough].payments[id], now) {
        NothingStaysDue(run, lists, now, enough, id);
      }
      forall p | p in lists[enough] ensures !CursorDue(p, now) {
        ListedIsCurrent(run[enough], lists[enough], now, run[enough + 1], p);
      }
      ZeroIffNothingDue(run[enough], lists[enough], now, run[enough + 1]);
      NothingDueMeansAllPosted(run, lists, now, enough);
    }
  }

  // ---- What a pass writes

  /** A ledger row written for this payment now: its reminder in the days before its due date, or the due date itself once reached. */
  predicate TrueRow(key: PostingKey, posting: Posting, p: ScheduledPayment, now: Time) {
    && key.paymentId == p.id && key.dueAt == p.nextDueAt && posting.postedAt == now
    && (posting.expenseId.Some? <==> key.kind == Due && p.autoPost)
    && match key.kind
       case Reminder => 1 <= p.reminderDays && p.nextDueAt - p.reminderDays * 86_400_000_000_000 <= now < p.nextDueAt
       case Due => p.nextDueAt <= now && (p.endDate.Some? ==> p.nextDueAt <= p.endDate.value)
  }

  /** An expense posted for this payment: its due date, its amount, and the id its ledger row records. */
  predicate TrueExpense(e: Expense, postings: map<PostingKey, Posting>, p: ScheduledPayment) {
    && e.paymentId == p.id && e.dueAt == p.nextDueAt && e.amount == p.amount
    && var key := PostingKey(p.id, p.nextDueAt, Due);
    && key in postings && postings[key].expenseId == Some(e.id)
  }

  ghost predicate RowExplained(key: PostingKey, posting: Posting, list: seq<ScheduledPayment>, now: Time) {
    exists p :: p in list && TrueRow(key, posting, p, now)
  }

  ghost predicate ExpenseExplained(e: Expense, postings: map<PostingKey, Posting>, list: seq<ScheduledPayment>) {
    exists p :: p in list && TrueExpense(e, postings, p)
  }

  /** Rows and expenses stay as they were written, and what is added is true of a listed payment. */
  ghost predicate AddsOnly(before: Book, after: Book, list: seq<ScheduledPayment>, now: Time) {
    && (forall key :: key in before.postings ==> key in after.postings && after.postings[key] == before.postings[key])
    && (forall key :: key in after.postings && key !in before.postings ==> RowExplained(key, after.postings[key], list, now))
    && |before.expenses| <= |after.expenses| && before.nextId <= after.nextId
    && (forall i :: 0 <= i < |before.expenses| ==> after.expenses[i] == before.expenses[i])
    && (forall i :: |before.expenses| <= i < |after.expenses| ==> ExpenseExplained(after.expenses[i], after.postings, list))
  }

  lemma TurnAddsOnly(book: Book, p: ScheduledPayment, now: Time)
    ensures AddsOnly(book, RunOne(book, p, now).0, [p], now)
  {
    hide NextDueFor, AddDate, Advanced, ReminderDueAt;
    ReminderWindowMeans(p, now);
    assert p in [p];
  }

  lemma AdditionsAddUp(before: Book, between: Book, after: Book, front: seq<ScheduledPayment>, last: ScheduledPayment, now: Time)
    requires AddsOnly(before, between, front, now) && AddsOnly(between, after, [last], now)
    ensures AddsOnly(before, after, front + [last], now)
  {
    hide TrueRow;
    var list := front + [last];
    forall key | key in after.postings && key !in before.postings ensures RowExplained(key, after.postings[key], list, now) {
      if key in between.postings {
        assert RowExplained(key, between.postings[key], front, now);
      } else {
        assert RowExplained(key, after.postings[key], [last], now);
      }
    }
    forall i | |before.expenses| <= i < |after.expenses| ensures ExpenseExplained(after.expenses[i], after.postings, list) {
      if i < |between.expenses| {
        assert ExpenseExplained(between.expenses[i], between.postings, front);
        var p :| p in front && TrueExpense(between.expenses[i], between.postings, p);
        assert p in list && TrueExpense(after.expenses[i], after.postings, p);
      } else {
        assert ExpenseExplained(after.expenses[i], after.postings, [last]);
      }
    }
  }

  /**
   Every pass only adds: rows dated now for listed payments whose reminder or due
   date has come, and expenses of the payment's amount under the id its row records.
   */
  lemma {:induction false} PassAddsOnly(book: Book, list: seq<ScheduledPayment>, now: Time)
    ensures AddsOnly(book, RunAll(book, list, now).0, list, now)
  {
    hide RunOne, AddsOnly;
    if list == [] {
      NothingAdded(book, now);
    } else {
      var front, last := list[..|list| - 1], list[|list| - 1];
      var between := RunAll(book, front, now).0;
      PassAddsOnly(book, front, now);
      TurnAddsOnly(between, last, now);
      AdditionsAddUp(book, between, RunAll(book, list, now).0, front, last, now);
      assert list == front + [last];
    }
  }

  lemma NothingAdded(book: Book, now: Time)
    ensures AddsOnly(book, book, [], now)
  {
  }

  function NoticeOf(key: PostingKey): Notice { Notice(key.paymentId, key.dueAt, key.kind) }

  /** The notices queued are those of the ledger's rows, each once. */
  ghost predicate Told(book: Book) {
    && (forall key :: key in book.postings <==> NoticeOf(key) in book.notices)
    && (forall i, j :: 0 <= i < j < |book.notices| ==> book.notices[i] != book.notices[j])
  }

  /** The expenses posted are those the ledger's rows name, each once, under ids drawn already. */
  ghost predicate Billed(book: Book) {
    && (forall key :: key in book.postings && book.postings[key].expenseId.Some? ==>
          key.kind == Due && book.postings[key].expenseId.value < book.nextId && HasExpense(book, key))
    && (forall i, j :: 0 <= i < j < |book.expenses| ==> book.expenses[i].id != book.expenses[j].id)
    && (forall i :: 0 <= i < |book.expenses| ==> book.expenses[i].id < book.nextId)
  }

  ghost predicate HasExpense(book: Book, key: PostingKey)
    requires key in book.postings && book.postings[key].expenseId.Some?
  {
    exists i :: 0 <= i < |book.expenses| && IsExpenseOf(book.expenses[i], key, book.postings[key].expenseId.value)
  }

  predicate IsExpenseOf(e: Expense, key: PostingKey, id: nat) {
    e.id == id && e.paymentId == key.paymentId && e.dueAt == key.dueAt
  }

  lemma ClaimKeepsTold(book: Book, p: ScheduledPayment, kind: Kind, expenseId: Option<nat>, now: Time)
    requires Told(book) && PostingKey(p.id, p.nextDueAt, kind) !in book.postings
    ensures Told(Claim(book, p, kind, expenseId, now))
  {
    var after := Claim(book, p, kind, expenseId, now);
    forall key ensures key in after.postings <==> NoticeOf(key) in after.notices {
      assert key in book.postings <==> NoticeOf(key) in book.notices;
    }
    forall n | n in book.notices ensures n != Notice(p.id, p.nextDueAt, kind) {
      assert NoticeOf(PostingKey(n.paymentId, n.dueAt, n.kind)) == n;
    }
  }

  lemma SameNoticesSameTold(a: Book, b: Book)
    requires Told(a) && a.postings == b.postings && a.notices == b.notices
    ensures Told(b)
  {
  }

  lemma TurnKeepsTold(book: Book, p: ScheduledPayment, now: Time)
    requires Told(book)
    ensures Told(RunOne(book, p, now).0)
  {
    hide NextDueFor, Advanced, InReminderWindow, Finished, Told;
    var after, expenseId := RunOne(book, p, now).0, if p.autoPost then Some(book.nextId) else None;
    if after.postings == book.postings && after.notices == book.notices {
      SameNoticesSameTold(book, after);
    } else if InReminderWindow(p, now) {
      ClaimKeepsTold(book, p, Reminder, None, now);
    } else {
      ClaimKeepsTold(book, p, Due, expenseId, now);
      SameNoticesSameTold(Claim(book, p, Due, expenseId, now), after);
    }
  }

  /** A claim that names an expense keeps the books once that expense is written. */
  lemma ClaimAndPostKeepBilled(book: Book, after: Book, p: ScheduledPayment, now: Time)
    requires Billed(book) && PostingKey(p.id, p.nextDueAt, Due) !in book.postings && after.nextId == book.nextId + 1
    requires after.postings == book.postings[PostingKey(p.id, p.nextDueAt, Due) := Posting(Some(book.nextId), now)]
    requires after.expenses == book.expenses + [Expense(book.nextId, p.id, p.amount, p.nextDueAt)]
    ensures Billed(after)
  {
    forall key | key in after.postings && after.postings[key].expenseId.Some? ensures HasExpense(after, key) {
      if key in book.postings {
        assert HasExpense(book, key);
        var i :| 0 <= i < |book.expenses| && IsExpenseOf(book.expenses[i], key, book.postings[key].expenseId.value);
        assert after.expenses[i] == book.expenses[i];
      } else {
        assert IsExpenseOf(after.expenses[|book.expenses|], key, book.nextId);
      }
    }
  }

  /** Rows that name no expense ask for none. */
  lemma RowsWithoutExpenseKeepBilled(book: Book, after: Book)
    requires Billed(book) && after.expenses == book.expenses && book.nextId <= after.nextId
    requires forall key :: key in after.postings && after.postings[key].expenseId.Some? ==> key in book.postings && after.postings[key] == book.postings[key]
    ensures Billed(after)
  {
    forall key | key in after.postings && after.postings[key].expenseId.Some? ensures HasExpense(after, key) {
      assert HasExpense(book, key);
    }
  }

  lemma TurnKeepsBilled(book: Book, p: ScheduledPayment, now: Time)
    requires Billed(book)
    ensures Billed(RunOne(book, p, now).0)
  {
    hide NextDueFor, Advanced, InReminderWindow, Finished, Billed;
    var after := RunOne(book, p, now).0;
    if after.expenses == book.expenses {
      RowsWithoutExpenseKeepBilled(book, after);
    } else {
      ClaimAndPostKeepBilled(book, after, p, now);
    }
  }

  /** Every pass leaves one notice per ledger row and one expense per row that names one. */
  lemma {:induction false} PassKeepsBooks(book: Book, list: seq<ScheduledPayment>, now: Time)
    ensures Told(book) ==> Told(RunAll(book, list, now).0)
    ensures Billed(book) ==> Billed(RunAll(book, list, now).0)
  {
    hide RunOne, Told, Billed;
    if list != [] {
      var front, last := list[..|list| - 1], list[|list| - 1];
      var between := RunAll(book, front, now).0;
      PassKeepsBooks(book, front, now);
      if Told(between) { TurnKeepsTold(between, last, now); }
      if Billed(between) { TurnKeepsBilled(between, last, now); }
    }
  }
}
