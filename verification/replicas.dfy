/**
 Any number of scheduler replicas sharing one ledger. Each step of a replica is
 its own transaction: the ledger claim, the notice, the expense, the cursor. A
 replica may crash between any two of them, work from a stale copy of a payment,
 and schedules may be edited at any time.
 */
module Replicas {
  import opened Calendar
  import opened Domain
  import opened Payments
  import PostingRuns
  import opened Recurrence

  /** Where a replica stands with the copy of the payment it listed. */
  datatype Stage =
    | Listed
    | Claimed(kind: Kind, expenseId: Option<nat>)
    | Notified(expenseId: Option<nat>)
    | Written

  datatype Replica = Replica(payment: ScheduledPayment, stage: Stage)

  datatype System = System(book: Book, replicas: map<nat, Replica>, now: Time)

  datatype Action =
    | List(replica: nat, id: Id)
    | TakeReminder(replica: nat)
    | TakeDue(replica: nat)
    | LeaveClaimed(replica: nat)
    | Notify(replica: nat, enabled: bool)
    | Post(replica: nat)
    | Advance(replica: nat)
    | PauseFinished(replica: nat)
    | Crash(replica: nat)
    | Edit(payment: ScheduledPayment)
    | Tick(later: Time)

  function KeyOf(r: Replica, kind: Kind): PostingKey {
    PostingKey(r.payment.id, r.payment.nextDueAt, kind)
  }

  predicate At(s: System, replica: nat, stage: Stage) {
    replica in s.replicas && s.replicas[replica].stage == stage
  }

  predicate Enabled(s: System, action: Action) {
    match action
    case List(r, id) =>
      r !in s.replicas && id in s.book.payments && s.book.payments[id].id == id
      && !s.book.payments[id].deleted && !s.book.payments[id].paused && s.book.payments[id].nextDueAt <= Horizon(s.now)
    case TakeReminder(r) =>
      At(s, r, Listed) && InReminderWindow(s.replicas[r].payment, s.now)
      && KeyOf(s.replicas[r], Reminder) !in s.book.postings
    case TakeDue(r) =>
      At(s, r, Listed) && CursorDue(s.replicas[r].payment, s.now) && KeyOf(s.replicas[r], Due) !in s.book.postings
    case LeaveClaimed(r) =>
      At(s, r, Listed)
      && (if InReminderWindow(s.replicas[r].payment, s.now) then KeyOf(s.replicas[r], Reminder) in s.book.postings
          else CursorDue(s.replicas[r].payment, s.now) && KeyOf(s.replicas[r], Due) in s.book.postings)
    case Notify(r, enabled) => r in s.replicas && s.replicas[r].stage.Claimed?
    case Post(r) => r in s.replicas && s.replicas[r].stage.Notified? && s.replicas[r].stage.expenseId.Some?
    case Advance(r) => At(s, r, Written) || At(s, r, Notified(None))
    case PauseFinished(r) =>
      At(s, r, Listed) && s.replicas[r].payment.nextDueAt <= s.now
      && Finished(s.replicas[r].payment, s.replicas[r].payment.nextDueAt)
    case Crash(r) => r in s.replicas
    case Edit(p) => true
    case Tick(later) => s.now <= later
  }

  function Step(s: System, action: Action): System
    requires Enabled(s, action)
  {
    var book := s.book;
    match action
    case List(r, id) => s.(replicas := s.replicas[r := Replica(book.payments[id], Listed)])
    case TakeReminder(r) =>
      var me := s.replicas[r];
      s.(book := book.(postings := book.postings[KeyOf(me, Reminder) := Posting(None, s.now)]),
         replicas := s.replicas[r := me.(stage := Claimed(Reminder, None))])
    case TakeDue(r) =>
      var me := s.replicas[r];
      var expenseId := if me.payment.autoPost then Some(book.nextId) else None;
      s.(book := book.(postings := book.postings[KeyOf(me, Due) := Posting(expenseId, s.now)],
                       nextId := if me.payment.autoPost then book.nextId + 1 else book.nextId),
         replicas := s.replicas[r := me.(stage := Claimed(Due, expenseId))])
    case LeaveClaimed(r) => s.(replicas := s.replicas - {r})
    case Notify(r, enabled) =>
      var me := s.replicas[r];
      var told := if enabled then book.(notices := book.notices + [Notice(me.payment.id, me.payment.nextDueAt, me.stage.kind)]) else book;
      s.(book := told,
         replicas := if me.stage.kind == Due then s.replicas[r := me.(stage := Notified(me.stage.expenseId))] else s.replicas - {r})
    case Post(r) =>
      var me := s.replicas[r];
      s.(book := book.(expenses := book.expenses + [Expense(me.stage.expenseId.value, me.payment.id, me.payment.amount, me.payment.nextDueAt)]),
         replicas := s.replicas[r := me.(stage := Written)])
    case Advance(r) =>
      var p := s.replicas[r].payment;
      var next := NextDueFor(p, p.nextDueAt);
      s.(book := book.(payments := Advanced(book.payments, p.id, next, p.nextDueAt, Finished(p, next))), replicas := s.replicas - {r})
    case PauseFinished(r) =>
      var p := s.replicas[r].payment;
      s.(book := book.(payments := Advanced(book.payments, p.id, p.nextDueAt, p.nextDueAt, true)), replicas := s.replicas - {r})
    case Crash(r) => s.(replicas := s.replicas - {r})
    case Edit(p) => s.(book := book.(payments := book.payments[p.id := p]))
    case Tick(later) => s.(now := later)
  }

  predicate AllEnabled(s: System, run: seq<Action>)
    decreases |run|
  {
    run == [] || (Enabled(s, run[0]) && AllEnabled(Step(s, run[0]), run[1..]))
  }

  function After(s: System, run: seq<Action>): System
    requires AllEnabled(s, run)
    decreases |run|
  {
    if run == [] then s else After(Step(s, run[0]), run[1..])
  }

  function Initial(now: Time): System { System(Book(map[], map[], [], [], 0), map[], now) }

  // ---- The invariant

  function ExpenseKey(e: Expense): PostingKey { PostingKey(e.paymentId, e.dueAt, Due) }

  function NoticeKey(n: Notice): PostingKey { PostingKey(n.paymentId, n.dueAt, n.kind) }

  /** The ledger row a replica has won and not yet let go of. */
  predicate Holds(s: System, r: nat, key: PostingKey) {
    r in s.replicas &&
    match s.replicas[r].stage
    case Listed => false
    case Claimed(kind, _) => key == KeyOf(s.replicas[r], kind)
    case Notified(_) | Written => key == KeyOf(s.replicas[r], Due)
  }

  /** Expense ids in the ledger are distinct, drawn already, and only on due rows. */
  ghost predicate LedgerOk(book: Book) {
    && (forall k :: k in book.postings && book.postings[k].expenseId.Some? ==> k.kind == Due && book.postings[k].expenseId.value < book.nextId)
    && (forall k, l :: k in book.postings && l in book.postings && k != l && book.postings[k].expenseId.Some?
          ==> book.postings[k].expenseId != book.postings[l].expenseId)
  }

  /** Each expense carries the id its ledger row recorded, and no row has two. */
  ghost predicate ExpensesOk(book: Book) {
    && (forall i :: 0 <= i < |book.expenses| ==>
          ExpenseKey(book.expenses[i]) in book.postings
          && book.postings[ExpenseKey(book.expenses[i])].expenseId == Some(book.expenses[i].id))
    && (forall i, j :: 0 <= i < j < |book.expenses| ==> ExpenseKey(book.expenses[i]) != ExpenseKey(book.expenses[j]))
  }

  /** Each notice is for a claimed row, and no row has two. */
  ghost predicate NoticesOk(book: Book) {
    && (forall i :: 0 <= i < |book.notices| ==> NoticeKey(book.notices[i]) in book.postings)
    && (forall i, j :: 0 <= i < j < |book.notices| ==> NoticeKey(book.notices[i]) != NoticeKey(book.notices[j]))
  }

  /** The right to notify and to post a row belongs to the one replica that won it, until it is used. */
  ghost predicate HolderOk(s: System, r: nat) {
    r in s.replicas &&
    var me := s.replicas[r];
    match me.stage
    case Listed => true
    case Claimed(kind, e) =>
      && KeyOf(me, kind) in s.book.postings && s.book.postings[KeyOf(me, kind)].expenseId == e
      && NoNotice(s.book, KeyOf(me, kind)) && (kind == Due ==> NoExpense(s.book, KeyOf(me, Due)))
    case Notified(e) =>
      KeyOf(me, Due) in s.book.postings && s.book.postings[KeyOf(me, Due)].expenseId == e && NoExpense(s.book, KeyOf(me, Due))
    case Written => KeyOf(me, Due) in s.book.postings && !NoExpense(s.book, KeyOf(me, Due))
  }

  ghost predicate NoNotice(book: Book, key: PostingKey) {
    forall i :: 0 <= i < |book.notices| ==> NoticeKey(book.notices[i]) != key
  }

  ghost predicate NoExpense(book: Book, key: PostingKey) {
    forall i :: 0 <= i < |book.expenses| ==> ExpenseKey(book.expenses[i]) != key
  }

  ghost predicate Invariant(s: System) {
    && LedgerOk(s.book) && ExpensesOk(s.book) && NoticesOk(s.book)
    && (forall r :: r in s.replicas ==> HolderOk(s, r))
    && (forall q, r, key :: q != r && Holds(s, q, key) ==> !Holds(s, r, key))
  }

  lemma StepKeepsLedger(s: System, action: Action)
    requires LedgerOk(s.book) && Enabled(s, action)
    ensures LedgerOk(Step(s, action).book)
  {
    hide CursorDue, InReminderWindow, NextDueFor, Finished, Advanced, Horizon;
  }

  lemma StepKeepsExpenses(s: System, action: Action)
    requires Invariant(s) && Enabled(s, action)
    ensures ExpensesOk(Step(s, action).book)
  {
    hide CursorDue, InReminderWindow, NextDueFor, Finished, Advanced, Horizon, NoticesOk, NoNotice, LedgerOk, Holds;
    var book, next := s.book, Step(s, action).book;
    if action.Post? {
      var me := s.replicas[action.replica];
      assert HolderOk(s, action.replica);
      assert next.expenses[|book.expenses|] == Expense(me.stage.expenseId.value, me.payment.id, me.payment.amount, me.payment.nextDueAt);
    } else {
      assert next.expenses == book.expenses;
      assert forall k :: k in book.postings ==> k in next.postings && next.postings[k] == book.postings[k];
    }
  }

  lemma StepKeepsNotices(s: System, action: Action)
    requires Invariant(s) && Enabled(s, action)
    ensures NoticesOk(Step(s, action).book)
  {
    hide CursorDue, InReminderWindow, NextDueFor, Finished, Advanced, Horizon, ExpensesOk, NoExpense, LedgerOk, Holds;
    var book, next := s.book, Step(s, action).book;
    assert forall k :: k in book.postings ==> k in next.postings;
    if action.Notify? && action.enabled {
      var me := s.replicas[action.replica];
      assert HolderOk(s, action.replica);
      assert next.notices[|book.notices|] == Notice(me.payment.id, me.payment.nextDueAt, me.stage.kind);
    } else {
      assert next.notices == book.notices;
    }
  }

  /** A step of one replica leaves every other holder's rights as they were. */
  lemma StepKeepsHolder(s: System, action: Action, q: nat)
    requires Invariant(s) && Enabled(s, action) && q in Step(s, action).replicas
    ensures HolderOk(Step(s, action), q)
  {
    hide CursorDue, InReminderWindow, NextDueFor, Finished, Advanced, Horizon, LedgerOk;
    assert q in s.replicas ==> HolderOk(s, q);
    if action.Notify? || action.Post? {
      HoldersKey(s, action.replica);
      if q in s.replicas { HoldersKey(s, q); }
    }
    if action.Post? && q in s.replicas {
      PostedKey(s, action.replica, KeyOf(s.replicas[q], Due));
    }
  }

  lemma HoldersKey(s: System, r: nat)
    requires r in s.replicas
    ensures s.replicas[r].stage.Claimed? ==> Holds(s, r, KeyOf(s.replicas[r], s.replicas[r].stage.kind))
    ensures s.replicas[r].stage.Notified? || s.replicas[r].stage.Written? ==> Holds(s, r, KeyOf(s.replicas[r], Due))
  {
  }

  /** A replica comes to hold a row only by claiming it, when nobody had. */
  lemma HeldBefore(s: System, action: Action, q: nat, key: PostingKey)
    requires Enabled(s, action) && Holds(Step(s, action), q, key)
    ensures Holds(s, q, key)
            || (key !in s.book.postings && (action == TakeReminder(q) || action == TakeDue(q)))
  {
    hide CursorDue, InReminderWindow, NextDueFor, Finished, Advanced, Horizon;
  }

  lemma StepKeepsExclusive(s: System, action: Action, q: nat, r: nat, key: PostingKey)
    requires Invariant(s) && Enabled(s, action)
    requires q != r && Holds(Step(s, action), q, key)
    ensures !Holds(Step(s, action), r, key)
  {
    hide Enabled, Step, LedgerOk, ExpensesOk, NoticesOk, Holds;
    if Holds(Step(s, action), r, key) {
      HeldBefore(s, action, q, key);
      HeldBefore(s, action, r, key);
      HeldIsClaimed(s, q, key);
      HeldIsClaimed(s, r, key);
    }
  }

  lemma HeldIsClaimed(s: System, r: nat, key: PostingKey)
    requires Invariant(s)
    ensures Holds(s, r, key) ==> key in s.book.postings
  {
    if r in s.replicas { assert HolderOk(s, r); }
  }

  lemma StepKeeps(s: System, action: Action)
    requires Invariant(s) && Enabled(s, action)
    ensures Invariant(Step(s, action))
  {
    hide Step, Enabled, HolderOk, Holds, LedgerOk, ExpensesOk, NoticesOk;
    var next := Step(s, action);
    StepKeepsLedger(s, action);
    StepKeepsExpenses(s, action);
    StepKeepsNotices(s, action);
    forall q | q in next.replicas ensures HolderOk(next, q) {
      StepKeepsHolder(s, action, q);
    }
    forall q, r, key | q != r && Holds(next, q, key) ensures !Holds(next, r, key) {
      StepKeepsExclusive(s, action, q, r, key);
    }
  }

  lemma {:induction false} RunKeeps(s: System, run: seq<Action>)
    requires Invariant(s) && AllEnabled(s, run)
    ensures Invariant(After(s, run))
    decreases |run|
  {
    hide Invariant, Enabled, Step;
    if run != [] {
      StepKeeps(s, run[0]);
      RunKeeps(Step(s, run[0]), run[1..]);
    }
  }

  /** Exactly one ledger row, a due one, records this expense id. */
  ghost predicate OnOneRow(book: Book, id: nat) {
    exists key :: key in book.postings && key.kind == Due && book.postings[key].expenseId == Some(id)
      && forall other :: other in book.postings && other != key ==> book.postings[other].expenseId != Some(id)
  }

  /**
   At most once, whatever the interleaving: no payment and due date ever has two
   auto-posted expenses or two notices of a kind, and every auto-posted expense
   is on exactly one due ledger row.
   */
  lemma AtMostOnce(start: Time, run: seq<Action>)
    requires AllEnabled(Initial(start), run)
    ensures var book := After(Initial(start), run).book;
            && (forall i, j :: 0 <= i < j < |book.expenses|
                  ==> (book.expenses[i].paymentId, book.expenses[i].dueAt) != (book.expenses[j].paymentId, book.expenses[j].dueAt))
            && (forall i, j :: 0 <= i < j < |book.notices| ==> book.notices[i] != book.notices[j])
            && (forall i :: 0 <= i < |book.expenses| ==> OnOneRow(book, book.expenses[i].id))
  {
    RunKeeps(Initial(start), run);
    var book := After(Initial(start), run).book;
    forall i | 0 <= i < |book.expenses| ensures OnOneRow(book, book.expenses[i].id) {
      var key := ExpenseKey(book.expenses[i]);
      assert key in book.postings && book.postings[key].expenseId == Some(book.expenses[i].id);
    }
    forall i, j | 0 <= i < j < |book.expenses|
      ensures (book.expenses[i].paymentId, book.expenses[i].dueAt) != (book.expenses[j].paymentId, book.expenses[j].dueAt)
    {
      assert ExpenseKey(book.expenses[i]) != ExpenseKey(book.expenses[j]);
    }
    forall i, j | 0 <= i < j < |book.notices| ensures book.notices[i] != book.notices[j] {
      assert NoticeKey(book.notices[i]) != NoticeKey(book.notices[j]);
    }
  }

  // ---- Why it is not exactly once

  /** The replica has won this due row for an auto-posted expense and not written the expense yet. */
  predicate Owes(s: System, r: nat, key: PostingKey) {
    && r in s.replicas && key == KeyOf(s.replicas[r], Due)
    && match s.replicas[r].stage
       case Claimed(kind, e) => kind == Due && e.Some?
       case Notified(e) => e.Some?
       case _ => false
  }

  /** A due row that names an expense which nobody is going to write any more. */
  ghost predicate Lost(s: System, key: PostingKey) {
    && key in s.book.postings && key.kind == Due && s.book.postings[key].expenseId.Some?
    && NoExpense(s.book, key)
    && forall r :: !Owes(s, r, key)
  }

  /** An occurrence once lost stays lost, whatever anybody does, edits of the payment included. */
  lemma LostStaysLost(s: System, action: Action, key: PostingKey)
    requires Invariant(s) && Enabled(s, action) && Lost(s, key)
    ensures Lost(Step(s, action), key)
  {
    hide CursorDue, InReminderWindow, NextDueFor, Finished, Advanced, Horizon, LedgerOk, ExpensesOk, NoticesOk, Holds, HolderOk;
    var next := Step(s, action);
    forall r ensures !Owes(next, r, key) {
      assert !Owes(s, r, key);
    }
    if action.Post? {
      assert !Owes(s, action.replica, key);
      PostedKey(s, action.replica, key);
    } else {
      assert next.book.expenses == s.book.expenses;
    }
  }

  /** Posting writes the expense of the row it owes, and of no other. */
  lemma PostedKey(s: System, r: nat, key: PostingKey)
    requires Enabled(s, Post(r))
    ensures Owes(s, r, KeyOf(s.replicas[r], Due))
    ensures NoExpense(Step(s, Post(r)).book, key) <==> NoExpense(s.book, key) && key != KeyOf(s.replicas[r], Due)
  {
    var before, after := s.book.expenses, Step(s, Post(r)).book.expenses;
    assert ExpenseKey(after[|before|]) == KeyOf(s.replicas[r], Due);
    forall i | 0 <= i < |before| ensures after[i] == before[i] {
    }
  }

  /** An occurrence is lost by exactly one kind of step: the crash of the replica that owes its expense. */
  lemma LostOnlyByCrash(s: System, action: Action, key: PostingKey)
    requires Invariant(s) && Enabled(s, action) && !Lost(s, key)
    ensures Lost(Step(s, action), key) <==> action.Crash? && Owes(s, action.replica, key)
  {
    hide CursorDue, InReminderWindow, NextDueFor, Finished, Advanced, Horizon, LedgerOk, ExpensesOk, NoticesOk, Holds;
    var next := Step(s, action);
    if action.Crash? && Owes(s, action.replica, key) {
      CrashLoses(s, action.replica, key);
    } else if Lost(next, key) {
      StillOwed(s, action, key);
    }
  }

  /** Who owes an expense holds the row, which names it and has no expense yet. */
  lemma OwedIsOpen(s: System, r: nat, key: PostingKey)
    requires Invariant(s) && Owes(s, r, key)
    ensures key in s.book.postings && key.kind == Due && s.book.postings[key].expenseId.Some? && NoExpense(s.book, key)
  {
    assert HolderOk(s, r);
  }

  lemma CrashLoses(s: System, r: nat, key: PostingKey)
    requires Invariant(s) && Owes(s, r, key)
    ensures Lost(Step(s, Crash(r)), key)
  {
    hide LedgerOk, ExpensesOk, NoticesOk, HolderOk, Holds;
    var next := Step(s, Crash(r));
    OwedIsOpen(s, r, key);
    assert r !in next.replicas;
    forall q | q in s.replicas && q != r ensures !Owes(s, q, key) {
      if Owes(s, q, key) {
        OneDebtor(s, r, q, key);
      }
    }
  }

  lemma OneDebtor(s: System, q: nat, r: nat, key: PostingKey)
    requires Invariant(s) && Owes(s, q, key) && Owes(s, r, key)
    ensures q == r
  {
    hide LedgerOk, ExpensesOk, NoticesOk, HolderOk;
    assert Holds(s, q, key) && Holds(s, r, key);
  }

  /** A due row that names an expense is owed by the replica that has just won it. */
  lemma NewRowIsOwed(s: System, action: Action, key: PostingKey)
    requires Enabled(s, action) && key !in s.book.postings
    requires var postings := Step(s, action).book.postings; key in postings && key.kind == Due && postings[key].expenseId.Some?
    ensures action.TakeDue? && Owes(Step(s, action), action.replica, key)
  {
    hide CursorDue, InReminderWindow, NextDueFor, Finished, Advanced, Horizon;
  }

  /** Unless its debtor crashes, an occurrence that is not lost is posted, owed or without an expense to write. */
  lemma StillOwed(s: System, action: Action, key: PostingKey)
    requires Invariant(s) && Enabled(s, action) && !Lost(s, key) && Lost(Step(s, action), key)
    ensures action.Crash? && Owes(s, action.replica, key)
  {
    hide CursorDue, InReminderWindow, NextDueFor, Finished, Advanced, Horizon, LedgerOk, ExpensesOk, NoticesOk, Holds, HolderOk;
    var next := Step(s, action);
    if action.Post? {
      PostedKey(s, action.replica, key);
    } else {
      assert next.book.expenses == s.book.expenses;
    }
    if key in s.book.postings {
      assert next.book.postings[key] == s.book.postings[key];
      var r :| Owes(s, r, key);
      assert !Owes(next, r, key);
    } else {
      NewRowIsOwed(s, action, key);
    }
  }

  /** Somewhere along the run the replica that owed the row's expense crashed. */
  predicate DebtorCrashed(s: System, run: seq<Action>, key: PostingKey)
    requires AllEnabled(s, run)
    decreases |run|
  {
    run != [] &&
    ((run[0].Crash? && Owes(s, run[0].replica, key)) || DebtorCrashed(Step(s, run[0]), run[1..], key))
  }

  /** Over any run an occurrence ends lost if and only if it was lost before or the replica that owed its expense crashed. */
  lemma {:induction false} LostIffDebtorCrashed(s: System, run: seq<Action>, key: PostingKey)
    requires Invariant(s) && AllEnabled(s, run)
    ensures Lost(After(s, run), key) <==> Lost(s, key) || DebtorCrashed(s, run, key)
    decreases |run|
  {
    hide Invariant, Enabled, Step, Lost, Owes;
    if run != [] {
      StepKeeps(s, run[0]);
      if Lost(s, key) {
        LostStaysLost(s, run[0], key);
      } else {
        LostOnlyByCrash(s, run[0], key);
      }
      LostIffDebtorCrashed(Step(s, run[0]), run[1..], key);
    }
  }

  /** From the start: exactly the occurrences whose debtor crashed between claim and expense are claimed and never posted. */
  lemma LostExactlyByCrash(start: Time, run: seq<Action>, key: PostingKey)
    requires AllEnabled(Initial(start), run)
    ensures Lost(After(Initial(start), run), key) <==> DebtorCrashed(Initial(start), run, key)
  {
    LostIffDebtorCrashed(Initial(start), run, key);
  }

  // ---- Notices are lost the same way

  /** The replica has won this row and not queued its notice yet. */
  predicate OwesNotice(s: System, r: nat, key: PostingKey) {
    r in s.replicas && s.replicas[r].stage.Claimed? && key == KeyOf(s.replicas[r], s.replicas[r].stage.kind)
  }

  /** A claimed row nobody was told of and nobody is going to be. */
  ghost predicate Silent(s: System, key: PostingKey) {
    key in s.book.postings && NoNotice(s.book, key) && forall r :: !OwesNotice(s, r, key)
  }

  /** The step ends a replica's claim on this row without a notice. */
  predicate DropsNotice(s: System, action: Action, key: PostingKey) {
    || (action.Crash? && OwesNotice(s, action.replica, key))
    || (action.Notify? && !action.enabled && OwesNotice(s, action.replica, key))
  }

  lemma OneNotifier(s: System, q: nat, r: nat, key: PostingKey)
    requires Invariant(s) && OwesNotice(s, q, key) && OwesNotice(s, r, key)
    ensures q == r
  {
    hide LedgerOk, ExpensesOk, NoticesOk, HolderOk;
    assert Holds(s, q, key) && Holds(s, r, key);
  }

  /** Notifying adds the notice of the row it is owed for, and of no other. */
  lemma NotifiedKey(s: System, r: nat, key: PostingKey)
    requires Enabled(s, Notify(r, true))
    ensures NoNotice(Step(s, Notify(r, true)).book, key) <==> NoNotice(s.book, key) && !OwesNotice(s, r, key)
  {
    var before, after := s.book.notices, Step(s, Notify(r, true)).book.notices;
    assert NoticeKey(after[|before|]) == KeyOf(s.replicas[r], s.replicas[r].stage.kind);
    forall i | 0 <= i < |before| ensures after[i] == before[i] {
    }
  }

  lemma SilentStaysSilent(s: System, action: Action, key: PostingKey)
    requires Invariant(s) && Enabled(s, action) && Silent(s, key)
    ensures Silent(Step(s, action), key)
  {
    hide CursorDue, InReminderWindow, NextDueFor, Finished, Advanced, Horizon, LedgerOk, ExpensesOk, NoticesOk, Holds, HolderOk;
    var next := Step(s, action);
    forall r ensures !OwesNotice(next, r, key) {
      assert !OwesNotice(s, r, key);
    }
    if action.Notify? && action.enabled {
      NotifiedKey(s, action.replica, key);
    } else {
      assert next.book.notices == s.book.notices;
    }
  }

  lemma DroppedIsSilent(s: System, action: Action, key: PostingKey)
    requires Invariant(s) && Enabled(s, action) && DropsNotice(s, action, key)
    ensures Silent(Step(s, action), key)
  {
    hide CursorDue, InReminderWindow, NextDueFor, Finished, Advanced, Horizon, LedgerOk, ExpensesOk, NoticesOk, Holds;
    var next := Step(s, action);
    assert HolderOk(s, action.replica);
    forall q | q in s.replicas && q != action.replica ensures !OwesNotice(s, q, key) {
      if OwesNotice(s, q, key) {
        OneNotifier(s, action.replica, q, key);
      }
    }
    assert next.book.notices == s.book.notices && next.book.postings == s.book.postings;
  }

  /** A row falls silent by exactly two kinds of step: its winner stops, or notifies while notices are off. */
  lemma SilentOnlyByDrop(s: System, action: Action, key: PostingKey)
    requires Invariant(s) && Enabled(s, action) && !Silent(s, key)
    ensures Silent(Step(s, action), key) <==> DropsNotice(s, action, key)
  {
    hide CursorDue, InReminderWindow, NextDueFor, Finished, Advanced, Horizon, LedgerOk, ExpensesOk, NoticesOk, Holds, HolderOk;
    var next := Step(s, action);
    if DropsNotice(s, action, key) {
      DroppedIsSilent(s, action, key);
    } else if key !in s.book.postings {
      if key in next.book.postings {
        NewRowOwesNotice(s, action, key);
      }
    } else if NoNotice(s.book, key) {
      var r :| OwesNotice(s, r, key);
      StillToNotify(s, action, key, r);
    } else {
      NoticesStay(s, action, key);
    }
  }

  /** Unless the step drops it, a notice that is owed is still owed afterwards or has been queued. */
  lemma StillToNotify(s: System, action: Action, key: PostingKey, r: nat)
    requires Enabled(s, action) && OwesNotice(s, r, key) && !DropsNotice(s, action, key)
    ensures OwesNotice(Step(s, action), r, key) || !NoNotice(Step(s, action).book, key)
  {
    hide CursorDue, InReminderWindow, NextDueFor, Finished, Advanced, Horizon;
    if action.Notify? && action.enabled {
      NotifiedKey(s, action.replica, key);
    }
  }

  lemma NoticesStay(s: System, action: Action, key: PostingKey)
    requires Enabled(s, action) && !NoNotice(s.book, key)
    ensures !NoNotice(Step(s, action).book, key)
  {
    hide CursorDue, InReminderWindow, NextDueFor, Finished, Advanced, Horizon;
    if action.Notify? && action.enabled {
      NotifiedKey(s, action.replica, key);
    } else {
      assert Step(s, action).book.notices == s.book.notices;
    }
  }

  lemma NewRowOwesNotice(s: System, action: Action, key: PostingKey)
    requires Enabled(s, action) && key !in s.book.postings && key in Step(s, action).book.postings
    ensures (action.TakeDue? || action.TakeReminder?) && OwesNotice(Step(s, action), action.replica, key)
  {
    hide CursorDue, InReminderWindow, NextDueFor, Finished, Advanced, Horizon;
  }

  /** Somewhere along the run the row's claim ended without a notice. */
  predicate NoticeDropped(s: System, run: seq<Action>, key: PostingKey)
    requires AllEnabled(s, run)
    decreases |run|
  {
    run != [] && (DropsNotice(s, run[0], key) || NoticeDropped(Step(s, run[0]), run[1..], key))
  }

  /** Over any run a row ends without its notice if and only if it was so before or its claim ended without one. */
  lemma {:induction false} SilentIffDropped(s: System, run: seq<Action>, key: PostingKey)
    requires Invariant(s) && AllEnabled(s, run)
    ensures Silent(After(s, run), key) <==> Silent(s, key) || NoticeDropped(s, run, key)
    decreases |run|
  {
    hide Invariant, Enabled, Step, Silent, DropsNotice;
    if run != [] {
      StepKeeps(s, run[0]);
      if Silent(s, key) {
        SilentStaysSilent(s, run[0], key);
      } else {
        SilentOnlyByDrop(s, run[0], key);
      }
      SilentIffDropped(Step(s, run[0]), run[1..], key);
    }
  }

  /** From the start: exactly the rows whose winner stopped before notifying, or notified while notices were off, stay without one. */
  lemma SilentExactlyByDrop(start: Time, run: seq<Action>, key: PostingKey)
    requires AllEnabled(Initial(start), run)
    ensures Silent(After(Initial(start), run), key) <==> NoticeDropped(Initial(start), run, key)
  {
    SilentIffDropped(Initial(start), run, key);
  }

  // ---- The cursor of an abandoned occurrence

  /** Every edit of the payment in the run creates it. */
  predicate CreatedOnly(s: System, run: seq<Action>, id: Id)
    requires AllEnabled(s, run)
    decreases |run|
  {
    run == [] || (Untouched(s, run[0], id) && CreatedOnly(Step(s, run[0]), run[1..], id))
  }

  predicate Untouched(s: System, action: Action, id: Id) {
    action.Edit? && action.payment.id == id ==> id !in s.book.payments
  }

  /** The replica works on this payment and has won the due row of its copy. */
  predicate IsPosting(r: Replica) {
    (r.stage.Claimed? && r.stage.kind == Due) || r.stage.Notified? || r.stage.Written?
  }

  /**
   A copy in flight agrees with a payment that is never edited: whoever is
   posting is at the cursor, and a copy left behind is of an occurrence claimed.
   */
  ghost predicate CopyOk(book: Book, r: Replica) {
    && r.payment.id in book.payments
    && var current := book.payments[r.payment.id];
    && PostingRuns.SameSchedule(r.payment, current)
    && (IsPosting(r) ==> r.payment.nextDueAt == current.nextDueAt && !Finished(r.payment, r.payment.nextDueAt))
    && (r.payment.nextDueAt != current.nextDueAt ==> KeyOf(r, Due) in book.postings && !Finished(r.payment, r.payment.nextDueAt))
  }

  /** Every expense of the payment is of its amount. */
  ghost predicate AmountsOk(book: Book, id: Id) {
    forall i :: 0 <= i < |book.expenses| && book.expenses[i].paymentId == id ==>
      id in book.payments && book.expenses[i].amount == book.payments[id].amount
  }

  ghost predicate Unedited(s: System, id: Id) {
    && AmountsOk(s.book, id)
    && (forall r :: r in s.replicas && s.replicas[r].payment.id == id ==> CopyOk(s.book, s.replicas[r]))
    && (forall other :: other in s.book.payments ==> s.book.payments[other].id == other)
  }

  lemma UneditedStep(s: System, action: Action, id: Id)
    requires Invariant(s) && Unedited(s, id) && Enabled(s, action) && Untouched(s, action, id)
    ensures Unedited(Step(s, action), id)
  {
    hide CursorDue, InReminderWindow, NextDueFor, Finished, Horizon, LedgerOk, ExpensesOk, NoticesOk, Holds, HolderOk, PostingRuns.SameSchedule, AmountsOk;
    var next := Step(s, action);
    StepKeepsAmounts(s, action, id);
    forall r | r in next.replicas && next.replicas[r].payment.id == id ensures CopyOk(next.book, next.replicas[r]) {
      if action.Advance? {
        AdvanceKeepsCopy(s, action.replica, r, id);
      } else {
        StepKeepsCopy(s, action, r, id);
      }
    }
  }

  /** Posting writes the amount of the copy, which is the payment's own as long as nobody edits it. */
  lemma StepKeepsAmounts(s: System, action: Action, id: Id)
    requires Unedited(s, id) && Enabled(s, action) && Untouched(s, action, id)
    ensures AmountsOk(Step(s, action).book, id)
  {
    hide CursorDue, InReminderWindow, NextDueFor, Finished, Horizon;
    var next := Step(s, action);
    if action.Post? {
      var me := s.replicas[action.replica];
      assert me.payment.id == id ==> CopyOk(s.book, me);
      assert next.book.expenses[|s.book.expenses|] == Expense(me.stage.expenseId.value, me.payment.id, me.payment.amount, me.payment.nextDueAt);
    } else {
      assert next.book.expenses == s.book.expenses;
    }
  }

  lemma StepKeepsCopy(s: System, action: Action, r: nat, id: Id)
    requires Unedited(s, id) && Enabled(s, action) && Untouched(s, action, id) && !action.Advance?
    requires r in Step(s, action).replicas && Step(s, action).replicas[r].payment.id == id
    ensures CopyOk(Step(s, action).book, Step(s, action).replicas[r])
  {
    hide InReminderWindow, NextDueFor, Finished, Horizon;
    assert r in s.replicas && s.replicas[r].payment.id == id ==> CopyOk(s.book, s.replicas[r]);
    if action.PauseFinished? && action.replica in s.replicas && s.replicas[action.replica].payment.id == id {
      assert CopyOk(s.book, s.replicas[action.replica]);
      if r != action.replica {
        FinishedBySchedule(s.replicas[r].payment, s.book.payments[id]);
      }
    }
  }

  lemma FinishedBySchedule(a: ScheduledPayment, b: ScheduledPayment)
    requires PostingRuns.SameSchedule(a, b)
    ensures forall t :: Finished(a, t) == Finished(b, t)
    ensures forall next, last, paused :: PostingRuns.SameSchedule(a, b.(nextDueAt := next, lastPostedAt := last, paused := paused))
  {
  }

  /** Moving the cursor leaves every other copy at an occurrence that is claimed. */
  lemma AdvanceKeepsCopy(s: System, q: nat, r: nat, id: Id)
    requires Invariant(s) && Unedited(s, id) && Enabled(s, Advance(q)) && r != q && r in s.replicas && s.replicas[r].payment.id == id
    ensures CopyOk(Step(s, Advance(q)).book, s.replicas[r])
  {
    hide NextDueFor, Finished, LedgerOk, ExpensesOk, NoticesOk, NoExpense, NoNotice;
    assert CopyOk(s.book, s.replicas[r]);
    if s.replicas[q].payment.id == id {
      var mine := s.replicas[q];
      assert CopyOk(s.book, mine) && HolderOk(s, q);
      FinishedBySchedule(s.replicas[r].payment, s.book.payments[id]);
      FinishedBySchedule(mine.payment, s.book.payments[id]);
      assert Holds(s, q, KeyOf(mine, Due)) && !Holds(s, r, KeyOf(mine, Due));
    }
  }

  lemma {:induction false} UneditedRun(s: System, run: seq<Action>, id: Id)
    requires Invariant(s) && Unedited(s, id) && AllEnabled(s, run) && CreatedOnly(s, run, id)
    ensures Invariant(After(s, run)) && Unedited(After(s, run), id)
    decreases |run|
  {
    hide Invariant, Unedited, Enabled, Step, Untouched;
    if run != [] {
      StepKeeps(s, run[0]);
      UneditedStep(s, run[0], id);
      UneditedRun(Step(s, run[0]), run[1..], id);
    }
  }

  // ---- The cursor of a payment never edited

  /** The payment is created, if at all, at its start date and with a frequency that is scheduled. */
  predicate StartsAtStart(action: Action, id: Id) {
    action.Edit? && action.payment.id == id ==> action.payment.nextDueAt == action.payment.startDate && action.payment.frequency != Unknown
  }

  /** The cursor is occurrence n, and the due rows are the occurrences before it, with or without the one at the cursor. */
  ghost predicate InStepAt(book: Book, id: Id, n: nat)
    requires id in book.payments
  {
    var p, rows := book.payments[id], PostingRuns.DueRows(book.postings, id);
    && p.frequency != Unknown && p.nextDueAt == Occurrence(p, n)
    && (rows == PostingRuns.OccurrencesBefore(p, n) || rows == PostingRuns.OccurrencesBefore(p, n + 1))
  }

  ghost predicate InStep(book: Book, id: Id) {
    if id in book.payments then exists n :: InStepAt(book, id, n) else PostingRuns.DueRows(book.postings, id) == {}
  }

  lemma StepKeepsInStep(s: System, action: Action, id: Id)
    requires Invariant(s) && Unedited(s, id) && InStep(s.book, id) && Enabled(s, action) && Untouched(s, action, id) && StartsAtStart(action, id)
    ensures InStep(Step(s, action).book, id)
  {
    hide CursorDue, InReminderWindow, Finished, Horizon, LedgerOk, ExpensesOk, NoticesOk, Holds, HolderOk, NextDueFor, Occurrence, InStepAt, CopyOk;
    var next := Step(s, action);
    if id !in s.book.payments {
      NewInStep(s, action, id);
    } else {
      var n: nat :| InStepAt(s.book, id, n);
      var m := StepMovesInStep(s, action, id, n);
    }
  }

  lemma NewInStep(s: System, action: Action, id: Id)
    requires Unedited(s, id) && id !in s.book.payments && InStep(s.book, id) && Enabled(s, action) && StartsAtStart(action, id)
    ensures InStep(Step(s, action).book, id)
  {
    hide CursorDue, InReminderWindow, Finished, Horizon, NextDueFor;
    var next := Step(s, action);
    forall r | r in s.replicas ensures s.replicas[r].payment.id != id {
      assert s.replicas[r].payment.id == id ==> CopyOk(s.book, s.replicas[r]);
    }
    assert PostingRuns.DueRows(next.book.postings, id) == {};
    if id in next.book.payments {
      assert PostingRuns.OccurrencesBefore(next.book.payments[id], 0) == {};
      assert InStepAt(next.book, id, 0);
    }
  }

  lemma StepMovesInStep(s: System, action: Action, id: Id, n: nat) returns (m: nat)
    requires Invariant(s) && Unedited(s, id) && Enabled(s, action) && Untouched(s, action, id)
    requires id in s.book.payments && InStepAt(s.book, id, n)
    ensures id in Step(s, action).book.payments && n <= m <= n + 1 && InStepAt(Step(s, action).book, id, m)
  {
    hide CursorDue, InReminderWindow, Finished, Horizon, LedgerOk, ExpensesOk, NoticesOk, NextDueFor, Occurrence, NoNotice, NoExpense, PostingRuns.OccurrencesBefore;
    var next := Step(s, action);
    var p := s.book.payments[id];
    m := n;
    if (action.Advance? || action.TakeDue? || action.PauseFinished?) && s.replicas[action.replica].payment.id == id {
      var me := s.replicas[action.replica];
      assert CopyOk(s.book, me) && HolderOk(s, action.replica);
      m := CursorWriteInStep(s, action, id, n);
    } else {
      assert next.book.payments[id] == p;
      DueRowsOfOthers(s, action, id);
    }
  }

  lemma DueRowsOfOthers(s: System, action: Action, id: Id)
    requires Enabled(s, action) && (action.TakeDue? ==> s.replicas[action.replica].payment.id != id)
    ensures PostingRuns.DueRows(Step(s, action).book.postings, id) == PostingRuns.DueRows(s.book.postings, id)
  {
    hide CursorDue, InReminderWindow, Finished, Horizon, NextDueFor;
    if action.TakeDue? || action.TakeReminder? {
      var me := s.replicas[action.replica];
      var kind := if action.TakeDue? then Due else Reminder;
      PostingRuns.RowsAfterClaim(s.book.postings, KeyOf(me, kind), Step(s, action).book.postings[KeyOf(me, kind)], id);
    }
  }

  lemma CursorWriteInStep(s: System, action: Action, id: Id, n: nat) returns (m: nat)
    requires Enabled(s, action) && (action.Advance? || action.TakeDue? || action.PauseFinished?)
    requires s.replicas[action.replica].payment.id == id && CopyOk(s.book, s.replicas[action.replica]) && HolderOk(s, action.replica)
    requires id in s.book.payments && InStepAt(s.book, id, n)
    ensures id in Step(s, action).book.payments && n <= m <= n + 1 && InStepAt(Step(s, action).book, id, m)
  {
    hide CursorDue, InReminderWindow, Horizon, Finished, NextDueFor, NoNotice, NoExpense, PostingRuns.OccurrencesBefore, PostingRuns.DueRows, Occurrence;
    var me, p, next := s.replicas[action.replica], s.book.payments[id], Step(s, action);
    var now := next.book.payments[id];
    PostingRuns.DueRowTaken(s.book.postings, id, p.nextDueAt);
    CursorRow(p, n);
    PostingRuns.OneMoreOccurrence(p, n);
    SameRows(now, p, n);
    m := n;
    if action.TakeDue? {
      PostingRuns.RowsAfterClaim(s.book.postings, KeyOf(me, Due), next.book.postings[KeyOf(me, Due)], id);
      assert KeyOf(me, Due) == PostingKey(id, p.nextDueAt, Due);
    } else if action.Advance? && !p.deleted {
      SameNext(me.payment, p, n);
      m := n + 1;
    }
  }

  lemma CursorRow(p: ScheduledPayment, n: nat)
    requires p.frequency != Unknown
    ensures Occurrence(p, n) !in PostingRuns.OccurrencesBefore(p, n)
  {
    hide NextDueFor, Occurrence;
    forall i: nat | i < n ensures Occurrence(p, i) != Occurrence(p, n) {
      OccurrencesIncrease(p, i, n);
    }
  }

  /** Occurrences depend on the schedule only, not on the cursor. */
  lemma SameRows(a: ScheduledPayment, b: ScheduledPayment, n: nat)
    ensures PostingRuns.SameSchedule(a, b) ==>
              && Occurrence(a, n) == Occurrence(b, n) && Occurrence(a, n + 1) == Occurrence(b, n + 1)
              && PostingRuns.OccurrencesBefore(a, n) == PostingRuns.OccurrencesBefore(b, n)
              && PostingRuns.OccurrencesBefore(a, n + 1) == PostingRuns.OccurrencesBefore(b, n + 1)
  {
    hide NextDueFor, Occurrence;
    if PostingRuns.SameSchedule(a, b) {
      forall i: nat ensures Occurrence(a, i) == Occurrence(b, i) {
        PostingRuns.SameOccurrences(a, b, i);
      }
    }
  }

  lemma SameNext(copy: ScheduledPayment, p: ScheduledPayment, n: nat)
    requires PostingRuns.SameSchedule(copy, p)
    ensures NextDueFor(copy, Occurrence(p, n)) == Occurrence(p, n + 1)
  {
    hide NextPaymentDue;
  }

  predicate AllStartAtStart(run: seq<Action>, id: Id) {
    forall i :: 0 <= i < |run| ==> StartsAtStart(run[i], id)
  }

  lemma {:induction false} InStepRun(s: System, run: seq<Action>, id: Id)
    requires Invariant(s) && Unedited(s, id) && InStep(s.book, id) && AllEnabled(s, run) && CreatedOnly(s, run, id) && AllStartAtStart(run, id)
    ensures Invariant(After(s, run)) && Unedited(After(s, run), id) && InStep(After(s, run).book, id)
    decreases |run|
  {
    hide Invariant, Unedited, InStep, Enabled, Step, Untouched, StartsAtStart;
    if run != [] {
      StepKeeps(s, run[0]);
      UneditedStep(s, run[0], id);
      StepKeepsInStep(s, run[0], id);
      InStepRun(Step(s, run[0]), run[1..], id);
    }
  }

  /**
   Whatever the replicas do and wherever they crash, a payment that is created
   at its start date and never edited has its cursor at an occurrence, due rows
   for exactly the occurrences before it and perhaps the one at it, and no
   expense of another amount.
   */
  lemma CursorFollowsOccurrences(start: Time, run: seq<Action>, id: Id)
    requires AllEnabled(Initial(start), run) && CreatedOnly(Initial(start), run, id) && AllStartAtStart(run, id)
    requires id in After(Initial(start), run).book.payments
    ensures var book := After(Initial(start), run).book;
            && (exists n: nat :: InStepAt(book, id, n) && n <= |PostingRuns.DueRows(book.postings, id)| <= n + 1)
            && AmountsOk(book, id)
  {
    hide AllEnabled, CreatedOnly, After, Invariant, InStepAt, CopyOk, Occurrence, AmountsOk;
    InitialIsOk(start, id);
    assert PostingRuns.DueRows(Initial(start).book.postings, id) == {};
    InStepRun(Initial(start), run, id);
    var book := After(Initial(start), run).book;
    var n: nat :| InStepAt(book, id, n);
    RowCount(book, id, n);
  }

  lemma RowCount(book: Book, id: Id, n: nat)
    requires id in book.payments && InStepAt(book, id, n)
    ensures n <= |PostingRuns.DueRows(book.postings, id)| <= n + 1
  {
    PostingRuns.CursorIndexIsRowCount(book.payments[id], n);
    PostingRuns.CursorIndexIsRowCount(book.payments[id], n + 1);
  }

  /** A ledger row is dated by the clock of the step that wins it. */
  lemma RowsAreDated(s: System, action: Action, key: PostingKey)
    requires Enabled(s, action) && key in Step(s, action).book.postings
    ensures if key in s.book.postings then Step(s, action).book.postings[key] == s.book.postings[key]
            else Step(s, action).book.postings[key].postedAt == s.now
  {
    hide CursorDue, InReminderWindow, Finished, Horizon, NextDueFor, Advanced;
  }

  /** The row at the payment's cursor is claimed and its winner is gone. */
  ghost predicate Stranded(s: System, id: Id, due: Time) {
    && id in s.book.payments && s.book.payments[id].nextDueAt == due
    && PostingKey(id, due, Due) in s.book.postings
    && forall r :: !Holds(s, r, PostingKey(id, due, Due))
  }

  lemma StrandedStep(s: System, id: Id, due: Time, action: Action)
    requires Invariant(s) && Unedited(s, id) && Stranded(s, id, due) && Enabled(s, action) && Untouched(s, action, id)
    ensures Stranded(Step(s, action), id, due)
  {
    hide CursorDue, InReminderWindow, NextDueFor, Finished, Horizon, LedgerOk, ExpensesOk, NoticesOk, HolderOk, PostingRuns.SameSchedule, Holds;
    var next, key := Step(s, action), PostingKey(id, due, Due);
    forall r ensures !Holds(next, r, key) {
      if Holds(next, r, key) {
        HeldBefore(s, action, r, key);
      }
    }
    if action.Advance? || action.PauseFinished? {
      StrandedCursor(s, id, due, action);
    }
  }

  /** The two steps that write a cursor leave a stranded one where it is. */
  lemma StrandedCursor(s: System, id: Id, due: Time, action: Action)
    requires Invariant(s) && Unedited(s, id) && Stranded(s, id, due) && Enabled(s, action) && (action.Advance? || action.PauseFinished?)
    ensures id in Step(s, action).book.payments && Step(s, action).book.payments[id].nextDueAt == due
  {
    hide InReminderWindow, NextDueFor, Finished, Horizon, LedgerOk, ExpensesOk, NoticesOk, NoExpense, NoNotice;
    var me := s.replicas[action.replica];
    if me.payment.id == id {
      assert CopyOk(s.book, me);
      assert !Holds(s, action.replica, PostingKey(id, due, Due));
    }
  }

  lemma {:induction false} StrandedRun(s: System, id: Id, due: Time, run: seq<Action>)
    requires Invariant(s) && Unedited(s, id) && Stranded(s, id, due) && AllEnabled(s, run) && CreatedOnly(s, run, id)
    ensures Stranded(After(s, run), id, due)
    decreases |run|
  {
    hide Invariant, Unedited, Stranded, Enabled, Step, Untouched;
    if run != [] {
      StepKeeps(s, run[0]);
      UneditedStep(s, run[0], id);
      StrandedStep(s, id, due, run[0]);
      StrandedRun(Step(s, run[0]), id, due, run[1..]);
    }
  }

  /** Nobody holds the row of a lost occurrence any more. */
  lemma LostIsUnheld(s: System, key: PostingKey, r: nat)
    requires Invariant(s) && Lost(s, key)
    ensures !Holds(s, r, key)
  {
    assert r in s.replicas ==> HolderOk(s, r);
    assert !Owes(s, r, key);
  }

  /**
   For a payment that is created and never edited, a lost occurrence at its
   cursor is the end: however the run goes on, no replica moves the cursor.
   */
  lemma LostCursorStays(start: Time, run: seq<Action>, later: seq<Action>, id: Id)
    requires AllEnabled(Initial(start), run) && CreatedOnly(Initial(start), run, id)
    requires var s := After(Initial(start), run);
             && id in s.book.payments && Lost(s, PostingKey(id, s.book.payments[id].nextDueAt, Due))
             && AllEnabled(s, later) && CreatedOnly(s, later, id)
    ensures var s := After(Initial(start), run);
            var end := After(s, later);
            && id in end.book.payments && end.book.payments[id].nextDueAt == s.book.payments[id].nextDueAt
            && Lost(end, PostingKey(id, s.book.payments[id].nextDueAt, Due))
  {
    hide AllEnabled, CreatedOnly, Lost, Holds, Invariant, Unedited, After;
    InitialIsOk(start, id);
    UneditedRun(Initial(start), run, id);
    var s := After(Initial(start), run);
    var due := s.book.payments[id].nextDueAt;
    forall r ensures !Holds(s, r, PostingKey(id, due, Due)) {
      LostIsUnheld(s, PostingKey(id, due, Due), r);
    }
    LostIsClaimed(s, PostingKey(id, due, Due));
    StrandedRun(s, id, due, later);
    LostIffDebtorCrashed(s, later, PostingKey(id, due, Due));
  }

  lemma InitialIsOk(start: Time, id: Id)
    ensures Invariant(Initial(start)) && Unedited(Initial(start), id)
  {
  }

  lemma LostIsClaimed(s: System, key: PostingKey)
    requires Lost(s, key)
    ensures key in s.book.postings
  {
  }

  lemma {:induction false} RunExtends(s: System, run: seq<Action>, action: Action)
    requires AllEnabled(s, run) && Enabled(After(s, run), action)
    ensures AllEnabled(s, run + [action]) && After(s, run + [action]) == Step(After(s, run), action)
    decreases |run|
  {
    hide Enabled, Step;
    var longer := run + [action];
    if run == [] {
      assert longer[1..] == [];
    } else {
      assert longer[1..] == run[1..] + [action];
      RunExtends(Step(s, run[0]), run[1..], action);
    }
  }

  // ---- A replica left alone runs the sequential turn

  /** A replica lists what a pass would ask for, and acts on its copy only in the reminder window, when due, or past the end. */
  lemma ReplicasActOnlyWhenDue(s: System, action: Action)
    requires Enabled(s, action)
    ensures action.List? ==> action.replica !in s.replicas && action.id in Wanted(s.book.payments, Horizon(s.now))
    ensures action.TakeReminder? ==>
              var p := s.replicas[action.replica].payment;
              1 <= p.reminderDays && p.nextDueAt - p.reminderDays * 86_400_000_000_000 <= s.now < p.nextDueAt
    ensures action.TakeDue? ==>
              var p := s.replicas[action.replica].payment;
              !p.paused && !p.deleted && p.nextDueAt <= s.now && (p.endDate.Some? ==> p.nextDueAt <= p.endDate.value)
    ensures action.PauseFinished? ==>
              var p := s.replicas[action.replica].payment;
              p.nextDueAt <= s.now && p.endDate.Some? && p.endDate.value < p.nextDueAt
    ensures action.Tick? ==> s.now <= action.later
  {
    hide InReminderWindow, Horizon;
    if action.TakeReminder? {
      ReminderWindowMeans(s.replicas[action.replica].payment, s.now);
    }
  }

  /** The books agree but for ids drawn and not used. */
  predicate SameBooks(a: Book, b: Book) {
    a.payments == b.payments && a.postings == b.postings && a.expenses == b.expenses && a.notices == b.notices
  }

  /** Undisturbed, the steps of one replica on one listed payment come to exactly that payment's turn in a sequential pass. */
  lemma AloneIsATurn(s: System, r: nat, id: Id) returns (run: seq<Action>)
    requires r !in s.replicas && id in Wanted(s.book.payments, Horizon(s.now)) && s.book.payments[id].id == id
    ensures AllEnabled(s, run) && After(s, run).replicas == s.replicas && After(s, run).now == s.now
    ensures SameBooks(After(s, run).book, RunOne(s.book, s.book.payments[id], s.now).0)
  {
    hide Horizon, InReminderWindow, Finished, NextDueFor, Advanced;
    var p, due := s.book.payments[id], PostingKey(id, s.book.payments[id].nextDueAt, Due);
    run := [];
    RunExtends(s, run, List(r, id)); run := run + [List(r, id)];
    if InReminderWindow(p, s.now) {
      run := RemindAlone(s, r, p, run);
    } else if s.now < p.nextDueAt {
      RunExtends(s, run, Crash(r)); run := run + [Crash(r)];
    } else if Finished(p, p.nextDueAt) {
      RunExtends(s, run, PauseFinished(r)); run := run + [PauseFinished(r)];
    } else if due in s.book.postings {
      RunExtends(s, run, LeaveClaimed(r)); run := run + [LeaveClaimed(r)];
    } else {
      run := PostAlone(s, r, p, run);
    }
    assert s.replicas[r := Replica(p, Listed)] - {r} == s.replicas;
  }

  lemma RemindAlone(s: System, r: nat, p: ScheduledPayment, listed: seq<Action>) returns (run: seq<Action>)
    requires AllEnabled(s, listed) && After(s, listed) == s.(replicas := s.replicas[r := Replica(p, Listed)]) && r !in s.replicas
    requires !p.paused && !p.deleted && InReminderWindow(p, s.now)
    ensures AllEnabled(s, run) && After(s, run).replicas == s.replicas && After(s, run).now == s.now
    ensures SameBooks(After(s, run).book, RunOne(s.book, p, s.now).0)
  {
    hide Horizon, InReminderWindow, Finished, NextDueFor, Advanced;
    run := listed;
    if KeyOf(Replica(p, Listed), Reminder) in s.book.postings {
      RunExtends(s, run, LeaveClaimed(r)); run := run + [LeaveClaimed(r)];
    } else {
      RunExtends(s, run, TakeReminder(r)); run := run + [TakeReminder(r)];
      RunExtends(s, run, Notify(r, true)); run := run + [Notify(r, true)];
    }
    assert After(s, run).replicas == s.replicas;
  }

  lemma PostAlone(s: System, r: nat, p: ScheduledPayment, listed: seq<Action>) returns (run: seq<Action>)
    requires AllEnabled(s, listed) && After(s, listed) == s.(replicas := s.replicas[r := Replica(p, Listed)]) && r !in s.replicas
    requires CursorDue(p, s.now) && !InReminderWindow(p, s.now) && PostingKey(p.id, p.nextDueAt, Due) !in s.book.postings
    ensures AllEnabled(s, run) && After(s, run).replicas == s.replicas && After(s, run).now == s.now
    ensures SameBooks(After(s, run).book, RunOne(s.book, p, s.now).0)
  {
    hide Horizon, InReminderWindow, Finished, NextDueFor, Advanced;
    run := listed;
    RunExtends(s, run, TakeDue(r)); run := run + [TakeDue(r)];
    RunExtends(s, run, Notify(r, true)); run := run + [Notify(r, true)];
    if p.autoPost {
      RunExtends(s, run, Post(r)); run := run + [Post(r)];
    }
    RunExtends(s, run, Advance(r)); run := run + [Advance(r)];
    assert After(s, run).replicas == s.replicas;
  }

  /** A replica lists the first schedule and stalls; the payment is edited; another replica claims the new due date and dies. */
  lemma EditedThenLost(p: ScheduledPayment, q: ScheduledPayment, now: Time) returns (run: seq<Action>)
    requires CursorDue(p, now) && CursorDue(q, now) && p.id == q.id && p.nextDueAt != q.nextDueAt && q.autoPost
    ensures AllEnabled(Initial(now), run)
    ensures var s := After(Initial(now), run);
            && s.book.payments == map[q.id := q] && s.replicas == map[0 := Replica(p, Listed)] && s.now == now
            && s.book.postings.Keys == {PostingKey(q.id, q.nextDueAt, Due)}
            && Lost(s, PostingKey(q.id, q.nextDueAt, Due))
  {
    hide NextDueFor, Finished, AddDate, InReminderWindow;
    AddDays(now, REMINDER_LEAD_DAYS);
    run := [];
    RunExtends(Initial(now), run, Edit(p)); run := run + [Edit(p)];
    RunExtends(Initial(now), run, List(0, p.id)); run := run + [List(0, p.id)];
    RunExtends(Initial(now), run, Edit(q)); run := run + [Edit(q)];
    assert After(Initial(now), run).book.payments == map[q.id := q];
    RunExtends(Initial(now), run, List(1, q.id)); run := run + [List(1, q.id)];
    RunExtends(Initial(now), run, TakeDue(1)); run := run + [TakeDue(1)];
    RunExtends(Initial(now), run, Crash(1)); run := run + [Crash(1)];
    assert After(Initial(now), run).replicas == map[0 := Replica(p, Listed)];
  }

  /** For a payment that is edited the cursor may yet move: a copy listed before the edit still posts its own date and advances. */
  lemma EditFreesTheCursor(p: ScheduledPayment, q: ScheduledPayment, now: Time)
    requires CursorDue(p, now) && CursorDue(q, now) && p.id == q.id && p.nextDueAt != q.nextDueAt
    requires p.autoPost && q.autoPost && NextDueFor(p, p.nextDueAt) != q.nextDueAt
    ensures exists run: seq<Action>, later: seq<Action> ::
              && AllEnabled(Initial(now), run)
              && var s := After(Initial(now), run);
              && Lost(s, PostingKey(q.id, q.nextDueAt, Due))
              && q.id in s.book.payments && s.book.payments[q.id].nextDueAt == q.nextDueAt
              && AllEnabled(s, later) && CreatedOnly(s, later, q.id)
              && q.id in After(s, later).book.payments && After(s, later).book.payments[q.id].nextDueAt != q.nextDueAt
  {
    hide NextDueFor, Finished, AddDate, InReminderWindow, Lost;
    var run := EditedThenLost(p, q, now);
    var s := After(Initial(now), run);
    var later := [];
    RunExtends(s, later, TakeDue(0)); later := later + [TakeDue(0)];
    RunExtends(s, later, Notify(0, true)); later := later + [Notify(0, true)];
    RunExtends(s, later, Post(0)); later := later + [Post(0)];
    RunExtends(s, later, Advance(0)); later := later + [Advance(0)];
    NoEditsNeeded(s, later, q.id);
  }

  lemma {:induction false} NoEditsNeeded(s: System, run: seq<Action>, id: Id)
    requires AllEnabled(s, run) && forall i :: 0 <= i < |run| ==> !run[i].Edit?
    ensures CreatedOnly(s, run, id)
    decreases |run|
  {
    hide Enabled, Step;
    if run != [] {
      NoEditsNeeded(Step(s, run[0]), run[1..], id);
    }
  }

  /** Losing an occurrence takes four steps: create, list, claim, crash. */
  lemma ClaimThenCrashStrands(p: ScheduledPayment, now: Time)
    requires CursorDue(p, now)
    ensures exists run: seq<Action> ::
              && AllEnabled(Initial(now), run) && CreatedOnly(Initial(now), run, p.id)
              && Stranded(After(Initial(now), run), p.id, p.nextDueAt)
              && (p.autoPost ==> Lost(After(Initial(now), run), PostingKey(p.id, p.nextDueAt, Due)))
  {
    hide NextDueFor, Finished, MonthOfDay, MonthStart;
    var run := [Edit(p), List(0, p.id), TakeDue(0), Crash(0)];
    var s0 := Initial(now);
    AddDays(now, REMINDER_LEAD_DAYS);
    var s1 := Step(s0, run[0]);
    assert Enabled(s1, run[1]);
    var s2 := Step(s1, run[1]);
    assert Enabled(s2, run[2]);
    var s3 := Step(s2, run[2]);
    var s4 := Step(s3, run[3]);
    assert run[1..] == [List(0, p.id), TakeDue(0), Crash(0)] && run[1..][1..] == [TakeDue(0), Crash(0)];
    assert run[1..][1..][1..] == [Crash(0)] && [Crash(0)][1..] == [];
    assert AllEnabled(s3, [Crash(0)]) && After(s3, [Crash(0)]) == s4;
    assert AllEnabled(s2, run[1..][1..]) && After(s2, run[1..][1..]) == s4;
    assert AllEnabled(s1, run[1..]) && After(s1, run[1..]) == s4;
    assert AllEnabled(s0, run) && After(s0, run) == s4;
    assert CreatedOnly(s3, [Crash(0)], p.id) && CreatedOnly(s2, run[1..][1..], p.id) && CreatedOnly(s1, run[1..], p.id);
    assert Stranded(s4, p.id, p.nextDueAt);
  }
}
