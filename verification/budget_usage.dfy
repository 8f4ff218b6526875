/** The budget-usage projection over its in-memory repository, loop by loop. */
module BudgetUsage {
  import opened Calendar
  import opened Domain
  import opened Periods
  import opened Queue
  import opened Spending
  import opened Sums

  class BudgetUsageRepository {
    var budgets: map<Id, Budget>
    var contributions: map<Id, Contribution>
    var usage: map<(Id, Time), Usage>

    ghost function Model(): State
      reads this
    {
      State(budgets, contributions, usage)
    }

    constructor ()
      ensures Model() == State(map[], map[], map[])
    {
      budgets, contributions, usage := map[], map[], map[];
    }

    method LoadContribution(id: Id) returns (found: Option<Contribution>)
      ensures found == if id in contributions then Some(contributions[id]) else None
    {
      found := if id in contributions then Some(contributions[id]) else None;
    }

    method SaveContribution(c: Contribution)
      modifies this`contributions
      ensures contributions == old(contributions)[c.expenseId := c]
    {
      contributions := contributions[c.expenseId := c];
    }

    /** The live budgets of one owner and category, in no particular order, each once. */
    method ListBudgetsForCategory(owner: Id, category: Id) returns (matching: seq<Budget>)
      requires forall id :: id in budgets ==> budgets[id].id == id
      ensures forall b :: b in matching <==>
                && owner != "" && category != ""
                && Live(budgets, b.id) && b == budgets[b.id] && b.owner == owner && b.category == category
      ensures forall i, j :: 0 <= i < j < |matching| ==> matching[i].id != matching[j].id
    {
      matching := [];
      if owner == "" || category == "" {
        return;
      }
      var left := budgets.Keys;
      while left != {}
        invariant left <= budgets.Keys
        invariant forall b :: b in matching <==>
                    b.id !in left && Live(budgets, b.id) && b == budgets[b.id] && b.owner == owner && b.category == category
        invariant forall i, j :: 0 <= i < j < |matching| ==> matching[i].id != matching[j].id
        decreases left
      {
        var id :| id in left;
        left := left - {id};
        var budget := budgets[id];
        if !budget.deleted && budget.owner == owner && budget.category == category {
          matching := matching + [budget];
        }
      }
    }

    method GetBudget(id: Id) returns (found: Option<Budget>)
      ensures found == if Live(budgets, id) then Some(budgets[id]) else None
    {
      found := if id !in budgets || budgets[id].deleted then None else Some(budgets[id]);
    }

    /** Totals the active contributions of a half-open window, visiting the map in any order. */
    method SumContributions(owner: Id, category: Id, from: Time, to: Time) returns (total: int)
      ensures total == SpendIn(contributions, owner, category, from, to)
    {
      total := 0;
      var left := contributions.Keys;
      while left != {}
        invariant left <= contributions.Keys
        invariant total + Sum(left, Spends(contributions, owner, category, from, to)) == SpendIn(contributions, owner, category, from, to)
        decreases left
      {
        var id :| id in left;
        SumPick(left, Spends(contributions, owner, category, from, to), id);
        left := left - {id};
        var c := contributions[id];
        if !c.active || c.owner != owner || c.category != category {
          continue;
        }
        if c.occurredAt < from || !(c.occurredAt < to) {
          continue;
        }
        total := total + c.amount;
      }
    }

    method LoadUsage(id: Id, start: Time) returns (row: Usage)
      ensures row == if (id, start) in usage then usage[(id, start)] else Usage(id, start, 0, 0, 0)
    {
      row := if (id, start) in usage then usage[(id, start)] else Usage(id, start, 0, 0, 0);
    }

    method SaveUsage(row: Usage)
      modifies this`usage
      ensures usage == old(usage)[(row.budgetId, row.periodStart) := row]
    {
      usage := usage[(row.budgetId, row.periodStart) := row];
    }

    method DeleteUsage(id: Id)
      modifies this`usage
      ensures usage == WithoutRows(old(usage), id)
    {
      var left := usage.Keys;
      ghost var before := usage;
      while left != {}
        invariant left <= before.Keys
        invariant usage == map key | key in before && (key in left || key.0 != id) :: before[key]
        decreases left
      {
        var key :| key in left;
        left := left - {key};
        if key.0 == id {
          usage := usage - {key};
        }
      }
    }

    method Snapshot() returns (saved: State)
      ensures saved == Model()
    {
      saved := State(budgets, contributions, usage);
    }

    /** Restores the projection's own state; the budget store restores its part itself. */
    method Restore(saved: State)
      modifies this`contributions, this`usage
      ensures contributions == saved.contributions && usage == saved.usage
    {
      contributions, usage := saved.contributions, saved.usage;
    }
  }

  class BudgetUsageProjection {
    const repository: BudgetUsageRepository
    /** Queued alert emails, in order. */
    var queued: seq<Alert>

    constructor (repository: BudgetUsageRepository)
      ensures this.repository == repository && queued == []
    {
      this.repository := repository;
      queued := [];
    }

    /**
     Collects every budget window the change touches: those of the previous
     contribution and those of the next one, each window once.
     */
    method AffectedWindows(previous: Option<Contribution>, next: Contribution) returns (windows: seq<Window>)
      requires forall id :: id in repository.budgets ==> repository.budgets[id].id == id
      ensures AreAffected(windows, repository.budgets, if previous.Some? then {previous.value, next} else {next})
    {
      var scopes: map<(Id, Id), seq<Time>> := map[];
      ghost var changed := {};
      if previous.Some? {
        scopes := AddToScopes(scopes, previous.value, changed);
        changed := changed + {previous.value};
      }
      scopes := AddToScopes(scopes, next, changed);
      changed := changed + {next};

      windows := [];
      var seen: set<(Id, Time)> := {};
      var left := scopes.Keys;
      while left != {}
        invariant left <= scopes.Keys
        invariant Collected(windows, seen, repository.budgets, changed)
        invariant forall id, c :: c in changed && Wants(repository.budgets, id, c) && (c.owner, c.category) !in left
                    ==> WindowAt(repository.budgets[id], c.occurredAt) in windows
        decreases left
      {
        var key :| key in left;
        left := left - {key};
        windows, seen := AddScope(key, scopes[key], windows, seen, changed);
      }
    }

    /** Files a contribution's time under its owner and category, unless it has no place. */
    method AddToScopes(scopes: map<(Id, Id), seq<Time>>, c: Contribution, ghost changed: set<Contribution>)
      returns (more: map<(Id, Id), seq<Time>>)
      requires ScopesOk(scopes, changed)
      ensures ScopesOk(more, changed + {c})
    {
      more := scopes;
      if c.owner == "" || c.category == "" || c.occurredAt == 0 {
        return;
      }
      var key := (c.owner, c.category);
      more := more[key := (if key in more then more[key] else []) + [c.occurredAt]];
    }

    /** Adds the windows of one scope's budgets at each of the scope's times, skipping those already seen. */
    method AddScope(key: (Id, Id), times: seq<Time>, before: seq<Window>, seenBefore: set<(Id, Time)>, ghost changed: set<Contribution>)
      returns (windows: seq<Window>, seen: set<(Id, Time)>)
      requires forall id :: id in repository.budgets ==> repository.budgets[id].id == id
      requires forall at :: at in times <==> exists c :: c in changed && Placeable(c) && (c.owner, c.category) == key && c.occurredAt == at
      requires Collected(before, seenBefore, repository.budgets, changed)
      ensures Collected(windows, seen, repository.budgets, changed)
      ensures forall w :: w in before ==> w in windows
      ensures forall id, c :: c in changed && Wants(repository.budgets, id, c) && (c.owner, c.category) == key
                ==> WindowAt(repository.budgets[id], c.occurredAt) in windows
    {
      hide Collected, WindowAt;
      windows, seen := before, seenBefore;
      var budgets := repository.ListBudgetsForCategory(key.0, key.1);
      for i := 0 to |budgets|
        invariant Collected(windows, seen, repository.budgets, changed)
        invariant forall w :: w in before ==> w in windows
        invariant forall b, at :: b in budgets[..i] && at in times ==> WindowAt(b, at) in windows
      {
        var budget := budgets[i];
        assert budget in budgets;
        for j := 0 to |times|
          invariant Collected(windows, seen, repository.budgets, changed)
          invariant forall w :: w in before ==> w in windows
          invariant forall b, at :: b in budgets[..i] && at in times ==> WindowAt(b, at) in windows
          invariant forall at :: at in times[..j] ==> WindowAt(budget, at) in windows
        {
          var at := times[j];
          assert at in times;
          ScopeTouches(repository.budgets, budget, key, at, changed);
          windows, seen := AddWindow(budget, at, windows, seen, changed);
        }
      }
      forall id, c | c in changed && Wants(repository.budgets, id, c) && (c.owner, c.category) == key
        ensures WindowAt(repository.budgets[id], c.occurredAt) in windows
      {
        assert repository.budgets[id] in budgets && c.occurredAt in times;
      }
    }

    method AddWindow(budget: Budget, at: Time, before: seq<Window>, seenBefore: set<(Id, Time)>, ghost changed: set<Contribution>)
      returns (windows: seq<Window>, seen: set<(Id, Time)>)
      requires Collected(before, seenBefore, repository.budgets, changed)
      requires exists c :: c in changed && c.occurredAt == at && TouchedBy(repository.budgets, WindowAt(budget, at), c)
      ensures Collected(windows, seen, repository.budgets, changed)
      ensures forall w :: w in before ==> w in windows
      ensures WindowAt(budget, at) in windows
    {
      hide BudgetWindow;
      windows, seen := before, seenBefore;
      var (start, end) := BudgetWindow(budget, at);
      var identity := (budget.id, start);
      if identity in seen {
        var w :| w in before && identity == (w.budget.id, w.start);
        SameIdentitySameWindow(repository.budgets, w, changed, WindowAt(budget, at));
        return;
      }
      seen := seen + {identity};
      windows := windows + [Window(budget, start, end)];
    }

    /** Recomputes each window from the contributions, stores the row and queues the alerts it raises. */
    method Recompute(windows: seq<Window>, replay: bool, now: Time)
      modifies this, repository`usage
      ensures repository.usage == RecomputedAll(old(repository.usage), repository.contributions, windows, now)
      ensures queued == old(queued) + if replay then [] else RaisedAll(old(repository.usage), repository.contributions, windows, now)
    {
      hide SpendIn;
      ghost var before := repository.usage;
      for i := 0 to |windows|
        invariant repository.usage == RecomputedAll(before, repository.contributions, windows[..i], now)
        invariant queued == old(queued) + if replay then [] else RaisedAll(before, repository.contributions, windows[..i], now)
      {
        assert windows[..i + 1][..i] == windows[..i];
        var window := windows[i];
        var spent := repository.SumContributions(window.budget.owner, window.budget.category, window.start, window.end);
        var stored := repository.LoadUsage(window.budget.id, window.start);
        stored := stored.(periodStart := window.start);
        var crossed := Crosses(window.budget, stored.alerted, spent);
        stored := stored.(spent := spent, alerted := AlertedFor(window.budget, stored.alerted, spent), updatedAt := now);
        repository.SaveUsage(stored);
        if !crossed || replay {
          continue;
        }
        queued := queued + [AlertFor(window, spent)];
      }
      assert windows[..|windows|] == windows;
    }

    /**
     Mirrors the expense into the budgets context, then recomputes the windows
     it moved between. The replay flag silences alerts and changes nothing else.
     */
    method HandleExpense(event: Contribution, replay: bool, now: Time) returns (ghost windows: seq<Window>)
      requires forall id :: id in repository.budgets ==> repository.budgets[id].id == id
      requires forall id :: id in repository.contributions ==> repository.contributions[id].expenseId == id
      modifies this, repository`contributions, repository`usage
      ensures ExpenseStep(old(repository.Model()), event, windows, now, repository.Model())
      ensures queued == old(queued) + if replay then [] else RaisedAll(old(repository.usage), repository.contributions, windows, now)
    {
      hide RecomputedAll, AreAffected;
      var previous := repository.LoadContribution(event.expenseId);
      var next := event;
      if !next.active {
        if previous.None? {
          windows := [];
          return;
        }
        next := previous.value.(active := false);
      }
      repository.SaveContribution(next);
      var affected := AffectedWindows(previous, next);
      windows := affected;
      Recompute(affected, replay, now);
    }

    /** Recomputes a budget's current window, or drops the rows of a budget that is gone. */
    method HandleBudget(id: Id, removed: bool, replay: bool, now: Time)
      modifies this, repository`usage
      ensures Next(old(repository.Model()), BudgetEvent(id, removed, now), repository.Model())
      ensures queued == old(queued) +
                if replay || removed || !Live(repository.budgets, id) then []
                else RaisedAll(old(repository.usage), repository.contributions, [WindowAt(repository.budgets[id], now)], now)
    {
      if removed {
        repository.DeleteUsage(id);
        return;
      }
      var current := repository.GetBudget(id);
      if current.None? {
        repository.DeleteUsage(id);
        return;
      }
      var (start, end) := BudgetWindow(current.value, now);
      Recompute([Window(current.value, start, end)], replay, now);
    }
  }

  /** Each scope lists exactly the times of the placeable contributions filed under it. */
  ghost predicate ScopesOk(scopes: map<(Id, Id), seq<Time>>, changed: set<Contribution>) {
    && (forall c :: c in changed && Placeable(c) ==> (c.owner, c.category) in scopes && c.occurredAt in scopes[(c.owner, c.category)])
    && (forall key, at :: key in scopes && at in scopes[key]
          ==> exists c :: c in changed && Placeable(c) && (c.owner, c.category) == key && c.occurredAt == at)
  }

  /** The windows gathered so far are all wanted, and `seen` holds exactly their identities. */
  ghost predicate Collected(windows: seq<Window>, seen: set<(Id, Time)>, budgets: map<Id, Budget>, changed: set<Contribution>) {
    && (forall w :: w in windows ==> exists c :: c in changed && TouchedBy(budgets, w, c))
    && (forall key :: key in seen <==> exists w :: w in windows && key == (w.budget.id, w.start))
    && (forall i, j :: 0 <= i < j < |windows|
          ==> (windows[i].budget.id, windows[i].start) != (windows[j].budget.id, windows[j].start))
  }

  lemma ScopeTouches(budgets: map<Id, Budget>, budget: Budget, key: (Id, Id), at: Time, changed: set<Contribution>)
    requires Live(budgets, budget.id) && budget == budgets[budget.id] && (budget.owner, budget.category) == key
    requires exists c :: c in changed && Placeable(c) && (c.owner, c.category) == key && c.occurredAt == at
    ensures exists c :: c in changed && c.occurredAt == at && TouchedBy(budgets, WindowAt(budget, at), c)
  {
    hide BudgetWindow;
    var c :| c in changed && Placeable(c) && (c.owner, c.category) == key && c.occurredAt == at;
    assert TouchedBy(budgets, WindowAt(budget, at), c);
  }

  /** A budget and a start name one window, so skipping a seen identity loses nothing. */
  lemma SameIdentitySameWindow(budgets: map<Id, Budget>, w: Window, changed: set<Contribution>, other: Window)
    requires exists c :: c in changed && TouchedBy(budgets, w, c)
    requires exists c :: c in changed && TouchedBy(budgets, other, c)
    requires (w.budget.id, w.start) == (other.budget.id, other.start)
    ensures w == other
  {
    hide BudgetWindow;
    var c :| c in changed && TouchedBy(budgets, w, c);
    var d :| d in changed && TouchedBy(budgets, other, d);
    EndFollowsStart(w.budget, c.occurredAt);
    EndFollowsStart(other.budget, d.occurredAt);
  }
}
