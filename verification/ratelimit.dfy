/** The fixed-window limiter with eviction, and what it admits over whole call traces. */
module RateLimit {
  import opened Calendar

  const EVICT_AFTER_CALLS := 1000

  datatype Entry = Entry(started: Time, count: int)

  datatype Call = Call(key: string, now: Time)

  // ---- The limiter without eviction

  /** No window is open for the key: never started, or an interval has passed. */
  predicate Closed(entries: map<string, Entry>, key: string, now: Time, interval: int) {
    key !in entries || entries[key].started == 0 || interval <= now - entries[key].started
  }

  /** One call answered from the entries alone. */
  function Answer(entries: map<string, Entry>, limit: int, interval: int, call: Call): (bool, map<string, Entry>) {
    if Closed(entries, call.key, call.now, interval) then (true, entries[call.key := Entry(call.now, 1)])
    else if limit <= entries[call.key].count then (false, entries)
    else (true, entries[call.key := entries[call.key].(count := entries[call.key].count + 1)])
  }

  function EntriesAfter(limit: int, interval: int, calls: seq<Call>): map<string, Entry> {
    if calls == [] then map[]
    else Answer(EntriesAfter(limit, interval, calls[..|calls| - 1]), limit, interval, calls[|calls| - 1]).1
  }

  /** Whether call i of a trace is admitted by a limiter that never evicts. */
  function Admitted(limit: int, interval: int, calls: seq<Call>, i: nat): bool
    requires i < |calls|
  {
    Answer(EntriesAfter(limit, interval, calls[..i]), limit, interval, calls[i]).0
  }

  /** Call i opens a new window for its key. */
  predicate Opens(limit: int, interval: int, calls: seq<Call>, i: nat)
    requires i < |calls|
  {
    Closed(EntriesAfter(limit, interval, calls[..i]), calls[i].key, calls[i].now, interval)
  }

  // ---- The limiter with eviction

  function Evicted(entries: map<string, Entry>, now: Time, interval: int): map<string, Entry> {
    map key | key in entries && now - entries[key].started < interval :: entries[key]
  }

  class FixedWindow {
    const limit: int
    const interval: int
    var entries: map<string, Entry>
    var calls: nat
    /** Every call answered so far; the clock has not gone back. */
    ghost var trace: seq<Call>

    ghost predicate Valid()
      reads this
    {
      && Monotone(trace)
      && SameOpenWindows(entries, EntriesAfter(limit, interval, trace), interval, if trace == [] then 0 else trace[|trace| - 1].now)
    }

    constructor (limit: int, interval: int)
      ensures Valid() && trace == [] && this.limit == limit && this.interval == interval
    {
      this.limit, this.interval := limit, interval;
      entries, calls, trace := map[], 0, [];
    }

    /** Answers one call exactly as a limiter that never evicts would, whatever the sweep has dropped. */
    method Allow(key: string, now: Time) returns (allowed: bool)
      requires Valid() && 0 < now
      requires trace != [] ==> trace[|trace| - 1].now <= now
      modifies this
      ensures Valid() && trace == old(trace) + [Call(key, now)]
      ensures allowed == Admitted(limit, interval, trace, |old(trace)|)
    {
      hide Answer, EntriesAfter, SameOpenWindows, Evicted, Monotone, Admitted;
      ghost var before, full := trace, EntriesAfter(limit, interval, trace);
      calls := calls + 1;
      SweepKeepsOpenWindows(entries, full, interval, if trace == [] then 0 else trace[|trace| - 1].now, now);
      if calls % EVICT_AFTER_CALLS == 0 {
        EvictExpired(now);
      }
      AnswersAgree(entries, full, limit, interval, Call(key, now));
      allowed := Decide(key, now);
      trace := trace + [Call(key, now)];
      TraceGrows(limit, interval, before, Call(key, now));
    }

    /** Opens a window, fills the open one, or refuses. */
    method Decide(key: string, now: Time) returns (allowed: bool)
      modifies this`entries
      ensures (allowed, entries) == Answer(old(entries), limit, interval, Call(key, now))
    {
      var value := if key in entries then entries[key] else Entry(0, 0);
      if value.started == 0 || now - value.started >= interval {
        entries := entries[key := Entry(now, 1)];
        return true;
      }
      if value.count >= limit {
        return false;
      }
      entries := entries[key := value.(count := value.count + 1)];
      return true;
    }

    /** Drops every entry whose window has closed, one key at a time. */
    method EvictExpired(now: Time)
      modifies this`entries
      ensures entries == Evicted(old(entries), now, interval)
    {
      ghost var before := entries;
      var left := entries.Keys;
      while left != {}
        invariant left <= before.Keys
        invariant entries == map key | key in before && (key in left || now - before[key].started < interval) :: before[key]
        decreases left
      {
        var key :| key in left;
        left := left - {key};
        if now - entries[key].started >= interval {
          entries := entries - {key};
        }
      }
    }
  }

  /** Two tables that agree on every window still open at `now`, and so at any later time. */
  ghost predicate SameOpenWindows(kept: map<string, Entry>, full: map<string, Entry>, interval: int, now: Time) {
    && (forall key :: key in full && full[key].started != 0 && now - full[key].started < interval
          ==> key in kept && kept[key] == full[key])
    && (forall key :: key in kept ==> key in full && (kept[key] == full[key]))
  }

  /** Sweeping or not, and later in time, the open windows are still agreed on. */
  lemma SweepKeepsOpenWindows(kept: map<string, Entry>, full: map<string, Entry>, interval: int, now: Time, later: Time)
    requires SameOpenWindows(kept, full, interval, now) && now <= later
    ensures SameOpenWindows(kept, full, interval, later)
    ensures SameOpenWindows(Evicted(kept, later, interval), full, interval, later)
  {
  }

  /** The sweep forgets exactly the windows that have closed. */
  lemma SweepKeepsExactlyTheOpen(entries: map<string, Entry>, now: Time, interval: int, key: string)
    requires key in entries && entries[key].started != 0
    ensures key in Evicted(entries, now, interval) <==> !Closed(entries, key, now, interval)
    ensures key in Evicted(entries, now, interval) ==> Evicted(entries, now, interval)[key] == entries[key]
  {
  }

  lemma TraceGrows(limit: int, interval: int, calls: seq<Call>, call: Call)
    ensures EntriesAfter(limit, interval, calls + [call]) == Answer(EntriesAfter(limit, interval, calls), limit, interval, call).1
    ensures Admitted(limit, interval, calls + [call], |calls|) == Answer(EntriesAfter(limit, interval, calls), limit, interval, call).0
    ensures Monotone(calls) && 0 < call.now && (calls != [] ==> calls[|calls| - 1].now <= call.now) ==> Monotone(calls + [call])
  {
    assert (calls + [call])[..|calls|] == calls;
  }

  /** Tables that agree on the open windows answer alike and still agree afterwards. */
  lemma AnswersAgree(kept: map<string, Entry>, full: map<string, Entry>, limit: int, interval: int, call: Call)
    requires SameOpenWindows(kept, full, interval, call.now)
    ensures Answer(kept, limit, interval, call).0 == Answer(full, limit, interval, call).0
    ensures SameOpenWindows(Answer(kept, limit, interval, call).1, Answer(full, limit, interval, call).1, interval, call.now)
  {
  }

  // ---- What a trace admits

  function Capacity(limit: int): int { if limit < 1 then 1 else limit }

  ghost predicate Monotone(calls: seq<Call>) {
    && (forall i, j :: 0 <= i < j < |calls| ==> calls[i].now <= calls[j].now)
    && (forall i :: 0 <= i < |calls| ==> 0 < calls[i].now)
  }

  /** How many of the calls i..j of a key are admitted. */
  ghost function AdmittedBetween(limit: int, interval: int, calls: seq<Call>, key: string, i: nat, j: nat): nat
    requires i <= j <= |calls|
  {
    if i == j then 0
    else AdmittedBetween(limit, interval, calls, key, i, j - 1)
         + if calls[j - 1].key == key && Admitted(limit, interval, calls, j - 1) then 1 else 0
  }

  /** The entry of a key after the first n calls. */
  ghost function EntryAt(limit: int, interval: int, calls: seq<Call>, key: string, n: nat): Entry
    requires n <= |calls|
  {
    var entries := EntriesAfter(limit, interval, calls[..n]);
    if key in entries then entries[key] else Entry(0, 0)
  }

  /** What one call does to the entry of a key. */
  lemma EntryStep(limit: int, interval: int, calls: seq<Call>, key: string, n: nat)
    requires n < |calls|
    ensures var e, after := EntryAt(limit, interval, calls, key, n), EntryAt(limit, interval, calls, key, n + 1);
            if calls[n].key != key then after == e
            else if Opens(limit, interval, calls, n) then after == Entry(calls[n].now, 1) && Admitted(limit, interval, calls, n)
            else if Admitted(limit, interval, calls, n) then after == e.(count := e.count + 1) && e.count < limit
            else after == e
    ensures calls[n].key == key ==> (Opens(limit, interval, calls, n)
              <==> EntryAt(limit, interval, calls, key, n).started == 0
                   || interval <= calls[n].now - EntryAt(limit, interval, calls, key, n).started)
  {
    assert calls[..n + 1][..n] == calls[..n];
  }

  /** An open window has admitted at most the capacity, and its start is a past call's time. */
  lemma {:induction false} EntryBounds(limit: int, interval: int, calls: seq<Call>, key: string, n: nat)
    requires Monotone(calls) && n <= |calls|
    ensures var e := EntryAt(limit, interval, calls, key, n);
            && 0 <= e.count <= Capacity(limit)
            && (e.started == 0 ==> e.count == 0)
            && (e.started != 0 ==> 0 < e.started && 1 <= e.count && exists i :: 0 <= i < n && calls[i].now == e.started)
  {
    hide Opens, Admitted;
    if n > 0 {
      EntryBounds(limit, interval, calls, key, n - 1);
      EntryStep(limit, interval, calls, key, n - 1);
    }
  }

  /** Two openings of one key are at least an interval apart. */
  lemma OpeningsAreSpaced(limit: int, interval: int, calls: seq<Call>, i: nat, j: nat)
    requires Monotone(calls) && i < j < |calls| && calls[i].key == calls[j].key
    requires Opens(limit, interval, calls, i) && Opens(limit, interval, calls, j)
    ensures interval <= calls[j].now - calls[i].now
  {
    hide Opens, Admitted;
    var key := calls[i].key;
    EntryStep(limit, interval, calls, key, i);
    LatestOpening(limit, interval, calls, key, i, j);
    EntryStep(limit, interval, calls, key, j);
  }

  /** After an opening, the entry's start is that call's time or a later one's. */
  lemma {:induction false} LatestOpening(limit: int, interval: int, calls: seq<Call>, key: string, i: nat, n: nat)
    requires Monotone(calls) && i < n <= |calls| && calls[i].key == key && Opens(limit, interval, calls, i)
    ensures calls[i].now <= EntryAt(limit, interval, calls, key, n).started
    decreases n
  {
    hide Opens, Admitted;
    EntryStep(limit, interval, calls, key, n - 1);
    if i < n - 1 {
      LatestOpening(limit, interval, calls, key, i, n - 1);
    }
  }

  /** While no call opens a window, admissions only fill the open one. */
  lemma {:induction false} WindowFills(limit: int, interval: int, calls: seq<Call>, key: string, i: nat, j: nat)
    requires i <= j <= |calls|
    requires forall n: nat :: i <= n < j && calls[n].key == key ==> !Opens(limit, interval, calls, n)
    ensures AdmittedBetween(limit, interval, calls, key, i, j)
            == EntryAt(limit, interval, calls, key, j).count - EntryAt(limit, interval, calls, key, i).count
    decreases j
  {
    hide Opens, Admitted;
    if i < j {
      WindowFills(limit, interval, calls, key, i, j - 1);
      EntryStep(limit, interval, calls, key, j - 1);
    }
  }

  lemma {:induction false} AdmittedSplits(limit: int, interval: int, calls: seq<Call>, key: string, i: nat, k: nat, j: nat)
    requires i <= k <= j <= |calls|
    ensures AdmittedBetween(limit, interval, calls, key, i, j)
            == AdmittedBetween(limit, interval, calls, key, i, k) + AdmittedBetween(limit, interval, calls, key, k, j)
    decreases j
  {
    hide Admitted;
    if k < j {
      AdmittedSplits(limit, interval, calls, key, i, k, j - 1);
    }
  }

  /** One window, from the call that opens it to the next opening, admits at most the capacity. */
  lemma WindowAdmitsCapacity(limit: int, interval: int, calls: seq<Call>, key: string, i: nat, j: nat)
    requires Monotone(calls) && i < j <= |calls| && calls[i].key == key && Opens(limit, interval, calls, i)
    requires forall n: nat :: i < n < j && calls[n].key == key ==> !Opens(limit, interval, calls, n)
    ensures AdmittedBetween(limit, interval, calls, key, i, j) <= Capacity(limit)
  {
    hide Opens, Admitted;
    AdmittedSplits(limit, interval, calls, key, i, i + 1, j);
    WindowFills(limit, interval, calls, key, i + 1, j);
    EntryStep(limit, interval, calls, key, i);
    EntryBounds(limit, interval, calls, key, j);
  }

  /** How many calls of a key there are from i to j. */
  ghost function CallsOf(calls: seq<Call>, key: string, i: nat, j: nat): nat
    requires i <= j <= |calls|
  {
    if i == j then 0 else CallsOf(calls, key, i, j - 1) + if calls[j - 1].key == key then 1 else 0
  }

  /** An open window's start is the time of the call that opened it. */
  lemma {:induction false} StartedByOpening(limit: int, interval: int, calls: seq<Call>, key: string, n: nat) returns (i: nat)
    requires Monotone(calls) && n <= |calls| && EntryAt(limit, interval, calls, key, n).started != 0
    ensures i < n && calls[i].key == key && Opens(limit, interval, calls, i) && calls[i].now == EntryAt(limit, interval, calls, key, n).started
  {
    hide Opens, Admitted;
    EntryBounds(limit, interval, calls, key, n);
    EntryStep(limit, interval, calls, key, n - 1);
    if calls[n - 1].key == key && Opens(limit, interval, calls, n - 1) {
      i := n - 1;
    } else {
      i := StartedByOpening(limit, interval, calls, key, n - 1);
    }
  }

  /** A call opens a window exactly when no window of its key was opened within the last interval. */
  lemma OpensIff(limit: int, interval: int, calls: seq<Call>, k: nat)
    requires Monotone(calls) && k < |calls|
    ensures Opens(limit, interval, calls, k) <==>
              forall i: nat :: i < k && calls[i].key == calls[k].key && Opens(limit, interval, calls, i) ==> interval <= calls[k].now - calls[i].now
  {
    hide Opens, Admitted;
    var key := calls[k].key;
    EntryStep(limit, interval, calls, key, k);
    if Opens(limit, interval, calls, k) {
      forall i: nat | i < k && calls[i].key == key && Opens(limit, interval, calls, i) ensures interval <= calls[k].now - calls[i].now {
        OpeningsAreSpaced(limit, interval, calls, i, k);
      }
    } else {
      var i := StartedByOpening(limit, interval, calls, key, k);
    }
  }

  lemma {:induction false} WindowCounts(limit: int, interval: int, calls: seq<Call>, key: string, i: nat, n: nat)
    requires i < n <= |calls| && calls[i].key == key && Opens(limit, interval, calls, i)
    requires forall k: nat :: i < k < n && calls[k].key == key ==> !Opens(limit, interval, calls, k)
    ensures var called := CallsOf(calls, key, i, n);
            1 <= called && EntryAt(limit, interval, calls, key, n).count == if called < Capacity(limit) then called else Capacity(limit)
  {
    hide Opens, Admitted;
    EntryStep(limit, interval, calls, key, n - 1);
    if i < n - 1 {
      WindowCounts(limit, interval, calls, key, i, n - 1);
      if calls[n - 1].key == key {
        FilledOnlyAtLimit(limit, interval, calls, key, n - 1);
      }
    } else {
      assert CallsOf(calls, key, i, i) == 0;
    }
  }

  /** A call that opens no window is refused exactly when the open one has reached the limit. */
  lemma FilledOnlyAtLimit(limit: int, interval: int, calls: seq<Call>, key: string, n: nat)
    requires n < |calls| && calls[n].key == key
    ensures Admitted(limit, interval, calls, n)
            <==> Opens(limit, interval, calls, n) || EntryAt(limit, interval, calls, key, n).count < limit
  {
  }

  /** Within a window exactly the first calls are admitted, as many as the capacity. */
  lemma WindowAdmitsTheFirst(limit: int, interval: int, calls: seq<Call>, key: string, i: nat, k: nat)
    requires i <= k < |calls| && calls[i].key == calls[k].key == key && Opens(limit, interval, calls, i)
    requires forall n: nat :: i < n <= k && calls[n].key == key ==> !Opens(limit, interval, calls, n)
    ensures Admitted(limit, interval, calls, k) <==> CallsOf(calls, key, i, k + 1) <= Capacity(limit)
  {
    hide Opens, Admitted;
    FilledOnlyAtLimit(limit, interval, calls, key, k);
    if i < k {
      WindowCounts(limit, interval, calls, key, i, k);
    } else {
      assert CallsOf(calls, key, i, i) == 0;
    }
  }

  /** Any span of calls shorter than the interval admits at most twice the capacity. */
  lemma ShortSpanAdmitsTwice(limit: int, interval: int, calls: seq<Call>, key: string, i: nat, j: nat)
    requires Monotone(calls) && i < j <= |calls| && calls[j - 1].now - calls[i].now < interval
    ensures AdmittedBetween(limit, interval, calls, key, i, j) <= 2 * Capacity(limit)
  {
    hide Opens, Admitted, AdmittedBetween;
    if k: nat :| i <= k < j && calls[k].key == key && Opens(limit, interval, calls, k) {
      var first := FirstOpening(limit, interval, calls, key, i, k);
      forall n: nat | first < n < j && calls[n].key == key ensures !Opens(limit, interval, calls, n) {
        if Opens(limit, interval, calls, n) {
          OpeningsAreSpaced(limit, interval, calls, first, n);
        }
      }
      AdmittedSplits(limit, interval, calls, key, i, first, j);
      WindowFills(limit, interval, calls, key, i, first);
      EntryBounds(limit, interval, calls, key, i);
      EntryBounds(limit, interval, calls, key, first);
      WindowAdmitsCapacity(limit, interval, calls, key, first, j);
    } else {
      WindowFills(limit, interval, calls, key, i, j);
      EntryBounds(limit, interval, calls, key, i);
      EntryBounds(limit, interval, calls, key, j);
    }
  }

  lemma {:induction false} FirstOpening(limit: int, interval: int, calls: seq<Call>, key: string, i: nat, k: nat) returns (first: nat)
    requires i <= k < |calls| && calls[k].key == key && Opens(limit, interval, calls, k)
    ensures i <= first <= k && calls[first].key == key && Opens(limit, interval, calls, first)
    ensures forall n: nat :: i <= n < first && calls[n].key == key ==> !Opens(limit, interval, calls, n)
    decreases k
  {
    hide Opens;
    first := k;
    if n: nat :| i <= n < k && calls[n].key == key && Opens(limit, interval, calls, n) {
      first := FirstOpening(limit, interval, calls, key, i, n);
    }
  }
}
