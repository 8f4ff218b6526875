/** Chart bucketing for spending reports: bucket boundaries, per-bucket totals and the axis ceiling. */
module Report {
  import opened Calendar
  import opened Domain
  import opened Periods
  import opened Sums

  datatype ExpenseRow = ExpenseRow(occurredAt: Time, category: string, currency: string, amount: int)

  // ---- Boundaries

  /** Start of the i-th bucket: days of a week, months of a year, otherwise 7-day windows. */
  ghost function Boundary(kind: string, start: Time, i: int): Time {
    match kind
    case "week" => start + i * NANOS_PER_DAY
    case "year" => DateOf(MonthOf(start) + i, 1, 0)
    case _ => start + 7 * i * NANOS_PER_DAY
  }

  lemma FirstOfMonthAdvances(month: int, years: int, months: int)
    ensures AddDate(DateOf(month, 1, 0), years, months, 0) == DateOf(month + 12 * years + months, 1, 0)
    ensures MonthOf(DateOf(month, 1, 0)) == month
  {
    hide MonthStart, MonthOfDay;
    MonthsAreContiguous(month);
    DecodeEncoded(month, 1, 0);
  }

  lemma {:induction false} BoundariesIncrease(kind: string, start: Time, i: int, j: int)
    requires i < j
    ensures Boundary(kind, start, i) < Boundary(kind, start, j)
  {
    hide MonthStart, MonthOfDay;
    MonthStartSpread(MonthOf(start) + i, MonthOf(start) + j);
  }

  ghost predicate Increasing(bounds: seq<Time>) {
    forall i, j :: 0 <= i < j < |bounds| ==> bounds[i] < bounds[j]
  }

  /** The boundaries are exactly the bucket starts before the end, or the start alone when there is none. */
  ghost predicate Bounds(kind: string, start: Time, end: Time, bounds: seq<Time>) {
    if end <= Boundary(kind, start, 0) then bounds == [start]
    else
      && 0 < |bounds|
      && (forall i :: 0 <= i < |bounds| ==> bounds[i] == Boundary(kind, start, i))
      && Boundary(kind, start, |bounds| - 1) < end <= Boundary(kind, start, |bounds|)
  }

  method BucketBoundaries(kind: string, start: Time, end: Time) returns (bounds: seq<Time>)
    ensures Bounds(kind, start, end, bounds)
  {
    hide AddDate, DateOf, MonthOf;
    bounds := [];
    var t := start;
    match kind {
      case "week" =>
        while t < end
          invariant t == start + |bounds| * NANOS_PER_DAY
          invariant forall i :: 0 <= i < |bounds| ==> bounds[i] == Boundary(kind, start, i)
          invariant 0 < |bounds| ==> Boundary(kind, start, |bounds| - 1) < end
          decreases end - t
        {
          AddDays(t, 1);
          bounds := bounds + [t];
          t := AddDate(t, 0, 0, 1);
        }
      case "year" =>
        t := DateOf(MonthOf(start), 1, 0);
        while t < end
          invariant t == DateOf(MonthOf(start) + |bounds|, 1, 0)
          invariant forall i :: 0 <= i < |bounds| ==> bounds[i] == Boundary(kind, start, i)
          invariant 0 < |bounds| ==> Boundary(kind, start, |bounds| - 1) < end
          decreases end - t
        {
          FirstOfMonthAdvances(MonthOf(start) + |bounds|, 0, 1);
          BoundariesIncrease(kind, start, |bounds|, |bounds| + 1);
          bounds := bounds + [t];
          t := AddDate(t, 0, 1, 0);
        }
      case _ =>
        while t < end
          invariant t == start + 7 * |bounds| * NANOS_PER_DAY
          invariant forall i :: 0 <= i < |bounds| ==> bounds[i] == Boundary(kind, start, i)
          invariant 0 < |bounds| ==> Boundary(kind, start, |bounds| - 1) < end
          decreases end - t
        {
          AddDays(t, 7);
          bounds := bounds + [t];
          t := AddDate(t, 0, 0, 7);
        }
    }
    assert t == Boundary(kind, start, |bounds|);
    if |bounds| == 0 {
      bounds := [start];
    } else if 1 < |bounds| {
      BoundariesIncrease(kind, start, 0, |bounds| - 1);
    }
  }

  lemma BoundsIncrease(kind: string, start: Time, end: Time, bounds: seq<Time>)
    requires Bounds(kind, start, end, bounds)
    ensures 0 < |bounds| && Increasing(bounds)
  {
    hide Boundary;
    forall i, j | 0 <= i < j < |bounds| ensures bounds[i] < bounds[j] {
      BoundariesIncrease(kind, start, i, j);
    }
  }

  lemma {:induction false} BoundaryCount(kind: string, start: Time, end: Time, bounds: seq<Time>, n: int)
    requires Bounds(kind, start, end, bounds)
    requires 0 < n && Boundary(kind, start, n - 1) < end <= Boundary(kind, start, n)
    ensures |bounds| == n
  {
    hide Boundary;
    var size := |bounds|;
    if 1 < n { BoundariesIncrease(kind, start, 0, n - 1); }
    if size < n {
      if size < n - 1 { BoundariesIncrease(kind, start, size, n - 1); }
    } else if n < size {
      if n < size - 1 { BoundariesIncrease(kind, start, n, size - 1); }
    }
  }

  /** The weekly report has a bar a day, the yearly one a bar a month, the monthly one a bar for each 7 days begun. */
  lemma ReportBucketCounts(now: Time, week: seq<Time>, month: seq<Time>, year: seq<Time>)
    requires var start := LastCompletedReportPeriod(Week, now); Bounds("week", start, ReportPeriodEnd(Week, start), week)
    requires var start := LastCompletedReportPeriod(Month, now); Bounds("month", start, ReportPeriodEnd(Month, start), month)
    requires var start := LastCompletedReportPeriod(Year, now); Bounds("year", start, ReportPeriodEnd(Year, start), year)
    ensures |week| == 7 && |year| == 12
    ensures |month| == if DaysIn(MonthOf(LastCompletedReportPeriod(Month, now))) == 28 then 4 else 5
  {
    WeekHasSevenBuckets(now, week);
    MonthHasFourOrFiveBuckets(now, month);
    YearHasTwelveBuckets(now, year);
  }

  lemma WeekHasSevenBuckets(now: Time, bounds: seq<Time>)
    requires var start := LastCompletedReportPeriod(Week, now); Bounds("week", start, ReportPeriodEnd(Week, start), bounds)
    ensures |bounds| == 7
  {
    hide AddDate, PeriodStart, LastCompletedReportPeriod, MonthOf, DateOf, Bounds;
    var start := LastCompletedReportPeriod(Week, now);
    AddDays(start, 7);
    BoundaryCount("week", start, start + 7 * NANOS_PER_DAY, bounds, 7);
  }

  lemma MonthHasFourOrFiveBuckets(now: Time, bounds: seq<Time>)
    requires var start := LastCompletedReportPeriod(Month, now); Bounds("month", start, ReportPeriodEnd(Month, start), bounds)
    ensures |bounds| == if DaysIn(MonthOf(LastCompletedReportPeriod(Month, now))) == 28 then 4 else 5
  {
    hide AddDate, PeriodStart, LastCompletedReportPeriod, MonthOf, MonthStart, Bounds;
    var start := LastCompletedReportPeriod(Month, now);
    var month := MonthOf(start);
    LastReportEndsAtCurrentStart(Month, now);
    StartsOnTheFirst(start);
    FirstOfMonthAdvances(month, 0, 1);
    MonthsAreContiguous(month);
    BoundaryCount("month", start, start + DaysIn(month) * NANOS_PER_DAY, bounds, if DaysIn(month) == 28 then 4 else 5);
  }

  lemma StartsOnTheFirst(at: Time)
    ensures PeriodStart(Month, at) == DateOf(MonthOf(at), 1, 0)
    ensures PeriodStart(Year, at) == DateOf(12 * YearOf(at), 1, 0)
  {
  }

  lemma YearHasTwelveBuckets(now: Time, bounds: seq<Time>)
    requires var start := LastCompletedReportPeriod(Year, now); Bounds("year", start, ReportPeriodEnd(Year, start), bounds)
    ensures |bounds| == 12
  {
    hide AddDate, DateOf, PeriodStart, LastCompletedReportPeriod, MonthOf, YearOf, Bounds;
    var start := LastCompletedReportPeriod(Year, now);
    var month := 12 * YearOf(start);
    LastReportEndsAtCurrentStart(Year, now);
    StartsOnTheFirst(start);
    FirstOfMonthAdvances(month, 1, 0);
    BoundariesIncrease("year", start, 11, 12);
    BoundaryCount("year", start, DateOf(month + 12, 1, 0), bounds, 12);
  }

  // ---- Buckets

  /** The bucket a row's time falls in: the last one begun, or the first when the time precedes them all. */
  ghost predicate Lands(bounds: seq<Time>, i: int, at: Time) {
    && 0 <= i < |bounds|
    && (i == 0 || bounds[i] <= at)
    && (i + 1 < |bounds| ==> at < bounds[i + 1])
  }

  /** The first index whose bound lies after an instant, or the length: a binary search. */
  method FirstAfter(bounds: seq<Time>, at: Time) returns (index: int)
    requires Increasing(bounds)
    ensures 0 <= index <= |bounds|
    ensures forall i :: 0 <= i < |bounds| ==> (at < bounds[i] <==> index <= i)
  {
    var high := |bounds|;
    index := 0;
    while index < high
      invariant 0 <= index <= high <= |bounds|
      invariant forall i :: 0 <= i < index ==> bounds[i] <= at
      invariant forall i :: high <= i < |bounds| ==> at < bounds[i]
    {
      var middle := (index + high) / 2;
      if bounds[middle] <= at {
        index := middle + 1;
      } else {
        high := middle;
      }
    }
  }

  lemma FoundBucketLands(bounds: seq<Time>, found: int, at: Time)
    requires bounds != [] && 0 <= found <= |bounds|
    requires forall i :: 0 <= i < |bounds| ==> (at < bounds[i] <==> found <= i)
    ensures Lands(bounds, Clamped(found - 1, |bounds|), at)
  {
  }

  lemma LandsInOneBucket(bounds: seq<Time>, i: int, j: int, at: Time)
    requires Increasing(bounds) && Lands(bounds, i, at) && Lands(bounds, j, at)
    ensures i == j
  {
    forall k | i < k < |bounds| ensures bounds[i + 1] <= bounds[k] {
    }
    forall k | j < k < |bounds| ensures bounds[j + 1] <= bounds[k] {
    }
  }

  ghost function Counted(row: ExpenseRow, bounds: seq<Time>, currency: string, i: int, category: string): int {
    if row.currency == currency && row.category == category && Lands(bounds, i, row.occurredAt) then row.amount else 0
  }

  /** Spend of one category that falls in one bucket. */
  ghost function BucketSpend(rows: seq<ExpenseRow>, bounds: seq<Time>, currency: string, i: int, category: string): int {
    if rows == [] then 0
    else
      var last := |rows| - 1;
      BucketSpend(rows[..last], bounds, currency, i, category) + Counted(rows[last], bounds, currency, i, category)
  }

  ghost predicate HasRow(rows: seq<ExpenseRow>, bounds: seq<Time>, currency: string, i: int, category: string) {
    exists k :: 0 <= k < |rows| && rows[k].currency == currency && rows[k].category == category && Lands(bounds, i, rows[k].occurredAt)
  }

  /** Each bucket holds exactly the categories spent on in it, with exactly what was spent. */
  ghost predicate Filled(buckets: seq<map<string, int>>, rows: seq<ExpenseRow>, bounds: seq<Time>, currency: string) {
    && |buckets| == |bounds|
    && forall i, category :: 0 <= i < |buckets| ==>
         && (category in buckets[i] <==> HasRow(rows, bounds, currency, i, category))
         && (category in buckets[i] ==> buckets[i][category] == BucketSpend(rows, bounds, currency, i, category))
  }

  lemma {:induction false} NoRowNoSpend(rows: seq<ExpenseRow>, bounds: seq<Time>, currency: string, i: int, category: string)
    requires !HasRow(rows, bounds, currency, i, category)
    ensures BucketSpend(rows, bounds, currency, i, category) == 0
    decreases |rows|
  {
    hide Lands;
    if rows != [] {
      var last := |rows| - 1;
      assert !HasRow(rows[..last], bounds, currency, i, category);
      NoRowNoSpend(rows[..last], bounds, currency, i, category);
    }
  }

  function Clamped(index: int, length: int): int {
    if index < 0 then 0 else if length <= index then length - 1 else index
  }

  method BuildTimeBuckets(kind: string, start: Time, end: Time, rows: seq<ExpenseRow>, currency: string)
    returns (buckets: array<map<string, int>>, bounds: seq<Time>)
    ensures Bounds(kind, start, end, bounds)
    ensures fresh(buckets) && Filled(buckets[..], rows, bounds, currency)
  {
    hide Bounds, Lands;
    bounds := BucketBoundaries(kind, start, end);
    BoundsIncrease(kind, start, end, bounds);
    buckets := new map<string, int>[|bounds|](_ => map[]);
    for n := 0 to |rows|
      invariant fresh(buckets) && Filled(buckets[..], rows[..n], bounds, currency)
    {
      var row := rows[n];
      ghost var before := buckets[..];
      assert rows[..n + 1][..n] == rows[..n];
      if row.currency != currency {
        SkippedRow(before, rows[..n + 1], bounds, currency);
        continue;
      }
      var found := FirstAfter(bounds, row.occurredAt);
      var index := Clamped(found - 1, buckets.Length);
      FoundBucketLands(bounds, found, row.occurredAt);
      var spent := if row.category in buckets[index] then buckets[index][row.category] else 0;
      buckets[index] := buckets[index][row.category := spent + row.amount];
      AddedRow(before, rows[..n + 1], bounds, currency, index);
      assert buckets[..] == before[index := before[index][row.category := spent + row.amount]];
    }
    assert rows[..|rows|] == rows;
  }

  lemma HasRowGrows(rows: seq<ExpenseRow>, bounds: seq<Time>, currency: string, i: int, category: string)
    requires rows != []
    ensures var row := rows[|rows| - 1];
            HasRow(rows, bounds, currency, i, category) <==>
            HasRow(rows[..|rows| - 1], bounds, currency, i, category)
            || (row.currency == currency && row.category == category && Lands(bounds, i, row.occurredAt))
  {
    hide Lands;
    var last := |rows| - 1;
    if HasRow(rows[..last], bounds, currency, i, category) {
      var k :| 0 <= k < last && rows[..last][k].currency == currency && rows[..last][k].category == category && Lands(bounds, i, rows[..last][k].occurredAt);
      assert rows[k] == rows[..last][k];
    }
    if HasRow(rows, bounds, currency, i, category) {
      var k :| 0 <= k < |rows| && rows[k].currency == currency && rows[k].category == category && Lands(bounds, i, rows[k].occurredAt);
      assert k < last ==> rows[..last][k] == rows[k];
    }
  }

  lemma SkippedRow(buckets: seq<map<string, int>>, rows: seq<ExpenseRow>, bounds: seq<Time>, currency: string)
    requires rows != [] && Filled(buckets, rows[..|rows| - 1], bounds, currency) && rows[|rows| - 1].currency != currency
    ensures Filled(buckets, rows, bounds, currency)
  {
    hide Lands, HasRow;
    forall i, category | 0 <= i < |buckets|
      ensures category in buckets[i] <==> HasRow(rows, bounds, currency, i, category)
      ensures category in buckets[i] ==> buckets[i][category] == BucketSpend(rows, bounds, currency, i, category)
    {
      HasRowGrows(rows, bounds, currency, i, category);
    }
  }

  lemma AddedRow(buckets: seq<map<string, int>>, rows: seq<ExpenseRow>, bounds: seq<Time>, currency: string, index: int)
    requires rows != [] && Filled(buckets, rows[..|rows| - 1], bounds, currency) && Increasing(bounds)
    requires var row := rows[|rows| - 1]; row.currency == currency && Lands(bounds, index, row.occurredAt)
    ensures 0 <= index < |buckets|
    ensures var row := rows[|rows| - 1];
            var spent := if row.category in buckets[index] then buckets[index][row.category] else 0;
            Filled(buckets[index := buckets[index][row.category := spent + row.amount]], rows, bounds, currency)
  {
    hide HasRow;
    var row, before := rows[|rows| - 1], rows[..|rows| - 1];
    var spent := if row.category in buckets[index] then buckets[index][row.category] else 0;
    var after := buckets[index := buckets[index][row.category := spent + row.amount]];
    forall i, category | 0 <= i < |after|
      ensures category in after[i] <==> HasRow(rows, bounds, currency, i, category)
      ensures category in after[i] ==> after[i][category] == BucketSpend(rows, bounds, currency, i, category)
    {
      HasRowGrows(rows, bounds, currency, i, category);
      if i != index && Lands(bounds, i, row.occurredAt) {
        LandsInOneBucket(bounds, i, index, row.occurredAt);
      }
      if category !in buckets[i] {
        NoRowNoSpend(before, bounds, currency, i, category);
      }
    }
  }

  /** A row inside the report period lands in exactly one bucket, between that bucket's boundaries. */
  lemma RowsAreEnclosed(kind: string, start: Time, end: Time, bounds: seq<Time>, at: Time) returns (i: int)
    requires Bounds(kind, start, end, bounds)
    ensures Lands(bounds, i, at) && forall j :: Lands(bounds, j, at) ==> j == i
    ensures start <= at < end ==> bounds[i] <= at && at < Boundary(kind, start, i + 1) && at < (if i + 1 < |bounds| then bounds[i + 1] else end)
  {
    hide Boundary;
    BoundsIncrease(kind, start, end, bounds);
    i := LandingOf(bounds, |bounds| - 1, at);
    forall j | Lands(bounds, j, at) ensures j == i {
      LandsInOneBucket(bounds, i, j, at);
    }
    FirstBoundAtOrBeforeStart(kind, start);
  }

  lemma {:induction false} LandingOf(bounds: seq<Time>, last: int, at: Time) returns (i: int)
    requires Increasing(bounds) && 0 <= last < |bounds| && (last + 1 < |bounds| ==> at < bounds[last + 1])
    ensures Lands(bounds, i, at)
    decreases last
  {
    if last == 0 || bounds[last] <= at {
      i := last;
    } else {
      i := LandingOf(bounds, last - 1, at);
    }
  }

  lemma FirstBoundAtOrBeforeStart(kind: string, start: Time)
    ensures Boundary(kind, start, 0) <= start
  {
    hide MonthStart, MonthOfDay;
    EncodeDecoded(start);
  }

  // ---- Conservation

  ghost function RowSpend(rows: seq<ExpenseRow>, currency: string): int {
    if rows == [] then 0
    else
      var last := |rows| - 1;
      RowSpend(rows[..last], currency) + if rows[last].currency == currency then rows[last].amount else 0
  }

  ghost function Cells(buckets: seq<map<string, int>>): set<(int, string)> {
    set i, category | 0 <= i < |buckets| && category in buckets[i] :: (i, category)
  }

  ghost function CellAmount(buckets: seq<map<string, int>>): ((int, string)) -> int {
    (cell: (int, string)) => if 0 <= cell.0 < |buckets| && cell.1 in buckets[cell.0] then buckets[cell.0][cell.1] else 0
  }

  ghost function CellSpend(rows: seq<ExpenseRow>, bounds: seq<Time>, currency: string): ((int, string)) -> int {
    (cell: (int, string)) => BucketSpend(rows, bounds, currency, cell.0, cell.1)
  }

  /** Everything the chart shows, over every bucket and category. */
  ghost function Charted(buckets: seq<map<string, int>>): int {
    Sum(Cells(buckets), CellAmount(buckets))
  }

  ghost predicate Covers(cells: set<(int, string)>, rows: seq<ExpenseRow>, bounds: seq<Time>, currency: string) {
    forall i, category :: HasRow(rows, bounds, currency, i, category) ==> (i, category) in cells
  }

  lemma {:induction false} SpendIsConserved(cells: set<(int, string)>, rows: seq<ExpenseRow>, bounds: seq<Time>, currency: string)
    requires Increasing(bounds) && 0 < |bounds| && Covers(cells, rows, bounds, currency)
    ensures Sum(cells, CellSpend(rows, bounds, currency)) == RowSpend(rows, currency)
    decreases |rows|
  {
    hide HasRow, Lands;
    var f := CellSpend(rows, bounds, currency);
    if rows == [] {
      SumExtend({}, cells, f);
    } else {
      var last := |rows| - 1;
      var row, g := rows[last], CellSpend(rows[..last], bounds, currency);
      forall i, category | HasRow(rows[..last], bounds, currency, i, category) ensures (i, category) in cells {
        HasRowGrows(rows, bounds, currency, i, category);
      }
      SpendIsConserved(cells, rows[..last], bounds, currency);
      var index := LandingOf(bounds, |bounds| - 1, row.occurredAt);
      if row.currency == currency {
        HasRowGrows(rows, bounds, currency, index, row.category);
        forall cell | cell in cells && cell != (index, row.category) ensures g(cell) == f(cell) {
          if Lands(bounds, cell.0, row.occurredAt) {
            LandsInOneBucket(bounds, cell.0, index, row.occurredAt);
          }
        }
        SumChange(cells, g, f, (index, row.category));
      } else {
        SumSame(cells, g, f);
      }
    }
  }

  /** The chart drops nothing and counts nothing twice: its total is the report's total in that currency. */
  lemma ChartTotalsAgree(kind: string, start: Time, end: Time, rows: seq<ExpenseRow>, currency: string, bounds: seq<Time>, buckets: seq<map<string, int>>)
    requires Bounds(kind, start, end, bounds) && Filled(buckets, rows, bounds, currency)
    ensures Charted(buckets) == RowSpend(rows, currency)
  {
    hide HasRow, Lands, Bounds, BucketSpend;
    BoundsIncrease(kind, start, end, bounds);
    var cells := Cells(buckets);
    forall i, category | HasRow(rows, bounds, currency, i, category) ensures (i, category) in cells {
      RowsAreInRange(rows, bounds, currency, i, category);
    }
    SpendIsConserved(cells, rows, bounds, currency);
    SumSame(cells, CellAmount(buckets), CellSpend(rows, bounds, currency));
  }

  lemma RowsAreInRange(rows: seq<ExpenseRow>, bounds: seq<Time>, currency: string, i: int, category: string)
    requires HasRow(rows, bounds, currency, i, category)
    ensures 0 <= i < |bounds|
  {
  }

  // ---- The axis ceiling

  function Pow10(k: nat): (power: nat)
    ensures 0 < power
  {
    if k == 0 then 1 else 10 * Pow10(k - 1)
  }

  ghost predicate Nice(n: int) {
    exists k: nat :: NiceAt(n, k)
  }

  ghost predicate NiceAt(n: int, k: nat) {
    n == Pow10(k) || n == 2 * Pow10(k) || n == 5 * Pow10(k)
  }

  lemma {:induction false} Pow10Grows(j: nat, k: nat)
    requires j < k
    ensures 10 * Pow10(j) <= Pow10(k)
    decreases k
  {
    if j < k - 1 {
      Pow10Grows(j, k - 1);
    }
  }

  /** A nice number is at most five times its own power of ten, so powers decide first. */
  lemma NiceRange(n: int, max: int, k: nat)
    requires Nice(n) && Pow10(k) <= max <= n && max < Pow10(k + 1)
    ensures n == Pow10(k) || n == 2 * Pow10(k) || n == 5 * Pow10(k) || Pow10(k + 1) <= n
  {
    var j: nat :| NiceAt(n, j);
    if j < k {
      Pow10Grows(j, k);
    } else if k < j {
      Pow10Grows(k, j);
    }
  }

  const STEPS: seq<int> := [1, 2, 5, 10]

  method NiceCeiling(max: int) returns (ceiling: int)
    ensures max <= 0 ==> ceiling == 1
    ensures 0 < max ==> Nice(ceiling) && max <= ceiling && forall n :: Nice(n) && max <= n ==> ceiling <= n
  {
    if max <= 0 {
      return 1;
    }
    var magnitude := 1;
    ghost var k: nat := 0;
    while magnitude * 10 <= max
      invariant magnitude == Pow10(k) && magnitude <= max
      decreases max - magnitude
    {
      magnitude := magnitude * 10;
      k := k + 1;
    }
    forall n | Nice(n) && max <= n ensures n == magnitude || n == 2 * magnitude || n == 5 * magnitude || 10 * magnitude <= n {
      NiceRange(n, max, k);
    }
    assert NiceAt(magnitude, k) && NiceAt(2 * magnitude, k) && NiceAt(5 * magnitude, k) && NiceAt(10 * magnitude, k + 1);
    for i := 0 to |STEPS|
      invariant 0 < i ==> magnitude < max
      invariant 1 < i ==> 2 * magnitude < max
      invariant 2 < i ==> 5 * magnitude < max
      invariant i < |STEPS|
    {
      var candidate := STEPS[i] * magnitude;
      if max <= candidate {
        return candidate;
      }
    }
    return magnitude * 10;
  }
}
