/** The analytics page: everything it derives from the stored transactions for the selected
    time range. The range's instants (now, 30 days ago, 3/6/12 months ago) and the month
    buckets of the range are calendar arithmetic and arrive as inputs. */
module Analytics {
  import opened Seqs
  import opened Ledger
  import opened Grouping
  import opened Ranking

  /** The instants `getDateRange` reads off the clock. */
  datatype RangeClock = RangeClock(now: int, days30Ago: int, months3Ago: int, months6Ago: int,
                                   months12Ago: int)

  /** `getDateRange`: the selected look-back up to now; an unknown selection means six months. */
  function DateRange(timeRange: string, clock: RangeClock): (w: Window)
    ensures w.end == clock.now
    ensures timeRange == "30days" ==> w.start == clock.days30Ago
    ensures timeRange == "3months" ==> w.start == clock.months3Ago
    ensures timeRange == "1year" ==> w.start == clock.months12Ago
    ensures timeRange !in {"30days", "3months", "1year"} ==> w.start == clock.months6Ago
  {
    var start :=
      if timeRange == "30days" then clock.days30Ago
      else if timeRange == "3months" then clock.months3Ago
      else if timeRange == "6months" then clock.months6Ago
      else if timeRange == "1year" then clock.months12Ago
      else clock.months6Ago;
    Window(start, clock.now)
  }

  /** `getFilteredTransactions`: exactly the transactions dated inside the window. */
  function FilteredTransactions(ts: seq<Transaction>, w: Window): (r: seq<Transaction>)
    ensures |r| <= |ts|
    ensures forall t :: t in r <==> t in ts && w.start <= t.date <= w.end
  {
    InWindow(ts, w)
  }

  /** The expenses among the filtered transactions, which every expense view starts from. */
  function WindowExpenses(ts: seq<Transaction>, w: Window): seq<Transaction> {
    OfKind(InWindow(ts, w), Expense)
  }

  /** The filtered list keeps the transactions' original order: filtering splits over
      concatenation, and filtering again changes nothing. */
  lemma FilteredIsOrderedSubsequence(ts: seq<Transaction>, more: seq<Transaction>, w: Window)
    ensures FilteredTransactions(ts + more, w) == FilteredTransactions(ts, w) + FilteredTransactions(more, w)
    ensures FilteredTransactions(FilteredTransactions(ts, w), w) == FilteredTransactions(ts, w)
  {
    var p := (t: Transaction) => Within(t.date, w);
    FilterAppend(ts, more, p);
    var once := Filter(ts, p);
    assert forall i :: 0 <= i < |once| ==> once[i] in once;
    FilterKeepsAll(once, p);
  }

  // ---------------------------------------------------------------- income vs expenses

  /** One point of `getIncomeExpensesTrend`. */
  datatype TrendPoint = TrendPoint(month: Window, income: real, expenses: real, profit: real)

  function MonthPoint(ts: seq<Transaction>, month: Window): TrendPoint {
    var inMonth := InWindow(ts, month);
    var income := IncomeTotal(inMonth);
    var expenses := ExpenseTotal(inMonth);
    TrendPoint(month, income, expenses, income - expenses)
  }

  /** `getIncomeExpensesTrend`: one point per month of the range (the months arrive in order),
      each summing all stored transactions of that month. */
  function IncomeExpensesTrend(ts: seq<Transaction>, months: seq<Window>): (r: seq<TrendPoint>)
    ensures |r| == |months|
    ensures forall k :: 0 <= k < |months| ==> r[k].month == months[k]
    ensures forall k :: 0 <= k < |months| ==>
              r[k].income == IncomeTotal(InWindow(ts, months[k])) &&
              r[k].expenses == ExpenseTotal(InWindow(ts, months[k]))
    ensures forall k :: 0 <= k < |months| ==> r[k].profit == r[k].income - r[k].expenses
  {
    seq(|months|, k requires 0 <= k < |months| => MonthPoint(ts, months[k]))
  }

  // ---------------------------------------------------------------- category breakdown

  /** `getCategoryBreakdown`: the window's expenses grouped by category, largest first. */
  method CategoryBreakdown(ts: seq<Transaction>, w: Window) returns (r: seq<Entry>)
    ensures r == SortByValue(GroupByCategory(WindowExpenses(ts, w)))
    ensures SortedByValue(r)
    ensures Distinct(Names(r))
    ensures forall c :: c in Names(r) <==>
              exists i :: 0 <= i < |WindowExpenses(ts, w)| && WindowExpenses(ts, w)[i].category == c
    ensures forall k :: 0 <= k < |r| ==> r[k].value == CategoryTotal(WindowExpenses(ts, w), r[k].name)
    ensures EntriesTotal(r) == ExpenseTotal(InWindow(ts, w))
  {
    var expenses := WindowExpenses(ts, w);
    var grouped := AccumulateByCategory(expenses);
    r := SortByValue(grouped);
    GroupByCategorySpec(expenses);
    SortNames(grouped);
    SortTotal(grouped);
    SortedKeepsNames(grouped);
    SortedKeepsValues(grouped, expenses);
  }

  lemma SortedKeepsNames(es: seq<Entry>)
    ensures forall c :: c in Names(SortByValue(es)) <==> c in Names(es)
  {
    var r := SortByValue(es);
    SortMembers(es);
    forall c ensures c in Names(r) <==> c in Names(es) {
      if c in Names(r) {
        var k :| 0 <= k < |r| && Names(r)[k] == c;
        assert r[k] in es;
        var m :| 0 <= m < |es| && es[m] == r[k];
        assert Names(es)[m] == c;
      }
      if c in Names(es) {
        var k :| 0 <= k < |es| && Names(es)[k] == c;
        assert es[k] in r;
        var m :| 0 <= m < |r| && r[m] == es[k];
        assert Names(r)[m] == c;
      }
    }
  }

  lemma SortedKeepsValues(es: seq<Entry>, ts: seq<Transaction>)
    requires forall k :: 0 <= k < |es| ==> es[k].value == CategoryTotal(ts, es[k].name)
    ensures forall k :: 0 <= k < |SortByValue(es)| ==>
              SortByValue(es)[k].value == CategoryTotal(ts, SortByValue(es)[k].name)
  {
    SortMembers(es);
    var r := SortByValue(es);
    forall k | 0 <= k < |r| ensures r[k].value == CategoryTotal(ts, r[k].name) {
      assert r[k] in es;
      var m :| 0 <= m < |es| && es[m] == r[k];
    }
  }

  /** `getTopCategories`: the first five entries of the breakdown (all of them if fewer). */
  function TopCategories(breakdown: seq<Entry>): (r: seq<Entry>)
    ensures |r| == if |breakdown| < 5 then |breakdown| else 5
    ensures forall k :: 0 <= k < |r| ==> r[k] == breakdown[k]
    ensures SortedByValue(breakdown) ==>
              forall i, j :: 0 <= i < |r| <= j < |breakdown| ==> r[i].value >= breakdown[j].value
  {
    if |breakdown| <= 5 then breakdown else breakdown[..5]
  }

  // ---------------------------------------------------------------- weekdays

  const WeekdayNames: seq<string> :=
    ["Sunday", "Monday", "Tuesday", "Wednesday", "Thursday", "Friday", "Saturday"]

  /** One slot of the weekday array while it is being filled. */
  datatype WeekdaySlot = WeekdaySlot(day: string, amount: real, count: nat)

  /** One slot of the weekday result, with its average. */
  datatype WeekdayStat = WeekdayStat(day: string, amount: real, count: nat, average: real)

  function WeekdayTotal(es: seq<Transaction>, d: int): real
    decreases |es|
  {
    if es == [] then 0.0
    else WeekdayTotal(es[..|es| - 1], d) + (if WeekdayOf(es[|es| - 1].date) == d then es[|es| - 1].amount else 0.0)
  }

  function WeekdayCount(es: seq<Transaction>, d: int): nat
    decreases |es|
  {
    if es == [] then 0
    else WeekdayCount(es[..|es| - 1], d) + (if WeekdayOf(es[|es| - 1].date) == d then 1 else 0)
  }

  /** `d.count > 0 ? d.amount / d.count : 0`. */
  function Average(amount: real, count: nat): real {
    if count > 0 then amount / count as real else 0.0
  }

  function CountOfSlots(r: seq<WeekdayStat>): nat
    decreases |r|
  {
    if r == [] then 0 else CountOfSlots(r[..|r| - 1]) + r[|r| - 1].count
  }

  function AmountOfSlots(r: seq<WeekdayStat>): real
    decreases |r|
  {
    if r == [] then 0.0 else AmountOfSlots(r[..|r| - 1]) + r[|r| - 1].amount
  }

  /** The counts of the first `n` weekday slots of `es`. */
  function CountsBelow(es: seq<Transaction>, n: nat): nat {
    if n == 0 then 0 else CountsBelow(es, n - 1) + WeekdayCount(es, n - 1)
  }

  function TotalsBelow(es: seq<Transaction>, n: nat): real {
    if n == 0 then 0.0 else TotalsBelow(es, n - 1) + WeekdayTotal(es, n - 1)
  }

  lemma {:induction false} BelowSnoc(es: seq<Transaction>, x: Transaction, n: nat)
    ensures CountsBelow(es + [x], n) == CountsBelow(es, n) + (if WeekdayOf(x.date) < n then 1 else 0)
    ensures TotalsBelow(es + [x], n) == TotalsBelow(es, n) + (if WeekdayOf(x.date) < n then x.amount else 0.0)
  {
    assert (es + [x])[..|es|] == es;
    if n > 0 {
      BelowSnoc(es, x, n - 1);
    }
  }

  /** Every expense lands in exactly one of the seven slots. */
  lemma {:induction false} SlotsPartition(es: seq<Transaction>)
    ensures CountsBelow(es, 7) == |es|
    ensures TotalsBelow(es, 7) == Total(es)
    decreases |es|
  {
    if es == [] {
      assert CountsBelow(es, 7) == 0 by {
        assert forall n: nat :: n <= 7 ==> CountsBelow([], n) == 0 by {
          forall n: nat | n <= 7 ensures CountsBelow([], n) == 0 {
            ZeroBelow(n);
          }
        }
      }
      ZeroBelow(7);
    } else {
      var es' := es[..|es| - 1];
      var x := es[|es| - 1];
      assert es == es' + [x];
      SlotsPartition(es');
      BelowSnoc(es', x, 7);
    }
  }

  lemma {:induction false} ZeroBelow(n: nat)
    ensures CountsBelow([], n) == 0 && TotalsBelow([], n) == 0.0
  {
    if n > 0 {
      ZeroBelow(n - 1);
    }
  }

  lemma SlotSums(r: seq<WeekdayStat>, es: seq<Transaction>)
    requires |r| == 7
    requires forall d :: 0 <= d < 7 ==> r[d].amount == WeekdayTotal(es, d) && r[d].count == WeekdayCount(es, d)
    ensures CountOfSlots(r) == |es| && AmountOfSlots(r) == Total(es)
  {
    SlotsPartition(es);
    forall n | 0 <= n <= 7
      ensures CountOfSlots(r[..n]) == CountsBelow(es, n) && AmountOfSlots(r[..n]) == TotalsBelow(es, n)
    {
      PrefixSums(r, es, n);
    }
    assert r[..7] == r;
  }

  lemma {:induction false} PrefixSums(r: seq<WeekdayStat>, es: seq<Transaction>, n: nat)
    requires n <= |r| == 7
    requires forall d :: 0 <= d < 7 ==> r[d].amount == WeekdayTotal(es, d) && r[d].count == WeekdayCount(es, d)
    ensures CountOfSlots(r[..n]) == CountsBelow(es, n) && AmountOfSlots(r[..n]) == TotalsBelow(es, n)
  {
    if n > 0 {
      PrefixSums(r, es, n - 1);
      assert r[..n][..n - 1] == r[..n - 1];
    }
  }

  lemma WeekdayStep(es: seq<Transaction>, i: nat)
    requires i < |es|
    ensures forall d :: WeekdayTotal(es[..i + 1], d)
                        == WeekdayTotal(es[..i], d) + (if WeekdayOf(es[i].date) == d then es[i].amount else 0.0)
    ensures forall d :: WeekdayCount(es[..i + 1], d)
                        == WeekdayCount(es[..i], d) + (if WeekdayOf(es[i].date) == d then 1 else 0)
  {
    assert es[..i + 1][..i] == es[..i];
  }

  /** `getWeekdaySpending`: seven slots, Sunday to Saturday, whatever the data; each sums and
      counts the window's expenses falling on that weekday. */
  method WeekdaySpending(ts: seq<Transaction>, w: Window) returns (r: seq<WeekdayStat>)
    ensures |r| == 7
    ensures forall d :: 0 <= d < 7 ==> r[d].day == WeekdayNames[d]
    ensures forall d :: 0 <= d < 7 ==> r[d].amount == WeekdayTotal(WindowExpenses(ts, w), d)
    ensures forall d :: 0 <= d < 7 ==> r[d].count == WeekdayCount(WindowExpenses(ts, w), d)
    ensures forall d :: 0 <= d < 7 ==> r[d].average == Average(r[d].amount, r[d].count)
    ensures CountOfSlots(r) == |WindowExpenses(ts, w)|
    ensures AmountOfSlots(r) == ExpenseTotal(InWindow(ts, w))
  {
    var expenses := WindowExpenses(ts, w);
    var slots := new WeekdaySlot[7](d requires 0 <= d < 7 => WeekdaySlot(WeekdayNames[d], 0.0, 0));
    for i := 0 to |expenses|
      invariant forall d :: 0 <= d < 7 ==>
                  slots[d] == WeekdaySlot(WeekdayNames[d], WeekdayTotal(expenses[..i], d), WeekdayCount(expenses[..i], d))
    {
      var t := expenses[i];
      var d := WeekdayOf(t.date);
      WeekdayStep(expenses, i);
      slots[d] := slots[d].(amount := slots[d].amount + t.amount, count := slots[d].count + 1);
    }
    assert expenses[..|expenses|] == expenses;
    r := seq(7, d requires 0 <= d < 7 reads slots =>
               WeekdayStat(slots[d].day, slots[d].amount, slots[d].count, Average(slots[d].amount, slots[d].count)));
    SlotSums(r, expenses);
  }

  // ---------------------------------------------------------------- daily pattern

  /** One point of the daily pattern: a calendar day and the expenses of that day. */
  datatype DailyPoint = DailyPoint(day: int, amount: real)

  /** How many day steps `while (current <= endDate)` takes from the window's start. */
  function DayCount(w: Window): nat {
    if w.start <= w.end then (w.end - w.start) / MsPerDay + 1 else 0
  }

  /** The length after `slice(-30)`. */
  function DailyPatternLength(w: Window): nat {
    if DayCount(w) < 30 then DayCount(w) else 30
  }

  function DayTotal(es: seq<Transaction>, day: int): real
    decreases |es|
  {
    if es == [] then 0.0
    else DayTotal(es[..|es| - 1], day) + (if DayOf(es[|es| - 1].date) == day then es[|es| - 1].amount else 0.0)
  }

  /** A day on which no expense fell shows 0 (`dailyData[dayStr] || 0`). */
  lemma {:induction false} QuietDayIsZero(es: seq<Transaction>, day: int)
    requires forall i :: 0 <= i < |es| ==> DayOf(es[i].date) != day
    ensures DayTotal(es, day) == 0.0
    decreases |es|
  {
    if es != [] {
      QuietDayIsZero(es[..|es| - 1], day);
    }
  }

  lemma DayStep(es: seq<Transaction>, i: nat)
    requires i < |es|
    ensures forall day :: DayTotal(es[..i + 1], day)
                          == DayTotal(es[..i], day) + (if DayOf(es[i].date) == day then es[i].amount else 0.0)
  {
    assert es[..i + 1][..i] == es[..i];
  }

  /** The cursor stops after exactly `DayCount(w)` steps. */
  lemma DayCountExact(w: Window, n: nat)
    requires w.start + (n - 1) * MsPerDay <= w.end || n == 0
    requires w.end < w.start + n * MsPerDay
    ensures n == DayCount(w)
  {
  }

  /** `getDailySpendingPattern`: sum the window's expenses per calendar day, walk a cursor one
      day at a time from the window's start to its end, and keep the last 30 points. */
  method DailySpendingPattern(ts: seq<Transaction>, w: Window) returns (r: seq<DailyPoint>)
    ensures |r| == DailyPatternLength(w)
    ensures forall k :: 0 <= k < |r| ==> r[k].day == DayOf(w.start + (DayCount(w) - |r| + k) * MsPerDay)
    ensures forall k :: 0 <= k < |r| ==> r[k].amount == DayTotal(WindowExpenses(ts, w), r[k].day)
  {
    var expenses := WindowExpenses(ts, w);
    var daily: map<int, real> := map[];
    for i := 0 to |expenses|
      invariant forall day :: DayTotal(expenses[..i], day) == if day in daily then daily[day] else 0.0
    {
      var t := expenses[i];
      var day := DayOf(t.date);
      DayStep(expenses, i);
      if day !in daily {
        daily := daily[day := 0.0];
      }
      daily := daily[day := daily[day] + t.amount];
    }
    assert expenses[..|expenses|] == expenses;

    var days: seq<DailyPoint> := [];
    var current := w.start;
    while current <= w.end
      invariant current == w.start + |days| * MsPerDay
      invariant |days| == 0 || w.start + (|days| - 1) * MsPerDay <= w.end
      invariant forall k :: 0 <= k < |days| ==> days[k].day == DayOf(w.start + k * MsPerDay)
      invariant forall k :: 0 <= k < |days| ==> days[k].amount == DayTotal(expenses, days[k].day)
      decreases w.end - current
    {
      var day := DayOf(current);
      days := days + [DailyPoint(day, if day in daily then daily[day] else 0.0)];
      current := current + MsPerDay;
    }
    DayCountExact(w, |days|);
    r := if |days| > 30 then days[|days| - 30..] else days;
  }

  // ---------------------------------------------------------------- statistics

  datatype Stats = Stats(totalIncome: real, totalExpenses: real, netSavings: real,
                         avgDailyExpense: real, avgTransaction: real, savingsRate: real,
                         transactionCount: nat)

  /** `x / Math.max(1, n)`: the share of `x` per item, taking at least one item. */
  function Share(x: real, n: nat): (r: real)
    ensures r * AtLeastOne(n) as real == x
    ensures x >= 0.0 ==> r >= 0.0
    ensures n == 0 ==> r == x
  {
    x / AtLeastOne(n) as real
  }

  function AtLeastOne(n: nat): (m: nat)
    ensures m >= 1
  {
    if n < 1 then 1 else n
  }

  /** The statistics record built from the window's sums and counts. */
  function StatsFrom(income: real, expenses: real, days: nat, expenseCount: nat, count: nat): (s: Stats)
    ensures s.totalIncome == income && s.totalExpenses == expenses && s.transactionCount == count
    ensures s.netSavings == income - expenses
    ensures s.savingsRate == SavingsRate(income, expenses)
    ensures income > 0.0 ==> s.savingsRate * income == s.netSavings * 100.0
    ensures s.avgTransaction == Share(expenses, expenseCount)
    ensures s.avgDailyExpense == Share(expenses, days)
  {
    Stats(income, expenses, income - expenses,
          Share(expenses, days),
          Share(expenses, expenseCount),
          SavingsRate(income, expenses),
          count)
  }

  /** `getStatistics` over the window; the daily average divides by the daily pattern's length. */
  function Statistics(ts: seq<Transaction>, w: Window): (s: Stats)
    ensures s.totalIncome == IncomeTotal(FilteredTransactions(ts, w))
    ensures s.totalExpenses == ExpenseTotal(FilteredTransactions(ts, w))
    ensures s.netSavings == s.totalIncome - s.totalExpenses
    ensures s.savingsRate == SavingsRate(s.totalIncome, s.totalExpenses)
    ensures s.totalIncome <= 0.0 ==> s.savingsRate == 0.0
    ensures s.transactionCount == |FilteredTransactions(ts, w)|
    ensures s.avgTransaction == Share(s.totalExpenses, |WindowExpenses(ts, w)|)
    ensures s.avgDailyExpense == Share(s.totalExpenses, DailyPatternLength(w))
  {
    var filtered := FilteredTransactions(ts, w);
    StatsFrom(IncomeTotal(filtered), ExpenseTotal(filtered), DailyPatternLength(w),
              |OfKind(filtered, Expense)|, |filtered|)
  }

  /** With income in range, the savings rate times the income is the net savings times 100. */
  lemma StatisticsSavingsRate(ts: seq<Transaction>, w: Window)
    requires Statistics(ts, w).totalIncome > 0.0
    ensures Statistics(ts, w).savingsRate * Statistics(ts, w).totalIncome == Statistics(ts, w).netSavings * 100.0
  {
    var s := Statistics(ts, w);
    assert s.savingsRate == SavingsRate(s.totalIncome, s.totalExpenses);
  }

  /** Income and expenses split the window's total, and with non-negative amounts the
      expense figures are non-negative and the savings rate is at most 100%. */
  lemma StatisticsBounds(ts: seq<Transaction>, w: Window)
    ensures Statistics(ts, w).totalIncome + Statistics(ts, w).totalExpenses
            == Total(FilteredTransactions(ts, w))
    ensures NonNegative(ts) ==> Statistics(ts, w).totalExpenses >= 0.0
    ensures NonNegative(ts) ==> Statistics(ts, w).avgDailyExpense >= 0.0
    ensures NonNegative(ts) ==> Statistics(ts, w).avgTransaction >= 0.0
    ensures NonNegative(ts) && Statistics(ts, w).totalIncome > 0.0 ==> Statistics(ts, w).savingsRate <= 100.0
  {
    var filtered := FilteredTransactions(ts, w);
    KindPartition(filtered);
    if NonNegative(ts) {
      FilterTotalBounded(ts, (t: Transaction) => Within(t.date, w));
      FilterTotalBounded(filtered, (t: Transaction) => t.kind == Expense);
      TotalNonNegative(OfKind(filtered, Expense));
    }
  }

  /** The trend reads all stored transactions, but for a month lying inside the selected range
      that is the same as reading only the range's transactions: each such point shows what the
      statistics show for that month, computed over the range. */
  lemma TrendAgreesWithStatistics(ts: seq<Transaction>, months: seq<Window>, k: nat, w: Window)
    requires k < |months|
    requires w.start <= months[k].start && months[k].end <= w.end
    ensures IncomeExpensesTrend(ts, months)[k].income == Statistics(FilteredTransactions(ts, w), months[k]).totalIncome
    ensures IncomeExpensesTrend(ts, months)[k].expenses == Statistics(FilteredTransactions(ts, w), months[k]).totalExpenses
    ensures IncomeExpensesTrend(ts, months)[k].profit == Statistics(FilteredTransactions(ts, w), months[k]).netSavings
  {
    var m := months[k];
    FilterFilter(ts, (t: Transaction) => Within(t.date, w), (t: Transaction) => Within(t.date, m),
                 (t: Transaction) => Within(t.date, m));
    assert FilteredTransactions(FilteredTransactions(ts, w), m) == InWindow(ts, m);
  }
}
