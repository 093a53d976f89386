/** The overview page: the current month's summary, the six-month trend, the month's
    unsorted category breakdown and the month's spending against every budget. The month
    windows (the current one, and `subMonths(now, i)` for i = 0..5) arrive as inputs. */
module Overview {
  import opened Seqs
  import opened Ledger
  import opened Grouping
  import opened Budgets
  import opened Analytics

  datatype Summary = Summary(totalIncome: real, totalExpenses: real, balance: real, savingsRate: real)

  /** The summary `loadData` computes for the current month. */
  function MonthSummary(ts: seq<Transaction>, month: Window): (s: Summary)
    ensures s.totalIncome == IncomeTotal(InWindow(ts, month))
    ensures s.totalExpenses == ExpenseTotal(InWindow(ts, month))
    ensures s.balance == s.totalIncome - s.totalExpenses
    ensures s.savingsRate == SavingsRate(s.totalIncome, s.totalExpenses)
    ensures s.totalIncome <= 0.0 ==> s.savingsRate == 0.0
    ensures s.totalIncome > 0.0 ==> (s.savingsRate >= 0.0 <==> s.balance >= 0.0)
    ensures s.totalIncome > 0.0 ==> (s.savingsRate == 100.0 <==> s.totalExpenses == 0.0)
  {
    var inMonth := InWindow(ts, month);
    var income := IncomeTotal(inMonth);
    var expenses := ExpenseTotal(inMonth);
    Summary(income, expenses, income - expenses, SavingsRate(income, expenses))
  }

  /** Only the month's transactions count: income and expenses split the month's total, and a
      transaction outside the month changes nothing. */
  lemma SummaryOfMonth(ts: seq<Transaction>, month: Window, t: Transaction)
    ensures MonthSummary(ts, month).totalIncome + MonthSummary(ts, month).totalExpenses == Total(InWindow(ts, month))
    ensures !Within(t.date, month) ==> MonthSummary(ts + [t], month) == MonthSummary(ts, month)
  {
    KindPartition(InWindow(ts, month));
    FilterAppend(ts, [t], (x: Transaction) => Within(x.date, month));
    assert InWindow(ts + [t], month) == InWindow(ts, month) + InWindow([t], month);
    if !Within(t.date, month) {
      assert InWindow([t], month) == [] by {
        assert [t][..0] == [];
      }
      assert InWindow(ts + [t], month) == InWindow(ts, month);
    }
  }

  // ---------------------------------------------------------------- six-month trend

  datatype MonthTotals = MonthTotals(month: Window, income: real, expenses: real, savings: real)

  function MonthTotalsOf(ts: seq<Transaction>, month: Window): MonthTotals {
    var inMonth := InWindow(ts, month);
    MonthTotals(month, IncomeTotal(inMonth), ExpenseTotal(inMonth), IncomeTotal(inMonth) - ExpenseTotal(inMonth))
  }

  /** The six month windows, oldest first. */
  function LastSixMonths(monthsAgo: nat -> Window): (ms: seq<Window>)
    ensures |ms| == 6 && forall k :: 0 <= k < 6 ==> ms[k] == monthsAgo(5 - k)
  {
    seq(6, k requires 0 <= k < 6 => monthsAgo(5 - k))
  }

  /** `getMonthlyTrend`: a counting loop from five months ago down to this month. */
  method MonthlyTrend(ts: seq<Transaction>, monthsAgo: nat -> Window) returns (months: seq<MonthTotals>)
    ensures |months| == 6
    ensures forall k :: 0 <= k < 6 ==> months[k] == MonthTotalsOf(ts, monthsAgo(5 - k))
    ensures forall k :: 0 <= k < 6 ==> months[k].month == monthsAgo(5 - k)
    ensures forall k :: 0 <= k < 6 ==> months[k].savings == months[k].income - months[k].expenses
    ensures forall k :: 0 <= k < 6 ==>
              months[k].income == IncomeExpensesTrend(ts, LastSixMonths(monthsAgo))[k].income &&
              months[k].expenses == IncomeExpensesTrend(ts, LastSixMonths(monthsAgo))[k].expenses
    ensures months[5].income == MonthSummary(ts, monthsAgo(0)).totalIncome
    ensures months[5].savings == MonthSummary(ts, monthsAgo(0)).balance
  {
    months := [];
    var i := 5;
    while i >= 0
      invariant -1 <= i <= 5
      invariant |months| == 5 - i
      invariant forall k :: 0 <= k < |months| ==> months[k] == MonthTotalsOf(ts, monthsAgo(5 - k))
    {
      var month := monthsAgo(i);
      var inMonth := InWindow(ts, month);
      var income := IncomeTotal(inMonth);
      var expenses := ExpenseTotal(inMonth);
      months := months + [MonthTotals(month, income, expenses, income - expenses)];
      i := i - 1;
    }
  }

  // ---------------------------------------------------------------- category breakdown

  /** `getCategoryBreakdown`: the month's expenses grouped by category in first-occurrence
      order, unsorted. */
  method MonthCategoryBreakdown(ts: seq<Transaction>, month: Window) returns (r: seq<Entry>)
    ensures r == GroupByCategory(OfKind(InWindow(ts, month), Expense))
    ensures Distinct(Names(r))
    ensures forall c :: c in Names(r) <==>
              exists t :: t in ts && t.kind == Expense && Within(t.date, month) && t.category == c
    ensures forall k :: 0 <= k < |r| ==> r[k].value == CategorySpending(ts, r[k].name, month)
    ensures EntriesTotal(r) == ExpenseTotal(InWindow(ts, month))
  {
    var monthExpenses := Filter(ts, (t: Transaction) => t.kind == Expense && Within(t.date, month));
    FilterFilter(ts, (t: Transaction) => Within(t.date, month), (t: Transaction) => t.kind == Expense,
                 (t: Transaction) => t.kind == Expense && Within(t.date, month));
    r := AccumulateByCategory(monthExpenses);
    GroupByCategorySpec(monthExpenses);
    forall c ensures c in Names(r) <==>
                     exists t :: t in ts && t.kind == Expense && Within(t.date, month) && t.category == c
    {
      BreakdownMember(ts, month, monthExpenses, c);
    }
    forall k | 0 <= k < |r| ensures r[k].value == CategorySpending(ts, r[k].name, month) {
      SpentIsCategoryTotal(ts, r[k].name, month);
    }
  }

  lemma BreakdownMember(ts: seq<Transaction>, month: Window, es: seq<Transaction>, c: string)
    requires es == Filter(ts, (t: Transaction) => t.kind == Expense && Within(t.date, month))
    ensures (exists i :: 0 <= i < |es| && es[i].category == c) <==>
            exists t :: t in ts && t.kind == Expense && Within(t.date, month) && t.category == c
  {
    if i :| 0 <= i < |es| && es[i].category == c {
      assert es[i] in es;
    }
    if t :| t in ts && t.kind == Expense && Within(t.date, month) && t.category == c {
      assert t in es;
      var i :| 0 <= i < |es| && es[i] == t;
    }
  }

  // ---------------------------------------------------------------- budget status

  datatype BudgetUsage = BudgetUsage(budget: Budget, spent: real, percentage: real)

  predicate PositiveAmounts(bs: seq<Budget>) {
    forall k :: 0 <= k < |bs| ==> bs[k].amount > 0.0
  }

  /** `getBudgetStatus`: one entry per budget, in order, with the month's spending in the
      budget's category whatever the budget's period. */
  function BudgetStatus(bs: seq<Budget>, ts: seq<Transaction>, month: Window): (r: seq<BudgetUsage>)
    requires PositiveAmounts(bs)
    ensures |r| == |bs|
    ensures forall k :: 0 <= k < |bs| ==> r[k].budget == bs[k]
    ensures forall k :: 0 <= k < |bs| ==> r[k].spent == CategorySpending(ts, bs[k].category, month)
    ensures forall k :: 0 <= k < |bs| ==> r[k].percentage * bs[k].amount == r[k].spent * 100.0
  {
    seq(|bs|, k requires 0 <= k < |bs| =>
          var spent := CategorySpending(ts, bs[k].category, month);
          BudgetUsage(bs[k], spent, Percentage(spent, bs[k].amount)))
  }

  /** The overview's spending for a budget is the budgets page's monthly figure, which differs
      from the page's own figure only for weekly and yearly budgets; and it is the month's
      breakdown value for the category, or 0 when the breakdown has no such category. */
  lemma BudgetStatusAgrees(bs: seq<Budget>, ts: seq<Transaction>, cal: Calendar, k: nat)
    requires PositiveAmounts(bs) && k < |bs|
    ensures BudgetStatus(bs, ts, cal.month)[k].spent == CalculateSpent(ts, bs[k].category, "monthly", cal)
    ensures bs[k].period != "weekly" && bs[k].period != "yearly" ==>
              BudgetStatus(bs, ts, cal.month)[k].spent == GetBudgetStatus(bs[k], ts, cal).spent
    ensures var breakdown := GroupByCategory(OfKind(InWindow(ts, cal.month), Expense));
            bs[k].category !in Names(breakdown) ==> BudgetStatus(bs, ts, cal.month)[k].spent == 0.0
    ensures var breakdown := GroupByCategory(OfKind(InWindow(ts, cal.month), Expense));
            forall j :: 0 <= j < |breakdown| && breakdown[j].name == bs[k].category ==>
              BudgetStatus(bs, ts, cal.month)[k].spent == breakdown[j].value
  {
    var es := OfKind(InWindow(ts, cal.month), Expense);
    SpentIsCategoryTotal(ts, bs[k].category, cal.month);
    GroupByCategorySpec(es);
    if bs[k].category !in Names(GroupByCategory(es)) {
      AbsentCategoryTotal(es, bs[k].category);
    }
  }
}
