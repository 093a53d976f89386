/** The records the dashboard computes with: transactions and budgets, date windows, and the
    sums (`reduce((sum, t) => sum + t.amount, 0)`) every view takes over them. */
module Ledger {
  import opened Seqs

  datatype Kind = Income | Expense

  /** A transaction as stored: `date` is the instant of `new Date(t.date)` in milliseconds (UTC). */
  datatype Transaction = Transaction(id: string, kind: Kind, amount: real, category: string,
                                     description: string, date: int)

  /** A budget as saved by the budget form; `period` is the form's free string
      ("weekly", "monthly", "yearly"). */
  datatype Budget = Budget(id: string, category: string, amount: real, period: string,
                           alertThreshold: int, notes: string, createdAt: string, updatedAt: string)

  /** An inclusive window of instants, `start <= date && date <= end`. */
  datatype Window = Window(start: int, end: int)

  predicate Within(date: int, w: Window) {
    w.start <= date <= w.end
  }

  const MsPerDay: int := 86400000

  /** The calendar day of an instant (what `format(date, 'yyyy-MM-dd')` distinguishes). */
  function DayOf(date: int): int {
    date / MsPerDay
  }

  /** `new Date(date).getDay()`: 0 is Sunday; day 0 (1970-01-01) was a Thursday. */
  function WeekdayOf(date: int): (w: int)
    ensures 0 <= w < 7
  {
    (DayOf(date) + 4) % 7
  }

  /** The transactions whose date lies in `w`, in order. */
  function InWindow(ts: seq<Transaction>, w: Window): seq<Transaction> {
    Filter(ts, (t: Transaction) => Within(t.date, w))
  }

  function OfKind(ts: seq<Transaction>, k: Kind): seq<Transaction> {
    Filter(ts, (t: Transaction) => t.kind == k)
  }

  /** Every amount is non-negative (transactions are entered with positive amounts). */
  predicate NonNegative(ts: seq<Transaction>) {
    forall t :: t in ts ==> t.amount >= 0.0
  }

  /** The sum of the amounts, folded left to right as `reduce` does. */
  function Total(ts: seq<Transaction>): real
    decreases |ts|
  {
    if ts == [] then 0.0 else Total(ts[..|ts| - 1]) + ts[|ts| - 1].amount
  }

  function IncomeTotal(ts: seq<Transaction>): real {
    Total(OfKind(ts, Income))
  }

  function ExpenseTotal(ts: seq<Transaction>): real {
    Total(OfKind(ts, Expense))
  }

  /** Spending of one category inside a window: the filter-and-sum of Budgets.jsx and Overview.jsx. */
  function CategorySpending(ts: seq<Transaction>, category: string, w: Window): real {
    Total(Filter(ts, (t: Transaction) => t.kind == Expense && t.category == category && Within(t.date, w)))
  }

  /** `income > 0 ? (income - expenses) / income * 100 : 0`. */
  function SavingsRate(income: real, expenses: real): (rate: real)
    ensures income <= 0.0 ==> rate == 0.0
    ensures income > 0.0 ==> rate * income == (income - expenses) * 100.0
    ensures income > 0.0 && expenses >= 0.0 ==> rate <= 100.0
    ensures income > 0.0 ==> (rate >= 0.0 <==> expenses <= income)
    ensures income > 0.0 ==> (rate == 100.0 <==> expenses == 0.0)
  {
    if income > 0.0 then
      RatioFacts(income - expenses, income);
      RatioFacts(expenses, income);
      (income - expenses) / income * 100.0
    else 0.0
  }

  lemma RatioFacts(x: real, y: real)
    requires y > 0.0
    ensures x / y <= 1.0 <==> x <= y
    ensures x / y >= 0.0 <==> x >= 0.0
    ensures x / y == 1.0 <==> x == y
  {
  }

  lemma TotalSnoc(a: seq<Transaction>, x: Transaction)
    ensures Total(a + [x]) == Total(a) + x.amount
  {
    assert (a + [x])[..|a|] == a;
  }

  lemma {:induction false} TotalAppend(a: seq<Transaction>, b: seq<Transaction>)
    ensures Total(a + b) == Total(a) + Total(b)
    decreases |b|
  {
    if b == [] {
      assert a + b == a;
    } else {
      var b' := b[..|b| - 1];
      assert a + b == (a + b') + [b[|b| - 1]];
      TotalSnoc(a + b', b[|b| - 1]);
      TotalSnoc(b', b[|b| - 1]);
      assert b == b' + [b[|b| - 1]];
      TotalAppend(a, b');
    }
  }

  lemma {:induction false} TotalNonNegative(ts: seq<Transaction>)
    requires NonNegative(ts)
    ensures Total(ts) >= 0.0
    decreases |ts|
  {
    if ts != [] {
      var ts' := ts[..|ts| - 1];
      assert forall t :: t in ts' ==> t in ts;
      TotalNonNegative(ts');
      assert ts[|ts| - 1] in ts;
    }
  }

  /** A filtered list of non-negative amounts is again non-negative and sums to at most the whole. */
  lemma {:induction false} FilterTotalBounded(ts: seq<Transaction>, p: Transaction -> bool)
    requires NonNegative(ts)
    ensures NonNegative(Filter(ts, p))
    ensures Total(Filter(ts, p)) <= Total(ts)
    decreases |ts|
  {
    if ts != [] {
      var ts' := ts[..|ts| - 1];
      assert forall t :: t in ts' ==> t in ts;
      assert ts[|ts| - 1] in ts;
      FilterTotalBounded(ts', p);
      var x := ts[|ts| - 1];
      if p(x) {
        assert Filter(ts, p) == Filter(ts', p) + [x];
        TotalSnoc(Filter(ts', p), x);
      } else {
        assert Filter(ts, p) == Filter(ts', p);
      }
    }
  }

  /** Every transaction is income or expense, so the two totals add up to the whole. */
  lemma {:induction false} KindPartition(ts: seq<Transaction>)
    ensures IncomeTotal(ts) + ExpenseTotal(ts) == Total(ts)
    decreases |ts|
  {
    if ts != [] {
      var ts' := ts[..|ts| - 1];
      var x := ts[|ts| - 1];
      KindPartition(ts');
      if x.kind == Income {
        assert OfKind(ts, Income) == OfKind(ts', Income) + [x];
        assert OfKind(ts, Expense) == OfKind(ts', Expense);
        TotalSnoc(OfKind(ts', Income), x);
      } else {
        assert OfKind(ts, Expense) == OfKind(ts', Expense) + [x];
        assert OfKind(ts, Income) == OfKind(ts', Income);
        TotalSnoc(OfKind(ts', Expense), x);
      }
    }
  }
}
