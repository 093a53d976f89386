/** The budgets page: one budget per category with a period and an alert threshold, the
    amount spent in the budget's current period, its three-way status, the page totals, and
    the create/edit/delete updates persisted through `saveBudgets`. The current week, month
    and year arrive as a `Calendar`. */
module Budgets {
  import opened Wrappers
  import opened Seqs
  import opened Ledger
  import opened Grouping
  import opened Storage

  /** The current week (Sunday to Saturday), calendar month and calendar year. */
  datatype Calendar = Calendar(week: Window, month: Window, year: Window)

  /** The window `calculateSpent` selects for a period; anything unrecognised means monthly. */
  function PeriodWindow(period: string, cal: Calendar): (w: Window)
    ensures period == "weekly" ==> w == cal.week
    ensures period == "yearly" ==> w == cal.year
    ensures period != "weekly" && period != "yearly" ==> w == cal.month
  {
    if period == "weekly" then cal.week
    else if period == "monthly" then cal.month
    else if period == "yearly" then cal.year
    else cal.month
  }

  /** `calculateSpent`: the expenses of the category dated inside the period's window, which is
      the category's total in the breakdown of that window's expenses. */
  function CalculateSpent(ts: seq<Transaction>, category: string, period: string, cal: Calendar): (r: real)
    ensures r == CategoryTotal(OfKind(InWindow(ts, PeriodWindow(period, cal)), Expense), category)
  {
    SpentIsCategoryTotal(ts, category, PeriodWindow(period, cal));
    CategorySpending(ts, category, PeriodWindow(period, cal))
  }

  /** The one-pass filter of `calculateSpent` is the breakdown's value for the category, taken
      over the window's expenses: filtering by window, then kind, then category. */
  lemma SpentIsCategoryTotal(ts: seq<Transaction>, category: string, w: Window)
    ensures CategorySpending(ts, category, w) == CategoryTotal(OfKind(InWindow(ts, w), Expense), category)
  {
    var inWindow := (t: Transaction) => Within(t.date, w);
    var isExpense := (t: Transaction) => t.kind == Expense;
    var inCategory := (t: Transaction) => t.category == category;
    var both := (t: Transaction) => Within(t.date, w) && t.kind == Expense;
    var all := (t: Transaction) => t.kind == Expense && t.category == category && Within(t.date, w);
    FilterFilter(ts, inWindow, isExpense, both);
    FilterFilter(ts, both, inCategory, all);
    CategoryTotalIsFilter(OfKind(InWindow(ts, w), Expense), category);
  }

  /** With non-negative amounts, what a budget has spent lies between zero and all the
      expenses of its window; an unknown period counts like a monthly one. */
  lemma SpentBounds(ts: seq<Transaction>, category: string, period: string, cal: Calendar)
    requires NonNegative(ts)
    ensures 0.0 <= CalculateSpent(ts, category, period, cal) <= ExpenseTotal(InWindow(ts, PeriodWindow(period, cal)))
    ensures period !in {"weekly", "monthly", "yearly"} ==>
              CalculateSpent(ts, category, period, cal) == CalculateSpent(ts, category, "monthly", cal)
  {
    var w := PeriodWindow(period, cal);
    var expenses := OfKind(InWindow(ts, w), Expense);
    SpentIsCategoryTotal(ts, category, w);
    FilterTotalBounded(ts, (t: Transaction) => Within(t.date, w));
    FilterTotalBounded(InWindow(ts, w), (t: Transaction) => t.kind == Expense);
    CategoryTotalIsFilter(expenses, category);
    FilterTotalBounded(expenses, (t: Transaction) => t.category == category);
    TotalNonNegative(Filter(expenses, (t: Transaction) => t.category == category));
  }

  // ---------------------------------------------------------------- status

  datatype Status = Good | Warning | Exceeded

  datatype BudgetState = BudgetState(spent: real, percentage: real, remaining: real, status: Status)

  /** The status ladder: exceeded from 100% on, warning from the alert threshold on. */
  function Classify(percentage: real, alertThreshold: int): (s: Status)
    ensures s == Exceeded <==> percentage >= 100.0
    ensures s == Warning <==> percentage < 100.0 && percentage >= alertThreshold as real
    ensures s == Good <==> percentage < 100.0 && percentage < alertThreshold as real
  {
    if percentage >= 100.0 then Exceeded
    else if percentage >= alertThreshold as real then Warning
    else Good
  }

  /** `(spent / amount) * 100`. */
  function Percentage(spent: real, amount: real): (p: real)
    requires amount > 0.0
    ensures p * amount == spent * 100.0
    ensures p >= 100.0 <==> spent >= amount
  {
    var p := spent / amount * 100.0;
    assert p * amount == spent * 100.0;
    p
  }

  /** Reaching a threshold percentage is reaching that share of the amount. */
  lemma PercentageReaches(spent: real, amount: real, threshold: real)
    requires amount > 0.0
    ensures Percentage(spent, amount) >= threshold <==> spent * 100.0 >= threshold * amount
  {
    var p := Percentage(spent, amount);
    assert p * amount == spent * 100.0;
    if p >= threshold {
      assert p * amount >= threshold * amount;
    } else {
      assert p * amount < threshold * amount;
    }
  }

  /** The state shown for a budget of `amount` with `spent` against it. */
  function StateOf(spent: real, amount: real, alertThreshold: int): (s: BudgetState)
    requires amount > 0.0
    ensures s.spent == spent && s.remaining == amount - spent
    ensures s.percentage * amount == spent * 100.0
    ensures s.status == Exceeded <==> spent >= amount
    ensures s.status == Warning <==> spent < amount && spent * 100.0 >= alertThreshold as real * amount
    ensures s.status == Good <==> spent < amount && spent * 100.0 < alertThreshold as real * amount
  {
    var percentage := Percentage(spent, amount);
    PercentageReaches(spent, amount, alertThreshold as real);
    BudgetState(spent, percentage, amount - spent, Classify(percentage, alertThreshold))
  }

  /** `getBudgetStatus`: exceeded exactly when the spending reaches the amount, warning when it
      reaches the threshold's share of the amount but not the amount, good otherwise. */
  function GetBudgetStatus(b: Budget, ts: seq<Transaction>, cal: Calendar): (s: BudgetState)
    requires b.amount > 0.0
    ensures s.spent == CalculateSpent(ts, b.category, b.period, cal)
    ensures s == StateOf(s.spent, b.amount, b.alertThreshold)
  {
    StateOf(CalculateSpent(ts, b.category, b.period, cal), b.amount, b.alertThreshold)
  }

  // ---------------------------------------------------------------- totals

  /** `budgets.reduce((sum, b) => sum + b.amount, 0)`: summed from the front it is the same;
      with non-negative amounts it is non-negative. */
  function TotalBudget(bs: seq<Budget>): (r: real)
    ensures bs != [] ==> r == bs[0].amount + TotalBudget(bs[1..])
    ensures (forall k :: 0 <= k < |bs| ==> bs[k].amount >= 0.0) ==> r >= 0.0
    decreases |bs|
  {
    if bs == [] then 0.0
    else
      var n := |bs| - 1;
      assert n > 0 ==> bs[..n][1..] == bs[1..][..n - 1];
      TotalBudget(bs[..n]) + bs[n].amount
  }

  /** `budgets.reduce((sum, b) => sum + calculateSpent(b.category, b.period), 0)`: whatever the
      periods, the first budget's `spent` plus the total of the rest, and 0 for no budgets. */
  function TotalSpent(bs: seq<Budget>, ts: seq<Transaction>, cal: Calendar): (r: real)
    ensures bs == [] ==> r == 0.0
    ensures bs != [] ==> r == CalculateSpent(ts, bs[0].category, bs[0].period, cal) + TotalSpent(bs[1..], ts, cal)
    decreases |bs|
  {
    if bs == [] then 0.0
    else
      var n := |bs| - 1;
      assert n > 0 ==> bs[..n][1..] == bs[1..][..n - 1];
      TotalSpent(bs[..n], ts, cal) + CalculateSpent(ts, bs[n].category, bs[n].period, cal)
  }

  /** Monthly budgets' spending, summed, is the breakdown of the month's expenses restricted to
      the budgeted categories. */
  lemma {:induction false} MonthlySpentIsTabulated(bs: seq<Budget>, ts: seq<Transaction>, cal: Calendar)
    requires forall k :: 0 <= k < |bs| ==> PeriodWindow(bs[k].period, cal) == cal.month
    ensures TotalSpent(bs, ts, cal) == EntriesTotal(Tabulate(CategoriesOf(bs), OfKind(InWindow(ts, cal.month), Expense)))
    decreases |bs|
  {
    if bs != [] {
      var es := OfKind(InWindow(ts, cal.month), Expense);
      var n := |bs| - 1;
      MonthlySpentIsTabulated(bs[..n], ts, cal);
      assert CategoriesOf(bs)[..n] == CategoriesOf(bs[..n]);
      assert Tabulate(CategoriesOf(bs), es)[..n] == Tabulate(CategoriesOf(bs[..n]), es);
    }
  }

  function CategoriesOf(bs: seq<Budget>): (cs: seq<string>)
    ensures |cs| == |bs| && forall k :: 0 <= k < |bs| ==> cs[k] == bs[k].category
  {
    seq(|bs|, k requires 0 <= k < |bs| => bs[k].category)
  }

  /** With one monthly budget per category and non-negative amounts, the page's total spent
      never exceeds the month's expenses. */
  lemma TotalSpentWithinMonth(bs: seq<Budget>, ts: seq<Transaction>, cal: Calendar)
    requires forall k :: 0 <= k < |bs| ==> PeriodWindow(bs[k].period, cal) == cal.month
    requires UniqueCategories(bs)
    requires NonNegative(ts)
    ensures TotalSpent(bs, ts, cal) <= ExpenseTotal(InWindow(ts, cal.month))
  {
    var es := OfKind(InWindow(ts, cal.month), Expense);
    MonthlySpentIsTabulated(bs, ts, cal);
    FilterTotalBounded(ts, (t: Transaction) => Within(t.date, cal.month));
    FilterTotalBounded(InWindow(ts, cal.month), (t: Transaction) => t.kind == Expense);
    TabulateBounded(CategoriesOf(bs), es);
  }

  predicate UniqueCategories(bs: seq<Budget>) {
    forall i, j :: 0 <= i < j < |bs| ==> bs[i].category != bs[j].category
  }

  // ---------------------------------------------------------------- create, edit, delete

  /** The modal's fields, as typed. */
  datatype BudgetForm = BudgetForm(category: string, amount: string, period: string,
                                   alertThreshold: string, notes: string)

  /** The budget a submission saves: the edited budget's id and creation time survive an edit;
      `amount` and `alertThreshold` are the parsed form values. */
  function Saved(form: BudgetForm, amount: real, alertThreshold: int, editing: Option<Budget>,
                 newId: string, now: string): (b: Budget)
    ensures editing.Some? ==> b.id == editing.value.id && b.createdAt == editing.value.createdAt
    ensures editing.None? ==> b.id == newId && b.createdAt == now
    ensures b.updatedAt == now && b.category == form.category && b.amount == amount
    ensures b.period == form.period && b.notes == form.notes && b.alertThreshold == alertThreshold
  {
    Budget(if editing.Some? then editing.value.id else newId,
           form.category, amount, form.period, alertThreshold, form.notes,
           if editing.Some? then editing.value.createdAt else now, now)
  }

  /** `budgets.some(b => b.category === category)`. */
  predicate HasCategory(bs: seq<Budget>, category: string) {
    exists i :: 0 <= i < |bs| && bs[i].category == category
  }

  /** `handleSubmit`'s list update: empty required fields are refused; creating a second budget
      for a category is refused; a creation appends, an edit replaces every entry with the
      edited id. */
  function SubmitBudget(bs: seq<Budget>, editing: Option<Budget>, form: BudgetForm, amount: real,
                        alertThreshold: int, newId: string, now: string): (r: Result<seq<Budget>, string>)
    ensures form.category == "" || form.amount == "" ==> r == Failure("Please fill in all required fields")
    ensures form.category != "" && form.amount != "" && editing.None? ==>
              (r.Failure? <==> HasCategory(bs, form.category))
    ensures form.category != "" && form.amount != "" && r.Failure? ==>
              r.error == "A budget already exists for this category"
    ensures form.category != "" && form.amount != "" && editing.Some? ==> r.Success?
    ensures r.Success? && editing.None? ==>
              |r.value| == |bs| + 1 && r.value[..|bs|] == bs &&
              r.value[|bs|] == Saved(form, amount, alertThreshold, editing, newId, now)
    ensures r.Success? && editing.Some? ==>
              |r.value| == |bs| &&
              forall i :: 0 <= i < |bs| ==>
                r.value[i] == if bs[i].id == editing.value.id then Saved(form, amount, alertThreshold, editing, newId, now)
                              else bs[i]
  {
    if form.category == "" || form.amount == "" then
      Failure("Please fill in all required fields")
    else if editing.None? && Find(bs, (b: Budget) => b.category == form.category).Some? then
      Failure("A budget already exists for this category")
    else
      var budget := Saved(form, amount, alertThreshold, editing, newId, now);
      if editing.Some? then
        Success(MapWhere(bs, (b: Budget) => b.id == editing.value.id, (b: Budget) => budget))
      else
        Success(bs + [budget])
  }

  /** Creation keeps the one-budget-per-category rule. */
  lemma CreateKeepsCategoriesUnique(bs: seq<Budget>, form: BudgetForm, amount: real, alertThreshold: int,
                                    newId: string, now: string)
    requires UniqueCategories(bs)
    requires SubmitBudget(bs, None, form, amount, alertThreshold, newId, now).Success?
    ensures UniqueCategories(SubmitBudget(bs, None, form, amount, alertThreshold, newId, now).value)
  {
    var r := SubmitBudget(bs, None, form, amount, alertThreshold, newId, now).value;
    forall i, j | 0 <= i < j < |r| ensures r[i].category != r[j].category {
      assert r[i] == bs[i];
      if j < |bs| {
        assert r[j] == bs[j];
      }
    }
  }

  /** Editing skips the category check, so an edit can give two budgets the same category. */
  lemma EditMayDuplicateCategory()
    ensures var food := Budget("1", "Food & Dining", 100.0, "monthly", 80, "", "t0", "t0");
            var travel := Budget("2", "Travel", 50.0, "monthly", 80, "", "t0", "t0");
            var form := BudgetForm("Food & Dining", "50", "monthly", "80", "");
            UniqueCategories([food, travel]) &&
            SubmitBudget([food, travel], Some(travel), form, 50.0, 80, "3", "t1").Success? &&
            !UniqueCategories(SubmitBudget([food, travel], Some(travel), form, 50.0, 80, "3", "t1").value)
  {
    var food := Budget("1", "Food & Dining", 100.0, "monthly", 80, "", "t0", "t0");
    var travel := Budget("2", "Travel", 50.0, "monthly", 80, "", "t0", "t0");
    var form := BudgetForm("Food & Dining", "50", "monthly", "80", "");
    var r := SubmitBudget([food, travel], Some(travel), form, 50.0, 80, "3", "t1").value;
    assert r[0] == food;
    assert r[1].category == "Food & Dining";
  }

  /** `budgets.filter(b => b.id !== id)`: exactly the budgets with another id; a list without
      the id is left as it is. */
  function DeleteBudget(bs: seq<Budget>, id: string): (r: seq<Budget>)
    ensures forall b :: b in r <==> b in bs && b.id != id
    ensures (forall k :: 0 <= k < |bs| ==> bs[k].id != id) ==> r == bs
  {
    NoSuchIdKeepsAll(bs, id);
    Filter(bs, (b: Budget) => b.id != id)
  }

  lemma NoSuchIdKeepsAll(bs: seq<Budget>, id: string)
    ensures (forall k :: 0 <= k < |bs| ==> bs[k].id != id) ==> Filter(bs, (b: Budget) => b.id != id) == bs
  {
    if forall k :: 0 <= k < |bs| ==> bs[k].id != id {
      FilterKeepsAll(bs, (b: Budget) => b.id != id);
    }
  }

  lemma TotalBudgetAppend(a: seq<Budget>, b: seq<Budget>)
    ensures TotalBudget(a + b) == TotalBudget(a) + TotalBudget(b)
    decreases |b|
  {
    if b == [] {
      assert a + b == a;
    } else {
      var n := |b| - 1;
      assert (a + b)[..|a + b| - 1] == a + b[..n];
      TotalBudgetAppend(a, b[..n]);
    }
  }

  /** Deleting splits over concatenation, so the kept budgets stay in their order. */
  lemma DeleteSpec(bs: seq<Budget>, id: string)
    ensures forall more :: DeleteBudget(bs + more, id) == DeleteBudget(bs, id) + DeleteBudget(more, id)
  {
    forall more ensures DeleteBudget(bs + more, id) == DeleteBudget(bs, id) + DeleteBudget(more, id) {
      FilterAppend(bs, more, (b: Budget) => b.id != id);
    }
  }

  /** Deleting takes exactly the deleted budgets' amounts off the budgeted total. */
  lemma DeleteTotal(bs: seq<Budget>, id: string)
    ensures TotalBudget(bs) == TotalBudget(DeleteBudget(bs, id)) + TotalBudget(Filter(bs, (b: Budget) => b.id == id))
  {
    SplitTotal(bs, id);
  }

  /** The budgets with another id and those with this id share the total between them. */
  lemma {:induction false} SplitTotal(bs: seq<Budget>, id: string)
    ensures TotalBudget(bs) == TotalBudget(Filter(bs, (b: Budget) => b.id != id))
                               + TotalBudget(Filter(bs, (b: Budget) => b.id == id))
    decreases |bs|
  {
    if bs != [] {
      var n := |bs| - 1;
      var x := bs[n];
      var kept := Filter(bs[..n], (b: Budget) => b.id != id);
      var gone := Filter(bs[..n], (b: Budget) => b.id == id);
      SplitTotal(bs[..n], id);
      assert TotalBudget(bs) == TotalBudget(bs[..n]) + x.amount;
      if x.id != id {
        assert Filter(bs, (b: Budget) => b.id != id) == kept + [x];
        assert Filter(bs, (b: Budget) => b.id == id) == gone + [];
        assert gone + [] == gone;
        TotalBudgetSnoc(kept, x);
      } else {
        assert Filter(bs, (b: Budget) => b.id != id) == kept + [];
        assert kept + [] == kept;
        assert Filter(bs, (b: Budget) => b.id == id) == gone + [x];
        TotalBudgetSnoc(gone, x);
      }
    }
  }

  lemma TotalBudgetSnoc(a: seq<Budget>, x: Budget)
    ensures TotalBudget(a + [x]) == TotalBudget(a) + x.amount
  {
    assert (a + [x])[..|a|] == a;
  }

  // ---------------------------------------------------------------- the page

  class BudgetsPage {
    var budgets: seq<Budget>
    var editing: Option<Budget>
    const transactions: seq<Transaction>
    const browser: Browser
    /** The key the page keeps its budgets under. */
    const storageKey: string

    /** `loadData`. */
    constructor(browser: Browser, storageKey: string, transactionsKey: string)
      ensures this.browser == browser && this.storageKey == storageKey
      ensures budgets == BudgetsAt(browser.local, storageKey)
      ensures transactions == TransactionsAt(browser.local, transactionsKey)
      ensures editing == None
    {
      this.browser := browser;
      this.storageKey := storageKey;
      budgets := BudgetsAt(browser.local, storageKey);
      transactions := TransactionsAt(browser.local, transactionsKey);
      editing := None;
    }

    /** `handleEdit`. */
    method HandleEdit(b: Budget)
      modifies this
      ensures editing == Some(b) && budgets == old(budgets)
    {
      editing := Some(b);
    }

    /** `handleSubmit`: a refused submission changes nothing and reports its message; an
        accepted one is saved to state and storage, and the modal leaves edit mode. */
    method HandleSubmit(form: BudgetForm, amount: real, alertThreshold: int, newId: string, now: string)
      returns (error: Option<string>)
      modifies this, browser
      ensures var r := SubmitBudget(old(budgets), old(editing), form, amount, alertThreshold, newId, now);
              (r.Failure? ==> error == Some(r.error) && budgets == old(budgets) && editing == old(editing) &&
                              browser.local == old(browser.local)) &&
              (r.Success? ==> error == None && budgets == r.value && editing == None &&
                              browser.local == old(browser.local)[storageKey := BudgetList(r.value)])
      ensures browser.session == old(browser.session)
    {
      var r := SubmitBudget(budgets, editing, form, amount, alertThreshold, newId, now);
      if r.Failure? {
        return Some(r.error);
      }
      Save(r.value);
      editing := None;
      error := None;
    }

    /** `handleDelete`, after the confirmation dialog. */
    method HandleDelete(id: string, confirmed: bool)
      modifies this, browser
      ensures confirmed ==> budgets == DeleteBudget(old(budgets), id) &&
                            browser.local == old(browser.local)[storageKey := BudgetList(budgets)]
      ensures !confirmed ==> budgets == old(budgets) && browser.local == old(browser.local)
      ensures editing == old(editing) && browser.session == old(browser.session)
    {
      if confirmed {
        Save(DeleteBudget(budgets, id));
      }
    }

    /** `saveBudgets`: state and storage always hold the same list. */
    method Save(updated: seq<Budget>)
      modifies this, browser
      ensures budgets == updated && editing == old(editing)
      ensures browser.local == old(browser.local)[storageKey := BudgetList(updated)]
      ensures browser.session == old(browser.session)
      ensures BudgetsAt(browser.local, storageKey) == budgets
    {
      browser.local := browser.local[storageKey := BudgetList(updated)];
      budgets := updated;
    }
  }
}
