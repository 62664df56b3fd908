/** `insights_summary` of core/views.py: one row per budget of the caller,
    comparing the planned amount with what was actually spent (expense
    budgets) or saved (saving budgets) in the chosen scope. */
module Insights {
  import opened Wrappers
  import opened Text
  import opened Records

  /** `planned`, `actual` and `difference` in cents. */
  datatype InsightRow = InsightRow(category: string, subcategory: string, planned: int, actual: int, difference: int)

  /** `scope` defaults to "month"; any other value, the empty one included,
      means all time. */
  predicate MonthScope(scopeParam: Option<string>) {
    scopeParam.GetOr("month") == "month"
  }

  /** Only a missing `scope` or exactly "month" selects the month; "all", an
      empty value or another spelling of "month" selects all time. */
  lemma ScopeParameter()
    ensures MonthScope(None) && MonthScope(Some("month"))
    ensures !MonthScope(Some("all")) && !MonthScope(Some("")) && !MonthScope(Some("Month"))
  {
  }

  /** `date__year=today.year, date__month=today.month` when the scope is the month. */
  predicate InScope(date: string, monthOnly: bool, today: string) {
    !monthOnly || (|date| >= 7 && |today| >= 7 && date[..7] == today[..7])
  }

  /** An expense counted against an expense budget for `sub`. */
  predicate CountsAsSpent(caller: UserId, monthOnly: bool, today: string, sub: string, e: Expense) {
    e.user == caller && InScope(e.date, monthOnly, today) && IEquals(e.category, sub)
  }

  /** An income counted against a saving budget for `sub`. */
  predicate CountsAsSaved(caller: UserId, monthOnly: bool, today: string, sub: string, i: Income) {
    i.user == caller && InScope(i.date, monthOnly, today) && (IContains(i.remark, sub) || IContains(i.source, sub))
  }

  /** `Sum("amount")` over the counted expenses, 0 when there are none. */
  function Spent(caller: UserId, expenses: seq<Expense>, monthOnly: bool, today: string, sub: string): (total: int)
    ensures (forall e :: e in expenses ==> e.amount >= 0) ==> total >= 0
  {
    if expenses == [] then 0
    else
      var e := expenses[|expenses| - 1];
      Spent(caller, expenses[..|expenses| - 1], monthOnly, today, sub)
      + (if CountsAsSpent(caller, monthOnly, today, sub, e) then e.amount else 0)
  }

  /** `Sum("amount")` over the counted incomes, 0 when there are none. */
  function Saved(caller: UserId, incomes: seq<Income>, monthOnly: bool, today: string, sub: string): (total: int)
    ensures (forall i :: i in incomes ==> i.amount >= 0) ==> total >= 0
  {
    if incomes == [] then 0
    else
      var i := incomes[|incomes| - 1];
      Saved(caller, incomes[..|incomes| - 1], monthOnly, today, sub)
      + (if CountsAsSaved(caller, monthOnly, today, sub, i) then i.amount else 0)
  }

  /** The category of a budget as the view reads it: stripped and lower-cased. */
  function BudgetKind(b: Budget): string {
    Lower(Strip(b.category))
  }

  /** The `actual` of one budget: spent expenses for "expense", saved incomes
      for "saving"/"savings", 0 for any other category. */
  function BudgetActual(caller: UserId, incomes: seq<Income>, expenses: seq<Expense>, monthOnly: bool, today: string, b: Budget): int {
    var sub := Strip(b.subcategory);
    if BudgetKind(b) == "expense" then Spent(caller, expenses, monthOnly, today, sub)
    else if BudgetKind(b) == "saving" || BudgetKind(b) == "savings" then Saved(caller, incomes, monthOnly, today, sub)
    else 0
  }

  /** `Budget.objects.filter(user=caller)`, in store order. */
  function OwnedBudgets(caller: UserId, budgets: seq<Budget>): (owned: seq<Budget>)
    ensures |owned| <= |budgets|
  {
    if budgets == [] then []
    else
      var b := budgets[|budgets| - 1];
      OwnedBudgets(caller, budgets[..|budgets| - 1]) + (if b.user == caller then [b] else [])
  }

  /** The owned budgets are exactly the caller's budgets. */
  lemma {:induction false} OwnedBudgetsMembers(caller: UserId, budgets: seq<Budget>, b: Budget)
    ensures b in OwnedBudgets(caller, budgets) <==> b in budgets && b.user == caller
  {
    if budgets != [] {
      var init := budgets[..|budgets| - 1];
      OwnedBudgetsMembers(caller, init, b);
      assert budgets == init + [budgets[|budgets| - 1]];
    }
  }

  /** The row the view emits for budget `b` whose actual is `actual`: the
      stored category and subcategory, the amount as planned, and
      `difference = actual - planned`. */
  predicate Describes(row: InsightRow, b: Budget, actual: int) {
    && row.category == b.category
    && row.subcategory == b.subcategory
    && row.planned == b.amount
    && row.actual == actual
    && row.difference == row.actual - row.planned
  }

  /** The row emitted for budget `b`. */
  function RowFor(caller: UserId, incomes: seq<Income>, expenses: seq<Expense>, monthOnly: bool, today: string, b: Budget)
    : InsightRow
  {
    var actual := BudgetActual(caller, incomes, expenses, monthOnly, today, b);
    InsightRow(b.category, b.subcategory, b.amount, actual, actual - b.amount)
  }

  /** The rows for `owned`, one per budget, in order. */
  function RowsFor(caller: UserId, incomes: seq<Income>, expenses: seq<Expense>, monthOnly: bool, today: string,
                   owned: seq<Budget>): (rows: seq<InsightRow>)
    ensures |rows| == |owned|
  {
    if owned == [] then []
    else
      RowsFor(caller, incomes, expenses, monthOnly, today, owned[..|owned| - 1])
      + [RowFor(caller, incomes, expenses, monthOnly, today, owned[|owned| - 1])]
  }

  /** Each row describes the budget in the same position. */
  lemma {:induction false} RowsForDescribe(caller: UserId, incomes: seq<Income>, expenses: seq<Expense>, monthOnly: bool,
                                           today: string, owned: seq<Budget>)
    ensures forall j :: 0 <= j < |owned| ==>
      Describes(RowsFor(caller, incomes, expenses, monthOnly, today, owned)[j], owned[j],
                BudgetActual(caller, incomes, expenses, monthOnly, today, owned[j]))
  {
    if owned != [] {
      var init := owned[..|owned| - 1];
      RowsForDescribe(caller, incomes, expenses, monthOnly, today, init);
      var rows := RowsFor(caller, incomes, expenses, monthOnly, today, owned);
      forall j | 0 <= j < |owned|
        ensures Describes(rows[j], owned[j], BudgetActual(caller, incomes, expenses, monthOnly, today, owned[j]))
      {
        if j < |init| {
          assert rows[j] == RowsFor(caller, incomes, expenses, monthOnly, today, init)[j];
          assert owned[j] == init[j];
        }
      }
    }
  }

  /** `insights_summary`: one row per budget of the caller, in store order,
      each describing its budget with the actual of the budget's kind. */
  method InsightsSummary(caller: UserId, incomes: seq<Income>, expenses: seq<Expense>, budgets: seq<Budget>,
                         scopeParam: Option<string>, today: string)
    returns (rows: seq<InsightRow>)
    ensures rows == RowsFor(caller, incomes, expenses, MonthScope(scopeParam), today, OwnedBudgets(caller, budgets))
    ensures |rows| == |OwnedBudgets(caller, budgets)|
    ensures forall j :: 0 <= j < |rows| ==>
      Describes(rows[j], OwnedBudgets(caller, budgets)[j],
                BudgetActual(caller, incomes, expenses, MonthScope(scopeParam), today, OwnedBudgets(caller, budgets)[j]))
  {
    var monthOnly := MonthScope(scopeParam);
    rows := [];
    ghost var owned: seq<Budget> := [];
    for k := 0 to |budgets|
      invariant owned == OwnedBudgets(caller, budgets[..k])
      invariant rows == RowsFor(caller, incomes, expenses, monthOnly, today, owned)
    {
      var b := budgets[k];
      assert budgets[..k + 1][..k] == budgets[..k];
      if b.user == caller {
        rows := rows + [RowFor(caller, incomes, expenses, monthOnly, today, b)];
        assert (owned + [b])[..|owned|] == owned;
        owned := owned + [b];
      }
    }
    assert budgets[..|budgets|] == budgets;
    RowsForDescribe(caller, incomes, expenses, monthOnly, today, owned);
  }

  /** A budget whose category is not expense, saving or savings (after strip
      and lower-casing) has an actual of 0, whatever was recorded. */
  lemma OtherBudgetsHaveNoActual(caller: UserId, incomes: seq<Income>, expenses: seq<Expense>, monthOnly: bool, today: string, b: Budget)
    requires BudgetKind(b) !in ["expense", "saving", "savings"]
    ensures BudgetActual(caller, incomes, expenses, monthOnly, today, b) == 0
  {
  }

  /** The category test ignores the blanks around the stored category and
      its case. */
  lemma BudgetKindOfPadded(b: Budget, w1: string, t: string, w2: string)
    requires AllSpace(w1) && AllSpace(w2) && IsTrimmed(t) && b.category == w1 + t + w2
    ensures BudgetKind(b) == Lower(t)
  {
    StripSurroundingBlanks(w1, t, w2);
  }

  /** Any spelling of "Expense" in any case, with any surrounding blanks,
      makes an expense budget. */
  lemma ExpenseBudgetKind(b: Budget, w1: string, t: string, w2: string)
    requires AllSpace(w1) && AllSpace(w2) && IEquals(t, "Expense") && b.category == w1 + t + w2
    ensures BudgetKind(b) == "expense"
  {
    LowerOfExpense();
    assert |t| == 7;
    LowerAt(t, 0);
    LowerAt(t, 6);
    assert Lower(t)[0] == 'e' && Lower(t)[6] == 'e';
    assert IsTrimmed(t);
    BudgetKindOfPadded(b, w1, t, w2);
  }

  lemma {:induction false} SpentAppend(caller: UserId, xs: seq<Expense>, ys: seq<Expense>, monthOnly: bool, today: string, sub: string)
    ensures Spent(caller, xs + ys, monthOnly, today, sub)
         == Spent(caller, xs, monthOnly, today, sub) + Spent(caller, ys, monthOnly, today, sub)
  {
    if ys == [] {
      assert xs + ys == xs;
    } else {
      var init := ys[..|ys| - 1];
      SpentAppend(caller, xs, init, monthOnly, today, sub);
      assert (xs + ys)[..|xs + ys| - 1] == xs + init;
    }
  }

  lemma {:induction false} SavedAppend(caller: UserId, xs: seq<Income>, ys: seq<Income>, monthOnly: bool, today: string, sub: string)
    ensures Saved(caller, xs + ys, monthOnly, today, sub)
         == Saved(caller, xs, monthOnly, today, sub) + Saved(caller, ys, monthOnly, today, sub)
  {
    if ys == [] {
      assert xs + ys == xs;
    } else {
      var init := ys[..|ys| - 1];
      SavedAppend(caller, xs, init, monthOnly, today, sub);
      assert (xs + ys)[..|xs + ys| - 1] == xs + init;
    }
  }

  lemma {:induction false} SpentByOthersIsZero(caller: UserId, others: seq<Expense>, monthOnly: bool, today: string, sub: string)
    requires forall e :: e in others ==> e.user != caller
    ensures Spent(caller, others, monthOnly, today, sub) == 0
  {
    if others != [] {
      assert others[|others| - 1] in others;
      SpentByOthersIsZero(caller, others[..|others| - 1], monthOnly, today, sub);
    }
  }

  lemma {:induction false} SavedByOthersIsZero(caller: UserId, others: seq<Income>, monthOnly: bool, today: string, sub: string)
    requires forall i :: i in others ==> i.user != caller
    ensures Saved(caller, others, monthOnly, today, sub) == 0
  {
    if others != [] {
      assert others[|others| - 1] in others;
      SavedByOthersIsZero(caller, others[..|others| - 1], monthOnly, today, sub);
    }
  }

  /** Records of other users never change a budget's actual. */
  lemma ActualIgnoresOtherUsers(caller: UserId, incomes: seq<Income>, expenses: seq<Expense>,
                                otherIncomes: seq<Income>, otherExpenses: seq<Expense>,
                                monthOnly: bool, today: string, b: Budget)
    requires forall i :: i in otherIncomes ==> i.user != caller
    requires forall e :: e in otherExpenses ==> e.user != caller
    ensures BudgetActual(caller, incomes + otherIncomes, expenses + otherExpenses, monthOnly, today, b)
         == BudgetActual(caller, incomes, expenses, monthOnly, today, b)
  {
    var sub := Strip(b.subcategory);
    SpentAppend(caller, expenses, otherExpenses, monthOnly, today, sub);
    SpentByOthersIsZero(caller, otherExpenses, monthOnly, today, sub);
    SavedAppend(caller, incomes, otherIncomes, monthOnly, today, sub);
    SavedByOthersIsZero(caller, otherIncomes, monthOnly, today, sub);
  }

  /** With non-negative amounts, the month's actual never exceeds the all-time one. */
  lemma {:induction false} SpentInMonthAtMostAllTime(caller: UserId, expenses: seq<Expense>, today: string, sub: string)
    requires forall e :: e in expenses ==> e.amount >= 0
    ensures Spent(caller, expenses, true, today, sub) <= Spent(caller, expenses, false, today, sub)
  {
    if expenses != [] {
      assert expenses[|expenses| - 1] in expenses;
      SpentInMonthAtMostAllTime(caller, expenses[..|expenses| - 1], today, sub);
    }
  }

  lemma {:induction false} SavedInMonthAtMostAllTime(caller: UserId, incomes: seq<Income>, today: string, sub: string)
    requires forall i :: i in incomes ==> i.amount >= 0
    ensures Saved(caller, incomes, true, today, sub) <= Saved(caller, incomes, false, today, sub)
  {
    if incomes != [] {
      assert incomes[|incomes| - 1] in incomes;
      SavedInMonthAtMostAllTime(caller, incomes[..|incomes| - 1], today, sub);
    }
  }

  lemma MonthActualAtMostAllTime(caller: UserId, incomes: seq<Income>, expenses: seq<Expense>, today: string, b: Budget)
    requires forall i :: i in incomes ==> i.amount >= 0
    requires forall e :: e in expenses ==> e.amount >= 0
    ensures BudgetActual(caller, incomes, expenses, true, today, b) <= BudgetActual(caller, incomes, expenses, false, today, b)
  {
    SpentInMonthAtMostAllTime(caller, expenses, today, Strip(b.subcategory));
    SavedInMonthAtMostAllTime(caller, incomes, today, Strip(b.subcategory));
  }

  /** A saving budget with a blank subcategory counts every income of the
      caller in scope, since every text contains the empty string. */
  lemma {:induction false} BlankSubcategorySavesEverything(caller: UserId, incomes: seq<Income>, monthOnly: bool, today: string)
    ensures Saved(caller, incomes, monthOnly, today, "") == ScopedIncomeTotal(caller, incomes, monthOnly, today)
  {
    if incomes != [] {
      BlankSubcategorySavesEverything(caller, incomes[..|incomes| - 1], monthOnly, today);
      var i := incomes[|incomes| - 1];
      assert Lower("") == "";
      assert IContains(i.remark, "");
    }
  }

  /** The total of the caller's incomes in scope. */
  function ScopedIncomeTotal(caller: UserId, incomes: seq<Income>, monthOnly: bool, today: string): int {
    if incomes == [] then 0
    else
      var i := incomes[|incomes| - 1];
      ScopedIncomeTotal(caller, incomes[..|incomes| - 1], monthOnly, today)
      + (if i.user == caller && InScope(i.date, monthOnly, today) then i.amount else 0)
  }
}
