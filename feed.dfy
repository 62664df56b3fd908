/** `transaction_history` of core/views.py: the caller's incomes and expenses
    that pass the query's filters, mapped to one row shape, merged, sorted
    newest first by `(date, str(id))` and paginated after the merge. */
module Feed {
  import opened Wrappers
  import opened Text
  import opened Records
  import opened RequestParams
  import opened TypeSlugs

  /** One entry of the unified feed. `kind` is the row's `type` field. */
  datatype Row = Row(id: nat, kind: string, date: string, amount: int, remark: string, category: string)

  /** The query parameters as they arrive. The amount bounds are already
      converted to cents; `None` stands for an absent or empty parameter. */
  datatype FeedQuery = FeedQuery(
    typeParam: Option<string>,
    fromParam: Option<string>,
    toParam: Option<string>,
    minAmount: Option<int>,
    maxAmount: Option<int>,
    remarkParam: Option<string>,
    categoryParam: Option<string>,
    limitParam: Option<string>,
    offsetParam: Option<string>)

  /** The query after normalisation: lower-cased slug, inclusive date range,
      stripped text filters (empty means "no filter") and the page window. */
  datatype FeedFilter = FeedFilter(
    slug: string,
    from: string,
    to: string,
    minAmount: Option<int>,
    maxAmount: Option<int>,
    remark: string,
    category: string,
    window: Window)

  /** `date(today.year, today.month, 1)`. */
  function FirstOfMonth(today: string): (d: string)
    requires IsIsoDate(today)
    ensures IsIsoDate(d) && d[..8] == today[..8] && d[8..] == "01"
  {
    today[..8] + "01"
  }

  lemma {:induction false} LessSharedPrefix(p: string, a: string, b: string)
    ensures Less(p + a, p + b) == Less(a, b)
  {
    if p == [] {
      assert p + a == a && p + b == b;
    } else {
      LessSharedPrefix(p[1..], a, b);
      assert (p + a)[0] == p[0] == (p + b)[0];
      assert (p + a)[1..] == p[1..] + a && (p + b)[1..] == p[1..] + b;
    }
  }

  /** The first of the month never comes after the day itself. */
  lemma FirstOfMonthNotAfter(today: string)
    requires IsIsoDate(today)
    ensures !Less(today, FirstOfMonth(today))
  {
    var p := today[..8];
    assert today == p + today[8..];
    LessSharedPrefix(p, today[8..], "01");
    var t := today[8..];
    assert t[1..] == [today[9]] && "01"[1..] == "1";
    if t[0] == '0' {
      assert [today[9]][1..] == [] && "1"[1..] == [];
    }
  }

  /** The opening lines of `transaction_history`: the type slug is lower-cased
      but not stripped, a blank one meaning "all"; a missing or unparsable
      `from`/`to` falls back to the first of the current month and today; the
      text filters are stripped. */
  function ResolveFilter(q: FeedQuery, today: string): (f: FeedFilter)
    requires IsIsoDate(today)
    ensures q.typeParam.None? || q.typeParam == Some("") ==> f.slug == "all"
    ensures q.typeParam.Some? && q.typeParam.value != "" ==> f.slug == Lower(q.typeParam.value)
    ensures IsIsoDate(f.from) && IsIsoDate(f.to)
    ensures ParseDate(q.fromParam).None? ==> f.from == FirstOfMonth(today)
    ensures ParseDate(q.fromParam).Some? ==> f.from == ParseDate(q.fromParam).value
    ensures ParseDate(q.toParam).None? ==> f.to == today
    ensures ParseDate(q.toParam).Some? ==> f.to == ParseDate(q.toParam).value
    ensures f.minAmount == q.minAmount && f.maxAmount == q.maxAmount
    ensures f.remark == Trimmed(q.remarkParam) && f.category == Trimmed(q.categoryParam)
    ensures f.window == ParsePagination(q.limitParam, q.offsetParam)
    ensures 1 <= f.window.limit <= MaxLimit
  {
    LowerOfLowerCase("all");
    var from := RangeBound(q.fromParam, FirstOfMonth(today));
    var to := RangeBound(q.toParam, today);
    FeedFilter(Lower(OrElse(q.typeParam, "all")), from, to, q.minAmount, q.maxAmount,
               Trimmed(q.remarkParam), Trimmed(q.categoryParam),
               ParsePagination(q.limitParam, q.offsetParam))
  }

  /** `_parse_date(param) or fallback`. */
  function RangeBound(param: Option<string>, fallback: string): (d: string)
    requires IsIsoDate(fallback)
    ensures IsIsoDate(d)
    ensures ParseDate(param).None? ==> d == fallback
    ensures ParseDate(param).Some? ==> d == ParseDate(param).value
  {
    match ParseDate(param) case Some(v) => v case None => fallback
  }

  /** With neither `from` nor `to`, the range is the current month up to today,
      which is never empty. */
  lemma DefaultRangeIsCurrentMonth(q: FeedQuery, today: string)
    requires IsIsoDate(today) && q.fromParam.None? && q.toParam.None?
    ensures var f := ResolveFilter(q, today);
      f.from == FirstOfMonth(today) && f.to == today && !Less(f.to, f.from)
  {
    FirstOfMonthNotAfter(today);
  }

  /** `date__gte=from_d, date__lte=to_d`. */
  predicate InDateRange(date: string, f: FeedFilter) {
    !Less(date, f.from) && !Less(f.to, date)
  }

  /** `amount__gte=min_amount`, `amount__lte=max_amount`, each only when given. */
  predicate AmountInBounds(amount: int, f: FeedFilter) {
    (f.minAmount.None? || f.minAmount.value <= amount) && (f.maxAmount.None? || amount <= f.maxAmount.value)
  }

  /** The income query: the remark filter matches the remark or the source, the
      category filter matches the source or the remark. */
  predicate IncomeSelected(caller: UserId, f: FeedFilter, i: Income) {
    && i.user == caller
    && InDateRange(i.date, f)
    && AmountInBounds(i.amount, f)
    && (f.remark == "" || IContains(i.remark, f.remark) || IContains(i.source, f.remark))
    && (f.category == "" || IContains(i.source, f.category) || IContains(i.remark, f.category))
  }

  /** The expense sub-type filter of the feed: one case-insensitive label per
      slug, the empty label also counting as "expense"; "all" admits every
      label, any other slug none. */
  predicate SlugAdmits(slug: string, kind: string) {
    if slug == "expense" then IEquals(kind, "Expense") || kind == ""
    else if slug == "savings" then IEquals(kind, "Savings")
    else if slug == "emis" then IEquals(kind, "EMIs")
    else if slug == "loans&advance" then IEquals(kind, "Loans&Advance")
    else if slug == "other" then IEquals(kind, "Other")
    else slug == "all"
  }

  /** The feed's sub-type filter against the slug table: an expense-like slug
      admits the labels equal, up to case, to the first label of its table
      entry ("expense" also the empty label); "all" admits every label, and
      any other slug none. */
  lemma SlugAdmitsFirstLabel(slug: string, kind: string)
    ensures slug in ExpenseSlugs ==>
      (SlugAdmits(slug, kind) <==> IEquals(kind, LabelsForSlug(slug)[0]) || (slug == "expense" && kind == ""))
    ensures slug !in ExpenseSlugs ==> (SlugAdmits(slug, kind) <==> slug == "all")
  {
  }

  predicate ExpenseSelected(caller: UserId, f: FeedFilter, e: Expense) {
    && e.user == caller
    && InDateRange(e.date, f)
    && AmountInBounds(e.amount, f)
    && (f.remark == "" || IContains(e.remark, f.remark))
    && (f.category == "" || IContains(e.category, f.category))
    && SlugAdmits(f.slug, e.kind)
  }

  /** Whether the slug takes the income query at all. */
  predicate ListsIncomes(slug: string) {
    slug == "income" || slug == "all"
  }

  function IncomeRow(i: Income): (r: Row)
    ensures r.id == i.id && r.kind == "Income" && r.date == i.date && r.amount == i.amount
    ensures r.category == i.source && r.remark == (if i.remark != "" then i.remark else i.source)
  {
    Row(i.id, "Income", i.date, i.amount, if i.remark != "" then i.remark else i.source, i.source)
  }

  /** The type shown for an expense stored with an empty label. */
  const DefaultExpenseKind: string := "Expense"

  function ExpenseRow(e: Expense): (r: Row)
    ensures r.id == e.id && r.date == e.date && r.amount == e.amount && r.remark == e.remark && r.category == e.category
    ensures r.kind != "" && (e.kind != "" ==> r.kind == e.kind)
    ensures e.kind == "" ==> r.kind == DefaultExpenseKind
  {
    Row(e.id, if e.kind != "" then e.kind else DefaultExpenseKind, e.date, e.amount, e.remark, e.category)
  }

  /** The rows the income loop appends, in query order. */
  function IncomeRows(caller: UserId, incomes: seq<Income>, f: FeedFilter): seq<Row> {
    if incomes == [] then []
    else
      var i := incomes[|incomes| - 1];
      IncomeRows(caller, incomes[..|incomes| - 1], f) + (if IncomeSelected(caller, f, i) then [IncomeRow(i)] else [])
  }

  /** The rows the expense loop appends, in query order. */
  function ExpenseRows(caller: UserId, expenses: seq<Expense>, f: FeedFilter): seq<Row> {
    if expenses == [] then []
    else
      var e := expenses[|expenses| - 1];
      ExpenseRows(caller, expenses[..|expenses| - 1], f) + (if ExpenseSelected(caller, f, e) then [ExpenseRow(e)] else [])
  }

  /** `rows` before sorting: the income rows (for "income" and "all" only),
      then the expense rows. */
  function MergedRows(caller: UserId, incomes: seq<Income>, expenses: seq<Expense>, f: FeedFilter): seq<Row> {
    (if ListsIncomes(f.slug) then IncomeRows(caller, incomes, f) else []) + ExpenseRows(caller, expenses, f)
  }

  lemma {:induction false} IncomeRowsMembers(caller: UserId, incomes: seq<Income>, f: FeedFilter, r: Row)
    ensures r in IncomeRows(caller, incomes, f) <==>
            exists i :: i in incomes && IncomeSelected(caller, f, i) && r == IncomeRow(i)
  {
    if incomes != [] {
      var init := incomes[..|incomes| - 1];
      var last := incomes[|incomes| - 1];
      IncomeRowsMembers(caller, init, f, r);
      assert incomes == init + [last];
      assert forall i :: i in incomes <==> i in init || i == last;
      assert IncomeRows(caller, incomes, f)
          == IncomeRows(caller, init, f) + (if IncomeSelected(caller, f, last) then [IncomeRow(last)] else []);
    }
  }

  lemma {:induction false} ExpenseRowsMembers(caller: UserId, expenses: seq<Expense>, f: FeedFilter, r: Row)
    ensures r in ExpenseRows(caller, expenses, f) <==>
            exists e :: e in expenses && ExpenseSelected(caller, f, e) && r == ExpenseRow(e)
  {
    if expenses != [] {
      var init := expenses[..|expenses| - 1];
      var last := expenses[|expenses| - 1];
      ExpenseRowsMembers(caller, init, f, r);
      assert expenses == init + [last];
      var tail := if ExpenseSelected(caller, f, last) then [ExpenseRow(last)] else [];
      assert ExpenseRows(caller, expenses, f) == ExpenseRows(caller, init, f) + tail;
      if r in ExpenseRows(caller, expenses, f) {
        if r in ExpenseRows(caller, init, f) {
          var e :| e in init && ExpenseSelected(caller, f, e) && r == ExpenseRow(e);
          assert e in expenses;
        } else {
          assert r in tail;
          assert last in expenses;
        }
      }
      if exists e :: e in expenses && ExpenseSelected(caller, f, e) && r == ExpenseRow(e) {
        var e :| e in expenses && ExpenseSelected(caller, f, e) && r == ExpenseRow(e);
        if e != last {
          assert e in init;
        }
      }
    }
  }

  /** Every feed row comes from one of the caller's records that passes every
      filter, and every such record gives a row: incomes only under "income"
      and "all". Records of other users never reach the feed. */
  lemma FeedRowOrigin(caller: UserId, incomes: seq<Income>, expenses: seq<Expense>, f: FeedFilter, r: Row)
    ensures r in MergedRows(caller, incomes, expenses, f) <==>
            (ListsIncomes(f.slug) && exists i :: i in incomes && IncomeSelected(caller, f, i) && r == IncomeRow(i))
            || (exists e :: e in expenses && ExpenseSelected(caller, f, e) && r == ExpenseRow(e))
  {
    IncomeRowsMembers(caller, incomes, f, r);
    ExpenseRowsMembers(caller, expenses, f, r);
  }

  /** Every feed row lies in the date range and the amount bounds. */
  lemma FeedRowInRange(caller: UserId, incomes: seq<Income>, expenses: seq<Expense>, f: FeedFilter, r: Row)
    requires r in MergedRows(caller, incomes, expenses, f)
    ensures InDateRange(r.date, f) && AmountInBounds(r.amount, f)
  {
    FeedRowOrigin(caller, incomes, expenses, f, r);
  }

  lemma {:induction false} NoExpenseRows(caller: UserId, expenses: seq<Expense>, f: FeedFilter)
    requires forall k: string :: !SlugAdmits(f.slug, k)
    ensures ExpenseRows(caller, expenses, f) == []
  {
    if expenses != [] {
      NoExpenseRows(caller, expenses[..|expenses| - 1], f);
    }
  }

  /** A type slug outside income, expense, savings, emis, loans&advance, other
      and all yields an empty feed. */
  lemma UnknownSlugYieldsNothing(caller: UserId, incomes: seq<Income>, expenses: seq<Expense>, f: FeedFilter)
    requires f.slug !in ["income", "expense", "savings", "emis", "loans&advance", "other", "all"]
    ensures MergedRows(caller, incomes, expenses, f) == []
  {
    NoExpenseRows(caller, expenses, f);
  }

  /** Under "income" the feed holds exactly the income rows, each typed
      "Income", categorised by its source and remarked by its remark or else
      its source. */
  lemma IncomeSlugYieldsIncomeRows(caller: UserId, incomes: seq<Income>, expenses: seq<Expense>, f: FeedFilter)
    requires f.slug == "income"
    ensures MergedRows(caller, incomes, expenses, f) == IncomeRows(caller, incomes, f)
    ensures forall r :: r in MergedRows(caller, incomes, expenses, f) ==>
      r.kind == "Income" && exists i :: i in incomes && i.user == caller && r == IncomeRow(i)
  {
    NoExpenseRows(caller, expenses, f);
    forall r | r in MergedRows(caller, incomes, expenses, f)
      ensures r.kind == "Income" && exists i :: i in incomes && i.user == caller && r == IncomeRow(i)
    {
      IncomeRowsMembers(caller, incomes, f, r);
    }
  }

  /** The feed's "savings" filter and the type-slug table disagree: an expense
      stored with the label "Saving" is listed under "savings" by the expense
      list but never appears in the "savings" feed (nor "EMI" under "emis"). */
  lemma SavingsFeedSkipsSavingLabel()
    ensures "Saving" in LabelsForSlug("savings") && !SlugAdmits("savings", "Saving")
    ensures "EMI" in LabelsForSlug("emis") && !SlugAdmits("emis", "EMI")
  {
    assert |Lower("Saving")| != |Lower("Savings")|;
    assert |Lower("EMI")| != |Lower("EMIs")|;
  }

  // ---------------------------------------------------------------------------
  // The sort: `rows.sort(key=lambda x: (x["date"], str(x["id"])), reverse=True)`

  /** The sort key; the id is compared as its decimal text. */
  datatype SortKey = SortKey(date: string, idText: string)

  function Key(r: Row): SortKey {
    SortKey(r.date, NatToString(r.id))
  }

  /** Python's tuple order on the key. */
  predicate KeyLess(a: SortKey, b: SortKey) {
    Less(a.date, b.date) || (a.date == b.date && Less(a.idText, b.idText))
  }

  lemma KeyLessTrichotomy(a: SortKey, b: SortKey)
    ensures a == b || KeyLess(a, b) || KeyLess(b, a)
    ensures !(KeyLess(a, b) && KeyLess(b, a))
  {
    LessTrichotomy(a.date, b.date);
    LessTrichotomy(a.idText, b.idText);
  }

  lemma KeyLessTransitive(a: SortKey, b: SortKey, c: SortKey)
    requires KeyLess(a, b) && KeyLess(b, c)
    ensures KeyLess(a, c)
  {
    if Less(a.date, b.date) && Less(b.date, c.date) {
      LessTransitive(a.date, b.date, c.date);
    } else if a.date == b.date && b.date == c.date {
      LessTransitive(a.idText, b.idText, c.idText);
    }
  }

  /** "Not below" is transitive too, since the key order is total. */
  lemma NotBelowTransitive(a: SortKey, b: SortKey, c: SortKey)
    requires !KeyLess(a, b) && !KeyLess(b, c)
    ensures !KeyLess(a, c)
  {
    KeyLessTrichotomy(a, b);
    if KeyLess(a, c) && KeyLess(b, a) {
      KeyLessTransitive(b, a, c);
    }
  }

  /** Non-increasing in the key: newest first. */
  predicate SortedDesc(s: seq<Row>) {
    forall i, j :: 0 <= i < j < |s| ==> !KeyLess(Key(s[i]), Key(s[j]))
  }

  lemma NotBelowHead(x: Row, s: seq<Row>)
    requires SortedDesc(s) && s != [] && !KeyLess(Key(x), Key(s[0]))
    ensures forall j :: 0 <= j < |s| ==> !KeyLess(Key(x), Key(s[j]))
  {
    forall j | 0 < j < |s| ensures !KeyLess(Key(x), Key(s[j])) {
      NotBelowTransitive(Key(x), Key(s[0]), Key(s[j]));
    }
  }

  lemma HeadNotBelowRest(h: Row, x: Row, tail: seq<Row>, rest: seq<Row>)
    requires SortedDesc([h] + tail) && KeyLess(Key(x), Key(h))
    requires multiset(rest) == multiset(tail) + multiset{x}
    ensures forall j :: 0 <= j < |rest| ==> !KeyLess(Key(h), Key(rest[j]))
  {
    KeyLessTrichotomy(Key(x), Key(h));
    forall j | 0 <= j < |rest| ensures !KeyLess(Key(h), Key(rest[j])) {
      assert rest[j] in multiset(rest);
      if rest[j] != x {
        assert rest[j] in tail;
        var k :| 0 <= k < |tail| && tail[k] == rest[j];
        assert ([h] + tail)[0] == h && ([h] + tail)[k + 1] == rest[j];
      }
    }
  }

  /** Inserts `x` before the first row that is not above it, so that among
      equal keys `x` comes first. */
  function InsertDesc(x: Row, s: seq<Row>): (r: seq<Row>)
    ensures multiset(r) == multiset(s) + multiset{x}
  {
    if s == [] || !KeyLess(Key(x), Key(s[0])) then [x] + s
    else
      assert s == [s[0]] + s[1..];
      [s[0]] + InsertDesc(x, s[1..])
  }

  lemma {:induction false} InsertDescSorted(x: Row, s: seq<Row>)
    requires SortedDesc(s)
    ensures SortedDesc(InsertDesc(x, s))
  {
    if s == [] {
    } else if !KeyLess(Key(x), Key(s[0])) {
      NotBelowHead(x, s);
    } else {
      assert s == [s[0]] + s[1..];
      var rest := InsertDesc(x, s[1..]);
      InsertDescSorted(x, s[1..]);
      HeadNotBelowRest(s[0], x, s[1..], rest);
    }
  }

  /** The stable descending sort: `sorted(xs, key=Key, reverse=True)`. */
  function SortDesc(xs: seq<Row>): (r: seq<Row>)
    ensures SortedDesc(r)
    ensures multiset(r) == multiset(xs)
  {
    if xs == [] then []
    else
      assert xs == [xs[0]] + xs[1..];
      InsertDescSorted(xs[0], SortDesc(xs[1..]));
      InsertDesc(xs[0], SortDesc(xs[1..]))
  }

  /** The rows of `s` whose key is `k`, in order. */
  function WithKey(s: seq<Row>, k: SortKey): seq<Row> {
    if s == [] then [] else (if Key(s[0]) == k then [s[0]] else []) + WithKey(s[1..], k)
  }

  lemma {:induction false} WithKeyAppend(a: seq<Row>, b: seq<Row>, k: SortKey)
    ensures WithKey(a + b, k) == WithKey(a, k) + WithKey(b, k)
  {
    if a == [] {
      assert a + b == b;
    } else {
      var head := if Key(a[0]) == k then [a[0]] else [];
      calc {
        WithKey(a + b, k);
      == { assert (a + b)[0] == a[0] && (a + b)[1..] == a[1..] + b; }
        head + WithKey(a[1..] + b, k);
      == { WithKeyAppend(a[1..], b, k); }
        head + (WithKey(a[1..], k) + WithKey(b, k));
      ==
        (head + WithKey(a[1..], k)) + WithKey(b, k);
      }
    }
  }

  lemma {:induction false} InsertDescStable(x: Row, s: seq<Row>, k: SortKey)
    ensures WithKey(InsertDesc(x, s), k) == (if Key(x) == k then [x] else []) + WithKey(s, k)
  {
    var hx := if Key(x) == k then [x] else [];
    if s == [] || !KeyLess(Key(x), Key(s[0])) {
      assert ([x] + s)[0] == x && ([x] + s)[1..] == s;
    } else {
      var r := InsertDesc(x, s);
      var hs := if Key(s[0]) == k then [s[0]] else [];
      KeyLessTrichotomy(Key(x), Key(s[0]));
      assert hx == [] || hs == [];
      calc {
        WithKey(r, k);
      == { assert r[0] == s[0] && r[1..] == InsertDesc(x, s[1..]); }
        hs + WithKey(InsertDesc(x, s[1..]), k);
      == { InsertDescStable(x, s[1..], k); }
        hs + (hx + WithKey(s[1..], k));
      == { assert hs + hx == hx + hs; }
        hx + (hs + WithKey(s[1..], k));
      ==
        hx + WithKey(s, k);
      }
    }
  }

  /** Stability: the sort keeps the relative order of rows with equal keys. */
  lemma {:induction false} SortDescStable(xs: seq<Row>, k: SortKey)
    ensures WithKey(SortDesc(xs), k) == WithKey(xs, k)
  {
    if xs != [] {
      SortDescStable(xs[1..], k);
      InsertDescStable(xs[0], SortDesc(xs[1..]), k);
    }
  }

  /** Among rows with equal `(date, str(id))`, the sorted feed lists the income
      rows first and each part in query order, as the merge built them. */
  lemma FeedTiesKeepMergeOrder(caller: UserId, incomes: seq<Income>, expenses: seq<Expense>, f: FeedFilter, k: SortKey)
    ensures WithKey(SortDesc(MergedRows(caller, incomes, expenses, f)), k)
         == WithKey(if ListsIncomes(f.slug) then IncomeRows(caller, incomes, f) else [], k)
            + WithKey(ExpenseRows(caller, expenses, f), k)
  {
    SortDescStable(MergedRows(caller, incomes, expenses, f), k);
    WithKeyAppend(if ListsIncomes(f.slug) then IncomeRows(caller, incomes, f) else [],
                  ExpenseRows(caller, expenses, f), k);
  }

  /** Ids are compared as text: on the same day, id 9 is listed before id 10. */
  lemma IdsCompareAsText(date: string)
    ensures var r9 := Row(9, "Income", date, 0, "", "");
            var r10 := Row(10, "Income", date, 0, "", "");
            SortDesc([r10, r9]) == [r9, r10] && SortDesc([r9, r10]) == [r9, r10]
  {
    var r9 := Row(9, "Income", date, 0, "", "");
    var r10 := Row(10, "Income", date, 0, "", "");
    assert NatToString(10) == "10";
    assert NatToString(9) == "9";
    LessIrreflexive(date);
    assert Less("10", "9");
    assert !Less("9", "10");
    assert SortDesc([r9]) == [r9];
    assert SortDesc([r10]) == [r10];
    assert [r10, r9][1..] == [r9];
    assert [r9, r10][1..] == [r10];
  }

  // ---------------------------------------------------------------------------
  // Pagination after the merge

  /** Python's `rows[offset : offset + limit]`, which clamps to the list. */
  function Page(rows: seq<Row>, w: Window): (page: seq<Row>)
    ensures |page| <= w.limit
    ensures w.offset < |rows| ==> |page| == if w.limit < |rows| - w.offset then w.limit else |rows| - w.offset
    ensures w.offset >= |rows| ==> page == []
    ensures forall j :: 0 <= j < |page| ==> page[j] == rows[w.offset + j]
  {
    if w.offset >= |rows| then []
    else if w.offset + w.limit >= |rows| then rows[w.offset..]
    else rows[w.offset..w.offset + w.limit]
  }

  /** Two consecutive pages of one size make up the page of twice that size:
      paging through the feed neither skips nor repeats a row. */
  lemma ConsecutivePages(rows: seq<Row>, limit: nat, offset: nat)
    ensures Page(rows, Window(limit, offset)) + Page(rows, Window(limit, offset + limit))
         == Page(rows, Window(2 * limit, offset))
  {
    var a := Page(rows, Window(limit, offset));
    var b := Page(rows, Window(limit, offset + limit));
    var c := Page(rows, Window(2 * limit, offset));
    assert |a + b| == |c|;
    forall j | 0 <= j < |c| ensures (a + b)[j] == c[j] {
      if j >= |a| {
        assert |a| == limit;
      }
    }
  }

  lemma PageOfSorted(rows: seq<Row>, w: Window)
    requires SortedDesc(rows)
    ensures SortedDesc(Page(rows, w))
  {
    var page := Page(rows, w);
    forall i, j | 0 <= i < j < |page| ensures !KeyLess(Key(page[i]), Key(page[j])) {
      assert page[i] == rows[w.offset + i] && page[j] == rows[w.offset + j];
    }
  }

  lemma PageMembers(rows: seq<Row>, w: Window, r: Row)
    requires r in Page(rows, w)
    ensures r in rows
  {
    var j :| 0 <= j < |Page(rows, w)| && Page(rows, w)[j] == r;
    assert rows[w.offset + j] == r;
  }

  /** `transaction_history`: appends the selected income rows, then the
      selected expense rows, sorts newest first and returns the total count
      and one page. */
  method TransactionHistory(caller: UserId, incomes: seq<Income>, expenses: seq<Expense>, q: FeedQuery, today: string)
    returns (count: nat, results: seq<Row>)
    requires IsIsoDate(today)
    ensures var f := ResolveFilter(q, today);
            var rows := SortDesc(MergedRows(caller, incomes, expenses, f));
            count == |rows| && results == Page(rows, f.window)
    ensures |results| <= ResolveFilter(q, today).window.limit && |results| <= count
    ensures SortedDesc(results)
    ensures AllInRange(results, ResolveFilter(q, today))
  {
    var f := ResolveFilter(q, today);
    var rows := CollectRows(caller, incomes, expenses, f);
    rows := SortDesc(rows);
    count := |rows|;
    results := Page(rows, f.window);
    FeedPage(caller, incomes, expenses, f, results);
  }

  /** What the returned page promises: at most `limit` rows, no more than the
      total, newest first, all inside the filter's range and bounds. */
  lemma FeedPage(caller: UserId, incomes: seq<Income>, expenses: seq<Expense>, f: FeedFilter, page: seq<Row>)
    requires page == Page(SortDesc(MergedRows(caller, incomes, expenses, f)), f.window)
    ensures |page| <= f.window.limit && |page| <= |SortDesc(MergedRows(caller, incomes, expenses, f))|
    ensures SortedDesc(page)
    ensures AllInRange(page, f)
  {
    PageOfSorted(SortDesc(MergedRows(caller, incomes, expenses, f)), f.window);
    SortedPageInRange(caller, incomes, expenses, f, page);
  }

  /** Every row lies in the date range and the amount bounds of `f`. */
  predicate AllInRange(rows: seq<Row>, f: FeedFilter) {
    forall r :: r in rows ==> InDateRange(r.date, f) && AmountInBounds(r.amount, f)
  }

  lemma SortedPageInRange(caller: UserId, incomes: seq<Income>, expenses: seq<Expense>, f: FeedFilter, page: seq<Row>)
    requires page == Page(SortDesc(MergedRows(caller, incomes, expenses, f)), f.window)
    ensures AllInRange(page, f)
  {
    var rows := SortDesc(MergedRows(caller, incomes, expenses, f));
    forall r | r in page ensures InDateRange(r.date, f) && AmountInBounds(r.amount, f) {
      PageMembers(rows, f.window, r);
      assert r in multiset(rows);
      FeedRowInRange(caller, incomes, expenses, f, r);
    }
  }

  /** The two loops of `transaction_history` that fill `rows`. */
  method CollectRows(caller: UserId, incomes: seq<Income>, expenses: seq<Expense>, f: FeedFilter)
    returns (rows: seq<Row>)
    ensures rows == MergedRows(caller, incomes, expenses, f)
  {
    rows := [];
    if ListsIncomes(f.slug) {
      for k := 0 to |incomes|
        invariant rows == IncomeRows(caller, incomes[..k], f)
      {
        assert incomes[..k + 1][..k] == incomes[..k];
        var i := incomes[k];
        if IncomeSelected(caller, f, i) {
          rows := rows + [IncomeRow(i)];
        }
      }
      assert incomes[..|incomes|] == incomes;
    }
    var incomePart := rows;
    for k := 0 to |expenses|
      invariant rows == incomePart + ExpenseRows(caller, expenses[..k], f)
    {
      assert expenses[..k + 1][..k] == expenses[..k];
      var e := expenses[k];
      if ExpenseSelected(caller, f, e) {
        rows := rows + [ExpenseRow(e)];
      }
    }
    assert expenses[..|expenses|] == expenses;
  }
}
