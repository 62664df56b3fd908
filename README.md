# Finance backend core, modelled in Dafny

This project models the request-handling core of a small personal-finance
backend. That core covers:

- the query-parameter helpers;
- the mapping between front-end type slugs and the stored expense labels;
- the category filter list;
- the unified transaction feed;
- the budget-versus-actual insights;
- the validation applied to every expense write.

The stored records (incomes, expenses and budgets) are given as sequences in
query order. The authenticated caller is a user id, and "today" is a
`YYYY-MM-DD` string passed in.

Modules:

- `Wrappers`: `Option` and `Result`.
- `Text`: the string operations the core uses, written out to follow Python's
  definitions:
  - `strip` with Python's whitespace set;
  - ASCII lower-casing;
  - case-insensitive containment and equality (`icontains`, `iexact`);
  - lexicographic string order;
  - `int()` on strings and `str()` on integers. `int()` refuses a string of
    more than 4300 digits (CPython's default limit). `ParseInt` reads back
    whatever `IntToString` writes within that limit.
- `Records`: `Income`, `Expense` and `Budget`, reduced to the fields the
  views read.
- `RequestParams`:
  - `_parse_date` (the first ten characters matched against `"%Y-%m-%d"` as
    `strptime` reads it, checked against the calendar, and returned
    zero-padded, or nothing);
  - `_parse_pagination` (defaults 50 and 0, limit clamped to 1..200, offset
    to 0 and up).
- `TypeSlugs`:
  - the `SLUG_TO_TYPES` table and `_labels_for_slug`;
  - `_present_type_slugs`, written as a method with the source's loop;
  - the slug filter of `expense_list`.
- `Categories`: `filter_categories`, which returns the sorted, non-empty
  income sources or expense categories under a slug. The query's `.distinct()`
  is read as removing repeated names (see "Left out").
- `Feed`: `transaction_history`, written as a method.
  - It resolves the query and collects the selected income rows, then the
    selected expense rows, in two loops.
  - It sorts them newest first with a stable sort on `(date, str(id))`.
  - It returns the total count and one page.
- `Insights`: `insights_summary`, written as a method with the source's
  loop over the caller's budgets. Each row holds the planned amount, the
  actual amount of the budget's kind and their difference.
- `ExpenseValidation`: `ExpenseSerializer.validate`.
  - `Check` gives its outcome as a value.
  - The class `ExpenseAttrs` holds the two attributes that `validate` reads
    and overwrites in place.

## Model

| member | source | states |
|---|---|---|
| RequestParams.OrElse | core/views.py:322 | Python's `param or default`: an absent or empty parameter gives the default, any other value itself. |
| RequestParams.MonthField | core/views.py:25 | `%m` matched against a whole field: `1[0-2]`, `0[1-9]` or `[1-9]`, read as a month 1-12. |
| RequestParams.DayField | core/views.py:25 | `%d` matched against a whole field: `3[01]`, `[12][0-9]`, `0[1-9]`, `[1-9]` or a blank then `[1-9]`, read as a day 1-31. |
| RequestParams.MatchYmd | core/views.py:24-25 | `"%Y-%m-%d"` matched against the whole string. Any fields it yields are a four-digit year, a month 1-12 and a day 1-31. |
| RequestParams.IsoFieldsOfFormat | core/views.py:24-25 | Formatting a date zero-padded and reading its fields back gives the same date. |
| RequestParams.ParseDate | core/views.py:19-27 | An absent or empty parameter gives no date. A date that is given is zero-padded `YYYY-MM-DD` naming a real calendar day (year from 1, a day the month has). |
| RequestParams.ParseIsoDate | core/views.py:19-27 | A zero-padded date is accepted, unchanged, exactly when it names a calendar day. |
| RequestParams.ParseDateAcceptsIsoDate | core/views.py:19-27 | A zero-padded calendar date parses to itself. |
| RequestParams.ParseDateCanonical | core/views.py:19-27 | A parsed date parses again to itself. |
| RequestParams.ParseDateUnpadded | core/views.py:25 | A one-digit month and day (`2024-6-1`) read the same as their zero-padded form. |
| RequestParams.ParseDateBlankDay | core/views.py:25 | A blank in place of the day's leading zero (`2024-06- 1`) changes nothing. |
| RequestParams.ParseDateShortDateWithTime | core/views.py:23-25 | A date with a one-digit month and day followed by a time gives no date: the ten-character cut leaves part of the time behind. |
| RequestParams.CalendarExamples | core/views.py:25 | Year 0, 29 February outside leap years (2023, 1900) and 31 April are refused; 29 February 2024 and 2000 are accepted. |
| RequestParams.ParseDateIgnoresSuffix | core/views.py:22-24 | Anything after the first ten characters, such as a time, leaves the parsed date unchanged. |
| RequestParams.ParsePagination | core/views.py:30-44 | Unparsable values give limit 50 and offset 0. Parsed values are clamped: the limit to 1..200, the offset to 0 and up. The limit is always in 1..200. |
| RequestParams.ParsePaginationDefaults | core/views.py:30-44 | With neither parameter, the window is limit 50 and offset 0. |
| RequestParams.ParsePaginationClampsIntegers | core/views.py:34-43 | Any integer of at most 4300 digits written as limit or offset is clamped, never replaced by the default. A limit of 0 or less gives 1. |
| RequestParams.ParsePaginationLongNumbers | core/views.py:32-41 | A limit or offset of more than 4300 digits is refused by `int()`, so the window is the default: limit 50, offset 0. |
| Text.ParseInt | core/views.py:33-38 | `int()` on a string: surrounding whitespace, an optional sign, one to 4300 digits; anything else is a failure. |
| Text.ParseIntRefusesLong | core/views.py:33-38 | A run of more than 4300 digits, with or without a minus sign, is refused. |
| Text.DigitCountBelow | core/views.py:33-38 | A number below `10^k` is written with at most `k` digits, so every integer below `10^4300` in absolute value has a text `int()` accepts. |
| Text.ParseUnsigned | core/views.py:33 | A digit string of at most 4300 digits parses to its decimal value. |
| Text.ParseMinus | core/views.py:34-38 | A minus sign before a digit string parses to the negated value. |
| Text.ParseIntRoundTrip | core/views.py:33 | `int()` reads back the decimal text of every integer of at most 4300 digits, so such a numeric limit or offset is always understood. |
| Text.Strip | core/views.py:282 | `str.strip()`: the result neither starts nor ends with whitespace. |
| Text.StripSurroundingBlanks | core/views.py:282 | Stripping removes exactly the surrounding whitespace: blanks around a trimmed string give that string back. |
| Text.Trimmed | core/views.py:327-328 | `(value or "").strip()`: a missing value reads as "", the result is trimmed, and a value without surrounding blanks is kept. |
| Text.TrimmedPadded | core/views.py:327-328 | A value with whitespace around a trimmed core reads as exactly that core. |
| Text.Lower | core/views.py:282 | `str.lower()` on ASCII: the result has the input's length. |
| Text.LowerAt | core/views.py:282 | Each character of the lower-cased string is the lower case of the character at that place. |
| Text.StripIdempotent | core/views.py:282 | Stripping an already stripped parameter changes nothing. |
| Text.LowerIdempotent | core/views.py:282 | Lower-casing twice is the same as lower-casing once. |
| TypeSlugs.LabelsForSlug | core/views.py:62-64 | A slug has labels exactly when it is one of the five expense-like slugs of the table. |
| TypeSlugs.TableKeysAreExpenseSlugs | core/views.py:52-60 | The table's keys are the expense-like slugs. `ALL_SLUGS` is "income" followed by them. |
| TypeSlugs.LabelsOutsideTable | core/views.py:52-64 | "income", "all" and unknown slugs have no labels. The empty label counts as "expense". |
| TypeSlugs.LabelsDisjoint | core/views.py:52-58 | No stored label belongs to two slugs. |
| TypeSlugs.ExistingTypesDecide | core/views.py:75-83 | The set intersection the loop tests holds exactly when the caller has an expense whose stripped label is one of the slug's labels. |
| TypeSlugs.PresentTypeSlugs | core/views.py:67-89 | The loop builds "all" followed by the present slugs in `ALL_SLUGS` order, or by all slugs when none is present. |
| TypeSlugs.TypeSlugListMembers | core/views.py:67-89 | The list starts with "all". A slug follows it iff it is present for the caller, or, when none is present, iff it is a known slug. |
| TypeSlugs.TypeSlugListOrdered | core/views.py:79-89 | After "all", slugs keep `ALL_SLUGS` order, and the list has no repeats. |
| TypeSlugs.ExpenseListTypeFilter | core/views.py:172-174 | A slug that is a table key keeps exactly the expenses whose label is one of its labels. Any other slug, blank included, leaves the list unchanged. |
| Categories.IncomeSources | core/views.py:288-294 | The non-empty sources of exactly the caller's incomes. |
| Categories.ExpenseCategories | core/views.py:296-300 | The non-empty categories of exactly the caller's expenses whose label is among the labels (any label when there are none). |
| Categories.SortDistinct | core/views.py:302 | The result is strictly ascending and has the same elements as the input. |
| Categories.StrictlyAscendingUnique | core/views.py:302 | Two strictly ascending lists with the same elements are equal, so the sorted result is determined. |
| Categories.FilterCategories | core/views.py:276-303 | A blank type gives []. "income" gives exactly the caller's non-empty sources. Any other slug gives exactly the caller's non-empty categories under that slug's labels (all labels when it has none). The result is strictly ascending and never holds "". |
| Feed.FirstOfMonthNotAfter | core/views.py:333 | The first of the month never comes after today. |
| Feed.RangeBound | core/views.py:333-334 | The parsed date when there is one, otherwise the fallback. Always a well-formed date. |
| Feed.ResolveFilter | core/views.py:322-334 | A blank type means "all", any other type is lower-cased without stripping. A parsed bound is used as is; a missing or unparsable one defaults to the first of the month or to today. Both bounds are well-formed. The amount bounds are passed through, the remark and category filters are trimmed, and the window is `_parse_pagination`'s. |
| Feed.DefaultRangeIsCurrentMonth | core/views.py:331-334 | With neither bound, the range runs from the first of the month to today, and it is never empty. |
| Feed.IncomeSelected | core/views.py:340-344 | The income query: the caller's incomes in the date range and amount bounds, the remark filter matching remark or source, the category filter source or remark. |
| Feed.ExpenseSelected | core/views.py:357-376 | The expense query: the caller's expenses in the date range and amount bounds, matching the remark and category filters, whose label the slug admits. |
| Feed.SlugAdmits | core/views.py:363-376 | The feed's sub-type filter: one case-insensitive label per expense-like slug, the empty label also under "expense", every label under "all", none otherwise. |
| Feed.SlugAdmitsFirstLabel | core/views.py:363-376 | An expense-like slug admits exactly the labels equal up to case to the first label of its table entry ("expense" also ""); "all" admits everything and other slugs nothing. |
| Feed.MergedRows | core/views.py:336-386 | The rows before sorting: the income rows under "income" and "all" only, then the expense rows. |
| Feed.IncomeRow | core/views.py:346-354 | An income row is typed "Income". Its category is the source. Its remark is the remark, or the source when the remark is empty. |
| Feed.ExpenseRow | core/views.py:378-386 | An expense row keeps the expense's fields. Its type is the stored label, or "Expense" when the label is empty. |
| Feed.IncomeRowsMembers | core/views.py:339-354 | A row is an income row iff it maps a selected income of the caller. |
| Feed.ExpenseRowsMembers | core/views.py:356-386 | A row is an expense row iff it maps an expense of the caller that passes the filters and the slug. |
| Feed.FeedRowOrigin | core/views.py:336-386 | A row is in the feed iff it maps a selected record of the caller. Income rows appear only for "income" and "all". |
| Feed.FeedRowInRange | core/views.py:340-361 | Every feed row lies in the date range and within the amount bounds. |
| Feed.UnknownSlugYieldsNothing | core/views.py:339-376 | An unknown type slug gives an empty feed. |
| Feed.IncomeSlugYieldsIncomeRows | core/views.py:339-376 | Under "income", the feed is exactly the income rows, each typed "Income". |
| Feed.SavingsFeedSkipsSavingLabel | core/views.py:363-370 | "Saving" is a savings label in the table, but the feed's "savings" filter does not admit it. The same holds for "EMI" under "emis". |
| Feed.KeyLessTransitive | core/views.py:389 | The `(date, str(id))` order is transitive. |
| Feed.InsertDescSorted | core/views.py:389 | Inserting into a newest-first list keeps it newest first. |
| Feed.SortDesc | core/views.py:389 | The sorted rows are newest first and a permutation of the input. |
| Feed.InsertDescStable | core/views.py:389 | Insertion places the new row ahead of the rows with an equal key and keeps their order. |
| Feed.SortDescStable | core/views.py:389 | Rows with equal keys keep their relative order. |
| Feed.FeedTiesKeepMergeOrder | core/views.py:336-389 | Among rows with equal `(date, str(id))`, income rows stay ahead of expense rows, each group in query order. |
| Feed.IdsCompareAsText | core/views.py:389 | Ids compare as text: on one day, id 9 is listed before id 10. |
| Feed.Page | core/views.py:393 | The slice holds at most `limit` rows and is clamped to the list. Row j of the page is row `offset + j` of the list. |
| Feed.ConsecutivePages | core/views.py:391-393 | Two consecutive pages make up the page of twice the size, because pagination is applied once, after the merge. |
| Feed.PageOfSorted | core/views.py:389-393 | A page of a newest-first list is newest first. |
| Feed.CollectRows | core/views.py:336-386 | The two loops build the selected income rows, then the selected expense rows, in query order. |
| Feed.FeedPage | core/views.py:389-393 | The returned page is newest first and holds at most `limit` rows, no more than the total. Every row is in range. |
| Feed.TransactionHistory | core/views.py:312-394 | The count is the size of the whole merged feed. The results are that feed's page: newest first, at most `limit` rows, every row in the date range and amount bounds. |
| Insights.MonthScope | core/views.py:404-410 | `scope` defaults to "month"; only exactly "month" restricts to the month. |
| Insights.ScopeParameter | core/views.py:404-410 | A missing scope and "month" select the month; "all", "" and "Month" select all time. |
| Insights.InScope | core/views.py:410-412 | Under the month scope, a record counts only when its year and month are today's. |
| Insights.Spent | core/views.py:420-421 | The sum of the caller's in-scope expenses whose category equals the subcategory up to case; never negative when no amount is. |
| Insights.Saved | core/views.py:422-424 | The sum of the caller's in-scope incomes whose remark or source contains the subcategory up to case; never negative when no amount is. |
| Insights.BudgetActual | core/views.py:416-424 | The actual of a budget: spent for "expense", saved for "saving"/"savings", 0 otherwise, the category stripped and lower-cased and the subcategory stripped. |
| Insights.OwnedBudgetsMembers | core/views.py:415 | Exactly the caller's budgets are summarised. |
| Insights.RowsForDescribe | core/views.py:426-433 | Each row carries its budget's category and subcategory, the planned amount, the actual, and `difference = actual - planned`. |
| Insights.InsightsSummary | core/views.py:403-435 | One row per budget of the caller, in order. Each row describes its budget with the actual of the budget's kind in the chosen scope. |
| Insights.OtherBudgetsHaveNoActual | core/views.py:419-424 | A budget whose category is neither expense, saving nor savings has an actual of 0. |
| Insights.BudgetKindOfPadded | core/views.py:416 | Blanks around the stored category do not change its kind, which is its lower case. |
| Insights.ExpenseBudgetKind | core/views.py:416 | "Expense" in any case, with any surrounding blanks, makes an expense budget. |
| Insights.SpentAppend | core/views.py:421 | The expense sum over two lists is the sum of the two sums. |
| Insights.SavedAppend | core/views.py:424 | The income sum over two lists is the sum of the two sums. |
| Insights.ActualIgnoresOtherUsers | core/views.py:407-408 | Other users' incomes and expenses never change a budget's actual. |
| Insights.MonthActualAtMostAllTime | core/views.py:410-424 | With non-negative amounts, the month's actual never exceeds the all-time actual. |
| Insights.BlankSubcategorySavesEverything | core/views.py:422-424 | A saving budget with a blank subcategory counts every income in scope. |
| ExpenseValidation.TypeOf | core/serializers.py:38 | The type is the trimmed value, or "Expense" when that is blank. |
| ExpenseValidation.Check | core/serializers.py:33-55 | Validation fails iff the type is one needing a category and the category is blank; the error names `category`. "other" in any case is stored as "Other" with the category or "Other"; any other accepted type is stored trimmed in its own case, with the trimmed category. |
| ExpenseValidation.BlankTypeIsExpense | core/serializers.py:38-51 | A blank type is stored as "Expense" and needs a category. |
| ExpenseValidation.OtherIsAlwaysAccepted | core/serializers.py:42-46 | "other", in any case and spacing, is always accepted as "Other", the category defaulting to "Other". |
| ExpenseValidation.UnknownTypeIsKept | core/serializers.py:48-55 | An unrecognised type is accepted as written (trimmed), with any category. |
| ExpenseValidation.CheckIdempotent | core/serializers.py:33-55 | Validating an accepted result again gives it back unchanged. |
| ExpenseValidation.ExpenseAttrs.Validate | core/serializers.py:33-55 | On success, the attributes are overwritten with the outcome of `Check`. On failure, the error is returned and nothing is written. |

## Left out

- The ORM, HTTP, JSON rendering and JWT authentication are not modelled. Records arrive as sequences in query order, and the caller is a user id.
- `date.today()` is a parameter.
- The store's default ordering is not modelled. Sequences are taken in the order the queries return them.
- Floating point is replaced by integer cents.
  - `float(b.amount)` and the sums of `insights_summary` are exact integers.
  - `min_amount` and `max_amount` arrive as already parsed amounts. A missing or empty parameter means no bound.
  - The text-to-decimal conversion and its error case are not modelled.
- RequestParams.ParseDate: digits are ASCII only. `strptime` also reads other Unicode decimal digits, and its case-insensitive matching does not matter for this pattern.
- Text.Lower, Text.IContains and Text.IEquals: lower-case ASCII letters only. Python's Unicode case mapping and the database's collation are not modelled.
- Text.ParseInt: accepts optional surrounding whitespace, one sign and up to 4300 ASCII digits. Underscore separators and non-ASCII digits, which `int()` also accepts, are rejected. The 4300-digit limit is CPython's default since 3.11 and in the 3.7 to 3.10 security releases that introduced it. A limit changed through `sys.set_int_max_str_digits` or `PYTHONINTMAXSTRDIGITS`, and older interpreters without one, are not modelled.
- Categories.FilterCategories: `.distinct()` is modelled as removing repeated names. Both `Income` and `Expense` declare the default ordering `["-date", "-id"]`, and Django adds ordering columns to a `SELECT DISTINCT`, so the endpoint can repeat a name once per matching row (two incomes with source "Salary" give `["Salary", "Salary"]`). The model returns each name once.
- Records: every `type`, `category`, `source` and `remark` is a string. The nullable columns and the `type__isnull` branch of the feed's "expense" filter are not modelled, because `Expense.type` is not nullable.
- The expense listing is modelled only through its slug filter. Its other filters, its ordering and its pagination are outside this model. They differ from the feed's: `from` and `to` apply only when given, and rows are ordered by numeric id. Also left out are the `income_list` and `budget_list` listings, `dashboard_summary`, `filter_types` (it returns `_present_type_slugs` as is), the detail endpoints and the authentication views.
- ExpenseValidation.Check: takes the incoming `type` and `category` only. On a partial update that omits `type`, `Check(None, …)` gives what `validate` does: the type reads as "Expense" and a category is required. The type already stored on the record is not an input.
- Pagination: a limit below 1 is clamped to 1 (see RequestParams.ParsePaginationClampsIntegers).
- Sort order follows the code: the feed sorts by `(date, str(id))`, so ids compare as text, not as numbers (see Feed.IdsCompareAsText).
