/** The type slugs of core/views.py: the static `SLUG_TO_TYPES` table,
    `_labels_for_slug`, `_present_type_slugs` and the slug filter of
    `expense_list`. */
module TypeSlugs {
  import opened Wrappers
  import opened Text
  import opened Records

  /** `SLUG_TO_TYPES`: the stored `Expense.type` labels behind each expense-like
      slug; "expense" also covers the legacy empty label. */
  const SlugToTypes: map<string, seq<string>> := map[
    "expense" := ["Expense", "Expenses", ""],
    "savings" := ["Savings", "Saving"],
    "emis" := ["EMIs", "EMI"],
    "loans&advance" := ["Loans&Advance", "Loans & Advance", "Loan", "Loans"],
    "other" := ["Other"]
  ]

  /** `ALL_SLUGS`, in the order the filter list shows them. */
  const AllSlugs: seq<string> := ["income", "expense", "savings", "emis", "loans&advance", "other"]

  /** The slugs `_present_type_slugs` looks up in the table, in order. */
  const ExpenseSlugs: seq<string> := ["expense", "savings", "emis", "loans&advance", "other"]

  /** `_labels_for_slug`: the table entry, or no labels for a slug the table
      does not know. */
  function LabelsForSlug(slug: string): (labels: seq<string>)
    ensures labels != [] <==> slug in ExpenseSlugs
  {
    if slug in SlugToTypes then SlugToTypes[slug] else []
  }

  /** The table's keys are exactly the expense-like slugs, and every slug of
      `ALL_SLUGS` but "income" is one of them. */
  lemma TableKeysAreExpenseSlugs()
    ensures SlugToTypes.Keys == set s | s in ExpenseSlugs
    ensures AllSlugs == ["income"] + ExpenseSlugs
  {
  }

  /** "income", "all" and every other slug outside the table have no labels,
      while the "expense" labels include the empty string. */
  lemma LabelsOutsideTable(slug: string)
    requires slug !in ExpenseSlugs
    ensures LabelsForSlug(slug) == []
    ensures LabelsForSlug("income") == [] && LabelsForSlug("all") == []
    ensures "" in LabelsForSlug("expense")
  {
  }

  /** No stored label belongs to two slugs, so each label is counted under at
      most one slug. */
  lemma LabelsDisjoint(s1: string, s2: string, name: string)
    requires s1 != s2
    requires name in LabelsForSlug(s1)
    ensures name !in LabelsForSlug(s2)
  {
    LabelOwner(s1, name);
    if name in LabelsForSlug(s2) {
      LabelOwner(s2, name);
    }
  }

  /** The slug a stored label is filed under, if any. */
  function OwnerOf(name: string): string {
    if name in ["Expense", "Expenses", ""] then "expense"
    else if name in ["Savings", "Saving"] then "savings"
    else if name in ["EMIs", "EMI"] then "emis"
    else if name in ["Loans&Advance", "Loans & Advance", "Loan", "Loans"] then "loans&advance"
    else if name == "Other" then "other"
    else ""
  }

  lemma LabelOwner(slug: string, name: string)
    requires name in LabelsForSlug(slug)
    ensures OwnerOf(name) == slug
  {
    if slug == "expense" {
      assert name in ["Expense", "Expenses", ""];
    } else if slug == "savings" {
      assert name == "Savings" || name == "Saving";
    } else if slug == "emis" {
      assert name == "EMIs" || name == "EMI";
    } else if slug == "loans&advance" {
      assert name == "Loans&Advance" || name == "Loans & Advance" || name == "Loan" || name == "Loans";
    } else {
      assert slug == "other" && name == "Other";
    }
  }

  /** The position of a slug in `ALL_SLUGS` (6 for a slug outside it). */
  function SlugRank(slug: string): (k: nat)
    ensures k < |AllSlugs| ==> AllSlugs[k] == slug
    ensures slug in AllSlugs ==> k < |AllSlugs|
  {
    if slug == "income" then 0
    else if slug == "expense" then 1
    else if slug == "savings" then 2
    else if slug == "emis" then 3
    else if slug == "loans&advance" then 4
    else if slug == "other" then 5
    else 6
  }

  predicate HasIncome(caller: UserId, incomes: seq<Income>) {
    exists i :: i in incomes && i.user == caller
  }

  /** The set of the caller's stored expense labels, each stripped. */
  function ExistingTypes(caller: UserId, expenses: seq<Expense>): set<string> {
    set e | e in expenses && e.user == caller :: Strip(e.kind)
  }

  /** A slug counts as present for the caller when the caller has an income
      ("income") or an expense whose stripped label is, exactly, one of the
      slug's labels. */
  predicate SlugPresent(caller: UserId, incomes: seq<Income>, expenses: seq<Expense>, slug: string) {
    if slug == "income" then HasIncome(caller, incomes)
    else HasLabel(caller, expenses, LabelsForSlug(slug))
  }

  predicate HasLabel(caller: UserId, expenses: seq<Expense>, labels: seq<string>) {
    exists e :: e in expenses && e.user == caller && Strip(e.kind) in labels
  }

  predicate NoSlugPresent(caller: UserId, incomes: seq<Income>, expenses: seq<Expense>) {
    forall s :: s in AllSlugs ==> !SlugPresent(caller, incomes, expenses, s)
  }

  /** Each slug's position is strictly greater than that of the slugs before it. */
  predicate RankIncreasing(slugs: seq<string>) {
    forall i, j :: 0 <= i < j < |slugs| ==> SlugRank(slugs[i]) < SlugRank(slugs[j])
  }

  /** The candidates that are present for the caller, in the candidates' order. */
  ghost function PresentAmong(caller: UserId, incomes: seq<Income>, expenses: seq<Expense>, candidates: seq<string>)
    : seq<string>
  {
    if candidates == [] then []
    else
      var init := candidates[..|candidates| - 1];
      var last := candidates[|candidates| - 1];
      PresentAmong(caller, incomes, expenses, init)
        + if SlugPresent(caller, incomes, expenses, last) then [last] else []
  }

  lemma {:induction false} PresentAmongMembers(caller: UserId, incomes: seq<Income>, expenses: seq<Expense>, candidates: seq<string>)
    ensures forall s :: s in PresentAmong(caller, incomes, expenses, candidates) <==>
      s in candidates && SlugPresent(caller, incomes, expenses, s)
  {
    if candidates != [] {
      var init := candidates[..|candidates| - 1];
      PresentAmongMembers(caller, incomes, expenses, init);
      assert candidates == init + [candidates[|candidates| - 1]];
    }
  }

  lemma {:induction false} PresentAmongRanked(caller: UserId, incomes: seq<Income>, expenses: seq<Expense>, candidates: seq<string>)
    requires RankIncreasing(candidates)
    ensures RankIncreasing(PresentAmong(caller, incomes, expenses, candidates))
  {
    if candidates != [] {
      var init := candidates[..|candidates| - 1];
      var last := candidates[|candidates| - 1];
      PresentAmongRanked(caller, incomes, expenses, init);
      PresentAmongMembers(caller, incomes, expenses, init);
      forall s | s in init ensures SlugRank(s) < SlugRank(last) {
        var i :| 0 <= i < |init| && init[i] == s;
      }
    }
  }

  lemma InExistingTypes(caller: UserId, expenses: seq<Expense>, l: string)
    ensures l in ExistingTypes(caller, expenses) <==> exists e :: e in expenses && e.user == caller && Strip(e.kind) == l
  {
  }

  /** Python's `set(labels)`. */
  function SetOf(labels: seq<string>): set<string> {
    set l | l in labels
  }

  /** Python's truth value of `a & b`. */
  predicate Intersects(a: set<string>, b: set<string>) {
    a * b != {}
  }

  /** The loop's test on the set of stripped labels decides presence. */
  lemma ExistingTypesDecide(caller: UserId, expenses: seq<Expense>, labels: seq<string>)
    ensures Intersects(ExistingTypes(caller, expenses), SetOf(labels)) <==> HasLabel(caller, expenses, labels)
  {
    var existing := ExistingTypes(caller, expenses);
    var wanted := set l | l in labels;
    if existing * wanted != {} {
      var l :| l in existing * wanted;
      InExistingTypes(caller, expenses, l);
      assert l in labels;
    }
    if HasLabel(caller, expenses, labels) {
      var e :| e in expenses && e.user == caller && Strip(e.kind) in labels;
      InExistingTypes(caller, expenses, Strip(e.kind));
      assert Strip(e.kind) in existing * wanted;
    }
  }

  lemma AllSlugsRankIncreasing()
    ensures RankIncreasing(AllSlugs)
  {
    assert SlugRank(AllSlugs[0]) == 0 && SlugRank(AllSlugs[1]) == 1 && SlugRank(AllSlugs[2]) == 2;
    assert SlugRank(AllSlugs[3]) == 3 && SlugRank(AllSlugs[4]) == 4 && SlugRank(AllSlugs[5]) == 5;
  }

  /** What `_present_type_slugs` returns, stated on the caller's data. */
  ghost function TypeSlugList(caller: UserId, incomes: seq<Income>, expenses: seq<Expense>): seq<string> {
    var present := PresentAmong(caller, incomes, expenses, AllSlugs);
    ["all"] + if present == [] then AllSlugs else present
  }

  /** The list holds exactly the present slugs, or every slug when none is
      present. */
  lemma TypeSlugListMembers(caller: UserId, incomes: seq<Income>, expenses: seq<Expense>, slugs: seq<string>)
    requires slugs == TypeSlugList(caller, incomes, expenses)
    ensures |slugs| >= 2 && slugs[0] == "all"
    ensures forall s :: s in slugs[1..] <==>
      s in AllSlugs && (SlugPresent(caller, incomes, expenses, s) || NoSlugPresent(caller, incomes, expenses))
    ensures NoSlugPresent(caller, incomes, expenses) ==> slugs == ["all"] + AllSlugs
  {
    var present := PresentAmong(caller, incomes, expenses, AllSlugs);
    PresentAmongMembers(caller, incomes, expenses, AllSlugs);
    assert slugs[1..] == if present == [] then AllSlugs else present;
    if present != [] {
      assert !NoSlugPresent(caller, incomes, expenses) by {
        assert present[0] in present;
      }
    }
  }

  lemma AllThenRankedHasNoDuplicates(found: seq<string>)
    requires RankIncreasing(found)
    requires forall s :: s in found ==> s in AllSlugs
    ensures forall i, j :: 0 <= i < j < |["all"] + found| ==> (["all"] + found)[i] != (["all"] + found)[j]
  {
    var slugs := ["all"] + found;
    forall i, j | 0 <= i < j < |slugs| ensures slugs[i] != slugs[j] {
      assert slugs[j] == found[j - 1];
      if i > 0 {
        assert slugs[i] == found[i - 1];
      } else {
        assert slugs[j] in found;
      }
    }
  }

  /** The list keeps `ALL_SLUGS` order after "all" and has no duplicates. */
  lemma TypeSlugListOrdered(caller: UserId, incomes: seq<Income>, expenses: seq<Expense>, slugs: seq<string>)
    requires slugs == TypeSlugList(caller, incomes, expenses)
    ensures RankIncreasing(slugs[1..])
    ensures forall i, j :: 0 <= i < j < |slugs| ==> slugs[i] != slugs[j]
  {
    var present := PresentAmong(caller, incomes, expenses, AllSlugs);
    var found := if present == [] then AllSlugs else present;
    assert slugs == ["all"] + found && slugs[1..] == found;
    AllSlugsRankIncreasing();
    PresentAmongRanked(caller, incomes, expenses, AllSlugs);
    PresentAmongMembers(caller, incomes, expenses, AllSlugs);
    AllThenRankedHasNoDuplicates(found);
  }

  lemma PresentAmongStep(caller: UserId, incomes: seq<Income>, expenses: seq<Expense>, k: nat)
    requires k < |ExpenseSlugs|
    ensures PresentAmong(caller, incomes, expenses, AllSlugs[..k + 2])
      == PresentAmong(caller, incomes, expenses, AllSlugs[..k + 1])
         + if HasLabel(caller, expenses, LabelsForSlug(ExpenseSlugs[k])) then [ExpenseSlugs[k]] else []
  {
    var slug := ExpenseSlugs[k];
    assert AllSlugs[..k + 2][..k + 1] == AllSlugs[..k + 1] && AllSlugs[k + 1] == slug;
    assert slug != "income";
  }

  lemma PresentAmongStart(caller: UserId, incomes: seq<Income>, expenses: seq<Expense>)
    ensures PresentAmong(caller, incomes, expenses, AllSlugs[..1])
      == if HasIncome(caller, incomes) then ["income"] else []
  {
    assert AllSlugs[..1] == ["income"];
    assert AllSlugs[..1][..0] == [];
  }

  /** `_present_type_slugs`: "all" followed by the slugs present in the
      caller's data in `ALL_SLUGS` order, or by every slug when none is. */
  method PresentTypeSlugs(caller: UserId, incomes: seq<Income>, expenses: seq<Expense>)
    returns (slugs: seq<string>)
    ensures slugs == TypeSlugList(caller, incomes, expenses)
  {
    var found: seq<string> := [];
    if exists i :: i in incomes && i.user == caller {
      found := found + ["income"];
    }
    PresentAmongStart(caller, incomes, expenses);
    var existing := ExistingTypes(caller, expenses);
    for k := 0 to |ExpenseSlugs|
      invariant found == PresentAmong(caller, incomes, expenses, AllSlugs[..k + 1])
    {
      var slug := ExpenseSlugs[k];
      var labels := SetOf(LabelsForSlug(slug));
      PresentAmongStep(caller, incomes, expenses, k);
      ExistingTypesDecide(caller, expenses, LabelsForSlug(slug));
      if Intersects(existing, labels) {
        found := found + [slug];
      }
    }
    assert AllSlugs[..|ExpenseSlugs| + 1] == AllSlugs;
    if found == [] {
      found := AllSlugs;
    }
    slugs := ["all"] + found;
  }

  /** The type filter of `expense_list`: the stripped, lowercased `type`
      parameter restricts the listing to the slug's labels (matched exactly)
      only when it is a table key; any other value leaves the listing as is. */
  function ExpenseListTypeFilter(expenses: seq<Expense>, typeParam: Option<string>): (r: seq<Expense>)
    ensures var slug := Lower(Strip(typeParam.GetOr("")));
      && (slug !in SlugToTypes ==> r == expenses)
      && (slug in SlugToTypes ==> forall e :: e in r <==> e in expenses && e.kind in LabelsForSlug(slug))
    ensures |r| <= |expenses|
  {
    var slug := Lower(Strip(typeParam.GetOr("")));
    if slug in SlugToTypes then WithLabels(expenses, LabelsForSlug(slug)) else expenses
  }

  function WithLabels(expenses: seq<Expense>, labels: seq<string>): (r: seq<Expense>)
    ensures forall e :: e in r <==> e in expenses && e.kind in labels
    ensures |r| <= |expenses|
  {
    if expenses == [] then []
    else
      var rest := WithLabels(expenses[1..], labels);
      assert forall e :: e in expenses <==> e == expenses[0] || e in expenses[1..];
      if expenses[0].kind in labels then [expenses[0]] + rest else rest
  }
}
