/** `filter_categories` of core/views.py: the sorted, non-empty category names
    (or income sources) a caller has under one type slug, the query's
    `.distinct()` read as removing repeated names. */
module Categories {
  import opened Wrappers
  import opened Text
  import opened Records
  import opened TypeSlugs

  /** Sorted ascending by Python's string order, with no repeats. */
  predicate StrictlyAscending(s: seq<string>) {
    forall i, j :: 0 <= i < j < |s| ==> Less(s[i], s[j])
  }

  lemma LessThanAll(x: string, s: seq<string>)
    requires StrictlyAscending(s) && s != [] && Less(x, s[0])
    ensures forall j :: 0 <= j < |s| ==> Less(x, s[j])
  {
    forall j | 0 < j < |s| {
      LessTransitive(x, s[0], s[j]);
    }
  }

  /** Inserts `x` into its place in `s`, unless it is already there. */
  function InsertAscending(x: string, s: seq<string>): (r: seq<string>)
    requires StrictlyAscending(s)
    ensures StrictlyAscending(r)
    ensures forall y :: y in r <==> y == x || y in s
  {
    if s == [] then [x]
    else if x == s[0] then s
    else if Less(x, s[0]) then
      LessThanAll(x, s);
      [x] + s
    else
      LessTrichotomy(x, s[0]);
      var rest := InsertAscending(x, s[1..]);
      assert forall y :: y in s <==> y == s[0] || y in s[1..];
      assert forall j :: 0 <= j < |rest| ==> Less(s[0], rest[j]) by {
        forall j | 0 <= j < |rest| ensures Less(s[0], rest[j]) {
          if rest[j] != x {
            assert rest[j] in rest;
            var k :| 0 <= k < |s| - 1 && s[1..][k] == rest[j];
            assert s[k + 1] == rest[j];
          }
        }
      }
      [s[0]] + rest
  }

  /** `.distinct()` followed by `sorted(...)`, with `.distinct()` read as
      removing repeats: the distinct elements of `xs` in ascending order. */
  function SortDistinct(xs: seq<string>): (r: seq<string>)
    ensures StrictlyAscending(r)
    ensures forall y :: y in r <==> y in xs
  {
    if xs == [] then []
    else
      var init := xs[..|xs| - 1];
      assert xs == init + [xs[|xs| - 1]];
      InsertAscending(xs[|xs| - 1], SortDistinct(init))
  }

  /** Two strictly ascending lists with the same elements are the same list, so
      the contract of `SortDistinct` fixes its result. */
  lemma {:induction false} StrictlyAscendingUnique(a: seq<string>, b: seq<string>)
    requires StrictlyAscending(a) && StrictlyAscending(b)
    requires forall y :: y in a <==> y in b
    ensures a == b
  {
    assert a != [] ==> a[0] in a;
    assert b != [] ==> b[0] in b;
    if a != [] && b != [] {
      assert a[0] == b[0] by {
        assert a[0] in b && b[0] in a;
        var i :| 0 <= i < |b| && b[i] == a[0];
        var j :| 0 <= j < |a| && a[j] == b[0];
        if a[0] != b[0] {
          assert i > 0 && j > 0;
          assert Less(b[0], a[0]) && Less(a[0], b[0]);
          LessTrichotomy(a[0], b[0]);
        }
      }
      forall y ensures y in a[1..] <==> y in b[1..] {
        if y in a[1..] {
          var i :| 1 <= i < |a| && a[i] == y;
          LessIrreflexive(y);
          assert y != a[0];
        }
        if y in b[1..] {
          var i :| 1 <= i < |b| && b[i] == y;
          LessIrreflexive(y);
          assert y != b[0];
        }
        assert y in a <==> y == a[0] || y in a[1..];
        assert y in b <==> y == b[0] || y in b[1..];
      }
      StrictlyAscendingUnique(a[1..], b[1..]);
      assert a == [a[0]] + a[1..] && b == [b[0]] + b[1..];
    }
  }

  /** The non-empty `source` values of the caller's incomes. */
  function IncomeSources(caller: UserId, incomes: seq<Income>): (r: seq<string>)
    ensures forall c :: c in r <==> c != "" && exists i :: i in incomes && i.user == caller && i.source == c
  {
    if incomes == [] then []
    else
      var i := incomes[0];
      var rest := IncomeSources(caller, incomes[1..]);
      assert forall x :: x in incomes <==> x == i || x in incomes[1..];
      if i.user == caller && i.source != "" then [i.source] + rest else rest
  }

  /** The non-empty `category` values of the caller's expenses whose label is
      one of `labels`; an empty `labels` puts no restriction on the label. */
  function ExpenseCategories(caller: UserId, expenses: seq<Expense>, labels: seq<string>): (r: seq<string>)
    ensures forall c :: c in r <==> c != "" && (exists e :: e in expenses && e.user == caller && e.category == c
                                                       && (labels == [] || e.kind in labels))
  {
    if expenses == [] then []
    else
      var e := expenses[0];
      var rest := ExpenseCategories(caller, expenses[1..], labels);
      assert forall x :: x in expenses <==> x == e || x in expenses[1..];
      if e.user == caller && (labels == [] || e.kind in labels) && e.category != "" then [e.category] + rest else rest
  }

  /** `filter_categories`: a blank `type` lists nothing; "income" lists the
      caller's income sources; any other slug lists the caller's expense
      categories under that slug's labels, or under every label when the slug
      has none ("all", unknown slugs). The list is sorted, free of repeats and
      of empty names, and holds nothing of another user. */
  function FilterCategories(caller: UserId, incomes: seq<Income>, expenses: seq<Expense>, typeParam: Option<string>)
    : (cats: seq<string>)
    ensures var kind := Lower(Strip(typeParam.GetOr("")));
      && (kind == "" ==> cats == [])
      && (kind == "income" ==>
            forall c :: c in cats <==> c != "" && exists i :: i in incomes && i.user == caller && i.source == c)
      && (kind != "" && kind != "income" ==>
            forall c :: c in cats <==> c != "" && (exists e :: e in expenses && e.user == caller && e.category == c
                                                     && (LabelsForSlug(kind) == [] || e.kind in LabelsForSlug(kind))))
    ensures StrictlyAscending(cats)
    ensures "" !in cats
  {
    var kind := Lower(Strip(typeParam.GetOr("")));
    if kind == "" then []
    else if kind == "income" then SortDistinct(IncomeSources(caller, incomes))
    else SortDistinct(ExpenseCategories(caller, expenses, LabelsForSlug(kind)))
  }
}
