/** `ExpenseSerializer.validate` of core/serializers.py: normalises the
    `type` and `category` of an expense about to be written, and rejects an
    expense-like entry that has no category. */
module ExpenseValidation {
  import opened Wrappers
  import opened Text

  /** The two fields after validation. */
  datatype Validated = Validated(kind: string, category: string)

  /** A validation error keyed by the field it concerns. */
  datatype FieldError = FieldError(field: string, message: string)

  const CategoryRequired := FieldError("category", "Category is required.")

  /** The lower-cased types that must come with a category. */
  const RequiredTypes: seq<string> := ["expense", "saving", "savings", "emis", "emi", "loans&advance", "loan", "loans"]

  /** `(type or "").strip() or "Expense"`: the type `validate` works with. */
  function TypeOf(kind: Option<string>): (t: string)
    ensures t != "" && IsTrimmed(t)
    ensures Trimmed(kind) == "" ==> t == "Expense"
    ensures Trimmed(kind) != "" ==> t == Trimmed(kind)
  {
    var k := Trimmed(kind);
    if k == "" then "Expense" else k
  }

  /** The type is "other" in any case. */
  predicate IsOther(t: string) {
    Lower(t) == "other"
  }

  /** The type is one of `RequiredTypes` in any case. */
  predicate NeedsCategory(t: string) {
    Lower(t) in RequiredTypes
  }

  /** The outcome of `validate` on the incoming `type` and `category`: "other"
      in any case and spacing becomes "Other" with the category defaulting to
      "Other"; a type needing a category is rejected on `category` when the
      category is blank; anything else is kept, trimmed. Both stored fields
      come out trimmed and the type is never empty. */
  function Check(kind: Option<string>, category: Option<string>): (r: Result<Validated, FieldError>)
    ensures r.Success? ==> r.value.kind != "" && IsTrimmed(r.value.kind) && IsTrimmed(r.value.category)
    ensures r.Failure? <==> NeedsCategory(TypeOf(kind)) && Trimmed(category) == ""
    ensures r.Failure? ==> r.error == CategoryRequired
    ensures IsOther(TypeOf(kind)) ==>
      r == Success(Validated("Other", if Trimmed(category) == "" then "Other" else Trimmed(category)))
    ensures !IsOther(TypeOf(kind)) && r.Success? ==> r.value == Validated(TypeOf(kind), Trimmed(category))
  {
    var t := TypeOf(kind);
    var c := Trimmed(category);
    if IsOther(t) then Success(Validated("Other", if c == "" then "Other" else c))
    else if NeedsCategory(t) && c == "" then Failure(CategoryRequired)
    else Success(Validated(t, c))
  }

  lemma OtherIsLowerOther()
    ensures Lower("Other") == "other"
  {
    var l := Lower("Other");
    assert l[0] == 'o';
  }

  /** A missing or blank type is an "Expense", so it needs a category. */
  lemma BlankTypeIsExpense(kind: Option<string>, category: Option<string>)
    requires Trimmed(kind) == ""
    ensures Trimmed(category) == "" ==> Check(kind, category) == Failure(CategoryRequired)
    ensures Trimmed(category) != "" ==> Check(kind, category) == Success(Validated("Expense", Trimmed(category)))
  {
    LowerOfExpense();
    assert NeedsCategory("Expense") && !IsOther("Expense");
  }

  /** "other", in any case and with any surrounding blanks, is always accepted
      as "Other", its category defaulting to "Other". */
  lemma OtherIsAlwaysAccepted(kind: Option<string>, category: Option<string>)
    requires IsOther(Trimmed(kind))
    ensures Check(kind, category)
         == Success(Validated("Other", if Trimmed(category) == "" then "Other" else Trimmed(category)))
  {
  }

  /** A type outside `RequiredTypes` and other than "other" is accepted with
      whatever category, stored trimmed and in its original case. */
  lemma UnknownTypeIsKept(kind: Option<string>, category: Option<string>)
    requires Trimmed(kind) != "" && !IsOther(Trimmed(kind)) && !NeedsCategory(Trimmed(kind))
    ensures Check(kind, category) == Success(Validated(Trimmed(kind), Trimmed(category)))
  {
  }

  /** Validating an accepted result again gives it back unchanged. */
  lemma CheckIdempotent(kind: Option<string>, category: Option<string>)
    requires Check(kind, category).Success?
    ensures var v := Check(kind, category).value;
            Check(Some(v.kind), Some(v.category)) == Success(v)
  {
    var v := Check(kind, category).value;
    StripKeepsTrimmed(v.kind);
    StripKeepsTrimmed(v.category);
    OtherIsLowerOther();
    LowerOfExpense();
  }

  /** The `attrs` dictionary as `validate` sees it: only the two fields it
      reads and overwrites. */
  class ExpenseAttrs {
    var kind: Option<string>
    var category: Option<string>

    constructor(kind: Option<string>, category: Option<string>)
      ensures this.kind == kind && this.category == category
    {
      this.kind := kind;
      this.category := category;
    }

    /** `validate(attrs)`: on success both fields are overwritten with their
        normalised values; on failure the error is returned and nothing is
        written. */
    method Validate() returns (error: Option<FieldError>)
      modifies this
      ensures var r := Check(old(kind), old(category));
        && (r.Success? ==> error.None? && kind == Some(r.value.kind) && category == Some(r.value.category))
        && (r.Failure? ==> error == Some(r.error) && kind == old(kind) && category == old(category))
    {
      var t := Strip(kind.GetOr(""));
      if t == "" {
        t := "Expense";
      }
      var c := Strip(category.GetOr(""));
      var lowered := Lower(t);
      if lowered == "other" {
        kind := Some("Other");
        category := Some(if c == "" then "Other" else c);
        return None;
      }
      if lowered in RequiredTypes && c == "" {
        return Some(CategoryRequired);
      }
      kind := Some(t);
      category := Some(c);
      return None;
    }
  }
}
