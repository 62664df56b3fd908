/** The three stored record kinds (core/models.py), reduced to the fields the
    views read. Amounts are integer cents; dates are `YYYY-MM-DD` strings, which
    order chronologically when compared as strings. */
module Records {

  /** The primary key of the owning user. */
  type UserId = nat

  datatype Income = Income(
    id: nat,
    user: UserId,
    amount: int,
    date: string,
    source: string,
    remark: string)

  /** `kind` is the stored `Expense.type` label. */
  datatype Expense = Expense(
    id: nat,
    user: UserId,
    date: string,
    amount: int,
    remark: string,
    kind: string,
    category: string)

  /** `amount` is the planned amount. */
  datatype Budget = Budget(
    id: nat,
    user: UserId,
    category: string,
    subcategory: string,
    amount: int,
    date: string)
}
