/**
 * A walk through the actions as a new user sees them: register, record one
 * expense, read the summary.
 */
module Scenario {
  import opened Wrappers
  import opened Ledger
  import opened Registration
  import opened Actions

  /** A user the store does not know yet owns no transactions, where every transaction has an owner. */
  lemma NewUserHasNoTransactions(st: Store, u: UserId, k: TxType)
    requires ReferentialIntegrity(st)
    requires !HasUser(st, u)
    ensures FindMany(st.transactions, OwnedOfKind(u, k)) == []
  {
    forall t | t in st.transactions
      ensures !Matches(OwnedOfKind(u, k), t)
    {
      assert HasUser(st, t.userId);
    }
    FindManyNone(st.transactions, OwnedOfKind(u, k));
  }

  /** The summary is determined by the two per-kind totals of the user's rows. */
  lemma SummaryOfTotals(st: Store, u: UserId, income: int, expenses: int)
    requires Total(FindMany(st.transactions, OwnedOfKind(u, Income))) == income
    requires Total(FindMany(st.transactions, OwnedOfKind(u, Expense))) == expenses
    ensures GetFinancialSummary(st, Some(u)) == Success(Summary(income, expenses, income - expenses))
  {
    var r := GetFinancialSummary(st, Some(u));
    assert r.Success? && r.value.totalIncome == income && r.value.totalExpenses == expenses;
    assert r.value == Summary(income, expenses, income - expenses);
  }

  /** Right after registration the new user owns no transactions, so the summary is all zero. */
  lemma RegisteredUserStartsAtZero(st: Store, name: string, email: string, password: string, hash: string -> string)
    requires ReferentialIntegrity(st)
    requires !EmailTaken(st.users, email)
    ensures var (reg, st1) := RegisterUser(st, name, email, password, hash, None);
      && reg.Registered?
      && Total(FindMany(st1.transactions, OwnedOfKind(reg.user.id, Income))) == 0
      && Total(FindMany(st1.transactions, OwnedOfKind(reg.user.id, Expense))) == 0
      && GetFinancialSummary(st1, Some(reg.user.id)) == Success(Summary(0, 0, 0))
  {
    var (reg, st1) := RegisterUser(st, name, email, password, hash, None);
    var u := reg.user.id;
    assert !HasUser(st, u);
    NewUserHasNoTransactions(st, u, Income);
    NewUserHasNoTransactions(st, u, Expense);
    SummaryOfTotals(st1, u, 0, 0);
  }

  /** Recording a 50.00 expense (5000 cents) on empty totals leaves 0 of income and 50.00 of expenses. */
  lemma SpendFromZero(st: Store, u: UserId, data: TransactionData)
    requires Total(FindMany(st.transactions, OwnedOfKind(u, Income))) == 0
    requires Total(FindMany(st.transactions, OwnedOfKind(u, Expense))) == 0
    requires data.amount == 5000 && data.kind == Expense
    ensures var st2 := CreateTransaction(st, Some(u), data).1;
      && Total(FindMany(st2.transactions, OwnedOfKind(u, Income))) == 0
      && Total(FindMany(st2.transactions, OwnedOfKind(u, Expense))) == 5000
  {
    CreateMovesTotal(st, u, data, Income);
    CreateMovesTotal(st, u, data, Expense);
  }

  /**
   * A freshly registered user who records a 50.00 expense sees no income,
   * 50.00 of expenses and a balance of -50.00.
   */
  lemma RegisterThenSpend(st: Store, name: string, email: string, password: string, hash: string -> string,
                          food: CategoryId, date: Instant)
    requires ReferentialIntegrity(st)
    requires !EmailTaken(st.users, email)
    ensures var (reg, st1) := RegisterUser(st, name, email, password, hash, None);
      var st2 := CreateTransaction(st1, Some(reg.user.id), TransactionData(5000, Expense, "groceries", food, date)).1;
      GetFinancialSummary(st2, Some(reg.user.id)) == Success(Summary(0, 5000, -5000))
  {
    RegisteredUserStartsAtZero(st, name, email, password, hash);
    var (reg, st1) := RegisterUser(st, name, email, password, hash, None);
    var data := TransactionData(5000, Expense, "groceries", food, date);
    SpendFromZero(st1, reg.user.id, data);
    SummaryOfTotals(CreateTransaction(st1, Some(reg.user.id), data).1, reg.user.id, 0, 5000);
  }
}
