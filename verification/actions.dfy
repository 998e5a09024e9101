/**
 * The server actions over transactions and categories. Each reads the user
 * id from the session and refuses to run without one; the store is passed
 * in and the new store returned beside the result.
 */
module Actions {
  import opened Wrappers
  import opened Ledger
  import opened DateOrder

  /** The user id the session carries, if any. */
  type Session = Option<UserId>

  /**
   * The errors the actions throw: `NotAuthenticated` is `new Error("Not authenticated")`
   * and `Unauthorized` is `new Error("Unauthorized")`.
   */
  datatype ActionError = NotAuthenticated | Unauthorized

  /** The fields a caller supplies when creating or updating a transaction. */
  datatype TransactionData = TransactionData(
    amount: Amount,
    kind: TxType,
    description: string,
    categoryId: CategoryId,
    date: Instant)

  /** The fields a caller supplies when creating a category. */
  datatype CategoryData = CategoryData(
    name: string,
    kind: TxType,
    color: Option<string>,
    icon: Option<string>)

  /** A transaction with its category joined in (`include: { category: true }`). */
  datatype TransactionView = TransactionView(tx: Transaction, category: Option<Category>)

  function Joined(st: Store, t: Transaction): (v: TransactionView)
    ensures v.tx == t
    ensures v.category.Some? ==> v.category.value in st.categories && v.category.value.id == t.categoryId
    ensures v.category.None? ==> !HasCategory(st, t.categoryId)
  {
    TransactionView(t, CategoryById(st.categories, t.categoryId))
  }

  function Rows(vs: seq<TransactionView>): (ts: seq<Transaction>)
    ensures |ts| == |vs|
    ensures forall i :: 0 <= i < |vs| ==> ts[i] == vs[i].tx
  {
    seq(|vs|, i requires 0 <= i < |vs| => vs[i].tx)
  }

  function OwnedBy(u: UserId): Where {
    Everything.(userId := Some(u))
  }

  // ---------------------------------------------------------------------------
  // createTransaction
  // ---------------------------------------------------------------------------

  /**
   * Store a new transaction for the session user. The category id is taken
   * as given: nothing checks that the category belongs to the caller.
   */
  function CreateTransaction(st: Store, session: Session, data: TransactionData): (r: (Result<TransactionView, ActionError>, Store))
    ensures session.None? ==> r == (Failure(NotAuthenticated), st)
    ensures session.Some? ==>
      && r.0.Success?
      && var t := r.0.value.tx;
      && t.userId == session.value
      && t.amount == data.amount && t.kind == data.kind && t.description == data.description
      && t.categoryId == data.categoryId && t.date == data.date
      && (forall x :: x in st.transactions ==> x.id != t.id)
      && r.1 == st.(transactions := st.transactions + [t])
      && r.0.value == Joined(r.1, t)
    ensures UniqueTransactionIds(st.transactions) ==> UniqueTransactionIds(r.1.transactions)
  {
    match session
    case None => (Failure(NotAuthenticated), st)
    case Some(u) =>
      var t := Transaction(NextTransactionId(st.transactions), data.amount, data.kind,
                           data.description, data.categoryId, data.date, u);
      var st' := st.(transactions := st.transactions + [t]);
      (Success(Joined(st', t)), st')
  }

  // ---------------------------------------------------------------------------
  // getTransactions
  // ---------------------------------------------------------------------------

  /** The session user's transactions, newest first, each with its category. */
  function GetTransactions(st: Store, session: Session): (r: Result<seq<TransactionView>, ActionError>)
    ensures session.None? ==> r == Failure(NotAuthenticated)
    ensures session.Some? ==>
      && r.Success?
      && multiset(Rows(r.value)) == multiset(FindMany(st.transactions, OwnedBy(session.value)))
      && SortedByDate(Rows(r.value), true)
      && (forall v :: v in r.value ==> v == Joined(st, v.tx))
  {
    match session
    case None => Failure(NotAuthenticated)
    case Some(u) =>
      var sorted := SortByDate(FindMany(st.transactions, OwnedBy(u)), true);
      var views := seq(|sorted|, i requires 0 <= i < |sorted| => Joined(st, sorted[i]));
      assert Rows(views) == sorted;
      Success(views)
  }

  /** A user sees exactly their own transactions: every one of them and no other user's. */
  lemma GetTransactionsIsExactlyOwn(st: Store, u: UserId, t: Transaction)
    ensures var vs := GetTransactions(st, Some(u)).value;
      (exists v :: v in vs && v.tx == t) <==> t in st.transactions && t.userId == u
  {
    var vs := GetTransactions(st, Some(u)).value;
    var own := FindMany(st.transactions, OwnedBy(u));
    assert t in Rows(vs) <==> t in own by {
      assert t in Rows(vs) <==> t in multiset(Rows(vs));
      assert t in own <==> t in multiset(own);
    }
    if t in Rows(vs) {
      var i :| 0 <= i < |vs| && Rows(vs)[i] == t;
      assert vs[i] in vs;
    }
    if exists v :: v in vs && v.tx == t {
      var v :| v in vs && v.tx == t;
      var i :| 0 <= i < |vs| && vs[i] == v;
      assert Rows(vs)[i] == t;
    }
  }

  /** A created transaction is listed for its creator afterwards, beside everything listed before. */
  lemma CreatedTransactionIsListed(st: Store, u: UserId, data: TransactionData, t: Transaction)
    ensures var (r, st') := CreateTransaction(st, Some(u), data);
      (exists v :: v in GetTransactions(st', Some(u)).value && v.tx == t) <==>
        t == r.value.tx || (exists v :: v in GetTransactions(st, Some(u)).value && v.tx == t)
  {
    var (r, st') := CreateTransaction(st, Some(u), data);
    GetTransactionsIsExactlyOwn(st, u, t);
    GetTransactionsIsExactlyOwn(st', u, t);
  }

  /** Creating a transaction moves the creator's summary by its amount, on the side of its type. */
  lemma CreateMovesSummary(st: Store, u: UserId, data: TransactionData)
    ensures var before := GetFinancialSummary(st, Some(u)).value;
      var after := GetFinancialSummary(CreateTransaction(st, Some(u), data).1, Some(u)).value;
      && after.totalIncome == before.totalIncome + (if data.kind == Income then data.amount else 0)
      && after.totalExpenses == before.totalExpenses + (if data.kind == Expense then data.amount else 0)
  {
    CreateMovesTotal(st, u, data, Income);
    CreateMovesTotal(st, u, data, Expense);
  }

  lemma CreateMovesTotal(st: Store, u: UserId, data: TransactionData, k: TxType)
    ensures Total(FindMany(CreateTransaction(st, Some(u), data).1.transactions, OwnedOfKind(u, k))) ==
      Total(FindMany(st.transactions, OwnedOfKind(u, k))) + (if data.kind == k then data.amount else 0)
  {
    var t := CreateTransaction(st, Some(u), data).0.value.tx;
    FilteredTotalConcat(st.transactions, [t], OwnedOfKind(u, k));
    FilteredTotalSingle(t, OwnedOfKind(u, k));
  }

  // ---------------------------------------------------------------------------
  // createCategory / getCategories
  // ---------------------------------------------------------------------------

  /** Store a new category for the session user; names need not be unique. */
  function CreateCategory(st: Store, session: Session, data: CategoryData): (r: (Result<Category, ActionError>, Store))
    ensures session.None? ==> r == (Failure(NotAuthenticated), st)
    ensures session.Some? ==>
      && r.0.Success?
      && var c := r.0.value;
      && c.userId == session.value
      && c.name == data.name && c.kind == data.kind && c.color == data.color && c.icon == data.icon
      && (forall x :: x in st.categories ==> x.id != c.id)
      && r.1 == st.(categories := st.categories + [c])
    ensures UniqueCategoryIds(st.categories) ==> UniqueCategoryIds(r.1.categories)
  {
    match session
    case None => (Failure(NotAuthenticated), st)
    case Some(u) =>
      var c := Category(NextCategoryId(st.categories), data.name, data.kind, data.color, data.icon, u);
      (Success(c), st.(categories := st.categories + [c]))
  }

  /** The session user's categories, and no other user's. */
  function GetCategories(st: Store, session: Session): (r: Result<seq<Category>, ActionError>)
    ensures session.None? ==> r == Failure(NotAuthenticated)
    ensures session.Some? ==>
      r.Success? && forall c :: c in r.value <==> c in st.categories && c.userId == session.value
    ensures session.Some? ==>
      forall c :: multiset(r.value)[c] == if c.userId == session.value then multiset(st.categories)[c] else 0
  {
    match session
    case None => Failure(NotAuthenticated)
    case Some(u) =>
      forall c ensures multiset(CategoriesOf(st.categories, u))[c] ==
        if c.userId == u then multiset(st.categories)[c] else 0
      {
        CategoriesOfCount(st.categories, u, c);
      }
      Success(CategoriesOf(st.categories, u))
  }

  /** A created category is listed for its creator afterwards, beside everything listed before. */
  lemma CreatedCategoryIsListed(st: Store, u: UserId, data: CategoryData, c: Category)
    ensures var (r, st') := CreateCategory(st, Some(u), data);
      c in GetCategories(st', Some(u)).value <==> c == r.value || c in GetCategories(st, Some(u)).value
  {
  }

  // ---------------------------------------------------------------------------
  // getFinancialSummary
  // ---------------------------------------------------------------------------

  datatype Summary = Summary(totalIncome: Amount, totalExpenses: Amount, totalBalance: Amount)

  function OwnedOfKind(u: UserId, k: TxType): Where {
    Everything.(userId := Some(u), kind := Some(k))
  }

  /** The summary of a list of loaded transactions: two filtered sums and their difference. */
  function Summarize(mine: seq<Transaction>): Summary {
    var income := Total(FindMany(mine, Everything.(kind := Some(Income))));
    var expenses := Total(FindMany(mine, Everything.(kind := Some(Expense))));
    Summary(income, expenses, income - expenses)
  }

  /** Lifetime income, expenses and balance over the session user's transactions. */
  function GetFinancialSummary(st: Store, session: Session): (r: Result<Summary, ActionError>)
    ensures session.None? ==> r == Failure(NotAuthenticated)
    ensures session.Some? ==>
      && r.Success?
      && r.value.totalIncome == Total(FindMany(st.transactions, OwnedOfKind(session.value, Income)))
      && r.value.totalExpenses == Total(FindMany(st.transactions, OwnedOfKind(session.value, Expense)))
      && r.value.totalBalance == r.value.totalIncome - r.value.totalExpenses
  {
    match session
    case None => Failure(NotAuthenticated)
    case Some(u) =>
      FindManyTwice(st.transactions, OwnedBy(u), Everything.(kind := Some(Income)), OwnedOfKind(u, Income));
      FindManyTwice(st.transactions, OwnedBy(u), Everything.(kind := Some(Expense)), OwnedOfKind(u, Expense));
      Success(Summarize(FindMany(st.transactions, OwnedBy(u))))
  }

  /**
   * Other users' rows have no influence: two stores holding the same
   * transactions of `u`, in any order, give `u` the same summary.
   */
  lemma SummaryDependsOnlyOnOwnRows(st: Store, st': Store, u: UserId)
    requires multiset(FindMany(st.transactions, OwnedBy(u))) == multiset(FindMany(st'.transactions, OwnedBy(u)))
    ensures GetFinancialSummary(st, Some(u)) == GetFinancialSummary(st', Some(u))
  {
    var a, b := FindMany(st.transactions, OwnedBy(u)), FindMany(st'.transactions, OwnedBy(u));
    TotalPermutation(a, b, Everything.(kind := Some(Income)));
    TotalPermutation(a, b, Everything.(kind := Some(Expense)));
    assert Summarize(a) == Summarize(b);
  }

  // ---------------------------------------------------------------------------
  // updateTransaction
  // ---------------------------------------------------------------------------

  /** `t` with the five caller-supplied fields overwritten; id and owner are kept. */
  function Overwritten(t: Transaction, data: TransactionData): (t': Transaction)
    ensures t'.id == t.id && t'.userId == t.userId
    ensures t'.amount == data.amount && t'.kind == data.kind && t'.description == data.description
    ensures t'.categoryId == data.categoryId && t'.date == data.date
  {
    t.(amount := data.amount, kind := data.kind, description := data.description,
       categoryId := data.categoryId, date := data.date)
  }

  /**
   * Overwrite one of the session user's transactions. A missing id and a row
   * of another user fail alike, with "Unauthorized", and change nothing.
   */
  function UpdateTransaction(st: Store, session: Session, id: TransactionId, data: TransactionData): (r: (Result<TransactionView, ActionError>, Store))
    ensures session.None? ==> r == (Failure(NotAuthenticated), st)
    ensures r.0.Failure? ==> r.1 == st
    ensures session.Some? && UniqueTransactionIds(st.transactions) ==>
      (r.0.Success? <==> exists t :: t in st.transactions && t.id == id && t.userId == session.value)
    ensures session.Some? && r.0.Failure? ==> r.0.error == Unauthorized
    ensures r.0.Success? && UniqueTransactionIds(st.transactions) ==>
      && |r.1.transactions| == |st.transactions|
      && (forall i :: 0 <= i < |st.transactions| ==>
            r.1.transactions[i] ==
              if st.transactions[i].id == id then Overwritten(st.transactions[i], data) else st.transactions[i])
      && r.0.value.tx.id == id
      && r.0.value.tx in r.1.transactions
      && r.1.users == st.users && r.1.categories == st.categories
    ensures r.0.Success? ==> r.0.value == Joined(r.1, r.0.value.tx)
    ensures r.0.Success? ==>
      && session.Some?
      && exists t :: t in st.transactions && t.id == id && t.userId == session.value &&
           r.0.value.tx == Overwritten(t, data)
  {
    match session
    case None => (Failure(NotAuthenticated), st)
    case Some(u) =>
      var i := TransactionIndex(st.transactions, id);
      if i == |st.transactions| || st.transactions[i].userId != u then
        (Failure(Unauthorized), st)
      else
        var t := Overwritten(st.transactions[i], data);
        var st' := st.(transactions := st.transactions[i := t]);
        (Success(Joined(st', t)), st')
  }

  /** Applying the same update a second time changes nothing further. */
  lemma UpdateTransactionIdempotent(st: Store, session: Session, id: TransactionId, data: TransactionData)
    requires UpdateTransaction(st, session, id, data).0.Success?
    ensures var once := UpdateTransaction(st, session, id, data);
      UpdateTransaction(once.1, session, id, data) == once
  {
    var once := UpdateTransaction(st, session, id, data);
    var u := session.value;
    var i := TransactionIndex(st.transactions, id);
    var s' := once.1.transactions;
    assert s' == st.transactions[i := Overwritten(st.transactions[i], data)];
    assert forall j :: 0 <= j < i ==> s'[j] == st.transactions[j];
    TransactionIndexStable(st.transactions, s', id, i);
    assert s'[i := Overwritten(s'[i], data)] == s';
  }

  lemma TransactionIndexStable(s: seq<Transaction>, s': seq<Transaction>, id: TransactionId, i: nat)
    requires i < |s| == |s'|
    requires TransactionIndex(s, id) == i
    requires forall j :: 0 <= j < i ==> s'[j] == s[j]
    requires s'[i].id == id
    ensures TransactionIndex(s', id) == i
  {
  }

  /** Updates keep transaction ids unique. */
  lemma UpdateKeepsIdsUnique(st: Store, session: Session, id: TransactionId, data: TransactionData)
    requires UniqueTransactionIds(st.transactions)
    ensures UniqueTransactionIds(UpdateTransaction(st, session, id, data).1.transactions)
  {
  }
}
