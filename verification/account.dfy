/**
 * Account deletion: the user's transactions, then their categories, then the
 * user row, as three separate store calls with no transaction around them.
 */
module AccountDeletion {
  import opened Wrappers
  import opened Ledger

  /** The session lookup and the three store calls, in the order they are made. */
  datatype Step = ReadSession | DeleteTransactions | DeleteCategories | DeleteUser

  /** The HTTP response: a status code and a plain-text body. */
  datatype Response = Response(status: int, body: string)

  const Unauthorized: Response := Response(401, "Unauthorized")
  const Deleted: Response := Response(200, "Account deleted successfully")
  const InternalError: Response := Response(500, "Internal error")

  function TransactionsNotOf(s: seq<Transaction>, u: UserId): (r: seq<Transaction>)
    ensures forall t :: t in r <==> t in s && t.userId != u
  {
    if s == [] then []
    else
      var init := TransactionsNotOf(s[..|s| - 1], u);
      if s[|s| - 1].userId != u then init + [s[|s| - 1]] else init
  }

  function CategoriesNotOf(cs: seq<Category>, u: UserId): (r: seq<Category>)
    ensures forall c :: c in r <==> c in cs && c.userId != u
  {
    if cs == [] then []
    else
      var init := CategoriesNotOf(cs[..|cs| - 1], u);
      if cs[|cs| - 1].userId != u then init + [cs[|cs| - 1]] else init
  }

  function UsersNotWithId(us: seq<User>, u: UserId): (r: seq<User>)
    ensures forall x :: x in r <==> x in us && x.id != u
  {
    if us == [] then []
    else
      var init := UsersNotWithId(us[..|us| - 1], u);
      if us[|us| - 1].id != u then init + [us[|us| - 1]] else init
  }

  /** Step 1: `transaction.deleteMany({ where: { userId } })`. */
  function AfterTransactions(st: Store, u: UserId): Store {
    st.(transactions := TransactionsNotOf(st.transactions, u))
  }

  /** Step 2: `category.deleteMany({ where: { userId } })`. */
  function AfterCategories(st: Store, u: UserId): Store {
    st.(categories := CategoriesNotOf(st.categories, u))
  }

  /** Step 3: `user.delete({ where: { id } })`, which fails when there is no such user. */
  function AfterUser(st: Store, u: UserId): Store {
    st.(users := UsersNotWithId(st.users, u))
  }

  /**
   * The DELETE handler. `failing` is the store call that throws, if any; the
   * user delete also throws when the user row is already gone. Every throw is
   * caught and answered with 500, and the calls made before it stay done.
   */
  function DeleteAccount(st: Store, session: Option<UserId>, failing: Option<Step>): (r: (Response, Store))
    ensures failing == Some(ReadSession) ==> r == (InternalError, st)
    ensures failing != Some(ReadSession) && session.None? ==> r == (Unauthorized, st)
    ensures session.Some? && failing.None? && HasUser(st, session.value) ==>
      && r.0 == Deleted
      && (forall t :: t in r.1.transactions <==> t in st.transactions && t.userId != session.value)
      && (forall c :: c in r.1.categories <==> c in st.categories && c.userId != session.value)
      && (forall x :: x in r.1.users <==> x in st.users && x.id != session.value)
    ensures session.Some? && failing == Some(DeleteTransactions) ==> r == (InternalError, st)
    ensures session.Some? && failing == Some(DeleteCategories) ==>
      r == (InternalError, AfterTransactions(st, session.value))
    ensures session.Some? && (failing == Some(DeleteUser) || (failing.None? && !HasUser(st, session.value))) ==>
      r == (InternalError, AfterCategories(AfterTransactions(st, session.value), session.value))
  {
    if failing == Some(ReadSession) then (InternalError, st)
    else match session
    case None => (Unauthorized, st)
    case Some(u) =>
      if failing == Some(DeleteTransactions) then (InternalError, st)
      else
        var st1 := AfterTransactions(st, u);
        if failing == Some(DeleteCategories) then (InternalError, st1)
        else
          var st2 := AfterCategories(st1, u);
          if failing == Some(DeleteUser) || !HasUser(st2, u) then (InternalError, st2)
          else (Deleted, AfterUser(st2, u))
  }

  /** After a successful deletion nothing of the user is left in the store. */
  lemma DeletedAccountLeavesNothing(st: Store, u: UserId)
    requires HasUser(st, u)
    ensures var r := DeleteAccount(st, Some(u), None);
      && r.0.status == 200
      && !HasUser(r.1, u)
      && (forall t :: t in r.1.transactions ==> t.userId != u)
      && (forall c :: c in r.1.categories ==> c.userId != u)
  {
  }

  /**
   * The steps are not atomic: when the user delete fails, the answer is 500
   * yet the user's transactions and categories are already gone while the
   * user row stays.
   */
  lemma FailedUserDeleteKeepsEarlierSteps(st: Store, u: UserId)
    requires HasUser(st, u)
    ensures var r := DeleteAccount(st, Some(u), Some(DeleteUser));
      && r.0.status == 500
      && HasUser(r.1, u)
      && (forall t :: t in r.1.transactions ==> t.userId != u)
      && (forall c :: c in r.1.categories ==> c.userId != u)
  {
  }

  /**
   * No other user's transaction uses one of `u`'s categories (the situation
   * in which the transactions-then-categories order cannot strand a row).
   */
  predicate CategoriesPrivateTo(st: Store, u: UserId) {
    forall t, c :: t in st.transactions && c in st.categories && c.userId == u && t.categoryId == c.id ==>
      t.userId == u
  }

  /** Each of the three steps, taken in order, leaves every reference intact. */
  lemma {:induction false} DeletionOrderKeepsIntegrity(st: Store, u: UserId)
    requires ReferentialIntegrity(st)
    requires CategoriesPrivateTo(st, u)
    ensures ReferentialIntegrity(AfterTransactions(st, u))
    ensures ReferentialIntegrity(AfterCategories(AfterTransactions(st, u), u))
    ensures ReferentialIntegrity(AfterUser(AfterCategories(AfterTransactions(st, u), u), u))
  {
    var st1 := AfterTransactions(st, u);
    var st2 := AfterCategories(st1, u);
    var st3 := AfterUser(st2, u);
    forall t | t in st2.transactions
      ensures HasCategory(st2, t.categoryId)
    {
      var c :| c in st.categories && c.id == t.categoryId;
      assert c in st2.categories;
    }
    forall c | c in st3.categories
      ensures HasUser(st3, c.userId)
    {
      var x :| x in st.users && x.id == c.userId;
      assert x in st3.users;
    }
    forall t | t in st3.transactions
      ensures HasUser(st3, t.userId)
    {
      var x :| x in st.users && x.id == t.userId;
      assert x in st3.users;
    }
  }

  /** Deleting the categories first would strand the user's transactions that use them. */
  lemma CategoriesFirstBreaksIntegrity(st: Store, u: UserId, t: Transaction)
    requires t in st.transactions && t.userId == u
    requires forall c :: c in st.categories && c.id == t.categoryId ==> c.userId == u
    ensures !ReferentialIntegrity(AfterCategories(st, u))
  {
    assert !HasCategory(AfterCategories(st, u), t.categoryId);
  }
}
