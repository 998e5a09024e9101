/**
 * Registration: refuse an e-mail address already in use, otherwise create the
 * user and its ten default categories inside one store transaction.
 */
module Registration {
  import opened Wrappers
  import opened Ledger

  /** A default category: name, type and colour; the icon is left unset. */
  datatype Seed = Seed(name: string, kind: TxType, color: string)

  const IncomeDefaults: seq<Seed> := [
    Seed("Salary", Income, "#22c55e"),
    Seed("Investments", Income, "#3b82f6"),
    Seed(OtherIncome, Income, "#8b5cf6")
  ]

  const ExpenseDefaults: seq<Seed> := [
    Seed("Housing", Expense, "#ef4444"),
    Seed("Transportation", Expense, "#f97316"),
    Seed("Food", Expense, "#eab308"),
    Seed("Utilities", Expense, "#14b8a6"),
    Seed("Healthcare", Expense, "#f43f5e"),
    Seed("Entertainment", Expense, "#a855f7"),
    Seed(OtherExpenses, Expense, "#64748b")
  ]

  /** The categories every new account starts with, in creation order. */
  const DefaultCategories: seq<Seed> := IncomeDefaults + ExpenseDefaults

  /** The store call that throws, if any. */
  datatype Fault = Lookup | Hashing | CreateUser | SeedCategories

  const UserExists: string := "User already exists"
  const CreateFailed: string := "Failed to create account"

  datatype Outcome = Registered(user: User) | Rejected(error: string)

  function CountKind(seeds: seq<Seed>, k: TxType): (n: nat)
    ensures n <= |seeds|
  {
    if seeds == [] then 0
    else CountKind(seeds[..|seeds| - 1], k) + (if seeds[|seeds| - 1].kind == k then 1 else 0)
  }

  lemma {:induction false} CountKindAppend(a: seq<Seed>, b: seq<Seed>, k: TxType)
    ensures CountKind(a + b, k) == CountKind(a, k) + CountKind(b, k)
    decreases |b|
  {
    if b == [] {
      assert a + b == a;
    } else {
      assert (a + b)[..|a + b| - 1] == a + b[..|b| - 1];
      CountKindAppend(a, b[..|b| - 1], k);
    }
  }

  lemma {:induction false} CountKindUniform(s: seq<Seed>, k: TxType)
    requires forall i :: 0 <= i < |s| ==> s[i].kind == k
    ensures CountKind(s, k) == |s|
    ensures forall k' :: k' != k ==> CountKind(s, k') == 0
  {
    if s != [] {
      CountKindUniform(s[..|s| - 1], k);
    }
  }

  /** The default categories: three income, seven expense, the two reserved names among them. */
  lemma DefaultCategoryMix()
    ensures |DefaultCategories| == 10
    ensures CountKind(DefaultCategories, Income) == 3
    ensures CountKind(DefaultCategories, Expense) == 7
    ensures Seed(OtherIncome, Income, "#8b5cf6") in DefaultCategories
    ensures Seed(OtherExpenses, Expense, "#64748b") in DefaultCategories
  {
    CountKindUniform(IncomeDefaults, Income);
    CountKindUniform(ExpenseDefaults, Expense);
    CountKindAppend(IncomeDefaults, ExpenseDefaults, Income);
    CountKindAppend(IncomeDefaults, ExpenseDefaults, Expense);
    assert DefaultCategories[2] == Seed(OtherIncome, Income, "#8b5cf6");
    assert DefaultCategories[9] == Seed(OtherExpenses, Expense, "#64748b");
  }

  /**
   * Exactly two default categories carry a name the category list refuses to
   * delete: the income one and the expense one.
   */
  lemma ReservedDefaults()
    ensures forall i :: 0 <= i < |DefaultCategories| ==>
      (IsReservedName(DefaultCategories[i].name) <==> i == 2 || i == 9)
    ensures DefaultCategories[2].name == OtherIncome && DefaultCategories[2].kind == Income
    ensures DefaultCategories[9].name == OtherExpenses && DefaultCategories[9].kind == Expense
  {
  }

  /** No two default categories share a name. */
  lemma DefaultNamesDistinct()
    ensures forall i, j :: 0 <= i < j < |DefaultCategories| ==> DefaultCategories[i].name != DefaultCategories[j].name
  {
  }

  /** The category rows `createMany` inserts for user `u`, numbered from `first`. */
  function SeededCategories(u: UserId, first: CategoryId): (r: seq<Category>)
    ensures |r| == |DefaultCategories|
    ensures forall i :: 0 <= i < |r| ==>
      && r[i].id == first + i
      && r[i].userId == u
      && r[i].name == DefaultCategories[i].name
      && r[i].kind == DefaultCategories[i].kind
      && r[i].color == Some(DefaultCategories[i].color)
      && r[i].icon.None?
  {
    seq(|DefaultCategories|, i requires 0 <= i < |DefaultCategories| =>
      Category(first + i, DefaultCategories[i].name, DefaultCategories[i].kind,
        Some(DefaultCategories[i].color), None, u))
  }

  predicate EmailTaken(users: seq<User>, email: string) {
    exists x :: x in users && x.email == email
  }

  /**
   * `registerUser`. `hash` stands for bcrypt with cost 10; `failing` is the
   * step that throws, if any. A throw anywhere is answered with the generic
   * error, and the store transaction leaves nothing behind.
   */
  function RegisterUser(st: Store, name: string, email: string, password: string,
                        hash: string -> string, failing: Option<Fault>): (r: (Outcome, Store))
    ensures r.0.Rejected? <==> r.1 == st
    ensures failing == Some(Lookup) ==> r.0 == Rejected(CreateFailed)
    ensures failing != Some(Lookup) && EmailTaken(st.users, email) ==> r.0 == Rejected(UserExists)
    ensures failing.Some? && !EmailTaken(st.users, email) ==> r.0 == Rejected(CreateFailed)
    ensures r.0.Registered? <==> failing.None? && !EmailTaken(st.users, email)
    ensures r.0.Registered? ==>
      var user := r.0.user;
      && user.name == name && user.email == email && user.password == hash(password)
      && (forall x :: x in st.users ==> x.id != user.id)
      && r.1.users == st.users + [user]
      && r.1.transactions == st.transactions
      && |r.1.categories| == |st.categories| + |DefaultCategories|
      && r.1.categories[..|st.categories|] == st.categories
      && (forall c :: c in r.1.categories[|st.categories|..] ==>
            c.userId == user.id && forall x :: x in st.categories ==> x.id < c.id)
  {
    if failing == Some(Lookup) then (Rejected(CreateFailed), st)
    else if EmailTaken(st.users, email) then (Rejected(UserExists), st)
    else if failing.Some? then (Rejected(CreateFailed), st)
    else
      var user := User(NextUserId(st.users), name, email, hash(password));
      var seeded := SeededCategories(user.id, NextCategoryId(st.categories));
      (Registered(user), Store(st.users + [user], st.categories + seeded, st.transactions))
  }

  /** A successful registration keeps every e-mail address unique. */
  lemma RegisterKeepsEmailsUnique(st: Store, name: string, email: string, password: string,
                                  hash: string -> string)
    requires UniqueEmails(st.users)
    ensures UniqueEmails(RegisterUser(st, name, email, password, hash, None).1.users)
  {
    var r := RegisterUser(st, name, email, password, hash, None);
    if r.0.Registered? {
      var us := r.1.users;
      forall i, j | 0 <= i < j < |us|
        ensures us[i].email != us[j].email
      {
        if j == |us| - 1 {
          assert us[i] in st.users;
        }
      }
    }
  }

  /** A successful registration keeps every foreign key pointing at a row. */
  lemma RegisterKeepsIntegrity(st: Store, name: string, email: string, password: string,
                               hash: string -> string)
    requires ReferentialIntegrity(st)
    ensures ReferentialIntegrity(RegisterUser(st, name, email, password, hash, None).1)
  {
    var r := RegisterUser(st, name, email, password, hash, None);
    if r.0.Registered? {
      var st' := r.1;
      var user := r.0.user;
      assert user in st'.users;
      forall c | c in st'.categories
        ensures HasUser(st', c.userId)
      {
        if c in st.categories {
          var x :| x in st.users && x.id == c.userId;
          assert x in st'.users;
        } else {
          var i :| 0 <= i < |st'.categories| && st'.categories[i] == c;
          assert st'.categories[|st.categories|..][i - |st.categories|] == c;
        }
      }
      forall t | t in st'.transactions
        ensures HasUser(st', t.userId) && HasCategory(st', t.categoryId)
      {
        var x :| x in st.users && x.id == t.userId;
        assert x in st'.users;
        var c :| c in st.categories && c.id == t.categoryId;
        assert c in st'.categories;
      }
    }
  }

  lemma {:induction false} CategoriesOfAppend(a: seq<Category>, b: seq<Category>, u: UserId)
    ensures CategoriesOf(a + b, u) == CategoriesOf(a, u) + CategoriesOf(b, u)
    decreases |b|
  {
    if b == [] {
      assert a + b == a;
    } else {
      assert (a + b)[..|a + b| - 1] == a + b[..|b| - 1];
      CategoriesOfAppend(a, b[..|b| - 1], u);
    }
  }

  lemma {:induction false} CategoriesOfNone(cs: seq<Category>, u: UserId)
    requires forall c :: c in cs ==> c.userId != u
    ensures CategoriesOf(cs, u) == []
  {
    if cs != [] {
      assert forall c :: c in cs[..|cs| - 1] ==> c in cs;
      CategoriesOfNone(cs[..|cs| - 1], u);
    }
  }

  lemma {:induction false} CategoriesOfAll(cs: seq<Category>, u: UserId)
    requires forall c :: c in cs ==> c.userId == u
    ensures CategoriesOf(cs, u) == cs
  {
    if cs != [] {
      var init := cs[..|cs| - 1];
      assert forall c :: c in init ==> c in cs;
      CategoriesOfAll(init, u);
      assert init + [cs[|cs| - 1]] == cs;
    }
  }

  /** With a free e-mail address and no fault, registration appends one user and its ten seeded categories. */
  lemma RegisterSucceeds(st: Store, name: string, email: string, password: string, hash: string -> string)
    requires !EmailTaken(st.users, email)
    ensures var user := User(NextUserId(st.users), name, email, hash(password));
      RegisterUser(st, name, email, password, hash, None) ==
        (Registered(user), Store(st.users + [user], st.categories + SeededCategories(user.id, NextCategoryId(st.categories)), st.transactions))
  {
  }

  /** The new user owns exactly the ten default categories afterwards, the reserved two among them. */
  lemma NewUserOwnsDefaults(st: Store, name: string, email: string, password: string,
                            hash: string -> string)
    requires forall c :: c in st.categories ==> c.userId < NextUserId(st.users)
    requires !EmailTaken(st.users, email)
    ensures var r := RegisterUser(st, name, email, password, hash, None);
      CategoriesOf(r.1.categories, r.0.user.id) == SeededCategories(r.0.user.id, NextCategoryId(st.categories))
  {
    var u := NextUserId(st.users);
    var seeded := SeededCategories(u, NextCategoryId(st.categories));
    RegisterSucceeds(st, name, email, password, hash);
    CategoriesOfAppend(st.categories, seeded, u);
    CategoriesOfNone(st.categories, u);
    CategoriesOfAll(seeded, u);
  }
}
