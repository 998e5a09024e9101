/**
 * The ledger store: users, categories and transactions held as immutable
 * sequences, with the `where` filters and sums the queries are built from.
 */
module Ledger {
  import opened Wrappers

  type UserId = nat
  type CategoryId = nat
  type TransactionId = nat

  /** A point in time: milliseconds since the Unix epoch, as a JavaScript `Date` holds it. */
  type Instant = int

  /** Amounts are whole cents. */
  type Amount = int

  datatype TxType = Income | Expense

  datatype User = User(id: UserId, name: string, email: string, password: string)

  datatype Category = Category(
    id: CategoryId,
    name: string,
    kind: TxType,
    color: Option<string>,
    icon: Option<string>,
    userId: UserId)

  datatype Transaction = Transaction(
    id: TransactionId,
    amount: Amount,
    kind: TxType,
    description: string,
    categoryId: CategoryId,
    date: Instant,
    userId: UserId)

  datatype Store = Store(users: seq<User>, categories: seq<Category>, transactions: seq<Transaction>)

  /** The names of the two per-type default categories, which the interface refuses to delete. */
  const OtherIncome: string := "Other Income"
  const OtherExpenses: string := "Other Expenses"

  predicate IsReservedName(name: string) {
    name == OtherIncome || name == OtherExpenses
  }

  /**
   * The comparison is exact: a different case, a trailing blank or a prefix of
   * a reserved name is an ordinary name.
   */
  lemma ReservedNamesAreExact()
    ensures IsReservedName("Other Income") && IsReservedName("Other Expenses")
    ensures !IsReservedName("other income") && !IsReservedName("OTHER EXPENSES")
    ensures !IsReservedName("Other Income ") && !IsReservedName("Other")
  {
  }

  // ---------------------------------------------------------------------------
  // Transaction filters: the `where` clause of a store query.
  // ---------------------------------------------------------------------------

  /** A conjunction of optional constraints; an absent field places no constraint. */
  datatype Where = Where(
    userId: Option<UserId>,
    kind: Option<TxType>,
    categoryId: Option<CategoryId>,
    from: Option<Instant>,
    to: Option<Instant>)

  const Everything: Where := Where(None, None, None, None, None)

  predicate Matches(w: Where, t: Transaction) {
    && (w.userId.Some? ==> t.userId == w.userId.value)
    && (w.kind.Some? ==> t.kind == w.kind.value)
    && (w.categoryId.Some? ==> t.categoryId == w.categoryId.value)
    && (w.from.Some? ==> w.from.value <= t.date)
    && (w.to.Some? ==> t.date <= w.to.value)
  }

  /** The transactions that satisfy `w`, in store order. */
  function FindMany(s: seq<Transaction>, w: Where): (r: seq<Transaction>)
    ensures |r| <= |s|
    ensures forall t :: t in r <==> t in s && Matches(w, t)
  {
    if s == [] then []
    else
      var init := FindMany(s[..|s| - 1], w);
      var t := s[|s| - 1];
      if Matches(w, t) then init + [t] else init
  }

  /** A filter nothing in `s` satisfies selects nothing. */
  lemma {:induction false} FindManyNone(s: seq<Transaction>, w: Where)
    requires forall t :: t in s ==> !Matches(w, t)
    ensures FindMany(s, w) == []
  {
    if s != [] {
      assert s[|s| - 1] in s;
      FindManyNone(s[..|s| - 1], w);
    }
  }

  /** The sum of the amounts of `s`. */
  function Total(s: seq<Transaction>): Amount
  {
    if s == [] then 0 else Total(s[..|s| - 1]) + s[|s| - 1].amount
  }

  lemma {:induction false} FindManyConcat(a: seq<Transaction>, b: seq<Transaction>, w: Where)
    ensures FindMany(a + b, w) == FindMany(a, w) + FindMany(b, w)
    decreases |b|
  {
    if b == [] {
      assert a + b == a;
    } else {
      var b' := b[..|b| - 1];
      assert (a + b)[..|a + b| - 1] == a + b';
      assert (a + b)[|a + b| - 1] == b[|b| - 1];
      FindManyConcat(a, b', w);
    }
  }

  lemma {:induction false} TotalConcat(a: seq<Transaction>, b: seq<Transaction>)
    ensures Total(a + b) == Total(a) + Total(b)
    decreases |b|
  {
    if b == [] {
      assert a + b == a;
    } else {
      var b' := b[..|b| - 1];
      assert (a + b)[..|a + b| - 1] == a + b';
      TotalConcat(a, b');
    }
  }

  /** Filtering twice is filtering once by the conjunction of the two conditions. */
  lemma {:induction false} FindManyTwice(s: seq<Transaction>, outer: Where, inner: Where, both: Where)
    requires forall t :: Matches(both, t) <==> Matches(outer, t) && Matches(inner, t)
    ensures FindMany(FindMany(s, outer), inner) == FindMany(s, both)
    decreases |s|
  {
    if s != [] {
      var init := s[..|s| - 1];
      var t := s[|s| - 1];
      FindManyTwice(init, outer, inner, both);
      if Matches(outer, t) {
        assert (FindMany(init, outer) + [t])[..|FindMany(init, outer)|] == FindMany(init, outer);
      }
    }
  }

  /** A filtered sum splits over a concatenation of stores. */
  lemma FilteredTotalConcat(a: seq<Transaction>, b: seq<Transaction>, w: Where)
    ensures Total(FindMany(a + b, w)) == Total(FindMany(a, w)) + Total(FindMany(b, w))
  {
    FindManyConcat(a, b, w);
    TotalConcat(FindMany(a, w), FindMany(b, w));
  }

  lemma FilteredTotalSingle(x: Transaction, w: Where)
    ensures Total(FindMany([x], w)) == if Matches(w, x) then x.amount else 0
  {
    assert [x][..0] == [];
  }

  lemma MultisetRemove<T>(a': seq<T>, x: T, left: seq<T>, right: seq<T>)
    requires multiset(a' + [x]) == multiset(left + [x] + right)
    ensures multiset(a') == multiset(left + right)
  {
    calc {
      multiset(left + right);
      multiset(left) + multiset(right);
      multiset(left + [x] + right) - multiset{x};
      multiset(a' + [x]) - multiset{x};
      multiset(a');
    }
  }

  /** Reordering the rows of the store never changes a filtered sum. */
  lemma {:induction false} TotalPermutation(a: seq<Transaction>, b: seq<Transaction>, w: Where)
    requires multiset(a) == multiset(b)
    ensures Total(FindMany(a, w)) == Total(FindMany(b, w))
    decreases |a|
  {
    if a == [] {
      assert |b| == |multiset(b)| == 0;
    } else {
      var x := a[|a| - 1];
      var a' := a[..|a| - 1];
      assert a == a' + [x];
      assert x in multiset(b);
      var i :| 0 <= i < |b| && b[i] == x;
      var left, right := b[..i], b[i + 1..];
      assert b == left + [x] + right;
      MultisetRemove(a', x, left, right);
      TotalPermutation(a', left + right, w);
      FilteredTotalConcat(a', [x], w);
      FilteredTotalConcat(left + [x], right, w);
      FilteredTotalConcat(left, [x], w);
      FilteredTotalConcat(left, right, w);
      FilteredTotalSingle(x, w);
    }
  }

  // ---------------------------------------------------------------------------
  // Other store queries.
  // ---------------------------------------------------------------------------

  /** The categories owned by `u`, in store order. */
  function CategoriesOf(cs: seq<Category>, u: UserId): (r: seq<Category>)
    ensures forall c :: c in r <==> c in cs && c.userId == u
  {
    if cs == [] then []
    else
      var init := CategoriesOf(cs[..|cs| - 1], u);
      var c := cs[|cs| - 1];
      if c.userId == u then init + [c] else init
  }

  /** Each of `u`'s categories is listed as often as it is stored; no other is listed. */
  lemma {:induction false} CategoriesOfCount(cs: seq<Category>, u: UserId, c: Category)
    ensures multiset(CategoriesOf(cs, u))[c] == if c.userId == u then multiset(cs)[c] else 0
    decreases |cs|
  {
    if cs != [] {
      var init := cs[..|cs| - 1];
      assert init + [cs[|cs| - 1]] == cs;
      CategoriesOfCount(init, u, c);
    }
  }

  /** The first category with id `id`: a lookup by primary key. */
  function CategoryById(cs: seq<Category>, id: CategoryId): (r: Option<Category>)
    ensures r.Some? ==> r.value in cs && r.value.id == id
    ensures r.None? ==> forall c :: c in cs ==> c.id != id
  {
    if cs == [] then None
    else if cs[0].id == id then Some(cs[0])
    else CategoryById(cs[1..], id)
  }

  /** The position of the first transaction with id `id`, or `|s|` if there is none. */
  function TransactionIndex(s: seq<Transaction>, id: TransactionId): (i: nat)
    ensures i <= |s|
    ensures i < |s| ==> s[i].id == id
    ensures forall j :: 0 <= j < i ==> s[j].id != id
  {
    if s == [] then 0
    else if s[0].id == id then 0
    else 1 + TransactionIndex(s[1..], id)
  }

  // ---------------------------------------------------------------------------
  // Id generation: the store hands out an id no row of that table uses.
  // ---------------------------------------------------------------------------

  function NextTransactionId(s: seq<Transaction>): (id: TransactionId)
    ensures forall t :: t in s ==> t.id < id
  {
    if s == [] then 0
    else
      var m := NextTransactionId(s[..|s| - 1]);
      if s[|s| - 1].id < m then m else s[|s| - 1].id + 1
  }

  function NextCategoryId(cs: seq<Category>): (id: CategoryId)
    ensures forall c :: c in cs ==> c.id < id
  {
    if cs == [] then 0
    else
      var m := NextCategoryId(cs[..|cs| - 1]);
      if cs[|cs| - 1].id < m then m else cs[|cs| - 1].id + 1
  }

  function NextUserId(us: seq<User>): (id: UserId)
    ensures forall u :: u in us ==> u.id < id
  {
    if us == [] then 0
    else
      var m := NextUserId(us[..|us| - 1]);
      if us[|us| - 1].id < m then m else us[|us| - 1].id + 1
  }

  // ---------------------------------------------------------------------------
  // Store invariants.
  // ---------------------------------------------------------------------------

  predicate HasUser(st: Store, u: UserId) {
    exists x :: x in st.users && x.id == u
  }

  predicate HasCategory(st: Store, c: CategoryId) {
    exists x :: x in st.categories && x.id == c
  }

  /** Every foreign key points at an existing row. */
  predicate ReferentialIntegrity(st: Store) {
    && (forall c :: c in st.categories ==> HasUser(st, c.userId))
    && (forall t :: t in st.transactions ==> HasUser(st, t.userId) && HasCategory(st, t.categoryId))
  }

  /** Every transaction id names at most one row (the table's primary key). */
  predicate UniqueTransactionIds(s: seq<Transaction>) {
    forall i, j :: 0 <= i < j < |s| ==> s[i].id != s[j].id
  }

  /** Every category id names at most one row (the table's primary key). */
  predicate UniqueCategoryIds(cats: seq<Category>) {
    forall i, j :: 0 <= i < j < |cats| ==> cats[i].id != cats[j].id
  }

  predicate UniqueEmails(users: seq<User>) {
    forall i, j :: 0 <= i < j < |users| ==> users[i].email != users[j].email
  }
}
