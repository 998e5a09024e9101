/**
 * The dashboard reports: cash flow by day, totals by category, and monthly
 * income against expense.
 */
module Reports {
  import opened Wrappers
  import opened Ledger
  import opened DateOrder
  import opened Grouping
  import opened Calendar

  /** Each transaction as a grouping entry: income side exactly when its type is INCOME. */
  function Entries<K>(s: seq<Transaction>, key: Transaction -> K): (es: seq<Entry<K>>)
    ensures |es| == |s|
    ensures forall i :: 0 <= i < |s| ==> es[i] == Entry(key(s[i]), s[i].kind == Income, s[i].amount)
  {
    seq(|s|, i requires 0 <= i < |s| => Entry(key(s[i]), s[i].kind == Income, s[i].amount))
  }

  /** `w` narrowed to the transactions of type `k`. */
  function OfKind(w: Where, k: TxType): Where {
    w.(kind := Some(k))
  }

  lemma EntryKeys<K(!new)>(s: seq<Transaction>, key: Transaction -> K)
    ensures forall k :: k in KeysOf(Entries(s, key)) <==> exists t :: t in s && key(t) == k
  {
    var ks := KeysOf(Entries(s, key));
    forall k | k in ks
      ensures exists t :: t in s && key(t) == k
    {
      var i :| 0 <= i < |ks| && ks[i] == k;
      assert s[i] in s && key(s[i]) == k;
    }
    forall t | t in s
      ensures key(t) in ks
    {
      var i :| 0 <= i < |s| && s[i] == t;
      assert ks[i] == key(t);
    }
  }

  lemma EntrySumsStep<K>(s: seq<Transaction>, key: Transaction -> K)
    requires s != []
    ensures IncomeSum(Entries(s, key)) ==
      IncomeSum(Entries(s[..|s| - 1], key)) + (if s[|s| - 1].kind == Income then s[|s| - 1].amount else 0)
    ensures ExpenseSum(Entries(s, key)) ==
      ExpenseSum(Entries(s[..|s| - 1], key)) + (if s[|s| - 1].kind == Income then 0 else s[|s| - 1].amount)
  {
    assert Entries(s, key)[..|s| - 1] == Entries(s[..|s| - 1], key);
  }

  lemma FilteredTotalStep(s: seq<Transaction>, w: Where)
    requires s != []
    ensures Total(FindMany(s, w)) ==
      Total(FindMany(s[..|s| - 1], w)) + (if Matches(w, s[|s| - 1]) then s[|s| - 1].amount else 0)
  {
    assert s[..|s| - 1] + [s[|s| - 1]] == s;
    FilteredTotalConcat(s[..|s| - 1], [s[|s| - 1]], w);
    FilteredTotalSingle(s[|s| - 1], w);
  }

  /** The income side of the entries sums the INCOME amounts, the other side all the rest. */
  lemma {:induction false} EntrySums<K>(s: seq<Transaction>, key: Transaction -> K)
    ensures IncomeSum(Entries(s, key)) == Total(FindMany(s, OfKind(Everything, Income)))
    ensures ExpenseSum(Entries(s, key)) == Total(FindMany(s, OfKind(Everything, Expense)))
    decreases |s|
  {
    if s != [] {
      EntrySums(s[..|s| - 1], key);
      EntrySumsStep(s, key);
      FilteredTotalStep(s, OfKind(Everything, Income));
      FilteredTotalStep(s, OfKind(Everything, Expense));
    }
  }

  /**
   * Grouping any reordering of the rows a query selects: one group per key
   * that occurs among them, and the two columns add up to the selected
   * INCOME and EXPENSE amounts.
   */
  lemma GroupedSelection<K(!new)>(txs: seq<Transaction>, w: Where, rows: seq<Transaction>, key: Transaction -> K)
    requires w.kind.None?
    requires multiset(rows) == multiset(FindMany(txs, w))
    ensures Distinct(RowKeys(Group(Entries(rows, key))))
    ensures forall k :: k in RowKeys(Group(Entries(rows, key))) <==>
      exists t :: t in txs && Matches(w, t) && key(t) == k
    ensures IncomeColumn(Group(Entries(rows, key))) == Total(FindMany(txs, OfKind(w, Income)))
    ensures ExpenseColumn(Group(Entries(rows, key))) == Total(FindMany(txs, OfKind(w, Expense)))
  {
    GroupedSelectionKeys(txs, w, rows, key);
    GroupedSelectionColumns(txs, w, rows, key);
  }

  lemma GroupedSelectionKeys<K(!new)>(txs: seq<Transaction>, w: Where, rows: seq<Transaction>, key: Transaction -> K)
    requires multiset(rows) == multiset(FindMany(txs, w))
    ensures forall k :: k in RowKeys(Group(Entries(rows, key))) <==>
      exists t :: t in txs && Matches(w, t) && key(t) == k
  {
    var selected := FindMany(txs, w);
    assert forall t :: t in rows <==> t in selected by {
      forall t ensures t in rows <==> t in selected {
        assert t in rows <==> t in multiset(rows);
        assert t in selected <==> t in multiset(selected);
      }
    }
    EntryKeys(rows, key);
  }

  lemma GroupedSelectionColumns<K(!new)>(txs: seq<Transaction>, w: Where, rows: seq<Transaction>, key: Transaction -> K)
    requires w.kind.None?
    requires multiset(rows) == multiset(FindMany(txs, w))
    ensures IncomeColumn(Group(Entries(rows, key))) == Total(FindMany(txs, OfKind(w, Income)))
    ensures ExpenseColumn(Group(Entries(rows, key))) == Total(FindMany(txs, OfKind(w, Expense)))
  {
    GroupConservesTotals(Entries(rows, key));
    EntrySums(rows, key);
    SelectionTotal(txs, w, rows, Income);
    SelectionTotal(txs, w, rows, Expense);
  }

  /** A reordering of the selection has the same total of each type as the narrowed query. */
  lemma SelectionTotal(txs: seq<Transaction>, w: Where, rows: seq<Transaction>, k: TxType)
    requires w.kind.None?
    requires multiset(rows) == multiset(FindMany(txs, w))
    ensures Total(FindMany(rows, OfKind(Everything, k))) == Total(FindMany(txs, OfKind(w, k)))
  {
    TotalPermutation(rows, FindMany(txs, w), OfKind(Everything, k));
    FindManyTwice(txs, w, OfKind(Everything, k), OfKind(w, k));
  }

  // ---------------------------------------------------------------------------
  // 1. Net cash-flow trend (lib/data.ts, getCashFlowByDate).
  // ---------------------------------------------------------------------------

  /** The user's transactions dated from `from` to `to`, both ends included. */
  function CashFlowWhere(u: UserId, from: Instant, to: Instant): Where {
    Where(Some(u), None, None, Some(from), Some(to))
  }

  /** The group key of a transaction: its UTC calendar day. */
  function DayKey(t: Transaction): int {
    DayOf(t.date)
  }

  lemma SortedDaysRanked(sorted: seq<Transaction>)
    requires SortedByDate(sorted, false)
    ensures forall i, j :: 0 <= i <= j < |sorted| ==>
      Entries(sorted, DayKey)[i].key <= Entries(sorted, DayKey)[j].key
  {
    forall i, j | 0 <= i <= j < |sorted|
      ensures DayKey(sorted[i]) <= DayKey(sorted[j])
    {
      if i < j {
        DayOfMonotone(sorted[i].date, sorted[j].date);
      }
    }
  }

  /**
   * One row per day on which the user has a transaction in the window, in
   * increasing day order; each row holds that day's income and expense sums.
   */
  function CashFlowByDate(txs: seq<Transaction>, u: UserId, from: Instant, to: Instant): (rows: seq<Row<int>>)
    ensures Distinct(RowKeys(rows))
    ensures forall d :: d in RowKeys(rows) <==>
      exists t :: t in txs && Matches(CashFlowWhere(u, from, to), t) && DayKey(t) == d
    ensures IncomeColumn(rows) == Total(FindMany(txs, OfKind(CashFlowWhere(u, from, to), Income)))
    ensures ExpenseColumn(rows) == Total(FindMany(txs, OfKind(CashFlowWhere(u, from, to), Expense)))
    ensures forall i, j :: 0 <= i < j < |rows| ==> rows[i].key < rows[j].key
  {
    var sorted := SortByDate(FindMany(txs, CashFlowWhere(u, from, to)), false);
    GroupedSelection(txs, CashFlowWhere(u, from, to), sorted, DayKey);
    SortedDaysRanked(sorted);
    GroupRanked(Entries(sorted, DayKey), d => d);
    Group(Entries(sorted, DayKey))
  }

  /**
   * Each day's row holds the INCOME and EXPENSE totals of the user's
   * transactions in the window that fall on that day.
   */
  lemma CashFlowRowSums(txs: seq<Transaction>, u: UserId, from: Instant, to: Instant)
    ensures var rows := CashFlowByDate(txs, u, from, to);
      var selected := FindMany(txs, CashFlowWhere(u, from, to));
      forall i :: 0 <= i < |rows| ==>
        && rows[i].income == Total(FindMany(KeyedRows(selected, DayKey, rows[i].key), OfKind(Everything, Income)))
        && rows[i].expense == Total(FindMany(KeyedRows(selected, DayKey, rows[i].key), OfKind(Everything, Expense)))
  {
    var selected := FindMany(txs, CashFlowWhere(u, from, to));
    var sorted := SortByDate(selected, false);
    var rows := CashFlowByDate(txs, u, from, to);
    assert rows == Group(Entries(sorted, DayKey));
    GroupRowTotals(sorted, selected, DayKey);
    forall i | 0 <= i < |rows|
      ensures rows[i].income == Total(FindMany(KeyedRows(selected, DayKey, rows[i].key), OfKind(Everything, Income)))
      ensures rows[i].expense == Total(FindMany(KeyedRows(selected, DayKey, rows[i].key), OfKind(Everything, Expense)))
    {
    }
  }

  // ---------------------------------------------------------------------------
  // 2. Category split (lib/data.ts, getTotalsByCategory).
  // ---------------------------------------------------------------------------

  const UnknownName: string := "Unknown"

  datatype CategoryTotal = CategoryTotal(name: string, value: Amount)

  /** The user's transactions of type `kind` dated from `from` to `to`, both ends included. */
  function TotalsWhere(u: UserId, from: Instant, to: Instant, kind: TxType): Where {
    Where(Some(u), Some(kind), None, Some(from), Some(to))
  }

  function CategoryKey(t: Transaction): CategoryId {
    t.categoryId
  }

  /** The category ids the `groupBy` yields: one per id that occurs. */
  function GroupedCategoryIds(txs: seq<Transaction>, u: UserId, from: Instant, to: Instant, kind: TxType): (ids: seq<CategoryId>)
    ensures Distinct(ids)
    ensures forall c :: c in ids <==>
      exists t :: t in txs && Matches(TotalsWhere(u, from, to, kind), t) && t.categoryId == c
  {
    EntryKeys(FindMany(txs, TotalsWhere(u, from, to, kind)), CategoryKey);
    RowKeys(CategoryGroups(txs, u, from, to, kind))
  }

  /** The groups behind the report, one per category id. */
  function CategoryGroups(txs: seq<Transaction>, u: UserId, from: Instant, to: Instant, kind: TxType): seq<Row<CategoryId>> {
    Group(Entries(FindMany(txs, TotalsWhere(u, from, to, kind)), CategoryKey))
  }

  /** The ids come in the order the store yields their first transaction. */
  lemma GroupedCategoryIdsInStoreOrder(txs: seq<Transaction>, u: UserId, from: Instant, to: Instant, kind: TxType)
    ensures GroupedCategoryIds(txs, u, from, to, kind) ==
      FirstOccurrences(KeysOf(Entries(FindMany(txs, TotalsWhere(u, from, to, kind)), CategoryKey)))
  {
    GroupFirstOccurrenceOrder(Entries(FindMany(txs, TotalsWhere(u, from, to, kind)), CategoryKey));
  }

  /**
   * What `categoryMap[id]` holds: the name of the user's category of type
   * `kind` with that id (the later one, should two share an id).
   */
  function MappedName(cats: seq<Category>, u: UserId, kind: TxType, id: CategoryId): (r: Option<string>)
    ensures r.Some? ==> exists c :: c in cats && c.userId == u && c.kind == kind && c.id == id && c.name == r.value
    ensures r.None? ==> forall c :: c in cats && c.userId == u && c.kind == kind ==> c.id != id
  {
    if cats == [] then None
    else
      var c := cats[|cats| - 1];
      if c.userId == u && c.kind == kind && c.id == id then Some(c.name)
      else MappedName(cats[..|cats| - 1], u, kind, id)
  }

  /** The display name of a group: the mapped name, unless it is missing or empty. */
  function CategoryLabel(cats: seq<Category>, u: UserId, kind: TxType, id: CategoryId): (name: string)
    ensures name != ""
    ensures name == UnknownName ||
      exists c :: c in cats && c.userId == u && c.kind == kind && c.id == id && c.name == name
    ensures (forall c :: c in cats && c.userId == u && c.kind == kind ==> c.id != id) ==> name == UnknownName
  {
    match MappedName(cats, u, kind, id)
    case Some(n) => if n != "" then n else UnknownName
    case None => UnknownName
  }

  /** With category ids unique, a group of the user's own category is labelled with its name. */
  lemma CategoryLabelOfOwnCategory(cats: seq<Category>, u: UserId, kind: TxType, c: Category)
    requires UniqueCategoryIds(cats)
    requires c in cats && c.userId == u && c.kind == kind
    ensures CategoryLabel(cats, u, kind, c.id) == if c.name == "" then UnknownName else c.name
  {
    var r := MappedName(cats, u, kind, c.id);
    assert r.Some?;
    var c' :| c' in cats && c'.userId == u && c'.kind == kind && c'.id == c.id && c'.name == r.value;
    var i :| 0 <= i < |cats| && cats[i] == c;
    var j :| 0 <= j < |cats| && cats[j] == c';
    assert i == j;
  }

  function ValueSum(r: seq<CategoryTotal>): Amount {
    if r == [] then 0 else ValueSum(r[..|r| - 1]) + r[|r| - 1].value
  }

  lemma {:induction false} ValueSumOfGroups<K>(r: seq<CategoryTotal>, g: seq<Row<K>>)
    requires |r| == |g|
    requires forall i :: 0 <= i < |r| ==> r[i].value == g[i].income + g[i].expense
    ensures ValueSum(r) == IncomeColumn(g) + ExpenseColumn(g)
    decreases |r|
  {
    if r != [] {
      ValueSumOfGroups(r[..|r| - 1], g[..|g| - 1]);
    }
  }

  lemma EntriesSnoc<K>(s: seq<Transaction>, t: Transaction, key: Transaction -> K)
    ensures Entries(s + [t], key) == Entries(s, key) + [Entry(key(t), t.kind == Income, t.amount)]
  {
  }

  lemma {:induction false} WithCategoryKey(s: seq<Transaction>, c: CategoryId)
    ensures WithKey(Entries(s, CategoryKey), c) ==
      Entries(FindMany(s, Everything.(categoryId := Some(c))), CategoryKey)
    decreases |s|
  {
    if s != [] {
      var init := s[..|s| - 1];
      var t := s[|s| - 1];
      assert init + [t] == s;
      EntriesSnoc(init, t, CategoryKey);
      WithCategoryKey(init, c);
      var f := FindMany(init, Everything.(categoryId := Some(c)));
      if t.categoryId == c {
        EntriesSnoc(f, t, CategoryKey);
      }
    }
  }

  /** The transactions of `s` whose key is `k`, in their order in `s`. */
  function KeyedRows<K(==)>(s: seq<Transaction>, key: Transaction -> K, k: K): (r: seq<Transaction>)
    ensures forall t :: t in r <==> t in s && key(t) == k
  {
    if s == [] then []
    else
      var init := KeyedRows(s[..|s| - 1], key, k);
      assert s == s[..|s| - 1] + [s[|s| - 1]];
      if key(s[|s| - 1]) == k then init + [s[|s| - 1]] else init
  }

  /** Keeping the entries with key `k` is keeping the transactions with key `k`. */
  lemma {:induction false} WithKeyEntries<K>(s: seq<Transaction>, key: Transaction -> K, k: K)
    ensures WithKey(Entries(s, key), k) == Entries(KeyedRows(s, key, k), key)
    decreases |s|
  {
    if s != [] {
      var init := s[..|s| - 1];
      var t := s[|s| - 1];
      assert init + [t] == s;
      EntriesSnoc(init, t, key);
      WithKeyEntries(init, key, k);
      if key(t) == k {
        EntriesSnoc(KeyedRows(init, key, k), t, key);
      }
    }
  }

  /** A transaction occurs in `KeyedRows` as often as in `s` when it has the key, else never. */
  lemma {:induction false} KeyedRowsCount<K>(s: seq<Transaction>, key: Transaction -> K, k: K, t: Transaction)
    ensures multiset(KeyedRows(s, key, k))[t] == if key(t) == k then multiset(s)[t] else 0
    decreases |s|
  {
    if s != [] {
      var init := s[..|s| - 1];
      assert init + [s[|s| - 1]] == s;
      KeyedRowsCount(init, key, k, t);
    }
  }

  /** Reordering the input reorders each key's rows and nothing more. */
  lemma KeyedRowsPermutation<K>(a: seq<Transaction>, b: seq<Transaction>, key: Transaction -> K, k: K)
    requires multiset(a) == multiset(b)
    ensures multiset(KeyedRows(a, key, k)) == multiset(KeyedRows(b, key, k))
  {
    forall t
      ensures multiset(KeyedRows(a, key, k))[t] == multiset(KeyedRows(b, key, k))[t]
    {
      KeyedRowsCount(a, key, k, t);
      KeyedRowsCount(b, key, k, t);
    }
  }

  /**
   * Grouping any reordering `rows` of `selected` gives each key the INCOME and
   * EXPENSE totals of exactly the selected transactions with that key.
   */
  lemma GroupRowTotals<K(!new)>(rows: seq<Transaction>, selected: seq<Transaction>, key: Transaction -> K)
    requires multiset(rows) == multiset(selected)
    ensures var g := Group(Entries(rows, key));
      forall i :: 0 <= i < |g| ==>
        && g[i].income == Total(FindMany(KeyedRows(selected, key, g[i].key), OfKind(Everything, Income)))
        && g[i].expense == Total(FindMany(KeyedRows(selected, key, g[i].key), OfKind(Everything, Expense)))
  {
    var es := Entries(rows, key);
    var g := Group(es);
    GroupRowSums(es);
    forall i | 0 <= i < |g|
      ensures g[i].income == Total(FindMany(KeyedRows(selected, key, g[i].key), OfKind(Everything, Income)))
      ensures g[i].expense == Total(FindMany(KeyedRows(selected, key, g[i].key), OfKind(Everything, Expense)))
    {
      var k := g[i].key;
      WithKeyEntries(rows, key, k);
      EntrySums(KeyedRows(rows, key, k), key);
      KeyedRowsPermutation(rows, selected, key, k);
      TotalPermutation(KeyedRows(rows, key, k), KeyedRows(selected, key, k), OfKind(Everything, Income));
      TotalPermutation(KeyedRows(rows, key, k), KeyedRows(selected, key, k), OfKind(Everything, Expense));
    }
  }

  lemma EntriesTotal<K>(s: seq<Transaction>, key: Transaction -> K)
    ensures IncomeSum(Entries(s, key)) + ExpenseSum(Entries(s, key)) == Total(s)
  {
    EntrySums(s, key);
    TotalSplitsByKind(s);
  }

  lemma {:induction false} FindManyAll(s: seq<Transaction>)
    ensures FindMany(s, Everything) == s
    decreases |s|
  {
    if s != [] {
      FindManyAll(s[..|s| - 1]);
    }
  }

  /** Every amount is either an INCOME or an EXPENSE amount. */
  lemma {:induction false} TotalSplitsByKind(s: seq<Transaction>)
    ensures Total(FindMany(s, OfKind(Everything, Income))) + Total(FindMany(s, OfKind(Everything, Expense))) == Total(s)
    decreases |s|
  {
    if s != [] {
      TotalSplitsByKind(s[..|s| - 1]);
      FilteredTotalStep(s, OfKind(Everything, Income));
      FilteredTotalStep(s, OfKind(Everything, Expense));
    }
  }

  /**
   * One entry per category id among the user's transactions of `kind` in the
   * range, holding that category's total and its display name; categories
   * without such transactions are absent.
   */
  function TotalsByCategory(st: Store, u: UserId, from: Instant, to: Instant, kind: TxType): (r: seq<CategoryTotal>)
    ensures |r| == |GroupedCategoryIds(st.transactions, u, from, to, kind)|
    ensures var ids := GroupedCategoryIds(st.transactions, u, from, to, kind);
      forall i :: 0 <= i < |ids| ==>
        && r[i].name == CategoryLabel(st.categories, u, kind, ids[i])
        && r[i].value == Total(FindMany(st.transactions, TotalsWhere(u, from, to, kind).(categoryId := Some(ids[i]))))
    ensures ValueSum(r) == Total(FindMany(st.transactions, TotalsWhere(u, from, to, kind)))
  {
    var groups := CategoryGroups(st.transactions, u, from, to, kind);
    TotalsByCategoryFacts(st.transactions, u, from, to, kind);
    TotalsByCategoryRowValues(st.transactions, u, from, to, kind);
    LabelledReport(groups, GroupedCategoryIds(st.transactions, u, from, to, kind), st.categories, u, kind,
      st.transactions, TotalsWhere(u, from, to, kind));
    Labelled(groups, st.categories, u, kind)
  }

  /** Each group as a name and a value, in the same order. */
  function Labelled(groups: seq<Row<CategoryId>>, cats: seq<Category>, u: UserId, kind: TxType): (r: seq<CategoryTotal>)
    ensures |r| == |groups|
    ensures forall i :: 0 <= i < |r| ==>
      r[i] == CategoryTotal(CategoryLabel(cats, u, kind, groups[i].key), groups[i].income + groups[i].expense)
    ensures ValueSum(r) == IncomeColumn(groups) + ExpenseColumn(groups)
  {
    var r := seq(|groups|, i requires 0 <= i < |groups| =>
      CategoryTotal(CategoryLabel(cats, u, kind, groups[i].key), groups[i].income + groups[i].expense));
    ValueSumOfGroups(r, groups);
    r
  }

  /** The category split's column sums add up to the total of the whole query. */
  lemma TotalsByCategoryFacts(txs: seq<Transaction>, u: UserId, from: Instant, to: Instant, kind: TxType)
    ensures var groups := CategoryGroups(txs, u, from, to, kind);
      IncomeColumn(groups) + ExpenseColumn(groups) == Total(FindMany(txs, TotalsWhere(u, from, to, kind)))
  {
    var selected := FindMany(txs, TotalsWhere(u, from, to, kind));
    GroupConservesTotals(Entries(selected, CategoryKey));
    EntriesTotal(selected, CategoryKey);
  }

  /** Every group holds the total of the query narrowed to its category. */
  lemma TotalsByCategoryRowValues(txs: seq<Transaction>, u: UserId, from: Instant, to: Instant, kind: TxType)
    ensures var groups := CategoryGroups(txs, u, from, to, kind);
      forall i :: 0 <= i < |groups| ==>
        groups[i].income + groups[i].expense ==
        Total(FindMany(txs, TotalsWhere(u, from, to, kind).(categoryId := Some(groups[i].key))))
  {
    var w := TotalsWhere(u, from, to, kind);
    var es := Entries(FindMany(txs, w), CategoryKey);
    var groups := Group(es);
    GroupRowSums(es);
    forall i | 0 <= i < |groups|
      ensures groups[i].income + groups[i].expense == Total(FindMany(txs, w.(categoryId := Some(groups[i].key))))
    {
      CategorySubtotal(txs, w, groups[i].key);
    }
  }

  /** Labelling keeps the groups' order, so row `i` belongs to the `i`-th key. */
  lemma LabelledReport(groups: seq<Row<CategoryId>>, ids: seq<CategoryId>, cats: seq<Category>, u: UserId, kind: TxType,
                       txs: seq<Transaction>, w: Where)
    requires ids == RowKeys(groups)
    requires forall i :: 0 <= i < |groups| ==>
      groups[i].income + groups[i].expense == Total(FindMany(txs, w.(categoryId := Some(groups[i].key))))
    ensures |Labelled(groups, cats, u, kind)| == |ids|
    ensures forall i :: 0 <= i < |ids| ==>
      && Labelled(groups, cats, u, kind)[i].name == CategoryLabel(cats, u, kind, ids[i])
      && Labelled(groups, cats, u, kind)[i].value == Total(FindMany(txs, w.(categoryId := Some(ids[i]))))
  {
  }

  /** The entries of one category add up to the total of the query narrowed to that category. */
  lemma CategorySubtotal(txs: seq<Transaction>, w: Where, c: CategoryId)
    requires w.categoryId.None?
    ensures var es := Entries(FindMany(txs, w), CategoryKey);
      IncomeSum(WithKey(es, c)) + ExpenseSum(WithKey(es, c)) == Total(FindMany(txs, w.(categoryId := Some(c))))
  {
    var selected := FindMany(txs, w);
    WithCategoryKey(selected, c);
    EntriesTotal(FindMany(selected, Everything.(categoryId := Some(c))), CategoryKey);
    FindManyTwice(txs, w, Everything.(categoryId := Some(c)), w.(categoryId := Some(c)));
  }

  // ---------------------------------------------------------------------------
  // 3. Monthly income vs expense (lib/data.ts, getMonthlyIncomeExpense).
  // ---------------------------------------------------------------------------

  /**
   * The user's transactions between `new Date("<year>-01-01")` and
   * `new Date("<year>-12-31")`, both instants included: the window ends at
   * midnight UTC at the START of December 31.
   */
  function MonthlyWhere(u: UserId, year: int): Where {
    Where(Some(u), None, None, Some(MidnightUtc(year, 1, 1)), Some(MidnightUtc(year, 12, 31)))
  }

  /** The grouping key of the monthly report: the month label of a transaction's date. */
  function MonthKeyOf(monthOf: Instant -> MonthKey): Transaction -> MonthKey {
    (t: Transaction) => monthOf(t.date)
  }

  /**
   * One row per month label among the user's transactions in the window, in
   * the order the store yields the transactions (no sorting happens).
   * `monthOf` is the timezone- and locale-dependent month of an instant.
   */
  function MonthlyIncomeExpense(txs: seq<Transaction>, u: UserId, year: int, monthOf: Instant -> MonthKey): (rows: seq<Row<MonthKey>>)
    ensures Distinct(RowKeys(rows))
    ensures forall m :: m in RowKeys(rows) <==>
      exists t :: t in txs && Matches(MonthlyWhere(u, year), t) && monthOf(t.date) == m
    ensures IncomeColumn(rows) == Total(FindMany(txs, OfKind(MonthlyWhere(u, year), Income)))
    ensures ExpenseColumn(rows) == Total(FindMany(txs, OfKind(MonthlyWhere(u, year), Expense)))
  {
    var key := MonthKeyOf(monthOf);
    var selected := FindMany(txs, MonthlyWhere(u, year));
    GroupedSelection(txs, MonthlyWhere(u, year), selected, key);
    Group(Entries(selected, key))
  }

  /**
   * Each month's row holds the INCOME and EXPENSE totals of the user's
   * transactions in the window that carry that month label.
   */
  lemma MonthlyRowSums(txs: seq<Transaction>, u: UserId, year: int, monthOf: Instant -> MonthKey)
    ensures var rows := MonthlyIncomeExpense(txs, u, year, monthOf);
      var selected := FindMany(txs, MonthlyWhere(u, year));
      forall i :: 0 <= i < |rows| ==>
        && rows[i].income == Total(FindMany(KeyedRows(selected, MonthKeyOf(monthOf), rows[i].key), OfKind(Everything, Income)))
        && rows[i].expense == Total(FindMany(KeyedRows(selected, MonthKeyOf(monthOf), rows[i].key), OfKind(Everything, Expense)))
  {
    var key := MonthKeyOf(monthOf);
    var selected := FindMany(txs, MonthlyWhere(u, year));
    var rows := MonthlyIncomeExpense(txs, u, year, monthOf);
    assert rows == Group(Entries(selected, key));
    GroupRowTotals(selected, selected, key);
    forall i | 0 <= i < |rows|
      ensures rows[i].income == Total(FindMany(KeyedRows(selected, key, rows[i].key), OfKind(Everything, Income)))
      ensures rows[i].expense == Total(FindMany(KeyedRows(selected, key, rows[i].key), OfKind(Everything, Expense)))
    {
    }
  }

  /** The month labels of `s`, one per transaction, in order. */
  function MonthsOf(s: seq<Transaction>, monthOf: Instant -> MonthKey): (ks: seq<MonthKey>)
    ensures |ks| == |s|
    ensures forall i :: 0 <= i < |s| ==> ks[i] == monthOf(s[i].date)
  {
    seq(|s|, i requires 0 <= i < |s| => monthOf(s[i].date))
  }

  /** The months come in the order in which they first occur among the selected rows. */
  lemma MonthlyFirstOccurrenceOrder(txs: seq<Transaction>, u: UserId, year: int, monthOf: Instant -> MonthKey)
    ensures RowKeys(MonthlyIncomeExpense(txs, u, year, monthOf)) ==
      FirstOccurrences(MonthsOf(FindMany(txs, MonthlyWhere(u, year)), monthOf))
  {
    var key := MonthKeyOf(monthOf);
    var selected := FindMany(txs, MonthlyWhere(u, year));
    GroupFirstOccurrenceOrder(Entries(selected, key));
    assert KeysOf(Entries(selected, key)) == MonthsOf(selected, monthOf);
  }

  /** The month function respects time and yields real months. */
  ghost predicate MonthsFollowTime(monthOf: Instant -> MonthKey) {
    forall a, b :: a <= b ==> ValidMonth(monthOf(a)) && MonthRank(monthOf(a)) <= MonthRank(monthOf(b))
  }

  lemma SortedMonthsRanked(sorted: seq<Transaction>, monthOf: Instant -> MonthKey, key: Transaction -> MonthKey)
    requires SortedByDate(sorted, false)
    requires MonthsFollowTime(monthOf)
    requires forall t :: key(t) == monthOf(t.date)
    ensures var es := Entries(sorted, key);
      forall i, j :: 0 <= i <= j < |es| ==>
        MonthRank(es[i].key) < MonthRank(es[j].key) || es[i].key == es[j].key
  {
    var es := Entries(sorted, key);
    forall i, j | 0 <= i <= j < |es|
      ensures MonthRank(es[i].key) < MonthRank(es[j].key) || es[i].key == es[j].key
    {
      var a, b := sorted[i].date, sorted[j].date;
      assert es[i].key == monthOf(a) && es[j].key == monthOf(b);
      assert a <= b;
      assert ValidMonth(monthOf(a)) && ValidMonth(monthOf(b)) && MonthRank(monthOf(a)) <= MonthRank(monthOf(b)) by {
        assert b <= b;
      }
      if MonthRank(monthOf(a)) == MonthRank(monthOf(b)) {
        MonthRankInjective(monthOf(a), monthOf(b));
      }
    }
  }

  /** When the store happens to yield the rows in date order, the months are chronological. */
  lemma MonthlyChronologicalWhenSorted(txs: seq<Transaction>, u: UserId, year: int, monthOf: Instant -> MonthKey)
    requires SortedByDate(FindMany(txs, MonthlyWhere(u, year)), false)
    requires MonthsFollowTime(monthOf)
    ensures var rows := MonthlyIncomeExpense(txs, u, year, monthOf);
      forall i, j :: 0 <= i < j < |rows| ==> MonthRank(rows[i].key) < MonthRank(rows[j].key)
  {
    var selected := FindMany(txs, MonthlyWhere(u, year));
    var key := MonthKeyOf(monthOf);
    SortedMonthsRanked(selected, monthOf, key);
    GroupRanked(Entries(selected, key), MonthRank);
  }

  // ---------------------------------------------------------------------------
  // The monthly report as evidently intended: the whole calendar year, in
  // month order.
  // ---------------------------------------------------------------------------

  /** `t` falls in UTC calendar year `year`. */
  predicate InUtcYear(t: Instant, year: int) {
    MidnightUtc(year, 1, 1) <= t < MidnightUtc(year + 1, 1, 1)
  }

  /** The user's transactions anywhere in the UTC calendar year. */
  function YearWhere(u: UserId, year: int): Where {
    Where(Some(u), None, None, Some(MidnightUtc(year, 1, 1)), Some(MidnightUtc(year + 1, 1, 1) - 1))
  }

  /** The corrected window holds exactly the user's transactions of the calendar year. */
  lemma YearWhereIsUtcYear(u: UserId, year: int, t: Transaction)
    ensures Matches(YearWhere(u, year), t) <==> t.userId == u && InUtcYear(t.date, year)
  {
  }

  /**
   * The monthly report with the year window running to the end of December 31
   * and the rows sorted by date before grouping.
   */
  function MonthlyIncomeExpenseCorrected(txs: seq<Transaction>, u: UserId, year: int, monthOf: Instant -> MonthKey): (rows: seq<Row<MonthKey>>)
    ensures Distinct(RowKeys(rows))
    ensures forall m :: m in RowKeys(rows) <==>
      exists t :: t in txs && Matches(YearWhere(u, year), t) && monthOf(t.date) == m
    ensures IncomeColumn(rows) == Total(FindMany(txs, OfKind(YearWhere(u, year), Income)))
    ensures ExpenseColumn(rows) == Total(FindMany(txs, OfKind(YearWhere(u, year), Expense)))
    ensures MonthsFollowTime(monthOf) ==>
      forall i, j :: 0 <= i < j < |rows| ==> MonthRank(rows[i].key) < MonthRank(rows[j].key)
    ensures |rows| <= |FindMany(txs, YearWhere(u, year))|
  {
    var key := MonthKeyOf(monthOf);
    var sorted := SortByDate(FindMany(txs, YearWhere(u, year)), false);
    assert |Group(Entries(sorted, key))| <= |sorted|;
    GroupedSelection(txs, YearWhere(u, year), sorted, key);
    SortedMonthsGroupInOrder(sorted, monthOf, key);
    Group(Entries(sorted, key))
  }

  /**
   * Each month's row of the corrected report holds the INCOME and EXPENSE
   * totals of the user's transactions of the calendar year with that label.
   */
  lemma MonthlyCorrectedRowSums(txs: seq<Transaction>, u: UserId, year: int, monthOf: Instant -> MonthKey)
    ensures var rows := MonthlyIncomeExpenseCorrected(txs, u, year, monthOf);
      var selected := FindMany(txs, YearWhere(u, year));
      forall i :: 0 <= i < |rows| ==>
        && rows[i].income == Total(FindMany(KeyedRows(selected, MonthKeyOf(monthOf), rows[i].key), OfKind(Everything, Income)))
        && rows[i].expense == Total(FindMany(KeyedRows(selected, MonthKeyOf(monthOf), rows[i].key), OfKind(Everything, Expense)))
  {
    var key := MonthKeyOf(monthOf);
    var selected := FindMany(txs, YearWhere(u, year));
    var sorted := SortByDate(selected, false);
    var rows := MonthlyIncomeExpenseCorrected(txs, u, year, monthOf);
    assert rows == Group(Entries(sorted, key));
    GroupRowTotals(sorted, selected, key);
    forall i | 0 <= i < |rows|
      ensures rows[i].income == Total(FindMany(KeyedRows(selected, key, rows[i].key), OfKind(Everything, Income)))
      ensures rows[i].expense == Total(FindMany(KeyedRows(selected, key, rows[i].key), OfKind(Everything, Expense)))
    {
    }
  }

  lemma SortedMonthsGroupInOrder(sorted: seq<Transaction>, monthOf: Instant -> MonthKey, key: Transaction -> MonthKey)
    requires SortedByDate(sorted, false)
    requires forall t :: key(t) == monthOf(t.date)
    ensures var rows := Group(Entries(sorted, key));
      MonthsFollowTime(monthOf) ==>
        forall i, j :: 0 <= i < j < |rows| ==> MonthRank(rows[i].key) < MonthRank(rows[j].key)
  {
    if MonthsFollowTime(monthOf) {
      SortedMonthsRanked(sorted, monthOf, key);
      GroupRanked(Entries(sorted, key), MonthRank);
    }
  }

  /**
   * A transaction stamped at noon UTC on December 31 belongs to the year, yet
   * the report as written leaves it out; the corrected report counts it.
   */
  lemma MonthlyMissesDecember31(tx: Transaction, year: int, monthOf: Instant -> MonthKey)
    requires tx.date == MidnightUtc(year, 12, 31) + MsPerDay / 2
    ensures InUtcYear(tx.date, year)
    ensures MonthlyIncomeExpense([tx], tx.userId, year, monthOf) == []
    ensures var rows := MonthlyIncomeExpenseCorrected([tx], tx.userId, year, monthOf);
      monthOf(tx.date) in RowKeys(rows) && IncomeColumn(rows) + ExpenseColumn(rows) == tx.amount
  {
    December31Window(tx, year);
    CorrectedMonthlyCounts([tx], tx.userId, year, monthOf, tx);
    FilteredTotalSingle(tx, OfKind(YearWhere(tx.userId, year), Income));
    FilteredTotalSingle(tx, OfKind(YearWhere(tx.userId, year), Expense));
  }

  /** Noon on December 31 lies in the year but after the as-written window closes. */
  lemma December31Window(tx: Transaction, year: int)
    requires tx.date == MidnightUtc(year, 12, 31) + MsPerDay / 2
    ensures InUtcYear(tx.date, year)
    ensures FindMany([tx], MonthlyWhere(tx.userId, year)) == []
  {
    NewYearFollowsDecember31(year);
    assert !Matches(MonthlyWhere(tx.userId, year), tx);
    assert [tx][..0] == [];
  }

  /** The UTC month of an instant in January or February 2024, as the month label reads it. */
  function JanuaryOrFebruary2024(t: Instant): MonthKey {
    MonthKey(2024, if t < 1_706_745_600_000 then 1 else 2)
  }

  /** Two expenses of user 7: 10 February 2024 and 10 January 2024, both at midnight UTC. */
  const February10: Transaction := Transaction(1, 500, Expense, "rent", 1, 1_707_523_200_000, 7)
  const January10: Transaction := Transaction(2, 300, Expense, "food", 1, 1_704_844_800_000, 7)

  /** Both sample rows fall inside 2024 under either window, and the sample month label follows time. */
  lemma SampleDates()
    ensures Matches(MonthlyWhere(7, 2024), February10) && Matches(MonthlyWhere(7, 2024), January10)
    ensures InUtcYear(February10.date, 2024) && InUtcYear(January10.date, 2024)
    ensures MonthsFollowTime(JanuaryOrFebruary2024)
  {
    KnownDays();
    KnownYearEnd2024();
  }

  /**
   * A February transaction stored before a January one: the report as written
   * lists February first.
   */
  lemma MonthlyFollowsStoreOrder()
    ensures RowKeys(MonthlyIncomeExpense([February10, January10], 7, 2024, JanuaryOrFebruary2024))
      == [MonthKey(2024, 2), MonthKey(2024, 1)]
  {
    var txs := [February10, January10];
    SampleSelection();
    MonthlyFirstOccurrenceOrder(txs, 7, 2024, JanuaryOrFebruary2024);
    var ks := MonthsOf(txs, JanuaryOrFebruary2024);
    assert ks == [MonthKey(2024, 2), MonthKey(2024, 1)];
    TwoMonthsFirstOccurrences(MonthKey(2024, 2), MonthKey(2024, 1));
  }

  /** The as-written window selects both sample rows, in store order. */
  lemma SampleSelection()
    ensures FindMany([February10, January10], MonthlyWhere(7, 2024)) == [February10, January10]
  {
    var txs := [February10, January10];
    SampleDates();
    assert txs[..1] == [February10];
    assert [February10][..0] == [];
  }

  lemma TwoMonthsFirstOccurrences(a: MonthKey, b: MonthKey)
    requires a != b
    ensures FirstOccurrences([a, b]) == [a, b]
  {
    assert [a, b][..1] == [a];
    assert [a][..0] == [];
    assert FirstOccurrences([a]) == [a];
    assert b !in [a];
  }

  /** The same store: the corrected report lists January first. */
  lemma MonthlyCorrectedSortsMonths()
    ensures RowKeys(MonthlyIncomeExpenseCorrected([February10, January10], 7, 2024, JanuaryOrFebruary2024))
      == [MonthKey(2024, 1), MonthKey(2024, 2)]
  {
    var txs := [February10, January10];
    var r := MonthlyIncomeExpenseCorrected(txs, 7, 2024, JanuaryOrFebruary2024);
    SampleDates();
    CorrectedMonthlyCounts(txs, 7, 2024, JanuaryOrFebruary2024, January10);
    CorrectedMonthlyCounts(txs, 7, 2024, JanuaryOrFebruary2024, February10);
    assert |FindMany(txs, YearWhere(7, 2024))| <= 2;
    TwoKeysInOrder(r, MonthKey(2024, 1), MonthKey(2024, 2));
  }

  lemma CorrectedMonthlyCounts(txs: seq<Transaction>, u: UserId, year: int, monthOf: Instant -> MonthKey, t: Transaction)
    requires t in txs && t.userId == u && InUtcYear(t.date, year)
    ensures monthOf(t.date) in RowKeys(MonthlyIncomeExpenseCorrected(txs, u, year, monthOf))
  {
    YearWhereIsUtcYear(u, year, t);
  }

  lemma TwoKeysInOrder(r: seq<Row<MonthKey>>, first: MonthKey, second: MonthKey)
    requires first in RowKeys(r) && second in RowKeys(r)
    requires forall m :: m in RowKeys(r) ==> m == first || m == second
    requires MonthRank(first) < MonthRank(second)
    requires forall i, j :: 0 <= i < j < |r| ==> MonthRank(r[i].key) < MonthRank(r[j].key)
    requires |r| <= 2
    ensures RowKeys(r) == [first, second]
  {
    assert forall i :: 0 <= i < |r| ==> r[i].key == first || r[i].key == second by {
      forall i | 0 <= i < |r|
        ensures r[i].key == first || r[i].key == second
      {
        assert r[i].key in RowKeys(r);
      }
    }
  }
}
