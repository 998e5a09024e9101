/**
 * Group-by-key with two accumulators, in order of first occurrence.
 *
 * The cash-flow and monthly reports both walk a list of rows, look up the
 * group of each row's key in an object (creating `{ income: 0, expense: 0 }`
 * the first time the key is seen), add the amount to `income` for an income
 * row and to `expense` otherwise, and finally list the object's entries.
 * A JavaScript object lists non-numeric keys in insertion order, so the
 * groups come out in the order their keys first appear.
 */
module Grouping {

  /** One input row as the grouping sees it: its key, which side it counts on, its amount. */
  datatype Entry<K> = Entry(key: K, isIncome: bool, amount: int)

  /** One output group. */
  datatype Row<K> = Row(key: K, income: int, expense: int)

  function KeysOf<K>(es: seq<Entry<K>>): (ks: seq<K>)
    ensures |ks| == |es|
    ensures forall i :: 0 <= i < |es| ==> ks[i] == es[i].key
  {
    seq(|es|, i requires 0 <= i < |es| => es[i].key)
  }

  function RowKeys<K>(rows: seq<Row<K>>): (ks: seq<K>)
    ensures |ks| == |rows|
    ensures forall i :: 0 <= i < |rows| ==> ks[i] == rows[i].key
  {
    seq(|rows|, i requires 0 <= i < |rows| => rows[i].key)
  }

  predicate Distinct<K(==)>(ks: seq<K>) {
    forall i, j :: 0 <= i < j < |ks| ==> ks[i] != ks[j]
  }

  /** The sum of the income-side amounts of `es`. */
  function IncomeSum<K>(es: seq<Entry<K>>): int {
    if es == [] then 0
    else IncomeSum(es[..|es| - 1]) + (if es[|es| - 1].isIncome then es[|es| - 1].amount else 0)
  }

  /** The sum of the expense-side amounts of `es`. */
  function ExpenseSum<K>(es: seq<Entry<K>>): int {
    if es == [] then 0
    else ExpenseSum(es[..|es| - 1]) + (if es[|es| - 1].isIncome then 0 else es[|es| - 1].amount)
  }

  function IncomeColumn<K>(rows: seq<Row<K>>): int {
    if rows == [] then 0 else IncomeColumn(rows[..|rows| - 1]) + rows[|rows| - 1].income
  }

  function ExpenseColumn<K>(rows: seq<Row<K>>): int {
    if rows == [] then 0 else ExpenseColumn(rows[..|rows| - 1]) + rows[|rows| - 1].expense
  }

  /** The entries of `es` whose key is `k`, in order. */
  function WithKey<K(==)>(es: seq<Entry<K>>, k: K): seq<Entry<K>> {
    if es == [] then []
    else
      var init := WithKey(es[..|es| - 1], k);
      if es[|es| - 1].key == k then init + [es[|es| - 1]] else init
  }

  /** Each key of `ks` at the place where it first appears. */
  function FirstOccurrences<K(==,!new)>(ks: seq<K>): (r: seq<K>)
    ensures Distinct(r)
    ensures forall k :: k in r <==> k in ks
  {
    if ks == [] then []
    else
      var init := ks[..|ks| - 1];
      var k := ks[|ks| - 1];
      var p := FirstOccurrences(init);
      if k in init then p else p + [k]
  }

  // ---------------------------------------------------------------------------
  // The grouping loop.
  // ---------------------------------------------------------------------------

  /** Add one entry's amount to the side of `row` it counts on. */
  function Credit<K>(row: Row<K>, e: Entry<K>): Row<K> {
    if e.isIncome then row.(income := row.income + e.amount)
    else row.(expense := row.expense + e.amount)
  }

  /** The position of the group for `k`, or `|rows|` when there is none yet. */
  function IndexOfKey<K(==)>(rows: seq<Row<K>>, k: K): (i: nat)
    ensures i <= |rows|
    ensures i < |rows| ==> rows[i].key == k
    ensures i == |rows| ==> k !in RowKeys(rows)
  {
    if rows == [] then 0
    else if rows[0].key == k then 0
    else
      assert RowKeys(rows) == [rows[0].key] + RowKeys(rows[1..]);
      1 + IndexOfKey(rows[1..], k)
  }

  /** One iteration of the loop: credit the entry to its group, opening the group if needed. */
  function Accumulate<K(==)>(rows: seq<Row<K>>, e: Entry<K>): seq<Row<K>> {
    var i := IndexOfKey(rows, e.key);
    if i < |rows| then rows[i := Credit(rows[i], e)]
    else rows + [Credit(Row(e.key, 0, 0), e)]
  }

  /** One step keeps the keys, or appends the new one when it had no group yet. */
  lemma AccumulateKeys<K>(rows: seq<Row<K>>, e: Entry<K>)
    ensures RowKeys(Accumulate(rows, e)) ==
      if IndexOfKey(rows, e.key) < |rows| then RowKeys(rows) else RowKeys(rows) + [e.key]
  {
  }

  lemma KeysOfSnoc<K>(es: seq<Entry<K>>)
    requires es != []
    ensures KeysOf(es) == KeysOf(es[..|es| - 1]) + [es[|es| - 1].key]
  {
  }

  /** The groups of `es`: one per distinct key, and no others. */
  function Group<K(==,!new)>(es: seq<Entry<K>>): (rows: seq<Row<K>>)
    ensures Distinct(RowKeys(rows))
    ensures forall k :: k in RowKeys(rows) <==> k in KeysOf(es)
    ensures |rows| <= |es|
  {
    if es == [] then []
    else
      var prev := Group(es[..|es| - 1]);
      var e := es[|es| - 1];
      KeysOfSnoc(es);
      AccumulateKeys(prev, e);
      Accumulate(prev, e)
  }

  // ---------------------------------------------------------------------------
  // What the groups contain.
  // ---------------------------------------------------------------------------

  lemma SumsSnoc<K>(es: seq<Entry<K>>, e: Entry<K>)
    ensures IncomeSum(es + [e]) == IncomeSum(es) + (if e.isIncome then e.amount else 0)
    ensures ExpenseSum(es + [e]) == ExpenseSum(es) + (if e.isIncome then 0 else e.amount)
  {
    assert (es + [e])[..|es|] == es;
  }

  lemma {:induction false} WithKeyAbsent<K>(es: seq<Entry<K>>, k: K)
    requires k !in KeysOf(es)
    ensures WithKey(es, k) == []
    decreases |es|
  {
    if es != [] {
      var init := es[..|es| - 1];
      assert KeysOf(es) == KeysOf(init) + [es[|es| - 1].key];
      WithKeyAbsent(init, k);
    }
  }

  lemma {:induction false} ColumnsUpdate<K>(rows: seq<Row<K>>, i: nat, row: Row<K>)
    requires i < |rows|
    ensures IncomeColumn(rows[i := row]) == IncomeColumn(rows) - rows[i].income + row.income
    ensures ExpenseColumn(rows[i := row]) == ExpenseColumn(rows) - rows[i].expense + row.expense
    decreases |rows|
  {
    var n := |rows| - 1;
    if i < n {
      assert rows[i := row][..n] == rows[..n][i := row];
      ColumnsUpdate(rows[..n], i, row);
    } else {
      assert rows[i := row][..n] == rows[..n];
    }
  }

  lemma ColumnsSnoc<K>(rows: seq<Row<K>>, row: Row<K>)
    ensures IncomeColumn(rows + [row]) == IncomeColumn(rows) + row.income
    ensures ExpenseColumn(rows + [row]) == ExpenseColumn(rows) + row.expense
  {
    assert (rows + [row])[..|rows|] == rows;
  }

  /** Every group holds exactly the sums of the entries with its key. */
  lemma {:induction false} GroupRowSums<K(!new)>(es: seq<Entry<K>>)
    ensures forall i :: 0 <= i < |Group(es)| ==>
      && Group(es)[i].income == IncomeSum(WithKey(es, Group(es)[i].key))
      && Group(es)[i].expense == ExpenseSum(WithKey(es, Group(es)[i].key))
    decreases |es|
  {
    if es != [] {
      var init := es[..|es| - 1];
      var e := es[|es| - 1];
      var prev := Group(init);
      GroupRowSums(init);
      var idx := IndexOfKey(prev, e.key);
      var rows := Group(es);
      assert rows == Accumulate(prev, e);
      assert KeysOf(es) == KeysOf(init) + [e.key];
      forall i | 0 <= i < |rows|
        ensures rows[i].income == IncomeSum(WithKey(es, rows[i].key))
        ensures rows[i].expense == ExpenseSum(WithKey(es, rows[i].key))
      {
        var k := rows[i].key;
        if e.key == k {
          assert WithKey(es, k) == WithKey(init, k) + [e];
          SumsSnoc(WithKey(init, k), e);
          if i == |prev| {
            assert k !in KeysOf(init);
            WithKeyAbsent(init, k);
          } else {
            assert prev[idx].key == k;
          }
        } else {
          assert WithKey(es, k) == WithKey(init, k);
        }
      }
    }
  }

  /** Sum conservation: the income column adds up to all income-side amounts, likewise expenses. */
  lemma {:induction false} GroupConservesTotals<K(!new)>(es: seq<Entry<K>>)
    ensures IncomeColumn(Group(es)) == IncomeSum(es)
    ensures ExpenseColumn(Group(es)) == ExpenseSum(es)
    decreases |es|
  {
    if es != [] {
      var init := es[..|es| - 1];
      var e := es[|es| - 1];
      var prev := Group(init);
      GroupConservesTotals(init);
      var idx := IndexOfKey(prev, e.key);
      if idx < |prev| {
        ColumnsUpdate(prev, idx, Credit(prev[idx], e));
      } else {
        ColumnsSnoc(prev, Credit(Row(e.key, 0, 0), e));
      }
    }
  }

  lemma FirstOccurrencesSnoc<K(!new)>(ks: seq<K>, k: K)
    ensures FirstOccurrences(ks + [k]) == if k in ks then FirstOccurrences(ks) else FirstOccurrences(ks) + [k]
  {
    assert (ks + [k])[..|ks|] == ks;
  }

  /** The groups come in the order in which their keys first occur. */
  lemma {:induction false} GroupFirstOccurrenceOrder<K(!new)>(es: seq<Entry<K>>)
    ensures RowKeys(Group(es)) == FirstOccurrences(KeysOf(es))
    decreases |es|
  {
    if es != [] {
      var init := es[..|es| - 1];
      var e := es[|es| - 1];
      var prev := Group(init);
      GroupFirstOccurrenceOrder(init);
      KeysOfSnoc(es);
      FirstOccurrencesSnoc(KeysOf(init), e.key);
      AccumulateKeys(prev, e);
      var idx := IndexOfKey(prev, e.key);
      if idx < |prev| {
        assert RowKeys(prev)[idx] == e.key;
      }
    }
  }

  /**
   * When the entries arrive ordered by a rank of their key (entries with equal
   * rank sharing their key), the groups come out in strictly increasing rank.
   */
  lemma {:induction false} GroupRanked<K(!new)>(es: seq<Entry<K>>, rank: K -> int)
    requires forall i, j :: 0 <= i <= j < |es| ==>
      rank(es[i].key) < rank(es[j].key) || es[i].key == es[j].key
    ensures forall i, j :: 0 <= i < j < |Group(es)| ==>
      rank(Group(es)[i].key) < rank(Group(es)[j].key)
    decreases |es|
  {
    if es != [] {
      var init := es[..|es| - 1];
      var e := es[|es| - 1];
      var prev := Group(init);
      GroupRanked(init, rank);
      var idx := IndexOfKey(prev, e.key);
      var rows := Group(es);
      if idx < |prev| {
        assert forall i :: 0 <= i < |rows| ==> rows[i].key == prev[i].key;
      } else {
        assert rows == prev + [Credit(Row(e.key, 0, 0), e)];
        assert KeysOf(es) == KeysOf(init) + [e.key];
        forall i | 0 <= i < |prev|
          ensures rank(prev[i].key) < rank(e.key)
        {
          assert prev[i].key in RowKeys(prev);
          var j :| 0 <= j < |init| && KeysOf(init)[j] == prev[i].key;
          assert es[j].key == prev[i].key;
        }
      }
    }
  }
}
