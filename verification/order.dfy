/**
 * Date ordering of query results (`orderBy: { date: "asc" | "desc" }`),
 * modelled as a stable insertion sort.
 */
module DateOrder {
  import opened Ledger

  /** The sort key: the date itself for ascending order, its negation for descending. */
  function Rank(t: Transaction, descending: bool): int {
    if descending then -t.date else t.date
  }

  predicate SortedByDate(s: seq<Transaction>, descending: bool) {
    forall i, j :: 0 <= i < j < |s| ==> Rank(s[i], descending) <= Rank(s[j], descending)
  }

  /** Where `x` goes in sorted `s`: before the first row that does not come strictly before it. */
  function InsertionPoint(x: Transaction, s: seq<Transaction>, descending: bool): (k: nat)
    ensures k <= |s|
    ensures forall i :: 0 <= i < k ==> Rank(s[i], descending) < Rank(x, descending)
    ensures k < |s| ==> Rank(x, descending) <= Rank(s[k], descending)
  {
    if s == [] then 0
    else if Rank(x, descending) <= Rank(s[0], descending) then 0
    else 1 + InsertionPoint(x, s[1..], descending)
  }

  /** Placing `x` at its insertion point keeps the rows sorted. */
  lemma InsertAtKeepsSorted(x: Transaction, s: seq<Transaction>, k: nat, descending: bool)
    requires SortedByDate(s, descending)
    requires k <= |s|
    requires forall i :: 0 <= i < k ==> Rank(s[i], descending) < Rank(x, descending)
    requires k < |s| ==> Rank(x, descending) <= Rank(s[k], descending)
    ensures SortedByDate(s[..k] + [x] + s[k..], descending)
  {
    var r := s[..k] + [x] + s[k..];
    assert forall m :: 0 <= m < |r| ==> r[m] == if m < k then s[m] else if m == k then x else s[m - 1];
    forall i, j | 0 <= i < j < |r|
      ensures Rank(r[i], descending) <= Rank(r[j], descending)
    {
      if i < k && j > k {
        assert Rank(s[i], descending) < Rank(x, descending) <= Rank(s[k], descending);
      }
    }
  }

  lemma SplicePermutes(x: Transaction, s: seq<Transaction>, k: nat)
    requires k <= |s|
    ensures multiset(s[..k] + [x] + s[k..]) == multiset(s) + multiset{x}
  {
    assert s == s[..k] + s[k..];
  }

  function Insert(x: Transaction, s: seq<Transaction>, descending: bool): (r: seq<Transaction>)
    requires SortedByDate(s, descending)
    ensures SortedByDate(r, descending)
    ensures multiset(r) == multiset(s) + multiset{x}
  {
    var k := InsertionPoint(x, s, descending);
    InsertAtKeepsSorted(x, s, k, descending);
    SplicePermutes(x, s, k);
    s[..k] + [x] + s[k..]
  }

  /** The rows of `s` ordered by date; rows with equal dates keep their store order. */
  function SortByDate(s: seq<Transaction>, descending: bool): (r: seq<Transaction>)
    ensures SortedByDate(r, descending)
    ensures multiset(r) == multiset(s)
    ensures |r| == |s|
  {
    if s == [] then []
    else
      assert s == [s[0]] + s[1..];
      Insert(s[0], SortByDate(s[1..], descending), descending)
  }
}
