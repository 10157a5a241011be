/** `getSortedData`: a sorted copy of the wallet list. The stored list is
    never changed (the code sorts a spread copy); here that is the
    immutability of sequences. The sort is a stable insertion sort, like the
    engine's stable `Array.prototype.sort`. */
module Sorting {
  import opened Wallet

  /** Every earlier element compares no later than every later one. */
  predicate SortedBy(st: SortState, s: seq<WalletRecord>) {
    forall i, j :: 0 <= i < j < |s| ==> Compare(st, s[i], s[j]) <= 0
  }

  /** Puts `x` in front of the first element it does not follow, so it stays
      ahead of the elements it ties with. */
  function Insert(st: SortState, x: WalletRecord, s: seq<WalletRecord>): (r: seq<WalletRecord>)
    ensures multiset(r) == multiset(s) + multiset{x}
    ensures |r| == |s| + 1
  {
    if |s| == 0 then [x]
    else if Compare(st, x, s[0]) <= 0 then [x] + s
    else
      assert s == [s[0]] + s[1..];
      [s[0]] + Insert(st, x, s[1..])
  }

  /** A sorted list stays sorted when an element that precedes all of it is
      put in front. */
  lemma ConsSorted(st: SortState, x: WalletRecord, t: seq<WalletRecord>)
    requires SortedBy(st, t)
    requires forall j :: 0 <= j < |t| ==> Compare(st, x, t[j]) <= 0
    ensures SortedBy(st, [x] + t)
  {
    var r := [x] + t;
    forall i, j | 0 <= i < j < |r|
      ensures Compare(st, r[i], r[j]) <= 0
    {
      assert r[j] == t[j - 1];
      if i > 0 {
        assert r[i] == t[i - 1];
      }
    }
  }

  /** Everything in `x` plus `s` comes no earlier than `h`. */
  lemma BoundAfterInsert(st: SortState, h: WalletRecord, x: WalletRecord, s: seq<WalletRecord>, t: seq<WalletRecord>)
    requires Compare(st, h, x) <= 0
    requires forall j :: 0 <= j < |s| ==> Compare(st, h, s[j]) <= 0
    requires multiset(t) == multiset(s) + multiset{x}
    ensures forall j :: 0 <= j < |t| ==> Compare(st, h, t[j]) <= 0
  {
    forall j | 0 <= j < |t|
      ensures Compare(st, h, t[j]) <= 0
    {
      assert t[j] in multiset(t);
      if t[j] != x {
        assert t[j] in multiset(s);
        var k :| 0 <= k < |s| && s[k] == t[j];
      }
    }
  }

  lemma {:induction false} InsertKeepsSorted(st: SortState, x: WalletRecord, s: seq<WalletRecord>)
    requires SortedBy(st, s)
    ensures SortedBy(st, Insert(st, x, s))
  {
    if |s| == 0 {
    } else if Compare(st, x, s[0]) <= 0 {
      forall j | 0 <= j < |s|
        ensures Compare(st, x, s[j]) <= 0
      {
        if j > 0 {
          CompareTransitive(st, x, s[0], s[j]);
        }
      }
      ConsSorted(st, x, s);
    } else {
      var tail := s[1..];
      InsertKeepsSorted(st, x, tail);
      var t := Insert(st, x, tail);
      CompareAntisymmetric(st, x, s[0]);
      assert forall j :: 0 <= j < |tail| ==> Compare(st, s[0], tail[j]) <= 0 by {
        forall j | 0 <= j < |tail| ensures Compare(st, s[0], tail[j]) <= 0 {
          assert tail[j] == s[j + 1];
        }
      }
      BoundAfterInsert(st, s[0], x, tail, t);
      ConsSorted(st, s[0], t);
    }
  }

  /** The insertion sort behind `getSortedData`: the result is a permutation
      of the input, ordered by the comparator. */
  function InsertionSort(st: SortState, s: seq<WalletRecord>): (r: seq<WalletRecord>)
    ensures multiset(r) == multiset(s)
    ensures SortedBy(st, r)
  {
    if |s| == 0 then []
    else
      assert s == [s[0]] + s[1..];
      var t := InsertionSort(st, s[1..]);
      InsertKeepsSorted(st, s[0], t);
      Insert(st, s[0], t)
  }

  lemma SortedIsInOrder(st: SortState, s: seq<WalletRecord>)
    requires SortedBy(st, s)
    ensures forall i, j :: 0 <= i < j < |s| ==> InOrder(st, s[i], s[j])
  {
    forall i, j | 0 <= i < j < |s|
      ensures InOrder(st, s[i], s[j])
    {
      CompareMatchesKeyOrder(st, s[i], s[j]);
    }
  }

  /** The rows the table shows: the same records as the stored list, ordered
      by the selected column, non-decreasing for `asc` and non-increasing for
      `desc`. */
  function GetSortedData(data: seq<WalletRecord>, st: SortState): (r: seq<WalletRecord>)
    ensures |r| == |data|
    ensures multiset(r) == multiset(data)
    ensures forall i, j :: 0 <= i < j < |r| ==> InOrder(st, r[i], r[j])
  {
    var r := InsertionSort(st, data);
    assert |r| == |multiset(r)| == |multiset(data)| == |data|;
    SortedIsInOrder(st, r);
    r
  }

  /** A list already in order is left exactly as it is. */
  lemma {:induction false} SortOfSortedIsIdentity(st: SortState, s: seq<WalletRecord>)
    requires SortedBy(st, s)
    ensures InsertionSort(st, s) == s
  {
    if |s| > 0 {
      SortOfSortedIsIdentity(st, s[1..]);
      assert s == [s[0]] + s[1..];
    }
  }

  /** A list already in the column's order is shown exactly as stored. */
  lemma InOrderListIsShownUnchanged(data: seq<WalletRecord>, st: SortState)
    requires forall i, j :: 0 <= i < j < |data| ==> InOrder(st, data[i], data[j])
    ensures GetSortedData(data, st) == data
  {
    forall i, j | 0 <= i < j < |data|
      ensures Compare(st, data[i], data[j]) <= 0
    {
      CompareMatchesKeyOrder(st, data[i], data[j]);
    }
    SortOfSortedIsIdentity(st, data);
  }

  /** Sorting a second time by the same column changes nothing. */
  lemma SortIsIdempotent(data: seq<WalletRecord>, st: SortState)
    ensures var once := GetSortedData(data, st); GetSortedData(once, st) == once
  {
    InOrderListIsShownUnchanged(GetSortedData(data, st), st);
  }

  /** Sorting by start date puts the earlier date first, in whichever order
      the stored list holds the two records. */
  lemma StartDateExample()
    ensures var early := WalletRecord(2, "b", 0.0, 0.0, 0.0, Date("2024-01-01", 1704067200000), Date("", 0));
      var late := WalletRecord(1, "a", 0.0, 0.0, 0.0, Date("2024-06-01", 1717200000000), Date("", 0));
      && GetSortedData([late, early], SortState(StartDate, Asc)) == [early, late]
      && GetSortedData([early, late], SortState(StartDate, Asc)) == [early, late]
  {
    var early := WalletRecord(2, "b", 0.0, 0.0, 0.0, Date("2024-01-01", 1704067200000), Date("", 0));
    var late := WalletRecord(1, "a", 0.0, 0.0, 0.0, Date("2024-06-01", 1717200000000), Date("", 0));
    var st := SortState(StartDate, Asc);
    assert InsertionSort(st, [early]) == [early];
    assert InsertionSort(st, [late]) == [late];
    assert [late, early][1..] == [early];
    assert [early, late][1..] == [late];
  }
}
