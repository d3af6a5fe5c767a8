/** Rows put in ascending order of a key; rows with equal keys keep their order. */
module Sorting {
  import opened Tables

  predicate SortedBy<T>(key: T -> int, rows: seq<T>)
  {
    forall i, j | 0 <= i < j < |rows| :: key(rows[i]) <= key(rows[j])
  }

  function InsertBy<T(!new)>(key: T -> int, row: T, sorted: seq<T>): (all: seq<T>)
    requires SortedBy(key, sorted)
    ensures SortedBy(key, all) && |all| == |sorted| + 1
    ensures forall x :: x in all <==> x == row || x in sorted
  {
    if sorted == [] || key(row) <= key(sorted[0]) then [row] + sorted
    else
      var rest := InsertBy(key, row, sorted[1..]);
      assert forall k | 0 <= k < |rest| :: rest[k] in rest;
      [sorted[0]] + rest
  }

  function SortBy<T(!new)>(key: T -> int, rows: seq<T>): (sorted: seq<T>)
    ensures SortedBy(key, sorted) && |sorted| == |rows|
    ensures forall x :: x in sorted <==> x in rows
  {
    if rows == [] then [] else InsertBy(key, rows[0], SortBy(key, rows[1..]))
  }

  lemma {:induction false} SumInserted<T(!new)>(f: T -> int, key: T -> int, row: T, sorted: seq<T>)
    requires SortedBy(key, sorted)
    ensures Sum(f, InsertBy(key, row, sorted)) == f(row) + Sum(f, sorted)
  {
    if sorted == [] || key(row) <= key(sorted[0]) {
      assert ([row] + sorted)[1..] == sorted;
    } else {
      SumInserted(f, key, row, sorted[1..]);
      var rest := InsertBy(key, row, sorted[1..]);
      assert ([sorted[0]] + rest)[1..] == rest;
    }
  }

  lemma {:induction false} SumSorted<T(!new)>(f: T -> int, key: T -> int, rows: seq<T>)
    ensures Sum(f, SortBy(key, rows)) == Sum(f, rows)
  {
    if rows != [] {
      SumSorted(f, key, rows[1..]);
      SumInserted(f, key, rows[0], SortBy(key, rows[1..]));
    }
  }

  lemma {:induction false} InsertKeepsDistinct<T(!new)>(key: T -> int, row: T, sorted: seq<T>)
    requires SortedBy(key, sorted) && KeysDistinct(key, sorted)
    requires forall x | x in sorted :: key(x) != key(row)
    ensures KeysDistinct(key, InsertBy(key, row, sorted))
  {
    if sorted != [] && key(row) > key(sorted[0]) {
      InsertKeepsDistinct(key, row, sorted[1..]);
      var rest := InsertBy(key, row, sorted[1..]);
      forall k | 0 <= k < |rest|
        ensures key(rest[k]) != key(sorted[0])
      {
        assert rest[k] in rest;
        assert rest[k] != row ==> exists j | 1 <= j < |sorted| :: sorted[j] == rest[k];
      }
    }
  }

  lemma {:induction false} SortKeepsDistinct<T(!new)>(key: T -> int, rows: seq<T>)
    requires KeysDistinct(key, rows)
    ensures KeysDistinct(key, SortBy(key, rows))
  {
    if rows != [] {
      SortKeepsDistinct(key, rows[1..]);
      InsertKeepsDistinct(key, rows[0], SortBy(key, rows[1..]));
    }
  }

  function KeyIs<T>(key: T -> int, k: int): T -> int
  {
    r => if key(r) == k then 1 else 0
  }

  lemma {:induction false} DistinctKeyComesOnce<T>(key: T -> int, k: int, rows: seq<T>)
    requires KeysDistinct(key, rows)
    ensures Sum(KeyIs(key, k), rows) <= 1
  {
    if rows != [] {
      DistinctKeyComesOnce(key, k, rows[1..]);
      if key(rows[0]) == k {
        SumZero(KeyIs(key, k), rows[1..]);
      }
    }
  }

  lemma RepeatedKeyComesTwice<T>(key: T -> int, rows: seq<T>, i: nat, j: nat)
    requires i < j < |rows| && key(rows[i]) == key(rows[j])
    ensures 2 <= Sum(KeyIs(key, key(rows[i])), rows)
  {
    var f, rest := KeyIs(key, key(rows[i])), Without(rows, j);
    SumRemove(f, rows, j);
    assert rest[i] == rows[i] && rest[i] in rest;
    SumBounds(f, rest);
  }

  /** Sorting never separates equal keys from each other: what comes twice still does. */
  lemma SortKeepsRepeats<T(!new)>(key: T -> int, rows: seq<T>, i: nat, j: nat)
    requires i < j < |rows| && key(rows[i]) == key(rows[j])
    ensures !KeysDistinct(key, SortBy(key, rows))
  {
    var k := key(rows[i]);
    RepeatedKeyComesTwice(key, rows, i, j);
    SumSorted(KeyIs(key, k), key, rows);
    if KeysDistinct(key, SortBy(key, rows)) {
      DistinctKeyComesOnce(key, k, SortBy(key, rows));
    }
  }
}
