/** Tables as maps by row id. */
module KeyedRows {
  import opened Tables

  function Keyed<R, V>(key: R -> nat, value: R -> V, rows: seq<R>): map<nat, V>
  {
    if rows == [] then map[]
    else Keyed(key, value, rows[..|rows| - 1])[key(rows[|rows| - 1]) := value(rows[|rows| - 1])]
  }

  /** The map holds the value of every row, and nothing else. */
  predicate Holds<R, V(==)>(key: R -> nat, value: R -> V, rows: seq<R>, m: map<nat, V>)
  {
    && (forall i | 0 <= i < |rows| :: key(rows[i]) in m && m[key(rows[i])] == value(rows[i]))
    && (forall k | k in m :: exists i | 0 <= i < |rows| :: key(rows[i]) == k)
  }

  lemma {:induction false} KeyedHolds<R, V>(key: R -> nat, value: R -> V, rows: seq<R>)
    requires KeysDistinct(key, rows)
    ensures Holds(key, value, rows, Keyed(key, value, rows))
    decreases |rows|
  {
    if rows != [] {
      var n := |rows| - 1;
      KeyedHolds(key, value, rows[..n]);
      var before, m := Keyed(key, value, rows[..n]), Keyed(key, value, rows);
      forall i | 0 <= i < |rows|
        ensures key(rows[i]) in m && m[key(rows[i])] == value(rows[i])
      {
        assert i < n ==> rows[..n][i] == rows[i];
      }
      forall k | k in m
        ensures exists i | 0 <= i < |rows| :: key(rows[i]) == k
      {
        if k in before {
          var i :| 0 <= i < n && key(rows[..n][i]) == k;
          assert key(rows[i]) == k;
        } else {
          assert key(rows[n]) == k;
        }
      }
    }
  }

  lemma OnlyOneHolds<R, V>(key: R -> nat, value: R -> V, rows: seq<R>, a: map<nat, V>, b: map<nat, V>)
    requires Holds(key, value, rows, a) && Holds(key, value, rows, b)
    ensures a == b
  {
    forall k | k in a
      ensures k in b && b[k] == a[k]
    {
      var i :| 0 <= i < |rows| && key(rows[i]) == k;
    }
    forall k | k in b
      ensures k in a
    {
      var i :| 0 <= i < |rows| && key(rows[i]) == k;
    }
  }

  lemma KeyedAppend<R, V>(key: R -> nat, value: R -> V, rows: seq<R>, row: R)
    ensures Keyed(key, value, rows + [row]) == Keyed(key, value, rows)[key(row) := value(row)]
  {
    assert (rows + [row])[..|rows|] == rows;
  }

  /** One row is replaced, or one row's value changes. */
  lemma KeyedChange<R, V>(key: R -> nat, v: R -> V, w: R -> V, rows: seq<R>, i: nat, row: R)
    requires KeysDistinct(key, rows) && i < |rows| && key(row) == key(rows[i])
    requires forall j | 0 <= j < |rows| && j != i :: w(rows[j]) == v(rows[j])
    ensures Keyed(key, w, rows[i := row]) == Keyed(key, v, rows)[key(row) := w(row)]
  {
    var after := rows[i := row];
    KeyedHolds(key, v, rows);
    assert KeysDistinct(key, after);
    KeyedHolds(key, w, after);
    var m := Keyed(key, v, rows)[key(row) := w(row)];
    forall k | k in m
      ensures exists j | 0 <= j < |after| :: key(after[j]) == k
    {
      if k == key(row) {
        assert key(after[i]) == k;
      } else {
        var j :| 0 <= j < |rows| && key(rows[j]) == k;
        assert key(after[j]) == k;
      }
    }
    OnlyOneHolds(key, w, after, Keyed(key, w, after), m);
  }

  lemma RestIs<R>(rows: seq<R>, i: nat, j: nat)
    requires i < |rows| && j < |rows| - 1
    ensures Without(rows, i)[j] == rows[if j < i then j else j + 1]
  {
  }

  lemma RestDistinct<R>(key: R -> nat, rows: seq<R>, i: nat)
    requires KeysDistinct(key, rows) && i < |rows|
    ensures KeysDistinct(key, Without(rows, i))
    ensures forall j | 0 <= j < |rows| - 1 :: key(Without(rows, i)[j]) != key(rows[i])
  {
    forall j | 0 <= j < |rows| - 1
      ensures key(Without(rows, i)[j]) != key(rows[i])
    {
      RestIs(rows, i, j);
    }
    forall j, k | 0 <= j < k < |rows| - 1
      ensures key(Without(rows, i)[j]) != key(Without(rows, i)[k])
    {
      RestIs(rows, i, j);
      RestIs(rows, i, k);
    }
  }

  lemma RestHolds<R, V>(key: R -> nat, value: R -> V, rows: seq<R>, i: nat, m: map<nat, V>)
    requires KeysDistinct(key, rows) && i < |rows| && Holds(key, value, rows, m)
    ensures Holds(key, value, Without(rows, i), m - {key(rows[i])})
  {
    var rest, left := Without(rows, i), m - {key(rows[i])};
    RestDistinct(key, rows, i);
    forall j | 0 <= j < |rest|
      ensures key(rest[j]) in left && left[key(rest[j])] == value(rest[j])
    {
      RestIs(rows, i, j);
    }
    forall k | k in left
      ensures exists j | 0 <= j < |rest| :: key(rest[j]) == k
    {
      var j :| 0 <= j < |rows| && key(rows[j]) == k;
      RestIs(rows, i, if j < i then j else j - 1);
      assert key(rest[if j < i then j else j - 1]) == k;
    }
  }

  lemma KeyedRemove<R, V>(key: R -> nat, value: R -> V, rows: seq<R>, i: nat)
    requires KeysDistinct(key, rows) && i < |rows|
    ensures Keyed(key, value, Without(rows, i)) == Keyed(key, value, rows) - {key(rows[i])}
  {
    KeyedHolds(key, value, rows);
    RestDistinct(key, rows, i);
    KeyedHolds(key, value, Without(rows, i));
    RestHolds(key, value, rows, i, Keyed(key, value, rows));
    OnlyOneHolds(key, value, Without(rows, i), Keyed(key, value, Without(rows, i)),
                 Keyed(key, value, rows) - {key(rows[i])});
  }

  lemma {:induction false} KeyedAgree<R, V>(key: R -> nat, v: R -> V, w: R -> V, rows: seq<R>)
    requires forall i | 0 <= i < |rows| :: v(rows[i]) == w(rows[i])
    ensures Keyed(key, v, rows) == Keyed(key, w, rows)
    decreases |rows|
  {
    if rows != [] {
      KeyedAgree(key, v, w, rows[..|rows| - 1]);
    }
  }
}
