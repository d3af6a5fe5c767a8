/** Rows of a table are kept as sequences. This module holds the few folds and look-ups over
    rows that every other module uses, with the facts about inserting, replacing and deleting
    one row that the ledger proofs rest on. */
module Tables {

  datatype Option<+T> = None | Some(value: T)

  datatype Result<+T, +E> = Ok(value: T) | Err(error: E)

  // ----- sums over rows

  function Sum<T>(f: T -> int, rows: seq<T>): int
  {
    if rows == [] then 0 else f(rows[0]) + Sum(f, rows[1..])
  }

  function Filter<T>(p: T -> bool, rows: seq<T>): (kept: seq<T>)
    ensures forall r | r in kept :: r in rows && p(r)
    ensures forall r | r in rows && p(r) :: r in kept
    ensures |kept| <= |rows|
  {
    if rows == [] then []
    else (if p(rows[0]) then [rows[0]] else []) + Filter(p, rows[1..])
  }

  function Map<T, U>(f: T -> U, rows: seq<T>): (mapped: seq<U>)
    ensures |mapped| == |rows|
    ensures forall i | 0 <= i < |rows| :: mapped[i] == f(rows[i])
  {
    if rows == [] then [] else [f(rows[0])] + Map(f, rows[1..])
  }

  function Flatten<T>(groups: seq<seq<T>>): seq<T>
  {
    if groups == [] then [] else groups[0] + Flatten(groups[1..])
  }

  function Restricted<T>(p: T -> bool, f: T -> int): T -> int
  {
    r => if p(r) then f(r) else 0
  }

  /** The first row satisfying `p`, or the number of rows when there is none. */
  function Find<T>(p: T -> bool, rows: seq<T>): (i: nat)
    ensures i <= |rows|
    ensures i < |rows| ==> p(rows[i])
    ensures forall j | 0 <= j < i :: !p(rows[j])
  {
    if rows == [] then 0
    else if p(rows[0]) then 0
    else
      var rest := Find(p, rows[1..]);
      assert forall j | 0 < j < 1 + rest :: rows[j] == rows[1..][j - 1];
      1 + rest
  }

  predicate Has<T>(p: T -> bool, rows: seq<T>)
  {
    Find(p, rows) < |rows|
  }

  function Without<T>(rows: seq<T>, i: nat): seq<T>
    requires i < |rows|
  {
    rows[..i] + rows[i + 1..]
  }

  lemma {:induction false} SumConcat<T>(f: T -> int, a: seq<T>, b: seq<T>)
    ensures Sum(f, a + b) == Sum(f, a) + Sum(f, b)
  {
    if a == [] {
      assert a + b == b;
    } else {
      assert (a + b)[1..] == a[1..] + b;
      SumConcat(f, a[1..], b);
    }
  }

  lemma SumOne<T>(f: T -> int, row: T)
    ensures Sum(f, [row]) == f(row)
  {
    assert Sum(f, [row][1..]) == 0;
  }

  lemma SumAppend<T>(f: T -> int, rows: seq<T>, row: T)
    ensures Sum(f, rows + [row]) == Sum(f, rows) + f(row)
  {
    SumConcat(f, rows, [row]);
  }

  lemma {:induction false} SumRemove<T>(f: T -> int, rows: seq<T>, i: nat)
    requires i < |rows|
    ensures Sum(f, Without(rows, i)) == Sum(f, rows) - f(rows[i])
  {
    if i == 0 {
      assert Without(rows, i) == rows[1..];
    } else {
      SumRemove(f, rows[1..], i - 1);
      assert Without(rows, i)[0] == rows[0] && Without(rows, i)[1..] == Without(rows[1..], i - 1);
    }
  }

  lemma SumReplace<T>(f: T -> int, rows: seq<T>, i: nat, row: T)
    requires i < |rows|
    ensures Sum(f, rows[i := row]) == Sum(f, rows) - f(rows[i]) + f(row)
  {
    SumRemove(f, rows, i);
    SumRemove(f, rows[i := row], i);
    assert Without(rows[i := row], i) == Without(rows, i);
  }

  lemma {:induction false} SumAgree<T>(f: T -> int, g: T -> int, rows: seq<T>)
    requires forall r | r in rows :: f(r) == g(r)
    ensures Sum(f, rows) == Sum(g, rows)
  {
    if rows != [] {
      SumAgree(f, g, rows[1..]);
    }
  }

  /** Two measures that differ on one row only. */
  lemma {:induction false} SumChangedAt<T>(f: T -> int, g: T -> int, rows: seq<T>, i: nat)
    requires i < |rows|
    requires forall j | 0 <= j < |rows| && j != i :: f(rows[j]) == g(rows[j])
    ensures Sum(g, rows) == Sum(f, rows) - f(rows[i]) + g(rows[i])
  {
    SumRemove(f, rows, i);
    SumRemove(g, rows, i);
    SumAgree(f, g, Without(rows, i));
  }

  lemma {:induction false} SumPlus<T>(f: T -> int, g: T -> int, h: T -> int, rows: seq<T>)
    requires forall r | r in rows :: h(r) == f(r) + g(r)
    ensures Sum(h, rows) == Sum(f, rows) + Sum(g, rows)
  {
    if rows != [] {
      SumPlus(f, g, h, rows[1..]);
    }
  }

  lemma {:induction false} SumBounds<T>(f: T -> int, rows: seq<T>)
    requires forall r | r in rows :: 0 <= f(r)
    ensures 0 <= Sum(f, rows)
    ensures forall r | r in rows :: f(r) <= Sum(f, rows)
  {
    if rows != [] {
      SumBounds(f, rows[1..]);
    }
  }

  lemma {:induction false} SumZero<T>(f: T -> int, rows: seq<T>)
    requires forall r | r in rows :: f(r) == 0
    ensures Sum(f, rows) == 0
  {
    if rows != [] {
      SumZero(f, rows[1..]);
    }
  }

  lemma {:induction false} SumFiltered<T>(p: T -> bool, f: T -> int, rows: seq<T>)
    ensures Sum(f, Filter(p, rows)) == Sum(Restricted(p, f), rows)
  {
    if rows != [] {
      SumFiltered(p, f, rows[1..]);
      SumConcat(f, if p(rows[0]) then [rows[0]] else [], Filter(p, rows[1..]));
    }
  }

  lemma {:induction false} SumMapped<T, U>(m: T -> U, f: U -> int, g: T -> int, rows: seq<T>)
    requires forall r | r in rows :: f(m(r)) == g(r)
    ensures Sum(f, Map(m, rows)) == Sum(g, rows)
  {
    if rows != [] {
      SumMapped(m, f, g, rows[1..]);
      SumConcat(f, [m(rows[0])], Map(m, rows[1..]));
    }
  }

  lemma {:induction false} SumFlatten<T>(f: T -> int, whole: seq<T> -> int, groups: seq<seq<T>>)
    requires forall g | g in groups :: whole(g) == Sum(f, g)
    ensures Sum(f, Flatten(groups)) == Sum(whole, groups)
  {
    if groups != [] {
      SumFlatten(f, whole, groups[1..]);
      SumConcat(f, groups[0], Flatten(groups[1..]));
    }
  }

  lemma MapAppend<T, U>(f: T -> U, rows: seq<T>, row: T)
    ensures Map(f, rows + [row]) == Map(f, rows) + [f(row)]
  {
  }

  lemma MapPrefix<T, U>(f: T -> U, rows: seq<T>, k: nat)
    requires k < |rows|
    ensures Map(f, rows[..k + 1]) == Map(f, rows[..k]) + [f(rows[k])]
  {
    assert rows[..k + 1] == rows[..k] + [rows[k]];
    MapAppend(f, rows[..k], rows[k]);
  }

  lemma {:induction false} FilterConcat<T>(p: T -> bool, a: seq<T>, b: seq<T>)
    ensures Filter(p, a + b) == Filter(p, a) + Filter(p, b)
  {
    if a == [] {
      assert a + b == b;
    } else {
      assert (a + b)[1..] == a[1..] + b;
      FilterConcat(p, a[1..], b);
    }
  }

  lemma {:induction false} FilterAgree<T>(p: T -> bool, q: T -> bool, rows: seq<T>)
    requires forall r | r in rows :: p(r) == q(r)
    ensures Filter(p, rows) == Filter(q, rows)
  {
    if rows != [] {
      FilterAgree(p, q, rows[1..]);
    }
  }

  // ----- grouping: a total over keys of totals per key

  predicate Distinct<T(==)>(rows: seq<T>)
  {
    forall i, j | 0 <= i < j < |rows| :: rows[i] != rows[j]
  }

  predicate KeysDistinct<T, K(==)>(key: T -> K, rows: seq<T>)
  {
    forall i, j | 0 <= i < j < |rows| :: key(rows[i]) != key(rows[j])
  }

  lemma {:induction false} FilterKeepsDistinct<T, K>(p: T -> bool, key: T -> K, rows: seq<T>)
    requires KeysDistinct(key, rows)
    ensures KeysDistinct(key, Filter(p, rows))
  {
    if rows != [] {
      FilterKeepsDistinct(p, key, rows[1..]);
      var kept, rest := Filter(p, rows), Filter(p, rows[1..]);
      assert kept == (if p(rows[0]) then [rows[0]] else []) + rest;
      forall i | 0 <= i < |rest|
        ensures key(rest[i]) != key(rows[0])
      {
        assert rest[i] in rest;
        var k :| 1 <= k < |rows| && rows[k] == rest[i];
      }
      assert !p(rows[0]) ==> kept == rest;
    }
  }

  /** `value(r)` counted under the one key `r` belongs to. */
  function Cell<K(==), R>(key: R -> K, value: R -> int, k: K): R -> int
  {
    r => if key(r) == k then value(r) else 0
  }

  function PerKey<K(==), R>(key: R -> K, value: R -> int, rows: seq<R>): K -> int
  {
    k => Sum(Cell(key, value, k), rows)
  }

  function Selected<K(==), R>(key: R -> K, value: R -> int, keys: seq<K>): R -> int
  {
    r => if key(r) in keys then value(r) else 0
  }

  /** Totals taken per key and then added up count every row whose key is listed exactly once. */
  lemma {:induction false} SumOfGroups<K, R>(key: R -> K, value: R -> int, keys: seq<K>, rows: seq<R>)
    requires Distinct(keys)
    ensures Sum(PerKey(key, value, rows), keys) == Sum(Selected(key, value, keys), rows)
  {
    if keys == [] {
      SumZero(Selected(key, value, keys), rows);
    } else {
      var rest := keys[1..];
      assert forall r | r in rows && key(r) in rest :: key(r) != keys[0];
      SumOfGroups(key, value, rest, rows);
      SumPlus(Cell(key, value, keys[0]), Selected(key, value, rest), Selected(key, value, keys), rows);
    }
  }

  /** The keys of the rows in order of first occurrence. */
  function DistinctKeys<K(==), R>(key: R -> K, rows: seq<R>): (keys: seq<K>)
    ensures Distinct(keys)
    ensures forall r | r in rows :: key(r) in keys
  {
    if rows == [] then []
    else
      var last := |rows| - 1;
      var before := DistinctKeys(key, rows[..last]);
      assert rows == rows[..last] + [rows[last]];
      if key(rows[last]) in before then before else before + [key(rows[last])]
  }

  lemma {:induction false} KeysAreUsed<K, R>(key: R -> K, rows: seq<R>, k: K)
    requires k in DistinctKeys(key, rows)
    ensures exists r | r in rows :: key(r) == k
    decreases |rows|
  {
    var last := |rows| - 1;
    assert rows[last] in rows;
    if key(rows[last]) != k {
      KeysAreUsed(key, rows[..last], k);
    }
  }

  function HasKey<K(==), R>(key: R -> K, k: K): R -> bool
  {
    r => key(r) == k
  }

  function GroupOf<K(==), R, G>(key: R -> K, summary: (K, seq<R>) -> G, rows: seq<R>): K -> G
  {
    k => summary(k, Filter(HasKey(key, k), rows))
  }

  /** One summary per key, in order of first occurrence, over the rows of that key. */
  function Grouped<K(==), R, G>(key: R -> K, summary: (K, seq<R>) -> G, rows: seq<R>): seq<G>
  {
    Map(GroupOf(key, summary, rows), DistinctKeys(key, rows))
  }

  lemma FilterAppend<T>(p: T -> bool, rows: seq<T>, row: T)
    ensures Filter(p, rows + [row]) == Filter(p, rows) + (if p(row) then [row] else [])
  {
    FilterConcat(p, rows, [row]);
    assert Filter(p, [row]) == if p(row) then [row] else [] by {
      assert [row][1..] == [];
    }
  }

  lemma KeysAppend<K, R>(key: R -> K, rows: seq<R>, row: R)
    ensures var keys := DistinctKeys(key, rows);
      DistinctKeys(key, rows + [row]) == if key(row) in keys then keys else keys + [key(row)]
  {
    assert (rows + [row])[..|rows|] == rows;
  }

  lemma {:induction false} FilterNone<T>(p: T -> bool, rows: seq<T>)
    requires forall r | r in rows :: !p(r)
    ensures Filter(p, rows) == []
  {
    if rows != [] {
      FilterNone(p, rows[1..]);
    }
  }

  lemma {:induction false} FilterAll<T>(p: T -> bool, rows: seq<T>)
    requires forall r | r in rows :: p(r)
    ensures Filter(p, rows) == rows
  {
    if rows != [] {
      FilterAll(p, rows[1..]);
    }
  }

  lemma {:induction false} FindNone<T>(p: T -> bool, rows: seq<T>)
    requires forall r | r in rows :: !p(r)
    ensures Find(p, rows) == |rows|
  {
    if rows != [] {
      FindNone(p, rows[1..]);
    }
  }

  lemma NewKeyHasNoMembers<K, R>(key: R -> K, rows: seq<R>, k: K)
    requires k !in DistinctKeys(key, rows)
    ensures Filter(HasKey(key, k), rows) == []
  {
    FilterNone(HasKey(key, k), rows);
  }

  lemma GroupAt<K, R, G>(key: R -> K, summary: (K, seq<R>) -> G, rows: seq<R>, row: R, j: nat)
    requires j < |DistinctKeys(key, rows)|
    ensures var k := DistinctKeys(key, rows)[j];
      var members := Filter(HasKey(key, k), rows);
      && Grouped(key, summary, rows)[j] == summary(k, members)
      && Grouped(key, summary, rows + [row])[j]
         == summary(k, members + (if key(row) == k then [row] else []))
  {
    KeysAppend(key, rows, row);
    FilterAppend(HasKey(key, DistinctKeys(key, rows)[j]), rows, row);
  }

  lemma GroupUntouched<K, R, G>(key: R -> K, summary: (K, seq<R>) -> G, rows: seq<R>, row: R, j: nat)
    requires j < |DistinctKeys(key, rows)| && DistinctKeys(key, rows)[j] != key(row)
    ensures Grouped(key, summary, rows + [row])[j] == Grouped(key, summary, rows)[j]
  {
    GroupAt(key, summary, rows, row, j);
    var members := Filter(HasKey(key, DistinctKeys(key, rows)[j]), rows);
    assert members + [] == members;
  }

  lemma OthersUntouched<K, R, G>(key: R -> K, summary: (K, seq<R>) -> G, rows: seq<R>, row: R, i: nat)
    requires i < |DistinctKeys(key, rows)| && DistinctKeys(key, rows)[i] == key(row)
    ensures var groups, after := Grouped(key, summary, rows), Grouped(key, summary, rows + [row]);
      |after| == |groups| && forall j | 0 <= j < |groups| && j != i :: after[j] == groups[j]
  {
    var groups, after := Grouped(key, summary, rows), Grouped(key, summary, rows + [row]);
    KeysAppend(key, rows, row);
    forall j | 0 <= j < |groups| && j != i
      ensures after[j] == groups[j]
    {
      GroupUntouched(key, summary, rows, row, j);
    }
  }

  lemma OneReplaced<T>(before: seq<T>, after: seq<T>, i: nat)
    requires i < |before| == |after|
    requires forall j | 0 <= j < |before| && j != i :: after[j] == before[j]
    ensures after == before[i := after[i]]
  {
  }

  /** One more row changes the summary of its own key only. */
  lemma GroupedAgain<K, R, G>(key: R -> K, summary: (K, seq<R>) -> G, rows: seq<R>, row: R, i: nat)
    requires i < |DistinctKeys(key, rows)| && DistinctKeys(key, rows)[i] == key(row)
    ensures var groups := Grouped(key, summary, rows);
      var members := Filter(HasKey(key, key(row)), rows);
      && i < |groups| && groups[i] == summary(key(row), members)
      && Grouped(key, summary, rows + [row]) == groups[i := summary(key(row), members + [row])]
  {
    GroupAt(key, summary, rows, row, i);
    OthersUntouched(key, summary, rows, row, i);
    OneReplaced(Grouped(key, summary, rows), Grouped(key, summary, rows + [row]), i);
  }

  lemma NewGroup<K, R, G>(key: R -> K, summary: (K, seq<R>) -> G, rows: seq<R>, row: R)
    requires key(row) !in DistinctKeys(key, rows)
    ensures |DistinctKeys(key, rows + [row])| == |DistinctKeys(key, rows)| + 1
    ensures Grouped(key, summary, rows + [row])[|DistinctKeys(key, rows)|] == summary(key(row), [row])
  {
    var keys := DistinctKeys(key, rows);
    KeysAppend(key, rows, row);
    NewKeyHasNoMembers(key, rows, key(row));
    FilterAppend(HasKey(key, key(row)), rows, row);
    assert (keys + [key(row)])[|keys|] == key(row);
    assert [] + [row] == [row];
  }

  /** A row with a new key adds a summary at the end. */
  lemma GroupedAnew<K, R, G>(key: R -> K, summary: (K, seq<R>) -> G, rows: seq<R>, row: R)
    requires key(row) !in DistinctKeys(key, rows)
    ensures Grouped(key, summary, rows + [row])
         == Grouped(key, summary, rows) + [summary(key(row), [row])]
  {
    var groups, after := Grouped(key, summary, rows), Grouped(key, summary, rows + [row]);
    NewGroup(key, summary, rows, row);
    forall j | 0 <= j < |after|
      ensures after[j] == (groups + [summary(key(row), [row])])[j]
    {
      if j < |groups| {
        GroupUntouched(key, summary, rows, row, j);
      }
    }
    assert after == groups + [summary(key(row), [row])];
  }
}
