/** Amendments of cash movements form disjoint chains: every recorded movement has exactly one
    effective row, however often it was amended. */
module Amendments {
  import opened Tables
  import opened Store
  import opened TradingDays
  import opened Ledger
  import opened LedgerSteps

  /** The movement a row amends, or the row itself when it was recorded afresh. */
  function TargetOf(movements: seq<Movement>, j: nat): (t: nat)
    requires j < |movements|
    ensures t <= j
  {
    if movements[j].amends.None? then j
    else
      var t := Find(WithMovementId(movements[j].amends.value), movements);
      if t < j then t else j
  }

  /** The originally recorded movement at the start of a row's chain. */
  function RootOf(movements: seq<Movement>, j: nat): (root: nat)
    requires j < |movements|
    ensures root <= j
  {
    var t := TargetOf(movements, j);
    if t == j then j else RootOf(movements, t)
  }

  /** The row at the end of a chain, found by following the amendments forward. */
  function LeafOf(movements: seq<Movement>, i: nat): (leaf: nat)
    requires i < |movements|
    ensures i <= leaf < |movements|
    decreases |movements| - i
  {
    var s := Find(Amending(movements[i].id), movements);
    if i < s < |movements| then LeafOf(movements, s) else i
  }

  lemma TargetIsEarlier(movements: seq<Movement>, j: nat)
    requires MovementsInv(movements) && j < |movements|
    ensures movements[j].amends.None? ==> TargetOf(movements, j) == j
    ensures movements[j].amends.Some? ==>
      var t := TargetOf(movements, j);
      t < j && movements[t].id == movements[j].amends.value && movements[t].day == movements[j].day
  {
    if movements[j].amends.Some? {
      assert AmendsEarlier(movements, j);
      var i :| 0 <= i < j && movements[i].id == movements[j].amends.value
               && movements[i].day == movements[j].day;
      assert WithMovementId(movements[j].amends.value)(movements[i]);
    }
  }

  /** Each row is amended by at most one other, and only by a later one. */
  lemma OneSuccessor(movements: seq<Movement>, i: nat, j: nat)
    requires MovementsInv(movements) && i < |movements| && j < |movements|
    requires movements[j].amends == Some(movements[i].id)
    ensures i < j && Find(Amending(movements[i].id), movements) == j && TargetOf(movements, j) == i
  {
    TargetIsEarlier(movements, j);
    assert Amending(movements[i].id)(movements[j]);
  }

  lemma {:induction false} LeafIsEffective(movements: seq<Movement>, i: nat)
    requires MovementsInv(movements) && i < |movements|
    ensures var leaf := LeafOf(movements, i);
      && !Superseded(movements, movements[leaf].id)
      && movements[leaf].day == movements[i].day
      && RootOf(movements, leaf) == RootOf(movements, i)
    decreases |movements| - i
  {
    var s := Find(Amending(movements[i].id), movements);
    if s < |movements| {
      OneSuccessor(movements, i, s);
      TargetIsEarlier(movements, s);
      LeafIsEffective(movements, s);
    }
  }

  lemma {:induction false} LeafOfRoot(movements: seq<Movement>, j: nat)
    requires MovementsInv(movements) && j < |movements|
    ensures LeafOf(movements, RootOf(movements, j)) == LeafOf(movements, j)
    ensures movements[RootOf(movements, j)].amends.None?
    decreases j
  {
    TargetIsEarlier(movements, j);
    var t := TargetOf(movements, j);
    if t < j {
      OneSuccessor(movements, t, j);
      LeafOfRoot(movements, t);
    }
  }

  /** Chains are disjoint: an effective row is the one leaf of its root, so two effective rows
      never share a root and every root has an effective row on its own day. */
  lemma OneEffectiveRowPerRoot(movements: seq<Movement>, j: nat)
    requires MovementsInv(movements) && j < |movements|
    ensures !Superseded(movements, movements[j].id) <==> LeafOf(movements, RootOf(movements, j)) == j
  {
    LeafOfRoot(movements, j);
    LeafIsEffective(movements, j);
  }

  // ----- counting

  function RecordedOn(day: Id): Movement -> bool
  {
    (m: Movement) => m.day == day && m.amends.None?
  }

  function OneIf<T>(p: T -> bool): T -> int { r => if p(r) then 1 else 0 }

  lemma {:induction false} CountIsLength<T>(p: T -> bool, rows: seq<T>)
    ensures Sum(OneIf(p), rows) == |Filter(p, rows)|
  {
    if rows != [] {
      CountIsLength(p, rows[1..]);
    }
  }

  lemma EarlierRowsSound(movements: seq<Movement>)
    requires MovementsInv(movements) && movements != []
    ensures MovementsInv(movements[..|movements| - 1])
  {
    var rows := movements[..|movements| - 1];
    forall j | 0 <= j < |rows|
      ensures AmendsEarlier(rows, j)
    {
      assert AmendsEarlier(movements, j);
    }
  }

  lemma OneRowMore(rows: seq<Movement>, m: Movement, day: Id)
    requires MovementsInv(rows + [m])
    ensures Sum(OneIf(EffectiveRow(rows + [m], day)), rows) - Sum(OneIf(EffectiveRow(rows, day)), rows)
      == if m.amends.Some? && m.day == day then -1 else 0
  {
    var movements := rows + [m];
    var f, g := OneIf(EffectiveRow(rows, day)), OneIf(EffectiveRow(movements, day));
    SupersededAppend(rows, m);
    if m.amends.None? {
      SumAgree(f, g, rows);
    } else {
      TargetIsEarlier(movements, |rows|);
      var t := TargetOf(movements, |rows|);
      FirstAmendment(movements, t);
      SumChangedAt(f, g, rows, t);
    }
  }

  lemma {:induction false} EffectiveCount(movements: seq<Movement>, day: Id)
    requires MovementsInv(movements)
    ensures Sum(OneIf(EffectiveRow(movements, day)), movements) == Sum(OneIf(RecordedOn(day)), movements)
  {
    if movements != [] {
      var rows, m := movements[..|movements| - 1], movements[|movements| - 1];
      assert movements == rows + [m];
      EarlierRowsSound(movements);
      EffectiveCount(rows, day);
      SumAppend(OneIf(RecordedOn(day)), rows, m);
      SumAppend(OneIf(EffectiveRow(movements, day)), rows, m);
      OneRowMore(rows, m, day);
      NothingAmendsTheLast(movements);
    }
  }

  lemma FirstAmendment(movements: seq<Movement>, t: nat)
    requires MovementsInv(movements) && t < |movements| - 1
    requires movements[|movements| - 1].amends == Some(movements[t].id)
    ensures !Superseded(movements[..|movements| - 1], movements[t].id)
    ensures forall j | 0 <= j < |movements| - 1 && j != t :: movements[j].id != movements[t].id
  {
  }

  /** On every day there are as many effective rows as originally recorded movements. */
  lemma EffectiveRowsMatchRoots(movements: seq<Movement>, day: Id)
    requires MovementsInv(movements)
    ensures |Filter(EffectiveRow(movements, day), movements)| == |Filter(RecordedOn(day), movements)|
  {
    EffectiveCount(movements, day);
    CountIsLength(EffectiveRow(movements, day), movements);
    CountIsLength(RecordedOn(day), movements);
  }
}
