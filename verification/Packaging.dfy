/** The cup and lid reconciliation of a trading day, filled into maps in one pass over each list,
    against what each item's row means. */
module Packaging {
  import opened Tables
  import opened Store
  import opened Ledger
  import opened LedgerSteps
  import opened StockCounts
  import opened StockChains
  import Orders

  type Id = Store.Id

  datatype MoveKind = Delivery | Wastage

  datatype StockMove = StockMove(item: Id, kind: MoveKind, quantity: int)

  /** The inventory items a sold size draws, one per role. */
  datatype Packs = Packs(cup: Id -> Option<Id>, lid: Id -> Option<Id>)

  datatype StockItem = StockItem(id: Id, active: bool, reconciled: bool, byQuantity: bool)

  datatype Row = Row(
    item: Id, opening: Option<int>, deliveries: int, wastage: int, sold: int,
    expected: Option<int>, actual: Option<int>, variance: Option<int>)

  // ----- what a row means

  function MovedBy(kind: MoveKind, item: Id): StockMove -> int
  {
    (m: StockMove) => if m.kind == kind && m.item == item then m.quantity else 0
  }

  /** What one sold line draws of an item; an item serving as cup and lid is drawn twice. */
  function Draw(p: Packs, item: Id): Line -> int
  {
    (l: Line) =>
      (if p.cup(l.variant) == Some(item) then l.terms.quantity * l.servings else 0)
      + (if p.lid(l.variant) == Some(item) then l.terms.quantity * l.servings else 0)
  }

  /** The quantity a count gives an item; absent when the item is missing or was counted by level. */
  function Counted(lines: seq<CountLine>, item: Id): Option<int>
  {
    if lines == [] then None
    else
      var last := lines[|lines| - 1];
      if last.item == item then last.quantity else Counted(lines[..|lines| - 1], item)
  }

  function CountedIn(count: Option<StockCount>, item: Id): Option<int>
  {
    if count.None? then None else Counted(count.value.lines, item)
  }

  function RowOf(
      opening: Option<StockCount>, closing: Option<StockCount>, moves: seq<StockMove>,
      lines: seq<Line>, p: Packs): Id -> Row
  {
    (item: Id) =>
      var start, end := CountedIn(opening, item), CountedIn(closing, item);
      var deliveries, wastage := Sum(MovedBy(Delivery, item), moves), Sum(MovedBy(Wastage, item), moves);
      var sold := Sum(Draw(p, item), lines);
      Row(item, start, deliveries, wastage, sold,
          if start.Some? then Some(start.value + deliveries - wastage - sold) else None,
          end,
          if start.Some? && end.Some? then Some(end.value - (start.value + deliveries - wastage - sold)) else None)
  }

  predicate Participates(
      counts: seq<StockCount>, moves: seq<StockMove>, lines: seq<Line>, p: Packs, item: Id)
  {
    || (exists c, l | c in counts && l in c.lines :: l.item == item)
    || (exists m | m in moves :: m.item == item)
    || (exists l | l in lines :: p.cup(l.variant) == Some(item) || p.lid(l.variant) == Some(item))
  }

  function Shown(counts: seq<StockCount>, moves: seq<StockMove>, lines: seq<Line>, p: Packs): StockItem -> bool
  {
    (i: StockItem) =>
      i.reconciled && i.byQuantity && (i.active || Participates(counts, moves, lines, p, i.id))
  }

  function ItemId(): StockItem -> Id { (i: StockItem) => i.id }

  // ----- the passes

  /** Adds to the total of an item that has one; other items are ignored. */
  function Plus(totals: map<Id, int>, item: Option<Id>, quantity: int): (r: map<Id, int>)
    ensures r.Keys == totals.Keys
    ensures forall id | id in totals :: r[id] == totals[id] + (if item == Some(id) then quantity else 0)
  {
    if item.None? || item.value !in totals then totals
    else totals[item.value := totals[item.value] + quantity]
  }

  method ZeroTotals(ids: seq<Id>) returns (totals: map<Id, int>)
    ensures forall id :: id in totals <==> id in ids
    ensures forall id | id in totals :: totals[id] == 0
  {
    totals := map[];
    for k := 0 to |ids|
      invariant forall id :: id in totals <==> id in ids[..k]
      invariant forall id | id in totals :: totals[id] == 0
    {
      assert ids[..k + 1] == ids[..k] + [ids[k]];
      totals := totals[ids[k] := 0];
    }
    assert ids[..|ids|] == ids;
  }

  ghost predicate Moved(totals: map<Id, int>, ids: seq<Id>, kind: MoveKind, moves: seq<StockMove>)
  {
    && (forall id :: id in totals <==> id in ids)
    && (forall id | id in ids :: totals[id] == Sum(MovedBy(kind, id), moves))
  }

  lemma MovedPlus(totals: map<Id, int>, ids: seq<Id>, kind: MoveKind, moves: seq<StockMove>, m: StockMove)
    requires Moved(totals, ids, kind, moves)
    ensures Moved(if m.kind == kind then Plus(totals, Some(m.item), m.quantity) else totals,
                  ids, kind, moves + [m])
  {
    forall id | id in ids
      ensures Sum(MovedBy(kind, id), moves + [m]) == Sum(MovedBy(kind, id), moves) + MovedBy(kind, id)(m)
    {
      SumAppend(MovedBy(kind, id), moves, m);
    }
  }

  method MoveTotals(ids: seq<Id>, moves: seq<StockMove>) returns (deliveries: map<Id, int>, wastage: map<Id, int>)
    ensures Moved(deliveries, ids, Delivery, moves) && Moved(wastage, ids, Wastage, moves)
  {
    deliveries := ZeroTotals(ids);
    wastage := ZeroTotals(ids);
    for k := 0 to |moves|
      invariant Moved(deliveries, ids, Delivery, moves[..k]) && Moved(wastage, ids, Wastage, moves[..k])
    {
      var m := moves[k];
      MovedPlus(deliveries, ids, Delivery, moves[..k], m);
      MovedPlus(wastage, ids, Wastage, moves[..k], m);
      assert moves[..k + 1] == moves[..k] + [m];
      if m.kind.Delivery? {
        deliveries := Plus(deliveries, Some(m.item), m.quantity);
      } else {
        wastage := Plus(wastage, Some(m.item), m.quantity);
      }
    }
    assert moves[..|moves|] == moves;
  }

  method SoldTotals(ids: seq<Id>, lines: seq<Line>, p: Packs) returns (sold: map<Id, int>)
    ensures forall id :: id in sold <==> id in ids
    ensures forall id | id in ids :: sold[id] == Sum(Draw(p, id), lines)
  {
    sold := ZeroTotals(ids);
    for k := 0 to |lines|
      invariant forall id :: id in sold <==> id in ids
      invariant forall id | id in ids :: sold[id] == Sum(Draw(p, id), lines[..k])
    {
      var l := lines[k];
      var packagingQuantity := l.terms.quantity * l.servings;
      sold := Plus(sold, p.cup(l.variant), packagingQuantity);
      sold := Plus(sold, p.lid(l.variant), packagingQuantity);
      assert lines[..k + 1] == lines[..k] + [l];
      forall id | id in ids
        ensures Sum(Draw(p, id), lines[..k + 1]) == Sum(Draw(p, id), lines[..k]) + Draw(p, id)(l)
      {
        SumAppend(Draw(p, id), lines[..k], l);
      }
    }
    assert lines[..|lines|] == lines;
  }

  ghost predicate QuantitiesOf(quantities: map<Id, Option<int>>, count: Option<StockCount>)
  {
    forall id :: At(quantities, id, None) == CountedIn(count, id)
  }

  /** The quantities of the count in force, if there is one. */
  method CountQuantities(counts: seq<StockCount>, phase: Phase) returns (quantities: map<Id, Option<int>>)
    ensures exists count :: InForce(counts, phase, count) && QuantitiesOf(quantities, count)
  {
    var latest := LatestStockCountCorrection(counts, phase);
    quantities := map[];
    if latest.Some? {
      var lines := latest.value.lines;
      for k := 0 to |lines|
        invariant forall id :: At(quantities, id, None) == Counted(lines[..k], id)
      {
        assert lines[..k + 1][..k] == lines[..k];
        quantities := quantities[lines[k].item := lines[k].quantity];
      }
      assert lines[..|lines|] == lines;
    }
    assert QuantitiesOf(quantities, latest);
  }

  function At<T>(m: map<Id, T>, id: Id, absent: T): T
  {
    if id in m then m[id] else absent
  }

  method CountedIds(counts: seq<StockCount>) returns (ids: set<Id>)
    ensures forall id :: id in ids <==> exists c, l | c in counts && l in c.lines :: l.item == id
  {
    ids := {};
    for k := 0 to |counts|
      invariant forall id :: id in ids <==> exists c, l | c in counts[..k] && l in c.lines :: l.item == id
    {
      var count := counts[k];
      assert counts[..k + 1] == counts[..k] + [count];
      ghost var before := ids;
      for j := 0 to |count.lines|
        invariant forall id :: id in ids <==> id in before || exists l | l in count.lines[..j] :: l.item == id
      {
        assert count.lines[..j + 1] == count.lines[..j] + [count.lines[j]];
        ids := ids + {count.lines[j].item};
      }
      assert count.lines[..|count.lines|] == count.lines;
    }
    assert counts[..|counts|] == counts;
  }

  method ParticipatingIds(counts: seq<StockCount>, moves: seq<StockMove>, lines: seq<Line>, p: Packs)
      returns (ids: set<Id>)
    ensures forall id :: id in ids <==> Participates(counts, moves, lines, p, id)
  {
    var counted := CountedIds(counts);
    var moved := {};
    for k := 0 to |moves|
      invariant forall id :: id in moved <==> exists m | m in moves[..k] :: m.item == id
    {
      assert moves[..k + 1] == moves[..k] + [moves[k]];
      moved := moved + {moves[k].item};
    }
    assert moves[..|moves|] == moves;
    var drawn := {};
    for k := 0 to |lines|
      invariant forall id :: id in drawn <==>
        exists l | l in lines[..k] :: p.cup(l.variant) == Some(id) || p.lid(l.variant) == Some(id)
    {
      var l := lines[k];
      assert lines[..k + 1] == lines[..k] + [l];
      if p.cup(l.variant).Some? {
        drawn := drawn + {p.cup(l.variant).value};
      }
      if p.lid(l.variant).Some? {
        drawn := drawn + {p.lid(l.variant).value};
      }
    }
    assert lines[..|lines|] == lines;
    ids := counted + moved + drawn;
  }

  function Listed(ids: set<Id>): StockItem -> bool
  {
    (i: StockItem) => i.reconciled && i.byQuantity && (i.active || i.id in ids)
  }

  function RowFrom(
      opening: map<Id, Option<int>>, closing: map<Id, Option<int>>, deliveries: map<Id, int>,
      wastage: map<Id, int>, sold: map<Id, int>): Id -> Row
  {
    (id: Id) =>
      var start, end := At(opening, id, None), At(closing, id, None);
      var expected :=
        if start.Some? then Some(start.value + At(deliveries, id, 0) - At(wastage, id, 0) - At(sold, id, 0))
        else None;
      Row(id, start, At(deliveries, id, 0), At(wastage, id, 0), At(sold, id, 0), expected, end,
          if expected.None? || end.None? then None else Some(end.value - expected.value))
  }

  ghost predicate Filled(
      opening: map<Id, Option<int>>, closing: map<Id, Option<int>>, deliveries: map<Id, int>,
      wastage: map<Id, int>, sold: map<Id, int>, start: Option<StockCount>, end: Option<StockCount>,
      moves: seq<StockMove>, lines: seq<Line>, p: Packs, id: Id)
  {
    && At(opening, id, None) == CountedIn(start, id) && At(closing, id, None) == CountedIn(end, id)
    && At(deliveries, id, 0) == Sum(MovedBy(Delivery, id), moves)
    && At(wastage, id, 0) == Sum(MovedBy(Wastage, id), moves)
    && At(sold, id, 0) == Sum(Draw(p, id), lines)
  }

  lemma RowsAgree(
      opening: map<Id, Option<int>>, closing: map<Id, Option<int>>, deliveries: map<Id, int>,
      wastage: map<Id, int>, sold: map<Id, int>, start: Option<StockCount>, end: Option<StockCount>,
      moves: seq<StockMove>, lines: seq<Line>, p: Packs, ids: seq<Id>)
    requires forall id | id in ids ::
      Filled(opening, closing, deliveries, wastage, sold, start, end, moves, lines, p, id)
    ensures Map(RowFrom(opening, closing, deliveries, wastage, sold), ids)
      == Map(RowOf(start, end, moves, lines, p), ids)
  {
    var f, g := RowFrom(opening, closing, deliveries, wastage, sold), RowOf(start, end, moves, lines, p);
    forall k | 0 <= k < |ids|
      ensures f(ids[k]) == g(ids[k])
    {
      assert ids[k] in ids;
    }
    assert Map(f, ids) == Map(g, ids);
  }

  ghost predicate RowsFor(
      rows: seq<Row>, opening: Option<StockCount>, closing: Option<StockCount>, counts: seq<StockCount>,
      moves: seq<StockMove>, lines: seq<Line>, p: Packs, items: seq<StockItem>)
  {
    && InForce(counts, OpenPhase, opening) && InForce(counts, ClosePhase, closing)
    && rows == Map(RowOf(opening, closing, moves, lines, p),
                   Map(ItemId(), Filter(Shown(counts, moves, lines, p), items)))
  }

  /** One row per item shown, each with the totals of its own item and the counts in force. */
  method GetForTradingDay(
      counts: seq<StockCount>, moves: seq<StockMove>, lines: seq<Line>, p: Packs, items: seq<StockItem>)
      returns (rows: seq<Row>)
    ensures exists opening, closing :: RowsFor(rows, opening, closing, counts, moves, lines, p, items)
  {
    var participating := ParticipatingIds(counts, moves, lines, p);
    var listed := Filter(Listed(participating), items);
    FilterAgree(Listed(participating), Shown(counts, moves, lines, p), items);
    var itemIds := Map(ItemId(), listed);
    var openingQty := CountQuantities(counts, OpenPhase);
    var closingQty := CountQuantities(counts, ClosePhase);
    ghost var opening :| InForce(counts, OpenPhase, opening) && QuantitiesOf(openingQty, opening);
    ghost var closing :| InForce(counts, ClosePhase, closing) && QuantitiesOf(closingQty, closing);
    var deliveries, wastage := MoveTotals(itemIds, moves);
    var sold := SoldTotals(itemIds, lines, p);
    rows := Map(RowFrom(openingQty, closingQty, deliveries, wastage, sold), itemIds);
    RowsAgree(openingQty, closingQty, deliveries, wastage, sold, opening, closing, moves, lines, p, itemIds);
    assert RowsFor(rows, opening, closing, counts, moves, lines, p, items);
  }

  // ----- when there is a variance

  lemma {:induction false} CountedIff(lines: seq<CountLine>, item: Id)
    requires forall i, j | 0 <= i < j < |lines| :: lines[i].item != lines[j].item
    ensures Counted(lines, item).Some? <==> exists l | l in lines :: l.item == item && l.quantity.Some?
    ensures forall l | l in lines && l.item == item :: Counted(lines, item) == l.quantity
  {
    if lines != [] {
      var last := |lines| - 1;
      CountedIff(lines[..last], item);
      assert lines == lines[..last] + [lines[last]];
      assert forall l | l in lines[..last] :: exists i | 0 <= i < last :: lines[i] == l;
    }
  }

  predicate GivesQuantity(count: Option<StockCount>, item: Id)
  {
    count.Some? && exists l | l in count.value.lines :: l.item == item && l.quantity.Some?
  }

  /** A row has a variance if and only if both counts in force give the item a quantity; then it is
      what deliveries, wastage and sales leave unexplained. */
  lemma VarianceIff(
      requests: seq<StockChains.Request>, date: int, opening: Option<StockCount>, closing: Option<StockCount>,
      moves: seq<StockMove>, lines: seq<Line>, p: Packs, item: Id)
    requires var counts := DayCounts(StockChains.Run([], requests), date);
      InForce(counts, OpenPhase, opening) && InForce(counts, ClosePhase, closing)
    ensures var row := RowOf(opening, closing, moves, lines, p)(item);
      && (row.variance.Some? <==> GivesQuantity(opening, item) && GivesQuantity(closing, item))
      && (row.variance.Some? ==>
            row.actual.value == row.opening.value + row.deliveries - row.wastage - row.sold + row.variance.value)
  {
    RunKeepsItems([], requests);
    if opening.Some? {
      CountedIff(opening.value.lines, item);
    }
    if closing.Some? {
      CountedIff(closing.value.lines, item);
    }
  }

  // ----- voided orders

  /** Completed orders of a day that no void corrects. */
  predicate Stands(sales: seq<Sale>, day: Id, s: Sale)
  {
    s.day == day && s.status == Completed && s.kind == Purchase && !Has(Voiding(s.id), sales)
  }

  function StandingLines(sales: seq<Sale>, day: Id): Sale -> seq<Line>
  {
    (s: Sale) => if Stands(sales, day, s) then s.lines else []
  }

  function DrawnLines(sales: seq<Sale>, day: Id): seq<Line>
  {
    Flatten(Map(StandingLines(sales, day), sales))
  }

  function DrawOfLines(p: Packs, item: Id): seq<Line> -> int
  {
    (lines: seq<Line>) => Sum(Draw(p, item), lines)
  }

  function DrawOfSale(sales: seq<Sale>, day: Id, p: Packs, item: Id): Sale -> int
  {
    (s: Sale) => if Stands(sales, day, s) then Sum(Draw(p, item), s.lines) else 0
  }

  lemma DrawBySale(sales: seq<Sale>, day: Id, p: Packs, item: Id)
    ensures Sum(Draw(p, item), DrawnLines(sales, day)) == Sum(DrawOfSale(sales, day, p, item), sales)
  {
    SumFlatten(Draw(p, item), DrawOfLines(p, item), Map(StandingLines(sales, day), sales));
    SumMapped(StandingLines(sales, day), DrawOfLines(p, item), DrawOfSale(sales, day, p, item), sales);
  }

  lemma VoidedStandsNoMore(sales: seq<Sale>, v: Sale, s: Sale)
    requires v.kind == Void
    ensures Has(Voiding(s.id), sales + [v]) <==> Has(Voiding(s.id), sales) || v.corrects == Some(s.id)
  {
    HasAppend(Voiding(s.id), sales, v);
  }

  /** Voiding an order takes its own draw out of the day it was sold on, and nothing else anywhere. */
  lemma VoidRemovesItsDraw(
      st: State, originalClientId: Id, clientId: Id, saleId: Id, isAdmin: bool, day: Id, p: Packs, item: Id)
    requires Inv(st)
    requires Orders.VoidOrder(st, originalClientId, clientId, saleId, isAdmin).0 != st
    ensures var after := Orders.VoidOrder(st, originalClientId, clientId, saleId, isAdmin).0;
      var o := Find(WithClientId(originalClientId), st.sales);
      && o < |st.sales|
      && Sum(Draw(p, item), DrawnLines(after.sales, day))
         == Sum(Draw(p, item), DrawnLines(st.sales, day))
            - (if st.sales[o].day == day then Sum(Draw(p, item), st.sales[o].lines) else 0)
  {
    var (after, reply) := Orders.VoidOrder(st, originalClientId, clientId, saleId, isAdmin);
    VoidAdds(st, originalClientId, clientId, saleId, isAdmin);
    var o := Find(WithClientId(originalClientId), st.sales);
    var v := reply.sale;
    VoidShiftsDraw(st.sales, o, v, day, p, item);
    DrawBySale(st.sales, day, p, item);
    DrawBySale(after.sales, day, p, item);
  }

  lemma VoidShiftsDraw(sales: seq<Sale>, o: nat, v: Sale, day: Id, p: Packs, item: Id)
    requires SalesInv(sales) && o < |sales| && Mirrors(v, sales[o]) && !Has(Voiding(sales[o].id), sales)
    ensures Sum(DrawOfSale(sales + [v], day, p, item), sales + [v])
      == Sum(DrawOfSale(sales, day, p, item), sales)
         - (if sales[o].day == day then Sum(Draw(p, item), sales[o].lines) else 0)
  {
    var f, g := DrawOfSale(sales, day, p, item), DrawOfSale(sales + [v], day, p, item);
    SumAppend(g, sales, v);
    forall j | 0 <= j < |sales| && j != o
      ensures f(sales[j]) == g(sales[j])
    {
      VoidedStandsNoMore(sales, v, sales[j]);
      assert !Clash(sales[if j < o then j else o], sales[if j < o then o else j]);
    }
    VoidedStandsNoMore(sales, v, sales[o]);
    SumChangedAt(f, g, sales, o);
  }

  // ----- what moves a row

  /** Deliveries raise what is expected, wastage and sales lower it; the variance goes the other way. */
  predicate Shifted(row: Row, after: Row, delivered: int, wasted: int, sold: int)
  {
    && after.item == row.item && after.opening == row.opening && after.actual == row.actual
    && after.deliveries == row.deliveries + delivered && after.wastage == row.wastage + wasted
    && after.sold == row.sold + sold
    && (row.expected.None? <==> after.expected.None?) && (row.variance.None? <==> after.variance.None?)
    && (row.expected.Some? ==> after.expected.value == row.expected.value + delivered - wasted - sold)
    && (row.variance.Some? ==> after.variance.value == row.variance.value - delivered + wasted + sold)
  }

  /** Without movements or sales what was counted at the opening is expected. */
  lemma UntouchedRow(opening: Option<StockCount>, closing: Option<StockCount>, p: Packs, item: Id)
    ensures var row := RowOf(opening, closing, [], [], p)(item);
      && row.item == item && row.deliveries == 0 && row.wastage == 0 && row.sold == 0
      && row.opening == CountedIn(opening, item) && row.actual == CountedIn(closing, item)
      && row.expected == row.opening
      && (row.variance.Some? <==> row.opening.Some? && row.actual.Some?)
      && (row.variance.Some? ==> row.actual.value == row.opening.value + row.variance.value)
  {
  }

  /** A movement shifts the row of its own item, by its quantity, and no other. */
  lemma MoveShiftsItsRow(
      opening: Option<StockCount>, closing: Option<StockCount>, moves: seq<StockMove>, lines: seq<Line>,
      p: Packs, m: StockMove, item: Id)
    ensures Shifted(RowOf(opening, closing, moves, lines, p)(item),
                    RowOf(opening, closing, moves + [m], lines, p)(item),
                    if m.item == item && m.kind == Delivery then m.quantity else 0,
                    if m.item == item && m.kind == Wastage then m.quantity else 0, 0)
  {
    SumAppend(MovedBy(Delivery, item), moves, m);
    SumAppend(MovedBy(Wastage, item), moves, m);
  }

  /** A sold line shifts the row of its cup and the row of its lid, each by its quantity times the
      servings it draws; an item that is both is shifted twice. */
  lemma LineShiftsCupAndLid(
      opening: Option<StockCount>, closing: Option<StockCount>, moves: seq<StockMove>, lines: seq<Line>,
      p: Packs, l: Line, item: Id)
    ensures var drawn := l.terms.quantity * l.servings;
      Shifted(RowOf(opening, closing, moves, lines, p)(item),
              RowOf(opening, closing, moves, lines + [l], p)(item), 0, 0,
              (if p.cup(l.variant) == Some(item) then drawn else 0)
              + (if p.lid(l.variant) == Some(item) then drawn else 0))
  {
    SumAppend(Draw(p, item), lines, l);
  }

  lemma RowOfEach(
      rows: seq<Row>, opening: Option<StockCount>, closing: Option<StockCount>, counts: seq<StockCount>,
      moves: seq<StockMove>, lines: seq<Line>, p: Packs, items: seq<StockItem>)
    requires RowsFor(rows, opening, closing, counts, moves, lines, p, items)
    ensures var shown := Filter(Shown(counts, moves, lines, p), items);
      |rows| == |shown| && forall k | 0 <= k < |rows| :: rows[k].item == shown[k].id
  {
  }

  lemma ShownRow(rows: seq<Row>, shown: seq<StockItem>, item: Id)
    requires |rows| == |shown| && forall k | 0 <= k < |rows| :: rows[k].item == shown[k].id
    ensures (exists row | row in rows :: row.item == item) <==> exists i | i in shown :: i.id == item
  {
    if row :| row in rows && row.item == item {
      var k :| 0 <= k < |rows| && rows[k] == row;
      assert shown[k] in shown;
    }
    if i :| i in shown && i.id == item {
      var k :| 0 <= k < |shown| && shown[k] == i;
      assert rows[k] in rows;
    }
  }

  /** An item has a row if and only if it is reconciled by quantity and is active or took part in the
      day. */
  lemma RowListedIff(
      rows: seq<Row>, opening: Option<StockCount>, closing: Option<StockCount>, counts: seq<StockCount>,
      moves: seq<StockMove>, lines: seq<Line>, p: Packs, items: seq<StockItem>, item: Id)
    requires RowsFor(rows, opening, closing, counts, moves, lines, p, items)
    ensures (exists row | row in rows :: row.item == item) <==>
      exists i | i in items && i.id == item ::
        i.reconciled && i.byQuantity && (i.active || Participates(counts, moves, lines, p, item))
  {
    var shown := Filter(Shown(counts, moves, lines, p), items);
    RowOfEach(rows, opening, closing, counts, moves, lines, p, items);
    ShownRow(rows, shown, item);
    forall i | i in items && i.id == item
      ensures i in shown <==>
        i.reconciled && i.byQuantity && (i.active || Participates(counts, moves, lines, p, item))
    {
      assert i in shown <==> Shown(counts, moves, lines, p)(i);
    }
  }
}
