/** How the cup and lid reconciliation of a closed day ages: stock rows keep to the open day, so only
    the voids of its orders move it away from the lines its closing stored. */
module PackagingAge {
  import opened Tables
  import opened Store
  import opened Ledger
  import opened LedgerSteps
  import opened StockCounts
  import opened StockChains
  import opened Packaging
  import Acceptance
  import Drawer
  import Orders

  type Item = Store.Id

  // ----- shop and stock together

  datatype DatedMove = DatedMove(date: int, move: StockMove)

  datatype World = World(shop: State, counts: seq<StockCount>, moves: seq<DatedMove>)

  /** Counts and movements are recorded for the open day; the flags say whether the item and a named
      recorder are active. */
  datatype Event =
    | Shop(request: Ledger.Request)
    | Count(entry: Entry, catalog: map<Item, StockCounts.Item>, id: Item, now: int)
    | MoveStock(move: StockMove, itemActive: bool, recorder: Option<bool>)

  function OpenDate(days: seq<Day>): Option<int>
  {
    var i := Find(OpenNow(), days);
    if i < |days| then Some(days[i].date) else None
  }

  function After(w: World, e: Event): World
  {
    match e
    case Shop(r) => w.(shop := Ledger.Next(w.shop, r))
    case Count(entry, catalog, id, now) =>
      w.(counts := StockChains.Next(w.counts, StockChains.Request(OpenDate(w.shop.days), entry, catalog, id, now)))
    case MoveStock(move, itemActive, recorder) =>
      var date := OpenDate(w.shop.days);
      if date.None? || move.quantity < 0 || !itemActive || recorder == Some(false) then w
      else w.(moves := w.moves + [DatedMove(date.value, move)])
  }

  function AfterAll(w: World, events: seq<Event>): World
    decreases |events|
  {
    if events == [] then w else AfterAll(After(w, events[0]), events[1..])
  }

  /** A movement of nothing or more of an active item is recorded for the day that is open. */
  lemma MoveRecordedIff(w: World, move: StockMove, itemActive: bool, recorder: Option<bool>)
    requires DaysInv(w.shop.days)
    ensures var after := After(w, MoveStock(move, itemActive, recorder));
      if 0 <= move.quantity && itemActive && recorder != Some(false) && exists d | d in w.shop.days :: d.isOpen then
        exists d | d in w.shop.days && d.isOpen :: after == w.(moves := w.moves + [DatedMove(d.date, move)])
      else after == w
  {
    Acceptance.OnlyOpenDay(w.shop.days);
  }

  // ----- what a day drew

  function Sold(sales: seq<Sale>, day: Id, p: Packs, item: Item): int
  {
    Sum(Draw(p, item), DrawnLines(sales, day))
  }

  /** The draw of the order of a day that a request voids. */
  function VoidedDraw(st: State, r: Ledger.Request, day: Id, p: Packs, item: Item): int
  {
    if r.VoidSale? && Ledger.Next(st, r) != st then
      var o := Find(WithClientId(r.clientId), st.sales);
      if o < |st.sales| && st.sales[o].day == day then Sum(Draw(p, item), st.sales[o].lines) else 0
    else 0
  }

  function VoidedDuring(w: World, events: seq<Event>, day: Id, p: Packs, item: Item): int
    decreases |events|
  {
    if events == [] then 0
    else
      (if events[0].Shop? then VoidedDraw(w.shop, events[0].request, day, p, item) else 0)
      + VoidedDuring(After(w, events[0]), events[1..], day, p, item)
  }

  lemma HasIff<T>(q: T -> bool, rows: seq<T>)
    ensures Has(q, rows) <==> exists r | r in rows :: q(r)
  {
    if r :| r in rows && q(r) {
      var k :| 0 <= k < |rows| && rows[k] == r;
    }
  }

  /** Two lists of sales with the same voids. */
  predicate SameVoids(a: seq<Sale>, b: seq<Sale>)
  {
    && (forall s | s in a && s.kind == Void :: s in b)
    && (forall s | s in b && s.kind == Void :: s in a)
  }

  lemma SameVoidsStand(a: seq<Sale>, b: seq<Sale>, id: Id)
    requires SameVoids(a, b)
    ensures Has(Voiding(id), a) == Has(Voiding(id), b)
  {
    HasIff(Voiding(id), a);
    HasIff(Voiding(id), b);
  }

  lemma SameDrawOfSales(a: seq<Sale>, b: seq<Sale>, day: Id, p: Packs, item: Item)
    requires SameVoids(a, b)
    ensures forall s :: DrawOfSale(a, day, p, item)(s) == DrawOfSale(b, day, p, item)(s)
  {
    forall s: Sale
      ensures DrawOfSale(a, day, p, item)(s) == DrawOfSale(b, day, p, item)(s)
    {
      SameVoidsStand(a, b, s.id);
    }
  }

  /** A sale that draws nothing on a day while it is parked or sold on another. */
  predicate Idle(s: Sale, day: Id)
  {
    s.day != day || s.status == Parked
  }

  lemma AppendSold(sales: seq<Sale>, s: Sale, day: Id, p: Packs, item: Item)
    requires s.kind == Purchase && Idle(s, day)
    ensures Sold(sales + [s], day, p, item) == Sold(sales, day, p, item)
  {
    var f, g := DrawOfSale(sales, day, p, item), DrawOfSale(sales + [s], day, p, item);
    SameDrawOfSales(sales, sales + [s], day, p, item);
    DrawBySale(sales, day, p, item);
    DrawBySale(sales + [s], day, p, item);
    SumAppend(g, sales, s);
    SumAgree(f, g, sales);
  }

  lemma SameVoidsAfterReplace(sales: seq<Sale>, i: nat, t: Sale)
    requires i < |sales| && sales[i].kind == t.kind == Purchase
    ensures SameVoids(sales, sales[i := t])
  {
    var after := sales[i := t];
    forall s | s in sales && s.kind == Void
      ensures s in after
    {
      var k :| 0 <= k < |sales| && sales[k] == s;
      assert after[k] == s;
    }
  }

  lemma ReplaceSold(sales: seq<Sale>, i: nat, t: Sale, day: Id, p: Packs, item: Item)
    requires i < |sales| && sales[i].kind == t.kind == Purchase && sales[i].id == t.id
    requires (Idle(sales[i], day) && Idle(t, day)) || t == sales[i].(settledAt := t.settledAt)
    ensures Sold(sales[i := t], day, p, item) == Sold(sales, day, p, item)
  {
    var after := sales[i := t];
    var f, g := DrawOfSale(sales, day, p, item), DrawOfSale(after, day, p, item);
    SameVoidsAfterReplace(sales, i, t);
    SameDrawOfSales(sales, after, day, p, item);
    DrawBySale(sales, day, p, item);
    DrawBySale(after, day, p, item);
    SumReplace(f, sales, i, t);
    SumAgree(f, g, after);
  }

  lemma SameVoidsAfterRemove(sales: seq<Sale>, i: nat)
    requires i < |sales| && sales[i].kind == Purchase
    ensures SameVoids(sales, Without(sales, i))
  {
    var after := Without(sales, i);
    forall s | s in sales && s.kind == Void
      ensures s in after
    {
      var k :| 0 <= k < |sales| && sales[k] == s;
      assert after[if k < i then k else k - 1] == s;
    }
  }

  lemma RemoveSold(sales: seq<Sale>, i: nat, day: Id, p: Packs, item: Item)
    requires i < |sales| && sales[i].kind == Purchase && Idle(sales[i], day)
    ensures Sold(Without(sales, i), day, p, item) == Sold(sales, day, p, item)
  {
    var after := Without(sales, i);
    var f, g := DrawOfSale(sales, day, p, item), DrawOfSale(after, day, p, item);
    SameVoidsAfterRemove(sales, i);
    SameDrawOfSales(sales, after, day, p, item);
    DrawBySale(sales, day, p, item);
    DrawBySale(after, day, p, item);
    SumRemove(f, sales, i);
    SumAgree(f, g, after);
  }

  // ----- request by request

  predicate DrawFalls(st: State, r: Ledger.Request, day: Id, p: Packs, item: Item)
  {
    Sold(Ledger.Next(st, r).sales, day, p, item) == Sold(st.sales, day, p, item) - VoidedDraw(st, r, day, p, item)
  }

  lemma CreateDraws(st: State, r: Ledger.Request, day: Id, p: Packs, item: Item)
    requires r.CreateOrder?
    ensures DrawFalls(st, r, day, p, item)
  {
    CreateOrderStep(st, r);
    CreateAdds(st, r.clientId, r.saleId, r.lineId, r.input, r.variant, r.customer, r.service);
    if Ledger.Next(st, r) != st {
      AppendSold(st.sales, Step(st, r).1.sale, day, p, item);
    }
  }

  lemma EditDraws(st: State, after: State, reply: Reply, clientId: Id, day: Id, p: Packs, item: Item)
    requires Inv(st) && ParkedEdited(st, after, reply, clientId)
    ensures Sold(after.sales, day, p, item) == Sold(st.sales, day, p, item)
  {
    ParkedOrderOpen(st, clientId);
    var i := Orders.ParkedOrder(st, clientId).value;
    if reply.OrderDiscarded? {
      RemoveSold(st.sales, i, day, p, item);
    } else {
      ReplaceSold(st.sales, i, reply.sale, day, p, item);
    }
  }

  lemma EditsDraw(st: State, r: Ledger.Request, day: Id, p: Packs, item: Item)
    requires Inv(st) && (r.RenameOrder? || r.AddOrderLine? || r.EditOrderLine?)
    ensures DrawFalls(st, r, day, p, item)
  {
    if Ledger.Next(st, r) != st {
      Drawer.EditParked(st, r);
      EditDraws(st, Ledger.Next(st, r), Step(st, r).1, r.clientId, day, p, item);
    }
  }

  lemma CompletedOnOpenDay(st: State, clientId: Id, tender: Orders.Tender, now: int)
    requires Orders.Complete(st, clientId, tender, now).0 != st
    ensures var i := Find(WithClientId(clientId), st.sales);
      i < |st.sales| && DayIsOpen(st.days, st.sales[i].day)
  {
  }

  lemma CompleteDraws(st: State, r: Ledger.Request, day: Id, p: Packs, item: Item)
    requires r.CompleteOrder? && Closed(st.days, day)
    ensures DrawFalls(st, r, day, p, item)
  {
    CompleteOrderStep(st, r);
    if Ledger.Next(st, r) != st {
      CompleteEdits(st, r.clientId, r.tender, r.now);
      CompletedOnOpenDay(st, r.clientId, r.tender, r.now);
      ReplaceSold(st.sales, Find(WithClientId(r.clientId), st.sales), Step(st, r).1.sale, day, p, item);
    }
  }

  lemma SettledPurchase(st: State, clientId: Id, now: int)
    requires Orders.SettleChange(st, clientId, now).0 != st
    ensures var i := Find(WithClientId(clientId), st.sales);
      i < |st.sales| && st.sales[i].kind == Purchase
  {
  }

  lemma SettleDraws(st: State, r: Ledger.Request, day: Id, p: Packs, item: Item)
    requires r.SettleOrder?
    ensures DrawFalls(st, r, day, p, item)
  {
    SettleOrderStep(st, r);
    if Ledger.Next(st, r) != st {
      SettleEdits(st, r.clientId, r.now);
      SettledPurchase(st, r.clientId, r.now);
      ReplaceSold(st.sales, Find(WithClientId(r.clientId), st.sales), Step(st, r).1.sale, day, p, item);
    }
  }

  lemma VoidDraws(st: State, r: Ledger.Request, day: Id, p: Packs, item: Item)
    requires Inv(st) && r.VoidSale?
    ensures DrawFalls(st, r, day, p, item)
  {
    VoidSaleStep(st, r);
    if Ledger.Next(st, r) != st {
      VoidRemovesItsDraw(st, r.clientId, r.voidClientId, r.saleId, r.isAdmin, day, p, item);
    }
  }

  lemma DaysAndMovesDraw(st: State, r: Ledger.Request, day: Id, p: Packs, item: Item)
    requires r.Open? || r.Close? || r.Record? || r.Amend?
    ensures DrawFalls(st, r, day, p, item)
  {
    OtherTablesKept(st, r);
  }

  /** Once a day is closed, a request takes from what it drew exactly the order it voids. */
  lemma StepDraws(st: State, r: Ledger.Request, day: Id, p: Packs, item: Item)
    requires Inv(st) && Closed(st.days, day)
    ensures DrawFalls(st, r, day, p, item)
  {
    match r
    case CreateOrder(_, _, _, _, _, _, _) => CreateDraws(st, r, day, p, item);
    case CompleteOrder(_, _, _) => CompleteDraws(st, r, day, p, item);
    case SettleOrder(_, _) => SettleDraws(st, r, day, p, item);
    case VoidSale(_, _, _, _) => VoidDraws(st, r, day, p, item);
    case Open(_, _, _, _, _) => DaysAndMovesDraw(st, r, day, p, item);
    case Close(_, _, _, _, _) => DaysAndMovesDraw(st, r, day, p, item);
    case Record(_) => DaysAndMovesDraw(st, r, day, p, item);
    case Amend(_, _) => DaysAndMovesDraw(st, r, day, p, item);
    case _ => EditsDraw(st, r, day, p, item);
  }

  // ----- a closed date takes no more stock rows

  predicate ClosedRow(days: seq<Day>, id: Id, date: int)
  {
    exists d | d in days :: d.id == id && d.date == date && !d.isOpen
  }

  lemma ClosedRowIsClosed(days: seq<Day>, id: Id, date: int)
    requires DaysInv(days) && ClosedRow(days, id, date)
    ensures Closed(days, id) && OpenDate(days) != Some(date)
  {
    var i :| 0 <= i < |days| && days[i].id == id && days[i].date == date && !days[i].isOpen;
    FoundByDayId(days, i);
  }

  lemma OpenKeepsRow(st: State, r: Ledger.Request, id: Id, date: int)
    requires r.Open? && ClosedRow(st.days, id, date)
    ensures ClosedRow(Ledger.Next(st, r).days, id, date)
  {
    OpenStep(st, r);
    OpenOpens(st, r.dayId, r.date, r.openingFloat, r.openerActive, r.now);
  }

  lemma CloseKeepsRow(st: State, r: Ledger.Request, id: Id, date: int)
    requires r.Close? && ClosedRow(st.days, id, date)
    ensures ClosedRow(Ledger.Next(st, r).days, id, date)
  {
    CloseStep(st, r);
    if Ledger.Next(st, r) != st {
      CloseCloses(st, r.closingId, r.countId, r.actual, r.closerActive, r.now);
      var i :| 0 <= i < |st.days| && st.days[i].id == id && st.days[i].date == date && !st.days[i].isOpen;
      assert Ledger.Next(st, r).days[i] == st.days[i];
    }
  }

  lemma RowStaysClosed(st: State, r: Ledger.Request, id: Id, date: int)
    requires ClosedRow(st.days, id, date)
    ensures ClosedRow(Ledger.Next(st, r).days, id, date)
  {
    if r.Open? {
      OpenKeepsRow(st, r, id, date);
    } else if r.Close? {
      CloseKeepsRow(st, r, id, date);
    } else {
      Drawer.OtherRequestsKeepDays(st, r);
    }
  }

  function MovedOn(date: int): DatedMove -> bool { (m: DatedMove) => m.date == date }

  function MoveOf(): DatedMove -> StockMove { (m: DatedMove) => m.move }

  function DayMoves(moves: seq<DatedMove>, date: int): seq<StockMove>
  {
    Map(MoveOf(), Filter(MovedOn(date), moves))
  }

  lemma CountAppended(counts: seq<StockCount>, count: StockCount, date: int)
    requires count.date != date
    ensures DayCounts(counts + [count], date) == DayCounts(counts, date)
  {
    FilterAppend(OnDay(date), counts, count);
  }

  lemma CountsOfOthers(counts: seq<StockCount>, r: StockChains.Request, date: int)
    requires r.today != Some(date)
    ensures DayCounts(StockChains.Next(counts, r), date) == DayCounts(counts, date)
  {
    var reply := Submission(counts, r.today, r.entry, r.catalog, r.id, r.now);
    if reply.Ok? {
      assert reply.value.date == r.today.value;
      CountAppended(counts, reply.value, date);
    }
  }

  /** The stock rows of a date, which an event leaves alone. */
  predicate SameStock(w: World, after: World, date: int)
  {
    DayCounts(after.counts, date) == DayCounts(w.counts, date)
    && DayMoves(after.moves, date) == DayMoves(w.moves, date)
  }

  lemma StockOfOthers(w: World, e: Event, date: int)
    requires OpenDate(w.shop.days) != Some(date)
    ensures SameStock(w, After(w, e), date)
  {
    match e
    case Shop(_) =>
    case Count(entry, catalog, id, now) =>
      CountsOfOthers(w.counts, StockChains.Request(OpenDate(w.shop.days), entry, catalog, id, now), date);
    case MoveStock(move, _, _) =>
      if After(w, e) != w {
        FilterAppend(MovedOn(date), w.moves, DatedMove(OpenDate(w.shop.days).value, move));
      }
  }

  // ----- runs

  predicate Sound(w: World)
  {
    Inv(w.shop) && CountsSound(w.counts)
  }

  lemma CountKeepsSound(counts: seq<StockCount>, r: StockChains.Request)
    requires CountsSound(counts)
    ensures CountsSound(StockChains.Next(counts, r))
  {
    if Submission(counts, r.today, r.entry, r.catalog, r.id, r.now).Ok? {
      SubmissionFits(counts, r.today, r.entry, r.catalog, r.id, r.now);
      AppendKeeps(counts, Submission(counts, r.today, r.entry, r.catalog, r.id, r.now).value);
    }
  }

  lemma EventKeepsSound(w: World, e: Event)
    requires Sound(w)
    ensures Sound(After(w, e))
  {
    match e
    case Shop(r) => StepKeepsInv(w.shop, r);
    case Count(entry, catalog, id, now) =>
      CountKeepsSound(w.counts, StockChains.Request(OpenDate(w.shop.days), entry, catalog, id, now));
    case MoveStock(_, _, _) =>
  }

  /** On a closed date the stock rows stay and the draw falls by the orders voided. */
  lemma EventAges(w: World, e: Event, id: Id, date: int, p: Packs, item: Item)
    requires Sound(w) && ClosedRow(w.shop.days, id, date)
    ensures Sound(After(w, e)) && ClosedRow(After(w, e).shop.days, id, date)
    ensures SameStock(w, After(w, e), date)
    ensures Sold(After(w, e).shop.sales, id, p, item)
      == Sold(w.shop.sales, id, p, item) - (if e.Shop? then VoidedDraw(w.shop, e.request, id, p, item) else 0)
  {
    EventKeepsSound(w, e);
    ClosedRowIsClosed(w.shop.days, id, date);
    StockOfOthers(w, e, date);
    if e.Shop? {
      RowStaysClosed(w.shop, e.request, id, date);
      StepDraws(w.shop, e.request, id, p, item);
    }
  }

  lemma {:induction false} RunAges(w: World, events: seq<Event>, id: Id, date: int, p: Packs, item: Item)
    requires Sound(w) && ClosedRow(w.shop.days, id, date)
    ensures SameStock(w, AfterAll(w, events), date)
    ensures Sold(AfterAll(w, events).shop.sales, id, p, item)
      == Sold(w.shop.sales, id, p, item) - VoidedDuring(w, events, id, p, item)
    decreases |events|
  {
    if events != [] {
      EventAges(w, events[0], id, date, p, item);
      RunAges(After(w, events[0]), events[1..], id, date, p, item);
    }
  }

  // ----- the row of an item, stored and recomputed

  ghost predicate CountsInForce(w: World, date: int, opening: Option<StockCount>, closing: Option<StockCount>)
  {
    var counts := DayCounts(w.counts, date);
    InForce(counts, OpenPhase, opening) && InForce(counts, ClosePhase, closing)
  }

  /** The row of an item that the reconciliation of a day comes to, as `Packaging.RowsFor` puts it. */
  ghost predicate IsRow(w: World, id: Id, date: int, p: Packs, item: Item, row: Row)
  {
    exists opening, closing | CountsInForce(w, date, opening, closing) ::
      row == RowOf(opening, closing, DayMoves(w.moves, date), DrawnLines(w.shop.sales, id), p)(item)
  }

  /** The reconciliation of a day, as the closing stores it and a later call recomputes it. */
  ghost predicate Reconciled(w: World, id: Id, date: int, p: Packs, items: seq<StockItem>, rows: seq<Row>)
  {
    exists opening, closing ::
      RowsFor(rows, opening, closing, DayCounts(w.counts, date), DayMoves(w.moves, date),
              DrawnLines(w.shop.sales, id), p, items)
  }

  lemma EachIsRow(w: World, id: Id, date: int, p: Packs, items: seq<StockItem>, rows: seq<Row>, row: Row)
    requires Reconciled(w, id, date, p, items, rows) && row in rows
    ensures IsRow(w, id, date, p, row.item, row)
  {
    var counts, moves, lines := DayCounts(w.counts, date), DayMoves(w.moves, date), DrawnLines(w.shop.sales, id);
    var opening, closing :| RowsFor(rows, opening, closing, counts, moves, lines, p, items);
    var ids := Map(ItemId(), Filter(Shown(counts, moves, lines, p), items));
    var k :| 0 <= k < |rows| && rows[k] == row;
    assert row == RowOf(opening, closing, moves, lines, p)(ids[k]);
    assert CountsInForce(w, date, opening, closing);
  }

  /** A row with `drawn` less sold of its item. */
  function Undrawn(row: Row, drawn: int): Row
  {
    row.(sold := row.sold - drawn,
         expected := if row.expected.Some? then Some(row.expected.value + drawn) else None,
         variance := if row.variance.Some? then Some(row.variance.value - drawn) else None)
  }

  lemma SameCountsInForce(
      w: World, later: World, date: int, opening: Option<StockCount>, closing: Option<StockCount>,
      opening': Option<StockCount>, closing': Option<StockCount>)
    requires CountsSound(w.counts) && SameStock(w, later, date)
    requires CountsInForce(w, date, opening, closing) && CountsInForce(later, date, opening', closing')
    ensures opening == opening' && closing == closing'
  {
    var counts := DayCounts(w.counts, date);
    InForceIgnoresOrder(w.counts, counts, counts, OpenPhase, opening, opening');
    InForceIgnoresOrder(w.counts, counts, counts, ClosePhase, closing, closing');
  }

  lemma RowOfLess(
      opening: Option<StockCount>, closing: Option<StockCount>, moves: seq<StockMove>, lines: seq<Line>,
      less: seq<Line>, p: Packs, item: Item, drawn: int)
    requires Sum(Draw(p, item), less) == Sum(Draw(p, item), lines) - drawn
    ensures RowOf(opening, closing, moves, less, p)(item)
      == Undrawn(RowOf(opening, closing, moves, lines, p)(item), drawn)
  {
  }

  lemma RowsDiffer(
      w: World, later: World, id: Id, date: int, p: Packs, item: Item, row: Row, row': Row, drawn: int)
    requires CountsSound(w.counts) && SameStock(w, later, date)
    requires Sold(later.shop.sales, id, p, item) == Sold(w.shop.sales, id, p, item) - drawn
    requires IsRow(w, id, date, p, item, row) && IsRow(later, id, date, p, item, row')
    ensures row' == Undrawn(row, drawn)
  {
    var opening, closing :| CountsInForce(w, date, opening, closing)
      && row == RowOf(opening, closing, DayMoves(w.moves, date), DrawnLines(w.shop.sales, id), p)(item);
    var opening', closing' :| CountsInForce(later, date, opening', closing')
      && row' == RowOf(opening', closing', DayMoves(later.moves, date), DrawnLines(later.shop.sales, id), p)(item);
    SameCountsInForce(w, later, date, opening, closing, opening', closing');
    RowOfLess(opening, closing, DayMoves(w.moves, date), DrawnLines(w.shop.sales, id),
              DrawnLines(later.shop.sales, id), p, item, drawn);
  }

  /** A request that closes the day. */
  predicate ClosesDayNow(st: State, r: Ledger.Request, day: Day)
  {
    && r.Close? && Ledger.Next(st, r) != st
    && var d := Find(OpenNow(), st.days);
       d < |st.days| && day == st.days[d]
  }

  lemma JustClosedRow(st: State, r: Ledger.Request, day: Day)
    requires ClosesDayNow(st, r, day)
    ensures Ledger.Next(st, r).sales == st.sales && ClosedRow(Ledger.Next(st, r).days, day.id, day.date)
  {
    CloseStep(st, r);
    CloseCloses(st, r.closingId, r.countId, r.actual, r.closerActive, r.now);
    var d := Find(OpenNow(), st.days);
    assert Ledger.Next(st, r).days[d] == day.(isOpen := false);
  }

  /** Whatever happens after a close, the reconciliation of the closed day differs from the rows the
      closing stored by the draw of the day's orders voided since: the expected quantity of an item is
      higher by that draw, its variance lower, and the rest of its row is as stored. */
  lemma RowsDifferByVoidedDraw(
      w: World, r: Ledger.Request, day: Day, events: seq<Event>, p: Packs, catalog: seq<StockItem>,
      stored: seq<Row>, laterCatalog: seq<StockItem>, now: seq<Row>)
    requires Sound(w) && ClosesDayNow(w.shop, r, day)
    requires Reconciled(w, day.id, day.date, p, catalog, stored)
    requires Reconciled(AfterAll(After(w, Shop(r)), events), day.id, day.date, p, laterCatalog, now)
    ensures forall row, row' | row in stored && row' in now && row'.item == row.item ::
      row' == Undrawn(row, VoidedDuring(After(w, Shop(r)), events, day.id, p, row.item))
  {
    var closed := After(w, Shop(r));
    var later := AfterAll(closed, events);
    JustClosedRow(w.shop, r, day);
    EventKeepsSound(w, Shop(r));
    forall row, row' | row in stored && row' in now && row'.item == row.item
      ensures row' == Undrawn(row, VoidedDuring(closed, events, day.id, p, row.item))
    {
      EachIsRow(w, day.id, day.date, p, catalog, stored, row);
      EachIsRow(later, day.id, day.date, p, laterCatalog, now, row');
      RunAges(closed, events, day.id, day.date, p, row.item);
      RowsDiffer(w, later, day.id, day.date, p, row.item, row, row',
                 VoidedDuring(closed, events, day.id, p, row.item));
    }
  }
}
