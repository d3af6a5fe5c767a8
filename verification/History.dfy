/** What whole runs of the ledger never undo: completed orders, closings, used request ids. */
module History {
  import opened Tables
  import opened Money
  import opened Store
  import opened Orders
  import opened TradingDays
  import opened Lines
  import opened Ledger
  import opened LedgerSteps
  import opened Drawer
  import opened Reports

  // ----- facts of every reachable store

  /** At most one day is open, business dates and order numbers are unique, an order has at most
      one void, and a closed day has exactly one closing and one cash count. */
  lemma EveryRunIsSound(requests: seq<Request>)
    ensures var st := Run(EMPTY, requests);
      && Inv(st)
      && (forall i, j | 0 <= i < j < |st.days| ::
            !(st.days[i].isOpen && st.days[j].isOpen) && st.days[i].date != st.days[j].date)
      && (forall i, j | 0 <= i < j < |st.sales| && st.sales[i].day == st.sales[j].day ::
            st.sales[i].number != st.sales[j].number)
      && (forall i, j | 0 <= i < j < |st.sales| && st.sales[i].kind == st.sales[j].kind == Void ::
            st.sales[i].corrects != st.sales[j].corrects)
      && (forall d | d in st.days && !d.isOpen ::
            |Filter(ClosingOf(d.id), st.closings)| == 1 && |Filter(CountOf(d.id), st.counts)| == 1)
  {
    EmptyInv();
    RunKeepsInv(EMPTY, requests);
    var st := Run(EMPTY, requests);
    assert forall i, j | 0 <= i < j < |st.sales| :: !Clash(st.sales[i], st.sales[j]);
    OneClosingEach(st);
  }

  lemma OneClosingEach(st: State)
    requires ClosingsInv(st)
    ensures forall d | d in st.days && !d.isOpen ::
      |Filter(ClosingOf(d.id), st.closings)| == 1 && |Filter(CountOf(d.id), st.counts)| == 1
  {
    forall d | d in st.days && !d.isOpen
      ensures |Filter(ClosingOf(d.id), st.closings)| == 1 && |Filter(CountOf(d.id), st.counts)| == 1
    {
      var i := Find(ClosingOf(d.id), st.closings);
      SingleMatch(ClosingOf(d.id), st.closings, i);
      SingleMatch(CountOf(d.id), st.counts, i);
    }
  }

  function CountOf(day: Id): CashCount -> bool { (c: CashCount) => c.day == day }

  lemma {:induction false} SingleMatch<T>(p: T -> bool, rows: seq<T>, i: nat)
    requires i < |rows| && p(rows[i])
    requires forall j | 0 <= j < |rows| && j != i :: !p(rows[j])
    ensures Filter(p, rows) == [rows[i]]
  {
    if i == 0 {
      FilterNone(p, rows[1..]);
    } else {
      assert forall j | 0 <= j < |rows| - 1 :: rows[1..][j] == rows[j + 1];
      SingleMatch(p, rows[1..], i - 1);
    }
  }

  /** An order always has a line, its header is the fold of its lines, and once completed it has
      been paid its total, with enough cash for the portion and the change withheld. */
  lemma OrderAddsUp(st: State, s: Sale)
    requires Inv(st) && s in st.sales && s.kind == Purchase
    ensures s.lines != []
    ensures s.totals == TotalsOf(s.lines) && 0 <= s.totals.total <= s.totals.subtotal
    ensures s.totals.total == Sum(LineTotalOf(), s.lines)
    ensures forall l | l in s.lines :: CalculateLineAmounts(l.terms) == Ok(l.amounts)
    ensures s.status == Completed ==> Sum(AmountOf(), s.payments) == s.totals.total
    ensures s.status == Completed && s.owed > 0 ==>
      s.received.Some? && s.received.value - Portion(Cash, s.payments) >= s.owed
  {
    assert PurchaseOk(s);
    TotalsAddUp(s.lines);
  }

  // ----- completed orders are frozen

  predicate Frozen(s: Sale, t: Sale)
  {
    t == s.(settledAt := t.settledAt) && (s.settledAt.Some? ==> t.settledAt == s.settledAt)
  }

  predicate KeptFrozen(s: Sale, sales: seq<Sale>)
  {
    exists t | t in sales :: Frozen(s, t)
  }

  lemma FrozenAgain(s: Sale, t: Sale, u: Sale)
    requires Frozen(s, t) && Frozen(t, u)
    ensures Frozen(s, u)
  {
  }

  lemma KeptByAppend(sales: seq<Sale>, row: Sale, s: Sale)
    requires s in sales
    ensures KeptFrozen(s, sales + [row])
  {
    assert s in sales + [row] && Frozen(s, s);
  }

  lemma KeptByReplace(sales: seq<Sale>, i: nat, row: Sale, s: Sale)
    requires s in sales && i < |sales| && (s == sales[i] ==> Frozen(s, row))
    ensures KeptFrozen(s, sales[i := row])
  {
    var k :| 0 <= k < |sales| && sales[k] == s;
    assert sales[i := row][k] == if k == i then row else s;
    assert Frozen(s, s);
  }

  lemma KeptByRemove(sales: seq<Sale>, i: nat, s: Sale)
    requires s in sales && i < |sales| && s != sales[i]
    ensures KeptFrozen(s, Without(sales, i))
  {
    var k :| 0 <= k < |sales| && sales[k] == s;
    assert Without(sales, i)[if k < i then k else k - 1] == s;
    assert Frozen(s, s);
  }

  lemma KeptByEdit(st: State, after: State, reply: Reply, clientId: Id, s: Sale)
    requires ParkedEdited(st, after, reply, clientId) && s in st.sales && s.status == Completed
    ensures KeptFrozen(s, after.sales)
  {
    var i := ParkedOrder(st, clientId).value;
    if reply.OrderDiscarded? {
      KeptByRemove(st.sales, i, s);
    } else {
      KeptByReplace(st.sales, i, reply.sale, s);
    }
  }

  lemma NewRowsKeep(st: State, r: Request, s: Sale)
    requires s in st.sales && (r.CreateOrder? || r.VoidSale?) && Next(st, r) != st
    ensures KeptFrozen(s, Next(st, r).sales)
  {
    if r.CreateOrder? {
      CreateOrderStep(st, r);
      CreateAdds(st, r.clientId, r.saleId, r.lineId, r.input, r.variant, r.customer, r.service);
    } else {
      VoidSaleStep(st, r);
      VoidAdds(st, r.clientId, r.voidClientId, r.saleId, r.isAdmin);
    }
    KeptByAppend(st.sales, Step(st, r).1.sale, s);
  }

  lemma EditsKeep(st: State, r: Request, s: Sale)
    requires s in st.sales && s.status == Completed && Next(st, r) != st
    requires r.RenameOrder? || r.AddOrderLine? || r.EditOrderLine?
    ensures KeptFrozen(s, Next(st, r).sales)
  {
    if r.RenameOrder? {
      RenameOrderStep(st, r);
      UpdateEdits(st, r.clientId, r.newCustomer, r.newService);
    } else if r.AddOrderLine? {
      AddOrderLineStep(st, r);
      AddLineEdits(st, r.clientId, r.lineId, r.input, r.variant);
    } else {
      EditOrderLineStep(st, r);
      EditLineEdits(st, r.clientId, r.lineId, r.edit);
    }
    KeptByEdit(st, Next(st, r), Step(st, r).1, r.clientId, s);
  }

  lemma PaymentsKeep(st: State, r: Request, s: Sale)
    requires s in st.sales && s.status == Completed && Next(st, r) != st
    requires r.CompleteOrder? || r.SettleOrder?
    ensures KeptFrozen(s, Next(st, r).sales)
  {
    if r.CompleteOrder? {
      CompleteOrderStep(st, r);
      CompleteEdits(st, r.clientId, r.tender, r.now);
    } else {
      SettleOrderStep(st, r);
      SettleEdits(st, r.clientId, r.now);
    }
    KeptByReplace(st.sales, Find(WithClientId(r.clientId), st.sales), Step(st, r).1.sale, s);
  }

  lemma StepKeepsCompleted(st: State, r: Request, s: Sale)
    requires s in st.sales && s.status == Completed
    ensures KeptFrozen(s, Next(st, r).sales)
  {
    if Next(st, r) == st || r.Open? || r.Close? || r.Record? || r.Amend? {
      OtherTablesKept(st, r);
      assert Frozen(s, s);
    } else if r.CreateOrder? || r.VoidSale? {
      NewRowsKeep(st, r, s);
    } else if r.CompleteOrder? || r.SettleOrder? {
      PaymentsKeep(st, r, s);
    } else {
      EditsKeep(st, r, s);
    }
  }

  /** Nothing of a completed order or of a void ever changes, except that withheld change is
      marked as paid out, once. */
  lemma {:induction false} CompletedOrdersAreFrozen(st: State, requests: seq<Request>, s: Sale)
    requires s in st.sales && s.status == Completed
    ensures KeptFrozen(s, Run(st, requests).sales)
    decreases |requests|
  {
    if requests == [] {
      assert Frozen(s, s);
    } else {
      StepKeepsCompleted(st, requests[0], s);
      var t :| t in Next(st, requests[0]).sales && Frozen(s, t);
      CompletedOrdersAreFrozen(Next(st, requests[0]), requests[1..], t);
      var u :| u in Run(st, requests).sales && Frozen(t, u);
      FrozenAgain(s, t, u);
    }
  }

  // ----- closings

  lemma ClosingsOnlyGrow(st: State, r: Request, c: Closing)
    requires c in st.closings
    ensures c in Next(st, r).closings
  {
    if r.Close? {
      CloseAddsClosing(st, r.closingId, r.countId, r.actual, r.closerActive, r.now, c);
    } else {
      OtherTablesKept(st, r);
    }
  }

  lemma CloseAddsClosing(st: State, closingId: Id, countId: Id, actual: int, active: bool, now: int, c: Closing)
    requires c in st.closings
    ensures c in CloseDay(st, closingId, countId, actual, active, now).0.closings
  {
    CloseCloses(st, closingId, countId, actual, active, now);
  }

  lemma {:induction false} ClosingsStay(st: State, requests: seq<Request>, c: Closing)
    requires c in st.closings
    ensures c in Run(st, requests).closings
    decreases |requests|
  {
    if requests != [] {
      ClosingsOnlyGrow(st, requests[0], c);
      ClosingsStay(Next(st, requests[0]), requests[1..], c);
    }
  }

  lemma {:induction false} LatestCountIsTheOnlyOne(counts: seq<CashCount>, day: Id, i: nat)
    requires i < |counts| && counts[i].day == day
    requires forall j | 0 <= j < |counts| && j != i :: counts[j].day != day
    ensures LatestCount(counts, day) == Some(counts[i])
  {
    if i == 0 {
      NoCountOf(counts[1..], day);
    } else {
      assert forall j | 0 <= j < |counts| - 1 :: counts[1..][j] == counts[j + 1];
      LatestCountIsTheOnlyOne(counts[1..], day, i - 1);
    }
  }

  lemma {:induction false} NoCountOf(counts: seq<CashCount>, day: Id)
    requires forall c | c in counts :: c.day != day
    ensures LatestCount(counts, day) == None
  {
    if counts != [] {
      NoCountOf(counts[1..], day);
    }
  }

  lemma CountedAtClose(st: State, c: Closing)
    requires Inv(st) && c in st.closings
    ensures CountedCash(st.counts, c.day) == Some(c.actual)
  {
    var i :| 0 <= i < |st.closings| && st.closings[i] == c;
    assert forall j | 0 <= j < |st.counts| :: st.counts[j].day == st.closings[j].day;
    LatestCountIsTheOnlyOne(st.counts, c.day, i);
  }

  /** The stored closing of a day equals the day's folds, but for change paid out since. */
  lemma ClosingSnapshot(st: State, c: Closing)
    requires Inv(st) && c in st.closings
    ensures DayFigures(st, c.day).(outstandingChange := c.figures.outstandingChange) == c.figures
    ensures c.expected - ExpectedCash(st, c.day)
         == c.figures.outstandingChange - DayFigures(st, c.day).outstandingChange
    ensures c.variance == c.actual - c.expected
  {
    assert SnapshotHolds(st, c);
  }

  lemma JustClosedBy(st: State, closingId: Id, countId: Id, actual: int, active: bool, now: int)
    requires Inv(st) && CloseDay(st, closingId, countId, actual, active, now).0 != st
    ensures var (closed, reply) := CloseDay(st, closingId, countId, actual, active, now);
      && reply.ClosingReply? && reply.closing in closed.closings && Closed(closed.days, reply.closing.day)
      && reply.closing.expected == ExpectedCash(closed, reply.closing.day)
  {
    var (closed, reply) := CloseDay(st, closingId, countId, actual, active, now);
    CloseCloses(st, closingId, countId, actual, active, now);
    CloseKeeps(st, closingId, countId, actual, active, now);
    assert reply.closing == closed.closings[|st.closings|];
    ClosingSnapshot(closed, reply.closing);
    CloseMovesNoCash(st, closingId, countId, actual, active, now, reply.closing.day);
  }

  lemma JustClosed(st: State, r: Request)
    requires Inv(st) && r.Close? && Next(st, r) != st
    ensures Step(st, r).1.ClosingReply?
    ensures var c := Step(st, r).1.closing;
      c in Next(st, r).closings && Closed(Next(st, r).days, c.day)
      && c.expected == ExpectedCash(Next(st, r), c.day)
  {
    CloseStep(st, r);
    JustClosedBy(st, r.closingId, r.countId, r.actual, r.closerActive, r.now);
  }

  function DayOf(st: State, id: Id): Day
    requires Has(WithDayId(id), st.days)
  {
    st.days[Find(WithDayId(id), st.days)]
  }

  lemma CountedReconciliation(openingFloat: int, figures: Figures, actual: int)
    ensures var row := CalculateCashReconciliation(false, openingFloat, figures, Some(actual));
      var expected := figures.Expected(openingFloat);
      && (row.Some? <==> figures.AllSafe(openingFloat) && Safe(actual) && Safe(actual - expected))
      && (row.Some? ==> row.value.actual == Some(actual) && row.value.variance == Some(actual - expected))
  {
  }

  lemma ReportedRow(st: State, c: Closing)
    requires Closed(st.days, c.day) && CountedCash(st.counts, c.day) == Some(c.actual)
    ensures var float := FloatOf(st.days, c.day);
      && DayOf(st, c.day).openingFloat == float
      && DailyRow(st, DayOf(st, c.day))
         == CalculateCashReconciliation(false, float, DayFigures(st, c.day), Some(c.actual))
  {
  }

  predicate RowOffBy(row: Option<Reconciliation>, figures: Figures, openingFloat: int, c: Closing, settled: int)
  {
    && (row.Some? <==> figures.AllSafe(openingFloat) && Safe(c.actual) && Safe(c.variance + settled))
    && (row.Some? ==> row.value.actual == Some(c.actual) && row.value.variance == Some(c.variance + settled))
  }

  lemma OffByRow(figures: Figures, openingFloat: int, c: Closing, settled: int)
    requires c.expected - figures.Expected(openingFloat) == settled && c.variance == c.actual - c.expected
    ensures RowOffBy(CalculateCashReconciliation(false, openingFloat, figures, Some(c.actual)),
                     figures, openingFloat, c, settled)
  {
    CountedReconciliation(openingFloat, figures, c.actual);
  }

  /** The stored expected cash exceeds the recomputed one by `settled`, and the variance of the daily
      report, which has a row while its amounts are safe, exceeds the stored variance by as much. */
  predicate ReportedOffBy(st: State, c: Closing, settled: int)
  {
    && c in st.closings && Closed(st.days, c.day)
    && c.expected - ExpectedCash(st, c.day) == settled
    && RowOffBy(DailyRow(st, DayOf(st, c.day)), DayFigures(st, c.day), FloatOf(st.days, c.day), c, settled)
  }

  lemma ClosingCounted(st: State, c: Closing)
    requires Inv(st) && c in st.closings
    ensures CountedCash(st.counts, c.day) == Some(c.actual) && c.variance == c.actual - c.expected
  {
    CountedAtClose(st, c);
    ClosingSnapshot(st, c);
  }

  lemma OffBy(st: State, c: Closing, settled: int)
    requires c in st.closings && Closed(st.days, c.day)
    requires c.expected - ExpectedCash(st, c.day) == settled
    requires CountedCash(st.counts, c.day) == Some(c.actual) && c.variance == c.actual - c.expected
    ensures ReportedOffBy(st, c, settled)
  {
    ReportedRow(st, c);
    OffByRow(DayFigures(st, c.day), FloatOf(st.days, c.day), c, settled);
  }

  lemma SnapshotLater(closed: State, requests: seq<Request>, c: Closing)
    requires Inv(closed) && c in closed.closings && Closed(closed.days, c.day)
    requires c.expected == ExpectedCash(closed, c.day)
    ensures ReportedOffBy(Run(closed, requests), c, SettledDuring(closed, requests, c.day))
  {
    ClosedDayMovesOnlyBySettling(closed, requests, c.day);
    RunKeepsInv(closed, requests);
    ClosingsStay(closed, requests, c);
    ClosingCounted(Run(closed, requests), c);
    OffBy(Run(closed, requests), c, SettledDuring(closed, requests, c.day));
  }

  /** After a day closes, and for the rest of any run, its closing stays as it was written; the
      stored expected cash exceeds the recomputed one by exactly the change paid out since, and the
      variance the daily report shows exceeds the stored one by the same amount. */
  lemma ClosingDiffersBySettledChange(st: State, r: Request, requests: seq<Request>)
    requires Inv(st) && r.Close? && Next(st, r) != st
    ensures Step(st, r).1.ClosingReply?
    ensures var c := Step(st, r).1.closing;
      ReportedOffBy(Run(Next(st, r), requests), c, SettledDuring(Next(st, r), requests, c.day))
  {
    JustClosed(st, r);
    StepKeepsInv(st, r);
    SnapshotLater(Next(st, r), requests, Step(st, r).1.closing);
  }

  // ----- replays

  predicate HasDate(days: seq<Day>, date: int)
  {
    exists d | d in days :: d.date == date
  }

  predicate HasMovement(movements: seq<Movement>, id: Id)
  {
    exists m | m in movements :: m.id == id
  }

  predicate HasClosing(closings: seq<Closing>, id: Id)
  {
    exists c | c in closings :: c.id == id
  }

  predicate HasCompleted(sales: seq<Sale>, clientId: Id)
  {
    exists s | s in sales :: s.clientId == clientId && s.status == Completed
  }

  /** The mark a request leaves behind that no later request can take away. */
  predicate Done(st: State, r: Request)
  {
    match r
    case VoidSale(_, v, _, _) => HasCompleted(st.sales, v)
    case Open(_, date, _, _, _) => HasDate(st.days, date)
    case Close(c, _, _, _, _) => HasClosing(st.closings, c)
    case Record(m) => HasMovement(st.movements, m.id)
    case Amend(_, m) => HasMovement(st.movements, m.id)
    case _ => false
  }

  predicate Marks(r: Request)
  {
    r.VoidSale? || r.Open? || r.Close? || r.Record? || r.Amend?
  }

  lemma DoneAtOnce(st: State, r: Request)
    requires Marks(r) && Next(st, r) != st
    ensures Done(Next(st, r), r)
  {
    var (after, reply) := Step(st, r);
    match r
    case VoidSale(c, v, s, admin) =>
      VoidAdds(st, c, v, s, admin);
      assert after.sales[|st.sales|] == reply.sale;
    case Open(d, date, float, active, now) =>
      OpenOpens(st, d, date, float, active, now);
      assert after.days[|st.days|] == reply.day;
    case Close(c, k, actual, active, now) =>
      CloseCloses(st, c, k, actual, active, now);
      assert after.closings[|st.closings|] == reply.closing;
    case Record(m) =>
      RecordAdds(st, m);
      assert after.movements[|st.movements|] == reply.movement;
    case Amend(t, m) =>
      AmendAdds(st, t, m);
      assert after.movements[|st.movements|] == reply.movement;
  }

  lemma DatesStay(st: State, r: Request, date: int)
    requires HasDate(st.days, date)
    ensures HasDate(Next(st, r).days, date)
  {
    var d :| d in st.days && d.date == date;
    var i :| 0 <= i < |st.days| && st.days[i] == d;
    match r
    case Open(id, on, float, active, now) =>
      OpenOpens(st, id, on, float, active, now);
      assert Next(st, r).days[i] == d;
    case Close(c, k, actual, active, now) =>
      CloseCloses(st, c, k, actual, active, now);
      assert Next(st, r).days[i].date == date;
    case _ => OtherRequestsKeepDays(st, r);
  }

  lemma OtherRequestsKeepMovements(st: State, r: Request)
    requires !r.Record? && !r.Amend?
    ensures Next(st, r).movements == st.movements
  {
    OtherTablesKept(st, r);
  }

  lemma MovementsStay(st: State, r: Request, id: Id)
    requires HasMovement(st.movements, id)
    ensures HasMovement(Next(st, r).movements, id)
  {
    var m :| m in st.movements && m.id == id;
    match r
    case Record(input) =>
      RecordAdds(st, input);
      assert m in RecordMovement(st, input).0.movements;
    case Amend(t, input) =>
      AmendAdds(st, t, input);
      assert m in AmendMovement(st, t, input).0.movements;
    case _ => OtherRequestsKeepMovements(st, r);
  }

  lemma DoneForGood(st: State, r: Request, next: Request)
    requires Done(st, r)
    ensures Done(Next(st, next), r)
  {
    match r
    case VoidSale(_, v, _, _) =>
      var s :| s in st.sales && s.clientId == v && s.status == Completed;
      StepKeepsCompleted(st, next, s);
      var t :| t in Next(st, next).sales && Frozen(s, t);
      assert t.clientId == v && t.status == Completed;
    case Open(_, date, _, _, _) => DatesStay(st, next, date);
    case Close(id, _, _, _, _) =>
      var c :| c in st.closings && c.id == id;
      ClosingsOnlyGrow(st, next, c);
    case Record(m) => MovementsStay(st, next, m.id);
    case Amend(_, m) => MovementsStay(st, next, m.id);
  }

  lemma DoneAddsNothing(st: State, r: Request)
    requires Done(st, r)
    ensures Next(st, r) == st
  {
    match r
    case VoidSale(_, v, _, _) =>
      var s :| s in st.sales && s.clientId == v;
      assert WithClientId(v)(s);
    case Open(_, date, _, _, _) =>
      var d :| d in st.days && d.date == date;
      assert OnDate(date)(d);
    case Close(id, _, _, _, _) =>
      var c :| c in st.closings && c.id == id;
      assert WithClosingId(id)(c);
    case Record(input) =>
      var m :| m in st.movements && m.id == input.id;
      assert WithMovementId(input.id)(m);
    case Amend(_, input) =>
      var m :| m in st.movements && m.id == input.id;
      assert WithMovementId(input.id)(m);
  }

  /** A void, opening, closing, movement or amendment that went through once changes nothing when
      the same request comes again, however much later. */
  lemma {:induction false} ReplayChangesNothing(st: State, r: Request, requests: seq<Request>)
    requires Done(st, r) || (Marks(r) && requests != [] && requests[0] == r && Next(st, r) != st)
    ensures Next(Run(st, requests), r) == Run(st, requests)
    decreases |requests|
  {
    if requests == [] {
      DoneAddsNothing(st, r);
    } else {
      if Done(st, r) {
        DoneForGood(st, r, requests[0]);
      } else {
        DoneAtOnce(st, r);
      }
      ReplayChangesNothing(Next(st, requests[0]), r, requests[1..]);
    }
  }

  /** A create answers from the stored order only while that exists: once the order has been discarded,
      the same request, with a row id of its own and whatever the catalog then answers, adds an order
      whenever a day is open and its line can be sold. */
  lemma CreateReplayIff(later: State, r: Request, rowId: Id, found: Option<Variant>)
    requires r.CreateOrder? && !Has(WithSaleId(rowId), later.sales)
    ensures Next(later, r.(saleId := rowId, variant := found)) == later
       <==> || Has(WithClientId(r.clientId), later.sales) || !Has(OpenNow(), later.days)
            || found.None? || Priced(NewLine(r.lineId, r.input, found.value)).Err?
  {
    CreateOrderStep(later, r.(saleId := rowId, variant := found));
    CreateInserts(later, r.clientId, rowId, r.lineId, r.input, found, r.customer, r.service);
  }
}
