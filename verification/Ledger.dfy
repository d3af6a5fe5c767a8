/** The store as one state machine over the requests of the order and trading-day services, and
    what every step keeps. */
module Ledger {
  import opened Tables
  import opened Money
  import opened Store
  import opened Orders
  import opened TradingDays
  import opened Lines

  datatype Request =
    | CreateOrder(clientId: Id, saleId: Id, lineId: Id, input: LineInput, variant: Option<Variant>,
                  customer: Option<string>, service: ServiceType)
    | RenameOrder(clientId: Id, newCustomer: Option<Option<string>>, newService: Option<ServiceType>)
    | AddOrderLine(clientId: Id, lineId: Id, input: LineInput, variant: Option<Variant>)
    | EditOrderLine(clientId: Id, lineId: Id, edit: LineEdit)
    | CompleteOrder(clientId: Id, tender: Tender, now: int)
    | SettleOrder(clientId: Id, now: int)
    | VoidSale(clientId: Id, voidClientId: Id, saleId: Id, isAdmin: bool)
    | Open(dayId: Id, date: int, openingFloat: int, openerActive: bool, now: int)
    | Close(closingId: Id, countId: Id, actual: int, closerActive: bool, now: int)
    | Record(movement: MovementInput)
    | Amend(targetId: Id, movement: MovementInput)

  function Step(st: State, r: Request): (State, Reply)
  {
    match r
    case CreateOrder(c, s, l, input, v, name, service) => Create(st, c, s, l, input, v, name, service)
    case RenameOrder(c, name, service) => UpdateOrder(st, c, name, service)
    case AddOrderLine(c, l, input, v) => AddLine(st, c, l, input, v)
    case EditOrderLine(c, l, edit) => EditLine(st, c, l, edit)
    case CompleteOrder(c, tender, now) => Complete(st, c, tender, now)
    case SettleOrder(c, now) => SettleChange(st, c, now)
    case VoidSale(c, v, s, admin) => VoidOrder(st, c, v, s, admin)
    case Open(d, date, float, active, now) => OpenDay(st, d, date, float, active, now)
    case Close(c, k, actual, active, now) => CloseDay(st, c, k, actual, active, now)
    case Record(m) => RecordMovement(st, m)
    case Amend(t, m) => AmendMovement(st, t, m)
  }

  function Next(st: State, r: Request): State
  {
    Step(st, r).0
  }

  function Run(st: State, requests: seq<Request>): State
    decreases |requests|
  {
    if requests == [] then st else Run(Next(st, requests[0]), requests[1..])
  }

  // ----- a step is the operation it asks for

  lemma CreateOrderStep(st: State, r: Request)
    requires r.CreateOrder?
    ensures Step(st, r) == Create(st, r.clientId, r.saleId, r.lineId, r.input, r.variant, r.customer, r.service)
    ensures Next(st, r) == Create(st, r.clientId, r.saleId, r.lineId, r.input, r.variant, r.customer, r.service).0
  {
  }

  lemma RenameOrderStep(st: State, r: Request)
    requires r.RenameOrder?
    ensures Step(st, r) == UpdateOrder(st, r.clientId, r.newCustomer, r.newService)
    ensures Next(st, r) == UpdateOrder(st, r.clientId, r.newCustomer, r.newService).0
  {
  }

  lemma AddOrderLineStep(st: State, r: Request)
    requires r.AddOrderLine?
    ensures Step(st, r) == AddLine(st, r.clientId, r.lineId, r.input, r.variant)
    ensures Next(st, r) == AddLine(st, r.clientId, r.lineId, r.input, r.variant).0
  {
  }

  lemma EditOrderLineStep(st: State, r: Request)
    requires r.EditOrderLine?
    ensures Step(st, r) == EditLine(st, r.clientId, r.lineId, r.edit)
    ensures Next(st, r) == EditLine(st, r.clientId, r.lineId, r.edit).0
  {
  }

  lemma CompleteOrderStep(st: State, r: Request)
    requires r.CompleteOrder?
    ensures Step(st, r) == Complete(st, r.clientId, r.tender, r.now)
    ensures Next(st, r) == Complete(st, r.clientId, r.tender, r.now).0
  {
  }

  lemma SettleOrderStep(st: State, r: Request)
    requires r.SettleOrder?
    ensures Step(st, r) == SettleChange(st, r.clientId, r.now)
    ensures Next(st, r) == SettleChange(st, r.clientId, r.now).0
  {
  }

  lemma VoidSaleStep(st: State, r: Request)
    requires r.VoidSale?
    ensures Step(st, r) == VoidOrder(st, r.clientId, r.voidClientId, r.saleId, r.isAdmin)
    ensures Next(st, r) == VoidOrder(st, r.clientId, r.voidClientId, r.saleId, r.isAdmin).0
  {
  }

  lemma OpenStep(st: State, r: Request)
    requires r.Open?
    ensures Step(st, r) == OpenDay(st, r.dayId, r.date, r.openingFloat, r.openerActive, r.now)
    ensures Next(st, r) == OpenDay(st, r.dayId, r.date, r.openingFloat, r.openerActive, r.now).0
  {
  }

  lemma CloseStep(st: State, r: Request)
    requires r.Close?
    ensures Step(st, r) == CloseDay(st, r.closingId, r.countId, r.actual, r.closerActive, r.now)
    ensures Next(st, r) == CloseDay(st, r.closingId, r.countId, r.actual, r.closerActive, r.now).0
  {
  }

  lemma RecordStep(st: State, r: Request)
    requires r.Record?
    ensures Step(st, r) == RecordMovement(st, r.movement)
    ensures Next(st, r) == RecordMovement(st, r.movement).0
  {
  }

  lemma AmendStep(st: State, r: Request)
    requires r.Amend?
    ensures Step(st, r) == AmendMovement(st, r.targetId, r.movement)
    ensures Next(st, r) == AmendMovement(st, r.targetId, r.movement).0
  {
  }

  // ----- the invariant, table by table

  predicate SettledTender(s: Sale)
  {
    var cash := Portion(Cash, s.payments);
    && Distinct(Map(TenderOf(), s.payments))
    && (forall p | p in s.payments :: 0 <= p.amount)
    && Sum(AmountOf(), s.payments) == s.totals.total
    && 0 <= s.tip && 0 <= s.owed && s.completedAt.Some?
    && (s.settledAt.Some? ==> 0 < s.owed)
    && (if cash == 0 then s.received.None? && s.owed == 0
        else s.received.Some? && cash + s.owed <= s.received.value)
  }

  predicate Untendered(s: Sale)
  {
    && s.payments == [] && s.tip == 0 && s.owed == 0
    && s.received.None? && s.settledAt.None? && s.completedAt.None?
  }

  predicate PurchaseOk(s: Sale)
  {
    && s.corrects.None? && s.lines != [] && PricedLines(s.lines) && s.totals == TotalsOf(s.lines)
    && (if s.status == Parked then Untendered(s) else SettledTender(s))
  }

  predicate Mirrors(v: Sale, o: Sale)
  {
    && o.kind == Purchase && o.status == Completed
    && v == VoidRow(o, v.id, v.clientId, v.day, v.number)
  }

  predicate Clash(a: Sale, b: Sale)
  {
    || a.id == b.id || a.clientId == b.clientId
    || (a.day == b.day && a.number == b.number)
    || (a.kind == Void && b.kind == Void && a.corrects == b.corrects)
  }

  predicate SalesInv(sales: seq<Sale>)
  {
    && (forall i, j | 0 <= i < j < |sales| :: !Clash(sales[i], sales[j]))
    && (forall s | s in sales :: 1 <= s.number)
    && (forall s | s in sales && s.kind == Purchase :: PurchaseOk(s))
    && (forall s | s in sales && s.kind == Void :: exists o | o in sales :: Mirrors(s, o))
  }

  predicate DaysInv(days: seq<Day>)
  {
    && (forall i, j | 0 <= i < j < |days| ::
          days[i].id != days[j].id && days[i].date != days[j].date
          && !(days[i].isOpen && days[j].isOpen))
    && (forall d | d in days :: 0 <= d.openingFloat)
  }

  predicate AmendsEarlier(movements: seq<Movement>, j: nat)
    requires j < |movements|
  {
    movements[j].amends.Some? ==>
      exists i | 0 <= i < j ::
        movements[i].id == movements[j].amends.value && movements[i].day == movements[j].day
  }

  predicate MovementsInv(movements: seq<Movement>)
  {
    && (forall i, j | 0 <= i < j < |movements| ::
          movements[i].id != movements[j].id
          && (movements[j].amends.Some? ==> movements[i].amends != movements[j].amends))
    && (forall j | 0 <= j < |movements| :: AmendsEarlier(movements, j))
    && (forall m | m in movements :: 1 <= m.amount)
  }

  /** What a closing still says about its day: everything but the change settled since. */
  predicate SnapshotHolds(st: State, c: Closing)
  {
    var now := DayFigures(st, c.day);
    && now.(outstandingChange := c.figures.outstandingChange) == c.figures
    && c.openingFloat == FloatOf(st.days, c.day)
    && c.expected == c.figures.Expected(c.openingFloat)
    && c.variance == c.actual - c.expected
  }

  predicate Closed(days: seq<Day>, id: Id)
  {
    Has(WithDayId(id), days) && !DayIsOpen(days, id)
  }

  predicate ClosingsInv(st: State)
  {
    && |st.counts| == |st.closings|
    && (forall i | 0 <= i < |st.closings| ::
          st.counts[i].id == st.closings[i].countId && st.counts[i].day == st.closings[i].day
          && st.counts[i].counted == st.closings[i].actual)
    && (forall i, j | 0 <= i < j < |st.closings| ::
          st.closings[i].id != st.closings[j].id && st.closings[i].day != st.closings[j].day)
    && (forall c | c in st.closings :: Closed(st.days, c.day) && SnapshotHolds(st, c))
    && (forall d | d in st.days && !d.isOpen :: Has(ClosingOf(d.id), st.closings))
  }

  predicate References(st: State)
  {
    && (forall s | s in st.sales :: Has(WithDayId(s.day), st.days))
    && (forall m | m in st.movements :: Has(WithDayId(m.day), st.days))
  }

  predicate Inv(st: State)
  {
    && SalesInv(st.sales) && DaysInv(st.days) && MovementsInv(st.movements)
    && References(st) && ClosingsInv(st)
  }

  // ----- look-ups under the invariant

  lemma HasAppend<T>(p: T -> bool, rows: seq<T>, row: T)
    ensures Has(p, rows + [row]) <==> Has(p, rows) || p(row)
    ensures Has(p, rows) ==> Find(p, rows + [row]) == Find(p, rows)
  {
    var all := rows + [row];
    assert all[|rows|] == row;
    assert forall i | 0 <= i < |rows| :: all[i] == rows[i];
  }

  lemma FoundByDayId(days: seq<Day>, i: nat)
    requires DaysInv(days) && i < |days|
    ensures Find(WithDayId(days[i].id), days) == i
    ensures DayIsOpen(days, days[i].id) == days[i].isOpen
    ensures FloatOf(days, days[i].id) == days[i].openingFloat
  {
    assert WithDayId(days[i].id)(days[i]);
  }

  lemma {:induction false} LastNumberBounds(sales: seq<Sale>, day: Id)
    ensures 0 <= LastNumber(sales, day)
    ensures forall s | s in sales && s.day == day :: s.number <= LastNumber(sales, day)
  {
    if sales != [] {
      LastNumberBounds(sales[1..], day);
    }
  }

  // ----- the sales table

  lemma AppendSale(sales: seq<Sale>, s: Sale)
    requires SalesInv(sales) && 1 <= s.number
    requires forall i | 0 <= i < |sales| :: !Clash(sales[i], s)
    requires s.kind == Purchase ==> PurchaseOk(s)
    requires s.kind == Void ==> exists o | o in sales :: Mirrors(s, o)
    ensures SalesInv(sales + [s])
  {
    var all := sales + [s];
    assert forall i | 0 <= i < |sales| :: all[i] == sales[i];
    forall v | v in all && v.kind == Void
      ensures exists o | o in all :: Mirrors(v, o)
    {
      var o :| o in sales && Mirrors(v, o);
      assert o in all;
    }
  }

  /** A change of one order that keeps its identity, and freezes it once completed. */
  predicate KeepsOrder(s: Sale, t: Sale)
  {
    && s.kind == Purchase && t.kind == Purchase && t.id == s.id && t.clientId == s.clientId
    && t.day == s.day && t.number == s.number && PurchaseOk(t)
    && (s.status == Completed ==> t == s.(settledAt := t.settledAt))
  }

  lemma MirroredAfterChange(sales: seq<Sale>, i: nat, t: Sale, v: Sale)
    requires SalesInv(sales) && i < |sales| && KeepsOrder(sales[i], t) && v in sales && v.kind == Void
    ensures exists o | o in sales[i := t] :: Mirrors(v, o)
  {
    var o :| o in sales && Mirrors(v, o);
    var all := sales[i := t];
    var k :| 0 <= k < |sales| && sales[k] == o;
    assert all[k] == if k == i then t else o;
    assert Mirrors(v, all[k]);
  }

  lemma ChangeSale(sales: seq<Sale>, i: nat, t: Sale)
    requires SalesInv(sales) && i < |sales| && KeepsOrder(sales[i], t)
    ensures SalesInv(sales[i := t])
  {
    var all := sales[i := t];
    forall s | s in all
      ensures s == t || s in sales
    {
    }
    forall v | v in all && v.kind == Void
      ensures exists o | o in all :: Mirrors(v, o)
    {
      MirroredAfterChange(sales, i, t, v);
    }
    forall j, k | 0 <= j < k < |all|
      ensures !Clash(all[j], all[k])
    {
      assert !Clash(sales[j], sales[k]);
    }
  }

  lemma StillThere(sales: seq<Sale>, i: nat, o: Sale)
    requires i < |sales| && o in sales && o != sales[i]
    ensures o in Without(sales, i)
  {
    var k :| 0 <= k < |sales| && sales[k] == o;
    assert Without(sales, i)[if k < i then k else k - 1] == o;
  }

  lemma OriginalKept(sales: seq<Sale>, i: nat, v: Sale)
    requires SalesInv(sales) && i < |sales| && sales[i].status == Parked
    requires v in sales && v.kind == Void
    ensures exists o | o in Without(sales, i) :: Mirrors(v, o)
  {
    var o :| o in sales && Mirrors(v, o);
    StillThere(sales, i, o);
  }

  lemma RemoveSale(sales: seq<Sale>, i: nat)
    requires SalesInv(sales) && i < |sales|
    requires sales[i].kind == Purchase && sales[i].status == Parked
    ensures SalesInv(Without(sales, i))
  {
    var all := Without(sales, i);
    forall j, k | 0 <= j < k < |all|
      ensures !Clash(all[j], all[k])
    {
      var a, b := if j < i then j else j + 1, if k < i then k else k + 1;
      assert all[j] == sales[a] && all[k] == sales[b];
    }
    forall v | v in all
      ensures v in sales
      ensures v.kind == Void ==> exists o | o in all :: Mirrors(v, o)
    {
      if v.kind == Void {
        OriginalKept(sales, i, v);
      }
    }
  }
}
