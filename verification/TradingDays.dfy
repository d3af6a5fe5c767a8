/** The trading-day service: opening and closing a business day, and the movements of its drawer. */
module TradingDays {
  import opened Tables
  import opened Money
  import opened Store

  const MAX_MOVEMENT_CENTS: int := 2_147_483_647

  function OpenDay(st: State, dayId: Id, date: int, openingFloat: int, openerActive: bool, now: int)
    : (State, Reply)
  {
    if !Safe(openingFloat) || openingFloat < 0 then (st, Failed(BadRequest))
    else if Has(OpenNow(), st.days) then (st, Failed(DayAlreadyOpen))
    else if Has(OnDate(date), st.days) then (st, Failed(DateAlreadyUsed))
    else if !openerActive then (st, Failed(BadRequest))
    else if Has(WithDayId(dayId), st.days) then (st, Failed(DayAlreadyOpen))
    else
      var day := Day(dayId, date, true, openingFloat, now);
      (st.(days := st.days + [day]), DayReply(day))
  }

  // ----- movements

  /** `recorder` is absent, or says whether the named staff member is active. */
  datatype MovementInput = MovementInput(
    id: Id, kind: MovementKind, amount: int, description: string, category: Option<string>,
    recorder: Option<bool>)

  predicate ValidMovement(input: MovementInput)
  {
    && 1 <= input.amount <= MAX_MOVEMENT_CENTS
    && input.description != ""
    && (input.kind != Expense ==> input.category.None?)
  }

  function MovementRow(input: MovementInput, day: Id, amends: Option<Id>): Movement
  {
    Movement(input.id, day, amends, input.kind, input.amount,
             if input.category == Some("") then None else input.category)
  }

  function RecordMovement(st: State, input: MovementInput): (State, Reply)
  {
    var replay := Find(WithMovementId(input.id), st.movements);
    var d := Find(OpenNow(), st.days);
    if !ValidMovement(input) then (st, Failed(BadRequest))
    else if replay < |st.movements| then (st, MovementReply(st.movements[replay]))
    else if d == |st.days| then (st, Failed(NoOpenDay))
    else if input.recorder == Some(false) then (st, Failed(BadRequest))
    else
      var row := MovementRow(input, st.days[d].id, None);
      (st.(movements := st.movements + [row]), MovementReply(row))
  }

  function AmendMovement(st: State, targetId: Id, input: MovementInput): (State, Reply)
  {
    var replay := Find(WithMovementId(input.id), st.movements);
    var t := Find(WithMovementId(targetId), st.movements);
    if !ValidMovement(input) then (st, Failed(BadRequest))
    else if replay < |st.movements| then (st, MovementReply(st.movements[replay]))
    else if t == |st.movements| then (st, Failed(MovementNotFound))
    else if !DayIsOpen(st.days, st.movements[t].day) then (st, Failed(MovementOfClosedDay))
    else if Superseded(st.movements, targetId) then (st, Failed(AlreadySuperseded))
    else if input.recorder == Some(false) then (st, Failed(BadRequest))
    else
      var row := MovementRow(input, st.movements[t].day, Some(targetId));
      (st.(movements := st.movements + [row]), MovementReply(row))
  }

  // ----- the drawer at close

  function PaymentsIfOn(day: Id): Sale -> seq<Payment>
  {
    (s: Sale) => if s.day == day then s.payments else []
  }

  function SaleOn(day: Id): Sale -> bool { (s: Sale) => s.day == day }

  function TipOf(): Sale -> int { (s: Sale) => s.tip }

  function OwedOf(): Sale -> int { (s: Sale) => s.owed }

  function Unsettled(): Sale -> bool { (s: Sale) => s.settledAt.None? }

  function EffectiveRow(movements: seq<Movement>, day: Id): Movement -> bool
  {
    (m: Movement) => m.day == day && !Superseded(movements, m.id)
  }

  function OfKind(kind: MovementKind): Movement -> bool { (m: Movement) => m.kind == kind }

  function MovementAmount(): Movement -> int { (m: Movement) => m.amount }

  function MovementTotal(rows: seq<Movement>, kind: MovementKind): int
  {
    Sum(MovementAmount(), Filter(OfKind(kind), rows))
  }

  predicate RowsSafe(payments: seq<Payment>, sales: seq<Sale>, movements: seq<Movement>)
  {
    && (forall p | p in payments :: Safe(p.amount))
    && (forall s | s in sales :: Safe(s.tip) && Safe(s.owed))
    && (forall m | m in movements :: Safe(m.amount))
  }

  function PaymentsOn(st: State, day: Id): seq<Payment>
  {
    Flatten(Map(PaymentsIfOn(day), st.sales))
  }

  function QueriedFigures(st: State, day: Id): Figures
  {
    var sales := Filter(SaleOn(day), st.sales);
    var movements := Filter(EffectiveRow(st.movements, day), st.movements);
    Figures(
      Portion(Cash, PaymentsOn(st, day)), Portion(Online, PaymentsOn(st, day)), Sum(TipOf(), sales),
      MovementTotal(movements, CashIn), MovementTotal(movements, CashOut),
      MovementTotal(movements, Expense), Sum(OwedOf(), Filter(Unsettled(), sales)))
  }

  /** The reconciliation of one day from its payments, its sales and its effective movements. */
  function CalculateCash(st: State, day: Day, isOpen: bool, counted: Option<int>)
    : Option<Reconciliation>
  {
    if RowsSafe(PaymentsOn(st, day.id), Filter(SaleOn(day.id), st.sales),
                Filter(EffectiveRow(st.movements, day.id), st.movements))
    then CalculateCashReconciliation(isOpen, day.openingFloat, QueriedFigures(st, day.id), counted)
    else None
  }

  lemma {:induction false} PortionFlattened(tender: PaymentMethod, day: Id, sales: seq<Sale>)
    ensures Portion(tender, Flatten(Map(PaymentsIfOn(day), sales))) == Sum(PortionOn(tender, day), sales)
  {
    if sales != [] {
      PortionFlattened(tender, day, sales[1..]);
      var head := PaymentsIfOn(day)(sales[0]);
      var rest := Flatten(Map(PaymentsIfOn(day), sales[1..]));
      assert Map(PaymentsIfOn(day), sales)[1..] == Map(PaymentsIfOn(day), sales[1..]);
      FilterConcat(IsTender(tender), head, rest);
      SumConcat(AmountOf(), Filter(IsTender(tender), head), Filter(IsTender(tender), rest));
    }
  }

  lemma {:induction false} MovementsFiltered(
      table: seq<Movement>, kind: MovementKind, day: Id, rows: seq<Movement>)
    ensures MovementTotal(Filter(EffectiveRow(table, day), rows), kind)
         == Sum(EffectiveOn(table, kind, day), rows)
  {
    var kept := Filter(EffectiveRow(table, day), rows);
    SumFiltered(OfKind(kind), MovementAmount(), kept);
    var f := Restricted(OfKind(kind), MovementAmount());
    SumFiltered(EffectiveRow(table, day), f, rows);
    SumAgree(Restricted(EffectiveRow(table, day), f), EffectiveOn(table, kind, day), rows);
  }

  lemma SalesFiltered(day: Id, sales: seq<Sale>)
    ensures Sum(TipOf(), Filter(SaleOn(day), sales)) == Sum(TipOn(day), sales)
    ensures Sum(OwedOf(), Filter(Unsettled(), Filter(SaleOn(day), sales)))
         == Sum(OutstandingOn(day), sales)
  {
    SumFiltered(SaleOn(day), TipOf(), sales);
    SumAgree(Restricted(SaleOn(day), TipOf()), TipOn(day), sales);
    SumFiltered(Unsettled(), OwedOf(), Filter(SaleOn(day), sales));
    var unsettled := Restricted(Unsettled(), OwedOf());
    SumFiltered(SaleOn(day), unsettled, sales);
    SumAgree(Restricted(SaleOn(day), unsettled), OutstandingOn(day), sales);
  }

  /** Adding up the flat query results gives the per-sale and per-movement folds of the day. */
  lemma QueriesMatchFigures(st: State, day: Id)
    ensures QueriedFigures(st, day) == DayFigures(st, day)
  {
    PortionFlattened(Cash, day, st.sales);
    PortionFlattened(Online, day, st.sales);
    MovementsFiltered(st.movements, CashIn, day, st.movements);
    MovementsFiltered(st.movements, CashOut, day, st.movements);
    MovementsFiltered(st.movements, Expense, day, st.movements);
    SalesFiltered(day, st.sales);
  }

  lemma CashIs(st: State, day: Day, isOpen: bool, counted: Option<int>)
    requires CalculateCash(st, day, isOpen, counted).Some?
    ensures CalculateCash(st, day, isOpen, counted)
      == CalculateCashReconciliation(isOpen, day.openingFloat, DayFigures(st, day.id), counted)
  {
    QueriesMatchFigures(st, day.id);
  }

  lemma ReconciliationMeans(isOpen: bool, openingFloat: int, figures: Figures, counted: Option<int>)
    requires CalculateCashReconciliation(isOpen, openingFloat, figures, counted).Some?
    ensures var r := CalculateCashReconciliation(isOpen, openingFloat, figures, counted).value;
      && r.figures == figures && r.expected == figures.Expected(openingFloat)
      && r.actual == (if isOpen then None else counted)
      && r.variance == (if isOpen || counted.None? then None else Some(counted.value - r.expected))
  {
  }

  /** A close that goes through is a reconciliation of the day's own folds; an open day has no
      actual cash and no variance. */
  lemma CalculateCashMeans(st: State, day: Day, isOpen: bool, counted: Option<int>)
    requires CalculateCash(st, day, isOpen, counted).Some?
    ensures var r := CalculateCash(st, day, isOpen, counted).value;
      && r.figures == DayFigures(st, day.id)
      && r.expected == DayFigures(st, day.id).Expected(day.openingFloat)
      && r.actual == (if isOpen then None else counted)
      && r.variance == (if isOpen || counted.None? then None else Some(counted.value - r.expected))
  {
    CashIs(st, day, isOpen, counted);
    ReconciliationMeans(isOpen, day.openingFloat, DayFigures(st, day.id), counted);
  }

  function CloseDay(st: State, closingId: Id, countId: Id, actual: int, closerActive: bool, now: int)
    : (State, Reply)
  {
    var replay := Find(WithClosingId(closingId), st.closings);
    var d := Find(OpenNow(), st.days);
    if !Safe(actual) || actual < 0 then (st, Failed(BadRequest))
    else if replay < |st.closings| then (st, ClosingReply(st.closings[replay]))
    else if d == |st.days| then (st, Failed(NoOpenDay))
    else if !closerActive then (st, Failed(BadRequest))
    else
      var day := st.days[d];
      match CalculateCash(st, day, false, Some(actual))
      case Some(Reconciliation(figures, expected, _, Some(variance))) =>
        if exists c | c in st.counts :: c.id == countId then (st, Failed(UniqueViolation))
        else
          var count := CashCount(countId, day.id, actual, now);
          var closing := Closing(closingId, day.id, countId, day.openingFloat, figures, expected,
                                 actual, variance);
          (st.(days := st.days[d := day.(isOpen := false)], counts := st.counts + [count],
               closings := st.closings + [closing]),
           ClosingReply(closing))
      case _ => (st, Failed(UnsafeMoney))
  }
}
