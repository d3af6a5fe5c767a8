/** The cash physically moved by each request, and the proof that recomputing a day's expected
    cash from the rows gives the running drawer on every run. */
module Drawer {
  import opened Tables
  import opened Money
  import opened Store
  import opened Orders
  import opened TradingDays
  import opened Ledger
  import opened LedgerSteps

  datatype CashEvent =
    | NoCash
    | DrawerOpened(day: Id, float: int)
    | Taken(day: Id, received: int, handedBack: int, tip: int)
    | ChangePaid(day: Id, change: int)
    | Refunded(day: Id, refund: int)
    | Moved(day: Id, kind: MovementKind, amount: int)
    | Corrected(day: Id, oldKind: MovementKind, oldAmount: int, newKind: MovementKind, newAmount: int)

  // What a request did at the drawer is read off its reply and the store before it.

  function CompleteEvent(st: State, clientId: Id, tender: Tender, reply: Reply): CashEvent
  {
    var i := Find(WithClientId(clientId), st.sales);
    if reply.OrderReply? && i < |st.sales| && st.sales[i].status == Parked then
      var cash := Portion(Cash, tender.payments);
      var received := if cash == 0 then 0 else OrElse(tender.received, cash);
      Taken(st.sales[i].day, received, received - cash - tender.owed, tender.tip)
    else NoCash
  }

  function SettleEvent(st: State, clientId: Id, reply: Reply): CashEvent
  {
    var i := Find(WithClientId(clientId), st.sales);
    if reply.OrderReply? && i < |st.sales| && st.sales[i].settledAt.None? then
      ChangePaid(st.sales[i].day, st.sales[i].owed)
    else NoCash
  }

  function VoidEvent(st: State, clientId: Id, voidClientId: Id, reply: Reply): CashEvent
  {
    var i := Find(WithClientId(clientId), st.sales);
    if reply.OrderReply? && i < |st.sales| && !Has(WithClientId(voidClientId), st.sales) then
      Refunded(reply.sale.day, Portion(Cash, st.sales[i].payments))
    else NoCash
  }

  function OpenEvent(reply: Reply): CashEvent
  {
    if reply.DayReply? then DrawerOpened(reply.day.id, reply.day.openingFloat) else NoCash
  }

  function RecordEvent(st: State, m: MovementInput, reply: Reply): CashEvent
  {
    if reply.MovementReply? && !Has(WithMovementId(m.id), st.movements) then
      Moved(reply.movement.day, m.kind, m.amount)
    else NoCash
  }

  function AmendEvent(st: State, targetId: Id, m: MovementInput, reply: Reply): CashEvent
  {
    var t := Find(WithMovementId(targetId), st.movements);
    if reply.MovementReply? && t < |st.movements| && !Has(WithMovementId(m.id), st.movements) then
      Corrected(reply.movement.day, st.movements[t].kind, st.movements[t].amount, m.kind, m.amount)
    else NoCash
  }

  function CashEventOf(st: State, r: Request): CashEvent
  {
    var reply := Step(st, r).1;
    match r
    case CompleteOrder(clientId, tender, _) => CompleteEvent(st, clientId, tender, reply)
    case SettleOrder(clientId, _) => SettleEvent(st, clientId, reply)
    case VoidSale(clientId, voidClientId, _, _) => VoidEvent(st, clientId, voidClientId, reply)
    case Open(_, _, _, _, _) => OpenEvent(reply)
    case Record(m) => RecordEvent(st, m, reply)
    case Amend(targetId, m) => AmendEvent(st, targetId, m, reply)
    case _ => NoCash
  }

  /** The cash an event puts into the drawer of a day. */
  function Effect(e: CashEvent, day: Id): int
  {
    match e
    case NoCash => 0
    case DrawerOpened(d, float) => if d == day then float else 0
    case Taken(d, received, handedBack, tip) => if d == day then received - handedBack + tip else 0
    case ChangePaid(d, change) => if d == day then -change else 0
    case Refunded(d, refund) => if d == day then -refund else 0
    case Moved(d, kind, amount) => if d == day then Signed(kind, amount) else 0
    case Corrected(d, oldKind, oldAmount, newKind, newAmount) =>
      if d == day then Signed(newKind, newAmount) - Signed(oldKind, oldAmount) else 0
  }

  function DrawerAfter(st: State, requests: seq<Request>, day: Id): int
    decreases |requests|
  {
    if requests == [] then 0
    else Effect(CashEventOf(st, requests[0]), day) + DrawerAfter(Next(st, requests[0]), requests[1..], day)
  }

  predicate MovesDrawer(st: State, r: Request, day: Id)
  {
    ExpectedCash(Next(st, r), day) == ExpectedCash(st, day) + Effect(CashEventOf(st, r), day)
  }

  // ----- request by request

  lemma ContentMovesNoCash(st: State, i: nat, t: Sale, day: Id)
    requires i < |st.sales| && SameButContent(st.sales[i], t)
    ensures DayFigures(st.(sales := st.sales[i := t]), day) == DayFigures(st, day)
  {
    FiguresReplace(st, i, t, day);
  }

  lemma EditMovesNoCash(st: State, after: State, reply: Reply, clientId: Id, day: Id)
    requires Inv(st) && ParkedEdited(st, after, reply, clientId)
    ensures DayFigures(after, day) == DayFigures(st, day)
  {
    ParkedOrderOpen(st, clientId);
    var i := ParkedOrder(st, clientId).value;
    if reply.OrderDiscarded? {
      FiguresRemove(st, i, day);
    } else {
      ContentMovesNoCash(st, i, reply.sale, day);
    }
  }

  lemma CreateMovesNoCash(st: State, r: Request, day: Id)
    requires r.CreateOrder?
    ensures DayFigures(Next(st, r), day) == DayFigures(st, day)
  {
    CreateOrderStep(st, r);
    CreateAdds(st, r.clientId, r.saleId, r.lineId, r.input, r.variant, r.customer, r.service);
    if Next(st, r) != st {
      FiguresAppend(st, Step(st, r).1.sale, day);
    }
  }

  lemma EditParked(st: State, r: Request)
    requires (r.RenameOrder? || r.AddOrderLine? || r.EditOrderLine?) && Next(st, r) != st
    ensures ParkedEdited(st, Next(st, r), Step(st, r).1, r.clientId)
  {
    if r.RenameOrder? {
      RenameOrderStep(st, r);
      UpdateEdits(st, r.clientId, r.newCustomer, r.newService);
    } else if r.AddOrderLine? {
      AddOrderLineStep(st, r);
      AddLineEdits(st, r.clientId, r.lineId, r.input, r.variant);
    } else {
      EditOrderLineStep(st, r);
      EditLineEdits(st, r.clientId, r.lineId, r.edit);
    }
  }

  lemma OrderEditsMoveNoCash(st: State, r: Request, day: Id)
    requires Inv(st)
    requires r.CreateOrder? || r.RenameOrder? || r.AddOrderLine? || r.EditOrderLine?
    ensures DayFigures(Next(st, r), day) == DayFigures(st, day) && Next(st, r).days == st.days
  {
    OtherTablesKept(st, r);
    if r.CreateOrder? {
      CreateMovesNoCash(st, r, day);
    } else if Next(st, r) != st {
      EditParked(st, r);
      EditMovesNoCash(st, Next(st, r), Step(st, r).1, r.clientId, day);
    }
  }

  lemma TenderMovesCash(st: State, i: nat, t: Sale, day: Id)
    requires i < |st.sales| && Untendered(st.sales[i]) && t.day == st.sales[i].day && t.settledAt.None?
    ensures ExpectedCash(st.(sales := st.sales[i := t]), day)
      == ExpectedCash(st, day) + (if t.day == day then Portion(Cash, t.payments) + t.tip + t.owed else 0)
  {
    FiguresReplace(st, i, t, day);
  }

  lemma NoCompletionNoCash(st: State, clientId: Id, tender: Tender, now: int)
    ensures var (after, reply) := Complete(st, clientId, tender, now);
      after == st ==> CompleteEvent(st, clientId, tender, reply) == NoCash
  {
  }

  lemma TakenEffect(st: State, clientId: Id, tender: Tender, now: int, day: Id)
    ensures var (after, reply) := Complete(st, clientId, tender, now);
      after != st ==>
        reply.OrderReply?
        && Effect(CompleteEvent(st, clientId, tender, reply), day)
           == if reply.sale.day == day then Portion(Cash, reply.sale.payments) + reply.sale.tip + reply.sale.owed else 0
  {
    CompleteEdits(st, clientId, tender, now);
  }

  lemma CompleteMovesCash(st: State, clientId: Id, tender: Tender, now: int, day: Id)
    requires Inv(st)
    ensures var (after, reply) := Complete(st, clientId, tender, now);
      ExpectedCash(after, day)
      == ExpectedCash(st, day) + Effect(CompleteEvent(st, clientId, tender, reply), day)
  {
    var (after, reply) := Complete(st, clientId, tender, now);
    NoCompletionNoCash(st, clientId, tender, now);
    TakenEffect(st, clientId, tender, now, day);
    CompleteEdits(st, clientId, tender, now);
    if after != st {
      var i := Find(WithClientId(clientId), st.sales);
      assert st.sales[i] in st.sales && PurchaseOk(st.sales[i]);
      TenderMovesCash(st, i, reply.sale, day);
    }
  }

  lemma SettleMovesCash(st: State, clientId: Id, now: int, day: Id)
    ensures var (after, reply) := SettleChange(st, clientId, now);
      && DayFigures(after, day)
         == Shifted(DayFigures(st, day), 0, 0, 0, Effect(SettleEvent(st, clientId, reply), day))
      && after.days == st.days
  {
    var (after, reply) := SettleChange(st, clientId, now);
    if SettleEvent(st, clientId, reply) != NoCash {
      FiguresReplace(st, Find(WithClientId(clientId), st.sales), reply.sale, day);
    }
  }

  lemma {:induction false} PortionNegated(tender: PaymentMethod, payments: seq<Payment>)
    ensures Portion(tender, Map(NegatedPayment(), payments)) == -Portion(tender, payments)
  {
    if payments != [] {
      PortionNegated(tender, payments[1..]);
      var negated := Map(NegatedPayment(), payments);
      assert negated[1..] == Map(NegatedPayment(), payments[1..]);
      var head, rest := negated[..1], Filter(IsTender(tender), negated[1..]);
      if payments[0].tender == tender {
        assert Filter(IsTender(tender), negated) == [negated[0]] + rest;
        SumConcat(AmountOf(), [negated[0]], rest);
        SumConcat(AmountOf(), [payments[0]], Filter(IsTender(tender), payments[1..]));
      } else {
        assert Filter(IsTender(tender), negated) == rest;
        assert Filter(IsTender(tender), payments) == Filter(IsTender(tender), payments[1..]);
      }
    }
  }

  lemma RefundMovesCash(st: State, v: Sale, o: Sale, day: Id)
    requires Mirrors(v, o)
    ensures ExpectedCash(st.(sales := st.sales + [v]), day)
      == ExpectedCash(st, day) + Effect(Refunded(v.day, Portion(Cash, o.payments)), day)
  {
    PortionNegated(Cash, o.payments);
    FiguresAppend(st, v, day);
  }

  lemma VoidEventIs(st: State, clientId: Id, voidId: Id, saleId: Id, isAdmin: bool)
    ensures var (after, reply) := VoidOrder(st, clientId, voidId, saleId, isAdmin);
      var i := Find(WithClientId(clientId), st.sales);
      VoidEvent(st, clientId, voidId, reply)
      == if after == st then NoCash
         else if reply.OrderReply? && i < |st.sales| then Refunded(reply.sale.day, Portion(Cash, st.sales[i].payments))
         else NoCash
  {
  }

  lemma VoidMovesCash(st: State, clientId: Id, voidId: Id, saleId: Id, isAdmin: bool, day: Id)
    requires Inv(st)
    ensures var (after, reply) := VoidOrder(st, clientId, voidId, saleId, isAdmin);
      ExpectedCash(after, day) == ExpectedCash(st, day) + Effect(VoidEvent(st, clientId, voidId, reply), day)
  {
    var (after, reply) := VoidOrder(st, clientId, voidId, saleId, isAdmin);
    VoidAdds(st, clientId, voidId, saleId, isAdmin);
    VoidEventIs(st, clientId, voidId, saleId, isAdmin);
    if after != st {
      RefundMovesCash(st, reply.sale, st.sales[Find(WithClientId(clientId), st.sales)], day);
    }
  }

  lemma OpenDayFloat(st: State, day: Day, id: Id)
    requires Inv(st) && Inv(st.(days := st.days + [day])) && !Has(WithDayId(day.id), st.days)
    ensures FloatOf(st.days + [day], id) == (if id == day.id then day.openingFloat else FloatOf(st.days, id))
  {
    HasAppend(WithDayId(id), st.days, day);
    var days := st.days + [day];
    assert days[|st.days|] == day;
    if id == day.id {
      FoundByDayId(days, |st.days|);
    }
  }

  lemma OpenedDayMovesCash(st: State, newDay: Day, day: Id)
    requires Inv(st) && Inv(st.(days := st.days + [newDay])) && !Has(WithDayId(newDay.id), st.days)
    ensures ExpectedCash(st.(days := st.days + [newDay]), day)
         == ExpectedCash(st, day) + Effect(DrawerOpened(newDay.id, newDay.openingFloat), day)
  {
    OpenDayFloat(st, newDay, day);
    if day == newDay.id {
      FiguresOfNewDay(st, day);
    }
  }

  lemma OpenMovesCash(st: State, dayId: Id, date: int, openingFloat: int, openerActive: bool, now: int, day: Id)
    requires Inv(st)
    ensures var (after, reply) := OpenDay(st, dayId, date, openingFloat, openerActive, now);
      ExpectedCash(after, day) == ExpectedCash(st, day) + Effect(OpenEvent(reply), day)
  {
    var (after, reply) := OpenDay(st, dayId, date, openingFloat, openerActive, now);
    OpenOpens(st, dayId, date, openingFloat, openerActive, now);
    OpenKeeps(st, dayId, date, openingFloat, openerActive, now);
    if reply.DayReply? {
      OpenedDayMovesCash(st, reply.day, day);
    }
  }

  lemma CloseMovesNoCash(st: State, closingId: Id, countId: Id, actual: int, closerActive: bool, now: int, day: Id)
    requires Inv(st)
    ensures var after := CloseDay(st, closingId, countId, actual, closerActive, now).0;
      DayFigures(after, day) == DayFigures(st, day) && ExpectedCash(after, day) == ExpectedCash(st, day)
  {
    CloseCloses(st, closingId, countId, actual, closerActive, now);
    if CloseDay(st, closingId, countId, actual, closerActive, now).0 != st {
      DayClosed(st, Find(OpenNow(), st.days), day);
    }
  }

  lemma RecordedMovesCash(st: State, m: Movement, day: Id)
    requires MovementsInv(st.movements + [m]) && m.amends.None?
    ensures ExpectedCash(st.(movements := st.movements + [m]), day)
         == ExpectedCash(st, day) + Effect(Moved(m.day, m.kind, m.amount), day)
  {
    EffectiveRecorded(st.movements, m, CashIn, day);
    EffectiveRecorded(st.movements, m, CashOut, day);
    EffectiveRecorded(st.movements, m, Expense, day);
  }

  lemma AmendedMovesCash(st: State, t: nat, m: Movement, day: Id)
    requires MovementsInv(st.movements + [m]) && t < |st.movements|
    requires m.amends == Some(st.movements[t].id) && !Superseded(st.movements, st.movements[t].id)
    requires m.day == st.movements[t].day
    ensures var target := st.movements[t];
      ExpectedCash(st.(movements := st.movements + [m]), day) == ExpectedCash(st, day)
        + Effect(Corrected(m.day, target.kind, target.amount, m.kind, m.amount), day)
  {
    EffectiveAmended(st.movements, t, m, CashIn, day);
    EffectiveAmended(st.movements, t, m, CashOut, day);
    EffectiveAmended(st.movements, t, m, Expense, day);
  }

  lemma RecordMovesCash(st: State, input: MovementInput, day: Id)
    requires Inv(st)
    ensures var (after, reply) := RecordMovement(st, input);
      ExpectedCash(after, day) == ExpectedCash(st, day) + Effect(RecordEvent(st, input, reply), day)
  {
    RecordAdds(st, input);
    RecordKeeps(st, input);
    var (after, reply) := RecordMovement(st, input);
    if after != st {
      RecordedMovesCash(st, reply.movement, day);
    }
  }

  lemma AmendMovesCash(st: State, targetId: Id, input: MovementInput, day: Id)
    requires Inv(st)
    ensures var (after, reply) := AmendMovement(st, targetId, input);
      ExpectedCash(after, day) == ExpectedCash(st, day) + Effect(AmendEvent(st, targetId, input, reply), day)
  {
    AmendAdds(st, targetId, input);
    AmendKeeps(st, targetId, input);
    var (after, reply) := AmendMovement(st, targetId, input);
    if after != st {
      AmendedMovesCash(st, Find(WithMovementId(targetId), st.movements), reply.movement, day);
    }
  }

  lemma CompleteOrderEventIs(st: State, r: Request)
    requires r.CompleteOrder?
    ensures CashEventOf(st, r) == CompleteEvent(st, r.clientId, r.tender, Complete(st, r.clientId, r.tender, r.now).1)
  {
  }

  lemma SettleOrderEventIs(st: State, r: Request)
    requires r.SettleOrder?
    ensures CashEventOf(st, r) == SettleEvent(st, r.clientId, SettleChange(st, r.clientId, r.now).1)
  {
  }

  lemma VoidSaleEventIs(st: State, r: Request)
    requires r.VoidSale?
    ensures var reply := VoidOrder(st, r.clientId, r.voidClientId, r.saleId, r.isAdmin).1;
      CashEventOf(st, r) == VoidEvent(st, r.clientId, r.voidClientId, reply)
  {
  }

  lemma OpenEventIs(st: State, r: Request)
    requires r.Open?
    ensures CashEventOf(st, r) == OpenEvent(OpenDay(st, r.dayId, r.date, r.openingFloat, r.openerActive, r.now).1)
  {
  }

  lemma CloseEventIs(st: State, r: Request)
    requires r.Close?
    ensures CashEventOf(st, r) == NoCash
  {
  }

  lemma RecordEventIs(st: State, r: Request)
    requires r.Record?
    ensures CashEventOf(st, r) == RecordEvent(st, r.movement, RecordMovement(st, r.movement).1)
  {
  }

  lemma AmendEventIs(st: State, r: Request)
    requires r.Amend?
    ensures CashEventOf(st, r) == AmendEvent(st, r.targetId, r.movement, AmendMovement(st, r.targetId, r.movement).1)
  {
  }

  lemma CompleteOrderRequestMoves(st: State, r: Request, day: Id)
    requires Inv(st) && r.CompleteOrder?
    ensures MovesDrawer(st, r, day)
  {
    CompleteOrderStep(st, r);
    CompleteOrderEventIs(st, r);
    CompleteMovesCash(st, r.clientId, r.tender, r.now, day);
  }

  lemma SettleOrderRequestMoves(st: State, r: Request, day: Id)
    requires r.SettleOrder?
    ensures MovesDrawer(st, r, day)
  {
    SettleOrderStep(st, r);
    SettleOrderEventIs(st, r);
    SettleMovesCash(st, r.clientId, r.now, day);
  }

  lemma VoidSaleRequestMoves(st: State, r: Request, day: Id)
    requires Inv(st) && r.VoidSale?
    ensures MovesDrawer(st, r, day)
  {
    VoidSaleStep(st, r);
    VoidSaleEventIs(st, r);
    VoidMovesCash(st, r.clientId, r.voidClientId, r.saleId, r.isAdmin, day);
  }

  lemma OpenRequestMoves(st: State, r: Request, day: Id)
    requires Inv(st) && r.Open?
    ensures MovesDrawer(st, r, day)
  {
    OpenStep(st, r);
    OpenEventIs(st, r);
    OpenMovesCash(st, r.dayId, r.date, r.openingFloat, r.openerActive, r.now, day);
  }

  lemma CloseRequestMoves(st: State, r: Request, day: Id)
    requires Inv(st) && r.Close?
    ensures MovesDrawer(st, r, day)
  {
    CloseStep(st, r);
    CloseEventIs(st, r);
    CloseMovesNoCash(st, r.closingId, r.countId, r.actual, r.closerActive, r.now, day);
  }

  lemma RecordRequestMoves(st: State, r: Request, day: Id)
    requires Inv(st) && r.Record?
    ensures MovesDrawer(st, r, day)
  {
    RecordStep(st, r);
    RecordEventIs(st, r);
    RecordMovesCash(st, r.movement, day);
  }

  lemma AmendRequestMoves(st: State, r: Request, day: Id)
    requires Inv(st) && r.Amend?
    ensures MovesDrawer(st, r, day)
  {
    AmendStep(st, r);
    AmendEventIs(st, r);
    AmendMovesCash(st, r.targetId, r.movement, day);
  }

  lemma EditEventIs(st: State, r: Request)
    requires r.CreateOrder? || r.RenameOrder? || r.AddOrderLine? || r.EditOrderLine?
    ensures CashEventOf(st, r) == NoCash
  {
  }

  lemma EditRequestMoves(st: State, r: Request, day: Id)
    requires Inv(st)
    requires r.CreateOrder? || r.RenameOrder? || r.AddOrderLine? || r.EditOrderLine?
    ensures MovesDrawer(st, r, day)
  {
    EditEventIs(st, r);
    OrderEditsMoveNoCash(st, r, day);
  }

  /** Every request moves the recomputed expected cash by what it did at the drawer. */
  lemma StepMovesDrawer(st: State, r: Request, day: Id)
    requires Inv(st)
    ensures MovesDrawer(st, r, day)
  {
    match r
    case CompleteOrder(_, _, _) => CompleteOrderRequestMoves(st, r, day);
    case SettleOrder(_, _) => SettleOrderRequestMoves(st, r, day);
    case VoidSale(_, _, _, _) => VoidSaleRequestMoves(st, r, day);
    case Open(_, _, _, _, _) => OpenRequestMoves(st, r, day);
    case Close(_, _, _, _, _) => CloseRequestMoves(st, r, day);
    case Record(_) => RecordRequestMoves(st, r, day);
    case Amend(_, _) => AmendRequestMoves(st, r, day);
    case _ => EditRequestMoves(st, r, day);
  }

  /** On every run, the expected cash recomputed from the rows of a day is the running drawer. */
  lemma {:induction false} ExpectedCashIsTheDrawer(st: State, requests: seq<Request>, day: Id)
    requires Inv(st)
    ensures ExpectedCash(Run(st, requests), day)
         == ExpectedCash(st, day) + DrawerAfter(st, requests, day)
    decreases |requests|
  {
    if requests != [] {
      StepMovesDrawer(st, requests[0], day);
      StepKeepsInv(st, requests[0]);
      ExpectedCashIsTheDrawer(Next(st, requests[0]), requests[1..], day);
    }
  }

  lemma NothingExpectedYet(day: Id)
    ensures ExpectedCash(EMPTY, day) == 0
  {
  }

  lemma FromNothing(st: State, requests: seq<Request>, day: Id)
    requires Inv(st) && ExpectedCash(st, day) == 0
    ensures ExpectedCash(Run(st, requests), day) == DrawerAfter(st, requests, day)
  {
    ExpectedCashIsTheDrawer(st, requests, day);
  }

  /** From the empty store the drawer starts at nothing. */
  lemma DrawerFromScratch(requests: seq<Request>, day: Id)
    ensures ExpectedCash(Run(EMPTY, requests), day) == DrawerAfter(EMPTY, requests, day)
  {
    EmptyInv();
    NothingExpectedYet(day);
    FromNothing(EMPTY, requests, day);
  }

  // ----- after the close

  /** The change paid out against a day by a run. */
  function SettledDuring(st: State, requests: seq<Request>, day: Id): int
    decreases |requests|
  {
    if requests == [] then 0
    else
      var e := CashEventOf(st, requests[0]);
      (if Settles(e, day) then e.change else 0)
      + SettledDuring(Next(st, requests[0]), requests[1..], day)
  }

  predicate Settles(e: CashEvent, day: Id)
  {
    e.ChangePaid? && e.day == day
  }

  lemma OpenDayIsNotClosed(days: seq<Day>, closed: Id)
    requires DaysInv(days) && Closed(days, closed)
    ensures forall d | 0 <= d < |days| && days[d].isOpen :: days[d].id != closed
  {
    forall d | 0 <= d < |days| && days[d].isOpen
      ensures days[d].id != closed
    {
      FoundByDayId(days, d);
    }
  }

  predicate OnlySettles(e: CashEvent, day: Id)
  {
    Effect(e, day) == if Settles(e, day) then -e.change else 0
  }

  lemma OpenNotOnClosedDay(st: State, dayId: Id, date: int, openingFloat: int, openerActive: bool, now: int, day: Id)
    requires Closed(st.days, day)
    ensures OnlySettles(OpenEvent(OpenDay(st, dayId, date, openingFloat, openerActive, now).1), day)
  {
    OpenOpens(st, dayId, date, openingFloat, openerActive, now);
  }

  lemma OtherRequestsKeepDays(st: State, r: Request)
    requires !r.Open? && !r.Close?
    ensures Next(st, r).days == st.days
  {
    OtherTablesKept(st, r);
  }

  lemma CompleteOnlyOnOpenDay(st: State, clientId: Id, tender: Tender, now: int, day: Id)
    requires DaysInv(st.days) && Closed(st.days, day)
    ensures OnlySettles(CompleteEvent(st, clientId, tender, Complete(st, clientId, tender, now).1), day)
  {
  }

  lemma VoidOnlyOnOpenDay(st: State, clientId: Id, voidId: Id, saleId: Id, isAdmin: bool, day: Id)
    requires DaysInv(st.days) && Closed(st.days, day)
    ensures OnlySettles(VoidEvent(st, clientId, voidId, VoidOrder(st, clientId, voidId, saleId, isAdmin).1), day)
  {
    VoidAdds(st, clientId, voidId, saleId, isAdmin);
    OpenDayIsNotClosed(st.days, day);
  }

  lemma RecordOnlyOnOpenDay(st: State, input: MovementInput, day: Id)
    requires DaysInv(st.days) && Closed(st.days, day)
    ensures OnlySettles(RecordEvent(st, input, RecordMovement(st, input).1), day)
  {
    RecordAdds(st, input);
    OpenDayIsNotClosed(st.days, day);
  }

  lemma AmendOnlyOnOpenDay(st: State, targetId: Id, input: MovementInput, day: Id)
    requires DaysInv(st.days) && Closed(st.days, day)
    ensures OnlySettles(AmendEvent(st, targetId, input, AmendMovement(st, targetId, input).1), day)
  {
    AmendAdds(st, targetId, input);
  }

  lemma ClosedDayEvents(st: State, r: Request, day: Id)
    requires DaysInv(st.days) && Closed(st.days, day)
    ensures OnlySettles(CashEventOf(st, r), day)
  {
    match r
    case CompleteOrder(c, tender, now) => CompleteOnlyOnOpenDay(st, c, tender, now, day);
    case SettleOrder(c, now) => assert OnlySettles(SettleEvent(st, c, SettleChange(st, c, now).1), day);
    case VoidSale(c, v, s, admin) => VoidOnlyOnOpenDay(st, c, v, s, admin, day);
    case Open(d, date, float, active, now) => OpenNotOnClosedDay(st, d, date, float, active, now, day);
    case Record(m) => RecordOnlyOnOpenDay(st, m, day);
    case Amend(t, m) => AmendOnlyOnOpenDay(st, t, m, day);
    case _ => assert OnlySettles(NoCash, day);
  }

  lemma OpenKeepsClosed(st: State, dayId: Id, date: int, openingFloat: int, openerActive: bool, now: int, day: Id)
    requires Inv(st) && Closed(st.days, day)
    ensures Closed(OpenDay(st, dayId, date, openingFloat, openerActive, now).0.days, day)
  {
    var (after, reply) := OpenDay(st, dayId, date, openingFloat, openerActive, now);
    OpenOpens(st, dayId, date, openingFloat, openerActive, now);
    if reply.DayReply? {
      HasAppend(WithDayId(day), st.days, reply.day);
    }
  }

  lemma CloseKeepsClosed(st: State, closingId: Id, countId: Id, actual: int, closerActive: bool, now: int, day: Id)
    requires Inv(st) && Closed(st.days, day)
    ensures Closed(CloseDay(st, closingId, countId, actual, closerActive, now).0.days, day)
  {
    CloseCloses(st, closingId, countId, actual, closerActive, now);
    if CloseDay(st, closingId, countId, actual, closerActive, now).0 != st {
      DayClosed(st, Find(OpenNow(), st.days), day);
    }
  }

  lemma OpenRequestKeepsClosed(st: State, r: Request, day: Id)
    requires Inv(st) && Closed(st.days, day) && r.Open?
    ensures Closed(Next(st, r).days, day)
  {
    OpenStep(st, r);
    OpenKeepsClosed(st, r.dayId, r.date, r.openingFloat, r.openerActive, r.now, day);
  }

  lemma CloseRequestKeepsClosed(st: State, r: Request, day: Id)
    requires Inv(st) && Closed(st.days, day) && r.Close?
    ensures Closed(Next(st, r).days, day)
  {
    CloseStep(st, r);
    CloseKeepsClosed(st, r.closingId, r.countId, r.actual, r.closerActive, r.now, day);
  }

  /** A closed day never opens again. */
  lemma ClosedStaysClosed(st: State, r: Request, day: Id)
    requires Inv(st) && Closed(st.days, day)
    ensures Closed(Next(st, r).days, day)
  {
    match r
    case Open(_, _, _, _, _) => OpenRequestKeepsClosed(st, r, day);
    case Close(_, _, _, _, _) => CloseRequestKeepsClosed(st, r, day);
    case _ => OtherRequestsKeepDays(st, r);
  }

  /** Once a day is closed, the only cash that can still leave its reconciliation is withheld
      change being paid out, on every run. */
  lemma {:induction false} ClosedDayMovesOnlyBySettling(st: State, requests: seq<Request>, day: Id)
    requires Inv(st) && Closed(st.days, day)
    ensures ExpectedCash(Run(st, requests), day) == ExpectedCash(st, day) - SettledDuring(st, requests, day)
    ensures Closed(Run(st, requests).days, day)
    decreases |requests|
  {
    if requests != [] {
      StepMovesDrawer(st, requests[0], day);
      ClosedDayEvents(st, requests[0], day);
      ClosedStaysClosed(st, requests[0], day);
      StepKeepsInv(st, requests[0]);
      ClosedDayMovesOnlyBySettling(Next(st, requests[0]), requests[1..], day);
    }
  }
}
