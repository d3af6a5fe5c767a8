/** Every figure of a day, one by one, is what the requests have put there. */
module FigureFlow {
  import opened Tables
  import opened Money
  import opened Store
  import opened Orders
  import opened TradingDays
  import opened Ledger
  import opened LedgerSteps
  import opened Drawer
  import opened Effects
  import opened Tenders
  import opened Voids

  const NOTHING := Figures(0, 0, 0, 0, 0, 0, 0)

  function Plus(f: Figures, g: Figures): Figures
  {
    Figures(f.cashSales + g.cashSales, f.onlineSales + g.onlineSales, f.tips + g.tips, f.cashIn + g.cashIn,
            f.cashOut + g.cashOut, f.expenses + g.expenses, f.outstandingChange + g.outstandingChange)
  }

  function On(here: bool, f: Figures): Figures
  {
    if here then f else NOTHING
  }

  /** What a tender brings: its two portions, the tip, and the change that is still owed. */
  function Brought(t: Tender): Figures
  {
    NOTHING.(cashSales := Portion(Cash, t.payments), onlineSales := Portion(Online, t.payments), tips := t.tip,
             outstandingChange := t.owed)
  }

  function PaidOut(owed: int): Figures
  {
    NOTHING.(outstandingChange := -owed)
  }

  function TakenBack(o: Sale): Figures
  {
    NOTHING.(cashSales := -Portion(Cash, o.payments), onlineSales := -Portion(Online, o.payments))
  }

  function OfKind(kind: MovementKind, amount: int): Figures
  {
    match kind
    case CashIn => NOTHING.(cashIn := amount)
    case CashOut => NOTHING.(cashOut := amount)
    case Expense => NOTHING.(expenses := amount)
  }

  /** What a request that changes the store does to the figures of a day, read off the request, the rows
      it names and the row it is answered with. */
  function FlowOf(st: State, r: Request, day: Id): Figures
  {
    if Next(st, r) == st then NOTHING
    else
      var reply := Step(st, r).1;
      match r
      case CompleteOrder(_, t, _) => On(reply.OrderReply? && reply.sale.day == day, Brought(t))
      case SettleOrder(_, _) =>
        if reply.OrderReply? then On(reply.sale.day == day, PaidOut(reply.sale.owed)) else NOTHING
      case VoidSale(c, _, _, _) =>
        var o := Find(WithClientId(c), st.sales);
        if o < |st.sales| then On(reply.OrderReply? && reply.sale.day == day, TakenBack(st.sales[o])) else NOTHING
      case Record(m) => On(reply.MovementReply? && reply.movement.day == day, OfKind(m.kind, m.amount))
      case Amend(target, m) =>
        var t := Find(WithMovementId(target), st.movements);
        if t < |st.movements| then
          On(reply.MovementReply? && reply.movement.day == day,
             Plus(OfKind(m.kind, m.amount), OfKind(st.movements[t].kind, -st.movements[t].amount)))
        else NOTHING
      case _ => NOTHING
  }

  predicate Flows(st: State, r: Request, day: Id)
  {
    DayFigures(Next(st, r), day) == Plus(DayFigures(st, day), FlowOf(st, r, day))
  }

  lemma NothingMoves(f: Figures)
    ensures Plus(f, NOTHING) == f
  {
  }

  // ----- request by request

  lemma CompletedFigures(st: State, i: nat, t: Sale, tender: Tender, at: int, day: Id)
    requires i < |st.sales| && Untendered(st.sales[i]) && CompletedWith(st.sales[i], t, tender, at)
    ensures DayFigures(st.(sales := st.sales[i := t]), day)
      == Plus(DayFigures(st, day), On(t.day == day, Brought(tender)))
  {
    FiguresReplace(st, i, t, day);
  }

  lemma CompleteFlowIs(st: State, r: Request, day: Id)
    requires r.CompleteOrder? && Next(st, r) != st && Step(st, r).1.OrderReply?
    ensures FlowOf(st, r, day) == On(Step(st, r).1.sale.day == day, Brought(r.tender))
  {
  }

  lemma CompletedOrder(st: State, r: Request) returns (i: nat)
    requires Inv(st) && r.CompleteOrder? && Next(st, r) != st
    ensures i < |st.sales| && Untendered(st.sales[i]) && Step(st, r).1.OrderReply?
    ensures CompletedWith(st.sales[i], Step(st, r).1.sale, r.tender, r.now)
    ensures Next(st, r) == st.(sales := st.sales[i := Step(st, r).1.sale])
  {
    CompleteOrderStep(st, r);
    CompletionWrites(st, r.clientId, r.tender, r.now);
    CompleteEdits(st, r.clientId, r.tender, r.now);
    i := Find(WithClientId(r.clientId), st.sales);
    ParkedIsUntendered(st.sales, i);
  }

  lemma ParkedIsUntendered(sales: seq<Sale>, i: nat)
    requires SalesInv(sales) && i < |sales| && sales[i].kind == Purchase && sales[i].status == Parked
    ensures Untendered(sales[i])
  {
    assert PurchaseOk(sales[i]);
  }

  lemma CompleteFlows(st: State, r: Request, day: Id)
    requires Inv(st) && r.CompleteOrder?
    ensures Flows(st, r, day)
  {
    NothingMoves(DayFigures(st, day));
    if Next(st, r) != st {
      var i := CompletedOrder(st, r);
      CompleteFlowIs(st, r, day);
      CompletedFigures(st, i, Step(st, r).1.sale, r.tender, r.now, day);
    }
  }

  lemma SettledFigures(st: State, i: nat, now: int, day: Id)
    requires i < |st.sales| && st.sales[i].settledAt.None?
    ensures DayFigures(st.(sales := st.sales[i := st.sales[i].(settledAt := Some(now))]), day)
      == Plus(DayFigures(st, day), On(st.sales[i].day == day, PaidOut(st.sales[i].owed)))
  {
    FiguresReplace(st, i, st.sales[i].(settledAt := Some(now)), day);
  }

  lemma SettleFlows(st: State, r: Request, day: Id)
    requires r.SettleOrder?
    ensures Flows(st, r, day)
  {
    SettleOrderStep(st, r);
    if Next(st, r) != st {
      SettleEdits(st, r.clientId, r.now);
      SettledFigures(st, Find(WithClientId(r.clientId), st.sales), r.now, day);
    }
  }

  lemma VoidedPortions(v: Sale, o: Sale)
    requires Mirrors(v, o)
    ensures Portion(Cash, v.payments) == -Portion(Cash, o.payments)
    ensures Portion(Online, v.payments) == -Portion(Online, o.payments)
    ensures v.tip == 0 && v.owed == 0
  {
    PortionNegated(Cash, o.payments);
    PortionNegated(Online, o.payments);
  }

  function SalesChange(cash: int, online: int, tips: int, outstanding: int): Figures
  {
    NOTHING.(cashSales := cash, onlineSales := online, tips := tips, outstandingChange := outstanding)
  }

  lemma ShiftIsPlus(f: Figures, change: Figures)
    requires change == SalesChange(change.cashSales, change.onlineSales, change.tips, change.outstandingChange)
    ensures Shifted(f, change.cashSales, change.onlineSales, change.tips, change.outstandingChange) == Plus(f, change)
  {
  }

  lemma VoidedChange(v: Sale, o: Sale, day: Id)
    requires Portion(Cash, v.payments) == -Portion(Cash, o.payments)
    requires Portion(Online, v.payments) == -Portion(Online, o.payments)
    requires v.tip == 0 && v.owed == 0
    ensures var change := On(v.day == day, TakenBack(o));
      && change.cashSales == PortionOn(Cash, day)(v) && change.onlineSales == PortionOn(Online, day)(v)
      && change.tips == TipOn(day)(v) && change.outstandingChange == OutstandingOn(day)(v)
      && change == SalesChange(change.cashSales, change.onlineSales, change.tips, change.outstandingChange)
  {
  }

  lemma VoidedFigures(st: State, v: Sale, o: Sale, day: Id)
    requires Portion(Cash, v.payments) == -Portion(Cash, o.payments)
    requires Portion(Online, v.payments) == -Portion(Online, o.payments)
    requires v.tip == 0 && v.owed == 0
    ensures DayFigures(st.(sales := st.sales + [v]), day)
      == Plus(DayFigures(st, day), On(v.day == day, TakenBack(o)))
  {
    FiguresAppend(st, v, day);
    VoidedChange(v, o, day);
    ShiftIsPlus(DayFigures(st, day), On(v.day == day, TakenBack(o)));
  }

  lemma VoidedOrder(st: State, r: Request) returns (i: nat, v: Sale)
    requires r.VoidSale? && Next(st, r) != st
    ensures i == Find(WithClientId(r.clientId), st.sales) < |st.sales| && Mirrors(v, st.sales[i])
    ensures Step(st, r).1 == OrderReply(v) && Next(st, r) == st.(sales := st.sales + [v])
  {
    VoidSaleStep(st, r);
    VoidAdds(st, r.clientId, r.voidClientId, r.saleId, r.isAdmin);
    i := Find(WithClientId(r.clientId), st.sales);
    v := Step(st, r).1.sale;
  }

  lemma VoidFlowIs(st: State, r: Request, i: nat, day: Id)
    requires r.VoidSale? && Next(st, r) != st && Step(st, r).1.OrderReply?
    requires i == Find(WithClientId(r.clientId), st.sales) < |st.sales|
    ensures FlowOf(st, r, day) == On(Step(st, r).1.sale.day == day, TakenBack(st.sales[i]))
  {
  }

  lemma VoidFlows(st: State, r: Request, day: Id)
    requires r.VoidSale?
    ensures Flows(st, r, day)
  {
    NothingMoves(DayFigures(st, day));
    if Next(st, r) != st {
      var i, v := VoidedOrder(st, r);
      VoidFlowIs(st, r, i, day);
      VoidedPortions(v, st.sales[i]);
      VoidedFigures(st, v, st.sales[i], day);
    }
  }

  function Counts(m: Movement, day: Id): Figures
  {
    NOTHING.(cashIn := Counted(m, CashIn, day), cashOut := Counted(m, CashOut, day),
             expenses := Counted(m, Expense, day))
  }

  function Uncounts(m: Movement, day: Id): Figures
  {
    NOTHING.(cashIn := -Counted(m, CashIn, day), cashOut := -Counted(m, CashOut, day),
             expenses := -Counted(m, Expense, day))
  }

  lemma CountsOfKind(m: Movement, day: Id)
    ensures Counts(m, day) == On(m.day == day, OfKind(m.kind, m.amount))
    ensures Uncounts(m, day) == On(m.day == day, OfKind(m.kind, -m.amount))
  {
  }

  function Effective(movements: seq<Movement>, kind: MovementKind, day: Id): int
  {
    Sum(EffectiveOn(movements, kind, day), movements)
  }

  /** The figures that sales make up, and those that movements make up. */
  lemma FiguresOf(st: State, day: Id)
    ensures var f := DayFigures(st, day);
      && f.cashIn == Effective(st.movements, CashIn, day) && f.cashOut == Effective(st.movements, CashOut, day)
      && f.expenses == Effective(st.movements, Expense, day)
  {
  }

  lemma SalesFiguresStay(st: State, movements: seq<Movement>, day: Id)
    ensures var f, g := DayFigures(st, day), DayFigures(st.(movements := movements), day);
      && g.cashSales == f.cashSales && g.onlineSales == f.onlineSales && g.tips == f.tips
      && g.outstandingChange == f.outstandingChange
  {
  }

  predicate ChangedBy(f: Figures, g: Figures, change: Figures)
  {
    && g.cashSales == f.cashSales + change.cashSales && g.onlineSales == f.onlineSales + change.onlineSales
    && g.tips == f.tips + change.tips && g.cashIn == f.cashIn + change.cashIn
    && g.cashOut == f.cashOut + change.cashOut && g.expenses == f.expenses + change.expenses
    && g.outstandingChange == f.outstandingChange + change.outstandingChange
  }

  lemma ChangedIsPlus(f: Figures, g: Figures, change: Figures)
    requires ChangedBy(f, g, change)
    ensures g == Plus(f, change)
  {
  }

  predicate OnlyMovements(change: Figures)
  {
    change.cashSales == 0 && change.onlineSales == 0 && change.tips == 0 && change.outstandingChange == 0
  }

  /** The figures after the movements became `movements`, when each kind changed by so much. */
  lemma MovementFigures(st: State, movements: seq<Movement>, day: Id, change: Figures)
    requires Effective(movements, CashIn, day) == Effective(st.movements, CashIn, day) + change.cashIn
    requires Effective(movements, CashOut, day) == Effective(st.movements, CashOut, day) + change.cashOut
    requires Effective(movements, Expense, day) == Effective(st.movements, Expense, day) + change.expenses
    requires OnlyMovements(change)
    ensures DayFigures(st.(movements := movements), day) == Plus(DayFigures(st, day), change)
  {
    FiguresOf(st, day);
    FiguresOf(st.(movements := movements), day);
    SalesFiguresStay(st, movements, day);
    ChangedIsPlus(DayFigures(st, day), DayFigures(st.(movements := movements), day), change);
  }

  lemma EffectiveGrows(movements: seq<Movement>, m: Movement, kind: MovementKind, day: Id)
    requires MovementsInv(movements + [m]) && m.amends.None?
    ensures Effective(movements + [m], kind, day) == Effective(movements, kind, day) + Counted(m, kind, day)
  {
    EffectiveRecorded(movements, m, kind, day);
  }

  lemma RecordedFigures(st: State, m: Movement, day: Id)
    requires MovementsInv(st.movements + [m]) && m.amends.None?
    ensures DayFigures(st.(movements := st.movements + [m]), day) == Plus(DayFigures(st, day), Counts(m, day))
  {
    EffectiveGrows(st.movements, m, CashIn, day);
    EffectiveGrows(st.movements, m, CashOut, day);
    EffectiveGrows(st.movements, m, Expense, day);
    MovementFigures(st, st.movements + [m], day, Counts(m, day));
  }

  lemma RecordFlowIs(st: State, r: Request, day: Id)
    requires r.Record? && Next(st, r) != st && Step(st, r).1.MovementReply?
    requires MovementAsked(Step(st, r).1.movement, r.movement)
    ensures FlowOf(st, r, day) == Counts(Step(st, r).1.movement, day)
  {
    CountsOfKind(Step(st, r).1.movement, day);
  }

  lemma RecordFlows(st: State, r: Request, day: Id)
    requires Inv(st) && r.Record?
    ensures Flows(st, r, day)
  {
    NothingMoves(DayFigures(st, day));
    if Next(st, r) != st {
      var m := RecordedRow(st, r);
      RecordFlowIs(st, r, day);
      RecordedFigures(st, m, day);
    }
  }

  lemma RecordedRow(st: State, r: Request) returns (m: Movement)
    requires Inv(st) && r.Record? && Next(st, r) != st
    ensures Step(st, r).1 == MovementReply(m) && m.amends.None? && MovementAsked(m, r.movement)
    ensures Next(st, r) == st.(movements := st.movements + [m]) && MovementsInv(st.movements + [m])
  {
    RecordStep(st, r);
    RecordKeeps(st, r.movement);
    RecordWrites(st, r.movement);
    m := Step(st, r).1.movement;
  }

  lemma AmendedFigures(st: State, t: nat, m: Movement, day: Id)
    requires MovementsInv(st.movements + [m]) && t < |st.movements|
    requires m.amends == Some(st.movements[t].id) && !Superseded(st.movements, st.movements[t].id)
    ensures DayFigures(st.(movements := st.movements + [m]), day)
      == Plus(DayFigures(st, day), Plus(Counts(m, day), Uncounts(st.movements[t], day)))
  {
    EffectiveReplaced(st.movements, t, m, CashIn, day);
    EffectiveReplaced(st.movements, t, m, CashOut, day);
    EffectiveReplaced(st.movements, t, m, Expense, day);
    MovementFigures(st, st.movements + [m], day, Plus(Counts(m, day), Uncounts(st.movements[t], day)));
  }

  lemma EffectiveReplaced(movements: seq<Movement>, t: nat, m: Movement, kind: MovementKind, day: Id)
    requires MovementsInv(movements + [m]) && t < |movements| && m.amends == Some(movements[t].id)
    requires !Superseded(movements, movements[t].id)
    ensures Effective(movements + [m], kind, day)
      == Effective(movements, kind, day) + Counted(m, kind, day) - Counted(movements[t], kind, day)
  {
    EffectiveAmended(movements, t, m, kind, day);
  }

  lemma OnBoth(here: bool, f: Figures, g: Figures)
    ensures On(here, Plus(f, g)) == Plus(On(here, f), On(here, g))
  {
    NothingMoves(NOTHING);
  }

  lemma AmendFlowOf(st: State, r: Request, t: nat, day: Id)
    requires r.Amend? && Next(st, r) != st && Step(st, r).1.MovementReply?
    requires t == Find(WithMovementId(r.targetId), st.movements) < |st.movements|
    ensures FlowOf(st, r, day)
      == On(Step(st, r).1.movement.day == day,
            Plus(OfKind(r.movement.kind, r.movement.amount), OfKind(st.movements[t].kind, -st.movements[t].amount)))
  {
  }

  lemma AmendFlowIs(st: State, r: Request, t: nat, day: Id)
    requires r.Amend? && Next(st, r) != st && Step(st, r).1.MovementReply?
    requires MovementAsked(Step(st, r).1.movement, r.movement)
    requires t == Find(WithMovementId(r.targetId), st.movements) < |st.movements|
    requires st.movements[t].day == Step(st, r).1.movement.day
    ensures FlowOf(st, r, day) == Plus(Counts(Step(st, r).1.movement, day), Uncounts(st.movements[t], day))
  {
    var m, was := Step(st, r).1.movement, st.movements[t];
    AmendFlowOf(st, r, t, day);
    CountsOfKind(m, day);
    CountsOfKind(was, day);
    OnBoth(m.day == day, OfKind(m.kind, m.amount), OfKind(was.kind, -was.amount));
  }

  lemma AmendedRow(st: State, r: Request) returns (t: nat, m: Movement)
    requires Inv(st) && r.Amend? && Next(st, r) != st
    ensures t == Find(WithMovementId(r.targetId), st.movements) < |st.movements|
    ensures Step(st, r).1 == MovementReply(m) && MovementAsked(m, r.movement)
    ensures m.amends == Some(st.movements[t].id) && !Superseded(st.movements, st.movements[t].id)
    ensures st.movements[t].day == m.day
    ensures Next(st, r) == st.(movements := st.movements + [m]) && MovementsInv(st.movements + [m])
  {
    AmendStep(st, r);
    AmendKeeps(st, r.targetId, r.movement);
    AmendAdds(st, r.targetId, r.movement);
    AmendWrites(st, r.targetId, r.movement);
    t := Find(WithMovementId(r.targetId), st.movements);
    m := Step(st, r).1.movement;
  }

  lemma AmendFlows(st: State, r: Request, day: Id)
    requires Inv(st) && r.Amend?
    ensures Flows(st, r, day)
  {
    NothingMoves(DayFigures(st, day));
    if Next(st, r) != st {
      var t, m := AmendedRow(st, r);
      AmendFlowIs(st, r, t, day);
      AmendedFigures(st, t, m, day);
    }
  }

  lemma NoFlow(st: State, r: Request, day: Id)
    requires r.CreateOrder? || r.RenameOrder? || r.AddOrderLine? || r.EditOrderLine? || r.Open? || r.Close?
    ensures FlowOf(st, r, day) == NOTHING
  {
  }

  lemma DayTableKeepsFigures(st: State, r: Request, day: Id)
    requires r.Open? || r.Close?
    ensures DayFigures(Next(st, r), day) == DayFigures(st, day)
  {
    OtherTablesKept(st, r);
  }

  lemma OtherFlows(st: State, r: Request, day: Id)
    requires Inv(st)
    requires r.CreateOrder? || r.RenameOrder? || r.AddOrderLine? || r.EditOrderLine? || r.Open? || r.Close?
    ensures Flows(st, r, day)
  {
    NoFlow(st, r, day);
    NothingMoves(DayFigures(st, day));
    if r.Open? || r.Close? {
      DayTableKeepsFigures(st, r, day);
    } else {
      OrderEditsMoveNoCash(st, r, day);
    }
  }

  /** Every request moves each figure of a day by what it brought there. */
  lemma StepMovesFigures(st: State, r: Request, day: Id)
    requires Inv(st)
    ensures Flows(st, r, day)
  {
    match r
    case CompleteOrder(_, _, _) => CompleteFlows(st, r, day);
    case SettleOrder(_, _) => SettleFlows(st, r, day);
    case VoidSale(_, _, _, _) => VoidFlows(st, r, day);
    case Record(_) => RecordFlows(st, r, day);
    case Amend(_, _) => AmendFlows(st, r, day);
    case _ => OtherFlows(st, r, day);
  }

  function FlowDuring(st: State, requests: seq<Request>, day: Id): Figures
    decreases |requests|
  {
    if requests == [] then NOTHING
    else Plus(FlowOf(st, requests[0], day), FlowDuring(Next(st, requests[0]), requests[1..], day))
  }

  lemma PlusTogether(f: Figures, g: Figures, h: Figures)
    ensures Plus(Plus(f, g), h) == Plus(f, Plus(g, h))
  {
  }

  lemma {:induction false} RunMovesFigures(st: State, requests: seq<Request>, day: Id)
    requires Inv(st)
    ensures DayFigures(Run(st, requests), day) == Plus(DayFigures(st, day), FlowDuring(st, requests, day))
    decreases |requests|
  {
    if requests == [] {
      NothingMoves(DayFigures(st, day));
    } else {
      StepMovesFigures(st, requests[0], day);
      StepKeepsInv(st, requests[0]);
      RunMovesFigures(Next(st, requests[0]), requests[1..], day);
      PlusTogether(DayFigures(st, day), FlowOf(st, requests[0], day),
                   FlowDuring(Next(st, requests[0]), requests[1..], day));
    }
  }

  /** From empty tables on, each figure of a day is exactly what the requests of the run brought. */
  lemma FiguresAreTheFlow(requests: seq<Request>, day: Id)
    ensures DayFigures(Run(EMPTY, requests), day) == FlowDuring(EMPTY, requests, day)
  {
    EmptyInv();
    RunMovesFigures(EMPTY, requests, day);
  }
}
