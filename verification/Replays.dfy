/** What a client is answered that sends a request again, however much later. */
module Replays {
  import opened Tables
  import opened Money
  import opened Store
  import opened Orders
  import opened TradingDays
  import opened Ledger
  import opened LedgerSteps
  import opened History

  // ----- rows found again under their request ids

  lemma FoundSale(sales: seq<Sale>, s: Sale)
    requires SalesInv(sales) && s in sales
    ensures Find(WithClientId(s.clientId), sales) < |sales|
    ensures sales[Find(WithClientId(s.clientId), sales)] == s
  {
    var k :| 0 <= k < |sales| && sales[k] == s;
    assert WithClientId(s.clientId)(sales[k]);
    var i := Find(WithClientId(s.clientId), sales);
    assert i < k ==> !Clash(sales[i], sales[k]);
  }

  lemma FoundMovement(movements: seq<Movement>, m: Movement)
    requires MovementsInv(movements) && m in movements
    ensures Find(WithMovementId(m.id), movements) < |movements|
    ensures movements[Find(WithMovementId(m.id), movements)] == m
  {
    var k :| 0 <= k < |movements| && movements[k] == m;
    assert WithMovementId(m.id)(movements[k]);
  }

  lemma FoundClosing(st: State, c: Closing)
    requires ClosingsInv(st) && c in st.closings
    ensures Find(WithClosingId(c.id), st.closings) < |st.closings|
    ensures st.closings[Find(WithClosingId(c.id), st.closings)] == c
  {
    ClosingFound(st.closings, c);
  }

  lemma ClosingFound(closings: seq<Closing>, c: Closing)
    requires c in closings && forall i, j | 0 <= i < j < |closings| :: closings[i].id != closings[j].id
    ensures Find(WithClosingId(c.id), closings) < |closings|
    ensures closings[Find(WithClosingId(c.id), closings)] == c
  {
    var k :| 0 <= k < |closings| && closings[k] == c;
    assert WithClosingId(c.id)(closings[k]);
  }

  // ----- what the first answer leaves behind

  /** The rows a request was answered with are still there, and so is the order a void is of. */
  predicate Kept(st: State, r: Request, first: Reply)
  {
    match r
    case VoidSale(c, v, _, _) =>
      && first.OrderReply? && first.sale.clientId == v && first.sale.kind == Void
      && first.sale.status == Completed && first.sale.settledAt.None?
      && KeptFrozen(first.sale, st.sales)
      && exists o | o in st.sales :: o.clientId == c && o.status == Completed && first.sale.corrects == Some(o.id)
    case CompleteOrder(c, tender, _) =>
      && first.OrderReply? && first.sale.clientId == c && first.sale.kind == Purchase
      && first.sale.status == Completed && WellFormedTender(tender) && KeptFrozen(first.sale, st.sales)
    case SettleOrder(c, _) =>
      && first.OrderReply? && first.sale.clientId == c && first.sale.kind == Purchase
      && first.sale.status == Completed && first.sale.settledAt.Some? && 0 < first.sale.owed
      && KeptFrozen(first.sale, st.sales)
    case Open(_, date, _, _, _) => HasDate(st.days, date)
    case Close(c, _, actual, _, _) =>
      && first.ClosingReply? && first.closing.id == c && first.closing in st.closings
      && Safe(actual) && 0 <= actual
    case Record(m) =>
      first.MovementReply? && first.movement.id == m.id && first.movement in st.movements && ValidMovement(m)
    case Amend(_, m) =>
      first.MovementReply? && first.movement.id == m.id && first.movement in st.movements && ValidMovement(m)
    case _ => false
  }

  /** Requests that carry their own id, or are about an order or date of their own. */
  predicate Repeatable(r: Request)
  {
    !r.CreateOrder? && !r.RenameOrder? && !r.AddOrderLine? && !r.EditOrderLine?
  }

  lemma OrderKeptAtOnce(st: State, r: Request)
    requires (r.CompleteOrder? || r.SettleOrder?) && Next(st, r) != st
    ensures Kept(Next(st, r), r, Step(st, r).1)
  {
    if r.CompleteOrder? {
      CompleteOrderStep(st, r);
      CompleteEdits(st, r.clientId, r.tender, r.now);
    } else {
      SettleOrderStep(st, r);
      SettleEdits(st, r.clientId, r.now);
    }
    var i := Find(WithClientId(r.clientId), st.sales);
    var sale := Step(st, r).1.sale;
    assert Next(st, r).sales[i] == sale && Frozen(sale, sale);
  }

  lemma VoidKeptAtOnce(st: State, r: Request)
    requires r.VoidSale? && Next(st, r) != st
    ensures Kept(Next(st, r), r, Step(st, r).1)
  {
    VoidSaleStep(st, r);
    VoidAdds(st, r.clientId, r.voidClientId, r.saleId, r.isAdmin);
    var i := Find(WithClientId(r.clientId), st.sales);
    var v, after := Step(st, r).1.sale, Next(st, r).sales;
    assert after[|st.sales|] == v && after[i] == st.sales[i] && Frozen(v, v);
  }

  lemma RowKeptAtOnce(st: State, r: Request)
    requires (r.Open? || r.Close? || r.Record? || r.Amend?) && Next(st, r) != st
    ensures Kept(Next(st, r), r, Step(st, r).1)
  {
    DoneAtOnce(st, r);
    match r
    case Open(d, date, float, active, now) =>
    case Close(c, k, actual, active, now) => CloseCloses(st, c, k, actual, active, now);
    case Record(m) => RecordAdds(st, m);
    case Amend(t, m) => AmendAdds(st, t, m);
  }

  lemma SaleStaysFrozen(st: State, next: Request, s: Sale)
    requires s.status == Completed && KeptFrozen(s, st.sales)
    ensures KeptFrozen(s, Next(st, next).sales)
  {
    var t :| t in st.sales && Frozen(s, t);
    StepKeepsCompleted(st, next, t);
    var u :| u in Next(st, next).sales && Frozen(t, u);
    FrozenAgain(s, t, u);
  }

  lemma MovementStays(st: State, next: Request, m: Movement)
    requires m in st.movements
    ensures m in Next(st, next).movements
  {
    match next
    case Record(input) => RecordAdds(st, input);
    case Amend(t, input) => AmendAdds(st, t, input);
    case _ => OtherRequestsKeepMovements(st, next);
  }

  lemma KeptForGood(st: State, r: Request, first: Reply, next: Request)
    requires Kept(st, r, first)
    ensures Kept(Next(st, next), r, first)
  {
    match r
    case VoidSale(c, _, _, _) =>
      SaleStaysFrozen(st, next, first.sale);
      var o :| o in st.sales && o.clientId == c && o.status == Completed && first.sale.corrects == Some(o.id);
      StepKeepsCompleted(st, next, o);
    case CompleteOrder(_, _, _) => SaleStaysFrozen(st, next, first.sale);
    case SettleOrder(_, _) => SaleStaysFrozen(st, next, first.sale);
    case Open(_, date, _, _, _) => DatesStay(st, next, date);
    case Close(_, _, _, _, _) => ClosingsOnlyGrow(st, next, first.closing);
    case Record(_) => MovementStays(st, next, first.movement);
    case Amend(_, _) => MovementStays(st, next, first.movement);
  }

  lemma {:induction false} KeptOverRuns(st: State, r: Request, first: Reply, requests: seq<Request>)
    requires Kept(st, r, first)
    ensures Kept(Run(st, requests), r, first)
    decreases |requests|
  {
    if requests != [] {
      KeptForGood(st, r, first, requests[0]);
      KeptOverRuns(Next(st, requests[0]), r, first, requests[1..]);
    }
  }

  // ----- the second answer

  /** The same rows; a completed order may have had its change paid out since, and an opening, which
      carries no id, is refused. */
  predicate SameAnswer(r: Request, first: Reply, again: Reply)
  {
    if r.Open? then again.Failed?
    else if r.CompleteOrder? then first.OrderReply? && again.OrderReply? && Frozen(first.sale, again.sale)
    else again == first
  }

  /** A void row never changes: it has no change to settle. */
  lemma VoidRowStays(sales: seq<Sale>, v: Sale)
    requires SalesInv(sales) && v.kind == Void && v.settledAt.None? && KeptFrozen(v, sales)
    ensures v in sales
  {
    var kept :| kept in sales && Frozen(v, kept);
    var o :| o in sales && Mirrors(kept, o);
    assert kept == v;
  }

  lemma VoidIsFound(sales: seq<Sale>, v: Sale, o: Sale)
    requires SalesInv(sales) && v in sales && o in sales && v.kind == Void && v.corrects == Some(o.id)
    ensures FindVoidReplay(sales, v.clientId, o.clientId) == Ok(Some(v))
  {
    FoundSale(sales, v);
    FoundSale(sales, o);
  }

  lemma VoidAnswered(st: State, r: Request, first: Reply)
    requires Inv(st) && r.VoidSale? && Kept(st, r, first)
    ensures Step(st, r) == (st, first)
  {
    VoidRowStays(st.sales, first.sale);
    var o :| o in st.sales && o.clientId == r.clientId && first.sale.corrects == Some(o.id);
    VoidIsFound(st.sales, first.sale, o);
    VoidSaleStep(st, r);
  }

  lemma OrderAnswered(st: State, r: Request, first: Reply)
    requires Inv(st) && (r.CompleteOrder? || r.SettleOrder?) && Kept(st, r, first)
    ensures Next(st, r) == st && SameAnswer(r, first, Step(st, r).1)
  {
    var s :| s in st.sales && Frozen(first.sale, s);
    FoundSale(st.sales, s);
    if r.CompleteOrder? {
      CompleteOrderStep(st, r);
    } else {
      SettleOrderStep(st, r);
    }
  }

  lemma RowAnswered(st: State, r: Request, first: Reply)
    requires Inv(st) && (r.Close? || r.Record? || r.Amend?) && Kept(st, r, first)
    ensures Step(st, r) == (st, first)
  {
    if r.Close? {
      FoundClosing(st, first.closing);
      CloseStep(st, r);
    } else if r.Record? {
      FoundMovement(st.movements, first.movement);
      RecordStep(st, r);
    } else {
      FoundMovement(st.movements, first.movement);
      AmendStep(st, r);
    }
  }

  lemma OpenAnswered(st: State, r: Request)
    requires r.Open? && HasDate(st.days, r.date)
    ensures Next(st, r) == st && Step(st, r).1.Failed?
  {
    var d :| d in st.days && d.date == r.date;
    assert OnDate(r.date)(d);
    OpenStep(st, r);
  }

  /** A completion, settlement, void, opening, closing, movement or amendment that went through changes
      nothing when it comes again, however much later, and is answered with the same rows. */
  lemma ReplayIsAnswered(st: State, r: Request, requests: seq<Request>)
    requires Inv(st) && Repeatable(r) && Next(st, r) != st
    ensures var t := Run(Next(st, r), requests);
      Next(t, r) == t && SameAnswer(r, Step(st, r).1, Step(t, r).1)
  {
    var first := Step(st, r).1;
    if r.VoidSale? {
      VoidKeptAtOnce(st, r);
    } else if r.CompleteOrder? || r.SettleOrder? {
      OrderKeptAtOnce(st, r);
    } else {
      RowKeptAtOnce(st, r);
    }
    KeptOverRuns(Next(st, r), r, first, requests);
    StepKeepsInv(st, r);
    RunKeepsInv(Next(st, r), requests);
    var t := Run(Next(st, r), requests);
    if r.VoidSale? {
      VoidAnswered(t, r, first);
    } else if r.CompleteOrder? || r.SettleOrder? {
      OrderAnswered(t, r, first);
    } else if r.Open? {
      OpenAnswered(t, r);
    } else {
      RowAnswered(t, r, first);
    }
  }
}
