/** What each request that changes the store writes, field by field. */
module Effects {
  import opened Tables
  import opened Money
  import opened Store
  import opened Orders
  import opened TradingDays
  import opened Lines
  import opened LineEdits
  import opened Ledger
  import opened LedgerSteps
  import opened Tenders
  import opened Voids
  import opened Acceptance

  // ----- numbers

  /** One more than the highest number of its day, or 1. */
  predicate NumberedNext(sales: seq<Sale>, s: Sale)
  {
    && (forall t | t in sales && t.day == s.day :: t.number < s.number)
    && (s.number == 1 || exists t | t in sales && t.day == s.day :: t.number == s.number - 1)
  }

  lemma {:induction false} LastNumberIsUsed(sales: seq<Sale>, day: Id)
    ensures LastNumber(sales, day) == 0 || exists s | s in sales && s.day == day :: s.number == LastNumber(sales, day)
  {
    if sales != [] {
      LastNumberIsUsed(sales[1..], day);
    }
  }

  lemma FreshIsNext(st: State, s: Sale)
    requires FreshRow(st, s)
    ensures NumberedNext(st.sales, s)
  {
    LastNumberBounds(st.sales, s.day);
    LastNumberIsUsed(st.sales, s.day);
  }

  /** One new row of the open day under the next number. */
  predicate OneSaleMore(st: State, after: State, s: Sale)
  {
    && after == st.(sales := st.sales + [s]) && NumberedNext(st.sales, s)
    && exists d | d in st.days :: d.isOpen && d.id == s.day
  }

  lemma AddedIsOneMore(st: State, after: State, reply: Reply)
    requires Added(st, after, reply)
    ensures OneSaleMore(st, after, reply.sale)
  {
    FreshIsNext(st, reply.sale);
  }

  // ----- creating

  predicate NewOrder(s: Sale, clientId: Id, saleId: Id, customer: Option<string>, service: ServiceType)
  {
    && s.id == saleId && s.clientId == clientId && s.kind == Purchase && s.corrects == None && s.status == Parked
    && s.customer == customer && s.service == service && Untendered(s)
  }

  /** One line as asked for, whose amounts make up the header. */
  predicate OneLine(s: Sale, lineId: Id, input: LineInput, size: Variant)
  {
    && |s.lines| == 1
    && var l := s.lines[0];
       && AskedFor(l, lineId, input, size) && Acceptable(l.terms) && Amounts(l.terms, l.amounts)
       && s.totals == Totals(l.amounts.gross, l.amounts.discount, l.amounts.freeUpsize, l.amounts.total)
  }

  lemma PricedAskedFor(lineId: Id, input: LineInput, size: Variant)
    requires Priced(NewLine(lineId, input, size)).Ok?
    ensures var l := Priced(NewLine(lineId, input, size)).value;
      AskedFor(l, lineId, input, size) && Acceptable(l.terms) && Amounts(l.terms, l.amounts)
  {
    NewLineIsAskedFor(lineId, input, size);
    PricedLine(NewLine(lineId, input, size));
  }

  lemma CreateWrites(st: State, clientId: Id, saleId: Id, lineId: Id, input: LineInput,
                     variant: Option<Variant>, customer: Option<string>, service: ServiceType)
    ensures var (after, reply) := Create(st, clientId, saleId, lineId, input, variant, customer, service);
      after != st ==>
        && reply.OrderReply? && OneSaleMore(st, after, reply.sale) && variant.Some?
        && NewOrder(reply.sale, clientId, saleId, customer, service)
        && OneLine(reply.sale, lineId, input, variant.value)
  {
    var (after, reply) := Create(st, clientId, saleId, lineId, input, variant, customer, service);
    CreateInserts(st, clientId, saleId, lineId, input, variant, customer, service);
    CreateAdds(st, clientId, saleId, lineId, input, variant, customer, service);
    if after != st {
      AddedIsOneMore(st, after, reply);
      PricedAskedFor(lineId, input, variant.value);
    }
  }

  // ----- editing a parked order

  /** One order of an open day is rewritten or, when nothing is left of it, taken out. */
  predicate OneOrderEdited(st: State, after: State, reply: Reply, clientId: Id, i: nat)
  {
    && i < |st.sales| && st.sales[i].clientId == clientId
    && st.sales[i].kind == Purchase && st.sales[i].status == Parked
    && (|| (reply.OrderDiscarded? && after == st.(sales := st.sales[..i] + st.sales[i + 1..]))
        || (reply.OrderReply? && after == st.(sales := st.sales[i := reply.sale])
            && SameButContent(st.sales[i], reply.sale)))
  }

  lemma EditedOrder(st: State, after: State, reply: Reply, clientId: Id)
    requires ParkedEdited(st, after, reply, clientId)
    ensures OneOrderEdited(st, after, reply, clientId, ParkedOrder(st, clientId).value)
  {
  }

  predicate Renamed(was: Sale, now: Sale, customer: Option<Option<string>>, service: Option<ServiceType>)
  {
    && now.lines == was.lines
    && Set(customer, was.customer, now.customer) && Set(service, was.service, now.service)
  }

  lemma RenameWrites(st: State, clientId: Id, customer: Option<Option<string>>, service: Option<ServiceType>)
    ensures var (after, reply) := UpdateOrder(st, clientId, customer, service);
      !reply.Failed? ==> reply.OrderReply? && exists i: nat | i < |st.sales| ::
        OneOrderEdited(st, after, reply, clientId, i) && Renamed(st.sales[i], reply.sale, customer, service)
  {
    var (after, reply) := UpdateOrder(st, clientId, customer, service);
    UpdateEdits(st, clientId, customer, service);
    if !reply.Failed? {
      EditedOrder(st, after, reply, clientId);
      RenamedAt(st, clientId, customer, service);
    }
  }

  lemma RenamedAt(st: State, clientId: Id, customer: Option<Option<string>>, service: Option<ServiceType>)
    requires ParkedOrder(st, clientId).Ok? && ParkedOrder(st, clientId).value < |st.sales|
    ensures var reply := UpdateOrder(st, clientId, customer, service).1;
      reply.OrderReply? && Renamed(st.sales[ParkedOrder(st, clientId).value], reply.sale, customer, service)
  {
  }

  /** The same order, whose lines have taken the line asked for. */
  predicate LineAdded(was: Sale, now: Sale, incoming: Line)
  {
    && now.customer == was.customer && now.service == was.service
    && if exists l | l in was.lines :: Joins(l, incoming) then
         exists i: nat | i < |was.lines| ::
           FirstToJoin(was.lines, i, incoming) && MergedAt(was.lines, i, incoming, now.lines)
       else exists k: nat | k <= |was.lines| :: InsertedAt(was.lines, k, incoming, now.lines)
  }

  lemma LineAddedTo(was: Sale, now: Sale, incoming: Line)
    requires AddToLines(was.lines, incoming) == Ok(now.lines)
    requires now.customer == was.customer && now.service == was.service
    ensures LineAdded(was, now, incoming)
  {
    AddedLines(was.lines, incoming);
  }

  lemma AddLineContent(st: State, clientId: Id, lineId: Id, input: LineInput, variant: Option<Variant>)
    ensures var (after, reply) := AddLine(st, clientId, lineId, input, variant);
      reply.OrderReply? && ParkedOrder(st, clientId).Ok?
        && ParkedOrder(st, clientId).value < |st.sales| ==>
      var was := st.sales[ParkedOrder(st, clientId).value];
      reply.sale.customer == was.customer && reply.sale.service == was.service
  {
  }

  lemma AddLineWrites(st: State, clientId: Id, lineId: Id, input: LineInput, variant: Option<Variant>)
    ensures var (after, reply) := AddLine(st, clientId, lineId, input, variant);
      !reply.Failed? ==> reply.OrderReply? && variant.Some? && exists i: nat, l | i < |st.sales| ::
        && OneOrderEdited(st, after, reply, clientId, i) && AskedFor(l, lineId, input, variant.value)
        && LineAdded(st.sales[i], reply.sale, l)
  {
    var (after, reply) := AddLine(st, clientId, lineId, input, variant);
    AddLineEdits(st, clientId, lineId, input, variant);
    AddLineContent(st, clientId, lineId, input, variant);
    if !reply.Failed? {
      var i := ParkedOrder(st, clientId).value;
      EditedOrder(st, after, reply, clientId);
      NewLineIsAskedFor(lineId, input, variant.value);
      LineAddedTo(st.sales[i], reply.sale, NewLine(lineId, input, variant.value));
      assert OneOrderEdited(st, after, reply, clientId, i);
    }
  }

  /** The same order after an edit of the line with this id; it is gone exactly when its last line is. */
  predicate LineEdited(was: Sale, reply: Reply, lineId: Id, edit: LineEdit)
  {
    && (reply.OrderReply? ==>
          reply.sale.lines != [] && reply.sale.customer == was.customer && reply.sale.service == was.service)
    && exists j: nat | j < |was.lines| && was.lines[j].id == lineId ::
         EditedAt(was.lines, j, edit, if reply.OrderReply? then reply.sale.lines else [])
  }

  lemma LineEditedIn(was: Sale, reply: Reply, lineId: Id, edit: LineEdit)
    requires EditLines(was.lines, lineId, edit) == Ok(if reply.OrderReply? then reply.sale.lines else [])
    requires reply.OrderReply? ==>
      reply.sale.lines != [] && reply.sale.customer == was.customer && reply.sale.service == was.service
    ensures LineEdited(was, reply, lineId, edit)
  {
    EditedLines(was.lines, lineId, edit);
  }

  lemma EditLineContent(st: State, clientId: Id, lineId: Id, edit: LineEdit)
    ensures var (after, reply) := EditLine(st, clientId, lineId, edit);
      reply.OrderReply? && ParkedOrder(st, clientId).Ok?
        && ParkedOrder(st, clientId).value < |st.sales| ==>
      var was := st.sales[ParkedOrder(st, clientId).value];
      reply.sale.customer == was.customer && reply.sale.service == was.service
  {
  }

  lemma EditLineWrites(st: State, clientId: Id, lineId: Id, edit: LineEdit)
    ensures var (after, reply) := EditLine(st, clientId, lineId, edit);
      !reply.Failed? ==> exists i: nat | i < |st.sales| ::
        OneOrderEdited(st, after, reply, clientId, i) && LineEdited(st.sales[i], reply, lineId, edit)
  {
    var (after, reply) := EditLine(st, clientId, lineId, edit);
    EditLineEdits(st, clientId, lineId, edit);
    EditLineContent(st, clientId, lineId, edit);
    if !reply.Failed? {
      var i := ParkedOrder(st, clientId).value;
      EditedOrder(st, after, reply, clientId);
      LineEditedIn(st.sales[i], reply, lineId, edit);
      assert OneOrderEdited(st, after, reply, clientId, i);
    }
  }

  // ----- movements

  /** A row of what was asked for; an empty category is none. */
  predicate MovementAsked(m: Movement, input: MovementInput)
  {
    && m.id == input.id && m.kind == input.kind && m.amount == input.amount
    && (input.category != Some("") ==> m.category == input.category)
    && (input.category == Some("") ==> m.category == None)
  }

  predicate OneMovementMore(st: State, after: State, m: Movement, input: MovementInput)
  {
    && after == st.(movements := st.movements + [m]) && MovementAsked(m, input)
    && exists d | d in st.days :: d.isOpen && d.id == m.day
  }

  lemma RowIsAsked(input: MovementInput, day: Id, amends: Option<Id>)
    ensures MovementAsked(MovementRow(input, day, amends), input)
  {
  }

  lemma RecordWrites(st: State, input: MovementInput)
    ensures var (after, reply) := RecordMovement(st, input);
      after != st ==>
        reply.MovementReply? && OneMovementMore(st, after, reply.movement, input) && reply.movement.amends == None
  {
    RecordAdds(st, input);
    var (after, reply) := RecordMovement(st, input);
    if after != st {
      RowIsAsked(input, reply.movement.day, reply.movement.amends);
      assert st.days[Find(OpenNow(), st.days)] in st.days;
    }
  }

  lemma AmendWrites(st: State, targetId: Id, input: MovementInput)
    ensures var (after, reply) := AmendMovement(st, targetId, input);
      after != st ==>
        && reply.MovementReply? && OneMovementMore(st, after, reply.movement, input)
        && reply.movement.amends == Some(targetId)
        && exists t | t in st.movements && t.id == targetId :: t.day == reply.movement.day
  {
    AmendAdds(st, targetId, input);
    var (after, reply) := AmendMovement(st, targetId, input);
    if after != st {
      RowIsAsked(input, reply.movement.day, reply.movement.amends);
      assert st.movements[Find(WithMovementId(targetId), st.movements)] in st.movements;
      assert st.days[Find(WithDayId(reply.movement.day), st.days)] in st.days;
    }
  }

  // ----- every request

  ghost predicate ContentWritten(st: State, r: Request, after: State, reply: Reply, i: nat)
    requires i < |st.sales|
  {
    match r
    case RenameOrder(_, customer, service) =>
      reply.OrderReply? && Renamed(st.sales[i], reply.sale, customer, service)
    case AddOrderLine(_, id, input, v) =>
      && reply.OrderReply? && v.Some?
      && exists l :: AskedFor(l, id, input, v.value) && LineAdded(st.sales[i], reply.sale, l)
    case EditOrderLine(_, id, edit) => LineEdited(st.sales[i], reply, id, edit)
    case _ => false
  }

  /** The one order named is completed, or its change settled. */
  predicate OrderSettled(st: State, r: Request, after: State, reply: Reply, i: nat)
    requires i < |st.sales|
  {
    && reply.OrderReply? && after == st.(sales := st.sales[i := reply.sale])
    && match r
       case CompleteOrder(c, t, now) =>
         && st.sales[i].clientId == c && Pays(t, st.sales[i].totals.total) && CashCovers(t)
         && CompletedWith(st.sales[i], reply.sale, t, now)
       case SettleOrder(c, now) => st.sales[i].clientId == c && reply.sale == st.sales[i].(settledAt := Some(now))
       case _ => false
  }

  /** The open day is closed, with one count of the cash found and one closing. */
  predicate DayClosedWith(st: State, after: State, c: Closing, countId: Id, now: int)
  {
    && after.sales == st.sales && after.movements == st.movements
    && after.counts == st.counts + [CashCount(countId, c.day, c.actual, now)]
    && after.closings == st.closings + [c]
    && exists d: nat | d < |st.days| && st.days[d].isOpen ::
         && after.days == st.days[d := st.days[d].(isOpen := false)] && c.day == st.days[d].id
         && c.openingFloat == st.days[d].openingFloat && c.figures == DayFigures(st, c.day)
         && c.variance == c.actual - c.expected
         && c.expected == c.openingFloat + c.figures.cashSales + c.figures.tips + c.figures.cashIn
              + c.figures.outstandingChange - c.figures.cashOut - c.figures.expenses
  }

  ghost predicate Writes(st: State, r: Request, after: State, reply: Reply)
  {
    match r
    case CreateOrder(c, s, l, input, v, customer, service) =>
      && reply.OrderReply? && v.Some? && OneSaleMore(st, after, reply.sale)
      && NewOrder(reply.sale, c, s, customer, service) && OneLine(reply.sale, l, input, v.value)
    case VoidSale(c, v, s, admin) =>
      && reply.OrderReply? && OneSaleMore(st, after, reply.sale) && reply.sale.id == s && reply.sale.clientId == v
      && exists o | o in st.sales && o.clientId == c :: Cancels(reply.sale, o) && (admin || o.day == reply.sale.day)
    case CompleteOrder(_, _, _) => exists i: nat | i < |st.sales| :: OrderSettled(st, r, after, reply, i)
    case SettleOrder(_, _) => exists i: nat | i < |st.sales| :: OrderSettled(st, r, after, reply, i)
    case Open(d, date, float, _, now) => after == st.(days := st.days + [Day(d, date, true, float, now)])
    case Close(c, k, actual, _, now) =>
      && reply.ClosingReply? && reply.closing.id == c && reply.closing.countId == k
      && reply.closing.actual == actual && DayClosedWith(st, after, reply.closing, k, now)
    case Record(m) =>
      reply.MovementReply? && OneMovementMore(st, after, reply.movement, m) && reply.movement.amends == None
    case Amend(t, m) =>
      && reply.MovementReply? && OneMovementMore(st, after, reply.movement, m) && reply.movement.amends == Some(t)
      && exists x | x in st.movements && x.id == t :: x.day == reply.movement.day
    case _ =>
      exists i: nat | i < |st.sales| ::
        OneOrderEdited(st, after, reply, r.clientId, i) && ContentWritten(st, r, after, reply, i)
  }

  lemma RowsWritten(st: State, r: Request)
    requires (r.CreateOrder? || r.VoidSale?) && Next(st, r) != st
    ensures Writes(st, r, Next(st, r), Step(st, r).1)
  {
    if r.CreateOrder? {
      CreateOrderStep(st, r);
      CreateWrites(st, r.clientId, r.saleId, r.lineId, r.input, r.variant, r.customer, r.service);
    } else {
      VoidSaleStep(st, r);
      VoidWrites(st, r.clientId, r.voidClientId, r.saleId, r.isAdmin);
      AddedIsOneMore(st, Next(st, r), Step(st, r).1);
    }
  }

  lemma ContentsWritten(st: State, r: Request)
    requires (r.RenameOrder? || r.AddOrderLine? || r.EditOrderLine?) && !Step(st, r).1.Failed?
    ensures Writes(st, r, Next(st, r), Step(st, r).1)
  {
    if r.RenameOrder? {
      RenameOrderStep(st, r);
      RenameWrites(st, r.clientId, r.newCustomer, r.newService);
    } else if r.AddOrderLine? {
      AddOrderLineStep(st, r);
      AddLineWrites(st, r.clientId, r.lineId, r.input, r.variant);
    } else {
      EditOrderLineStep(st, r);
      EditLineWrites(st, r.clientId, r.lineId, r.edit);
    }
  }

  lemma SettledOrderOf(st: State, r: Request)
    requires (r.CompleteOrder? || r.SettleOrder?) && Next(st, r) != st
    ensures Writes(st, r, Next(st, r), Step(st, r).1)
  {
    if r.CompleteOrder? {
      CompleteOrderStep(st, r);
      CompletionWrites(st, r.clientId, r.tender, r.now);
    } else {
      SettleOrderStep(st, r);
      SettleEdits(st, r.clientId, r.now);
    }
    var i := Find(WithClientId(r.clientId), st.sales);
    assert OrderSettled(st, r, Next(st, r), Step(st, r).1, i);
  }

  lemma DayWritten(st: State, r: Request)
    requires (r.Open? || r.Close?) && Next(st, r) != st
    ensures Writes(st, r, Next(st, r), Step(st, r).1)
  {
    if r.Open? {
      OpenStep(st, r);
      OpenOpens(st, r.dayId, r.date, r.openingFloat, r.openerActive, r.now);
    } else {
      CloseStep(st, r);
      CloseCloses(st, r.closingId, r.countId, r.actual, r.closerActive, r.now);
      CountIdKept(st, r.closingId, r.countId, r.actual, r.closerActive, r.now);
    }
  }

  lemma CountIdKept(st: State, closingId: Id, countId: Id, actual: int, closerActive: bool, now: int)
    ensures var (after, reply) := CloseDay(st, closingId, countId, actual, closerActive, now);
      after != st && reply.ClosingReply? ==> reply.closing.countId == countId
  {
  }

  lemma MovementWritten(st: State, r: Request)
    requires (r.Record? || r.Amend?) && Next(st, r) != st
    ensures Writes(st, r, Next(st, r), Step(st, r).1)
  {
    if r.Record? {
      RecordStep(st, r);
      RecordWrites(st, r.movement);
    } else {
      AmendStep(st, r);
      AmendWrites(st, r.targetId, r.movement);
    }
  }

  /** Whatever request changes the store, or an order it leaves parked, writes what was asked for and
      nothing else. */
  lemma StepWrites(st: State, r: Request)
    requires if Edits(r) then !Step(st, r).1.Failed? else Next(st, r) != st
    ensures Writes(st, r, Next(st, r), Step(st, r).1)
  {
    if r.CreateOrder? || r.VoidSale? {
      RowsWritten(st, r);
    } else if r.CompleteOrder? || r.SettleOrder? {
      SettledOrderOf(st, r);
    } else if r.Open? || r.Close? {
      DayWritten(st, r);
    } else if r.Record? || r.Amend? {
      MovementWritten(st, r);
    } else {
      ContentsWritten(st, r);
    }
  }
}
