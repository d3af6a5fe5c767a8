/** Every request keeps the ledger invariant. */
module LedgerSteps {
  import opened Tables
  import opened Money
  import opened Store
  import opened Orders
  import opened TradingDays
  import opened Lines
  import opened Ledger

  // ----- how the figures of a day move with one sale

  function Shifted(f: Figures, cash: int, online: int, tips: int, outstanding: int): Figures
  {
    f.(cashSales := f.cashSales + cash, onlineSales := f.onlineSales + online,
       tips := f.tips + tips, outstandingChange := f.outstandingChange + outstanding)
  }

  lemma FiguresAppend(st: State, s: Sale, day: Id)
    ensures DayFigures(st.(sales := st.sales + [s]), day)
         == Shifted(DayFigures(st, day), PortionOn(Cash, day)(s), PortionOn(Online, day)(s),
                    TipOn(day)(s), OutstandingOn(day)(s))
  {
    SumAppend(PortionOn(Cash, day), st.sales, s);
    SumAppend(PortionOn(Online, day), st.sales, s);
    SumAppend(TipOn(day), st.sales, s);
    SumAppend(OutstandingOn(day), st.sales, s);
  }

  lemma FiguresReplace(st: State, i: nat, t: Sale, day: Id)
    requires i < |st.sales|
    ensures var s := st.sales[i];
      DayFigures(st.(sales := st.sales[i := t]), day)
      == Shifted(DayFigures(st, day),
                 PortionOn(Cash, day)(t) - PortionOn(Cash, day)(s),
                 PortionOn(Online, day)(t) - PortionOn(Online, day)(s),
                 TipOn(day)(t) - TipOn(day)(s), OutstandingOn(day)(t) - OutstandingOn(day)(s))
  {
    SumReplace(PortionOn(Cash, day), st.sales, i, t);
    SumReplace(PortionOn(Online, day), st.sales, i, t);
    SumReplace(TipOn(day), st.sales, i, t);
    SumReplace(OutstandingOn(day), st.sales, i, t);
  }

  lemma FiguresRemove(st: State, i: nat, day: Id)
    requires i < |st.sales| && Untendered(st.sales[i])
    ensures DayFigures(st.(sales := Without(st.sales, i)), day) == DayFigures(st, day)
  {
    SumRemove(PortionOn(Cash, day), st.sales, i);
    SumRemove(PortionOn(Online, day), st.sales, i);
    SumRemove(TipOn(day), st.sales, i);
    SumRemove(OutstandingOn(day), st.sales, i);
  }

  predicate SameButOutstanding(f: Figures, g: Figures)
  {
    f.(outstandingChange := g.outstandingChange) == g
  }

  lemma ClosingsKept(st: State, sales: seq<Sale>)
    requires Inv(st)
    requires forall c | c in st.closings ::
      SameButOutstanding(DayFigures(st.(sales := sales), c.day), DayFigures(st, c.day))
    ensures ClosingsInv(st.(sales := sales))
  {
    forall c | c in st.closings
      ensures SnapshotHolds(st.(sales := sales), c)
    {
      assert SnapshotHolds(st, c);
    }
  }

  lemma SaleAppended(st: State, s: Sale)
    requires Inv(st) && SalesInv(st.sales + [s]) && DayIsOpen(st.days, s.day)
    ensures Inv(st.(sales := st.sales + [s]))
  {
    ClosedFiguresUntouched(st, s);
    ClosingsKept(st, st.sales + [s]);
  }

  lemma ClosedFiguresUntouched(st: State, s: Sale)
    requires ClosingsInv(st) && DayIsOpen(st.days, s.day)
    ensures forall c | c in st.closings ::
      SameButOutstanding(DayFigures(st.(sales := st.sales + [s]), c.day), DayFigures(st, c.day))
  {
    forall c | c in st.closings
      ensures SameButOutstanding(DayFigures(st.(sales := st.sales + [s]), c.day), DayFigures(st, c.day))
    {
      assert Closed(st.days, c.day);
      FiguresAppend(st, s, c.day);
    }
  }

  lemma ClosedFiguresKept(st: State, i: nat, t: Sale, day: Id)
    requires i < |st.sales| && KeepsOrder(st.sales[i], t)
    requires t.day != day || st.sales[i].status == Completed
    ensures SameButOutstanding(DayFigures(st.(sales := st.sales[i := t]), day), DayFigures(st, day))
  {
    FiguresReplace(st, i, t, day);
  }

  lemma SaleChanged(st: State, i: nat, t: Sale)
    requires Inv(st) && i < |st.sales| && KeepsOrder(st.sales[i], t)
    requires DayIsOpen(st.days, t.day) || st.sales[i].status == Completed
    ensures Inv(st.(sales := st.sales[i := t]))
  {
    ChangeSale(st.sales, i, t);
    assert st.sales[i] in st.sales;
    forall c | c in st.closings
      ensures SameButOutstanding(
        DayFigures(st.(sales := st.sales[i := t]), c.day), DayFigures(st, c.day))
    {
      assert Closed(st.days, c.day);
      ClosedFiguresKept(st, i, t, c.day);
    }
    ClosingsKept(st, st.sales[i := t]);
  }

  lemma SaleRemoved(st: State, i: nat)
    requires Inv(st) && i < |st.sales|
    requires st.sales[i].kind == Purchase && st.sales[i].status == Parked
    ensures Inv(st.(sales := Without(st.sales, i)))
  {
    RemoveSale(st.sales, i);
    assert PurchaseOk(st.sales[i]);
    forall c | c in st.closings {
      FiguresRemove(st, i, c.day);
    }
    ClosingsKept(st, Without(st.sales, i));
  }

  // ----- orders

  /** A row that takes the next number of an open day under ids not yet in use clashes with none. */
  lemma FreshRowClashesWithNone(st: State, s: Sale)
    requires Inv(st) && s.number == LastNumber(st.sales, s.day) + 1
    requires !Has(WithSaleId(s.id), st.sales) && !Has(WithClientId(s.clientId), st.sales)
    requires s.kind == Void ==> s.corrects.Some? && !Has(Voiding(s.corrects.value), st.sales)
    ensures forall k | 0 <= k < |st.sales| :: !Clash(st.sales[k], s)
    ensures 1 <= s.number
  {
    LastNumberBounds(st.sales, s.day);
    forall k | 0 <= k < |st.sales|
      ensures !Clash(st.sales[k], s)
    {
      assert !WithSaleId(s.id)(st.sales[k]) && !WithClientId(s.clientId)(st.sales[k]);
      if s.kind == Void {
        assert !Voiding(s.corrects.value)(st.sales[k]);
      }
    }
  }

  /** A new sale row of an open day. */
  predicate FreshRow(st: State, s: Sale)
  {
    && s.number == LastNumber(st.sales, s.day) + 1
    && !Has(WithSaleId(s.id), st.sales) && !Has(WithClientId(s.clientId), st.sales)
    && exists d | 0 <= d < |st.days| :: st.days[d].isOpen && st.days[d].id == s.day
  }

  lemma FreshRowAppended(st: State, s: Sale)
    requires Inv(st) && FreshRow(st, s)
    requires s.kind == Purchase ==> PurchaseOk(s)
    requires s.kind == Void ==> s.corrects.Some? && !Has(Voiding(s.corrects.value), st.sales)
    requires s.kind == Void ==> exists o | o in st.sales :: Mirrors(s, o)
    ensures Inv(st.(sales := st.sales + [s]))
  {
    var d :| 0 <= d < |st.days| && st.days[d].isOpen && st.days[d].id == s.day;
    FoundByDayId(st.days, d);
    FreshRowClashesWithNone(st, s);
    AppendSale(st.sales, s);
    SaleAppended(st, s);
  }

  /** The store after a request that answered with a sale row it had to add. */
  predicate Added(st: State, after: State, reply: Reply)
  {
    reply.OrderReply? && after == st.(sales := st.sales + [reply.sale]) && FreshRow(st, reply.sale)
  }

  lemma ParkedSaleOk(sales: seq<Sale>, day: Id, clientId: Id, saleId: Id, line: Line,
                     customer: Option<string>, service: ServiceType)
    requires CalculateLineAmounts(line.terms) == Ok(line.amounts)
    ensures PurchaseOk(ParkedSale(sales, day, clientId, saleId, line, customer, service))
  {
    SumOne(GrossOf(), line);
    SumOne(DiscountOf(), line);
    SumOne(FreeUpsizeOf(), line);
  }

  /** Every branch of a create but the last leaves the store alone. */
  lemma CreateInserts(st: State, clientId: Id, saleId: Id, lineId: Id, input: LineInput,
                      variant: Option<Variant>, customer: Option<string>, service: ServiceType)
    ensures var (after, reply) := Create(st, clientId, saleId, lineId, input, variant, customer, service);
      var d := Find(OpenNow(), st.days);
      after != st ==>
        && d < |st.days| && variant.Some? && Priced(NewLine(lineId, input, variant.value)).Ok?
        && !Has(WithClientId(clientId), st.sales) && !Has(WithSaleId(saleId), st.sales)
        && reply == OrderReply(ParkedSale(st.sales, st.days[d].id, clientId, saleId,
                                          Priced(NewLine(lineId, input, variant.value)).value, customer, service))
        && after == st.(sales := st.sales + [reply.sale])
  {
  }

  lemma CreateAdds(st: State, clientId: Id, saleId: Id, lineId: Id, input: LineInput,
                   variant: Option<Variant>, customer: Option<string>, service: ServiceType)
    ensures var (after, reply) := Create(st, clientId, saleId, lineId, input, variant, customer, service);
      after != st ==>
        && Added(st, after, reply) && PurchaseOk(reply.sale)
        && reply.sale.kind == Purchase && reply.sale.status == Parked
        && reply.sale.id == saleId && reply.sale.clientId == clientId
  {
    CreateInserts(st, clientId, saleId, lineId, input, variant, customer, service);
    if Create(st, clientId, saleId, lineId, input, variant, customer, service).0 != st {
      var d := Find(OpenNow(), st.days);
      var line := Priced(NewLine(lineId, input, variant.value)).value;
      ParkedSaleOk(st.sales, st.days[d].id, clientId, saleId, line, customer, service);
    }
  }

  lemma CreateKeeps(st: State, clientId: Id, saleId: Id, lineId: Id, input: LineInput,
                    variant: Option<Variant>, customer: Option<string>, service: ServiceType)
    requires Inv(st)
    ensures Inv(Create(st, clientId, saleId, lineId, input, variant, customer, service).0)
  {
    var (after, reply) := Create(st, clientId, saleId, lineId, input, variant, customer, service);
    CreateAdds(st, clientId, saleId, lineId, input, variant, customer, service);
    if after != st {
      FreshRowAppended(st, reply.sale);
    }
  }

  lemma ParkedOrderOpen(st: State, clientId: Id)
    requires Inv(st) && ParkedOrder(st, clientId).Ok?
    ensures var i := ParkedOrder(st, clientId).value;
      && i < |st.sales| && st.sales[i].clientId == clientId && st.sales[i] in st.sales
      && st.sales[i].kind == Purchase && st.sales[i].status == Parked && PurchaseOk(st.sales[i])
      && DayIsOpen(st.days, st.sales[i].day)
  {
  }

  /** The same order but for what a parked order may still change. */
  predicate SameButContent(s: Sale, t: Sale)
  {
    t == s.(customer := t.customer, service := t.service, lines := t.lines, totals := TotalsOf(t.lines))
  }

  /** The store after a request that changed or discarded a parked order. */
  predicate ParkedEdited(st: State, after: State, reply: Reply, clientId: Id)
  {
    && ParkedOrder(st, clientId).Ok?
    && var i := ParkedOrder(st, clientId).value;
       && i < |st.sales|
       && (|| (reply.OrderDiscarded? && after == st.(sales := Without(st.sales, i)))
           || (reply.OrderReply? && after == st.(sales := st.sales[i := reply.sale])
               && SameButContent(st.sales[i], reply.sale)))
  }

  lemma UpdateEdits(st: State, clientId: Id, customer: Option<Option<string>>,
                    service: Option<ServiceType>)
    ensures var (after, reply) := UpdateOrder(st, clientId, customer, service);
      if reply.Failed? then after == st
      else
        && ParkedEdited(st, after, reply, clientId) && reply.OrderReply?
        && reply.sale.lines == st.sales[ParkedOrder(st, clientId).value].lines
  {
  }

  lemma RewrittenContent(s: Sale, lines: seq<Line>)
    ensures SameButContent(s, WithLines(s, lines)) && WithLines(s, lines).lines == lines
  {
  }

  lemma AddLineEdits(st: State, clientId: Id, lineId: Id, input: LineInput, variant: Option<Variant>)
    ensures var (after, reply) := AddLine(st, clientId, lineId, input, variant);
      if reply.Failed? then after == st
      else
        && ParkedEdited(st, after, reply, clientId) && reply.OrderReply? && variant.Some?
        && AddToLines(st.sales[ParkedOrder(st, clientId).value].lines, NewLine(lineId, input, variant.value))
           == Ok(reply.sale.lines)
  {
    var parked := ParkedOrder(st, clientId);
    if parked.Ok? && parked.value < |st.sales| && variant.Some? {
      var s := st.sales[parked.value];
      var lines := AddToLines(s.lines, NewLine(lineId, input, variant.value));
      if lines.Ok? {
        RewrittenContent(s, lines.value);
        assert AddLine(st, clientId, lineId, input, variant)
          == ReplaceSale(st, parked.value, WithLines(s, lines.value));
      }
    }
  }

  lemma EditLineEdits(st: State, clientId: Id, lineId: Id, edit: LineEdit)
    ensures var (after, reply) := EditLine(st, clientId, lineId, edit);
      if reply.Failed? then after == st
      else
        && ParkedEdited(st, after, reply, clientId)
        && EditLines(st.sales[ParkedOrder(st, clientId).value].lines, lineId, edit)
           == Ok(if reply.OrderReply? then reply.sale.lines else [])
        && (reply.OrderReply? ==> reply.sale.lines != [])
  {
    var parked := ParkedOrder(st, clientId);
    if parked.Ok? && parked.value < |st.sales| {
      var s := st.sales[parked.value];
      var lines := EditLines(s.lines, lineId, edit);
      if lines.Ok? {
        RewrittenContent(s, lines.value);
      }
    }
  }

  lemma EditedKeeps(st: State, after: State, reply: Reply, clientId: Id)
    requires Inv(st) && ParkedEdited(st, after, reply, clientId)
    requires reply.OrderReply? ==> reply.sale.lines != [] && PricedLines(reply.sale.lines)
    ensures Inv(after)
  {
    ParkedOrderOpen(st, clientId);
    var i := ParkedOrder(st, clientId).value;
    if reply.OrderDiscarded? {
      SaleRemoved(st, i);
    } else {
      SaleChanged(st, i, reply.sale);
    }
  }

  lemma UpdateKeeps(st: State, clientId: Id, customer: Option<Option<string>>,
                    service: Option<ServiceType>)
    requires Inv(st)
    ensures Inv(UpdateOrder(st, clientId, customer, service).0)
  {
    var (after, reply) := UpdateOrder(st, clientId, customer, service);
    UpdateEdits(st, clientId, customer, service);
    if after != st {
      ParkedOrderOpen(st, clientId);
      EditedKeeps(st, after, reply, clientId);
    }
  }

  lemma AddLineKeeps(st: State, clientId: Id, lineId: Id, input: LineInput, variant: Option<Variant>)
    requires Inv(st)
    ensures Inv(AddLine(st, clientId, lineId, input, variant).0)
  {
    var (after, reply) := AddLine(st, clientId, lineId, input, variant);
    AddLineEdits(st, clientId, lineId, input, variant);
    if after != st {
      ParkedOrderOpen(st, clientId);
      AddKeepsPriced(st.sales[ParkedOrder(st, clientId).value].lines,
                     NewLine(lineId, input, variant.value));
      EditedKeeps(st, after, reply, clientId);
    }
  }

  lemma EditLineKeeps(st: State, clientId: Id, lineId: Id, edit: LineEdit)
    requires Inv(st)
    ensures Inv(EditLine(st, clientId, lineId, edit).0)
  {
    var (after, reply) := EditLine(st, clientId, lineId, edit);
    EditLineEdits(st, clientId, lineId, edit);
    if after != st {
      ParkedOrderOpen(st, clientId);
      EditKeepsPriced(st.sales[ParkedOrder(st, clientId).value].lines, lineId, edit);
      EditedKeeps(st, after, reply, clientId);
    }
  }

  lemma AcceptedTender(total: int, input: Tender)
    requires WellFormedTender(input) && ValidateTender(total, input).Ok?
    ensures var received := ValidateTender(total, input).value;
      var cash := Portion(Cash, input.payments);
      && Distinct(Map(TenderOf(), input.payments))
      && (forall p | p in input.payments :: 0 <= p.amount)
      && Sum(AmountOf(), input.payments) == total
      && (if cash == 0 then received.None? && input.owed == 0
          else received.Some? && cash + input.owed <= received.value)
  {
  }

  lemma CompleteEdits(st: State, clientId: Id, input: Tender, now: int)
    ensures var (after, reply) := Complete(st, clientId, input, now);
      var i := Find(WithClientId(clientId), st.sales);
      after != st ==>
        && i < |st.sales| && st.sales[i].status == Parked && st.sales[i].kind == Purchase
        && reply.OrderReply? && after == st.(sales := st.sales[i := reply.sale])
        && ValidateTender(st.sales[i].totals.total, input).Ok?
        && reply.sale == st.sales[i].(
             status := Completed, tip := input.tip, owed := input.owed, completedAt := Some(now),
             received := reply.sale.received, payments := input.payments)
  {
  }

  lemma CompleteKeeps(st: State, clientId: Id, input: Tender, now: int)
    requires Inv(st)
    ensures Inv(Complete(st, clientId, input, now).0)
  {
    var (after, reply) := Complete(st, clientId, input, now);
    if after != st {
      var i := Find(WithClientId(clientId), st.sales);
      assert st.sales[i] in st.sales && PurchaseOk(st.sales[i]);
      AcceptedTender(st.sales[i].totals.total, input);
      SaleChanged(st, i, reply.sale);
    }
  }

  lemma SettleEdits(st: State, clientId: Id, now: int)
    ensures var (after, reply) := SettleChange(st, clientId, now);
      var i := Find(WithClientId(clientId), st.sales);
      after != st ==>
        && i < |st.sales| && reply.OrderReply? && after == st.(sales := st.sales[i := reply.sale])
        && st.sales[i].settledAt.None? && 0 < st.sales[i].owed && st.sales[i].status == Completed
        && reply.sale == st.sales[i].(settledAt := Some(now))
  {
  }

  lemma SettleKeeps(st: State, clientId: Id, now: int)
    requires Inv(st)
    ensures Inv(SettleChange(st, clientId, now).0)
  {
    var (after, reply) := SettleChange(st, clientId, now);
    if after != st {
      var i := Find(WithClientId(clientId), st.sales);
      assert st.sales[i] in st.sales && PurchaseOk(st.sales[i]);
      SaleChanged(st, i, reply.sale);
    }
  }

  lemma VoidAdds(st: State, originalClientId: Id, clientId: Id, saleId: Id, isAdmin: bool)
    ensures var (after, reply) := VoidOrder(st, originalClientId, clientId, saleId, isAdmin);
      var i := Find(WithClientId(originalClientId), st.sales);
      after != st ==>
        && Added(st, after, reply) && i < |st.sales| && Mirrors(reply.sale, st.sales[i])
        && !Has(Voiding(st.sales[i].id), st.sales) && reply.sale.corrects == Some(st.sales[i].id)
        && reply.sale.id == saleId && reply.sale.clientId == clientId
        && (isAdmin || st.sales[i].day == reply.sale.day)
  {
  }

  lemma VoidKeeps(st: State, originalClientId: Id, clientId: Id, saleId: Id, isAdmin: bool)
    requires Inv(st)
    ensures Inv(VoidOrder(st, originalClientId, clientId, saleId, isAdmin).0)
  {
    var (after, reply) := VoidOrder(st, originalClientId, clientId, saleId, isAdmin);
    VoidAdds(st, originalClientId, clientId, saleId, isAdmin);
    if after != st {
      var o := st.sales[Find(WithClientId(originalClientId), st.sales)];
      assert o in st.sales && Mirrors(reply.sale, o);
      FreshRowAppended(st, reply.sale);
    }
  }

  // ----- trading days

  lemma FiguresOfNewDay(st: State, day: Id)
    requires Inv(st) && !Has(WithDayId(day), st.days)
    ensures DayFigures(st, day) == Figures(0, 0, 0, 0, 0, 0, 0)
  {
    SumZero(PortionOn(Cash, day), st.sales);
    SumZero(PortionOn(Online, day), st.sales);
    SumZero(TipOn(day), st.sales);
    SumZero(OutstandingOn(day), st.sales);
    SumZero(EffectiveOn(st.movements, CashIn, day), st.movements);
    SumZero(EffectiveOn(st.movements, CashOut, day), st.movements);
    SumZero(EffectiveOn(st.movements, Expense, day), st.movements);
  }

  lemma DayAppended(st: State, day: Day)
    requires Inv(st) && day.isOpen && 0 <= day.openingFloat
    requires !Has(OpenNow(), st.days) && !Has(OnDate(day.date), st.days)
    requires !Has(WithDayId(day.id), st.days)
    ensures Inv(st.(days := st.days + [day]))
  {
    var days := st.days + [day];
    assert forall i | 0 <= i < |st.days| ::
      days[i] == st.days[i] && !OpenNow()(st.days[i]) && !OnDate(day.date)(st.days[i])
      && !WithDayId(day.id)(st.days[i]);
    forall s | s in st.sales { HasAppend(WithDayId(s.day), st.days, day); }
    forall m | m in st.movements { HasAppend(WithDayId(m.day), st.days, day); }
    forall c | c in st.closings
      ensures Closed(days, c.day) && SnapshotHolds(st.(days := days), c)
    {
      HasAppend(WithDayId(c.day), st.days, day);
      assert Closed(st.days, c.day) && SnapshotHolds(st, c);
    }
  }

  lemma OpenOpens(st: State, dayId: Id, date: int, openingFloat: int, openerActive: bool, now: int)
    ensures var (after, reply) := OpenDay(st, dayId, date, openingFloat, openerActive, now);
      if reply.DayReply? then
        after == st.(days := st.days + [reply.day]) && !Has(WithDayId(reply.day.id), st.days)
        && reply.day == Day(dayId, date, true, openingFloat, now)
      else after == st
  {
  }

  lemma OpenKeeps(st: State, dayId: Id, date: int, openingFloat: int, openerActive: bool, now: int)
    requires Inv(st)
    ensures Inv(OpenDay(st, dayId, date, openingFloat, openerActive, now).0)
  {
    var (after, reply) := OpenDay(st, dayId, date, openingFloat, openerActive, now);
    if after != st {
      DayAppended(st, reply.day);
    }
  }

  lemma DayClosed(st: State, d: nat, id: Id)
    requires DaysInv(st.days) && d < |st.days|
    ensures var days := st.days[d := st.days[d].(isOpen := false)];
      && DaysInv(days)
      && (Has(WithDayId(id), days) <==> Has(WithDayId(id), st.days))
      && FloatOf(days, id) == FloatOf(st.days, id)
      && (DayIsOpen(days, id) <==> DayIsOpen(st.days, id) && id != st.days[d].id)
  {
    var days := st.days[d := st.days[d].(isOpen := false)];
    assert forall i | 0 <= i < |days| :: days[i].id == st.days[i].id;
    assert Find(WithDayId(id), days) == Find(WithDayId(id), st.days);
    FoundByDayId(st.days, d);
  }

  /** A closing that says what the open day at index `d` comes to. */
  predicate ClosesDay(st: State, d: nat, closing: Closing, count: CashCount)
    requires d < |st.days|
  {
    && st.days[d].isOpen && closing.day == st.days[d].id && count.day == closing.day
    && count.id == closing.countId && count.counted == closing.actual
    && !Has(WithClosingId(closing.id), st.closings)
    && closing.figures == DayFigures(st, closing.day)
    && closing.openingFloat == st.days[d].openingFloat
    && closing.expected == closing.figures.Expected(closing.openingFloat)
    && closing.variance == closing.actual - closing.expected
  }

  function AfterClose(st: State, d: nat, closing: Closing, count: CashCount): State
    requires d < |st.days|
  {
    st.(days := st.days[d := st.days[d].(isOpen := false)],
        counts := st.counts + [count], closings := st.closings + [closing])
  }

  lemma ClosingIsNew(st: State, d: nat, closing: Closing, count: CashCount)
    requires Inv(st) && d < |st.days| && ClosesDay(st, d, closing, count)
    ensures forall i | 0 <= i < |st.closings| ::
      st.closings[i].id != closing.id && st.closings[i].day != closing.day
  {
    FoundByDayId(st.days, d);
    forall i | 0 <= i < |st.closings|
      ensures st.closings[i].id != closing.id && st.closings[i].day != closing.day
    {
      assert !WithClosingId(closing.id)(st.closings[i]);
      assert Closed(st.days, st.closings[i].day);
    }
  }

  lemma SnapshotsAfterClose(st: State, d: nat, closing: Closing, count: CashCount, c: Closing)
    requires Inv(st) && d < |st.days| && ClosesDay(st, d, closing, count)
    requires c in st.closings + [closing]
    ensures var after := AfterClose(st, d, closing, count);
      Closed(after.days, c.day) && SnapshotHolds(after, c)
  {
    var after := AfterClose(st, d, closing, count);
    assert DayFigures(after, c.day) == DayFigures(st, c.day);
    DayClosed(st, d, c.day);
    FoundByDayId(st.days, d);
    if c in st.closings {
      assert Closed(st.days, c.day) && SnapshotHolds(st, c);
    }
  }

  lemma ReferencesAfterClose(st: State, d: nat, closing: Closing, count: CashCount)
    requires DaysInv(st.days) && References(st) && d < |st.days|
    ensures References(AfterClose(st, d, closing, count))
  {
    forall s | s in st.sales { DayClosed(st, d, s.day); }
    forall m | m in st.movements { DayClosed(st, d, m.day); }
  }

  lemma EveryClosedDayHasOne(st: State, d: nat, closing: Closing)
    requires ClosingsInv(st) && d < |st.days| && closing.day == st.days[d].id
    ensures var days := st.days[d := st.days[d].(isOpen := false)];
      forall e | e in days && !e.isOpen :: Has(ClosingOf(e.id), st.closings + [closing])
  {
    var days := st.days[d := st.days[d].(isOpen := false)];
    forall e | e in days && !e.isOpen
      ensures Has(ClosingOf(e.id), st.closings + [closing])
    {
      HasAppend(ClosingOf(e.id), st.closings, closing);
      if e != days[d] {
        assert e in st.days;
      }
    }
  }

  lemma CountsPaired(st: State, closing: Closing, count: CashCount)
    requires ClosingsInv(st) && count.id == closing.countId && count.day == closing.day
    requires count.counted == closing.actual
    requires forall i | 0 <= i < |st.closings| ::
      st.closings[i].id != closing.id && st.closings[i].day != closing.day
    ensures var counts, closings := st.counts + [count], st.closings + [closing];
      && |counts| == |closings|
      && (forall i | 0 <= i < |closings| ::
            counts[i].id == closings[i].countId && counts[i].day == closings[i].day
            && counts[i].counted == closings[i].actual)
      && (forall i, j | 0 <= i < j < |closings| ::
            closings[i].id != closings[j].id && closings[i].day != closings[j].day)
  {
  }

  lemma ClosingsAfterClose(st: State, d: nat, closing: Closing, count: CashCount)
    requires Inv(st) && d < |st.days| && ClosesDay(st, d, closing, count)
    ensures ClosingsInv(AfterClose(st, d, closing, count))
  {
    var after := AfterClose(st, d, closing, count);
    ClosingIsNew(st, d, closing, count);
    CountsPaired(st, closing, count);
    EveryClosedDayHasOne(st, d, closing);
    forall c | c in after.closings
      ensures Closed(after.days, c.day) && SnapshotHolds(after, c)
    {
      SnapshotsAfterClose(st, d, closing, count, c);
    }
  }

  lemma CloseSnapshots(st: State, d: nat, closing: Closing, count: CashCount)
    requires Inv(st) && d < |st.days| && ClosesDay(st, d, closing, count)
    ensures Inv(AfterClose(st, d, closing, count))
  {
    DayClosed(st, d, closing.day);
    ReferencesAfterClose(st, d, closing, count);
    ClosingsAfterClose(st, d, closing, count);
  }

  lemma CloseCloses(st: State, closingId: Id, countId: Id, actual: int, closerActive: bool, now: int)
    ensures var (after, reply) := CloseDay(st, closingId, countId, actual, closerActive, now);
      var d := Find(OpenNow(), st.days);
      after != st ==>
        && reply.ClosingReply? && d < |st.days|
        && reply.closing.actual == actual && reply.closing.id == closingId
        && var count := CashCount(countId, reply.closing.day, actual, now);
           ClosesDay(st, d, reply.closing, count) && after == AfterClose(st, d, reply.closing, count)
  {
    var (after, reply) := CloseDay(st, closingId, countId, actual, closerActive, now);
    if after != st {
      var day := st.days[Find(OpenNow(), st.days)];
      CalculateCashMeans(st, day, false, Some(actual));
      var figures := DayFigures(st, day.id);
      assert reply.closing.figures == figures && reply.closing.day == day.id;
    }
  }

  lemma CloseKeeps(st: State, closingId: Id, countId: Id, actual: int, closerActive: bool, now: int)
    requires Inv(st)
    ensures Inv(CloseDay(st, closingId, countId, actual, closerActive, now).0)
  {
    var (after, reply) := CloseDay(st, closingId, countId, actual, closerActive, now);
    CloseCloses(st, closingId, countId, actual, closerActive, now);
    if after != st {
      CloseSnapshots(st, Find(OpenNow(), st.days), reply.closing,
                     CashCount(countId, reply.closing.day, actual, now));
    }
  }

  // ----- movements

  function Signed(kind: MovementKind, amount: int): int
  {
    if kind == CashIn then amount else -amount
  }

  function Counted(m: Movement, kind: MovementKind, day: Id): int
  {
    if m.day == day && m.kind == kind then m.amount else 0
  }

  lemma NothingAmendsTheLast(movements: seq<Movement>)
    requires MovementsInv(movements) && movements != []
    ensures !Superseded(movements, movements[|movements| - 1].id)
  {
    var last := movements[|movements| - 1].id;
    forall j | 0 <= j < |movements|
      ensures movements[j].amends != Some(last)
    {
      assert AmendsEarlier(movements, j);
    }
    FindNone(Amending(last), movements);
  }

  lemma SupersededAppend(movements: seq<Movement>, m: Movement)
    ensures forall id: Id ::
      Superseded(movements + [m], id) <==> Superseded(movements, id) || m.amends == Some(id)
  {
    forall id: Id
      ensures Superseded(movements + [m], id) <==> Superseded(movements, id) || m.amends == Some(id)
    {
      HasAppend(Amending(id), movements, m);
    }
  }

  /** Recording a movement counts the new row. */
  lemma EffectiveRecorded(movements: seq<Movement>, m: Movement, kind: MovementKind, day: Id)
    requires MovementsInv(movements + [m]) && m.amends.None?
    ensures Sum(EffectiveOn(movements + [m], kind, day), movements + [m])
         == Sum(EffectiveOn(movements, kind, day), movements) + Counted(m, kind, day)
  {
    var f, g := EffectiveOn(movements, kind, day), EffectiveOn(movements + [m], kind, day);
    SupersededAppend(movements, m);
    NothingAmendsTheLast(movements + [m]);
    SumAppend(g, movements, m);
    SumAgree(f, g, movements);
  }

  /** Amending a movement counts the new row in place of its target. */
  lemma EffectiveAmended(movements: seq<Movement>, t: nat, m: Movement, kind: MovementKind, day: Id)
    requires MovementsInv(movements + [m]) && t < |movements| && m.amends == Some(movements[t].id)
    requires !Superseded(movements, movements[t].id)
    ensures Sum(EffectiveOn(movements + [m], kind, day), movements + [m])
         == Sum(EffectiveOn(movements, kind, day), movements)
            - Counted(movements[t], kind, day) + Counted(m, kind, day)
  {
    var f, g := EffectiveOn(movements, kind, day), EffectiveOn(movements + [m], kind, day);
    SupersededAppend(movements, m);
    NothingAmendsTheLast(movements + [m]);
    SumAppend(g, movements, m);
    forall j | 0 <= j < |movements| && j != t
      ensures f(movements[j]) == g(movements[j])
    {
      assert (movements + [m])[j] == movements[j] && (movements + [m])[t] == movements[t];
    }
    SumChangedAt(f, g, movements, t);
  }

  /** What a movement row does to the sum of one kind on one day. */
  lemma EffectiveAppend(movements: seq<Movement>, m: Movement, kind: MovementKind, day: Id)
    requires MovementsInv(movements + [m])
    requires m.amends.Some? ==>
      !Superseded(movements, m.amends.value) && Has(WithMovementId(m.amends.value), movements)
    ensures var before := Sum(EffectiveOn(movements, kind, day), movements);
      var after := Sum(EffectiveOn(movements + [m], kind, day), movements + [m]);
      after == before + Counted(m, kind, day)
        - (if m.amends.None? then 0
           else Counted(movements[Find(WithMovementId(m.amends.value), movements)], kind, day))
  {
    if m.amends.None? {
      EffectiveRecorded(movements, m, kind, day);
    } else {
      EffectiveAmended(movements, Find(WithMovementId(m.amends.value), movements), m, kind, day);
    }
  }

  lemma MovementAppended(st: State, m: Movement)
    requires Inv(st) && MovementsInv(st.movements + [m]) && DayIsOpen(st.days, m.day)
    requires m.amends.Some? ==>
      !Superseded(st.movements, m.amends.value) && Has(WithMovementId(m.amends.value), st.movements)
      && st.movements[Find(WithMovementId(m.amends.value), st.movements)].day == m.day
    ensures Inv(st.(movements := st.movements + [m]))
  {
    var after := st.(movements := st.movements + [m]);
    forall c | c in st.closings
      ensures SnapshotHolds(after, c)
    {
      assert Closed(st.days, c.day) && SnapshotHolds(st, c);
      EffectiveAppend(st.movements, m, CashIn, c.day);
      EffectiveAppend(st.movements, m, CashOut, c.day);
      EffectiveAppend(st.movements, m, Expense, c.day);
    }
  }

  lemma MovementIdsStayUnique(movements: seq<Movement>, m: Movement)
    requires MovementsInv(movements) && 1 <= m.amount && !Has(WithMovementId(m.id), movements)
    requires m.amends.Some? ==>
      !Superseded(movements, m.amends.value) && Has(WithMovementId(m.amends.value), movements)
      && movements[Find(WithMovementId(m.amends.value), movements)].day == m.day
    ensures MovementsInv(movements + [m])
  {
    var all := movements + [m];
    forall i | 0 <= i < |movements|
      ensures all[i] == movements[i] && all[i].id != m.id
      ensures m.amends.Some? ==> all[i].amends != m.amends
    {
      assert !WithMovementId(m.id)(movements[i]);
      if m.amends.Some? {
        assert !Amending(m.amends.value)(movements[i]);
      }
    }
    forall j | 0 <= j < |all|
      ensures AmendsEarlier(all, j)
    {
      if j < |movements| {
        assert AmendsEarlier(movements, j);
      } else if m.amends.Some? {
        var t := Find(WithMovementId(m.amends.value), movements);
        assert all[t].id == m.amends.value;
      }
    }
  }

  /** The store after a request that answered with a movement it had to add. */
  predicate MovementAdded(st: State, after: State, reply: Reply, input: MovementInput)
  {
    && reply.MovementReply? && after == st.(movements := st.movements + [reply.movement])
    && !Has(WithMovementId(input.id), st.movements) && ValidMovement(input)
    && reply.movement == MovementRow(input, reply.movement.day, reply.movement.amends)
  }

  lemma RecordAdds(st: State, input: MovementInput)
    ensures var (after, reply) := RecordMovement(st, input);
      var d := Find(OpenNow(), st.days);
      if after != st then
        MovementAdded(st, after, reply, input) && reply.movement.amends.None?
        && d < |st.days| && reply.movement.day == st.days[d].id
      else reply.MovementReply? ==> Has(WithMovementId(input.id), st.movements)
  {
  }

  lemma AmendAdds(st: State, targetId: Id, input: MovementInput)
    ensures var (after, reply) := AmendMovement(st, targetId, input);
      var t := Find(WithMovementId(targetId), st.movements);
      if after != st then
        MovementAdded(st, after, reply, input) && reply.movement.amends == Some(targetId)
        && t < |st.movements| && reply.movement.day == st.movements[t].day
        && DayIsOpen(st.days, reply.movement.day) && !Superseded(st.movements, targetId)
      else reply.MovementReply? ==> Has(WithMovementId(input.id), st.movements)
  {
  }

  lemma RecordKeeps(st: State, input: MovementInput)
    requires Inv(st)
    ensures Inv(RecordMovement(st, input).0)
  {
    var (after, reply) := RecordMovement(st, input);
    RecordAdds(st, input);
    if after != st {
      FoundByDayId(st.days, Find(OpenNow(), st.days));
      MovementIdsStayUnique(st.movements, reply.movement);
      MovementAppended(st, reply.movement);
    }
  }

  lemma AmendKeeps(st: State, targetId: Id, input: MovementInput)
    requires Inv(st)
    ensures Inv(AmendMovement(st, targetId, input).0)
  {
    var (after, reply) := AmendMovement(st, targetId, input);
    AmendAdds(st, targetId, input);
    if after != st {
      MovementIdsStayUnique(st.movements, reply.movement);
      MovementAppended(st, reply.movement);
    }
  }

  // ----- every run

  predicate OnlySales(st: State, after: State)
  {
    after == st.(sales := after.sales)
  }

  /** A request about an order writes sales only, one about a movement writes movements only. */
  predicate WritesItsTables(st: State, r: Request, after: State)
  {
    && (!r.Open? && !r.Close? && !r.Record? && !r.Amend? ==> OnlySales(st, after))
    && (r.Record? || r.Amend? ==> after == st.(movements := after.movements))
    && (r.Open? ==> after == st.(days := after.days))
    && (r.Close? ==> after.sales == st.sales && after.movements == st.movements)
  }

  lemma CreateTablesKept(st: State, r: Request)
    requires r.CreateOrder?
    ensures WritesItsTables(st, r, Next(st, r))
  {
    CreateOrderStep(st, r);
    CreateAdds(st, r.clientId, r.saleId, r.lineId, r.input, r.variant, r.customer, r.service);
  }

  lemma RenameTablesKept(st: State, r: Request)
    requires r.RenameOrder?
    ensures WritesItsTables(st, r, Next(st, r))
  {
  }

  lemma LineTablesKept(st: State, r: Request)
    requires r.AddOrderLine?
    ensures WritesItsTables(st, r, Next(st, r))
  {
  }

  lemma ParkedTablesKept(st: State, r: Request)
    requires r.EditOrderLine? || r.CompleteOrder?
    ensures WritesItsTables(st, r, Next(st, r))
  {
  }

  lemma CompletedTablesKept(st: State, r: Request)
    requires r.VoidSale? || r.SettleOrder?
    ensures WritesItsTables(st, r, Next(st, r))
  {
  }

  lemma DayTablesKept(st: State, r: Request)
    requires r.Open? || r.Close? || r.Record? || r.Amend?
    ensures WritesItsTables(st, r, Next(st, r))
  {
  }

  lemma OtherTablesKept(st: State, r: Request)
    ensures WritesItsTables(st, r, Next(st, r))
  {
    if r.CreateOrder? {
      CreateTablesKept(st, r);
    } else if r.RenameOrder? {
      RenameTablesKept(st, r);
    } else if r.AddOrderLine? {
      LineTablesKept(st, r);
    } else if r.EditOrderLine? || r.CompleteOrder? {
      ParkedTablesKept(st, r);
    } else if r.VoidSale? || r.SettleOrder? {
      CompletedTablesKept(st, r);
    } else {
      DayTablesKept(st, r);
    }
  }

  lemma CreateOrderRequestKeeps(st: State, r: Request)
    requires Inv(st) && r.CreateOrder?
    ensures Inv(Next(st, r))
  {
    CreateOrderStep(st, r);
    CreateKeeps(st, r.clientId, r.saleId, r.lineId, r.input, r.variant, r.customer, r.service);
  }

  lemma RenameOrderRequestKeeps(st: State, r: Request)
    requires Inv(st) && r.RenameOrder?
    ensures Inv(Next(st, r))
  {
    RenameOrderStep(st, r);
    UpdateKeeps(st, r.clientId, r.newCustomer, r.newService);
  }

  lemma AddOrderLineRequestKeeps(st: State, r: Request)
    requires Inv(st) && r.AddOrderLine?
    ensures Inv(Next(st, r))
  {
    AddOrderLineStep(st, r);
    AddLineKeeps(st, r.clientId, r.lineId, r.input, r.variant);
  }

  lemma EditOrderLineRequestKeeps(st: State, r: Request)
    requires Inv(st) && r.EditOrderLine?
    ensures Inv(Next(st, r))
  {
    EditOrderLineStep(st, r);
    EditLineKeeps(st, r.clientId, r.lineId, r.edit);
  }

  lemma CompleteOrderRequestKeeps(st: State, r: Request)
    requires Inv(st) && r.CompleteOrder?
    ensures Inv(Next(st, r))
  {
    CompleteOrderStep(st, r);
    CompleteKeeps(st, r.clientId, r.tender, r.now);
  }

  lemma SettleOrderRequestKeeps(st: State, r: Request)
    requires Inv(st) && r.SettleOrder?
    ensures Inv(Next(st, r))
  {
    SettleOrderStep(st, r);
    SettleKeeps(st, r.clientId, r.now);
  }

  lemma VoidSaleRequestKeeps(st: State, r: Request)
    requires Inv(st) && r.VoidSale?
    ensures Inv(Next(st, r))
  {
    VoidSaleStep(st, r);
    VoidKeeps(st, r.clientId, r.voidClientId, r.saleId, r.isAdmin);
  }

  lemma OpenRequestKeeps(st: State, r: Request)
    requires Inv(st) && r.Open?
    ensures Inv(Next(st, r))
  {
    OpenStep(st, r);
    OpenKeeps(st, r.dayId, r.date, r.openingFloat, r.openerActive, r.now);
  }

  lemma CloseRequestKeeps(st: State, r: Request)
    requires Inv(st) && r.Close?
    ensures Inv(Next(st, r))
  {
    CloseStep(st, r);
    CloseKeeps(st, r.closingId, r.countId, r.actual, r.closerActive, r.now);
  }

  lemma RecordRequestKeeps(st: State, r: Request)
    requires Inv(st) && r.Record?
    ensures Inv(Next(st, r))
  {
    RecordStep(st, r);
    RecordKeeps(st, r.movement);
  }

  lemma AmendRequestKeeps(st: State, r: Request)
    requires Inv(st) && r.Amend?
    ensures Inv(Next(st, r))
  {
    AmendStep(st, r);
    AmendKeeps(st, r.targetId, r.movement);
  }

  lemma StepKeepsInv(st: State, r: Request)
    requires Inv(st)
    ensures Inv(Next(st, r))
  {
    match r
    case CreateOrder(_, _, _, _, _, _, _) => CreateOrderRequestKeeps(st, r);
    case RenameOrder(_, _, _) => RenameOrderRequestKeeps(st, r);
    case AddOrderLine(_, _, _, _) => AddOrderLineRequestKeeps(st, r);
    case EditOrderLine(_, _, _) => EditOrderLineRequestKeeps(st, r);
    case CompleteOrder(_, _, _) => CompleteOrderRequestKeeps(st, r);
    case SettleOrder(_, _) => SettleOrderRequestKeeps(st, r);
    case VoidSale(_, _, _, _) => VoidSaleRequestKeeps(st, r);
    case Open(_, _, _, _, _) => OpenRequestKeeps(st, r);
    case Close(_, _, _, _, _) => CloseRequestKeeps(st, r);
    case Record(_) => RecordRequestKeeps(st, r);
    case Amend(_, _) => AmendRequestKeeps(st, r);
  }

  lemma {:induction false} RunKeepsInv(st: State, requests: seq<Request>)
    requires Inv(st)
    ensures Inv(Run(st, requests))
    decreases |requests|
  {
    if requests != [] {
      StepKeepsInv(st, requests[0]);
      RunKeepsInv(Next(st, requests[0]), requests[1..]);
    }
  }

  lemma EmptyInv()
    ensures Inv(EMPTY)
  {
  }
}
