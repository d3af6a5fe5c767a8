/** The services as they write the tables: one method per transaction, row by row, each proved to
    do what its ledger step says and so to keep the ledger invariant. */
module Services {
  import opened Tables
  import opened Money
  import opened Store
  import opened Orders
  import opened TradingDays
  import opened Drawer
  import opened Ledger
  import opened LedgerSteps

  lemma VoidIsCompleted(sales: seq<Sale>, s: Sale)
    requires SalesInv(sales) && s in sales
    ensures s.kind == Void ==> s.status == Completed
    ensures s.kind == Purchase && s.status == Parked ==> s.payments == []
  {
    if s.kind == Void {
      var o :| o in sales && Mirrors(s, o);
    }
  }

  class PosDatabase {
    var sales: seq<Sale>
    var days: seq<Day>
    var movements: seq<Movement>
    var counts: seq<CashCount>
    var closings: seq<Closing>

    function View(): State
      reads this
    {
      State(sales, days, movements, counts, closings)
    }

    ghost predicate Valid()
      reads this
    {
      Inv(View())
    }

    /** Payments are written only when an order is completed. */
    ghost predicate ParkedUnpaid()
      reads this
    {
      forall s | s in sales && s.status == Parked :: s.payments == []
    }

    constructor ()
      ensures Valid() && View() == EMPTY
    {
      sales, days, movements, counts, closings := [], [], [], [], [];
      new;
      EmptyInv();
    }

    // ----- orders

    method CreateOrder(clientId: Id, saleId: Id, lineId: Id, input: LineInput, variant: Option<Variant>,
                       customer: Option<string>, service: ServiceType) returns (reply: Reply)
      modifies this`sales
      ensures (View(), reply)
           == Create(old(View()), clientId, saleId, lineId, input, variant, customer, service)
    {
      var replay := Find(WithClientId(clientId), sales);
      if replay < |sales| {
        return OrderReply(sales[replay]);
      }
      var d := Find(OpenNow(), days);
      if d == |days| {
        return Failed(NoOpenDay);
      }
      if variant.None? {
        return Failed(NotSellable);
      }
      var line := NewLine(lineId, input, variant.value);
      var amounts := CalculateLineAmounts(line.terms);
      if amounts.Err? {
        return Failed(BadLine(amounts.error));
      }
      if Has(WithSaleId(saleId), sales) {
        return Failed(UniqueViolation);
      }
      var sale := InsertOrder(days[d].id, clientId, saleId, line.(amounts := amounts.value), customer, service);
      return OrderReply(sale);
    }

    method InsertOrder(day: Id, clientId: Id, saleId: Id, line: Line, customer: Option<string>,
                       service: ServiceType) returns (sale: Sale)
      modifies this`sales
      ensures sale == ParkedSale(old(sales), day, clientId, saleId, line, customer, service)
      ensures sales == old(sales) + [sale]
    {
      var last := LastNumber(sales, day);
      var a := line.amounts;
      sale := Sale(
        saleId, clientId, day, Purchase, None, last + 1, Parked, customer, service,
        Totals(a.gross, a.discount, a.freeUpsize, a.total), 0, None, 0, None, None, [line], []);
      sales := sales + [sale];
    }

    /** Sums the stored line amounts back into the header of the order. */
    method Recalculate(i: nat)
      requires i < |sales|
      modifies this`sales
      ensures sales == old(sales)[i := WithLines(old(sales)[i], old(sales)[i].lines)]
    {
      var lines := sales[i].lines;
      var subtotal, discount, freeUpsize := 0, 0, 0;
      for n := 0 to |lines|
        invariant subtotal == Sum(GrossOf(), lines[..n])
        invariant discount == Sum(DiscountOf(), lines[..n])
        invariant freeUpsize == Sum(FreeUpsizeOf(), lines[..n])
        invariant sales == old(sales)
      {
        assert lines[..n + 1] == lines[..n] + [lines[n]];
        SumAppend(GrossOf(), lines[..n], lines[n]);
        SumAppend(DiscountOf(), lines[..n], lines[n]);
        SumAppend(FreeUpsizeOf(), lines[..n], lines[n]);
        subtotal := subtotal + lines[n].amounts.gross;
        discount := discount + lines[n].amounts.discount;
        freeUpsize := freeUpsize + lines[n].amounts.freeUpsize;
      }
      assert lines[..|lines|] == lines;
      sales := sales[i := sales[i].(
        totals := Totals(subtotal, discount, freeUpsize, subtotal - freeUpsize - discount))];
    }

    /** Writes the lines of a parked order and recalculates it. */
    method StoreLines(i: nat, lines: seq<Line>)
      requires i < |sales|
      modifies this`sales
      ensures sales == old(sales)[i := WithLines(old(sales)[i], lines)]
    {
      sales := sales[i := sales[i].(lines := lines)];
      Recalculate(i);
    }

    method RenameOrder(clientId: Id, customer: Option<Option<string>>, service: Option<ServiceType>)
      returns (reply: Reply)
      modifies this`sales
      ensures (View(), reply) == UpdateOrder(old(View()), clientId, customer, service)
    {
      var parked := ParkedOrder(View(), clientId);
      if parked.Err? {
        return Failed(parked.error);
      }
      var i := parked.value;
      if customer.Some? {
        sales := sales[i := sales[i].(customer := customer.value)];
      }
      if service.Some? {
        sales := sales[i := sales[i].(service := service.value)];
      }
      Recalculate(i);
      ghost var before := old(sales)[i];
      assert sales == old(sales)[i := WithLines(
        before.(customer := OrElse(customer, before.customer), service := OrElse(service, before.service)),
        before.lines)];
      return OrderReply(sales[i]);
    }

    /** A plain line goes into the first plain line of its size; any other line stands alone. */
    static method MergeLine(lines: seq<Line>, incoming: Line) returns (r: Result<seq<Line>, Error>)
      ensures r == AddToLines(lines, incoming)
    {
      if PlainMergeable(incoming) {
        var m := Find(Mergeable(incoming.variant), lines);
        if m < |lines| {
          var merged := Priced(WithQuantity(lines[m], lines[m].terms.quantity + incoming.terms.quantity));
          if merged.Err? {
            return Err(merged.error);
          }
          return Ok(lines[m := merged.value]);
        }
      }
      var priced := Priced(incoming);
      if priced.Err? {
        return Err(priced.error);
      }
      if Has(WithLineId(incoming.id), lines) {
        return Err(UniqueViolation);
      }
      return Ok(InsertById(lines, priced.value));
    }

    method AddOrderLine(clientId: Id, lineId: Id, input: LineInput, variant: Option<Variant>)
      returns (reply: Reply)
      modifies this`sales
      ensures (View(), reply) == AddLine(old(View()), clientId, lineId, input, variant)
    {
      var parked := ParkedOrder(View(), clientId);
      if parked.Err? {
        return Failed(parked.error);
      }
      var i := parked.value;
      if variant.None? {
        return Failed(NotSellable);
      }
      var lines := MergeLine(sales[i].lines, NewLine(lineId, input, variant.value));
      reply := StoreResult(i, lines);
    }

    method StoreResult(i: nat, lines: Result<seq<Line>, Error>) returns (reply: Reply)
      requires i < |sales|
      modifies this`sales
      ensures (View(), reply) == match lines
        case Err(e) => (old(View()), Failed(e))
        case Ok(content) => ReplaceSale(old(View()), i, WithLines(old(sales)[i], content))
    {
      if lines.Err? {
        return Failed(lines.error);
      }
      StoreLines(i, lines.value);
      return OrderReply(sales[i]);
    }

    /** Update and increment change the one line they name. */
    method ChangeOrderLine(clientId: Id, lineId: Id, edit: LineEdit) returns (reply: Reply)
      requires (edit.Change? || edit.Increment?)
      modifies this`sales
      ensures (View(), reply) == EditLine(old(View()), clientId, lineId, edit)
    {
      var parked := ParkedOrder(View(), clientId);
      if parked.Err? {
        return Failed(parked.error);
      }
      var i := parked.value;
      var lines := sales[i].lines;
      var l := Find(WithLineId(lineId), lines);
      if l == |lines| {
        return Failed(LineNotFound);
      }
      var next := if edit.Change? then Changed(lines[l], edit.change)
                  else WithQuantity(lines[l], lines[l].terms.quantity + 1);
      var priced := Priced(next);
      if priced.Err? {
        return Failed(priced.error);
      }
      StoreLines(i, lines[l := priced.value]);
      return OrderReply(sales[i]);
    }

    /** Decrement and remove may take the last line away, and then discard the order. */
    method TakeOrderLine(clientId: Id, lineId: Id, edit: LineEdit) returns (reply: Reply)
      requires (edit.Decrement? || edit.Remove?)
      modifies this`sales
      ensures (View(), reply) == EditLine(old(View()), clientId, lineId, edit)
    {
      var parked := ParkedOrder(View(), clientId);
      if parked.Err? {
        return Failed(parked.error);
      }
      var i := parked.value;
      var left := TakeLine(sales[i].lines, lineId, edit);
      if left.Err? {
        return Failed(left.error);
      }
      sales := sales[i := sales[i].(lines := left.value)];
      reply := DiscardOrRecalculate(i);
      assert left.value == [] ==> sales == Without(old(sales), i);
      assert left.value != [] ==> sales == old(sales)[i := WithLines(old(sales)[i], left.value)];
    }

    static method TakeLine(lines: seq<Line>, lineId: Id, edit: LineEdit) returns (left: Result<seq<Line>, Error>)
      requires (edit.Decrement? || edit.Remove?)
      ensures left == EditLines(lines, lineId, edit)
    {
      var l := Find(WithLineId(lineId), lines);
      if l == |lines| {
        return Err(LineNotFound);
      }
      if edit.Remove? || lines[l].terms.quantity - 1 == 0 {
        return Ok(Without(lines, l));
      }
      var priced := Priced(WithQuantity(lines[l], lines[l].terms.quantity - 1));
      if priced.Err? {
        return Err(priced.error);
      }
      return Ok(lines[l := priced.value]);
    }

    /** What is left of a parked order once a line may have gone. */
    method DiscardOrRecalculate(i: nat) returns (reply: Reply)
      requires i < |sales|
      modifies this`sales
      ensures old(sales)[i].lines == [] ==> sales == Without(old(sales), i) && reply == OrderDiscarded
      ensures old(sales)[i].lines != [] ==>
        sales == old(sales)[i := WithLines(old(sales)[i], old(sales)[i].lines)] && reply == OrderReply(sales[i])
    {
      if |sales[i].lines| == 0 {
        sales := Without(sales, i);
        return OrderDiscarded;
      }
      Recalculate(i);
      return OrderReply(sales[i]);
    }

    method CompleteOrder(clientId: Id, input: Tender, now: int) returns (reply: Reply)
      requires ParkedUnpaid()
      modifies this`sales
      ensures (View(), reply) == Complete(old(View()), clientId, input, now)
    {
      if !WellFormedTender(input) {
        return Failed(BadRequest);
      }
      var i := Find(WithClientId(clientId), sales);
      if i == |sales| || sales[i].kind != Purchase {
        return Failed(OrderNotFound);
      }
      if sales[i].status == Completed {
        return OrderReply(sales[i]);
      }
      if |sales[i].lines| == 0 {
        return Failed(EmptyOrder);
      }
      if !DayIsOpen(days, sales[i].day) {
        return Failed(NoOpenDay);
      }
      var settlement := ValidateTender(sales[i].totals.total, input);
      if settlement.Err? {
        return Failed(BadTender(settlement.error));
      }
      assert sales[i] in sales;
      sales := sales[i := sales[i].(
        status := Completed, tip := input.tip, received := settlement.value, owed := input.owed,
        completedAt := Some(now))];
      WritePayments(i, input.payments);
      assert sales == old(sales)[i := sales[i]];
      return OrderReply(sales[i]);
    }

    method WritePayments(i: nat, payments: seq<Payment>)
      requires i < |sales| && sales[i].payments == []
      modifies this`sales
      ensures sales == old(sales)[i := old(sales)[i].(payments := payments)]
    {
      for n := 0 to |payments|
        invariant sales == old(sales)[i := old(sales)[i].(payments := payments[..n])]
      {
        sales := sales[i := sales[i].(payments := sales[i].payments + [payments[n]])];
        assert payments[..n + 1] == payments[..n] + [payments[n]];
      }
      assert payments[..|payments|] == payments;
    }

    method VoidSale(originalClientId: Id, clientId: Id, saleId: Id, isAdmin: bool) returns (reply: Reply)
      modifies this`sales
      ensures (View(), reply) == VoidOrder(old(View()), originalClientId, clientId, saleId, isAdmin)
    {
      var replay := FindVoidReplay(sales, clientId, originalClientId);
      if replay.Err? {
        return Failed(replay.error);
      }
      if replay.value.Some? {
        return OrderReply(replay.value.value);
      }
      var i := Find(WithClientId(originalClientId), sales);
      if i == |sales| || sales[i].kind != Purchase {
        return Failed(OrderNotFound);
      }
      var original := sales[i];
      if original.status != Completed {
        return Failed(NotCompleted);
      }
      if Has(Voiding(original.id), sales) {
        return Failed(AlreadyVoided);
      }
      var d := Find(OpenNow(), days);
      if d == |days| {
        return Failed(NoOpenDay);
      }
      if !isAdmin && original.day != days[d].id {
        return Failed(StaffVoidOpenDayOnly);
      }
      if Has(WithSaleId(saleId), sales) {
        return Failed(UniqueViolation);
      }
      var lines, payments := [], [];
      for n := 0 to |original.lines|
        invariant |lines| == n && forall k | 0 <= k < n :: lines[k] == NegatedLine()(original.lines[k])
      {
        lines := lines + [NegatedLine()(original.lines[n])];
      }
      for n := 0 to |original.payments|
        invariant |payments| == n
        invariant forall k | 0 <= k < n :: payments[k] == NegatedPayment()(original.payments[k])
      {
        payments := payments + [NegatedPayment()(original.payments[n])];
      }
      assert lines == Map(NegatedLine(), original.lines);
      assert payments == Map(NegatedPayment(), original.payments);
      var last := LastNumber(sales, days[d].id);
      var row := Sale(saleId, clientId, days[d].id, Void, Some(original.id), last + 1, Completed,
                      original.customer, original.service, NegatedTotals(original.totals),
                      0, None, 0, None, None, lines, payments);
      sales := sales + [row];
      return OrderReply(row);
    }

    method SettleOrder(clientId: Id, now: int) returns (reply: Reply)
      modifies this`sales
      ensures (View(), reply) == SettleChange(old(View()), clientId, now)
    {
      var i := Find(WithClientId(clientId), sales);
      if i == |sales| || sales[i].kind != Purchase {
        return Failed(OrderNotFound);
      }
      if sales[i].status != Completed {
        return Failed(NotCompleted);
      }
      if sales[i].owed <= 0 {
        return Failed(NoChangeOwed);
      }
      if sales[i].settledAt.None? {
        sales := sales[i := sales[i].(settledAt := Some(now))];
      }
      return OrderReply(sales[i]);
    }

    // ----- trading days

    method Open(dayId: Id, date: int, openingFloat: int, openerActive: bool, now: int)
      returns (reply: Reply)
      modifies this`days
      ensures (View(), reply) == OpenDay(old(View()), dayId, date, openingFloat, openerActive, now)
    {
      if !Safe(openingFloat) || openingFloat < 0 {
        return Failed(BadRequest);
      }
      if Has(OpenNow(), days) {
        return Failed(DayAlreadyOpen);
      }
      if Has(OnDate(date), days) {
        return Failed(DateAlreadyUsed);
      }
      if !openerActive {
        return Failed(BadRequest);
      }
      if Has(WithDayId(dayId), days) {
        return Failed(DayAlreadyOpen);
      }
      var day := Day(dayId, date, true, openingFloat, now);
      days := days + [day];
      return DayReply(day);
    }

    method Close(closingId: Id, countId: Id, actual: int, closerActive: bool, now: int)
      returns (reply: Reply)
      modifies this`days, this`counts, this`closings
      ensures (View(), reply) == CloseDay(old(View()), closingId, countId, actual, closerActive, now)
    {
      if !Safe(actual) || actual < 0 {
        return Failed(BadRequest);
      }
      var replay := Find(WithClosingId(closingId), closings);
      if replay < |closings| {
        return ClosingReply(closings[replay]);
      }
      var d := Find(OpenNow(), days);
      if d == |days| {
        return Failed(NoOpenDay);
      }
      if !closerActive {
        return Failed(BadRequest);
      }
      var day := days[d];
      var cash := CalculateCash(View(), day, false, Some(actual));
      if cash.None? || cash.value.variance.None? {
        return Failed(UnsafeMoney);
      }
      if exists c | c in counts :: c.id == countId {
        return Failed(UniqueViolation);
      }
      days := days[d := day.(isOpen := false)];
      counts := counts + [CashCount(countId, day.id, actual, now)];
      var closing := Closing(closingId, day.id, countId, day.openingFloat, cash.value.figures,
                             cash.value.expected, actual, cash.value.variance.value);
      closings := closings + [closing];
      return ClosingReply(closing);
    }

    method RecordCash(input: MovementInput) returns (reply: Reply)
      modifies this`movements
      ensures (View(), reply) == RecordMovement(old(View()), input)
    {
      if !ValidMovement(input) {
        return Failed(BadRequest);
      }
      var replay := Find(WithMovementId(input.id), movements);
      if replay < |movements| {
        return MovementReply(movements[replay]);
      }
      var d := Find(OpenNow(), days);
      if d == |days| {
        return Failed(NoOpenDay);
      }
      if input.recorder == Some(false) {
        return Failed(BadRequest);
      }
      var row := MovementRow(input, days[d].id, None);
      movements := movements + [row];
      return MovementReply(row);
    }

    method AmendCash(targetId: Id, input: MovementInput) returns (reply: Reply)
      modifies this`movements
      ensures (View(), reply) == AmendMovement(old(View()), targetId, input)
    {
      if !ValidMovement(input) {
        return Failed(BadRequest);
      }
      var replay := Find(WithMovementId(input.id), movements);
      if replay < |movements| {
        return MovementReply(movements[replay]);
      }
      var t := Find(WithMovementId(targetId), movements);
      if t == |movements| {
        return Failed(MovementNotFound);
      }
      if !DayIsOpen(days, movements[t].day) {
        return Failed(MovementOfClosedDay);
      }
      if Superseded(movements, targetId) {
        return Failed(AlreadySuperseded);
      }
      if input.recorder == Some(false) {
        return Failed(BadRequest);
      }
      var row := MovementRow(input, movements[t].day, Some(targetId));
      movements := movements + [row];
      return MovementReply(row);
    }

    // ----- one request after another

    lemma ValidIsUnpaid()
      requires Valid()
      ensures ParkedUnpaid()
    {
      forall s | s in sales && s.status == Parked
        ensures s.payments == []
      {
        VoidIsCompleted(sales, s);
      }
    }

    method HandleOrder(r: Request) returns (reply: Reply)
      requires r.CreateOrder? || r.RenameOrder? || r.AddOrderLine? || r.EditOrderLine?
      modifies this`sales
      ensures (View(), reply) == Step(old(View()), r)
    {
      ghost var before := View();
      if r.CreateOrder? {
        CreateOrderStep(before, r);
        reply := CreateOrder(r.clientId, r.saleId, r.lineId, r.input, r.variant, r.customer, r.service);
      } else if r.RenameOrder? {
        RenameOrderStep(before, r);
        reply := RenameOrder(r.clientId, r.newCustomer, r.newService);
      } else if r.AddOrderLine? {
        AddOrderLineStep(before, r);
        reply := AddOrderLine(r.clientId, r.lineId, r.input, r.variant);
      } else {
        EditOrderLineStep(before, r);
        if r.edit.Decrement? || r.edit.Remove? {
          reply := TakeOrderLine(r.clientId, r.lineId, r.edit);
        } else {
          reply := ChangeOrderLine(r.clientId, r.lineId, r.edit);
        }
      }
    }

    method HandleSettlement(r: Request) returns (reply: Reply)
      requires ParkedUnpaid()
      requires r.CompleteOrder? || r.SettleOrder? || r.VoidSale?
      modifies this`sales
      ensures (View(), reply) == Step(old(View()), r)
    {
      ghost var before := View();
      if r.CompleteOrder? {
        CompleteOrderStep(before, r);
        reply := CompleteOrder(r.clientId, r.tender, r.now);
      } else if r.SettleOrder? {
        SettleOrderStep(before, r);
        reply := SettleOrder(r.clientId, r.now);
      } else {
        VoidSaleStep(before, r);
        reply := VoidSale(r.clientId, r.voidClientId, r.saleId, r.isAdmin);
      }
    }

    method HandleDay(r: Request) returns (reply: Reply)
      requires r.Open? || r.Close? || r.Record? || r.Amend?
      modifies this
      ensures (View(), reply) == Step(old(View()), r)
    {
      ghost var before := View();
      if r.Open? {
        OpenStep(before, r);
        reply := Open(r.dayId, r.date, r.openingFloat, r.openerActive, r.now);
      } else if r.Close? {
        CloseStep(before, r);
        reply := Close(r.closingId, r.countId, r.actual, r.closerActive, r.now);
      } else if r.Record? {
        RecordStep(before, r);
        reply := RecordCash(r.movement);
      } else {
        AmendStep(before, r);
        reply := AmendCash(r.targetId, r.movement);
      }
    }

    /** Whatever request comes, the tables stay sound, move as the ledger says, and the cash expected
        in every drawer moves by exactly what the request did at it. */
    method Handle(r: Request) returns (reply: Reply)
      requires Valid()
      modifies this
      ensures Valid()
      ensures (View(), reply) == Step(old(View()), r)
      ensures forall day ::
        ExpectedCash(View(), day) == ExpectedCash(old(View()), day) + Effect(CashEventOf(old(View()), r), day)
    {
      ghost var before := View();
      ValidIsUnpaid();
      if r.CreateOrder? || r.RenameOrder? || r.AddOrderLine? || r.EditOrderLine? {
        reply := HandleOrder(r);
      } else if r.CompleteOrder? || r.SettleOrder? || r.VoidSale? {
        reply := HandleSettlement(r);
      } else {
        reply := HandleDay(r);
      }
      SteppedSoundly(before, r, View(), reply);
    }
  }

  lemma SteppedSoundly(before: State, r: Request, after: State, reply: Reply)
    requires Inv(before) && (after, reply) == Step(before, r)
    ensures Inv(after)
    ensures forall day ::
      ExpectedCash(after, day) == ExpectedCash(before, day) + Effect(CashEventOf(before, r), day)
  {
    NextIsStep(before, r);
    StepKeepsInv(before, r);
    forall day
      ensures ExpectedCash(after, day) == ExpectedCash(before, day) + Effect(CashEventOf(before, r), day)
    {
      StepMovesDrawer(before, r, day);
    }
  }

  lemma NextIsStep(st: State, r: Request)
    ensures Next(st, r) == Step(st, r).0
  {
  }
}
