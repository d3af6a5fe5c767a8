/** The reason given for a refusal always holds. */
module Refusals {
  import opened Tables
  import opened Money
  import opened Store
  import opened Orders
  import opened TradingDays
  import opened Lines
  import opened LineEdits
  import opened Ledger
  import opened Tenders
  import opened Acceptance

  // ----- lines and tenders

  predicate LineFault(t: LineTerms, e: LineError)
  {
    match e
    case BadQuantity => !(1 <= t.quantity <= MAX_SAFE)
    case BadUpsizeCount => !(0 <= t.upsizes <= t.quantity)
    case NotEligible => t.upsizes > 0 && !t.upsizeEligible
    case LineTooLarge => !Safe(t.unitPrice * t.quantity)
    case UpsizeExceedsGross => 3_000 * t.upsizes > t.unitPrice * t.quantity
  }

  lemma LineFaultHolds(t: LineTerms)
    ensures CalculateLineAmounts(t).Err? ==> LineFault(t, CalculateLineAmounts(t).error)
  {
  }

  predicate TenderFault(total: int, t: Tender, e: TenderError)
  {
    var cash := Portion(Cash, t.payments);
    match e
    case NoPayment => t.payments == []
    case RepeatedMethod => !OneOfEach(t.payments)
    case BadPortion => exists p | p in t.payments :: !(0 <= p.amount <= MAX_SAFE)
    case WrongTotal => Sum(AmountOf(), t.payments) != total
    case BadTip => !(0 <= t.tip <= MAX_SAFE)
    case OnlineWithCash => cash == 0 && t.received.Some?
    case OnlineWithChange => cash == 0 && t.owed != 0
    case TooLittleCash => cash != 0 && t.received.Some? && t.received.value < cash
    case TooMuchOwed => cash != 0 && t.owed > (if t.received.Some? then t.received.value else cash) - cash
  }

  lemma TenderFaultHolds(total: int, t: Tender)
    ensures ValidateTender(total, t).Err? ==> TenderFault(total, t, ValidateTender(total, t).error)
  {
    EachMethodOnce(t.payments);
  }

  // ----- orders

  predicate NoOrder(st: State, clientId: Id)
  {
    forall s | s in st.sales && s.clientId == clientId :: s.kind != Purchase
  }

  ghost predicate OrderIs(st: State, clientId: Id, status: OrderStatus)
  {
    exists s :: OrderOf(st, clientId, s) && s.status == status
  }

  ghost predicate DayIsOver(st: State, clientId: Id)
  {
    exists s :: OrderOf(st, clientId, s) && s.status == Parked && !IsOpen(st.days, s.day)
  }

  /** Why a parked order could not be changed. */
  ghost predicate NotParked(st: State, clientId: Id, e: Error)
  {
    match e
    case OrderNotFound => NoOrder(st, clientId)
    case OrderFrozen => OrderIs(st, clientId, Completed)
    case NoOpenDay => DayIsOver(st, clientId)
    case _ => false
  }

  lemma ParkedRefused(st: State, clientId: Id)
    requires Inv(st) && ParkedOrder(st, clientId).Err?
    ensures NotParked(st, clientId, ParkedOrder(st, clientId).error)
  {
    SaleOfClient(st.sales, clientId);
    var i := Find(WithClientId(clientId), st.sales);
    if i < |st.sales| && st.sales[i].kind == Purchase {
      DayOpenIff(st.days, st.sales[i].day);
      assert OrderOf(st, clientId, st.sales[i]);
    }
  }

  ghost predicate WhyNotCreated(st: State, saleId: Id, input: LineInput, variant: Option<Variant>, e: Error)
  {
    match e
    case NoOpenDay => !AnyOpen(st.days)
    case NotSellable => variant.None?
    case BadLine(fault) => variant.Some? && LineFault(TermsAsked(input, variant.value), fault)
    case UniqueViolation => RowUsed(st.sales, saleId)
    case _ => false
  }

  lemma CreateFails(st: State, clientId: Id, saleId: Id, lineId: Id, input: LineInput,
                    variant: Option<Variant>, customer: Option<string>, service: ServiceType)
    requires Create(st, clientId, saleId, lineId, input, variant, customer, service).1.Failed?
    ensures var e := Create(st, clientId, saleId, lineId, input, variant, customer, service).1.error;
      || (e == NoOpenDay && Find(OpenNow(), st.days) == |st.days|) || (e == NotSellable && variant.None?)
      || (variant.Some? && Priced(NewLine(lineId, input, variant.value)) == Err(e))
      || (e == UniqueViolation && Has(WithSaleId(saleId), st.sales))
  {
  }

  lemma CreateRefused(st: State, r: Request)
    requires r.CreateOrder? && Step(st, r).1.Failed?
    ensures WhyNotCreated(st, r.saleId, r.input, r.variant, Step(st, r).1.error)
  {
    CreateOrderStep(st, r);
    CreateFails(st, r.clientId, r.saleId, r.lineId, r.input, r.variant, r.customer, r.service);
    OpenIff(st.days);
    UsedIffs(st, r.saleId, 0);
    if r.variant.Some? {
      PricingFails(NewLine(r.lineId, r.input, r.variant.value));
    }
  }

  lemma RenameRefused(st: State, r: Request)
    requires Inv(st) && r.RenameOrder? && Step(st, r).1.Failed?
    ensures NotParked(st, r.clientId, Step(st, r).1.error)
  {
    RenameOrderStep(st, r);
    ParkedIff(st, r.clientId);
    if ParkedOrder(st, r.clientId).Err? {
      ParkedRefused(st, r.clientId);
    }
  }

  /** Why a line could not be added: the line it would join, or itself, is at fault, or its id is used. */
  ghost predicate WhyNotAdded(lines: seq<Line>, id: Id, input: LineInput, size: Variant, e: Error)
  {
    match e
    case BadLine(fault) =>
      || LineFault(TermsAsked(input, size), fault)
      || exists l | l in lines && Plain(l) && l.variant == size.id ::
           LineFault(l.terms.(quantity := l.terms.quantity + input.quantity), fault)
    case UniqueViolation => exists l | l in lines :: l.id == id
    case _ => false
  }

  lemma AddRefused(lines: seq<Line>, id: Id, input: LineInput, size: Variant)
    requires AddToLines(lines, NewLine(id, input, size)).Err?
    ensures WhyNotAdded(lines, id, input, size, AddToLines(lines, NewLine(id, input, size)).error)
  {
    var incoming := NewLine(id, input, size);
    LineFound(lines, id);
    var i := Find(Mergeable(incoming.variant), lines);
    if PlainMergeable(incoming) && i < |lines| {
      var r := MergedResult(lines, incoming, i);
      assert lines[i] in lines;
      PricingFails(WithQuantity(lines[i], lines[i].terms.quantity + input.quantity));
    } else {
      ApartResult(lines, incoming);
      PricingFails(incoming);
    }
  }

  lemma PricingFails(l: Line)
    ensures Priced(l).Err? ==> Priced(l).error.BadLine? && LineFault(l.terms, Priced(l).error.line)
  {
    LineFaultHolds(l.terms);
  }

  lemma ApartResult(lines: seq<Line>, incoming: Line)
    requires PlainMergeable(incoming) ==> Find(Mergeable(incoming.variant), lines) == |lines|
    requires AddToLines(lines, incoming).Err?
    ensures var e := AddToLines(lines, incoming).error;
      Priced(incoming) == Err(e) || (e == UniqueViolation && Has(WithLineId(incoming.id), lines))
  {
  }

  ghost predicate WhyNotEdited(lines: seq<Line>, lineId: Id, edit: LineEdit, e: Error)
  {
    match e
    case LineNotFound => forall l | l in lines :: l.id != lineId
    case BadLine(fault) =>
      exists l, now | l in lines && l.id == lineId && Becomes(l, now, edit) :: LineFault(now.terms, fault)
    case _ => false
  }

  lemma EditRefused(lines: seq<Line>, lineId: Id, edit: LineEdit)
    requires EditLines(lines, lineId, edit).Err?
    ensures WhyNotEdited(lines, lineId, edit, EditLines(lines, lineId, edit).error)
  {
    EditFound(lines, lineId, edit);
    LineFound(lines, lineId);
    var i := Find(WithLineId(lineId), lines);
    if i < |lines| && !Takes(lines[i], edit) {
      assert lines[i] in lines;
      DraftBecomes(lines[i], edit);
      LineFaultHolds(Drafted(lines[i], edit).terms);
    }
  }

  lemma AddLineFails(st: State, clientId: Id, lineId: Id, input: LineInput, variant: Option<Variant>)
    requires ParkedOrder(st, clientId).Ok? && ParkedOrder(st, clientId).value < |st.sales|
    requires AddLine(st, clientId, lineId, input, variant).1.Failed?
    ensures var e := AddLine(st, clientId, lineId, input, variant).1.error;
      if variant.None? then e == NotSellable
      else
        var r := AddToLines(st.sales[ParkedOrder(st, clientId).value].lines, NewLine(lineId, input, variant.value));
        r.Err? && r.error == e
  {
  }

  lemma AddLineRefused(st: State, r: Request)
    requires Inv(st) && r.AddOrderLine? && Step(st, r).1.Failed?
    ensures var e := Step(st, r).1.error;
      || NotParked(st, r.clientId, e) || (e == NotSellable && r.variant.None?)
      || (r.variant.Some? && exists s ::
            ParkedOn(st, r.clientId, s) && WhyNotAdded(s.lines, r.lineId, r.input, r.variant.value, e))
  {
    AddOrderLineStep(st, r);
    ParkedIff(st, r.clientId);
    if ParkedOrder(st, r.clientId).Err? {
      ParkedRefused(st, r.clientId);
    } else {
      AddLineFails(st, r.clientId, r.lineId, r.input, r.variant);
      if r.variant.Some? {
        AddRefused(st.sales[ParkedOrder(st, r.clientId).value].lines, r.lineId, r.input, r.variant.value);
      }
    }
  }

  lemma EditLineFails(st: State, clientId: Id, lineId: Id, edit: LineEdit)
    requires ParkedOrder(st, clientId).Ok? && ParkedOrder(st, clientId).value < |st.sales|
    requires EditLine(st, clientId, lineId, edit).1.Failed?
    ensures EditLines(st.sales[ParkedOrder(st, clientId).value].lines, lineId, edit)
      == Err(EditLine(st, clientId, lineId, edit).1.error)
  {
  }

  lemma EditLineRefused(st: State, r: Request)
    requires Inv(st) && r.EditOrderLine? && Step(st, r).1.Failed?
    ensures var e := Step(st, r).1.error;
      || NotParked(st, r.clientId, e)
      || exists s :: ParkedOn(st, r.clientId, s) && WhyNotEdited(s.lines, r.lineId, r.edit, e)
  {
    EditOrderLineStep(st, r);
    ParkedIff(st, r.clientId);
    if ParkedOrder(st, r.clientId).Err? {
      ParkedRefused(st, r.clientId);
    } else {
      EditLineFails(st, r.clientId, r.lineId, r.edit);
      EditRefused(st.sales[ParkedOrder(st, r.clientId).value].lines, r.lineId, r.edit);
    }
  }

  ghost predicate WhyNotCompleted(st: State, clientId: Id, t: Tender, e: Error)
  {
    match e
    case BadRequest => !NoneNegative(t)
    case OrderNotFound => NoOrder(st, clientId)
    case NoOpenDay => DayIsOver(st, clientId)
    case BadTender(fault) => exists s :: OrderOf(st, clientId, s) && TenderFault(s.totals.total, t, fault)
    case _ => false
  }

  lemma CompleteFails(st: State, clientId: Id, t: Tender, now: int)
    requires Complete(st, clientId, t, now).1.Failed?
    ensures var i := Find(WithClientId(clientId), st.sales);
      match Complete(st, clientId, t, now).1.error
      case BadRequest => !WellFormedTender(t)
      case OrderNotFound => i == |st.sales| || st.sales[i].kind != Purchase
      case EmptyOrder => i < |st.sales| && st.sales[i].kind == Purchase && st.sales[i].lines == []
      case NoOpenDay =>
        i < |st.sales| && st.sales[i].kind == Purchase && st.sales[i].status == Parked
        && !DayIsOpen(st.days, st.sales[i].day)
      case BadTender(fault) =>
        i < |st.sales| && st.sales[i].kind == Purchase
        && ValidateTender(st.sales[i].totals.total, t) == Err(fault)
      case _ => false
  {
  }

  lemma CompleteRefused(st: State, r: Request)
    requires Inv(st) && r.CompleteOrder? && Step(st, r).1.Failed?
    ensures WhyNotCompleted(st, r.clientId, r.tender, Step(st, r).1.error)
  {
    CompleteOrderStep(st, r);
    CompleteFails(st, r.clientId, r.tender, r.now);
    SaleOfClient(st.sales, r.clientId);
    var i := Find(WithClientId(r.clientId), st.sales);
    if i < |st.sales| && st.sales[i].kind == Purchase {
      assert OrderOf(st, r.clientId, st.sales[i]) && PurchaseOk(st.sales[i]);
      DayOpenIff(st.days, st.sales[i].day);
      TenderFaultHolds(st.sales[i].totals.total, r.tender);
    }
  }

  ghost predicate WhyNotSettled(st: State, clientId: Id, e: Error)
  {
    match e
    case OrderNotFound => NoOrder(st, clientId)
    case NotCompleted => OrderIs(st, clientId, Parked)
    case NoChangeOwed => exists s :: OrderOf(st, clientId, s) && s.status == Completed && s.owed <= 0
    case _ => false
  }

  lemma SettleFails(st: State, clientId: Id, now: int)
    requires SettleChange(st, clientId, now).1.Failed?
    ensures var i := Find(WithClientId(clientId), st.sales);
      match SettleChange(st, clientId, now).1.error
      case OrderNotFound => i == |st.sales| || st.sales[i].kind != Purchase
      case NotCompleted => i < |st.sales| && st.sales[i].kind == Purchase && st.sales[i].status == Parked
      case NoChangeOwed =>
        i < |st.sales| && st.sales[i].kind == Purchase && st.sales[i].status == Completed && st.sales[i].owed <= 0
      case _ => false
  {
  }

  lemma SettleRefused(st: State, r: Request)
    requires Inv(st) && r.SettleOrder? && Step(st, r).1.Failed?
    ensures WhyNotSettled(st, r.clientId, Step(st, r).1.error)
  {
    SettleOrderStep(st, r);
    SettleFails(st, r.clientId, r.now);
    SaleOfClient(st.sales, r.clientId);
    var i := Find(WithClientId(r.clientId), st.sales);
    if i < |st.sales| && st.sales[i].kind == Purchase {
      assert OrderOf(st, r.clientId, st.sales[i]);
    }
  }

  ghost predicate WhyNotVoided(st: State, clientId: Id, voidClientId: Id, saleId: Id, isAdmin: bool, e: Error)
  {
    match e
    case VoidIdInUse => UsedBy(st.sales, voidClientId) && !exists v :: VoidOf(st, clientId, voidClientId, v)
    case OrderNotFound => NoOrder(st, clientId)
    case NotCompleted => OrderIs(st, clientId, Parked)
    case AlreadyVoided => exists o :: OrderOf(st, clientId, o) && VoidedIn(st.sales, o.id)
    case NoOpenDay => !AnyOpen(st.days)
    case StaffVoidOpenDayOnly => !isAdmin && exists o :: OrderOf(st, clientId, o) && !IsOpen(st.days, o.day)
    case UniqueViolation => RowUsed(st.sales, saleId)
    case _ => false
  }

  lemma VoidFails(st: State, clientId: Id, voidClientId: Id, saleId: Id, isAdmin: bool)
    requires VoidOrder(st, clientId, voidClientId, saleId, isAdmin).1.Failed?
    ensures var e := VoidOrder(st, clientId, voidClientId, saleId, isAdmin).1.error;
      var found := FindVoidReplay(st.sales, voidClientId, clientId);
      var i, d := Find(WithClientId(clientId), st.sales), Find(OpenNow(), st.days);
      match e
      case VoidIdInUse => found.Err?
      case OrderNotFound => i == |st.sales| || st.sales[i].kind != Purchase
      case NotCompleted => i < |st.sales| && st.sales[i].kind == Purchase && st.sales[i].status == Parked
      case AlreadyVoided =>
        i < |st.sales| && st.sales[i].kind == Purchase && Has(Voiding(st.sales[i].id), st.sales)
      case NoOpenDay => d == |st.days|
      case StaffVoidOpenDayOnly =>
        !isAdmin && i < |st.sales| && st.sales[i].kind == Purchase
        && d < |st.days| && st.sales[i].day != st.days[d].id
      case UniqueViolation => Has(WithSaleId(saleId), st.sales)
      case _ => false
  {
  }

  lemma OtherDayIsOver(st: State, day: Id)
    requires DaysInv(st.days)
    ensures var d := Find(OpenNow(), st.days);
      d < |st.days| && day != st.days[d].id ==> !IsOpen(st.days, day)
  {
    OnlyOpenDay(st.days);
  }

  lemma VoidRefused(st: State, r: Request)
    requires Inv(st) && r.VoidSale? && Step(st, r).1.Failed?
    ensures WhyNotVoided(st, r.clientId, r.voidClientId, r.saleId, r.isAdmin, Step(st, r).1.error)
  {
    VoidSaleStep(st, r);
    VoidFails(st, r.clientId, r.voidClientId, r.saleId, r.isAdmin);
    VoidReplayIff(st, r.clientId, r.voidClientId);
    OpenIff(st.days);
    UsedIffs(st, r.saleId, 0);
    SaleOfClient(st.sales, r.clientId);
    var i := Find(WithClientId(r.clientId), st.sales);
    if i < |st.sales| && st.sales[i].kind == Purchase {
      assert OrderOf(st, r.clientId, st.sales[i]);
      UsedIffs(st, st.sales[i].id, 0);
      OtherDayIsOver(st, st.sales[i].day);
    }
  }

  // ----- days and movements

  predicate WhyNotOpened(st: State, dayId: Id, date: int, openingFloat: int, openerActive: bool, e: Error)
  {
    match e
    case BadRequest => !openerActive || !(0 <= openingFloat <= MAX_SAFE)
    case DayAlreadyOpen => AnyOpen(st.days) || exists d | d in st.days :: d.id == dayId
    case DateAlreadyUsed => exists d | d in st.days :: d.date == date
    case _ => false
  }

  lemma OpenRefused(st: State, r: Request)
    requires r.Open? && Step(st, r).1.Failed?
    ensures WhyNotOpened(st, r.dayId, r.date, r.openingFloat, r.openerActive, Step(st, r).1.error)
  {
    OpenStep(st, r);
    OpenIff(st.days);
    HasIff(OnDate(r.date), st.days);
    HasIff(WithDayId(r.dayId), st.days);
  }

  predicate WhyNotClosed(st: State, countId: Id, actual: int, closerActive: bool, e: Error)
  {
    match e
    case BadRequest => !closerActive || !(0 <= actual <= MAX_SAFE)
    case NoOpenDay => !AnyOpen(st.days)
    case UnsafeMoney => forall d | d in st.days && d.isOpen :: !SafeToClose(st, d, actual)
    case UniqueViolation => exists c | c in st.counts :: c.id == countId
    case _ => false
  }

  lemma CloseFails(st: State, closingId: Id, countId: Id, actual: int, closerActive: bool, now: int)
    requires CloseDay(st, closingId, countId, actual, closerActive, now).1.Failed?
    ensures var d := Find(OpenNow(), st.days);
      match CloseDay(st, closingId, countId, actual, closerActive, now).1.error
      case BadRequest => !closerActive || !(0 <= actual <= MAX_SAFE)
      case NoOpenDay => d == |st.days|
      case UnsafeMoney => Safe(actual) && d < |st.days| && CalculateCash(st, st.days[d], false, Some(actual)).None?
      case UniqueViolation => exists c | c in st.counts :: c.id == countId
      case _ => false
  {
  }

  lemma CloseRefused(st: State, r: Request)
    requires Inv(st) && r.Close? && Step(st, r).1.Failed?
    ensures WhyNotClosed(st, r.countId, r.actual, r.closerActive, Step(st, r).1.error)
  {
    CloseStep(st, r);
    CloseFails(st, r.closingId, r.countId, r.actual, r.closerActive, r.now);
    OnlyOpenDay(st.days);
    var d := Find(OpenNow(), st.days);
    if d < |st.days| && Safe(r.actual) {
      CashSafeIff(st, st.days[d], r.actual);
    }
  }

  predicate WhyNotRecorded(st: State, input: MovementInput, e: Error)
  {
    match e
    case BadRequest => !GoodMovement(input) || input.recorder == Some(false)
    case NoOpenDay => !AnyOpen(st.days)
    case _ => false
  }

  lemma RecordRefused(st: State, r: Request)
    requires r.Record? && Step(st, r).1.Failed?
    ensures WhyNotRecorded(st, r.movement, Step(st, r).1.error)
  {
    RecordStep(st, r);
    OpenIff(st.days);
  }

  predicate WhyNotAmended(st: State, targetId: Id, input: MovementInput, e: Error)
  {
    match e
    case BadRequest => !GoodMovement(input) || input.recorder == Some(false)
    case MovementNotFound => !MovementUsed(st.movements, targetId)
    case MovementOfClosedDay => exists m | m in st.movements && m.id == targetId :: !IsOpen(st.days, m.day)
    case AlreadySuperseded => AmendedIn(st.movements, targetId)
    case _ => false
  }

  lemma AmendRefused(st: State, r: Request)
    requires Inv(st) && r.Amend? && Step(st, r).1.Failed?
    ensures WhyNotAmended(st, r.targetId, r.movement, Step(st, r).1.error)
  {
    AmendStep(st, r);
    UsedIffs(st, 0, r.targetId);
    var t := Find(WithMovementId(r.targetId), st.movements);
    if t < |st.movements| {
      assert st.movements[t] in st.movements;
      DayOpenIff(st.days, st.movements[t].day);
    }
  }

  // ----- every request

  ghost predicate Why(st: State, r: Request, e: Error)
  {
    match r
    case CreateOrder(_, s, _, input, v, _, _) => WhyNotCreated(st, s, input, v, e)
    case RenameOrder(c, _, _) => NotParked(st, c, e)
    case AddOrderLine(c, l, input, v) =>
      || NotParked(st, c, e) || (e == NotSellable && v.None?)
      || (v.Some? && exists s :: ParkedOn(st, c, s) && WhyNotAdded(s.lines, l, input, v.value, e))
    case EditOrderLine(c, l, edit) =>
      NotParked(st, c, e) || exists s :: ParkedOn(st, c, s) && WhyNotEdited(s.lines, l, edit, e)
    case CompleteOrder(c, t, _) => WhyNotCompleted(st, c, t, e)
    case SettleOrder(c, _) => WhyNotSettled(st, c, e)
    case VoidSale(c, v, s, admin) => WhyNotVoided(st, c, v, s, admin, e)
    case Open(d, date, float, active, _) => WhyNotOpened(st, d, date, float, active, e)
    case Close(_, k, actual, active, _) => WhyNotClosed(st, k, actual, active, e)
    case Record(m) => WhyNotRecorded(st, m, e)
    case Amend(t, m) => WhyNotAmended(st, t, m, e)
  }

  /** Whatever a request is refused for is so. */
  lemma RefusalsHold(st: State, r: Request)
    requires Inv(st) && Step(st, r).1.Failed?
    ensures Why(st, r, Step(st, r).1.error)
  {
    match r
    case CreateOrder(_, _, _, _, _, _, _) => CreateRefused(st, r);
    case RenameOrder(_, _, _) => RenameRefused(st, r);
    case AddOrderLine(_, _, _, _) => AddLineRefused(st, r);
    case EditOrderLine(_, _, _) => EditLineRefused(st, r);
    case CompleteOrder(_, _, _) => CompleteRefused(st, r);
    case SettleOrder(_, _) => SettleRefused(st, r);
    case VoidSale(_, _, _, _) => VoidRefused(st, r);
    case Open(_, _, _, _, _) => OpenRefused(st, r);
    case Close(_, _, _, _, _) => CloseRefused(st, r);
    case Record(_) => RecordRefused(st, r);
    case Amend(_, _) => AmendRefused(st, r);
  }
}
