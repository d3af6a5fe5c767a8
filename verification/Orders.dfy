/** The order service: every operation is one transaction from a store to a store and a reply. */
module Orders {
  import opened Tables
  import opened Money
  import opened Store

  /** What a client sends for one line; absent fields carry their defaults. */
  datatype LineInput = LineInput(
    quantity: int, discount: DiscountKind, preferences: seq<Preference>, note: Option<string>,
    upsizes: int)

  /** A product size that may be sold now, as the catalog answers. */
  datatype Variant = Variant(id: Id, price: int, servings: Servings, upsizeEligible: bool)

  datatype LineChange = LineChange(
    quantity: Option<int>, discount: Option<DiscountKind>, preferences: Option<seq<Preference>>,
    note: Option<Option<string>>, upsizes: Option<int>)

  datatype Tender = Tender(payments: seq<Payment>, received: Option<int>, tip: int, owed: int)

  function OrElse<T>(change: Option<T>, current: T): T
  {
    if change.Some? then change.value else current
  }

  // ----- lines

  const PREFERENCE_ORDER: seq<Preference> := [Sweeter, Stronger, LessSweet, LessIce]

  function NormalizePreferences(preferences: seq<Preference>): seq<Preference>
  {
    Filter((p: Preference) => p in preferences, PREFERENCE_ORDER)
  }

  predicate PlainMergeable(line: Line)
  {
    && line.terms.discount == NoDiscount
    && line.preferences == []
    && line.note.None?
    && line.terms.upsizes == 0
  }

  function Mergeable(variant: Id): Line -> bool
  {
    (l: Line) => l.variant == variant && PlainMergeable(l)
  }

  function Priced(line: Line): Result<Line, Error>
  {
    match CalculateLineAmounts(line.terms)
    case Ok(amounts) => Ok(line.(amounts := amounts))
    case Err(e) => Err(BadLine(e))
  }

  function NewLine(id: Id, input: LineInput, variant: Variant): Line
  {
    Line(id, variant.id,
         LineTerms(input.quantity, variant.price, input.discount, input.upsizes,
                   variant.upsizeEligible),
         NormalizePreferences(input.preferences), input.note, variant.servings,
         LineAmounts(0, 0, 0, 0))
  }

  /** Lines are read back in the order of their ids. */
  function InsertById(lines: seq<Line>, line: Line): seq<Line>
  {
    if lines == [] || line.id < lines[0].id then [line] + lines
    else [lines[0]] + InsertById(lines[1..], line)
  }

  function WithQuantity(line: Line, quantity: int): Line
  {
    line.(terms := line.terms.(quantity := quantity))
  }

  function AddToLines(lines: seq<Line>, incoming: Line): Result<seq<Line>, Error>
  {
    var i := Find(Mergeable(incoming.variant), lines);
    if PlainMergeable(incoming) && i < |lines| then
      match Priced(WithQuantity(lines[i], lines[i].terms.quantity + incoming.terms.quantity))
      case Ok(merged) => Ok(lines[i := merged])
      case Err(e) => Err(e)
    else
      match Priced(incoming)
      case Ok(line) => if Has(WithLineId(line.id), lines) then Err(UniqueViolation)
                       else Ok(InsertById(lines, line))
      case Err(e) => Err(e)
  }

  function Changed(line: Line, change: LineChange): Line
  {
    line.(
      terms := line.terms.(
        quantity := OrElse(change.quantity, line.terms.quantity),
        discount := OrElse(change.discount, line.terms.discount),
        upsizes := OrElse(change.upsizes, line.terms.upsizes)),
      preferences := if change.preferences.Some? then NormalizePreferences(change.preferences.value)
                     else line.preferences,
      note := OrElse(change.note, line.note))
  }

  /** An edit of the one line named by the client. */
  datatype LineEdit = Change(change: LineChange) | Increment | Decrement | Remove

  function EditLines(lines: seq<Line>, lineId: Id, edit: LineEdit): Result<seq<Line>, Error>
  {
    var i := Find(WithLineId(lineId), lines);
    if i == |lines| then Err(LineNotFound)
    else if edit.Remove? || (edit.Decrement? && lines[i].terms.quantity == 1) then
      Ok(Without(lines, i))
    else
      var next := match edit
        case Change(change) => Changed(lines[i], change)
        case Increment => WithQuantity(lines[i], lines[i].terms.quantity + 1)
        case _ => WithQuantity(lines[i], lines[i].terms.quantity - 1);
      match Priced(next)
      case Ok(line) => Ok(lines[i := line])
      case Err(e) => Err(e)
  }

  // ----- tender

  function TenderOf(): Payment -> PaymentMethod { (p: Payment) => p.tender }

  function ValidateTender(total: int, input: Tender): Result<Option<int>, TenderError>
  {
    if input.payments == [] then Err(NoPayment)
    else if !Distinct(Map(TenderOf(), input.payments)) then Err(RepeatedMethod)
    else if exists p | p in input.payments :: !Safe(p.amount) || p.amount < 0 then Err(BadPortion)
    else if Sum(AmountOf(), input.payments) != total then Err(WrongTotal)
    else if !Safe(input.tip) || input.tip < 0 then Err(BadTip)
    else
      var cashTender := Portion(Cash, input.payments);
      if cashTender == 0 then
        if input.received.Some? then Err(OnlineWithCash)
        else if input.owed != 0 then Err(OnlineWithChange)
        else Ok(None)
      else
        var received := OrElse(input.received, cashTender);
        if received < cashTender then Err(TooLittleCash)
        else if input.owed > received - cashTender then Err(TooMuchOwed)
        else Ok(Some(received))
  }

  /** Request validation in front of the service: cash fields are never negative. */
  predicate WellFormedTender(input: Tender)
  {
    input.owed >= 0 && input.tip >= 0 && (input.received.Some? ==> input.received.value >= 0)
  }

  // ----- transactions

  /** A new order of one priced line, numbered after the highest of its day. */
  function ParkedSale(sales: seq<Sale>, day: Id, clientId: Id, saleId: Id, line: Line,
                      customer: Option<string>, service: ServiceType): Sale
  {
    var a := line.amounts;
    Sale(saleId, clientId, day, Purchase, None, LastNumber(sales, day) + 1, Parked, customer, service,
         Totals(a.gross, a.discount, a.freeUpsize, a.total), 0, None, 0, None, None, [line], [])
  }

  function Create(st: State, clientId: Id, saleId: Id, lineId: Id, input: LineInput,
                  variant: Option<Variant>, customer: Option<string>, service: ServiceType)
    : (State, Reply)
  {
    var replay := Find(WithClientId(clientId), st.sales);
    var d := Find(OpenNow(), st.days);
    if replay < |st.sales| then (st, OrderReply(st.sales[replay]))
    else if d == |st.days| then (st, Failed(NoOpenDay))
    else if variant.None? then (st, Failed(NotSellable))
    else
      match Priced(NewLine(lineId, input, variant.value))
      case Err(e) => (st, Failed(e))
      case Ok(line) =>
        if Has(WithSaleId(saleId), st.sales) then (st, Failed(UniqueViolation))
        else
          var sale := ParkedSale(st.sales, st.days[d].id, clientId, saleId, line, customer, service);
          (st.(sales := st.sales + [sale]), OrderReply(sale))
  }

  /** The parked order a client may still change, as an index into the sales. */
  function ParkedOrder(st: State, clientId: Id): Result<nat, Error>
  {
    var i := Find(WithClientId(clientId), st.sales);
    if i == |st.sales| || st.sales[i].kind != Purchase then Err(OrderNotFound)
    else if st.sales[i].status != Parked then Err(OrderFrozen)
    else if !DayIsOpen(st.days, st.sales[i].day) then Err(NoOpenDay)
    else Ok(i)
  }

  function WithLines(sale: Sale, lines: seq<Line>): Sale
  {
    sale.(lines := lines, totals := TotalsOf(lines))
  }

  function ReplaceSale(st: State, i: nat, sale: Sale): (State, Reply)
    requires i < |st.sales|
  {
    (st.(sales := st.sales[i := sale]), OrderReply(sale))
  }

  function UpdateOrder(st: State, clientId: Id, customer: Option<Option<string>>,
                       service: Option<ServiceType>): (State, Reply)
  {
    match ParkedOrder(st, clientId)
    case Err(e) => (st, Failed(e))
    case Ok(i) =>
      if i < |st.sales| then
        var sale := st.sales[i].(
          customer := OrElse(customer, st.sales[i].customer),
          service := OrElse(service, st.sales[i].service));
        ReplaceSale(st, i, WithLines(sale, sale.lines))
      else (st, Failed(OrderNotFound))
  }

  function AddLine(st: State, clientId: Id, lineId: Id, input: LineInput, variant: Option<Variant>)
    : (State, Reply)
  {
    match ParkedOrder(st, clientId)
    case Err(e) => (st, Failed(e))
    case Ok(i) =>
      if i >= |st.sales| then (st, Failed(OrderNotFound))
      else if variant.None? then (st, Failed(NotSellable))
      else
        match AddToLines(st.sales[i].lines, NewLine(lineId, input, variant.value))
        case Err(e) => (st, Failed(e))
        case Ok(lines) => ReplaceSale(st, i, WithLines(st.sales[i], lines))
  }

  /** An order whose last line goes is discarded with it; the edits that cannot remove a line
      never leave an order empty. */
  function EditLine(st: State, clientId: Id, lineId: Id, edit: LineEdit): (State, Reply)
  {
    match ParkedOrder(st, clientId)
    case Err(e) => (st, Failed(e))
    case Ok(i) =>
      if i >= |st.sales| then (st, Failed(OrderNotFound))
      else
        match EditLines(st.sales[i].lines, lineId, edit)
        case Err(e) => (st, Failed(e))
        case Ok(lines) =>
          if lines == [] then (st.(sales := Without(st.sales, i)), OrderDiscarded)
          else ReplaceSale(st, i, WithLines(st.sales[i], lines))
  }

  function Complete(st: State, clientId: Id, input: Tender, now: int): (State, Reply)
  {
    var i := Find(WithClientId(clientId), st.sales);
    if !WellFormedTender(input) then (st, Failed(BadRequest))
    else if i == |st.sales| || st.sales[i].kind != Purchase then (st, Failed(OrderNotFound))
    else
      var sale := st.sales[i];
      if sale.status == Completed then (st, OrderReply(sale))
      else if sale.lines == [] then (st, Failed(EmptyOrder))
      else if !DayIsOpen(st.days, sale.day) then (st, Failed(NoOpenDay))
      else
        match ValidateTender(sale.totals.total, input)
        case Err(e) => (st, Failed(BadTender(e)))
        case Ok(received) =>
          ReplaceSale(st, i, sale.(
            status := Completed, tip := input.tip, received := received, owed := input.owed,
            completedAt := Some(now), payments := input.payments))
  }

  function SettleChange(st: State, clientId: Id, now: int): (State, Reply)
  {
    var i := Find(WithClientId(clientId), st.sales);
    if i == |st.sales| || st.sales[i].kind != Purchase then (st, Failed(OrderNotFound))
    else if st.sales[i].status != Completed then (st, Failed(NotCompleted))
    else if st.sales[i].owed <= 0 then (st, Failed(NoChangeOwed))
    else if st.sales[i].settledAt.Some? then (st, OrderReply(st.sales[i]))
    else ReplaceSale(st, i, st.sales[i].(settledAt := Some(now)))
  }

  // ----- voids

  function NegatedPayment(): Payment -> Payment
  {
    (p: Payment) => Payment(p.tender, -p.amount)
  }

  /** The correcting line leaves the packaging servings to their default of one. */
  function NegatedLine(): Line -> Line
  {
    (l: Line) => l.(
      terms := l.terms.(quantity := -l.terms.quantity, upsizes := -l.terms.upsizes),
      servings := 1,
      amounts := LineAmounts(-l.amounts.gross, -l.amounts.freeUpsize, -l.amounts.discount,
                             -l.amounts.total))
  }

  function NegatedTotals(t: Totals): Totals
  {
    Totals(-t.subtotal, -t.discount, -t.freeUpsize, -t.total)
  }

  function VoidRow(original: Sale, saleId: Id, clientId: Id, day: Id, number: int): Sale
  {
    Sale(saleId, clientId, day, Void, Some(original.id), number, Completed,
         original.customer, original.service, NegatedTotals(original.totals),
         0, None, 0, None, None,
         Map(NegatedLine(), original.lines), Map(NegatedPayment(), original.payments))
  }

  /** A void request id replays only the void of this very order; any other row holding the id is
      a collision. */
  function FindVoidReplay(sales: seq<Sale>, voidClientId: Id, originalClientId: Id)
    : Result<Option<Sale>, Error>
  {
    var v := Find(WithClientId(voidClientId), sales);
    var o := Find(WithClientId(originalClientId), sales);
    if v == |sales| then Ok(None)
    else if sales[v].kind == Void && o < |sales| && sales[v].corrects == Some(sales[o].id) then
      Ok(Some(sales[v]))
    else Err(VoidIdInUse)
  }

  function VoidOrder(st: State, originalClientId: Id, clientId: Id, saleId: Id, isAdmin: bool)
    : (State, Reply)
  {
    var i := Find(WithClientId(originalClientId), st.sales);
    var d := Find(OpenNow(), st.days);
    match FindVoidReplay(st.sales, clientId, originalClientId)
    case Err(e) => (st, Failed(e))
    case Ok(Some(replay)) => (st, OrderReply(replay))
    case Ok(None) =>
      if i == |st.sales| || st.sales[i].kind != Purchase then (st, Failed(OrderNotFound))
      else if st.sales[i].status != Completed then (st, Failed(NotCompleted))
      else if Has(Voiding(st.sales[i].id), st.sales) then (st, Failed(AlreadyVoided))
      else if d == |st.days| then (st, Failed(NoOpenDay))
      else if !isAdmin && st.sales[i].day != st.days[d].id then (st, Failed(StaffVoidOpenDayOnly))
      else if Has(WithSaleId(saleId), st.sales) then (st, Failed(UniqueViolation))
      else
        var row := VoidRow(st.sales[i], saleId, clientId, st.days[d].id,
                           LastNumber(st.sales, st.days[d].id) + 1);
        (st.(sales := st.sales + [row]), OrderReply(row))
  }
}
