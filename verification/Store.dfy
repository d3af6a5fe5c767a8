/** The tables the point of sale writes: sales with their lines and payments, trading days, cash
    movements, cash counts and day closings. Row ids and clock readings come from outside. */
module Store {
  import opened Tables
  import opened Money

  type Id = nat

  type Servings = n: nat | 1 <= n witness 1

  // ----- sales

  datatype SaleKind = Purchase | Void

  datatype OrderStatus = Parked | Completed

  datatype ServiceType = DineIn | TakeOut

  datatype PaymentMethod = Cash | Online

  datatype Preference = Sweeter | Stronger | LessSweet | LessIce

  datatype Payment = Payment(tender: PaymentMethod, amount: int)

  datatype Line = Line(
    id: Id, variant: Id, terms: LineTerms, preferences: seq<Preference>, note: Option<string>,
    servings: Servings, amounts: LineAmounts)

  datatype Totals = Totals(subtotal: int, discount: int, freeUpsize: int, total: int)

  datatype Sale = Sale(
    id: Id, clientId: Id, day: Id, kind: SaleKind, corrects: Option<Id>, number: int,
    status: OrderStatus, customer: Option<string>, service: ServiceType, totals: Totals,
    tip: int, received: Option<int>, owed: int, settledAt: Option<int>, completedAt: Option<int>,
    lines: seq<Line>, payments: seq<Payment>)

  // ----- trading days and the drawer

  datatype Day = Day(id: Id, date: int, isOpen: bool, openingFloat: int, openedAt: int)

  datatype MovementKind = CashIn | CashOut | Expense

  datatype Movement = Movement(
    id: Id, day: Id, amends: Option<Id>, kind: MovementKind, amount: int, category: Option<string>)

  datatype CashCount = CashCount(id: Id, day: Id, counted: int, at: int)

  datatype Closing = Closing(
    id: Id, day: Id, countId: Id, openingFloat: int, figures: Figures, expected: int,
    actual: int, variance: int)

  datatype State = State(
    sales: seq<Sale>, days: seq<Day>, movements: seq<Movement>, counts: seq<CashCount>,
    closings: seq<Closing>)

  const EMPTY: State := State([], [], [], [], [])

  // ----- look-ups

  function WithClientId(clientId: Id): Sale -> bool { (s: Sale) => s.clientId == clientId }

  function WithSaleId(id: Id): Sale -> bool { (s: Sale) => s.id == id }

  function Voiding(original: Id): Sale -> bool
  {
    (s: Sale) => s.kind == Void && s.corrects == Some(original)
  }

  function WithLineId(id: Id): Line -> bool { (l: Line) => l.id == id }

  function OpenNow(): Day -> bool { (d: Day) => d.isOpen }

  function WithDayId(id: Id): Day -> bool { (d: Day) => d.id == id }

  function OnDate(date: int): Day -> bool { (d: Day) => d.date == date }

  function WithMovementId(id: Id): Movement -> bool { (m: Movement) => m.id == id }

  function Amending(target: Id): Movement -> bool { (m: Movement) => m.amends == Some(target) }

  function WithClosingId(id: Id): Closing -> bool { (c: Closing) => c.id == id }

  function ClosingOf(day: Id): Closing -> bool { (c: Closing) => c.day == day }

  predicate DayIsOpen(days: seq<Day>, id: Id)
  {
    var i := Find(WithDayId(id), days);
    i < |days| && days[i].isOpen
  }

  /** The highest order number of a day, 0 when the day has no sale; numbers start at 1. */
  function LastNumber(sales: seq<Sale>, day: Id): int
  {
    if sales == [] then 0
    else
      var rest := LastNumber(sales[1..], day);
      if sales[0].day == day && sales[0].number > rest then sales[0].number else rest
  }

  // ----- folds of one sale

  function GrossOf(): Line -> int { (l: Line) => l.amounts.gross }

  function DiscountOf(): Line -> int { (l: Line) => l.amounts.discount }

  function FreeUpsizeOf(): Line -> int { (l: Line) => l.amounts.freeUpsize }

  function LineTotalOf(): Line -> int { (l: Line) => l.amounts.total }

  function TotalsOf(lines: seq<Line>): Totals
  {
    var subtotal := Sum(GrossOf(), lines);
    var discount := Sum(DiscountOf(), lines);
    var freeUpsize := Sum(FreeUpsizeOf(), lines);
    Totals(subtotal, discount, freeUpsize, subtotal - freeUpsize - discount)
  }

  function AmountOf(): Payment -> int { (p: Payment) => p.amount }

  function IsTender(tender: PaymentMethod): Payment -> bool { (p: Payment) => p.tender == tender }

  function Portion(tender: PaymentMethod, payments: seq<Payment>): int
  {
    Sum(AmountOf(), Filter(IsTender(tender), payments))
  }

  // ----- folds of a day

  function PortionOn(tender: PaymentMethod, day: Id): Sale -> int
  {
    (s: Sale) => if s.day == day then Portion(tender, s.payments) else 0
  }

  function TipOn(day: Id): Sale -> int { (s: Sale) => if s.day == day then s.tip else 0 }

  function OutstandingOn(day: Id): Sale -> int
  {
    (s: Sale) => if s.day == day && s.settledAt.None? then s.owed else 0
  }

  predicate Superseded(movements: seq<Movement>, id: Id)
  {
    Has(Amending(id), movements)
  }

  /** A movement counts towards its day while no other movement amends it. */
  function EffectiveOn(movements: seq<Movement>, kind: MovementKind, day: Id): Movement -> int
  {
    (m: Movement) =>
      if m.day == day && m.kind == kind && !Superseded(movements, m.id) then m.amount else 0
  }

  function DayFigures(st: State, day: Id): Figures
  {
    Figures(
      Sum(PortionOn(Cash, day), st.sales),
      Sum(PortionOn(Online, day), st.sales),
      Sum(TipOn(day), st.sales),
      Sum(EffectiveOn(st.movements, CashIn, day), st.movements),
      Sum(EffectiveOn(st.movements, CashOut, day), st.movements),
      Sum(EffectiveOn(st.movements, Expense, day), st.movements),
      Sum(OutstandingOn(day), st.sales))
  }

  function FloatOf(days: seq<Day>, day: Id): int
  {
    var i := Find(WithDayId(day), days);
    if i < |days| then days[i].openingFloat else 0
  }

  /** The cash the drawer of a day should hold, recomputed from the rows. */
  function ExpectedCash(st: State, day: Id): int
  {
    DayFigures(st, day).Expected(FloatOf(st.days, day))
  }

  // ----- replies

  datatype Error =
    | NoOpenDay | OrderNotFound | OrderFrozen | EmptyOrder | LineNotFound | NotSellable
    | BadLine(line: LineError) | BadTender(tender: TenderError) | NotCompleted | AlreadyVoided
    | VoidIdInUse | StaffVoidOpenDayOnly | NoChangeOwed | DayAlreadyOpen | DateAlreadyUsed
    | BadRequest | MovementNotFound | MovementOfClosedDay | AlreadySuperseded | UnsafeMoney
    | UniqueViolation

  datatype TenderError =
    | NoPayment | RepeatedMethod | BadPortion | WrongTotal | BadTip | OnlineWithCash
    | OnlineWithChange | TooLittleCash | TooMuchOwed

  datatype Reply =
    | OrderReply(sale: Sale)
    | OrderDiscarded
    | DayReply(day: Day)
    | MovementReply(movement: Movement)
    | ClosingReply(closing: Closing)
    | Failed(error: Error)
}
