/** The set-aside ledgers: deposits on closed business days, withdrawals, and the days still
    missing a deposit. */
module Journal {
  import opened Rates
  import opened Reports
  import opened Sorting
  import opened Tables
  import Store

  type State = Store.State

  datatype Ledger = Ledger(id: Id, name: string, startDate: int, startingBalance: int, kind: SuggestionKind)

  datatype Deposit = Deposit(id: Id, ledger: Id, date: int, amount: int)

  datatype Withdrawal = Withdrawal(id: Id, ledger: Id, on: int, amount: int)

  datatype Book = Book(
    ledgers: seq<Ledger>, deposits: seq<Deposit>, withdrawals: seq<Withdrawal>, rates: seq<Rate>)

  datatype Problem =
    | BadRequest | LedgerNotFound | DepositNotFound | BeforeStart(date: int) | NotClosed(date: int)
    | Duplicate | Repeated(date: int) | StartAfterDeposit(date: int) | BadRate(rate: RateError)

  datatype Entry = Entry(date: int, amount: int)

  const MAX_DATABASE_INTEGER := 2_147_483_647
  const MAX_BULK_DEPOSITS := 1_000

  // ----- look-ups

  function WithLedgerId(id: Id): Ledger -> bool { (l: Ledger) => l.id == id }

  function LowerLetter(): char -> char
  {
    (c: char) => if 'A' <= c <= 'Z' then (c as int + 32) as char else c
  }

  /** Names are compared without regard to case. */
  function Lower(name: string): string
  {
    Map(LowerLetter(), name)
  }

  function Named(name: string): Ledger -> bool { (l: Ledger) => Lower(l.name) == Lower(name) }

  function WithDepositId(id: Id): Deposit -> bool { (d: Deposit) => d.id == id }

  function DepositOn(ledger: Id, date: int): Deposit -> bool
  {
    (d: Deposit) => d.ledger == ledger && d.date == date
  }

  function DepositOf(ledger: Id): Deposit -> bool { (d: Deposit) => d.ledger == ledger }

  function DepositDate(): Deposit -> int { (d: Deposit) => d.date }

  function EntryDate(): Entry -> int { (e: Entry) => e.date }

  function EntryAmount(): Entry -> int { (e: Entry) => e.amount }

  function GrossDate(): DatedGross -> int { (g: DatedGross) => g.date }

  predicate GoodAmount(amount: int)
  {
    0 <= amount <= MAX_DATABASE_INTEGER
  }

  // ----- which dates may hold a deposit

  function Same(): int -> int { (date: int) => date }

  function EarlierThan(start: int): int -> bool { (date: int) => date < start }

  function Missed(closed: seq<DatedGross>): int -> bool { (date: int) => !Has(Dated(date), closed) }

  /** No date lies before the start of the ledger, and each is a closed business day. */
  function Ineligible(st: State, start: int, dates: seq<int>): Option<Problem>
    requires dates != []
  {
    var early := Find(EarlierThan(start), dates);
    if early < |dates| then Some(BeforeStart(dates[early]))
    else
      var sorted := SortBy(Same(), dates);
      var closed := ClosedDailyGross(st, sorted[0], sorted[|sorted| - 1]);
      var open := Find(Missed(closed), dates);
      if open < |dates| then Some(NotClosed(dates[open])) else None
  }

  // ----- operations

  function CreateDeposit(b: Book, st: State, ledger: Id, date: int, amount: int, id: Id): (Book, Option<Problem>)
  {
    var l := Find(WithLedgerId(ledger), b.ledgers);
    if !GoodAmount(amount) then (b, Some(BadRequest))
    else if l == |b.ledgers| then (b, Some(LedgerNotFound))
    else
      var bad := Ineligible(st, b.ledgers[l].startDate, [date]);
      if bad.Some? then (b, bad)
      else if Has(DepositOn(ledger, date), b.deposits) || Has(WithDepositId(id), b.deposits) then
        (b, Some(Duplicate))
      else (b.(deposits := b.deposits + [Deposit(id, ledger, date, amount)]), None)
  }

  function UpdateDeposit(b: Book, st: State, id: Id, date: int, amount: int): (Book, Option<Problem>)
  {
    var d := Find(WithDepositId(id), b.deposits);
    if !GoodAmount(amount) then (b, Some(BadRequest))
    else if d == |b.deposits| then (b, Some(DepositNotFound))
    else
      var l := Find(WithLedgerId(b.deposits[d].ledger), b.ledgers);
      if l == |b.ledgers| then (b, Some(LedgerNotFound))
      else
        var bad := Ineligible(st, b.ledgers[l].startDate, [date]);
        if bad.Some? then (b, bad)
        else if Has(DepositOn(b.deposits[d].ledger, date), Without(b.deposits, d)) then (b, Some(Duplicate))
        else
          var row := b.deposits[d].(date := date, amount := amount);
          (b.(deposits := b.deposits[d := row]), None)
  }

  function RemoveDeposit(b: Book, id: Id): (Book, Option<Problem>)
  {
    var d := Find(WithDepositId(id), b.deposits);
    if d == |b.deposits| then (b, Some(DepositNotFound))
    else (b.(deposits := Without(b.deposits, d)), None)
  }

  function CreateWithdrawal(b: Book, ledger: Id, on: int, amount: int, id: Id): (Book, Option<Problem>)
  {
    if !GoodAmount(amount) || amount == 0 then (b, Some(BadRequest))
    else if !Has(WithLedgerId(ledger), b.ledgers) then (b, Some(LedgerNotFound))
    else (b.(withdrawals := b.withdrawals + [Withdrawal(id, ledger, on, amount)]), None)
  }

  function UpdateLedger(b: Book, ledger: Id, start: int, balance: int): (Book, Option<Problem>)
  {
    var l := Find(WithLedgerId(ledger), b.ledgers);
    if l == |b.ledgers| then (b, Some(LedgerNotFound))
    else
      var recorded := SortBy(DepositDate(), Filter(DepositOf(ledger), b.deposits));
      if recorded != [] && start > recorded[0].date then (b, Some(StartAfterDeposit(recorded[0].date)))
      else
        var row := b.ledgers[l].(startDate := start, startingBalance := balance);
        (b.(ledgers := b.ledgers[l := row]), None)
  }

  function CreateLedger(b: Book, id: Id, name: string, start: int, balance: int): (Book, Option<Problem>)
  {
    if Has(Named(name), b.ledgers) || Has(WithLedgerId(id), b.ledgers) then (b, Some(Duplicate))
    else (b.(ledgers := b.ledgers + [Ledger(id, name, start, balance, NoSuggestion)]), None)
  }

  function ChangeRate(b: Book, ledger: Id, today: int, input: Terms): (Book, Option<Problem>)
  {
    var l := Find(WithLedgerId(ledger), b.ledgers);
    if l == |b.ledgers| then (b, Some(LedgerNotFound))
    else
      match TermsFor(b.ledgers[l].kind, input)
      case Ok(terms) => (b.(rates := Upsert(b.rates, ledger, today, terms)), None)
      case Err(e) => (b, Some(BadRate(e)))
  }

  /** The date of the first entry that repeats an earlier one. */
  predicate RepeatsAt(dates: seq<int>, k: nat)
    requires k < |dates|
  {
    exists j | 0 <= j < k :: dates[j] == dates[k]
  }

  function FirstRepeat(dates: seq<int>, k: nat): (at: nat)
    requires k <= |dates|
    ensures k <= at <= |dates|
    ensures at < |dates| ==> RepeatsAt(dates, at)
    ensures forall j | k <= j < at :: !RepeatsAt(dates, j)
    decreases |dates| - k
  {
    if k == |dates| || RepeatsAt(dates, k) then k else FirstRepeat(dates, k + 1)
  }

  function Rows(ledger: Id, entries: seq<Entry>, firstId: Id): (rows: seq<Deposit>)
    ensures |rows| == |entries|
    ensures forall k | 0 <= k < |entries| ::
      rows[k] == Deposit(firstId + k, ledger, entries[k].date, entries[k].amount)
  {
    if entries == [] then []
    else [Deposit(firstId, ledger, entries[0].date, entries[0].amount)] + Rows(ledger, entries[1..], firstId + 1)
  }

  /** A row the unique keys of the table refuse. */
  predicate Conflicts(deposits: seq<Deposit>, row: Deposit)
  {
    Has(DepositOn(row.ledger, row.date), deposits) || Has(WithDepositId(row.id), deposits)
  }

  predicate AnyConflict(deposits: seq<Deposit>, rows: seq<Deposit>)
  {
    exists row | row in rows :: Conflicts(deposits, row)
  }

  predicate BadAmounts(entries: seq<Entry>)
  {
    exists e | e in entries :: !GoodAmount(e.amount)
  }

  function DateRefusal(st: State, start: int, dates: seq<int>): Option<Problem>
    requires dates != []
  {
    var repeat := FirstRepeat(dates, 0);
    if repeat < |dates| then Some(Repeated(dates[repeat])) else Ineligible(st, start, dates)
  }

  /** What the sorted entries are refused for, if anything. */
  function BulkRefusal(b: Book, st: State, l: Ledger, sorted: seq<Entry>, firstId: Id): Option<Problem>
    requires sorted != []
  {
    var bad := DateRefusal(st, l.startDate, Map(EntryDate(), sorted));
    if bad.Some? then bad
    else if AnyConflict(b.deposits, Rows(l.id, sorted, firstId)) then Some(Duplicate)
    else None
  }

  /** All rows are created or none. */
  function CreateDepositsBulk(b: Book, st: State, ledger: Id, entries: seq<Entry>, firstId: Id): (Book, Option<Problem>)
  {
    var l := Find(WithLedgerId(ledger), b.ledgers);
    if entries == [] || |entries| > MAX_BULK_DEPOSITS || BadAmounts(entries) then (b, Some(BadRequest))
    else if l == |b.ledgers| then (b, Some(LedgerNotFound))
    else
      var sorted := SortBy(EntryDate(), entries);
      var refusal := BulkRefusal(b, st, b.ledgers[l], sorted, firstId);
      if refusal.Some? then (b, refusal)
      else (b.(deposits := b.deposits + Rows(ledger, sorted, firstId)), None)
  }

  // ----- read models

  datatype MissingDay = MissingDay(date: int, gross: int, suggested: Suggestion)

  function Unrecorded(deposits: seq<Deposit>, ledger: Id): DatedGross -> bool
  {
    (g: DatedGross) => !Has(DepositOn(ledger, g.date), deposits)
  }

  function SuggestedBy(rates: seq<Rate>, l: Ledger): DatedGross -> MissingDay
  {
    (g: DatedGross) =>
      MissingDay(g.date, g.gross, SuggestFor(l.kind, g.gross, FindRateInForce(rates, l.id, g.date)))
  }

  function Suggested(b: Book, l: Ledger): DatedGross -> MissingDay
  {
    SuggestedBy(b.rates, l)
  }

  /** Closed days from the start of the ledger to today without a deposit, the oldest first. */
  function MissingDays(b: Book, st: State, l: Ledger, today: int): seq<MissingDay>
  {
    if l.startDate > today then []
    else
      var closed := ClosedDailyGross(st, l.startDate, today);
      Map(Suggested(b, l), SortBy(GrossDate(), Filter(Unrecorded(b.deposits, l.id), closed)))
  }

  function DepositedTo(ledger: Id): Deposit -> int
  {
    (d: Deposit) => if d.ledger == ledger then d.amount else 0
  }

  function WithdrawnFrom(ledger: Id): Withdrawal -> int
  {
    (w: Withdrawal) => if w.ledger == ledger then w.amount else 0
  }

  function Balance(b: Book, l: Ledger): int
  {
    l.startingBalance + Sum(DepositedTo(l.id), b.deposits) - Sum(WithdrawnFrom(l.id), b.withdrawals)
  }
}
