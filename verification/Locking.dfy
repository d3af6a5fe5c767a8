/** The concurrent protocol: every transaction is split at its reads, its row locks and its commit,
    and any interleaving of the steps may happen. Reads see committed rows only; a transaction
    writes at its commit, which also releases its locks. */
module Locking {
  import opened Tables

  type SaleId = nat

  type DayId = nat

  /** A sale row: `cash` is the cash part of its payments, `owed` the change withheld, `settled`
      whether that change has been paid out. */
  datatype Row = Row(
    day: DayId, number: int, corrects: Option<SaleId>, completed: bool,
    cash: int, tip: int, owed: int, settled: bool)

  /** A trading day: `moves` nets its effective movements, `snapshot` is the expected cash its
      closing stored. */
  datatype DayRow = DayRow(date: int, isOpen: bool, float: int, moves: int, snapshot: Option<int>)

  /** What a client asked for; request validation lets no negative tender through. */
  datatype Job =
    | Create
    | Void(original: SaleId)
    | Complete(order: SaleId, cash: nat, tip: nat, owed: nat)
    | Settle(order: SaleId)
    | Discard(order: SaleId)
    | Record(amount: int)
    | Amend(day: DayId, amount: int)
    | Close
    | Open(date: int, float: int)

  /** How far a transaction has come; the original travels along with a void, and a closing has
      queried the payments of its day (Cashed) before it queries its sales (Counted). */
  datatype Phase =
    | Start
    | WaitSale(order: SaleId)
    | HoldSale(order: SaleId)
    | WaitDay(original: Option<SaleId>, day: DayId)
    | HoldDay(original: Option<SaleId>, day: DayId)
    | Numbered(original: Option<SaleId>, day: DayId, last: int)
    | Checked(order: SaleId)
    | Moving(day: DayId, amount: int)
    | Cashed(day: DayId, cash: int)
    | Counted(day: DayId, total: int)
    | Dated(date: int)
    | Finished

  datatype Txn = Txn(job: Job, phase: Phase)

  datatype Sys = Sys(rows: map<SaleId, Row>, days: map<DayId, DayRow>, txns: seq<Txn>)

  /** What the database answers or generates: the open day found, the highest number, a row id. */
  datatype Env = Env(day: DayId, last: int, newId: nat)

  // ----- locks

  predicate HoldsSale(t: Txn, o: SaleId)
  {
    match t.phase
    case HoldSale(x) => x == o
    case WaitDay(original, _) => original == Some(o)
    case HoldDay(original, _) => original == Some(o)
    case Numbered(original, _, _) => original == Some(o)
    case Checked(x) => x == o
    case _ => false
  }

  predicate HoldsDay(t: Txn, d: DayId)
  {
    match t.phase
    case HoldDay(_, x) => x == d
    case Numbered(_, x, _) => x == d
    case Moving(x, _) => x == d
    case Cashed(x, _) => x == d
    case Counted(x, _) => x == d
    case _ => false
  }

  predicate SaleLocked(s: Sys, o: SaleId)
  {
    exists j | 0 <= j < |s.txns| :: HoldsSale(s.txns[j], o)
  }

  predicate DayLocked(s: Sys, d: DayId)
  {
    exists j | 0 <= j < |s.txns| :: HoldsDay(s.txns[j], d)
  }

  // ----- reads

  predicate NoneOpen(days: map<DayId, DayRow>)
  {
    forall d | d in days :: !days[d].isOpen
  }

  predicate IsOpenDay(days: map<DayId, DayRow>, d: DayId)
  {
    d in days && days[d].isOpen
  }

  predicate IsLast(rows: map<SaleId, Row>, d: DayId, last: int)
  {
    && 0 <= last
    && (forall o | o in rows && rows[o].day == d :: rows[o].number <= last)
    && (last == 0 || exists o | o in rows :: rows[o].day == d && rows[o].number == last)
  }

  predicate HasVoid(rows: map<SaleId, Row>, o: SaleId)
  {
    exists v | v in rows :: rows[v].corrects == Some(o)
  }

  predicate NumberTaken(rows: map<SaleId, Row>, d: DayId, number: int)
  {
    exists o | o in rows :: rows[o].day == d && rows[o].number == number
  }

  // ----- what a day took

  ghost function AnyId(rows: map<SaleId, Row>): SaleId
    requires rows != map[]
  {
    var o :| o in rows;
    o
  }

  ghost function Total(f: Row -> int, rows: map<SaleId, Row>): int
  {
    if rows == map[] then 0
    else f(rows[AnyId(rows)]) + Total(f, rows - {AnyId(rows)})
  }

  function CashOn(d: DayId): Row -> int
  {
    (r: Row) => if r.day == d then r.cash else 0
  }

  /** Tips, and the change still withheld. */
  function TipsAndChangeOn(d: DayId): Row -> int
  {
    (r: Row) => if r.day == d then r.tip + (if r.settled then 0 else r.owed) else 0
  }

  /** The cash the drawer of a day should hold, from the rows. */
  ghost function Expected(s: Sys, d: DayId): int
  {
    if d in s.days then
      s.days[d].float + s.days[d].moves + Total(CashOn(d), s.rows) + Total(TipsAndChangeOn(d), s.rows)
    else 0
  }

  // ----- steps

  function Goto(s: Sys, i: nat, phase: Phase): Sys
    requires i < |s.txns|
  {
    s.(txns := s.txns[i := s.txns[i].(phase := phase)])
  }

  function Move(days: map<DayId, DayRow>, d: DayId, amount: int): map<DayId, DayRow>
  {
    if d in days then days[d := days[d].(moves := days[d].moves + amount)] else days
  }

  function FromStart(s: Sys, i: nat, env: Env): Option<Sys>
    requires i < |s.txns|
  {
    match s.txns[i].job
    case Void(o) =>
      Some(Goto(s, i, if o in s.rows && s.rows[o].corrects.None? then WaitSale(o) else Finished))
    case Complete(o, _, _, _) =>
      Some(Goto(s, i, if o in s.rows && s.rows[o].corrects.None? then WaitSale(o) else Finished))
    case Settle(o) =>
      Some(Goto(s, i, if o in s.rows && s.rows[o].corrects.None? then WaitSale(o) else Finished))
    case Discard(o) =>
      Some(Goto(s, i, if o in s.rows && s.rows[o].corrects.None? then WaitSale(o) else Finished))
    case Amend(d, _) => Some(Goto(s, i, if d in s.days then WaitDay(None, d) else Finished))
    case Open(date, _) =>
      if NoneOpen(s.days) && forall d | d in s.days :: s.days[d].date != date then
        Some(Goto(s, i, Dated(date)))
      else Some(Goto(s, i, Finished))
    case _ =>
      if IsOpenDay(s.days, env.day) then Some(Goto(s, i, WaitDay(None, env.day)))
      else if NoneOpen(s.days) then Some(Goto(s, i, Finished))
      else None
  }

  /** The checks made under the lock of an order; only a void goes on to lock the open day. */
  function UnderSaleLock(s: Sys, i: nat, o: SaleId, env: Env): Option<Sys>
    requires i < |s.txns| && o in s.rows
  {
    var row := s.rows[o];
    match s.txns[i].job
    case Void(_) =>
      if !row.completed || HasVoid(s.rows, o) then Some(Goto(s, i, Finished))
      else if IsOpenDay(s.days, env.day) then Some(Goto(s, i, WaitDay(Some(o), env.day)))
      else if NoneOpen(s.days) then Some(Goto(s, i, Finished))
      else None
    case Settle(_) =>
      Some(Goto(s, i, if row.completed && row.owed > 0 && !row.settled then Checked(o) else Finished))
    case _ =>
      Some(Goto(s, i, if !row.completed && IsOpenDay(s.days, row.day) then Checked(o) else Finished))
  }

  ghost function UnderDayLock(s: Sys, i: nat, original: Option<SaleId>, d: DayId, env: Env): Option<Sys>
    requires i < |s.txns|
  {
    if !IsOpenDay(s.days, d) then Some(Goto(s, i, Finished))
    else
      match s.txns[i].job
      case Record(amount) => Some(Goto(s, i, Moving(d, amount)))
      case Amend(_, amount) => Some(Goto(s, i, Moving(d, amount)))
      case Close => Some(Goto(s, i, Cashed(d, Total(CashOn(d), s.rows))))
      case _ =>
        if IsLast(s.rows, d, env.last) then Some(Goto(s, i, Numbered(original, d, env.last))) else None
  }

  /** Inserts the numbered row; a taken row id or number is refused by its unique index. */
  function InsertRow(s: Sys, original: Option<SaleId>, d: DayId, last: int, newId: nat): Sys
  {
    if newId in s.rows || NumberTaken(s.rows, d, last + 1) then s
    else
      var cash := if original.Some? && original.value in s.rows then -s.rows[original.value].cash else 0;
      s.(rows := s.rows[newId := Row(d, last + 1, original, original.Some?, cash, 0, 0, false)])
  }

  function WriteOrder(s: Sys, job: Job, o: SaleId): Sys
  {
    if o !in s.rows then s
    else
      match job
      case Complete(_, cash, tip, owed) =>
        s.(rows := s.rows[o := s.rows[o].(completed := true, cash := cash, tip := tip, owed := owed)])
      case Settle(_) => s.(rows := s.rows[o := s.rows[o].(settled := true)])
      case Discard(_) => s.(rows := s.rows - {o})
      case _ => s
  }

  function InsertDay(s: Sys, date: int, float: int, newId: nat): Sys
  {
    if !NoneOpen(s.days) || newId in s.days then s
    else s.(days := s.days[newId := DayRow(date, true, float, 0, None)])
  }

  /** The movements are queried last; the lock of the day keeps them, its float never changes. */
  function CloseWith(s: Sys, d: DayId, total: int): Sys
  {
    if d !in s.days then s
    else
      var snapshot := s.days[d].float + s.days[d].moves + total;
      s.(days := s.days[d := s.days[d].(isOpen := false, snapshot := Some(snapshot))])
  }

  /** One step of transaction `i`; `None` while it is blocked, finished, or the answers do not fit. */
  ghost function Act(s: Sys, i: nat, env: Env): Option<Sys>
    requires i < |s.txns|
  {
    match s.txns[i].phase
    case Start => FromStart(s, i, env)
    case WaitSale(o) =>
      if o !in s.rows then Some(Goto(s, i, Finished))
      else if SaleLocked(s, o) then None
      else Some(Goto(s, i, HoldSale(o)))
    case HoldSale(o) =>
      if o in s.rows && s.rows[o].corrects.None? then UnderSaleLock(s, i, o, env)
      else Some(Goto(s, i, Finished))
    case WaitDay(original, d) =>
      if DayLocked(s, d) then None else Some(Goto(s, i, HoldDay(original, d)))
    case HoldDay(original, d) => UnderDayLock(s, i, original, d, env)
    case Numbered(original, d, last) =>
      Some(Goto(InsertRow(s, original, d, last, env.newId), i, Finished))
    case Checked(o) => Some(Goto(WriteOrder(s, s.txns[i].job, o), i, Finished))
    case Moving(d, amount) => Some(Goto(s.(days := Move(s.days, d, amount)), i, Finished))
    case Cashed(d, cash) => Some(Goto(s, i, Counted(d, cash + Total(TipsAndChangeOn(d), s.rows))))
    case Counted(d, total) => Some(Goto(CloseWith(s, d, total), i, Finished))
    case Dated(date) =>
      var float := if s.txns[i].job.Open? then s.txns[i].job.float else 0;
      Some(Goto(InsertDay(s, date, float, env.newId), i, Finished))
    case Finished => None
  }

  /** A scheduler picks any transaction; a blocked one stays where it is. */
  datatype Pick = Pick(txn: nat, env: Env)

  ghost function Next(s: Sys, p: Pick): Sys
  {
    if p.txn < |s.txns| && Act(s, p.txn, p.env).Some? then Act(s, p.txn, p.env).value else s
  }

  ghost function Run(s: Sys, schedule: seq<Pick>): Sys
    decreases |schedule|
  {
    if schedule == [] then s else Run(Next(s, schedule[0]), schedule[1..])
  }

  /** A stretch of a schedule in which one transaction steps. */
  predicate OnlyOf(schedule: seq<Pick>, i: nat)
  {
    schedule != [] && forall p | p in schedule :: p.txn == i
  }
}
