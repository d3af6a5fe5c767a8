/** Shop and journal together: the invariant over whole runs, and the days still missing a deposit. */
module MissingDayLaws {
  import opened Journal
  import opened JournalLaws
  import opened Rates
  import opened Reports
  import opened Sorting
  import opened Tables
  import Drawer
  import Ledger
  import LedgerSteps
  import Store
  import TradingDays

  // ----- bulk deposits

  lemma {:induction false} RowsFitOneByOne(days: seq<Store.Day>, b: Book, rows: seq<Deposit>)
    requires BookInv(days, b)
    requires forall row | row in rows :: Fits(days, b, row)
    requires forall i, j | 0 <= i < j < |rows| ::
      rows[i].id != rows[j].id && !(rows[i].ledger == rows[j].ledger && rows[i].date == rows[j].date)
    ensures BookInv(days, b.(deposits := b.deposits + rows))
    decreases |rows|
  {
    if rows == [] {
      assert b.deposits + rows == b.deposits;
    } else {
      FittingRowKeeps(days, b, rows[0]);
      var more := b.(deposits := b.deposits + [rows[0]]);
      forall row | row in rows[1..]
        ensures Fits(days, more, row)
      {
        assert Fits(days, b, row);
        var k :| 1 <= k < |rows| && rows[k] == row;
        Ledger.HasAppend(DepositOn(row.ledger, row.date), b.deposits, rows[0]);
        Ledger.HasAppend(WithDepositId(row.id), b.deposits, rows[0]);
      }
      RowsFitOneByOne(days, more, rows[1..]);
      assert b.deposits + rows == more.deposits + rows[1..];
    }
  }

  lemma NoRepeatIff(sorted: seq<Entry>)
    ensures FirstRepeat(Map(EntryDate(), sorted), 0) == |sorted| <==> KeysDistinct(EntryDate(), sorted)
  {
    var dates := Map(EntryDate(), sorted);
    if KeysDistinct(EntryDate(), sorted) {
      forall k | 0 <= k < |dates|
        ensures !RepeatsAt(dates, k)
      {
        forall j | 0 <= j < k
          ensures dates[j] != dates[k]
        {
          assert EntryDate()(sorted[j]) != EntryDate()(sorted[k]);
        }
      }
    } else {
      var i, j :| 0 <= i < j < |sorted| && EntryDate()(sorted[i]) == EntryDate()(sorted[j]);
      assert dates[i] == dates[j];
      assert RepeatsAt(dates, j);
    }
  }

  /** A bulk is accepted if and only if its dates are distinct closed days from the start of the ledger
      on, and no row meets one already recorded. */
  lemma AcceptedIff(b: Book, st: State, l: Journal.Ledger, sorted: seq<Entry>, firstId: Id)
    requires sorted != []
    ensures BulkRefusal(b, st, l, sorted, firstId).None? <==>
      && KeysDistinct(EntryDate(), sorted)
      && (forall e | e in sorted :: l.startDate <= e.date && ClosedOn(st.days, e.date))
      && !AnyConflict(b.deposits, Rows(l.id, sorted, firstId))
  {
    NoRepeatIff(sorted);
    EntriesEligibleIff(st, l.startDate, sorted);
  }

  lemma EntriesEligibleIff(st: State, start: int, sorted: seq<Entry>)
    requires sorted != []
    ensures Ineligible(st, start, Map(EntryDate(), sorted)).None? <==>
      forall e | e in sorted :: start <= e.date && ClosedOn(st.days, e.date)
  {
    var dates := Map(EntryDate(), sorted);
    EligibleIff(st, start, dates);
    DatesOf(sorted, dates);
    assert (forall date | date in dates :: start <= date && ClosedOn(st.days, date))
      <==> (forall e | e in sorted :: start <= e.date && ClosedOn(st.days, e.date));
  }

  lemma DatesOf(sorted: seq<Entry>, dates: seq<int>)
    requires dates == Map(EntryDate(), sorted)
    ensures forall e | e in sorted :: e.date in dates
    ensures forall date | date in dates :: exists e | e in sorted :: e.date == date
  {
    forall e | e in sorted
      ensures e.date in dates
    {
      var k :| 0 <= k < |sorted| && sorted[k] == e;
      assert dates[k] == e.date;
    }
    forall date | date in dates
      ensures exists e | e in sorted :: e.date == date
    {
      var k :| 0 <= k < |dates| && dates[k] == date;
      assert sorted[k] in sorted && sorted[k].date == date;
    }
  }

  lemma AcceptedBulk(b: Book, st: State, ledger: Id, entries: seq<Entry>, firstId: Id)
    requires CreateDepositsBulk(b, st, ledger, entries, firstId).1.None?
    ensures var l := Find(WithLedgerId(ledger), b.ledgers);
      var sorted := SortBy(EntryDate(), entries);
      && l < |b.ledgers| && b.ledgers[l].id == ledger && entries != []
      && BulkRefusal(b, st, b.ledgers[l], sorted, firstId).None?
      && CreateDepositsBulk(b, st, ledger, entries, firstId).0
         == b.(deposits := b.deposits + Rows(ledger, sorted, firstId))
  {
  }

  lemma BulkFits(b: Book, st: State, ledger: Id, entries: seq<Entry>, firstId: Id)
    requires CreateDepositsBulk(b, st, ledger, entries, firstId).1.None?
    ensures var rows := Rows(ledger, SortBy(EntryDate(), entries), firstId);
      && (forall row | row in rows :: Fits(st.days, b, row))
      && (forall i, j | 0 <= i < j < |rows| :: rows[i].id != rows[j].id && rows[i].date != rows[j].date)
      && CreateDepositsBulk(b, st, ledger, entries, firstId).0 == b.(deposits := b.deposits + rows)
  {
    AcceptedBulk(b, st, ledger, entries, firstId);
    var l := b.ledgers[Find(WithLedgerId(ledger), b.ledgers)];
    var sorted := SortBy(EntryDate(), entries);
    AcceptedIff(b, st, l, sorted, firstId);
    AcceptedRowsFit(b, st, l, sorted, firstId);
  }

  lemma AcceptedRowsFit(b: Book, st: State, l: Journal.Ledger, sorted: seq<Entry>, firstId: Id)
    requires l in b.ledgers && KeysDistinct(EntryDate(), sorted)
    requires forall e | e in sorted :: l.startDate <= e.date && ClosedOn(st.days, e.date)
    requires !AnyConflict(b.deposits, Rows(l.id, sorted, firstId))
    ensures var rows := Rows(l.id, sorted, firstId);
      && (forall row | row in rows :: Fits(st.days, b, row))
      && (forall i, j | 0 <= i < j < |rows| :: rows[i].id != rows[j].id && rows[i].date != rows[j].date)
  {
    var rows := Rows(l.id, sorted, firstId);
    forall row | row in rows
      ensures Fits(st.days, b, row)
    {
      var k :| 0 <= k < |rows| && rows[k] == row;
      assert sorted[k] in sorted;
    }
    forall i, j | 0 <= i < j < |rows|
      ensures rows[i].date != rows[j].date
    {
      assert EntryDate()(sorted[i]) != EntryDate()(sorted[j]);
    }
  }

  lemma BulkKeeps(b: Book, st: State, ledger: Id, entries: seq<Entry>, firstId: Id)
    requires BookInv(st.days, b)
    ensures BookInv(st.days, CreateDepositsBulk(b, st, ledger, entries, firstId).0)
  {
    if CreateDepositsBulk(b, st, ledger, entries, firstId).1.None? {
      BulkFits(b, st, ledger, entries, firstId);
      RowsFitOneByOne(st.days, b, Rows(ledger, SortBy(EntryDate(), entries), firstId));
    }
  }

  // ----- runs of the shop and its journal

  datatype Request =
    | Shop(request: Ledger.Request)
    | AddLedger(id: Id, name: string, start: int, balance: int)
    | ChangeLedger(ledger: Id, start: int, balance: int)
    | AddDeposit(ledger: Id, date: int, amount: int, id: Id)
    | AddDeposits(ledger: Id, entries: seq<Entry>, firstId: Id)
    | ChangeDeposit(id: Id, date: int, amount: int)
    | DropDeposit(id: Id)
    | Withdraw(ledger: Id, on: int, amount: int, id: Id)
    | SetRate(ledger: Id, today: int, input: Terms)

  datatype World = World(shop: State, book: Book)

  function NextBook(b: Book, st: State, r: Request): Book
  {
    match r
    case Shop(_) => b
    case AddLedger(id, name, start, balance) => CreateLedger(b, id, name, start, balance).0
    case ChangeLedger(l, start, balance) => UpdateLedger(b, l, start, balance).0
    case AddDeposit(l, date, amount, id) => CreateDeposit(b, st, l, date, amount, id).0
    case AddDeposits(l, entries, firstId) => CreateDepositsBulk(b, st, l, entries, firstId).0
    case ChangeDeposit(id, date, amount) => UpdateDeposit(b, st, id, date, amount).0
    case DropDeposit(id) => RemoveDeposit(b, id).0
    case Withdraw(l, on, amount, id) => CreateWithdrawal(b, l, on, amount, id).0
    case SetRate(l, today, input) => ChangeRate(b, l, today, input).0
  }

  function Next(w: World, r: Request): World
  {
    World(if r.Shop? then Ledger.Next(w.shop, r.request) else w.shop, NextBook(w.book, w.shop, r))
  }

  function Run(w: World, requests: seq<Request>): World
    decreases |requests|
  {
    if requests == [] then w else Run(Next(w, requests[0]), requests[1..])
  }

  predicate WorldInv(w: World)
  {
    Ledger.Inv(w.shop) && BookInv(w.shop.days, w.book)
  }

  lemma OpenKeepsClosedDate(st: State, dayId: Id, date: int, float: int, active: bool, now: int, closed: int)
    requires ClosedOn(st.days, closed)
    ensures ClosedOn(TradingDays.OpenDay(st, dayId, date, float, active, now).0.days, closed)
  {
    var after := TradingDays.OpenDay(st, dayId, date, float, active, now).0;
    var d :| d in st.days && !d.isOpen && d.date == closed;
    assert d in after.days;
  }

  lemma CloseKeepsClosedDate(st: State, closingId: Id, countId: Id, actual: int, active: bool, now: int, closed: int)
    requires ClosedOn(st.days, closed)
    ensures ClosedOn(TradingDays.CloseDay(st, closingId, countId, actual, active, now).0.days, closed)
  {
    LedgerSteps.CloseCloses(st, closingId, countId, actual, active, now);
    var i := Find(Store.OpenNow(), st.days);
    if i < |st.days| {
      DayClosedKeepsDate(st.days, i, closed);
    }
  }

  lemma DayClosedKeepsDate(days: seq<Store.Day>, i: nat, closed: int)
    requires i < |days| && days[i].isOpen && ClosedOn(days, closed)
    ensures ClosedOn(days[i := days[i].(isOpen := false)], closed)
  {
    var d :| d in days && !d.isOpen && d.date == closed;
    var k :| 0 <= k < |days| && days[k] == d;
    assert days[i := days[i].(isOpen := false)][k] == d;
  }

  /** A date that is closed stays closed. */
  lemma DateStaysClosed(st: State, r: Ledger.Request, closed: int)
    requires ClosedOn(st.days, closed)
    ensures ClosedOn(Ledger.Next(st, r).days, closed)
  {
    match r
    case Open(d, date, float, active, now) => OpenKeepsClosedDate(st, d, date, float, active, now, closed);
    case Close(c, k, actual, active, now) => CloseKeepsClosedDate(st, c, k, actual, active, now, closed);
    case _ => Drawer.OtherRequestsKeepDays(st, r);
  }

  lemma ShopKeepsBook(st: State, r: Ledger.Request, b: Book)
    requires BookInv(st.days, b)
    ensures BookInv(Ledger.Next(st, r).days, b)
  {
    forall d | d in b.deposits
      ensures LedgerOk(b.ledgers, Ledger.Next(st, r).days, d)
    {
      assert LedgerOk(b.ledgers, st.days, d);
      DateStaysClosed(st, r, d.date);
    }
  }

  lemma NextKeepsBook(b: Book, st: State, r: Request)
    requires BookInv(st.days, b) && !r.Shop?
    ensures BookInv(st.days, NextBook(b, st, r))
  {
    match r
    case AddLedger(id, name, start, balance) => CreateLedgerKeeps(b, st.days, id, name, start, balance);
    case ChangeLedger(l, start, balance) => UpdateLedgerKeeps(b, st.days, l, start, balance);
    case AddDeposit(l, date, amount, id) => CreateDepositKeeps(b, st, l, date, amount, id);
    case AddDeposits(l, entries, firstId) => BulkKeeps(b, st, l, entries, firstId);
    case ChangeDeposit(id, date, amount) => UpdateDepositKeeps(b, st, id, date, amount);
    case DropDeposit(id) => RemoveDepositKeeps(b, st.days, id);
    case Withdraw(l, on, amount, id) =>
    case SetRate(l, today, input) => ChangeRateKeeps(b, st.days, l, today, input);
  }

  /** Over every run of shop and journal, each deposit lies on a closed business day on or after the
      start of its ledger, and no ledger has two deposits for one date. */
  lemma {:induction false} RunKeepsWorld(w: World, requests: seq<Request>)
    requires WorldInv(w)
    ensures WorldInv(Run(w, requests))
    decreases |requests|
  {
    if requests != [] {
      var r := requests[0];
      if r.Shop? {
        LedgerSteps.StepKeepsInv(w.shop, r.request);
        ShopKeepsBook(w.shop, r.request, w.book);
      } else {
        NextKeepsBook(w.book, w.shop, r);
      }
      RunKeepsWorld(Next(w, r), requests[1..]);
    }
  }

  // ----- missing days

  predicate Lists(missing: seq<MissingDay>, date: int)
  {
    exists m | m in missing :: m.date == date
  }

  predicate Recorded(b: Book, l: Journal.Ledger, date: int)
  {
    exists d | d in b.deposits :: d.ledger == l.id && d.date == date
  }

  function MissingGross(b: Book, st: State, l: Journal.Ledger, today: int): seq<DatedGross>
  {
    SortBy(GrossDate(), Filter(Unrecorded(b.deposits, l.id), ClosedDailyGross(st, l.startDate, today)))
  }

  lemma RecordedIff(b: Book, l: Journal.Ledger, date: int)
    ensures Recorded(b, l, date) <==> Has(DepositOn(l.id, date), b.deposits)
  {
    if Recorded(b, l, date) {
      var d :| d in b.deposits && d.ledger == l.id && d.date == date;
      var k :| 0 <= k < |b.deposits| && b.deposits[k] == d;
      assert DepositOn(l.id, date)(b.deposits[k]);
    }
  }

  lemma MissingIsListed(b: Book, st: State, l: Journal.Ledger, today: int, date: int)
    requires l.startDate <= date <= today && ClosedOn(st.days, date) && !Recorded(b, l, date)
    ensures Lists(MissingDays(b, st, l, today), date)
  {
    RecordedIff(b, l, date);
    ClosedDates(st, l.startDate, today, date);
    var closed := ClosedDailyGross(st, l.startDate, today);
    var g := closed[Find(Dated(date), closed)];
    assert g in closed && Unrecorded(b.deposits, l.id)(g);
    var sorted := MissingGross(b, st, l, today);
    var k :| 0 <= k < |sorted| && sorted[k] == g;
    var missing := MissingDays(b, st, l, today);
    assert missing[k] in missing && missing[k].date == date;
  }

  lemma ListedGross(b: Book, st: State, l: Journal.Ledger, today: int, m: MissingDay) returns (g: DatedGross)
    requires m in MissingDays(b, st, l, today)
    ensures g in ClosedDailyGross(st, l.startDate, today) && Unrecorded(b.deposits, l.id)(g)
    ensures m == Suggested(b, l)(g)
  {
    var missing := MissingDays(b, st, l, today);
    var k :| 0 <= k < |missing| && missing[k] == m;
    g := MissingGross(b, st, l, today)[k];
    assert g in MissingGross(b, st, l, today);
  }

  lemma ListedIsMissing(b: Book, st: State, l: Journal.Ledger, today: int, date: int)
    requires Lists(MissingDays(b, st, l, today), date)
    ensures l.startDate <= date <= today && ClosedOn(st.days, date) && !Recorded(b, l, date)
  {
    var m :| m in MissingDays(b, st, l, today) && m.date == date;
    var g := ListedGross(b, st, l, today, m);
    RecordedIff(b, l, date);
    ClosedDates(st, l.startDate, today, date);
    var closed := ClosedDailyGross(st, l.startDate, today);
    var j :| 0 <= j < |closed| && closed[j] == g;
    assert Dated(date)(closed[j]);
  }

  /** Missing and recorded dates split the closed dates from the start of the ledger to today: a closed
      date in that range is listed if and only if it has no deposit. */
  lemma MissingIff(b: Book, st: State, l: Journal.Ledger, today: int, date: int)
    ensures Lists(MissingDays(b, st, l, today), date) <==>
      l.startDate <= date <= today && ClosedOn(st.days, date) && !Recorded(b, l, date)
  {
    if Lists(MissingDays(b, st, l, today), date) {
      ListedIsMissing(b, st, l, today, date);
    } else if l.startDate <= date <= today && ClosedOn(st.days, date) && !Recorded(b, l, date) {
      MissingIsListed(b, st, l, today, date);
    }
  }

  /** Missing days are listed oldest first, none twice. */
  lemma MissingIncrease(b: Book, st: State, l: Journal.Ledger, today: int)
    ensures var missing := MissingDays(b, st, l, today);
      forall i, j | 0 <= i < j < |missing| :: missing[i].date < missing[j].date
  {
    if l.startDate <= today {
      var closed := ClosedDailyGross(st, l.startDate, today);
      var kept := Filter(Unrecorded(b.deposits, l.id), closed);
      var sorted := SortBy(GrossDate(), kept);
      GrossDatesDistinct(st, l.startDate, today);
      FilterKeepsDistinct(Unrecorded(b.deposits, l.id), GrossDate(), closed);
      SortKeepsDistinct(GrossDate(), kept);
      forall i, j | 0 <= i < j < |sorted|
        ensures sorted[i].date < sorted[j].date
      {
        assert GrossDate()(sorted[i]) <= GrossDate()(sorted[j]) && GrossDate()(sorted[i]) != GrossDate()(sorted[j]);
      }
    }
  }

  /** Each listed day carries the gross of its one closed day and the suggestion of the rate in force
      on its own date. */
  lemma MissingDayFigures(b: Book, st: State, l: Journal.Ledger, today: int, m: MissingDay)
    requires Ledger.DaysInv(st.days) && m in MissingDays(b, st, l, today)
    ensures exists d | d in st.days ::
      !d.isOpen && d.date == m.date && m.gross == Store.DayFigures(st, d.id).Gross()
    ensures m.suggested == SuggestFor(l.kind, m.gross, FindRateInForce(b.rates, l.id, m.date))
  {
    var g := ListedGross(b, st, l, today, m);
    GrossOfTheDay(st, l.startDate, today, g);
  }

  // ----- depositing everything that is missing

  predicate Covers(entries: seq<Entry>, missing: seq<MissingDay>)
  {
    && KeysDistinct(EntryDate(), entries)
    && (forall e | e in entries :: Lists(missing, e.date) && GoodAmount(e.amount))
    && (forall m | m in missing :: exists e | e in entries :: e.date == m.date)
  }

  lemma MissingRowsFit(
      b: Book, st: State, l: Journal.Ledger, today: int, entries: seq<Entry>, firstId: Id)
    requires forall e | e in entries :: Lists(MissingDays(b, st, l, today), e.date)
    requires forall d | d in b.deposits :: d.id < firstId
    ensures forall e | e in entries :: l.startDate <= e.date && ClosedOn(st.days, e.date)
    ensures !AnyConflict(b.deposits, Rows(l.id, entries, firstId))
  {
    forall e | e in entries
      ensures l.startDate <= e.date && ClosedOn(st.days, e.date) && !Has(DepositOn(l.id, e.date), b.deposits)
    {
      ListedIsMissing(b, st, l, today, e.date);
      RecordedIff(b, l, e.date);
    }
    var rows := Rows(l.id, entries, firstId);
    forall row | row in rows
      ensures !Conflicts(b.deposits, row)
    {
      var k :| 0 <= k < |rows| && rows[k] == row;
      assert entries[k] in entries;
      FindNone(WithDepositId(row.id), b.deposits);
    }
  }

  lemma UnrefusedBulk(b: Book, st: State, ledger: Id, entries: seq<Entry>, firstId: Id)
    requires entries != [] && |entries| <= MAX_BULK_DEPOSITS && !BadAmounts(entries)
    requires var l := Find(WithLedgerId(ledger), b.ledgers);
      l < |b.ledgers| && BulkRefusal(b, st, b.ledgers[l], SortBy(EntryDate(), entries), firstId).None?
    ensures CreateDepositsBulk(b, st, ledger, entries, firstId).1.None?
  {
  }

  lemma MissingBulkSucceeds(
      b: Book, st: State, l: Journal.Ledger, today: int, entries: seq<Entry>, firstId: Id)
    requires Find(WithLedgerId(l.id), b.ledgers) < |b.ledgers|
    requires b.ledgers[Find(WithLedgerId(l.id), b.ledgers)] == l
    requires entries != [] && |entries| <= MAX_BULK_DEPOSITS && Covers(entries, MissingDays(b, st, l, today))
    requires forall d | d in b.deposits :: d.id < firstId
    ensures CreateDepositsBulk(b, st, l.id, entries, firstId).1.None?
  {
    NothingRefused(b, st, l, today, entries, firstId);
    UnrefusedBulk(b, st, l.id, entries, firstId);
  }

  lemma NothingRefused(
      b: Book, st: State, l: Journal.Ledger, today: int, entries: seq<Entry>, firstId: Id)
    requires entries != [] && Covers(entries, MissingDays(b, st, l, today))
    requires forall d | d in b.deposits :: d.id < firstId
    ensures BulkRefusal(b, st, l, SortBy(EntryDate(), entries), firstId).None?
  {
    var sorted := SortBy(EntryDate(), entries);
    SortKeepsDistinct(EntryDate(), entries);
    MissingRowsFit(b, st, l, today, sorted, firstId);
    AcceptedIff(b, st, l, sorted, firstId);
  }

  lemma {:induction false} RowsAddUp(ledger: Id, entries: seq<Entry>, firstId: Id)
    ensures Sum(DepositedTo(ledger), Rows(ledger, entries, firstId)) == Sum(EntryAmount(), entries)
    decreases |entries|
  {
    if entries != [] {
      RowsAddUp(ledger, entries[1..], firstId + 1);
      SumConcat(DepositedTo(ledger), [Deposit(firstId, ledger, entries[0].date, entries[0].amount)],
                Rows(ledger, entries[1..], firstId + 1));
      SumOne(DepositedTo(ledger), Deposit(firstId, ledger, entries[0].date, entries[0].amount));
    }
  }

  /** Depositing once for every missing day, at most a thousand of them, succeeds, leaves no day
      missing, and raises the balance by exactly what was deposited. */
  lemma BulkClearsTheList(
      b: Book, st: State, l: Journal.Ledger, today: int, entries: seq<Entry>, firstId: Id)
    requires Find(WithLedgerId(l.id), b.ledgers) < |b.ledgers|
    requires b.ledgers[Find(WithLedgerId(l.id), b.ledgers)] == l
    requires entries != [] && |entries| <= MAX_BULK_DEPOSITS && Covers(entries, MissingDays(b, st, l, today))
    requires forall d | d in b.deposits :: d.id < firstId
    ensures var (after, problem) := CreateDepositsBulk(b, st, l.id, entries, firstId);
      && problem.None?
      && MissingDays(after, st, l, today) == []
      && Balance(after, l) == Balance(b, l) + Sum(EntryAmount(), entries)
  {
    var after := CreateDepositsBulk(b, st, l.id, entries, firstId).0;
    var sorted := SortBy(EntryDate(), entries);
    var rows := Rows(l.id, sorted, firstId);
    MissingBulkSucceeds(b, st, l, today, entries, firstId);
    BulkFits(b, st, l.id, entries, firstId);
    SumConcat(DepositedTo(l.id), b.deposits, rows);
    RowsAddUp(l.id, sorted, firstId);
    SumSorted(EntryAmount(), EntryDate(), entries);
    NoneLeft(b, after, st, l, today, sorted, firstId);
  }

  /** More deposits can only shorten the list. */
  lemma StillMissing(b: Book, rows: seq<Deposit>, st: State, l: Journal.Ledger, today: int, date: int)
    requires Lists(MissingDays(b.(deposits := b.deposits + rows), st, l, today), date)
    ensures Lists(MissingDays(b, st, l, today), date)
    ensures forall row | row in rows :: row.ledger != l.id || row.date != date
  {
    var after := b.(deposits := b.deposits + rows);
    MissingIff(b, st, l, today, date);
    MissingIff(after, st, l, today, date);
    assert forall d | d in b.deposits + rows :: d in after.deposits;
  }

  lemma RowOf(ledger: Id, sorted: seq<Entry>, firstId: Id, e: Entry) returns (row: Deposit)
    requires e in sorted
    ensures row in Rows(ledger, sorted, firstId) && row.ledger == ledger && row.date == e.date
  {
    var k :| 0 <= k < |sorted| && sorted[k] == e;
    row := Rows(ledger, sorted, firstId)[k];
  }

  lemma NoneLeft(
      b: Book, after: Book, st: State, l: Journal.Ledger, today: int, sorted: seq<Entry>, firstId: Id)
    requires after == b.(deposits := b.deposits + Rows(l.id, sorted, firstId))
    requires forall m | m in MissingDays(b, st, l, today) :: exists e | e in sorted :: e.date == m.date
    ensures MissingDays(after, st, l, today) == []
  {
    var rows := Rows(l.id, sorted, firstId);
    var left := MissingDays(after, st, l, today);
    if left != [] {
      assert left[0] in left;
      StillMissing(b, rows, st, l, today, left[0].date);
      var m :| m in MissingDays(b, st, l, today) && m.date == left[0].date;
      var e :| e in sorted && e.date == m.date;
      var row := RowOf(l.id, sorted, firstId, e);
    }
  }
}
