/** The journal tables and the requests that change them row by row, each against its
    specification. */
module JournalTables {
  import opened Journal
  import opened Rates
  import opened Reports
  import opened Sorting
  import opened Tables
  import opened MissingDayLaws
  import Store

  /** The first date listed twice, or the number of dates. */
  method FindRepeat(dates: seq<int>) returns (at: nat)
    ensures at == FirstRepeat(dates, 0)
  {
    var seen := {};
    at := 0;
    while at < |dates|
      invariant 0 <= at <= |dates|
      invariant forall x :: x in seen <==> exists j | 0 <= j < at :: dates[j] == x
      invariant FirstRepeat(dates, 0) == FirstRepeat(dates, at)
    {
      if dates[at] in seen {
        return;
      }
      seen := seen + {dates[at]};
      at := at + 1;
    }
  }

  method FindEarly(start: int, dates: seq<int>) returns (at: nat)
    ensures at == Find(EarlierThan(start), dates)
  {
    at := 0;
    while at < |dates| && dates[at] >= start
      invariant at <= |dates|
      invariant forall j | 0 <= j < at :: !EarlierThan(start)(dates[j])
    {
      at := at + 1;
    }
    FoundAt(EarlierThan(start), dates, at);
  }

  method FindMissed(closed: seq<DatedGross>, dates: seq<int>) returns (at: nat)
    ensures at == Find(Missed(closed), dates)
  {
    var closedDates := set g | g in closed :: g.date;
    forall date
      ensures date in closedDates <==> !Missed(closed)(date)
    {
      HasDate(closed, date);
    }
    at := 0;
    while at < |dates| && dates[at] in closedDates
      invariant at <= |dates|
      invariant forall j | 0 <= j < at :: !Missed(closed)(dates[j])
    {
      at := at + 1;
    }
    FoundAt(Missed(closed), dates, at);
  }

  method FindIneligible(st: Store.State, start: int, dates: seq<int>) returns (problem: Option<Problem>)
    requires dates != []
    ensures problem == Ineligible(st, start, dates)
  {
    var early := FindEarly(start, dates);
    if early < |dates| {
      return Some(BeforeStart(dates[early]));
    }
    var sorted := SortBy(Same(), dates);
    var closed := GetClosedDailyGross(st, sorted[0], sorted[|sorted| - 1]);
    var open := FindMissed(closed, dates);
    problem := if open < |dates| then Some(NotClosed(dates[open])) else None;
  }

  method FindRefusal(st: Store.State, start: int, dates: seq<int>) returns (refusal: Option<Problem>)
    requires dates != []
    ensures refusal == DateRefusal(st, start, dates)
  {
    var repeat := FindRepeat(dates);
    if repeat < |dates| {
      return Some(Repeated(dates[repeat]));
    }
    refusal := FindIneligible(st, start, dates);
  }

  lemma FoundAt<T>(p: T -> bool, rows: seq<T>, k: nat)
    requires k <= |rows| && (k < |rows| ==> p(rows[k]))
    requires forall j | 0 <= j < k :: !p(rows[j])
    ensures Find(p, rows) == k
  {
  }

  lemma HasDate(closed: seq<DatedGross>, date: int)
    ensures Has(Dated(date), closed) <==> exists g | g in closed :: g.date == date
  {
    if g :| g in closed && g.date == date {
      var k :| 0 <= k < |closed| && closed[k] == g;
      assert Dated(date)(closed[k]);
    }
  }

  predicate RowsDistinct(rows: seq<Deposit>)
  {
    forall i, j | 0 <= i < j < |rows| :: rows[i].id != rows[j].id && rows[i].date != rows[j].date
  }

  lemma ConflictOfOneRow(deposits: seq<Deposit>, rows: seq<Deposit>, k: nat)
    requires k < |rows|
    requires RowsDistinct(rows)
    ensures Conflicts(deposits + rows[..k], rows[k]) <==> Conflicts(deposits, rows[k])
  {
    var row := rows[k];
    forall r | r in rows[..k]
      ensures !DepositOn(row.ledger, row.date)(r) && !WithDepositId(row.id)(r)
    {
      var j :| 0 <= j < k && rows[j] == r;
    }
    HasNoneAfter(DepositOn(row.ledger, row.date), deposits, rows[..k]);
    HasNoneAfter(WithDepositId(row.id), deposits, rows[..k]);
  }

  lemma {:induction false} HasNoneAfter<T>(p: T -> bool, rows: seq<T>, more: seq<T>)
    requires forall r | r in more :: !p(r)
    ensures Has(p, rows + more) <==> Has(p, rows)
  {
    if rows == [] {
      assert rows + more == more;
      FindNone(p, more);
    } else {
      assert (rows + more)[1..] == rows[1..] + more;
      HasNoneAfter(p, rows[1..], more);
    }
  }

  lemma DistinctDates(st: Store.State, start: int, ledger: Id, sorted: seq<Entry>, firstId: Id)
    requires sorted != [] && DateRefusal(st, start, Map(EntryDate(), sorted)).None?
    ensures RowsDistinct(Rows(ledger, sorted, firstId))
  {
    NoRepeatIff(sorted);
    forall i, j | 0 <= i < j < |sorted|
      ensures sorted[i].date != sorted[j].date
    {
      assert EntryDate()(sorted[i]) != EntryDate()(sorted[j]);
    }
  }

  lemma SuggestionOfScan(rates: seq<Rate>, l: Journal.Ledger, day: DatedGross, scanned: Option<Rate>)
    requires RatesSound(rates)
    requires !l.kind.NoSuggestion? ==> InForce(Filter(OfLedger(l.id), rates), l.id, day.date, scanned)
    ensures SuggestFor(l.kind, day.gross, scanned)
         == SuggestFor(l.kind, day.gross, FindRateInForce(rates, l.id, day.date))
  {
    if !l.kind.NoSuggestion? {
      ScanAgreesWithQuery(rates, l.id, day.date, scanned);
    }
  }

  class JournalBook {
    var ledgers: seq<Journal.Ledger>
    var deposits: seq<Deposit>
    var withdrawals: seq<Withdrawal>
    var rates: seq<Rate>

    ghost function View(): Book
      reads this
    {
      Book(ledgers, deposits, withdrawals, rates)
    }

    constructor (builtIn: seq<Journal.Ledger>)
      ensures View() == Book(builtIn, [], [], [])
    {
      ledgers, deposits, withdrawals, rates := builtIn, [], [], [];
    }

    method AddDeposit(st: Store.State, ledger: Id, date: int, amount: int, id: Id) returns (problem: Option<Problem>)
      modifies `deposits
      ensures (View(), problem) == CreateDeposit(old(View()), st, ledger, date, amount, id)
    {
      if !GoodAmount(amount) {
        return Some(BadRequest);
      }
      var l := Find(WithLedgerId(ledger), ledgers);
      if l == |ledgers| {
        return Some(LedgerNotFound);
      }
      problem := FindIneligible(st, ledgers[l].startDate, [date]);
      if problem.Some? {
        return;
      }
      var row := Deposit(id, ledger, date, amount);
      if Conflicts(deposits, row) {
        return Some(Duplicate);
      }
      deposits := deposits + [row];
    }

    method ChangeDeposit(st: Store.State, id: Id, date: int, amount: int) returns (problem: Option<Problem>)
      modifies `deposits
      ensures (View(), problem) == UpdateDeposit(old(View()), st, id, date, amount)
    {
      if !GoodAmount(amount) {
        return Some(BadRequest);
      }
      var d := Find(WithDepositId(id), deposits);
      if d == |deposits| {
        return Some(DepositNotFound);
      }
      var l := Find(WithLedgerId(deposits[d].ledger), ledgers);
      if l == |ledgers| {
        return Some(LedgerNotFound);
      }
      problem := FindIneligible(st, ledgers[l].startDate, [date]);
      if problem.Some? {
        return;
      }
      if Has(DepositOn(deposits[d].ledger, date), Without(deposits, d)) {
        return Some(Duplicate);
      }
      deposits := deposits[d := deposits[d].(date := date, amount := amount)];
    }

    method DropDeposit(id: Id) returns (problem: Option<Problem>)
      modifies `deposits
      ensures (View(), problem) == RemoveDeposit(old(View()), id)
    {
      var d := Find(WithDepositId(id), deposits);
      if d == |deposits| {
        return Some(DepositNotFound);
      }
      deposits := Without(deposits, d);
      problem := None;
    }

    method Withdraw(ledger: Id, on: int, amount: int, id: Id) returns (problem: Option<Problem>)
      modifies `withdrawals
      ensures (View(), problem) == CreateWithdrawal(old(View()), ledger, on, amount, id)
    {
      if !GoodAmount(amount) || amount == 0 {
        return Some(BadRequest);
      }
      if !Has(WithLedgerId(ledger), ledgers) {
        return Some(LedgerNotFound);
      }
      withdrawals := withdrawals + [Withdrawal(id, ledger, on, amount)];
      problem := None;
    }

    method ChangeLedger(ledger: Id, start: int, balance: int) returns (problem: Option<Problem>)
      modifies `ledgers
      ensures (View(), problem) == UpdateLedger(old(View()), ledger, start, balance)
    {
      var l := Find(WithLedgerId(ledger), ledgers);
      if l == |ledgers| {
        return Some(LedgerNotFound);
      }
      var recorded := SortBy(DepositDate(), Filter(DepositOf(ledger), deposits));
      if recorded != [] && start > recorded[0].date {
        return Some(StartAfterDeposit(recorded[0].date));
      }
      ledgers := ledgers[l := ledgers[l].(startDate := start, startingBalance := balance)];
      problem := None;
    }

    method AddLedger(id: Id, name: string, start: int, balance: int) returns (problem: Option<Problem>)
      modifies `ledgers
      ensures (View(), problem) == CreateLedger(old(View()), id, name, start, balance)
    {
      if Has(Named(name), ledgers) || Has(WithLedgerId(id), ledgers) {
        return Some(Duplicate);
      }
      ledgers := ledgers + [Journal.Ledger(id, name, start, balance, NoSuggestion)];
      problem := None;
    }

    method SetRate(ledger: Id, today: int, input: Terms) returns (problem: Option<Problem>)
      modifies `rates
      ensures (View(), problem) == ChangeRate(old(View()), ledger, today, input)
    {
      var l := Find(WithLedgerId(ledger), ledgers);
      if l == |ledgers| {
        return Some(LedgerNotFound);
      }
      var terms := TermsFor(ledgers[l].kind, input);
      if terms.Err? {
        return Some(BadRate(terms.error));
      }
      rates := Upsert(rates, ledger, today, terms.value);
      problem := None;
    }

    /** The rows are created one after the other; a refused row takes all of them back. */
    method InsertRows(rows: seq<Deposit>) returns (ok: bool)
      requires RowsDistinct(rows)
      modifies `deposits
      ensures ok == !AnyConflict(old(deposits), rows)
      ensures deposits == if ok then old(deposits) + rows else old(deposits)
    {
      var before := deposits;
      for k := 0 to |rows|
        invariant deposits == before + rows[..k]
        invariant forall j | 0 <= j < k :: !Conflicts(before, rows[j])
      {
        ConflictOfOneRow(before, rows, k);
        if Conflicts(deposits, rows[k]) {
          assert rows[k] in rows;
          deposits := before;
          return false;
        }
        deposits := deposits + [rows[k]];
      }
      assert rows[..|rows|] == rows;
      ok := true;
    }

    method AddSorted(st: Store.State, l: Journal.Ledger, sorted: seq<Entry>, firstId: Id)
        returns (refusal: Option<Problem>)
      requires sorted != []
      modifies `deposits
      ensures refusal == BulkRefusal(old(View()), st, l, sorted, firstId)
      ensures deposits == if refusal.None? then old(deposits) + Rows(l.id, sorted, firstId) else old(deposits)
    {
      refusal := FindRefusal(st, l.startDate, Map(EntryDate(), sorted));
      if refusal.Some? {
        return;
      }
      DistinctDates(st, l.startDate, l.id, sorted, firstId);
      var ok := InsertRows(Rows(l.id, sorted, firstId));
      refusal := if ok then None else Some(Duplicate);
    }

    method AddDeposits(st: Store.State, ledger: Id, entries: seq<Entry>, firstId: Id)
        returns (problem: Option<Problem>)
      modifies `deposits
      ensures (View(), problem) == CreateDepositsBulk(old(View()), st, ledger, entries, firstId)
    {
      if entries == [] || |entries| > MAX_BULK_DEPOSITS || BadAmounts(entries) {
        return Some(BadRequest);
      }
      var l := Find(WithLedgerId(ledger), ledgers);
      if l == |ledgers| {
        return Some(LedgerNotFound);
      }
      problem := AddSorted(st, ledgers[l], SortBy(EntryDate(), entries), firstId);
    }

    /** The closed days without a deposit, each with the suggestion of a scan over the ledger's rates. */
    method GetMissingDays(st: Store.State, ledger: Id, today: int) returns (missing: seq<MissingDay>)
      requires RatesSound(rates)
      requires Find(WithLedgerId(ledger), ledgers) < |ledgers|
      ensures missing == MissingDays(View(), st, ledgers[Find(WithLedgerId(ledger), ledgers)], today)
    {
      var l := ledgers[Find(WithLedgerId(ledger), ledgers)];
      if l.startDate > today {
        return [];
      }
      var closed := GetClosedDailyGross(st, l.startDate, today);
      var days := SortBy(GrossDate(), Filter(Unrecorded(deposits, l.id), closed));
      missing := SuggestAll(rates, l, days);
    }
  }

  lemma SuggestedByScan(rates: seq<Rate>, l: Journal.Ledger, day: DatedGross, scanned: Option<Rate>)
    requires RatesSound(rates)
    requires !l.kind.NoSuggestion? ==> InForce(Filter(OfLedger(l.id), rates), l.id, day.date, scanned)
    ensures SuggestedBy(rates, l)(day) == MissingDay(day.date, day.gross, SuggestFor(l.kind, day.gross, scanned))
  {
    SuggestionOfScan(rates, l, day, scanned);
  }

  /** One listed day for each day of gross, with the suggestion of a scan over the ledger's rates. */
  method SuggestAll(rates: seq<Rate>, l: Journal.Ledger, days: seq<DatedGross>) returns (missing: seq<MissingDay>)
    requires RatesSound(rates)
    ensures missing == Map(SuggestedBy(rates, l), days)
  {
    var own := if l.kind.NoSuggestion? then [] else Filter(OfLedger(l.id), rates);
    missing := [];
    for k := 0 to |days|
      invariant missing == Map(SuggestedBy(rates, l), days[..k])
    {
      var rate := RateInForceFor(own, l.id, days[k].date);
      SuggestedByScan(rates, l, days[k], rate);
      MapPrefix(SuggestedBy(rates, l), days, k);
      missing := missing + [MissingDay(days[k].date, days[k].gross, SuggestFor(l.kind, days[k].gross, rate))];
    }
    assert days[..|days|] == days;
  }
}
