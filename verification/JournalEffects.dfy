/** When each request of the journal is accepted, what it then writes, and why it is refused otherwise. */
module JournalEffects {
  import opened Journal
  import opened JournalLaws
  import opened MissingDayLaws
  import opened Rates
  import opened Sorting
  import opened Tables
  import opened Money
  import Store
  import opened Reports
  import Acceptance

  // ----- rows as a request finds them

  predicate Known(b: Book, ledger: Id)
  {
    exists l | l in b.ledgers :: l.id == ledger
  }

  predicate DepositIdUsed(b: Book, id: Id)
  {
    exists d | d in b.deposits :: d.id == id
  }

  predicate DateTaken(b: Book, ledger: Id, date: int)
  {
    exists d | d in b.deposits :: d.ledger == ledger && d.date == date
  }

  predicate Fitting(amount: int)
  {
    0 <= amount <= 2_147_483_647
  }

  /** A date may hold a deposit of a ledger: it is closed, and not before the start. */
  predicate MayHold(b: Book, days: seq<Store.Day>, ledger: Id, date: int)
  {
    ClosedOn(days, date) && forall l | l in b.ledgers && l.id == ledger :: l.startDate <= date
  }

  lemma LedgerFound(b: Book, ledger: Id)
    requires LedgersApart(b.ledgers)
    ensures var i := Find(WithLedgerId(ledger), b.ledgers);
      && (i < |b.ledgers| <==> Known(b, ledger))
      && (i < |b.ledgers| ==> b.ledgers[i] in b.ledgers && b.ledgers[i].id == ledger)
      && forall l | l in b.ledgers && l.id == ledger :: i < |b.ledgers| && b.ledgers[i] == l
  {
    Acceptance.HasIff(WithLedgerId(ledger), b.ledgers);
    var i := Find(WithLedgerId(ledger), b.ledgers);
    forall l | l in b.ledgers && l.id == ledger
      ensures i < |b.ledgers| && b.ledgers[i] == l
    {
      var k :| 0 <= k < |b.ledgers| && b.ledgers[k] == l;
      assert WithLedgerId(ledger)(b.ledgers[k]);
    }
  }

  lemma DepositFound(b: Book, id: Id)
    requires forall i, j | 0 <= i < j < |b.deposits| :: b.deposits[i].id != b.deposits[j].id
    ensures var i := Find(WithDepositId(id), b.deposits);
      && (i < |b.deposits| <==> DepositIdUsed(b, id))
      && (i < |b.deposits| ==> b.deposits[i] in b.deposits && b.deposits[i].id == id)
      && forall d | d in b.deposits && d.id == id :: i < |b.deposits| && b.deposits[i] == d
  {
    Acceptance.HasIff(WithDepositId(id), b.deposits);
    var i := Find(WithDepositId(id), b.deposits);
    forall d | d in b.deposits && d.id == id
      ensures i < |b.deposits| && b.deposits[i] == d
    {
      var k :| 0 <= k < |b.deposits| && b.deposits[k] == d;
      assert WithDepositId(id)(b.deposits[k]);
    }
  }

  lemma OneDateEligible(st: State, start: int, date: int)
    ensures Ineligible(st, start, [date]).None? <==> start <= date && ClosedOn(st.days, date)
    ensures Ineligible(st, start, [date]).Some? ==>
      Ineligible(st, start, [date]).value == (if date < start then BeforeStart(date) else NotClosed(date))
  {
    EligibleIff(st, start, [date]);
    assert date in [date];
    assert [date][0] == date;
    assert EarlierThan(start)([date][0]) == (date < start);
  }

  lemma TakenIff(b: Book, ledger: Id, date: int)
    ensures Has(DepositOn(ledger, date), b.deposits) <==> DateTaken(b, ledger, date)
  {
    Acceptance.HasIff(DepositOn(ledger, date), b.deposits);
  }

  // ----- deposits

  predicate MayDeposit(b: Book, days: seq<Store.Day>, ledger: Id, date: int, amount: int, id: Id)
  {
    && Fitting(amount) && Known(b, ledger) && MayHold(b, days, ledger, date)
    && !DateTaken(b, ledger, date) && !DepositIdUsed(b, id)
  }

  lemma DepositFoundOut(b: Book, st: State, ledger: Id, date: int, amount: int, id: Id)
    ensures var (after, problem) := CreateDeposit(b, st, ledger, date, amount, id);
      var l := Find(WithLedgerId(ledger), b.ledgers);
      if && Fitting(amount) && l < |b.ledgers| && Ineligible(st, b.ledgers[l].startDate, [date]).None?
         && !Has(DepositOn(ledger, date), b.deposits) && !Has(WithDepositId(id), b.deposits)
      then problem.None? && after == b.(deposits := b.deposits + [Deposit(id, ledger, date, amount)])
      else problem.Some? && after == b
  {
  }

  /** A deposit is recorded, as sent, if and only if its date may hold one and has none yet. */
  lemma DepositAcceptedIff(b: Book, st: State, ledger: Id, date: int, amount: int, id: Id)
    requires BookInv(st.days, b)
    ensures var (after, problem) := CreateDeposit(b, st, ledger, date, amount, id);
      if MayDeposit(b, st.days, ledger, date, amount, id) then
        problem.None? && after == b.(deposits := b.deposits + [Deposit(id, ledger, date, amount)])
      else problem.Some? && after == b
  {
    DepositFoundOut(b, st, ledger, date, amount, id);
    LedgerFound(b, ledger);
    DepositFound(b, id);
    TakenIff(b, ledger, date);
    var l := Find(WithLedgerId(ledger), b.ledgers);
    if l < |b.ledgers| {
      OneDateEligible(st, b.ledgers[l].startDate, date);
    }
  }

  /** Only the date and the amount of one deposit change. */
  predicate Redated(b: Book, after: Book, i: nat, date: int, amount: int)
  {
    && i < |b.deposits|
    && var d := b.deposits[i];
       after == b.(deposits := b.deposits[i := Deposit(d.id, d.ledger, date, amount)])
  }

  /** A deposit may move to a date that no other deposit of its ledger has. */
  predicate MayRedate(b: Book, days: seq<Store.Day>, d: Deposit, date: int, amount: int)
  {
    && Fitting(amount) && MayHold(b, days, d.ledger, date)
    && forall other | other in b.deposits && other.id != d.id :: !(other.ledger == d.ledger && other.date == date)
  }

  lemma OthersTaken(b: Book, d: nat, ledger: Id, date: int)
    requires d < |b.deposits|
    requires forall i, j | 0 <= i < j < |b.deposits| :: b.deposits[i].id != b.deposits[j].id
    ensures Has(DepositOn(ledger, date), Without(b.deposits, d)) <==>
      exists other | other in b.deposits && other.id != b.deposits[d].id ::
        other.ledger == ledger && other.date == date
  {
    var rest := Without(b.deposits, d);
    Acceptance.HasIff(DepositOn(ledger, date), rest);
    forall other: Deposit
      ensures other in rest <==> other in b.deposits && other.id != b.deposits[d].id
    {
      InTheRest(b.deposits, d, other);
    }
  }

  lemma InTheRest(deposits: seq<Deposit>, d: nat, other: Deposit)
    requires d < |deposits|
    requires forall i, j | 0 <= i < j < |deposits| :: deposits[i].id != deposits[j].id
    ensures other in Without(deposits, d) <==> other in deposits && other.id != deposits[d].id
  {
    var rest := Without(deposits, d);
    if other in deposits && other.id != deposits[d].id {
      var k :| 0 <= k < |deposits| && deposits[k] == other;
      assert rest[if k < d then k else k - 1] == other;
    }
    if other in rest {
      var k :| 0 <= k < |rest| && rest[k] == other;
      assert deposits[if k < d then k else k + 1] == other;
    }
  }

  lemma ChangeFoundOut(b: Book, st: State, id: Id, date: int, amount: int)
    ensures var (after, problem) := UpdateDeposit(b, st, id, date, amount);
      var d := Find(WithDepositId(id), b.deposits);
      var l := if d < |b.deposits| then Find(WithLedgerId(b.deposits[d].ledger), b.ledgers) else 0;
      if && Fitting(amount) && d < |b.deposits| && l < |b.ledgers|
         && Ineligible(st, b.ledgers[l].startDate, [date]).None?
         && !Has(DepositOn(b.deposits[d].ledger, date), Without(b.deposits, d))
      then problem.None? && Redated(b, after, d, date, amount)
      else problem.Some? && after == b
  {
  }

  lemma DepositHasLedger(b: Book, days: seq<Store.Day>, d: Deposit)
    requires BookInv(days, b) && d in b.deposits
    ensures Known(b, d.ledger)
  {
    assert LedgerOk(b.ledgers, days, d);
  }

  /** A deposit is changed, in date and amount alone, if and only if its new date may hold it and no
      other deposit of its ledger has it. */
  lemma ChangeAcceptedIff(b: Book, st: State, id: Id, date: int, amount: int)
    requires BookInv(st.days, b)
    ensures var (after, problem) := UpdateDeposit(b, st, id, date, amount);
      if exists d | d in b.deposits && d.id == id :: MayRedate(b, st.days, d, date, amount) then
        problem.None?
        && exists i: nat | i < |b.deposits| && b.deposits[i].id == id :: Redated(b, after, i, date, amount)
      else problem.Some? && after == b
  {
    ChangeFoundOut(b, st, id, date, amount);
    DepositFound(b, id);
    var d := Find(WithDepositId(id), b.deposits);
    if d < |b.deposits| {
      RedateIff(b, st, d, date, amount);
    }
  }

  lemma RedateIff(b: Book, st: State, d: nat, date: int, amount: int)
    requires BookInv(st.days, b) && d < |b.deposits|
    ensures var l := Find(WithLedgerId(b.deposits[d].ledger), b.ledgers);
      && l < |b.ledgers|
      && (MayRedate(b, st.days, b.deposits[d], date, amount) <==>
            Fitting(amount) && Ineligible(st, b.ledgers[l].startDate, [date]).None?
            && !Has(DepositOn(b.deposits[d].ledger, date), Without(b.deposits, d)))
  {
    var ledger := b.deposits[d].ledger;
    LedgerFound(b, ledger);
    DepositHasLedger(b, st.days, b.deposits[d]);
    OneDateEligible(st, b.ledgers[Find(WithLedgerId(ledger), b.ledgers)].startDate, date);
    OthersTaken(b, d, ledger, date);
  }

  /** A deposit is removed if and only if it exists, and no other with it. */
  lemma RemovalAcceptedIff(b: Book, days: seq<Store.Day>, id: Id)
    requires BookInv(days, b)
    ensures var (after, problem) := RemoveDeposit(b, id);
      if DepositIdUsed(b, id) then
        && problem.None? && after == b.(deposits := after.deposits) && |after.deposits| == |b.deposits| - 1
        && forall d :: d in after.deposits <==> d in b.deposits && d.id != id
      else problem.Some? && after == b
  {
    DepositFound(b, id);
    var i := Find(WithDepositId(id), b.deposits);
    if i < |b.deposits| {
      forall d: Deposit
        ensures d in Without(b.deposits, i) <==> d in b.deposits && d.id != id
      {
        InTheRest(b.deposits, i, d);
      }
    }
  }

  // ----- withdrawals

  /** A withdrawal of at least a cent from a known ledger is recorded as sent, any other refused. */
  lemma WithdrawalAcceptedIff(b: Book, ledger: Id, on: int, amount: int, id: Id)
    ensures var (after, problem) := CreateWithdrawal(b, ledger, on, amount, id);
      if 1 <= amount <= 2_147_483_647 && Known(b, ledger) then
        problem.None? && after == b.(withdrawals := b.withdrawals + [Withdrawal(id, ledger, on, amount)])
      else problem.Some? && after == b
  {
    Acceptance.HasIff(WithLedgerId(ledger), b.ledgers);
  }

  // ----- ledgers

  /** A ledger is created, with nothing suggested, if and only if its name differs from every other
      without regard to case. */
  lemma LedgerAcceptedIff(b: Book, id: Id, name: string, start: int, balance: int)
    ensures var (after, problem) := CreateLedger(b, id, name, start, balance);
      if forall l | l in b.ledgers :: Lower(l.name) != Lower(name) && l.id != id then
        problem.None? && after == b.(ledgers := b.ledgers + [Journal.Ledger(id, name, start, balance, NoSuggestion)])
      else problem.Some? && after == b
  {
    Acceptance.HasIff(Named(name), b.ledgers);
    Acceptance.HasIff(WithLedgerId(id), b.ledgers);
  }

  /** Letters A to Z count as their small ones, and every other character as itself. */
  predicate SameLetter(c: char, d: char)
  {
    c == d || ('A' <= c <= 'Z' && d as int == c as int + 32) || ('A' <= d <= 'Z' && c as int == d as int + 32)
  }

  /** Two names are the same exactly when they agree letter by letter without regard to case. */
  lemma SameNameIff(a: string, b: string)
    ensures Lower(a) == Lower(b) <==> |a| == |b| && forall i | 0 <= i < |a| :: SameLetter(a[i], b[i])
  {
    forall c, d
      ensures LowerLetter()(c) == LowerLetter()(d) <==> SameLetter(c, d)
    {
      LetterIff(c, d);
    }
    if Lower(a) == Lower(b) {
      assert forall i | 0 <= i < |a| :: Lower(a)[i] == LowerLetter()(a[i]) && Lower(b)[i] == LowerLetter()(b[i]);
    } else if |a| == |b| {
      var i :| 0 <= i < |a| && Lower(a)[i] != Lower(b)[i];
    }
  }

  lemma LetterIff(c: char, d: char)
    ensures LowerLetter()(c) == LowerLetter()(d) <==> SameLetter(c, d)
  {
  }

  /** Only the start and the starting balance of one ledger change. */
  predicate Restarted(b: Book, after: Book, i: nat, start: int, balance: int)
  {
    && i < |b.ledgers|
    && var l := b.ledgers[i];
       after == b.(ledgers := b.ledgers[i := Journal.Ledger(l.id, l.name, start, balance, l.kind)])
  }

  lemma EarliestIsFirst(b: Book, ledger: Id, start: int)
    ensures var recorded := SortBy(DepositDate(), Filter(DepositOf(ledger), b.deposits));
      (recorded != [] && start > recorded[0].date) <==>
        exists d | d in b.deposits && d.ledger == ledger :: d.date < start
    ensures var recorded := SortBy(DepositDate(), Filter(DepositOf(ledger), b.deposits));
      recorded != [] ==>
        && recorded[0] in b.deposits && recorded[0].ledger == ledger
        && forall d | d in b.deposits && d.ledger == ledger :: recorded[0].date <= d.date
  {
    var recorded := SortBy(DepositDate(), Filter(DepositOf(ledger), b.deposits));
    forall d | d in b.deposits && d.ledger == ledger
      ensures d in recorded
    {
      assert DepositOf(ledger)(d);
    }
    if recorded != [] {
      assert recorded[0] in recorded;
      forall d | d in recorded
        ensures recorded[0].date <= d.date
      {
        var k :| 0 <= k < |recorded| && recorded[k] == d;
        assert DepositDate()(recorded[0]) <= DepositDate()(recorded[k]);
      }
    }
  }

  lemma StartFoundOut(b: Book, ledger: Id, start: int, balance: int)
    ensures var (after, problem) := UpdateLedger(b, ledger, start, balance);
      var l := Find(WithLedgerId(ledger), b.ledgers);
      var recorded := SortBy(DepositDate(), Filter(DepositOf(ledger), b.deposits));
      if l < |b.ledgers| && !(recorded != [] && start > recorded[0].date) then
        problem.None? && Restarted(b, after, l, start, balance)
      else
        && after == b
        && problem == Some(if l == |b.ledgers| then LedgerNotFound else StartAfterDeposit(recorded[0].date))
  {
  }

  /** A ledger gets a new start and balance if and only if no deposit of it lies before that start; a
      refusal names the earliest one. */
  lemma StartAcceptedIff(b: Book, ledger: Id, start: int, balance: int)
    ensures var (after, problem) := UpdateLedger(b, ledger, start, balance);
      if Known(b, ledger) && forall d | d in b.deposits && d.ledger == ledger :: start <= d.date then
        && problem.None?
        && exists i: nat | i < |b.ledgers| && b.ledgers[i].id == ledger :: Restarted(b, after, i, start, balance)
      else
        && after == b && problem.Some?
        && (if !Known(b, ledger) then problem.value == LedgerNotFound
            else exists d | d in b.deposits && d.ledger == ledger ::
              && problem.value == StartAfterDeposit(d.date) && d.date < start
              && forall e | e in b.deposits && e.ledger == ledger :: d.date <= e.date)
  {
    StartFoundOut(b, ledger, start, balance);
    EarliestIsFirst(b, ledger, start);
    Acceptance.HasIff(WithLedgerId(ledger), b.ledgers);
  }

  /** A rate is set from today on if and only if the ledger is known and the terms are of its kind; rates
      of other ledgers and other days stay. */
  lemma RateAcceptedIff(b: Book, ledger: Id, today: int, input: Terms)
    requires LedgersApart(b.ledgers)
    ensures var (after, problem) := ChangeRate(b, ledger, today, input);
      if exists l | l in b.ledgers && l.id == ledger :: OfKind(l.kind, input) then
        && problem.None? && after == b.(rates := after.rates) && Rate(ledger, today, input) in after.rates
        && forall r: Rate | r.ledger != ledger || r.from != today :: r in after.rates <==> r in b.rates
      else problem.Some? && after == b
  {
    LedgerFound(b, ledger);
    var l := Find(WithLedgerId(ledger), b.ledgers);
    if l < |b.ledgers| {
      TermsAcceptedIff(b.ledgers[l].kind, input);
      if OfKind(b.ledgers[l].kind, input) {
        UpsertedRates(b.rates, ledger, today, input);
      }
    }
  }

  /** The runs of rate changes are runs of this request. */
  lemma ChangeRateUpdates(b: Book, today: int, input: Terms, l: nat)
    requires LedgersApart(b.ledgers) && l < |b.ledgers|
    ensures ChangeRate(b, b.ledgers[l].id, today, input).0
      == b.(rates := UpdateRate(b.rates, Change(b.ledgers[l].id, b.ledgers[l].kind, today, input)))
  {
    LedgerFound(b, b.ledgers[l].id);
    assert b.ledgers[l] in b.ledgers;
  }

  lemma UpsertedRates(rates: seq<Rate>, ledger: Id, today: int, terms: Terms)
    ensures Rate(ledger, today, terms) in Upsert(rates, ledger, today, terms)
    ensures forall r: Rate | r.ledger != ledger || r.from != today ::
      r in Upsert(rates, ledger, today, terms) <==> r in rates
  {
    var i := Find(EffectiveOn(ledger, today), rates);
    assert Upsert(rates, ledger, today, terms)[i] == Rate(ledger, today, terms);
    forall r: Rate | r.ledger != ledger || r.from != today
      ensures r in Upsert(rates, ledger, today, terms) <==> r in rates
    {
      UpsertMembers(rates, ledger, today, terms, r);
    }
  }

  // ----- several deposits at once

  predicate MayDepositAll(b: Book, days: seq<Store.Day>, ledger: Id, entries: seq<Entry>, firstId: Id)
  {
    && 1 <= |entries| <= 1_000 && AllFitting(entries) && Known(b, ledger)
    && DatesMayHold(b, days, ledger, entries, firstId)
  }

  predicate AllFitting(entries: seq<Entry>)
  {
    forall e | e in entries :: Fitting(e.amount)
  }

  /** Each date comes once, may hold a deposit of the ledger and has none yet. */
  predicate DatesMayHold(b: Book, days: seq<Store.Day>, ledger: Id, entries: seq<Entry>, firstId: Id)
  {
    && (forall i, j | 0 <= i < j < |entries| :: entries[i].date != entries[j].date)
    && (forall e | e in entries :: MayHold(b, days, ledger, e.date) && !DateTaken(b, ledger, e.date))
    && IdsFree(b, firstId, |entries|)
  }

  predicate IdsFree(b: Book, firstId: Id, n: nat)
  {
    forall d | d in b.deposits :: !(firstId <= d.id < firstId + n)
  }

  /** One row per entry, in the order of their dates, under consecutive ids. */
  predicate RowsOf(rows: seq<Deposit>, ledger: Id, entries: seq<Entry>, firstId: Id)
  {
    && |rows| == |entries| && (forall i, j | 0 <= i < j < |rows| :: rows[i].date < rows[j].date)
    && (forall k | 0 <= k < |rows| ::
          rows[k].id == firstId + k && rows[k].ledger == ledger
          && Entry(rows[k].date, rows[k].amount) in entries)
    && (forall e | e in entries :: exists row | row in rows :: row.date == e.date && row.amount == e.amount)
  }

  predicate DatesAscend(entries: seq<Entry>)
  {
    forall i, j | 0 <= i < j < |entries| :: entries[i].date < entries[j].date
  }

  predicate RowFor(row: Deposit, ledger: Id, e: Entry, id: Id)
  {
    row.id == id && row.ledger == ledger && row.date == e.date && row.amount == e.amount
  }

  lemma SortedAscends(entries: seq<Entry>)
    requires KeysDistinct(EntryDate(), SortBy(EntryDate(), entries))
    ensures DatesAscend(SortBy(EntryDate(), entries))
  {
    var sorted := SortBy(EntryDate(), entries);
    forall i, j | 0 <= i < j < |sorted|
      ensures sorted[i].date < sorted[j].date
    {
      assert EntryDate()(sorted[i]) <= EntryDate()(sorted[j]) && EntryDate()(sorted[i]) != EntryDate()(sorted[j]);
    }
  }

  lemma EachHasItsRow(rows: seq<Deposit>, ledger: Id, entries: seq<Entry>, sorted: seq<Entry>, firstId: Id)
    requires |rows| == |sorted| == |entries| && DatesAscend(sorted)
    requires forall k | 0 <= k < |rows| :: RowFor(rows[k], ledger, sorted[k], firstId + k)
    requires forall e :: e in sorted <==> e in entries
    ensures RowsOf(rows, ledger, entries, firstId)
  {
    forall k | 0 <= k < |rows|
      ensures rows[k].id == firstId + k && rows[k].ledger == ledger
      ensures Entry(rows[k].date, rows[k].amount) in entries
    {
      assert RowFor(rows[k], ledger, sorted[k], firstId + k);
      assert Entry(rows[k].date, rows[k].amount) == sorted[k] && sorted[k] in sorted;
    }
    forall e | e in entries
      ensures exists row | row in rows :: row.date == e.date && row.amount == e.amount
    {
      var k :| 0 <= k < |sorted| && sorted[k] == e;
      assert RowFor(rows[k], ledger, sorted[k], firstId + k) && rows[k] in rows;
    }
    forall i, j | 0 <= i < j < |rows|
      ensures rows[i].date < rows[j].date
    {
      assert RowFor(rows[i], ledger, sorted[i], firstId + i) && RowFor(rows[j], ledger, sorted[j], firstId + j);
    }
  }

  lemma RowsAreFor(ledger: Id, sorted: seq<Entry>, firstId: Id)
    ensures var rows := Rows(ledger, sorted, firstId);
      forall k | 0 <= k < |rows| :: RowFor(rows[k], ledger, sorted[k], firstId + k)
  {
  }

  lemma SortedRows(ledger: Id, entries: seq<Entry>, firstId: Id)
    requires KeysDistinct(EntryDate(), SortBy(EntryDate(), entries))
    ensures RowsOf(Rows(ledger, SortBy(EntryDate(), entries), firstId), ledger, entries, firstId)
  {
    var sorted := SortBy(EntryDate(), entries);
    SortedAscends(entries);
    RowsAreFor(ledger, sorted, firstId);
    EachHasItsRow(Rows(ledger, sorted, firstId), ledger, entries, sorted, firstId);
  }

  lemma DistinctEitherWay(entries: seq<Entry>)
    ensures KeysDistinct(EntryDate(), SortBy(EntryDate(), entries)) <==>
      forall i, j | 0 <= i < j < |entries| :: entries[i].date != entries[j].date
  {
    if forall i, j | 0 <= i < j < |entries| :: entries[i].date != entries[j].date {
      forall i, j | 0 <= i < j < |entries|
        ensures EntryDate()(entries[i]) != EntryDate()(entries[j])
      {
        assert entries[i].date != entries[j].date;
      }
      SortKeepsDistinct(EntryDate(), entries);
    } else {
      var i, j :| 0 <= i < j < |entries| && entries[i].date == entries[j].date;
      SortKeepsRepeats(EntryDate(), entries, i, j);
    }
  }

  lemma OneConflictIff(b: Book, row: Deposit)
    ensures Conflicts(b.deposits, row) <==> DateTaken(b, row.ledger, row.date) || DepositIdUsed(b, row.id)
  {
    TakenIff(b, row.ledger, row.date);
    Acceptance.HasIff(WithDepositId(row.id), b.deposits);
  }

  predicate Free(b: Book, ledger: Id, sorted: seq<Entry>, firstId: Id)
  {
    (forall e | e in sorted :: !DateTaken(b, ledger, e.date)) && IdsFree(b, firstId, |sorted|)
  }

  lemma FreeRows(b: Book, ledger: Id, sorted: seq<Entry>, firstId: Id)
    requires Free(b, ledger, sorted, firstId)
    ensures !AnyConflict(b.deposits, Rows(ledger, sorted, firstId))
  {
    var rows := Rows(ledger, sorted, firstId);
    forall row | row in rows
      ensures !Conflicts(b.deposits, row)
    {
      var k :| 0 <= k < |rows| && rows[k] == row;
      assert sorted[k] in sorted;
      OneConflictIff(b, row);
    }
  }

  lemma UnfreeRows(b: Book, ledger: Id, sorted: seq<Entry>, firstId: Id)
    requires !Free(b, ledger, sorted, firstId)
    ensures AnyConflict(b.deposits, Rows(ledger, sorted, firstId))
  {
    var rows := Rows(ledger, sorted, firstId);
    var k: nat;
    if e :| e in sorted && DateTaken(b, ledger, e.date) {
      k :| 0 <= k < |sorted| && sorted[k] == e;
    } else {
      var d :| d in b.deposits && firstId <= d.id < firstId + |sorted|;
      k := d.id - firstId;
    }
    OneConflictIff(b, rows[k]);
    assert rows[k] in rows;
  }

  lemma ConflictIff(b: Book, ledger: Id, sorted: seq<Entry>, firstId: Id)
    ensures AnyConflict(b.deposits, Rows(ledger, sorted, firstId)) <==> !Free(b, ledger, sorted, firstId)
  {
    if Free(b, ledger, sorted, firstId) {
      FreeRows(b, ledger, sorted, firstId);
    } else {
      UnfreeRows(b, ledger, sorted, firstId);
    }
  }

  lemma BulkFoundOut(b: Book, st: State, ledger: Id, entries: seq<Entry>, firstId: Id)
    ensures var (after, problem) := CreateDepositsBulk(b, st, ledger, entries, firstId);
      var l, sorted := Find(WithLedgerId(ledger), b.ledgers), SortBy(EntryDate(), entries);
      if && 1 <= |entries| <= 1_000 && AllFitting(entries)
         && l < |b.ledgers| && BulkRefusal(b, st, b.ledgers[l], sorted, firstId).None?
      then problem.None? && after == b.(deposits := b.deposits + Rows(ledger, sorted, firstId))
      else problem.Some? && after == b
  {
    assert BadAmounts(entries) <==> exists e | e in entries :: !Fitting(e.amount);
  }

  lemma BulkIff(b: Book, st: State, ledger: Id, entries: seq<Entry>, firstId: Id)
    requires LedgersApart(b.ledgers) && entries != [] && Known(b, ledger)
    ensures var l := Find(WithLedgerId(ledger), b.ledgers);
      && l < |b.ledgers|
      && (BulkRefusal(b, st, b.ledgers[l], SortBy(EntryDate(), entries), firstId).None? <==>
            DatesMayHold(b, st.days, ledger, entries, firstId))
  {
    LedgerFound(b, ledger);
    var l := b.ledgers[Find(WithLedgerId(ledger), b.ledgers)];
    var sorted := SortBy(EntryDate(), entries);
    AcceptedIff(b, st, l, sorted, firstId);
    DistinctEitherWay(entries);
    ConflictIff(b, ledger, sorted, firstId);
  }

  lemma MayDepositAllIff(b: Book, st: State, ledger: Id, entries: seq<Entry>, firstId: Id)
    requires LedgersApart(b.ledgers)
    ensures var l := Find(WithLedgerId(ledger), b.ledgers);
      MayDepositAll(b, st.days, ledger, entries, firstId) <==>
        && 1 <= |entries| <= 1_000 && AllFitting(entries)
        && l < |b.ledgers| && BulkRefusal(b, st, b.ledgers[l], SortBy(EntryDate(), entries), firstId).None?
  {
    LedgerFound(b, ledger);
    if entries != [] && Known(b, ledger) {
      BulkIff(b, st, ledger, entries, firstId);
    }
  }

  /** The deposits with these rows behind them. */
  predicate RowsAppended(b: Book, after: Book, ledger: Id, entries: seq<Entry>, firstId: Id)
  {
    && |b.deposits| <= |after.deposits|
    && after == b.(deposits := b.deposits + after.deposits[|b.deposits|..])
    && RowsOf(after.deposits[|b.deposits|..], ledger, entries, firstId)
  }

  lemma AppendedRows(b: Book, rows: seq<Deposit>, ledger: Id, entries: seq<Entry>, firstId: Id)
    requires RowsOf(rows, ledger, entries, firstId)
    ensures RowsAppended(b, b.(deposits := b.deposits + rows), ledger, entries, firstId)
  {
    assert (b.deposits + rows)[|b.deposits|..] == rows;
  }

  /** A bulk of one to a thousand deposits is recorded, all of it in the order of dates, if and only if
      each of its dates may hold a deposit, has none yet and comes once; otherwise nothing is. */
  lemma BulkAcceptedIff(b: Book, st: State, ledger: Id, entries: seq<Entry>, firstId: Id)
    requires BookInv(st.days, b)
    ensures var (after, problem) := CreateDepositsBulk(b, st, ledger, entries, firstId);
      if MayDepositAll(b, st.days, ledger, entries, firstId) then
        problem.None? && RowsAppended(b, after, ledger, entries, firstId)
      else problem.Some? && after == b
  {
    BulkFoundOut(b, st, ledger, entries, firstId);
    MayDepositAllIff(b, st, ledger, entries, firstId);
    if MayDepositAll(b, st.days, ledger, entries, firstId) {
      DistinctEitherWay(entries);
      SortedRows(ledger, entries, firstId);
      AppendedRows(b, Rows(ledger, SortBy(EntryDate(), entries), firstId), ledger, entries, firstId);
    }
  }

  // ----- why not

  predicate WhyNotDated(b: Book, days: seq<Store.Day>, ledger: Id, date: int, p: Problem)
  {
    match p
    case BeforeStart(d) => d == date && exists l | l in b.ledgers && l.id == ledger :: date < l.startDate
    case NotClosed(d) => d == date && !ClosedOn(days, date)
    case _ => false
  }

  predicate WhyNotDeposited(
      b: Book, days: seq<Store.Day>, ledger: Id, date: int, amount: int, id: Id, p: Problem)
  {
    match p
    case BadRequest => !Fitting(amount)
    case LedgerNotFound => !Known(b, ledger)
    case Duplicate => DateTaken(b, ledger, date) || DepositIdUsed(b, id)
    case _ => WhyNotDated(b, days, ledger, date, p)
  }

  /** What a deposit is refused for is so. */
  lemma DepositRefusalHolds(b: Book, st: State, ledger: Id, date: int, amount: int, id: Id)
    requires BookInv(st.days, b)
    ensures var problem := CreateDeposit(b, st, ledger, date, amount, id).1;
      problem.Some? ==> WhyNotDeposited(b, st.days, ledger, date, amount, id, problem.value)
  {
    LedgerFound(b, ledger);
    DepositFound(b, id);
    TakenIff(b, ledger, date);
    var l := Find(WithLedgerId(ledger), b.ledgers);
    if l < |b.ledgers| {
      OneDateEligible(st, b.ledgers[l].startDate, date);
    }
  }

  predicate WhyNotChanged(b: Book, days: seq<Store.Day>, id: Id, date: int, amount: int, p: Problem)
  {
    match p
    case BadRequest => !Fitting(amount)
    case DepositNotFound => !DepositIdUsed(b, id)
    case Duplicate =>
      exists d, other | d in b.deposits && other in b.deposits ::
        d.id == id && other.id != id && other.ledger == d.ledger && other.date == date
    case _ => exists d | d in b.deposits && d.id == id :: WhyNotDated(b, days, d.ledger, date, p)
  }

  /** What a changed deposit is refused for is so. */
  lemma ChangeRefusalHolds(b: Book, st: State, id: Id, date: int, amount: int)
    requires BookInv(st.days, b)
    ensures var problem := UpdateDeposit(b, st, id, date, amount).1;
      problem.Some? ==> WhyNotChanged(b, st.days, id, date, amount, problem.value)
  {
    DepositFound(b, id);
    var d := Find(WithDepositId(id), b.deposits);
    if d < |b.deposits| {
      var ledger := b.deposits[d].ledger;
      LedgerFound(b, ledger);
      DepositHasLedger(b, st.days, b.deposits[d]);
      OneDateEligible(st, b.ledgers[Find(WithLedgerId(ledger), b.ledgers)].startDate, date);
      OthersTaken(b, d, ledger, date);
    }
  }

  /** Of dates that may not hold a deposit, the first before the start is named, and only when none lies
      before it the first that is not closed. */
  lemma FirstIneligible(st: State, start: int, dates: seq<int>)
    requires dates != []
    ensures match Ineligible(st, start, dates)
      case None => forall date | date in dates :: start <= date && ClosedOn(st.days, date)
      case Some(BeforeStart(d)) =>
        exists k | 0 <= k < |dates| :: dates[k] == d && d < start && forall j | 0 <= j < k :: start <= dates[j]
      case Some(NotClosed(d)) =>
        && (forall date | date in dates :: start <= date)
        && exists k | 0 <= k < |dates| ::
             dates[k] == d && !ClosedOn(st.days, d) && forall j | 0 <= j < k :: ClosedOn(st.days, dates[j])
      case _ => false
  {
    EligibleIff(st, start, dates);
    var early := Find(EarlierThan(start), dates);
    assert forall j | 0 <= j < early :: !EarlierThan(start)(dates[j]);
    if early == |dates| {
      FirstOpen(st, start, dates);
    }
  }

  function ClosedAround(st: State, dates: seq<int>): seq<DatedGross>
    requires dates != []
  {
    var sorted := SortBy(Same(), dates);
    ClosedDailyGross(st, sorted[0], sorted[|sorted| - 1])
  }

  lemma WithinEnds(sorted: seq<int>, date: int)
    requires SortedBy(Same(), sorted) && date in sorted
    ensures sorted[0] <= date <= sorted[|sorted| - 1]
  {
    var k :| 0 <= k < |sorted| && sorted[k] == date;
    assert Same()(sorted[0]) <= Same()(sorted[k]) <= Same()(sorted[|sorted| - 1]);
  }

  lemma MissedBetween(st: State, from: int, to: int, date: int)
    requires from <= date <= to
    ensures Missed(ClosedDailyGross(st, from, to))(date) <==> !ClosedOn(st.days, date)
  {
    ClosedDates(st, from, to, date);
  }

  lemma MissedIff(st: State, sorted: seq<int>, date: int)
    requires SortedBy(Same(), sorted) && date in sorted
    ensures Missed(ClosedDailyGross(st, sorted[0], sorted[|sorted| - 1]))(date) <==> !ClosedOn(st.days, date)
  {
    WithinEnds(sorted, date);
    MissedBetween(st, sorted[0], sorted[|sorted| - 1], date);
  }

  lemma OpenIsNamed(st: State, start: int, dates: seq<int>)
    requires dates != [] && Find(EarlierThan(start), dates) == |dates|
    ensures var open := Find(Missed(ClosedAround(st, dates)), dates);
      Ineligible(st, start, dates) == if open < |dates| then Some(NotClosed(dates[open])) else None
  {
  }

  lemma AllMissedIff(st: State, dates: seq<int>)
    requires dates != []
    ensures forall j | 0 <= j < |dates| ::
      Missed(ClosedAround(st, dates))(dates[j]) <==> !ClosedOn(st.days, dates[j])
  {
    forall j | 0 <= j < |dates|
      ensures Missed(ClosedAround(st, dates))(dates[j]) <==> !ClosedOn(st.days, dates[j])
    {
      MissedIff(st, SortBy(Same(), dates), dates[j]);
    }
  }

  lemma FirstMissed(st: State, dates: seq<int>, closed: seq<DatedGross>)
    requires forall j | 0 <= j < |dates| :: Missed(closed)(dates[j]) <==> !ClosedOn(st.days, dates[j])
    ensures var open := Find(Missed(closed), dates);
      && (forall j | 0 <= j < open :: ClosedOn(st.days, dates[j]))
      && (open < |dates| ==> !ClosedOn(st.days, dates[open]))
  {
    var open := Find(Missed(closed), dates);
    assert forall j | 0 <= j < open :: !Missed(closed)(dates[j]);
  }

  lemma FirstOpen(st: State, start: int, dates: seq<int>)
    requires dates != [] && Find(EarlierThan(start), dates) == |dates|
    ensures match Ineligible(st, start, dates)
      case None => true
      case Some(NotClosed(d)) =>
        exists k | 0 <= k < |dates| ::
          dates[k] == d && !ClosedOn(st.days, d) && forall j | 0 <= j < k :: ClosedOn(st.days, dates[j])
      case _ => false
  {
    OpenIsNamed(st, start, dates);
    AllMissedIff(st, dates);
    FirstMissed(st, dates, ClosedAround(st, dates));
  }

  ghost predicate WhyNotBulk(
      b: Book, days: seq<Store.Day>, ledger: Id, entries: seq<Entry>, firstId: Id, p: Problem)
  {
    match p
    case BadRequest => !(1 <= |entries| <= 1_000) || exists e | e in entries :: !Fitting(e.amount)
    case LedgerNotFound => !Known(b, ledger)
    case Repeated(d) => exists i, j | 0 <= i < j < |entries| :: entries[i].date == entries[j].date
    case Duplicate => !Free(b, ledger, entries, firstId)
    case _ => exists e | e in entries :: WhyNotDated(b, days, ledger, e.date, p)
  }

  lemma BulkFails(b: Book, st: State, ledger: Id, entries: seq<Entry>, firstId: Id)
    ensures var problem := CreateDepositsBulk(b, st, ledger, entries, firstId).1;
      var l, sorted := Find(WithLedgerId(ledger), b.ledgers), SortBy(EntryDate(), entries);
      problem.Some? ==>
        || (problem.value == BadRequest
            && (!(1 <= |entries| <= 1_000) || exists e | e in entries :: !Fitting(e.amount)))
        || (problem.value == LedgerNotFound && l == |b.ledgers|)
        || (l < |b.ledgers| && entries != [] && BulkRefusal(b, st, b.ledgers[l], sorted, firstId) == problem)
  {
    assert BadAmounts(entries) <==> exists e | e in entries :: !Fitting(e.amount);
  }

  lemma SortedRefusal(b: Book, st: State, l: Journal.Ledger, sorted: seq<Entry>, firstId: Id)
    requires l in b.ledgers && sorted != [] && BulkRefusal(b, st, l, sorted, firstId).Some?
    ensures var p := BulkRefusal(b, st, l, sorted, firstId).value;
      match p
      case Repeated(d) => !KeysDistinct(EntryDate(), sorted)
      case Duplicate => !Free(b, l.id, sorted, firstId)
      case _ => exists e | e in sorted :: WhyNotDated(b, st.days, l.id, e.date, p)
  {
    var dates := Map(EntryDate(), sorted);
    NoRepeatIff(sorted);
    FirstIneligible(st, l.startDate, dates);
    ConflictIff(b, l.id, sorted, firstId);
    forall k | 0 <= k < |dates|
      ensures dates[k] == sorted[k].date && sorted[k] in sorted
    {
    }
  }

  /** Whatever a bulk is refused for is so. */
  lemma BulkRefusalHolds(b: Book, st: State, ledger: Id, entries: seq<Entry>, firstId: Id)
    requires BookInv(st.days, b)
    ensures var problem := CreateDepositsBulk(b, st, ledger, entries, firstId).1;
      problem.Some? ==> WhyNotBulk(b, st.days, ledger, entries, firstId, problem.value)
  {
    var sorted := SortBy(EntryDate(), entries);
    BulkFails(b, st, ledger, entries, firstId);
    LedgerFound(b, ledger);
    DistinctEitherWay(entries);
    var l := Find(WithLedgerId(ledger), b.ledgers);
    if l < |b.ledgers| && entries != [] && BulkRefusal(b, st, b.ledgers[l], sorted, firstId).Some? {
      SortedRefusal(b, st, b.ledgers[l], sorted, firstId);
    }
  }
}
