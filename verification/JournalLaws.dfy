/** What every sequence of shop and journal requests keeps true of the ledgers, and what the list of
    missing days says. */
module JournalLaws {
  import opened Journal
  import opened Rates
  import opened Reports
  import opened Sorting
  import opened Tables
  import Ledger
  import LedgerSteps
  import Store
  import TradingDays

  // ----- closed business dates

  predicate ClosedOn(days: seq<Store.Day>, date: int)
  {
    exists d | d in days :: !d.isOpen && d.date == date
  }

  /** The gross report lists a date if and only if it is in range and its day is closed. */
  lemma ClosedDates(st: State, from: int, to: int, date: int)
    ensures Has(Dated(date), ClosedDailyGross(st, from, to)) <==> from <= date <= to && ClosedOn(st.days, date)
  {
    var days := Filter(ClosedWithin(from, to), st.days);
    var keys := DistinctKeys(DateOf(), days);
    var totals := ClosedDailyGross(st, from, to);
    assert |totals| == |keys| && forall k | 0 <= k < |keys| :: totals[k].date == keys[k];
    if from <= date <= to && ClosedOn(st.days, date) {
      var d :| d in st.days && !d.isOpen && d.date == date;
      assert DateOf()(d) in keys;
      var k :| 0 <= k < |keys| && keys[k] == date;
      assert Dated(date)(totals[k]);
    } else if Has(Dated(date), totals) {
      KeysAreUsed(DateOf(), days, keys[Find(Dated(date), totals)]);
    }
  }

  lemma GrossDatesDistinct(st: State, from: int, to: int)
    ensures KeysDistinct(GrossDate(), ClosedDailyGross(st, from, to))
  {
    var keys := DistinctKeys(DateOf(), Filter(ClosedWithin(from, to), st.days));
    var totals := ClosedDailyGross(st, from, to);
    assert |totals| == |keys| && forall k | 0 <= k < |keys| :: totals[k].date == keys[k];
  }

  lemma {:induction false} OnlyOne(days: seq<Store.Day>, d: Store.Day)
    requires d in days
    requires KeysDistinct(DateOf(), days)
    ensures Filter(HasKey(DateOf(), d.date), days) == [d]
  {
    if days[0] == d {
      FilterNone(HasKey(DateOf(), d.date), days[1..]);
    } else {
      OnlyOne(days[1..], d);
      var k :| 1 <= k < |days| && days[k] == d;
      assert DateOf()(days[0]) != DateOf()(days[k]);
    }
  }

  /** With unique business dates, an entry of the gross report is the gross of its one closed day. */
  lemma GrossOfTheDay(st: State, from: int, to: int, g: DatedGross)
    requires Ledger.DaysInv(st.days) && g in ClosedDailyGross(st, from, to)
    ensures exists d | d in st.days :: !d.isOpen && d.date == g.date && g.gross == Store.DayFigures(st, d.id).Gross()
  {
    var days := Filter(ClosedWithin(from, to), st.days);
    assert KeysDistinct(DateOf(), st.days);
    FilterKeepsDistinct(ClosedWithin(from, to), DateOf(), st.days);
    var d := EntryOfOneDay(GrossOn(st), days, g);
    assert d in st.days;
  }

  lemma EntryOfOneDay(gross: Store.Day -> int, days: seq<Store.Day>, g: DatedGross) returns (d: Store.Day)
    requires KeysDistinct(DateOf(), days)
    requires g in GrossByDate(gross, days)
    ensures d in days && d.date == g.date && g.gross == gross(d)
  {
    var keys := DistinctKeys(DateOf(), days);
    var totals := GrossByDate(gross, days);
    var k :| 0 <= k < |totals| && totals[k] == g;
    KeysAreUsed(DateOf(), days, keys[k]);
    d :| d in days && d.date == keys[k];
    OnlyOne(days, d);
    SumOne(gross, d);
  }

  // ----- eligible dates

  /** Dates pass if and only if none lies before the start and every one is a closed day. */
  lemma EligibleIff(st: State, start: int, dates: seq<int>)
    requires dates != []
    ensures Ineligible(st, start, dates).None? <==>
      forall date | date in dates :: start <= date && ClosedOn(st.days, date)
  {
    var sorted := SortBy(Same(), dates);
    var from, to := sorted[0], sorted[|sorted| - 1];
    var closed := ClosedDailyGross(st, from, to);
    forall date | date in dates
      ensures Missed(closed)(date) <==> !ClosedOn(st.days, date)
    {
      ClosedDates(st, from, to, date);
      assert date in sorted;
    }
    var early := Find(EarlierThan(start), dates);
    var open := Find(Missed(closed), dates);
    assert early == |dates| ==> forall date | date in dates :: !EarlierThan(start)(date);
    assert open == |dates| ==> forall date | date in dates :: !Missed(closed)(date);
    assert early < |dates| ==> dates[early] in dates;
    assert open < |dates| ==> dates[open] in dates;
  }

  // ----- the invariant

  predicate LedgerOk(ledgers: seq<Journal.Ledger>, days: seq<Store.Day>, d: Deposit)
  {
    && ClosedOn(days, d.date)
    && exists l | l in ledgers :: l.id == d.ledger && l.startDate <= d.date
  }

  predicate LedgersApart(ledgers: seq<Journal.Ledger>)
  {
    forall i, j | 0 <= i < j < |ledgers| ::
      ledgers[i].id != ledgers[j].id && Lower(ledgers[i].name) != Lower(ledgers[j].name)
  }

  /** Ledgers have different names; every deposit lies on a closed day on or after the start of its
      ledger, one per date. */
  predicate BookInv(days: seq<Store.Day>, b: Book)
  {
    && LedgersApart(b.ledgers)
    && (forall i, j | 0 <= i < j < |b.deposits| :: b.deposits[i].id != b.deposits[j].id)
    && (forall i, j | 0 <= i < j < |b.deposits| ::
          !(b.deposits[i].ledger == b.deposits[j].ledger && b.deposits[i].date == b.deposits[j].date))
    && (forall d | d in b.deposits :: LedgerOk(b.ledgers, days, d))
    && RatesSound(b.rates)
  }

  /** A row that keeps the invariant when it joins the deposits. */
  predicate Fits(days: seq<Store.Day>, b: Book, row: Deposit)
  {
    LedgerOk(b.ledgers, days, row) && !Conflicts(b.deposits, row)
  }

  lemma FittingRowKeeps(days: seq<Store.Day>, b: Book, row: Deposit)
    requires BookInv(days, b) && Fits(days, b, row)
    ensures BookInv(days, b.(deposits := b.deposits + [row]))
  {
    forall i | 0 <= i < |b.deposits|
      ensures b.deposits[i].id != row.id
      ensures !(b.deposits[i].ledger == row.ledger && b.deposits[i].date == row.date)
    {
      assert !DepositOn(row.ledger, row.date)(b.deposits[i]) && !WithDepositId(row.id)(b.deposits[i]);
    }
  }

  lemma DepositFits(b: Book, st: State, ledger: Id, date: int, amount: int, id: Id)
    requires CreateDeposit(b, st, ledger, date, amount, id).1.None?
    ensures Fits(st.days, b, Deposit(id, ledger, date, amount))
  {
    var l := Find(WithLedgerId(ledger), b.ledgers);
    EligibleIff(st, b.ledgers[l].startDate, [date]);
    assert date in [date] && b.ledgers[l] in b.ledgers;
  }

  lemma CreateDepositKeeps(b: Book, st: State, ledger: Id, date: int, amount: int, id: Id)
    requires BookInv(st.days, b)
    ensures BookInv(st.days, CreateDeposit(b, st, ledger, date, amount, id).0)
  {
    if CreateDeposit(b, st, ledger, date, amount, id).1.None? {
      DepositFits(b, st, ledger, date, amount, id);
      FittingRowKeeps(st.days, b, Deposit(id, ledger, date, amount));
    }
  }

  lemma RemoveKeeps(days: seq<Store.Day>, b: Book, d: nat)
    requires BookInv(days, b) && d < |b.deposits|
    ensures BookInv(days, b.(deposits := Without(b.deposits, d)))
    ensures !Has(WithDepositId(b.deposits[d].id), Without(b.deposits, d))
  {
    var rest := Without(b.deposits, d);
    forall i | 0 <= i < |rest|
      ensures rest[i] == b.deposits[if i < d then i else i + 1]
    {
    }
  }

  lemma DepositsReordered(days: seq<Store.Day>, b: Book, d: nat, row: Deposit)
    requires d < |b.deposits| && BookInv(days, b.(deposits := Without(b.deposits, d) + [row]))
    ensures BookInv(days, b.(deposits := b.deposits[d := row]))
  {
    var all, after := Without(b.deposits, d) + [row], b.deposits[d := row];
    var n := |after|;
    forall i | 0 <= i < n
      ensures after[i] == all[if i < d then i else if i == d then n - 1 else i - 1]
    {
    }
    forall r | r in after
      ensures r in all
    {
      var i :| 0 <= i < n && after[i] == r;
      assert all[if i < d then i else if i == d then n - 1 else i - 1] == r;
    }
    forall i, j | 0 <= i < j < n
      ensures after[i].id != after[j].id
      ensures !(after[i].ledger == after[j].ledger && after[i].date == after[j].date)
    {
      var x := if i < d then i else if i == d then n - 1 else i - 1;
      var y := if j < d then j else if j == d then n - 1 else j - 1;
      assert all[x].id != all[y].id;
    }
  }

  lemma UpdatedFits(b: Book, st: State, id: Id, date: int, amount: int)
    requires BookInv(st.days, b) && UpdateDeposit(b, st, id, date, amount).1.None?
    ensures var d := Find(WithDepositId(id), b.deposits);
      var row := b.deposits[d].(date := date, amount := amount);
      Fits(st.days, b.(deposits := Without(b.deposits, d)), row)
  {
    var d := Find(WithDepositId(id), b.deposits);
    var l := Find(WithLedgerId(b.deposits[d].ledger), b.ledgers);
    EligibleIff(st, b.ledgers[l].startDate, [date]);
    assert date in [date] && b.ledgers[l] in b.ledgers;
    RemoveKeeps(st.days, b, d);
  }

  lemma UpdateDepositKeeps(b: Book, st: State, id: Id, date: int, amount: int)
    requires BookInv(st.days, b)
    ensures BookInv(st.days, UpdateDeposit(b, st, id, date, amount).0)
  {
    if UpdateDeposit(b, st, id, date, amount).1.None? {
      var d := Find(WithDepositId(id), b.deposits);
      var row := b.deposits[d].(date := date, amount := amount);
      UpdatedFits(b, st, id, date, amount);
      RemoveKeeps(st.days, b, d);
      FittingRowKeeps(st.days, b.(deposits := Without(b.deposits, d)), row);
      DepositsReordered(st.days, b, d, row);
    }
  }

  lemma RemoveDepositKeeps(b: Book, days: seq<Store.Day>, id: Id)
    requires BookInv(days, b)
    ensures BookInv(days, RemoveDeposit(b, id).0)
  {
    if RemoveDeposit(b, id).1.None? {
      RemoveKeeps(days, b, Find(WithDepositId(id), b.deposits));
    }
  }

  lemma UpdateLedgerKeeps(b: Book, days: seq<Store.Day>, ledger: Id, start: int, balance: int)
    requires BookInv(days, b)
    ensures BookInv(days, UpdateLedger(b, ledger, start, balance).0)
  {
    var (after, problem) := UpdateLedger(b, ledger, start, balance);
    if problem.None? {
      var l := Find(WithLedgerId(ledger), b.ledgers);
      var recorded := SortBy(DepositDate(), Filter(DepositOf(ledger), b.deposits));
      forall d | d in b.deposits
        ensures LedgerOk(after.ledgers, days, d)
      {
        assert d.ledger == ledger ==> d in recorded;
        LedgerMoved(b.ledgers, l, start, balance, days, d);
      }
    }
  }

  lemma LedgerMoved(
      ledgers: seq<Journal.Ledger>, l: nat, start: int, balance: int, days: seq<Store.Day>, d: Deposit)
    requires l < |ledgers| && LedgerOk(ledgers, days, d)
    requires d.ledger == ledgers[l].id ==> start <= d.date
    ensures LedgerOk(ledgers[l := ledgers[l].(startDate := start, startingBalance := balance)], days, d)
  {
    var after := ledgers[l := ledgers[l].(startDate := start, startingBalance := balance)];
    var before :| before in ledgers && before.id == d.ledger && before.startDate <= d.date;
    var k :| 0 <= k < |ledgers| && ledgers[k] == before;
    assert after[k].id == d.ledger && after[k].startDate <= d.date && after[k] in after;
  }

  lemma NewLedgerApart(ledgers: seq<Journal.Ledger>, l: Journal.Ledger)
    requires LedgersApart(ledgers) && !Has(Named(l.name), ledgers) && !Has(WithLedgerId(l.id), ledgers)
    ensures LedgersApart(ledgers + [l])
  {
    assert forall i | 0 <= i < |ledgers| :: !WithLedgerId(l.id)(ledgers[i]) && !Named(l.name)(ledgers[i]);
  }

  lemma CreateLedgerKeeps(b: Book, days: seq<Store.Day>, id: Id, name: string, start: int, balance: int)
    requires BookInv(days, b)
    ensures BookInv(days, CreateLedger(b, id, name, start, balance).0)
  {
    var (after, problem) := CreateLedger(b, id, name, start, balance);
    if problem.None? {
      NewLedgerApart(b.ledgers, Journal.Ledger(id, name, start, balance, NoSuggestion));
      assert forall l | l in b.ledgers :: l in after.ledgers;
    }
  }

  lemma ChangeRateKeeps(b: Book, days: seq<Store.Day>, ledger: Id, today: int, input: Terms)
    requires BookInv(days, b)
    ensures BookInv(days, ChangeRate(b, ledger, today, input).0)
  {
    var l := Find(WithLedgerId(ledger), b.ledgers);
    if l < |b.ledgers| && TermsFor(b.ledgers[l].kind, input).Ok? {
      UpsertKeeps(b.rates, ledger, today, TermsFor(b.ledgers[l].kind, input).value);
    }
  }
}
