/** The checks of the deposit race are those of the journal, seen from one ledger. */
module DepositChecks {
  import opened Journal
  import opened JournalLaws
  import opened Tables
  import Race = DepositRace
  import Sorting
  import Store

  /** The deposits, the start and the closed dates of one ledger of the book. */
  ghost predicate Shows(s: Race.Sys, b: Book, st: State, l: Journal.Ledger)
  {
    && s.start == l.startDate
    && (forall date :: date in s.closed <==> ClosedOn(st.days, date))
    && (forall d | d in b.deposits && d.ledger == l.id :: d.id in s.rows && s.rows[d.id] == d.date)
    && (forall id | id in s.rows :: exists d | d in b.deposits :: d.ledger == l.id && d.id == id)
  }

  /** Dates pass the check of a deposit in both or in neither. */
  lemma EligibleAgrees(s: Race.Sys, b: Book, st: State, l: Journal.Ledger, dates: seq<int>)
    requires Shows(s, b, st, l) && dates != [] && Distinct(dates)
    ensures Race.Eligible(s, dates) <==> Ineligible(st, l.startDate, dates).None?
  {
    EligibleIff(st, l.startDate, dates);
  }

  lemma TakenAgrees(s: Race.Sys, b: Book, st: State, l: Journal.Ledger, date: int)
    requires Shows(s, b, st, l)
    ensures Race.Taken(s.rows, [date], None) <==> Has(DepositOn(l.id, date), b.deposits)
  {
    if Race.Taken(s.rows, [date], None) {
      var x :| x in s.rows && s.rows[x] in [date];
      var d :| d in b.deposits && d.ledger == l.id && d.id == x;
      var k :| 0 <= k < |b.deposits| && b.deposits[k] == d;
      assert DepositOn(l.id, date)(b.deposits[k]);
    }
    if Has(DepositOn(l.id, date), b.deposits) {
      var d := b.deposits[Find(DepositOn(l.id, date), b.deposits)];
      assert d in b.deposits && s.rows[d.id] in [date];
    }
  }

  lemma EarliestIs(b: Book, ledger: Store.Id, start: int)
    ensures var recorded := Sorting.SortBy(DepositDate(), Filter(DepositOf(ledger), b.deposits));
      (recorded != [] && start > recorded[0].date)
      <==> exists d | d in b.deposits :: d.ledger == ledger && d.date < start
  {
    var kept := Filter(DepositOf(ledger), b.deposits);
    var recorded := Sorting.SortBy(DepositDate(), kept);
    if d :| d in b.deposits && d.ledger == ledger && d.date < start {
      assert d in kept && d in recorded;
      var k :| 0 <= k < |recorded| && recorded[k] == d;
      assert k > 0 ==> DepositDate()(recorded[0]) <= DepositDate()(recorded[k]);
    }
    if recorded != [] {
      assert recorded[0] in recorded && recorded[0] in kept;
    }
  }

  /** A new start passes in both or in neither. */
  lemma StartAgrees(s: Race.Sys, b: Book, st: State, l: Journal.Ledger, start: int, balance: int)
    requires Shows(s, b, st, l) && Has(WithLedgerId(l.id), b.ledgers)
    ensures Race.PassesCheck(s, Race.ChangeStart(start)) <==> UpdateLedger(b, l.id, start, balance).1.None?
  {
    EarliestIs(b, l.id, start);
    EarlierRow(s, b, st, l, start);
  }

  lemma EarlierRow(s: Race.Sys, b: Book, st: State, l: Journal.Ledger, start: int)
    requires Shows(s, b, st, l)
    ensures (exists x | x in s.rows :: s.rows[x] < start)
      <==> exists d | d in b.deposits :: d.ledger == l.id && d.date < start
  {
    if x :| x in s.rows && s.rows[x] < start {
      var d :| d in b.deposits && d.ledger == l.id && d.id == x;
      assert s.rows[d.id] == d.date;
    }
    if d :| d in b.deposits && d.ledger == l.id && d.date < start {
      assert d.id in s.rows && s.rows[d.id] < start;
    }
  }

  /** A single deposit is recorded in both or in neither. */
  lemma DepositAgrees(s: Race.Sys, b: Book, st: State, l: Journal.Ledger, date: int, amount: int, id: Store.Id)
    requires Shows(s, b, st, l) && Find(WithLedgerId(l.id), b.ledgers) < |b.ledgers|
    requires b.ledgers[Find(WithLedgerId(l.id), b.ledgers)] == l
    requires GoodAmount(amount) && !Has(WithDepositId(id), b.deposits)
    ensures Race.PassesCheck(s, Race.Deposit([date])) && !Race.Taken(s.rows, [date], None)
       <==> CreateDeposit(b, st, l.id, date, amount, id).1.None?
  {
    EligibleAgrees(s, b, st, l, [date]);
    TakenAgrees(s, b, st, l, date);
  }
}
