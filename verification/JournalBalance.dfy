/** The balance of a ledger over runs: every request moves it by exactly its own amount. */
module JournalBalance {
  import opened Journal
  import opened MissingDayLaws
  import opened Rates
  import Sorting
  import opened Tables

  function BalanceOf(b: Book, ledger: Id): int
  {
    var l := Find(WithLedgerId(ledger), b.ledgers);
    if l < |b.ledgers| then Balance(b, b.ledgers[l])
    else Sum(DepositedTo(ledger), b.deposits) - Sum(WithdrawnFrom(ledger), b.withdrawals)
  }

  function If(here: bool, amount: int): int
  {
    if here then amount else 0
  }

  /** What an accepted request does to the balance of a ledger, read off the book before it. */
  function Moved(b: Book, st: State, r: Request, ledger: Id): int
  {
    match r
    case AddLedger(id, name, start, balance) =>
      If(id == ledger && CreateLedger(b, id, name, start, balance).1.None?, balance)
    case ChangeLedger(l, start, balance) =>
      var i := Find(WithLedgerId(l), b.ledgers);
      if l == ledger && i < |b.ledgers| && UpdateLedger(b, l, start, balance).1.None? then
        balance - b.ledgers[i].startingBalance
      else 0
    case AddDeposit(l, date, amount, id) =>
      If(l == ledger && CreateDeposit(b, st, l, date, amount, id).1.None?, amount)
    case AddDeposits(l, entries, firstId) =>
      If(l == ledger && CreateDepositsBulk(b, st, l, entries, firstId).1.None?, Sum(EntryAmount(), entries))
    case ChangeDeposit(id, date, amount) =>
      var d := Find(WithDepositId(id), b.deposits);
      if d < |b.deposits| && b.deposits[d].ledger == ledger && UpdateDeposit(b, st, id, date, amount).1.None? then
        amount - b.deposits[d].amount
      else 0
    case DropDeposit(id) =>
      var d := Find(WithDepositId(id), b.deposits);
      if d < |b.deposits| && b.deposits[d].ledger == ledger then 0 - b.deposits[d].amount else 0
    case Withdraw(l, on, amount, id) =>
      If(l == ledger && CreateWithdrawal(b, l, on, amount, id).1.None?, 0 - amount)
    case _ => 0
  }

  lemma SameLedgers(b: Book, after: Book, ledger: Id)
    requires after.ledgers == b.ledgers
    ensures BalanceOf(after, ledger) - BalanceOf(b, ledger)
      == Sum(DepositedTo(ledger), after.deposits) - Sum(DepositedTo(ledger), b.deposits)
         - Sum(WithdrawnFrom(ledger), after.withdrawals) + Sum(WithdrawnFrom(ledger), b.withdrawals)
  {
    var l := Find(WithLedgerId(ledger), b.ledgers);
    if l < |b.ledgers| {
      assert b.ledgers[l].id == ledger;
    }
  }

  lemma BulkAdds(b: Book, st: State, l: Id, entries: seq<Entry>, firstId: Id, ledger: Id)
    requires CreateDepositsBulk(b, st, l, entries, firstId).1.None?
    ensures Sum(DepositedTo(ledger), CreateDepositsBulk(b, st, l, entries, firstId).0.deposits)
      == Sum(DepositedTo(ledger), b.deposits) + If(l == ledger, Sum(EntryAmount(), entries))
    ensures CreateDepositsBulk(b, st, l, entries, firstId).0
      == b.(deposits := CreateDepositsBulk(b, st, l, entries, firstId).0.deposits)
  {
    AcceptedBulk(b, st, l, entries, firstId);
    var sorted := Sorting.SortBy(EntryDate(), entries);
    var rows := Rows(l, sorted, firstId);
    SumConcat(DepositedTo(ledger), b.deposits, rows);
    if l == ledger {
      RowsAddUp(l, sorted, firstId);
      Sorting.SumSorted(EntryAmount(), EntryDate(), entries);
    } else {
      SumZero(DepositedTo(ledger), rows);
    }
  }

  lemma AddAppends(b: Book, st: State, l: Id, date: int, amount: int, id: Id)
    requires CreateDeposit(b, st, l, date, amount, id).1.None?
    ensures CreateDeposit(b, st, l, date, amount, id).0
      == b.(deposits := b.deposits + [Deposit(id, l, date, amount)])
  {
  }

  lemma AddMoves(b: Book, st: State, l: Id, date: int, amount: int, id: Id, ledger: Id)
    ensures BalanceOf(CreateDeposit(b, st, l, date, amount, id).0, ledger)
      == BalanceOf(b, ledger) + If(l == ledger && CreateDeposit(b, st, l, date, amount, id).1.None?, amount)
  {
    if CreateDeposit(b, st, l, date, amount, id).1.None? {
      AddAppends(b, st, l, date, amount, id);
      SumAppend(DepositedTo(ledger), b.deposits, Deposit(id, l, date, amount));
      SameLedgers(b, CreateDeposit(b, st, l, date, amount, id).0, ledger);
    }
  }

  lemma BulkMoves(b: Book, st: State, l: Id, entries: seq<Entry>, firstId: Id, ledger: Id)
    ensures BalanceOf(CreateDepositsBulk(b, st, l, entries, firstId).0, ledger)
      == BalanceOf(b, ledger)
         + If(l == ledger && CreateDepositsBulk(b, st, l, entries, firstId).1.None?, Sum(EntryAmount(), entries))
  {
    if CreateDepositsBulk(b, st, l, entries, firstId).1.None? {
      BulkAdds(b, st, l, entries, firstId, ledger);
      SameLedgers(b, CreateDepositsBulk(b, st, l, entries, firstId).0, ledger);
    }
  }

  lemma ChangeReplaces(b: Book, st: State, id: Id, date: int, amount: int)
    requires UpdateDeposit(b, st, id, date, amount).1.None?
    ensures var d := Find(WithDepositId(id), b.deposits);
      && d < |b.deposits|
      && UpdateDeposit(b, st, id, date, amount).0
         == b.(deposits := b.deposits[d := b.deposits[d].(date := date, amount := amount)])
  {
  }

  lemma ChangeMoves(b: Book, st: State, id: Id, date: int, amount: int, ledger: Id)
    ensures BalanceOf(UpdateDeposit(b, st, id, date, amount).0, ledger)
      == BalanceOf(b, ledger) + Moved(b, st, ChangeDeposit(id, date, amount), ledger)
  {
    if UpdateDeposit(b, st, id, date, amount).1.None? {
      ChangeReplaces(b, st, id, date, amount);
      var d := Find(WithDepositId(id), b.deposits);
      SumReplace(DepositedTo(ledger), b.deposits, d, b.deposits[d].(date := date, amount := amount));
      SameLedgers(b, UpdateDeposit(b, st, id, date, amount).0, ledger);
    }
  }

  lemma DropMoves(b: Book, st: State, id: Id, ledger: Id)
    ensures BalanceOf(RemoveDeposit(b, id).0, ledger) == BalanceOf(b, ledger) + Moved(b, st, DropDeposit(id), ledger)
  {
    var d := Find(WithDepositId(id), b.deposits);
    if d < |b.deposits| {
      SumRemove(DepositedTo(ledger), b.deposits, d);
    }
    SameLedgers(b, RemoveDeposit(b, id).0, ledger);
  }

  lemma ReplacedLedger(ledgers: seq<Journal.Ledger>, i: nat, row: Journal.Ledger, ledger: Id)
    requires i < |ledgers| && row.id == ledgers[i].id
    ensures Find(WithLedgerId(ledger), ledgers[i := row]) == Find(WithLedgerId(ledger), ledgers)
  {
    var after := ledgers[i := row];
    assert forall k | 0 <= k < |ledgers| :: after[k].id == ledgers[k].id;
    var x, y := Find(WithLedgerId(ledger), after), Find(WithLedgerId(ledger), ledgers);
    assert x < |after| ==> WithLedgerId(ledger)(ledgers[x]);
    assert y < |ledgers| ==> WithLedgerId(ledger)(after[y]);
  }

  lemma NewLedgerMoves(b: Book, id: Id, name: string, start: int, balance: int, ledger: Id)
    ensures BalanceOf(CreateLedger(b, id, name, start, balance).0, ledger)
      == BalanceOf(b, ledger) + If(id == ledger && CreateLedger(b, id, name, start, balance).1.None?, balance)
  {
    LedgerAppended(b.ledgers, Journal.Ledger(id, name, start, balance, NoSuggestion), ledger);
  }

  lemma ChangedLedgerMoves(b: Book, st: State, l: Id, start: int, balance: int, ledger: Id)
    ensures BalanceOf(UpdateLedger(b, l, start, balance).0, ledger)
      == BalanceOf(b, ledger) + Moved(b, st, ChangeLedger(l, start, balance), ledger)
  {
    var i := Find(WithLedgerId(l), b.ledgers);
    if i < |b.ledgers| {
      ReplacedLedger(b.ledgers, i, b.ledgers[i].(startDate := start, startingBalance := balance), ledger);
    }
  }

  lemma LedgerAppended(ledgers: seq<Journal.Ledger>, row: Journal.Ledger, ledger: Id)
    ensures var x := Find(WithLedgerId(ledger), ledgers);
      Find(WithLedgerId(ledger), ledgers + [row])
      == if x < |ledgers| then x else if row.id == ledger then |ledgers| else |ledgers| + 1
  {
    var after := ledgers + [row];
    var x, y := Find(WithLedgerId(ledger), ledgers), Find(WithLedgerId(ledger), after);
    assert after[|ledgers|] == row && forall k | 0 <= k < |ledgers| :: after[k] == ledgers[k];
    assert x < |ledgers| ==> WithLedgerId(ledger)(after[x]);
    assert y < |ledgers| ==> WithLedgerId(ledger)(ledgers[y]);
  }

  predicate MovesBalance(b: Book, st: State, r: Request, ledger: Id)
  {
    BalanceOf(NextBook(b, st, r), ledger) == BalanceOf(b, ledger) + Moved(b, st, r, ledger)
  }

  lemma DepositRequestMoves(b: Book, st: State, r: Request, ledger: Id)
    requires r.AddDeposit? || r.AddDeposits?
    ensures MovesBalance(b, st, r, ledger)
  {
    if r.AddDeposit? {
      AddMoves(b, st, r.ledger, r.date, r.amount, r.id, ledger);
    } else {
      BulkMoves(b, st, r.ledger, r.entries, r.firstId, ledger);
    }
  }

  lemma CorrectionMoves(b: Book, st: State, r: Request, ledger: Id)
    requires r.ChangeDeposit? || r.DropDeposit?
    ensures MovesBalance(b, st, r, ledger)
  {
    if r.ChangeDeposit? {
      ChangeMoves(b, st, r.id, r.date, r.amount, ledger);
    } else {
      DropMoves(b, st, r.id, ledger);
    }
  }

  lemma LedgerRequestMoves(b: Book, st: State, r: Request, ledger: Id)
    requires r.AddLedger? || r.ChangeLedger?
    ensures MovesBalance(b, st, r, ledger)
  {
    if r.AddLedger? {
      NewLedgerMoves(b, r.id, r.name, r.start, r.balance, ledger);
    } else {
      ChangedLedgerMoves(b, st, r.ledger, r.start, r.balance, ledger);
    }
  }

  lemma OtherRequestMoves(b: Book, st: State, r: Request, ledger: Id)
    requires r.Withdraw? || r.SetRate? || r.Shop?
    ensures MovesBalance(b, st, r, ledger)
  {
    if r.Withdraw? {
      SumAppend(WithdrawnFrom(ledger), b.withdrawals, Withdrawal(r.id, r.ledger, r.on, r.amount));
    }
    SameLedgers(b, NextBook(b, st, r), ledger);
  }

  /** Each request moves the balance of each ledger by exactly its own amount, and a refused one by
      nothing. */
  lemma RequestMovesBalance(b: Book, st: State, r: Request, ledger: Id)
    ensures MovesBalance(b, st, r, ledger)
  {
    if r.AddDeposit? || r.AddDeposits? {
      DepositRequestMoves(b, st, r, ledger);
    } else if r.ChangeDeposit? || r.DropDeposit? {
      CorrectionMoves(b, st, r, ledger);
    } else if r.AddLedger? || r.ChangeLedger? {
      LedgerRequestMoves(b, st, r, ledger);
    } else {
      OtherRequestMoves(b, st, r, ledger);
    }
  }

  function MovedBy(w: World, requests: seq<Request>, ledger: Id): int
    decreases |requests|
  {
    if requests == [] then 0
    else
      Moved(w.book, w.shop, requests[0], ledger)
      + MovedBy(MissingDayLaws.Next(w, requests[0]), requests[1..], ledger)
  }

  /** Over every run, the balance computed from the rows is the starting one plus what each accepted
      request moved. */
  lemma {:induction false} BalanceIsWhatWasMoved(w: World, requests: seq<Request>, ledger: Id)
    ensures BalanceOf(MissingDayLaws.Run(w, requests).book, ledger)
      == BalanceOf(w.book, ledger) + MovedBy(w, requests, ledger)
    decreases |requests|
  {
    if requests != [] {
      RequestMovesBalance(w.book, w.shop, requests[0], ledger);
      BalanceIsWhatWasMoved(MissingDayLaws.Next(w, requests[0]), requests[1..], ledger);
    }
  }
}
