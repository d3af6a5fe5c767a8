/** The tables of the ledger seen as tables of the concurrent protocol. */
module ProtocolTables {
  import opened Tables
  import opened Store
  import opened Locking
  import opened KeyedRows
  import Interleavings
  import Ledger
  import Races

  // ----- the tables of the ledger as tables of the protocol

  function SaleKey(): Sale -> nat { (s: Sale) => s.id }

  function RowOf(): Sale -> Row
  {
    (s: Sale) => Row(s.day, s.number, s.corrects, s.status == Completed, Portion(Cash, s.payments),
                     s.tip, s.owed, s.settledAt.Some?)
  }

  function RowsOf(sales: seq<Sale>): map<SaleId, Row>
  {
    Keyed(SaleKey(), RowOf(), sales)
  }

  function DayKey(): Day -> nat { (d: Day) => d.id }

  /** What the effective movements of a day net to. */
  function Net(movements: seq<Movement>, day: Id): int
  {
    Sum(EffectiveOn(movements, CashIn, day), movements) - Sum(EffectiveOn(movements, CashOut, day), movements)
    - Sum(EffectiveOn(movements, Expense, day), movements)
  }

  function Stored(closings: seq<Closing>, day: Id): Option<int>
  {
    var i := Find(ClosingOf(day), closings);
    if i < |closings| then Some(closings[i].expected) else None
  }

  function DayRowOf(movements: seq<Movement>, closings: seq<Closing>): Day -> DayRow
  {
    (d: Day) => DayRow(d.date, d.isOpen, d.openingFloat, Net(movements, d.id), Stored(closings, d.id))
  }

  function DaysOf(st: State): map<DayId, DayRow>
  {
    Keyed(DayKey(), DayRowOf(st.movements, st.closings), st.days)
  }

  function System(st: State, txns: seq<Txn>): Sys
  {
    Sys(RowsOf(st.sales), DaysOf(st), txns)
  }

  lemma SalesDistinct(sales: seq<Sale>)
    requires Ledger.SalesInv(sales)
    ensures KeysDistinct(SaleKey(), sales)
  {
    assert forall i, j | 0 <= i < j < |sales| :: !Ledger.Clash(sales[i], sales[j]);
  }

  lemma DaysDistinct(days: seq<Day>)
    requires Ledger.DaysInv(days)
    ensures KeysDistinct(DayKey(), days)
  {
  }

  lemma RowIs(sales: seq<Sale>, i: nat)
    requires Ledger.SalesInv(sales) && i < |sales|
    ensures sales[i].id in RowsOf(sales) && RowsOf(sales)[sales[i].id] == RowOf()(sales[i])
  {
    SalesDistinct(sales);
    KeyedHolds(SaleKey(), RowOf(), sales);
    assert SaleKey()(sales[i]) in RowsOf(sales);
  }

  lemma SaleOf(sales: seq<Sale>, id: SaleId) returns (i: nat)
    requires Ledger.SalesInv(sales) && id in RowsOf(sales)
    ensures i < |sales| && sales[i].id == id && RowsOf(sales)[id] == RowOf()(sales[i])
  {
    SalesDistinct(sales);
    KeyedHolds(SaleKey(), RowOf(), sales);
    i :| 0 <= i < |sales| && SaleKey()(sales[i]) == id;
  }

  lemma DayIs(st: State, i: nat)
    requires Ledger.DaysInv(st.days) && i < |st.days|
    ensures st.days[i].id in DaysOf(st)
    ensures DaysOf(st)[st.days[i].id] == DayRowOf(st.movements, st.closings)(st.days[i])
  {
    DaysDistinct(st.days);
    KeyedHolds(DayKey(), DayRowOf(st.movements, st.closings), st.days);
    assert DayKey()(st.days[i]) in DaysOf(st);
  }

  lemma DayOf(st: State, id: DayId) returns (i: nat)
    requires Ledger.DaysInv(st.days) && id in DaysOf(st)
    ensures i < |st.days| && st.days[i].id == id
    ensures DaysOf(st)[id] == DayRowOf(st.movements, st.closings)(st.days[i])
  {
    DaysDistinct(st.days);
    KeyedHolds(DayKey(), DayRowOf(st.movements, st.closings), st.days);
    i :| 0 <= i < |st.days| && DayKey()(st.days[i]) == id;
  }

  // ----- the expected cash of both is the same

  lemma {:induction false} TotalOfRows(f: Row -> int, g: Sale -> int, sales: seq<Sale>)
    requires KeysDistinct(SaleKey(), sales)
    requires forall s | s in sales :: f(RowOf()(s)) == g(s)
    ensures Total(f, RowsOf(sales)) == Sum(g, sales)
    decreases |sales|
  {
    if sales != [] {
      var n := |sales| - 1;
      var before, s := sales[..n], sales[n];
      TotalOfRows(f, g, before);
      assert sales == before + [s];
      SumAppend(g, before, s);
      KeyedHolds(SaleKey(), RowOf(), before);
      LastIsNew(sales);
      Races.TotalInsert(f, RowsOf(before), s.id, RowOf()(s));
    }
  }

  lemma LastIsNew(sales: seq<Sale>)
    requires sales != [] && KeysDistinct(SaleKey(), sales)
    ensures sales[|sales| - 1].id !in RowsOf(sales[..|sales| - 1])
  {
    var n := |sales| - 1;
    KeyedHolds(SaleKey(), RowOf(), sales[..n]);
    forall i | 0 <= i < n
      ensures sales[..n][i].id != sales[n].id
    {
      assert SaleKey()(sales[i]) != SaleKey()(sales[n]);
    }
  }

  /** The protocol expects the cash that the ledger expects. */
  lemma ExpectedAgrees(st: State, txns: seq<Txn>, day: Id)
    requires Ledger.Inv(st) && Has(WithDayId(day), st.days)
    ensures Expected(System(st, txns), day) == ExpectedCash(st, day)
  {
    var i := Find(WithDayId(day), st.days);
    DayIs(st, i);
    SalesDistinct(st.sales);
    TotalOfRows(CashOn(day), PortionOn(Cash, day), st.sales);
    TipsAndChange(day, st.sales);
  }

  lemma TipsAndChange(day: Id, sales: seq<Sale>)
    requires KeysDistinct(SaleKey(), sales)
    ensures Total(TipsAndChangeOn(day), RowsOf(sales)) == Sum(TipOn(day), sales) + Sum(OutstandingOn(day), sales)
  {
    var both := (s: Sale) => TipOn(day)(s) + OutstandingOn(day)(s);
    SumPlus(TipOn(day), OutstandingOn(day), both, sales);
    TotalOfRows(TipsAndChangeOn(day), both, sales);
  }

  // ----- they are sound

  lemma SalesApart(sales: seq<Sale>, i: nat, j: nat)
    requires Ledger.SalesInv(sales) && i < |sales| && j < |sales| && sales[i].id != sales[j].id
    ensures !Ledger.Clash(sales[i], sales[j])
  {
    assert !Ledger.Clash(sales[if i < j then i else j], sales[if i < j then j else i]);
  }

  lemma RowIsSound(sales: seq<Sale>, i: nat)
    requires Ledger.SalesInv(sales) && i < |sales|
    ensures 1 <= sales[i].number && Interleavings.MoneyOk(RowOf()(sales[i]))
    ensures sales[i].corrects.Some? ==> sales[i].kind == SaleKind.Void
  {
    var s := sales[i];
    assert s in sales;
    if s.kind == SaleKind.Purchase {
      assert Ledger.PurchaseOk(s);
    } else {
      var o :| o in sales && Ledger.Mirrors(s, o);
    }
  }

  lemma NumbersAreUnique(sales: seq<Sale>)
    requires Ledger.SalesInv(sales)
    ensures Interleavings.NumbersUnique(RowsOf(sales)) && Interleavings.VoidsUnique(RowsOf(sales))
  {
    var rows := RowsOf(sales);
    forall o, p | o in rows && p in rows && o != p
      ensures rows[o].day == rows[p].day ==> rows[o].number != rows[p].number
      ensures rows[o].corrects.Some? ==> rows[o].corrects != rows[p].corrects
    {
      var i := SaleOf(sales, o);
      var j := SaleOf(sales, p);
      SalesApart(sales, i, j);
      RowIsSound(sales, i);
      RowIsSound(sales, j);
    }
  }

  lemma OneDayIsOpen(st: State)
    requires Ledger.DaysInv(st.days)
    ensures Interleavings.OneOpen(DaysOf(st))
  {
    var days := DaysOf(st);
    forall d, e | d in days && e in days && d != e
      ensures !(days[d].isOpen && days[e].isOpen)
    {
      var i := DayOf(st, d);
      var j := DayOf(st, e);
    }
  }

  lemma RowsAreOk(st: State)
    requires Ledger.Inv(st)
    ensures forall o | o in RowsOf(st.sales) :: Interleavings.RowOk(RowsOf(st.sales)[o], DaysOf(st))
  {
    forall o | o in RowsOf(st.sales)
      ensures Interleavings.RowOk(RowsOf(st.sales)[o], DaysOf(st))
    {
      var i := SaleOf(st.sales, o);
      RowIsSound(st.sales, i);
      assert st.sales[i] in st.sales;
      DayIs(st, Find(WithDayId(st.sales[i].day), st.days));
    }
  }

  lemma RowsAreSound(st: State, txns: seq<Txn>)
    requires Ledger.Inv(st)
    ensures Interleavings.RowsSound(System(st, txns))
  {
    NumbersAreUnique(st.sales);
    OneDayIsOpen(st);
    RowsAreOk(st);
  }
}
