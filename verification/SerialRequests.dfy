/** One request of the ledger is one lone run of the concurrent protocol: a transaction that runs alone
    does to the tables what its request does in one step. */
module SerialRequests {
  import opened Tables
  import opened Store
  import opened Locking
  import opened KeyedRows
  import opened LoneRuns
  import opened ProtocolTables
  import Drawer
  import Ledger
  import LedgerSteps
  import Orders

  type Request = Ledger.Request

  // ----- the transaction of a request

  function SaleIdOf(st: State, clientId: Id): SaleId
  {
    var i := Find(WithClientId(clientId), st.sales);
    if i < |st.sales| then st.sales[i].id else 0
  }

  function Amount(st: State, r: Request, day: Id): int
  {
    Drawer.Effect(Drawer.CashEventOf(st, r), day)
  }

  function Natural(n: int): nat { if n < 0 then 0 else n }

  /** What an accepted request asks the protocol to do; an edit that keeps its order moves no money. */
  function JobOf(st: State, r: Request): Option<Job>
  {
    var (after, reply) := Ledger.Step(st, r);
    if after == st then None
    else
      match r
      case CreateOrder(_, _, _, _, _, _, _) => Some(Job.Create)
      case VoidSale(c, _, _, _) => Some(Job.Void(SaleIdOf(st, c)))
      case CompleteOrder(c, tender, _) =>
        Some(Job.Complete(SaleIdOf(st, c), Natural(Portion(Cash, tender.payments)), Natural(tender.tip),
                          Natural(tender.owed)))
      case SettleOrder(c, _) => Some(Job.Settle(SaleIdOf(st, c)))
      case EditOrderLine(c, _, _) => if reply.OrderDiscarded? then Some(Job.Discard(SaleIdOf(st, c))) else None
      case Record(_) =>
        if reply.MovementReply? then Some(Job.Record(Amount(st, r, reply.movement.day))) else None
      case Amend(_, _) =>
        if reply.MovementReply? then
          Some(Job.Amend(reply.movement.day, Amount(st, r, reply.movement.day)))
        else None
      case Open(_, date, float, _, _) => Some(Job.Open(date, float))
      case Close(_, _, _, _, _) => Some(Job.Close)
      case _ => None
  }

  /** The lone run of the transaction ends in the tables that the request leaves. */
  ghost predicate Runs(st: State, r: Request, txns: seq<Txn>, i: nat, schedule: seq<Pick>)
    requires i < |txns|
  {
    && OnlyOf(schedule, i)
    && Run(System(st, txns), schedule) == Goto(System(Ledger.Next(st, r), txns), i, Finished)
  }

  /** Transaction `i` is the one of the request and has not begun; the others hold nothing. */
  predicate Ready(st: State, r: Request, txns: seq<Txn>, i: nat)
  {
    && Ledger.Inv(st) && JobOf(st, r).Some? && i < |txns| && txns[i] == Txn(JobOf(st, r).value, Start)
    && Idle(System(st, txns))
  }

  // ----- inserts

  lemma {:induction false} LastIsUsed(sales: seq<Sale>, day: Id)
    ensures LastNumber(sales, day) == 0
      || exists s | s in sales :: s.day == day && s.number == LastNumber(sales, day)
  {
    if sales != [] {
      LastIsUsed(sales[1..], day);
    }
  }

  lemma LastIs(st: State, day: Id)
    requires Ledger.Inv(st)
    ensures IsLast(RowsOf(st.sales), day, LastNumber(st.sales, day))
  {
    var rows, last := RowsOf(st.sales), LastNumber(st.sales, day);
    Ledger.LastNumberBounds(st.sales, day);
    forall o | o in rows && rows[o].day == day
      ensures rows[o].number <= last
    {
      var i := SaleOf(st.sales, o);
    }
    LastIsUsed(st.sales, day);
    if last != 0 {
      var s :| s in st.sales && s.day == day && s.number == last;
      var i :| 0 <= i < |st.sales| && st.sales[i] == s;
      RowIs(st.sales, i);
    }
  }

  lemma IdIsFree(sales: seq<Sale>, id: Id)
    requires Ledger.SalesInv(sales) && !Has(WithSaleId(id), sales)
    ensures id !in RowsOf(sales)
  {
    SalesDistinct(sales);
    KeyedHolds(SaleKey(), RowOf(), sales);
    forall i | 0 <= i < |sales|
      ensures SaleKey()(sales[i]) != id
    {
      assert !WithSaleId(id)(sales[i]);
    }
  }

  /** What a new row looks like: the cash of a void is what its original took, negated. */
  predicate IsNewRow(rows: map<SaleId, Row>, row: Row)
  {
    && row.completed == row.corrects.Some? && row.tip == row.owed == 0 && !row.settled
    && row.cash == if row.corrects.Some? && row.corrects.value in rows then -rows[row.corrects.value].cash else 0
  }

  lemma InsertIs(s: Sys, row: Row, newId: nat)
    requires newId !in s.rows && IsLast(s.rows, row.day, row.number - 1) && IsNewRow(s.rows, row)
    ensures InsertRow(s, row.corrects, row.day, row.number - 1, newId) == s.(rows := s.rows[newId := row])
  {
  }

  /** The row a request adds is the row the protocol inserts. */
  lemma InsertIsAppend(st: State, s: Sale, txns: seq<Txn>)
    requires s.id !in RowsOf(st.sales) && IsLast(RowsOf(st.sales), s.day, s.number - 1)
    requires IsNewRow(RowsOf(st.sales), RowOf()(s))
    ensures InsertRow(System(st, txns), s.corrects, s.day, s.number - 1, s.id)
      == System(st.(sales := st.sales + [s]), txns)
  {
    InsertIs(System(st, txns), RowOf()(s), s.id);
    KeyedAppend(SaleKey(), RowOf(), st.sales, s);
  }

  /** A row that an accepted request adds to the sales of an open day. */
  ghost predicate Inserts(st: State, after: State, s: Sale)
  {
    && after == st.(sales := st.sales + [s]) && s.id !in RowsOf(st.sales)
    && IsOpenDay(DaysOf(st), s.day) && IsLast(RowsOf(st.sales), s.day, s.number - 1)
    && IsNewRow(RowsOf(st.sales), RowOf()(s))
  }

  lemma FreshRowInserts(st: State, after: State, s: Sale)
    requires Ledger.Inv(st) && LedgerSteps.FreshRow(st, s) && after == st.(sales := st.sales + [s])
    requires IsNewRow(RowsOf(st.sales), RowOf()(s))
    ensures Inserts(st, after, s)
  {
    var d :| 0 <= d < |st.days| && st.days[d].isOpen && st.days[d].id == s.day;
    OpenDayIs(st, d);
    LastIs(st, s.day);
    IdIsFree(st.sales, s.id);
  }

  lemma OpenDayIs(st: State, d: nat)
    requires Ledger.Inv(st) && d < |st.days| && st.days[d].isOpen
    ensures IsOpenDay(DaysOf(st), st.days[d].id)
  {
    DayIs(st, d);
  }

  lemma CreateIs(st: State, r: Request)
    requires Ledger.Inv(st) && r.CreateOrder? && Ledger.Next(st, r) != st
    ensures Ledger.Step(st, r).1.OrderReply?
    ensures var s := Ledger.Step(st, r).1.sale; Inserts(st, Ledger.Next(st, r), s) && s.corrects.None?
  {
    Ledger.CreateOrderStep(st, r);
    LedgerSteps.CreateInserts(st, r.clientId, r.saleId, r.lineId, r.input, r.variant, r.customer, r.service);
    LedgerSteps.CreateAdds(st, r.clientId, r.saleId, r.lineId, r.input, r.variant, r.customer, r.service);
    FreshRowInserts(st, Ledger.Next(st, r), Ledger.Step(st, r).1.sale);
  }

  lemma RunsCreate(st: State, after: State, s: Sale, txns: seq<Txn>, i: nat) returns (schedule: seq<Pick>)
    requires Inserts(st, after, s) && s.corrects.None? && Idle(System(st, txns))
    requires i < |txns| && txns[i] == Txn(Job.Create, Start)
    ensures Run(System(st, txns), schedule) == Goto(System(after, txns), i, Finished)
    ensures OnlyOf(schedule, i)
  {
    InsertIsAppend(st, s, txns);
    schedule := CreateAlone(System(st, txns), i, s.day, Env(s.day, s.number - 1, s.id));
  }

  /** A completed order that no row voids yet. */
  predicate Voidable(rows: map<SaleId, Row>, o: SaleId)
  {
    o in rows && rows[o].corrects.None? && rows[o].completed && !HasVoid(rows, o)
  }

  lemma OriginalIs(st: State, i: nat)
    requires Ledger.Inv(st) && i < |st.sales| && st.sales[i].kind == SaleKind.Purchase
    requires st.sales[i].status == Completed && !Has(Voiding(st.sales[i].id), st.sales)
    ensures var o := st.sales[i].id;
      Voidable(RowsOf(st.sales), o) && RowsOf(st.sales)[o] == RowOf()(st.sales[i])
  {
    var o, rows := st.sales[i].id, RowsOf(st.sales);
    RowIs(st.sales, i);
    assert st.sales[i] in st.sales && Ledger.PurchaseOk(st.sales[i]);
    forall v | v in rows
      ensures rows[v].corrects != Some(o)
    {
      var k := SaleOf(st.sales, v);
      assert !Voiding(o)(st.sales[k]) && st.sales[k] in st.sales;
      assert st.sales[k].kind == SaleKind.Purchase ==> Ledger.PurchaseOk(st.sales[k]);
    }
  }

  lemma VoidRowIsNew(rows: map<SaleId, Row>, v: Sale, o: Sale)
    requires Ledger.Mirrors(v, o) && o.id in rows && rows[o.id] == RowOf()(o)
    ensures IsNewRow(rows, RowOf()(v)) && v.corrects == Some(o.id)
  {
    Drawer.PortionNegated(Cash, o.payments);
  }

  lemma VoidInserts(st: State, after: State, v: Sale, k: nat)
    requires Ledger.Inv(st) && LedgerSteps.FreshRow(st, v) && after == st.(sales := st.sales + [v])
    requires k < |st.sales| && Ledger.Mirrors(v, st.sales[k]) && !Has(Voiding(st.sales[k].id), st.sales)
    ensures Inserts(st, after, v) && v.corrects == Some(st.sales[k].id)
    ensures Voidable(RowsOf(st.sales), st.sales[k].id)
  {
    OriginalIs(st, k);
    VoidRowIsNew(RowsOf(st.sales), v, st.sales[k]);
    FreshRowInserts(st, after, v);
  }

  lemma VoidIs(st: State, r: Request)
    requires Ledger.Inv(st) && r.VoidSale? && Ledger.Next(st, r) != st
    ensures Ledger.Step(st, r).1.OrderReply?
    ensures var s, k := Ledger.Step(st, r).1.sale, Find(WithClientId(r.clientId), st.sales);
      && Inserts(st, Ledger.Next(st, r), s)
      && k < |st.sales| && s.corrects == Some(st.sales[k].id) && Voidable(RowsOf(st.sales), st.sales[k].id)
  {
    Ledger.VoidSaleStep(st, r);
    LedgerSteps.VoidAdds(st, r.clientId, r.voidClientId, r.saleId, r.isAdmin);
    VoidInserts(st, Ledger.Next(st, r), Ledger.Step(st, r).1.sale, Find(WithClientId(r.clientId), st.sales));
  }

  lemma RunsVoid(st: State, after: State, s: Sale, txns: seq<Txn>, i: nat) returns (schedule: seq<Pick>)
    requires Inserts(st, after, s) && s.corrects.Some? && Voidable(RowsOf(st.sales), s.corrects.value)
    requires Idle(System(st, txns)) && i < |txns| && txns[i] == Txn(Job.Void(s.corrects.value), Start)
    ensures Run(System(st, txns), schedule) == Goto(System(after, txns), i, Finished)
    ensures OnlyOf(schedule, i)
  {
    InsertIsAppend(st, s, txns);
    schedule := VoidAlone(System(st, txns), i, s.corrects.value, s.day, Env(s.day, s.number - 1, s.id));
  }

  // ----- orders

  /** An accepted request that changes one order, or discards it. */
  ghost predicate Writes(st: State, after: State, k: nat, job: Job)
  {
    && k < |st.sales| && st.sales[k].id in RowsOf(st.sales)
    && var o := st.sales[k].id;
       && System(after, []) == WriteOrder(System(st, []), job, o)
       && RowsOf(st.sales)[o].corrects.None?
       && (|| job in {Job.Settle(o), Job.Discard(o)} || (job.Complete? && job.order == o))
       && (if job.Settle? then
             RowsOf(st.sales)[o].completed && RowsOf(st.sales)[o].owed > 0 && !RowsOf(st.sales)[o].settled
           else !RowsOf(st.sales)[o].completed && IsOpenDay(DaysOf(st), RowsOf(st.sales)[o].day))
  }

  lemma RunsWrite(st: State, after: State, k: nat, job: Job, txns: seq<Txn>, i: nat) returns (schedule: seq<Pick>)
    requires Writes(st, after, k, job) && Idle(System(st, txns)) && i < |txns| && txns[i] == Txn(job, Start)
    ensures Run(System(st, txns), schedule) == Goto(System(after, txns), i, Finished)
    ensures OnlyOf(schedule, i)
  {
    var o := st.sales[k].id;
    assert WriteOrder(System(st, txns), job, o) == WriteOrder(System(st, []), job, o).(txns := txns);
    schedule := WriteAlone(System(st, txns), i, o, Env(0, 0, 0));
  }

  lemma SaleReplaced(sales: seq<Sale>, k: nat, t: Sale)
    requires Ledger.SalesInv(sales) && k < |sales| && t.id == sales[k].id
    ensures RowsOf(sales[k := t]) == RowsOf(sales)[t.id := RowOf()(t)]
  {
    SalesDistinct(sales);
    KeyedChange(SaleKey(), RowOf(), RowOf(), sales, k, t);
  }

  lemma SaleDropped(sales: seq<Sale>, k: nat)
    requires Ledger.SalesInv(sales) && k < |sales|
    ensures RowsOf(Without(sales, k)) == RowsOf(sales) - {sales[k].id}
  {
    SalesDistinct(sales);
    KeyedRemove(SaleKey(), RowOf(), sales, k);
  }

  /** The day a sale belongs to, if it is open. */
  lemma DayOfSale(st: State, day: Id)
    requires Ledger.Inv(st) && DayIsOpen(st.days, day)
    ensures IsOpenDay(DaysOf(st), day)
  {
    OpenDayIs(st, Find(WithDayId(day), st.days));
  }

  lemma PurchaseIs(st: State, k: nat)
    requires Ledger.Inv(st) && k < |st.sales| && st.sales[k].kind == SaleKind.Purchase
    ensures st.sales[k].corrects.None?
    ensures st.sales[k].id in RowsOf(st.sales) && RowsOf(st.sales)[st.sales[k].id] == RowOf()(st.sales[k])
  {
    RowIs(st.sales, k);
    assert st.sales[k] in st.sales && Ledger.PurchaseOk(st.sales[k]);
  }

  lemma CompleteWrites(st: State, after: State, k: nat, t: Sale, cash: nat, tip: nat, owed: nat)
    requires Ledger.Inv(st) && k < |st.sales| && st.sales[k].kind == SaleKind.Purchase
    requires st.sales[k].status == Parked && DayIsOpen(st.days, st.sales[k].day)
    requires after == st.(sales := st.sales[k := t])
    requires RowOf()(t) == RowOf()(st.sales[k]).(completed := true, cash := cash, tip := tip, owed := owed)
    requires t.id == st.sales[k].id
    ensures Writes(st, after, k, Job.Complete(t.id, cash, tip, owed))
  {
    PurchaseIs(st, k);
    SaleReplaced(st.sales, k, t);
    DayOfSale(st, st.sales[k].day);
  }

  lemma SettleWrites(st: State, after: State, k: nat, t: Sale)
    requires Ledger.Inv(st) && k < |st.sales| && st.sales[k].kind == SaleKind.Purchase
    requires st.sales[k].status == Completed && st.sales[k].owed > 0 && st.sales[k].settledAt.None?
    requires after == st.(sales := st.sales[k := t]) && t == st.sales[k].(settledAt := t.settledAt)
    requires t.settledAt.Some?
    ensures Writes(st, after, k, Job.Settle(t.id))
  {
    PurchaseIs(st, k);
    SaleReplaced(st.sales, k, t);
  }

  lemma DiscardWrites(st: State, after: State, k: nat)
    requires Ledger.Inv(st) && k < |st.sales| && st.sales[k].kind == SaleKind.Purchase
    requires st.sales[k].status == Parked && DayIsOpen(st.days, st.sales[k].day)
    requires after == st.(sales := Without(st.sales, k))
    ensures Writes(st, after, k, Job.Discard(st.sales[k].id))
  {
    PurchaseIs(st, k);
    DroppedSystem(st, after, k);
    WriteDiscards(System(st, []), st.sales[k].id);
    DayOfSale(st, st.sales[k].day);
  }

  lemma WriteDiscards(s: Sys, o: SaleId)
    requires o in s.rows
    ensures WriteOrder(s, Job.Discard(o), o) == s.(rows := s.rows - {o})
  {
  }

  lemma DroppedSystem(st: State, after: State, k: nat)
    requires Ledger.SalesInv(st.sales) && k < |st.sales| && after == st.(sales := Without(st.sales, k))
    ensures System(after, []) == System(st, []).(rows := RowsOf(st.sales) - {st.sales[k].id})
  {
    SaleDropped(st.sales, k);
  }

  lemma ContentIsNoRow(st: State, after: State, k: nat, t: Sale)
    requires Ledger.Inv(st) && k < |st.sales| && LedgerSteps.SameButContent(st.sales[k], t)
    requires after == st.(sales := st.sales[k := t])
    ensures System(after, []) == System(st, [])
  {
    RowIs(st.sales, k);
    SaleReplaced(st.sales, k, t);
    SameAgain(RowsOf(st.sales), t.id);
  }

  lemma SameAgain(rows: map<SaleId, Row>, o: SaleId)
    requires o in rows
    ensures rows[o := rows[o]] == rows
  {
  }

  lemma CompletedIs(st: State, r: Request)
    requires r.CompleteOrder? && Ledger.Next(st, r) != st
    ensures var (after, reply) := Ledger.Step(st, r);
      var k := Find(WithClientId(r.clientId), st.sales);
      && k < |st.sales| && reply.OrderReply? && after == st.(sales := st.sales[k := reply.sale])
      && st.sales[k].kind == SaleKind.Purchase && st.sales[k].status == Parked
      && DayIsOpen(st.days, st.sales[k].day) && reply.sale.id == st.sales[k].id
      && RowOf()(reply.sale) == RowOf()(st.sales[k]).(completed := true, cash := Portion(Cash, r.tender.payments),
                                                      tip := r.tender.tip, owed := r.tender.owed)
  {
    Ledger.CompleteOrderStep(st, r);
    LedgerSteps.CompleteEdits(st, r.clientId, r.tender, r.now);
  }

  lemma TenderIsNatural(st: State, r: Request)
    requires r.CompleteOrder? && Ledger.Next(st, r) != st
    ensures 0 <= Portion(Cash, r.tender.payments) && 0 <= r.tender.tip && 0 <= r.tender.owed
  {
    Ledger.CompleteOrderStep(st, r);
    LedgerSteps.CompleteEdits(st, r.clientId, r.tender, r.now);
    var k := Find(WithClientId(r.clientId), st.sales);
    LedgerSteps.AcceptedTender(st.sales[k].totals.total, r.tender);
    SumBounds(AmountOf(), Filter(IsTender(Cash), r.tender.payments));
  }

  lemma CompleteJob(st: State, r: Request)
    requires r.CompleteOrder? && Ledger.Next(st, r) != st
    ensures JobOf(st, r)
      == Some(Job.Complete(SaleIdOf(st, r.clientId), Natural(Portion(Cash, r.tender.payments)),
                           Natural(r.tender.tip), Natural(r.tender.owed)))
  {
    Ledger.CompleteOrderStep(st, r);
  }

  lemma SettleJob(st: State, r: Request)
    requires r.SettleOrder? && Ledger.Next(st, r) != st
    ensures JobOf(st, r) == Some(Job.Settle(SaleIdOf(st, r.clientId)))
  {
    Ledger.SettleOrderStep(st, r);
  }

  lemma CompleteIs(st: State, r: Request)
    requires Ledger.Inv(st) && r.CompleteOrder? && Ledger.Next(st, r) != st
    ensures JobOf(st, r).Some?
    ensures Writes(st, Ledger.Next(st, r), Find(WithClientId(r.clientId), st.sales), JobOf(st, r).value)
  {
    CompleteJob(st, r);
    CompletedIs(st, r);
    TenderIsNatural(st, r);
    CompleteWrites(st, Ledger.Next(st, r), Find(WithClientId(r.clientId), st.sales), Ledger.Step(st, r).1.sale,
                   Portion(Cash, r.tender.payments), r.tender.tip, r.tender.owed);
  }

  lemma SettledIs(st: State, r: Request)
    requires r.SettleOrder? && Ledger.Next(st, r) != st
    ensures var (after, reply) := Ledger.Step(st, r);
      var k := Find(WithClientId(r.clientId), st.sales);
      && k < |st.sales| && reply.OrderReply? && after == st.(sales := st.sales[k := reply.sale])
      && st.sales[k].kind == SaleKind.Purchase && st.sales[k].status == Completed
      && st.sales[k].owed > 0 && st.sales[k].settledAt.None?
      && reply.sale == st.sales[k].(settledAt := reply.sale.settledAt) && reply.sale.settledAt.Some?
  {
    Ledger.SettleOrderStep(st, r);
    LedgerSteps.SettleEdits(st, r.clientId, r.now);
  }

  lemma SettleIs(st: State, r: Request)
    requires Ledger.Inv(st) && r.SettleOrder? && Ledger.Next(st, r) != st
    ensures JobOf(st, r).Some?
    ensures Writes(st, Ledger.Next(st, r), Find(WithClientId(r.clientId), st.sales), JobOf(st, r).value)
  {
    SettleJob(st, r);
    SettledIs(st, r);
    SettleWrites(st, Ledger.Next(st, r), Find(WithClientId(r.clientId), st.sales), Ledger.Step(st, r).1.sale);
  }

  /** The parked order an edit is about is found under its client id. */
  lemma ParkedIs(st: State, clientId: Id)
    requires Ledger.Inv(st) && Orders.ParkedOrder(st, clientId).Ok?
    ensures var k := Orders.ParkedOrder(st, clientId).value;
      && k == Find(WithClientId(clientId), st.sales) < |st.sales|
      && st.sales[k].kind == SaleKind.Purchase && st.sales[k].status == Parked
      && DayIsOpen(st.days, st.sales[k].day)
  {
    LedgerSteps.ParkedOrderOpen(st, clientId);
  }

  lemma EditIs(st: State, r: Request)
    requires Ledger.Inv(st) && Ledger.Next(st, r) != st
    requires r.RenameOrder? || r.AddOrderLine? || r.EditOrderLine?
    ensures LedgerSteps.ParkedEdited(st, Ledger.Next(st, r), Ledger.Step(st, r).1, r.clientId)
    ensures !r.EditOrderLine? ==> Ledger.Step(st, r).1.OrderReply?
  {
    if r.RenameOrder? {
      Ledger.RenameOrderStep(st, r);
      LedgerSteps.UpdateEdits(st, r.clientId, r.newCustomer, r.newService);
    } else if r.AddOrderLine? {
      Ledger.AddOrderLineStep(st, r);
      LedgerSteps.AddLineEdits(st, r.clientId, r.lineId, r.input, r.variant);
    } else {
      Ledger.EditOrderLineStep(st, r);
      LedgerSteps.EditLineEdits(st, r.clientId, r.lineId, r.edit);
    }
  }

  lemma DiscardIs(st: State, r: Request)
    requires Ledger.Inv(st) && r.EditOrderLine? && Ledger.Next(st, r) != st && Ledger.Step(st, r).1.OrderDiscarded?
    ensures JobOf(st, r).Some?
    ensures Writes(st, Ledger.Next(st, r), Find(WithClientId(r.clientId), st.sales), JobOf(st, r).value)
  {
    EditIs(st, r);
    ParkedIs(st, r.clientId);
    DiscardWrites(st, Ledger.Next(st, r), Find(WithClientId(r.clientId), st.sales));
  }

  /** An edit that keeps its order changes nothing the protocol sees. */
  lemma ContentIs(st: State, r: Request)
    requires Ledger.Inv(st) && Ledger.Next(st, r) != st
    requires r.RenameOrder? || r.AddOrderLine? || (r.EditOrderLine? && !Ledger.Step(st, r).1.OrderDiscarded?)
    ensures System(Ledger.Next(st, r), []) == System(st, [])
  {
    EditIs(st, r);
    ContentIsNoRow(st, Ledger.Next(st, r), Orders.ParkedOrder(st, r.clientId).value, Ledger.Step(st, r).1.sale);
  }

  // ----- movements

  lemma NetIs(st: State, day: Id)
    ensures Net(st.movements, day) == ExpectedCash(st, day) - FloatOf(st.days, day)
      - Sum(PortionOn(Cash, day), st.sales) - Sum(TipOn(day), st.sales) - Sum(OutstandingOn(day), st.sales)
  {
  }

  /** A new movement that moves the net of its own open day by an amount, and of no other. */
  ghost predicate Adds(st: State, after: State, m: Movement, amount: int)
  {
    && after == st.(movements := st.movements + [m]) && DayIsOpen(st.days, m.day)
    && forall day :: Net(after.movements, day) == Net(st.movements, day) + if day == m.day then amount else 0
  }

  lemma NetMoves(st: State, r: Request, m: Movement, day: Id)
    requires Ledger.Inv(st) && Ledger.Next(st, r) == st.(movements := st.movements + [m])
    ensures Net(st.movements + [m], day) == Net(st.movements, day) + Amount(st, r, day)
  {
    Drawer.StepMovesDrawer(st, r, day);
    NetIs(st, day);
    NetIs(Ledger.Next(st, r), day);
  }

  lemma DaysApart(days: seq<Day>, j: nat, k: nat)
    requires Ledger.DaysInv(days) && j < |days| && k < |days| && j != k
    ensures days[j].id != days[k].id
  {
  }

  lemma OtherDayRowsStay(st: State, after: State, m: Movement, amount: int, k: nat)
    requires Ledger.DaysInv(st.days) && Adds(st, after, m, amount) && k < |st.days| && st.days[k].id == m.day
    ensures var v, w := DayRowOf(st.movements, st.closings), DayRowOf(after.movements, st.closings);
      forall j | 0 <= j < |st.days| && j != k :: w(st.days[j]) == v(st.days[j])
  {
    forall j | 0 <= j < |st.days| && j != k
      ensures Net(after.movements, st.days[j].id) == Net(st.movements, st.days[j].id)
    {
      DaysApart(st.days, j, k);
    }
  }

  lemma OneDayRowChanges(st: State, movements: seq<Movement>, k: nat)
    requires Ledger.DaysInv(st.days) && k < |st.days|
    requires var v, w := DayRowOf(st.movements, st.closings), DayRowOf(movements, st.closings);
      forall j | 0 <= j < |st.days| && j != k :: w(st.days[j]) == v(st.days[j])
    ensures DaysOf(st.(movements := movements))
      == DaysOf(st)[st.days[k].id := DayRowOf(movements, st.closings)(st.days[k])]
  {
    DaysDistinct(st.days);
    KeyedChange(DayKey(), DayRowOf(st.movements, st.closings), DayRowOf(movements, st.closings),
                st.days, k, st.days[k]);
    assert st.days[k := st.days[k]] == st.days;
  }

  lemma DaysMove(st: State, after: State, m: Movement, amount: int)
    requires Ledger.DaysInv(st.days) && Adds(st, after, m, amount)
    ensures DaysOf(after) == Locking.Move(DaysOf(st), m.day, amount)
  {
    DayMoves(st, after, m, amount, Find(WithDayId(m.day), st.days));
  }

  lemma DayMoves(st: State, after: State, m: Movement, amount: int, k: nat)
    requires Ledger.DaysInv(st.days) && Adds(st, after, m, amount) && k < |st.days| && st.days[k].id == m.day
    ensures DaysOf(after) == Locking.Move(DaysOf(st), m.day, amount)
  {
    OtherDayRowsStay(st, after, m, amount, k);
    OneDayRowChanges(st, after.movements, k);
    DayIs(st, k);
    DayRowMoves(st, after, m, amount, st.days[k]);
    RowMoved(DaysOf(st), m.day, amount);
  }

  lemma RowMoved(days: map<DayId, DayRow>, d: DayId, amount: int)
    requires d in days
    ensures Locking.Move(days, d, amount) == days[d := days[d].(moves := days[d].moves + amount)]
  {
  }

  lemma DayRowMoves(st: State, after: State, m: Movement, amount: int, day: Day)
    requires Adds(st, after, m, amount) && day.id == m.day
    ensures var row := DayRowOf(st.movements, st.closings)(day);
      DayRowOf(after.movements, st.closings)(day) == row.(moves := row.moves + amount)
  {
  }

  lemma RunsMove(st: State, after: State, m: Movement, amount: int, job: Job, txns: seq<Txn>, i: nat)
      returns (schedule: seq<Pick>)
    requires Ledger.Inv(st) && Adds(st, after, m, amount) && Idle(System(st, txns))
    requires i < |txns| && txns[i] == Txn(job, Start) && job in {Job.Record(amount), Job.Amend(m.day, amount)}
    ensures Run(System(st, txns), schedule) == Goto(System(after, txns), i, Finished)
    ensures OnlyOf(schedule, i)
  {
    DaysMove(st, after, m, amount);
    DayOfSale(st, m.day);
    schedule := MoveAlone(System(st, txns), i, m.day, Env(m.day, 0, 0), amount);
  }

  lemma RecordElsewhere(st: State, r: Request, day: Id)
    requires r.Record? && Ledger.Step(st, r).1.MovementReply? && day != Ledger.Step(st, r).1.movement.day
    ensures Amount(st, r, day) == 0
  {
    Ledger.RecordStep(st, r);
    Drawer.RecordEventIs(st, r);
  }

  lemma AmendElsewhere(st: State, r: Request, day: Id)
    requires r.Amend? && Ledger.Step(st, r).1.MovementReply? && day != Ledger.Step(st, r).1.movement.day
    ensures Amount(st, r, day) == 0
  {
    Ledger.AmendStep(st, r);
    Drawer.AmendEventIs(st, r);
  }

  lemma RecordedIs(st: State, r: Request)
    requires Ledger.Inv(st) && r.Record? && Ledger.Next(st, r) != st
    ensures Ledger.Step(st, r).1.MovementReply?
    ensures var m := Ledger.Step(st, r).1.movement;
      Ledger.Next(st, r) == st.(movements := st.movements + [m]) && DayIsOpen(st.days, m.day)
  {
    Ledger.RecordStep(st, r);
    LedgerSteps.RecordAdds(st, r.movement);
    Ledger.FoundByDayId(st.days, Find(OpenNow(), st.days));
  }

  lemma AmendedIs(st: State, r: Request)
    requires r.Amend? && Ledger.Next(st, r) != st
    ensures Ledger.Step(st, r).1.MovementReply?
    ensures var m := Ledger.Step(st, r).1.movement;
      Ledger.Next(st, r) == st.(movements := st.movements + [m]) && DayIsOpen(st.days, m.day)
  {
    Ledger.AmendStep(st, r);
    LedgerSteps.AmendAdds(st, r.targetId, r.movement);
  }

  lemma RecordIs(st: State, r: Request)
    requires Ledger.Inv(st) && r.Record? && Ledger.Next(st, r) != st
    ensures Ledger.Step(st, r).1.MovementReply?
    ensures var m := Ledger.Step(st, r).1.movement; Adds(st, Ledger.Next(st, r), m, Amount(st, r, m.day))
  {
    RecordedIs(st, r);
    var m := Ledger.Step(st, r).1.movement;
    forall day
      ensures Net(st.movements + [m], day) == Net(st.movements, day) + if day == m.day then Amount(st, r, day) else 0
    {
      NetMoves(st, r, m, day);
      if day != m.day {
        RecordElsewhere(st, r, day);
      }
    }
  }

  lemma AmendIs(st: State, r: Request)
    requires Ledger.Inv(st) && r.Amend? && Ledger.Next(st, r) != st
    ensures Ledger.Step(st, r).1.MovementReply?
    ensures var m := Ledger.Step(st, r).1.movement; Adds(st, Ledger.Next(st, r), m, Amount(st, r, m.day))
  {
    AmendedIs(st, r);
    var m := Ledger.Step(st, r).1.movement;
    forall day
      ensures Net(st.movements + [m], day) == Net(st.movements, day) + if day == m.day then Amount(st, r, day) else 0
    {
      NetMoves(st, r, m, day);
      if day != m.day {
        AmendElsewhere(st, r, day);
      }
    }
  }

  // ----- days

  lemma NoDayOpen(st: State)
    requires Ledger.DaysInv(st.days) && !Has(OpenNow(), st.days)
    ensures NoneOpen(DaysOf(st))
  {
    forall d | d in DaysOf(st)
      ensures !DaysOf(st)[d].isOpen
    {
      var k := DayOf(st, d);
      assert !OpenNow()(st.days[k]);
    }
  }

  lemma NewDayIs(st: State, date: int, id: Id)
    requires Ledger.DaysInv(st.days) && !Has(OnDate(date), st.days) && !Has(WithDayId(id), st.days)
    ensures id !in DaysOf(st) && forall d | d in DaysOf(st) :: DaysOf(st)[d].date != date
  {
    forall d | d in DaysOf(st)
      ensures d != id && DaysOf(st)[d].date != date
    {
      var k := DayOf(st, d);
      assert !OnDate(date)(st.days[k]) && !WithDayId(id)(st.days[k]);
    }
  }

  lemma NewDayRow(st: State, day: Day)
    requires Ledger.Inv(st) && day.isOpen && !Has(WithDayId(day.id), st.days)
    ensures DayRowOf(st.movements, st.closings)(day) == DayRow(day.date, true, day.openingFloat, 0, None)
  {
    LedgerSteps.FiguresOfNewDay(st, day.id);
    forall c | c in st.closings
      ensures !ClosingOf(day.id)(c)
    {
      assert Ledger.Closed(st.days, c.day);
    }
    FindNone(ClosingOf(day.id), st.closings);
  }

  lemma RunsOpen(st: State, r: Request, txns: seq<Txn>, i: nat) returns (schedule: seq<Pick>)
    requires Ledger.Inv(st) && r.Open? && Ledger.Next(st, r) != st && Idle(System(st, txns))
    requires i < |txns| && txns[i] == Txn(Job.Open(r.date, r.openingFloat), Start)
    ensures Runs(st, r, txns, i, schedule)
  {
    Ledger.OpenStep(st, r);
    var day := Day(r.dayId, r.date, true, r.openingFloat, r.now);
    assert Ledger.Next(st, r) == st.(days := st.days + [day]);
    NoDayOpen(st);
    NewDayIs(st, r.date, r.dayId);
    NewDayRow(st, day);
    KeyedAppend(DayKey(), DayRowOf(st.movements, st.closings), st.days, day);
    schedule := OpenAlone(System(st, txns), i, r.date, r.openingFloat, r.dayId);
  }

  lemma StoredAfter(st: State, c: Closing, day: Id)
    requires forall b | b in st.closings :: b.day != c.day
    ensures Stored(st.closings + [c], day) == if day == c.day then Some(c.expected) else Stored(st.closings, day)
  {
    var all := st.closings + [c];
    if day == c.day {
      assert all[|st.closings|] == c;
      assert forall j | 0 <= j < |st.closings| :: all[j] in st.closings;
      assert Find(ClosingOf(day), all) == |st.closings|;
    } else {
      Ledger.HasAppend(ClosingOf(day), st.closings, c);
      assert Has(ClosingOf(day), st.closings) ==> all[Find(ClosingOf(day), st.closings)] in st.closings;
    }
  }

  lemma OtherDayRowsAfterClose(st: State, d: nat, c: Closing)
    requires Ledger.DaysInv(st.days) && d < |st.days| && st.days[d].id == c.day
    requires forall b | b in st.closings :: b.day != c.day
    ensures var v, w := DayRowOf(st.movements, st.closings), DayRowOf(st.movements, st.closings + [c]);
      && (forall j | 0 <= j < |st.days| && j != d :: w(st.days[j]) == v(st.days[j]))
      && w(st.days[d]) == v(st.days[d]).(snapshot := Some(c.expected))
  {
    forall j | 0 <= j < |st.days|
      ensures Stored(st.closings + [c], st.days[j].id)
        == if j == d then Some(c.expected) else Stored(st.closings, st.days[j].id)
    {
      StoredAfter(st, c, st.days[j].id);
      if j != d {
        DaysApart(st.days, j, d);
      }
    }
  }

  function ClosedRow(row: DayRow, expected: int): DayRow
  {
    row.(isOpen := false, snapshot := Some(expected))
  }

  lemma DaysClose(st: State, d: nat, c: Closing)
    requires Ledger.DaysInv(st.days) && d < |st.days| && st.days[d].id == c.day
    requires forall b | b in st.closings :: b.day != c.day
    ensures c.day in DaysOf(st)
    ensures DaysOf(st.(days := st.days[d := st.days[d].(isOpen := false)], closings := st.closings + [c]))
      == DaysOf(st)[c.day := ClosedRow(DaysOf(st)[c.day], c.expected)]
  {
    var v, w := DayRowOf(st.movements, st.closings), DayRowOf(st.movements, st.closings + [c]);
    OtherDayRowsAfterClose(st, d, c);
    DaysDistinct(st.days);
    DayIs(st, d);
    var row := st.days[d].(isOpen := false);
    assert w(row) == ClosedRow(v(st.days[d]), c.expected);
    KeyedChange(DayKey(), v, w, st.days, d, row);
  }

  lemma RunsClose(st: State, r: Request, txns: seq<Txn>, i: nat) returns (schedule: seq<Pick>)
    requires Ledger.Inv(st) && r.Close? && Ledger.Next(st, r) != st && Idle(System(st, txns))
    requires i < |txns| && txns[i] == Txn(Job.Close, Start)
    ensures Runs(st, r, txns, i, schedule)
  {
    Ledger.CloseStep(st, r);
    LedgerSteps.CloseCloses(st, r.closingId, r.countId, r.actual, r.closerActive, r.now);
    var c := Ledger.Step(st, r).1.closing;
    var d := Find(OpenNow(), st.days);
    LedgerSteps.ClosingIsNew(st, d, c, CashCount(r.countId, c.day, r.actual, r.now));
    DaysClose(st, d, c);
    OpenDayIs(st, d);
    Ledger.FoundByDayId(st.days, d);
    ExpectedAgrees(st, txns, c.day);
    schedule := CloseAloneWhenIdle(System(st, txns), i, c.day);
  }

  // ----- request by request

  lemma CreateRuns(st: State, r: Request, txns: seq<Txn>, i: nat) returns (schedule: seq<Pick>)
    requires Ready(st, r, txns, i) && r.CreateOrder?
    ensures Runs(st, r, txns, i, schedule)
  {
    CreateIs(st, r);
    schedule := RunsCreate(st, Ledger.Next(st, r), Ledger.Step(st, r).1.sale, txns, i);
  }

  lemma VoidJob(st: State, r: Request)
    requires r.VoidSale? && Ledger.Next(st, r) != st
    ensures JobOf(st, r) == Some(Job.Void(SaleIdOf(st, r.clientId)))
  {
    Ledger.VoidSaleStep(st, r);
  }

  lemma VoidRuns(st: State, r: Request, txns: seq<Txn>, i: nat) returns (schedule: seq<Pick>)
    requires Ready(st, r, txns, i) && r.VoidSale?
    ensures Runs(st, r, txns, i, schedule)
  {
    VoidJob(st, r);
    VoidIs(st, r);
    schedule := RunsVoid(st, Ledger.Next(st, r), Ledger.Step(st, r).1.sale, txns, i);
  }

  lemma WriteRuns(st: State, r: Request, txns: seq<Txn>, i: nat) returns (schedule: seq<Pick>)
    requires Ready(st, r, txns, i) && (r.CompleteOrder? || r.SettleOrder? || r.EditOrderLine?)
    ensures Runs(st, r, txns, i, schedule)
  {
    if r.CompleteOrder? {
      CompleteIs(st, r);
    } else if r.SettleOrder? {
      SettleIs(st, r);
    } else {
      DiscardIs(st, r);
    }
    var k := Find(WithClientId(r.clientId), st.sales);
    schedule := RunsWrite(st, Ledger.Next(st, r), k, JobOf(st, r).value, txns, i);
  }

  lemma MovementJob(st: State, r: Request)
    requires (r.Record? || r.Amend?) && Ledger.Next(st, r) != st && Ledger.Step(st, r).1.MovementReply?
    ensures var m := Ledger.Step(st, r).1.movement;
      JobOf(st, r) == Some(if r.Record? then Job.Record(Amount(st, r, m.day))
                           else Job.Amend(m.day, Amount(st, r, m.day)))
  {
  }

  lemma MovementRuns(st: State, r: Request, txns: seq<Txn>, i: nat) returns (schedule: seq<Pick>)
    requires Ready(st, r, txns, i) && (r.Record? || r.Amend?)
    ensures Runs(st, r, txns, i, schedule)
  {
    if r.Record? {
      RecordIs(st, r);
    } else {
      AmendIs(st, r);
    }
    MovementJob(st, r);
    var m := Ledger.Step(st, r).1.movement;
    schedule := RunsMove(st, Ledger.Next(st, r), m, Amount(st, r, m.day), JobOf(st, r).value, txns, i);
  }

  lemma HasJob(st: State, r: Request)
    requires JobOf(st, r).Some?
    ensures Ledger.Next(st, r) != st && !r.RenameOrder? && !r.AddOrderLine?
    ensures r.EditOrderLine? ==> Ledger.Step(st, r).1.OrderDiscarded?
  {
  }

  /** Alone, the transaction of an accepted request does to the tables what the request does. */
  lemma RequestRunsAlone(st: State, r: Request, txns: seq<Txn>, i: nat) returns (schedule: seq<Pick>)
    requires Ready(st, r, txns, i)
    ensures Runs(st, r, txns, i, schedule)
  {
    HasJob(st, r);
    if r.CreateOrder? {
      schedule := CreateRuns(st, r, txns, i);
    } else if r.VoidSale? {
      schedule := VoidRuns(st, r, txns, i);
    } else if r.Record? || r.Amend? {
      schedule := MovementRuns(st, r, txns, i);
    } else if r.Open? {
      schedule := RunsOpen(st, r, txns, i);
    } else if r.Close? {
      schedule := RunsClose(st, r, txns, i);
    } else {
      schedule := WriteRuns(st, r, txns, i);
    }
  }

  lemma HasNoJob(st: State, r: Request)
    requires JobOf(st, r).None? && Ledger.Next(st, r) != st
    ensures r.RenameOrder? || r.AddOrderLine? || r.EditOrderLine? || r.Record? || r.Amend?
    ensures r.EditOrderLine? ==> !Ledger.Step(st, r).1.OrderDiscarded?
    ensures r.Record? || r.Amend? ==> !Ledger.Step(st, r).1.MovementReply?
  {
  }

  lemma NoJobIs(st: State, r: Request)
    requires Ledger.Inv(st) && JobOf(st, r).None? && Ledger.Next(st, r) != st
    ensures System(Ledger.Next(st, r), []) == System(st, [])
  {
    HasNoJob(st, r);
    if r.Record? {
      RecordedIs(st, r);
    } else if r.Amend? {
      AmendedIs(st, r);
    } else {
      EditIs(st, r);
      ContentIs(st, r);
    }
  }
}
