/** Completing an order reads that its day is open without locking the day, and a closing queries
    the figures of its day one after the other: exactly when a closing misses a completion. */
module Races {
  import opened Tables
  import opened Locking
  import opened Interleavings
  import opened Progress

  // ----- totals over the rows

  lemma {:induction false} TotalDrop(f: Row -> int, rows: map<SaleId, Row>, o: SaleId)
    requires o in rows
    ensures Total(f, rows - {o}) == Total(f, rows) - f(rows[o])
    decreases |rows|
  {
    var p := AnyId(rows);
    if p != o {
      var rest := rows - {o};
      TotalDrop(f, rows - {p}, o);
      TotalDrop(f, rest, p);
      assert rest - {p} == rows - {p} - {o};
    }
  }

  lemma TotalInsert(f: Row -> int, rows: map<SaleId, Row>, o: SaleId, row: Row)
    requires o !in rows
    ensures Total(f, rows[o := row]) == Total(f, rows) + f(row)
  {
    TotalDrop(f, rows[o := row], o);
    assert rows[o := row] - {o} == rows;
  }

  lemma TotalReplace(f: Row -> int, rows: map<SaleId, Row>, o: SaleId, row: Row)
    requires o in rows
    ensures Total(f, rows[o := row]) == Total(f, rows) - f(rows[o]) + f(row)
  {
    TotalDrop(f, rows, o);
    TotalDrop(f, rows[o := row], o);
    assert rows[o := row] - {o} == rows - {o};
  }

  // ----- how a step moves a closed day

  predicate IsClosed(s: Sys, d: DayId)
  {
    d in s.days && !s.days[d].isOpen
  }

  /** What the next step of a transaction adds to a measure of the rows. */
  function Added(f: Row -> int, s: Sys, t: Txn): int
  {
    if t.phase.Checked? && t.phase.order in s.rows then
      var row := s.rows[t.phase.order];
      match t.job
      case Complete(_, cash, tip, owed) =>
        f(row.(completed := true, cash := cash, tip := tip, owed := owed)) - f(row)
      case Settle(_) => f(row.(settled := true)) - f(row)
      case _ => 0
    else 0
  }

  /** A measure of the rows of one day that is nothing for a row without money. */
  ghost predicate OfDay(f: Row -> int, d: DayId)
  {
    && (forall r: Row | r.day != d :: f(r) == 0)
    && (forall r: Row | r.cash == r.tip == r.owed == 0 :: f(r) == 0)
  }

  lemma InsertAdds(f: Row -> int, s: Sys, original: Option<SaleId>, e: DayId, last: int, newId: nat, d: DayId)
    requires OfDay(f, d) && e != d
    ensures Total(f, InsertRow(s, original, e, last, newId).rows) == Total(f, s.rows)
  {
    var after := InsertRow(s, original, e, last, newId);
    if after.rows != s.rows {
      TotalInsert(f, s.rows, newId, after.rows[newId]);
    }
  }

  lemma WriteAdds(f: Row -> int, s: Sys, t: Txn, d: DayId)
    requires OfDay(f, d) && RowsSound(s) && TxnSound(s, t) && t.phase.Checked?
    ensures Total(f, WriteOrder(s, t.job, t.phase.order).rows) == Total(f, s.rows) + Added(f, s, t)
  {
    var o := t.phase.order;
    if t.job.Discard? {
      TotalDrop(f, s.rows, o);
    } else {
      TotalReplace(f, s.rows, o, WriteOrder(s, t.job, o).rows[o]);
    }
  }

  /** Only a completion or a settlement moves a measure of a closed day. */
  lemma ActAdds(f: Row -> int, s: Sys, i: nat, env: Env, d: DayId)
    requires OfDay(f, d) && Inv(s) && i < |s.txns| && Act(s, i, env).Some? && IsClosed(s, d)
    ensures Total(f, Act(s, i, env).value.rows) == Total(f, s.rows) + Added(f, s, s.txns[i])
  {
    assert TxnSound(s, s.txns[i]);
    match s.txns[i].phase
    case Numbered(original, e, last) => InsertAdds(f, s, original, e, last, env.newId, d);
    case Checked(_) => WriteAdds(f, s, s.txns[i], d);
    case Start => StartGoes(s, i, env);
    case HoldSale(o) => if s.rows[o].corrects.None? { UnderSaleLockGoes(s, i, o, env); }
    case _ =>
  }

  lemma ClosedStays(s: Sys, i: nat, env: Env, d: DayId)
    requires Inv(s) && i < |s.txns| && Act(s, i, env).Some? && IsClosed(s, d)
    ensures var t := Act(s, i, env).value; d in t.days && t.days[d] == s.days[d]
  {
    assert TxnSound(s, s.txns[i]);
    match s.txns[i].phase
    case Start => StartGoes(s, i, env);
    case HoldSale(o) => if s.rows[o].corrects.None? { UnderSaleLockGoes(s, i, o, env); }
    case _ =>
  }

  // ----- what is still on its way

  /** A completion that has read "the day is open" and will still bring money into it. */
  predicate BringsMoney(s: Sys, t: Txn, d: DayId)
  {
    && t.phase.Checked? && t.job.Complete?
    && t.phase.order in s.rows && s.rows[t.phase.order].day == d
    && t.job.cash + t.job.tip + t.job.owed != 0
  }

  predicate MoneyPending(s: Sys, d: DayId)
  {
    exists i | 0 <= i < |s.txns| :: BringsMoney(s, s.txns[i], d)
  }

  predicate Withheld(s: Sys, o: SaleId, d: DayId)
  {
    && o in s.rows && s.rows[o].day == d && s.rows[o].corrects.None?
    && s.rows[o].completed && s.rows[o].owed > 0 && !s.rows[o].settled
  }

  /** A settlement that is not done yet, of change still withheld. */
  predicate Settles(s: Sys, t: Txn, d: DayId)
  {
    t.job.Settle? && !t.phase.Finished? && Withheld(s, t.job.order, d)
  }

  predicate SettlementPending(s: Sys, d: DayId)
  {
    exists i | 0 <= i < |s.txns| :: Settles(s, s.txns[i], d)
  }

  /** Everything the sales of a day put into its drawer, change paid out since or not. */
  function TakenOn(d: DayId): Row -> int
  {
    (r: Row) => if r.day == d then r.cash + r.tip + r.owed else 0
  }

  ghost function Taken(s: Sys, d: DayId): int
  {
    Total(TakenOn(d), s.rows)
  }

  lemma TakenMoves(s: Sys, i: nat, env: Env, d: DayId)
    requires Inv(s) && i < |s.txns| && Act(s, i, env).Some? && IsClosed(s, d)
    ensures Taken(Act(s, i, env).value, d)
      == Taken(s, d) + if BringsMoney(s, s.txns[i], d)
                       then s.txns[i].job.cash + s.txns[i].job.tip + s.txns[i].job.owed else 0
  {
    assert TxnSound(s, s.txns[i]);
    ActAdds(TakenOn(d), s, i, env, d);
  }

  /** What the next step of a transaction does to the expected cash of a closed day. */
  function Moved(s: Sys, t: Txn, d: DayId): int
  {
    if BringsMoney(s, t, d) then t.job.cash + t.job.tip + t.job.owed
    else if t.phase.Checked? && Settles(s, t, d) then -s.rows[t.job.order].owed
    else 0
  }

  lemma ExpectedMoves(s: Sys, i: nat, env: Env, d: DayId)
    requires Inv(s) && i < |s.txns| && Act(s, i, env).Some? && IsClosed(s, d)
    ensures Expected(Act(s, i, env).value, d) == Expected(s, d) + Moved(s, s.txns[i], d)
  {
    ClosedStays(s, i, env, d);
    ActAdds(CashOn(d), s, i, env, d);
    ActAdds(TipsAndChangeOn(d), s, i, env, d);
    AddedIsMoved(s, s.txns[i], d);
  }

  lemma AddedIsMoved(s: Sys, t: Txn, d: DayId)
    requires RowsSound(s) && TxnSound(s, t)
    ensures Added(CashOn(d), s, t) + Added(TipsAndChangeOn(d), s, t) == Moved(s, t, d)
  {
  }

  // ----- nothing arrives any more

  lemma RowsKept(s: Sys, i: nat, env: Env)
    requires Inv(s) && i < |s.txns| && Act(s, i, env).Some?
    ensures var t := Act(s, i, env).value;
      forall o | o in s.rows && o in t.rows ::
        t.rows[o].day == s.rows[o].day && t.rows[o].corrects == s.rows[o].corrects
        && (s.rows[o].completed ==>
              t.rows[o].completed && t.rows[o].owed == s.rows[o].owed
              && (s.rows[o].settled ==> t.rows[o].settled))
  {
    assert TxnSound(s, s.txns[i]);
    match s.txns[i].phase
    case Start => StartGoes(s, i, env);
    case HoldSale(o) => if s.rows[o].corrects.None? { UnderSaleLockGoes(s, i, o, env); }
    case _ =>
  }

  /** A completion gets past its checks only while its day is open. */
  lemma CheckedWhileOpen(s: Sys, i: nat, env: Env)
    requires i < |s.txns| && Act(s, i, env).Some?
    requires s.txns[i].job.Complete?
    requires i < |Act(s, i, env).value.txns| && Act(s, i, env).value.txns[i].phase.Checked?
    ensures var o := Act(s, i, env).value.txns[i].phase.order;
      o in s.rows && IsOpenDay(s.days, s.rows[o].day) && Act(s, i, env).value.rows == s.rows
  {
  }

  lemma NoneArrives(s: Sys, i: nat, env: Env, d: DayId)
    requires Inv(s) && i < |s.txns| && Act(s, i, env).Some? && IsClosed(s, d)
    requires !MoneyPending(s, d)
    ensures !MoneyPending(Act(s, i, env).value, d)
  {
    var t := Act(s, i, env).value;
    ActMovesOne(s, i, env);
    RowsKept(s, i, env);
    if t.txns[i].phase.Checked? && s.txns[i].job.Complete? {
      CheckedWhileOpen(s, i, env);
    }
    forall j | 0 <= j < |t.txns|
      ensures !BringsMoney(t, t.txns[j], d)
    {
      assert !BringsMoney(s, s.txns[j], d);
      assert TxnSound(s, s.txns[j]);
    }
  }

  /** What is due to a closed day stays withheld until a settlement pays it out. */
  lemma NothingNewIsWithheld(s: Sys, i: nat, env: Env, d: DayId, o: SaleId)
    requires Inv(s) && i < |s.txns| && Act(s, i, env).Some? && IsClosed(s, d)
    requires !MoneyPending(s, d) && Withheld(Act(s, i, env).value, o, d)
    ensures Withheld(s, o, d)
  {
    assert TxnSound(s, s.txns[i]);
    assert !BringsMoney(s, s.txns[i], d);
    match s.txns[i].phase
    case Start => StartGoes(s, i, env);
    case HoldSale(p) => if s.rows[p].corrects.None? { UnderSaleLockGoes(s, i, p, env); }
    case _ =>
  }

  lemma NoSettlementArrives(s: Sys, i: nat, env: Env, d: DayId)
    requires Inv(s) && i < |s.txns| && Act(s, i, env).Some? && IsClosed(s, d)
    requires !MoneyPending(s, d) && !SettlementPending(s, d)
    ensures !SettlementPending(Act(s, i, env).value, d)
  {
    var t := Act(s, i, env).value;
    ActMovesOne(s, i, env);
    forall j | 0 <= j < |t.txns|
      ensures !Settles(t, t.txns[j], d)
    {
      assert !Settles(s, s.txns[j], d);
      if Settles(t, t.txns[j], d) {
        NothingNewIsWithheld(s, i, env, d, t.txns[j].job.order);
      }
    }
  }

  /** A closed day that no completion is on its way to keeps what it took. */
  lemma {:induction false} TakenStays(s: Sys, schedule: seq<Pick>, d: DayId)
    requires Inv(s) && IsClosed(s, d) && !MoneyPending(s, d)
    ensures Taken(Run(s, schedule), d) == Taken(s, d)
    decreases |schedule|
  {
    if schedule != [] {
      var p := schedule[0];
      if p.txn < |s.txns| && Act(s, p.txn, p.env).Some? {
        assert !BringsMoney(s, s.txns[p.txn], d);
        TakenMoves(s, p.txn, p.env, d);
        ClosedStays(s, p.txn, p.env, d);
        NoneArrives(s, p.txn, p.env, d);
        ActKeepsInv(s, p.txn, p.env);
      }
      TakenStays(Next(s, p), schedule[1..], d);
    }
  }

  predicate Quiet(s: Sys, d: DayId)
  {
    IsClosed(s, d) && !MoneyPending(s, d) && !SettlementPending(s, d)
  }

  lemma {:induction false} QuietStays(s: Sys, schedule: seq<Pick>, d: DayId)
    requires Inv(s) && Quiet(s, d)
    ensures d in Run(s, schedule).days && Run(s, schedule).days[d] == s.days[d]
    ensures Expected(Run(s, schedule), d) == Expected(s, d)
    decreases |schedule|
  {
    if schedule != [] {
      var p := schedule[0];
      if p.txn < |s.txns| && Act(s, p.txn, p.env).Some? {
        assert !BringsMoney(s, s.txns[p.txn], d) && !Settles(s, s.txns[p.txn], d);
        ExpectedMoves(s, p.txn, p.env, d);
        ClosedStays(s, p.txn, p.env, d);
        NoneArrives(s, p.txn, p.env, d);
        NoSettlementArrives(s, p.txn, p.env, d);
        ActKeepsInv(s, p.txn, p.env);
      }
      QuietStays(Next(s, p), schedule[1..], d);
    }
  }

  lemma {:induction false} ClosedForGood(s: Sys, schedule: seq<Pick>, d: DayId)
    requires Inv(s) && IsClosed(s, d)
    ensures d in Run(s, schedule).days && Run(s, schedule).days[d] == s.days[d]
    decreases |schedule|
  {
    if schedule != [] {
      var p := schedule[0];
      if p.txn < |s.txns| && Act(s, p.txn, p.env).Some? {
        ClosedStays(s, p.txn, p.env, d);
        ActKeepsInv(s, p.txn, p.env);
      }
      ClosedForGood(Next(s, p), schedule[1..], d);
    }
  }

  // ----- what is on its way arrives

  lemma OnePick(s: Sys, p: Pick)
    ensures Run(s, [p]) == Next(s, p)
  {
    assert Run(Next(s, p), []) == Next(s, p);
    assert [p][1..] == [];
  }

  lemma PendingMoneyLands(s: Sys, d: DayId) returns (schedule: seq<Pick>)
    requires Inv(s) && IsClosed(s, d) && MoneyPending(s, d)
    ensures Taken(Run(s, schedule), d) != Taken(s, d)
    ensures Expected(Run(s, schedule), d) != Expected(s, d)
  {
    var i: nat :| i < |s.txns| && BringsMoney(s, s.txns[i], d);
    var p := Pick(i, Env(0, 0, 0));
    schedule := [p];
    TakenMoves(s, i, p.env, d);
    ExpectedMoves(s, i, p.env, d);
    OnePick(s, p);
  }

  /** Until its settlement is done, a completed order stays and its change withheld. */
  predicate Awaiting(s: Sys, i: nat, o: SaleId, d: DayId)
  {
    && i < |s.txns| && s.txns[i].job == Settle(o)
    && o in s.rows && s.rows[o].completed && s.rows[o].corrects.None? && s.rows[o].day == d
    && s.rows[o].owed > 0 && (s.txns[i].phase.Finished? ==> s.rows[o].settled)
  }

  lemma CompletedRowsStay(s: Sys, j: nat, env: Env, o: SaleId)
    requires Inv(s) && j < |s.txns| && Act(s, j, env).Some?
    requires o in s.rows && s.rows[o].completed
    ensures o in Act(s, j, env).value.rows
  {
    assert TxnSound(s, s.txns[j]);
    match s.txns[j].phase
    case Start => StartGoes(s, j, env);
    case HoldSale(p) => if s.rows[p].corrects.None? { UnderSaleLockGoes(s, j, p, env); }
    case _ =>
  }

  lemma SettleFinishes(s: Sys, i: nat, env: Env, o: SaleId, d: DayId)
    requires Inv(s) && Awaiting(s, i, o, d) && Act(s, i, env).Some?
    requires Act(s, i, env).value.txns[i].phase.Finished?
    ensures o in Act(s, i, env).value.rows && Act(s, i, env).value.rows[o].settled
  {
    assert TxnSound(s, s.txns[i]);
  }

  lemma AwaitingStays(s: Sys, j: nat, env: Env, i: nat, o: SaleId, d: DayId)
    requires Inv(s) && Awaiting(s, i, o, d) && j < |s.txns| && Act(s, j, env).Some?
    ensures Awaiting(Act(s, j, env).value, i, o, d)
  {
    ActMovesOne(s, j, env);
    RowsKept(s, j, env);
    CompletedRowsStay(s, j, env, o);
    if j == i && Act(s, i, env).value.txns[i].phase.Finished? {
      SettleFinishes(s, i, env, o, d);
    }
  }

  lemma {:induction false} AwaitedIsSettled(s: Sys, schedule: seq<Pick>, i: nat, o: SaleId, d: DayId)
    requires Inv(s) && Awaiting(s, i, o, d)
    ensures Awaiting(Run(s, schedule), i, o, d)
    decreases |schedule|
  {
    if schedule != [] {
      var p := schedule[0];
      if p.txn < |s.txns| && Act(s, p.txn, p.env).Some? {
        AwaitingStays(s, p.txn, p.env, i, o, d);
        ActKeepsInv(s, p.txn, p.env);
      }
      AwaitedIsSettled(Next(s, p), schedule[1..], i, o, d);
    }
  }

  /** A step that leaves the expected cash alone settles nothing. */
  lemma StillWithheld(s: Sys, i: nat, env: Env, o: SaleId, d: DayId)
    requires Inv(s) && IsClosed(s, d) && Withheld(s, o, d) && i < |s.txns| && Act(s, i, env).Some?
    requires Expected(Act(s, i, env).value, d) == Expected(s, d)
    ensures Withheld(Act(s, i, env).value, o, d)
  {
    ExpectedMoves(s, i, env, d);
    RowsKept(s, i, env);
    CompletedRowsStay(s, i, env, o);
    assert TxnSound(s, s.txns[i]);
    NoSettleNoChange(s, i, env, o);
  }

  lemma NoSettleNoChange(s: Sys, i: nat, env: Env, o: SaleId)
    requires Inv(s) && i < |s.txns| && Act(s, i, env).Some?
    requires o in s.rows && s.rows[o].completed && !s.rows[o].settled
    requires !(s.txns[i].phase == Checked(o) && s.txns[i].job.Settle?)
    ensures o in Act(s, i, env).value.rows && !Act(s, i, env).value.rows[o].settled
  {
    assert TxnSound(s, s.txns[i]);
    match s.txns[i].phase
    case Start => StartGoes(s, i, env);
    case HoldSale(p) => if s.rows[p].corrects.None? { UnderSaleLockGoes(s, i, p, env); }
    case _ =>
  }

  /** If withheld change is settled along a schedule, the expected cash moved on the way. */
  lemma {:induction false} SettlingShows(s: Sys, schedule: seq<Pick>, o: SaleId, d: DayId)
      returns (prefix: seq<Pick>)
    requires Inv(s) && IsClosed(s, d) && Withheld(s, o, d)
    requires !Withheld(Run(s, schedule), o, d)
    ensures Expected(Run(s, prefix), d) != Expected(s, d)
    decreases |schedule|
  {
    var p := schedule[0];
    if Expected(Next(s, p), d) != Expected(s, d) {
      prefix := [p];
      OnePick(s, p);
    } else {
      if p.txn < |s.txns| && Act(s, p.txn, p.env).Some? {
        StillWithheld(s, p.txn, p.env, o, d);
        ClosedStays(s, p.txn, p.env, d);
        ActKeepsInv(s, p.txn, p.env);
      }
      var rest := SettlingShows(Next(s, p), schedule[1..], o, d);
      prefix := [p] + rest;
      RunOne(s, p, rest);
    }
  }

  lemma PendingSettlementLands(s: Sys, d: DayId) returns (schedule: seq<Pick>)
    requires Inv(s) && IsClosed(s, d) && SettlementPending(s, d)
    ensures Expected(Run(s, schedule), d) != Expected(s, d)
  {
    var i: nat :| i < |s.txns| && Settles(s, s.txns[i], d);
    var o := s.txns[i].job.order;
    var all := Completion(s);
    AwaitedIsSettled(s, all, i, o, d);
    schedule := SettlingShows(s, all, o, d);
  }

  // ----- exactly when a closed day is frozen

  /** What a closed day took is fixed under every continuation if and only if no completion that read
      it as open is still on its way with money. */
  lemma ClosedDayIsFrozenIff(s: Sys, schedule: seq<Pick>, d: DayId)
    requires Init(s) && IsClosed(Run(s, schedule), d)
    ensures var t := Run(s, schedule);
      (forall rest :: Taken(Run(t, rest), d) == Taken(t, d)) <==> !MoneyPending(t, d)
  {
    InitInv(s);
    RunKeepsInv(s, schedule);
    var t := Run(s, schedule);
    if MoneyPending(t, d) {
      var rest := PendingMoneyLands(t, d);
    } else {
      forall rest
        ensures Taken(Run(t, rest), d) == Taken(t, d)
      {
        TakenStays(t, rest, d);
      }
    }
  }

  lemma UnquietMoves(s: Sys, d: DayId) returns (rest: seq<Pick>)
    requires Inv(s) && IsClosed(s, d) && !Quiet(s, d)
    ensures Expected(Run(s, rest), d) != Expected(s, d)
  {
    if MoneyPending(s, d) {
      rest := PendingMoneyLands(s, d);
    } else {
      rest := PendingSettlementLands(s, d);
    }
  }

  /** Its expected cash is fixed if and only if, besides, nobody is settling change it withholds. */
  lemma ExpectedCashIsFrozenIff(s: Sys, schedule: seq<Pick>, d: DayId)
    requires Init(s) && IsClosed(Run(s, schedule), d)
    ensures var t := Run(s, schedule);
      (forall rest :: Expected(Run(t, rest), d) == Expected(t, d))
      <==> !MoneyPending(t, d) && !SettlementPending(t, d)
  {
    InitInv(s);
    RunKeepsInv(s, schedule);
    var t := Run(s, schedule);
    if Quiet(t, d) {
      forall rest
        ensures Expected(Run(t, rest), d) == Expected(t, d)
      {
        QuietStays(t, rest, d);
      }
    } else {
      var rest := UnquietMoves(t, d);
    }
  }

  /** What the closing of a day stored still is its expected cash. */
  ghost predicate SnapshotAgrees(s: Sys, d: DayId)
  {
    d in s.days && s.days[d].snapshot == Some(Expected(s, d))
  }

  /** The stored closing agrees with its day for good if and only if it does now, no completion that
      read the day as open is on its way with money, and nobody is settling change it withholds. */
  lemma ClosingAgreesForeverIff(s: Sys, schedule: seq<Pick>, d: DayId)
    requires Init(s) && IsClosed(Run(s, schedule), d)
    ensures var t := Run(s, schedule);
      (forall rest :: SnapshotAgrees(Run(t, rest), d))
      <==> SnapshotAgrees(t, d) && !MoneyPending(t, d) && !SettlementPending(t, d)
  {
    InitInv(s);
    RunKeepsInv(s, schedule);
    var t := Run(s, schedule);
    assert Run(t, []) == t;
    if !SnapshotAgrees(t, d) {
      assert !SnapshotAgrees(Run(t, []), d);
    } else if Quiet(t, d) {
      forall rest
        ensures SnapshotAgrees(Run(t, rest), d)
      {
        QuietStays(t, rest, d);
      }
    } else {
      var rest := UnquietMoves(t, d);
      ClosedForGood(t, rest, d);
      assert !SnapshotAgrees(Run(t, rest), d);
    }
  }

  lemma RunOne(s: Sys, p: Pick, rest: seq<Pick>)
    ensures Run(s, [p] + rest) == Run(Next(s, p), rest)
  {
    assert ([p] + rest)[1..] == rest;
  }

  // ----- a closing that nobody disturbs, and two that a completion overtakes

  lemma TwoPicks(s: Sys, p: Pick, q: Pick)
    ensures Run(s, [p, q]) == Next(Next(s, p), q)
  {
    OnePick(Next(s, p), q);
    assert [p, q][1..] == [q];
  }

  lemma CloseLocks(s: Sys, c: nat, d: DayId) returns (schedule: seq<Pick>)
    requires c < |s.txns| && s.txns[c] == Txn(Close, Start)
    requires IsOpenDay(s.days, d) && !DayLocked(s, d)
    ensures Run(s, schedule) == Goto(s, c, HoldDay(None, d))
    ensures OnlyOf(schedule, c)
  {
    var p := Pick(c, Env(d, 0, 0));
    var s1 := Goto(s, c, WaitDay(None, d));
    assert Next(s, p) == s1;
    assert !DayLocked(s1, d) by {
      forall j | 0 <= j < |s1.txns|
        ensures !HoldsDay(s1.txns[j], d)
      {
        assert !HoldsDay(s.txns[j], d);
      }
    }
    assert Next(s1, p) == Goto(s, c, HoldDay(None, d));
    schedule := [p, p];
    TwoPicks(s, p, p);
  }

  lemma CloseQueriesPayments(s: Sys, c: nat, d: DayId) returns (schedule: seq<Pick>)
    requires c < |s.txns| && s.txns[c] == Txn(Close, Start)
    requires IsOpenDay(s.days, d) && !DayLocked(s, d)
    ensures Run(s, schedule) == Goto(s, c, Cashed(d, Total(CashOn(d), s.rows)))
    ensures OnlyOf(schedule, c)
  {
    var locking := CloseLocks(s, c, d);
    var s2 := Goto(s, c, HoldDay(None, d));
    var p := Pick(c, Env(d, 0, 0));
    assert Next(s2, p) == Goto(s, c, Cashed(d, Total(CashOn(d), s.rows)));
    schedule := locking + [p];
    OnePick(s2, p);
    RunInTwo(s, locking, [p]);
  }

  lemma CloseCommits(s: Sys, c: nat, d: DayId, cash: int) returns (schedule: seq<Pick>)
    requires c < |s.txns| && s.txns[c] == Txn(Close, Cashed(d, cash)) && d in s.days
    ensures Run(s, schedule) == Goto(CloseWith(s, d, cash + Total(TipsAndChangeOn(d), s.rows)), c, Finished)
    ensures OnlyOf(schedule, c)
  {
    var p := Pick(c, Env(d, 0, 0));
    schedule := [p, p];
    var s1 := Goto(s, c, Counted(d, cash + Total(TipsAndChangeOn(d), s.rows)));
    assert Next(s, p) == s1;
    TwoPicks(s, p, p);
  }

  lemma GotoAgain(s: Sys, i: nat, first: Phase, second: Phase)
    requires i < |s.txns|
    ensures Goto(Goto(s, i, first), i, second) == Goto(s, i, second)
  {
  }

  lemma CloseAfterGoto(s: Sys, c: nat, phase: Phase, d: DayId, total: int)
    requires c < |s.txns|
    ensures Goto(CloseWith(Goto(s, c, phase), d, total), c, Finished) == Goto(CloseWith(s, d, total), c, Finished)
  {
    GotoAgain(CloseWith(s, d, total), c, phase, Finished);
  }

  /** The tables after a closing that nobody disturbed. */
  ghost function ClosedAlone(s: Sys, c: nat, d: DayId): Sys
    requires c < |s.txns| && d in s.days
  {
    Goto(s.(days := s.days[d := s.days[d].(isOpen := false, snapshot := Some(Expected(s, d)))]), c, Finished)
  }

  lemma CloseFromQueries(s: Sys, queried: Sys, c: nat, d: DayId) returns (commits: seq<Pick>)
    requires c < |s.txns| && d in s.days && s.txns[c].job == Close
    requires queried == Goto(s, c, Cashed(d, Total(CashOn(d), s.rows)))
    ensures Run(queried, commits) == ClosedAlone(s, c, d)
    ensures OnlyOf(commits, c)
  {
    var cash := Total(CashOn(d), s.rows);
    commits := CloseCommits(queried, c, d, cash);
    CloseAfterGoto(s, c, Cashed(d, cash), d, cash + Total(TipsAndChangeOn(d), s.rows));
  }

  /** A closing that runs from start to end while nobody holds the lock of its day stores the expected
      cash. */
  lemma CloseAlone(s: Sys, c: nat, d: DayId) returns (schedule: seq<Pick>)
    requires c < |s.txns| && s.txns[c] == Txn(Close, Start)
    requires IsOpenDay(s.days, d) && !DayLocked(s, d)
    ensures Run(s, schedule) == ClosedAlone(s, c, d)
    ensures OnlyOf(schedule, c)
  {
    var queries := CloseQueriesPayments(s, c, d);
    var commits := CloseFromQueries(s, Run(s, queries), c, d);
    schedule := queries + commits;
    RunInTwo(s, queries, commits);
  }

  const PARKED_ORDER := Row(0, 1, None, false, 0, 0, 0, false)

  const PAID_ORDER := Row(0, 1, None, true, 500, 20, 0, false)

  /** One parked order, completed with five pesos in cash and a tip of twenty cents while its day is
      being closed. */
  const COMPLETE_AND_CLOSE := Sys(
    map[0 := PARKED_ORDER],
    map[0 := DayRow(0, true, 0, 0, None)],
    [Txn(Complete(0, 500, 20, 0), Start), Txn(Close, Start)])

  const ANSWER := Env(0, 0, 0)

  lemma CompletionGetsPastItsChecks() returns (checks: seq<Pick>)
    ensures Run(COMPLETE_AND_CLOSE, checks) == Goto(COMPLETE_AND_CLOSE, 0, Checked(0))
  {
    var s := COMPLETE_AND_CLOSE;
    var p := Pick(0, ANSWER);
    checks := [p] + [p, p];
    var s1 := Goto(s, 0, WaitSale(0));
    var s2 := Goto(s1, 0, HoldSale(0));
    assert Next(s, p) == s1 && Next(s1, p) == s2 && Next(s2, p) == Goto(s, 0, Checked(0));
    RunOne(s, p, [p, p]);
    TwoPicks(s1, p, p);
  }

  lemma OneRowTotal(f: Row -> int, row: Row)
    ensures Total(f, map[0 := row]) == f(row)
  {
    TotalInsert(f, map[], 0, row);
    assert map[][0 := row] == map[0 := row];
  }

  /** The completion commits. */
  lemma CompletionLands(s: Sys)
    requires s.rows == map[0 := PARKED_ORDER] && 0 in s.days && s.days[0].float == s.days[0].moves == 0
    requires 0 < |s.txns| && s.txns[0] == Txn(Complete(0, 500, 20, 0), Checked(0))
    ensures Run(s, [Pick(0, ANSWER)]) == Goto(s.(rows := map[0 := PAID_ORDER]), 0, Finished)
    ensures Expected(Run(s, [Pick(0, ANSWER)]), 0) == 520
  {
    var t := Goto(s.(rows := map[0 := PAID_ORDER]), 0, Finished);
    assert s.rows[0 := PAID_ORDER] == t.rows;
    OnePick(s, Pick(0, ANSWER));
    OneRowTotal(CashOn(0), PAID_ORDER);
    OneRowTotal(TipsAndChangeOn(0), PAID_ORDER);
  }

  lemma Unlocked(s: Sys)
    requires s == Goto(COMPLETE_AND_CLOSE, 0, Checked(0))
    ensures IsOpenDay(s.days, 0) && !DayLocked(s, 0) && Init(COMPLETE_AND_CLOSE)
    ensures Total(CashOn(0), s.rows) == 0 && Total(TipsAndChangeOn(0), s.rows) == 0
  {
    OneRowTotal(CashOn(0), PARKED_ORDER);
    OneRowTotal(TipsAndChangeOn(0), PARKED_ORDER);
  }

  /** The closing stores nothing, and five pesos and the tip arrive after it. */
  lemma CloseCanMissACompletion()
    ensures Init(COMPLETE_AND_CLOSE)
    ensures exists schedule :: var t := Run(COMPLETE_AND_CLOSE, schedule);
      IsClosed(t, 0) && t.days[0].snapshot == Some(0) && Expected(t, 0) == 520
  {
    var checks := CompletionGetsPastItsChecks();
    var s := Run(COMPLETE_AND_CLOSE, checks);
    Unlocked(s);
    var closing := CloseAlone(s, 1, 0);
    CompletionLands(Run(s, closing));
    RunInTwo(COMPLETE_AND_CLOSE, checks, closing);
    RunInTwo(COMPLETE_AND_CLOSE, checks + closing, [Pick(0, ANSWER)]);
  }

  lemma TipIsStored(s: Sys) returns (commits: seq<Pick>)
    requires 1 < |s.txns| && s.txns[1] == Txn(Close, Cashed(0, 0)) && s.rows == map[0 := PAID_ORDER]
    requires 0 in s.days && s.days[0].float == s.days[0].moves == 0
    ensures Run(s, commits) == Goto(CloseWith(s, 0, 20), 1, Finished)
    ensures Expected(Run(s, commits), 0) == Expected(s, 0)
  {
    OneRowTotal(TipsAndChangeOn(0), PAID_ORDER);
    commits := CloseCommits(s, 1, 0, 0);
  }

  lemma SplitWhileClosing(s: Sys) returns (schedule: seq<Pick>)
    requires s == Goto(COMPLETE_AND_CLOSE, 0, Checked(0)) && !DayLocked(s, 0)
    requires Total(CashOn(0), s.rows) == 0
    ensures var t := Run(s, schedule);
      IsClosed(t, 0) && t.days[0].snapshot == Some(20) && Expected(t, 0) == 520
  {
    var queries := CloseQueriesPayments(s, 1, 0);
    var s1 := Run(s, queries);
    CompletionLands(s1);
    var commits := TipIsStored(Run(s1, [Pick(0, ANSWER)]));
    RunInTwo(s, queries, [Pick(0, ANSWER)]);
    RunInTwo(s, queries + [Pick(0, ANSWER)], commits);
    schedule := queries + [Pick(0, ANSWER)] + commits;
  }

  /** A completion between two queries of the closing: the tip is stored, the payment is not. */
  lemma CloseCanSplitACompletion()
    ensures exists schedule :: var t := Run(COMPLETE_AND_CLOSE, schedule);
      IsClosed(t, 0) && t.days[0].snapshot == Some(20) && Expected(t, 0) == 520
  {
    var checks := CompletionGetsPastItsChecks();
    var s := Run(COMPLETE_AND_CLOSE, checks);
    Unlocked(s);
    var split := SplitWhileClosing(s);
    RunInTwo(COMPLETE_AND_CLOSE, checks, split);
  }
}
