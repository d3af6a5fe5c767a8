/** What every interleaving of the concurrent protocol keeps. */
module Interleavings {
  import opened Tables
  import opened Locking

  // ----- the invariant

  /** A parked order holds no money yet, and no row owes less than nothing. */
  predicate MoneyOk(r: Row)
  {
    0 <= r.owed && (!r.completed ==> r.cash == r.tip == r.owed == 0 && !r.settled)
  }

  predicate NumbersUnique(rows: map<SaleId, Row>)
  {
    forall o, p | o in rows && p in rows && o != p && rows[o].day == rows[p].day ::
      rows[o].number != rows[p].number
  }

  predicate VoidsUnique(rows: map<SaleId, Row>)
  {
    forall v, w | v in rows && w in rows && v != w && rows[v].corrects.Some? ::
      rows[v].corrects != rows[w].corrects
  }

  predicate RowOk(r: Row, days: map<DayId, DayRow>)
  {
    1 <= r.number && r.day in days && MoneyOk(r)
  }

  predicate OneOpen(days: map<DayId, DayRow>)
  {
    forall d, e | d in days && e in days && d != e :: !(days[d].isOpen && days[e].isOpen)
  }

  predicate RowsSound(s: Sys)
  {
    && NumbersUnique(s.rows) && VoidsUnique(s.rows) && OneOpen(s.days)
    && forall o | o in s.rows :: RowOk(s.rows[o], s.days)
  }

  /** An original a void is working on: completed, and not voided by anyone. */
  predicate Voidable(s: Sys, o: SaleId)
  {
    o in s.rows && s.rows[o].completed && s.rows[o].corrects.None? && !HasVoid(s.rows, o)
  }

  predicate IsOrderJob(job: Job, o: SaleId)
  {
    || (job.Void? && job.original == o)
    || ((job.Complete? || job.Settle? || job.Discard?) && job.order == o)
  }

  predicate IsInsert(job: Job, original: Option<SaleId>)
  {
    if original.Some? then job == Void(original.value)
    else job.Create? || job.Record? || job.Amend? || job.Close?
  }

  /** What a transaction may rely on at each of its phases. */
  predicate TxnSound(s: Sys, t: Txn)
  {
    match t.phase
    case Start => true
    case WaitSale(o) => IsOrderJob(t.job, o)
    case HoldSale(o) => IsOrderJob(t.job, o) && o in s.rows
    case WaitDay(original, d) =>
      && IsInsert(t.job, original) && d in s.days && (original.Some? ==> Voidable(s, original.value))
      && (t.job.Amend? ==> t.job.day == d)
    case HoldDay(original, d) =>
      && IsInsert(t.job, original) && d in s.days && (original.Some? ==> Voidable(s, original.value))
      && (t.job.Amend? ==> t.job.day == d)
    case Numbered(original, d, last) =>
      && (original.Some? ==> t.job == Void(original.value) && Voidable(s, original.value))
      && (original.None? ==> t.job.Create?)
      && IsOpenDay(s.days, d) && 0 <= last
      && (forall o | o in s.rows && s.rows[o].day == d :: s.rows[o].number <= last)
    case Checked(o) =>
      && o in s.rows && s.rows[o].corrects.None?
      && (|| (t.job.Settle? && t.job.order == o
              && s.rows[o].completed && s.rows[o].owed > 0 && !s.rows[o].settled)
          || ((t.job.Complete? || t.job.Discard?) && t.job.order == o && !s.rows[o].completed))
    case Moving(d, amount) =>
      IsOpenDay(s.days, d) && (t.job == Record(amount) || t.job == Amend(d, amount))
    case Cashed(d, _) => IsOpenDay(s.days, d) && t.job.Close?
    case Counted(d, _) => IsOpenDay(s.days, d) && t.job.Close?
    case Dated(date) => t.job.Open? && t.job.date == date
    case Finished => true
  }

  /** Every row lock has at most one holder. */
  ghost predicate Exclusive(s: Sys)
  {
    && (forall i, j, o: SaleId | 0 <= i < j < |s.txns| ::
          !(HoldsSale(s.txns[i], o) && HoldsSale(s.txns[j], o)))
    && (forall i, j, d: DayId | 0 <= i < j < |s.txns| ::
          !(HoldsDay(s.txns[i], d) && HoldsDay(s.txns[j], d)))
  }

  ghost predicate Inv(s: Sys)
  {
    && RowsSound(s) && Exclusive(s)
    && forall i | 0 <= i < |s.txns| :: TxnSound(s, s.txns[i])
  }

  /** Any sound tables with any requests about to begin. */
  ghost predicate Init(s: Sys)
  {
    RowsSound(s) && forall i | 0 <= i < |s.txns| :: s.txns[i].phase.Start?
  }

  lemma InitInv(s: Sys)
    requires Init(s)
    ensures Inv(s)
  {
  }

  // ----- a step that writes nothing

  lemma GotoExclusive(s: Sys, i: nat, phase: Phase)
    requires Exclusive(s) && i < |s.txns|
    requires forall o: SaleId | HoldsSale(s.txns[i].(phase := phase), o) ::
      HoldsSale(s.txns[i], o) || !SaleLocked(s, o)
    requires forall d: DayId | HoldsDay(s.txns[i].(phase := phase), d) ::
      HoldsDay(s.txns[i], d) || !DayLocked(s, d)
    ensures Exclusive(Goto(s, i, phase))
  {
  }

  lemma GotoKeeps(s: Sys, i: nat, phase: Phase)
    requires Inv(s) && i < |s.txns|
    requires TxnSound(s, s.txns[i].(phase := phase))
    requires forall o: SaleId | HoldsSale(s.txns[i].(phase := phase), o) ::
      HoldsSale(s.txns[i], o) || !SaleLocked(s, o)
    requires forall d: DayId | HoldsDay(s.txns[i].(phase := phase), d) ::
      HoldsDay(s.txns[i], d) || !DayLocked(s, d)
    ensures Inv(Goto(s, i, phase))
  {
    var after := Goto(s, i, phase);
    GotoExclusive(s, i, phase);
    forall j | 0 <= j < |after.txns|
      ensures TxnSound(after, after.txns[j])
    {
      assert TxnSound(s, if j == i then s.txns[i].(phase := phase) else s.txns[j]);
    }
  }

  // ----- a step that writes

  /** What a commit of transaction `i` may do to what another transaction relies on. */
  lemma CommitKeeps(s: Sys, i: nat, rows: map<SaleId, Row>, days: map<DayId, DayRow>)
    requires Inv(s) && i < |s.txns|
    requires RowsSound(s.(rows := rows, days := days))
    requires forall j | 0 <= j < |s.txns| && j != i :: TxnSound(s.(rows := rows, days := days), s.txns[j])
    ensures Inv(Goto(s.(rows := rows, days := days), i, Finished))
  {
    var written := s.(rows := rows, days := days);
    var after := Goto(written, i, Finished);
    GotoExclusive(written, i, Finished);
    forall j | 0 <= j < |after.txns|
      ensures TxnSound(after, after.txns[j])
    {
      assert TxnSound(written, if j == i then s.txns[i].(phase := Finished) else s.txns[j]);
    }
  }

  lemma StartGoes(s: Sys, i: nat, env: Env)
    requires i < |s.txns| && s.txns[i].phase.Start? && FromStart(s, i, env).Some?
    ensures var next := FromStart(s, i, env).value.txns[i].phase;
      && FromStart(s, i, env).value == Goto(s, i, next)
      && (next.WaitSale? || (next.WaitDay? && next.original.None?) || next.Dated? || next.Finished?)
      && TxnSound(s, s.txns[i].(phase := next))
  {
  }

  lemma StartKeeps(s: Sys, i: nat, env: Env)
    requires Inv(s) && i < |s.txns| && s.txns[i].phase.Start? && FromStart(s, i, env).Some?
    ensures Inv(FromStart(s, i, env).value)
  {
    StartGoes(s, i, env);
    var next := FromStart(s, i, env).value.txns[i].phase;
    GotoKeeps(s, i, next);
  }

  lemma UnderSaleLockGoes(s: Sys, i: nat, o: SaleId, env: Env)
    requires i < |s.txns| && s.txns[i].phase == HoldSale(o) && TxnSound(s, s.txns[i])
    requires o in s.rows && s.rows[o].corrects.None? && UnderSaleLock(s, i, o, env).Some?
    ensures var next := UnderSaleLock(s, i, o, env).value.txns[i].phase;
      && UnderSaleLock(s, i, o, env).value == Goto(s, i, next)
      && (next.Finished? || next == Checked(o) || (next.WaitDay? && next.original == Some(o)))
      && TxnSound(s, s.txns[i].(phase := next))
  {
  }

  lemma UnderSaleLockKeeps(s: Sys, i: nat, o: SaleId, env: Env)
    requires Inv(s) && i < |s.txns| && s.txns[i].phase == HoldSale(o)
    requires o in s.rows && s.rows[o].corrects.None? && UnderSaleLock(s, i, o, env).Some?
    ensures Inv(UnderSaleLock(s, i, o, env).value)
  {
    assert TxnSound(s, s.txns[i]);
    UnderSaleLockGoes(s, i, o, env);
    GotoKeeps(s, i, UnderSaleLock(s, i, o, env).value.txns[i].phase);
  }

  lemma UnderDayLockKeeps(s: Sys, i: nat, original: Option<SaleId>, d: DayId, env: Env)
    requires Inv(s) && i < |s.txns| && s.txns[i].phase == HoldDay(original, d)
    requires UnderDayLock(s, i, original, d, env).Some?
    ensures Inv(UnderDayLock(s, i, original, d, env).value)
  {
    var next := UnderDayLock(s, i, original, d, env).value.txns[i].phase;
    assert TxnSound(s, s.txns[i]);
    GotoKeeps(s, i, next);
  }

  /** The unique index on day and number never refuses an insert. */
  lemma NumberIsFree(s: Sys, i: nat, original: Option<SaleId>, d: DayId, last: int)
    requires Inv(s) && i < |s.txns| && s.txns[i].phase == Numbered(original, d, last)
    ensures !NumberTaken(s.rows, d, last + 1)
  {
    assert TxnSound(s, s.txns[i]);
  }

  lemma InsertedRowsSound(s: Sys, original: Option<SaleId>, d: DayId, last: int, newId: nat)
    requires RowsSound(s) && d in s.days && 0 <= last
    requires original.Some? ==> Voidable(s, original.value)
    ensures RowsSound(InsertRow(s, original, d, last, newId))
  {
    var after := InsertRow(s, original, d, last, newId).rows;
    assert NumbersUnique(after) && VoidsUnique(after);
  }

  /** A new row of a day disturbs nobody who holds neither that day nor the original of the row. */
  lemma SoundAfterInsert(s: Sys, t: Txn, original: Option<SaleId>, d: DayId, last: int, newId: nat)
    requires TxnSound(s, t) && !HoldsDay(t, d) && (original.Some? ==> !HoldsSale(t, original.value))
    ensures TxnSound(InsertRow(s, original, d, last, newId), t)
  {
  }

  lemma InsertKeeps(s: Sys, i: nat, original: Option<SaleId>, d: DayId, last: int, newId: nat)
    requires Inv(s) && i < |s.txns| && s.txns[i].phase == Numbered(original, d, last)
    ensures Inv(Goto(InsertRow(s, original, d, last, newId), i, Finished))
  {
    assert TxnSound(s, s.txns[i]);
    var after := InsertRow(s, original, d, last, newId);
    InsertedRowsSound(s, original, d, last, newId);
    forall j | 0 <= j < |s.txns| && j != i
      ensures TxnSound(after, s.txns[j])
    {
      assert HoldsDay(s.txns[i], d) && !HoldsDay(s.txns[j], d);
      if original.Some? {
        assert HoldsSale(s.txns[i], original.value) && !HoldsSale(s.txns[j], original.value);
      }
      SoundAfterInsert(s, s.txns[j], original, d, last, newId);
    }
    CommitKeeps(s, i, after.rows, after.days);
  }

  lemma WrittenRowsSound(s: Sys, t: Txn, o: SaleId)
    requires RowsSound(s) && t.phase == Checked(o) && TxnSound(s, t)
    ensures RowsSound(WriteOrder(s, t.job, o))
  {
    var after := WriteOrder(s, t.job, o).rows;
    assert forall p | p in after ::
      p in s.rows && after[p].day == s.rows[p].day && after[p].number == s.rows[p].number
      && after[p].corrects == s.rows[p].corrects;
    assert NumbersUnique(after) && VoidsUnique(after);
  }

  /** Writing an order that nobody has completed or voided disturbs nobody who does not hold it. */
  lemma SoundAfterWrite(s: Sys, t: Txn, job: Job, o: SaleId)
    requires TxnSound(s, t) && !HoldsSale(t, o) && o in s.rows && s.rows[o].corrects.None?
    ensures TxnSound(WriteOrder(s, job, o), t)
  {
  }

  lemma WriteKeeps(s: Sys, i: nat, o: SaleId)
    requires Inv(s) && i < |s.txns| && s.txns[i].phase == Checked(o)
    ensures Inv(Goto(WriteOrder(s, s.txns[i].job, o), i, Finished))
  {
    assert TxnSound(s, s.txns[i]);
    var after := WriteOrder(s, s.txns[i].job, o);
    WrittenRowsSound(s, s.txns[i], o);
    forall j | 0 <= j < |s.txns| && j != i
      ensures TxnSound(after, s.txns[j])
    {
      assert HoldsSale(s.txns[i], o) && !HoldsSale(s.txns[j], o);
      SoundAfterWrite(s, s.txns[j], s.txns[i].job, o);
    }
    CommitKeeps(s, i, after.rows, after.days);
  }

  lemma DayWriteKeeps(s: Sys, i: nat, d: DayId, day: DayRow)
    requires Inv(s) && i < |s.txns| && HoldsDay(s.txns[i], d) && d in s.days
    requires s.days[d].isOpen
    ensures Inv(Goto(s.(days := s.days[d := day]), i, Finished))
  {
    var after := s.(days := s.days[d := day]);
    forall j | 0 <= j < |s.txns| && j != i
      ensures TxnSound(after, s.txns[j])
    {
      assert TxnSound(s, s.txns[j]);
      assert !HoldsDay(s.txns[j], d);
    }
    CommitKeeps(s, i, s.rows, after.days);
  }

  lemma OpenKeeps(s: Sys, i: nat, date: int, float: int, newId: nat)
    requires Inv(s) && i < |s.txns| && s.txns[i].phase == Dated(date)
    ensures Inv(Goto(InsertDay(s, date, float, newId), i, Finished))
  {
    var after := InsertDay(s, date, float, newId);
    forall j | 0 <= j < |s.txns| && j != i
      ensures TxnSound(after, s.txns[j])
    {
      assert TxnSound(s, s.txns[j]);
    }
    CommitKeeps(s, i, after.rows, after.days);
  }

  lemma WaitKeeps(s: Sys, i: nat, env: Env)
    requires Inv(s) && i < |s.txns| && Act(s, i, env).Some?
    requires s.txns[i].phase.WaitSale? || s.txns[i].phase.WaitDay?
    ensures Inv(Act(s, i, env).value)
  {
    assert TxnSound(s, s.txns[i]);
    match s.txns[i].phase
    case WaitSale(o) => GotoKeeps(s, i, if o in s.rows then HoldSale(o) else Finished);
    case WaitDay(original, d) => GotoKeeps(s, i, HoldDay(original, d));
  }

  lemma HoldKeeps(s: Sys, i: nat, env: Env)
    requires Inv(s) && i < |s.txns| && Act(s, i, env).Some?
    requires s.txns[i].phase.HoldSale? || s.txns[i].phase.HoldDay?
    ensures Inv(Act(s, i, env).value)
  {
    assert TxnSound(s, s.txns[i]);
    match s.txns[i].phase
    case HoldSale(o) =>
      if s.rows[o].corrects.None? { UnderSaleLockKeeps(s, i, o, env); } else { GotoKeeps(s, i, Finished); }
    case HoldDay(original, d) => UnderDayLockKeeps(s, i, original, d, env);
  }

  lemma CashedKeeps(s: Sys, i: nat, env: Env)
    requires Inv(s) && i < |s.txns| && s.txns[i].phase.Cashed?
    ensures Act(s, i, env).Some? && Inv(Act(s, i, env).value)
  {
    assert TxnSound(s, s.txns[i]);
    var d, cash := s.txns[i].phase.day, s.txns[i].phase.cash;
    GotoKeeps(s, i, Counted(d, cash + Total(TipsAndChangeOn(d), s.rows)));
  }

  lemma MoveKeeps(s: Sys, i: nat, d: DayId, amount: int)
    requires Inv(s) && i < |s.txns| && s.txns[i].phase == Moving(d, amount)
    ensures Inv(Goto(s.(days := Move(s.days, d, amount)), i, Finished))
  {
    assert TxnSound(s, s.txns[i]);
    DayWriteKeeps(s, i, d, Move(s.days, d, amount)[d]);
  }

  lemma CloseWithKeeps(s: Sys, i: nat, d: DayId, total: int)
    requires Inv(s) && i < |s.txns| && s.txns[i].phase == Counted(d, total)
    ensures Inv(Goto(CloseWith(s, d, total), i, Finished))
  {
    assert TxnSound(s, s.txns[i]);
    DayWriteKeeps(s, i, d, CloseWith(s, d, total).days[d]);
  }

  lemma ActKeepsInv(s: Sys, i: nat, env: Env)
    requires Inv(s) && i < |s.txns| && Act(s, i, env).Some?
    ensures Inv(Act(s, i, env).value)
  {
    var phase := s.txns[i].phase;
    if phase.Start? {
      StartKeeps(s, i, env);
    } else if phase.WaitSale? || phase.WaitDay? {
      WaitKeeps(s, i, env);
    } else if phase.HoldSale? || phase.HoldDay? {
      HoldKeeps(s, i, env);
    } else if phase.Numbered? {
      InsertKeeps(s, i, phase.original, phase.day, phase.last, env.newId);
    } else if phase.Checked? {
      WriteKeeps(s, i, phase.order);
    } else if phase.Dated? {
      assert TxnSound(s, s.txns[i]);
      OpenKeeps(s, i, phase.date, s.txns[i].job.float, env.newId);
    } else if phase.Moving? {
      MoveKeeps(s, i, phase.day, phase.amount);
    } else if phase.Cashed? {
      CashedKeeps(s, i, env);
    } else {
      CloseWithKeeps(s, i, phase.day, phase.total);
    }
  }

  lemma {:induction false} RunKeepsInv(s: Sys, schedule: seq<Pick>)
    requires Inv(s)
    ensures Inv(Run(s, schedule))
    decreases |schedule|
  {
    if schedule != [] {
      var p := schedule[0];
      if p.txn < |s.txns| && Act(s, p.txn, p.env).Some? {
        ActKeepsInv(s, p.txn, p.env);
      }
      RunKeepsInv(Next(s, p), schedule[1..]);
    }
  }

  /** Under every interleaving, no two sales of a day share an order number and no order is voided
      twice; at most one day is open. */
  lemma NumbersAndVoidsAreUnique(s: Sys, schedule: seq<Pick>)
    requires Init(s)
    ensures var t := Run(s, schedule);
      && (forall o, p | o in t.rows && p in t.rows && o != p && t.rows[o].day == t.rows[p].day ::
            t.rows[o].number != t.rows[p].number)
      && (forall v, w | v in t.rows && w in t.rows && v != w && t.rows[v].corrects.Some? ::
            t.rows[v].corrects != t.rows[w].corrects)
      && (forall d, e | d in t.days && e in t.days && t.days[d].isOpen && t.days[e].isOpen :: d == e)
  {
    InitInv(s);
    RunKeepsInv(s, schedule);
  }
}
