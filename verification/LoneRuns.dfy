/** What a transaction of the concurrent protocol does that runs from start to end while no other one
    holds a lock. */
module LoneRuns {
  import opened Tables
  import opened Locking
  import opened Progress
  import opened Races

  /** Every transaction has not begun or is done, so nobody holds a lock. */
  predicate Idle(s: Sys)
  {
    forall i | 0 <= i < |s.txns| :: s.txns[i].phase.Start? || s.txns[i].phase.Finished?
  }

  predicate Waiting(phase: Phase)
  {
    phase.WaitSale? || phase.WaitDay?
  }

  /** A waiting transaction is not held up by idle ones. */
  lemma NobodyHolds(s: Sys, i: nat, phase: Phase, o: SaleId)
    requires Idle(s) && i < |s.txns| && Waiting(phase)
    ensures !DayLocked(Goto(s, i, phase), o)
    ensures phase.WaitSale? ==> !SaleLocked(Goto(s, i, phase), o)
  {
    var t := Goto(s, i, phase);
    forall j | 0 <= j < |t.txns|
      ensures !HoldsDay(t.txns[j], o) && (phase.WaitSale? ==> !HoldsSale(t.txns[j], o))
    {
      assert j != i ==> t.txns[j] == s.txns[j];
    }
  }

  // ----- one order

  lemma LockSale(s: Sys, i: nat, o: SaleId, env: Env) returns (schedule: seq<Pick>)
    requires Idle(s) && i < |s.txns| && s.txns[i].phase.Start? && o in s.rows && s.rows[o].corrects.None?
    requires s.txns[i].job in {Job.Void(o), Job.Settle(o), Job.Discard(o)}
      || (s.txns[i].job.Complete? && s.txns[i].job.order == o)
    ensures Run(s, schedule) == Goto(s, i, HoldSale(o))
    ensures OnlyOf(schedule, i)
  {
    var p := Pick(i, env);
    schedule := [p, p];
    assert Next(s, p) == Goto(s, i, WaitSale(o));
    NobodyHolds(s, i, WaitSale(o), o);
    GotoAgain(s, i, WaitSale(o), HoldSale(o));
    TwoPicks(s, p, p);
  }

  lemma WriteAlone(s: Sys, i: nat, o: SaleId, env: Env) returns (schedule: seq<Pick>)
    requires Idle(s) && i < |s.txns| && s.txns[i].phase.Start? && o in s.rows && s.rows[o].corrects.None?
    requires s.txns[i].job in {Job.Settle(o), Job.Discard(o)}
      || (s.txns[i].job.Complete? && s.txns[i].job.order == o)
    requires if s.txns[i].job.Settle? then s.rows[o].completed && s.rows[o].owed > 0 && !s.rows[o].settled
      else !s.rows[o].completed && IsOpenDay(s.days, s.rows[o].day)
    ensures Run(s, schedule) == Goto(WriteOrder(s, s.txns[i].job, o), i, Finished)
    ensures OnlyOf(schedule, i)
  {
    var locking := LockSale(s, i, o, env);
    var held := Goto(s, i, HoldSale(o));
    var p := Pick(i, env);
    GotoAgain(s, i, HoldSale(o), Checked(o));
    assert Next(held, p) == Goto(s, i, Checked(o));
    WriteAfterGoto(s, i, Checked(o), o);
    schedule := locking + [p, p];
    TwoPicks(held, p, p);
    RunInTwo(s, locking, [p, p]);
  }

  lemma WriteAfterGoto(s: Sys, i: nat, phase: Phase, o: SaleId)
    requires i < |s.txns|
    ensures Goto(WriteOrder(Goto(s, i, phase), s.txns[i].job, o), i, Finished)
      == Goto(WriteOrder(s, s.txns[i].job, o), i, Finished)
  {
    GotoAgain(s, i, phase, Finished);
  }

  // ----- one day

  lemma LockDay(s: Sys, i: nat, d: DayId, env: Env) returns (schedule: seq<Pick>)
    requires Idle(s) && i < |s.txns| && s.txns[i].phase.Start? && IsOpenDay(s.days, d) && env.day == d
    requires var job := s.txns[i].job; job.Create? || job.Record? || (job.Amend? && job.day == d)
    ensures Run(s, schedule) == Goto(s, i, HoldDay(None, d))
    ensures OnlyOf(schedule, i)
  {
    var p := Pick(i, env);
    schedule := [p, p];
    assert Next(s, p) == Goto(s, i, WaitDay(None, d));
    NobodyHolds(s, i, WaitDay(None, d), d);
    GotoAgain(s, i, WaitDay(None, d), HoldDay(None, d));
    TwoPicks(s, p, p);
  }

  lemma MoveAlone(s: Sys, i: nat, d: DayId, env: Env, amount: int) returns (schedule: seq<Pick>)
    requires Idle(s) && i < |s.txns| && s.txns[i].phase.Start? && IsOpenDay(s.days, d) && env.day == d
    requires s.txns[i].job in {Job.Record(amount), Job.Amend(d, amount)}
    ensures Run(s, schedule) == Goto(s.(days := Move(s.days, d, amount)), i, Finished)
    ensures OnlyOf(schedule, i)
  {
    var locking := LockDay(s, i, d, env);
    var held := Goto(s, i, HoldDay(None, d));
    var p := Pick(i, env);
    GotoAgain(s, i, HoldDay(None, d), Moving(d, amount));
    assert Next(held, p) == Goto(s, i, Moving(d, amount));
    GotoAgain(s.(days := Move(s.days, d, amount)), i, Moving(d, amount), Finished);
    schedule := locking + [p, p];
    TwoPicks(held, p, p);
    RunInTwo(s, locking, [p, p]);
  }

  /** The last two steps of an insert: the highest number is read, the next one is used. */
  lemma InsertFrom(s: Sys, i: nat, original: Option<SaleId>, d: DayId, env: Env) returns (schedule: seq<Pick>)
    requires i < |s.txns| && s.txns[i].phase == HoldDay(original, d) && IsOpenDay(s.days, d)
    requires s.txns[i].job.Create? || s.txns[i].job.Void?
    requires IsLast(s.rows, d, env.last)
    ensures Run(s, schedule) == Goto(InsertRow(s, original, d, env.last, env.newId), i, Finished)
    ensures OnlyOf(schedule, i)
  {
    var p := Pick(i, env);
    schedule := [p, p];
    assert Next(s, p) == Goto(s, i, Numbered(original, d, env.last));
    GotoAgain(s, i, Numbered(original, d, env.last), Finished);
    InsertAfterGoto(s, i, Numbered(original, d, env.last), original, d, env.last, env.newId);
    TwoPicks(s, p, p);
  }

  lemma InsertAfterGoto(s: Sys, i: nat, phase: Phase, original: Option<SaleId>, d: DayId, last: int, newId: nat)
    requires i < |s.txns|
    ensures Goto(InsertRow(Goto(s, i, phase), original, d, last, newId), i, Finished)
      == Goto(InsertRow(s, original, d, last, newId), i, Finished)
  {
    GotoAgain(s, i, phase, Finished);
  }

  lemma CreateAlone(s: Sys, i: nat, d: DayId, env: Env) returns (schedule: seq<Pick>)
    requires Idle(s) && i < |s.txns| && s.txns[i] == Txn(Job.Create, Start)
    requires IsOpenDay(s.days, d) && env.day == d && IsLast(s.rows, d, env.last)
    ensures Run(s, schedule) == Goto(InsertRow(s, None, d, env.last, env.newId), i, Finished)
    ensures OnlyOf(schedule, i)
  {
    var locking := LockDay(s, i, d, env);
    var inserting := InsertFrom(Goto(s, i, HoldDay(None, d)), i, None, d, env);
    InsertAfterGoto(s, i, HoldDay(None, d), None, d, env.last, env.newId);
    schedule := locking + inserting;
    RunInTwo(s, locking, inserting);
  }

  lemma LockOpenDay(s: Sys, i: nat, o: SaleId, d: DayId, env: Env) returns (schedule: seq<Pick>)
    requires Idle(s) && i < |s.txns| && s.txns[i] == Txn(Job.Void(o), Start) && o in s.rows
    requires s.rows[o].corrects.None? && s.rows[o].completed && !HasVoid(s.rows, o)
    requires IsOpenDay(s.days, d) && env.day == d
    ensures Run(s, schedule) == Goto(s, i, HoldDay(Some(o), d))
    ensures OnlyOf(schedule, i)
  {
    var locking := LockSale(s, i, o, env);
    var held := Goto(s, i, HoldSale(o));
    var p := Pick(i, env);
    GotoAgain(s, i, HoldSale(o), WaitDay(Some(o), d));
    assert Next(held, p) == Goto(s, i, WaitDay(Some(o), d));
    NobodyHolds(s, i, WaitDay(Some(o), d), d);
    GotoAgain(s, i, WaitDay(Some(o), d), HoldDay(Some(o), d));
    schedule := locking + [p, p];
    TwoPicks(held, p, p);
    RunInTwo(s, locking, [p, p]);
  }

  lemma VoidAlone(s: Sys, i: nat, o: SaleId, d: DayId, env: Env) returns (schedule: seq<Pick>)
    requires Idle(s) && i < |s.txns| && s.txns[i] == Txn(Job.Void(o), Start) && o in s.rows
    requires s.rows[o].corrects.None? && s.rows[o].completed && !HasVoid(s.rows, o)
    requires IsOpenDay(s.days, d) && env.day == d && IsLast(s.rows, d, env.last)
    ensures Run(s, schedule) == Goto(InsertRow(s, Some(o), d, env.last, env.newId), i, Finished)
    ensures OnlyOf(schedule, i)
  {
    var locking := LockOpenDay(s, i, o, d, env);
    var inserting := InsertFrom(Goto(s, i, HoldDay(Some(o), d)), i, Some(o), d, env);
    InsertAfterGoto(s, i, HoldDay(Some(o), d), Some(o), d, env.last, env.newId);
    schedule := locking + inserting;
    RunInTwo(s, locking, inserting);
  }

  lemma OpenAlone(s: Sys, i: nat, date: int, float: int, newId: nat) returns (schedule: seq<Pick>)
    requires i < |s.txns| && s.txns[i] == Txn(Job.Open(date, float), Start)
    requires NoneOpen(s.days) && forall d | d in s.days :: s.days[d].date != date
    ensures Run(s, schedule) == Goto(InsertDay(s, date, float, newId), i, Finished)
    ensures OnlyOf(schedule, i)
  {
    var p := Pick(i, Env(0, 0, newId));
    schedule := [p, p];
    assert Next(s, p) == Goto(s, i, Dated(date));
    GotoAgain(s, i, Dated(date), Finished);
    TwoPicks(s, p, p);
  }

  lemma CloseAloneWhenIdle(s: Sys, i: nat, d: DayId) returns (schedule: seq<Pick>)
    requires Idle(s) && i < |s.txns| && s.txns[i] == Txn(Job.Close, Start) && IsOpenDay(s.days, d)
    ensures Run(s, schedule) == ClosedAlone(s, i, d)
    ensures OnlyOf(schedule, i)
  {
    forall j | 0 <= j < |s.txns|
      ensures !HoldsDay(s.txns[j], d)
    {
    }
    schedule := CloseAlone(s, i, d);
  }

  // ----- runs in which the transactions take turns

  /** One transaction after the other runs, and nobody holds a lock in between. */
  ghost predicate TakesTurns(s: Sys, schedule: seq<Pick>)
    decreases |schedule|
  {
    schedule == [] ||
    exists n: nat, i: nat | 0 < n <= |schedule| ::
      && OnlyOf(schedule[..n], i) && Idle(Run(s, schedule[..n]))
      && TakesTurns(Run(s, schedule[..n]), schedule[n..])
  }

  lemma TurnBefore(s: Sys, i: nat, turn: seq<Pick>, more: seq<Pick>)
    requires OnlyOf(turn, i) && Idle(Run(s, turn)) && TakesTurns(Run(s, turn), more)
    ensures TakesTurns(s, turn + more)
  {
    var n := |turn|;
    assert (turn + more)[..n] == turn && (turn + more)[n..] == more;
    assert 0 < n <= |turn + more|;
  }

  lemma NoTurns(s: Sys)
    ensures TakesTurns(s, [])
  {
  }

  lemma OneTurn(s: Sys, i: nat, turn: seq<Pick>)
    requires OnlyOf(turn, i) && Idle(Run(s, turn))
    ensures TakesTurns(s, turn)
  {
    NoTurns(Run(s, turn));
    TurnBefore(s, i, turn, []);
    assert turn + [] == turn;
  }

  lemma FirstTurn(s: Sys, turns: seq<Pick>) returns (i: nat, turn: seq<Pick>, rest: seq<Pick>)
    requires turns != [] && TakesTurns(s, turns)
    ensures turns == turn + rest && |rest| < |turns|
    ensures OnlyOf(turn, i) && Idle(Run(s, turn)) && TakesTurns(Run(s, turn), rest)
  {
    var n: nat, k: nat :| 0 < n <= |turns| && OnlyOf(turns[..n], k) && Idle(Run(s, turns[..n]))
      && TakesTurns(Run(s, turns[..n]), turns[n..]);
    i, turn, rest := k, turns[..n], turns[n..];
  }

  lemma Regroup(a: seq<Pick>, b: seq<Pick>, c: seq<Pick>)
    ensures a + b + c == a + (b + c)
  {
  }

  lemma {:induction false} TurnAfter(s: Sys, turns: seq<Pick>, i: nat, turn: seq<Pick>)
    requires TakesTurns(s, turns) && OnlyOf(turn, i) && Idle(Run(Run(s, turns), turn))
    ensures TakesTurns(s, turns + turn)
    decreases |turns|
  {
    if turns == [] {
      assert [] + turn == turn && Run(s, []) == s;
      OneTurn(s, i, turn);
    } else {
      var k, first, rest := FirstTurn(s, turns);
      RunInTwo(s, first, rest);
      TurnAfter(Run(s, first), rest, i, turn);
      TurnBefore(s, k, first, rest + turn);
      Regroup(first, rest, turn);
    }
  }
}
