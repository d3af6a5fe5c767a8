/** No interleaving of the concurrent protocol is ever stuck, and every one of them ends. */
module Progress {
  import opened Tables
  import opened Locking
  import opened Interleavings

  // ----- an answer the database can always give

  /** The highest number of a day among some sales, zero without any. */
  lemma {:induction false} HighestNumber(rows: map<SaleId, Row>, d: DayId, ids: set<SaleId>) returns (last: int)
    requires ids <= rows.Keys
    requires forall o | o in rows :: 1 <= rows[o].number
    ensures 0 <= last
    ensures forall o | o in ids && rows[o].day == d :: rows[o].number <= last
    ensures last == 0 || exists o | o in ids :: rows[o].day == d && rows[o].number == last
    decreases |ids|
  {
    if ids == {} {
      last := 0;
    } else {
      var o :| o in ids;
      last := HighestNumber(rows, d, ids - {o});
      if rows[o].day == d && rows[o].number > last {
        last := rows[o].number;
      }
    }
  }

  lemma DayToAsk(days: map<DayId, DayRow>) returns (d: DayId)
    ensures IsOpenDay(days, d) || NoneOpen(days)
  {
    d := 0;
    if !NoneOpen(days) {
      d :| d in days && days[d].isOpen;
    }
  }

  // ----- some transaction can always step

  predicate Waits(t: Txn)
  {
    t.phase.WaitSale? || t.phase.WaitDay?
  }

  /** Only a wait for a lock can block a transaction. */
  lemma WorkingCanStep(s: Sys, i: nat) returns (env: Env)
    requires Inv(s) && i < |s.txns| && !Waits(s.txns[i]) && !s.txns[i].phase.Finished?
    ensures Act(s, i, env).Some?
  {
    var d := DayToAsk(s.days);
    env := Env(d, 0, 0);
    if s.txns[i].phase.HoldDay? {
      var last := HighestNumber(s.rows, s.txns[i].phase.day, s.rows.Keys);
      env := Env(d, last, 0);
    }
  }

  /** The holder of a day lock never waits, so a wait for a day ends. */
  lemma DayWaiterCanStep(s: Sys, i: nat) returns (j: nat, env: Env)
    requires Inv(s) && i < |s.txns| && s.txns[i].phase.WaitDay?
    ensures j < |s.txns| && Act(s, j, env).Some?
  {
    if DayLocked(s, s.txns[i].phase.day) {
      j :| 0 <= j < |s.txns| && HoldsDay(s.txns[j], s.txns[i].phase.day);
      env := WorkingCanStep(s, j);
    } else {
      j, env := i, Env(0, 0, 0);
    }
  }

  /** The holder of a sale lock waits for a day at most, never for another sale. */
  lemma UnfinishedCanStep(s: Sys, i: nat) returns (j: nat, env: Env)
    requires Inv(s) && i < |s.txns| && !s.txns[i].phase.Finished?
    ensures j < |s.txns| && Act(s, j, env).Some?
  {
    j, env := i, Env(0, 0, 0);
    if s.txns[i].phase.WaitSale? {
      var o := s.txns[i].phase.order;
      if o in s.rows && SaleLocked(s, o) {
        j :| 0 <= j < |s.txns| && HoldsSale(s.txns[j], o);
      }
    }
    if s.txns[j].phase.WaitDay? {
      j, env := DayWaiterCanStep(s, j);
    } else if !Waits(s.txns[j]) {
      env := WorkingCanStep(s, j);
    }
  }

  predicate AllFinished(s: Sys)
  {
    forall i | 0 <= i < |s.txns| :: s.txns[i].phase.Finished?
  }

  // ----- every step brings the end nearer

  function TxnRemaining(t: Txn): nat
  {
    match t.phase
    case Start => 6
    case WaitSale(_) => 5
    case HoldSale(_) => 4
    case WaitDay(_, _) => if t.job.Close? then 4 else 3
    case HoldDay(_, _) => if t.job.Close? then 3 else 2
    case Cashed(_, _) => 2
    case Finished => 0
    case _ => 1
  }

  function Rank(txns: seq<Txn>): (r: nat)
  {
    if txns == [] then 0 else TxnRemaining(txns[0]) + Rank(txns[1..])
  }

  lemma {:induction false} RankOfUpdate(txns: seq<Txn>, i: nat, t: Txn)
    requires i < |txns|
    ensures Rank(txns[i := t]) == Rank(txns) - TxnRemaining(txns[i]) + TxnRemaining(t)
  {
    if i == 0 {
      assert txns[i := t][1..] == txns[1..];
    } else {
      assert txns[i := t][1..] == txns[1..][i - 1 := t];
      RankOfUpdate(txns[1..], i - 1, t);
    }
  }

  lemma {:induction false} RankBound(txns: seq<Txn>)
    ensures Rank(txns) <= 6 * |txns|
  {
    if txns != [] {
      RankBound(txns[1..]);
    }
  }

  predicate MovesOne(s: Sys, i: nat, t: Sys)
  {
    && i < |s.txns| && |t.txns| == |s.txns| && t.txns == s.txns[i := t.txns[i]]
    && t.txns[i].job == s.txns[i].job
    && TxnRemaining(t.txns[i]) < TxnRemaining(s.txns[i])
  }

  lemma StartMovesOne(s: Sys, i: nat, env: Env)
    requires i < |s.txns| && s.txns[i].phase.Start? && FromStart(s, i, env).Some?
    ensures MovesOne(s, i, FromStart(s, i, env).value)
  {
  }

  lemma LockedMovesOne(s: Sys, i: nat, env: Env)
    requires i < |s.txns| && Act(s, i, env).Some?
    requires s.txns[i].phase.HoldSale? || s.txns[i].phase.HoldDay?
    ensures MovesOne(s, i, Act(s, i, env).value)
  {
  }

  lemma OtherMovesOne(s: Sys, i: nat, env: Env)
    requires i < |s.txns| && Act(s, i, env).Some?
    requires !s.txns[i].phase.Start? && !s.txns[i].phase.HoldSale? && !s.txns[i].phase.HoldDay?
    ensures MovesOne(s, i, Act(s, i, env).value)
  {
  }

  /** A step moves its own transaction forward and no other. */
  lemma ActMovesOne(s: Sys, i: nat, env: Env)
    requires i < |s.txns| && Act(s, i, env).Some?
    ensures MovesOne(s, i, Act(s, i, env).value)
  {
    if s.txns[i].phase.Start? {
      StartMovesOne(s, i, env);
    } else if s.txns[i].phase.HoldSale? || s.txns[i].phase.HoldDay? {
      LockedMovesOne(s, i, env);
    } else {
      OtherMovesOne(s, i, env);
    }
  }

  lemma ActLowersRank(s: Sys, i: nat, env: Env)
    requires i < |s.txns| && Act(s, i, env).Some?
    ensures Rank(Act(s, i, env).value.txns) < Rank(s.txns)
  {
    ActMovesOne(s, i, env);
    RankOfUpdate(s.txns, i, Act(s, i, env).value.txns[i]);
  }

  /** How many picks of a schedule really moved a transaction. */
  ghost function Moves(s: Sys, schedule: seq<Pick>): nat
    decreases |schedule|
  {
    if schedule == [] then 0
    else
      var p := schedule[0];
      (if p.txn < |s.txns| && Act(s, p.txn, p.env).Some? then 1 else 0) + Moves(Next(s, p), schedule[1..])
  }

  lemma {:induction false} MovesAreBounded(s: Sys, schedule: seq<Pick>)
    ensures Moves(s, schedule) + Rank(Run(s, schedule).txns) <= Rank(s.txns)
    ensures |Run(s, schedule).txns| == |s.txns|
    decreases |schedule|
  {
    if schedule != [] {
      var p := schedule[0];
      if p.txn < |s.txns| && Act(s, p.txn, p.env).Some? {
        ActLowersRank(s, p.txn, p.env);
        ActMovesOne(s, p.txn, p.env);
      }
      MovesAreBounded(Next(s, p), schedule[1..]);
    }
  }

  // ----- the main results

  /** In every reachable state either all transactions are done or one of them can step: there is no
      deadlock. No schedule moves more than six times per transaction. */
  lemma NeverDeadlocked(s: Sys, schedule: seq<Pick>)
    requires Init(s)
    ensures var t := Run(s, schedule);
      AllFinished(t) || exists i: nat, env | i < |t.txns| :: Act(t, i, env).Some?
    ensures Moves(s, schedule) <= 6 * |s.txns|
  {
    InitInv(s);
    RunKeepsInv(s, schedule);
    MovesAreBounded(s, schedule);
    RankBound(s.txns);
    var t := Run(s, schedule);
    if i: nat :| i < |t.txns| && !t.txns[i].phase.Finished? {
      var j, env := UnfinishedCanStep(t, i);
    }
  }

  /** A schedule that moves whatever can still move. */
  lemma {:induction false} Completion(s: Sys) returns (schedule: seq<Pick>)
    requires Inv(s)
    ensures AllFinished(Run(s, schedule))
    decreases Rank(s.txns)
  {
    if AllFinished(s) {
      schedule := [];
    } else {
      var i: nat :| i < |s.txns| && !s.txns[i].phase.Finished?;
      var j, env := UnfinishedCanStep(s, i);
      ActKeepsInv(s, j, env);
      ActLowersRank(s, j, env);
      var rest := Completion(Act(s, j, env).value);
      schedule := [Pick(j, env)] + rest;
      assert schedule[1..] == rest;
    }
  }

  lemma {:induction false} RunInTwo(s: Sys, first: seq<Pick>, second: seq<Pick>)
    ensures Run(s, first + second) == Run(Run(s, first), second)
    decreases |first|
  {
    if first == [] {
      assert first + second == second;
    } else {
      assert (first + second)[1..] == first[1..] + second;
      RunInTwo(Next(s, first[0]), first[1..], second);
    }
  }

  /** Whatever was interleaved so far, every transaction can still be brought to its end. */
  lemma EveryScheduleCanFinish(s: Sys, schedule: seq<Pick>)
    requires Init(s)
    ensures exists rest :: AllFinished(Run(s, schedule + rest))
  {
    InitInv(s);
    RunKeepsInv(s, schedule);
    var rest := Completion(Run(s, schedule));
    RunInTwo(s, schedule, rest);
  }
}
