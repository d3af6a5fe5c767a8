/** An interleaving in which no check is overtaken ends in the tables of a run in which the
    transactions take turns. */
module Serializable {
  import opened Tables
  import opened Locking
  import opened Interleavings
  import opened LoneRuns
  import opened Progress
  import opened Races

  // ----- commits that nothing overtook

  /** What a transaction saw still holds when it commits: its number is next, the day of its order is
      open, its figures are those of the day, its date is unused. */
  ghost predicate CleanCommit(s: Sys, t: Txn)
  {
    match t.phase
    case Numbered(_, d, last) => IsLast(s.rows, d, last)
    case Checked(o) => t.job.Settle? || (o in s.rows && IsOpenDay(s.days, s.rows[o].day))
    case Counted(d, total) => total == Total(CashOn(d), s.rows) + Total(TipsAndChangeOn(d), s.rows)
    case Dated(date) => forall d | d in s.days :: s.days[d].date != date
    case _ => true
  }

  ghost predicate Clean(s: Sys, schedule: seq<Pick>)
    decreases |schedule|
  {
    schedule == [] ||
    (&& (schedule[0].txn < |s.txns| ==> CleanCommit(s, s.txns[schedule[0].txn]))
     && Clean(Next(s, schedule[0]), schedule[1..]))
  }

  // ----- the serial run behind an interleaving

  /** The same tables, in a state where the transactions that are not done have not begun. */
  predicate Shadows(u: Sys, t: Sys)
  {
    && u.rows == t.rows && u.days == t.days && |u.txns| == |t.txns| && Idle(u)
    && forall k | 0 <= k < |t.txns| ::
         u.txns[k].job == t.txns[k].job && (!t.txns[k].phase.Finished? ==> u.txns[k].phase.Start?)
  }

  predicate Commits(phase: Phase)
  {
    phase.Numbered? || phase.Checked? || phase.Moving? || phase.Counted? || phase.Dated?
  }

  lemma NoCommitNoWrite(t: Sys, i: nat, env: Env)
    requires i < |t.txns| && Act(t, i, env).Some? && !Commits(t.txns[i].phase)
    ensures Act(t, i, env).value.rows == t.rows && Act(t, i, env).value.days == t.days
  {
  }

  /** A step that writes nothing is no step of the serial run. */
  lemma StillShadows(u: Sys, t: Sys, i: nat, next: Sys)
    requires Shadows(u, t) && MovesOne(t, i, next) && !t.txns[i].phase.Finished?
    requires next.rows == t.rows && next.days == t.days
    ensures Shadows(u, next)
  {
    forall k | 0 <= k < |next.txns|
      ensures u.txns[k].job == next.txns[k].job && (!next.txns[k].phase.Finished? ==> u.txns[k].phase.Start?)
    {
      assert k != i ==> next.txns[k] == t.txns[k];
    }
  }

  /** A lone run that ends in the tables of a commit. */
  ghost predicate Replays(u: Sys, turn: seq<Pick>, i: nat, next: Sys)
    requires i < |u.txns|
  {
    OnlyOf(turn, i) && Run(u, turn) == Goto(u.(rows := next.rows, days := next.days), i, Finished)
  }

  lemma ReplayShadows(u: Sys, t: Sys, i: nat, next: Sys, turn: seq<Pick>)
    requires Shadows(u, t) && MovesOne(t, i, next) && next.txns[i].phase.Finished? && Replays(u, turn, i, next)
    ensures Shadows(Run(u, turn), next)
  {
    var v := Run(u, turn);
    forall k | 0 <= k < |next.txns|
      ensures v.txns[k].job == next.txns[k].job && (!next.txns[k].phase.Finished? ==> v.txns[k].phase.Start?)
      ensures v.txns[k].phase.Start? || v.txns[k].phase.Finished?
    {
      assert k != i ==> next.txns[k] == t.txns[k] && v.txns[k] == u.txns[k];
    }
  }

  // ----- commit by commit

  lemma NumberedReplays(u: Sys, t: Sys, i: nat, env: Env) returns (turn: seq<Pick>)
    requires Inv(t) && Shadows(u, t) && i < |t.txns| && t.txns[i].phase.Numbered?
    requires CleanCommit(t, t.txns[i])
    ensures Replays(u, turn, i, Act(t, i, env).value)
  {
    assert TxnSound(t, t.txns[i]);
    var phase := t.txns[i].phase;
    var asked := Env(phase.day, phase.last, env.newId);
    if phase.original.Some? {
      turn := VoidAlone(u, i, phase.original.value, phase.day, asked);
    } else {
      turn := CreateAlone(u, i, phase.day, asked);
    }
  }

  lemma CheckedReplays(u: Sys, t: Sys, i: nat, env: Env) returns (turn: seq<Pick>)
    requires Inv(t) && Shadows(u, t) && i < |t.txns| && t.txns[i].phase.Checked?
    requires CleanCommit(t, t.txns[i])
    ensures Replays(u, turn, i, Act(t, i, env).value)
  {
    assert TxnSound(t, t.txns[i]);
    turn := WriteAlone(u, i, t.txns[i].phase.order, env);
  }

  lemma MovingReplays(u: Sys, t: Sys, i: nat, env: Env) returns (turn: seq<Pick>)
    requires Inv(t) && Shadows(u, t) && i < |t.txns| && t.txns[i].phase.Moving?
    ensures Replays(u, turn, i, Act(t, i, env).value)
  {
    assert TxnSound(t, t.txns[i]);
    var phase := t.txns[i].phase;
    turn := MoveAlone(u, i, phase.day, Env(phase.day, 0, 0), phase.amount);
  }

  lemma CountedReplays(u: Sys, t: Sys, i: nat, env: Env) returns (turn: seq<Pick>)
    requires Inv(t) && Shadows(u, t) && i < |t.txns| && t.txns[i].phase.Counted?
    requires CleanCommit(t, t.txns[i])
    ensures Replays(u, turn, i, Act(t, i, env).value)
  {
    assert TxnSound(t, t.txns[i]);
    turn := CloseAloneWhenIdle(u, i, t.txns[i].phase.day);
  }

  lemma DatedReplays(u: Sys, t: Sys, i: nat, env: Env) returns (turn: seq<Pick>)
    requires Inv(t) && Shadows(u, t) && i < |t.txns| && t.txns[i].phase.Dated?
    requires CleanCommit(t, t.txns[i]) && NoneOpen(t.days)
    ensures Replays(u, turn, i, Act(t, i, env).value)
  {
    assert TxnSound(t, t.txns[i]);
    turn := OpenAlone(u, i, t.txns[i].phase.date, t.txns[i].job.float, env.newId);
  }

  lemma CommitReplays(u: Sys, t: Sys, i: nat, env: Env) returns (turn: seq<Pick>)
    requires Inv(t) && Shadows(u, t) && i < |t.txns| && Commits(t.txns[i].phase) && CleanCommit(t, t.txns[i])
    requires t.txns[i].phase.Dated? ==> NoneOpen(t.days)
    ensures Replays(u, turn, i, Act(t, i, env).value)
  {
    if t.txns[i].phase.Numbered? {
      turn := NumberedReplays(u, t, i, env);
    } else if t.txns[i].phase.Checked? {
      turn := CheckedReplays(u, t, i, env);
    } else if t.txns[i].phase.Moving? {
      turn := MovingReplays(u, t, i, env);
    } else if t.txns[i].phase.Counted? {
      turn := CountedReplays(u, t, i, env);
    } else {
      turn := DatedReplays(u, t, i, env);
    }
  }

  lemma CommitFinishes(t: Sys, i: nat, env: Env)
    requires i < |t.txns| && Commits(t.txns[i].phase)
    ensures Act(t, i, env).Some? && MovesOne(t, i, Act(t, i, env).value)
    ensures Act(t, i, env).value.txns[i].phase.Finished?
    ensures t.txns[i].phase.Dated? && !NoneOpen(t.days) ==>
      Act(t, i, env).value.rows == t.rows && Act(t, i, env).value.days == t.days
  {
    ActMovesOne(t, i, env);
  }

  // ----- whole schedules

  /** A run in which the transactions take turns, with the tables of another run at its end. */
  ghost predicate SerialFor(s: Sys, turns: seq<Pick>, t: Sys)
  {
    TakesTurns(s, turns) && Shadows(Run(s, turns), t)
  }

  lemma OneMoreTurn(s: Sys, turns: seq<Pick>, t: Sys, i: nat, next: Sys, turn: seq<Pick>)
    requires SerialFor(s, turns, t) && MovesOne(t, i, next) && next.txns[i].phase.Finished?
    requires Replays(Run(s, turns), turn, i, next)
    ensures SerialFor(s, turns + turn, next)
  {
    ReplayShadows(Run(s, turns), t, i, next, turn);
    TurnAfter(s, turns, i, turn);
    RunInTwo(s, turns, turn);
  }

  lemma StepIsSerial(s: Sys, turns: seq<Pick>, t: Sys, i: nat, env: Env) returns (after: seq<Pick>)
    requires Inv(t) && SerialFor(s, turns, t) && i < |t.txns| && Act(t, i, env).Some?
    requires CleanCommit(t, t.txns[i])
    ensures SerialFor(s, after, Act(t, i, env).value)
  {
    var next := Act(t, i, env).value;
    ActMovesOne(t, i, env);
    if !Commits(t.txns[i].phase) {
      NoCommitNoWrite(t, i, env);
      StillShadows(Run(s, turns), t, i, next);
      after := turns;
    } else if t.txns[i].phase.Dated? && !NoneOpen(t.days) {
      CommitFinishes(t, i, env);
      StillShadows(Run(s, turns), t, i, next);
      after := turns;
    } else {
      CommitFinishes(t, i, env);
      var turn := CommitReplays(Run(s, turns), t, i, env);
      OneMoreTurn(s, turns, t, i, next, turn);
      after := turns + turn;
    }
  }

  lemma {:induction false} CleanIsSerial(s: Sys, turns: seq<Pick>, t: Sys, schedule: seq<Pick>)
      returns (after: seq<Pick>)
    requires Inv(t) && SerialFor(s, turns, t) && Clean(t, schedule)
    ensures SerialFor(s, after, Run(t, schedule))
    decreases |schedule|
  {
    if schedule == [] {
      after := turns;
    } else {
      var p := schedule[0];
      if p.txn < |t.txns| && Act(t, p.txn, p.env).Some? {
        ActKeepsInv(t, p.txn, p.env);
        var more := StepIsSerial(s, turns, t, p.txn, p.env);
        after := CleanIsSerial(s, more, Next(t, p), schedule[1..]);
      } else {
        after := CleanIsSerial(s, turns, t, schedule[1..]);
      }
    }
  }

  /** An interleaving whose commits nothing overtook ends in the tables of a run in which the
      transactions take turns. */
  lemma CleanSchedulesAreSerial(s: Sys, schedule: seq<Pick>)
    requires Init(s) && Clean(s, schedule)
    ensures exists turns ::
      && TakesTurns(s, turns)
      && Run(s, turns).rows == Run(s, schedule).rows && Run(s, turns).days == Run(s, schedule).days
  {
    InitInv(s);
    NoTurns(s);
    assert SerialFor(s, [], s);
    var turns := CleanIsSerial(s, [], s, schedule);
  }
}
