/** A stock count or stock movement reads the open day before its transaction begins and is recorded
    for that date whatever happens in between: exactly when it can be recorded for a closed day. */
module StockRace {
  import opened Tables

  /** Submit stands for a count or a movement; a day opens only on a date never used. */
  datatype Job = Submit | Close | Open(date: int)

  datatype Phase = Waiting | Dated(date: int) | Finished

  datatype Txn = Txn(job: Job, phase: Phase)

  /** A stock row, and whether its date was open when it was recorded. */
  datatype Row = Row(date: int, inTime: bool)

  datatype Sys = Sys(open: Option<int>, used: set<int>, rows: seq<Row>, txns: seq<Txn>)

  function Goto(s: Sys, i: nat, phase: Phase): Sys
    requires i < |s.txns|
  {
    s.(txns := s.txns[i := s.txns[i].(phase := phase)])
  }

  function OpenDay(s: Sys, date: int): Sys
  {
    if s.open.Some? || date in s.used then s else s.(open := Some(date), used := s.used + {date})
  }

  function Act(s: Sys, i: nat): Option<Sys>
    requires i < |s.txns|
  {
    match s.txns[i].phase
    case Waiting =>
      (match s.txns[i].job
       case Submit => Some(Goto(s, i, if s.open.Some? then Dated(s.open.value) else Finished))
       case Close => Some(Goto(s.(open := None), i, Finished))
       case Open(date) => Some(Goto(OpenDay(s, date), i, Finished)))
    case Dated(date) => Some(Goto(s.(rows := s.rows + [Row(date, s.open == Some(date))]), i, Finished))
    case Finished => None
  }

  function Next(s: Sys, i: nat): Sys
  {
    if i < |s.txns| && Act(s, i).Some? then Act(s, i).value else s
  }

  function Run(s: Sys, schedule: seq<nat>): Sys
    decreases |schedule|
  {
    if schedule == [] then s else Run(Next(s, schedule[0]), schedule[1..])
  }

  predicate InTime(s: Sys)
  {
    forall r | r in s.rows :: r.inTime
  }

  predicate Init(s: Sys)
  {
    InTime(s) && forall k | 0 <= k < |s.txns| :: s.txns[k].phase.Waiting?
  }

  predicate Asked(s: Sys, job: Job)
  {
    exists k | 0 <= k < |s.txns| :: s.txns[k].job == job
  }

  predicate CanOpen(s: Sys)
  {
    s.open.Some? || exists k | 0 <= k < |s.txns| :: s.txns[k].job.Open? && s.txns[k].job.date !in s.used
  }

  /** Somebody counts or moves stock, somebody closes, and a day is open or can be opened. */
  predicate Danger(s: Sys)
  {
    Asked(s, Submit) && Asked(s, Close) && CanOpen(s)
  }

  // ----- without danger

  /** Without a submission nothing is recorded; without a closing an open day stays open; and where no
      day can be open nothing is dated. */
  predicate Sound(s: Sys, t: Sys)
  {
    && InTime(t) && |t.txns| == |s.txns|
    && (forall k | 0 <= k < |s.txns| :: t.txns[k].job == s.txns[k].job)
    && (forall k | 0 <= k < |s.txns| && t.txns[k].phase.Dated? :: t.txns[k].job == Submit)
    && (!Asked(s, Close) ==>
          forall k | 0 <= k < |s.txns| && t.txns[k].phase.Dated? :: t.open == Some(t.txns[k].phase.date))
    && (!CanOpen(s) ==>
          t.open.None? && s.used <= t.used && forall k | 0 <= k < |s.txns| :: !t.txns[k].phase.Dated?)
  }

  lemma ActSound(s: Sys, t: Sys, i: nat)
    requires Sound(s, t) && !Danger(s) && i < |t.txns| && Act(t, i).Some?
    ensures Sound(s, Act(t, i).value)
  {
    assert s.txns[i].job == t.txns[i].job;
  }

  lemma {:induction false} RunSound(s: Sys, t: Sys, schedule: seq<nat>)
    requires Sound(s, t) && !Danger(s)
    ensures Sound(s, Run(t, schedule))
    decreases |schedule|
  {
    if schedule != [] {
      if schedule[0] < |t.txns| && Act(t, schedule[0]).Some? {
        ActSound(s, t, schedule[0]);
      }
      RunSound(s, Next(t, schedule[0]), schedule[1..]);
    }
  }

  // ----- with danger

  lemma RunOne(s: Sys, i: nat, rest: seq<nat>)
    ensures Run(s, [i] + rest) == Run(Next(s, i), rest)
  {
    assert ([i] + rest)[1..] == rest;
  }

  /** The open day is read, closed, and recorded for. */
  lemma Overtake(s: Sys, i: nat, c: nat) returns (schedule: seq<nat>)
    requires s.open.Some? && i < |s.txns| && c < |s.txns|
    requires s.txns[i] == Txn(Submit, Waiting) && s.txns[c] == Txn(Close, Waiting)
    ensures !InTime(Run(s, schedule))
  {
    schedule := [i] + ([c] + ([i] + []));
    RunOne(s, i, [c] + ([i] + []));
    var s1 := Next(s, i);
    RunOne(s1, c, [i] + []);
    var s2 := Next(s1, c);
    RunOne(s2, i, []);
    assert s2.open == None && s2.txns[i].phase == Dated(s.open.value);
    assert Next(s2, i).rows == s.rows + [Row(s.open.value, false)];
    assert Row(s.open.value, false) in Next(s2, i).rows;
  }

  lemma DangerOvertakes(s: Sys) returns (schedule: seq<nat>)
    requires Init(s) && Danger(s)
    ensures !InTime(Run(s, schedule))
  {
    var i :| 0 <= i < |s.txns| && s.txns[i].job == Submit;
    var c :| 0 <= c < |s.txns| && s.txns[c].job == Close;
    if s.open.Some? {
      schedule := Overtake(s, i, c);
    } else {
      var k :| 0 <= k < |s.txns| && s.txns[k].job.Open? && s.txns[k].job.date !in s.used;
      var rest := Overtake(Next(s, k), i, c);
      schedule := [k] + rest;
      RunOne(s, k, rest);
    }
  }

  /** Stock rows are recorded while their day is open under every interleaving if and only if nobody
      submits stock, nobody closes, or no day is open or can be opened. */
  lemma StockIsInTimeIff(s: Sys)
    requires Init(s)
    ensures (forall schedule :: InTime(Run(s, schedule))) <==> !Danger(s)
  {
    if Danger(s) {
      var schedule := DangerOvertakes(s);
    } else {
      forall schedule
        ensures InTime(Run(s, schedule))
      {
        RunSound(s, s, schedule);
      }
    }
  }

  const COUNT_AND_CLOSE := Sys(Some(5), {5}, [], [Txn(Submit, Waiting), Txn(Close, Waiting)])

  /** A count begun on day 5 is recorded for it after it has closed. */
  lemma StockCanBeLate()
    ensures Init(COUNT_AND_CLOSE)
    ensures exists schedule :: Run(COUNT_AND_CLOSE, schedule).rows == [Row(5, false)]
  {
    var s := COUNT_AND_CLOSE;
    var s1 := Goto(s, 0, Dated(5));
    var s2 := Goto(s1.(open := None), 1, Finished);
    assert Next(s, 0) == s1 && Next(s1, 1) == s2 && Next(s2, 0).rows == [Row(5, false)];
    RunOne(s2, 0, []);
    RunOne(s1, 1, [0] + []);
    RunOne(s, 0, [1] + ([0] + []));
    assert Run(s, [0] + ([1] + ([0] + []))).rows == [Row(5, false)];
  }
}
