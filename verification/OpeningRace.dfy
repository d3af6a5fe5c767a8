/** Opening a day checks that its business date is unused, but nothing keeps it unused until the
    commit: exactly when two days can end up with one date. */
module OpeningRace {
  import opened Tables
  import opened Locking
  import opened Interleavings
  import opened Progress
  import opened Races

  predicate Used(days: map<DayId, DayRow>, date: int)
  {
    exists d | d in days :: days[d].date == date
  }

  predicate DatesUnique(days: map<DayId, DayRow>)
  {
    forall d, e | d in days && e in days && d != e :: days[d].date != days[e].date
  }

  predicate Opening(t: Txn)
  {
    t.job.Open? && !t.phase.Finished?
  }

  /** Two requests want to open a day with the same unused date. */
  predicate Clash(s: Sys)
  {
    exists i, j | 0 <= i < j < |s.txns| ::
      Opening(s.txns[i]) && Opening(s.txns[j]) && s.txns[i].job.date == s.txns[j].job.date
      && !Used(s.days, s.txns[i].job.date)
  }

  predicate Closing(t: Txn)
  {
    t.job.Close? && !t.phase.Finished?
  }

  function Closes(txns: seq<Txn>): nat
  {
    if txns == [] then 0 else (if Closing(txns[0]) then 1 else 0) + Closes(txns[1..])
  }

  function OpenDays(days: map<DayId, DayRow>): nat
  {
    if NoneOpen(days) then 0 else 1
  }

  /** Enough requests to close: the day open now, and the one opened next. */
  predicate Turnover(s: Sys)
  {
    Closes(s.txns) > OpenDays(s.days)
  }

  lemma {:induction false} ClosesOfUpdate(txns: seq<Txn>, i: nat, t: Txn)
    requires i < |txns|
    ensures Closes(txns[i := t])
      == Closes(txns) - (if Closing(txns[i]) then 1 else 0) + (if Closing(t) then 1 else 0)
  {
    if i == 0 {
      assert txns[i := t][1..] == txns[1..];
    } else {
      assert txns[i := t][1..] == txns[1..][i - 1 := t];
      ClosesOfUpdate(txns[1..], i - 1, t);
    }
  }

  lemma {:induction false} AClose(txns: seq<Txn>) returns (c: nat)
    requires Closes(txns) >= 1
    ensures c < |txns| && Closing(txns[c])
  {
    if Closing(txns[0]) {
      c := 0;
    } else {
      var rest := AClose(txns[1..]);
      c := rest + 1;
    }
  }

  predicate DatedUnused(s: Sys)
  {
    forall i | 0 <= i < |s.txns| && s.txns[i].phase.Dated? :: !Used(s.days, s.txns[i].phase.date)
  }

  // ----- without a clash

  predicate Apart(s: Sys)
  {
    DatesUnique(s.days) && DatedUnused(s) && !Clash(s)
  }

  lemma DatesOnlyGrow(s: Sys, i: nat, env: Env, date: int)
    requires i < |s.txns| && Act(s, i, env).Some?
    ensures Used(s.days, date) ==> Used(Act(s, i, env).value.days, date)
  {
    var t := Act(s, i, env).value;
    if d :| d in s.days && s.days[d].date == date {
      assert d in t.days && t.days[d].date == date;
    }
  }

  /** Only a commit of an opening brings a new date, its own. */
  lemma NewDate(s: Sys, i: nat, env: Env, date: int)
    requires i < |s.txns| && Act(s, i, env).Some?
    requires Used(Act(s, i, env).value.days, date) && !Used(s.days, date)
    ensures s.txns[i].phase == Dated(date) && NoneOpen(s.days)
  {
    var t := Act(s, i, env).value;
    var d :| d in t.days && t.days[d].date == date;
    assert forall e | e in s.days :: e in t.days && t.days[e].date == s.days[e].date;
    assert d !in s.days;
  }

  lemma ClashWasThere(s: Sys, i: nat, env: Env)
    requires i < |s.txns| && Act(s, i, env).Some? && Clash(Act(s, i, env).value)
    ensures Clash(s)
  {
    var t := Act(s, i, env).value;
    ActMovesOne(s, i, env);
    var j, k :| 0 <= j < k < |t.txns| && Opening(t.txns[j]) && Opening(t.txns[k])
      && t.txns[j].job.date == t.txns[k].job.date && !Used(t.days, t.txns[j].job.date);
    DatesOnlyGrow(s, i, env, t.txns[j].job.date);
    assert Opening(s.txns[j]) && Opening(s.txns[k]);
  }

  lemma UniqueStays(s: Sys, i: nat, env: Env)
    requires i < |s.txns| && Act(s, i, env).Some? && DatesUnique(s.days)
    requires s.txns[i].phase.Dated? && NoneOpen(s.days) ==> !Used(s.days, s.txns[i].phase.date)
    ensures DatesUnique(Act(s, i, env).value.days)
  {
  }

  lemma SameDateClashes(s: Sys, i: nat, j: nat, date: int)
    requires i < |s.txns| && j < |s.txns| && i != j && !Used(s.days, date)
    requires TxnSound(s, s.txns[i]) && s.txns[i].phase == Dated(date)
    requires TxnSound(s, s.txns[j]) && s.txns[j].phase == Dated(date)
    ensures Clash(s)
  {
    assert Opening(s.txns[i]) && Opening(s.txns[j]);
    if j < i {
      SameDateClashes(s, j, i, date);
    }
  }

  lemma ApartStays(s: Sys, i: nat, env: Env)
    requires Inv(s) && Apart(s) && i < |s.txns| && Act(s, i, env).Some?
    ensures Apart(Act(s, i, env).value)
  {
    var t := Act(s, i, env).value;
    if Clash(t) {
      ClashWasThere(s, i, env);
    }
    UniqueStays(s, i, env);
    ActMovesOne(s, i, env);
    forall j | 0 <= j < |t.txns| && t.txns[j].phase.Dated?
      ensures !Used(t.days, t.txns[j].phase.date)
    {
      var date := t.txns[j].phase.date;
      if Used(t.days, date) && !Used(s.days, date) {
        NewDate(s, i, env, date);
        assert TxnSound(s, s.txns[i]) && TxnSound(s, s.txns[j]);
        if j != i {
          SameDateClashes(s, i, j, date);
        }
      }
    }
  }

  // ----- without enough closings

  /** Either nothing was opened yet and too few closings are left to open twice, or the day that was
      opened stays open. */
  predicate Settled(s: Sys)
  {
    && DatesUnique(s.days)
    && (|| (DatedUnused(s) && Closes(s.txns) <= OpenDays(s.days))
        || (!NoneOpen(s.days) && Closes(s.txns) == 0))
  }

  lemma {:induction false} ClosingCounts(txns: seq<Txn>, i: nat)
    requires i < |txns| && Closing(txns[i])
    ensures Closes(txns) >= 1
  {
    if i > 0 {
      ClosingCounts(txns[1..], i - 1);
    }
  }

  lemma ClosingStep(s: Sys, i: nat, env: Env)
    requires Inv(s) && Settled(s) && i < |s.txns| && Act(s, i, env).Some? && s.txns[i].phase.Counted?
    ensures Settled(Act(s, i, env).value)
  {
    var t := Act(s, i, env).value;
    assert TxnSound(s, s.txns[i]);
    ActMovesOne(s, i, env);
    ClosesOfUpdate(s.txns, i, t.txns[i]);
    ClosingCounts(s.txns, i);
    UniqueStays(s, i, env);
    forall j | 0 <= j < |t.txns| && t.txns[j].phase.Dated?
      ensures !Used(t.days, t.txns[j].phase.date)
    {
      if Used(t.days, t.txns[j].phase.date) {
        assert s.txns[j].phase.Dated?;
        NewDate(s, i, env, t.txns[j].phase.date);
      }
    }
  }

  lemma OpeningStep(s: Sys, i: nat, env: Env)
    requires Inv(s) && Settled(s) && i < |s.txns| && Act(s, i, env).Some? && s.txns[i].phase.Dated?
    ensures Settled(Act(s, i, env).value)
  {
    var t := Act(s, i, env).value;
    assert TxnSound(s, s.txns[i]);
    ActMovesOne(s, i, env);
    ClosesOfUpdate(s.txns, i, t.txns[i]);
    UniqueStays(s, i, env);
    if t.days == s.days {
      forall j | 0 <= j < |t.txns| && t.txns[j].phase.Dated?
        ensures s.txns[j].phase.Dated?
      {
      }
    } else {
      assert NoneOpen(s.days) && !NoneOpen(t.days) by {
        assert t.days[env.newId].isOpen;
      }
    }
  }

  lemma OtherDays(s: Sys, i: nat, env: Env)
    requires i < |s.txns| && Act(s, i, env).Some?
    requires !s.txns[i].phase.Dated? && !s.txns[i].phase.Counted?
    ensures var t := Act(s, i, env).value;
      && t.days.Keys == s.days.Keys
      && (forall d | d in s.days :: t.days[d].isOpen == s.days[d].isOpen && t.days[d].date == s.days[d].date)
      && t.txns == s.txns[i := t.txns[i]]
  {
    ActMovesOne(s, i, env);
  }

  lemma SameDays(s: map<DayId, DayRow>, t: map<DayId, DayRow>)
    requires t.Keys == s.Keys
    requires forall d | d in s :: t[d].isOpen == s[d].isOpen && t[d].date == s[d].date
    ensures OpenDays(t) == OpenDays(s)
    ensures DatesUnique(s) ==> DatesUnique(t)
    ensures forall date :: Used(s, date) == Used(t, date)
  {
    assert NoneOpen(s) == NoneOpen(t) by {
      assert forall d :: (d in s && s[d].isOpen) <==> (d in t && t[d].isOpen);
    }
    forall date
      ensures Used(s, date) == Used(t, date)
    {
      assert forall d :: (d in s && s[d].date == date) <==> (d in t && t[d].date == date);
    }
  }

  /** A transaction that is about to insert its day has just seen its date unused. */
  lemma ToDated(s: Sys, i: nat, env: Env)
    requires i < |s.txns| && Act(s, i, env).Some?
    requires i < |Act(s, i, env).value.txns| && Act(s, i, env).value.txns[i].phase.Dated?
    ensures !Used(s.days, Act(s, i, env).value.txns[i].phase.date)
  {
    OnlyFromStart(s, i, env);
    StartToDated(s, i, env);
  }

  lemma OnlyFromStart(s: Sys, i: nat, env: Env)
    requires i < |s.txns| && Act(s, i, env).Some?
    requires i < |Act(s, i, env).value.txns| && Act(s, i, env).value.txns[i].phase.Dated?
    ensures s.txns[i].phase.Start?
  {
    if s.txns[i].phase.HoldSale? || s.txns[i].phase.HoldDay? {
      NotUnderLock(s, i, env);
    }
  }

  lemma NotUnderLock(s: Sys, i: nat, env: Env)
    requires i < |s.txns| && Act(s, i, env).Some?
    requires s.txns[i].phase.HoldSale? || s.txns[i].phase.HoldDay?
    ensures i < |Act(s, i, env).value.txns| && !Act(s, i, env).value.txns[i].phase.Dated?
  {
  }

  lemma StartToDated(s: Sys, i: nat, env: Env)
    requires i < |s.txns| && s.txns[i].phase.Start? && FromStart(s, i, env).Some?
    requires FromStart(s, i, env).value.txns[i].phase.Dated?
    ensures !Used(s.days, FromStart(s, i, env).value.txns[i].phase.date)
  {
  }

  lemma OtherStep(s: Sys, i: nat, env: Env)
    requires Settled(s) && i < |s.txns| && Act(s, i, env).Some?
    requires !s.txns[i].phase.Dated? && !s.txns[i].phase.Counted?
    ensures Settled(Act(s, i, env).value)
  {
    var t := Act(s, i, env).value;
    ActMovesOne(s, i, env);
    OtherDays(s, i, env);
    SameDays(s.days, t.days);
    ClosesOfUpdate(s.txns, i, t.txns[i]);
    if t.txns[i].phase.Dated? {
      ToDated(s, i, env);
    }
    StillSettled(s, t, i);
  }

  lemma StillSettled(s: Sys, t: Sys, i: nat)
    requires Settled(s) && i < |s.txns| && |t.txns| == |s.txns| && t.txns == s.txns[i := t.txns[i]]
    requires OpenDays(t.days) == OpenDays(s.days) && DatesUnique(t.days)
    requires forall date :: Used(s.days, date) == Used(t.days, date)
    requires Closes(t.txns) <= Closes(s.txns)
    requires t.txns[i].phase.Dated? ==> !Used(s.days, t.txns[i].phase.date)
    ensures Settled(t)
  {
    if DatedUnused(s) {
      forall j | 0 <= j < |t.txns| && t.txns[j].phase.Dated?
        ensures !Used(t.days, t.txns[j].phase.date)
      {
        assert j != i ==> t.txns[j] == s.txns[j];
      }
    }
  }

  lemma {:induction false} DatesStayUnique(s: Sys, schedule: seq<Pick>)
    requires Inv(s) && (Apart(s) || Settled(s))
    ensures DatesUnique(Run(s, schedule).days)
    decreases |schedule|
  {
    if schedule != [] {
      var p := schedule[0];
      if p.txn < |s.txns| && Act(s, p.txn, p.env).Some? {
        ActKeepsInv(s, p.txn, p.env);
        if Apart(s) {
          ApartStays(s, p.txn, p.env);
        } else if s.txns[p.txn].phase.Counted? {
          ClosingStep(s, p.txn, p.env);
        } else if s.txns[p.txn].phase.Dated? {
          OpeningStep(s, p.txn, p.env);
        } else {
          OtherStep(s, p.txn, p.env);
        }
      }
      DatesStayUnique(Next(s, p), schedule[1..]);
    }
  }

  // ----- with both

  predicate Unbegun(s: Sys)
  {
    forall i | 0 <= i < |s.txns| ::
      s.txns[i].phase.Start? || s.txns[i].phase.Dated? || s.txns[i].phase.Finished?
  }

  lemma {:induction false} UnusedId(ids: set<nat>) returns (id: nat)
    ensures forall x | x in ids :: x < id
  {
    if ids == {} {
      id := 0;
    } else {
      var x :| x in ids;
      id := UnusedId(ids - {x});
      id := if x >= id then x + 1 else id;
      assert ids == (ids - {x}) + {x};
    }
  }

  lemma CommitOpening(s: Sys, i: nat) returns (p: Pick, d: DayId)
    requires i < |s.txns| && s.txns[i].job.Open? && s.txns[i].phase == Dated(s.txns[i].job.date)
    requires NoneOpen(s.days)
    ensures d !in s.days && Next(s, p)
      == Goto(s.(days := s.days[d := DayRow(s.txns[i].job.date, true, s.txns[i].job.float, 0, None)]), i, Finished)
  {
    d := UnusedId(s.days.Keys);
    p := Pick(i, Env(0, 0, d));
  }

  /** Both openings read an unused date, one commits, its day is closed, the other commits. */
  lemma OpenTwice(s: Sys, i: nat, j: nat, c: nat) returns (schedule: seq<Pick>)
    requires Unbegun(s) && NoneOpen(s.days)
    requires i < |s.txns| && j < |s.txns| && c < |s.txns| && i != j
    requires s.txns[i].job.Open? && s.txns[j].job.Open? && s.txns[i].job.date == s.txns[j].job.date
    requires s.txns[i].phase.Start? && s.txns[j].phase.Start? && s.txns[c] == Txn(Close, Start)
    requires !Used(s.days, s.txns[i].job.date)
    ensures !DatesUnique(Run(s, schedule).days)
  {
    var date := s.txns[i].job.date;
    var p := Pick(i, Env(0, 0, 0));
    var q := Pick(j, Env(0, 0, 0));
    var s1 := Next(s, p);
    assert s1 == Goto(s, i, Dated(date));
    var s2 := Next(s1, q);
    assert s2 == Goto(s1, j, Dated(date));
    var commit, d := CommitOpening(s2, i);
    var s3 := Next(s2, commit);
    var closing := CloseAlone(s3, c, d);
    var s4 := Run(s3, closing);
    assert NoneOpen(s4.days) && s4.days[d].date == date;
    var again, e := CommitOpening(s4, j);
    var s5 := Next(s4, again);
    assert s5.days[d].date == date && s5.days[e].date == date && d != e;
    schedule := [p] + [q] + [commit] + closing + [again];
    OnePick(s, p);
    OnePick(s1, q);
    OnePick(s2, commit);
    OnePick(s4, again);
    RunInTwo(s, [p], [q]);
    RunInTwo(s, [p] + [q], [commit]);
    RunInTwo(s, [p] + [q] + [commit], closing);
    RunInTwo(s, [p] + [q] + [commit] + closing, [again]);
  }

  lemma CloseTheOpenDay(s: Sys) returns (closing: seq<Pick>, t: Sys, c: nat)
    requires Init(s) && Turnover(s) && !NoneOpen(s.days)
    ensures t == Run(s, closing) && NoneOpen(t.days) && (forall date :: Used(t.days, date) == Used(s.days, date))
    ensures c < |s.txns| && t.txns == s.txns[c := Txn(Close, Finished)] && s.txns[c] == Txn(Close, Start)
    ensures Closes(t.txns) >= 1
  {
    c := AClose(s.txns);
    var d :| d in s.days && s.days[d].isOpen;
    closing := CloseAlone(s, c, d);
    t := Run(s, closing);
    ClosesOfUpdate(s.txns, c, Txn(Close, Finished));
    forall date
      ensures Used(t.days, date) == Used(s.days, date)
    {
      assert forall e :: (e in s.days && s.days[e].date == date) <==> (e in t.days && t.days[e].date == date);
    }
  }

  lemma CloseThenOpenTwice(s: Sys) returns (schedule: seq<Pick>)
    requires Init(s) && Clash(s) && Turnover(s)
    ensures !DatesUnique(Run(s, schedule).days)
  {
    var i, j :| 0 <= i < j < |s.txns| && Opening(s.txns[i]) && Opening(s.txns[j])
      && s.txns[i].job.date == s.txns[j].job.date && !Used(s.days, s.txns[i].job.date);
    if NoneOpen(s.days) {
      var c := AClose(s.txns);
      schedule := OpenTwice(s, i, j, c);
    } else {
      var closing, t, c := CloseTheOpenDay(s);
      var next := AClose(t.txns);
      var rest := OpenTwice(t, i, j, next);
      schedule := closing + rest;
      RunInTwo(s, closing, rest);
    }
  }

  /** Business dates stay unique under every interleaving if and only if no two requests open the same
      unused date, or too few requests close a day between them. */
  lemma DatesUniqueIff(s: Sys)
    requires Init(s) && DatesUnique(s.days)
    ensures (forall schedule :: DatesUnique(Run(s, schedule).days)) <==> !(Clash(s) && Turnover(s))
  {
    InitInv(s);
    if Clash(s) && Turnover(s) {
      var schedule := CloseThenOpenTwice(s);
    } else {
      forall schedule
        ensures DatesUnique(Run(s, schedule).days)
      {
        DatesStayUnique(s, schedule);
      }
    }
  }

  const TWO_OPENINGS := Sys(
    map[], map[], [Txn(Open(5, 0), Start), Txn(Open(5, 0), Start), Txn(Close, Start)])

  /** Two openings of day 5 and one closing, on empty tables, can leave two days with one date. */
  lemma DatesCanRepeat()
    ensures Init(TWO_OPENINGS) && DatesUnique(TWO_OPENINGS.days)
    ensures exists schedule :: !DatesUnique(Run(TWO_OPENINGS, schedule).days)
  {
    var s := TWO_OPENINGS;
    assert Opening(s.txns[0]) && Opening(s.txns[1]) && !Used(s.days, 5);
    ClosingCounts(s.txns, 2);
    assert Clash(s) && Turnover(s);
    DatesUniqueIff(s);
  }
}
