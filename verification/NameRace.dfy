/** A new ledger name is looked up without regard to case, but the unique key behind it compares names
    exactly: exactly when two ledgers can end up with names that differ in case only. */
module NameRace {
  import opened Journal
  import opened Tables

  datatype Phase = Waiting | Checked | Finished

  datatype Txn = Txn(name: string, phase: Phase)

  /** The names in use and the names asked for. */
  datatype Sys = Sys(names: seq<string>, txns: seq<Txn>)

  function Goto(s: Sys, i: nat, phase: Phase): Sys
    requires i < |s.txns|
  {
    s.(txns := s.txns[i := s.txns[i].(phase := phase)])
  }

  predicate Known(names: seq<string>, name: string)
  {
    exists n | n in names :: Lower(n) == Lower(name)
  }

  function Act(s: Sys, i: nat): Option<Sys>
    requires i < |s.txns|
  {
    var t := s.txns[i];
    match t.phase
    case Waiting => Some(Goto(s, i, if Known(s.names, t.name) then Finished else Checked))
    case Checked =>
      Some(Goto(if t.name in s.names then s else s.(names := s.names + [t.name]), i, Finished))
    case Finished => None
  }

  function Next(s: Sys, i: nat): Sys
  {
    if i < |s.txns| && Act(s, i).Some? then Act(s, i).value else s
  }

  function Run(s: Sys, schedule: seq<nat>): Sys
    decreases |schedule|
  {
    if schedule == [] then s else Run(Next(s, schedule[0]), schedule[1..])
  }

  predicate Apart(names: seq<string>)
  {
    forall i, j | 0 <= i < j < |names| :: Lower(names[i]) != Lower(names[j])
  }

  predicate Init(s: Sys)
  {
    Apart(s.names) && forall k | 0 <= k < |s.txns| :: s.txns[k].phase.Waiting?
  }

  /** Two requests want one unknown name in different letters. */
  predicate Danger(s: Sys)
  {
    exists i, j | 0 <= i < |s.txns| && 0 <= j < |s.txns| ::
      && s.txns[i].name != s.txns[j].name && Lower(s.txns[i].name) == Lower(s.txns[j].name)
      && !Known(s.names, s.txns[i].name)
  }

  // ----- without danger

  predicate Sound(s: Sys, t: Sys)
  {
    && Apart(t.names) && |t.txns| == |s.txns|
    && (forall k | 0 <= k < |s.txns| :: t.txns[k].name == s.txns[k].name)
    && (forall n | n in s.names :: n in t.names)
    && (forall k | 0 <= k < |t.txns| && t.txns[k].phase.Checked? :: !Known(s.names, t.txns[k].name))
    && (forall n | n in t.names && n !in s.names ::
          !Known(s.names, n) && exists k | 0 <= k < |s.txns| :: s.txns[k].name == n)
  }

  lemma WriteStaysApart(s: Sys, t: Sys, i: nat)
    requires Sound(s, t) && !Danger(s) && i < |t.txns| && t.txns[i].phase.Checked?
    requires t.txns[i].name !in t.names
    ensures Apart(t.names + [t.txns[i].name])
  {
    var name := t.txns[i].name;
    forall j | 0 <= j < |t.names|
      ensures Lower(t.names[j]) != Lower(name)
    {
      var n := t.names[j];
      if n in s.names {
        assert !Known(s.names, name);
      } else {
        var k :| 0 <= k < |s.txns| && s.txns[k].name == n;
        assert s.txns[k].name != s.txns[i].name;
      }
    }
  }

  lemma ActSound(s: Sys, t: Sys, i: nat)
    requires Sound(s, t) && !Danger(s) && i < |t.txns| && Act(t, i).Some?
    ensures Sound(s, Act(t, i).value)
  {
    var name := t.txns[i].name;
    if t.txns[i].phase.Checked? {
      if name !in t.names {
        WriteStaysApart(s, t, i);
        assert s.txns[i].name == name;
      }
    } else {
      assert Known(s.names, name) ==> Known(t.names, name);
    }
  }

  lemma {:induction false} RunSound(s: Sys, t: Sys, schedule: seq<nat>)
    requires Sound(s, t) && !Danger(s)
    ensures Sound(s, Run(t, schedule))
    decreases |schedule|
  {
    if schedule != [] {
      if schedule[0] < |t.txns| && Act(t, schedule[0]).Some? {
        ActSound(s, t, schedule[0]);
      }
      RunSound(s, Next(t, schedule[0]), schedule[1..]);
    }
  }

  // ----- with danger

  lemma RunOne(s: Sys, i: nat, rest: seq<nat>)
    ensures Run(s, [i] + rest) == Run(Next(s, i), rest)
  {
    assert ([i] + rest)[1..] == rest;
  }

  lemma FourSteps(s: Sys, a: nat, b: nat, c: nat, d: nat)
    ensures Run(s, [a, b, c, d]) == Next(Next(Next(Next(s, a), b), c), d)
  {
    var s1, s2, s3 := Next(s, a), Next(Next(s, a), b), Next(Next(Next(s, a), b), c);
    assert [a, b, c, d] == [a] + [b, c, d] && [b, c, d] == [b] + [c, d] && [c, d] == [c] + [d] && [d] == [d] + [];
    RunOne(s, a, [b, c, d]);
    RunOne(s1, b, [c, d]);
    RunOne(s2, c, [d]);
    RunOne(s3, d, []);
  }

  lemma NotApart(names: seq<string>, i: nat, j: nat)
    requires i < j < |names| && Lower(names[i]) == Lower(names[j])
    ensures !Apart(names)
  {
  }

  lemma BothPass(s: Sys, i: nat, j: nat) returns (schedule: seq<nat>)
    requires Init(s) && i < |s.txns| && j < |s.txns| && s.txns[i].name != s.txns[j].name
    requires Lower(s.txns[i].name) == Lower(s.txns[j].name) && !Known(s.names, s.txns[i].name)
    ensures !Apart(Run(s, schedule).names)
  {
    schedule := [i, j, i, j];
    FourSteps(s, i, j, i, j);
    var a, b := s.txns[i].name, s.txns[j].name;
    assert !Known(s.names, b);
    var s2 := Goto(Goto(s, i, Checked), j, Checked);
    assert Next(Next(s, i), j) == s2;
    assert a !in s.names && b !in s.names;
    var s4 := Next(Next(s2, i), j);
    assert s4.names == s.names + [a] + [b];
    var n := |s.names|;
    assert s4.names[n] == a && s4.names[n + 1] == b && 0 <= n < n + 1 < |s4.names|;
    NotApart(s4.names, n, n + 1);
  }

  /** Ledger names stay different without regard to case under every interleaving if and only if no two
      requests want one unknown name in different letters. */
  lemma NamesStayApartIff(s: Sys)
    requires Init(s)
    ensures (forall schedule :: Apart(Run(s, schedule).names)) <==> !Danger(s)
  {
    if Danger(s) {
      var i, j :| 0 <= i < |s.txns| && 0 <= j < |s.txns| && s.txns[i].name != s.txns[j].name
        && Lower(s.txns[i].name) == Lower(s.txns[j].name) && !Known(s.names, s.txns[i].name);
      var schedule := BothPass(s, i, j);
    } else {
      forall schedule
        ensures Apart(Run(s, schedule).names)
      {
        RunSound(s, s, schedule);
      }
    }
  }

  const TWO_RENTS := Sys([], [Txn("Rent", Waiting), Txn("rent", Waiting)])

  /** Two requests, for "Rent" and for "rent", can both go through. */
  lemma NamesCanCollide()
    ensures Init(TWO_RENTS) && exists schedule :: !Apart(Run(TWO_RENTS, schedule).names)
  {
    var s := TWO_RENTS;
    LowerOfRent();
    assert s.txns[0].name != s.txns[1].name;
    assert Danger(s);
    NamesStayApartIff(s);
  }

  lemma LowerOfRent()
    ensures Lower("Rent") == Lower("rent") == "rent" && "Rent" != "rent"
  {
    assert "Rent"[0] != "rent"[0];
    assert Lower("Rent") == "rent" && Lower("rent") == "rent";
  }
}
