/** A deposit is checked against the start of its ledger, and a change of the start against the
    recorded deposits, before either writes, and no lock or constraint ties the two: exactly when a
    deposit can end up before the start of its ledger. */
module DepositRace {
  import opened Tables

  type Id = nat

  /** What is asked of one ledger. A deposit records one date, a bulk of deposits several. */
  datatype Job =
    | Deposit(dates: seq<int>)
    | Move(id: Id, date: int)
    | Remove(id: Id)
    | ChangeStart(start: int)

  datatype Phase = Waiting | Checked | Finished

  datatype Txn = Txn(job: Job, phase: Phase)

  /** The start of the ledger, the closed business dates, and the dates of its deposits. */
  datatype Sys = Sys(start: int, closed: set<int>, rows: map<Id, int>, txns: seq<Txn>)

  // ----- steps

  function Goto(s: Sys, i: nat, phase: Phase): Sys
    requires i < |s.txns|
  {
    s.(txns := s.txns[i := s.txns[i].(phase := phase)])
  }

  predicate Eligible(s: Sys, dates: seq<int>)
  {
    dates != [] && Distinct(dates) && forall d | d in dates :: s.start <= d && d in s.closed
  }

  predicate PassesCheck(s: Sys, job: Job)
  {
    match job
    case Deposit(dates) => Eligible(s, dates)
    case Move(id, date) => id in s.rows && Eligible(s, [date])
    case Remove(_) => false
    case ChangeStart(start) => forall x | x in s.rows :: start <= s.rows[x]
  }

  /** Some other row already holds one of the dates. */
  predicate Taken(rows: map<Id, int>, dates: seq<int>, own: Option<Id>)
  {
    exists x | x in rows :: rows[x] in dates && own != Some(x)
  }

  predicate Names(job: Job, id: Id)
  {
    (job.Move? || job.Remove?) && job.id == id
  }

  /** Row ids are generated: not in use, and unknown to any client. */
  predicate Fresh(s: Sys, firstId: Id)
  {
    && (forall x | x in s.rows :: x < firstId)
    && (forall k | 0 <= k < |s.txns| && (s.txns[k].job.Move? || s.txns[k].job.Remove?) ::
          s.txns[k].job.id < firstId)
  }

  function Insert(rows: map<Id, int>, dates: seq<int>, firstId: Id): (after: map<Id, int>)
    requires forall x | x in rows :: x < firstId
    ensures forall x | x in rows :: x in after && after[x] == rows[x]
    ensures forall x | x in after && x !in rows :: firstId <= x && after[x] in dates
    ensures forall d | d in dates :: exists x | x in after :: after[x] == d
    decreases |dates|
  {
    if dates == [] then rows
    else
      var all := Insert(rows[firstId := dates[0]], dates[1..], firstId + 1);
      assert all[firstId] == dates[0];
      assert forall d | d in dates :: d == dates[0] || d in dates[1..];
      all
  }

  /** The write of a request that has passed its check; a date in use is refused by its unique index. */
  function Write(s: Sys, job: Job, firstId: Id): Sys
    requires Fresh(s, firstId)
  {
    match job
    case Deposit(dates) =>
      if Taken(s.rows, dates, None) then s else s.(rows := Insert(s.rows, dates, firstId))
    case Move(id, date) =>
      if id !in s.rows || Taken(s.rows, [date], Some(id)) then s else s.(rows := s.rows[id := date])
    case ChangeStart(start) => s.(start := start)
    case Remove(_) => s
  }

  /** One step of request `i`; a removal is a single statement. */
  function Act(s: Sys, i: nat, firstId: Id): Option<Sys>
    requires i < |s.txns|
  {
    var t := s.txns[i];
    match t.phase
    case Waiting =>
      if t.job.Remove? then Some(Goto(s.(rows := s.rows - {t.job.id}), i, Finished))
      else Some(Goto(s, i, if PassesCheck(s, t.job) then Checked else Finished))
    case Checked =>
      if Fresh(s, firstId) then Some(Goto(Write(s, t.job, firstId), i, Finished)) else None
    case Finished => None
  }

  datatype Pick = Pick(txn: nat, firstId: Id)

  function Next(s: Sys, p: Pick): Sys
  {
    if p.txn < |s.txns| && Act(s, p.txn, p.firstId).Some? then Act(s, p.txn, p.firstId).value else s
  }

  function Run(s: Sys, schedule: seq<Pick>): Sys
    decreases |schedule|
  {
    if schedule == [] then s else Run(Next(s, schedule[0]), schedule[1..])
  }

  /** Every deposit lies on or after the start of its ledger. */
  predicate FollowsStart(s: Sys)
  {
    forall x | x in s.rows :: s.start <= s.rows[x]
  }

  predicate Init(s: Sys)
  {
    FollowsStart(s) && forall k | 0 <= k < |s.txns| :: s.txns[k].phase.Waiting?
  }

  // ----- when two requests can miss each other

  function Targets(job: Job): seq<int>
  {
    match job
    case Deposit(dates) => dates
    case Move(_, date) => [date]
    case _ => []
  }

  function Own(job: Job): Option<Id>
  {
    if job.Move? then Some(job.id) else None
  }

  /** The start allows the dates now, or another request would let it. */
  predicate Allowed(s: Sys, dates: seq<int>)
  {
    || (forall d | d in dates :: s.start <= d)
    || exists k | 0 <= k < |s.txns| ::
         s.txns[k].job.ChangeStart? && forall d | d in dates :: s.txns[k].job.start <= d
  }

  /** The dates are closed and allowed, and one of them lies before the new start. */
  predicate Collide(s: Sys, job: Job, start: int)
  {
    && Targets(job) != [] && Distinct(Targets(job)) && Allowed(s, Targets(job))
    && (forall d | d in Targets(job) :: d in s.closed)
    && (exists d | d in Targets(job) :: d < start)
    && (job.Move? ==> job.id in s.rows)
  }

  /** A recorded deposit that refuses the new start, or holds one of the dates. */
  predicate InTheWay(s: Sys, job: Job, start: int, x: Id)
  {
    x in s.rows && (s.rows[x] < start || (s.rows[x] in Targets(job) && Own(job) != Some(x)))
  }

  predicate BeingRemoved(s: Sys, x: Id)
  {
    exists k | 0 <= k < |s.txns| :: s.txns[k].job == Remove(x)
  }

  predicate BeingRemovedOrMoved(s: Sys, x: Id)
  {
    exists k | 0 <= k < |s.txns| :: Names(s.txns[k].job, x)
  }

  /** A deposit or move and a change of start that can miss each other: nothing recorded is in the
      way but what other requests remove. */
  ghost predicate Danger(s: Sys)
  {
    exists i, j | 0 <= i < |s.txns| && 0 <= j < |s.txns| && s.txns[j].job.ChangeStart? ::
      && Collide(s, s.txns[i].job, s.txns[j].job.start)
      && forall x | InTheWay(s, s.txns[i].job, s.txns[j].job.start, x) :: BeingRemoved(s, x)
  }

  /** The same, but for what other requests remove or move. */
  predicate MissEachOther(s: Sys, job: Job, start: int)
  {
    Collide(s, job, start) && forall x | x in s.rows && InTheWay(s, job, start, x) :: BeingRemovedOrMoved(s, x)
  }

  predicate NoneMissEachOther(s: Sys)
  {
    forall i, j | 0 <= i < |s.txns| && 0 <= j < |s.txns| && s.txns[j].job.ChangeStart? ::
      !MissEachOther(s, s.txns[i].job, s.txns[j].job.start)
  }

  // ----- without danger

  predicate SameRequests(s: Sys, t: Sys)
  {
    && |t.txns| == |s.txns| && t.closed == s.closed
    && forall k | 0 <= k < |s.txns| :: t.txns[k].job == s.txns[k].job
  }

  /** A row recorded at the beginning is where it was unless some request is about it, and no request
      is about a row recorded since. */
  predicate RowsFollow(s: Sys, t: Sys)
  {
    && (forall x | x in s.rows && !BeingRemovedOrMoved(s, x) :: x in t.rows && t.rows[x] == s.rows[x])
    && (forall x | x in t.rows && BeingRemovedOrMoved(s, x) :: x in s.rows)
  }

  /** Every deposit recorded before a date is being removed or moved. */
  predicate Cleared(s: Sys, start: int)
  {
    forall x | x in s.rows && s.rows[x] < start :: BeingRemovedOrMoved(s, x)
  }

  predicate DepositReady(s: Sys, job: Job)
  {
    && Targets(job) != [] && Distinct(Targets(job)) && Allowed(s, Targets(job))
    && (forall d | d in Targets(job) :: d in s.closed)
    && (job.Move? ==> job.id in s.rows)
  }

  predicate CheckedSound(s: Sys, t: Sys, job: Job)
  {
    if job.ChangeStart? then Cleared(s, job.start) && forall x | x in t.rows :: job.start <= t.rows[x]
    else !job.Remove? && DepositReady(s, job)
  }

  predicate StartSound(s: Sys, t: Sys)
  {
    || (t.start == s.start
        && forall k | 0 <= k < |t.txns| && t.txns[k].phase.Checked? ::
             forall d | d in Targets(t.txns[k].job) :: s.start <= d)
    || (Cleared(s, t.start) && exists k | 0 <= k < |s.txns| :: s.txns[k].job == ChangeStart(t.start))
  }

  predicate Sound(s: Sys, t: Sys)
  {
    && SameRequests(s, t) && RowsFollow(s, t) && FollowsStart(t) && StartSound(s, t)
    && forall k | 0 <= k < |t.txns| && t.txns[k].phase.Checked? :: CheckedSound(s, t, t.txns[k].job)
  }

  lemma InitSound(s: Sys)
    requires Init(s)
    ensures Sound(s, s)
  {
  }

  /** Where a deposit or move writes, it misses no change of start that has been checked or made. */
  lemma WriteMisses(s: Sys, t: Sys, job: Job, start: int, d: int)
    requires RowsFollow(s, t) && DepositReady(s, job) && Cleared(s, start)
    requires !Taken(t.rows, Targets(job), Own(job)) && d in Targets(job) && d < start
    ensures MissEachOther(s, job, start)
  {
    forall x | x in s.rows && !BeingRemovedOrMoved(s, x)
      ensures start <= s.rows[x] && (Own(job) != Some(x) ==> s.rows[x] !in Targets(job))
    {
      assert t.rows[x] == s.rows[x];
    }
  }

  lemma CurrentStartAllows(s: Sys, t: Sys, dates: seq<int>)
    requires StartSound(s, t) && forall d | d in dates :: t.start <= d
    ensures Allowed(s, dates)
  {
  }

  lemma CheckSound(s: Sys, t: Sys, i: nat)
    requires Sound(s, t) && i < |t.txns| && PassesCheck(t, t.txns[i].job)
    ensures CheckedSound(s, t, t.txns[i].job)
    ensures !t.txns[i].job.ChangeStart? ==> forall d | d in Targets(t.txns[i].job) :: t.start <= d
  {
    var job := t.txns[i].job;
    if job.ChangeStart? {
      forall x | x in s.rows && !BeingRemovedOrMoved(s, x)
        ensures job.start <= s.rows[x]
      {
        assert t.rows[x] == s.rows[x];
      }
    } else {
      CurrentStartAllows(s, t, Targets(job));
      assert job.Move? ==> Names(s.txns[i].job, job.id);
    }
  }

  lemma WaitingStep(s: Sys, t: Sys, i: nat, firstId: Id)
    requires Sound(s, t) && i < |t.txns| && t.txns[i].phase.Waiting? && !t.txns[i].job.Remove?
    ensures Sound(s, Act(t, i, firstId).value)
  {
    if PassesCheck(t, t.txns[i].job) {
      CheckSound(s, t, i);
    }
  }

  lemma RemovalStep(s: Sys, t: Sys, i: nat, firstId: Id)
    requires Sound(s, t) && i < |t.txns| && t.txns[i].phase.Waiting? && t.txns[i].job.Remove?
    ensures Sound(s, Act(t, i, firstId).value)
  {
    assert Names(s.txns[i].job, t.txns[i].job.id);
  }

  lemma ChangeStartStep(s: Sys, t: Sys, i: nat, firstId: Id)
    requires Sound(s, t) && i < |t.txns| && t.txns[i].phase.Checked? && t.txns[i].job.ChangeStart?
    requires Fresh(t, firstId)
    ensures Sound(s, Act(t, i, firstId).value)
  {
    assert CheckedSound(s, t, t.txns[i].job);
    assert s.txns[i].job == ChangeStart(t.txns[i].job.start);
  }

  /** What a deposit or move leaves behind. */
  predicate Wrote(t: Sys, job: Job, after: map<Id, int>)
  {
    && (forall x | x in after && (x !in t.rows || after[x] != t.rows[x]) :: after[x] in Targets(job))
    && (forall x | x in t.rows && Own(job) != Some(x) :: x in after && after[x] == t.rows[x])
  }

  lemma WriteWrites(t: Sys, job: Job, firstId: Id)
    requires Fresh(t, firstId) && (job.Deposit? || job.Move?)
    ensures Write(t, job, firstId) == t.(rows := Write(t, job, firstId).rows)
    ensures Wrote(t, job, Write(t, job, firstId).rows)
    ensures Write(t, job, firstId) != t ==> !Taken(t.rows, Targets(job), Own(job))
    ensures forall x | x in Write(t, job, firstId).rows && x !in t.rows :: firstId <= x
  {
  }

  lemma DepositRowsFollow(s: Sys, t: Sys, i: nat, firstId: Id)
    requires SameRequests(s, t) && RowsFollow(s, t) && Fresh(t, firstId) && i < |t.txns|
    requires t.txns[i].job.Deposit? || t.txns[i].job.Move?
    ensures RowsFollow(s, Write(t, t.txns[i].job, firstId))
  {
    var job := t.txns[i].job;
    WriteWrites(t, job, firstId);
    assert forall x | Own(job) == Some(x) :: Names(s.txns[i].job, x);
    forall x | x in Write(t, job, firstId).rows && BeingRemovedOrMoved(s, x)
      ensures x in s.rows
    {
      var k :| 0 <= k < |s.txns| && Names(s.txns[k].job, x);
      assert t.txns[k].job.id < firstId;
    }
  }

  /** No written date lies before the start, or before a start that has been checked. */
  lemma WrittenFollow(s: Sys, t: Sys, i: nat, d: int, start: int, j: nat)
    requires Sound(s, t) && NoneMissEachOther(s) && i < |t.txns| && t.txns[i].phase.Checked?
    requires t.txns[i].job.Deposit? || t.txns[i].job.Move?
    requires !Taken(t.rows, Targets(t.txns[i].job), Own(t.txns[i].job)) && d in Targets(t.txns[i].job)
    requires j < |s.txns| && s.txns[j].job == ChangeStart(start) && Cleared(s, start)
    ensures start <= d
  {
    assert CheckedSound(s, t, t.txns[i].job);
    if d < start {
      WriteMisses(s, t, t.txns[i].job, start, d);
    }
  }

  lemma WrittenFollowStart(s: Sys, t: Sys, i: nat, d: int)
    requires Sound(s, t) && NoneMissEachOther(s) && i < |t.txns| && t.txns[i].phase.Checked?
    requires t.txns[i].job.Deposit? || t.txns[i].job.Move?
    requires !Taken(t.rows, Targets(t.txns[i].job), Own(t.txns[i].job)) && d in Targets(t.txns[i].job)
    ensures t.start <= d
  {
    if t.start > d {
      var j :| 0 <= j < |s.txns| && s.txns[j].job == ChangeStart(t.start) && Cleared(s, t.start);
      WrittenFollow(s, t, i, d, t.start, j);
    }
  }

  lemma AfterFollowsStart(s: Sys, t: Sys, i: nat, firstId: Id)
    requires Sound(s, t) && NoneMissEachOther(s) && i < |t.txns| && t.txns[i].phase.Checked?
    requires (t.txns[i].job.Deposit? || t.txns[i].job.Move?) && Fresh(t, firstId)
    requires Write(t, t.txns[i].job, firstId) != t
    ensures FollowsStart(Write(t, t.txns[i].job, firstId))
  {
    var after := Write(t, t.txns[i].job, firstId);
    WriteWrites(t, t.txns[i].job, firstId);
    forall x | x in after.rows
      ensures t.start <= after.rows[x]
    {
      if x !in t.rows || after.rows[x] != t.rows[x] {
        WrittenFollowStart(s, t, i, after.rows[x]);
      }
    }
  }

  lemma CheckedStays(s: Sys, t: Sys, i: nat, firstId: Id, k: nat)
    requires Sound(s, t) && NoneMissEachOther(s) && i < |t.txns| && t.txns[i].phase.Checked?
    requires (t.txns[i].job.Deposit? || t.txns[i].job.Move?) && Fresh(t, firstId)
    requires Write(t, t.txns[i].job, firstId) != t
    requires k < |t.txns| && t.txns[k].phase.Checked?
    ensures CheckedSound(s, Write(t, t.txns[i].job, firstId), t.txns[k].job)
  {
    var job := t.txns[k].job;
    var after := Write(t, t.txns[i].job, firstId);
    WriteWrites(t, t.txns[i].job, firstId);
    assert CheckedSound(s, t, job);
    if job.ChangeStart? {
      forall x | x in after.rows
        ensures job.start <= after.rows[x]
      {
        if x !in t.rows || after.rows[x] != t.rows[x] {
          WrittenFollow(s, t, i, after.rows[x], job.start, k);
        }
      }
    }
  }

  lemma FinishKeeps(s: Sys, t: Sys, i: nat)
    requires Sound(s, t) && i < |t.txns|
    ensures Sound(s, Goto(t, i, Finished))
  {
  }

  lemma WriteSound(s: Sys, t: Sys, i: nat, firstId: Id)
    requires Sound(s, t) && NoneMissEachOther(s) && i < |t.txns| && t.txns[i].phase.Checked?
    requires (t.txns[i].job.Deposit? || t.txns[i].job.Move?) && Fresh(t, firstId)
    requires Write(t, t.txns[i].job, firstId) != t
    ensures Sound(s, Write(t, t.txns[i].job, firstId))
  {
    var after := Write(t, t.txns[i].job, firstId);
    WriteWrites(t, t.txns[i].job, firstId);
    DepositRowsFollow(s, t, i, firstId);
    AfterFollowsStart(s, t, i, firstId);
    forall k | 0 <= k < |t.txns| && t.txns[k].phase.Checked?
      ensures CheckedSound(s, after, t.txns[k].job)
    {
      CheckedStays(s, t, i, firstId, k);
    }
  }

  lemma DepositStep(s: Sys, t: Sys, i: nat, firstId: Id)
    requires Sound(s, t) && NoneMissEachOther(s) && i < |t.txns| && t.txns[i].phase.Checked?
    requires (t.txns[i].job.Deposit? || t.txns[i].job.Move?) && Fresh(t, firstId)
    ensures Sound(s, Act(t, i, firstId).value)
  {
    var after := Write(t, t.txns[i].job, firstId);
    if after != t {
      WriteSound(s, t, i, firstId);
    }
    FinishKeeps(s, after, i);
  }

  lemma ActSound(s: Sys, t: Sys, i: nat, firstId: Id)
    requires Sound(s, t) && NoneMissEachOther(s) && i < |t.txns| && Act(t, i, firstId).Some?
    ensures Sound(s, Act(t, i, firstId).value)
  {
    assert t.txns[i].phase.Checked? ==> CheckedSound(s, t, t.txns[i].job);
    if t.txns[i].phase.Waiting? {
      if t.txns[i].job.Remove? {
        RemovalStep(s, t, i, firstId);
      } else {
        WaitingStep(s, t, i, firstId);
      }
    } else if t.txns[i].job.ChangeStart? {
      ChangeStartStep(s, t, i, firstId);
    } else {
      DepositStep(s, t, i, firstId);
    }
  }

  lemma {:induction false} RunSound(s: Sys, t: Sys, schedule: seq<Pick>)
    requires Sound(s, t) && NoneMissEachOther(s)
    ensures Sound(s, Run(t, schedule))
    decreases |schedule|
  {
    if schedule != [] {
      var p := schedule[0];
      if p.txn < |t.txns| && Act(t, p.txn, p.firstId).Some? {
        ActSound(s, t, p.txn, p.firstId);
      }
      RunSound(s, Next(t, p), schedule[1..]);
    }
  }

  /** Whatever is moved or removed meanwhile: unless a closed and allowed date lies before a new start
      that everything recorded makes way for, deposits follow the start under every interleaving. */
  lemma DepositsFollowStart(s: Sys, schedule: seq<Pick>)
    requires Init(s) && NoneMissEachOther(s)
    ensures FollowsStart(Run(s, schedule))
  {
    InitSound(s);
    RunSound(s, s, schedule);
  }

  // ----- with danger

  lemma RunOne(s: Sys, p: Pick, rest: seq<Pick>)
    ensures Run(s, [p] + rest) == Run(Next(s, p), rest)
  {
    assert ([p] + rest)[1..] == rest;
  }

  lemma TwoPicks(s: Sys, p: Pick, q: Pick)
    ensures Run(s, [p, q]) == Next(Next(s, p), q)
  {
    assert [p, q] == [p] + ([q] + []);
    RunOne(s, p, [q] + []);
    RunOne(Next(s, p), q, []);
  }

  lemma {:induction false} RunInTwo(s: Sys, first: seq<Pick>, second: seq<Pick>)
    ensures Run(s, first + second) == Run(Run(s, first), second)
    decreases |first|
  {
    if first == [] {
      assert first + second == second;
    } else {
      assert (first + second)[1..] == first[1..] + second;
      RunInTwo(Next(s, first[0]), first[1..], second);
    }
  }

  lemma {:induction false} IdAbove(ids: set<Id>) returns (id: Id)
    ensures forall x | x in ids :: x < id
  {
    if ids == {} {
      id := 0;
    } else {
      var x :| x in ids;
      id := IdAbove(ids - {x});
      id := if x >= id then x + 1 else id;
      assert ids == (ids - {x}) + {x};
    }
  }

  lemma FreshId(s: Sys) returns (id: Id)
    ensures Fresh(s, id)
  {
    var named := set k | 0 <= k < |s.txns| && (s.txns[k].job.Move? || s.txns[k].job.Remove?) :: s.txns[k].job.id;
    id := IdAbove(s.rows.Keys + named);
    forall k | 0 <= k < |s.txns| && (s.txns[k].job.Move? || s.txns[k].job.Remove?)
      ensures s.txns[k].job.id < id
    {
      assert s.txns[k].job.id in named;
    }
  }

  /** Nothing but rows went, and none that is to be kept; the requests that do not remove have not begun. */
  predicate OnlyRemoved(s: Sys, t: Sys, keep: Option<Id>)
  {
    && SameRequests(s, t) && t.start == s.start
    && (forall x | x in t.rows :: x in s.rows && t.rows[x] == s.rows[x])
    && (forall x | x in s.rows && keep == Some(x) :: x in t.rows)
    && (forall k | 0 <= k < |s.txns| && !s.txns[k].job.Remove? :: t.txns[k] == s.txns[k])
  }

  predicate Gone(s: Sys, t: Sys, n: nat, keep: Option<Id>)
  {
    forall k | 0 <= k < n <= |s.txns| && s.txns[k].job.Remove? && Some(s.txns[k].job.id) != keep ::
      s.txns[k].job.id !in t.rows
  }

  lemma RemoveOne(s: Sys, i: nat, keep: Option<Id>)
    requires i < |s.txns| && s.txns[i].job.Remove? && Some(s.txns[i].job.id) != keep
    requires s.txns[i].phase.Waiting?
    ensures var t := Next(s, Pick(i, 0));
      && t == Goto(s.(rows := s.rows - {s.txns[i].job.id}), i, Finished)
      && OnlyRemoved(s, t, keep) && s.txns[i].job.id !in t.rows
  {
  }

  lemma RemovedTwice(s: Sys, t: Sys, u: Sys, keep: Option<Id>)
    requires OnlyRemoved(s, t, keep) && OnlyRemoved(t, u, keep)
    ensures OnlyRemoved(s, u, keep)
  {
  }

  /** The removals among the first `n` requests run, but for that of a row to be kept. */
  lemma {:induction false} RemoveAll(s: Sys, n: nat, keep: Option<Id>) returns (schedule: seq<Pick>)
    requires n <= |s.txns|
    requires forall k | 0 <= k < n && s.txns[k].job.Remove? :: s.txns[k].phase.Waiting?
    ensures OnlyRemoved(s, Run(s, schedule), keep) && Gone(s, Run(s, schedule), n, keep)
    decreases n
  {
    if n == 0 {
      schedule := [];
    } else if s.txns[n - 1].job.Remove? && Some(s.txns[n - 1].job.id) != keep {
      var p := Pick(n - 1, 0);
      RemoveOne(s, n - 1, keep);
      var rest := RemoveAll(Next(s, p), n - 1, keep);
      schedule := [p] + rest;
      RunOne(s, p, rest);
      RemovedTwice(s, Next(s, p), Run(s, schedule), keep);
    } else {
      schedule := RemoveAll(s, n - 1, keep);
    }
  }

  /** A start that allows the dates can be in force. */
  lemma MakeAllowed(s: Sys, dates: seq<int>) returns (schedule: seq<Pick>, t: Sys)
    requires Init(s) && Allowed(s, dates)
    ensures t == Run(s, schedule)
    ensures t.rows == s.rows && SameRequests(s, t) && forall d | d in dates :: t.start <= d
    ensures forall k | 0 <= k < |s.txns| ::
      t.txns[k] == s.txns[k] || (s.txns[k].job.ChangeStart? && forall d | d in dates :: s.txns[k].job.start <= d)
  {
    if forall d | d in dates :: s.start <= d {
      schedule, t := [], s;
    } else {
      var k :| 0 <= k < |s.txns| && s.txns[k].job.ChangeStart? && forall d | d in dates :: s.txns[k].job.start <= d;
      var id := FreshId(s);
      var p := Pick(k, id);
      schedule := [p, p];
      t := Next(Next(s, p), p);
      assert Next(s, p) == Goto(s, k, Checked);
      TwoPicks(s, p, p);
    }
  }

  /** Both requests pass their checks before either writes. */
  lemma BothPass(s: Sys, i: nat, j: nat, d: int) returns (schedule: seq<Pick>)
    requires i < |s.txns| && j < |s.txns| && s.txns[i].phase.Waiting? && s.txns[j].phase.Waiting?
    requires (s.txns[i].job.Deposit? || s.txns[i].job.Move?) && s.txns[j].job.ChangeStart?
    requires PassesCheck(s, s.txns[i].job) && PassesCheck(s, s.txns[j].job)
    requires !Taken(s.rows, Targets(s.txns[i].job), Own(s.txns[i].job))
    requires d in Targets(s.txns[i].job) && d < s.txns[j].job.start
    ensures !FollowsStart(Run(s, schedule))
  {
    var s1 := Goto(s, i, Checked);
    var s2 := Goto(s1, j, Checked);
    var id := FreshId(s2);
    var p, q := Pick(i, id), Pick(j, id);
    assert Next(s, p) == s1 && Next(s1, q) == s2;
    var s3 := Next(s2, p);
    var x := DateIsWritten(s2, i, id, d);
    var far := FreshId(s3);
    var last := Next(s3, Pick(j, far));
    assert last.rows == s3.rows && last.start == s.txns[j].job.start;
    schedule := [p, q] + [p, Pick(j, far)];
    TwoPicks(s, p, q);
    TwoPicks(s2, p, Pick(j, far));
    RunInTwo(s, [p, q], [p, Pick(j, far)]);
  }

  lemma DateIsWritten(s: Sys, i: nat, id: Id, d: int) returns (x: Id)
    requires i < |s.txns| && s.txns[i].phase.Checked? && Fresh(s, id)
    requires s.txns[i].job.Deposit? || (s.txns[i].job.Move? && s.txns[i].job.id in s.rows)
    requires !Taken(s.rows, Targets(s.txns[i].job), Own(s.txns[i].job)) && d in Targets(s.txns[i].job)
    ensures var t := Next(s, Pick(i, id));
      x in t.rows && t.rows[x] == d && t.txns == s.txns[i := t.txns[i]]
  {
    var t := Next(s, Pick(i, id));
    if s.txns[i].job.Move? {
      x := s.txns[i].job.id;
    } else {
      x :| x in t.rows && t.rows[x] == d;
    }
  }

  /** No recorded deposit that some request moves lies before a new start or on a date another request
      asks for; so moving it away makes way for nobody. */
  predicate MovesAside(s: Sys)
  {
    forall i, j | 0 <= i < |s.txns| && 0 <= j < |s.txns| && s.txns[i].job.Move? && s.txns[i].job.id in s.rows ::
      var x := s.txns[i].job.id;
      && (s.txns[j].job.ChangeStart? ==> s.txns[j].job.start <= s.rows[x])
      && (s.rows[x] in Targets(s.txns[j].job) ==> Own(s.txns[j].job) == Some(x))
  }

  lemma RemovedRatherThanMoved(s: Sys, i: nat, j: nat, x: Id)
    requires MovesAside(s) && i < |s.txns| && j < |s.txns| && s.txns[j].job.ChangeStart?
    requires InTheWay(s, s.txns[i].job, s.txns[j].job.start, x) && BeingRemovedOrMoved(s, x)
    ensures BeingRemoved(s, x)
  {
    var k :| 0 <= k < |s.txns| && Names(s.txns[k].job, x);
    assert s.txns[k].job == Remove(x);
  }

  lemma WayIsFree(s: Sys, u: Sys, i: nat, j: nat)
    requires MovesAside(s) && i < |s.txns| && j < |s.txns| && s.txns[j].job.ChangeStart?
    requires forall x | InTheWay(s, s.txns[i].job, s.txns[j].job.start, x) :: BeingRemoved(s, x)
    requires OnlyRemoved(s.(start := u.start, txns := u.txns), u, Own(s.txns[i].job)) && |u.txns| == |s.txns|
    requires Gone(s, u, |s.txns|, Own(s.txns[i].job))
    ensures forall x | x in u.rows :: s.txns[j].job.start <= u.rows[x]
    ensures !Taken(u.rows, Targets(s.txns[i].job), Own(s.txns[i].job))
  {
    forall x | InTheWay(s, s.txns[i].job, s.txns[j].job.start, x)
      ensures x !in u.rows || Own(s.txns[i].job) == Some(x)
    {
      var k :| 0 <= k < |s.txns| && s.txns[k].job == Remove(x);
    }
    forall x | x in u.rows
      ensures s.txns[j].job.start <= u.rows[x]
    {
      assert InTheWay(s, s.txns[i].job, s.txns[j].job.start, x) || s.txns[j].job.start <= u.rows[x];
    }
  }

  lemma AllowedBreaks(s: Sys, t: Sys, i: nat, j: nat) returns (schedule: seq<Pick>)
    requires MovesAside(s) && i < |s.txns| && j < |s.txns| && s.txns[j].job.ChangeStart?
    requires Collide(s, s.txns[i].job, s.txns[j].job.start)
    requires forall x | InTheWay(s, s.txns[i].job, s.txns[j].job.start, x) :: BeingRemoved(s, x)
    requires t == s.(start := t.start, txns := t.txns) && SameRequests(s, t)
    requires forall d | d in Targets(s.txns[i].job) :: t.start <= d
    requires t.txns[i] == s.txns[i] && s.txns[i].phase.Waiting? && t.txns[j] == s.txns[j] && s.txns[j].phase.Waiting?
    requires forall k | 0 <= k < |s.txns| && s.txns[k].job.Remove? :: t.txns[k].phase.Waiting?
    ensures !FollowsStart(Run(t, schedule))
  {
    var job := s.txns[i].job;
    var d :| d in Targets(job) && d < s.txns[j].job.start;
    var removing := RemoveAll(t, |t.txns|, Own(job));
    var u := Run(t, removing);
    WayIsFree(s, u, i, j);
    var passing := BothPass(u, i, j, d);
    schedule := removing + passing;
    RunInTwo(t, removing, passing);
  }

  lemma DangerBreaks(s: Sys) returns (schedule: seq<Pick>)
    requires Init(s) && MovesAside(s) && Danger(s)
    ensures !FollowsStart(Run(s, schedule))
  {
    var i, j :| 0 <= i < |s.txns| && 0 <= j < |s.txns| && s.txns[j].job.ChangeStart?
      && Collide(s, s.txns[i].job, s.txns[j].job.start)
      && forall x | InTheWay(s, s.txns[i].job, s.txns[j].job.start, x) :: BeingRemoved(s, x);
    var allowing, t := MakeAllowed(s, Targets(s.txns[i].job));
    var rest := AllowedBreaks(s, t, i, j);
    schedule := allowing + rest;
    RunInTwo(s, allowing, rest);
  }

  /** Deposits follow the start of their ledger under every interleaving if and only if no request wants
      a deposit on a closed and allowed date before a start that another request sets, with nothing
      recorded in the way of either but what is being removed. */
  lemma DepositsFollowStartIff(s: Sys)
    requires Init(s) && MovesAside(s)
    ensures (forall schedule :: FollowsStart(Run(s, schedule))) <==> !Danger(s)
  {
    if Danger(s) {
      var schedule := DangerBreaks(s);
    } else {
      forall i, j | 0 <= i < |s.txns| && 0 <= j < |s.txns| && s.txns[j].job.ChangeStart?
        ensures !MissEachOther(s, s.txns[i].job, s.txns[j].job.start)
      {
        forall x | InTheWay(s, s.txns[i].job, s.txns[j].job.start, x) && BeingRemovedOrMoved(s, x)
          ensures BeingRemoved(s, x)
        {
          RemovedRatherThanMoved(s, i, j, x);
        }
      }
      forall schedule
        ensures FollowsStart(Run(s, schedule))
      {
        DepositsFollowStart(s, schedule);
      }
    }
  }

  /** A ledger that starts on day 1, a deposit for day 5, and a new start on day 10. */
  const DEPOSIT_AND_NEW_START := Sys(
    1, {5}, map[], [Txn(Deposit([5]), Waiting), Txn(ChangeStart(10), Waiting)])

  /** Both pass their checks, the start moves to day 10, and then the deposit of day 5 is recorded. */
  lemma DepositCanPrecedeStart()
    ensures Init(DEPOSIT_AND_NEW_START)
    ensures var t := Run(DEPOSIT_AND_NEW_START, [Pick(0, 0), Pick(1, 0), Pick(1, 0), Pick(0, 0)]);
      t.start == 10 && t.rows == map[0 := 5] && !FollowsStart(t)
  {
    var s := DEPOSIT_AND_NEW_START;
    var p, q := Pick(0, 0), Pick(1, 0);
    var s1 := Goto(s, 0, Checked);
    assert Next(s, p) == s1 && Next(s1, q) == Goto(s1, 1, Checked);
    var s3 := Goto(s1.(start := 10), 1, Finished);
    assert Next(Next(s1, q), q) == s3;
    var t := Next(s3, p);
    assert 0 in t.rows && t.rows[0] == 5;
    assert Insert(map[], [5], 0) == map[0 := 5] by {
      assert Insert(map[0 := 5], [5][1..], 1) == map[0 := 5];
    }
    TwoPicks(s, p, q);
    TwoPicks(Next(s1, q), q, p);
    RunInTwo(s, [p, q], [q, p]);
    assert [p, q] + [q, p] == [p, q, q, p];
  }
}
