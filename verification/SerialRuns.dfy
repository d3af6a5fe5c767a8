/** Every run of the ledger is a serial run of the concurrent protocol. */
module SerialRuns {
  import opened Tables
  import opened Store
  import opened Locking
  import opened LoneRuns
  import opened ProtocolTables
  import opened SerialRequests
  import Interleavings
  import Ledger
  import LedgerSteps
  import Progress

  /** The transactions of a run, one after the other. */
  function JobsOf(st: State, requests: seq<Request>): seq<Job>
    decreases |requests|
  {
    if requests == [] then []
    else
      (if JobOf(st, requests[0]).Some? then [JobOf(st, requests[0]).value] else [])
      + JobsOf(Ledger.Next(st, requests[0]), requests[1..])
  }

  function All(jobs: seq<Job>, phase: Phase): seq<Txn>
  {
    if jobs == [] then [] else [Txn(jobs[0], phase)] + All(jobs[1..], phase)
  }

  lemma {:induction false} AllAre(jobs: seq<Job>, phase: Phase)
    ensures |All(jobs, phase)| == |jobs|
    ensures forall t | t in All(jobs, phase) :: t.phase == phase
  {
    if jobs != [] {
      AllAre(jobs[1..], phase);
    }
  }

  lemma FirstOf(job: Job, rest: seq<Job>, phase: Phase)
    ensures All([job] + rest, phase) == [Txn(job, phase)] + All(rest, phase)
  {
    assert ([job] + rest)[1..] == rest;
  }

  lemma OneMoreDone(done: seq<Txn>, job: Job, rest: seq<Txn>)
    ensures var txns := done + ([Txn(job, Start)] + rest);
      && txns[|done|] == Txn(job, Start)
      && txns[|done| := Txn(job, Finished)] == done + [Txn(job, Finished)] + rest
  {
  }

  lemma IdleAround(st: State, done: seq<Txn>, jobs: seq<Job>)
    requires forall t | t in done :: t.phase.Finished?
    ensures Idle(System(st, done + All(jobs, Start)))
  {
    AllAre(jobs, Start);
    var txns := done + All(jobs, Start);
    forall k | 0 <= k < |txns|
      ensures txns[k].phase.Start? || txns[k].phase.Finished?
    {
      assert txns[k] in done || txns[k] in All(jobs, Start);
    }
  }

  lemma FirstRuns(st: State, r: Request, done: seq<Txn>, rest: seq<Job>) returns (first: seq<Pick>)
    requires Ledger.Inv(st) && JobOf(st, r).Some? && forall t | t in done :: t.phase.Finished?
    ensures var job := JobOf(st, r).value;
      Run(System(st, done + All([job] + rest, Start)), first)
      == System(Ledger.Next(st, r), done + [Txn(job, Finished)] + All(rest, Start))
    ensures OnlyOf(first, |done|)
  {
    var job := JobOf(st, r).value;
    FirstOf(job, rest, Start);
    OneMoreDone(done, job, All(rest, Start));
    IdleAround(st, done, [job] + rest);
    first := RequestRunsAlone(st, r, done + All([job] + rest, Start), |done|);
  }

  lemma JobsFirst(st: State, requests: seq<Request>)
    requires requests != []
    ensures JobsOf(st, requests)
      == (if JobOf(st, requests[0]).Some? then [JobOf(st, requests[0]).value] else [])
         + JobsOf(Ledger.Next(st, requests[0]), requests[1..])
    ensures Ledger.Run(st, requests) == Ledger.Run(Ledger.Next(st, requests[0]), requests[1..])
  {
  }

  lemma DoneFirst(done: seq<Txn>, job: Job, rest: seq<Job>)
    ensures done + [Txn(job, Finished)] + All(rest, Finished) == done + All([job] + rest, Finished)
  {
    FirstOf(job, rest, Finished);
  }

  lemma SameSystem(st: State, r: Request, txns: seq<Txn>)
    requires Ledger.Inv(st) && JobOf(st, r).None?
    ensures System(Ledger.Next(st, r), txns) == System(st, txns)
  {
    if Ledger.Next(st, r) != st {
      NoJobIs(st, r);
    }
  }

  /** After some that are done, the transactions of the requests run one after the other. */
  ghost predicate RunsAll(st: State, requests: seq<Request>, done: seq<Txn>, schedule: seq<Pick>)
  {
    Run(System(st, done + All(JobsOf(st, requests), Start)), schedule)
    == System(Ledger.Run(st, requests), done + All(JobsOf(st, requests), Finished))
  }

  lemma NoneToRun(st: State, done: seq<Txn>)
    ensures RunsAll(st, [], done, [])
  {
  }

  lemma SkipOne(st: State, requests: seq<Request>, done: seq<Txn>, schedule: seq<Pick>)
    requires requests != [] && JobOf(st, requests[0]).None?
    requires var after := Ledger.Next(st, requests[0]);
      var txns := done + All(JobsOf(after, requests[1..]), Start);
      System(after, txns) == System(st, txns) && RunsAll(after, requests[1..], done, schedule)
    ensures RunsAll(st, requests, done, schedule)
  {
    JobsSkip(st, requests);
  }

  lemma JobsSkip(st: State, requests: seq<Request>)
    requires requests != [] && JobOf(st, requests[0]).None?
    ensures JobsOf(st, requests) == JobsOf(Ledger.Next(st, requests[0]), requests[1..])
    ensures Ledger.Run(st, requests) == Ledger.Run(Ledger.Next(st, requests[0]), requests[1..])
  {
    JobsFirst(st, requests);
  }

  lemma Chain(a: Sys, b: Sys, c: Sys, first: seq<Pick>, more: seq<Pick>)
    requires Run(a, first) == b && Run(b, more) == c
    ensures Run(a, first + more) == c
  {
    Progress.RunInTwo(a, first, more);
  }

  lemma OneBefore(st: State, requests: seq<Request>, done: seq<Txn>, first: seq<Pick>, more: seq<Pick>)
    requires requests != [] && JobOf(st, requests[0]).Some?
    requires var job, after := JobOf(st, requests[0]).value, Ledger.Next(st, requests[0]);
      var rest := JobsOf(after, requests[1..]);
      && Run(System(st, done + All([job] + rest, Start)), first)
         == System(after, done + [Txn(job, Finished)] + All(rest, Start))
      && RunsAll(after, requests[1..], done + [Txn(job, Finished)], more)
    ensures RunsAll(st, requests, done, first + more)
  {
    var job, after := JobOf(st, requests[0]).value, Ledger.Next(st, requests[0]);
    var rest := JobsOf(after, requests[1..]);
    JobsFirst(st, requests);
    DoneFirst(done, job, rest);
    Chain(System(st, done + All([job] + rest, Start)),
          System(after, done + [Txn(job, Finished)] + All(rest, Start)),
          System(Ledger.Run(after, requests[1..]), done + [Txn(job, Finished)] + All(rest, Finished)), first, more);
  }

  lemma OneMoreFinished(done: seq<Txn>, job: Job)
    requires forall t | t in done :: t.phase.Finished?
    ensures forall t | t in done + [Txn(job, Finished)] :: t.phase.Finished?
  {
  }

  ghost predicate InTurns(st: State, requests: seq<Request>, done: seq<Txn>, schedule: seq<Pick>)
  {
    TakesTurns(System(st, done + All(JobsOf(st, requests), Start)), schedule)
  }

  lemma SkipTurn(st: State, requests: seq<Request>, done: seq<Txn>, schedule: seq<Pick>)
    requires requests != [] && JobOf(st, requests[0]).None?
    requires var after := Ledger.Next(st, requests[0]);
      var txns := done + All(JobsOf(after, requests[1..]), Start);
      System(after, txns) == System(st, txns) && InTurns(after, requests[1..], done, schedule)
    ensures InTurns(st, requests, done, schedule)
  {
    JobsSkip(st, requests);
  }

  lemma TurnFirst(a: Sys, b: Sys, i: nat, first: seq<Pick>, more: seq<Pick>)
    requires Run(a, first) == b && OnlyOf(first, i) && Idle(b) && TakesTurns(b, more)
    ensures TakesTurns(a, first + more)
  {
    TurnBefore(a, i, first, more);
  }

  lemma OneTurnBefore(st: State, requests: seq<Request>, done: seq<Txn>, first: seq<Pick>, more: seq<Pick>)
    requires requests != [] && JobOf(st, requests[0]).Some? && forall t | t in done :: t.phase.Finished?
    requires var job, after := JobOf(st, requests[0]).value, Ledger.Next(st, requests[0]);
      var rest := JobsOf(after, requests[1..]);
      && Run(System(st, done + All([job] + rest, Start)), first)
         == System(after, done + [Txn(job, Finished)] + All(rest, Start))
      && InTurns(after, requests[1..], done + [Txn(job, Finished)], more)
    requires OnlyOf(first, |done|)
    ensures InTurns(st, requests, done, first + more)
  {
    var job, after := JobOf(st, requests[0]).value, Ledger.Next(st, requests[0]);
    var rest := JobsOf(after, requests[1..]);
    JobsFirst(st, requests);
    OneMoreFinished(done, job);
    IdleAround(after, done + [Txn(job, Finished)], rest);
    TurnFirst(System(st, done + All([job] + rest, Start)),
              System(after, done + [Txn(job, Finished)] + All(rest, Start)), |done|, first, more);
  }

  lemma {:induction false} SerialFrom(st: State, requests: seq<Request>, done: seq<Txn>) returns (schedule: seq<Pick>)
    requires Ledger.Inv(st) && forall t | t in done :: t.phase.Finished?
    ensures RunsAll(st, requests, done, schedule) && InTurns(st, requests, done, schedule)
    decreases |requests|
  {
    if requests == [] {
      schedule := [];
      NoneToRun(st, done);
    } else {
      var r := requests[0];
      LedgerSteps.StepKeepsInv(st, r);
      if JobOf(st, r).None? {
        schedule := SerialFrom(Ledger.Next(st, r), requests[1..], done);
        SameSystem(st, r, done + All(JobsOf(Ledger.Next(st, r), requests[1..]), Start));
        SkipOne(st, requests, done, schedule);
        SkipTurn(st, requests, done, schedule);
      } else {
        var job := JobOf(st, r).value;
        var first := FirstRuns(st, r, done, JobsOf(Ledger.Next(st, r), requests[1..]));
        OneMoreFinished(done, job);
        var more := SerialFrom(Ledger.Next(st, r), requests[1..], done + [Txn(job, Finished)]);
        schedule := first + more;
        OneBefore(st, requests, done, first, more);
        OneTurnBefore(st, requests, done, first, more);
      }
    }
  }

  /** A schedule in which the transactions take turns leads from one state to another. */
  ghost predicate SerialTo(s: Sys, schedule: seq<Pick>, t: Sys)
  {
    TakesTurns(s, schedule) && Run(s, schedule) == t
  }

  lemma NothingBefore(st: State, requests: seq<Request>, schedule: seq<Pick>)
    requires RunsAll(st, requests, [], schedule) && InTurns(st, requests, [], schedule)
    ensures SerialTo(System(st, All(JobsOf(st, requests), Start)), schedule,
                     System(Ledger.Run(st, requests), All(JobsOf(st, requests), Finished)))
  {
    var jobs := JobsOf(st, requests);
    assert [] + All(jobs, Start) == All(jobs, Start) && [] + All(jobs, Finished) == All(jobs, Finished);
  }

  /** Every run of the ledger is a run of the protocol in which the transactions take turns, and both
      leave the same tables; whatever else the transactions do, they start from sound ones. */
  lemma LedgerRunsAreSerial(requests: seq<Request>)
    ensures var jobs := JobsOf(EMPTY, requests);
      && Interleavings.Init(System(EMPTY, All(jobs, Start)))
      && exists schedule ::
           SerialTo(System(EMPTY, All(jobs, Start)), schedule,
                    System(Ledger.Run(EMPTY, requests), All(jobs, Finished)))
  {
    var jobs := JobsOf(EMPTY, requests);
    LedgerSteps.EmptyInv();
    RowsAreSound(EMPTY, All(jobs, Start));
    AllAre(jobs, Start);
    var schedule := SerialFrom(EMPTY, requests, []);
    NothingBefore(EMPTY, requests, schedule);
  }
}
