/** Corrections of stock counts form disjoint chains; the count in force is the newest uncorrected
    one. */
module StockChains {
  import opened Tables
  import opened StockCounts

  // ----- the chains

  predicate Extends(counts: seq<StockCount>, i: nat, j: nat)
    requires i < |counts| && j < |counts|
  {
    counts[i].corrects == Some(counts[j].id)
  }

  predicate OneDayAndPhase(counts: seq<StockCount>, i: nat, j: nat)
    requires i < |counts| && j < |counts|
  {
    counts[i].date == counts[j].date && counts[i].phase == counts[j].phase
  }

  predicate HasTarget(counts: seq<StockCount>, i: nat)
    requires i < |counts|
  {
    exists j | 0 <= j < i :: Extends(counts, i, j)
  }

  /** Ids are unique; a correction names an earlier count of its day and phase, corrected by it alone. */
  predicate CountsSound(counts: seq<StockCount>)
  {
    && (forall i, j | 0 <= i < j < |counts| :: counts[i].id != counts[j].id)
    && (forall i | 0 <= i < |counts| && counts[i].corrects.Some? :: HasTarget(counts, i))
    && (forall i, j | 0 <= i < |counts| && 0 <= j < |counts| && Extends(counts, i, j) ::
          j < i && OneDayAndPhase(counts, i, j))
    && (forall i, j | 0 <= i < j < |counts| && counts[i].corrects.Some? ::
          counts[i].corrects != counts[j].corrects)
  }

  predicate Fits(counts: seq<StockCount>, count: StockCount)
  {
    && (forall i | 0 <= i < |counts| :: counts[i].id != count.id)
    && (count.corrects.Some? ==>
          && (exists t | 0 <= t < |counts| :: counts[t].id == count.corrects.value
                && counts[t].date == count.date && counts[t].phase == count.phase)
          && (forall i | 0 <= i < |counts| :: counts[i].corrects != count.corrects))
  }

  lemma SubmissionFits(
      counts: seq<StockCount>, today: Option<int>, entry: Entry, catalog: map<Id, Item>, id: Id, now: int)
    requires Submission(counts, today, entry, catalog, id, now).Ok?
    ensures Fits(counts, Submission(counts, today, entry, catalog, id, now).value)
  {
    assert forall i | 0 <= i < |counts| :: !WithCountId(id)(counts[i]);
    if entry.corrects.Some? {
      assert TargetProblem(counts, today.value, entry).None?;
      var t := Find(WithCountId(entry.corrects.value), counts);
      assert counts[t].id == entry.corrects.value;
      assert forall i | 0 <= i < |counts| :: !Correcting(entry.corrects.value)(counts[i]);
    }
  }

  lemma OldTargets(counts: seq<StockCount>, count: StockCount, i: nat, j: nat)
    requires CountsSound(counts) && Fits(counts, count)
    requires i < |counts| && j <= |counts| && Extends(counts + [count], i, j)
    ensures j < i && OneDayAndPhase(counts + [count], i, j)
  {
    assert HasTarget(counts, i);
    var k: nat :| k < i && Extends(counts, i, k);
    assert j < |counts| ==> Extends(counts, i, j);
  }

  lemma AppendKeeps(counts: seq<StockCount>, count: StockCount)
    requires CountsSound(counts) && Fits(counts, count)
    ensures CountsSound(counts + [count])
  {
    var after := counts + [count];
    var n := |counts|;
    forall i | 0 <= i <= n && after[i].corrects.Some?
      ensures HasTarget(after, i)
    {
      if i < n {
        assert HasTarget(counts, i);
        var j: nat :| j < i && Extends(counts, i, j);
        assert Extends(after, i, j);
      } else {
        var t: nat :| t < n && counts[t].id == count.corrects.value;
        assert Extends(after, n, t);
      }
    }
    forall i, j | 0 <= i <= n && 0 <= j <= n && Extends(after, i, j)
      ensures j < i && OneDayAndPhase(after, i, j)
    {
      if i < n {
        OldTargets(counts, count, i, j);
      } else {
        var t: nat :| t < n && counts[t].id == count.corrects.value
          && counts[t].date == count.date && counts[t].phase == count.phase;
        assert after[t].id == after[j].id;
      }
    }
  }

  // ----- runs

  datatype Request = Request(
    today: Option<int>, entry: Entry, catalog: map<Id, Item>, id: Id, now: int)

  function Next(counts: seq<StockCount>, r: Request): seq<StockCount>
  {
    var reply := Submission(counts, r.today, r.entry, r.catalog, r.id, r.now);
    if reply.Ok? then counts + [reply.value] else counts
  }

  function Run(counts: seq<StockCount>, requests: seq<Request>): seq<StockCount>
    decreases |requests|
  {
    if requests == [] then counts else Run(Next(counts, requests[0]), requests[1..])
  }

  /** Whatever is submitted, corrections stay disjoint chains inside one day and phase. */
  lemma {:induction false} RunKeepsCounts(counts: seq<StockCount>, requests: seq<Request>)
    requires CountsSound(counts)
    ensures CountsSound(Run(counts, requests))
    decreases |requests|
  {
    if requests != [] {
      var r := requests[0];
      var reply := Submission(counts, r.today, r.entry, r.catalog, r.id, r.now);
      if reply.Ok? {
        SubmissionFits(counts, r.today, r.entry, r.catalog, r.id, r.now);
        AppendKeeps(counts, reply.value);
      }
      RunKeepsCounts(Next(counts, r), requests[1..]);
    }
  }

  predicate ItemsDistinct(c: StockCount)
  {
    forall i, j | 0 <= i < j < |c.lines| :: c.lines[i].item != c.lines[j].item
  }

  lemma SubmittedItemsDistinct(
      counts: seq<StockCount>, today: Option<int>, entry: Entry, catalog: map<Id, Item>, id: Id, now: int)
    requires Submission(counts, today, entry, catalog, id, now).Ok?
    ensures ItemsDistinct(Submission(counts, today, entry, catalog, id, now).value)
  {
    var problems := LineProblems(entry.lines);
    assert IsFirst(None, problems);
    forall i, j | 0 <= i < j < |entry.lines|
      ensures entry.lines[i].item != entry.lines[j].item
    {
      assert problems[j] == LineProblem(entry.lines, j);
    }
  }

  /** No recorded count lists an item twice. */
  lemma {:induction false} RunKeepsItems(counts: seq<StockCount>, requests: seq<Request>)
    requires forall c | c in counts :: ItemsDistinct(c)
    ensures forall c | c in Run(counts, requests) :: ItemsDistinct(c)
    decreases |requests|
  {
    if requests != [] {
      var r := requests[0];
      if Submission(counts, r.today, r.entry, r.catalog, r.id, r.now).Ok? {
        SubmittedItemsDistinct(counts, r.today, r.entry, r.catalog, r.id, r.now);
      }
      RunKeepsItems(Next(counts, r), requests[1..]);
    }
  }

  // ----- the count in force

  /** Later by clock, ties broken by id. */
  predicate Newer(a: StockCount, b: StockCount)
  {
    a.recordedAt > b.recordedAt || (a.recordedAt == b.recordedAt && a.id > b.id)
  }

  predicate Corrected(counts: seq<StockCount>, c: StockCount)
  {
    exists d | d in counts :: d.phase == c.phase && d.corrects == Some(c.id)
  }

  predicate IsLeaf(counts: seq<StockCount>, phase: Phase, c: StockCount)
  {
    c in counts && c.phase == phase && !Corrected(counts, c)
  }

  ghost predicate InForce(counts: seq<StockCount>, phase: Phase, latest: Option<StockCount>)
  {
    match latest
    case None => forall c :: !IsLeaf(counts, phase, c)
    case Some(l) => IsLeaf(counts, phase, l) && forall c | IsLeaf(counts, phase, c) :: !Newer(c, l)
  }

  predicate NewestFirst(counts: seq<StockCount>)
  {
    forall i, j | 0 <= i < j < |counts| :: !Newer(counts[j], counts[i])
  }

  /** Puts a count where it belongs in a list sorted newest first. */
  function Inserted(c: StockCount, sorted: seq<StockCount>): (r: seq<StockCount>)
    requires NewestFirst(sorted)
    ensures NewestFirst(r)
    ensures forall x :: x in r <==> x == c || x in sorted
  {
    if sorted == [] || Newer(c, sorted[0]) then [c] + sorted
    else
      var rest := Inserted(c, sorted[1..]);
      assert forall x | x in rest :: !Newer(x, sorted[0]);
      assert forall j | 0 <= j < |rest| :: rest[j] in rest;
      [sorted[0]] + rest
  }

  /** The newest count of a phase that no other count of the phase corrects. */
  method LatestStockCountCorrection(counts: seq<StockCount>, phase: Phase) returns (latest: Option<StockCount>)
    ensures InForce(counts, phase, latest)
  {
    var phaseCounts := [];
    var correctedIds := {};
    var k := 0;
    while k < |counts|
      invariant 0 <= k <= |counts|
      invariant forall c :: c in phaseCounts <==> c in counts[..k] && c.phase == phase
      invariant forall id :: id in correctedIds <==>
        exists d | d in counts[..k] :: d.phase == phase && d.corrects == Some(id)
    {
      var c := counts[k];
      assert counts[..k + 1] == counts[..k] + [c];
      if c.phase == phase {
        phaseCounts := phaseCounts + [c];
        if c.corrects.Some? {
          correctedIds := correctedIds + {c.corrects.value};
        }
      }
      k := k + 1;
    }
    assert counts[..k] == counts;
    var chainLeaves := [];
    var m := 0;
    while m < |phaseCounts|
      invariant 0 <= m <= |phaseCounts|
      invariant NewestFirst(chainLeaves)
      invariant forall c :: c in chainLeaves <==> c in phaseCounts[..m] && !Corrected(counts, c)
    {
      var c := phaseCounts[m];
      assert phaseCounts[..m + 1] == phaseCounts[..m] + [c];
      assert c.id in correctedIds <==> Corrected(counts, c);
      if c.id !in correctedIds {
        chainLeaves := Inserted(c, chainLeaves);
      }
      m := m + 1;
    }
    assert phaseCounts[..m] == phaseCounts;
    assert forall c :: c in chainLeaves <==> IsLeaf(counts, phase, c);
    if chainLeaves == [] {
      latest := None;
    } else {
      latest := Some(chainLeaves[0]);
    }
  }

  function OnDay(date: int): StockCount -> bool { (c: StockCount) => c.date == date }

  function DayCounts(table: seq<StockCount>, date: int): seq<StockCount>
  {
    Filter(OnDay(date), table)
  }

  /** The last recorded count of a day and phase has no correction. */
  lemma LastHasNoCorrection(table: seq<StockCount>, phase: Phase, k: nat)
    requires CountsSound(table) && k < |table| && table[k].phase == phase
    requires forall i | k < i < |table| :: !(table[i].date == table[k].date && table[i].phase == phase)
    ensures IsLeaf(DayCounts(table, table[k].date), phase, table[k])
  {
    var day := DayCounts(table, table[k].date);
    if Corrected(day, table[k]) {
      var d :| d in day && d.phase == phase && d.corrects == Some(table[k].id);
      var i :| 0 <= i < |table| && table[i] == d;
      assert Extends(table, i, k);
    }
  }

  lemma {:induction false} LastOfDay(table: seq<StockCount>, phase: Phase, date: int, n: nat) returns (k: nat)
    requires n <= |table|
    requires forall i | n <= i < |table| :: !(table[i].date == date && table[i].phase == phase)
    requires exists c | c in table :: c.date == date && c.phase == phase
    ensures k < |table| && table[k].date == date && table[k].phase == phase
    ensures forall i | k < i < |table| :: !(table[i].date == date && table[i].phase == phase)
  {
    if n == 0 {
      assert false;
    } else if table[n - 1].date == date && table[n - 1].phase == phase {
      k := n - 1;
    } else {
      k := LastOfDay(table, phase, date, n - 1);
    }
  }

  /** After any submissions, no count is in force exactly when the day has none of the phase. */
  lemma InForceUnlessNone(requests: seq<Request>, date: int, phase: Phase, latest: Option<StockCount>)
    requires InForce(DayCounts(Run([], requests), date), phase, latest)
    ensures latest.None? <==> forall c | c in Run([], requests) :: !(c.date == date && c.phase == phase)
  {
    var table := Run([], requests);
    RunKeepsCounts([], requests);
    if exists c | c in table :: c.date == date && c.phase == phase {
      var k := LastOfDay(table, phase, date, |table|);
      LastHasNoCorrection(table, phase, k);
    }
  }

  lemma SameIdSameCount(table: seq<StockCount>, a: StockCount, b: StockCount)
    requires CountsSound(table) && a in table && b in table && a.id == b.id
    ensures a == b
  {
  }

  /** The count in force does not depend on the order in which the rows are read. */
  lemma InForceIgnoresOrder(
      table: seq<StockCount>, a: seq<StockCount>, b: seq<StockCount>, phase: Phase,
      x: Option<StockCount>, y: Option<StockCount>)
    requires CountsSound(table)
    requires forall c :: c in a <==> c in b
    requires forall c | c in a :: c in table
    requires InForce(a, phase, x) && InForce(b, phase, y)
    ensures x == y
  {
    assert forall c :: IsLeaf(a, phase, c) <==> IsLeaf(b, phase, c);
    if x.Some? && y.Some? {
      assert x.value.id == y.value.id;
      SameIdSameCount(table, x.value, y.value);
    }
  }

  // ----- against the newest row the count sheet shows

  predicate IsNewestRow(counts: seq<StockCount>, phase: Phase, w: StockCount)
  {
    && w in counts && w.phase == phase
    && forall c | c in counts && c.phase == phase :: !Newer(c, w)
  }

  /** The reconciliation and the count sheet use the same count if and only if the newest row has not
      been corrected. */
  lemma SheetAgreesIff(table: seq<StockCount>, date: int, phase: Phase, l: StockCount, w: StockCount)
    requires CountsSound(table)
    requires InForce(DayCounts(table, date), phase, Some(l)) && IsNewestRow(DayCounts(table, date), phase, w)
    ensures l == w <==> !Corrected(DayCounts(table, date), w)
  {
    var day := DayCounts(table, date);
    if !Corrected(day, w) {
      assert IsLeaf(day, phase, w);
      assert !Newer(w, l) && !Newer(l, w);
      SameIdSameCount(table, l, w);
    }
  }

  predicate StampsIncrease(table: seq<StockCount>)
  {
    forall i, j | 0 <= i < |table| && 0 <= j < |table| && Extends(table, i, j) ::
      table[j].recordedAt < table[i].recordedAt
  }

  predicate ClockAhead(table: seq<StockCount>, requests: seq<Request>)
  {
    && (forall i, k | 0 <= i < |table| && 0 <= k < |requests| :: table[i].recordedAt < requests[k].now)
    && (forall k, m | 0 <= k < m < |requests| :: requests[k].now < requests[m].now)
  }

  lemma {:induction false} RunKeepsStamps(table: seq<StockCount>, requests: seq<Request>)
    requires CountsSound(table) && StampsIncrease(table) && ClockAhead(table, requests)
    ensures StampsIncrease(Run(table, requests))
    decreases |requests|
  {
    if requests != [] {
      var r := requests[0];
      var reply := Submission(table, r.today, r.entry, r.catalog, r.id, r.now);
      var after := Next(table, r);
      if reply.Ok? {
        SubmissionFits(table, r.today, r.entry, r.catalog, r.id, r.now);
        AppendKeeps(table, reply.value);
        forall i, j | 0 <= i < |after| && 0 <= j < |after| && Extends(after, i, j)
          ensures after[j].recordedAt < after[i].recordedAt
        {
          assert i < |table| && j < |table| ==> Extends(table, i, j);
        }
      }
      RunKeepsStamps(after, requests[1..]);
    }
  }

  lemma NewestIsUncorrected(table: seq<StockCount>, date: int, phase: Phase, w: StockCount)
    requires StampsIncrease(table) && IsNewestRow(DayCounts(table, date), phase, w)
    ensures !Corrected(DayCounts(table, date), w)
  {
    var day := DayCounts(table, date);
    var j :| 0 <= j < |table| && table[j] == w;
    forall d | d in day && d.phase == phase
      ensures d.corrects != Some(w.id)
    {
      var i :| 0 <= i < |table| && table[i] == d;
      assert !Newer(d, w);
      assert !Extends(table, i, j);
    }
  }

  /** While every correction is stamped later than the count it corrects, the count in force is the row
      the sheet shows. */
  lemma SheetAgreesWithLaterCorrections(
      requests: seq<Request>, date: int, phase: Phase, l: StockCount, w: StockCount)
    requires StampsIncrease(Run([], requests))
    requires var day := DayCounts(Run([], requests), date);
      InForce(day, phase, Some(l)) && IsNewestRow(day, phase, w)
    ensures l == w
  {
    var table := Run([], requests);
    RunKeepsCounts([], requests);
    NewestIsUncorrected(table, date, phase, w);
    SheetAgreesIff(table, date, phase, l, w);
  }

  /** A clock that advances between submissions stamps corrections later. */
  lemma SheetAgreesWithAdvancingClock(
      requests: seq<Request>, date: int, phase: Phase, l: StockCount, w: StockCount)
    requires ClockAhead([], requests)
    requires var day := DayCounts(Run([], requests), date);
      InForce(day, phase, Some(l)) && IsNewestRow(day, phase, w)
    ensures l == w
  {
    RunKeepsStamps([], requests);
    SheetAgreesWithLaterCorrections(requests, date, phase, l, w);
  }

  const A_LINE := LineEntry(0, Given(1), Undefined)

  const SHEET: map<Id, Item> := map[0 := Item(0, true, true, true)]

  /** Two submissions stamped in one instant, the second correcting the first. */
  const IN_ONE_INSTANT: seq<Request> := [
    Request(Some(0), Entry(OpenPhase, None, [A_LINE], true), SHEET, 2, 0),
    Request(Some(0), Entry(OpenPhase, Some(2), [A_LINE], true), SHEET, 1, 0)]

  lemma OneLineIsFine(phase: Phase)
    ensures First(LineProblems([A_LINE])).None?
    ensures First(Map(SheetProblem(SHEET, phase), [A_LINE])).None?
  {
    assert LineProblems([A_LINE])[0] == LineProblem([A_LINE], 0);
    assert Map(SheetProblem(SHEET, phase), [A_LINE])[0] == SheetProblem(SHEET, phase)(A_LINE);
  }

  /** With equal stamps the two can differ: the sheet shows the corrected count. */
  lemma SheetCanShowACorrectedCount()
    ensures var day := DayCounts(Run([], IN_ONE_INSTANT), 0);
      exists l, w :: InForce(day, OpenPhase, Some(l)) && IsNewestRow(day, OpenPhase, w) && l != w
  {
    var r0, r1 := IN_ONE_INSTANT[0], IN_ONE_INSTANT[1];
    var stored := Map(StoredLine(), [A_LINE]);
    var w := StockCount(2, 0, OpenPhase, 0, None, stored);
    var l := StockCount(1, 0, OpenPhase, 0, Some(2), stored);
    OneLineIsFine(OpenPhase);
    assert Next([], r0) == [w];
    assert Find(WithCountId(2), [w]) == 0;
    assert !Has(Correcting(2), [w]) && !Has(WithCountId(1), [w]);
    assert Next([w], r1) == [w, l];
    assert IN_ONE_INSTANT[1..] == [r1] && [r1][1..] == [];
    assert Run([w], [r1]) == [w, l];
    assert Run([], IN_ONE_INSTANT) == [w, l];
    var day := DayCounts([w, l], 0);
    assert Corrected(day, w);
    assert InForce(day, OpenPhase, Some(l)) && IsNewestRow(day, OpenPhase, w);
  }
}
