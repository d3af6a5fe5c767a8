/** When a stock count is recorded, what it then holds, and why it is refused otherwise. */
module StockEffects {
  import opened Tables
  import opened StockCounts
  import opened StockChains
  import Acceptance

  // ----- the lines of a request

  /** Exactly one value is sent: a quantity of nothing or more, or a level. */
  predicate OneValue(line: LineEntry)
  {
    || (line.quantity.Given? && 0 <= line.quantity.value && line.level.Undefined?)
    || (line.level.Given? && line.quantity.Undefined?)
  }

  predicate ItemsOnce(lines: seq<LineEntry>)
  {
    forall i, j | 0 <= i < j < |lines| :: lines[i].item != lines[j].item
  }

  /** The item is active, critical when the day opens, and counted the way it is counted here. */
  predicate OnSheet(catalog: map<Id, Item>, phase: Phase, line: LineEntry)
  {
    && line.item in catalog
    && var item := catalog[line.item];
       && item.active && (phase == OpenPhase ==> item.critical)
       && (item.byQuantity ==> !line.quantity.Undefined?) && (!item.byQuantity ==> !line.level.Undefined?)
  }

  /** A correction names a count of its day and phase that nothing corrects. */
  predicate MayCorrect(counts: seq<StockCount>, today: int, phase: Phase, target: Id)
  {
    && (exists c | c in counts && c.id == target :: c.date == today && c.phase == phase)
    && forall c | c in counts :: c.corrects != Some(target)
  }

  predicate MaySubmit(counts: seq<StockCount>, today: Option<int>, entry: Entry, catalog: map<Id, Item>, id: Id)
  {
    && today.Some? && entry.lines != [] && entry.staffActive
    && ItemsOnce(entry.lines)
    && (forall line | line in entry.lines :: OneValue(line) && OnSheet(catalog, entry.phase, line))
    && (entry.corrects.Some? ==> MayCorrect(counts, today.value, entry.phase, entry.corrects.value))
    && (forall c | c in counts :: c.id != id)
  }

  /** What was sent for each item, in the order sent. */
  predicate Holds(stored: CountLine, line: LineEntry)
  {
    && stored.item == line.item
    && (line.quantity.Given? ==> stored.quantity == Some(line.quantity.value))
    && (!line.quantity.Given? ==> stored.quantity == None)
    && (line.level.Given? ==> stored.level == Some(line.level.value))
    && (!line.level.Given? ==> stored.level == None)
  }

  predicate CountOf(c: StockCount, today: int, entry: Entry, id: Id, now: int)
  {
    && c.id == id && c.date == today && c.phase == entry.phase && c.recordedAt == now
    && c.corrects == entry.corrects && |c.lines| == |entry.lines|
    && forall k | 0 <= k < |c.lines| :: Holds(c.lines[k], entry.lines[k])
  }

  // ----- the checks, one by one

  lemma NoFirst(problems: seq<Option<CountError>>)
    ensures First(problems).None? <==> forall k | 0 <= k < |problems| :: problems[k].None?
  {
  }

  lemma LineFine(lines: seq<LineEntry>, k: nat)
    requires k < |lines|
    ensures LineProblem(lines, k).None? <==>
      OneValue(lines[k]) && forall j | 0 <= j < k :: lines[j].item != lines[k].item
  {
  }

  lemma LinesFine(lines: seq<LineEntry>)
    ensures First(LineProblems(lines)).None? <==>
      ItemsOnce(lines) && forall line | line in lines :: OneValue(line)
  {
    var problems := LineProblems(lines);
    NoFirst(problems);
    forall k | 0 <= k < |lines|
      ensures problems[k].None? <==>
        OneValue(lines[k]) && forall j | 0 <= j < k :: lines[j].item != lines[k].item
    {
      LineFine(lines, k);
    }
    if forall k | 0 <= k < |problems| :: problems[k].None? {
      forall i, j | 0 <= i < j < |lines|
        ensures lines[i].item != lines[j].item
      {
        assert problems[j].None?;
      }
    } else {
      var k :| 0 <= k < |problems| && problems[k].Some?;
      assert lines[k] in lines;
    }
  }

  lemma SheetFine(catalog: map<Id, Item>, phase: Phase, line: LineEntry)
    ensures SheetProblem(catalog, phase)(line).None? <==> OnSheet(catalog, phase, line)
  {
  }

  lemma SheetsFine(catalog: map<Id, Item>, phase: Phase, lines: seq<LineEntry>)
    ensures First(Map(SheetProblem(catalog, phase), lines)).None? <==>
      forall line | line in lines :: OnSheet(catalog, phase, line)
  {
    var problems := Map(SheetProblem(catalog, phase), lines);
    NoFirst(problems);
    forall k | 0 <= k < |lines|
      ensures problems[k].None? <==> OnSheet(catalog, phase, lines[k])
    {
      SheetFine(catalog, phase, lines[k]);
    }
    if k :| 0 <= k < |problems| && problems[k].Some? {
      assert lines[k] in lines;
    }
  }

  lemma CountFound(counts: seq<StockCount>, target: Id)
    requires CountsSound(counts)
    ensures var t := Find(WithCountId(target), counts);
      && (t < |counts| <==> exists c | c in counts :: c.id == target)
      && (t < |counts| ==> counts[t] in counts && counts[t].id == target)
      && forall c | c in counts && c.id == target :: t < |counts| && counts[t] == c
  {
    Acceptance.HasIff(WithCountId(target), counts);
    var t := Find(WithCountId(target), counts);
    forall c | c in counts && c.id == target
      ensures t < |counts| && counts[t] == c
    {
      var k :| 0 <= k < |counts| && counts[k] == c;
      assert WithCountId(target)(counts[k]);
    }
  }

  lemma TargetFine(counts: seq<StockCount>, today: int, entry: Entry)
    requires CountsSound(counts)
    ensures TargetProblem(counts, today, entry).None? <==>
      (entry.corrects.Some? ==> MayCorrect(counts, today, entry.phase, entry.corrects.value))
  {
    if entry.corrects.Some? {
      CountFound(counts, entry.corrects.value);
      Acceptance.HasIff(Correcting(entry.corrects.value), counts);
    }
  }

  lemma StoredHolds(line: LineEntry)
    ensures Holds(StoredLine()(line), line)
  {
  }

  lemma SubmissionFoundOut(
      counts: seq<StockCount>, today: Option<int>, entry: Entry, catalog: map<Id, Item>, id: Id, now: int)
    ensures var reply := Submission(counts, today, entry, catalog, id, now);
      if && today.Some? && entry.lines != [] && First(LineProblems(entry.lines)).None? && entry.staffActive
         && First(Map(SheetProblem(catalog, entry.phase), entry.lines)).None?
         && TargetProblem(counts, today.value, entry).None? && !Has(WithCountId(id), counts)
      then reply == Ok(StockCount(id, today.value, entry.phase, now, entry.corrects, Map(StoredLine(), entry.lines)))
      else reply.Err?
  {
  }

  lemma CountIsOf(today: int, entry: Entry, id: Id, now: int)
    ensures CountOf(StockCount(id, today, entry.phase, now, entry.corrects, Map(StoredLine(), entry.lines)),
                    today, entry, id, now)
  {
    var lines := Map(StoredLine(), entry.lines);
    forall k | 0 <= k < |lines|
      ensures Holds(lines[k], entry.lines[k])
    {
      StoredHolds(entry.lines[k]);
    }
  }

  /** A count is recorded if and only if a day is open, each item comes once, is on the sheet of the
      phase and has one value of its kind, and what is corrected may be; it then holds what was sent. */
  lemma SubmittedIff(
      counts: seq<StockCount>, today: Option<int>, entry: Entry, catalog: map<Id, Item>, id: Id, now: int)
    requires CountsSound(counts)
    ensures var reply := Submission(counts, today, entry, catalog, id, now);
      && (reply.Ok? <==> MaySubmit(counts, today, entry, catalog, id))
      && (reply.Ok? ==> CountOf(reply.value, today.value, entry, id, now))
  {
    SubmissionFoundOut(counts, today, entry, catalog, id, now);
    LinesFine(entry.lines);
    SheetsFine(catalog, entry.phase, entry.lines);
    Acceptance.HasIff(WithCountId(id), counts);
    if today.Some? {
      TargetFine(counts, today.value, entry);
      CountIsOf(today.value, entry, id, now);
    }
  }

  // ----- why not

  predicate WhyNotSubmitted(
      counts: seq<StockCount>, today: Option<int>, entry: Entry, catalog: map<Id, Item>, id: Id, e: CountError)
  {
    match e
    case NoOpenDay => today.None?
    case NoLines => entry.lines == []
    case RepeatedItem(item) =>
      exists i, j | 0 <= i < j < |entry.lines| :: entry.lines[i].item == entry.lines[j].item == item
    case NotOneValue(item) =>
      exists l | l in entry.lines :: l.item == item && (l.quantity.Undefined? <==> l.level.Undefined?)
    case BadQuantity =>
      exists l | l in entry.lines :: l.quantity.Null? || (l.quantity.Given? && l.quantity.value < 0)
    case BadLevel => exists l | l in entry.lines :: l.level.Null?
    case UnknownStaff => !entry.staffActive
    case NotOnSheet(item) =>
      exists l | l in entry.lines && l.item == item ::
        item !in catalog || !catalog[item].active || (entry.phase == OpenPhase && !catalog[item].critical)
    case WrongMethod(item) =>
      exists l | l in entry.lines && l.item == item && item in catalog ::
        if catalog[item].byQuantity then l.quantity.Undefined? else l.level.Undefined?
    case BadTarget =>
      entry.corrects.Some? && today.Some?
      && forall c | c in counts && c.id == entry.corrects.value :: c.date != today.value || c.phase != entry.phase
    case AlreadyCorrected => entry.corrects.Some? && exists c | c in counts :: c.corrects == entry.corrects
    case IdTaken => exists c | c in counts :: c.id == id
  }

  lemma LineProblemHolds(
      counts: seq<StockCount>, today: Option<int>, entry: Entry, catalog: map<Id, Item>, id: Id, k: nat)
    requires k < |entry.lines| && LineProblem(entry.lines, k).Some?
    ensures WhyNotSubmitted(counts, today, entry, catalog, id, LineProblem(entry.lines, k).value)
  {
    assert entry.lines[k] in entry.lines;
  }

  lemma SheetProblemHolds(
      counts: seq<StockCount>, today: Option<int>, entry: Entry, catalog: map<Id, Item>, id: Id, k: nat)
    requires k < |entry.lines| && SheetProblem(catalog, entry.phase)(entry.lines[k]).Some?
    ensures WhyNotSubmitted(counts, today, entry, catalog, id,
                            SheetProblem(catalog, entry.phase)(entry.lines[k]).value)
  {
    assert entry.lines[k] in entry.lines;
  }

  lemma TargetProblemHolds(
      counts: seq<StockCount>, today: Option<int>, entry: Entry, catalog: map<Id, Item>, id: Id)
    requires CountsSound(counts) && today.Some? && TargetProblem(counts, today.value, entry).Some?
    ensures WhyNotSubmitted(counts, today, entry, catalog, id, TargetProblem(counts, today.value, entry).value)
  {
    CountFound(counts, entry.corrects.value);
    Acceptance.HasIff(Correcting(entry.corrects.value), counts);
  }

  lemma SubmissionFails(
      counts: seq<StockCount>, today: Option<int>, entry: Entry, catalog: map<Id, Item>, id: Id, now: int)
    requires Submission(counts, today, entry, catalog, id, now).Err?
    ensures var e := Submission(counts, today, entry, catalog, id, now).error;
      || (e == NoOpenDay && today.None?) || (e == NoLines && entry.lines == [])
      || First(LineProblems(entry.lines)) == Some(e) || (e == UnknownStaff && !entry.staffActive)
      || First(Map(SheetProblem(catalog, entry.phase), entry.lines)) == Some(e)
      || (today.Some? && TargetProblem(counts, today.value, entry) == Some(e))
      || (e == IdTaken && Has(WithCountId(id), counts))
  {
  }

  /** Whatever a count is refused for is so. */
  lemma SubmissionRefusalHolds(
      counts: seq<StockCount>, today: Option<int>, entry: Entry, catalog: map<Id, Item>, id: Id, now: int)
    requires CountsSound(counts) && Submission(counts, today, entry, catalog, id, now).Err?
    ensures WhyNotSubmitted(counts, today, entry, catalog, id,
                            Submission(counts, today, entry, catalog, id, now).error)
  {
    var e := Submission(counts, today, entry, catalog, id, now).error;
    SubmissionFails(counts, today, entry, catalog, id, now);
    Acceptance.HasIff(WithCountId(id), counts);
    if First(LineProblems(entry.lines)) == Some(e) {
      var k :| 0 <= k < |entry.lines| && LineProblems(entry.lines)[k] == Some(e);
      LineProblemHolds(counts, today, entry, catalog, id, k);
    } else if First(Map(SheetProblem(catalog, entry.phase), entry.lines)) == Some(e) {
      var problems := Map(SheetProblem(catalog, entry.phase), entry.lines);
      var k :| 0 <= k < |problems| && problems[k] == Some(e);
      SheetProblemHolds(counts, today, entry, catalog, id, k);
    } else if today.Some? && TargetProblem(counts, today.value, entry) == Some(e) {
      TargetProblemHolds(counts, today, entry, catalog, id);
    }
  }
}
