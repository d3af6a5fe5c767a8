/** Stock counts: a count is never edited, a correction is a new count that names the one it
    corrects. */
module StockCounts {
  import opened Tables
  import Store

  type Id = Store.Id

  datatype Phase = OpenPhase | ClosePhase

  datatype Level = Empty | Low | Quarter | OneThird | Half | TwoThirds | ThreeQuarters | Full

  /** A field of a request: left out, sent as null, or sent with a value. */
  datatype Field<+T> = Undefined | Null | Given(value: T)

  datatype LineEntry = LineEntry(item: Id, quantity: Field<int>, level: Field<Level>)

  datatype CountLine = CountLine(item: Id, quantity: Option<int>, level: Option<Level>)

  datatype StockCount = StockCount(
    id: Id, date: int, phase: Phase, recordedAt: int, corrects: Option<Id>, lines: seq<CountLine>)

  datatype Item = Item(id: Id, active: bool, critical: bool, byQuantity: bool)

  datatype CountError =
    | NoOpenDay | NoLines | RepeatedItem(item: Id) | NotOneValue(item: Id) | BadQuantity | BadLevel
    | UnknownStaff | NotOnSheet(item: Id) | WrongMethod(item: Id) | BadTarget | AlreadyCorrected
    | IdTaken

  datatype Entry = Entry(
    phase: Phase, corrects: Option<Id>, lines: seq<LineEntry>, staffActive: bool)

  // ----- validating the lines of a request

  /** What is wrong with line `k`, given the lines before it. */
  function LineProblem(lines: seq<LineEntry>, k: nat): Option<CountError>
    requires k < |lines|
  {
    var line := lines[k];
    if exists j | 0 <= j < k :: lines[j].item == line.item then Some(RepeatedItem(line.item))
    else if line.quantity.Undefined? == line.level.Undefined? then Some(NotOneValue(line.item))
    else if line.quantity.Null? || (line.quantity.Given? && line.quantity.value < 0) then Some(BadQuantity)
    else if line.level.Null? then Some(BadLevel)
    else None
  }

  function LineProblems(lines: seq<LineEntry>): seq<Option<CountError>>
  {
    seq(|lines|, k requires 0 <= k < |lines| => LineProblem(lines, k))
  }

  /** The first problem on a list, or none when there is none. */
  predicate IsFirst(problem: Option<CountError>, problems: seq<Option<CountError>>)
  {
    if problem.None? then forall k | 0 <= k < |problems| :: problems[k].None?
    else exists k | 0 <= k < |problems| :: problems[k] == problem && forall j | 0 <= j < k :: problems[j].None?
  }

  method ValidateLineValues(lines: seq<LineEntry>) returns (problem: Option<CountError>)
    ensures lines == [] ==> problem == Some(NoLines)
    ensures lines != [] ==> IsFirst(problem, LineProblems(lines))
  {
    if lines == [] {
      return Some(NoLines);
    }
    var itemIds := {};
    var k := 0;
    ghost var problems := LineProblems(lines);
    while k < |lines|
      invariant 0 <= k <= |lines|
      invariant forall id :: id in itemIds <==> exists j | 0 <= j < k :: lines[j].item == id
      invariant forall j | 0 <= j < k :: problems[j].None?
    {
      var line := lines[k];
      assert problems[k] == LineProblem(lines, k);
      if line.item in itemIds {
        return Some(RepeatedItem(line.item));
      }
      itemIds := itemIds + {line.item};
      var hasQuantity, hasLevel := !line.quantity.Undefined?, !line.level.Undefined?;
      if hasQuantity == hasLevel {
        return Some(NotOneValue(line.item));
      }
      if hasQuantity && (line.quantity.Null? || line.quantity.value < 0) {
        return Some(BadQuantity);
      }
      if hasLevel && line.level.Null? {
        return Some(BadLevel);
      }
      k := k + 1;
    }
    problem := None;
  }

  // ----- submitting a count

  function First(problems: seq<Option<CountError>>): (problem: Option<CountError>)
    ensures IsFirst(problem, problems)
  {
    if problems == [] then None
    else if problems[0].Some? then problems[0]
    else
      var rest := First(problems[1..]);
      assert rest.Some? ==> exists k | 1 <= k < |problems| ::
          problems[k] == rest && forall j | 0 <= j < k :: problems[j].None? by {
        if rest.Some? {
          var k :| 0 <= k < |problems[1..]| && problems[1..][k] == rest
            && forall j | 0 <= j < k :: problems[1..][j].None?;
          assert problems[k + 1] == rest;
          assert forall j | 1 <= j < k + 1 :: problems[j] == problems[1..][j - 1];
        }
      }
      rest
  }

  lemma OneFirst(p: Option<CountError>, q: Option<CountError>, problems: seq<Option<CountError>>)
    requires IsFirst(p, problems) && IsFirst(q, problems)
    ensures p == q
  {
  }

  function SheetProblem(catalog: map<Id, Item>, phase: Phase): LineEntry -> Option<CountError>
  {
    (line: LineEntry) =>
      if line.item !in catalog || !catalog[line.item].active
         || (phase.OpenPhase? && !catalog[line.item].critical) then Some(NotOnSheet(line.item))
      else if (if catalog[line.item].byQuantity then line.quantity.Undefined? else line.level.Undefined?) then
        Some(WrongMethod(line.item))
      else None
  }

  function WithCountId(id: Id): StockCount -> bool { (c: StockCount) => c.id == id }

  function Correcting(id: Id): StockCount -> bool { (c: StockCount) => c.corrects == Some(id) }

  /** The count a correction names must belong to the same day and phase and be corrected by none. */
  function TargetProblem(counts: seq<StockCount>, today: int, entry: Entry): Option<CountError>
  {
    if entry.corrects.None? then None
    else
      var t := Find(WithCountId(entry.corrects.value), counts);
      if t == |counts| || counts[t].date != today || counts[t].phase != entry.phase then Some(BadTarget)
      else if Has(Correcting(entry.corrects.value), counts) then Some(AlreadyCorrected)
      else None
  }

  function Stored<T>(field: Field<T>): Option<T>
  {
    if field.Given? then Some(field.value) else None
  }

  function StoredLine(): LineEntry -> CountLine
  {
    (line: LineEntry) => CountLine(line.item, Stored(line.quantity), Stored(line.level))
  }

  function Submission(
      counts: seq<StockCount>, today: Option<int>, entry: Entry, catalog: map<Id, Item>, id: Id, now: int)
    : Result<StockCount, CountError>
  {
    if today.None? then Err(NoOpenDay)
    else if entry.lines == [] then Err(NoLines)
    else
      var badLine := First(LineProblems(entry.lines));
      var badItem := First(Map(SheetProblem(catalog, entry.phase), entry.lines));
      var badTarget := TargetProblem(counts, today.value, entry);
      if badLine.Some? then Err(badLine.value)
      else if !entry.staffActive then Err(UnknownStaff)
      else if badItem.Some? then Err(badItem.value)
      else if badTarget.Some? then Err(badTarget.value)
      else if Has(WithCountId(id), counts) then Err(IdTaken)
      else
        Ok(StockCount(id, today.value, entry.phase, now, entry.corrects, Map(StoredLine(), entry.lines)))
  }

  class CountTable {
    var counts: seq<StockCount>

    constructor ()
      ensures counts == []
    {
      counts := [];
    }

    /** Appends the count, or changes nothing and says why. */
    method Submit(today: Option<int>, entry: Entry, catalog: map<Id, Item>, id: Id, now: int)
        returns (reply: Result<StockCount, CountError>)
      modifies this
      ensures reply == Submission(old(counts), today, entry, catalog, id, now)
      ensures counts == if reply.Ok? then old(counts) + [reply.value] else old(counts)
    {
      if today.None? {
        return Err(NoOpenDay);
      }
      var problem := ValidateLineValues(entry.lines);
      if entry.lines != [] {
        OneFirst(problem, First(LineProblems(entry.lines)), LineProblems(entry.lines));
      }
      if problem.Some? {
        return Err(problem.value);
      }
      if !entry.staffActive {
        return Err(UnknownStaff);
      }
      ghost var problems := Map(SheetProblem(catalog, entry.phase), entry.lines);
      var k := 0;
      while k < |entry.lines|
        invariant 0 <= k <= |entry.lines|
        invariant forall j | 0 <= j < k :: problems[j].None?
      {
        var line := entry.lines[k];
        var bad := SheetProblem(catalog, entry.phase)(line);
        if bad.Some? {
          assert problems[k] == bad;
          OneFirst(bad, First(problems), problems);
          return Err(bad.value);
        }
        k := k + 1;
      }
      OneFirst(None, First(problems), problems);
      var badTarget := TargetProblem(counts, today.value, entry);
      if badTarget.Some? {
        return Err(badTarget.value);
      }
      if Has(WithCountId(id), counts) {
        return Err(IdTaken);
      }
      var count := StockCount(id, today.value, entry.phase, now, entry.corrects, Map(StoredLine(), entry.lines));
      counts := counts + [count];
      reply := Ok(count);
    }
  }
}
