/** When a line is accepted, what its amounts are, and what adding and editing do to each line. */
module LineEdits {
  import opened Tables
  import opened Money
  import opened Store
  import opened Orders
  import opened Lines

  // ----- one line

  /** A positive quantity with no more free upsizes than that, none where the product allows none, and
      a price that covers them. */
  predicate Acceptable(t: LineTerms)
  {
    && 1 <= t.quantity <= MAX_SAFE && 0 <= t.upsizes <= t.quantity && (t.upsizes > 0 ==> t.upsizeEligible)
    && 3_000 * t.upsizes <= t.unitPrice * t.quantity <= MAX_SAFE
  }

  /** Thirty pesos off per free upsize, then a fifth of the rest to the nearest cent for a PWD or a
      senior. */
  predicate Amounts(t: LineTerms, a: LineAmounts)
  {
    && a.gross == t.unitPrice * t.quantity && a.freeUpsize == 3_000 * t.upsizes
    && (t.discount == NoDiscount ==> a.discount == 0)
    && (t.discount != NoDiscount ==> -50 < 100 * a.discount - 20 * (a.gross - a.freeUpsize) < 50)
    && a.gross == a.freeUpsize + a.discount + a.total
  }

  lemma PricedIff(t: LineTerms)
    ensures CalculateLineAmounts(t).Ok? <==> Acceptable(t)
    ensures forall a :: CalculateLineAmounts(t) == Ok(a) <==> Acceptable(t) && Amounts(t, a)
  {
    if CalculateLineAmounts(t).Ok? {
      LineAmountsWithinPrice(t);
      assert Amounts(t, CalculateLineAmounts(t).value);
    }
    forall a | Acceptable(t) && Amounts(t, a)
      ensures CalculateLineAmounts(t) == Ok(a)
    {
      LineAmountsWithinPrice(t);
    }
  }

  function Rank(p: Preference): nat
  {
    match p
    case Sweeter => 0
    case Stronger => 1
    case LessSweet => 2
    case LessIce => 3
  }

  /** The preferences asked for, each once and in their own order. */
  predicate Prefers(stored: seq<Preference>, asked: seq<Preference>)
  {
    && (forall p: Preference :: p in stored <==> p in asked)
    && (forall i, j | 0 <= i < j < |stored| :: Rank(stored[i]) < Rank(stored[j]))
  }

  predicate RanksIncrease(ps: seq<Preference>)
  {
    forall i, j | 0 <= i < j < |ps| :: Rank(ps[i]) < Rank(ps[j])
  }

  lemma {:induction false} FilterKeepsRanks(f: Preference -> bool, ps: seq<Preference>)
    requires RanksIncrease(ps)
    ensures RanksIncrease(Filter(f, ps))
  {
    if ps != [] {
      FilterKeepsRanks(f, ps[1..]);
      var rest := Filter(f, ps[1..]);
      forall k | 0 <= k < |rest|
        ensures Rank(ps[0]) < Rank(rest[k])
      {
        assert rest[k] in rest;
        var j :| 1 <= j < |ps| && ps[j] == rest[k];
      }
    }
  }

  lemma EveryPreference(p: Preference)
    ensures p in PREFERENCE_ORDER
  {
    assert PREFERENCE_ORDER[Rank(p)] == p;
  }

  lemma NormalizedPrefers(asked: seq<Preference>)
    ensures Prefers(NormalizePreferences(asked), asked)
  {
    FilterKeepsRanks((p: Preference) => p in asked, PREFERENCE_ORDER);
    forall p: Preference
      ensures p in NormalizePreferences(asked) <==> p in asked
    {
      EveryPreference(p);
    }
  }

  /** A line as asked for, of a size as the catalog has it. */
  predicate AskedFor(l: Line, id: Id, input: LineInput, size: Variant)
  {
    && l.id == id && l.variant == size.id && l.note == input.note && l.servings == size.servings
    && l.terms == LineTerms(input.quantity, size.price, input.discount, input.upsizes, size.upsizeEligible)
    && Prefers(l.preferences, input.preferences)
  }

  lemma NewLineIsAskedFor(id: Id, input: LineInput, size: Variant)
    ensures AskedFor(NewLine(id, input, size), id, input, size)
  {
    NormalizedPrefers(input.preferences);
  }

  /** The same line but for its amounts, which are those of its terms. */
  predicate PricedAs(stored: Line, l: Line)
  {
    stored == l.(amounts := stored.amounts) && Acceptable(stored.terms) && Amounts(stored.terms, stored.amounts)
  }

  lemma PricedLine(l: Line)
    ensures Priced(l).Ok? <==> Acceptable(l.terms)
    ensures Priced(l).Ok? ==> PricedAs(Priced(l).value, l)
    ensures Priced(l).Err? ==> Priced(l).error.BadLine?
  {
    PricedIff(l.terms);
  }

  // ----- editing a line

  predicate Set<T(==)>(field: Option<T>, was: T, now: T)
  {
    (field.Some? ==> now == field.value) && (field.None? ==> now == was)
  }

  /** The fields no edit touches. */
  predicate SameProduct(was: Line, now: Line)
  {
    && now.id == was.id && now.variant == was.variant && now.servings == was.servings
    && now.terms.unitPrice == was.terms.unitPrice && now.terms.upsizeEligible == was.terms.upsizeEligible
  }

  predicate OnlyQuantity(was: Line, now: Line, quantity: int)
  {
    && SameProduct(was, now) && now.terms.quantity == quantity && now.terms.discount == was.terms.discount
    && now.terms.upsizes == was.terms.upsizes && now.preferences == was.preferences && now.note == was.note
  }

  predicate FieldsSet(was: Line, now: Line, c: LineChange)
  {
    && SameProduct(was, now)
    && Set(c.quantity, was.terms.quantity, now.terms.quantity)
    && Set(c.discount, was.terms.discount, now.terms.discount)
    && Set(c.upsizes, was.terms.upsizes, now.terms.upsizes)
    && Set(c.note, was.note, now.note)
    && (c.preferences.None? ==> now.preferences == was.preferences)
    && (c.preferences.Some? ==> Prefers(now.preferences, c.preferences.value))
  }

  /** What an edit that leaves the line in the order makes of it. */
  predicate Becomes(was: Line, now: Line, edit: LineEdit)
  {
    match edit
    case Change(c) => FieldsSet(was, now, c)
    case Increment => OnlyQuantity(was, now, was.terms.quantity + 1)
    case Decrement => OnlyQuantity(was, now, was.terms.quantity - 1)
    case Remove => false
  }

  predicate Takes(l: Line, edit: LineEdit)
  {
    edit.Remove? || (edit.Decrement? && l.terms.quantity == 1)
  }

  /** The lines after an edit of the one at `i`: every other line is as it was and in its order. */
  predicate EditedAt(lines: seq<Line>, i: nat, edit: LineEdit, after: seq<Line>)
    requires i < |lines|
  {
    if Takes(lines[i], edit) then after == lines[..i] + lines[i + 1..]
    else
      && |after| == |lines| && (forall j | 0 <= j < |lines| && j != i :: after[j] == lines[j])
      && Becomes(lines[i], after[i], edit)
      && Acceptable(after[i].terms) && Amounts(after[i].terms, after[i].amounts)
  }

  /** Some line the edit could make of this one is accepted. */
  ghost predicate CanEdit(l: Line, edit: LineEdit)
  {
    Takes(l, edit) || exists now :: Becomes(l, now, edit) && Acceptable(now.terms)
  }

  /** What an edit writes before it is priced. */
  function Drafted(l: Line, edit: LineEdit): Line
  {
    match edit
    case Change(change) => Changed(l, change)
    case Increment => WithQuantity(l, l.terms.quantity + 1)
    case _ => WithQuantity(l, l.terms.quantity - 1)
  }

  lemma DraftBecomes(l: Line, edit: LineEdit)
    requires !Takes(l, edit)
    ensures Becomes(l, Drafted(l, edit), edit)
    ensures forall now | Becomes(l, now, edit) :: now.terms == Drafted(l, edit).terms
  {
    if edit.Change? && edit.change.preferences.Some? {
      NormalizedPrefers(edit.change.preferences.value);
    }
  }

  lemma DraftAccepted(l: Line, edit: LineEdit)
    requires !Takes(l, edit)
    ensures CanEdit(l, edit) <==> Priced(Drafted(l, edit)).Ok?
    ensures Priced(Drafted(l, edit)).Ok? ==>
      var now := Priced(Drafted(l, edit)).value;
      Becomes(l, now, edit) && Acceptable(now.terms) && Amounts(now.terms, now.amounts)
    ensures Priced(Drafted(l, edit)).Err? ==> Priced(Drafted(l, edit)).error.BadLine?
  {
    DraftBecomes(l, edit);
    PricedLine(Drafted(l, edit));
  }

  lemma EditFound(lines: seq<Line>, lineId: Id, edit: LineEdit)
    ensures var r, i := EditLines(lines, lineId, edit), Find(WithLineId(lineId), lines);
      r == (if i == |lines| then Err(LineNotFound)
            else if Takes(lines[i], edit) then Ok(Without(lines, i))
            else match Priced(Drafted(lines[i], edit))
              case Ok(line) => Ok(lines[i := line])
              case Err(e) => Err(e))
  {
  }

  lemma LineFound(lines: seq<Line>, lineId: Id)
    ensures Find(WithLineId(lineId), lines) == |lines| <==> forall l | l in lines :: l.id != lineId
  {
    var i := Find(WithLineId(lineId), lines);
    if i == |lines| {
      assert forall j | 0 <= j < |lines| :: !WithLineId(lineId)(lines[j]);
    } else {
      assert lines[i] in lines;
    }
  }

  /** An edit is refused as not found if and only if no line has the id, and goes through if and only
      if the line may be taken or changed so; it then does just that to the line it names. */
  lemma EditedLines(lines: seq<Line>, lineId: Id, edit: LineEdit)
    ensures var r := EditLines(lines, lineId, edit);
      && (r == Err(LineNotFound) <==> forall l | l in lines :: l.id != lineId)
      && (r != Err(LineNotFound) ==>
            exists i: nat | i < |lines| && lines[i].id == lineId ::
              && (forall j | 0 <= j < i :: lines[j].id != lineId)
              && (r.Ok? <==> CanEdit(lines[i], edit))
              && (r.Ok? ==> EditedAt(lines, i, edit, r.value)))
  {
    var i := Find(WithLineId(lineId), lines);
    EditFound(lines, lineId, edit);
    LineFound(lines, lineId);
    if i < |lines| {
      assert forall j | 0 <= j < i :: !WithLineId(lineId)(lines[j]);
      if !Takes(lines[i], edit) {
        DraftAccepted(lines[i], edit);
      }
    }
  }

  // ----- adding a line

  /** A line that asks for nothing but its product. */
  predicate Plain(l: Line)
  {
    l.terms.discount == NoDiscount && l.terms.upsizes == 0 && l.preferences == [] && l.note == None
  }

  predicate Joins(l: Line, incoming: Line)
  {
    Plain(l) && Plain(incoming) && l.variant == incoming.variant
  }

  predicate MergedAt(lines: seq<Line>, i: nat, incoming: Line, after: seq<Line>)
    requires i < |lines|
  {
    && |after| == |lines| && (forall j | 0 <= j < |lines| && j != i :: after[j] == lines[j])
    && OnlyQuantity(lines[i], after[i], lines[i].terms.quantity + incoming.terms.quantity)
    && Acceptable(after[i].terms) && Amounts(after[i].terms, after[i].amounts)
  }

  predicate InsertedAt(lines: seq<Line>, k: nat, incoming: Line, after: seq<Line>)
    requires k <= |lines|
  {
    && |after| == |lines| + 1 && after == lines[..k] + [after[k]] + lines[k..] && PricedAs(after[k], incoming)
    && (forall j | 0 <= j < k :: lines[j].id <= incoming.id)
    && (k < |lines| ==> incoming.id < lines[k].id)
  }

  lemma {:induction false} InsertedBetween(lines: seq<Line>, line: Line) returns (k: nat)
    ensures k <= |lines| && InsertById(lines, line) == lines[..k] + [line] + lines[k..]
    ensures forall j | 0 <= j < k :: lines[j].id <= line.id
    ensures k < |lines| ==> line.id < lines[k].id
  {
    if lines == [] || line.id < lines[0].id {
      k := 0;
    } else {
      var rest := InsertedBetween(lines[1..], line);
      k := rest + 1;
      assert lines[..k] == [lines[0]] + lines[1..][..rest] && lines[k..] == lines[1..][rest..];
    }
  }

  lemma FirstJoined(lines: seq<Line>, incoming: Line)
    ensures var i := if PlainMergeable(incoming) then Find(Mergeable(incoming.variant), lines) else |lines|;
      && (forall j | 0 <= j < i :: !Joins(lines[j], incoming))
      && (i < |lines| ==> Joins(lines[i], incoming))
  {
    if PlainMergeable(incoming) {
      assert forall j | 0 <= j < Find(Mergeable(incoming.variant), lines) ::
        !Mergeable(incoming.variant)(lines[j]);
    }
  }

  lemma MergedResult(lines: seq<Line>, incoming: Line, i: nat) returns (r: Result<Line, Error>)
    requires PlainMergeable(incoming) && i == Find(Mergeable(incoming.variant), lines) < |lines|
    ensures r == Priced(WithQuantity(lines[i], lines[i].terms.quantity + incoming.terms.quantity))
    ensures AddToLines(lines, incoming) == if r.Ok? then Ok(lines[i := r.value]) else Err(r.error)
  {
    r := Priced(WithQuantity(lines[i], lines[i].terms.quantity + incoming.terms.quantity));
  }

  lemma JoinedLine(lines: seq<Line>, incoming: Line, i: nat)
    requires PlainMergeable(incoming) && i == Find(Mergeable(incoming.variant), lines) < |lines|
    ensures var r := AddToLines(lines, incoming);
      var sum := lines[i].terms.quantity + incoming.terms.quantity;
      && (r.Ok? <==> Acceptable(lines[i].terms.(quantity := sum)))
      && (r.Ok? ==> MergedAt(lines, i, incoming, r.value)) && (r.Err? ==> r.error.BadLine?)
  {
    var r := MergedResult(lines, incoming, i);
    PricedLine(WithQuantity(lines[i], lines[i].terms.quantity + incoming.terms.quantity));
  }

  lemma SeparateLine(lines: seq<Line>, incoming: Line)
    requires PlainMergeable(incoming) ==> Find(Mergeable(incoming.variant), lines) == |lines|
    ensures var r := AddToLines(lines, incoming);
      && (r.Ok? <==> Acceptable(incoming.terms) && forall l | l in lines :: l.id != incoming.id)
      && (r.Ok? ==> exists k: nat | k <= |lines| :: InsertedAt(lines, k, incoming, r.value))
      && (r.Err? ==> if Acceptable(incoming.terms) then r.error.UniqueViolation? else r.error.BadLine?)
  {
    PricedLine(incoming);
    LineFound(lines, incoming.id);
    if AddToLines(lines, incoming).Ok? {
      var line := Priced(incoming).value;
      var k := InsertedBetween(lines, line);
      assert InsertedAt(lines, k, incoming, AddToLines(lines, incoming).value);
    }
  }

  predicate FirstToJoin(lines: seq<Line>, i: nat, incoming: Line)
    requires i < |lines|
  {
    Joins(lines[i], incoming) && forall j | 0 <= j < i :: !Joins(lines[j], incoming)
  }

  /** Adding to the line at `i`: it goes through if and only if the sum is acceptable. */
  predicate AddsTo(lines: seq<Line>, i: nat, incoming: Line, r: Result<seq<Line>, Error>)
    requires i < |lines|
  {
    && FirstToJoin(lines, i, incoming)
    && (r.Ok? <==> Acceptable(lines[i].terms.(quantity := lines[i].terms.quantity + incoming.terms.quantity)))
    && (r.Ok? ==> MergedAt(lines, i, incoming, r.value))
  }

  /** A plain line joins the first plain line of its size, which takes its quantity and stays as it is
      otherwise; any other line is put in by its id. Both go through exactly when the line that results
      is acceptable, a new one under an id of its own. */
  lemma AddedLines(lines: seq<Line>, incoming: Line)
    ensures var r := AddToLines(lines, incoming);
      if exists l | l in lines :: Joins(l, incoming) then
        exists i: nat | i < |lines| :: AddsTo(lines, i, incoming, r)
      else
        && (r.Ok? <==> Acceptable(incoming.terms) && forall l | l in lines :: l.id != incoming.id)
        && (r.Ok? ==> exists k: nat | k <= |lines| :: InsertedAt(lines, k, incoming, r.value))
  {
    FirstJoined(lines, incoming);
    var i := if PlainMergeable(incoming) then Find(Mergeable(incoming.variant), lines) else |lines|;
    if i < |lines| {
      assert lines[i] in lines;
      JoinedLine(lines, incoming, i);
      assert AddsTo(lines, i, incoming, AddToLines(lines, incoming));
    } else {
      SeparateLine(lines, incoming);
    }
  }
}
