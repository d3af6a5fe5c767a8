/** What every edit of an order keeps about its lines and its header. */
module Lines {
  import opened Tables
  import opened Money
  import opened Store
  import opened Orders

  predicate SortedIds(lines: seq<Line>)
  {
    forall i, j | 0 <= i < j < |lines| :: lines[i].id < lines[j].id
  }

  /** Every stored amount is what the line's own fields come to, and ids are strictly increasing. */
  predicate PricedLines(lines: seq<Line>)
  {
    && SortedIds(lines)
    && forall l | l in lines :: CalculateLineAmounts(l.terms) == Ok(l.amounts)
  }

  lemma {:induction false} TotalsAddUp(lines: seq<Line>)
    requires forall l | l in lines :: CalculateLineAmounts(l.terms) == Ok(l.amounts)
    ensures var t := TotalsOf(lines);
      && 0 <= t.total <= t.subtotal && 0 <= t.discount && 0 <= t.freeUpsize
      && t.total == Sum(LineTotalOf(), lines)
  {
    if lines != [] {
      LineAmountsWithinPrice(lines[0].terms);
      TotalsAddUp(lines[1..]);
    }
  }

  lemma {:induction false} InsertKeepsOrder(lines: seq<Line>, line: Line)
    requires SortedIds(lines)
    requires forall l | l in lines :: l.id != line.id
    ensures var r := InsertById(lines, line);
      && SortedIds(r) && r != []
      && (forall l | l in r :: l == line || l in lines)
      && line in r && (forall l | l in lines :: l in r)
      && |r| == |lines| + 1
  {
    if lines == [] || line.id < lines[0].id {
    } else {
      InsertKeepsOrder(lines[1..], line);
      var rest := InsertById(lines[1..], line);
      assert forall l | l in lines[1..] :: lines[0].id < l.id;
      assert forall l | l in rest :: lines[0].id < l.id;
    }
  }

  lemma AddKeepsPriced(lines: seq<Line>, incoming: Line)
    requires PricedLines(lines)
    ensures var r := AddToLines(lines, incoming);
      r.Ok? ==> PricedLines(r.value) && r.value != []
  {
    var r := AddToLines(lines, incoming);
    if r.Ok? && !(PlainMergeable(incoming) && Has(Mergeable(incoming.variant), lines)) {
      var line := Priced(incoming).value;
      assert forall l | l in lines :: !WithLineId(line.id)(l);
      InsertKeepsOrder(lines, line);
    }
  }

  lemma EditKeepsPriced(lines: seq<Line>, lineId: Id, edit: LineEdit)
    requires PricedLines(lines)
    ensures var r := EditLines(lines, lineId, edit);
      r.Ok? ==> PricedLines(r.value)
  {
  }

  function QuantityOf(variant: Id): Line -> int
  {
    (l: Line) => if l.variant == variant then l.terms.quantity else 0
  }

  lemma {:induction false} InsertAddsUp(f: Line -> int, lines: seq<Line>, line: Line)
    ensures Sum(f, InsertById(lines, line)) == Sum(f, lines) + f(line)
  {
    if lines == [] || line.id < lines[0].id {
      SumConcat(f, [line], lines);
    } else {
      InsertAddsUp(f, lines[1..], line);
      SumConcat(f, [lines[0]], InsertById(lines[1..], line));
    }
  }

  /** Adding a line orders exactly the added quantity of its own size, merged or not; a merge
      keeps the number of lines and the price the order was opened at. */
  lemma AddOrdersTheQuantity(lines: seq<Line>, incoming: Line, variant: Id)
    requires AddToLines(lines, incoming).Ok?
    ensures var r := AddToLines(lines, incoming).value;
      && Sum(QuantityOf(variant), r) == Sum(QuantityOf(variant), lines) + QuantityOf(variant)(incoming)
      && var merged := PlainMergeable(incoming) && exists l | l in lines :: Mergeable(incoming.variant)(l);
         |r| == |lines| + (if merged then 0 else 1)
  {
    var i := Find(Mergeable(incoming.variant), lines);
    if PlainMergeable(incoming) && i < |lines| {
      assert Mergeable(incoming.variant)(lines[i]);
      SumReplace(QuantityOf(variant), lines, i, AddToLines(lines, incoming).value[i]);
    } else {
      var line := Priced(incoming).value;
      InsertAddsUp(QuantityOf(variant), lines, line);
      InsertLength(lines, line);
    }
  }

  lemma {:induction false} InsertLength(lines: seq<Line>, line: Line)
    ensures |InsertById(lines, line)| == |lines| + 1
  {
    if !(lines == [] || line.id < lines[0].id) {
      InsertLength(lines[1..], line);
    }
  }

  /** Two preference lists are stored alike exactly when they hold the same preferences. */
  lemma NormalizedIsCanonical(a: seq<Preference>, b: seq<Preference>)
    ensures NormalizePreferences(a) == NormalizePreferences(b)
        <==> forall p: Preference :: p in a <==> p in b
  {
    if NormalizePreferences(a) == NormalizePreferences(b) {
      forall p: Preference
        ensures p in a <==> p in b
      {
        var all := PREFERENCE_ORDER;
        assert p == all[0] || p == all[1] || p == all[2] || p == all[3];
        assert p in NormalizePreferences(a) <==> p in a;
        assert p in NormalizePreferences(b) <==> p in b;
      }
    } else if forall p: Preference :: p in a <==> p in b {
      FilterAgree((p: Preference) => p in a, (p: Preference) => p in b, PREFERENCE_ORDER);
    }
  }
}
