/** Exactly when each request of the ledger goes through, in terms of the rows it finds, and that every
    refusal gives a reason that holds. */
module Acceptance {
  import opened Tables
  import opened Money
  import opened Store
  import opened Orders
  import opened TradingDays
  import opened Lines
  import opened LineEdits
  import opened Ledger
  import opened LedgerSteps
  import opened Tenders
  import Replays

  // ----- rows as a request finds them

  predicate AnyOpen(days: seq<Day>)
  {
    exists d | d in days :: d.isOpen
  }

  predicate IsOpen(days: seq<Day>, id: Id)
  {
    exists d | d in days :: d.id == id && d.isOpen
  }

  predicate OrderOf(st: State, clientId: Id, s: Sale)
  {
    s in st.sales && s.clientId == clientId && s.kind == Purchase
  }

  /** An order that may still be changed. */
  predicate ParkedOn(st: State, clientId: Id, s: Sale)
  {
    OrderOf(st, clientId, s) && s.status == Parked && IsOpen(st.days, s.day)
  }

  predicate UsedBy(sales: seq<Sale>, clientId: Id)
  {
    exists s | s in sales :: s.clientId == clientId
  }

  predicate RowUsed(sales: seq<Sale>, id: Id)
  {
    exists s | s in sales :: s.id == id
  }

  predicate MovementUsed(movements: seq<Movement>, id: Id)
  {
    exists m | m in movements :: m.id == id
  }

  predicate AmendedIn(movements: seq<Movement>, id: Id)
  {
    exists m | m in movements :: m.amends == Some(id)
  }

  predicate VoidedIn(sales: seq<Sale>, id: Id)
  {
    exists v | v in sales :: v.kind == Void && v.corrects == Some(id)
  }

  lemma HasIff<T>(q: T -> bool, rows: seq<T>)
    ensures Has(q, rows) <==> exists r | r in rows :: q(r)
    ensures Has(q, rows) ==> rows[Find(q, rows)] in rows
  {
    if r :| r in rows && q(r) {
      var k :| 0 <= k < |rows| && rows[k] == r;
    }
  }

  lemma OpenIff(days: seq<Day>)
    ensures Find(OpenNow(), days) < |days| <==> AnyOpen(days)
  {
    HasIff(OpenNow(), days);
  }

  lemma DayOpenIff(days: seq<Day>, id: Id)
    requires DaysInv(days)
    ensures DayIsOpen(days, id) <==> IsOpen(days, id)
  {
    if d :| d in days && d.id == id && d.isOpen {
      var k :| 0 <= k < |days| && days[k] == d;
      FoundByDayId(days, k);
    }
  }

  lemma SaleOfClient(sales: seq<Sale>, clientId: Id)
    requires SalesInv(sales)
    ensures var i := Find(WithClientId(clientId), sales);
      && (i < |sales| <==> UsedBy(sales, clientId))
      && (i < |sales| ==> sales[i] in sales && sales[i].clientId == clientId)
      && forall s | s in sales && s.clientId == clientId :: i < |sales| && sales[i] == s
  {
    HasIff(WithClientId(clientId), sales);
    var i := Find(WithClientId(clientId), sales);
    forall s | s in sales && s.clientId == clientId
      ensures i < |sales| && sales[i] == s
    {
      Replays.FoundSale(sales, s);
    }
  }

  lemma UsedIffs(st: State, sale: Id, movement: Id)
    ensures Has(WithSaleId(sale), st.sales) <==> RowUsed(st.sales, sale)
    ensures Has(Voiding(sale), st.sales) <==> VoidedIn(st.sales, sale)
    ensures Has(WithMovementId(movement), st.movements) <==> MovementUsed(st.movements, movement)
    ensures Superseded(st.movements, movement) <==> AmendedIn(st.movements, movement)
  {
    HasIff(WithSaleId(sale), st.sales);
    HasIff(Voiding(sale), st.sales);
    HasIff(WithMovementId(movement), st.movements);
    HasIff(Amending(movement), st.movements);
  }

  lemma ParkedIs(st: State, clientId: Id)
    ensures var r, i := ParkedOrder(st, clientId), Find(WithClientId(clientId), st.sales);
      r.Ok? <==>
        i < |st.sales| && st.sales[i].kind == Purchase && st.sales[i].status == Parked
        && DayIsOpen(st.days, st.sales[i].day)
    ensures ParkedOrder(st, clientId).Ok? ==>
      ParkedOrder(st, clientId).value == Find(WithClientId(clientId), st.sales)
  {
  }

  lemma ParkedIff(st: State, clientId: Id)
    requires SalesInv(st.sales) && DaysInv(st.days)
    ensures ParkedOrder(st, clientId).Ok? <==> exists s :: ParkedOn(st, clientId, s)
    ensures ParkedOrder(st, clientId).Ok? ==>
      var i := ParkedOrder(st, clientId).value;
      i < |st.sales| && ParkedOn(st, clientId, st.sales[i])
  {
    SaleOfClient(st.sales, clientId);
    ParkedIs(st, clientId);
    var i := Find(WithClientId(clientId), st.sales);
    if i < |st.sales| {
      DayOpenIff(st.days, st.sales[i].day);
      assert ParkedOrder(st, clientId).Ok? ==> ParkedOn(st, clientId, st.sales[i]);
    }
  }

  /** A request is refused unless it repeats one carried out before or is allowed now; only an allowed
      one changes the store. */
  predicate Outcome(st: State, after: State, reply: Reply, repeats: bool, allowed: bool)
  {
    && (reply.Failed? <==> !repeats && !allowed)
    && (after != st <==> allowed)
    && !(repeats && allowed)
  }

  // ----- orders

  function TermsAsked(input: LineInput, size: Variant): LineTerms
  {
    LineTerms(input.quantity, size.price, input.discount, input.upsizes, size.upsizeEligible)
  }

  lemma NewLineAccepted(id: Id, input: LineInput, size: Variant)
    ensures Priced(NewLine(id, input, size)).Ok? <==> Acceptable(TermsAsked(input, size))
  {
    PricedLine(NewLine(id, input, size));
  }

  /** A create that is no repeat needs an open day, a size to sell, an acceptable line and a row id of
      its own. */
  predicate MayCreate(st: State, saleId: Id, input: LineInput, variant: Option<Variant>)
  {
    && AnyOpen(st.days) && !RowUsed(st.sales, saleId)
    && variant.Some? && Acceptable(TermsAsked(input, variant.value))
  }

  predicate CanCreate(st: State, clientId: Id, saleId: Id, input: LineInput, variant: Option<Variant>)
  {
    !UsedBy(st.sales, clientId) && MayCreate(st, saleId, input, variant)
  }

  lemma CreateFound(st: State, clientId: Id, saleId: Id, lineId: Id, input: LineInput,
                    variant: Option<Variant>, customer: Option<string>, service: ServiceType)
    ensures var (after, reply) := Create(st, clientId, saleId, lineId, input, variant, customer, service);
      if Has(WithClientId(clientId), st.sales) then after == st && reply.OrderReply?
      else if && Has(OpenNow(), st.days) && !Has(WithSaleId(saleId), st.sales)
              && variant.Some? && Priced(NewLine(lineId, input, variant.value)).Ok?
      then after != st && reply.OrderReply?
      else after == st && reply.Failed?
  {
    var (after, reply) := Create(st, clientId, saleId, lineId, input, variant, customer, service);
    assert !Has(WithClientId(clientId), st.sales) && reply.OrderReply? ==> |after.sales| == |st.sales| + 1;
  }

  lemma CreateAccepted(st: State, clientId: Id, saleId: Id, lineId: Id, input: LineInput,
                       variant: Option<Variant>, customer: Option<string>, service: ServiceType)
    requires Inv(st)
    ensures var (after, reply) := Create(st, clientId, saleId, lineId, input, variant, customer, service);
      Outcome(st, after, reply, UsedBy(st.sales, clientId), CanCreate(st, clientId, saleId, input, variant))
  {
    CreateFound(st, clientId, saleId, lineId, input, variant, customer, service);
    SaleOfClient(st.sales, clientId);
    OpenIff(st.days);
    UsedIffs(st, saleId, 0);
    if variant.Some? {
      NewLineAccepted(lineId, input, variant.value);
    }
  }

  lemma RenameAccepted(st: State, clientId: Id, customer: Option<Option<string>>, service: Option<ServiceType>)
    requires Inv(st)
    ensures !UpdateOrder(st, clientId, customer, service).1.Failed? <==> exists s :: ParkedOn(st, clientId, s)
  {
    ParkedIff(st, clientId);
  }

  predicate Joinable(lines: seq<Line>, incoming: Line)
  {
    exists l | l in lines :: Joins(l, incoming)
  }

  predicate MayJoin(lines: seq<Line>, i: nat, incoming: Line)
  {
    && i < |lines| && FirstToJoin(lines, i, incoming)
    && Acceptable(lines[i].terms.(quantity := lines[i].terms.quantity + incoming.terms.quantity))
  }

  /** An incoming line joins a plain one of its size, or comes under an id of its own; the line that
      results is acceptable. */
  predicate MayAdd(lines: seq<Line>, incoming: Line)
  {
    if Joinable(lines, incoming) then exists i | 0 <= i < |lines| :: MayJoin(lines, i, incoming)
    else Acceptable(incoming.terms) && forall l | l in lines :: l.id != incoming.id
  }

  lemma OneFirst(lines: seq<Line>, i: nat, j: nat, incoming: Line)
    requires i < |lines| && FirstToJoin(lines, i, incoming)
    requires j < |lines| && FirstToJoin(lines, j, incoming)
    ensures i == j
  {
  }

  lemma MayJoinIff(lines: seq<Line>, i: nat, incoming: Line, r: Result<seq<Line>, Error>)
    requires i < |lines| && AddsTo(lines, i, incoming, r)
    ensures r.Ok? <==> exists j | 0 <= j < |lines| :: MayJoin(lines, j, incoming)
  {
    assert r.Ok? <==> MayJoin(lines, i, incoming);
    forall j | 0 <= j < |lines| && MayJoin(lines, j, incoming)
      ensures j == i
    {
      OneFirst(lines, i, j, incoming);
    }
  }

  lemma AddAccepted(lines: seq<Line>, incoming: Line)
    ensures AddToLines(lines, incoming).Ok? <==> MayAdd(lines, incoming)
  {
    var r := AddToLines(lines, incoming);
    AddedLines(lines, incoming);
    if Joinable(lines, incoming) {
      var i: nat :| i < |lines| && AddsTo(lines, i, incoming, r);
      MayJoinIff(lines, i, incoming, r);
    }
  }

  lemma AddLineIs(st: State, clientId: Id, lineId: Id, input: LineInput, variant: Option<Variant>)
    ensures var parked := ParkedOrder(st, clientId);
      !AddLine(st, clientId, lineId, input, variant).1.Failed? <==>
        && parked.Ok? && parked.value < |st.sales| && variant.Some?
        && AddToLines(st.sales[parked.value].lines, NewLine(lineId, input, variant.value)).Ok?
  {
  }

  /** The line asked for may be added. */
  ghost predicate MayAddAsked(lines: seq<Line>, id: Id, input: LineInput, size: Variant)
  {
    exists l :: AskedFor(l, id, input, size) && MayAdd(lines, l)
  }

  lemma PreferencesAlike(a: seq<Preference>, b: seq<Preference>, asked: seq<Preference>)
    requires Prefers(a, asked) && Prefers(b, asked)
    ensures a == [] <==> b == []
  {
    assert a != [] ==> a[0] in a;
    assert b != [] ==> b[0] in b;
  }

  lemma MayAddAlike(lines: seq<Line>, a: Line, b: Line)
    requires a.id == b.id && a.terms == b.terms && a.variant == b.variant && (Plain(a) <==> Plain(b))
    requires MayAdd(lines, a)
    ensures MayAdd(lines, b)
  {
    assert forall l :: Joins(l, a) <==> Joins(l, b);
    assert Joinable(lines, a) <==> Joinable(lines, b);
    if Joinable(lines, a) {
      var i :| 0 <= i < |lines| && MayJoin(lines, i, a);
      assert MayJoin(lines, i, b);
    }
  }

  lemma MayAddAskedIff(lines: seq<Line>, id: Id, input: LineInput, size: Variant)
    ensures MayAdd(lines, NewLine(id, input, size)) <==> MayAddAsked(lines, id, input, size)
  {
    var line := NewLine(id, input, size);
    NewLineIsAskedFor(id, input, size);
    if l :| AskedFor(l, id, input, size) && MayAdd(lines, l) {
      PreferencesAlike(l.preferences, line.preferences, input.preferences);
      MayAddAlike(lines, l, line);
    }
  }

  lemma AddLineAccepted(st: State, clientId: Id, lineId: Id, input: LineInput, variant: Option<Variant>)
    requires Inv(st)
    ensures !AddLine(st, clientId, lineId, input, variant).1.Failed? <==>
      && variant.Some?
      && exists s :: ParkedOn(st, clientId, s) && MayAddAsked(s.lines, lineId, input, variant.value)
  {
    ParkedIff(st, clientId);
    SaleOfClient(st.sales, clientId);
    AddLineIs(st, clientId, lineId, input, variant);
    if ParkedOrder(st, clientId).Ok? && variant.Some? {
      var lines := st.sales[ParkedOrder(st, clientId).value].lines;
      AddAccepted(lines, NewLine(lineId, input, variant.value));
      MayAddAskedIff(lines, lineId, input, variant.value);
    }
  }

  ghost predicate MayEdit(lines: seq<Line>, lineId: Id, edit: LineEdit)
  {
    exists l | l in lines && l.id == lineId :: CanEdit(l, edit)
  }

  lemma EditAccepted(lines: seq<Line>, lineId: Id, edit: LineEdit)
    requires SortedIds(lines)
    ensures EditLines(lines, lineId, edit).Ok? <==> MayEdit(lines, lineId, edit)
  {
    EditedLines(lines, lineId, edit);
    forall i, j | 0 <= i < |lines| && 0 <= j < |lines| && lines[i].id == lines[j].id
      ensures i == j
    {
    }
  }

  lemma EditLineIs(st: State, clientId: Id, lineId: Id, edit: LineEdit)
    ensures var parked := ParkedOrder(st, clientId);
      !EditLine(st, clientId, lineId, edit).1.Failed? <==>
        && parked.Ok? && parked.value < |st.sales|
        && EditLines(st.sales[parked.value].lines, lineId, edit).Ok?
  {
  }

  lemma EditLineAccepted(st: State, clientId: Id, lineId: Id, edit: LineEdit)
    requires Inv(st)
    ensures !EditLine(st, clientId, lineId, edit).1.Failed? <==>
      exists s :: ParkedOn(st, clientId, s) && MayEdit(s.lines, lineId, edit)
  {
    ParkedIff(st, clientId);
    SaleOfClient(st.sales, clientId);
    EditLineIs(st, clientId, lineId, edit);
    if ParkedOrder(st, clientId).Ok? {
      var s := st.sales[ParkedOrder(st, clientId).value];
      assert PurchaseOk(s);
      EditAccepted(s.lines, lineId, edit);
    }
  }

  /** A completion needs a parked order of an open day and a tender that pays its total. */
  predicate MayComplete(st: State, s: Sale, t: Tender)
  {
    s.status == Parked && IsOpen(st.days, s.day) && Pays(t, s.totals.total) && CashCovers(t)
  }

  lemma CompleteFound(st: State, s: Sale, t: Tender, now: int)
    requires Inv(st) && s in st.sales && s.kind == Purchase && WellFormedTender(t)
    requires Find(WithClientId(s.clientId), st.sales) < |st.sales|
    requires st.sales[Find(WithClientId(s.clientId), st.sales)] == s
    ensures var (after, reply) := Complete(st, s.clientId, t, now);
      if s.status == Completed then after == st && reply == OrderReply(s)
      else if MayComplete(st, s, t) then after != st && reply.OrderReply?
      else after == st && reply.Failed?
  {
    assert PurchaseOk(s);
    DayOpenIff(st.days, s.day);
    TenderAcceptedIff(s.totals.total, t);
    var i := Find(WithClientId(s.clientId), st.sales);
    var (after, reply) := Complete(st, s.clientId, t, now);
    if reply.OrderReply? && s.status == Parked {
      assert after.sales[i].status == Completed;
    }
  }

  ghost predicate CompletedAlready(st: State, clientId: Id, t: Tender)
  {
    NoneNegative(t) && exists s :: OrderOf(st, clientId, s) && s.status == Completed
  }

  ghost predicate CanComplete(st: State, clientId: Id, t: Tender)
  {
    NoneNegative(t) && exists s :: OrderOf(st, clientId, s) && MayComplete(st, s, t)
  }

  lemma CompleteAccepted(st: State, clientId: Id, t: Tender, now: int)
    requires Inv(st)
    ensures var (after, reply) := Complete(st, clientId, t, now);
      Outcome(st, after, reply, CompletedAlready(st, clientId, t), CanComplete(st, clientId, t))
  {
    SaleOfClient(st.sales, clientId);
    var i := Find(WithClientId(clientId), st.sales);
    if i < |st.sales| && st.sales[i].kind == Purchase && NoneNegative(t) {
      CompleteFound(st, st.sales[i], t, now);
    }
  }

  ghost predicate SettledAlready(st: State, clientId: Id)
  {
    exists s :: OrderOf(st, clientId, s) && s.status == Completed && 0 < s.owed && s.settledAt.Some?
  }

  /** Change is paid out once, and only where some was withheld. */
  ghost predicate CanSettle(st: State, clientId: Id)
  {
    exists s :: OrderOf(st, clientId, s) && s.status == Completed && 0 < s.owed && s.settledAt.None?
  }

  lemma SettleAccepted(st: State, clientId: Id, now: int)
    requires Inv(st)
    ensures var (after, reply) := SettleChange(st, clientId, now);
      Outcome(st, after, reply, SettledAlready(st, clientId), CanSettle(st, clientId))
  {
    SaleOfClient(st.sales, clientId);
    var i := Find(WithClientId(clientId), st.sales);
    var (after, reply) := SettleChange(st, clientId, now);
    if i < |st.sales| && reply.OrderReply? && st.sales[i].settledAt.None? {
      assert after.sales[i].settledAt.Some?;
    }
  }

  // ----- voids

  /** The void this request has already left behind. */
  predicate VoidOf(st: State, originalClientId: Id, clientId: Id, v: Sale)
  {
    && v in st.sales && v.clientId == clientId && v.kind == Void
    && exists o | o in st.sales && o.clientId == originalClientId :: v.corrects == Some(o.id)
  }

  /** A void needs an open day, a completed order that has none yet, of that day unless an administrator
      asks, and ids of its own. */
  predicate MayVoid(st: State, o: Sale, clientId: Id, saleId: Id, isAdmin: bool)
  {
    && !UsedBy(st.sales, clientId) && !RowUsed(st.sales, saleId)
    && o.status == Completed && !VoidedIn(st.sales, o.id)
    && exists d | d in st.days :: d.isOpen && (isAdmin || o.day == d.id)
  }

  lemma VoidReplayIs(sales: seq<Sale>, originalClientId: Id, clientId: Id)
    ensures var found := FindVoidReplay(sales, clientId, originalClientId);
      var v, o := Find(WithClientId(clientId), sales), Find(WithClientId(originalClientId), sales);
      && (found == Ok(None) <==> v == |sales|)
      && (found.Ok? && found.value.Some? <==>
            v < |sales| && sales[v].kind == Void && o < |sales| && sales[v].corrects == Some(sales[o].id))
  {
  }

  lemma VoidReplayIff(st: State, originalClientId: Id, clientId: Id)
    requires Inv(st)
    ensures var found := FindVoidReplay(st.sales, clientId, originalClientId);
      && (found == Ok(None) <==> !UsedBy(st.sales, clientId))
      && (found.Ok? && found.value.Some? <==> exists v :: VoidOf(st, originalClientId, clientId, v))
  {
    VoidReplayIs(st.sales, originalClientId, clientId);
    VoidOfIff(st, originalClientId, clientId);
    SaleOfClient(st.sales, clientId);
  }

  lemma VoidOfIff(st: State, originalClientId: Id, clientId: Id)
    requires SalesInv(st.sales)
    ensures var v, o := Find(WithClientId(clientId), st.sales), Find(WithClientId(originalClientId), st.sales);
      (v < |st.sales| && st.sales[v].kind == Void && o < |st.sales| && st.sales[v].corrects == Some(st.sales[o].id))
      <==> exists x :: VoidOf(st, originalClientId, clientId, x)
  {
    SaleOfClient(st.sales, clientId);
    SaleOfClient(st.sales, originalClientId);
    var v, o := Find(WithClientId(clientId), st.sales), Find(WithClientId(originalClientId), st.sales);
    if v < |st.sales| && st.sales[v].kind == Void && o < |st.sales| && st.sales[v].corrects == Some(st.sales[o].id) {
      assert VoidOf(st, originalClientId, clientId, st.sales[v]);
    }
    if x :| VoidOf(st, originalClientId, clientId, x) {
      assert st.sales[v] == x;
    }
  }

  lemma OnlyOpenDay(days: seq<Day>)
    requires DaysInv(days)
    ensures var d := Find(OpenNow(), days);
      && (d < |days| <==> AnyOpen(days)) && (d < |days| ==> days[d] in days)
      && forall e | e in days && e.isOpen :: d < |days| && days[d] == e
  {
    OpenIff(days);
    var d := Find(OpenNow(), days);
    forall e | e in days && e.isOpen
      ensures d < |days| && days[d] == e
    {
      var k :| 0 <= k < |days| && days[k] == e;
      assert OpenNow()(days[k]);
    }
  }

  predicate VoidableAt(st: State, i: nat, d: nat, saleId: Id, isAdmin: bool)
  {
    && i < |st.sales| && st.sales[i].kind == Purchase && st.sales[i].status == Completed
    && !Has(Voiding(st.sales[i].id), st.sales)
    && d < |st.days| && (isAdmin || st.sales[i].day == st.days[d].id) && !Has(WithSaleId(saleId), st.sales)
  }

  lemma FreshVoid(st: State, originalClientId: Id, clientId: Id, saleId: Id, isAdmin: bool)
    requires FindVoidReplay(st.sales, clientId, originalClientId) == Ok(None)
    ensures var (after, reply) := VoidOrder(st, originalClientId, clientId, saleId, isAdmin);
      var i, d := Find(WithClientId(originalClientId), st.sales), Find(OpenNow(), st.days);
      if VoidableAt(st, i, d, saleId, isAdmin) then after != st && reply.OrderReply?
      else after == st && reply.Failed?
  {
    var (after, reply) := VoidOrder(st, originalClientId, clientId, saleId, isAdmin);
    assert reply.OrderReply? ==> |after.sales| == |st.sales| + 1;
  }

  lemma VoidableIff(st: State, i: nat, d: nat, clientId: Id, saleId: Id, isAdmin: bool)
    requires DaysInv(st.days) && !UsedBy(st.sales, clientId) && i < |st.sales| && st.sales[i].kind == Purchase
    requires d == Find(OpenNow(), st.days)
    ensures VoidableAt(st, i, d, saleId, isAdmin) <==> MayVoid(st, st.sales[i], clientId, saleId, isAdmin)
  {
    OnlyOpenDay(st.days);
    UsedIffs(st, saleId, 0);
    UsedIffs(st, st.sales[i].id, 0);
  }

  lemma FreshVoidIff(st: State, originalClientId: Id, clientId: Id, saleId: Id, isAdmin: bool)
    requires Inv(st) && !UsedBy(st.sales, clientId)
    ensures VoidableAt(st, Find(WithClientId(originalClientId), st.sales), Find(OpenNow(), st.days), saleId, isAdmin)
      <==> exists o :: OrderOf(st, originalClientId, o) && MayVoid(st, o, clientId, saleId, isAdmin)
  {
    SaleOfClient(st.sales, originalClientId);
    var i, d := Find(WithClientId(originalClientId), st.sales), Find(OpenNow(), st.days);
    if i < |st.sales| && st.sales[i].kind == Purchase {
      VoidableIff(st, i, d, clientId, saleId, isAdmin);
      assert OrderOf(st, originalClientId, st.sales[i]);
    }
  }

  ghost predicate VoidedAlready(st: State, originalClientId: Id, clientId: Id)
  {
    exists v :: VoidOf(st, originalClientId, clientId, v)
  }

  ghost predicate CanVoid(st: State, originalClientId: Id, clientId: Id, saleId: Id, isAdmin: bool)
  {
    exists o :: OrderOf(st, originalClientId, o) && MayVoid(st, o, clientId, saleId, isAdmin)
  }

  lemma VoidAccepted(st: State, originalClientId: Id, clientId: Id, saleId: Id, isAdmin: bool)
    requires Inv(st)
    ensures var (after, reply) := VoidOrder(st, originalClientId, clientId, saleId, isAdmin);
      Outcome(st, after, reply, VoidedAlready(st, originalClientId, clientId),
              CanVoid(st, originalClientId, clientId, saleId, isAdmin))
  {
    VoidReplayIff(st, originalClientId, clientId);
    if !UsedBy(st.sales, clientId) {
      FreshVoid(st, originalClientId, clientId, saleId, isAdmin);
      FreshVoidIff(st, originalClientId, clientId, saleId, isAdmin);
    }
  }

  // ----- days

  predicate MayOpen(st: State, dayId: Id, date: int, openingFloat: int, openerActive: bool)
  {
    && 0 <= openingFloat <= MAX_SAFE && openerActive && !AnyOpen(st.days)
    && forall d | d in st.days :: d.date != date && d.id != dayId
  }

  lemma OpenAccepted(st: State, dayId: Id, date: int, openingFloat: int, openerActive: bool, now: int)
    ensures var (after, reply) := OpenDay(st, dayId, date, openingFloat, openerActive, now);
      Outcome(st, after, reply, false, MayOpen(st, dayId, date, openingFloat, openerActive))
  {
    OpenIff(st.days);
    HasIff(OnDate(date), st.days);
    HasIff(WithDayId(dayId), st.days);
    var (after, reply) := OpenDay(st, dayId, date, openingFloat, openerActive, now);
    assert reply.DayReply? ==> |after.days| == |st.days| + 1;
  }

  predicate SafeSale(s: Sale)
  {
    Safe(s.tip) && Safe(s.owed) && forall p | p in s.payments :: Safe(p.amount)
  }

  /** Every amount of the day and every sum of them is a safe integer. */
  predicate SafeToClose(st: State, day: Day, actual: int)
  {
    && (forall s | s in st.sales && s.day == day.id :: SafeSale(s))
    && (forall m | m in st.movements && m.day == day.id && !AmendedIn(st.movements, m.id) :: Safe(m.amount))
    && FiguresSafe(DayFigures(st, day.id), day.openingFloat)
    && Safe(actual - Left(DayFigures(st, day.id), day.openingFloat))
  }

  lemma {:induction false} PaymentsOfTheDay(day: Id, sales: seq<Sale>)
    ensures forall p :: p in Flatten(Map(PaymentsIfOn(day), sales)) <==>
      exists s | s in sales && s.day == day :: p in s.payments
  {
    if sales != [] {
      PaymentsOfTheDay(day, sales[1..]);
      assert Map(PaymentsIfOn(day), sales)[1..] == Map(PaymentsIfOn(day), sales[1..]);
      assert sales == [sales[0]] + sales[1..];
    }
  }

  lemma RowsSafeIff(st: State, day: Id)
    ensures RowsSafe(PaymentsOn(st, day), Filter(SaleOn(day), st.sales),
                     Filter(EffectiveRow(st.movements, day), st.movements)) <==>
      && (forall s | s in st.sales && s.day == day :: SafeSale(s))
      && (forall m | m in st.movements && m.day == day && !AmendedIn(st.movements, m.id) :: Safe(m.amount))
  {
    PaymentsOfTheDay(day, st.sales);
    forall m | m in st.movements
      ensures EffectiveRow(st.movements, day)(m) <==> m.day == day && !AmendedIn(st.movements, m.id)
    {
      UsedIffs(st, 0, m.id);
    }
    forall s | s in st.sales && s.day == day
      ensures s in Filter(SaleOn(day), st.sales)
    {
    }
  }

  lemma CashQueried(st: State, day: Day, actual: int)
    ensures CalculateCash(st, day, false, Some(actual)).Some? <==>
      && RowsSafe(PaymentsOn(st, day.id), Filter(SaleOn(day.id), st.sales),
                  Filter(EffectiveRow(st.movements, day.id), st.movements))
      && CalculateCashReconciliation(false, day.openingFloat, DayFigures(st, day.id), Some(actual)).Some?
  {
    QueriesMatchFigures(st, day.id);
  }

  lemma CashSafeIff(st: State, day: Day, actual: int)
    requires Safe(actual)
    ensures CalculateCash(st, day, false, Some(actual)).Some? <==> SafeToClose(st, day, actual)
  {
    CashQueried(st, day, actual);
    RowsSafeIff(st, day.id);
    ReconciledIff(false, day.openingFloat, DayFigures(st, day.id), Some(actual));
  }

  /** A closing needs an open day whose amounts are safe, and ids of its own. */
  predicate MayClose(st: State, closingId: Id, countId: Id, actual: int, closerActive: bool)
  {
    && closerActive && (forall c | c in st.closings :: c.id != closingId)
    && (forall c | c in st.counts :: c.id != countId)
    && exists d | d in st.days && d.isOpen :: SafeToClose(st, d, actual)
  }

  lemma CloseFound(st: State, closingId: Id, countId: Id, actual: int, closerActive: bool, now: int)
    requires Safe(actual) && 0 <= actual && !Has(WithClosingId(closingId), st.closings)
    ensures var (after, reply) := CloseDay(st, closingId, countId, actual, closerActive, now);
      var d := Find(OpenNow(), st.days);
      if && d < |st.days| && closerActive && CalculateCash(st, st.days[d], false, Some(actual)).Some?
         && forall c | c in st.counts :: c.id != countId
      then after != st && reply.ClosingReply?
      else after == st && reply.Failed?
  {
    var (after, reply) := CloseDay(st, closingId, countId, actual, closerActive, now);
    assert reply.ClosingReply? ==> |after.closings| == |st.closings| + 1;
  }

  predicate ClosedAlready(st: State, closingId: Id, actual: int)
  {
    0 <= actual <= MAX_SAFE && exists c | c in st.closings :: c.id == closingId
  }

  predicate CanClose(st: State, closingId: Id, countId: Id, actual: int, closerActive: bool)
  {
    0 <= actual <= MAX_SAFE && MayClose(st, closingId, countId, actual, closerActive)
  }

  lemma CloseAccepted(st: State, closingId: Id, countId: Id, actual: int, closerActive: bool, now: int)
    requires Inv(st)
    ensures var (after, reply) := CloseDay(st, closingId, countId, actual, closerActive, now);
      Outcome(st, after, reply, ClosedAlready(st, closingId, actual),
              CanClose(st, closingId, countId, actual, closerActive))
  {
    HasIff(WithClosingId(closingId), st.closings);
    OnlyOpenDay(st.days);
    var d := Find(OpenNow(), st.days);
    if Safe(actual) && 0 <= actual && !Has(WithClosingId(closingId), st.closings) {
      CloseFound(st, closingId, countId, actual, closerActive, now);
      if d < |st.days| {
        CashSafeIff(st, st.days[d], actual);
      }
    }
  }

  // ----- movements

  /** A described amount of at least a cent that fits its column, with a category only for an expense. */
  predicate GoodMovement(input: MovementInput)
  {
    && 1 <= input.amount <= 2_147_483_647 && input.description != ""
    && (input.category.Some? ==> input.kind == Expense)
  }

  predicate MovedAlready(st: State, input: MovementInput)
  {
    GoodMovement(input) && MovementUsed(st.movements, input.id)
  }

  predicate CanRecord(st: State, input: MovementInput)
  {
    && GoodMovement(input) && !MovementUsed(st.movements, input.id)
    && AnyOpen(st.days) && input.recorder != Some(false)
  }

  lemma RecordAccepted(st: State, input: MovementInput)
    ensures var (after, reply) := RecordMovement(st, input);
      Outcome(st, after, reply, MovedAlready(st, input), CanRecord(st, input))
  {
    OpenIff(st.days);
    UsedIffs(st, 0, input.id);
    var (after, reply) := RecordMovement(st, input);
    assert reply.MovementReply? && !MovementUsed(st.movements, input.id) ==>
      |after.movements| == |st.movements| + 1;
  }

  /** An amendment needs a movement of an open day that nothing has amended. */
  predicate MayAmend(st: State, targetId: Id, input: MovementInput)
  {
    && input.recorder != Some(false) && !AmendedIn(st.movements, targetId)
    && exists m | m in st.movements && m.id == targetId :: IsOpen(st.days, m.day)
  }

  lemma MovementFound(st: State, id: Id)
    requires MovementsInv(st.movements)
    ensures var t := Find(WithMovementId(id), st.movements);
      && (t < |st.movements| ==> st.movements[t] in st.movements)
      && forall m | m in st.movements && m.id == id :: t < |st.movements| && st.movements[t] == m
  {
    var t := Find(WithMovementId(id), st.movements);
    forall m | m in st.movements && m.id == id
      ensures t < |st.movements| && st.movements[t] == m
    {
      Replays.FoundMovement(st.movements, m);
    }
  }

  lemma AmendFound(st: State, targetId: Id, input: MovementInput)
    requires ValidMovement(input) && !Has(WithMovementId(input.id), st.movements)
    ensures var (after, reply) := AmendMovement(st, targetId, input);
      var t := Find(WithMovementId(targetId), st.movements);
      if && t < |st.movements| && DayIsOpen(st.days, st.movements[t].day)
         && !Superseded(st.movements, targetId) && input.recorder != Some(false)
      then after != st && reply.MovementReply?
      else after == st && reply.Failed?
  {
    var (after, reply) := AmendMovement(st, targetId, input);
    assert reply.MovementReply? ==> |after.movements| == |st.movements| + 1;
  }

  predicate CanAmend(st: State, targetId: Id, input: MovementInput)
  {
    GoodMovement(input) && !MovementUsed(st.movements, input.id) && MayAmend(st, targetId, input)
  }

  lemma AmendAccepted(st: State, targetId: Id, input: MovementInput)
    requires Inv(st)
    ensures var (after, reply) := AmendMovement(st, targetId, input);
      Outcome(st, after, reply, MovedAlready(st, input), CanAmend(st, targetId, input))
  {
    UsedIffs(st, 0, input.id);
    UsedIffs(st, 0, targetId);
    MovementFound(st, targetId);
    var t := Find(WithMovementId(targetId), st.movements);
    if t < |st.movements| {
      DayOpenIff(st.days, st.movements[t].day);
    }
    if ValidMovement(input) && !Has(WithMovementId(input.id), st.movements) {
      AmendFound(st, targetId, input);
    }
  }

  // ----- every request

  /** The request has been carried out before and is answered from what it left behind. */
  ghost predicate Repeats(st: State, r: Request)
  {
    match r
    case CreateOrder(c, _, _, _, _, _, _) => UsedBy(st.sales, c)
    case CompleteOrder(c, t, _) => CompletedAlready(st, c, t)
    case SettleOrder(c, _) => SettledAlready(st, c)
    case VoidSale(c, v, _, _) => VoidedAlready(st, c, v)
    case Close(id, _, actual, _, _) => ClosedAlready(st, id, actual)
    case Record(m) => MovedAlready(st, m)
    case Amend(_, m) => MovedAlready(st, m)
    case _ => false
  }

  /** The rows the request finds let it be carried out now. */
  ghost predicate Allowed(st: State, r: Request)
  {
    match r
    case CreateOrder(c, s, _, input, v, _, _) => CanCreate(st, c, s, input, v)
    case RenameOrder(c, _, _) => exists s :: ParkedOn(st, c, s)
    case AddOrderLine(c, l, input, v) =>
      v.Some? && exists s :: ParkedOn(st, c, s) && MayAddAsked(s.lines, l, input, v.value)
    case EditOrderLine(c, l, edit) => exists s :: ParkedOn(st, c, s) && MayEdit(s.lines, l, edit)
    case CompleteOrder(c, t, _) => CanComplete(st, c, t)
    case SettleOrder(c, _) => CanSettle(st, c)
    case VoidSale(c, v, id, admin) => CanVoid(st, c, v, id, admin)
    case Open(d, date, float, active, _) => MayOpen(st, d, date, float, active)
    case Close(c, k, actual, active, _) => CanClose(st, c, k, actual, active)
    case Record(m) => CanRecord(st, m)
    case Amend(t, m) => CanAmend(st, t, m)
  }

  /** Edits of a parked order may leave it as it is. */
  predicate Edits(r: Request)
  {
    r.RenameOrder? || r.AddOrderLine? || r.EditOrderLine?
  }

  lemma EditFails(st: State, r: Request)
    requires Edits(r) && Step(st, r).1.Failed?
    ensures Next(st, r) == st
  {
  }

  /** An edit is refused, and changes nothing, unless it is allowed. */
  lemma EditAnsweredIff(st: State, r: Request)
    requires Inv(st) && Edits(r)
    ensures Step(st, r).1.Failed? <==> !Allowed(st, r)
    ensures Step(st, r).1.Failed? ==> Next(st, r) == st
  {
    if r.RenameOrder? {
      RenameOrderStep(st, r);
      RenameAccepted(st, r.clientId, r.newCustomer, r.newService);
    } else if r.AddOrderLine? {
      AddOrderLineStep(st, r);
      AddLineAccepted(st, r.clientId, r.lineId, r.input, r.variant);
    } else {
      EditOrderLineStep(st, r);
      EditLineAccepted(st, r.clientId, r.lineId, r.edit);
    }
    if Step(st, r).1.Failed? {
      EditFails(st, r);
    }
  }

  lemma SalesAnswered(st: State, r: Request)
    requires Inv(st) && (r.CreateOrder? || r.CompleteOrder? || r.SettleOrder? || r.VoidSale?)
    ensures Outcome(st, Next(st, r), Step(st, r).1, Repeats(st, r), Allowed(st, r))
  {
    if r.CreateOrder? {
      CreateOrderStep(st, r);
      CreateAccepted(st, r.clientId, r.saleId, r.lineId, r.input, r.variant, r.customer, r.service);
    } else if r.CompleteOrder? {
      CompleteOrderStep(st, r);
      CompleteAccepted(st, r.clientId, r.tender, r.now);
    } else if r.SettleOrder? {
      SettleOrderStep(st, r);
      SettleAccepted(st, r.clientId, r.now);
    } else {
      VoidSaleStep(st, r);
      VoidAccepted(st, r.clientId, r.voidClientId, r.saleId, r.isAdmin);
    }
  }

  lemma OpenAnswered(st: State, r: Request)
    requires r.Open?
    ensures Outcome(st, Next(st, r), Step(st, r).1, Repeats(st, r), Allowed(st, r))
  {
    OpenStep(st, r);
    OpenAccepted(st, r.dayId, r.date, r.openingFloat, r.openerActive, r.now);
  }

  lemma CloseMeans(st: State, r: Request)
    requires r.Close?
    ensures Repeats(st, r) == ClosedAlready(st, r.closingId, r.actual)
    ensures Allowed(st, r) == CanClose(st, r.closingId, r.countId, r.actual, r.closerActive)
  {
  }

  lemma CloseAnswered(st: State, r: Request)
    requires Inv(st) && r.Close?
    ensures Outcome(st, Next(st, r), Step(st, r).1, Repeats(st, r), Allowed(st, r))
  {
    CloseStep(st, r);
    CloseMeans(st, r);
    CloseAccepted(st, r.closingId, r.countId, r.actual, r.closerActive, r.now);
  }

  lemma RecordMeans(st: State, r: Request)
    requires r.Record?
    ensures Repeats(st, r) == MovedAlready(st, r.movement) && Allowed(st, r) == CanRecord(st, r.movement)
  {
  }

  lemma RecordAnswered(st: State, r: Request)
    requires r.Record?
    ensures Outcome(st, Next(st, r), Step(st, r).1, Repeats(st, r), Allowed(st, r))
  {
    RecordStep(st, r);
    RecordMeans(st, r);
    RecordAccepted(st, r.movement);
  }

  lemma AmendMeans(st: State, r: Request)
    requires r.Amend?
    ensures Repeats(st, r) == MovedAlready(st, r.movement)
    ensures Allowed(st, r) == CanAmend(st, r.targetId, r.movement)
  {
  }

  lemma AmendAnswered(st: State, r: Request)
    requires Inv(st) && r.Amend?
    ensures Outcome(st, Next(st, r), Step(st, r).1, Repeats(st, r), Allowed(st, r))
  {
    AmendStep(st, r);
    AmendMeans(st, r);
    AmendAccepted(st, r.targetId, r.movement);
  }

  /** A request that is no edit is refused unless it repeats one carried out before, which changes
      nothing, or the rows it finds allow it, and then it changes the store. */
  lemma AnsweredIff(st: State, r: Request)
    requires Inv(st) && !Edits(r)
    ensures Outcome(st, Next(st, r), Step(st, r).1, Repeats(st, r), Allowed(st, r))
  {
    if r.Open? {
      OpenAnswered(st, r);
    } else if r.Close? {
      CloseAnswered(st, r);
    } else if r.Record? {
      RecordAnswered(st, r);
    } else if r.Amend? {
      AmendAnswered(st, r);
    } else {
      SalesAnswered(st, r);
    }
  }

  /** The one row a repeated request has left behind. */
  predicate Answers(st: State, r: Request, reply: Reply)
  {
    match r
    case CreateOrder(c, _, _, _, _, _, _) => reply.OrderReply? && reply.sale in st.sales && reply.sale.clientId == c
    case CompleteOrder(c, _, _) => reply.OrderReply? && reply.sale in st.sales && reply.sale.clientId == c
    case SettleOrder(c, _) => reply.OrderReply? && reply.sale in st.sales && reply.sale.clientId == c
    case VoidSale(_, v, _, _) => reply.OrderReply? && reply.sale in st.sales && reply.sale.clientId == v
    case Close(id, _, _, _, _) => reply.ClosingReply? && reply.closing in st.closings && reply.closing.id == id
    case Record(m) => reply.MovementReply? && reply.movement in st.movements && reply.movement.id == m.id
    case Amend(_, m) => reply.MovementReply? && reply.movement in st.movements && reply.movement.id == m.id
    case _ => false
  }

  lemma SameSaleAnswers(st: State, r: Request)
    requires r.CreateOrder? || r.CompleteOrder? || r.SettleOrder?
    requires !Step(st, r).1.Failed? && Next(st, r) == st
    ensures Answers(st, r, Step(st, r).1)
  {
    var i := Find(WithClientId(r.clientId), st.sales);
    assert i < |st.sales| ==> st.sales[i] in st.sales;
    if r.CreateOrder? {
      CreateOrderStep(st, r);
      CreateFound(st, r.clientId, r.saleId, r.lineId, r.input, r.variant, r.customer, r.service);
    }
  }

  lemma SameRowAnswers(st: State, r: Request)
    requires r.VoidSale? || r.Close? || r.Record? || r.Amend?
    requires !Step(st, r).1.Failed? && Next(st, r) == st
    ensures Answers(st, r, Step(st, r).1)
  {
  }

  /** A repeated request is answered with the row it left behind. */
  lemma RepeatIsAnswered(st: State, r: Request)
    requires Inv(st) && Repeats(st, r)
    ensures Answers(st, r, Step(st, r).1)
  {
    AnsweredIff(st, r);
    if r.VoidSale? || r.Close? || r.Record? || r.Amend? {
      SameRowAnswers(st, r);
    } else {
      SameSaleAnswers(st, r);
    }
  }
}
