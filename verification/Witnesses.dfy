/** Runs of the ledger, from empty tables, on which two expectations fail. */
module Witnesses {
  import opened Tables
  import opened Money
  import opened Store
  import opened Orders
  import opened TradingDays
  import opened Ledger
  import opened LedgerSteps
  import opened History
  import opened Reports

  const OPEN_DAY: Request := Open(1, 10, 0, true, 0)

  /** One line of one peso, of a size that draws two servings of packaging. */
  const CREATE: Request :=
    CreateOrder(7, 8, 9, LineInput(1, NoDiscount, [], None, 0), Some(Variant(3, 100, 2, false)), None, DineIn)

  const REMOVE_LINE: Request := EditOrderLine(7, 9, Remove)

  const COMPLETE: Request := CompleteOrder(7, Tender([Payment(Cash, 100)], None, 0, 0), 5)

  const VOID: Request := VoidSale(7, 17, 18, true)

  const LINE: Line :=
    Line(9, 3, LineTerms(1, 100, NoDiscount, 0, false), [], None, 2, LineAmounts(100, 0, 0, 100))

  const PARKED_SALE: Sale :=
    Sale(8, 7, 1, Purchase, None, 1, Parked, None, DineIn, Totals(100, 0, 0, 100), 0, None, 0, None, None, [LINE], [])

  const PAID_SALE: Sale :=
    PARKED_SALE.(status := Completed, received := Some(100), completedAt := Some(5), payments := [Payment(Cash, 100)])

  const OPENED: State := EMPTY.(days := [Day(1, 10, true, 0, 0)])

  const CREATED: State := OPENED.(sales := [PARKED_SALE])

  const PAID: State := OPENED.(sales := [PAID_SALE])

  lemma OpeningWorks()
    ensures Next(EMPTY, OPEN_DAY) == OPENED
  {
  }

  lemma AnyMember<T>(rows: seq<T>) returns (r: T)
    requires rows != []
    ensures r in rows
  {
    r := rows[0];
  }

  lemma NothingPreferred()
    ensures NormalizePreferences([]) == []
  {
    if NormalizePreferences([]) != [] {
      var p := AnyMember(NormalizePreferences([]));
    }
  }

  lemma LineIsPriced()
    ensures Priced(NewLine(9, CREATE.input, CREATE.variant.value)) == Ok(LINE)
  {
    NothingPreferred();
  }

  lemma CreatingWorks()
    ensures Next(OPENED, CREATE) == CREATED
  {
    LineIsPriced();
    assert [] + [PARKED_SALE] == [PARKED_SALE];
  }

  lemma CreatingAgainReplays()
    ensures Next(CREATED, CREATE) == CREATED
  {
    assert WithClientId(7)(PARKED_SALE);
  }

  lemma OrderIsParked()
    ensures ParkedOrder(CREATED, 7) == Ok(0)
  {
    assert WithClientId(7)(PARKED_SALE) && WithDayId(1)(OPENED.days[0]);
  }

  lemma RemovingLeavesNone()
    ensures EditLines([LINE], 9, Remove) == Ok([])
  {
    assert WithLineId(9)(LINE);
    assert Without([LINE], 0) == [];
  }

  lemma RemovingDiscards()
    ensures Next(CREATED, REMOVE_LINE) == OPENED
  {
    OrderIsParked();
    RemovingLeavesNone();
    assert Without([PARKED_SALE], 0) == [];
  }

  lemma OneRequest(st: State, r: Request, rest: seq<Request>)
    ensures Run(st, [r] + rest) == Run(Next(st, r), rest)
  {
    assert ([r] + rest)[1..] == rest;
  }

  lemma TwoRequests(st: State, first: Request, second: Request)
    ensures Run(st, [first, second]) == Next(Next(st, first), second)
  {
    assert [first, second] == [first] + ([second] + []);
    OneRequest(st, first, [second] + []);
    OneRequest(Next(st, first), second, []);
  }

  /** A create that has gone through is a replay, but once its order is discarded the same request adds
      the order again. */
  lemma DiscardedOrderComesBack()
    ensures Run(EMPTY, [OPEN_DAY, CREATE]) == CREATED && Next(CREATED, CREATE) == CREATED
    ensures Next(CREATED, REMOVE_LINE) == OPENED && Next(OPENED, CREATE) == CREATED != OPENED
  {
    OpeningWorks();
    CreatingWorks();
    TwoRequests(EMPTY, OPEN_DAY, CREATE);
    CreatingAgainReplays();
    RemovingDiscards();
  }

  // ----- an order whose void leaves a cup

  lemma TenderIsAccepted()
    ensures WellFormedTender(COMPLETE.tender) && ValidateTender(100, COMPLETE.tender) == Ok(Some(100))
  {
    var payments := COMPLETE.tender.payments;
    assert payments == [Payment(Cash, 100)];
    SumOne(AmountOf(), payments[0]);
    FilterAll(IsTender(Cash), payments);
    assert Map(TenderOf(), payments) == [Cash];
  }

  lemma CompletingPays()
    ensures Next(CREATED, COMPLETE) == PAID
  {
    TenderIsAccepted();
    assert WithClientId(7)(PARKED_SALE) && WithDayId(1)(OPENED.days[0]);
    assert CREATED.sales[0 := PAID_SALE] == [PAID_SALE];
  }

  lemma PaidLookUps()
    ensures Find(WithClientId(7), [PAID_SALE]) == 0 && Find(WithClientId(17), [PAID_SALE]) == 1
    ensures !Has(Voiding(8), [PAID_SALE]) && !Has(WithSaleId(18), [PAID_SALE])
    ensures Find(OpenNow(), PAID.days) == 0 && LastNumber([PAID_SALE], 1) == 1
  {
    assert WithClientId(7)(PAID_SALE) && !WithClientId(17)(PAID_SALE);
    assert !Voiding(8)(PAID_SALE) && !WithSaleId(18)(PAID_SALE) && OpenNow()(PAID.days[0]);
    assert [PAID_SALE][1..] == [];
  }

  lemma NothingVoidedYet()
    ensures FindVoidReplay([PAID_SALE], 17, 7) == Ok(None)
  {
    PaidLookUps();
  }

  lemma VoidingAppends(row: Sale)
    requires row == VoidRow(PAID_SALE, 18, 17, 1, 2)
    ensures VoidOrder(PAID, 7, 17, 18, true).0 == PAID.(sales := [PAID_SALE] + [row])
  {
    PaidLookUps();
    NothingVoidedYet();
  }

  lemma VoidingMirrors()
    ensures Next(PAID, VOID) == PAID.(sales := [PAID_SALE, VoidRow(PAID_SALE, 18, 17, 1, 2)])
  {
    var row := VoidRow(PAID_SALE, 18, 17, 1, 2);
    VoidingAppends(row);
    assert [PAID_SALE] + [row] == [PAID_SALE, row];
  }

  lemma VoidLines()
    ensures PAID_SALE.lines == [LINE] && VoidRow(PAID_SALE, 18, 17, 1, 2).lines == [NegatedLine()(LINE)]
  {
  }

  lemma CupsOfTwo(c: Catalog, a: Line, b: Line, product: Id)
    ensures var cups := Cell(ProductOf(c), Cups(c), product);
      ProductTotal(c, [a] + [b])(product).cups == cups(a) + cups(b)
  {
    var cups := Cell(ProductOf(c), Cups(c), product);
    SumConcat(cups, [a], [b]);
    SumOne(cups, a);
    SumOne(cups, b);
  }

  lemma OneCupOfTwo(c: Catalog)
    requires c.hasCup(3)
    ensures var cups := Cell(ProductOf(c), Cups(c), c.product(3));
      cups(LINE) == 2 && cups(NegatedLine()(LINE)) == -1
  {
  }

  lemma CupLeft(c: Catalog)
    requires c.hasCup(3)
    ensures ProductTotal(c, PAID_SALE.lines + VoidRow(PAID_SALE, 18, 17, 1, 2).lines)(c.product(3)).cups == 1
  {
    VoidLines();
    CupsOfTwo(c, LINE, NegatedLine()(LINE), c.product(3));
    OneCupOfTwo(c);
  }

  lemma CreatedRun()
    ensures Run(EMPTY, [OPEN_DAY, CREATE, COMPLETE, VOID]) == Run(CREATED, [COMPLETE, VOID])
  {
    OpeningWorks();
    CreatingWorks();
    assert [OPEN_DAY, CREATE, COMPLETE, VOID] == [OPEN_DAY] + ([CREATE] + [COMPLETE, VOID]);
    OneRequest(EMPTY, OPEN_DAY, [CREATE] + [COMPLETE, VOID]);
    OneRequest(OPENED, CREATE, [COMPLETE, VOID]);
  }

  lemma VoidedRun()
    ensures Run(EMPTY, [OPEN_DAY, CREATE, COMPLETE, VOID]).sales == [PAID_SALE, VoidRow(PAID_SALE, 18, 17, 1, 2)]
  {
    CreatedRun();
    CompletingPays();
    VoidingMirrors();
    TwoRequests(CREATED, COMPLETE, VOID);
  }

  /** A run that completes and voids one order of a line with two servings: for any catalog that serves
      its size in a cup, one cup stays counted. */
  lemma VoidCanLeaveACup(c: Catalog)
    requires c.hasCup(3)
    ensures var void := VoidRow(PAID_SALE, 18, 17, 1, 2);
      && Run(EMPTY, [OPEN_DAY, CREATE, COMPLETE, VOID]).sales == [PAID_SALE, void]
      && ProductTotal(c, PAID_SALE.lines + void.lines)(c.product(3)).cups == 1
  {
    VoidedRun();
    CupLeft(c);
  }
}
