/** The read models: the daily reconciliation, the sales of each product and the expense report. */
module Reports {
  import opened Tables
  import opened Money
  import opened Store
  import opened Orders
  import opened TradingDays
  import opened Lines
  import opened Ledger
  import opened LedgerSteps
  import opened Drawer

  // ----- the daily read model

  /** The latest count of a day by counting time, ties broken by id. */
  function LatestCount(counts: seq<CashCount>, day: Id): Option<CashCount>
  {
    if counts == [] then None
    else
      var rest := LatestCount(counts[1..], day);
      var c := counts[0];
      if c.day != day then rest
      else if rest.Some? && (rest.value.at > c.at || (rest.value.at == c.at && rest.value.id > c.id)) then rest
      else Some(c)
  }

  function CountedCash(counts: seq<CashCount>, day: Id): Option<int>
  {
    match LatestCount(counts, day)
    case Some(c) => Some(c.counted)
    case None => None
  }

  function DailyRow(st: State, day: Day): Option<Reconciliation>
  {
    CalculateCashReconciliation(day.isOpen, day.openingFloat, DayFigures(st, day.id),
                                CountedCash(st.counts, day.id))
  }

  predicate Within(from: int, to: int, date: int)
  {
    from <= date <= to
  }

  function DatedWithin(from: int, to: int): Day -> bool
  {
    (d: Day) => Within(from, to, d.date)
  }

  function DaysBetween(st: State, from: int, to: int): seq<Day>
  {
    Filter(DatedWithin(from, to), st.days)
  }

  function GrossOn(st: State): Day -> int
  {
    (d: Day) => DayFigures(st, d.id).Gross()
  }

  function GrossSales(st: State, from: int, to: int): int
  {
    Sum(GrossOn(st), DaysBetween(st, from, to))
  }

  // ----- the sales of each product

  datatype ProductRow = ProductRow(product: Id, quantity: int, cups: int, revenue: int)

  /** The catalog facts a sold size joins to: its product, and whether it is served in a counted cup. */
  datatype Catalog = Catalog(product: Id -> Id, hasCup: Id -> bool)

  predicate SoldWithin(st: State, from: int, to: int, s: Sale)
  {
    var d := Find(WithDayId(s.day), st.days);
    s.status == Completed && d < |st.days| && Within(from, to, st.days[d].date)
  }

  function LinesSold(st: State, from: int, to: int): Sale -> seq<Line>
  {
    (s: Sale) => if SoldWithin(st, from, to, s) then s.lines else []
  }

  function SoldLines(st: State, from: int, to: int): seq<Line>
  {
    Flatten(Map(LinesSold(st, from, to), st.sales))
  }

  function ProductOf(c: Catalog): Line -> Id { (l: Line) => c.product(l.variant) }

  function Quantity(): Line -> int { (l: Line) => l.terms.quantity }

  function Cups(c: Catalog): Line -> int
  {
    (l: Line) => if c.hasCup(l.variant) then l.terms.quantity * l.servings else 0
  }

  function ProductTotal(c: Catalog, lines: seq<Line>): Id -> ProductRow
  {
    (p: Id) => ProductRow(p, Sum(Cell(ProductOf(c), Quantity(), p), lines),
                          Sum(Cell(ProductOf(c), Cups(c), p), lines),
                          Sum(Cell(ProductOf(c), LineTotalOf(), p), lines))
  }

  function SomethingSold(): ProductRow -> bool { (r: ProductRow) => r.quantity != 0 || r.revenue != 0 }

  function RevenueOf(): ProductRow -> int { (r: ProductRow) => r.revenue }

  /** Lines of completed sales grouped by product; groups that come to nothing are dropped. */
  function ProductSales(c: Catalog, lines: seq<Line>): seq<ProductRow>
  {
    Filter(SomethingSold(), Map(ProductTotal(c, lines), DistinctKeys(ProductOf(c), lines)))
  }

  lemma RevenueOfProducts(c: Catalog, lines: seq<Line>)
    ensures Sum(RevenueOf(), ProductSales(c, lines)) == Sum(LineTotalOf(), lines)
  {
    var keys := DistinctKeys(ProductOf(c), lines);
    var rows := Map(ProductTotal(c, lines), keys);
    SumFiltered(SomethingSold(), RevenueOf(), rows);
    SumAgree(Restricted(SomethingSold(), RevenueOf()), RevenueOf(), rows);
    SumMapped(ProductTotal(c, lines), RevenueOf(), PerKey(ProductOf(c), LineTotalOf(), lines), keys);
    SumOfGroups(ProductOf(c), LineTotalOf(), keys, lines);
    SumAgree(Selected(ProductOf(c), LineTotalOf(), keys), LineTotalOf(), lines);
  }

  // ----- revenue by product equals gross by payments

  function Paid(): Sale -> int
  {
    (s: Sale) => Portion(Cash, s.payments) + Portion(Online, s.payments)
  }

  function SaleDay(): Sale -> Id { (s: Sale) => s.day }

  function DayIdOf(): Day -> Id { (d: Day) => d.id }

  function LinesTotal(): seq<Line> -> int { (lines: seq<Line>) => Sum(LineTotalOf(), lines) }

  function SoldTotal(st: State, from: int, to: int): Sale -> int
  {
    (s: Sale) => if SoldWithin(st, from, to, s) then Sum(LineTotalOf(), s.lines) else 0
  }

  lemma {:induction false} PortionsAddUp(payments: seq<Payment>)
    ensures Portion(Cash, payments) + Portion(Online, payments) == Sum(AmountOf(), payments)
  {
    SumFiltered(IsTender(Cash), AmountOf(), payments);
    SumFiltered(IsTender(Online), AmountOf(), payments);
    SumPlus(Restricted(IsTender(Cash), AmountOf()), Restricted(IsTender(Online), AmountOf()),
            AmountOf(), payments);
  }

  lemma {:induction false} NegatedLinesTotal(f: Line -> int, g: Line -> int, lines: seq<Line>)
    requires forall l | l in lines :: g(NegatedLine()(l)) == -f(l)
    ensures Sum(g, Map(NegatedLine(), lines)) == -Sum(f, lines)
  {
    if lines != [] {
      NegatedLinesTotal(f, g, lines[1..]);
      SumConcat(g, [NegatedLine()(lines[0])], Map(NegatedLine(), lines[1..]));
    }
  }

  lemma PurchasePaidItsLines(s: Sale)
    requires s.kind == Purchase && PurchaseOk(s)
    ensures Paid()(s) == if s.status == Completed then Sum(LineTotalOf(), s.lines) else 0
  {
    PortionsAddUp(s.payments);
    TotalsAddUp(s.lines);
  }

  lemma VoidPaidItsLines(v: Sale, o: Sale)
    requires Mirrors(v, o) && PurchaseOk(o)
    ensures Paid()(v) == Sum(LineTotalOf(), v.lines)
    ensures Paid()(v) == -Paid()(o)
  {
    PurchasePaidItsLines(o);
    PortionNegated(Cash, o.payments);
    PortionNegated(Online, o.payments);
    NegatedLinesTotal(LineTotalOf(), LineTotalOf(), o.lines);
  }

  /** A completed sale, purchase or void, was paid exactly the total of its lines. */
  lemma PaidIsLineTotal(sales: seq<Sale>, s: Sale)
    requires SalesInv(sales) && s in sales
    ensures Paid()(s) == if s.status == Completed then Sum(LineTotalOf(), s.lines) else 0
  {
    if s.kind == Purchase {
      PurchasePaidItsLines(s);
    } else {
      var o :| o in sales && Mirrors(s, o);
      VoidPaidItsLines(s, o);
    }
  }

  lemma SelectedDays(days: seq<Day>, from: int, to: int, id: Id)
    requires DaysInv(days) && Has(WithDayId(id), days)
    ensures id in Map(DayIdOf(), Filter(DatedWithin(from, to), days))
       <==> Within(from, to, days[Find(WithDayId(id), days)].date)
  {
    var i := Find(WithDayId(id), days);
    var between := Filter(DatedWithin(from, to), days);
    var ids := Map(DayIdOf(), between);
    if Within(from, to, days[i].date) {
      assert DatedWithin(from, to)(days[i]) && days[i] in between;
      var k :| 0 <= k < |between| && between[k] == days[i];
      assert ids[k] == id;
    }
    if id in ids {
      var k :| 0 <= k < |ids| && ids[k] == id;
      assert between[k] in days;
      var j :| 0 <= j < |days| && days[j] == between[k];
      FoundByDayId(days, j);
    }
  }

  lemma FilterKeepsDistinctIds(p: Day -> bool, days: seq<Day>)
    requires forall i, j | 0 <= i < j < |days| :: days[i].id != days[j].id
    ensures Distinct(Map(DayIdOf(), Filter(p, days)))
  {
    forall i, j | 0 <= i < j < |days|
      ensures DayIdOf()(days[i]) != DayIdOf()(days[j])
    {
      assert days[i].id != days[j].id;
    }
    FilterKeepsDistinct(p, DayIdOf(), days);
    MapKeepsDistinct(DayIdOf(), Filter(p, days));
  }

  lemma MapKeepsDistinct(key: Day -> Id, days: seq<Day>)
    requires KeysDistinct(key, days)
    ensures Distinct(Map(key, days))
  {
  }

  lemma GrossPerDay(st: State)
    ensures forall d: Day :: GrossOn(st)(d) == PerKey(SaleDay(), Paid(), st.sales)(d.id)
  {
    forall d: Day
      ensures GrossOn(st)(d) == PerKey(SaleDay(), Paid(), st.sales)(d.id)
    {
      SumPlus(PortionOn(Cash, d.id), PortionOn(Online, d.id), Cell(SaleDay(), Paid(), d.id), st.sales);
    }
  }

  lemma ListedRevenue(st: State, c: Catalog, from: int, to: int)
    ensures Sum(RevenueOf(), ProductSales(c, SoldLines(st, from, to)))
         == Sum(SoldTotal(st, from, to), st.sales)
  {
    RevenueOfProducts(c, SoldLines(st, from, to));
    SumFlatten(LineTotalOf(), LinesTotal(), Map(LinesSold(st, from, to), st.sales));
    SumMapped(LinesSold(st, from, to), LinesTotal(), SoldTotal(st, from, to), st.sales);
  }

  lemma ListedGross(st: State, from: int, to: int)
    requires DaysInv(st.days)
    ensures GrossSales(st, from, to)
         == Sum(Selected(SaleDay(), Paid(), Map(DayIdOf(), DaysBetween(st, from, to))), st.sales)
  {
    var between := DaysBetween(st, from, to);
    GrossPerDay(st);
    SumMapped(DayIdOf(), PerKey(SaleDay(), Paid(), st.sales), GrossOn(st), between);
    FilterKeepsDistinctIds(DatedWithin(from, to), st.days);
    SumOfGroups(SaleDay(), Paid(), Map(DayIdOf(), between), st.sales);
  }

  /** For every date range of every reachable store, the revenue listed by product adds up to the
      gross sales listed by day, voids included. */
  lemma ProductRevenueIsGrossSales(st: State, c: Catalog, from: int, to: int)
    requires Inv(st)
    ensures Sum(RevenueOf(), ProductSales(c, SoldLines(st, from, to))) == GrossSales(st, from, to)
  {
    var ids := Map(DayIdOf(), DaysBetween(st, from, to));
    ListedRevenue(st, c, from, to);
    ListedGross(st, from, to);
    forall s | s in st.sales
      ensures Selected(SaleDay(), Paid(), ids)(s) == SoldTotal(st, from, to)(s)
    {
      SelectedDays(st.days, from, to, s.day);
      PaidIsLineTotal(st.sales, s);
    }
    SumAgree(Selected(SaleDay(), Paid(), ids), SoldTotal(st, from, to), st.sales);
  }

  /** Every product of the listing carries its own sums, and exactly the products with something
      left to show are listed, each once. */
  lemma ProductListedIff(c: Catalog, lines: seq<Line>, p: Id)
    ensures var rows := ProductSales(c, lines);
      var row := ProductTotal(c, lines)(p);
      && (row in rows <==> row.quantity != 0 || row.revenue != 0)
      && (forall r | r in rows && r.product == p :: r == row)
  {
    var keys := DistinctKeys(ProductOf(c), lines);
    var all := Map(ProductTotal(c, lines), keys);
    var row := ProductTotal(c, lines)(p);
    if p in keys {
      var i :| 0 <= i < |keys| && keys[i] == p;
      assert all[i] == row && row in all;
    } else {
      SumZero(Cell(ProductOf(c), Quantity(), p), lines);
      SumZero(Cell(ProductOf(c), LineTotalOf(), p), lines);
    }
    forall r | r in ProductSales(c, lines) && r.product == p
      ensures r == row
    {
      assert r in all;
      var i :| 0 <= i < |all| && all[i] == r;
      assert keys[i] == p;
    }
  }

  // ----- an order and its void

  function ExtraCups(c: Catalog, p: Id): Line -> int
  {
    (l: Line) =>
      if ProductOf(c)(l) == p && c.hasCup(l.variant) then l.terms.quantity * (l.servings - 1) else 0
  }

  lemma ExtraCupsOfNegation(c: Catalog, p: Id, l: Line)
    ensures Cell(ProductOf(c), Cups(c), p)(NegatedLine()(l))
         == -(Cell(ProductOf(c), Cups(c), p)(l) - ExtraCups(c, p)(l))
  {
    var q, s := l.terms.quantity, l.servings;
    assert q * (s - 1) == q * s - q;
  }

  lemma {:induction false} CupsLeft(c: Catalog, lines: seq<Line>, p: Id)
    ensures Sum(Cell(ProductOf(c), Cups(c), p), lines)
          + Sum(Cell(ProductOf(c), Cups(c), p), Map(NegatedLine(), lines))
         == Sum(ExtraCups(c, p), lines)
  {
    if lines != [] {
      CupsLeft(c, lines[1..], p);
      ExtraCupsOfNegation(c, p, lines[0]);
      SumConcat(Cell(ProductOf(c), Cups(c), p), [NegatedLine()(lines[0])], Map(NegatedLine(), lines[1..]));
    }
  }

  lemma ExtraCupsAreNone(c: Catalog, lines: seq<Line>, p: Id)
    requires forall l | l in lines :: 1 <= l.terms.quantity
    ensures Sum(ExtraCups(c, p), lines) == 0
       <==> forall l | l in lines && ProductOf(c)(l) == p && c.hasCup(l.variant) :: l.servings == 1
  {
    forall l | l in lines
      ensures 0 <= ExtraCups(c, p)(l)
      ensures ExtraCups(c, p)(l) == 0 <==>
        (ProductOf(c)(l) == p && c.hasCup(l.variant) ==> l.servings == 1)
    {
      if l.servings > 1 {
        MultiplesApart(0, l.terms.quantity, l.servings - 1);
      }
    }
    SumBounds(ExtraCups(c, p), lines);
    if forall l | l in lines && ProductOf(c)(l) == p && c.hasCup(l.variant) :: l.servings == 1 {
      SumZero(ExtraCups(c, p), lines);
    }
  }

  lemma CancelledBy(f: Line -> int, o: Sale, v: Sale)
    requires v.lines == Map(NegatedLine(), o.lines)
    requires forall l | l in o.lines :: f(NegatedLine()(l)) == -f(l)
    ensures Sum(f, o.lines + v.lines) == 0
  {
    SumConcat(f, o.lines, v.lines);
    NegatedLinesTotal(f, f, o.lines);
  }

  lemma QuantityAndRevenueCancel(c: Catalog, o: Sale, v: Sale, p: Id)
    requires v.lines == Map(NegatedLine(), o.lines)
    ensures Sum(Cell(ProductOf(c), Quantity(), p), o.lines + v.lines) == 0
    ensures Sum(Cell(ProductOf(c), LineTotalOf(), p), o.lines + v.lines) == 0
  {
    CancelledBy(Cell(ProductOf(c), Quantity(), p), o, v);
    CancelledBy(Cell(ProductOf(c), LineTotalOf(), p), o, v);
  }

  lemma CupsCancelIff(c: Catalog, o: Sale, v: Sale, p: Id)
    requires v.lines == Map(NegatedLine(), o.lines)
    requires forall l | l in o.lines :: 1 <= l.terms.quantity
    ensures Sum(Cell(ProductOf(c), Cups(c), p), o.lines + v.lines) == 0 <==>
      forall l | l in o.lines && ProductOf(c)(l) == p && c.hasCup(l.variant) :: l.servings == 1
  {
    SumConcat(Cell(ProductOf(c), Cups(c), p), o.lines, v.lines);
    CupsLeft(c, o.lines, p);
    ExtraCupsAreNone(c, o.lines, p);
  }

  /** An order and its void always cancel in the quantity and revenue of every product. Their cups
      cancel exactly when each cup-served line of the product draws a single serving, since the
      correcting lines fall back to one serving. */
  lemma VoidCancelsOrder(c: Catalog, o: Sale, v: Sale, p: Id)
    requires Mirrors(v, o) && PurchaseOk(o)
    ensures var both := ProductTotal(c, o.lines + v.lines)(p);
      && both.quantity == 0 && both.revenue == 0
      && (both.cups == 0 <==>
            forall l | l in o.lines && ProductOf(c)(l) == p && c.hasCup(l.variant) :: l.servings == 1)
  {
    PositiveQuantities(o);
    QuantityAndRevenueCancel(c, o, v, p);
    CupsCancelIff(c, o, v, p);
  }

  lemma PositiveQuantities(o: Sale)
    requires PurchaseOk(o)
    ensures forall l | l in o.lines :: 1 <= l.terms.quantity
  {
  }

  // ----- expenses

  datatype CategoryTotal = CategoryTotal(category: Option<string>, entries: int, total: int)

  function ExpenseRow(st: State, from: int, to: int): Movement -> bool
  {
    (m: Movement) =>
      var d := Find(WithDayId(m.day), st.days);
      && m.kind == Expense && !Superseded(st.movements, m.id)
      && d < |st.days| && Within(from, to, st.days[d].date)
  }

  function ExpenseRows(st: State, from: int, to: int): seq<Movement>
  {
    Filter(ExpenseRow(st, from, to), st.movements)
  }

  function CategoryOf(): Movement -> Option<string> { (m: Movement) => m.category }

  function CategorySummary(): (Option<string>, seq<Movement>) -> CategoryTotal
  {
    (category: Option<string>, rows: seq<Movement>) =>
      CategoryTotal(category, |rows|, Sum(MovementAmount(), rows))
  }

  function TotalOf(): CategoryTotal -> int { (t: CategoryTotal) => t.total }

  function InCategory(category: Option<string>): CategoryTotal -> bool
  {
    (t: CategoryTotal) => t.category == category
  }

  function CategoryTotals(rows: seq<Movement>): seq<CategoryTotal>
  {
    Grouped(CategoryOf(), CategorySummary(), rows)
  }

  /** Sets one entry of the category map, which keeps the order in which categories appear. */
  function PutExpense(totals: seq<CategoryTotal>, item: Movement): seq<CategoryTotal>
  {
    var i := Find(InCategory(item.category), totals);
    if i < |totals| then
      totals[i := CategoryTotal(item.category, totals[i].entries + 1, totals[i].total + item.amount)]
    else totals + [CategoryTotal(item.category, 1, item.amount)]
  }

  lemma OneItemInSummary(members: seq<Movement>, item: Movement)
    ensures CategorySummary()(item.category, members)
      == CategoryTotal(item.category, |members|, Sum(MovementAmount(), members))
    ensures CategorySummary()(item.category, members + [item])
      == CategoryTotal(item.category, |members| + 1, Sum(MovementAmount(), members) + item.amount)
    ensures CategorySummary()(item.category, [item]) == CategoryTotal(item.category, 1, item.amount)
  {
    SumAppend(MovementAmount(), members, item);
    SumOne(MovementAmount(), item);
  }

  lemma CategoriesAreKeys(rows: seq<Movement>)
    ensures var keys, totals := DistinctKeys(CategoryOf(), rows), CategoryTotals(rows);
      |totals| == |keys| && forall j | 0 <= j < |keys| :: totals[j].category == keys[j]
  {
  }

  lemma CategorySummaries(rows: seq<Movement>, item: Movement, i: nat)
    requires i < |DistinctKeys(CategoryOf(), rows)| && DistinctKeys(CategoryOf(), rows)[i] == item.category
    ensures var members := Filter(HasKey(CategoryOf(), item.category), rows);
      && |CategoryTotals(rows + [item])| == |CategoryTotals(rows)|
      && CategoryTotals(rows)[i] == CategorySummary()(item.category, members)
      && CategoryTotals(rows + [item])[i] == CategorySummary()(item.category, members + [item])
  {
    KeysAppend(CategoryOf(), rows, item);
    GroupAt(CategoryOf(), CategorySummary(), rows, item, i);
  }

  lemma CategoryAgain(rows: seq<Movement>, item: Movement, i: nat)
    requires i < |DistinctKeys(CategoryOf(), rows)| && DistinctKeys(CategoryOf(), rows)[i] == item.category
    ensures var members := Filter(HasKey(CategoryOf(), item.category), rows);
      var sum := Sum(MovementAmount(), members);
      && |CategoryTotals(rows + [item])| == |CategoryTotals(rows)|
      && CategoryTotals(rows)[i] == CategoryTotal(item.category, |members|, sum)
      && CategoryTotals(rows + [item])[i] == CategoryTotal(item.category, |members| + 1, sum + item.amount)
  {
    var members := Filter(HasKey(CategoryOf(), item.category), rows);
    CategorySummaries(rows, item, i);
    OneItemInSummary(members, item);
  }

  lemma CategoryGrows(rows: seq<Movement>, item: Movement, i: nat)
    requires i < |CategoryTotals(rows)| && CategoryTotals(rows)[i].category == item.category
    ensures var t := CategoryTotals(rows)[i];
      && |CategoryTotals(rows + [item])| == |CategoryTotals(rows)|
      && CategoryTotals(rows + [item])[i] == CategoryTotal(item.category, t.entries + 1, t.total + item.amount)
  {
    CategoriesAreKeys(rows);
    CategoryAgain(rows, item, i);
  }

  lemma OtherCategoriesStay(rows: seq<Movement>, item: Movement, i: nat)
    requires i < |CategoryTotals(rows)| && CategoryTotals(rows)[i].category == item.category
    ensures var totals, after := CategoryTotals(rows), CategoryTotals(rows + [item]);
      |after| == |totals| && forall j | 0 <= j < |totals| && j != i :: after[j] == totals[j]
  {
    CategoriesAreKeys(rows);
    OthersUntouched(CategoryOf(), CategorySummary(), rows, item, i);
  }

  lemma KnownCategory(rows: seq<Movement>, item: Movement, i: nat)
    requires i < |CategoryTotals(rows)| && CategoryTotals(rows)[i].category == item.category
    ensures var t := CategoryTotals(rows)[i];
      CategoryTotals(rows + [item])
      == CategoryTotals(rows)[i := CategoryTotal(item.category, t.entries + 1, t.total + item.amount)]
  {
    CategoryGrows(rows, item, i);
    OtherCategoriesStay(rows, item, i);
    OneReplaced(CategoryTotals(rows), CategoryTotals(rows + [item]), i);
  }

  lemma NewCategory(rows: seq<Movement>, item: Movement)
    requires forall t | t in CategoryTotals(rows) :: t.category != item.category
    ensures CategoryTotals(rows + [item]) == CategoryTotals(rows) + [CategoryTotal(item.category, 1, item.amount)]
  {
    CategoriesAreKeys(rows);
    OneItemInSummary([], item);
    forall k | k in DistinctKeys(CategoryOf(), rows)
      ensures k != item.category
    {
      var j :| 0 <= j < |DistinctKeys(CategoryOf(), rows)| && DistinctKeys(CategoryOf(), rows)[j] == k;
      assert CategoryTotals(rows)[j].category == k;
    }
    GroupedAnew(CategoryOf(), CategorySummary(), rows, item);
  }

  lemma PutExpenseGroups(rows: seq<Movement>, item: Movement)
    ensures PutExpense(CategoryTotals(rows), item) == CategoryTotals(rows + [item])
  {
    var totals := CategoryTotals(rows);
    var i := Find(InCategory(item.category), totals);
    if i < |totals| {
      KnownCategory(rows, item, i);
    } else {
      assert forall j | 0 <= j < |totals| :: !InCategory(item.category)(totals[j]);
      NewCategory(rows, item);
    }
  }

  lemma OneExpenseMore(items: seq<Movement>, n: nat)
    requires n < |items|
    ensures Sum(MovementAmount(), items[..n + 1]) == Sum(MovementAmount(), items[..n]) + items[n].amount
    ensures CategoryTotals(items[..n + 1]) == PutExpense(CategoryTotals(items[..n]), items[n])
  {
    assert items[..n + 1] == items[..n] + [items[n]];
    SumAppend(MovementAmount(), items[..n], items[n]);
    PutExpenseGroups(items[..n], items[n]);
  }

  method ExpenseReport(st: State, from: int, to: int)
    returns (total: int, byCategory: seq<CategoryTotal>)
    ensures total == Sum(MovementAmount(), ExpenseRows(st, from, to))
    ensures byCategory == CategoryTotals(ExpenseRows(st, from, to))
  {
    var items := ExpenseRows(st, from, to);
    total, byCategory := 0, [];
    for n := 0 to |items|
      invariant total == Sum(MovementAmount(), items[..n])
      invariant byCategory == CategoryTotals(items[..n])
    {
      OneExpenseMore(items, n);
      byCategory := PutExpense(byCategory, items[n]);
      total := total + items[n].amount;
    }
    assert items[..|items|] == items;
  }

  function ExpensesOn(st: State): Day -> int
  {
    (d: Day) => DayFigures(st, d.id).expenses
  }

  function MovementDay(): Movement -> Id { (m: Movement) => m.day }

  function EffectiveExpense(movements: seq<Movement>): Movement -> int
  {
    (m: Movement) => if m.kind == Expense && !Superseded(movements, m.id) then m.amount else 0
  }

  /** The expense total is the sum of the category totals, and the sum of the expenses that the
      daily reconciliations of the same dates deduct. */
  lemma ExpenseTotalsAgree(st: State, from: int, to: int)
    requires Inv(st)
    ensures var total := Sum(MovementAmount(), ExpenseRows(st, from, to));
      && total == Sum(TotalOf(), CategoryTotals(ExpenseRows(st, from, to)))
      && total == Sum(ExpensesOn(st), DaysBetween(st, from, to))
  {
    var rows := ExpenseRows(st, from, to);
    CategoriesAddUp(rows);
    ExpensesByDay(st, from, to);
    SumFiltered(ExpenseRow(st, from, to), MovementAmount(), st.movements);
    var ids := Map(DayIdOf(), DaysBetween(st, from, to));
    var selected := Selected(MovementDay(), EffectiveExpense(st.movements), ids);
    forall m | m in st.movements
      ensures selected(m) == Restricted(ExpenseRow(st, from, to), MovementAmount())(m)
    {
      SelectedDays(st.days, from, to, m.day);
    }
    SumAgree(selected, Restricted(ExpenseRow(st, from, to), MovementAmount()), st.movements);
  }

  lemma CategoriesAddUp(rows: seq<Movement>)
    ensures Sum(TotalOf(), CategoryTotals(rows)) == Sum(MovementAmount(), rows)
  {
    var keys := DistinctKeys(CategoryOf(), rows);
    var perKey := PerKey(CategoryOf(), MovementAmount(), rows);
    forall k | k in keys
      ensures TotalOf()(GroupOf(CategoryOf(), CategorySummary(), rows)(k)) == perKey(k)
    {
      SumFiltered(HasKey(CategoryOf(), k), MovementAmount(), rows);
      SumAgree(Restricted(HasKey(CategoryOf(), k), MovementAmount()),
               Cell(CategoryOf(), MovementAmount(), k), rows);
    }
    SumMapped(GroupOf(CategoryOf(), CategorySummary(), rows), TotalOf(), perKey, keys);
    SumOfGroups(CategoryOf(), MovementAmount(), keys, rows);
    SumAgree(Selected(CategoryOf(), MovementAmount(), keys), MovementAmount(), rows);
  }

  lemma ExpensesByDay(st: State, from: int, to: int)
    requires DaysInv(st.days)
    ensures Sum(ExpensesOn(st), DaysBetween(st, from, to))
         == Sum(Selected(MovementDay(), EffectiveExpense(st.movements), Map(DayIdOf(), DaysBetween(st, from, to))),
                st.movements)
  {
    var between := DaysBetween(st, from, to);
    var perDay := PerKey(MovementDay(), EffectiveExpense(st.movements), st.movements);
    forall d | d in between
      ensures perDay(d.id) == ExpensesOn(st)(d)
    {
      SumAgree(Cell(MovementDay(), EffectiveExpense(st.movements), d.id),
               EffectiveOn(st.movements, Expense, d.id), st.movements);
    }
    SumMapped(DayIdOf(), perDay, ExpensesOn(st), between);
    FilterKeepsDistinctIds(DatedWithin(from, to), st.days);
    SumOfGroups(MovementDay(), EffectiveExpense(st.movements), Map(DayIdOf(), between), st.movements);
  }

  // ----- gross of the closed days

  datatype DatedGross = DatedGross(date: int, gross: int)

  function ClosedWithin(from: int, to: int): Day -> bool
  {
    (d: Day) => Within(from, to, d.date) && !d.isOpen
  }

  function DateOf(): Day -> int { (d: Day) => d.date }

  function GrossSummary(gross: Day -> int): (int, seq<Day>) -> DatedGross
  {
    (date: int, days: seq<Day>) => DatedGross(date, Sum(gross, days))
  }

  function GrossByDate(gross: Day -> int, days: seq<Day>): seq<DatedGross>
  {
    Grouped(DateOf(), GrossSummary(gross), days)
  }

  function ClosedDailyGross(st: State, from: int, to: int): seq<DatedGross>
  {
    GrossByDate(GrossOn(st), Filter(ClosedWithin(from, to), st.days))
  }

  function Dated(date: int): DatedGross -> bool { (g: DatedGross) => g.date == date }

  function ClosedOnly(): Day -> bool { (d: Day) => !d.isOpen }

  /** Adds the gross of one day to the entry of its date in a map that keeps insertion order. */
  function PutGross(totals: seq<DatedGross>, date: int, gross: int): seq<DatedGross>
  {
    var i := Find(Dated(date), totals);
    if i < |totals| then totals[i := DatedGross(date, totals[i].gross + gross)]
    else totals + [DatedGross(date, gross)]
  }

  lemma GrossDatesAreKeys(gross: Day -> int, days: seq<Day>)
    ensures var keys, totals := DistinctKeys(DateOf(), days), GrossByDate(gross, days);
      |totals| == |keys| && forall j | 0 <= j < |keys| :: totals[j].date == keys[j]
  {
  }

  lemma OneDayInSummary(gross: Day -> int, members: seq<Day>, day: Day)
    ensures GrossSummary(gross)(day.date, members) == DatedGross(day.date, Sum(gross, members))
    ensures GrossSummary(gross)(day.date, members + [day]) == DatedGross(day.date, Sum(gross, members) + gross(day))
    ensures GrossSummary(gross)(day.date, [day]) == DatedGross(day.date, gross(day))
  {
    SumAppend(gross, members, day);
    SumOne(gross, day);
  }

  lemma DateAgain(gross: Day -> int, days: seq<Day>, day: Day, i: nat)
    requires i < |DistinctKeys(DateOf(), days)| && DistinctKeys(DateOf(), days)[i] == day.date
    ensures var sum := Sum(gross, Filter(HasKey(DateOf(), day.date), days));
      && |GrossByDate(gross, days + [day])| == |GrossByDate(gross, days)|
      && GrossByDate(gross, days)[i] == DatedGross(day.date, sum)
      && GrossByDate(gross, days + [day])[i] == DatedGross(day.date, sum + gross(day))
  {
    KeysAppend(DateOf(), days, day);
    GroupAt(DateOf(), GrossSummary(gross), days, day, i);
    OneDayInSummary(gross, Filter(HasKey(DateOf(), day.date), days), day);
  }

  lemma DateGrows(gross: Day -> int, days: seq<Day>, day: Day, i: nat)
    requires i < |GrossByDate(gross, days)| && GrossByDate(gross, days)[i].date == day.date
    ensures |GrossByDate(gross, days + [day])| == |GrossByDate(gross, days)|
    ensures GrossByDate(gross, days + [day])[i]
         == DatedGross(day.date, GrossByDate(gross, days)[i].gross + gross(day))
  {
    GrossDatesAreKeys(gross, days);
    DateAgain(gross, days, day, i);
  }

  lemma OtherDatesStay(gross: Day -> int, days: seq<Day>, day: Day, i: nat)
    requires i < |GrossByDate(gross, days)| && GrossByDate(gross, days)[i].date == day.date
    ensures var totals, after := GrossByDate(gross, days), GrossByDate(gross, days + [day]);
      |after| == |totals| && forall j | 0 <= j < |totals| && j != i :: after[j] == totals[j]
  {
    GrossDatesAreKeys(gross, days);
    OthersUntouched(DateOf(), GrossSummary(gross), days, day, i);
  }

  lemma KnownDate(gross: Day -> int, days: seq<Day>, day: Day, i: nat)
    requires i < |GrossByDate(gross, days)| && GrossByDate(gross, days)[i].date == day.date
    ensures GrossByDate(gross, days + [day])
         == GrossByDate(gross, days)[i := DatedGross(day.date, GrossByDate(gross, days)[i].gross + gross(day))]
  {
    DateGrows(gross, days, day, i);
    OtherDatesStay(gross, days, day, i);
    OneReplaced(GrossByDate(gross, days), GrossByDate(gross, days + [day]), i);
  }

  lemma NewDate(gross: Day -> int, days: seq<Day>, day: Day)
    requires forall g | g in GrossByDate(gross, days) :: g.date != day.date
    ensures GrossByDate(gross, days + [day]) == GrossByDate(gross, days) + [DatedGross(day.date, gross(day))]
  {
    GrossDatesAreKeys(gross, days);
    OneDayInSummary(gross, [], day);
    forall k | k in DistinctKeys(DateOf(), days)
      ensures k != day.date
    {
      var j :| 0 <= j < |DistinctKeys(DateOf(), days)| && DistinctKeys(DateOf(), days)[j] == k;
      assert GrossByDate(gross, days)[j].date == k;
    }
    GroupedAnew(DateOf(), GrossSummary(gross), days, day);
  }

  lemma NoSuchDate(totals: seq<DatedGross>, date: int)
    requires Find(Dated(date), totals) == |totals|
    ensures forall g | g in totals :: g.date != date
  {
    assert forall j | 0 <= j < |totals| :: !Dated(date)(totals[j]);
  }

  lemma PutGrossGroups(gross: Day -> int, days: seq<Day>, day: Day)
    ensures PutGross(GrossByDate(gross, days), day.date, gross(day)) == GrossByDate(gross, days + [day])
  {
    var totals := GrossByDate(gross, days);
    var i := Find(Dated(day.date), totals);
    if i < |totals| {
      KnownDate(gross, days, day, i);
    } else {
      NoSuchDate(totals, day.date);
      NewDate(gross, days, day);
    }
  }

  lemma {:induction false} ClosedAmongDated(from: int, to: int, days: seq<Day>)
    ensures Filter(ClosedOnly(), Filter(DatedWithin(from, to), days))
         == Filter(ClosedWithin(from, to), days)
  {
    if days != [] {
      ClosedAmongDated(from, to, days[1..]);
      FilterConcat(ClosedOnly(), if DatedWithin(from, to)(days[0]) then [days[0]] else [],
                   Filter(DatedWithin(from, to), days[1..]));
    }
  }

  function ClosedGross(st: State, days: seq<Day>): seq<DatedGross>
  {
    GrossByDate(GrossOn(st), Filter(ClosedOnly(), days))
  }

  lemma OneDayMore(st: State, days: seq<Day>, n: nat)
    requires n < |days|
    ensures ClosedGross(st, days[..n + 1])
      == if days[n].isOpen then ClosedGross(st, days[..n])
         else PutGross(ClosedGross(st, days[..n]), days[n].date, DayFigures(st, days[n].id).Gross())
  {
    var before := Filter(ClosedOnly(), days[..n]);
    assert days[..n + 1] == days[..n] + [days[n]];
    FilterAppend(ClosedOnly(), days[..n], days[n]);
    if days[n].isOpen {
      assert before + [] == before;
    } else {
      PutGrossGroups(GrossOn(st), before, days[n]);
    }
  }

  /** The loop adds the gross of every closed day into a map keyed by business date. */
  method GetClosedDailyGross(st: State, from: int, to: int) returns (totals: seq<DatedGross>)
    ensures totals == ClosedDailyGross(st, from, to)
  {
    var days := DaysBetween(st, from, to);
    totals := [];
    for n := 0 to |days|
      invariant totals == ClosedGross(st, days[..n])
    {
      OneDayMore(st, days, n);
      if !days[n].isOpen {
        totals := PutGross(totals, days[n].date, DayFigures(st, days[n].id).Gross());
      }
    }
    assert days[..|days|] == days;
    ClosedAmongDated(from, to, st.days);
  }

  // ----- what moves a product, a count and a category

  predicate RowGrown(row: ProductRow, after: ProductRow, quantity: int, cups: int, revenue: int)
  {
    && after.product == row.product && after.quantity == row.quantity + quantity
    && after.cups == row.cups + cups && after.revenue == row.revenue + revenue
  }

  /** A sold line adds its quantity, its total and, when its size is served in a cup, its servings to the
      product of its size, and to no other. */
  lemma LineGrowsItsProduct(c: Catalog, lines: seq<Line>, l: Line, p: Id)
    ensures ProductTotal(c, [])(p) == ProductRow(p, 0, 0, 0)
    ensures RowGrown(ProductTotal(c, lines)(p), ProductTotal(c, lines + [l])(p),
                     if c.product(l.variant) == p then l.terms.quantity else 0,
                     if c.product(l.variant) == p && c.hasCup(l.variant) then l.terms.quantity * l.servings else 0,
                     if c.product(l.variant) == p then l.amounts.total else 0)
  {
    SumAppend(Cell(ProductOf(c), Quantity(), p), lines, l);
    SumAppend(Cell(ProductOf(c), Cups(c), p), lines, l);
    SumAppend(Cell(ProductOf(c), LineTotalOf(), p), lines, l);
  }

  predicate CountedLater(a: CashCount, b: CashCount)
  {
    a.at > b.at || (a.at == b.at && a.id > b.id)
  }

  /** The count a day is reported with is its latest, and there is one unless the day was never counted. */
  lemma {:induction false} LatestCountIsLatest(counts: seq<CashCount>, day: Id)
    ensures LatestCount(counts, day).None? <==> forall c | c in counts :: c.day != day
    ensures LatestCount(counts, day).Some? ==>
      var latest := LatestCount(counts, day).value;
      && latest in counts && latest.day == day
      && forall c | c in counts && c.day == day :: !CountedLater(c, latest)
  {
    if counts != [] {
      LatestCountIsLatest(counts[1..], day);
    }
  }

  /** A day is reported unless an amount of it is no safe integer: with its figures and, once it is
      closed and has been counted, the latest count and what that is over or short. */
  lemma DailyRowMeans(st: State, day: Day)
    ensures var f, counted := DayFigures(st, day.id), LatestCount(st.counts, day.id);
      var cash := if day.isOpen || counted.None? then None else Some(counted.value.counted);
      && (DailyRow(st, day).Some? <==>
            FiguresSafe(f, day.openingFloat)
            && (cash.Some? ==> Safe(cash.value) && Safe(cash.value - Left(f, day.openingFloat))))
      && (DailyRow(st, day).Some? ==>
            var row := DailyRow(st, day).value;
            && row.figures == f && row.expected == Left(f, day.openingFloat) && row.actual == cash
            && (row.variance.Some? <==> cash.Some?)
            && (cash.Some? ==> row.variance.value == cash.value - row.expected))
  {
    ReconciledIff(day.isOpen, day.openingFloat, DayFigures(st, day.id), CountedCash(st.counts, day.id));
  }

  function AmountIn(category: Option<string>): Movement -> int
  {
    (m: Movement) => if m.category == category then m.amount else 0
  }

  function OneIn(category: Option<string>): Movement -> int
  {
    (m: Movement) => if m.category == category then 1 else 0
  }

  lemma {:induction false} CountByOnes(category: Option<string>, rows: seq<Movement>)
    ensures |Filter(HasKey(CategoryOf(), category), rows)| == Sum(OneIn(category), rows)
  {
    if rows != [] {
      CountByOnes(category, rows[1..]);
    }
  }

  lemma CategoryListedIff(rows: seq<Movement>, category: Option<string>)
    ensures (exists t | t in CategoryTotals(rows) :: t.category == category) <==>
      exists m | m in rows :: m.category == category
  {
    var keys, totals := DistinctKeys(CategoryOf(), rows), CategoryTotals(rows);
    CategoriesAreKeys(rows);
    if m :| m in rows && m.category == category {
      assert CategoryOf()(m) in keys;
      var k :| 0 <= k < |keys| && keys[k] == category;
      assert totals[k] in totals;
    }
    if t :| t in totals && t.category == category {
      var k :| 0 <= k < |totals| && totals[k] == t;
      KeysAreUsed(CategoryOf(), rows, keys[k]);
    }
  }

  lemma CategorySums(rows: seq<Movement>, category: Option<string>, k: nat)
    requires k < |DistinctKeys(CategoryOf(), rows)| && DistinctKeys(CategoryOf(), rows)[k] == category
    ensures |CategoryTotals(rows)| == |DistinctKeys(CategoryOf(), rows)|
    ensures CategoryTotals(rows)[k]
      == CategoryTotal(category, Sum(OneIn(category), rows), Sum(AmountIn(category), rows))
  {
    CountByOnes(category, rows);
    SumFiltered(HasKey(CategoryOf(), category), MovementAmount(), rows);
    SumAgree(Restricted(HasKey(CategoryOf(), category), MovementAmount()), AmountIn(category), rows);
  }

  /** Every category is listed once, with the number and the sum of its own expenses, and no other is. */
  lemma CategoriesAreTheirOwn(rows: seq<Movement>, category: Option<string>)
    ensures (exists t | t in CategoryTotals(rows) :: t.category == category) <==>
      exists m | m in rows :: m.category == category
    ensures forall t | t in CategoryTotals(rows) && t.category == category ::
      t.entries == Sum(OneIn(category), rows) && t.total == Sum(AmountIn(category), rows)
    ensures forall i, j | 0 <= i < j < |CategoryTotals(rows)| ::
      CategoryTotals(rows)[i].category != CategoryTotals(rows)[j].category
  {
    var totals := CategoryTotals(rows);
    CategoryListedIff(rows, category);
    CategoriesAreKeys(rows);
    forall t | t in totals && t.category == category
      ensures t.entries == Sum(OneIn(category), rows) && t.total == Sum(AmountIn(category), rows)
    {
      var k :| 0 <= k < |totals| && totals[k] == t;
      CategorySums(rows, category, k);
    }
  }
}
