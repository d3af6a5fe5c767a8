/** Integer money in cents: the per-line arithmetic of an order, the figures suggested from a
    day's gross sales, and the drawer reconciliation. */
module Money {
  import opened Tables

  const MAX_SAFE: int := 9007199254740991

  predicate Safe(value: int)
  {
    -MAX_SAFE <= value <= MAX_SAFE
  }

  function Abs(x: int): nat
  {
    if x < 0 then -x else x
  }

  function Sign(x: int): int
  {
    if x < 0 then -1 else if x == 0 then 0 else 1
  }

  /** Division and remainder that truncate toward zero. */
  function TruncDiv(x: int, n: int): int
    requires n > 0
  {
    Sign(x) * (Abs(x) / n)
  }

  function TruncMod(x: int, n: int): int
    requires n > 0
  {
    Sign(x) * (Abs(x) % n)
  }

  // ----- one order line

  const STATUTORY_DISCOUNT_PERCENT: int := 20
  const FREE_UPSIZE_UNIT_CENTS: int := 3_000

  datatype DiscountKind = NoDiscount | Pwd | Senior

  /** The fields of a line that decide its amounts. */
  datatype LineTerms = LineTerms(
    quantity: int, unitPrice: int, discount: DiscountKind, upsizes: int, upsizeEligible: bool)

  datatype LineAmounts = LineAmounts(gross: int, freeUpsize: int, discount: int, total: int)

  datatype LineError = BadQuantity | BadUpsizeCount | NotEligible | LineTooLarge | UpsizeExceedsGross

  function CalculateLineAmounts(line: LineTerms): Result<LineAmounts, LineError>
  {
    if !Safe(line.quantity) || line.quantity < 1 then Err(BadQuantity)
    else if !Safe(line.upsizes) || line.upsizes < 0 || line.upsizes > line.quantity then
      Err(BadUpsizeCount)
    else if !line.upsizeEligible && line.upsizes > 0 then Err(NotEligible)
    else
      var gross := line.unitPrice * line.quantity;
      var free := line.upsizes * FREE_UPSIZE_UNIT_CENTS;
      if !Safe(gross) then Err(LineTooLarge)
      else if free > gross then Err(UpsizeExceedsGross)
      else
        var discount := match line.discount
          case NoDiscount => 0
          case _ => ((gross - free) * STATUTORY_DISCOUNT_PERCENT + 50) / 100;
        Ok(LineAmounts(gross, free, discount, gross - free - discount))
  }

  lemma MultiplesApart(low: int, high: int, n: int)
    requires low < high && n > 0
    ensures low * n + n <= high * n
  {
    assert high * n == low * n + (high - low) * n;
    assert (high - low) * n == (high - low - 1) * n + n;
  }

  lemma FifthRounded(base: int)
    requires 0 <= base
    ensures var d := (base * STATUTORY_DISCOUNT_PERCENT + 50) / 100;
      0 <= d <= base && -50 < 100 * d - 20 * base < 50
  {
  }

  /** An accepted line never has a negative amount, and its discount is the nearest whole cent to
      20% of what remains after the free upsizes: a tie cannot occur. */
  lemma LineAmountsWithinPrice(line: LineTerms)
    requires CalculateLineAmounts(line).Ok?
    ensures var a := CalculateLineAmounts(line).value;
      && line.unitPrice >= 0
      && a.gross == line.unitPrice * line.quantity
      && 0 <= a.total <= a.gross && 0 <= a.discount && 0 <= a.freeUpsize
      && a.total + a.discount + a.freeUpsize == a.gross
      && (line.discount != NoDiscount ==>
            Abs(100 * a.discount - 20 * (a.gross - a.freeUpsize)) < 50)
      && (line.discount == NoDiscount ==> a.discount == 0)
  {
    if line.unitPrice < 0 {
      MultiplesApart(line.unitPrice, 0, line.quantity);
    }
    var gross := line.unitPrice * line.quantity;
    FifthRounded(gross - line.upsizes * FREE_UPSIZE_UNIT_CENTS);
  }

  /** What the shared money module computes for a line of the same price and quantity. */
  function SharedLineAmounts(unitPrice: int, quantity: int, kind: DiscountKind): (r: (int, int, int))
  {
    var gross := unitPrice * quantity;
    var rounded := Abs(gross) / 5 + (if Abs(gross) % 5 >= 3 then 1 else 0);
    var discount := if kind == Senior then Sign(gross) * rounded else 0;
    (gross, discount, gross - discount)
  }

  /** The shared calculation takes a fifth of the gross, to the nearest cent, off a senior's line and
      nothing off any other. */
  lemma SharedAmountsMean(unitPrice: int, quantity: int, kind: DiscountKind)
    ensures var (gross, discount, total) := SharedLineAmounts(unitPrice, quantity, kind);
      && gross == unitPrice * quantity && gross == discount + total
      && (kind == Senior ==> -2 <= 5 * discount - gross <= 2)
      && (kind != Senior ==> discount == 0)
  {
    NearestFifth(unitPrice * quantity);
  }

  lemma NearestFifth(gross: int)
    ensures var fifth := Sign(gross) * (Abs(gross) / 5 + (if Abs(gross) % 5 >= 3 then 1 else 0));
      -2 <= 5 * fifth - gross <= 2
  {
    assert Abs(gross) == 5 * (Abs(gross) / 5) + Abs(gross) % 5;
  }

  lemma FifthsAgree(gross: int)
    requires 0 <= gross
    ensures var d := (gross * STATUTORY_DISCOUNT_PERCENT + 50) / 100;
      && d == gross / 5 + (if gross % 5 >= 3 then 1 else 0)
      && (d == 0 <==> gross < 3)
  {
    assert gross == 5 * (gross / 5) + gross % 5;
  }

  /** The two line calculations give the same gross, discount and total exactly when the line has
      no free upsize and is not a PWD line worth at least three cents: the shared one discounts
      Senior lines only and knows no upsize. */
  lemma SharedFormAgreesIff(line: LineTerms)
    requires CalculateLineAmounts(line).Ok?
    ensures var a := CalculateLineAmounts(line).value;
      (a.gross, a.discount, a.total) == SharedLineAmounts(line.unitPrice, line.quantity, line.discount)
      <==> line.upsizes == 0 && (line.discount == Pwd ==> line.unitPrice * line.quantity < 3)
  {
    LineAmountsWithinPrice(line);
    FifthsAgree(line.unitPrice * line.quantity);
  }

  /** A PWD line of one peso: the service takes twenty cents off, the shared calculation nothing. */
  lemma PwdLineIsSharedInFull()
    ensures CalculateLineAmounts(LineTerms(1, 100, Pwd, 0, false)) == Ok(LineAmounts(100, 0, 20, 80))
    ensures SharedLineAmounts(100, 1, Pwd) == (100, 0, 100)
  {
  }

  // ----- figures derived from a day's gross sales

  function AverageCents(gross: int, orders: nat): int
  {
    if orders == 0 then 0
    else
      var quotient := TruncDiv(gross, orders);
      var remainder := TruncMod(gross, orders);
      var doubled := Abs(remainder) * 2;
      if doubled < orders then quotient
      else if doubled == orders && remainder < 0 then quotient
      else quotient + Sign(remainder)
  }

  lemma FloorIsUnique(a: int, n: int, q: int)
    requires n > 0 && q * n <= a < q * n + n
    ensures a / n == q
  {
    var d := a / n;
    assert d * n <= a < d * n + n;
    if d > q {
      MultiplesApart(q, d, n);
    } else if d < q {
      MultiplesApart(d, q, n);
    }
  }

  lemma HalfUp(q: int, r: int, n: int)
    requires n > 0 && 0 <= r < n
    ensures (2 * (q * n + r) + n) / (2 * n) == if 2 * r < n then q else q + 1
  {
    var avg := if 2 * r < n then q else q + 1;
    assert avg * (2 * n) == if 2 * r < n then 2 * (q * n) else 2 * (q * n) + 2 * n;
    FloorIsUnique(2 * (q * n + r) + n, 2 * n, avg);
  }

  lemma HalfUpBelowZero(q: int, r: int, n: int)
    requires n > 0 && 0 <= r < n
    ensures (2 * (0 - q * n - r) + n) / (2 * n) == if 2 * r <= n then -q else -q - 1
  {
    if r == 0 {
      HalfUp(-q, 0, n);
      assert (-q) * n == 0 - q * n;
    } else {
      HalfUp(-q - 1, n - r, n);
      assert (-q - 1) * n == 0 - q * n - n;
    }
  }

  /** The average order value is floor(gross / orders + 1/2), for losses as well as for gains. */
  lemma AverageIsHalfUp(gross: int, orders: nat)
    requires orders > 0
    ensures AverageCents(gross, orders) == (2 * gross + orders) / (2 * orders)
  {
    var q, r := Abs(gross) / orders, Abs(gross) % orders;
    assert Abs(gross) == q * orders + r;
    if gross >= 0 {
      HalfUp(q, r, orders);
      assert gross > 0 ==> TruncDiv(gross, orders) == q && TruncMod(gross, orders) == r;
    } else {
      HalfUpBelowZero(q, r, orders);
      assert TruncDiv(gross, orders) == -q && TruncMod(gross, orders) == -r;
    }
  }

  /** Gross sales rounded for the rent share: the hundreds digit 8 or 9 rounds the thousands up. */
  function RentBase(gross: int): int
    requires gross > 0
  {
    var wholeThousands := gross / 100_000;
    var hundredsDigit := (gross % 100_000) / 10_000;
    (if hundredsDigit >= 8 then wholeThousands + 1 else wholeThousands) * 100_000
  }

  /** `None` stands for the refusal of an amount outside the safe integers. */
  function SuggestRentDeposit(gross: int, basisPoints: int): Option<int>
  {
    if gross <= 0 then Some(0)
    else
      var deposit := (RentBase(gross) / 10_000) * basisPoints;
      if Safe(deposit) then Some(deposit) else None
  }

  lemma RentBaseNear(gross: int) returns (thousands: int)
    requires gross > 0
    ensures RentBase(gross) == 100_000 * thousands
    ensures gross - 80_000 < RentBase(gross) <= gross + 20_000
  {
    var wholeThousands, rest := gross / 100_000, gross % 100_000;
    assert gross == 100_000 * wholeThousands + rest;
    thousands := if rest / 10_000 >= 8 then wholeThousands + 1 else wholeThousands;
  }

  lemma TenthsOfThousands(thousands: int)
    ensures 100_000 * thousands / 10_000 == 10 * thousands
    ensures 100_000 * thousands % 100_000 == 0
  {
  }

  lemma ShareOfThousands(thousands: int, basisPoints: int)
    ensures 10_000 * (10 * thousands * basisPoints) == 100_000 * thousands * basisPoints
  {
  }

  /** The rent deposit is exactly the agreed share of a base that is a whole number of thousands
      of pesos, less than 800 pesos below the gross and at most 200 pesos above it. */
  lemma RentDepositIsExact(gross: int, basisPoints: int)
    requires gross > 0
    ensures gross - 80_000 < RentBase(gross) <= gross + 20_000
    ensures RentBase(gross) % 100_000 == 0
    ensures var deposit := SuggestRentDeposit(gross, basisPoints);
      deposit.Some? ==> 10_000 * deposit.value == RentBase(gross) * basisPoints
  {
    var thousands := RentBaseNear(gross);
    TenthsOfThousands(thousands);
    ShareOfThousands(thousands, basisPoints);
  }

  lemma RentBaseMonotone(low: int, high: int)
    requires 0 < low <= high
    ensures RentBase(low) <= RentBase(high)
  {
  }

  function SuggestChairDeposit(gross: int, amount: int, threshold: int): int
  {
    if gross < threshold then 0 else amount
  }

  /** A rate for each complete thousand pesos; `None` stands for the refusal of an unsafe amount. */
  function SuggestCommission(gross: int, ratePerBand: Option<int>): Option<int>
  {
    if ratePerBand.None? || gross <= 0 then Some(0)
    else
      var commission := ratePerBand.value * (gross / 100_000);
      if Safe(commission) then Some(commission) else None
  }

  lemma BandsOfSum(low: int, high: int)
    requires low >= 0 && high >= 0
    ensures var a, b, c := low / 100_000, high / 100_000, (low + high) / 100_000;
      0 <= a && 0 <= b && (c == a + b || c == a + b + 1)
  {
  }

  lemma RateOfParts(rate: int, a: int, b: int, c: int)
    requires rate >= 0 && a >= 0 && b >= 0 && (c == a + b || c == a + b + 1)
    ensures 0 <= rate * a && 0 <= rate * b && rate * a + rate * b <= rate * c <= rate * a + rate * b + rate
  {
    assert rate * (a + b) == rate * a + rate * b && rate * (a + b + 1) == rate * a + rate * b + rate;
  }

  /** Paying commission on two gross amounts apart never gives more than on their sum, and at most one
      band less. */
  lemma CommissionOfParts(low: int, high: int, rate: int)
    requires low >= 0 && high >= 0 && rate >= 0
    requires SuggestCommission(low + high, Some(rate)).Some?
    ensures SuggestCommission(low, Some(rate)).Some? && SuggestCommission(high, Some(rate)).Some?
    ensures var apart := SuggestCommission(low, Some(rate)).value + SuggestCommission(high, Some(rate)).value;
      apart <= SuggestCommission(low + high, Some(rate)).value <= apart + rate
  {
    BandsOfSum(low, high);
    RateOfParts(rate, low / 100_000, high / 100_000, (low + high) / 100_000);
    assert low == 0 ==> rate * (low / 100_000) == 0;
    assert high == 0 ==> rate * (high / 100_000) == 0;
  }

  /** The commission is the rate for each whole thousand pesos, and is refused exactly when that is no
      safe integer; without a rate or a gain it is zero. */
  lemma CommissionIsPerBand(gross: int, rate: Option<int>, bands: int)
    requires 100_000 * bands <= gross < 100_000 * bands + 100_000
    ensures SuggestCommission(gross, rate)
      == if rate.None? || gross <= 0 then Some(0)
         else if Safe(rate.value * bands) then Some(rate.value * bands) else None
  {
    assert gross / 100_000 == bands;
  }

  // ----- the drawer

  /** What a reconciliation adds up for one trading day. */
  datatype Figures = Figures(
    cashSales: int, onlineSales: int, tips: int,
    cashIn: int, cashOut: int, expenses: int, outstandingChange: int)
  {
    function Gross(): int
    {
      cashSales + onlineSales
    }

    function Expected(openingFloat: int): int
    {
      openingFloat + cashSales + tips + cashIn + outstandingChange - cashOut - expenses
    }

    predicate AllSafe(openingFloat: int)
    {
      && Safe(cashSales) && Safe(onlineSales) && Safe(tips) && Safe(cashIn) && Safe(cashOut)
      && Safe(expenses) && Safe(outstandingChange) && Safe(Gross()) && Safe(Expected(openingFloat))
    }
  }

  datatype Reconciliation = Reconciliation(
    figures: Figures, expected: int, actual: Option<int>, variance: Option<int>)

  /** Every figure and every sum of them is a safe integer. */
  predicate FiguresSafe(f: Figures, openingFloat: int)
  {
    && Safe(f.cashSales) && Safe(f.onlineSales) && Safe(f.cashSales + f.onlineSales) && Safe(f.tips)
    && Safe(f.cashIn) && Safe(f.cashOut) && Safe(f.expenses) && Safe(f.outstandingChange)
    && Safe(Left(f, openingFloat))
  }

  /** Float, cash, tips, cash put in and change withheld, less cash taken out and spent. */
  function Left(f: Figures, openingFloat: int): int
  {
    openingFloat + f.cashSales + f.tips + f.cashIn + f.outstandingChange - f.cashOut - f.expenses
  }

  /** A reconciliation is refused exactly when a figure, or for a counted closed day the count or its
      difference, is no safe integer. */
  lemma ReconciledIff(isOpen: bool, openingFloat: int, f: Figures, counted: Option<int>)
    ensures CalculateCashReconciliation(isOpen, openingFloat, f, counted).Some? <==>
      && FiguresSafe(f, openingFloat)
      && (!isOpen && counted.Some? ==> Safe(counted.value) && Safe(counted.value - Left(f, openingFloat)))
  {
  }

  /** An open day ignores any count: actual cash and variance stay absent. */
  function CalculateCashReconciliation(
      isOpen: bool, openingFloat: int, figures: Figures, counted: Option<int>): Option<Reconciliation>
  {
    if !figures.AllSafe(openingFloat) then None
    else
      var expected := figures.Expected(openingFloat);
      if isOpen || counted.None? then Some(Reconciliation(figures, expected, None, None))
      else if !Safe(counted.value) || !Safe(counted.value - expected) then None
      else Some(Reconciliation(figures, expected, counted, Some(counted.value - expected)))
  }
}
