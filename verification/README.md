# Point-of-sale ledger: a verified model

A Dafny 4.11 model of the back end of a coffee-shop point of sale, with proofs of what its
services promise. `dafny verify dfyconfig.toml` checks the whole project.

The back end is one append-mostly ledger. Orders are parked, completed and voided; trading days
are opened and closed; cash movements are recorded and amended; stock is counted; deposits are
set aside in a journal. Several read models recompute figures from the same rows and have to agree.
The project models this at two levels, and beside it the cores that stand on their own.

**One transaction is one step.** `Store` holds the tables, `Orders` and `TradingDays` say what each
request does to them and what it answers, `Services` carries the requests out row by row in a class
over the tables, each method proved against the step of its request. `Ledger` and `LedgerSteps` state
the invariant and prove that every request keeps it. What a request does is proved apart from how it is
computed: `Acceptance` says by the rows it finds exactly when it goes through, `Refusals` that the reason
given for a refusal holds, `Effects` what is written, field by field, on top of `LineEdits` (the lines of
an order), `Tenders` (payment, cash and change) and `Voids` (what a void takes back). `JournalEffects` and
`StockEffects` do the same for the journal and for stock counts. Over whole runs, `Drawer` proves the
expected cash, `FigureFlow` every figure of a day, `History` what is never undone and how a closing ages,
`Replays` what a repeated request is answered, `Reports` that the read models agree, and `Amendments` the
chains of amended cash movements.

**Transactions interleave.** `Locking` splits the transactions at their reads, row locks and
commits; reads see committed rows only, and a closing queries its day one table after the other.
`Interleavings` proves what every schedule keeps, `Progress` that no schedule is ever stuck.
`LoneRuns`, `ProtocolTables`, `SerialRequests` and `SerialRuns` join the two levels: a transaction
that runs alone does what its request does in one step, so every run of the ledger is a serial run of
the protocol. `Serializable` goes the other way: an interleaving whose commits nothing overtook ends in
the tables of a serial run. Of the checks with neither a lock on what they read nor a constraint behind
them, five decide what the tables may hold: that the day of an order is open, that the day of a stock
count or movement is open, that a business date is unused, that deposits follow the start of their
ledger, that a ledger name is new. `Races`, `StockRace`, `OpeningRace`, `DepositRace` and `NameRace`
prove exactly when each of them lets something through (`DepositChecks` ties the fourth to the journal).

**Cores of their own.** `StockCounts`, `StockChains` and `Packaging` (counts, correction chains, cup
and lid reconciliation; `PackagingAge` joins them to the ledger, to say how the reconciliation a
closing stored ages); `Rates`, `Journal`, `JournalLaws`, `MissingDayLaws`, `JournalBalance` and
`JournalTables` (rate history, deposits, missing days, balances); `Payslip`; `Csv` and `CsvRoundTrip`
(the report file against a reader for section 2 of RFC 4180); `Throttle`, `ThrottleRefinement` and
`Evictions` (failed sign-in attempts); `Money` (line amounts, averages, suggestions). `Tables`,
`KeyedRows` and `Sorting` hold folds and look-ups over rows.

Money is in whole cents and unbounded; the safe-integer checks the code makes are written out. Row
ids, clock readings, business dates (as integers), whether a staff member is active and what a
catalog look-up found are inputs.

## What was found

Where something fails, the failing input or run is a lemma of its own, named last.

- A completion or an edit reads that its day is open without locking it, and a closing queries
  payments and sales one after the other. A closing can therefore miss a completion that is on its
  way, or store its tip without its payment: `Races.ClosedDayIsFrozenIff`,
  `Races.ExpectedCashIsFrozenIff` and `Races.ClosingAgreesForeverIff` say exactly when;
  `Races.CloseCanMissACompletion`, `Races.CloseCanSplitACompletion`.
- A stock count or movement is recorded for the day that was open before its transaction began. It can
  be recorded for a closed day exactly when somebody closes too and a day is open or can be opened:
  `StockRace.StockIsInTimeIff`; `StockRace.StockCanBeLate`. Requests one at a time leave the stock rows
  of a closed day alone.
- Nothing keeps a business date unused between the check and the insert of a new day. Two days get
  one date exactly when two requests open the same unused date and enough requests close a day in
  between: `OpeningRace.DatesUniqueIff`; `OpeningRace.DatesCanRepeat`. Requests one at a time keep
  dates unique.
- Nothing ties a deposit to the start of its ledger between check and write. While no deposit is moved
  out of the way of another request, a deposit can end up before the start exactly when its date is
  closed and allowed, and another request moves the start past it with nothing recorded in the way:
  `DepositRace.DepositsFollowStartIff`; `DepositRace.DepositCanPrecedeStart`. Whatever is moved, it
  can only when everything recorded in the way of such a pair is itself being removed or moved:
  `DepositRace.DepositsFollowStart`. Requests one at a time keep deposits behind the start.
- Ledger names are looked up without regard to case, the unique key compares them exactly. Two ledgers
  can differ in case only exactly when two requests want one unknown name in different letters:
  `NameRace.NamesStayApartIff`; `NameRace.NamesCanCollide`. Requests one at a time keep names apart.
- A create is a replay only while its order exists; after a discard the same request opens a new
  order: `History.CreateReplayIff`; `Witnesses.DiscardedOrderComesBack`.
- The lines of a void leave out the servings per cup and fall back to one, so an order and its void
  cancel in cups only for single servings: `Reports.VoidCancelsOrder`; `Witnesses.VoidCanLeaveACup`.
  Quantities and revenue always cancel.
- The line calculation shared with the clients discounts Senior lines only, the one in the service
  also PWD lines: `Money.SharedFormAgreesIff`; `Money.PwdLineIsSharedInFull`.
- The count sheet shows the newest row, the reconciliation the newest uncorrected one; stamped in one
  instant they can differ: `StockChains.SheetAgreesIff`; `StockChains.SheetCanShowACorrectedCount`.
- Two different variance reasons can print as the same CSV cell: `CsvRoundTrip.SameCellIff`;
  `CsvRoundTrip.ReasonsCanCollide`.
- The throttle forgets failures that still count exactly when the keys still counting and the failing
  one do not fit its cap: `Evictions.EvictionShowsIff`; `Evictions.EvictionCanShow`.

Where the design notes and the code differ the model follows the code. The notes call opening a day
idempotent, but an opening carries no request id: a repeated one is refused, which adds no row either.

## Model

| member | source | states |
|---|---|---|
| Money.LineAmountsWithinPrice | apps/api/src/orders/orders.service.ts:66-112 | an accepted line has no negative amount, its parts add up to its gross, and its discount lies within half a cent of 20% of what the free upsizes leave |
| Money.SharedFormAgreesIff | packages/shared/src/money.ts:124-141 | the two line calculations agree if and only if there is no free upsize and no PWD line worth three cents or more |
| Money.PwdLineIsSharedInFull | packages/shared/src/money.ts:124-141 | a PWD line of one peso is discounted by the service and not by the shared calculation |
| Money.SharedAmountsMean | packages/shared/src/money.ts:124-141 | the shared calculation takes a fifth of the gross to the nearest cent off a Senior line, of either sign, and nothing off any other |
| Money.AverageIsHalfUp | apps/api/src/reporting/reporting.service.ts:1272-1290 | the average is floor(gross / orders + 1/2), for losses as well as gains |
| Money.RentDepositIsExact | packages/shared/src/money.ts:94-106 | the rent base is a whole number of thousands of pesos within (gross - 80000, gross + 20000], and the deposit is exactly its share |
| Money.RentBaseMonotone | packages/shared/src/money.ts:98-104 | more gross never lowers the rent base |
| Money.CommissionOfParts | packages/shared/src/money.ts:69-90 | commission on two amounts apart is never more than on their sum, and at most one band less |
| Money.CommissionIsPerBand | packages/shared/src/money.ts:69-90 | the commission is the rate for each whole thousand pesos, zero without a rate or a gain, and refused exactly when it is no safe integer |
| Money.ReconciledIff | packages/shared/src/money.ts:162-206 | a reconciliation is refused if and only if a figure, a sum of them or, for a counted closed day, the count or its difference is no safe integer |
| Lines.TotalsAddUp | apps/api/src/orders/orders.service.ts:702-729 | the header total of priced lines is the sum of their totals and lies between zero and the subtotal |
| Lines.AddKeepsPriced | apps/api/src/orders/orders.service.ts:342-377 | adding or merging a line keeps every stored amount equal to its calculation |
| Lines.AddOrdersTheQuantity | apps/api/src/orders/orders.service.ts:352-376 | adding a line raises the ordered quantity of its own size by its quantity and of no other, merged or not |
| Lines.NormalizedIsCanonical | apps/api/src/orders/orders.service.ts:114-121 | two lists of preferences normalize alike if and only if they name the same preferences |
| LineEdits.PricedIff | apps/api/src/orders/orders.service.ts:66-112 | a line is accepted if and only if its quantity is positive, its free upsizes are no more, allowed and covered by its price, and its gross is safe; the amounts are then 30 pesos for each upsize, a fifth of the rest to the nearest cent for PWD and Senior lines, and what is left |
| LineEdits.NormalizedPrefers | apps/api/src/orders/orders.service.ts:114-121 | the preferences asked for are stored once each, in their declared order |
| LineEdits.AddedLines | apps/api/src/orders/orders.service.ts:342-377 | a plain line joins the first plain line of its size and adds its quantity there, any other is put in by its id as asked for; every other line stays, and it goes through if and only if the resulting line is acceptable, a new one under a new id |
| LineEdits.EditedLines | apps/api/src/orders/orders.service.ts:379-462 | an edit is not found if and only if no line has the id; an accepted one leaves every other line as it was and in order, increment adds one, decrement takes one or the line itself when it was the last, remove takes the line, an update sets exactly the fields given |
| Tenders.PortionIsThePayment | apps/api/src/orders/orders.service.ts:182-184 | with one payment per method, the portion of a method is its payment |
| Tenders.TenderAcceptedIff | apps/api/src/orders/orders.service.ts:140-211 | a tender is accepted if and only if it pays the total with at most one payment per method, none negative, and its cash covers the cash payment and the change withheld; the cash stored is none without a cash payment, else what the client named, or the payment when it named nothing |
| Tenders.StoredCashIsTheChange | apps/api/src/orders/orders.service.ts:464-502 | the cash a completed order says was received, less its cash payment and the change withheld, is the change handed back at the drawer |
| Voids.EveryVoidCancels | apps/api/src/orders/orders.service.ts:558-617 | in every sound store a void takes back one completed order, header, lines and payments, amount by amount, and its own header is the sum of its lines and of its payments |
| LedgerSteps.StepKeepsInv | apps/api/src/orders/orders.service.ts:220-700 | every request keeps the invariant of all tables: unique numbers and ids, one void per order, one open day, sound orders, chains and closings |
| LedgerSteps.RunKeepsInv | apps/api/src/trading-day/trading-day.service.ts:177-641 | the invariant holds over whole runs |
| LedgerSteps.OtherTablesKept | apps/api/src/orders/orders.service.ts:649-700 | a request about an order writes sales only, one about a movement movements only, one that opens a day days only |
| Acceptance.AnsweredIff | apps/api/src/orders/orders.service.ts:220-647 | a create, completion, settlement, void, opening, closing, movement or amendment goes through if and only if it repeats one carried out before, which changes nothing, or the rows it finds allow it, and then it changes the store |
| Acceptance.EditAnsweredIff | apps/api/src/orders/orders.service.ts:325-462 | an edit of an order goes through if and only if the order is parked on an open day and its lines allow the edit |
| Acceptance.VoidAccepted | apps/api/src/orders/orders.service.ts:509-561 | a void needs a completed order without one, an open day, that of the order unless an administrator asks, and ids of its own |
| Acceptance.CloseAccepted | apps/api/src/trading-day/trading-day.service.ts:508-604 | a closing needs an open day all of whose amounts and sums are safe, an active closer and ids of its own |
| Acceptance.RepeatIsAnswered | apps/api/src/trading-day/trading-day.service.ts:508-517 | a repeated request is answered with the row it left behind |
| Refusals.RefusalsHold | apps/api/src/orders/orders.service.ts:464-561 | whatever any request is refused for is so |
| Effects.StepWrites | apps/api/src/orders/orders.service.ts:220-647 | whatever request changes the store writes what was asked for, field by field, and nothing else |
| Effects.CreateWrites | apps/api/src/orders/orders.service.ts:220-300 | a create adds one parked order numbered next on the open day, of one line as asked for at the catalog price, whose amounts make up the header |
| Effects.AddLineWrites | apps/api/src/orders/orders.service.ts:342-377 | an added line changes one parked order, whose lines take the line as asked for |
| Effects.EditLineWrites | apps/api/src/orders/orders.service.ts:379-462 | a line edit changes the named line of one parked order, or discards the order with its last line |
| Tenders.CompletionWrites | apps/api/src/orders/orders.service.ts:464-502 | a completion changes the payment fields of one parked order, as tendered, and nothing else |
| Voids.VoidWrites | apps/api/src/orders/orders.service.ts:509-618 | a void adds one row, on the open day under the next number, that takes back the named order |
| Effects.AmendWrites | apps/api/src/trading-day/trading-day.service.ts:390-506 | an amendment adds one movement as asked for on the open day of its target |
| LedgerSteps.EffectiveAmended | apps/api/src/trading-day/trading-day.service.ts:464-477 | an amendment takes its target out of the effective total of its kind and puts the new amount in |
| TradingDays.QueriesMatchFigures | apps/api/src/trading-day/trading-day.service.ts:665-719 | filtering and adding the queried rows gives the same figures as the folds over the tables |
| TradingDays.CalculateCashMeans | packages/shared/src/money.ts:162-206 | an accepted reconciliation is the figures of the day, what they make expected, and for a closed day the counted cash and its variance |
| Services.PosDatabase.Recalculate | apps/api/src/orders/orders.service.ts:702-729 | the header becomes the sums of the stored line amounts |
| Services.PosDatabase.MergeLine | apps/api/src/orders/orders.service.ts:352-376 | a plain line joins the first plain line of its size, any other line stands alone |
| Services.PosDatabase.Handle | apps/api/src/orders/orders.service.ts:220-647 | whatever the request, the tables stay sound, change as the request says, and the expected cash of every day moves by what the request did at the drawer |
| Drawer.StepMovesDrawer | apps/api/src/trading-day/trading-day.service.ts:693-718 | each request moves the recomputed expected cash by exactly what it did at the drawer |
| Drawer.ExpectedCashIsTheDrawer | apps/api/src/trading-day/trading-day.service.ts:665-719 | for every run and day, recomputed expected cash equals a drawer kept step by step: received minus handed back plus tip, change once, refunds without the tip, signed movements |
| Drawer.DrawerFromScratch | packages/shared/src/money.ts:177-185 | from empty tables the recomputed expected cash is the sum of what went through the drawer |
| FigureFlow.StepMovesFigures | apps/api/src/trading-day/trading-day.service.ts:665-719 | each request moves each figure of a day by what it brought there: portions, tip and withheld change of a completion, change paid out, what a void pays back, movements of each kind |
| FigureFlow.FiguresAreTheFlow | apps/api/src/reporting/reporting.service.ts:756-793 | from empty tables every figure of every day is the sum of what the requests brought there |
| Drawer.ClosedStaysClosed | apps/api/src/trading-day/trading-day.service.ts:575-594 | a closed day never opens again |
| Drawer.ClosedDayMovesOnlyBySettling | apps/api/src/orders/orders.service.ts:620-647 | after a day is closed its expected cash only drops, by the change settled since |
| History.EveryRunIsSound | apps/api/src/trading-day/trading-day.service.ts:183-230 | in every reachable store: one open day at most, unique dates and numbers, one void per order, one closing and one count per closed day |
| History.OrderAddsUp | apps/api/src/orders/orders.service.ts:140-211 | an order has a line, stored amounts and header are the calculations, a completed one is paid its total and withholds no more change than is due |
| History.CompletedOrdersAreFrozen | apps/api/src/orders/orders.service.ts:649-669 | over any run nothing of a completed order changes but the mark that its change was paid, set once |
| History.ClosingsStay | apps/api/src/trading-day/trading-day.service.ts:606-637 | closings are never changed or removed |
| History.ClosingSnapshot | apps/api/src/trading-day/trading-day.service.ts:606-637 | a stored closing equals the folds of its day in everything but change paid out since |
| History.ClosingDiffersBySettledChange | apps/api/src/reporting/reporting.service.ts:756-793 | for the rest of any run, stored minus recomputed expected cash is exactly the change settled since the close, and the daily report has a row exactly while its amounts are safe, whose variance exceeds the stored one by as much |
| Replays.ReplayIsAnswered | apps/api/src/orders/orders.service.ts:509-528 | a completion, settlement, void, opening, closing, movement or amendment that went through changes nothing when repeated, however much later, and is answered with the same rows; only an opening is refused, and a completed order may show its change paid |
| History.CreateReplayIff | apps/api/src/orders/orders.service.ts:221-252 | a create with a fresh row id adds nothing if and only if its order exists, no day is open, or the catalog no longer sells its line |
| Witnesses.DiscardedOrderComesBack | apps/api/src/orders/orders.service.ts:696-699 | a run in which a create, once replayed, adds its order again after the order was discarded |
| Amendments.TargetIsEarlier | apps/api/src/trading-day/trading-day.service.ts:422-468 | an amendment points to an earlier movement of its own day, so chains are finite and acyclic |
| Amendments.OneSuccessor | apps/api/src/trading-day/trading-day.service.ts:455-457 | a movement is amended at most once |
| Amendments.LeafIsEffective | apps/api/src/trading-day/trading-day.service.ts:684-690 | the end of a chain is the row that counts |
| Amendments.LeafOfRoot | apps/api/src/trading-day/trading-day.service.ts:684-690 | every movement leads from its root to the leaf of that root |
| Amendments.OneEffectiveRowPerRoot | apps/api/src/trading-day/trading-day.service.ts:684-690 | each originally recorded movement has exactly one effective row |
| Amendments.EffectiveRowsMatchRoots | apps/api/src/trading-day/trading-day.service.ts:684-690 | a day has as many effective rows as originally recorded movements |
| Reports.RevenueOfProducts | apps/api/src/reporting/reporting.service.ts:806-836 | dropping the product groups that come to nothing loses no revenue |
| Reports.ProductRevenueIsGrossSales | apps/api/src/reporting/reporting.service.ts:324-345 | for any dates, revenue folded from lines by product equals gross folded from payments by day, voids included |
| Reports.ProductListedIff | apps/api/src/reporting/reporting.service.ts:830-831 | a product is listed if and only if its quantity or its revenue is not zero |
| Reports.LineGrowsItsProduct | apps/api/src/reporting/reporting.service.ts:806-836 | a sold line adds its quantity, its total and, for a size served in a cup, its servings to the product of its size and to no other |
| Reports.VoidCancelsOrder | apps/api/src/orders/orders.service.ts:591-606 | an order and its void cancel in quantity and revenue; in cups if and only if every cup line draws one serving |
| Witnesses.VoidCanLeaveACup | apps/api/src/orders/orders.service.ts:591-606 | a run that completes and voids one order of a line with two servings leaves one cup counted |
| Reports.ExpenseReport | apps/api/src/reporting/reporting.service.ts:441-478 | the map-filling loop gives the total and one entry per category with its count and sum |
| Reports.ExpenseTotalsAgree | apps/api/src/reporting/reporting.service.ts:418-478 | the expense total equals the sum of its categories and the sum of the daily cash expenses of the same dates |
| Reports.CategoriesAreTheirOwn | apps/api/src/reporting/reporting.service.ts:441-478 | every category is listed once, with the number and the sum of its own expenses |
| Reports.LatestCountIsLatest | apps/api/src/reporting/reporting.service.ts:740-752 | a day is reported with its latest count, ties broken by id, and with none only when it was never counted |
| Reports.DailyRowMeans | apps/api/src/reporting/reporting.service.ts:756-793 | a day is reported unless an amount of it is unsafe, with its figures, what they make expected and, once closed and counted, the count and what it is over or short |
| Reports.GetClosedDailyGross | apps/api/src/reporting/reporting.service.ts:384-412 | the loop gives the gross per business date over the closed days of the range |
| Interleavings.ActKeepsInv | apps/api/src/orders/orders.service.ts:521-617 | every step of every transaction keeps what the others rely on, and no row lock has two holders |
| Interleavings.NumberIsFree | apps/api/src/orders/orders.service.ts:254-274 | the unique key on day and number never refuses a numbered insert, discards of the highest number included |
| Interleavings.NumbersAndVoidsAreUnique | apps/api/src/orders/orders.service.ts:225-286 | under every interleaving no two sales of a day share a number, no order is voided twice, one day at most is open |
| Progress.NeverDeadlocked | apps/api/src/orders/orders.service.ts:529-556 | in every reachable state all are done or some transaction can step, and no schedule moves more than six times per transaction |
| Progress.EveryScheduleCanFinish | apps/api/src/trading-day/trading-day.service.ts:508-556 | whatever was interleaved so far, every transaction can still be brought to its end |
| Races.ClosedDayIsFrozenIff | apps/api/src/orders/orders.service.ts:477-489 | what the sales of a closed day put into its drawer is fixed under every continuation if and only if no completion that read it as open is still on its way with money |
| Races.ExpectedCashIsFrozenIff | apps/api/src/trading-day/trading-day.service.ts:665-719 | its expected cash is fixed under every continuation if and only if, besides, nobody is settling change it withholds |
| Races.ClosingAgreesForeverIff | apps/api/src/trading-day/trading-day.service.ts:565-585 | a stored closing, queried one table after the other, agrees with its day for good if and only if it does now and neither such a completion nor such a settlement is on its way |
| Races.CloseCanMissACompletion | apps/api/src/orders/orders.service.ts:795-804 | a schedule in which a closing misses a completion |
| Races.CloseCanSplitACompletion | apps/api/src/trading-day/trading-day.service.ts:671-692 | a schedule in which a closing stores the tip of an order without its payment |
| OpeningRace.DatesUniqueIff | apps/api/src/trading-day/trading-day.service.ts:182-229 | business dates stay unique under every interleaving if and only if no two requests open one unused date or too few close a day between them |
| OpeningRace.DatesCanRepeat | apps/api/src/trading-day/trading-day.service.ts:182-229 | two openings of one date and one closing, on empty tables, with a schedule that leaves two days of that date |
| ProtocolTables.ExpectedAgrees | apps/api/src/trading-day/trading-day.service.ts:665-719 | the protocol expects the cash of a day that the ledger expects |
| SerialRequests.RequestRunsAlone | apps/api/src/orders/orders.service.ts:220-647 | alone, the transaction of an accepted request does to the tables what the request does in one step |
| SerialRuns.LedgerRunsAreSerial | apps/api/src/trading-day/trading-day.service.ts:177-641 | every run of the ledger is a run of the protocol in which the transactions take turns, from sound tables to the same tables |
| Serializable.CleanSchedulesAreSerial | apps/api/src/orders/orders.service.ts:220-647 | an interleaving in which every transaction commits while its number is next, its day open, its figures those of the day and its date unused ends in the tables of some run in which the transactions take turns |
| StockRace.StockIsInTimeIff | apps/api/src/inventory/stock-counts.service.ts:67-71 | under every interleaving stock rows are recorded while their day is open if and only if nobody counts or moves stock, nobody closes, or no day is open or can be opened |
| StockRace.StockCanBeLate | apps/api/src/inventory/stock-movements.service.ts:65-110 | one stock row and one closing with a schedule that records the row for the day just closed |
| StockCounts.ValidateLineValues | apps/api/src/inventory/stock-counts.service.ts:287-323 | the loop reports the first line that repeats an item or does not carry exactly one valid value, and nothing when there is none |
| StockCounts.CountTable.Submit | apps/api/src/inventory/stock-counts.service.ts:67-201 | a submission appends one count or changes nothing and says why |
| StockEffects.SubmittedIff | apps/api/src/inventory/stock-counts.service.ts:67-201 | a count is recorded if and only if a day is open, each item comes once, is on the sheet of the phase and has one value of its kind, and what it corrects may be corrected; it then holds what was sent |
| StockEffects.SubmissionRefusalHolds | apps/api/src/inventory/stock-counts.service.ts:67-201 | whatever a count is refused for is so |
| StockChains.SubmissionFits | apps/api/src/inventory/stock-counts.service.ts:141-174 | an accepted correction names a count of its own day and phase that nothing corrects |
| StockChains.RunKeepsCounts | apps/api/src/inventory/stock-counts.service.ts:137-174 | whatever is submitted, corrections stay disjoint chains inside one day and phase |
| StockChains.RunKeepsItems | apps/api/src/inventory/stock-counts.service.ts:292-299 | no recorded count lists an item twice |
| StockChains.LatestStockCountCorrection | apps/api/src/inventory/packaging-reconciliation.service.ts:47-68 | the result is an uncorrected count of the phase that no other uncorrected one is newer than; none only when there is none |
| StockChains.InForceUnlessNone | apps/api/src/inventory/packaging-reconciliation.service.ts:58-67 | after any submissions there is no count in force if and only if the day has none of the phase |
| StockChains.InForceIgnoresOrder | apps/api/src/inventory/packaging-reconciliation.service.ts:62-67 | the count in force does not depend on the order of the rows |
| StockChains.SheetAgreesIff | apps/api/src/inventory/stock-counts.service.ts:247-255 | the newest row is the count in force if and only if it has not been corrected |
| StockChains.SheetAgreesWithLaterCorrections | apps/api/src/inventory/stock-counts.service.ts:247-255 | while every correction is stamped later than its target the two are always the same |
| StockChains.SheetAgreesWithAdvancingClock | apps/api/src/inventory/stock-counts.service.ts:247-255 | a clock that advances from submission to submission stamps them so |
| StockChains.SheetCanShowACorrectedCount | apps/api/src/inventory/stock-counts.service.ts:247-255 | two submissions in one instant after which they differ |
| Packaging.MoveTotals | apps/api/src/inventory/packaging-reconciliation.service.ts:183-193 | the pass over the movements gives each listed item its own deliveries and wastage |
| Packaging.SoldTotals | apps/api/src/inventory/packaging-reconciliation.service.ts:195-208 | the pass over the sold lines gives each listed item quantity times servings over both its roles |
| Packaging.CountQuantities | apps/api/src/inventory/packaging-reconciliation.service.ts:241-254 | the quantities are those of the count in force |
| Packaging.ParticipatingIds | apps/api/src/inventory/packaging-reconciliation.service.ts:136-156 | an item participates if and only if it was counted, moved, or drawn as cup or lid |
| Packaging.GetForTradingDay | apps/api/src/inventory/packaging-reconciliation.service.ts:79-239 | one row per shown item, with the totals of that item alone: expected is opening plus deliveries minus wastage minus sold, from the counts in force |
| Packaging.VarianceIff | apps/api/src/inventory/packaging-reconciliation.service.ts:213-236 | a row has a variance if and only if both counts in force give the item a quantity; it is what deliveries, wastage and sales leave unexplained |
| Packaging.UntouchedRow | apps/api/src/inventory/packaging-reconciliation.service.ts:210-236 | without movements and sales what was counted at the opening is expected |
| Packaging.MoveShiftsItsRow | apps/api/src/inventory/packaging-reconciliation.service.ts:183-193 | a delivery raises and wastage lowers what is expected of its own item, by its quantity |
| Packaging.LineShiftsCupAndLid | apps/api/src/inventory/packaging-reconciliation.service.ts:195-208 | a sold line lowers what is expected of its cup and of its lid by quantity times servings, twice for an item that is both |
| Packaging.RowListedIff | apps/api/src/inventory/packaging-reconciliation.service.ts:158-172 | an item has a row if and only if it is reconciled by quantity and active or took part in the day |
| Packaging.VoidRemovesItsDraw | apps/api/src/inventory/packaging-reconciliation.service.ts:112-133 | voiding an order takes exactly its own draw out of the day it was sold on, and nothing anywhere else |
| PackagingAge.StepDraws | apps/api/src/inventory/packaging-reconciliation.service.ts:112-133 | on a closed day every request takes from the draw of an item exactly that of the order it voids |
| PackagingAge.RowsDifferByVoidedDraw | apps/api/src/trading-day/trading-day.service.ts:577-634 | for the rest of any run the reconciliation of a closed day differs from the rows its closing took by the draw of its orders voided since: expected higher and variance lower by that draw, counts, deliveries and wastage as they were |
| PackagingAge.MoveRecordedIff | apps/api/src/inventory/stock-movements.service.ts:65-118 | a movement of nothing or more of an active item is recorded for the open day, any other refused |
| Rates.FindRateInForce | apps/api/src/journal/journal.service.ts:497-505 | the query answers the rate of the ledger with the latest effective date not after the asked one |
| Rates.RateInForceFor | apps/api/src/journal/journal.service.ts:508-523 | the scan answers that same rate in whatever order the rows come |
| Rates.ScanAgreesWithQuery | apps/api/src/journal/journal.service.ts:497-523 | for every date the scan and the query agree |
| Rates.UpsertLeavesThePast | apps/api/src/journal/journal.service.ts:267-281 | a change of a rate leaves every date before its day, and every other ledger, as it was |
| Rates.PastIsSettled | apps/api/src/journal/journal.service.ts:260-284 | with a date that never goes back, no changes of rates alter the rate or the suggestion for a date before the first of them |
| Rates.ChangeTakesEffect | apps/api/src/journal/journal.service.ts:271-281 | from the day of a change the new rate is in force |
| Rates.TermsAcceptedIff | apps/api/src/journal/journal.service.ts:558-621 | the terms of a rate are stored as sent if and only if they are the fields of the kind of the ledger and no other; otherwise the reason given holds |
| Rates.RentSuggestionIsTheShare | apps/api/src/journal/journal.service.ts:536-543 | for rent the amount suggested is the agreed share of the rounded gross to the cent, and the request fails exactly when that share is no safe integer |
| JournalLaws.ClosedDates | apps/api/src/reporting/reporting.service.ts:384-412 | the gross report lists a date if and only if it is in range and its day is closed |
| JournalLaws.GrossOfTheDay | apps/api/src/reporting/reporting.service.ts:394-404 | with unique dates an entry is the gross of its one closed day |
| JournalLaws.EligibleIff | apps/api/src/journal/journal.service.ts:444-478 | dates pass if and only if none lies before the start of the ledger and each is a closed day |
| JournalEffects.FirstIneligible | apps/api/src/journal/journal.service.ts:444-478 | the first date before the start is named, and only when there is none the first that is not closed |
| JournalLaws.CreateDepositKeeps | apps/api/src/journal/journal.service.ts:169-197 | a new deposit, taken as one step, keeps the journal invariant |
| JournalLaws.UpdateDepositKeeps | apps/api/src/journal/journal.service.ts:199-237 | a moved or changed deposit, taken as one step, keeps the journal invariant |
| JournalLaws.UpdateLedgerKeeps | apps/api/src/journal/journal.service.ts:108-149 | a new start date, taken as one step, never leaves a recorded deposit before it |
| JournalEffects.LedgerAcceptedIff | apps/api/src/journal/journal.service.ts:75-106 | a ledger is created, with nothing suggested, if and only if its name is new without regard to case |
| JournalEffects.StartAcceptedIff | apps/api/src/journal/journal.service.ts:108-149 | start and balance of one ledger change if and only if no deposit of it lies before the new start; a refusal names the earliest |
| JournalEffects.DepositAcceptedIff | apps/api/src/journal/journal.service.ts:169-197 | a deposit is recorded as sent if and only if its date is closed, not before the start and without a deposit |
| JournalEffects.DepositRefusalHolds | apps/api/src/journal/journal.service.ts:169-197 | whatever a deposit is refused for is so |
| JournalEffects.ChangeAcceptedIff | apps/api/src/journal/journal.service.ts:199-237 | date and amount of one deposit change if and only if the new date may hold it and no other deposit of its ledger has it |
| JournalEffects.ChangeRefusalHolds | apps/api/src/journal/journal.service.ts:199-237 | whatever a changed deposit is refused for is so |
| JournalEffects.RemovalAcceptedIff | apps/api/src/journal/journal.service.ts:239-248 | removing takes out the one deposit named and is refused when there is none |
| JournalEffects.WithdrawalAcceptedIff | apps/api/src/journal/journal.service.ts:370-389 | a withdrawal of at least a cent from a known ledger is recorded as sent |
| JournalEffects.RateAcceptedIff | apps/api/src/journal/journal.service.ts:260-284 | a rate is set for its own day if and only if the terms fit the kind of the ledger; every other rate stays |
| JournalEffects.BulkAcceptedIff | apps/api/src/journal/journal.service.ts:328-368 | a bulk of one to a thousand deposits is recorded, all of it by date, if and only if each date may hold a deposit, has none and comes once |
| JournalEffects.BulkRefusalHolds | apps/api/src/journal/journal.service.ts:328-368 | whatever a bulk is refused for is so |
| MissingDayLaws.AcceptedIff | apps/api/src/journal/journal.service.ts:328-368 | a bulk is accepted if and only if its dates are distinct closed days from the start on and no row meets a recorded one |
| MissingDayLaws.RunKeepsWorld | apps/api/src/journal/journal.service.ts:437-478 | over every run of shop and journal requests taken one at a time, each deposit lies on a closed date on or after the start of its ledger, one per date, and ledger names differ |
| DepositRace.DepositsFollowStart | apps/api/src/journal/journal.service.ts:108-368 | with check and write apart, and whatever is removed or moved meanwhile, deposits follow the start under every interleaving unless a closed and allowed date lies before a new start that everything recorded makes way for |
| DepositRace.DepositsFollowStartIff | apps/api/src/journal/journal.service.ts:108-368 | while no deposit is moved out of the way of another request, deposits follow the start under every interleaving if and only if no request wants a closed and allowed date before a start another request sets, with nothing recorded in the way of either but what is being removed |
| DepositRace.DepositCanPrecedeStart | apps/api/src/journal/journal.service.ts:114-138 | a schedule that records a deposit of day 5 after the start has moved to day 10 |
| NameRace.NamesStayApartIff | apps/api/src/journal/journal.service.ts:75-106 | ledger names stay different without regard to case under every interleaving if and only if no two requests want one unknown name in different letters |
| NameRace.NamesCanCollide | apps/api/src/journal/journal.service.ts:75-106 | requests for "Rent" and "rent" with a schedule in which both go through |
| DepositChecks.DepositAgrees | apps/api/src/journal/journal.service.ts:169-197 | a single deposit passes the check and the unique date of the race if and only if the journal records it |
| DepositChecks.StartAgrees | apps/api/src/journal/journal.service.ts:114-131 | a new start passes the check of the race if and only if the journal accepts it |
| MissingDayLaws.MissingIff | apps/api/src/journal/journal.service.ts:286-326 | a closed date between start and today is missing if and only if it has no deposit; no other date is listed |
| MissingDayLaws.MissingIncrease | apps/api/src/journal/journal.service.ts:314-316 | missing days are strictly increasing |
| MissingDayLaws.MissingDayFigures | apps/api/src/journal/journal.service.ts:317-325 | each missing day carries the gross of its closed day and the suggestion of the rate in force on its date |
| MissingDayLaws.BulkClearsTheList | apps/api/src/journal/journal.service.ts:328-368 | depositing once for every missing day, at most a thousand, succeeds, empties the list and raises the balance by exactly the sum |
| JournalBalance.RequestMovesBalance | apps/api/src/journal/journal.service.ts:623-633 | each accepted request moves the balance of its ledger by exactly its own amount, of no other ledger, and a refused one moves none |
| JournalBalance.BalanceIsWhatWasMoved | apps/api/src/journal/journal.service.ts:623-633 | over every run the balance computed from the rows is the starting one plus what was moved |
| JournalTables.FindRepeat | apps/api/src/journal/journal.service.ts:480-495 | the loop finds the first date listed twice |
| JournalTables.FindIneligible | apps/api/src/journal/journal.service.ts:444-478 | the loops find the first date before the start, then the first that is not closed |
| JournalTables.JournalBook.InsertRows | apps/api/src/journal/journal.service.ts:343-359 | all rows are created or, when one is refused, none |
| JournalTables.JournalBook.AddDeposits | apps/api/src/journal/journal.service.ts:328-368 | the sorted rows of a bulk are recorded all together, or nothing is and the first reason is given |
| JournalTables.JournalBook.GetMissingDays | apps/api/src/journal/journal.service.ts:286-326 | the list computed with the scan is the specified list |
| Payslip.GroupAdjustments | apps/api/src/compensation/compensation.service.ts:535-572 | the loop with its map gives one group per kind and normalized description, in order of first occurrence |
| Payslip.GroupsAreTheKeys | apps/api/src/compensation/compensation.service.ts:541-568 | keys are distinct; a group lists ids and dates of its own key in the order given, counts them, and is described as the first of them |
| Payslip.GroupsPartition | apps/api/src/compensation/compensation.service.ts:541-568 | every adjustment id is listed in the groups exactly as often as it was given |
| Payslip.GroupTotalsAgree | apps/api/src/compensation/compensation.service.ts:524-533 | for each kind the group totals add up to the sum of its adjustments |
| Payslip.TotalsAreWhatIsListed | apps/api/src/compensation/compensation.service.ts:156-240 | each of the nine totals is that of the entries and groups listed: salary, commission and personal of the entries, allowances, bonuses and advances of their own groups, earnings and net pay from these |
| Payslip.NetPayableSplits | apps/api/src/compensation/compensation.service.ts:170-240 | splitting a date range in two splits earnings, advances and net pay exactly |
| Payslip.PrunedRatesAgree | apps/api/src/compensation/compensation.service.ts:177-189 | for every date of the range the pruned rates answer as the full history does, also without a baseline |
| Payslip.PrunedRatesAreNeeded | apps/api/src/compensation/compensation.service.ts:181-185 | of the rates before the range only the one in force at its start is kept, and none from after it |
| CsvRoundTrip.MoneyRoundTrip | apps/api/src/reporting/reporting.service.ts:1292-1298 | a printed amount reads back as the same cents, whatever its sign and size |
| CsvRoundTrip.TextEncodes | apps/api/src/reporting/reporting.service.ts:1306-1312 | wherever the printed cell stands, a standard reader takes it for the text, apostrophe-prefixed when it would start a formula |
| CsvRoundTrip.ReasonIsKept | apps/api/src/reporting/reporting.service.ts:1306-1312 | the field gives the reason back up to that apostrophe and never starts a formula |
| CsvRoundTrip.FormulasAreDefused | apps/api/src/reporting/reporting.service.ts:1306-1312 | what is shown never begins with one of the six characters of a formula, and the apostrophe is put in front exactly where it would |
| CsvRoundTrip.SameCellIff | apps/api/src/reporting/reporting.service.ts:1306-1312 | two reasons print alike if and only if they are equal, both empty or absent, or one is the other with the apostrophe the printer would add and quoted anyway |
| CsvRoundTrip.ReasonsCanCollide | apps/api/src/reporting/reporting.service.ts:1306-1312 | two different reasons that print alike |
| CsvRoundTrip.CsvRoundTrip | apps/api/src/reporting/reporting.service.ts:589-626 | a standard reader gets the header and one record per day, the last day first |
| CsvRoundTrip.FileSaysTheDays | apps/api/src/reporting/reporting.service.ts:589-626 | a reader finds under each heading of the file the figure of the day that heading names, to the cent, empty exactly when absent, beside the date, whether the day is open or closed, and the reason |
| Throttle.AttemptThrottle.EvictExpiredBuckets | apps/api/src/auth/auth-attempt-throttle.service.ts:102-109 | exactly the expired buckets go, the order of the others stays |
| Throttle.AttemptThrottle.MakeRoomForBucket | apps/api/src/auth/auth-attempt-throttle.service.ts:111-117 | the oldest buckets go until one more fits |
| Throttle.OldestMakeRoom | apps/api/src/auth/auth-attempt-throttle.service.ts:111-117 | the oldest buckets are let go, and no more than needed |
| Throttle.AttemptThrottle.RetryAfterSeconds | apps/api/src/auth/auth-attempt-throttle.service.ts:62-75 | the seconds left of a block, rounded up, and the buckets stay sound |
| Throttle.WaitIsRoundedUp | apps/api/src/auth/auth-attempt-throttle.service.ts:62-75 | the wait is the time left in whole seconds rounded up, and there is none once the block is over |
| Throttle.MustWaitIff | apps/api/src/auth/auth-attempt-throttle.service.ts:62-75 | a key has to wait if and only if its bucket is live and blocked beyond now |
| Throttle.AttemptThrottle.RecordFailure | apps/api/src/auth/auth-attempt-throttle.service.ts:77-96 | new buckets after a failure, and the buckets stay sound |
| Throttle.AttemptThrottle.Reset | apps/api/src/auth/auth-attempt-throttle.service.ts:98-100 | the bucket of the key goes and no other |
| Throttle.RecordedSound | apps/api/src/auth/auth-attempt-throttle.service.ts:77-96 | never more buckets than the cap, one per key; blocked exactly at the limit of failures, expiring when the block ends |
| ThrottleRefinement.ThrottleRefinesCounters | apps/api/src/auth/auth-attempt-throttle.service.ts:62-117 | while the live keys fit the cap and the clock does not go back, every answer is that of an uncapped counter per key |
| Evictions.EvictionShowsIff | apps/api/src/auth/auth-attempt-throttle.service.ts:77-117 | while the buckets stand for the counters, a failure goes unnoticed, whoever is then asked about after however many more failures, if and only if the keys still counting and the failing one fit the cap |
| Evictions.EvictionCanShow | apps/api/src/auth/auth-attempt-throttle.service.ts:77-117 | a cap of one bucket and two failing keys: the first is answered as if it had never failed |
| ThrottleRefinement.FailuresInARow | apps/api/src/auth/auth-attempt-throttle.service.ts:82-95 | a key is blocked by its last allowed failure in a row, for exactly the cooldown, and by none before it |

## Left out

- Controllers, guards, tokens, the web client, deployment and seeds: no ledger logic.
- Catalog, staff, employment, scheduling and restock services: a catalog look-up and the active flag of a staff member are inputs.
- Order history, dashboard and closing-summary queries: further projections of the same rows.
- Names, notes and cashier snapshots beyond the fields kept; the tax column, always zero; the location column, always null.
- The closing's variance reason is an input where it is read, in the report file (Csv); the ids of void lines, which nothing later reads.
- PackagingAge.RowsDifferByVoidedDraw: requests one at a time, StockRace says what several at once can do; the cup and lid of a product stay those of the closing, and the catalogs, which say what is listed, are inputs; the rows of an item listed both times are compared.
- StockRace.Act: stock rows are known by their date, and a submission or movement passes its other checks.
- Serializable.CleanSchedulesAreSerial: one way, as an overtaken commit can still end in the tables of some serial run; a discard of the highest number between the reading of that number and the insert counts as overtaking.
- 32-bit column limits, apart from the limit on journal amounts that request validation states.
- Binary floating point: a line gross is checked to be a safe integer, but the product with the discount percentage is exact here; intermediate sums of safe amounts are exact too.
- Sorting is modelled by its result (stable, ascending by key); calendar dates are integers, and strings are sequences of characters with the order of ids given by number.
- The order of rows in report lists and the limit on listed products.
- Locking.Act: replays by client id, the staff rule for voids and edits that move no money are left to the one-step model; a movement is known by what it nets; the query of a closing for its movements, which the lock of the day keeps still, is one step with its commit; waits on unique keys and foreign keys are not locks here.
- DepositRace.Act: one ledger at a time, as no request is about two; dates that close meanwhile count as closed from the start; amounts and notes.
- DepositRace.DepositsFollowStartIff: moves that make way for another request are left to the one-way DepositsFollowStart, since whether several moves can all make way is a matching of rows to free dates.
- Refusals.RefusalsHold: the reason given holds, but which of several that hold comes first is said by the model alone.
- Throttle.AttemptThrottle.RecordFailure: one clock reading per call, where the code reads the clock up to three times.
- History.CreateReplayIff: the row id, which the database generates, and the answer of the catalog are inputs here.
- MissingDayLaws.RunKeepsWorld: requests one at a time; DepositRace and NameRace say what several at once can do.
- Rates.SuggestFor: an unsafe rent marks one day of the list, where the code fails the whole list.
- Ledger names are compared without regard to the case of the letters A to Z only.
- Updating and removing withdrawals: they move the balance by their own amount only.
- Payslip.GroupAdjustments: the object shared by the map and the list is modelled by its position in the list; trimming and lower-casing are an arbitrary function of the description.
- MissingDayLaws.BulkClearsTheList: at most a thousand days at once, the limit of a bulk request.
