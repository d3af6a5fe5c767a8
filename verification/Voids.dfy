/** A void takes back its order: header, lines and payments, amount by amount. */
module Voids {
  import opened Tables
  import opened Money
  import opened Store
  import opened Orders
  import opened Lines
  import opened Ledger
  import opened LedgerSteps
  import opened Reports

  /** The same product on the same terms, with quantity, upsizes and every amount the other way round;
      the servings fall back to one. */
  predicate LineCancels(v: Line, o: Line)
  {
    && v.variant == o.variant && v.preferences == o.preferences && v.note == o.note && v.servings == 1
    && v.terms.unitPrice == o.terms.unitPrice && v.terms.discount == o.terms.discount
    && v.terms.upsizeEligible == o.terms.upsizeEligible
    && v.terms.quantity + o.terms.quantity == 0 && v.terms.upsizes + o.terms.upsizes == 0
    && v.amounts.gross + o.amounts.gross == 0 && v.amounts.discount + o.amounts.discount == 0
    && v.amounts.freeUpsize + o.amounts.freeUpsize == 0 && v.amounts.total + o.amounts.total == 0
  }

  predicate PaymentCancels(v: Payment, o: Payment)
  {
    v.tender == o.tender && v.amount + o.amount == 0
  }

  predicate HeaderCancels(v: Totals, o: Totals)
  {
    && v.subtotal + o.subtotal == 0 && v.discount + o.discount == 0
    && v.freeUpsize + o.freeUpsize == 0 && v.total + o.total == 0
  }

  predicate RowsCancel(v: Sale, o: Sale)
  {
    && |v.lines| == |o.lines| && (forall k | 0 <= k < |v.lines| :: LineCancels(v.lines[k], o.lines[k]))
    && |v.payments| == |o.payments|
    && (forall k | 0 <= k < |v.payments| :: PaymentCancels(v.payments[k], o.payments[k]))
  }

  /** A completed row of its own that corrects the order, for the same customer, without tip, cash
      received or change. */
  predicate Corrects(v: Sale, o: Sale)
  {
    && v.kind == Void && v.status == Completed && v.corrects == Some(o.id)
    && v.customer == o.customer && v.service == o.service
    && v.tip == 0 && v.owed == 0 && v.received.None? && v.settledAt.None? && v.completedAt.None?
  }

  predicate Cancels(v: Sale, o: Sale)
  {
    Corrects(v, o) && HeaderCancels(v.totals, o.totals) && RowsCancel(v, o)
  }

  lemma MirrorCancels(v: Sale, o: Sale)
    requires Mirrors(v, o)
    ensures Cancels(v, o)
  {
  }

  lemma FoldsCancel(v: seq<Line>, o: seq<Line>)
    requires v == Map(NegatedLine(), o)
    ensures HeaderCancels(TotalsOf(v), TotalsOf(o)) && Sum(LineTotalOf(), v) == -Sum(LineTotalOf(), o)
  {
    NegatedLinesTotal(GrossOf(), GrossOf(), o);
    NegatedLinesTotal(DiscountOf(), DiscountOf(), o);
    NegatedLinesTotal(FreeUpsizeOf(), FreeUpsizeOf(), o);
    NegatedLinesTotal(LineTotalOf(), LineTotalOf(), o);
  }

  lemma OrderFolds(o: Sale)
    requires PurchaseOk(o)
    ensures o.totals == TotalsOf(o.lines) && o.totals.total == Sum(LineTotalOf(), o.lines)
  {
    TotalsAddUp(o.lines);
  }

  lemma MirroredLines(v: Sale, o: Sale)
    requires Mirrors(v, o)
    ensures v.lines == Map(NegatedLine(), o.lines)
  {
  }

  lemma SameHeader(v: Totals, w: Totals, o: Totals)
    requires HeaderCancels(v, o) && HeaderCancels(w, o)
    ensures v == w && v.total == -o.total
  {
  }

  /** The header of a void is the sum of its own lines, and its total what it pays back. */
  lemma VoidFolds(v: Sale, o: Sale)
    requires Mirrors(v, o) && PurchaseOk(o)
    ensures v.totals == TotalsOf(v.lines)
    ensures v.totals.total == Sum(LineTotalOf(), v.lines) == Sum(AmountOf(), v.payments)
  {
    MirrorCancels(v, o);
    MirroredLines(v, o);
    FoldsCancel(v.lines, o.lines);
    OrderFolds(o);
    SameHeader(v.totals, TotalsOf(v.lines), o.totals);
    PaidBack(v, o);
  }

  lemma PaidBack(v: Sale, o: Sale)
    requires Mirrors(v, o) && PurchaseOk(o)
    ensures Sum(AmountOf(), v.payments) == Sum(LineTotalOf(), v.lines)
  {
    VoidPaidItsLines(v, o);
    PortionsAddUp(v.payments);
  }

  /** In every sound store a void takes back one completed order, and its header is the sum of its own
      lines and of its payments. */
  lemma EveryVoidCancels(st: State, v: Sale)
    requires Inv(st) && v in st.sales && v.kind == Void
    ensures exists o | o in st.sales :: o.kind == Purchase && o.status == Completed && Cancels(v, o)
    ensures v.totals == TotalsOf(v.lines)
    ensures v.totals.total == Sum(LineTotalOf(), v.lines) == Sum(AmountOf(), v.payments)
  {
    var o :| o in st.sales && Mirrors(v, o);
    MirrorCancels(v, o);
    VoidFolds(v, o);
  }

  /** A void that changes the store adds one row, on the open day under the next number, that takes back
      the named order. */
  lemma VoidWrites(st: State, originalClientId: Id, clientId: Id, saleId: Id, isAdmin: bool)
    ensures var (after, reply) := VoidOrder(st, originalClientId, clientId, saleId, isAdmin);
      after != st ==>
        && Added(st, after, reply) && reply.sale.id == saleId && reply.sale.clientId == clientId
        && exists o | o in st.sales && o.clientId == originalClientId ::
             && o.kind == Purchase && o.status == Completed && Cancels(reply.sale, o)
             && (isAdmin || o.day == reply.sale.day)
  {
    var (after, reply) := VoidOrder(st, originalClientId, clientId, saleId, isAdmin);
    VoidAdds(st, originalClientId, clientId, saleId, isAdmin);
    if after != st {
      var o := st.sales[Find(WithClientId(originalClientId), st.sales)];
      assert o in st.sales;
      MirrorCancels(reply.sale, o);
    }
  }
}
