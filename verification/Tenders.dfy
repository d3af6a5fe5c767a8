/** Which tenders an order is completed with, and what a completed order says about its cash. */
module Tenders {
  import opened Tables
  import opened Money
  import opened Store
  import opened Orders
  import opened Ledger
  import opened LedgerSteps
  import opened Drawer

  predicate OneOfEach(payments: seq<Payment>)
  {
    forall i, j | 0 <= i < j < |payments| :: payments[i].tender != payments[j].tender
  }

  lemma PortionOfTwo(tender: PaymentMethod, first: Payment, rest: seq<Payment>)
    ensures Portion(tender, [first] + rest)
      == (if first.tender == tender then first.amount else 0) + Portion(tender, rest)
  {
    FilterConcat(IsTender(tender), [first], rest);
    SumConcat(AmountOf(), Filter(IsTender(tender), [first]), Filter(IsTender(tender), rest));
    if first.tender == tender {
      FilterAll(IsTender(tender), [first]);
      SumOne(AmountOf(), first);
    } else {
      FilterNone(IsTender(tender), [first]);
    }
  }

  /** With one payment per method, the portion of a method is its payment, or nothing. */
  lemma {:induction false} PortionIsThePayment(tender: PaymentMethod, payments: seq<Payment>)
    requires OneOfEach(payments)
    ensures forall p | p in payments && p.tender == tender :: Portion(tender, payments) == p.amount
    ensures (forall p | p in payments :: p.tender != tender) ==> Portion(tender, payments) == 0
  {
    if payments != [] {
      var first, rest := payments[0], payments[1..];
      assert payments == [first] + rest;
      PortionIsThePayment(tender, rest);
      PortionOfTwo(tender, first, rest);
      forall p | p in rest
        ensures p.tender != first.tender
      {
        var j :| 1 <= j < |payments| && payments[j] == p;
      }
    }
  }

  /** What was handed over in cash covers the cash payment and the change withheld; without a cash
      payment there is neither. */
  predicate CashCovers(t: Tender)
  {
    var cash := Portion(Cash, t.payments);
    && (cash == 0 ==> t.received.None? && t.owed == 0)
    && (cash != 0 && t.received.Some? ==> cash <= t.received.value && cash + t.owed <= t.received.value)
    && (cash != 0 && t.received.None? ==> t.owed <= 0)
  }

  /** Nothing sent about cash is negative. */
  predicate NoneNegative(t: Tender)
  {
    0 <= t.tip && 0 <= t.owed && (t.received.Some? ==> 0 <= t.received.value)
  }

  /** One payment at most of each method, none negative, that add up to the total. */
  predicate Pays(t: Tender, total: int)
  {
    && t.payments != [] && OneOfEach(t.payments) && (forall p | p in t.payments :: 0 <= p.amount <= MAX_SAFE)
    && Sum(AmountOf(), t.payments) == total
    && 0 <= t.tip <= MAX_SAFE
  }

  lemma EachMethodOnce(payments: seq<Payment>)
    ensures Distinct(Map(TenderOf(), payments)) <==> OneOfEach(payments)
  {
    var methods := Map(TenderOf(), payments);
    assert forall i | 0 <= i < |payments| :: methods[i] == payments[i].tender;
  }

  /** What the row keeps of the cash: nothing without a cash payment, else what the client named, or
      the exact payment when it named nothing. */
  predicate Received(t: Tender, received: Option<int>)
  {
    var cash := Portion(Cash, t.payments);
    && (cash == 0 ==> received == None)
    && (cash != 0 ==> received == Some(if t.received.Some? then t.received.value else cash))
  }

  lemma TenderAcceptedIff(total: int, t: Tender)
    ensures ValidateTender(total, t).Ok? <==> Pays(t, total) && CashCovers(t)
    ensures ValidateTender(total, t).Ok? ==> Received(t, ValidateTender(total, t).value)
  {
    EachMethodOnce(t.payments);
  }

  /** What a completion leaves of the order it completes. */
  predicate CompletedWith(was: Sale, now: Sale, t: Tender, at: int)
  {
    && now == was.(status := now.status, tip := now.tip, owed := now.owed, completedAt := now.completedAt,
                   received := now.received, payments := now.payments)
    && now.status == Completed && now.completedAt == Some(at) && now.tip == t.tip && now.owed == t.owed
    && now.payments == t.payments && Received(t, now.received)
  }

  lemma ReceivedIsStored(st: State, clientId: Id, t: Tender, at: int)
    ensures var (after, reply) := Complete(st, clientId, t, at);
      after != st ==> reply.OrderReply? && Received(t, reply.sale.received)
  {
    var i := Find(WithClientId(clientId), st.sales);
    if Complete(st, clientId, t, at).0 != st {
      TenderAcceptedIff(st.sales[i].totals.total, t);
    }
  }

  /** A completion that changes the store takes an accepted tender and writes just what it says. */
  lemma CompletionWrites(st: State, clientId: Id, t: Tender, at: int)
    ensures var (after, reply) := Complete(st, clientId, t, at);
      var i := Find(WithClientId(clientId), st.sales);
      after != st ==>
        && i < |st.sales| && reply.OrderReply? && after == st.(sales := st.sales[i := reply.sale])
        && Pays(t, st.sales[i].totals.total) && CashCovers(t)
        && CompletedWith(st.sales[i], reply.sale, t, at)
  {
    CompleteEdits(st, clientId, t, at);
    ReceivedIsStored(st, clientId, t, at);
    var i := Find(WithClientId(clientId), st.sales);
    if i < |st.sales| {
      TenderAcceptedIff(st.sales[i].totals.total, t);
    }
  }

  /** The cash a completed order says was received is the cash handed over at the drawer: less its cash
      payment and the change withheld, it is the change handed back. */
  lemma StoredCashIsTheChange(st: State, clientId: Id, t: Tender, at: int)
    ensures var (after, reply) := Complete(st, clientId, t, at);
      after != st ==>
        && reply.OrderReply?
        && var e := CompleteEvent(st, clientId, t, reply);
           var stored := if reply.sale.received.Some? then reply.sale.received.value else 0;
           && e.Taken? && e.received == stored && 0 <= e.handedBack
           && e.handedBack == stored - Portion(Cash, reply.sale.payments) - reply.sale.owed
  {
    CompletionWrites(st, clientId, t, at);
    CompleteEdits(st, clientId, t, at);
  }
}
