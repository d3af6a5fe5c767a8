/** The suggestion rates of the journal: a history by effective date that is only ever changed from
    today onward. */
module Rates {
  import opened Sorting
  import opened Tables
  import Money
  import Store

  type Id = Store.Id

  datatype SuggestionKind = NoSuggestion | RentPercent | Chair

  /** The columns of a rate; those of the other kind are null. */
  datatype Terms = Terms(basisPoints: Option<int>, amount: Option<int>, threshold: Option<int>)

  datatype Rate = Rate(ledger: Id, from: int, terms: Terms)

  datatype RateError = HasNoRate | FieldRequired | FieldNotApplicable

  /** A request names the fields of its kind and no other; the first misfit decides the refusal. */
  function TermsFor(kind: SuggestionKind, input: Terms): Result<Terms, RateError>
  {
    match kind
    case NoSuggestion => Err(HasNoRate)
    case RentPercent =>
      if input.basisPoints.None? then Err(FieldRequired)
      else if input.amount.Some? || input.threshold.Some? then Err(FieldNotApplicable)
      else Ok(input)
    case Chair =>
      if input.basisPoints.Some? then Err(FieldNotApplicable)
      else if input.amount.None? || input.threshold.None? then Err(FieldRequired)
      else Ok(input)
  }

  /** No suggestion, an amount, which may be zero, or an amount too large to be money, which fails
      the request. */
  datatype Suggestion = Nothing | Amount(cents: int) | Unsafe

  function SuggestFor(kind: SuggestionKind, gross: int, rate: Option<Rate>): Suggestion
  {
    if kind.NoSuggestion? || rate.None? then Nothing
    else
      var t := rate.value.terms;
      if kind.RentPercent? then
        if t.basisPoints.None? then Nothing else RentSuggestion(gross, t.basisPoints.value)
      else if t.amount.None? || t.threshold.None? then Nothing
      else Amount(Money.SuggestChairDeposit(gross, t.amount.value, t.threshold.value))
  }

  function RentSuggestion(gross: int, basisPoints: int): Suggestion
  {
    match Money.SuggestRentDeposit(gross, basisPoints)
    case Some(cents) => Amount(cents)
    case None => Unsafe
  }

  /** A rate accepted for a ledger always suggests an amount of the ledger's own kind, or an unsafe one
      for rent; below the threshold of a chair that amount is zero, not absent. */
  lemma AcceptedTermsSuggest(kind: SuggestionKind, input: Terms, r: Rate, gross: int)
    requires TermsFor(kind, input) == Ok(r.terms)
    ensures kind.RentPercent? ==>
      input.basisPoints.Some?
      && SuggestFor(kind, gross, Some(r)) == RentSuggestion(gross, input.basisPoints.value)
      && SuggestFor(kind, gross, Some(r)) != Nothing
    ensures kind.Chair? ==>
      input.amount.Some? && input.threshold.Some?
      && SuggestFor(kind, gross, Some(r)) == Amount(if gross < input.threshold.value then 0 else input.amount.value)
    ensures !kind.NoSuggestion? && SuggestFor(NoSuggestion, gross, Some(r)).Nothing?
  {
  }

  /** The fields of the kind and no other: a share for rent, an amount and a threshold for a chair. */
  predicate OfKind(kind: SuggestionKind, input: Terms)
  {
    match kind
    case NoSuggestion => false
    case RentPercent => input.basisPoints.Some? && input.amount.None? && input.threshold.None?
    case Chair => input.basisPoints.None? && input.amount.Some? && input.threshold.Some?
  }

  /** Terms are stored as sent if and only if they are of the kind of the ledger; otherwise the reason
      given holds. */
  lemma TermsAcceptedIff(kind: SuggestionKind, input: Terms)
    ensures TermsFor(kind, input) == Ok(input) <==> OfKind(kind, input)
    ensures TermsFor(kind, input).Ok? ==> TermsFor(kind, input) == Ok(input)
    ensures TermsFor(kind, input).Err? ==>
      match TermsFor(kind, input).error
      case HasNoRate => kind.NoSuggestion?
      case FieldRequired =>
        if kind.Chair? then input.amount.None? || input.threshold.None? else input.basisPoints.None?
      case FieldNotApplicable =>
        if kind.Chair? then input.basisPoints.Some? else input.amount.Some? || input.threshold.Some?
  {
  }

  /** The gross to the thousand, where 800 counts as the next. */
  predicate RoundedGross(gross: int, base: int)
  {
    base % 100_000 == 0 && gross - 80_000 < base <= gross + 20_000
  }

  lemma OneRoundedGross(gross: int, a: int, b: int)
    requires RoundedGross(gross, a) && RoundedGross(gross, b)
    ensures a == b
  {
  }

  /** For rent the amount suggested is the agreed share of the rounded gross to the cent, zero without
      sales, and the request fails exactly when that share is no safe integer. */
  lemma RentSuggestionIsTheShare(gross: int, r: Rate, base: int, share: int)
    requires r.terms.basisPoints.Some? && RoundedGross(gross, base)
    requires 10_000 * share == base * r.terms.basisPoints.value
    ensures SuggestFor(RentPercent, gross, Some(r))
      == if gross <= 0 then Amount(0) else if Money.Safe(share) then Amount(share) else Unsafe
  {
    if gross > 0 {
      Money.RentDepositIsExact(gross, r.terms.basisPoints.value);
      OneRoundedGross(gross, base, Money.RentBase(gross));
      ShareIs(gross, r.terms.basisPoints.value, share);
    }
  }

  lemma ShareIs(gross: int, basisPoints: int, share: int)
    requires gross > 0 && 10_000 * share == Money.RentBase(gross) * basisPoints
    ensures Money.SuggestRentDeposit(gross, basisPoints) == if Money.Safe(share) then Some(share) else None
  {
    var thousands := Money.RentBaseNear(gross);
    Money.TenthsOfThousands(thousands);
    Money.ShareOfThousands(thousands, basisPoints);
  }

  // ----- the rate in force on a date

  predicate Applies(ledger: Id, date: int, r: Rate)
  {
    r.ledger == ledger && r.from <= date
  }

  /** The rate of the ledger with the latest effective date not after `date`. */
  predicate InForce(rates: seq<Rate>, ledger: Id, date: int, found: Option<Rate>)
  {
    match found
    case None => forall r | r in rates :: !Applies(ledger, date, r)
    case Some(f) =>
      f in rates && Applies(ledger, date, f) && forall r | r in rates && Applies(ledger, date, r) :: r.from <= f.from
  }

  predicate RatesSound(rates: seq<Rate>)
  {
    forall i, j | 0 <= i < j < |rates| :: !(rates[i].ledger == rates[j].ledger && rates[i].from == rates[j].from)
  }

  lemma OneInForce(rates: seq<Rate>, ledger: Id, date: int, a: Option<Rate>, b: Option<Rate>)
    requires RatesSound(rates) && InForce(rates, ledger, date, a) && InForce(rates, ledger, date, b)
    ensures a == b
  {
    if a.Some? && b.Some? {
      var i :| 0 <= i < |rates| && rates[i] == a.value;
      var j :| 0 <= j < |rates| && rates[j] == b.value;
      assert a.value.from == b.value.from;
    }
  }

  function OfLedger(ledger: Id): Rate -> bool { (r: Rate) => r.ledger == ledger }

  function NotAfter(ledger: Id, date: int): Rate -> bool { (r: Rate) => Applies(ledger, date, r) }

  function NewestFirst(): Rate -> int { (r: Rate) => 0 - r.from }

  /** The query for one date: the rows not after it, newest first, the first of them. */
  function FindRateInForce(rates: seq<Rate>, ledger: Id, date: int): (found: Option<Rate>)
    ensures InForce(rates, ledger, date, found)
  {
    var sorted := SortBy(NewestFirst(), Filter(NotAfter(ledger, date), rates));
    if sorted == [] then None else Some(sorted[0])
  }

  /** The scan over the rates of a ledger, in whatever order they come. */
  method RateInForceFor(rates: seq<Rate>, ledger: Id, date: int) returns (inForce: Option<Rate>)
    requires forall r | r in rates :: r.ledger == ledger
    ensures InForce(rates, ledger, date, inForce)
  {
    inForce := None;
    for k := 0 to |rates|
      invariant InForce(rates[..k], ledger, date, inForce)
    {
      assert rates[..k + 1] == rates[..k] + [rates[k]];
      if rates[k].from <= date && (inForce.None? || rates[k].from > inForce.value.from) {
        inForce := Some(rates[k]);
      }
    }
    assert rates[..|rates|] == rates;
  }

  /** For every date, the scan over the ledger's own rates gives what the sorted query gives. */
  lemma ScanAgreesWithQuery(rates: seq<Rate>, ledger: Id, date: int, scanned: Option<Rate>)
    requires RatesSound(rates)
    requires InForce(Filter(OfLedger(ledger), rates), ledger, date, scanned)
    ensures scanned == FindRateInForce(rates, ledger, date)
  {
    var own := Filter(OfLedger(ledger), rates);
    assert forall r :: r in rates && Applies(ledger, date, r) <==> r in own && Applies(ledger, date, r);
    OneInForce(rates, ledger, date, scanned, FindRateInForce(rates, ledger, date));
  }

  // ----- changing a rate

  function EffectiveOn(ledger: Id, date: int): Rate -> bool
  {
    (r: Rate) => r.ledger == ledger && r.from == date
  }

  /** Sets the rate of a ledger from today on: today's row is replaced, or a new one inserted. */
  function Upsert(rates: seq<Rate>, ledger: Id, today: int, terms: Terms): seq<Rate>
  {
    var i := Find(EffectiveOn(ledger, today), rates);
    if i < |rates| then rates[i := Rate(ledger, today, terms)] else rates + [Rate(ledger, today, terms)]
  }

  lemma UpsertKeeps(rates: seq<Rate>, ledger: Id, today: int, terms: Terms)
    requires RatesSound(rates)
    ensures RatesSound(Upsert(rates, ledger, today, terms))
  {
    var i := Find(EffectiveOn(ledger, today), rates);
    assert i == |rates| ==> forall j | 0 <= j < |rates| :: !EffectiveOn(ledger, today)(rates[j]);
  }

  lemma UpsertMembers(rates: seq<Rate>, ledger: Id, today: int, terms: Terms, r: Rate)
    requires r.ledger != ledger || r.from != today
    ensures r in Upsert(rates, ledger, today, terms) <==> r in rates
  {
    var after := Upsert(rates, ledger, today, terms);
    var i := Find(EffectiveOn(ledger, today), rates);
    if r in rates {
      var k :| 0 <= k < |rates| && rates[k] == r;
      assert after[k] == r;
    }
    if r in after {
      var k :| 0 <= k < |after| && after[k] == r;
      assert k < |rates| && rates[k] == r;
    }
  }

  /** A change reaches no date before the day it is made on. */
  lemma UpsertLeavesThePast(rates: seq<Rate>, ledger: Id, today: int, terms: Terms, other: Id, date: int)
    requires RatesSound(rates) && (date < today || other != ledger)
    ensures FindRateInForce(Upsert(rates, ledger, today, terms), other, date)
         == FindRateInForce(rates, other, date)
  {
    var after := Upsert(rates, ledger, today, terms);
    UpsertKeeps(rates, ledger, today, terms);
    forall r: Rate
      ensures Applies(other, date, r) ==> (r in after <==> r in rates)
    {
      if Applies(other, date, r) {
        UpsertMembers(rates, ledger, today, terms, r);
      }
    }
    var found := FindRateInForce(after, other, date);
    assert InForce(rates, other, date, found);
    OneInForce(rates, other, date, found, FindRateInForce(rates, other, date));
  }

  datatype Change = Change(ledger: Id, kind: SuggestionKind, today: int, input: Terms)

  function UpdateRate(rates: seq<Rate>, c: Change): seq<Rate>
  {
    match TermsFor(c.kind, c.input)
    case Ok(terms) => Upsert(rates, c.ledger, c.today, terms)
    case Err(_) => rates
  }

  function UpdateAll(rates: seq<Rate>, changes: seq<Change>): seq<Rate>
    decreases |changes|
  {
    if changes == [] then rates else UpdateAll(UpdateRate(rates, changes[0]), changes[1..])
  }

  predicate NeverBack(changes: seq<Change>)
  {
    forall i, j | 0 <= i < j < |changes| :: changes[i].today <= changes[j].today
  }

  /** With a shop date that never goes back, no changes of rates alter the rate in force, or what is
      suggested, for any date before the day of the first change. */
  lemma {:induction false} PastIsSettled(
      rates: seq<Rate>, changes: seq<Change>, ledger: Id, date: int, kind: SuggestionKind, gross: int)
    requires RatesSound(rates) && NeverBack(changes)
    requires changes != [] ==> date < changes[0].today
    ensures RatesSound(UpdateAll(rates, changes))
    ensures FindRateInForce(UpdateAll(rates, changes), ledger, date) == FindRateInForce(rates, ledger, date)
    ensures SuggestFor(kind, gross, FindRateInForce(UpdateAll(rates, changes), ledger, date))
         == SuggestFor(kind, gross, FindRateInForce(rates, ledger, date))
    decreases |changes|
  {
    if changes != [] {
      var c := changes[0];
      var terms := TermsFor(c.kind, c.input);
      if terms.Ok? {
        UpsertKeeps(rates, c.ledger, c.today, terms.value);
        UpsertLeavesThePast(rates, c.ledger, c.today, terms.value, ledger, date);
      }
      assert |changes| > 1 ==> changes[0].today <= changes[1].today;
      PastIsSettled(UpdateRate(rates, c), changes[1..], ledger, date, kind, gross);
    }
  }

  /** From the day of a change until the next, the new rate is in force. */
  lemma ChangeTakesEffect(rates: seq<Rate>, ledger: Id, today: int, terms: Terms, date: int)
    requires RatesSound(rates) && today <= date
    requires forall r | r in rates && r.ledger == ledger :: r.from <= today
    ensures FindRateInForce(Upsert(rates, ledger, today, terms), ledger, date) == Some(Rate(ledger, today, terms))
  {
    var after := Upsert(rates, ledger, today, terms);
    var newest := Rate(ledger, today, terms);
    UpsertKeeps(rates, ledger, today, terms);
    var i := Find(EffectiveOn(ledger, today), rates);
    assert after[i] == newest;
    forall r | r in after && Applies(ledger, date, r)
      ensures r.from <= today
    {
      if r.from != today {
        UpsertMembers(rates, ledger, today, terms, r);
      }
    }
    assert InForce(after, ledger, date, Some(newest));
    OneInForce(after, ledger, date, Some(newest), FindRateInForce(after, ledger, date));
  }
}
