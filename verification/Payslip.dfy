/** Payslips: adjustments grouped by kind and description, the totals of a date range, and the rate
    history cut down to that range. */
module Payslip {
  import opened Sorting
  import opened Tables
  import Store

  type Id = Store.Id

  datatype Kind = Allowance | Bonus | Advance

  datatype Adjustment = Adjustment(id: Id, kind: Kind, date: int, amount: int, description: string)

  datatype Group = Group(
    kind: Kind, description: string, total: int, dates: seq<int>, itemCount: nat, ids: seq<Id>)

  datatype GroupKey = GroupKey(kind: Kind, name: string)

  /** What trimming and lower-casing make of a description. */
  type Normalizer = string -> string

  // ----- grouping

  function KeyOf(norm: Normalizer): Adjustment -> GroupKey
  {
    (a: Adjustment) => GroupKey(a.kind, norm(a.description))
  }

  function AmountOf(): Adjustment -> int { (a: Adjustment) => a.amount }

  function DateOf(): Adjustment -> int { (a: Adjustment) => a.date }

  function IdOf(): Adjustment -> Id { (a: Adjustment) => a.id }

  /** The group of some adjustments of one key: described as the first of them is. */
  function Summary(): (GroupKey, seq<Adjustment>) -> Group
  {
    (k: GroupKey, members: seq<Adjustment>) =>
      Group(k.kind, if members == [] then "" else members[0].description, Sum(AmountOf(), members),
            Map(DateOf(), members), |members|, Map(IdOf(), members))
  }

  function Groups(norm: Normalizer, adjustments: seq<Adjustment>): seq<Group>
  {
    Grouped(KeyOf(norm), Summary(), adjustments)
  }

  function Extended(g: Group, a: Adjustment): Group
  {
    Group(g.kind, g.description, g.total + a.amount, g.dates + [a.date], g.itemCount + 1, g.ids + [a.id])
  }

  function Started(a: Adjustment): Group
  {
    Group(a.kind, a.description, a.amount, [a.date], 1, [a.id])
  }

  lemma SummaryGrows(k: GroupKey, members: seq<Adjustment>, a: Adjustment)
    requires members != []
    ensures Summary()(k, members + [a]) == Extended(Summary()(k, members), a)
  {
    SumAppend(AmountOf(), members, a);
    MapAppend(DateOf(), members, a);
    MapAppend(IdOf(), members, a);
  }

  lemma SummaryStarts(norm: Normalizer, a: Adjustment)
    ensures Summary()(KeyOf(norm)(a), [a]) == Started(a)
  {
    SumOne(AmountOf(), a);
    assert Map(DateOf(), [a]) == [a.date] && Map(IdOf(), [a]) == [a.id];
  }

  lemma {:induction false} MembersOfKnownKey(norm: Normalizer, adjustments: seq<Adjustment>, k: GroupKey)
    requires k in DistinctKeys(KeyOf(norm), adjustments)
    ensures Filter(HasKey(KeyOf(norm), k), adjustments) != []
  {
    KeysAreUsed(KeyOf(norm), adjustments, k);
    var a :| a in adjustments && KeyOf(norm)(a) == k;
    assert a in Filter(HasKey(KeyOf(norm), k), adjustments);
  }

  /** Where the group of each key stands in the list of groups. */
  ghost predicate Indexed(keys: seq<GroupKey>, at: map<GroupKey, nat>)
  {
    && (forall k :: k in at <==> k in keys)
    && (forall k | k in at :: at[k] < |keys| && keys[at[k]] == k)
  }

  ghost predicate Held(norm: Normalizer, seen: seq<Adjustment>, groups: seq<Group>, at: map<GroupKey, nat>)
  {
    groups == Groups(norm, seen) && Indexed(DistinctKeys(KeyOf(norm), seen), at)
  }

  lemma KnownKey(norm: Normalizer, seen: seq<Adjustment>, groups: seq<Group>, at: map<GroupKey, nat>, a: Adjustment)
    requires Held(norm, seen, groups, at) && KeyOf(norm)(a) in at
    ensures var i := at[KeyOf(norm)(a)];
      i < |groups| && Held(norm, seen + [a], groups[i := Extended(groups[i], a)], at)
  {
    var k := KeyOf(norm)(a);
    KeysAppend(KeyOf(norm), seen, a);
    GroupedAgain(KeyOf(norm), Summary(), seen, a, at[k]);
    MembersOfKnownKey(norm, seen, k);
    SummaryGrows(k, Filter(HasKey(KeyOf(norm), k), seen), a);
  }

  lemma NewKey(norm: Normalizer, seen: seq<Adjustment>, groups: seq<Group>, at: map<GroupKey, nat>, a: Adjustment)
    requires Held(norm, seen, groups, at) && KeyOf(norm)(a) !in at
    ensures Held(norm, seen + [a], groups + [Started(a)], at[KeyOf(norm)(a) := |groups|])
  {
    KeysAppend(KeyOf(norm), seen, a);
    GroupedAnew(KeyOf(norm), Summary(), seen, a);
    SummaryStarts(norm, a);
    IndexGrows(DistinctKeys(KeyOf(norm), seen), at, KeyOf(norm)(a));
  }

  lemma IndexGrows(keys: seq<GroupKey>, at: map<GroupKey, nat>, k: GroupKey)
    requires Indexed(keys, at) && k !in at
    ensures Indexed(keys + [k], at[k := |keys|])
  {
  }

  /** The loop has grouped the first `n` adjustments. */
  ghost predicate Reached(norm: Normalizer, all: seq<Adjustment>, n: nat, groups: seq<Group>, at: map<GroupKey, nat>)
  {
    n <= |all| && Held(norm, all[..n], groups, at)
  }

  lemma OneMore(norm: Normalizer, all: seq<Adjustment>, n: nat, groups: seq<Group>, at: map<GroupKey, nat>)
    requires n < |all| && Reached(norm, all, n, groups, at)
    ensures var key := KeyOf(norm)(all[n]);
      if key in at then
        at[key] < |groups| && Reached(norm, all, n + 1, groups[at[key] := Extended(groups[at[key]], all[n])], at)
      else Reached(norm, all, n + 1, groups + [Started(all[n])], at[key := |groups|])
  {
    PrefixGrows(all, n);
    if KeyOf(norm)(all[n]) in at {
      KnownKey(norm, all[..n], groups, at, all[n]);
    } else {
      NewKey(norm, all[..n], groups, at, all[n]);
    }
  }

  lemma PrefixGrows<T>(rows: seq<T>, n: nat)
    requires n < |rows|
    ensures rows[..n + 1] == rows[..n] + [rows[n]]
  {
  }

  lemma ReachedTheEnd(norm: Normalizer, all: seq<Adjustment>, groups: seq<Group>, at: map<GroupKey, nat>)
    requires Reached(norm, all, |all|, groups, at)
    ensures groups == Groups(norm, all)
  {
    assert all[..|all|] == all;
  }

  /** A map from key to group grows beside the list of groups; an adjustment of a known key changes
      the group both of them hold. */
  method GroupAdjustments(norm: Normalizer, adjustments: seq<Adjustment>) returns (groups: seq<Group>)
    ensures groups == Groups(norm, adjustments)
  {
    groups := [];
    var groupsByKey: map<GroupKey, nat> := map[];
    for n := 0 to |adjustments|
      invariant Reached(norm, adjustments, n, groups, groupsByKey)
    {
      OneMore(norm, adjustments, n, groups, groupsByKey);
      var a := adjustments[n];
      var key := KeyOf(norm)(a);
      if key in groupsByKey {
        var i := groupsByKey[key];
        groups := groups[i := Extended(groups[i], a)];
      } else {
        groupsByKey := groupsByKey[key := |groups|];
        groups := groups + [Started(a)];
      }
    }
    ReachedTheEnd(norm, adjustments, groups, groupsByKey);
  }

  // ----- what the groups say

  function OfKind(kind: Kind): Adjustment -> bool { (a: Adjustment) => a.kind == kind }

  function TotalOfKind(kind: Kind): Group -> int
  {
    (g: Group) => if g.kind == kind then g.total else 0
  }

  function SumAdjustments(adjustments: seq<Adjustment>, kind: Kind): int
  {
    Sum(AmountOf(), Filter(OfKind(kind), adjustments))
  }

  function AmountOfKind(kind: Kind): Adjustment -> int
  {
    (a: Adjustment) => if a.kind == kind then a.amount else 0
  }

  /** For each kind, the totals of its groups add up to the total of its adjustments. */
  lemma GroupTotalsAgree(norm: Normalizer, adjustments: seq<Adjustment>, kind: Kind)
    ensures Sum(TotalOfKind(kind), Groups(norm, adjustments)) == SumAdjustments(adjustments, kind)
  {
    var key, keys := KeyOf(norm), DistinctKeys(KeyOf(norm), adjustments);
    var perKey := PerKey(key, AmountOfKind(kind), adjustments);
    forall k | k in keys
      ensures TotalOfKind(kind)(GroupOf(key, Summary(), adjustments)(k)) == perKey(k)
    {
      KindOfKey(norm, adjustments, k, kind);
    }
    SumMapped(GroupOf(key, Summary(), adjustments), TotalOfKind(kind), perKey, keys);
    SumOfGroups(key, AmountOfKind(kind), keys, adjustments);
    SumAgree(Selected(key, AmountOfKind(kind), keys), AmountOfKind(kind), adjustments);
    SumFiltered(OfKind(kind), AmountOf(), adjustments);
    SumAgree(Restricted(OfKind(kind), AmountOf()), AmountOfKind(kind), adjustments);
  }

  lemma KindOfKey(norm: Normalizer, adjustments: seq<Adjustment>, k: GroupKey, kind: Kind)
    ensures TotalOfKind(kind)(GroupOf(KeyOf(norm), Summary(), adjustments)(k))
         == Sum(Cell(KeyOf(norm), AmountOfKind(kind), k), adjustments)
  {
    var members := HasKey(KeyOf(norm), k);
    if k.kind == kind {
      SumFiltered(members, AmountOf(), adjustments);
      SumAgree(Restricted(members, AmountOf()), Cell(KeyOf(norm), AmountOfKind(kind), k), adjustments);
    } else {
      SumZero(Cell(KeyOf(norm), AmountOfKind(kind), k), adjustments);
    }
  }

  function Occurs(id: Id): Adjustment -> int { (a: Adjustment) => if a.id == id then 1 else 0 }

  function OccursIn(id: Id): Group -> int { (g: Group) => Sum(Is(id), g.ids) }

  function Is(id: Id): Id -> int { (x: Id) => if x == id then 1 else 0 }

  /** Each adjustment is listed in the groups exactly as often as it was given, so once. */
  lemma GroupsPartition(norm: Normalizer, adjustments: seq<Adjustment>, id: Id)
    ensures Sum(OccursIn(id), Groups(norm, adjustments)) == Sum(Occurs(id), adjustments)
  {
    var key, keys := KeyOf(norm), DistinctKeys(KeyOf(norm), adjustments);
    var perKey := PerKey(key, Occurs(id), adjustments);
    forall k | k in keys
      ensures OccursIn(id)(GroupOf(key, Summary(), adjustments)(k)) == perKey(k)
    {
      var members := Filter(HasKey(key, k), adjustments);
      SumMapped(IdOf(), Is(id), Occurs(id), members);
      SumFiltered(HasKey(key, k), Occurs(id), adjustments);
      SumAgree(Restricted(HasKey(key, k), Occurs(id)), Cell(key, Occurs(id), k), adjustments);
    }
    SumMapped(GroupOf(key, Summary(), adjustments), OccursIn(id), perKey, keys);
    SumOfGroups(key, Occurs(id), keys, adjustments);
    SumAgree(Selected(key, Occurs(id), keys), Occurs(id), adjustments);
  }

  /** One group per key in order of first occurrence; a group lists the adjustments of its key in the
      order given, with their dates and their count, and is described as the first of them. */
  lemma GroupsAreTheKeys(norm: Normalizer, adjustments: seq<Adjustment>, i: nat)
    requires i < |DistinctKeys(KeyOf(norm), adjustments)|
    ensures var keys := DistinctKeys(KeyOf(norm), adjustments);
      var members := Filter(HasKey(KeyOf(norm), keys[i]), adjustments);
      var g := Groups(norm, adjustments)[i];
      && |Groups(norm, adjustments)| == |keys| && Distinct(keys) && members != []
      && GroupKey(g.kind, norm(g.description)) == keys[i]
      && g.ids == Map(IdOf(), members) && g.dates == Map(DateOf(), members) && g.itemCount == |members|
      && g.description == members[0].description
  {
    var keys := DistinctKeys(KeyOf(norm), adjustments);
    MembersOfKnownKey(norm, adjustments, keys[i]);
    var members := Filter(HasKey(KeyOf(norm), keys[i]), adjustments);
    assert members[0] in members;
  }

  // ----- the totals of a range

  datatype WorkEntry = WorkEntry(id: Id, date: int, salary: int, commission: int, personal: Option<int>)

  datatype Totals = Totals(
    salary: int, commission: int, personal: int, grand: int, allowance: int, bonus: int,
    advance: int, earnings: int, netPayable: int)

  function WorkedWithin(from: int, to: int): WorkEntry -> bool { (e: WorkEntry) => from <= e.date <= to }

  function EffectiveWithin(from: int, to: int): Adjustment -> bool { (a: Adjustment) => from <= a.date <= to }

  function Salary(): WorkEntry -> int { (e: WorkEntry) => e.salary }

  function Commission(): WorkEntry -> int { (e: WorkEntry) => e.commission }

  function Personal(): WorkEntry -> int
  {
    (e: WorkEntry) => if e.personal.Some? then e.personal.value else 0
  }

  /** The totals of a payslip over the inclusive range. */
  function PayslipTotals(entries: seq<WorkEntry>, adjustments: seq<Adjustment>, from: int, to: int): Totals
  {
    var worked := Filter(WorkedWithin(from, to), entries);
    var given := Filter(EffectiveWithin(from, to), adjustments);
    var salary, commission, personal := Sum(Salary(), worked), Sum(Commission(), worked), Sum(Personal(), worked);
    var allowance := SumAdjustments(given, Allowance);
    var bonus := SumAdjustments(given, Bonus);
    var advance := SumAdjustments(given, Advance);
    var grand := salary + commission + personal;
    var earnings := grand + allowance + bonus;
    Totals(salary, commission, personal, grand, allowance, bonus, advance, earnings, earnings - advance)
  }

  function DailyTotal(): WorkEntry -> int
  {
    (e: WorkEntry) => e.salary + e.commission + (if e.personal.Some? then e.personal.value else 0)
  }

  /** What is paid is the sum of the listed daily totals, plus the allowance and bonus groups, minus the
      advance groups. */
  lemma NetPayableIsWhatIsListed(
      norm: Normalizer, entries: seq<WorkEntry>, adjustments: seq<Adjustment>, from: int, to: int)
    ensures var worked := Filter(WorkedWithin(from, to), entries);
      var groups := Groups(norm, Filter(EffectiveWithin(from, to), adjustments));
      PayslipTotals(entries, adjustments, from, to).netPayable
      == Sum(DailyTotal(), worked) + Sum(TotalOfKind(Allowance), groups) + Sum(TotalOfKind(Bonus), groups)
         - Sum(TotalOfKind(Advance), groups)
  {
    var worked := Filter(WorkedWithin(from, to), entries);
    var given := Filter(EffectiveWithin(from, to), adjustments);
    SumPlus(Salary(), Commission(), SalaryAndCommission(), worked);
    SumPlus(SalaryAndCommission(), Personal(), DailyTotal(), worked);
    GroupTotalsAgree(norm, given, Allowance);
    GroupTotalsAgree(norm, given, Bonus);
    GroupTotalsAgree(norm, given, Advance);
  }

  /** The total of one field over entries, and of the groups of one kind, entry by entry. */
  predicate Tallies(t: Totals, worked: seq<WorkEntry>, groups: seq<Group>)
  {
    && t.salary == Sum((e: WorkEntry) => e.salary, worked)
    && t.commission == Sum((e: WorkEntry) => e.commission, worked)
    && t.personal == Sum((e: WorkEntry) => match e.personal case Some(cents) => cents case None => 0, worked)
    && t.allowance == Sum((g: Group) => if g.kind.Allowance? then g.total else 0, groups)
    && t.bonus == Sum((g: Group) => if g.kind.Bonus? then g.total else 0, groups)
    && t.advance == Sum((g: Group) => if g.kind.Advance? then g.total else 0, groups)
    && t.grand == Sum(DailyTotal(), worked)
    && t.earnings == t.grand + t.allowance + t.bonus
    && t.netPayable == t.earnings - t.advance
  }

  lemma GroupsOfKind(norm: Normalizer, given: seq<Adjustment>, kind: Kind, f: Group -> int)
    requires forall g :: f(g) == if g.kind == kind then g.total else 0
    ensures SumAdjustments(given, kind) == Sum(f, Groups(norm, given))
  {
    GroupTotalsAgree(norm, given, kind);
    SumAgree(TotalOfKind(kind), f, Groups(norm, given));
  }

  lemma WorkedTotals(worked: seq<WorkEntry>)
    ensures Sum(Salary(), worked) == Sum((e: WorkEntry) => e.salary, worked)
    ensures Sum(Commission(), worked) == Sum((e: WorkEntry) => e.commission, worked)
    ensures Sum(Personal(), worked)
      == Sum((e: WorkEntry) => match e.personal case Some(cents) => cents case None => 0, worked)
    ensures Sum(Salary(), worked) + Sum(Commission(), worked) + Sum(Personal(), worked) == Sum(DailyTotal(), worked)
  {
    SumAgree(Salary(), (e: WorkEntry) => e.salary, worked);
    SumAgree(Commission(), (e: WorkEntry) => e.commission, worked);
    SumAgree(Personal(), (e: WorkEntry) => match e.personal case Some(cents) => cents case None => 0, worked);
    SumPlus(Salary(), Commission(), SalaryAndCommission(), worked);
    SumPlus(SalaryAndCommission(), Personal(), DailyTotal(), worked);
  }

  /** Each of the nine totals of a payslip is that of the entries and groups it lists. */
  lemma TotalsAreWhatIsListed(
      norm: Normalizer, entries: seq<WorkEntry>, adjustments: seq<Adjustment>, from: int, to: int)
    ensures Tallies(PayslipTotals(entries, adjustments, from, to),
                    Filter((e: WorkEntry) => from <= e.date <= to, entries),
                    Groups(norm, Filter((a: Adjustment) => from <= a.date <= to, adjustments)))
  {
    var worked := Filter(WorkedWithin(from, to), entries);
    var given := Filter(EffectiveWithin(from, to), adjustments);
    FilterAgree(WorkedWithin(from, to), (e: WorkEntry) => from <= e.date <= to, entries);
    FilterAgree(EffectiveWithin(from, to), (a: Adjustment) => from <= a.date <= to, adjustments);
    WorkedTotals(worked);
    GroupsOfKind(norm, given, Allowance, (g: Group) => if g.kind.Allowance? then g.total else 0);
    GroupsOfKind(norm, given, Bonus, (g: Group) => if g.kind.Bonus? then g.total else 0);
    GroupsOfKind(norm, given, Advance, (g: Group) => if g.kind.Advance? then g.total else 0);
  }

  function SalaryAndCommission(): WorkEntry -> int { (e: WorkEntry) => e.salary + e.commission }

  lemma RangeSplits<T>(f: T -> int, whole: T -> bool, left: T -> bool, right: T -> bool, rows: seq<T>)
    requires forall r | r in rows :: whole(r) == (left(r) || right(r)) && !(left(r) && right(r))
    ensures Sum(f, Filter(whole, rows)) == Sum(f, Filter(left, rows)) + Sum(f, Filter(right, rows))
  {
    SumFiltered(whole, f, rows);
    SumFiltered(left, f, rows);
    SumFiltered(right, f, rows);
    SumPlus(Restricted(left, f), Restricted(right, f), Restricted(whole, f), rows);
  }

  lemma KindSplits(adjustments: seq<Adjustment>, from: int, mid: int, to: int, kind: Kind)
    requires from <= mid < to
    ensures SumAdjustments(Filter(EffectiveWithin(from, to), adjustments), kind)
         == SumAdjustments(Filter(EffectiveWithin(from, mid), adjustments), kind)
            + SumAdjustments(Filter(EffectiveWithin(mid + 1, to), adjustments), kind)
  {
    SumOfKind(Filter(EffectiveWithin(from, to), adjustments), kind);
    SumOfKind(Filter(EffectiveWithin(from, mid), adjustments), kind);
    SumOfKind(Filter(EffectiveWithin(mid + 1, to), adjustments), kind);
    RangeSplits(AmountOfKind(kind), EffectiveWithin(from, to), EffectiveWithin(from, mid),
                EffectiveWithin(mid + 1, to), adjustments);
  }

  lemma SumOfKind(adjustments: seq<Adjustment>, kind: Kind)
    ensures SumAdjustments(adjustments, kind) == Sum(AmountOfKind(kind), adjustments)
  {
    SumFiltered(OfKind(kind), AmountOf(), adjustments);
    SumAgree(Restricted(OfKind(kind), AmountOf()), AmountOfKind(kind), adjustments);
  }

  /** Splitting a date range in two splits the earnings and the net pay exactly. */
  lemma NetPayableSplits(entries: seq<WorkEntry>, adjustments: seq<Adjustment>, from: int, mid: int, to: int)
    requires from <= mid < to
    ensures var whole := PayslipTotals(entries, adjustments, from, to);
      var left := PayslipTotals(entries, adjustments, from, mid);
      var right := PayslipTotals(entries, adjustments, mid + 1, to);
      && whole.netPayable == left.netPayable + right.netPayable
      && whole.earnings == left.earnings + right.earnings
      && whole.advance == left.advance + right.advance
  {
    var whole, left, right := WorkedWithin(from, to), WorkedWithin(from, mid), WorkedWithin(mid + 1, to);
    RangeSplits(Salary(), whole, left, right, entries);
    RangeSplits(Commission(), whole, left, right, entries);
    RangeSplits(Personal(), whole, left, right, entries);
    KindSplits(adjustments, from, mid, to, Allowance);
    KindSplits(adjustments, from, mid, to, Bonus);
    KindSplits(adjustments, from, mid, to, Advance);
  }

  // ----- the pruned rate history

  datatype CommissionRate = CommissionRate(from: int, ratePerBand: int)

  function RateFrom(): CommissionRate -> int { (r: CommissionRate) => r.from }

  /** The last row of an ascending history not after `date`, or the number of rows. */
  function LastNotAfter(rates: seq<CommissionRate>, date: int): (i: nat)
    ensures i <= |rates|
    ensures i < |rates| ==> rates[i].from <= date
    ensures forall j | 0 <= j < |rates| && rates[j].from <= date :: i < |rates| && j <= i
  {
    if rates == [] then 0
    else
      var last := |rates| - 1;
      if rates[last].from <= date then last
      else
        var i := LastNotAfter(rates[..last], date);
        if i == last then |rates| else i
  }

  function RateOn(rates: seq<CommissionRate>, date: int): Option<CommissionRate>
  {
    var i := LastNotAfter(rates, date);
    if i == |rates| then None else Some(rates[i])
  }

  function From(from: int): CommissionRate -> bool { (r: CommissionRate) => r.from > from }

  /** How many rows of an ascending history are not after `to`. */
  function UpTo(history: seq<CommissionRate>, to: int): (n: nat)
    ensures n <= |history|
    ensures n > 0 ==> history[n - 1].from <= to
    ensures forall j | n <= j < |history| :: history[j].from > to
  {
    if history == [] then 0
    else if history[|history| - 1].from <= to then |history|
    else UpTo(history[..|history| - 1], to)
  }

  /** The rates a payslip carries: the one in force at its start, if any, and every later one. */
  function PrunedRates(history: seq<CommissionRate>, from: int, to: int): seq<CommissionRate>
  {
    var rates := history[..UpTo(history, to)];
    var baseline := LastNotAfter(rates, from);
    (if baseline < |rates| then [rates[baseline]] else []) + Filter(From(from), rates)
  }

  lemma LaterIsSuffix(rates: seq<CommissionRate>, from: int, k: nat)
    requires k <= |rates|
    requires forall j | 0 <= j < k :: rates[j].from <= from
    requires forall j | k <= j < |rates| :: rates[j].from > from
    ensures Filter(From(from), rates) == rates[k..]
  {
    assert rates == rates[..k] + rates[k..];
    FilterConcat(From(from), rates[..k], rates[k..]);
    FilterNone(From(from), rates[..k]);
    FilterAll(From(from), rates[k..]);
  }

  lemma SameRate(rates: seq<CommissionRate>, k: nat, date: int)
    requires k < |rates| && rates[k].from <= date
    ensures RateOn(rates[k..], date) == RateOn(rates, date)
  {
    var whole, part := LastNotAfter(rates, date), LastNotAfter(rates[k..], date);
    if part < |rates[k..]| {
      assert rates[k..][part] == rates[k + part];
    }
    if whole < |rates| && whole >= k {
      assert rates[k..][whole - k] == rates[whole];
    }
  }

  lemma Prefix(history: seq<CommissionRate>, to: int, date: int)
    requires date <= to
    ensures RateOn(history[..UpTo(history, to)], date) == RateOn(history, date)
  {
    var n := UpTo(history, to);
    var whole, part := LastNotAfter(history, date), LastNotAfter(history[..n], date);
    if whole < |history| {
      assert whole < n && history[..n][whole] == history[whole];
    }
  }

  lemma LaterThanBaseline(rates: seq<CommissionRate>, from: int, baseline: nat)
    requires SortedBy(RateFrom(), rates) && baseline == LastNotAfter(rates, from) < |rates|
    ensures Filter(From(from), rates) == rates[baseline + 1..]
  {
    forall j | 0 <= j < baseline + 1
      ensures rates[j].from <= from
    {
      if j < baseline {
        assert RateFrom()(rates[j]) <= RateFrom()(rates[baseline]);
      }
    }
    assert forall j | baseline + 1 <= j < |rates| :: rates[j].from > from;
    LaterIsSuffix(rates, from, baseline + 1);
  }

  lemma HeadAndTail(rates: seq<CommissionRate>, k: nat)
    requires k < |rates|
    ensures [rates[k]] + rates[k + 1..] == rates[k..]
  {
  }

  lemma BaselineThenLater(rates: seq<CommissionRate>, from: int)
    requires SortedBy(RateFrom(), rates)
    ensures var baseline := LastNotAfter(rates, from);
      (if baseline < |rates| then [rates[baseline]] else []) + Filter(From(from), rates)
      == if baseline < |rates| then rates[baseline..] else rates
  {
    var baseline := LastNotAfter(rates, from);
    if baseline < |rates| {
      LaterThanBaseline(rates, from, baseline);
      HeadAndTail(rates, baseline);
    } else {
      FilterAll(From(from), rates);
      assert [] + rates == rates;
    }
  }

  lemma PrefixSorted(history: seq<CommissionRate>, n: nat)
    requires SortedBy(RateFrom(), history) && n <= |history|
    ensures SortedBy(RateFrom(), history[..n])
  {
  }

  lemma PrunedForm(history: seq<CommissionRate>, from: int, to: int)
    requires SortedBy(RateFrom(), history)
    ensures var rates := history[..UpTo(history, to)];
      var baseline := LastNotAfter(rates, from);
      PrunedRates(history, from, to) == if baseline < |rates| then rates[baseline..] else rates
  {
    PrefixSorted(history, UpTo(history, to));
    BaselineThenLater(history[..UpTo(history, to)], from);
  }

  /** For every date of the range, the rates on the payslip give the rate the full history gives,
      also when none was in force at its start. */
  lemma PrunedRatesAgree(history: seq<CommissionRate>, from: int, to: int, date: int)
    requires SortedBy(RateFrom(), history) && from <= date <= to
    ensures RateOn(PrunedRates(history, from, to), date) == RateOn(history, date)
  {
    PrunedForm(history, from, to);
    Prefix(history, to, date);
    var rates := history[..UpTo(history, to)];
    if LastNotAfter(rates, from) < |rates| {
      SameRate(rates, LastNotAfter(rates, from), date);
    }
  }

  /** Of the rates before the range only the one still in force is kept, and none from after it. */
  lemma PrunedRatesAreNeeded(history: seq<CommissionRate>, from: int, to: int, k: nat)
    requires SortedBy(RateFrom(), history) && k < |PrunedRates(history, from, to)| && from <= to
    ensures var r := PrunedRates(history, from, to)[k];
      r in history && r.from <= to && (r.from <= from ==> k == 0 && RateOn(history, from) == Some(r))
  {
    var rates := history[..UpTo(history, to)];
    PrunedForm(history, from, to);
    Prefix(history, to, from);
    var i := PrunedAt(rates, from, k);
    BoundedByTo(history, to, rates[i]);
  }

  /** The row a pruned history has at `k`. */
  lemma PrunedAt(rates: seq<CommissionRate>, from: int, k: nat) returns (i: nat)
    requires var baseline := LastNotAfter(rates, from);
      k < |if baseline < |rates| then rates[baseline..] else rates|
    ensures i < |rates|
    ensures var baseline := LastNotAfter(rates, from);
      (if baseline < |rates| then rates[baseline..] else rates)[k] == rates[i]
    ensures rates[i].from <= from ==> k == 0 && RateOn(rates, from) == Some(rates[i])
  {
    var baseline := LastNotAfter(rates, from);
    i := if baseline < |rates| then baseline + k else k;
  }

  lemma BoundedByTo(history: seq<CommissionRate>, to: int, r: CommissionRate)
    requires SortedBy(RateFrom(), history) && r in history[..UpTo(history, to)]
    ensures r in history && r.from <= to
  {
    var n := UpTo(history, to);
    var j :| 0 <= j < n && history[j] == r;
    assert j < n - 1 ==> RateFrom()(history[j]) <= RateFrom()(history[n - 1]);
  }
}
