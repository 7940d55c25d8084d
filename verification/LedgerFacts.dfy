/** The facts behind the budget plan ledger (plans, allocations, transactions,
    corrections) and the movements those facts call for.

    Money is a whole number of units, `cent` units to the cent; any finite set of
    decimal amounts has such a unit. */
module LedgerFacts {
  import opened LedgerRows
  import opened Rounding

  datatype Option<+T> = None | Some(value: T)

  datatype TransactionKind = Expense | Income | Transfer | Reallocate | Reconciliation
  datatype Treatment = Salary | Unexpected | Refund | Legacy

  /** A transaction with its latest valuations and its income receipt, if any.
      Ids are numbered in their text order. */
  datatype Transaction = Transaction(
    id: nat, kind: TransactionKind, month: Month, day: nat,
    amount: int, inputCurrency: string,
    fromCategory: Option<Category>, toCategory: Option<Category>,
    fromAccount: bool, toAccount: bool,
    fromNative: int, toNative: int, fromEur: int, toEur: int, toCurrency: string,
    treatment: Option<Treatment>, expected: Option<Month>)

  /** One month's instance of the recurring expected income. */
  datatype Plan = Plan(amount: int, currency: string, amountEur: int,
                       completed: Option<Month>, shortfall: int)

  /** A recurring expected income, in force until the next setting starts. */
  datatype Setting = Setting(amount: int, currency: string)

  datatype CorrectionItem = CorrectionItem(operation: nat, category: Category, month: Month, delta: int)

  datatype Facts = Facts(
    cent: nat,
    first: Month, start: Month, current: Month, today: nat,
    categories: seq<Category>,
    openings: map<Category, int>, unallocatedOpening: int,
    periods: Periods,
    expectations: map<Month, Setting>,
    plans: map<Month, Plan>,
    transactions: seq<Transaction>,
    corrections: seq<CorrectionItem>)

  function Abs(x: int): nat { if x < 0 then -x else x }

  function Positive(x: int): nat { if x < 0 then 0 else x }

  /** value * numerator / denominator, posted to the cent. */
  function Proportional(cent: nat, value: int, numerator: int, denominator: int): int
    requires cent > 0 && denominator != 0
  {
    if denominator > 0 then cent * HalfEven(value * numerator, denominator * cent)
    else cent * HalfEven(-(value * numerator), -denominator * cent)
  }

  // ----- order of transactions -----

  predicate Earlier(t: Transaction, u: Transaction)
  {
    || t.month < u.month
    || (t.month == u.month && (t.day < u.day || (t.day == u.day && t.id < u.id)))
  }

  ghost predicate Ordered(ts: seq<Transaction>)
  {
    forall i, j :: 0 <= i < j < |ts| ==> Earlier(ts[i], ts[j])
  }

  ghost predicate DistinctIds(ts: seq<Transaction>)
  {
    forall i, j :: 0 <= i < j < |ts| ==> ts[i].id != ts[j].id
  }

  // ----- allocations -----

  /** Allocation settings, by category and the month they start in. */
  type Periods = map<(Category, Month), int>

  /** The allocation in force: the setting with the latest start on or before m. */
  function Monthly(ps: Periods, c: Category, m: Month): Option<int>
    decreases m
  {
    if (c, m) in ps then Some(ps[(c, m)])
    else if m == 0 then None
    else Monthly(ps, c, m - 1)
  }

  function Allocated(ps: Periods, c: Category, m: Month): int
  {
    match Monthly(ps, c, m) case Some(a) => a case None => 0
  }

  function TotalAllocated(ps: Periods, m: Month, cs: seq<Category>): int
  {
    if cs == [] then 0
    else TotalAllocated(ps, m, cs[..|cs| - 1]) + Allocated(ps, cs[|cs| - 1], m)
  }

  // ----- slots -----

  function FundingSlot(m: Month): Slot { Slot(m, UNALLOCATED, Funding, Expected(m)) }
  function AllocationSlot(m: Month, c: Category): Slot { Slot(m, c, Allocation, AllocationOf(m, c)) }
  function AllocationsSlot(m: Month): Slot { Slot(m, UNALLOCATED, Allocation, Allocations(m)) }
  function CorrectionSlot(i: CorrectionItem): Slot { Slot(i.month, i.category, Correction, OfCorrection(i.operation, i.category)) }
  function ExcessSlot(plan: Month, m: Month): Slot { Slot(m, UNALLOCATED, Receipt, Excess(plan)) }
  function CompleteSlot(plan: Month, m: Month): Slot { Slot(m, UNALLOCATED, Settlement, Complete(plan)) }

  // ----- movements one transaction calls for -----

  predicate Real(cs: seq<Category>, c: Category) { c == UNALLOCATED || c in cs }

  function SideRows(cs: seq<Category>, t: Transaction, category: Option<Category>, eur: int, incoming: bool): seq<Movement>
  {
    if category.None? || !Real(cs, category.value) then []
    else
      var amount := if t.kind.Reallocate? then Abs(t.amount) else eur;
      [Movement(Slot(t.month, category.value, if t.kind.Reallocate? then Reallocation else Spending, OfTransaction(t.id)),
                if incoming then amount else -amount)]
  }

  /** Transfers and reconciliations move no plan money; salary settles an
      expectation instead of crediting a category. */
  function TransactionRows(cs: seq<Category>, t: Transaction): seq<Movement>
  {
    if t.kind.Transfer? || t.kind.Reconciliation? then []
    else if t.kind.Income? && t.treatment != Some(Refund) && t.treatment != Some(Legacy) then
      if t.treatment == Some(Unexpected) || t.treatment.None? then
        [Movement(Slot(t.month, UNALLOCATED, Receipt, OfTransaction(t.id)), t.toEur)]
      else []
    else SideRows(cs, t, t.fromCategory, t.fromEur, false) + SideRows(cs, t, t.toCategory, t.toEur, true)
  }

  // ----- movements of one month -----

  function AllocationRows(ps: Periods, m: Month, cs: seq<Category>): seq<Movement>
  {
    if cs == [] then []
    else AllocationRows(ps, m, cs[..|cs| - 1])
         + [Movement(AllocationSlot(m, cs[|cs| - 1]), Allocated(ps, cs[|cs| - 1], m))]
  }

  function TransactionsRows(cs: seq<Category>, m: Month, ts: seq<Transaction>): seq<Movement>
  {
    if ts == [] then []
    else
      var t := ts[|ts| - 1];
      TransactionsRows(cs, m, ts[..|ts| - 1]) + if t.month == m then TransactionRows(cs, t) else []
  }

  function CorrectionRows(m: Month, cs: seq<CorrectionItem>): seq<Movement>
  {
    if cs == [] then []
    else
      var i := cs[|cs| - 1];
      CorrectionRows(m, cs[..|cs| - 1]) + if i.month == m then [Movement(CorrectionSlot(i), -i.delta)] else []
  }

  function PlannedEur(plans: map<Month, Plan>, m: Month): int
  {
    if m in plans then plans[m].amountEur else 0
  }

  function MonthRows(f: Facts, m: Month): seq<Movement>
  {
    [Movement(FundingSlot(m), PlannedEur(f.plans, m))]
    + AllocationRows(f.periods, m, f.categories)
    + [Movement(AllocationsSlot(m), -TotalAllocated(f.periods, m, f.categories))]
    + TransactionsRows(f.categories, m, f.transactions)
    + CorrectionRows(m, f.corrections)
  }

  // ----- movements of one income expectation -----

  /** A receipt counts in the currency of the plan; failing that, in proportion to its EUR value. */
  function Native(cent: nat, p: Plan, t: Transaction): int
    requires cent > 0
  {
    if t.inputCurrency == p.currency then t.amount
    else if t.toCurrency == p.currency then t.toNative
    else if p.amountEur == 0 then 0
    else Proportional(cent, t.toEur, p.amount, p.amountEur)
  }

  function FundingPortion(cent: nat, native: int, p: Plan): int
    requires cent > 0
  {
    if p.amount == 0 then 0 else Proportional(cent, native, p.amountEur, p.amount)
  }

  predicate Matches(t: Transaction, plan: Month, through: Month)
  {
    && t.kind.Income? && t.expected == Some(plan) && t.month <= through
    && (t.treatment == Some(Salary) || t.treatment == Some(Legacy))
  }

  function Matched(ts: seq<Transaction>, plan: Month, through: Month): seq<Transaction>
  {
    if ts == [] then []
    else
      var t := ts[|ts| - 1];
      Matched(ts[..|ts| - 1], plan, through) + if Matches(t, plan, through) then [t] else []
  }

  function Received(cent: nat, p: Plan, rs: seq<Transaction>): int
    requires cent > 0
  {
    if rs == [] then 0 else Received(cent, p, rs[..|rs| - 1]) + Native(cent, p, rs[|rs| - 1])
  }

  /** The part of the plan covered once `received` has arrived: the smaller of the two. */
  function Capped(p: Plan, received: int): int
  {
    p.amount - Positive(p.amount - received)
  }

  /** What receipt t funds beyond the `received` already there. */
  function Covered(cent: nat, p: Plan, received: int, t: Transaction): int
    requires cent > 0
  {
    FundingPortion(cent, Capped(p, received + Native(cent, p, t)), p) - FundingPortion(cent, Capped(p, received), p)
  }

  function ExcessRows(cent: nat, p: Plan, plan: Month, rs: seq<Transaction>): seq<Movement>
    requires cent > 0
  {
    if rs == [] then []
    else
      var before, t := rs[..|rs| - 1], rs[|rs| - 1];
      ExcessRows(cent, p, plan, before)
      + if t.treatment == Some(Legacy) then []
        else [Movement(ExcessSlot(plan, t.month), t.toEur - Covered(cent, p, Received(cent, p, before), t))]
  }

  function CompletionRows(p: Plan, plan: Month): seq<Movement>
  {
    match p.completed
    case None => []
    case Some(m) => [Movement(CompleteSlot(plan, m), -p.shortfall)]
  }

  function PlanRows(f: Facts, plan: Month): seq<Movement>
    requires f.cent > 0
  {
    if plan !in f.plans then []
    else ExcessRows(f.cent, f.plans[plan], plan, Matched(f.transactions, plan, f.current))
         + CompletionRows(f.plans[plan], plan)
  }

  // ----- all movements the facts call for -----

  function MonthsRows(f: Facts, through: int): seq<Movement>
    decreases through - f.start
  {
    if through < f.start then [] else MonthsRows(f, through - 1) + MonthRows(f, through)
  }

  function PlansRows(f: Facts, through: int): seq<Movement>
    requires f.cent > 0
    decreases through - f.start
  {
    if through < f.start then [] else PlansRows(f, through - 1) + PlanRows(f, through)
  }

  function Effects(f: Facts): seq<Movement>
    requires f.cent > 0
  {
    MonthsRows(f, f.current) + PlansRows(f, f.current)
  }

  // ----- materialising the plan of each month -----

  /** The setting with the latest start on or before m; 10000 USD if there is none. */
  function SettingAt(es: map<Month, Setting>, cent: nat, m: Month): Setting
    decreases m
  {
    if m in es then es[m]
    else if m == 0 then Setting(10000 * 100 * cent, "USD")
    else SettingAt(es, cent, m - 1)
  }

  /** EUR value of an amount in a currency on the first day of a month. */
  type Quote = (int, string, Month) -> int

  function NewPlan(f: Facts, m: Month, quote: Quote): Plan
  {
    var e := SettingAt(f.expectations, f.cent, m);
    Plan(e.amount, e.currency, quote(e.amount, e.currency, m), None, 0)
  }

  /** The facts once every month from activation to now has its plan. */
  function Materialised(f: Facts, quote: Quote): Facts
  {
    f.(plans := map m: Month | f.start <= m <= f.current :: if m in f.plans then f.plans[m] else NewPlan(f, m, quote))
  }

  // ----- what every step of the ledger keeps true of the facts -----

  ghost predicate SoundCategories(cs: seq<Category>, openings: map<Category, int>, ps: Periods, first: Month)
  {
    && UNALLOCATED !in cs
    && (forall i, j :: 0 <= i < j < |cs| ==> cs[i] != cs[j])
    && (forall c :: c in cs ==> c in openings && Monthly(ps, c, first).Some?)
  }

  ghost predicate SoundTransactions(ts: seq<Transaction>, start: Month, current: Month)
  {
    && Ordered(ts) && DistinctIds(ts)
    && (forall t :: t in ts ==> t.month <= current && (t.expected.Some? ==> start <= t.expected.value <= t.month))
  }

  ghost predicate SoundCorrections(items: seq<CorrectionItem>, cs: seq<Category>, current: Month)
  {
    && (forall i :: i in items ==> i.month <= current && Real(cs, i.category))
    && (forall i, j :: 0 <= i < j < |items| ==>
          items[i].operation != items[j].operation || items[i].category != items[j].category)
  }

  ghost predicate SoundPlans(plans: map<Month, Plan>, start: Month, current: Month)
  {
    && (forall m :: m in plans ==> start <= m <= current)
    && (forall m :: m in plans ==>
          if plans[m].completed.Some? then m <= plans[m].completed.value <= current else plans[m].shortfall == 0)
  }

  ghost predicate Sound(f: Facts)
  {
    && f.cent > 0
    && f.first <= f.start <= f.current
    && SoundCategories(f.categories, f.openings, f.periods, f.first)
    && SoundTransactions(f.transactions, f.start, f.current)
    && SoundCorrections(f.corrections, f.categories, f.current)
    && SoundPlans(f.plans, f.start, f.current)
  }

  ghost predicate WellFormed(f: Facts)
  {
    Sound(f) && forall m :: f.start <= m <= f.current ==> m in f.plans
  }
}
