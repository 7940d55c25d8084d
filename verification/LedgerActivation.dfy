/** Switching the plan ledger on: existing receipts keep their category effect, and
    Unallocated opens at whatever makes it the projected gap. */
module LedgerActivation {
  import opened LedgerRows
  import opened Rounding
  import opened LedgerFacts
  import opened LedgerEffects
  import opened LedgerBalances
  import opened LedgerSteps
  import opened LedgerHandlers
  import opened LedgerTotals

  /** The facts as they read while no month is a ledger month yet. */
  function Before(f: Facts): Facts
  {
    f.(start := f.current + 1)
  }

  /** No ledger record exists and nothing mentions Unallocated. */
  ghost predicate Ready(f: Facts)
  {
    && f.cent > 0 && f.first <= f.current && f.plans == map[]
    && SoundCategories(f.categories, f.openings, f.periods, f.first)
    && Ordered(f.transactions) && DistinctIds(f.transactions)
    && (forall t :: t in f.transactions ==>
          && t.month <= f.current && t.treatment.None? && t.expected.None?
          && t.fromCategory != Some(UNALLOCATED) && t.toCategory != Some(UNALLOCATED))
    && SoundCorrections(f.corrections, f.categories, f.current)
    && (forall i :: i in f.corrections ==> i.category != UNALLOCATED)
  }

  /** Receipts before activation are legacy; those of the current month count towards its plan. */
  function MarkLegacy(t: Transaction, month: Month): Transaction
  {
    if t.kind.Income? then t.(treatment := Some(Legacy), expected := if t.month == month then Some(month) else None) else t
  }

  function MarkAll(ts: seq<Transaction>, month: Month): seq<Transaction>
  {
    if ts == [] then [] else MarkAll(ts[..|ts| - 1], month) + [MarkLegacy(ts[|ts| - 1], month)]
  }

  /** The ledger starts in the current month, with that month's plan in place. */
  function Started(f: Facts, quote: Quote): Facts
  {
    var g := f.(start := f.current, transactions := MarkAll(f.transactions, f.current));
    g.(plans := map[f.current := NewPlan(g, f.current, quote)])
  }

  /** Cash less budgets plus expected income, before the month's funding and allocations count. */
  function OpeningUnallocated(f: Facts, cash: int, quote: Quote): int
    requires f.cent > 0
  {
    var g := Started(f, quote);
    cash - LaterCash(f, f.current, f.transactions) - Assigned(Before(f), f.categories, f.current)
    + Outstanding(g, f.current, f.current)
    - (g.plans[f.current].amountEur - TotalAllocated(f.periods, f.current, f.categories))
  }

  function Activated(f: Facts, cash: int, quote: Quote): Facts
    requires f.cent > 0
  {
    Started(f, quote).(unallocatedOpening := OpeningUnallocated(f, cash, quote))
  }

  // ----- marking changes no figure -----

  lemma {:induction false} MarkedAt(ts: seq<Transaction>, month: Month)
    ensures |MarkAll(ts, month)| == |ts|
    ensures forall i :: 0 <= i < |ts| ==> MarkAll(ts, month)[i] == MarkLegacy(ts[i], month)
  {
    if ts != [] {
      MarkedAt(ts[..|ts| - 1], month);
    }
  }

  /** Activation starts the ledger now, with the plan of this month. Income so far is legacy,
      that of this month as a receipt of the plan; nothing else changes. */
  ghost predicate SwitchedOn(f: Facts, g: Facts, quote: Quote)
  {
    && g == f.(start := f.current, transactions := g.transactions, plans := g.plans, unallocatedOpening := g.unallocatedOpening)
    && g.plans.Keys == {f.current} && PlannedAs(f.expectations, f.cent, f.current, quote, g.plans[f.current])
    && |g.transactions| == |f.transactions|
    && forall i :: 0 <= i < |f.transactions| ==>
         var t, u := f.transactions[i], g.transactions[i];
         if !t.kind.Income? then u == t
         else if t.month == f.current then u == t.(treatment := Some(Legacy), expected := Some(f.current))
         else u == t.(treatment := Some(Legacy), expected := None)
  }

  lemma ActivatedIs(f: Facts, cash: int, quote: Quote)
    requires f.cent > 0
    ensures SwitchedOn(f, Activated(f, cash, quote), quote)
  {
    hide OpeningUnallocated, MarkAll, PlannedAs, NewPlan;
    MarkedAt(f.transactions, f.current);
    NewPlanIs(f.(start := f.current, transactions := MarkAll(f.transactions, f.current)), f.current, quote);
  }

  lemma MarkedSound(f: Facts)
    requires Ready(f)
    ensures SoundTransactions(MarkAll(f.transactions, f.current), f.current, f.current)
  {
    var ts, us := f.transactions, MarkAll(f.transactions, f.current);
    MarkedAt(ts, f.current);
    assert Ordered(us) && DistinctIds(us) by {
      forall i, j | 0 <= i < j < |us| ensures Earlier(us[i], us[j]) && us[i].id != us[j].id {
        assert Earlier(ts[i], ts[j]);
      }
    }
    forall u | u in us ensures u.month <= f.current && (u.expected.Some? ==> u.expected.value == f.current == u.month) {
      var i :| 0 <= i < |us| && us[i] == u;
      assert ts[i] in ts;
    }
  }

  lemma ActivatedWellFormed(f: Facts, cash: int, quote: Quote)
    requires Ready(f)
    ensures WellFormed(Activated(f, cash, quote))
  {
    hide OpeningUnallocated, MarkAll, Ordered, DistinctIds;
    MarkedSound(f);
  }

  /** Spending of transfers and reconciliations, which ledger months leave out. */
  function Unledgered(t: Transaction, c: Category): int
  {
    if t.kind.Transfer? || t.kind.Reconciliation? then SpendingOf(t, c, false) else 0
  }

  function UnledgeredIn(ts: seq<Transaction>, c: Category, m: Month): int
  {
    if ts == [] then 0
    else
      var t := ts[|ts| - 1];
      UnledgeredIn(ts[..|ts| - 1], c, m) + if t.month == m then Unledgered(t, c) else 0
  }

  lemma {:induction false} MarkedFigures(ts: seq<Transaction>, month: Month, c: Category, m: Month)
    ensures SpendingIn(MarkAll(ts, month), c, m, false) == SpendingIn(ts, c, m, false)
    ensures ImpactIn(MarkAll(ts, month), c, m) == ImpactIn(ts, c, m)
    ensures SpendingIn(MarkAll(ts, month), c, m, true) == SpendingIn(ts, c, m, false) - UnledgeredIn(ts, c, m)
  {
    if ts != [] {
      var front := ts[..|ts| - 1];
      MarkedFigures(front, month, c, m);
      var us := MarkAll(ts, month);
      assert us[..|us| - 1] == MarkAll(front, month);
    }
  }

  lemma {:induction false} EarlierBalance(f: Facts, cash: int, quote: Quote, c: Category, m: int)
    requires f.cent > 0 && m < f.current
    ensures Balance(Activated(f, cash, quote), c, m) == Balance(Before(f), c, m)
    decreases m - f.first
  {
    if m >= f.first {
      EarlierBalance(f, cash, quote, c, m - 1);
      MarkedFigures(f.transactions, f.current, c, m);
    }
  }

  /** Activation keeps a category's balance, but for transfers and reconciliations of
      the current month that carry the category. */
  lemma ActivationKeepsBalance(f: Facts, cash: int, quote: Quote, c: Category)
    requires Ready(f)
    ensures Balance(Activated(f, cash, quote), c, f.current) ==
            Balance(Before(f), c, f.current) + UnledgeredIn(f.transactions, c, f.current)
  {
    EarlierBalance(f, cash, quote, c, f.current - 1);
    MarkedFigures(f.transactions, f.current, c, f.current);
  }

  // ----- where Unallocated opens -----

  lemma {:induction false} LegacyRows(cs: seq<Category>, m: Month, ts: seq<Transaction>, month: Month)
    requires forall t :: t in ts ==> t.fromCategory != Some(UNALLOCATED) && t.toCategory != Some(UNALLOCATED)
    ensures forall i :: 0 <= i < |TransactionsRows(cs, m, MarkAll(ts, month))| ==>
              TransactionsRows(cs, m, MarkAll(ts, month))[i].slot.category != UNALLOCATED
  {
    if ts != [] {
      var front, t := ts[..|ts| - 1], ts[|ts| - 1];
      assert t in ts;
      LegacyRows(cs, m, front, month);
      var us := MarkAll(ts, month);
      assert us[..|us| - 1] == MarkAll(front, month);
      var u := MarkLegacy(t, month);
      assert forall i :: 0 <= i < |TransactionRows(cs, u)| ==> TransactionRows(cs, u)[i].slot.category != UNALLOCATED;
    }
  }

  lemma {:induction false} NoLegacyExcess(cent: nat, p: Plan, plan: Month, rs: seq<Transaction>)
    requires cent > 0 && forall t :: t in rs ==> t.treatment == Some(Legacy)
    ensures ExcessRows(cent, p, plan, rs) == []
  {
    if rs != [] {
      assert rs[|rs| - 1] in rs;
      NoLegacyExcess(cent, p, plan, rs[..|rs| - 1]);
    }
  }

  lemma OpeningMonth(f: Facts, cash: int, quote: Quote)
    requires Ready(f)
    ensures var g := Activated(f, cash, quote);
            SumIn(Effects(g), InUnallocated(f.current)) ==
            g.plans[f.current].amountEur - TotalAllocated(f.periods, f.current, f.categories)
  {
    hide Net, Effects, SumIn, NewPlan, OpeningUnallocated, PlanRows, MonthRows;
    var g := Activated(f, cash, quote);
    var m := f.current;
    ActivatedWellFormed(f, cash, quote);
    var a := Movement(FundingSlot(m), g.plans[m].amountEur);
    var b := Movement(AllocationsSlot(m), -TotalAllocated(f.periods, m, f.categories));
    forall s | InUnallocated(m)(s) ensures Net(Effects(g), s) == Net([a] + [b], s) {
      NetConcat([a], [b], s);
      NetSingle(a, s);
      NetSingle(b, s);
      OpeningNet(f, cash, quote, s);
    }
    SameNetsSameSum(Effects(g), [a] + [b], InUnallocated(m));
    SumConcat([a], [b], InUnallocated(m));
    SumSingle(a, InUnallocated(m));
    SumSingle(b, InUnallocated(m));
  }

  lemma OpeningNet(f: Facts, cash: int, quote: Quote, s: Slot)
    requires Ready(f) && s.month == f.current && s.category == UNALLOCATED
    ensures var g := Activated(f, cash, quote);
            Net(Effects(g), s) ==
            if s == FundingSlot(f.current) then g.plans[f.current].amountEur
            else if s == AllocationsSlot(f.current) then -TotalAllocated(f.periods, f.current, f.categories)
            else 0
  {
    hide Net, Effects, NewPlan, OpeningUnallocated, PlanRows, MonthRows, MarkAll, WellFormed;
    var g := Activated(f, cash, quote);
    var m := f.current;
    ActivatedWellFormed(f, cash, quote);
    if !Proper(g, s) {
      NetImproper(g, s);
    } else {
      NetEffects(g, s);
      if PlanKey(s.key) {
        OpeningPlan(f, cash, quote, s);
      } else {
        NetMonth(g, m, s);
        LegacyRows(g.categories, m, f.transactions, m);
        if s.key.OfTransaction? {
          NetNone(TransactionsRows(g.categories, m, g.transactions), s);
        }
      }
    }
  }

  /** Every receipt of the first plan is one of before. */
  lemma AllLegacy(f: Facts, cash: int, quote: Quote)
    requires Ready(f)
    ensures forall t :: t in Matched(Activated(f, cash, quote).transactions, f.current, f.current) ==> t.treatment == Some(Legacy)
  {
    hide OpeningUnallocated, NewPlan;
    var m := f.current;
    var ts := MarkAll(f.transactions, m);
    MatchedShape(ts, m, m);
    MarkedAt(f.transactions, m);
    forall t | t in Matched(ts, m, m) ensures t.treatment == Some(Legacy) {
      var i :| 0 <= i < |ts| && ts[i] == t;
      assert f.transactions[i] in f.transactions;
    }
  }

  lemma OpeningPlan(f: Facts, cash: int, quote: Quote, s: Slot)
    requires Ready(f) && PlanKey(s.key) && PlanOf(s.key) == f.current
    ensures Net(PlanRows(Activated(f, cash, quote), f.current), s) == 0
  {
    hide Net, OpeningUnallocated, PlanRows, ExcessRows, WellFormed;
    var g := Activated(f, cash, quote);
    var m := f.current;
    ActivatedWellFormed(f, cash, quote);
    NetPlan(g, m, s);
    var rs := Matched(g.transactions, m, m);
    AllLegacy(f, cash, quote);
    NoLegacyExcess(g.cent, g.plans[m], m, rs);
    NetNone([], s);
  }

  /** Unallocated opens as cash less existing budgets plus income still expected. */
  lemma ActivationOpens(f: Facts, cash: int, quote: Quote)
    requires Ready(f)
    ensures var g := Activated(f, cash, quote);
            Unallocated(g, f.current) ==
            cash - LaterCash(f, f.current, f.transactions) - Assigned(Before(f), f.categories, f.current)
            + Outstanding(g, f.current, f.current)
  {
    hide Effects, SumIn, Outstanding, Balance, NewPlan;
    var g := Activated(f, cash, quote);
    OpeningMonth(f, cash, quote);
    assert Unallocated(g, f.current - 1) == g.unallocatedOpening;
    OutstandingSame(Started(f, quote), g, f.current);
  }

  lemma OutstandingSame(f: Facts, g: Facts, plan: Month)
    requires f.cent > 0 && g == f.(unallocatedOpening := g.unallocatedOpening)
    ensures Outstanding(f, plan, plan) == Outstanding(g, plan, plan)
  {
  }

  lemma {:induction false} AssignedKept(f: Facts, cash: int, quote: Quote, cs: seq<Category>)
    requires Ready(f)
    requires forall c :: c in cs ==> UnledgeredIn(f.transactions, c, f.current) == 0
    ensures Assigned(Activated(f, cash, quote), cs, f.current) == Assigned(Before(f), cs, f.current)
  {
    hide Balance, Activated;
    if cs != [] {
      assert cs[|cs| - 1] in cs;
      AssignedKept(f, cash, quote, cs[..|cs| - 1]);
      ActivationKeepsBalance(f, cash, quote, cs[|cs| - 1]);
    }
  }

  lemma {:induction false} MarkedLater(f: Facts, g: Facts, ts: seq<Transaction>)
    requires f.current == g.current && f.today == g.today
    ensures LaterCash(g, g.current, MarkAll(ts, f.current)) == LaterCash(f, f.current, ts)
  {
    if ts != [] {
      var us := MarkAll(ts, f.current);
      assert us[..|us| - 1] == MarkAll(ts[..|ts| - 1], f.current);
      MarkedLater(f, g, ts[..|ts| - 1]);
    }
  }

  /** After activation Unallocated is the projected gap, and categories read as before,
      if no transfer or reconciliation of the month carries a category. */
  lemma ActivationBalances(f: Facts, cash: int, quote: Quote, remaining: map<Category, int>)
    requires Ready(f)
    requires forall c :: c in f.categories ==> UnledgeredIn(f.transactions, c, f.current) == 0
    requires var g := Activated(f, cash, quote);
             forall c :: c in f.categories ==> c in remaining && remaining[c] == Balance(Before(f), c, f.current)
    ensures var g := Activated(f, cash, quote);
            && (forall c :: c in f.categories ==> Balance(g, c, f.current) == remaining[c])
            && Unallocated(g, f.current) == CoverageOf(g, cash, remaining, f.current).projected
  {
    hide Balance, Effects, SumIn, Outstanding, NewPlan, Unallocated;
    var g := Activated(f, cash, quote);
    forall c | c in f.categories ensures Balance(g, c, f.current) == remaining[c] {
      ActivationKeepsBalance(f, cash, quote, c);
    }
    ActivationOpens(f, cash, quote);
    BudgetsBefore(f, remaining, f.categories);
    MarkedLater(f, g, f.transactions);
    assert TotalOutstanding(g, f.current, f.current) == TotalOutstanding(g, f.current - 1, f.current) + Outstanding(g, f.current, f.current);
    assert TotalOutstanding(g, f.current - 1, f.current) == 0;
  }

  lemma {:induction false} BudgetsBefore(f: Facts, remaining: map<Category, int>, cs: seq<Category>)
    requires forall c :: c in cs ==> c in remaining && remaining[c] == Balance(Before(f), c, f.current)
    ensures AssignedOf(remaining, cs) == Assigned(Before(f), cs, f.current)
  {
    hide Balance;
    if cs != [] {
      assert cs[|cs| - 1] in cs;
      BudgetsBefore(f, remaining, cs[..|cs| - 1]);
    }
  }
}
