/** The conservation law of the budget: what Unallocated and the projected gap
    between cash and budgets differ by, exactly, in every state of the ledger. */
module LedgerConservation {
  import opened LedgerRows
  import opened Rounding
  import opened LedgerFacts
  import opened LedgerEffects
  import opened LedgerThrough
  import opened LedgerBalances
  import opened LedgerSteps
  import opened LedgerTotals

  // ----- the terms of the law -----

  /** Salary is budgeted through the plan it settles, not directly. */
  function Settling(t: Transaction): int
  {
    if t.kind.Income? && t.treatment == Some(Salary) && t.expected.Some? then t.toEur else 0
  }

  /** What a transaction dated before activation adds to the category balances. */
  function EarlyEffect(cs: seq<Category>, t: Transaction): int
  {
    (if t.toCategory.Some? && t.toCategory.value in cs then (if t.kind.Reallocate? then Abs(t.amount) else t.toEur) else 0)
    - (if t.fromCategory.Some? && t.fromCategory.value in cs then (if t.kind.Reallocate? then Abs(t.amount) else t.fromEur) else 0)
  }

  /** What a transaction budgets beyond the cash it brings. */
  function Mismatch(f: Facts, t: Transaction): int
  {
    (if t.month >= f.start then BudgetEffect(f.categories, t) + Settling(t)
     else if t.month >= f.first then EarlyEffect(f.categories, t)
     else 0) - CashEffect(t)
  }

  function Mismatches(f: Facts, ts: seq<Transaction>): int
  {
    if ts == [] then 0 else Mismatches(f, ts[..|ts| - 1]) + Mismatch(f, ts[|ts| - 1])
  }

  /** Planned money that is neither still to come, written off, nor funded by salary. */
  function PlanDrift(f: Facts, plan: Month): int
    requires f.cent > 0
  {
    if plan !in f.plans then 0
    else
      f.plans[plan].amountEur - Outstanding(f, plan, f.current) - WrittenOff(f.plans[plan])
      - CoveredBy(f.cent, f.plans[plan], Matched(f.transactions, plan, f.current), false)
  }

  function PlanDrifts(f: Facts, through: int): int
    requires f.cent > 0
    decreases through - f.start
  {
    if through < f.start then 0 else PlanDrifts(f, through - 1) + PlanDrift(f, through)
  }

  /** Budgets and cash that no recorded transaction accounts for. */
  function Opening(f: Facts, base: int): int
  {
    Assigned(f.(transactions := []), f.categories, f.start - 1) + f.unallocatedOpening - base
  }

  function Imbalance(f: Facts, base: int): int
    requires f.cent > 0
  {
    Opening(f, base) + Mismatches(f, f.transactions) - CorrectionTotal(f.corrections, f.start, f.current)
    + PlanDrifts(f, f.current) + LaterCash(f, f.current, f.transactions)
  }

  // ----- salary, plan by plan and transaction by transaction -----

  function SettlingIn(ts: seq<Transaction>, lo: int, hi: int): int
  {
    if ts == [] then 0
    else
      var t := ts[|ts| - 1];
      SettlingIn(ts[..|ts| - 1], lo, hi) + if t.expected.Some? && lo <= t.expected.value <= hi then Settling(t) else 0
  }

  lemma {:induction false} SalaryOfPlan(ts: seq<Transaction>, plan: Month, through: Month)
    requires forall t :: t in ts ==> t.month <= through
    ensures SalaryEur(Matched(ts, plan, through)) == SettlingIn(ts, plan, plan)
  {
    if ts != [] {
      var front, t := ts[..|ts| - 1], ts[|ts| - 1];
      assert t in ts;
      SalaryOfPlan(front, plan, through);
      if Matches(t, plan, through) {
        var rs := Matched(ts, plan, through);
        assert rs[..|rs| - 1] == Matched(front, plan, through);
      } else {
        assert Matched(ts, plan, through) == Matched(front, plan, through);
      }
    }
  }

  lemma {:induction false} SettlingSplit(ts: seq<Transaction>, lo: int, hi: int)
    requires lo <= hi
    ensures SettlingIn(ts, lo, hi) == SettlingIn(ts, lo, hi - 1) + SettlingIn(ts, hi, hi)
  {
    if ts != [] {
      SettlingSplit(ts[..|ts| - 1], lo, hi);
    }
  }

  lemma {:induction false} SettlingNothing(ts: seq<Transaction>, lo: int, hi: int)
    requires hi < lo
    ensures SettlingIn(ts, lo, hi) == 0
  {
    if ts != [] {
      SettlingNothing(ts[..|ts| - 1], lo, hi);
    }
  }

  /** All settlements together: salary received, less what it funds and what was written off. */
  lemma {:induction false} PlansTotal(f: Facts, through: int)
    requires WellFormed(f) && f.start - 1 <= through <= f.current
    ensures SumIn(PlansRows(f, through), Any()) + PlannedTotal(f, through) ==
            SettlingIn(f.transactions, f.start, through) + PlanDrifts(f, through) + TotalOutstanding(f, through, f.current)
    decreases through - f.start
  {
    hide SumIn, PlanRows, Outstanding, CoveredBy, SettlingIn, Matched, SalaryEur;
    if through < f.start {
      SettlingNothing(f.transactions, f.start, through);
      SumNone([], Any());
    } else {
      PlansTotal(f, through - 1);
      PlanTotal(f, through);
      SumConcat(PlansRows(f, through - 1), PlanRows(f, through), Any());
      SalaryOfPlan(f.transactions, through, f.current);
      SettlingSplit(f.transactions, f.start, through);
    }
  }

  // ----- months before activation -----

  function EarlyEffects(cs: seq<Category>, ts: seq<Transaction>, lo: int, hi: int): int
  {
    if ts == [] then 0
    else
      var t := ts[|ts| - 1];
      EarlyEffects(cs, ts[..|ts| - 1], lo, hi) + if lo <= t.month <= hi then EarlyEffect(cs, t) else 0
  }

  function Drain(ts: seq<Transaction>, c: Category, m: Month): int
  {
    SpendingIn(ts, c, m, false) + ImpactIn(ts, c, m)
  }

  function Drains(ts: seq<Transaction>, m: Month, cs: seq<Category>): int
  {
    if cs == [] then 0 else Drains(ts, m, cs[..|cs| - 1]) + Drain(ts, cs[|cs| - 1], m)
  }

  lemma {:induction false} DrainsNothing(m: Month, cs: seq<Category>)
    ensures Drains([], m, cs) == 0
  {
    if cs != [] {
      DrainsNothing(m, cs[..|cs| - 1]);
    }
  }

  lemma {:induction false} DrainsAppend(ts: seq<Transaction>, t: Transaction, m: Month, cs: seq<Category>)
    requires forall i, j :: 0 <= i < j < |cs| ==> cs[i] != cs[j]
    ensures Drains(ts + [t], m, cs) == Drains(ts, m, cs) - if t.month == m then EarlyEffect(cs, t) else 0
  {
    if cs != [] {
      var front, last := cs[..|cs| - 1], cs[|cs| - 1];
      DrainsAppend(ts, t, m, front);
      assert (ts + [t])[..|ts|] == ts;
      assert forall c :: c in cs <==> c in front || c == last;
    }
  }

  /** A month before activation takes out of all categories what its transactions take. */
  lemma {:induction false} DrainsAre(ts: seq<Transaction>, m: Month, cs: seq<Category>)
    requires forall i, j :: 0 <= i < j < |cs| ==> cs[i] != cs[j]
    ensures Drains(ts, m, cs) == -EarlyEffects(cs, ts, m, m)
  {
    hide EarlyEffect;
    if ts == [] {
      DrainsNothing(m, cs);
    } else {
      var front, t := ts[..|ts| - 1], ts[|ts| - 1];
      assert ts == front + [t];
      DrainsAre(front, m, cs);
      DrainsAppend(front, t, m, cs);
    }
  }

  lemma {:induction false} EarlyEffectsSplit(cs: seq<Category>, ts: seq<Transaction>, lo: int, hi: int)
    requires lo <= hi
    ensures EarlyEffects(cs, ts, lo, hi) == EarlyEffects(cs, ts, lo, hi - 1) + EarlyEffects(cs, ts, hi, hi)
  {
    hide EarlyEffect;
    if ts != [] {
      EarlyEffectsSplit(cs, ts[..|ts| - 1], lo, hi);
    }
  }

  lemma {:induction false} EarlyEffectsNothing(cs: seq<Category>, ts: seq<Transaction>, lo: int, hi: int)
    requires hi < lo
    ensures EarlyEffects(cs, ts, lo, hi) == 0
  {
    if ts != [] {
      EarlyEffectsNothing(cs, ts[..|ts| - 1], lo, hi);
    }
  }

  lemma {:induction false} AssignedStep(f: Facts, cs: seq<Category>, m: Month)
    requires f.first <= m < f.start
    ensures var g := f.(transactions := []);
            Assigned(f, cs, m) - Assigned(g, cs, m) == Assigned(f, cs, m - 1) - Assigned(g, cs, m - 1) - Drains(f.transactions, m, cs)
  {
    if cs != [] {
      AssignedStep(f, cs[..|cs| - 1], m);
    }
  }

  lemma {:induction false} AssignedBefore(f: Facts, cs: seq<Category>, m: int)
    requires m < f.first
    ensures Assigned(f, cs, m) == Assigned(f.(transactions := []), cs, m)
  {
    if cs != [] {
      AssignedBefore(f, cs[..|cs| - 1], m);
    }
  }

  lemma {:induction false} EarlyAssigned(f: Facts, m: int)
    requires f.first - 1 <= m < f.start
    requires forall i, j :: 0 <= i < j < |f.categories| ==> f.categories[i] != f.categories[j]
    ensures Assigned(f, f.categories, m) ==
            Assigned(f.(transactions := []), f.categories, m) + EarlyEffects(f.categories, f.transactions, f.first, m)
    decreases m - f.first
  {
    hide Assigned, EarlyEffects, Drains;
    if m < f.first {
      AssignedBefore(f, f.categories, m);
      EarlyEffectsNothing(f.categories, f.transactions, f.first, m);
    } else {
      EarlyAssigned(f, m - 1);
      AssignedStep(f, f.categories, m);
      DrainsAre(f.transactions, m, f.categories);
      EarlyEffectsSplit(f.categories, f.transactions, f.first, m);
    }
  }

  // ----- the law -----

  lemma {:induction false} MismatchesAre(f: Facts, ts: seq<Transaction>)
    requires f.first <= f.start
    requires forall t :: t in ts ==> t.month <= f.current && (t.expected.Some? ==> f.start <= t.expected.value <= t.month)
    ensures Mismatches(f, ts) ==
            BudgetEffects(f.categories, ts, f.start, f.current) + SettlingIn(ts, f.start, f.current)
            + EarlyEffects(f.categories, ts, f.first, f.start - 1) - CashOf(ts)
  {
    hide BudgetEffect, EarlyEffect, CashEffect;
    if ts != [] {
      assert ts[|ts| - 1] in ts;
      MismatchesAre(f, ts[..|ts| - 1]);
    }
  }

  lemma EffectsTotal(f: Facts)
    requires WellFormed(f)
    ensures SumIn(Effects(f), UpTo(f.current)) ==
            BudgetEffects(f.categories, f.transactions, f.start, f.current) - CorrectionTotal(f.corrections, f.start, f.current)
            + SettlingIn(f.transactions, f.start, f.current) + PlanDrifts(f, f.current) + TotalOutstanding(f, f.current, f.current)
  {
    hide SumIn, BudgetEffects, CorrectionTotal, SettlingIn, PlanDrifts, TotalOutstanding, PlannedTotal;
    EffectsReal(f);
    SumSame(Effects(f), UpTo(f.current), Any());
    SumConcat(MonthsRows(f, f.current), PlansRows(f, f.current), Any());
    MonthsTotal(f, f.current);
    PlansTotal(f, f.current);
  }

  lemma {:induction false} AssignedOfBalances(f: Facts, remaining: map<Category, int>, cs: seq<Category>, m: int)
    requires forall c :: c in cs ==> c in remaining && remaining[c] == Balance(f, c, m)
    ensures AssignedOf(remaining, cs) == Assigned(f, cs, m)
  {
    hide Balance;
    if cs != [] {
      assert cs[|cs| - 1] in cs;
      AssignedOfBalances(f, remaining, cs[..|cs| - 1], m);
    }
  }

  /** In every well-formed state Unallocated exceeds the projected gap of the coverage
      report by the imbalance: nothing else can make the two differ. */
  lemma ConservationLaw(f: Facts, cash: int, base: int, remaining: map<Category, int>)
    requires WellFormed(f) && cash == base + CashOf(f.transactions)
    requires forall c :: c in f.categories ==> c in remaining && remaining[c] == Balance(f, c, f.current)
    ensures Unallocated(f, f.current) - CoverageOf(f, cash, remaining, f.current).projected == Imbalance(f, base)
  {
    hide SumIn, Effects, BudgetEffects, CorrectionTotal, SettlingIn, PlanDrifts, TotalOutstanding, EarlyEffects,
         Mismatches, Assigned, Balance, CashOf, LaterCash, Unallocated;
    PositionMoves(f, f.current);
    EffectsTotal(f);
    EarlyAssigned(f, f.start - 1);
    MismatchesAre(f, f.transactions);
    AssignedOfBalances(f, remaining, f.categories, f.current);
  }
}
