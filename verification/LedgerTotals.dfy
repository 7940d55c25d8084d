/** Everything the facts call for, added up: category balances plus Unallocated
    move by exactly the plan, the transactions and the settlements. */
module LedgerTotals {
  import opened LedgerRows
  import opened Rounding
  import opened LedgerFacts
  import opened LedgerEffects
  import opened LedgerThrough
  import opened LedgerBalances
  import opened LedgerSteps

  ghost function Any(): Slot -> bool { (s: Slot) => true }

  ghost function InMonth(m: Month): Slot -> bool { (s: Slot) => s.month == m }

  ghost function InCategory(m: Month, c: Category): Slot -> bool
  {
    (s: Slot) => s.month == m && s.category == c
  }

  // ----- a month's movements, split by category -----

  ghost function SumOver(rows: seq<Movement>, m: Month, cs: seq<Category>): int
  {
    if cs == [] then 0 else SumOver(rows, m, cs[..|cs| - 1]) + SumIn(rows, InCategory(m, cs[|cs| - 1]))
  }

  lemma {:induction false} SumOverNothing(m: Month, cs: seq<Category>)
    ensures SumOver([], m, cs) == 0
  {
    if cs != [] {
      SumOverNothing(m, cs[..|cs| - 1]);
    }
  }

  lemma {:induction false} SumOverAppend(rows: seq<Movement>, r: Movement, m: Month, cs: seq<Category>)
    requires forall i, j :: 0 <= i < j < |cs| ==> cs[i] != cs[j]
    ensures SumOver(rows + [r], m, cs) ==
            SumOver(rows, m, cs) + if r.slot.month == m && r.slot.category in cs then r.amount else 0
  {
    if cs != [] {
      var front, last := cs[..|cs| - 1], cs[|cs| - 1];
      SumOverAppend(rows, r, m, front);
      SumAppend(rows, r, InCategory(m, last));
      assert r.slot.category in cs <==> r.slot.category in front || r.slot.category == last;
    }
  }

  lemma {:induction false} SplitByCategory(rows: seq<Movement>, m: Month, cs: seq<Category>)
    requires UNALLOCATED !in cs && forall i, j :: 0 <= i < j < |cs| ==> cs[i] != cs[j]
    requires forall i :: 0 <= i < |rows| ==> Real(cs, rows[i].slot.category)
    ensures SumIn(rows, InMonth(m)) == SumIn(rows, InUnallocated(m)) + SumOver(rows, m, cs)
  {
    if rows == [] {
      SumOverNothing(m, cs);
    } else {
      var front, r := rows[..|rows| - 1], rows[|rows| - 1];
      assert rows == front + [r];
      SplitByCategory(front, m, cs);
      SumAppend(front, r, InMonth(m));
      SumAppend(front, r, InUnallocated(m));
      SumOverAppend(front, r, m, cs);
    }
  }

  // ----- a category's month -----

  lemma {:induction false} SumSplit(rows: seq<Movement>, p: Slot -> bool, q: Slot -> bool, r: Slot -> bool)
    requires forall i :: 0 <= i < |rows| ==> (p(rows[i].slot) <==> q(rows[i].slot) || r(rows[i].slot))
    requires forall i :: 0 <= i < |rows| ==> !(q(rows[i].slot) && r(rows[i].slot))
    ensures SumIn(rows, p) == SumIn(rows, q) + SumIn(rows, r)
  {
    if rows != [] {
      SumSplit(rows[..|rows| - 1], p, q, r);
    }
  }

  lemma {:induction false} CorrectionSum(m: Month, items: seq<CorrectionItem>, c: Category)
    ensures SumIn(CorrectionRows(m, items), InCategory(m, c)) == -CorrectionIn(items, c, m)
  {
    if items != [] {
      var front, last := items[..|items| - 1], items[|items| - 1];
      CorrectionSum(m, front, c);
      if last.month == m {
        SumAppend(CorrectionRows(m, front), Movement(CorrectionSlot(last), -last.delta), InCategory(m, c));
      } else {
        assert CorrectionRows(m, items) == CorrectionRows(m, front);
      }
    }
  }

  lemma CategoryMonth(f: Facts, c: Category, m: Month)
    requires Sound(f) && c in f.categories
    ensures SumIn(MonthRows(f, m), InCategory(m, c)) ==
            Allocated(f.periods, c, m) - SpendingIn(f.transactions, c, m, true)
            - ImpactIn(f.transactions, c, m) - CorrectionIn(f.corrections, c, m)
  {
    hide SumIn;
    var p := InCategory(m, c);
    MonthSumParts(f, m, p);
    AllocationRowsShape(f.periods, m, f.categories);
    SumSame(AllocationRows(f.periods, m, f.categories), p, InSlot(m, c, Allocation));
    AllocationSum(f.periods, m, f.categories, c);
    TransactionsRowsShape(f.categories, m, f.transactions);
    SumSplit(TransactionsRows(f.categories, m, f.transactions), p, InSlot(m, c, Spending), InSlot(m, c, Reallocation));
    TransactionsSum(f.categories, m, f.transactions, c);
    CorrectionSum(m, f.corrections, c);
  }

  /** What a ledger month does to a category is the sum of its movements. */
  lemma BalanceMoves(f: Facts, c: Category, m: Month)
    requires WellFormed(f) && c in f.categories && f.start <= m <= f.current
    ensures Balance(f, c, m) == Balance(f, c, m - 1) + SumIn(Effects(f), InCategory(m, c))
  {
    hide Net, Effects, SumIn;
    forall s | InCategory(m, c)(s) ensures Net(Effects(f), s) == Net(MonthRows(f, m), s) {
      if Proper(f, s) {
        NetEffects(f, s);
      } else {
        NetImproper(f, s);
        MonthRowsShape(f, m);
        NetNone(MonthRows(f, m), s);
      }
    }
    SameNetsSameSum(Effects(f), MonthRows(f, m), InCategory(m, c));
    CategoryMonth(f, c, m);
  }

  // ----- all categories and Unallocated together -----

  function Assigned(f: Facts, cs: seq<Category>, m: int): int
  {
    if cs == [] then 0 else Assigned(f, cs[..|cs| - 1], m) + Balance(f, cs[|cs| - 1], m)
  }

  lemma {:induction false} AssignedMoves(f: Facts, cs: seq<Category>, m: Month)
    requires WellFormed(f) && f.start <= m <= f.current
    requires forall c :: c in cs ==> c in f.categories
    ensures Assigned(f, cs, m) == Assigned(f, cs, m - 1) + SumOver(Effects(f), m, cs)
  {
    hide Effects, Balance;
    if cs != [] {
      AssignedMoves(f, cs[..|cs| - 1], m);
      BalanceMoves(f, cs[|cs| - 1], m);
    }
  }

  lemma {:induction false} MonthsRowsReal(f: Facts, through: int)
    requires WellFormed(f) && through <= f.current
    ensures forall i :: 0 <= i < |MonthsRows(f, through)| ==>
              var s := MonthsRows(f, through)[i].slot; Real(f.categories, s.category) && f.start <= s.month <= through
    decreases through - f.start
  {
    if through >= f.start {
      MonthsRowsReal(f, through - 1);
      MonthRowsShape(f, through);
    }
  }

  lemma {:induction false} PlansRowsReal(f: Facts, through: int)
    requires WellFormed(f) && through <= f.current
    ensures forall i :: 0 <= i < |PlansRows(f, through)| ==>
              var s := PlansRows(f, through)[i].slot; Real(f.categories, s.category) && f.start <= s.month <= f.current
    decreases through - f.start
  {
    hide PlanRows;
    if through >= f.start {
      PlansRowsReal(f, through - 1);
      PlanRowsShape(f, through);
    }
  }

  lemma EffectsReal(f: Facts)
    requires WellFormed(f)
    ensures forall i :: 0 <= i < |Effects(f)| ==>
              var s := Effects(f)[i].slot; Real(f.categories, s.category) && f.start <= s.month <= f.current
  {
    MonthsRowsReal(f, f.current);
    PlansRowsReal(f, f.current);
  }

  ghost function UpTo(m: int): Slot -> bool { (s: Slot) => s.month <= m }

  /** From activation on, assigned budgets and Unallocated together change by the sum of all movements. */
  lemma {:induction false} PositionMoves(f: Facts, m: int)
    requires WellFormed(f) && f.start - 1 <= m <= f.current
    ensures Assigned(f, f.categories, m) + Unallocated(f, m) ==
            Assigned(f, f.categories, f.start - 1) + f.unallocatedOpening + SumIn(Effects(f), UpTo(m))
    decreases m - f.start
  {
    hide Effects, SumIn, Assigned;
    EffectsReal(f);
    if m < f.start {
      SumNone(Effects(f), UpTo(m));
    } else {
      PositionMoves(f, m - 1);
      AssignedMoves(f, f.categories, m);
      SplitByCategory(Effects(f), m, f.categories);
      SumSplit(Effects(f), UpTo(m), UpTo(m - 1), InMonth(m));
    }
  }

  // ----- the sum of all movements, by cause -----

  /** What a transaction adds to the ledger as a whole. */
  function BudgetEffect(cs: seq<Category>, t: Transaction): int
  {
    if t.kind.Transfer? || t.kind.Reconciliation? then 0
    else if t.kind.Income? && t.treatment != Some(Refund) && t.treatment != Some(Legacy) then
      if t.treatment == Some(Unexpected) || t.treatment.None? then t.toEur else 0
    else
      (if t.toCategory.Some? && Real(cs, t.toCategory.value) then (if t.kind.Reallocate? then Abs(t.amount) else t.toEur) else 0)
      - (if t.fromCategory.Some? && Real(cs, t.fromCategory.value) then (if t.kind.Reallocate? then Abs(t.amount) else t.fromEur) else 0)
  }

  lemma TransactionTotal(cs: seq<Category>, t: Transaction)
    ensures SumIn(TransactionRows(cs, t), Any()) == BudgetEffect(cs, t)
  {
    hide SumIn;
    var a, b := SideRows(cs, t, t.fromCategory, t.fromEur, false), SideRows(cs, t, t.toCategory, t.toEur, true);
    SumConcat(a, b, Any());
    SumNone([], Any());
    if a != [] { SumSingle(a[0], Any()); assert a == [a[0]]; }
    if b != [] { SumSingle(b[0], Any()); assert b == [b[0]]; }
    SumSingle(Movement(Slot(t.month, UNALLOCATED, Receipt, OfTransaction(t.id)), t.toEur), Any());
  }

  function BudgetEffects(cs: seq<Category>, ts: seq<Transaction>, lo: int, hi: int): int
  {
    if ts == [] then 0
    else
      var t := ts[|ts| - 1];
      BudgetEffects(cs, ts[..|ts| - 1], lo, hi) + if lo <= t.month <= hi then BudgetEffect(cs, t) else 0
  }

  lemma {:induction false} TransactionsTotal(cs: seq<Category>, m: Month, ts: seq<Transaction>)
    ensures SumIn(TransactionsRows(cs, m, ts), Any()) == BudgetEffects(cs, ts, m, m)
  {
    hide TransactionRows, BudgetEffect;
    if ts != [] {
      var front, t := ts[..|ts| - 1], ts[|ts| - 1];
      TransactionsTotal(cs, m, front);
      TransactionTotal(cs, t);
      SumConcat(TransactionsRows(cs, m, front), if t.month == m then TransactionRows(cs, t) else [], Any());
    }
  }

  lemma {:induction false} BudgetEffectsSplit(cs: seq<Category>, ts: seq<Transaction>, lo: int, hi: int)
    requires lo <= hi
    ensures BudgetEffects(cs, ts, lo, hi) == BudgetEffects(cs, ts, lo, hi - 1) + BudgetEffects(cs, ts, hi, hi)
  {
    hide BudgetEffect;
    if ts != [] {
      BudgetEffectsSplit(cs, ts[..|ts| - 1], lo, hi);
    }
  }

  function CorrectionTotal(items: seq<CorrectionItem>, lo: int, hi: int): int
  {
    if items == [] then 0
    else
      var i := items[|items| - 1];
      CorrectionTotal(items[..|items| - 1], lo, hi) + if lo <= i.month <= hi then i.delta else 0
  }

  lemma {:induction false} CorrectionsTotal(m: Month, items: seq<CorrectionItem>)
    ensures SumIn(CorrectionRows(m, items), Any()) == -CorrectionTotal(items, m, m)
  {
    if items != [] {
      var front, last := items[..|items| - 1], items[|items| - 1];
      CorrectionsTotal(m, front);
      if last.month == m {
        SumAppend(CorrectionRows(m, front), Movement(CorrectionSlot(last), -last.delta), Any());
      } else {
        assert CorrectionRows(m, items) == CorrectionRows(m, front);
      }
    }
  }

  lemma {:induction false} CorrectionTotalSplit(items: seq<CorrectionItem>, lo: int, hi: int)
    requires lo <= hi
    ensures CorrectionTotal(items, lo, hi) == CorrectionTotal(items, lo, hi - 1) + CorrectionTotal(items, hi, hi)
  {
    if items != [] {
      CorrectionTotalSplit(items[..|items| - 1], lo, hi);
    }
  }

  lemma {:induction false} AllocationsTotal(ps: Periods, m: Month, cs: seq<Category>)
    ensures SumIn(AllocationRows(ps, m, cs), Any()) == TotalAllocated(ps, m, cs)
  {
    if cs != [] {
      var front, last := cs[..|cs| - 1], cs[|cs| - 1];
      AllocationsTotal(ps, m, front);
      SumAppend(AllocationRows(ps, m, front), Movement(AllocationSlot(m, last), Allocated(ps, last, m)), Any());
    }
  }

  /** Allocations cancel: a month's movements add up to plan, transactions and corrections. */
  ghost function OfKind(m: Month, k: MovementKind): Slot -> bool
  {
    (s: Slot) => s.month == m && s.kind == k
  }

  /** In a table in line with the facts, what a month gives to its categories it takes
      from Unallocated. */
  lemma AllocationsBalance(f: Facts, rows: seq<Movement>, m: Month)
    requires WellFormed(f) && f.start <= m <= f.current
    requires forall s :: Net(rows, s) == Net(Effects(f), s)
    ensures SumIn(rows, OfKind(m, Allocation)) == 0
  {
    hide Net, SumIn, Effects, MonthRows;
    var p := OfKind(m, Allocation);
    forall s | p(s) ensures Net(rows, s) == Net(MonthRows(f, m), s) {
      if Proper(f, s) {
        NetEffects(f, s);
      } else {
        NetImproper(f, s);
        MonthRowsShape(f, m);
        NetNone(MonthRows(f, m), s);
      }
    }
    SameNetsSameSum(rows, MonthRows(f, m), p);
    MonthSumParts(f, m, p);
    AllocationRowsShape(f.periods, m, f.categories);
    TransactionsRowsShape(f.categories, m, f.transactions);
    CorrectionRowsShape(m, f.corrections);
    SumSame(AllocationRows(f.periods, m, f.categories), p, Any());
    AllocationsTotal(f.periods, m, f.categories);
    SumNone(TransactionsRows(f.categories, m, f.transactions), p);
    SumNone(CorrectionRows(m, f.corrections), p);
  }

  lemma MonthTotal(f: Facts, m: Month)
    ensures SumIn(MonthRows(f, m), Any()) ==
            PlannedEur(f.plans, m) + BudgetEffects(f.categories, f.transactions, m, m) - CorrectionTotal(f.corrections, m, m)
  {
    hide SumIn;
    MonthSumParts(f, m, Any());
    AllocationsTotal(f.periods, m, f.categories);
    TransactionsTotal(f.categories, m, f.transactions);
    CorrectionsTotal(m, f.corrections);
  }

  function PlannedTotal(f: Facts, through: int): int
    decreases through - f.start
  {
    if through < f.start then 0 else PlannedTotal(f, through - 1) + PlannedEur(f.plans, through)
  }

  lemma {:induction false} NothingSoFar(cs: seq<Category>, ts: seq<Transaction>, items: seq<CorrectionItem>, lo: int, hi: int)
    requires hi < lo
    ensures BudgetEffects(cs, ts, lo, hi) == 0 && CorrectionTotal(items, lo, hi) == 0
    decreases |ts|, |items|
  {
    if ts != [] {
      NothingSoFar(cs, ts[..|ts| - 1], items, lo, hi);
    } else if items != [] {
      NothingSoFar(cs, ts, items[..|items| - 1], lo, hi);
    }
  }

  lemma {:induction false} MonthsTotal(f: Facts, through: int)
    requires f.start - 1 <= through
    ensures SumIn(MonthsRows(f, through), Any()) ==
            PlannedTotal(f, through) + BudgetEffects(f.categories, f.transactions, f.start, through)
            - CorrectionTotal(f.corrections, f.start, through)
    decreases through - f.start
  {
    hide SumIn, BudgetEffects, CorrectionTotal, MonthRows;
    if through < f.start {
      NothingSoFar(f.categories, f.transactions, f.corrections, f.start, through);
      SumNone([], Any());
    } else {
      MonthsTotal(f, through - 1);
      MonthTotal(f, through);
      SumConcat(MonthsRows(f, through - 1), MonthRows(f, through), Any());
      BudgetEffectsSplit(f.categories, f.transactions, f.start, through);
      CorrectionTotalSplit(f.corrections, f.start, through);
    }
  }

  // ----- settlements -----

  /** EUR value of the receipts of one plan that are not legacy. */
  function SalaryEur(rs: seq<Transaction>): int
  {
    if rs == [] then 0
    else SalaryEur(rs[..|rs| - 1]) + if rs[|rs| - 1].treatment == Some(Legacy) then 0 else rs[|rs| - 1].toEur
  }

  /** The part of the plan funded by receipts of the given sort. */
  function CoveredBy(cent: nat, p: Plan, rs: seq<Transaction>, legacy: bool): int
    requires cent > 0
  {
    if rs == [] then 0
    else
      var before, t := rs[..|rs| - 1], rs[|rs| - 1];
      CoveredBy(cent, p, before, legacy)
      + if (t.treatment == Some(Legacy)) == legacy then Covered(cent, p, Received(cent, p, before), t) else 0
  }

  /** The excess recorded for a plan is what its salary brought beyond what it funded. */
  lemma {:induction false} ExcessTotal(cent: nat, p: Plan, plan: Month, rs: seq<Transaction>)
    requires cent > 0
    ensures SumIn(ExcessRows(cent, p, plan, rs), Any()) == SalaryEur(rs) - CoveredBy(cent, p, rs, false)
  {
    hide Covered;
    if rs != [] {
      var before, t := rs[..|rs| - 1], rs[|rs| - 1];
      ExcessTotal(cent, p, plan, before);
      var r := Movement(ExcessSlot(plan, t.month), t.toEur - Covered(cent, p, Received(cent, p, before), t));
      if t.treatment == Some(Legacy) {
        assert ExcessRows(cent, p, plan, rs) == ExcessRows(cent, p, plan, before);
      } else {
        SumAppend(ExcessRows(cent, p, plan, before), r, Any());
      }
    }
  }

  /** Receipt by receipt rounding telescopes: all receipts together cover what their sum covers. */
  lemma {:induction false} CoverageTelescopes(cent: nat, p: Plan, rs: seq<Transaction>)
    requires cent > 0
    ensures CoveredBy(cent, p, rs, false) + CoveredBy(cent, p, rs, true) ==
            FundingPortion(cent, Capped(p, Received(cent, p, rs)), p) - FundingPortion(cent, Capped(p, 0), p)
  {
    hide FundingPortion, Capped, Native;
    if rs != [] {
      CoverageTelescopes(cent, p, rs[..|rs| - 1]);
    }
  }

  function WrittenOff(p: Plan): int { if p.completed.Some? then p.shortfall else 0 }

  lemma PlanTotal(f: Facts, plan: Month)
    requires WellFormed(f) && plan in f.plans
    ensures var rs := Matched(f.transactions, plan, f.current);
            SumIn(PlanRows(f, plan), Any()) ==
            SalaryEur(rs) - CoveredBy(f.cent, f.plans[plan], rs, false) - WrittenOff(f.plans[plan])
  {
    hide SumIn, CoveredBy, SalaryEur, ExcessRows, Matched;
    var p := f.plans[plan];
    var rs := Matched(f.transactions, plan, f.current);
    ExcessTotal(f.cent, p, plan, rs);
    SumConcat(ExcessRows(f.cent, p, plan, rs), CompletionRows(p, plan), Any());
    if p.completed.Some? {
      SumSingle(CompletionRows(p, plan)[0], Any());
    } else {
      SumNone(CompletionRows(p, plan), Any());
    }
  }
}
