/** What the movements called for by the facts hold slot by slot. */
module LedgerEffects {
  import opened LedgerRows
  import opened Rounding
  import opened LedgerFacts

  /** Slots a movement of these facts can have. */
  ghost predicate Proper(f: Facts, s: Slot)
  {
    && f.start <= s.month <= f.current
    && Real(f.categories, s.category)
    && match s.key
       case Expected(_) => s == FundingSlot(s.month)
       case AllocationOf(_, c) => c in f.categories && s == AllocationSlot(s.month, c)
       case Allocations(_) => s == AllocationsSlot(s.month)
       case OfTransaction(_) => s.kind.Spending? || s.kind.Reallocation? || s.kind.Receipt?
       case OfCorrection(_, _) => exists i :: i in f.corrections && s == CorrectionSlot(i)
       case Excess(p) => p in f.plans && s == ExcessSlot(p, s.month)
       case Complete(p) => p in f.plans && f.plans[p].completed == Some(s.month) && s == CompleteSlot(p, s.month)
  }

  ghost predicate AllProper(f: Facts, rows: seq<Movement>)
  {
    forall i :: 0 <= i < |rows| ==> Proper(f, rows[i].slot)
  }

  ghost predicate PlanKey(k: SourceKey) { k.Excess? || k.Complete? }

  // ----- shape of each part -----

  lemma {:induction false} AllocationRowsShape(ps: Periods, m: Month, cs: seq<Category>)
    ensures forall i :: 0 <= i < |AllocationRows(ps, m, cs)| ==>
              var s := AllocationRows(ps, m, cs)[i].slot; s.category in cs && s == AllocationSlot(m, s.category)
  {
    if cs != [] {
      AllocationRowsShape(ps, m, cs[..|cs| - 1]);
    }
  }

  lemma {:induction false} TransactionsRowsShape(cs: seq<Category>, m: Month, ts: seq<Transaction>)
    ensures forall i :: 0 <= i < |TransactionsRows(cs, m, ts)| ==>
              var s := TransactionsRows(cs, m, ts)[i].slot;
              && s.key.OfTransaction? && s.month == m && Real(cs, s.category)
              && (s.kind.Spending? || s.kind.Reallocation? || (s.kind.Receipt? && s.category == UNALLOCATED))
              && exists t :: t in ts && s.key == OfTransaction(t.id)
  {
    if ts != [] {
      var t := ts[|ts| - 1];
      TransactionsRowsShape(cs, m, ts[..|ts| - 1]);
      assert t in ts;
      assert forall i :: 0 <= i < |TransactionRows(cs, t)| ==>
        var s := TransactionRows(cs, t)[i].slot; s.key == OfTransaction(t.id) && s.month == t.month && Real(cs, s.category);
    }
  }

  ghost predicate CorrectsAt(cs: seq<CorrectionItem>, m: Month, s: Slot)
  {
    exists c :: c in cs && c.month == m && s == CorrectionSlot(c)
  }

  lemma {:induction false} CorrectionRowsShape(m: Month, cs: seq<CorrectionItem>)
    ensures forall i :: 0 <= i < |CorrectionRows(m, cs)| ==>
              CorrectsAt(cs, m, CorrectionRows(m, cs)[i].slot)
  {
    if cs != [] {
      var front, last := cs[..|cs| - 1], cs[|cs| - 1];
      CorrectionRowsShape(m, front);
      forall s | CorrectsAt(front, m, s) ensures CorrectsAt(cs, m, s) {
        var c :| c in front && c.month == m && s == CorrectionSlot(c);
        assert c in cs;
      }
      assert last in cs;
    }
  }

  lemma {:induction false} MatchedShape(ts: seq<Transaction>, plan: Month, through: Month)
    ensures forall t :: t in Matched(ts, plan, through) ==> t in ts && Matches(t, plan, through)
  {
    if ts != [] {
      MatchedShape(ts[..|ts| - 1], plan, through);
    }
  }

  ghost predicate ExceedsAt(rs: seq<Transaction>, plan: Month, s: Slot)
  {
    exists t :: t in rs && s == ExcessSlot(plan, t.month)
  }

  lemma {:induction false} ExcessRowsShape(cent: nat, p: Plan, plan: Month, rs: seq<Transaction>)
    requires cent > 0
    ensures forall i :: 0 <= i < |ExcessRows(cent, p, plan, rs)| ==>
              ExceedsAt(rs, plan, ExcessRows(cent, p, plan, rs)[i].slot)
  {
    if rs != [] {
      var front, last := rs[..|rs| - 1], rs[|rs| - 1];
      ExcessRowsShape(cent, p, plan, front);
      forall s | ExceedsAt(front, plan, s) ensures ExceedsAt(rs, plan, s) {
        var t :| t in front && s == ExcessSlot(plan, t.month);
        assert t in rs;
      }
      assert last in rs;
    }
  }

  lemma MonthRowsShape(f: Facts, m: Month)
    requires Sound(f) && f.start <= m <= f.current
    ensures AllProper(f, MonthRows(f, m))
    ensures forall i :: 0 <= i < |MonthRows(f, m)| ==>
              MonthRows(f, m)[i].slot.month == m && !PlanKey(MonthRows(f, m)[i].slot.key)
  {
    AllocationRowsShape(f.periods, m, f.categories);
    TransactionsRowsShape(f.categories, m, f.transactions);
    CorrectionRowsShape(m, f.corrections);
  }

  lemma PlanRowsShape(f: Facts, plan: Month)
    requires WellFormed(f)
    ensures AllProper(f, PlanRows(f, plan))
    ensures forall i :: 0 <= i < |PlanRows(f, plan)| ==>
              var s := PlanRows(f, plan)[i].slot; s.month >= plan && (s.key == Excess(plan) || s.key == Complete(plan))
  {
    hide Proportional;
    if plan in f.plans {
      var rs := Matched(f.transactions, plan, f.current);
      MatchedShape(f.transactions, plan, f.current);
      ExcessRowsShape(f.cent, f.plans[plan], plan, rs);
    }
  }

  // ----- locating a slot among all months and plans -----

  lemma {:induction false} NetMonths(f: Facts, through: int, s: Slot)
    requires WellFormed(f) && through <= f.current
    ensures Net(MonthsRows(f, through), s) ==
            if f.start <= s.month <= through && !PlanKey(s.key) then Net(MonthRows(f, s.month), s) else 0
    decreases through - f.start
  {
    if through >= f.start {
      NetMonths(f, through - 1, s);
      NetConcat(MonthsRows(f, through - 1), MonthRows(f, through), s);
      MonthRowsShape(f, through);
      if s.month != through || PlanKey(s.key) {
        NetNone(MonthRows(f, through), s);
      }
    }
  }

  ghost function PlanOf(k: SourceKey): int
  {
    match k case Excess(p) => p case Complete(p) => p case _ => -1
  }

  lemma NetPlanElsewhere(f: Facts, plan: Month, s: Slot)
    requires WellFormed(f) && PlanOf(s.key) != plan
    ensures Net(PlanRows(f, plan), s) == 0
  {
    hide Proportional;
    PlanRowsShape(f, plan);
    var rows := PlanRows(f, plan);
    forall i | 0 <= i < |rows| ensures rows[i].slot != s {
      assert PlanOf(rows[i].slot.key) == plan;
    }
    NetNone(rows, s);
  }

  lemma NetPlansStep(f: Facts, through: int, s: Slot)
    requires f.cent > 0 && through >= f.start
    ensures Net(PlansRows(f, through), s) == Net(PlansRows(f, through - 1), s) + Net(PlanRows(f, through), s)
  {
    hide Proportional;
    var a, b := PlansRows(f, through - 1), PlanRows(f, through);
    assert PlansRows(f, through) == a + b;
    NetConcat(a, b, s);
  }

  lemma {:induction false} NetPlansElsewhere(f: Facts, through: int, s: Slot)
    requires f.cent > 0
    requires forall p: Month :: f.start <= p <= through ==> Net(PlanRows(f, p), s) == 0
    ensures Net(PlansRows(f, through), s) == 0
    decreases through - f.start
  {
    hide Proportional;
    if through >= f.start {
      NetPlansElsewhere(f, through - 1, s);
      NetPlansStep(f, through, s);
    }
  }

  lemma {:induction false} NetPlansAt(f: Facts, through: int, s: Slot, plan: Month)
    requires f.cent > 0 && f.start <= plan <= through
    requires forall p: Month :: f.start <= p <= through && p != plan ==> Net(PlanRows(f, p), s) == 0
    ensures Net(PlansRows(f, through), s) == Net(PlanRows(f, plan), s)
    decreases through - f.start
  {
    hide Proportional;
    NetPlansStep(f, through, s);
    if through == plan {
      NetPlansElsewhere(f, through - 1, s);
    } else {
      NetPlansAt(f, through - 1, s, plan);
    }
  }

  lemma NetPlans(f: Facts, s: Slot)
    requires WellFormed(f)
    ensures Net(PlansRows(f, f.current), s) ==
            if f.start <= PlanOf(s.key) <= f.current then Net(PlanRows(f, PlanOf(s.key)), s) else 0
  {
    forall p: Month | p != PlanOf(s.key) ensures Net(PlanRows(f, p), s) == 0 {
      NetPlanElsewhere(f, p, s);
    }
    if f.start <= PlanOf(s.key) <= f.current {
      NetPlansAt(f, f.current, s, PlanOf(s.key));
    } else {
      NetPlansElsewhere(f, f.current, s);
    }
  }

  lemma NetEffects(f: Facts, s: Slot)
    requires WellFormed(f)
    ensures Net(Effects(f), s) ==
            if PlanKey(s.key) then
              if f.start <= PlanOf(s.key) <= f.current then Net(PlanRows(f, PlanOf(s.key)), s) else 0
            else if f.start <= s.month <= f.current then Net(MonthRows(f, s.month), s) else 0
  {
    hide Proportional;
    NetConcat(MonthsRows(f, f.current), PlansRows(f, f.current), s);
    NetMonths(f, f.current, s);
    NetPlans(f, s);
  }

  lemma NetImproper(f: Facts, s: Slot)
    requires WellFormed(f) && !Proper(f, s)
    ensures Net(Effects(f), s) == 0
  {
    hide Proportional;
    NetEffects(f, s);
    if PlanKey(s.key) {
      if f.start <= PlanOf(s.key) <= f.current {
        PlanRowsShape(f, PlanOf(s.key));
        NetNone(PlanRows(f, PlanOf(s.key)), s);
      }
    } else if f.start <= s.month <= f.current {
      MonthRowsShape(f, s.month);
      NetNone(MonthRows(f, s.month), s);
    }
  }

  // ----- the amount each pass of sync wants -----

  lemma NetMonthParts(f: Facts, m: Month, s: Slot)
    ensures Net(MonthRows(f, m), s) ==
            (if s == FundingSlot(m) then PlannedEur(f.plans, m) else 0)
            + Net(AllocationRows(f.periods, m, f.categories), s)
            + (if s == AllocationsSlot(m) then -TotalAllocated(f.periods, m, f.categories) else 0)
            + Net(TransactionsRows(f.categories, m, f.transactions), s)
            + Net(CorrectionRows(m, f.corrections), s)
  {
    var a := [Movement(FundingSlot(m), PlannedEur(f.plans, m))];
    var b := AllocationRows(f.periods, m, f.categories);
    var c := [Movement(AllocationsSlot(m), -TotalAllocated(f.periods, m, f.categories))];
    var d := TransactionsRows(f.categories, m, f.transactions);
    var e := CorrectionRows(m, f.corrections);
    NetConcat(a + b + c + d, e, s);
    NetConcat(a + b + c, d, s);
    NetAppend(a + b, c[0], s);
    NetConcat(a, b, s);
    assert a == [] + a;
    NetAppend([], a[0], s);
  }

  /** Only the part that writes a key of this sort says what the slot holds. */
  lemma NetMonth(f: Facts, m: Month, s: Slot)
    ensures Net(MonthRows(f, m), s) ==
            match s.key
            case Expected(_) => if s == FundingSlot(m) then PlannedEur(f.plans, m) else 0
            case AllocationOf(_, _) => Net(AllocationRows(f.periods, m, f.categories), s)
            case Allocations(_) => if s == AllocationsSlot(m) then -TotalAllocated(f.periods, m, f.categories) else 0
            case OfTransaction(_) => Net(TransactionsRows(f.categories, m, f.transactions), s)
            case OfCorrection(_, _) => Net(CorrectionRows(m, f.corrections), s)
            case Excess(_) => 0
            case Complete(_) => 0
  {
    NetMonthParts(f, m, s);
    AllocationRowsShape(f.periods, m, f.categories);
    TransactionsRowsShape(f.categories, m, f.transactions);
    CorrectionRowsShape(m, f.corrections);
    if !s.key.AllocationOf? { NetNone(AllocationRows(f.periods, m, f.categories), s); }
    if !s.key.OfTransaction? { NetNone(TransactionsRows(f.categories, m, f.transactions), s); }
    if !s.key.OfCorrection? { NetNone(CorrectionRows(m, f.corrections), s); }
  }

  lemma {:induction false} NetAllocation(ps: Periods, m: Month, cs: seq<Category>, c: Category)
    requires forall i, j :: 0 <= i < j < |cs| ==> cs[i] != cs[j]
    ensures Net(AllocationRows(ps, m, cs), AllocationSlot(m, c)) == if c in cs then Allocated(ps, c, m) else 0
  {
    if cs != [] {
      var front, last := cs[..|cs| - 1], cs[|cs| - 1];
      NetAllocation(ps, m, front, c);
      NetAppend(AllocationRows(ps, m, front), Movement(AllocationSlot(m, last), Allocated(ps, last, m)), AllocationSlot(m, c));
      assert c in cs <==> c in front || c == last;
    }
  }

  lemma {:induction false} NetCorrection(m: Month, cs: seq<CorrectionItem>, k: nat)
    requires forall i, j :: 0 <= i < j < |cs| ==> cs[i].operation != cs[j].operation || cs[i].category != cs[j].category
    requires k < |cs| && cs[k].month == m
    ensures Net(CorrectionRows(m, cs), CorrectionSlot(cs[k])) == -cs[k].delta
  {
    var front, last := cs[..|cs| - 1], cs[|cs| - 1];
    NetConcat(CorrectionRows(m, front), if last.month == m then [Movement(CorrectionSlot(last), -last.delta)] else [], CorrectionSlot(cs[k]));
    if k == |cs| - 1 {
      CorrectionRowsShape(m, front);
      NetNone(CorrectionRows(m, front), CorrectionSlot(cs[k]));
      NetAppend([], Movement(CorrectionSlot(last), -last.delta), CorrectionSlot(cs[k]));
    } else {
      NetCorrection(m, front, k);
      if last.month == m {
        NetAppend([], Movement(CorrectionSlot(last), -last.delta), CorrectionSlot(cs[k]));
      }
    }
  }

  lemma NetPlan(f: Facts, plan: Month, s: Slot)
    requires WellFormed(f) && plan in f.plans
    ensures s.key.Excess? ==>
              Net(PlanRows(f, plan), s) ==
              Net(ExcessRows(f.cent, f.plans[plan], plan, Matched(f.transactions, plan, f.current)), s)
    ensures s.key.Complete? ==>
              Net(PlanRows(f, plan), s) ==
              if f.plans[plan].completed.Some? && s == CompleteSlot(plan, f.plans[plan].completed.value)
              then -f.plans[plan].shortfall else 0
  {
    hide Net, ExcessRows, Matched;
    var p := f.plans[plan];
    var rs := Matched(f.transactions, plan, f.current);
    var a, b := ExcessRows(f.cent, p, plan, rs), CompletionRows(p, plan);
    NetConcat(a, b, s);
    ExcessRowsShape(f.cent, p, plan, rs);
    if s.key.Complete? { NetNone(a, s); }
    if p.completed.Some? {
      NetSingle(b[0], s);
      assert b == [b[0]];
    } else {
      NetNone(b, s);
    }
  }

  /** Reconciling keeps every movement proper: an improper slot has nothing to move. */
  lemma KeepsProper(f: Facts, a: seq<Movement>, b: seq<Movement>, scope: iset<Slot>, target: seq<Movement>)
    requires AllProper(f, a) && Reconciles(a, b, scope, target)
    requires AllProper(f, target)
    ensures AllProper(f, b)
  {
    forall i | 0 <= i < |b| ensures Proper(f, b[i].slot) {
      if i < |a| {
        assert b[i] == a[i];
      } else if !Proper(f, b[i].slot) {
        NetNone(a, b[i].slot);
        NetNone(target, b[i].slot);
      }
    }
  }
}
