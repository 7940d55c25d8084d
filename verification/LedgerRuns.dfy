/** Whole runs of the ledger: which steps leave the imbalance alone, and what a run
    of such steps therefore conserves. */
module LedgerRuns {
  import opened LedgerRows
  import opened Rounding
  import opened LedgerFacts
  import opened LedgerEffects
  import opened LedgerThrough
  import opened LedgerBalances
  import opened LedgerSteps
  import opened LedgerTotals
  import opened LedgerConservation
  import opened LedgerSalary

  datatype Step =
    | Create(entry: Transaction)
    | Edit(entry: Transaction)
    | Delete(id: nat)
    | Allocate(changes: map<Category, int>, from: Month)
    | Expect(setting: Setting, from: Month)
    | CompleteIncome(plan: Month)
    | Roll(month: Month, day: nat)
    | Close(closing: Month)

  datatype State = State(facts: Facts, frozen: set<Month>)

  /** A step as the handlers take it: rejected ones change nothing. */
  function Apply(s: State, step: Step, quote: Quote): State
    requires s.facts.cent > 0
  {
    var f := s.facts;
    match step
    case Create(t) => if CanCreate(f, s.frozen, t) then s.(facts := Created(f, t)) else s
    case Edit(t) =>
      if CanEdit(f, s.frozen, t) then s.(facts := Edited(f, Find(f.transactions, t.id).value, t)) else s
    case Delete(id) => if CanDelete(f, s.frozen, id) then s.(facts := Deleted(f, id)) else s
    case Allocate(changes, m) => if CanAllocate(f, changes, m) then s.(facts := AllocatedFrom(f, changes, m)) else s
    case Expect(e, m) => if CanExpect(f, e, m) then s.(facts := ExpectedFrom(f, s.frozen, e, m, quote)) else s
    case CompleteIncome(plan) => if CanComplete(f, plan) then s.(facts := Completed(f, plan)) else s
    case Roll(month, day) => if CanRoll(f, month, day) then s.(facts := Materialised(Rolled(f, month, day), quote)) else s
    case Close(m) => if m < f.current then s.(frozen := s.frozen + {m}) else s
  }

  /** Cash and budget agree on the entry, and its day has come. */
  predicate Backed(f: Facts, t: Transaction)
  {
    Mismatch(f, t) == 0 && !IsLater(f, f.current, t)
  }

  ghost predicate NoneLater(f: Facts)
  {
    forall t :: t in f.transactions ==> !IsLater(f, f.current, t)
  }

  /** The plan splits on whole cents before and after, and receipts from before activation
      fund the same part of it. */
  predicate Smooth(f: Facts, g: Facts, plan: Month)
    requires f.cent > 0 && g.cent > 0
  {
    SplitsWhole(f, plan) && SplitsWhole(g, plan) && LegacyFunds(f, plan) == LegacyFunds(g, plan)
  }

  ghost predicate SettlesSmoothly(f: Facts, g: Facts, t: Transaction)
    requires f.cent > 0 && g.cent > 0
  {
    forall p :: p in f.plans && Matches(t, p, f.current) ==> Smooth(f, g, p)
  }

  /** Steps whose entries are backed by cash and whose plans split on whole cents. */
  ghost predicate Ordinary(s: State, step: Step, quote: Quote)
    requires s.facts.cent > 0
  {
    var f, g := s.facts, Apply(s, step, quote).facts;
    match step
    case Create(t) =>
      CanCreate(f, s.frozen, t) ==>
        var u := WithReceipt(t, Posted(f, t, NoReceipt));
        Backed(f, u) && SettlesSmoothly(f, g, u)
    case Edit(t) =>
      CanEdit(f, s.frozen, t) ==>
        var was := Find(f.transactions, t.id).value;
        var u := WithReceipt(t, Posted(f, t, ReceiptOf(was)));
        Backed(f, was) && Backed(f, u) && SettlesSmoothly(f, g, was) && SettlesSmoothly(f, g, u)
    case Delete(id) =>
      CanDelete(f, s.frozen, id) ==>
        var was := Find(f.transactions, id).value;
        Backed(f, was) && SettlesSmoothly(f, g, was)
    case Expect(e, m) =>
      CanExpect(f, e, m) ==> forall p :: p in f.plans && g.plans[p] != f.plans[p] ==> Smooth(f, g, p)
    case Roll(month, day) =>
      CanRoll(f, month, day) ==> forall p :: p in g.plans && p !in f.plans ==> WellPosted(f.cent, g.plans[p])
    case _ => true
  }

  // ----- each term of the imbalance under each sort of change -----

  lemma {:induction false} MismatchesInsert(f: Facts, ts: seq<Transaction>, t: Transaction)
    ensures Mismatches(f, Insert(ts, t)) == Mismatches(f, ts) + Mismatch(f, t)
  {
    hide Mismatch;
    if ts != [] {
      var front, last := ts[..|ts| - 1], ts[|ts| - 1];
      if Earlier(last, t) {
        assert (ts + [t])[..|ts|] == ts;
      } else {
        MismatchesInsert(f, front, t);
        var u := Insert(front, t) + [last];
        assert u[..|u| - 1] == Insert(front, t);
      }
    }
  }

  lemma MismatchesRemove(f: Facts, ts: seq<Transaction>, t: Transaction)
    requires Ordered(ts) && DistinctIds(ts) && t in ts
    ensures Mismatches(f, Remove(ts, t.id)) == Mismatches(f, ts) - Mismatch(f, t)
  {
    hide Insert, Remove, Mismatches, Mismatch;
    InsertBack(ts, t);
    MismatchesInsert(f, Remove(ts, t.id), t);
  }

  lemma {:induction false} MismatchesSame(f: Facts, g: Facts, ts: seq<Transaction>)
    requires f.categories == g.categories && f.first == g.first && f.start == g.start
    ensures Mismatches(f, ts) == Mismatches(g, ts)
  {
    if ts != [] {
      MismatchesSame(f, g, ts[..|ts| - 1]);
      assert Mismatch(f, ts[|ts| - 1]) == Mismatch(g, ts[|ts| - 1]);
    }
  }

  lemma {:induction false} NothingLater(f: Facts, ts: seq<Transaction>)
    requires forall t :: t in ts ==> !IsLater(f, f.current, t)
    ensures LaterCash(f, f.current, ts) == 0
  {
    if ts != [] {
      assert ts[|ts| - 1] in ts;
      NothingLater(f, ts[..|ts| - 1]);
    }
  }

  lemma {:induction false} BalanceSame(f: Facts, g: Facts, c: Category, m: int)
    requires f.first == g.first && f.start == g.start && f.openings == g.openings
    requires f.transactions == g.transactions && f.corrections == g.corrections
    requires forall k: Month :: k <= m ==> Allocated(f.periods, c, k) == Allocated(g.periods, c, k)
    ensures Balance(f, c, m) == Balance(g, c, m)
    decreases m - f.first
  {
    if m >= f.first {
      BalanceSame(f, g, c, m - 1);
    }
  }

  lemma {:induction false} AssignedSame(f: Facts, g: Facts, cs: seq<Category>, m: int)
    requires f.first == g.first && f.start == g.start && f.openings == g.openings
    requires f.transactions == g.transactions && f.corrections == g.corrections
    requires forall c, k: Month :: k <= m ==> Allocated(f.periods, c, k) == Allocated(g.periods, c, k)
    ensures Assigned(f, cs, m) == Assigned(g, cs, m)
  {
    hide Balance;
    if cs != [] {
      AssignedSame(f, g, cs[..|cs| - 1], m);
      BalanceSame(f, g, cs[|cs| - 1], m);
    }
  }

  ghost predicate SameOpening(f: Facts, g: Facts)
  {
    && g.cent == f.cent && g.first == f.first && g.start == f.start && g.categories == f.categories
    && g.openings == f.openings && g.unallocatedOpening == f.unallocatedOpening && g.corrections == f.corrections
    && (forall c, k: Month :: k < f.start ==> Allocated(f.periods, c, k) == Allocated(g.periods, c, k))
  }

  lemma OpeningSame(f: Facts, g: Facts, base: int)
    requires SameOpening(f, g)
    ensures Opening(f, base) == Opening(g, base)
  {
    AssignedSame(f.(transactions := []), g.(transactions := []), f.categories, f.start - 1);
  }

  lemma {:induction false} DriftsSame(f: Facts, g: Facts, through: int)
    requires f.cent > 0 && g.cent > 0 && f.start == g.start
    requires forall p: Month :: f.start <= p <= through ==> PlanDrift(f, p) == PlanDrift(g, p)
    ensures PlanDrifts(f, through) == PlanDrifts(g, through)
    decreases through - f.start
  {
    hide PlanDrift;
    if through >= f.start {
      DriftsSame(f, g, through - 1);
    }
  }

  lemma {:induction false} MatchedInsert(ts: seq<Transaction>, t: Transaction, p: Month, through: Month)
    requires !Matches(t, p, through)
    ensures Matched(Insert(ts, t), p, through) == Matched(ts, p, through)
  {
    if ts != [] {
      var front, last := ts[..|ts| - 1], ts[|ts| - 1];
      if Earlier(last, t) {
        assert (ts + [t])[..|ts|] == ts;
      } else {
        MatchedInsert(front, t, p, through);
        var u := Insert(front, t) + [last];
        assert u[..|u| - 1] == Insert(front, t);
      }
    }
  }

  lemma {:induction false} MatchedRemove(ts: seq<Transaction>, id: nat, p: Month, through: Month)
    requires forall t :: t in ts && t.id == id ==> !Matches(t, p, through)
    ensures Matched(Remove(ts, id), p, through) == Matched(ts, p, through)
  {
    if ts != [] {
      var front, last := ts[..|ts| - 1], ts[|ts| - 1];
      assert last in ts;
      MatchedRemove(front, id, p, through);
      if last.id == id {
        assert Remove(ts, id) == Remove(front, id);
      } else {
        var u := Remove(front, id) + [last];
        assert u[..|u| - 1] == Remove(front, id);
      }
    }
  }

  /** A plan whose terms and receipts are untouched drifts as before. */
  lemma DriftUntouched(f: Facts, g: Facts, p: Month)
    requires f.cent > 0 && g.cent == f.cent && g.current == f.current
    requires p in f.plans && p in g.plans && f.plans[p] == g.plans[p]
    requires Matched(f.transactions, p, f.current) == Matched(g.transactions, p, f.current)
    ensures PlanDrift(f, p) == PlanDrift(g, p)
  {
    hide FundingPortion, CoveredBy, Matched;
  }

  lemma DriftSmooth(f: Facts, g: Facts, p: Month)
    requires f.cent > 0 && g.cent > 0 && Smooth(f, g, p)
    ensures PlanDrift(f, p) == PlanDrift(g, p)
  {
    hide PlanDrift, SplitsCent, LegacyFunds, WellPosted;
    DriftOfOpenPlan(f, p);
    DriftOfOpenPlan(g, p);
  }

  /** Salary dated after the plan's receipts from before activation settles it smoothly. */
  lemma LaterSalary(f: Facts, t: Transaction)
    requires f.cent > 0 && SettlesPlan(f, t) && t.treatment == Some(Salary)
    requires SplitsWhole(f, t.expected.value) && SplitsWhole(Entered(f, t), t.expected.value)
    requires forall u :: u in f.transactions && u.expected == t.expected && u.treatment == Some(Legacy) ==> Earlier(u, t)
    ensures Smooth(f, Entered(f, t), t.expected.value) && SettlesSmoothly(f, Entered(f, t), t)
  {
    hide Insert, Matched, CoveredBy, SplitsWhole, Earlier;
    var plan := t.expected.value;
    SplitsWholePlan(f, plan);
    LegacyFirst(f.cent, f.plans[plan], f.transactions, t, plan, f.current);
  }

  lemma SplitsWholePlan(f: Facts, plan: Month)
    requires f.cent > 0 && SplitsWhole(f, plan)
    ensures plan in f.plans
  {
  }

  lemma ImbalanceBy(f: Facts, g: Facts, base: int)
    requires WellFormed(f) && g.cent == f.cent && g.current == f.current
    requires SameOpening(f, g)
    requires Mismatches(g, g.transactions) == Mismatches(f, f.transactions)
    requires NoneLater(f) && NoneLater(g)
    requires forall p :: f.start <= p <= f.current ==> PlanDrift(f, p) == PlanDrift(g, p)
    ensures Imbalance(g, base) == Imbalance(f, base)
  {
    hide PlanDrift, Mismatches, CorrectionTotal, LaterCash, Opening;
    OpeningSame(f, g, base);
    DriftsSame(f, g, f.current);
    NothingLater(f, f.transactions);
    NothingLater(g, g.transactions);
  }

  // ----- the steps -----

  /** Only the plan an entry settles can drift by it. */
  lemma {:induction false} DriftsBut(f: Facts, g: Facts, plan: Month, through: int)
    requires f.cent > 0 && g.cent > 0 && f.start == g.start
    requires forall p: Month :: f.start <= p <= through && p != plan ==> PlanDrift(f, p) == PlanDrift(g, p)
    ensures PlanDrifts(g, through) - PlanDrifts(f, through) ==
            if f.start <= plan <= through then PlanDrift(g, plan) - PlanDrift(f, plan) else 0
    decreases through - f.start
  {
    hide PlanDrift;
    if through >= f.start {
      DriftsBut(f, g, plan, through - 1);
    }
  }

  ghost predicate Enterable(f: Facts, t: Transaction)
  {
    && t.month <= f.current && !HasId(f.transactions, t.id) && !IsLater(f, f.current, t)
    && (t.expected.Some? ==> f.start <= t.expected.value <= t.month)
  }

  function Entered(f: Facts, t: Transaction): Facts { f.(transactions := Insert(f.transactions, t)) }

  predicate SettlesPlan(f: Facts, t: Transaction) { t.expected.Some? && Matches(t, t.expected.value, f.current) }

  /** What an entry budgets beyond its cash, and by how much the plan it settles drifts. */
  function Moves(f: Facts, t: Transaction): int
    requires f.cent > 0
  {
    Mismatch(f, t) + if SettlesPlan(f, t) then PlanDrift(Entered(f, t), t.expected.value) - PlanDrift(f, t.expected.value) else 0
  }

  /** What an entry does to the imbalance: it moves it by what it budgets beyond its cash and
      by the drift of the plan it settles, and by nothing else. */
  lemma InsertMoves(f: Facts, t: Transaction, base: int)
    requires WellFormed(f) && NoneLater(f) && Enterable(f, t)
    ensures WellFormed(Entered(f, t)) && NoneLater(Entered(f, t))
    ensures Imbalance(Entered(f, t), base) - Imbalance(f, base) == Moves(f, t)
  {
    hide PlanDrift, PlanDrifts, Mismatch, Insert, Mismatches, CorrectionTotal, LaterCash, Opening;
    var g := Entered(f, t);
    InsertContinues(f, t, -1);
    InsertMembers(f.transactions, t);
    MismatchesInsert(f, f.transactions, t);
    MismatchesSame(f, g, g.transactions);
    OpeningSame(f, g, base);
    NothingLater(f, f.transactions);
    NothingLater(g, g.transactions);
    var plan := if t.expected.Some? then t.expected.value else 0;
    forall p: Month | f.start <= p <= f.current && !Matches(t, p, f.current) ensures PlanDrift(f, p) == PlanDrift(g, p) {
      MatchedInsert(f.transactions, t, p, f.current);
      DriftUntouched(f, g, p);
    }
    DriftsBut(f, g, plan, f.current);
  }

  /** Deleting an entry takes back what entering it would move. */
  lemma RemoveMoves(f: Facts, was: Transaction, base: int)
    requires WellFormed(f) && NoneLater(f) && was in f.transactions
    ensures var g := Deleted(f, was.id);
            && WellFormed(g) && NoneLater(g) && Enterable(g, was) && Entered(g, was) == f
            && Imbalance(g, base) - Imbalance(f, base) == -Moves(g, was)
  {
    hide Imbalance, Moves, Insert, Remove;
    var g := Deleted(f, was.id);
    RemoveContinues(f, was, -1);
    RemoveMembers(f.transactions, was.id);
    RemoveSound(f, was.id);
    InsertBack(f.transactions, was);
    InsertMoves(g, was, base);
  }

  /** An edit is a deletion and an entry. */
  lemma EditMoves(f: Facts, was: Transaction, t: Transaction, base: int)
    requires WellFormed(f) && NoneLater(f) && was in f.transactions && was.id == t.id && was.month == t.month <= f.current
    requires !Posted(f, t, ReceiptOf(was)).Rejected?
    requires !IsLater(f, f.current, WithReceipt(t, Posted(f, t, ReceiptOf(was))))
    ensures var rest, u := Deleted(f, was.id), WithReceipt(t, Posted(f, t, ReceiptOf(was)));
            && WellFormed(rest) && Enterable(rest, u) && Edited(f, was, t) == Entered(rest, u)
            && Imbalance(Edited(f, was, t), base) - Imbalance(f, base) == Moves(rest, u) - Moves(rest, was)
  {
    hide Imbalance, Moves, Insert, Remove;
    var rest, u := Deleted(f, was.id), WithReceipt(t, Posted(f, t, ReceiptOf(was)));
    RemoveMoves(f, was, base);
    NewReceiptSound(f, t, ReceiptOf(was));
    InsertMoves(rest, u, base);
  }

  lemma InsertKeeps(f: Facts, t: Transaction, base: int)
    requires WellFormed(f) && t.month <= f.current && !HasId(f.transactions, t.id)
    requires t.expected.Some? ==> f.start <= t.expected.value <= t.month
    requires NoneLater(f) && Backed(f, t)
    requires SettlesSmoothly(f, f.(transactions := Insert(f.transactions, t)), t)
    ensures var g := f.(transactions := Insert(f.transactions, t));
            WellFormed(g) && NoneLater(g) && Imbalance(g, base) == Imbalance(f, base)
  {
    hide PlanDrift, Imbalance, Smooth, Mismatch, Insert;
    InsertMoves(f, t, base);
    if SettlesPlan(f, t) {
      DriftSmooth(f, Entered(f, t), t.expected.value);
    }
  }

  lemma RemoveKeeps(f: Facts, was: Transaction, base: int)
    requires WellFormed(f) && was in f.transactions
    requires NoneLater(f) && Backed(f, was)
    requires SettlesSmoothly(f, Deleted(f, was.id), was)
    ensures var g := Deleted(f, was.id);
            WellFormed(g) && NoneLater(g) && Imbalance(g, base) == Imbalance(f, base)
  {
    hide PlanDrift, Imbalance, Smooth, Mismatch, Remove;
    var g := Deleted(f, was.id);
    RemoveContinues(f, was, -1);
    RemoveMembers(f.transactions, was.id);
    OneOfId(f, was);
    MismatchesRemove(f, f.transactions, was);
    MismatchesSame(f, g, g.transactions);
    forall p | f.start <= p <= f.current ensures PlanDrift(f, p) == PlanDrift(g, p) {
      if Matches(was, p, f.current) {
        DriftSmooth(f, g, p);
      } else {
        MatchedRemove(f.transactions, was.id, p, f.current);
        DriftUntouched(f, g, p);
      }
    }
    ImbalanceBy(f, g, base);
  }

  lemma EditKeeps(f: Facts, was: Transaction, t: Transaction, base: int)
    requires WellFormed(f) && was in f.transactions && was.id == t.id && was.month == t.month <= f.current
    requires !Posted(f, t, ReceiptOf(was)).Rejected?
    requires var u := WithReceipt(t, Posted(f, t, ReceiptOf(was)));
             NoneLater(f) && Backed(f, was) && Backed(f, u)
             && SettlesSmoothly(f, Edited(f, was, t), was) && SettlesSmoothly(f, Edited(f, was, t), u)
    ensures var g := Edited(f, was, t);
            WellFormed(g) && NoneLater(g) && Imbalance(g, base) == Imbalance(f, base)
  {
    hide PlanDrift, Imbalance, Smooth, Mismatch, Insert, Remove;
    var u := WithReceipt(t, Posted(f, t, ReceiptOf(was)));
    var g := Edited(f, was, t);
    var ts := Remove(f.transactions, was.id);
    EditContinues(f, was, t, -1);
    RemoveMembers(f.transactions, was.id);
    InsertMembers(ts, u);
    OneOfId(f, was);
    MismatchesRemove(f, f.transactions, was);
    MismatchesInsert(f, ts, u);
    MismatchesSame(f, g, g.transactions);
    forall p | f.start <= p <= f.current ensures PlanDrift(f, p) == PlanDrift(g, p) {
      if Matches(was, p, f.current) || Matches(u, p, f.current) {
        DriftSmooth(f, g, p);
      } else {
        MatchedRemove(f.transactions, was.id, p, f.current);
        MatchedInsert(ts, u, p, f.current);
        DriftUntouched(f, g, p);
      }
    }
    ImbalanceBy(f, g, base);
  }

  lemma {:induction false} AllocatedBefore(ps: Periods, changes: map<Category, int>, m: Month, c: Category, k: Month)
    requires k < m
    ensures Allocated(PeriodsFrom(ps, changes, m), c, k) == Allocated(ps, c, k)
  {
    if (c, k) !in ps && k > 0 {
      AllocatedBefore(ps, changes, m, c, k - 1);
    }
  }

  lemma AllocateKeeps(f: Facts, changes: map<Category, int>, m: Month, base: int)
    requires WellFormed(f) && NoneLater(f) && CanAllocate(f, changes, m)
    ensures var g := AllocatedFrom(f, changes, m);
            WellFormed(g) && NoneLater(g) && Imbalance(g, base) == Imbalance(f, base)
  {
    hide PlanDrift, Imbalance, Mismatch, Allocated;
    var g := AllocatedFrom(f, changes, m);
    AllocateContinues(f, changes, m, -1);
    forall c, k: Month | k < f.start ensures Allocated(f.periods, c, k) == Allocated(g.periods, c, k) {
      AllocatedBefore(f.periods, changes, m, c, k);
    }
    MismatchesSame(f, g, g.transactions);
    forall p | f.start <= p <= f.current ensures PlanDrift(f, p) == PlanDrift(g, p) {
      DriftUntouched(f, g, p);
    }
    ImbalanceBy(f, g, base);
  }

  /** A new expectation replans the current month at most; the imbalance moves by its drift. */
  lemma ExpectMoves(f: Facts, frozen: set<Month>, e: Setting, m: Month, quote: Quote, base: int)
    requires WellFormed(f) && NoneLater(f) && CanExpect(f, e, m)
    ensures var g := ExpectedFrom(f, frozen, e, m, quote);
            && WellFormed(g) && NoneLater(g)
            && Imbalance(g, base) - Imbalance(f, base) == PlanDrift(g, f.current) - PlanDrift(f, f.current)
  {
    hide PlanDrift, PlanDrifts, Mismatch, Mismatches, CorrectionTotal, LaterCash, Opening, NewPlan;
    var g := ExpectedFrom(f, frozen, e, m, quote);
    ExpectContinues(f, frozen, e, m, quote, -1);
    OpeningSame(f, g, base);
    MismatchesSame(f, g, g.transactions);
    NothingLater(f, f.transactions);
    NothingLater(g, g.transactions);
    forall p: Month | f.start <= p <= f.current && p != f.current ensures PlanDrift(f, p) == PlanDrift(g, p) {
      DriftUntouched(f, g, p);
    }
    DriftsBut(f, g, f.current, f.current);
  }

  lemma ExpectKeeps(f: Facts, frozen: set<Month>, e: Setting, m: Month, quote: Quote, base: int)
    requires WellFormed(f) && NoneLater(f) && CanExpect(f, e, m)
    requires var g := ExpectedFrom(f, frozen, e, m, quote);
             forall p :: p in f.plans && g.plans[p] != f.plans[p] ==> Smooth(f, g, p)
    ensures var g := ExpectedFrom(f, frozen, e, m, quote);
            WellFormed(g) && NoneLater(g) && Imbalance(g, base) == Imbalance(f, base)
  {
    hide PlanDrift, Imbalance, Mismatch, Smooth;
    var g := ExpectedFrom(f, frozen, e, m, quote);
    ExpectMoves(f, frozen, e, m, quote, base);
    if g.plans[f.current] != f.plans[f.current] {
      DriftSmooth(f, g, f.current);
    } else {
      DriftUntouched(f, g, f.current);
    }
  }

  lemma {:induction false} CoveredBySame(cent: nat, p: Plan, q: Plan, rs: seq<Transaction>, legacy: bool)
    requires cent > 0 && p.amount == q.amount && p.currency == q.currency && p.amountEur == q.amountEur
    ensures Received(cent, p, rs) == Received(cent, q, rs)
    ensures CoveredBy(cent, p, rs, legacy) == CoveredBy(cent, q, rs, legacy)
  {
    hide Proportional;
    if rs != [] {
      CoveredBySame(cent, p, q, rs[..|rs| - 1], legacy);
    }
  }

  /** Completing an expectation writes off exactly what was still outstanding. */
  lemma DriftOfCompletion(f: Facts, plan: Month)
    requires WellFormed(f) && CanComplete(f, plan)
    ensures PlanDrift(Completed(f, plan), plan) == PlanDrift(f, plan)
  {
    hide FundingPortion, CoveredBy, Received;
    var g := Completed(f, plan);
    CoveredBySame(f.cent, f.plans[plan], g.plans[plan], Matched(f.transactions, plan, f.current), false);
  }

  lemma CompleteKeeps(f: Facts, plan: Month, base: int)
    requires WellFormed(f) && NoneLater(f) && CanComplete(f, plan)
    ensures var g := Completed(f, plan);
            WellFormed(g) && NoneLater(g) && Imbalance(g, base) == Imbalance(f, base)
  {
    hide PlanDrift, Imbalance, Mismatch, Outstanding;
    var g := Completed(f, plan);
    CompleteContinues(f, plan, -1);
    MismatchesSame(f, g, g.transactions);
    forall p | f.start <= p <= f.current ensures PlanDrift(f, p) == PlanDrift(g, p) {
      if p == plan {
        DriftOfCompletion(f, plan);
      } else {
        DriftUntouched(f, g, p);
      }
    }
    ImbalanceBy(f, g, base);
  }

  // ----- the calendar moves -----

  lemma {:induction false} CorrectionTotalWider(items: seq<CorrectionItem>, lo: int, hi: int, top: int)
    requires hi <= top && forall i :: i in items ==> i.month <= hi
    ensures CorrectionTotal(items, lo, top) == CorrectionTotal(items, lo, hi)
  {
    if items != [] {
      assert items[|items| - 1] in items;
      CorrectionTotalWider(items[..|items| - 1], lo, hi, top);
    }
  }

  lemma {:induction false} NoneMatched(ts: seq<Transaction>, p: Month, through: Month)
    requires forall t :: t in ts ==> t.expected != Some(p)
    ensures Matched(ts, p, through) == []
  {
    if ts != [] {
      assert ts[|ts| - 1] in ts;
      NoneMatched(ts[..|ts| - 1], p, through);
    }
  }

  lemma DriftRolled(f: Facts, g: Facts, p: Month)
    requires WellFormed(f) && f.cent == g.cent && f.current <= g.current && f.transactions == g.transactions
    requires p in f.plans && p in g.plans && f.plans[p] == g.plans[p]
    ensures PlanDrift(g, p) == PlanDrift(f, p)
  {
    hide FundingPortion, CoveredBy, Received;
    MatchedThrough(f.transactions, p, f.current, g.current);
  }

  lemma DriftOfNewPlan(f: Facts, g: Facts, p: Month)
    requires WellFormed(f) && g.cent == f.cent && g.transactions == f.transactions
    requires p > f.current && p in g.plans && g.plans[p].completed.None? && WellPosted(g.cent, g.plans[p])
    ensures PlanDrift(g, p) == 0
  {
    hide HalfCent, PlanDrift, LegacyFunds;
    NoneMatched(g.transactions, p, g.current);
    WholeNotHalf(g.cent, g.plans[p]);
    DriftOfOpenPlan(g, p);
  }

  lemma {:induction false} DriftsRolled(f: Facts, g: Facts, through: int)
    requires f.cent > 0 && g.cent > 0 && f.start == g.start && f.current <= through
    requires forall p: Month :: f.start <= p <= f.current ==> PlanDrift(f, p) == PlanDrift(g, p)
    requires forall p: Month :: f.current < p <= through ==> PlanDrift(g, p) == 0
    ensures PlanDrifts(g, through) == PlanDrifts(f, f.current)
    decreases through - f.start
  {
    hide PlanDrift;
    if through == f.current {
      DriftsSame(f, g, through);
    } else {
      assert through >= f.start || PlanDrifts(f, f.current) == 0;
      if through >= f.start {
        DriftsRolled(f, g, through - 1);
      }
    }
  }

  lemma RollKeeps(f: Facts, month: Month, day: nat, quote: Quote, base: int)
    requires WellFormed(f) && NoneLater(f) && CanRoll(f, month, day)
    requires var g := Materialised(Rolled(f, month, day), quote);
             forall p :: p in g.plans && p !in f.plans ==> WellPosted(f.cent, g.plans[p])
    ensures var g := Materialised(Rolled(f, month, day), quote);
            WellFormed(g) && NoneLater(g) && Imbalance(g, base) == Imbalance(f, base)
  {
    hide PlanDrift, Mismatch, Mismatches, CorrectionTotal, LaterCash, Opening, WellPosted, PlanDrifts, NewPlan;
    var g := Materialised(Rolled(f, month, day), quote);
    RollContinues(f, month, day, -1);
    RolledWellFormed(f, month, day, quote);
    OpeningSame(f, g, base);
    MismatchesSame(f, g, g.transactions);
    CorrectionTotalWider(f.corrections, f.start, f.current, g.current);
    NothingLater(f, f.transactions);
    NothingLater(g, g.transactions);
    forall p: Month | f.start <= p <= f.current ensures PlanDrift(f, p) == PlanDrift(g, p) {
      DriftRolled(f, g, p);
    }
    forall p: Month | f.current < p <= g.current ensures PlanDrift(g, p) == 0 {
      NewPlanOpen(Rolled(f, month, day), p, quote);
      DriftOfNewPlan(f, g, p);
    }
    DriftsRolled(f, g, g.current);
  }

  lemma NewPlanOpen(f: Facts, p: Month, quote: Quote)
    ensures NewPlan(f, p, quote).completed.None?
  {
  }

  lemma RolledWellFormed(f: Facts, month: Month, day: nat, quote: Quote)
    requires WellFormed(f) && Sound(Rolled(f, month, day))
    ensures WellFormed(Materialised(Rolled(f, month, day), quote))
  {
  }

  // ----- runs -----

  lemma StepKeeps(s: State, step: Step, quote: Quote, base: int)
    requires WellFormed(s.facts) && NoneLater(s.facts) && Ordinary(s, step, quote)
    ensures var g := Apply(s, step, quote).facts;
            WellFormed(g) && NoneLater(g) && Imbalance(g, base) == Imbalance(s.facts, base)
  {
    hide Imbalance, Smooth, Backed, WellPosted;
    var f := s.facts;
    match step
    case Create(t) =>
      if CanCreate(f, s.frozen, t) {
        NewReceiptSound(f, t, NoReceipt);
        InsertKeeps(f, WithReceipt(t, Posted(f, t, NoReceipt)), base);
      }
    case Edit(t) =>
      if CanEdit(f, s.frozen, t) {
        EditKeeps(f, Find(f.transactions, t.id).value, t, base);
      }
    case Delete(id) =>
      if CanDelete(f, s.frozen, id) {
        RemoveKeeps(f, Find(f.transactions, id).value, base);
      }
    case Allocate(changes, m) => if CanAllocate(f, changes, m) { AllocateKeeps(f, changes, m, base); }
    case Expect(e, m) => if CanExpect(f, e, m) { ExpectKeeps(f, s.frozen, e, m, quote, base); }
    case CompleteIncome(plan) => if CanComplete(f, plan) { CompleteKeeps(f, plan, base); }
    case Roll(month, day) => if CanRoll(f, month, day) { RollKeeps(f, month, day, quote, base); }
    case Close(m) =>
  }

  /** A run, each step with the exchange rates of its time. */
  function Run(s: State, steps: seq<(Step, Quote)>): State
    requires WellFormed(s.facts)
  {
    if steps == [] then s
    else
      var before := Run(s, steps[..|steps| - 1]);
      if before.facts.cent > 0 then Apply(before, steps[|steps| - 1].0, steps[|steps| - 1].1) else before
  }

  ghost predicate OrdinaryRun(s: State, steps: seq<(Step, Quote)>)
    requires WellFormed(s.facts)
  {
    steps == [] ||
    (OrdinaryRun(s, steps[..|steps| - 1])
     && var before := Run(s, steps[..|steps| - 1]);
        before.facts.cent > 0 && Ordinary(before, steps[|steps| - 1].0, steps[|steps| - 1].1))
  }

  /** No run of ordinary steps changes the imbalance. */
  lemma {:induction false} RunKeeps(s: State, steps: seq<(Step, Quote)>, base: int)
    requires WellFormed(s.facts) && NoneLater(s.facts) && OrdinaryRun(s, steps)
    ensures var g := Run(s, steps).facts;
            WellFormed(g) && NoneLater(g) && Imbalance(g, base) == Imbalance(s.facts, base)
  {
    hide Imbalance, Ordinary, Apply;
    if steps != [] {
      RunKeeps(s, steps[..|steps| - 1], base);
      StepKeeps(Run(s, steps[..|steps| - 1]), steps[|steps| - 1].0, steps[|steps| - 1].1, base);
    }
  }

  /** Conservation: from a state whose Unallocated is its projected gap, every run of
      ordinary steps ends in such a state. */
  lemma Conservation(s: State, steps: seq<(Step, Quote)>, base: int, before: map<Category, int>, after: map<Category, int>)
    requires WellFormed(s.facts) && NoneLater(s.facts) && OrdinaryRun(s, steps)
    requires forall c :: c in s.facts.categories ==> c in before && before[c] == Balance(s.facts, c, s.facts.current)
    requires var g := Run(s, steps).facts;
             forall c :: c in g.categories ==> c in after && after[c] == Balance(g, c, g.current)
    requires Unallocated(s.facts, s.facts.current)
             == CoverageOf(s.facts, base + CashOf(s.facts.transactions), before, s.facts.current).projected
    ensures var g := Run(s, steps).facts;
            g.cent > 0 && Unallocated(g, g.current) == CoverageOf(g, base + CashOf(g.transactions), after, g.current).projected
  {
    hide Imbalance, Ordinary, Apply, Balance, Unallocated, CoverageOf;
    RunKeeps(s, steps, base);
    var g := Run(s, steps).facts;
    ConservationLaw(s.facts, base + CashOf(s.facts.transactions), base, before);
    ConservationLaw(g, base + CashOf(g.transactions), base, after);
  }

  // ----- which entries are backed -----

  /** In a ledger month an entry is backed when its account is kept in EUR, so that native
      and EUR amounts are the same; a transfer has to take what it brings. Unallocated did
      not exist before activation: what an entry of an earlier month brings to it or takes
      from it is lost. */
  lemma BackedEntries(f: Facts, t: Transaction, r: Receipt)
    requires UNALLOCATED !in f.categories
    requires Acceptable(f, t) && !r.Rejected? && t.month >= f.first
    requires t.kind.Income? ==> r.Linked? && (r.treatment.Salary? ==> r.expected.Some?)
    requires !IsLater(f, f.current, t)
    ensures var u := WithReceipt(t, r);
            if t.month >= f.start then
              match t.kind
              case Expense => Backed(f, u) <==> t.fromEur == t.fromNative
              case Income => Backed(f, u) <==> t.toEur == t.toNative
              case Transfer => Backed(f, u) <==> t.fromNative == t.toNative
              case Reallocate => Backed(f, u)
              case Reconciliation => true
            else
              match t.kind
              case Expense => Backed(f, u) <==> t.fromEur == t.fromNative
              case Income => Backed(f, u) <==> (if t.toCategory == Some(UNALLOCATED) then 0 else t.toEur) == t.toNative
              case Transfer => Backed(f, u) <==> t.fromNative == t.toNative
              case Reallocate => Backed(f, u) <==> t.fromCategory != Some(UNALLOCATED) && t.toCategory != Some(UNALLOCATED)
              case Reconciliation => true
  {
    var u := WithReceipt(t, r);
    if t.kind.Income? && t.month >= f.start {
      assert CashEffect(u) == t.toNative;
      assert BudgetEffect(f.categories, u) + Settling(u) == t.toEur by {
        match r.treatment case Salary => case Unexpected => case Refund => case Legacy =>
      }
    }
  }

  /** Unexpected income of 50 entered in an open month before activation, with native and
      EUR amount alike: cash has it, Unallocated and the categories do not. */
  lemma EarlyIncomeBreaks()
    ensures exists f: Facts, t: Transaction ::
              && WellFormed(f) && NoneLater(f) && CanCreate(f, {}, t) && t.toEur == t.toNative
              && Imbalance(Created(f, t), 0) == Imbalance(f, 0) - 50
  {
    hide Imbalance;
    var t := Transaction(1, Income, 1, 10, 50, "EUR", None, Some(UNALLOCATED), false, true, 0, 50, 0, 50, "EUR", Some(Unexpected), None);
    var f := Facts(1, 1, 2, 2, 28, ["food"], map["food" := 0], 0, map[("food", 1) := 0], map[],
                   map[2 := Plan(0, "EUR", 0, None, 0)], [], []);
    assert WellFormed(f) && NoneLater(f) && CanCreate(f, {}, t) && WithReceipt(t, Posted(f, t, NoReceipt)) == t;
    InsertMoves(f, t, 0);
    assert Mismatch(f, t) == -50;
  }
}
