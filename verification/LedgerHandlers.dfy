/** What a caller of the write handlers is promised, in terms of the tables alone. */
module LedgerHandlers {
  import opened LedgerRows
  import opened Rounding
  import opened LedgerFacts
  import opened LedgerEffects
  import opened LedgerSteps

  // ----- allocations and expectations: the setting with the latest start counts -----

  /** Of all settings that start on or before m, the one of k starts last. */
  ghost predicate LatestStart(starts: iset<Month>, m: Month, k: Month)
  {
    k in starts && k <= m && forall j :: j in starts && j <= m ==> j <= k
  }

  ghost function AllocationStarts(ps: Periods, c: Category): iset<Month> { iset k: Month | (c, k) in ps }

  ghost function ExpectationStarts(es: map<Month, Setting>): iset<Month> { iset k: Month | k in es }

  /** The allocation of a month is the one that started last; without any it is nothing. */
  lemma {:induction false} AllocatedIs(ps: Periods, c: Category, m: Month)
    ensures forall k :: LatestStart(AllocationStarts(ps, c), m, k) ==> Allocated(ps, c, m) == ps[(c, k)]
    ensures (forall k: Month :: k <= m ==> (c, k) !in ps) ==> Allocated(ps, c, m) == 0
    ensures Monthly(ps, c, m).Some? <==> exists k: Month :: k <= m && (c, k) in ps
    decreases m
  {
    if (c, m) !in ps && m > 0 {
      AllocatedIs(ps, c, m - 1);
      forall k | LatestStart(AllocationStarts(ps, c), m, k) ensures Allocated(ps, c, m) == ps[(c, k)] {
        assert k != m;
        assert LatestStart(AllocationStarts(ps, c), m - 1, k);
      }
    } else {
      forall k | LatestStart(AllocationStarts(ps, c), m, k) ensures k == m && (c, m) in ps {
        assert (c, m) in ps ==> m in AllocationStarts(ps, c);
      }
    }
  }

  /** New amounts hold from their month on, until another setting of the category starts;
      earlier months and other categories keep theirs. */
  lemma {:induction false} AllocatedSince(ps: Periods, changes: map<Category, int>, from: Month, c: Category, k: Month)
    ensures c in changes && k >= from && (forall j: Month :: from < j <= k ==> (c, j) !in ps) ==>
              Allocated(PeriodsFrom(ps, changes, from), c, k) == changes[c]
    ensures c !in changes || k < from ==> Allocated(PeriodsFrom(ps, changes, from), c, k) == Allocated(ps, c, k)
    decreases k
  {
    if k > 0 {
      AllocatedSince(ps, changes, from, c, k - 1);
    }
  }

  /** The expectation of a month: the setting that started last, or 10000 USD. */
  ghost predicate SettingFor(es: map<Month, Setting>, cent: nat, m: Month, e: Setting)
  {
    || (exists k :: LatestStart(ExpectationStarts(es), m, k) && e == es[k])
    || ((forall k :: k in es ==> k > m) && e == Setting(1_000_000 * cent, "USD"))
  }

  lemma {:induction false} SettingIs(es: map<Month, Setting>, cent: nat, m: Month)
    ensures SettingFor(es, cent, m, SettingAt(es, cent, m))
    decreases m
  {
    if m in es {
      assert LatestStart(ExpectationStarts(es), m, m);
    } else if m > 0 {
      SettingIs(es, cent, m - 1);
      if k :| LatestStart(ExpectationStarts(es), m - 1, k) && SettingAt(es, cent, m - 1) == es[k] {
        assert LatestStart(ExpectationStarts(es), m, k);
      }
    }
  }

  /** A month's plan as its setting has it, open and nothing written off. */
  ghost predicate PlannedAs(es: map<Month, Setting>, cent: nat, m: Month, quote: Quote, p: Plan)
  {
    exists e :: SettingFor(es, cent, m, e) && p == Plan(e.amount, e.currency, quote(e.amount, e.currency, m), None, 0)
  }

  lemma NewPlanIs(f: Facts, m: Month, quote: Quote)
    ensures PlannedAs(f.expectations, f.cent, m, quote, NewPlan(f, m, quote))
  {
    SettingIs(f.expectations, f.cent, m);
  }

  /** Open, unclosed months from m on follow the settings anew; all others keep their plan. */
  ghost predicate Replanned(f: Facts, g: Facts, frozen: set<Month>, e: Setting, m: Month, quote: Quote)
  {
    && g.expectations == f.expectations[m := e] && g.plans.Keys == f.plans.Keys
    && forall k :: k in f.plans ==>
         if k >= m && f.plans[k].completed.None? && k !in frozen then PlannedAs(g.expectations, g.cent, k, quote, g.plans[k])
         else g.plans[k] == f.plans[k]
  }

  lemma ExpectedIs(f: Facts, frozen: set<Month>, e: Setting, m: Month, quote: Quote)
    ensures Replanned(f, ExpectedFrom(f, frozen, e, m, quote), frozen, e, m, quote)
  {
    hide NewPlan, PlannedAs;
    var h := f.(expectations := f.expectations[m := e]);
    forall k: Month ensures PlannedAs(h.expectations, h.cent, k, quote, NewPlan(h, k, quote)) {
      NewPlanIs(h, k, quote);
    }
  }

  /** Every month from activation to now has a plan: the one it had, or its setting's. */
  ghost predicate PlansMade(f: Facts, g: Facts, quote: Quote)
  {
    && (forall m :: m in g.plans <==> g.start <= m <= g.current)
    && forall m :: m in g.plans ==> if m in f.plans then g.plans[m] == f.plans[m] else PlannedAs(g.expectations, g.cent, m, quote, g.plans[m])
  }

  lemma MaterialisedIs(f: Facts, quote: Quote)
    ensures PlansMade(f, Materialised(f, quote), quote)
  {
    hide NewPlan, PlannedAs;
    forall m: Month ensures PlannedAs(f.expectations, f.cent, m, quote, NewPlan(f, m, quote)) {
      NewPlanIs(f, m, quote);
    }
  }

  // ----- entries -----

  /** Which sides an entry has, and what may stand there. */
  ghost predicate SidesFit(f: Facts, t: Transaction)
  {
    && t.amount > 0 && !t.kind.Reconciliation?
    && (t.fromAccount <==> t.kind.Expense? || t.kind.Transfer?)
    && (t.toAccount <==> t.kind.Income? || t.kind.Transfer?)
    && (t.fromCategory.Some? <==> t.kind.Expense? || t.kind.Reallocate?)
    && (t.toCategory.Some? <==> t.kind.Income? || t.kind.Reallocate?)
    && (t.fromCategory.Some? ==> t.fromCategory.value in f.categories || (t.fromCategory.value == UNALLOCATED && t.kind.Reallocate?))
    && (t.toCategory.Some? ==>
          || t.toCategory.value in f.categories
          || (t.toCategory.value == UNALLOCATED && !(t.kind.Income? && t.treatment == Some(Refund))))
    && (t.kind.Reallocate? ==> t.fromCategory != t.toCategory)
  }

  /** The entry asks for no treatment and no month. */
  predicate AsksNothing(t: Transaction) { t.treatment.None? && t.expected.None? }

  predicate HasReceipt(was: Option<Transaction>) { was.Some? && was.value.treatment.Some? }

  /** Income asked to settle `plan`, by name or because it is of that month. */
  predicate AsksFor(t: Transaction, plan: Month)
  {
    (t.treatment.None? || t.treatment == Some(Salary)) && (t.expected == Some(plan) || (t.expected.None? && t.month == plan))
  }

  /** A plan takes salary of its month or later, until completed; then only the salary it has. */
  predicate TakesSalary(f: Facts, t: Transaction, was: Option<Transaction>, plan: Month)
  {
    && f.start <= plan <= t.month && plan in f.plans
    && (f.plans[plan].completed.None? || (was.Some? && was.value.treatment == Some(Salary) && was.value.expected == Some(plan)))
  }

  ghost predicate TreatmentFits(f: Facts, t: Transaction, was: Option<Transaction>)
  {
    if !t.kind.Income? || (AsksNothing(t) && HasReceipt(was)) then AsksNothing(t)
    else
      || ((t.treatment == Some(Unexpected) || t.treatment == Some(Refund)) && t.expected.None?)
      || (exists plan :: AsksFor(t, plan) && TakesSalary(f, t, was, plan))
  }

  /** What is stored for entry t, in place of `was` if there is one. */
  ghost predicate StoredFor(t: Transaction, was: Option<Transaction>, u: Transaction)
  {
    && u == t.(treatment := u.treatment, expected := u.expected)
    && (t.kind.Income? && AsksNothing(t) && !HasReceipt(was) ==> u.treatment == Some(Salary) && u.expected == Some(t.month))
    && (t.kind.Income? && AsksNothing(t) && HasReceipt(was) ==> u.treatment == was.value.treatment && u.expected == was.value.expected)
    && (t.kind.Income? && t.expected.Some? ==> u.treatment == Some(Salary) && u.expected == t.expected)
    && (t.kind.Income? && t.treatment == Some(Salary) && t.expected.None? ==> u.treatment == Some(Salary) && u.expected == Some(t.month))
    && (t.kind.Income? && (t.treatment == Some(Unexpected) || t.treatment == Some(Refund)) ==> u.treatment == t.treatment && u.expected.None?)
    && (!t.kind.Income? ==>
          if was.Some? && was.value.treatment == Some(Legacy) then u.treatment == Some(Legacy) && u.expected == was.value.expected
          else u.treatment.None? && u.expected.None?)
  }

  function ReceiptBefore(was: Option<Transaction>): Receipt
  {
    match was case None => NoReceipt case Some(t) => ReceiptOf(t)
  }

  /** The receipt chosen for an entry is the one it asks for. */
  lemma PostedIs(f: Facts, t: Transaction, was: Option<Transaction>)
    ensures TreatmentFits(f, t, was) <==> !Posted(f, t, ReceiptBefore(was)).Rejected?
    ensures TreatmentFits(f, t, was) ==> StoredFor(t, was, WithReceipt(t, Posted(f, t, ReceiptBefore(was))))
  {
    var plan := if t.expected.Some? then t.expected.value else t.month;
    assert forall q :: AsksFor(t, q) ==> q == plan;
    assert AsksFor(t, plan) <==> t.treatment.None? || t.treatment == Some(Salary);
  }

  lemma AcceptableIs(f: Facts, t: Transaction)
    requires UNALLOCATED !in f.categories
    ensures SidesFit(f, t) <==> Acceptable(f, t)
  {
  }

  // ----- how far a plan is received -----

  /** Receipts of a plan: salary and legacy income that names it, dated up to a month. */
  lemma {:induction false} MatchedIs(ts: seq<Transaction>, plan: Month, through: Month, t: Transaction)
    ensures t in Matched(ts, plan, through) <==>
              && t in ts && t.kind.Income? && t.expected == Some(plan) && t.month <= through
              && t.treatment in {Some(Salary), Some(Legacy)}
  {
    if ts != [] {
      MatchedIs(ts[..|ts| - 1], plan, through, t);
      assert ts == ts[..|ts| - 1] + [ts[|ts| - 1]];
    }
  }

  /** What a receipt counts: its amount in the plan's currency, that of the account in it,
      or its EUR value in proportion to the plan. */
  ghost predicate Counts(cent: nat, p: Plan, t: Transaction, native: int)
    requires cent > 0
  {
    && (t.inputCurrency == p.currency ==> native == t.amount)
    && (t.inputCurrency != p.currency && t.toCurrency == p.currency ==> native == t.toNative)
    && (t.inputCurrency != p.currency && t.toCurrency != p.currency ==>
          if p.amountEur == 0 then native == 0
          else exists units ::
                 && native == units * cent
                 && Nearest(if p.amountEur > 0 then t.toEur * p.amount else -(t.toEur * p.amount), Abs(p.amountEur) * cent, units))
  }

  lemma NativeCounts(cent: nat, p: Plan, t: Transaction)
    requires cent > 0
    ensures Counts(cent, p, t, Native(cent, p, t))
  {
    hide HalfEven, Nearest;
    if t.inputCurrency != p.currency && t.toCurrency != p.currency && p.amountEur != 0 {
      var n := if p.amountEur > 0 then t.toEur * p.amount else -(t.toEur * p.amount);
      var d := if p.amountEur > 0 then p.amountEur * cent else -p.amountEur * cent;
      MulMonotone(1, Abs(p.amountEur), cent);
      HalfEvenNearest(n, d, HalfEven(n, d));
      assert Native(cent, p, t) == HalfEven(n, d) * cent;
    }
  }

  lemma {:induction false} ReceivedInsert(cent: nat, p: Plan, ts: seq<Transaction>, t: Transaction, plan: Month, through: Month)
    requires cent > 0
    ensures Received(cent, p, Matched(Insert(ts, t), plan, through)) ==
            Received(cent, p, Matched(ts, plan, through)) + if Matches(t, plan, through) then Native(cent, p, t) else 0
  {
    hide Native, Matches, Received, Matched, Earlier;
    if ts == [] {
      ReceivedAppend(cent, p, [], t, plan, through);
      assert [] + [t] == [t];
    } else {
      var front, last := ts[..|ts| - 1], ts[|ts| - 1];
      assert ts == front + [last];
      if Earlier(last, t) {
        ReceivedAppend(cent, p, ts, t, plan, through);
      } else {
        ReceivedInsert(cent, p, front, t, plan, through);
        ReceivedAppend(cent, p, front, last, plan, through);
        ReceivedAppend(cent, p, Insert(front, t), last, plan, through);
      }
    }
  }

  lemma ReceivedAppend(cent: nat, p: Plan, ts: seq<Transaction>, t: Transaction, plan: Month, through: Month)
    requires cent > 0
    ensures Received(cent, p, Matched(ts + [t], plan, through)) ==
            Received(cent, p, Matched(ts, plan, through)) + if Matches(t, plan, through) then Native(cent, p, t) else 0
  {
    hide Native, Matches;
    assert (ts + [t])[..|ts|] == ts;
    var rs := Matched(ts, plan, through);
    if Matches(t, plan, through) {
      assert (rs + [t])[..|rs|] == rs;
    } else {
      assert rs + [] == rs;
    }
  }

  /** What a plan has received, in its own currency, as seen from now. */
  function ReceivedOf(f: Facts, plan: Month): int
    requires f.cent > 0
  {
    if plan in f.plans then Received(f.cent, f.plans[plan], Matched(f.transactions, plan, f.current)) else 0
  }

  /** EUR value of the rest of a plan: its part of the planned EUR, to the nearest cent. */
  ghost predicate RestOf(cent: nat, p: Plan, rest: int, eur: int)
    requires cent > 0
  {
    exists units :: eur == units * cent && Nearest(rest * p.amountEur, p.amount * cent, units)
  }

  /** Nothing is outstanding of a plan that is completed or fully received; else its rest. */
  lemma OutstandingIs(f: Facts, plan: Month)
    requires f.cent > 0 && plan in f.plans && f.plans[plan].amount >= 0
    ensures var p := f.plans[plan];
            if (p.completed.Some? && p.completed.value <= f.current) || p.amount == 0 || p.amount <= ReceivedOf(f, plan)
            then Outstanding(f, plan, f.current) == 0
            else RestOf(f.cent, p, p.amount - ReceivedOf(f, plan), Outstanding(f, plan, f.current))
  {
    hide HalfEven, Nearest, Received, Matched;
    var p := f.plans[plan];
    if p.amount > 0 {
      var rest := Positive(p.amount - ReceivedOf(f, plan));
      var n, d := rest * p.amountEur, p.amount * f.cent;
      MulMonotone(1, p.amount, f.cent);
      HalfEvenNearest(n, d, HalfEven(n, d));
      assert FundingPortion(f.cent, rest, p) == HalfEven(n, d) * f.cent;
      if rest == 0 {
        assert n == 0 * d;
        HalfEvenWhole(0, d);
      }
    }
  }

  predicate IsReceipt(f: Facts, u: Transaction, plan: Month)
  {
    u.kind.Income? && u.expected == Some(plan) && u.month <= f.current && (u.treatment == Some(Salary) || u.treatment == Some(Legacy))
  }

  /** g is f with u entered: the ordered table gains u and nothing else, and only the plan u
      is a receipt of has received more, namely what u counts. */
  ghost predicate WithEntry(f: Facts, g: Facts, u: Transaction)
  {
    && f.cent > 0 && g == f.(transactions := g.transactions)
    && Ordered(g.transactions) && |g.transactions| == |f.transactions| + 1
    && (forall v :: v in g.transactions <==> v in f.transactions || v == u)
    && (forall p :: p in f.plans ==>
          if IsReceipt(f, u, p) then Counts(f.cent, f.plans[p], u, ReceivedOf(g, p) - ReceivedOf(f, p))
          else ReceivedOf(g, p) == ReceivedOf(f, p))
  }

  lemma {:induction false} InsertLength(ts: seq<Transaction>, t: Transaction)
    ensures |Insert(ts, t)| == |ts| + 1
  {
    if ts != [] && !Earlier(ts[|ts| - 1], t) {
      InsertLength(ts[..|ts| - 1], t);
    }
  }

  lemma EntryIs(f: Facts, u: Transaction)
    requires f.cent > 0 && Ordered(f.transactions) && DistinctIds(f.transactions) && !HasId(f.transactions, u.id)
    ensures WithEntry(f, f.(transactions := Insert(f.transactions, u)), u)
  {
    hide Insert, Matched, Received, Native, Counts, Ordered, DistinctIds;
    var g := f.(transactions := Insert(f.transactions, u));
    InsertMembers(f.transactions, u);
    InsertLength(f.transactions, u);
    InsertOrdered(f.transactions, u);
    forall p | p in f.plans
      ensures if IsReceipt(f, u, p) then Counts(f.cent, f.plans[p], u, ReceivedOf(g, p) - ReceivedOf(f, p))
              else ReceivedOf(g, p) == ReceivedOf(f, p)
    {
      ReceivedInsert(f.cent, f.plans[p], f.transactions, u, p, f.current);
      NativeCounts(f.cent, f.plans[p], u);
    }
  }

  /** Deleting takes out the entry and what it counted. */
  lemma DeletionIs(f: Facts, was: Transaction)
    requires Sound(f) && was in f.transactions
    ensures WithEntry(Deleted(f, was.id), f, was)
  {
    hide Insert, Remove, Matched, Received, Native, Counts, Ordered, DistinctIds;
    RemoveSound(f, was.id);
    InsertBack(f.transactions, was);
    EntryIs(Deleted(f, was.id), was);
  }

  lemma EditIs(f: Facts, was: Transaction, t: Transaction)
    requires Sound(f) && was in f.transactions && was.id == t.id && !Posted(f, t, ReceiptOf(was)).Rejected?
    ensures var rest, u := Deleted(f, was.id), WithReceipt(t, Posted(f, t, ReceiptOf(was)));
            WithEntry(rest, f, was) && WithEntry(rest, Edited(f, was, t), u) && StoredFor(t, Some(was), u)
  {
    hide Insert, Remove, Matched, Received, Native, Counts, Ordered, DistinctIds, WithEntry;
    RemoveSound(f, was.id);
    DeletionIs(f, was);
    EntryIs(Deleted(f, was.id), WithReceipt(t, Posted(f, t, ReceiptOf(was))));
    PostedIs(f, t, Some(was));
  }

  lemma NewReceipt(f: Facts, t: Transaction)
    requires Sound(f) && !Posted(f, t, NoReceipt).Rejected?
    ensures var u := WithReceipt(t, Posted(f, t, NoReceipt));
            u.id == t.id && u.month == t.month && CashEffect(u) == CashEffect(t)
            && (u.expected.Some? ==> f.start <= u.expected.value <= u.month)
  {
    NewReceiptSound(f, t, NoReceipt);
  }

  /** An edit is taken when its month is open, its sides and treatment fit, and it replaces
      an entry of the month that is no reconciliation. */
  lemma EditAccepted(f: Facts, frozen: set<Month>, t: Transaction)
    requires Sound(f)
    ensures CanEdit(f, frozen, t) <==>
            SidesFit(f, t) && f.first <= t.month <= f.current && t.month !in frozen
            && exists was :: was in f.transactions && was.id == t.id && was.month == t.month
                             && !was.kind.Reconciliation? && TreatmentFits(f, t, Some(was))
  {
    hide Posted, Acceptable, SidesFit, TreatmentFits, Find, Ordered, DistinctIds;
    AcceptableIs(f, t);
    var r := Find(f.transactions, t.id);
    if r.Some? {
      OneOfId(f, r.value);
      PostedIs(f, t, r);
    }
  }

  lemma DeletionAccepted(f: Facts, frozen: set<Month>, id: nat)
    requires Sound(f)
    ensures CanDelete(f, frozen, id) <==>
            exists was :: was in f.transactions && was.id == id && !was.kind.Reconciliation?
                          && f.first <= was.month <= f.current && was.month !in frozen
  {
    hide Find, Ordered, DistinctIds;
    var r := Find(f.transactions, id);
    if r.Some? {
      OneOfId(f, r.value);
    }
  }

  /** Changes of one operation, new, one for each of several real categories, in the current month. */
  ghost predicate Moving(f: Facts, operation: nat, items: seq<CorrectionItem>)
  {
    && (forall i :: i in f.corrections ==> i.operation != operation)
    && (forall i :: 0 <= i < |items| ==>
          && items[i] == CorrectionItem(operation, items[i].category, f.current, items[i].delta) && items[i].delta != 0
          && (items[i].category == UNALLOCATED || items[i].category in f.categories)
          && items[i].category !in CategoriesBefore(items, i))
  }

  ghost function CategoriesBefore(items: seq<CorrectionItem>, n: nat): set<Category>
    requires n <= |items|
  {
    set i | 0 <= i < n :: items[i].category
  }

  lemma CorrectionAccepted(f: Facts, frozen: set<Month>, original: nat, operation: nat, items: seq<CorrectionItem>)
    requires Sound(f)
    ensures CanCorrect(f, frozen, original, operation, items) <==>
            (exists t :: t in f.transactions && t.id == original && (t.month in frozen || t.month < f.first)) && Moving(f, operation, items)
  {
    hide Find, Ordered, DistinctIds;
    var r := Find(f.transactions, original);
    if r.Some? {
      OneOfId(f, r.value);
    }
    if Moving(f, operation, items) {
      forall i, j | 0 <= i < j < |items| ensures items[i].category != items[j].category {
        assert items[i].category in CategoriesBefore(items, j);
      }
      forall i | i in items
        ensures i.operation == operation && i.month == f.current && i.delta != 0 && Real(f.categories, i.category)
      {
        var k :| 0 <= k < |items| && items[k] == i;
      }
    }
  }

  lemma ChangedAllocations(ps: Periods, changes: map<Category, int>, m: Month)
    ensures var qs := PeriodsFrom(ps, changes, m);
            && (forall c, k: Month :: c in changes && k >= m && (forall j: Month :: m < j <= k ==> (c, j) !in ps) ==> Allocated(qs, c, k) == changes[c])
            && (forall c, k: Month :: c !in changes || k < m ==> Allocated(qs, c, k) == Allocated(ps, c, k))
  {
    hide Allocated, PeriodsFrom;
    var qs := PeriodsFrom(ps, changes, m);
    forall c, k: Month
      ensures c in changes && k >= m && (forall j: Month :: m < j <= k ==> (c, j) !in ps) ==> Allocated(qs, c, k) == changes[c]
      ensures c !in changes || k < m ==> Allocated(qs, c, k) == Allocated(ps, c, k)
    {
      AllocatedSince(ps, changes, m, c, k);
    }
  }

  lemma NothingLeft(f: Facts, plan: Month)
    requires f.cent > 0 && plan in f.plans
    ensures Outstanding(Completed(f, plan), plan, f.current) == 0
  {
  }

  lemma RolledPlans(f: Facts, month: Month, day: nat, quote: Quote)
    requires WellFormed(f) && CanRoll(f, month, day)
    ensures var g := Materialised(Rolled(f, month, day), quote);
            g == f.(current := month, today := day, plans := g.plans) && PlansMade(f, g, quote)
  {
    hide PlannedAs, NewPlan, WellFormed;
    MaterialisedIs(Rolled(f, month, day), quote);
  }

  // ----- cash on the day coverage looks at -----

  /** Cash effects dated up to a day of a month; up to its end without a day. */
  function CashUpTo(ts: seq<Transaction>, month: Month, day: Option<nat>): int
  {
    if ts == [] then 0
    else
      var t := ts[|ts| - 1];
      CashUpTo(ts[..|ts| - 1], month, day)
      + if t.month < month || (t.month == month && (day.None? || t.day <= day.value)) then CashEffect(t) else 0
  }

  /** Taking back what is later leaves what is dated up to the day: today in the current
      month, the last day in any other. */
  lemma {:induction false} LaterTakenBack(f: Facts, ts: seq<Transaction>, month: Month)
    ensures CashOf(ts) - LaterCash(f, month, ts) == CashUpTo(ts, month, if month == f.current then Some(f.today) else None)
  {
    hide CashEffect;
    if ts != [] {
      LaterTakenBack(f, ts[..|ts| - 1], month);
    }
  }
}
