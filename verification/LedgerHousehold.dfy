/** A household kept in EUR: conservation from what its entries look like, from the day
    the ledger is switched on to the figure reports show. */
module LedgerHousehold {
  import opened LedgerRows
  import opened Rounding
  import opened LedgerFacts
  import opened LedgerEffects
  import opened LedgerBalances
  import opened LedgerSteps
  import opened LedgerTotals
  import opened LedgerConservation
  import opened LedgerSalary
  import opened LedgerRuns
  import opened LedgerActivation
  import opened LedgerCarryover
  import opened LedgerEuro

  predicate EuroSetting(cent: nat, e: Setting)
    requires cent > 0
  {
    e.currency == "EUR" && e.amount >= 0 && e.amount % cent == 0
  }

  /** EUR is worth itself. */
  ghost predicate EuroQuote(quote: Quote)
  {
    forall a, m :: quote(a, "EUR", m) == a
  }

  ghost predicate EuroSettings(es: map<Month, Setting>, cent: nat, start: Month)
    requires cent > 0
  {
    (forall m :: m in es ==> EuroSetting(cent, es[m])) && exists m :: m in es && m <= start
  }

  /** Receipts of plans are in EUR; those from before activation are dated up to a day of
      the first month, salary after it. */
  predicate EuroLinked(cent: nat, start: Month, day: nat, t: Transaction)
    requires cent > 0
  {
    t.expected.Some? ==>
      && InEuro(cent, t)
      && (if IsLegacy(t) then t.expected.value == start == t.month && t.day <= day
          else t.treatment == Some(Salary) && (t.month > start || t.day > day))
  }

  ghost predicate EuroFacts(f: Facts, day: nat)
  {
    && WellFormed(f) && NoneLater(f)
    && (forall p :: p in f.plans ==> EuroPlan(f.cent, f.plans[p]))
    && EuroSettings(f.expectations, f.cent, f.start)
    && (forall t :: t in f.transactions ==> EuroLinked(f.cent, f.start, day, t))
  }

  /** The entry budgets what it brings, its day has come, and salary is as above. */
  predicate EuroEntry(f: Facts, day: nat, t: Transaction)
    requires f.cent > 0
  {
    Backed(f, t) && EuroLinked(f.cent, f.start, day, t) && (t.expected.Some? ==> !IsLegacy(t))
  }

  /** The entry settles no plan, or as salary one that is still open. */
  predicate Loose(f: Facts, t: Transaction)
  {
    t.expected.Some? ==> !IsLegacy(t) && t.expected.value in f.plans && f.plans[t.expected.value].completed.None?
  }

  /** Replanning the first month leaves what its legacy receipts take of it. */
  ghost predicate KeepsFirst(f: Facts, frozen: set<Month>, e: Setting)
  {
    f.start in f.plans &&
    (|| f.plans[f.start].completed.Some? || f.start in frozen || f.plans[f.start].amount == e.amount
     || FitsBoth(f.plans[f.start].amount, e.amount, Matched(f.transactions, f.start, f.current)))
  }

  /** Steps judged by the entry at hand: entries of accounts in EUR, edits and deletions of
      entries that settle no completed plan and are not from before activation, and
      expectations in EUR; the first month is replanned only when its legacy receipts fit. */
  ghost predicate EuroStep(s: State, day: nat, step: Step)
    requires s.facts.cent > 0
  {
    var f := s.facts;
    match step
    case Create(t) => CanCreate(f, s.frozen, t) ==> EuroEntry(f, day, WithReceipt(t, Posted(f, t, NoReceipt)))
    case Edit(t) =>
      CanEdit(f, s.frozen, t) ==>
        var was := Find(f.transactions, t.id).value;
        Backed(f, was) && Loose(f, was) && EuroEntry(f, day, WithReceipt(t, Posted(f, t, ReceiptOf(was))))
    case Delete(id) =>
      CanDelete(f, s.frozen, id) ==> var was := Find(f.transactions, id).value; Backed(f, was) && Loose(f, was)
    case Expect(e, m) =>
      CanExpect(f, e, m) ==>
        EuroSetting(f.cent, e) && (m > f.start || KeepsFirst(f, s.frozen, e))
    case _ => true
  }

  lemma EuroFactsSound(f: Facts, day: nat)
    requires EuroFacts(f, day)
    ensures WellFormed(f) && NoneLater(f) && 0 < f.cent && f.start <= f.current
  {
  }

  // ----- plans and settings stay in EUR -----

  lemma {:induction false} SettingInEuro(es: map<Month, Setting>, cent: nat, start: Month, m: Month)
    requires cent > 0 && EuroSettings(es, cent, start) && m >= start
    ensures EuroSetting(cent, SettingAt(es, cent, m))
    decreases m
  {
    var k :| k in es && k <= start;
    if m !in es && m > 0 {
      SettingUpTo(es, cent, m, k);
    }
  }

  lemma {:induction false} SettingUpTo(es: map<Month, Setting>, cent: nat, m: Month, k: Month)
    requires cent > 0 && k in es && k <= m && forall n :: n in es ==> EuroSetting(cent, es[n])
    ensures EuroSetting(cent, SettingAt(es, cent, m))
    decreases m
  {
    if m !in es {
      SettingUpTo(es, cent, m - 1, k);
    }
  }

  lemma NewPlanInEuro(f: Facts, m: Month, quote: Quote)
    requires f.cent > 0 && EuroSettings(f.expectations, f.cent, f.start) && m >= f.start && EuroQuote(quote)
    ensures EuroPlan(f.cent, NewPlan(f, m, quote))
  {
    SettingInEuro(f.expectations, f.cent, f.start, m);
  }

  // ----- receipts of plans in EUR -----

  lemma EuroEverywhere(f: Facts, day: nat, plan: Month)
    requires EuroFacts(f, day) && plan in f.plans
    ensures EuroAt(f, plan)
    ensures f.plans[plan].completed.None? ==> SplitsWhole(f, plan)
  {
    hide NoneLater, Received, Matched;
    MatchedShape(f.transactions, plan, f.current);
    var p, rs := f.plans[plan], Matched(f.transactions, plan, f.current);
    ReceivedInEuro(f.cent, p, rs);
    CappedInEuro(f.cent, p, PaidBy(rs));
  }

  ghost predicate SameLegacy(f: Facts, g: Facts)
    requires f.cent > 0 && g.cent > 0
  {
    f.plans == g.plans && forall p :: p in f.plans ==> LegacyFunds(f, p) == LegacyFunds(g, p)
  }

  lemma EuroEntered(f: Facts, day: nat, t: Transaction)
    requires EuroFacts(f, day) && Enterable(f, t) && EuroLinked(f.cent, f.start, day, t)
    requires t.expected.Some? ==> !IsLegacy(t)
    ensures EuroFacts(Entered(f, t), day) && SameLegacy(f, Entered(f, t))
  {
    hide Insert, Matched, CoveredBy;
    var g := Entered(f, t);
    InsertContinues(f, t, -1);
    InsertMembers(f.transactions, t);
    forall p | p in f.plans ensures LegacyFunds(f, p) == LegacyFunds(g, p) {
      if Matches(t, p, f.current) {
        LegacyFirst(f.cent, f.plans[p], f.transactions, t, p, f.current);
      } else {
        MatchedInsert(f.transactions, t, p, f.current);
      }
    }
  }

  lemma EuroDeleted(f: Facts, day: nat, was: Transaction)
    requires EuroFacts(f, day) && was in f.transactions && (was.expected.Some? ==> !IsLegacy(was))
    ensures var g := Deleted(f, was.id);
            EuroFacts(g, day) && SameLegacy(f, g) && Enterable(g, was) && Entered(g, was) == f
  {
    hide Insert, Remove, Matched, CoveredBy, Imbalance, Moves, LegacyFunds;
    RemoveMoves(f, was, 0);
    RemoveMembers(f.transactions, was.id);
    EuroEntered(Deleted(f, was.id), day, was);
  }

  lemma EuroSmooth(f: Facts, g: Facts, day: nat, plan: Month)
    requires EuroFacts(f, day) && EuroFacts(g, day) && plan in f.plans && plan in g.plans
    requires f.plans[plan].completed.None? && g.plans[plan].completed.None?
    requires LegacyFunds(f, plan) == LegacyFunds(g, plan)
    ensures Smooth(f, g, plan)
  {
    hide EuroFacts, LegacyFunds, SplitsWhole;
    EuroEverywhere(f, day, plan);
    EuroEverywhere(g, day, plan);
  }

  // ----- every such step is ordinary and leaves the household in EUR -----

  lemma EuroCreate(f: Facts, frozen: set<Month>, day: nat, t: Transaction)
    requires EuroFacts(f, day) && CanCreate(f, frozen, t)
    requires EuroEntry(f, day, WithReceipt(t, Posted(f, t, NoReceipt)))
    ensures var u, g := WithReceipt(t, Posted(f, t, NoReceipt)), Created(f, t);
            EuroFacts(g, day) && SettlesSmoothly(f, g, u)
  {
    hide Insert, Smooth, LegacyFunds, Mismatch;
    var u, g := WithReceipt(t, Posted(f, t, NoReceipt)), Created(f, t);
    NewReceiptSound(f, t, NoReceipt);
    EuroEntered(f, day, u);
    forall p | p in f.plans && Matches(u, p, f.current) ensures Smooth(f, g, p) {
      EuroSmooth(f, g, day, p);
    }
  }

  lemma EuroDelete(f: Facts, day: nat, was: Transaction)
    requires EuroFacts(f, day) && was in f.transactions && Loose(f, was)
    ensures var g := Deleted(f, was.id); EuroFacts(g, day) && SettlesSmoothly(f, g, was)
  {
    hide EuroFacts, Smooth, LegacyFunds, Remove;
    var g := Deleted(f, was.id);
    EuroDeleted(f, day, was);
    EuroFactsSound(f, day);
    EuroFactsSound(g, day);
    forall p | p in f.plans && Matches(was, p, f.current) ensures Smooth(f, g, p) {
      EuroSmooth(f, g, day, p);
    }
  }

  /** A receipt edited out of an open plan goes into an open one. */
  lemma EditedIntoOpen(f: Facts, was: Transaction, t: Transaction)
    requires Loose(f, was) && !Posted(f, t, ReceiptOf(was)).Rejected?
    ensures var u := WithReceipt(t, Posted(f, t, ReceiptOf(was)));
            u.expected.Some? ==> u.expected.value in f.plans && f.plans[u.expected.value].completed.None?
  {
  }

  lemma EuroEdit(f: Facts, day: nat, was: Transaction, t: Transaction)
    requires EuroFacts(f, day) && was in f.transactions && was.id == t.id && was.month == t.month <= f.current
    requires Loose(f, was) && !Posted(f, t, ReceiptOf(was)).Rejected?
    requires EuroEntry(f, day, WithReceipt(t, Posted(f, t, ReceiptOf(was))))
    ensures var u, g := WithReceipt(t, Posted(f, t, ReceiptOf(was))), Edited(f, was, t);
            EuroFacts(g, day) && SettlesSmoothly(f, g, was) && SettlesSmoothly(f, g, u)
  {
    hide Smooth, LegacyFunds, Remove, Insert, Mismatch, Imbalance, Moves, Ordered, DistinctIds;
    var u, rest, g := WithReceipt(t, Posted(f, t, ReceiptOf(was))), Deleted(f, was.id), Edited(f, was, t);
    EuroDeleted(f, day, was);
    EditMoves(f, was, t, 0);
    EuroEntered(rest, day, u);
    EditedIntoOpen(f, was, t);
    forall p | p in f.plans && (Matches(was, p, f.current) || Matches(u, p, f.current)) ensures Smooth(f, g, p) {
      EuroSmooth(f, g, day, p);
    }
  }

  /** Receipts of a plan after the first month are never legacy. */
  lemma {:induction false} OnlyFirstLegacy(cent: nat, p: Plan, start: Month, day: nat, rs: seq<Transaction>, plan: Month)
    requires cent > 0 && plan != start
    requires forall t :: t in rs ==> EuroLinked(cent, start, day, t) && t.expected == Some(plan)
    ensures CoveredBy(cent, p, rs, true) == 0
  {
    hide Covered;
    if rs != [] {
      assert rs[|rs| - 1] in rs;
      OnlyFirstLegacy(cent, p, start, day, rs[..|rs| - 1], plan);
    }
  }

  lemma EuroExpectFacts(f: Facts, frozen: set<Month>, day: nat, e: Setting, m: Month, quote: Quote)
    requires EuroFacts(f, day) && CanExpect(f, e, m) && EuroSetting(f.cent, e) && EuroQuote(quote)
    ensures EuroFacts(ExpectedFrom(f, frozen, e, m, quote), day)
  {
    hide NewPlan, Ordered, DistinctIds, EuroLinked;
    var g := ExpectedFrom(f, frozen, e, m, quote);
    ExpectContinues(f, frozen, e, m, quote, -1);
    assert EuroSettings(g.expectations, g.cent, g.start) by {
      var k :| k in f.expectations && k <= f.start;
      assert k in g.expectations;
    }
    forall p | p in g.plans ensures EuroPlan(g.cent, g.plans[p]) {
      if g.plans[p] != f.plans[p] {
        NewPlanInEuro(f.(expectations := f.expectations[m := e]), p, quote);
      }
    }
  }

  lemma EuroExpect(f: Facts, frozen: set<Month>, day: nat, e: Setting, m: Month, quote: Quote)
    requires EuroFacts(f, day) && CanExpect(f, e, m) && EuroSetting(f.cent, e) && EuroQuote(quote)
    requires m > f.start || KeepsFirst(f, frozen, e)
    ensures var g := ExpectedFrom(f, frozen, e, m, quote);
            && EuroFacts(g, day)
            && forall p :: p in f.plans ==> p in g.plans && (g.plans[p] != f.plans[p] ==> Smooth(f, g, p))
  {
    hide EuroFacts, LegacyFunds, Matched, FitsBoth, SplitsWhole, Smooth, NewPlan, EuroLinked, WellFormed;
    var g := ExpectedFrom(f, frozen, e, m, quote);
    EuroExpectFacts(f, frozen, day, e, m, quote);
    EuroFactsSound(f, day);
    forall p | p in f.plans && g.plans[p] != f.plans[p] ensures Smooth(f, g, p) {
      assert p >= m;
      NewPlanOpen(f.(expectations := f.expectations[m := e]), p, quote);
      if p == f.start {
        LegacyReplanned(f, frozen, day, e, quote);
      } else {
        LegacyElsewhere(f, day, p);
        LegacyElsewhere(g, day, p);
      }
      EuroSmooth(f, g, day, p);
    }
  }

  lemma LegacyElsewhere(f: Facts, day: nat, p: Month)
    requires EuroFacts(f, day) && p in f.plans && p != f.start
    ensures LegacyFunds(f, p) == 0
  {
    hide CoveredBy, Matched, EuroLinked;
    MatchedShape(f.transactions, p, f.current);
    OnlyFirstLegacy(f.cent, f.plans[p], f.start, day, Matched(f.transactions, p, f.current), p);
  }

  lemma LegacyReplanned(f: Facts, frozen: set<Month>, day: nat, e: Setting, quote: Quote)
    requires EuroFacts(f, day) && CanExpect(f, e, f.start) && EuroSetting(f.cent, e) && EuroQuote(quote)
    requires KeepsFirst(f, frozen, e)
    requires var g := ExpectedFrom(f, frozen, e, f.start, quote); g.plans[f.start] != f.plans[f.start]
    ensures LegacyFunds(f, f.start) == LegacyFunds(ExpectedFrom(f, frozen, e, f.start, quote), f.start)
  {
    hide CoveredBy, Matched, FitsBoth, Shares, EuroFacts, SplitsWhole;
    var g := ExpectedFrom(f, frozen, e, f.start, quote);
    var rs, a, b := Matched(f.transactions, f.start, f.current), f.plans[f.start].amount, e.amount;
    EuroExpectFacts(f, frozen, day, e, f.start, quote);
    EuroFactsSound(f, day);
    EuroEverywhere(f, day, f.start);
    EuroEverywhere(g, day, f.start);
    assert g.plans[f.start].amount == b;
    CoveredInEuro(f.cent, f.plans[f.start], rs, true);
    CoveredInEuro(f.cent, g.plans[f.start], rs, true);
    if a == b {
    } else if b < a {
      SharesOfPlans(a, b, rs);
    } else {
      FitsBothTurned(a, b, rs);
      SharesOfPlans(b, a, rs);
    }
  }

  lemma EuroRoll(f: Facts, month: Month, day: nat, now: nat, quote: Quote)
    requires EuroFacts(f, day) && CanRoll(f, month, now) && EuroQuote(quote)
    ensures var g := Materialised(Rolled(f, month, now), quote);
            EuroFacts(g, day) && forall p :: p in g.plans ==> WellPosted(f.cent, g.plans[p])
  {
    hide NewPlan, Imbalance, Ordered, DistinctIds, EuroLinked;
    var r := Rolled(f, month, now);
    var g := Materialised(r, quote);
    forall p | p in g.plans ensures EuroPlan(g.cent, g.plans[p]) {
      if p !in f.plans {
        NewPlanInEuro(r, p, quote);
      }
    }
    RollKeeps(f, month, now, quote, 0);
  }

  lemma EuroComplete(f: Facts, day: nat, plan: Month)
    requires EuroFacts(f, day) && CanComplete(f, plan)
    ensures EuroFacts(Completed(f, plan), day)
  {
    hide Outstanding, Ordered, DistinctIds, EuroLinked;
    CompleteContinues(f, plan, -1);
  }

  lemma EuroAllocate(f: Facts, day: nat, changes: map<Category, int>, m: Month)
    requires EuroFacts(f, day) && CanAllocate(f, changes, m)
    ensures EuroFacts(AllocatedFrom(f, changes, m), day)
  {
    hide PeriodsFrom, Ordered, DistinctIds, EuroLinked;
    AllocateContinues(f, changes, m, -1);
  }

  /** Steps of a household in EUR are ordinary. */
  lemma EuroStepOrdinary(s: State, day: nat, step: Step, quote: Quote)
    requires EuroFacts(s.facts, day) && EuroQuote(quote) && EuroStep(s, day, step)
    ensures Ordinary(s, step, quote) && EuroFacts(Apply(s, step, quote).facts, day)
  {
    hide EuroFacts, SettlesSmoothly, Smooth, WellPosted, EuroLinked, Mismatch, FitsBoth, Materialised, CanRoll, CanComplete, CanAllocate, Acceptable, Posted,
         Created, Edited, Deleted, ExpectedFrom, Completed, Rolled, AllocatedFrom;
    var f := s.facts;
    match step
    case Create(t) => if CanCreate(f, s.frozen, t) { EuroCreate(f, s.frozen, day, t); }
    case Edit(t) => if CanEdit(f, s.frozen, t) { EuroEdit(f, day, Find(f.transactions, t.id).value, t); }
    case Delete(id) => if CanDelete(f, s.frozen, id) { EuroDelete(f, day, Find(f.transactions, id).value); }
    case Allocate(changes, m) => if CanAllocate(f, changes, m) { EuroAllocate(f, day, changes, m); }
    case Expect(e, m) => if CanExpect(f, e, m) { EuroExpect(f, s.frozen, day, e, m, quote); }
    case CompleteIncome(plan) => if CanComplete(f, plan) { EuroComplete(f, day, plan); }
    case Roll(month, now) => if CanRoll(f, month, now) { EuroRoll(f, month, day, now, quote); }
    case Close(m) =>
  }

  // ----- runs -----

  ghost predicate EuroRun(s: State, day: nat, steps: seq<(Step, Quote)>)
    requires WellFormed(s.facts)
  {
    steps == [] ||
    (EuroRun(s, day, steps[..|steps| - 1])
     && var before := Run(s, steps[..|steps| - 1]);
        before.facts.cent > 0 && EuroStep(before, day, steps[|steps| - 1].0) && EuroQuote(steps[|steps| - 1].1))
  }

  lemma {:induction false} EuroRunOrdinary(s: State, day: nat, steps: seq<(Step, Quote)>)
    requires EuroFacts(s.facts, day) && EuroRun(s, day, steps)
    ensures OrdinaryRun(s, steps) && EuroFacts(Run(s, steps).facts, day)
  {
    hide EuroFacts, EuroStep, EuroQuote, Ordinary, Apply, WellFormed;
    EuroFactsSound(s.facts, day);
    if steps != [] {
      EuroRunOrdinary(s, day, steps[..|steps| - 1]);
      EuroStepOrdinary(Run(s, steps[..|steps| - 1]), day, steps[|steps| - 1].0, steps[|steps| - 1].1);
    }
  }

  /** Conservation for a household in EUR: whatever it enters, changes, deletes, expects and
      completes, from a state whose Unallocated is its projected gap it gets to such a state. */
  lemma EuroConservation(s: State, day: nat, steps: seq<(Step, Quote)>, base: int, before: map<Category, int>, after: map<Category, int>)
    requires EuroFacts(s.facts, day) && EuroRun(s, day, steps)
    requires forall c :: c in s.facts.categories ==> c in before && before[c] == Balance(s.facts, c, s.facts.current)
    requires var g := Run(s, steps).facts;
             forall c :: c in g.categories ==> c in after && after[c] == Balance(g, c, g.current)
    requires Unallocated(s.facts, s.facts.current)
             == CoverageOf(s.facts, base + CashOf(s.facts.transactions), before, s.facts.current).projected
    ensures var g := Run(s, steps).facts;
            g.cent > 0 && Unallocated(g, g.current) == CoverageOf(g, base + CashOf(g.transactions), after, g.current).projected
  {
    hide EuroFacts, EuroRun, OrdinaryRun, Run, Balance, Unallocated, CoverageOf, WellFormed;
    EuroFactsSound(s.facts, day);
    EuroRunOrdinary(s, day, steps);
    Conservation(s, steps, base, before, after);
  }

  // ----- from activation to the reported figure -----

  lemma {:induction false} MarkedCash(ts: seq<Transaction>, month: Month)
    ensures CashOf(MarkAll(ts, month)) == CashOf(ts)
  {
    if ts != [] {
      var us := MarkAll(ts, month);
      assert us[..|us| - 1] == MarkAll(ts[..|ts| - 1], month);
      MarkedCash(ts[..|ts| - 1], month);
    }
  }

  /** The state in which the ledger has just been switched on. */
  ghost function Switched(f: Facts, cash: int, quote: Quote, frozen: set<Month>): (s: State)
    requires Ready(f)
    ensures WellFormed(s.facts)
  {
    ActivatedWellFormed(f, cash, quote);
    State(Activated(f, cash, quote), frozen)
  }

  /** Every open month of the ledger has its funding movement, or expects nothing. */
  ghost predicate ReadRight(f: Facts, rows: seq<Movement>, closed: int, phantom: map<Month, int>, quote: Quote)
  {
    && closed <= f.current
    && (f.start <= closed && closed in phantom ==> phantom[closed] == 0)
    && (forall k: Month :: closed < k <= f.current && f.start <= k ==> PlanMade(f, rows, quote, k))
  }

  ghost predicate BalancesAre(f: Facts, m: Month, remaining: map<Category, int>)
  {
    forall c :: c in f.categories ==> c in remaining && remaining[c] == Balance(f, c, m)
  }

  /** From the day the ledger is switched on, through any run of ordinary steps, Unallocated
      as reports show it is the projected gap between cash and budgets. */
  lemma FromActivation(f: Facts, cash: int, quote: Quote, frozen: set<Month>, steps: seq<(Step, Quote)>, after: map<Category, int>,
                       rows: seq<Movement>, closed: int, phantom: map<Month, int>, now: Quote)
    requires Ready(f) && NoneLater(f)
    requires forall c :: c in f.categories ==> UnledgeredIn(f.transactions, c, f.current) == 0
    requires OrdinaryRun(Switched(f, cash, quote, frozen), steps)
    requires var g := Run(Switched(f, cash, quote, frozen), steps).facts;
             BalancesAre(g, g.current, after) && ReadRight(g, rows, closed, phantom, now)
    ensures var g := Run(Switched(f, cash, quote, frozen), steps).facts;
            && g.cent > 0
            && Shown(g, rows, closed, phantom, now, g.current)
               == CoverageOf(g, cash + CashOf(g.transactions) - CashOf(f.transactions), after, g.current).projected
  {
    hide Ready, OrdinaryRun, Run, PlanMade, Balance, Unallocated, CoverageOf, WellFormed, NoneLater, MarkAll, CashOf, UnledgeredIn, Shown, NewPlan, OpeningUnallocated;
    var s := Switched(f, cash, quote, frozen);
    var g := Run(s, steps).facts;
    var remaining := map c | c in f.categories :: Balance(Before(f), c, f.current);
    ReadySound(f, cash, quote);
    ActivationBalances(f, cash, quote, remaining);
    MarkedCash(f.transactions, f.current);
    Conservation(s, steps, cash - CashOf(f.transactions), remaining, after);
    ShownRight(g, rows, closed, phantom, now, g.current);
  }

  lemma ReadySound(f: Facts, cash: int, quote: Quote)
    requires Ready(f) && NoneLater(f)
    ensures f.cent > 0 && NoneLater(Activated(f, cash, quote))
  {
    hide OpeningUnallocated, NewPlan, MarkAll, Ordered, DistinctIds, SoundCategories, SoundCorrections;
    MarkedAt(f.transactions, f.current);
    var g := Activated(f, cash, quote);
    forall t | t in g.transactions ensures !IsLater(g, g.current, t) {
      var i :| 0 <= i < |g.transactions| && g.transactions[i] == t;
      assert f.transactions[i] in f.transactions;
    }
  }

  /** Before activation: expectations in EUR, and income of the month in EUR up to a day. */
  ghost predicate ReadyInEuro(f: Facts, day: nat)
  {
    && Ready(f) && NoneLater(f) && EuroSettings(f.expectations, f.cent, f.current)
    && (forall t :: t in f.transactions && t.kind.Income? && t.month == f.current ==> InEuro(f.cent, t) && t.day <= day)
  }

  lemma MarkedInEuro(f: Facts, day: nat)
    requires ReadyInEuro(f, day)
    ensures forall t :: t in MarkAll(f.transactions, f.current) ==> EuroLinked(f.cent, f.current, day, t)
  {
    hide MarkAll, Ordered, DistinctIds, SoundCategories, SoundCorrections, EuroSettings;
    var us := MarkAll(f.transactions, f.current);
    MarkedAt(f.transactions, f.current);
    forall t | t in us ensures EuroLinked(f.cent, f.current, day, t) {
      var i :| 0 <= i < |us| && us[i] == t;
      assert f.transactions[i] in f.transactions;
    }
  }

  lemma ActivatedInEuro(f: Facts, day: nat, cash: int, quote: Quote)
    requires ReadyInEuro(f, day) && EuroQuote(quote)
    ensures EuroFacts(Activated(f, cash, quote), day)
  {
    hide NewPlan, OpeningUnallocated, MarkAll, EuroLinked, EuroSettings, EuroPlan, EuroQuote, NoneLater, WellFormed, Ready;
    ReadySound(f, cash, quote);
    ActivatedWellFormed(f, cash, quote);
    NewPlanInEuro(Started(f, quote), f.current, quote);
    NewPlanOf(f, quote);
    MarkedInEuro(f, day);
  }

  lemma NewPlanOf(f: Facts, quote: Quote)
    ensures NewPlan(Started(f, quote), f.current, quote) == Started(f, quote).plans[f.current]
  {
  }

  /** The same for a household in EUR, from conditions on its entries alone. */
  lemma EuroFromActivation(f: Facts, day: nat, cash: int, quote: Quote, frozen: set<Month>, steps: seq<(Step, Quote)>, after: map<Category, int>,
                           rows: seq<Movement>, closed: int, phantom: map<Month, int>, now: Quote)
    requires ReadyInEuro(f, day) && EuroQuote(quote)
    requires forall c :: c in f.categories ==> UnledgeredIn(f.transactions, c, f.current) == 0
    requires EuroRun(Switched(f, cash, quote, frozen), day, steps)
    requires var g := Run(Switched(f, cash, quote, frozen), steps).facts;
             BalancesAre(g, g.current, after) && ReadRight(g, rows, closed, phantom, now)
    ensures var g := Run(Switched(f, cash, quote, frozen), steps).facts;
            && g.cent > 0
            && Shown(g, rows, closed, phantom, now, g.current)
               == CoverageOf(g, cash + CashOf(g.transactions) - CashOf(f.transactions), after, g.current).projected
  {
    hide EuroFacts, EuroQuote, EuroRun, OrdinaryRun, Run, BalancesAre, ReadRight, CoverageOf, WellFormed, NoneLater, Activated, CashOf, UnledgeredIn, Shown, Ready;
    ActivatedInEuro(f, day, cash, quote);
    EuroRunOrdinary(Switched(f, cash, quote, frozen), day, steps);
    FromActivation(f, cash, quote, frozen, steps, after, rows, closed, phantom, now);
  }
}
