/** When salary settles its plan to the cent. */
module LedgerSalary {
  import opened LedgerRows
  import opened Rounding
  import opened LedgerFacts
  import opened LedgerSteps
  import opened LedgerTotals
  import opened LedgerConservation

  /** A plan as the server makes it: not negative, valued to the cent. */
  predicate WellPosted(cent: nat, p: Plan)
    requires cent > 0
  {
    p.amount >= 0 && p.amountEur % cent == 0 && (p.amount == 0 ==> p.amountEur == 0)
  }

  /** The funded part and the rest both end on half a cent, and the plan has an odd number of cents. */
  predicate HalfCent(cent: nat, p: Plan, funded: int)
    requires cent > 0
  {
    p.amount > 0 && Tie(funded * p.amountEur, p.amount * cent) && (p.amountEur / cent) % 2 == 1
  }

  /** Funding for a part and for the rest of a plan add up to the plan, exactly unless
      the split falls on half a cent of an odd plan; then they miss it by one cent. */
  lemma FundingSplits(cent: nat, p: Plan, x: int)
    requires cent > 0 && WellPosted(cent, p)
    ensures var sum := FundingPortion(cent, x, p) + FundingPortion(cent, p.amount - x, p);
            && (sum == p.amountEur <==> !HalfCent(cent, p, x))
            && (HalfCent(cent, p, x) ==> sum == p.amountEur - cent || sum == p.amountEur + cent)
  {
    hide HalfEven, Tie;
    if p.amount > 0 {
      var d := p.amount * cent;
      var whole := p.amountEur / cent;
      var n := x * p.amountEur;
      assert p.amountEur == whole * cent;
      WholePlan(cent, p.amount, whole);
      assert (p.amount - x) * p.amountEur == p.amount * p.amountEur - n;
      HalfEvenParts(n, d, whole);
      InCents(cent, HalfEven(n, d), HalfEven(whole * d - n, d), whole);
    }
  }

  lemma WholePlan(cent: int, amount: int, whole: int)
    ensures amount * (whole * cent) == whole * (amount * cent)
  {
  }

  lemma InCents(cent: int, a: int, b: int, whole: int)
    requires cent > 0
    ensures cent * a + cent * b == whole * cent <==> a + b == whole
    ensures a + b == whole - 1 ==> cent * a + cent * b == whole * cent - cent
    ensures a + b == whole + 1 ==> cent * a + cent * b == whole * cent + cent
  {
    assert cent * a + cent * b == (a + b) * cent;
    if (a + b) * cent == whole * cent {
      MulCancel(a + b, whole, cent);
      MulCancel(whole, a + b, cent);
    }
  }

  lemma FundingOfNothing(cent: nat, p: Plan)
    requires cent > 0 && WellPosted(cent, p)
    ensures FundingPortion(cent, 0, p) == 0
  {
    hide HalfEven;
    if p.amount > 0 {
      assert 0 * p.amountEur == 0;
      HalfEvenWhole(0, p.amount * cent);
    }
  }

  lemma WholeNotHalf(cent: nat, p: Plan)
    requires cent > 0 && WellPosted(cent, p)
    ensures !HalfCent(cent, p, p.amount) && !HalfCent(cent, p, 0)
  {
    hide HalfEven, Tie;
    if p.amount > 0 {
      var d := p.amount * cent;
      var whole := p.amountEur / cent;
      assert p.amountEur == whole * cent;
      WholePlan(cent, p.amount, whole);
      HalfEvenWhole(whole, d);
      assert 0 * p.amountEur == 0 * d;
      HalfEvenWhole(0, d);
    }
  }

  predicate HasLegacy(rs: seq<Transaction>)
  {
    exists t :: t in rs && t.treatment == Some(Legacy)
  }

  lemma {:induction false} NoLegacyCoverage(cent: nat, p: Plan, rs: seq<Transaction>)
    requires cent > 0 && !HasLegacy(rs)
    ensures CoveredBy(cent, p, rs, true) == 0
  {
    hide Covered;
    if rs != [] {
      assert rs[|rs| - 1] in rs;
      NoLegacyCoverage(cent, p, rs[..|rs| - 1]);
    }
  }

  /** Salary receipts in any number and order: the recorded excess is what they brought
      less what their sum funds, although each was rounded on its own. */
  lemma SalaryExcess(cent: nat, p: Plan, plan: Month, rs: seq<Transaction>)
    requires cent > 0 && WellPosted(cent, p) && !HasLegacy(rs)
    ensures SumIn(ExcessRows(cent, p, plan, rs), Any()) ==
            SalaryEur(rs) - FundingPortion(cent, Capped(p, Received(cent, p, rs)), p)
  {
    hide FundingPortion, CoveredBy, ExcessRows, SumIn;
    ExcessTotal(cent, p, plan, rs);
    CoverageTelescopes(cent, p, rs);
    NoLegacyCoverage(cent, p, rs);
    FundingOfNothing(cent, p);
  }

  /** The receipts so far split the plan on half a cent. */
  predicate SplitsCent(f: Facts, plan: Month)
    requires f.cent > 0 && plan in f.plans
  {
    HalfCent(f.cent, f.plans[plan], Capped(f.plans[plan], Received(f.cent, f.plans[plan], Matched(f.transactions, plan, f.current))))
  }

  /** An open plan whose receipts do not split it on half a cent. */
  predicate SplitsWhole(f: Facts, plan: Month)
    requires f.cent > 0
  {
    && plan in f.plans && f.plans[plan].completed.None?
    && WellPosted(f.cent, f.plans[plan]) && !SplitsCent(f, plan)
  }

  /** What receipts from before activation fund of a plan. */
  function LegacyFunds(f: Facts, plan: Month): int
    requires f.cent > 0 && plan in f.plans
  {
    CoveredBy(f.cent, f.plans[plan], Matched(f.transactions, plan, f.current), true)
  }

  /** An open plan drifts by what receipts from before activation fund of it, exactly when
      its receipts do not split it on half a cent; when they do, by one cent more or less. */
  lemma DriftOfOpenPlan(f: Facts, plan: Month)
    requires f.cent > 0 && plan in f.plans && f.plans[plan].completed.None? && WellPosted(f.cent, f.plans[plan])
    ensures PlanDrift(f, plan) == LegacyFunds(f, plan) <==> !SplitsCent(f, plan)
    ensures SplitsCent(f, plan) ==> Abs(PlanDrift(f, plan) - LegacyFunds(f, plan)) == f.cent
    ensures !HasLegacy(Matched(f.transactions, plan, f.current)) ==> LegacyFunds(f, plan) == 0
  {
    hide FundingPortion, CoveredBy, HalfCent, Received, Matched, HasLegacy;
    var p := f.plans[plan];
    var rs := Matched(f.transactions, plan, f.current);
    var received := Received(f.cent, p, rs);
    CoverageTelescopes(f.cent, p, rs);
    if !HasLegacy(rs) {
      NoLegacyCoverage(f.cent, p, rs);
    }
    FundingOfNothing(f.cent, p);
    FundingSplits(f.cent, p, Capped(p, received));
    assert Positive(p.amount - received) == p.amount - Capped(p, received);
  }

  // ----- receipts from before activation -----

  /** Salary dated after every receipt from before activation leaves what those fund alone. */
  lemma {:induction false} LegacyFirst(cent: nat, p: Plan, ts: seq<Transaction>, t: Transaction, plan: Month, through: Month)
    requires cent > 0 && t.treatment != Some(Legacy)
    requires forall u :: u in ts && Matches(u, plan, through) && u.treatment == Some(Legacy) ==> Earlier(u, t)
    ensures CoveredBy(cent, p, Matched(Insert(ts, t), plan, through), true) == CoveredBy(cent, p, Matched(ts, plan, through), true)
  {
    hide Covered, Matches;
    if ts == [] {
      CoveredAppend(cent, p, [], t, plan, through);
    } else {
      var front, last := ts[..|ts| - 1], ts[|ts| - 1];
      assert ts == front + [last];
      if Earlier(last, t) {
        CoveredAppend(cent, p, ts, t, plan, through);
      } else {
        LegacyFirst(cent, p, front, t, plan, through);
        CoveredAppend(cent, p, front, last, plan, through);
        CoveredAppend(cent, p, Insert(front, t), last, plan, through);
      }
    }
  }

  lemma MatchedAppend(ts: seq<Transaction>, t: Transaction, plan: Month, through: Month)
    ensures Matched(ts + [t], plan, through) == Matched(ts, plan, through) + if Matches(t, plan, through) then [t] else []
  {
    assert (ts + [t])[..|ts|] == ts;
  }

  /** A receipt that is not legacy, or settles another plan, funds nothing as legacy. */
  lemma CoveredAppend(cent: nat, p: Plan, ts: seq<Transaction>, t: Transaction, plan: Month, through: Month)
    requires cent > 0 && !(Matches(t, plan, through) && t.treatment == Some(Legacy))
    ensures CoveredBy(cent, p, Matched(ts + [t], plan, through), true) == CoveredBy(cent, p, Matched(ts, plan, through), true)
  {
    hide Covered, Matches;
    MatchedAppend(ts, t, plan, through);
    var rs := Matched(ts, plan, through);
    if Matches(t, plan, through) {
      assert (rs + [t])[..|rs|] == rs;
    } else {
      assert rs + [] == rs;
    }
  }
}
