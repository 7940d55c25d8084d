/** Plans and receipts kept in EUR: which entries, deletions, edits and new expectations
    leave the imbalance alone, exactly. */
module LedgerEuro {
  import opened LedgerRows
  import opened Rounding
  import opened LedgerFacts
  import opened LedgerEffects
  import opened LedgerSteps
  import opened LedgerTotals
  import opened LedgerConservation
  import opened LedgerSalary
  import opened LedgerRuns

  /** A plan in EUR, in whole cents. */
  predicate EuroPlan(cent: nat, p: Plan)
    requires cent > 0
  {
    p.currency == "EUR" && p.amount == p.amountEur && p.amount >= 0 && p.amount % cent == 0
  }

  /** What a receipt counts towards a plan in EUR. */
  function Paid(t: Transaction): int { if t.inputCurrency == "EUR" then t.amount else t.toNative }

  predicate InEuro(cent: nat, t: Transaction)
    requires cent > 0
  {
    (t.inputCurrency == "EUR" || t.toCurrency == "EUR") && Paid(t) >= 0 && Paid(t) % cent == 0
  }

  ghost predicate AllInEuro(cent: nat, rs: seq<Transaction>)
    requires cent > 0
  {
    forall t :: t in rs ==> InEuro(cent, t)
  }

  function PaidBy(rs: seq<Transaction>): int
  {
    if rs == [] then 0 else PaidBy(rs[..|rs| - 1]) + Paid(rs[|rs| - 1])
  }

  predicate IsLegacy(t: Transaction) { t.treatment == Some(Legacy) }

  // ----- nothing is rounded -----

  lemma WholeSum(cent: int, a: int, b: int)
    requires cent > 0 && a % cent == 0 && b % cent == 0
    ensures (a + b) % cent == 0 && (a - b) % cent == 0
  {
    var p, q := a / cent, b / cent;
    assert a == p * cent && b == q * cent;
    DivMod(a + b, cent, p + q, 0);
    DivMod(a - b, cent, p - q, 0);
  }

  lemma {:induction false} ReceivedInEuro(cent: nat, p: Plan, rs: seq<Transaction>)
    requires cent > 0 && EuroPlan(cent, p) && AllInEuro(cent, rs)
    ensures Received(cent, p, rs) == PaidBy(rs) >= 0 && PaidBy(rs) % cent == 0
  {
    if rs != [] {
      var front, t := rs[..|rs| - 1], rs[|rs| - 1];
      assert t in rs;
      ReceivedInEuro(cent, p, front);
      WholeSum(cent, PaidBy(front), Paid(t));
    }
  }

  /** A whole number of cents of a plan in EUR funds itself and splits nothing. */
  lemma FundingInEuro(cent: nat, p: Plan, x: int)
    requires cent > 0 && EuroPlan(cent, p) && 0 <= x <= p.amount && x % cent == 0
    ensures FundingPortion(cent, x, p) == x && !HalfCent(cent, p, x)
  {
    hide HalfEven, Tie;
    if p.amount > 0 {
      var k := x / cent;
      assert x == k * cent;
      assert x * p.amountEur == k * (p.amount * cent);
      HalfEvenWhole(k, p.amount * cent);
    }
  }

  lemma CappedInEuro(cent: nat, p: Plan, received: int)
    requires cent > 0 && EuroPlan(cent, p) && received >= 0 && received % cent == 0
    ensures FundingPortion(cent, Capped(p, received), p) == Capped(p, received) && !HalfCent(cent, p, Capped(p, received))
    ensures FundingPortion(cent, Positive(p.amount - received), p) == Positive(p.amount - received)
  {
    hide FundingPortion, HalfCent;
    WholeSum(cent, p.amount, received);
    WholeSum(cent, p.amount, Positive(p.amount - received));
    FundingInEuro(cent, p, Capped(p, received));
    FundingInEuro(cent, p, Positive(p.amount - received));
  }

  // ----- shares of a plan -----

  /** What a receipt takes of the room that is left. */
  function Share(room: int, paid: int): int { if room <= 0 then 0 else if paid < room then paid else room }

  /** What the receipts of one sort take of a plan, each after those before it; `push`
      takes further room from single receipts. */
  ghost function Shares(room: int, rs: seq<Transaction>, push: Transaction -> int, legacy: bool): int
  {
    if rs == [] then 0
    else
      var before, t := rs[..|rs| - 1], rs[|rs| - 1];
      Shares(room, before, push, legacy)
      + if IsLegacy(t) == legacy then Share(room - PaidBy(before) - push(t), Paid(t)) else 0
  }

  ghost function Unmoved(): Transaction -> int { (u: Transaction) => 0 }

  /** Receipt t pushes the receipts after it. */
  ghost function Behind(t: Transaction): Transaction -> int
  {
    (u: Transaction) => if Earlier(t, u) then Paid(t) else 0
  }

  ghost function Less(room: int): Transaction -> int { (u: Transaction) => room }

  lemma {:induction false} CoveredInEuro(cent: nat, p: Plan, rs: seq<Transaction>, legacy: bool)
    requires cent > 0 && EuroPlan(cent, p) && AllInEuro(cent, rs)
    ensures CoveredBy(cent, p, rs, legacy) == Shares(p.amount, rs, Unmoved(), legacy)
  {
    hide FundingPortion;
    if rs != [] {
      var before, t := rs[..|rs| - 1], rs[|rs| - 1];
      assert t in rs;
      CoveredInEuro(cent, p, before, legacy);
      ReceivedInEuro(cent, p, before);
      WholeSum(cent, PaidBy(before), Paid(t));
      CappedInEuro(cent, p, PaidBy(before));
      CappedInEuro(cent, p, PaidBy(before) + Paid(t));
    }
  }

  /** Both sorts together take what was paid, up to the plan. */
  lemma {:induction false} SharesTotal(room: nat, rs: seq<Transaction>)
    requires forall t :: t in rs ==> Paid(t) >= 0
    ensures PaidBy(rs) >= 0
    ensures Shares(room, rs, Unmoved(), true) + Shares(room, rs, Unmoved(), false) == Share(room, PaidBy(rs))
  {
    if rs != [] {
      assert rs[|rs| - 1] in rs;
      SharesTotal(room, rs[..|rs| - 1]);
    }
  }

  // ----- receipts pushed back -----

  /** A receipt takes the same with either push: it fits both times, or nothing is left both times. */
  predicate Fits(room: int, push: int, further: int, paid: int)
  {
    paid == 0 || push == further || (push + paid <= room && further + paid <= room) || (room <= push && room <= further)
  }

  ghost predicate Undisturbed(room: int, rs: seq<Transaction>, push: Transaction -> int, further: Transaction -> int, legacy: bool)
  {
    forall i :: 0 <= i < |rs| && IsLegacy(rs[i]) == legacy ==>
      Fits(room - PaidBy(rs[..i]), push(rs[i]), further(rs[i]), Paid(rs[i]))
  }

  lemma UndisturbedStep(room: int, rs: seq<Transaction>, push: Transaction -> int, further: Transaction -> int, legacy: bool)
    requires rs != []
    ensures var before, t := rs[..|rs| - 1], rs[|rs| - 1];
            Undisturbed(room, rs, push, further, legacy) <==>
            && Undisturbed(room, before, push, further, legacy)
            && (IsLegacy(t) == legacy ==> Fits(room - PaidBy(before), push(t), further(t), Paid(t)))
  {
    hide Fits, PaidBy;
    var before, t := rs[..|rs| - 1], rs[|rs| - 1];
    assert forall i :: 0 <= i < |before| ==> before[i] == rs[i] && before[..i] == rs[..i];
    if Undisturbed(room, rs, push, further, legacy) {
      forall i | 0 <= i < |before| && IsLegacy(before[i]) == legacy
        ensures Fits(room - PaidBy(before[..i]), push(before[i]), further(before[i]), Paid(before[i]))
      {
        assert rs[i] == before[i];
      }
      assert rs[|rs| - 1] == t;
    }
    if Undisturbed(room, before, push, further, legacy) && (IsLegacy(t) == legacy ==> Fits(room - PaidBy(before), push(t), further(t), Paid(t))) {
      forall i | 0 <= i < |rs| && IsLegacy(rs[i]) == legacy
        ensures Fits(room - PaidBy(rs[..i]), push(rs[i]), further(rs[i]), Paid(rs[i]))
      {
        if i < |before| {
          assert before[i] == rs[i];
        }
      }
    }
  }

  /** Pushed further, receipts take less or the same; the same exactly when each of them does. */
  lemma {:induction false} SharesPushed(room: int, rs: seq<Transaction>, push: Transaction -> int, further: Transaction -> int, legacy: bool)
    requires forall t :: t in rs ==> Paid(t) >= 0 && push(t) <= further(t)
    ensures Shares(room, rs, further, legacy) <= Shares(room, rs, push, legacy)
    ensures Shares(room, rs, further, legacy) == Shares(room, rs, push, legacy) <==> Undisturbed(room, rs, push, further, legacy)
  {
    hide Undisturbed;
    if rs == [] {
      assert Undisturbed(room, rs, push, further, legacy) by { NoneDisturbed(room, push, further, legacy); }
    } else {
      assert rs[|rs| - 1] in rs;
      SharesPushed(room, rs[..|rs| - 1], push, further, legacy);
      UndisturbedStep(room, rs, push, further, legacy);
    }
  }

  lemma NoneDisturbed(room: int, push: Transaction -> int, further: Transaction -> int, legacy: bool)
    ensures Undisturbed(room, [], push, further, legacy)
  {
  }

  lemma {:induction false} SharesSame(room: int, less: int, rs: seq<Transaction>, push: Transaction -> int, further: Transaction -> int, legacy: bool)
    requires forall t :: t in rs ==> further(t) == push(t) + less
    ensures Shares(room, rs, further, legacy) == Shares(room - less, rs, push, legacy)
  {
    if rs != [] {
      assert rs[|rs| - 1] in rs;
      SharesSame(room, less, rs[..|rs| - 1], push, further, legacy);
    }
  }

  // ----- one more receipt -----

  lemma {:induction false} PaidInsert(rs: seq<Transaction>, t: Transaction)
    ensures PaidBy(Insert(rs, t)) == PaidBy(rs) + Paid(t)
  {
    if rs != [] {
      var front, last := rs[..|rs| - 1], rs[|rs| - 1];
      if Earlier(last, t) {
        assert (rs + [t])[..|rs|] == rs;
      } else {
        PaidInsert(front, t);
        var us := Insert(front, t) + [last];
        assert us[..|us| - 1] == Insert(front, t);
      }
    }
  }

  lemma SharesAppend(room: int, rs: seq<Transaction>, t: Transaction, push: Transaction -> int, legacy: bool)
    ensures Shares(room, rs + [t], push, legacy) ==
            Shares(room, rs, push, legacy) + if IsLegacy(t) == legacy then Share(room - PaidBy(rs) - push(t), Paid(t)) else 0
  {
    assert (rs + [t])[..|rs|] == rs;
  }

  /** The receipts of the other sort are pushed by t when they come after it. */
  lemma {:induction false} SharesInsert(room: int, rs: seq<Transaction>, t: Transaction)
    requires Ordered(rs) && forall u :: u in rs ==> u.id != t.id
    ensures Shares(room, Insert(rs, t), Unmoved(), !IsLegacy(t)) == Shares(room, rs, Behind(t), !IsLegacy(t))
  {
    hide Shares, Share, PaidBy, Paid, IsLegacy;
    if rs == [] {
      assert [] + [t] == [t];
      SharesAppend(room, [], t, Unmoved(), !IsLegacy(t));
      SharesSame(room, 0, [], Unmoved(), Behind(t), !IsLegacy(t));
    } else {
      var front, last := rs[..|rs| - 1], rs[|rs| - 1];
      assert rs == front + [last];
      if Earlier(last, t) {
        forall u | u in rs ensures !Earlier(t, u) {
          if u in front { LastIsLatest(rs, u); }
        }
        SharesAppend(room, rs, t, Unmoved(), !IsLegacy(t));
        SharesSame(room, 0, rs, Unmoved(), Behind(t), !IsLegacy(t));
      } else {
        SharesInsert(room, front, t);
        PaidInsert(front, t);
        SharesAppend(room, front, last, Behind(t), !IsLegacy(t));
        SharesAppend(room, Insert(front, t), last, Unmoved(), !IsLegacy(t));
        assert Earlier(t, last);
      }
    }
  }

  /** Receipts are filtered in the order of the table. */
  lemma {:induction false} MatchedInserted(ts: seq<Transaction>, t: Transaction, plan: Month, through: Month)
    requires Ordered(ts) && Matches(t, plan, through)
    ensures Matched(Insert(ts, t), plan, through) == Insert(Matched(ts, plan, through), t)
  {
    hide Matches;
    if ts == [] {
      MatchedAppend([], t, plan, through);
    } else {
      var front, last := ts[..|ts| - 1], ts[|ts| - 1];
      assert ts == front + [last];
      var rs := Matched(ts, plan, through);
      MatchedShape(ts, plan, through);
      if Earlier(last, t) {
        MatchedAppend(ts, t, plan, through);
        if rs != [] {
          var u := rs[|rs| - 1];
          assert u in ts;
          if u in front { LastIsLatest(ts, u); }
        }
      } else {
        MatchedInserted(front, t, plan, through);
        MatchedAppend(Insert(front, t), last, plan, through);
        if Matches(last, plan, through) {
          assert rs[..|rs| - 1] == Matched(front, plan, through);
        } else {
          assert rs == Matched(front, plan, through);
        }
      }
    }
  }

  lemma {:induction false} MatchedOrdered(ts: seq<Transaction>, plan: Month, through: Month)
    requires Ordered(ts) && DistinctIds(ts)
    ensures Ordered(Matched(ts, plan, through)) && DistinctIds(Matched(ts, plan, through))
  {
    hide Matches;
    if ts != [] {
      var front, last := ts[..|ts| - 1], ts[|ts| - 1];
      MatchedOrdered(front, plan, through);
      MatchedShape(front, plan, through);
      if Matches(last, plan, through) {
        forall u | u in Matched(front, plan, through) ensures Earlier(u, last) && u.id != last.id {
          LastIsLatest(ts, u);
          var i :| 0 <= i < |front| && front[i] == u;
          assert ts[i].id != ts[|ts| - 1].id;
        }
        OrderedAppend(Matched(front, plan, through), last);
      } else {
        assert Matched(ts, plan, through) == Matched(front, plan, through);
      }
    }
  }

  // ----- how a plan in EUR drifts -----

  ghost predicate EuroAt(f: Facts, plan: Month)
    requires f.cent > 0
  {
    plan in f.plans && EuroPlan(f.cent, f.plans[plan]) && AllInEuro(f.cent, Matched(f.transactions, plan, f.current))
  }

  /** The drift of a plan when, beside its receipts, there is one of the given sort and
      amount that pushes the others. */
  ghost function DriftWith(f: Facts, plan: Month, legacy: bool, push: Transaction -> int, paid: int): int
    requires plan in f.plans
  {
    var p, rs := f.plans[plan], Matched(f.transactions, plan, f.current);
    var others := Shares(p.amount, rs, push, !legacy);
    var own := Share(p.amount, PaidBy(rs) + paid) - others;
    if p.completed.None? then if legacy then own else others
    else p.amount - p.shortfall - if legacy then others else own
  }

  /** Open, a plan in EUR drifts by what legacy receipts take of it; completed, by what
      neither salary nor the shortfall accounts for. */
  lemma EuroDrift(f: Facts, plan: Month, legacy: bool)
    requires WellFormed(f) && EuroAt(f, plan)
    ensures PlanDrift(f, plan) == DriftWith(f, plan, legacy, Unmoved(), 0)
    ensures var p, rs := f.plans[plan], Matched(f.transactions, plan, f.current);
            PlanDrift(f, plan) == if p.completed.None? then Shares(p.amount, rs, Unmoved(), true)
                                  else p.amount - p.shortfall - Shares(p.amount, rs, Unmoved(), false)
  {
    hide FundingPortion, CoveredBy, Received, Matched, Shares;
    var p, rs := f.plans[plan], Matched(f.transactions, plan, f.current);
    CoveredInEuro(f.cent, p, rs, false);
    ReceivedInEuro(f.cent, p, rs);
    CappedInEuro(f.cent, p, PaidBy(rs));
    SharesTotal(p.amount, rs);
  }

  lemma DriftEntered(f: Facts, t: Transaction, plan: Month)
    requires WellFormed(f) && EuroAt(f, plan) && Matches(t, plan, f.current) && InEuro(f.cent, t) && Enterable(f, t)
    ensures EuroAt(Entered(f, t), plan)
    ensures PlanDrift(Entered(f, t), plan) == DriftWith(f, plan, IsLegacy(t), Behind(t), Paid(t))
  {
    hide Matched, Shares, Insert, PlanDrift;
    var rs, p := Matched(f.transactions, plan, f.current), f.plans[plan];
    MatchedInserted(f.transactions, t, plan, f.current);
    InsertMembers(rs, t);
    InsertContinues(f, t, -1);
    EuroDrift(Entered(f, t), plan, IsLegacy(t));
    MatchedShape(f.transactions, plan, f.current);
    MatchedOrdered(f.transactions, plan, f.current);
    SharesInsert(p.amount, rs, t);
    PaidInsert(rs, t);
    SharesTotal(p.amount, Insert(rs, t));
  }

  /** A receipt lowers what is outstanding of its open plan by what it pays, down to nothing;
      no other plan is touched. */
  lemma OutstandingFalls(f: Facts, t: Transaction, plan: Month)
    requires WellFormed(f) && EuroAt(f, plan) && f.plans[plan].completed.None?
    requires Matches(t, plan, f.current) && InEuro(f.cent, t) && Enterable(f, t)
    ensures Outstanding(Entered(f, t), plan, f.current) == Positive(Outstanding(f, plan, f.current) - Paid(t))
    ensures forall p :: p != plan ==> Outstanding(Entered(f, t), p, f.current) == Outstanding(f, p, f.current)
  {
    hide Insert, Matched, FundingPortion, Received, PlanDrift;
    var p, rs := f.plans[plan], Matched(f.transactions, plan, f.current);
    DriftEntered(f, t, plan);
    MatchedInserted(f.transactions, t, plan, f.current);
    PaidInsert(rs, t);
    ReceivedInEuro(f.cent, p, rs);
    ReceivedInEuro(f.cent, p, Insert(rs, t));
    CappedInEuro(f.cent, p, PaidBy(rs));
    CappedInEuro(f.cent, p, PaidBy(Insert(rs, t)));
    forall q | q != plan ensures Outstanding(Entered(f, t), q, f.current) == Outstanding(f, q, f.current) {
      MatchedInsert(f.transactions, t, q, f.current);
    }
  }

  /** Nothing changes for the plan when the receipts of the other sort are undisturbed and,
      for a receipt of the sort the plan is settled by in its state, the plan is filled
      either way. */
  ghost predicate KeepsPlan(f: Facts, plan: Month, legacy: bool, push: Transaction -> int, paid: int, further: Transaction -> int, more: int)
    requires plan in f.plans
  {
    var p, rs := f.plans[plan], Matched(f.transactions, plan, f.current);
    && Undisturbed(p.amount, rs, push, further, !legacy)
    && (legacy == p.completed.None? ==> paid == more || (p.amount <= PaidBy(rs) + paid && p.amount <= PaidBy(rs) + more))
  }

  lemma DriftCompared(f: Facts, plan: Month, legacy: bool, push: Transaction -> int, paid: int, further: Transaction -> int, more: int)
    requires f.cent > 0 && EuroAt(f, plan) && 0 <= paid <= more
    requires forall u :: u in Matched(f.transactions, plan, f.current) ==> push(u) <= further(u)
    ensures var a, b := DriftWith(f, plan, legacy, push, paid), DriftWith(f, plan, legacy, further, more);
            && (legacy ==> a <= b) && (!legacy ==> b <= a)
            && (a == b <==> KeepsPlan(f, plan, legacy, push, paid, further, more))
  {
    hide Matched, Shares, Undisturbed;
    var p, rs := f.plans[plan], Matched(f.transactions, plan, f.current);
    SharesPushed(p.amount, rs, push, further, !legacy);
    ReceivedInEuro(f.cent, p, rs);
  }

  // ----- when entries, deletions, edits and new expectations keep the imbalance -----

  /** A receipt leaves the imbalance alone where it is entered into f. */
  ghost predicate HasRoom(f: Facts, t: Transaction)
    requires t.expected.Some? && t.expected.value in f.plans
  {
    KeepsPlan(f, t.expected.value, IsLegacy(t), Unmoved(), 0, Behind(t), Paid(t))
  }

  /** Facts and a receipt beside them, of a plan in EUR; it budgets what it brings. */
  ghost predicate EuroReceipt(f: Facts, t: Transaction)
    requires f.cent > 0
  {
    Enterable(f, t) && Mismatch(f, t) == 0 && SettlesPlan(f, t) && InEuro(f.cent, t) && EuroAt(f, t.expected.value)
  }

  /** Entering salary lowers the imbalance or keeps it, entering a legacy receipt raises it
      or keeps it; each keeps it exactly when it has room. */
  lemma ReceiptMoves(f: Facts, t: Transaction)
    requires WellFormed(f) && EuroReceipt(f, t)
    ensures if IsLegacy(t) then Moves(f, t) >= 0 else Moves(f, t) <= 0
    ensures Moves(f, t) == 0 <==> HasRoom(f, t)
  {
    hide PlanDrift, DriftWith, Matched, KeepsPlan;
    var plan := t.expected.value;
    DriftEntered(f, t, plan);
    EuroDrift(f, plan, IsLegacy(t));
    DriftCompared(f, plan, IsLegacy(t), Unmoved(), 0, Behind(t), Paid(t));
  }

  /** Every legacy receipt after u fits with it, or found the plan used up. */
  ghost predicate LegacyFits(room: int, rs: seq<Transaction>, u: Transaction)
  {
    forall i :: 0 <= i < |rs| && IsLegacy(rs[i]) && Earlier(u, rs[i]) && Paid(rs[i]) > 0 ==>
      PaidBy(rs[..i]) + Paid(u) + Paid(rs[i]) <= room || room <= PaidBy(rs[..i])
  }

  lemma LegacyFitsIs(room: int, rs: seq<Transaction>, u: Transaction)
    requires Paid(u) > 0 && forall i :: 0 <= i < |rs| ==> Paid(rs[i]) >= 0
    ensures LegacyFits(room, rs, u) <==> Undisturbed(room, rs, Unmoved(), Behind(u), true)
  {
    hide PaidBy, Paid;
    if LegacyFits(room, rs, u) {
      forall i | 0 <= i < |rs| && IsLegacy(rs[i])
        ensures Fits(room - PaidBy(rs[..i]), Unmoved()(rs[i]), Behind(u)(rs[i]), Paid(rs[i]))
      {
      }
    }
    if Undisturbed(room, rs, Unmoved(), Behind(u), true) {
      forall i | 0 <= i < |rs| && IsLegacy(rs[i]) && Earlier(u, rs[i]) && Paid(rs[i]) > 0
        ensures PaidBy(rs[..i]) + Paid(u) + Paid(rs[i]) <= room || room <= PaidBy(rs[..i])
      {
        assert Fits(room - PaidBy(rs[..i]), Unmoved()(rs[i]), Behind(u)(rs[i]), Paid(rs[i]));
      }
    }
  }

  /** Salary for a plan in EUR keeps the imbalance if and only if every legacy receipt dated
      after it still fits under the plan with it, or found the plan used up already. */
  lemma CreateKeepsWhen(f: Facts, frozen: set<Month>, t: Transaction, base: int)
    requires WellFormed(f) && NoneLater(f) && CanCreate(f, frozen, t)
    requires EuroReceipt(f, WithReceipt(t, Posted(f, t, NoReceipt)))
    ensures var u := WithReceipt(t, Posted(f, t, NoReceipt));
            var p, rs := f.plans[u.expected.value], Matched(f.transactions, u.expected.value, f.current);
            && Imbalance(Created(f, t), base) <= Imbalance(f, base)
            && (Imbalance(Created(f, t), base) == Imbalance(f, base) <==>
                Paid(u) == 0 || LegacyFits(p.amount, rs, u))
  {
    hide Imbalance, Moves, PaidBy, Matched, Mismatch, LegacyFits;
    var u := WithReceipt(t, Posted(f, t, NoReceipt));
    InsertMoves(f, u, base);
    ReceiptMoves(f, u);
    var p, rs := f.plans[u.expected.value], Matched(f.transactions, u.expected.value, f.current);
    assert p.completed.None? && !IsLegacy(u);
    assert forall i :: 0 <= i < |rs| ==> Paid(rs[i]) >= 0 by {
      assert forall i :: 0 <= i < |rs| ==> rs[i] in rs;
    }
    if Paid(u) > 0 {
      LegacyFitsIs(p.amount, rs, u);
    }
  }

  /** Deleting a receipt keeps the imbalance if and only if it has room among the others:
      of an open plan, when later legacy receipts are undisturbed and a legacy receipt was
      not needed to fill the plan; of a completed one, the same with salary. */
  lemma DeleteKeepsWhen(f: Facts, frozen: set<Month>, was: Transaction, base: int)
    requires WellFormed(f) && NoneLater(f) && was in f.transactions && CanDelete(f, frozen, was.id)
    requires EuroReceipt(Deleted(f, was.id), was)
    ensures var rest := Deleted(f, was.id);
            && (if IsLegacy(was) then Imbalance(rest, base) <= Imbalance(f, base) else Imbalance(rest, base) >= Imbalance(f, base))
            && (Imbalance(rest, base) == Imbalance(f, base) <==> HasRoom(rest, was))
  {
    hide Imbalance, Moves, HasRoom, Remove, Insert;
    RemoveMoves(f, was, base);
    ReceiptMoves(Deleted(f, was.id), was);
  }

  /** What entering t does to its plan, read off the other receipts. */
  ghost function MovesBy(f: Facts, t: Transaction): int
    requires SettlesPlan(f, t) ==> t.expected.value in f.plans
  {
    if !SettlesPlan(f, t) then 0
    else DriftWith(f, t.expected.value, IsLegacy(t), Behind(t), Paid(t)) - DriftWith(f, t.expected.value, IsLegacy(t), Unmoved(), 0)
  }

  lemma MovesInEuro(f: Facts, t: Transaction)
    requires WellFormed(f) && Mismatch(f, t) == 0 && (SettlesPlan(f, t) ==> EuroReceipt(f, t))
    ensures Moves(f, t) == MovesBy(f, t)
  {
    hide PlanDrift, DriftWith, Matched, Mismatch;
    if SettlesPlan(f, t) {
      DriftEntered(f, t, t.expected.value);
      EuroDrift(f, t.expected.value, IsLegacy(t));
    }
  }

  /** Any edit, also one that takes a receipt to another plan, sort or place, moves the
      imbalance by what its new form does to the other receipts less what the old one did. */
  lemma EditMovesBy(f: Facts, was: Transaction, t: Transaction, base: int)
    requires WellFormed(f) && NoneLater(f) && was in f.transactions && was.id == t.id && was.month == t.month <= f.current
    requires !Posted(f, t, ReceiptOf(was)).Rejected?
    requires var u, rest := WithReceipt(t, Posted(f, t, ReceiptOf(was))), Deleted(f, was.id);
             && !IsLater(f, f.current, u) && Mismatch(f, was) == Mismatch(f, u) == 0
             && (SettlesPlan(f, was) ==> EuroReceipt(rest, was)) && (SettlesPlan(f, u) ==> EuroReceipt(rest, u))
    ensures var u, rest := WithReceipt(t, Posted(f, t, ReceiptOf(was))), Deleted(f, was.id);
            Imbalance(Edited(f, was, t), base) - Imbalance(f, base) == MovesBy(rest, u) - MovesBy(rest, was)
  {
    hide Imbalance, Moves, MovesBy, Remove, Insert, Mismatch;
    var u, rest := WithReceipt(t, Posted(f, t, ReceiptOf(was))), Deleted(f, was.id);
    EditMoves(f, was, t, base);
    MismatchSame(f, rest, was);
    MismatchSame(f, rest, u);
    MovesInEuro(rest, was);
    MovesInEuro(rest, u);
  }

  /** An edit that moves an entry in or out of the receipts of a plan is a creation or a
      deletion there. */
  lemma EditInOrOut(f: Facts, was: Transaction, t: Transaction, base: int)
    requires WellFormed(f) && NoneLater(f) && was in f.transactions && was.id == t.id && was.month == t.month <= f.current
    requires !Posted(f, t, ReceiptOf(was)).Rejected?
    requires var u, rest := WithReceipt(t, Posted(f, t, ReceiptOf(was))), Deleted(f, was.id);
             && !IsLater(f, f.current, u) && Mismatch(f, was) == Mismatch(f, u) == 0
             && SettlesPlan(f, was) != SettlesPlan(f, u)
             && (SettlesPlan(f, was) ==> EuroReceipt(rest, was)) && (SettlesPlan(f, u) ==> EuroReceipt(rest, u))
    ensures var u, rest := WithReceipt(t, Posted(f, t, ReceiptOf(was))), Deleted(f, was.id);
            Imbalance(Edited(f, was, t), base) == Imbalance(f, base) <==>
            HasRoom(rest, if SettlesPlan(f, was) then was else u)
  {
    hide Imbalance, HasRoom, Remove, Insert, PlanDrift, Mismatch;
    var u, rest := WithReceipt(t, Posted(f, t, ReceiptOf(was))), Deleted(f, was.id);
    EditMoves(f, was, t, base);
    MismatchSame(f, rest, was);
    MismatchSame(f, rest, u);
    ReceiptMoves(rest, if SettlesPlan(f, was) then was else u);
  }

  lemma MismatchSame(f: Facts, g: Facts, t: Transaction)
    requires f.categories == g.categories && f.first == g.first && f.start == g.start
    ensures Mismatch(f, t) == Mismatch(g, t)
  {
  }

  /** The edit pushes the other receipts in one direction only. */
  predicate OneWay(was: Transaction, u: Transaction)
  {
    (u.day <= was.day && Paid(was) <= Paid(u)) || (was.day <= u.day && Paid(u) <= Paid(was))
  }

  /** An edit that leaves a receipt with its plan and sort, and pushes the others one way,
      keeps the imbalance if and only if the others are undisturbed between both places. */
  lemma EditKeepsWhen(f: Facts, was: Transaction, t: Transaction, base: int)
    requires WellFormed(f) && NoneLater(f) && was in f.transactions && was.id == t.id && was.month == t.month <= f.current
    requires !Posted(f, t, ReceiptOf(was)).Rejected?
    requires var u, rest := WithReceipt(t, Posted(f, t, ReceiptOf(was))), Deleted(f, was.id);
             && EuroReceipt(rest, was) && EuroReceipt(rest, u) && OneWay(was, u)
             && u.expected == was.expected && IsLegacy(u) == IsLegacy(was)
    ensures var u, rest := WithReceipt(t, Posted(f, t, ReceiptOf(was))), Deleted(f, was.id);
            Imbalance(Edited(f, was, t), base) == Imbalance(f, base) <==>
            KeepsPlan(rest, was.expected.value, IsLegacy(was), Behind(was), Paid(was), Behind(u), Paid(u))
  {
    hide Imbalance, Remove, Insert, PlanDrift, DriftWith, Matched, Mismatch, KeepsPlan;
    var u, rest := WithReceipt(t, Posted(f, t, ReceiptOf(was))), Deleted(f, was.id);
    var plan, legacy := was.expected.value, IsLegacy(was);
    EditMoves(f, was, t, base);
    DriftEntered(rest, was, plan);
    DriftEntered(rest, u, plan);
    if u.day <= was.day && Paid(was) <= Paid(u) {
      DriftCompared(rest, plan, legacy, Behind(was), Paid(was), Behind(u), Paid(u));
    } else {
      DriftCompared(rest, plan, legacy, Behind(u), Paid(u), Behind(was), Paid(was));
      KeepsPlanBack(rest, plan, legacy, Behind(u), Paid(u), Behind(was), Paid(was));
    }
  }

  lemma KeepsPlanBack(f: Facts, plan: Month, legacy: bool, push: Transaction -> int, paid: int, further: Transaction -> int, more: int)
    requires plan in f.plans
    ensures KeepsPlan(f, plan, legacy, push, paid, further, more) <==> KeepsPlan(f, plan, legacy, further, more, push, paid)
  {
    hide PaidBy, Matched;
  }

  /** Every legacy receipt fits under both plans, or found both used up. */
  ghost predicate FitsBoth(a: int, b: int, rs: seq<Transaction>)
  {
    forall i :: 0 <= i < |rs| && IsLegacy(rs[i]) && Paid(rs[i]) > 0 ==>
      var used := PaidBy(rs[..i]);
      (used + Paid(rs[i]) <= a && used + Paid(rs[i]) <= b) || (a <= used && b <= used)
  }

  /** Less room, or more of it, is the same as a push on every receipt. */
  lemma SharesOfPlans(a: int, b: int, rs: seq<Transaction>)
    requires forall t :: t in rs ==> Paid(t) >= 0
    requires b <= a
    ensures Shares(b, rs, Unmoved(), true) <= Shares(a, rs, Unmoved(), true)
    ensures Shares(b, rs, Unmoved(), true) == Shares(a, rs, Unmoved(), true) <==> a == b || FitsBoth(a, b, rs)
  {
    hide Shares, PaidBy, Paid, IsLegacy, Undisturbed;
    SharesSame(a, a - b, rs, Unmoved(), Less(a - b), true);
    SharesPushed(a, rs, Unmoved(), Less(a - b), true);
    if b < a {
      FitsBothIs(a, b, rs);
    }
  }

  lemma FitsBothIs(a: int, b: int, rs: seq<Transaction>)
    requires b < a && forall t :: t in rs ==> Paid(t) >= 0
    ensures FitsBoth(a, b, rs) <==> Undisturbed(a, rs, Unmoved(), Less(a - b), true)
  {
    hide PaidBy, Paid, IsLegacy;
    if FitsBoth(a, b, rs) {
      forall i | 0 <= i < |rs| && IsLegacy(rs[i])
        ensures Fits(a - PaidBy(rs[..i]), Unmoved()(rs[i]), Less(a - b)(rs[i]), Paid(rs[i]))
      {
        assert rs[i] in rs;
      }
    }
  }

  /** Replanning an open month in EUR keeps the imbalance if and only if every legacy receipt
      fits under both plans or found both used up. */
  lemma ExpectKeepsWhen(f: Facts, frozen: set<Month>, e: Setting, quote: Quote, base: int)
    requires WellFormed(f) && NoneLater(f) && CanExpect(f, e, f.current) && f.current !in frozen
    requires EuroAt(f, f.current) && f.plans[f.current].completed.None?
    requires EuroPlan(f.cent, NewPlan(ExpectedFrom(f, frozen, e, f.current, quote), f.current, quote))
    ensures var g := ExpectedFrom(f, frozen, e, f.current, quote);
            var a, b := f.plans[f.current].amount, e.amount;
            && (if a <= b then Imbalance(f, base) <= Imbalance(g, base) else Imbalance(g, base) <= Imbalance(f, base))
            && (Imbalance(g, base) == Imbalance(f, base) <==>
                a == b || FitsBoth(a, b, Matched(f.transactions, f.current, f.current)))
  {
    hide Imbalance, PaidBy, Matched, Shares, PlanDrift, FitsBoth, DriftWith;
    var g := ExpectedFrom(f, frozen, e, f.current, quote);
    var a, b, rs := f.plans[f.current].amount, e.amount, Matched(f.transactions, f.current, f.current);
    ExpectMoves(f, frozen, e, f.current, quote, base);
    EuroDrift(f, f.current, true);
    EuroDrift(g, f.current, true);
    if b <= a {
      SharesOfPlans(a, b, rs);
    } else {
      SharesOfPlans(b, a, rs);
      assert FitsBoth(a, b, rs) <==> FitsBoth(b, a, rs) by { FitsBothTurned(a, b, rs); }
    }
  }

  lemma FitsBothTurned(a: int, b: int, rs: seq<Transaction>)
    ensures FitsBoth(a, b, rs) <==> FitsBoth(b, a, rs)
  {
    hide PaidBy, Paid, IsLegacy;
  }

  // ----- accepted steps that change it -----

  /** A household with one plan, in month 1, and the given receipts. */
  function Household(p: Plan, ts: seq<Transaction>): Facts
  {
    Facts(1, 1, 1, 1, 28, ["food"], map["food" := 0], 0, map[("food", 1) := 0], map[], map[1 := p], ts, [])
  }

  function Hundred(): Plan { Plan(100, "EUR", 100, None, 0) }

  function IncomeOf(id: nat, day: nat, amount: int, treatment: Treatment): Transaction
  {
    Transaction(id, Income, 1, day, amount, "EUR", None, Some(if treatment.Legacy? then "food" else UNALLOCATED),
                false, true, 0, amount, 0, amount, "EUR", Some(treatment), Some(1))
  }

  /** 80 received before activation. */
  function Eighty(): Transaction { IncomeOf(1, 10, 80, Legacy) }

  lemma HouseholdIs(p: Plan, ts: seq<Transaction>)
    requires EuroPlan(1, p) && (p.completed == Some(1) || (p.completed.None? && p.shortfall == 0))
    requires ts == [] || exists t :: ts == [t] && t.month == 1 && t.day <= 28 && Matches(t, 1, 1) && InEuro(1, t)
    ensures var f := Household(p, ts); WellFormed(f) && NoneLater(f) && EuroAt(f, 1) && Matched(ts, 1, 1) == ts
  {
    if ts != [] {
      assert ts[..0] == [];
    }
    assert Monthly(map[("food", 1) := 0], "food", 1) == Some(0);
  }

  lemma SharesOfOne(room: int, t: Transaction, push: Transaction -> int, legacy: bool)
    ensures Shares(room, [t], push, legacy) == if IsLegacy(t) == legacy then Share(room - push(t), Paid(t)) else 0
    ensures PaidBy([t]) == Paid(t)
  {
    assert [t][..0] == [];
  }

  lemma SalaryBeforeEighty(t: Transaction)
    requires t.id != 1 && t == IncomeOf(t.id, 5, t.amount, Salary) && t.amount >= 0
    ensures var f := Household(Hundred(), [Eighty()]);
            && WellFormed(f) && NoneLater(f) && EuroReceipt(f, t)
            && Moves(f, t) == Share(100 - t.amount, 80) - 80
  {
    hide PlanDrift, Insert, Matched, Shares, PaidBy;
    var f := Household(Hundred(), [Eighty()]);
    HouseholdIs(Hundred(), [Eighty()]);
    DriftEntered(f, t, 1);
    EuroDrift(f, 1, false);
    SharesOfOne(100, Eighty(), Behind(t), true);
    SharesOfOne(100, Eighty(), Unmoved(), true);
  }

  /** Salary of 50 dated before the 80: they no longer fit together under 100. */
  lemma BackdatedSalaryBreaks()
    ensures var f, t := Household(Hundred(), [Eighty()]), IncomeOf(2, 5, 50, Salary);
            && WellFormed(f) && NoneLater(f) && CanCreate(f, {}, t)
            && Imbalance(Created(f, t), 0) == Imbalance(f, 0) - 30
  {
    hide Imbalance, Moves, EuroReceipt;
    var f, t := Household(Hundred(), [Eighty()]), IncomeOf(2, 5, 50, Salary);
    SalaryBeforeEighty(t);
    assert Find(f.transactions, 2).None? by { assert f.transactions[..0] == []; }
    assert WithReceipt(t, Posted(f, t, NoReceipt)) == t;
    EnterableIs(f, t);
    InsertMoves(f, t, 0);
  }

  lemma EnterableIs(f: Facts, t: Transaction)
    requires f.cent > 0 && EuroReceipt(f, t)
    ensures Enterable(f, t)
  {
  }

  /** The same salary entered as 10 and then edited to 50. */
  lemma EditedSalaryBreaks()
    ensures var f, t := Created(Household(Hundred(), [Eighty()]), IncomeOf(2, 5, 10, Salary)), IncomeOf(2, 5, 50, Salary);
            && WellFormed(f) && NoneLater(f) && CanEdit(f, {}, t)
            && Imbalance(Edited(f, IncomeOf(2, 5, 10, Salary), t), 0) == Imbalance(f, 0) - 30
  {
    hide Imbalance, Moves, EuroReceipt, Remove;
    var was, t := IncomeOf(2, 5, 10, Salary), IncomeOf(2, 5, 50, Salary);
    var rest := Household(Hundred(), [Eighty()]);
    SalaryBeforeEighty(was);
    SalaryBeforeEighty(t);
    EnterableIs(rest, was);
    InsertMoves(rest, was, 0);
    var f := Created(rest, was);
    assert f == Entered(rest, was) && f.transactions == [was, Eighty()] by { assert rest.transactions[..0] == []; }
    assert Find(f.transactions, 2) == Some(was) by { assert f.transactions[..1] == [was]; }
    assert WithReceipt(t, Posted(f, t, ReceiptOf(was))) == t;
    assert was in f.transactions;
    EditMoves(f, was, t, 0);
    assert Deleted(f, 2) == rest by { RemoveFirst(was, Eighty()); }
  }

  lemma RemoveFirst(t: Transaction, u: Transaction)
    requires t.id != u.id
    ensures Remove([t, u], t.id) == [u]
  {
    RemoveOnly(t);
    assert [t, u][..1] == [t];
  }

  lemma RemoveOnly(t: Transaction)
    ensures Remove([t], t.id) == []
  {
    assert [t][..0] == [];
  }

  /** Deleting salary of 80 from a plan completed 20 short, and deleting the 80 from before
      activation out of an open plan. */
  lemma DeletionBreaks()
    ensures var f := Household(Plan(100, "EUR", 100, Some(1), 20), [IncomeOf(1, 5, 80, Salary)]);
            && WellFormed(f) && NoneLater(f) && CanDelete(f, {}, 1)
            && Imbalance(Deleted(f, 1), 0) == Imbalance(f, 0) + 80
    ensures var f := Household(Hundred(), [Eighty()]);
            && WellFormed(f) && NoneLater(f) && CanDelete(f, {}, 1)
            && Imbalance(Deleted(f, 1), 0) == Imbalance(f, 0) - 80
  {
    hide Imbalance, WellFormed, NoneLater, CanDelete, Deleted, Household;
    OnlyReceipt(Plan(100, "EUR", 100, Some(1), 20), IncomeOf(1, 5, 80, Salary));
    OnlyReceipt(Hundred(), Eighty());
  }

  lemma OnlyReceipt(p: Plan, t: Transaction)
    requires EuroPlan(1, p) && (p.completed == Some(1) || (p.completed.None? && p.shortfall == 0))
    requires t.id == 1 && t.day <= 28 && t.amount >= 0
    requires t == IncomeOf(1, t.day, t.amount, if IsLegacy(t) then Legacy else Salary)
    requires p.amount >= t.amount
    ensures var f := Household(p, [t]);
            && WellFormed(f) && NoneLater(f) && CanDelete(f, {}, 1)
            && Imbalance(Deleted(f, 1), 0) - Imbalance(f, 0) ==
               if IsLegacy(t) == p.completed.None? then if IsLegacy(t) then -t.amount else t.amount else 0
  {
    hide Imbalance, PlanDrift, Insert, Matched;
    var f, rest := Household(p, [t]), Household(p, []);
    HouseholdIs(p, [t]);
    HouseholdIs(p, []);
    assert Find(f.transactions, 1) == Some(t);
    RemoveOnly(t);
    RemoveMoves(f, t, 0);
    DriftEntered(rest, t, 1);
    EuroDrift(rest, 1, IsLegacy(t));
  }

  /** Expecting 50 instead of 100 for the month the 80 settles. */
  lemma ReplanningBreaks()
    ensures exists quote: Quote ::
              var f, e := Household(Hundred(), [Eighty()]), Setting(50, "EUR");
              && WellFormed(f) && NoneLater(f) && CanExpect(f, e, 1)
              && Imbalance(ExpectedFrom(f, {}, e, 1, quote), 0) == Imbalance(f, 0) - 30
  {
    hide Imbalance, PlanDrift, Matched, Shares;
    var quote: Quote := (a, c, m) => a;
    var f, e := Household(Hundred(), [Eighty()]), Setting(50, "EUR");
    HouseholdIs(Hundred(), [Eighty()]);
    ExpectMoves(f, {}, e, 1, quote, 0);
    var g := ExpectedFrom(f, {}, e, 1, quote);
    assert g.plans[1] == Plan(50, "EUR", 50, None, 0);
    EuroDrift(f, 1, true);
    EuroDrift(g, 1, true);
    SharesOfOne(100, Eighty(), Unmoved(), true);
    SharesOfOne(50, Eighty(), Unmoved(), true);
  }
}
