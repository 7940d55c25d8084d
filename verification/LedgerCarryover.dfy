/** How facts travel through carryover, and when Unallocated is read as it stands. */
module LedgerCarryover {
  import opened LedgerRows
  import opened Rounding
  import opened LedgerFacts
  import opened LedgerEffects
  import opened LedgerBalances
  import opened LedgerSteps
  import opened LedgerTotals
  import opened LedgerSalary
  import opened LedgerRuns

  // ----- one more transaction -----

  lemma {:induction false} FiguresInsert(ts: seq<Transaction>, t: Transaction, c: Category, m: Month, ledger: bool)
    ensures SpendingIn(Insert(ts, t), c, m, ledger) == SpendingIn(ts, c, m, ledger) + if t.month == m then SpendingOf(t, c, ledger) else 0
    ensures ImpactIn(Insert(ts, t), c, m) == ImpactIn(ts, c, m) + if t.month == m then Impact(t, c) else 0
  {
    if ts != [] {
      var front, last := ts[..|ts| - 1], ts[|ts| - 1];
      if Earlier(last, t) {
        assert (ts + [t])[..|ts|] == ts;
      } else {
        FiguresInsert(front, t, c, m, ledger);
        var u := Insert(front, t) + [last];
        assert u[..|u| - 1] == Insert(front, t);
      }
    }
  }

  /** A transaction lowers a category by what it spends and reallocates away, in its own
      month and by the same amount in every later one; earlier months keep their balance. */
  lemma {:induction false} CarriesForward(f: Facts, t: Transaction, c: Category, m: int)
    requires t.month >= f.first
    ensures Balance(f.(transactions := Insert(f.transactions, t)), c, m) ==
            Balance(f, c, m) - if m >= t.month then SpendingOf(t, c, t.month >= f.start) + Impact(t, c) else 0
    decreases m - f.first
  {
    if m >= f.first {
      CarriesForward(f, t, c, m - 1);
      FiguresInsert(f.transactions, t, c, m, m >= f.start);
    }
  }

  // ----- when reports read Unallocated as the movements have it -----

  /** What reports show beyond the movements: the freeze, and plans read as unmade. */
  ghost function Beyond(f: Facts, rows: seq<Movement>, closed: int, phantom: map<Month, int>, quote: Quote, m: int): int
    decreases m - f.start
  {
    if m < f.start then 0
    else if m <= closed then if m in phantom then phantom[m] else 0
    else Beyond(f, rows, closed, phantom, quote, m - 1) + Unmade(f, rows, m, quote)
  }

  lemma {:induction false} ShownIs(f: Facts, rows: seq<Movement>, closed: int, phantom: map<Month, int>, quote: Quote, m: int)
    requires f.cent > 0
    ensures Shown(f, rows, closed, phantom, quote, m) == Unallocated(f, m) + Beyond(f, rows, closed, phantom, quote, m)
    decreases m - f.start
  {
    hide Effects, SumIn, Unmade;
    if m >= f.start && m > closed {
      ShownIs(f, rows, closed, phantom, quote, m - 1);
    }
  }

  ghost predicate ReadAsIs(f: Facts, rows: seq<Movement>, closed: int, phantom: map<Month, int>, quote: Quote, m: int)
    requires f.cent > 0
  {
    Shown(f, rows, closed, phantom, quote, m) == Unallocated(f, m)
  }

  /** The month has a funding movement, or its current expectation is worth nothing. */
  ghost predicate PlanMade(f: Facts, rows: seq<Movement>, quote: Quote, m: Month)
  {
    Funded(rows, m) || NewPlan(f, m, quote).amountEur == 0
  }

  /** Reports show every open month up to m as the movements have it if and only if each of
      them has a funding movement or a current expectation worth nothing. */
  lemma {:induction false} ShownRight(f: Facts, rows: seq<Movement>, closed: int, phantom: map<Month, int>, quote: Quote, m: int)
    requires f.cent > 0 && closed <= m <= f.current
    requires f.start <= closed && closed in phantom ==> phantom[closed] == 0
    ensures ReadAsIs(f, rows, closed, phantom, quote, closed)
    ensures (forall k: Month :: closed < k <= m && f.start <= k ==> ReadAsIs(f, rows, closed, phantom, quote, k))
            <==> (forall k: Month :: closed < k <= m && f.start <= k ==> PlanMade(f, rows, quote, k))
    ensures (forall k: Month :: closed < k <= m && f.start <= k ==> PlanMade(f, rows, quote, k)) ==> ReadAsIs(f, rows, closed, phantom, quote, m)
    decreases m - f.start
  {
    hide Effects, SumIn, Funded, NewPlan, Shown, Unallocated;
    ShownIs(f, rows, closed, phantom, quote, closed);
    ShownIs(f, rows, closed, phantom, quote, m);
    if m > closed && m >= f.start {
      ShownRight(f, rows, closed, phantom, quote, m - 1);
      ShownIs(f, rows, closed, phantom, quote, m - 1);
      if ReadAsIs(f, rows, closed, phantom, quote, m - 1) {
        assert ReadAsIs(f, rows, closed, phantom, quote, m) <==> PlanMade(f, rows, quote, m);
      }
    }
  }

  /** In a ledger in line with its facts, a month without a funding movement is planned at
      nothing; so what reports add to it nobody planned. */
  lemma UnfundedPlansNothing(f: Facts, rows: seq<Movement>, m: Month)
    requires WellFormed(f) && f.start <= m <= f.current && !Funded(rows, m)
    requires forall s :: Net(rows, s) == Net(Effects(f), s)
    ensures PlannedEur(f.plans, m) == 0
  {
    hide Net, Effects, MonthRows, WellFormed;
    NetNone(rows, FundingSlot(m));
    NetEffects(f, FundingSlot(m));
    NetMonth(f, m, FundingSlot(m));
  }

  // ----- a month nothing has happened in -----

  lemma {:induction false} NoRowsIn(cs: seq<Category>, m: Month, ts: seq<Transaction>)
    requires forall t :: t in ts ==> t.month != m
    ensures TransactionsRows(cs, m, ts) == []
  {
    if ts != [] {
      assert ts[|ts| - 1] in ts;
      NoRowsIn(cs, m, ts[..|ts| - 1]);
    }
  }

  lemma {:induction false} NoCorrectionsIn(m: Month, items: seq<CorrectionItem>)
    requires forall i :: i in items ==> i.month != m
    ensures CorrectionRows(m, items) == []
  {
    if items != [] {
      assert items[|items| - 1] in items;
      NoCorrectionsIn(m, items[..|items| - 1]);
    }
  }

  ghost predicate Quiet(f: Facts, m: Month)
  {
    && (forall t :: t in f.transactions ==> t.month != m)
    && (forall i :: i in f.corrections ==> i.month != m)
    && (forall p :: p in f.plans ==> f.plans[p].completed != Some(m))
  }

  lemma QuietSlot(f: Facts, m: Month, s: Slot)
    requires WellFormed(f) && f.start <= m <= f.current && Quiet(f, m)
    requires s.month == m && s.category == UNALLOCATED
    ensures Net(Effects(f), s) ==
            if s == FundingSlot(m) then PlannedEur(f.plans, m)
            else if s == AllocationsSlot(m) then -TotalAllocated(f.periods, m, f.categories)
            else 0
  {
    hide Net, Effects, PlanRows, ExcessRows, MonthRows;
    if !Proper(f, s) {
      NetImproper(f, s);
    } else {
      NetEffects(f, s);
      if PlanKey(s.key) {
        var p := PlanOf(s.key);
        NetPlan(f, p, s);
        var rs := Matched(f.transactions, p, f.current);
        MatchedShape(f.transactions, p, f.current);
        ExcessRowsShape(f.cent, f.plans[p], p, rs);
        if s.key.Excess? {
          NetNone(ExcessRows(f.cent, f.plans[p], p, rs), s);
        }
      } else {
        NetMonth(f, m, s);
        NoRowsIn(f.categories, m, f.transactions);
        NoCorrectionsIn(m, f.corrections);
        NetNone([], s);
      }
    }
  }

  /** A month without transactions, corrections or completions adds its plan less its allocations. */
  lemma QuietMonth(f: Facts, m: Month)
    requires WellFormed(f) && f.start <= m <= f.current && Quiet(f, m)
    ensures SumIn(Effects(f), InUnallocated(m)) == PlannedEur(f.plans, m) - TotalAllocated(f.periods, m, f.categories)
  {
    hide Net, Effects, SumIn;
    var a := Movement(FundingSlot(m), PlannedEur(f.plans, m));
    var b := Movement(AllocationsSlot(m), -TotalAllocated(f.periods, m, f.categories));
    forall s | InUnallocated(m)(s) ensures Net(Effects(f), s) == Net([a] + [b], s) {
      NetConcat([a], [b], s);
      NetSingle(a, s);
      NetSingle(b, s);
      QuietSlot(f, m, s);
    }
    SameNetsSameSum(Effects(f), [a] + [b], InUnallocated(m));
    SumConcat([a], [b], InUnallocated(m));
    SumSingle(a, InUnallocated(m));
    SumSingle(b, InUnallocated(m));
  }

  lemma RolledQuiet(f: Facts, month: Month, day: nat, quote: Quote, m: Month)
    requires WellFormed(f) && CanRoll(f, month, day) && f.current < m
    ensures Quiet(Materialised(Rolled(f, month, day), quote), m)
  {
    hide NewPlan;
    var g := Materialised(Rolled(f, month, day), quote);
    forall p | p in g.plans ensures g.plans[p].completed != Some(m) {
      if p !in f.plans {
        NewPlanOpen(Rolled(f, month, day), p, quote);
      }
    }
  }

  /** Forecast months read the same before and after their plans are made: each adds the
      expectation then in force less the allocations then in force. */
  lemma ForecastMonth(f: Facts, rows: seq<Movement>, month: Month, day: nat, quote: Quote, m: Month)
    requires WellFormed(f) && AllProper(f, rows) && CanRoll(f, month, day) && f.current < m <= month
    ensures var g := Materialised(Rolled(f, month, day), quote);
            && WellFormed(g)
            && SumIn(Effects(g), InUnallocated(m)) == SumIn(Effects(f), InUnallocated(m)) + Unmade(f, rows, m, quote)
            && (forall c :: Balance(g, c, m) == Balance(f, c, m))
  {
    hide Effects, SumIn, Balance, NewPlan;
    var g := Materialised(Rolled(f, month, day), quote);
    RollContinues(f, month, day, -1);
    RolledWellFormed(f, month, day, quote);
    NewPlanSame(f, month, day, m, quote);
    RolledQuiet(f, month, day, quote, m);
    QuietMonth(g, m);
    EffectsReal(f);
    SumNone(Effects(f), InUnallocated(m));
    forall c ensures Balance(g, c, m) == Balance(f, c, m) {
      BalanceSame(g, f, c, m);
    }
    assert !Funded(rows, m);
  }

  lemma NewPlanSame(f: Facts, month: Month, day: nat, m: Month, quote: Quote)
    ensures NewPlan(Rolled(f, month, day), m, quote) == NewPlan(f, m, quote)
  {
  }

  // ----- a month read wrong -----

  /** A completed expectation of nothing is not replanned; a later setting for the same
      month is then shown as funding no movement holds. */
  lemma CompletedNothingIsShownAsFunding()
    ensures exists f: Facts, g: Facts, quote: Quote ::
              && WellFormed(f) && f.start == g.start == g.current && WellFormed(g)
              && CanComplete(f, f.current) && CanExpect(Completed(f, f.current), Setting(100, "EUR"), f.current)
              && g == ExpectedFrom(Completed(f, f.current), {}, Setting(100, "EUR"), f.current, quote)
              && (forall s :: Net([], s) == Net(Effects(g), s))
              && Unallocated(g, g.current) == 0
              && Shown(g, [], 0, map[], quote, g.current) == 100
  {
    hide *;
    var f, g, quote := ExpectedAfterCompletion();
    NothingCalledFor(g);
    ReadAsUnmade(g, quote);
  }

  lemma ExpectedAfterCompletion() returns (f: Facts, g: Facts, quote: Quote)
    ensures WellFormed(f) && WellFormed(g) && f.start == f.current == 1
    ensures CanComplete(f, f.current) && CanExpect(Completed(f, f.current), Setting(100, "EUR"), f.current)
    ensures g == ExpectedFrom(Completed(f, f.current), {}, Setting(100, "EUR"), f.current, quote)
    ensures g.start == g.current == 1 && g.categories == [] && g.transactions == [] && g.corrections == []
    ensures g.plans == map[1 := Plan(0, "EUR", 0, Some(1), 0)] && g.unallocatedOpening == 0
    ensures g.expectations == map[1 := Setting(100, "EUR")] && quote(100, "EUR", 1) == 100
  {
    quote := (a, c, m) => a;
    f := Facts(1, 1, 1, 1, 1, [], map[], 0, map[], map[1 := Setting(0, "EUR")],
               map[1 := Plan(0, "EUR", 0, None, 0)], [], []);
    assert Outstanding(f, 1, 1) == 0;
    var h := Completed(f, 1);
    assert h.plans[1] == Plan(0, "EUR", 0, Some(1), 0);
    g := ExpectedFrom(h, {}, Setting(100, "EUR"), 1, quote);
    assert g.plans == h.plans;
  }

  lemma ReadAsUnmade(g: Facts, quote: Quote)
    requires WellFormed(g) && g.start == g.current == 1 && Unallocated(g, 1) == 0
    requires g.expectations == map[1 := Setting(100, "EUR")] && quote(100, "EUR", 1) == 100
    ensures Shown(g, [], 0, map[], quote, 1) == 100
  {
    hide Effects, Unallocated, SumIn, WellFormed, Shown;
    SettledUnit(g);
    ShownIs(g, [], 0, map[], quote, 1);
    assert SettingAt(g.expectations, g.cent, 1) == Setting(100, "EUR");
    assert Unmade(g, [], 1, quote) == 100;
    assert Beyond(g, [], 0, map[], quote, 0) == 0;
  }

  lemma SettledUnit(g: Facts)
    requires WellFormed(g)
    ensures g.cent > 0
  {
  }

  lemma NothingCalledFor(g: Facts)
    requires WellFormed(g) && g.start == g.current == 1 && g.categories == [] && g.transactions == [] && g.corrections == []
    requires g.plans == map[1 := Plan(0, "EUR", 0, Some(1), 0)] && g.unallocatedOpening == 0
    ensures forall s :: Net([], s) == Net(Effects(g), s)
    ensures Unallocated(g, 1) == 0
  {
    hide Effects, Net, SumIn, MonthRows, PlanRows;
    forall s ensures Net(Effects(g), s) == 0 && Net([], s) == 0 {
      NetNone([], s);
      NetEffects(g, s);
      if PlanKey(s.key) {
        if PlanOf(s.key) == 1 {
          NetPlan(g, 1, s);
        }
      } else if s.month == 1 {
        NetMonth(g, 1, s);
      }
    }
    SameNetsSameSum([], Effects(g), InUnallocated(1));
    SumNone([], InUnallocated(1));
    assert Unallocated(g, 0) == 0;
  }
}
