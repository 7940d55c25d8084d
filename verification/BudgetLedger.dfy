/** The ledger as the server keeps it: source tables, the append-only movement
    table, and the frozen months. */
module BudgetLedger {
  import opened LedgerRows
  import opened Rounding
  import opened LedgerFacts
  import opened LedgerEffects
  import opened LedgerThrough
  import opened LedgerBalances
  import opened LedgerSteps
  import opened LedgerHandlers
  import opened LedgerActivation

  /** Adds an effect to the wanted amount of its slot. */
  function AddEffect(wanted: map<Slot, int>, r: Movement): map<Slot, int>
  {
    wanted[r.slot := (if r.slot in wanted then wanted[r.slot] else 0) + r.amount]
  }

  /** wanted holds the net amount of every slot among rows. */
  ghost predicate Holds(wanted: map<Slot, int>, rows: seq<Movement>)
  {
    forall s :: Net(rows, s) == if s in wanted then wanted[s] else 0
  }

  lemma AddEffectHolds(wanted: map<Slot, int>, rows: seq<Movement>, r: Movement)
    requires Holds(wanted, rows)
    ensures Holds(AddEffect(wanted, r), rows + [r])
  {
    forall s ensures Net(rows + [r], s) == if s in AddEffect(wanted, r) then AddEffect(wanted, r)[s] else 0 {
      NetAppend(rows, r, s);
    }
  }

  /** The movement table holds exactly what the facts call for. */
  ghost predicate Settled(f: Facts, rows: seq<Movement>)
    requires f.cent > 0
  {
    forall s :: Net(rows, s) == Net(Effects(f), s)
  }

  ghost predicate ClosedThrough(first: Month, last: int, closed: set<Month>)
  {
    forall m :: m in closed <==> first <= m <= last
  }

  /** A close kept the balances the facts still give for its month. */
  ghost predicate FrozenOk(f: Facts, snapshot: map<Category, int>, m: Month, extra: int)
    requires f.cent > 0
  {
    && (forall c :: c in f.categories ==> c in snapshot && snapshot[c] == Balance(f, c, m))
    && (m >= f.start <==> UNALLOCATED in snapshot)
    && (m >= f.start ==> snapshot[UNALLOCATED] == Unallocated(f, m) + extra)
  }

  /** One month of the budget report. Closed months carry no figures here, only what was frozen. */
  datatype MonthReport = MonthReport(month: Month, closed: bool, figures: map<Category, Figures>,
                                     remaining: map<Category, int>, provisional: bool)

  /** The report gives every category the balance of the facts; open months with all components. */
  ghost predicate ReportOk(f: Facts, r: MonthReport, m: Month)
  {
    && (forall c :: c in f.categories ==> c in r.remaining && r.remaining[c] == Balance(f, c, m))
    && (!r.closed ==> forall c :: c in f.categories ==>
          c in r.figures && r.figures[c] == FiguresAt(f, c, m, Balance(f, c, m - 1)))
  }

  /** A close from before activation: the categories' balances, no Unallocated. */
  ghost predicate ClosedBefore(f: Facts, snapshot: map<Category, int>, m: Month)
  {
    UNALLOCATED !in snapshot && forall c :: c in f.categories ==> c in snapshot && snapshot[c] == Balance(Before(f), c, m)
  }

  lemma ActivationReady(f: Facts, closes: map<Month, map<Category, int>>, last: int, cash: int, quote: Quote)
    requires Ready(f) && last < f.current && ClosedThrough(f.first, last, closes.Keys)
    requires forall m :: m in closes ==> ClosedBefore(f, closes[m], m)
    ensures var g := Activated(f, cash, quote);
            && WellFormed(g) && Sound(g) && AllProper(g, []) && Materialised(g, quote) == g
            && g.start == g.current == f.current && g.first == f.first
            && (forall m :: m in closes ==> m != f.current)
            && (forall m :: m in closes ==> FrozenOk(g, closes[m], m, 0))
  {
    hide Balance, ClosedBefore, FrozenOk, NewPlan, OpeningUnallocated, MarkAll;
    ActivatedWellFormed(f, cash, quote);
    MaterialisedSame(Activated(f, cash, quote), quote);
    forall m | m in closes ensures FrozenOk(Activated(f, cash, quote), closes[m], m, 0) {
      FirstFrozen(f, closes[m], m, cash, quote);
    }
  }

  lemma SwitchedOnReady(f: Facts, cash: int, quote: Quote)
    requires Ready(f)
    ensures f.cent > 0 && SwitchedOn(f, Activated(f, cash, quote), quote)
  {
    ActivatedIs(f, cash, quote);
  }

  lemma FirstFrozen(f: Facts, snapshot: map<Category, int>, m: Month, cash: int, quote: Quote)
    requires f.cent > 0 && m < f.current && ClosedBefore(f, snapshot, m)
    ensures FrozenOk(Activated(f, cash, quote), snapshot, m, 0)
  {
    hide Balance, OpeningUnallocated, NewPlan;
    forall c | c in f.categories ensures Balance(Activated(f, cash, quote), c, m) == Balance(Before(f), c, m) {
      EarlierBalance(f, cash, quote, c, m);
    }
  }

  /** The first sync settles everything: months closed before activation call for nothing. */
  lemma FirstSettled(g: Facts, last: int, after: seq<Movement>, closed: set<Month>)
    requires WellFormed(g) && last < g.start && ClosedThrough(g.first, last, closed)
    requires Reconciles([], after, OpenSlots(closed), Effects(g))
    ensures Settled(g, after)
  {
    hide Effects, Net;
    forall s ensures Net(after, s) == Net(Effects(g), s) {
      if s.month in closed {
        assert s !in OpenSlots(closed);
        NetNone([], s);
        NetImproper(g, s);
      } else {
        assert s in OpenSlots(closed);
      }
    }
  }

  lemma BalanceStep(f: Facts, c: Category, m: Month)
    requires m >= f.first
    ensures Balance(f, c, m) == FiguresAt(f, c, m, Balance(f, c, m - 1)).Remaining()
  {
  }

  lemma OpeningReads(f: Facts, rows: seq<Movement>, closed: int, phantom: map<Month, int>, quote: Quote)
    requires WellFormed(f)
    ensures forall c :: c in f.categories ==> c in f.openings && f.openings[c] == Balance(f, c, f.first - 1)
    ensures Shown(f, rows, closed, phantom, quote, f.first - 1) == f.unallocatedOpening
  {
  }

  lemma NotShownBefore(f: Facts, rows: seq<Movement>, closed: int, phantom: map<Month, int>, quote: Quote, m: Month)
    requires WellFormed(f) && m < f.start
    ensures Shown(f, rows, closed, phantom, quote, m) == Shown(f, rows, closed, phantom, quote, m - 1)
  {
  }

  class BudgetLedger {
    var facts: Facts
    var movements: seq<Movement>
    /** Remaining balances of each closed month, as they stood at its close. */
    var frozen: map<Month, map<Category, int>>
    /** Cash coverage of each closed ledger month, as it stood at its close. */
    var coverages: map<Month, Coverage>
    /** Balance of the active real accounts, transactions included. */
    var cash: int
    /** The last closed month; first - 1 if there is none. */
    ghost var closed: int
    /** What each close froze in Unallocated beyond the movements. */
    ghost var phantom: map<Month, int>
    /** The part of cash no recorded transaction accounts for. */
    ghost var base: int

    /** What holds between any two requests. */
    ghost predicate Valid()
      reads this
    {
      && WellFormed(facts) && AllProper(facts, movements)
      && Settled(facts, movements)
      && facts.first - 1 <= closed < facts.current
      && ClosedThrough(facts.first, closed, frozen.Keys)
      && phantom.Keys == frozen.Keys
      && (forall m :: m in frozen ==> FrozenOk(facts, frozen[m], m, phantom[m]))
      && cash == base + CashOf(facts.transactions)
      && (forall m :: m in coverages ==> m in frozen)
    }

    /** Nothing is ever taken back: movements only grow, and only in open months;
        closed months stay as they were frozen. */
    twostate predicate AppendsOnly()
      reads this
    {
      && old(movements) <= movements
      && (forall i :: |old(movements)| <= i < |movements| ==> movements[i].slot.month !in old(frozen) && movements[i].amount != 0)
      && (forall m :: m in old(frozen) ==> m in frozen && frozen[m] == old(frozen)[m])
      && (forall m :: m in old(coverages) ==> m in coverages && coverages[m] == old(coverages)[m])
      && base == old(base)
    }

    /** Appends what the slot lacks to hold the wanted amount. The ghost
        arguments say what has been reconciled so far in the same pass. */
    method Move(s: Slot, wanted: int, ghost start: seq<Movement>, ghost done: iset<Slot>, ghost target: seq<Movement>)
      requires Reconciles(start, movements, done, target)
      requires s !in done && wanted == Net(target, s)
      modifies this`movements
      ensures Reconciles(start, movements, done + iset{s}, target)
    {
      var prior := 0;
      for i := 0 to |movements|
        invariant prior == Net(movements[..i], s)
      {
        assert movements[..i + 1][..i] == movements[..i];
        if movements[i].slot == s {
          prior := prior + movements[i].amount;
        }
      }
      assert movements[..|movements|] == movements;
      ghost var before := movements;
      var delta := wanted - prior;
      if delta != 0 {
        movements := movements + [Movement(s, delta)];
        ReconcilesOne(before, s, wanted, target);
      }
      assert Reconciles(before, movements, iset{s}, target);
      ReconcilesThen(start, before, movements, done, iset{s}, target);
    }

    /** Moves every wanted slot, in any order. */
    method MoveAll(wanted: map<Slot, int>, ghost target: seq<Movement>)
      requires forall s :: s in wanted ==> wanted[s] == Net(target, s)
      modifies this`movements
      ensures Reconciles(old(movements), movements, (iset s | s in wanted), target)
    {
      var left := wanted.Keys;
      ghost var done: iset<Slot> := iset{};
      while left != {}
        invariant forall s :: s in wanted <==> s in left || s in done
        invariant forall s :: s in left ==> s !in done
        invariant Reconciles(old(movements), movements, done, target)
        decreases left
      {
        var s :| s in left;
        Move(s, wanted[s], old(movements), done, target);
        left, done := left - {s}, done + iset{s};
      }
      assert done == iset s | s in wanted;
    }

    /** Materialises the month's plan unless it is there. */
    method EnsureIncome(m: Month, quote: Quote)
      modifies this`facts
      ensures facts == old(facts).(plans := old(facts).plans[m := if m in old(facts).plans then old(facts).plans[m]
                                                                  else NewPlan(old(facts), m, quote)])
    {
      if m in facts.plans {
        assert facts.plans[m := facts.plans[m]] == facts.plans;
        return;
      }
      facts := facts.(plans := facts.plans[m := NewPlan(facts, m, quote)]);
    }

    /** The allocations of one month and, against them, Unallocated. */
    method SyncAllocations(m: Month, ghost start: seq<Movement>, ghost before: iset<Slot>, ghost target: seq<Movement>)
      requires Sound(facts) && target == MonthRows(facts, m)
      requires Reconciles(start, movements, before, target) && before !! AllocationSlots(facts, m)
      modifies this`movements
      ensures Reconciles(start, movements, before + AllocationSlots(facts, m), target)
    {
      hide Net, MonthRows, Allocated;
      var cs := facts.categories;
      ghost var f := facts;
      ghost var done := before;
      var total := 0;
      for i := 0 to |cs|
        invariant total == TotalAllocated(f.periods, m, cs[..i])
        invariant forall s :: s in done <==> s in before || (s.category in cs[..i] && s == AllocationSlot(m, s.category))
        invariant Reconciles(start, movements, done, target)
      {
        var amount := Allocated(facts.periods, cs[i], m);
        total := total + amount;
        assert cs[..i + 1][..i] == cs[..i];
        var slot := AllocationSlot(m, cs[i]);
        WantedAllocation(f, m, cs[i]);
        assert slot in AllocationSlots(f, m);
        Move(slot, amount, start, done, target);
        done := done + iset{slot};
      }
      assert cs[..|cs|] == cs;
      NetMonth(f, m, AllocationsSlot(m));
      Move(AllocationsSlot(m), -total, start, done, target);
      assert done + iset{AllocationsSlot(m)} == before + AllocationSlots(f, m);
    }

    /** The effects the month's transactions want, gathered by slot. */
    method WantedTransactions(m: Month) returns (wanted: map<Slot, int>)
      ensures Holds(wanted, TransactionsRows(facts.categories, m, facts.transactions))
      ensures forall s :: s in wanted ==> s in TransactionSlots(m)
    {
      wanted := map[];
      var ts := facts.transactions;
      for i := 0 to |ts|
        invariant Holds(wanted, TransactionsRows(facts.categories, m, ts[..i]))
        invariant forall s :: s in wanted ==> s in TransactionSlots(m)
      {
        var t := ts[i];
        assert ts[..i + 1][..i] == ts[..i];
        ghost var sofar := TransactionsRows(facts.categories, m, ts[..i]);
        if t.month == m {
          wanted := AddTransaction(wanted, t, sofar);
          assert TransactionsRows(facts.categories, m, ts[..i + 1]) == sofar + TransactionRows(facts.categories, t);
        } else {
          assert TransactionsRows(facts.categories, m, ts[..i + 1]) == sofar;
        }
      }
      assert ts[..|ts|] == ts;
    }

    method AddTransaction(before: map<Slot, int>, t: Transaction, ghost sofar: seq<Movement>) returns (wanted: map<Slot, int>)
      requires Holds(before, sofar)
      requires forall s :: s in before ==> s in TransactionSlots(t.month)
      ensures Holds(wanted, sofar + TransactionRows(facts.categories, t))
      ensures forall s :: s in wanted ==> s in TransactionSlots(t.month)
    {
      wanted := before;
      var rows := TransactionRows(facts.categories, t);
      assert sofar + rows[..0] == sofar;
      for j := 0 to |rows|
        invariant Holds(wanted, sofar + rows[..j])
        invariant forall s :: s in wanted ==> s in TransactionSlots(t.month)
      {
        AddEffectHolds(wanted, sofar + rows[..j], rows[j]);
        assert sofar + rows[..j] + [rows[j]] == sofar + rows[..j + 1];
        wanted := AddEffect(wanted, rows[j]);
      }
      assert rows[..|rows|] == rows;
    }

    /** The transactions of one month; keys no transaction wants any more are wanted at zero. */
    method SyncTransactions(m: Month)
      modifies this`movements
      ensures Reconciles(old(movements), movements, TransactionSlots(m), MonthRows(facts, m))
    {
      ghost var f, before := facts, movements;
      var wanted := WantedTransactions(m);
      ghost var target := TransactionsRows(f.categories, m, f.transactions);
      for i := 0 to |movements|
        invariant Holds(wanted, target)
        invariant forall s :: s in wanted ==> s in TransactionSlots(m)
        invariant forall k :: 0 <= k < i && movements[k].slot in TransactionSlots(m) ==> movements[k].slot in wanted
      {
        var s := movements[i].slot;
        if s.month == m && s.key.OfTransaction? && s !in wanted {
          wanted := wanted[s := 0];
        }
      }
      MoveAll(wanted, target);
      UnwantedTransactions(f, m, before, wanted);
      ReconcilesWider(before, movements, (iset s | s in wanted), TransactionSlots(m), target, MonthRows(f, m));
    }

    /** The corrections applied in one month. */
    method SyncCorrections(m: Month, ghost start: seq<Movement>, ghost before: iset<Slot>, ghost target: seq<Movement>)
      requires Sound(facts) && target == MonthRows(facts, m)
      requires Reconciles(start, movements, before, target) && before !! CorrectionSlots(facts, m)
      modifies this`movements
      ensures Reconciles(start, movements, before + CorrectionSlots(facts, m), target)
    {
      var cs := facts.corrections;
      ghost var f := facts;
      ghost var done := before;
      for i := 0 to |cs|
        invariant forall s :: s in done <==> s in before || CorrectsAt(cs[..i], m, s)
        invariant Reconciles(start, movements, done, target)
      {
        CorrectsOneMore(cs, m, i);
        if cs[i].month == m {
          var slot := CorrectionSlot(cs[i]);
          WantedCorrection(f, m, i);
          Move(slot, -cs[i].delta, start, done, target);
          done := done + iset{slot};
        }
      }
      assert cs[..|cs|] == cs;
      assert done == before + CorrectionSlots(f, m);
    }

    /** Everything one open month calls for. */
    method SyncMonth(m: Month)
      requires Sound(facts) && facts.start <= m <= facts.current && m in facts.plans
      requires AllProper(facts, movements)
      modifies this`movements
      ensures Reconciles(old(movements), movements, MonthSlots(m), MonthRows(facts, m))
    {
      ghost var f, target := facts, MonthRows(facts, m);
      ghost var a := movements;
      ScopesDisjoint(f, m);
      NetMonth(f, m, FundingSlot(m));
      Move(FundingSlot(m), facts.plans[m].amountEur, a, iset{}, target);
      ghost var p := iset{} + iset{FundingSlot(m)};
      assert p == iset{FundingSlot(m)};
      SyncAllocations(m, a, p, target);
      p := p + AllocationSlots(f, m);
      ghost var b := movements;
      SyncTransactions(m);
      ReconcilesThen(a, b, movements, p, TransactionSlots(m), target);
      p := p + TransactionSlots(m);
      SyncCorrections(m, a, p, target);
      MonthScope(f, m, a);
      ReconcilesWider(a, movements, Visited(f, m), MonthSlots(m), target, target);
    }

    /** The excess of the month's receipts over what they fund, by month of receipt. */
    method WantedExcess(plan: Month) returns (wanted: map<Slot, int>)
      requires facts.cent > 0 && plan in facts.plans
      ensures Holds(wanted, ExcessRows(facts.cent, facts.plans[plan], plan, Matched(facts.transactions, plan, facts.current)))
      ensures forall s :: s in wanted ==> s == ExcessSlot(plan, s.month)
    {
      hide Proportional;
      wanted := map[];
      var received := 0;
      var p := facts.plans[plan];
      var rs := Matched(facts.transactions, plan, facts.current);
      for i := 0 to |rs|
        invariant received == Received(facts.cent, p, rs[..i])
        invariant Holds(wanted, ExcessRows(facts.cent, p, plan, rs[..i]))
        invariant forall s :: s in wanted ==> s == ExcessSlot(plan, s.month)
      {
        var t := rs[i];
        ghost var sofar := ExcessRows(facts.cent, p, plan, rs[..i]);
        assert rs[..i + 1][..i] == rs[..i];
        var before := p.amount - Positive(p.amount - received);
        received := received + Native(facts.cent, p, t);
        var after := p.amount - Positive(p.amount - received);
        var covered := FundingPortion(facts.cent, after, p) - FundingPortion(facts.cent, before, p);
        var difference := t.toEur - covered;
        if t.treatment != Some(Legacy) {
          var row := Movement(ExcessSlot(plan, t.month), difference);
          AddEffectHolds(wanted, sofar, row);
          wanted := AddEffect(wanted, row);
          assert ExcessRows(facts.cent, p, plan, rs[..i + 1]) == sofar + [row];
        } else {
          assert ExcessRows(facts.cent, p, plan, rs[..i + 1]) == sofar;
        }
      }
      assert rs[..|rs|] == rs;
    }

    /** Excess of one plan, in the open months; months no receipt wants any more are wanted at zero. */
    method SyncExcess(plan: Month)
      requires WellFormed(facts) && plan in facts.plans && AllProper(facts, movements)
      modifies this`movements
      ensures Reconciles(old(movements), movements, ExcessSlots(plan, frozen.Keys), PlanRows(facts, plan))
    {
      hide Proportional, Net, PlanRows;
      ghost var f, start := facts, movements;
      var wanted := WantedExcess(plan);
      ghost var target := ExcessRows(f.cent, f.plans[plan], plan, Matched(f.transactions, plan, f.current));
      for i := 0 to |movements|
        invariant Holds(wanted, target)
        invariant forall s :: s in wanted ==> s == ExcessSlot(plan, s.month)
        invariant forall k :: 0 <= k < i && movements[k].slot.key == Excess(plan) ==> movements[k].slot in wanted
      {
        var m := movements[i].slot.month;
        if movements[i].slot.key == Excess(plan) && ExcessSlot(plan, m) !in wanted {
          wanted := wanted[ExcessSlot(plan, m) := 0];
        }
      }
      var open := map s | s in wanted && s.month !in frozen :: wanted[s];
      MoveAll(open, target);
      UnwantedExcess(f, plan, start, wanted);
      ReconcilesWider(start, movements, (iset s | s in open), ExcessSlots(plan, frozen.Keys), target, PlanRows(f, plan));
    }

    /** The settlement of a completed plan, unless its month is closed. */
    method SyncCompletion(plan: Month, ghost start: seq<Movement>, ghost before: iset<Slot>)
      requires WellFormed(facts) && plan in facts.plans && AllProper(facts, movements)
      requires Reconciles(start, movements, before, PlanRows(facts, plan)) && before !! CompleteSlots(plan, frozen.Keys)
      modifies this`movements
      ensures Reconciles(start, movements, before + CompleteSlots(plan, frozen.Keys), PlanRows(facts, plan))
    {
      hide Net, PlanRows, Proper;
      ghost var f, target, was := facts, PlanRows(facts, plan), movements;
      ghost var done := before;
      var p := facts.plans[plan];
      if p.completed.Some? && p.completed.value !in frozen {
        var slot := CompleteSlot(plan, p.completed.value);
        NetPlan(f, plan, slot);
        Move(slot, -p.shortfall, start, done, target);
        done := done + iset{slot};
      }
      forall s | s in before + CompleteSlots(plan, frozen.Keys) && s !in done ensures Net(start, s) == Net(target, s) {
        NotCompleted(f, plan, was, s);
      }
      ReconcilesWider(start, movements, done, before + CompleteSlots(plan, frozen.Keys), target, target);
    }

    /** Everything one plan calls for in the open months. */
    method SyncPlan(plan: Month)
      requires WellFormed(facts) && plan in facts.plans && AllProper(facts, movements)
      modifies this`movements
      ensures Reconciles(old(movements), movements, PlanSlots(plan, frozen.Keys), PlanRows(facts, plan))
    {
      hide PlanRows, Net, Proper;
      ghost var start := movements;
      SyncExcess(plan);
      PlanRowsShape(facts, plan);
      KeepsProper(facts, start, movements, ExcessSlots(plan, frozen.Keys), PlanRows(facts, plan));
      SyncCompletion(plan, start, ExcessSlots(plan, frozen.Keys));
      assert ExcessSlots(plan, frozen.Keys) + CompleteSlots(plan, frozen.Keys) == PlanSlots(plan, frozen.Keys);
    }

    /** One month: unless it is closed, its plan, then its movements. */
    method SyncCursor(m: Month, quote: Quote, ghost f: Facts, ghost start: seq<Movement>, ghost target: seq<Movement>)
      requires Sound(f) && Between(f, facts, Materialised(f, quote)) && AllProper(facts, movements)
      requires f.start <= m <= f.current && (m in frozen ==> m in facts.plans)
      requires Reconciles(start, movements, OpenMonthSlots(f.start, m, frozen.Keys), target)
      requires target == Effects(Materialised(f, quote))
      modifies this`facts, this`movements
      ensures Between(f, facts, Materialised(f, quote)) && AllProper(facts, movements)
      ensures m in facts.plans && facts.plans.Keys >= old(facts).plans.Keys
      ensures Reconciles(start, movements, OpenMonthSlots(f.start, m + 1, frozen.Keys), target)
    {
      hide Effects, Net, Proper, MonthRows;
      ghost var g := Materialised(f, quote);
      if m in frozen {
        ClosedPassed(f.start, m, frozen.Keys);
        return;
      }
      MaterialisedWellFormed(f, quote);
      ghost var mid := movements;
      EnsureIncome(m, quote);
      EnsuredBetween(f, old(facts), facts, quote, m, mid);
      BetweenSound(f, facts, quote);
      SyncMonth(m);
      MonthPassed(facts, g, m, frozen.Keys, start, mid, movements);
    }

    /** First pass: the plan and the movements of each open month, oldest first. */
    method SyncMonths(quote: Quote, ghost f: Facts, ghost target: seq<Movement>)
      requires facts == f && Sound(f) && AllProper(f, movements)
      requires forall m :: m in frozen && f.start <= m <= f.current ==> m in f.plans
      requires target == Effects(Materialised(f, quote))
      modifies this`facts, this`movements
      ensures facts == Materialised(f, quote) && AllProper(facts, movements)
      ensures Reconciles(old(movements), movements, OpenMonthSlots(f.start, f.current + 1, frozen.Keys), target)
    {
      hide Effects, Net, Proper;
      NothingPassed(f, movements, frozen.Keys, target);
      var cursor, current := facts.start, facts.current;
      while cursor <= current
        invariant f.start <= cursor <= current + 1
        invariant Between(f, facts, Materialised(f, quote)) && AllProper(facts, movements)
        invariant forall m :: f.start <= m < cursor ==> m in facts.plans
        invariant Reconciles(old(movements), movements, OpenMonthSlots(f.start, cursor, frozen.Keys), target)
      {
        SyncCursor(cursor, quote, f, old(movements), target);
        cursor := cursor + 1;
      }
      AllMaterialised(f, facts, quote);
    }

    /** Second pass: excess and completion of each plan, oldest first. */
    method SyncPlans(ghost start: seq<Movement>, ghost before: iset<Slot>)
      requires WellFormed(facts) && AllProper(facts, movements)
      requires before == OpenMonthSlots(facts.start, facts.current + 1, frozen.Keys)
      requires Reconciles(start, movements, before, Effects(facts))
      modifies this`movements
      ensures AllProper(facts, movements)
      ensures Reconciles(start, movements,
                         before + OpenPlanSlots(facts.start, facts.current + 1, frozen.Keys), Effects(facts))
    {
      hide Effects, Net, Proper, PlanRows;
      ghost var f, closed := facts, frozen.Keys;
      assert before + OpenPlanSlots(f.start, f.start, closed) == before;
      var plan := facts.start;
      while plan <= facts.current
        invariant f.start <= plan <= f.current + 1
        invariant AllProper(f, movements)
        invariant Reconciles(start, movements, before + OpenPlanSlots(f.start, plan, closed), Effects(f))
      {
        ghost var mid := movements;
        SyncPlan(plan);
        PlanPassed(f, plan, closed, start, mid, movements, before);
        plan := plan + 1;
      }
    }

    /** Brings the movement table in line with the facts, appending only differences
        and leaving closed months alone. */
    method Sync(quote: Quote)
      requires Sound(facts) && AllProper(facts, movements)
      requires forall m :: m in frozen && facts.start <= m <= facts.current ==> m in facts.plans
      modifies this`facts, this`movements
      ensures facts == Materialised(old(facts), quote)
      ensures WellFormed(facts) && AllProper(facts, movements)
      ensures Reconciles(old(movements), movements, OpenSlots(frozen.Keys), Effects(facts))
    {
      hide Effects, Net, Proper;
      ghost var start := movements;
      MaterialisedWellFormed(facts, quote);
      SyncMonths(quote, facts, Effects(Materialised(facts, quote)));
      ghost var f, closed := facts, frozen.Keys;
      ghost var before := OpenMonthSlots(f.start, f.current + 1, closed);
      assert AllProper(f, start) by { SyncedProper(old(facts), quote, start); }
      SyncPlans(start, before);
      AllPassed(f, closed, start, movements);
    }

    /** A household that has imported its history and perhaps closed months, but keeps no ledger yet. */
    constructor (f: Facts, closes: map<Month, map<Category, int>>, balance: int)
      ensures facts == f && frozen == closes && cash == balance && movements == [] && coverages == map[]
    {
      facts, movements, frozen, coverages, cash := f, [], closes, map[], balance;
      closed, phantom, base := 0, map[], 0;
    }

    /** Starts the ledger in the current month, keeping earlier closes and existing
        category results, with Unallocated opening at the projected gap. */
    method Activate(ghost last: int, quote: Quote)
      requires Ready(facts) && movements == [] && coverages == map[]
      requires facts.first - 1 <= last < facts.current && ClosedThrough(facts.first, last, frozen.Keys)
      requires forall m :: m in frozen ==> ClosedBefore(facts, frozen[m], m)
      modifies this
      ensures Valid() && facts == Activated(old(facts), cash, quote) && SwitchedOn(old(facts), facts, quote)
      ensures frozen == old(frozen) && coverages == map[] && cash == old(cash) && closed == last
      ensures forall m :: m in phantom ==> phantom[m] == 0
    {
      hide Effects, Net, Activated, Balance, FrozenOk, ClosedBefore, WellFormed, Sound, Settled, AllProper, Materialised, CashOf, Proper, SwitchedOn;
      SwitchedOnReady(facts, cash, quote);
      ActivationReady(facts, frozen, last, cash, quote);
      facts := Activated(facts, cash, quote);
      closed, phantom, base := last, map m | m in frozen :: 0, cash - CashOf(facts.transactions);
      Sync(quote);
      FirstSettled(facts, last, movements, frozen.Keys);
    }

    // ----- reading -----

    method SumMovements(m: Month, c: Category, k: MovementKind) returns (sum: int)
      ensures sum == SumIn(movements, InSlot(m, c, k))
    {
      sum := 0;
      for i := 0 to |movements|
        invariant sum == SumIn(movements[..i], InSlot(m, c, k))
      {
        assert movements[..i + 1][..i] == movements[..i];
        var s := movements[i].slot;
        if s.month == m && s.category == c && s.kind == k {
          sum := sum + movements[i].amount;
        }
      }
      assert movements[..|movements|] == movements;
    }

    /** Spending and reallocation impact of a category, from the transactions themselves. */
    method TransactionFigures(c: Category, m: Month) returns (expense: int, impact: int)
      ensures expense == SpendingIn(facts.transactions, c, m, false)
      ensures impact == ImpactIn(facts.transactions, c, m)
    {
      expense, impact := 0, 0;
      var ts := facts.transactions;
      for i := 0 to |ts|
        invariant expense == SpendingIn(ts[..i], c, m, false)
        invariant impact == ImpactIn(ts[..i], c, m)
      {
        var t := ts[i];
        assert ts[..i + 1][..i] == ts[..i];
        if t.month == m {
          if t.kind.Reallocate? {
            if t.fromCategory == Some(c) { impact := impact + Abs(t.amount); }
            if t.toCategory == Some(c) { impact := impact - Abs(t.amount); }
          } else {
            if t.fromCategory == Some(c) { expense := expense + t.fromEur; }
            if t.toCategory == Some(c) { expense := expense - t.toEur; }
          }
        }
      }
      assert ts[..|ts|] == ts;
    }

    method CorrectionFigure(c: Category, m: Month) returns (correction: int)
      ensures correction == CorrectionIn(facts.corrections, c, m)
    {
      correction := 0;
      var items := facts.corrections;
      for i := 0 to |items|
        invariant correction == CorrectionIn(items[..i], c, m)
      {
        assert items[..i + 1][..i] == items[..i];
        if items[i].category == c && items[i].month == m {
          correction := correction + items[i].delta;
        }
      }
      assert items[..|items|] == items;
    }

    /** One category in one open month. Ledger months are read from the movements,
        earlier ones from the transactions; either way the figures are those of the facts. */
    method CategoryFigures(c: Category, m: Month, carryover: int) returns (r: Figures)
      requires Valid() && c in facts.categories && m >= facts.first
      ensures r == FiguresAt(facts, c, m, carryover)
    {
      hide Effects, Net, SumIn, FrozenOk;
      var monthly := Allocated(facts.periods, c, m);
      var expense, impact := TransactionFigures(c, m);
      if m >= facts.start {
        if m in facts.plans {
          SettledSum(facts, movements, c, m, Allocation);
          SettledSum(facts, movements, c, m, Spending);
          SettledSum(facts, movements, c, m, Reallocation);
          MonthSum(facts, c, m);
          monthly := SumMovements(m, c, Allocation);
        } else {
          NoEffectsIn(facts, movements, m, InSlot(m, c, Spending));
          NoEffectsIn(facts, movements, m, InSlot(m, c, Reallocation));
          NothingIn(facts.transactions, c, m, true);
        }
        var spent := SumMovements(m, c, Spending);
        var moved := SumMovements(m, c, Reallocation);
        expense, impact := -spent, -moved;
      }
      var correction := CorrectionFigure(c, m);
      r := Figures(carryover, monthly, expense, impact, correction);
    }

    /** What an open ledger month adds to Unallocated, as reports read it. */
    method UnallocatedDelta(m: Month, quote: Quote) returns (delta: int)
      requires Valid() && m >= facts.start
      ensures delta == SumIn(Effects(facts), InUnallocated(m)) + Unmade(facts, movements, m, quote)
    {
      hide Effects, Net, SumIn, FrozenOk;
      var total := 0;
      SumNone([], InUnallocated(m));
      for i := 0 to |movements|
        invariant total == SumIn(movements[..i], InUnallocated(m))
      {
        assert movements[..i + 1] == movements[..i] + [movements[i]];
        SumAppend(movements[..i], movements[i], InUnallocated(m));
        if movements[i].slot.month == m && movements[i].slot.category == UNALLOCATED {
          total := total + movements[i].amount;
        }
      }
      assert movements[..|movements|] == movements;
      SameNetsSameSum(movements, Effects(facts), InUnallocated(m));
      delta := total;
      if !Funded(movements, m) {
        var recorded := SumMovements(m, UNALLOCATED, Allocation);
        SameNetsSameSum(movements, Effects(facts), InSlot(m, UNALLOCATED, Allocation));
        if m <= facts.current {
          AllocationsNet(facts, m);
        } else {
          NoEffectsIn(facts, movements, m, InSlot(m, UNALLOCATED, Allocation));
        }
        delta := total - recorded + NewPlan(facts, m, quote).amountEur - TotalAllocated(facts.periods, m, facts.categories);
      }
    }

    /** One month of the report: frozen if it is closed, else recomputed from the month before. */
    method MonthAt(m: Month, balances: map<Category, int>, unallocated: int, quote: Quote, provisional: bool)
      returns (r: MonthReport)
      requires Valid() && m >= facts.first
      requires forall c :: c in facts.categories ==> c in balances && balances[c] == Balance(facts, c, m - 1)
      requires unallocated == Shown(facts, movements, closed, phantom, quote, m - 1)
      ensures r.month == m && r.closed == (m in frozen) && r.provisional == (provisional && !r.closed)
      ensures ReportOk(facts, r, m)
      ensures m >= facts.start ==> UNALLOCATED in r.remaining
                                   && r.remaining[UNALLOCATED] == Shown(facts, movements, closed, phantom, quote, m)
      ensures m < facts.start ==> UNALLOCATED !in r.remaining
      ensures r.closed ==> r.remaining == frozen[m]
    {
      hide Effects, Net, SumIn, Balance, Unallocated;
      if m in frozen {
        assert FrozenOk(facts, frozen[m], m, phantom[m]);
        r := MonthReport(m, true, map[], frozen[m], false);
        return;
      }
      var figures: map<Category, Figures> := map[];
      var remaining: map<Category, int> := map[];
      var cs := facts.categories;
      for i := 0 to |cs|
        invariant forall c :: c in figures <==> c in cs[..i]
        invariant forall c :: c in remaining <==> c in cs[..i]
        invariant forall c :: c in cs[..i] ==> figures[c] == FiguresAt(facts, c, m, Balance(facts, c, m - 1))
        invariant forall c :: c in cs[..i] ==> remaining[c] == Balance(facts, c, m)
      {
        var c := cs[i];
        var x := CategoryFigures(c, m, balances[c]);
        BalanceStep(facts, c, m);
        figures, remaining := figures[c := x], remaining[c := x.Remaining()];
      }
      assert cs[..|cs|] == cs;
      if m >= facts.start {
        var delta := UnallocatedDelta(m, quote);
        remaining := remaining[UNALLOCATED := unallocated + delta];
      }
      r := MonthReport(m, false, figures, remaining, provisional);
    }

    /** What the report says of month m: balances as the facts give them, Unallocated as
        shown, and provisional while an earlier completed month awaits its close. */
    ghost predicate Reported(r: MonthReport, m: Month, calendar: Month, quote: Quote)
      requires facts.cent > 0
      reads this
    {
      && r.month == m && r.closed == (m in frozen)
      && ReportOk(facts, r, m)
      && (r.closed ==> r.remaining == frozen[m])
      && (m >= facts.start <==> UNALLOCATED in r.remaining)
      && (m >= facts.start ==> r.remaining[UNALLOCATED] == Shown(facts, movements, closed, phantom, quote, m))
      && r.provisional == (m !in frozen && exists k :: facts.first <= k < m && k !in frozen && k < calendar)
    }

    /** Every month from the first to `through`, closed months from their freeze and open
        ones by carryover. The balances are those of the facts either way. */
    method History(through: Month, calendar: Month, quote: Quote) returns (ok: bool, history: seq<MonthReport>)
      requires Valid()
      ensures ok == (through <= calendar)
      ensures ok ==> |history| == if through < facts.first then 0 else through - facts.first + 1
      ensures ok ==> forall i :: 0 <= i < |history| ==> Reported(history[i], facts.first + i, calendar, quote)
    {
      hide Effects, Net, SumIn, Balance, Unallocated, Shown, FrozenOk, CashOf, Settled, AllProper, Sound;
      SoundUnit(facts);
      history := [];
      ok := through <= calendar;
      if !ok { return; }
      var balances := facts.openings;
      var unallocated := facts.unallocatedOpening;
      var provisional := false;
      var m := facts.first;
      OpeningReads(facts, movements, closed, phantom, quote);
      while m <= through
        invariant facts.first <= m && |history| == m - facts.first
        invariant m > facts.first ==> m <= through + 1
        invariant forall c :: c in facts.categories ==> c in balances && balances[c] == Balance(facts, c, m - 1)
        invariant unallocated == Shown(facts, movements, closed, phantom, quote, m - 1)
        invariant provisional == exists k :: facts.first <= k < m && k !in frozen && k < calendar
        invariant forall i :: 0 <= i < |history| ==> Reported(history[i], facts.first + i, calendar, quote)
      {
        var r := MonthAt(m, balances, unallocated, quote, provisional);
        balances := balances + r.remaining;
        if m >= facts.start {
          unallocated := r.remaining[UNALLOCATED];
        } else {
          NotShownBefore(facts, movements, closed, phantom, quote, m);
        }
        history := history + [r];
        if m !in frozen && m < calendar { provisional := true; }
        m := m + 1;
      }
    }

    /** The category balances of one month, as handlers read them. */
    method Categories(m: Month, quote: Quote) returns (remaining: map<Category, int>)
      requires Valid() && facts.first <= m <= facts.current
      ensures forall c :: c in facts.categories ==> c in remaining && remaining[c] == Balance(facts, c, m)
      ensures m >= facts.start <==> UNALLOCATED in remaining
      ensures m >= facts.start ==> remaining[UNALLOCATED] == Shown(facts, movements, closed, phantom, quote, m)
      ensures m in frozen ==> remaining == frozen[m]
    {
      hide Effects, Net, Balance, Unallocated, Shown, FrozenOk, Proper, Settled, AllProper;
      var done, history := History(m, facts.current, quote);
      remaining := history[m - facts.first].remaining;
    }

    /** Cash as it stood on the day coverage looks at. */
    method CashAt(month: Month) returns (actual: int)
      ensures actual == cash - LaterCash(facts, month, facts.transactions)
      ensures actual == cash - CashOf(facts.transactions)
                        + CashUpTo(facts.transactions, month, if month == facts.current then Some(facts.today) else None)
    {
      LaterTakenBack(facts, facts.transactions, month);
      var later := 0;
      var ts := facts.transactions;
      for i := 0 to |ts|
        invariant later == LaterCash(facts, month, ts[..i])
      {
        assert ts[..i + 1][..i] == ts[..i];
        if IsLater(facts, month, ts[i]) { later := later + CashEffect(ts[i]); }
      }
      assert ts[..|ts|] == ts;
      actual := cash - later;
    }

    method Budgeted(remaining: map<Category, int>) returns (budgeted: int)
      ensures budgeted == AssignedOf(remaining, facts.categories)
    {
      budgeted := 0;
      var cs := facts.categories;
      for i := 0 to |cs|
        invariant budgeted == AssignedOf(remaining, cs[..i])
      {
        assert cs[..i + 1][..i] == cs[..i];
        if cs[i] in remaining { budgeted := budgeted + remaining[cs[i]]; }
      }
      assert cs[..|cs|] == cs;
    }

    method OutstandingAt(month: Month) returns (outstanding: int)
      requires facts.cent > 0 && facts.start <= month
      ensures outstanding == TotalOutstanding(facts, month, month)
    {
      hide Outstanding;
      outstanding := 0;
      var plan := facts.start;
      while plan <= month
        invariant facts.start <= plan <= month + 1
        invariant outstanding == TotalOutstanding(facts, plan - 1, month)
      {
        outstanding := outstanding + Outstanding(facts, plan, month);
        plan := plan + 1;
      }
    }

    /** Cash coverage at the end of a month; of a closed month, as it was frozen. */
    method CoverageAt(month: Month, remaining: map<Category, int>) returns (r: Option<Coverage>)
      requires facts.cent > 0
      ensures r == if month < facts.start then None
                   else if month in coverages then Some(coverages[month])
                   else Some(CoverageOf(facts, cash, remaining, month))
      ensures r.Some? && month !in coverages ==>
                && r.value.actual == cash - CashOf(facts.transactions)
                   + CashUpTo(facts.transactions, month, if month == facts.current then Some(facts.today) else None)
                && r.value.gap == r.value.actual - r.value.budgeted
                && r.value.projected == r.value.gap + r.value.outstanding
    {
      hide TotalOutstanding, LaterCash, AssignedOf, CashOf, CashUpTo;
      if month < facts.start { return None; }
      if month in coverages { return Some(coverages[month]); }
      var actual := CashAt(month);
      var budgeted := Budgeted(remaining);
      var outstanding := OutstandingAt(month);
      var unallocated := if UNALLOCATED in remaining then remaining[UNALLOCATED] else 0;
      var gap := actual - budgeted;
      r := Some(Coverage(actual, budgeted, unallocated, outstanding, gap, gap + outstanding));
    }

    /** Replaces the facts and brings the movements in line: the common end of every handler. */
    method Commit(g: Facts, balance: int, quote: Quote)
      requires Valid() && Sound(g) && Continues(facts, g, closed)
      requires balance == base + CashOf(g.transactions)
      modifies this`facts, this`movements, this`cash
      ensures Valid() && AppendsOnly()
      ensures facts == Materialised(g, quote) && cash == balance
    {
      hide Effects, Net, Proper, Balance, Unallocated, Through;
      ghost var f, before := facts, movements;
      facts, cash := g, balance;
      ContinuesProper(f, g, closed, before);
      Sync(quote);
      MaterialisedContinues(f, g, closed, quote);
      CommitSettled(f, facts, closed, before, movements, frozen.Keys);
      forall m | m in frozen ensures FrozenOk(facts, frozen[m], m, phantom[m]) {
        CommitFrozen(f, facts, closed, frozen[m], m, phantom[m]);
      }
    }

    /** Enters a transaction of an open month. Income is salary for its own month unless it
        says otherwise. */
    method Create(t: Transaction, quote: Quote) returns (ok: bool)
      requires Valid()
      modifies this`facts, this`movements, this`cash
      ensures Valid() && AppendsOnly()
      ensures ok == CanCreate(old(facts), frozen.Keys, t)
      ensures ok <==> SidesFit(old(facts), t) && old(facts).first <= t.month <= old(facts).current && t.month !in frozen
                      && (forall u :: u in old(facts).transactions ==> u.id != t.id) && TreatmentFits(old(facts), t, None)
      ensures if ok then facts == Created(old(facts), t) && cash == old(cash) + CashEffect(t)
              else unchanged(this)
      ensures ok ==> exists u :: StoredFor(t, None, u) && WithEntry(old(facts), facts, u)
    {
      hide Effects, Net, Proper, Balance, Unallocated, FrozenOk, Insert, Find, StoredFor, WithEntry, TreatmentFits, SidesFit, Acceptable, Posted;
      ok := CanCreate(facts, frozen.Keys, t);
      AcceptableIs(facts, t);
      PostedIs(facts, t, None);
      if ok {
        var u := WithReceipt(t, Posted(facts, t, NoReceipt));
        NewReceipt(facts, t);
        EntryIs(facts, u);
        InsertContinues(facts, u, closed);
        CashInsert(facts.transactions, u);
        MaterialisedSame(Created(facts, t), quote);
        Commit(Created(facts, t), cash + CashEffect(t), quote);
      }
    }

    /** Replaces an entry within its month. Income that says nothing keeps its receipt. */
    method Edit(t: Transaction, quote: Quote) returns (ok: bool)
      requires Valid()
      modifies this`facts, this`movements, this`cash
      ensures Valid() && AppendsOnly()
      ensures ok == CanEdit(old(facts), frozen.Keys, t)
      ensures ok <==> SidesFit(old(facts), t) && old(facts).first <= t.month <= old(facts).current && t.month !in frozen
                      && exists was :: was in old(facts).transactions && was.id == t.id && was.month == t.month
                                       && !was.kind.Reconciliation? && TreatmentFits(old(facts), t, Some(was))
      ensures if ok then
                var was := Find(old(facts).transactions, t.id).value;
                facts == Edited(old(facts), was, t) && cash == old(cash) - CashEffect(was) + CashEffect(t)
              else unchanged(this)
      ensures ok ==> exists was, rest, u :: was in old(facts).transactions && was.id == t.id && StoredFor(t, Some(was), u)
                                            && WithEntry(rest, old(facts), was) && WithEntry(rest, facts, u)
    {
      hide Effects, Net, Proper, Balance, Unallocated, FrozenOk, Insert, Remove, Find, StoredFor, WithEntry, TreatmentFits, SidesFit, Acceptable, Posted;
      ok := CanEdit(facts, frozen.Keys, t);
      EditAccepted(facts, frozen.Keys, t);
      if ok {
        var was := Find(facts.transactions, t.id).value;
        EditIs(facts, was, t);
        EditContinues(facts, was, t, closed);
        CashRemove(facts.transactions, was);
        CashInsert(Remove(facts.transactions, t.id), WithReceipt(t, Posted(facts, t, ReceiptOf(was))));
        MaterialisedSame(Edited(facts, was, t), quote);
        Commit(Edited(facts, was, t), cash - CashEffect(was) + CashEffect(t), quote);
      }
    }

    method Delete(id: nat, quote: Quote) returns (ok: bool)
      requires Valid()
      modifies this`facts, this`movements, this`cash
      ensures Valid() && AppendsOnly()
      ensures ok == CanDelete(old(facts), frozen.Keys, id)
      ensures ok <==> exists was :: was in old(facts).transactions && was.id == id && !was.kind.Reconciliation?
                                    && old(facts).first <= was.month <= old(facts).current && was.month !in frozen
      ensures if ok then facts == Deleted(old(facts), id) && cash == old(cash) - CashEffect(Find(old(facts).transactions, id).value)
              else unchanged(this)
      ensures ok ==> exists was :: was in old(facts).transactions && was.id == id && WithEntry(facts, old(facts), was)
    {
      hide Effects, Net, Proper, Balance, Unallocated, FrozenOk, Remove, Find, WithEntry;
      ok := CanDelete(facts, frozen.Keys, id);
      DeletionAccepted(facts, frozen.Keys, id);
      if ok {
        var was := Find(facts.transactions, id).value;
        DeletionIs(facts, was);
        RemoveContinues(facts, was, closed);
        CashRemove(facts.transactions, was);
        MaterialisedSame(Deleted(facts, id), quote);
        Commit(Deleted(facts, id), cash - CashEffect(was), quote);
      }
    }

    /** Records the difference between an observed and a computed account balance. */
    method Reconcile(t: Transaction, quote: Quote) returns (ok: bool)
      requires Valid()
      modifies this`facts, this`movements, this`cash
      ensures Valid() && AppendsOnly()
      ensures ok == CanReconcile(old(facts), frozen.Keys, t)
      ensures ok <==> t.kind == Reconciliation && t == t.(fromCategory := None, toCategory := None, treatment := None, expected := None)
                      && old(facts).first <= t.month <= old(facts).current && t.month !in frozen
                      && forall u :: u in old(facts).transactions ==> u.id != t.id
      ensures if ok then facts == old(facts).(transactions := Insert(old(facts).transactions, t)) && cash == old(cash) + CashEffect(t)
              else unchanged(this)
      ensures ok ==> WithEntry(old(facts), facts, t)
    {
      hide Effects, Net, Proper, Balance, Unallocated, FrozenOk, Insert, WithEntry;
      ok := CanReconcile(facts, frozen.Keys, t);
      if ok {
        EntryIs(facts, t);
        var g := facts.(transactions := Insert(facts.transactions, t));
        InsertContinues(facts, t, closed);
        CashInsert(facts.transactions, t);
        MaterialisedSame(g, quote);
        Commit(g, cash + CashEffect(t), quote);
      }
    }

    method Allocate(changes: map<Category, int>, m: Month, quote: Quote) returns (ok: bool)
      requires Valid()
      modifies this`facts, this`movements, this`cash
      ensures Valid() && AppendsOnly() && cash == old(cash)
      ensures ok == CanAllocate(old(facts), changes, m)
      ensures ok <==> changes != map[] && m >= old(facts).current && forall c :: c in changes ==> c in old(facts).categories && changes[c] >= 0
      ensures if ok then facts == AllocatedFrom(old(facts), changes, m) else unchanged(this)
      ensures ok ==> facts == old(facts).(periods := facts.periods)
      ensures ok ==> forall c, k: Month :: c in changes && k >= m && (forall j: Month :: m < j <= k ==> (c, j) !in old(facts).periods) ==>
                       Allocated(facts.periods, c, k) == changes[c]
      ensures ok ==> forall c, k: Month :: c !in changes || k < m ==> Allocated(facts.periods, c, k) == Allocated(old(facts).periods, c, k)
    {
      hide Effects, Net, Proper, Balance, Unallocated, FrozenOk, Allocated, PeriodsFrom;
      ok := CanAllocate(facts, changes, m);
      if ok {
        ChangedAllocations(facts.periods, changes, m);
        AllocateContinues(facts, changes, m, closed);
        MaterialisedSame(AllocatedFrom(facts, changes, m), quote);
        Commit(AllocatedFrom(facts, changes, m), cash, quote);
      }
    }

    method Expect(e: Setting, m: Month, quote: Quote) returns (ok: bool)
      requires Valid()
      modifies this`facts, this`movements, this`cash
      ensures Valid() && AppendsOnly() && cash == old(cash)
      ensures ok == CanExpect(old(facts), e, m)
      ensures ok <==> m >= old(facts).current && e.amount >= 0 && e.currency in {"EUR", "USD", "PHP"}
      ensures if ok then facts == ExpectedFrom(old(facts), frozen.Keys, e, m, quote) else unchanged(this)
      ensures ok ==> facts == old(facts).(expectations := facts.expectations, plans := facts.plans)
                     && Replanned(old(facts), facts, frozen.Keys, e, m, quote)
    {
      hide Effects, Net, Proper, Balance, Unallocated, FrozenOk, Replanned;
      ok := CanExpect(facts, e, m);
      if ok {
        ExpectedIs(facts, frozen.Keys, e, m, quote);
        var g := ExpectedFrom(facts, frozen.Keys, e, m, quote);
        ExpectContinues(facts, frozen.Keys, e, m, quote, closed);
        MaterialisedSame(g, quote);
        Commit(g, cash, quote);
      }
    }

    /** Gives up on the rest of an expectation: it is written off in the current month. */
    method CompleteIncome(plan: Month, quote: Quote) returns (ok: bool)
      requires Valid()
      modifies this`facts, this`movements, this`cash
      ensures Valid() && AppendsOnly() && cash == old(cash)
      ensures ok == CanComplete(old(facts), plan)
      ensures ok <==> plan in old(facts).plans && old(facts).plans[plan].completed == None
      ensures if ok then facts == Completed(old(facts), plan) else unchanged(this)
      ensures ok ==> facts == old(facts).(plans := facts.plans) && facts.plans.Keys == old(facts).plans.Keys
                     && (forall p :: p in facts.plans && p != plan ==> facts.plans[p] == old(facts).plans[p])
                     && facts.plans[plan] == old(facts).plans[plan].(completed := Some(facts.current), shortfall := facts.plans[plan].shortfall)
                     && facts.plans[plan].shortfall == Outstanding(old(facts), plan, facts.current)
                     && Outstanding(facts, plan, facts.current) == 0
    {
      hide Effects, Net, Proper, Balance, Unallocated, FrozenOk, Outstanding;
      ok := CanComplete(facts, plan);
      if ok {
        NothingLeft(facts, plan);
        CompleteContinues(facts, plan, closed);
        MaterialisedSame(Completed(facts, plan), quote);
        Commit(Completed(facts, plan), cash, quote);
      }
    }

    /** Moves what an entry of a closed month did to its categories, in the current month. */
    method Correct(original: nat, operation: nat, items: seq<CorrectionItem>, quote: Quote) returns (ok: bool)
      requires Valid()
      modifies this`facts, this`movements, this`cash
      ensures Valid() && AppendsOnly() && cash == old(cash)
      ensures ok == CanCorrect(old(facts), frozen.Keys, original, operation, items)
      ensures ok <==> (exists t :: t in old(facts).transactions && t.id == original && (t.month in frozen || t.month < old(facts).first))
                      && Moving(old(facts), operation, items)
      ensures if ok then facts == Corrected(old(facts), items) else unchanged(this)
      ensures ok ==> facts == old(facts).(corrections := old(facts).corrections + items)
    {
      hide Effects, Net, Proper, Balance, Unallocated, FrozenOk, Find, Moving;
      CorrectionAccepted(facts, frozen.Keys, original, operation, items);
      ok := CanCorrect(facts, frozen.Keys, original, operation, items);
      if ok {
        CorrectContinues(facts, frozen.Keys, original, operation, items, closed);
        MaterialisedSame(Corrected(facts, items), quote);
        Commit(Corrected(facts, items), cash, quote);
      }
    }

    /** The first request of a later day or month: the months begun since are materialised. */
    method Roll(month: Month, day: nat, quote: Quote) returns (ok: bool)
      requires Valid()
      modifies this`facts, this`movements, this`cash
      ensures Valid() && AppendsOnly() && cash == old(cash)
      ensures ok == CanRoll(old(facts), month, day)
      ensures !ok <==> month < old(facts).current || (month == old(facts).current && day < old(facts).today)
      ensures if ok then facts == Materialised(Rolled(old(facts), month, day), quote) else unchanged(this)
      ensures ok ==> facts == old(facts).(current := month, today := day, plans := facts.plans) && PlansMade(old(facts), facts, quote)
    {
      hide Effects, Net, Proper, Balance, Unallocated, FrozenOk, PlansMade;
      ok := CanRoll(facts, month, day);
      if ok {
        RolledPlans(facts, month, day, quote);
        RollContinues(facts, month, day, closed);
        Commit(Rolled(facts, month, day), cash, quote);
      }
    }

    /** A request that changes nothing appends nothing. */
    method Refresh(quote: Quote)
      requires Valid()
      modifies this`facts, this`movements, this`cash
      ensures Valid() && movements == old(movements) && facts == old(facts) && cash == old(cash)
    {
      hide Effects, Net, Proper, FrozenOk;
      MaterialisedSame(facts, quote);
      Sync(quote);
      ReconcilesAgain(old(movements), movements, OpenSlots(frozen.Keys), Effects(facts));
    }

    /** Stores the freeze of the next month to close. */
    method Freeze(m: Month, remaining: map<Category, int>, coverage: Option<Coverage>, ghost extra: int)
      requires Valid() && m == closed + 1 < facts.current
      requires FrozenOk(facts, remaining, m, extra)
      modifies this`frozen, this`coverages, this`closed, this`phantom
      ensures Valid() && AppendsOnly()
      ensures frozen == old(frozen)[m := remaining] && closed == m && phantom == old(phantom)[m := extra]
      ensures coverages == if coverage.Some? then old(coverages)[m := coverage.value] else old(coverages)
    {
      hide FrozenOk, Settled, AllProper, WellFormed, CashOf;
      phantom := phantom[m := extra];
      frozen := frozen[m := remaining];
      if coverage.Some? {
        coverages := coverages[m := coverage.value];
      }
      closed := m;
    }

    /** Freezes what the report says of the next month to close. */
    method FreezeReport(m: Month, quote: Quote)
      requires Valid() && m == closed + 1 < facts.current
      modifies this
      ensures Valid() && AppendsOnly() && facts == old(facts) && cash == old(cash) && movements == old(movements)
      ensures frozen.Keys == old(frozen).Keys + {m} && closed == m
      ensures m >= facts.start ==> m in coverages && coverages[m] == CoverageOf(facts, cash, frozen[m], m)
    {
      hide Effects, Net, Proper, Balance, Unallocated, Shown, AllProper, CoverageOf, Sound, CashOf, CashUpTo, Settled;
      SoundUnit(facts);
      Refresh(quote);
      var remaining := Categories(m, quote);
      var coverage := CoverageAt(m, remaining);
      ghost var extra := if m >= facts.start then Shown(facts, movements, closed, phantom, quote, m) - Unallocated(facts, m) else 0;
      Freeze(m, remaining, coverage, extra);
    }

    /** Closes a completed, reconciled month, oldest first, freezing its balances and coverage. */
    method Close(m: Month, reconciled: bool, quote: Quote) returns (ok: bool)
      requires Valid()
      modifies this
      ensures Valid() && AppendsOnly() && facts == old(facts) && cash == old(cash) && movements == old(movements)
      ensures ok == (reconciled && facts.first <= m < facts.current && m !in old(frozen)
                     && forall k :: facts.first <= k < m ==> k in old(frozen))
      ensures if ok then frozen.Keys == old(frozen).Keys + {m} && closed == m
              else unchanged(this)
      ensures ok && m >= facts.start ==>
                m in coverages && coverages[m] == CoverageOf(facts, cash, frozen[m], m)
    {
      hide Effects, Net, Proper, Balance, Unallocated, AllProper, CoverageOf, Sound, CashOf, Settled, FrozenOk;
      ok := reconciled && facts.first <= m < facts.current && m !in frozen
            && forall k :: facts.first <= k < m ==> k in frozen;
      if !ok { return; }
      NextToClose(facts.first, closed, frozen.Keys, m);
      SoundUnit(facts);
      FreezeReport(m, quote);
    }
  }

  lemma SoundUnit(f: Facts)
    requires Sound(f)
    ensures f.cent > 0
  {
  }

  lemma NextToClose(first: Month, last: int, closed: set<Month>, m: Month)
    requires first - 1 <= last && ClosedThrough(first, last, closed)
    requires first <= m && m !in closed && forall k :: first <= k < m ==> k in closed
    ensures m == last + 1
  {
    var next: Month := last + 1;
    assert next !in closed;
  }

  /** Closed months stay in line although they are skipped: what they call for
      depends on facts the step left alone. */
  lemma CommitSettled(f: Facts, g: Facts, k: int, before: seq<Movement>, after: seq<Movement>, closed: set<Month>)
    requires WellFormed(f) && WellFormed(g) && Continues(f, g, k)
    requires f.first - 1 <= k < f.current && ClosedThrough(f.first, k, closed)
    requires Settled(f, before) && AllProper(f, before)
    requires Reconciles(before, after, OpenSlots(closed), Effects(g))
    ensures Settled(g, after)
  {
    hide Effects, Net, Through;
    forall s ensures Net(after, s) == Net(Effects(g), s) {
      if s.month in closed {
        assert s !in OpenSlots(closed);
        if f.start <= k {
          EffectsThrough(f, k, s);
          EffectsThrough(g, k, s);
        } else {
          NetImproper(f, s);
          NetImproper(g, s);
        }
      } else {
        assert s in OpenSlots(closed);
      }
    }
  }

  lemma CommitFrozen(f: Facts, g: Facts, k: int, snapshot: map<Category, int>, m: Month, extra: int)
    requires WellFormed(f) && WellFormed(g) && Continues(f, g, k)
    requires f.first <= m <= k < f.current
    requires FrozenOk(f, snapshot, m, extra)
    ensures FrozenOk(g, snapshot, m, extra)
  {
    hide Effects, Net, Through, Balance, Unallocated;
    forall c | c in g.categories ensures Balance(g, c, m) == Balance(f, c, m) {
      BalanceThrough(f, c, m, k);
      BalanceThrough(g, c, m, k);
    }
    if m >= f.start {
      UnallocatedThrough(f, m, k);
      UnallocatedThrough(g, m, k);
    }
  }

  /** now lies between old and its materialised form: some plans are there already. */
  ghost predicate Between(f: Facts, now: Facts, g: Facts)
  {
    && now.(plans := g.plans) == g && f.(plans := g.plans) == g
    && (forall m :: m in now.plans ==> m in g.plans && now.plans[m] == g.plans[m])
    && (forall m :: m in f.plans ==> m in now.plans)
  }

  lemma BetweenSound(f: Facts, now: Facts, quote: Quote)
    requires Sound(f) && Between(f, now, Materialised(f, quote))
    ensures Sound(now)
  {
  }

  lemma EnsuredBetween(f: Facts, was: Facts, now: Facts, quote: Quote, m: Month, rows: seq<Movement>)
    requires Sound(f) && Between(f, was, Materialised(f, quote)) && AllProper(was, rows)
    requires f.start <= m <= f.current
    requires now == was.(plans := was.plans[m := if m in was.plans then was.plans[m] else NewPlan(was, m, quote)])
    ensures Between(f, now, Materialised(f, quote)) && AllProper(now, rows)
  {
  }

  lemma AllMaterialised(f: Facts, now: Facts, quote: Quote)
    requires Between(f, now, Materialised(f, quote))
    requires forall m :: f.start <= m <= f.current ==> m in now.plans
    ensures now == Materialised(f, quote)
  {
    assert now.plans == Materialised(f, quote).plans;
  }

  lemma ClosedPassed(start: Month, m: Month, closed: set<Month>)
    requires m in closed
    ensures OpenMonthSlots(start, m, closed) == OpenMonthSlots(start, m + 1, closed)
  {
  }

  lemma NothingPassed(f: Facts, rows: seq<Movement>, closed: set<Month>, target: seq<Movement>)
    ensures Reconciles(rows, rows, OpenMonthSlots(f.start, f.start, closed), target)
  {
  }

  lemma SyncedProper(f: Facts, quote: Quote, rows: seq<Movement>)
    requires Sound(f) && AllProper(f, rows)
    ensures AllProper(Materialised(f, quote), rows)
  {
  }

  lemma MonthRowsSame(now: Facts, g: Facts, m: Month)
    requires now.(plans := g.plans) == g && m in now.plans && m in g.plans && now.plans[m] == g.plans[m]
    ensures MonthRows(now, m) == MonthRows(g, m)
  {
  }

  lemma MonthPassed(now: Facts, g: Facts, m: Month, closed: set<Month>,
                    start: seq<Movement>, mid: seq<Movement>, after: seq<Movement>)
    requires WellFormed(g) && Sound(now) && now.(plans := g.plans) == g
    requires g.start <= m <= g.current && m !in closed
    requires m in now.plans && now.plans[m] == g.plans[m]
    requires AllProper(now, mid)
    requires Reconciles(mid, after, MonthSlots(m), MonthRows(now, m))
    requires Reconciles(start, mid, OpenMonthSlots(g.start, m, closed), Effects(g))
    ensures AllProper(now, after)
    ensures Reconciles(start, after, OpenMonthSlots(g.start, m + 1, closed), Effects(g))
  {
    hide Effects, Net, Proper, MonthRows;
    MonthRowsShape(now, m);
    KeepsProper(now, mid, after, MonthSlots(m), MonthRows(now, m));
    MonthRowsSame(now, g, m);
    forall s | s in MonthSlots(m) ensures Net(MonthRows(now, m), s) == Net(Effects(g), s) {
      NetEffects(g, s);
    }
    ReconcilesWider(mid, after, MonthSlots(m), MonthSlots(m), MonthRows(now, m), Effects(g));
    ReconcilesThen(start, mid, after, OpenMonthSlots(g.start, m, closed), MonthSlots(m), Effects(g));
    assert OpenMonthSlots(g.start, m, closed) + MonthSlots(m) == OpenMonthSlots(g.start, m + 1, closed);
  }

  lemma PlanRowsAreEffects(f: Facts, plan: Month, s: Slot)
    requires WellFormed(f) && plan in f.plans && PlanOf(s.key) == plan
    ensures Net(PlanRows(f, plan), s) == Net(Effects(f), s)
  {
    hide Proportional;
    NetEffects(f, s);
  }

  lemma PlanKeepsProper(f: Facts, plan: Month, scope: iset<Slot>, mid: seq<Movement>, after: seq<Movement>)
    requires WellFormed(f) && AllProper(f, mid) && Reconciles(mid, after, scope, PlanRows(f, plan))
    ensures AllProper(f, after)
  {
    hide Proportional;
    PlanRowsShape(f, plan);
    KeepsProper(f, mid, after, scope, PlanRows(f, plan));
  }

  lemma PlanPassed(f: Facts, plan: Month, closed: set<Month>,
                   start: seq<Movement>, mid: seq<Movement>, after: seq<Movement>, before: iset<Slot>)
    requires WellFormed(f) && plan in f.plans && AllProper(f, mid)
    requires before == OpenMonthSlots(f.start, f.current + 1, closed)
    requires Reconciles(mid, after, PlanSlots(plan, closed), PlanRows(f, plan))
    requires Reconciles(start, mid, before + OpenPlanSlots(f.start, plan, closed), Effects(f))
    ensures AllProper(f, after)
    ensures Reconciles(start, after, before + OpenPlanSlots(f.start, plan + 1, closed), Effects(f))
  {
    hide Effects, Net, Proper, PlanRows;
    var scope := PlanSlots(plan, closed);
    PlanKeepsProper(f, plan, scope, mid, after);
    assert Reconciles(mid, after, scope, Effects(f)) by {
      forall s | s in scope ensures Net(PlanRows(f, plan), s) == Net(Effects(f), s) {
        PlanRowsAreEffects(f, plan, s);
      }
      ReconcilesWider(mid, after, scope, scope, PlanRows(f, plan), Effects(f));
    }
    var done := before + OpenPlanSlots(f.start, plan, closed);
    assert done + scope == before + OpenPlanSlots(f.start, plan + 1, closed);
    ReconcilesThen(start, mid, after, done, scope, Effects(f));
  }

  /** Slots neither pass visits hold nothing on either side. */
  lemma AllPassed(f: Facts, closed: set<Month>, start: seq<Movement>, after: seq<Movement>)
    requires WellFormed(f) && AllProper(f, start)
    requires Reconciles(start, after,
                        OpenMonthSlots(f.start, f.current + 1, closed) + OpenPlanSlots(f.start, f.current + 1, closed), Effects(f))
    ensures Reconciles(start, after, OpenSlots(closed), Effects(f))
  {
    hide Proportional;
    var done := OpenMonthSlots(f.start, f.current + 1, closed) + OpenPlanSlots(f.start, f.current + 1, closed);
    forall s | s in OpenSlots(closed) && s !in done ensures Net(start, s) == Net(Effects(f), s) {
      NetImproper(f, s);
      NetNone(start, s);
    }
    ReconcilesWider(start, after, done, OpenSlots(closed), Effects(f), Effects(f));
  }

  lemma MaterialisedWellFormed(f: Facts, quote: Quote)
    requires Sound(f)
    ensures WellFormed(Materialised(f, quote))
  {
  }

  ghost function ExcessSlots(plan: Month, closed: set<Month>): iset<Slot>
  {
    iset s: Slot | s.key == Excess(plan) && s.month !in closed
  }

  ghost function CompleteSlots(plan: Month, closed: set<Month>): iset<Slot>
  {
    iset s: Slot | s.key == Complete(plan) && s.month !in closed
  }

  ghost function PlanSlots(plan: Month, closed: set<Month>): iset<Slot>
  {
    iset s: Slot | (s.key == Excess(plan) || s.key == Complete(plan)) && s.month !in closed
  }

  ghost function OpenMonthSlots(start: Month, end: Month, closed: set<Month>): iset<Slot>
  {
    iset s: Slot | start <= s.month < end && s.month !in closed && !PlanKey(s.key)
  }

  ghost function OpenPlanSlots(start: Month, end: Month, closed: set<Month>): iset<Slot>
  {
    iset s: Slot | start <= PlanOf(s.key) < end && s.month !in closed && PlanKey(s.key)
  }

  ghost function OpenSlots(closed: set<Month>): iset<Slot>
  {
    iset s: Slot | s.month !in closed
  }

  lemma NotCompleted(f: Facts, plan: Month, rows: seq<Movement>, s: Slot)
    requires WellFormed(f) && plan in f.plans && AllProper(f, rows) && s.key == Complete(plan)
    requires f.plans[plan].completed.Some? ==> s != CompleteSlot(plan, f.plans[plan].completed.value)
    ensures Net(rows, s) == 0 && Net(PlanRows(f, plan), s) == 0
  {
    hide PlanRows;
    NetPlan(f, plan, s);
    NetNone(rows, s);
  }

  lemma UnwantedExcess(f: Facts, plan: Month, rows: seq<Movement>, wanted: map<Slot, int>)
    requires WellFormed(f) && plan in f.plans && AllProper(f, rows)
    requires Holds(wanted, ExcessRows(f.cent, f.plans[plan], plan, Matched(f.transactions, plan, f.current)))
    requires forall k :: 0 <= k < |rows| && rows[k].slot.key == Excess(plan) ==> rows[k].slot in wanted
    ensures forall s: Slot :: s.key == Excess(plan) ==>
              && Net(ExcessRows(f.cent, f.plans[plan], plan, Matched(f.transactions, plan, f.current)), s) == Net(PlanRows(f, plan), s)
              && (s !in wanted ==> Net(rows, s) == Net(PlanRows(f, plan), s))
  {
    hide Proportional;
    forall s: Slot | s.key == Excess(plan)
      ensures Net(ExcessRows(f.cent, f.plans[plan], plan, Matched(f.transactions, plan, f.current)), s) == Net(PlanRows(f, plan), s)
      ensures s !in wanted ==> Net(rows, s) == Net(PlanRows(f, plan), s)
    {
      NetPlan(f, plan, s);
      if s !in wanted { NetNone(rows, s); }
    }
  }

  lemma UnwantedTransactions(f: Facts, m: Month, rows: seq<Movement>, wanted: map<Slot, int>)
    requires Holds(wanted, TransactionsRows(f.categories, m, f.transactions))
    requires forall k :: 0 <= k < |rows| && rows[k].slot in TransactionSlots(m) ==> rows[k].slot in wanted
    ensures forall s :: s in TransactionSlots(m) ==>
              && Net(TransactionsRows(f.categories, m, f.transactions), s) == Net(MonthRows(f, m), s)
              && (s !in wanted ==> Net(rows, s) == Net(MonthRows(f, m), s))
  {
    forall s | s in TransactionSlots(m)
      ensures Net(TransactionsRows(f.categories, m, f.transactions), s) == Net(MonthRows(f, m), s)
      ensures s !in wanted ==> Net(rows, s) == Net(MonthRows(f, m), s)
    {
      NetMonth(f, m, s);
      if s !in wanted { NetNone(rows, s); }
    }
  }

  lemma WantedAllocation(f: Facts, m: Month, c: Category)
    requires Sound(f) && c in f.categories
    ensures Net(MonthRows(f, m), AllocationSlot(m, c)) == Allocated(f.periods, c, m)
  {
    NetMonth(f, m, AllocationSlot(m, c));
    NetAllocation(f.periods, m, f.categories, c);
  }

  lemma WantedCorrection(f: Facts, m: Month, k: nat)
    requires Sound(f) && k < |f.corrections| && f.corrections[k].month == m
    ensures Net(MonthRows(f, m), CorrectionSlot(f.corrections[k])) == -f.corrections[k].delta
  {
    NetMonth(f, m, CorrectionSlot(f.corrections[k]));
    NetCorrection(m, f.corrections, k);
  }

  lemma CorrectsOneMore(cs: seq<CorrectionItem>, m: Month, i: nat)
    requires i < |cs|
    ensures forall s :: CorrectsAt(cs[..i + 1], m, s) <==>
              CorrectsAt(cs[..i], m, s) || (cs[i].month == m && s == CorrectionSlot(cs[i]))
  {
    assert cs[..i + 1] == cs[..i] + [cs[i]];
    forall s | CorrectsAt(cs[..i], m, s) ensures CorrectsAt(cs[..i + 1], m, s) {
      var c :| c in cs[..i] && c.month == m && s == CorrectionSlot(c);
      assert c in cs[..i + 1];
    }
    assert cs[i] in cs[..i + 1];
  }

  ghost function AllocationSlots(f: Facts, m: Month): iset<Slot>
  {
    iset s: Slot | s == AllocationsSlot(m) || (s.category in f.categories && s == AllocationSlot(m, s.category))
  }

  ghost function MonthSlots(m: Month): iset<Slot>
  {
    iset s: Slot | s.month == m && !PlanKey(s.key)
  }

  ghost function TransactionSlots(m: Month): iset<Slot>
  {
    iset s: Slot | s.month == m && s.key.OfTransaction?
  }

  ghost function CorrectionSlots(f: Facts, m: Month): iset<Slot>
  {
    iset s | CorrectsAt(f.corrections, m, s)
  }

  ghost function Visited(f: Facts, m: Month): iset<Slot>
  {
    iset{FundingSlot(m)} + AllocationSlots(f, m) + TransactionSlots(m) + CorrectionSlots(f, m)
  }

  lemma ScopesDisjoint(f: Facts, m: Month)
    ensures iset{FundingSlot(m)} !! AllocationSlots(f, m)
    ensures iset{FundingSlot(m)} + AllocationSlots(f, m) !! TransactionSlots(m)
    ensures iset{FundingSlot(m)} + AllocationSlots(f, m) + TransactionSlots(m) !! CorrectionSlots(f, m)
    ensures Visited(f, m) <= MonthSlots(m)
  {
  }

  lemma UnvisitedImproper(f: Facts, m: Month, s: Slot)
    requires s.month == m && !PlanKey(s.key)
    requires s !in Visited(f, m)
    ensures !Proper(f, s)
  {
    if s.key.OfCorrection? {
      assert !CorrectsAt(f.corrections, m, s);
    }
  }

  /** Slots of a month that no pass visits hold nothing, before and after. */
  lemma MonthScope(f: Facts, m: Month, rows: seq<Movement>)
    requires Sound(f) && f.start <= m <= f.current && AllProper(f, rows)
    ensures forall s: Slot :: s.month == m && !PlanKey(s.key)
              && s !in Visited(f, m)
              ==> Net(rows, s) == Net(MonthRows(f, m), s)
  {
    forall s: Slot | s.month == m && !PlanKey(s.key)
        && s !in Visited(f, m)
      ensures Net(rows, s) == 0 && Net(MonthRows(f, m), s) == 0
    {
      UnvisitedImproper(f, m, s);
      NetNone(rows, s);
      MonthRowsShape(f, m);
      NetNone(MonthRows(f, m), s);
    }
  }
}
