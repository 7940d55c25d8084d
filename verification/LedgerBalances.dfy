/** Category balances straight from the facts: what the carryover engine has to
    arrive at, however much of it is read from movements and frozen months. */
module LedgerBalances {
  import opened LedgerRows
  import opened Rounding
  import opened LedgerFacts
  import opened LedgerEffects
  import opened LedgerThrough

  // ----- figures of one category in one month -----

  /** Net spending of a transaction. Months before activation count every kind;
      ledger months leave out transfers, reconciliations and income that funds the plan. */
  function SpendingOf(t: Transaction, c: Category, ledger: bool): int
  {
    if t.kind.Reallocate? then 0
    else if ledger && (t.kind.Transfer? || t.kind.Reconciliation?
                       || (t.kind.Income? && t.treatment != Some(Refund) && t.treatment != Some(Legacy))) then 0
    else (if t.fromCategory == Some(c) then t.fromEur else 0) - (if t.toCategory == Some(c) then t.toEur else 0)
  }

  /** What a reallocation takes out of the category. */
  function Impact(t: Transaction, c: Category): int
  {
    if !t.kind.Reallocate? then 0
    else (if t.fromCategory == Some(c) then Abs(t.amount) else 0) - (if t.toCategory == Some(c) then Abs(t.amount) else 0)
  }

  function SpendingIn(ts: seq<Transaction>, c: Category, m: Month, ledger: bool): int
  {
    if ts == [] then 0
    else
      var t := ts[|ts| - 1];
      SpendingIn(ts[..|ts| - 1], c, m, ledger) + if t.month == m then SpendingOf(t, c, ledger) else 0
  }

  function ImpactIn(ts: seq<Transaction>, c: Category, m: Month): int
  {
    if ts == [] then 0
    else
      var t := ts[|ts| - 1];
      ImpactIn(ts[..|ts| - 1], c, m) + if t.month == m then Impact(t, c) else 0
  }

  function CorrectionIn(items: seq<CorrectionItem>, c: Category, m: Month): int
  {
    if items == [] then 0
    else
      var i := items[|items| - 1];
      CorrectionIn(items[..|items| - 1], c, m) + if i.month == m && i.category == c then i.delta else 0
  }

  datatype Figures = Figures(carryover: int, monthly: int, netSpending: int, impact: int, correction: int)
  {
    function Adjustment(): int { -impact - correction }
    function Available(): int { carryover + monthly + Adjustment() }
    function Remaining(): int { Available() - netSpending }
  }

  function FiguresAt(f: Facts, c: Category, m: Month, carryover: int): Figures
  {
    Figures(carryover, Allocated(f.periods, c, m), SpendingIn(f.transactions, c, m, m >= f.start),
            ImpactIn(f.transactions, c, m), CorrectionIn(f.corrections, c, m))
  }

  /** The category's remaining budget at the end of month m, recomputed from its opening. */
  function Balance(f: Facts, c: Category, m: int): int
    decreases m - f.first
  {
    if m < f.first then if c in f.openings then f.openings[c] else 0
    else FiguresAt(f, c, m, Balance(f, c, m - 1)).Remaining()
  }

  ghost function InSlot(m: Month, c: Category, k: MovementKind): Slot -> bool
  {
    (s: Slot) => s.month == m && s.category == c && s.kind == k
  }

  ghost function InUnallocated(m: Month): Slot -> bool
  {
    (s: Slot) => s.month == m && s.category == UNALLOCATED
  }

  /** Unallocated at the end of month m. */
  ghost function Unallocated(f: Facts, m: int): int
    requires f.cent > 0
    decreases m - f.start
  {
    if m < f.start then f.unallocatedOpening
    else Unallocated(f, m - 1) + SumIn(Effects(f), InUnallocated(m))
  }

  // ----- movements of a month, summed -----

  lemma {:induction false} AllocationSum(ps: Periods, m: Month, cs: seq<Category>, c: Category)
    requires forall i, j :: 0 <= i < j < |cs| ==> cs[i] != cs[j]
    ensures SumIn(AllocationRows(ps, m, cs), InSlot(m, c, Allocation)) == if c in cs then Allocated(ps, c, m) else 0
  {
    if cs != [] {
      var front, last := cs[..|cs| - 1], cs[|cs| - 1];
      AllocationSum(ps, m, front, c);
      SumAppend(AllocationRows(ps, m, front), Movement(AllocationSlot(m, last), Allocated(ps, last, m)), InSlot(m, c, Allocation));
      assert c in cs <==> c in front || c == last;
    }
  }

  lemma SumSingle(r: Movement, p: Slot -> bool)
    ensures SumIn([r], p) == if p(r.slot) then r.amount else 0
  {
    SumAppend([], r, p);
    assert [] + [r] == [r];
  }

  lemma SideSum(cs: seq<Category>, t: Transaction, category: Option<Category>, eur: int, incoming: bool, c: Category, k: MovementKind)
    requires c in cs
    ensures SumIn(SideRows(cs, t, category, eur, incoming), InSlot(t.month, c, k)) ==
            if category == Some(c) && k == (if t.kind.Reallocate? then Reallocation else Spending)
            then (if incoming then 1 else -1) * (if t.kind.Reallocate? then Abs(t.amount) else eur)
            else 0
  {
    var rows := SideRows(cs, t, category, eur, incoming);
    if rows != [] {
      assert rows == [rows[0]];
      SumSingle(rows[0], InSlot(t.month, c, k));
    }
  }

  lemma TransactionSum(cs: seq<Category>, t: Transaction, c: Category)
    requires c in cs && c != UNALLOCATED
    ensures SumIn(TransactionRows(cs, t), InSlot(t.month, c, Spending)) == -SpendingOf(t, c, true)
    ensures SumIn(TransactionRows(cs, t), InSlot(t.month, c, Reallocation)) == -Impact(t, c)
  {
    hide SumIn;
    var a, b := SideRows(cs, t, t.fromCategory, t.fromEur, false), SideRows(cs, t, t.toCategory, t.toEur, true);
    forall k | k == Spending || k == Reallocation
      ensures SumIn(a + b, InSlot(t.month, c, k)) == SumIn(a, InSlot(t.month, c, k)) + SumIn(b, InSlot(t.month, c, k))
      ensures SumIn([], InSlot(t.month, c, k)) == 0
    {
      SumConcat(a, b, InSlot(t.month, c, k));
      SumNone([], InSlot(t.month, c, k));
      SideSum(cs, t, t.fromCategory, t.fromEur, false, c, k);
      SideSum(cs, t, t.toCategory, t.toEur, true, c, k);
    }
    SideSum(cs, t, t.fromCategory, t.fromEur, false, c, Spending);
    SideSum(cs, t, t.toCategory, t.toEur, true, c, Spending);
    SideSum(cs, t, t.fromCategory, t.fromEur, false, c, Reallocation);
    SideSum(cs, t, t.toCategory, t.toEur, true, c, Reallocation);
    var unexpected := Movement(Slot(t.month, UNALLOCATED, Receipt, OfTransaction(t.id)), t.toEur);
    SumSingle(unexpected, InSlot(t.month, c, Spending));
    SumSingle(unexpected, InSlot(t.month, c, Reallocation));
  }

  lemma {:induction false} TransactionsSum(cs: seq<Category>, m: Month, ts: seq<Transaction>, c: Category)
    requires c in cs && c != UNALLOCATED
    ensures SumIn(TransactionsRows(cs, m, ts), InSlot(m, c, Spending)) == -SpendingIn(ts, c, m, true)
    ensures SumIn(TransactionsRows(cs, m, ts), InSlot(m, c, Reallocation)) == -ImpactIn(ts, c, m)
  {
    if ts != [] {
      var front, t := ts[..|ts| - 1], ts[|ts| - 1];
      TransactionsSum(cs, m, front, c);
      TransactionSum(cs, t, c);
      var rest := if t.month == m then TransactionRows(cs, t) else [];
      SumConcat(TransactionsRows(cs, m, front), rest, InSlot(m, c, Spending));
      SumConcat(TransactionsRows(cs, m, front), rest, InSlot(m, c, Reallocation));
    }
  }

  lemma MonthSumParts(f: Facts, m: Month, p: Slot -> bool)
    ensures SumIn(MonthRows(f, m), p) ==
            (if p(FundingSlot(m)) then PlannedEur(f.plans, m) else 0)
            + SumIn(AllocationRows(f.periods, m, f.categories), p)
            + (if p(AllocationsSlot(m)) then -TotalAllocated(f.periods, m, f.categories) else 0)
            + SumIn(TransactionsRows(f.categories, m, f.transactions), p)
            + SumIn(CorrectionRows(m, f.corrections), p)
  {
    var a := [Movement(FundingSlot(m), PlannedEur(f.plans, m))];
    var b := AllocationRows(f.periods, m, f.categories);
    var c := [Movement(AllocationsSlot(m), -TotalAllocated(f.periods, m, f.categories))];
    var d := TransactionsRows(f.categories, m, f.transactions);
    var e := CorrectionRows(m, f.corrections);
    SumConcat(a + b + c + d, e, p);
    SumConcat(a + b + c, d, p);
    SumConcat(a + b, c, p);
    SumConcat(a, b, p);
    SumSingle(a[0], p);
    SumSingle(c[0], p);
  }

  /** What an open ledger month reads for a category is what its facts say. */
  lemma MonthSum(f: Facts, c: Category, m: Month)
    requires Sound(f) && c in f.categories
    ensures SumIn(MonthRows(f, m), InSlot(m, c, Allocation)) == Allocated(f.periods, c, m)
    ensures SumIn(MonthRows(f, m), InSlot(m, c, Spending)) == -SpendingIn(f.transactions, c, m, true)
    ensures SumIn(MonthRows(f, m), InSlot(m, c, Reallocation)) == -ImpactIn(f.transactions, c, m)
  {
    AllocationRowsShape(f.periods, m, f.categories);
    TransactionsRowsShape(f.categories, m, f.transactions);
    CorrectionRowsShape(m, f.corrections);
    AllocationSum(f.periods, m, f.categories, c);
    TransactionsSum(f.categories, m, f.transactions, c);
    forall k | k == Allocation || k == Spending || k == Reallocation
      ensures SumIn(MonthRows(f, m), InSlot(m, c, k)) ==
              SumIn(AllocationRows(f.periods, m, f.categories), InSlot(m, c, k))
              + SumIn(TransactionsRows(f.categories, m, f.transactions), InSlot(m, c, k))
    {
      MonthSumParts(f, m, InSlot(m, c, k));
      SumNone(CorrectionRows(m, f.corrections), InSlot(m, c, k));
    }
    SumNone(TransactionsRows(f.categories, m, f.transactions), InSlot(m, c, Allocation));
    SumNone(AllocationRows(f.periods, m, f.categories), InSlot(m, c, Spending));
    SumNone(AllocationRows(f.periods, m, f.categories), InSlot(m, c, Reallocation));
  }

  /** A table in line with the facts sums, per month, category and kind, to what the month calls for. */
  lemma SettledSum(f: Facts, rows: seq<Movement>, c: Category, m: Month, k: MovementKind)
    requires WellFormed(f) && c in f.categories && f.start <= m <= f.current
    requires forall s :: Net(rows, s) == Net(Effects(f), s)
    ensures SumIn(rows, InSlot(m, c, k)) == SumIn(MonthRows(f, m), InSlot(m, c, k))
  {
    forall s | InSlot(m, c, k)(s) ensures Net(rows, s) == Net(MonthRows(f, m), s) {
      if Proper(f, s) {
        NetEffects(f, s);
      } else {
        NetImproper(f, s);
        MonthRowsShape(f, m);
        NetNone(MonthRows(f, m), s);
      }
    }
    SameNetsSameSum(rows, MonthRows(f, m), InSlot(m, c, k));
  }

  // ----- balances up to k read only facts up to k -----

  lemma {:induction false} SpendingThrough(ts: seq<Transaction>, c: Category, m: Month, ledger: bool, k: Month)
    requires m <= k
    ensures SpendingIn(TransactionsThrough(ts, k), c, m, ledger) == SpendingIn(ts, c, m, ledger)
    ensures ImpactIn(TransactionsThrough(ts, k), c, m) == ImpactIn(ts, c, m)
  {
    if ts != [] {
      var front, last := ts[..|ts| - 1], ts[|ts| - 1];
      SpendingThrough(front, c, m, ledger, k);
      if last.month <= k {
        assert TransactionsThrough(ts, k)[..|TransactionsThrough(ts, k)| - 1] == TransactionsThrough(front, k);
      } else {
        assert TransactionsThrough(ts, k) == TransactionsThrough(front, k);
      }
    }
  }

  lemma {:induction false} CorrectionThrough(items: seq<CorrectionItem>, c: Category, m: Month, k: Month)
    requires m <= k
    ensures CorrectionIn(CorrectionsThrough(items, k), c, m) == CorrectionIn(items, c, m)
  {
    if items != [] {
      var front, last := items[..|items| - 1], items[|items| - 1];
      CorrectionThrough(front, c, m, k);
      if last.month <= k {
        assert CorrectionsThrough(items, k)[..|CorrectionsThrough(items, k)| - 1] == CorrectionsThrough(front, k);
      } else {
        assert CorrectionsThrough(items, k) == CorrectionsThrough(front, k);
      }
    }
  }

  lemma {:induction false} BalanceThrough(f: Facts, c: Category, m: int, k: Month)
    requires m <= k
    ensures Balance(Through(f, k), c, m) == Balance(f, c, m)
    decreases m - f.first
  {
    if m >= f.first {
      BalanceThrough(f, c, m - 1, k);
      MonthlyThrough(f.periods, c, m, k);
      SpendingThrough(f.transactions, c, m, m >= f.start, k);
      CorrectionThrough(f.corrections, c, m, k);
    }
  }

  lemma {:induction false} UnallocatedThrough(f: Facts, m: int, k: Month)
    requires WellFormed(f) && f.start <= k <= f.current && m <= k
    ensures Unallocated(Through(f, k), m) == Unallocated(f, m)
    decreases m - f.start
  {
    hide Effects, Net, Proportional;
    if m >= f.start {
      UnallocatedThrough(f, m - 1, k);
      forall s | InUnallocated(m)(s) ensures Net(Effects(Through(f, k)), s) == Net(Effects(f), s) {
        EffectsThrough(f, k, s);
      }
      SameNetsSameSum(Effects(Through(f, k)), Effects(f), InUnallocated(m));
    }
  }

  // ----- months nothing has happened in yet -----

  lemma {:induction false} NothingIn(ts: seq<Transaction>, c: Category, m: Month, ledger: bool)
    requires forall t :: t in ts ==> t.month != m
    ensures SpendingIn(ts, c, m, ledger) == 0 && ImpactIn(ts, c, m) == 0
  {
    if ts != [] {
      assert ts[|ts| - 1] in ts;
      NothingIn(ts[..|ts| - 1], c, m, ledger);
    }
  }

  // ----- Unallocated as it is read -----

  /** The month has a movement of its expected funding. */
  predicate Funded(rows: seq<Movement>, m: Month)
  {
    exists i :: 0 <= i < |rows| && rows[i].slot.month == m && rows[i].slot.category == UNALLOCATED && rows[i].slot.kind == Funding
  }

  /** A month without a funding movement is read as if its plan were still to be made. */
  function Unmade(f: Facts, rows: seq<Movement>, m: Month, quote: Quote): int
  {
    if Funded(rows, m) then 0
    else NewPlan(f, m, quote).amountEur - if m <= f.current then 0 else TotalAllocated(f.periods, m, f.categories)
  }

  /** Unallocated as reports show it: from the last close on, movements plus unmade plans. */
  ghost function Shown(f: Facts, rows: seq<Movement>, closed: int, phantom: map<Month, int>, quote: Quote, m: int): int
    requires f.cent > 0
    decreases m - f.start
  {
    if m < f.start then f.unallocatedOpening
    else if m <= closed then Unallocated(f, m) + if m in phantom then phantom[m] else 0
    else Shown(f, rows, closed, phantom, quote, m - 1) + SumIn(Effects(f), InUnallocated(m)) + Unmade(f, rows, m, quote)
  }

  lemma AllocationsNet(f: Facts, m: Month)
    requires WellFormed(f) && f.start <= m <= f.current
    ensures SumIn(Effects(f), InSlot(m, UNALLOCATED, Allocation)) == -TotalAllocated(f.periods, m, f.categories)
  {
    hide Net, Effects, SumIn;
    var p := InSlot(m, UNALLOCATED, Allocation);
    var rows := [Movement(AllocationsSlot(m), -TotalAllocated(f.periods, m, f.categories))];
    forall s | p(s) ensures Net(Effects(f), s) == Net(rows, s) {
      NetSingle(rows[0], s);
      if s == AllocationsSlot(m) {
        NetEffects(f, s);
        NetMonth(f, m, s);
      } else {
        NetImproper(f, s);
      }
    }
    SameNetsSameSum(Effects(f), rows, p);
    SumSingle(rows[0], p);
  }

  lemma NoEffectsIn(f: Facts, rows: seq<Movement>, m: Month, p: Slot -> bool)
    requires AllProper(f, rows) && m > f.current
    requires forall s :: p(s) ==> s.month == m
    ensures SumIn(rows, p) == 0
  {
    SumNone(rows, p);
  }
}
