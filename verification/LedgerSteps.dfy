/** What each write handler does to the facts, and that none of it reaches back
    into a closed month. */
module LedgerSteps {
  import opened LedgerRows
  import opened Rounding
  import opened LedgerFacts
  import opened LedgerEffects
  import opened LedgerThrough

  // ----- the transaction table, kept in the order its readers ask for -----

  function Insert(ts: seq<Transaction>, t: Transaction): seq<Transaction>
  {
    if ts == [] then [t]
    else
      var last := ts[|ts| - 1];
      if Earlier(last, t) then ts + [t] else Insert(ts[..|ts| - 1], t) + [last]
  }

  function Remove(ts: seq<Transaction>, id: nat): seq<Transaction>
  {
    if ts == [] then []
    else
      var last := ts[|ts| - 1];
      Remove(ts[..|ts| - 1], id) + if last.id == id then [] else [last]
  }

  predicate HasId(ts: seq<Transaction>, id: nat)
  {
    exists t :: t in ts && t.id == id
  }

  function Find(ts: seq<Transaction>, id: nat): (r: Option<Transaction>)
    ensures r.Some? ==> r.value in ts && r.value.id == id
    ensures r.None? ==> !HasId(ts, id)
  {
    if ts == [] then None
    else if ts[|ts| - 1].id == id then Some(ts[|ts| - 1])
    else
      var r := Find(ts[..|ts| - 1], id);
      assert forall t :: t in ts <==> t in ts[..|ts| - 1] || t == ts[|ts| - 1];
      r
  }

  lemma {:induction false} InsertMembers(ts: seq<Transaction>, t: Transaction)
    ensures forall u :: u in Insert(ts, t) <==> u in ts || u == t
  {
    if ts != [] && !Earlier(ts[|ts| - 1], t) {
      InsertMembers(ts[..|ts| - 1], t);
      assert ts == ts[..|ts| - 1] + [ts[|ts| - 1]];
    }
  }

  lemma LastIsLatest(ts: seq<Transaction>, t: Transaction)
    requires ts != [] && Ordered(ts)
    requires t in ts[..|ts| - 1]
    ensures Earlier(t, ts[|ts| - 1]) && Ordered(ts[..|ts| - 1])
  {
    var i :| 0 <= i < |ts| - 1 && ts[i] == t;
  }

  lemma OrderedAppend(ts: seq<Transaction>, t: Transaction)
    requires Ordered(ts) && DistinctIds(ts)
    requires forall u :: u in ts ==> Earlier(u, t) && u.id != t.id
    ensures Ordered(ts + [t]) && DistinctIds(ts + [t])
  {
    forall i, j | 0 <= i < j < |ts + [t]|
      ensures Earlier((ts + [t])[i], (ts + [t])[j]) && (ts + [t])[i].id != (ts + [t])[j].id
    {
      if j == |ts| { assert ts[i] in ts; }
    }
  }

  lemma {:induction false} InsertOrdered(ts: seq<Transaction>, t: Transaction)
    requires Ordered(ts) && DistinctIds(ts) && !HasId(ts, t.id)
    ensures Ordered(Insert(ts, t)) && DistinctIds(Insert(ts, t))
  {
    if ts != [] {
      var front, last := ts[..|ts| - 1], ts[|ts| - 1];
      assert last in ts;
      if Earlier(last, t) {
        forall u | u in ts ensures Earlier(u, t) && u.id != t.id {
          if u in front { LastIsLatest(ts, u); }
        }
        OrderedAppend(ts, t);
      } else {
        forall u | u in front ensures u in ts {}
        InsertOrdered(front, t);
        InsertMembers(front, t);
        forall u | u in Insert(front, t) ensures Earlier(u, last) && u.id != last.id {
          if u in front {
            LastIsLatest(ts, u);
            var i :| 0 <= i < |front| && front[i] == u;
            assert ts[i].id != ts[|ts| - 1].id;
          }
        }
        OrderedAppend(Insert(front, t), last);
      }
    }
  }

  lemma {:induction false} RemoveMembers(ts: seq<Transaction>, id: nat)
    ensures forall u :: u in Remove(ts, id) <==> u in ts && u.id != id
  {
    if ts != [] {
      RemoveMembers(ts[..|ts| - 1], id);
      assert ts == ts[..|ts| - 1] + [ts[|ts| - 1]];
    }
  }

  lemma {:induction false} RemoveOrdered(ts: seq<Transaction>, id: nat)
    requires Ordered(ts) && DistinctIds(ts)
    ensures Ordered(Remove(ts, id)) && DistinctIds(Remove(ts, id)) && !HasId(Remove(ts, id), id)
  {
    RemoveMembers(ts, id);
    if ts != [] {
      var front, last := ts[..|ts| - 1], ts[|ts| - 1];
      RemoveOrdered(front, id);
      if last.id != id {
        RemoveMembers(front, id);
        forall u | u in Remove(front, id) ensures Earlier(u, last) && u.id != last.id {
          LastIsLatest(ts, u);
          var i :| 0 <= i < |front| && front[i] == u;
          assert ts[i].id != ts[|ts| - 1].id;
        }
        OrderedAppend(Remove(front, id), last);
      }
    }
  }

  lemma {:induction false} RemoveAbsent(ts: seq<Transaction>, id: nat)
    requires forall u :: u in ts ==> u.id != id
    ensures Remove(ts, id) == ts
  {
    if ts != [] {
      assert ts[|ts| - 1] in ts;
      RemoveAbsent(ts[..|ts| - 1], id);
    }
  }

  lemma RemoveLast(ts: seq<Transaction>, t: Transaction)
    requires DistinctIds(ts) && t in ts && ts[|ts| - 1].id == t.id
    ensures ts[|ts| - 1] == t && Remove(ts, t.id) == ts[..|ts| - 1]
  {
    var front := ts[..|ts| - 1];
    var i :| 0 <= i < |ts| && ts[i] == t;
    assert i == |front|;
    forall u | u in front ensures u.id != t.id {
      var j :| 0 <= j < |front| && front[j] == u;
      assert ts[j].id != ts[|front|].id;
    }
    RemoveAbsent(front, t.id);
  }

  /** What was taken out of the ordered table goes back to where it was. */
  lemma {:induction false} InsertBack(ts: seq<Transaction>, t: Transaction)
    requires Ordered(ts) && DistinctIds(ts) && t in ts
    ensures Insert(Remove(ts, t.id), t) == ts
  {
    var front, last := ts[..|ts| - 1], ts[|ts| - 1];
    assert ts == front + [last];
    if last.id == t.id {
      RemoveLast(ts, t);
      if front != [] {
        LastIsLatest(ts, front[|front| - 1]);
      }
    } else {
      LastIsLatest(ts, t);
      InsertBack(front, t);
      var us := Remove(front, t.id) + [last];
      assert us[..|us| - 1] == Remove(front, t.id);
    }
  }

  lemma {:induction false} InsertThrough(ts: seq<Transaction>, t: Transaction, k: Month)
    requires t.month > k
    ensures TransactionsThrough(Insert(ts, t), k) == TransactionsThrough(ts, k)
  {
    if ts != [] {
      var front, last := ts[..|ts| - 1], ts[|ts| - 1];
      if Earlier(last, t) {
        assert (ts + [t])[..|ts + [t]| - 1] == ts;
      } else {
        InsertThrough(front, t, k);
        var u := Insert(front, t) + [last];
        assert u[..|u| - 1] == Insert(front, t);
      }
    }
  }

  lemma {:induction false} RemoveThrough(ts: seq<Transaction>, id: nat, k: Month)
    requires forall t :: t in ts && t.id == id ==> t.month > k
    ensures TransactionsThrough(Remove(ts, id), k) == TransactionsThrough(ts, k)
  {
    if ts != [] {
      var front, last := ts[..|ts| - 1], ts[|ts| - 1];
      assert last in ts;
      RemoveThrough(front, id, k);
      if last.id == id {
        assert Remove(ts, id) == Remove(front, id);
      } else {
        var u := Remove(front, id) + [last];
        assert u[..|u| - 1] == Remove(front, id);
      }
    }
  }

  // ----- cash -----

  /** What a transaction does to the active real accounts. */
  function CashEffect(t: Transaction): int
  {
    (if t.toAccount then t.toNative else 0) - (if t.fromAccount then t.fromNative else 0)
  }

  function CashOf(ts: seq<Transaction>): int
  {
    if ts == [] then 0 else CashOf(ts[..|ts| - 1]) + CashEffect(ts[|ts| - 1])
  }

  lemma {:induction false} CashInsert(ts: seq<Transaction>, t: Transaction)
    ensures CashOf(Insert(ts, t)) == CashOf(ts) + CashEffect(t)
  {
    if ts != [] {
      var front, last := ts[..|ts| - 1], ts[|ts| - 1];
      if Earlier(last, t) {
        assert (ts + [t])[..|ts + [t]| - 1] == ts;
      } else {
        CashInsert(front, t);
        var u := Insert(front, t) + [last];
        assert u[..|u| - 1] == Insert(front, t);
      }
    }
  }

  lemma CashRemove(ts: seq<Transaction>, t: Transaction)
    requires Ordered(ts) && DistinctIds(ts) && t in ts
    ensures CashOf(Remove(ts, t.id)) == CashOf(ts) - CashEffect(t)
  {
    hide Insert, Remove, CashOf, CashEffect;
    InsertBack(ts, t);
    CashInsert(Remove(ts, t.id), t);
  }

  // ----- income receipts -----

  datatype Receipt = NoReceipt | Rejected | Linked(treatment: Treatment, expected: Option<Month>)

  function ReceiptOf(t: Transaction): Receipt
  {
    match t.treatment case None => NoReceipt case Some(x) => Linked(x, t.expected)
  }

  /** How an income entry is treated and which expectation it settles. Salary goes
      to the named month, or to its own; a completed expectation takes no new receipt. */
  function MatchReceipt(f: Facts, kind: TransactionKind, month: Month,
                        treatment: Option<Treatment>, expected: Option<Month>, was: Receipt): Receipt
  {
    if !kind.Income? then
      if treatment.Some? || expected.Some? then Rejected
      else if was.Linked? && was.treatment.Legacy? then was else NoReceipt
    else if treatment.None? && expected.None? && was.Linked? then was
    else
      var x := match treatment case Some(v) => v case None => Salary;
      if x.Legacy? then Rejected
      else if !x.Salary? then (if expected.Some? then Rejected else Linked(x, None))
      else
        var target := match expected case Some(m) => m case None => month;
        if target > month || target < f.start || target !in f.plans then Rejected
        else if f.plans[target].completed.Some? && was != Linked(Salary, Some(target)) then Rejected
        else Linked(Salary, Some(target))
  }

  function WithReceipt(t: Transaction, r: Receipt): Transaction
    requires !r.Rejected?
  {
    match r
    case NoReceipt => t.(treatment := None, expected := None)
    case Linked(x, m) => t.(treatment := Some(x), expected := m)
  }

  /** Entries the server takes: a positive amount, and the accounts and categories each kind needs. */
  predicate Acceptable(f: Facts, t: Transaction)
  {
    t.amount > 0 &&
    match t.kind
    case Expense =>
      t.fromAccount && !t.toAccount && t.toCategory.None?
      && t.fromCategory.Some? && t.fromCategory.value in f.categories
    case Income =>
      t.toAccount && !t.fromAccount && t.fromCategory.None?
      && t.toCategory.Some? && Real(f.categories, t.toCategory.value)
      && (t.treatment == Some(Refund) ==> t.toCategory.value != UNALLOCATED)
    case Transfer => t.fromAccount && t.toAccount && t.fromCategory.None? && t.toCategory.None?
    case Reallocate =>
      !t.fromAccount && !t.toAccount && t.fromCategory.Some? && t.toCategory.Some?
      && t.fromCategory != t.toCategory
      && Real(f.categories, t.fromCategory.value) && Real(f.categories, t.toCategory.value)
    case Reconciliation => false
  }

  // ----- what each handler makes of the facts -----

  predicate OpenMonth(f: Facts, frozen: set<Month>, m: Month)
  {
    f.first <= m <= f.current && m !in frozen
  }

  /** The receipt an entry ends up with, given the one it had. */
  function Posted(f: Facts, t: Transaction, was: Receipt): Receipt
  {
    MatchReceipt(f, t.kind, t.month, t.treatment, t.expected, was)
  }

  predicate CanCreate(f: Facts, frozen: set<Month>, t: Transaction)
  {
    Acceptable(f, t) && OpenMonth(f, frozen, t.month) && Find(f.transactions, t.id).None?
    && !Posted(f, t, NoReceipt).Rejected?
  }

  function Created(f: Facts, t: Transaction): Facts
    requires !Posted(f, t, NoReceipt).Rejected?
  {
    f.(transactions := Insert(f.transactions, WithReceipt(t, Posted(f, t, NoReceipt))))
  }

  predicate CanEdit(f: Facts, frozen: set<Month>, t: Transaction)
  {
    match Find(f.transactions, t.id)
    case None => false
    case Some(was) =>
      !was.kind.Reconciliation? && was.month == t.month && OpenMonth(f, frozen, t.month)
      && Acceptable(f, t) && !Posted(f, t, ReceiptOf(was)).Rejected?
  }

  function Edited(f: Facts, was: Transaction, t: Transaction): Facts
    requires !Posted(f, t, ReceiptOf(was)).Rejected?
  {
    f.(transactions := Insert(Remove(f.transactions, t.id), WithReceipt(t, Posted(f, t, ReceiptOf(was)))))
  }

  predicate CanDelete(f: Facts, frozen: set<Month>, id: nat)
  {
    match Find(f.transactions, id)
    case None => false
    case Some(was) => !was.kind.Reconciliation? && OpenMonth(f, frozen, was.month)
  }

  function Deleted(f: Facts, id: nat): Facts
  {
    f.(transactions := Remove(f.transactions, id))
  }

  predicate CanReconcile(f: Facts, frozen: set<Month>, t: Transaction)
  {
    t.kind.Reconciliation? && t.fromCategory.None? && t.toCategory.None? && t.treatment.None? && t.expected.None?
    && OpenMonth(f, frozen, t.month) && Find(f.transactions, t.id).None?
  }

  predicate CanAllocate(f: Facts, changes: map<Category, int>, m: Month)
  {
    changes != map[] && m >= f.current && forall c :: c in changes ==> c in f.categories && changes[c] >= 0
  }

  function AllocatedFrom(f: Facts, changes: map<Category, int>, m: Month): Facts
  {
    f.(periods := PeriodsFrom(f.periods, changes, m))
  }

  function PeriodsFrom(ps: Periods, changes: map<Category, int>, m: Month): Periods
  {
    ps + map c | c in changes :: (c, m) := changes[c]
  }

  predicate CanExpect(f: Facts, e: Setting, m: Month)
  {
    m >= f.current && e.amount >= 0 && e.currency in ["EUR", "USD", "PHP"]
  }

  /** A new recurring expectation also replans the open, uncompleted months it covers. */
  function ExpectedFrom(f: Facts, frozen: set<Month>, e: Setting, m: Month, quote: Quote): Facts
  {
    var g := f.(expectations := f.expectations[m := e]);
    g.(plans := map k | k in f.plans ::
         if k >= m && f.plans[k].completed.None? && k !in frozen then NewPlan(g, k, quote) else f.plans[k])
  }

  /** Planned money still to come for a plan, as seen from the end of month `through`. */
  function Outstanding(f: Facts, plan: Month, through: Month): int
    requires f.cent > 0
  {
    if plan !in f.plans then 0
    else
      var p := f.plans[plan];
      if p.completed.Some? && p.completed.value <= through then 0
      else FundingPortion(f.cent, Positive(p.amount - Received(f.cent, p, Matched(f.transactions, plan, through))), p)
  }

  function TotalOutstanding(f: Facts, upto: int, through: Month): int
    requires f.cent > 0
    decreases upto - f.start
  {
    if upto < f.start then 0 else TotalOutstanding(f, upto - 1, through) + Outstanding(f, upto, through)
  }

  /** Transactions later than the day coverage looks at: today, or the end of an earlier month. */
  predicate IsLater(f: Facts, month: Month, t: Transaction)
  {
    t.month > month || (t.month == month == f.current && t.day > f.today)
  }

  function LaterCash(f: Facts, month: Month, ts: seq<Transaction>): int
  {
    if ts == [] then 0
    else
      var t := ts[|ts| - 1];
      LaterCash(f, month, ts[..|ts| - 1]) + if IsLater(f, month, t) then CashEffect(t) else 0
  }

  function AssignedOf(remaining: map<Category, int>, cs: seq<Category>): int
  {
    if cs == [] then 0
    else
      var c := cs[|cs| - 1];
      AssignedOf(remaining, cs[..|cs| - 1]) + if c in remaining then remaining[c] else 0
  }

  /** Actual cash against budgeted budgets, now and once expected income is in. */
  datatype Coverage = Coverage(actual: int, budgeted: int, unallocated: int, outstanding: int, gap: int, projected: int)

  function CoverageOf(f: Facts, cash: int, remaining: map<Category, int>, month: Month): Coverage
    requires f.cent > 0
  {
    var actual := cash - LaterCash(f, month, f.transactions);
    var budgeted := AssignedOf(remaining, f.categories);
    var outstanding := TotalOutstanding(f, month, month);
    Coverage(actual, budgeted, if UNALLOCATED in remaining then remaining[UNALLOCATED] else 0, outstanding,
             actual - budgeted, actual - budgeted + outstanding)
  }

  predicate CanComplete(f: Facts, plan: Month)
  {
    plan <= f.current && plan in f.plans && f.plans[plan].completed.None?
  }

  function Completed(f: Facts, plan: Month): Facts
    requires f.cent > 0 && plan in f.plans
  {
    f.(plans := f.plans[plan := f.plans[plan].(completed := Some(f.current), shortfall := Outstanding(f, plan, f.current))])
  }

  /** Only entries of closed months and of months before the budget are corrected; others are edited. */
  predicate OutOfReach(f: Facts, frozen: set<Month>, id: nat)
  {
    var t := Find(f.transactions, id);
    t.Some? && (t.value.month in frozen || t.value.month < f.first)
  }

  /** Category corrections apply to the current month, once per operation and category. */
  predicate CanCorrect(f: Facts, frozen: set<Month>, original: nat, operation: nat, items: seq<CorrectionItem>)
  {
    && OutOfReach(f, frozen, original)
    && (forall i :: i in items ==> i.operation == operation && i.month == f.current && i.delta != 0 && Real(f.categories, i.category))
    && (forall i, j :: 0 <= i < j < |items| ==> items[i].category != items[j].category)
    && (forall i :: i in f.corrections ==> i.operation != operation)
  }

  function Corrected(f: Facts, items: seq<CorrectionItem>): Facts
  {
    f.(corrections := f.corrections + items)
  }

  predicate CanRoll(f: Facts, month: Month, day: nat)
  {
    month > f.current || (month == f.current && day >= f.today)
  }

  function Rolled(f: Facts, month: Month, day: nat): Facts
  {
    f.(current := month, today := day)
  }

  // ----- how facts may change once months up to k are closed -----

  /** g has the same facts up to month k, and everything movements were made for. */
  ghost predicate Continues(f: Facts, g: Facts, k: int)
  {
    && g.cent == f.cent && g.first == f.first && g.start == f.start && g.current >= f.current
    && g.categories == f.categories
    && (k >= f.first ==> Through(g, k) == Through(f, k))
    && (forall i :: i in f.corrections ==> i in g.corrections)
    && (forall m :: m in f.plans ==> m in g.plans)
    && (forall m :: m in f.plans && f.plans[m].completed.Some? ==> g.plans[m].completed == f.plans[m].completed)
  }

  lemma ContinuesProper(f: Facts, g: Facts, k: int, rows: seq<Movement>)
    requires Continues(f, g, k) && AllProper(f, rows)
    ensures AllProper(g, rows)
  {
  }

  lemma MaterialisedContinues(f: Facts, g: Facts, k: int, quote: Quote)
    requires WellFormed(f) && k < f.current && Continues(f, g, k)
    ensures Continues(f, Materialised(g, quote), k)
  {
    var h := Materialised(g, quote);
    if k >= f.first {
      assert PlansThrough(h.plans, k) == PlansThrough(g.plans, k) by {
        assert forall m :: f.start <= m <= k ==> m in f.plans;
        assert Through(g, k).plans == Through(f, k).plans;
        assert forall m :: m in PlansThrough(g.plans, k) ==> m in g.plans;
      }
    }
  }

  // ----- every handler continues the facts -----

  lemma MaterialisedSame(f: Facts, quote: Quote)
    requires WellFormed(f)
    ensures Materialised(f, quote) == f
  {
    assert Materialised(f, quote).plans == f.plans;
  }

  lemma NewReceiptSound(f: Facts, t: Transaction, was: Receipt)
    requires Sound(f)
    requires was.Linked? && was.expected.Some? ==> f.start <= was.expected.value <= t.month
    requires !Posted(f, t, was).Rejected?
    ensures var u := WithReceipt(t, Posted(f, t, was));
            u.id == t.id && u.month == t.month && (u.expected.Some? ==> f.start <= u.expected.value <= u.month)
  {
  }

  lemma InsertSound(f: Facts, ts: seq<Transaction>, t: Transaction)
    requires SoundTransactions(ts, f.start, f.current) && !HasId(ts, t.id) && t.month <= f.current
    requires t.expected.Some? ==> f.start <= t.expected.value <= t.month
    ensures SoundTransactions(Insert(ts, t), f.start, f.current)
  {
    InsertOrdered(ts, t);
    InsertMembers(ts, t);
  }

  lemma RemoveSound(f: Facts, id: nat)
    requires Sound(f)
    ensures SoundTransactions(Remove(f.transactions, id), f.start, f.current)
    ensures !HasId(Remove(f.transactions, id), id)
  {
    RemoveOrdered(f.transactions, id);
    RemoveMembers(f.transactions, id);
  }

  lemma InsertContinues(f: Facts, t: Transaction, k: int)
    requires WellFormed(f) && k < t.month <= f.current && !HasId(f.transactions, t.id)
    requires t.expected.Some? ==> f.start <= t.expected.value <= t.month
    ensures var g := f.(transactions := Insert(f.transactions, t)); WellFormed(g) && Continues(f, g, k)
  {
    InsertSound(f, f.transactions, t);
    if k >= f.first {
      InsertThrough(f.transactions, t, k);
    }
  }

  lemma OneOfId(f: Facts, was: Transaction)
    requires Sound(f) && was in f.transactions
    ensures forall t :: t in f.transactions && t.id == was.id ==> t == was
  {
    forall t | t in f.transactions && t.id == was.id ensures t == was {
      var i :| 0 <= i < |f.transactions| && f.transactions[i] == t;
      var j :| 0 <= j < |f.transactions| && f.transactions[j] == was;
    }
  }

  lemma RemoveContinues(f: Facts, was: Transaction, k: int)
    requires WellFormed(f) && was in f.transactions && k < was.month
    ensures var g := Deleted(f, was.id); WellFormed(g) && Continues(f, g, k)
  {
    RemoveSound(f, was.id);
    OneOfId(f, was);
    if k >= f.first {
      RemoveThrough(f.transactions, was.id, k);
    }
  }

  lemma ContinuesThen(f: Facts, g: Facts, h: Facts, k: int)
    requires Continues(f, g, k) && Continues(g, h, k)
    ensures Continues(f, h, k)
  {
  }

  lemma EditContinues(f: Facts, was: Transaction, t: Transaction, k: int)
    requires WellFormed(f) && was in f.transactions && was.id == t.id && k < was.month == t.month <= f.current
    requires !Posted(f, t, ReceiptOf(was)).Rejected?
    ensures WellFormed(Edited(f, was, t)) && Continues(f, Edited(f, was, t), k)
  {
    var g := Deleted(f, was.id);
    RemoveContinues(f, was, k);
    RemoveSound(f, was.id);
    NewReceiptSound(f, t, ReceiptOf(was));
    var u := WithReceipt(t, Posted(f, t, ReceiptOf(was)));
    InsertContinues(g, u, k);
    ContinuesThen(f, g, g.(transactions := Insert(g.transactions, u)), k);
  }

  lemma {:induction false} MonthlyKept(ps: Periods, qs: Periods, c: Category, m: Month)
    requires forall p :: p in ps ==> p in qs
    requires Monthly(ps, c, m).Some?
    ensures Monthly(qs, c, m).Some?
  {
    if (c, m) !in ps && (c, m) !in qs {
      MonthlyKept(ps, qs, c, m - 1);
    }
  }

  lemma AllocateContinues(f: Facts, changes: map<Category, int>, m: Month, k: int)
    requires WellFormed(f) && k < f.current <= m
    ensures WellFormed(AllocatedFrom(f, changes, m)) && Continues(f, AllocatedFrom(f, changes, m), k)
  {
    var g := AllocatedFrom(f, changes, m);
    forall c | c in f.categories ensures Monthly(g.periods, c, f.first).Some? {
      MonthlyKept(f.periods, g.periods, c, f.first);
    }
    if k >= f.first {
      assert PeriodsThrough(g.periods, k) == PeriodsThrough(f.periods, k);
    }
  }

  lemma ExpectContinues(f: Facts, frozen: set<Month>, e: Setting, m: Month, quote: Quote, k: int)
    requires WellFormed(f) && k < f.current <= m
    ensures var g := ExpectedFrom(f, frozen, e, m, quote); WellFormed(g) && Continues(f, g, k)
  {
    var g := ExpectedFrom(f, frozen, e, m, quote);
    if k >= f.first {
      assert PlansThrough(g.plans, k) == PlansThrough(f.plans, k);
    }
  }

  lemma CompleteContinues(f: Facts, plan: Month, k: int)
    requires WellFormed(f) && k < f.current && CanComplete(f, plan)
    ensures WellFormed(Completed(f, plan)) && Continues(f, Completed(f, plan), k)
  {
    hide Outstanding;
    var g := Completed(f, plan);
    if k >= f.first {
      assert PlansThrough(g.plans, k) == PlansThrough(f.plans, k);
    }
  }

  lemma {:induction false} CorrectionsThroughAppend(cs: seq<CorrectionItem>, ds: seq<CorrectionItem>, k: Month)
    requires forall d :: d in ds ==> d.month > k
    ensures CorrectionsThrough(cs + ds, k) == CorrectionsThrough(cs, k)
  {
    if ds == [] {
      assert cs + ds == cs;
    } else {
      assert ds[|ds| - 1] in ds;
      assert (cs + ds)[..|cs + ds| - 1] == cs + ds[..|ds| - 1];
      CorrectionsThroughAppend(cs, ds[..|ds| - 1], k);
    }
  }

  lemma CorrectContinues(f: Facts, frozen: set<Month>, original: nat, operation: nat, items: seq<CorrectionItem>, k: int)
    requires WellFormed(f) && k < f.current && CanCorrect(f, frozen, original, operation, items)
    ensures WellFormed(Corrected(f, items)) && Continues(f, Corrected(f, items), k)
  {
    var g := Corrected(f, items);
    assert SoundCorrections(g.corrections, g.categories, g.current) by {
      forall i, j | 0 <= i < j < |g.corrections|
        ensures g.corrections[i].operation != g.corrections[j].operation || g.corrections[i].category != g.corrections[j].category
      {
        if i < |f.corrections| <= j {
          assert f.corrections[i] in f.corrections && g.corrections[j] in items;
        }
      }
    }
    if k >= f.first {
      CorrectionsThroughAppend(f.corrections, items, k);
    }
  }

  lemma RollContinues(f: Facts, month: Month, day: nat, k: int)
    requires WellFormed(f) && CanRoll(f, month, day)
    ensures Sound(Rolled(f, month, day)) && Continues(f, Rolled(f, month, day), k)
  {
  }
}
