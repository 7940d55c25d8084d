/** What the ledger holds for the months up to k depends only on the facts dated
    up to k: the reason closed months can be skipped for good. */
module LedgerThrough {
  import opened LedgerRows
  import opened Rounding
  import opened LedgerFacts
  import opened LedgerEffects

  function TransactionsThrough(ts: seq<Transaction>, k: Month): seq<Transaction>
  {
    if ts == [] then []
    else
      var t := ts[|ts| - 1];
      TransactionsThrough(ts[..|ts| - 1], k) + if t.month <= k then [t] else []
  }

  function CorrectionsThrough(cs: seq<CorrectionItem>, k: Month): seq<CorrectionItem>
  {
    if cs == [] then []
    else
      var c := cs[|cs| - 1];
      CorrectionsThrough(cs[..|cs| - 1], k) + if c.month <= k then [c] else []
  }

  /** A plan as it stood at the end of month k. */
  function PlanThrough(p: Plan, k: Month): Plan
  {
    if p.completed.Some? && p.completed.value > k then p.(completed := None, shortfall := 0) else p
  }

  function PeriodsThrough(ps: Periods, k: Month): Periods
  {
    map p | p in ps && p.1 <= k :: ps[p]
  }

  function PlansThrough(plans: map<Month, Plan>, k: Month): map<Month, Plan>
  {
    map m | m in plans && m <= k :: PlanThrough(plans[m], k)
  }

  /** The facts dated up to month k. */
  function Through(f: Facts, k: Month): Facts
  {
    f.(current := k, today := 0, expectations := map[],
       periods := PeriodsThrough(f.periods, k),
       plans := PlansThrough(f.plans, k),
       transactions := TransactionsThrough(f.transactions, k),
       corrections := CorrectionsThrough(f.corrections, k))
  }

  // ----- filtering by month -----

  lemma {:induction false} TransactionsThroughAll(ts: seq<Transaction>, k: Month)
    requires forall t :: t in ts ==> t.month <= k
    ensures TransactionsThrough(ts, k) == ts
  {
    if ts != [] {
      assert ts[|ts| - 1] in ts;
      TransactionsThroughAll(ts[..|ts| - 1], k);
    }
  }

  /** Of transactions in date order, those up to k are a prefix. */
  lemma {:induction false} ThroughIsPrefix(ts: seq<Transaction>, k: Month) returns (n: nat)
    requires Ordered(ts)
    ensures n <= |ts| && TransactionsThrough(ts, k) == ts[..n]
    ensures forall t :: t in ts[..n] ==> t.month <= k
    ensures forall t :: t in ts[n..] ==> t.month > k
  {
    if ts == [] {
      n := 0;
    } else if ts[|ts| - 1].month <= k {
      forall t | t in ts ensures t.month <= k {
        var i :| 0 <= i < |ts| && ts[i] == t;
        if i < |ts| - 1 { assert Earlier(ts[i], ts[|ts| - 1]); }
      }
      TransactionsThroughAll(ts, k);
      n := |ts|;
      assert ts[..n] == ts;
    } else {
      n := ThroughIsPrefix(ts[..|ts| - 1], k);
      assert ts[..|ts| - 1][..n] == ts[..n];
      assert ts[n..] == ts[..|ts| - 1][n..] + [ts[|ts| - 1]];
    }
  }

  lemma {:induction false} TransactionsRowsThrough(cs: seq<Category>, m: Month, ts: seq<Transaction>, k: Month)
    requires m <= k
    ensures TransactionsRows(cs, m, TransactionsThrough(ts, k)) == TransactionsRows(cs, m, ts)
  {
    if ts != [] {
      var front, last := ts[..|ts| - 1], ts[|ts| - 1];
      TransactionsRowsThrough(cs, m, front, k);
      if last.month <= k {
        assert TransactionsThrough(ts, k)[..|TransactionsThrough(ts, k)| - 1] == TransactionsThrough(front, k);
      } else {
        assert TransactionsThrough(ts, k) == TransactionsThrough(front, k);
      }
    }
  }

  lemma {:induction false} CorrectionRowsThrough(m: Month, cs: seq<CorrectionItem>, k: Month)
    requires m <= k
    ensures CorrectionRows(m, CorrectionsThrough(cs, k)) == CorrectionRows(m, cs)
  {
    if cs != [] {
      var front, last := cs[..|cs| - 1], cs[|cs| - 1];
      CorrectionRowsThrough(m, front, k);
      if last.month <= k {
        assert CorrectionsThrough(cs, k)[..|CorrectionsThrough(cs, k)| - 1] == CorrectionsThrough(front, k);
      } else {
        assert CorrectionsThrough(cs, k) == CorrectionsThrough(front, k);
      }
    }
  }

  lemma {:induction false} MonthlyThrough(ps: Periods, c: Category, m: Month, k: Month)
    requires m <= k
    ensures Monthly(PeriodsThrough(ps, k), c, m) == Monthly(ps, c, m)
  {
    if (c, m) !in ps && m > 0 {
      MonthlyThrough(ps, c, m - 1, k);
    }
  }

  lemma {:induction false} AllocationRowsThrough(ps: Periods, m: Month, cs: seq<Category>, k: Month)
    requires m <= k
    ensures AllocationRows(PeriodsThrough(ps, k), m, cs) == AllocationRows(ps, m, cs)
    ensures TotalAllocated(PeriodsThrough(ps, k), m, cs) == TotalAllocated(ps, m, cs)
  {
    if cs != [] {
      AllocationRowsThrough(ps, m, cs[..|cs| - 1], k);
      MonthlyThrough(ps, cs[|cs| - 1], m, k);
    }
  }

  lemma MonthRowsThrough(f: Facts, m: Month, k: Month)
    requires m <= k
    ensures MonthRows(Through(f, k), m) == MonthRows(f, m)
  {
    AllocationRowsThrough(f.periods, m, f.categories, k);
    TransactionsRowsThrough(f.categories, m, f.transactions, k);
    CorrectionRowsThrough(m, f.corrections, k);
  }

  // ----- income -----

  lemma {:induction false} MatchedConcat(a: seq<Transaction>, b: seq<Transaction>, plan: Month, through: Month)
    ensures Matched(a + b, plan, through) == Matched(a, plan, through) + Matched(b, plan, through)
  {
    if b == [] {
      assert a + b == a;
    } else {
      var b' := b[..|b| - 1];
      assert (a + b)[..|a + b| - 1] == a + b';
      MatchedConcat(a, b', plan, through);
    }
  }

  lemma {:induction false} MatchedThrough(ts: seq<Transaction>, plan: Month, through: Month, k: Month)
    requires forall t :: t in ts ==> t.month <= k && t.month <= through
    ensures Matched(ts, plan, k) == Matched(ts, plan, through)
  {
    if ts != [] {
      assert ts[|ts| - 1] in ts;
      MatchedThrough(ts[..|ts| - 1], plan, through, k);
    }
  }

  /** Receipts after month k add nothing to the excess of months up to k. */
  lemma {:induction false} LaterReceipts(cent: nat, p: Plan, plan: Month, a: seq<Transaction>, b: seq<Transaction>, s: Slot)
    requires cent > 0
    requires forall t :: t in b ==> t.month != s.month
    ensures Net(ExcessRows(cent, p, plan, a + b), s) == Net(ExcessRows(cent, p, plan, a), s)
  {
    hide Proportional;
    if b == [] {
      assert a + b == a;
    } else {
      var b', t := b[..|b| - 1], b[|b| - 1];
      assert t in b;
      assert (a + b)[..|a + b| - 1] == a + b';
      LaterReceipts(cent, p, plan, a, b', s);
      var r := ExcessRows(cent, p, plan, a + b');
      if t.treatment != Some(Legacy) {
        NetAppend(r, Movement(ExcessSlot(plan, t.month), t.toEur - Covered(cent, p, Received(cent, p, a + b'), t)), s);
      } else {
        assert r + [] == r;
      }
    }
  }

  lemma ExcessThrough(f: Facts, plan: Month, k: Month, s: Slot)
    requires WellFormed(f) && plan in f.plans && plan <= k <= f.current && s.month <= k
    ensures var g := Through(f, k);
            Net(ExcessRows(f.cent, f.plans[plan], plan, Matched(g.transactions, plan, k)), s)
            == Net(ExcessRows(f.cent, f.plans[plan], plan, Matched(f.transactions, plan, f.current)), s)
  {
    hide Proportional, Net;
    var ts := f.transactions;
    var n := ThroughIsPrefix(ts, k);
    assert ts == ts[..n] + ts[n..];
    MatchedConcat(ts[..n], ts[n..], plan, f.current);
    MatchedShape(ts[n..], plan, f.current);
    MatchedThrough(ts[..n], plan, f.current, k);
    LaterReceipts(f.cent, f.plans[plan], plan, Matched(ts[..n], plan, f.current), Matched(ts[n..], plan, f.current), s);
  }

  /** The excess rows read only the amounts of the plan. */
  lemma {:induction false} ExcessRowsSame(cent: nat, p: Plan, q: Plan, plan: Month, rs: seq<Transaction>)
    requires cent > 0
    requires p.amount == q.amount && p.currency == q.currency && p.amountEur == q.amountEur
    ensures Received(cent, p, rs) == Received(cent, q, rs)
    ensures ExcessRows(cent, p, plan, rs) == ExcessRows(cent, q, plan, rs)
  {
    hide Proportional;
    if rs != [] {
      ExcessRowsSame(cent, p, q, plan, rs[..|rs| - 1]);
    }
  }

  lemma PlanRowsThrough(f: Facts, plan: Month, k: Month, s: Slot)
    requires WellFormed(f) && WellFormed(Through(f, k)) && plan in f.plans
    requires plan <= k <= f.current && s.month <= k && PlanOf(s.key) == plan
    ensures Net(PlanRows(Through(f, k), plan), s) == Net(PlanRows(f, plan), s)
  {
    hide Proportional, Net;
    var g := Through(f, k);
    NetPlan(f, plan, s);
    NetPlan(g, plan, s);
    if s.key.Excess? {
      ExcessThrough(f, plan, k, s);
      ExcessRowsSame(f.cent, f.plans[plan], g.plans[plan], plan, Matched(g.transactions, plan, k));
    }
  }

  // ----- the whole ledger -----

  lemma {:induction false} CorrectionsThroughShape(cs: seq<CorrectionItem>, k: Month)
    ensures forall c :: c in CorrectionsThrough(cs, k) ==> c in cs && c.month <= k
    ensures |CorrectionsThrough(cs, k)| <= |cs|
  {
    if cs != [] {
      CorrectionsThroughShape(cs[..|cs| - 1], k);
    }
  }

  lemma {:induction false} CorrectionsThroughDistinct(cs: seq<CorrectionItem>, k: Month)
    requires forall i, j :: 0 <= i < j < |cs| ==> cs[i].operation != cs[j].operation || cs[i].category != cs[j].category
    ensures var ds := CorrectionsThrough(cs, k);
            forall i, j :: 0 <= i < j < |ds| ==> ds[i].operation != ds[j].operation || ds[i].category != ds[j].category
  {
    if cs != [] {
      var front, last := cs[..|cs| - 1], cs[|cs| - 1];
      CorrectionsThroughDistinct(front, k);
      CorrectionsThroughShape(front, k);
      forall c | c in front ensures c.operation != last.operation || c.category != last.category {
        var i :| 0 <= i < |front| && front[i] == c;
        assert cs[i] == c;
      }
    }
  }

  lemma ThroughWellFormed(f: Facts, k: Month)
    requires WellFormed(f) && f.start <= k <= f.current
    ensures WellFormed(Through(f, k))
  {
    var g := Through(f, k);
    assert SoundCategories(g.categories, g.openings, g.periods, g.first) by {
      forall c | c in f.categories ensures Monthly(g.periods, c, f.first).Some? {
        MonthlyThrough(f.periods, c, f.first, k);
      }
    }
    assert SoundTransactions(g.transactions, g.start, g.current) by {
      var n := ThroughIsPrefix(f.transactions, k);
    }
    assert SoundCorrections(g.corrections, g.categories, g.current) by {
      CorrectionsThroughShape(f.corrections, k);
      CorrectionsThroughDistinct(f.corrections, k);
    }
  }

  /** Slots up to month k hold what the facts up to month k call for. */
  lemma EffectsThrough(f: Facts, k: Month, s: Slot)
    requires WellFormed(f) && f.start <= k <= f.current && s.month <= k
    ensures Net(Effects(Through(f, k)), s) == Net(Effects(f), s)
  {
    hide Proportional, MonthRows, Through;
    var g := Through(f, k);
    ThroughWellFormed(f, k);
    ThroughFields(f, k);
    NetEffects(f, s);
    NetEffects(g, s);
    if PlanKey(s.key) {
      var plan := PlanOf(s.key);
      if f.start <= plan <= k {
        PlanRowsThrough(f, plan, k, s);
      } else if f.start <= plan <= f.current {
        PlanRowsShape(f, plan);
        NetNone(PlanRows(f, plan), s);
      }
    } else if f.start <= s.month {
      MonthRowsThrough(f, s.month, k);
    }
  }

  lemma ThroughFields(f: Facts, k: Month)
    ensures var g := Through(f, k); g.start == f.start && g.current == k
  {
  }
}
