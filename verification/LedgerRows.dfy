/** The append-only movement table of the budget plan ledger, as plain data.
    A movement belongs to a slot; the table is only ever read through sums. */
module LedgerRows {

  type Month = nat
  type Category = string

  /** The category that holds plan money not yet assigned. */
  const UNALLOCATED: Category := "budget-unallocated"

  datatype MovementKind =
    Funding | Allocation | Spending | Reallocation | Receipt | Correction | Settlement

  /** The source key of a movement: which fact the movement accounts for. */
  datatype SourceKey =
    | Expected(month: Month)
    | AllocationOf(month: Month, category: Category)
    | Allocations(month: Month)
    | OfTransaction(id: nat)
    | OfCorrection(operation: nat, category: Category)
    | Excess(month: Month)
    | Complete(month: Month)

  datatype Slot = Slot(month: Month, category: Category, kind: MovementKind, key: SourceKey)

  datatype Movement = Movement(slot: Slot, amount: int)

  /** What the table holds for one slot. */
  function Net(rows: seq<Movement>, s: Slot): int
  {
    if rows == [] then 0
    else Net(rows[..|rows| - 1], s) + if rows[|rows| - 1].slot == s then rows[|rows| - 1].amount else 0
  }

  /** Sum of the movements whose slot satisfies p. */
  ghost function SumIn(rows: seq<Movement>, p: Slot -> bool): int
  {
    if rows == [] then 0
    else SumIn(rows[..|rows| - 1], p) + if p(rows[|rows| - 1].slot) then rows[|rows| - 1].amount else 0
  }

  ghost function Without(rows: seq<Movement>, s: Slot): (r: seq<Movement>)
    ensures |r| <= |rows|
    ensures (exists i :: 0 <= i < |rows| && rows[i].slot == s) ==> |r| < |rows|
  {
    if rows == [] then []
    else
      var rest := Without(rows[..|rows| - 1], s);
      if rows[|rows| - 1].slot == s then rest else rest + [rows[|rows| - 1]]
  }

  lemma NetAppend(rows: seq<Movement>, r: Movement, s: Slot)
    ensures Net(rows + [r], s) == Net(rows, s) + if r.slot == s then r.amount else 0
  {
    assert (rows + [r])[..|rows|] == rows;
  }

  lemma NetSingle(r: Movement, s: Slot)
    ensures Net([r], s) == if r.slot == s then r.amount else 0
  {
    assert [r][..0] == [];
  }

  lemma SumAppend(rows: seq<Movement>, r: Movement, p: Slot -> bool)
    ensures SumIn(rows + [r], p) == SumIn(rows, p) + if p(r.slot) then r.amount else 0
  {
    assert (rows + [r])[..|rows|] == rows;
  }

  lemma {:induction false} NetConcat(a: seq<Movement>, b: seq<Movement>, s: Slot)
    ensures Net(a + b, s) == Net(a, s) + Net(b, s)
  {
    if b == [] {
      assert a + b == a;
    } else {
      var b' := b[..|b| - 1];
      assert (a + b)[..|a + b| - 1] == a + b';
      NetConcat(a, b', s);
    }
  }

  lemma {:induction false} SumConcat(a: seq<Movement>, b: seq<Movement>, p: Slot -> bool)
    ensures SumIn(a + b, p) == SumIn(a, p) + SumIn(b, p)
  {
    if b == [] {
      assert a + b == a;
    } else {
      var b' := b[..|b| - 1];
      assert (a + b)[..|a + b| - 1] == a + b';
      SumConcat(a, b', p);
    }
  }

  /** A slot no row mentions holds nothing. */
  lemma {:induction false} NetNone(rows: seq<Movement>, s: Slot)
    requires forall i :: 0 <= i < |rows| ==> rows[i].slot != s
    ensures Net(rows, s) == 0
  {
    if rows != [] {
      NetNone(rows[..|rows| - 1], s);
    }
  }

  lemma {:induction false} SumNone(rows: seq<Movement>, p: Slot -> bool)
    requires forall i :: 0 <= i < |rows| ==> !p(rows[i].slot)
    ensures SumIn(rows, p) == 0
  {
    if rows != [] {
      SumNone(rows[..|rows| - 1], p);
    }
  }

  lemma {:induction false} SumSame(rows: seq<Movement>, p: Slot -> bool, q: Slot -> bool)
    requires forall i :: 0 <= i < |rows| ==> p(rows[i].slot) == q(rows[i].slot)
    ensures SumIn(rows, p) == SumIn(rows, q)
  {
    if rows != [] {
      SumSame(rows[..|rows| - 1], p, q);
    }
  }

  lemma {:induction false} WithoutNet(rows: seq<Movement>, s: Slot, t: Slot)
    ensures Net(Without(rows, s), t) == if t == s then 0 else Net(rows, t)
  {
    if rows != [] {
      var front, last := rows[..|rows| - 1], rows[|rows| - 1];
      WithoutNet(front, s, t);
      NetAppend(Without(front, s), last, t);
    }
  }

  lemma {:induction false} WithoutSum(rows: seq<Movement>, s: Slot, p: Slot -> bool)
    ensures SumIn(rows, p) == SumIn(Without(rows, s), p) + if p(s) then Net(rows, s) else 0
  {
    if rows != [] {
      var front, last := rows[..|rows| - 1], rows[|rows| - 1];
      WithoutSum(front, s, p);
      SumAppend(Without(front, s), last, p);
    }
  }

  /** Two tables that agree slot by slot on p give the same sum over p, whatever
      rows, in whatever order, they are made of. */
  lemma {:induction false} SameNetsSameSum(a: seq<Movement>, b: seq<Movement>, p: Slot -> bool)
    requires forall s :: p(s) ==> Net(a, s) == Net(b, s)
    ensures SumIn(a, p) == SumIn(b, p)
    decreases |a| + |b|
  {
    if a != [] || b != [] {
      var s := if a != [] then a[0].slot else b[0].slot;
      var a', b' := Without(a, s), Without(b, s);
      forall t | p(t) ensures Net(a', t) == Net(b', t) {
        WithoutNet(a, s, t);
        WithoutNet(b, s, t);
      }
      SameNetsSameSum(a', b', p);
      WithoutSum(a, s, p);
      WithoutSum(b, s, p);
    }
  }

  // ----- reconciling a table with a target by appending differences -----

  /** after extends before by exactly the differences that make every slot in
      scope hold what target holds; slots out of scope are untouched. */
  ghost predicate Reconciles(before: seq<Movement>, after: seq<Movement>, scope: iset<Slot>, target: seq<Movement>)
  {
    && before <= after
    && (forall s :: s in scope ==> Net(after, s) == Net(target, s))
    && (forall s :: s !in scope ==> Net(after, s) == Net(before, s))
    && (forall i :: |before| <= i < |after| ==>
          && after[i].slot in scope
          && after[i].amount == Net(target, after[i].slot) - Net(before, after[i].slot)
          && after[i].amount != 0)
  }

  /** Appending what one slot lacks reconciles that slot. */
  lemma ReconcilesOne(before: seq<Movement>, s: Slot, wanted: int, target: seq<Movement>)
    requires wanted == Net(target, s) != Net(before, s)
    ensures Reconciles(before, before + [Movement(s, wanted - Net(before, s))], iset{s}, target)
  {
    var r := Movement(s, wanted - Net(before, s));
    var after := before + [r];
    forall t ensures Net(after, t) == if t == s then wanted else Net(before, t) {
      NetAppend(before, r, t);
    }
    assert after[|before|] == r;
  }

  /** Two passes over disjoint scopes are one pass over their union. */
  lemma ReconcilesThen(a: seq<Movement>, b: seq<Movement>, c: seq<Movement>,
                       p: iset<Slot>, q: iset<Slot>, target: seq<Movement>)
    requires Reconciles(a, b, p, target) && Reconciles(b, c, q, target)
    requires p !! q
    ensures Reconciles(a, c, p + q, target)
  {
    forall i | |a| <= i < |c|
      ensures c[i].slot in p + q && c[i].amount == Net(target, c[i].slot) - Net(a, c[i].slot) && c[i].amount != 0
    {
      if i < |b| {
        assert c[i] == b[i];
      }
    }
  }

  /** A pass may be read against another target that agrees with it on the scope,
      and over a wider scope on which nothing was left to do. */
  lemma ReconcilesWider(a: seq<Movement>, b: seq<Movement>, p: iset<Slot>, q: iset<Slot>,
                        t: seq<Movement>, u: seq<Movement>)
    requires Reconciles(a, b, p, t)
    requires p <= q
    requires forall s :: s in p ==> Net(t, s) == Net(u, s)
    requires forall s :: s in q && s !in p ==> Net(a, s) == Net(u, s)
    ensures Reconciles(a, b, q, u)
  {
  }

  lemma FirstAppended(before: seq<Movement>, after: seq<Movement>, scope: iset<Slot>, target: seq<Movement>)
    requires Reconciles(before, after, scope, target) && |before| < |after|
    ensures var s := after[|before|].slot; s in scope && Net(before, s) != Net(target, s)
  {
  }

  /** Reconciling a table that already holds the target appends nothing. */
  lemma ReconcilesAgain(before: seq<Movement>, after: seq<Movement>, scope: iset<Slot>, target: seq<Movement>)
    requires Reconciles(before, after, scope, target)
    requires forall s :: s in scope ==> Net(before, s) == Net(target, s)
    ensures after == before
  {
    if |before| < |after| {
      FirstAppended(before, after, scope, target);
    }
  }
}
