/** The edit distance behind description suggestions: insertions, deletions, replacements
    and exchanges of neighbours, no place edited twice. */
module EditDistance {

  function Min(x: nat, y: nat): nat { if x < y then x else y }

  function Unequal(c: char, d: char): nat { if c == d then 0 else 1 }

  predicate Exchanged(a: string, b: string)
  {
    |a| >= 2 && |b| >= 2 && a[|a| - 1] == b[|b| - 2] && a[|a| - 2] == b[|b| - 1]
  }

  /** The cheapest of inserting, deleting and replacing at the end. */
  function Cheapest(left: nat, above: nat, diagonal: nat, unequal: nat): nat
  {
    Min(Min(left + 1, above + 1), diagonal + unequal)
  }

  /** The distance by its recurrence. */
  function Distance(a: string, b: string): nat
    decreases |a| + |b|
  {
    if a == "" then |b|
    else if b == "" then |a|
    else
      var p, q := a[..|a| - 1], b[..|b| - 1];
      var d := Cheapest(Distance(a, q), Distance(p, b), Distance(p, q), Unequal(a[|a| - 1], b[|b| - 1]));
      if Exchanged(a, b) then Min(d, Distance(a[..|a| - 2], b[..|b| - 2]) + 1) else d
  }

  /** The row of distances of one prefix of a to every prefix of b. */
  ghost predicate Row(row: array<nat>, a: string, b: string)
    reads row
  {
    row.Length == |b| + 1 && forall j :: 0 <= j <= |b| ==> row[j] == Distance(a, b[..j])
  }

  lemma LastCell(a: string, b: string)
    requires a != "" && b != ""
    ensures var p, q := a[..|a| - 1], b[..|b| - 1];
            var d := Cheapest(Distance(a, q), Distance(p, b), Distance(p, q), Unequal(a[|a| - 1], b[|b| - 1]));
            Distance(a, b) == if Exchanged(a, b) then Min(d, Distance(a[..|a| - 2], b[..|b| - 2]) + 1) else d
  {
  }

  lemma CellIs(a: string, b: string, i: nat, j: nat)
    requires i < |a| && j < |b|
    ensures var d := Cheapest(Distance(a[..i + 1], b[..j]), Distance(a[..i], b[..j + 1]), Distance(a[..i], b[..j]), Unequal(a[i], b[j]));
            Distance(a[..i + 1], b[..j + 1]) ==
            if i > 0 && j > 0 && a[i] == b[j - 1] && a[i - 1] == b[j] then Min(d, Distance(a[..i - 1], b[..j - 1]) + 1) else d
  {
    hide Distance, Cheapest, Min, Unequal;
    var x, y := a[..i + 1], b[..j + 1];
    LastCell(x, y);
    assert x[..i] == a[..i] && y[..j] == b[..j];
    if i > 0 && j > 0 {
      assert x[..i - 1] == a[..i - 1] && y[..j - 1] == b[..j - 1];
    }
  }

  /** Three rolling rows. */
  method ComputeDistance(a: string, b: string) returns (d: nat)
    ensures d == Distance(a, b)
  {
    hide Distance, Min, Unequal;
    var previous := new nat[|b| + 1](i => i);
    var beforePrevious := previous;
    FirstRow(a, b);
    for i := 0 to |a|
      invariant Row(previous, a[..i], b)
      invariant i > 0 ==> Row(beforePrevious, a[..i - 1], b)
    {
      var current := new nat[|b| + 1];
      current[0] := i + 1;
      FirstColumn(a, b, i + 1);
      for j := 0 to |b|
        invariant forall k :: 0 <= k <= j ==> current[k] == Distance(a[..i + 1], b[..k])
        invariant Row(previous, a[..i], b)
        invariant i > 0 ==> Row(beforePrevious, a[..i - 1], b)
      {
        CellIs(a, b, i, j);
        current[j + 1] := Min(Min(current[j] + 1, previous[j + 1] + 1), previous[j] + Unequal(a[i], b[j]));
        if i > 0 && j > 0 && a[i] == b[j - 1] && a[i - 1] == b[j] {
          current[j + 1] := Min(current[j + 1], beforePrevious[j - 1] + 1);
        }
      }
      beforePrevious := previous;
      previous := current;
    }
    assert a[..|a|] == a && b[..|b|] == b;
    d := previous[|b|];
  }

  lemma FirstRow(a: string, b: string)
    ensures forall j :: 0 <= j <= |b| ==> Distance(a[..0], b[..j]) == j
  {
  }

  lemma FirstColumn(a: string, b: string, i: nat)
    requires i <= |a|
    ensures Distance(a[..i], b[..0]) == i
  {
  }

  // ----- edit scripts -----

  datatype Edit = Put(from: char, to: char) | Delete(from: char) | Insert(to: char) | Exchange(first: char, second: char)

  function Takes(e: Edit): string
  {
    match e
    case Put(from, _) => [from]
    case Delete(from) => [from]
    case Insert(_) => ""
    case Exchange(first, second) => [first, second]
  }

  function Gives(e: Edit): string
  {
    match e
    case Put(_, to) => [to]
    case Delete(_) => ""
    case Insert(to) => [to]
    case Exchange(first, second) => [second, first]
  }

  function Price(e: Edit): nat
  {
    match e case Put(from, to) => Unequal(from, to) case _ => 1
  }

  /** What a script edits. */
  function Source(script: seq<Edit>): string
  {
    if script == [] then "" else Source(script[..|script| - 1]) + Takes(script[|script| - 1])
  }

  /** What it makes of it. */
  function Target(script: seq<Edit>): string
  {
    if script == [] then "" else Target(script[..|script| - 1]) + Gives(script[|script| - 1])
  }

  function Cost(script: seq<Edit>): nat
  {
    if script == [] then 0 else Cost(script[..|script| - 1]) + Price(script[|script| - 1])
  }

  lemma DistanceStep(a: string, b: string, e: Edit)
    ensures Distance(a + Takes(e), b + Gives(e)) <= Distance(a, b) + Price(e)
  {
    var x, y := a + Takes(e), b + Gives(e);
    assert a + "" == a && b + "" == b;
    assert x[..|a|] == a && y[..|b|] == b;
  }

  /** No script is cheaper than the distance. */
  lemma {:induction false} NoCheaperScript(script: seq<Edit>)
    ensures Distance(Source(script), Target(script)) <= Cost(script)
  {
    hide Distance;
    if script == [] {
      EmptyDistance();
    } else {
      var front, last := script[..|script| - 1], script[|script| - 1];
      NoCheaperScript(front);
      DistanceStep(Source(front), Target(front), last);
    }
  }

  lemma EmptyDistance()
    ensures Distance("", "") == 0
  {
  }

  lemma Extended(script: seq<Edit>, e: Edit)
    ensures Source(script + [e]) == Source(script) + Takes(e)
    ensures Target(script + [e]) == Target(script) + Gives(e)
    ensures Cost(script + [e]) == Cost(script) + Price(e)
  {
  }

  ghost predicate Edits(script: seq<Edit>, a: string, b: string)
  {
    Source(script) == a && Target(script) == b
  }

  /** The last edit of a cheapest script. */
  lemma LastEdit(a: string, b: string) returns (p: string, q: string, e: Edit)
    requires a != "" || b != ""
    ensures |p| + |q| < |a| + |b| && p + Takes(e) == a && q + Gives(e) == b
    ensures Distance(a, b) == Distance(p, q) + Price(e)
  {
    hide Distance;
    p, q := a, b;
    if a == "" || b == "" {
      EmptySide(a, b);
      if a == "" {
        q, e := b[..|b| - 1], Insert(b[|b| - 1]);
      } else {
        p, e := a[..|a| - 1], Delete(a[|a| - 1]);
      }
      EmptySide(p, q);
    } else {
      LastCell(a, b);
      var x, y, d := a[..|a| - 1], b[..|b| - 1], Distance(a, b);
      if d == Distance(a, y) + 1 {
        q, e := y, Insert(b[|b| - 1]);
      } else if d == Distance(x, b) + 1 {
        p, e := x, Delete(a[|a| - 1]);
      } else if d == Distance(x, y) + Unequal(a[|a| - 1], b[|b| - 1]) {
        p, q, e := x, y, Put(a[|a| - 1], b[|b| - 1]);
      } else {
        p, q, e := a[..|a| - 2], b[..|b| - 2], Exchange(a[|a| - 2], a[|a| - 1]);
      }
    }
  }

  lemma EmptySide(a: string, b: string)
    requires a == "" || b == ""
    ensures Distance(a, b) == |a| + |b|
  {
  }

  /** Some script costs exactly the distance. */
  lemma {:induction false} BestScript(a: string, b: string) returns (script: seq<Edit>)
    ensures Edits(script, a, b) && Cost(script) == Distance(a, b)
    decreases |a| + |b|
  {
    if a == "" && b == "" {
      script := [];
    } else {
      hide Distance, Takes, Gives, Price, Source, Target, Cost;
      var p, q, e := LastEdit(a, b);
      var front := BestScript(p, q);
      Extended(front, e);
      script := front + [e];
    }
  }

  /** The distance is the least cost of a script that turns a into b. */
  lemma LeastCost(a: string, b: string, n: nat)
    ensures n == Distance(a, b) <==>
            (exists script :: Edits(script, a, b) && Cost(script) == n) && (forall script :: Edits(script, a, b) ==> n <= Cost(script))
  {
    hide Distance, Source, Target, Cost;
    var best := BestScript(a, b);
    forall script | Edits(script, a, b) ensures Distance(a, b) <= Cost(script) {
      NoCheaperScript(script);
    }
  }

  // ----- laws -----

  lemma {:induction false} Symmetric(a: string, b: string)
    ensures Distance(a, b) == Distance(b, a)
    decreases |a| + |b|
  {
    if a != "" && b != "" {
      var p, q := a[..|a| - 1], b[..|b| - 1];
      Symmetric(a, q);
      Symmetric(p, b);
      Symmetric(p, q);
      if Exchanged(a, b) {
        Symmetric(a[..|a| - 2], b[..|b| - 2]);
      }
    }
  }

  /** Only equal strings are at distance 0. */
  lemma {:induction false} ZeroOnlyForEqual(a: string, b: string)
    ensures Distance(a, b) == 0 <==> a == b
    decreases |a|
  {
    if a != "" && b != "" {
      var p, q := a[..|a| - 1], b[..|b| - 1];
      ZeroOnlyForEqual(p, q);
      assert a == p + [a[|a| - 1]] && b == q + [b[|b| - 1]];
    }
  }

  /** At least the difference of the lengths and at most the longer of them. */
  lemma {:induction false} DistanceBounds(a: string, b: string)
    ensures |a| - |b| <= Distance(a, b) && |b| - |a| <= Distance(a, b)
    ensures Distance(a, b) <= if |a| < |b| then |b| else |a|
    decreases |a| + |b|
  {
    if a != "" && b != "" {
      var p, q := a[..|a| - 1], b[..|b| - 1];
      DistanceBounds(a, q);
      DistanceBounds(p, b);
      DistanceBounds(p, q);
      if Exchanged(a, b) {
        DistanceBounds(a[..|a| - 2], b[..|b| - 2]);
      }
    }
  }
}
