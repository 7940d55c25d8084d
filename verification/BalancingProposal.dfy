/** The proposal that covers overspent categories from categories with money left. */
module BalancingProposal {

  datatype Option<+T> = None | Some(value: T)

  /** A budget category and what remains in it, if that is known. */
  datatype Budget = Budget(name: string, remainingEur: Option<real>)

  datatype Side = Side(name: string, cents: int)

  /** Cents from the donor at one position to the deficit at another. */
  datatype Move = Move(donor: nat, deficit: nat, cents: int)

  /** To the nearest cent, halves upward. */
  function Cents(eur: real): int { (eur * 100.0 + 0.5).Floor }

  function Donors(budgets: seq<Budget>): (r: seq<Side>)
    ensures forall k :: 0 <= k < |r| ==> r[k].cents >= 0
  {
    if budgets == [] then []
    else
      var b := budgets[|budgets| - 1];
      Donors(budgets[..|budgets| - 1])
      + if b.remainingEur.Some? && b.remainingEur.value > 0.0 then [Side(b.name, Cents(b.remainingEur.value))] else []
  }

  /** What overspent categories need, in cents. */
  function Deficits(budgets: seq<Budget>): (r: seq<Side>)
    ensures forall k :: 0 <= k < |r| ==> r[k].cents >= 0
  {
    if budgets == [] then []
    else
      var b := budgets[|budgets| - 1];
      Deficits(budgets[..|budgets| - 1])
      + if b.remainingEur.Some? && b.remainingEur.value < 0.0 then [Side(b.name, -Cents(b.remainingEur.value))] else []
  }

  /** Rounding to cents misses by half a cent at most, and halves go up. */
  lemma CentsNearest(eur: real)
    ensures -0.5 < Cents(eur) as real - eur * 100.0 <= 0.5
  {
  }

  predicate Counted(b: Budget, over: bool)
  {
    b.remainingEur.Some? && if over then b.remainingEur.value > 0.0 else b.remainingEur.value < 0.0
  }

  /** The sides are those of exactly the budgets over, or under, zero, at increasing
      positions, each with what remains or what is missing. */
  ghost predicate SidesOf(budgets: seq<Budget>, over: bool, at: seq<nat>, sides: seq<Side>)
  {
    && |sides| == |at|
    && (forall k, l :: 0 <= k < l < |at| ==> at[k] < at[l])
    && (forall k :: 0 <= k < |at| ==>
          && at[k] < |budgets| && Counted(budgets[at[k]], over)
          && sides[k] == Side(budgets[at[k]].name, (if over then 1 else -1) * Cents(budgets[at[k]].remainingEur.value)))
    && forall i :: 0 <= i < |budgets| && Counted(budgets[i], over) ==> i in at
  }

  lemma SidesOfMore(budgets: seq<Budget>, over: bool, at: seq<nat>, sides: seq<Side>)
    requires budgets != [] && SidesOf(budgets[..|budgets| - 1], over, at, sides)
    ensures var n := |budgets| - 1;
            var b := budgets[n];
            if Counted(b, over) then SidesOf(budgets, over, at + [n], sides + [Side(b.name, (if over then 1 else -1) * Cents(b.remainingEur.value))])
            else SidesOf(budgets, over, at, sides)
  {
    hide Cents, Counted;
    var n := |budgets| - 1;
    assert forall i :: 0 <= i < n ==> budgets[..n][i] == budgets[i];
  }

  /** The donors are the categories with money left, in their order. */
  lemma {:induction false} DonorsAre(budgets: seq<Budget>) returns (at: seq<nat>)
    ensures SidesOf(budgets, true, at, Donors(budgets))
  {
    hide Cents, SidesOf;
    at := [];
    if budgets == [] {
      NoSides(true);
    } else {
      at := DonorsAre(budgets[..|budgets| - 1]);
      SidesOfMore(budgets, true, at, Donors(budgets[..|budgets| - 1]));
      if Counted(budgets[|budgets| - 1], true) {
        at := at + [|budgets| - 1];
      } else {
        assert Donors(budgets) == Donors(budgets[..|budgets| - 1]);
      }
    }
  }

  /** The deficits are the overspent categories, in their order. */
  lemma {:induction false} DeficitsAre(budgets: seq<Budget>) returns (at: seq<nat>)
    ensures SidesOf(budgets, false, at, Deficits(budgets))
  {
    hide Cents, SidesOf;
    at := [];
    if budgets == [] {
      NoSides(false);
    } else {
      at := DeficitsAre(budgets[..|budgets| - 1]);
      SidesOfMore(budgets, false, at, Deficits(budgets[..|budgets| - 1]));
      if Counted(budgets[|budgets| - 1], false) {
        at := at + [|budgets| - 1];
      } else {
        assert Deficits(budgets) == Deficits(budgets[..|budgets| - 1]);
      }
    }
  }

  lemma NoSides(over: bool)
    ensures SidesOf([], over, [], [])
  {
  }

  // ----- largest first -----

  predicate LargestFirst(s: seq<Side>)
  {
    forall i, j :: 0 <= i < j < |s| ==> s[i].cents >= s[j].cents
  }

  function InsertSide(s: seq<Side>, x: Side): seq<Side>
  {
    if s == [] || s[|s| - 1].cents >= x.cents then s + [x] else InsertSide(s[..|s| - 1], x) + [s[|s| - 1]]
  }

  /** A stable sort, largest first. */
  function Sorted(s: seq<Side>): seq<Side>
  {
    if s == [] then [] else InsertSide(Sorted(s[..|s| - 1]), s[|s| - 1])
  }

  lemma {:induction false} InsertedOnce(s: seq<Side>, x: Side)
    ensures multiset(InsertSide(s, x)) == multiset(s) + multiset{x}
  {
    if s != [] && s[|s| - 1].cents < x.cents {
      InsertedOnce(s[..|s| - 1], x);
      assert s == s[..|s| - 1] + [s[|s| - 1]];
    }
  }

  lemma {:induction false} InsertedInOrder(s: seq<Side>, x: Side)
    requires LargestFirst(s)
    ensures LargestFirst(InsertSide(s, x)) && |InsertSide(s, x)| == |s| + 1
    ensures forall y :: y in InsertSide(s, x) ==> y in s || y == x
  {
    if s != [] && s[|s| - 1].cents < x.cents {
      var front := InsertSide(s[..|s| - 1], x);
      InsertedInOrder(s[..|s| - 1], x);
      forall i | 0 <= i < |front| ensures front[i].cents >= s[|s| - 1].cents {
        assert front[i] in front;
      }
    }
  }

  /** Sorting loses no donor and puts larger ones first. */
  lemma {:induction false} SortedInOrder(s: seq<Side>)
    ensures LargestFirst(Sorted(s)) && multiset(Sorted(s)) == multiset(s) && |Sorted(s)| == |s|
  {
    if s != [] {
      SortedInOrder(s[..|s| - 1]);
      InsertedInOrder(Sorted(s[..|s| - 1]), s[|s| - 1]);
      InsertedOnce(Sorted(s[..|s| - 1]), s[|s| - 1]);
      assert s == s[..|s| - 1] + [s[|s| - 1]];
    }
  }

  /** Those of one size, in their order. */
  function OfSize(s: seq<Side>, cents: int): seq<Side>
  {
    if s == [] then [] else OfSize(s[..|s| - 1], cents) + if s[|s| - 1].cents == cents then [s[|s| - 1]] else []
  }

  lemma OfSizeAppend(s: seq<Side>, x: Side, cents: int)
    ensures OfSize(s + [x], cents) == OfSize(s, cents) + if x.cents == cents then [x] else []
  {
    assert (s + [x])[..|s|] == s;
  }

  lemma {:induction false} InsertedLast(s: seq<Side>, x: Side, cents: int)
    ensures OfSize(InsertSide(s, x), cents) == OfSize(s + [x], cents)
  {
    hide OfSize;
    if s != [] && s[|s| - 1].cents < x.cents {
      var front, last := s[..|s| - 1], s[|s| - 1];
      InsertedLast(front, x, cents);
      assert s == front + [last];
      OfSizeAppend(InsertSide(front, x), last, cents);
      OfSizeAppend(front, x, cents);
      OfSizeAppend(front, last, cents);
      OfSizeAppend(s, x, cents);
    }
  }

  /** Categories with equal amounts keep their order. */
  lemma {:induction false} SortedStable(s: seq<Side>, cents: int)
    ensures OfSize(Sorted(s), cents) == OfSize(s, cents)
  {
    hide OfSize;
    if s != [] {
      var front, last := s[..|s| - 1], s[|s| - 1];
      assert s == front + [last];
      SortedStable(front, cents);
      InsertedLast(Sorted(front), last, cents);
      OfSizeAppend(Sorted(front), last, cents);
      OfSizeAppend(front, last, cents);
    }
  }

  // ----- sums -----

  function Total(s: seq<Side>): int
  {
    if s == [] then 0 else Total(s[..|s| - 1]) + s[|s| - 1].cents
  }

  function Sum(s: seq<int>): int
  {
    if s == [] then 0 else Sum(s[..|s| - 1]) + s[|s| - 1]
  }

  function Moved(moves: seq<Move>): int
  {
    if moves == [] then 0 else Moved(moves[..|moves| - 1]) + moves[|moves| - 1].cents
  }

  function Given(moves: seq<Move>, donor: nat): int
  {
    if moves == [] then 0
    else Given(moves[..|moves| - 1], donor) + if moves[|moves| - 1].donor == donor then moves[|moves| - 1].cents else 0
  }

  function Received(moves: seq<Move>, deficit: nat): int
  {
    if moves == [] then 0
    else Received(moves[..|moves| - 1], deficit) + if moves[|moves| - 1].deficit == deficit then moves[|moves| - 1].cents else 0
  }

  /** Donors that had money and have none left. */
  function Emptied(donors: seq<Side>, left: seq<int>): nat
    requires |donors| == |left|
    ensures Emptied(donors, left) <= |donors|
  {
    if left == [] then 0
    else Emptied(donors[..|donors| - 1], left[..|left| - 1])
         + if left[|left| - 1] == 0 && donors[|donors| - 1].cents > 0 then 1 else 0
  }

  lemma AddMove(moves: seq<Move>, m: Move)
    ensures Moved(moves + [m]) == Moved(moves) + m.cents
    ensures forall k: nat :: Given(moves + [m], k) == Given(moves, k) + if k == m.donor then m.cents else 0
    ensures forall k: nat :: Received(moves + [m], k) == Received(moves, k) + if k == m.deficit then m.cents else 0
  {
  }

  lemma {:induction false} SumUpdate(s: seq<int>, k: nat, x: int)
    requires k < |s|
    ensures Sum(s[k := x]) == Sum(s) - s[k] + x
  {
    var t := s[k := x];
    if k == |s| - 1 {
      assert t[..k] == s[..k];
    } else {
      SumUpdate(s[..|s| - 1], k, x);
      assert t[..|s| - 1] == s[..|s| - 1][k := x];
    }
  }

  lemma {:induction false} EmptiedUpdate(donors: seq<Side>, left: seq<int>, k: nat, x: int)
    requires |donors| == |left| && k < |left| && left[k] > 0 && donors[k].cents > 0
    ensures Emptied(donors, left[k := x]) == Emptied(donors, left) + if x == 0 then 1 else 0
  {
    var t, n := left[k := x], |left| - 1;
    if k == n {
      assert t[..k] == left[..k];
    } else {
      EmptiedUpdate(donors[..n], left[..n], k, x);
      assert t[..n] == left[..n][k := x];
    }
  }

  lemma {:induction false} TotalIsSum(s: seq<Side>, t: seq<int>)
    requires |s| == |t| && forall k :: 0 <= k < |s| ==> t[k] == s[k].cents
    ensures Total(s) == Sum(t)
  {
    if s != [] {
      TotalIsSum(s[..|s| - 1], t[..|t| - 1]);
    }
  }

  lemma {:induction false} SumNone(s: seq<int>)
    requires forall k :: 0 <= k < |s| ==> s[k] == 0
    ensures Sum(s) == 0
  {
    if s != [] {
      SumNone(s[..|s| - 1]);
    }
  }

  lemma {:induction false} SumNotNegative(s: seq<int>)
    requires forall k :: 0 <= k < |s| ==> s[k] >= 0
    ensures Sum(s) >= 0
  {
    if s != [] {
      SumNotNegative(s[..|s| - 1]);
    }
  }

  // ----- the proposal -----

  /** Moves that leave no donor below zero and lift no deficit above it. */
  ghost predicate Allowed(moves: seq<Move>, donors: seq<Side>, deficits: seq<Side>)
  {
    && (forall i :: 0 <= i < |moves| ==> moves[i].donor < |donors| && moves[i].deficit < |deficits| && moves[i].cents > 0)
    && (forall k: nat :: k < |donors| ==> Given(moves, k) <= donors[k].cents)
    && (forall k: nat :: k < |deficits| ==> Received(moves, k) <= deficits[k].cents)
  }

  /** Donors are used up largest first, deficits covered in their order. */
  ghost predicate Greedy(moves: seq<Move>, donors: seq<Side>, deficits: seq<Side>)
  {
    && (forall i: nat, k: nat :: i < k < |donors| && Given(moves, k) > 0 ==> Given(moves, i) == donors[i].cents)
    && (forall i: nat, k: nat :: i < k < |deficits| && Received(moves, k) > 0 ==> Received(moves, i) == deficits[i].cents)
  }

  /** What is left in each donor after the moves; a donor is touched only once all
      larger ones are empty. */
  ghost predicate Funds(donors: seq<Side>, left: seq<int>, moves: seq<Move>)
  {
    && |left| == |donors|
    && (forall k :: 0 <= k < |donors| ==> 0 <= left[k] <= donors[k].cents && left[k] == donors[k].cents - Given(moves, k))
    && (forall i, k :: 0 <= i < k < |donors| && left[i] > 0 ==> left[k] == donors[k].cents)
  }

  /** One donor gives what it can towards what is still needed. */
  lemma FundsMove(donors: seq<Side>, left: seq<int>, moves: seq<Move>, m: Move)
    requires Funds(donors, left, moves) && m.donor < |donors| && 0 < m.cents <= left[m.donor]
    requires forall i :: 0 <= i < m.donor ==> left[i] == 0
    ensures var after := left[m.donor := left[m.donor] - m.cents];
            && Funds(donors, after, moves + [m])
            && Sum(after) == Sum(left) - m.cents
            && Emptied(donors, after) == Emptied(donors, left) + if m.cents == left[m.donor] then 1 else 0
  {
    hide Given;
    AddMove(moves, m);
    SumUpdate(left, m.donor, left[m.donor] - m.cents);
    GivenNotNegative(donors, left, moves, m.donor);
    EmptiedUpdate(donors, left, m.donor, left[m.donor] - m.cents);
  }

  lemma GivenNotNegative(donors: seq<Side>, left: seq<int>, moves: seq<Move>, k: nat)
    requires Funds(donors, left, moves) && k < |donors| && left[k] > 0 && forall i :: 0 <= i < k ==> left[i] == 0
    ensures donors[k].cents > 0
  {
  }

  /** Lets each donor in turn cover one deficit. */
  method Cover(donors: seq<Side>, left: array<int>, before: seq<Move>, d: nat, wanted: int) returns (moves: seq<Move>, need: int)
    requires Funds(donors, left[..], before) && wanted >= 0
    modifies left
    ensures Funds(donors, left[..], moves)
    ensures 0 <= need <= wanted && Moved(moves) == Moved(before) + wanted - need
    ensures Moved(moves) + Sum(left[..]) == Moved(before) + Sum(old(left[..]))
    ensures forall k: nat :: Received(moves, k) == Received(before, k) + if k == d then wanted - need else 0
    ensures forall i :: 0 <= i < |moves| ==> moves[i] in before || (moves[i].donor < |donors| && moves[i].deficit == d && moves[i].cents > 0)
    ensures need > 0 ==> forall k :: 0 <= k < |donors| ==> left[k] == 0
    ensures (forall k :: 0 <= k < |donors| ==> old(left[k]) == 0) ==> need == wanted && left[..] == old(left[..])
    ensures |moves| - Emptied(donors, left[..]) <= |before| - Emptied(donors, old(left[..])) + 1
  {
    hide Given, Received, Emptied, Sum, Moved, Funds;
    moves, need := before, wanted;
    FundsLength(donors, left[..], before);
    for k := 0 to |donors|
      invariant Funds(donors, left[..], moves)
      invariant 0 <= need <= wanted && Moved(moves) == Moved(before) + wanted - need
      invariant Moved(moves) + Sum(left[..]) == Moved(before) + Sum(old(left[..]))
      invariant forall n: nat :: Received(moves, n) == Received(before, n) + if n == d then wanted - need else 0
      invariant forall i :: 0 <= i < |moves| ==> moves[i] in before || (moves[i].donor < |donors| && moves[i].deficit == d && moves[i].cents > 0)
      invariant need > 0 ==> forall i :: 0 <= i < k ==> left[i] == 0
      invariant (forall i :: 0 <= i < |donors| ==> old(left[i]) == 0) ==> need == wanted && left[..] == old(left[..])
      invariant |moves| - Emptied(donors, left[..]) <= |before| - Emptied(donors, old(left[..])) + if need == 0 then 1 else 0
    {
      FundsLength(donors, left[..], moves);
      var cents := if need < left[k] then need else left[k];
      if cents > 0 {
        var m := Move(k, d, cents);
        FundsMove(donors, left[..], moves, m);
        AddMove(moves, m);
        assert left[..][k := left[k] - cents] == left[..k] + [left[k] - cents] + left[k + 1..];
        ghost var now := left[..];
        left[k] := left[k] - cents;
        assert left[..] == now[k := now[k] - cents];
        moves := moves + [m];
      }
      need := need - cents;
    }
  }

  lemma FundsLength(donors: seq<Side>, left: seq<int>, moves: seq<Move>)
    requires Funds(donors, left, moves)
    ensures |left| == |donors| && forall k :: 0 <= k < |left| ==> left[k] >= 0
  {
  }

  method Propose(budgets: seq<Budget>) returns (donors: seq<Side>, deficits: seq<Side>, moves: seq<Move>, uncovered: int)
    ensures LargestFirst(donors) && multiset(donors) == multiset(Donors(budgets)) && deficits == Deficits(budgets)
    ensures Allowed(moves, donors, deficits) && Greedy(moves, donors, deficits)
    ensures Moved(moves) + uncovered == Total(deficits)
    ensures uncovered == if Total(deficits) > Total(donors) then Total(deficits) - Total(donors) else 0
    ensures |moves| <= |donors| + |deficits|
  {
    hide Given, Received, Emptied, Sum, Moved, Funds, Total, Sorted, Donors, Deficits;
    donors := Sorted(Donors(budgets));
    SortedInOrder(Donors(budgets));
    deficits := Deficits(budgets);
    moves, uncovered := [], 0;
    var left := new int[|donors|](k requires 0 <= k < |donors| => donors[k].cents);
    Untouched(budgets, donors, left[..]);
    assert deficits[..0] == [];
    for d := 0 to |deficits|
      invariant Funds(donors, left[..], moves)
      invariant forall i :: 0 <= i < |moves| ==> moves[i].donor < |donors| && moves[i].deficit < d && moves[i].cents > 0
      invariant forall k: nat :: if k < d then 0 <= Received(moves, k) <= deficits[k].cents else Received(moves, k) == 0
      invariant forall i: nat, k: nat :: i < k < d && Received(moves, k) > 0 ==> Received(moves, i) == deficits[i].cents
      invariant uncovered >= 0 && (uncovered > 0 ==> forall k :: 0 <= k < |donors| ==> left[k] == 0)
      invariant uncovered == 0 ==> forall k: nat :: k < d ==> Received(moves, k) == deficits[k].cents
      invariant Moved(moves) + Sum(left[..]) == Total(donors) && Moved(moves) + uncovered == Total(deficits[..d])
      invariant |moves| <= Emptied(donors, left[..]) + d
    {
      var after, need := Cover(donors, left, moves, d, deficits[d].cents);
      moves := after;
      uncovered := uncovered + need;
      TotalNext(deficits, d);
    }
    assert deficits[..|deficits|] == deficits;
    Finished(donors, left[..], moves);
    if uncovered > 0 {
      SumNone(left[..]);
    } else {
      SumNotNegative(left[..]);
    }
  }

  lemma TotalNext(s: seq<Side>, d: nat)
    requires d < |s|
    ensures Total(s[..d + 1]) == Total(s[..d]) + s[d].cents
  {
    assert s[..d + 1][..d] == s[..d];
  }

  lemma Untouched(budgets: seq<Budget>, donors: seq<Side>, left: seq<int>)
    requires multiset(donors) == multiset(Donors(budgets)) && |left| == |donors|
    requires forall k :: 0 <= k < |donors| ==> left[k] == donors[k].cents
    ensures Funds(donors, left, []) && Sum(left) == Total(donors) && Emptied(donors, left) == 0
    ensures Moved([]) == 0 && Total([]) == 0 && forall k: nat :: Received([], k) == 0
  {
    forall k | 0 <= k < |donors| ensures donors[k].cents >= 0 {
      assert donors[k] in multiset(Donors(budgets));
    }
    TotalIsSum(donors, left);
    NoneEmptied(donors, left);
  }

  lemma {:induction false} NoneEmptied(donors: seq<Side>, left: seq<int>)
    requires |left| == |donors| && forall k :: 0 <= k < |donors| ==> left[k] == donors[k].cents
    ensures Emptied(donors, left) == 0
  {
    if donors != [] {
      NoneEmptied(donors[..|donors| - 1], left[..|left| - 1]);
    }
  }

  /** What the amounts left in the donors say about the moves. */
  lemma Finished(donors: seq<Side>, left: seq<int>, moves: seq<Move>)
    requires Funds(donors, left, moves)
    ensures |left| == |donors| && forall k :: 0 <= k < |left| ==> left[k] >= 0
    ensures forall k: nat :: k < |donors| ==> Given(moves, k) <= donors[k].cents
    ensures forall i: nat, k: nat :: i < k < |donors| && Given(moves, k) > 0 ==> Given(moves, i) == donors[i].cents
    ensures Emptied(donors, left) <= |donors|
  {
  }

  // ----- no proposal covers more -----

  lemma {:induction false} MovedByDonor(moves: seq<Move>, n: nat) returns (given: seq<int>)
    requires forall i :: 0 <= i < |moves| ==> moves[i].donor < n
    ensures |given| == n && (forall k :: 0 <= k < n ==> given[k] == Given(moves, k)) && Sum(given) == Moved(moves)
  {
    if moves == [] {
      given := seq(n, _ => 0);
      SumNone(given);
    } else {
      var last := moves[|moves| - 1];
      given := MovedByDonor(moves[..|moves| - 1], n);
      SumUpdate(given, last.donor, given[last.donor] + last.cents);
      given := given[last.donor := given[last.donor] + last.cents];
    }
  }

  lemma {:induction false} MovedByDeficit(moves: seq<Move>, n: nat) returns (received: seq<int>)
    requires forall i :: 0 <= i < |moves| ==> moves[i].deficit < n
    ensures |received| == n && (forall k :: 0 <= k < n ==> received[k] == Received(moves, k)) && Sum(received) == Moved(moves)
  {
    if moves == [] {
      received := seq(n, _ => 0);
      SumNone(received);
    } else {
      var last := moves[|moves| - 1];
      received := MovedByDeficit(moves[..|moves| - 1], n);
      SumUpdate(received, last.deficit, received[last.deficit] + last.cents);
      received := received[last.deficit := received[last.deficit] + last.cents];
    }
  }

  lemma {:induction false} SumAtMost(s: seq<int>, t: seq<Side>)
    requires |s| == |t| && forall k :: 0 <= k < |s| ==> s[k] <= t[k].cents
    ensures Sum(s) <= Total(t)
  {
    if s != [] {
      SumAtMost(s[..|s| - 1], t[..|t| - 1]);
    }
  }

  /** Whatever is moved within the limits, at least the proposal's uncovered need stays. */
  lemma NothingCoversMore(donors: seq<Side>, deficits: seq<Side>, moves: seq<Move>)
    requires Allowed(moves, donors, deficits)
    ensures Total(deficits) - Moved(moves) >= if Total(deficits) > Total(donors) then Total(deficits) - Total(donors) else 0
  {
    hide Given, Received, Total, Sum, Moved;
    var given := MovedByDonor(moves, |donors|);
    SumAtMost(given, donors);
    var received := MovedByDeficit(moves, |deficits|);
    SumAtMost(received, deficits);
  }
}
