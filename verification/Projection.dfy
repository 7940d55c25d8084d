/** What one transaction changes: account balances, category spending and reallocations,
    kept as decimal text. */
module Projection {
  import Numerals
  import opened Decimals

  datatype Effect = Effect(
    fromAccount: Option<string>, toAccount: Option<string>, fromCategory: Option<string>, toCategory: Option<string>,
    kind: string, amount: string, fromNative: string, fromEur: string, toNative: string, toEur: string)

  type Deltas = map<string, string>

  datatype Projected = Projected(accounts: Deltas, expenses: Deltas, impacts: Deltas)

  /** Every total is text that can be read. */
  ghost predicate Readable(m: Deltas)
  {
    forall k :: k in m ==> Parse(m[k]).Some?
  }

  ghost function Amount(m: Deltas, key: string): real
    requires Readable(m)
  {
    if key in m then Value(Parse(m[key]).value) else 0.0
  }

  ghost function Worth(text: string): real
  {
    match Parse(text) case None => 0.0 case Some(d) => Value(d)
  }

  /** Adds to one total; a total that cannot be read counts as zero. */
  method AddDelta(m: Deltas, key: string, delta: Decimal) returns (r: Deltas)
    requires Readable(m) && Normal(delta) && delta.scale <= MAX_SCALE
    ensures Readable(r) && r.Keys == m.Keys + {key}
    ensures Amount(r, key) == Amount(m, key) + Value(delta)
    ensures forall k :: k in m && k != key ==> r[k] == m[k]
  {
    hide Parse, Format, Value, Add;
    ZeroText();
    var current := if key in m then Parse(m[key]) else None;
    var base := if current.Some? then current.value else Decimal(0, 0);
    AddValue(base, delta);
    ParseFormat(Add(base, delta));
    r := m[key := Format(Add(base, delta))];
  }

  /** Adds to the total of a side that the transaction has. */
  method AddSide(m: Deltas, side: Option<string>, amount: string, negate: bool) returns (r: Option<Deltas>)
    requires Readable(m)
    ensures r.None? <==> side.Some? && Parse(amount).None?
    ensures r.Some? ==> Readable(r.value) && r.value.Keys == m.Keys + Key(side)
    ensures r.Some? ==> forall k :: Amount(r.value, k) == Amount(m, k) + Share(side, k, if negate then -Worth(amount) else Worth(amount))
  {
    hide Parse, Value;
    if side.None? {
      return Some(m);
    }
    var d := Parse(amount);
    if d.None? {
      return None;
    }
    NegatedValue(d.value);
    var next := AddDelta(m, side.value, if negate then Negated(d.value) else d.value);
    r := Some(next);
  }

  function Key(side: Option<string>): set<string> { if side.Some? then {side.value} else {} }

  function Share(side: Option<string>, key: string, amount: real): real { if side == Some(key) then amount else 0.0 }

  /** What a transaction is known to do once it could be read. */
  ghost predicate Does(e: Effect, p: Projected)
  {
    && Readable(p.accounts) && Readable(p.expenses) && Readable(p.impacts)
    && p.accounts.Keys == Key(e.fromAccount) + Key(e.toAccount)
    && p.expenses.Keys == Key(e.fromCategory) + Key(e.toCategory)
    && p.impacts.Keys == (if e.kind == "reallocate" then Key(e.fromCategory) + Key(e.toCategory) else {})
    && (forall k :: Amount(p.accounts, k) == Share(e.toAccount, k, Worth(e.toNative)) - Share(e.fromAccount, k, Worth(e.fromNative)))
    && (forall k :: Amount(p.expenses, k) == Share(e.fromCategory, k, Worth(e.fromEur)) - Share(e.toCategory, k, Worth(e.toEur)))
    && (e.kind == "reallocate" ==>
          forall k :: Amount(p.impacts, k) == Share(e.fromCategory, k, Magnitude(e.amount)) - Share(e.toCategory, k, Magnitude(e.amount)))
  }

  ghost function Magnitude(text: string): real
  {
    if Worth(text) < 0.0 then -Worth(text) else Worth(text)
  }

  /** Both sides of a transaction, with opposite signs. */
  method ProjectSides(plus: Option<string>, plusText: string, minus: Option<string>, minusText: string, minusFirst: bool) returns (r: Option<Deltas>)
    ensures r.None? <==> (plus.Some? && Parse(plusText).None?) || (minus.Some? && Parse(minusText).None?)
    ensures r.Some? ==> Readable(r.value) && r.value.Keys == Key(plus) + Key(minus)
    ensures r.Some? ==> forall k :: Amount(r.value, k) == Share(plus, k, Worth(plusText)) - Share(minus, k, Worth(minusText))
  {
    hide Parse, Value, Worth;
    var first := if minusFirst then minus else plus;
    var one := AddSide(map[], first, if minusFirst then minusText else plusText, minusFirst);
    if one.None? {
      return None;
    }
    r := AddSide(one.value, if minusFirst then plus else minus, if minusFirst then plusText else minusText, !minusFirst);
  }

  method ProjectTransaction(e: Effect) returns (r: Option<Projected>)
    ensures r.Some? ==> Does(e, r.value)
    ensures r.None? <==>
              || (e.fromAccount.Some? && Parse(e.fromNative).None?) || (e.toAccount.Some? && Parse(e.toNative).None?)
              || (e.fromCategory.Some? && Parse(e.fromEur).None?) || (e.toCategory.Some? && Parse(e.toEur).None?)
              || (e.kind == "reallocate" && Parse(e.amount).None?)
  {
    hide Parse, Value, Worth, Magnitude, Amount, Readable, Share;
    var accounts := ProjectSides(e.toAccount, e.toNative, e.fromAccount, e.fromNative, true);
    if accounts.None? {
      return None;
    }
    var expenses := ProjectSides(e.fromCategory, e.fromEur, e.toCategory, e.toEur, false);
    if expenses.None? {
      return None;
    }
    if e.kind != "reallocate" {
      NothingReadable();
      return Some(Projected(accounts.value, expenses.value, map[]));
    }
    var impacts := ProjectReallocation(e);
    if impacts.None? {
      return None;
    }
    r := Some(Projected(accounts.value, expenses.value, impacts.value));
  }

  lemma NothingReadable()
    ensures Readable(map[])
  {
  }

  /** A reallocation takes the size of its amount from one category to the other. */
  method ProjectReallocation(e: Effect) returns (r: Option<Deltas>)
    ensures r.None? <==> Parse(e.amount).None?
    ensures r.Some? ==> Readable(r.value) && r.value.Keys == Key(e.fromCategory) + Key(e.toCategory)
    ensures r.Some? ==>
              forall k :: Amount(r.value, k) == Share(e.fromCategory, k, Magnitude(e.amount)) - Share(e.toCategory, k, Magnitude(e.amount))
  {
    hide Parse, Value;
    var amount := Parse(e.amount);
    if amount.None? {
      return None;
    }
    NegatedValue(amount.value);
    SignOfValue(amount.value);
    var absolute := if amount.value.coefficient < 0 then Negated(amount.value) else amount.value;
    NegatedValue(absolute);
    var impacts: Deltas := map[];
    if e.fromCategory.Some? {
      impacts := AddDelta(impacts, e.fromCategory.value, absolute);
    }
    if e.toCategory.Some? {
      impacts := AddDelta(impacts, e.toCategory.value, Negated(absolute));
    }
    r := Some(impacts);
  }

  lemma SignOfValue(d: Decimal)
    ensures d.coefficient < 0 <==> Value(d) < 0.0
  {
  }

  /** A reallocation between two categories moves budget and makes none: what one loses
      the other gains; within one category it does nothing. */
  lemma ReallocationConserves(e: Effect, p: Projected)
    requires Does(e, p) && e.kind == "reallocate" && e.fromCategory.Some? && e.toCategory.Some?
    ensures if e.fromCategory == e.toCategory then Amount(p.impacts, e.fromCategory.value) == 0.0
            else Amount(p.impacts, e.fromCategory.value) == Magnitude(e.amount) >= 0.0
                 && Amount(p.impacts, e.toCategory.value) == -Magnitude(e.amount)
  {
    hide Parse, Value, Worth, Amount, Readable;
  }
}
