/** Calculations, as arithmetic has them, and the formulas that stand for them. */
module FormulaMeaning {
  import opened Numerals
  import opened AmountText
  import opened AmountForms
  import opened FormulaGrammar
  import Decimals

  /** Products and quotients may be spelt with either of two signs. */
  datatype Operator = Plus | Minus | Times(cross: bool) | Over(obelus: bool)

  datatype Calculation =
    | Constant(amount: Amount)
    | Compound(a: Calculation, operator: Operator, b: Calculation)
    | Opposite(a: Calculation)
    | Same(a: Calculation)

  /** Its result; none when it divides by zero somewhere. */
  function Outcome(c: Calculation): Option<real>
    requires Calculable(c)
  {
    match c
    case Constant(n) => Decimals.Some(AmountForms.Worth(n))
    case Opposite(a) => if Outcome(a).Some? then Decimals.Some(0.0 - Outcome(a).value) else Decimals.None
    case Same(a) => Outcome(a)
    case Compound(a, operator, b) =>
      if Outcome(a).None? || Outcome(b).None? then Decimals.None
      else
        Applied(operator, Outcome(a).value, Outcome(b).value)
  }

  function Applied(operator: Operator, x: real, y: real): Option<real>
  {
    match operator
    case Plus => Decimals.Some(x + y)
    case Minus => Decimals.Some(x - y)
    case Times(_) => Decimals.Some(x * y)
    case Over(_) => if y == 0.0 then Decimals.None else Decimals.Some(x / y)
  }

  /** The amounts are of the forms that are read, without spaces as a formula needs it, and
      begin with a digit, or with a decimal mark and digits. */
  predicate Calculable(c: Calculation)
  {
    match c
    case Constant(n) =>
      && AmountForms.Proper(n) && (forall i :: 0 <= i < |n.groups| ==> n.groups[i].mark in ".,")
    case Opposite(a) => Calculable(a)
    case Same(a) => Calculable(a)
    case Compound(a, _, b) => Calculable(a) && Calculable(b)
  }

  function SignOf(operator: Operator): char
  {
    match operator
    case Plus => '+'
    case Minus => '-'
    case Times(cross) => if cross then 0xD7 as char else '*'
    case Over(obelus) => if obelus then 0xF7 as char else '/'
  }

  /** The calculation as an expression of the formula language. */
  function Spelt(c: Calculation): Expression
  {
    match c
    case Constant(n) => Literal(AmountForms.Written(n))
    case Opposite(a) => Sign('-', Spelt(a))
    case Same(a) => Sign('+', Spelt(a))
    case Compound(a, operator, b) => Operation(SignOf(operator), Spelt(a), Spelt(b))
  }

  // ----- numbers -----

  /** A number token: a digit and then digits and decimal marks, or a mark and digits only. */
  predicate Token(text: string)
  {
    text != "" &&
    if Digit(text[0]) then forall i :: 0 <= i < |text| ==> Digit(text[i]) || text[i] in ".,"
    else text[0] in ".," && |text| > 1 && AllDigits(text[1..])
  }

  lemma TokenIs(text: string)
    ensures NumberText(text) <==> Token(text) && LocalizedNumber(text).Some?
  {
    hide Run, LocalizedNumber;
    if text != "" && Digit(text[0]) {
      if Token(text) {
        RunIs(text, 0, false, |text|);
      }
    } else if |text| > 1 && text[0] in ".," {
      if AllDigits(text[1..]) {
        forall k | 1 <= k < |text| ensures Digit(text[k]) { assert text[1..][k - 1] == text[k]; }
        RunIs(text, 1, true, |text|);
      }
      if NumberEnd(text, 0) == |text| {
        assert AllDigits(text[1..]);
      }
    }
  }

  /** An amount without spaces is a token of a formula. */
  lemma AmountToken(n: Amount)
    requires AmountForms.Proper(n) && forall i :: 0 <= i < |n.groups| ==> n.groups[i].mark in ".,"
    ensures NumberText(AmountForms.Written(n)) && LocalizedNumber(AmountForms.Written(n)) == Decimals.Some(AmountForms.Worth(n))
  {
    hide LocalizedNumber, AmountForms.Worth, AmountForms.Spell;
    var text, w := AmountForms.Written(n), AmountForms.Spell(n.head, n.groups);
    var e := Entry("", "", "", "", n, "", "", "");
    assert Typed(e) == text;
    EntryRead(e);
    SpellChars(n.head, n.groups, ".,");
    assert text == w + n.point + n.fraction;
    if n.groups == [] {
      SpellNone(n.head);
    } else {
      SpellEnds(n.head, n.groups);
    }
    if w == "" {
      assert text[0] == n.point[0] && text[1..] == n.fraction;
    } else {
      assert text[0] == w[0];
    }
    TokenIs(text);
  }

  // ----- formulas -----

  lemma SignIs(operator: Operator)
    ensures var sign := SignOf(operator);
            && (sign == '+' <==> operator.Plus?) && (sign == '-' <==> operator.Minus?) && (Dividing(sign) <==> operator.Over?)
            && (Additive(sign) <==> operator.Plus? || operator.Minus?) && (Multiplicative(sign) <==> operator.Times? || operator.Over?)
  {
    assert '*' as int == 42 && '+' as int == 43 && '-' as int == 45 && '/' as int == 47;
    assert operator == Times(true) ==> SignOf(operator) as int == 0xD7;
    assert operator == Over(true) ==> SignOf(operator) as int == 0xF7;
  }

  /** The four signs stand for the four operations. */
  lemma CombinedIs(operator: Operator, left: Option<real>, right: Option<real>)
    ensures Additive(SignOf(operator)) <==> operator.Plus? || operator.Minus?
    ensures Multiplicative(SignOf(operator)) <==> operator.Times? || operator.Over?
    ensures left.None? || right.None? ==> Combined(SignOf(operator), left, right) == Decimals.None
    ensures left.Some? && right.Some? ==> Combined(SignOf(operator), left, right) == Applied(operator, left.value, right.value)
  {
    hide SignOf, Dividing;
    SignIs(operator);
  }

  /** Every calculation is a formula, and the formula is worth its outcome. */
  lemma {:induction false} SpeltMeans(c: Calculation)
    requires Calculable(c)
    ensures Sensible(Spelt(c)) && Result(Spelt(c)) == Outcome(c)
  {
    hide NumberText, LocalizedNumber, AmountForms.Worth, AmountForms.Written, AmountForms.Proper, Combined, Applied, SignOf, Multiplicative;
    match c
    case Constant(n) => AmountToken(n);
    case Opposite(a) => SpeltMeans(a);
    case Same(a) =>
      SpeltMeans(a);
      assert Additive('+');
    case Compound(a, operator, b) =>
      SpeltMeans(a);
      SpeltMeans(b);
      CombinedIs(operator, Outcome(a), Outcome(b));
  }

  /** A calculation written with as few brackets as possible, typed after an equals sign and
      with blanks around it, is entered as its outcome. */
  lemma CalculationEntered(c: Calculation, lead: string, trail: string)
    requires Calculable(c) && Blank(lead) && Blank(trail) && |Text(FormulaGrammar.Written(Spelt(c), 0))| <= 256
    ensures ParseAmount(lead + ("=" + Text(FormulaGrammar.Written(Spelt(c), 0))) + trail) == Outcome(c)
  {
    hide Text, FormulaGrammar.Worth, Result, Sensible, ParseFormula, TrimStart, TrimEnd, Blank;
    var tree := FormulaGrammar.Written(Spelt(c), 0);
    var text := "=" + Text(tree);
    SpeltMeans(c);
    WrittenRead(Spelt(c));
    WrittenFormed(Spelt(c), 0);
    TextEnds(tree, 0);
    StartTrimmed(lead, text + trail);
    assert lead + text + trail == lead + (text + trail);
    EndTrimmed(text, trail);
    assert text[1..] == Text(tree);
  }

  /** A formula ends in a digit, a decimal mark or a bracket. */
  lemma {:induction false} TextEnds(t: Tree, level: nat)
    requires Formed(t, level)
    ensures Text(t) != "" && !Space(Text(t)[|Text(t)| - 1])
    decreases t
  {
    hide LocalizedNumber;
    match t
    case Number(gap, text) =>
      TokenIs(text);
      if !Digit(text[0]) {
        assert text[1..][|text| - 2] == text[|text| - 1];
      }
    case Group(_, inner, _) =>
    case Signed(_, _, operand) =>
      TextEnds(operand, 2);
    case Binary(_, _, operator, right) =>
      TextEnds(right, if Additive(operator) then 1 else 2);
  }

  /** Formulas longer than 256 characters are not read, and without an equals sign an entry is
      a plain amount. */
  lemma EntryKinds(value: string)
    ensures forall i :: |value| > 257 + i && i >= 0 && i < |value| && Blank(value[..i]) && value[i] == '=' && !Space(value[|value| - 1]) ==>
              ParseAmount(value) == Decimals.None
    ensures Trim(value) == "" || Trim(value)[0] != '=' ==> ParseAmount(value) == LocalizedNumber(Trim(value))
  {
    hide LocalizedNumber, FormulaTree, TrimStart, TrimEnd;
    forall i | |value| > 257 + i && i >= 0 && Blank(value[..i]) && value[i] == '=' && !Space(value[|value| - 1])
      ensures ParseAmount(value) == Decimals.None
    {
      assert value == value[..i] + value[i..];
      StartTrimmed(value[..i], value[i..]);
      EndTrimmed(value[i..], "");
      assert value[i..] + "" == value[i..];
    }
  }
}
