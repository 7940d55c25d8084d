/** The recursive-descent parser of money formulas: one shared position in the text,
    values computed on the way, and failure as soon as anything goes wrong. */
module FormulaParser {
  import Decimals
  import opened AmountText
  import opened FormulaGrammar

  type Option<+T> = Decimals.Option<T>

  /** What a parsing method returns: the worth of the tree that starts where it started. */
  ghost predicate Returns(p: Parsed, r: Option<real>)
  {
    r == if p.Parsed? then Worth(p.tree) else Decimals.None
  }

  lemma WorthBinary(t: Tree)
    requires t.Binary?
    ensures Worth(t) == Combined(t.operator, Worth(t.left), Worth(t.right))
    ensures Worth(t.right).None? ==> Worth(t).None?
  {
    hide LocalizedNumber;
  }

  lemma SkipTwice(s: string, i: nat)
    requires i <= |s|
    ensures SkipBlanks(s, SkipBlanks(s, i)) == SkipBlanks(s, i)
  {
    var j := SkipBlanks(s, i);
    SkipIs(s, j, j);
  }

  // ----- one step of a sum -----

  lemma SumLonger(s: string, i: nat, end: nat, sofar: Tree, j: nat, next: Parsed)
    requires i < end <= j < |s| && s[i..end] == Text(sofar) && Formed(sofar, 0) && Blanks(s[end..j]) && Additive(s[j])
    requires next.Parsed? && j + 1 < next.end <= |s| && s[j + 1..next.end] == Text(next.tree) && Formed(next.tree, 1)
    ensures var longer := Binary(sofar, s[end..j], s[j], next.tree); s[i..next.end] == Text(longer) && Formed(longer, 0)
  {
    hide Blanks;
    Adjoined(s, i, end, j, next.end);
  }

  lemma SumUnfolds(s: string, i: nat, end: nat, sofar: Tree)
    requires i < end <= |s| && s[i..end] == Text(sofar) && Formed(sofar, 0)
    ensures var j := SkipBlanks(s, end);
            if j < |s| && Additive(s[j]) then
              var next := ParseTerm(s, j + 1);
              if next.Failed? then Sum(s, i, end, sofar) == Failed
              else
                var longer := Binary(sofar, s[end..j], s[j], next.tree);
                && j < next.end <= |s| && s[i..next.end] == Text(longer) && Formed(longer, 0)
                && Sum(s, i, end, sofar) == Sum(s, i, next.end, longer)
            else Sum(s, i, end, sofar) == Parsed(sofar, end)
  {
    hide ParseTerm, SkipBlanks, Text, Formed, Blanks, Space;
    var j := SkipBlanks(s, end);
    if j < |s| && Additive(s[j]) && ParseTerm(s, j + 1).Parsed? {
      SumLonger(s, i, end, sofar, j, ParseTerm(s, j + 1));
    }
  }

  /** A value worth nothing makes every longer sum worth nothing. */
  lemma {:induction false} SumWorthless(s: string, i: nat, end: nat, sofar: Tree)
    requires i < end <= |s| && s[i..end] == Text(sofar) && Formed(sofar, 0) && Worth(sofar).None?
    ensures Returns(Sum(s, i, end, sofar), Decimals.None)
    decreases |s| - end
  {
    hide Sum, ParseTerm, Text, Formed, SkipBlanks;
    var j := SkipBlanks(s, end);
    SumUnfolds(s, i, end, sofar);
    if j < |s| && Additive(s[j]) {
      var next := ParseTerm(s, j + 1);
      if next.Parsed? {
        SumWorthless(s, i, next.end, Binary(sofar, s[end..j], s[j], next.tree));
      }
    }
  }

  lemma SumStarts(s: string, i: nat, r: Option<real>)
    requires i <= |s| && Returns(ParseTerm(s, i), r)
    ensures r.None? ==> Returns(ParseExpression(s, i), r)
    ensures r.Some? ==>
              var first := ParseTerm(s, i);
              && first.Parsed? && r == Worth(first.tree)
              && i < first.end <= |s| && s[i..first.end] == Text(first.tree) && Formed(first.tree, 0)
              && ParseExpression(s, i) == Sum(s, i, first.end, first.tree)
  {
    hide ParseTerm, Sum, Text, Worth, SkipBlanks;
    var first := ParseTerm(s, i);
    if first.Parsed? {
      FormedWeaker(first.tree, 1, 0);
      if r.None? {
        SumWorthless(s, i, first.end, first.tree);
      }
    }
  }

  lemma SumGoes(s: string, i: nat, end: nat, sofar: Tree, j: nat, right: Option<real>)
    requires i < end <= |s| && s[i..end] == Text(sofar) && Formed(sofar, 0) && Worth(sofar).Some?
    requires j == SkipBlanks(s, end) < |s| && Additive(s[j]) && Returns(ParseTerm(s, j + 1), right)
    ensures right.None? ==> Returns(Sum(s, i, end, sofar), right)
    ensures right.Some? ==>
              var next := ParseTerm(s, j + 1);
              && next.Parsed?
              && var longer := Binary(sofar, s[end..j], s[j], next.tree);
                 && end < next.end <= |s| && s[i..next.end] == Text(longer) && Formed(longer, 0)
                 && Sum(s, i, end, sofar) == Sum(s, i, next.end, longer)
                 && Worth(longer) == Combined(s[j], Worth(sofar), right)
                 && (Worth(longer).None? ==> Returns(Sum(s, i, end, sofar), Decimals.None))
  {
    hide Sum, ParseTerm, SkipBlanks, Text, Formed, Combined, Additive, Blanks, Space, Worth, Reads;
    SumUnfolds(s, i, end, sofar);
    var next := ParseTerm(s, j + 1);
    if next.Parsed? {
      var longer := Binary(sofar, s[end..j], s[j], next.tree);
      WorthBinary(longer);
      if Worth(longer).None? {
        SumWorthless(s, i, next.end, longer);
      }
    }
  }

  // ----- one step of a product -----

  lemma ProductLonger(s: string, i: nat, end: nat, sofar: Tree, j: nat, next: Parsed)
    requires i < end <= j < |s| && s[i..end] == Text(sofar) && Formed(sofar, 1) && Blanks(s[end..j]) && Multiplicative(s[j])
    requires next.Parsed? && j + 1 < next.end <= |s| && s[j + 1..next.end] == Text(next.tree) && Formed(next.tree, 2)
    ensures var longer := Binary(sofar, s[end..j], s[j], next.tree); s[i..next.end] == Text(longer) && Formed(longer, 1)
  {
    hide Blanks;
    Adjoined(s, i, end, j, next.end);
  }

  lemma ProductUnfolds(s: string, i: nat, end: nat, sofar: Tree)
    requires i < end <= |s| && s[i..end] == Text(sofar) && Formed(sofar, 1)
    ensures var j := SkipBlanks(s, end);
            if j < |s| && Multiplicative(s[j]) then
              var next := ParseUnary(s, j + 1);
              if next.Failed? then Product(s, i, end, sofar) == Failed
              else
                var longer := Binary(sofar, s[end..j], s[j], next.tree);
                && j < next.end <= |s| && s[i..next.end] == Text(longer) && Formed(longer, 1)
                && Product(s, i, end, sofar) == Product(s, i, next.end, longer)
            else Product(s, i, end, sofar) == Parsed(sofar, end)
  {
    hide ParseUnary, SkipBlanks, Text, Formed, Blanks, Space;
    var j := SkipBlanks(s, end);
    if j < |s| && Multiplicative(s[j]) && ParseUnary(s, j + 1).Parsed? {
      ProductLonger(s, i, end, sofar, j, ParseUnary(s, j + 1));
    }
  }

  /** A value worth nothing makes every longer product worth nothing. */
  lemma {:induction false} ProductWorthless(s: string, i: nat, end: nat, sofar: Tree)
    requires i < end <= |s| && s[i..end] == Text(sofar) && Formed(sofar, 1) && Worth(sofar).None?
    ensures Returns(Product(s, i, end, sofar), Decimals.None)
    decreases |s| - end
  {
    hide Product, ParseUnary, Text, Formed, SkipBlanks;
    var j := SkipBlanks(s, end);
    ProductUnfolds(s, i, end, sofar);
    if j < |s| && Multiplicative(s[j]) {
      var next := ParseUnary(s, j + 1);
      if next.Parsed? {
        ProductWorthless(s, i, next.end, Binary(sofar, s[end..j], s[j], next.tree));
      }
    }
  }

  lemma ProductStarts(s: string, i: nat, r: Option<real>)
    requires i <= |s| && Returns(ParseUnary(s, i), r)
    ensures r.None? ==> Returns(ParseTerm(s, i), r)
    ensures r.Some? ==>
              var first := ParseUnary(s, i);
              && first.Parsed? && r == Worth(first.tree)
              && i < first.end <= |s| && s[i..first.end] == Text(first.tree) && Formed(first.tree, 1)
              && ParseTerm(s, i) == Product(s, i, first.end, first.tree)
  {
    hide ParseUnary, Product, Text, Worth, SkipBlanks;
    var first := ParseUnary(s, i);
    if first.Parsed? {
      FormedWeaker(first.tree, 2, 1);
      if r.None? {
        ProductWorthless(s, i, first.end, first.tree);
      }
    }
  }

  lemma ProductGoes(s: string, i: nat, end: nat, sofar: Tree, j: nat, right: Option<real>)
    requires i < end <= |s| && s[i..end] == Text(sofar) && Formed(sofar, 1) && Worth(sofar).Some?
    requires j == SkipBlanks(s, end) < |s| && Multiplicative(s[j]) && Returns(ParseUnary(s, j + 1), right)
    ensures right.None? ==> Returns(Product(s, i, end, sofar), right)
    ensures right.Some? ==>
              var next := ParseUnary(s, j + 1);
              && next.Parsed?
              && var longer := Binary(sofar, s[end..j], s[j], next.tree);
                 && end < next.end <= |s| && s[i..next.end] == Text(longer) && Formed(longer, 1)
                 && Product(s, i, end, sofar) == Product(s, i, next.end, longer)
                 && Worth(longer) == Combined(s[j], Worth(sofar), right)
                 && (Worth(longer).None? ==> Returns(Product(s, i, end, sofar), Decimals.None))
  {
    hide Product, ParseUnary, SkipBlanks, Text, Formed, Combined, Multiplicative, Blanks, Space, Worth, Reads;
    ProductUnfolds(s, i, end, sofar);
    var next := ParseUnary(s, j + 1);
    if next.Parsed? {
      var longer := Binary(sofar, s[end..j], s[j], next.tree);
      WorthBinary(longer);
      if Worth(longer).None? {
        ProductWorthless(s, i, next.end, longer);
      }
    }
  }

  lemma ReturnsTree(t: Tree, end: nat, r: Option<real>)
    requires r == Worth(t)
    ensures Returns(Parsed(t, end), r)
  {
  }

  lemma UnaryReturns(s: string, i: nat, j: nat, r: Option<real>)
    requires i <= j < |s| && j == SkipBlanks(s, i) && Additive(s[j]) && Returns(FormulaGrammar.ParseUnary(s, j + 1), r)
    ensures var p := FormulaGrammar.ParseUnary(s, i);
            && Returns(p, if s[j] == '-' then Negative(r) else r)
            && (p.Parsed? ==> FormulaGrammar.ParseUnary(s, j + 1).Parsed? && p.end == FormulaGrammar.ParseUnary(s, j + 1).end)
  {
  }

  lemma UnaryPasses(s: string, i: nat)
    requires i <= |s| && (SkipBlanks(s, i) < |s| ==> !Additive(s[SkipBlanks(s, i)]))
    ensures FormulaGrammar.ParseUnary(s, i) == FormulaGrammar.ParsePrimary(s, i)
  {
  }

  /** Blanks skipped beforehand change neither the value nor the end. */
  lemma PrimarySkips(s: string, i: nat)
    requires i <= |s|
    ensures var p, q := FormulaGrammar.ParsePrimary(s, i), FormulaGrammar.ParsePrimary(s, SkipBlanks(s, i));
            (p.Parsed? <==> q.Parsed?) && (p.Parsed? ==> p.end == q.end && Worth(p.tree) == Worth(q.tree))
  {
    hide FormulaGrammar.ParseExpression, SkipBlanks, NumberEnd, LocalizedNumber, Text, Formed;
    SkipTwice(s, i);
  }

  class Parser {
    const value: string
    var index: nat

    constructor (value: string)
      ensures this.value == value && index == 0
    {
      this.value := value;
      index := 0;
    }

    method SkipWhitespace()
      requires index <= |value|
      modifies this
      ensures index == SkipBlanks(value, old(index))
    {
      while index < |value| && Space(value[index])
        invariant index <= |value| && SkipBlanks(value, index) == SkipBlanks(value, old(index))
      {
        index := index + 1;
      }
    }

    method ParseExpression() returns (r: Option<real>)
      requires index <= |value|
      modifies this
      ensures old(index) <= index <= |value| && Returns(FormulaGrammar.ParseExpression(value, old(index)), r)
      ensures r.Some? ==> old(index) < index == SkipBlanks(value, FormulaGrammar.ParseExpression(value, old(index)).end)
      decreases |value| - index, 3
    {
      hide *;
      ghost var start := index;
      r := ParseTerm();
      SumStarts(value, start, r);
      if r.None? {
        return;
      }
      ghost var tree, end := FormulaGrammar.ParseTerm(value, start).tree, FormulaGrammar.ParseTerm(value, start).end;
      SkipTwice(value, end);
      while true
        invariant start < end <= index <= |value| && value[start..end] == Text(tree) && Formed(tree, 0)
        invariant FormulaGrammar.ParseExpression(value, start) == Sum(value, start, end, tree)
        invariant r.Some? && r == Worth(tree) && SkipBlanks(value, index) == SkipBlanks(value, end)
        decreases |value| - index
      {
        SkipWhitespace();
        if index == |value| || !Additive(value[index]) {
          SumUnfolds(value, start, end, tree);
          ReturnsTree(tree, end, r);
          return;
        }
        ghost var j := index;
        var operator := value[index];
        index := index + 1;
        var right := ParseTerm();
        SumGoes(value, start, end, tree, j, right);
        if right.None? {
          return Decimals.None;
        }
        r := Combined(operator, r, right);
        if r.None? {
          return;
        }
        tree := Binary(tree, value[end..j], value[j], FormulaGrammar.ParseTerm(value, j + 1).tree);
        end := FormulaGrammar.ParseTerm(value, j + 1).end;
        SkipTwice(value, end);
      }
    }

    method ParseTerm() returns (r: Option<real>)
      requires index <= |value|
      modifies this
      ensures old(index) <= index <= |value| && Returns(FormulaGrammar.ParseTerm(value, old(index)), r)
      ensures r.Some? ==> old(index) < index == SkipBlanks(value, FormulaGrammar.ParseTerm(value, old(index)).end)
      decreases |value| - index, 2
    {
      hide *;
      ghost var start := index;
      r := ParseUnary();
      ProductStarts(value, start, r);
      if r.None? {
        return;
      }
      ghost var tree, end := FormulaGrammar.ParseUnary(value, start).tree, FormulaGrammar.ParseUnary(value, start).end;
      SkipTwice(value, end);
      while true
        invariant start < end <= index <= |value| && value[start..end] == Text(tree) && Formed(tree, 1)
        invariant FormulaGrammar.ParseTerm(value, start) == Product(value, start, end, tree)
        invariant r.Some? && r == Worth(tree) && SkipBlanks(value, index) == SkipBlanks(value, end)
        decreases |value| - index
      {
        SkipWhitespace();
        if index == |value| || !Multiplicative(value[index]) {
          ProductUnfolds(value, start, end, tree);
          ReturnsTree(tree, end, r);
          return;
        }
        ghost var j := index;
        var operator := value[index];
        index := index + 1;
        var right := ParseUnary();
        ProductGoes(value, start, end, tree, j, right);
        if right.None? {
          return Decimals.None;
        }
        r := Combined(operator, r, right);
        if r.None? {
          return;
        }
        tree := Binary(tree, value[end..j], value[j], FormulaGrammar.ParseUnary(value, j + 1).tree);
        end := FormulaGrammar.ParseUnary(value, j + 1).end;
        SkipTwice(value, end);
      }
    }

    method ParseUnary() returns (r: Option<real>)
      requires index <= |value|
      modifies this
      ensures old(index) <= index <= |value| && Returns(FormulaGrammar.ParseUnary(value, old(index)), r)
      ensures r.Some? ==> old(index) < index == FormulaGrammar.ParseUnary(value, old(index)).end
      decreases |value| - index, 1
    {
      hide FormulaGrammar.ParseUnary, FormulaGrammar.ParsePrimary, SkipBlanks, Worth, Blanks, Space, Reads;
      ghost var start := index;
      SkipWhitespace();
      if index < |value| && Additive(value[index]) {
        ghost var j := index;
        var operator := value[index];
        index := index + 1;
        var operand := ParseUnary();
        UnaryReturns(value, start, j, operand);
        r := if operator == '-' then Negative(operand) else operand;
      } else {
        UnaryPasses(value, start);
        PrimarySkips(value, start);
        r := ParsePrimary();
      }
    }

    method ParsePrimary() returns (r: Option<real>)
      requires index <= |value|
      modifies this
      ensures old(index) <= index <= |value| && Returns(FormulaGrammar.ParsePrimary(value, old(index)), r)
      ensures r.Some? ==> old(index) < index == FormulaGrammar.ParsePrimary(value, old(index)).end
      decreases |value| - index, 0
    {
      hide FormulaGrammar.ParseExpression, SkipBlanks, NumberEnd, LocalizedNumber, Text, Formed;
      ghost var start := index;
      SkipWhitespace();
      ghost var j := index;
      if index < |value| && value[index] == '(' {
        index := index + 1;
        r := ParseExpression();
        if r.None? {
          return;
        }
        SkipTwice(value, FormulaGrammar.ParseExpression(value, j + 1).end);
        SkipWhitespace();
        if index == |value| || value[index] != ')' {
          return Decimals.None;
        }
        index := index + 1;
      } else {
        var end := NumberEnd(value, index);
        if end == index {
          return Decimals.None;
        }
        r := LocalizedNumber(value[index..end]);
        index := end;
      }
    }
  }

  /** The value of what was typed. */
  method Evaluate(value: string) returns (r: Option<real>)
    ensures r == ParseAmount(value)
  {
    hide FormulaGrammar.ParseExpression, SkipBlanks, LocalizedNumber, Worth;
    var text := Trim(value);
    if text == "" || text[0] != '=' {
      return LocalizedNumber(text);
    }
    var formula := text[1..];
    if |formula| > 256 {
      return Decimals.None;
    }
    var parser := new Parser(formula);
    r := parser.ParseExpression();
    if r.Some? {
      SkipTwice(formula, FormulaGrammar.ParseExpression(formula, 0).end);
      parser.SkipWhitespace();
      if parser.index != |formula| {
        r := Decimals.None;
      }
    }
  }
}
