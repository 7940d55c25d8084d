/** Money formulas: which texts are formulas, what they are worth, and that reading one
    is the inverse of writing it. */
module FormulaGrammar {
  import opened Numerals
  import Decimals
  import opened AmountText

  predicate Additive(c: char) { c == '+' || c == '-' }

  predicate Multiplicative(c: char) { c == '*' || c == '/' || c as int == 0xD7 || c as int == 0xF7 }

  predicate Dividing(c: char) { c == '/' || c as int == 0xF7 }

  predicate NumberChar(c: char) { Digit(c) || c == '.' || c == ',' }

  /** A formula as written: every token comes with the blanks before it, and brackets
      are part of the tree. */
  datatype Tree =
    | Number(gap: string, text: string)
    | Group(gap: string, inner: Tree, close: string)
    | Signed(gap: string, sign: char, operand: Tree)
    | Binary(left: Tree, before: string, operator: char, right: Tree)

  function Text(t: Tree): string
  {
    match t
    case Number(gap, text) => gap + text
    case Group(gap, inner, close) => gap + "(" + Text(inner) + close + ")"
    case Signed(gap, sign, operand) => gap + [sign] + Text(operand)
    case Binary(left, before, operator, right) => Text(left) + before + [operator] + Text(right)
  }

  predicate Blanks(s: string) { forall i :: 0 <= i < |s| ==> Space(s[i]) }

  /** Precedence: 0 sums, 1 products, 2 signed values. A tree of lower precedence
      appears only in brackets, and operators of one kind associate to the left. */
  predicate Formed(t: Tree, level: nat)
  {
    match t
    case Number(gap, text) => Blanks(gap) && NumberText(text)
    case Group(gap, inner, close) => Blanks(gap) && Blanks(close) && Formed(inner, 0)
    case Signed(gap, sign, operand) => Blanks(gap) && Additive(sign) && Formed(operand, 2)
    case Binary(left, before, operator, right) =>
      && Blanks(before)
      && (if Additive(operator) then level == 0 && Formed(left, 0) && Formed(right, 1)
          else Multiplicative(operator) && level <= 1 && Formed(left, 1) && Formed(right, 2))
  }

  /** What a formula is worth, over exact numbers; dividing by zero has no result. */
  function Worth(t: Tree): Option<real>
  {
    match t
    case Number(_, text) => LocalizedNumber(text)
    case Group(_, inner, _) => Worth(inner)
    case Signed(_, sign, operand) => if sign == '-' then Negative(Worth(operand)) else Worth(operand)
    case Binary(left, _, operator, right) => Combined(operator, Worth(left), Worth(right))
  }

  function Combined(operator: char, left: Option<real>, right: Option<real>): Option<real>
  {
    if left.None? || right.None? then Decimals.None
    else if operator == '+' then Decimals.Some(left.value + right.value)
    else if operator == '-' then Decimals.Some(left.value - right.value)
    else if !Dividing(operator) then Decimals.Some(left.value * right.value)
    else if right.value == 0.0 then Decimals.None
    else Decimals.Some(left.value / right.value)
  }

  // ----- tokens -----

  function SkipBlanks(s: string, i: nat): (j: nat)
    requires i <= |s|
    ensures i <= j <= |s| && Blanks(s[i..j]) && (j < |s| ==> !Space(s[j]))
    decreases |s| - i
  {
    if i < |s| && Space(s[i]) then SkipBlanks(s, i + 1) else i
  }

  function Run(s: string, i: nat, digitsOnly: bool): (j: nat)
    requires i <= |s|
    ensures i <= j <= |s|
    ensures forall k :: i <= k < j ==> if digitsOnly then Digit(s[k]) else NumberChar(s[k])
    ensures j < |s| ==> !(if digitsOnly then Digit(s[j]) else NumberChar(s[j]))
    decreases |s| - i
  {
    if i < |s| && (if digitsOnly then Digit(s[i]) else NumberChar(s[i])) then Run(s, i + 1, digitsOnly) else i
  }

  /** Where the number that starts at i ends; i if none does. A digit opens a run of
      digits and separators, a separator before a digit a run of digits. */
  function NumberEnd(s: string, i: nat): (j: nat)
    requires i <= |s|
    ensures i <= j <= |s|
  {
    if i < |s| && Digit(s[i]) then Run(s, i, false)
    else if i + 1 < |s| && (s[i] == '.' || s[i] == ',') && Digit(s[i + 1]) then Run(s, i + 1, true)
    else i
  }

  predicate NumberText(text: string)
  {
    text != "" && NumberEnd(text, 0) == |text| && LocalizedNumber(text).Some?
  }

  // ----- reading -----

  datatype Parsed = Failed | Parsed(tree: Tree, end: nat)

  ghost predicate Reads(s: string, i: nat, p: Parsed, level: nat)
    requires i <= |s|
  {
    p.Parsed? ==> i < p.end <= |s| && s[i..p.end] == Text(p.tree) && Formed(p.tree, level)
  }

  function ParseExpression(s: string, i: nat): (p: Parsed)
    requires i <= |s|
    ensures Reads(s, i, p, 0)
    decreases |s| - i, 5
  {
    match ParseTerm(s, i)
    case Failed => Failed
    case Parsed(first, end) =>
      FormedWeaker(first, 1, 0);
      Sum(s, i, end, first)
  }

  /** Continues a sum that has been read up to `end`. */
  function Sum(s: string, i: nat, end: nat, sofar: Tree): (p: Parsed)
    requires i < end <= |s| && s[i..end] == Text(sofar) && Formed(sofar, 0)
    ensures Reads(s, i, p, 0)
    decreases |s| - i, 4, |s| - end
  {
    var j := SkipBlanks(s, end);
    if j < |s| && Additive(s[j]) then
      match ParseTerm(s, j + 1)
      case Failed => Failed
      case Parsed(right, k) =>
        Adjoined(s, i, end, j, k);
        Sum(s, i, k, Binary(sofar, s[end..j], s[j], right))
    else Parsed(sofar, end)
  }

  function ParseTerm(s: string, i: nat): (p: Parsed)
    requires i <= |s|
    ensures Reads(s, i, p, 1)
    decreases |s| - i, 3
  {
    match ParseUnary(s, i)
    case Failed => Failed
    case Parsed(first, end) =>
      FormedWeaker(first, 2, 1);
      Product(s, i, end, first)
  }

  /** Continues a product that has been read up to `end`. */
  function Product(s: string, i: nat, end: nat, sofar: Tree): (p: Parsed)
    requires i < end <= |s| && s[i..end] == Text(sofar) && Formed(sofar, 1)
    ensures Reads(s, i, p, 1)
    decreases |s| - i, 2, |s| - end
  {
    var j := SkipBlanks(s, end);
    if j < |s| && Multiplicative(s[j]) then
      match ParseUnary(s, j + 1)
      case Failed => Failed
      case Parsed(right, k) =>
        Adjoined(s, i, end, j, k);
        Product(s, i, k, Binary(sofar, s[end..j], s[j], right))
    else Parsed(sofar, end)
  }

  function ParseUnary(s: string, i: nat): (p: Parsed)
    requires i <= |s|
    ensures Reads(s, i, p, 2)
    decreases |s| - i, 1
  {
    var j := SkipBlanks(s, i);
    if j < |s| && Additive(s[j]) then
      match ParseUnary(s, j + 1)
      case Failed => Failed
      case Parsed(operand, k) =>
        SignedReads(s, i, j, k, operand);
        Parsed(Signed(s[i..j], s[j], operand), k)
    else ParsePrimary(s, i)
  }

  function ParsePrimary(s: string, i: nat): (p: Parsed)
    requires i <= |s|
    ensures Reads(s, i, p, 2)
    decreases |s| - i, 0
  {
    var j := SkipBlanks(s, i);
    if j < |s| && s[j] == '(' then
      match ParseExpression(s, j + 1)
      case Failed => Failed
      case Parsed(inner, k) =>
        var close := SkipBlanks(s, k);
        if close < |s| && s[close] == ')' then
          GroupReads(s, i, j, k, close, inner);
          Parsed(Group(s[i..j], inner, s[k..close]), close + 1)
        else Failed
    else
      var k := NumberEnd(s, j);
      if k == j || LocalizedNumber(s[j..k]).None? then Failed
      else
        NumberReads(s, i, j, k);
        Parsed(Number(s[i..j], s[j..k]), k)
  }

  lemma Adjoined(s: string, i: nat, end: nat, j: nat, k: nat)
    requires i <= end <= j < k <= |s|
    ensures s[i..k] == s[i..end] + s[end..j] + [s[j]] + s[j + 1..k]
  {
    Cut(s, i, end, j);
    Cut(s, i, j, j + 1);
    Cut(s, i, j + 1, k);
    Single(s, j);
  }

  lemma SignedReads(s: string, i: nat, j: nat, k: nat, operand: Tree)
    requires i <= j < |s| && Blanks(s[i..j]) && Additive(s[j]) && Reads(s, j + 1, Parsed(operand, k), 2)
    ensures Reads(s, i, Parsed(Signed(s[i..j], s[j], operand), k), 2)
  {
    hide Space, Blanks;
    Adjoined(s, i, i, j, k);
    assert s[i..i] + s[i..j] == s[i..j];
  }

  lemma Cut(s: string, a: nat, b: nat, c: nat)
    requires a <= b <= c <= |s|
    ensures s[a..c] == s[a..b] + s[b..c]
  {
  }

  lemma Single(s: string, a: nat)
    requires a < |s|
    ensures s[a..a + 1] == [s[a]]
  {
  }

  lemma GroupReads(s: string, i: nat, j: nat, k: nat, close: nat, inner: Tree)
    requires i <= j < |s| && Blanks(s[i..j]) && s[j] == '(' && Reads(s, j + 1, Parsed(inner, k), 0)
    requires k <= close < |s| && Blanks(s[k..close]) && s[close] == ')'
    ensures Reads(s, i, Parsed(Group(s[i..j], inner, s[k..close]), close + 1), 2)
  {
    hide Blanks, Space, Text, Formed;
    Bracketed(s, i, j, k, close);
    GroupFormed(s[i..j], inner, s[k..close]);
  }

  lemma GroupFormed(gap: string, inner: Tree, close: string)
    requires Blanks(gap) && Blanks(close) && Formed(inner, 0)
    ensures Formed(Group(gap, inner, close), 2) && Text(Group(gap, inner, close)) == gap + "(" + Text(inner) + close + ")"
  {
  }

  lemma Bracketed(s: string, i: nat, j: nat, k: nat, close: nat)
    requires i <= j < k <= close < |s| && s[j] == '(' && s[close] == ')'
    ensures s[i..close + 1] == s[i..j] + "(" + s[j + 1..k] + s[k..close] + ")"
  {
    Adjoined(s, i, i, j, k);
    Cut(s, i, k, close);
    Cut(s, i, close, close + 1);
    Single(s, close);
    Cut(s, i, i, j);
    assert s[i..i] + s[i..j] == s[i..j];
  }

  lemma NumberReads(s: string, i: nat, j: nat, k: nat)
    requires i <= j < k <= |s| && Blanks(s[i..j]) && NumberEnd(s, j) == k && LocalizedNumber(s[j..k]).Some?
    ensures Reads(s, i, Parsed(Number(s[i..j], s[j..k]), k), 2)
  {
    hide NumberEnd, LocalizedNumber;
    NumberEndSlice(s, j, k);
    assert s[i..k] == s[i..j] + s[j..k];
  }

  lemma FormedWeaker(t: Tree, a: nat, b: nat)
    requires Formed(t, a) && b <= a
    ensures Formed(t, b)
  {
  }

  // ----- numbers inside a longer text -----

  lemma {:induction false} RunIs(s: string, i: nat, digitsOnly: bool, j: nat)
    requires i <= j <= |s|
    requires forall k :: i <= k < j ==> if digitsOnly then Digit(s[k]) else NumberChar(s[k])
    requires j < |s| ==> !(if digitsOnly then Digit(s[j]) else NumberChar(s[j]))
    ensures Run(s, i, digitsOnly) == j
    decreases j - i
  {
    if i < j {
      RunIs(s, i + 1, digitsOnly, j);
    }
  }

  /** A number found in a text is a number on its own. */
  lemma NumberEndSlice(s: string, j: nat, k: nat)
    requires j < k <= |s| && NumberEnd(s, j) == k
    ensures NumberEnd(s[j..k], 0) == k - j
  {
    hide Run;
    var text := s[j..k];
    if Digit(s[j]) {
      RunIs(text, 0, false, |text|);
    } else {
      RunIs(text, 1, true, |text|);
    }
  }

  /** A number ends where the next character cannot continue it. */
  lemma NumberEndAt(s: string, j: nat, k: nat)
    requires j < k <= |s| && NumberEnd(s[j..k], 0) == k - j
    requires k < |s| ==> !NumberChar(s[k])
    ensures NumberEnd(s, j) == k
  {
    hide Run;
    var text := s[j..k];
    if Digit(text[0]) {
      RunIs(s, j, false, k);
    } else {
      RunIs(s, j + 1, true, k);
    }
  }

  lemma {:induction false} SkipIs(s: string, i: nat, j: nat)
    requires i <= j <= |s| && Blanks(s[i..j]) && (j < |s| ==> !Space(s[j]))
    ensures SkipBlanks(s, i) == j
    decreases j - i
  {
    if i < j {
      assert Space(s[i..j][0]);
      var rest := s[i + 1..j];
      forall k | 0 <= k < |rest| ensures Space(rest[k]) {
        assert rest[k] == s[i..j][k + 1];
      }
      SkipIs(s, i + 1, j);
    }
  }

  // ----- reading what was written -----

  /** What follows at e does not continue a tree of this level. */
  ghost predicate Ends(s: string, e: nat, level: nat)
    requires e <= |s|
  {
    && (e < |s| ==> !NumberChar(s[e]))
    && (level <= 1 && SkipBlanks(s, e) < |s| ==> !Multiplicative(s[SkipBlanks(s, e)]))
    && (level == 0 && SkipBlanks(s, e) < |s| ==> !Additive(s[SkipBlanks(s, e)]))
  }

  ghost predicate At(s: string, i: nat, e: nat, t: Tree)
  {
    i < e <= |s| && s[i..e] == Text(t)
  }

  lemma {:induction false} TextNotEmpty(t: Tree, level: nat)
    requires Formed(t, level)
    ensures |Text(t)| > 0
  {
  }

  /** Where the parts of an operation stand. */
  lemma BinaryAt(s: string, i: nat, e: nat, t: Tree, level: nat) returns (a: nat, j: nat)
    requires t.Binary? && Formed(t, level) && At(s, i, e, t)
    ensures a <= j < |s| && s[a..j] == t.before && s[j] == t.operator && SkipBlanks(s, a) == j
    ensures At(s, i, a, t.left) && Ends(s, a, if Additive(t.operator) then 1 else 2) && At(s, j + 1, e, t.right)
    ensures if Additive(t.operator) then Formed(t.left, 0) && Formed(t.right, 1)
            else Multiplicative(t.operator) && Formed(t.left, 1) && Formed(t.right, 2)
  {
    var l, b, r := Text(t.left), t.before, Text(t.right);
    TextNotEmpty(t.left, if Additive(t.operator) then 0 else 1);
    TextNotEmpty(t.right, if Additive(t.operator) then 1 else 2);
    a := i + |l|;
    j := a + |b|;
    Sliced(s, i, e, l, b, [t.operator], r);
    SkipIs(s, a, j);
    if a < j {
      assert Space(b[0]) && s[a] == b[0];
    }
  }

  lemma Sliced(s: string, i: nat, e: nat, a: string, b: string, c: string, d: string)
    requires i <= e <= |s| && s[i..e] == a + b + c + d
    ensures var x, y, z := i + |a|, i + |a| + |b|, i + |a| + |b| + |c|;
            s[i..x] == a && s[x..y] == b && s[y..z] == c && s[z..e] == d
  {
    var x, y, z := |a|, |a| + |b|, |a| + |b| + |c|;
    Parts(a, b, c, d);
    SubSlice(s, i, e, 0, x);
    SubSlice(s, i, e, x, y);
    SubSlice(s, i, e, y, z);
    SubSlice(s, i, e, z, |a + b + c + d|);
  }

  lemma Parts(a: string, b: string, c: string, d: string)
    ensures var w, x, y, z := a + b + c + d, |a|, |a| + |b|, |a| + |b| + |c|;
            w[0..x] == a && w[x..y] == b && w[y..z] == c && w[z..|w|] == d
  {
  }

  lemma SubSlice(s: string, i: nat, e: nat, p: nat, q: nat)
    requires i <= e <= |s| && p <= q <= e - i
    ensures s[i..e][p..q] == s[i + p..i + q]
  {
    var u, v := s[i..e][p..q], s[i + p..i + q];
    forall m | 0 <= m < q - p ensures u[m] == v[m] {
      assert u[m] == s[i..e][p + m] == s[i + p + m];
    }
  }

  lemma {:induction false} ExpressionRead(s: string, i: nat, e: nat, t: Tree)
    requires Formed(t, 0) && e <= |s| && At(s, i, e, t) && Ends(s, e, 1)
    ensures ParseExpression(s, i) == Sum(s, i, e, t)
    decreases t, 2
  {
    hide *;
    BelowExpressions(t);
    EndsAlso(s, e);
    if t.Binary? && Additive(t.operator) {
      var a, j := BinaryAt(s, i, e, t, 0);
      ExpressionRead(s, i, a, t.left);
      TermRead(s, j + 1, e, t.right);
      ProductEnds(s, j + 1, e, t.right);
      SumStep(s, i, a, j, e, t);
    } else {
      TermRead(s, i, e, t);
      ProductEnds(s, i, e, t);
      SumStart(s, i, e, t);
    }
  }

  lemma SumStart(s: string, i: nat, e: nat, t: Tree)
    requires At(s, i, e, t) && Formed(t, 1) && ParseTerm(s, i) == Parsed(t, e)
    ensures Formed(t, 0) && ParseExpression(s, i) == Sum(s, i, e, t)
  {
    hide ParseTerm, Sum;
  }

  lemma SumStep(s: string, i: nat, a: nat, j: nat, e: nat, t: Tree)
    requires t.Binary? && Additive(t.operator) && At(s, i, a, t.left) && Formed(t.left, 0) && At(s, i, e, t) && Formed(t, 0)
    requires a <= j < |s| && SkipBlanks(s, a) == j && s[a..j] == t.before && s[j] == t.operator
    requires ParseTerm(s, j + 1) == Parsed(t.right, e)
    ensures Sum(s, i, a, t.left) == Sum(s, i, e, t)
  {
    hide ParseTerm, ParseExpression, Product, Text, Formed;
  }

  lemma ProductStart(s: string, i: nat, e: nat, t: Tree)
    requires At(s, i, e, t) && Formed(t, 2) && ParseUnary(s, i) == Parsed(t, e)
    ensures Formed(t, 1) && ParseTerm(s, i) == Product(s, i, e, t)
  {
    hide ParseUnary, Product;
  }

  lemma ProductStep(s: string, i: nat, a: nat, j: nat, e: nat, t: Tree)
    requires t.Binary? && Multiplicative(t.operator) && At(s, i, a, t.left) && Formed(t.left, 1) && At(s, i, e, t) && Formed(t, 1)
    requires a <= j < |s| && SkipBlanks(s, a) == j && s[a..j] == t.before && s[j] == t.operator
    requires ParseUnary(s, j + 1) == Parsed(t.right, e)
    ensures Product(s, i, a, t.left) == Product(s, i, e, t)
  {
    hide ParseUnary, ParseTerm, ParseExpression, Sum, Text, Formed;
  }

  lemma ProductEnds(s: string, i: nat, e: nat, t: Tree)
    requires Formed(t, 1) && At(s, i, e, t) && Ends(s, e, 1)
    ensures Product(s, i, e, t) == Parsed(t, e)
  {
  }

  lemma SumEnds(s: string, i: nat, e: nat, t: Tree)
    requires Formed(t, 0) && At(s, i, e, t) && Ends(s, e, 0)
    ensures Sum(s, i, e, t) == Parsed(t, e)
  {
  }

  lemma EndsAlso(s: string, e: nat)
    requires e <= |s| && Ends(s, e, 1)
    ensures Ends(s, e, 2)
  {
  }

  lemma BelowExpressions(t: Tree)
    requires Formed(t, 0)
    ensures !(t.Binary? && Additive(t.operator)) ==> Formed(t, 1)
  {
  }

  lemma BelowSums(t: Tree)
    requires Formed(t, 1)
    ensures if t.Binary? then !Additive(t.operator) else Formed(t, 2)
  {
  }

  lemma {:induction false} TermRead(s: string, i: nat, e: nat, t: Tree)
    requires Formed(t, 1) && At(s, i, e, t) && Ends(s, e, 2)
    ensures ParseTerm(s, i) == Product(s, i, e, t)
    decreases t, 1
  {
    hide *;
    BelowSums(t);
    if t.Binary? {
      var a, j := BinaryAt(s, i, e, t, 1);
      TermRead(s, i, a, t.left);
      UnaryRead(s, j + 1, e, t.right);
      ProductStep(s, i, a, j, e, t);
    } else {
      UnaryRead(s, i, e, t);
      ProductStart(s, i, e, t);
    }
  }

  lemma {:induction false} UnaryRead(s: string, i: nat, e: nat, t: Tree)
    requires Formed(t, 2) && At(s, i, e, t) && Ends(s, e, 2)
    ensures ParseUnary(s, i) == Parsed(t, e)
    decreases t, 0
  {
    hide ParseTerm, Sum, Product, SkipBlanks, ParseExpression, ParseUnary, ParsePrimary, Text, Formed, Reads, Ends;
    NotBinary(t);
    match t {
      case Signed(gap, sign, operand) =>
        var j := SignedAt(s, i, e, t);
        UnaryRead(s, j + 1, e, operand);
        SignedParsed(s, i, e, t, j);
      case Group(gap, inner, close) =>
        GroupRead(s, i, e, t);
      case Number(gap, text) =>
        NumberRead(s, i, e, t);
    }
  }

  lemma NotBinary(t: Tree)
    requires Formed(t, 2)
    ensures !t.Binary?
  {
  }

  /** Where the parts of a signed tree stand. */
  lemma SignedAt(s: string, i: nat, e: nat, t: Tree) returns (j: nat)
    requires t.Signed? && Formed(t, 2) && At(s, i, e, t)
    ensures i <= j < e <= |s| && SkipBlanks(s, i) == j && s[j] == t.sign && Additive(t.sign)
    ensures s[i..j] == t.gap && At(s, j + 1, e, t.operand) && Formed(t.operand, 2)
  {
    hide SkipBlanks, Space, Blanks;
    j := i + |t.gap|;
    TextNotEmpty(t.operand, 2);
    Sliced(s, i, e, t.gap, [t.sign], "", Text(t.operand));
    Single(s, j);
    SignChars(t.sign);
    SkipIs(s, i, j);
  }

  lemma SignChars(c: char)
    requires Additive(c)
    ensures !Space(c)
  {
  }

  lemma SignedParsed(s: string, i: nat, e: nat, t: Tree, j: nat)
    requires t.Signed? && i <= j < e <= |s| && SkipBlanks(s, i) == j && s[j] == t.sign && Additive(t.sign)
    requires s[i..j] == t.gap && ParseUnary(s, j + 1) == Parsed(t.operand, e)
    ensures ParseUnary(s, i) == Parsed(t, e)
  {
    hide ParseTerm, Sum, Product, SkipBlanks, ParseExpression, ParsePrimary, Text, Formed, Reads;
  }

  lemma {:induction false} GroupRead(s: string, i: nat, e: nat, t: Tree)
    requires t.Group? && Formed(t, 2) && At(s, i, e, t)
    ensures ParseUnary(s, i) == ParsePrimary(s, i) == Parsed(t, e)
    decreases t.inner, 3
  {
    hide ParseTerm, Sum, Product, SkipBlanks, ParseExpression, ParseUnary, ParsePrimary, Text, Formed, Reads;
    var j, k := GroupAt(s, i, e, t);
    ExpressionRead(s, j + 1, k, t.inner);
    SumEnds(s, j + 1, k, t.inner);
    GroupParsed(s, i, e, t, j, k);
  }

  lemma GroupParsed(s: string, i: nat, e: nat, t: Tree, j: nat, k: nat)
    requires t.Group? && i <= j < k < e <= |s| && SkipBlanks(s, i) == j && s[j] == '(' && SkipBlanks(s, k) == e - 1 && s[e - 1] == ')'
    requires s[i..j] == t.gap && s[k..e - 1] == t.close && ParseExpression(s, j + 1) == Parsed(t.inner, k)
    ensures ParseUnary(s, i) == ParsePrimary(s, i) == Parsed(t, e)
  {
    hide ParseTerm, Sum, Product, SkipBlanks, ParseExpression, Text, Formed, Reads;
  }

  lemma BracketChars()
    ensures !Space('(') && !Space(')') && !NumberChar(')') && !Additive(')') && !Multiplicative(')')
  {
  }

  lemma NumberStart(text: string)
    requires NumberText(text)
    ensures text != "" && !Space(text[0]) && !Additive(text[0]) && text[0] != '('
  {
  }

  /** Where the parts of a bracketed tree stand. */
  lemma GroupAt(s: string, i: nat, e: nat, t: Tree) returns (j: nat, k: nat)
    requires t.Group? && Formed(t, 2) && At(s, i, e, t)
    ensures i <= j < k < e <= |s| && SkipBlanks(s, i) == j && s[j] == '(' && SkipBlanks(s, k) == e - 1 && s[e - 1] == ')'
    ensures s[i..j] == t.gap && s[k..e - 1] == t.close && At(s, j + 1, k, t.inner) && Ends(s, k, 0) && Formed(t.inner, 0)
  {
    hide SkipBlanks, Space, NumberChar, Blanks;
    BracketChars();
    var gap, inner, close := t.gap, Text(t.inner), t.close;
    j, k := i + |gap|, i + |gap| + 1 + |inner|;
    TextNotEmpty(t.inner, 0);
    assert gap + "(" + inner + close + ")" == gap + "(" + inner + (close + ")");
    Sliced(s, i, e, gap, "(", inner, close + ")");
    Sliced(s, k, e, close, ")", "", "");
    Single(s, j);
    Single(s, e - 1);
    SkipIs(s, i, j);
    SkipIs(s, k, e - 1);
    assert !NumberChar(s[k]) by {
      if k < e - 1 {
        BlankStart(close);
        assert s[k..e - 1][0] == s[k];
      }
    }
  }

  lemma NumberRead(s: string, i: nat, e: nat, t: Tree)
    requires t.Number? && Formed(t, 2) && At(s, i, e, t) && Ends(s, e, 2)
    ensures ParseUnary(s, i) == ParsePrimary(s, i) == Parsed(t, e)
  {
    hide ParseTerm, Sum, Product, SkipBlanks, ParseExpression, LocalizedNumber, NumberEnd;
    var j := i + |t.gap|;
    assert s[i..e][..|t.gap|] == t.gap && s[i..e][|t.gap|..] == t.text;
    assert s[i..j] == t.gap && s[j..e] == t.text;
    assert s[j] == t.text[0];
    NumberStart(t.text);
    SkipIs(s, i, j);
    NumberEndAt(s, j, e);
  }

  // ----- whole formulas -----

  function FormulaTree(s: string): Option<Tree>
  {
    match ParseExpression(s, 0)
    case Failed => Decimals.None
    case Parsed(t, e) => if SkipBlanks(s, e) == |s| then Decimals.Some(t) else Decimals.None
  }

  /** The value of a formula of at most 256 characters. */
  function ParseFormula(value: string): Option<real>
  {
    if |value| > 256 then Decimals.None
    else
      match FormulaTree(value)
      case None => Decimals.None
      case Some(t) => Worth(t)
  }

  function ParseAmount(value: string): Option<real>
  {
    var text := Trim(value);
    if text != "" && text[0] == '=' then ParseFormula(text[1..]) else LocalizedNumber(text)
  }

  /** A text is read as t exactly when it is t written down, with blanks after it. */
  lemma FormulasRead(s: string, t: Tree)
    ensures FormulaTree(s) == Decimals.Some(t) <==>
            Formed(t, 0) && Text(t) <= s && Blanks(s[|Text(t)|..])
  {
    hide FormulaTree, Formed, Text, Blanks;
    if Formed(t, 0) && Text(t) <= s && Blanks(s[|Text(t)|..]) {
      FormulaAccepted(s, t);
    }
    if FormulaTree(s) == Decimals.Some(t) {
      FormulaSound(s, t);
    }
  }

  lemma FormulaAccepted(s: string, t: Tree)
    requires Formed(t, 0) && Text(t) <= s && Blanks(s[|Text(t)|..])
    ensures FormulaTree(s) == Decimals.Some(t)
  {
    hide Text, ParseExpression, Sum, Formed, NumberChar, Reads;
    var e := |Text(t)|;
    TextNotEmpty(t, 0);
    assert s[0..e] == Text(t) && s[e..|s|] == s[e..];
    SkipIs(s, e, |s|);
    assert e < |s| ==> !NumberChar(s[e]) by {
      if e < |s| {
        BlankStart(s[e..]);
      }
    }
    ExpressionRead(s, 0, e, t);
    SumEnds(s, 0, e, t);
  }

  lemma BlankStart(s: string)
    requires s != "" && Blanks(s)
    ensures !NumberChar(s[0])
  {
    assert Space(s[0]);
  }

  lemma FormulaSound(s: string, t: Tree)
    requires FormulaTree(s) == Decimals.Some(t)
    ensures Formed(t, 0) && Text(t) <= s && Blanks(s[|Text(t)|..])
  {
    hide Text, ParseExpression, Formed, Blanks;
    var e := ParseExpression(s, 0).end;
    assert s[0..e] == s[..e] && s[e..|s|] == s[e..];
  }

  // ----- expressions with as few brackets as possible -----

  datatype Expression =
    | Literal(text: string)
    | Sign(sign: char, operand: Expression)
    | Operation(operator: char, left: Expression, right: Expression)

  predicate Sensible(e: Expression)
  {
    match e
    case Literal(text) => NumberText(text)
    case Sign(sign, operand) => Additive(sign) && Sensible(operand)
    case Operation(operator, left, right) => (Additive(operator) || Multiplicative(operator)) && Sensible(left) && Sensible(right)
  }

  function Result(e: Expression): Option<real>
  {
    match e
    case Literal(text) => LocalizedNumber(text)
    case Sign(sign, operand) => if sign == '-' then Negative(Result(operand)) else Result(operand)
    case Operation(operator, left, right) => Combined(operator, Result(left), Result(right))
  }

  /** Brackets only where precedence or association would read the text differently. */
  function Written(e: Expression, level: nat): Tree
  {
    match e
    case Literal(text) => Number("", text)
    case Sign(sign, operand) => Signed("", sign, Written(operand, 2))
    case Operation(operator, left, right) =>
      var own := if Additive(operator) then 0 else 1;
      var t := Binary(Written(left, own), "", operator, Written(right, own + 1));
      if level <= own then t else Group("", t, "")
  }

  lemma {:induction false} WrittenFormed(e: Expression, level: nat)
    requires Sensible(e) && level <= 2
    ensures Formed(Written(e, level), level) && Worth(Written(e, level)) == Result(e)
    decreases e
  {
    hide NumberText, LocalizedNumber;
    match e
    case Literal(text) =>
    case Sign(sign, operand) =>
      WrittenFormed(operand, 2);
    case Operation(operator, left, right) =>
      var own := if Additive(operator) then 0 else 1;
      WrittenFormed(left, own);
      WrittenFormed(right, own + 1);
  }

  /** Writing an expression and reading it as a formula gives its result, and none
      exactly when it divides by zero. */
  lemma WrittenRead(e: Expression)
    requires Sensible(e) && |Text(Written(e, 0))| <= 256
    ensures ParseFormula(Text(Written(e, 0))) == Result(e)
  {
    hide Formed, Worth, Result, Written, Text;
    WrittenFormed(e, 0);
    FormulasRead(Text(Written(e, 0)), Written(e, 0));
  }

  // ----- either separator -----

  function SwapTree(t: Tree): Tree
  {
    match t
    case Number(gap, text) => Number(gap, Swap(text))
    case Group(gap, inner, close) => Group(gap, SwapTree(inner), close)
    case Signed(gap, sign, operand) => Signed(gap, sign, SwapTree(operand))
    case Binary(left, before, operator, right) => Binary(SwapTree(left), before, operator, SwapTree(right))
  }

  lemma SwapConcat(a: string, b: string)
    ensures Swap(a + b) == Swap(a) + Swap(b)
  {
  }

  lemma SwapBlanks(s: string)
    requires Blanks(s)
    ensures Swap(s) == s
  {
    forall i | 0 <= i < |s| ensures SwapChar(s[i]) == s[i] {
      assert Space(s[i]);
    }
  }

  lemma SwapNumberText(text: string)
    requires NumberText(text)
    ensures NumberText(Swap(text))
  {
    hide Run, LocalizedNumber, Swap;
    var n, other := |text|, Swap(text);
    SwapNumber(text);
    if Digit(text[0]) {
      RunIs(other, 0, false, n);
    } else {
      RunIs(other, 1, true, n);
    }
  }

  lemma {:induction false} SwapTreeText(t: Tree, level: nat)
    requires Formed(t, level)
    ensures Text(SwapTree(t)) == Swap(Text(t)) && Formed(SwapTree(t), level) && Worth(SwapTree(t)) == Worth(t)
    decreases t
  {
    hide NumberText, LocalizedNumber, Swap, Space;
    match t
    case Number(gap, text) =>
      SwapConcat(gap, text);
      SwapBlanks(gap);
      SwapNumberText(text);
      SwapNumber(text);
    case Group(gap, inner, close) =>
      SwapTreeText(inner, 0);
      SwapConcat(gap + "(" + Text(inner) + close, ")");
      SwapConcat(gap + "(" + Text(inner), close);
      SwapConcat(gap + "(", Text(inner));
      SwapConcat(gap, "(");
      SwapBlanks(gap);
      SwapBlanks(close);
      assert Swap("(") == "(" && Swap(")") == ")";
    case Signed(gap, sign, operand) =>
      SwapTreeText(operand, 2);
      SwapConcat(gap + [sign], Text(operand));
      SwapConcat(gap, [sign]);
      SwapBlanks(gap);
      assert Swap([sign]) == [sign];
    case Binary(left, before, operator, right) =>
      SwapTreeText(left, if Additive(operator) then 0 else 1);
      SwapTreeText(right, if Additive(operator) then 1 else 2);
      SwapConcat(Text(left) + before + [operator], Text(right));
      SwapConcat(Text(left) + before, [operator]);
      SwapConcat(Text(left), before);
      SwapBlanks(before);
      assert Swap([operator]) == [operator];
  }

  lemma SwapTwice(s: string)
    ensures Swap(Swap(s)) == s
  {
  }

  lemma SwapFormulaTree(s: string)
    requires FormulaTree(s).Some?
    ensures FormulaTree(Swap(s)) == Decimals.Some(SwapTree(FormulaTree(s).value))
    ensures Worth(SwapTree(FormulaTree(s).value)) == Worth(FormulaTree(s).value)
  {
    hide FormulaTree, Text, Formed, Worth, Swap, Space;
    var t := FormulaTree(s).value;
    FormulasRead(s, t);
    SwapTreeText(t, 0);
    var n := |Text(t)|;
    SwapSlice(s, n, |s|);
    SwapSlice(s, 0, n);
    SwapBlanks(s[n..]);
    FormulasRead(Swap(s), SwapTree(t));
  }

  /** Exchanging all points and commas never changes what is entered. */
  lemma SwapAmount(value: string)
    ensures ParseAmount(Swap(value)) == ParseAmount(value)
  {
    hide FormulaTree, LocalizedNumber, Worth, Trim;
    SwapTrim(value);
    var text := Trim(value);
    if text != "" && text[0] == '=' {
      var s := text[1..];
      SwapSlice(text, 1, |text|);
      if FormulaTree(s).Some? {
        SwapFormulaTree(s);
      } else if FormulaTree(Swap(s)).Some? {
        SwapFormulaTree(Swap(s));
        SwapTwice(s);
      }
    } else {
      SwapNumber(text);
    }
  }
}
