/** Which texts are amounts, and of what worth: the written forms, each read as it stands. */
module AmountForms {
  import opened Numerals
  import opened AmountText
  import Decimals

  /** Digits after a grouping mark. */
  datatype Group = Group(mark: char, digits: string)

  /** An amount without sign: digits, perhaps in groups, a decimal mark and a fraction. */
  datatype Amount = Amount(head: string, groups: seq<Group>, point: string, fraction: string)

  function Spell(head: string, groups: seq<Group>): string
    decreases |groups|
  {
    if groups == [] then head else head + [groups[0].mark] + Spell(groups[0].digits, groups[1..])
  }

  /** All digits without the marks. */
  function Together(head: string, groups: seq<Group>): string
    decreases |groups|
  {
    if groups == [] then head else head + Together(groups[0].digits, groups[1..])
  }

  function Written(n: Amount): string { Spell(n.head, n.groups) + n.point + n.fraction }

  predicate Marked(groups: seq<Group>, marks: string) { forall i :: 0 <= i < |groups| ==> groups[i].mark in marks }

  predicate InDigits(head: string, groups: seq<Group>)
  {
    AllDigits(head) && forall i :: 0 <= i < |groups| ==> AllDigits(groups[i].digits)
  }

  /** One to three digits, then groups of three. */
  predicate InThrees(head: string, groups: seq<Group>)
  {
    1 <= |head| <= 3 && forall i :: 0 <= i < |groups| ==> |groups[i].digits| == 3
  }

  /** The forms that are amounts. Ungrouped digits may have either decimal mark, and need a
      digit on one side of it. Points group before a decimal comma and commas before a decimal
      point; without a fraction a mark groups only when it is repeated. Spaces group alone or
      before either decimal mark. */
  predicate Proper(n: Amount)
  {
    && InDigits(n.head, n.groups) && AllDigits(n.fraction)
    && n.point in ["", ".", ","] && (n.point == "" ==> n.fraction == "")
    && if n.groups == [] then n.head + n.fraction != ""
       else
         && InThrees(n.head, n.groups)
         && (|| (n.point == "" && |n.groups| >= 2 && (Marked(n.groups, ".") || Marked(n.groups, ",")))
             || (n.fraction != "" && ((n.point == "." && Marked(n.groups, ",")) || (n.point == "," && Marked(n.groups, "."))))
             || (Marked(n.groups, [' ', 0xA0 as char, 0x202F as char]) && (n.point == "" || n.fraction != "")))
  }

  lemma {:induction false} TogetherDigits(head: string, groups: seq<Group>)
    requires InDigits(head, groups)
    ensures AllDigits(Together(head, groups))
    decreases |groups|
  {
    if groups != [] {
      TogetherDigits(groups[0].digits, groups[1..]);
    }
  }

  function Worth(n: Amount): real
    requires InDigits(n.head, n.groups) && AllDigits(n.fraction)
  {
    TogetherDigits(n.head, n.groups);
    ValueOf(Together(n.head, n.groups) + n.fraction) as real / Pow10(|n.fraction|) as real
  }

  // ----- splitting at marks -----

  function Parts(head: string, groups: seq<Group>): seq<string>
    decreases |groups|
  {
    if groups == [] then [head] else [head] + Parts(groups[0].digits, groups[1..])
  }

  predicate Free(s: string, cs: string) { forall i :: 0 <= i < |s| ==> s[i] !in cs }

  predicate AllFree(head: string, groups: seq<Group>, cs: string)
  {
    Free(head, cs) && forall i :: 0 <= i < |groups| ==> Free(groups[i].digits, cs)
  }

  lemma {:induction false} PartsAre(head: string, groups: seq<Group>)
    ensures |Parts(head, groups)| == |groups| + 1 && Parts(head, groups)[0] == head
    ensures forall i :: 0 <= i < |groups| ==> Parts(head, groups)[i + 1] == groups[i].digits
    ensures Join(Parts(head, groups)) == Together(head, groups)
    decreases |groups|
  {
    if groups != [] {
      PartsAre(groups[0].digits, groups[1..]);
      var parts := Parts(head, groups);
      assert parts[1..] == Parts(groups[0].digits, groups[1..]);
    } else {
      assert [head][1..] == [];
      assert head + "" == head;
    }
  }

  lemma {:induction false} SplitSpell(head: string, groups: seq<Group>, cs: string)
    requires Marked(groups, cs) && AllFree(head, groups, cs)
    ensures Split(Spell(head, groups), cs) == Parts(head, groups)
    decreases |groups|
  {
    hide Decimals.Find;
    var s := Spell(head, groups);
    Decimals.FindFirst(s, cs, |head|);
    if groups != [] {
      assert s[|head| + 1..] == Spell(groups[0].digits, groups[1..]);
      assert s[..|head|] == head;
      SplitSpell(groups[0].digits, groups[1..], cs);
    }
  }

  lemma {:induction false} SpellSplit(s: string, cs: string) returns (head: string, groups: seq<Group>)
    ensures s == Spell(head, groups) && Marked(groups, cs) && AllFree(head, groups, cs) && Parts(head, groups) == Split(s, cs)
    decreases |s|
  {
    hide Decimals.Find;
    var i := Decimals.Find(s, cs);
    if i == |s| {
      head, groups := s, [];
    } else {
      var head', groups' := SpellSplit(s[i + 1..], cs);
      head, groups := s[..i], [Group(s[i], head')] + groups';
      assert groups[1..] == groups';
      assert s == s[..i] + [s[i]] + s[i + 1..];
    }
  }

  /** What is written in groups consists of digits and marks. */
  lemma {:induction false} SpellChars(head: string, groups: seq<Group>, marks: string)
    requires InDigits(head, groups) && Marked(groups, marks)
    ensures forall i :: 0 <= i < |Spell(head, groups)| ==> Digit(Spell(head, groups)[i]) || Spell(head, groups)[i] in marks
    ensures groups != [] ==> exists i :: 0 <= i < |Spell(head, groups)| && Spell(head, groups)[i] == groups[0].mark
    decreases |groups|
  {
    if groups != [] {
      SpellChars(groups[0].digits, groups[1..], marks);
      assert Spell(head, groups)[|head|] == groups[0].mark;
    }
  }

  lemma DigitsFree(head: string, groups: seq<Group>, cs: string)
    requires InDigits(head, groups) && forall c :: c in cs ==> !Digit(c)
    ensures AllFree(head, groups, cs)
  {
  }

  lemma GroupedIs(head: string, groups: seq<Group>)
    ensures Grouped(Parts(head, groups)) <==> InDigits(head, groups) && InThrees(head, groups)
  {
    PartsAre(head, groups);
    var parts := Parts(head, groups);
    if Grouped(parts) {
      forall i | 0 <= i < |groups| ensures AllDigits(groups[i].digits) && |groups[i].digits| == 3 {
        assert parts[i + 1] == groups[i].digits;
      }
    }
    if InDigits(head, groups) && InThrees(head, groups) {
      forall i | 1 <= i < |parts| ensures AllDigits(parts[i]) && |parts[i]| == 3 {
        assert parts[i - 1 + 1] == groups[i - 1].digits;
      }
    }
  }

  lemma {:induction false} LastIndexIs(s: string, c: char, i: nat)
    requires i < |s| && s[i] == c && forall k :: i < k < |s| ==> s[k] != c
    ensures LastIndex(s, c) == i
  {
    if i < |s| - 1 {
      LastIndexIs(s[..|s| - 1], c, i);
    }
  }

  lemma {:induction false} LastIndexMeans(s: string, c: char)
    ensures var i := LastIndex(s, c);
            (i >= 0 ==> s[i] == c) && forall k :: i < k < |s| ==> s[k] != c
  {
    if s != "" && s[|s| - 1] != c {
      LastIndexMeans(s[..|s| - 1], c);
    }
  }

  // ----- every form is read -----

  /** The digits with a point where the decimal mark was. */
  function Plainly(n: Amount): string
  {
    Together(n.head, n.groups) + if n.point == "" then "" else "." + n.fraction
  }

  function NumberOf(text: string): Option<real>
  {
    match Plain(text) case None => Decimals.None case Some(plain) => PlainNumber(plain)
  }

  lemma PlainlyRead(n: Amount)
    requires InDigits(n.head, n.groups) && AllDigits(n.fraction) && (n.point == "" ==> n.fraction == "")
    requires Together(n.head, n.groups) + n.fraction != ""
    ensures PlainNumber(Plainly(n)) == Decimals.Some(Worth(n))
  {
    hide Decimals.Find, ValueOf, Pow10;
    TogetherDigits(n.head, n.groups);
    var digits, s := Together(n.head, n.groups), Plainly(n);
    Decimals.FindFirst(s, ".", |digits|);
    if n.point == "" {
      assert s == digits && s[..|digits|] == digits;
    } else {
      assert s[..|digits|] == digits && s[|digits| + 1..] == n.fraction;
    }
  }

  lemma NothingSpaced(s: string)
    requires forall i :: 0 <= i < |s| ==> Digit(s[i]) || s[i] in ".,"
    ensures !HasSpace(s)
  {
  }

  /** At most one decimal mark among digits. */
  lemma UngroupedForm(n: Amount)
    requires Proper(n) && n.groups == []
    ensures Plain(Written(n)) == Decimals.Some(Plainly(n))
  {
    hide Decimals.Find, LastIndex, Split, HasSpace, Grouped, DecimalComma;
    var text, w := Written(n), n.head;
    assert text == w + n.point + n.fraction;
    assert forall i :: 0 <= i < |text| ==> Digit(text[i]) || (i == |w| && n.point == [text[i]]);
    LastIndexMeans(text, '.');
    LastIndexMeans(text, ',');
    NothingSpaced(text);
    CommaGone(n, w);
    if n.point == "" {
      SplitFree(text, ",");
    } else {
      assert n.point == [text[|w|]];
      LastIndexIs(text, text[|w|], |w|);
      SplitOnce(text, n.point, |w|);
    }
  }

  lemma SplitFree(s: string, cs: string)
    requires Free(s, cs)
    ensures Split(s, cs) == [s]
  {
    hide Decimals.Find;
    Decimals.FindFirst(s, cs, |s|);
  }

  /** Groups by one mark, and the other one decimal. */
  lemma GroupedWithFraction(n: Amount, mark: char, point: char)
    requires Proper(n) && n.groups != [] && n.fraction != "" && n.point == [point] && Marked(n.groups, [mark])
    requires (mark == ',' && point == '.') || (mark == '.' && point == ',')
    ensures Plain(Written(n)) == Decimals.Some(Plainly(n))
  {
    hide Decimals.Find, LastIndex, Split, HasSpace, Grouped, Spell, Together, Parts;
    var text, w := Written(n), Spell(n.head, n.groups);
    assert text == w + [point] + n.fraction;
    SpellChars(n.head, n.groups, [mark]);
    assert text[|w|] == point;
    LastIndexIs(text, point, |w|);
    LastIndexMeans(text, mark);
    var k :| 0 <= k < |w| && w[k] == n.groups[0].mark;
    assert text[k] == mark;
    SplitOnce(text, [point], |w|);
    assert text[..|w|] == w && text[|w| + 1..] == n.fraction;
    DigitsFree(n.head, n.groups, [mark]);
    SplitSpell(n.head, n.groups, [mark]);
    GroupedIs(n.head, n.groups);
    PartsAre(n.head, n.groups);
    assert [point] == (if point == '.' then "." else ",") && [mark] == (if mark == '.' then "." else ",");
    assert Plainly(n) == Together(n.head, n.groups) + "." + n.fraction;
  }

  lemma GroupedOnly(n: Amount, mark: char)
    requires Proper(n) && |n.groups| >= 2 && n.point == "" && Marked(n.groups, [mark]) && (mark == ',' || mark == '.')
    ensures Plain(Written(n)) == Decimals.Some(Plainly(n))
  {
    hide Decimals.Find, LastIndex, Split, HasSpace, Grouped, Spell, Together, Parts;
    var text := Written(n);
    assert text == Spell(n.head, n.groups);
    SpellChars(n.head, n.groups, [mark]);
    LastIndexMeans(text, '.');
    LastIndexMeans(text, ',');
    DigitsFree(n.head, n.groups, [mark]);
    SplitSpell(n.head, n.groups, [mark]);
    GroupedIs(n.head, n.groups);
    PartsAre(n.head, n.groups);
    assert Plainly(n) == Together(n.head, n.groups);
  }

  /** Groups by spaces, alone or before either decimal mark. */
  lemma GroupedBySpaces(n: Amount)
    requires Proper(n) && n.groups != [] && Marked(n.groups, GROUP_SPACES) && (n.point == "" || n.fraction != "")
    ensures Plain(Written(n)) == Decimals.Some(Plainly(n))
  {
    hide Decimals.Find, LastIndex, Split, HasSpace, Grouped, Spell, Together, Parts, Ungrouped, DecimalComma;
    var text, w := Written(n), Spell(n.head, n.groups);
    assert text == w + n.point + n.fraction;
    SpellChars(n.head, n.groups, GROUP_SPACES);
    var k :| 0 <= k < |w| && w[k] == n.groups[0].mark;
    assert text[k] in GROUP_SPACES;
    SpacesAreSpace(text, k);
    LastIndexMeans(text, '.');
    LastIndexMeans(text, ',');
    if n.point == "" {
      assert text == w;
      SplitFree(text, ",");
    } else {
      assert text[|w|] == n.point[0];
      LastIndexIs(text, n.point[0], |w|);
      SplitOnce(text, n.point, |w|);
    }
    CommaGone(n, w);
    UngroupedIs(n, w);
  }

  lemma SpacesAreSpace(text: string, k: nat)
    requires k < |text| && text[k] in GROUP_SPACES
    ensures HasSpace(text)
  {
    assert Space(text[k]);
  }

  lemma CommaGone(n: Amount, w: string)
    requires n.point in ["", ".", ","] && (n.point == "" ==> n.fraction == "") && AllDigits(n.fraction)
    requires forall i :: 0 <= i < |w| ==> w[i] != ','
    ensures DecimalComma(w + n.point + n.fraction) == w + if n.point == "" then "" else "." + n.fraction
  {
    hide Decimals.Find;
    var text := w + n.point + n.fraction;
    if n.point == "," {
      Decimals.FindFirst(text, ",", |w|);
      assert text[..|w|] == w && text[|w| + 1..] == n.fraction;
    } else {
      Decimals.FindFirst(text, ",", |text|);
      assert n.point == "" ==> text == w;
    }
  }

  lemma UngroupedIs(n: Amount, w: string)
    requires Proper(n) && n.groups != [] && Marked(n.groups, GROUP_SPACES) && w == Spell(n.head, n.groups) && (n.point == "" || n.fraction != "")
    ensures Ungrouped(w + if n.point == "" then "" else "." + n.fraction) == Decimals.Some(Plainly(n))
  {
    hide Decimals.Find, Split, Grouped, Spell, Together, Parts;
    var s := w + if n.point == "" then "" else "." + n.fraction;
    SpellChars(n.head, n.groups, GROUP_SPACES);
    Decimals.FindFirst(s, ".", |w|);
    assert s[..|w|] == w;
    DigitsFree(n.head, n.groups, GROUP_SPACES);
    SplitSpell(n.head, n.groups, GROUP_SPACES);
    GroupedIs(n.head, n.groups);
    PartsAre(n.head, n.groups);
    if n.point != "" {
      assert s[|w| + 1..] == n.fraction && s[|w|..] == "." + n.fraction;
    } else {
      assert s == w;
      assert Plainly(n) == Together(n.head, n.groups);
    }
  }

  lemma TogetherHead(head: string, groups: seq<Group>)
    ensures |Together(head, groups)| >= |head|
  {
  }

  /** Every proper form is read, at its worth. */
  lemma FormRead(n: Amount)
    requires Proper(n)
    ensures NumberOf(Written(n)) == Decimals.Some(Worth(n))
  {
    hide Plain, PlainNumber, Written, Plainly, Worth, Together;
    TogetherHead(n.head, n.groups);
    TogetherOnly(n.head);
    PlainlyRead(n);
    if n.groups == [] {
      UngroupedForm(n);
    } else if n.fraction != "" && n.point == "." && Marked(n.groups, ",") {
      GroupedWithFraction(n, ',', '.');
    } else if n.fraction != "" && n.point == "," && Marked(n.groups, ".") {
      GroupedWithFraction(n, '.', ',');
    } else if n.point == "" && |n.groups| >= 2 && Marked(n.groups, ".") {
      GroupedOnly(n, '.');
    } else if n.point == "" && |n.groups| >= 2 && Marked(n.groups, ",") {
      GroupedOnly(n, ',');
    } else {
      GroupedBySpaces(n);
    }
  }

  lemma TogetherOnly(head: string)
    ensures Together(head, []) == head
  {
  }

  // ----- nothing else is read -----

  /** A text with points or commas, not both, before and after its comma became a point. */
  lemma CommaBack(text: string)
    requires '.' !in text || ',' !in text
    ensures var plain := DecimalComma(text);
            var p := Decimals.Find(plain, ".");
            if p == |plain| then text == plain
            else text == plain[..p] + "." + plain[p + 1..] || text == plain[..p] + "," + plain[p + 1..]
  {
    hide Decimals.Find;
    var i, plain := Decimals.Find(text, ","), DecimalComma(text);
    if i < |text| {
      forall k | 0 <= k < i ensures plain[k] != '.' {
        assert plain[k] == text[k] && text[k] in text;
      }
      Decimals.FindFirst(plain, ".", i);
      assert plain[..i] == text[..i] && plain[i + 1..] == text[i + 1..];
    } else {
      var p := Decimals.Find(plain, ".");
      assert p < |plain| ==> plain == plain[..p] + "." + plain[p + 1..];
    }
  }

  lemma OneMark(text: string, mark: char) returns (before: string, after: string)
    requires |Split(text, [mark])| == 2
    ensures text == before + [mark] + after && Split(text, [mark]) == [before, after]
  {
    hide Split;
    var head, groups := SpellSplit(text, [mark]);
    PartsAre(head, groups);
    before, after := head, groups[0].digits;
    assert groups[1..] == [];
    assert Split(text, [mark]) == [before, after];
  }

  lemma BothMarksForm(text: string, point: char, mark: char) returns (n: Amount)
    requires (mark == ',' && point == '.') || (mark == '.' && point == ',')
    requires var parts := Split(text, [point]);
             |parts| == 2 && parts[1] != "" && AllDigits(parts[1]) && Grouped(Split(parts[0], [mark]))
    ensures Proper(n) && Written(n) == text
  {
    hide Split, Grouped, Spell;
    var before, after := OneMark(text, point);
    var head, groups := SpellSplit(before, [mark]);
    GroupedIs(head, groups);
    n := Amount(head, groups, [point], after);
  }

  lemma RepeatedMarkForm(text: string, mark: char) returns (n: Amount)
    requires (mark == ',' || mark == '.') && |Split(text, [mark])| > 2 && Grouped(Split(text, [mark]))
    ensures Proper(n) && Written(n) == text
  {
    hide Split, Grouped, Spell;
    var head, groups := SpellSplit(text, [mark]);
    GroupedIs(head, groups);
    PartsAre(head, groups);
    n := Amount(head, groups, "", "");
    assert Written(n) == text;
  }

  lemma SpacedForm(text: string) returns (n: Amount)
    requires ('.' !in text || ',' !in text) && Ungrouped(DecimalComma(text)).Some?
    ensures Proper(n) && Written(n) == text
  {
    hide Split, Grouped, Spell, Decimals.Find, DecimalComma;
    var plain := DecimalComma(text);
    var p := Decimals.Find(plain, ".");
    CommaBack(text);
    var head, groups := SpellSplit(plain[..p], GROUP_SPACES);
    GroupedIs(head, groups);
    PartsAre(head, groups);
    if p == |plain| {
      n := Amount(head, groups, "", "");
      assert plain[..p] == plain;
    } else if text == plain[..p] + "." + plain[p + 1..] {
      n := Amount(head, groups, ".", plain[p + 1..]);
    } else {
      n := Amount(head, groups, ",", plain[p + 1..]);
    }
    assert Written(n) == text;
  }

  lemma DigitsForm(text: string) returns (n: Amount)
    requires ('.' !in text || ',' !in text) && PlainNumber(DecimalComma(text)).Some?
    ensures Proper(n) && Written(n) == text
  {
    hide Decimals.Find, DecimalComma, ValueOf;
    var plain := DecimalComma(text);
    var p := Decimals.Find(plain, ".");
    CommaBack(text);
    var w, fraction := plain[..p], if p == |plain| then "" else plain[p + 1..];
    DigitsApart(w, fraction);
    n := Amount(w, [], if p == |plain| then "" else if text == plain[..p] + "." + plain[p + 1..] then "." else ",", fraction);
    assert Spell(w, []) == w;
    assert Written(n) == text;
  }

  lemma DigitsApart(a: string, b: string)
    requires AllDigits(a + b)
    ensures AllDigits(a) && AllDigits(b)
  {
    forall i | 0 <= i < |a| ensures Digit(a[i]) { assert (a + b)[i] == a[i]; }
    forall i | 0 <= i < |b| ensures Digit(b[i]) { assert (a + b)[|a| + i] == b[i]; }
  }

  /** Whatever is read was written in a proper form. */
  lemma FormOf(text: string) returns (n: Amount)
    requires NumberOf(text).Some?
    ensures Proper(n) && Written(n) == text
  {
    hide Split, Grouped, Decimals.Find, DecimalComma, Ungrouped, PlainNumber, LastIndex, Proper, Written, HasSpace;
    LastIndexMeans(text, '.');
    LastIndexMeans(text, ',');
    var dot, comma := LastIndex(text, '.'), LastIndex(text, ',');
    assert [if dot > comma then '.' else ','] == (if dot > comma then "." else ",");
    assert [if dot > comma then ',' else '.'] == (if dot > comma then "," else ".");
    assert [if dot >= 0 then '.' else ','] == (if dot >= 0 then "." else ",");
    if dot >= 0 && comma >= 0 {
      n := BothMarksForm(text, if dot > comma then '.' else ',', if dot > comma then ',' else '.');
    } else if |Split(text, if dot >= 0 then "." else ",")| > 2 {
      n := RepeatedMarkForm(text, if dot >= 0 then '.' else ',');
    } else if HasSpace(text) {
      n := SpacedForm(text);
    } else {
      n := DigitsForm(text);
    }
  }

  // ----- signs, currency marks and blanks -----

  /** What may be typed: a currency mark and a sign before the amount, a currency mark after
      it, and blanks around all of them. */
  datatype Entry = Entry(lead: string, mark: string, gap: string, sign: string, amount: Amount,
                         gap': string, mark': string, trail: string)

  /** The blanks: tab to carriage return, space, and the Unicode spaces and line ends. */
  lemma SpaceIs(c: char)
    ensures Space(c) <==>
            || c as int in {9, 10, 11, 12, 13, 32, 160, 5_760, 8_232, 8_233, 8_239, 8_287, 12_288, 65_279}
            || 8_192 <= c as int <= 8_202
  {
  }

  predicate Blank(s: string) { forall i :: 0 <= i < |s| ==> Space(s[i]) }

  function Capital(c: char): char { if 'a' <= c <= 'z' then (c as int - 32) as char else c }

  /** Nothing, the sign of a currency, or its code in letters of either case. */
  predicate CurrencyMark(s: string)
  {
    || s == "" || s in ["$", [0x20AC as char], [0x20B1 as char]]
    || (|s| == 3 && [Capital(s[0]), Capital(s[1]), Capital(s[2])] in ["EUR", "USD", "PHP"])
  }

  predicate ProperEntry(e: Entry)
  {
    && Proper(e.amount) && e.sign in ["", "+", "-"]
    && CurrencyMark(e.mark) && CurrencyMark(e.mark')
    && Blank(e.lead) && Blank(e.gap) && Blank(e.gap') && Blank(e.trail)
    && (e.mark == "" ==> e.gap == "") && (e.mark' == "" ==> e.gap' == "")
  }

  function Typed(e: Entry): string
  {
    e.lead + (e.mark + e.gap + ((e.sign + Written(e.amount)) + e.gap' + e.mark')) + e.trail
  }

  function EntryWorth(e: Entry): real
    requires ProperEntry(e)
  {
    if e.sign == "-" then -Worth(e.amount) else Worth(e.amount)
  }

  lemma {:induction false} StartTrimmed(lead: string, s: string)
    requires Blank(lead) && s != "" && !Space(s[0])
    ensures TrimStart(lead + s) == s
  {
    if lead != "" {
      assert (lead + s)[1..] == lead[1..] + s;
      StartTrimmed(lead[1..], s);
    } else {
      assert lead + s == s;
    }
  }

  lemma {:induction false} EndTrimmed(s: string, trail: string)
    requires Blank(trail) && s != "" && !Space(s[|s| - 1])
    ensures TrimEnd(s + trail) == s
  {
    if trail != "" {
      assert (s + trail)[..|s + trail| - 1] == s + trail[..|trail| - 1];
      EndTrimmed(s, trail[..|trail| - 1]);
    } else {
      assert s + trail == s;
    }
  }

  lemma {:induction false} StartSplit(s: string) returns (lead: string)
    ensures Blank(lead) && s == lead + TrimStart(s)
  {
    if s != "" && Space(s[0]) {
      var rest := StartSplit(s[1..]);
      lead := [s[0]] + rest;
      assert s == [s[0]] + s[1..];
    } else {
      lead := "";
    }
  }

  lemma {:induction false} EndSplit(s: string) returns (trail: string)
    ensures Blank(trail) && s == TrimEnd(s) + trail
  {
    if s != "" && Space(s[|s| - 1]) {
      var rest := EndSplit(s[..|s| - 1]);
      trail := rest + [s[|s| - 1]];
      assert s == s[..|s| - 1] + [s[|s| - 1]];
    } else {
      trail := "";
    }
  }

  /** It begins and ends with a digit, a separator or a sign: nothing that is trimmed or
      taken for a currency mark. */
  predicate Solid(s: string)
  {
    s != "" && (Digit(s[0]) || s[0] in ".,+-") && (Digit(s[|s| - 1]) || s[|s| - 1] in ".,+-")
  }

  lemma {:induction false} SpellEnds(head: string, groups: seq<Group>)
    requires InDigits(head, groups) && InThrees(head, groups)
    ensures Spell(head, groups) != "" && Digit(Spell(head, groups)[0]) && Digit(Spell(head, groups)[|Spell(head, groups)| - 1])
    decreases |groups|
  {
    if groups != [] {
      SpellEnds(groups[0].digits, groups[1..]);
    }
  }

  lemma WrittenSolid(n: Amount)
    requires Proper(n)
    ensures Solid(Written(n)) && Written(n)[0] !in "+-"
  {
    hide Spell;
    var text, w := Written(n), Spell(n.head, n.groups);
    assert text == w + n.point + n.fraction;
    if n.groups != [] {
      SpellEnds(n.head, n.groups);
    } else {
      SpellNone(n.head);
    }
    if n.fraction != "" {
      assert text[|text| - 1] == n.fraction[|n.fraction| - 1];
    } else if n.point != "" {
      assert text[|text| - 1] == n.point[0];
    }
    assert w != "" ==> text[0] == w[0];
    assert w == "" ==> text[0] == n.point[0];
  }

  lemma SpellNone(head: string)
    ensures Spell(head, []) == head
  {
  }

  lemma MarkIs(s: string)
    ensures CurrencyMark(s) <==> s == "" || (|s| == 1 && CurrencySign(s[0])) || CurrencyCode(s)
  {
    if |s| == 3 {
      LetterIs(s[0]);
      LetterIs(s[1]);
      LetterIs(s[2]);
    }
    assert |s| == 1 ==> s == [s[0]];
  }

  lemma LetterIs(c: char)
    ensures forall u :: 'A' <= u <= 'Z' ==> (Letter(c, u) <==> Capital(c) == u)
  {
  }

  lemma CodeLetters(s: string)
    ensures CurrencyCode(s) ==> |s| == 3 && forall i :: 0 <= i < 3 ==> 'A' <= s[i] <= 'Z' || 'a' <= s[i] <= 'z'
  {
  }

  lemma TailTaken(rest: string, gap: string, mark: string)
    requires CurrencyMark(mark) && Blank(gap) && (mark == "" ==> gap == "") && Solid(rest)
    ensures WithoutTail(rest + gap + mark) == rest
    ensures rest + gap + mark != "" && !Space((rest + gap + mark)[|rest + gap + mark| - 1])
  {
    hide CurrencyCode, TrimEnd;
    MarkIs(mark);
    EndTrimmed(rest, gap);
    var s := rest + gap + mark;
    CodeLetters(if |s| >= 3 then s[|s| - 3..] else "");
    CodeLetters(mark);
    if |mark| == 3 {
      assert s[|s| - 3..] == mark && s[..|s| - 3] == rest + gap;
    } else if |mark| == 1 {
      assert s[..|s| - 1] == rest + gap;
    } else {
      assert s == rest;
    }
  }

  /** Blanks and currency marks come off around the amount. */
  lemma Stripped(lead: string, mark: string, gap: string, core: string, gap': string, mark': string, trail: string)
    requires Solid(core) && CurrencyMark(mark) && CurrencyMark(mark') && Blank(lead) && Blank(gap) && Blank(gap') && Blank(trail)
    requires (mark == "" ==> gap == "") && (mark' == "" ==> gap' == "")
    ensures WithoutTail(WithoutHead(Trim(lead + (mark + gap + (core + gap' + mark')) + trail))) == core
  {
    hide WithoutHead, WithoutTail, TrimStart, TrimEnd, Blank, CurrencyMark, Space;
    var inner := core + gap' + mark';
    var outer := mark + gap + inner;
    TailTaken(core, gap', mark');
    SolidStart(core, gap' + mark');
    assert inner == core + (gap' + mark');
    HeadTaken(mark, gap, inner);
    assert outer[|outer| - 1] == inner[|inner| - 1];
    StartTrimmed(lead, outer + trail);
    assert lead + outer + trail == lead + (outer + trail);
    EndTrimmed(outer, trail);
  }

  /** Every proper entry is read, with its sign. */
  lemma EntryRead(e: Entry)
    requires ProperEntry(e)
    ensures LocalizedNumber(Typed(e)) == Decimals.Some(EntryWorth(e))
  {
    hide Plain, PlainNumber, Written, Worth, WithoutHead, WithoutTail, Trim, Proper, Blank, CurrencyMark;
    var text := Written(e.amount);
    WrittenSolid(e.amount);
    SignedSolid(e.sign, text);
    Stripped(e.lead, e.mark, e.gap, e.sign + text, e.gap', e.mark', e.trail);
    FormRead(e.amount);
  }

  lemma SolidStart(core: string, rest: string)
    requires Solid(core)
    ensures core + rest != "" && (Digit((core + rest)[0]) || (core + rest)[0] in ".,+-")
  {
  }

  lemma SignedSolid(sign: string, text: string)
    requires sign in ["", "+", "-"] && Solid(text) && text[0] !in "+-"
    ensures Solid(sign + text) && Decimals.Unsigned(sign + text) == text
    ensures (sign + text)[0] == '-' <==> sign == "-"
  {
    assert sign == "" ==> sign + text == text;
    assert sign != "" ==> (sign + text)[1..] == text;
  }

  lemma HeadTaken(mark: string, gap: string, rest: string)
    requires CurrencyMark(mark) && Blank(gap) && (mark == "" ==> gap == "")
    requires rest != "" && (Digit(rest[0]) || rest[0] in ".,+-")
    ensures WithoutHead(mark + gap + rest) == rest
    ensures mark + gap + rest != "" && !Space((mark + gap + rest)[0])
  {
    hide CurrencyCode, TrimStart;
    MarkIs(mark);
    StartTrimmed(gap, rest);
    var s := mark + gap + rest;
    CodeLetters(if |s| >= 3 then s[..3] else "");
    CodeLetters(mark);
    if |mark| == 3 {
      assert s[..3] == mark && s[3..] == gap + rest;
    } else if |mark| == 1 {
      assert s[1..] == gap + rest;
    } else {
      assert s == rest;
    }
  }

  lemma HeadSplit(s: string) returns (mark: string, gap: string)
    ensures CurrencyMark(mark) && Blank(gap) && (mark == "" ==> gap == "") && s == mark + gap + WithoutHead(s)
  {
    hide CurrencyCode, TrimStart;
    mark := if |s| >= 3 && CurrencyCode(s[..3]) then s[..3] else if s != "" && CurrencySign(s[0]) then [s[0]] else "";
    MarkIs(mark);
    gap := "";
    assert s == mark + s[|mark|..];
    if mark != "" {
      gap := StartSplit(s[|mark|..]);
    }
  }

  lemma TailSplit(s: string) returns (gap: string, mark: string)
    ensures CurrencyMark(mark) && Blank(gap) && (mark == "" ==> gap == "") && s == WithoutTail(s) + gap + mark
  {
    hide CurrencyCode, TrimEnd;
    mark := if |s| >= 3 && CurrencyCode(s[|s| - 3..]) then s[|s| - 3..] else if s != "" && CurrencySign(s[|s| - 1]) then [s[|s| - 1]] else "";
    MarkIs(mark);
    gap := "";
    assert s == s[..|s| - |mark|] + mark;
    if mark != "" {
      gap := EndSplit(s[..|s| - |mark|]);
    }
  }

  /** Whatever is read was typed as a proper entry. */
  lemma EntryOf(value: string) returns (e: Entry)
    requires LocalizedNumber(value).Some?
    ensures ProperEntry(e) && Typed(e) == value
  {
    hide Plain, PlainNumber, Written, Worth, WithoutHead, WithoutTail, TrimStart, TrimEnd, Proper, Blank, CurrencyMark, Space;
    var lead := StartSplit(value);
    var trail := EndSplit(TrimStart(value));
    var mark, gap := HeadSplit(Trim(value));
    var gap', mark' := TailSplit(WithoutHead(Trim(value)));
    var text := WithoutTail(WithoutHead(Trim(value)));
    var plain := Decimals.Unsigned(text);
    var n := FormOf(plain);
    var sign := if text[0] == '-' then "-" else if text[0] == '+' then "+" else "";
    assert text == sign + plain;
    e := Entry(lead, mark, gap, sign, n, gap', mark', trail);
  }

  /** A text is an amount of x if and only if it is a proper entry worth x. */
  lemma AmountsRead(value: string, x: real)
    ensures LocalizedNumber(value) == Decimals.Some(x) <==> exists e :: ProperEntry(e) && Typed(e) == value && EntryWorth(e) == x
  {
    hide LocalizedNumber, ProperEntry, Typed, EntryWorth;
    if LocalizedNumber(value) == Decimals.Some(x) {
      var e := EntryOf(value);
      EntryRead(e);
    }
    if e :| ProperEntry(e) && Typed(e) == value && EntryWorth(e) == x {
      EntryRead(e);
    }
  }
}
