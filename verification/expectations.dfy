/**
 * What `Parser::parse` gives for the selector shapes that
 * tests/RPBaseTest/Css2Xpath/ParserTest.php checks and the code meets, stated
 * for every name and value of that shape: `*`, `#a`, `.b`, an attribute block,
 * `#a > .b` and `#a .b`, `#a > *`, a tag with `:nth-child(<digits>)`,
 * `:first-child` or `:last-child`, and a tag with a class and a `^=` block.
 */
module Expectations {
  import opened Outcomes
  import opened Text
  import opened Rules
  import opened Scanner
  import opened NthChild
  import opened Render
  import opened Translation
  import opened Layout
  import opened Printing
  import opened ReadBack
  import opened Tokens
  import opened RoundTrip

  // ---------------------------------------------------------------- helpers

  /** No character of a class that excludes `,` is a comma. */
  lemma NoComma(t: string, cls: CharClass)
    requires AllIn(t, cls) && cls != MatcherChars
    ensures ',' !in t
  {
    forall k | 0 <= k < |t|
      ensures t[k] != ','
    {
      assert InClass(t[k], cls);
    }
  }

  /** The steps of a rule without pseudo-selectors: axis, tag test, attribute tests. */
  function PlainSteps(r: Rule): string {
    AxisStep(r.directChild) + TagTest(r.tagName) + AttributesXpath(r.attributes)
  }

  lemma RuleWithoutPseudos(r: Rule)
    requires r.pseudos == []
    ensures RuleXpath(r) == Ok(PlainSteps(r))
  {
    assert PseudosXpath(r.pseudos) == Ok("");
    assert PlainSteps(r) + "" == PlainSteps(r);
  }

  lemma OneAttribute(a: Attribute)
    ensures AttributesXpath([a]) == "[" + AttributeXpath(a) + "]"
  {
    assert [a][..0] == [];
  }

  lemma TwoAttributes(a: Attribute, b: Attribute)
    ensures AttributesXpath([a, b]) == "[" + AttributeXpath(a) + "][" + AttributeXpath(b) + "]"
  {
    assert [a, b][..1] == [a];
    OneAttribute(a);
  }

  lemma OneRuleSteps(r: Rule)
    requires r.pseudos == []
    ensures RuleSteps([r]) == Ok(PlainSteps(r))
  {
    RuleWithoutPseudos(r);
    RuleStepsSnoc([], r);
    assert [] + [r] == [r];
    assert "" + PlainSteps(r) == PlainSteps(r);
  }

  lemma OneRule(r: Rule)
    requires r.pseudos == []
    ensures RulesXpath([r]) == Ok("/*" + PlainSteps(r))
  {
    OneRuleSteps(r);
  }

  lemma TwoRules(r1: Rule, r2: Rule)
    requires r1.pseudos == [] && r2.pseudos == []
    ensures RulesXpath([r1, r2]) == Ok("/*" + (PlainSteps(r1) + PlainSteps(r2)))
  {
    OneRuleSteps(r1);
    OneRuleSteps(r2);
    RuleStepsAppend([r1], [r2]);
    assert [r1] + [r2] == [r1, r2];
  }

  /** A trimmed piece without commas translates as its rules render. */
  lemma ScannedPiece(s: string, rules: seq<Rule>)
    requires ',' !in s && Trim(s) == s && ScanRules(s) == Ok(rules)
    ensures Translate(s) == RulesXpath(rules)
  {
    TranslateSinglePiece(s);
  }

  // ---------------------------------------------------------------- attribute blocks

  /** The scan of an attribute block alone: one rule holding that attribute. */
  lemma ScanBlock(a: Attribute)
    requires PrintableAttribute(a)
    ensures ScanRules(BlockText(a)) == Ok([Rule(false, None, [a], [])])
  {
    var s := BlockText(a);
    AtWhole(s);
    BlockScan(s, 0, a);
    var r := Rule(false, None, [a], []);
    assert [s[0]] == "[" && "[" !in Shorthands;
    assert EmptyRule(false).(attributes := EmptyRule(false).attributes + [a]) == r;
    assert ScanStep(s, 0, EmptyRule(false)) == Ok(Step(|s|, false, r));
    assert NextRule(s, 0) == (false, 0);
    assert ScanFrom(s, 0, [], EmptyRule(false)) == ScanFrom(s, |s|, [], r);
    assert [] + [r] == [r];
    assert ScanFrom(s, |s|, [], r) == Ok([r]);
  }

  /** A printed block holds no comma and no surrounding whitespace. */
  lemma BlockPiece(a: Attribute)
    requires PrintableAttribute(a)
    ensures ',' !in BlockText(a) && Trim(BlockText(a)) == BlockText(a)
  {
    var s := BlockText(a);
    assert s[0] == '[' && s[|s| - 1] == ']';
    TrimNone(s);
    NoComma(a.attrType, TagChars);
    if a.value.Some? {
      NoComma(a.value.value, ValueChars);
    }
    assert ',' !in MatcherSymbol(a.matcher);
  }

  /** A rule with no tag and one attribute is its axis step with that attribute's test. */
  lemma SingleSteps(directChild: bool, a: Attribute)
    ensures PlainSteps(Rule(directChild, None, [a], [])) == AxisStep(directChild) + "[" + AttributeXpath(a) + "]"
  {
    var x := AttributeXpath(a);
    OneAttribute(a);
    assert PlainSteps(Rule(directChild, None, [a], [])) == AxisStep(directChild) + "" + ("[" + x + "]");
  }

  /** The rendering of the one rule a block alone scans to. */
  lemma BlockRule(a: Attribute)
    ensures RulesXpath([Rule(false, None, [a], [])]) == Ok("/*/descendant::*[" + AttributeXpath(a) + "]")
  {
    var r := Rule(false, None, [a], []);
    OneRule(r);
    SingleSteps(false, a);
    RootedAlone(PlainSteps(r), AttributeXpath(a));
  }

  /** An attribute block alone is one rule holding that attribute: `[href]`, `[href="url"]`, `[href^="url"]`, ... */
  lemma TranslateBlock(a: Attribute)
    requires PrintableAttribute(a)
    ensures Translate(BlockText(a)) == Ok("/*/descendant::*[" + AttributeXpath(a) + "]")
  {
    BlockPiece(a);
    ScanBlock(a);
    ScannedPiece(BlockText(a), [Rule(false, None, [a], [])]);
    BlockRule(a);
  }

  /** `[name op "v"]` renders the matcher's test of `@name` against `v`. */
  lemma AttributeWithValue(name: string, m: Matcher, v: string)
    requires AllIn(name, TagChars) && AllIn(v, ValueChars)
    ensures Translate("[" + name + MatcherSymbol(m) + "\"" + v + "\"]")
         == Ok("/*/descendant::*[" + AttributeXpath(Attribute(name, m, Some(v))) + "]")
  {
    BlockWithValue(name, m, v);
    TranslateBlock(Attribute(name, m, Some(v)));
  }

  lemma BlockWithValue(name: string, m: Matcher, v: string)
    ensures BlockText(Attribute(name, m, Some(v))) == "[" + name + MatcherSymbol(m) + "\"" + v + "\"]"
  {
  }

  /** `[name]` renders `@name`: the attribute is present. */
  lemma AttributePresent(name: string)
    requires AllIn(name, TagChars)
    ensures Translate("[" + name + "]") == Ok("/*/descendant::*[@" + name + "]")
  {
    var a := Attribute(name, Bare, None);
    assert MatcherSymbol(Bare) == "" && BlockText(a) == "[" + name + "]";
    TranslateBlock(a);
    assert "/*/descendant::*[" + AttributeXpath(a) + "]" == "/*/descendant::*[@" + name + "]";
  }

  // ---------------------------------------------------------------- printed rules

  /** A printed rule list of one rule without pseudo-selectors translates to its steps. */
  lemma PrintedSingle(r: Rule)
    requires Printable(r) && r.pseudos == [] && ',' !in PieceText([r])
    ensures Translate(PieceText([r])) == Ok("/*" + PlainSteps(r))
  {
    TranslatePrinted([r]);
    OneRule(r);
  }

  /** The same for two rules. */
  lemma PrintedPair(r1: Rule, r2: Rule)
    requires Printable(r1) && Printable(r2) && r1.pseudos == [] && r2.pseudos == []
    requires ',' !in PieceText([r1, r2])
    ensures Translate(PieceText([r1, r2])) == Ok("/*" + (PlainSteps(r1) + PlainSteps(r2)))
  {
    TranslatePrinted([r1, r2]);
    TwoRules(r1, r2);
  }

  /** A printed rule list of one rule is that rule without a separator. */
  lemma OneRuleText(r: Rule)
    ensures PieceText([r]) == RuleText(false, r)
  {
    assert [r][1..] == [];
    assert RuleText(false, r) + "" == RuleText(false, r);
  }

  /** A printed rule list of two rules: the first rule, a separator, the second. */
  lemma TwoRulesText(r1: Rule, r2: Rule)
    ensures PieceText([r1, r2]) == RuleText(false, r1) + RuleText(true, r2)
  {
    assert [r1, r2][1..] == [r2];
    JoinedSingle(FollowingRuleText, r2);
  }

  /** The rule `#a` scans to. */
  function IdRule(a: string): Rule {
    Rule(false, None, [Attribute("id", Same, Some(a))], [])
  }

  /** The rule `.b` scans to, reached through `>` or whitespace. */
  function ClassRule(directChild: bool, b: string): Rule {
    Rule(directChild, None, [Attribute("class", ContainsWord, Some(b))], [])
  }

  lemma IdRuleText(a: string)
    requires AllIn(a, ValueChars)
    ensures Printable(IdRule(a)) && RuleText(false, IdRule(a)) == "#" + a
  {
    var attr := Attribute("id", Same, Some(a));
    assert AllIn("id", TagChars);
    JoinedSingle(AttributeText, attr);
    assert FiltersText(IdRule(a)) == "#" + a + "";
  }

  lemma ClassRuleText(directChild: bool, b: string)
    requires AllIn(b, ValueChars)
    ensures Printable(ClassRule(directChild, b))
    ensures RuleText(true, ClassRule(directChild, b)) == CombinatorText(true, directChild) + ("." + b)
    ensures RuleText(false, ClassRule(false, b)) == "." + b
  {
    var attr := Attribute("class", ContainsWord, Some(b));
    assert AllIn("class", TagChars);
    JoinedSingle(AttributeText, attr);
    assert FiltersText(ClassRule(directChild, b)) == "." + b + "";
    assert FiltersText(ClassRule(false, b)) == "." + b + "";
  }

  /** `@id="a"`: the test of `#a`. */
  lemma IdEquals(a: string)
    ensures EqualsXpath("id", a) == "@id=\"" + a + "\""
  {
    assert "@" + "id" + "=" + "\"" == "@id=\"";
  }

  /** The word test on `@class`: the test of `.b`. */
  lemma ClassWord(b: string)
    ensures HasWordXpath("class", b) == "contains(concat(\" \", @class, \" \"), \" " + b + " \")"
  {
    var q := Quoted(" ");
    assert q == "\" \"";
    var pre := "contains(concat(" + q + ", @" + "class" + ", " + q + "), ";
    assert pre == "contains(concat(\" \", @class, \" \"), ";
    var w := Quoted(" " + b + " ");
    assert w == "\" " + b + " \"";
    assert HasWordXpath("class", b) == pre + w + ")";
    assert pre + w + ")" == (pre + "\" ") + b + " \")";
  }

  lemma IdSteps(a: string)
    ensures PlainSteps(IdRule(a)) == AxisStep(false) + "[" + EqualsXpath("id", a) + "]"
  {
    SingleSteps(false, Attribute("id", Same, Some(a)));
  }

  lemma ClassSteps(directChild: bool, b: string)
    ensures PlainSteps(ClassRule(directChild, b)) == AxisStep(directChild) + "[" + HasWordXpath("class", b) + "]"
  {
    SingleSteps(directChild, Attribute("class", ContainsWord, Some(b)));
  }

  /** The root step in front of a descendant step with one test, then more steps. */
  lemma Rooted(steps: string, x: string, more: string)
    requires steps == AxisStep(false) + "[" + x + "]"
    ensures "/*" + (steps + more) == "/*/descendant::*[" + x + "]" + more
  {
    assert "/*" + (AxisStep(false) + "[") == "/*/descendant::*[";
    Regroup("/*", AxisStep(false) + "[", x, "]" + more);
  }

  /** The root step in front of a descendant step with one test. */
  lemma RootedAlone(steps: string, x: string)
    requires steps == AxisStep(false) + "[" + x + "]"
    ensures "/*" + steps == "/*/descendant::*[" + x + "]"
  {
    Rooted(steps, x, "");
    assert steps + "" == steps;
    assert "/*/descendant::*[" + x + "]" + "" == "/*/descendant::*[" + x + "]";
  }


  /** `#a` reads back as the rule with the id test. */
  lemma IdPiece(a: string)
    requires AllIn(a, ValueChars)
    ensures Translate("#" + a) == Ok("/*" + PlainSteps(IdRule(a)))
  {
    IdRuleText(a);
    OneRuleText(IdRule(a));
    NoComma(a, ValueChars);
    PrintedSingle(IdRule(a));
  }

  /** `#a` alone, with the test still named by its renderer. */
  lemma IdSelected(a: string)
    requires AllIn(a, ValueChars)
    ensures Translate("#" + a) == Ok("/*/descendant::*[" + EqualsXpath("id", a) + "]")
  {
    var steps := PlainSteps(IdRule(a));
    IdPiece(a);
    IdSteps(a);
    RootedAlone(steps, EqualsXpath("id", a));
  }

  /** A test spelled as an opening text, a value and a closing text, inside brackets. */
  lemma Bracketed(x: string, q: string, a: string, r: string, z: string)
    ensures x + (q + a + r) + z == (x + q) + a + (r + z)
  {
  }

  /** The id step with its test written out. */
  lemma IdGlue(a: string)
    ensures "/*/descendant::*[" + EqualsXpath("id", a) + "]" == "/*/descendant::*[@id=\"" + a + "\"]"
  {
    IdEquals(a);
    Bracketed("/*/descendant::*[", "@id=\"", a, "\"", "]");
    assert "/*/descendant::*[" + "@id=\"" == "/*/descendant::*[@id=\"";
    assert "\"" + "]" == "\"]";
  }

  /** `#a` alone: ParserTest.php lines 20-23. */
  lemma IdAlone(a: string)
    requires AllIn(a, ValueChars)
    ensures Translate("#" + a) == Ok("/*/descendant::*[@id=\"" + a + "\"]")
  {
    IdSelected(a);
    IdGlue(a);
  }

  /** `.b` reads back as the rule with the class test. */
  lemma ClassPiece(b: string)
    requires AllIn(b, ValueChars)
    ensures Translate("." + b) == Ok("/*" + PlainSteps(ClassRule(false, b)))
  {
    ClassRuleText(false, b);
    OneRuleText(ClassRule(false, b));
    NoComma(b, ValueChars);
    PrintedSingle(ClassRule(false, b));
  }

  /** `.b` alone, with the test still named by its renderer. */
  lemma ClassSelected(b: string)
    requires AllIn(b, ValueChars)
    ensures Translate("." + b) == Ok("/*/descendant::*[" + HasWordXpath("class", b) + "]")
  {
    var steps := PlainSteps(ClassRule(false, b));
    ClassPiece(b);
    ClassSteps(false, b);
    RootedAlone(steps, HasWordXpath("class", b));
  }

  /** The descendant step opened onto the word test on `@class`. */
  lemma ClassOpen()
    ensures "/*/descendant::*[" + "contains(concat(\" \", @class, \" \"), \" "
         == "/*/descendant::*[contains(concat(\" \", @class, \" \"), \" "
  {
  }

  /** The word test on `@class` closed, then the step closed. */
  lemma ClassClose()
    ensures " \")" + "]" == " \")]"
  {
  }

  /** The class step with its word test written out. */
  lemma ClassGlue(b: string)
    ensures "/*/descendant::*[" + HasWordXpath("class", b) + "]"
         == "/*/descendant::*[contains(concat(\" \", @class, \" \"), \" " + b + " \")]"
  {
    ClassWord(b);
    Bracketed("/*/descendant::*[", "contains(concat(\" \", @class, \" \"), \" ", b, " \")", "]");
    ClassOpen();
    ClassClose();
  }

  /** `.b` alone: ParserTest.php lines 25-28. */
  lemma ClassAlone(b: string)
    requires AllIn(b, ValueChars)
    ensures Translate("." + b)
         == Ok("/*/descendant::*[contains(concat(\" \", @class, \" \"), \" " + b + " \")]")
  {
    ClassSelected(b);
    ClassGlue(b);
  }

  /** The separator in front of `.b`: a space, `> ` for a direct child, then the dot. */
  lemma DotAfterCombinator(directChild: bool)
    ensures CombinatorText(true, directChild) + "." == (if directChild then " > ." else " .")
  {
  }

  /** The text `#a`, a combinator, `.b`. */
  lemma IdClassSpelled(directChild: bool, a: string, b: string)
    requires AllIn(a, ValueChars) && AllIn(b, ValueChars)
    ensures PieceText([IdRule(a), ClassRule(directChild, b)])
         == "#" + a + (CombinatorText(true, directChild) + ("." + b))
  {
    TwoRulesText(IdRule(a), ClassRule(directChild, b));
    IdRuleText(a);
    ClassRuleText(directChild, b);
  }

  /** Text made of two comma-free parts holds no comma. */
  lemma CommaFree(x: string, y: string)
    requires ',' !in x && ',' !in y
    ensures ',' !in x + y
  {
  }

  /** A combinator glued to the dot in front of a class name. */
  lemma DotGlue(x: string, c: string, b: string, sep: string)
    requires c + "." == sep
    ensures x + (c + ("." + b)) == x + sep + b
  {
    Regroup(x, c, ".", b);
  }

  /** The text `#a`, a combinator and `.b` holds no comma. */
  lemma IdClassNoComma(directChild: bool, a: string, b: string)
    requires AllIn(a, ValueChars) && AllIn(b, ValueChars)
    ensures ',' !in "#" + a + (CombinatorText(true, directChild) + ("." + b))
  {
    var c := CombinatorText(true, directChild);
    NoComma(a, ValueChars);
    NoComma(b, ValueChars);
    CommaFree("#", a);
    CommaFree(".", b);
    assert ',' !in c;
    CommaFree(c, "." + b);
    CommaFree("#" + a, c + ("." + b));
  }

  /** The text `#a`, a combinator, `.b`, and no comma in it. */
  lemma IdClassText(directChild: bool, a: string, b: string)
    requires AllIn(a, ValueChars) && AllIn(b, ValueChars)
    ensures PieceText([IdRule(a), ClassRule(directChild, b)])
         == "#" + a + (if directChild then " > ." else " .") + b
    ensures ',' !in PieceText([IdRule(a), ClassRule(directChild, b)])
  {
    IdClassSpelled(directChild, a, b);
    IdClassNoComma(directChild, a, b);
    DotAfterCombinator(directChild);
    DotGlue("#" + a, CombinatorText(true, directChild), b, if directChild then " > ." else " .");
  }

  /** `#a > .b` and `#a .b` read back as the two rules. */
  lemma IdClassPiece(directChild: bool, a: string, b: string)
    requires AllIn(a, ValueChars) && AllIn(b, ValueChars)
    ensures Translate("#" + a + (if directChild then " > ." else " .") + b)
         == Ok("/*" + (PlainSteps(IdRule(a)) + PlainSteps(ClassRule(directChild, b))))
  {
    IdClassText(directChild, a, b);
    IdRuleText(a);
    ClassRuleText(directChild, b);
    PrintedPair(IdRule(a), ClassRule(directChild, b));
  }

  /**
   * `#a > .b` and `#a .b`: the id test, then a child or a descendant step
   * with the class test (ParserTest.php lines 121-129).
   */
  lemma IdThenClass(directChild: bool, a: string, b: string)
    requires AllIn(a, ValueChars) && AllIn(b, ValueChars)
    ensures Translate("#" + a + (if directChild then " > ." else " .") + b)
         == Ok("/*/descendant::*[" + EqualsXpath("id", a) + "]"
               + AxisStep(directChild) + "[" + HasWordXpath("class", b) + "]")
  {
    var more := PlainSteps(ClassRule(directChild, b));
    IdClassPiece(directChild, a, b);
    IdSteps(a);
    ClassSteps(directChild, b);
    Rooted(PlainSteps(IdRule(a)), EqualsXpath("id", a), more);
    var p := "/*/descendant::*[" + EqualsXpath("id", a) + "]";
    Regroup(p, AxisStep(directChild) + "[", HasWordXpath("class", b), "]");
    assert p + (AxisStep(directChild) + "[") == p + AxisStep(directChild) + "[";
  }

  /** The text `#a > *`, and no comma in it. */
  lemma IdAnyChildText(a: string)
    requires AllIn(a, ValueChars)
    ensures PieceText([IdRule(a), Rule(true, None, [], [])]) == "#" + a + " > *"
    ensures ',' !in PieceText([IdRule(a), Rule(true, None, [], [])])
  {
    var any := Rule(true, None, [], []);
    IdRuleText(a);
    TwoRulesText(IdRule(a), any);
    assert RuleText(true, any) == " > *";
    NoComma(a, ValueChars);
  }

  /** `#a > *` reads back as the id rule and a bare child rule. */
  lemma IdAnyChildPiece(a: string)
    requires AllIn(a, ValueChars)
    ensures Translate("#" + a + " > *") == Ok("/*" + (PlainSteps(IdRule(a)) + "/*"))
  {
    var any := Rule(true, None, [], []);
    IdAnyChildText(a);
    IdRuleText(a);
    PrintedPair(IdRule(a), any);
    assert PlainSteps(any) == "/*" + "" + "";
    assert "/*" + "" + "" == "/*";
  }

  /** `#a > *`: the id test, then a bare child step (ParserTest.php lines 131-134). */
  lemma IdThenAnyChild(a: string)
    requires AllIn(a, ValueChars)
    ensures Translate("#" + a + " > *") == Ok("/*/descendant::*[" + EqualsXpath("id", a) + "]/*")
  {
    var x := EqualsXpath("id", a);
    IdAnyChildPiece(a);
    IdSteps(a);
    Rooted(PlainSteps(IdRule(a)), x, "/*");
    assert "/*/descendant::*[" + x + "]" + "/*" == "/*/descendant::*[" + x + "]/*";
  }

  /** `*` reads back as the rule with no filters. */
  lemma AnyPiece()
    ensures Translate("*") == Ok("/*" + PlainSteps(EmptyRule(false)))
  {
    var any := EmptyRule(false);
    assert RuleText(false, any) == "" + "*";
    assert "" + "*" == "*";
    OneRuleText(any);
    PrintedSingle(any);
  }

  /** The rule with no filters is one descendant step. */
  lemma AnySteps()
    ensures "/*" + PlainSteps(EmptyRule(false)) == "/*/descendant::*"
  {
    assert PlainSteps(EmptyRule(false)) == "/descendant::*" + "" + "";
  }

  /** `*`: every element below the root (ParserTest.php lines 10-13). */
  lemma AnyElement()
    ensures Translate("*") == Ok("/*/descendant::*")
  {
    AnyPiece();
    AnySteps();
  }

  // ---------------------------------------------------------------- a tag with a pseudo-selector

  /** The rule `t:name(value)` scans to. */
  function PseudoRule(t: string, p: Pseudo): Rule {
    Rule(false, Some(t), [], [p])
  }

  lemma PseudoRuleText(t: string, p: Pseudo)
    requires IsTagName(t) && PrintablePseudo(p)
    ensures Printable(PseudoRule(t, p)) && PieceText([PseudoRule(t, p)]) == t + PseudoText(p)
  {
    var r := PseudoRule(t, p);
    OneRuleText(r);
    JoinedSingle(PseudoText, p);
    assert FiltersText(r) == "" + PseudoText(p);
    assert RuleText(false, r) == "" + (t + ("" + PseudoText(p)));
  }

  /** One rendered pseudo-selector is one bracketed test. */
  lemma OnePseudo(p: Pseudo, v: string)
    requires PseudoXpath(p) == Ok(v)
    ensures PseudosXpath([p]) == Ok("[" + v + "]")
  {
    var ps := [p];
    assert ps[..0] == [] && ps[0] == p;
    assert "" + "[" + v + "]" == "[" + v + "]";
  }

  /** The tag test, then the one pseudo-selector test. */
  lemma PseudoRuleSteps(t: string, p: Pseudo, v: string)
    requires PseudoXpath(p) == Ok(v)
    ensures RulesXpath([PseudoRule(t, p)]) == Ok("/*" + (AxisStep(false) + TagTest(Some(t)) + "" + ("[" + v + "]")))
  {
    var r := PseudoRule(t, p);
    OnePseudo(p, v);
    assert AttributesXpath([]) == "";
    assert RuleXpath(r) == Ok(AxisStep(false) + TagTest(Some(t)) + "" + ("[" + v + "]"));
    RulesXpathSingle(r);
  }

  /** The root step, the tag step and one more test. */
  lemma TagGlue(n: string, v: string)
    ensures "/*" + (AxisStep(false) + ("[" + n + "]") + "" + ("[" + v + "]")) == "/*/descendant::*[" + n + "][" + v + "]"
  {
    assert "/*" + AxisStep(false) + "[" == "/*/descendant::*[";
    assert "]" + "[" == "][";
  }

  /**
   * `t:name(value)` with a pseudo-selector the code renders: the tag test, then
   * the test of the pseudo-selector.
   */
  lemma TagPseudo(t: string, p: Pseudo, v: string)
    requires IsTagName(t) && PrintablePseudo(p) && ',' !in PseudoText(p) && PseudoXpath(p) == Ok(v)
    ensures Translate(t + PseudoText(p)) == Ok("/*/descendant::*[" + NameTest(t) + "][" + v + "]")
  {
    var r := PseudoRule(t, p);
    PseudoRuleText(t, p);
    NoComma(t, TagChars);
    TranslatePrinted([r]);
    PseudoRuleSteps(t, p, v);
    TagGlue(NameTest(t), v);
  }

  lemma {:induction false} DigitsNet(d: string)
    requires AllIn(d, DigitChars)
    ensures Net(d) == 0
    decreases |d|
  {
    if d != [] {
      var init := d[..|d| - 1];
      assert AllIn(init, DigitChars) by {
        forall k | 0 <= k < |init| ensures InClass(init[k], DigitChars) {
          assert init[k] == d[k];
        }
      }
      DigitsNet(init);
      assert InClass(d[|d| - 1], DigitChars);
    }
  }

  /** Digits hold no parentheses, so they are balanced. */
  lemma DigitsBalanced(d: string)
    requires AllIn(d, DigitChars)
    ensures Balanced(d)
  {
    DigitsNet(d);
    forall j | 0 <= j < |d| ensures Net(d[..j]) >= 0 {
      assert AllIn(d[..j], DigitChars) by {
        forall k | 0 <= k < j ensures InClass(d[..j][k], DigitChars) {
          assert d[..j][k] == d[k];
        }
      }
      DigitsNet(d[..j]);
    }
  }

  /** `:nth-child(d)` for digits `d` is printable and renders the position test. */
  lemma NthChildDigits(d: string)
    requires |d| >= 1 && AllIn(d, DigitChars)
    ensures var p := Pseudo("nth-child", Some(d));
      PrintablePseudo(p) && PseudoText(p) == ":nth-child(" + d + ")" && ',' !in PseudoText(p)
      && PseudoXpath(p) == Ok("position() = " + d)
  {
    var p := Pseudo("nth-child", Some(d));
    DigitsBalanced(d);
    assert AllIn("nth-child", PseudoNameChars);
    assert PseudoText(p) == ":nth-child(" + d + ")";
    NoComma(d, DigitChars);
    assert d[0..] == d;
    assert IsNumeric(d);
  }

  lemma TagNthChildPiece(t: string, d: string)
    requires IsTagName(t) && |d| >= 1 && AllIn(d, DigitChars)
    ensures Translate(t + ":nth-child(" + d + ")")
         == Ok("/*/descendant::*[" + NameTest(t) + "][" + ("position() = " + d) + "]")
  {
    NthChildDigits(d);
    TagPseudo(t, Pseudo("nth-child", Some(d)), "position() = " + d);
    Regroup(t, ":nth-child(", d, ")");
  }

  lemma PositionGlue(x: string, d: string)
    ensures x + "][" + ("position() = " + d) + "]" == x + "][position() = " + d + "]"
  {
    Regroup(x, "][", "position() = " + d, "]");
    assert "][" + ("position() = " + d) + "]" == "][position() = " + d + "]";
  }

  /** The position test behind the tag test, with the closing text written out. */
  lemma PositionWordGlue(x: string, k: string, w: string)
    requires w == "][position() = " + k + "]"
    ensures x + "][" + ("position() = " + k) + "]" == x + w
  {
    PositionGlue(x, k);
    Regroup(x, "][position() = ", k, "]");
  }

  /** `t:nth-child(d)` for digits `d`: the position test (ParserTest.php lines 96-99). */
  lemma TagNthChild(t: string, d: string)
    requires IsTagName(t) && |d| >= 1 && AllIn(d, DigitChars)
    ensures Translate(t + ":nth-child(" + d + ")")
         == Ok("/*/descendant::*[" + NameTest(t) + "][position() = " + d + "]")
  {
    TagNthChildPiece(t, d);
    PositionGlue("/*/descendant::*[" + NameTest(t), d);
  }

  /** `:first-child` and `:last-child` are printable and render their position tests. */
  lemma PositionPseudo(name: string, k: string)
    requires (name == "first-child" && k == "1") || (name == "last-child" && k == "last()")
    ensures var p := Pseudo(name, None);
      PrintablePseudo(p) && PseudoText(p) == ":" + name && ',' !in PseudoText(p)
      && PseudoXpath(p) == Ok("position() = " + k)
  {
    var p := Pseudo(name, None);
    assert AllIn(name, PseudoNameChars);
    assert PseudoText(p) == ":" + (name + "");
    if name == "first-child" {
      assert PseudoXpath(p) == Ok("position() = 1");
      assert "position() = " + k == "position() = 1";
    } else {
      assert PseudoXpath(p) == Ok("position() = last()");
      assert "position() = " + k == "position() = last()";
    }
  }

  /** `t:first-child` or `t:last-child`: the tag test, then that position test. */
  lemma TagPositionPiece(t: string, name: string, k: string)
    requires IsTagName(t)
    requires (name == "first-child" && k == "1") || (name == "last-child" && k == "last()")
    ensures Translate(t + (":" + name)) == Ok("/*/descendant::*[" + NameTest(t) + "][" + ("position() = " + k) + "]")
  {
    PositionPseudo(name, k);
    TagPseudo(t, Pseudo(name, None), "position() = " + k);
  }

  /** `t:first-child`: the first position (ParserTest.php lines 86-89). */
  lemma TagFirstChild(t: string)
    requires IsTagName(t)
    ensures Translate(t + ":first-child") == Ok("/*/descendant::*[" + NameTest(t) + "][position() = 1]")
  {
    assert ":" + "first-child" == ":first-child";
    TagPositionPiece(t, "first-child", "1");
    PositionWordGlue("/*/descendant::*[" + NameTest(t), "1", "][position() = 1]");
  }

  /** `t:last-child`: the last position (ParserTest.php lines 91-94). */
  lemma TagLastChild(t: string)
    requires IsTagName(t)
    ensures Translate(t + ":last-child") == Ok("/*/descendant::*[" + NameTest(t) + "][position() = last()]")
  {
    assert ":" + "last-child" == ":last-child";
    TagPositionPiece(t, "last-child", "last()");
    PositionWordGlue("/*/descendant::*[" + NameTest(t), "last()", "][position() = last()]");
  }

  // ---------------------------------------------------------------- a tag, a class and a block

  /** The rule `t.c[n^="v"]` scans to. */
  function TagClassStartRule(t: string, c: string, n: string, v: string): Rule {
    Rule(false, Some(t), [Attribute("class", ContainsWord, Some(c)), Attribute(n, Start, Some(v))], [])
  }

  lemma TagClassStartText(t: string, c: string, n: string, v: string)
    requires IsTagName(t) && AllIn(c, ValueChars) && AllIn(n, TagChars) && AllIn(v, ValueChars)
    ensures Printable(TagClassStartRule(t, c, n, v))
    ensures PieceText([TagClassStartRule(t, c, n, v)]) == t + ("." + c) + BlockText(Attribute(n, Start, Some(v)))
  {
    var ca := Attribute("class", ContainsWord, Some(c));
    var sa := Attribute(n, Start, Some(v));
    var r := TagClassStartRule(t, c, n, v);
    assert AllIn("class", TagChars);
    OneRuleText(r);
    assert [ca, sa][..1] == [ca];
    JoinedSingle(AttributeText, ca);
    assert AttributesText([ca, sa]) == "." + c + BlockText(sa);
    assert FiltersText(r) == "." + c + BlockText(sa) + "";
    assert RuleText(false, r) == "" + (t + ("." + c + BlockText(sa)));
  }

  lemma TagClassStartNoComma(t: string, c: string, n: string, v: string)
    requires IsTagName(t) && AllIn(c, ValueChars) && AllIn(n, TagChars) && AllIn(v, ValueChars)
    ensures ',' !in t + ("." + c) + BlockText(Attribute(n, Start, Some(v)))
  {
    NoComma(t, TagChars);
    NoComma(c, ValueChars);
    BlockPiece(Attribute(n, Start, Some(v)));
  }

  lemma TagClassStartPiece(t: string, c: string, n: string, v: string)
    requires IsTagName(t) && AllIn(c, ValueChars) && AllIn(n, TagChars) && AllIn(v, ValueChars)
    ensures Translate(t + ("." + c) + BlockText(Attribute(n, Start, Some(v))))
         == Ok("/*" + PlainSteps(TagClassStartRule(t, c, n, v)))
  {
    TagClassStartText(t, c, n, v);
    TagClassStartNoComma(t, c, n, v);
    PrintedSingle(TagClassStartRule(t, c, n, v));
  }

  lemma TagClassStartSteps(t: string, c: string, n: string, v: string)
    ensures PlainSteps(TagClassStartRule(t, c, n, v))
         == AxisStep(false) + ("[" + NameTest(t) + "]")
            + ("[" + HasWordXpath("class", c) + "][" + StartsWithXpath(n, v) + "]")
  {
    TwoAttributes(Attribute("class", ContainsWord, Some(c)), Attribute(n, Start, Some(v)));
  }

  lemma TagClassStartGlue(x: string, y: string, z: string)
    ensures "/*" + (AxisStep(false) + ("[" + x + "]") + ("[" + y + "][" + z + "]"))
         == "/*/descendant::*[" + x + "][" + y + "][" + z + "]"
  {
    assert "/*" + AxisStep(false) + "[" == "/*/descendant::*[";
    assert "]" + "[" == "][";
  }

  lemma TagClassStartSpelled(t: string, c: string, n: string, v: string)
    ensures t + ("." + c) + BlockText(Attribute(n, Start, Some(v))) == t + "." + c + "[" + n + "^=\"" + v + "\"]"
  {
    var b := BlockText(Attribute(n, Start, Some(v)));
    assert b == "[" + n + "^=\"" + v + "\"]";
    assert t + ("." + c) + b == t + "." + c + b;
  }

  /**
   * `t.c[n^="v"]`: the tag test, the class word test and the prefix test, in
   * the order they were written (ParserTest.php lines 81-84).
   */
  lemma TagClassStart(t: string, c: string, n: string, v: string)
    requires IsTagName(t) && AllIn(c, ValueChars) && AllIn(n, TagChars) && AllIn(v, ValueChars)
    ensures Translate(t + "." + c + "[" + n + "^=\"" + v + "\"]")
         == Ok("/*/descendant::*[" + NameTest(t) + "][" + HasWordXpath("class", c) + "][" + StartsWithXpath(n, v) + "]")
  {
    TagClassStartSpelled(t, c, n, v);
    TagClassStartPiece(t, c, n, v);
    TagClassStartSteps(t, c, n, v);
    TagClassStartGlue(NameTest(t), HasWordXpath("class", c), StartsWithXpath(n, v));
  }
}
