/**
 * The XPath side of `Parser` (src/RPBase/Css2Xpath/Parser.php:316-418) and the
 * whole translation `parse` as a function: each comma-separated piece is
 * trimmed, scanned into rules and rendered, and the pieces are joined with `|`.
 * `:not(...)` translates its value recursively, as the source does through a
 * fresh `Parser`.
 */
module Render {
  import opened Outcomes
  import opened Text
  import opened Rules
  import opened Scanner
  import opened NthChild

  // ---------------------------------------------------------------- attributes and tags

  /** The step a rule starts with: a child step after `>`, a descendant step otherwise. */
  function AxisStep(directChild: bool): string {
    if directChild then "/*" else "/descendant::*"
  }

  /** An XPath string literal: the text between double quotes. */
  function Quoted(v: string): string {
    "\"" + v + "\""
  }

  /** The test that an element has the given name. */
  function NameTest(t: string): string {
    "name() = " + Quoted(t)
  }

  function TagTest(tagName: Option<string>): string {
    match tagName
    case Some(t) => "[" + NameTest(t) + "]"
    case None => ""
  }

  /** `@t="v"`. */
  function EqualsXpath(t: string, v: string): string {
    "@" + t + "=" + Quoted(v)
  }

  /** `starts-with(@t, "v")`. */
  function StartsWithXpath(t: string, v: string): string {
    "starts-with(@" + t + ", " + Quoted(v) + ")"
  }

  /** The test that the value ends the attribute, written with a `___` sentinel. */
  function EndsWithXpath(t: string, v: string): string {
    "contains(concat(@" + t + ", " + Quoted("___") + "), " + Quoted(v + "___") + ")"
  }

  /** The test that the value is one of the space-separated words of the attribute. */
  function HasWordXpath(t: string, v: string): string {
    "contains(concat(" + Quoted(" ") + ", @" + t + ", " + Quoted(" ") + "), " + Quoted(" " + v + " ") + ")"
  }

  /** The test that the attribute is the value or starts with it and a space or `-`. */
  function PrefixXpath(t: string, v: string): string {
    EqualsXpath(t, v) + " or " + StartsWithXpath(t, v + " ") + " or " + StartsWithXpath(t, v + "-")
  }

  /**
   * `mkXpathAttributeSelector`: the XPath test for one attribute filter. An
   * attribute block without a quoted value renders its value as empty.
   */
  function AttributeXpath(a: Attribute): string {
    var t := a.attrType;
    var v := a.value.GetOr("");
    match a.matcher
    case Same => EqualsXpath(t, v)
    case Start => StartsWithXpath(t, v)
    case End => EndsWithXpath(t, v)
    case ContainsWord => HasWordXpath(t, v)
    case ContainsPrefix => PrefixXpath(t, v)
    case Not => "not(" + EqualsXpath(t, v) + ")"
    case Bare => "@" + t
  }

  /** One bracketed test per attribute, in order. */
  function AttributesXpath(attrs: seq<Attribute>): string {
    if attrs == [] then ""
    else AttributesXpath(attrs[..|attrs| - 1]) + "[" + AttributeXpath(attrs[|attrs| - 1]) + "]"
  }

  // ---------------------------------------------------------------- :not

  // The length of the prefix `/*/*[` or `/*/descendant::*[` that the `:not`
  // replacement strips, or 0 when the text starts with neither.
  function NotBodyStart(x: string): (p: nat)
    ensures p == 0 || p == 5 || p == 17
    ensures p <= |x|
  {
    if |x| >= 5 && x[..5] == "/*/*[" then 5
    else if |x| >= 17 && x[..17] == "/*/descendant::*[" then 17
    else 0
  }

  /** The first `]` or line break at or after `k`, or the end of the text. */
  function FirstStop(x: string, k: nat): (j: nat)
    requires k <= |x|
    ensures k <= j <= |x|
    ensures forall i :: k <= i < j ==> x[i] != ']' && x[i] != '\n'
    ensures j == |x| || x[j] == ']' || x[j] == '\n'
    decreases |x| - k
  {
    if k == |x| || x[k] == ']' || x[k] == '\n' then k else FirstStop(x, k + 1)
  }

  /**
   * The ungreedy replacement of Parser.php:383: the leading step and its `[`
   * are dropped together with the first `]` after them, provided no line break
   * comes first; otherwise the text is kept as it is.
   */
  function StripNot(x: string): (r: string)
    ensures r == x || |r| == |x| - NotBodyStart(x) - 1
  {
    var p := NotBodyStart(x);
    if p == 0 then x
    else
      var j := FirstStop(x, p);
      if j < |x| && x[j] == ']' then x[p..j] + x[j + 1..] else x
  }

  /** Either step, followed by anything, is recognised with its own length. */
  lemma NotBodyStartOf(pre: string, y: string)
    requires pre == "/*/*[" || pre == "/*/descendant::*["
    ensures NotBodyStart(pre + y) == |pre|
  {
    var x := pre + y;
    assert x[..|pre|] == pre;
    assert x[3] == pre[3];
  }

  /** The first stop is the only `]` or line break with none before it. */
  lemma {:induction false} FirstStopAt(x: string, k: nat, j: nat)
    requires k <= j < |x| && x[j] == ']'
    requires forall i :: k <= i < j ==> x[i] != ']' && x[i] != '\n'
    ensures FirstStop(x, k) == j
  {
  }

  /** The prefix, the filter up to its first `]`, and the rest: only the filter and the rest stay. */
  lemma StripNotFilter(pre: string, body: string, rest: string)
    requires pre == "/*/*[" || pre == "/*/descendant::*["
    requires forall i :: 0 <= i < |body| ==> body[i] != ']' && body[i] != '\n'
    ensures StripNot(pre + body + "]" + rest) == body + rest
  {
    var x := pre + body + "]" + rest;
    var p, j := |pre|, |pre| + |body|;
    assert x == pre + (body + "]" + rest);
    NotBodyStartOf(pre, body + "]" + rest);
    forall i | p <= i < j
      ensures x[i] != ']' && x[i] != '\n'
    {
      assert x[i] == body[i - p];
    }
    assert x[j] == ']';
    FirstStopAt(x, p, j);
    assert x[p..j] == body;
    assert x[j + 1..] == rest;
  }

  /** Text that does not start with one of the two steps is kept whole. */
  lemma StripNotOther(x: string)
    requires !(|x| >= 5 && x[..5] == "/*/*[") && !(|x| >= 17 && x[..17] == "/*/descendant::*[")
    ensures StripNot(x) == x
  {
  }

  /** A prefix whose filter is never closed before a line break or the end is kept whole. */
  lemma StripNotUnclosed(pre: string, body: string)
    requires pre == "/*/*[" || pre == "/*/descendant::*["
    requires forall i :: 0 <= i < |body| ==> body[i] != ']'
    ensures StripNot(pre + body) == pre + body
  {
    var x := pre + body;
    assert x[..|pre|] == pre;
    assert x[3] == pre[3];
    assert forall i :: |pre| <= i < |x| ==> x[i] == body[i - |pre|];
  }

  // ---------------------------------------------------------------- pseudo-selectors, rules, pieces

  function PseudoError(name: string): string {
    "Unrecognized pseudo selector '" + name + "'"
  }

  /**
   * `mkXpathPseudoSelector`. The only failures are an unknown name and, for
   * `:not`, a failure of the nested translation.
   */
  function PseudoXpath(p: Pseudo): (r: Outcome<string>)
    ensures r.Malformed? && p.name != "not" ==> r.message == PseudoError(p.name)
    ensures r.Diverges? ==> p.name == "not"
    decreases PseudoSize(p), 0, 0
  {
    if p.name == "first-child" then Ok("position() = 1")
    else if p.name == "last-child" then Ok("position() = last()")
    else if p.name == "nth-child" then Ok(NthChildXpath(p.value.GetOr("")))
    else if p.name == "not" then
      var inner :- Translate(p.value.GetOr(""));
      Ok("not(" + StripNot(inner) + ")")
    else Malformed(PseudoError(p.name))
  }

  function PseudosXpath(ps: seq<Pseudo>): (r: Outcome<string>)
    decreases PseudosSize(ps), 1, |ps|
  {
    if ps == [] then Ok("")
    else
      var init :- PseudosXpath(ps[..|ps| - 1]);
      var last :- PseudoXpath(ps[|ps| - 1]);
      Ok(init + "[" + last + "]")
  }

  /** One rule's steps: axis, tag test, attribute tests, pseudo-selector tests. */
  function RuleXpath(rule: Rule): (r: Outcome<string>)
    decreases PseudosSize(rule.pseudos), 2, 0
  {
    var pseudos :- PseudosXpath(rule.pseudos);
    Ok(AxisStep(rule.directChild) + TagTest(rule.tagName) + AttributesXpath(rule.attributes) + pseudos)
  }

  /** The steps of every rule, in order: the loop body of `rules2Xpath`. */
  function RuleSteps(rules: seq<Rule>): (r: Outcome<string>)
    decreases RulesSize(rules), 2, |rules|
  {
    if rules == [] then Ok("")
    else
      var init :- RuleSteps(rules[..|rules| - 1]);
      var last :- RuleXpath(rules[|rules| - 1]);
      Ok(init + last)
  }

  // `rules2Xpath`: the root step `/*` followed by the steps of every rule.
  function RulesXpath(rules: seq<Rule>): (r: Outcome<string>)
    decreases RulesSize(rules), 3, 0
  {
    var steps :- RuleSteps(rules);
    Ok("/*" + steps)
  }

  /** One iteration of the loop of `_parse`: trim, scan from offset 0, render. */
  function TranslatePiece(piece: string): (r: Outcome<string>)
    decreases |piece|, 4, 0
  {
    var t := Trim(piece);
    ScanRulesSize(t);
    var rules :- ScanRules(t);
    assert RulesSize(rules) <= |piece|;
    RulesXpath(rules)
  }

  /** The pieces in order; the first failure is the result. */
  function TranslatePieces(pieces: seq<string>): (r: Outcome<seq<string>>)
    ensures r.Ok? ==> |r.value| == |pieces|
    decreases TotalLength(pieces), 5, |pieces|
  {
    if pieces == [] then Ok([])
    else
      var init :- TranslatePieces(pieces[..|pieces| - 1]);
      var last :- TranslatePiece(pieces[|pieces| - 1]);
      Ok(init + [last])
  }

  /** `Parser::parse`: translate every comma-separated piece and join them with `|`. */
  function Translate(s: string): (r: Outcome<string>)
    decreases |s|, 6, 0
  {
    SplitLength(s, ',');
    var xs :- TranslatePieces(Split(s, ','));
    Ok(Join(xs, "|"))
  }
}
