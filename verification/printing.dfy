/**
 * A printer for rule lists, written independently of the scanner: the text
 * that module RoundTrip reads back into the rule list. The printer uses the
 * `#`/`.` shorthands of `Parser::$ATTRS` where they apply and bracketed blocks otherwise, writes `*`
 * for a rule with no filters, and separates rules with a space, adding `> `
 * before a rule reached as a direct child.
 */
module Printing {
  import opened Outcomes
  import opened Text
  import opened Rules
  import opened Scanner
  import opened Layout

  // ---------------------------------------------------------------- the printer

  /** `"v"` after an operator, or nothing. */
  function ValueText(value: Option<string>): string {
    match value
    case Some(v) => "\"" + (v + "\"")
    case None => ""
  }

  /** What follows the name in a block: the operator, the optional value and `]`. */
  function BlockRest(a: Attribute): string {
    MatcherSymbol(a.matcher) + (ValueText(a.value) + "]")
  }

  /** `[type<op>"value"]`. */
  function BlockText(a: Attribute): string {
    "[" + (a.attrType + BlockRest(a))
  }

  predicate IsIdShorthand(a: Attribute) {
    a.value.Some? && a.attrType == "id" && a.matcher == Same
  }

  predicate IsClassShorthand(a: Attribute) {
    a.value.Some? && a.attrType == "class" && a.matcher == ContainsWord
  }

  function AttributeText(a: Attribute): string {
    if IsIdShorthand(a) then "#" + a.value.value
    else if IsClassShorthand(a) then "." + a.value.value
    else BlockText(a)
  }

  function AttributesText(attrs: seq<Attribute>): string {
    Joined(AttributeText, attrs)
  }

  /** `(value)`, or nothing. */
  function ArgumentText(value: Option<string>): string {
    match value
    case Some(v) => "(" + (v + ")")
    case None => ""
  }

  /** `:name` or `:name(value)`. */
  function PseudoText(p: Pseudo): string {
    ":" + (p.name + ArgumentText(p.value))
  }

  function PseudosText(ps: seq<Pseudo>): string {
    Joined(PseudoText, ps)
  }

  /** The attribute filters, then the pseudo-selectors. */
  function FiltersText(r: Rule): string {
    AttributesText(r.attributes) + PseudosText(r.pseudos)
  }

  /** The tag and the filters of a rule, or `*` when it has none. */
  function RuleBody(r: Rule): string {
    var t := r.tagName.GetOr("") + FiltersText(r);
    if t == "" then "*" else t
  }

  /** The combinator in front of a rule: a separating space, then `> ` for a direct child. */
  function CombinatorText(separated: bool, directChild: bool): string {
    (if separated then " " else "") + (if directChild then "> " else "")
  }

  /** A rule with the combinator that leads to it. */
  function RuleText(separated: bool, r: Rule): string {
    CombinatorText(separated, r.directChild) + RuleBody(r)
  }

  /** A rule after the first, separated from the one before it. */
  function FollowingRuleText(r: Rule): string {
    RuleText(true, r)
  }

  /** The rules of a piece, the first with no separator in front. */
  function PieceText(rules: seq<Rule>): string {
    if rules == [] then "" else RuleText(false, rules[0]) + Joined(FollowingRuleText, rules[1..])
  }

  /** Attribute names are letters and values are value characters, as the scanner extracts them. */
  predicate PrintableAttribute(a: Attribute) {
    AllIn(a.attrType, TagChars) && (a.value.Some? ==> AllIn(a.value.value, ValueChars))
  }

  /** Pseudo names are `[a-z-]`, and a pseudo value holds balanced parentheses. */
  predicate PrintablePseudo(p: Pseudo) {
    AllIn(p.name, PseudoNameChars) && (p.value.Some? ==> Balanced(p.value.value))
  }

  /** The rules the printer can write so that the scanner reads them back. */
  predicate Printable(r: Rule) {
    (r.tagName.Some? ==> |r.tagName.value| >= 1 && AllIn(r.tagName.value, TagChars))
    && (forall a <- r.attributes :: PrintableAttribute(a))
    && (forall p <- r.pseudos :: PrintablePseudo(p))
  }
}
