/**
 * The records the scanner builds for one comma-separated piece of a selector and
 * the renderer turns into XPath: a rule per simple selector, with its attribute
 * and pseudo-selector filters.
 */
module Rules {
  import opened Outcomes
  import opened Text

  /** The attribute comparisons; the comment gives the source's name and operator. */
  datatype Matcher =
    | Same            // 'same'             =
    | ContainsPrefix  // 'contains-prefix'  |=
    | ContainsWord    // 'contains-word'    ~=
    | End             // 'end'              $=
    | Start           // 'start'            ^=
    | Not             // 'not'              !=
    | Bare            // 'none'             no operator: the attribute is present

  /** An attribute filter: `type` is the attribute's name. */
  datatype Attribute = Attribute(attrType: string, matcher: Matcher, value: Option<string>)

  /** A pseudo-selector `:name` or `:name(value)`; the value is kept unparsed. */
  datatype Pseudo = Pseudo(name: string, value: Option<string>)

  /**
   * One simple selector. `directChild` says whether it was reached through `>`
   * rather than through whitespace.
   */
  datatype Rule = Rule(directChild: bool, tagName: Option<string>, attributes: seq<Attribute>, pseudos: seq<Pseudo>)

  /** `getEmptyRule` once the combinator before the rule is known. */
  function EmptyRule(directChild: bool): Rule {
    Rule(directChild, None, [], [])
  }

  /** An entry of `Parser::$ATTRS`. */
  datatype Shorthand = Shorthand(attrType: string, matcher: Matcher)

  /** `Parser::$ATTRS`: `#x` is `[id="x"]` and `.x` is `[class~="x"]`. */
  const Shorthands: map<string, Shorthand> :=
    map["#" := Shorthand("id", Same), "." := Shorthand("class", ContainsWord)]

  // The sizes below bound the text that nested `:not(...)` selectors can hold;
  // translating a rule list re-parses pseudo values only, so they measure
  // how much re-parsing is left.

  function PseudoSize(p: Pseudo): nat {
    |p.value.GetOr("")| + 1
  }

  function PseudosSize(ps: seq<Pseudo>): nat {
    if ps == [] then 0 else PseudosSize(ps[..|ps| - 1]) + PseudoSize(ps[|ps| - 1])
  }

  function RulesSize(rules: seq<Rule>): nat {
    if rules == [] then 0 else RulesSize(rules[..|rules| - 1]) + PseudosSize(rules[|rules| - 1].pseudos)
  }

  /**
   * What the scanner's character classes guarantee of a rule: tag names are
   * letters, attribute names are letters (or the shorthand names), values are
   * `[a-zA-Z0-9_-]`, pseudo names are `[a-z-]`.
   */
  predicate CleanAttribute(a: Attribute) {
    (a.attrType == "id" || a.attrType == "class" || AllIn(a.attrType, TagChars))
    && (a.value.Some? ==> AllIn(a.value.value, ValueChars))
  }

  predicate CleanRule(r: Rule) {
    (r.tagName.Some? ==> |r.tagName.value| >= 1 && AllIn(r.tagName.value, TagChars))
    && (forall a <- r.attributes :: CleanAttribute(a))
    && (forall p <- r.pseudos :: AllIn(p.name, PseudoNameChars))
  }
}
