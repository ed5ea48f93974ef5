/**
 * The class `Parser` of src/RPBase/Css2Xpath/Parser.php with its own state: the
 * full selector, the piece being scanned with its length and the cursor
 * `offset`, and the cached XPath. The scanning methods move `offset` through
 * `while` loops as the source does, and each is proved to compute what the
 * matching function of the Scanner module describes; `_parse` and `getXpath`
 * are proved to compute `Render.Translate`.
 *
 * A thrown MalformedCssExpressionException is a `Malformed` result. Where the
 * source's loop would run forever (the cursor stops moving in `extractRules`),
 * the method returns `Diverges` instead of looping.
 */
module Css2Xpath {
  import opened Outcomes
  import opened Text
  import opened Rules
  import opened Scanner
  import opened Render
  import opened Translation

  /**
   * What `getXpath` answers once the translation has been attempted: a thrown
   * failure leaves `''` behind. After `Diverges` the PHP loop never returns, so
   * the `''` cached in that case stands for no state PHP reaches.
   */
  function CachedXpath(s: string): string {
    match Translate(s)
    case Ok(x) => x
    case _ => ""
  }

  class Parser {
    const fullSelector: string
    var selector: string
    var length: nat
    var offset: nat
    var xpath: Option<string>

    /** The length field describes the current piece, and a cached XPath is the translation's. */
    predicate Valid()
      reads this
    {
      length == |selector| && (xpath.Some? ==> xpath.value == CachedXpath(fullSelector))
    }

    /** The cursor is inside the current piece or just past it. */
    predicate Scanning()
      reads this
    {
      length == |selector| && offset <= length
    }

    constructor(selector: string)
      ensures fullSelector == selector && xpath == None
      ensures Valid()
    {
      fullSelector := selector;
      this.selector := "";
      length := 0;
      offset := 0;
      xpath := None;
    }

    /** `Parser::parse`: a fresh parser's `getXpath`. */
    static method Parse(selector: string) returns (r: Outcome<string>)
      ensures r == Translate(selector)
    {
      var instance := new Parser(selector);
      r := instance.GetXpath();
    }

    /**
     * `getXpath`: translates on the first call only; every later call answers
     * the cached text without translating again, which after a failure is `''`.
     */
    method GetXpath() returns (r: Outcome<string>)
      requires Valid()
      modifies this
      ensures Valid()
      ensures old(xpath).None? ==> r == Translate(fullSelector)
      ensures old(xpath).Some? ==> r == Ok(CachedXpath(fullSelector))
      ensures xpath == Some(CachedXpath(fullSelector))
    {
      if xpath == None {
        r := DoParse();
      } else {
        r := Ok(xpath.value);
      }
    }

    /**
     * `_parse`: the cache is set to `''` first; each comma-separated piece is
     * trimmed, scanned from offset 0 and rendered; the results are joined with
     * `|` into the cache. A failing piece ends the translation with `''` cached.
     * When the failure is `Diverges`, `_parse` in PHP never returns, so the
     * cached `''` then models no PHP behaviour; only the result says so.
     */
    method DoParse() returns (r: Outcome<string>)
      requires length == |selector|
      modifies this
      ensures Valid()
      ensures r == Translate(fullSelector)
      ensures xpath == Some(CachedXpath(fullSelector))
    {
      xpath := Some("");
      TranslateByPieces(fullSelector);
      var parsed := ParsePieces(Split(fullSelector, ','));
      if !parsed.Ok? {
        return parsed.PropagateFailure();
      }
      xpath := Some(Join(parsed.value, "|"));
      r := Ok(Join(parsed.value, "|"));
    }

    /** The loop of `_parse`: every piece in order, until the first that fails. */
    method ParsePieces(selectors: seq<string>) returns (r: Outcome<seq<string>>)
      requires length == |selector|
      modifies this
      ensures length == |selector| && xpath == old(xpath)
      ensures r == TranslatePieces(selectors)
    {
      var parsed: seq<string> := [];
      var i := 0;
      while i < |selectors|
        invariant i <= |selectors|
        invariant length == |selector| && xpath == old(xpath)
        invariant TranslatePieces(selectors[..i]) == Ok(parsed)
      {
        var x := ParsePiece(selectors[i]);
        PiecesPrefixSnoc(selectors, i);
        if !x.Ok? {
          PiecesFail(selectors, i + 1);
          return x.PropagateFailure();
        }
        parsed := parsed + [x.value];
        i := i + 1;
      }
      assert selectors[..i] == selectors;
      r := Ok(parsed);
    }

    /**
     * The body of the loop of `_parse`: the piece, trimmed, becomes the text
     * being scanned from offset 0; its rules are extracted and rendered.
     */
    method ParsePiece(piece: string) returns (r: Outcome<string>)
      modifies this
      ensures length == |selector| && xpath == old(xpath)
      ensures r == TranslatePiece(piece)
    {
      selector := Trim(piece);
      length := |selector|;
      offset := 0;
      var rules := ExtractRules();
      if !rules.Ok? {
        return rules.PropagateFailure();
      }
      r := RulesXpath(rules.value);
    }

    /**
     * `extractRules` from the current offset: the first rule's combinator is
     * read, then one token per turn until the piece ends.
     */
    method ExtractRules() returns (r: Outcome<seq<Rule>>)
      requires Scanning()
      modifies this
      ensures selector == old(selector) && length == old(length) && xpath == old(xpath)
      ensures var start := NextRule(selector, old(offset)); r == ScanFrom(selector, start.1, [], EmptyRule(start.0))
    {
      var rules: seq<Rule> := [];
      var crt := GetEmptyRule();
      ghost var target := ScanFrom(selector, offset, rules, crt);
      while offset < length
        invariant Scanning() && selector == old(selector) && length == old(length) && xpath == old(xpath)
        invariant ScanFrom(selector, offset, rules, crt) == target
        decreases length - offset
      {
        var step :- ExtractToken(crt);
        if step.pushed {
          rules := rules + [crt];
        }
        crt := step.crt;
      }
      rules := rules + [crt];
      r := Ok(rules);
    }

    /**
     * One turn of the loop of `extractRules` with the rule `crt` in progress:
     * the token at the cursor is added to `crt`, or, on any other character,
     * `crt` is pushed and a new rule begins after the combinator. A turn that
     * leaves the cursor where it was would repeat forever; it ends in `Diverges`.
     */
    method ExtractToken(crt: Rule) returns (r: Outcome<Step>)
      requires Scanning() && offset < length
      modifies this
      ensures selector == old(selector) && length == old(length) && xpath == old(xpath)
      ensures r == ScanStep(selector, old(offset), crt)
      ensures r.Ok? ==> offset == r.value.next
    {
      var c := GetChar(0);
      if c in Shorthands {
        var attr := Shorthands[c];
        var value := ExtractAttributeValue();
        r := Ok(Step(offset, false, crt.(attributes := crt.attributes + [Attribute(attr.attrType, attr.matcher, Some(value))])));
      } else if IsLetter(c[0]) {
        var tagName := ExtractTagName();
        r := Ok(Step(offset, false, crt.(tagName := Some(tagName))));
      } else if c == "*" {
        offset := offset + 1;
        r := Ok(Step(offset, false, crt));
      } else if c == ":" {
        var pseudo := ExtractPseudoSelector();
        r := Ok(Step(offset, false, crt.(pseudos := crt.pseudos + [pseudo])));
      } else if c == "[" {
        var attribute :- ExtractAttributeBlock();
        r := Ok(Step(offset, false, crt.(attributes := crt.attributes + [attribute])));
      } else {
        var before := offset;
        var next := GetEmptyRule();
        if offset == before {
          return Diverges;
        }
        r := Ok(Step(offset, true, next));
      }
    }

    /**
     * The `[` branch of `extractRules`: the attribute name, the spaces after it,
     * then the operator, value and `]` read by `ExtractAttributeOperator`.
     */
    method ExtractAttributeBlock() returns (r: Outcome<Attribute>)
      requires Scanning() && offset < length && selector[offset] == '['
      modifies this
      ensures selector == old(selector) && length == old(length) && xpath == old(xpath)
      ensures ScanAttributeBlock(selector, old(offset)).Ok? ==>
        r == Ok(ScanAttributeBlock(selector, old(offset)).value.0) && offset == ScanAttributeBlock(selector, old(offset)).value.1
      ensures ScanAttributeBlock(selector, old(offset)).Malformed? ==> r == Malformed(ScanAttributeBlock(selector, old(offset)).message)
    {
      ghost var off := offset;
      offset := offset + 1;
      var attrType := ExtractTagName();
      BlockOperator(selector, off, offset);
      var _ := FindNextRule();
      r := ExtractAttributeOperator(attrType);
    }

    /**
     * The matcher at the cursor, then the optional quoted value and the `]`;
     * an operator that names no matcher fails the block.
     */
    method ExtractAttributeOperator(attrType: string) returns (r: Outcome<Attribute>)
      requires Scanning()
      modifies this
      ensures selector == old(selector) && length == old(length) && xpath == old(xpath)
      ensures var e := AttributeOperator(selector, attrType, old(offset));
        && (e.Ok? ==> r == Ok(e.value.0) && offset == e.value.1)
        && (e.Malformed? ==> r == Malformed(e.message))
    {
      ghost var opStart := offset;
      var matcher := ExtractAttributeMatcher();
      if !matcher.Ok? {
        OperatorUnknown(selector, attrType, opStart, offset);
        return matcher.PropagateFailure();
      }
      OperatorKnown(selector, attrType, opStart, offset, matcher.value);
      r := ExtractAttributeClose(attrType, matcher.value);
    }

    /**
     * The end of an attribute block after its matcher: a value when a `"`
     * follows (the closing quote is skipped unread), then the `]` that must
     * close the block, naming the offset and the character found otherwise.
     */
    method ExtractAttributeClose(attrType: string, matcher: Matcher) returns (r: Outcome<Attribute>)
      requires Scanning()
      modifies this
      ensures selector == old(selector) && length == old(length) && xpath == old(xpath)
      ensures var e := AttributeValue(selector, attrType, matcher, old(offset));
        && (e.Ok? ==> r == Ok(e.value.0) && offset == e.value.1)
        && (e.Malformed? ==> r == Malformed(e.message))
    {
      ghost var opEnd := offset;
      var value := None;
      if offset < length && GetChar(0) == "\"" {
        var v := ExtractAttributeValue();
        value := Some(v);
        offset := offset + 1;
      }
      ValueClosed(selector, attrType, matcher, opEnd, value, offset);
      if GetChar(0) != "]" {
        return Malformed(BracketError(offset, GetChar(0)));
      }
      offset := offset + 1;
      r := Ok(Attribute(attrType, matcher, value));
    }

    /** `getEmptyRule`: a rule with no filters, reached through the combinator read by `findNextRule`. */
    method GetEmptyRule() returns (rule: Rule)
      requires Scanning()
      modifies this
      ensures Scanning() && selector == old(selector) && xpath == old(xpath)
      ensures rule == EmptyRule(NextRule(selector, old(offset)).0)
      ensures offset == NextRule(selector, old(offset)).1
    {
      var directChild := FindNextRule();
      rule := EmptyRule(directChild);
    }

    /** `findNextRule`: skips spaces and at most one `>`, and answers whether it skipped a `>`. */
    method FindNextRule() returns (isDirectChild: bool)
      requires Scanning()
      modifies this
      ensures Scanning() && selector == old(selector) && xpath == old(xpath)
      ensures isDirectChild == NextRule(selector, old(offset)).0
      ensures offset == NextRule(selector, old(offset)).1
    {
      isDirectChild := false;
      var i := 0;
      while offset + i < length && (selector[offset + i] == ' ' || (!isDirectChild && selector[offset + i] == '>'))
        invariant offset + i <= length
        invariant SkipCombinator(selector, offset + i, isDirectChild) == NextRule(selector, offset)
        decreases length - offset - i
      {
        if !isDirectChild && selector[offset + i] == '>' {
          isDirectChild := true;
        }
        i := i + 1;
      }
      offset := offset + i;
    }

    /**
     * `extract` with the one-character pattern `cls`: the longest run of the
     * class at the cursor, which the cursor then skips.
     */
    method Extract(cls: CharClass) returns (value: string)
      requires Scanning()
      modifies this
      ensures Scanning() && selector == old(selector) && xpath == old(xpath)
      ensures offset == RunEnd(selector, old(offset), cls)
      ensures value == selector[old(offset)..offset]
    {
      var i := 0;
      while offset + i < length && InClass(selector[offset + i], cls)
        invariant offset + i <= length
        invariant forall k :: offset <= k < offset + i ==> InClass(selector[k], cls)
        decreases length - offset - i
      {
        i := i + 1;
      }
      RunLengthUnique(selector, offset, i, cls);
      value := selector[offset..offset + i];
      offset := offset + i;
    }

    /** `extractTagName`: the run of letters at the cursor. */
    method ExtractTagName() returns (tagName: string)
      requires Scanning()
      modifies this
      ensures Scanning() && selector == old(selector) && xpath == old(xpath)
      ensures offset == RunEnd(selector, old(offset), TagChars)
      ensures tagName == selector[old(offset)..offset]
    {
      tagName := Extract(TagChars);
    }

    /** `extractAttributeValue`: skips one character (`#`, `.` or `"`), then the run of value characters. */
    method ExtractAttributeValue() returns (value: string)
      requires Scanning() && offset < length
      modifies this
      ensures Scanning() && selector == old(selector) && xpath == old(xpath)
      ensures offset == RunEnd(selector, old(offset) + 1, ValueChars)
      ensures value == selector[old(offset) + 1..offset]
    {
      offset := offset + 1;
      value := Extract(ValueChars);
    }

    /**
     * `extractAttributeMatcher`: the run of operator characters at the cursor
     * names a matcher, or the parser fails naming the offset after the run.
     */
    method ExtractAttributeMatcher() returns (r: Outcome<Matcher>)
      requires Scanning()
      modifies this
      ensures Scanning() && selector == old(selector) && xpath == old(xpath)
      ensures offset == RunEnd(selector, old(offset), MatcherChars)
      ensures MatcherOf(selector[old(offset)..offset]).Some? ==> r == Ok(MatcherOf(selector[old(offset)..offset]).value)
      ensures MatcherOf(selector[old(offset)..offset]).None? ==> r == Malformed(MatcherError(offset, selector[old(offset)..offset]))
    {
      var matcher := Extract(MatcherChars);
      match MatcherOf(matcher)
      case Some(m) => r := Ok(m);
      case None => r := Malformed(MatcherError(offset, matcher));
    }

    /**
     * `extractPseudoSelector` at a `:`: the `[a-z-]` run after it is the name;
     * after a `(` the depth count runs until the parentheses balance or the
     * piece ends, and the value is what lies between.
     */
    method ExtractPseudoSelector() returns (pseudo: Pseudo)
      requires Scanning() && offset < length && selector[offset] == ':'
      modifies this
      ensures Scanning() && selector == old(selector) && xpath == old(xpath)
      ensures pseudo == ScanPseudo(selector, old(offset)).0
      ensures offset == ScanPseudo(selector, old(offset)).1
    {
      ghost var off := offset;
      var name := ExtractPseudoName();
      ghost var nameEnd := offset;
      pseudo := Pseudo(name, None);
      if offset < length && selector[offset] == '(' {
        var value := ExtractPseudoValue();
        pseudo := Pseudo(name, Some(value));
      }
      PseudoScanned(selector, off, nameEnd, pseudo, offset);
    }

    /** The first loop of `extractPseudoSelector`: the name after the `:` at the cursor, which moves past it. */
    method ExtractPseudoName() returns (name: string)
      requires Scanning() && offset < length
      modifies this
      ensures Scanning() && selector == old(selector) && xpath == old(xpath)
      ensures offset == RunEnd(selector, old(offset) + 1, PseudoNameChars)
      ensures name == selector[old(offset) + 1..offset]
    {
      var i := 1;
      while offset + i < length && InClass(selector[offset + i], PseudoNameChars)
        invariant 1 <= i && offset + i <= length
        invariant forall k :: offset + 1 <= k < offset + i ==> InClass(selector[k], PseudoNameChars)
        decreases length - offset - i
      {
        i := i + 1;
      }
      RunLengthUnique(selector, offset + 1, i - 1, PseudoNameChars);
      name := selector[offset + 1..offset + i];
      offset := offset + i;
    }

    /**
     * The second loop of `extractPseudoSelector`, at a `(`: the depth count
     * starts at one and stops when it reaches zero or the piece ends; the value
     * is what lies between the `(` and the last character read.
     */
    method ExtractPseudoValue() returns (value: string)
      requires Scanning() && offset < length
      modifies this
      ensures Scanning() && selector == old(selector) && xpath == old(xpath)
      ensures offset == ParenEnd(selector, old(offset) + 1, 1)
      ensures value == if offset > old(offset) + 1 then selector[old(offset) + 1..offset - 1] else ""
    {
      var i := 1;
      var openned: nat := 1;
      while offset + i < length && openned != 0
        invariant 1 <= i && offset + i <= length
        invariant ParenEnd(selector, offset + i, openned) == ParenEnd(selector, offset + 1, 1)
        decreases length - offset - i
      {
        var c := selector[offset + i];
        if c == '(' {
          openned := openned + 1;
        } else if c == ')' {
          openned := openned - 1;
        }
        i := i + 1;
      }
      value := if i >= 2 then selector[offset + 1..offset + i - 1] else "";
      offset := offset + i;
    }

    /** `getChar`: the character `offsetIndex` places after the cursor, or `''` past the end. */
    function GetChar(offsetIndex: nat): (c: string)
      reads this
      ensures offset + offsetIndex < |selector| ==> c == [selector[offset + offsetIndex]]
      ensures offset + offsetIndex >= |selector| ==> c == ""
    {
      CharAt(selector, offset + offsetIndex)
    }
  }
}
