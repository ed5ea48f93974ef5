/**
 * How `extractRules` fails on attribute blocks it does not accept, and where
 * it never ends, stated for every selector of the shapes that
 * tests/RPBaseTest/Css2Xpath/ParserTest.php uses; the test selectors
 * themselves follow as instances.
 */
module Failures {
  import opened Outcomes
  import opened Text
  import opened Rules
  import opened Scanner

  /** When the first turn of the loop fails, so does the scan of the whole piece. */
  lemma FirstTurnFails(s: string)
    requires |s| > 0 && s[0] != ' ' && s[0] != '>'
    requires !ScanStep(s, 0, EmptyRule(false)).Ok?
    ensures ScanRules(s) == ScanStep(s, 0, EmptyRule(false)).PropagateFailure()
  {
    assert NextRule(s, 0) == (false, 0);
  }

  /** An attribute block starting the piece fails the scan as the block fails. */
  lemma BlockFails(s: string)
    requires |s| > 0 && s[0] == '['
    requires ScanAttributeBlock(s, 0).Malformed?
    ensures ScanRules(s) == Malformed(ScanAttributeBlock(s, 0).message)
  {
    assert "[" !in Shorthands;
    FirstTurnFails(s);
  }

  /** After `[`, the attribute name runs up to the first character that is not a letter. */
  lemma NameEnd(s: string, name: string)
    requires AllIn(name, TagChars) && |name| + 1 < |s|
    requires s[1..|name| + 1] == name && !IsLetter(s[|name| + 1])
    ensures RunEnd(s, 1, TagChars) == |name| + 1
  {
    forall k | 1 <= k < |name| + 1
      ensures InClass(s[k], TagChars)
    {
      assert s[k] == name[k - 1];
    }
    RunLengthUnique(s, 1, |name|, TagChars);
  }

  /** An operator run at `e` ends where `op` ends, if no operator character follows it. */
  lemma OperatorEnd(s: string, e: nat, op: string)
    requires AllIn(op, MatcherChars) && e + |op| <= |s| && s[e..e + |op|] == op
    requires e + |op| == |s| || !InClass(s[e + |op|], MatcherChars)
    ensures RunEnd(s, e, MatcherChars) == e + |op|
  {
    forall k | e <= k < e + |op|
      ensures InClass(s[k], MatcherChars)
    {
      assert s[k] == op[k - e];
    }
    RunLengthUnique(s, e, |op|, MatcherChars);
  }

  /** After `"` comes a character that is not a value character: the value is empty, and `]` is expected after that character. */
  lemma EmptyQuotedValue(s: string, name: string, m: Matcher, opEnd: nat)
    requires opEnd + 2 < |s| && s[opEnd] == '"' && !InClass(s[opEnd + 1], ValueChars) && s[opEnd + 2] != ']'
    ensures AttributeValue(s, name, m, opEnd) == Malformed(BracketError(opEnd + 2, [s[opEnd + 2]]))
  {
    assert RunEnd(s, opEnd + 1, ValueChars) == opEnd + 1;
  }

  /**
   * A block whose name is followed by a character that is no space, no
   * operator character, no `"` and no `]` fails at that character: the matcher
   * read there is empty, no value follows, and `]` is expected in its place.
   * `[href+"url"]` fails at offset 5 on `+`.
   */
  lemma UnclosedBlock(name: string, c: char, rest: string)
    requires AllIn(name, TagChars)
    requires !IsLetter(c) && !InClass(c, MatcherChars) && c != ' ' && c != '>' && c != '"' && c != ']'
    ensures ScanRules("[" + name + [c] + rest) == Malformed(BracketError(|name| + 1, [c]))
  {
    var s := "[" + name + [c] + rest;
    var e := |name| + 1;
    assert s[0] == '[' && s[e] == c;
    assert s[1..e] == name;
    NameEnd(s, name);
    assert NextRule(s, e) == (false, e);
    assert RunEnd(s, e, MatcherChars) == e;
    assert s[e..e] == "";
    OperatorKnown(s, name, e, e, Bare);
    assert AttributeValue(s, name, Bare, e) == Malformed(BracketError(e, [c]));
    BlockFails(s);
  }

  /**
   * A run of operator characters that spells no matcher fails the block,
   * naming the offset after the run and the run itself: `[href*="url"]` fails
   * at offset 7 on `*=`.
   */
  lemma UnknownMatcher(name: string, op: string, rest: string)
    requires AllIn(name, TagChars)
    requires |op| >= 1 && AllIn(op, MatcherChars) && MatcherOf(op).None?
    requires rest == [] || !InClass(rest[0], MatcherChars)
    ensures ScanRules("[" + name + op + rest) == Malformed(MatcherError(|name| + 1 + |op|, op))
  {
    var s := "[" + name + op + rest;
    var e := |name| + 1;
    var opEnd := e + |op|;
    assert s[0] == '[' && s[e] == op[0];
    assert s[1..e] == name;
    NameEnd(s, name);
    assert NextRule(s, e) == (false, e);
    assert s[e..opEnd] == op;
    assert opEnd < |s| ==> s[opEnd] == rest[0];
    OperatorEnd(s, e, op);
    OperatorUnknown(s, name, e, opEnd);
    BlockFails(s);
  }

  /**
   * The character right after an opening `"` that is not a value character is
   * taken for the closing quote: the value read is empty and `]` is expected
   * one character further on. `[href^="/url"]` fails at offset 9 on `u`.
   */
  lemma QuoteSkipsCharacter(name: string, op: string, m: Matcher, c: char, d: char, rest: string)
    requires AllIn(name, TagChars)
    requires AllIn(op, MatcherChars) && MatcherOf(op) == Some(m)
    requires !InClass(c, ValueChars) && d != ']'
    ensures ScanRules("[" + name + op + "\"" + [c] + [d] + rest)
         == Malformed(BracketError(|name| + |op| + 3, [d]))
  {
    var s := "[" + name + op + "\"" + [c] + [d] + rest;
    var e := |name| + 1;
    var opEnd := e + |op|;
    assert s[0] == '[' && s[opEnd] == '"' && s[opEnd + 1] == c && s[opEnd + 2] == d;
    assert s[1..e] == name;
    assert e < opEnd ==> s[e] == op[0];
    NameEnd(s, name);
    assert NextRule(s, e) == (false, e);
    assert s[e..opEnd] == op;
    OperatorEnd(s, e, op);
    OperatorKnown(s, name, e, opEnd, m);
    EmptyQuotedValue(s, name, m, opEnd);
    BlockFails(s);
  }

  /**
   * A tag name followed by a stray character never ends: the tag is read, and
   * the loop then stays on that character forever. `h1` and `a+b` are such.
   */
  lemma TagThenStray(name: string, c: char, rest: string)
    requires |name| >= 1 && AllIn(name, TagChars) && Stray(c)
    ensures ScanRules(name + [c] + rest) == Diverges
  {
    var s := name + [c] + rest;
    var e := |name|;
    assert s[0] == name[0] && s[e] == c;
    forall k | 0 <= k < e
      ensures InClass(s[k], TagChars)
    {
      assert s[k] == name[k];
    }
    RunLengthUnique(s, 0, e, TagChars);
    assert s[0..e] == name;
    assert NextRule(s, 0) == (false, 0);
    assert [s[0]] !in Shorthands;
    var crt := Rule(false, Some(name), [], []);
    assert ScanStep(s, 0, EmptyRule(false)) == Ok(Step(e, false, crt));
    StrayCharacterDiverges(s, e, [], crt);
  }

  /** `h1`: the digit after the tag name stops the loop for good. */
  lemma DigitAfterTag()
    ensures ScanRules("h1") == Diverges
  {
    TagThenStray("h", '1', "");
  }

  /** `a+b`: the sibling combinator `+` is not recognised, and the loop stops on it for good. */
  lemma SiblingCombinator()
    ensures ScanRules("a+b") == Diverges
  {
    TagThenStray("a", '+', "b");
  }
}
