/**
 * The cursor scan of `Parser` (src/RPBase/Css2Xpath/Parser.php) written as
 * functions of the selector and the offset: each function gives what the
 * corresponding method returns and where it leaves `offset`. The class in
 * parser.dfy runs the same scan with a mutable offset and is proved equal to it.
 */
module Scanner {
  import opened Outcomes
  import opened Text
  import opened Rules

  // ---------------------------------------------------------------- findNextRule

  /**
   * Skips spaces, and one `>` if none was seen yet; answers whether a `>` was
   * consumed and where the skip stopped.
   */
  function SkipCombinator(s: string, k: nat, seen: bool): (r: (bool, nat))
    requires k <= |s|
    ensures k <= r.1 <= |s|
    decreases |s| - k
  {
    if k < |s| && (s[k] == ' ' || (!seen && s[k] == '>')) then
      SkipCombinator(s, k + 1, seen || s[k] == '>')
    else (seen, k)
  }

  /** `findNextRule` from `off`: (is the next rule a direct child, new offset). */
  function NextRule(s: string, off: nat): (r: (bool, nat))
    requires off <= |s|
    ensures off <= r.1 <= |s|
  {
    SkipCombinator(s, off, false)
  }

  lemma {:induction false} SkipCombinatorSpec(s: string, k: nat, seen: bool)
    requires k <= |s|
    ensures var r := SkipCombinator(s, k, seen); var dc, e := r.0, r.1;
      && (forall j :: k <= j < e ==> s[j] == ' ' || s[j] == '>')
      && (forall i, j :: k <= i < j < e && s[i] == '>' ==> s[j] != '>')
      && (seen ==> forall j :: k <= j < e ==> s[j] != '>')
      && (dc <==> seen || exists j :: k <= j < e && s[j] == '>')
      && (e == |s| || (s[e] != ' ' && (s[e] != '>' || dc)))
    decreases |s| - k
  {
    if k < |s| && (s[k] == ' ' || (!seen && s[k] == '>')) {
      SkipCombinatorSpec(s, k + 1, seen || s[k] == '>');
    }
  }

  /**
   * `findNextRule` consumes a run of spaces holding at most one `>`, answers true
   * exactly when it consumed a `>`, stops at the first character that cannot
   * continue the run, and does not move when the current character is neither a
   * space nor `>`.
   */
  lemma NextRuleSpec(s: string, off: nat)
    requires off <= |s|
    ensures var r := NextRule(s, off); var dc, e := r.0, r.1;
      && (forall j :: off <= j < e ==> s[j] == ' ' || s[j] == '>')
      && (forall i, j :: off <= i < j < e && s[i] == '>' ==> s[j] != '>')
      && (dc <==> exists j :: off <= j < e && s[j] == '>')
      && (e == |s| || (s[e] != ' ' && (s[e] != '>' || dc)))
      && (e == off <==> off == |s| || (s[off] != ' ' && s[off] != '>'))
  {
    SkipCombinatorSpec(s, off, false);
  }

  // ---------------------------------------------------------------- extractAttributeMatcher

  /** The operator that spells each matcher. */
  function MatcherSymbol(m: Matcher): string {
    match m
    case Same => "="
    case ContainsPrefix => "|="
    case ContainsWord => "~="
    case End => "$="
    case Start => "^="
    case Not => "!="
    case Bare => ""
  }

  /** The `switch` of `extractAttributeMatcher`. */
  function MatcherOf(sym: string): (m: Option<Matcher>)
  {
    if sym == "=" then Some(Same)
    else if sym == "|=" then Some(ContainsPrefix)
    else if sym == "~=" then Some(ContainsWord)
    else if sym == "$=" then Some(End)
    else if sym == "^=" then Some(Start)
    else if sym == "!=" then Some(Not)
    else if sym == "" then Some(Bare)
    else None
  }

  /**
   * A run of operator characters is recognised exactly when it is the spelling
   * of some matcher, and then it names that matcher. Every other run, `*=`
   * among them, is rejected.
   */
  lemma MatcherOfSpelling(sym: string)
    ensures forall m :: MatcherOf(sym) == Some(m) <==> MatcherSymbol(m) == sym
  {
    forall m
      ensures MatcherOf(sym) == Some(m) <==> MatcherSymbol(m) == sym
    {
      if MatcherSymbol(m) == sym {
        match m
        case Same =>
        case ContainsPrefix =>
        case ContainsWord =>
        case End =>
        case Start =>
        case Not =>
        case Bare =>
      }
    }
  }

  function MatcherError(off: nat, sym: string): string {
    "Unrecognized matcher at offset " + NatToString(off) + ": '" + sym + "'"
  }

  // ---------------------------------------------------------------- attribute blocks

  /** `getChar()` at position `k`: one character, or nothing past the end. */
  function CharAt(s: string, k: nat): (c: string)
    ensures k < |s| ==> c == [s[k]]
    ensures k >= |s| ==> c == ""
  {
    if k < |s| then [s[k]] else ""
  }

  function BracketError(off: nat, found: string): string {
    "']' expected at offset " + NatToString(off) + ", was '" + found + "'"
  }

  /**
   * The end of an attribute block once its name and matcher are read and the
   * matcher's operator ends at `opEnd`: an optional quoted value, then `]`.
   */
  function AttributeValue(s: string, name: string, m: Matcher, opEnd: nat): (r: Outcome<(Attribute, nat)>)
    requires opEnd <= |s|
    ensures !r.Diverges?
    ensures r.Ok? ==> opEnd < r.value.1 <= |s| && s[r.value.1 - 1] == ']'
  {
    var quoted := opEnd < |s| && s[opEnd] == '"';
    var valueEnd := if quoted then RunEnd(s, opEnd + 1, ValueChars) else opEnd;
    var close := if quoted then valueEnd + 1 else opEnd;
    var value := if quoted then Some(s[opEnd + 1..valueEnd]) else None;
    if close < |s| && s[close] == ']' then
      Ok((Attribute(name, m, value), close + 1))
    else
      Malformed(BracketError(close, CharAt(s, close)))
  }

  /**
   * The `[` branch of `extractRules` (Parser.php:144-162) from the `[` at `off`:
   * the attribute it appends and the offset after the closing `]`.
   */
  function ScanAttributeBlock(s: string, off: nat): (r: Outcome<(Attribute, nat)>)
    requires off < |s| && s[off] == '['
    ensures !r.Diverges?
    ensures r.Ok? ==> off < r.value.1 <= |s| && s[r.value.1 - 1] == ']'
  {
    var nameEnd := RunEnd(s, off + 1, TagChars);
    AttributeOperator(s, s[off + 1..nameEnd], NextRule(s, nameEnd).1)
  }

  /**
   * The rest of an attribute block once its name is read and the spaces after
   * it skipped: the matcher's operator from `opStart`, then the value and `]`.
   */
  function AttributeOperator(s: string, name: string, opStart: nat): (r: Outcome<(Attribute, nat)>)
    requires opStart <= |s|
    ensures !r.Diverges?
    ensures r.Ok? ==> opStart < r.value.1 <= |s| && s[r.value.1 - 1] == ']'
  {
    var opEnd := RunEnd(s, opStart, MatcherChars);
    var sym := s[opStart..opEnd];
    match MatcherOf(sym)
    case None => Malformed(MatcherError(opEnd, sym))
    case Some(m) => AttributeValue(s, name, m, opEnd)
  }

  /** The block is its name, read from after the `[`, and what follows the spaces after it. */
  lemma BlockOperator(s: string, off: nat, nameEnd: nat)
    requires off < |s| && s[off] == '['
    requires nameEnd == RunEnd(s, off + 1, TagChars)
    ensures ScanAttributeBlock(s, off) == AttributeOperator(s, s[off + 1..nameEnd], NextRule(s, nameEnd).1)
  {
  }

  /** An operator that names no matcher fails the block, naming the offset after it. */
  lemma OperatorUnknown(s: string, name: string, opStart: nat, opEnd: nat)
    requires opStart <= |s| && opEnd == RunEnd(s, opStart, MatcherChars)
    requires MatcherOf(s[opStart..opEnd]).None?
    ensures AttributeOperator(s, name, opStart) == Malformed(MatcherError(opEnd, s[opStart..opEnd]))
  {
  }

  /** An operator that names a matcher hands over to the value and the `]`. */
  lemma OperatorKnown(s: string, name: string, opStart: nat, opEnd: nat, m: Matcher)
    requires opStart <= |s| && opEnd == RunEnd(s, opStart, MatcherChars)
    requires MatcherOf(s[opStart..opEnd]) == Some(m)
    ensures AttributeOperator(s, name, opStart) == AttributeValue(s, name, m, opEnd)
  {
  }

  /**
   * The end of a block from the position `close` where its `]` is expected,
   * with the value read before it.
   */
  lemma ValueClosed(s: string, name: string, m: Matcher, opEnd: nat, value: Option<string>, close: nat)
    requires opEnd <= |s|
    requires opEnd < |s| && s[opEnd] == '"' ==>
      var valueEnd := RunEnd(s, opEnd + 1, ValueChars);
      value == Some(s[opEnd + 1..valueEnd]) && close == valueEnd + 1
    requires !(opEnd < |s| && s[opEnd] == '"') ==> value == None && close == opEnd
    ensures close < |s| && s[close] == ']' ==> AttributeValue(s, name, m, opEnd) == Ok((Attribute(name, m, value), close + 1))
    ensures !(close < |s| && s[close] == ']') ==> AttributeValue(s, name, m, opEnd) == Malformed(BracketError(close, CharAt(s, close)))
  {
  }

  // ---------------------------------------------------------------- extractPseudoSelector

  /** Opening minus closing parentheses in `t`. */
  function Net(t: string): int {
    if t == [] then 0
    else Net(t[..|t| - 1]) + (if t[|t| - 1] == '(' then 1 else if t[|t| - 1] == ')' then -1 else 0)
  }

  /**
   * The depth-counting loop of `extractPseudoSelector` from position `k` at
   * `depth` open parentheses: where it stops.
   */
  function ParenEnd(s: string, k: nat, depth: nat): (e: nat)
    requires k <= |s|
    ensures k <= e <= |s|
    decreases |s| - k
  {
    if k == |s| || depth == 0 then k
    else ParenEnd(s, k + 1, if s[k] == '(' then depth + 1 else if s[k] == ')' then depth - 1 else depth)
  }

  lemma NetSnoc(s: string, k: nat, j: nat)
    requires k <= j < |s|
    ensures Net(s[k..j + 1]) == Net(s[k..j]) + (if s[j] == '(' then 1 else if s[j] == ')' then -1 else 0)
  {
    assert s[k..j + 1][..j - k] == s[k..j];
  }

  /**
   * The loop stops when the parentheses balance or the text ends: before every
   * character it reads, at least one parenthesis is still open; when it stops
   * early they balance.
   */
  lemma {:induction false} ParenEndSpec(s: string, k: nat, depth: nat, from: nat, d0: nat)
    requires from <= k <= |s|
    requires d0 > 0 && depth == d0 + Net(s[from..k])
    requires forall j :: from <= j < k ==> d0 + Net(s[from..j]) > 0
    ensures var e := ParenEnd(s, k, depth);
      && (forall j :: from <= j < e ==> d0 + Net(s[from..j]) > 0)
      && d0 + Net(s[from..e]) >= 0
      && (e < |s| ==> d0 + Net(s[from..e]) == 0)
    decreases |s| - k
  {
    if k < |s| && depth != 0 {
      NetSnoc(s, from, k);
      ParenEndSpec(s, k + 1, if s[k] == '(' then depth + 1 else if s[k] == ')' then depth - 1 else depth, from, d0);
    }
  }

  /**
   * The value of a pseudo-selector whose `(` ends just before `from`: the text
   * up to the `)` before where the depth count stops, and where it stops.
   */
  function ParenValue(s: string, from: nat): (r: (string, nat))
    requires from <= |s|
    ensures from <= r.1 <= |s|
  {
    var e := ParenEnd(s, from, 1);
    (if e > from then s[from..e - 1] else "", e)
  }

  /**
   * `extractPseudoSelector` at the `:` at `off`: the pseudo-selector and the new
   * offset. The name is the `[a-z-]` run after `:`; after a `(` the value is the
   * text up to the parenthesis that balances it (or, when none does, what the
   * source's `substr` leaves of the rest).
   */
  function ScanPseudo(s: string, off: nat): (r: (Pseudo, nat))
    requires off < |s| && s[off] == ':'
    ensures off < r.1 <= |s|
  {
    PseudoAfterName(s, off, RunEnd(s, off + 1, PseudoNameChars))
  }

  /** The rest of `extractPseudoSelector` once the name, `s[off + 1..nameEnd]`, is read. */
  function PseudoAfterName(s: string, off: nat, nameEnd: nat): (r: (Pseudo, nat))
    requires off < nameEnd <= |s|
    ensures nameEnd <= r.1 <= |s|
  {
    var name := s[off + 1..nameEnd];
    if nameEnd < |s| && s[nameEnd] == '(' then
      var v := ParenValue(s, nameEnd + 1);
      (Pseudo(name, Some(v.0)), v.1)
    else
      (Pseudo(name, None), nameEnd)
  }

  /** After `(` the value is what the depth count delimits. */
  lemma ScanPseudoValue(s: string, off: nat, nameEnd: nat)
    requires off < |s| && s[off] == ':'
    requires nameEnd == RunEnd(s, off + 1, PseudoNameChars)
    requires nameEnd < |s| && s[nameEnd] == '('
    ensures ScanPseudo(s, off) == (Pseudo(s[off + 1..nameEnd], Some(ParenValue(s, nameEnd + 1).0)), ParenValue(s, nameEnd + 1).1)
  {
  }

  /** The value ends one before where the depth count stops, or is empty when it stops at once. */
  lemma {:induction false} ParenValueAt(s: string, from: nat, e: nat)
    requires from <= |s| && e == ParenEnd(s, from, 1)
    ensures ParenValue(s, from).1 == e
    ensures ParenValue(s, from).0 == if e > from then s[from..e - 1] else ""
  {
  }

  /**
   * What the loops of `extractPseudoSelector` compute is `ScanPseudo`: the name
   * up to `nameEnd`, and after a `(` the value up to one before where the depth
   * count stops.
   */
  lemma {:induction false} PseudoScanned(s: string, off: nat, nameEnd: nat, p: Pseudo, e: nat)
    requires off < |s| && s[off] == ':'
    requires nameEnd == RunEnd(s, off + 1, PseudoNameChars)
    requires p.name == s[off + 1..nameEnd]
    requires nameEnd < |s| && s[nameEnd] == '(' ==>
      e == ParenEnd(s, nameEnd + 1, 1) && p.value == Some(if e > nameEnd + 1 then s[nameEnd + 1..e - 1] else "")
    requires !(nameEnd < |s| && s[nameEnd] == '(') ==> e == nameEnd && p.value == None
    ensures p == ScanPseudo(s, off).0 && e == ScanPseudo(s, off).1
  {
    if nameEnd < |s| && s[nameEnd] == '(' {
      ParenValueAt(s, nameEnd + 1, e);
      ScanPseudoValue(s, off, nameEnd);
    }
  }

  /**
   * The pseudo-selector holds no more text than the scan consumed, and its name
   * is made of `[a-z-]`.
   */
  lemma ScanPseudoBounds(s: string, off: nat)
    requires off < |s| && s[off] == ':'
    ensures PseudoSize(ScanPseudo(s, off).0) <= ScanPseudo(s, off).1 - off
    ensures AllIn(ScanPseudo(s, off).0.name, PseudoNameChars)
  {
    var nameEnd := RunEnd(s, off + 1, PseudoNameChars);
    RunAllInSlice(s, off + 1, PseudoNameChars);
    assert ScanPseudo(s, off).0.name == s[off + 1..nameEnd];
  }

  /** Every `(` closed by a later `)` and no prefix closing more than it opens. */
  predicate Balanced(v: string) {
    Net(v) == 0 && forall j :: 0 <= j < |v| ==> Net(v[..j]) >= 0
  }

  /** The prefixes of a slice are the slices from the same start. */
  lemma SlicePrefixesNet(s: string, from: nat, e: nat)
    requires from <= e <= |s|
    requires forall j :: from <= j < e ==> Net(s[from..j]) >= 0
    ensures forall j :: 0 <= j < e - from ==> Net(s[from..e][..j]) >= 0
  {
    forall j | 0 <= j < e - from
      ensures Net(s[from..e][..j]) >= 0
    {
      assert s[from..e][..j] == s[from..from + j];
    }
  }

  /**
   * When the depth count returns to zero, the loop stopped just past a `)`, and
   * the text between the first `(` and that `)` is balanced.
   */
  lemma {:induction false} ParenEndClosed(s: string, from: nat)
    requires from <= |s|
    requires 1 + Net(s[from..ParenEnd(s, from, 1)]) == 0
    ensures var e := ParenEnd(s, from, 1);
      from < e && s[e - 1] == ')' && Balanced(s[from..e - 1])
  {
    var e := ParenEnd(s, from, 1);
    ParenEndSpec(s, from, 1, from, 1);
    assert from < e;
    NetSnoc(s, from, e - 1);
    SlicePrefixesNet(s, from, e - 1);
  }

  /**
   * When the parentheses after a pseudo name balance, the value is exactly the
   * text between `(` and the `)` that closes it, nested parentheses kept and
   * balanced, and the scan resumes just past that `)`.
   */
  lemma ScanPseudoBalanced(s: string, off: nat, nameEnd: nat)
    requires off < |s| && s[off] == ':'
    requires nameEnd == RunEnd(s, off + 1, PseudoNameChars)
    requires nameEnd < |s| && s[nameEnd] == '(' && 1 + Net(s[nameEnd + 1..ParenEnd(s, nameEnd + 1, 1)]) == 0
    ensures var e := ParenEnd(s, nameEnd + 1, 1);
      && nameEnd + 1 < e && s[e - 1] == ')'
      && ScanPseudo(s, off) == (Pseudo(s[off + 1..nameEnd], Some(s[nameEnd + 1..e - 1])), e)
      && Balanced(s[nameEnd + 1..e - 1])
  {
    ParenEndClosed(s, nameEnd + 1);
    ScanPseudoClosed(s, off, nameEnd);
  }

  lemma {:induction false} ScanPseudoClosed(s: string, off: nat, nameEnd: nat)
    requires off < |s| && s[off] == ':'
    requires nameEnd == RunEnd(s, off + 1, PseudoNameChars)
    requires nameEnd < |s| && s[nameEnd] == '(' && nameEnd + 1 < ParenEnd(s, nameEnd + 1, 1)
    ensures var e := ParenEnd(s, nameEnd + 1, 1);
      ScanPseudo(s, off) == (Pseudo(s[off + 1..nameEnd], Some(s[nameEnd + 1..e - 1])), e)
  {
    PseudoAfterNameClosed(s, off, nameEnd);
  }

  lemma {:induction false} PseudoAfterNameClosed(s: string, off: nat, nameEnd: nat)
    requires off < nameEnd < |s| && s[nameEnd] == '(' && nameEnd + 1 < ParenEnd(s, nameEnd + 1, 1)
    ensures var e := ParenEnd(s, nameEnd + 1, 1);
      PseudoAfterName(s, off, nameEnd) == (Pseudo(s[off + 1..nameEnd], Some(s[nameEnd + 1..e - 1])), e)
  {
    var v := ParenValue(s, nameEnd + 1);
    assert PseudoAfterName(s, off, nameEnd) == (Pseudo(s[off + 1..nameEnd], Some(v.0)), v.1);
    ParenValueAt(s, nameEnd + 1, ParenEnd(s, nameEnd + 1, 1));
  }

  // ---------------------------------------------------------------- extractRules

  /**
   * One turn of the loop of `extractRules`: the new offset, whether the rule in
   * progress was pushed (the `else` branch), and the rule in progress afterwards.
   */
  datatype Step = Step(next: nat, pushed: bool, crt: Rule)

  /**
   * One turn of the loop of `extractRules` (Parser.php:126-167) at `off` with the
   * rule `crt` in progress. A character that starts no token and cannot be
   * skipped as a combinator leaves the offset where it is, and the source then
   * loops forever: that is `Diverges`. Every other turn moves the offset forward.
   */
  function ScanStep(s: string, off: nat, crt: Rule): (r: Outcome<Step>)
    requires off < |s|
    ensures r.Ok? ==> off < r.value.next <= |s|
    ensures r.Ok? && r.value.pushed ==> r.value.crt.pseudos == []
  {
    var c := s[off];
    if [c] in Shorthands then
      var sh := Shorthands[[c]];
      var valueEnd := RunEnd(s, off + 1, ValueChars);
      var a := Attribute(sh.attrType, sh.matcher, Some(s[off + 1..valueEnd]));
      Ok(Step(valueEnd, false, crt.(attributes := crt.attributes + [a])))
    else if IsLetter(c) then
      var tagEnd := RunEnd(s, off, TagChars);
      Ok(Step(tagEnd, false, crt.(tagName := Some(s[off..tagEnd]))))
    else if c == '*' then
      Ok(Step(off + 1, false, crt))
    else if c == ':' then
      var p := ScanPseudo(s, off);
      Ok(Step(p.1, false, crt.(pseudos := crt.pseudos + [p.0])))
    else if c == '[' then
      var block :- ScanAttributeBlock(s, off);
      Ok(Step(block.1, false, crt.(attributes := crt.attributes + [block.0])))
    else
      var next := NextRule(s, off);
      if next.1 == off then Diverges else Ok(Step(next.1, true, EmptyRule(next.0)))
  }

  /**
   * The loop of `extractRules` from offset `off`, with the rules `done` already
   * pushed and `crt` in progress; the last rule is pushed when the text ends.
   */
  function ScanFrom(s: string, off: nat, done: seq<Rule>, crt: Rule): (r: Outcome<seq<Rule>>)
    requires off <= |s|
    ensures r.Ok? ==> |r.value| > |done|
    decreases |s| - off
  {
    if off == |s| then
      Ok(done + [crt])
    else
      var step :- ScanStep(s, off, crt);
      if step.pushed then
        ScanFrom(s, step.next, done + [crt], step.crt)
      else
        ScanFrom(s, step.next, done, step.crt)
  }

  /**
   * `extractRules` on a whole (trimmed) piece: the first rule's combinator is
   * read before the loop starts.
   */
  function ScanRules(s: string): (r: Outcome<seq<Rule>>)
    ensures r.Ok? ==> |r.value| >= 1
  {
    var start := NextRule(s, 0);
    ScanFrom(s, start.1, [], EmptyRule(start.0))
  }

  // The bounds below say that the pseudo-selector values a scan collects are
  // made of text it consumed: re-parsing them (for `:not`) works on less text.

  lemma ScanStepSize(s: string, off: nat, crt: Rule)
    requires off < |s|
    ensures var r := ScanStep(s, off, crt);
      r.Ok? && !r.value.pushed ==> PseudosSize(r.value.crt.pseudos) <= PseudosSize(crt.pseudos) + (r.value.next - off)
  {
    if s[off] == ':' && [s[off]] !in Shorthands {
      ScanPseudoBounds(s, off);
      var p := ScanPseudo(s, off);
      assert (crt.pseudos + [p.0])[..|crt.pseudos|] == crt.pseudos;
    }
  }

  lemma {:induction false} ScanFromSize(s: string, off: nat, done: seq<Rule>, crt: Rule)
    requires off <= |s|
    ensures var r := ScanFrom(s, off, done, crt);
      r.Ok? ==> RulesSize(r.value) <= RulesSize(done) + PseudosSize(crt.pseudos) + (|s| - off)
    decreases |s| - off
  {
    if off == |s| {
      assert (done + [crt])[..|done|] == done;
    } else {
      ScanStepSize(s, off, crt);
      var step := ScanStep(s, off, crt);
      if step.Ok? {
        if step.value.pushed {
          assert (done + [crt])[..|done|] == done;
          ScanFromSize(s, step.value.next, done + [crt], step.value.crt);
        } else {
          ScanFromSize(s, step.value.next, done, step.value.crt);
        }
      }
    }
  }

  /** The rules of a piece hold no more pseudo-selector text than the piece itself. */
  lemma ScanRulesSize(s: string)
    ensures ScanRules(s).Ok? ==> RulesSize(ScanRules(s).value) <= |s|
  {
    var start := NextRule(s, 0);
    ScanFromSize(s, start.1, [], EmptyRule(start.0));
  }

  /** A turn of the loop only ever extends the rule in progress with clean parts. */
  lemma AttributeValueClean(s: string, name: string, m: Matcher, opEnd: nat)
    requires opEnd <= |s| && AllIn(name, TagChars)
    ensures AttributeValue(s, name, m, opEnd).Ok? ==> CleanAttribute(AttributeValue(s, name, m, opEnd).value.0)
  {
    if opEnd < |s| && s[opEnd] == '"' {
      RunAllInSlice(s, opEnd + 1, ValueChars);
    }
  }

  lemma AttributeOperatorClean(s: string, name: string, opStart: nat)
    requires opStart <= |s| && AllIn(name, TagChars)
    ensures AttributeOperator(s, name, opStart).Ok? ==> CleanAttribute(AttributeOperator(s, name, opStart).value.0)
  {
    var opEnd := RunEnd(s, opStart, MatcherChars);
    match MatcherOf(s[opStart..opEnd])
    case None =>
    case Some(m) => AttributeValueClean(s, name, m, opEnd);
  }

  lemma AttributeBlockClean(s: string, off: nat)
    requires off < |s| && s[off] == '['
    ensures ScanAttributeBlock(s, off).Ok? ==> CleanAttribute(ScanAttributeBlock(s, off).value.0)
  {
    var nameEnd := RunEnd(s, off + 1, TagChars);
    var name, opStart := s[off + 1..nameEnd], NextRule(s, nameEnd).1;
    RunAllInSlice(s, off + 1, TagChars);
    AttributeOperatorClean(s, name, opStart);
  }

  lemma AddAttributeClean(crt: Rule, a: Attribute)
    requires CleanRule(crt) && CleanAttribute(a)
    ensures CleanRule(crt.(attributes := crt.attributes + [a]))
  {
  }

  lemma AddPseudoClean(crt: Rule, p: Pseudo)
    requires CleanRule(crt) && AllIn(p.name, PseudoNameChars)
    ensures CleanRule(crt.(pseudos := crt.pseudos + [p]))
  {
  }

  /** A turn of the loop only ever extends the rule in progress with clean parts. */
  lemma ScanStepClean(s: string, off: nat, crt: Rule)
    requires off < |s| && CleanRule(crt)
    ensures ScanStep(s, off, crt).Ok? ==> CleanRule(ScanStep(s, off, crt).value.crt)
  {
    var c := s[off];
    if [c] in Shorthands {
      var valueEnd := RunEnd(s, off + 1, ValueChars);
      RunAllInSlice(s, off + 1, ValueChars);
      AddAttributeClean(crt, Attribute(Shorthands[[c]].attrType, Shorthands[[c]].matcher, Some(s[off + 1..valueEnd])));
    } else if IsLetter(c) {
      RunAllInSlice(s, off, TagChars);
    } else if c == ':' {
      ScanPseudoBounds(s, off);
      AddPseudoClean(crt, ScanPseudo(s, off).0);
    } else if c == '[' {
      AttributeBlockClean(s, off);
      if ScanAttributeBlock(s, off).Ok? {
        AddAttributeClean(crt, ScanAttributeBlock(s, off).value.0);
      }
    }
  }

  /**
   * Every rule the scanner finishes is clean: the character classes it extracts
   * with keep `"` (and everything else outside them) out of tag names, attribute
   * names and values, and pseudo names.
   */
  lemma {:induction false} ScanFromClean(s: string, off: nat, done: seq<Rule>, crt: Rule)
    requires off <= |s|
    requires forall r <- done :: CleanRule(r)
    requires CleanRule(crt)
    ensures ScanFrom(s, off, done, crt).Ok? ==> forall r <- ScanFrom(s, off, done, crt).value :: CleanRule(r)
    decreases |s| - off
  {
    if off < |s| {
      ScanStepClean(s, off, crt);
      var step := ScanStep(s, off, crt);
      if step.Ok? {
        if step.value.pushed {
          ScanFromClean(s, step.value.next, done + [crt], step.value.crt);
        } else {
          ScanFromClean(s, step.value.next, done, step.value.crt);
        }
      }
    }
  }

  lemma ScanRulesClean(s: string)
    ensures ScanRules(s).Ok? ==> forall r <- ScanRules(s).value :: CleanRule(r)
  {
    var start := NextRule(s, 0);
    ScanFromClean(s, start.1, [], EmptyRule(start.0));
  }

  /**
   * Characters that start no token and cannot be skipped as a combinator: the
   * `else` branch of `extractRules` cannot move past them.
   */
  predicate Stray(c: char) {
    !([c] in Shorthands || IsLetter(c) || c == '*' || c == ':' || c == '[' || c == ' ' || c == '>')
  }

  /** Reaching a stray character at a token boundary never ends. */
  lemma {:induction false} StrayCharacterDiverges(s: string, off: nat, done: seq<Rule>, crt: Rule)
    requires off < |s| && Stray(s[off])
    ensures ScanFrom(s, off, done, crt) == Diverges
  {
    assert NextRule(s, off).1 == off;
  }

  /**
   * A piece made only of tag names, `#`/`.` shorthands, `*`, spaces and `>` is
   * always scanned to the end: divergence needs a character outside that set.
   */
  lemma {:induction false} SimpleSelectorScans(s: string, off: nat, done: seq<Rule>, crt: Rule)
    requires off <= |s|
    requires forall k :: off <= k < |s| ==> IsLetter(s[k]) || s[k] in "#.* >"
    ensures ScanFrom(s, off, done, crt).Ok?
    decreases |s| - off
  {
    if off < |s| {
      var c := s[off];
      if !([c] in Shorthands || IsLetter(c) || c == '*') {
        assert c == ' ' || c == '>';
        NextRuleSpec(s, off);
      }
      var step := ScanStep(s, off, crt);
      assert step.Ok?;
      if step.value.pushed {
        SimpleSelectorScans(s, step.value.next, done + [crt], step.value.crt);
      } else {
        SimpleSelectorScans(s, step.value.next, done, step.value.crt);
      }
    }
  }
}
