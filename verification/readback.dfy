/**
 * The scanner read through the printed text of one filter at a time: a printed
 * attribute block, shorthand, pseudo-selector or tag name is one turn of
 * `extractRules`, which adds exactly the printed filter to the rule in
 * progress and resumes right after it.
 */
module ReadBack {
  import opened Outcomes
  import opened Text
  import opened Rules
  import opened Scanner
  import opened Layout
  import opened Printing

  /** A run of `cls` written at `off` and followed by a character outside `cls` is what the scanner extracts. */
  lemma RunOf(s: string, off: nat, t: string, cls: CharClass)
    requires At(s, off, t) && AllIn(t, cls)
    requires off + |t| == |s| || !InClass(s[off + |t|], cls)
    ensures RunEnd(s, off, cls) == off + |t| && s[off..off + |t|] == t
  {
    forall k | off <= k < off + |t|
      ensures InClass(s[k], cls)
    {
      AtChar(s, off, t, k - off);
    }
    RunLengthUnique(s, off, |t|, cls);
    AtSlice(s, off, t);
  }

  /** The text that follows a printed rule: the end, or the space of the next combinator. */
  predicate Boundary(s: string, e: nat) {
    e == |s| || (e < |s| && s[e] == ' ')
  }

  // ---------------------------------------------------------------- attribute blocks

  lemma SymbolMatcher(m: Matcher)
    ensures AllIn(MatcherSymbol(m), MatcherChars)
    ensures MatcherOf(MatcherSymbol(m)) == Some(m)
  {
  }

  /** A quoted value, then `]`: the value is the run inside the quotes, and `]` follows the closing quote. */
  lemma QuotedValue(s: string, opEnd: nat, v: string)
    requires AllIn(v, ValueChars) && At(s, opEnd, ValueText(Some(v)) + "]")
    ensures opEnd < |s| && s[opEnd] == '"'
    ensures RunEnd(s, opEnd + 1, ValueChars) == opEnd + 1 + |v| && s[opEnd + 1..opEnd + 1 + |v|] == v
    ensures opEnd + 1 + |v| + 1 < |s| && s[opEnd + 1 + |v| + 1] == ']'
  {
    AtConcat(s, opEnd, ValueText(Some(v)), "]");
    AtChar(s, opEnd + |v| + 2, "]", 0);
    AtConcat(s, opEnd, "\"", v + "\"");
    AtChar(s, opEnd, "\"", 0);
    AtConcat(s, opEnd + 1, v, "\"");
    AtChar(s, opEnd + 1 + |v|, "\"", 0);
    RunOf(s, opEnd + 1, v, ValueChars);
  }

  /** The value part of a block at `opEnd`, then `]`: the attribute is complete and the scan resumes after `]`. */
  lemma ValueScan(s: string, a: Attribute, opEnd: nat)
    requires PrintableAttribute(a)
    requires At(s, opEnd, ValueText(a.value) + "]")
    ensures AttributeValue(s, a.attrType, a.matcher, opEnd) == Ok((a, opEnd + |ValueText(a.value)| + 1))
  {
    match a.value
    case None =>
      assert ValueText(a.value) + "]" == "]";
      AtChar(s, opEnd, "]", 0);
      ValueClosed(s, a.attrType, a.matcher, opEnd, a.value, opEnd);
    case Some(v) =>
      QuotedValue(s, opEnd, v);
      ValueClosed(s, a.attrType, a.matcher, opEnd, a.value, opEnd + 1 + |v| + 1);
  }

  /** The operator is the run of operator characters at `opStart`, and the value part follows it. */
  lemma SymbolRun(s: string, a: Attribute, opStart: nat)
    requires At(s, opStart, BlockRest(a))
    ensures var opEnd := opStart + |MatcherSymbol(a.matcher)|;
      && RunEnd(s, opStart, MatcherChars) == opEnd
      && s[opStart..opEnd] == MatcherSymbol(a.matcher)
      && At(s, opEnd, ValueText(a.value) + "]")
  {
    var sym, rest := MatcherSymbol(a.matcher), ValueText(a.value) + "]";
    AtConcat(s, opStart, sym, rest);
    AtChar(s, opStart + |sym|, rest, 0);
    SymbolMatcher(a.matcher);
    RunOf(s, opStart, sym, MatcherChars);
  }

  /** An operator run that spells a matcher hands over to the value part. */
  lemma OperatorStep(s: string, name: string, opStart: nat, opEnd: nat, m: Matcher)
    requires opStart <= |s| && RunEnd(s, opStart, MatcherChars) == opEnd
    requires s[opStart..opEnd] == MatcherSymbol(m)
    ensures AttributeValue(s, name, m, opEnd) == AttributeOperator(s, name, opStart)
  {
    SymbolMatcher(m);
    OperatorKnown(s, name, opStart, opEnd, m);
  }

  /** The operator of a block at `opStart`: it names its matcher, and the value follows. */
  lemma OperatorScan(s: string, a: Attribute, opStart: nat)
    requires PrintableAttribute(a)
    requires At(s, opStart, BlockRest(a))
    ensures AttributeOperator(s, a.attrType, opStart) == Ok((a, opStart + |BlockRest(a)|))
  {
    var opEnd := opStart + |MatcherSymbol(a.matcher)|;
    SymbolRun(s, a, opStart);
    OperatorStep(s, a.attrType, opStart, opEnd, a.matcher);
    ValueScan(s, a, opEnd);
  }

  /** What follows the name in a block starts with no letter, space or `>`. */
  lemma RestFirst(a: Attribute)
    ensures |BlockRest(a)| > 0
    ensures var c := BlockRest(a)[0]; !IsLetter(c) && c != ' ' && c != '>'
  {
  }

  /** At a character that is neither a space nor `>`, `findNextRule` does not move. */
  lemma NoCombinator(s: string, k: nat)
    requires k < |s| && s[k] != ' ' && s[k] != '>'
    ensures NextRule(s, k) == (false, k)
  {
  }

  /** The name of a block is the run of letters after `[`, and the character after it is no combinator. */
  lemma NameLayout(s: string, off: nat, a: Attribute)
    requires At(s, off + 1, a.attrType + BlockRest(a)) && AllIn(a.attrType, TagChars)
    ensures var nameEnd := off + 1 + |a.attrType|;
      && At(s, nameEnd, BlockRest(a))
      && RunEnd(s, off + 1, TagChars) == nameEnd && s[off + 1..nameEnd] == a.attrType
      && nameEnd < |s| && s[nameEnd] != ' ' && s[nameEnd] != '>'
  {
    var nameEnd := off + 1 + |a.attrType|;
    AtConcat(s, off + 1, a.attrType, BlockRest(a));
    RestFirst(a);
    AtChar(s, nameEnd, BlockRest(a), 0);
    RunOf(s, off + 1, a.attrType, TagChars);
  }

  /** A block whose name ends before a character that is no combinator hands over to the operator. */
  lemma NameStep(s: string, off: nat, nameEnd: nat, name: string)
    requires off < |s| && s[off] == '['
    requires RunEnd(s, off + 1, TagChars) == nameEnd && s[off + 1..nameEnd] == name
    requires nameEnd < |s| && s[nameEnd] != ' ' && s[nameEnd] != '>'
    ensures ScanAttributeBlock(s, off) == AttributeOperator(s, name, nameEnd)
  {
    NoCombinator(s, nameEnd);
    BlockOperator(s, off, nameEnd);
  }

  lemma NameScan(s: string, off: nat, a: Attribute)
    requires off < |s| && s[off] == '['
    requires At(s, off + 1, a.attrType + BlockRest(a)) && AllIn(a.attrType, TagChars)
    ensures At(s, off + 1 + |a.attrType|, BlockRest(a))
    ensures ScanAttributeBlock(s, off) == AttributeOperator(s, a.attrType, off + 1 + |a.attrType|)
  {
    NameLayout(s, off, a);
    NameStep(s, off, off + 1 + |a.attrType|, a.attrType);
  }

  lemma BlockOpen(s: string, off: nat, a: Attribute)
    requires At(s, off, BlockText(a))
    ensures off < |s| && s[off] == '['
    ensures At(s, off + 1, a.attrType + BlockRest(a))
  {
    AtConcat(s, off, "[", a.attrType + BlockRest(a));
    AtChar(s, off, "[", 0);
  }

  /** The name and the rest of a block after its `[`. */
  lemma BlockInside(s: string, off: nat, a: Attribute)
    requires PrintableAttribute(a)
    requires off < |s| && s[off] == '['
    requires At(s, off + 1, a.attrType + BlockRest(a))
    ensures ScanAttributeBlock(s, off) == Ok((a, off + 1 + |a.attrType| + |BlockRest(a)|))
  {
    NameScan(s, off, a);
    OperatorScan(s, a, off + 1 + |a.attrType|);
  }

  /** A printed block is scanned back into its attribute, and the scan resumes after it. */
  lemma BlockScan(s: string, off: nat, a: Attribute)
    requires PrintableAttribute(a)
    requires At(s, off, BlockText(a))
    ensures off < |s| && s[off] == '['
    ensures ScanAttributeBlock(s, off) == Ok((a, off + |BlockText(a)|))
  {
    BlockOpen(s, off, a);
    BlockInside(s, off, a);
  }

  // ---------------------------------------------------------------- single turns of the scan

  /** A shorthand key and its value: the value is the run after the key. */
  lemma ShorthandLayout(s: string, off: nat, key: string, v: string)
    requires |key| == 1 && AllIn(v, ValueChars) && At(s, off, key + v)
    requires off + 1 + |v| == |s| || !InClass(s[off + 1 + |v|], ValueChars)
    ensures off < |s| && s[off] == key[0]
    ensures RunEnd(s, off + 1, ValueChars) == off + 1 + |v| && s[off + 1..off + 1 + |v|] == v
  {
    AtConcat(s, off, key, v);
    AtChar(s, off, key, 0);
    RunOf(s, off + 1, v, ValueChars);
  }

  /** At a shorthand key the scan adds the attribute the key stands for, with the run after it as value. */
  lemma ShorthandStep(s: string, off: nat, crt: Rule, v: string)
    requires off < |s| && [s[off]] in Shorthands
    requires RunEnd(s, off + 1, ValueChars) == off + 1 + |v| && s[off + 1..off + 1 + |v|] == v
    ensures var sh := Shorthands[[s[off]]];
      ScanStep(s, off, crt) == Ok(Step(off + 1 + |v|, false, crt.(attributes := crt.attributes + [Attribute(sh.attrType, sh.matcher, Some(v))])))
  {
  }

  /** At `[` the scan adds the attribute of the block. */
  lemma BracketStep(s: string, off: nat, crt: Rule, a: Attribute, e: nat)
    requires off < |s| && s[off] == '['
    requires ScanAttributeBlock(s, off) == Ok((a, e))
    ensures ScanStep(s, off, crt) == Ok(Step(e, false, crt.(attributes := crt.attributes + [a])))
  {
  }

  /** A printed attribute filter is one turn of the scan. */
  lemma AttributeStep(s: string, off: nat, crt: Rule, a: Attribute)
    requires PrintableAttribute(a)
    requires At(s, off, AttributeText(a))
    requires off + |AttributeText(a)| == |s| || !InClass(s[off + |AttributeText(a)|], ValueChars)
    ensures ScanStep(s, off, crt) == Ok(Step(off + |AttributeText(a)|, false, crt.(attributes := crt.attributes + [a])))
  {
    if IsIdShorthand(a) {
      ShorthandLayout(s, off, "#", a.value.value);
      ShorthandStep(s, off, crt, a.value.value);
    } else if IsClassShorthand(a) {
      ShorthandLayout(s, off, ".", a.value.value);
      ShorthandStep(s, off, crt, a.value.value);
    } else {
      BlockScan(s, off, a);
      BracketStep(s, off, crt, a, off + |BlockText(a)|);
    }
  }

  /** `(value)` with balanced parentheses: the depth count stops just past its `)`. */
  lemma {:induction false} ArgumentLayout(s: string, nameEnd: nat, v: string)
    requires Balanced(v) && At(s, nameEnd, ArgumentText(Some(v)))
    ensures nameEnd < |s| && s[nameEnd] == '('
    ensures ParenEnd(s, nameEnd + 1, 1) == nameEnd + 1 + |v| + 1
    ensures s[nameEnd + 1..nameEnd + 1 + |v|] == v
  {
    AtConcat(s, nameEnd, "(", v + ")");
    AtChar(s, nameEnd, "(", 0);
    assert v[..0] == "";
    BalancedEnd(s, nameEnd + 1, v, 0);
    AtConcat(s, nameEnd + 1, v, ")");
    AtSlice(s, nameEnd + 1, v);
  }

  /** Balanced parentheses, then `)`: the depth count stops just past that `)`. */
  lemma {:induction false} BalancedEnd(s: string, from: nat, v: string, j: nat)
    requires At(s, from, v + ")") && Balanced(v) && j <= |v|
    ensures Net(v[..j]) >= 0
    ensures ParenEnd(s, from + j, 1 + Net(v[..j])) == from + |v| + 1
    decreases |v| - j
  {
    AtConcat(s, from, v, ")");
    AtChar(s, from + |v|, ")", 0);
    if j == |v| {
      assert v[..j] == v;
    } else {
      AtChar(s, from, v, j);
      assert v[..j + 1][..j] == v[..j];
      BalancedEnd(s, from, v, j + 1);
    }
  }

  /** A printed pseudo-selector: `:`, the name as a run of name characters, then the argument. */
  lemma PseudoLayout(s: string, off: nat, p: Pseudo)
    requires PrintablePseudo(p) && At(s, off, PseudoText(p))
    requires var e := off + |PseudoText(p)|;
      p.value.None? ==> e == |s| || (!InClass(s[e], PseudoNameChars) && s[e] != '(')
    ensures var nameEnd := off + 1 + |p.name|;
      && off < |s| && s[off] == ':'
      && RunEnd(s, off + 1, PseudoNameChars) == nameEnd && s[off + 1..nameEnd] == p.name
      && At(s, nameEnd, ArgumentText(p.value))
      && (p.value.None? ==> !(nameEnd < |s| && s[nameEnd] == '('))
  {
    var arg := ArgumentText(p.value);
    var nameEnd := off + 1 + |p.name|;
    AtConcat(s, off, ":", p.name + arg);
    AtChar(s, off, ":", 0);
    AtConcat(s, off + 1, p.name, arg);
    if p.value.Some? {
      AtChar(s, nameEnd, arg, 0);
    }
    RunOf(s, off + 1, p.name, PseudoNameChars);
  }

  /** A printed pseudo-selector is scanned back, and the scan resumes after it. */
  lemma PseudoScan(s: string, off: nat, p: Pseudo)
    requires PrintablePseudo(p) && At(s, off, PseudoText(p))
    requires var e := off + |PseudoText(p)|;
      p.value.None? ==> e == |s| || (!InClass(s[e], PseudoNameChars) && s[e] != '(')
    ensures off < |s| && s[off] == ':'
    ensures ScanPseudo(s, off) == (p, off + |PseudoText(p)|)
  {
    var nameEnd := off + 1 + |p.name|;
    PseudoLayout(s, off, p);
    match p.value
    case None =>
      PseudoScanned(s, off, nameEnd, p, nameEnd);
    case Some(v) =>
      ArgumentLayout(s, nameEnd, v);
      PseudoScanned(s, off, nameEnd, p, nameEnd + 1 + |v| + 1);
  }

  /** At `:` the scan adds the pseudo-selector it reads. */
  lemma PseudoStep(s: string, off: nat, crt: Rule, p: Pseudo, e: nat)
    requires off < |s| && s[off] == ':'
    requires ScanPseudo(s, off) == (p, e)
    ensures ScanStep(s, off, crt) == Ok(Step(e, false, crt.(pseudos := crt.pseudos + [p])))
  {
  }

  /** A printed tag name is one turn of the scan. */
  lemma TagStep(s: string, off: nat, crt: Rule, t: string)
    requires |t| >= 1 && AllIn(t, TagChars)
    requires At(s, off, t)
    requires off + |t| == |s| || !IsLetter(s[off + |t|])
    ensures ScanStep(s, off, crt) == Ok(Step(off + |t|, false, crt.(tagName := Some(t))))
  {
    AtChar(s, off, t, 0);
    RunOf(s, off, t, TagChars);
  }

  /** `*` is one turn of the scan that changes nothing. */
  lemma StarStep(s: string, off: nat, crt: Rule)
    requires off < |s| && s[off] == '*'
    ensures ScanStep(s, off, crt) == Ok(Step(off + 1, false, crt))
  {
  }

  /** A turn that adds to the rule in progress hands the rest of the scan on unchanged. */
  lemma {:induction false} Advance(s: string, off: nat, done: seq<Rule>, crt: Rule, next: nat, crt': Rule)
    requires off < |s| && ScanStep(s, off, crt) == Ok(Step(next, false, crt'))
    ensures ScanFrom(s, off, done, crt) == ScanFrom(s, next, done, crt')
  {
  }
}
