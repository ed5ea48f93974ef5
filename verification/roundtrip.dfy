/**
 * The round trip of the printer and the scanner: `extractRules` reads the
 * printed text of a printable rule list back into that very rule list.
 *
 * The proof follows the loop of `extractRules` through the tokens of the
 * printed text. Each token is one turn of the loop, which hands the rest of
 * the scan on from just after the token with the token applied to the rules
 * gathered so far (`TokenScan`); `Layout.Hops` strings the turns together,
 * and replaying the tokens rebuilds the rule list (`Tokens.ReplayPiece`).
 * Through `parse`, a printed piece then translates as its rules do.
 */
module RoundTrip {
  import opened Outcomes
  import opened Text
  import opened Rules
  import opened Scanner
  import opened Layout
  import opened Printing
  import opened ReadBack
  import opened Tokens
  import opened Render
  import opened Translation

  // ---------------------------------------------------------------- one token, one turn

  /** `c`, the character after token `t`, ends the turn that reads `t`. */
  predicate Stops(t: Token, c: char) {
    match t
    case Separator(_) => c != ' ' && c != '>'
    case TagToken(_) => !IsLetter(c)
    case Star => true
    case AttributeToken(_) => !InClass(c, ValueChars)
    case PseudoToken(_) => !InClass(c, PseudoNameChars) && c != '('
  }

  /** A printed attribute starts with `#`, `.` or `[`. */
  lemma AttributeTextFirst(a: Attribute)
    ensures |AttributeText(a)| >= 1
    ensures AttributeText(a)[0] in {'#', '.', '['}
  {
  }

  /** Whatever may follow a token starts with a character that ends it. */
  lemma TokenLead(t1: Token, t2: Token)
    requires Adjacent(t1, t2) && PrintableToken(t2)
    ensures |TokenText(t2)| >= 1 && Stops(t1, TokenText(t2)[0])
  {
    match t2
    case AttributeToken(a) =>
      AttributeTextFirst(a);
    case TagToken(name) =>
      assert InClass(name[0], TagChars);
    case _ =>
  }

  /** A space, then `> ` for a direct child, is skipped up to the next rule. */
  lemma SeparatorSkip(s: string, p: nat, dc: bool)
    requires At(s, p, CombinatorText(true, dc))
    requires var e := p + |CombinatorText(true, dc)|; e == |s| || (s[e] != ' ' && s[e] != '>')
    ensures NextRule(s, p) == (dc, p + |CombinatorText(true, dc)|)
  {
    AtChar(s, p, CombinatorText(true, dc), 0);
    if dc {
      AtChar(s, p, CombinatorText(true, dc), 1);
      AtChar(s, p, CombinatorText(true, dc), 2);
      assert SkipCombinator(s, p + 3, true) == (true, p + 3);
      assert SkipCombinator(s, p + 1, false) == SkipCombinator(s, p + 2, true);
    } else {
      assert SkipCombinator(s, p + 1, false) == (false, p + 1);
    }
  }

  /** At a separator the scan pushes the rule in progress and starts the next one. */
  lemma SeparatorStep(s: string, p: nat, crt: Rule, dc: bool)
    requires At(s, p, CombinatorText(true, dc))
    requires var e := p + |CombinatorText(true, dc)|; e == |s| || (s[e] != ' ' && s[e] != '>')
    ensures p < |s|
    ensures ScanStep(s, p, crt) == Ok(Step(p + |CombinatorText(true, dc)|, true, EmptyRule(dc)))
  {
    AtChar(s, p, CombinatorText(true, dc), 0);
    SeparatorSkip(s, p, dc);
  }

  /** A turn that pushes the rule in progress hands the rest of the scan on with it pushed. */
  lemma {:induction false} Push(s: string, off: nat, done: seq<Rule>, crt: Rule, next: nat, crt': Rule)
    requires off < |s| && ScanStep(s, off, crt) == Ok(Step(next, true, crt'))
    ensures ScanFrom(s, off, done, crt) == ScanFrom(s, next, done + [crt], crt')
  {
  }

  /** A printed token followed by a character that ends it is one turn of the scan, which applies the token. */
  lemma {:induction false} TokenScan(s: string, p: nat, t: Token, st: Progress)
    requires PrintableToken(t) && At(s, p, TokenText(t))
    requires var e := p + |TokenText(t)|; e == |s| || (e < |s| && Stops(t, s[e]))
    ensures ScanFrom(s, p, st.done, st.crt)
         == ScanFrom(s, p + |TokenText(t)|, Apply(st, t).done, Apply(st, t).crt)
  {
    if t.Separator? {
      SeparatorScan(s, p, t, st);
    } else if t.TagToken? {
      TagScan(s, p, t, st);
    } else if t.Star? {
      StarScan(s, p, t, st);
    } else if t.AttributeToken? {
      AttributeScan(s, p, t, st);
    } else {
      PseudoTokenScan(s, p, t, st);
    }
  }

  lemma {:induction false} SeparatorScan(s: string, p: nat, t: Token, st: Progress)
    requires t.Separator?
    requires PrintableToken(t) && At(s, p, TokenText(t))
    requires var e := p + |TokenText(t)|; e == |s| || (e < |s| && Stops(t, s[e]))
    ensures ScanFrom(s, p, st.done, st.crt)
         == ScanFrom(s, p + |TokenText(t)|, Apply(st, t).done, Apply(st, t).crt)
  {
    SeparatorStep(s, p, st.crt, t.directChild);
    Push(s, p, st.done, st.crt, p + |TokenText(t)|, EmptyRule(t.directChild));
  }

  lemma {:induction false} TagScan(s: string, p: nat, t: Token, st: Progress)
    requires t.TagToken?
    requires PrintableToken(t) && At(s, p, TokenText(t))
    requires var e := p + |TokenText(t)|; e == |s| || (e < |s| && Stops(t, s[e]))
    ensures ScanFrom(s, p, st.done, st.crt)
         == ScanFrom(s, p + |TokenText(t)|, Apply(st, t).done, Apply(st, t).crt)
  {
    TagStep(s, p, st.crt, t.name);
    Advance(s, p, st.done, st.crt, p + |TokenText(t)|, Apply(st, t).crt);
  }

  lemma {:induction false} StarScan(s: string, p: nat, t: Token, st: Progress)
    requires t.Star?
    requires PrintableToken(t) && At(s, p, TokenText(t))
    requires var e := p + |TokenText(t)|; e == |s| || (e < |s| && Stops(t, s[e]))
    ensures ScanFrom(s, p, st.done, st.crt)
         == ScanFrom(s, p + |TokenText(t)|, Apply(st, t).done, Apply(st, t).crt)
  {
    AtChar(s, p, "*", 0);
    StarStep(s, p, st.crt);
    Advance(s, p, st.done, st.crt, p + 1, st.crt);
  }

  lemma {:induction false} AttributeScan(s: string, p: nat, t: Token, st: Progress)
    requires t.AttributeToken?
    requires PrintableToken(t) && At(s, p, TokenText(t))
    requires var e := p + |TokenText(t)|; e == |s| || (e < |s| && Stops(t, s[e]))
    ensures ScanFrom(s, p, st.done, st.crt)
         == ScanFrom(s, p + |TokenText(t)|, Apply(st, t).done, Apply(st, t).crt)
  {
    AttributeStep(s, p, st.crt, t.attribute);
    Advance(s, p, st.done, st.crt, p + |TokenText(t)|, Apply(st, t).crt);
  }

  lemma {:induction false} PseudoTokenScan(s: string, p: nat, t: Token, st: Progress)
    requires t.PseudoToken?
    requires PrintableToken(t) && At(s, p, TokenText(t))
    requires var e := p + |TokenText(t)|; e == |s| || (e < |s| && Stops(t, s[e]))
    ensures ScanFrom(s, p, st.done, st.crt)
         == ScanFrom(s, p + |TokenText(t)|, Apply(st, t).done, Apply(st, t).crt)
  {
    var e := p + |TokenText(t)|;
    PseudoScan(s, p, t.pseudo);
    PseudoStep(s, p, st.crt, t.pseudo, e);
    Advance(s, p, st.done, st.crt, e, Apply(st, t).crt);
  }

  // ---------------------------------------------------------------- all the tokens, one after the other

  /** Where the printed text of the first `j` tokens ends. */
  function TokenEnd(off: nat, toks: seq<Token>, j: nat): nat
    requires j <= |toks|
  {
    off + |Joined(TokenText, toks[..j])|
  }

  /** After token `j` comes the end of the text or a character that ends token `j`. */
  lemma {:induction false} TokenFollow(s: string, off: nat, toks: seq<Token>, j: nat)
    requires TokensLaid(s, off, toks) && j < |toks|
    ensures var e := TokenEnd(off, toks, j + 1); e == |s| || (e < |s| && Stops(toks[j], s[e]))
  {
    if j + 1 < |toks| {
      JoinedAt(TokenText, s, off, toks, j + 1);
      assert toks[j + 1] in toks;
      TokenLead(toks[j], toks[j + 1]);
      AtChar(s, TokenEnd(off, toks, j + 1), TokenText(toks[j + 1]), 0);
    } else {
      assert toks[..j + 1] == toks;
    }
  }

  lemma {:induction false} TokenHop(s: string, off: nat, toks: seq<Token>, j: nat, st: Progress)
    requires TokensLaid(s, off, toks) && j < |toks|
    ensures TokenEnd(off, toks, j) <= TokenEnd(off, toks, j + 1) <= |s|
    ensures ScanFrom(s, TokenEnd(off, toks, j), st.done, st.crt)
         == ScanFrom(s, TokenEnd(off, toks, j + 1), Apply(st, toks[j]).done, Apply(st, toks[j]).crt)
  {
    JoinedAt(TokenText, s, off, toks, j);
    TokenFollow(s, off, toks, j);
    assert toks[j] in toks;
    TokenScan(s, TokenEnd(off, toks, j), toks[j], st);
  }

  lemma {:induction false} TokenHops(s: string, off: nat, toks: seq<Token>)
    requires TokensLaid(s, off, toks)
    ensures forall j | 0 <= j <= |toks| :: TokenEnd(off, toks, j) <= |s|
    ensures forall j, st: Progress | 0 <= j < |toks| ::
      ScanFrom(s, TokenEnd(off, toks, j), st.done, st.crt)
      == ScanFrom(s, TokenEnd(off, toks, j + 1), Apply(st, toks[j]).done, Apply(st, toks[j]).crt)
  {
    forall j | 0 <= j <= |toks|
      ensures TokenEnd(off, toks, j) <= |s|
    {
      if j < |toks| {
        TokenHop(s, off, toks, j, Progress([], EmptyRule(false)));
      } else {
        assert toks[..j] == toks;
      }
    }
    forall j, st: Progress | 0 <= j < |toks|
      ensures ScanFrom(s, TokenEnd(off, toks, j), st.done, st.crt)
           == ScanFrom(s, TokenEnd(off, toks, j + 1), Apply(st, toks[j]).done, Apply(st, toks[j]).crt)
    {
      TokenHop(s, off, toks, j, st);
    }
  }

  lemma {:induction false} TokensEnds(off: nat, toks: seq<Token>)
    ensures TokenEnd(off, toks, 0) == off && TokenEnd(off, toks, |toks|) == off + |Joined(TokenText, toks)|
  {
    assert toks[..0] == [] && toks[..|toks|] == toks;
  }

  lemma {:induction false} TokensWalk(s: string, off: nat, toks: seq<Token>, st0: Progress)
    requires forall j | 0 <= j <= |toks| :: TokenEnd(off, toks, j) <= |s|
    requires forall j, st: Progress | 0 <= j < |toks| ::
      ScanFrom(s, TokenEnd(off, toks, j), st.done, st.crt)
      == ScanFrom(s, TokenEnd(off, toks, j + 1), Apply(st, toks[j]).done, Apply(st, toks[j]).crt)
    ensures ScanFrom(s, TokenEnd(off, toks, 0), st0.done, st0.crt)
         == ScanFrom(s, TokenEnd(off, toks, |toks|), Replay(st0, toks).done, Replay(st0, toks).crt)
  {
    var F := (p: nat, acc: seq<Token>) =>
      if p <= |s| then ScanFrom(s, p, Replay(st0, acc).done, Replay(st0, acc).crt) else Diverges;
    var P := (j: nat) => if j <= |toks| then TokenEnd(off, toks, j) else 0;
    forall j, acc: seq<Token> | 0 <= j < |toks|
      ensures F(P(j), acc) == F(P(j + 1), acc + [toks[j]])
    {
      ReplaySnoc(st0, acc, toks[j]);
    }
    Hops(F, P, toks, [], 0);
    assert [] + toks[0..] == toks;
    assert Replay(st0, []) == st0;
  }

  /** Tokens printed to the end of the text are scanned back into their replay. */
  lemma {:induction false} TokensScan(s: string, off: nat, toks: seq<Token>, st0: Progress)
    requires TokensLaid(s, off, toks)
    ensures ScanFrom(s, off, st0.done, st0.crt) == Ok(Replay(st0, toks).done + [Replay(st0, toks).crt])
  {
    TokenHops(s, off, toks);
    TokensWalk(s, off, toks, st0);
    TokensEnds(off, toks);
  }

  // ---------------------------------------------------------------- a whole piece

  /** The tokens of a printed piece, after the combinator of its first rule. */
  lemma {:induction false} PieceLaid(rules: seq<Rule>)
    requires rules != [] && forall r <- rules :: Printable(r)
    ensures var lead := CombinatorText(false, rules[0].directChild);
      TokensLaid(PieceText(rules), |lead|, PieceTokens(rules))
  {
    var s, lead, toks := PieceText(rules), CombinatorText(false, rules[0].directChild), PieceTokens(rules);
    PieceTokensText(rules);
    PieceTokensPrintable(rules);
    PieceTokensChained(rules);
    AtWhole(s);
    AtConcat(s, 0, lead, Joined(TokenText, toks));
  }

  /** Printed tokens that do not start with a separator start with no combinator character. */
  lemma {:induction false} TokensStart(s: string, off: nat, toks: seq<Token>)
    requires TokensLaid(s, off, toks) && toks != [] && !toks[0].Separator?
    ensures off < |s| && s[off] != ' ' && s[off] != '>'
  {
    assert toks[0] in toks;
    TokenLead(Separator(false), toks[0]);
    JoinedAt(TokenText, s, off, toks, 0);
    assert toks[..0] == [];
    AtChar(s, off, TokenText(toks[0]), 0);
  }

  /** The combinator in front of the first rule, `> ` or nothing, is skipped up to that rule. */
  lemma CombinatorSkip(s: string, dc: bool)
    requires At(s, 0, CombinatorText(false, dc))
    requires var e := |CombinatorText(false, dc)|; e < |s| && s[e] != ' ' && s[e] != '>'
    ensures NextRule(s, 0) == (dc, |CombinatorText(false, dc)|)
  {
    if dc {
      AtChar(s, 0, CombinatorText(false, dc), 0);
      AtChar(s, 0, CombinatorText(false, dc), 1);
      assert SkipCombinator(s, 2, true) == (true, 2);
      assert SkipCombinator(s, 1, true) == SkipCombinator(s, 2, true);
      assert SkipCombinator(s, 0, false) == SkipCombinator(s, 1, true);
    }
  }

  /** The scan of a printed piece starts after the combinator of its first rule. */
  lemma {:induction false} LeadSkip(rules: seq<Rule>)
    requires rules != [] && forall r <- rules :: Printable(r)
    ensures NextRule(PieceText(rules), 0) == (rules[0].directChild, |CombinatorText(false, rules[0].directChild)|)
  {
    var s, lead, toks := PieceText(rules), CombinatorText(false, rules[0].directChild), PieceTokens(rules);
    PieceLaid(rules);
    PieceTokensChained(rules);
    TokensStart(s, |lead|, toks);
    PieceTokensText(rules);
    AtWhole(s);
    AtConcat(s, 0, lead, Joined(TokenText, toks));
    CombinatorSkip(s, rules[0].directChild);
  }

  /** After the combinator of its first rule, the scan of a printed piece gives back its rules. */
  lemma {:induction false} PieceScan(rules: seq<Rule>)
    requires rules != [] && forall r <- rules :: Printable(r)
    ensures ScanFrom(PieceText(rules), |CombinatorText(false, rules[0].directChild)|, [], EmptyRule(rules[0].directChild))
         == Ok(rules)
  {
    var s, lead, toks := PieceText(rules), CombinatorText(false, rules[0].directChild), PieceTokens(rules);
    var st0 := Progress([], EmptyRule(rules[0].directChild));
    PieceLaid(rules);
    TokensScan(s, |lead|, toks, st0);
    ReplayPiece(rules);
  }

  /**
   * `extractRules` reads the printed text of a printable rule list back into
   * that rule list.
   */
  lemma {:induction false} ScanPrinted(rules: seq<Rule>)
    requires rules != [] && forall r <- rules :: Printable(r)
    ensures ScanRules(PieceText(rules)) == Ok(rules)
  {
    LeadSkip(rules);
    PieceScan(rules);
  }

  // ---------------------------------------------------------------- the translation of a printed piece

  /** A printed token other than a separator neither starts nor ends with whitespace. */
  lemma TokenEdges(t: Token)
    requires PrintableToken(t) && !t.Separator?
    ensures var x := TokenText(t); |x| >= 1 && !IsTrimmed(x[0]) && !IsTrimmed(x[|x| - 1])
  {
    match t
    case TagToken(name) =>
      assert InClass(name[0], TagChars) && InClass(name[|name| - 1], TagChars);
    case Star =>
    case AttributeToken(a) =>
      AttributeTextFirst(a);
      var x := AttributeText(a);
      if (IsIdShorthand(a) || IsClassShorthand(a)) && a.value.value != [] {
        var v := a.value.value;
        assert x[|x| - 1] == v[|v| - 1];
        assert InClass(v[|v| - 1], ValueChars);
      }
    case PseudoToken(p) =>
      var x := PseudoText(p);
      if p.value.None? && p.name != [] {
        assert x[|x| - 1] == p.name[|p.name| - 1];
        assert InClass(p.name[|p.name| - 1], PseudoNameChars);
      }
  }

  /** Printed tokens that start with no separator start with no whitespace. */
  lemma {:induction false} TokensFirst(s: string, off: nat, toks: seq<Token>)
    requires TokensLaid(s, off, toks) && toks != [] && !toks[0].Separator?
    ensures off < |s| && !IsTrimmed(s[off])
  {
    assert toks[0] in toks;
    TokenEdges(toks[0]);
    JoinedAt(TokenText, s, off, toks, 0);
    assert toks[..0] == [];
    AtChar(s, off, TokenText(toks[0]), 0);
  }

  /** Printed tokens that end with no separator end the text with no whitespace. */
  lemma {:induction false} TokensLast(s: string, off: nat, toks: seq<Token>)
    requires TokensLaid(s, off, toks) && toks != [] && !toks[|toks| - 1].Separator?
    ensures |s| > 0 && !IsTrimmed(s[|s| - 1])
  {
    var n := |toks| - 1;
    var x := TokenText(toks[n]);
    assert toks[n] in toks;
    TokenEdges(toks[n]);
    JoinedAt(TokenText, s, off, toks, n);
    assert toks[..n + 1] == toks;
    AtChar(s, off + |Joined(TokenText, toks[..n])|, x, |x| - 1);
  }

  /** The printed text of a rule list has no whitespace around it, so `trim` keeps it whole. */
  lemma {:induction false} PieceTrimmed(rules: seq<Rule>)
    requires rules != [] && forall r <- rules :: Printable(r)
    ensures Trim(PieceText(rules)) == PieceText(rules)
  {
    var s, lead, toks := PieceText(rules), CombinatorText(false, rules[0].directChild), PieceTokens(rules);
    PieceLaid(rules);
    PieceTokensChained(rules);
    TokensFirst(s, |lead|, toks);
    TokensLast(s, |lead|, toks);
    if rules[0].directChild {
      PieceTokensText(rules);
      AtWhole(s);
      AtConcat(s, 0, lead, Joined(TokenText, toks));
      AtChar(s, 0, lead, 0);
    }
    TrimNone(s);
  }

  /**
   * `parse` translates the printed text of a printable rule list as
   * `rules2Xpath` translates the rules, provided the text holds no comma for
   * `_parse` to split it at (a comma can only come from a pseudo-selector value).
   */
  lemma {:induction false} TranslatePrinted(rules: seq<Rule>)
    requires rules != [] && forall r <- rules :: Printable(r)
    requires ',' !in PieceText(rules)
    ensures Translate(PieceText(rules)) == RulesXpath(rules)
  {
    TranslateSinglePiece(PieceText(rules));
    PieceTrimmed(rules);
    ScanPrinted(rules);
  }
}
