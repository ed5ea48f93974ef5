/**
 * The printed text of a rule list cut into the pieces that `extractRules`
 * reads one turn at a time: a separator (a space, then `> ` for a direct
 * child), a tag name, `*`, one attribute filter or one pseudo-selector. The
 * tokens of a rule list spell its printed text, follow each other so that no
 * token runs into the next, and, replayed the way the loop of
 * `extractRules` handles them, rebuild the rule list.
 */
module Tokens {
  import opened Outcomes
  import opened Text
  import opened Rules
  import opened Layout
  import opened Printing

  datatype Token =
    | Separator(directChild: bool)
    | TagToken(name: string)
    | Star
    | AttributeToken(attribute: Attribute)
    | PseudoToken(pseudo: Pseudo)

  function TokenText(t: Token): string {
    match t
    case Separator(dc) => CombinatorText(true, dc)
    case TagToken(name) => name
    case Star => "*"
    case AttributeToken(a) => AttributeText(a)
    case PseudoToken(p) => PseudoText(p)
  }

  predicate PrintableToken(t: Token) {
    match t
    case TagToken(name) => |name| >= 1 && AllIn(name, TagChars)
    case AttributeToken(a) => PrintableAttribute(a)
    case PseudoToken(p) => PrintablePseudo(p)
    case _ => true
  }

  // ---------------------------------------------------------------- the tokens of a rule list

  function AttributeTokens(attrs: seq<Attribute>): seq<Token> {
    seq(|attrs|, i requires 0 <= i < |attrs| => AttributeToken(attrs[i]))
  }

  function PseudoTokens(ps: seq<Pseudo>): seq<Token> {
    seq(|ps|, i requires 0 <= i < |ps| => PseudoToken(ps[i]))
  }

  function TagTokens(tagName: Option<string>): seq<Token> {
    match tagName
    case Some(name) => [TagToken(name)]
    case None => []
  }

  /** A rule with neither tag nor filters, printed as `*`. */
  predicate Bare(r: Rule) {
    r.tagName.None? && r.attributes == [] && r.pseudos == []
  }

  function BodyTokens(r: Rule): seq<Token> {
    if Bare(r) then [Star] else TagTokens(r.tagName) + AttributeTokens(r.attributes) + PseudoTokens(r.pseudos)
  }

  /** Each rule after the first: its separator, then its body. */
  function FollowingTokens(rules: seq<Rule>): seq<Token> {
    if rules == [] then []
    else
      var last := rules[|rules| - 1];
      FollowingTokens(rules[..|rules| - 1]) + ([Separator(last.directChild)] + BodyTokens(last))
  }

  function PieceTokens(rules: seq<Rule>): seq<Token>
    requires rules != []
  {
    BodyTokens(rules[0]) + FollowingTokens(rules[1..])
  }

  // ---------------------------------------------------------------- the tokens spell the printed text

  lemma {:induction false} JoinedSingle<X>(T: X -> string, x: X)
    ensures Joined(T, [x]) == T(x)
  {
    JoinedSnoc(T, [], x);
    assert [] + [x] == [x];
  }

  lemma {:induction false} AttributeTokensText(attrs: seq<Attribute>)
    ensures Joined(TokenText, AttributeTokens(attrs)) == AttributesText(attrs)
    decreases |attrs|
  {
    if attrs != [] {
      var n := |attrs| - 1;
      AttributeTokensText(attrs[..n]);
      assert AttributeTokens(attrs) == AttributeTokens(attrs[..n]) + [AttributeToken(attrs[n])];
      JoinedSnoc(TokenText, AttributeTokens(attrs[..n]), AttributeToken(attrs[n]));
    }
  }

  lemma {:induction false} PseudoTokensText(ps: seq<Pseudo>)
    ensures Joined(TokenText, PseudoTokens(ps)) == PseudosText(ps)
    decreases |ps|
  {
    if ps != [] {
      var n := |ps| - 1;
      PseudoTokensText(ps[..n]);
      assert PseudoTokens(ps) == PseudoTokens(ps[..n]) + [PseudoToken(ps[n])];
      JoinedSnoc(TokenText, PseudoTokens(ps[..n]), PseudoToken(ps[n]));
    }
  }

  /** A list whose elements all print to something prints to something. */
  lemma {:induction false} JoinedNonEmpty<X>(T: X -> string, xs: seq<X>)
    requires xs != [] && |T(xs[|xs| - 1])| >= 1
    ensures |Joined(T, xs)| >= 1
  {
  }

  /** A rule prints to `*` exactly when it is bare. */
  lemma {:induction false} BareText(r: Rule)
    requires Printable(r)
    ensures r.tagName.GetOr("") + FiltersText(r) == "" <==> Bare(r)
  {
    if r.attributes != [] {
      JoinedNonEmpty(AttributeText, r.attributes);
    }
    if r.pseudos != [] {
      JoinedNonEmpty(PseudoText, r.pseudos);
    }
  }

  lemma {:induction false} BodyTokensText(r: Rule)
    requires Printable(r)
    ensures Joined(TokenText, BodyTokens(r)) == RuleBody(r)
  {
    BareText(r);
    if Bare(r) {
      JoinedSingle(TokenText, Star);
    } else {
      var tag, attrs, ps := TagTokens(r.tagName), AttributeTokens(r.attributes), PseudoTokens(r.pseudos);
      JoinedAppend(TokenText, tag + attrs, ps);
      JoinedAppend(TokenText, tag, attrs);
      AttributeTokensText(r.attributes);
      PseudoTokensText(r.pseudos);
      if r.tagName.Some? {
        JoinedSingle(TokenText, TagToken(r.tagName.value));
      }
    }
  }

  lemma {:induction false} FollowingTokensText(rules: seq<Rule>)
    requires forall r <- rules :: Printable(r)
    ensures Joined(TokenText, FollowingTokens(rules)) == Joined(FollowingRuleText, rules)
    decreases |rules|
  {
    if rules != [] {
      var n := |rules| - 1;
      var last := rules[n];
      FollowingTokensText(rules[..n]);
      JoinedAppend(TokenText, FollowingTokens(rules[..n]), [Separator(last.directChild)] + BodyTokens(last));
      JoinedAppend(TokenText, [Separator(last.directChild)], BodyTokens(last));
      JoinedSingle(TokenText, Separator(last.directChild));
      BodyTokensText(last);
    }
  }

  /** The printed text of a piece: the combinator of its first rule, then its tokens. */
  lemma {:induction false} PieceTokensText(rules: seq<Rule>)
    requires rules != [] && forall r <- rules :: Printable(r)
    ensures PieceText(rules) == CombinatorText(false, rules[0].directChild) + Joined(TokenText, PieceTokens(rules))
  {
    BodyTokensText(rules[0]);
    FollowingTokensText(rules[1..]);
    JoinedAppend(TokenText, BodyTokens(rules[0]), FollowingTokens(rules[1..]));
  }

  // ---------------------------------------------------------------- every token is printable

  lemma {:induction false} BodyTokensPrintable(r: Rule)
    requires Printable(r)
    ensures forall t <- BodyTokens(r) :: PrintableToken(t)
  {
    if !Bare(r) {
      var tag, attrs, ps := TagTokens(r.tagName), AttributeTokens(r.attributes), PseudoTokens(r.pseudos);
      forall t | t in tag + attrs + ps
        ensures PrintableToken(t)
      {
        if t in attrs {
          var i :| 0 <= i < |attrs| && attrs[i] == t;
          assert r.attributes[i] in r.attributes;
        } else if t in ps {
          var i :| 0 <= i < |ps| && ps[i] == t;
          assert r.pseudos[i] in r.pseudos;
        }
      }
    }
  }

  lemma {:induction false} FollowingTokensPrintable(rules: seq<Rule>)
    requires forall r <- rules :: Printable(r)
    ensures forall t <- FollowingTokens(rules) :: PrintableToken(t)
    decreases |rules|
  {
    if rules != [] {
      var n := |rules| - 1;
      FollowingTokensPrintable(rules[..n]);
      BodyTokensPrintable(rules[n]);
    }
  }

  lemma {:induction false} PieceTokensPrintable(rules: seq<Rule>)
    requires rules != [] && forall r <- rules :: Printable(r)
    ensures forall t <- PieceTokens(rules) :: PrintableToken(t)
  {
    BodyTokensPrintable(rules[0]);
    FollowingTokensPrintable(rules[1..]);
  }

  // ---------------------------------------------------------------- no token runs into the next

  /**
   * `t2` may follow `t1`: a tag only comes right after a separator, and two
   * separators never meet.
   */
  predicate Adjacent(t1: Token, t2: Token) {
    (t2.TagToken? ==> t1.Separator?) && (t2.Separator? ==> !t1.Separator?)
  }

  predicate Chained(toks: seq<Token>) {
    forall j | 0 < j < |toks| :: Adjacent(toks[j - 1], toks[j])
  }

  lemma {:induction false} ChainedAppend(a: seq<Token>, b: seq<Token>)
    requires Chained(a) && Chained(b)
    requires a != [] && b != [] ==> Adjacent(a[|a| - 1], b[0])
    ensures Chained(a + b)
  {
    forall j | 0 < j < |a + b|
      ensures Adjacent((a + b)[j - 1], (a + b)[j])
    {
      if j < |a| {
        assert (a + b)[j - 1] == a[j - 1] && (a + b)[j] == a[j];
      } else if j == |a| {
        assert (a + b)[j - 1] == a[|a| - 1] && (a + b)[j] == b[0];
      } else {
        assert (a + b)[j - 1] == b[j - 1 - |a|] && (a + b)[j] == b[j - |a|];
      }
    }
  }

  /** A body: no separator anywhere, a tag at most at its start. */
  predicate BodyLike(toks: seq<Token>) {
    && toks != []
    && (forall t <- toks :: !t.Separator?)
    && (forall j | 0 < j < |toks| :: !toks[j].TagToken?)
  }

  lemma {:induction false} BodyTokensLike(r: Rule)
    ensures BodyLike(BodyTokens(r))
  {
    if !Bare(r) {
      var tag, attrs, ps := TagTokens(r.tagName), AttributeTokens(r.attributes), PseudoTokens(r.pseudos);
      var toks := tag + attrs + ps;
      assert r.tagName.None? ==> attrs != [] || ps != [];
      forall j | 0 <= j < |toks|
        ensures !toks[j].Separator? && (j > 0 ==> !toks[j].TagToken?)
      {
        if j < |tag| {
          assert toks[j] == tag[j];
        } else if j < |tag| + |attrs| {
          assert toks[j] == attrs[j - |tag|];
        } else {
          assert toks[j] == ps[j - |tag| - |attrs|];
        }
      }
    }
  }

  lemma {:induction false} BodyLikeChained(toks: seq<Token>)
    requires BodyLike(toks)
    ensures Chained(toks)
  {
    forall j | 0 < j < |toks|
      ensures Adjacent(toks[j - 1], toks[j])
    {
      assert toks[j] in toks;
    }
  }

  /** Each rule after the first starts with its separator and ends with its body. */
  lemma {:induction false} FollowingTokensChained(rules: seq<Rule>)
    ensures Chained(FollowingTokens(rules))
    ensures rules != [] ==> FollowingTokens(rules) != [] && FollowingTokens(rules)[0].Separator?
    ensures rules != [] ==> !FollowingTokens(rules)[|FollowingTokens(rules)| - 1].Separator?
    decreases |rules|
  {
    if rules != [] {
      var n := |rules| - 1;
      var body := BodyTokens(rules[n]);
      var sep := [Separator(rules[n].directChild)];
      var prefix := FollowingTokens(rules[..n]);
      FollowingTokensChained(rules[..n]);
      BodyTokensLike(rules[n]);
      BodyLikeChained(body);
      assert body[0] in body && body[|body| - 1] in body;
      ChainedAppend(sep, body);
      ChainedAppend(prefix, sep + body);
      assert (prefix + (sep + body))[|prefix + (sep + body)| - 1] == body[|body| - 1];
      if prefix != [] {
        assert (prefix + (sep + body))[0] == prefix[0];
        assert n > 0;
      } else {
        assert rules[..n] == [];
      }
    }
  }

  lemma {:induction false} PieceTokensChained(rules: seq<Rule>)
    requires rules != []
    ensures Chained(PieceTokens(rules))
    ensures PieceTokens(rules) != [] && !PieceTokens(rules)[0].Separator?
    ensures !PieceTokens(rules)[|PieceTokens(rules)| - 1].Separator?
  {
    var body, following := BodyTokens(rules[0]), FollowingTokens(rules[1..]);
    BodyTokensLike(rules[0]);
    BodyLikeChained(body);
    FollowingTokensChained(rules[1..]);
    assert body[0] in body && body[|body| - 1] in body;
    ChainedAppend(body, following);
    if rules[1..] == [] {
      assert body + following == body;
    } else {
      assert (body + following)[|body + following| - 1] == following[|following| - 1];
    }
  }

  /** Printable, chained tokens printed from `off` to the end of `s`. */
  predicate TokensLaid(s: string, off: nat, toks: seq<Token>) {
    && (forall t <- toks :: PrintableToken(t))
    && Chained(toks)
    && At(s, off, Joined(TokenText, toks))
    && off + |Joined(TokenText, toks)| == |s|
  }

  // ---------------------------------------------------------------- replaying the tokens

  /** The rules pushed so far and the rule in progress. */
  datatype Progress = Progress(done: seq<Rule>, crt: Rule)

  /** What one turn of `extractRules` does with a token. */
  function Apply(st: Progress, t: Token): Progress {
    match t
    case Separator(dc) => Progress(st.done + [st.crt], EmptyRule(dc))
    case TagToken(name) => st.(crt := st.crt.(tagName := Some(name)))
    case Star => st
    case AttributeToken(a) => st.(crt := st.crt.(attributes := st.crt.attributes + [a]))
    case PseudoToken(p) => st.(crt := st.crt.(pseudos := st.crt.pseudos + [p]))
  }

  function Replay(st: Progress, toks: seq<Token>): Progress {
    if toks == [] then st else Apply(Replay(st, toks[..|toks| - 1]), toks[|toks| - 1])
  }

  lemma {:induction false} ReplaySnoc(st: Progress, toks: seq<Token>, t: Token)
    ensures Replay(st, toks + [t]) == Apply(Replay(st, toks), t)
  {
    assert (toks + [t])[..|toks|] == toks;
  }

  lemma {:induction false} ReplayAppend(st: Progress, a: seq<Token>, b: seq<Token>)
    ensures Replay(st, a + b) == Replay(Replay(st, a), b)
    decreases |b|
  {
    if b == [] {
      assert a + b == a;
    } else {
      var n := |b| - 1;
      ReplayAppend(st, a, b[..n]);
      assert a + b == (a + b[..n]) + [b[n]];
      ReplaySnoc(st, a + b[..n], b[n]);
      assert b == b[..n] + [b[n]];
      ReplaySnoc(Replay(st, a), b[..n], b[n]);
    }
  }

  lemma {:induction false} ReplayAttributes(st: Progress, attrs: seq<Attribute>)
    ensures Replay(st, AttributeTokens(attrs)) == st.(crt := st.crt.(attributes := st.crt.attributes + attrs))
    decreases |attrs|
  {
    if attrs == [] {
      assert st.crt.attributes + attrs == st.crt.attributes;
    } else {
      var n := |attrs| - 1;
      ReplayAttributes(st, attrs[..n]);
      assert AttributeTokens(attrs) == AttributeTokens(attrs[..n]) + [AttributeToken(attrs[n])];
      ReplaySnoc(st, AttributeTokens(attrs[..n]), AttributeToken(attrs[n]));
      assert st.crt.attributes + attrs[..n] + [attrs[n]] == st.crt.attributes + attrs;
    }
  }

  lemma {:induction false} ReplayPseudos(st: Progress, ps: seq<Pseudo>)
    ensures Replay(st, PseudoTokens(ps)) == st.(crt := st.crt.(pseudos := st.crt.pseudos + ps))
    decreases |ps|
  {
    if ps == [] {
      assert st.crt.pseudos + ps == st.crt.pseudos;
    } else {
      var n := |ps| - 1;
      ReplayPseudos(st, ps[..n]);
      assert PseudoTokens(ps) == PseudoTokens(ps[..n]) + [PseudoToken(ps[n])];
      ReplaySnoc(st, PseudoTokens(ps[..n]), PseudoToken(ps[n]));
      assert st.crt.pseudos + ps[..n] + [ps[n]] == st.crt.pseudos + ps;
    }
  }

  /** Replaying the body of a rule onto an empty rule rebuilds that rule. */
  lemma {:induction false} ReplayBody(done: seq<Rule>, r: Rule)
    ensures Replay(Progress(done, EmptyRule(r.directChild)), BodyTokens(r)) == Progress(done, r)
  {
    var st := Progress(done, EmptyRule(r.directChild));
    if Bare(r) {
      assert BodyTokens(r) == [] + [Star];
    } else {
      var tag, attrs, ps := TagTokens(r.tagName), AttributeTokens(r.attributes), PseudoTokens(r.pseudos);
      ReplayAppend(st, tag + attrs, ps);
      ReplayAppend(st, tag, attrs);
      var st1 := st.(crt := st.crt.(tagName := r.tagName));
      if r.tagName.Some? {
        assert tag == [] + [TagToken(r.tagName.value)];
      }
      assert Replay(st, tag) == st1;
      ReplayAttributes(st1, r.attributes);
      var st2 := st1.(crt := st1.crt.(attributes := r.attributes));
      assert [] + r.attributes == r.attributes;
      ReplayPseudos(st2, r.pseudos);
      assert [] + r.pseudos == r.pseudos;
    }
  }

  lemma {:induction false} ReplaySeparator(st: Progress, dc: bool)
    ensures Replay(st, [Separator(dc)]) == Progress(st.done + [st.crt], EmptyRule(dc))
  {
    ReplaySnoc(st, [], Separator(dc));
    assert [] + [Separator(dc)] == [Separator(dc)];
  }

  lemma {:induction false} PushedRules(done: seq<Rule>, crt: Rule, rules: seq<Rule>, n: nat)
    requires n < |rules|
    ensures var before := [crt] + rules[..n];
      done + before[..n] + [before[n]] == done + ([crt] + rules)[..n + 1]
  {
    var before := [crt] + rules[..n];
    assert before[..n] + [before[n]] == before;
    assert ([crt] + rules)[..n + 1] == before;
  }

  /** Replaying the rules after the first pushes the rule in progress and each rule but the last. */
  lemma {:induction false} ReplayFollowing(done: seq<Rule>, crt: Rule, rules: seq<Rule>)
    ensures Replay(Progress(done, crt), FollowingTokens(rules))
         == Progress(done + ([crt] + rules)[..|rules|], ([crt] + rules)[|rules|])
    decreases |rules|
  {
    if rules == [] {
      assert done + ([crt] + rules)[..0] == done;
    } else {
      var n := |rules| - 1;
      var last := rules[n];
      var st := Progress(done, crt);
      var sep := [Separator(last.directChild)];
      var prefix := FollowingTokens(rules[..n]);
      assert FollowingTokens(rules) == prefix + (sep + BodyTokens(last));
      ReplayFollowing(done, crt, rules[..n]);
      var mid := Replay(st, prefix);
      ReplayAppend(st, prefix, sep + BodyTokens(last));
      ReplayAppend(mid, sep, BodyTokens(last));
      ReplaySeparator(mid, last.directChild);
      PushedRules(done, crt, rules, n);
      var pushed := done + ([crt] + rules)[..n + 1];
      ReplayBody(pushed, last);
      assert ([crt] + rules)[n + 1] == last;
    }
  }

  /** Replaying the tokens of a piece leaves all its rules but the last pushed and the last in progress. */
  lemma {:induction false} ReplayPieceState(rules: seq<Rule>)
    requires rules != []
    ensures Replay(Progress([], EmptyRule(rules[0].directChild)), PieceTokens(rules))
         == Progress(rules[..|rules| - 1], rules[|rules| - 1])
  {
    var st := Progress([], EmptyRule(rules[0].directChild));
    ReplayAppend(st, BodyTokens(rules[0]), FollowingTokens(rules[1..]));
    ReplayBody([], rules[0]);
    ReplayFollowing([], rules[0], rules[1..]);
    assert [rules[0]] + rules[1..] == rules;
  }

  lemma Rebuilt(st: Progress, rules: seq<Rule>)
    requires rules != [] && st == Progress(rules[..|rules| - 1], rules[|rules| - 1])
    ensures st.done + [st.crt] == rules
  {
    assert rules == rules[..|rules| - 1] + [rules[|rules| - 1]];
  }

  /** Replaying the tokens of a piece, from its first rule's combinator on, rebuilds the rule list. */
  lemma {:induction false} ReplayPiece(rules: seq<Rule>)
    requires rules != []
    ensures var st := Replay(Progress([], EmptyRule(rules[0].directChild)), PieceTokens(rules));
      st.done + [st.crt] == rules
  {
    ReplayPieceState(rules);
    Rebuilt(Replay(Progress([], EmptyRule(rules[0].directChild)), PieceTokens(rules)), rules);
  }
}
