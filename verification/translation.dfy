/**
 * What `Parser::parse` promises as a whole: pieces between commas are
 * translated independently and in order, surrounding whitespace does not
 * matter, rules are rendered one after the other, and `:not(tag)` negates the
 * tag test.
 */
module Translation {
  import opened Outcomes
  import opened Text
  import opened Rules
  import opened Scanner
  import opened Render

  /** A failure keeps its kind and message when re-typed by `:-`. */
  lemma PropagateSame<T>(x: Outcome<T>)
    requires !x.Ok?
    ensures x.PropagateFailure<T>() == x
  {
  }

  lemma ChainAssoc<T>(x: Outcome<seq<T>>, y: Outcome<seq<T>>, z: Outcome<seq<T>>)
    ensures Chain(Chain(x, y), z) == Chain(x, Chain(y, z))
  {
    if x.Ok? && y.Ok? && z.Ok? {
      assert (x.value + y.value) + z.value == x.value + (y.value + z.value);
    }
  }

  /** `RuleSteps` of a list with one more rule: the new rule's steps come last. */
  lemma {:induction false} RuleStepsSnoc(rules: seq<Rule>, r: Rule)
    ensures RuleSteps(rules + [r]) == Chain(RuleSteps(rules), RuleXpath(r))
  {
    var xs := rules + [r];
    assert xs[..|xs| - 1] == rules;
    if !RuleSteps(rules).Ok? {
      PropagateSame(RuleSteps(rules));
    } else if !RuleXpath(r).Ok? {
      PropagateSame(RuleXpath(r));
    }
  }

  /**
   * `rules2Xpath` renders a list of rules rule by rule: the steps of a
   * concatenation are the steps of the first part followed by those of the
   * second, and the first failing rule decides the failure.
   */
  lemma {:induction false} RuleStepsAppend(a: seq<Rule>, b: seq<Rule>)
    ensures RuleSteps(a + b) == Chain(RuleSteps(a), RuleSteps(b))
    decreases |b|
  {
    if b == [] {
      assert a + b == a;
      if RuleSteps(a).Ok? {
        assert RuleSteps(a).value + "" == RuleSteps(a).value;
      }
    } else {
      var b', r := b[..|b| - 1], b[|b| - 1];
      assert b == b' + [r];
      assert a + b == (a + b') + [r];
      RuleStepsAppend(a, b');
      RuleStepsSnoc(a + b', r);
      RuleStepsSnoc(b', r);
      ChainAssoc(RuleSteps(a), RuleSteps(b'), RuleXpath(r));
    }
  }

  /** The XPath of one rule on its own: the root step, then the rule's steps. */
  lemma {:induction false} RulesXpathSingle(r: Rule)
    ensures RuleXpath(r).Ok? ==> RulesXpath([r]) == Ok("/*" + RuleXpath(r).value)
    ensures !RuleXpath(r).Ok? ==> RulesXpath([r]) == RuleXpath(r)
  {
    RuleStepsSnoc([], r);
    assert [] + [r] == [r];
    if RuleXpath(r).Ok? {
      assert "" + RuleXpath(r).value == RuleXpath(r).value;
    }
  }

  /** The translation of one more piece, as a one-element list. */
  function Single(x: Outcome<string>): Outcome<seq<string>> {
    if x.Ok? then Ok([x.value]) else x.PropagateFailure()
  }

  lemma {:induction false} PiecesSnoc(pieces: seq<string>, p: string)
    ensures TranslatePieces(pieces + [p]) == Chain(TranslatePieces(pieces), Single(TranslatePiece(p)))
  {
    var xs := pieces + [p];
    assert xs[..|xs| - 1] == pieces;
    if !TranslatePieces(pieces).Ok? {
      PropagateSame(TranslatePieces(pieces));
    }
  }

  /** One more piece of the same list. */
  lemma PiecesPrefixSnoc(pieces: seq<string>, i: nat)
    requires i < |pieces|
    ensures TranslatePieces(pieces[..i + 1]) == Chain(TranslatePieces(pieces[..i]), Single(TranslatePiece(pieces[i])))
  {
    assert pieces[..i + 1] == pieces[..i] + [pieces[i]];
    PiecesSnoc(pieces[..i], pieces[i]);
  }

  /** `parse` joins the translated pieces with `|`, or fails as the first failing piece does. */
  lemma {:induction false} TranslateByPieces(s: string)
    ensures TranslatePieces(Split(s, ',')).Ok? ==> Translate(s) == Ok(Join(TranslatePieces(Split(s, ',')).value, "|"))
    ensures !TranslatePieces(Split(s, ',')).Ok? ==> Translate(s) == TranslatePieces(Split(s, ',')).PropagateFailure()
  {
  }

  /** The pieces of a concatenation are translated independently, in order. */
  lemma {:induction false} PiecesAppend(a: seq<string>, b: seq<string>)
    ensures TranslatePieces(a + b) == Chain(TranslatePieces(a), TranslatePieces(b))
    decreases |b|
  {
    if b == [] {
      assert a + b == a;
      if TranslatePieces(a).Ok? {
        assert TranslatePieces(a).value + [] == TranslatePieces(a).value;
      }
    } else {
      var b', p := b[..|b| - 1], b[|b| - 1];
      assert b == b' + [p];
      assert a + b == (a + b') + [p];
      PiecesAppend(a, b');
      PiecesSnoc(a + b', p);
      PiecesSnoc(b', p);
      ChainAssoc(TranslatePieces(a), TranslatePieces(b'), Single(TranslatePiece(p)));
    }
  }

  /** The first piece that fails decides the failure of the whole list. */
  lemma {:induction false} PiecesFail(pieces: seq<string>, k: nat)
    requires k <= |pieces| && !TranslatePieces(pieces[..k]).Ok?
    ensures TranslatePieces(pieces) == TranslatePieces(pieces[..k])
  {
    assert pieces == pieces[..k] + pieces[k..];
    PiecesAppend(pieces[..k], pieces[k..]);
  }

  /**
   * A selector list `a,b` translates to the union `A|B` of the translations of
   * its parts; when a part fails, the first failure is the result.
   */
  lemma {:induction false} TranslateUnion(a: string, b: string)
    ensures Translate(a).Ok? && Translate(b).Ok? ==>
      Translate(a + "," + b) == Ok(Translate(a).value + "|" + Translate(b).value)
    ensures !Translate(a).Ok? ==> Translate(a + "," + b) == Translate(a)
    ensures Translate(a).Ok? && !Translate(b).Ok? ==> Translate(a + "," + b) == Translate(b)
  {
    var s := a + "," + b;
    SplitAppend(a, b, ',');
    var pa, pb := Split(a, ','), Split(b, ',');
    PiecesAppend(pa, pb);
    var ta, tb := TranslatePieces(pa), TranslatePieces(pb);
    if ta.Ok? && tb.Ok? {
      JoinAppend(ta.value, tb.value, "|");
    }
  }

  /** A selector without commas is a single piece. */
  lemma {:induction false} TranslateSinglePiece(s: string)
    requires ',' !in s
    ensures Translate(s) == TranslatePiece(s)
  {
    SplitNoSeparator(s, ',');
    PiecesSnoc([], s);
    assert [] + [s] == [s];
    if TranslatePiece(s).Ok? {
      assert Join([TranslatePiece(s).value], "|") == TranslatePiece(s).value;
    } else {
      PropagateSame(TranslatePiece(s));
    }
  }

  /** Whitespace around a piece does not change its translation. */
  lemma {:induction false} TranslatePieceTrim(p: string)
    ensures TranslatePiece(Trim(p)) == TranslatePiece(p)
  {
    TrimIdempotent(p);
  }

  predicate IsTagName(t: string) {
    |t| >= 1 && AllIn(t, TagChars)
  }

  /** A tag name is scanned as one rule, reached through whitespace, with that tag. */
  lemma ScanTag(t: string)
    requires IsTagName(t)
    ensures ScanRules(t) == Ok([Rule(false, Some(t), [], [])])
  {
    assert NextRule(t, 0) == (false, 0);
    assert [t[0]] !in Shorthands;
    assert RunLength(t, 0, TagChars) == |t| by {
      RunLengthUnique(t, 0, |t|, TagChars);
    }
    assert t[0..|t|] == t;
    var crt := Rule(false, Some(t), [], []);
    assert ScanStep(t, 0, EmptyRule(false)) == Ok(Step(|t|, false, crt));
    assert [] + [crt] == [crt];
    assert ScanFrom(t, |t|, [], crt) == Ok([crt]);
  }

  lemma TrimTag(t: string)
    requires IsTagName(t)
    ensures Trim(t) == t
  {
    assert TrimStartIndex(t, 0) == 0;
    assert TrimEndIndex(t, 0, |t|) == |t|;
    assert t[0..|t|] == t;
  }

  lemma RuleXpathTag(t: string)
    ensures RuleXpath(Rule(false, Some(t), [], [])) == Ok(AxisStep(false) + TagTest(Some(t)))
  {
    assert PseudosXpath([]) == Ok("");
    assert AttributesXpath([]) == "";
    assert AxisStep(false) + TagTest(Some(t)) + "" + "" == AxisStep(false) + TagTest(Some(t));
  }

  /** A tag name on its own is one rule with a name test. */
  lemma {:induction false} PieceTag(t: string)
    requires IsTagName(t)
    ensures TranslatePiece(t) == Ok("/*" + AxisStep(false) + TagTest(Some(t)))
  {
    var r := Rule(false, Some(t), [], []);
    assert TranslatePiece(t) == RulesXpath([r]) by {
      TrimTag(t);
      ScanTag(t);
    }
    var steps := AxisStep(false) + TagTest(Some(t));
    assert RulesXpath([r]) == Ok("/*" + steps) by {
      RuleXpathTag(t);
      RulesXpathSingle(r);
    }
    assert "/*" + steps == "/*" + AxisStep(false) + TagTest(Some(t));
  }

  /** A tag name translates to a name test on every descendant of the root. */
  lemma {:induction false} TranslateTag(t: string)
    requires IsTagName(t)
    ensures Translate(t) == Ok("/*" + AxisStep(false) + TagTest(Some(t)))
  {
    assert ',' !in t by {
      assert forall k :: 0 <= k < |t| ==> t[k] != ',';
    }
    TranslateSinglePiece(t);
    PieceTag(t);
  }


  lemma NoStopInNameTest(t: string)
    requires IsTagName(t)
    ensures forall i :: 0 <= i < |NameTest(t)| ==> NameTest(t)[i] != ']' && NameTest(t)[i] != '\n'
  {
    var body := NameTest(t);
    forall i | 0 <= i < |body|
      ensures body[i] != ']' && body[i] != '\n'
    {
      if 10 <= i < 10 + |t| {
        assert body[i] == t[i - 10];
      }
    }
  }

  lemma Regroup<T>(x: seq<T>, a: seq<T>, b: seq<T>, c: seq<T>)
    ensures x + (a + b + c) == (x + a) + b + c
  {
  }

  /** The translation of a tag name, split where the `:not` replacement cuts it. */
  lemma TagXpathShape(t: string)
    ensures "/*" + AxisStep(false) + TagTest(Some(t)) == "/*/descendant::*[" + NameTest(t) + "]" + ""
  {
    var n := NameTest(t);
    calc {
      "/*" + AxisStep(false) + TagTest(Some(t));
      ("/*" + "/descendant::*") + ("[" + n + "]");
      { Regroup("/*" + "/descendant::*", "[", n, "]"); }
      ("/*" + "/descendant::*" + "[") + n + "]";
      { assert "/*" + "/descendant::*" + "[" == "/*/descendant::*["; }
      "/*/descendant::*[" + n + "]";
      "/*/descendant::*[" + n + "]" + "";
    }
  }

  /** A successful translation of the value of `:not` is stripped and negated. */
  lemma {:induction false} NotValue(v: string)
    requires Translate(v).Ok?
    ensures PseudoXpath(Pseudo("not", Some(v))) == Ok("not(" + StripNot(Translate(v).value) + ")")
  {
    var p := Pseudo("not", Some(v));
    assert |p.name| == 3;
    assert p.name != "first-child" && p.name != "last-child" && p.name != "nth-child";
    assert p.value.GetOr("") == v;
  }

  /**
   * `:not(tag)` negates the tag's name test: the translation of the tag loses
   * its leading step and the brackets around the test.
   */
  lemma NotTag(t: string)
    requires IsTagName(t)
    ensures PseudoXpath(Pseudo("not", Some(t))) == Ok("not(" + NameTest(t) + ")")
  {
    TranslateTag(t);
    NotValue(t);
    var pre, body := "/*/descendant::*[", NameTest(t);
    TagXpathShape(t);
    NoStopInNameTest(t);
    StripNotFilter(pre, body, "");
    assert body + "" == body;
  }
}
