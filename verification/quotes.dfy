/**
 * Quoting of rendered attribute tests: every literal the renderer writes is
 * delimited by `"`, and nothing the scanner can extract contains one, so an
 * attribute value can never close its literal early.
 */
module Quoting {
  import opened Outcomes
  import opened Rules
  import opened Render

  /** The number of `"` in `t`. */
  function Quotes(t: string): nat {
    if t == [] then 0 else Quotes(t[..|t| - 1]) + (if t[|t| - 1] == '"' then 1 else 0)
  }

  lemma {:induction false} QuotesAppend(x: string, y: string)
    ensures Quotes(x + y) == Quotes(x) + Quotes(y)
    decreases |y|
  {
    if y == [] {
      assert x + y == x;
    } else {
      var y' := y[..|y| - 1];
      assert (x + y)[..|x + y| - 1] == x + y';
      QuotesAppend(x, y');
    }
  }

  lemma {:induction false} NoQuotes(x: string)
    requires '"' !in x
    ensures Quotes(x) == 0
    decreases |x|
  {
    if x != [] {
      assert '"' !in x[..|x| - 1];
      NoQuotes(x[..|x| - 1]);
    }
  }

  /** A literal holds the two quotes that delimit it and no others. */
  lemma QuotedQuotes(v: string)
    requires '"' !in v
    ensures Quotes(Quoted(v)) == 2
  {
    NoQuotes(v);
    assert Quotes("\"") == 1;
    QuotesAppend("\"", v);
    QuotesAppend("\"" + v, "\"");
  }

  /** How many `"` each form of attribute test writes around its literals. */
  function QuoteCount(m: Matcher): nat {
    match m
    case Same => 2
    case Start => 2
    case End => 4
    case ContainsWord => 6
    case ContainsPrefix => 6
    case Not => 2
    case Bare => 0
  }

  lemma EqualsQuotes(t: string, v: string)
    requires '"' !in t && '"' !in v
    ensures Quotes(EqualsXpath(t, v)) == 2
  {
    var head := "@" + t + "=";
    assert '"' !in head;
    NoQuotes(head);
    QuotedQuotes(v);
    QuotesAppend(head, Quoted(v));
  }

  lemma StartsWithQuotes(t: string, v: string)
    requires '"' !in t && '"' !in v
    ensures Quotes(StartsWithXpath(t, v)) == 2
  {
    var head := "starts-with(@" + t + ", ";
    assert '"' !in head;
    NoQuotes(head);
    NoQuotes(")");
    QuotedQuotes(v);
    QuotesAppend(head, Quoted(v));
    QuotesAppend(head + Quoted(v), ")");
  }

  lemma NotQuotes(t: string, v: string)
    requires '"' !in t && '"' !in v
    ensures Quotes("not(" + EqualsXpath(t, v) + ")") == 2
  {
    EqualsQuotes(t, v);
    NoQuotes("not(");
    NoQuotes(")");
    QuotesAppend("not(", EqualsXpath(t, v));
    QuotesAppend("not(" + EqualsXpath(t, v), ")");
  }

  lemma PrefixQuotes(t: string, v: string)
    requires '"' !in t && '"' !in v
    ensures Quotes(PrefixXpath(t, v)) == 6
  {
    var a, b, c := EqualsXpath(t, v), StartsWithXpath(t, v + " "), StartsWithXpath(t, v + "-");
    EqualsQuotes(t, v);
    StartsWithQuotes(t, v + " ");
    StartsWithQuotes(t, v + "-");
    NoQuotes(" or ");
    QuotesAppend(a, " or ");
    QuotesAppend(a + " or ", b);
    QuotesAppend(a + " or " + b, " or ");
    QuotesAppend(a + " or " + b + " or ", c);
  }

  lemma EndsWithQuotes(t: string, v: string)
    requires '"' !in t && '"' !in v
    ensures Quotes(EndsWithXpath(t, v)) == 4
  {
    var head := "contains(concat(@" + t + ", ";
    assert '"' !in head;
    NoQuotes(head);
    NoQuotes("), ");
    NoQuotes(")");
    var q1, q2 := Quoted("___"), Quoted(v + "___");
    QuotedQuotes("___");
    QuotedQuotes(v + "___");
    QuotesAppend(head, q1);
    QuotesAppend(head + q1, "), ");
    QuotesAppend(head + q1 + "), ", q2);
    QuotesAppend(head + q1 + "), " + q2, ")");
  }

  lemma HasWordQuotes(t: string, v: string)
    requires '"' !in t && '"' !in v
    ensures Quotes(HasWordXpath(t, v)) == 6
  {
    var q1, q3 := Quoted(" "), Quoted(" " + v + " ");
    QuotedQuotes(" ");
    QuotedQuotes(" " + v + " ");
    var mid := ", @" + t + ", ";
    assert '"' !in mid;
    NoQuotes("contains(concat(");
    NoQuotes(", @" + t);
    NoQuotes(", ");
    NoQuotes("), ");
    NoQuotes(")");
    var a1 := "contains(concat(" + q1;
    var a3 := a1 + ", @" + t;
    var a5 := a3 + ", " + q1;
    var a7 := a5 + "), " + q3;
    QuotesAppend("contains(concat(", q1);
    QuotesAppend(a1, ", @" + t);
    assert a3 == a1 + (", @" + t);
    QuotesAppend(a3, ", ");
    QuotesAppend(a3 + ", ", q1);
    QuotesAppend(a5, "), ");
    QuotesAppend(a5 + "), ", q3);
    QuotesAppend(a7, ")");
  }

  /**
   * The scanner's character classes keep `"` out of attribute names and values,
   * so a rendered attribute test holds only the quotes of its own literals.
   */
  lemma AttributeQuotes(a: Attribute)
    requires CleanAttribute(a)
    ensures Quotes(AttributeXpath(a)) == QuoteCount(a.matcher)
  {
    var t, v := a.attrType, a.value.GetOr("");
    assert '"' !in t by {
      if t != "id" && t != "class" {
        assert forall k :: 0 <= k < |t| ==> t[k] != '"';
      }
    }
    assert '"' !in v by {
      if a.value.Some? {
        assert forall k :: 0 <= k < |v| ==> v[k] != '"';
      }
    }
    var x := AttributeXpath(a);
    match a.matcher
    case Same =>
      assert x == EqualsXpath(t, v);
      EqualsQuotes(t, v);
    case Not =>
      assert x == "not(" + EqualsXpath(t, v) + ")";
      NotQuotes(t, v);
    case Start =>
      assert x == StartsWithXpath(t, v);
      StartsWithQuotes(t, v);
    case ContainsPrefix =>
      assert x == PrefixXpath(t, v);
      PrefixQuotes(t, v);
    case End =>
      assert x == EndsWithXpath(t, v);
      EndsWithQuotes(t, v);
    case ContainsWord =>
      assert x == HasWordXpath(t, v);
      HasWordQuotes(t, v);
    case Bare =>
      assert x == "@" + t;
      assert '"' !in x;
      NoQuotes(x);
  }
}
