/**
 * Characters and strings as the parser sees them: the one-character classes it
 * tests with `preg_match`, the longest-run primitive behind `extract`, and the PHP
 * string built-ins it calls (`trim`, `explode`, `implode`, integer printing).
 * A PHP string is a string of bytes; here each `char` stands for one byte.
 */
module Text {

  predicate IsLetter(c: char) { 'a' <= c <= 'z' || 'A' <= c <= 'Z' }

  predicate IsDigit(c: char) { '0' <= c <= '9' }

  predicate IsSign(c: char) { c == '+' || c == '-' }

  /** The fixed one-character patterns of the scanner. */
  datatype CharClass =
    | TagChars          // [a-zA-Z]
    | ValueChars        // [a-zA-Z0-9_-]
    | MatcherChars      // [!=^$*|~]
    | PseudoNameChars   // [a-z-]
    | DigitChars        // [0-9]

  predicate InClass(c: char, cls: CharClass) {
    match cls
    case TagChars => IsLetter(c)
    case ValueChars => IsLetter(c) || IsDigit(c) || c == '_' || c == '-'
    case MatcherChars => c == '!' || c == '=' || c == '^' || c == '$' || c == '*' || c == '|' || c == '~'
    case PseudoNameChars => ('a' <= c <= 'z') || c == '-'
    case DigitChars => IsDigit(c)
  }

  predicate AllIn(t: string, cls: CharClass) {
    forall k :: 0 <= k < |t| ==> InClass(t[k], cls)
  }

  /**
   * The length of the longest run of `cls` characters starting at `off`:
   * every character of the run is in the class and the one after it is not.
   */
  function RunLength(s: string, off: nat, cls: CharClass): (n: nat)
    requires off <= |s|
    ensures off + n <= |s|
    decreases |s| - off
  {
    if off < |s| && InClass(s[off], cls) then 1 + RunLength(s, off + 1, cls) else 0
  }

  /** Every character of the run is in the class and the one after it is not. */
  lemma {:induction false} RunLengthSpec(s: string, off: nat, cls: CharClass)
    requires off <= |s|
    ensures var n := RunLength(s, off, cls);
      && (forall k :: off <= k < off + n ==> InClass(s[k], cls))
      && (off + n == |s| || !InClass(s[off + n], cls))
    decreases |s| - off
  {
    if off < |s| && InClass(s[off], cls) {
      RunLengthSpec(s, off + 1, cls);
    }
  }

  /**
   * Where the run of `cls` characters starting at `off` ends: the position the
   * cursor of the scanner reaches after extracting it.
   */
  function RunEnd(s: string, off: nat, cls: CharClass): (e: nat)
    requires off <= |s|
    ensures off <= e <= |s|
  {
    off + RunLength(s, off, cls)
  }

  /** The run that `RunLength` measures is the only one with its two properties. */
  lemma {:induction false} RunLengthUnique(s: string, off: nat, n: nat, cls: CharClass)
    requires off + n <= |s|
    requires forall k :: off <= k < off + n ==> InClass(s[k], cls)
    requires off + n == |s| || !InClass(s[off + n], cls)
    ensures RunLength(s, off, cls) == n
    decreases n
  {
    if n > 0 {
      RunLengthUnique(s, off + 1, n - 1, cls);
    }
  }

  /** The run itself, as a slice, is made of the class. */
  lemma {:induction false} RunAllInSlice(s: string, off: nat, cls: CharClass)
    requires off <= |s|
    ensures AllIn(s[off..off + RunLength(s, off, cls)], cls)
  {
    RunLengthSpec(s, off, cls);
    var t := s[off..off + RunLength(s, off, cls)];
    forall k | 0 <= k < |t|
      ensures InClass(t[k], cls)
    {
      assert t[k] == s[off + k];
    }
  }

  // ---------------------------------------------------------------- trim

  /** The characters PHP's `trim` strips by default. */
  predicate IsTrimmed(c: char) {
    c == ' ' || c == '\t' || c == '\n' || c == '\r' || c == '\0' || c == '\U{000B}'
  }

  function TrimStartIndex(s: string, k: nat): (i: nat)
    requires k <= |s|
    ensures k <= i <= |s|
    ensures forall j :: k <= j < i ==> IsTrimmed(s[j])
    ensures i == |s| || !IsTrimmed(s[i])
    decreases |s| - k
  {
    if k < |s| && IsTrimmed(s[k]) then TrimStartIndex(s, k + 1) else k
  }

  function TrimEndIndex(s: string, lo: nat, j: nat): (e: nat)
    requires lo <= j <= |s|
    ensures lo <= e <= j
    ensures forall k :: e <= k < j ==> IsTrimmed(s[k])
    ensures e == lo || !IsTrimmed(s[e - 1])
    decreases j
  {
    if lo < j && IsTrimmed(s[j - 1]) then TrimEndIndex(s, lo, j - 1) else j
  }

  /**
   * PHP `trim`: `s` with its leading and trailing whitespace removed. The result
   * is the part of `s` that starts at its first non-whitespace character; what
   * follows it in `s` is whitespace only.
   */
  function Trim(s: string): (r: string)
    ensures |r| <= |s|
    ensures r == [] || (!IsTrimmed(r[0]) && !IsTrimmed(r[|r| - 1]))
    ensures var i := TrimStartIndex(s, 0);
      i + |r| <= |s| && r == s[i..i + |r|] && forall k :: i + |r| <= k < |s| ==> IsTrimmed(s[k])
  {
    var i := TrimStartIndex(s, 0);
    s[i..TrimEndIndex(s, i, |s|)]
  }

  /** A text that starts and ends with no whitespace is its own trim. */
  lemma TrimNone(s: string)
    requires s == [] || (!IsTrimmed(s[0]) && !IsTrimmed(s[|s| - 1]))
    ensures Trim(s) == s
  {
    if s != [] {
      assert TrimStartIndex(s, 0) == 0;
      assert TrimEndIndex(s, 0, |s|) == |s|;
      assert s[0..|s|] == s;
    }
  }

  /** Trimming twice trims nothing more. */
  lemma TrimIdempotent(s: string)
    ensures Trim(Trim(s)) == Trim(s)
  {
    TrimNone(Trim(s));
  }

  // ---------------------------------------------------------------- explode / implode

  function TotalLength(ps: seq<string>): nat {
    if ps == [] then 0 else TotalLength(ps[..|ps| - 1]) + |ps[|ps| - 1]|
  }

  /** PHP `implode(sep, ps)`. */
  function Join(ps: seq<string>, sep: string): (r: string)
    ensures ps != [] ==> ps[0] <= r
  {
    if ps == [] then ""
    else if |ps| == 1 then ps[0]
    else Join(ps[..|ps| - 1], sep) + sep + ps[|ps| - 1]
  }

  /**
   * PHP `explode(sep, s)`: the pieces of `s` between the occurrences of `sep`, so
   * that gluing them back together with `sep` gives `s` again.
   */
  function Split(s: string, sep: char): (ps: seq<string>)
    ensures |ps| >= 1
    ensures forall k :: 0 <= k < |ps| ==> sep !in ps[k]
    decreases |s|
  {
    if s == [] then [""]
    else
      var rest := Split(s[..|s| - 1], sep);
      var c := s[|s| - 1];
      if c == sep then rest + [""]
      else rest[..|rest| - 1] + [rest[|rest| - 1] + [c]]
  }

  /** A separator at the end opens a new, empty piece. */
  lemma {:induction false} SplitSnocSeparator(s: string, sep: char)
    ensures Split(s + [sep], sep) == Split(s, sep) + [""]
  {
    assert (s + [sep])[..|s|] == s;
  }

  /** Any other character at the end extends the last piece. */
  lemma {:induction false} SplitSnocOther(s: string, c: char, sep: char)
    requires c != sep
    ensures var ps := Split(s, sep); Split(s + [c], sep) == ps[..|ps| - 1] + [ps[|ps| - 1] + [c]]
  {
    assert (s + [c])[..|s|] == s;
  }

  lemma {:induction false} JoinSnocEmpty(ps: seq<string>, sep: string)
    requires |ps| >= 1
    ensures Join(ps + [""], sep) == Join(ps, sep) + sep
  {
    var qs := ps + [""];
    assert qs[..|qs| - 1] == ps;
  }

  lemma {:induction false} JoinSnocExtend(ps: seq<string>, c: char, sep: string)
    requires |ps| >= 1
    ensures Join(ps[..|ps| - 1] + [ps[|ps| - 1] + [c]], sep) == Join(ps, sep) + [c]
  {
    var init := ps[..|ps| - 1];
    var qs := init + [ps[|ps| - 1] + [c]];
    assert qs[..|qs| - 1] == init;
    if |ps| >= 2 {
      assert Join(ps, sep) == Join(init, sep) + sep + ps[|ps| - 1];
    }
  }

  /** Gluing the pieces back together with the separator gives the input again. */
  lemma {:induction false} JoinSplit(s: string, sep: char)
    ensures Join(Split(s, sep), [sep]) == s
    decreases |s|
  {
    if s != [] {
      var init, c := s[..|s| - 1], s[|s| - 1];
      JoinSplit(init, sep);
      assert s == init + [c];
      if c == sep {
        SplitSnocSeparator(init, sep);
        JoinSnocEmpty(Split(init, sep), [sep]);
      } else {
        SplitSnocOther(init, c, sep);
        JoinSnocExtend(Split(init, sep), c, [sep]);
      }
    }
  }

  lemma {:induction false} TotalLengthSnoc(ps: seq<string>, x: string)
    ensures TotalLength(ps + [x]) == TotalLength(ps) + |x|
  {
    assert (ps + [x])[..|ps|] == ps;
  }

  /** The pieces hold every character of the input except the separators. */
  lemma {:induction false} SplitLength(s: string, sep: char)
    ensures TotalLength(Split(s, sep)) + |Split(s, sep)| == |s| + 1
    decreases |s|
  {
    if s != [] {
      var init, c := s[..|s| - 1], s[|s| - 1];
      SplitLength(init, sep);
      assert s == init + [c];
      var rest := Split(init, sep);
      if c == sep {
        SplitSnocSeparator(init, sep);
        TotalLengthSnoc(rest, "");
      } else {
        SplitSnocOther(init, c, sep);
        var front := rest[..|rest| - 1];
        assert rest == front + [rest[|rest| - 1]];
        TotalLengthSnoc(front, rest[|rest| - 1]);
        TotalLengthSnoc(front, rest[|rest| - 1] + [c]);
      }
    }
  }

  lemma {:induction false} SplitNoSeparator(s: string, sep: char)
    requires sep !in s
    ensures Split(s, sep) == [s]
    decreases |s|
  {
    if s != [] {
      assert sep !in s[..|s| - 1];
      SplitNoSeparator(s[..|s| - 1], sep);
      assert s == s[..|s| - 1] + [s[|s| - 1]];
    }
  }

  lemma {:induction false} SplitAppendSeparator(a: string, b: string, sep: char)
    requires Split(a + [sep] + b, sep) == Split(a, sep) + Split(b, sep)
    ensures Split(a + [sep] + (b + [sep]), sep) == Split(a, sep) + Split(b + [sep], sep)
  {
    assert a + [sep] + (b + [sep]) == (a + [sep] + b) + [sep];
    SplitSnocSeparator(a + [sep] + b, sep);
    SplitSnocSeparator(b, sep);
  }

  lemma ExtendLastConcat(pa: seq<string>, pb: seq<string>, c: char)
    requires |pb| >= 1
    ensures var r := pa + pb; r[..|r| - 1] + [r[|r| - 1] + [c]] == pa + (pb[..|pb| - 1] + [pb[|pb| - 1] + [c]])
  {
    var r := pa + pb;
    assert r[..|r| - 1] == pa + pb[..|pb| - 1];
  }

  /** A character other than the separator extends the last piece, whatever came before it. */
  lemma {:induction false} SplitSnocConcat(x: string, pa: seq<string>, b: string, c: char, sep: char)
    requires c != sep
    requires Split(x, sep) == pa + Split(b, sep)
    ensures Split(x + [c], sep) == pa + Split(b + [c], sep)
  {
    SplitSnocOther(x, c, sep);
    ExtendLastConcat(pa, Split(b, sep), c);
    SplitSnocOther(b, c, sep);
  }

  lemma {:induction false} SplitAppendOther(a: string, b: string, c: char, sep: char)
    requires c != sep
    requires Split(a + [sep] + b, sep) == Split(a, sep) + Split(b, sep)
    ensures Split(a + [sep] + (b + [c]), sep) == Split(a, sep) + Split(b + [c], sep)
  {
    assert a + [sep] + (b + [c]) == (a + [sep] + b) + [c];
    SplitSnocConcat(a + [sep] + b, Split(a, sep), b, c, sep);
  }

  /** Exploding around one separator explodes both sides independently. */
  lemma {:induction false} SplitAppend(a: string, b: string, sep: char)
    ensures Split(a + [sep] + b, sep) == Split(a, sep) + Split(b, sep)
    decreases |b|
  {
    if b == [] {
      assert a + [sep] + b == a + [sep];
      SplitSnocSeparator(a, sep);
    } else {
      var b', c := b[..|b| - 1], b[|b| - 1];
      SplitAppend(a, b', sep);
      assert b == b' + [c];
      if c == sep {
        SplitAppendSeparator(a, b', sep);
      } else {
        SplitAppendOther(a, b', c, sep);
      }
    }
  }

  /** `explode` undoes `implode` when no piece holds the separator. */
  lemma {:induction false} SplitJoin(ps: seq<string>, sep: char)
    requires |ps| >= 1
    requires forall k :: 0 <= k < |ps| ==> sep !in ps[k]
    ensures Split(Join(ps, [sep]), sep) == ps
    decreases |ps|
  {
    if |ps| == 1 {
      SplitNoSeparator(ps[0], sep);
    } else {
      var init := ps[..|ps| - 1];
      SplitJoin(init, sep);
      SplitAppend(Join(init, [sep]), ps[|ps| - 1], sep);
      SplitNoSeparator(ps[|ps| - 1], sep);
      assert Join(ps, [sep]) == Join(init, [sep]) + [sep] + ps[|ps| - 1];
      assert ps == init + [ps[|ps| - 1]];
    }
  }

  lemma {:induction false} JoinAppend(xs: seq<string>, ys: seq<string>, sep: string)
    requires |xs| >= 1 && |ys| >= 1
    ensures Join(xs + ys, sep) == Join(xs, sep) + sep + Join(ys, sep)
    decreases |ys|
  {
    var zs := xs + ys;
    if |ys| == 1 {
      assert zs[..|zs| - 1] == xs;
    } else {
      var ys' := ys[..|ys| - 1];
      assert zs[..|zs| - 1] == xs + ys';
      JoinAppend(xs, ys', sep);
    }
  }

  // ---------------------------------------------------------------- integers

  function DigitChar(d: nat): (c: char)
    requires d < 10
    ensures IsDigit(c)
  {
    ('0' as int + d) as char
  }

  /** Decimal value of a string of digits; the empty string counts as 0. */
  function DigitsValue(t: string): nat
    requires AllIn(t, DigitChars)
  {
    if t == [] then 0
    else DigitsValue(t[..|t| - 1]) * 10 + (t[|t| - 1] as int - '0' as int)
  }

  /** How PHP prints a non-negative integer. */
  function NatToString(n: nat): (t: string)
    ensures |t| >= 1 && AllIn(t, DigitChars)
    ensures |t| >= 2 ==> t[0] != '0'
    decreases n
  {
    if n < 10 then [DigitChar(n)]
    else NatToString(n / 10) + [DigitChar(n % 10)]
  }

  /** How PHP prints an integer. */
  function IntToString(i: int): (t: string)
    ensures i >= 0 ==> t == NatToString(i)
    ensures i < 0 ==> t == "-" + NatToString(-i)
  {
    if i < 0 then "-" + NatToString(-i) else NatToString(i)
  }

  /** Printing is undone by reading the digits back. */
  lemma {:induction false} NatToStringValue(n: nat)
    ensures DigitsValue(NatToString(n)) == n
    decreases n
  {
    var t := NatToString(n);
    if n >= 10 {
      NatToStringValue(n / 10);
      assert t[..|t| - 1] == NatToString(n / 10);
    }
  }
}
