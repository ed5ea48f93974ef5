/**
 * The `nth-child` branch of `mkXpathPseudoSelector` (Parser.php:369-379): a
 * numeric value selects one position; any other value is matched against
 * `^(\-)?([0-9]+)?(\+|\-)?([0-9])+(n)?(\+|\-)?(\-?[0-9]+)?` and the capture
 * groups give the offset and the factor of the rendered modulo test.
 */
module NthChild {
  import opened Outcomes
  import opened Text

  /**
   * The numeric strings this model accepts for the first branch: an optional
   * sign followed by at least one digit.
   */
  predicate IsNumeric(v: string) {
    var p := if |v| > 0 && IsSign(v[0]) then 1 else 0;
    p < |v| && AllIn(v[p..], DigitChars)
  }

  /**
   * The capture groups of the pattern, `""` for a group that took part in no
   * match. `run` is all the text that `([0-9])+` consumed; the group itself,
   * `g4`, keeps only the last digit of it.
   */
  datatype NthGroups = NthGroups(g1: string, g2: string, g3: string, run: string, g4: string, g5: string, g6: string, g7: string)
  {
    /** Everything the pattern consumed, in order. */
    function Matched(): string {
      g1 + g2 + g3 + run + g5 + g6 + g7
    }
  }

  const NoGroups := NthGroups("", "", "", "", "", "", "", "")

  /** Each group of `(\-)?([0-9]+)?(\+|\-)?([0-9])+` holds what its sub-pattern can match. */
  predicate HeadShaped(g: NthGroups) {
    && (g.g1 == "" || g.g1 == "-")
    && AllIn(g.g2, DigitChars)
    && (g.g3 == "" || g.g3 == "+" || g.g3 == "-")
    && |g.run| >= 1 && AllIn(g.run, DigitChars) && g.g4 == [g.run[|g.run| - 1]]
  }

  /** Each group of `(n)?(\+|\-)?(\-?[0-9]+)?` holds what its sub-pattern can match. */
  predicate TailShaped(g: NthGroups) {
    && (g.g5 == "" || g.g5 == "n")
    && (g.g6 == "" || g.g6 == "+" || g.g6 == "-")
    && (g.g7 == "" || AllIn(g.g7, DigitChars) || (g.g7[0] == '-' && |g.g7| >= 2 && AllIn(g.g7[1..], DigitChars)))
  }

  predicate Shaped(g: NthGroups) {
    HeadShaped(g) && TailShaped(g)
  }

  /** What the groups consumed is the start of `v`. */
  predicate PrefixOf(g: NthGroups, v: string) {
    |g.Matched()| <= |v| && g.Matched() == v[..|g.Matched()|]
  }

  /** The length `(n)?` takes at `q`. */
  function LetterN(v: string, q: nat): (n: nat)
    requires q <= |v|
    ensures q + n <= |v|
  {
    if q < |v| && v[q] == 'n' then 1 else 0
  }

  /** The length `(\+|\-)?` takes at `q`. */
  function OptSign(v: string, q: nat): (n: nat)
    requires q <= |v|
    ensures q + n <= |v|
  {
    if q < |v| && IsSign(v[q]) then 1 else 0
  }

  /** The length `(\-?[0-9]+)?` takes at `r`: a minus sign is taken only when digits follow it. */
  function OptInteger(v: string, r: nat): (n: nat)
    requires r <= |v|
    ensures r + n <= |v|
  {
    if r < |v| && v[r] == '-' && RunLength(v, r + 1, DigitChars) >= 1 then 1 + RunLength(v, r + 1, DigitChars)
    else RunLength(v, r, DigitChars)
  }

  /**
   * The groups once the head `(\-)?([0-9]+)?(\+|\-)?([0-9])+` has taken
   * `v[..p]`, `v[p..j]`, `v[j..k]` and `v[k..q]`, and the optional tail
   * `(n)?(\+|\-)?(\-?[0-9]+)?` is matched greedily from `q`.
   */
  function MatchTail(v: string, p: nat, j: nat, k: nat, q: nat): (g: NthGroups)
    requires p <= j <= k < q <= |v|
  {
    var r5 := q + LetterN(v, q);
    var r6 := r5 + OptSign(v, r5);
    var r7 := r6 + OptInteger(v, r6);
    NthGroups(v[..p], v[p..j], v[j..k], v[k..q], [v[q - 1]], v[q..r5], v[r5..r6], v[r6..r7])
  }

  /** `MatchTail` with the ends of its three tail groups named. */
  lemma MatchTailAt(v: string, p: nat, j: nat, k: nat, q: nat, r5: nat, r6: nat, r7: nat)
    requires p <= j <= k < q <= |v|
    requires r5 == q + LetterN(v, q) && r6 == r5 + OptSign(v, r5) && r7 == r6 + OptInteger(v, r6)
    ensures q <= r5 <= r6 <= r7 <= |v|
    ensures MatchTail(v, p, j, k, q) == NthGroups(v[..p], v[p..j], v[j..k], v[k..q], [v[q - 1]], v[q..r5], v[r5..r6], v[r6..r7])
  {
    assert q <= r5 <= r6 <= r7 <= |v|;
  }

  /** Seven consecutive slices from the start make up a prefix. */
  lemma Concat7(v: string, p: nat, j: nat, k: nat, q: nat, r5: nat, r6: nat, r7: nat)
    requires p <= j <= k <= q <= r5 <= r6 <= r7 <= |v|
    ensures v[..p] + v[p..j] + v[j..k] + v[k..q] + v[q..r5] + v[r5..r6] + v[r6..r7] == v[..r7]
  {
    Concat4(v, p, j, k, q);
    Concat4(v, q, r5, r6, r7);
  }

  /** The groups together are a prefix of `v`. */
  lemma MatchTailPrefix(v: string, p: nat, j: nat, k: nat, q: nat)
    requires p <= j <= k < q <= |v|
    ensures PrefixOf(MatchTail(v, p, j, k, q), v)
  {
    var r5 := q + LetterN(v, q);
    var r6 := r5 + OptSign(v, r5);
    var r7 := r6 + OptInteger(v, r6);
    MatchTailAt(v, p, j, k, q, r5, r6, r7);
    Concat7(v, p, j, k, q, r5, r6, r7);
  }

  lemma LetterNShape(v: string, q: nat)
    requires q <= |v|
    ensures v[q..q + LetterN(v, q)] == "" || v[q..q + LetterN(v, q)] == "n"
  {
    if LetterN(v, q) == 1 {
      assert v[q..q + 1] == [v[q]];
    }
  }

  lemma OptSignShape(v: string, q: nat)
    requires q <= |v|
    ensures var t := v[q..q + OptSign(v, q)]; t == "" || t == "+" || t == "-"
  {
    if OptSign(v, q) == 1 {
      assert v[q..q + 1] == [v[q]];
    }
  }

  /** The last group: digits, or a minus sign and digits. */
  lemma OptIntegerShape(v: string, r: nat)
    requires r <= |v|
    ensures var t := v[r..r + OptInteger(v, r)];
      t == "" || AllIn(t, DigitChars) || (t[0] == '-' && |t| >= 2 && AllIn(t[1..], DigitChars))
  {
    if r < |v| && v[r] == '-' && RunLength(v, r + 1, DigitChars) >= 1 {
      var n := RunLength(v, r + 1, DigitChars);
      RunAllInSlice(v, r + 1, DigitChars);
      assert v[r..r + 1 + n][1..] == v[r + 1..r + 1 + n];
    } else {
      RunAllInSlice(v, r, DigitChars);
    }
  }

  lemma MatchTailHeadShaped(v: string, p: nat, j: nat, k: nat, q: nat)
    requires p <= j <= k < q <= |v|
    requires v[..p] == "" || v[..p] == "-"
    requires AllIn(v[p..j], DigitChars)
    requires v[j..k] == "" || v[j..k] == "+" || v[j..k] == "-"
    requires AllIn(v[k..q], DigitChars)
    ensures HeadShaped(MatchTail(v, p, j, k, q))
  {
    assert v[q - 1] == v[k..q][|v[k..q]| - 1];
  }

  lemma MatchTailTailShaped(v: string, p: nat, j: nat, k: nat, q: nat)
    requires p <= j <= k < q <= |v|
    ensures TailShaped(MatchTail(v, p, j, k, q))
  {
    var r5 := q + LetterN(v, q);
    var r6 := r5 + OptSign(v, r5);
    LetterNShape(v, q);
    OptSignShape(v, r5);
    OptIntegerShape(v, r6);
  }

  /**
   * Where the head `(\-)?([0-9]+)?(\+|\-)?([0-9])+` puts its groups: `v[..p]`,
   * `v[p..j]`, `v[j..k]` and `v[k..q]`.
   */
  datatype Head = Head(p: nat, j: nat, k: nat, q: nat)

  /**
   * The head of the pattern at the start of `v`, or `None` when it does not
   * match. The optional `([0-9]+)?` is greedy: when a sign and digits follow
   * all the leading digits, `g2` takes them all; otherwise it gives back the
   * last digit so that `([0-9])+` can match it.
   */
  function MatchHead(v: string): (h: Option<Head>)
    ensures h.Some? ==> h.value.p <= h.value.j <= h.value.k < h.value.q <= |v|
  {
    var p := if |v| > 0 && v[0] == '-' then 1 else 0;
    HeadAt(v, p, p + RunLength(v, p, DigitChars))
  }

  /** The head once the sign is `v[..p]` and the leading digits are `v[p..c]`. */
  function HeadAt(v: string, p: nat, c: nat): (h: Option<Head>)
    requires p <= c <= |v|
    ensures h.Some? ==> h.value.p <= h.value.j <= h.value.k < h.value.q <= |v|
    ensures h.None? ==> c == p
  {
    var d2 := if c < |v| && IsSign(v[c]) then RunLength(v, c + 1, DigitChars) else 0;
    if d2 >= 1 then Some(Head(p, c, c + 1, c + 1 + d2))
    else if c > p then Some(Head(p, c - 1, c - 1, c))
    else None
  }

  /** Each part of the head holds what its sub-pattern can match. */
  predicate HeadFits(v: string, h: Head) {
    && h.p <= h.j <= h.k < h.q <= |v|
    && (v[..h.p] == "" || v[..h.p] == "-")
    && AllIn(v[h.p..h.j], DigitChars)
    && (v[h.j..h.k] == "" || v[h.j..h.k] == "+" || v[h.j..h.k] == "-")
    && AllIn(v[h.k..h.q], DigitChars)
  }

  lemma SignedHeadFits(v: string, p: nat, c: nat, e: nat)
    requires p <= c && c + 1 < e <= |v|
    requires v[..p] == "" || v[..p] == "-"
    requires forall k :: p <= k < c ==> InClass(v[k], DigitChars)
    requires IsSign(v[c])
    requires forall k :: c + 1 <= k < e ==> InClass(v[k], DigitChars)
    ensures HeadFits(v, Head(p, c, c + 1, e))
  {
    RunAllIn(v, p, c, DigitChars);
    RunAllIn(v, c + 1, e, DigitChars);
    assert v[c..c + 1] == [v[c]];
  }

  lemma DigitHeadFits(v: string, p: nat, c: nat)
    requires p < c <= |v|
    requires v[..p] == "" || v[..p] == "-"
    requires forall k :: p <= k < c ==> InClass(v[k], DigitChars)
    ensures HeadFits(v, Head(p, c - 1, c - 1, c))
  {
    RunAllIn(v, p, c - 1, DigitChars);
    RunAllIn(v, c - 1, c, DigitChars);
  }

  lemma HeadAtFits(v: string, p: nat, c: nat)
    requires p <= c <= |v|
    requires v[..p] == "" || v[..p] == "-"
    requires forall k :: p <= k < c ==> InClass(v[k], DigitChars)
    ensures HeadAt(v, p, c).Some? ==> HeadFits(v, HeadAt(v, p, c).value)
  {
    var d2 := if c < |v| && IsSign(v[c]) then RunLength(v, c + 1, DigitChars) else 0;
    if d2 >= 1 {
      RunLengthSpec(v, c + 1, DigitChars);
      SignedHeadFits(v, p, c, c + 1 + d2);
    } else if c > p {
      DigitHeadFits(v, p, c);
    }
  }

  /** The head matches as the pattern says, and fails only on a value that does not start with a digit or `-`. */
  lemma MatchHeadFits(v: string)
    ensures MatchHead(v).Some? ==> HeadFits(v, MatchHead(v).value)
    ensures MatchHead(v).None? ==> |v| == 0 || !IsDigit(v[0])
  {
    var p := if |v| > 0 && v[0] == '-' then 1 else 0;
    LeadingSign(v, p);
    RunLengthSpec(v, p, DigitChars);
    HeadAtFits(v, p, p + RunLength(v, p, DigitChars));
  }

  /** The capture groups at the start of `v`, or `None` when the pattern does not match. */
  function NthMatch(v: string): (m: Option<NthGroups>)
  {
    match MatchHead(v)
    case None => None
    case Some(h) => Some(MatchTail(v, h.p, h.j, h.k, h.q))
  }

  /** The groups of a head that the pattern accepts, with the greedy tail after it. */
  lemma MatchTailFits(v: string, h: Head)
    requires HeadFits(v, h)
    ensures Shaped(MatchTail(v, h.p, h.j, h.k, h.q)) && PrefixOf(MatchTail(v, h.p, h.j, h.k, h.q), v)
  {
    MatchTailHeadShaped(v, h.p, h.j, h.k, h.q);
    MatchTailTailShaped(v, h.p, h.j, h.k, h.q);
    MatchTailPrefix(v, h.p, h.j, h.k, h.q);
  }

  /**
   * A match has the shape of the pattern and is a prefix of the value; the
   * pattern fails only on a value that does not start with a digit or `-`.
   */
  lemma NthMatchShaped(v: string)
    ensures NthMatch(v).Some? ==> Shaped(NthMatch(v).value) && PrefixOf(NthMatch(v).value, v)
    ensures NthMatch(v).None? ==> |v| == 0 || !IsDigit(v[0])
  {
    MatchHeadFits(v);
    if MatchHead(v).Some? {
      MatchTailFits(v, MatchHead(v).value);
    }
  }

  lemma LeadingSign(v: string, p: nat)
    requires p == if |v| > 0 && v[0] == '-' then 1 else 0
    ensures p <= |v| && (v[..p] == "" || v[..p] == "-")
  {
  }

  /** Every part of a run is in the class. */
  lemma RunAllIn(v: string, i: nat, j: nat, cls: CharClass)
    requires i <= j <= |v|
    requires forall k :: i <= k < j ==> InClass(v[k], cls)
    ensures AllIn(v[i..j], cls)
  {
  }

  lemma Concat4(v: string, i: nat, j: nat, k: nat, l: nat)
    requires i <= j <= k <= l <= |v|
    ensures v[..l] == v[..i] + v[i..j] + v[j..k] + v[k..l]
  {
  }

  /** The groups as PHP reads them: all empty when nothing matched. */
  function Groups(v: string): NthGroups {
    match NthMatch(v)
    case Some(g) => g
    case None => NoGroups
  }

  /** The groups PHP reads are those of a match, or all empty. */
  lemma GroupsShaped(v: string)
    ensures Shaped(Groups(v)) || Groups(v) == NoGroups
  {
    NthMatchShaped(v);
  }

  /** A digit group read as a number; the empty group counts as 0. */
  function Num(t: string): nat
    requires AllIn(t, DigitChars)
  {
    DigitsValue(t)
  }

  /** The last group, which may carry its own minus sign. */
  function SignedNum(t: string): int
    requires t == "" || AllIn(t, DigitChars) || (t[0] == '-' && |t| >= 2 && AllIn(t[1..], DigitChars))
  {
    if t != "" && t[0] == '-' then -(DigitsValue(t[1..]) as int) else DigitsValue(t)
  }

  /** `$offset` of Parser.php:376. */
  function NthOffset(g: NthGroups): int
    requires Shaped(g) || g == NoGroups
  {
    (if g.g1 == "-" then -(Num(g.g2) as int) else Num(g.g2)) + (if g.g6 == "-" then -SignedNum(g.g7) else SignedNum(g.g7))
  }

  /** `$factor` of Parser.php:377 as it is printed. */
  function NthFactor(g: NthGroups): string
    requires Shaped(g) || g == NoGroups
  {
    if g.g3 == "-" then IntToString(-(Num(g.g4) as int)) else g.g4
  }

  /** The modulo test with the offset and factor as printed. */
  function ModuloXpath(offset: int, factor: string): string {
    "(position() + " + IntToString(-offset) + ") mod " + factor + " = 0"
      + (if offset >= 0 then " and position() >= " + IntToString(offset) else "")
  }

  /** The predicate `:nth-child(v)` renders to. */
  function NthChildXpath(v: string): string {
    if IsNumeric(v) then "position() = " + v
    else
      GroupsShaped(v);
      var g := Groups(v);
      ModuloXpath(NthOffset(g), NthFactor(g))
  }

  // ---------------------------------------------------------------- consequences

  /** A value that is not numeric renders the modulo test of its groups. */
  lemma NonNumericXpath(v: string)
    requires !IsNumeric(v)
    ensures Shaped(Groups(v)) || Groups(v) == NoGroups
    ensures NthChildXpath(v) == ModuloXpath(NthOffset(Groups(v)), NthFactor(Groups(v)))
  {
    GroupsShaped(v);
  }

  /** A character other than a digit after the first makes the value non-numeric. */
  lemma NotNumeric(v: string, i: nat)
    requires 0 < i < |v| && !IsDigit(v[i])
    ensures !IsNumeric(v)
  {
    var p := if |v| > 0 && IsSign(v[0]) then 1 else 0;
    assert v[p..][i - p] == v[i];
  }

  lemma {:induction false} RunToEnd(v: string, k: nat)
    requires k <= |v| && AllIn(v[k..], DigitChars)
    ensures RunLength(v, k, DigitChars) == |v| - k
  {
    RunLengthUnique(v, k, |v| - k, DigitChars);
  }

  /** Digits up to the end make up the whole last group. */
  lemma {:induction false} OptIntegerDigits(v: string, r: nat)
    requires r < |v| && RunLength(v, r, DigitChars) == |v| - r
    ensures OptInteger(v, r) == |v| - r
  {
    assert IsDigit(v[r]);
  }

  /**
   * A value that starts with `n >= 1` digits followed by neither a digit nor a
   * sign: `([0-9]+)?` keeps all but the last digit, `([0-9])+` takes the last
   * one, and the tail starts after it.
   */
  lemma GroupsAfterDigits(v: string, n: nat)
    requires 1 <= n < |v| && AllIn(v[..n], DigitChars) && !IsDigit(v[n]) && !IsSign(v[n])
    ensures Groups(v) == MatchTail(v, 0, n - 1, n - 1, n)
  {
    assert v[0] == v[..n][0];
    assert RunLength(v, 0, DigitChars) == n by {
      assert forall k :: 0 <= k < n ==> v[k] == v[..n][k];
      RunLengthUnique(v, 0, n, DigitChars);
    }
    assert NthMatch(v) == Some(MatchTail(v, 0, n - 1, n - 1, n));
  }

  /** After the digits, `n` alone at the end: the three tail groups are `n`, empty, empty. */
  lemma TailLetterOnly(v: string, q: nat)
    requires q + 1 == |v| && v[q] == 'n'
    ensures LetterN(v, q) == 1 && OptSign(v, q + 1) == 0 && OptInteger(v, q + 1) == 0
  {
  }

  /** After one digit, `n`, a sign and digits to the end. */
  lemma {:induction false} TailLinear(v: string)
    requires |v| >= 4 && v[1] == 'n' && IsSign(v[2]) && RunLength(v, 3, DigitChars) == |v| - 3
    ensures LetterN(v, 1) == 1 && OptSign(v, 2) == 1 && OptInteger(v, 3) == |v| - 3
  {
    OptIntegerDigits(v, 3);
  }

  /** The offset of groups with no leading number and a signed last number. */
  lemma {:induction false} LinearOffset(g: NthGroups, b: nat)
    requires Shaped(g) && g.g1 == "" && g.g2 == "" && g.g7 == NatToString(b)
    ensures NthOffset(g) == if g.g6 == "-" then -(b as int) else b
  {
    NatToStringValue(b);
    assert g.g7[0] != '-';
  }

  /** A digit, `n`, a sign and digits: the tail takes `n`, the sign and all the digits. */
  lemma {:induction false} LinearGroups(v: string)
    requires |v| >= 4 && IsDigit(v[0]) && v[1] == 'n' && IsSign(v[2]) && RunLength(v, 3, DigitChars) == |v| - 3
    ensures Groups(v) == NthGroups("", "", "", [v[0]], [v[0]], "n", [v[2]], v[3..])
  {
    LinearSlices(v);
    GroupsAfterDigits(v, 1);
    TailLinear(v);
    MatchTailAt(v, 0, 0, 0, 1, 2, 3, |v|);
  }

  lemma LinearSlices(v: string)
    requires |v| >= 4 && IsDigit(v[0]) && v[1] == 'n'
    ensures AllIn(v[..1], DigitChars) && v[..0] == "" && v[0..0] == "" && v[0..1] == [v[0]] && v[1..2] == "n"
    ensures v[2..3] == [v[2]] && v[3..|v|] == v[3..]
  {
    assert v[..1][0] == v[0];
  }

  /** `d n ± b` for any text laid out that way. */
  lemma {:induction false} LinearXpath(v: string, b: nat)
    requires |v| >= 4 && IsDigit(v[0]) && v[1] == 'n' && IsSign(v[2]) && v[3..] == NatToString(b)
    ensures NthChildXpath(v) == ModuloXpath(if v[2] == '-' then -(b as int) else b, [v[0]])
  {
    NotNumeric(v, 1);
    NonNumericXpath(v);
    RunToEnd(v, 3);
    LinearGroups(v);
    LinearOffset(Groups(v), b);
  }

  /**
   * The form `an+b` and `an-b` with a one-digit coefficient: every position
   * congruent to the offset modulo `a`, from the offset on when it is not
   * negative.
   */
  lemma {:induction false} NthChildLinear(a: nat, minus: bool, b: nat)
    requires a < 10
    ensures var v := [DigitChar(a)] + "n" + (if minus then "-" else "+") + NatToString(b);
      NthChildXpath(v) == ModuloXpath(if minus then -(b as int) else b, [DigitChar(a)])
  {
    var sign := if minus then "-" else "+";
    var t := NatToString(b);
    var v := [DigitChar(a)] + "n" + sign + t;
    assert v[0] == DigitChar(a) && v[1] == 'n' && v[2] == sign[0] && v[3..] == t;
    LinearXpath(v, b);
  }

  /** A digit and `n`: the tail takes `n` alone. */
  lemma MultipleGroups(v: string)
    requires |v| == 2 && IsDigit(v[0]) && v[1] == 'n'
    ensures Groups(v) == NthGroups("", "", "", [v[0]], [v[0]], "n", "", "")
  {
    TwoSlices(v);
    GroupsAfterDigits(v, 1);
    TailLetterOnly(v, 1);
    MatchTailAt(v, 0, 0, 0, 1, 2, 2, 2);
  }

  lemma TwoSlices(v: string)
    requires |v| == 2 && IsDigit(v[0]) && v[1] == 'n'
    ensures AllIn(v[..1], DigitChars) && v[..0] == "" && v[0..0] == "" && v[0..1] == [v[0]]
    ensures v[2..2] == "" && v[1..2] == "n"
  {
    assert v[..1][0] == v[0];
  }

  /** `d n` for any text laid out that way. */
  lemma MultipleXpath(v: string)
    requires |v| == 2 && IsDigit(v[0]) && v[1] == 'n'
    ensures NthChildXpath(v) == ModuloXpath(0, [v[0]])
  {
    NotNumeric(v, 1);
    MultipleGroups(v);
    NonNumericXpath(v);
    var g := Groups(v);
    assert NthOffset(g) == 0;
    assert NthFactor(g) == [v[0]];
  }

  /** The form `an`: offset 0, every multiple of `a`. */
  lemma NthChildMultiple(a: nat)
    requires a < 10
    ensures NthChildXpath([DigitChar(a)] + "n") == ModuloXpath(0, [DigitChar(a)])
  {
    var v := [DigitChar(a)] + "n";
    assert |v| == 2 && v[0] == DigitChar(a) && v[1] == 'n';
    MultipleXpath(v);
  }

  /** Digits and then `n`: all but the last digit, the last digit, and `n`. */
  lemma LongCoefficientGroups(v: string, n: nat)
    requires n >= 2 && |v| == n + 1 && AllIn(v[..n], DigitChars) && v[n] == 'n'
    ensures Groups(v) == NthGroups("", v[..n - 1], "", v[n - 1..n], [v[n - 1]], "n", "", "")
  {
    GroupsAfterDigits(v, n);
    TailLetterOnly(v, n);
    assert v[0..n - 1] == v[..n - 1];
    assert v[n..n + 1] == "n";
  }

  /** Digits and then `n` for any text laid out that way. */
  lemma LongCoefficientXpath(v: string, n: nat)
    requires n >= 2 && |v| == n + 1 && AllIn(v[..n], DigitChars) && v[n] == 'n'
    ensures NthChildXpath(v) == ModuloXpath(DigitsValue(v[..n - 1]), [v[n - 1]])
  {
    NotNumeric(v, n);
    LongCoefficientGroups(v, n);
  }

  /**
   * A coefficient of several digits followed by `n` is split by the pattern:
   * `([0-9]+)?` keeps all but the last digit, which counts as an offset, and
   * the factor is the last digit alone. `12n` gives factor 2 and offset 1.
   */
  lemma NthChildLongCoefficient(c: string)
    requires |c| >= 2 && AllIn(c, DigitChars)
    ensures NthChildXpath(c + "n") == ModuloXpath(DigitsValue(c[..|c| - 1]), [c[|c| - 1]])
  {
    var v := c + "n";
    var n := |c|;
    assert v[..n] == c && v[n] == 'n' && v[..n - 1] == c[..n - 1] && v[n - 1] == c[n - 1];
    LongCoefficientXpath(v, n);
  }

  /** A digit, `n` and a space: the space stops the tail after `n`. */
  lemma SpacedGroups(v: string)
    requires |v| >= 3 && IsDigit(v[0]) && v[1] == 'n' && v[2] == ' '
    ensures Groups(v) == NthGroups("", "", "", [v[0]], [v[0]], "n", "", "")
  {
    assert v[..1][0] == v[0];
    GroupsAfterDigits(v, 1);
    assert RunLength(v, 2, DigitChars) == 0;
    MatchTailAt(v, 0, 0, 0, 1, 2, 2, 2);
    assert v[..0] == "" && v[0..0] == "" && v[0..1] == [v[0]] && v[1..2] == "n" && v[2..2] == "";
  }

  /**
   * `an` followed by a space: whatever comes after the space, as in
   * `3n + 2` or `3n - 1`, is not read, and the test is that of `an` alone.
   */
  lemma NthChildSpaced(a: nat, rest: string)
    requires a < 10
    ensures NthChildXpath([DigitChar(a)] + "n " + rest) == ModuloXpath(0, [DigitChar(a)])
  {
    var v := [DigitChar(a)] + "n " + rest;
    assert v[0] == DigitChar(a) && v[1] == 'n' && v[2] == ' ';
    NotNumeric(v, 1);
    SpacedGroups(v);
    NonNumericXpath(v);
    var g := Groups(v);
    assert NthOffset(g) == 0;
    assert NthFactor(g) == [v[0]];
  }

  /** A value the pattern cannot match renders with offset 0 and an empty factor. */
  lemma NthChildUnmatched(v: string)
    requires |v| >= 1 && !IsDigit(v[0]) && !IsSign(v[0])
    ensures NthChildXpath(v) == ModuloXpath(0, "")
  {
    assert !IsNumeric(v);
    assert RunLength(v, 0, DigitChars) == 0;
  }
}
