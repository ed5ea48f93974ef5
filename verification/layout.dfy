/**
 * Text written at a position of a larger text, and the text of a list written
 * element after element. Following the scanner through a printed selector
 * needs to know where each printed piece stands; these lemmas say so without
 * looking at what the pieces are.
 */
module Layout {

  /** `t` occurs in `s` at `off`. */
  predicate At(s: string, off: nat, t: string) {
    off + |t| <= |s| && forall k :: 0 <= k < |t| ==> s[off + k] == t[k]
  }

  lemma AtChar(s: string, off: nat, t: string, k: nat)
    requires At(s, off, t) && k < |t|
    ensures off + k < |s| && s[off + k] == t[k]
  {
  }

  lemma AtConcat(s: string, off: nat, t1: string, t2: string)
    requires At(s, off, t1 + t2)
    ensures At(s, off, t1) && At(s, off + |t1|, t2)
  {
    forall k | 0 <= k < |t1|
      ensures s[off + k] == t1[k]
    {
      assert (t1 + t2)[k] == t1[k];
    }
    forall k | 0 <= k < |t2|
      ensures s[off + |t1| + k] == t2[k]
    {
      assert (t1 + t2)[|t1| + k] == t2[k];
    }
  }

  lemma AtSlice(s: string, off: nat, t: string)
    requires At(s, off, t)
    ensures s[off..off + |t|] == t
  {
  }

  lemma AtWhole(s: string)
    ensures At(s, 0, s)
  {
  }

  /** The texts `T` gives the elements of `xs`, one after the other. */
  function Joined<X>(T: X -> string, xs: seq<X>): string {
    if xs == [] then "" else Joined(T, xs[..|xs| - 1]) + T(xs[|xs| - 1])
  }

  lemma {:induction false} JoinedAppend<X>(T: X -> string, a: seq<X>, b: seq<X>)
    ensures Joined(T, a + b) == Joined(T, a) + Joined(T, b)
    decreases |b|
  {
    if b == [] {
      assert a + b == a;
    } else {
      var c := a + b;
      assert c[..|c| - 1] == a + b[..|b| - 1];
      JoinedAppend(T, a, b[..|b| - 1]);
    }
  }

  lemma {:induction false} JoinedSnoc<X>(T: X -> string, xs: seq<X>, x: X)
    ensures Joined(T, xs + [x]) == Joined(T, xs) + T(x)
  {
    var c := xs + [x];
    assert c[..|c| - 1] == xs;
  }

  /** The text of the first `i + 1` elements ends with the text of element `i`. */
  lemma {:induction false} JoinedPrefix<X>(T: X -> string, xs: seq<X>, i: nat)
    requires i < |xs|
    ensures Joined(T, xs[..i + 1]) == Joined(T, xs[..i]) + T(xs[i])
  {
    assert xs[..i + 1] == xs[..i] + [xs[i]];
    JoinedSnoc(T, xs[..i], xs[i]);
  }

  lemma {:induction false} JoinedSuffix<X>(T: X -> string, xs: seq<X>, i: nat)
    requires i <= |xs|
    ensures Joined(T, xs) == Joined(T, xs[..i]) + Joined(T, xs[i..])
  {
    assert xs == xs[..i] + xs[i..];
    JoinedAppend(T, xs[..i], xs[i..]);
  }

  /**
   * Where the text of a list is written, the text of element `i` stands after
   * the text of the elements before it.
   */
  lemma {:induction false} JoinedAt<X>(T: X -> string, s: string, off: nat, xs: seq<X>, i: nat)
    requires i < |xs| && At(s, off, Joined(T, xs))
    ensures var p := off + |Joined(T, xs[..i])|;
      && At(s, p, T(xs[i]))
      && off + |Joined(T, xs[..i + 1])| == p + |T(xs[i])|
  {
    JoinedPrefix(T, xs, i);
    JoinedSuffix(T, xs, i + 1);
    AtConcat(s, off, Joined(T, xs[..i + 1]), Joined(T, xs[i + 1..]));
    AtConcat(s, off, Joined(T, xs[..i]), T(xs[i]));
  }

  /**
   * A walk through the positions `P(i)`, `P(i + 1)`, ..., where `F(p, acc)` is
   * what remains to be done at `p` having gathered `acc`, and each hop from
   * `P(j)` to `P(j + 1)` gathers `xs[j]`: the walk from `P(i)` to `P(|xs|)`
   * gathers the rest of `xs`.
   */
  lemma {:induction false} Hops<X, R>(F: (nat, seq<X>) -> R, P: nat -> nat, xs: seq<X>, acc: seq<X>, i: nat)
    requires i <= |xs|
    requires forall j, acc': seq<X> | i <= j < |xs| :: F(P(j), acc') == F(P(j + 1), acc' + [xs[j]])
    ensures F(P(i), acc) == F(P(|xs|), acc + xs[i..])
    decreases |xs| - i
  {
    if i == |xs| {
      assert acc + xs[i..] == acc;
    } else {
      Hops(F, P, xs, acc + [xs[i]], i + 1);
      assert acc + [xs[i]] + xs[i + 1..] == acc + xs[i..];
    }
  }
}
