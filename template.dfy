/**
 * Template literals (`...${a}...${b}...` in TypeScript, f-strings in Python):
 * fixed literal pieces with the interpolated values between them.
 */
module Template {
  import Strings

  /** `lits[0] + vals[0] + lits[1] + ... + vals[n-1] + lits[n]`. */
  function Interpolate(lits: seq<string>, vals: seq<string>): (r: string)
    requires |lits| == |vals| + 1
    ensures |r| == TotalLength(lits) + TotalLength(vals)
    decreases |vals|
  {
    if vals == [] then lits[0]
    else lits[0] + vals[0] + Interpolate(lits[1..], vals[1..])
  }

  /** The summed lengths of the strings. */
  function TotalLength(ss: seq<string>): nat
  {
    if ss == [] then 0 else |ss[0]| + TotalLength(ss[1..])
  }

  /** One value between two literal pieces. */
  lemma InterpolatePair(a: string, v: string, b: string)
    ensures Interpolate([a, b], [v]) == a + v + b
  {
    assert [a, b][1..] == [b];
    assert [v][1..] == [];
  }

  /**
   * Where each value starts in `Interpolate(lits, vals)` placed after a prefix
   * of length `base`: after all the literal pieces and values before it.
   */
  function Offsets(lits: seq<string>, vals: seq<string>, base: nat): (r: seq<nat>)
    requires |lits| == |vals| + 1
    ensures |r| == |vals|
    decreases |vals|
  {
    if vals == [] then []
    else [base + |lits[0]|] + Offsets(lits[1..], vals[1..], base + |lits[0]| + |vals[0]|)
  }

  /** `v` occurs verbatim in `p` starting at `i`. */
  predicate Occurs(p: string, v: string, i: nat)
  {
    i + |v| <= |p| && p[i..i + |v|] == v
  }

  /**
   * Each value occurs verbatim in `p` at its offset, and each ends before the
   * next begins: the values are embedded whole, without overlapping, in order.
   */
  predicate EmbeddedAt(p: string, vals: seq<string>, offs: seq<nat>)
  {
    && |offs| == |vals|
    && (forall k :: 0 <= k < |vals| ==> Occurs(p, vals[k], offs[k]))
    && (forall k :: 0 < k < |vals| ==> offs[k - 1] + |vals[k - 1]| <= offs[k])
  }

  /** The values occur verbatim and in order somewhere in `p`. */
  ghost predicate EmbedsInOrder(p: string, vals: seq<string>)
  {
    exists offs :: EmbeddedAt(p, vals, offs)
  }

  /**
   * An interpolated string begins with its first literal piece and holds every
   * value verbatim, in order, at the offsets the literal pieces determine.
   */
  lemma InterpolateEmbeds(lits: seq<string>, vals: seq<string>)
    requires |lits| == |vals| + 1
    ensures |Interpolate(lits, vals)| >= |lits[0]|
    ensures Interpolate(lits, vals)[..|lits[0]|] == lits[0]
    ensures EmbeddedAt(Interpolate(lits, vals), vals, Offsets(lits, vals, 0))
    ensures EmbedsInOrder(Interpolate(lits, vals), vals)
  {
    EmbedsAfter([], lits, vals);
    assert [] + Interpolate(lits, vals) == Interpolate(lits, vals);
  }

  lemma {:induction false} EmbedsAfter(pre: string, lits: seq<string>, vals: seq<string>)
    requires |lits| == |vals| + 1
    ensures EmbeddedAt(pre + Interpolate(lits, vals), vals, Offsets(lits, vals, |pre|))
    ensures Offsets(lits, vals, |pre|) != [] ==> |pre| + |lits[0]| <= Offsets(lits, vals, |pre|)[0]
    ensures |pre + Interpolate(lits, vals)| >= |pre| + |lits[0]|
    decreases |vals|
  {
    if vals != [] {
      var rest := Interpolate(lits[1..], vals[1..]);
      var pre' := pre + lits[0] + vals[0];
      assert pre + Interpolate(lits, vals) == pre' + rest;
      EmbedsAfter(pre', lits[1..], vals[1..]);
      var p := pre' + rest;
      var offs := Offsets(lits, vals, |pre|);
      var offs' := Offsets(lits[1..], vals[1..], |pre'|);
      assert offs == [|pre| + |lits[0]|] + offs';
      assert p[|pre| + |lits[0]|..|pre| + |lits[0]| + |vals[0]|] == vals[0];
      forall k | 0 <= k < |vals| ensures Occurs(p, vals[k], offs[k]) {
        if k > 0 { assert offs[k] == offs'[k - 1] && vals[k] == vals[1..][k - 1]; }
      }
      forall k | 0 < k < |vals| ensures offs[k - 1] + |vals[k - 1]| <= offs[k] {
        if k > 1 { assert offs[k] == offs'[k - 1] && offs[k - 1] == offs'[k - 2] && vals[k - 1] == vals[1..][k - 2]; }
      }
    }
  }

  /** `n` copies of the literal piece `s`. */
  function Repeat(n: nat, s: string): (r: seq<string>)
    ensures |r| == n && forall k :: 0 <= k < n ==> r[k] == s
  {
    seq(n, k => s)
  }

  /**
   * A joined list is an interpolation whose inner literal pieces are the
   * separator: interpolating `parts` between `pre`, separators and `mid`, then
   * the rest, is `pre`, the join, and the rest interpolated after `mid`.
   */
  lemma {:induction false} InterpolateJoin(pre: string, sep: string, parts: seq<string>, mid: string,
                                           lits: seq<string>, vals: seq<string>)
    requires |parts| >= 1 && |lits| == |vals|
    ensures Interpolate([pre] + Repeat(|parts| - 1, sep) + [mid] + lits, parts + vals)
         == pre + Strings.Join(sep, parts) + Interpolate([mid] + lits, vals)
    decreases |parts|
  {
    var l := [pre] + Repeat(|parts| - 1, sep) + [mid] + lits;
    var v := parts + vals;
    assert l[0] == pre && v[0] == parts[0];
    if |parts| == 1 {
      assert l[1..] == [mid] + lits;
      assert v[1..] == vals;
    } else {
      assert l[1..] == [sep] + Repeat(|parts| - 2, sep) + [mid] + lits;
      assert v[1..] == parts[1..] + vals;
      InterpolateJoin(sep, sep, parts[1..], mid, lits, vals);
    }
  }
}
