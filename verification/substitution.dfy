/** `String.prototype.replace` with a string pattern, as section 22.1.3.19
    of ECMA-262 (2024) defines it: only the first occurrence of the pattern
    is replaced, and the replacement string is still read as a template by
    GetSubstitution (section 22.1.3.19.1), so `$$`, `$&`, `` $` `` and `$'`
    in it are expanded. */
module Substitution {
  import opened Base
  import opened Text

  /** GetSubstitution for a string pattern (no captures, no named groups):
      `$$` gives `$`, `$&` the matched text, `` $` `` the text before the
      match, `$'` the text after it; any other `$` stands for itself. */
  function Expand(template: string, matched: string, before: string, after: string): (r: string)
    ensures '$' !in template ==> r == template
  {
    if |template| == 0 then ""
    else if template[0] == '$' && |template| >= 2 && template[1] in "$&`'" then
      var piece :=
        if template[1] == '$' then "$"
        else if template[1] == '&' then matched
        else if template[1] == '`' then before
        else after;
      piece + Expand(template[2..], matched, before, after)
    else
      [template[0]] + Expand(template[1..], matched, before, after)
  }

  /** `s.replace(pat, rep)` exactly as JavaScript evaluates it. */
  function ReplaceFirst(s: string, pat: string, rep: string): (r: string)
    ensures IndexOf(s, pat).None? ==> r == s
    ensures IndexOf(s, pat).Some? ==>
              var p := IndexOf(s, pat).value;
              |r| >= p + |s| - (p + |pat|)
              && r[..p] == s[..p]
              && r[|r| - (|s| - (p + |pat|))..] == s[p + |pat|..]
    ensures '$' !in rep ==> r == ReplaceFirstLiteral(s, pat, rep)
  {
    match IndexOf(s, pat)
    case None => s
    case Some(p) =>
      var before := s[..p];
      var after := s[p + |pat|..];
      before + Expand(rep, pat, before, after) + after
  }

  /** The first occurrence of `pat` replaced by `rep` taken literally. */
  function ReplaceFirstLiteral(s: string, pat: string, rep: string): (r: string)
    ensures IndexOf(s, pat).None? ==> r == s
    ensures IndexOf(s, pat).Some? ==>
              var p := IndexOf(s, pat).value;
              && |r| == |s| - |pat| + |rep|
              && r[..p] == s[..p]
              && r[p..p + |rep|] == rep
              && r[p + |rep|..] == s[p + |pat|..]
  {
    match IndexOf(s, pat)
    case None => s
    case Some(p) => s[..p] + rep + s[p + |pat|..]
  }

  /** Only the first occurrence is replaced: the text before it holds no
      occurrence, and every later, non-overlapping occurrence survives,
      shifted by the change in length. */
  lemma LaterOccurrencesKept(s: string, pat: string, rep: string, j: int)
    requires IndexOf(s, pat).Some?
    requires IndexOf(s, pat).value + |pat| <= j
    requires OccursAt(s, pat, j)
    ensures OccursAt(ReplaceFirstLiteral(s, pat, rep), pat, j - |pat| + |rep|)
  {
    var p := IndexOf(s, pat).value;
    var r := ReplaceFirstLiteral(s, pat, rep);
    var k := j - |pat| + |rep|;
    assert r[k..k + |pat|] == r[p + |rep|..][j - p - |pat|..j - p];
    assert s[j..j + |pat|] == s[p + |pat|..][j - p - |pat|..j - p];
  }

  /** Nothing before the replaced spot is an occurrence of a non-empty
      pattern: the replacement really hit the first one. */
  lemma PrefixFree(s: string, pat: string, rep: string, j: int)
    requires |pat| > 0
    requires IndexOf(s, pat).Some?
    requires 0 <= j && j + |pat| <= IndexOf(s, pat).value
    ensures !OccursAt(ReplaceFirstLiteral(s, pat, rep), pat, j)
  {
    var p := IndexOf(s, pat).value;
    var r := ReplaceFirstLiteral(s, pat, rep);
    assert !OccursAt(s, pat, j);
    assert r[j..j + |pat|] == r[..p][j..j + |pat|] == s[..p][j..j + |pat|] == s[j..j + |pat|];
  }

  /** Text free of `$` passes through the template expansion unchanged. */
  lemma {:induction false} ExpandPlainPrefix(a: string, t: string, matched: string, before: string, after: string)
    requires '$' !in a
    ensures Expand(a + t, matched, before, after) == a + Expand(t, matched, before, after)
  {
    if |a| > 0 {
      var at := a + t;
      assert at[0] == a[0] && at[0] != '$';
      assert at[1..] == a[1..] + t;
      assert Expand(at, matched, before, after) == [a[0]] + Expand(a[1..] + t, matched, before, after);
      ExpandPlainPrefix(a[1..], t, matched, before, after);
      var rest := Expand(t, matched, before, after);
      assert [a[0]] + (a[1..] + rest) == ([a[0]] + a[1..]) + rest;
      assert [a[0]] + a[1..] == a;
    } else {
      assert a + t == t;
    }
  }

  /** A template `a + "$&" + b` with no other `$` expands to `a`, the
      matched text, then `b`. */
  lemma ExpandDollarAmpersand(a: string, b: string, matched: string, before: string, after: string)
    requires '$' !in a && '$' !in b
    ensures Expand(a + "$&" + b, matched, before, after) == a + matched + b
  {
    var t := "$&" + b;
    assert t[0] == '$' && t[1] == '&' && t[2..] == b;
    assert Expand(b, matched, before, after) == b;
    assert Expand(t, matched, before, after) == matched + b;
    assert a + "$&" + b == a + t;
    ExpandPlainPrefix(a, t, matched, before, after);
  }

  /** A piece put between `w + x` and `y + z` occurs right after `x`. */
  lemma OccursInMiddle(w: string, x: string, m: string, y: string, z: string)
    ensures OccursAt(w + (x + m + y) + z, m, |w| + |x|)
  {
    var t := w + (x + m + y) + z;
    forall k | 0 <= k < |m|
      ensures t[|w| + |x| + k] == m[k]
    {
      assert t[|w| + |x| + k] == (x + m + y)[|x| + k];
    }
    assert t[|w| + |x|..|w| + |x| + |m|] == m;
  }

  /** With a match, `replace` is the text before it, the expanded
      template, and the text after it. */
  lemma ReplaceFirstSplits(s: string, pat: string, rep: string)
    requires IndexOf(s, pat).Some?
    ensures var p := IndexOf(s, pat).value;
            ReplaceFirst(s, pat, rep)
            == s[..p] + Expand(rep, pat, s[..p], s[p + |pat|..]) + s[p + |pat|..]
  {
  }

  /** As written, a stylesheet `a + "$&" + b` (with no other `$`) does not
      remove the placeholder: `$&` re-inserts the matched text, so the
      pattern still occurs in the output, right after `a`. */
  lemma DollarAmpersandKeepsPattern(s: string, pat: string, a: string, b: string)
    requires IndexOf(s, pat).Some?
    requires '$' !in a && '$' !in b
    ensures OccursAt(ReplaceFirst(s, pat, a + "$&" + b), pat, IndexOf(s, pat).value + |a|)
  {
    var p := IndexOf(s, pat).value;
    ReplaceFirstSplits(s, pat, a + "$&" + b);
    DollarAmpersandAround(s[..p], s[p + |pat|..], pat, a, b);
  }

  /** The core of `DollarAmpersandKeepsPattern`, for any text around the
      match. */
  lemma DollarAmpersandAround(before: string, after: string, pat: string, a: string, b: string)
    requires '$' !in a && '$' !in b
    ensures OccursAt(before + Expand(a + "$&" + b, pat, before, after) + after, pat, |before| + |a|)
  {
    ExpandDollarAmpersand(a, b, pat, before, after);
    OccursInMiddle(before, a, pat, b, after);
  }
}
