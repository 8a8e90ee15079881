/** String operations the plugin borrows from JavaScript: the first-match
    search behind `String.prototype.indexOf`/`replace`, and
    `Array.prototype.join` together with its inverse, splitting at a
    separator character. */
module Text {
  import opened Base

  /** `pat` occurs in `s` starting at index `i`. */
  predicate OccursAt(s: string, pat: string, i: int) {
    0 <= i && i + |pat| <= |s| && s[i..i + |pat|] == pat
  }

  /** The least index at or after `from` where `pat` occurs, if any. */
  function IndexOfFrom(s: string, pat: string, from: nat): (r: Option<nat>)
    ensures r.Some? ==> from <= r.value && OccursAt(s, pat, r.value)
    ensures r.Some? ==> forall j :: from <= j < r.value ==> !OccursAt(s, pat, j)
    ensures r.None? ==> forall j :: from <= j ==> !OccursAt(s, pat, j)
    decreases |s| - from
  {
    if from + |pat| > |s| then None
    else if s[from..from + |pat|] == pat then Some(from)
    else
      assert |pat| > 0;
      IndexOfFrom(s, pat, from + 1)
  }

  /** The first occurrence of `pat` in `s` (StringIndexOf from position 0,
      as `String.prototype.replace` uses it for a string pattern). */
  function IndexOf(s: string, pat: string): (r: Option<nat>)
    ensures r.Some? ==> OccursAt(s, pat, r.value)
    ensures r.Some? ==> forall j :: 0 <= j < r.value ==> !OccursAt(s, pat, j)
    ensures r.None? <==> forall j :: 0 <= j ==> !OccursAt(s, pat, j)
  {
    IndexOfFrom(s, pat, 0)
  }

  /** `parts.join(sep)`: the parts with one `sep` between neighbours. */
  function Join(parts: seq<string>, sep: string): (r: string)
    ensures |parts| == 0 ==> r == ""
    ensures |parts| == 1 ==> r == parts[0]
    ensures |parts| >= 1 ==> |r| == TotalLength(parts) + (|parts| - 1) * |sep|
  {
    if |parts| == 0 then ""
    else if |parts| == 1 then parts[0]
    else
      var n := |parts|;
      assert (n - 1) * |sep| == |sep| + (n - 2) * |sep|;
      parts[0] + sep + Join(parts[1..], sep)
  }

  /** The summed length of the parts. */
  function TotalLength(parts: seq<string>): nat {
    if |parts| == 0 then 0 else |parts[0]| + TotalLength(parts[1..])
  }

  /** Joining is associative at the right end: the last part is attached
      after the join of the others and one more separator. */
  lemma {:induction false} JoinSnoc(parts: seq<string>, sep: string)
    requires |parts| >= 2
    ensures Join(parts, sep) == Join(parts[..|parts| - 1], sep) + sep + parts[|parts| - 1]
  {
    if |parts| == 2 {
      assert parts[..1] == [parts[0]];
      assert parts[1..] == [parts[1]];
    } else {
      JoinSnoc(parts[1..], sep);
      JoinSnocStep(parts, sep);
    }
  }

  /** The inductive step of `JoinSnoc`: the law for the tail gives it for
      the whole list. */
  lemma JoinSnocStep(parts: seq<string>, sep: string)
    requires |parts| >= 3
    requires Join(parts[1..], sep) == Join(parts[1..][..|parts| - 2], sep) + sep + parts[|parts| - 1]
    ensures Join(parts, sep) == Join(parts[..|parts| - 1], sep) + sep + parts[|parts| - 1]
  {
    var n := |parts|;
    var init := parts[..n - 1];
    assert parts[1..][..n - 2] == init[1..];
    var mid := Join(init[1..], sep);
    assert Join(init, sep) == parts[0] + sep + mid;
    calc {
      Join(parts, sep);
      parts[0] + sep + Join(parts[1..], sep);
      parts[0] + sep + (mid + sep + parts[n - 1]);
      (parts[0] + sep + mid) + sep + parts[n - 1];
    }
  }

  /** `s.split(c)` for a one-character separator: the maximal runs of `s`
      free of `c`, one more than there are `c`s in `s`. */
  function SplitOn(s: string, c: char): (parts: seq<string>)
    ensures |parts| >= 1
    ensures forall i :: 0 <= i < |parts| ==> c !in parts[i]
  {
    if |s| == 0 then [""]
    else
      var rest := SplitOn(s[1..], c);
      if s[0] == c then [""] + rest
      else [[s[0]] + rest[0]] + rest[1..]
  }

  /** Joining the pieces of a split restores the original text. */
  lemma {:induction false} JoinSplit(s: string, c: char)
    ensures Join(SplitOn(s, c), [c]) == s
  {
    if |s| > 0 {
      var rest := SplitOn(s[1..], c);
      JoinSplit(s[1..], c);
      assert Join(rest, [c]) == s[1..];
      if s[0] == c {
        assert SplitOn(s, c) == [""] + rest;
        assert Join([""] + rest, [c]) == "" + [c] + Join(rest, [c]);
      } else {
        var parts := [[s[0]] + rest[0]] + rest[1..];
        assert SplitOn(s, c) == parts;
        if |rest| == 1 {
          assert Join(parts, [c]) == [s[0]] + rest[0];
        } else {
          assert parts[1..] == rest[1..];
          assert Join(parts, [c]) == [s[0]] + rest[0] + [c] + Join(rest[1..], [c]);
          assert Join(rest, [c]) == rest[0] + [c] + Join(rest[1..], [c]);
        }
      }
    }
  }

  /** Splitting a piece free of `c` that is followed by `c` peels it off. */
  lemma {:induction false} SplitOnPiece(p: string, c: char, rest: string)
    requires c !in p
    ensures SplitOn(p + [c] + rest, c) == [p] + SplitOn(rest, c)
  {
    if |p| == 0 {
      assert p + [c] + rest == [c] + rest;
      assert ([c] + rest)[1..] == rest;
    } else {
      var t := p + [c] + rest;
      assert t[0] == p[0] && t[0] != c;
      assert t[1..] == p[1..] + [c] + rest;
      SplitOnPiece(p[1..], c, rest);
      assert [p[0]] + p[1..] == p;
    }
  }

  /** A piece free of `c` splits into itself. */
  lemma {:induction false} SplitOnPlain(p: string, c: char)
    requires c !in p
    ensures SplitOn(p, c) == [p]
  {
    if |p| > 0 {
      SplitOnPlain(p[1..], c);
      assert [p[0]] + p[1..] == p;
    }
  }

  /** Splitting a join of at least one part, none containing the separator,
      gives back the parts. */
  lemma {:induction false} SplitJoin(parts: seq<string>, c: char)
    requires |parts| >= 1
    requires forall i :: 0 <= i < |parts| ==> c !in parts[i]
    ensures SplitOn(Join(parts, [c]), c) == parts
  {
    if |parts| == 1 {
      SplitOnPlain(parts[0], c);
    } else {
      SplitJoin(parts[1..], c);
      SplitOnPiece(parts[0], c, Join(parts[1..], [c]));
      assert [parts[0]] + parts[1..] == parts;
    }
  }
}
