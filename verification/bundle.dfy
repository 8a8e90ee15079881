/** The build's `generateBundle` hook: compute the stylesheet once and, in
    every emitted asset whose source is a string, replace the first
    occurrence of the placeholder with it. */
module Bundle {
  import opened Base
  import opened Text
  import opened Substitution
  import opened Config
  import opened Style
  import opened Engine

  /** An emitted file's source: a string, or binary data. */
  datatype Source = Str(text: string) | Binary(bytes: seq<bv8>)

  /** An output chunk; `kind` is its `type` field (`"asset"`, `"chunk"`). */
  datatype Chunk = Chunk(fileName: string, kind: string, source: Source)

  /** Whether the hook rewrites the chunk at all. */
  predicate IsTextAsset(ch: Chunk) {
    ch.kind == "asset" && ch.source.Str?
  }

  /** The hook as written: `chunk.source.replace(BUILD_PLACEHOLDER, css)`,
      so `$` patterns in the stylesheet are expanded. */
  function GenerateBundle(env: Env, st: State, bundle: seq<Chunk>): (r: seq<Chunk>)
    ensures |r| == |bundle|
    ensures forall i :: 0 <= i < |r| ==>
              r[i].fileName == bundle[i].fileName && r[i].kind == bundle[i].kind
    ensures forall i :: 0 <= i < |r| && !IsTextAsset(bundle[i]) ==> r[i] == bundle[i]
    ensures forall i :: 0 <= i < |r| && IsTextAsset(bundle[i]) ==>
              (IndexOf(bundle[i].source.text, BUILD_PLACEHOLDER).None? ==> r[i] == bundle[i])
    ensures forall i :: 0 <= i < |r| && IsTextAsset(bundle[i]) ==>
              var s := bundle[i].source.text;
              && r[i].source.Str?
              && (IndexOf(s, BUILD_PLACEHOLDER).Some? ==>
                    var p := IndexOf(s, BUILD_PLACEHOLDER).value;
                    var before := s[..p];
                    var after := s[p + |BUILD_PLACEHOLDER|..];
                    var out := r[i].source.text;
                    && |out| >= |before| + |after|
                    && out[..p] == before
                    && out[|out| - |after|..] == after
                    && out == before + Expand(MakeStyle(env, st.entry), BUILD_PLACEHOLDER, before, after) + after)
    ensures '$' !in MakeStyle(env, st.entry) ==>
              r == GenerateBundleLiteral(env, st, bundle)
  {
    var css := MakeStyle(env, st.entry);
    seq(|bundle|, i requires 0 <= i < |bundle| =>
      if IsTextAsset(bundle[i]) then
        bundle[i].(source := Str(ReplaceFirst(bundle[i].source.text, BUILD_PLACEHOLDER, css)))
      else bundle[i])
  }

  /** The hook as intended: the stylesheet inserted literally in place of
      the first placeholder of every string asset; nothing else changes. */
  function GenerateBundleLiteral(env: Env, st: State, bundle: seq<Chunk>): (r: seq<Chunk>)
    ensures |r| == |bundle|
    ensures forall i :: 0 <= i < |r| ==>
              r[i].fileName == bundle[i].fileName && r[i].kind == bundle[i].kind
    ensures forall i :: 0 <= i < |r| && !IsTextAsset(bundle[i]) ==> r[i] == bundle[i]
    ensures forall i :: 0 <= i < |r| && IsTextAsset(bundle[i]) ==>
              var s := bundle[i].source.text;
              && r[i].source.Str?
              && (IndexOf(s, BUILD_PLACEHOLDER).None? ==> r[i] == bundle[i])
              && (IndexOf(s, BUILD_PLACEHOLDER).Some? ==>
                    var p := IndexOf(s, BUILD_PLACEHOLDER).value;
                    var css := MakeStyle(env, st.entry);
                    && |r[i].source.text| == |s| - |BUILD_PLACEHOLDER| + |css|
                    && r[i].source.text[..p] == s[..p]
                    && r[i].source.text[p..p + |css|] == css
                    && r[i].source.text[p + |css|..] == s[p + |BUILD_PLACEHOLDER|..])
  {
    var css := MakeStyle(env, st.entry);
    seq(|bundle|, i requires 0 <= i < |bundle| =>
      if IsTextAsset(bundle[i]) then
        bundle[i].(source := Str(ReplaceFirstLiteral(bundle[i].source.text, BUILD_PLACEHOLDER, css)))
      else bundle[i])
  }

  /** An asset holding the placeholder after text free of it comes out as
      that text, the stylesheet, and the rest unchanged. */
  lemma SinglePlaceholder(env: Env, st: State, name: string, before: string, after: string)
    requires forall j :: 0 <= j ==> !OccursAt(before, BUILD_PLACEHOLDER, j)
    ensures GenerateBundleLiteral(env, st, [Chunk(name, "asset", Str(before + BUILD_PLACEHOLDER + after))])
            == [Chunk(name, "asset", Str(before + MakeStyle(env, st.entry) + after))]
  {
    var s := before + BUILD_PLACEHOLDER + after;
    var p := |before|;
    assert OccursAt(s, BUILD_PLACEHOLDER, p) by {
      assert s[p..p + |BUILD_PLACEHOLDER|] == BUILD_PLACEHOLDER;
    }
    forall j | 0 <= j < p
      ensures !OccursAt(s, BUILD_PLACEHOLDER, j)
    {
      NoEarlyPlaceholder(before, after, j);
    }
    assert IndexOf(s, BUILD_PLACEHOLDER) == Some(p);
    assert s[..p] == before;
    assert s[p + |BUILD_PLACEHOLDER|..] == after;
  }

  /** No occurrence starts inside `before`: one wholly inside would be an
      occurrence in `before`, and one running into the placeholder would
      need a second `#`, which the placeholder does not have. */
  lemma NoEarlyPlaceholder(before: string, after: string, j: int)
    requires forall k :: 0 <= k ==> !OccursAt(before, BUILD_PLACEHOLDER, k)
    requires 0 <= j < |before|
    ensures !OccursAt(before + BUILD_PLACEHOLDER + after, BUILD_PLACEHOLDER, j)
  {
    var s := before + BUILD_PLACEHOLDER + after;
    var n := |BUILD_PLACEHOLDER|;
    assert BUILD_PLACEHOLDER == "#--wave-css--{top:1}";
    if j + n <= |before| {
      assert before[j..j + n] == s[j..j + n];
      assert !OccursAt(before, BUILD_PLACEHOLDER, j);
    } else if j + n <= |s| {
      var d := |before| - j;
      assert 0 < d < n;
      assert s[j..j + n][d] == s[|before|] == '#';
      assert forall m :: 0 < m < n ==> BUILD_PLACEHOLDER[m] != '#';
      assert s[j..j + n] != BUILD_PLACEHOLDER;
    }
  }
}
