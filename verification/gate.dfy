/** The tracked-file gate `checkTargetFile`: strip the configured root when
    the id starts with it, then ask whether any include glob matches. */
module Gate {
  import opened Base
  import opened Config

  /** The id relative to `root` when it starts with `root`, else unchanged. */
  function StripRoot(root: string, id: string): (path: string)
    ensures StartsWith(id, root) ==> root + path == id
    ensures !StartsWith(id, root) ==> path == id
  {
    if StartsWith(id, root) then id[|root|..] else id
  }

  /** `globs.some((glob) => isMatch(path, glob))`. */
  function AnyMatch(globs: seq<string>, path: string, isMatch: (string, string) -> bool): (r: bool)
    ensures r <==> exists i :: 0 <= i < |globs| && isMatch(path, globs[i])
  {
    if |globs| == 0 then false
    else if isMatch(path, globs[0]) then true
    else
      assert forall i :: 0 < i < |globs| ==> globs[1..][i - 1] == globs[i];
      AnyMatch(globs[1..], path, isMatch)
  }

  /** `checkTargetFile(id)` under the current `configRoot`. A missing
      include list counts as empty (`config.include ?? []`). */
  function IsTracked(env: Env, root: string, id: string): (r: bool)
    ensures r <==> exists i :: 0 <= i < |env.includeGlobs.GetOr([])|
                     && env.isMatch(StripRoot(root, id), env.includeGlobs.GetOr([])[i])
    ensures env.includeGlobs.None? ==> !r
  {
    AnyMatch(env.includeGlobs.GetOr([]), StripRoot(root, id), env.isMatch)
  }

  /** An id outside the root is matched as it is; an id under the root is
      matched on what follows the root; with no globs nothing is tracked. */
  lemma TrackedPath(env: Env, root: string, id: string, rest: string)
    ensures !StartsWith(id, root) ==>
              (IsTracked(env, root, id) <==> AnyMatch(env.includeGlobs.GetOr([]), id, env.isMatch))
    ensures IsTracked(env, root, root + rest) <==> AnyMatch(env.includeGlobs.GetOr([]), rest, env.isMatch)
    ensures env.includeGlobs.GetOr([]) == [] ==> !IsTracked(env, root, id)
  {
    assert (root + rest)[..|root|] == root;
    assert (root + rest)[|root|..] == rest;
  }

  /** With the caller's `include` key absent, the one default glob decides;
      with it present but `undefined`, nothing is tracked; a list given by
      the caller is used as it is. */
  lemma MergedIncludeGate(env: Env, own: Option<Option<seq<string>>>, root: string, id: string)
    requires env.includeGlobs == MergeInclude(own)
    ensures own.None? ==>
              (IsTracked(env, root, id) <==> env.isMatch(StripRoot(root, id), DEFAULT_INCLUDE[0]))
    ensures own == Some(None) ==> !IsTracked(env, root, id)
    ensures own.Some? && own.value.Some? ==>
              (IsTracked(env, root, id) <==> AnyMatch(own.value.value, StripRoot(root, id), env.isMatch))
  {
  }
}
