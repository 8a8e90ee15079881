/** The plugin's constants and its merged configuration. The collaborators
    that live in modules outside this model (the glob matcher, the atom
    parser and the CSS generator built from the rule tables) are carried
    as uninterpreted functions inside the configuration. */
module Config {
  import opened Base

  /** The bare name under which sources import the stylesheet. */
  const WAVE_CSS: string := "@wave.css"

  /** The rooted path: the one canonical id of the virtual module. */
  const VIRTUAL_PATH: string := "/" + WAVE_CSS

  /** The token a build emits in place of the stylesheet. */
  const BUILD_PLACEHOLDER: string := "#--wave-css--{top:1}"

  /** Quiescence window of the debounced invalidation, in milliseconds. */
  const DEBOUNCE_TIMEOUT: int := 250

  /** The update type every invalidation message carries. */
  const UPDATE_TYPE: string := "js-update"

  /** The include globs used when the caller supplies none. */
  const DEFAULT_INCLUDE: seq<string> := ["**/*.{svelte,tsx,jsx,vue,mdx,svx,html}"]

  /** The merged configuration together with the external collaborators.
      `includeGlobs` (the `include` option) may be `undefined` after merging (`None`).
      `isMatch(path, glob)` is the glob matcher; `parseAtoms` extracts the
      atom list of a module's code; `generateCss` is the rule compiler that
      `createGenerateCss(rules, prefixRules)` returns. */
  datatype Env = Env(
    includeGlobs: Option<seq<string>>,
    reset: string,
    isMatch: (string, string) -> bool,
    parseAtoms: string -> seq<string>,
    generateCss: seq<string> -> seq<string>)

  /** The `include` value after `{ ...CONFIG, ...config }`. `own` is the
      caller's own `include` property: `None` when the key is absent,
      `Some(None)` when it is present but `undefined`. A present key wins
      even when it holds `undefined`; an absent one leaves the default. */
  function MergeInclude(own: Option<Option<seq<string>>>): (r: Option<seq<string>>)
    ensures own.None? ==> r == Some(DEFAULT_INCLUDE)
    ensures own.Some? ==> r == own.value
  {
    match own
    case None => Some(DEFAULT_INCLUDE)
    case Some(given) => given
  }
}
