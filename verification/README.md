# wave-css Vite plugin: a Dafny model of its engine

`waveCSS(config)` returns two Vite plugin objects, `@wave.css:dev` (serve) and
`@wave.css:build`, that share one closure. Together they keep a per-file cache
of the utility-class atoms found in every tracked source module, aggregate the
cache into one deduplicated stylesheet, and expose it as the virtual module
`/@wave.css`. In dev the module is served live and a debounced invalidation
pushes `js-update` messages to every server whose module graph holds it. In a
build the module loads as a placeholder token, which `generateBundle` later
replaces with the finished stylesheet.

The model is one immutable state record (`Engine.State`) plus one pure
transition function per hook:

- `base.dfy` (`Base`): `Option`, which stands for `undefined`, plus small sequence predicates.
- `text.dfy` (`Text`): first-occurrence search, `join`, and its inverse, `split`.
- `dedup.dfy` (`Dedup`): `[...new Set(xs)]`.
- `cache.dfy` (`AtomCache`): the `entry` object, as slots in property order.
- `config.dfy` (`Config`): constants and the merged configuration with its external collaborators.
- `gate.dfy` (`Gate`): `checkTargetFile`.
- `style.dfy` (`Style`): `makeStyle`.
- `substitution.dfy` (`Substitution`): `String.prototype.replace` with a string pattern, as defined in section 22.1.3.19 of ECMA-262 (2024).
- `engine.dfy` (`Engine`): the state, `invalidate`, the debounce slot, and the hooks `configureServer`, middleware, `resolveId`, `load`, `transform` and `handleHotUpdate`.
- `bundle.dfy` (`Bundle`): `generateBundle`.
- `timeline.dfy` (`Timeline`): sequences of host events. It covers the sticky hot-update flag and debounce coalescing.

The glob matcher (`micromatch.isMatch`), `parseAtoms`, the CSS generator built
by `createGenerateCss(rules, prefixRules)` and the `reset` text come from
modules this model does not contain. They are uninterpreted function-typed
fields of `Config.Env`. Clocks, timers, servers and sockets are also
parameters:

- `Date.now()` is a `now` argument.
- `setTimeout`/`clearTimeout` become the optional deadline `timer`, which `Debounce` arms and `Tick` fires.
- Each server is reduced to a flag: whether its module graph holds `/@wave.css`.
- Every `invalidate` run appends one `Batch` to `log`. The batch lists the `ws.send` messages of that run.

The model follows the code as written:

- The debounce is armed only by the middleware. Dev `transform` and `handleHotUpdate` do not arm it, and `handleHotUpdate` invalidates at once.
- The update type is `js-update`.
- `isHMR` is never reset.
- Build `transform` does not exclude `/@wave.css`.
- Cache entries of deleted files are never evicted, so their atoms stay in the stylesheet for the life of the process. The model keeps this behaviour.

## Model

| member | source | states |
|---|---|---|
| Gate.StripRoot | packages/vite/src/vite/vite-plugin-wave-css.ts:45-47 | when the id starts with the root, root plus the result is the id; otherwise the id is kept unchanged |
| Gate.AnyMatch | packages/vite/src/vite/vite-plugin-wave-css.ts:48 | true exactly when some glob of the list matches the path |
| Gate.IsTracked | packages/vite/src/vite/vite-plugin-wave-css.ts:44-49 | an id is tracked iff some include glob matches it after root stripping; an `undefined` include list tracks nothing |
| Config.MergeInclude | packages/vite/src/vite/vite-plugin-wave-css.ts:23-32 | after the options merge, `include` is the default glob list when the caller's options lack the key, and the caller's value, `undefined` included, when they have it |
| Gate.MergedIncludeGate | packages/vite/src/vite/vite-plugin-wave-css.ts:44-49 | with the key absent the one default glob decides what is tracked; with it present but `undefined` nothing is tracked; a given list is used as it is |
| Gate.TrackedPath | packages/vite/src/vite/vite-plugin-wave-css.ts:44-49 | an id outside the root is matched unchanged; `root + rest` is matched on `rest`; an empty include list tracks nothing |
| AtomCache.Lookup | packages/vite/src/vite/vite-plugin-wave-css.ts:40 | `entry[id]` is undefined iff no slot has that file, otherwise it is the atoms of a slot for that file |
| AtomCache.LookupSlot | packages/vite/src/vite/vite-plugin-wave-css.ts:40 | with unique keys, looking up any slot's file finds that slot's atoms |
| AtomCache.Put | packages/vite/src/vite/vite-plugin-wave-css.ts:148 | a write replaces the slot of its key in place, or appends a new slot at the end; every other slot is untouched and keys stay unique |
| AtomCache.PutLookup | packages/vite/src/vite/vite-plugin-wave-css.ts:171 | after a write the key holds exactly the new list, with nothing merged from before, and every other key holds what it held |
| AtomCache.PutPut | packages/vite/src/vite/vite-plugin-wave-css.ts:155 | last write wins: writing b after a to one key equals writing b alone |
| AtomCache.PutIdempotent | packages/vite/src/vite/vite-plugin-wave-css.ts:148 | repeating the same write leaves the cache as one write left it |
| AtomCache.Flat | packages/vite/src/vite/vite-plugin-wave-css.ts:52 | an atom is in the flattened values iff some slot's list holds it |
| AtomCache.FlatByKey | packages/vite/src/vite/vite-plugin-wave-css.ts:52 | an atom is in the flattened values iff the cached list of some key holds it |
| Dedup.Unique | packages/vite/src/vite/vite-plugin-wave-css.ts:53 | the result has no repeats, has the same elements as the input, and lists them in order of first occurrence |
| Dedup.SpreadSet | packages/vite/src/vite/vite-plugin-wave-css.ts:53 | inserting the elements into a Set one by one and spreading it yields exactly `Unique` |
| Dedup.UniqueSnoc | packages/vite/src/vite/vite-plugin-wave-css.ts:53 | one more element is appended to the deduplicated list exactly when it has not occurred before |
| Dedup.DistinctCount | packages/vite/src/vite/vite-plugin-wave-css.ts:53 | in a list without repeats, every member occurs exactly once |
| Dedup.UniqueOfDistinct | packages/vite/src/vite/vite-plugin-wave-css.ts:53 | a list that has no repeats is its own deduplication |
| Text.IndexOf | packages/vite/src/vite/vite-plugin-wave-css.ts:185 | the result is an occurrence of the pattern with none before it, and it is undefined only when there is no occurrence at all |
| Text.Join | packages/vite/src/vite/vite-plugin-wave-css.ts:54 | no parts join to the empty string, one part to itself; otherwise the length is the parts' total length plus one separator between each pair of neighbours |
| Text.JoinSnoc | packages/vite/src/vite/vite-plugin-wave-css.ts:54 | the join of two or more parts is the join of all but the last, one separator, then the last part |
| Text.SplitOn | packages/vite/src/vite/vite-plugin-wave-css.ts:54 | splitting yields at least one piece, and no piece contains the separator |
| Text.JoinSplit | packages/vite/src/vite/vite-plugin-wave-css.ts:54 | joining the pieces of a split with the separator restores the text |
| Text.SplitJoin | packages/vite/src/vite/vite-plugin-wave-css.ts:54 | splitting a newline join of one or more newline-free rules gives the rules back |
| Style.AtomsFor | packages/vite/src/vite/vite-plugin-wave-css.ts:52-53 | the list passed to `generateCss` has no repeats, and its elements are exactly the atoms in the cached lists |
| Style.MakeStyle | packages/vite/src/vite/vite-plugin-wave-css.ts:51-55 | the stylesheet starts with the reset, and what follows is the newline join of the compiled rules; with no rules it is the reset alone; when there is at least one rule and none contains a newline, what follows the reset splits at newlines back into the rules |
| Style.AtomsByKey | packages/vite/src/vite/vite-plugin-wave-css.ts:52-53 | an atom is compiled iff some key's cached list holds it, and it occurs exactly once in the compiled list |
| Style.AtomsAfterWrite | packages/vite/src/vite/vite-plugin-wave-css.ts:51-55 | after `entry[id] = atoms`, an atom is compiled iff the new list or another key's list holds it, so the old list of `id` stops contributing |
| Style.RepeatedWriteSameStyle | packages/vite/src/vite/vite-plugin-wave-css.ts:170-172 | writing the same atoms for a file twice leaves the stylesheet as one write did |
| Style.TwoFileScenario | packages/vite/src/vite/vite-plugin-wave-css.ts:51-55 | `a.html` with `flex, p-4` plus `b.html` with `p-4, text-red` compile `flex, p-4, text-red`, each once |
| Engine.Init | packages/vite/src/vite/vite-plugin-wave-css.ts:34-40 | a fresh plugin is not in hot-update mode, has no pending invalidation, an empty root, no servers, no batches, no key cached, and the creation time as its timestamp |
| Engine.JsUpdate | packages/vite/src/vite/vite-plugin-wave-css.ts:68-78 | the message is an `update` with one entry, whose path and accepted path are both `/@wave.css`, whose type is `js-update` and whose timestamp is the given one |
| Engine.Notices | packages/vite/src/vite/vite-plugin-wave-css.ts:60-79 | one message per server whose graph holds `/@wave.css`, in server order, none for the others; each message is an `update` for path and acceptedPath `/@wave.css` with type `js-update` and the given timestamp |
| Engine.Invalidate | packages/vite/src/vite/vite-plugin-wave-css.ts:57-80 | a run adds one batch at the current time, holding exactly the messages `Notices` gives for the current servers and the state's `timestamp`, and changes nothing else |
| Engine.Debounce | packages/vite/src/vite/vite-plugin-wave-css.ts:82-86 | re-arming drops any pending deadline for one 250 ms after now, and changes nothing else |
| Engine.Tick | packages/vite/src/vite/vite-plugin-wave-css.ts:85 | before the deadline, or with nothing pending, nothing happens; at or after the deadline one batch for the current servers and timestamp is logged, the slot empties, and nothing else changes |
| Engine.ConfigureServer | packages/vite/src/vite/vite-plugin-wave-css.ts:94-98 | the gate's root becomes the server root plus `/`, and the server is appended after the known ones |
| Engine.Middleware | packages/vite/src/vite/vite-plugin-wave-css.ts:99-104 | a request arms the debounce iff no hot update has been seen and its url is non-empty and tracked; otherwise the state is unchanged |
| Engine.ResolveId | packages/vite/src/vite/vite-plugin-wave-css.ts:135-136 | resolves iff the id is `@wave.css` or `/@wave.css`, always to `/@wave.css`; the build object's copy at lines 165-166 is identical |
| Engine.DevLoad | packages/vite/src/vite/vite-plugin-wave-css.ts:138-142 | answers only for `/@wave.css`, with the live stylesheet, which starts with the reset |
| Engine.BuildLoad | packages/vite/src/vite/vite-plugin-wave-css.ts:167 | answers only for `/@wave.css`, with exactly the placeholder |
| Engine.ResolveThenLoad | packages/vite/src/vite/vite-plugin-wave-css.ts:165-167 | both spellings load the live stylesheet in dev and the placeholder in a build once resolved; the bare spelling does not load unresolved |
| Engine.DevTransform | packages/vite/src/vite/vite-plugin-wave-css.ts:144-150 | returns the code with the state unchanged iff `isHMR` is set, the id is `/@wave.css`, or the id is untracked; otherwise it returns undefined, replaces that key's atoms, leaves other keys alone, sets the timestamp, and leaves the timer |
| Engine.HotUpdate | packages/vite/src/vite/vite-plugin-wave-css.ts:152-158 | an untracked file changes nothing; a tracked one sets `isHMR`, replaces its atoms, leaves other keys alone, sets the timestamp, and runs `invalidate` once, immediately, with the new timestamp; the timer, the root and the servers are left as they were |
| Engine.BuildTransform | packages/vite/src/vite/vite-plugin-wave-css.ts:169-174 | a tracked id, `/@wave.css` included, has its atoms replaced with other keys untouched; an untracked one changes nothing |
| Engine.NoticeCount | packages/vite/src/vite/vite-plugin-wave-css.ts:60-79 | one `invalidate` sends exactly as many messages as there are servers whose graph holds the virtual module |
| Engine.TransformsDivergeOnVirtualPath | packages/vite/src/vite/vite-plugin-wave-css.ts:144-150 | on `/@wave.css` the dev transform passes the code through untouched, while the build transform (lines 169-174) records its atoms whenever the glob gate admits the id |
| Engine.TransformsIdempotent | packages/vite/src/vite/vite-plugin-wave-css.ts:144-174 | repeating either transform with the same code and id leaves the state the first one left |
| Substitution.Expand | packages/vite/src/vite/vite-plugin-wave-css.ts:185 | a replacement string without `$` is inserted verbatim |
| Substitution.ReplaceFirst | packages/vite/src/vite/vite-plugin-wave-css.ts:185 | without a match the text is unchanged; otherwise the text before the first match and the text after it are kept; with no `$` in the replacement it equals the literal replacement |
| Substitution.ReplaceFirstLiteral | packages/vite/src/vite/vite-plugin-wave-css.ts:185 | without a match the text is unchanged; otherwise the result is the prefix, then the replacement verbatim, then the suffix after the first match |
| Substitution.LaterOccurrencesKept | packages/vite/src/vite/vite-plugin-wave-css.ts:185 | every later occurrence that starts after the first match ends survives, shifted by the change in length |
| Substitution.PrefixFree | packages/vite/src/vite/vite-plugin-wave-css.ts:185 | no occurrence of a non-empty pattern lies before the replaced one |
| Substitution.DollarAmpersandKeepsPattern | packages/vite/src/vite/vite-plugin-wave-css.ts:185 | as written, a stylesheet `a + "$&" + b` with no other `$` does not remove the placeholder: it occurs again in the output right after `a` |
| Bundle.GenerateBundle | packages/vite/src/vite/vite-plugin-wave-css.ts:178-188 | names and types are kept; only `asset` chunks with string sources change, and they stay strings; those without the placeholder do not change; in the others the text before and after the first placeholder is kept and the placeholder becomes the stylesheet read as a GetSubstitution template; with no `$` in the stylesheet it equals the literal hook |
| Bundle.GenerateBundleLiteral | packages/vite/src/vite/vite-plugin-wave-css.ts:178-188 | only string assets change; in each, the first placeholder is replaced by the stylesheet with the text before and after it untouched, and assets without it are unchanged |
| Bundle.SinglePlaceholder | packages/vite/src/vite/vite-plugin-wave-css.ts:182-186 | under the corrected hook `GenerateBundleLiteral`, an asset `before + placeholder + after`, with no placeholder in `before`, becomes `before + stylesheet + after`; the hook as written at line 185 does the same only when the stylesheet has no `$` |
| Timeline.Step | packages/vite/src/vite/vite-plugin-wave-css.ts:88-158 | every hook keeps the cache keys unique and never clears `isHMR` |
| Timeline.Run | packages/vite/src/vite/vite-plugin-wave-css.ts:34 | over any sequence of events, keys stay unique and `isHMR` is never reset |
| Timeline.HotUpdateIsSticky | packages/vite/src/vite/vite-plugin-wave-css.ts:152-154 | after a hot update of a tracked file, `isHMR` holds whatever events follow |
| Timeline.NoPassiveWritesInHMR | packages/vite/src/vite/vite-plugin-wave-css.ts:100 | with `isHMR` set, events other than hot updates never write the cache, never move the timestamp, and never arm the timer |
| Timeline.QuietStep | packages/vite/src/vite/vite-plugin-wave-css.ts:94-150 | outside hot-update mode, with an invalidation pending, any event but a hot update or a due turn leaves the log and the mode alone; only a new server moves the root, only a scheduling request moves the deadline, and only a writing transform moves the timestamp |
| Timeline.BurstLeavesOnePending | packages/vite/src/vite/vite-plugin-wave-css.ts:83-86 | a burst (a scheduling request, then requests tracked or not, transforms, module-graph changes, newly configured servers and turns before the current deadline) invalidates nothing and keeps the mode; the single slot ends up due 250 ms after the last scheduling request, each request judged under the root in effect when it came; the timestamp is that of the last writing transform, and the root that of the last configured server |
| Timeline.ServerJoinsBurst | packages/vite/src/vite/vite-plugin-wave-css.ts:94-104 | a server configured after a scheduling request continues the burst, changes the root, and leaves the deadline counting from that request |
| Timeline.IdleTicks | packages/vite/src/vite/vite-plugin-wave-css.ts:84-85 | with nothing pending, event-loop turns change nothing |
| Timeline.BurstInvalidatesOnce | packages/vite/src/vite/vite-plugin-wave-css.ts:82-86 | a burst (servers configured during it included), then a turn at or after its deadline, then more turns, runs `invalidate` exactly once, at that turn, for the servers of that moment and with the timestamp of the burst's last writing transform, and leaves the slot empty |
| Timeline.RequestTransformTick | packages/vite/src/vite/vite-plugin-wave-css.ts:99-150 | a tracked page request at 0, the transform of that page at 1 and a turn at 250 send one batch, at 250, of updates stamped 1 to the servers holding the module |

## Left out

- The commented-out chokidar warm-up in `buildStart` and the unused `preLoads` option are not modelled. They have no live behaviour.
- The re-exports at the end of the file are not modelled.
- The plugin objects' `name`, `apply` and `enforce` metadata are not modelled.
- Of the options merge (`{ ...CONFIG, ...config }`), only the `include` key is modelled, by `Config.MergeInclude`. The other merged options reach the model already merged, as fields of `Config.Env`.
- `config.reset` is taken to be a string. An explicitly `undefined` reset would print as `"undefined"` in JavaScript, and that case is not modelled.
- `micromatch.isMatch`, `parseAtoms` and the generator from `createGenerateCss`, together with its `rules` and `prefixRules` tables, belong to other modules. They are uninterpreted functions.
- `Date.now()`, `setTimeout`/`clearTimeout` and the event loop are modelled only as `now` arguments and `TimerDue` events.
- Each server is only a "graph holds `/@wave.css`" flag. The host changes that flag through `GraphChanged`. `invalidateModule` is not modelled separately: it happens exactly for the servers that receive a message.
- Engine.HotUpdate: the `await read()` is a `content` argument, and the hook runs as one step. Other events cannot interleave between setting `isHMR` and the cache write. A failing read, which would leave `isHMR` set without a write, is not modelled.
- AtomCache.Lookup: JavaScript lists integer-like property keys before all others. File ids are never integer-like, so the cache keeps plain insertion order.
- Timeline.BurstLeavesOnePending: a burst may not contain a hot update, because a hot update switches scheduling off for good and invalidates at once.
- Timeline.BurstInvalidatesOnce: a burst may not contain a hot update, for the same reason.
- Strings are sequences of characters. The UTF-16 code-unit indexing of JavaScript strings is not modelled separately.

## Findings

| source | as written | input that shows it | evidently intended | confidence | as-written member | corrected member |
|---|---|---|---|---|---|---|
| packages/vite/src/vite/vite-plugin-wave-css.ts:185 | `chunk.source.replace(BUILD_PLACEHOLDER, waveCSS)` passes the stylesheet as a replacement template, so `$$`, `$&`, `` $` `` and `$'` in it are expanded (ECMA-262 section 22.1.3.19.1, GetSubstitution) | a `reset` option, or a generated rule, that contains `$&`: the placeholder text comes back in place of those two characters | the stylesheet inserted verbatim in place of the first placeholder | not executed; high, since it follows directly from the standard | Substitution.DollarAmpersandKeepsPattern | Bundle.GenerateBundleLiteral |
