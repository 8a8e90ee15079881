/** The plugin's shared closure state and its hooks, one pure transition
    per hook. The `:dev` plugin object (serve) and the `:build` plugin
    object share one state, as both close over the same variables. */
module Engine {
  import opened Base
  import opened AtomCache
  import opened Config
  import opened Gate
  import opened Style

  /** A dev server, reduced to whether its module graph holds the virtual
      module (`moduleGraph.getModuleById(VIRTUAL_PATH)` is defined). */
  datatype Server = Server(hasModule: bool)

  /** One entry of the `updates` array of a hot-update message. */
  datatype UpdateEntry = UpdateEntry(acceptedPath: string, path: string, timestamp: int, kind: string)

  /** The message passed to `server.ws.send`. */
  datatype Payload = Payload(kind: string, updates: seq<UpdateEntry>)

  /** A message sent to the server at index `server` of `servers`. */
  datatype Notice = Notice(server: nat, payload: Payload)

  /** One run of `invalidate`: when it ran and what it sent, in order. */
  datatype Batch = Batch(firedAt: int, notices: seq<Notice>)

  /** The closure state. `timer` holds the deadline of the pending
      debounced invalidation, if any; there is one slot, so at most one
      invalidation is ever pending. `log` records every `invalidate` run. */
  datatype State = State(
    entry: Cache,
    isHMR: bool,
    timestamp: int,
    configRoot: string,
    timer: Option<int>,
    servers: seq<Server>,
    log: seq<Batch>)

  /** The state right after `waveCSS(config)` returns, at time `now`. */
  function Init(now: int): (r: State)
    ensures Valid(r)
    ensures !r.isHMR && r.timer.None? && r.configRoot == ""
    ensures forall id :: Lookup(r.entry, id).None?
    ensures r.servers == [] && r.log == [] && r.timestamp == now
  {
    State([], false, now, "", None, [], [])
  }

  /** The states the hooks can reach keep object keys unique. */
  predicate Valid(st: State) {
    UniqueFiles(st.entry)
  }

  /** The hot-update message for the virtual module stamped `ts`. */
  function JsUpdate(ts: int): (p: Payload)
    ensures p.kind == "update" && |p.updates| == 1
    ensures p.updates[0].path == p.updates[0].acceptedPath == "/@wave.css"
    ensures p.updates[0].kind == "js-update" && p.updates[0].timestamp == ts
  {
    Payload("update", [UpdateEntry(VIRTUAL_PATH, VIRTUAL_PATH, ts, UPDATE_TYPE)])
  }

  /** The messages one `invalidate` sends: one per server whose graph holds
      the virtual module, in server order; the other servers are skipped. */
  function Notices(servers: seq<Server>, ts: int): (out: seq<Notice>)
    ensures forall k :: 0 <= k < |out| ==>
              out[k].server < |servers| && servers[out[k].server].hasModule
              && out[k].payload == JsUpdate(ts)
    ensures forall k, l :: 0 <= k < l < |out| ==> out[k].server < out[l].server
    ensures forall i :: 0 <= i < |servers| && servers[i].hasModule ==>
              exists k :: 0 <= k < |out| && out[k].server == i
  {
    if |servers| == 0 then []
    else
      var n := |servers| - 1;
      var init := Notices(servers[..n], ts);
      assert forall i :: 0 <= i < n ==> servers[..n][i] == servers[i];
      if servers[n].hasModule then
        var out := init + [Notice(n, JsUpdate(ts))];
        assert out[|init|].server == n;
        assert forall k :: 0 <= k < |init| ==> out[k] == init[k];
        out
      else init
  }

  /** `invalidate()` run at time `now`: appends one batch to the log,
      stamped with the current `timestamp`. */
  function Invalidate(st: State, now: int): (r: State)
    ensures r.(log := st.log) == st
    ensures |r.log| == |st.log| + 1 && r.log[..|st.log|] == st.log
    ensures r.log[|st.log|].firedAt == now
    ensures r.log[|st.log|].notices == Notices(st.servers, st.timestamp)
    ensures forall k :: 0 <= k < |r.log[|st.log|].notices| ==>
              r.log[|st.log|].notices[k].payload == JsUpdate(st.timestamp)
  {
    st.(log := st.log + [Batch(now, Notices(st.servers, st.timestamp))])
  }

  /** `debounceInvalidate()` at time `now`: cancel any pending invalidation
      and schedule one `DEBOUNCE_TIMEOUT` later. */
  function Debounce(st: State, now: int): (r: State)
    ensures r.(timer := st.timer) == st
    ensures r.timer.Some? && r.timer.value == now + DEBOUNCE_TIMEOUT
  {
    st.(timer := Some(now + DEBOUNCE_TIMEOUT))
  }

  /** The host's event loop at time `now`: a pending invalidation whose
      deadline has passed runs and the slot empties; otherwise nothing. */
  function Tick(st: State, now: int): (r: State)
    ensures st.timer.None? || now < st.timer.value ==> r == st
    ensures st.timer.Some? && st.timer.value <= now ==>
              && r.timer.None?
              && r.log == st.log + [Batch(now, Notices(st.servers, st.timestamp))]
              && r.(timer := st.timer, log := st.log) == st
  {
    if st.timer.Some? && st.timer.value <= now then Invalidate(st.(timer := None), now)
    else st
  }

  /** `configureServer`: remember the root (with a trailing slash) for the
      gate and register the server after the known ones. */
  function ConfigureServer(st: State, root: string, server: Server): (r: State)
    ensures r.configRoot == root + "/"
    ensures |r.servers| == |st.servers| + 1 && r.servers[..|st.servers|] == st.servers
    ensures r.servers[|st.servers|] == server
    ensures r.(configRoot := st.configRoot, servers := st.servers) == st
  {
    st.(configRoot := root + "/", servers := st.servers + [server])
  }

  /** The middleware every request passes: when no hot update has been
      seen, and the request has a non-empty url that the gate tracks, the
      invalidation is (re)scheduled. The request is always passed on. */
  function Middleware(env: Env, st: State, url: Option<string>, now: int): (r: State)
    ensures !st.isHMR && url.Some? && url.value != "" && IsTracked(env, st.configRoot, url.value) ==>
              r.(timer := st.timer) == st && r.timer == Some(now + DEBOUNCE_TIMEOUT)
    ensures !(!st.isHMR && url.Some? && url.value != "" && IsTracked(env, st.configRoot, url.value)) ==>
              r == st
  {
    if !st.isHMR && url.Some? && url.value != "" && IsTracked(env, st.configRoot, url.value) then
      Debounce(st, now)
    else
      st
  }

  /** `resolveId`, identical in both plugin objects: both spellings of the
      virtual module resolve to its rooted path; anything else is left to
      the host. */
  function ResolveId(id: string): (r: Option<string>)
    ensures r.Some? <==> id == WAVE_CSS || id == VIRTUAL_PATH
    ensures r.Some? ==> r.value == VIRTUAL_PATH
  {
    if id == WAVE_CSS || id == VIRTUAL_PATH then Some(VIRTUAL_PATH) else None
  }

  /** Dev `load`: only the rooted path answers, with the live stylesheet. */
  function DevLoad(env: Env, st: State, id: string): (r: Option<string>)
    ensures r.Some? <==> id == VIRTUAL_PATH
    ensures r.Some? ==> r.value == MakeStyle(env, st.entry) && StartsWith(r.value, env.reset)
  {
    if id == VIRTUAL_PATH then Some(MakeStyle(env, st.entry)) else None
  }

  /** Build `load`: only the rooted path answers, with the placeholder. */
  function BuildLoad(id: string): (r: Option<string>)
    ensures r.Some? <==> id == VIRTUAL_PATH
    ensures r.Some? ==> r.value == BUILD_PLACEHOLDER
  {
    if id == VIRTUAL_PATH then Some(BUILD_PLACEHOLDER) else None
  }

  /** What a transform hook leaves behind: the new state and its return
      value (`None` for `undefined`, meaning "code unchanged, keep going"). */
  datatype Transformed = Transformed(state: State, output: Option<string>)

  /** Dev `transform`: skipped, returning the code, once a hot update has
      been seen, for the virtual module itself and for untracked ids;
      otherwise the atoms of the code replace the file's cache entry, the
      timestamp moves to `now`, and `undefined` is returned. The debounce
      timer is never touched. */
  function DevTransform(env: Env, st: State, code: string, id: string, now: int): (r: Transformed)
    requires Valid(st)
    ensures Valid(r.state)
    ensures st.isHMR || id == VIRTUAL_PATH || !IsTracked(env, st.configRoot, id) ==>
              r.output == Some(code) && r.state == st
    ensures !(st.isHMR || id == VIRTUAL_PATH || !IsTracked(env, st.configRoot, id)) ==>
              && r.output.None?
              && Lookup(r.state.entry, id) == Some(env.parseAtoms(code))
              && (forall k :: k != id ==> Lookup(r.state.entry, k) == Lookup(st.entry, k))
              && r.state.timestamp == now
              && r.state.(entry := st.entry, timestamp := st.timestamp) == st
  {
    if st.isHMR then Transformed(st, Some(code))
    else if id == VIRTUAL_PATH then Transformed(st, Some(code))
    else if !IsTracked(env, st.configRoot, id) then Transformed(st, Some(code))
    else
      var entry := Put(st.entry, id, env.parseAtoms(code));
      PutLookupAll(st.entry, id, env.parseAtoms(code));
      Transformed(st.(entry := entry, timestamp := now), None)
  }

  /** `handleHotUpdate` with the file's content already read: untracked
      files change nothing; a tracked file turns hot-update mode on for
      good, replaces its cache entry, moves the timestamp to `now` and runs
      `invalidate` at once, leaving any pending debounce alone. */
  function HotUpdate(env: Env, st: State, file: string, content: string, now: int): (r: State)
    requires Valid(st)
    ensures Valid(r)
    ensures !IsTracked(env, st.configRoot, file) ==> r == st
    ensures IsTracked(env, st.configRoot, file) ==>
              && r.isHMR
              && Lookup(r.entry, file) == Some(env.parseAtoms(content))
              && (forall k :: k != file ==> Lookup(r.entry, k) == Lookup(st.entry, k))
              && r.timestamp == now
              && r.timer == st.timer
              && r.log == st.log + [Batch(now, Notices(st.servers, now))]
              && r.(isHMR := st.isHMR, entry := st.entry, timestamp := st.timestamp, log := st.log) == st
  {
    if !IsTracked(env, st.configRoot, file) then st
    else
      var entry := Put(st.entry, file, env.parseAtoms(content));
      PutLookupAll(st.entry, file, env.parseAtoms(content));
      Invalidate(st.(isHMR := true, entry := entry, timestamp := now), now)
  }

  /** Build `transform`: a tracked id (the virtual module included) has its
      cache entry replaced; `undefined` is always returned, so only the
      state is modelled. */
  function BuildTransform(env: Env, st: State, code: string, id: string): (r: State)
    requires Valid(st)
    ensures Valid(r)
    ensures !IsTracked(env, st.configRoot, id) ==> r == st
    ensures IsTracked(env, st.configRoot, id) ==>
              && Lookup(r.entry, id) == Some(env.parseAtoms(code))
              && (forall k :: k != id ==> Lookup(r.entry, k) == Lookup(st.entry, k))
              && r.(entry := st.entry) == st
  {
    if IsTracked(env, st.configRoot, id) then
      var entry := Put(st.entry, id, env.parseAtoms(code));
      PutLookupAll(st.entry, id, env.parseAtoms(code));
      st.(entry := entry)
    else st
  }

  /** `PutLookup` for every key at once. */
  lemma PutLookupAll(c: Cache, id: string, atoms: seq<string>)
    requires UniqueFiles(c)
    ensures Lookup(Put(c, id, atoms), id) == Some(atoms)
    ensures forall k :: k != id ==> Lookup(Put(c, id, atoms), k) == Lookup(c, k)
  {
    PutLookup(c, id, atoms, id);
    forall k | k != id
      ensures Lookup(Put(c, id, atoms), k) == Lookup(c, k)
    {
      PutLookup(c, id, atoms, k);
    }
  }

  /** Both spellings load, after resolution, the live stylesheet in dev and
      the placeholder in a build; unresolved ids load nothing. */
  lemma ResolveThenLoad(env: Env, st: State, id: string)
    ensures ResolveId(id).Some? ==>
              && DevLoad(env, st, ResolveId(id).value) == Some(MakeStyle(env, st.entry))
              && BuildLoad(ResolveId(id).value) == Some(BUILD_PLACEHOLDER)
    ensures id == WAVE_CSS ==> DevLoad(env, st, id).None? && BuildLoad(id).None?
  {
    assert WAVE_CSS != VIRTUAL_PATH by {
      assert |WAVE_CSS| != |VIRTUAL_PATH|;
    }
  }

  /** How many servers' graphs hold the virtual module. */
  function ModuleHolders(servers: seq<Server>): nat {
    if |servers| == 0 then 0
    else ModuleHolders(servers[..|servers| - 1]) + (if servers[|servers| - 1].hasModule then 1 else 0)
  }

  /** One `invalidate` sends exactly as many messages as there are servers
      holding the virtual module. */
  lemma {:induction false} NoticeCount(servers: seq<Server>, ts: int)
    ensures |Notices(servers, ts)| == ModuleHolders(servers)
  {
    if |servers| > 0 {
      NoticeCount(servers[..|servers| - 1], ts);
    }
  }

  /** On the virtual module's own id, dev `transform` never writes while
      build `transform` writes whenever the gate tracks the id. */
  lemma TransformsDivergeOnVirtualPath(env: Env, st: State, code: string, now: int)
    requires Valid(st)
    ensures DevTransform(env, st, code, VIRTUAL_PATH, now) == Transformed(st, Some(code))
    ensures IsTracked(env, st.configRoot, VIRTUAL_PATH) ==>
              Lookup(BuildTransform(env, st, code, VIRTUAL_PATH).entry, VIRTUAL_PATH)
              == Some(env.parseAtoms(code))
  {
  }

  /** Either transform, repeated with the same code, leaves the state the
      first one left. */
  lemma TransformsIdempotent(env: Env, st: State, code: string, id: string, now: int)
    requires Valid(st)
    ensures var once := DevTransform(env, st, code, id, now).state;
            DevTransform(env, once, code, id, now).state == once
    ensures var once := BuildTransform(env, st, code, id);
            BuildTransform(env, once, code, id) == once
  {
    if IsTracked(env, st.configRoot, id) {
      PutIdempotent(st.entry, id, env.parseAtoms(code));
    }
  }
}
