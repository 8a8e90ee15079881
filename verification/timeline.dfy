/** The dev server over time: host events applied one after another to the
    shared state. Everything runs to completion inside one callback, so a
    run is a left-to-right fold of the hook transitions. */
module Timeline {
  import opened Base
  import opened AtomCache
  import opened Config
  import opened Gate
  import opened Engine

  /** What the host can do to the plugin while serving. `GraphChanged`
      stands for the host adding the virtual module to, or dropping it
      from, a server's module graph; `TimerDue` for the event loop getting
      round to timers at time `now`. */
  datatype Event =
    | ServerConfigured(root: string, server: Server)
    | GraphChanged(index: nat, hasModule: bool)
    | Request(url: Option<string>, now: int)
    | Transform(code: string, id: string, now: int)
    | HotUpdated(file: string, content: string, now: int)
    | TimerDue(now: int)

  /** One host event. Hot-update mode, once on, stays on. */
  function Step(env: Env, st: State, e: Event): (r: State)
    requires Valid(st)
    ensures Valid(r)
    ensures st.isHMR ==> r.isHMR
  {
    match e
    case ServerConfigured(root, server) => ConfigureServer(st, root, server)
    case GraphChanged(i, has) =>
      if i < |st.servers| then st.(servers := st.servers[i := Server(has)]) else st
    case Request(url, now) => Middleware(env, st, url, now)
    case Transform(code, id, now) => DevTransform(env, st, code, id, now).state
    case HotUpdated(file, content, now) => HotUpdate(env, st, file, content, now)
    case TimerDue(now) => Tick(st, now)
  }

  /** The state after the events of `ev`, in order. */
  function Run(env: Env, st: State, ev: seq<Event>): (r: State)
    requires Valid(st)
    ensures Valid(r)
    ensures st.isHMR ==> r.isHMR
  {
    if |ev| == 0 then st
    else Step(env, Run(env, st, ev[..|ev| - 1]), ev[|ev| - 1])
  }

  /** Running two stretches of events is running their concatenation. */
  lemma {:induction false} RunAppend(env: Env, st: State, a: seq<Event>, b: seq<Event>)
    requires Valid(st)
    ensures Run(env, st, a + b) == Run(env, Run(env, st, a), b)
  {
    if |b| > 0 {
      SplitLast(a, b);
      RunAppend(env, st, a, b[..|b| - 1]);
    } else {
      assert a + b == a;
    }
  }

  /** A hot update of a tracked file turns hot-update mode on for the rest
      of the process, whatever follows. */
  lemma HotUpdateIsSticky(env: Env, st: State, file: string, content: string, now: int, later: seq<Event>)
    requires Valid(st)
    requires IsTracked(env, st.configRoot, file)
    ensures Run(env, st, [HotUpdated(file, content, now)] + later).isHMR
  {
    RunAppend(env, st, [HotUpdated(file, content, now)], later);
    assert [HotUpdated(file, content, now)][..0] == [];
  }

  /** In hot-update mode, events other than hot updates neither write the
      cache nor move the timestamp, and never schedule an invalidation:
      the timer keeps its deadline or has fired. */
  lemma {:induction false} NoPassiveWritesInHMR(env: Env, st: State, ev: seq<Event>)
    requires Valid(st)
    requires st.isHMR
    requires forall k :: 0 <= k < |ev| ==> !ev[k].HotUpdated?
    ensures Run(env, st, ev).entry == st.entry
    ensures Run(env, st, ev).timestamp == st.timestamp
    ensures Run(env, st, ev).timer.None? || Run(env, st, ev).timer == st.timer
  {
    if |ev| > 0 {
      var p := ev[..|ev| - 1];
      assert forall k :: 0 <= k < |p| ==> p[k] == ev[k];
      NoPassiveWritesInHMR(env, st, p);
      PassiveStep(env, Run(env, st, p), ev[|ev| - 1]);
    }
  }

  /** One event other than a hot update, in hot-update mode: no cache
      write, no new timestamp, no arming; the mode stays on. */
  lemma PassiveStep(env: Env, p: State, e: Event)
    requires Valid(p) && p.isHMR && !e.HotUpdated?
    ensures Step(env, p, e).isHMR
    ensures Step(env, p, e).entry == p.entry && Step(env, p, e).timestamp == p.timestamp
    ensures Step(env, p, e).timer.None? || Step(env, p, e).timer == p.timer
  {
  }

  /** A request that (re)schedules the debounced invalidation. */
  predicate Arms(env: Env, root: string, e: Event) {
    e.Request? && e.url.Some? && e.url.value != "" && IsTracked(env, root, e.url.value)
  }

  /** A dev transform that writes the cache and moves the timestamp. */
  predicate Writes(env: Env, root: string, e: Event) {
    e.Transform? && e.id != VIRTUAL_PATH && IsTracked(env, root, e.id)
  }

  /** An event that may occur inside a burst whose pending deadline is
      `deadline`: anything but a hot update or an event-loop turn at or
      after the deadline. */
  predicate Quiet(e: Event, deadline: int) {
    !e.HotUpdated? && (e.TimerDue? ==> e.now < deadline)
  }

  /** The gate's root after the events of `ev`, starting from `root`: the
      last configured server's root plus `/`. */
  function RootAfter(root: string, ev: seq<Event>): string {
    if |ev| == 0 then root
    else if ev[|ev| - 1].ServerConfigured? then ev[|ev| - 1].root + "/"
    else RootAfter(root, ev[..|ev| - 1])
  }

  /** The time of the last scheduling request in `ev` (0 when there is
      none), each request judged under the root in effect when it came. */
  function LastArm(env: Env, root: string, ev: seq<Event>): int {
    if |ev| == 0 then 0
    else if Arms(env, RootAfter(root, ev[..|ev| - 1]), ev[|ev| - 1]) then ev[|ev| - 1].now
    else LastArm(env, root, ev[..|ev| - 1])
  }

  /** The timestamp after the writing transforms of `ev`, starting from `ts`,
      each transform judged under the root in effect when it came. */
  function LastStamp(env: Env, root: string, ev: seq<Event>, ts: int): int {
    if |ev| == 0 then ts
    else if Writes(env, RootAfter(root, ev[..|ev| - 1]), ev[|ev| - 1]) then ev[|ev| - 1].now
    else LastStamp(env, root, ev[..|ev| - 1], ts)
  }

  /** A burst: a scheduling request, then any events (further requests,
      tracked or not, transforms, module-graph changes, newly configured
      servers) that each come before the deadline of the latest scheduling
      request. */
  predicate IsBurst(env: Env, root: string, ev: seq<Event>)
  {
    |ev| >= 1 &&
    var last := ev[|ev| - 1];
    if |ev| == 1 then Arms(env, root, last)
    else
      && IsBurst(env, root, ev[..|ev| - 1])
      && Quiet(last, LastArm(env, root, ev[..|ev| - 1]) + DEBOUNCE_TIMEOUT)
  }

  /** One event inside a burst, outside hot-update mode: nothing is
      invalidated and the mode stays; a new server sets the root, a
      scheduling request moves the deadline and a writing transform the
      timestamp. */
  lemma QuietStep(env: Env, p: State, e: Event, deadline: int)
    requires Valid(p) && !p.isHMR && p.timer == Some(deadline)
    requires Quiet(e, deadline)
    ensures Step(env, p, e).log == p.log
    ensures !Step(env, p, e).isHMR
    ensures Step(env, p, e).configRoot
            == if e.ServerConfigured? then e.root + "/" else p.configRoot
    ensures Step(env, p, e).timer
            == if Arms(env, p.configRoot, e) then Some(e.now + DEBOUNCE_TIMEOUT) else p.timer
    ensures Step(env, p, e).timestamp
            == if Writes(env, p.configRoot, e) then e.now else p.timestamp
  {
  }

  /** Throughout a burst nothing is invalidated and the mode does not
      change; what is left is one pending invalidation, due
      `DEBOUNCE_TIMEOUT` after the burst's last scheduling request, the
      timestamp of its last writing transform, and the root of its last
      configured server. */
  lemma {:induction false} BurstLeavesOnePending(env: Env, st: State, ev: seq<Event>)
    requires Valid(st)
    requires !st.isHMR
    requires IsBurst(env, st.configRoot, ev)
    ensures Run(env, st, ev).timer == Some(LastArm(env, st.configRoot, ev) + DEBOUNCE_TIMEOUT)
    ensures Run(env, st, ev).timestamp == LastStamp(env, st.configRoot, ev, st.timestamp)
    ensures Run(env, st, ev).log == st.log
    ensures !Run(env, st, ev).isHMR
    ensures Run(env, st, ev).configRoot == RootAfter(st.configRoot, ev)
  {
    var n := |ev| - 1;
    var p := ev[..n];
    if n == 0 {
      assert p == [];
    } else {
      BurstLeavesOnePending(env, st, p);
      QuietStep(env, Run(env, st, p), ev[n], LastArm(env, st.configRoot, p) + DEBOUNCE_TIMEOUT);
    }
  }

  /** A server configured after a scheduling request keeps the burst going,
      and its pending deadline still counts from that request. */
  lemma ServerJoinsBurst(env: Env, root: string, u: string, r: string, srv: Server)
    requires u != "" && IsTracked(env, root, u)
    ensures var ev := [Request(Some(u), 0), ServerConfigured(r, srv)];
            && IsBurst(env, root, ev)
            && LastArm(env, root, ev) == 0
            && RootAfter(root, ev) == r + "/"
  {
    var ev := [Request(Some(u), 0), ServerConfigured(r, srv)];
    assert ev[..1] == [Request(Some(u), 0)] && ev[..1][..0] == [];
  }

  /** Event-loop turns with nothing pending change nothing. */
  lemma {:induction false} IdleTicks(env: Env, st: State, ev: seq<Event>)
    requires Valid(st)
    requires st.timer.None?
    requires forall k :: 0 <= k < |ev| ==> ev[k].TimerDue?
    ensures Run(env, st, ev) == st
  {
    if |ev| > 0 {
      var p := ev[..|ev| - 1];
      assert forall k :: 0 <= k < |p| ==> p[k] == ev[k];
      IdleTicks(env, st, p);
    }
  }

  /** Debounce coalescing: a burst followed by the first event-loop turn at
      or after its deadline, and any number of further turns, runs
      `invalidate` exactly once, at that turn, for the servers of that
      moment and with the timestamp of the burst's last writing transform;
      the slot is then empty. */
  lemma BurstInvalidatesOnce(env: Env, st: State, ev: seq<Event>, t: int, later: seq<Event>)
    requires Valid(st)
    requires !st.isHMR
    requires IsBurst(env, st.configRoot, ev)
    requires t >= LastArm(env, st.configRoot, ev) + DEBOUNCE_TIMEOUT
    requires forall k :: 0 <= k < |later| ==> later[k].TimerDue?
    ensures var mid := Run(env, st, ev);
            Run(env, st, ev + [TimerDue(t)] + later)
            == mid.(timer := None, log := st.log + [Batch(t, Notices(mid.servers, mid.timestamp))])
    ensures Run(env, st, ev + [TimerDue(t)] + later).log
            == st.log + [Batch(t, Notices(Run(env, st, ev).servers,
                                          LastStamp(env, st.configRoot, ev, st.timestamp)))]
  {
    var mid := Run(env, st, ev);
    BurstLeavesOnePending(env, st, ev);
    RunAppend(env, st, ev, [TimerDue(t)]);
    assert [TimerDue(t)][..0] == [];
    var fired := Run(env, st, ev + [TimerDue(t)]);
    assert fired == mid.(timer := None, log := st.log + [Batch(t, Notices(mid.servers, mid.timestamp))]);
    RunAppend(env, st, ev + [TimerDue(t)], later);
    IdleTicks(env, fired, later);
  }

  /** The everyday case: a page request, the transform of that page, and
      the first event-loop turn 250 ms after the request send one update
      per holding server, stamped with the transform's time. */
  lemma RequestTransformTick(env: Env, st: State, u: string, code: string)
    requires Valid(st) && !st.isHMR
    requires u != "" && u != VIRTUAL_PATH && IsTracked(env, st.configRoot, u)
    ensures Run(env, st, [Request(Some(u), 0), Transform(code, u, 1), TimerDue(DEBOUNCE_TIMEOUT)]).log
            == st.log + [Batch(DEBOUNCE_TIMEOUT, Notices(st.servers, 1))]
  {
    var ev := [Request(Some(u), 0), Transform(code, u, 1)];
    RequestTransformIsBurst(env, st.configRoot, u, code);
    RequestTransformServers(env, st, u, code);
    BurstInvalidatesOnce(env, st, ev, DEBOUNCE_TIMEOUT, []);
    assert ev + [TimerDue(DEBOUNCE_TIMEOUT)] + []
           == [Request(Some(u), 0), Transform(code, u, 1), TimerDue(DEBOUNCE_TIMEOUT)];
  }

  /** A tracked request followed by the transform of the same page is a
      burst, armed at 0, whose last write is at 1. */
  lemma RequestTransformIsBurst(env: Env, root: string, u: string, code: string)
    requires u != "" && u != VIRTUAL_PATH && IsTracked(env, root, u)
    ensures var ev := [Request(Some(u), 0), Transform(code, u, 1)];
            && IsBurst(env, root, ev)
            && LastArm(env, root, ev) == 0
            && LastStamp(env, root, ev, 0) == 1
            && forall ts :: LastStamp(env, root, ev, ts) == 1
  {
    var ev := [Request(Some(u), 0), Transform(code, u, 1)];
    assert ev[..1] == [Request(Some(u), 0)];
    assert Arms(env, root, ev[0]) && Writes(env, root, ev[1]);
  }

  /** Neither event of that burst touches the servers. */
  lemma RequestTransformServers(env: Env, st: State, u: string, code: string)
    requires Valid(st)
    ensures Run(env, st, [Request(Some(u), 0), Transform(code, u, 1)]).servers == st.servers
  {
    var ev := [Request(Some(u), 0), Transform(code, u, 1)];
    assert ev[..1] == [Request(Some(u), 0)] && ev[..1][..0] == [];
    var s1 := Run(env, st, ev[..1]);
    assert s1 == Step(env, Run(env, st, []), ev[0]);
    assert Run(env, st, ev) == Step(env, s1, ev[1]);
  }
}
