/**
 RuntimePool of internal/plugin/runtime.go: which pool serves a plugin, the
 retired pools kept for pinned flows, and flow pinning.
 */
module RuntimeRegistry {
  import opened Wrappers
  import Decimal

  // The parts of a plugin that the runtime looks at; wasm is "" when it has no code.
  datatype Plugin = Plugin(id: string, slug: string, wasm: string)

  datatype PoolRef = PoolRef(slug: string, version: nat, wasm: string)

  type FlowBindings = map<string, nat>

  datatype Runtime = Runtime(
    plugins: map<string, PoolRef>,
    metadata: map<string, Plugin>,
    retired: map<string, PoolRef>,
    nextVersion: nat)

  datatype Event =
    | Load(p: Plugin, created: bool)      // created: a pool could be built
    | Unload(slug: string)
    | Detach(slug: string)
    | DropRetired(key: string)            // the end of drainAndRemoveRetired

  // "slug:version", the key of a retired pool.
  function RetiredKey(slug: string, version: nat): string {
    slug + ":" + Decimal.Digits(version)
  }

  function Retire(s: Runtime, slug: string): Runtime {
    if slug in s.plugins then
      var was := s.plugins[slug];
      s.(retired := s.retired[RetiredKey(was.slug, was.version) := was],
         plugins := s.plugins - {slug}, metadata := s.metadata - {slug})
    else s
  }

  // A plugin put in after the one before it was retired.
  function Loaded(s: Runtime, p: Plugin, created: bool): Runtime {
    if p.wasm == "" then s.(metadata := s.metadata[p.slug := p])
    else if !created then s
    else
      var v := s.nextVersion + 1;
      s.(nextVersion := v, plugins := s.plugins[p.slug := PoolRef(p.slug, v, p.wasm)],
         metadata := s.metadata[p.slug := p])
  }

  function Next(s: Runtime, e: Event): Runtime {
    match e
    case Load(p, created) =>
      Loaded(Retire(s, p.slug), p, created)
    case Unload(slug) =>
      if slug in s.metadata then s.(plugins := s.plugins - {slug}, metadata := s.metadata - {slug}) else s
    case Detach(slug) => s.(plugins := s.plugins - {slug})
    case DropRetired(key) => s.(retired := s.retired - {key})
  }

  function Run(s: Runtime, events: seq<Event>): Runtime
    decreases |events|
  {
    if events == [] then s else Run(Next(s, events[0]), events[1..])
  }

  const Empty := Runtime(map[], map[], map[], 0)

  function Current(s: Runtime, slug: string): Option<PoolRef> {
    if slug in s.plugins then Some(s.plugins[slug]) else None
  }

  function Capture(s: Runtime): FlowBindings {
    map slug | slug in s.plugins :: s.plugins[slug].version
  }

  // The pool that resolvePool returns, for a context with or without bindings.
  function Resolve(s: Runtime, flow: Option<FlowBindings>, slug: string): Option<PoolRef> {
    if flow.Some? && slug in flow.value then
      var pinned := flow.value[slug];
      if slug in s.plugins && s.plugins[slug].version == pinned then Some(s.plugins[slug])
      else if RetiredKey(slug, pinned) in s.retired then Some(s.retired[RetiredKey(slug, pinned)])
      else Current(s, slug)
    else Current(s, slug)
  }

  // The pool a CallHook is served by: none when the slug has no metadata.
  function CallTarget(s: Runtime, flow: Option<FlowBindings>, slug: string): Option<PoolRef> {
    if slug in s.metadata then Resolve(s, flow, slug) else None
  }

  // ---- What every operation keeps ----

  ghost predicate Inv(s: Runtime) {
    && (forall a :: a in s.plugins ==> s.plugins[a].slug == a && s.plugins[a].version <= s.nextVersion && a in s.metadata)
    && (forall k :: k in s.retired ==> k == RetiredKey(s.retired[k].slug, s.retired[k].version)
                                       && s.retired[k].version <= s.nextVersion)
    && (forall a, b :: a in s.plugins && b in s.plugins && a != b ==> s.plugins[a].version != s.plugins[b].version)
    && (forall a, k :: a in s.plugins && k in s.retired ==> s.plugins[a].version != s.retired[k].version)
    && (forall k, l :: k in s.retired && l in s.retired && k != l ==> s.retired[k].version != s.retired[l].version)
  }

  lemma RetireKeepsInv(s: Runtime, slug: string)
    requires Inv(s)
    ensures Inv(Retire(s, slug))
  {
    if slug in s.plugins {
      var was := s.plugins[slug];
      if RetiredKey(slug, was.version) in s.retired {
        var r := s.retired[RetiredKey(slug, was.version)];
        Decimal.SuffixInjective(slug, r.slug, ':', was.version, r.version);
      }
    }
  }

  lemma NextKeepsInv(s: Runtime, e: Event)
    requires Inv(s)
    ensures Inv(Next(s, e)) && s.nextVersion <= Next(s, e).nextVersion
  {
    match e
    case Load(p, created) =>
      RetireKeepsInv(s, p.slug);
      RetireApart(s, p.slug);
      LoadedKeepsInv(Retire(s, p.slug), p, created);
    case Unload(slug) =>
    case Detach(slug) =>
    case DropRetired(key) =>
  }

  lemma RetireApart(s: Runtime, slug: string)
    ensures slug !in Retire(s, slug).plugins && Retire(s, slug).nextVersion == s.nextVersion
  {
  }

  lemma LoadedKeepsInv(s: Runtime, p: Plugin, created: bool)
    requires Inv(s) && p.slug !in s.plugins
    ensures Inv(Loaded(s, p, created)) && s.nextVersion <= Loaded(s, p, created).nextVersion
  {
    hide RetiredKey;
  }

  lemma {:induction false} RunKeepsInv(s: Runtime, events: seq<Event>)
    requires Inv(s)
    ensures Inv(Run(s, events)) && s.nextVersion <= Run(s, events).nextVersion
    decreases |events|
  {
    if events != [] {
      NextKeepsInv(s, events[0]);
      RunKeepsInv(Next(s, events[0]), events[1..]);
    }
  }

  /**
   Pool versions are never used twice: at any point of any run the live pools,
   current and retired, have different versions, and a successful load gets a
   version above all of theirs.
   */
  lemma VersionsAreUnique(events: seq<Event>, p: Plugin)
    requires p.wasm != ""
    ensures var s := Run(Empty, events);
      && (forall a, b :: a in s.plugins && b in s.plugins && a != b ==> s.plugins[a].version != s.plugins[b].version)
      && (forall a, k :: a in s.plugins && k in s.retired ==> s.plugins[a].version != s.retired[k].version)
      && (forall k, l :: k in s.retired && l in s.retired && k != l ==> s.retired[k].version != s.retired[l].version)
      && (forall a :: a in s.plugins ==> s.plugins[a].version < Next(s, Load(p, true)).plugins[p.slug].version)
      && (forall k :: k in s.retired ==> s.retired[k].version < Next(s, Load(p, true)).plugins[p.slug].version)
  {
    RunKeepsInv(Empty, events);
  }

  /**
   Of any two successful loads in a run the later one gets the higher version,
   whatever has become of the pool of the earlier one by then.
   */
  lemma LaterLoadsAreHigher(before: seq<Event>, p: Plugin, between: seq<Event>, q: Plugin)
    requires p.wasm != "" && q.wasm != ""
    ensures var first := Next(Run(Empty, before), Load(p, true));
      var second := Next(Run(first, between), Load(q, true));
      first.plugins[p.slug].version < second.plugins[q.slug].version
  {
    var first := Next(Run(Empty, before), Load(p, true));
    RunKeepsInv(Empty, before);
    NextKeepsInv(Run(Empty, before), Load(p, true));
    RunKeepsInv(first, between);
    assert first.plugins[p.slug].version == first.nextVersion;
  }

  /** A load that works: the plugin is called through a pool of its code, or has no pool if it has no code. */
  lemma LoadServes(before: seq<Event>, p: Plugin, created: bool)
    requires p.wasm == "" || created
    ensures var s := Next(Run(Empty, before), Load(p, created));
      && p.slug in s.metadata && s.metadata[p.slug] == p
      && (p.wasm == "" ==> CallTarget(s, None, p.slug) == None && p.slug !in s.plugins)
      && (p.wasm != "" ==> var target := CallTarget(s, None, p.slug);
            target.Some? && target.value.slug == p.slug && target.value.wasm == p.wasm)
      && forall other :: other != p.slug ==> CallTarget(s, None, other) == CallTarget(Run(Empty, before), None, other)
  {
  }

  /** An unload that finds the plugin: no call reaches it any more, pinned or not, until it is loaded again. */
  lemma UnloadStops(before: seq<Event>, slug: string, flow: Option<FlowBindings>)
    requires slug in Run(Empty, before).metadata
    ensures var s := Next(Run(Empty, before), Unload(slug));
      && slug !in s.metadata && slug !in s.plugins && CallTarget(s, flow, slug) == None
      && forall other :: other != slug ==> CallTarget(s, flow, other) == CallTarget(Run(Empty, before), flow, other)
  {
  }

  /** A detach keeps the metadata, so a flow pinned to a pool that was retired before is still served by it. */
  lemma DetachKeepsRetired(before: seq<Event>, slug: string, flow: FlowBindings)
    requires var s := Run(Empty, before);
      slug in s.metadata && slug in flow && RetiredKey(slug, flow[slug]) in s.retired
    ensures var s := Run(Empty, before);
      CallTarget(Next(s, Detach(slug)), Some(flow), slug) == Some(s.retired[RetiredKey(slug, flow[slug])])
  {
  }

  // ---- Flow pinning ----

  // What became of the pool a flow is pinned to.
  datatype Pin = Serving | Retired | Gone

  function PinNext(pin: Pin, pool: PoolRef, e: Event): Pin {
    match pin
    case Serving =>
      if e.Load? && e.p.slug == pool.slug then Retired
      else if (e.Unload? || e.Detach?) && e.slug == pool.slug then Gone
      else Serving
    case Retired => if e == DropRetired(RetiredKey(pool.slug, pool.version)) then Gone else Retired
    case Gone => Gone
  }

  function PinAfter(pin: Pin, pool: PoolRef, events: seq<Event>): Pin
    decreases |events|
  {
    if events == [] then pin else PinAfter(PinNext(pin, pool, events[0]), pool, events[1..])
  }

  ghost predicate PinHolds(s: Runtime, pool: PoolRef, pin: Pin) {
    && pool.version <= s.nextVersion
    && (forall a :: a in s.plugins && s.plugins[a].version == pool.version ==> pin.Serving? && s.plugins[a] == pool)
    && (forall k :: k in s.retired && s.retired[k].version == pool.version ==> pin.Retired? && s.retired[k] == pool)
    && (pin.Serving? ==> pool.slug in s.plugins && s.plugins[pool.slug] == pool)
    && (pin.Retired? ==> RetiredKey(pool.slug, pool.version) in s.retired
                         && s.retired[RetiredKey(pool.slug, pool.version)] == pool)
  }

  lemma PinStepLoad(s: Runtime, pool: PoolRef, pin: Pin, p: Plugin, created: bool)
    requires Inv(s) && PinHolds(s, pool, pin)
    ensures PinHolds(Next(s, Load(p, created)), pool, PinNext(pin, pool, Load(p, created)))
  {
    PinStepRetire(s, pool, pin, p, created);
    RetireApart(s, p.slug);
    PinStepLoaded(Retire(s, p.slug), pool, PinNext(pin, pool, Load(p, created)), p, created);
  }

  lemma PinStepRetire(s: Runtime, pool: PoolRef, pin: Pin, p: Plugin, created: bool)
    requires Inv(s) && PinHolds(s, pool, pin)
    ensures PinHolds(Retire(s, p.slug), pool, PinNext(pin, pool, Load(p, created)))
  {
    var key := RetiredKey(pool.slug, pool.version);
    if p.slug in s.plugins {
      var was := s.plugins[p.slug];
      if RetiredKey(was.slug, was.version) == key {
        Decimal.SuffixInjective(was.slug, pool.slug, ':', was.version, pool.version);
      }
    }
  }

  lemma PinStepLoaded(s: Runtime, pool: PoolRef, pin: Pin, p: Plugin, created: bool)
    requires PinHolds(s, pool, pin) && p.slug !in s.plugins
    ensures PinHolds(Loaded(s, p, created), pool, pin)
  {
    hide RetiredKey;
  }

  lemma PinStep(s: Runtime, pool: PoolRef, pin: Pin, e: Event)
    requires Inv(s) && PinHolds(s, pool, pin)
    ensures PinHolds(Next(s, e), pool, PinNext(pin, pool, e))
  {
    match e
    case Load(p, created) => PinStepLoad(s, pool, pin, p, created);
    case Unload(_) =>
    case Detach(_) =>
    case DropRetired(key) =>
      if pin.Retired? && key in s.retired && s.retired[key].version == pool.version {
        assert key == RetiredKey(pool.slug, pool.version);
      }
  }

  lemma {:induction false} PinRun(s: Runtime, pool: PoolRef, pin: Pin, events: seq<Event>)
    requires Inv(s) && PinHolds(s, pool, pin)
    ensures Inv(Run(s, events)) && PinHolds(Run(s, events), pool, PinAfter(pin, pool, events))
    decreases |events|
  {
    if events != [] {
      NextKeepsInv(s, events[0]);
      PinStep(s, pool, pin, events[0]);
      PinRun(Next(s, events[0]), pool, PinNext(pin, pool, events[0]), events[1..]);
    }
  }

  /**
   A flow stays on the pool it was pinned to for exactly as long as that pool is
   serving, or was retired by a load and not yet dropped; from then on it gets
   the current pool, if any. This covers every run of loads, failed loads,
   unloads, detaches and drops, before and after the flow begins.
   */
  lemma PinningIsExact(before: seq<Event>, events: seq<Event>, slug: string)
    requires slug in Run(Empty, before).plugins
    ensures var s0, s := Run(Empty, before), Run(Run(Empty, before), events);
      var flow, pool := Some(Capture(s0)), s0.plugins[slug];
      && (Resolve(s, flow, slug) == Some(pool) <==> PinAfter(Serving, pool, events) != Gone)
      && (PinAfter(Serving, pool, events) == Gone ==> Resolve(s, flow, slug) == Current(s, slug))
  {
    RunKeepsInv(Empty, before);
    var s0 := Run(Empty, before);
    PinRun(s0, s0.plugins[slug], Serving, events);
    var s, pool := Run(s0, events), s0.plugins[slug];
    var key := RetiredKey(slug, pool.version);
    if key in s.retired {
      Decimal.SuffixInjective(slug, s.retired[key].slug, ':', pool.version, s.retired[key].version);
    }
  }

  // Loads alone never take a pinned pool away.
  lemma {:induction false} LoadsKeepPin(pin: Pin, pool: PoolRef, events: seq<Event>)
    requires forall i :: 0 <= i < |events| ==> events[i].Load?
    requires pin != Gone
    ensures PinAfter(pin, pool, events) != Gone
    decreases |events|
  {
    if events != [] {
      LoadsKeepPin(PinNext(pin, pool, events[0]), pool, events[1..]);
    }
  }

  /** Any number of reloads through LoadPlugin leaves a pinned flow on its pool. */
  lemma PinnedAcrossLoads(before: seq<Event>, loads: seq<Event>, slug: string)
    requires slug in Run(Empty, before).plugins
    requires forall i :: 0 <= i < |loads| ==> loads[i].Load?
    ensures var s0 := Run(Empty, before);
      Resolve(Run(s0, loads), Some(Capture(s0)), slug) == Some(s0.plugins[slug])
  {
    LoadsKeepPin(Serving, Run(Empty, before).plugins[slug], loads);
    PinningIsExact(before, loads, slug);
  }

  lemma RunTwo(s: Runtime, d: Event, e: Event, pool: PoolRef)
    ensures Run(s, [d, e]) == Next(Next(s, d), e)
    ensures PinAfter(Serving, pool, [d, e]) == PinNext(PinNext(Serving, pool, d), pool, e)
  {
    assert [d, e][1..] == [e];
    assert Run(Next(s, d), [e]) == Next(Next(s, d), e);
    assert PinAfter(PinNext(Serving, pool, d), pool, [e]) == PinNext(PinNext(Serving, pool, d), pool, e);
  }

  /**
   HotReload detaches the old pool before it loads the new one, so the old pool
   is not retired and a pinned flow moves to the new version at once.
   */
  lemma DetachThenLoadMovesFlow(before: seq<Event>, p: Plugin)
    requires p.slug in Run(Empty, before).plugins && p.wasm != ""
    ensures var s0 := Run(Empty, before);
      var s := Run(s0, [Detach(p.slug), Load(p, true)]);
      Resolve(s, Some(Capture(s0)), p.slug) == Some(PoolRef(p.slug, s0.nextVersion + 1, p.wasm))
  {
    var s0 := Run(Empty, before);
    var events := [Detach(p.slug), Load(p, true)];
    var pool := s0.plugins[p.slug];
    RunKeepsInv(Empty, before);
    hide Run, RetiredKey, Next, PinAfter;
    RunTwo(s0, Detach(p.slug), Load(p, true), pool);
    LoadsAnew(s0, p);
    PinningIsExact(before, events, p.slug);
  }

  lemma LoadsAnew(s: Runtime, p: Plugin)
    requires p.wasm != ""
    ensures Current(Next(Next(s, Detach(p.slug)), Load(p, true)), p.slug) == Some(PoolRef(p.slug, s.nextVersion + 1, p.wasm))
  {
  }

  /**
   Between the detach and the load of a hot reload no pool serves the plugin:
   a call that is not pinned fails.
   */
  lemma DetachLeavesGap(before: seq<Event>, slug: string)
    ensures CallTarget(Next(Run(Empty, before), Detach(slug)), None, slug) == None
  {
  }

  /**
   A load that fails to build its pool removes the plugin's metadata: flows
   pinned to the retired pool still resolve to it, but every CallHook fails.
   */
  lemma FailedLoadCutsOffFlows(before: seq<Event>, p: Plugin)
    requires p.slug in Run(Empty, before).plugins && p.wasm != ""
    ensures var s0 := Run(Empty, before);
      var s := Next(s0, Load(p, false));
      && Resolve(s, Some(Capture(s0)), p.slug) == Some(s0.plugins[p.slug])
      && CallTarget(s, Some(Capture(s0)), p.slug) == None
  {
    var s0 := Run(Empty, before);
    assert Run(s0, [Load(p, false)]) == Next(s0, Load(p, false));
    PinnedAcrossLoads(before, [Load(p, false)], p.slug);
  }

  // ---- The object ----

  class RuntimePool {
    var plugins: map<string, PoolRef>
    var metadata: map<string, Plugin>
    var retired: map<string, PoolRef>
    var nextVersion: nat

    ghost function State(): Runtime
      reads this
    {
      Runtime(plugins, metadata, retired, nextVersion)
    }

    constructor ()
      ensures State() == Empty
    {
      plugins, metadata, retired, nextVersion := map[], map[], map[], 0;
    }

    /** LoadPlugin; `created` says whether newPluginInstancePool succeeds. */
    method LoadPlugin(p: Plugin, created: bool) returns (ok: bool)
      modifies this
      ensures State() == Next(old(State()), Load(p, created))
      ensures ok <==> p.wasm == "" || created
    {
      if p.slug in plugins {
        var existing := plugins[p.slug];
        retired := retired[RetiredKey(existing.slug, existing.version) := existing];
        plugins := plugins - {p.slug};
        metadata := metadata - {p.slug};
      }
      if p.wasm != "" {
        if !created {
          return false;
        }
        nextVersion := nextVersion + 1;
        plugins := plugins[p.slug := PoolRef(p.slug, nextVersion, p.wasm)];
      }
      metadata := metadata[p.slug := p];
      return true;
    }

    method UnloadPlugin(slug: string) returns (found: bool)
      modifies this
      ensures State() == Next(old(State()), Unload(slug)) && found == (slug in old(metadata))
    {
      if slug !in metadata {
        return false;
      }
      plugins := plugins - {slug};
      metadata := metadata - {slug};
      return true;
    }

    method DetachPool(slug: string) returns (pool: Option<PoolRef>)
      modifies this
      ensures State() == Next(old(State()), Detach(slug)) && pool == Current(old(State()), slug)
    {
      if slug !in plugins {
        return None;
      }
      pool := Some(plugins[slug]);
      plugins := plugins - {slug};
    }

    // The deferred delete at the end of drainAndRemoveRetired.
    method RemoveRetired(key: string)
      modifies this
      ensures State() == Next(old(State()), DropRetired(key))
    {
      retired := retired - {key};
    }

    method CaptureFlowBindings() returns (bindings: FlowBindings)
      ensures bindings == Capture(State())
    {
      bindings := map slug | slug in plugins :: plugins[slug].version;
    }

    /** BeginFlow: a flow that is pinned already keeps its pins. */
    method BeginFlow(flow: Option<FlowBindings>) returns (pinned: Option<FlowBindings>)
      ensures pinned == if flow.Some? then flow else Some(Capture(State()))
    {
      if flow.Some? {
        return flow;
      }
      var bindings := CaptureFlowBindings();
      pinned := Some(bindings);
    }

    method ResolvePool(flow: Option<FlowBindings>, slug: string) returns (pool: Option<PoolRef>)
      ensures pool == Resolve(State(), flow, slug)
    {
      if flow.Some? && slug in flow.value {
        var pinned := flow.value[slug];
        if slug in plugins && plugins[slug].version == pinned {
          return Some(plugins[slug]);
        }
        var key := RetiredKey(slug, pinned);
        if key in retired {
          return Some(retired[key]);
        }
      }
      pool := if slug in plugins then Some(plugins[slug]) else None;
    }
  }
}
