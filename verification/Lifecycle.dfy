/**
 LifecycleManager of internal/plugin/lifecycle.go: hot reload and configuration
 reload over the runtime, the dispatcher and the repository, with their
 roll-backs. WASM code is stored by content; the hash of a binary is the binary
 itself here, and "" stands for no code.
 */
module Lifecycle {
  import opened Wrappers
  import opened HookTable
  import RR = RuntimeRegistry
  import HookDispatcher

  const MAX_WASM_BINARY_SIZE: int := 50 * 1024 * 1024

  datatype Status = Installed | Enabled | Disabled | Broken

  // A manifest: its hooks and the configuration keys it requires.
  datatype Spec = Spec(hooks: Manifest, required: set<string>)

  datatype Record = Record(slug: string, spec: Option<Spec>, inline: string, hash: string,
                           config: map<string, string>, status: Status, builtIn: bool)

  type Repository = map<string, Record>

  datatype ReloadError =
    | NotFound | BuiltIn | NotRunning | BadManifest | SlugMismatch | MissingConfig | TooLarge
    | CodeMissing | StoreFailed | LoadFailed | PersistFailed

  // Which of the steps that can fail succeed.
  datatype Faults = Faults(fetch: bool, store: bool, buildNew: bool, persist: bool, buildOld: bool, setStatus: bool)

  predicate Configured(spec: Spec, config: map<string, string>) {
    forall key :: key in spec.required ==> key in config && config[key] != ""
  }

  function RegistrationsOf(id: string, r: Record): (regs: seq<Registration>)
    ensures if r.spec.Some? then Declares(regs, r.spec.value.hooks, id) else regs == []
  {
    if r.spec.Some? then Registrations(r.spec.value.hooks, id) else []
  }

  function RefusalOf(records: Repository, blobs: set<string>, id: string, spec: Option<Spec>, code: string, ok: Faults)
    : Option<ReloadError>
  {
    if id !in records then Some(NotFound)
    else
      var r := records[id];
      if r.builtIn then Some(BuiltIn)
      else if r.status != Enabled then Some(NotRunning)
      else if spec.None? then Some(BadManifest)
      else if spec.value.hooks.slug != r.slug then Some(SlugMismatch)
      else if !Configured(spec.value, r.config) then Some(MissingConfig)
      else if |code| > MAX_WASM_BINARY_SIZE then Some(TooLarge)
      else if r.hash != "" && (r.hash !in blobs || !ok.fetch) then Some(CodeMissing)
      else if code != "" && !ok.store then Some(StoreFailed)
      else None
  }

  // What the runtime loads for a record: code fetched by hash, else the inline code.
  function PluginOf(id: string, r: Record): RR.Plugin {
    RR.Plugin(id, r.slug, if r.hash != "" then r.hash else r.inline)
  }

  function Updated(r: Record, spec: Spec, code: string): Record {
    r.(spec := Some(spec), inline := "", hash := code)
  }

  // The runtime after the old pool was detached and the new code loaded.
  function AfterLoad(s: RR.Runtime, id: string, r: Record, code: string, built: bool): RR.Runtime {
    RR.Next(RR.Next(s, RR.Detach(r.slug)), RR.Load(RR.Plugin(id, r.slug, code), built))
  }

  // ... and then the old code loaded again.
  function AfterRestore(s: RR.Runtime, id: string, r: Record, code: string, built: bool, rebuilt: bool): RR.Runtime {
    RR.Next(AfterLoad(s, id, r, code, built), RR.Load(PluginOf(id, r), rebuilt))
  }

  class LifecycleManager {
    const runtime: RR.RuntimePool
    const dispatcher: HookDispatcher.HookDispatcher
    // The repository: plugin rows by ID, and stored code.
    var records: Repository
    var blobs: set<string>
    // Versions of the pools that were drained explicitly.
    var drained: set<nat>

    constructor (runtime: RR.RuntimePool, dispatcher: HookDispatcher.HookDispatcher)
      ensures this.runtime == runtime && this.dispatcher == dispatcher
      ensures records == map[] && blobs == {} && drained == {}
    {
      this.runtime, this.dispatcher := runtime, dispatcher;
      records, blobs, drained := map[], {}, {};
    }

    // The checks that come before anything is changed.
    function Refusal(id: string, spec: Option<Spec>, code: string, ok: Faults): Option<ReloadError>
      reads this
    {
      RefusalOf(records, blobs, id, spec, code, ok)
    }

    // Detach the old pool and load the new code; if that fails, load the old code again.
    method LoadNew(id: string, r: Record, code: string, ok: Faults) returns (oldPool: Option<RR.PoolRef>, loaded: bool)
      modifies runtime
      ensures oldPool == RR.Current(old(runtime.State()), r.slug) && (loaded <==> code == "" || ok.buildNew)
      ensures runtime.State() ==
        if loaded || oldPool.None? then AfterLoad(old(runtime.State()), id, r, code, loaded)
        else AfterRestore(old(runtime.State()), id, r, code, false, ok.buildOld)
    {
      ghost var s0 := runtime.State();
      oldPool := runtime.DetachPool(r.slug);
      loaded := runtime.LoadPlugin(RR.Plugin(id, r.slug, code), ok.buildNew);
      LoadIgnoresFlag(RR.Next(s0, RR.Detach(r.slug)), RR.Plugin(id, r.slug, code), ok.buildNew);
      hide RR.Next;
      assert runtime.State() == AfterLoad(s0, id, r, code, loaded);
      if !loaded && oldPool.Some? {
        var _ := runtime.LoadPlugin(PluginOf(id, r), ok.buildOld);
      }
    }

    // The new version could not be stored: hooks and runtime go back to the old one.
    method RollBack(id: string, r: Record, ok: Faults)
      requires Good(dispatcher.registrations)
      modifies this`records, runtime, dispatcher
      ensures Good(dispatcher.registrations)
      ensures Swapped(old(dispatcher.registrations), r.slug, RegistrationsOf(id, r), dispatcher.registrations)
      ensures runtime.State() == RR.Next(old(runtime.State()), RR.Load(PluginOf(id, r), ok.buildOld))
      ensures records == if (r.hash != "" || r.inline != "") && !ok.buildOld && ok.setStatus
                         then old(records)[id := r.(status := Broken)] else old(records)
    {
      hide RR.Next, Swapped, Good;
      dispatcher.SwapHooks(r.slug, RegistrationsOf(id, r));
      var restored := runtime.LoadPlugin(PluginOf(id, r), ok.buildOld);
      if !restored && ok.setStatus {
        records := records[id := r.(status := Broken)];
      }
    }

    /**
     HotReload. `spec` is the new manifest if it parses and is compatible; `code`
     is the new binary.
     */
    method HotReload(id: string, spec: Option<Spec>, code: string, ok: Faults) returns (out: Result<(), ReloadError>)
      requires Good(dispatcher.registrations)
      modifies this`records, this`blobs, this`drained, runtime, dispatcher
      ensures Good(dispatcher.registrations)
      ensures blobs == old(blobs) || blobs == old(blobs) + {code}
      ensures ReloadDecided(out, old(records), old(blobs), id, spec, code, ok)
      ensures out.Err? && out.error != LoadFailed && out.error != PersistFailed ==>
        && runtime.State() == old(runtime.State()) && dispatcher.registrations == old(dispatcher.registrations)
        && records == old(records) && drained == old(drained)
      // The new version cannot be loaded: the old one is loaded again, if it had a pool.
      ensures out == Err(LoadFailed) ==> var r, s := old(records)[id], old(runtime.State());
        && dispatcher.registrations == old(dispatcher.registrations) && records == old(records) && drained == old(drained)
        && runtime.State() == if r.slug in s.plugins then AfterRestore(s, id, r, code, false, ok.buildOld)
                              else AfterLoad(s, id, r, code, false)
      // The new version cannot be stored: hooks and runtime are swapped back.
      ensures out == Err(PersistFailed) ==> var r := old(records)[id];
        && drained == old(drained)
        && SwappedTwice(old(dispatcher.registrations), r.slug, Registrations(spec.value.hooks, id), RegistrationsOf(id, r),
                        dispatcher.registrations)
        && runtime.State() == AfterRestore(old(runtime.State()), id, r, code, true, ok.buildOld)
        && records == if (r.hash != "" || r.inline != "") && !ok.buildOld && ok.setStatus
                      then old(records)[id := r.(status := Broken)] else old(records)
      // Done: new hooks, new code, new row, and the old pool drained.
      ensures out.Ok? ==> RowReplaced(old(records), records, id, spec.value, code) && (code == "" || code in blobs)
      ensures out.Ok? && ok.fetch && ok.store ==> Refusal(id, spec, code, ok).None?
      ensures out.Ok? ==> var r, s := old(records)[id], old(runtime.State());
        && Swapped(old(dispatcher.registrations), r.slug, Registrations(spec.value.hooks, id), dispatcher.registrations)
        && runtime.State() == AfterLoad(s, id, r, code, true)
        && drained == old(drained) + if r.slug in s.plugins then {s.plugins[r.slug].version} else {}
    {
      hide AfterLoad, AfterRestore, Swapped, Good, Configured, ReloadDecided, RowReplaced;
      var refusal := Refusal(id, spec, code, ok);
      Decided(records, blobs, id, spec, code, ok, refusal);
      if refusal.Some? {
        return Err(refusal.value);
      }
      var r := records[id];
      if code != "" {
        blobs := blobs + {code};
      }
      ghost var s0 := runtime.State();
      var oldPool, loaded := LoadNew(id, r, code, ok);
      if !loaded {
        return Err(LoadFailed);
      }
      ghost var t0 := dispatcher.registrations;
      dispatcher.SwapHooks(r.slug, Registrations(spec.value.hooks, id));
      ghost var t1 := dispatcher.registrations;
      if !ok.persist {
        RollBack(id, r, ok);
        AfterRestoreIs(s0, id, r, code, true, ok.buildOld);
        assert Swapped(t0, r.slug, Registrations(spec.value.hooks, id), t1);
        return Err(PersistFailed);
      }
      ghost var before := records;
      records := records[id := Updated(r, spec.value, code)];
      UpdatedRow(before, id, spec.value, code);
      if oldPool.Some? {
        drained := drained + {oldPool.value.version};
      }
      return Ok(());
    }

    /**
     UpdateConfig with reloadWithConfig: store the new configuration and, for a
     running plugin, load it again; if that fails, store the old configuration
     back. `undone` says whether that last store succeeds.
     */
    method UpdateConfig(id: string, config: map<string, string>, ok: Faults, undone: bool) returns (out: Result<(), ReloadError>)
      requires Good(dispatcher.registrations)
      modifies this`records, runtime, dispatcher
      ensures Good(dispatcher.registrations)
      ensures ConfigDecided(out, old(records), old(blobs), id, config, ok)
      ensures out.Err? && out.error != CodeMissing && out.error != LoadFailed ==>
        && records == old(records) && runtime.State() == old(runtime.State())
        && dispatcher.registrations == old(dispatcher.registrations)
      ensures out.Err? && (out.error == CodeMissing || out.error == LoadFailed) ==> var r := old(records)[id];
        && records == old(records)[id := if undone then r else r.(config := config)]
        && dispatcher.registrations == old(dispatcher.registrations)
        && runtime.State() == if out.error == CodeMissing then old(runtime.State())
                              else RR.Next(old(runtime.State()), RR.Load(RR.Plugin(id, r.slug, if r.inline != "" then r.inline else r.hash), false))
      ensures out.Ok? ==> var r := old(records)[id];
        && records == old(records)[id := r.(config := config)]
        && if r.status != Enabled || r.builtIn then runtime.State() == old(runtime.State()) && dispatcher.registrations == old(dispatcher.registrations)
           else && runtime.State() == RR.Next(old(runtime.State()),
                     RR.Load(RR.Plugin(id, r.slug, if r.inline != "" then r.inline else r.hash), true))
                && if r.spec.None? then dispatcher.registrations == old(dispatcher.registrations)
                   else Swapped(old(dispatcher.registrations), r.slug, RegistrationsOf(id, r), dispatcher.registrations)
    {
      hide RR.Next, Swapped, Good, ConfigDecided, Configured, ReloadFailure;
      ConfigDecidedBy(records, blobs, id, config, ok);
      if id !in records {
        return Err(NotFound);
      }
      var r := records[id];
      if r.spec.Some? && !Configured(r.spec.value, config) {
        return Err(MissingConfig);
      }
      if !ok.persist {
        return Err(PersistFailed);
      }
      records := records[id := r.(config := config)];
      if Running(r) {
        var failure := Reload(id, r, ok);
        if failure.Some? {
          if undone {
            records := records[id := r];
          }
          return Err(failure.value);
        }
      }
      return Ok(());
    }

    // reloadWithConfig
    method Reload(id: string, r: Record, ok: Faults) returns (failure: Option<ReloadError>)
      requires Good(dispatcher.registrations)
      modifies runtime, dispatcher
      ensures Good(dispatcher.registrations)
      ensures failure == ReloadFailure(id, r, blobs, ok)
      ensures failure.Some? ==> failure.value == CodeMissing || failure.value == LoadFailed
      ensures failure == Some(CodeMissing) ==> runtime.State() == old(runtime.State())
      ensures failure == Some(LoadFailed) ==>
        runtime.State() == RR.Next(old(runtime.State()), RR.Load(ConfigPlugin(id, r), false))
      ensures failure.None? ==> runtime.State() == RR.Next(old(runtime.State()), RR.Load(ConfigPlugin(id, r), true))
      ensures if failure.Some? || r.spec.None? then dispatcher.registrations == old(dispatcher.registrations)
              else Swapped(old(dispatcher.registrations), r.slug, RegistrationsOf(id, r), dispatcher.registrations)
    {
      hide Swapped, Good;
      if r.inline == "" && r.hash != "" && (r.hash !in blobs || !ok.fetch) {
        return Some(CodeMissing);
      }
      ghost var s0 := runtime.State();
      var loaded := runtime.LoadPlugin(ConfigPlugin(id, r), ok.buildNew);
      if !loaded {
        return Some(LoadFailed);
      }
      LoadIgnoresFlag(s0, ConfigPlugin(id, r), ok.buildNew);
      if r.spec.Some? {
        dispatcher.SwapHooks(r.slug, RegistrationsOf(id, r));
      }
      return None;
    }
  }

  // The plugin can be reloaded at all.
  predicate Reloadable(records: Repository, id: string) {
    id in records && !records[id].builtIn && records[id].status == Enabled
  }

  // The new manifest is for this plugin.
  predicate Matches(records: Repository, id: string, spec: Option<Spec>) {
    Reloadable(records, id) && spec.Some? && spec.value.hooks.slug == records[id].slug
  }

  // ... and the stored configuration has a value for each key it requires.
  predicate Fits(records: Repository, id: string, spec: Option<Spec>) {
    Matches(records, id, spec)
    && forall key :: key in spec.value.required ==> key in records[id].config && records[id].config[key] != ""
  }

  // ... and the old code can be had, in case it is needed again.
  predicate Prepared(records: Repository, blobs: set<string>, id: string, spec: Option<Spec>, code: string, ok: Faults) {
    Fits(records, id, spec) && |code| <= 52_428_800 && (records[id].hash == "" || (records[id].hash in blobs && ok.fetch))
  }

  /** Which way a hot reload ends, outcome by outcome, on what it was given and found. */
  ghost predicate ReloadDecided(out: Result<(), ReloadError>, records: Repository, blobs: set<string>,
                                id: string, spec: Option<Spec>, code: string, ok: Faults)
  {
    && (out == Err(NotFound) <==> id !in records)
    && (out == Err(BuiltIn) <==> id in records && records[id].builtIn)
    && (out == Err(NotRunning) <==> id in records && !records[id].builtIn && records[id].status != Enabled)
    && (out == Err(BadManifest) <==> Reloadable(records, id) && spec.None?)
    && (out == Err(SlugMismatch) <==> Reloadable(records, id) && spec.Some? && spec.value.hooks.slug != records[id].slug)
    && (out == Err(MissingConfig) <==> Matches(records, id, spec) && !Fits(records, id, spec))
    && (out == Err(TooLarge) <==> Fits(records, id, spec) && |code| > 52_428_800)
    && (out == Err(CodeMissing) <==>
          Fits(records, id, spec) && |code| <= 52_428_800 && records[id].hash != "" && (records[id].hash !in blobs || !ok.fetch))
    && (out == Err(StoreFailed) <==> Prepared(records, blobs, id, spec, code, ok) && code != "" && !ok.store)
    && (out == Err(LoadFailed) <==> Prepared(records, blobs, id, spec, code, ok) && code != "" && ok.store && !ok.buildNew)
    && (out == Err(PersistFailed) <==>
          Prepared(records, blobs, id, spec, code, ok) && (code == "" || (ok.store && ok.buildNew)) && !ok.persist)
    && (out.Ok? <==>
          Prepared(records, blobs, id, spec, code, ok) && (code == "" || (ok.store && ok.buildNew)) && ok.persist)
  }

  // The outcome that follows from the checks made before anything is changed.
  lemma Decided(records: Repository, blobs: set<string>, id: string, spec: Option<Spec>, code: string, ok: Faults,
                refusal: Option<ReloadError>)
    requires refusal == RefusalOf(records, blobs, id, spec, code, ok)
    ensures refusal.Some? ==> ReloadDecided(Err(refusal.value), records, blobs, id, spec, code, ok)
    ensures refusal.Some? ==> refusal.value != LoadFailed && refusal.value != PersistFailed
    ensures refusal.None? ==> code == "" || ok.store
    ensures refusal.None? && code != "" && !ok.buildNew ==> ReloadDecided(Err(LoadFailed), records, blobs, id, spec, code, ok)
    ensures refusal.None? && (code == "" || ok.buildNew) && !ok.persist ==>
      ReloadDecided(Err(PersistFailed), records, blobs, id, spec, code, ok)
    ensures refusal.None? && (code == "" || ok.buildNew) && ok.persist ==>
      ReloadDecided(Ok(()), records, blobs, id, spec, code, ok)
  {
  }

  /**
   What a successful hot reload does to the stored rows: the plugin's row keeps its
   slug, configuration and status and has the new manifest and the new code; every
   other row is as it was.
   */
  ghost predicate RowReplaced(records: Repository, records': Repository, id: string, spec: Spec, code: string) {
    && id in records && records'.Keys == records.Keys && (forall x :: x in records && x != id ==> records'[x] == records[x])
    && records'[id] == Record(records[id].slug, Some(spec), "", code, records[id].config, records[id].status, records[id].builtIn)
  }

  lemma UpdatedRow(records: Repository, id: string, spec: Spec, code: string)
    requires id in records
    ensures RowReplaced(records, records[id := Updated(records[id], spec, code)], id, spec, code)
  {
  }

  // The rows of which UpdateConfig stores the configuration.
  predicate Accepts(records: Repository, id: string, config: map<string, string>) {
    id in records
    && (records[id].spec.Some? ==>
          forall key :: key in records[id].spec.value.required ==> key in config && config[key] != "")
  }

  // The plugin is loaded again, if its code can be had.
  predicate Reloads(records: Repository, id: string, config: map<string, string>, ok: Faults) {
    Accepts(records, id, config) && ok.persist && records[id].status == Enabled && !records[id].builtIn
  }

  predicate CodeGone(r: Record, blobs: set<string>, ok: Faults) {
    r.inline == "" && r.hash != "" && (r.hash !in blobs || !ok.fetch)
  }

  /** Which way a change of configuration ends, outcome by outcome. */
  ghost predicate ConfigDecided(out: Result<(), ReloadError>, records: Repository, blobs: set<string>,
                                id: string, config: map<string, string>, ok: Faults)
  {
    && (out == Err(NotFound) <==> id !in records)
    && (out == Err(MissingConfig) <==> id in records && !Accepts(records, id, config))
    && (out == Err(PersistFailed) <==> Accepts(records, id, config) && !ok.persist)
    && (out == Err(CodeMissing) <==> Reloads(records, id, config, ok) && CodeGone(records[id], blobs, ok))
    && (out == Err(LoadFailed) <==>
          Reloads(records, id, config, ok) && !CodeGone(records[id], blobs, ok)
          && (records[id].inline != "" || records[id].hash != "") && !ok.buildNew)
    && (out.Err? ==> out.error in {NotFound, MissingConfig, PersistFailed, CodeMissing, LoadFailed})
  }

  predicate Running(r: Record) {
    r.status == Enabled && !r.builtIn
  }

  // What a configuration reload loads: the inline code if there is any, else the code by hash.
  function ConfigPlugin(id: string, r: Record): RR.Plugin {
    RR.Plugin(id, r.slug, if r.inline != "" then r.inline else r.hash)
  }

  function ReloadFailure(id: string, r: Record, blobs: set<string>, ok: Faults): Option<ReloadError> {
    if r.inline == "" && r.hash != "" && (r.hash !in blobs || !ok.fetch) then Some(CodeMissing)
    else if ConfigPlugin(id, r).wasm != "" && !ok.buildNew then Some(LoadFailed)
    else None
  }

  // The outcome that follows from the checks in their order.
  lemma ConfigDecidedBy(records: Repository, blobs: set<string>, id: string, config: map<string, string>, ok: Faults)
    ensures id !in records ==> ConfigDecided(Err(NotFound), records, blobs, id, config, ok)
    ensures id in records ==> var r := records[id];
      var configured := r.spec.Some? ==> Configured(r.spec.value, config);
      && (!configured ==> ConfigDecided(Err(MissingConfig), records, blobs, id, config, ok))
      && (configured && !ok.persist ==> ConfigDecided(Err(PersistFailed), records, blobs, id, config, ok))
      && (configured && ok.persist && Running(r) && ReloadFailure(id, r, blobs, ok).Some? ==>
            ConfigDecided(Err(ReloadFailure(id, r, blobs, ok).value), records, blobs, id, config, ok))
      && (configured && ok.persist && !(Running(r) && ReloadFailure(id, r, blobs, ok).Some?) ==>
            ConfigDecided(Ok(()), records, blobs, id, config, ok))
  {
  }

  ghost predicate SwappedTwice(t: Table, slug: string, newRegs: seq<Registration>, oldRegs: seq<Registration>, t': Table) {
    exists t1 :: Swapped(t, slug, newRegs, t1) && Swapped(t1, slug, oldRegs, t')
  }

  lemma AfterRestoreIs(s: RR.Runtime, id: string, r: Record, code: string, built: bool, rebuilt: bool)
    ensures AfterRestore(s, id, r, code, built, rebuilt) ==
            RR.Next(AfterLoad(s, id, r, code, built), RR.Load(PluginOf(id, r), rebuilt))
  {
  }

  // Whether a pool could be built does not matter to a plugin without code.
  lemma LoadIgnoresFlag(s: RR.Runtime, p: RR.Plugin, created: bool)
    ensures RR.Next(s, RR.Load(p, created)) == RR.Next(s, RR.Load(p, p.wasm == "" || created))
  {
  }

  /**
   The hooks after a hot reload that failed to persist: the table is what it was,
   as multisets, exactly when what the plugin had registered was what its old
   manifest declares.
   */
  lemma PersistFailureRestoresHooks(t: Table, id: string, r: Record, spec: Spec, t': Table)
    requires spec.hooks.slug == r.slug && (r.spec.Some? ==> r.spec.value.hooks.slug == r.slug)
    requires SwappedTwice(t, r.slug, Registrations(spec.hooks, id), RegistrationsOf(id, r), t')
    ensures SameEntries(t, t') <==> Holds(t, r.slug, RegistrationsOf(id, r))
  {
    var t1 :| Swapped(t, r.slug, Registrations(spec.hooks, id), t1) && Swapped(t1, r.slug, RegistrationsOf(id, r), t');
    SwapBack(t, r.slug, Registrations(spec.hooks, id), t1, RegistrationsOf(id, r), t');
  }

  // A pool nothing refers to any more and that nobody drains.
  predicate Stranded(s: RR.Runtime, pool: RR.PoolRef, drained: set<nat>) {
    && pool !in s.plugins.Values && pool !in s.retired.Values && pool.version !in drained
  }

  /**
   Where the runtime is after a hot reload that failed: the old code is served
   again by a new pool when it can be built, and the plugin has no pool when it
   cannot; either way the pool that served before the reload is stranded.
   */
  lemma FailedReloadRuntime(before: seq<RR.Event>, id: string, r: Record, code: string, built: bool, rebuilt: bool, drained: set<nat>)
    requires var s0 := RR.Run(RR.Empty, before);
      r.slug in s0.plugins && s0.plugins[r.slug].version !in drained
    requires (r.hash != "" || r.inline != "") && (built || code != "")
    ensures var s0 := RR.Run(RR.Empty, before);
      var s := AfterRestore(s0, id, r, code, built, rebuilt);
      && (rebuilt ==> r.slug in s.plugins && s.plugins[r.slug].wasm == if r.hash != "" then r.hash else r.inline)
      && (!rebuilt ==> r.slug !in s.plugins)
      && Stranded(s, s0.plugins[r.slug], drained)
  {
    var s0 := RR.Run(RR.Empty, before);
    RR.RunKeepsInv(RR.Empty, before);
    var s1 := RR.Next(s0, RR.Detach(r.slug));
    var s2 := RR.Next(s1, RR.Load(RR.Plugin(id, r.slug, code), built));
    RR.NextKeepsInv(s0, RR.Detach(r.slug));
    RR.NextKeepsInv(s1, RR.Load(RR.Plugin(id, r.slug, code), built));
    var pool := s0.plugins[r.slug];
    assert RR.PinHolds(s0, pool, RR.Serving);
    RR.PinStep(s0, pool, RR.Serving, RR.Detach(r.slug));
    RR.PinStep(s1, pool, RR.Gone, RR.Load(RR.Plugin(id, r.slug, code), built));
    RR.PinStep(s2, pool, RR.Gone, RR.Load(PluginOf(id, r), rebuilt));
  }

  /**
   A configuration reload of a plugin with a pool: a flow begun before it keeps
   its pool either way, but calls reach any pool at all only if the new one could
   be built. The roll-back of the stored configuration does not bring one back.
   */
  lemma ConfigReloadServes(before: seq<RR.Event>, id: string, r: Record, built: bool)
    requires r.slug in RR.Run(RR.Empty, before).plugins && (r.inline != "" || r.hash != "")
    ensures var s0 := RR.Run(RR.Empty, before);
      var s, flow := RR.Next(s0, RR.Load(ConfigPlugin(id, r), built)), Some(RR.Capture(s0));
      && (built ==> r.slug in s.plugins && s.plugins[r.slug].wasm == if r.inline != "" then r.inline else r.hash)
      && RR.Resolve(s, flow, r.slug) == Some(s0.plugins[r.slug])
      && (RR.CallTarget(s, flow, r.slug).Some? <==> built) && (RR.CallTarget(s, None, r.slug).Some? <==> built)
  {
    var s0 := RR.Run(RR.Empty, before);
    assert RR.Run(s0, [RR.Load(ConfigPlugin(id, r), built)]) == RR.Next(s0, RR.Load(ConfigPlugin(id, r), built));
    RR.PinnedAcrossLoads(before, [RR.Load(ConfigPlugin(id, r), built)], r.slug);
  }

  // ---- Repository, runtime and dispatcher agree ----

  /**
   A running plugin's row agrees with what is running: its hooks are those of its
   manifest, it has a pool exactly when it has code, and the pool runs that code.
   */
  ghost predicate Agrees(id: string, r: Record, s: RR.Runtime, t: Table) {
    && Holds(t, r.slug, RegistrationsOf(id, r))
    && r.slug in s.metadata && s.metadata[r.slug] == RR.Plugin(id, r.slug, if r.hash != "" then r.hash else r.inline)
    && RR.Current(s, r.slug).Some? == (r.hash != "" || r.inline != "")
    && (r.slug in s.plugins ==> s.plugins[r.slug].wasm == if r.hash != "" then r.hash else r.inline)
  }

  // No other plugin's pool or registrations have changed.
  ghost predicate OthersKept(slug: string, s: RR.Runtime, t: Table, s': RR.Runtime, t': Table) {
    && (forall b :: b != slug ==> RR.Current(s', b) == RR.Current(s, b) && (b in s'.metadata <==> b in s.metadata))
    && (forall h: string, x: Registration :: x.slug != slug ==> Entries(t', h)[x] == Entries(t, h)[x])
  }

  lemma SwappedHolds(t: Table, slug: string, regs: seq<Registration>, t': Table)
    requires OfPlugin(regs, slug) && Swapped(t, slug, regs, t')
    ensures Holds(t', slug, regs)
    ensures forall h: string, x: Registration :: x.slug != slug ==> Entries(t', h)[x] == Entries(t, h)[x]
  {
    hide Swapped, Entries;
    forall h: string, x: Registration
      ensures Entries(t', h)[x] == (if x.slug == slug then 0 else Entries(t, h)[x])
                                   + (if x.hook == h then multiset(regs)[x] else 0)
      ensures x.slug != slug ==> multiset(regs)[x] == 0
    {
      SwapExact(t, slug, regs, t', h, x);
      assert x.slug != slug ==> x !in regs;
    }
  }

  /** A hot reload that succeeds leaves the new row in agreement, whatever the state before. */
  lemma ReloadAgrees(s: RR.Runtime, t: Table, id: string, r: Record, spec: Spec, code: string, t': Table)
    requires spec.hooks.slug == r.slug && Swapped(t, r.slug, Registrations(spec.hooks, id), t')
    ensures Agrees(id, Updated(r, spec, code), AfterLoad(s, id, r, code, true), t')
    ensures OthersKept(r.slug, s, t, AfterLoad(s, id, r, code, true), t')
  {
    hide Swapped, Holds, Entries;
    SwappedHolds(t, r.slug, Registrations(spec.hooks, id), t');
  }

  /**
   A hot reload that fails at the load leaves the old row in agreement exactly when
   the old code, if any, can be built once more.
   */
  lemma FailedLoadAgrees(s: RR.Runtime, t: Table, id: string, r: Record, code: string, rebuilt: bool)
    requires Agrees(id, r, s, t) && code != ""
    ensures var s' := if r.slug in s.plugins then AfterRestore(s, id, r, code, false, rebuilt)
                      else AfterLoad(s, id, r, code, false);
      && (Agrees(id, r, s', t) <==> (r.hash == "" && r.inline == "") || rebuilt)
      && OthersKept(r.slug, s, t, s', t)
  {
    hide Holds, Entries, RegistrationsOf, RR.Next;
    var s1 := RR.Next(s, RR.Detach(r.slug));
    var load := RR.Plugin(id, r.slug, code);
    DetachEffect(s, r.slug);
    LoadEffect(s1, load, false);
    LoadEffect(RR.Next(s1, RR.Load(load, false)), PluginOf(id, r), rebuilt);
  }

  /** So does one that fails at the store, whose hooks and code are swapped back. */
  lemma FailedStoreAgrees(s: RR.Runtime, t: Table, id: string, r: Record, spec: Spec, code: string, rebuilt: bool, t': Table)
    requires Agrees(id, r, s, t)
    requires spec.hooks.slug == r.slug && (r.spec.Some? ==> r.spec.value.hooks.slug == r.slug)
    requires SwappedTwice(t, r.slug, Registrations(spec.hooks, id), RegistrationsOf(id, r), t')
    ensures var s' := AfterRestore(s, id, r, code, true, rebuilt);
      && (Agrees(id, r, s', t') <==> (r.hash == "" && r.inline == "") || rebuilt)
      && OthersKept(r.slug, s, t, s', t')
  {
    hide SwappedTwice, Swapped, Holds, Entries, RegistrationsOf, RR.Next;
    HooksAfterFailure(t, id, r, spec, t');
    var s1 := RR.Next(s, RR.Detach(r.slug));
    var load := RR.Plugin(id, r.slug, code);
    DetachEffect(s, r.slug);
    LoadEffect(s1, load, true);
    LoadEffect(RR.Next(s1, RR.Load(load, true)), PluginOf(id, r), rebuilt);
  }

  // What a load and a detach do to the pools and the metadata, plugin by plugin.
  lemma LoadEffect(s: RR.Runtime, p: RR.Plugin, created: bool)
    ensures var s' := RR.Next(s, RR.Load(p, created));
      && RR.Current(s', p.slug).Some? == (p.wasm != "" && created)
      && (p.slug in s'.plugins ==> s'.plugins[p.slug].wasm == p.wasm)
      && (p.slug in s'.metadata <==> p.wasm == "" || created || (p.slug in s.metadata && p.slug !in s.plugins))
      && (p.slug in s'.metadata ==> s'.metadata[p.slug] == if p.wasm == "" || created then p else s.metadata[p.slug])
      && forall b :: b != p.slug ==> RR.Current(s', b) == RR.Current(s, b) && (b in s'.metadata <==> b in s.metadata)
  {
  }

  lemma DetachEffect(s: RR.Runtime, slug: string)
    ensures var s' := RR.Next(s, RR.Detach(slug));
      && slug !in s'.plugins && s'.metadata == s.metadata
      && forall b :: b != slug ==> RR.Current(s', b) == RR.Current(s, b)
  {
  }

  lemma HooksAfterFailure(t: Table, id: string, r: Record, spec: Spec, t': Table)
    requires Holds(t, r.slug, RegistrationsOf(id, r))
    requires spec.hooks.slug == r.slug && (r.spec.Some? ==> r.spec.value.hooks.slug == r.slug)
    requires t' == t || SwappedTwice(t, r.slug, Registrations(spec.hooks, id), RegistrationsOf(id, r), t')
    ensures Holds(t', r.slug, RegistrationsOf(id, r))
    ensures forall h: string, x: Registration :: x.slug != r.slug ==> Entries(t', h)[x] == Entries(t, h)[x]
  {
    hide SwappedTwice, Swapped, Holds, Entries;
    if t' != t {
      var t1 := Between(t, r.slug, Registrations(spec.hooks, id), RegistrationsOf(id, r), t');
      SwappedHolds(t, r.slug, Registrations(spec.hooks, id), t1);
      SwappedHolds(t1, r.slug, RegistrationsOf(id, r), t');
    }
  }

  lemma Between(t: Table, slug: string, newRegs: seq<Registration>, oldRegs: seq<Registration>, t': Table) returns (t1: Table)
    requires SwappedTwice(t, slug, newRegs, oldRegs, t')
    ensures Swapped(t, slug, newRegs, t1) && Swapped(t1, slug, oldRegs, t')
  {
    t1 :| Swapped(t, slug, newRegs, t1) && Swapped(t1, slug, oldRegs, t');
  }
}
