/**
 The registration table of internal/plugin/dispatcher.go and the registration
 sets of internal/plugin/manifest.go. Sorting is only known to order by
 priority: it need not keep the order of equal priorities.
 */
module HookTable {
  const DEFAULT_PRIORITY: int := 50

  datatype HookType = Sync | Async

  datatype Registration = Registration(pluginId: string, slug: string, hook: string, hookType: HookType,
                                       priority: int, func: string)

  type Table = map<string, seq<Registration>>

  function List(t: Table, hook: string): seq<Registration> {
    if hook in t then t[hook] else []
  }

  function Entries(t: Table, hook: string): multiset<Registration> {
    multiset(List(t, hook))
  }

  predicate Sorted(regs: seq<Registration>) {
    forall i, j :: 0 <= i < j < |regs| ==> regs[i].priority <= regs[j].priority
  }

  // Every list is non-empty, in priority order, and filed under its own hook.
  ghost predicate Good(t: Table) {
    forall h :: h in t ==> t[h] != [] && Sorted(t[h]) && forall r :: r in t[h] ==> r.hook == h
  }

  // ---- Filters ----

  function Without(regs: seq<Registration>, slug: string): seq<Registration> {
    if regs == [] then []
    else
      var r := regs[|regs| - 1];
      Without(regs[..|regs| - 1], slug) + (if r.slug == slug then [] else [r])
  }

  function ForHook(regs: seq<Registration>, hook: string): seq<Registration> {
    if regs == [] then []
    else
      var r := regs[|regs| - 1];
      ForHook(regs[..|regs| - 1], hook) + (if r.hook == hook then [r] else [])
  }

  lemma {:induction false} WithoutCount(regs: seq<Registration>, slug: string, r: Registration)
    ensures multiset(Without(regs, slug))[r] == if r.slug == slug then 0 else multiset(regs)[r]
  {
    if regs != [] {
      var n := |regs| - 1;
      WithoutCount(regs[..n], slug, r);
      assert regs == regs[..n] + [regs[n]];
    }
  }

  lemma {:induction false} ForHookCount(regs: seq<Registration>, hook: string, r: Registration)
    ensures multiset(ForHook(regs, hook))[r] == if r.hook == hook then multiset(regs)[r] else 0
  {
    if regs != [] {
      var n := |regs| - 1;
      ForHookCount(regs[..n], hook, r);
      assert regs == regs[..n] + [regs[n]];
    }
  }

  lemma {:induction false} WithoutSorted(regs: seq<Registration>, slug: string)
    requires Sorted(regs)
    ensures Sorted(Without(regs, slug))
    ensures forall r :: r in Without(regs, slug) ==> r in regs && r.slug != slug
  {
    if regs != [] {
      var n := |regs| - 1;
      WithoutSorted(regs[..n], slug);
      assert forall r :: r in regs[..n] ==> r.priority <= regs[n].priority;
    }
  }

  lemma {:induction false} ForHookMembers(regs: seq<Registration>, hook: string)
    ensures forall r :: r in ForHook(regs, hook) <==> r in regs && r.hook == hook
  {
    if regs != [] {
      var n := |regs| - 1;
      ForHookMembers(regs[..n], hook);
      assert regs == regs[..n] + [regs[n]];
    }
  }

  // ---- Operations, as relations between the table before and after ----

  ghost predicate Registered(t: Table, regs: seq<Registration>, t': Table) {
    && (forall h :: h in t' <==> h in t || ForHook(regs, h) != [])
    && (forall h :: Entries(t', h) == Entries(t, h) + multiset(ForHook(regs, h)))
    && (forall h :: if ForHook(regs, h) != [] then Sorted(List(t', h)) else List(t', h) == List(t, h))
  }

  ghost predicate Unregistered(t: Table, slug: string, t': Table) {
    && (forall h :: List(t', h) == Without(List(t, h), slug))
    && (forall h :: h in t' ==> t'[h] != [])
  }

  ghost predicate Swapped(t: Table, slug: string, regs: seq<Registration>, t': Table) {
    exists mid :: Unregistered(t, slug, mid) && Registered(mid, regs, t')
  }

  lemma RegisteredKeepsGood(t: Table, regs: seq<Registration>, t': Table)
    requires Good(t) && Registered(t, regs, t')
    ensures Good(t')
  {
    forall h | h in t'
      ensures t'[h] != [] && Sorted(t'[h]) && forall r :: r in t'[h] ==> r.hook == h
    {
      ForHookMembers(regs, h);
      assert Entries(t', h) == Entries(t, h) + multiset(ForHook(regs, h));
      forall r | r in t'[h]
        ensures r.hook == h
      {
        assert r in Entries(t', h);
      }
      assert |t'[h]| == |Entries(t', h)| == |List(t, h)| + |ForHook(regs, h)|;
    }
  }

  lemma UnregisteredKeepsGood(t: Table, slug: string, t': Table)
    requires Good(t) && Unregistered(t, slug, t')
    ensures Good(t')
  {
    forall h | h in t'
      ensures Sorted(t'[h]) && forall r :: r in t'[h] ==> r.hook == h
    {
      assert List(t', h) == Without(List(t, h), slug);
      WithoutSorted(List(t, h), slug);
    }
  }

  datatype Op =
    | Register(regs: seq<Registration>)
    | Unregister(slug: string)
    | Swap(slug: string, regs: seq<Registration>)

  ghost predicate Does(t: Table, op: Op, t': Table) {
    match op
    case Register(regs) => Registered(t, regs, t')
    case Unregister(slug) => Unregistered(t, slug, t')
    case Swap(slug, regs) => Swapped(t, slug, regs, t')
  }

  lemma DoesKeepsGood(t: Table, op: Op, t': Table)
    requires Good(t) && Does(t, op, t')
    ensures Good(t')
  {
    match op
    case Register(regs) => RegisteredKeepsGood(t, regs, t');
    case Unregister(slug) => UnregisteredKeepsGood(t, slug, t');
    case Swap(slug, regs) =>
      var mid :| Unregistered(t, slug, mid) && Registered(mid, regs, t');
      UnregisteredKeepsGood(t, slug, mid);
      RegisteredKeepsGood(mid, regs, t');
  }

  /** After any run of operations on an empty table, every list is non-empty, sorted and filed under its own hook. */
  lemma {:induction false} RunKeepsGood(tables: seq<Table>, ops: seq<Op>)
    requires |tables| == |ops| + 1 && tables[0] == map[]
    requires forall i :: 0 <= i < |ops| ==> Does(tables[i], ops[i], tables[i + 1])
    ensures Good(tables[|ops|])
  {
    if ops != [] {
      var n := |ops| - 1;
      RunKeepsGood(tables[..n + 1], ops[..n]);
      DoesKeepsGood(tables[n], ops[n], tables[n + 1]);
    }
  }

  // ---- What a swap does ----

  /**
   A swap takes out all the plugin's registrations and puts in the new ones; of
   every other plugin each registration keeps its number, whatever the sort does.
   */
  lemma SwapExact(t: Table, slug: string, regs: seq<Registration>, t': Table, hook: string, r: Registration)
    requires Swapped(t, slug, regs, t')
    ensures Entries(t', hook)[r] == (if r.slug == slug then 0 else Entries(t, hook)[r])
                                  + (if r.hook == hook then multiset(regs)[r] else 0)
  {
    var mid :| Unregistered(t, slug, mid) && Registered(mid, regs, t');
    assert List(mid, hook) == Without(List(t, hook), slug);
    assert Entries(t', hook) == Entries(mid, hook) + multiset(ForHook(regs, hook));
    WithoutCount(List(t, hook), slug, r);
    ForHookCount(regs, hook, r);
  }

  // The plugin's own registrations in the table are exactly these.
  ghost predicate Holds(t: Table, slug: string, regs: seq<Registration>) {
    forall h: string, r: Registration :: r.slug == slug ==> Entries(t, h)[r] == if r.hook == h then multiset(regs)[r] else 0
  }

  ghost predicate SameEntries(t: Table, t': Table) {
    forall h: string, r: Registration :: Entries(t', h)[r] == Entries(t, h)[r]
  }

  predicate OfPlugin(regs: seq<Registration>, slug: string) {
    forall i :: 0 <= i < |regs| ==> regs[i].slug == slug
  }

  /**
   Swapping to a new set of registrations and back gives the table back, as
   multisets, exactly when the set swapped back in is what the plugin had
   registered before.
   */
  lemma SwapBack(t: Table, slug: string, newRegs: seq<Registration>, t1: Table, oldRegs: seq<Registration>, t2: Table)
    requires OfPlugin(newRegs, slug) && OfPlugin(oldRegs, slug)
    requires Swapped(t, slug, newRegs, t1) && Swapped(t1, slug, oldRegs, t2)
    ensures SameEntries(t, t2) <==> Holds(t, slug, oldRegs)
  {
    hide Swapped, Entries;
    if SameEntries(t, t2) {
      forall h: string, r: Registration | r.slug == slug
        ensures Entries(t, h)[r] == if r.hook == h then multiset(oldRegs)[r] else 0
      {
        TwoSwaps(t, slug, newRegs, t1, oldRegs, t2, h, r);
        assert Entries(t2, h)[r] == Entries(t, h)[r];
      }
    }
    if Holds(t, slug, oldRegs) {
      forall h: string, r: Registration
        ensures Entries(t2, h)[r] == Entries(t, h)[r]
      {
        TwoSwaps(t, slug, newRegs, t1, oldRegs, t2, h, r);
        assert r.slug == slug ==> Entries(t, h)[r] == if r.hook == h then multiset(oldRegs)[r] else 0;
      }
    }
  }

  lemma TwoSwaps(t: Table, slug: string, newRegs: seq<Registration>, t1: Table, oldRegs: seq<Registration>, t2: Table,
                 h: string, r: Registration)
    requires OfPlugin(newRegs, slug) && OfPlugin(oldRegs, slug)
    requires Swapped(t, slug, newRegs, t1) && Swapped(t1, slug, oldRegs, t2)
    ensures Entries(t2, h)[r] == if r.slug != slug then Entries(t, h)[r] else if r.hook == h then multiset(oldRegs)[r] else 0
  {
    hide Swapped, Entries;
    SwapExact(t, slug, newRegs, t1, h, r);
    SwapExact(t1, slug, oldRegs, t2, h, r);
    if r.slug != slug {
      assert r !in oldRegs && r !in newRegs;
    }
  }

  // ---- The registrations of a manifest ----

  datatype Manifest = Manifest(slug: string, syncHooks: seq<string>, asyncHooks: seq<string>, priorities: map<string, int>)

  function HookPriority(m: Manifest, hook: string): int {
    if hook in m.priorities then m.priorities[hook] else DEFAULT_PRIORITY
  }

  function RegistrationFor(m: Manifest, pluginId: string, hook: string, hookType: HookType): Registration {
    Registration(pluginId, m.slug, hook, hookType, HookPriority(m, hook), hook)
  }

  /**
   What registrations declare a manifest: one for every hook, the sync ones first,
   called by the hook's own name, under the manifest's slug, with the priority it
   gives the hook, or else 50.
   */
  ghost predicate Declares(regs: seq<Registration>, m: Manifest, pluginId: string) {
    && |regs| == |m.syncHooks| + |m.asyncHooks|
    && (forall i :: 0 <= i < |regs| ==>
          && regs[i].pluginId == pluginId && regs[i].slug == m.slug && regs[i].func == regs[i].hook
          && regs[i].priority == if regs[i].hook in m.priorities then m.priorities[regs[i].hook] else 50)
    && (forall i :: 0 <= i < |regs| ==>
          if i < |m.syncHooks| then regs[i].hook == m.syncHooks[i] && regs[i].hookType == Sync
          else regs[i].hook == m.asyncHooks[i - |m.syncHooks|] && regs[i].hookType == Async)
  }

  /** One registration for every declared hook. */
  method HookRegistrations(m: Manifest, pluginId: string) returns (regs: seq<Registration>)
    ensures regs == Registrations(m, pluginId)
    ensures Declares(regs, m, pluginId) && OfPlugin(regs, m.slug)
  {
    regs := [];
    for i := 0 to |m.syncHooks|
      invariant |regs| == i
      invariant forall j :: 0 <= j < i ==> regs[j] == RegistrationFor(m, pluginId, m.syncHooks[j], Sync)
    {
      regs := regs + [RegistrationFor(m, pluginId, m.syncHooks[i], Sync)];
    }
    for i := 0 to |m.asyncHooks|
      invariant |regs| == |m.syncHooks| + i
      invariant forall j :: 0 <= j < |m.syncHooks| ==> regs[j] == RegistrationFor(m, pluginId, m.syncHooks[j], Sync)
      invariant forall j :: 0 <= j < i ==>
        regs[|m.syncHooks| + j] == RegistrationFor(m, pluginId, m.asyncHooks[j], Async)
    {
      regs := regs + [RegistrationFor(m, pluginId, m.asyncHooks[i], Async)];
    }
  }

  function Registrations(m: Manifest, pluginId: string): (regs: seq<Registration>)
    ensures OfPlugin(regs, m.slug) && Declares(regs, m, pluginId)
  {
    seq(|m.syncHooks|, i requires 0 <= i < |m.syncHooks| => RegistrationFor(m, pluginId, m.syncHooks[i], Sync))
    + seq(|m.asyncHooks|, i requires 0 <= i < |m.asyncHooks| => RegistrationFor(m, pluginId, m.asyncHooks[i], Async))
  }

  /**
   After a swap to what a manifest declares, the plugin is in a hook's list as a
   sync handler exactly when the manifest declares the hook as a sync one, and as
   an async handler exactly when it declares it as an async one.
   */
  lemma SwapFollowsManifest(t: Table, m: Manifest, pluginId: string, regs: seq<Registration>, t': Table, hook: string)
    requires Declares(regs, m, pluginId) && Swapped(t, m.slug, regs, t')
    ensures (exists r :: r in List(t', hook) && r.slug == m.slug && r.hookType == Sync) <==> hook in m.syncHooks
    ensures (exists r :: r in List(t', hook) && r.slug == m.slug && r.hookType == Async) <==> hook in m.asyncHooks
  {
    hide Swapped;
    OwnEntries(t, m, pluginId, regs, t', hook);
    DeclaredTypes(regs, m, pluginId, hook);
    hide Declares, List;
    SameKinds(List(t', hook), regs, m.slug, hook, Sync);
    SameKinds(List(t', hook), regs, m.slug, hook, Async);
  }

  // The plugin's own entries in a list are those of the new registrations for the hook.
  lemma OwnEntries(t: Table, m: Manifest, pluginId: string, regs: seq<Registration>, t': Table, hook: string)
    requires Declares(regs, m, pluginId) && Swapped(t, m.slug, regs, t')
    ensures forall r: Registration :: r in List(t', hook) && r.slug == m.slug <==> r in regs && r.hook == hook
  {
    hide Swapped;
    forall r: Registration
      ensures r in List(t', hook) && r.slug == m.slug <==> r in regs && r.hook == hook
    {
      SwapExact(t, m.slug, regs, t', hook, r);
      assert r in List(t', hook) <==> Entries(t', hook)[r] > 0;
      assert r in regs <==> multiset(regs)[r] > 0;
    }
  }

  lemma SameKinds(list: seq<Registration>, regs: seq<Registration>, slug: string, hook: string, kind: HookType)
    requires forall r: Registration :: r in list && r.slug == slug <==> r in regs && r.hook == hook
    ensures (exists r :: r in list && r.slug == slug && r.hookType == kind) <==> (exists r :: r in regs && r.hook == hook && r.hookType == kind)
  {
  }

  lemma DeclaredTypes(regs: seq<Registration>, m: Manifest, pluginId: string, hook: string)
    requires Declares(regs, m, pluginId)
    ensures (exists r :: r in regs && r.hook == hook && r.hookType == Sync) <==> hook in m.syncHooks
    ensures (exists r :: r in regs && r.hook == hook && r.hookType == Async) <==> hook in m.asyncHooks
  {
    var n := |m.syncHooks|;
    if hook in m.syncHooks {
      var i :| 0 <= i < n && m.syncHooks[i] == hook;
      assert regs[i] in regs;
    }
    if hook in m.asyncHooks {
      var i :| 0 <= i < |m.asyncHooks| && m.asyncHooks[i] == hook;
      assert regs[n + i] in regs;
    }
  }

  // Taking a plugin out keeps the order of the rest.
  lemma {:induction false} WithoutKeepsOrder(a: seq<Registration>, b: seq<Registration>, slug: string)
    ensures Without(a + b, slug) == Without(a, slug) + Without(b, slug)
  {
    if b == [] {
      assert a + b == a && Without(b, slug) == [];
    } else {
      var n := |b| - 1;
      var ab := a + b;
      assert ab[..|ab| - 1] == a + b[..n] && ab[|ab| - 1] == b[n];
      WithoutKeepsOrder(a, b[..n], slug);
    }
  }

  lemma WithoutOne(r: Registration, slug: string)
    ensures Without([r], slug) == if r.slug == slug then [] else [r]
  {
    assert [r][..0] == [] && Without([], slug) == [];
  }
}
