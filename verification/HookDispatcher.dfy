/** HookDispatcher of internal/plugin: the registration table, the breakers, and both dispatch modes. */
module HookDispatcher {
  import opened Wrappers
  import opened HookTable
  import opened Dispatch
  import opened DispatchLaws
  import CB = CircuitBreaker
  import Decimal

  const MIN_HOOK_VERSION: nat := 2

  function Insert(sorted: seq<Registration>, r: Registration): seq<Registration> {
    if sorted == [] || sorted[|sorted| - 1].priority <= r.priority then sorted + [r]
    else Insert(sorted[..|sorted| - 1], r) + [sorted[|sorted| - 1]]
  }

  lemma {:induction false} InsertSorts(sorted: seq<Registration>, r: Registration)
    requires Sorted(sorted)
    ensures Sorted(Insert(sorted, r))
  {
    if sorted != [] {
      var n := |sorted| - 1;
      InsertSorts(sorted[..n], r);
      InsertHolds(sorted[..n], r);
      assert forall x :: x in sorted[..n] ==> x.priority <= sorted[n].priority;
    }
  }

  lemma {:induction false} InsertHolds(sorted: seq<Registration>, r: Registration)
    ensures multiset(Insert(sorted, r)) == multiset(sorted) + multiset{r}
    ensures forall x :: x in Insert(sorted, r) <==> x == r || x in sorted
  {
    if sorted != [] {
      var n := |sorted| - 1;
      InsertHolds(sorted[..n], r);
      assert sorted == sorted[..n] + [sorted[n]];
    }
  }

  /** sort.Slice by priority: ordered, and a permutation; nothing is said about ties. */
  method SortByPriority(regs: seq<Registration>) returns (sorted: seq<Registration>)
    ensures Sorted(sorted) && multiset(sorted) == multiset(regs)
  {
    sorted := [];
    for i := 0 to |regs|
      invariant Sorted(sorted) && multiset(sorted) == multiset(regs[..i])
    {
      InsertSorts(sorted, regs[i]);
      InsertHolds(sorted, regs[i]);
      assert regs[..i + 1] == regs[..i] + [regs[i]];
      sorted := Insert(sorted, regs[i]);
    }
    assert regs[..|regs|] == regs;
  }

  // "hook.vN".
  function VersionedName(hook: string, v: nat): string {
    hook + ".v" + Decimal.Digits(v)
  }

  predicate IsVersion(name: string, hook: string, v: nat) {
    name == hook + ".v" + Decimal.Digits(v)
  }

  lemma WithoutNothing(slug: string)
    ensures Without([], slug) == []
  {
  }

  // t' is t with every registration appended to its list.
  ghost predicate Appended(t: Table, regs: seq<Registration>, t': Table) {
    && (forall h :: List(t', h) == List(t, h) + ForHook(regs, h))
    && (forall h :: h in t' <==> h in t || ForHook(regs, h) != [])
  }

  lemma NothingAppended(t: Table)
    ensures Appended(t, [], t)
  {
    assert forall h :: List(t, h) + ForHook([], h) == List(t, h);
  }

  lemma ForHookSnoc(regs: seq<Registration>, i: nat, h: string)
    requires i < |regs|
    ensures ForHook(regs[..i + 1], h) == ForHook(regs[..i], h) + if regs[i].hook == h then [regs[i]] else []
  {
    assert regs[..i + 1][..i] == regs[..i];
  }

  lemma AppendedSnoc(t: Table, regs: seq<Registration>, i: nat, mid: Table, t': Table)
    requires i < |regs| && Appended(t, regs[..i], mid)
    requires t' == mid[regs[i].hook := List(mid, regs[i].hook) + [regs[i]]]
    ensures Appended(t, regs[..i + 1], t')
    ensures forall h :: ForHook(regs[..i + 1], h) != [] <==> ForHook(regs[..i], h) != [] || h == regs[i].hook
  {
    hide ForHook, Appended, List;
    forall h
      ensures List(t', h) == List(t, h) + ForHook(regs[..i + 1], h)
      ensures h in t' <==> h in t || ForHook(regs[..i + 1], h) != []
      ensures ForHook(regs[..i + 1], h) != [] <==> ForHook(regs[..i], h) != [] || h == regs[i].hook
    {
      AppendedSnocAt(t, regs, i, mid, t', h);
    }
    AllAppended(t, regs[..i + 1], t');
  }

  lemma AllAppended(t: Table, regs: seq<Registration>, t': Table)
    requires forall h :: List(t', h) == List(t, h) + ForHook(regs, h)
    requires forall h :: h in t' <==> h in t || ForHook(regs, h) != []
    ensures Appended(t, regs, t')
  {
  }

  lemma AppendedSnocAt(t: Table, regs: seq<Registration>, i: nat, mid: Table, t': Table, h: string)
    requires i < |regs| && Appended(t, regs[..i], mid)
    requires t' == mid[regs[i].hook := List(mid, regs[i].hook) + [regs[i]]]
    ensures List(t', h) == List(t, h) + ForHook(regs[..i + 1], h)
    ensures h in t' <==> h in t || ForHook(regs[..i + 1], h) != []
    ensures ForHook(regs[..i + 1], h) != [] <==> ForHook(regs[..i], h) != [] || h == regs[i].hook
  {
    hide ForHook;
    ForHookSnoc(regs, i, h);
    assert List(mid, h) == List(t, h) + ForHook(regs[..i], h);
  }

  lemma AppendedThenSorted(t: Table, regs: seq<Registration>, mid: Table, t': Table)
    requires Appended(t, regs, mid) && t'.Keys == mid.Keys
    requires forall h :: Entries(t', h) == Entries(mid, h)
    requires forall h :: if ForHook(regs, h) != [] then Sorted(List(t', h)) else List(t', h) == List(mid, h)
    ensures Registered(t, regs, t')
  {
    hide ForHook;
    forall h
      ensures h in t' <==> h in t || ForHook(regs, h) != []
      ensures Entries(t', h) == Entries(t, h) + multiset(ForHook(regs, h))
      ensures ForHook(regs, h) == [] ==> List(t', h) == List(t, h)
    {
      assert List(mid, h) == List(t, h) + ForHook(regs, h);
      assert h in t' <==> h in mid;
      assert Entries(t', h) == Entries(mid, h);
    }
  }

  class HookDispatcher {
    var registrations: Table
    var breakers: Breakers
    // The hook calls and compensation calls made so far.
    ghost var calls: seq<Call>
    ghost var undoCalls: seq<UndoCall>

    constructor ()
      ensures registrations == map[] && breakers == map[] && calls == [] && undoCalls == []
    {
      registrations, breakers, calls, undoCalls := map[], map[], [], [];
    }

    // ---- The registration table ----

    method RemoveBreakers(slug: string)
      modifies this`breakers
      ensures breakers == CB.RemoveByPlugin(old(breakers), slug)
    {
      var before := breakers;
      var todo := before.Keys;
      while todo != {}
        invariant todo <= before.Keys
        invariant breakers == map k | k in before && (k in todo || !CB.HasPrefix(k, slug + ":")) :: before[k]
        decreases |todo|
      {
        var key :| key in todo;
        todo := todo - {key};
        if CB.HasPrefix(key, slug + ":") {
          breakers := breakers - {key};
        }
      }
    }

    // Filter every list, dropping the ones that become empty.
    method RemoveRegistrations(slug: string)
      requires Good(registrations)
      modifies this`registrations
      ensures Unregistered(old(registrations), slug, registrations)
    {
      hide Without;
      ghost var before := registrations;
      var todo := registrations.Keys;
      WithoutNothing(slug);
      while todo != {}
        invariant todo <= before.Keys
        invariant forall h :: h in todo ==> h in registrations && registrations[h] == before[h]
        invariant forall h :: h !in todo ==> List(registrations, h) == Without(List(before, h), slug)
        invariant forall h :: h in registrations ==> registrations[h] != []
        decreases |todo|
      {
        var h :| h in todo;
        todo := todo - {h};
        var kept := Filter(registrations[h], slug);
        if kept == [] {
          registrations := registrations - {h};
        } else {
          registrations := registrations[h := kept];
        }
      }
    }

    method Filter(regs: seq<Registration>, slug: string) returns (kept: seq<Registration>)
      ensures kept == Without(regs, slug)
    {
      kept := [];
      for i := 0 to |regs|
        invariant kept == Without(regs[..i], slug)
      {
        assert regs[..i + 1][..i] == regs[..i];
        if regs[i].slug != slug {
          kept := kept + [regs[i]];
        }
      }
      assert regs[..|regs|] == regs;
    }

    method AppendOne(reg: Registration)
      modifies this`registrations
      ensures registrations == old(registrations)[reg.hook := List(old(registrations), reg.hook) + [reg]]
    {
      registrations := registrations[reg.hook := List(registrations, reg.hook) + [reg]];
    }

    // Append every registration to its list.
    method AppendRegistrations(regs: seq<Registration>) returns (affected: set<string>)
      modifies this`registrations
      ensures Appended(old(registrations), regs, registrations)
      ensures forall h :: h in affected <==> ForHook(regs, h) != []
    {
      hide Appended;
      affected := {};
      NothingAppended(registrations);
      for i := 0 to |regs|
        invariant Appended(old(registrations), regs[..i], registrations)
        invariant forall h :: h in affected <==> ForHook(regs[..i], h) != []
      {
        ghost var before := registrations;
        AppendOne(regs[i]);
        AppendedSnoc(old(registrations), regs, i, before, registrations);
        affected := affected + {regs[i].hook};
      }
      assert regs[..|regs|] == regs;
    }

    // Sort one list.
    method SortList(h: string)
      requires h in registrations
      modifies this`registrations
      ensures registrations.Keys == old(registrations).Keys && Sorted(List(registrations, h))
      ensures Entries(registrations, h) == Entries(old(registrations), h)
      ensures forall k :: k != h ==> List(registrations, k) == List(old(registrations), k)
    {
      var sorted := SortByPriority(registrations[h]);
      registrations := registrations[h := sorted];
    }

    // Sort the lists touched.
    method SortLists(affected: set<string>)
      requires affected <= registrations.Keys
      modifies this`registrations
      ensures registrations.Keys == old(registrations).Keys
      ensures forall h :: Entries(registrations, h) == Entries(old(registrations), h)
      ensures forall h :: if h in affected then Sorted(List(registrations, h)) else List(registrations, h) == List(old(registrations), h)
    {
      var todo := affected;
      while todo != {}
        invariant todo <= affected && registrations.Keys == old(registrations).Keys
        invariant forall h :: Entries(registrations, h) == Entries(old(registrations), h)
        invariant forall h :: h in affected && h !in todo ==> Sorted(List(registrations, h))
        invariant forall h :: h !in affected ==> List(registrations, h) == List(old(registrations), h)
        decreases |todo|
      {
        var h :| h in todo;
        todo := todo - {h};
        SortList(h);
      }
    }

    method AddRegistrations(regs: seq<Registration>)
      modifies this`registrations
      ensures Registered(old(registrations), regs, registrations)
    {
      ghost var before := registrations;
      var affected := AppendRegistrations(regs);
      ghost var appended := registrations;
      SortLists(affected);
      AppendedThenSorted(before, regs, appended, registrations);
    }

    method RegisterHooks(regs: seq<Registration>)
      requires Good(registrations)
      modifies this`registrations
      ensures Registered(old(registrations), regs, registrations) && Good(registrations)
    {
      ghost var before := registrations;
      AddRegistrations(regs);
      RegisteredKeepsGood(before, regs, registrations);
    }

    method UnregisterHooks(slug: string)
      requires Good(registrations)
      modifies this`registrations, this`breakers
      ensures Unregistered(old(registrations), slug, registrations) && Good(registrations)
      ensures breakers == CB.RemoveByPlugin(old(breakers), slug)
    {
      ghost var before := registrations;
      RemoveRegistrations(slug);
      UnregisteredKeepsGood(before, slug, registrations);
      RemoveBreakers(slug);
    }

    method SwapHooks(slug: string, regs: seq<Registration>)
      requires Good(registrations)
      modifies this`registrations, this`breakers
      ensures Swapped(old(registrations), slug, regs, registrations) && Good(registrations)
      ensures breakers == CB.RemoveByPlugin(old(breakers), slug)
    {
      ghost var before := registrations;
      RemoveRegistrations(slug);
      UnregisteredKeepsGood(before, slug, registrations);
      ghost var mid := registrations;
      AddRegistrations(regs);
      RegisteredKeepsGood(mid, regs, registrations);
      RemoveBreakers(slug);
    }

    // ---- Dispatch ----

    /** executePluginStep: ask the breaker, call the plugin, record the result. */
    method ExecutePluginStep(reg: Registration, hook: string, payload: string, i: nat, w: World) returns (outcome: Outcome)
      modifies this`breakers, this`calls
      ensures var step := PluginStep(old(breakers), reg, hook, payload, i, w);
        && outcome == step.outcome && breakers == step.breakers
        && calls == if step.called.Some? then old(calls) + [Call(reg, payload, step.called.value)] else old(calls)
      // Without a call it was refused or could not be built; with one, its reply decides.
      ensures calls == old(calls) ==>
        outcome == Failed(BreakerOpen) || (outcome == Failed(NotMarshalled) && !w.marshals(payload))
      ensures calls != old(calls) ==> w.marshals(payload) && calls == old(calls) + [Call(reg, payload, w.call(i, reg, payload))]
      ensures calls != old(calls) ==> match w.call(i, reg, payload)
        case CallError => outcome == Failed(CallFailed)
        case BadOutput => outcome == Failed(InvalidResult)
        case Answer(action, modified) => outcome == Replied(action, modified)
    {
      var key := CB.Key(reg.slug, hook);
      var asked := CB.Allow(CB.Get(breakers, key), w.askAt(i));
      breakers := breakers[key := asked.breaker];
      if !asked.admitted {
        return Failed(BreakerOpen);
      }
      if !w.marshals(payload) {
        return Failed(NotMarshalled);
      }
      var reply := w.call(i, reg, payload);
      calls := calls + [Call(reg, payload, reply)];
      match reply
      case CallError =>
        breakers := breakers[key := CB.RecordFailure(asked.breaker, w.recordAt(i))];
        outcome := Failed(CallFailed);
      case BadOutput =>
        breakers := breakers[key := CB.RecordFailure(asked.breaker, w.recordAt(i))];
        outcome := Failed(InvalidResult);
      case Answer(action, modified) =>
        breakers := breakers[key := CB.RecordSuccess(asked.breaker)];
        outcome := Replied(action, modified);
    }

    /** DispatchSync: any failure, halt or roll-back ends the chain with an error. */
    method DispatchSync(hook: string, payload: string, w: World) returns (out: Result<string, Stop>)
      modifies this`breakers, this`calls
      ensures var regs := List(registrations, hook);
        var c := Fold(Start(payload, old(breakers)), regs, |regs|, hook, w, false);
        && out == (if c.stop.None? then Ok(c.payload) else Err(c.stop.value))
        && breakers == c.breakers && calls == old(calls) + c.calls
      ensures |old(calls)| <= |calls| && calls[..|old(calls)|] == old(calls)
      ensures PlainOutcome(payload, calls[|old(calls)|..], out)
    {
      hide PluginStep, Fold, PlainOutcome;
      var regs := List(registrations, hook);
      ghost var start := Start(payload, breakers);
      FoldStart(start, regs, hook, w, false);
      PlainExactly(payload, breakers, regs, hook, w);
      ghost var before := calls;
      var current := payload;
      ghost var c := start;
      var i := 0;
      while i < |regs|
        invariant 0 <= i <= |regs| && c == Fold(start, regs, i, hook, w, false) && c.stop.None?
        invariant current == c.payload && breakers == c.breakers && calls == before + c.calls
      {
        var reg := regs[i];
        FoldNext(start, regs, i, hook, w, false);
        c := Link(c, reg, i, hook, w, false);
        i := i + 1;
        if reg.hookType == Sync {
          var outcome := ExecutePluginStep(reg, hook, current, i - 1, w);
          match outcome {
            case Failed(error) =>
              StopStays(start, regs, i, |regs|, hook, w, false);
              return Err(Errored(reg.slug, error));
            case Replied(Halt, _) =>
              StopStays(start, regs, i, |regs|, hook, w, false);
              return Err(Halted(reg.slug));
            case Replied(Rollback, _) =>
              StopStays(start, regs, i, |regs|, hook, w, false);
              return Err(RolledBack(reg.slug));
            case Replied(Modify, Some(changed)) =>
              current := changed;
            case Replied(_, _) =>
          }
        }
      }
      return Ok(current);
    }

    predicate HasHandlers(hook: string)
      reads this
    {
      List(registrations, hook) != []
    }

    /** DispatchSyncVersioned: dispatch to the highest version not above the given one that has handlers, else to the base name. */
    method DispatchSyncVersioned(hook: string, version: int, payload: string, w: World) returns (out: Result<string, Stop>, name: string)
      modifies this`breakers, this`calls
      ensures name == hook
        || (name in registrations && registrations[name] != [] && exists v: nat | 2 <= v <= version :: IsVersion(name, hook, v))
      ensures forall u: nat, other: string | 2 <= u <= version && other in registrations && registrations[other] != [] ::
        IsVersion(other, hook, u) ==> exists v: nat | u <= v <= version :: IsVersion(name, hook, v)
      ensures var regs := List(registrations, name);
        var c := Fold(Start(payload, old(breakers)), regs, |regs|, name, w, false);
        out == (if c.stop.None? then Ok(c.payload) else Err(c.stop.value)) && breakers == c.breakers
      ensures |old(calls)| <= |calls| && calls[..|old(calls)|] == old(calls)
      ensures PlainOutcome(payload, calls[|old(calls)|..], out)
    {
      hide PlainOutcome;
      var v := version;
      while v >= MIN_HOOK_VERSION
        invariant forall u: nat, other: string | MIN_HOOK_VERSION <= u <= version && v < u && IsVersion(other, hook, u) :: !HasHandlers(other)
        decreases v
      {
        name := VersionedName(hook, v);
        assert IsVersion(name, hook, v);
        if HasHandlers(name) {
          out := DispatchSync(name, payload, w);
          return;
        }
        v := v - 1;
      }
      name := hook;
      out := DispatchSync(hook, payload, w);
    }

    // ---- Compensation ----

    method FindTarget(regs: seq<Registration>, slug: string) returns (target: Option<Registration>)
      ensures target == Target(regs, slug)
    {
      target := None;
      var i := 0;
      while i < |regs|
        invariant 0 <= i <= |regs| && Target(regs, slug) == Target(regs[i..], slug)
      {
        if regs[i].slug == slug {
          return Some(regs[i]);
        }
        assert regs[i..][1..] == regs[i + 1..];
        i := i + 1;
      }
    }

    // The deadline has passed at plugin i's turn: it and all before it have failed.
    method RecordRest(executed: seq<string>, i: nat, name: string, payload: string, w: UndoWorld) returns (rest: seq<FailedCompensation>)
      requires i < |executed| && w.expired(i)
      ensures FailuresDownTo(executed, 0, name, payload, w) == FailuresDownTo(executed, i + 1, name, payload, w) + rest
      ensures UndoCallsDownTo(executed, 0, payload, w) == UndoCallsDownTo(executed, i + 1, payload, w)
    {
      rest := [];
      var n := i + 1;
      while n > 0
        invariant 0 <= n <= i + 1
        invariant FailuresDownTo(executed, n, name, payload, w) == FailuresDownTo(executed, i + 1, name, payload, w) + rest
        invariant UndoCallsDownTo(executed, n, payload, w) == UndoCallsDownTo(executed, i + 1, payload, w)
      {
        n := n - 1;
        assert FateOf(executed, n, payload, w) == DeadlinePassed;
        rest := rest + [FailedCompensation(executed[n], name, DEADLINE_ERROR)];
      }
    }

    /** compensateChain: best effort, last executed first, until the shared deadline has passed. */
    method CompensateChain(hook: string, executed: seq<string>, payload: string, w: UndoWorld) returns (failures: seq<FailedCompensation>)
      modifies this`undoCalls
      ensures failures == FailuresDownTo(executed, 0, hook + ".compensate", payload, w)
      ensures undoCalls == old(undoCalls) + UndoCallsDownTo(executed, 0, payload, w)
    {
      var name := CompensateHook(hook);
      failures := [];
      var n := |executed|;
      while n > 0
        invariant 0 <= n <= |executed|
        invariant forall j: nat | n <= j < |executed| :: !w.expired(j)
        invariant failures == FailuresDownTo(executed, n, name, payload, w)
        invariant undoCalls == old(undoCalls) + UndoCallsDownTo(executed, n, payload, w)
      {
        var i := n - 1;
        var slug := executed[i];
        if w.expired(i) {
          // Record this plugin and all before it, and stop.
          var rest := RecordRest(executed, i, name, payload, w);
          failures := failures + rest;
          return;
        }
        n := i;
        assert !TooLate(|executed|, i, w);
        var target := FindTarget(w.registrations(i), slug);
        if target.Some? {
          if !w.marshals(payload) {
            failures := failures + [FailedCompensation(slug, name, MARSHAL_ERROR)];
          } else {
            var err := w.call(i, target.value, payload);
            undoCalls := undoCalls + [UndoCall(target.value, payload)];
            if err.Some? {
              failures := failures + [FailedCompensation(slug, name, err.value)];
            }
          }
        }
      }
    }

    // The chain of DispatchSyncSafe.
    method RunSafe(hook: string, payload: string, w: World, u: UndoWorld) returns (result: ChainResult)
      modifies this`breakers, this`calls, this`undoCalls
      ensures var regs := List(registrations, hook);
        var c := Fold(Start(payload, old(breakers)), regs, |regs|, hook, w, true);
        && result == SafeResult(c, hook, payload, u)
        && breakers == c.breakers && calls == old(calls) + c.calls
        && undoCalls == old(undoCalls) + SafeUndoCalls(c, payload, u)
    {
      hide PluginStep, Fold;
      var regs := List(registrations, hook);
      ghost var start := Start(payload, breakers);
      FoldStart(start, regs, hook, w, true);
      ghost var before := calls;
      var current := payload;
      var executed: seq<string> := [];
      ghost var c := start;
      var i := 0;
      while i < |regs|
        invariant 0 <= i <= |regs| && c == Fold(start, regs, i, hook, w, true) && c.stop.None?
        invariant current == c.payload && executed == c.executed && breakers == c.breakers
        invariant calls == before + c.calls && undoCalls == old(undoCalls)
      {
        var reg := regs[i];
        FoldNext(start, regs, i, hook, w, true);
        c := Link(c, reg, i, hook, w, true);
        i := i + 1;
        if reg.hookType == Sync {
          var outcome := ExecutePluginStep(reg, hook, current, i - 1, w);
          match outcome {
            case Failed(error) =>
              if error != BreakerOpen {
                StopStays(start, regs, i, |regs|, hook, w, true);
                var failures := CompensateChain(hook, executed, payload, u);
                return ChainResult(current, payload, executed, Some(Errored(reg.slug, error)), true, failures);
              }
            case Replied(Halt, _) =>
              StopStays(start, regs, i, |regs|, hook, w, true);
              var failures := CompensateChain(hook, executed, payload, u);
              return ChainResult(current, payload, executed, Some(Halted(reg.slug)), true, failures);
            case Replied(Rollback, _) =>
              StopStays(start, regs, i, |regs|, hook, w, true);
              return ChainResult(payload, payload, executed, Some(RolledBack(reg.slug)), true, []);
            case Replied(Modify, Some(changed)) =>
              current := changed;
              executed := executed + [reg.slug];
            case Replied(_, _) =>
              executed := executed + [reg.slug];
          }
        }
      }
      return ChainResult(current, payload, executed, None, false, []);
    }

    /**
     DispatchSyncSafe: skip plugins whose breaker is open; on an error or a halt
     compensate the executed plugins; on a requested roll-back hand back the
     original payload without compensating.
     */
    method DispatchSyncSafe(hook: string, payload: string, w: World, u: UndoWorld) returns (result: ChainResult)
      modifies this`breakers, this`calls, this`undoCalls
      ensures var regs := List(registrations, hook);
        var c := Fold(Start(payload, old(breakers)), regs, |regs|, hook, w, true);
        result == SafeResult(c, hook, payload, u) && breakers == c.breakers
      ensures |old(calls)| <= |calls| && calls[..|old(calls)|] == old(calls)
      ensures |old(undoCalls)| <= |undoCalls| && undoCalls[..|old(undoCalls)|] == old(undoCalls)
      ensures SafeOutcome(payload, hook, calls[|old(calls)|..], undoCalls[|old(undoCalls)|..], result, u)
    {
      hide SafeOutcome, SafeResult, SafeUndoCalls, Fold;
      SafeExactly(payload, breakers, List(registrations, hook), hook, w, u);
      result := RunSafe(hook, payload, w, u);
    }
  }
}
