/**
 Hook dispatch of internal/plugin/dispatcher.go and dispatcher_compensation.go:
 the chain both dispatch modes run, and what compensation owes to each plugin
 that ran. What plugins, clocks and deadlines do is given by functions.
 */
module Dispatch {
  import opened Wrappers
  import opened HookTable
  import CB = CircuitBreaker

  datatype Action = Continue | Modify | Halt | Rollback | Unknown

  // What a hook call gives back: an error, an output that is no hook result, or a result.
  datatype Reply = CallError | BadOutput | Answer(action: Action, modified: Option<string>)

  datatype StepError = BreakerOpen | NotMarshalled | CallFailed | InvalidResult

  datatype Outcome = Failed(error: StepError) | Replied(action: Action, modified: Option<string>)

  // Why a chain stopped, and at which plugin.
  datatype Stop = Errored(slug: string, error: StepError) | Halted(slug: string) | RolledBack(slug: string)

  // The world a chain runs in; the first argument is the registration's position.
  datatype World = World(
    marshals: string -> bool,
    call: (nat, Registration, string) -> Reply,
    askAt: nat -> int,
    recordAt: nat -> int)

  type Breakers = map<string, CB.Breaker>

  datatype Step = Step(breakers: Breakers, called: Option<Reply>, outcome: Outcome)

  // executePluginStep.
  function PluginStep(breakers: Breakers, reg: Registration, hook: string, payload: string, i: nat, w: World): Step {
    var key := CB.Key(reg.slug, hook);
    var asked := CB.Allow(CB.Get(breakers, key), w.askAt(i));
    if !asked.admitted then Step(breakers[key := asked.breaker], None, Failed(BreakerOpen))
    else if !w.marshals(payload) then Step(breakers[key := asked.breaker], None, Failed(NotMarshalled))
    else
      var reply := w.call(i, reg, payload);
      var failed := breakers[key := CB.RecordFailure(asked.breaker, w.recordAt(i))];
      match reply
      case CallError => Step(failed, Some(reply), Failed(CallFailed))
      case BadOutput => Step(failed, Some(reply), Failed(InvalidResult))
      case Answer(action, modified) =>
        Step(breakers[key := CB.RecordSuccess(asked.breaker)], Some(reply), Replied(action, modified))
  }

  /**
   A breaker gets stuck through the dispatcher alone: when the context of both its
   test calls cannot be marshalled, no result is recorded, and every later step
   of the plugin on this hook fails, in any world.
   */
  lemma UnmarshalledStepsWedge(breakers: Breakers, reg: Registration, hook: string, payload: string, i: nat, j: nat, w: World,
                               later: string, k: nat, w': World)
    requires var b := CB.Get(breakers, CB.Key(reg.slug, hook));
      b.state == CB.Open && w.askAt(i) - b.lastFailure > CB.RESET_TIMEOUT
    requires !w.marshals(payload)
    ensures var first := PluginStep(breakers, reg, hook, payload, i, w);
      var second := PluginStep(first.breakers, reg, hook, payload, j, w);
      && first.outcome == second.outcome == Failed(NotMarshalled)
      && CB.Wedged(CB.Get(second.breakers, CB.Key(reg.slug, hook)))
      && PluginStep(second.breakers, reg, hook, later, k, w').outcome == Failed(BreakerOpen)
  {
    CB.WedgedExactly(CB.Get(PluginStep(PluginStep(breakers, reg, hook, payload, i, w).breakers, reg, hook, payload, j, w).breakers,
                            CB.Key(reg.slug, hook)));
  }

  // ---- The chain ----

  datatype Call = Call(reg: Registration, payload: string, reply: Reply)

  datatype Chain = Chain(
    payload: string,
    executed: seq<string>,
    skipped: seq<string>,
    calls: seq<Call>,
    breakers: Breakers,
    stop: Option<Stop>)

  function Start(payload: string, breakers: Breakers): Chain {
    Chain(payload, [], [], [], breakers, None)
  }

  function Modified(payload: string, action: Action, modified: Option<string>): string {
    if action == Modify && modified.Some? then modified.value else payload
  }

  // One registration of the chain. Only the safe mode skips an open breaker.
  function Link(c: Chain, reg: Registration, i: nat, hook: string, w: World, safe: bool): Chain {
    if c.stop.Some? || reg.hookType != Sync then c
    else
      var step := PluginStep(c.breakers, reg, hook, c.payload, i, w);
      var calls := if step.called.Some? then c.calls + [Call(reg, c.payload, step.called.value)] else c.calls;
      var c1 := c.(breakers := step.breakers, calls := calls);
      match step.outcome
      case Failed(error) =>
        if safe && error == BreakerOpen then c1.(skipped := c.skipped + [reg.slug])
        else c1.(stop := Some(Errored(reg.slug, error)))
      case Replied(Halt, _) => c1.(stop := Some(Halted(reg.slug)))
      case Replied(Rollback, _) => c1.(stop := Some(RolledBack(reg.slug)))
      case Replied(action, modified) =>
        c1.(payload := Modified(c.payload, action, modified), executed := c.executed + [reg.slug])
  }

  // The first n registrations, folded from the left.
  function Fold(start: Chain, regs: seq<Registration>, n: nat, hook: string, w: World, safe: bool): Chain
    requires n <= |regs|
  {
    if n == 0 then start else Link(Fold(start, regs, n - 1, hook, w, safe), regs[n - 1], n - 1, hook, w, safe)
  }

  lemma FoldStart(start: Chain, regs: seq<Registration>, hook: string, w: World, safe: bool)
    ensures Fold(start, regs, 0, hook, w, safe) == start
  {
  }

  lemma FoldNext(start: Chain, regs: seq<Registration>, n: nat, hook: string, w: World, safe: bool)
    requires n < |regs|
    ensures Fold(start, regs, n + 1, hook, w, safe) == Link(Fold(start, regs, n, hook, w, safe), regs[n], n, hook, w, safe)
  {
  }

  lemma {:induction false} StopStays(start: Chain, regs: seq<Registration>, m: nat, n: nat, hook: string, w: World, safe: bool)
    requires m <= n <= |regs| && Fold(start, regs, m, hook, w, safe).stop.Some?
    ensures Fold(start, regs, n, hook, w, safe) == Fold(start, regs, m, hook, w, safe)
  {
    if m < n {
      StopStays(start, regs, m, n - 1, hook, w, safe);
    }
  }

  /**
   The two modes run the same chain. The plain mode succeeds exactly when the
   safe mode succeeds without having skipped a plugin, and then with the same
   payload; and as long as no plugin is skipped the two agree on everything:
   calls made, payloads passed, plugins executed, breakers, and where and why
   the chain stops.
   */
  lemma {:induction false} ModesAgree(payload: string, breakers: Breakers, regs: seq<Registration>, n: nat, hook: string, w: World)
    requires n <= |regs|
    ensures var plain := Fold(Start(payload, breakers), regs, n, hook, w, false);
      var safe := Fold(Start(payload, breakers), regs, n, hook, w, true);
      && (plain.stop.None? <==> safe.stop.None? && safe.skipped == [])
      && (safe.skipped == [] ==> plain == safe)
      && (safe.skipped != [] ==> plain.stop == Some(Errored(safe.skipped[0], BreakerOpen)))
  {
    hide PluginStep;
    if n > 0 {
      ModesAgree(payload, breakers, regs, n - 1, hook, w);
    }
  }

  function SyncOnly(regs: seq<Registration>): seq<Registration> {
    if regs == [] then []
    else SyncOnly(regs[..|regs| - 1]) + (if regs[|regs| - 1].hookType == Sync then [regs[|regs| - 1]] else [])
  }

  function Regs(calls: seq<Call>): seq<Registration> {
    seq(|calls|, i requires 0 <= i < |calls| => calls[i].reg)
  }

  // The payload a call leaves for the next one: only an answer that modifies it changes it.
  function PayloadAfter(c: Call): string {
    match c.reply
    case Answer(Modify, Some(changed)) => changed
    case _ => c.payload
  }

  predicate Passes(r: Reply) {
    r.Answer? && r.action != Halt && r.action != Rollback
  }

  // Each plugin called got what the one before left, the payload is what the
  // last one left, and the executed plugins are those called, except one that
  // stopped the chain.
  ghost predicate Chained(c: Chain, payload: string) {
    && (c.calls != [] ==> c.calls[0].payload == payload)
    && (forall k :: 0 < k < |c.calls| ==> c.calls[k].payload == PayloadAfter(c.calls[k - 1]))
    && c.payload == (if c.calls == [] then payload else PayloadAfter(c.calls[|c.calls| - 1]))
    && |c.executed| <= |c.calls| <= |c.executed| + 1
    && (forall k :: 0 <= k < |c.executed| ==> c.calls[k].reg.slug == c.executed[k] && Passes(c.calls[k].reply))
    && (|c.executed| < |c.calls| ==> !Passes(c.calls[|c.executed|].reply)
                                     && c.stop.Some? && c.stop.value.slug == c.calls[|c.executed|].reg.slug)
  }

  lemma LinkKeepsChained(c: Chain, payload: string, reg: Registration, i: nat, hook: string, w: World, safe: bool)
    requires Chained(c, payload)
    ensures Chained(Link(c, reg, i, hook, w, safe), payload)
  {
    var c' := Link(c, reg, i, hook, w, safe);
    NoCallLinked(c, reg, i, hook, w, safe);
    if |c'.calls| > |c.calls| {
      var call := c'.calls[|c.calls|];
      CallLinked(c, reg, i, hook, w, safe);
      ChainedSnoc(c, c', payload, call);
    }
  }

  // A link that calls no plugin changes nothing but the breakers, and may stop the chain.
  lemma NoCallLinked(c: Chain, reg: Registration, i: nat, hook: string, w: World, safe: bool)
    ensures var c' := Link(c, reg, i, hook, w, safe);
      |c'.calls| > |c.calls|
      || (c'.calls == c.calls && c'.payload == c.payload && c'.executed == c.executed && (c.stop.Some? ==> c'.stop == c.stop))
  {
  }

  // A link that calls a plugin passes the payload on, and stops the chain unless the plugin lets it pass.
  lemma CallLinked(c: Chain, reg: Registration, i: nat, hook: string, w: World, safe: bool)
    requires |Link(c, reg, i, hook, w, safe).calls| > |c.calls|
    ensures var c' := Link(c, reg, i, hook, w, safe);
      && c.stop.None? && |c'.calls| == |c.calls| + 1
      && var call := c'.calls[|c.calls|];
      && c'.calls == c.calls + [call] && call.reg == reg && call.payload == c.payload && c'.payload == PayloadAfter(call)
      && if Passes(call.reply) then c'.executed == c.executed + [reg.slug]
         else c'.executed == c.executed && c'.stop.Some? && c'.stop.value.slug == reg.slug
  {
  }

  lemma ChainedSnoc(c: Chain, c': Chain, payload: string, call: Call)
    requires Chained(c, payload) && c.stop.None?
    requires c'.calls == c.calls + [call] && call.payload == c.payload && c'.payload == PayloadAfter(call)
    requires if Passes(call.reply) then c'.executed == c.executed + [call.reg.slug]
             else c'.executed == c.executed && c'.stop.Some? && c'.stop.value.slug == call.reg.slug
    ensures Chained(c', payload)
  {
    var n := |c.calls|;
    assert |c.executed| == n && c'.calls[n] == call;
    assert forall k :: 0 <= k < n ==> c'.calls[k] == c.calls[k];
    assert forall k :: 0 < k < n ==> c.calls[k].payload == PayloadAfter(c.calls[k - 1]);
    assert n == 0 ==> c.calls == [];
  }

  /** Every chain passes payloads on in this way. */
  lemma {:induction false} PayloadsChain(payload: string, breakers: Breakers, regs: seq<Registration>, n: nat,
                                         hook: string, w: World, safe: bool)
    requires n <= |regs|
    ensures Chained(Fold(Start(payload, breakers), regs, n, hook, w, safe), payload)
  {
    hide Link, Chained;
    if n == 0 {
      StartChained(payload, breakers);
    } else {
      PayloadsChain(payload, breakers, regs, n - 1, hook, w, safe);
      LinkKeepsChained(Fold(Start(payload, breakers), regs, n - 1, hook, w, safe), payload, regs[n - 1], n - 1, hook, w, safe);
    }
  }

  lemma StartChained(payload: string, breakers: Breakers)
    ensures Chained(Start(payload, breakers), payload)
  {
  }

  /**
   When no plugin is skipped, the plugins called are the first of the sync
   registrations in list order, and all of them when the chain does not stop.
   */
  lemma {:induction false} CallsInOrder(payload: string, breakers: Breakers, regs: seq<Registration>, n: nat,
                                        hook: string, w: World, safe: bool)
    requires n <= |regs|
    requires Fold(Start(payload, breakers), regs, n, hook, w, safe).skipped == []
    ensures var c := Fold(Start(payload, breakers), regs, n, hook, w, safe);
      Regs(c.calls) <= SyncOnly(regs[..n]) && (c.stop.None? ==> Regs(c.calls) == SyncOnly(regs[..n]))
  {
    if n > 0 {
      var before := Fold(Start(payload, breakers), regs, n - 1, hook, w, safe);
      var after := Fold(Start(payload, breakers), regs, n, hook, w, safe);
      assert before.skipped == [];
      CallsInOrder(payload, breakers, regs, n - 1, hook, w, safe);
      assert regs[..n][..n - 1] == regs[..n - 1];
      if |after.calls| > |before.calls| {
        assert Regs(after.calls) == Regs(before.calls) + [regs[n - 1]];
      } else {
        assert after.calls == before.calls;
      }
    }
  }

  // ---- Compensation ----

  // The world a compensation chain runs in; the argument is the position of the
  // plugin in the list of executed ones.
  datatype UndoWorld = UndoWorld(
    expired: nat -> bool,                        // the deadline has passed before this plugin's turn
    registrations: nat -> seq<Registration>,     // of the compensation hook, read at its turn
    marshals: string -> bool,
    call: (nat, Registration, string) -> Option<string>)   // the error of the call, if any

  datatype FailedCompensation = FailedCompensation(slug: string, hook: string, error: string)

  datatype UndoCall = UndoCall(reg: Registration, payload: string)

  datatype Fate = Compensated | NoHandler | Unmarshalled | Undone(error: string) | DeadlinePassed

  function Target(regs: seq<Registration>, slug: string): Option<Registration> {
    if regs == [] then None else if regs[0].slug == slug then Some(regs[0]) else Target(regs[1..], slug)
  }

  // The deadline has passed at plugin i's turn, or at the turn of one that came
  // before it, that is, of one executed after it.
  ghost predicate TooLate(n: nat, i: nat, w: UndoWorld) {
    exists j | i <= j < n :: w.expired(j)
  }

  ghost function FateOf(executed: seq<string>, i: nat, payload: string, w: UndoWorld): Fate
    requires i < |executed|
  {
    if TooLate(|executed|, i, w) then DeadlinePassed
    else
      match Target(w.registrations(i), executed[i])
      case None => NoHandler
      case Some(reg) =>
        if !w.marshals(payload) then Unmarshalled
        else match w.call(i, reg, payload) case None => Compensated case Some(error) => Undone(error)
  }

  const DEADLINE_ERROR := "compensation chain deadline exceeded"
  const MARSHAL_ERROR := "marshal compensation context"

  ghost function FailureOf(executed: seq<string>, i: nat, hook: string, payload: string, w: UndoWorld): seq<FailedCompensation>
    requires i < |executed|
  {
    match FateOf(executed, i, payload, w)
    case Compensated => []
    case NoHandler => []
    case Unmarshalled => [FailedCompensation(executed[i], hook, MARSHAL_ERROR)]
    case Undone(error) => [FailedCompensation(executed[i], hook, error)]
    case DeadlinePassed => [FailedCompensation(executed[i], hook, DEADLINE_ERROR)]
  }

  // The failures of plugins |executed| - 1 down to n, in that order.
  ghost function FailuresDownTo(executed: seq<string>, n: nat, hook: string, payload: string, w: UndoWorld): seq<FailedCompensation>
    requires n <= |executed|
    decreases |executed| - n
  {
    if n == |executed| then []
    else FailuresDownTo(executed, n + 1, hook, payload, w) + FailureOf(executed, n, hook, payload, w)
  }

  // The calls made to plugins |executed| - 1 down to n, in that order.
  ghost function UndoCallsDownTo(executed: seq<string>, n: nat, payload: string, w: UndoWorld): seq<UndoCall>
    requires n <= |executed|
    decreases |executed| - n
  {
    if n == |executed| then []
    else
      var f := FateOf(executed, n, payload, w);
      UndoCallsDownTo(executed, n + 1, payload, w)
      + if f.Compensated? || f.Undone? then [UndoCall(Target(w.registrations(n), executed[n]).value, payload)] else []
  }

  // The first registration with the slug.
  ghost predicate First(regs: seq<Registration>, slug: string, h: Registration) {
    exists j :: 0 <= j < |regs| && regs[j] == h && h.slug == slug && forall m :: 0 <= m < j ==> regs[m].slug != slug
  }

  // The deadline had passed at plugin i's turn or before it: at the turn of one executed after it.
  ghost predicate Expired(executed: seq<string>, i: nat, w: UndoWorld) {
    exists j: nat | i <= j < |executed| :: w.expired(j)
  }

  // Plugin i is called: in time, with a handler, and with a context that can be built.
  ghost predicate MustCall(executed: seq<string>, i: nat, payload: string, w: UndoWorld)
    requires i < |executed|
  {
    !Expired(executed, i, w) && w.marshals(payload) && exists h :: First(w.registrations(i), executed[i], h)
  }

  // Plugin i is recorded as failed: too late, or with a handler whose context cannot be built or whose call fails.
  ghost predicate MustRecord(executed: seq<string>, i: nat, payload: string, w: UndoWorld)
    requires i < |executed|
  {
    Expired(executed, i, w)
    || exists h :: First(w.registrations(i), executed[i], h) && (!w.marshals(payload) || w.call(i, h, payload).Some?)
  }

  // The entry that plugin i is recorded with.
  ghost predicate EntryFor(executed: seq<string>, i: nat, hook: string, payload: string, w: UndoWorld, f: FailedCompensation)
    requires i < |executed|
  {
    && f.slug == executed[i] && f.hook == hook
    && if Expired(executed, i, w) then f.error == "compensation chain deadline exceeded"
       else if !w.marshals(payload) then f.error == "marshal compensation context"
       else exists h :: First(w.registrations(i), executed[i], h) && w.call(i, h, payload) == Some(f.error)
  }

  // Turns from n on, last one first.
  predicate Descending(executed: seq<string>, n: nat, turns: seq<nat>) {
    && (forall k :: 0 <= k < |turns| ==> n <= turns[k] < |executed|)
    && (forall j, k :: 0 <= j < k < |turns| ==> turns[j] > turns[k])
  }

  // The cases of FateOf, in the world's own terms.
  lemma FateIs(executed: seq<string>, i: nat, payload: string, w: UndoWorld)
    requires i < |executed|
    ensures var f := FateOf(executed, i, payload, w);
      && (f.Compensated? || f.Undone? <==> MustCall(executed, i, payload, w))
      && (f.Undone? || f.Unmarshalled? || f.DeadlinePassed? <==> MustRecord(executed, i, payload, w))
      && (f.DeadlinePassed? <==> Expired(executed, i, w))
      && (f.Unmarshalled? ==> !w.marshals(payload))
      && (MustCall(executed, i, payload, w) ==>
            && w.marshals(payload)
            && var target := Target(w.registrations(i), executed[i]);
            && target.Some? && First(w.registrations(i), executed[i], target.value)
            && w.call(i, target.value, payload) == if f.Undone? then Some(f.error) else None)
  {
    TargetFirst(w.registrations(i), executed[i]);
  }

  // The search finds the first registration, and there is only one first.
  lemma {:induction false} TargetFirst(regs: seq<Registration>, slug: string)
    ensures var t := Target(regs, slug);
      && (t.Some? ==> First(regs, slug, t.value))
      && forall h :: First(regs, slug, h) ==> t == Some(h)
  {
    if regs != [] && regs[0].slug != slug {
      var rest := regs[1..];
      TargetFirst(rest, slug);
      forall h | First(regs, slug, h)
        ensures First(rest, slug, h)
      {
        var j :| 0 <= j < |regs| && regs[j] == h && h.slug == slug && forall m :: 0 <= m < j ==> regs[m].slug != slug;
        assert rest[j - 1] == h && forall m :: 0 <= m < j - 1 ==> rest[m] == regs[m + 1];
      }
      if Target(rest, slug).Some? {
        var h := Target(rest, slug).value;
        var j :| 0 <= j < |rest| && rest[j] == h && h.slug == slug && forall m :: 0 <= m < j ==> rest[m].slug != slug;
        assert regs[j + 1] == h && forall m :: 0 < m < j + 1 ==> regs[m] == rest[m - 1];
      }
    } else if regs != [] {
      assert regs[0].slug == slug;
    }
  }

  /**
   Compensation visits the executed plugins in reverse: exactly those before the
   deadline with a handler and a context are called, last executed first, each on
   the first handler under its slug with the original payload.
   */
  lemma {:induction false} UndoCallsReversed(executed: seq<string>, n: nat, payload: string, w: UndoWorld) returns (turns: seq<nat>)
    requires n <= |executed|
    ensures var calls := UndoCallsDownTo(executed, n, payload, w);
      && |turns| == |calls| && Descending(executed, n, turns)
      && (forall i: nat | n <= i < |executed| :: i in turns <==> MustCall(executed, i, payload, w))
      && (forall k :: 0 <= k < |calls| ==> calls[k].payload == payload)
      && (forall k :: 0 <= k < |calls| ==>
            turns[k] < |executed| && First(w.registrations(turns[k]), executed[turns[k]], calls[k].reg))
    decreases |executed| - n
  {
    hide FateOf, MustCall, MustRecord, Expired, First;
    if n == |executed| {
      turns := [];
    } else {
      turns := UndoCallsReversed(executed, n + 1, payload, w);
      FateIs(executed, n, payload, w);
      if MustCall(executed, n, payload, w) {
        turns := turns + [n];
      }
    }
  }

  /**
   The failures are recorded in the same order: exactly the plugins whose turn
   came too late, or whose context could not be built, or whose call failed, each
   with its slug, the compensation hook and what went wrong.
   */
  lemma {:induction false} FailuresReversed(executed: seq<string>, n: nat, hook: string, payload: string, w: UndoWorld) returns (turns: seq<nat>)
    requires n <= |executed|
    ensures var failures := FailuresDownTo(executed, n, hook, payload, w);
      && |turns| == |failures| && Descending(executed, n, turns)
      && (forall i: nat | n <= i < |executed| :: i in turns <==> MustRecord(executed, i, payload, w))
      && (forall k :: 0 <= k < |failures| ==>
            turns[k] < |executed| && EntryFor(executed, turns[k], hook, payload, w, failures[k]))
    decreases |executed| - n
  {
    hide FateOf, MustCall, MustRecord, Expired, First, EntryFor;
    if n == |executed| {
      turns := [];
    } else {
      turns := FailuresReversed(executed, n + 1, hook, payload, w);
      FateIs(executed, n, payload, w);
      if MustRecord(executed, n, payload, w) {
        EntryIs(executed, n, hook, payload, w);
        turns := turns + [n];
      }
    }
  }

  lemma EntryIs(executed: seq<string>, i: nat, hook: string, payload: string, w: UndoWorld)
    requires i < |executed| && MustRecord(executed, i, payload, w)
    ensures var entries := FailureOf(executed, i, hook, payload, w);
      |entries| == 1 && EntryFor(executed, i, hook, payload, w, entries[0])
  {
    FateIs(executed, i, payload, w);
  }

  // ---- The result of the safe mode ----

  datatype ChainResult = ChainResult(
    payload: string,
    originalPayload: string,
    executed: seq<string>,
    err: Option<Stop>,
    compensated: bool,
    failedCompensations: seq<FailedCompensation>)

  function CompensateHook(hook: string): string {
    hook + ".compensate"
  }

  /** The result of a safe dispatch, given how its chain ended. */
  ghost function SafeResult(c: Chain, hook: string, payload: string, w: UndoWorld): ChainResult {
    match c.stop
    case None => ChainResult(c.payload, payload, c.executed, None, false, [])
    case Some(RolledBack(_)) => ChainResult(payload, payload, c.executed, c.stop, true, [])
    case Some(_) =>
      ChainResult(c.payload, payload, c.executed, c.stop, true,
                  FailuresDownTo(c.executed, 0, CompensateHook(hook), payload, w))
  }

  // The compensation calls a safe dispatch makes, given how its chain ended.
  ghost function SafeUndoCalls(c: Chain, payload: string, w: UndoWorld): seq<UndoCall> {
    if c.stop.Some? && !c.stop.value.RolledBack? then UndoCallsDownTo(c.executed, 0, payload, w) else []
  }

  /** Once the deadline has passed at one plugin's turn, all executed before it are recorded as too late. */
  lemma LateStaysLate(executed: seq<string>, i: nat, j: nat, hook: string, payload: string, w: UndoWorld)
    requires i <= j < |executed| && w.expired(j)
    ensures FailureOf(executed, i, hook, payload, w) ==
      [FailedCompensation(executed[i], hook, "compensation chain deadline exceeded")]
    ensures !MustCall(executed, i, payload, w)
  {
  }
}
