/**
 What hook dispatch does, in terms of the calls it makes, the replies it gets and
 the times it asks at: nothing here is said through the definitions of a step, a
 link or a result.
 */
module DispatchLaws {
  import opened Wrappers
  import opened HookTable
  import opened Dispatch
  import CB = CircuitBreaker

  // ---- What one step does ----

  /**
   One step: no call when it is refused or its context cannot be built, and else
   one call, of the plugin with this payload, whose reply decides how it ends.
   */
  lemma StepExactly(breakers: Breakers, reg: Registration, hook: string, payload: string, i: nat, w: World)
    ensures var step := PluginStep(breakers, reg, hook, payload, i, w);
      && (step.called.Some? ==> w.marshals(payload) && step.called.value == w.call(i, reg, payload))
      && (step.called.None? ==> step.outcome == Failed(BreakerOpen) || step.outcome == Failed(NotMarshalled))
      && (step.outcome == Failed(NotMarshalled) ==> !w.marshals(payload))
      && (step.called.Some? ==> match step.called.value
            case CallError => step.outcome == Failed(CallFailed)
            case BadOutput => step.outcome == Failed(InvalidResult)
            case Answer(action, modified) => step.outcome == Replied(action, modified))
  {
  }

  /** A step touches the breaker of its plugin and hook only. */
  lemma StepTouchesOne(breakers: Breakers, reg: Registration, hook: string, payload: string, i: nat, w: World, other: string)
    requires other != reg.slug + ":" + hook
    ensures var after := PluginStep(breakers, reg, hook, payload, i, w).breakers;
      (other in after <==> other in breakers) && (other in breakers ==> after[other] == breakers[other])
  {
  }

  // ---- Breakers over runs of steps ----

  // A step taken at position i of a dispatch in world w.
  datatype Visit = Visit(reg: Registration, hook: string, payload: string, i: nat, w: World)

  function Take(breakers: Breakers, v: Visit): Step {
    PluginStep(breakers, v.reg, v.hook, v.payload, v.i, v.w)
  }

  // The breakers after any steps of any plugins on any hooks.
  function Visited(breakers: Breakers, visits: seq<Visit>): Breakers {
    if visits == [] then breakers else Take(Visited(breakers, visits[..|visits| - 1]), visits[|visits| - 1]).breakers
  }

  predicate On(v: Visit, slug: string, hook: string) {
    v.reg.slug + ":" + v.hook == slug + ":" + hook
  }

  // The replies to the calls of one plugin on one hook.
  function Replies(breakers: Breakers, visits: seq<Visit>, slug: string, hook: string): seq<Reply> {
    if visits == [] then []
    else
      var n := |visits| - 1;
      var before := Replies(breakers, visits[..n], slug, hook);
      var called := Take(Visited(breakers, visits[..n]), visits[n]).called;
      if On(visits[n], slug, hook) && called.Some? then before + [called.value] else before
  }

  // The calls that failed since the last one that was answered.
  function FailedSince(replies: seq<Reply>): nat {
    if replies == [] || replies[|replies| - 1].Answer? then 0 else FailedSince(replies[..|replies| - 1]) + 1
  }

  /**
   The breaker of a plugin and hook follows the replies to its calls: over any
   steps of any plugins, from no breakers, it is closed exactly when fewer than
   FAILURE_THRESHOLD calls have failed since the last answer.
   */
  lemma {:induction false} BreakerFollowsReplies(visits: seq<Visit>, slug: string, hook: string)
    ensures var b := CB.Get(Visited(map[], visits), slug + ":" + hook);
      && (b.state == CB.Closed <==> FailedSince(Replies(map[], visits, slug, hook)) < CB.FAILURE_THRESHOLD)
      && b.failures == FailedSince(Replies(map[], visits, slug, hook))
  {
    if visits != [] {
      var n := |visits| - 1;
      var v := visits[n];
      var before := Visited(map[], visits[..n]);
      BreakerFollowsReplies(visits[..n], slug, hook);
      if On(v, slug, hook) {
        StepKeepsCount(before, v, Replies(map[], visits[..n], slug, hook), slug + ":" + hook);
      } else {
        StepTouchesOne(before, v.reg, v.hook, v.payload, v.i, v.w, slug + ":" + hook);
      }
    }
  }

  lemma StepKeepsCount(breakers: Breakers, v: Visit, replies: seq<Reply>, key: string)
    requires v.reg.slug + ":" + v.hook == key
    requires var b := CB.Get(breakers, key);
      b.failures == FailedSince(replies) && (b.state == CB.Closed <==> b.failures < CB.FAILURE_THRESHOLD)
    ensures var step := Take(breakers, v);
      var b, replies' := CB.Get(step.breakers, key), if step.called.Some? then replies + [step.called.value] else replies;
      b.failures == FailedSince(replies') && (b.state == CB.Closed <==> b.failures < CB.FAILURE_THRESHOLD)
  {
    var step := Take(breakers, v);
    if step.called.Some? {
      assert (replies + [step.called.value])[..|replies|] == replies;
    }
  }

  /** As long as fewer have failed, the next step is not refused. */
  lemma NotRefused(visits: seq<Visit>, v: Visit)
    requires FailedSince(Replies(map[], visits, v.reg.slug, v.hook)) < CB.FAILURE_THRESHOLD
    ensures Take(Visited(map[], visits), v).outcome != Failed(BreakerOpen)
    ensures v.w.marshals(v.payload) ==> Take(Visited(map[], visits), v).called.Some?
  {
    BreakerFollowsReplies(visits, v.reg.slug, v.hook);
  }

  // The call of this step, if it is made, fails.
  predicate Fails(v: Visit) {
    v.w.marshals(v.payload) && !v.w.call(v.i, v.reg, v.payload).Answer?
  }

  /**
   Five failing steps of a plugin on a hook, from a breaker that is new: all five
   call, and the next step fails without a call until the reset timeout has
   passed since the last failure was recorded.
   */
  lemma FiveFailuresRefuse(breakers: Breakers, visits: seq<Visit>, v: Visit)
    requires |visits| == 5 && v.reg.slug + ":" + v.hook !in breakers
    requires forall k :: 0 <= k < 5 ==> On(visits[k], v.reg.slug, v.hook) && Fails(visits[k])
    requires v.w.askAt(v.i) - visits[4].w.recordAt(visits[4].i) <= CB.RESET_TIMEOUT
    ensures |Replies(breakers, visits, v.reg.slug, v.hook)| == 5
    ensures Take(Visited(breakers, visits), v).outcome == Failed(BreakerOpen)
    ensures Take(Visited(breakers, visits), v).called.None?
  {
    FailingVisits(breakers, visits, v.reg.slug, v.hook);
  }

  lemma {:induction false} FailingVisits(breakers: Breakers, visits: seq<Visit>, slug: string, hook: string)
    requires |visits| <= 5 && slug + ":" + hook !in breakers
    requires forall k :: 0 <= k < |visits| ==> On(visits[k], slug, hook) && Fails(visits[k])
    ensures |Replies(breakers, visits, slug, hook)| == |visits|
    ensures var b := CB.Get(Visited(breakers, visits), slug + ":" + hook);
      && b.failures == |visits| && b.state == (if |visits| < 5 then CB.Closed else CB.Open)
      && (visits != [] ==> b.lastFailure == visits[|visits| - 1].w.recordAt(visits[|visits| - 1].i))
  {
    if visits != [] {
      FailingVisits(breakers, visits[..|visits| - 1], slug, hook);
    }
  }

  // ---- What a chain does ----

  // The reply lets the chain go on.
  predicate Passed(r: Reply) {
    match r
    case Answer(action, _) => action != Halt && action != Rollback
    case _ => false
  }

  // Why a reply that does not let it go on stops the chain.
  function StopOf(call: Call): Stop {
    match call.reply
    case CallError => Errored(call.reg.slug, CallFailed)
    case BadOutput => Errored(call.reg.slug, InvalidResult)
    case Answer(Halt, _) => Halted(call.reg.slug)
    case Answer(_, _) => RolledBack(call.reg.slug)
  }

  // What the last of the calls has left.
  function LeftBy(calls: seq<Call>, payload: string): string {
    if calls == [] then payload
    else match calls[|calls| - 1].reply
      case Answer(Modify, Some(changed)) => changed
      case _ => calls[|calls| - 1].payload
  }

  predicate LastStops(calls: seq<Call>) {
    calls != [] && !Passed(calls[|calls| - 1].reply)
  }

  // Each call gets what the one before left, and all but perhaps the last let the chain go on.
  predicate PassedOn(calls: seq<Call>, payload: string) {
    && (forall k :: 0 <= k < |calls| ==> calls[k].payload == LeftBy(calls[..k], payload))
    && (forall k :: 0 <= k < |calls| - 1 ==> Passed(calls[k].reply))
  }

  // The calls were made at these positions, of sync registrations, in order, and were replied to by the world.
  predicate MadeAt(calls: seq<Call>, regs: seq<Registration>, n: nat, at: seq<nat>, w: World)
    requires n <= |regs|
  {
    && |at| == |calls| && (forall k :: 0 <= k < |at| ==> at[k] < n) && (forall j, k :: 0 <= j < k < |at| ==> at[j] < at[k])
    && forall k :: 0 <= k < |calls| ==>
         && calls[k].reg == regs[at[k]] && calls[k].reg.hookType == Sync
         && w.marshals(calls[k].payload) && calls[k].reply == w.call(at[k], calls[k].reg, calls[k].payload)
  }

  // The chain has ended as its calls say.
  ghost predicate EndedBy(c: Chain, payload: string, w: World, safe: bool) {
    && PassedOn(c.calls, payload) && c.payload == LeftBy(c.calls, payload)
    && |c.executed| == (if LastStops(c.calls) then |c.calls| - 1 else |c.calls|)
    && (forall k :: 0 <= k < |c.executed| ==> c.executed[k] == c.calls[k].reg.slug)
    && (if LastStops(c.calls) then c.stop == Some(StopOf(c.calls[|c.calls| - 1]))
        else c.stop.None? || UncalledStop(c, w, safe))
    && (!safe ==> c.skipped == [])
  }

  // The chain stopped at a plugin without calling it.
  ghost predicate UncalledStop(c: Chain, w: World, safe: bool) {
    exists slug :: (c.stop == Some(Errored(slug, NotMarshalled)) && !w.marshals(c.payload))
                   || (!safe && c.stop == Some(Errored(slug, BreakerOpen)))
  }

  // A link that calls nothing.
  lemma LinkUncalled(c: Chain, reg: Registration, i: nat, hook: string, w: World, safe: bool)
    ensures var c' := Link(c, reg, i, hook, w, safe);
      |c'.calls| > |c.calls| ||
      (&& c'.calls == c.calls && c'.payload == c.payload && c'.executed == c.executed
       && (!safe ==> c'.skipped == c.skipped)
       && (c'.stop == c.stop
           || (c.stop.None? && c'.stop == Some(Errored(reg.slug, NotMarshalled)) && !w.marshals(c.payload))
           || (c.stop.None? && !safe && c'.stop == Some(Errored(reg.slug, BreakerOpen)))))
  {
    StepExactly(c.breakers, reg, hook, c.payload, i, w);
  }

  // A link that makes a call.
  lemma LinkCalled(c: Chain, reg: Registration, i: nat, hook: string, w: World, safe: bool)
    requires |Link(c, reg, i, hook, w, safe).calls| > |c.calls|
    ensures var c', call := Link(c, reg, i, hook, w, safe), Call(reg, c.payload, w.call(i, reg, c.payload));
      && c.stop.None? && c'.calls == c.calls + [call] && c'.skipped == c.skipped
      && c'.payload == (match call.reply case Answer(Modify, Some(changed)) => changed case _ => c.payload)
      && c'.executed == (if Passed(call.reply) then c.executed + [reg.slug] else c.executed)
      && c'.stop == (if Passed(call.reply) then None else Some(StopOf(call)))
  {
    StepExactly(c.breakers, reg, hook, c.payload, i, w);
  }

  lemma LinkEnds(c: Chain, payload: string, reg: Registration, i: nat, hook: string, w: World, safe: bool)
    requires EndedBy(c, payload, w, safe)
    ensures EndedBy(Link(c, reg, i, hook, w, safe), payload, w, safe)
  {
    hide Link, EndedBy;
    LinkUncalled(c, reg, i, hook, w, safe);
    var c' := Link(c, reg, i, hook, w, safe);
    if |c'.calls| > |c.calls| {
      LinkCalled(c, reg, i, hook, w, safe);
      CalledEnds(c, c', Call(reg, c.payload, w.call(i, reg, c.payload)), payload, w, safe);
    } else {
      UncalledEnds(c, c', reg.slug, payload, w, safe);
    }
  }

  lemma UncalledEnds(c: Chain, c': Chain, slug: string, payload: string, w: World, safe: bool)
    requires EndedBy(c, payload, w, safe)
    requires c'.calls == c.calls && c'.payload == c.payload && c'.executed == c.executed && (!safe ==> c'.skipped == c.skipped)
    requires c'.stop == c.stop
             || (c.stop.None? && c'.stop == Some(Errored(slug, NotMarshalled)) && !w.marshals(c.payload))
             || (c.stop.None? && !safe && c'.stop == Some(Errored(slug, BreakerOpen)))
    ensures EndedBy(c', payload, w, safe)
  {
    hide PassedOn;
    if c'.stop == c.stop {
      assert UncalledStop(c, w, safe) ==> UncalledStop(c', w, safe);
    } else {
      assert UncalledStop(c', w, safe);
    }
  }

  lemma CalledEnds(c: Chain, c': Chain, call: Call, payload: string, w: World, safe: bool)
    requires EndedBy(c, payload, w, safe) && c.stop.None? && call.payload == c.payload
    requires c'.calls == c.calls + [call] && c'.skipped == c.skipped
    requires c'.payload == match call.reply case Answer(Modify, Some(changed)) => changed case _ => c.payload
    requires c'.executed == if Passed(call.reply) then c.executed + [call.reg.slug] else c.executed
    requires c'.stop == if Passed(call.reply) then None else Some(StopOf(call))
    ensures EndedBy(c', payload, w, safe)
  {
    assert !LastStops(c.calls);
    PassedSnoc(c.calls, call, payload);
    assert c'.calls[|c'.calls| - 1] == call;
    hide PassedOn, StopOf, UncalledStop;
    assert forall k :: 0 <= k < |c.executed| ==> c'.calls[k] == c.calls[k];
  }

  lemma PassedSnoc(calls: seq<Call>, call: Call, payload: string)
    requires PassedOn(calls, payload) && call.payload == LeftBy(calls, payload) && !LastStops(calls)
    ensures PassedOn(calls + [call], payload)
  {
    var all := calls + [call];
    forall k | 0 <= k < |all|
      ensures all[k].payload == LeftBy(all[..k], payload)
    {
      if k < |calls| {
        assert all[..k] == calls[..k];
      } else {
        assert all[..k] == calls;
      }
    }
  }

  /** Payloads, executed plugins and the stop of every chain are what the replies to its calls say. */
  lemma {:induction false} ChainEnds(payload: string, breakers: Breakers, regs: seq<Registration>, n: nat, hook: string, w: World, safe: bool)
    requires n <= |regs|
    ensures EndedBy(Fold(Start(payload, breakers), regs, n, hook, w, safe), payload, w, safe)
  {
    hide Link, EndedBy;
    if n == 0 {
      StartEnds(payload, breakers, w, safe);
    } else {
      ChainEnds(payload, breakers, regs, n - 1, hook, w, safe);
      LinkEnds(Fold(Start(payload, breakers), regs, n - 1, hook, w, safe), payload, regs[n - 1], n - 1, hook, w, safe);
    }
  }

  lemma StartEnds(payload: string, breakers: Breakers, w: World, safe: bool)
    ensures EndedBy(Start(payload, breakers), payload, w, safe)
  {
  }

  // No sync registration before position n is left out, but those that were skipped, and only the safe mode skips.
  ghost predicate NoneLeftOut(c: Chain, regs: seq<Registration>, n: nat, at: seq<nat>, safe: bool)
    requires n <= |regs|
  {
    forall i: nat | i < n && regs[i].hookType == Sync :: i in at || (safe && regs[i].slug in c.skipped)
  }

  // The chain stopped at this sync registration, and called nothing after it.
  ghost predicate StoppedAt(c: Chain, regs: seq<Registration>, i: nat, at: seq<nat>, safe: bool)
    requires i < |regs|
  {
    && c.stop.Some? && c.stop.value.slug == regs[i].slug && regs[i].hookType == Sync
    && (forall k :: 0 <= k < |at| ==> at[k] <= i) && NoneLeftOut(c, regs, i, at, safe)
  }

  /**
   The calls of every chain are made at sync registrations, in list order. Until
   it stops no sync registration is left out, but those that were skipped, and
   only the safe mode skips; and it stops at a sync registration.
   */
  lemma {:induction false} CallsMadeAt(payload: string, breakers: Breakers, regs: seq<Registration>, n: nat, hook: string, w: World, safe: bool)
    returns (at: seq<nat>)
    requires n <= |regs|
    ensures var c := Fold(Start(payload, breakers), regs, n, hook, w, safe);
      && MadeAt(c.calls, regs, n, at, w)
      && (c.stop.None? ==> NoneLeftOut(c, regs, n, at, safe))
      && (c.stop.Some? ==> exists i: nat :: i < n && StoppedAt(c, regs, i, at, safe))
  {
    hide Link, Fold, MadeAt, StoppedAt;
    FoldStart(Start(payload, breakers), regs, hook, w, safe);
    if n == 0 {
      at := [];
      NothingMade(regs, w);
    } else {
      at := CallsMadeAt(payload, breakers, regs, n - 1, hook, w, safe);
      FoldNext(Start(payload, breakers), regs, n - 1, hook, w, safe);
      at := OneMoreAt(Fold(Start(payload, breakers), regs, n - 1, hook, w, safe), regs, n, at, hook, w, safe);
    }
  }

  lemma NothingMade(regs: seq<Registration>, w: World)
    ensures MadeAt([], regs, 0, [], w)
  {
  }

  // The positions after the n-th registration.
  lemma OneMoreAt(c: Chain, regs: seq<Registration>, n: nat, at: seq<nat>, hook: string, w: World, safe: bool) returns (at': seq<nat>)
    requires 0 < n <= |regs| && MadeAt(c.calls, regs, n - 1, at, w)
    requires c.stop.None? ==> NoneLeftOut(c, regs, n - 1, at, safe)
    requires c.stop.Some? ==> exists i: nat :: i < n - 1 && StoppedAt(c, regs, i, at, safe)
    ensures var c' := Link(c, regs[n - 1], n - 1, hook, w, safe);
      && MadeAt(c'.calls, regs, n, at', w)
      && (c'.stop.None? ==> NoneLeftOut(c', regs, n, at', safe))
      && (c'.stop.Some? ==> exists i: nat :: i < n && StoppedAt(c', regs, i, at', safe))
  {
    hide Link;
    LinkCalls(c, regs[n - 1], n - 1, hook, w, safe);
    var c' := Link(c, regs[n - 1], n - 1, hook, w, safe);
    if |c'.calls| > |c.calls| {
      at' := at + [n - 1];
      assert forall i :: i in at' <==> i in at || i == n - 1;
    } else {
      at' := at;
    }
    if c.stop.Some? {
      assert c' == c;
      var i: nat :| i < n - 1 && StoppedAt(c, regs, i, at, safe);
      assert StoppedAt(c', regs, i, at', safe);
    } else if c'.stop.Some? {
      assert StoppedAt(c', regs, n - 1, at', safe);
    }
  }

  lemma LinkCalls(c: Chain, reg: Registration, i: nat, hook: string, w: World, safe: bool)
    ensures var c' := Link(c, reg, i, hook, w, safe);
      && (c'.stop.None? ==> c.stop.None?) && (forall s :: s in c.skipped ==> s in c'.skipped)
      && (|c'.calls| <= |c.calls| ==> c'.calls == c.calls)
      && (|c'.calls| > |c.calls| ==> reg.hookType == Sync && w.marshals(c.payload))
      && (|c'.calls| > |c.calls| ==> c'.calls == c.calls + [Call(reg, c.payload, w.call(i, reg, c.payload))])
      && (c'.stop.None? && reg.hookType == Sync && |c'.calls| <= |c.calls| ==> safe && reg.slug in c'.skipped)
      && (c.stop.Some? ==> c' == c)
      && (c.stop.None? && c'.stop.Some? ==> reg.hookType == Sync && c'.stop.value.slug == reg.slug)
  {
    StepExactly(c.breakers, reg, hook, c.payload, i, w);
  }

  /** On a sorted list plugins are called in priority order. */
  lemma CallsByPriority(payload: string, breakers: Breakers, regs: seq<Registration>, hook: string, w: World, safe: bool, j: nat, k: nat)
    requires forall a, b :: 0 <= a < b < |regs| ==> regs[a].priority <= regs[b].priority
    requires j < k < |Fold(Start(payload, breakers), regs, |regs|, hook, w, safe).calls|
    ensures var calls := Fold(Start(payload, breakers), regs, |regs|, hook, w, safe).calls;
      calls[j].reg.priority <= calls[k].reg.priority
  {
    var at := CallsMadeAt(payload, breakers, regs, |regs|, hook, w, safe);
  }

  // ---- Results ----

  /** What a plain dispatch gives back, by the calls it made. */
  ghost predicate PlainOutcome(payload: string, made: seq<Call>, out: Result<string, Stop>) {
    && PassedOn(made, payload)
    && match out
       case Ok(left) => !LastStops(made) && left == LeftBy(made, payload)
       case Err(stop) =>
         if LastStops(made) then stop == StopOf(made[|made| - 1])
         else stop.Errored? && (stop.error == NotMarshalled || stop.error == BreakerOpen)
  }

  lemma PlainExactly(payload: string, breakers: Breakers, regs: seq<Registration>, hook: string, w: World)
    ensures var c := Fold(Start(payload, breakers), regs, |regs|, hook, w, false);
      PlainOutcome(payload, c.calls, if c.stop.None? then Ok(c.payload) else Err(c.stop.value))
  {
    ChainEnds(payload, breakers, regs, |regs|, hook, w, false);
  }

  /**
   What a safe dispatch gives back, by the calls it made: a requested roll-back
   hands back the original payload and compensates nothing; any other stop keeps
   what the last plugin that passed has left and compensates exactly the executed
   plugins; without a stop the payload is what the last call has left.
   */
  ghost predicate SafeOutcome(payload: string, hook: string, made: seq<Call>, undone: seq<UndoCall>, result: ChainResult, u: UndoWorld) {
    && PassedOn(made, payload)
    && result.originalPayload == payload && (result.compensated <==> result.err.Some?)
    && |result.executed| == (if LastStops(made) then |made| - 1 else |made|)
    && (forall k :: 0 <= k < |result.executed| ==> result.executed[k] == made[k].reg.slug)
    && (if LastStops(made) then result.err == Some(StopOf(made[|made| - 1]))
        else result.err.None? || exists slug :: result.err == Some(Errored(slug, NotMarshalled)))
    && (match result.err
        case None =>
          result.payload == LeftBy(made, payload) && result.failedCompensations == [] && undone == []
        case Some(RolledBack(_)) =>
          result.payload == payload && result.failedCompensations == [] && undone == []
        case Some(_) =>
          && result.payload == LeftBy(made, payload)
          && result.failedCompensations == FailuresDownTo(result.executed, 0, hook + ".compensate", payload, u)
          && undone == UndoCallsDownTo(result.executed, 0, payload, u))
  }

  lemma SafeExactly(payload: string, breakers: Breakers, regs: seq<Registration>, hook: string, w: World, u: UndoWorld)
    ensures var c := Fold(Start(payload, breakers), regs, |regs|, hook, w, true);
      SafeOutcome(payload, hook, c.calls, SafeUndoCalls(c, payload, u), SafeResult(c, hook, payload, u), u)
  {
    ChainEnds(payload, breakers, regs, |regs|, hook, w, true);
  }

  /** Without a skipped plugin both modes succeed together, and with the same payload. */
  lemma SafeAndPlainPayload(payload: string, breakers: Breakers, regs: seq<Registration>, hook: string, w: World, u: UndoWorld)
    requires Fold(Start(payload, breakers), regs, |regs|, hook, w, true).skipped == []
    ensures var plain := Fold(Start(payload, breakers), regs, |regs|, hook, w, false);
      var result := SafeResult(Fold(Start(payload, breakers), regs, |regs|, hook, w, true), hook, payload, u);
      && (result.err.None? <==> plain.stop.None?) && (result.err.None? ==> result.payload == plain.payload)
      && result.err == plain.stop
  {
    ModesAgree(payload, breakers, regs, |regs|, hook, w);
  }
}
