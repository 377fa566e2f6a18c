/**
 PluginInstancePool of internal/plugin/runtime.go as an object whose methods
 run without interruption. Every method logs the steps of PoolSteps that it
 takes, so the results about all interleavings apply to the object too.
 */
module RunnerPool {
  import opened Wrappers
  import opened PoolSteps
  import opened PoolInvariant
  import opened PoolTheorems

  datatype AcquireError = PluginDraining | ContextDone | ReplacementFailed

  // callOnPool fails before the call, with the call's own error, or because its context has ended.
  datatype CallError = TimedOut | NotAcquired(error: AcquireError) | HookFailed(corrupted: bool)

  // Where a goroutine stands while no method is running.
  predicate AtRest(pc: Pc) {
    pc.Done? || pc.Holding? || pc.Owed? || pc.Fill? || pc.DrainWait?
  }

  ghost predicate Settled(s: Pool) {
    && (forall t :: 0 <= t < |s.threads| ==> AtRest(s.threads[t]))
    && s.rolledBack == 0
    && (s.draining ==> (s.drained <==> Held(s.threads) == 0))
  }

  // Which part of the state machine a goroutine is in.

  lemma Releases(s: Pool, t: nat, c: Choice)
    requires t < |s.threads| && (s.threads[t].Holding? || s.threads[t].RelDec?)
    ensures Next(s, Move(t, c)) == ReleaseStep(s, t, c)
  {
  }

  lemma Creates(s: Pool, t: nat, c: Choice)
    requires t < |s.threads| && (s.threads[t].Owed? || s.threads[t].Creating? || s.threads[t].Fill?)
    ensures Next(s, Move(t, c)) == CreateStep(s, t, c)
  {
  }

  lemma Sends(s: Pool, t: nat, c: Choice)
    requires t < |s.threads| && (s.threads[t].RelOpen? || s.threads[t].Created? || s.threads[t].FillCreated?)
    ensures Next(s, Move(t, c)) == SendStep(s, t, c)
  {
  }

  // Steps taken by the methods below, from the state they start in.

  function AcquireEvents(s: Pool, cancelled: bool, created: bool): seq<Event> {
    var t := |s.threads|;
    if s.draining then [EnterAcquire, Move(t, Proceed)]
    else if cancelled then [EnterAcquire, Move(t, Proceed), Move(t, Fail)]
    else [EnterAcquire, Move(t, Proceed), Move(t, Proceed), Move(t, Proceed), Move(t, if created then Proceed else Fail)]
  }

  function SignalEvents(fires: bool, t: nat): seq<Event> {
    if fires then [Move(t, Proceed), Move(t, Proceed)] else [Move(t, Proceed)]
  }

  // Giving back the last runner of a draining pool signals it.
  predicate Fires(s: Pool) {
    s.draining && s.active <= 1 && !s.drained
  }

  function ReleaseEvents(s: Pool, t: nat): seq<Event> {
    [Move(t, Proceed), Move(t, Proceed)]
    + if s.draining then SignalEvents(Fires(s), t) else [Move(t, Proceed)]
  }

  function DiscardEvents(s: Pool, t: nat): seq<Event> {
    [Move(t, Fail)] + SignalEvents(Fires(s), t)
  }

  function ReplaceEvents(s: Pool, t: nat, created: bool): seq<Event> {
    if s.draining then [Move(t, Proceed)]
    else if !created then [Move(t, Proceed), Move(t, Fail)]
    else [Move(t, Proceed), Move(t, Proceed), Move(t, Proceed)]
  }

  // Giving a runner back leaves a settled pool settled when the drain signal is right.
  lemma GivenBack(s: Pool, s': Pool, t: nat)
    requires Settled(s) && ActiveGood(s) && t < |s.threads| == |s'.threads| && s.threads[t].Holding?
    requires s'.threads == s.threads[t := s'.threads[t]] && AtRest(s'.threads[t]) && !s'.threads[t].Holding?
    requires s'.rolledBack == s.rolledBack && s'.draining == s.draining
    requires s'.drained <==> s.drained || (s.draining && s.active <= 1)
    ensures Settled(s')
    ensures s'.draining ==> (s'.drained <==> Held(s'.threads) == 0)
  {
    hide Held;
    SumsUpdate(s.threads, t, s'.threads[t]);
  }

  // Steps of a goroutine that holds nothing keep a settled pool settled.
  lemma NothingGivenBack(s: Pool, s': Pool, t: nat)
    requires Settled(s) && t < |s.threads| == |s'.threads| && !s.threads[t].Holding?
    requires s'.threads == s.threads[t := s'.threads[t]] && AtRest(s'.threads[t]) && !s'.threads[t].Holding?
    requires s'.rolledBack == s.rolledBack && s'.draining == s.draining && s'.drained == s.drained
    ensures Settled(s')
  {
    hide Held;
    SumsUpdate(s.threads, t, s'.threads[t]);
  }

  lemma Entered(s: Pool, s': Pool, pc: Pc)
    requires Settled(s) && AtRest(pc) && (pc.Holding? ==> !s.draining)
    requires s'.threads == s.threads + [pc]
    requires s'.rolledBack == s.rolledBack && s'.draining == s.draining && s'.drained == s.drained
    ensures Settled(s')
  {
    hide Held;
    SumsAppend(s.threads, pc);
  }

  lemma Begun(s: Pool, s': Pool)
    requires Settled(s) && Inv(s)
    requires s'.threads == s.threads + [if s.draining then Done else DrainWait]
    requires s'.rolledBack == s.rolledBack && s'.draining
    requires s'.drained == (s.drained || (!s.draining && s.active <= 0))
    ensures Settled(s') && (s'.drained <==> Held(s'.threads) == 0)
  {
    hide Held;
    SumsAppend(s.threads, s'.threads[|s.threads|]);
  }

  function ClampSize(size: int): nat {
    if size <= 0 then DEFAULT_POOL_SIZE else if size > MAX_POOL_SIZE then MAX_POOL_SIZE else size
  }

  function CountTrue(outcomes: seq<bool>): (n: nat)
    ensures n <= |outcomes|
  {
    if outcomes == [] then 0
    else CountTrue(outcomes[..|outcomes| - 1]) + (if outcomes[|outcomes| - 1] then 1 else 0)
  }

  // The creations that work.
  function Worked(outcomes: seq<bool>): set<nat> {
    set i: nat | i < |outcomes| && outcomes[i]
  }

  lemma WorkedSnoc(outcomes: seq<bool>)
    requires outcomes != []
    ensures var n := |outcomes| - 1;
      n !in Worked(outcomes[..n]) && Worked(outcomes) == if outcomes[n] then Worked(outcomes[..n]) + {n} else Worked(outcomes[..n])
  {
  }

  lemma {:induction false} TrueIs(outcomes: seq<bool>)
    ensures CountTrue(outcomes) == |Worked(outcomes)|
  {
    if outcomes == [] {
      assert Worked(outcomes) == {};
    } else {
      TrueIs(outcomes[..|outcomes| - 1]);
      WorkedSnoc(outcomes);
      hide Worked;
    }
  }

  // How many of the first n creations succeed before one fails.
  function Leading(outcomes: seq<bool>, n: nat): (k: nat)
    requires n <= |outcomes|
    ensures k <= n && (forall i :: 0 <= i < k ==> outcomes[i]) && (k < n ==> !outcomes[k])
  {
    if n == 0 || !outcomes[0] then 0 else 1 + Leading(outcomes[1..], n - 1)
  }

  class PluginInstancePool {
    const poolSize: nat
    var chan: seq<nat>
    var chanClosed: bool
    var draining: bool
    var active: int
    var drained: bool
    var runners: seq<Runner>

    ghost const precreated: nat
    ghost var threads: seq<Pc>
    ghost var rolledBack: nat
    ghost var history: seq<Event>

    ghost function State(): Pool
      reads this
    {
      Pool(poolSize, chan, chanClosed, draining, active, drained, runners, threads, rolledBack)
    }

    // The object is in the state its logged steps lead to.
    ghost predicate Logged()
      reads this
    {
      && 1 <= precreated <= poolSize
      && State() == Run(Fresh(poolSize, precreated), history)
    }

    ghost predicate Valid()
      reads this
    {
      Logged() && Settled(State())
    }

    lemma Safe()
      requires Logged()
      ensures Inv(State())
    {
      FreshInv(poolSize, precreated);
      RunKeepsInv(Fresh(poolSize, precreated), history);
    }

    // A runner waiting in the channel is open and has uses left.
    lemma HeadReady()
      requires Logged() && chan != []
      ensures Alive(State(), chan[0]) && runners[chan[0]].uses < MAX_RUNNER_USES
    {
      Safe();
      ChanAlive(State(), 0);
    }

    // Between methods `active` is exactly the number of runners handed out.
    lemma ActiveIsHeld()
      requires Valid()
      ensures active == Held(threads)
    {
      Safe();
    }

    // The fields have just been changed as one step from s changes them.
    ghost method Log(s: Pool, e: Event)
      requires 1 <= precreated <= poolSize && s == Run(Fresh(poolSize, precreated), history)
      requires State() == Next(s, e).(threads := threads, rolledBack := rolledBack)
      modifies this`threads, this`rolledBack, this`history
      ensures State() == Next(s, e) && history == old(history) + [e] && Logged()
    {
      RunSnoc(Fresh(poolSize, precreated), history, e);
      threads := Next(s, e).threads;
      rolledBack := Next(s, e).rolledBack;
      history := history + [e];
    }

    // ---- newPluginInstancePool ----

    constructor (size: nat, slots: seq<nat>)
      requires 1 <= |slots| <= size && slots == seq(|slots|, i => i)
      ensures Valid() && State() == Fresh(size, |slots|) && history == []
    {
      poolSize, chan, runners := size, slots, seq(|slots|, _ => Runner(0, 0));
      chanClosed, draining, active, drained := false, false, 0, false;
      precreated := |slots|;
      threads := if |slots| < size then [Fill(size - |slots|)] else [];
      rolledBack, history := 0, [];
    }

    /**
     Tries to create as many runners as the size says, 4 when it is not positive
     and 16 at most; null when every creation fails. What could not be created is
     left to the background fill.
     */
    static method New(size: int, factory: seq<bool>) returns (p: PluginInstancePool?)
      requires |factory| == if size <= 0 then 4 else if size > 16 then 16 else size
      ensures p == null <==> Worked(factory) == {}
      ensures p != null ==> fresh(p) && p.Valid() && p.poolSize == |factory| && !p.draining && p.active == 0
      ensures p != null ==> |p.chan| == |Worked(factory)| <= |factory|
      ensures p != null ==> p.threads == if |p.chan| < |factory| then [Fill(|factory| - |p.chan|)] else []
      ensures p != null ==> p.State() == Fresh(|factory|, |p.chan|)
    {
      TrueIs(factory);
      var n: nat := ClampSize(size);
      var slots: seq<nat> := [];
      for i := 0 to n
        invariant |slots| == CountTrue(factory[..i])
        invariant slots == seq(|slots|, j => j)
      {
        assert factory[..i + 1][..i] == factory[..i];
        if factory[i] {
          slots := slots + [|slots|];
        }
      }
      assert factory[..n] == factory;
      if slots == [] {
        return null;
      }
      p := new PluginInstancePool(n, slots);
    }

    // ---- Acquire ----

    method FastPath() returns (open: bool, ghost t: nat)
      requires Logged()
      modifies this`threads, this`rolledBack, this`history
      ensures Logged() && open == !draining && t == old(|threads|) && rolledBack == old(rolledBack)
      ensures threads == old(threads) + [if open then AcqWait else Done]
      ensures history == old(history) + [EnterAcquire, Move(t, Proceed)]
    {
      t := |threads|;
      open := !draining;
      Log(State(), EnterAcquire);
      Log(State(), Move(t, Proceed));
    }

    ghost method GiveUp(t: nat)
      requires Logged() && t < |threads| && threads[t] == AcqWait
      modifies this`threads, this`rolledBack, this`history
      ensures Logged() && threads == old(threads)[t := Done] && rolledBack == old(rolledBack)
      ensures history == old(history) + [Move(t, Fail)]
    {
      Log(State(), Move(t, Fail));
    }

    // Receive from the channel, then read `draining` again.
    method Receive(ghost t: nat) returns (r: nat)
      requires Logged() && t < |threads| && threads[t] == AcqWait && chan != [] && !draining
      modifies this`chan, this`threads, this`rolledBack, this`history
      ensures Logged() && rolledBack == old(rolledBack)
      ensures r == old(chan[0]) && chan == old(chan[1..])
      ensures threads == old(threads)[t := AcqPassed(r)]
      ensures history == old(history) + [Move(t, Proceed), Move(t, Proceed)]
    {
      hide Run;
      ghost var s := State();
      r := chan[0];
      chan := chan[1..];
      Log(s, Move(t, Proceed));
      assert threads == old(threads)[t := AcqGot(r)];
      Log(State(), Move(t, Proceed));
    }

    // Replace the runner if it is used up, then count the use and the holder.
    method Admit(ghost t: nat, r: nat, created: bool) returns (out: Result<nat, AcquireError>)
      requires Logged() && t < |threads| && threads[t] == AcqPassed(r) && r < |runners|
      modifies this`runners, this`active, this`threads, this`rolledBack, this`history
      ensures Logged() && rolledBack == old(rolledBack)
      ensures history == old(history) + [Move(t, if created then Proceed else Fail)]
      ensures old(runners[r].uses) < MAX_RUNNER_USES ==>
                out == Ok(r) && runners == old(runners)[r := old(runners[r]).(uses := old(runners[r].uses) + 1)]
      ensures out.Ok? ==> threads == old(threads)[t := Holding(out.value)] && active == old(active) + 1
      ensures out.Err? ==> out.error == ReplacementFailed && threads == old(threads)[t := Done] && active == old(active)
    {
      hide Run, Held, Places;
      ghost var s := State();
      if runners[r].uses < MAX_RUNNER_USES {
        runners := runners[r := runners[r].(uses := runners[r].uses + 1)];
        active := active + 1;
        out := Ok(r);
      } else {
        runners := runners[r := runners[r].(closes := runners[r].closes + 1)];
        if created {
          runners := runners + [Runner(1, 0)];
          active := active + 1;
          out := Ok(|runners| - 1);
        } else {
          out := Err(ReplacementFailed);
        }
      }
      Log(s, Move(t, if created then Proceed else Fail));
    }

    /** Acquire, called in a state in which it does not block. */
    method Acquire(cancelled: bool, created: bool) returns (out: Result<nat, AcquireError>, ghost t: nat)
      requires Valid()
      requires draining || cancelled || chan != []
      modifies this`chan, this`runners, this`active, this`threads, this`rolledBack, this`history
      ensures Valid() && t == old(|threads|)
      ensures history == old(history) + AcquireEvents(old(State()), cancelled, created)
      ensures out == if old(draining) then Err(PluginDraining)
                     else if cancelled then Err(ContextDone) else Ok(old(chan)[0])
      ensures threads == old(threads) + [if out.Ok? then Holding(out.value) else Done]
      ensures out.Ok? ==> active == old(active) + 1 && chan == old(chan)[1..]
      ensures out.Ok? ==> var r := out.value;
                r < old(|runners|) && old(runners[r].closes) == 0 && old(runners[r].uses) < MAX_RUNNER_USES
                && runners == old(runners)[r := Runner(old(runners[r].uses) + 1, 0)]
      ensures out.Err? ==> active == old(active) && chan == old(chan) && runners == old(runners)
    {
      hide Run, Inv, Next, Held, Places, Settled;
      ghost var s := State();
      var open;
      open, t := FastPath();
      if !open {
        out := Err(PluginDraining);
      } else if cancelled {
        GiveUp(t);
        out := Err(ContextDone);
      } else {
        HeadReady();
        var r := Receive(t);
        out := Admit(t, r, created);
      }
      assert threads == old(threads) + [if out.Ok? then Holding(out.value) else Done];
      Entered(s, State(), threads[t]);
    }

    // ---- Release ----

    method Decrement(ghost t: nat) returns (remaining: int)
      requires Logged() && t < |threads| && threads[t].Holding?
      modifies this`active, this`threads, this`rolledBack, this`history
      ensures Logged() && rolledBack == old(rolledBack)
      ensures remaining == active == old(active) - 1
      ensures threads == old(threads)[t := RelDec(old(threads[t].r), remaining)]
      ensures history == old(history) + [Move(t, Proceed)]
    {
      ghost var s := State();
      active := active - 1;
      remaining := active;
      Log(s, Move(t, Proceed));
    }

    // Release in a draining pool: close the runner instead of returning it.
    method CloseInstead(ghost t: nat, r: nat, ghost remaining: int)
      requires Logged() && t < |threads| && threads[t] == RelDec(r, remaining) && draining && r < |runners|
      modifies this`runners, this`threads, this`rolledBack, this`history
      ensures Logged() && rolledBack == old(rolledBack)
      ensures runners == old(runners)[r := old(runners[r]).(closes := old(runners[r].closes) + 1)]
      ensures threads == old(threads)[t := Signal(remaining, false)]
      ensures history == old(history) + [Move(t, Proceed)]
    {
      ghost var s := State();
      runners := runners[r := runners[r].(closes := runners[r].closes + 1)];
      Log(s, Move(t, Proceed));
    }

    // Release in an open pool: put the runner back, or close it when used up.
    method PutBack(ghost t: nat, r: nat, ghost remaining: int)
      requires Logged() && t < |threads| && threads[t] == RelDec(r, remaining) && !draining
      requires r < |runners| && |chan| < poolSize && !chanClosed
      modifies this`chan, this`runners, this`threads, this`rolledBack, this`history
      ensures Logged() && rolledBack == old(rolledBack)
      ensures history == old(history) + [Move(t, Proceed), Move(t, Proceed)]
      ensures if old(runners[r].uses) >= MAX_RUNNER_USES
              then chan == old(chan) && threads == old(threads)[t := Owed]
                   && runners == old(runners)[r := old(runners[r]).(closes := old(runners[r].closes) + 1)]
              else chan == old(chan) + [r] && threads == old(threads)[t := Done] && runners == old(runners)
    {
      hide Run, Next;
      Releases(State(), t, Proceed);
      Log(State(), Move(t, Proceed));
      ghost var s := State();
      Sends(s, t, Proceed);
      if runners[r].uses >= MAX_RUNNER_USES {
        runners := runners[r := runners[r].(closes := runners[r].closes + 1)];
      } else {
        chan := chan + [r];
      }
      Log(s, Move(t, Proceed));
    }

    // Without another goroutine between its two steps; PoolRaces.DrainedClosedTwice has one there.
    method SignalDrainIfNeeded(ghost t: nat, remaining: int, ghost owes: bool)
      requires Logged() && t < |threads| && threads[t] == Signal(remaining, owes)
      modifies this`drained, this`threads, this`rolledBack, this`history
      ensures Logged() && rolledBack == old(rolledBack)
      ensures drained <==> old(drained) || (draining && remaining <= 0)
      ensures threads == old(threads)[t := AfterSignal(owes)]
      ensures history == old(history) + SignalEvents(draining && remaining <= 0 && !old(drained), t)
    {
      if draining && remaining <= 0 && !drained {
        Log(State(), Move(t, Proceed));
        ghost var s := State();
        drained := true;
        Log(s, Move(t, Proceed));
      } else {
        Log(State(), Move(t, Proceed));
      }
    }

    // What is known of a runner about to be given back.
    lemma HolderReady(t: nat)
      requires Logged() && t < |threads| && threads[t].Holding?
      ensures threads[t].r < |runners| && Alive(State(), threads[t].r)
      ensures |chan| < poolSize && (chanClosed ==> draining) && ActiveGood(State())
    {
      Safe();
      HandAlive(State(), t);
      SumsUpdate(threads, t, Done);
    }

    /** Release of the runner that goroutine t holds. */
    method Release(ghost t: nat, r: nat)
      requires Valid() && t < |threads| && threads[t] == Holding(r)
      modifies this`chan, this`runners, this`active, this`drained, this`threads, this`rolledBack, this`history
      ensures Valid() && history == old(history) + ReleaseEvents(old(State()), t)
      ensures active == old(active) - 1
      ensures r < |old(runners)| && var last := old(runners)[r].uses >= 10_000;
        && chan == (if draining || last then old(chan) else old(chan) + [r])
        && runners == (if draining || last then old(runners)[r := Runner(old(runners)[r].uses, 1)] else old(runners))
        && threads == old(threads)[t := if !draining && last then Owed else Done]
      ensures draining ==> (drained <==> Held(threads) == 0)
    {
      hide Run, Inv, Next, Held, Places, SignalEvents, Settled, Alive;
      ghost var s := State();
      HolderReady(t);
      var remaining := Decrement(t);
      if draining {
        CloseInstead(t, r, remaining);
        SignalDrainIfNeeded(t, remaining, false);
        assert threads == old(threads)[t := Done];
      } else {
        PutBack(t, r, remaining);
        assert threads == old(threads)[t := Done] || threads == old(threads)[t := Owed];
      }
      GivenBack(s, State(), t);
    }

    // The discard path of callOnPool: close the corrupted runner, give up its
    // slot, and leave a replaceInstance goroutine behind.
    method Discard(ghost t: nat, r: nat)
      requires Valid() && t < |threads| && threads[t] == Holding(r)
      modifies this`active, this`runners, this`drained, this`threads, this`rolledBack, this`history
      ensures Valid() && history == old(history) + DiscardEvents(old(State()), t)
      ensures active == old(active) - 1 && threads == old(threads)[t := Owed]
      ensures r < |old(runners)| && runners == old(runners)[r := Runner(old(runners)[r].uses, 1)]
      ensures draining ==> (drained <==> Held(threads) == 0)
    {
      hide Run, Inv, Held, Places, SignalEvents, Settled, Alive;
      ghost var s := State();
      HolderReady(t);
      runners := runners[r := runners[r].(closes := runners[r].closes + 1)];
      active := active - 1;
      var remaining := active;
      Log(s, Move(t, Fail));
      SignalDrainIfNeeded(t, remaining, true);
      assert threads == old(threads)[t := Owed];
      GivenBack(s, State(), t);
    }

    // ---- replaceInstance and backgroundFill ----

    lemma RoomToRefill(t: nat)
      requires Logged() && t < |threads| && Weight(threads[t]) >= 1
      ensures |chan| < poolSize
    {
      Safe();
      SumsUpdate(threads, t, Done);
    }

    method CreateAndSend(ghost t: nat)
      requires Logged() && t < |threads| && threads[t] == Creating && !draining && |chan| < poolSize
      modifies this`chan, this`runners, this`threads, this`rolledBack, this`history
      ensures Logged() && rolledBack == old(rolledBack) && threads == old(threads)[t := Done]
      ensures history == old(history) + [Move(t, Proceed), Move(t, Proceed)]
      ensures chan == old(chan) + [old(|runners|)] && runners == old(runners) + [Runner(0, 0)]
    {
      hide Run, Next;
      ghost var s := State();
      Creates(s, t, Proceed);
      runners := runners + [Runner(0, 0)];
      Log(s, Move(t, Proceed));
      s := State();
      Sends(s, t, Proceed);
      chan := chan + [|runners| - 1];
      Log(s, Move(t, Proceed));
    }

    /** The goroutine started for a runner that was closed. */
    method ReplaceInstance(ghost t: nat, created: bool)
      requires Valid() && t < |threads| && threads[t] == Owed
      modifies this`chan, this`runners, this`threads, this`rolledBack, this`history
      ensures Valid() && history == old(history) + ReplaceEvents(old(State()), t, created)
      ensures threads == old(threads)[t := Done]
      ensures if draining || !created then chan == old(chan) && runners == old(runners)
              else chan == old(chan) + [old(|runners|)] && runners == old(runners) + [Runner(0, 0)]
    {
      hide Run, Inv, Held, Places, Settled;
      ghost var s0 := State();
      RoomToRefill(t);
      Log(State(), Move(t, Proceed));
      if !draining {
        if !created {
          Log(State(), Move(t, Fail));
        } else {
          CreateAndSend(t);
        }
      }
      assert threads == old(threads)[t := Done];
      NothingGivenBack(s0, State(), t);
    }

    // One creation of backgroundFill; false when it stops.
    method FillOne(ghost t: nat, created: bool) returns (more: bool)
      requires Logged() && t < |threads| && threads[t].Fill? && threads[t].n >= 1
      modifies this`chan, this`runners, this`threads, this`rolledBack, this`history
      ensures Logged() && rolledBack == old(rolledBack) && more == (created && !draining)
      ensures threads == old(threads)[t := if more then Fill(old(threads[t].n) - 1) else Done]
      ensures more ==> chan == old(chan) + [old(|runners|)] && runners == old(runners) + [Runner(0, 0)]
      ensures !more ==> chan == old(chan)
      ensures !created ==> runners == old(runners)
      ensures created && draining ==> runners == old(runners) + [Runner(0, 1)]
    {
      hide Run, Inv, Held, Places, Next;
      RoomToRefill(t);
      ghost var s := State();
      Creates(s, t, Fail);
      Creates(s, t, Proceed);
      if !created {
        Log(s, Move(t, Fail));
        return false;
      }
      runners := runners + [Runner(0, 0)];
      Log(s, Move(t, Proceed));
      FillSend(t);
      assert draining ==> runners == old(runners) + [Runner(0, 1)];
      more := !draining;
    }

    // trySendToPool of the runner just created by backgroundFill.
    method FillSend(ghost t: nat)
      requires Logged() && t < |threads| && threads[t].FillCreated? && threads[t].r == |runners| - 1
      requires |chan| < poolSize && runners != [] && runners[|runners| - 1] == Runner(0, 0)
      modifies this`chan, this`runners, this`threads, this`rolledBack, this`history
      ensures Logged() && rolledBack == old(rolledBack)
      ensures threads == old(threads)[t := if draining then Done else Fill(old(threads[t].n))]
      ensures |runners| == old(|runners|) && chan == if draining then old(chan) else old(chan) + [|runners| - 1]
      ensures runners == if draining then old(runners)[|runners| - 1 := Runner(0, 1)] else old(runners)
    {
      hide Run, Inv, Held, Places, Next;
      ghost var s := State();
      Sends(s, t, Proceed);
      if draining {
        runners := runners[|runners| - 1 := Runner(0, 1)];
      } else {
        chan := chan + [|runners| - 1];
      }
      Log(s, Move(t, Proceed));
    }

    /** backgroundFill, with the outcome of each creation given. */
    method BackgroundFill(ghost t: nat, count: nat, outcomes: seq<bool>)
      requires Valid() && t < |threads| && threads[t] == Fill(count) && |outcomes| == count
      modifies this`chan, this`runners, this`threads, this`rolledBack, this`history
      ensures Valid() && threads == old(threads)[t := Done]
      ensures !draining ==> var k := Leading(outcomes, count);
                chan == old(chan) + seq(k, i => old(|runners|) + i) && runners == old(runners) + seq(k, _ => Runner(0, 0))
      ensures draining ==> chan == old(chan)
      ensures draining ==> runners == if count > 0 && outcomes[0] then old(runners) + [Runner(0, 1)] else old(runners)
    {
      hide Run, Inv, Held, Places, Settled, Filling, Leading;
      ghost var s := State();
      var i := 0;
      var more := true;
      FillBegins(s, t, outcomes);
      while i < count && more
        invariant 0 <= i <= count && Logged() && rolledBack == s.rolledBack && t < |threads|
        invariant threads[t] == if more then Fill(count - i) else Done
        invariant Filling(s, State(), t, outcomes, i, more)
        decreases count - i, more
      {
        ghost var before := State();
        more := FillOne(t, outcomes[i]);
        FillThread(s, before, t, outcomes, i, true);
        FillStep(s, before, State(), t, outcomes, i, more);
        if more {
          i := i + 1;
        }
      }
      FillEnds(s, State(), t, outcomes, i, more);
      FillThread(s, State(), t, outcomes, i, more);
      if more {
        Creates(State(), t, Proceed);
        hide Next;
        Log(State(), Move(t, Proceed));
      }
      assert threads == s.threads[t := Done];
      NothingGivenBack(s, State(), t);
    }

    // ---- Drain ----

    /** Drain up to its wait: false when the pool is draining already. */
    method BeginDrain() returns (first: bool, ghost t: nat)
      requires Valid()
      modifies this`draining, this`drained, this`threads, this`rolledBack, this`history
      ensures Valid() && draining && t == old(|threads|) && first == !old(draining)
      ensures threads == old(threads) + [if first then DrainWait else Done]
      ensures history == old(history) + [EnterDrain, Move(t, Proceed)]
      ensures drained <==> Held(threads) == 0
    {
      hide Run, Inv, Held, Places, Settled;
      ghost var s := State();
      Safe();
      first, t := !draining, |threads|;
      Log(State(), EnterDrain);
      ghost var entered := State();
      if !draining {
        draining := true;
        if active <= 0 {
          drained := true;
        }
      }
      MayBegin(s, entered);
      Log(entered, Move(t, Proceed));
      assert threads == s.threads + [if first then DrainWait else Done];
      Begun(s, State());
    }

    lemma MayBegin(s: Pool, entered: Pool)
      requires 1 <= precreated <= poolSize
      requires Inv(s)
      requires entered == s.(threads := s.threads + [DrainStart])
      ensures Next(entered, Move(|s.threads|, Proceed)).threads
              == s.threads + [if s.draining then Done else DrainWait]
    {
    }

    method StartSweep(ghost t: nat, timedOut: bool)
      requires Valid() && t < |threads| && threads[t] == DrainWait && (drained || timedOut)
      modifies this`chanClosed, this`threads, this`rolledBack, this`history
      ensures Logged() && rolledBack == old(rolledBack) == 0 && chanClosed && threads == old(threads)[t := DrainSweep]
      ensures !timedOut ==> active == 0
    {
      hide Run, Held;
      Safe();
      Log(State(), Move(t, if timedOut then Fail else Proceed));
      ghost var s := State();
      chanClosed := true;
      Log(s, Move(t, Proceed));
    }

    ghost method EndSweep(t: nat)
      requires Logged() && t < |threads| && threads[t] == DrainSweep && chan == []
      modifies this`threads, this`rolledBack, this`history
      ensures Logged() && rolledBack == old(rolledBack) && threads == old(threads)[t := Done]
    {
      hide Run;
      Log(State(), Move(t, Proceed));
    }

    // One runner of the sweep at the end of Drain.
    method SweepOne(ghost t: nat)
      requires Logged() && t < |threads| && threads[t] == DrainSweep && chan != []
      modifies this`chan, this`runners, this`threads, this`rolledBack, this`history
      ensures Logged() && rolledBack == old(rolledBack) && threads == old(threads)
      ensures chan == old(chan)[1..]
      ensures old(chan)[0] < old(|runners|) && old(chan)[0] !in chan
      ensures runners == old(runners)[old(chan)[0] := old(runners)[old(chan)[0]].(closes := 1)]
    {
      Safe();
      ChanApart(State());
      ghost var s := State();
      var r := chan[0];
      chan := chan[1..];
      runners := runners[r := runners[r].(closes := runners[r].closes + 1)];
      Log(s, Move(t, Proceed));
    }

    /** Drain after its wait: signalled, or timed out with runners still out. */
    method FinishDrain(ghost t: nat, timedOut: bool)
      requires Valid() && t < |threads| && threads[t] == DrainWait && (drained || timedOut)
      modifies this`chan, this`chanClosed, this`runners, this`threads, this`rolledBack, this`history
      ensures Valid() && threads == old(threads)[t := Done]
      ensures chanClosed && chan == [] && |runners| == old(|runners|)
      ensures forall r :: 0 <= r < |runners| ==>
                runners[r] == if r in old(chan) then old(runners[r]).(closes := 1) else old(runners[r])
      ensures !timedOut ==> active == 0
    {
      hide Run, Inv, Held, Places;
      hide Settled, Next;
      ghost var s0 := State();
      StartSweep(t, timedOut);
      while chan != []
        invariant Logged() && chanClosed && rolledBack == 0 && threads == s0.threads[t := DrainSweep]
        invariant |runners| == |s0.runners|
        invariant forall r :: 0 <= r < |runners| ==> (r in chan ==> r in s0.chan)
        invariant forall r :: 0 <= r < |runners| ==>
          runners[r] == if r in s0.chan && r !in chan then s0.runners[r].(closes := 1) else s0.runners[r]
        decreases |chan|
      {
        ghost var before := chan;
        SweepOne(t);
        assert forall r :: r in before <==> r == before[0] || r in chan;
      }
      EndSweep(t);
      assert threads == s0.threads[t := Done];
      NothingGivenBack(s0, State(), t);
    }

    // ---- callOnPool ----

    /**
     callOnPool: run a hook on one runner. The outcome of the call is given:
     an output, a plain error, or an error that marks the runner as corrupted. So
     is whether the context had ended before Acquire, while it waited, or at the
     end of the call.
     */
    method CallOnPool<T>(expired: bool, cancelled: bool, created: bool, outcome: Result<T, bool>, late: bool)
      returns (out: Result<T, CallError>)
      requires Valid()
      requires expired || draining || cancelled || chan != []
      modifies this`chan, this`runners, this`active, this`drained, this`threads, this`rolledBack, this`history
      ensures Valid() && active == old(active)
      ensures out == if expired then Err(TimedOut)
                     else if old(draining) then Err(NotAcquired(PluginDraining))
                     else if cancelled then Err(NotAcquired(ContextDone))
                     else match outcome
                       case Ok(v) => Ok(v)
                       case Err(corrupted) => Err(if late && !corrupted then TimedOut else HookFailed(corrupted))
      ensures expired ==> State() == old(State())
      ensures !expired && (draining || cancelled) ==>
        chan == old(chan) && runners == old(runners) && threads == old(threads) + [Done]
      ensures !expired && !draining && !cancelled ==> Used(old(State()), State(), outcome == Err(true))
    {
      hide Run, Inv, Held, Places, Settled, Next;
      if expired {
        return Err(TimedOut);
      }
      var acquired;
      ghost var t;
      acquired, t := Acquire(cancelled, created);
      match acquired
      case Err(e) =>
        out := Err(NotAcquired(e));
      case Ok(r) =>
        if outcome == Err(true) {
          Discard(t, r);
        } else {
          Release(t, r);
        }
        assert threads == old(threads) + [threads[t]];
        out := match outcome
          case Ok(v) => Ok(v)
          case Err(corrupted) => Err(if late && !corrupted then TimedOut else HookFailed(corrupted));
    }
  }

  // The background fill after i creations that worked; `more` while it goes on.
  ghost predicate Filling(s: Pool, s': Pool, t: nat, outcomes: seq<bool>, i: nat, more: bool)
    requires i <= |outcomes|
  {
    var count := |outcomes|;
    && t < |s.threads| == |s'.threads| && s'.draining == s.draining
    && s'.threads == s.threads[t := if more then Fill(count - i) else Done]
    && (s.draining ==> s'.chan == s.chan && i == 0)
    && (s.draining && more ==> s'.runners == s.runners)
    && (s.draining && !more ==> count > 0 && s'.runners == if outcomes[0] then s.runners + [Runner(0, 1)] else s.runners)
    && (!s.draining && more ==> Leading(outcomes, count) == i + Leading(outcomes[i..], count - i) && Filled(s, s', i))
    && (!s.draining && !more ==> Filled(s, s', Leading(outcomes, count)))
  }

  lemma FillBegins(s: Pool, t: nat, outcomes: seq<bool>)
    requires t < |s.threads| && s.threads[t] == Fill(|outcomes|)
    ensures Filling(s, s, t, outcomes, 0, true)
  {
    assert outcomes[0..] == outcomes && s.threads[t := Fill(|outcomes|)] == s.threads;
  }

  lemma FillThread(s: Pool, s': Pool, t: nat, outcomes: seq<bool>, i: nat, more: bool)
    requires i <= |outcomes| && Filling(s, s', t, outcomes, i, more)
    ensures t < |s'.threads| == |s.threads| && s'.draining == s.draining
    ensures s'.threads == s.threads[t := if more then Fill(|outcomes| - i) else Done]
  {
  }

  // All creations made, or stopped by one that failed or by a drain.
  lemma FillEnds(s: Pool, s': Pool, t: nat, outcomes: seq<bool>, i: nat, more: bool)
    requires i <= |outcomes| && Filling(s, s', t, outcomes, i, more) && (more ==> i == |outcomes|)
    ensures !s.draining ==> Filled(s, s', Leading(outcomes, |outcomes|))
    ensures s.draining ==> s'.chan == s.chan
    ensures s.draining ==> s'.runners == if |outcomes| > 0 && outcomes[0] then s.runners + [Runner(0, 1)] else s.runners
  {
    assert i == |outcomes| ==> outcomes[i..] == [];
  }

  lemma FillStep(s: Pool, before: Pool, after: Pool, t: nat, outcomes: seq<bool>, i: nat, more: bool)
    requires i < |outcomes| && Filling(s, before, t, outcomes, i, true)
    requires more == (outcomes[i] && !s.draining) && after.draining == before.draining
    requires |after.threads| == |before.threads|
    requires after.threads == before.threads[t := if more then Fill(|outcomes| - i - 1) else Done]
    requires more ==> after.chan == before.chan + [|before.runners|] && after.runners == before.runners + [Runner(0, 0)]
    requires !more ==> after.chan == before.chan
    requires !more ==> after.runners == if outcomes[i] then before.runners + [Runner(0, 1)] else before.runners
    ensures Filling(s, after, t, outcomes, if more then i + 1 else i, more)
  {
    assert outcomes[i..][1..] == outcomes[i + 1..];
    assert after.threads == s.threads[t := after.threads[t]];
  }

  // k new runners at the end of the channel.
  ghost predicate Filled(s: Pool, s': Pool, k: nat) {
    s'.chan == s.chan + seq(k, i => |s.runners| + i) && s'.runners == s.runners + seq(k, _ => Runner(0, 0))
  }

  // The runner at the head of the channel has served one call: it is back at
  // the end of the channel, or closed with a replacement owed.
  ghost predicate Used(s: Pool, s': Pool, corrupted: bool) {
    && s.chan != [] && s.threads < s'.threads && s.chan[0] < |s.runners| == |s'.runners|
    && var r := s.chan[0];
       var uses := s.runners[r].uses + 1;
       if corrupted || uses >= MAX_RUNNER_USES
       then s'.chan == s.chan[1..] && s'.runners[r] == Runner(uses, 1) && s'.threads == s.threads + [Owed]
       else s'.chan == s.chan[1..] + [r] && s'.runners[r] == Runner(uses, 0) && s'.threads == s.threads + [Done]
  }
}
