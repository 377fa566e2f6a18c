/**
 The PluginInstancePool of internal/plugin/runtime.go, at the grain of its
 atomic sections: one step per mutex section, atomic add or channel operation.
 Every goroutine that enters the pool is a thread with a program counter, and
 the steps of all threads interleave freely.
 */
module PoolSteps {
  import opened Wrappers

  const MAX_RUNNER_USES: nat := 10_000
  const DEFAULT_POOL_SIZE: nat := 4
  const MAX_POOL_SIZE: nat := 16

  // A runner's use counter, and how often Close has been called on it.
  datatype Runner = Runner(uses: nat, closes: nat)

  datatype Pc =
    | Done
    | Crashed(lost: Option<nat>)            // a Go panic; `lost` is the runner in hand
    // Acquire
    | AcqStart                              // before the fast-path check
    | AcqWait                               // in the select on the channel
    | AcqGot(r: nat)                        // received, before the second check
    | AcqNil                                // received nil from the closed channel
    | AcqRollback(r: nat)                   // second check failed, about to call Release
    | AcqPassed(r: nat)                     // second check passed, not yet counted
    | Holding(r: nat)                       // Acquire has returned the runner
    // Release and the discard path of callOnPool
    | RelDec(r: nat, remaining: int)        // active decremented
    | RelOpen(r: nat)                       // draining was read as false
    | Signal(remaining: int, owes: bool)    // in signalDrainIfNeeded
    | SigClosing(owes: bool)                // saw `drained` open, about to close it
    // replaceInstance
    | Owed
    | Creating
    | Created(r: nat)
    // backgroundFill, with n creations to go
    | Fill(n: nat)
    | FillCreated(r: nat, n: nat)
    // Drain
    | DrainStart
    | DrainWait
    | DrainClosing
    | DrainSweep

  /**
   The shared state. `rolledBack` is a history variable: the number of releases
   made by the roll-back in Acquire, which were never counted as acquired.
   */
  datatype Pool = Pool(
    size: nat,
    chan: seq<nat>,
    chanClosed: bool,
    draining: bool,
    active: int,
    drained: bool,
    runners: seq<Runner>,
    threads: seq<Pc>,
    rolledBack: nat)

  // The environment's choice where a step has one: receive or give up waiting,
  // factory success or error, healthy or corrupted call, signal or timeout.
  datatype Choice = Proceed | Fail

  datatype Event =
    | EnterAcquire
    | EnterDrain
    | Move(t: nat, choice: Choice)

  // ---- Reading a state ----

  function Owns(pc: Pc): Option<nat> {
    match pc
    case Crashed(lost) => lost
    case AcqGot(r) => Some(r)
    case AcqRollback(r) => Some(r)
    case AcqPassed(r) => Some(r)
    case Holding(r) => Some(r)
    case RelDec(r, _) => Some(r)
    case RelOpen(r) => Some(r)
    case Created(r) => Some(r)
    case FillCreated(r, _) => Some(r)
    case _ => None
  }

  // Pool slots a thread has taken or is still to fill.
  function Weight(pc: Pc): nat {
    match pc
    case AcqGot(_) => 1
    case AcqRollback(_) => 1
    case AcqPassed(_) => 1
    case Holding(_) => 1
    case RelDec(_, _) => 1
    case RelOpen(_) => 1
    case Signal(_, owes) => if owes then 1 else 0
    case SigClosing(owes) => if owes then 1 else 0
    case Owed => 1
    case Creating => 1
    case Created(_) => 1
    case Fill(n) => n
    case FillCreated(_, n) => n + 1
    case _ => 0
  }

  function Load(threads: seq<Pc>): nat {
    if threads == [] then 0 else Load(threads[..|threads| - 1]) + Weight(threads[|threads| - 1])
  }

  // Runners handed out by Acquire and not yet given back.
  function Held(threads: seq<Pc>): nat {
    if threads == [] then 0
    else Held(threads[..|threads| - 1]) + (if threads[|threads| - 1].Holding? then 1 else 0)
  }

  // ---- Steps ----

  function At(s: Pool, t: nat, pc: Pc): Pool
    requires t < |s.threads|
  {
    s.(threads := s.threads[t := pc])
  }

  function CloseRunner(s: Pool, r: nat): Pool {
    if r < |s.runners| then s.(runners := s.runners[r := s.runners[r].(closes := s.runners[r].closes + 1)]) else s
  }

  function CountUse(s: Pool, r: nat): Pool {
    if r < |s.runners| then s.(runners := s.runners[r := s.runners[r].(uses := s.runners[r].uses + 1)]) else s
  }

  function NewRunner(s: Pool): Pool {
    s.(runners := s.runners + [Runner(0, 0)])
  }

  predicate Exhausted(s: Pool, r: nat) {
    r < |s.runners| && s.runners[r].uses >= MAX_RUNNER_USES
  }

  // What a thread does after signalDrainIfNeeded: the discard path then starts
  // a replaceInstance goroutine.
  function AfterSignal(owes: bool): Pc {
    if owes then Owed else Done
  }

  // Acquire up to the second check.
  function AcquireStep(s: Pool, t: nat, c: Choice): Pool
    requires t < |s.threads|
  {
    match s.threads[t]
    case AcqStart => At(s, t, if s.draining then Done else AcqWait)
    case AcqWait =>
      if c.Fail? then At(s, t, Done)
      else if s.chan != [] then At(s.(chan := s.chan[1..]), t, AcqGot(s.chan[0]))
      else if s.chanClosed then At(s, t, AcqNil)
      else s
    case AcqGot(r) => At(s, t, if s.draining then AcqRollback(r) else AcqPassed(r))
    case AcqNil => At(s.(active := s.active - 1, rolledBack := s.rolledBack + 1), t, Crashed(None))
    case AcqRollback(r) =>
      At(s.(active := s.active - 1, rolledBack := s.rolledBack + 1), t, RelDec(r, s.active - 1))
    case _ => s
  }

  // Acquire after the second check: replace an exhausted runner, count the use.
  function AdmitStep(s: Pool, t: nat, c: Choice): Pool
    requires t < |s.threads|
  {
    match s.threads[t]
    case AcqPassed(r) =>
      if Exhausted(s, r) then
        var s1 := CloseRunner(s, r);
        if c.Fail? then At(s1, t, Done)
        else
          var made := |s1.runners|;
          var s2 := CountUse(NewRunner(s1), made);
          At(s2.(active := s2.active + 1), t, Holding(made))
      else
        At(CountUse(s, r).(active := s.active + 1), t, Holding(r))
    case _ => s
  }

  // Release up to its draining check, and the discard path of callOnPool for a
  // corrupted runner.
  function ReleaseStep(s: Pool, t: nat, c: Choice): Pool
    requires t < |s.threads|
  {
    match s.threads[t]
    case Holding(r) =>
      var s1 := s.(active := s.active - 1);
      if c.Proceed? then At(s1, t, RelDec(r, s1.active))
      else At(CloseRunner(s1, r), t, Signal(s1.active, true))
    case RelDec(r, remaining) =>
      if s.draining then At(CloseRunner(s, r), t, Signal(remaining, false))
      else At(s, t, RelOpen(r))
    case _ => s
  }

  // signalDrainIfNeeded.
  function SignalStep(s: Pool, t: nat, c: Choice): Pool
    requires t < |s.threads|
  {
    match s.threads[t]
    case Signal(remaining, owes) =>
      At(s, t, if s.draining && remaining <= 0 && !s.drained then SigClosing(owes) else AfterSignal(owes))
    case SigClosing(owes) =>
      if s.drained then At(s, t, Crashed(None))                  // close of closed channel
      else At(s.(drained := true), t, AfterSignal(owes))
    case _ => s
  }

  // replaceInstance and backgroundFill up to the creation of a runner.
  function CreateStep(s: Pool, t: nat, c: Choice): Pool
    requires t < |s.threads|
  {
    match s.threads[t]
    case Owed => At(s, t, if s.draining then Done else Creating)
    case Creating =>
      if c.Fail? then At(s, t, Done) else At(NewRunner(s), t, Created(|s.runners|))
    case Fill(n) =>
      if n == 0 || c.Fail? then At(s, t, Done)
      else At(NewRunner(s), t, FillCreated(|s.runners|, n - 1))
    case _ => s
  }

  // The three places where a runner is put into the channel.
  function SendStep(s: Pool, t: nat, c: Choice): Pool
    requires t < |s.threads|
  {
    match s.threads[t]
    case RelOpen(r) =>
      if Exhausted(s, r) then At(CloseRunner(s, r), t, Owed)
      else if s.chanClosed then At(s, t, Crashed(Some(r)))       // send on closed channel
      else if |s.chan| < s.size then At(s.(chan := s.chan + [r]), t, Done)
      else At(CloseRunner(s, r), t, Done)                        // pool full
    case Created(r) =>
      // trySendToPool closes the runner when draining, and replaceInstance
      // closes it again on every refusal.
      if s.draining then At(CloseRunner(CloseRunner(s, r), r), t, Done)
      else if |s.chan| < s.size then At(s.(chan := s.chan + [r]), t, Done)
      else At(CloseRunner(s, r), t, Done)
    case FillCreated(r, n) =>
      if s.draining then At(CloseRunner(s, r), t, Done)
      else if |s.chan| < s.size then At(s.(chan := s.chan + [r]), t, Fill(n))
      else At(s, t, Done)                                        // full: left open
    case _ => s
  }

  function DrainStep(s: Pool, t: nat, c: Choice): Pool
    requires t < |s.threads|
  {
    match s.threads[t]
    case DrainStart =>
      if s.draining then At(s, t, Done)
      else if s.active <= 0 && s.drained then At(s.(draining := true), t, Crashed(None))
      else At(s.(draining := true, drained := s.drained || s.active <= 0), t, DrainWait)
    case DrainWait => if c.Fail? || s.drained then At(s, t, DrainClosing) else s
    case DrainClosing =>
      if s.chanClosed then At(s, t, Crashed(None)) else At(s.(chanClosed := true), t, DrainSweep)
    case DrainSweep =>
      if s.chan == [] then At(s, t, Done)
      else CloseRunner(s.(chan := s.chan[1..]), s.chan[0])
    case _ => s
  }

  function MoveStep(s: Pool, t: nat, c: Choice): Pool
    requires t < |s.threads|
  {
    var pc := s.threads[t];
    if pc.AcqPassed? then AdmitStep(s, t, c)
    else if pc.Holding? || pc.RelDec? then ReleaseStep(s, t, c)
    else if pc.Signal? || pc.SigClosing? then SignalStep(s, t, c)
    else if pc.Owed? || pc.Creating? || pc.Fill? then CreateStep(s, t, c)
    else if pc.RelOpen? || pc.Created? || pc.FillCreated? then SendStep(s, t, c)
    else if pc.DrainStart? || pc.DrainWait? || pc.DrainClosing? || pc.DrainSweep? then DrainStep(s, t, c)
    else AcquireStep(s, t, c)
  }

  // A step of a thread that does not exist, is blocked or has ended changes nothing.
  function Next(s: Pool, e: Event): Pool {
    match e
    case EnterAcquire => s.(threads := s.threads + [AcqStart])
    case EnterDrain => s.(threads := s.threads + [DrainStart])
    case Move(t, c) => if t < |s.threads| then MoveStep(s, t, c) else s
  }

  function Run(s: Pool, events: seq<Event>): Pool
    decreases |events|
  {
    if events == [] then s else Run(Next(s, events[0]), events[1..])
  }

  // What newPluginInstancePool returns after creating `created` of `size`
  // runners: the rest is left to a backgroundFill goroutine.
  function Fresh(size: nat, created: nat): Pool
    requires created <= size
  {
    Pool(size, seq(created, i => i), false, false, 0, false,
         seq(created, _ => Runner(0, 0)),
         if created < size then [Fill(size - created)] else [], 0)
  }
}
