/**
 Graceful drain: what Drain achieves, and from exactly which states of the other
 goroutines it achieves it whatever they do next.
 */
module PoolDrain {
  import opened PoolSteps
  import opened PoolInvariant
  import PoolTheorems

  /**
   The goroutines that can spoil a drain that starts now: an Acquire after its
   fast-path check that is not counted yet, a Release about to send, a Release or
   discard that decremented `active` to nothing although runners are out by now,
   and a replaceInstance past its draining check, which closes its runner twice.
   */
  predicate Hazard(s: Pool, pc: Pc) {
    match pc
    case AcqWait => true
    case AcqGot(_) => true
    case AcqPassed(_) => true
    case RelOpen(r) => !Exhausted(s, r)
    case RelDec(_, remaining) => remaining <= 0 < s.active
    case Signal(remaining, _) => remaining <= 0 < s.active
    case Creating => true
    case Created(_) => true
    case _ => false
  }

  predicate Hazardous(s: Pool) {
    exists t :: 0 <= t < |s.threads| && Hazard(s, s.threads[t])
  }

  predicate Drainer(pc: Pc) {
    pc.DrainWait? || pc.DrainClosing? || pc.DrainSweep?
  }

  // Threads that a gracefully draining pool never has.
  predicate Absent(pc: Pc) {
    pc.AcqWait? || pc.AcqGot? || pc.AcqNil? || pc.AcqRollback? || pc.AcqPassed? || pc.Crashed?
    || pc.Creating? || pc.Created?
  }

  // A thread that is to signal that nothing is out, unless that was signalled.
  predicate LastOut(pc: Pc) {
    (pc.RelDec? && pc.remaining <= 0) || (pc.Signal? && pc.remaining <= 0) || pc.SigClosing?
  }

  ghost predicate SomeLastOut(s: Pool) {
    exists t :: 0 <= t < |s.threads| && LastOut(s.threads[t])
  }

  ghost predicate Threads(s: Pool, d: nat) {
    && s.draining && s.rolledBack == 0
    && (forall t :: 0 <= t < |s.threads| ==> !Absent(s.threads[t]))
    && (forall t :: 0 <= t < |s.threads| && s.threads[t].RelOpen? ==> Exhausted(s, s.threads[t].r))
    && (forall t :: 0 <= t < |s.threads| && t != d ==> !Drainer(s.threads[t]))
  }

  ghost predicate Signalling(s: Pool) {
    && (s.drained ==> Held(s.threads) == 0)
    && (forall t :: 0 <= t < |s.threads| && LastOut(s.threads[t]) ==> Held(s.threads) == 0)
    && (forall t :: 0 <= t < |s.threads| && s.threads[t].SigClosing? ==> !s.drained)
    && (!s.drained ==> forall t, u :: 0 <= t < u < |s.threads| ==> !(LastOut(s.threads[t]) && LastOut(s.threads[u])))
    && (Held(s.threads) == 0 ==> s.drained || SomeLastOut(s))
  }

  // How far the draining thread itself has come.
  ghost predicate Stage(s: Pool, d: nat) {
    && d < |s.threads|
    && (Drainer(s.threads[d]) || s.threads[d] == Done)
    && (s.chanClosed <==> s.threads[d] == DrainSweep || s.threads[d] == Done)
    && (s.threads[d] == Done ==> s.chan == [])
  }

  // No runner has been closed twice.
  ghost predicate ClosedOnce(s: Pool) {
    forall r :: 0 <= r < |s.runners| ==> s.runners[r].closes <= 1
  }

  ghost predicate Draining(s: Pool, d: nat) {
    Threads(s, d) && Signalling(s) && Stage(s, d) && ClosedOnce(s)
  }

  // What one step of a draining pool can do.
  ghost predicate DrainingMove(s: Pool, s': Pool, t: nat)
    requires t < |s.threads|
  {
    && |s'.threads| == |s.threads|
    && s'.threads == s.threads[t := s'.threads[t]]
    && var p, q := s.threads[t], s'.threads[t];
       && s'.draining && s'.rolledBack == s.rolledBack && !q.RelOpen?
       && (forall r :: 0 <= r < |s.runners| && Exhausted(s, r) ==> Exhausted(s', r))
       && !Absent(q) && (Drainer(q) ==> Drainer(p))
       && (s'.drained <==> s.drained || p.SigClosing?)
       && (q.Holding? ==> p.Holding? && s' == s)
       && (p.Holding? ==> (q.RelDec? || q.Signal?) && q.remaining == s.active - 1)
       && (!p.Holding? && LastOut(q) ==> LastOut(p))
       && (LastOut(p) && !s'.drained ==> LastOut(q))
       && (p.SigClosing? ==> !LastOut(q)) && (q.SigClosing? ==> !s.drained)
  }

  lemma ReleaseMoves(s: Pool, t: nat, c: Choice)
    requires Flags(s) && s.draining && t < |s.threads| && !Absent(s.threads[t])
    requires s.threads[t].Holding? || s.threads[t].RelDec?
    ensures DrainingMove(s, ReleaseStep(s, t, c), t)
  {
  }

  lemma SignalMoves(s: Pool, t: nat, c: Choice)
    requires Flags(s) && s.draining && t < |s.threads| && !Absent(s.threads[t])
    requires s.threads[t].Signal? || (s.threads[t].SigClosing? && !s.drained)
    ensures DrainingMove(s, SignalStep(s, t, c), t)
  {
  }

  lemma CreateMoves(s: Pool, t: nat, c: Choice)
    requires Flags(s) && s.draining && t < |s.threads| && !Absent(s.threads[t])
    requires s.threads[t].Owed? || s.threads[t].Fill?
    ensures DrainingMove(s, CreateStep(s, t, c), t)
  {
  }

  lemma SendMoves(s: Pool, t: nat, c: Choice)
    requires Flags(s) && s.draining && t < |s.threads| && !Absent(s.threads[t])
    requires s.threads[t].FillCreated? || (s.threads[t].RelOpen? && Exhausted(s, s.threads[t].r))
    ensures DrainingMove(s, SendStep(s, t, c), t)
  {
  }

  lemma DrainMoves(s: Pool, t: nat, c: Choice)
    requires Flags(s) && s.draining && t < |s.threads| && !Absent(s.threads[t])
    requires s.threads[t].DrainStart? || Drainer(s.threads[t])
    ensures DrainingMove(s, DrainStep(s, t, c), t)
  {
  }

  lemma MoveIsDrainingMove(s: Pool, t: nat, c: Choice)
    requires Flags(s) && s.draining && t < |s.threads| && !Absent(s.threads[t])
    requires s.threads[t].SigClosing? ==> !s.drained
    requires s.threads[t].RelOpen? ==> Exhausted(s, s.threads[t].r)
    ensures DrainingMove(s, MoveStep(s, t, c), t)
  {
    var pc := s.threads[t];
    if pc.Holding? || pc.RelDec? {
      ReleaseMoves(s, t, c);
    } else if pc.Signal? || pc.SigClosing? {
      SignalMoves(s, t, c);
    } else if pc.Owed? || pc.Fill? {
      CreateMoves(s, t, c);
    } else if pc.RelOpen? || pc.FillCreated? {
      SendMoves(s, t, c);
    } else if pc.DrainStart? || Drainer(pc) {
      DrainMoves(s, t, c);
    }
  }

  lemma MoveKeepsThreads(s: Pool, s': Pool, t: nat, d: nat)
    requires t < |s.threads| && Threads(s, d) && DrainingMove(s, s', t)
    ensures Threads(s', d)
  {
  }

  lemma MoveKeepsSignalling(s: Pool, s': Pool, t: nat, d: nat)
    requires t < |s.threads| && Threads(s, d) && DrainingMove(s, s', t)
    requires ActiveGood(s) && Signalling(s)
    ensures Signalling(s')
  {
    hide Held;
    SumsUpdate(s.threads, t, s'.threads[t]);
    if SomeLastOut(s) {
      var w :| 0 <= w < |s.threads| && LastOut(s.threads[w]);
      assert w != t ==> LastOut(s'.threads[w]);
    }
    if s.threads[t].Holding? && s.active == 1 {
      assert LastOut(s'.threads[t]);
    }
  }

  lemma MoveKeepsStage(s: Pool, t: nat, c: Choice, d: nat)
    requires Threads(s, d) && Stage(s, d) && t < |s.threads| && Flags(s)
    ensures Stage(MoveStep(s, t, c), d)
  {
    if t == d {
      DrainerKeepsStage(s, d, c);
    } else {
      OtherKeepsStage(s, t, c, d);
    }
  }

  lemma DrainerKeepsStage(s: Pool, d: nat, c: Choice)
    requires Threads(s, d) && Stage(s, d) && Flags(s)
    ensures Stage(MoveStep(s, d, c), d)
  {
  }

  lemma OtherKeepsStage(s: Pool, t: nat, c: Choice, d: nat)
    requires Threads(s, d) && Stage(s, d) && t < |s.threads| && t != d && Flags(s)
    ensures Stage(MoveStep(s, t, c), d)
  {
    ChannelKept(s, t, c);
    hide MoveStep;
  }

  // In a draining pool only the draining thread touches the channel.
  lemma ChannelKept(s: Pool, t: nat, c: Choice)
    requires s.draining && t < |s.threads| && !Absent(s.threads[t]) && !Drainer(s.threads[t])
    requires s.threads[t].RelOpen? ==> Exhausted(s, s.threads[t].r)
    ensures var s' := MoveStep(s, t, c);
      && s'.chan == s.chan && s'.chanClosed == s.chanClosed
      && |s'.threads| == |s.threads| && forall u :: 0 <= u < |s.threads| && u != t ==> s'.threads[u] == s.threads[u]
  {
    match s.threads[t] {
      case RelOpen(_) =>
      case FillCreated(_, _) =>
      case DrainStart =>
      case _ =>
    }
  }

  lemma EnterKeepsDraining(s: Pool, pc: Pc, d: nat)
    requires Draining(s, d) && (pc == AcqStart || pc == DrainStart)
    ensures Draining(s.(threads := s.threads + [pc]), d)
  {
    hide Signalling;
    EnterKeepsSignalling(s, pc);
  }

  lemma EnterKeepsSignalling(s: Pool, pc: Pc)
    requires Signalling(s) && (pc == AcqStart || pc == DrainStart)
    ensures Signalling(s.(threads := s.threads + [pc]))
  {
    hide Held;
    SumsAppend(s.threads, pc);
    var threads := s.threads + [pc];
    assert !LastOut(pc);
    if SomeLastOut(s) {
      var w :| 0 <= w < |s.threads| && LastOut(s.threads[w]);
      assert LastOut(threads[w]);
    }
  }

  // Whoever holds a runner now held it before.
  ghost predicate HoldersFrom(s: Pool, s': Pool) {
    forall t :: 0 <= t < |s'.threads| && s'.threads[t].Holding? ==> t < |s.threads| && s.threads[t] == s'.threads[t]
  }

  lemma MoveKeepsDraining(s: Pool, t: nat, c: Choice, d: nat)
    requires Inv(s) && Draining(s, d) && t < |s.threads|
    ensures Draining(MoveStep(s, t, c), d) && HoldersFrom(s, MoveStep(s, t, c))
  {
    hide MoveStep, Signalling, Stage, ClosedOnce;
    SignallersWait(s);
    MoveClosesOnce(s, t, c);
    MoveIsDrainingMove(s, t, c);
    MoveKeepsThreads(s, MoveStep(s, t, c), t, d);
    MoveKeepsSignalling(s, MoveStep(s, t, c), t, d);
    MoveKeepsStage(s, t, c, d);
  }

  // A step closes only a runner that is in hand or idle, and so was open.
  lemma MoveClosesOnce(s: Pool, t: nat, c: Choice)
    requires Placed(s) && ClosedOnce(s) && t < |s.threads| && !Absent(s.threads[t])
    ensures ClosedOnce(MoveStep(s, t, c))
  {
    hide Placed;
    match s.threads[t] {
      case Holding(_) => HandAlive(s, t);
      case RelDec(_, _) => HandAlive(s, t);
      case RelOpen(_) => HandAlive(s, t);
      case FillCreated(_, _) => HandAlive(s, t);
      case DrainSweep =>
        if s.chan != [] {
          ChanAlive(s, 0);
        }
      case _ =>
    }
  }

  lemma SignallersWait(s: Pool)
    requires Signalling(s)
    ensures forall t :: 0 <= t < |s.threads| && s.threads[t].SigClosing? ==> !s.drained
  {
  }

  lemma NextKeepsDraining(s: Pool, e: Event, d: nat)
    requires Inv(s) && Draining(s, d)
    ensures Inv(Next(s, e)) && Draining(Next(s, e), d) && HoldersFrom(s, Next(s, e))
  {
    hide Inv, Draining, MoveStep;
    NextKeepsInv(s, e);
    match e
    case EnterAcquire => EnterKeepsDraining(s, AcqStart, d);
    case EnterDrain => EnterKeepsDraining(s, DrainStart, d);
    case Move(t, c) =>
      if t < |s.threads| {
        MoveKeepsDraining(s, t, c, d);
      }
  }

  lemma {:induction false} RunKeepsDraining(s: Pool, events: seq<Event>, d: nat)
    requires Inv(s) && Draining(s, d)
    ensures Inv(Run(s, events)) && Draining(Run(s, events), d) && HoldersFrom(s, Run(s, events))
    decreases |events|
  {
    if events != [] {
      NextKeepsDraining(s, events[0], d);
      RunKeepsDraining(Next(s, events[0]), events[1..], d);
    }
  }

  // The state once thread d has begun to drain.
  function Begun(s: Pool, d: nat): Pool
    requires d < |s.threads|
  {
    s.(draining := true, drained := s.active <= 0, threads := s.threads[d := DrainWait])
  }

  lemma BeginsDrain(s: Pool, d: nat, c: Choice)
    requires Inv(s) && !s.draining && d < |s.threads| && s.threads[d].DrainStart?
    ensures Next(s, Move(d, c)) == Begun(s, d) && Held(Begun(s, d).threads) == Held(s.threads) == s.active
  {
    SumsUpdate(s.threads, d, DrainWait);
  }

  lemma SafeStart(s: Pool, d: nat, c: Choice)
    requires Inv(s) && !Hazardous(s) && !s.draining
    requires d < |s.threads| && s.threads[d].DrainStart?
    ensures Inv(Next(s, Move(d, c))) && Draining(Next(s, Move(d, c)), d) && HoldersFrom(s, Next(s, Move(d, c)))
  {
    NextKeepsInv(s, Move(d, c));
    BeginsDrain(s, d, c);
    assert Flags(s) && s.rolledBack == 0 && ClosedOnce(s);
    hide Next, Held, Inv;
    BegunDrains(s, d);
  }

  lemma BegunDrains(s: Pool, d: nat)
    requires Flags(s) && !Hazardous(s) && !s.draining && s.rolledBack == 0
    requires d < |s.threads| && s.threads[d].DrainStart?
    requires Held(Begun(s, d).threads) == s.active && s.active >= 0 && ClosedOnce(s)
    ensures Draining(Begun(s, d), d)
  {
    hide Held;
    assert forall t :: 0 <= t < |s.threads| ==> !Hazard(s, s.threads[t]);
    assert forall t :: 0 <= t < |s.threads| && LastOut(s.threads[t]) ==> s.active <= 0;
  }

  predicate AllDone(s: Pool) {
    forall t :: 0 <= t < |s.threads| ==> s.threads[t] == Done
  }

  lemma {:induction false} IdleThreads(threads: seq<Pc>, r: nat)
    requires forall t :: 0 <= t < |threads| ==> threads[t] == Done
    ensures InHands(threads, r) == 0
  {
    if threads != [] {
      IdleThreads(threads[..|threads| - 1], r);
    }
  }

  lemma DrainClosesEverything(s: Pool, d: nat)
    requires Inv(s) && Draining(s, d)
    requires AllDone(s)
    ensures forall r :: 0 <= r < |s.runners| ==> s.runners[r].closes >= 1
  {
    forall r | 0 <= r < |s.runners|
      ensures s.runners[r].closes >= 1
    {
      IdleThreads(s.threads, r);
      assert Places(s, r) == 0;
    }
  }

  /**
   A state reached from s once thread d has begun to drain is as it should be: no
   further runner is handed out, `active` counts the runners still out, no
   goroutine panics, no runner has been closed twice, `drained` is closed only
   once nothing is out and is not forgotten then, when Drain has returned the channel is closed and empty, and
   when every goroutine has ended every runner ever created has been closed.
   */
  ghost predicate Graceful(s: Pool, s': Pool, d: nat) {
    && s'.draining && s'.active == Held(s'.threads)
    && HoldersFrom(s, s')
    && (forall t :: 0 <= t < |s'.threads| ==> !s'.threads[t].Crashed?)
    && ClosedOnce(s')
    && (s'.drained ==> Held(s'.threads) == 0)
    && (Held(s'.threads) == 0 ==> s'.drained || SomeLastOut(s'))
    && d < |s'.threads| && (s'.threads[d] == Done ==> s'.chanClosed && s'.chan == [])
    && (AllDone(s') ==> forall r :: 0 <= r < |s'.runners| ==> s'.runners[r].closes >= 1)
  }

  lemma GracefulDrain(s: Pool, d: nat, c: Choice, events: seq<Event>)
    requires Inv(s) && !Hazardous(s) && !s.draining
    requires d < |s.threads| && s.threads[d].DrainStart?
    ensures Graceful(s, Run(Next(s, Move(d, c)), events), d)
  {
    SafeStart(s, d, c);
    RunKeepsDraining(Next(s, Move(d, c)), events, d);
    var s' := Run(Next(s, Move(d, c)), events);
    if AllDone(s') {
      DrainClosesEverything(s', d);
    }
  }

  // ---- Every hazard can spoil the drain ----

  lemma RunOne(s: Pool, a: Event)
    ensures Run(s, [a]) == Next(s, a)
  {
    assert Run(Next(s, a), []) == Next(s, a);
  }

  lemma RunTwo(s: Pool, a: Event, b: Event)
    ensures Run(s, [a, b]) == Next(Next(s, a), b)
  {
    assert [a, b][1..] == [b];
    RunOne(Next(s, a), b);
  }

  lemma RunThree(s: Pool, a: Event, b: Event, c: Event)
    ensures Run(s, [a, b, c]) == Next(Next(Next(s, a), b), c)
  {
    assert [a, b, c][1..] == [b, c];
    RunTwo(Next(s, a), b, c);
  }

  // An Acquire past its second check hands a runner out.
  lemma PassedSpoils(s: Pool, d: nat, t: nat) returns (events: seq<Event>)
    requires d < |s.threads| && t < |s.threads| && t != d && s.threads[t].AcqPassed?
    ensures !Graceful(s, Run(Begun(s, d), events), d)
  {
    events := [Move(t, Proceed)];
    RunOne(Begun(s, d), events[0]);
    assert Next(Begun(s, d), events[0]).threads[t].Holding?;
  }

  // A received runner is rolled back, which `active` never counted.
  lemma GotSpoils(s: Pool, s1: Pool, d: nat, t: nat) returns (events: seq<Event>)
    requires s1.draining && s1.active == Held(s1.threads) && t < |s1.threads| && s1.threads[t].AcqGot?
    ensures |events| == 2 && !Graceful(s, Run(s1, events), d)
  {
    hide Held;
    var r := s1.threads[t].r;
    events := [Move(t, Proceed), Move(t, Proceed)];
    RunTwo(s1, events[0], events[1]);
    RollsBack(s1, t);
    SumsUpdate(s1.threads, t, RelDec(r, s1.active - 1));
  }

  lemma RollsBack(s1: Pool, t: nat)
    requires s1.draining && t < |s1.threads| && s1.threads[t].AcqGot?
    ensures Next(Next(s1, Move(t, Proceed)), Move(t, Proceed)) ==
      s1.(active := s1.active - 1, rolledBack := s1.rolledBack + 1,
          threads := s1.threads[t := RelDec(s1.threads[t].r, s1.active - 1)])
  {
    var s2 := Next(s1, Move(t, Proceed));
    assert s2.threads == s1.threads[t := AcqRollback(s1.threads[t].r)];
  }

  // Drain gives up waiting and closes the channel.
  lemma ClosesChannel(s: Pool, d: nat)
    requires d < |s.threads| && !s.chanClosed
    ensures var s1 := Begun(s, d);
      Next(Next(s1, Move(d, Fail)), Move(d, Fail)) == s1.(chanClosed := true, threads := s.threads[d := DrainSweep])
  {
    var s2 := Next(Begun(s, d), Move(d, Fail));
    assert s2.threads == s.threads[d := DrainClosing];
    assert s2.threads[d := DrainSweep] == s.threads[d := DrainSweep];
  }

  // An Acquire in its select receives a runner, or nil from the closed channel.
  lemma WaitSpoils(s: Pool, d: nat, t: nat) returns (events: seq<Event>)
    requires Inv(s) && !s.draining && d < |s.threads| && s.threads[d].DrainStart?
    requires t < |s.threads| && s.threads[t].AcqWait?
    ensures !Graceful(s, Run(Begun(s, d), events), d)
  {
    hide Held, Graceful;
    var s1 := Begun(s, d);
    BeginsDrain(s, d, Proceed);
    if s.chan != [] {
      var s2 := Next(s1, Move(t, Proceed));
      SumsUpdate(s1.threads, t, AcqGot(s.chan[0]));
      var rest := GotSpoils(s, s2, d, t);
      events := [Move(t, Proceed)] + rest;
      assert events[1..] == rest;
    } else {
      var s3 := s1.(chanClosed := true, threads := s.threads[d := DrainSweep]);
      ClosesChannel(s, d);
      events := [Move(d, Fail), Move(d, Fail), Move(t, Proceed)] + [Move(t, Proceed)];
      NilCrashes(s, s3, d, t);
      RunThree(s1, events[0], events[1], events[2]);
      PoolTheorems.RunSnoc(s1, [Move(d, Fail), Move(d, Fail), Move(t, Proceed)], Move(t, Proceed));
    }
  }

  lemma NilCrashes(s: Pool, s3: Pool, d: nat, t: nat)
    requires t < |s3.threads| && s3.threads[t].AcqWait? && s3.chan == [] && s3.chanClosed
    ensures !Graceful(s, Next(Next(s3, Move(t, Proceed)), Move(t, Proceed)), d)
  {
    var s5 := Next(Next(s3, Move(t, Proceed)), Move(t, Proceed));
    assert s5.threads[t].Crashed?;
  }

  // A Release past its draining check sends on the closed channel.
  lemma OpenSpoils(s: Pool, d: nat, t: nat) returns (events: seq<Event>)
    requires Inv(s) && !s.draining && d < |s.threads| && s.threads[d].DrainStart?
    requires t < |s.threads| && s.threads[t].RelOpen? && !Exhausted(s, s.threads[t].r)
    ensures !Graceful(s, Run(Begun(s, d), events), d)
  {
    events := [Move(d, Fail), Move(d, Fail), Move(t, Proceed)];
    RunThree(Begun(s, d), events[0], events[1], events[2]);
    ClosesChannel(s, d);
    var s4 := Next(Begun(s, d).(chanClosed := true, threads := s.threads[d := DrainSweep]), Move(t, Proceed));
    assert s4.threads[t].Crashed?;
  }

  // A stale count of nothing left signals `drained` while runners are out.
  lemma SignalSpoils(s: Pool, s1: Pool, d: nat, t: nat) returns (events: seq<Event>)
    requires s1.draining && !s1.drained && t < |s1.threads| && Held(s1.threads) > 0
    requires s1.threads[t].Signal? && s1.threads[t].remaining <= 0
    ensures |events| == 2 && !Graceful(s, Run(s1, events), d)
  {
    hide Held;
    var owes := s1.threads[t].owes;
    events := [Move(t, Proceed), Move(t, Proceed)];
    var s2 := Next(s1, events[0]);
    var s3 := Next(s2, events[1]);
    RunTwo(s1, events[0], events[1]);
    SumsUpdate(s1.threads, t, SigClosing(owes));
    SumsUpdate(s2.threads, t, AfterSignal(owes));
    assert s3.drained && Held(s3.threads) > 0;
  }

  lemma StaleSpoils(s: Pool, d: nat, t: nat) returns (events: seq<Event>)
    requires Inv(s) && !s.draining && d < |s.threads| && s.threads[d].DrainStart?
    requires t < |s.threads| && s.threads[t].RelDec? && s.threads[t].remaining <= 0 < s.active
    ensures !Graceful(s, Run(Begun(s, d), events), d)
  {
    hide Held, Graceful;
    var s1 := Begun(s, d);
    BeginsDrain(s, d, Proceed);
    var s2 := Next(s1, Move(t, Proceed));
    SumsUpdate(s1.threads, t, Signal(s.threads[t].remaining, false));
    var rest := SignalSpoils(s, s2, d, t);
    events := [Move(t, Proceed)] + rest;
    assert events[1..] == rest;
  }

  lemma HandIsRunner(s: Pool, t: nat)
    requires Inv(s) && t < |s.threads| && s.threads[t].Created?
    ensures s.threads[t].r < |s.runners|
  {
    HandAlive(s, t);
  }

  // A replacement that is refused is closed twice.
  lemma CreatedSpoils(s: Pool, s1: Pool, d: nat, t: nat) returns (events: seq<Event>)
    requires s1.draining && t < |s1.threads| && s1.threads[t].Created? && s1.threads[t].r < |s1.runners|
    ensures |events| == 1 && !Graceful(s, Run(s1, events), d)
  {
    var r := s1.threads[t].r;
    events := [Move(t, Proceed)];
    RunOne(s1, events[0]);
    assert Next(s1, events[0]).runners[r].closes == s1.runners[r].closes + 2;
  }

  lemma CreatingSpoils(s: Pool, s1: Pool, d: nat, t: nat) returns (events: seq<Event>)
    requires s1.draining && t < |s1.threads| && s1.threads[t].Creating?
    ensures !Graceful(s, Run(s1, events), d)
  {
    hide Graceful;
    var s2 := Next(s1, Move(t, Proceed));
    assert s2.threads[t] == Created(|s1.runners|) && |s2.runners| == |s1.runners| + 1;
    var rest := CreatedSpoils(s, s2, d, t);
    events := [Move(t, Proceed)] + rest;
    assert events[1..] == rest;
  }

  lemma HazardSpoils(s: Pool, d: nat, t: nat) returns (events: seq<Event>)
    requires Inv(s) && !s.draining && d < |s.threads| && s.threads[d].DrainStart?
    requires t < |s.threads| && Hazard(s, s.threads[t])
    ensures !Graceful(s, Run(Begun(s, d), events), d)
  {
    hide Graceful, Inv;
    match s.threads[t] {
      case Creating => events := CreatingSpoils(s, Begun(s, d), d, t);
      case Created(_) =>
        HandIsRunner(s, t);
        events := CreatedSpoils(s, Begun(s, d), d, t);
      case AcqWait => events := WaitSpoils(s, d, t);
      case AcqGot(_) =>
        BeginsDrain(s, d, Proceed);
        events := GotSpoils(s, Begun(s, d), d, t);
      case AcqPassed(_) => events := PassedSpoils(s, d, t);
      case RelOpen(_) => events := OpenSpoils(s, d, t);
      case RelDec(_, _) => events := StaleSpoils(s, d, t);
      case Signal(_, _) =>
        BeginsDrain(s, d, Proceed);
        events := SignalSpoils(s, Begun(s, d), d, t);
    }
  }

  /**
   Drain is graceful whatever happens after it begins exactly when no goroutine
   is a hazard at that moment.
   */
  lemma GracefulExactly(s: Pool, d: nat)
    requires Inv(s) && !s.draining && d < |s.threads| && s.threads[d].DrainStart?
    ensures (forall c: Choice, events: seq<Event> :: Graceful(s, Run(Next(s, Move(d, c)), events), d)) <==> !Hazardous(s)
  {
    hide Graceful, Inv, Hazard;
    if Hazardous(s) {
      var t :| 0 <= t < |s.threads| && Hazard(s, s.threads[t]);
      var events := HazardSpoils(s, d, t);
      BeginsDrain(s, d, Proceed);
      assert !Graceful(s, Run(Next(s, Move(d, Proceed)), events), d);
    } else {
      forall c: Choice, events: seq<Event>
        ensures Graceful(s, Run(Next(s, Move(d, c)), events), d)
      {
        GracefulDrain(s, d, c, events);
      }
    }
  }
}
