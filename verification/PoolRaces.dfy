/**
 Interleavings on which more than PoolTheorems promises fails. Each state below
 is reached from a new pool by legal steps of its goroutines.
 */
module PoolRaces {
  import opened Wrappers
  import opened PoolSteps
  import PoolTheorems

  ghost predicate Reachable(s: Pool) {
    exists created: nat, events: seq<Event> :: 1 <= created <= s.size && s == Run(Fresh(s.size, created), events)
  }

  lemma Go(s: Pool, e: Event, s': Pool)
    requires Reachable(s) && s' == Next(s, e) && s'.size == s.size
    ensures Reachable(s')
  {
    var created: nat, events :| 1 <= created <= s.size && s == Run(Fresh(s.size, created), events);
    PoolTheorems.RunSnoc(Fresh(s.size, created), events, e);
    assert s' == Run(Fresh(s'.size, created), events + [e]);
  }

  // A new pool of one runner, and the same pool with an Acquire about to receive.
  function One(threads: seq<Pc>): Pool {
    Pool(1, [0], false, false, 0, false, [Runner(0, 0)], threads, 0)
  }

  lemma OneWaiting()
    ensures Reachable(One([AcqWait]))
  {
    var s := Fresh(1, 1);
    assert s.chan == [0] && s.runners == [Runner(0, 0)];
    assert s == One([]);
    assert Reachable(One([])) by {
      assert One([]) == Run(Fresh(One([]).size, 1), []);
    }
    Go(One([]), EnterAcquire, One([AcqStart]));
    Go(One([AcqStart]), Move(0, Proceed), One([AcqWait]));
  }

  // The runner taken, the Acquire not yet past its second check.
  lemma OnePassed() returns (s: Pool)
    ensures Reachable(s) && s == One([AcqPassed(0)]).(chan := [])
  {
    hide Reachable;
    OneWaiting();
    var got := One([AcqGot(0)]).(chan := []);
    Go(One([AcqWait]), Move(0, Proceed), got);
    s := got.(threads := [AcqPassed(0)]);
    Go(got, Move(0, Proceed), s);
  }

  lemma OneHeld() returns (s: Pool)
    ensures Reachable(s)
    ensures s == Pool(1, [], false, false, 1, false, [Runner(1, 0)], [Holding(0)], 0)
  {
    hide Reachable;
    var p := OnePassed();
    s := Pool(1, [], false, false, 1, false, [Runner(1, 0)], [Holding(0)], 0);
    Go(p, Move(0, Proceed), s);
  }

  /**
   A Release that has read `draining` as false panics when Drain closes the
   channel before its send, and its runner is never closed.
   */
  lemma ReleaseCanPanic() returns (s: Pool)
    ensures Reachable(s) && s.threads == [Crashed(Some(0)), DrainSweep] && s.runners == [Runner(1, 0)]
  {
    hide Reachable;
    var held := OneHeld();
    var dec := held.(active := 0, threads := [RelDec(0, 0)]);
    Go(held, Move(0, Proceed), dec);
    var open := dec.(threads := [RelOpen(0)]);
    Go(dec, Move(0, Proceed), open);
    var enter := open.(threads := [RelOpen(0), DrainStart]);
    Go(open, EnterDrain, enter);
    var wait := enter.(draining := true, drained := true, threads := [RelOpen(0), DrainWait]);
    Go(enter, Move(1, Proceed), wait);
    var closing := wait.(threads := [RelOpen(0), DrainClosing]);
    Go(wait, Move(1, Proceed), closing);
    var sweep := closing.(chanClosed := true, threads := [RelOpen(0), DrainSweep]);
    Go(closing, Move(1, Proceed), sweep);
    s := sweep.(threads := [Crashed(Some(0)), DrainSweep]);
    Go(sweep, Move(0, Proceed), s);
  }

  /**
   An Acquire past its second check when Drain starts is not counted yet:
   Drain sees nothing active and returns, and then the runner is handed out.
   */
  lemma AcquireAfterDrain() returns (s: Pool)
    ensures Reachable(s) && s.drained && s.threads == [Holding(0), Done] && s.chanClosed
  {
    hide Reachable;
    var p := OnePassed();
    var enter := p.(threads := [AcqPassed(0), DrainStart]);
    Go(p, EnterDrain, enter);
    var wait := enter.(draining := true, drained := true, threads := [AcqPassed(0), DrainWait]);
    Go(enter, Move(1, Proceed), wait);
    var closing := wait.(threads := [AcqPassed(0), DrainClosing]);
    Go(wait, Move(1, Proceed), closing);
    var sweep := closing.(chanClosed := true, threads := [AcqPassed(0), DrainSweep]);
    Go(closing, Move(1, Proceed), sweep);
    var done := sweep.(threads := [AcqPassed(0), Done]);
    Go(sweep, Move(1, Proceed), done);
    s := done.(active := 1, runners := [Runner(1, 0)], threads := [Holding(0), Done]);
    Go(done, Move(0, Proceed), s);
  }

  /** An Acquire still waiting when Drain closes the channel receives nil and panics. */
  lemma AcquireReceivesNil() returns (s: Pool)
    ensures Reachable(s) && s.threads == [Holding(0), Crashed(None), DrainSweep]
  {
    hide Reachable;
    var held := OneHeld();
    var enter := held.(threads := [Holding(0), AcqStart]);
    Go(held, EnterAcquire, enter);
    var blocked := held.(threads := [Holding(0), AcqWait]);
    Go(enter, Move(1, Proceed), blocked);
    var drain := held.(threads := [Holding(0), AcqWait, DrainStart]);
    Go(blocked, EnterDrain, drain);
    var wait := drain.(draining := true, threads := [Holding(0), AcqWait, DrainWait]);
    Go(drain, Move(2, Proceed), wait);
    var closing := wait.(threads := [Holding(0), AcqWait, DrainClosing]);
    Go(wait, Move(2, Fail), closing);
    var sweep := closing.(chanClosed := true, threads := [Holding(0), AcqWait, DrainSweep]);
    Go(closing, Move(2, Proceed), sweep);
    var got := sweep.(threads := [Holding(0), AcqNil, DrainSweep]);
    Go(sweep, Move(1, Proceed), got);
    s := got.(active := 0, rolledBack := 1, threads := [Holding(0), Crashed(None), DrainSweep]);
    Go(got, Move(1, Proceed), s);
  }

  /** replaceInstance closes the same runner twice when the pool starts draining before its send. */
  lemma ReplacementClosedTwice() returns (s: Pool)
    ensures Reachable(s) && s.runners == [Runner(1, 1), Runner(0, 2)]
  {
    hide Reachable;
    var held := OneHeld();
    var signal := held.(active := 0, runners := [Runner(1, 1)], threads := [Signal(0, true)]);
    Go(held, Move(0, Fail), signal);
    var owed := signal.(threads := [Owed]);
    Go(signal, Move(0, Proceed), owed);
    var creating := signal.(threads := [Creating]);
    Go(owed, Move(0, Proceed), creating);
    var created := signal.(runners := [Runner(1, 1), Runner(0, 0)], threads := [Created(1)]);
    Go(creating, Move(0, Proceed), created);
    var enter := created.(threads := [Created(1), DrainStart]);
    Go(created, EnterDrain, enter);
    var wait := enter.(draining := true, drained := true, threads := [Created(1), DrainWait]);
    Go(enter, Move(1, Proceed), wait);
    s := wait.(runners := [Runner(1, 1), Runner(0, 2)], threads := [Done, DrainWait]);
    Go(wait, Move(0, Proceed), s);
  }

  lemma TwoNew(s: Pool)
    requires s == Pool(2, [0, 1], false, false, 0, false, [Runner(0, 0), Runner(0, 0)], [], 0)
    ensures Reachable(s)
  {
    var f := Fresh(2, 2);
    assert f.chan == [0, 1] && f.runners == [Runner(0, 0), Runner(0, 0)];
    assert s == Run(Fresh(s.size, 2), []);
  }

  lemma TwoGot() returns (got: Pool)
    ensures Reachable(got)
    ensures got == Pool(2, [1], false, false, 0, false, [Runner(0, 0), Runner(0, 0)], [AcqGot(0)], 0)
  {
    hide Reachable;
    var r := Runner(0, 0);
    var s0 := Pool(2, [0, 1], false, false, 0, false, [r, r], [], 0);
    TwoNew(s0);
    var s1 := s0.(threads := [AcqStart]);
    Go(s0, EnterAcquire, s1);
    var s2 := s0.(threads := [AcqWait]);
    Go(s1, Move(0, Proceed), s2);
    got := s0.(chan := [1], threads := [AcqGot(0)]);
    Go(s2, Move(0, Proceed), got);
  }

  lemma TwoHeld() returns (held: Pool)
    ensures Reachable(held)
    ensures held == Pool(2, [1], false, false, 1, false, [Runner(1, 0), Runner(0, 0)], [Holding(0)], 0)
  {
    hide Reachable;
    var s3 := TwoGot();
    var s4 := s3.(threads := [AcqPassed(0)]);
    Go(s3, Move(0, Proceed), s4);
    held := Pool(2, [1], false, false, 1, false, [Runner(1, 0), Runner(0, 0)], [Holding(0)], 0);
    Go(s4, Move(0, Proceed), held);
  }

  // One runner out, and the roll-back of another about to close `drained`.
  lemma RollbackCloses() returns (s: Pool)
    ensures Reachable(s)
    ensures s == Pool(2, [], false, true, 0, false, [Runner(1, 0), Runner(0, 1)],
                      [Holding(0), SigClosing(false), DrainWait], 1)
  {
    hide Reachable;
    var s6 := RollbackPending();
    var s7 := s6.(active := 0, rolledBack := 1, threads := [Holding(0), RelDec(1, 0), DrainWait]);
    Go(s6, Move(1, Proceed), s7);
    var s8 := s7.(runners := [Runner(1, 0), Runner(0, 1)], threads := [Holding(0), Signal(0, false), DrainWait]);
    Go(s7, Move(1, Proceed), s8);
    s := s8.(threads := [Holding(0), SigClosing(false), DrainWait]);
    Go(s8, Move(1, Proceed), s);
  }

  lemma RollbackPending() returns (s: Pool)
    ensures Reachable(s)
    ensures s == Pool(2, [], false, true, 1, false, [Runner(1, 0), Runner(0, 0)],
                      [Holding(0), AcqRollback(1), DrainWait], 0)
  {
    hide Reachable;
    var held := TwoHeld();
    var s1 := held.(threads := [Holding(0), AcqStart]);
    Go(held, EnterAcquire, s1);
    var s2 := held.(threads := [Holding(0), AcqWait]);
    Go(s1, Move(1, Proceed), s2);
    var s3 := held.(threads := [Holding(0), AcqWait, DrainStart]);
    Go(s2, EnterDrain, s3);
    var s4 := held.(draining := true, threads := [Holding(0), AcqWait, DrainWait]);
    Go(s3, Move(2, Proceed), s4);
    var s5 := s4.(chan := [], threads := [Holding(0), AcqGot(1), DrainWait]);
    Go(s4, Move(1, Proceed), s5);
    s := s5.(threads := [Holding(0), AcqRollback(1), DrainWait]);
    Go(s5, Move(1, Proceed), s);
  }

  /**
   The roll-back in Acquire decrements `active` for a runner that was never
   counted: with one runner still out, `active` reaches 0 and `drained` closes.
   */
  lemma RollbackSignalsEarly() returns (s: Pool)
    ensures Reachable(s) && s.drained && s.threads == [Holding(0), Done, DrainWait]
    ensures s.active == 0 && s.rolledBack == 1
  {
    hide Reachable;
    var closing := RollbackCloses();
    s := closing.(drained := true, threads := [Holding(0), Done, DrainWait]);
    Go(closing, Move(1, Proceed), s);
  }

  /**
   Two goroutines can find `drained` open, the roll-back and the Release of the
   last holder: the second to close it panics.
   */
  lemma DrainedClosedTwice() returns (s: Pool)
    ensures Reachable(s) && s.drained && s.threads == [Crashed(None), Done, DrainWait]
  {
    hide Reachable;
    var s0 := RollbackCloses();
    var s1 := s0.(active := -1, threads := [RelDec(0, -1), SigClosing(false), DrainWait]);
    Go(s0, Move(0, Proceed), s1);
    var s2 := s1.(runners := [Runner(1, 1), Runner(0, 1)], threads := [Signal(-1, false), SigClosing(false), DrainWait]);
    Go(s1, Move(0, Proceed), s2);
    var s3 := s2.(threads := [SigClosing(false), SigClosing(false), DrainWait]);
    Go(s2, Move(0, Proceed), s3);
    var s4 := s3.(drained := true, threads := [SigClosing(false), Done, DrainWait]);
    Go(s3, Move(1, Proceed), s4);
    s := s4.(threads := [Crashed(None), Done, DrainWait]);
    Go(s4, Move(0, Proceed), s);
  }

  // A Release has decremented `active` to 0, and then the other runner was handed out.
  lemma StaleCount() returns (s: Pool)
    ensures Reachable(s)
    ensures s == Pool(2, [], false, false, 1, false, [Runner(1, 0), Runner(1, 0)], [RelDec(0, 0), Holding(1)], 0)
  {
    hide Reachable;
    var held := TwoHeld();
    var s1 := held.(active := 0, threads := [RelDec(0, 0)]);
    Go(held, Move(0, Proceed), s1);
    var s2 := s1.(threads := [RelDec(0, 0), AcqStart]);
    Go(s1, EnterAcquire, s2);
    var s3 := s1.(threads := [RelDec(0, 0), AcqWait]);
    Go(s2, Move(1, Proceed), s3);
    var s4 := s3.(chan := [], threads := [RelDec(0, 0), AcqGot(1)]);
    Go(s3, Move(1, Proceed), s4);
    var s5 := s4.(threads := [RelDec(0, 0), AcqPassed(1)]);
    Go(s4, Move(1, Proceed), s5);
    s := s5.(active := 1, runners := [Runner(1, 0), Runner(1, 0)], threads := [RelDec(0, 0), Holding(1)]);
    Go(s5, Move(1, Proceed), s);
  }

  /**
   A Release that decremented `active` to 0 before Drain began signals with that
   stale count: `drained` closes although a runner handed out since is held, and
   without any roll-back.
   */
  lemma StaleReleaseSignals() returns (s: Pool)
    ensures Reachable(s) && s.drained && s.threads == [Done, Holding(1), DrainWait]
    ensures s.active == 1 && s.rolledBack == 0
  {
    hide Reachable;
    var s0 := StaleCount();
    var s1 := s0.(threads := [RelDec(0, 0), Holding(1), DrainStart]);
    Go(s0, EnterDrain, s1);
    var s2 := s1.(draining := true, threads := [RelDec(0, 0), Holding(1), DrainWait]);
    Go(s1, Move(2, Proceed), s2);
    var s3 := s2.(runners := [Runner(1, 1), Runner(1, 0)], threads := [Signal(0, false), Holding(1), DrainWait]);
    Go(s2, Move(0, Proceed), s3);
    var s4 := s3.(threads := [SigClosing(false), Holding(1), DrainWait]);
    Go(s3, Move(0, Proceed), s4);
    s := s4.(drained := true, threads := [Done, Holding(1), DrainWait]);
    Go(s4, Move(0, Proceed), s);
  }
}
