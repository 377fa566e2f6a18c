/** Results about every run of the pool, and runs on which a hoped-for result fails. */
module PoolTheorems {
  import opened Wrappers
  import opened PoolSteps
  import opened PoolInvariant

  lemma {:induction false} RunSnoc(s: Pool, events: seq<Event>, e: Event)
    ensures Run(s, events + [e]) == Next(Run(s, events), e)
    decreases |events|
  {
    if events == [] {
      assert ([] + [e])[1..] == [];
    } else {
      assert (events + [e])[0] == events[0] && (events + [e])[1..] == events[1..] + [e];
      RunSnoc(Next(s, events[0]), events[1..], e);
    }
  }

  lemma {:induction false} FreshPlaces(n: nat, r: nat)
    ensures InChan(seq(n, i => i), r) == if r < n then 1 else 0
  {
    if n > 0 {
      FreshPlaces(n - 1, r);
      assert seq(n, i => i)[..n - 1] == seq(n - 1, i => i);
    }
  }

  lemma FreshInv(size: nat, created: nat)
    requires 1 <= size && created <= size
    ensures Inv(Fresh(size, created))
  {
    var s := Fresh(size, created);
    assert s.threads == [] || s.threads == [Fill(size - created)];
    forall r: nat
      ensures Places(s, r) == if Alive(s, r) then 1 else 0
    {
      FreshPlaces(created, r);
      assert InHands(s.threads, r) == 0;
    }
  }

  lemma {:induction false} SomeoneOwns(threads: seq<Pc>, r: nat) returns (t: nat)
    requires InHands(threads, r) > 0
    ensures t < |threads| && Owns(threads[t]) == Some(r)
  {
    var last := |threads| - 1;
    if Owns(threads[last]) == Some(r) {
      t := last;
    } else {
      t := SomeoneOwns(threads[..last], r);
    }
  }

  lemma {:induction false} SlotHolds(chan: seq<nat>, r: nat)
    requires InChan(chan, r) > 0
    ensures r in chan
  {
    if chan[|chan| - 1] != r {
      SlotHolds(chan[..|chan| - 1], r);
    }
  }

  /**
   Conservation and ownership, for every interleaving of any number of
   goroutines from a new pool: idle runners, runners in hand and refills still
   owed never exceed the pool size; a runner that is idle or in hand is open,
   in one place only and within its use limit; an open runner is never lost;
   `active` counts the runners handed out, less the releases of the roll-back.
   */
  lemma PoolSafety(size: nat, created: nat, events: seq<Event>)
    requires 1 <= size && created <= size
    ensures var s := Run(Fresh(size, created), events);
      && |s.chan| + Load(s.threads) <= s.size
      && (forall i, j :: 0 <= i < j < |s.chan| ==> s.chan[i] != s.chan[j])
      && (forall i :: 0 <= i < |s.chan| ==> Alive(s, s.chan[i]) && s.runners[s.chan[i]].uses < MAX_RUNNER_USES)
      && (forall t :: 0 <= t < |s.threads| && Owns(s.threads[t]).Some? ==>
            Alive(s, Owns(s.threads[t]).value) && Owns(s.threads[t]).value !in s.chan)
      && (forall t, u :: 0 <= t < u < |s.threads| && Owns(s.threads[t]).Some? ==>
            Owns(s.threads[u]) != Owns(s.threads[t]))
      && (forall r :: Alive(s, r) ==> r in s.chan || exists t :: 0 <= t < |s.threads| && Owns(s.threads[t]) == Some(r))
      && (forall r :: 0 <= r < |s.runners| ==> s.runners[r].uses <= MAX_RUNNER_USES)
      && s.active == Held(s.threads) - s.rolledBack
  {
    var s := Run(Fresh(size, created), events);
    FreshInv(size, created);
    RunKeepsInv(Fresh(size, created), events);
    ChanApart(s);
    forall t | 0 <= t < |s.threads| && Owns(s.threads[t]).Some?
      ensures Alive(s, Owns(s.threads[t]).value) && Owns(s.threads[t]).value !in s.chan
      ensures forall u :: t < u < |s.threads| ==> Owns(s.threads[u]) != Owns(s.threads[t])
    {
      HandsApart(s, t);
    }
    forall r | Alive(s, r)
      ensures r in s.chan || exists t :: 0 <= t < |s.threads| && Owns(s.threads[t]) == Some(r)
    {
      assert Places(s, r) == 1;
      if InChan(s.chan, r) > 0 {
        SlotHolds(s.chan, r);
      } else {
        var t := SomeoneOwns(s.threads, r);
      }
    }
  }

  /**
   Before Drain nothing goes wrong at any interleaving: no roll-back, no panic,
   `active` is exactly the number of runners handed out, and no runner is
   closed twice.
   */
  lemma BeforeDrain(size: nat, created: nat, events: seq<Event>)
    requires 1 <= size && created <= size && !Run(Fresh(size, created), events).draining
    ensures var s := Run(Fresh(size, created), events);
      && s.active == Held(s.threads) && s.rolledBack == 0 && !s.drained
      && (forall t :: 0 <= t < |s.threads| ==> !s.threads[t].Crashed?)
      && (forall r :: 0 <= r < |s.runners| ==> s.runners[r].closes <= 1)
  {
    FreshInv(size, created);
    RunKeepsInv(Fresh(size, created), events);
  }

  /**
   Three branches of the code never run: the "pool full" branches of Release
   and trySendToPool, and the replacement of an exhausted runner in Acquire.
   */
  lemma BranchesNeverTaken(size: nat, created: nat, events: seq<Event>, t: nat)
    requires 1 <= size && created <= size
    requires t < |Run(Fresh(size, created), events).threads|
    ensures var s := Run(Fresh(size, created), events);
      && (s.threads[t].RelOpen? || s.threads[t].Created? || s.threads[t].FillCreated? ==> |s.chan| < s.size)
      && (s.threads[t].AcqPassed? ==> !Exhausted(s, s.threads[t].r))
  {
    var s := Run(Fresh(size, created), events);
    FreshInv(size, created);
    RunKeepsInv(Fresh(size, created), events);
    SumsUpdate(s.threads, t, Done);
  }
}
