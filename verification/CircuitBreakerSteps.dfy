/**
 hookBreaker.allow of internal/plugin/circuit_breaker.go by its atomic steps: any
 number of callers interleave while no result is recorded.
 */
module CircuitBreakerSteps {
  import opened CircuitBreaker

  // Where a caller of allow stands.
  datatype Caller =
    | Entering(now: int)       // before it loads the state
    | SawOpen(now: int)        // before it loads the time of the last failure
    | Swapping                 // before its CompareAndSwap from open to half-open
    | Storing                  // won it, before it stores 0 in halfOpen
    | SawHalfOpen              // before it adds one to halfOpen
    | Admitted
    | Refused

  // `counted` is a history variable: the callers admitted by the half-open count.
  datatype Shared = Shared(state: BreakerState, lastFailure: int, halfOpen: nat, callers: seq<Caller>, counted: nat)

  datatype Step = Enter(now: int) | Move(t: nat)

  function At(s: Shared, t: nat, c: Caller): Shared
    requires t < |s.callers|
  {
    s.(callers := s.callers[t := c])
  }

  function MoveCaller(s: Shared, t: nat): Shared
    requires t < |s.callers|
  {
    match s.callers[t]
    case Entering(now) =>
      At(s, t, match s.state case Closed => Admitted case Open => SawOpen(now) case HalfOpen => SawHalfOpen)
    case SawOpen(now) => At(s, t, if now - s.lastFailure > RESET_TIMEOUT then Swapping else Refused)
    case Swapping => if s.state == Open then At(s.(state := HalfOpen), t, Storing) else At(s, t, Admitted)
    case Storing => At(s.(halfOpen := 0), t, Admitted)
    case SawHalfOpen =>
      if s.halfOpen + 1 <= HALF_OPEN_MAX_CALLS then At(s.(halfOpen := s.halfOpen + 1, counted := s.counted + 1), t, Admitted)
      else At(s.(halfOpen := s.halfOpen + 1), t, Refused)
    case Admitted => s
    case Refused => s
  }

  function Go(s: Shared, e: Step): Shared {
    match e
    case Enter(now) => s.(callers := s.callers + [Entering(now)])
    case Move(t) => if t < |s.callers| then MoveCaller(s, t) else s
  }

  function GoAll(s: Shared, steps: seq<Step>): Shared {
    if steps == [] then s else Go(GoAll(s, steps[..|steps| - 1]), steps[|steps| - 1])
  }

  // A breaker that is open, with no caller inside.
  function Opened(lastFailure: int, halfOpen: nat): Shared {
    Shared(Open, lastFailure, halfOpen, [], 0)
  }

  lemma GoSnoc(s: Shared, steps: seq<Step>, e: Step)
    ensures GoAll(s, steps + [e]) == Go(GoAll(s, steps), e)
  {
    assert (steps + [e])[..|steps|] == steps;
  }

  // ---- Any number of callers ----

  // A caller comes in, and finds the breaker open and the reset timeout passed.
  lemma ComesToSwap(s: Shared, now: int)
    requires s.state == Open && now - s.lastFailure > RESET_TIMEOUT
    ensures var t := |s.callers|;
      Go(Go(Go(s, Enter(now)), Move(t)), Move(t)) == s.(callers := s.callers + [Swapping])
  {
    var t := |s.callers|;
    assert (s.callers + [Entering(now)])[t := SawOpen(now)] == s.callers + [SawOpen(now)];
    assert (s.callers + [SawOpen(now)])[t := Swapping] == s.callers + [Swapping];
  }

  // n callers have seen the open state and a reset timeout that has passed.
  lemma {:induction false} AllSwapping(n: nat, halfOpen: nat) returns (steps: seq<Step>)
    ensures GoAll(Opened(0, halfOpen), steps) == Opened(0, halfOpen).(callers := seq(n, _ => Swapping))
  {
    if n == 0 {
      steps := [];
      assert seq(0, _ => Swapping) == [];
    } else {
      var now := RESET_TIMEOUT + 1;
      var before := AllSwapping(n - 1, halfOpen);
      hide GoAll, Go;
      steps := before + [Enter(now)] + [Move(n - 1)] + [Move(n - 1)];
      GoSnoc(Opened(0, halfOpen), before, Enter(now));
      GoSnoc(Opened(0, halfOpen), before + [Enter(now)], Move(n - 1));
      GoSnoc(Opened(0, halfOpen), before + [Enter(now)] + [Move(n - 1)], Move(n - 1));
      ComesToSwap(Opened(0, halfOpen).(callers := seq(n - 1, _ => Swapping)), now);
      assert seq(n, _ => Swapping) == seq(n - 1, _ => Swapping) + [Swapping];
    }
  }

  // Some callers admitted, the others before their swap.
  function Mixed(admitted: nat, swapping: nat): seq<Caller> {
    seq(admitted, _ => Admitted) + seq(swapping, _ => Swapping)
  }

  // The first caller wins the swap and stores 0.
  lemma FirstGoesOn(n: nat, halfOpen: nat)
    requires n >= 1
    ensures Go(Go(Opened(0, halfOpen).(callers := seq(n, _ => Swapping)), Move(0)), Move(0))
         == Shared(HalfOpen, 0, 0, Mixed(1, n - 1), 0)
  {
    assert seq(n, _ => Swapping)[0 := Storing][0 := Admitted] == Mixed(1, n - 1);
  }

  // Another loses it, and is admitted all the same.
  lemma NextGoesOn(k: nat, swapping: nat)
    requires swapping >= 1
    ensures Go(Shared(HalfOpen, 0, 0, Mixed(k, swapping), 0), Move(k)) == Shared(HalfOpen, 0, 0, Mixed(k + 1, swapping - 1), 0)
  {
    assert Mixed(k, swapping)[k] == Swapping;
    assert Mixed(k, swapping)[k := Admitted] == Mixed(k + 1, swapping - 1);
  }

  // The first k of n callers have gone on and been admitted.
  lemma {:induction false} FirstAdmitted(n: nat, k: nat, halfOpen: nat) returns (steps: seq<Step>)
    requires 1 <= k <= n
    ensures GoAll(Opened(0, halfOpen), steps) == Shared(HalfOpen, 0, 0, Mixed(k, n - k), 0)
  {
    hide GoAll, Go, Mixed;
    var start := Opened(0, halfOpen);
    if k == 1 {
      var before := AllSwapping(n, halfOpen);
      steps := before + [Move(0)] + [Move(0)];
      GoSnoc(start, before, Move(0));
      GoSnoc(start, before + [Move(0)], Move(0));
      FirstGoesOn(n, halfOpen);
    } else {
      var before := FirstAdmitted(n, k - 1, halfOpen);
      steps := before + [Move(k - 1)];
      GoSnoc(start, before, Move(k - 1));
      NextGoesOn(k - 1, n - (k - 1));
    }
  }

  /**
   With concurrent callers one half-open episode admits any number of them: all
   that have loaded the open state before the first swaps it are admitted, because
   a lost CompareAndSwap is not looked at.
   */
  lemma AnyNumberAdmitted(n: nat, halfOpen: nat) returns (steps: seq<Step>)
    requires n >= 1
    ensures var s := GoAll(Opened(0, halfOpen), steps);
      s.state == HalfOpen && |s.callers| == n && forall t :: 0 <= t < n ==> s.callers[t] == Admitted
  {
    steps := FirstAdmitted(n, n, halfOpen);
  }

  // ---- Callers admitted by the count ----

  // The swap has been won by a caller that has not stored 0 yet.
  ghost predicate Pending(s: Shared) {
    exists t :: 0 <= t < |s.callers| && s.callers[t] == Storing
  }

  ghost predicate EpisodeInv(s: Shared) {
    && s.state != Closed
    && (s.state == Open ==> s.counted == 0 && forall t :: 0 <= t < |s.callers| ==> s.callers[t] != Storing && s.callers[t] != SawHalfOpen)
    && (forall t, u :: 0 <= t < u < |s.callers| ==> !(s.callers[t] == Storing && s.callers[u] == Storing))
    && (Pending(s) ==> s.counted <= HALF_OPEN_MAX_CALLS && s.counted <= s.halfOpen)
    && (s.state == HalfOpen && !Pending(s) ==> s.counted <= 2 * HALF_OPEN_MAX_CALLS && s.counted <= HALF_OPEN_MAX_CALLS + s.halfOpen)
  }

  lemma GoKeepsEpisode(s: Shared, e: Step)
    requires EpisodeInv(s)
    ensures EpisodeInv(Go(s, e))
  {
    var s' := Go(s, e);
    match e
    case Enter(_) => PendingAppend(s, s');
    case Move(t) =>
      if t < |s.callers| {
        PendingMove(s, s', t);
      }
  }

  lemma PendingAppend(s: Shared, s': Shared)
    requires |s'.callers| == |s.callers| + 1 && s'.callers[..|s.callers|] == s.callers && s'.callers[|s.callers|] != Storing
    ensures Pending(s') <==> Pending(s)
  {
    assert forall t :: 0 <= t < |s.callers| ==> s'.callers[t] == s.callers[t];
  }

  lemma PendingMove(s: Shared, s': Shared, t: nat)
    requires t < |s.callers| == |s'.callers| && s'.callers == s.callers[t := s'.callers[t]]
    requires forall u, v :: 0 <= u < v < |s.callers| ==> !(s.callers[u] == Storing && s.callers[v] == Storing)
    ensures s.callers[t] != Storing && s'.callers[t] != Storing ==> (Pending(s') <==> Pending(s))
    ensures s.callers[t] == Storing && s'.callers[t] != Storing ==> Pending(s) && !Pending(s')
    ensures s'.callers[t] == Storing ==> Pending(s')
  {
    assert forall u :: 0 <= u < |s.callers| && u != t ==> s'.callers[u] == s.callers[u];
  }

  /**
   The callers admitted by the count are few at any interleaving: at most twice
   HALF_OPEN_MAX_CALLS, because the count is set to 0 once, by the winner of the
   swap, after others may have been counted.
   */
  lemma {:induction false} CountedBound(lastFailure: int, halfOpen: nat, steps: seq<Step>)
    ensures EpisodeInv(GoAll(Opened(lastFailure, halfOpen), steps))
    ensures GoAll(Opened(lastFailure, halfOpen), steps).counted <= 2 * HALF_OPEN_MAX_CALLS
  {
    if steps != [] {
      CountedBound(lastFailure, halfOpen, steps[..|steps| - 1]);
      GoKeepsEpisode(GoAll(Opened(lastFailure, halfOpen), steps[..|steps| - 1]), steps[|steps| - 1]);
    }
  }
}
