/** hookBreaker and hookCircuitBreakers of internal/plugin/circuit_breaker.go, each operation atomic. */
module CircuitBreaker {
  const FAILURE_THRESHOLD: nat := 5
  const RESET_TIMEOUT: int := 30_000_000_000   // nanoseconds
  const HALF_OPEN_MAX_CALLS: nat := 1

  datatype BreakerState = Closed | Open | HalfOpen

  datatype Breaker = Breaker(state: BreakerState, failures: nat, lastFailure: int, halfOpen: nat)

  const New := Breaker(Closed, 0, 0, 0)

  datatype Admission = Admission(breaker: Breaker, admitted: bool)

  function Allow(b: Breaker, now: int): Admission {
    match b.state
    case Closed => Admission(b, true)
    case Open =>
      if now - b.lastFailure > RESET_TIMEOUT then Admission(b.(state := HalfOpen, halfOpen := 0), true)
      else Admission(b, false)
    case HalfOpen =>
      Admission(b.(halfOpen := b.halfOpen + 1), b.halfOpen + 1 <= HALF_OPEN_MAX_CALLS)
  }

  function RecordSuccess(b: Breaker): Breaker {
    b.(failures := 0, state := Closed)
  }

  function RecordFailure(b: Breaker, now: int): Breaker {
    var b1 := b.(lastFailure := now, failures := b.failures + 1);
    match b.state
    case Closed => if b1.failures >= FAILURE_THRESHOLD then b1.(state := Open) else b1
    case HalfOpen => b1.(state := Open)
    case Open => b1
  }

  // ---- Whole runs ----

  datatype Event = Ask(now: int) | Succeeded | FailedAt(now: int)

  function Next(b: Breaker, e: Event): Breaker {
    match e
    case Ask(now) => Allow(b, now).breaker
    case Succeeded => RecordSuccess(b)
    case FailedAt(now) => RecordFailure(b, now)
  }

  function After(history: seq<Event>): Breaker {
    if history == [] then New else Next(After(history[..|history| - 1]), history[|history| - 1])
  }

  // Failures recorded since the last recorded success.
  function TrailingFailures(history: seq<Event>): nat {
    if history == [] then 0
    else
      var before := TrailingFailures(history[..|history| - 1]);
      match history[|history| - 1]
      case Ask(_) => before
      case Succeeded => 0
      case FailedAt(_) => before + 1
  }

  /** The breaker is closed exactly when fewer than FAILURE_THRESHOLD failures have come in a row. */
  lemma {:induction false} ClosedExactly(history: seq<Event>)
    ensures After(history).state == Closed <==> TrailingFailures(history) < FAILURE_THRESHOLD
    ensures After(history).failures == TrailingFailures(history)
  {
    if history != [] {
      ClosedExactly(history[..|history| - 1]);
    }
  }

  // When the last failure was recorded.
  function LastFailure(history: seq<Event>): int {
    if history == [] then 0
    else match history[|history| - 1]
      case FailedAt(now) => now
      case _ => LastFailure(history[..|history| - 1])
  }

  // How often was asked since the last result, counting from the first time it was late enough.
  function LateAsks(history: seq<Event>): nat {
    if history == [] then 0
    else
      var before := history[..|history| - 1];
      match history[|history| - 1]
      case Ask(now) =>
        if LateAsks(before) > 0 then LateAsks(before) + 1
        else if now - LastFailure(before) > RESET_TIMEOUT then 1 else 0
      case _ => 0
  }

  /**
   When a call is admitted, over every history: always while fewer than
   FAILURE_THRESHOLD failures have come in a row; and then only once more than the
   reset timeout has passed since the last failure, and after the first such call
   only HALF_OPEN_MAX_CALLS more until a result is recorded.
   */
  lemma AdmitsExactly(history: seq<Event>, now: int)
    ensures Allow(After(history), now).admitted <==>
      || TrailingFailures(history) < FAILURE_THRESHOLD
      || (LateAsks(history) == 0 && now - LastFailure(history) > RESET_TIMEOUT)
      || (0 < LateAsks(history) <= HALF_OPEN_MAX_CALLS)
  {
    ClosedExactly(history);
    OpenExactly(history);
  }

  lemma {:induction false} OpenExactly(history: seq<Event>)
    ensures var b := After(history);
      && b.lastFailure == LastFailure(history)
      && (TrailingFailures(history) >= FAILURE_THRESHOLD ==>
            if LateAsks(history) == 0 then b.state == Open else b.state == HalfOpen && b.halfOpen == LateAsks(history) - 1)
  {
    if history != [] {
      OpenExactly(history[..|history| - 1]);
      ClosedExactly(history[..|history| - 1]);
    }
  }

  // Calls admitted since the breaker last became half-open, up to the next
  // recorded result.
  function EpisodeAdmissions(history: seq<Event>): nat {
    if history == [] then 0
    else
      var before := history[..|history| - 1];
      var b := After(before);
      match history[|history| - 1]
      case Ask(now) =>
        if b.state == Open && Allow(b, now).admitted then 1
        else if b.state == HalfOpen && Allow(b, now).admitted then EpisodeAdmissions(before) + 1
        else EpisodeAdmissions(before)
      case _ => 0
  }

  /**
   A half-open episode admits between one call and one more than
   HALF_OPEN_MAX_CALLS: the call that ends the open state is not counted.
   */
  lemma {:induction false} EpisodeBound(history: seq<Event>)
    requires After(history).state == HalfOpen
    ensures 1 <= EpisodeAdmissions(history) <= 1 + HALF_OPEN_MAX_CALLS
    ensures EpisodeAdmissions(history) <= 1 + After(history).halfOpen
  {
    var before := history[..|history| - 1];
    if After(before).state == HalfOpen {
      EpisodeBound(before);
    }
  }

  // Both ends of the bound are reached.
  lemma EpisodeBoundTight(b: Breaker, now: int)
    requires b.state == Open && now - b.lastFailure > RESET_TIMEOUT
    ensures var first := Allow(b, now);
      var second := Allow(first.breaker, now);
      var third := Allow(second.breaker, now);
      first.admitted && second.admitted && !third.admitted
  {
  }

  function AskAll(b: Breaker, times: seq<int>): Breaker
    decreases |times|
  {
    if times == [] then b else AskAll(Allow(b, times[0]).breaker, times[1..])
  }

  // Half-open with its test calls used up.
  predicate Wedged(b: Breaker) {
    b.state == HalfOpen && b.halfOpen >= HALF_OPEN_MAX_CALLS
  }

  /**
   While no result is recorded, a breaker refuses every later call, at any time,
   exactly when it is half-open and has used up its test calls.
   */
  lemma WedgedExactly(b: Breaker)
    ensures (forall times: seq<int>, now: int :: !Allow(AskAll(b, times), now).admitted) <==> Wedged(b)
  {
    if Wedged(b) {
      forall times: seq<int>, now: int
        ensures !Allow(AskAll(b, times), now).admitted
      {
        WedgedStays(b, times, now);
      }
    } else {
      assert AskAll(b, []) == b;
      assert Allow(AskAll(b, []), b.lastFailure + RESET_TIMEOUT + 1).admitted;
    }
  }

  // Enough failures, and two test calls after the reset timeout that end without a result.
  const WEDGING: seq<Event> :=
    [FailedAt(0), FailedAt(0), FailedAt(0), FailedAt(0), FailedAt(0), Ask(RESET_TIMEOUT + 1), Ask(RESET_TIMEOUT + 1)]

  /** A new breaker gets there. */
  lemma WedgedReached()
    ensures Wedged(After(WEDGING))
  {
    FailuresOnly(FAILURE_THRESHOLD);
    var failures := seq(FAILURE_THRESHOLD, _ => FailedAt(0));
    var ask := Ask(RESET_TIMEOUT + 1);
    AfterSnoc(failures, ask);
    AfterSnoc(failures + [ask], ask);
    assert WEDGING == failures + [ask] + [ask];
  }

  lemma AfterSnoc(history: seq<Event>, e: Event)
    ensures After(history + [e]) == Next(After(history), e)
  {
    assert (history + [e])[..|history|] == history;
  }

  lemma {:induction false} FailuresOnly(n: nat)
    requires n <= FAILURE_THRESHOLD
    ensures var b := After(seq(n, _ => FailedAt(0)));
      b.failures == n && b.state == (if n < FAILURE_THRESHOLD then Closed else Open) && (n > 0 ==> b.lastFailure == 0)
  {
    if n > 0 {
      FailuresOnly(n - 1);
      AfterSnoc(seq(n - 1, _ => FailedAt(0)), FailedAt(0));
      assert seq(n, _ => FailedAt(0)) == seq(n - 1, _ => FailedAt(0)) + [FailedAt(0)];
    }
  }

  lemma {:induction false} WedgedStays(b: Breaker, times: seq<int>, now: int)
    requires Wedged(b)
    ensures !Allow(AskAll(b, times), now).admitted && AskAll(b, times).state == HalfOpen
    decreases |times|
  {
    if times != [] {
      WedgedStays(Allow(b, times[0]).breaker, times[1..], now);
    }
  }

  // ---- A plugin that always fails ----

  // A caller asks at `ask`; if admitted, the call fails and is recorded at `failed`.
  datatype Attempt = Attempt(ask: int, failed: int)

  datatype Trail = Trail(breaker: Breaker, admitted: seq<Attempt>)

  function Attempts(attempts: seq<Attempt>): Trail {
    if attempts == [] then Trail(New, [])
    else
      var t := Attempts(attempts[..|attempts| - 1]);
      var a := attempts[|attempts| - 1];
      var admission := Allow(t.breaker, a.ask);
      if admission.admitted then Trail(RecordFailure(admission.breaker, a.failed), t.admitted + [a])
      else Trail(admission.breaker, t.admitted)
  }

  lemma {:induction false} FailingState(attempts: seq<Attempt>)
    ensures var t := Attempts(attempts);
      && t.breaker.failures == |t.admitted|
      && (t.breaker.state == Closed <==> |t.admitted| < FAILURE_THRESHOLD)
      && t.breaker.state != HalfOpen
      && (t.admitted != [] ==> t.breaker.lastFailure == t.admitted[|t.admitted| - 1].failed)
  {
    if attempts != [] {
      FailingState(attempts[..|attempts| - 1]);
    }
  }

  /**
   When every admitted call fails and is recorded before the next ask, each
   call from the sixth on comes more than RESET_TIMEOUT after the failure
   before it.
   */
  lemma {:induction false} FailingCallsArePaced(attempts: seq<Attempt>, k: nat)
    requires FAILURE_THRESHOLD <= k < |Attempts(attempts).admitted|
    ensures Attempts(attempts).admitted[k].ask - Attempts(attempts).admitted[k - 1].failed > RESET_TIMEOUT
  {
    var before := attempts[..|attempts| - 1];
    FailingState(before);
    if k < |Attempts(before).admitted| {
      FailingCallsArePaced(before, k);
    }
  }

  // ---- The registry ----

  // "slug:hook".
  function Key(slug: string, hook: string): string {
    slug + ":" + hook
  }

  predicate HasPrefix(s: string, prefix: string) {
    |prefix| <= |s| && s[..|prefix|] == prefix
  }

  function Get(breakers: map<string, Breaker>, key: string): Breaker {
    if key in breakers then breakers[key] else New
  }

  function RemoveByPlugin(breakers: map<string, Breaker>, slug: string): map<string, Breaker> {
    map k | k in breakers && !HasPrefix(k, slug + ":") :: breakers[k]
  }

  lemma KeyPrefix(slug: string, other: string, hook: string)
    requires ':' !in slug && ':' !in other
    ensures HasPrefix(Key(other, hook), slug + ":") <==> other == slug
  {
    var k, prefix := Key(other, hook), slug + ":";
    assert k[|other|] == ':' && forall i :: 0 <= i < |other| ==> k[i] == other[i];
    assert prefix[|slug|] == ':' && forall i :: 0 <= i < |slug| ==> prefix[i] == slug[i];
    if HasPrefix(k, prefix) {
      assert forall i :: 0 <= i < |prefix| ==> k[i] == prefix[i];
      assert |slug| == |other|;
      assert slug == k[..|slug|] == other;
    }
    if other == slug {
      assert k[..|prefix|] == prefix;
    }
  }

  /**
   Removing a plugin's breakers by prefix resets all of its own and leaves every
   other plugin's alone, because a slug contains no colon.
   */
  lemma RemoveByPluginExact(breakers: map<string, Breaker>, slug: string, other: string, hook: string)
    requires ':' !in slug && ':' !in other
    ensures Get(RemoveByPlugin(breakers, slug), Key(other, hook))
         == if other == slug then New else Get(breakers, Key(other, hook))
  {
    KeyPrefix(slug, other, hook);
  }

  // ---- The objects ----

  class HookBreaker {
    var state: BreakerState
    var failures: nat
    var lastFailure: int
    var halfOpen: nat

    ghost function Value(): Breaker
      reads this
    {
      Breaker(state, failures, lastFailure, halfOpen)
    }

    constructor ()
      ensures Value() == New
    {
      state, failures, lastFailure, halfOpen := Closed, 0, 0, 0;
    }

    method AllowCall(now: int) returns (admitted: bool)
      modifies this`state, this`halfOpen
      ensures Admission(Value(), admitted) == Allow(old(Value()), now)
    {
      match state
      case Closed =>
        admitted := true;
      case Open =>
        if now - lastFailure > RESET_TIMEOUT {
          state := HalfOpen;
          halfOpen := 0;
          admitted := true;
        } else {
          admitted := false;
        }
      case HalfOpen =>
        halfOpen := halfOpen + 1;
        admitted := halfOpen <= HALF_OPEN_MAX_CALLS;
    }

    method Success()
      modifies this`state, this`failures
      ensures Value() == RecordSuccess(old(Value()))
    {
      failures := 0;
      state := Closed;
    }

    method Failure(now: int)
      modifies this`state, this`failures, this`lastFailure
      ensures Value() == RecordFailure(old(Value()), now)
    {
      lastFailure := now;
      failures := failures + 1;
      match state
      case Closed =>
        if failures >= FAILURE_THRESHOLD {
          state := Open;
        }
      case HalfOpen =>
        state := Open;
      case Open =>
    }
  }
}
