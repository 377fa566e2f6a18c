/** Retry accounting of the consumer, and the runs that show each assumption is needed. */
module ConsumerRetries {
  import opened Consumer

  // ---- Retry accounting ----

  // Nothing crashes and every failed attempt is counted and, past the limit,
  // dead-lettered. Deliveries are unrestricted; TryAcquire and Release may fail.
  predicate Counted(s: State, e: Event) {
    && !e.Purge?
    && (e.Move? ==> e.outcome.Good? || e.outcome.Bad?)
    && (e.Move? && e.h < |s.handlers| && (s.handlers[e.h].stage.Counting? || s.handlers[e.h].stage.DeadLettering?)
        ==> e.outcome.Good?)
  }

  predicate CountedRun(s: State, events: seq<Event>)
    decreases |events|
  {
    events == [] || (Counted(s, events[0]) && CountedRun(Next(s, events[0]), events[1..]))
  }

  // Handler h has failed on k and is still to be counted, or counted and still
  // to be dead-lettered.
  predicate Pending(s: State, h: nat, k: string, dead: bool)
    requires h < |s.handlers| && s.handlers[h].msg < |s.msgs|
  {
    && KeyOf(s, h) == k
    && if dead then s.handlers[h].stage.DeadLettering? && !s.msgs[s.handlers[h].msg].malformed
       else s.handlers[h].stage.Failed? || s.handlers[h].stage.Counting?
  }

  function Tally(s: State, k: string, dead: bool, n: nat): nat
    requires n <= |s.handlers| && MsgsExist(s)
  {
    if n == 0 then 0 else Tally(s, k, dead, n - 1) + (if Pending(s, n - 1, k, dead) then 1 else 0)
  }

  lemma {:induction false} TallySame(s: State, s': State, k: string, dead: bool, n: nat)
    requires MsgsExist(s) && MsgsExist(s') && n <= |s.handlers| && n <= |s'.handlers|
    requires forall h :: 0 <= h < n ==> (Pending(s, h, k, dead) <==> Pending(s', h, k, dead))
    ensures Tally(s, k, dead, n) == Tally(s', k, dead, n)
  {
    if n > 0 {
      TallySame(s, s', k, dead, n - 1);
    }
  }

  lemma {:induction false} TallyMove(s: State, s': State, k: string, dead: bool, h: nat, n: nat)
    requires MsgsExist(s) && MsgsExist(s') && h < n <= |s.handlers| == |s'.handlers|
    requires forall g :: 0 <= g < n && g != h ==> (Pending(s, g, k, dead) <==> Pending(s', g, k, dead))
    ensures Tally(s', k, dead, n) + (if Pending(s, h, k, dead) then 1 else 0)
         == Tally(s, k, dead, n) + (if Pending(s', h, k, dead) then 1 else 0)
  {
    if h == n - 1 {
      TallySame(s, s', k, dead, n - 1);
    } else {
      TallyMove(s, s', k, dead, h, n - 1);
    }
  }

  // None of the first n handlers is at work on k.
  predicate Idle(s: State, k: string, n: nat)
    requires n <= |s.handlers|
  {
    forall h :: 0 <= h < n && s.handlers[h].msg < |s.msgs| && KeyOf(s, h) == k ==> !Active(s.handlers[h])
  }

  lemma {:induction false} TallyNone(s: State, k: string, dead: bool, n: nat)
    requires MsgsExist(s) && n <= |s.handlers| && Idle(s, k, n)
    ensures Tally(s, k, dead, n) == 0
  {
    if n > 0 {
      TallyNone(s, k, dead, n - 1);
    }
  }

  function Excess(n: nat): nat {
    if n < MAX_MESSAGE_RETRIES then 0 else n - (MAX_MESSAGE_RETRIES - 1)
  }

  ghost predicate LawFor(s: State, k: string)
    requires MsgsExist(s)
  {
    && s.failures[k] == s.retries[k] + Tally(s, k, false, |s.handlers|)
    && s.dlq[k] + Tally(s, k, true, |s.handlers|) == Excess(s.retries[k])
  }

  // The stages of a malformed message.
  predicate OnShortWay(stage: Stage) {
    stage.Start? || stage.DeadLettering? || stage.Finished?
  }

  ghost predicate RetryInv(s: State) {
    && MsgsExist(s)
    && (forall h :: 0 <= h < |s.handlers| && s.msgs[s.handlers[h].msg].malformed ==>
          OnShortWay(s.handlers[h].stage))
    && (forall k :: LawFor(s, k))
  }

  // Only handler h's own contribution changes.
  ghost predicate TallyShift(s: State, s': State, h: nat, k: string, dead: bool)
    requires MsgsExist(s) && MsgsExist(s') && h < |s.handlers| == |s'.handlers|
  {
    Tally(s', k, dead, |s.handlers|) + (if Pending(s, h, k, dead) then 1 else 0)
      == Tally(s, k, dead, |s.handlers|) + (if Pending(s', h, k, dead) then 1 else 0)
  }

  lemma TallyCall(s: State, s': State, h: nat, k: string)
    requires MsgsExist(s) && h < |s.handlers| == |s'.handlers| && |s'.msgs| == |s.msgs|
    requires s'.handlers == s.handlers[h := s'.handlers[h]] && s'.handlers[h].msg == s.handlers[h].msg
    requires forall m :: 0 <= m < |s.msgs| ==>
      s'.msgs[m].key == s.msgs[m].key && s'.msgs[m].malformed == s.msgs[m].malformed
    ensures MsgsExist(s')
    ensures forall dead :: TallyShift(s, s', h, k, dead)
  {
    forall dead
      ensures TallyShift(s, s', h, k, dead)
    {
      TallyMove(s, s', k, dead, h, |s.handlers|);
    }
  }

  lemma StartKeepsLaw(s: State, h: nat, good: bool, k: string)
    requires RetryInv(s) && h < |s.handlers| && s.handlers[h].stage.Start?
    ensures MsgsExist(StartStep(s, h, good)) && LawFor(StartStep(s, h, good), k)
  {
    TallyCall(s, StartStep(s, h, good), h, k);
    hide Tally;
    assert LawFor(s, k);
    assert TallyShift(s, StartStep(s, h, good), h, k, false) && TallyShift(s, StartStep(s, h, good), h, k, true);
  }

  lemma ProcessKeepsLaw(s: State, h: nat, good: bool, k: string)
    requires RetryInv(s) && h < |s.handlers| && s.handlers[h].stage.Processing?
    ensures MsgsExist(ProcessStep(s, h, good)) && LawFor(ProcessStep(s, h, good), k)
  {
    TallyCall(s, ProcessStep(s, h, good), h, k);
    hide Tally;
    assert LawFor(s, k);
    assert TallyShift(s, ProcessStep(s, h, good), h, k, false) && TallyShift(s, ProcessStep(s, h, good), h, k, true);
  }

  lemma ReleaseKeepsLaw(s: State, h: nat, good: bool, k: string)
    requires RetryInv(s) && h < |s.handlers| && s.handlers[h].stage.Failed?
    ensures MsgsExist(ReleaseStep(s, h, good)) && LawFor(ReleaseStep(s, h, good), k)
  {
    TallyCall(s, ReleaseStep(s, h, good), h, k);
    hide Tally;
    assert LawFor(s, k);
    assert TallyShift(s, ReleaseStep(s, h, good), h, k, false) && TallyShift(s, ReleaseStep(s, h, good), h, k, true);
  }

  lemma CountKeepsLaw(s: State, h: nat, good: bool, k: string)
    requires RetryInv(s) && h < |s.handlers| && s.handlers[h].stage.Counting? && good
    ensures MsgsExist(CountStep(s, h, good)) && LawFor(CountStep(s, h, good), k)
  {
    TallyCall(s, CountStep(s, h, good), h, k);
    hide Tally;
    assert LawFor(s, k);
    assert TallyShift(s, CountStep(s, h, good), h, k, false) && TallyShift(s, CountStep(s, h, good), h, k, true);
  }

  lemma DeadLetterKeepsLaw(s: State, h: nat, good: bool, k: string)
    requires RetryInv(s) && h < |s.handlers| && s.handlers[h].stage.DeadLettering? && good
    ensures MsgsExist(DeadLetterStep(s, h, good)) && LawFor(DeadLetterStep(s, h, good), k)
  {
    TallyCall(s, DeadLetterStep(s, h, good), h, k);
    hide Tally;
    assert LawFor(s, k);
    assert TallyShift(s, DeadLetterStep(s, h, good), h, k, false) && TallyShift(s, DeadLetterStep(s, h, good), h, k, true);
  }

  lemma CallKeepsLaw(s: State, h: nat, good: bool, k: string)
    requires RetryInv(s) && h < |s.handlers|
    requires s.handlers[h].stage.Counting? || s.handlers[h].stage.DeadLettering? ==> good
    ensures MsgsExist(CallStep(s, h, good)) && LawFor(CallStep(s, h, good), k)
  {
    hide LawFor;
    match s.handlers[h].stage {
      case Start => StartKeepsLaw(s, h, good, k);
      case Processing => ProcessKeepsLaw(s, h, good, k);
      case Failed => ReleaseKeepsLaw(s, h, good, k);
      case Counting => CountKeepsLaw(s, h, good, k);
      case DeadLettering => DeadLetterKeepsLaw(s, h, good, k);
      case Finished =>
    }
  }

  lemma ArrivalKeepsLaw(s: State, e: Event)
    requires RetryInv(s) && (e.Arrive? || e.Deliver?)
    ensures RetryInv(Next(s, e))
  {
    var s' := Next(s, e);
    forall k
      ensures LawFor(s', k)
    {
      assert LawFor(s, k);
      TallySame(s, s', k, false, |s.handlers|);
      TallySame(s, s', k, true, |s.handlers|);
    }
  }

  lemma CallKeepsSane(s: State, h: nat, good: bool)
    requires RetryInv(s) && h < |s.handlers|
    ensures var s' := CallStep(s, h, good);
      && MsgsExist(s')
      && (forall g :: 0 <= g < |s'.handlers| && s'.msgs[s'.handlers[g].msg].malformed ==>
            OnShortWay(s'.handlers[g].stage))
  {
    hide LawFor;
    CallStages(s, h, good);
    hide CallStep;
  }

  // A call moves its own handler only, and a malformed message on its short way only.
  lemma CallStages(s: State, h: nat, good: bool)
    requires h < |s.handlers| && s.handlers[h].msg < |s.msgs|
    ensures var s' := CallStep(s, h, good);
      && s'.handlers == s.handlers[h := s'.handlers[h]] && s'.handlers[h].msg == s.handlers[h].msg
      && |s'.msgs| == |s.msgs| && (forall m :: 0 <= m < |s.msgs| ==> s'.msgs[m].malformed == s.msgs[m].malformed)
      && (s.msgs[s.handlers[h].msg].malformed && OnShortWay(s.handlers[h].stage) ==> OnShortWay(s'.handlers[h].stage))
  {
    match s.handlers[h].stage {
      case Start =>
      case Processing =>
      case Failed =>
      case Counting =>
      case DeadLettering =>
      case Finished =>
    }
  }

  lemma MoveKeepsLaw(s: State, h: nat, good: bool)
    requires RetryInv(s) && h < |s.handlers|
    requires s.handlers[h].stage.Counting? || s.handlers[h].stage.DeadLettering? ==> good
    ensures RetryInv(CallStep(s, h, good))
  {
    hide LawFor, CallStep;
    CallKeepsSane(s, h, good);
    forall k
      ensures LawFor(CallStep(s, h, good), k)
    {
      CallKeepsLaw(s, h, good, k);
    }
  }

  lemma {:induction false} RunKeepsLaw(s: State, events: seq<Event>)
    requires RetryInv(s) && CountedRun(s, events)
    ensures RetryInv(Run(s, events))
    decreases |events|
  {
    if events != [] {
      var e := events[0];
      if e.Move? {
        if e.h < |s.handlers| {
          MoveKeepsLaw(s, e.h, e.outcome.Good?);
        }
      } else {
        ArrivalKeepsLaw(s, e);
      }
      RunKeepsLaw(Next(s, e), events[1..]);
    }
  }

  lemma NothingOwed()
    ensures RetryInv(Empty)
  {
    assert forall k :: LawFor(Empty, k);
  }

  /**
   The retry law, over every run without crashes in which failed attempts are
   counted and dead-lettered. While no handler is at work on k, its failed
   attempts and retry count agree, and it has been dead-lettered once for the
   third failed attempt and once more for each failed attempt after that. So it
   is retried at least twice before the first dead letter, and a replay that
   fails is dead-lettered after exactly one attempt.
   */
  lemma RetryLaw(events: seq<Event>, k: string)
    requires CountedRun(Empty, events)
    requires Idle(Run(Empty, events), k, |Run(Empty, events).handlers|)
    ensures var s := Run(Empty, events);
      s.failures[k] == s.retries[k] && s.dlq[k] == Excess(s.failures[k])
  {
    NothingOwed();
    RunKeepsLaw(Empty, events);
    var s := Run(Empty, events);
    assert LawFor(s, k);
    assert Idle(s, k, |s.handlers|);
    TallyNone(s, k, false, |s.handlers|);
    TallyNone(s, k, true, |s.handlers|);
  }

  /**
   The key of an event is taken exactly while a handler is working on it or once
   it has succeeded; in particular it is free after a dead letter.
   */
  lemma KeyTakenExactly(events: seq<Event>, k: string)
    requires StoreAnswersRun(Empty, events) && GentleRun(Empty, events)
    ensures var s := Run(Empty, events);
      k in s.keys <==> s.effects[k] == 1 || KeyHeld(s, k)
  {
    AtMostOnce(Empty, events);
    NothingDropped(Empty, events);
  }

  // ---- Each assumption is needed ----

  lemma At(s: State, events: seq<Event>, i: nat, s': State)
    requires i < |events| && Next(s, events[i]) == s'
    ensures Run(s, events[i..]) == Run(s', events[i + 1..])
  {
    assert events[i..][1..] == events[i + 1..];
  }

  lemma End(s: State, events: seq<Event>)
    ensures Run(s, events[|events|..]) == s
    ensures events[0..] == events
  {
  }

  // Every message is acked and no handler at work, with nothing to show for it.
  predicate Lost(s: State) {
    && s.msgs != [] && (forall m :: 0 <= m < |s.msgs| ==> s.msgs[m].acked)
    && (forall h :: 0 <= h < |s.handlers| ==> s.handlers[h].stage.Finished?)
    && s.effects == multiset{} && s.dlq == multiset{} && s.deadRaw == {}
  }

  const STORE_FAILS: seq<Event> :=
    [Arrive("e", false), Deliver(0), Deliver(0), Move(0, Bad),
     Move(0, Good), Move(1, Bad), Move(1, Good)]

  lemma TwiceIfStoreFailsTail(s: State)
    requires s == State([Message("e", false, false)], [Handler(0, false, Processing), Handler(0, false, Start)], {}, multiset{}, multiset{}, multiset{}, multiset{}, {})
    ensures Run(s, STORE_FAILS[4..]).effects["e"] == 2
  {
    hide Run;
    var s5 := s.(msgs := [Message("e", false, true)], handlers := [Handler(0, false, Finished), Handler(0, false, Start)], effects := multiset{"e"});
    At(s, STORE_FAILS, 4, s5);
    var s6 := s5.(handlers := [Handler(0, false, Finished), Handler(0, false, Processing)]);
    At(s5, STORE_FAILS, 5, s6);
    var s7 := s6.(handlers := [Handler(0, false, Finished), Handler(0, false, Finished)], effects := multiset{"e", "e"});
    At(s6, STORE_FAILS, 6, s7);
    End(s7, STORE_FAILS);
  }

  /** If TryAcquire may fail, two deliveries of one event can both take effect. */
  lemma TwiceIfStoreFails()
    ensures Run(Empty, STORE_FAILS).effects["e"] == 2
  {
    hide Run;
    var s1 := Empty.(msgs := [Message("e", false, false)]);
    At(Empty, STORE_FAILS, 0, s1);
    var s2 := s1.(handlers := [Handler(0, false, Start)]);
    At(s1, STORE_FAILS, 1, s2);
    var s3 := s2.(handlers := [Handler(0, false, Start), Handler(0, false, Start)]);
    At(s2, STORE_FAILS, 2, s3);
    var s4 := s3.(handlers := [Handler(0, false, Processing), Handler(0, false, Start)]);
    At(s3, STORE_FAILS, 3, s4);
    End(s4, STORE_FAILS);
    TwiceIfStoreFailsTail(s4);
  }

  const RELEASE_FAILS: seq<Event> :=
    [Arrive("e", false), Deliver(0), Move(0, Good), Move(0, Bad),
     Move(0, Bad), Move(0, Good), Deliver(0), Move(1, Good)]

  lemma LostIfReleaseFailsTail(s: State)
    requires s == State([Message("e", false, false)], [Handler(0, true, Failed)], {"e"}, multiset{}, multiset{}, multiset{"e"}, multiset{}, {})
    ensures Lost(Run(s, RELEASE_FAILS[4..]))
  {
    hide Run;
    var s5 := s.(handlers := [Handler(0, true, Counting)]);
    At(s, RELEASE_FAILS, 4, s5);
    var s6 := s5.(handlers := [Handler(0, true, Finished)], retries := multiset{"e"});
    At(s5, RELEASE_FAILS, 5, s6);
    var s7 := s6.(handlers := [Handler(0, true, Finished), Handler(0, false, Start)]);
    At(s6, RELEASE_FAILS, 6, s7);
    var s8 := s7.(msgs := [Message("e", false, true)], handlers := [Handler(0, true, Finished), Handler(0, false, Finished)]);
    At(s7, RELEASE_FAILS, 7, s8);
    End(s8, RELEASE_FAILS);
  }

  /** If Release fails, the redelivered message is skipped as a duplicate and the event is lost. */
  lemma LostIfReleaseFails()
    ensures Lost(Run(Empty, RELEASE_FAILS))
  {
    hide Run;
    var s1 := Empty.(msgs := [Message("e", false, false)]);
    At(Empty, RELEASE_FAILS, 0, s1);
    var s2 := s1.(handlers := [Handler(0, false, Start)]);
    At(s1, RELEASE_FAILS, 1, s2);
    var s3 := s2.(handlers := [Handler(0, true, Processing)], keys := {"e"});
    At(s2, RELEASE_FAILS, 2, s3);
    var s4 := s3.(handlers := [Handler(0, true, Failed)], failures := multiset{"e"});
    At(s3, RELEASE_FAILS, 3, s4);
    End(s4, RELEASE_FAILS);
    LostIfReleaseFailsTail(s4);
  }

  /** If the process dies while it has the key, the redelivered message is skipped and the event is lost. */
  lemma LostIfCrashed()
    ensures Lost(Run(Empty, [Arrive("e", false), Deliver(0), Move(0, Good), Move(0, Crash), Deliver(0), Move(1, Good)]))
  {
    hide Run;
    var es := [Arrive("e", false), Deliver(0), Move(0, Good), Move(0, Crash), Deliver(0), Move(1, Good)];
    var s1 := Empty.(msgs := [Message("e", false, false)]);
    At(Empty, es, 0, s1);
    var s2 := s1.(handlers := [Handler(0, false, Start)]);
    At(s1, es, 1, s2);
    var s3 := s2.(handlers := [Handler(0, true, Processing)], keys := {"e"});
    At(s2, es, 2, s3);
    var s4 := s3.(handlers := [Handler(0, true, Finished)]);
    At(s3, es, 3, s4);
    var s5 := s4.(handlers := [Handler(0, true, Finished), Handler(0, false, Start)]);
    At(s4, es, 4, s5);
    var s6 := s5.(msgs := [Message("e", false, true)], handlers := [Handler(0, true, Finished), Handler(0, false, Finished)]);
    At(s5, es, 5, s6);
    End(s6, es);
  }

  const REDELIVERED_EARLY: seq<Event> :=
    [Arrive("e", false), Deliver(0), Move(0, Good), Deliver(0), Move(1, Good),
     Move(0, Bad), Move(0, Good), Move(0, Good)]

  lemma LostIfRedeliveredEarlyTail(s: State)
    requires s == State([Message("e", false, true)], [Handler(0, true, Processing), Handler(0, false, Finished)], {"e"}, multiset{}, multiset{}, multiset{}, multiset{}, {})
    ensures Lost(Run(s, REDELIVERED_EARLY[5..]))
  {
    hide Run;
    var s6 := s.(handlers := [Handler(0, true, Failed), Handler(0, false, Finished)], failures := multiset{"e"});
    At(s, REDELIVERED_EARLY, 5, s6);
    var s7 := s6.(handlers := [Handler(0, true, Counting), Handler(0, false, Finished)], keys := {});
    At(s6, REDELIVERED_EARLY, 6, s7);
    var s8 := s7.(handlers := [Handler(0, true, Finished), Handler(0, false, Finished)], retries := multiset{"e"});
    At(s7, REDELIVERED_EARLY, 7, s8);
    End(s8, REDELIVERED_EARLY);
  }

  /** If a message is redelivered while in progress, the second copy acks it, and a failure of the first loses it. */
  lemma LostIfRedeliveredEarly()
    ensures Lost(Run(Empty, REDELIVERED_EARLY))
  {
    hide Run;
    var s1 := Empty.(msgs := [Message("e", false, false)]);
    At(Empty, REDELIVERED_EARLY, 0, s1);
    var s2 := s1.(handlers := [Handler(0, false, Start)]);
    At(s1, REDELIVERED_EARLY, 1, s2);
    var s3 := s2.(handlers := [Handler(0, true, Processing)], keys := {"e"});
    At(s2, REDELIVERED_EARLY, 2, s3);
    var s4 := s3.(handlers := [Handler(0, true, Processing), Handler(0, false, Start)]);
    At(s3, REDELIVERED_EARLY, 3, s4);
    var s5 := s4.(msgs := [Message("e", false, true)], handlers := [Handler(0, true, Processing), Handler(0, false, Finished)]);
    At(s4, REDELIVERED_EARLY, 4, s5);
    End(s5, REDELIVERED_EARLY);
    LostIfRedeliveredEarlyTail(s5);
  }

  // n handlers have failed on the one message, each counted; one more, if any, is at work.
  function Attempted(n: nat, keys: set<string>, last: seq<Handler>, failures: nat, retries: nat): State {
    State([Message("e", false, false)], seq(n, _ => Handler(0, true, Finished)) + last, keys,
          multiset{}["e" := retries], multiset{}, multiset{}["e" := failures], multiset{}, {})
  }

  function LastStage(n: nat): Stage {
    if n + 1 < MAX_MESSAGE_RETRIES then Finished else DeadLettering
  }

  // One more delivery: acquired, failed, released, counted.
  function FailedAttempt(n: nat): seq<Event> {
    [Deliver(0), Move(n, Good), Move(n, Bad), Move(n, Good), Move(n, Good)]
  }

  lemma RunFive(s: State, a: Event, b: Event, c: Event, d: Event, e: Event)
    ensures Run(s, [a, b, c, d, e]) == Next(Next(Next(Next(Next(s, a), b), c), d), e)
  {
    hide Next;
    var es := [a, b, c, d, e];
    At(s, es, 0, Next(s, a));
    At(Next(s, a), es, 1, Next(Next(s, a), b));
    At(Next(Next(s, a), b), es, 2, Next(Next(Next(s, a), b), c));
    At(Next(Next(Next(s, a), b), c), es, 3, Next(Next(Next(Next(s, a), b), c), d));
    At(Next(Next(Next(Next(s, a), b), c), d), es, 4, Next(Next(Next(Next(Next(s, a), b), c), d), e));
    End(Next(Next(Next(Next(Next(s, a), b), c), d), e), es);
  }

  lemma LastStep(n: nat, keys: set<string>, h: Handler, h': Handler, failures: nat, retries: nat)
    ensures Attempted(n, keys, [h], failures, retries).handlers[n] == h
    ensures Attempted(n, keys, [h], failures, retries).handlers[n := h'] == Attempted(n, keys, [h'], failures, retries).handlers
  {
    var hs := seq(n, _ => Handler(0, true, Finished));
    assert (hs + [h])[n := h'] == hs + [h'];
  }

  lemma Delivered(n: nat)
    ensures Next(Attempted(n, {}, [], n, n), Deliver(0)) == Attempted(n, {}, [Handler(0, false, Start)], n, n)
  {
    assert Attempted(n, {}, [], n, n).handlers + [Handler(0, false, Start)]
        == Attempted(n, {}, [Handler(0, false, Start)], n, n).handlers;
  }

  lemma Acquired(n: nat)
    ensures Next(Attempted(n, {}, [Handler(0, false, Start)], n, n), Move(n, Good))
         == Attempted(n, {"e"}, [Handler(0, true, Processing)], n, n)
  {
    LastStep(n, {}, Handler(0, false, Start), Handler(0, true, Processing), n, n);
  }

  lemma ProcessFailed(n: nat)
    ensures Next(Attempted(n, {"e"}, [Handler(0, true, Processing)], n, n), Move(n, Bad))
         == Attempted(n, {"e"}, [Handler(0, true, Failed)], n + 1, n)
  {
    LastStep(n, {"e"}, Handler(0, true, Processing), Handler(0, true, Failed), n, n);
    assert multiset{}["e" := n] + multiset{"e"} == multiset{}["e" := n + 1];
  }

  lemma Released(n: nat)
    ensures Next(Attempted(n, {"e"}, [Handler(0, true, Failed)], n + 1, n), Move(n, Good))
         == Attempted(n, {}, [Handler(0, true, Counting)], n + 1, n)
  {
    LastStep(n, {"e"}, Handler(0, true, Failed), Handler(0, true, Counting), n + 1, n);
    assert {"e"} - {"e"} == {};
  }

  lemma RetryCounted(n: nat)
    ensures Next(Attempted(n, {}, [Handler(0, true, Counting)], n + 1, n), Move(n, Good))
         == Attempted(n, {}, [Handler(0, true, LastStage(n))], n + 1, n + 1)
  {
    LastStep(n, {}, Handler(0, true, Counting), Handler(0, true, LastStage(n)), n + 1, n);
    assert multiset{}["e" := n] + multiset{"e"} == multiset{}["e" := n + 1];
  }

  lemma AttemptFails(n: nat)
    ensures Run(Attempted(n, {}, [], n, n), FailedAttempt(n)) == Attempted(n, {}, [Handler(0, true, LastStage(n))], n + 1, n + 1)
    ensures n + 1 < MAX_MESSAGE_RETRIES ==>
      Run(Attempted(n, {}, [], n, n), FailedAttempt(n)) == Attempted(n + 1, {}, [], n + 1, n + 1)
  {
    Delivered(n);
    Acquired(n);
    ProcessFailed(n);
    Released(n);
    RetryCounted(n);
    hide Run, Next;
    RunFive(Attempted(n, {}, [], n, n), Deliver(0), Move(n, Good), Move(n, Bad), Move(n, Good), Move(n, Good));
    assert seq(n, _ => Handler(0, true, Finished)) + [Handler(0, true, Finished)]
        == seq(n + 1, _ => Handler(0, true, Finished)) + [];
  }

  lemma {:induction false} RunConcat(s: State, first: seq<Event>, rest: seq<Event>)
    ensures Run(s, first + rest) == Run(Run(s, first), rest)
    decreases |first|
  {
    if first == [] {
      assert first + rest == rest;
    } else {
      assert (first + rest)[0] == first[0] && (first + rest)[1..] == first[1..] + rest;
      RunConcat(Next(s, first[0]), first[1..], rest);
    }
  }

  // Three failed attempts, and a dead-letter publish that fails.
  const DEAD_LETTER_FAILS: seq<Event> :=
    [Arrive("e", false)] + FailedAttempt(0) + FailedAttempt(1) + FailedAttempt(2) + [Move(2, Bad)]

  /** If the dead-letter publish fails, the message is acked all the same and the event is lost. */
  lemma LostIfDeadLetterFails()
    ensures Lost(Run(Empty, DEAD_LETTER_FAILS))
  {
    hide Run, Next, FailedAttempt, Attempted, Lost;
    var arrive := [Arrive("e", false)];
    Arrived();
    RunConcat(Empty, arrive, FailedAttempt(0));
    AttemptFails(0);
    RunConcat(Empty, arrive + FailedAttempt(0), FailedAttempt(1));
    AttemptFails(1);
    RunConcat(Empty, arrive + FailedAttempt(0) + FailedAttempt(1), FailedAttempt(2));
    AttemptFails(2);
    RunSnoc(Empty, arrive + FailedAttempt(0) + FailedAttempt(1) + FailedAttempt(2), Move(2, Bad));
    DeadLetterLost();
  }

  lemma Arrived()
    ensures Run(Empty, [Arrive("e", false)]) == Attempted(0, {}, [], 0, 0)
  {
    var s := Attempted(0, {}, [], 0, 0);
    assert s.retries == multiset{} && s.failures == multiset{} && s.handlers == [];
    assert Next(Empty, Arrive("e", false)) == s;
    At(Empty, [Arrive("e", false)], 0, s);
    End(s, [Arrive("e", false)]);
  }

  lemma DeadLetterLost()
    ensures Lost(Next(Attempted(2, {}, [Handler(0, true, LastStage(2))], 3, 3), Move(2, Bad)))
  {
    var s := Attempted(2, {}, [Handler(0, true, DeadLettering)], 3, 3);
    var s' := Next(s, Move(2, Bad));
    LastStep(2, {}, Handler(0, true, DeadLettering), Handler(0, true, Finished), 3, 3);
    assert s'.handlers == Attempted(2, {}, [Handler(0, true, Finished)], 3, 3).handlers;
    assert s'.msgs == [Message("e", false, true)];
  }
}
