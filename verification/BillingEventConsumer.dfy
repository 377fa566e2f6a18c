/**
 The consumer object: handleMessage run without interruption, over an
 idempotency store and a dead-letter queue whose failures are given. It takes
 exactly the steps of the Consumer state machine.
 */
module BillingEventConsumer {
  import opened Consumer

  // Base backoff before a Nack, in milliseconds.
  const RETRY_DELAYS: seq<nat> := [2_000, 5_000, 10_000]

  function RetryBackoffDelay(attempt: int): nat {
    var idx := if attempt - 1 < 0 then 0 else attempt - 1;
    RETRY_DELAYS[if idx >= |RETRY_DELAYS| then |RETRY_DELAYS| - 1 else idx]
  }

  datatype Answer = Acked | Nacked(delay: nat)

  // Which of the calls made for a message succeed.
  datatype Script = Script(acquire: bool, process: bool, release: bool, count: bool, deadLetter: bool)

  function Result(ok: bool): Outcome {
    if ok then Good else Bad
  }

  function HandleEvents(s: State, m: nat, calls: Script): seq<Event>
    requires m < |s.msgs|
  {
    var h := |s.handlers|;
    var k := s.msgs[m].key;
    if s.msgs[m].malformed then [Deliver(m), Move(h, Good), Move(h, Result(calls.deadLetter))]
    else if calls.acquire && k in s.keys then [Deliver(m), Move(h, Good)]
    else if calls.process then [Deliver(m), Move(h, Result(calls.acquire)), Move(h, Good)]
    else [Deliver(m), Move(h, Result(calls.acquire)), Move(h, Bad)] + RetryEvents(h, calls, s.retries[k] + 1)
  }

  // After a failed attempt, the one that brings the retry count to `count`.
  function RetryEvents(h: nat, calls: Script, count: nat): seq<Event> {
    [Move(h, Result(calls.release)), Move(h, Result(calls.count))]
    + if calls.count && count >= MAX_MESSAGE_RETRIES then [Move(h, Result(calls.deadLetter))] else []
  }

  function RetryVerdict(calls: Script, count: nat): Answer {
    if !calls.count then Nacked(0)
    else if count < MAX_MESSAGE_RETRIES then Nacked(RetryBackoffDelay(count))
    else Acked
  }

  function Verdict(s: State, m: nat, calls: Script): Answer
    requires m < |s.msgs|
  {
    var k := s.msgs[m].key;
    if s.msgs[m].malformed || (calls.acquire && k in s.keys) || calls.process then Acked
    else RetryVerdict(calls, s.retries[k] + 1)
  }

  /**
   What one undisturbed handling of message m does. The handler is called unless the
   message is malformed or its key is taken; its key stays taken unless the handler
   fails and the release works; failures are counted, and the third and later ones
   are dead-lettered, as malformed messages are at once.
   */
  ghost predicate Handled(s: State, m: nat, calls: Script, s': State)
    requires m < |s.msgs|
  {
    var k := s.msgs[m].key;
    var called := !s.msgs[m].malformed && !(calls.acquire && k in s.keys);
    var failed := called && !calls.process;
    && (called && calls.process ==> s'.effects == s.effects + multiset{k})
    && (!(called && calls.process) ==> s'.effects == s.effects)
    && (failed ==> s'.failures == s.failures + multiset{k})
    && (!failed ==> s'.failures == s.failures)
    && s'.keys - {k} == s.keys - {k}
    && (k in s'.keys <==> !(failed && calls.release) && (k in s.keys || (called && calls.acquire)))
    && (failed && calls.count ==> s'.retries == s.retries + multiset{k})
    && (!(failed && calls.count) ==> s'.retries == s.retries)
    && (failed && calls.count && s.retries[k] >= 2 && calls.deadLetter ==> s'.dlq == s.dlq + multiset{k})
    && (!(failed && calls.count && s.retries[k] >= 2 && calls.deadLetter) ==> s'.dlq == s.dlq)
    && (s.msgs[m].malformed && calls.deadLetter ==> s'.deadRaw == s.deadRaw + {m})
    && (!(s.msgs[m].malformed && calls.deadLetter) ==> s'.deadRaw == s.deadRaw)
  }

  // Handler h is at a stage of message m.
  predicate AtStage(s: State, h: nat, m: nat, stage: Stage) {
    h < |s.handlers| && m < |s.msgs| && s.handlers[h].msg == m && s.handlers[h].stage == stage
  }

  lemma {:induction false} RunConcat(s: State, first: seq<Event>, rest: seq<Event>)
    ensures Run(s, first + rest) == Run(Run(s, first), rest)
    decreases |first|
  {
    if first == [] {
      assert first + rest == rest;
    } else {
      assert (first + rest)[0] == first[0] && (first + rest)[1..] == first[1..] + rest;
      RunConcat(Next(s, first[0]), first[1..], rest);
    }
  }

  lemma RunTwo(s: State, a: Event, b: Event)
    ensures Run(s, [a, b]) == Next(Next(s, a), b)
  {
    RunSnoc(s, [a], b);
    assert [a][1..] == [] && Run(s, [a]) == Run(Next(s, a), []);
  }

  lemma RunThree(s: State, a: Event, b: Event, c: Event)
    ensures Run(s, [a, b, c]) == Next(Next(Next(s, a), b), c)
  {
    RunSnoc(s, [a, b], c);
    RunTwo(s, a, b);
  }

  // The release, the count and the dead letter after a failure.
  lemma RetryExactly(s: State, h: nat, m: nat, calls: Script)
    requires AtStage(s, h, m, Failed) && !s.msgs[m].malformed
    ensures var k := s.msgs[m].key;
      var s' := Run(s, RetryEvents(h, calls, s.retries[k] + 1));
      && s'.effects == s.effects && s'.failures == s.failures && s'.deadRaw == s.deadRaw
      && s'.keys == (if calls.release then s.keys - {k} else s.keys)
      && s'.retries == (if calls.count then s.retries + multiset{k} else s.retries)
      && s'.dlq == (if calls.count && s.retries[k] >= 2 && calls.deadLetter then s.dlq + multiset{k} else s.dlq)
  {
    var release, count, dead := Move(h, Result(calls.release)), Move(h, Result(calls.count)), Move(h, Result(calls.deadLetter));
    var k := s.msgs[m].key;
    hide Run;
    RunTwo(s, release, count);
    RunSnoc(s, [release, count], dead);
    assert [release, count] + [] == [release, count];
    var s1 := Next(s, release);
    assert s1 == ReleaseStep(s, h, calls.release);
    var s2 := Next(s1, count);
    assert s2 == CountStep(s1, h, calls.count);
    if calls.count && s.retries[k] >= 2 {
      assert Next(s2, dead) == DeadLetterStep(s2, h, calls.deadLetter);
    }
  }

  // The attempt of a well-formed message: TryAcquire, and the handler's outcome.
  lemma AttemptExactly(s: State, h: nat, m: nat, calls: Script)
    requires AtStage(s, h, m, Start) && !s.msgs[m].malformed && !(calls.acquire && s.msgs[m].key in s.keys)
    ensures var k := s.msgs[m].key;
      var s' := Next(Next(s, Move(h, Result(calls.acquire))), Move(h, Result(calls.process)));
      && s'.retries == s.retries && s'.dlq == s.dlq && s'.deadRaw == s.deadRaw
      && s'.keys == (if calls.acquire then s.keys + {k} else s.keys)
      && s'.effects == (if calls.process then s.effects + multiset{k} else s.effects)
      && s'.failures == (if calls.process then s.failures else s.failures + multiset{k})
      && (!calls.process ==> AtStage(s', h, m, Failed) && s'.msgs == s.msgs)
  {
    var s1 := Next(s, Move(h, Result(calls.acquire)));
    assert s1 == StartStep(s, h, calls.acquire) && AtStage(s1, h, m, Processing);
    assert Next(s1, Move(h, Result(calls.process))) == ProcessStep(s1, h, calls.process);
  }

  lemma DeliverExactly(s: State, m: nat)
    requires m < |s.msgs|
    ensures Next(s, Deliver(m)) == s.(handlers := s.handlers + [Handler(m, false, Start)])
    ensures AtStage(Next(s, Deliver(m)), |s.handlers|, m, Start)
  {
  }

  lemma RejectExactly(s: State, h: nat, m: nat, calls: Script)
    requires AtStage(s, h, m, Start) && s.msgs[m].malformed
    ensures var s' := Next(Next(s, Move(h, Good)), Move(h, Result(calls.deadLetter)));
      && s'.deadRaw == (if calls.deadLetter then s.deadRaw + {m} else s.deadRaw)
      && s'.keys == s.keys && s'.retries == s.retries && s'.effects == s.effects
      && s'.failures == s.failures && s'.dlq == s.dlq
  {
    var s1 := Next(s, Move(h, Good));
    assert s1 == Go(s, h, DeadLettering);
    assert Next(s1, Move(h, Result(calls.deadLetter))) == DeadLetterStep(s1, h, calls.deadLetter);
  }

  lemma SkipExactly(s: State, h: nat, m: nat)
    requires AtStage(s, h, m, Start) && !s.msgs[m].malformed && s.msgs[m].key in s.keys
    ensures var s' := Next(s, Move(h, Good));
      && s'.deadRaw == s.deadRaw && s'.keys == s.keys && s'.retries == s.retries && s'.effects == s.effects
      && s'.failures == s.failures && s'.dlq == s.dlq
  {
    assert Next(s, Move(h, Good)) == StartStep(s, h, true);
  }

  lemma SucceedExactly(s: State, m: nat, calls: Script)
    requires m < |s.msgs| && !s.msgs[m].malformed && !(calls.acquire && s.msgs[m].key in s.keys) && calls.process
    ensures Handled(s, m, calls, Run(s, HandleEvents(s, m, calls)))
  {
    hide Run, Next;
    DeliverExactly(s, m);
    RunThree(s, Deliver(m), Move(|s.handlers|, Result(calls.acquire)), Move(|s.handlers|, Good));
    AttemptExactly(Next(s, Deliver(m)), |s.handlers|, m, calls);
  }

  lemma FailExactly(s: State, m: nat, calls: Script)
    requires m < |s.msgs| && !s.msgs[m].malformed && !(calls.acquire && s.msgs[m].key in s.keys) && !calls.process
    ensures Handled(s, m, calls, Run(s, HandleEvents(s, m, calls)))
  {
    hide Run, Next, RetryEvents;
    var h := |s.handlers|;
    var attempt := [Deliver(m), Move(h, Result(calls.acquire)), Move(h, Bad)];
    DeliverExactly(s, m);
    RunThree(s, Deliver(m), Move(h, Result(calls.acquire)), Move(h, Bad));
    AttemptExactly(Next(s, Deliver(m)), h, m, calls);
    RunConcat(s, attempt, RetryEvents(h, calls, s.retries[s.msgs[m].key] + 1));
    RetryExactly(Run(s, attempt), h, m, calls);
  }

  lemma HandledExactly(s: State, m: nat, calls: Script)
    requires m < |s.msgs|
    ensures Handled(s, m, calls, Run(s, HandleEvents(s, m, calls)))
  {
    hide Run, Next, RetryEvents;
    var h, k := |s.handlers|, s.msgs[m].key;
    if s.msgs[m].malformed {
      DeliverExactly(s, m);
      RunThree(s, Deliver(m), Move(h, Good), Move(h, Result(calls.deadLetter)));
      RejectExactly(Next(s, Deliver(m)), h, m, calls);
    } else if calls.acquire && k in s.keys {
      DeliverExactly(s, m);
      RunTwo(s, Deliver(m), Move(h, Good));
      SkipExactly(Next(s, Deliver(m)), h, m);
    } else if calls.process {
      SucceedExactly(s, m, calls);
    } else {
      FailExactly(s, m, calls);
    }
  }

  class BillingEventConsumer {
    var msgs: seq<Message>
    var keys: set<string>
    var retries: multiset<string>
    var dlq: multiset<string>
    var deadRaw: set<nat>
    ghost var handlers: seq<Handler>
    ghost var effects: multiset<string>
    ghost var failures: multiset<string>
    // Where the history begins.
    ghost var origin: State
    ghost var history: seq<Event>

    ghost function State(): State
      reads this
    {
      Consumer.State(msgs, handlers, keys, retries, effects, failures, dlq, deadRaw)
    }

    ghost predicate Logged()
      reads this
    {
      State() == Run(origin, history)
    }

    // The fields have just been changed as one step from s changes them.
    ghost method Log(s: State, e: Event)
      requires s == Run(origin, history)
      requires State() == Next(s, e).(handlers := handlers, effects := effects, failures := failures)
      modifies this`handlers, this`effects, this`failures, this`history
      ensures Logged() && State() == Next(s, e) && history == old(history) + [e]
    {
      RunSnoc(origin, history, e);
      handlers, effects, failures := Next(s, e).handlers, Next(s, e).effects, Next(s, e).failures;
      history := history + [e];
    }

    // A consumer of an empty stream, with an empty store: what is known of runs from Empty holds of it.
    constructor ()
      ensures Logged() && origin == Empty && history == [] && State() == Empty
    {
      msgs, keys, retries, dlq, deadRaw := [], {}, multiset{}, multiset{}, {};
      handlers, effects, failures := [], multiset{}, multiset{};
      origin, history := Empty, [];
    }

    // A message reaches the stream.
    method Arrive(key: string, malformed: bool) returns (m: nat)
      requires Logged()
      modifies this
      ensures origin == old(origin) && Logged()
      ensures history == old(history) + [Consumer.Arrive(key, malformed)]
      ensures m == |old(msgs)| && msgs == old(msgs) + [Message(key, malformed, false)]
    {
      hide Run;
      ghost var s := State();
      m := |msgs|;
      msgs := msgs + [Message(key, malformed, false)];
      Log(s, Consumer.Arrive(key, malformed));
    }

    // Handler h is at a stage of message m.
    ghost predicate At(h: nat, m: nat, stage: Stage)
      reads this
    {
      h < |handlers| && m < |msgs| && handlers[h].msg == m && handlers[h].stage == stage
    }

    ghost method Receive(m: nat) returns (h: nat)
      requires Logged() && m < |msgs|
      modifies this`handlers, this`effects, this`failures, this`history
      ensures Logged() && h == old(|handlers|) && At(h, m, Start)
      ensures history == old(history) + [Deliver(m)]
    {
      hide Run;
      h := |handlers|;
      Log(State(), Deliver(m));
    }

    // The way of a malformed message to the dead-letter queue.
    ghost method Reject(h: nat, m: nat)
      requires Logged() && At(h, m, Start) && msgs[m].malformed
      modifies this`handlers, this`effects, this`failures, this`history
      ensures Logged() && At(h, m, DeadLettering) && history == old(history) + [Move(h, Good)]
    {
      hide Run;
      Log(State(), Move(h, Good));
    }

    /** TryAcquire: skip and ack a duplicate; process anyway when the store fails. */
    method TryAcquire(ghost h: nat, m: nat, works: bool) returns (proceed: bool)
      requires Logged() && At(h, m, Start) && !msgs[m].malformed
      modifies this`msgs, this`keys, this`handlers, this`effects, this`failures, this`history
      ensures Logged() && history == old(history) + [Move(h, Result(works))]
      ensures proceed == !(works && old(msgs)[m].key in old(keys))
      ensures proceed ==> At(h, m, Processing) && msgs == old(msgs)
      ensures !proceed ==> msgs == old(msgs)[m := old(msgs)[m].(acked := true)]
    {
      hide Run;
      ghost var s := State();
      var key := msgs[m].key;
      proceed := true;
      if works {
        var isNew := key !in keys;
        keys := keys + {key};
        if !isNew {
          msgs := msgs[m := msgs[m].(acked := true)];
          proceed := false;
        }
      }
      Log(s, Move(h, Result(works)));
    }

    method Process(ghost h: nat, m: nat, works: bool)
      requires Logged() && At(h, m, Processing)
      modifies this`msgs, this`handlers, this`effects, this`failures, this`history
      ensures Logged() && history == old(history) + [Move(h, Result(works))]
      ensures works ==> msgs == old(msgs)[m := old(msgs)[m].(acked := true)]
      ensures !works ==> msgs == old(msgs) && At(h, m, Failed)
    {
      hide Run;
      ghost var s := State();
      if works {
        msgs := msgs[m := msgs[m].(acked := true)];
      }
      Log(s, Move(h, Result(works)));
    }

    method Release(ghost h: nat, m: nat, works: bool)
      requires Logged() && At(h, m, Failed)
      modifies this`keys, this`handlers, this`effects, this`failures, this`history
      ensures Logged() && history == old(history) + [Move(h, Result(works))] && At(h, m, Counting)
    {
      hide Run;
      ghost var s := State();
      if works {
        keys := keys - {msgs[m].key};
      }
      Log(s, Move(h, Result(works)));
    }

    method IncrementRetry(ghost h: nat, m: nat, works: bool) returns (count: nat)
      requires Logged() && At(h, m, Counting)
      modifies this`retries, this`handlers, this`effects, this`failures, this`history
      ensures Logged() && history == old(history) + [Move(h, Result(works))]
      ensures works ==> count == old(retries)[msgs[m].key] + 1
      ensures works && count >= MAX_MESSAGE_RETRIES ==> At(h, m, DeadLettering)
    {
      hide Run;
      ghost var s := State();
      count := 0;
      if works {
        retries := retries + multiset{msgs[m].key};
        count := retries[msgs[m].key];
      }
      Log(s, Move(h, Result(works)));
    }

    // sendToDLQ, then Ack.
    method DeadLetter(ghost h: nat, m: nat, works: bool)
      requires Logged() && At(h, m, DeadLettering)
      modifies this`msgs, this`dlq, this`deadRaw, this`handlers, this`effects, this`failures, this`history
      ensures Logged() && history == old(history) + [Move(h, Result(works))]
      ensures msgs == old(msgs)[m := old(msgs)[m].(acked := true)]
    {
      hide Run;
      ghost var s := State();
      if works {
        if msgs[m].malformed {
          deadRaw := deadRaw + {m};
        } else {
          dlq := dlq + multiset{msgs[m].key};
        }
      }
      msgs := msgs[m := msgs[m].(acked := true)];
      Log(s, Move(h, Result(works)));
    }

    // From the failed processEvent to the Nack or the dead-letter queue.
    method Retry(ghost h: nat, m: nat, calls: Script) returns (verdict: Answer)
      requires Logged() && At(h, m, Failed)
      modifies this`msgs, this`keys, this`retries, this`dlq, this`deadRaw
      modifies this`handlers, this`effects, this`failures, this`history
      ensures Logged()
      ensures history == old(history) + RetryEvents(h, calls, old(retries)[old(msgs)[m].key] + 1)
      ensures verdict == RetryVerdict(calls, old(retries)[old(msgs)[m].key] + 1)
      ensures msgs == if verdict.Acked? then old(msgs)[m := old(msgs)[m].(acked := true)] else old(msgs)
    {
      hide Run, RetryBackoffDelay, Next, Logged;
      Release(h, m, calls.release);
      var count := IncrementRetry(h, m, calls.count);
      if !calls.count {
        return Nacked(0);
      }
      if count < MAX_MESSAGE_RETRIES {
        return Nacked(RetryBackoffDelay(count));
      }
      DeadLetter(h, m, calls.deadLetter);
      return Acked;
    }

    // The calls made for a message, and the answer.
    method TakeSteps(m: nat, calls: Script) returns (verdict: Answer)
      requires Logged() && m < |msgs|
      modifies this
      ensures origin == old(origin) && Logged()
      ensures history == old(history) + HandleEvents(old(State()), m, calls)
      ensures msgs == if verdict.Acked? then old(msgs)[m := old(msgs)[m].(acked := true)] else old(msgs)
      ensures verdict == Verdict(old(State()), m, calls)
    {
      hide Run, RetryEvents, Next, Logged;
      ghost var h := Receive(m);
      if msgs[m].malformed {
        Reject(h, m);
        DeadLetter(h, m, calls.deadLetter);
        return Acked;
      }
      var proceed := TryAcquire(h, m, calls.acquire);
      if !proceed {
        return Acked;
      }
      Process(h, m, calls.process);
      if calls.process {
        return Acked;
      }
      verdict := Retry(h, m, calls);
    }

    /**
     handleMessage for a message delivered now. It acks the message unless
     processEvent fails with retries left, or the failure cannot be counted.
     */
    method HandleMessage(m: nat, calls: Script) returns (verdict: Answer)
      requires Logged() && m < |msgs|
      modifies this
      ensures origin == old(origin) && Logged()
      ensures history == old(history) + HandleEvents(old(State()), m, calls)
      ensures msgs == if verdict.Acked? then old(msgs)[m := old(msgs)[m].(acked := true)] else old(msgs)
      ensures verdict == Verdict(old(State()), m, calls)
      ensures Handled(old(State()), m, calls, State())
      // Acked at once, or a failed attempt: the first is nacked after two seconds,
      // the second after five, the third is dead-lettered; one that is not counted is nacked at once.
      ensures var message := old(msgs)[m];
        var failures := old(retries)[message.key];
        if message.malformed || (calls.acquire && message.key in old(keys)) || calls.process then verdict == Acked
        else if !calls.count then verdict == Nacked(0)
        else if failures == 0 then verdict == Nacked(2_000)
        else if failures == 1 then verdict == Nacked(5_000)
        else verdict == Acked
    {
      ghost var s, before := State(), history;
      hide Run, Next, HandleEvents, Handled;
      verdict := TakeSteps(m, calls);
      RunConcat(origin, before, HandleEvents(s, m, calls));
      HandledExactly(s, m, calls);
    }
  }
}
