/**
 handleMessage of internal/adapter/nats/billing_event_handlers.go as a state
 machine: any number of handlers, of any messages, interleave freely between
 the calls they make to the idempotency store, the event handler and the
 dead-letter queue.
 */
module Consumer {
  const MAX_MESSAGE_RETRIES: nat := 3

  datatype Message = Message(key: string, malformed: bool, acked: bool)

  datatype Stage =
    | Start                  // delivered, before TryAcquire
    | Processing             // in processEvent
    | Failed                 // processEvent failed, before Release
    | Counting               // before IncrementRetry
    | DeadLettering          // before sendToDLQ
    | Finished               // acked, nacked or crashed

  // `owns`: this handler's TryAcquire inserted the key.
  datatype Handler = Handler(msg: nat, owns: bool, stage: Stage)

  /**
   keys and retries are the idempotency table; effects, failures and dlq are the
   history of successful and failed calls of processEvent and of dead-lettered
   keys, with multiplicity. deadRaw holds the malformed messages dead-lettered.
   */
  datatype State = State(
    msgs: seq<Message>,
    handlers: seq<Handler>,
    keys: set<string>,
    retries: multiset<string>,
    effects: multiset<string>,
    failures: multiset<string>,
    dlq: multiset<string>,
    deadRaw: set<nat>)

  // The next call succeeds or fails; or the process dies before or just after it.
  datatype Outcome = Good | Bad | Crash | LateCrash

  datatype Event =
    | Arrive(key: string, malformed: bool)     // published, re-published or replayed
    | Deliver(msg: nat)
    | Move(h: nat, outcome: Outcome)
    | Purge(key: string)                       // retention removes an idempotency key

  const Empty := State([], [], {}, multiset{}, multiset{}, multiset{}, multiset{}, {})

  predicate Active(h: Handler) {
    !h.stage.Finished?
  }

  function Go(s: State, h: nat, stage: Stage): State
    requires h < |s.handlers|
  {
    s.(handlers := s.handlers[h := s.handlers[h].(stage := stage)])
  }

  function Ack(s: State, h: nat): State
    requires h < |s.handlers| && s.handlers[h].msg < |s.msgs|
  {
    var m := s.handlers[h].msg;
    Go(s, h, Finished).(msgs := s.msgs[m := s.msgs[m].(acked := true)])
  }

  function KeyOf(s: State, h: nat): string
    requires h < |s.handlers| && s.handlers[h].msg < |s.msgs|
  {
    s.msgs[s.handlers[h].msg].key
  }

  // TryAcquire, or the straight way of a malformed message to the dead-letter queue.
  function StartStep(s: State, h: nat, good: bool): State
    requires h < |s.handlers| && s.handlers[h].msg < |s.msgs|
  {
    var k := KeyOf(s, h);
    if s.msgs[s.handlers[h].msg].malformed then Go(s, h, DeadLettering)
    else if !good then Go(s, h, Processing)                   // fail open
    else if k in s.keys then Ack(s, h)                        // duplicate
    else s.(keys := s.keys + {k}, handlers := s.handlers[h := s.handlers[h].(owns := true, stage := Processing)])
  }

  function ProcessStep(s: State, h: nat, good: bool): State
    requires h < |s.handlers| && s.handlers[h].msg < |s.msgs|
  {
    var k := KeyOf(s, h);
    if good then Ack(s, h).(effects := s.effects + multiset{k})
    else Go(s, h, Failed).(failures := s.failures + multiset{k})
  }

  function ReleaseStep(s: State, h: nat, good: bool): State
    requires h < |s.handlers| && s.handlers[h].msg < |s.msgs|
  {
    Go(s, h, Counting).(keys := if good then s.keys - {KeyOf(s, h)} else s.keys)
  }

  // IncrementRetry, then Nack or on to the dead-letter queue.
  function CountStep(s: State, h: nat, good: bool): State
    requires h < |s.handlers| && s.handlers[h].msg < |s.msgs|
  {
    var k := KeyOf(s, h);
    if !good then Go(s, h, Finished)
    else
      var s1 := s.(retries := s.retries + multiset{k});
      Go(s1, h, if s1.retries[k] < MAX_MESSAGE_RETRIES then Finished else DeadLettering)
  }

  // sendToDLQ; the message is acked whether or not the publish works.
  function DeadLetterStep(s: State, h: nat, good: bool): State
    requires h < |s.handlers| && s.handlers[h].msg < |s.msgs|
  {
    var m := s.handlers[h].msg;
    if !good then Ack(s, h)
    else if s.msgs[m].malformed then Ack(s, h).(deadRaw := s.deadRaw + {m})
    else Ack(s, h).(dlq := s.dlq + multiset{s.msgs[m].key})
  }

  function CallStep(s: State, h: nat, good: bool): State
    requires h < |s.handlers| && s.handlers[h].msg < |s.msgs|
  {
    match s.handlers[h].stage
    case Start => StartStep(s, h, good)
    case Processing => ProcessStep(s, h, good)
    case Failed => ReleaseStep(s, h, good)
    case Counting => CountStep(s, h, good)
    case DeadLettering => DeadLetterStep(s, h, good)
    case Finished => s
  }

  // A crash keeps what the store and the handler have done, but acks nothing.
  function MoveStep(s: State, h: nat, outcome: Outcome): State
    requires h < |s.handlers| && s.handlers[h].msg < |s.msgs|
  {
    match outcome
    case Good => CallStep(s, h, true)
    case Bad => CallStep(s, h, false)
    case Crash => Go(s, h, Finished)
    case LateCrash => Go(CallStep(s, h, true), h, Finished).(msgs := s.msgs)
  }

  function Next(s: State, e: Event): State {
    match e
    case Arrive(key, malformed) => s.(msgs := s.msgs + [Message(key, malformed, false)])
    case Deliver(m) => if m < |s.msgs| then s.(handlers := s.handlers + [Handler(m, false, Start)]) else s
    case Move(h, outcome) => if h < |s.handlers| && s.handlers[h].msg < |s.msgs| then MoveStep(s, h, outcome) else s
    case Purge(key) => s.(keys := s.keys - {key})
  }

  function Run(s: State, events: seq<Event>): State
    decreases |events|
  {
    if events == [] then s else Run(Next(s, events[0]), events[1..])
  }

  lemma {:induction false} RunSnoc(s: State, events: seq<Event>, e: Event)
    ensures Run(s, events + [e]) == Next(Run(s, events), e)
    decreases |events|
  {
    if events == [] {
      assert ([] + [e])[1..] == [];
    } else {
      assert (events + [e])[0] == events[0] && (events + [e])[1..] == events[1..] + [e];
      RunSnoc(Next(s, events[0]), events[1..], e);
    }
  }

  ghost predicate MsgsExist(s: State) {
    forall h :: 0 <= h < |s.handlers| ==> s.handlers[h].msg < |s.msgs|
  }

  // ---- At most one effect ----

  // Everything may fail, crash or be redelivered, except that TryAcquire always
  // answers and no key is purged.
  predicate StoreAnswers(s: State, e: Event) {
    && !e.Purge?
    && (e.Move? && e.h < |s.handlers| && s.handlers[e.h].stage.Start? ==> !e.outcome.Bad?)
  }

  predicate StoreAnswersRun(s: State, events: seq<Event>)
    decreases |events|
  {
    events == [] || (StoreAnswers(s, events[0]) && StoreAnswersRun(Next(s, events[0]), events[1..]))
  }

  // A handler between TryAcquire and Release.
  predicate Owner(h: Handler) {
    h.stage.Processing? || h.stage.Failed?
  }

  ghost predicate OnceInv(s: State) {
    && MsgsExist(s)
    && (forall h :: 0 <= h < |s.handlers| && Owner(s.handlers[h]) ==>
          KeyOf(s, h) in s.keys && s.effects[KeyOf(s, h)] == 0)
    && (forall g, h :: 0 <= g < h < |s.handlers| && Owner(s.handlers[g]) && Owner(s.handlers[h]) ==>
          KeyOf(s, g) != KeyOf(s, h))
    && (forall k :: s.effects[k] > 0 ==> k in s.keys)
    && (forall k :: s.effects[k] <= 1)
  }

  lemma StartKeepsOnce(s: State, h: nat, good: bool)
    requires OnceInv(s) && h < |s.handlers| && s.handlers[h].stage.Start? && good
    ensures OnceInv(StartStep(s, h, good))
  {
  }

  lemma ProcessKeepsOnce(s: State, h: nat, good: bool)
    requires OnceInv(s) && h < |s.handlers| && s.handlers[h].stage.Processing?
    ensures OnceInv(ProcessStep(s, h, good))
  {
  }

  lemma ReleaseKeepsOnce(s: State, h: nat, good: bool)
    requires OnceInv(s) && h < |s.handlers| && s.handlers[h].stage.Failed?
    ensures OnceInv(ReleaseStep(s, h, good))
  {
  }

  lemma CountKeepsOnce(s: State, h: nat, good: bool)
    requires OnceInv(s) && h < |s.handlers| && s.handlers[h].stage.Counting?
    ensures OnceInv(CountStep(s, h, good))
  {
  }

  lemma DeadLetterKeepsOnce(s: State, h: nat, good: bool)
    requires OnceInv(s) && h < |s.handlers| && s.handlers[h].stage.DeadLettering?
    ensures OnceInv(DeadLetterStep(s, h, good))
  {
    var s' := DeadLetterStep(s, h, good);
    assert s'.handlers == s.handlers[h := s'.handlers[h]];
    hide DeadLetterStep;
    OnceFrame(s, s', h);
  }

  // A handler that owns nothing goes on without touching keys or effects.
  lemma OnceFrame(s: State, s': State, h: nat)
    requires OnceInv(s) && h < |s.handlers| == |s'.handlers| && s'.handlers == s.handlers[h := s'.handlers[h]]
    requires !Owner(s'.handlers[h]) && s'.handlers[h].msg == s.handlers[h].msg
    requires s'.keys == s.keys && s'.effects == s.effects
    requires |s'.msgs| == |s.msgs| && forall m :: 0 <= m < |s.msgs| ==> s'.msgs[m].key == s.msgs[m].key
    ensures OnceInv(s')
  {
  }

  lemma CallKeepsOnce(s: State, h: nat, good: bool)
    requires OnceInv(s) && h < |s.handlers| && (s.handlers[h].stage.Start? ==> good)
    ensures OnceInv(CallStep(s, h, good))
  {
    match s.handlers[h].stage {
      case Start => StartKeepsOnce(s, h, good);
      case Processing => ProcessKeepsOnce(s, h, good);
      case Failed => ReleaseKeepsOnce(s, h, good);
      case Counting => CountKeepsOnce(s, h, good);
      case DeadLettering => DeadLetterKeepsOnce(s, h, good);
      case Finished =>
    }
  }

  lemma EndKeepsOnce(s: State, h: nat, msgs: seq<Message>)
    requires OnceInv(s) && h < |s.handlers| && |msgs| == |s.msgs|
    requires forall m :: 0 <= m < |msgs| ==> msgs[m].key == s.msgs[m].key
    ensures OnceInv(Go(s, h, Finished).(msgs := msgs))
  {
  }

  lemma CallKeepsKeys(s: State, h: nat, good: bool)
    requires MsgsExist(s) && h < |s.handlers|
    ensures |CallStep(s, h, good).msgs| == |s.msgs| && |CallStep(s, h, good).handlers| == |s.handlers|
    ensures forall m :: 0 <= m < |s.msgs| ==> CallStep(s, h, good).msgs[m].key == s.msgs[m].key
  {
  }

  lemma NextKeepsOnce(s: State, e: Event)
    requires OnceInv(s) && StoreAnswers(s, e)
    ensures OnceInv(Next(s, e))
  {
    match e
    case Arrive(_, _) =>
    case Deliver(_) =>
    case Move(h, outcome) =>
      if h < |s.handlers| {
        match outcome {
          case Good => CallKeepsOnce(s, h, true);
          case Bad => CallKeepsOnce(s, h, false);
          case Crash => EndKeepsOnce(s, h, s.msgs);
          case LateCrash =>
            CallKeepsOnce(s, h, true);
            CallKeepsKeys(s, h, true);
            EndKeepsOnce(CallStep(s, h, true), h, s.msgs);
        }
      }
    case Purge(_) =>
  }

  /**
   processEvent succeeds at most once for a key, over every run in which
   TryAcquire always answers and no key is purged: with any number of copies of
   the event, redeliveries (even of messages in progress or acked), failures of
   Release, IncrementRetry and the dead-letter queue, and crashes at any point.
   */
  lemma {:induction false} AtMostOnce(s: State, events: seq<Event>)
    requires OnceInv(s) && StoreAnswersRun(s, events)
    ensures OnceInv(Run(s, events)) && forall k :: Run(s, events).effects[k] <= 1
    decreases |events|
  {
    if events != [] {
      NextKeepsOnce(s, events[0]);
      AtMostOnce(Next(s, events[0]), events[1..]);
    }
  }

  // ---- The fate of every event ----

  // Only waiting messages are delivered; no crash, no failure of Release or of
  // the dead-letter publish, no purge. TryAcquire and IncrementRetry may fail.
  predicate Gentle(s: State, e: Event) {
    match e
    case Arrive(_, _) => true
    case Deliver(m) => m < |s.msgs| ==> !s.msgs[m].acked && !InProgress(s, m)
    case Move(h, outcome) =>
      && (outcome.Good? || outcome.Bad?)
      && (h < |s.handlers| && (s.handlers[h].stage.Failed? || s.handlers[h].stage.DeadLettering?) ==> outcome.Good?)
    case Purge(_) => false
  }

  predicate InProgress(s: State, m: nat) {
    exists h :: 0 <= h < |s.handlers| && s.handlers[h].msg == m && Active(s.handlers[h])
  }

  predicate GentleRun(s: State, events: seq<Event>)
    decreases |events|
  {
    events == [] || (Gentle(s, events[0]) && GentleRun(Next(s, events[0]), events[1..]))
  }

  ghost predicate Unacked(s: State, k: string) {
    exists m :: 0 <= m < |s.msgs| && s.msgs[m].key == k && !s.msgs[m].malformed && !s.msgs[m].acked
  }

  ghost predicate Accounted(s: State, k: string) {
    s.effects[k] > 0 || s.dlq[k] > 0 || Unacked(s, k)
  }

  ghost predicate KeyHeld(s: State, k: string) {
    exists h :: 0 <= h < |s.handlers| && Owner(s.handlers[h]) && s.handlers[h].msg < |s.msgs| && KeyOf(s, h) == k
  }

  ghost predicate FateInv(s: State) {
    && MsgsExist(s)
    && (forall h :: 0 <= h < |s.handlers| && Active(s.handlers[h]) ==> !s.msgs[s.handlers[h].msg].acked)
    && (forall g, h :: 0 <= g < h < |s.handlers| && Active(s.handlers[g]) && Active(s.handlers[h]) ==>
          s.handlers[g].msg != s.handlers[h].msg)
    && (forall h :: 0 <= h < |s.handlers| && Active(s.handlers[h]) && s.msgs[s.handlers[h].msg].malformed ==>
          s.handlers[h].stage.Start? || s.handlers[h].stage.DeadLettering?)
    && (forall k :: k in s.keys ==> s.effects[k] > 0 || KeyHeld(s, k))
    && (forall m :: 0 <= m < |s.msgs| ==>
          if s.msgs[m].malformed then s.msgs[m].acked ==> m in s.deadRaw else Accounted(s, s.msgs[m].key))
  }

  // A step of handler h that acks nothing and frees no key still in the table.
  lemma StageChange(s: State, s': State, h: nat)
    requires FateInv(s) && h < |s.handlers| == |s'.handlers| && Active(s.handlers[h])
    requires s'.handlers == s.handlers[h := s'.handlers[h]] && s'.handlers[h].msg == s.handlers[h].msg
    requires s'.msgs == s.msgs && s'.effects == s.effects && s'.dlq == s.dlq && s'.deadRaw == s.deadRaw
    requires s.msgs[s.handlers[h].msg].malformed ==> s'.handlers[h].stage in {DeadLettering, Finished}
    requires forall k :: k in s'.keys ==> k in s.keys || k == KeyOf(s, h)
    requires KeyOf(s, h) in s'.keys && s.effects[KeyOf(s, h)] == 0 ==>
               Owner(s'.handlers[h]) || (KeyOf(s, h) in s.keys && !Owner(s.handlers[h]))
    ensures FateInv(s')
  {
    forall k | k in s'.keys
      ensures s'.effects[k] > 0 || KeyHeld(s', k)
    {
      if s.effects[k] == 0 {
        if Owner(s'.handlers[h]) && k == KeyOf(s, h) {
          assert KeyOf(s', h) == k;
        } else {
          var g :| 0 <= g < |s.handlers| && Owner(s.handlers[g]) && KeyOf(s, g) == k;
          assert g != h && s'.handlers[g] == s.handlers[g] && KeyOf(s', g) == k;
        }
      }
    }
    forall m | 0 <= m < |s.msgs| && !s.msgs[m].malformed
      ensures Accounted(s', s.msgs[m].key)
    {
      assert Accounted(s, s.msgs[m].key);
      assert Unacked(s, s.msgs[m].key) ==> Unacked(s', s.msgs[m].key);
    }
  }

  // Handler h acks its message, and its key is accounted for without it.
  lemma AckChange(s: State, s': State, h: nat)
    requires FateInv(s) && h < |s.handlers| && Active(s.handlers[h])
    requires s' == Ack(s, h).(effects := s'.effects, dlq := s'.dlq, deadRaw := s'.deadRaw)
    requires forall k :: s'.effects[k] >= s.effects[k] && s'.dlq[k] >= s.dlq[k]
    requires s.deadRaw <= s'.deadRaw
    requires s.msgs[s.handlers[h].msg].malformed ==> s.handlers[h].msg in s'.deadRaw
    requires !s.msgs[s.handlers[h].msg].malformed ==> Accounted(s', KeyOf(s, h))
    requires Owner(s.handlers[h]) ==> s'.effects[KeyOf(s, h)] > 0
    ensures FateInv(s')
  {
    var mine := s.handlers[h].msg;
    forall k | k in s'.keys
      ensures s'.effects[k] > 0 || KeyHeld(s', k)
    {
      if s'.effects[k] == 0 {
        var g :| 0 <= g < |s.handlers| && Owner(s.handlers[g]) && KeyOf(s, g) == k;
        assert g != h && s'.handlers[g] == s.handlers[g] && KeyOf(s', g) == k;
      }
    }
    forall m | 0 <= m < |s.msgs| && !s.msgs[m].malformed
      ensures Accounted(s', s.msgs[m].key)
    {
      var k := s.msgs[m].key;
      assert Accounted(s, k);
      if Unacked(s, k) && !(s'.effects[k] > 0 || s'.dlq[k] > 0) {
        var w :| 0 <= w < |s.msgs| && s.msgs[w].key == k && !s.msgs[w].malformed && !s.msgs[w].acked;
        assert w != mine ==> s'.msgs[w] == s.msgs[w];
      }
    }
  }

  lemma StartKeepsFate(s: State, h: nat, good: bool)
    requires FateInv(s) && h < |s.handlers| && s.handlers[h].stage.Start?
    ensures FateInv(StartStep(s, h, good))
  {
    var s' := StartStep(s, h, good);
    var m := s.handlers[h].msg;
    if s.msgs[m].malformed || !good || s.msgs[m].key !in s.keys {
      StageChange(s, s', h);
    } else {
      var k := s.msgs[m].key;
      if s.effects[k] == 0 {
        // Another handler has the key; its message is not acked.
        var g :| 0 <= g < |s.handlers| && Owner(s.handlers[g]) && KeyOf(s, g) == k;
        assert s'.msgs[s.handlers[g].msg] == s.msgs[s.handlers[g].msg];
        assert Unacked(s', k);
      }
      AckChange(s, s', h);
    }
  }

  lemma CallKeepsFate(s: State, h: nat, good: bool)
    requires FateInv(s) && h < |s.handlers|
    requires s.handlers[h].stage.Failed? || s.handlers[h].stage.DeadLettering? ==> good
    ensures FateInv(CallStep(s, h, good))
  {
    hide FateInv;
    assert MsgsExist(s) by { FateMsgs(s); }
    match s.handlers[h].stage {
      case Start => StartKeepsFate(s, h, good);
      case Processing => ProcessKeepsFate(s, h, good);
      case Failed => ReleaseKeepsFate(s, h);
      case Counting => CountKeepsFate(s, h, good);
      case DeadLettering => AckChange(s, CallStep(s, h, good), h);
      case Finished =>
    }
  }

  lemma FateMsgs(s: State)
    requires FateInv(s)
    ensures MsgsExist(s)
  {
  }

  lemma ProcessKeepsFate(s: State, h: nat, good: bool)
    requires FateInv(s) && h < |s.handlers| && s.handlers[h].stage.Processing?
    ensures FateInv(ProcessStep(s, h, good))
  {
    if good {
      AckChange(s, ProcessStep(s, h, good), h);
    } else {
      StageChange(s, ProcessStep(s, h, good), h);
    }
  }

  lemma ReleaseKeepsFate(s: State, h: nat)
    requires FateInv(s) && h < |s.handlers| && s.handlers[h].stage.Failed?
    ensures FateInv(ReleaseStep(s, h, true))
  {
    StageChange(s, ReleaseStep(s, h, true), h);
  }

  lemma CountKeepsFate(s: State, h: nat, good: bool)
    requires FateInv(s) && h < |s.handlers| && s.handlers[h].stage.Counting?
    ensures FateInv(CountStep(s, h, good))
  {
    StageChange(s, CountStep(s, h, good), h);
  }

  lemma ArriveKeepsFate(s: State, key: string, malformed: bool)
    requires FateInv(s)
    ensures FateInv(Next(s, Arrive(key, malformed)))
  {
    var s' := Next(s, Arrive(key, malformed));
    assert !malformed ==> s'.msgs[|s.msgs|].key == key && Unacked(s', key);
    forall k | KeyHeld(s, k)
      ensures KeyHeld(s', k)
    {
      var g :| 0 <= g < |s.handlers| && Owner(s.handlers[g]) && KeyOf(s, g) == k;
      assert KeyOf(s', g) == k;
    }
    forall m | 0 <= m < |s.msgs| && !s.msgs[m].malformed
      ensures Accounted(s', s.msgs[m].key)
    {
      var k := s.msgs[m].key;
      assert Accounted(s, k);
      if Unacked(s, k) {
        var w :| 0 <= w < |s.msgs| && s.msgs[w].key == k && !s.msgs[w].malformed && !s.msgs[w].acked;
        assert s'.msgs[w] == s.msgs[w];
      }
    }
  }

  lemma DeliverKeepsFate(s: State, m: nat)
    requires FateInv(s) && Gentle(s, Deliver(m))
    ensures FateInv(Next(s, Deliver(m)))
  {
    var s' := Next(s, Deliver(m));
    if m < |s.msgs| {
      forall k | KeyHeld(s, k)
        ensures KeyHeld(s', k)
      {
        var g :| 0 <= g < |s.handlers| && Owner(s.handlers[g]) && KeyOf(s, g) == k;
        assert s'.handlers[g] == s.handlers[g] && KeyOf(s', g) == k;
      }
      forall i | 0 <= i < |s.msgs| && !s.msgs[i].malformed
        ensures Accounted(s', s.msgs[i].key)
      {
        assert Accounted(s, s.msgs[i].key);
        assert Unacked(s, s.msgs[i].key) ==> Unacked(s', s.msgs[i].key);
      }
      assert forall g :: 0 <= g < |s.handlers| && Active(s.handlers[g]) ==> s.handlers[g].msg != m;
    }
  }

  lemma NextKeepsFate(s: State, e: Event)
    requires FateInv(s) && Gentle(s, e)
    ensures FateInv(Next(s, e))
  {
    hide FateInv;
    FateMsgs(s);
    match e
    case Arrive(key, malformed) => ArriveKeepsFate(s, key, malformed);
    case Deliver(m) => DeliverKeepsFate(s, m);
    case Move(h, outcome) =>
      if h < |s.handlers| {
        CallKeepsFate(s, h, outcome.Good?);
      }
  }

  /**
   No event is dropped: over every run in which waiting messages only are
   delivered, nothing crashes, and Release and the dead-letter publish work,
   each key that ever arrived has succeeded, has been dead-lettered, or still
   has an unacked message; and a malformed message is acked only once
   dead-lettered. TryAcquire, processEvent and IncrementRetry may fail freely.
   */
  lemma {:induction false} NothingDropped(s: State, events: seq<Event>)
    requires FateInv(s) && GentleRun(s, events)
    ensures FateInv(Run(s, events))
    ensures var s' := Run(s, events);
      forall m :: 0 <= m < |s'.msgs| ==>
        if s'.msgs[m].malformed then s'.msgs[m].acked ==> m in s'.deadRaw
        else s'.effects[s'.msgs[m].key] > 0 || s'.dlq[s'.msgs[m].key] > 0 || Unacked(s', s'.msgs[m].key)
    decreases |events|
  {
    if events != [] {
      NextKeepsFate(s, events[0]);
      NothingDropped(Next(s, events[0]), events[1..]);
    }
  }
}
