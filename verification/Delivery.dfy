/**
 From the outbox to the event handler: the relay workers and the consumer run
 side by side, and every message the stream stores reaches the consumer. The
 event ID is the outbox row ID, the broker's message ID and the idempotency key.
 */
module Delivery {
  import Decimal
  import Outbox
  import Consumer

  // The ID of the event at a position of the outbox; any naming without clashes will do.
  function EventId(id: nat): string {
    Decimal.Digits(id)
  }

  lemma EventIdInjective(a: nat, b: nat)
    requires EventId(a) == EventId(b)
    ensures a == b
  {
    Decimal.ValueOfDigits(a);
    Decimal.ValueOfDigits(b);
  }

  datatype State = State(outbox: Outbox.State, consumer: Consumer.State)

  datatype Event =
    | Relay(r: Outbox.Event)
    | Consume(c: Consumer.Event)
    | Replay(key: string, stored: bool)   // a dead-lettered event is published again; a duplicate is not stored

  function Arrived(c: Consumer.State, before: seq<nat>, after: seq<nat>): Consumer.State {
    if |after| > |before| then Consumer.Next(c, Consumer.Arrive(EventId(after[|after| - 1]), false)) else c
  }

  function Next(s: State, e: Event): State {
    match e
    case Relay(r) =>
      var outbox := Outbox.Next(s.outbox, r);
      State(outbox, Arrived(s.consumer, s.outbox.stream, outbox.stream))
    case Consume(c) => if c.Arrive? then s else s.(consumer := Consumer.Next(s.consumer, c))
    case Replay(key, stored) =>
      if s.consumer.dlq[key] > 0 && stored then s.(consumer := Consumer.Next(s.consumer, Consumer.Arrive(key, false))) else s
  }

  function Run(s: State, events: seq<Event>): State
    decreases |events|
  {
    if events == [] then s else Run(Next(s, events[0]), events[1..])
  }

  const Empty := State(Outbox.Empty, Consumer.Empty)

  // TryAcquire answers and no key is purged.
  predicate Answered(s: State, e: Event) {
    e.Consume? ==> Consumer.StoreAnswers(s.consumer, e.c)
  }

  predicate AnsweredRun(s: State, events: seq<Event>)
    decreases |events|
  {
    events == [] || (Answered(s, events[0]) && AnsweredRun(Next(s, events[0]), events[1..]))
  }

  // The consumer's side keeps to what AtMostOnce and NothingDropped assume; the
  // relay, the broker and the database may do anything the Outbox allows.
  predicate Steady(s: State, e: Event) {
    e.Consume? ==> Consumer.StoreAnswers(s.consumer, e.c) && Consumer.Gentle(s.consumer, e.c)
  }

  predicate SteadyRun(s: State, events: seq<Event>)
    decreases |events|
  {
    events == [] || (Steady(s, events[0]) && SteadyRun(Next(s, events[0]), events[1..]))
  }

  ghost predicate HasMessage(c: Consumer.State, key: string) {
    exists m :: 0 <= m < |c.msgs| && c.msgs[m].key == key && !c.msgs[m].malformed
  }

  ghost predicate InStream(o: Outbox.State, key: string) {
    exists id :: id in o.stream && EventId(id) == key
  }

  ghost predicate Linked(s: State) {
    && (forall id :: id in s.outbox.stream ==> HasMessage(s.consumer, EventId(id)))
    && (forall m :: 0 <= m < |s.consumer.msgs| ==> InStream(s.outbox, s.consumer.msgs[m].key))
    && (forall k :: s.consumer.effects[k] > 0 || s.consumer.dlq[k] > 0 ==> InStream(s.outbox, k))
  }

  ghost predicate OnceInv(s: State) {
    Outbox.Inv(s.outbox) && Consumer.OnceInv(s.consumer) && Linked(s)
  }

  lemma StreamGrowsByOne(o: Outbox.State, r: Outbox.Event)
    ensures var after := Outbox.Next(o, r).stream;
      after == o.stream || (|after| == |o.stream| + 1 && after[..|o.stream|] == o.stream)
  {
  }

  lemma ArriveKeepsLinked(s: State, outbox: Outbox.State, key: string)
    requires Linked(s) && InStream(outbox, key)
    requires forall id :: id in s.outbox.stream ==> id in outbox.stream
    requires forall id :: id in outbox.stream ==> id in s.outbox.stream || EventId(id) == key
    ensures Linked(State(outbox, Consumer.Next(s.consumer, Consumer.Arrive(key, false))))
  {
    var c := Consumer.Next(s.consumer, Consumer.Arrive(key, false));
    assert c.msgs[|s.consumer.msgs|].key == key;
    forall id | id in outbox.stream
      ensures HasMessage(c, EventId(id))
    {
      if id in s.outbox.stream {
        var m :| 0 <= m < |s.consumer.msgs| && s.consumer.msgs[m].key == EventId(id) && !s.consumer.msgs[m].malformed;
        assert c.msgs[m] == s.consumer.msgs[m];
      }
    }
    forall k | InStream(s.outbox, k)
      ensures InStream(outbox, k)
    {
      var id :| id in s.outbox.stream && EventId(id) == k;
      assert id in outbox.stream;
    }
  }

  lemma ConsumeKeepsLinked(s: State, c: Consumer.Event)
    requires Linked(s) && Consumer.MsgsExist(s.consumer) && !c.Arrive?
    ensures Linked(s.(consumer := Consumer.Next(s.consumer, c)))
  {
    var c' := Consumer.Next(s.consumer, c);
    MessagesStay(s.consumer, c);
    forall id | id in s.outbox.stream
      ensures HasMessage(c', EventId(id))
    {
      var m :| 0 <= m < |s.consumer.msgs| && s.consumer.msgs[m].key == EventId(id) && !s.consumer.msgs[m].malformed;
      assert c'.msgs[m].key == EventId(id) && !c'.msgs[m].malformed;
    }
  }

  // c' has the messages of c, and records only keys of messages.
  ghost predicate Stays(c: Consumer.State, c': Consumer.State) {
    && |c'.msgs| == |c.msgs|
    && (forall m :: 0 <= m < |c.msgs| ==> c'.msgs[m].key == c.msgs[m].key && c'.msgs[m].malformed == c.msgs[m].malformed)
    && (forall k :: c'.effects[k] > 0 || c'.dlq[k] > 0 ==>
          c.effects[k] > 0 || c.dlq[k] > 0 || exists m :: 0 <= m < |c.msgs| && c.msgs[m].key == k)
  }

  lemma CallStays(c: Consumer.State, h: nat, good: bool)
    requires Consumer.MsgsExist(c) && h < |c.handlers|
    ensures Stays(c, Consumer.CallStep(c, h, good))
  {
    match c.handlers[h].stage {
      case Start =>
      case Processing =>
      case Failed =>
      case Counting =>
      case DeadLettering =>
      case Finished =>
    }
  }

  lemma MessagesStay(c: Consumer.State, e: Consumer.Event)
    requires Consumer.MsgsExist(c) && !e.Arrive?
    ensures Stays(c, Consumer.Next(c, e))
  {
    hide Consumer.CallStep;
    match e
    case Deliver(_) =>
    case Purge(_) =>
    case Move(h, outcome) =>
      if h < |c.handlers| {
        match outcome {
          case Good => CallStays(c, h, true);
          case Bad => CallStays(c, h, false);
          case Crash =>
          case LateCrash =>
            CallStays(c, h, true);
            Consumer.CallKeepsKeys(c, h, true);
        }
      }
  }

  lemma NextKeepsOnce(s: State, e: Event)
    requires OnceInv(s) && Answered(s, e)
    ensures OnceInv(Next(s, e))
  {
    match e
    case Relay(r) => RelayKeepsOnce(s, r);
    case Consume(c) =>
      if !c.Arrive? {
        ConsumeKeepsLinked(s, c);
        Consumer.NextKeepsOnce(s.consumer, c);
      }
    case Replay(key, stored) =>
      if s.consumer.dlq[key] > 0 && stored {
        ArriveKeepsLinked(s, s.outbox, key);
        Consumer.NextKeepsOnce(s.consumer, Consumer.Arrive(key, false));
      }
  }

  lemma RelayKeepsOnce(s: State, r: Outbox.Event)
    requires OnceInv(s)
    ensures OnceInv(Next(s, Relay(r)))
  {
    hide Outbox.Inv, Outbox.Next, Consumer.OnceInv, Linked;
    var outbox := Outbox.Next(s.outbox, r);
    Outbox.NextKeepsInv(s.outbox, r);
    StreamGrowsByOne(s.outbox, r);
    if |outbox.stream| > |s.outbox.stream| {
      var id := outbox.stream[|s.outbox.stream|];
      assert forall x :: x in outbox.stream <==> x in s.outbox.stream || x == id;
      assert id in outbox.stream && InStream(outbox, EventId(id));
      ArriveKeepsLinked(s, outbox, EventId(id));
      Consumer.NextKeepsOnce(s.consumer, Consumer.Arrive(EventId(id), false));
    } else {
      SameStreamLinked(s, outbox);
    }
  }

  lemma NextKeepsFate(s: State, e: Event)
    requires Consumer.FateInv(s.consumer) && Steady(s, e)
    ensures Consumer.FateInv(Next(s, e).consumer)
  {
    hide Consumer.FateInv, Consumer.Next, Outbox.Next;
    match e
    case Relay(r) =>
      var after := Outbox.Next(s.outbox, r).stream;
      if |after| > |s.outbox.stream| {
        Consumer.NextKeepsFate(s.consumer, Consumer.Arrive(EventId(after[|after| - 1]), false));
      }
    case Consume(c) =>
      if !c.Arrive? {
        Consumer.NextKeepsFate(s.consumer, c);
      }
    case Replay(key, _) => Consumer.NextKeepsFate(s.consumer, Consumer.Arrive(key, false));
  }

  lemma SameStreamLinked(s: State, outbox: Outbox.State)
    requires Linked(s) && outbox.stream == s.outbox.stream
    ensures Linked(s.(outbox := outbox))
  {
    forall k | InStream(s.outbox, k)
      ensures InStream(outbox, k)
    {
      var id :| id in s.outbox.stream && EventId(id) == k;
      assert id in outbox.stream;
    }
  }

  lemma {:induction false} RunKeepsOnce(s: State, events: seq<Event>)
    requires OnceInv(s) && AnsweredRun(s, events)
    ensures OnceInv(Run(s, events))
    decreases |events|
  {
    hide OnceInv, Next;
    if events != [] {
      NextKeepsOnce(s, events[0]);
      RunKeepsOnce(Next(s, events[0]), events[1..]);
    }
  }

  lemma {:induction false} RunKeepsFate(s: State, events: seq<Event>)
    requires Consumer.FateInv(s.consumer) && SteadyRun(s, events)
    ensures Consumer.FateInv(Run(s, events).consumer) && AnsweredRun(s, events)
    decreases |events|
  {
    hide Consumer.FateInv, Next;
    if events != [] {
      NextKeepsFate(s, events[0]);
      RunKeepsFate(Next(s, events[0]), events[1..]);
    }
  }

  /**
   An event takes effect at most once, and only after the stream has stored it,
   at every moment of every run in which TryAcquire answers: with crashes, early
   redeliveries, and failures of Release and the dead-letter queue.
   */
  lemma EffectOnce(events: seq<Event>, id: nat)
    requires AnsweredRun(Empty, events)
    ensures var s := Run(Empty, events);
      s.consumer.effects[EventId(id)] <= 1 && (s.consumer.effects[EventId(id)] > 0 ==> id in s.outbox.stream)
  {
    RunKeepsOnce(Empty, events);
    var s := Run(Empty, events);
    var key := EventId(id);
    if s.consumer.effects[key] > 0 {
      var other :| other in s.outbox.stream && EventId(other) == key;
      EventIdInjective(other, id);
    }
  }

  /**
   End to end, at every moment of every such run: an event takes effect at most
   once, and only after the stream has stored it; and an event whose writer has
   committed is never lost: its row is still eligible, or was given up after MAX_RELAY_ATTEMPTS refusals,
   or it has taken effect, was dead-lettered, or has a message that is still
   unacked.
   */
  lemma EndToEnd(events: seq<Event>, id: nat)
    requires SteadyRun(Empty, events) && id < |Run(Empty, events).outbox.rows|
    ensures var s := Run(Empty, events);
      var row, key := s.outbox.rows[id], EventId(id);
      && s.consumer.effects[key] <= 1
      && (s.consumer.effects[key] > 0 ==> id in s.outbox.stream)
      && (row.writer == Outbox.Committed ==>
          || Outbox.Eligible(row)
          || (row.relayFailed && row.attempts == Outbox.MAX_RELAY_ATTEMPTS)
          || s.consumer.effects[key] == 1 || s.consumer.dlq[key] > 0 || Consumer.Unacked(s.consumer, key))
  {
    RunKeepsFate(Empty, events);
    RunKeepsOnce(Empty, events);
    EffectOnce(events, id);
    var s := Run(Empty, events);
    hide Run, SteadyRun, AnsweredRun;
    assert Outbox.RowGood(s.outbox.rows[id], id in s.outbox.stream);
    if id in s.outbox.stream {
      StoredIsAccounted(s, id);
    }
  }

  lemma StoredIsAccounted(s: State, id: nat)
    requires OnceInv(s) && Consumer.FateInv(s.consumer) && id in s.outbox.stream
    ensures Consumer.Accounted(s.consumer, EventId(id))
  {
    var m :| 0 <= m < |s.consumer.msgs| && s.consumer.msgs[m].key == EventId(id) && !s.consumer.msgs[m].malformed;
    assert Consumer.Accounted(s.consumer, s.consumer.msgs[m].key);
  }

  /**
   Once the relay has nothing left to fetch and no message is waiting, every
   event whose writer committed has taken effect exactly once, or was
   dead-lettered, or was given up by the relay.
   */
  lemma SettledOutcome(events: seq<Event>, id: nat)
    requires SteadyRun(Empty, events) && id < |Run(Empty, events).outbox.rows|
    requires !Outbox.Eligible(Run(Empty, events).outbox.rows[id])
    requires forall m :: 0 <= m < |Run(Empty, events).consumer.msgs| ==> Run(Empty, events).consumer.msgs[m].acked
    ensures var s := Run(Empty, events);
      s.outbox.rows[id].writer == Outbox.Committed ==>
      || s.consumer.effects[EventId(id)] == 1
      || s.consumer.dlq[EventId(id)] > 0
      || s.outbox.rows[id].relayFailed
  {
    EndToEnd(events, id);
  }
}
