/**
 The order of an entity's events in the stream (internal/adapter/nats/outbox_relay.go):
 when it is kept by workers whose batches come from the query, and when not.
 */
module OutboxOrder {
  import opened Outbox
  import opened OutboxQuery

  // Whatever is in the stream, all earlier committed events of its entity are in it too.
  ghost predicate StreamInOrder(s: State) {
    forall id: nat, later: nat | id < later < |s.rows| && s.rows[id].entity == s.rows[later].entity && later in s.stream ::
      s.rows[id].writer == Committed ==> id in s.stream
  }

  // ... at every moment of a run.
  ghost predicate AlwaysInOrder(s: State, events: seq<Event>)
    decreases |events|
  {
    StreamInOrder(s) && (events == [] || AlwaysInOrder(Next(s, events[0]), events[1..]))
  }

  // The publish stores the next event of its worker's batch.
  ghost predicate Stores(s: State, e: Event) {
    e.Publish? && Enabled(s, e) && (e.outcome.Accepted? || (e.outcome.Refused? && e.outcome.stored))
  }

  /**
   A publish overtakes: it stores an event although an earlier one of its entity
   is not in the stream, which was refused in the same pass, or given up, or was
   locked by another worker or not yet visible when the batch was fetched.
   */
  ghost predicate PublishOvertakes(s: State, missed: Misses, e: Event) {
    Stores(s, e) && var tx := s.txs[e.worker];
      var id := tx.batch[tx.tried];
      exists earlier: nat | earlier < id < |s.rows| ::
        && s.rows[earlier].entity == s.rows[id].entity && s.rows[earlier].writer == Committed && earlier !in s.stream
        && (earlier in tx.refused || s.rows[earlier].relayFailed || (e.worker in missed && earlier in missed[e.worker]))
  }

  // A row becomes visible although a later event of its entity is in the stream.
  ghost predicate AppearsLate(s: State, e: Event) {
    e.Appear? && Enabled(s, e) && exists later: nat | e.id < later < |s.rows| ::
      s.rows[later].entity == s.rows[e.id].entity && later in s.stream
  }

  ghost predicate Overtakes(s: State, missed: Misses, e: Event) {
    PublishOvertakes(s, missed, e) || AppearsLate(s, e)
  }

  ghost predicate NoneOvertakes(s: State, missed: Misses, events: seq<Event>)
    decreases |events|
  {
    events == [] || (!Overtakes(s, missed, events[0]) && NoneOvertakes(Next(s, events[0]), Track(s, missed, events[0]), events[1..]))
  }

  lemma NextStream(s: State, e: Event)
    requires Inv(s)
    ensures var s' := Next(s, e);
      forall x :: x in s'.stream <==> x in s.stream || (Stores(s, e) && x == s.txs[e.worker].batch[s.txs[e.worker].tried])
  {
  }

  // An earlier committed event of the entity that is not in the stream was refused in this pass, given up, or missed.
  lemma MissingWasRefused(s: State, e: Event, workerCount: nat, missed: Misses, earlier: nat)
    requires Inv(s) && BatchesGood(s, workerCount, missed) && Stores(s, e)
    requires var id := s.txs[e.worker].batch[s.txs[e.worker].tried];
      && earlier < id < |s.rows| && s.rows[earlier].entity == s.rows[id].entity
      && s.rows[earlier].writer == Committed && earlier !in s.stream
    ensures earlier in s.txs[e.worker].refused || s.rows[earlier].relayFailed || earlier in missed[e.worker]
  {
    var tx := s.txs[e.worker];
    assert TxGood(s, tx) && BatchGood(s, e.worker, workerCount, tx.batch, missed[e.worker]);
    assert RowGood(s.rows[earlier], earlier in s.stream);
    if Eligible(s.rows[earlier]) && earlier !in missed[e.worker] {
      assert earlier in tx.batch[..tx.tried];
      var i :| 0 <= i < tx.tried && tx.batch[i] == earlier;
      assert tx.batch[i] in tx.sent <==> tx.batch[i] !in tx.refused;
    }
  }

  lemma StepInOrder(s: State, e: Event, workerCount: nat, missed: Misses)
    requires Inv(s) && BatchesGood(s, workerCount, missed) && StreamInOrder(s)
    ensures StreamInOrder(Next(s, e)) <==> !Overtakes(s, missed, e)
  {
    if Stores(s, e) {
      StoreInOrder(s, e, workerCount, missed);
    } else if e.Appear? && Enabled(s, e) {
      AppearInOrder(s, e);
    } else {
      OtherInOrder(s, e);
    }
  }

  lemma OtherInOrder(s: State, e: Event)
    requires Inv(s) && StreamInOrder(s) && !Stores(s, e) && !(e.Appear? && Enabled(s, e))
    ensures StreamInOrder(Next(s, e))
  {
    var s' := Next(s, e);
    NextAges(s, e);
    NextStream(s, e);
    NoneAppears(s, e);
    assert Known(s);
    hide Next, Inv;
    forall id: nat, later: nat | id < later < |s'.rows| && s'.rows[id].entity == s'.rows[later].entity && later in s'.stream
                                 && s'.rows[id].writer == Committed
      ensures id in s'.stream
    {
      assert later in s.stream && later < |s.rows|;
    }
  }

  lemma NoneAppears(s: State, e: Event)
    requires !(e.Appear? && Enabled(s, e))
    ensures forall id :: 0 <= id < |s.rows| && Next(s, e).rows[id].writer == Committed ==> s.rows[id].writer == Committed
  {
  }

  lemma AppearInOrder(s: State, e: Event)
    requires Inv(s) && StreamInOrder(s) && e.Appear? && Enabled(s, e)
    ensures StreamInOrder(Next(s, e)) <==> !AppearsLate(s, e)
  {
    var s' := Next(s, e);
    assert RowGood(s.rows[e.id], e.id in s.stream);
    assert s'.rows == s.rows[e.id := s.rows[e.id].(writer := Committed)] && s'.stream == s.stream;
    hide Next, Inv;
    if AppearsLate(s, e) {
      var later: nat :| e.id < later < |s.rows| && s.rows[later].entity == s.rows[e.id].entity && later in s.stream;
      assert s'.rows[later].entity == s'.rows[e.id].entity;
    } else {
      forall id: nat, later: nat | id < later < |s'.rows| && s'.rows[id].entity == s'.rows[later].entity && later in s'.stream
                                   && s'.rows[id].writer == Committed
        ensures id in s'.stream
      {
        assert s.rows[id].entity == s.rows[later].entity;
      }
    }
  }

  lemma StoreInOrder(s: State, e: Event, workerCount: nat, missed: Misses)
    requires Inv(s) && BatchesGood(s, workerCount, missed) && StreamInOrder(s) && Stores(s, e)
    ensures StreamInOrder(Next(s, e)) <==> !PublishOvertakes(s, missed, e)
  {
    var s' := Next(s, e);
    var tx := s.txs[e.worker];
    var id := tx.batch[tx.tried];
    assert s'.rows == s.rows;
    assert TxGood(s, tx);
    NextStream(s, e);
    forall earlier: nat | earlier < id && s.rows[earlier].entity == s.rows[id].entity
                          && s.rows[earlier].writer == Committed && earlier !in s.stream
      ensures PublishOvertakes(s, missed, e)
    {
      MissingWasRefused(s, e, workerCount, missed, earlier);
    }
    hide Next, Eligible, Inv, BatchesGood, TxGood;
    if PublishOvertakes(s, missed, e) {
      var earlier: nat :| earlier < id && s.rows[earlier].entity == s.rows[id].entity
                          && s.rows[earlier].writer == Committed && earlier !in s.stream;
      assert id in s'.stream && earlier !in s'.stream;
    }
  }

  lemma {:induction false} RunInOrder(s: State, events: seq<Event>, workerCount: nat, missed: Misses)
    requires Inv(s) && BatchesGood(s, workerCount, missed) && StreamInOrder(s)
    requires QueriedRun(s, events, workerCount)
    ensures AlwaysInOrder(s, events) <==> NoneOvertakes(s, missed, events)
    decreases |events|
  {
    hide Inv, BatchesGood, StreamInOrder, Overtakes, Next, Queried, Track;
    if events != [] {
      StepInOrder(s, events[0], workerCount, missed);
      if !Overtakes(s, missed, events[0]) {
        NextKeepsInv(s, events[0]);
        NextKeepsBatches(s, events[0], workerCount, missed);
        RunInOrder(Next(s, events[0]), events[1..], workerCount, Track(s, missed, events[0]));
      } else {
        NotAlways(Next(s, events[0]), events[1..]);
      }
    }
  }

  lemma NotAlways(s: State, events: seq<Event>)
    requires !StreamInOrder(s)
    ensures !AlwaysInOrder(s, events)
  {
  }

  /**
   For any number of relay processes and workers that fetch by the query, over
   every run of writes, publishes, refusals, commits, roll-backs and crashes: at
   every moment each entity's events are in the stream in sequence order exactly
   when no publish overtakes an event that was refused before it in its pass,
   given up, or missed by its fetch, and no row appears after a later one of its
   entity was stored.
   */
  lemma OrderExactly(events: seq<Event>, workerCount: nat)
    requires QueriedRun(Empty, events, workerCount)
    ensures AlwaysInOrder(Empty, events) <==> NoneOvertakes(Empty, map[], events)
  {
    RunInOrder(Empty, events, workerCount, map[]);
  }

  // ---- One pass ----

  // The events tried by the pass so far that are in the stream come after all earlier events of their entity.
  ghost predicate PassOrdered(s: State, tx: Tx)
    requires tx.tried <= |tx.batch| && forall k :: 0 <= k < |tx.batch| ==> tx.batch[k] < |s.rows|
  {
    forall j, id: nat | 0 <= j < tx.tried && id < tx.batch[j] ::
      tx.batch[j] in s.stream && s.rows[id].entity == s.rows[tx.batch[j]].entity && s.rows[id].writer == Committed
      ==> id in s.stream
  }

  // Of one entity, the pass has failed to store an event and stored a later one of the batch.
  ghost predicate Leapt(s: State, tx: Tx)
    requires tx.tried <= |tx.batch| && forall k :: 0 <= k < |tx.batch| ==> tx.batch[k] < |s.rows|
  {
    exists i, j | 0 <= i < j < tx.tried ::
      s.rows[tx.batch[i]].entity == s.rows[tx.batch[j]].entity && tx.batch[i] !in s.stream && tx.batch[j] in s.stream
  }

  // Of one entity, an event was given up or missed by the fetch, and the pass has stored a later one.
  ghost predicate LeftBehind(s: State, tx: Tx, missed: set<nat>)
    requires tx.tried <= |tx.batch| && forall k :: 0 <= k < |tx.batch| ==> tx.batch[k] < |s.rows|
  {
    exists id: nat, j | 0 <= j < tx.tried && id < tx.batch[j] ::
      && s.rows[id].entity == s.rows[tx.batch[j]].entity && s.rows[id].writer == Committed
      && (s.rows[id].relayFailed || id in missed) && id !in s.stream && tx.batch[j] in s.stream
  }

  /**
   At every point of every pass, however other workers and processes interleave:
   what it has stored is in order exactly when of no entity it left an event of
   its batch unstored before one that is stored, and none that was given up or
   missed by the fetch comes before one.
   */
  lemma PassInOrder(events: seq<Event>, w: nat, workerCount: nat)
    requires QueriedRun(Empty, events, workerCount) && w in Run(Empty, events).txs
    ensures var s, missed := Run(Empty, events), Tracked(Empty, map[], events);
      var tx := s.txs[w];
      && TxGood(s, tx) && w in missed
      && (PassOrdered(s, tx) <==> !Leapt(s, tx) && !LeftBehind(s, tx, missed[w]))
  {
    QueriedRunKeeps(Empty, events, workerCount, map[]);
    var s, missed := Run(Empty, events), Tracked(Empty, map[], events);
    var tx := s.txs[w];
    assert TxGood(s, tx) && BatchGood(s, w, workerCount, tx.batch, missed[w]);
    assert RowsGood(s) && Known(s);
    hide Run, QueriedRun, Inv, BatchesGood, Tracked;
    if Leapt(s, tx) {
      var i, j :| 0 <= i < j < tx.tried && s.rows[tx.batch[i]].entity == s.rows[tx.batch[j]].entity
                  && tx.batch[i] !in s.stream && tx.batch[j] in s.stream;
      assert tx.batch[i] < tx.batch[j] && Eligible(s.rows[tx.batch[i]]);
    }
    if !Leapt(s, tx) && !LeftBehind(s, tx, missed[w]) {
      forall j, id: nat | 0 <= j < tx.tried && id < tx.batch[j] && tx.batch[j] in s.stream
                          && s.rows[id].entity == s.rows[tx.batch[j]].entity && s.rows[id].writer == Committed
        ensures id in s.stream
      {
        EarlierIsBefore(s, w, workerCount, tx, missed[w], j, id);
      }
    }
  }

  // An earlier row of the entity of a batch row is stored, given up, missed, or before it in the batch.
  lemma EarlierIsBefore(s: State, w: nat, workerCount: nat, tx: Tx, missed: set<nat>, j: nat, id: nat)
    requires RowsGood(s) && Known(s) && TxGood(s, tx) && BatchGood(s, w, workerCount, tx.batch, missed) && j < |tx.batch|
    requires id < tx.batch[j] && s.rows[id].entity == s.rows[tx.batch[j]].entity && s.rows[id].writer == Committed
    ensures id in s.stream || s.rows[id].relayFailed || id in missed || exists i :: 0 <= i < j && tx.batch[i] == id
  {
    var batch := tx.batch;
    assert RowGood(s.rows[id], id in s.stream);
    assert s.rows[id].shard == s.rows[batch[j]].shard;
    if Eligible(s.rows[id]) && id !in missed {
      assert id in batch[..j];
      var i :| 0 <= i < |batch[..j]| && batch[..j][i] == id;
      assert batch[i] == id;
    }
  }

  // ---- When the order is kept ----

  predicate RefusesNone(events: seq<Event>) {
    forall i :: 0 <= i < |events| && events[i].Publish? ==> !events[i].outcome.Refused?
  }

  // Writers of one entity commit in sequence order: a row appears once all earlier ones of its entity are decided.
  predicate WritersInOrder(s: State, events: seq<Event>)
    decreases |events|
  {
    events == [] || (WriterInOrder(s, events[0]) && WritersInOrder(Next(s, events[0]), events[1..]))
  }

  predicate WriterInOrder(s: State, e: Event) {
    e.Appear? && Enabled(s, e) ==>
      forall id :: 0 <= id < e.id && s.rows[id].entity == s.rows[e.id].entity ==> s.rows[id].writer != Open
  }

  // No committed row has an undecided one of its entity before it.
  ghost predicate Decided(s: State) {
    forall id: nat, later: nat | id < later < |s.rows| && s.rows[id].entity == s.rows[later].entity ::
      s.rows[later].writer == Committed ==> s.rows[id].writer != Open
  }

  // Nothing has been refused, and no fetch has missed an event before one of its entity in the batch.
  ghost predicate Smooth(s: State, missed: Misses) {
    && (forall w :: w in s.txs ==> s.txs[w].refused == {})
    && (forall i :: 0 <= i < |s.rows| ==> !s.rows[i].relayFailed)
    && (forall w, k, id: nat | w in s.txs && w in missed && 0 <= k < |s.txs[w].batch| && id < s.txs[w].batch[k] < |s.rows| ::
          s.rows[id].entity == s.rows[s.txs[w].batch[k]].entity ==> id !in missed[w])
  }

  lemma SmoothStep(s: State, e: Event, workerCount: nat, missed: Misses)
    requires Inv(s) && OwnLocks(s, workerCount) && Decided(s) && Smooth(s, missed)
    requires Queried(s, e, workerCount) && (e.Begin? ==> e.worker < workerCount)
    requires e.Publish? ==> !e.outcome.Refused?
    ensures Smooth(Next(s, e), Track(s, missed, e))
  {
    var s', missed' := Next(s, e), Track(s, missed, e);
    NextAges(s, e);
    BatchesFrom(s, e);
    NothingRefused(s, e);
    if e.Begin? && Enabled(s, e) {
      MissesNoneOfEntity(s, e, workerCount);
    }
    BatchesKnown(s);
    hide Next, Inv, Queried, OwnLocks, MissedAt;
    forall w, k, id: nat | w in s'.txs && w in missed' && 0 <= k < |s'.txs[w].batch| && id < s'.txs[w].batch[k] < |s'.rows|
                           && s'.rows[id].entity == s'.rows[s'.txs[w].batch[k]].entity
      ensures id !in missed'[w]
    {
      if e.Begin? && Enabled(s, e) && w == e.worker {
        assert s'.txs[w].batch == e.batch;
      } else {
        assert s'.txs[w].batch == s.txs[w].batch && missed'[w] == missed[w];
      }
    }
  }

  lemma BatchesKnown(s: State)
    requires Inv(s)
    ensures forall w, k :: w in s.txs && 0 <= k < |s.txs[w].batch| ==> s.txs[w].batch[k] < |s.rows|
  {
    forall w | w in s.txs
      ensures TxGood(s, s.txs[w])
    {
    }
  }

  lemma NothingRefused(s: State, e: Event)
    requires (forall w :: w in s.txs ==> s.txs[w].refused == {}) && (forall i :: 0 <= i < |s.rows| ==> !s.rows[i].relayFailed)
    requires e.Publish? ==> !e.outcome.Refused?
    ensures forall w :: w in Next(s, e).txs ==> Next(s, e).txs[w].refused == {}
    ensures forall i :: 0 <= i < |Next(s, e).rows| ==> !Next(s, e).rows[i].relayFailed
  {
  }

  // What the only process fetches misses no earlier event of an entity: no other worker has it, and it was decided.
  lemma MissesNoneOfEntity(s: State, e: Event, workerCount: nat)
    requires Inv(s) && OwnLocks(s, workerCount) && Decided(s)
    requires e.Begin? && Enabled(s, e) && Queried(s, e, workerCount) && e.worker < workerCount
    ensures forall k, id: nat | 0 <= k < |e.batch| && id < e.batch[k] < |s.rows| ::
      s.rows[id].entity == s.rows[e.batch[k]].entity ==> id !in MissedAt(s)
    ensures forall k :: 0 <= k < |e.batch| ==> e.batch[k] < |s.rows|
  {
    FetchesOwn(s, e, workerCount);
    assert Fetchable(s, e.batch) && Known(s);
    hide Queried, Inv, OwnLocks, Locked;
    forall k, id: nat | 0 <= k < |e.batch| && id < e.batch[k] < |s.rows| && s.rows[id].entity == s.rows[e.batch[k]].entity
      ensures id !in MissedAt(s)
    {
      assert e.batch[k] in e.batch;
      assert s.rows[e.batch[k]].writer == Committed && s.rows[id].shard == s.rows[e.batch[k]].shard;
      SameShardMine(s.rows[id], s.rows[e.batch[k]], e.worker, workerCount);
      OthersLockOthers(s, e.worker, workerCount, id);
    }
  }

  lemma SameShardMine(r: Row, t: Row, w: nat, workerCount: nat)
    requires r.shard == t.shard && Mine(t, w, workerCount)
    ensures Mine(r, w, workerCount)
  {
  }

  lemma DecidedStep(s: State, events: seq<Event>)
    requires Inv(s) && Decided(s) && events != [] && WritersInOrder(s, events)
    ensures Decided(Next(s, events[0]))
  {
    var e := events[0];
    NextAges(s, e);
    if e.Insert? && Enabled(s, e) {
      assert Next(s, e).rows[|s.rows|].writer == Open;
    }
    if !(e.Appear? && Enabled(s, e)) {
      NoneAppears(s, e);
    }
  }

  lemma SmoothOvertakesNone(s: State, events: seq<Event>, missed: Misses)
    requires Inv(s) && Decided(s) && Smooth(s, missed) && events != []
    ensures !Overtakes(s, missed, events[0])
  {
    var e := events[0];
    forall later | 0 <= later < |s.rows| && later in s.stream
      ensures s.rows[later].writer == Committed
    {
      assert RowGood(s.rows[later], later in s.stream);
    }
  }

  lemma {:induction false} KeptFrom(s: State, events: seq<Event>, workerCount: nat, missed: Misses)
    requires Inv(s) && OwnLocks(s, workerCount) && Decided(s) && Smooth(s, missed)
    requires QueriedRun(s, events, workerCount) && OneProcess(events, workerCount)
    requires RefusesNone(events) && WritersInOrder(s, events)
    ensures NoneOvertakes(s, missed, events)
    decreases |events|
  {
    hide Inv, OwnLocks, Decided, Smooth, Next, Queried, Track, Overtakes;
    if events != [] {
      var e := events[0];
      SmoothOvertakesNone(s, events, missed);
      NextKeepsInv(s, e);
      OneProcessStep(s, e, workerCount);
      DecidedStep(s, events);
      SmoothStep(s, e, workerCount, missed);
      KeptFrom(Next(s, e), events[1..], workerCount, Track(s, missed, e));
    }
  }

  /**
   The order is kept by one relay process when no publish is refused and writers
   of one entity commit in sequence order; commits of passes may still fail and
   workers crash at any point. Each of the three is needed, as the runs below show.
   */
  lemma OrderKept(events: seq<Event>, workerCount: nat)
    requires QueriedRun(Empty, events, workerCount) && OneProcess(events, workerCount)
    requires RefusesNone(events) && WritersInOrder(Empty, events)
    ensures AlwaysInOrder(Empty, events)
  {
    KeptFrom(Empty, events, workerCount, map[]);
    OrderExactly(events, workerCount);
  }

  // ---- When it is not ----

  // A run with a single worker per process from an empty outbox to a state.
  ghost predicate Leads(events: seq<Event>, s: State) {
    QueriedRun(Empty, events, 1) && WritersInOrder(Empty, events) && Run(Empty, events) == s
  }

  lemma {:induction false} Extend(s0: State, events: seq<Event>, e: Event, s: State, s': State)
    requires QueriedRun(s0, events, 1) && Run(s0, events) == s && Queried(s, e, 1) && Next(s, e) == s'
    ensures QueriedRun(s0, events + [e], 1) && Run(s0, events + [e]) == s'
    ensures WritersInOrder(s0, events) && WriterInOrder(s, e) ==> WritersInOrder(s0, events + [e])
    decreases |events|
  {
    hide Next, Queried, WriterInOrder;
    if events == [] {
      assert [] + [e] == [e] && [e][1..] == [];
    } else {
      assert (events + [e])[0] == events[0] && (events + [e])[1..] == events[1..] + [e];
      Extend(Next(s0, events[0]), events[1..], e, s, s');
    }
  }

  function Both(stream: seq<nat>, txs: map<nat, Tx>): State {
    State([NewRow(7, 7).(writer := Committed), NewRow(7, 7).(writer := Committed)], stream, txs)
  }

  // Two events of one entity, written and committed in order.
  const TWO_WRITTEN: seq<Event> := [Insert(7, 7)] + [Insert(7, 7)] + [Appear(0)] + [Appear(1)]

  lemma TwoWritten()
    ensures Leads(TWO_WRITTEN, Both([], map[]))
  {
    var r := NewRow(7, 7);
    var s1, s2 := State([r], [], map[]), State([r, r], [], map[]);
    var s3 := State([r.(writer := Committed), r], [], map[]);
    assert Next(Empty, Insert(7, 7)) == s1;
    assert Next(s1, Insert(7, 7)) == s2;
    assert Next(s2, Appear(0)) == s3;
    assert Next(s3, Appear(1)) == Both([], map[]);
    hide Next;
    assert [] + [Insert(7, 7)] == [Insert(7, 7)];
    Extend(Empty, [], Insert(7, 7), Empty, s1);
    Extend(Empty, [Insert(7, 7)], Insert(7, 7), s1, s2);
    Extend(Empty, [Insert(7, 7)] + [Insert(7, 7)], Appear(0), s2, s3);
    Extend(Empty, [Insert(7, 7)] + [Insert(7, 7)] + [Appear(0)], Appear(1), s3, Both([], map[]));
  }

  lemma FetchBy(s: State, w: nat, batch: seq<nat>, limit: nat)
    requires limit > 0 && batch == Fetch(s, 0, 1, limit)
    ensures Queried(s, Begin(w, batch), 1)
  {
    assert WorkerOf(w, 1) == 0;
  }

  // The pass of worker w publishes its next event.
  lemma OnePublish(s: State, w: nat, outcome: Outcome, s': State)
    requires w in s.txs && s.txs[w].tried < |s.txs[w].batch| && !outcome.Deduplicated?
    requires var tx, id := s.txs[w], s.txs[w].batch[s.txs[w].tried];
      s' == if outcome.Accepted?
            then s.(stream := s.stream + [id], txs := s.txs[w := tx.(tried := tx.tried + 1, sent := tx.sent + {id})])
            else s.(stream := if outcome.stored then s.stream + [id] else s.stream,
                    txs := s.txs[w := tx.(tried := tx.tried + 1, refused := tx.refused + {id})])
    ensures Next(s, Publish(w, outcome)) == s'
  {
  }

  const ONE_REFUSED: seq<Event> := TWO_WRITTEN + [Begin(0, [0, 1])] + [Publish(0, Refused(false))] + [Publish(0, Accepted)]

  /**
   One refused publish is enough to break the order: the relay goes on with the
   rest of the batch, and the later event of the same entity overtakes.
   */
  lemma RefusalBreaksOrder()
    ensures QueriedRun(Empty, ONE_REFUSED, 1) && OneProcess(ONE_REFUSED, 1) && WritersInOrder(Empty, ONE_REFUSED)
    ensures Run(Empty, ONE_REFUSED).stream == [1] && !StreamInOrder(Run(Empty, ONE_REFUSED))
  {
    hide Next, Fetch, Queried, WriterInOrder;
    TwoWritten();
    var s := Both([], map[]);
    var s1, s2, s3 := RefusedSteps();
    Extend(Empty, TWO_WRITTEN, Begin(0, [0, 1]), s, s1);
    Extend(Empty, TWO_WRITTEN + [Begin(0, [0, 1])], Publish(0, Refused(false)), s1, s2);
    Extend(Empty, TWO_WRITTEN + [Begin(0, [0, 1])] + [Publish(0, Refused(false))], Publish(0, Accepted), s2, s3);
    OutOfOrder(s3);
  }

  // A step that is possible in these runs: no row appears by it, and a batch comes from the query.
  ghost predicate Goes(s: State, e: Event, s': State) {
    Queried(s, e, 1) && WriterInOrder(s, e) && Next(s, e) == s'
  }

  lemma RefusedSteps() returns (s1: State, s2: State, s3: State)
    ensures Goes(Both([], map[]), Begin(0, [0, 1]), s1)
    ensures Goes(s1, Publish(0, Refused(false)), s2)
    ensures Goes(s2, Publish(0, Accepted), s3) && s3 == Both([1], s3.txs)
  {
    var s := Both([], map[]);
    s1 := Both([], map[0 := Tx([0, 1], 0, {}, {})]);
    s2 := Both([], map[0 := Tx([0, 1], 1, {}, {0})]);
    s3 := Both([1], map[0 := Tx([0, 1], 2, {1}, {0})]);
    FetchesRows(s);
    FetchBy(s, 0, [0, 1], 2);
    assert Next(s, Begin(0, [0, 1])) == s1;
    assert s1.txs[0].refused + {0} == {0} && s1.txs[0 := Tx([0, 1], 1, {}, {0})] == s2.txs;
    OnePublish(s1, 0, Refused(false), s2);
    assert s2.txs[0].sent + {1} == {1} && s2.txs[0 := Tx([0, 1], 2, {1}, {0})] == s3.txs && s2.stream + [1] == s3.stream;
    OnePublish(s2, 0, Accepted, s3);
  }

  lemma FetchesRows(s: State)
    requires s == Both([], map[])
    ensures Fetch(s, 0, 1, 2) == [0, 1] && Fetch(s, 0, 1, 1) == [0] && Fetchable(s, [0, 1]) && Fetchable(s, [0])
  {
    assert Candidate(s, 0, 1, 0) && Candidate(s, 0, 1, 1);
    assert FetchFrom(s, 0, 1, 0, 2) == [] && FetchFrom(s, 0, 1, 0, 1) == [];
    assert FetchFrom(s, 0, 1, 1, 1) == [1];
  }

  lemma OutOfOrder(s: State)
    requires |s.rows| == 2 && s.rows[0].entity == s.rows[1].entity && s.rows[0].writer == Committed && s.stream == [1]
    ensures !StreamInOrder(s)
  {
    assert 0 < 1 < |s.rows| && 1 in s.stream && 0 !in s.stream;
  }

  const TWO_PROCESSES: seq<Event> := TWO_WRITTEN + [Begin(0, [0])] + [Begin(1, [1])] + [Publish(1, Accepted)]

  /**
   Two processes break it without any refusal: the second skips the row that the
   first has locked, and publishes the later event of the entity first.
   */
  lemma TwoProcessesBreakOrder()
    ensures QueriedRun(Empty, TWO_PROCESSES, 1) && RefusesNone(TWO_PROCESSES) && WritersInOrder(Empty, TWO_PROCESSES)
    ensures Run(Empty, TWO_PROCESSES).stream == [1] && !StreamInOrder(Run(Empty, TWO_PROCESSES))
  {
    hide Next, Fetch, Queried, WriterInOrder;
    TwoWritten();
    var s := Both([], map[]);
    var s1, s2, s3 := TwoProcessSteps();
    Extend(Empty, TWO_WRITTEN, Begin(0, [0]), s, s1);
    Extend(Empty, TWO_WRITTEN + [Begin(0, [0])], Begin(1, [1]), s1, s2);
    Extend(Empty, TWO_WRITTEN + [Begin(0, [0])] + [Begin(1, [1])], Publish(1, Accepted), s2, s3);
    OutOfOrder(s3);
  }

  lemma TwoProcessSteps() returns (s1: State, s2: State, s3: State)
    ensures Goes(Both([], map[]), Begin(0, [0]), s1)
    ensures Goes(s1, Begin(1, [1]), s2)
    ensures Goes(s2, Publish(1, Accepted), s3) && s3 == Both([1], s3.txs)
  {
    var s := Both([], map[]);
    s1 := Both([], map[0 := Tx([0], 0, {}, {})]);
    s2 := Both([], map[0 := Tx([0], 0, {}, {}), 1 := Tx([1], 0, {}, {})]);
    s3 := Both([1], map[0 := Tx([0], 0, {}, {}), 1 := Tx([1], 1, {1}, {})]);
    FetchesRows(s);
    FetchBy(s, 0, [0], 1);
    assert Next(s, Begin(0, [0])) == s1;
    SkipsLocked(s1);
    FetchBy(s1, 1, [1], 1);
    assert s1.txs[1 := Tx([1], 0, {}, {})] == s2.txs;
    assert Next(s1, Begin(1, [1])) == s2;
    assert s2.txs[1].sent + {1} == {1} && s2.txs[1 := Tx([1], 1, {1}, {})] == s3.txs && s2.stream + [1] == s3.stream;
    OnePublish(s2, 1, Accepted, s3);
  }

  lemma SkipsLocked(s: State)
    requires s == Both([], map[0 := Tx([0], 0, {}, {})])
    ensures Fetch(s, 0, 1, 1) == [1] && Fetchable(s, [1])
  {
    assert 0 in s.txs[0].batch && Locked(s, 0) && Candidate(s, 0, 1, 1);
    assert FetchFrom(s, 0, 1, 0, 2) == [];
    assert FetchFrom(s, 0, 1, 1, 1) == [1];
  }

  const LATE_COMMIT: seq<Event> := [Insert(7, 7)] + [Insert(7, 7)] + [Appear(1)] + [Begin(0, [1])] + [Publish(0, Accepted)] + [Appear(0)]

  /**
   So do two writers: sequence numbers are given at the write, and a later event
   of the entity that commits first is relayed first.
   */
  lemma LateCommitBreaksOrder()
    ensures QueriedRun(Empty, LATE_COMMIT, 1) && OneProcess(LATE_COMMIT, 1) && RefusesNone(LATE_COMMIT)
    ensures Run(Empty, LATE_COMMIT).stream == [1] && !StreamInOrder(Run(Empty, LATE_COMMIT))
  {
    hide Next, Fetch, Queried, WriterInOrder;
    var s1, s2, s3, s4, s5, s6 := LateCommitSteps();
    assert [] + [Insert(7, 7)] == [Insert(7, 7)];
    Extend(Empty, [], Insert(7, 7), Empty, s1);
    Extend(Empty, [Insert(7, 7)], Insert(7, 7), s1, s2);
    var es := [Insert(7, 7)] + [Insert(7, 7)];
    Extend(Empty, es, Appear(1), s2, s3);
    Extend(Empty, es + [Appear(1)], Begin(0, [1]), s3, s4);
    Extend(Empty, es + [Appear(1)] + [Begin(0, [1])], Publish(0, Accepted), s4, s5);
    Extend(Empty, es + [Appear(1)] + [Begin(0, [1])] + [Publish(0, Accepted)], Appear(0), s5, s6);
    OutOfOrder(s6);
  }

  lemma LateCommitSteps() returns (s1: State, s2: State, s3: State, s4: State, s5: State, s6: State)
    ensures Queried(Empty, Insert(7, 7), 1) && Next(Empty, Insert(7, 7)) == s1
    ensures Queried(s1, Insert(7, 7), 1) && Next(s1, Insert(7, 7)) == s2
    ensures Queried(s2, Appear(1), 1) && Next(s2, Appear(1)) == s3
    ensures Queried(s3, Begin(0, [1]), 1) && Next(s3, Begin(0, [1])) == s4
    ensures Queried(s4, Publish(0, Accepted), 1) && Next(s4, Publish(0, Accepted)) == s5
    ensures Queried(s5, Appear(0), 1) && Next(s5, Appear(0)) == s6 && s6 == Both([1], s6.txs)
  {
    var r := NewRow(7, 7);
    var rows := [r, r.(writer := Committed)];
    s1, s2, s3 := State([r], [], map[]), State([r, r], [], map[]), State(rows, [], map[]);
    s4 := State(rows, [], map[0 := Tx([1], 0, {}, {})]);
    s5 := State(rows, [1], map[0 := Tx([1], 1, {1}, {})]);
    s6 := Both([1], s5.txs);
    SkipsOpen(s3);
    FetchBy(s3, 0, [1], 1);
    assert Next(s3, Begin(0, [1])) == s4;
    assert s4.txs[0].sent + {1} == {1} && s4.txs[0 := Tx([1], 1, {1}, {})] == s5.txs && s4.stream + [1] == s5.stream;
    OnePublish(s4, 0, Accepted, s5);
    assert s5.rows[0 := r.(writer := Committed)] == s6.rows;
  }

  lemma SkipsOpen(s: State)
    requires s == State([NewRow(7, 7), NewRow(7, 7).(writer := Committed)], [], map[])
    ensures Fetch(s, 0, 1, 1) == [1] && Fetchable(s, [1])
  {
    assert !Candidate(s, 0, 1, 0) && Candidate(s, 0, 1, 1);
    assert FetchFrom(s, 0, 1, 0, 2) == [];
    assert FetchFrom(s, 0, 1, 1, 1) == [1];
  }
}
