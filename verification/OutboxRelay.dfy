/** One worker of the outbox relay: the relay pass and the adaptive poll loop. */
module OutboxRelay {
  import opened Outbox
  import opened OutboxQuery

  const BASE_BATCH_SIZE: nat := 100
  const MAX_BATCH_SIZE: nat := 500
  const BACKOFF_MULTIPLIER: nat := 2
  // Poll intervals in milliseconds.
  const BASE_INTERVAL: nat := 1_000
  const MAX_INTERVAL: nat := 30_000

  // ---- The steps of a pass ----

  function Publishes(worker: nat, outcomes: seq<Outcome>): seq<Event> {
    seq(|outcomes|, i requires 0 <= i < |outcomes| => Publish(worker, outcomes[i]))
  }

  function PassEvents(worker: nat, batch: seq<nat>, outcomes: seq<Outcome>, uncounted: set<nat>, commits: bool): seq<Event> {
    [Begin(worker, batch)] + Publishes(worker, outcomes) + [if commits then Commit(worker, uncounted) else Rollback(worker)]
  }

  lemma {:induction false} RunConcat(s: State, first: seq<Event>, rest: seq<Event>)
    ensures Run(s, first + rest) == Run(Run(s, first), rest)
    decreases |first|
  {
    if first == [] {
      assert first + rest == rest;
    } else {
      assert (first + rest)[0] == first[0] && (first + rest)[1..] == first[1..] + rest;
      RunConcat(Next(s, first[0]), first[1..], rest);
    }
  }

  // What one publish does to the worker's transaction.
  lemma PublishSteps(s: State, worker: nat, outcome: Outcome)
    requires Inv(s) && worker in s.txs && s.txs[worker].tried < |s.txs[worker].batch|
    requires outcome.Deduplicated? ==> s.txs[worker].batch[s.txs[worker].tried] in s.stream
    ensures Enabled(s, Publish(worker, outcome))
    ensures var s', tx := Next(s, Publish(worker, outcome)), s.txs[worker];
      && worker in s'.txs && s'.txs[worker].batch == tx.batch && s'.txs[worker].tried == tx.tried + 1
      && |s'.txs[worker].sent| == |tx.sent| + (if outcome.Refused? then 0 else 1)
      && s'.rows == s.rows && s.stream <= s'.stream
  {
    assert TxGood(s, s.txs[worker]);
    assert s.txs[worker].batch[s.txs[worker].tried] !in s.txs[worker].sent;
  }

  lemma CommitOrRollback(s: State, worker: nat, uncounted: set<nat>)
    requires worker in s.txs && s.txs[worker].tried == |s.txs[worker].batch|
    ensures Next(s, Rollback(worker)) == s.(txs := s.txs - {worker})
    ensures Next(s, Commit(worker, uncounted))
      == s.(rows := SettleAll(s.rows, s.txs[worker].sent, s.txs[worker].refused - uncounted), txs := s.txs - {worker})
  {
  }

  lemma BeginOpens(s: State, worker: nat, batch: seq<nat>)
    requires Inv(s) && worker !in s.txs && Fetchable(s, batch)
    ensures Next(s, Begin(worker, batch)) == s.(txs := s.txs[worker := Tx(batch, 0, {}, {})])
    ensures Inv(Next(s, Begin(worker, batch)))
  {
    NextKeepsInv(s, Begin(worker, batch));
  }

  // A pass is its first step, its publishes, and its last step.
  lemma PassSplits(s: State, worker: nat, batch: seq<nat>, outcomes: seq<Outcome>, uncounted: set<nat>, commits: bool)
    ensures Run(s, PassEvents(worker, batch, outcomes, uncounted, commits))
      == Next(Run(Next(s, Begin(worker, batch)), Publishes(worker, outcomes)),
              if commits then Commit(worker, uncounted) else Rollback(worker))
  {
    var last := if commits then Commit(worker, uncounted) else Rollback(worker);
    var first := [Begin(worker, batch)];
    RunSnoc(s, first + Publishes(worker, outcomes), last);
    RunConcat(s, first, Publishes(worker, outcomes));
    assert first[1..] == [] && Run(s, first) == Next(s, Begin(worker, batch));
  }

  // ---- What a pass leaves behind ----

  predicate StoredBy(o: Outcome) {
    match o
    case Accepted => true
    case Deduplicated => false
    case Refused(stored) => stored
  }

  // The events of a batch that the broker stores, in order.
  function StoredOf(batch: seq<nat>, outcomes: seq<Outcome>): seq<nat>
    requires |batch| == |outcomes|
  {
    if batch == [] then []
    else
      var n := |batch| - 1;
      var before := StoredOf(batch[..n], outcomes[..n]);
      if StoredBy(outcomes[n]) then before + [batch[n]] else before
  }

  /**
   What a pass does, by the broker's answers: the stream has what was stored, and
   if it commits, each row that was acknowledged is published, each row whose
   refusal was counted has one attempt more and is given up at the tenth, and
   nothing else changes; if it does not commit, no row has changed.
   */
  ghost predicate PassResult(rows: seq<Row>, stream: seq<nat>, batch: seq<nat>, outcomes: seq<Outcome>, uncounted: set<nat>,
                             commits: bool, rows': seq<Row>, stream': seq<nat>)
    requires |batch| == |outcomes| && forall k :: 0 <= k < |batch| ==> batch[k] < |rows|
  {
    && stream' == stream + StoredOf(batch, outcomes)
    && |rows'| == |rows|
    && (!commits ==> rows' == rows)
    && (forall i :: 0 <= i < |rows| && i !in batch ==> rows'[i] == rows[i])
    && (commits ==> forall k :: 0 <= k < |batch| ==>
          var r := rows[batch[k]];
          rows'[batch[k]] == if !outcomes[k].Refused? then r.(published := true)
                             else if batch[k] in uncounted then r
                             else r.(attempts := r.attempts + 1, relayFailed := r.attempts + 1 >= 10))
  }

  function AckedOf(batch: seq<nat>, outcomes: seq<Outcome>, refused: bool): set<nat>
    requires |batch| == |outcomes|
  {
    set k | 0 <= k < |batch| && outcomes[k].Refused? == refused :: batch[k]
  }

  lemma AckedSnoc(batch: seq<nat>, outcomes: seq<Outcome>, i: nat, refused: bool)
    requires i < |batch| == |outcomes|
    ensures AckedOf(batch[..i + 1], outcomes[..i + 1], refused)
         == if outcomes[i].Refused? == refused then AckedOf(batch[..i], outcomes[..i], refused) + {batch[i]}
            else AckedOf(batch[..i], outcomes[..i], refused)
  {
    var b, o := batch[..i + 1], outcomes[..i + 1];
    assert forall k :: 0 <= k < i ==> b[k] == batch[..i][k] && o[k] == outcomes[..i][k];
    assert b[i] == batch[i] && o[i] == outcomes[i];
    forall x
      ensures x in AckedOf(b, o, refused) <==>
        x in AckedOf(batch[..i], outcomes[..i], refused) || (outcomes[i].Refused? == refused && x == batch[i])
    {
      if x in AckedOf(b, o, refused) {
        var k :| 0 <= k < |b| && o[k].Refused? == refused && b[k] == x;
        assert k < i ==> outcomes[..i][k].Refused? == refused && batch[..i][k] == x;
      }
      if x in AckedOf(batch[..i], outcomes[..i], refused) {
        var k :| 0 <= k < i && outcomes[..i][k].Refused? == refused && batch[..i][k] == x;
        assert o[k].Refused? == refused && b[k] == x;
      }
    }
  }

  lemma StoredSnoc(batch: seq<nat>, outcomes: seq<Outcome>, i: nat)
    requires i < |batch| == |outcomes|
    ensures StoredOf(batch[..i + 1], outcomes[..i + 1])
         == if StoredBy(outcomes[i]) then StoredOf(batch[..i], outcomes[..i]) + [batch[i]] else StoredOf(batch[..i], outcomes[..i])
  {
    assert batch[..i + 1][..i] == batch[..i] && outcomes[..i + 1][..i] == outcomes[..i];
  }

  function Pass(rows: seq<Row>, stream: seq<nat>, txs: map<nat, Tx>, worker: nat, tx: Tx): State {
    State(rows, stream, txs[worker := tx])
  }

  // One publish of a pass.
  lemma PublishedOne(rows: seq<Row>, stream: seq<nat>, txs: map<nat, Tx>, worker: nat, tx: Tx, outcome: Outcome)
    requires tx.tried < |tx.batch| && (outcome.Deduplicated? ==> tx.batch[tx.tried] in stream)
    ensures var id := tx.batch[tx.tried];
      Next(Pass(rows, stream, txs, worker, tx), Publish(worker, outcome))
        == Pass(rows, if StoredBy(outcome) then stream + [id] else stream, txs, worker,
                Tx(tx.batch, tx.tried + 1,
                   if outcome.Refused? then tx.sent else tx.sent + {id},
                   if outcome.Refused? then tx.refused + {id} else tx.refused))
  {
    var s := Pass(rows, stream, txs, worker, tx);
    assert s.txs[worker] == tx;
    assert Next(s, Publish(worker, outcome)) == PublishNext(s, worker, outcome);
    var after := Next(s, Publish(worker, outcome)).txs[worker];
    assert txs[worker := tx][worker := after] == txs[worker := after];
  }

  function PassTx(batch: seq<nat>, outcomes: seq<Outcome>, i: nat): Tx
    requires i <= |batch| == |outcomes|
  {
    Tx(batch, i, AckedOf(batch[..i], outcomes[..i], false), AckedOf(batch[..i], outcomes[..i], true))
  }

  // The state after the first i publishes of a pass.
  ghost predicate PublishedAt(s: State, worker: nat, batch: seq<nat>, outcomes: seq<Outcome>, i: nat)
    requires i <= |batch| == |outcomes|
  {
    Run(s, Publishes(worker, outcomes[..i]))
      == Pass(s.rows, s.stream + StoredOf(batch[..i], outcomes[..i]), s.txs, worker, PassTx(batch, outcomes, i))
  }

  lemma PublishedNext(s: State, worker: nat, batch: seq<nat>, outcomes: seq<Outcome>, i: nat)
    requires i < |batch| == |outcomes| && PublishedAt(s, worker, batch, outcomes, i)
    requires outcomes[i].Deduplicated? ==> batch[i] in s.stream
    ensures PublishedAt(s, worker, batch, outcomes, i + 1)
  {
    hide Run, Next, Pass, StoredOf, AckedOf;
    var e := Publish(worker, outcomes[i]);
    assert Publishes(worker, outcomes[..i + 1]) == Publishes(worker, outcomes[..i]) + [e];
    RunSnoc(s, Publishes(worker, outcomes[..i]), e);
    AckedSnoc(batch, outcomes, i, false);
    AckedSnoc(batch, outcomes, i, true);
    StoredSnoc(batch, outcomes, i);
    var stored := StoredOf(batch[..i], outcomes[..i]);
    PublishedOne(s.rows, s.stream + stored, s.txs, worker, PassTx(batch, outcomes, i), outcomes[i]);
    assert s.stream + stored + [batch[i]] == s.stream + (stored + [batch[i]]);
  }

  lemma {:induction false} Published(s: State, worker: nat, batch: seq<nat>, outcomes: seq<Outcome>, i: nat)
    requires worker in s.txs && s.txs[worker] == Tx(batch, 0, {}, {}) && i <= |batch| == |outcomes|
    requires forall k :: 0 <= k < |outcomes| && outcomes[k].Deduplicated? ==> batch[k] in s.stream
    ensures PublishedAt(s, worker, batch, outcomes, i)
  {
    if i == 0 {
      assert Publishes(worker, outcomes[..0]) == [];
      assert AckedOf([], [], false) == {} && AckedOf([], [], true) == {};
      assert s.txs[worker := Tx(batch, 0, {}, {})] == s.txs;
    } else {
      Published(s, worker, batch, outcomes, i - 1);
      PublishedNext(s, worker, batch, outcomes, i - 1);
    }
  }

  lemma PassExactly(s: State, worker: nat, batch: seq<nat>, outcomes: seq<Outcome>, uncounted: set<nat>, commits: bool)
    requires Inv(s) && worker !in s.txs && Fetchable(s, batch) && |outcomes| == |batch|
    requires forall k :: 0 <= k < |outcomes| && outcomes[k].Deduplicated? ==> batch[k] in s.stream
    ensures var s' := Run(s, PassEvents(worker, batch, outcomes, uncounted, commits));
      PassResult(s.rows, s.stream, batch, outcomes, uncounted, commits, s'.rows, s'.stream)
  {
    hide Run, Next, Inv, Fetchable, StoredOf, AckedOf, SettleAll;
    BeginOpens(s, worker, batch);
    var s1 := Next(s, Begin(worker, batch));
    Published(s1, worker, batch, outcomes, |batch|);
    assert outcomes[..|batch|] == outcomes && batch[..|batch|] == batch;
    PassSplits(s, worker, batch, outcomes, uncounted, commits);
    var s2 := Run(s1, Publishes(worker, outcomes));
    assert s2.txs[worker] == PassTx(batch, outcomes, |batch|);
    CommitOrRollback(s2, worker, uncounted);
    BatchRows(s, batch);
    if commits {
      SettledIs(s.rows, batch, outcomes, uncounted);
    }
  }

  lemma BatchRows(s: State, batch: seq<nat>)
    requires Fetchable(s, batch)
    ensures Distinct(batch) && forall k :: 0 <= k < |batch| ==> batch[k] < |s.rows|
  {
  }

  lemma SettledIs(rows: seq<Row>, batch: seq<nat>, outcomes: seq<Outcome>, uncounted: set<nat>)
    requires Distinct(batch) && |batch| == |outcomes| && forall k :: 0 <= k < |batch| ==> batch[k] < |rows|
    ensures var rows' := SettleAll(rows, AckedOf(batch, outcomes, false), AckedOf(batch, outcomes, true) - uncounted);
      && (forall i :: 0 <= i < |rows| && i !in batch ==> rows'[i] == rows[i])
      && (forall k :: 0 <= k < |batch| ==>
            var r := rows[batch[k]];
            rows'[batch[k]] == if !outcomes[k].Refused? then r.(published := true)
                               else if batch[k] in uncounted then r
                               else r.(attempts := r.attempts + 1, relayFailed := r.attempts + 1 >= 10))
  {
    forall k | 0 <= k < |batch|
      ensures batch[k] in AckedOf(batch, outcomes, false) <==> !outcomes[k].Refused?
      ensures batch[k] in AckedOf(batch, outcomes, true) <==> outcomes[k].Refused?
    {
    }
  }

  class OutboxRelay {
    const workerCount: nat
    // The table, the stream, and the open transactions of all workers of all processes.
    var rows: seq<Row>
    var stream: seq<nat>
    var txs: map<nat, Tx>
    // The poll loop of this worker.
    var batchSize: nat
    var interval: nat

    ghost function State(): State
      reads this
    {
      Outbox.State(rows, stream, txs)
    }

    constructor (workerCount: nat)
      ensures State() == Empty && this.workerCount == workerCount && PollSane()
      ensures batchSize == BASE_BATCH_SIZE && interval == BASE_INTERVAL
    {
      this.workerCount := workerCount;
      rows, stream, txs := [], [], map[];
      batchSize, interval := BASE_BATCH_SIZE, BASE_INTERVAL;
    }

    // Publish one event of the worker's open transaction.
    method PublishOne(worker: nat, outcome: Outcome)
      requires Enabled(State(), Publish(worker, outcome))
      modifies this`stream, this`txs
      ensures State() == Next(old(State()), Publish(worker, outcome))
    {
      var tx := txs[worker];
      var id := tx.batch[tx.tried];
      match outcome
      case Refused(stored) =>
        if stored {
          stream := stream + [id];
        }
        txs := txs[worker := tx.(tried := tx.tried + 1, refused := tx.refused + {id})];
      case Accepted =>
        stream := stream + [id];
        txs := txs[worker := tx.(tried := tx.tried + 1, sent := tx.sent + {id})];
      case Deduplicated =>
        txs := txs[worker := tx.(tried := tx.tried + 1, sent := tx.sent + {id})];
    }

    // The transaction's view of the table after counting the refusals and
    // marking the published rows.
    method SettleRows(tx: Tx, uncounted: set<nat>) returns (settled: seq<Row>)
      requires TxGood(State(), tx) && tx.tried == |tx.batch|
      ensures settled == SettleAll(rows, tx.sent, tx.refused - uncounted)
    {
      settled := rows;
      var i := 0;
      while i < |tx.batch|
        invariant 0 <= i <= |tx.batch| && |settled| == |rows|
        invariant forall j :: 0 <= j < |rows| ==>
          settled[j] == Settle(rows[j], false, j in tx.batch[..i] && j in tx.refused - uncounted)
      {
        var id := tx.batch[i];
        assert tx.batch[..i + 1] == tx.batch[..i] + [id];
        if id in tx.refused && id !in uncounted {
          var attempts := settled[id].attempts + 1;
          settled := settled[id := settled[id].(attempts := attempts, relayFailed := attempts >= MAX_RELAY_ATTEMPTS)];
        }
        i := i + 1;
      }
      assert tx.batch[..i] == tx.batch;
      ghost var counted := settled;
      i := 0;
      while i < |tx.batch|
        invariant 0 <= i <= |tx.batch| && |settled| == |rows|
        invariant forall j :: 0 <= j < |rows| ==>
          settled[j] == if j in tx.batch[..i] && j in tx.sent then rows[j].(published := true) else counted[j]
      {
        var id := tx.batch[i];
        assert tx.batch[..i + 1] == tx.batch[..i] + [id];
        if id in tx.sent {
          settled := settled[id := settled[id].(published := true)];
        }
        i := i + 1;
      }
    }

    // Publish the fetched batch, one event at a time; a refusal does not stop the rest.
    method PublishAll(worker: nat, outcomes: seq<Outcome>) returns (published: nat)
      requires Inv(State()) && worker in txs && |outcomes| == |txs[worker].batch|
      requires txs[worker].tried == 0 && txs[worker].sent == {}
      requires forall i :: 0 <= i < |outcomes| && outcomes[i].Deduplicated? ==> txs[worker].batch[i] in stream
      modifies this`stream, this`txs
      ensures Inv(State()) && State() == Run(old(State()), Publishes(worker, outcomes))
      ensures worker in txs && txs[worker].tried == |txs[worker].batch|
      ensures published == |txs[worker].sent| == Sent(outcomes, |outcomes|)
    {
      hide Inv, Next;
      ghost var s0 := State();
      var n := |outcomes|;
      published := 0;
      var i := 0;
      while i < n
        invariant 0 <= i <= n
        invariant Inv(State()) && State() == Run(s0, Publishes(worker, outcomes[..i]))
        invariant worker in txs && txs[worker].batch == s0.txs[worker].batch && txs[worker].tried == i
        invariant published == |txs[worker].sent| == Sent(outcomes, i)
        invariant forall id :: id in s0.stream ==> id in stream
      {
        var e := Publish(worker, outcomes[i]);
        PublishSteps(State(), worker, outcomes[i]);
        RunSnoc(s0, Publishes(worker, outcomes[..i]), e);
        assert Publishes(worker, outcomes[..i + 1]) == Publishes(worker, outcomes[..i]) + [e];
        NextKeepsInv(State(), e);
        PublishOne(worker, outcomes[i]);
        if !outcomes[i].Refused? {
          published := published + 1;
        }
        i := i + 1;
      }
      assert outcomes[..i] == outcomes;
    }

    // Count the refusals, mark the published rows, and commit or roll back.
    method Finish(worker: nat, uncounted: set<nat>, markBreaks: bool, commitFails: bool)
      requires Inv(State()) && worker in txs && txs[worker].tried == |txs[worker].batch|
      modifies this`rows, this`txs
      ensures Inv(State())
      ensures State() == Next(old(State()), if commitFails || markBreaks then Rollback(worker) else Commit(worker, uncounted))
    {
      ghost var last := if commitFails || markBreaks then Rollback(worker) else Commit(worker, uncounted);
      ghost var s := State();
      NextKeepsInv(s, last);
      CommitOrRollback(s, worker, uncounted);
      assert TxGood(s, txs[worker]);
      hide Inv, Next, TxGood, SettleAll;
      if !markBreaks {
        var settled := SettleRows(txs[worker], uncounted);
        if !commitFails {
          rows := settled;
        }
      }
      txs := txs - {worker};
    }

    /**
     relay: one pass of a worker, which is counted over all processes. The broker's answer to each publish, and which
     of the database operations fail, are given. The result is the number of
     rows marked, even when the commit that follows fails.
     */
    method Relay(worker: nat, limit: nat, breakerOpen: bool, fetchFails: bool, outcomes: seq<Outcome>,
                 uncounted: set<nat>, markFails: bool, commitFails: bool)
      returns (published: nat)
      requires Inv(State()) && worker !in txs
      requires |outcomes| == |Fetch(State(), WorkerOf(worker, workerCount), workerCount, limit)|
      requires forall i :: 0 <= i < |outcomes| && outcomes[i].Deduplicated?
                 ==> Fetch(State(), WorkerOf(worker, workerCount), workerCount, limit)[i] in stream
      modifies this`rows, this`stream, this`txs
      ensures Inv(State())
      ensures var batch := Fetch(old(State()), WorkerOf(worker, workerCount), workerCount, limit);
        if breakerOpen || fetchFails || batch == [] then State() == old(State()) && published == 0
        else
          var sent := Sent(outcomes, |outcomes|);
          var commits := !commitFails && !(markFails && sent > 0);
          && State() == Run(old(State()), PassEvents(worker, batch, outcomes, uncounted, commits))
          && published == (if markFails then 0 else sent)
          && (forall k :: 0 <= k < |batch| ==> batch[k] < |old(rows)|)
          && PassResult(old(rows), old(stream), batch, outcomes, uncounted, commits, rows, stream)
    {
      published := 0;
      if breakerOpen || fetchFails {
        return;
      }
      ghost var s0 := State();
      FetchExact(s0, WorkerOf(worker, workerCount), workerCount, limit);
      var batch := Fetch(Outbox.State(rows, stream, txs), WorkerOf(worker, workerCount), workerCount, limit);
      if batch == [] {
        return;
      }
      PassExactly(s0, worker, batch, outcomes, uncounted, true);
      PassExactly(s0, worker, batch, outcomes, uncounted, false);
      hide Inv, Next, Fetchable, PassResult;
      BeginOpens(s0, worker, batch);
      txs := txs[worker := Tx(batch, 0, {}, {})];
      published := PublishAll(worker, outcomes);
      var markBreaks := markFails && published > 0;
      Finish(worker, uncounted, markBreaks, commitFails);
      PassSplits(s0, worker, batch, outcomes, uncounted, !commitFails && !markBreaks);
      if markFails {
        published := 0;
      }
    }

    // ---- runWorker ----

    predicate PollSane()
      reads this
    {
      && (batchSize == BASE_BATCH_SIZE || batchSize == 200 || batchSize == 400 || batchSize == MAX_BATCH_SIZE)
      && interval <= MAX_INTERVAL
    }

    /**
     The decisions of runWorker after a pass; `jittered` is the doubled interval
     after random jitter.
     */
    method AfterPass(published: nat, jittered: nat)
      requires PollSane()
      modifies this`batchSize, this`interval
      ensures PollSane()
      ensures batchSize == if published == old(batchSize) then Min(old(batchSize) * BACKOFF_MULTIPLIER, MAX_BATCH_SIZE)
                           else BASE_BATCH_SIZE
      ensures interval == if published > 0 then BASE_INTERVAL else Min(jittered, MAX_INTERVAL)
    {
      if published == batchSize {
        batchSize := batchSize * BACKOFF_MULTIPLIER;
        if batchSize > MAX_BATCH_SIZE {
          batchSize := MAX_BATCH_SIZE;
        }
        interval := BASE_INTERVAL;
      } else if published == 0 {
        batchSize := BASE_BATCH_SIZE;
        interval := jittered;
        if interval > MAX_INTERVAL {
          interval := MAX_INTERVAL;
        }
      } else {
        batchSize := BASE_BATCH_SIZE;
        interval := BASE_INTERVAL;
      }
    }
  }

  function Min(a: nat, b: nat): nat {
    if a < b then a else b
  }

  // How many of the first n publishes were acknowledged.
  function Sent(outcomes: seq<Outcome>, n: nat): nat
    requires n <= |outcomes|
  {
    if n == 0 then 0 else Sent(outcomes, n - 1) + (if outcomes[n - 1].Refused? then 0 else 1)
  }
}
