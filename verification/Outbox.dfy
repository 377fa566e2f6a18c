/**
 The transactional outbox and its relay workers (internal/adapter/nats/outbox_relay.go,
 internal/adapter/postgres/outbox_repo.go and queries/outbox.sql). Several
 workers of several processes run at once; each publish, commit, roll-back and
 crash is the environment's choice.

 An event is named by its position in sequence order, which it gets when its row
 is written; the row becomes visible when the writer's transaction commits. The
 table commits or rolls back; the stream only grows.
 */
module Outbox {
  const MAX_RELAY_ATTEMPTS: nat := 10

  // Whether the transaction that wrote a row is still open, has committed or was rolled back.
  datatype Writer = Open | Committed | Aborted

  // `shard` is the hash of the entity that the row's event is about.
  datatype Row = Row(entity: nat, shard: nat, writer: Writer, attempts: nat, published: bool, relayFailed: bool, deleted: bool)

  function NewRow(entity: nat, shard: nat): Row {
    Row(entity, shard, Open, 0, false, false, false)
  }

  // Accepted: stored by the broker. Deduplicated: acknowledged as seen before.
  // Refused: reported as failed, though the broker may have stored it.
  datatype Outcome = Accepted | Deduplicated | Refused(stored: bool)

  // An open relay transaction: its locked rows, how many were tried, and the
  // results. Transactions are told apart by the worker that runs them, counted
  // over all processes.
  datatype Tx = Tx(batch: seq<nat>, tried: nat, sent: set<nat>, refused: set<nat>)

  datatype State = State(rows: seq<Row>, stream: seq<nat>, txs: map<nat, Tx>)

  datatype Event =
    | Insert(entity: nat, shard: nat)
    | Appear(id: nat)                            // the writer of a row commits
    | Abort(id: nat)                             // ... or rolls back
    | Begin(worker: nat, batch: seq<nat>)
    | Publish(worker: nat, outcome: Outcome)
    | Commit(worker: nat, uncounted: set<nat>)   // rows whose attempt could not be counted
    | Rollback(worker: nat)                      // also a crash, or a failed commit
    | Cleanup(ids: set<nat>)

  predicate Eligible(r: Row) {
    r.writer == Committed && !r.published && !r.relayFailed && !r.deleted
  }

  predicate Locked(s: State, id: nat) {
    exists w :: w in s.txs && id in s.txs[w].batch
  }

  predicate Distinct(ids: seq<nat>) {
    forall i, j :: 0 <= i < j < |ids| ==> ids[i] != ids[j]
  }

  // What FOR UPDATE SKIP LOCKED may return.
  predicate Fetchable(s: State, batch: seq<nat>) {
    && Distinct(batch)
    && forall i :: 0 <= i < |batch| ==> batch[i] < |s.rows| && Eligible(s.rows[batch[i]]) && !Locked(s, batch[i])
  }

  // A row after the pass that fetched it: IncrementRelayAttempts and MarkPublishedBatch.
  function Settle(r: Row, sent: bool, counted: bool): Row {
    if sent then r.(published := true)
    else if counted then r.(attempts := r.attempts + 1, relayFailed := r.attempts + 1 >= MAX_RELAY_ATTEMPTS)
    else r
  }

  function SettleAll(rows: seq<Row>, sent: set<nat>, counted: set<nat>): (r: seq<Row>)
    ensures |r| == |rows|
  {
    seq(|rows|, i requires 0 <= i < |rows| => Settle(rows[i], i in sent, i in counted))
  }

  function Delete(rows: seq<Row>, ids: set<nat>): (r: seq<Row>)
    ensures |r| == |rows|
  {
    seq(|rows|, i requires 0 <= i < |rows| =>
      if i in ids && rows[i].published then rows[i].(deleted := true) else rows[i])
  }

  function PublishNext(s: State, worker: nat, outcome: Outcome): State
    requires worker in s.txs && s.txs[worker].tried < |s.txs[worker].batch|
  {
    var tx := s.txs[worker];
    var id := tx.batch[tx.tried];
    if outcome.Refused? then
      s.(stream := if outcome.stored then s.stream + [id] else s.stream,
         txs := s.txs[worker := tx.(tried := tx.tried + 1, refused := tx.refused + {id})])
    else
      s.(stream := if outcome.Accepted? then s.stream + [id] else s.stream,
         txs := s.txs[worker := tx.(tried := tx.tried + 1, sent := tx.sent + {id})])
  }

  // An event that is not possible in a state changes nothing.
  predicate Enabled(s: State, e: Event) {
    match e
    case Insert(entity, shard) => forall i :: 0 <= i < |s.rows| && s.rows[i].entity == entity ==> s.rows[i].shard == shard
    case Appear(id) => id < |s.rows| && s.rows[id].writer == Open
    case Abort(id) => id < |s.rows| && s.rows[id].writer == Open
    case Begin(w, batch) => w !in s.txs && Fetchable(s, batch)
    case Publish(w, outcome) =>
      && w in s.txs && s.txs[w].tried < |s.txs[w].batch|
      && (outcome.Deduplicated? ==> s.txs[w].batch[s.txs[w].tried] in s.stream)
    case Commit(w, _) => w in s.txs && s.txs[w].tried == |s.txs[w].batch|
    case Rollback(w) => w in s.txs
    case Cleanup(_) => true
  }

  function Next(s: State, e: Event): State {
    if !Enabled(s, e) then s else
    match e
    case Insert(entity, shard) => s.(rows := s.rows + [NewRow(entity, shard)])
    case Appear(id) => s.(rows := s.rows[id := s.rows[id].(writer := Committed)])
    case Abort(id) => s.(rows := s.rows[id := s.rows[id].(writer := Aborted)])
    case Begin(w, batch) => s.(txs := s.txs[w := Tx(batch, 0, {}, {})])
    case Publish(w, outcome) => PublishNext(s, w, outcome)
    case Commit(w, uncounted) =>
      s.(rows := SettleAll(s.rows, s.txs[w].sent, s.txs[w].refused - uncounted), txs := s.txs - {w})
    case Rollback(w) => s.(txs := s.txs - {w})
    case Cleanup(ids) => s.(rows := Delete(s.rows, ids))
  }

  function Run(s: State, events: seq<Event>): State
    decreases |events|
  {
    if events == [] then s else Run(Next(s, events[0]), events[1..])
  }

  const Empty := State([], [], map[])

  // ---- Invariant ----

  ghost predicate RowGood(r: Row, inStream: bool) {
    && (r.published ==> inStream)
    && (r.deleted ==> r.published)
    && (!r.published ==> (r.relayFailed <==> r.attempts >= MAX_RELAY_ATTEMPTS))
    && r.attempts <= MAX_RELAY_ATTEMPTS
    && (r.writer != Committed ==> !inStream && r == NewRow(r.entity, r.shard).(writer := r.writer))
  }

  ghost predicate RowsGood(s: State) {
    forall i :: 0 <= i < |s.rows| ==> RowGood(s.rows[i], i in s.stream)
  }

  ghost predicate TxGood(s: State, tx: Tx) {
    && Distinct(tx.batch) && tx.tried <= |tx.batch|
    && (forall i :: 0 <= i < |tx.batch| ==> tx.batch[i] < |s.rows| && Eligible(s.rows[tx.batch[i]]))
    && (forall id :: id in tx.sent ==> id in tx.batch[..tx.tried] && id in s.stream)
    && (forall id :: id in tx.refused ==> id in tx.batch[..tx.tried])
    && (forall i :: 0 <= i < tx.tried ==> (tx.batch[i] in tx.sent <==> tx.batch[i] !in tx.refused))
  }

  ghost predicate TxsGood(s: State) {
    && (forall w :: w in s.txs ==> TxGood(s, s.txs[w]))
    && (forall v, w, id :: v in s.txs && w in s.txs && id in s.txs[v].batch && id in s.txs[w].batch ==> v == w)
  }

  // The stream holds events of the table only, and rows of one entity are in one shard.
  ghost predicate Known(s: State) {
    && (forall id :: id in s.stream ==> id < |s.rows|)
    && (forall i, j :: 0 <= i < j < |s.rows| && s.rows[i].entity == s.rows[j].entity ==> s.rows[i].shard == s.rows[j].shard)
  }

  ghost predicate Inv(s: State) {
    RowsGood(s) && TxsGood(s) && Known(s)
  }

  lemma PublishKeepsInv(s: State, w: nat, outcome: Outcome)
    requires Inv(s) && Enabled(s, Publish(w, outcome))
    ensures Inv(PublishNext(s, w, outcome))
  {
    var s' := PublishNext(s, w, outcome);
    TriedKeepsGood(s, w, outcome);
    PublishEffect(s, w, outcome);
    PublishKeepsRows(s, w, outcome);
    hide TxGood, RowsGood, Known, PublishNext;
    forall v | v in s.txs && v != w
      ensures TxGood(s', s'.txs[v])
    {
      StreamGrows(s, s', s.txs[v]);
    }
  }

  lemma PublishEffect(s: State, w: nat, outcome: Outcome)
    requires Enabled(s, Publish(w, outcome))
    ensures var s', id := PublishNext(s, w, outcome), s.txs[w].batch[s.txs[w].tried];
      && s'.rows == s.rows && (forall x :: x in s.stream ==> x in s'.stream)
      && (forall x :: x in s'.stream ==> x in s.stream || x == id)
      && s'.txs.Keys == s.txs.Keys && s'.txs[w].batch == s.txs[w].batch
      && forall v :: v in s.txs && v != w ==> s'.txs[v] == s.txs[v]
  {
  }

  lemma StreamGrows(s: State, s': State, tx: Tx)
    requires s'.rows == s.rows && forall x :: x in s.stream ==> x in s'.stream
    requires TxGood(s, tx)
    ensures TxGood(s', tx)
  {
  }

  lemma PublishKeepsRows(s: State, w: nat, outcome: Outcome)
    requires Inv(s) && Enabled(s, Publish(w, outcome))
    ensures RowsGood(PublishNext(s, w, outcome)) && Known(PublishNext(s, w, outcome))
  {
    var s' := PublishNext(s, w, outcome);
    PublishEffect(s, w, outcome);
    assert TxGood(s, s.txs[w]);
    hide PublishNext, Distinct;
    forall i | 0 <= i < |s.rows|
      ensures RowGood(s'.rows[i], i in s'.stream)
    {
      assert RowGood(s.rows[i], i in s.stream);
    }
  }

  lemma TriedKeepsGood(s: State, w: nat, outcome: Outcome)
    requires TxsGood(s) && Enabled(s, Publish(w, outcome))
    ensures TxGood(PublishNext(s, w, outcome), PublishNext(s, w, outcome).txs[w])
  {
    var tx := s.txs[w];
    var id := tx.batch[tx.tried];
    var s' := PublishNext(s, w, outcome);
    assert TxGood(s, tx);
    assert tx.batch[..tx.tried + 1] == tx.batch[..tx.tried] + [id];
    assert id !in tx.sent && id !in tx.refused;
    PublishEffect(s, w, outcome);
    var tx' := s'.txs[w];
    assert tx' == if outcome.Refused? then tx.(tried := tx.tried + 1, refused := tx.refused + {id})
                  else tx.(tried := tx.tried + 1, sent := tx.sent + {id});
    assert !outcome.Refused? ==> id in s'.stream;
    hide PublishNext, Enabled, Eligible, TxsGood;
    forall i | 0 <= i < tx'.tried
      ensures tx'.batch[i] in tx'.sent <==> tx'.batch[i] !in tx'.refused
    {
      assert i < tx.tried ==> tx.batch[i] != id;
    }
  }

  lemma CommitKeepsInv(s: State, w: nat, uncounted: set<nat>)
    requires Inv(s) && Enabled(s, Commit(w, uncounted))
    ensures Inv(Next(s, Commit(w, uncounted)))
  {
    var s' := Next(s, Commit(w, uncounted));
    var tx := s.txs[w];
    assert TxGood(s, tx);
    forall i | 0 <= i < |s.rows|
      ensures RowGood(s'.rows[i], i in s'.stream)
      ensures i !in tx.batch ==> s'.rows[i] == s.rows[i]
    {
      assert RowGood(s.rows[i], i in s.stream);
    }
    forall v | v in s'.txs
      ensures TxGood(s', s'.txs[v])
    {
      var other := s.txs[v];
      assert TxGood(s, other);
      forall i | 0 <= i < |other.batch|
        ensures Eligible(s'.rows[other.batch[i]])
      {
        assert other.batch[i] !in tx.batch;
      }
    }
  }

  lemma NextKeepsInv(s: State, e: Event)
    requires Inv(s)
    ensures Inv(Next(s, e))
  {
    if Enabled(s, e) {
      match e
      case Publish(w, outcome) => PublishKeepsInv(s, w, outcome);
      case Commit(w, uncounted) => CommitKeepsInv(s, w, uncounted);
      case Begin(w, batch) => BeginKeepsInv(s, w, batch);
      case Insert(entity, shard) => InsertKeepsInv(s, entity, shard);
      case Appear(id) => DecideKeepsInv(s, id, Committed);
      case Abort(id) => DecideKeepsInv(s, id, Aborted);
      case Rollback(w) =>
      case Cleanup(ids) => CleanupKeepsInv(s, ids);
    }
  }

  lemma BeginKeepsInv(s: State, w: nat, batch: seq<nat>)
    requires Inv(s) && Enabled(s, Begin(w, batch))
    ensures Inv(Next(s, Begin(w, batch)))
  {
    var s' := Next(s, Begin(w, batch));
    forall v, id | v in s.txs && id in s.txs[v].batch
      ensures id !in batch
    {
      assert Locked(s, id);
    }
    forall v | v in s.txs
      ensures TxGood(s', s'.txs[v])
    {
      assert TxGood(s, s.txs[v]);
    }
  }

  lemma DecideKeepsInv(s: State, id: nat, writer: Writer)
    requires Inv(s) && id < |s.rows| && s.rows[id].writer == Open
    ensures Inv(s.(rows := s.rows[id := s.rows[id].(writer := writer)]))
  {
    var s' := s.(rows := s.rows[id := s.rows[id].(writer := writer)]);
    assert RowGood(s.rows[id], id in s.stream);
    forall i | 0 <= i < |s'.rows|
      ensures RowGood(s'.rows[i], i in s'.stream)
    {
      assert RowGood(s.rows[i], i in s.stream);
    }
    forall v | v in s.txs
      ensures TxGood(s', s'.txs[v])
    {
      assert TxGood(s, s.txs[v]);
    }
  }

  lemma InsertKeepsInv(s: State, entity: nat, shard: nat)
    requires Inv(s) && Enabled(s, Insert(entity, shard))
    ensures Inv(Next(s, Insert(entity, shard)))
  {
    var s' := Next(s, Insert(entity, shard));
    assert |s.rows| !in s.stream;
    forall i | 0 <= i < |s'.rows|
      ensures RowGood(s'.rows[i], i in s'.stream)
    {
      assert i < |s.rows| ==> RowGood(s.rows[i], i in s.stream);
    }
    forall v | v in s.txs
      ensures TxGood(s', s'.txs[v])
    {
      assert TxGood(s, s.txs[v]);
    }
  }

  lemma CleanupKeepsInv(s: State, ids: set<nat>)
    requires Inv(s)
    ensures Inv(Next(s, Cleanup(ids)))
  {
    var s' := Next(s, Cleanup(ids));
    forall i | 0 <= i < |s.rows|
      ensures RowGood(s'.rows[i], i in s'.stream)
    {
      assert RowGood(s.rows[i], i in s.stream);
    }
    forall v | v in s.txs
      ensures TxGood(s', s'.txs[v])
    {
      assert TxGood(s, s.txs[v]);
    }
  }

  lemma {:induction false} RunKeepsInv(s: State, events: seq<Event>)
    requires Inv(s)
    ensures Inv(Run(s, events))
    decreases |events|
  {
    if events != [] {
      NextKeepsInv(s, events[0]);
      RunKeepsInv(Next(s, events[0]), events[1..]);
    }
  }

  /**
   The relay never loses an event, whatever fails: an event whose writer committed
   is in the stream, or its row is still eligible, or it has been refused
   MAX_RELAY_ATTEMPTS times. OutboxQuery shows that eligible rows are fetched. A row is marked published, or cleaned
   up, only when the stream has it.
   */
  lemma NeverLost(events: seq<Event>, id: nat)
    requires id < |Run(Empty, events).rows| && Run(Empty, events).rows[id].writer == Committed
    ensures var s := Run(Empty, events);
      && (id in s.stream || Eligible(s.rows[id]) || (s.rows[id].relayFailed && s.rows[id].attempts == MAX_RELAY_ATTEMPTS))
      && (s.rows[id].published || s.rows[id].deleted ==> id in s.stream)
      && (Eligible(s.rows[id]) ==> s.rows[id].attempts < MAX_RELAY_ATTEMPTS)
  {
    RunKeepsInv(Empty, events);
    var s := Run(Empty, events);
    assert RowGood(s.rows[id], id in s.stream);
  }

  /** Cleaning up deletes exactly the rows named that are published. */
  lemma CleanupExactly(s: State, ids: set<nat>, i: nat)
    requires i < |s.rows|
    ensures var s' := Next(s, Cleanup(ids));
      && |s'.rows| == |s.rows| && s'.stream == s.stream && s'.txs == s.txs
      && s'.rows[i] == if i in ids && s.rows[i].published then s.rows[i].(deleted := true) else s.rows[i]
  {
  }

  /** No row is ever in two open transactions. */
  lemma OneWorkerPerRow(events: seq<Event>, v: nat, w: nat, id: nat)
    requires var s := Run(Empty, events);
      v in s.txs && w in s.txs && id in s.txs[v].batch && id in s.txs[w].batch
    ensures v == w
  {
    RunKeepsInv(Empty, events);
  }

  // ---- Draining ----

  // How many more refusals a row can take.
  function Left(r: Row): nat {
    if Eligible(r) && r.attempts < MAX_RELAY_ATTEMPTS then MAX_RELAY_ATTEMPTS - r.attempts else 0
  }

  function Work(rows: seq<Row>): nat {
    if rows == [] then 0 else Work(rows[..|rows| - 1]) + Left(rows[|rows| - 1])
  }

  function Members(ids: set<nat>, n: nat): nat {
    if n == 0 then 0 else Members(ids, n - 1) + (if n - 1 in ids then 1 else 0)
  }

  lemma {:induction false} MembersIsSize(ids: set<nat>, n: nat)
    requires forall id :: id in ids ==> id < n
    ensures Members(ids, n) == |ids|
  {
    if n == 0 {
      assert ids == {};
    } else {
      MembersIsSize(ids - {n - 1}, n - 1);
      MembersAgree(ids, ids - {n - 1}, n - 1);
    }
  }

  lemma {:induction false} MembersAgree(a: set<nat>, b: set<nat>, n: nat)
    requires forall id :: id < n ==> (id in a <==> id in b)
    ensures Members(a, n) == Members(b, n)
  {
    if n > 0 {
      MembersAgree(a, b, n - 1);
    }
  }

  lemma {:induction false} WorkDrops(rows: seq<Row>, rows': seq<Row>, done: set<nat>)
    requires |rows| == |rows'|
    requires forall i :: 0 <= i < |rows| ==> Left(rows'[i]) + (if i in done then 1 else 0) <= Left(rows[i])
    ensures Work(rows') + Members(done, |rows|) <= Work(rows)
  {
    if rows != [] {
      var n := |rows| - 1;
      WorkDrops(rows[..n], rows'[..n], done);
    }
  }

  function Settled(s: State, e: Event): set<nat> {
    if e.Commit? && Enabled(s, e) then s.txs[e.worker].sent + (s.txs[e.worker].refused - e.uncounted) else {}
  }

  // Rows settled by the committed passes of a run.
  function TotalSettled(s: State, events: seq<Event>): nat
    decreases |events|
  {
    if events == [] then 0 else |Settled(s, events[0])| + TotalSettled(Next(s, events[0]), events[1..])
  }

  // Every row a pass has fetched and counted is settled when it commits.
  lemma CommitSettlesBatch(s: State, w: nat)
    requires Inv(s) && Enabled(s, Commit(w, {}))
    ensures |Settled(s, Commit(w, {}))| == |s.txs[w].batch|
  {
    var tx := s.txs[w];
    assert TxGood(s, tx);
    assert tx.batch[..tx.tried] == tx.batch;
    assert Settled(s, Commit(w, {})) == ToSet(tx.batch);
    DistinctSize(tx.batch);
  }

  function ToSet(ids: seq<nat>): set<nat> {
    set id | id in ids
  }

  lemma {:induction false} DistinctSize(ids: seq<nat>)
    requires Distinct(ids)
    ensures |ToSet(ids)| == |ids|
  {
    if ids != [] {
      var n := |ids| - 1;
      DistinctSize(ids[..n]);
      assert ids == ids[..n] + [ids[n]];
      assert ToSet(ids) == ToSet(ids[..n]) + {ids[n]};
      assert ids[n] !in ToSet(ids[..n]);
    }
  }

  // Rows neither appear nor are written.
  predicate NoNews(e: Event) {
    !e.Insert? && !e.Appear?
  }

  lemma StepDrains(s: State, e: Event)
    requires Inv(s) && NoNews(e)
    ensures Work(Next(s, e).rows) + |Settled(s, e)| <= Work(s.rows)
  {
    var s' := Next(s, e);
    var done := Settled(s, e);
    if e.Commit? && Enabled(s, e) {
      var tx := s.txs[e.worker];
      assert TxGood(s, tx);
      forall i | 0 <= i < |s.rows|
        ensures Left(s'.rows[i]) + (if i in done then 1 else 0) <= Left(s.rows[i])
      {
        assert RowGood(s.rows[i], i in s.stream);
      }
      WorkDrops(s.rows, s'.rows, done);
      MembersIsSize(done, |s.rows|);
    } else {
      WorkDrops(s.rows, s'.rows, {});
    }
  }

  /**
   With no new rows the outbox drains: over any run, the rows settled by
   committed passes number at most the refusals still possible at its start,
   so only finitely many committed passes can fetch anything.
   */
  lemma {:induction false} RelayDrains(s: State, events: seq<Event>)
    requires Inv(s) && forall i :: 0 <= i < |events| ==> NoNews(events[i])
    ensures Work(Run(s, events).rows) + TotalSettled(s, events) <= Work(s.rows)
    decreases |events|
  {
    if events != [] {
      StepDrains(s, events[0]);
      NextKeepsInv(s, events[0]);
      RelayDrains(Next(s, events[0]), events[1..]);
    }
  }

  // Nothing is left to fetch exactly when the measure is zero.
  lemma {:induction false} NoWorkNoRows(rows: seq<Row>)
    requires forall i :: 0 <= i < |rows| ==> (Eligible(rows[i]) ==> rows[i].attempts < MAX_RELAY_ATTEMPTS)
    ensures Work(rows) == 0 <==> forall i :: 0 <= i < |rows| ==> !Eligible(rows[i])
  {
    if rows != [] {
      var n := |rows| - 1;
      NoWorkNoRows(rows[..n]);
      assert forall i :: 0 <= i < n ==> rows[..n][i] == rows[i];
    }
  }

  // ---- Runs step by step ----

  lemma RunThree(s: State, events: seq<Event>, c: Event, d: Event, e: Event)
    ensures Run(s, events + [c, d, e]) == Next(Next(Next(Run(s, events), c), d), e)
  {
    RunSnoc(s, events, c);
    RunSnoc(s, events + [c], d);
    RunSnoc(s, events + [c] + [d], e);
    assert events + [c, d, e] == events + [c] + [d] + [e];
  }

  lemma RunTwo(s: State, d: Event, e: Event)
    ensures Run(s, [d, e]) == Next(Next(s, d), e)
  {
    assert [d, e][1..] == [e];
    assert Run(Next(s, d), [e]) == Next(Next(s, d), e);
  }

  lemma {:induction false} RunSnoc(s: State, events: seq<Event>, e: Event)
    ensures Run(s, events + [e]) == Next(Run(s, events), e)
    decreases |events|
  {
    if events == [] {
      assert ([] + [e])[1..] == [];
    } else {
      assert (events + [e])[0] == events[0] && (events + [e])[1..] == events[1..] + [e];
      RunSnoc(Next(s, events[0]), events[1..], e);
    }
  }
}
