/**
 The query that fetches a worker's batch (internal/adapter/postgres/queries/outbox.sql),
 and what follows for runs in which every batch comes from it, with any number of
 relay processes that each run workers 0, ..., workerCount - 1.
 */
module OutboxQuery {
  import opened Outbox

  // abs(hashtext(entity_id)) % workerCount = workerID, when there are several workers.
  predicate Mine(r: Row, worker: nat, workerCount: nat) {
    workerCount <= 1 || r.shard % workerCount == worker
  }

  // A row the query may return.
  predicate Candidate(s: State, worker: nat, workerCount: nat, id: nat) {
    id < |s.rows| && Eligible(s.rows[id]) && !Locked(s, id) && Mine(s.rows[id], worker, workerCount)
  }

  function FetchFrom(s: State, worker: nat, workerCount: nat, limit: nat, from: nat): seq<nat>
    decreases |s.rows| - from
  {
    if from >= |s.rows| || limit == 0 then []
    else if Candidate(s, worker, workerCount, from) then
      [from] + FetchFrom(s, worker, workerCount, limit - 1, from + 1)
    else FetchFrom(s, worker, workerCount, limit, from + 1)
  }

  function Fetch(s: State, worker: nat, workerCount: nat, limit: nat): seq<nat> {
    FetchFrom(s, worker, workerCount, limit, 0)
  }

  // How many candidates there are at positions from, ..., to - 1.
  function Candidates(s: State, worker: nat, workerCount: nat, from: nat, to: nat): nat
    decreases to - from
  {
    if from >= to then 0
    else (if Candidate(s, worker, workerCount, from) then 1 else 0) + Candidates(s, worker, workerCount, from + 1, to)
  }

  lemma {:induction false} FetchFromExact(s: State, worker: nat, workerCount: nat, limit: nat, from: nat, id: nat)
    ensures id in FetchFrom(s, worker, workerCount, limit, from) <==>
      from <= id && Candidate(s, worker, workerCount, id) && Candidates(s, worker, workerCount, from, id) < limit
    decreases |s.rows| - from
  {
    if from < |s.rows| && limit > 0 {
      FetchFromExact(s, worker, workerCount, limit - 1, from + 1, id);
      FetchFromExact(s, worker, workerCount, limit, from + 1, id);
      hide Candidate;
    }
  }

  lemma {:induction false} FetchFromAscends(s: State, worker: nat, workerCount: nat, limit: nat, from: nat)
    ensures var b := FetchFrom(s, worker, workerCount, limit, from);
      && (forall i :: 0 <= i < |b| ==> from <= b[i])
      && (forall i, j :: 0 <= i < j < |b| ==> b[i] < b[j])
      && |b| == if Candidates(s, worker, workerCount, from, |s.rows|) < limit
                then Candidates(s, worker, workerCount, from, |s.rows|) else limit
    decreases |s.rows| - from
  {
    hide Candidate;
    if from < |s.rows| && limit > 0 {
      FetchFromAscends(s, worker, workerCount, limit - 1, from + 1);
      FetchFromAscends(s, worker, workerCount, limit, from + 1);
    }
  }

  /**
   The query returns exactly the first `limit` rows that it may: those that are
   eligible, not locked and in the worker's shards, in sequence order.
   */
  lemma FetchExact(s: State, worker: nat, workerCount: nat, limit: nat)
    ensures var b := Fetch(s, worker, workerCount, limit);
      && Fetchable(s, b)
      && (forall i, j :: 0 <= i < j < |b| ==> b[i] < b[j])
      && (forall id :: id in b <==>
            Candidate(s, worker, workerCount, id) && Candidates(s, worker, workerCount, 0, id) < limit)
      && |b| == if Candidates(s, worker, workerCount, 0, |s.rows|) < limit
                then Candidates(s, worker, workerCount, 0, |s.rows|) else limit
  {
    var b := Fetch(s, worker, workerCount, limit);
    FetchFromAscends(s, worker, workerCount, limit, 0);
    forall id: nat
      ensures id in b <==> Candidate(s, worker, workerCount, id) && Candidates(s, worker, workerCount, 0, id) < limit
    {
      FetchFromExact(s, worker, workerCount, limit, 0, id);
    }
    forall i | 0 <= i < |b|
      ensures Candidate(s, worker, workerCount, b[i])
    {
      assert b[i] in b;
    }
  }

  lemma {:induction false} FewerBefore(s: State, worker: nat, workerCount: nat, from: nat, id: nat, later: nat)
    requires id <= later
    ensures Candidates(s, worker, workerCount, from, id) <= Candidates(s, worker, workerCount, from, later)
    decreases later - from
  {
    if from < id {
      FewerBefore(s, worker, workerCount, from + 1, id, later);
    }
  }

  // A fetched row's earlier candidates are fetched before it.
  lemma SkipsNone(s: State, worker: nat, workerCount: nat, limit: nat, k: nat, id: nat)
    requires k < |Fetch(s, worker, workerCount, limit)| && id < Fetch(s, worker, workerCount, limit)[k]
    requires Candidate(s, worker, workerCount, id)
    ensures id in Fetch(s, worker, workerCount, limit)[..k]
  {
    hide Candidate;
    var b := Fetch(s, worker, workerCount, limit);
    FetchExact(s, worker, workerCount, limit);
    assert b[k] in b;
    FewerBefore(s, worker, workerCount, 0, id, b[k]);
    assert id in b;
    var i :| 0 <= i < |b| && b[i] == id;
    assert i < k;
  }

  /** A row that may be fetched is fetched, or others before it are: the query never comes back empty-handed. */
  lemma FetchesSomething(s: State, worker: nat, workerCount: nat, limit: nat, id: nat)
    requires Candidate(s, worker, workerCount, id) && limit > 0
    ensures Fetch(s, worker, workerCount, limit) != []
  {
    FetchExact(s, worker, workerCount, limit);
    FewerBefore(s, worker, workerCount, 0, id + 1, |s.rows|);
    CountsCandidate(s, worker, workerCount, 0, id);
  }

  lemma {:induction false} CountsCandidate(s: State, w: nat, workerCount: nat, from: nat, id: nat)
    requires from <= id && Candidate(s, w, workerCount, id)
    ensures Candidates(s, w, workerCount, from, id + 1) > 0
    decreases id - from
  {
    if from < id {
      CountsCandidate(s, w, workerCount, from + 1, id);
    }
  }

  // ---- Runs in which every batch comes from the query ----

  // The number within its process of a worker counted over all processes.
  function WorkerOf(w: nat, workerCount: nat): nat {
    if workerCount <= 1 then 0 else w % workerCount
  }

  ghost predicate Queried(s: State, e: Event, workerCount: nat) {
    e.Begin? ==> exists limit: nat :: limit > 0 && e.batch == Fetch(s, WorkerOf(e.worker, workerCount), workerCount, limit)
  }

  ghost predicate QueriedRun(s: State, events: seq<Event>, workerCount: nat)
    decreases |events|
  {
    events == [] || (Queried(s, events[0], workerCount) && QueriedRun(Next(s, events[0]), events[1..], workerCount))
  }

  // The rows that a fetch cannot see or take, by worker, as of its last fetch.
  type Misses = map<nat, set<nat>>

  ghost function MissedAt(s: State): set<nat> {
    set id | 0 <= id < |s.rows| && (Locked(s, id) || s.rows[id].writer == Open)
  }

  ghost function Track(s: State, missed: Misses, e: Event): Misses {
    if e.Begin? && Enabled(s, e) then missed[e.worker := MissedAt(s)] else missed
  }

  ghost function Tracked(s: State, missed: Misses, events: seq<Event>): Misses
    decreases |events|
  {
    if events == [] then missed else Tracked(Next(s, events[0]), Track(s, missed, events[0]), events[1..])
  }

  // A row to be relayed now, or perhaps later.
  predicate Relayable(r: Row) {
    Eligible(r) || r.writer == Open
  }

  // An open batch is in sequence order, keeps to its worker's shards, and skips
  // none of their rows but those that the fetch missed.
  ghost predicate BatchGood(s: State, w: nat, workerCount: nat, batch: seq<nat>, missed: set<nat>) {
    && (forall k :: 0 <= k < |batch| ==> batch[k] < |s.rows| && Mine(s.rows[batch[k]], WorkerOf(w, workerCount), workerCount))
    && (forall i, j :: 0 <= i < j < |batch| ==> batch[i] < batch[j])
    && (forall k, id: nat | 0 <= k < |batch| && id < batch[k] < |s.rows| ::
          Mine(s.rows[id], WorkerOf(w, workerCount), workerCount) && Relayable(s.rows[id]) ==> id in batch[..k] || id in missed)
  }

  ghost predicate BatchesGood(s: State, workerCount: nat, missed: Misses) {
    forall w :: w in s.txs ==> w in missed && BatchGood(s, w, workerCount, s.txs[w].batch, missed[w])
  }

  // Rows keep their entities and shards, and once decided never become relayable again.
  ghost predicate Ages(s: State, s': State) {
    && |s.rows| <= |s'.rows|
    && forall id :: 0 <= id < |s.rows| ==>
         && s'.rows[id].entity == s.rows[id].entity && s'.rows[id].shard == s.rows[id].shard
         && (Relayable(s'.rows[id]) ==> Relayable(s.rows[id]))
         && (s'.rows[id].writer == Open ==> s.rows[id].writer == Open)
         && (s.rows[id].writer == Committed ==> s'.rows[id].writer == Committed)
  }

  lemma NextAges(s: State, e: Event)
    requires Inv(s)
    ensures Ages(s, Next(s, e)) && (!e.Insert? ==> |Next(s, e).rows| == |s.rows|)
  {
    match e
    case Insert(_, _) =>
    case Appear(_) =>
    case Abort(_) =>
    case Begin(_, _) =>
    case Publish(_, _) =>
    case Commit(w, _) => assert w in s.txs ==> TxGood(s, s.txs[w]);
    case Rollback(_) =>
    case Cleanup(_) =>
  }

  lemma AgesKeepsBatch(s: State, s': State, w: nat, workerCount: nat, batch: seq<nat>, missed: set<nat>)
    requires Ages(s, s') && BatchGood(s, w, workerCount, batch, missed)
    ensures BatchGood(s', w, workerCount, batch, missed)
  {
    hide Relayable;
  }

  lemma FetchGood(s: State, w: nat, workerCount: nat, limit: nat)
    ensures BatchGood(s, w, workerCount, Fetch(s, WorkerOf(w, workerCount), workerCount, limit), MissedAt(s))
  {
    var worker := WorkerOf(w, workerCount);
    var b := Fetch(s, worker, workerCount, limit);
    FetchExact(s, worker, workerCount, limit);
    forall k | 0 <= k < |b|
      ensures Candidate(s, worker, workerCount, b[k])
    {
      assert b[k] in b;
    }
    forall k, id: nat | 0 <= k < |b| && id < b[k] < |s.rows| && Mine(s.rows[id], worker, workerCount) && Relayable(s.rows[id])
      ensures id in b[..k] || id in MissedAt(s)
    {
      if Candidate(s, worker, workerCount, id) {
        SkipsNone(s, worker, workerCount, limit, k, id);
      }
    }
  }

  lemma NextKeepsBatches(s: State, e: Event, workerCount: nat, missed: Misses)
    requires Inv(s) && BatchesGood(s, workerCount, missed) && Queried(s, e, workerCount)
    ensures BatchesGood(Next(s, e), workerCount, Track(s, missed, e))
  {
    hide Next, BatchGood, Inv, Enabled, Queried, MissedAt, Ages;
    var s' := Next(s, e);
    NextAges(s, e);
    BatchesFrom(s, e);
    if e.Begin? {
      FetchedGood(s, e, workerCount);
    }
    forall w | w in s'.txs
      ensures w in Track(s, missed, e) && BatchGood(s', w, workerCount, s'.txs[w].batch, Track(s, missed, e)[w])
    {
      AgesKeepsBatch(s, s', w, workerCount, s'.txs[w].batch, Track(s, missed, e)[w]);
    }
  }

  lemma FetchedGood(s: State, e: Event, workerCount: nat)
    requires e.Begin? && Queried(s, e, workerCount)
    ensures BatchGood(s, e.worker, workerCount, e.batch, MissedAt(s))
  {
    var limit: nat :| limit > 0 && e.batch == Fetch(s, WorkerOf(e.worker, workerCount), workerCount, limit);
    FetchGood(s, e.worker, workerCount, limit);
  }

  // A batch open after a step was open before it, or has just been fetched.
  lemma BatchesFrom(s: State, e: Event)
    ensures forall w :: w in Next(s, e).txs ==>
      || (w in s.txs && Next(s, e).txs[w].batch == s.txs[w].batch && !(e.Begin? && Enabled(s, e) && w == e.worker))
      || (e.Begin? && Enabled(s, e) && w == e.worker && Next(s, e).txs[w].batch == e.batch)
  {
  }

  lemma {:induction false} QueriedRunKeeps(s: State, events: seq<Event>, workerCount: nat, missed: Misses)
    requires Inv(s) && BatchesGood(s, workerCount, missed) && QueriedRun(s, events, workerCount)
    ensures Inv(Run(s, events)) && BatchesGood(Run(s, events), workerCount, Tracked(s, missed, events))
    decreases |events|
  {
    hide Inv, BatchesGood, Next, Track;
    if events != [] {
      NextKeepsInv(s, events[0]);
      NextKeepsBatches(s, events[0], workerCount, missed);
      QueriedRunKeeps(Next(s, events[0]), events[1..], workerCount, Track(s, missed, events[0]));
    }
  }

  // ---- One process ----

  // The only relay process is one with workers 0, ..., workerCount - 1.
  predicate OneProcess(events: seq<Event>, workerCount: nat) {
    forall i :: 0 <= i < |events| && events[i].Begin? ==> events[i].worker < workerCount
  }

  // ... so rows are locked by the worker of their shard only.
  ghost predicate OwnLocks(s: State, workerCount: nat) {
    forall w :: w in s.txs ==> w < workerCount && forall id :: id in s.txs[w].batch ==>
      id < |s.rows| && Mine(s.rows[id], w, workerCount)
  }

  lemma OneProcessStep(s: State, e: Event, workerCount: nat)
    requires Inv(s) && OwnLocks(s, workerCount) && Queried(s, e, workerCount) && (e.Begin? ==> e.worker < workerCount)
    ensures OwnLocks(Next(s, e), workerCount)
  {
    hide Next, Inv, Queried, Enabled, Relayable, Mine;
    NextAges(s, e);
    BatchesFrom(s, e);
    if e.Begin? {
      FetchesOwn(s, e, workerCount);
    }
    assert forall id :: 0 <= id < |s.rows| ==> Next(s, e).rows[id].shard == s.rows[id].shard;
    MineByShard(s, Next(s, e), workerCount);
  }

  // What a worker fetches is of its own shards.
  lemma FetchesOwn(s: State, e: Event, workerCount: nat)
    requires e.Begin? && Queried(s, e, workerCount) && e.worker < workerCount
    ensures forall id :: id in e.batch ==> id < |s.rows| && Mine(s.rows[id], e.worker, workerCount)
  {
    var limit: nat :| limit > 0 && e.batch == Fetch(s, WorkerOf(e.worker, workerCount), workerCount, limit);
    FetchExact(s, WorkerOf(e.worker, workerCount), workerCount, limit);
    WithinProcess(e.worker, workerCount);
    hide Fetch, WorkerOf, Mine;
  }

  lemma WithinProcess(w: nat, workerCount: nat)
    requires w < workerCount
    ensures WorkerOf(w, workerCount) == w
  {
  }

  lemma MineByShard(s: State, s': State, workerCount: nat)
    requires |s.rows| <= |s'.rows| && forall id :: 0 <= id < |s.rows| ==> s'.rows[id].shard == s.rows[id].shard
    ensures forall id: nat, w: nat :: id < |s.rows| && Mine(s.rows[id], w, workerCount) ==> Mine(s'.rows[id], w, workerCount)
  {
  }

  lemma OthersLockOthers(s: State, w: nat, workerCount: nat, id: nat)
    requires OwnLocks(s, workerCount) && w < workerCount && w !in s.txs
    requires id < |s.rows| && Mine(s.rows[id], w, workerCount)
    ensures !Locked(s, id)
  {
  }
}
