/** How many passes of the relay's workers it takes until nothing is left to relay. */
module OutboxDrain {
  import opened Outbox
  import opened OutboxQuery

  // Nothing new appears, and every refusal is counted.
  predicate Closing(events: seq<Event>) {
    forall i :: 0 <= i < |events| ==> NoNews(events[i]) && (events[i].Commit? ==> events[i].uncounted == {})
  }

  // The passes committed in a run that had fetched something.
  function FullPasses(s: State, events: seq<Event>): nat
    decreases |events|
  {
    if events == [] then 0
    else
      var e := events[0];
      (if e.Commit? && Enabled(s, e) && s.txs[e.worker].batch != [] then 1 else 0) + FullPasses(Next(s, e), events[1..])
  }

  lemma {:induction false} FullPassesDrain(s: State, events: seq<Event>)
    requires Inv(s) && Closing(events)
    ensures Work(Run(s, events).rows) + FullPasses(s, events) <= Work(s.rows)
    decreases |events|
  {
    hide Inv, Next, Work, Enabled;
    if events != [] {
      var e := events[0];
      NextKeepsInv(s, e);
      StepDrains(s, e);
      if e.Commit? && Enabled(s, e) {
        CommitSettlesBatch(s, e.worker);
      }
      FullPassesDrain(Next(s, e), events[1..]);
    }
  }

  /**
   The outbox is drained, by any number of processes: after any run, take any
   further run in which nothing new appears and every refusal is counted, however
   its workers interleave and whatever is refused or rolled back. Once it has
   committed as many passes that fetched something as there were refusals left to
   count, no row is eligible.
   */
  lemma OutboxDrained(before: seq<Event>, events: seq<Event>)
    requires var s := Run(Empty, before);
      Closing(events) && FullPasses(s, events) >= Work(s.rows)
    ensures NoneEligible(Run(Run(Empty, before), events))
  {
    RunKeepsInv(Empty, before);
    var s := Run(Empty, before);
    RunKeepsInv(s, events);
    FullPassesDrain(s, events);
    NoWorkNoneEligible(Run(s, events));
  }

  ghost predicate NoneEligible(s: State) {
    forall id :: 0 <= id < |s.rows| ==> !Eligible(s.rows[id])
  }

  lemma NoWorkNoneEligible(s: State)
    requires Inv(s) && Work(s.rows) == 0
    ensures NoneEligible(s)
  {
    forall i | 0 <= i < |s.rows|
      ensures Eligible(s.rows[i]) ==> s.rows[i].attempts < MAX_RELAY_ATTEMPTS
    {
      assert RowGood(s.rows[i], i in s.stream);
    }
    NoWorkNoRows(s.rows);
  }

  /**
   Until then there is a pass that fetches something: the next one, of any process,
   of the worker whose shards an eligible row is in, unless another has the row.
   */
  lemma MoreToFetch(s: State, w: nat, workerCount: nat, limit: nat, id: nat)
    requires id < |s.rows| && Eligible(s.rows[id]) && !Locked(s, id) && limit > 0
    requires Mine(s.rows[id], WorkerOf(w, workerCount), workerCount)
    ensures Fetch(s, WorkerOf(w, workerCount), workerCount, limit) != []
  {
    FetchesSomething(s, WorkerOf(w, workerCount), workerCount, limit, id);
  }

  // ---- Passes that fetch nothing ----

  // While one process has the only row, another commits an empty pass; then the first rolls back.
  const STALL: seq<Event> := [Begin(1, [0]), Begin(0, []), Commit(0, {}), Rollback(1)]

  /**
   With two processes passes that fetch nothing do not count: one may commit as
   many of them as it likes while the other has all rows and gets nowhere.
   */
  lemma EmptyPassesStall(s: State)
    requires Inv(s) && s.txs == map[] && |s.rows| == 1 && Eligible(s.rows[0])
    ensures QueriedRun(s, STALL, 1) && Run(s, STALL) == s
  {
    hide Next, Queried, Fetch, QueriedRun, Run, Eligible;
    var held, both := Held(s), Held(s).(txs := map[0 := Tx([], 0, {}, {}), 1 := Tx([0], 0, {}, {})]);
    TakesAll(s);
    FetchesNone(s);
    Emptied(both, held);
    GivesUp(s);
    Ends(s);
    assert [STALL[3]] + [] == [STALL[3]] && [STALL[2]] + [STALL[3]] == [STALL[2], STALL[3]];
    assert [STALL[1]] + [STALL[2], STALL[3]] == [STALL[1], STALL[2], STALL[3]];
    assert [STALL[0]] + [STALL[1], STALL[2], STALL[3]] == STALL;
    Step(held, STALL[3], [], s, s);
    Step(both, STALL[2], [STALL[3]], held, s);
    Step(held, STALL[1], [STALL[2], STALL[3]], both, s);
    Step(s, STALL[0], [STALL[1], STALL[2], STALL[3]], held, s);
  }

  function Held(s: State): State {
    s.(txs := map[1 := Tx([0], 0, {}, {})])
  }

  lemma QueriedBy(s: State, w: nat, batch: seq<nat>, limit: nat)
    requires limit > 0 && batch == Fetch(s, 0, 1, limit)
    ensures Queried(s, Begin(w, batch), 1)
  {
    assert WorkerOf(w, 1) == 0;
  }

  lemma TakesAll(s: State)
    requires s.txs == map[] && |s.rows| == 1 && Eligible(s.rows[0])
    ensures Queried(s, Begin(1, [0]), 1) && Next(s, Begin(1, [0])) == Held(s)
  {
    OnlyRow(s);
    QueriedBy(s, 1, [0], 1);
    assert Fetchable(s, [0]);
  }

  lemma FetchesNone(s: State)
    requires |s.rows| == 1
    ensures Queried(Held(s), Begin(0, []), 1)
    ensures Next(Held(s), Begin(0, [])) == s.(txs := map[0 := Tx([], 0, {}, {}), 1 := Tx([0], 0, {}, {})])
  {
    NothingLeft(Held(s));
    QueriedBy(Held(s), 0, [], 1);
    assert Held(s).txs[0 := Tx([], 0, {}, {})] == map[0 := Tx([], 0, {}, {}), 1 := Tx([0], 0, {}, {})];
  }

  lemma GivesUp(s: State)
    requires s.txs == map[]
    ensures Next(Held(s), Rollback(1)) == s && Queried(Held(s), Rollback(1), 1)
  {
    assert Held(s).txs - {1} == map[];
  }

  lemma Ends(s: State)
    ensures QueriedRun(s, [], 1) && Run(s, []) == s
  {
  }

  lemma OnlyRow(s: State)
    requires s.txs == map[] && |s.rows| == 1 && Eligible(s.rows[0])
    ensures Fetch(s, 0, 1, 1) == [0]
  {
    assert Candidate(s, 0, 1, 0);
    assert FetchFrom(s, 0, 1, 0, 1) == [];
  }

  lemma NothingLeft(s: State)
    requires |s.rows| == 1 && s.txs == map[1 := Tx([0], 0, {}, {})]
    ensures Fetch(s, 0, 1, 1) == []
  {
    assert 0 in s.txs[1].batch && Locked(s, 0);
    assert FetchFrom(s, 0, 1, 1, 1) == [];
  }

  lemma Emptied(both: State, held: State)
    requires held.txs == map[1 := Tx([0], 0, {}, {})]
    requires both == held.(txs := map[0 := Tx([], 0, {}, {}), 1 := Tx([0], 0, {}, {})])
    ensures Next(both, Commit(0, {})) == held && Queried(both, Commit(0, {}), 1)
  {
    assert both.txs[0] == Tx([], 0, {}, {});
    assert both.txs - {0} == held.txs;
    assert SettleAll(both.rows, {}, {} - {}) == both.rows;
  }

  // A run goes on from its first step.
  lemma Step(s: State, e: Event, rest: seq<Event>, s': State, end: State)
    requires Queried(s, e, 1) && Next(s, e) == s' && QueriedRun(s', rest, 1) && Run(s', rest) == end
    ensures QueriedRun(s, [e] + rest, 1) && Run(s, [e] + rest) == end
  {
    assert ([e] + rest)[0] == e && ([e] + rest)[1..] == rest;
  }

  // ---- One process ----

  // The passes a worker commits in a run, with or without rows.
  function Commits(s: State, events: seq<Event>, w: nat): nat
    decreases |events|
  {
    if events == [] then 0
    else (if events[0].Commit? && events[0].worker == w && Enabled(s, events[0]) then 1 else 0)
         + Commits(Next(s, events[0]), events[1..], w)
  }

  // No row of the worker's shards is left to relay.
  ghost predicate NoneLeft(s: State, w: nat, workerCount: nat) {
    forall id :: 0 <= id < |s.rows| && Mine(s.rows[id], w, workerCount) ==> !Eligible(s.rows[id])
  }

  // A pass of the worker has fetched nothing only if nothing was left.
  ghost predicate EmptyMeansNone(s: State, w: nat, workerCount: nat) {
    w in s.txs && s.txs[w].batch == [] ==> NoneLeft(s, w, workerCount)
  }

  lemma EmptyFetch(s: State, w: nat, workerCount: nat, limit: nat)
    requires OwnLocks(s, workerCount) && w < workerCount && w !in s.txs && limit > 0
    requires Fetch(s, WorkerOf(w, workerCount), workerCount, limit) == []
    ensures NoneLeft(s, w, workerCount)
  {
    forall id | 0 <= id < |s.rows| && Mine(s.rows[id], w, workerCount)
      ensures !Eligible(s.rows[id])
    {
      OthersLockOthers(s, w, workerCount, id);
      if Eligible(s.rows[id]) {
        FetchesSomething(s, WorkerOf(w, workerCount), workerCount, limit, id);
      }
    }
  }

  // Nothing that was not eligible becomes so.
  lemma NothingAppears(s: State, e: Event)
    requires Inv(s) && NoNews(e)
    ensures |Next(s, e).rows| == |s.rows|
    ensures forall id :: 0 <= id < |s.rows| ==>
      Next(s, e).rows[id].shard == s.rows[id].shard && (Eligible(Next(s, e).rows[id]) ==> Eligible(s.rows[id]))
  {
    if e.Commit? && Enabled(s, e) {
      assert TxGood(s, s.txs[e.worker]);
    }
  }

  lemma StaysEmpty(s: State, e: Event, w: nat, workerCount: nat)
    requires Inv(s) && OwnLocks(s, workerCount) && Queried(s, e, workerCount) && NoNews(e)
    requires (e.Begin? ==> e.worker < workerCount) && EmptyMeansNone(s, w, workerCount)
    ensures EmptyMeansNone(Next(s, e), w, workerCount)
    ensures NoneLeft(s, w, workerCount) ==> NoneLeft(Next(s, e), w, workerCount)
  {
    NothingAppears(s, e);
    BatchesFrom(s, e);
    if e.Begin? && Enabled(s, e) && e.worker == w && e.batch == [] {
      var limit: nat :| limit > 0 && e.batch == Fetch(s, WorkerOf(w, workerCount), workerCount, limit);
      EmptyFetch(s, w, workerCount, limit);
    }
    hide Next, Inv, OwnLocks, Eligible;
  }

  lemma {:induction false} CommitsDrain(s: State, events: seq<Event>, w: nat, workerCount: nat)
    requires Inv(s) && OwnLocks(s, workerCount) && QueriedRun(s, events, workerCount) && Closing(events)
    requires OneProcess(events, workerCount) && EmptyMeansNone(s, w, workerCount)
    ensures NoneLeft(Run(s, events), w, workerCount) || Work(Run(s, events).rows) + Commits(s, events, w) <= Work(s.rows)
    ensures NoneLeft(s, w, workerCount) ==> NoneLeft(Run(s, events), w, workerCount)
    decreases |events|
  {
    hide Inv, OwnLocks, Next, Work, NoneLeft, Enabled;
    if events != [] {
      var e := events[0];
      NextKeepsInv(s, e);
      OneProcessStep(s, e, workerCount);
      StaysEmpty(s, e, w, workerCount);
      CommitsDrain(Next(s, e), events[1..], w, workerCount);
      StepDrains(s, e);
      if e.Commit? && e.worker == w && Enabled(s, e) {
        CommitProgress(s, w, workerCount);
      }
    }
  }

  lemma CommitProgress(s: State, w: nat, workerCount: nat)
    requires Inv(s) && Enabled(s, Commit(w, {})) && EmptyMeansNone(s, w, workerCount)
    ensures NoneLeft(s, w, workerCount) || |Settled(s, Commit(w, {}))| >= 1
  {
    CommitSettlesBatch(s, w);
  }

  lemma {:induction false} OneProcessRun(s: State, events: seq<Event>, workerCount: nat)
    requires Inv(s) && OwnLocks(s, workerCount) && QueriedRun(s, events, workerCount) && OneProcess(events, workerCount)
    ensures Inv(Run(s, events)) && OwnLocks(Run(s, events), workerCount)
    decreases |events|
  {
    hide Inv, OwnLocks, Next, Queried;
    if events != [] {
      NextKeepsInv(s, events[0]);
      OneProcessStep(s, events[0], workerCount);
      OneProcessRun(Next(s, events[0]), events[1..], workerCount);
    }
  }

  /**
   With one process passes that fetch nothing count too: once each of its workers,
   idle at first, has committed as many passes as there were refusals left to
   count, no row is eligible.
   */
  lemma DrainedByOneProcess(before: seq<Event>, events: seq<Event>, workerCount: nat)
    requires QueriedRun(Empty, before, workerCount) && OneProcess(before + events, workerCount)
    requires var s := Run(Empty, before);
      && QueriedRun(s, events, workerCount) && Closing(events) && 1 <= workerCount
      && forall w :: 0 <= w < workerCount ==> w !in s.txs && Commits(s, events, w) >= Work(s.rows)
    ensures NoneEligible(Run(Run(Empty, before), events))
  {
    var s := Run(Empty, before);
    var s' := Run(s, events);
    Parts(before, events, workerCount);
    OneProcessRun(Empty, before, workerCount);
    RunKeepsInv(s, events);
    forall id | 0 <= id < |s'.rows|
      ensures !Eligible(s'.rows[id])
    {
      var w := WorkerOf(s'.rows[id].shard, workerCount);
      CommitsDrain(s, events, w, workerCount);
      assert Mine(s'.rows[id], w, workerCount);
      if !NoneLeft(s', w, workerCount) {
        NoWorkNoneEligible(s');
      }
    }
  }

  lemma Parts(before: seq<Event>, events: seq<Event>, workerCount: nat)
    requires OneProcess(before + events, workerCount)
    ensures OneProcess(before, workerCount) && OneProcess(events, workerCount)
  {
    var all := before + events;
    assert forall i :: 0 <= i < |before| ==> before[i] == all[i];
    assert forall i :: 0 <= i < |events| ==> events[i] == all[|before| + i];
  }
}
