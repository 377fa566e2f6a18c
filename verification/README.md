# RemnaCore: verified models of its protocols

Dafny models of the parts of RemnaCore where correctness depends on several
functions, or several goroutines, getting along: the pool of WASM runners and
the registry of plugin versions, the transactional outbox and the idempotent
consumer behind it, the hook dispatcher with its compensation and circuit
breakers, hot reload, schema upcasting, money arithmetic, rate limiting and
replay of dead letters.

`dafny verify dfyconfig.toml` checks everything.

## How the models are built

* **Protocols** are state machines: a `State`, an `Event` for each step or
  environment choice, `Next`, and `Run` over any sequence of events. Results
  about protocols hold for every `Run`, so for every interleaving and every
  choice of failures.
* **Objects** that the code updates in place are classes. Their methods take the
  branches and loops of the code and are proved against `Next` or another
  specification function; a ghost `history` records the steps taken, so the
  results about runs apply to the object.
* **The environment** (clocks, brokers, databases, plugin code, cancellation) is
  given by parameters, and every outcome is allowed unless a lemma names an
  assumption.

| module | what it models | granularity |
|---|---|---|
| `PoolSteps`, `PoolInvariant`, `PoolTheorems`, `PoolDrain`, `PoolRaces` | `PluginInstancePool` | every lock section, atomic and channel operation is a step of its own; any number of goroutines interleave |
| `RunnerPool` | the same pool as an object | `Acquire`, `Release`, `Discard`, `ReplaceInstance` uninterrupted; `Drain` split at its wait |
| `RuntimeRegistry` | `RuntimePool`: current and retired pools, flow bindings | one operation a step |
| `Outbox`, `OutboxQuery`, `OutboxDrain`, `OutboxOrder`, `OutboxRelay` | outbox rows, the fetch query, relay workers of any number of processes, the stream | the write of a row and its commit are two steps, and each publish, commit, roll-back and crash is one; workers interleave |
| `Consumer`, `ConsumerRetries`, `ConsumerDrops`, `BillingEventConsumer` | `handleMessage` | each call to the store, the handler or the dead-letter queue is a step; handlers interleave, processes may die between any two |
| `Delivery` | relay and consumer side by side | as above |
| `CircuitBreaker` | one breaker and the table of breakers | each operation atomic |
| `CircuitBreakerSteps` | `allow` called concurrently | every atomic load, swap, add and store is a step; any number of callers interleave |
| `HookTable`, `HookDispatcher`, `Dispatch`, `DispatchLaws` | registrations, dispatch and compensation | methods uninterrupted |
| `Lifecycle` | `HotReload`, `UpdateConfig` over runtime, dispatcher and repository | methods uninterrupted |
| `Schema`, `Money`, `RateLimiter`, `DlqReplay` | the libraries of the same names | methods uninterrupted |

## Where the code does not do what it says

Each of these is proved by the member named with it: a lemma with a reachable
state or a concrete input, an exact condition, or the contract of the method.

* Three pool branches never run: "pool full" in `Release`, the same in
  `trySendToPool`, and the replacement of an exhausted runner in `Acquire`
  (`BranchesNeverTaken`). Until `Drain` is called no interleaving goes wrong
  (`BeforeDrain`).
* Once `Drain` runs beside an unfinished operation it can go wrong: `Release` can
  send on the closed channel and panic (`ReleaseCanPanic`); a waiting
  `Acquire` can receive nil (`AcquireReceivesNil`); an `Acquire` past its second
  check can return a runner after `Drain` has returned (`AcquireAfterDrain`); the
  roll-back in `Acquire` decrements `active` without an increment, which lets
  `Drain` finish while a runner is out (`RollbackSignalsEarly`) and lets two
  goroutines close `drained`, the second of which panics (`DrainedClosedTwice`); a
  `Release` that counted down to nothing before `Drain` signals with that stale
  count while a runner handed out since is held (`StaleReleaseSignals`);
  `replaceInstance` closes a runner that `trySendToPool` has closed
  (`ReplacementClosedTwice`). `GracefulExactly` says from which states of the other
  goroutines a drain is graceful whatever they do, and that from every other state
  it can go wrong.
* `HotReload` promises that the old version serves until the new one is ready,
  but it detaches the old pool first: until the load is done no pool serves the
  plugin (`DetachLeavesGap`), pinned flows move to the new version
  (`DetachThenLoadMovesFlow`), and when the reload fails the pool that served
  before is left behind undrained (`FailedReloadRuntime`).
* A failed `LoadPlugin` removes the plugin's metadata, so even flows pinned to
  the retired pool cannot call it (`FailedLoadCutsOffFlows`). `UpdateConfig` then
  restores the stored configuration, not the pool (`ConfigReloadServes`).
* The relay says it preserves order per entity, and that several instances may run.
  With batches from its query, an entity's events are in order exactly as long as
  no publish overtakes an earlier one that was refused in the same pass, given up,
  or missed by the fetch, being locked by another worker or not yet visible, and no
  row becomes visible late (`OrderExactly`). One process keeps the order if nothing
  is refused and writers of an entity commit in sequence order (`OrderKept`); each
  of the three is needed (`RefusalBreaksOrder`, `TwoProcessesBreakOrder`,
  `LateCommitBreaksOrder`).
* With several processes a pass that fetches nothing means nothing: such passes can
  go on while all rows stay eligible (`EmptyPassesStall`). Passes that fetch
  something always drain the outbox (`OutboxDrained`).
* `relay` returns the number of rows marked even when its commit fails
  (`OutboxRelay.OutboxRelay.Relay`).
* The consumer's guarantees need their assumptions; dropping any one gives a
  double effect or a lost event (`TwiceIfStoreFails`, `LostIfReleaseFails`,
  `LostIfCrashed`, `LostIfRedeliveredEarly`, `LostIfDeadLetterFails`). What loses an
  event is always one of two steps: its last copy is acked as a duplicate, or after
  a dead-letter publish that failed (`DroppedExactly`).
* `DispatchSyncSafe` sets its compensated flag on a requested roll-back, where
  nothing is compensated (`HookDispatcher.HookDispatcher.DispatchSyncSafe`).
* A breaker whose test calls end without a recorded result, as happens when the
  hook context cannot be marshalled, refuses for good (`WedgedExactly`,
  `WedgedReached`, `UnmarshalledStepsWedge`).
* With concurrent callers the half-open limit does not hold: any number of callers
  that saw the breaker open are admitted at once (`AnyNumberAdmitted`).
* An event with a version below 1 is never upcast, and Validate does not prevent
  that (`LatestReachedExactly`).
* `PercentOf` wraps without an error when the product does not fit
  (`PercentExact`), and `RoundHalfUp` is right exactly above minus half a cent
  while nothing wraps (`HalfUpExact`).
* `ReplayResult.Matched` also holds the payload whose re-publish failed, which
  was not replayed (`ReplayAccounts`).
* A replay of dead letters can lose them: a dry run acknowledges what it matches
  (`DryRunLoses`), and a message re-published under its own ID while the broker
  still knows that ID is acknowledged as a duplicate but not stored
  (`DuplicateLoses`). It keeps every payload exactly when neither happens
  (`ReplayConserves`).

The limiter's bound (`WindowBound`) assumes a clock that does not go back. The
production clock is monotonic and read under the limiter's lock, so it meets the
assumption; `BackwardClockExceeds` shows that another clock passed to
`newHTTPRateLimiter` has to meet it too.

## Model

| member | source | states |
|---|---|---|
| `PoolTheorems.PoolSafety` | internal/plugin/runtime.go:106-277 | For every interleaving of any number of goroutines: idle runners, runners in hand and refills owed never exceed the pool size; no closed runner is idle or handed out, none is in two places, none is lost, none is used more than MaxRunnerUses times; `active` is runners out minus roll-back releases |
| `PoolInvariant.RunKeepsInv` | internal/plugin/runtime.go:106-416 | The invariant behind it is kept by every step from any state that has it |
| `PoolTheorems.FreshInv` | internal/plugin/runtime.go:106-161 | Every pool that creation can return, with any number of runners created, satisfies the invariant |
| `PoolTheorems.BeforeDrain` | internal/plugin/runtime.go:192-294 | While not draining, at every interleaving: `active` equals the runners handed out, no roll-back, no panic, no double close |
| `PoolTheorems.BranchesNeverTaken` | internal/plugin/runtime.go:215-277 | The pool-full branches and the replacement of an exhausted runner in Acquire are unreachable |
| `PoolDrain.GracefulDrain` | internal/plugin/runtime.go:299-337 | After a Drain that starts while no goroutine is a hazard, whatever follows: draining never reverts, no runner is handed out, `active` counts the runners out, nothing panics, no runner is closed twice, the drained signal fires only when nothing is held and is not forgotten then, and in the end every runner ever created is closed |
| `PoolDrain.GracefulExactly` | internal/plugin/runtime.go:192-337 | A drain is graceful in every continuation exactly when no goroutine is a hazard as it begins: an Acquire after its fast-path check and not yet counted, a Release about to send, a Release or discard with a stale count of nothing left, or a replaceInstance past its draining check |
| `PoolDrain.HazardSpoils` | internal/plugin/runtime.go:192-337 | For each kind of hazard, a continuation in which the drain goes wrong |
| `PoolRaces.ReleaseCanPanic` | internal/plugin/runtime.go:241-277 | A reachable state in which Release has sent on the channel that Drain closed after its signal |
| `PoolRaces.AcquireAfterDrain` | internal/plugin/runtime.go:192-232 | A reachable state in which Drain has returned and an Acquire then got its runner |
| `PoolRaces.AcquireReceivesNil` | internal/plugin/runtime.go:192-211 | A reachable state in which a waiting Acquire received nil from the closed channel |
| `PoolRaces.ReplacementClosedTwice` | internal/plugin/runtime.go:361-416 | A reachable state in which replaceInstance and trySendToPool both closed the new runner |
| `PoolRaces.RollbackSignalsEarly` | internal/plugin/runtime.go:206-211 | A reachable state in which the roll-back in Acquire fired the drained signal while a runner was held |
| `PoolRaces.DrainedClosedTwice` | internal/plugin/runtime.go:279-294 | A reachable state in which two goroutines found the drained signal open and the second close panicked |
| `PoolRaces.StaleReleaseSignals` | internal/plugin/runtime.go:241-252 | A reachable state, without any roll-back, in which a Release with a stale count fired the drained signal while a runner was held |
| `RunnerPool.PluginInstancePool.New` | internal/plugin/runtime.go:106-161 | A size below 1 stands for 4 and one above 16 for 16; a valid pool of the runners that could be created with the rest owed to the background fill, and none at all exactly when none could be created |
| `RunnerPool.PluginInstancePool.Acquire` | internal/plugin/runtime.go:192-236 | Error exactly when draining or cancelled, and then nothing changes; otherwise the head of the channel, open and below its use limit, with its use and `active` counted |
| `RunnerPool.PluginInstancePool.Release` | internal/plugin/runtime.go:241-277 | The runner goes back to the end of the channel, or is closed once used 10,000 times or draining; a used-up one leaves a replacement owed; drained exactly when the last holder has gone |
| `RunnerPool.PluginInstancePool.SignalDrainIfNeeded` | internal/plugin/runtime.go:282-294 | Run without another signaller between its steps: signals exactly when draining with nothing left, and never takes the signal back |
| `RunnerPool.PluginInstancePool.Discard` | internal/plugin/runtime.go:653-662 | A corrupted runner is closed, its slot given up and a replacement owed |
| `RunnerPool.PluginInstancePool.ReplaceInstance` | internal/plugin/runtime.go:361-416 | Adds one new runner unless draining or its creation fails, and then nothing changes |
| `RunnerPool.PluginInstancePool.BackgroundFill` | internal/plugin/runtime.go:166-181 | Adds as many new runners as were created before the first failure; once draining adds none, and closes the one it created |
| `RunnerPool.PluginInstancePool.BeginDrain` | internal/plugin/runtime.go:299-312 | Only the first Drain goes on; the signal is out at once exactly when nothing is held |
| `RunnerPool.PluginInstancePool.FinishDrain` | internal/plugin/runtime.go:314-337 | Closes the channel and exactly the idle runners, leaving those still out alone |
| `RunnerPool.PluginInstancePool.CallOnPool` | internal/plugin/runtime.go:635-684 | A context that has ended comes first and changes nothing; `active` is as before; the runner used returns to the pool unless the error marks it as corrupted, which closes it |
| `RunnerPool.PluginInstancePool.ActiveIsHeld` | internal/plugin/runtime.go:192-294 | Between methods `active` is exactly the number of runners handed out |
| `RuntimeRegistry.VersionsAreUnique` | internal/plugin/runtime.go:468-528 | Over every run the live pools, current and retired, have different versions, and a load gets a version above all of them |
| `RuntimeRegistry.LaterLoadsAreHigher` | internal/plugin/runtime.go:468-528 | Of any two successful loads in a run the later gets the higher version, pools already gone included |
| `RuntimeRegistry.PinningIsExact` | internal/plugin/runtime.go:611-631 | Over every run of loads, failed loads, unloads, detaches and removals: a flow resolves to its pinned pool exactly while that pool serves or is retired, and to the current pool from then on |
| `RuntimeRegistry.PinnedAcrossLoads` | internal/plugin/runtime.go:478-528 | Any number of LoadPlugin calls, failed ones too, leaves a pinned flow on its pool |
| `RuntimeRegistry.DetachThenLoadMovesFlow` | internal/plugin/lifecycle.go:465-475 | A detach followed by a load moves a pinned flow to the new version |
| `RuntimeRegistry.DetachLeavesGap` | internal/plugin/runtime.go:736-746 | Between the detach and the load an unpinned call finds no pool |
| `RuntimeRegistry.FailedLoadCutsOffFlows` | internal/plugin/runtime.go:476-513 | After a failed load a pinned flow still resolves to its pool, but no CallHook reaches it |
| `RuntimeRegistry.LoadServes` | internal/plugin/runtime.go:468-528 | After a load that succeeds unpinned calls reach a pool of the new code, or none if the plugin has no code, and other plugins are served as before |
| `RuntimeRegistry.UnloadStops` | internal/plugin/runtime.go:541-557 | After an unload no call reaches the plugin, pinned or not, and other plugins are served as before |
| `RuntimeRegistry.DetachKeepsRetired` | internal/plugin/runtime.go:736-746 | A flow pinned to a pool that was retired earlier is still served by it after a detach |
| `RuntimeRegistry.RuntimePool.LoadPlugin` | internal/plugin/runtime.go:468-528 | Retires the old pool, then installs metadata and a pool with the next version; on failure neither is left |
| `RuntimeRegistry.RuntimePool.UnloadPlugin` | internal/plugin/runtime.go:541-557 | Removes pool and metadata, or fails when the plugin is unknown |
| `RuntimeRegistry.RuntimePool.DetachPool` | internal/plugin/runtime.go:736-746 | Takes out the current pool without retiring it and keeps the metadata |
| `RuntimeRegistry.RuntimePool.RemoveRetired` | internal/plugin/runtime.go:777-800 | Removes the drained pool from the retired ones |
| `RuntimeRegistry.RuntimePool.CaptureFlowBindings` | internal/plugin/runtime.go:763-772 | The versions of exactly the current pools |
| `RuntimeRegistry.RuntimePool.BeginFlow` | internal/plugin/dispatcher_metrics.go:62-68 | Pins once: bindings already there are never overwritten |
| `RuntimeRegistry.RuntimePool.ResolvePool` | internal/plugin/runtime.go:611-631 | The pinned pool if it is current or retired, else the current one |
| `Decimal.SuffixInjective` | internal/plugin/runtime.go:478-483 | No two pools share a "slug:version" key |
| `Outbox.NeverLost` | internal/adapter/nats/outbox_relay.go:378-504 | Over every run: an event whose writer committed is in the stream, or its row is still eligible, or was refused MaxRelayAttempts times; a row is marked published or deleted only if the stream has it |
| `Outbox.OneWorkerPerRow` | internal/adapter/postgres/queries/outbox.sql:25-37 | No row is ever in two open transactions |
| `Outbox.CommitSettlesBatch` | internal/adapter/nats/outbox_relay.go:458-494 | A committed pass settles every row it fetched, if every refusal could be counted |
| `Outbox.RelayDrains` | internal/adapter/nats/outbox_relay.go:416-494 | With no new visible rows, the sum of attempts left over the eligible rows drops by at least the rows settled, over any run of any number of workers |
| `Outbox.NoWorkNoRows` | internal/adapter/nats/outbox_relay.go:458-494 | That sum is zero exactly when nothing is left to fetch |
| `OutboxQuery.FetchExact` | internal/adapter/postgres/queries/outbox.sql:13-37 | The query returns exactly the first limit rows that are eligible, unlocked and in the worker's shards, in sequence order |
| `OutboxQuery.QueriedRunKeeps` | internal/adapter/postgres/queries/outbox.sql:25-37 | In every run whose batches come from the query, each open batch is in order, keeps to its worker's shards, and skips no earlier row of them but those locked or not yet visible at the fetch |
| `OutboxQuery.FetchesSomething` | internal/adapter/postgres/queries/outbox.sql:13-37 | As long as a row may be fetched, a fetch is not empty |
| `OutboxDrain.OutboxDrained` | internal/adapter/nats/outbox_relay.go:416-494 | For any number of processes, with no new visible rows and every refusal counted: once as many passes that fetched something have committed as there were refusals left to count, no row is eligible, however workers interleave and whatever is refused or rolled back |
| `OutboxDrain.MoreToFetch` | internal/adapter/postgres/queries/outbox.sql:25-37 | Until then a pass that fetches something is possible: the next one of the worker of an eligible row's shard, unless another has the row |
| `OutboxDrain.EmptyPassesStall` | internal/adapter/nats/outbox_relay.go:82-84 | With two processes a pass that fetches nothing can commit while the other holds all rows, and everything is then as before |
| `OutboxDrain.DrainedByOneProcess` | internal/adapter/nats/outbox_relay.go:416-494 | With one process passes that fetch nothing count too: each of its workers has to commit that many passes of any kind |
| `OutboxOrder.OrderExactly` | internal/adapter/nats/outbox_relay.go:330-333 | For any number of processes, over every run with batches from the query: each entity's events are in the stream in order at every moment exactly when no publish overtakes an earlier event refused in its pass, given up, locked by another worker at the fetch or not visible then, and no row appears after a later one was stored |
| `OutboxOrder.PassInOrder` | internal/adapter/nats/outbox_relay.go:416-456 | At every point of a pass: what it has stored is in order exactly when of no entity it left an event of its batch unstored before a stored one, and none that was given up or missed by the fetch comes before one |
| `OutboxOrder.OrderKept` | internal/adapter/nats/outbox_relay.go:330-333 | The order is kept at every moment by one process, without refusals, when writers of an entity commit in sequence order |
| `OutboxOrder.RefusalBreaksOrder` | internal/adapter/nats/outbox_relay.go:416-456 | One refused publish lets a later event of the entity overtake |
| `OutboxOrder.TwoProcessesBreakOrder` | internal/adapter/nats/outbox_relay.go:82-84 | Two processes break the order without a refusal: the second skips the row the first has locked |
| `OutboxOrder.LateCommitBreaksOrder` | internal/adapter/postgres/migrations/009_outbox_sequence.sql:1-5 | So do two writers: a later event of the entity that commits first is relayed first |
| `OutboxRelay.OutboxRelay.PublishAll` | internal/adapter/nats/outbox_relay.go:416-456 | Tries every row of the batch; a refusal does not stop the rest |
| `OutboxRelay.OutboxRelay.SettleRows` | internal/adapter/nats/outbox_relay.go:458-494 | Counts the refusals and marks the published rows as the specification of a commit does |
| `OutboxRelay.OutboxRelay.Relay` | internal/adapter/nats/outbox_relay.go:367-519 | One pass is exactly the begin, publishes and commit or roll-back of the state machine, and nothing when the breaker is open, the fetch fails or nothing is fetched; what it leaves in stream and rows is spelled out by the answers; the result counts marked rows even if the commit fails |
| `OutboxRelay.PassExactly` | internal/adapter/nats/outbox_relay.go:367-504 | Over the steps of a pass: the stream gains exactly the stored events in order; on a commit each acknowledged row is published, each counted refusal is one attempt more and the tenth gives the row up; all other rows, and all rows without a commit, are as before |
| `OutboxRelay.OutboxRelay.AfterPass` | internal/adapter/nats/outbox_relay.go:263-303 | Batch size and interval stay within their bounds: the batch grows only after a full pass, the interval only after an empty one |
| `Consumer.AtMostOnce` | internal/adapter/nats/billing_event_handlers.go:242-302 | If TryAcquire answers and no key is purged, processEvent succeeds at most once per key, over every interleaving of copies, redeliveries, failures and crashes |
| `Consumer.NothingDropped` | internal/adapter/nats/billing_event_handlers.go:250-363 | With Release and the dead-letter publish working, no crash and no early redelivery: every key that arrived has succeeded, was dead-lettered or has an unacked message |
| `ConsumerRetries.RetryLaw` | internal/adapter/nats/billing_event_handlers.go:284-363 | Dead letters are exactly the failed attempts from the third on, so a failing replay is dead-lettered after one attempt |
| `ConsumerRetries.KeyTakenExactly` | internal/adapter/nats/billing_event_handlers.go:250-302 | The key is taken exactly while a handler works on it or once it has succeeded, so it is free after a dead letter |
| `ConsumerRetries.TwiceIfStoreFails` | internal/adapter/nats/billing_event_handlers.go:240-257 | Failing open can let one event take effect twice |
| `ConsumerRetries.LostIfReleaseFails` | internal/adapter/nats/billing_event_handlers.go:294-302 | A failed Release loses the event |
| `ConsumerRetries.LostIfCrashed` | internal/adapter/nats/billing_event_handlers.go:250-292 | A crash while the key is taken loses the event |
| `ConsumerRetries.LostIfRedeliveredEarly` | internal/adapter/nats/billing_event_handlers.go:258-270 | A redelivery while in progress, and a failure after it, loses the event |
| `ConsumerRetries.LostIfDeadLetterFails` | internal/adapter/nats/billing_event_handlers.go:350-363 | After three failed attempts a failed dead-letter publish loses the event |
| `ConsumerDrops.DropsExactly` | internal/adapter/nats/billing_event_handlers.go:250-363 | From any state, a step loses an event exactly when it acks its last copy as a duplicate, or after a failed dead-letter publish |
| `ConsumerDrops.DroppedExactly` | internal/adapter/nats/billing_event_handlers.go:250-363 | Over every run, with any failures: an event that arrived always has succeeded, was dead-lettered or has an unacked message exactly when no step loses it |
| `BillingEventConsumer.BillingEventConsumer.HandleMessage` | internal/adapter/nats/billing_event_handlers.go:154-363 | Takes exactly the steps of the state machine, with the effect, failure, key, retry count and dead letter each answer calls for; acks unless processEvent fails with retries left or the failure cannot be counted; the first failure is nacked after two seconds, the second after five |
| `BillingEventConsumer.HandledExactly` | internal/adapter/nats/billing_event_handlers.go:154-363 | What the steps for one message, undisturbed, come to, for every state and every choice of failures |
| `BillingEventConsumer.BillingEventConsumer.DeadLetter` | internal/adapter/nats/billing_event_handlers.go:99-138 | Acks the message whether or not the dead-letter publish works |
| `Delivery.EffectOnce` | internal/adapter/nats/billing_event_handlers.go:242-302 | From outbox to handler, in every run in which TryAcquire answers, crashes and early redeliveries included: at most one effect, never before the stream has the event |
| `Delivery.EndToEnd` | internal/adapter/nats/outbox_relay.go:416-504 | In the runs without a crash or early redelivery, with Release and dead-lettering working: also no event lost |
| `Delivery.SettledOutcome` | internal/adapter/nats/billing_event_handlers.go:284-363 | When nothing is left to fetch or to deliver, every event whose writer committed took effect exactly once, or was dead-lettered, or was given up by the relay |
| `CircuitBreaker.ClosedExactly` | internal/plugin/circuit_breaker.go:46-91 | Over every history: Closed exactly when fewer than the threshold of failures came in a row |
| `CircuitBreaker.AdmitsExactly` | internal/plugin/circuit_breaker.go:46-91 | Over every history a call is admitted exactly when fewer than the threshold of failures came in a row, or it is the first asked after more than the reset timeout since the last failure, or one of the HookBreakerHalfOpenMaxCalls after that |
| `CircuitBreaker.EpisodeBound` | internal/plugin/circuit_breaker.go:46-64 | One half-open episode admits at most 1 + HookBreakerHalfOpenMaxCalls calls, when calls of allow do not overlap |
| `CircuitBreaker.EpisodeBoundTight` | internal/plugin/circuit_breaker.go:46-64 | ... and can admit that many |
| `CircuitBreakerSteps.AnyNumberAdmitted` | internal/plugin/circuit_breaker.go:46-64 | When they overlap, one episode can admit any number: a lost CompareAndSwap is not looked at |
| `CircuitBreakerSteps.CountedBound` | internal/plugin/circuit_breaker.go:46-64 | At any interleaving the callers admitted by the half-open count are at most 2 * HookBreakerHalfOpenMaxCalls |
| `CircuitBreaker.WedgedExactly` | internal/plugin/circuit_breaker.go:46-64 | Without a recorded result every later call is refused, at any time, exactly when the breaker is half-open with its test calls used up |
| `CircuitBreaker.WedgedReached` | internal/plugin/circuit_breaker.go:46-91 | A history from a new breaker to that state |
| `Dispatch.UnmarshalledStepsWedge` | internal/plugin/dispatcher.go:179-206 | Two steps whose context cannot be marshalled bring an open breaker there, and every later step is refused |
| `CircuitBreaker.FailingCallsArePaced` | internal/plugin/circuit_breaker.go:46-91 | When every call fails, from the sixth on each comes more than HookBreakerResetTimeout after the failure before |
| `CircuitBreaker.RemoveByPluginExact` | internal/plugin/circuit_breaker.go:155-164 | Removal by prefix resets a plugin's own breakers and no other's |
| `CircuitBreaker.HookBreaker.AllowCall` | internal/plugin/circuit_breaker.go:46-64 | The object takes the step of the automaton the results above are about |
| `CircuitBreaker.HookBreaker.Success` | internal/plugin/circuit_breaker.go:67-72 | Likewise for a recorded success |
| `CircuitBreaker.HookBreaker.Failure` | internal/plugin/circuit_breaker.go:75-91 | Likewise for a recorded failure |
| `HookTable.RunKeepsGood` | internal/plugin/dispatcher.go:78-162 | After any run of operations every list is non-empty, in priority order and filed under its own hook |
| `HookTable.SwapExact` | internal/plugin/dispatcher.go:125-162 | A swap leaves exactly the new registrations of the plugin and every registration of the others, with multiplicity |
| `HookTable.SwapBack` | internal/plugin/dispatcher.go:125-162 | Swapping there and back restores the table, as multisets, exactly when what is swapped back in is what the plugin had |
| `HookTable.HookRegistrations` | internal/plugin/manifest.go:548-584 | Field by field: the sync hooks in order as Sync, then the async ones as Async, each under the given plugin ID, the manifest's slug, its own name as function, and its priority or 50 |
| `HookTable.SwapFollowsManifest` | internal/plugin/manifest.go:548-584 | After a swap to a manifest's registrations the plugin is registered for a hook as sync exactly when it declares it as sync, and as async exactly when it declares it as async |
| `HookDispatcher.HookDispatcher.RegisterHooks` | internal/plugin/dispatcher.go:78-96 | The in-place code adds exactly these registrations and keeps the table good |
| `HookDispatcher.HookDispatcher.UnregisterHooks` | internal/plugin/dispatcher.go:100-119 | Takes out exactly the plugin's registrations, keeps the order of the rest, drops empty lists and the plugin's breakers |
| `HookDispatcher.HookDispatcher.SwapHooks` | internal/plugin/dispatcher.go:125-162 | Is the two in one, with the plugin's breakers dropped |
| `HookDispatcher.HookDispatcher.RemoveBreakers` | internal/plugin/circuit_breaker.go:155-164 | Drops the breakers of the specification, key by key |
| `HookDispatcher.HookDispatcher.ExecutePluginStep` | internal/plugin/dispatcher.go:179-284 | No call when the breaker refuses or the context cannot be built, and no recorded result then; otherwise one call of this plugin with this payload, whose reply is the outcome |
| `DispatchLaws.BreakerFollowsReplies` | internal/plugin/dispatcher.go:179-284 | Over any steps of any plugins: the breaker of a plugin and hook is closed exactly when fewer than HookBreakerFailureThreshold of its calls have failed or answered badly since the last good answer |
| `DispatchLaws.FiveFailuresRefuse` | internal/plugin/dispatcher.go:179-284 | After five failing calls the next step within the reset timeout fails without a call |
| `DispatchLaws.NotRefused` | internal/plugin/dispatcher.go:179-206 | With fewer failures since the last answer the next step calls, if its context can be built |
| `DispatchLaws.StepTouchesOne` | internal/plugin/dispatcher.go:179-284 | A step leaves the breakers of all other plugins and hooks alone |
| `HookDispatcher.HookDispatcher.DispatchSync` | internal/plugin/dispatcher.go:289-338 | Is the left fold of the chain over the sync registrations in list order; by the calls made, the payload is what the last one left, or the error is that of the last reply |
| `HookDispatcher.HookDispatcher.DispatchSyncVersioned` | internal/plugin/dispatcher.go:344-353 | Dispatches to the highest version not above the given one with any handler, else to the base name |
| `HookDispatcher.HookDispatcher.DispatchSyncSafe` | internal/plugin/dispatcher.go:364-443 | Is the same fold, skipping open breakers; by the calls made, it hands back what the last one left, or the original payload after a requested roll-back, which compensates nothing; on a halt or error it keeps what the last passing plugin left and compensates exactly the executed plugins |
| `DispatchLaws.SafeExactly` | internal/plugin/dispatcher.go:364-443 | That result follows from the replies for every chain, without reference to how the fold is defined |
| `DispatchLaws.SafeAndPlainPayload` | internal/plugin/dispatcher.go:289-443 | Without a skipped plugin both modes give the same payload or stop for the same reason |
| `DispatchLaws.ChainEnds` | internal/plugin/dispatcher.go:300-335 | In every chain each call gets what the one before left; executed are the called plugins whose reply passed; a halt, roll-back, call error or bad output ends the chain with that error |
| `DispatchLaws.CallsMadeAt` | internal/plugin/dispatcher.go:289-338 | Calls are made in list order, of sync registrations only; none before the stop is left out unless safe mode skipped it, and none comes after the stop |
| `DispatchLaws.CallsByPriority` | internal/plugin/dispatcher.go:289-338 | On a list in priority order the plugins are called in priority order |
| `HookDispatcher.HookDispatcher.CompensateChain` | internal/plugin/dispatcher_compensation.go:31-126 | The reverse loop with its cut-off makes the calls and records the failures that each plugin's fate calls for |
| `Dispatch.ModesAgree` | internal/plugin/dispatcher.go:289-443 | Plain and safe dispatch agree on everything as long as no breaker is open, and plain succeeds exactly when safe succeeds without skipping |
| `Dispatch.PayloadsChain` | internal/plugin/dispatcher.go:300-335 | Each plugin is called with what the one before it left, and the last one's payload is the chain's |
| `Dispatch.CallsInOrder` | internal/plugin/dispatcher.go:289-338 | The plugins called are the first of the sync registrations, all of them when nothing stops the chain |
| `Dispatch.StopStays` | internal/plugin/dispatcher.go:300-335 | Nothing runs after the chain has stopped |
| `Dispatch.UndoCallsReversed` | internal/plugin/dispatcher_compensation.go:31-126 | The turns that call are exactly those in time, of a plugin with a handler, when the context can be built; they call the first handler of that plugin, last executed first, with the original payload |
| `Dispatch.FailuresReversed` | internal/plugin/dispatcher_compensation.go:31-126 | Recorded, in the same order, are exactly the turns that came too late, or had a handler and a context that could not be built or a call that failed; each under its slug and "<hook>.compensate" with the error of its kind |
| `Dispatch.LateStaysLate` | internal/plugin/dispatcher_compensation.go:45-58 | Once a turn comes after the deadline it and every turn after it are recorded with the deadline error |
| `Lifecycle.LifecycleManager.HotReload` | internal/plugin/lifecycle.go:373-557 | Each outcome exactly under its condition on the inputs, in the order of the checks, with runtime, hooks, rows and drained pools after it; on success the row has the new manifest and code and keeps slug, configuration, status and origin, so that another reload with the same manifest is not refused |
| `Lifecycle.ReloadAgrees` | internal/plugin/lifecycle.go:465-526 | A hot reload that succeeds leaves row, runtime and hooks in agreement and other plugins untouched |
| `Lifecycle.FailedLoadAgrees` | internal/plugin/lifecycle.go:475-488 | A hot reload that fails at the load leaves them in agreement exactly when the old code, if any, can be built once more |
| `Lifecycle.FailedStoreAgrees` | internal/plugin/lifecycle.go:495-526 | Likewise one that fails at the store |
| `Lifecycle.PersistFailureRestoresHooks` | internal/plugin/lifecycle.go:495-526 | The hook table is restored as multisets exactly when the plugin's hooks were those of its old manifest |
| `Lifecycle.FailedReloadRuntime` | internal/plugin/lifecycle.go:465-526 | After a failed reload the old code has a new pool or none, and the old pool is stranded |
| `Lifecycle.LifecycleManager.RollBack` | internal/plugin/lifecycle.go:495-526 | Swaps the old hooks in, loads the old code, and marks the plugin as broken exactly when that fails and the status can be stored |
| `Lifecycle.LifecycleManager.LoadNew` | internal/plugin/lifecycle.go:465-488 | Detaches and loads; after a failed load the old code is loaded again exactly when there was an old pool |
| `Lifecycle.LifecycleManager.UpdateConfig` | internal/plugin/lifecycle.go:292-328 | Each outcome of a configuration change exactly under its condition, with what is restored after a failed reload |
| `Lifecycle.LifecycleManager.Reload` | internal/plugin/lifecycle.go:336-364 | Loads the same code again and swaps in the same hooks, or fails before or at the load |
| `Lifecycle.ConfigReloadServes` | internal/plugin/lifecycle.go:292-364 | After a configuration reload calls reach a pool exactly when the new one could be built |
| `Schema.RegisteredExactly` | pkg/domainevent/schema.go:42-57 | Registration panics exactly when two upcasters share type and version; otherwise chains ascend strictly and hold exactly what was registered |
| `Schema.OrderIrrelevant` | pkg/domainevent/schema.go:42-57 | Registering in another order gives the same registry, or the same panic |
| `Schema.SchemaRegistry.Register` | pkg/domainevent/schema.go:42-57 | Rejects a taken version and leaves the registry alone, else adds and sorts |
| `Schema.SchemaRegistry.Validate` | pkg/domainevent/schema.go:76-93 | No error exactly when every chain is 1, ..., n; otherwise the first gap of a chain |
| `Schema.SchemaRegistry.UpcastEvent` | pkg/domainevent/schema.go:104-127 | The loop computes the specified upcast |
| `Schema.UpcastExactly` | pkg/domainevent/schema.go:104-127 | The upcasters of the event's version and those after it are applied in order up to the first version without one, with or without gaps |
| `Schema.LatestReachedExactly` | pkg/domainevent/schema.go:60-127 | On a valid chain an event reaches the latest version exactly when its version is 1, ..., latest |
| `Schema.UpcastIdempotent` | pkg/domainevent/schema.go:104-127 | Upcasting twice is upcasting once in every registry |
| `Money.Add` | pkg/money/money.go:84-93 | The true sum exactly when an int64 holds it, else the overflow error; mismatch error for other currencies |
| `Money.Subtract` | pkg/money/money.go:97-106 | Likewise for the difference |
| `Money.MultiplyExact` | pkg/money/money.go:110-138 | Likewise for the product, through all special cases and division guards |
| `Money.PercentExact` | pkg/money/money.go:230-243 | RoundFloor gives the true quotient by 10,000, in the same currency, exactly when the product fits an int64 |
| `Money.HalfUpExact` | pkg/money/money.go:230-243 | RoundHalfUp gives the nearest cent, ties away from zero, exactly when the true value is above minus half a cent and the product plus half fits an int64 |
| `Money.SharesSum` | pkg/money/money.go:230-243 | A share and its complement add up to the amount, or to one cent nearer zero, the former exactly when the share is whole |
| `Money.QuotRounds` | pkg/money/money.go:246-251 | Go's quotient and remainder: the remainder is what the quotient leaves, is smaller than the divisor and has the sign of the amount |
| `Money.ParseToString` | pkg/money/money.go:246-261 | A parser reads every printed amount back, for every int64 and any currency string |
| `Money.StringInjective` | pkg/money/money.go:246-261 | No two amounts of money print alike |
| `RateLimiter.HttpRateLimiter.Compact` | internal/plugin/rate_limiter.go:43-49 | Compaction in place is the filter of the slice |
| `RateLimiter.HttpRateLimiter.Allow` | internal/plugin/rate_limiter.go:36-58 | The object records and admits as the specification over all the times at which it was asked, and its slice never outgrows its capacity |
| `RateLimiter.RecordedIsRecent` | internal/plugin/rate_limiter.go:43-49 | The compacted slice and the whole log of admitted calls look the same to every later cutoff |
| `RateLimiter.AdmitsExactly` | internal/plugin/rate_limiter.go:36-58 | A call is admitted exactly when fewer than limit calls were admitted in the window ending with it |
| `RateLimiter.WindowBound` | internal/plugin/rate_limiter.go:36-58 | No window, wherever it ends, holds more than limit admitted calls |
| `RateLimiter.BackwardClockExceeds` | internal/plugin/rate_limiter.go:21-58 | An injected clock that goes back would break the bound |
| `DlqReplay.MatchesFilter` | internal/adapter/nats/dlq_replay.go:180-188 | Substring of the subject and equality of the entity; an empty filter matches all |
| `DlqReplay.ReplayFromChannel` | internal/adapter/nats/dlq_replay.go:107-177 | Every end of the loop, cancellations and publish errors included, and that it stops at the limit or the end of the channel |
| `DlqReplay.HandledStep` | internal/adapter/nats/dlq_replay.go:116-172 | What handling one more message adds to matched, published, counters and acks keeps the specification of the whole |
| `DlqReplay.ReplayAccounts` | internal/adapter/nats/dlq_replay.go:107-177 | Matched is the first parsed and selected payloads; acks are malformed plus replayed, nacks are skipped plus errors, also after a publish error |
| `DlqReplay.ReplayConserves` | internal/adapter/nats/dlq_replay.go:107-177 | Payload by payload, what was in the stream is what the broker stored again plus what is still there, exactly when every selected message that was answered has been stored: no dry run over a match, no re-publish taken for a duplicate |
| `DlqReplay.DryRunLoses` | internal/adapter/nats/dlq_replay.go:137-142 | A dry run over one matching message leaves nothing in the stream and publishes nothing |
| `DlqReplay.DuplicateLoses` | internal/adapter/nats/dlq_replay.go:144-161 | A replay within the broker's duplicate window leaves nothing in the stream and stores nothing |
| `DlqReplay.PublicationsMatch` | internal/adapter/nats/dlq_replay.go:139-155 | What is published are the matched payloads in order, under their own IDs where they have one |
| `DlqReplay.ReplayDLQMessages` | internal/adapter/nats/dlq_replay.go:69-81 | Undisturbed, matched is exactly the first limit selected payloads; a limit that is not positive stands for a million |

## Left out

- Timers, contexts and clocks appear as given outcomes or integer times; metrics, logging and tracing are not modelled.
- The PostgreSQL queries are modelled by their effect on rows and locks, JetStream by an append-only log whose deduplication may or may not happen; neither is verified.
- Entity locks and their eviction, sequence-gap tracking and reconciliation: best effort, they decide nothing modelled here.
- The fallback idempotency key `type:entity` of events without an ID: such events are deduplicated against each other, so nothing per event holds of them.
- Retention of idempotency keys: `Purge` is a step of the consumer, and `Consumer.AtMostOnce` assumes it does not happen; retry counters are kept apart from keys, as their prefix keeps them in the table.
- The database's choice when a commit's answer is lost is a commit or a roll-back of the model; nothing in between.
- CircuitBreaker.EpisodeBound: breaker operations are atomic there; `CircuitBreakerSteps` splits `allow` while no result is recorded, and interleavings inside `recordFailure` are not modelled.
- A re-publish of a dead letter that is reported as failed but was stored after all leaves a copy in both places; the replay's `Refused` means not stored.
- All relay processes are taken to have the same number of workers.
- Hook calls are atomic within a dispatch, and per-plugin timeouts are part of a call's given outcome; `DispatchAsync` only publishes.
- The backing array shared by the filtered slices of `UnregisterHooks` is not modelled; lists are values.
- `Close` outside failed pool creation, and `SetRunnerForTest`.
- Install, Enable, Disable, Uninstall and recovery of plugins: sequences of the operations that are modelled, without roll-back of their own.
- The configuration a pool was built with is not part of a pool's value: `UpdateConfig` shows which pool serves, not what it was configured with.
- Counters are unbounded integers except in `Money`; pool versions are uint64 and runner uses int64 in the code.
- Money comparisons and currency validation: one-line branches.
- A negative limit, on which `newHTTPRateLimiter` panics: a limit is a natural number here.
- Event data is a string map rather than a map of arbitrary values; upcasters are arbitrary total functions on it.
