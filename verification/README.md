# Signalix in Dafny

Signalix turns strategy signals into orders on a perpetual-futures exchange. This project models the
parts of it where several things happen at once or where arithmetic decides whether an order may
leave, and proves what they keep over every input, every run and every interleaving.

- **Order protocol** (`Orders`, `OmsProtocol`, `OmsRouting`, `OmsConvergence`, `OmsLedger`). The
  exchange, the user-stream pump with its tag table, the lossy event queue, the order engine and its
  store are one step system; any step may come next. Identities (an event reaches its order and no
  other), convergence (an order the engine is behind on has a report on its way, or missed its newest
  one), the store and the counters are invariants of every run, from an empty book or a reloaded one.
  Terminal statuses are not absorbing: an acknowledged cancel can be overwritten by an older report,
  and the proofs are about convergence instead.
  `PerpExecutor` and `ExecutionEngine` are the imperative code, each method tied to the protocol's
  transition; `Recovery` is the startup that lists, reconciles and reloads orders.
- **Bar history** (`KlineHistory`). The buffers are mutable windows; a ghost log of everything ever
  written fixes what each window must hold.
- **Subscriptions** (`Strings`, `Contract`, `GateText`, `Subscriptions`, `WsHub`, `MarketRouter`).
  Strategy subscriptions, router counts, the hub's active table and the frames replayed after a
  reconnect are related layer by layer; symbol normalisation makes the keys unambiguous.
- **Crashes and restarts** (`CrashTracker`, `RestartProtocol`). The tracker's shared backing array is
  modelled as it is, stale entries included, and the restart routines of one strategy interleave freely.
- **Risk and sizing** (`Decimals`, `Risk`, `Notional`, `RiskContext`, `Reductions`, `Sizing`,
  `Decision`, `Pipeline`, `FlatOrders`). Decimals are exact reals except that a division rounds to 16
  places, half away from zero. Both rule tiers, the gate that skips notional values, reductions, the
  whole path of a signal and several closing signals at once are covered.
- **Account projection** (`Projection`). Refreshes, user events and hook calls interleave; the revision
  identifies the account.

Clocks are integers. Exchange calls, saves and websocket writes are parameters or nondeterministic
steps with a success or a failure. The tag digest, size parsing as floating point and sorting are
parameters or contracts. Every statement about the program is a statement about this model; nothing
here was executed.

## Findings

- A report dropped because the event buffer is full leaves an order behind the exchange if and only if no
  newer report of it follows and what the engine has or has queued does not already say the same
  (`OmsConvergence.DroppedReportDivergesIff`). A later report or a sync makes up for it, so an order
  agrees once nothing is on its way if and only if its newest report was not missed
  (`OmsConvergence.Convergence`, `OmsConvergence.SyncRepairs`), and every order does if the buffer was
  never full (`OmsConvergence.LosslessRunsAgree`). A sync that overtakes older queued reports is undone
  by them (`OmsConvergence.EarlySyncIsUndone`, a run with the whole buffer in use).
- A crash after the exchange has accepted an order and before its exchange ID is stored leaves an
  order that startup does not ask for. The exchange's reports find it again if and only if its tag
  spells its ID (`Recovery.CrashDuringPlacement`), which the tag of a generated ID, a UUID longer than
  a tag's body, never does.
- The restart rate limit does not hold for every run. A launch that fails after registering its
  process leaves that process running beside its restart routine, the routine passes a fresh circuit
  check, and any number of routines can then create processes at one instant after the circuit has
  opened. For a positive window every run keeps the limit if and only if the limit is at most one
  (`RestartProtocol.LimitHoldsIff`); every run keeps it up to one more creation per such failure
  before the last one in the window (`RestartProtocol.RateLimitWithLateFailures`), and so exactly without them. It also holds in any run
  for a window whose last creation had no crash recorded between its check and its launch.
- An allowed order can pass the position cap, by rounding only: the cap is exact for a position and a
  contract if and only if the size the rule itself would reduce to stays under it
  (`Risk.CapHoldsIff`, `Risk.CapCanLeak`), and it is never passed by more than half a unit in the 16th
  place of the notional per contract and of every contract.
- An order-size reduction returns before the cap is looked at. An increasing order the global limit
  does not cut keeps the cap (`Pipeline.SentWithinCap`); one it cuts is sent with the limit itself and
  keeps the cap if and only if that many contracts fit under it (`Pipeline.CutOrderWithinCapIff`, with
  a dispatch that does not in `Pipeline.CutOrderPassesCap`). A strategy's own limit and cap behave the
  same way (`Pipeline.SentWithinStrategyCap`, `Pipeline.StrategyCutWithinCapIff`,
  `Pipeline.StrategyCutPassesCap`).
- A reversing order is not seen by the cap at all (`Pipeline.ReversalUncapped`). Filled, it ends over
  the cap if and only if what its size, cut by the order-size limits, has beyond the old position is
  worth more than the cap (`Pipeline.ReversalOverCapIff`).
- Counting the same crash window twice reports more crashes than there are if and only if an expired
  entry stands before a live one (`CrashTracker.SecondCountIff`); on records in time order that is
  whenever some but not all have expired (`CrashTracker.SecondCountAscending`). It never reports fewer.
- A strategy that subscribes a symbol again before unsubscribing, or names it twice, adds to a ticker
  count that nothing takes back; in every run the counts are exact if and only if that never happened
  (`Subscriptions.NoPrematureUnsubscribe`, `Subscriptions.LeakIff`, `Subscriptions.ResubscribeLeaks`).
- The tag of a trimmed order ID decodes to another ID if and only if the ID starts with the tag
  prefix and what follows it is not empty and short enough to be spelt out
  (`GateText.PrefixedIdDecodesToAnotherIff`); the engine's generated IDs never do.
- The size computed from a budget is never rounded to the size step. For agreeing whole limits it
  passes the size check if and only if it happens to be a multiple of the step
  (`Sizing.StepDecides`, `Sizing.CoarseStepFails`).
- A budget of the default mode can exceed the balance, exactly when the divisor is one and the
  balance's digits behind the 16th place amount to half a unit or more (`Sizing.BudgetWithinBalance`,
  `Sizing.BudgetExceedsBalance`).
- One Flat order never flips a position (`Pipeline.FlatNeverFlips`), but orders are sent without the
  reduce-only flag, so several decided on one view of the account cannot flip it if and only if together
  they are no larger than it (`FlatOrders.FlatOrdersSafeIff`, `FlatOrders.TwoFlatsFlip`).

## Model

| member | source | states |
|---|---|---|
| OmsRouting.EveryEventFindsItsOrder | internal/app/oms/execution_engine.go:549-585 | In every run, from an empty or a reloaded book, an event the engine takes changes the order its exchange order was placed for and that alone, and changes nothing if that order is not in the book or the exchange order is foreign, whatever tags were registered or forgotten meanwhile |
| OmsRouting.LookUpSound | internal/app/market/perp/executor.go:226-241 | Resolving the tag of an exchange order at any moment gives its owner or nothing, and for somebody else's order never one of ours |
| OmsRouting.RoutesToOwner | internal/app/oms/execution_engine.go:554-571 | While the engine is idle a resolved report routes to an order if and only if that order is its owner and is in the book |
| OmsRouting.PumpInv | internal/app/market/perp/executor.go:178-201 | Resolving, emitting and unregistering keep every report attributed to its owner or to none |
| OmsProtocol.EmitsIff | internal/app/market/perp/executor.go:252-261 | A resolved report is dropped only while 64 or more are queued and queued only while fewer than 165 are, the two buffers and the report between them; nothing else happens to it |
| OmsRouting.SubmitInv | internal/app/oms/execution_engine.go:336-411 | Accepting, retrying, placing, registering and storing an exchange ID keep owners, tags and stored IDs consistent |
| OmsRouting.CommandInv | internal/app/oms/execution_engine.go:131-160 | Events, cancels, syncs and flushes keep owners, tags and stored IDs consistent |
| OmsRouting.RunInv | internal/app/oms/execution_engine.go:131-160 | The identity invariant holds in every state of every interleaving that starts where it holds |
| OmsRouting.InitialInv | internal/app/oms/execution_engine.go:131-160 | It holds of a new engine at an untouched exchange |
| OmsRouting.GateCodecIsSound | pkg/exchange/perp/gateio/client_id.go:14-49 | The exchange's tags meet what routing needs, for trimmed IDs without the tag prefix and a digest that does not clash |
| OmsConvergence.Convergence | internal/app/oms/execution_engine.go:212-284 | In every run, whenever no report is on its way, a placed order has the exchange's status and filled size if and only if its newest report was not missed: a dropped one counts as missed until a later report, an acknowledged cancel or a sync that nothing queued overwrites makes up for it |
| OmsConvergence.LosslessRunsAgree | internal/app/oms/execution_engine.go:549-585 | A run in which the buffer was never full when a report was to be dropped agrees with the exchange on every order whenever nothing is on its way |
| OmsConvergence.RunExact | internal/app/oms/execution_engine.go:131-160 | At every moment a report of an order not yet queued is current, and with none the order is recorded as missed if and only if the engine will be left with another view |
| OmsConvergence.CancelSucceedsExact | internal/app/oms/execution_engine.go:239-251 | An acknowledged cancel keeps the record exact: the exchange reports it, or had cancelled already and then the acknowledgement counts unless an older report is queued behind it |
| OmsConvergence.CancelReachesVenue | internal/app/market/perp/executor.go:130-143 | An acknowledged cancel leaves the exchange order cancelled with what it had filled, and one report of that follows unless it was cancelled already |
| OmsConvergence.SyncReadsExact | internal/app/market/perp/executor.go:145-167 | A sync snapshot keeps the record exact: it makes up for a missed report unless an older one is still queued |
| OmsConvergence.TakeExact | internal/app/oms/execution_engine.go:572-578 | Taking an event keeps the record exact: the queue and the book together say what they said before |
| OmsConvergence.AgreementIsReachable | internal/app/market/perp/executor.go:178-201 | From every idle state a run can reach, whatever was dropped, pump steps, engine steps and syncs lead to agreement on every placed order while the exchange stands still |
| OmsConvergence.DroppedReportDivergesIff | internal/app/market/perp/executor.go:252-261 | With the buffer full a dropped report leaves the engine behind, with nothing on its way, if and only if no newer report of the order follows and the engine is left with another view |
| OmsConvergence.SyncRepairs | internal/app/oms/execution_engine.go:260-284 | A sync while nothing is on its way makes up for a missed report of its order, and for no other |
| OmsConvergence.EarlySyncIsUndone | internal/app/oms/execution_engine.go:260-284 | A reachable run in which 64 reports fill the buffer, the next is dropped, a sync reads what it said, and the older ones still queued undo that |
| OmsConvergence.InitialExact | internal/app/oms/execution_engine.go:131-160 | The record begins exact |
| OmsConvergence.CancelledOrderReopens | internal/app/oms/execution_engine.go:244-251 | A reachable run in which a cancelled order becomes partially filled again |
| OmsLedger.StoreMirrorsMemory | internal/app/oms/execution_engine.go:587-634 | While saves succeed the stored rows are the orders in memory after every step, market aside, and rows of orders that are not loaded stand |
| OmsLedger.FlushRepairsStore | internal/app/oms/execution_engine.go:286-314 | A successful flush makes the store exact again whatever saves failed before, and changes nothing in memory |
| OmsLedger.SubmitAccounting | internal/app/oms/execution_engine.go:176-210 | In every run submitted orders are successes plus rejections plus the one running, rejections equal failures, and retries stay within maxRetries per submit, whether attempts or an ended context end a submit |
| OmsLedger.OneAnswerPerOrder | internal/app/oms/execution_engine.go:186-209 | No ID is accepted twice, no order is placed more than maxRetries + 1 times, a finished submit has exactly one reply, for Submitted or Rejected, and an order loaded at the start is never accepted, placed or answered |
| OmsLedger.RepliesReportTheOutcome | internal/app/oms/execution_engine.go:389-411 | A reply is sent only by the step that sets the status it stands for, in memory and in the store |
| ExecutionEngine.OrderEngine.ExecSubmit | internal/app/oms/execution_engine.go:176-210 | No order or a known ID changes nothing; a new one is accepted, stored and tried, ending as its attempts do |
| ExecutionEngine.OrderEngine.PlaceWithRetry | internal/app/oms/execution_engine.go:349-382 | The loop stops at the first success or when the context has ended, calls Place once per attempt and counts every attempt but the first as a retry |
| ExecutionEngine.OrderEngine.SubmitWithRetry | internal/app/oms/execution_engine.go:336-387 | An order that cannot be tried is rejected without a Place call; the others end Submitted with the first exchange ID, or Rejected when attempts run out or the context ends |
| ExecutionEngine.OutcomeIsProtocolSteps | internal/app/oms/execution_engine.go:351-386 | The retry loop as a whole is the protocol's failing steps followed by its last one |
| ExecutionEngine.StopsAt | internal/app/oms/execution_engine.go:351-382 | The attempt the loop stops at: all before it fail, and it does not unless all do |
| ExecutionEngine.SubmitPlaces | internal/app/oms/execution_engine.go:351-382 | A new valid order whose first answer that is not a refusal is an exchange ID, within maxRetries + 1 attempts, ends Submitted under that ID in memory and store with the reply Ok; calls, retries and counters are the number of attempts made |
| ExecutionEngine.SubmitGivesUp | internal/app/oms/execution_engine.go:351-386 | One refused on every attempt, or whose context ends after refusals only, ends Rejected with ExchangeFailed or ContextEnded after that many calls, with no exchange ID |
| ExecutionEngine.SubmitRefuses | internal/app/oms/execution_engine.go:336-347 | One that fails validation or has no executor ends Rejected without a call |
| ExecutionEngine.OrderEngine.ExecCancel | internal/app/oms/execution_engine.go:212-258 | A cancel of an unknown order, of a Filled, Cancelled or Rejected one, or without an executor is refused without a call and changes nothing; one of a Pending, Submitted or PartialFilled order is answered as the exchange acknowledged it, and only an acknowledged one marks the order cancelled, in memory and, unless the save fails, in its row |
| ExecutionEngine.OrderEngine.FindOrder | internal/app/oms/execution_engine.go:554-566 | An event finds the order its local ID names if that is known, and otherwise one with its exchange ID if there is any; an empty ID finds nothing |
| ExecutionEngine.OrderEngine.ApplyOrderEvent | internal/app/oms/execution_engine.go:549-585 | Puts the event's status, filled size and time into the order found, in memory and, unless the save fails, in its row, and changes no other order; no event changes nothing |
| ExecutionEngine.OrderEngine.ExecSync | internal/app/oms/execution_engine.go:260-284 | A snapshot is applied to the order the command names, or for an empty ID to the one its exchange ID finds; failures leave everything as it was |
| ExecutionEngine.OrderEngine.ExecFlush | internal/app/oms/execution_engine.go:286-314 | Saves every order, or those before the first save that fails, and nothing else |
| ExecutionEngine.OrderEngine.HydrateFromSnapshot | internal/app/oms/execution_engine.go:510-524 | Loads a snapshot over memory with the market defaulted, later entries winning |
| PerpExecutor.Executor.PumpOne | internal/app/market/perp/executor.go:178-201 | One order update queues its view under the ID its trimmed tag resolves to, or drops it exactly when 64 events are queued, and forgets the tag exactly on a Filled, Cancelled or Rejected status; these are the protocol's three pump steps |
| PerpExecutor.Executor.EmitOrderEvent | internal/app/market/perp/executor.go:252-261 | Queues the event at the end, or drops it when 64 are queued |
| PerpExecutor.Executor.ResolveLocalClientId | internal/app/market/perp/executor.go:226-241 | Registered ID first, then what the trimmed tag spells |
| PerpExecutor.Executor.Place | internal/app/market/perp/executor.go:102-128 | Registers the tag on success only, before the caller learns the exchange ID |
| Recovery.CrashRecovery | internal/app/oms/execution_engine.go:510-524 | After any step of any run without failed saves, from an empty or a reloaded book, listing the store and hydrating rebuilds exactly the non-terminal orders, market aside |
| Recovery.ExactRecovery | internal/app/engine/reconcile.go:46-53 | With perp orders only, the rebuilt orders are the non-terminal ones exactly as they were in memory, market included |
| Recovery.HydrationRebuilds | internal/adapters/store/sqlite/store.go:201-227 | Listing a mirrored store and hydrating gives the open orders and only those |
| Recovery.HydratedAt | internal/app/oms/execution_engine.go:510-524 | Hydrating distinct orders gives each its own entry, in its own market or in the perp market if it names none, and keeps every other one |
| Recovery.OpenIffNotTerminal | internal/app/engine/reconcile.go:46-67 | Startup lists exactly the statuses for which a cancel is not refused |
| Recovery.ReconciledMarket | internal/app/engine/reconcile.go:64-80 | A placed open order without a market is reconciled as a perp order; an order that is not asked about is not touched |
| Recovery.ReconcileWithExecutors | internal/app/engine/reconcile.go:56-140 | Every order is brought to what the exchange answered and written back, in place and in order, each save succeeding or failing on its own |
| Recovery.LoadSnapshotAndReconcile | internal/app/engine/reconcile.go:46-53 | Startup loads every listed order as its row spells it if the exchange gave no answer, and otherwise with the answer's view and time, which its row then shows exactly if its save succeeded |
| Recovery.StartupLeavesUnanswered | internal/app/engine/reconcile.go:68-118 | A listed order that has no exchange ID, has no executor, whose Sync call fails or comes back empty is loaded exactly as its row spells it, and its row stays as it was |
| Recovery.StartupAppliesAnswer | internal/app/engine/reconcile.go:90-140 | A listed order the exchange shows is loaded with its status, filled size and time; one it no longer knows is loaded as cancelled now with the filled size of its row; the row says the same exactly if its save succeeded |
| Recovery.StartupMirrorsStore | internal/app/engine/reconcile.go:51-52 | After startup each listed order is in memory and its row is the one memory would write, terminal ones included, unless its save failed, which leaves the row as it was |
| Recovery.StartupTouchesOnlyListed | internal/app/engine/reconcile.go:46-53 | Rows of terminal orders are neither loaded nor changed |
| Recovery.StartupShowsExchange | internal/app/engine/reconcile.go:46-140 | After startup every listed order placed at the exchange that answered for it is in memory with the exchange's status and filled size, in the store too unless its save failed; one the exchange does not know is cancelled with what it had filled |
| Recovery.RestartBeginsARun | internal/app/engine/reconcile.go:46-53 | A crash while the engine is idle leads through startup to a state from which everything proved of runs holds again: identities, missed reports, store and counters |
| Recovery.AnsweredIsSettled | internal/app/engine/reconcile.go:90-138 | A reloaded order the exchange answered for truly starts in agreement with it |
| Recovery.CrashDuringPlacement | internal/app/engine/reconcile.go:63-69 | An order accepted by the exchange whose exchange ID was not stored before the crash is reloaded without it, and the exchange's reports find it again if and only if its tag spells its ID |
| GateText.DecodeOwnTag | pkg/exchange/perp/gateio/client_id.go:24-49 | Decoding the tag of any ID gives the trimmed ID without its prefix, or nothing exactly when a digest replaces or hides that |
| GateText.PrefixedIdDecodesToAnotherIff | pkg/exchange/perp/gateio/client_id.go:24-49 | The tag of a trimmed ID decodes to a different ID if and only if the ID has the tag prefix and what follows it is not empty and spelt out |
| GateText.DecodesToItselfIff | pkg/exchange/perp/gateio/client_id.go:24-49 | For any ID, decoding gives the ID or nothing if and only if its tag spells no body, or the ID itself |
| GateText.DecodesIff | pkg/exchange/perp/gateio/client_id.go:39-49 | A tag decodes to what follows its prefix, unless it has none or what follows is 28 hexadecimal digits |
| GateText.TagLength | pkg/exchange/perp/gateio/client_id.go:24-37 | A tag has at most thirty characters and spells every body of up to twenty-eight |
| GateText.HexDigits | pkg/exchange/perp/gateio/client_id.go:51-60 | The sixteen digits in either case count as hexadecimal and nothing else does |
| KlineHistory.Buffers.IngestHistory | internal/app/market/perp/kline_history.go:69-93 | Merging bars of any age and order puts the last bar of every contract and timestamp named into the history, closed and with an interval, leaves every other entry, and keeps every buffer the newest max bars of that history |
| KlineHistory.IngestKeepsLast | internal/app/market/perp/kline_history.go:75-92 | After an ingest the history of every named contract has each timestamp named: the last bar of that contract and timestamp in argument order, closed, and in the request's interval if it had none |
| KlineHistory.IngestKeepsOthers | internal/app/market/perp/kline_history.go:70-83 | Timestamps no bar names, other contracts and other intervals keep their entry, as they all do under an empty interval |
| KlineHistory.ShownUnlessNewer | internal/app/market/perp/kline_history.go:96-128 | A listing within the limit shows a bar of the history exactly if fewer than the limit are newer |
| KlineHistory.FewerNewest | internal/app/market/perp/kline_history.go:115-120 | The last bars of a window are the window of that many bars |
| KlineHistory.Buffers.MergeInto | internal/app/market/perp/kline_history.go:140-153 | One merge overwrites or inserts so that the buffer still covers the history, in order |
| KlineHistory.Buffers.MergeKline | internal/app/market/perp/kline_history.go:140-153 | One merge writes one key's bar and leaves every other key and its history alone |
| KlineHistory.Buffers.AppendClosedKline | internal/app/market/perp/kline_history.go:54-66 | A live closed bar that is not older than the newest keeps every window exact; an open one changes nothing |
| KlineHistory.Buffers.ListClosedKlines | internal/app/market/perp/kline_history.go:96-128 | The newest min(limit, max, length) bars of the history, oldest first; none for an empty name or a limit that is not positive |
| KlineHistory.Buffers.Search | internal/app/market/perp/kline_history.go:142-144 | The binary search finds the first bar not older than the timestamp |
| KlineHistory.Buffers.SortTrim | internal/app/market/perp/kline_history.go:155-175 | Sorts a buffer and keeps its last max bars |
| KlineHistory.MergeKeepsCover | internal/app/market/perp/kline_history.go:145-152 | Inserting at the search position keeps the buffer covering the history with the new bar |
| KlineHistory.TrimKeepsCover | internal/app/market/perp/kline_history.go:166-175 | Trimming a covering buffer gives exactly the newest bars |
| KlineHistory.AppendOrderIff | internal/app/market/perp/kline_history.go:130-138 | A live append keeps the buffer strictly increasing if and only if the bar is not older than its newest |
| KlineHistory.AppendInOrder | internal/app/market/perp/kline_history.go:130-138 | An in-order append and trim moves the window to the newest bars of the longer history |
| KlineHistory.NewestUnique | internal/app/market/perp/kline_history.go:166-175 | The window of a history is unique, so the invariant fixes the buffer's contents |
| KlineHistory.SortedAlready | internal/app/market/perp/kline_history.go:160-162 | The sort after an ingest finds the buffer already in order |
| KlineHistory.SortByTime | internal/app/market/perp/kline_history.go:160-162 | The sort yields the same bars in ascending order |
| CrashTracker.Tracker.Record | internal/app/engine/restart.go:24-28 | A crash is appended to the visible slice and to the true record |
| CrashTracker.Tracker.PruneAndCount | internal/app/engine/restart.go:30-35 | The count is at least the true in-window crashes, at most all recorded, and exact until a scan has left a stale entry |
| CrashTracker.Tracker.CountInWindow | internal/app/engine/restart.go:37-41 | The same bounds although the shortened slice is thrown away; exact through the first scan that meets an expired entry |
| CrashTracker.PruneInPlace | internal/app/engine/restart.go:43-55 | Compaction on the shared array returns the in-window entries and leaves the documented leftovers behind them |
| CrashTracker.CountBounds | internal/app/engine/restart.go:30-41 | Any count lies between the true in-window number and the number recorded |
| CrashTracker.ScanTracks | internal/app/engine/restart.go:37-41 | The leftovers of a scan never hide a crash from a later count |
| CrashTracker.PruneTracks | internal/app/engine/restart.go:43-55 | Pruning never loses a crash inside the window |
| CrashTracker.SecondCountIff | internal/app/engine/restart.go:37-55 | A second count at the same moment agrees with the first if and only if no expired entry stands before a live one, and is too high otherwise |
| CrashTracker.SecondCountAscending | internal/app/engine/restart.go:37-55 | On records in time order, k of n live, the second count is k + min(k, n - k): right if and only if nothing or everything has expired |
| CrashTracker.SecondCount | internal/app/engine/restart.go:37-55 | A second count finds the live entries and those still standing behind the compacted ones |
| RestartProtocol.RateLimit | internal/app/engine/restart.go:132-219 | In every run without a late launch failure any window holds at most maxCrashes automatic creations |
| RestartProtocol.RateLimitWithLateFailures | internal/app/engine/restart.go:132-219 | In every run any window holds at most maxCrashes automatic creations and one more for each launch, before the window's last creation, that failed after registering its process |
| RestartProtocol.RunFewStraddle | internal/app/engine/engine.go:903-948 | In every run the routines and the running process, and those past a check that saw at most n records together with what they created after the n-th, outnumber one by the late failures at most |
| RestartProtocol.FewStraddleUpTo | internal/app/engine/engine.go:903-948 | Up to any creation only the late failures before it add to that number |
| RestartProtocol.CurrentCheckRateLimit | internal/app/engine/restart.go:181-202 | In every run, the same for windows whose last creation had no crash recorded after its check |
| RestartProtocol.LimitHoldsIff | internal/app/engine/restart.go:132-219 | For a positive window every run keeps the limit if and only if maxCrashes is at most one |
| RestartProtocol.LateFailuresBreakTheLimit | internal/app/engine/engine.go:566-626 | For every larger limit a run in which late launch failures let more processes than the limit be created at one instant |
| RestartProtocol.NothingRestarts | internal/app/engine/engine.go:903-948 | Under a limit of one or less nothing is ever restarted, since a crash counts itself |
| RestartProtocol.FirstCrashRestarts | internal/app/engine/engine.go:903-948 | Under a larger limit a run restarts the strategy after its first crash |
| RestartProtocol.ClosedGates | internal/app/engine/restart.go:136-148 | A check that finds a gate closed ends its routine, and an exit that does schedules none |
| RestartProtocol.ClosedGatesRestartNothing | internal/app/engine/engine.go:925-945 | Nothing is restarted in a run whose exits never find the gates open |
| RestartProtocol.OpenCircuitEnds | internal/app/engine/restart.go:136-219 | In every run, while maxCrashes recorded crashes lie in the window, every check and every judgement ends its routine |
| RestartProtocol.ClosedCircuitGoesOn | internal/app/engine/restart.go:181-219 | While fewer are recorded at all, every check passes and a failure short of the third is followed by another attempt |
| RestartProtocol.LaunchEnds | internal/app/engine/restart.go:194-218 | A launch that starts nothing counts as a failure, one that finds the strategy running as a success, and one that registers its process and then fails leaves both the process and the failure |
| RestartProtocol.CountingCompacts | internal/app/engine/restart.go:125-134 | Every check and judgement compacts the visible crash records in place |
| RestartProtocol.RestartTerminates | internal/app/engine/restart.go:185-224 | The steps of others leave a restart routine alone; its own next step is always possible and, whatever its outcome, ends it or uses up fuel, and its third failed launch is its last |
| RestartProtocol.EndsByItself | internal/app/engine/restart.go:185-224 | From every reachable state a routine's own steps end it, thirteen at most |
| RestartProtocol.RunSingle | internal/app/engine/engine.go:903-948 | Without late failures there is one restart routine at most, and none beside a running process |
| RestartProtocol.RunInv | internal/app/engine/restart.go:119-219 | Between two creations a crash is recorded, and each creation saw the circuit closed at its check |
| Subscriptions.NoPrematureUnsubscribe | internal/app/market/perp/router.go:96-121 | In every run a contract is counted at least once per strategy holding it, all counts are exact if and only if no strategy subscribed a symbol it held or named one twice, and a ticker is dropped only when no strategy holds it |
| Subscriptions.UnsubscribeCounts | internal/app/market/perp/router.go:171-189 | Unsubscribing a strategy keeps the counts and drops a contract only if nobody is left |
| Subscriptions.SubscribeSymbolsCounts | internal/app/market/perp/router.go:103-121 | Subscribing keeps every contract counted at least once per holder |
| Subscriptions.ResubscribeLeaks | internal/app/engine/engine.go:574-581 | For any strategy and contract, subscribing twice and unsubscribing once leaves the contract counted without a holder |
| Subscriptions.LeakIff | internal/app/market/perp/router.go:96-121 | A contract nobody holds keeps its count and ticker if and only if some subscription of it in the run was surplus |
| Subscriptions.CountIsHoldersAndSurplus | internal/app/market/perp/router.go:96-121 | In every run a contract's count is its holders plus every surplus subscription ever made of it |
| Subscriptions.PushedIff | internal/app/market/perp/router.go:103-114 | In every run a strategy receives the ticks of a contract if and only if it subscribed it with push and has not unsubscribed since |
| Subscriptions.StreamedIff | internal/app/market/perp/router.go:115-121 | In every run it receives the bars of a contract and interval if and only if it subscribed those and has not unsubscribed since |
| Subscriptions.NoEmptyEntries | internal/app/market/perp/router.go:171-189 | In every run no table keeps an entry without a strategy |
| Subscriptions.KeyInjective | pkg/exchange/perp/gateio/ws_channel.go:48-50 | Streams of canonical comma-free symbols and trimmed intervals have distinct keys |
| Subscriptions.UpdateAllAgrees | pkg/exchange/perp/gateio/ws.go:141-161 | Writing a list of frames adds or removes exactly those frames in the active table |
| WsHub.Hub.SetSubscriptions | pkg/exchange/perp/gateio/ws.go:121-166 | The active table moves by exactly the frames written before the first refusal or failed write |
| WsHub.RefusedIff | pkg/exchange/perp/gateio/ws_channel.go:88-150 | A request is refused if and only if its channel is neither tickers nor candlesticks, it names no contract, or candlesticks lack an interval |
| WsHub.FramesOfRequest | pkg/exchange/perp/gateio/ws_channel.go:88-150 | An accepted request writes one frame per contract, in order: the exchange name of the contract, after the trimmed interval for candlesticks |
| WsHub.ChannelDefaults | pkg/exchange/perp/gateio/ws_channel.go:52-58 | A blank channel is the ticker channel and any other is itself without outer spaces |
| WsHub.ChannelsLeave | pkg/exchange/perp/gateio/ws.go:141-161 | Whatever is written, a channel leaves the active table with its last subscription |
| WsHub.Hub.ReconnectAfterError | pkg/exchange/perp/gateio/ws.go:275-331 | A successful reconnect writes every active subscription exactly once, passing over writes that fail, and resets the backoff; a failed one doubles it up to its maximum and writes nothing |
| WsHub.Hub.Snapshot | pkg/exchange/perp/gateio/ws.go:300-317 | Lists every tracked payload once |
| MarketRouter.AgreementOverRuns | internal/app/market/perp/router.go:96-197 | After any run of subscribe and unsubscribe calls the hub's tickers and candlesticks are exactly the expansions of the router's tables |
| MarketRouter.ReplayIsWanted | pkg/exchange/perp/gateio/ws.go:300-329 | What a reconnect replays on the market-data channels is exactly what the router wants, less the writes that failed |
| MarketRouter.RequestsWriteStreams | pkg/exchange/perp/gateio/ws_channel.go:88-150 | The requests of a call are accepted and expand to exactly its streams' frames |
| MarketRouter.Feed.SubscribeContracts | internal/app/market/perp/router.go:96-156 | Counts every symbol and asks the hub only for streams nobody had; a successful call keeps both layers consistent |
| MarketRouter.AsksOnce | internal/app/market/perp/router.go:103-121 | A call asks once for the ticker and the candles of every listed contract that had none, however often it is listed, and not at all for the others |
| MarketRouter.Feed.UnsubscribeAll | internal/app/market/perp/router.go:171-197 | Drops the strategy everywhere; a successful call keeps both layers consistent |
| MarketRouter.Feed.DecTickerRefs | internal/app/market/perp/router.go:220-247 | One reference fewer per contract held, returning exactly the contracts that reach none |
| MarketRouter.DropStrategy | internal/app/market/perp/router.go:178-189 | Removes a strategy from a table and returns exactly the entries left empty |
| Contract.CanonicalIdempotent | pkg/exchange/perp/contract.go:7-29 | Canonicalising twice is canonicalising once, for every string |
| Contract.GateRoundTrip | pkg/exchange/perp/gateio/convert.go:15-21 | Canonicalising the exchange form of any name gives its canonical form |
| Contract.GateInjective | pkg/exchange/perp/gateio/convert.go:15-21 | Different canonical names have different exchange names |
| Contract.CandlestickNameRoundTrip | pkg/exchange/perp/gateio/ws_handlers.go:92-99 | A channel name parses to the interval and contract it was built from |
| Contract.Canonicalize | pkg/exchange/perp/contract.go:7-21 | The in-place rewriting of the parts computes the canonical name |
| Contract.PairCanonical | pkg/exchange/perp/contract.go:7-21 | Two names without blanks at the ends, joined by a slash or an underscore, become both in upper case around a slash |
| Contract.CompactCanonical | pkg/exchange/perp/contract.go:13-29 | A base followed by USDT in any case becomes the base in upper case before "/USDT" |
| Contract.GateFormAt | pkg/exchange/perp/gateio/convert.go:15-21 | The exchange form has no slash and differs from the canonical name at its slashes only, which are underscores |
| Contract.ParsedPieces | pkg/exchange/perp/gateio/ws_handlers.go:92-99 | A channel name parses to what stands before its first underscore and the canonical form of what follows, if neither is empty, and to nothing otherwise |
| Contract.UnparsedWithout | pkg/exchange/perp/gateio/ws_handlers.go:94-97 | A name without an underscore parses to nothing |
| Strings.TrimCuts | pkg/exchange/perp/contract.go:8 | Trimming cuts spaces at both ends and nothing else |
| Strings.SpaceChars | pkg/exchange/perp/contract.go:8 | The spaces are the blank, the tab, the line feed, the vertical tab, the form feed and the carriage return |
| Strings.UpperChars | pkg/exchange/perp/contract.go:18 | Upper case changes the letters a to z to A to Z and no other character |
| Risk.RejectedIff | internal/domain/risk/evaluate.go:36-177 | Rules reject exactly when they are enabled and a limit is broken; the cap binds increasing orders the order-size limit does not cut, and rejects those for which not one whole contract fits; disabled rules allow everything |
| Risk.FirstBrokenNamed | internal/domain/risk/evaluate.go:41-123 | The first broken check, in the order of the ten, names the rejection |
| Risk.CapRejectionNamed | internal/domain/risk/evaluate.go:134-165 | A rejection behind them says that notional values are missing, or that the cap leaves no whole contract |
| Risk.MergeOfNothing | internal/domain/risk/merge.go:18-57 | No effective override means the global rules; merging is idempotent and cannot switch risk off |
| Risk.EachOverrideItsOwn | internal/domain/risk/merge.go:18-57 | Each override replaces its own rule and no other, and any one of them makes the overrides effective |
| Risk.PositionReductionIsLargest | internal/domain/risk/evaluate.go:142-173 | A position reduction is whole, positive, smaller than requested, and the largest size within the cap |
| Risk.AllowedWithinCap | internal/domain/risk/evaluate.go:134-177 | An allowed increasing order stays within the cap, up to half a unit in the 16th place per division |
| Risk.CapHoldsIff | internal/domain/risk/evaluate.go:142-173 | Every allowed size respects the cap exactly if and only if the size the rule reduces to does |
| Risk.ExactDivisionsHold | internal/domain/risk/evaluate.go:158-166 | With divisions that need no rounding the cap always holds exactly |
| Risk.CapCanLeak | internal/domain/risk/evaluate.go:158-166 | A concrete cap that an allowed order passes |
| Risk.VerdictShrinks | internal/domain/risk/evaluate.go:125-175 | What passes is positive, no larger than requested and within the order-size limit; a reduction is strictly smaller |
| Risk.AllowedIsLargest | internal/domain/risk/evaluate.go:158 | The allowed size fits up to the division's rounding and one contract more does not |
| RiskContext.LazyGateEqualsEager | internal/app/engine/risk_input.go:21-67 | For the global rules and every strategy's, computing notional values only when the gate asks gives the verdict of always computing them |
| RiskContext.BuildRiskContext | internal/app/market/perp/risk.go:59-172 | The fields filled so far stand where the first unknown value stops the filling |
| RiskContext.BuildSees | internal/app/market/perp/risk.go:59-106 | The context shows the order, the open orders, the losses and, of a ready account, the positions and the equity as they are |
| RiskContext.BuildLeverage | internal/app/market/perp/risk.go:149-169 | Its leverage is the exposure of all positions, and of the order if it increases, over the equity |
| RiskContext.ExposureAdds | internal/app/market/perp/risk.go:186-199 | Each position of positive size adds its notional to the exposure or makes it unknown; no other changes it |
| RiskContext.PositionMarkPrices | internal/app/decision/notional.go:41-47 | A positive mark of the position held prices that position and the order, whatever the ticker says |
| RiskContext.FindFirst | internal/app/market/perp/risk.go:102 | The position of a contract is the first listed under its name |
| RiskContext.TotalExposure | internal/app/market/perp/risk.go:174-201 | The sum over positive positions, unknown if any of them has no price |
| RiskContext.BuildProjects | internal/app/market/perp/risk.go:131-161 | An increasing order of any size adds its size times one unit notional to the position, whatever the size |
| Notional.NotionalIsUnits | internal/app/decision/notional.go:14-34 | A notional is known if and only if one contract's is, and is that many times it |
| Notional.NotionalValue | internal/domain/risk/notional.go:6-11 | It is |size| times mark times multiplier, with the position's mark if positive, then the ticker's mark, then its last price |
| Notional.NotionalUnknownIff | internal/app/decision/notional.go:14-56 | It is unknown exactly without a positive multiplier or without a positive price before an unreadable one |
| Notional.TickerMarkPrice | internal/app/decision/sizing.go:17-34 | The first positive of mark and last price; an unreadable one ends the search |
| Reductions.AtMostTwoReductions | internal/domain/risk/evaluate.go:107-175 | Re-evaluating on a fixed snapshot stops reducing after at most two reductions, a position reduction being allowed as it is |
| Reductions.BuildSmaller | internal/app/market/perp/risk.go:126-169 | A smaller size of the same order sees the same account and prices and no higher leverage |
| Sizing.BudgetBound | internal/app/decision/sizing.go:37-89 | A computed size is positive and within the limits; unclamped, it costs at most the budget and one contract more costs more |
| Sizing.NotionalUsdtToContracts | internal/app/decision/sizing.go:37-89 | The clamps lift a positive budget to the minimum, then cap it; a size that is not positive is an error |
| Sizing.ClampedExactly | internal/app/decision/sizing.go:71-84 | A budget of too few contracts buys the minimum and one of too many the maximum |
| Sizing.MaximumWins | internal/app/decision/sizing.go:80-84 | No size is above the maximum, even where the minimum is |
| Sizing.FractionalBudget | internal/app/decision/sizing.go:67-70 | A contract traded in fractions costs the budget to half a unit in the 16th place, where no limit applies |
| Sizing.BudgetWithinBalance | internal/app/decision/sizing_mode.go:13-58 | A budget of any mode exceeds the available balance if and only if the balance is divided by one and its digits behind the 16th place amount to half a unit or more |
| Sizing.BudgetExceedsBalance | internal/app/decision/sizing_mode.go:23-30 | Such a balance: 0.00000000000000006 gives a budget of 0.0000000000000001 |
| Sizing.FixedBudget | internal/app/decision/sizing_mode.go:42-50 | A Fixed budget is the value asked for if the balance covers it, and is refused otherwise |
| Sizing.PercentBudget | internal/app/decision/sizing_mode.go:32-40 | A Percent budget is nothing at 0 and the balance at 1, and is refused exactly outside that range or without a value |
| Sizing.PercentProportional | internal/app/decision/sizing_mode.go:40 | Between them it is proportional: budgets of two shares add up to that of their sum |
| Sizing.DefaultBudget | internal/app/decision/sizing_mode.go:22-29 | The default budget is the balance over the divisor, or over ten if that is not positive, to half a unit in the 16th place |
| Sizing.FormattedSizeIsValid | internal/app/oms/place_validate.go:34-55 | With agreeing whole limits and no step, or a step of one for an integer contract, every computed size passes the size check once formatted |
| Sizing.StepDecides | internal/app/oms/place_validate.go:51-53 | For any contract whose limits agree and are whole, the formatted size of a budget passes the size check if and only if it is a multiple of the step |
| Sizing.FormattedSizeIsValidIff | internal/app/oms/place_validate.go:34-55 | For every contract, it passes if and only if the limits agree, truncation leaves a positive size not below the minimum, and that is a multiple of the step |
| Sizing.PlaceableSizes | internal/app/oms/place_validate.go:34-55 | A size is accepted exactly if it is positive, whole unless the contract is traded in fractions, between the limits set, and a whole multiple of the step |
| Decimals.TruncateTowardZero | internal/app/oms/place_validate.go:42 | Truncation drops the digits behind the point on either side of zero |
| Sizing.CoarseStepFails | internal/app/oms/place_validate.go:51-53 | Such a case: with a step of five a budget of seven contracts is computed and then refused |
| Decision.DecisionEngine.ProcessSignal | internal/app/decision/decision_engine.go:58-130 | Decides by validity, size and side, counting each signal once and once more as rejected or as an order |
| Decision.NoRepeatedEntry | internal/app/decision/decision_engine.go:166-172 | A signal in a direction already held is no order, and with any other position it is decided as if there were none |
| Decision.EntryFollowsSignal | internal/app/decision/decision_engine.go:195-201 | What fills of an order for a Long signal enlarges the signed position, and for a Short signal lessens it |
| Decision.RefusedIff | internal/app/decision/decision_engine.go:63-95 | A signal is refused exactly if it or the account is unfit or it is to open a position whose size cannot be told |
| Decision.OrdersNeed | internal/app/decision/decision_engine.go:63-76 | Orders come only from valid signals on a ready account, with a positive amount if one is given |
| Decision.NothingToSpend | internal/app/decision/decision_engine.go:85-88 | A default budget of an empty balance is no order rather than a refusal |
| Decision.FlatSize | internal/app/decision/decision_engine.go:149-159 | A Flat order is for the size of the position where formatting leaves it as it is |
| Decision.CustomSize | internal/app/decision/decision_engine.go:176-185 | A Custom order is for the size asked for where formatting leaves it as it is |
| Decision.BudgetedSizes | internal/app/decision/decision_engine.go:187-191 | Any other order is for what the budget buys at the known price, whole unless the contract is traded in fractions |
| Decision.FlatOrderCloses | internal/app/decision/decision_engine.go:149-159 | A Flat order is opposite to the position and no part of it takes the position past zero |
| Pipeline.DispatchSignal | internal/app/engine/engine.go:387-467 | Under the kill switch only Flat signals pass; a Long signal sends a buy, a Short one a sell and a Flat one the opposite of the position, in the signal's contract and with the size both tiers left it, or nothing is sent |
| Pipeline.EvaluateStrategyRisk | internal/app/engine/strategy_risk.go:21-44 | Writes a reduced size into the order and rebuilds the context, and passes through without effective overrides |
| Pipeline.OpenPositionCountForStrategy | internal/app/engine/strategy_risk.go:62-95 | Counts the contracts the strategy lists, blanks trimmed, that have a positive position; -1 while the account is not ready |
| Pipeline.CountedPositions | internal/app/engine/strategy_risk.go:62-95 | A position counts exactly if its size is positive and some listed symbol, blanks trimmed, is its contract |
| Pipeline.SentWithinLimits | internal/app/engine/engine.go:429-463 | What leaves is positive, at most the decided size and within the order-size limits of both tiers |
| Pipeline.SentMeetsLimits | internal/domain/risk/evaluate.go:41-123 | What leaves met the limits on open orders, positions, daily loss, drawdown and the position lock of the global rules, and those of the strategy with its own counts |
| Pipeline.EnlargesIff | internal/domain/risk/exposure.go:23-49 | Every fill of an order enlarges the position in absolute value exactly if the order goes with it or there is none |
| Pipeline.IncreasingIff | internal/domain/risk/exposure.go:23-49 | The context of a ready account counts an order as increasing exactly if every fill of it enlarges the position |
| Pipeline.DecidedEndsAt | internal/app/decision/decision_engine.go:195-222 | The direction of a signal ends where the side of the order decided for it does |
| Pipeline.SentWithinCap | internal/app/engine/engine.go:446-463 | An order for a contract without a position, or in the direction of the one held, that leaves keeps the global cap, up to rounding, provided the order-size limit does not cut what the strategy tier left |
| Pipeline.CutOrderWithinCapIff | internal/domain/risk/evaluate.go:125-132 | An order the limit cuts is sent with exactly the limit, and so respects the cap if and only if that many contracts fit under it |
| Pipeline.CutOrderPassesCap | internal/domain/risk/evaluate.go:125-132 | A dispatch of nine contracts sent as five over a cap of one, where an order of five is sent as one |
| Pipeline.SentWithinStrategyCap | internal/app/engine/strategy_risk.go:21-44 | The strategy tier keeps an order for a contract without a position, or in the direction of the one held, within the strategy's own cap, up to rounding, provided the strategy's order-size limit does not cut it, and what is sent is no larger |
| Pipeline.StrategyCutWithinCapIff | internal/domain/risk/evaluate.go:125-132 | An order the strategy's limit cuts leaves that tier with exactly the limit, and respects the strategy's cap if and only if that many contracts fit under it |
| Pipeline.StrategyCutPassesCap | internal/domain/risk/evaluate.go:125-132 | A dispatch of nine contracts sent as five over a strategy's cap of one, where an order of five is sent as one |
| Pipeline.LazySentEqualsEager | internal/app/engine/risk_input.go:21-67 | Both tiers, with the context rebuilt after a strategy reduction, send the same whether notional values are computed only when the gate asks or always |
| Pipeline.ReversalUncapped | internal/domain/risk/exposure.go:23-49 | An order against a held position gets the same verdict under any cap |
| Pipeline.ReversalOverCapIff | internal/app/engine/engine.go:429-463 | A sent reversal carries what the order-size limits leave of the decided size, and puts the position over the cap on the other side if and only if what that has beyond the old position is worth more than the cap |
| Pipeline.ReversalPassesCap | internal/domain/risk/exposure.go:23-49 | A dispatch of five contracts against a position of one, sent whole over a cap of one contract |
| Pipeline.FlatNeverFlips | internal/app/decision/decision_engine.go:195-222 | However much of a sent Flat order fills, the signed position ends between zero and where it was |
| FlatOrders.FlatOrdersKeepSideIff | internal/app/decision/decision_engine.go:149-159 | Flat orders decided on one view of the account leave the position between zero and where it was if and only if what fills of all of them is no more than the position |
| FlatOrders.FlatOrdersSafeIff | internal/app/market/perp/executor.go:109-118 | However they fill, they cannot flip the position if and only if together they are no larger than it |
| FlatOrders.TwoFlatsFlip | internal/app/market/perp/executor.go:109-118 | The same Flat signal dispatched twice turns long one into short one |
| Projection.RevisionIdentifiesAccount | internal/app/projection/account_projection.go:182-234 | Along a run the revision never decreases, readiness is never lost and an equal revision is an equal account |
| Projection.EqualRevisionsAgree | internal/app/projection/account_projection.go:157-169 | Two snapshots of a contract with the same revision agree |
| Projection.PayloadsAreConsistent | internal/app/projection/account_projection.go:255-301 | Every hook payload is the account at one moment of the run, with strictly increasing revisions |
| Projection.AccountProjection.Commit | internal/app/projection/account_projection.go:255-296 | A successful refresh replaces everything, moves to the next revision and captures what the hook will get |
| Projection.RefreshShown | internal/app/projection/account_projection.go:265-285 | After a refresh the balance is the one fetched and each contract shows the last position fetched under its name |
| Projection.UnfetchedGone | internal/app/projection/account_projection.go:265-283 | A contract that was not fetched shows no position |
| Projection.AccountProjection.OnUserEvent | internal/app/projection/account_projection.go:182-234 | An event patches one position or the balance in place under a new revision, or changes nothing |
| Projection.PositionEventShown | internal/app/projection/account_projection.go:199-212 | After a position event of a ready account its contract shows the position sent, or none if its size is zero; every other contract and the balance are as before |
| Projection.BalanceEventShown | internal/app/projection/account_projection.go:214-234 | A balance event in the account's currency, case and outer blanks aside, shows its trimmed amount and its time; one in another currency or without an amount changes nothing |
| Projection.OtherEventsIgnored | internal/app/projection/account_projection.go:186-197 | Events before the first refresh, of other kinds or without a contract change nothing |
| Projection.AccountProjection.Snapshot | internal/app/projection/account_projection.go:157-169 | Copies balance, position and revision of one moment; none before the first refresh |

## Left out

- RestartProtocol.RateLimit: assumes that no launch fails after registering its process, because the limit is false otherwise for every limit above one; RestartProtocol.RateLimitWithLateFailures bounds the other runs.
- Risk.AllowedWithinCap: allows the rounding of two divisions, because the exact cap is false; Risk.CapHoldsIff gives the exact condition.
- Pipeline.SentWithinCap: excludes orders the order-size limit cuts and allows the same rounding, because the cap is not checked there; Pipeline.CutOrderWithinCapIff covers the orders it excludes.
- Pipeline.SentWithinStrategyCap: excludes orders the strategy's limit cuts and allows the same rounding; Pipeline.StrategyCutWithinCapIff covers the orders it excludes.
- Pipeline.ReversalOverCapIff: assumes that the position is against the order for both tiers, also when a strategy reduction has rebuilt the context.
- OmsConvergence.Convergence: the exchange reports each change once and in order, and a sync answers with its present state.
- OmsRouting.EveryEventFindsItsOrder: assumes that a failed Place leaves no exchange order behind and that tags do not collide.
- OmsRouting.GateCodecIsSound: assumes trimmed IDs without the tag prefix, because an ID with it can decode to another; GateText.PrefixedIdDecodesToAnotherIff says which.
- OmsLedger.StoreMirrorsMemory: a save interrupted by shutdown counts as one that failed.
- Recovery.RestartBeginsARun: assumes a crash between two commands and no failed save before it; Recovery.CrashDuringPlacement covers one inside a placement.
- KlineHistory.Buffers.AppendClosedKline: the window is exact only for live bars not older than the newest, because the append does not check the order.
- WsHub.Hub.SetSubscriptions: refuses channels other than tickers and candlesticks, which the source expands after the same pattern.
- Recovery.LoadSnapshotAndReconcile: strategy states, loaded before the orders, are not modelled.
- The second queue between the executor and the order engine: it neither drops nor reorders, so one queue stands for both, and a drop needs as many reports on it as the executor's buffer holds.
- FilledOrders, CancelledOrders and the time of the last update: counters that nothing else depends on.
- Aliasing of order objects between the engine, the update channel and readers: orders are values in the engine's map.
- Copies of bars handed out by the history: sequences of values cannot be changed by their readers.
- The crash tracker's map of strategies: one tracker stands for one strategy, and the slices are independent.
- Backoff before a restart and its attempt counter: routines wake at any time, which covers every backoff.
- Failed reconnects beyond the doubled backoff: the read loop then idles on a missing connection.
- Router tables after a failed exchange write: the source keeps what it counted, and agreement is claimed for successful writes only.
- `UnsubscribeContracts`: never called by the engine.
- Messages and the STRATEGY_ prefix of verdict codes, reject logs and the kill switch's reason.
- Limit prices, order types and the price step check: field copying and one remainder test.
- The equity hook and the sorted order of hook positions: a maximum fold and a sort.
- Revision and counter overflow: integers are unbounded.
- SQLite, HTTP, websockets, signing, JSON, gRPC, configuration, the Python SDK and spot markets.
