# zpay: a verified model of reorg-aware settlement

zpay is a payment facilitator. A payment is prepared, broadcast, and then watched on a chain
that can reorganize, by three concurrent actors: the HTTP settle handlers, a periodic
reconciliation tick, and a live chain-event subscription. Clients follow it over a
server-sent event stream fed by a lossy bounded channel. This project models that machinery
in Dafny and proves its promises for all inputs, all interleavings and all runs.
`dafny verify dfyconfig.toml` checks everything.

| module | what it holds |
|---|---|
| `Types`, `ChainStatus`, `Status` | rows, the two-height chain view and its cache, the status projection |
| `SettlementLedgers`, `LedgerStore` | the in-memory ledger, the libSQL ledger, and their simulation |
| `Prepare`, `PreparedStore`, `Idempotency` | `propose`, the two-index cache, the libSQL table and their simulation, replay by key over runs |
| `Settle`, `Pczt` | the two settle paths, exact-amount matching |
| `Reconcile` | the tick: agreement with the chain, idempotence, confluence with the event path |
| `Lifecycle`, `Permanence`, `Lookups` | the whole system as a state machine, theorems over runs, what settlement means in the long run, lookups spread over several steps |
| `TickRuns`, `EventPath` | ticks and the subscription loop as runs of that machine, confluence inside a run |
| `Interleavings` | runs that break what is not promised |
| `EventStream`, `EventHub`, `Handshake`, `Delivery` | the stream, its hub, the subscribe handshake, and settlement reaching the client |
| `ChainEvents` | the subscription loop: resume, reconcile, back off |
| `RateLimit`, `Dpop` | time-indexed stores with eviction |
| `ZecAmount`, `Binding` | decimal printing, memo pre-images |

Objects the program updates in place are classes. Each method is tied to a specification
function on values (`Tick`, `Polled`, `Checked`, `Executed`, `Proposed`, …). What such a function
means is stated once more without it (`TickAgreesWithChain`, `AcceptanceIff`,
`SettleRecordedIff`, `ProposeIff`, `UriReads`, …), and the theorems are about its runs.

## How the concurrency is modelled

`Lifecycle` makes every handler one atomic step. A tick takes its view in one step, reads the
rows in another and visits each row in one more; the steps of any number of ticks interleave
freely with everything else, each row visited once, against what its own tick read. An envelope of the
event subscription is two steps, the view and the reorg, with anything in between. The chain
plane is an environment. `SafeFor` is the exact condition under which a step keeps one payment
settled. `HeightHeld` is all that the chain plane has to respect for a row the settled tip has
passed (no tip, no tick's view and no range falls below it); the tick's own guard does the
rest, whatever the answers. `Calm` is a chain plane that makes every step safe for everyone.
None of them says how ticks and envelopes overlap. The event stream, the handshake and the
rate limiter have their own run semantics; `Handshake` splits every lookup into its two reads.

## What turned out not to hold

- `settled` is not permanent merely because the settled tip is monotone and every reverted
  range starts above its own envelope's settled tip. A tick that raises the tip between an
  envelope's view and its reorg lets the reorg regress a settled row
  (`OvertakenEnvelopeUnsettles`). `SafeForIff` and `LatchIff` give the exact condition,
  `OnlyOldTicksUnsettle` says which ticks matter, and `EnvelopesLatch` shows that whole
  envelopes are enough.
- The event path and the poll path do not always meet in the tick. Ranges are heights, and a
  transaction is often mined again at a height its old block had: a reorg handled after the tick
  has visited the row undoes what the tick has just written, until the next tick
  (`ReorgAfterVisitUnmines`). `RowAgreesIff` and `ConfluenceInRun` give the exact condition;
  reorgs handled before the visit are always absorbed.
- A snapshot published after a settled one need not be settled: a tick publishes with the view
  it took at its start (`TickPublishesOlderView`, `SettledLatches`).
- A mined height does not always come with a confirmation. An in-mempool answer held by a
  second tick can zero the count of a row mined since, and once the settled tip has passed that
  height no later tick whose view shows it polls the row (`MinedHasDepth`, `StaleAnswerStrands`,
  `StrandedForever`; `PartialViewRepairs` is the exception).
- `Expired` and `Failed` are documented as terminal (crates/zpay-core/src/status.rs:78-91) and
  close the stream, but can be left: a lapsed broadcast can turn out mined, a prepared row past
  its validity can still be settled, a rejected broadcast can be retried (`ExpiredLeftIff`,
  `FailedLeftIff`, `ExpiredThenMined`, `ExpiredThenSettled`, `FailedThenBroadcast`).
- A lookup reads the ledger and then the prepared store, and a settle writes them in that
  order. A lookup that straddles a settle reports `NeverIssued`, which answers a probe with 404
  and closes a stream (`TwoReadLookupIff`, `StraddlingLookupLosesPayment`).
- The documentation of `downgrade_reorged_range` speaks of success-kind rows; the code does
  not look at the kind. The difference never shows, since failure-kind rows never carry a
  height (`Lifecycle.Reachable`).
- A failed delete after a recorded success leaves the payment open to a second settle, which
  overwrites the row (`RecordingKeepsInvIff`, `FailedDeleteOverwrites`).
- `retry_after` drops fractions of a second, so a retry at exactly that time can be refused
  (`RetryAllowed`, `RetryTooEarly`).
- The replay store evicts everything whenever any call comes while `now - ttl` is not
  representable, so an unrelated call can make it forget a proof that is good for a while yet
  (`AcceptedAgainIff`, `StrangerForgets`). The clock of the issued-at gate is read after the
  store: a proof is also accepted twice when its verification is suspended for more than 179 s
  in between (`SlackExceeded`).
- The challenge pre-image is ambiguous when the nonce or the URI contains a NUL byte, or when
  the payee contains bytes that look like its own end (`UnambiguousIff`).
- The trait comment on `find_by_idempotency` mentions expiry; neither implementation filters
  by time, and the model follows them: a row answers until it is swept.

## Model

| member | source | states |
|---|---|---|
| `Lifecycle.Reachable` | crates/zpay-core/src/settle.rs:378-468 | Fire-once, in every reachable state of every run: no payment has both a prepared row and a success-kind ledger row; every ledger row carries the payee, amount and expiry height of the row that was prepared for it; composite keys are unique; failure-kind rows carry no height; every row a tick holds still names a success-kind entry with that transaction |
| `Lifecycle.StepKeepsInv` | crates/zpay-core/src/settle.rs:378-468 | Each of the nine kinds of step keeps the joint invariant |
| `Lifecycle.ProposeKeepsInv` | crates/zpay-core/src/prepare.rs:419-518 | A propose with a fresh id keeps the joint invariant |
| `Lifecycle.SweepKeepsInv` | crates/zpay-core/src/prepare.rs:374-384 | A sweep keeps the joint invariant |
| `Lifecycle.ChainStepKeepsInv` | crates/zpay-runtime/src/main.rs:703-819 | View refreshes, tick snapshots, reconciled rows and range downgrades keep the joint invariant, whichever ticks overlap |
| `Lifecycle.ChainStepKeepsIdentity` | crates/zpay-core/src/status.rs:364-421 | No chain-plane step adds or drops a row or changes its outcome, settle time, payee, amount or expiry |
| `Lifecycle.RecordingMeetsNoSuccess` | crates/zpay-core/src/settle.rs:390-454 | Whatever a settle attempt records, it records over no success-kind row |
| `Lifecycle.AfterRecordingInvIff` | crates/zpay-core/src/settle.rs:439-461 | Writing a recording keeps the joint invariant exactly when a success also deletes the prepared row |
| `Lifecycle.RecordingKeepsInvIff` | crates/zpay-x402/src/lib.rs:799-834 | For both settle paths: the joint invariant survives if and only if the delete after a recorded success goes through |
| `Lifecycle.StepKeepsSuccessRow` | crates/zpay-core/src/settle.rs:378-468 | One step never overwrites a success-kind row |
| `Lifecycle.SuccessRowPersists` | crates/zpay-core/src/settle.rs:378-468 | Over any stretch of any run a success-kind row keeps its outcome and attribution, and its payment is never prepared again |
| `Lifecycle.StepAuthorized` | crates/zpay-x402/src/lib.rs:769-834 | A row whose outcome is new was written by a settle attempt on the terms of the prepared row |
| `Lifecycle.RowsAuthorized` | crates/zpay-core/src/settle.rs:390-454 | Every ledger row of every run goes back to a settle attempt with the prepared expiry height: by the preparing agent, or for the prepared network and backed by a PCZT in which every labelled output pays the prepared recipient and all of them together exactly the prepared amount |
| `Lifecycle.StepCountsDrops` | crates/zpay-core/src/status.rs:380-421 | A step moves `reorg_count` by one, saturating, exactly when the row loses its height |
| `Lifecycle.ReorgConservation` | crates/zpay-core/src/status.rs:364-421 | In every run `reorg_count` is the number of mined-to-unmined transitions since the row was recorded, saturated at the largest u32, whichever path saw them, however often and however stale its snapshot |
| `Lifecycle.ReorgStamp` | crates/zpay-core/src/status.rs:380-421 | In every run `last_reorged_at` is the second of the latest of those transitions |
| `Permanence.SafeForIff` | crates/zpay-core/src/status.rs:526-551 | A step keeps one payment settled at its height if and only if it passes a check on the state before it that concerns that payment alone (tip not below its height, range missing it, answer for its row agreeing with it) |
| `Permanence.KeepsSettledIff` | crates/zpay-core/src/status.rs:526-551 | A step keeps every settled payment settled at its height if and only if it passes the check for each of them |
| `Permanence.SafeRunLatches` | crates/zpay-runtime/src/main.rs:738-744 | Settlement at a height survives every stretch of steps that pass the check for that payment, whatever they do to others, overlapping and stale ticks included |
| `Permanence.LatchIff` | crates/zpay-core/src/status.rs:526-551 | A settled payment is settled at its height for the rest of a run if and only if every step from then on passes the check for it |
| `Permanence.CalmIsSafe` | crates/zpay-runtime/src/main.rs:738-744 | A chain plane whose settled tip never recedes, whose ranges start above the known tip and which reports settled transactions where they settled makes every step pass for every payment, however ticks and envelopes overlap |
| `Permanence.UndisturbedIff` | crates/zpay-runtime/src/main.rs:738-744 | A step leaves a row at or below the settled tip unchanged, field for field, if and only if it passes a check on that row alone |
| `Permanence.NewTicksSkip` | crates/zpay-runtime/src/main.rs:711-744 | When the ticks under way skip a row, so does every tick that takes its view or reads the rows while the height is held |
| `Permanence.WatermarkedStep` | crates/zpay-runtime/src/main.rs:738-744 | Once the settled tip has passed a row and the ticks under way skip it, no step writes it, whatever the chain plane answers, and the ticks that begin skip it too |
| `Permanence.WatermarkedForever` | crates/zpay-runtime/src/main.rs:738-744 | So over every run in which neither the tip nor the view of a new tick falls below the height and no range reverts it: the row stays as it is, with no assumption on any answer |
| `Permanence.SettledLatches` | crates/zpay-core/src/status.rs:456-551 | Once a lookup reports `settled`, every lookup whose ledger and prepared reads fall anywhere on the safe steps that follow finds the same height, outcome and settle time, and reports `settled` if and only if the view it carries settles that height |
| `Permanence.LaterViewsSettle` | crates/zpay-core/src/chain_status.rs:78-110 | Every view cached on those steps does |
| `Permanence.OnlyOldTicksUnsettle` | crates/zpay-runtime/src/main.rs:711-819 | While the chain plane holds the height, a settled payment stays settled for the rest of the run if and only if no tick that was under way when it settled, with its view or with its rows, writes an answer that puts it elsewhere; what later ticks are told does not matter |
| `Permanence.HeldRunIsSafe` | crates/zpay-runtime/src/main.rs:730-819 | A chain plane that holds the height makes the rest of the run safe for the payment when the ticks under way skip it or agree, whatever it answers later ticks |
| `Permanence.SnapshotLatches` | crates/zpay-runtime/src/main.rs:738-744 | A settled payment that no older tick will write reads the very same snapshot for ever, while the chain plane holds its height |
| `Permanence.AtomicEnvelopeKeepsSettled` | crates/zpay-runtime/src/chain_events.rs:220-227 | The two halves of an envelope back to back lose no settled payment when the tip does not recede and the range starts above the envelope's own tip |
| `Lifecycle.DepthKeptIff` | crates/zpay-runtime/src/main.rs:782-812 | A step keeps every mined height at one confirmation or more if and only if it does not write a zero-count mined answer, or an in-mempool answer for a row read unmined and mined since |
| `Lifecycle.MinedHasDepth` | crates/zpay-runtime/src/main.rs:782-812 | Over a whole run every mined height comes with at least one confirmation if and only if no step of the run loses a depth |
| `Permanence.StrandedForever` | crates/zpay-runtime/src/main.rs:738-744 | A row with a zero count that the settled tip has passed is never repaired by a later tick and never reported settled, while the chain plane holds its height |
| `Lifecycle.ExpiredLeftIff` | crates/zpay-core/src/status.rs:485-551 | When `Expired` is left, for every payment that reads it: a broadcast one exactly when a tick finds it mined or the visible tip recedes below its expiry; a prepared one exactly when it is swept, or a settle attempt is recorded that is not a success already lapsed |
| `Lifecycle.LapsedLeftIff` | crates/zpay-core/src/status.rs:542-551 | The first case |
| `Lifecycle.ValidityLeftIff` | crates/zpay-core/src/settle.rs:378-468 | The second case: neither settle path looks at the validity of the prepared row |
| `Lifecycle.ProposeReplaysInRun` | crates/zpay-core/src/prepare.rs:430-446 | The same at every point of every run, with the preparation first issued |
| `Idempotency.KeyReplays` | crates/zpay-core/src/prepare.rs:430-446 | After a first-time propose with a non-blank key, the same agent with the same key gets the same answer and writes nothing, at every later step at which the row is live |
| `Idempotency.OpensRow` | crates/zpay-core/src/prepare.rs:490-514 | The row of that propose carries the agent and the key |
| `Idempotency.KeysDoNotMix` | crates/zpay-core/src/prepare.rs:430-446 | A propose is answered with the preparation of a live row only if it comes from its agent and carries its key, and that key is not blank |
| `Idempotency.BlankNeverReplays` | crates/zpay-core/src/prepare.rs:436-446 | Without a key or with a blank one a propose never repeats a preparation, and the row it writes has no key |
| `Interleavings.OvertakenEnvelopeUnsettles` | crates/zpay-runtime/src/chain_events.rs:220-227 | A valid run with a monotone settled tip and a range above its own envelope's tip after which a settled payment is no longer settled |
| `Interleavings.ReorgAfterVisitUnmines` | crates/zpay-runtime/src/main.rs:738-819 | A valid run in which a reorg handled after the visit of a row reverts the height the tick has just written |
| `Interleavings.StaleAnswerStrands` | crates/zpay-runtime/src/main.rs:794-803 | A valid run of two ticks that read one row, the second of which writes an older in-mempool answer: the mined height is left with a zero count, and in every continuation that holds the height the row stays exactly so and is never reported settled, whatever later ticks are told |
| `Interleavings.StaleState` | crates/zpay-runtime/src/main.rs:794-803 | The state that run reaches, whatever follows, with no row left to visit |
| `Interleavings.PartialViewRepairs` | crates/zpay-runtime/src/main.rs:711-724 | A continuation in which a tick reads a view without a settled tip polls the row again and repairs it: holding the height must include the views of new ticks |
| `Interleavings.TickPublishesOlderView` | crates/zpay-runtime/src/main.rs:738-756 | A valid run in which a lookup reads `settled` and the tick in flight then publishes the same row, from the view it took at its start, as not settled |
| `Interleavings.FailedDeleteOverwrites` | crates/zpay-core/src/settle.rs:439-461 | After a recorded success whose delete failed, a second settle attempt passes every gate and overwrites the success-kind row |
| `Interleavings.ExpiredThenSettled` | crates/zpay-core/src/settle.rs:378-468 | A valid run in which a prepared payment past its validity reads `Expired`, closing its stream, and is then settled and reads `Broadcast` |
| `Interleavings.ExpiredThenMined` | crates/zpay-core/src/status.rs:542-551 | A valid run in which a payment reads `Expired`, closing its stream, and then `Final` |
| `Interleavings.FailedThenBroadcast` | crates/zpay-core/src/settle.rs:439-461 | A valid run in which a payment reads `Failed`, closing its stream, and then `Broadcast`, after a retry on the kept prepared row |
| `Interleavings.StraddlingLookupLosesPayment` | crates/zpay-core/src/status.rs:456-520 | A valid run in which a lookup spread over a settle reports `NeverIssued` and closes the stream |
| `Lookups.FailedLeftIff` | crates/zpay-core/src/settle.rs:439-461 | A payment stops reading `Failed` exactly when another settle attempt on it succeeds |
| `Lookups.NeverIssuedLeftIff` | crates/zpay-core/src/prepare.rs:430-514 | An id stops reading `NeverIssued` exactly when a propose drafts a row under it |
| `Lookups.TwoReadLookupIff` | crates/zpay-core/src/status.rs:456-520 | A lookup that reads the ledger at one step and the prepared store at a later one says what an atomic lookup says at some step in between, if and only if it does not straddle the settle that moved the payment; a straddling one reports `NeverIssued` |
| `TickRuns.TickRunIsTick` | crates/zpay-runtime/src/main.rs:703-757 | Taking the view, reading the rows and visiting each once, in any order, computes the row-wise tick |
| `TickRuns.TickUsesItsJobs` | crates/zpay-runtime/src/main.rs:730-756 | A tick finds every row it read still to be visited, visits each once, and leaves the rows of other ticks alone |
| `TickRuns.RowAgreesIff` | crates/zpay-runtime/src/main.rs:738-819 | A row that a tick visits, with any reorgs above its settled tip and view refreshes between the visits, ends as the undisturbed tick leaves it, apart from counter and stamp, if and only if no reorg handled after the visit reverts the height the visit wrote; otherwise it ends unmined |
| `TickRuns.TickWithDeliveries` | crates/zpay-runtime/src/main.rs:703-819 | The same for every row of a complete tick, of success or failure kind |
| `TickRuns.ConfluenceInRun` | crates/zpay-runtime/src/main.rs:703-819 | At every point of every run, with reorgs above the tick's settled tip handled before it, between its view and its rows, and between its visits: heights and counts are those of the tick alone if and only if no reorg handled after the visit of the row reverts what the visit wrote; then the projected status agrees too and the regression counter differs by at most one |
| `EventPath.EnvelopesLatch` | crates/zpay-runtime/src/chain_events.rs:220-227 | In every run whose envelopes are not torn apart, with steps of all other actors between them that are safe for a payment, that payment stays settled at its height |
| `EventPath.LogIsEnvelopes` | crates/zpay-runtime/src/chain_events.rs:208-236 | The effects the loop logs, as steps of the settlement system, are whole envelopes in the order of the deliveries |
| `EventPath.LoopIsBlocks` | crates/zpay-runtime/src/chain_events.rs:159-236 | Everything the loop does to the settlement system is whole envelopes and whole sweeps, in the order of the script |
| `EventPath.LoopLatches` | crates/zpay-runtime/src/chain_events.rs:159-236 | Whatever the loop logs, its effects and its own sweeps keep a payment settled at its height, when the envelopes do not lower the settled tip and revert only above their own, and the steps of the sweeps are safe for the payment |
| `EventPath.DeliveriesLatch` | crates/zpay-runtime/src/chain_events.rs:208-236 | Between sweeps it is enough that the settled tips delivered do not recede and each range starts above its own tip |
| `Status.SettledMeaning` | crates/zpay-core/src/status.rs:456-551 | `settled` holds if and only if a success-kind row is mined at or below the settled tip with at least one confirmation; it then reads `Mined` or `Final` at that height |
| `Status.StatusMeaning` | crates/zpay-core/src/status.rs:433-551 | When each of the seven statuses is reported and when a snapshot closes the stream, each as an if-and-only-if on row, tips and clock |
| `Status.SnapshotCarriesRow` | crates/zpay-core/src/status.rs:468-520 | A snapshot of a ledger row carries its outcome, time, count, height and regressions; one without a row carries none of them |
| `Status.TornViewsHarmless` | crates/zpay-core/src/chain_status.rs:78-110 | A load that overlaps a store field by field gives a status pair that the old or the new whole view would have given |
| `ChainStatus.ChainStatusCache.constructor` | crates/zpay-core/src/chain_status.rs:73-75 | A new cache holds the unknown view |
| `ChainStatus.ChainStatusCache.Store` | crates/zpay-core/src/chain_status.rs:78-86 | Publishes both heights and the refresh time |
| `ChainStatus.ChainStatusCache.Load` | crates/zpay-core/src/chain_status.rs:102-110 | The stored view, or the unknown view before the first store |
| `ChainStatus.ChainStatusCache.LastRefresh` | crates/zpay-core/src/chain_status.rs:92-97 | Absent exactly until the first store, then the time of the last one |
| `SettlementLedgers.SettlementLedger.constructor` | crates/zpay-core/src/status.rs:297-299 | Empty ledger |
| `SettlementLedgers.SettlementLedger.Record` | crates/zpay-core/src/status.rs:304-313 | Overwrites the row of one payment and nothing else |
| `SettlementLedgers.SettlementLedger.Find` | crates/zpay-core/src/status.rs:315-321 | The row, exactly when there is one |
| `SettlementLedgers.SettlementLedger.SuccessKindTransactions` | crates/zpay-core/src/status.rs:328-345 | Exactly the success-kind rows, each once |
| `SettlementLedgers.SettlementLedger.RecordConfirmation` | crates/zpay-core/src/status.rs:364-378 | Sets the count, keeps the height when none is given, reports whether the row exists |
| `SettlementLedgers.SettlementLedger.DowngradeOnReorg` | crates/zpay-core/src/status.rs:380-396 | Regresses a mined row once; reports exactly whether it did |
| `SettlementLedgers.SettlementLedger.DowngradeReorgedRange` | crates/zpay-core/src/status.rs:398-421 | Regresses exactly the rows mined inside the inclusive range and reports each of them once |
| `Reconcile.ReconcileUnsettledRow` | crates/zpay-runtime/src/main.rs:760-819 | Applies one answer to the row a tick read, on whatever the ledger holds now |
| `Reconcile.PollOracleOnce` | crates/zpay-runtime/src/main.rs:703-757 | A whole tick: cache and refresh time change only with a view that has both heights; the ledger becomes the row-wise tick whatever the visiting order; exactly the success-kind rows that have a subscriber when they are reached are published, each with the projection of the final ledger |
| `Reconcile.ReconcileRows` | crates/zpay-runtime/src/main.rs:738-756 | The row loop of a tick computes the row-wise tick |
| `Reconcile.TickAgreesWithChain` | crates/zpay-runtime/src/main.rs:738-819 | After a tick every row it polled says what the chain plane said, with the reported height and count or unmined; a regression is counted and stamped exactly when a height is lost; rows it did not poll, or got no reply for, are untouched |
| `Reconcile.TickViews` | crates/zpay-runtime/src/main.rs:711-724 | The view of a tick is the fresh one, or the cached one when the read failed; the cache takes only views with both heights |
| `Reconcile.TickIdempotent` | crates/zpay-runtime/src/main.rs:703-819 | A second tick with the same answers changes nothing, counters and stamps included |
| `Reconcile.DeliverRow` | crates/zpay-core/src/status.rs:398-421 | However many deliveries hit a row, it regresses once, by one of the deliveries; rows not hit are unchanged |
| `Reconcile.RegressionAbsorbed` | crates/zpay-runtime/src/main.rs:782-818 | A regressed row and the untouched row agree after the tick, apart from counter and stamp, if and only if the chain plane answered |
| `Reconcile.LookupIsLocal` | crates/zpay-core/src/status.rs:456-484 | The projection depends only on the payment's own row; counters and stamps show up only as themselves |
| `Reconcile.Confluence` | crates/zpay-runtime/src/main.rs:703-819 | Any deliveries above the tick's settled tip, lost, duplicated or reordered, followed by a tick that gets a reply for every row it polls, give the heights, counts and projected status of the tick alone; `reorg_count` differs by at most one |
| `Prepare.CoherentFinds` | crates/zpay-core/src/prepare.rs:345-358 | With an exact index the two-step lookup is the keyed query on one table |
| `Prepare.InsertCoherentIff` | crates/zpay-core/src/prepare.rs:322-335 | `insert` keeps the index the exact inverse of the live keyed rows if and only if the key is free for that id |
| `Prepare.RemoveCoherent` | crates/zpay-core/src/prepare.rs:360-372 | `remove` keeps the index exact |
| `Prepare.SweepCoherent` | crates/zpay-core/src/prepare.rs:374-384 | `sweep_expired` keeps the index exact |
| `Prepare.PreparedTxCache.constructor` | crates/zpay-core/src/prepare.rs:315-317 | Empty and coherent |
| `Prepare.PreparedTxCache.Insert` | crates/zpay-core/src/prepare.rs:322-335 | New row and index entry; coherent afterwards if and only if the key was free |
| `Prepare.PreparedTxCache.FindByPaymentId` | crates/zpay-core/src/prepare.rs:337-343 | The row, exactly when there is one |
| `Prepare.PreparedTxCache.FindByIdempotency` | crates/zpay-core/src/prepare.rs:345-358 | The keyed query on the table |
| `Prepare.PreparedTxCache.Remove` | crates/zpay-core/src/prepare.rs:360-372 | Deletes one row, returns it, keeps the index exact |
| `Prepare.PreparedTxCache.SweepExpired` | crates/zpay-core/src/prepare.rs:374-384 | Keeps exactly the unexpired rows, counts the dropped ones, keeps the index exact |
| `Prepare.PreparedTxCache.Propose` | crates/zpay-core/src/prepare.rs:419-518 | Replay, registry resolution and insert; keeps the index exact; what it answers and writes is `ProposeIff` |
| `Prepare.ProposeIff` | crates/zpay-core/src/prepare.rs:430-514 | A live row of the same agent under the same non-blank key is answered again and nothing is written; otherwise a row under the new id is written exactly when the answer is a preparation, it is that preparation, and it carries the key if that is not blank and none otherwise |
| `Prepare.FirstMatchIs` | crates/zpay-core/src/prepare.rs:453-464 | The earliest accepts entry for the scheme and network, or none exactly when there is none |
| `Prepare.DraftAuthoritative` | crates/zpay-core/src/prepare.rs:448-514 | Recipient, amount, network, expiry height and validity of a drafted row are those of the payee's first entry for the requested scheme and network, with 40 blocks and 300 s where it names none and both saturations |
| `Prepare.DraftUriAsks` | crates/zpay-core/src/prepare.rs:481-488 | A reader of a drafted row's URI gets back the registry's address, its price to the zatoshi and the binding memo of the request |
| `Prepare.DraftRefusals` | crates/zpay-core/src/prepare.rs:448-479 | Each refusal and the acceptance, as an if-and-only-if: unknown payee, no entry for the pair, no tip, zero tip with a zero delta on the resolved entry |
| `Prepare.DraftBinds` | crates/zpay-core/src/prepare.rs:481-488 | Two drafted rows with equal memos have the same payee, scheme, network, resource, nonce and evidence, or exhibit a hash collision |
| `Prepare.ProposeReplays` | crates/zpay-core/src/prepare.rs:430-446 | While a keyed row is live, a propose by its agent with its key, if that is not blank, returns its preparation and writes nothing, whatever else the request says |
| `Prepare.ProposeKeepsTable` | crates/zpay-core/src/prepare.rs:419-518 | A propose keeps composite keys unique and touches no existing row |
| `PreparedStore.RowRoundTripIff` | crates/zpay-store/src/prepared_tx.rs:177-264 | A stored row reads back as written if and only if its URI and amount are the derived ones |
| `PreparedStore.DraftDerivable` | crates/zpay-store/src/prepared_tx.rs:231-238 | Every row `propose` drafts satisfies that, so a replay from the database returns the original URI |
| `PreparedStore.StoredUriAsks` | crates/zpay-store/src/prepared_tx.rs:231-264 | A reader of the URI of a row read back from the table gets its recipient, its amount to the zatoshi and its memo |
| `PreparedStore.RowMeetsSchema` | crates/zpay-store/migrations/0001_initial.sql:23-34 | Every accepted row satisfies the column constraints on network and amount |
| `PreparedStore.LibsqlPreparedTxStore.constructor` | crates/zpay-store/src/prepared_tx.rs:27-29 | Empty table |
| `PreparedStore.LibsqlPreparedTxStore.Insert` | crates/zpay-store/src/prepared_tx.rs:33-85 | Succeeds exactly when amount and expiry fit the columns and the key is not held by another payment; a refused insert changes nothing; an accepted one keeps the table in step with the cache |
| `PreparedStore.LibsqlPreparedTxStore.FindByPaymentId` | crates/zpay-store/src/prepared_tx.rs:87-110 | The row of the represented table |
| `PreparedStore.LibsqlPreparedTxStore.FindByIdempotency` | crates/zpay-store/src/prepared_tx.rs:112-137 | The keyed query on the represented table |
| `PreparedStore.LibsqlPreparedTxStore.Remove` | crates/zpay-store/src/prepared_tx.rs:139-151 | Deletes and returns the represented row |
| `PreparedStore.LibsqlPreparedTxStore.SweepExpired` | crates/zpay-store/src/prepared_tx.rs:153-168 | Keeps exactly the unexpired rows and counts the others; refuses a clock beyond the column and then changes nothing |
| `PreparedStore.KeyTakenIff` | crates/zpay-store/migrations/0001_initial.sql:39-41 | The partial unique index rejects a row exactly when another live row holds its composite key |
| `PreparedStore.SweepRepresents` | crates/zpay-store/src/prepared_tx.rs:153-168 | The delete statement and the cache's sweep drop the same rows |
| `PreparedStore.StoresAgree` | crates/zpay-store/src/prepared_tx.rs:33-168 | Over every sequence of inserts with free keys, removes and sweeps the cache's index stays exact and the SQL rows read back as the cached table |
| `LedgerStore.OutcomeColumnsIff` | crates/zpay-store/src/migration.rs:87-93 | Three columns satisfy the outcome-column invariant if and only if they encode some outcome |
| `LedgerStore.OutcomeRoundTrip` | crates/zpay-store/src/settlement_ledger.rs:297-326 | Every outcome encodes to columns that satisfy the invariant and decode to it |
| `LedgerStore.DecodeMeaning` | crates/zpay-store/src/settlement_ledger.rs:401-433 | What any three columns read as: a success needs its transaction id, a missing message is empty, an unknown kind is an error |
| `LedgerStore.RecordRoundTripIff` | crates/zpay-store/src/settlement_ledger.rs:328-399 | A recorded entry reads back unchanged if and only if its height and amount fit a signed 64-bit column |
| `LedgerStore.RangeAgreesIff` | crates/zpay-store/src/settlement_ledger.rs:259-281 | The clamped range condition selects the rows of the unclamped range, except a row at the largest i64 and a range starting beyond it |
| `LedgerStore.LibsqlSettlementLedger.constructor` | crates/zpay-store/src/settlement_ledger.rs:25-27 | Empty table |
| `LedgerStore.LibsqlSettlementLedger.Record` | crates/zpay-store/src/settlement_ledger.rs:31-84 | Upserts the whole encoded row |
| `LedgerStore.LibsqlSettlementLedger.Find` | crates/zpay-store/src/settlement_ledger.rs:86-109 | The decoded row, absent, or the decoding error |
| `LedgerStore.LibsqlSettlementLedger.SuccessKindTransactions` | crates/zpay-store/src/settlement_ledger.rs:117-151 | Fails exactly when a selected row lacks its transaction id; on a table that reads back as a ledger it returns that ledger's success-kind rows, each once |
| `LedgerStore.LibsqlSettlementLedger.RecordConfirmation` | crates/zpay-store/src/settlement_ledger.rs:199-236 | The conditional update, and whether a row matched |
| `LedgerStore.LibsqlSettlementLedger.DowngradeOnReorg` | crates/zpay-store/src/settlement_ledger.rs:238-257 | The guarded regression, and whether a row matched |
| `LedgerStore.LibsqlSettlementLedger.DowngradeReorgedRange` | crates/zpay-store/src/settlement_ledger.rs:259-294 | The range regression and the ids it returns |
| `LedgerStore.SelectedReads` | crates/zpay-store/src/settlement_ledger.rs:117-151 | The kind filter selects a readable row exactly when its outcome is a success, with the same id, transaction and height |
| `LedgerStore.ConfirmReads` | crates/zpay-store/src/settlement_ledger.rs:199-236 | The update on a row and on the entry it reads as commute |
| `LedgerStore.DowngradeReads` | crates/zpay-store/src/settlement_ledger.rs:238-257 | An unbounded counter read through a clamp is a saturating counter |
| `LedgerStore.StepSimulates` | crates/zpay-store/src/settlement_ledger.rs:31-294 | Every statement gives the result of the in-memory operation and keeps the tables in step |
| `LedgerStore.LedgersAgree` | crates/zpay-store/src/settlement_ledger.rs:31-294 | Every operation sequence whose heights, amounts and range starts fit i64 gives the same results on both ledgers, every SQL row reads back as the in-memory row, and every row satisfies the outcome-column invariant |
| `Settle.SubmitSettlement` | crates/zpay-core/src/settle.rs:378-468 | Runs the gates, records and deletes, and keeps the index exact; when it records, what it writes and how it refuses is stated by the four rows below |
| `Settle.SettleRecordedIff` | crates/zpay-core/src/settle.rs:378-454 | An attempt is recorded if and only if the hex is a non-empty even string of hex digits, the payment is prepared, the agents agree, the memo is shorter than two bytes or has version 0x02, the signed expiry parses and equals the prepared one, and the broadcast answers |
| `Settle.SettleRefusalOrder` | crates/zpay-core/src/settle.rs:390-427 | Otherwise the refusal is that of the first failing condition |
| `Settle.RecordingWrites` | crates/zpay-core/src/settle.rs:439-461 | The recorded row: outcome, the second of the attempt, the terms of the prepared row, nothing seen on the chain yet; the prepared row goes exactly with an accepted or duplicate broadcast, and no other row of either store changes |
| `Settle.SettleX402` | crates/zpay-x402/src/lib.rs:562-648 | The lifecycle half of the x402 settle: lookup, requirement match, PCZT verification, expiry match, broadcast, record, delete; admitted exactly when the PCZT pays exactly the requested amount; each refusal in order |
| `Settle.X402RecordedIff` | crates/zpay-x402/src/lib.rs:562-648 | An x402 settle that names a payment is recorded if and only if the payment is prepared for its network, amount and recipient, its PCZT pays exactly that and extracts with the prepared expiry height, and the broadcast answers |
| `Settle.X402RefusalOrder` | crates/zpay-x402/src/lib.rs:562-648 | Otherwise which gate refuses, each as an if-and-only-if |
| `EventStream.EventStream.constructor` | crates/zpay-x402/src/events.rs:485-501 | A stream starts with its initial snapshot at its receiver position |
| `EventStream.EventStream.PollNext` | crates/zpay-x402/src/events.rs:507-585 | One poll of the body stream: initial snapshot, re-read, lag, tail, end; what the events say is stated by the rows below |
| `EventStream.InitialIsDelivered` | crates/zpay-x402/src/events.rs:514-521 | In every interleaving the first event is the snapshot the handshake read, as it was read |
| `EventStream.ReReadsAreStore` | crates/zpay-x402/src/events.rs:527-560 | Every re-read event is the store state at a read made after its lag event and before its delivery |
| `EventStream.TailPollIs` | crates/zpay-x402/src/events.rs:561-584 | The channel is found lagged exactly when more than 16 snapshots wait; otherwise the next one is delivered as published |
| `EventStream.OutputShape` | crates/zpay-x402/src/events.rs:507-585 | In every interleaving: a closing event is the last; lag is followed directly by a re-read snapshot or `resync_failed`, which follow nothing else; the initial snapshot is first and once; without lag every publish since the subscribe arrives, in order; the stream closes with a closing event or when the senders are gone, and not otherwise |
| `EventStream.ShapeStep` | crates/zpay-x402/src/events.rs:507-585 | Every action keeps that shape |
| `EventStream.SkippedWereEvicted` | crates/zpay-x402/src/events.rs:550-578 | In every interleaving the client received log entries in increasing order, each as published, and every entry it passed without receiving was more than 16 behind the end of the log |
| `EventStream.OwedStep` | crates/zpay-x402/src/events.rs:523-578 | While the stores answer closing snapshots, a closing publish stays consumed, ahead, or owed by a re-read |
| `EventStream.NoLostClose` | crates/zpay-x402/src/events.rs:523-578 | After a closing publish, with stores that keep answering closing snapshots, a drained stream is closed in every interleaving of publishes, lags and re-reads |
| `EventStream.DrainProgress` | crates/zpay-x402/src/events.rs:507-585 | Every delivered event shortens the backlog, and a stream with nothing to deliver is drained, closed or waiting for a re-read |
| `EventHub.PaymentEventHub.constructor` | crates/zpay-x402/src/events.rs:179-181 | No channels |
| `EventHub.PaymentEventHub.Subscribe` | crates/zpay-x402/src/events.rs:193-199 | Creates the channel if absent and attaches at the end of its log |
| `EventHub.PaymentEventHub.Publish` | crates/zpay-x402/src/events.rs:220-234 | Appends only to an existing channel with a receiver; never creates one |
| `EventHub.PaymentEventHub.HasSubscribers` | crates/zpay-x402/src/events.rs:242-247 | True exactly when a receiver is attached |
| `Handshake.HubMirrors` | crates/zpay-x402/src/events.rs:193-247 | Over every interleaving the hub holds the log of the handshake and one receiver per listening handler, and no other payment's channel is touched |
| `Handshake.HubCounts` | crates/zpay-x402/src/events.rs:242-247 | `has_subscribers` is true exactly while some handler listens |
| `Handshake.HandshakeCovers` | crates/zpay-x402/src/events.rs:334-386 | In every interleaving of any number of handlers and writers, for every write of a finished writer: both reads behind an open stream's initial snapshot came after it, or both reads behind some snapshot in the stream's part of the log |
| `Handshake.SendCovers` | crates/zpay-x402/src/events.rs:220-234 | A send covers its write for every attached handler |
| `Handshake.SkipCovers` | crates/zpay-runtime/src/main.rs:742-755 | A writer that ends without sending does so while nobody is attached, so coverage is kept |
| `Handshake.Reachable` | crates/zpay-x402/src/events.rs:334-386 | The coverage invariant holds in every reachable state |
| `Handshake.RegistryBounded` | crates/zpay-x402/src/events.rs:334-362 | A channel exists only if some probe found the payment issued |
| `Delivery.LaterSnapshotsClose` | crates/zpay-core/src/status.rs:456-551 | After `settled`, every snapshot looked up from the stores of the safe rest of the run with a view that settles the height is settled at that height and closes the stream |
| `Delivery.LookupsAreFromRun` | crates/zpay-core/src/chain_status.rs:78-110 | Every lookup that loads its view on those steps, with its reads spread over them, is of that kind |
| `Delivery.SettledStreamCloses` | crates/zpay-x402/src/events.rs:507-585 | A settled payment closes its subscribers' streams once such a snapshot is published, whatever the channel evicts |
| `ChainEvents.RunLoop` | crates/zpay-runtime/src/chain_events.rs:159-202 | For every script of attempts: each subscribe resumes after the last delivery applied since the latest reconcile, or at the live tail exactly when there is none; each sleep after n earlier ones since progress lasts min(2^n, 30) s; the loop subscribes, applies, sweeps and sleeps in exactly the scripted order; reconciles are one plus the cursor expiries |
| `ChainEvents.LogDetermined` | crates/zpay-runtime/src/chain_events.rs:159-202 | Discipline and outline together determine the log, so the contract of the loop has one solution |
| `ChainEvents.Turn` | crates/zpay-runtime/src/chain_events.rs:169-201 | One subscribe attempt and what follows it |
| `ChainEvents.Drain` | crates/zpay-runtime/src/chain_events.rs:208-236 | Applies the deliveries before the first error, in order; reports why it stopped and whether it made progress |
| `ChainEvents.Apply` | crates/zpay-runtime/src/chain_events.rs:220-227 | View, then position, then reorg |
| `ChainEvents.SweepAndReanchor` | crates/zpay-runtime/src/chain_events.rs:184-188 | One reconcile and back to the live tail |
| `ChainEvents.SleepAndGrow` | crates/zpay-runtime/src/chain_events.rs:190-193 | One sleep of the current length, then growth |
| `ChainEvents.BackoffGrows` | crates/zpay-runtime/src/chain_events.rs:399-401 | Growing the n-th backoff gives the next one |
| `ChainEvents.BackoffSeconds` | crates/zpay-runtime/src/chain_events.rs:399-401 | 1, 2, 4, 8, 16 and then 30 s |
| `ChainEvents.ReorgsReachSink` | crates/zpay-runtime/src/chain_events.rs:220-227 | The reorgs handled are the reverted ranges of the consumed deliveries, each once, in order |
| `RateLimit.RateLimiter.constructor` | crates/zpay-x402/src/rate_limit.rs:79-87 | No windows |
| `RateLimit.RateLimiter.Check` | crates/zpay-x402/src/rate_limit.rs:128-159 | One check, sweep included |
| `RateLimit.RateLimiter.SweepIfDue` | crates/zpay-x402/src/rate_limit.rs:163-178 | Drops exactly the expired windows, at most once per window length |
| `RateLimit.RateLimiter.Snapshot` | crates/zpay-x402/src/rate_limit.rs:92-114 | The configured budgets, the keys with a live window per dimension, and the refusals so far |
| `RateLimit.SweepTransparent` | crates/zpay-x402/src/rate_limit.rs:163-178 | Over every ordered trace, decisions, tracked keys and refusal total equal those of a limiter that never sweeps |
| `RateLimit.KeysIsolated` | crates/zpay-x402/src/rate_limit.rs:128-159 | A key's decisions are those of a limiter that saw only its own requests |
| `RateLimit.RateBound` | crates/zpay-x402/src/rate_limit.rs:128-159 | One key alone: at most (k+1)·limit − 1 requests are allowed in any half-open interval of k windows |
| `RateLimit.LimiterRateBound` | crates/zpay-x402/src/rate_limit.rs:128-159 | The same for the whole limiter, sweeps and other keys included, with the budget of the key's dimension and windows of 60 s |
| `RateLimit.RateBoundTight` | crates/zpay-x402/src/rate_limit.rs:128-159 | For every limit and every k ≥ 1 some ordered trace attains that bound |
| `RateLimit.WindowCounts` | crates/zpay-x402/src/rate_limit.rs:136-158 | A key's window was opened by one of its requests and counts exactly the requests allowed since |
| `RateLimit.RefusedIff` | crates/zpay-x402/src/rate_limit.rs:140-158 | A request is refused if and only if the window running at that time has already allowed `limit` requests; it is told to wait the whole seconds left of it, and at least one |
| `RateLimit.TotalCountsRefusals` | crates/zpay-x402/src/rate_limit.rs:144-155 | The refusal total is the number of refusals |
| `RateLimit.ZeroDisables` | crates/zpay-x402/src/rate_limit.rs:128-131 | A zero budget limits and tracks nothing |
| `RateLimit.SweepBoundsMemory` | crates/zpay-x402/src/rate_limit.rs:163-178 | At every check of a limited key, all windows held were opened less than two window lengths ago |
| `RateLimit.RetryAllowed` | crates/zpay-x402/src/rate_limit.rs:144-152 | A retry `retry_after + 1` s later is allowed; a retry after exactly `retry_after` s is allowed if and only if no fraction of a second was cut |
| `RateLimit.RetryTooEarly` | crates/zpay-x402/src/rate_limit.rs:144-152 | Limit one, requests at 0 and at half a second: told to wait 59 s, the retry at 59.5 s is refused |
| `Dpop.InMemoryReplayStore.constructor` | crates/zpay-x402/src/dpop.rs:166-169 | No sightings |
| `Dpop.InMemoryReplayStore.Observe` | crates/zpay-x402/src/dpop.rs:178-191 | Evicts what is not newer than the cutoff, then reports and inserts; the pair is held afterwards |
| `Dpop.DriftExact` | crates/zpay-x402/src/dpop.rs:473-477 | The saturating drift is the true distance, capped just above the largest i64 |
| `Dpop.VerifyDpopProof` | crates/zpay-x402/src/dpop.rs:305-434 | The order of the gates and of the replay store between them; what it accepts and refuses is `AcceptanceIff`, `RefusalOrder` and `StoreAfter` |
| `Dpop.AcceptanceIff` | crates/zpay-x402/src/dpop.rs:305-434 | A proof is accepted, as its key, if and only if it is well formed, its identifier has 1 to 128 bytes and is not remembered for that key, verb and canonical URL match, it was issued within 60 s, and its signature is valid |
| `Dpop.RefusalOrder` | crates/zpay-x402/src/dpop.rs:305-434 | Which error a refused proof gets: that of the first failing condition, in order, with the exact drift |
| `Dpop.StoreAfter` | crates/zpay-x402/src/dpop.rs:178-191 | Only a malformed proof leaves the store alone; any other burns its pair, keeps every remembered sighting at its time and forgets the rest |
| `Dpop.SightingKept` | crates/zpay-x402/src/dpop.rs:178-191 | A sighting survives every run that stays inside the retention period |
| `Dpop.DriftBoundsGap` | crates/zpay-x402/src/dpop.rs:404-415 | Two clock readings that pass the issued-at gate of one proof are less than 121 s apart |
| `Dpop.AcceptedAtMostOnce` | crates/zpay-x402/src/dpop.rs:384-415 | No proof is accepted twice in any run, however long, when `now - ttl` is representable and no verification takes more than 179 s from the replay store to the clock reading |
| `Dpop.SlackExceeded` | crates/zpay-x402/src/dpop.rs:384-415 | Past 179 s, for every longer delay, a run accepts a proof twice |
| `Dpop.AcceptedAgainIff` | crates/zpay-x402/src/dpop.rs:178-191 | For any call of any run whose other gates pass and whose pair was last observed by an earlier call: it is accepted if and only if some call since then, or itself, came before `now - ttl` is representable or a whole retention period after the sighting |
| `Dpop.SecondAcceptanceIff` | crates/zpay-x402/src/dpop.rs:178-191 | In particular a proof accepted once and good again is accepted twice if and only if such a call lies in between or is the second one |
| `Dpop.SightingHeldIff` | crates/zpay-x402/src/dpop.rs:178-191 | A sighting is held until the first call that evicts it and forgotten from then on |
| `Dpop.StrangerForgets` | crates/zpay-x402/src/dpop.rs:181-183 | A run in which an unrelated proof makes the store forget a pair that is well inside its retention period |
| `Dpop.ProbeBurns` | crates/zpay-x402/src/dpop.rs:378-390 | A proof with wrong claims still burns its pair for the retention period |
| `ZecAmount.FormatZecRoundTrip` | crates/zpay-core/src/prepare.rs:550-561 | Printing is exact and canonical: reading gives the amount back; at most eight fraction digits, no trailing zero, no bare point, no leading zero |
| `ZecAmount.FormatZecComplete` | crates/zpay-core/src/prepare.rs:550-561 | Every canonical text is the printed form of the amount it denotes |
| `ZecAmount.UriReads` | crates/zpay-core/src/prepare.rs:539-548 | A reader that takes a payment URI apart gets back the recipient, an amount that reads as exactly the zatoshis, and the encoded memo, for every recipient without a question mark |
| `ZecAmount.KnownAmounts` | crates/zpay-core/src/prepare.rs:550-561 | One ZEC and a tenth of it, as printed |
| `Binding.ChallengeInjective` | crates/zpay-core/src/binding.rs:93-113 | The challenge pre-image determines payee, scheme, network, uri and nonce when payees and uris are NUL-free |
| `Binding.UnambiguousIff` | crates/zpay-core/src/binding.rs:93-113 | For every challenge: no other challenge shares its pre-image if and only if uri and nonce are NUL-free and the payee cannot be read as a shorter payee followed by scheme and network |
| `Binding.NulFreeEndsOnTime` | crates/zpay-core/src/binding.rs:93-113 | A NUL-free payee cannot |
| `Binding.Shortened` | crates/zpay-core/src/binding.rs:93-113 | A payee that can yields a different challenge with the same pre-image |
| `Binding.Respelled` | crates/zpay-core/src/binding.rs:93-113 | A NUL in uri or nonce yields a different challenge with the same pre-image |
| `Binding.PreimagesDisjoint` | crates/zpay-core/src/binding.rs:40-48 | No challenge pre-image is a resource pre-image |
| `Binding.MemoBinds` | crates/zpay-core/src/binding.rs:71-91 | 66 or 98 bytes according to evidence; equal memos bind equal fields and evidence, or exhibit a hash collision |
| `Binding.MemoLayout` | crates/zpay-core/src/binding.rs:71-91 | Tag 0xFF, version 0x02, challenge hash, resource hash, evidence verbatim |
| `Binding.PreimageLayout` | crates/zpay-core/src/binding.rs:93-113 | Where a challenge pre-image carries payee, scheme, network, uri and nonce |
| `Binding.KnownPreimages` | crates/zpay-core/src/binding.rs:93-121 | Both pre-images of one small challenge, byte by byte |
| `Pczt.MatchOutput` | crates/zpay-core/src/settle.rs:548-572 | One output passes exactly when it is unlabelled or pays the address, and the sum does not overflow; otherwise which error |
| `Pczt.MatchPool` | crates/zpay-core/src/settle.rs:541-574 | A pool passes exactly when every labelled output pays and the sum fits; the error is that of the first failing output |
| `Pczt.RefusalMeaning` | crates/zpay-core/src/settle.rs:548-572 | Which refusal a labelled output gets, each as an if-and-only-if |
| `Pczt.PaysExactlyMeans` | crates/zpay-core/src/settle.rs:298-305 | An exactly paying PCZT, output by output and pool by pool |
| `Pczt.MatchedPcztAmount` | crates/zpay-core/src/settle.rs:478-539 | Ok(v) if and only if every labelled shielded output pays, no transparent output is labelled and v is the mathematical sum fitting u64; otherwise the error of the first failing stage |
| `Pczt.VerifyPcztSettlement` | crates/zpay-core/src/settle.rs:288-318 | Succeeds if and only if the PCZT parses, matches exactly the required amount and extracts; each failure with its own error |

## Left out

- Cryptography and foreign parsers (SHA-256, JWT and ECDSA, PCZT parsing and extraction, address decoding, transaction expiry parsing, base64, UTF-8, Unicode whitespace): parameters or inputs already decoded.
- URL canonicalization and JWK thumbprints: the canonical URL and the thumbprint are inputs.
- Clocks and randomness: time stamps and fresh payment ids are parameters; ids are assumed fresh.
- HTTP routing, problem bodies, header parsing, metrics, tracing, configuration, readiness: no deep property.
- zpay-demo, zpay-e2e, zpay-testkit, the demo front end and the zspend crates: client, harness and straight-line gate code.
- libSQL connections, retries and the migration runner: thin wrappers; the tables are modelled by their statements.
- Store failures: in the run model only the delete after a recorded success can fail; a failed read or write elsewhere ends the handler early and is not a step.
- Concurrent propose or settle calls on the same key: handlers are atomic steps, so the window between a find and the following write is not explored.
- `list_recent`, `entry_count`, `clear`, `channel_count` and the `intent_posture` constant: easy members.
- Publishing by `handle_reorg` and by the settle handlers: the writers of `Handshake` stand for them; a snapshot there is the pair of store states it was read from.
- A re-read of the stream is one read in `EventStream`. For a payment with a ledger row that is exact, since the two-read lookup then says what the ledger read says (`Lookups.TwoReadLookupIff`); before that it can straddle a settle.
- Other actors inside a tick: `Reconcile.PollOracleOnce` is a tick nothing else interrupts; the interrupted tick is the subject of `TickRuns` and `Lifecycle`.
- The broadcast of an extracted PCZT: its outcome is an input, so the transaction id on the ledger is the one the chain plane answered.
- The serialization-failure event of the stream: serialization of a snapshot is taken to succeed.
- Liveness of the endless subscription loop: the loop is proved on every finite script of attempts, which covers every prefix of an endless run.
- Numeric limits of counters: the refusal total and the SQL `reorg_count` column are unbounded here; the u32 counters saturate as in the program.
- Replay stores other than the in-memory one, and several processes sharing a store.
- RateLimit.SweepTransparent: assumes checks are counted in the order of their clock readings; two concurrent checks that swap between reading the clock and taking the lock are not modelled (the same holds for the rate bound and for the replay store).
- EventStream.EventStream.PollNext: wakers and task scheduling are not modelled; a poll sees the channel and the re-read as they are at that moment.
