/** Reachable runs that break what the system does not promise, and what each one costs. They
    show that the conditions of `Lifecycle` and `Lookups` are needed, not just convenient.
    The runs exist in every environment whose registry lists one shop. */
module Interleavings {
  import opened Types
  import opened ChainStatus
  import opened SettlementLedgers
  import opened Status
  import opened Reconcile
  import opened Prepare
  import opened Settle
  import opened Lifecycle
  import opened Permanence
  import opened Lookups
  import opened TickRuns
  import opened ZecAmount

  const ID: PaymentId := "payment"
  const JKT := "agent"

  predicate ListsShop(env: Env) {
    "shop" in env.registry && env.registry["shop"] == [AcceptsEntry(Zcash, Testnet, "address", 50_000, 600, None)]
  }

  const REQUEST := PrepareRequest("shop", Testnet, Zcash, "uri", "nonce", None, None)

  const PREPARE := Propose(REQUEST, JKT, Ok(100), ID, 0)

  const SUBMISSION := SettleRequest(ID, "00", JKT, Ok(140))

  function Submit(outcome: BroadcastOutcome): Step {
    Settle(SUBMISSION, Ok(outcome), 0, true)
  }

  const TICK := TickBegin(Ok(View(Some(125), Some(100))))

  /** The row as that tick reads it: broadcast, not mined. */
  const JOB := RowJob(View(Some(125), Some(100)), SuccessKindRow(ID, "tx", None))

  const FOUND := ReconcileRow(JOB, Ok(MinedAt(120, 6)), 0)

  const READ := TickRead(JOB.view)

  /** Prepared, broadcast, and read by a tick. */
  const PREFIX: seq<Step> := [PREPARE, Submit(Accepted("tx")), TICK, READ]

  const BROADCAST := LedgerEntry(Accepted("tx"), 0, None, None, 0, None, Some(140), "shop", 50_000)
  const MINED := BROADCAST.(minedHeight := Some(120), confirmations := Some(6))
  const STRANDED := BROADCAST.(minedHeight := Some(120), confirmations := Some(0))

  // ---- Steps of the runs ----

  /** A step the system can take and the chain plane may cause. */
  predicate Fine(st: System, step: Step) {
    Enabled(st, step) && Calm(st, step)
  }

  ghost predicate FineUntil(env: Env, steps: seq<Step>, n: nat)
    requires n <= |steps|
  {
    forall k :: 0 <= k < n ==> Fine(Run(env, steps, k), steps[k])
  }

  ghost function Prepared(env: Env): System {
    Next(env, INITIAL, PREPARE)
  }

  lemma ProposePrepares(env: Env)
    requires ListsShop(env)
    ensures var st := Prepared(env);
            && st.prepared.Keys == st.issued.Keys == {ID} && st.ledger == map[]
            && st.view == UNKNOWN_VIEW && st.views == multiset{} && st.jobs == multiset{}
            && var p := st.prepared[ID];
               && p.preparation.expiryHeight == 140 && |p.preparation.memo| > 1 && p.preparation.memo[1] == 0x02
               && p.jkt == JKT && p.payee == "shop" && p.amountZat == 50_000 && p.expiresAt == 600
  {
    hide ComposePaymentUri;
    var accepts := env.registry["shop"];
    assert FirstMatch(accepts, Zcash, Testnet) == Some(accepts[0]);
  }

  /** The stores, the view and the rows under way, up to the history of issued rows; every tick
      has read its rows. */
  ghost predicate Shows(st: System, prepared: PreparedTable, e: LedgerEntry, view: View, jobs: multiset<RowJob>) {
    && st.prepared == prepared && st.ledger == map[ID := e] && st.view == view
    && st.views == multiset{} && st.jobs == jobs
  }

  lemma SubmitRecords(env: Env, st: System, outcome: BroadcastOutcome)
    requires ListsShop(env) && st.prepared == Prepared(env).prepared
    ensures RecordingOf(st, Submit(outcome)) == Some(Recording(ID, st.prepared[ID], outcome))
    ensures NewRow(st.prepared[ID], outcome, 0) == BROADCAST.(outcome := outcome)
  {
    hide Prepared;
    ProposePrepares(env);
    assert ValidRawTxHex("00");
    assert SettleGate(st.prepared, Submit(outcome).settle) == Ok(st.prepared[ID]);
  }

  lemma SubmitWrites(env: Env, st: System, outcome: BroadcastOutcome)
    requires ListsShop(env) && st.prepared == Prepared(env).prepared
    ensures Next(env, st, Submit(outcome)) ==
              st.(ledger := st.ledger[ID := BROADCAST.(outcome := outcome)],
                  prepared := if outcome.IsSuccess() then map[] else st.prepared)
  {
    hide Prepared, RecordingOf;
    ProposePrepares(env);
    SubmitRecords(env, st, outcome);
    assert st.prepared - {ID} == map[];
  }

  lemma RunStep(env: Env, steps: seq<Step>, k: nat)
    requires k < |steps|
    ensures Run(env, steps, k + 1) == Next(env, Run(env, steps, k), steps[k]) && Run(env, steps, 0) == INITIAL
    ensures FineUntil(env, steps, k) && Fine(Run(env, steps, k), steps[k]) ==> FineUntil(env, steps, k + 1)
  {
    hide Next, Fine;
  }

  /** A tick takes its view and reads the one row. */
  lemma TickReads(env: Env, st: System, job: RowJob, e: LedgerEntry, view: View, jobs: multiset<RowJob>)
    requires Shows(st, map[], e, view, jobs) && e.outcome.IsSuccess() && job.row == RowOf(ID, e)
    requires view.settledTip.Some? && job.view.settledTip.Some? ==> view.settledTip.value <= job.view.settledTip.value
    ensures var begin := TickBegin(Ok(job.view));
            var begun := Next(env, st, begin);
            && Fine(st, begin) && Fine(begun, TickRead(job.view))
            && Shows(Next(env, begun, TickRead(job.view)), map[], e, CachedAfter(view, Ok(job.view)), jobs + multiset{job})
  {
    hide Next;
    var begin := TickBegin(Ok(job.view));
    TickStarts(env, st, Ok(job.view));
    TickReadsRows(env, Next(env, st, begin), job.view);
    assert RowOf(ID, st.ledger[ID]) == job.row;
    assert SuccessRows(st.ledger) == {job.row};
    assert JobsOf(job.view, st.ledger) == {job};
    assert multiset{} + multiset{job.view} - multiset{job.view} == multiset{};
  }

  /** A row visited by a tick that read it unmined. */
  lemma RowVisited(env: Env, st: System, e: LedgerEntry, answer: OracleAnswer, view: View, jobs: multiset<RowJob>)
    requires Shows(st, map[], e, view, jobs) && JOB in jobs && (e.Mined() ==> !view.IsSettledAt(e.minedHeight.value))
    ensures Fine(st, ReconcileRow(JOB, answer, 0))
    ensures Shows(Next(env, st, ReconcileRow(JOB, answer, 0)), map[], AnswerWritten(e, None, answer, 0), view, jobs - multiset{JOB})
  {
    hide AnswerWritten;
  }

  lemma Answers()
    ensures AnswerWritten(BROADCAST, None, FOUND.answer, 0) == MINED
    ensures AnswerWritten(MINED, None, Ok(InMempool), 0) == STRANDED
  {
  }

  lemma FineIsValid(env: Env, steps: seq<Step>, n: nat)
    requires n <= |steps| && FineUntil(env, steps, n)
    ensures forall k :: 0 <= k < n ==> Enabled(Run(env, steps, k), steps[k])
  {
  }

  lemma Refreshed(env: Env, st: System, visible: u64, settled: u64)
    requires st.view.settledTip.Some? && st.view.settledTip.value <= settled
    ensures Fine(st, StoreView(visible, settled))
    ensures Next(env, st, StoreView(visible, settled)) == st.(view := View(Some(visible), Some(settled)))
  {
    ViewStored(env, st, visible, settled);
  }

  lemma {:induction false} Begins(env: Env, steps: seq<Step>)
    requires ListsShop(env) && |steps| >= 4 && forall k :: 0 <= k < 4 ==> steps[k] == PREFIX[k]
    ensures FineUntil(env, steps, 4)
    ensures Run(env, steps, 1) == Prepared(env)
    ensures Shows(Run(env, steps, 2), map[], BROADCAST, UNKNOWN_VIEW, multiset{})
    ensures Shows(Run(env, steps, 4), map[], BROADCAST, JOB.view, multiset{JOB})
  {
    hide Next, Run, Prepared, CachedAfter;
    assert steps[0] == PREFIX[0] && steps[1] == PREFIX[1] && steps[2] == PREFIX[2] && steps[3] == PREFIX[3];
    RunStep(env, steps, 0);
    RunStep(env, steps, 1);
    RunStep(env, steps, 2);
    RunStep(env, steps, 3);
    FirstState(env, steps);
    ProposePrepares(env);
    SubmitWrites(env, Prepared(env), Accepted("tx"));
    TickReads(env, Run(env, steps, 2), JOB, BROADCAST, UNKNOWN_VIEW, multiset{});
    assert CachedAfter(UNKNOWN_VIEW, Ok(JOB.view)) == JOB.view by { Caches(); }
  }

  lemma Caches()
    ensures forall view :: CachedAfter(view, Ok(JOB.view)) == JOB.view && CachedAfter(view, Ok(REPAIR.view)) == view
  {
  }

  lemma FirstState(env: Env, steps: seq<Step>)
    requires |steps| >= 1 && steps[0] == PREPARE
    ensures Run(env, steps, 1) == Prepared(env)
  {
    hide Next;
    assert Run(env, steps, 0) == INITIAL;
  }

  // ---- A settled payment that is not settled any more ----

  /** The poll refreshes the view after an envelope stored its own view and before that
      envelope's reorg is handled. */
  const OVERTAKEN: seq<Step> := PREFIX + [
    FOUND,
    StoreView(130, 110),
    TickBegin(Ok(View(Some(131), Some(121)))),
    HandleReorg(115, 130, 0)]

  /** The settled tip never recedes and the range starts above the tip of its own envelope,
      yet a payment that read settled no longer does. */
  lemma OvertakenEnvelopeUnsettles(env: Env)
    requires ListsShop(env)
    ensures var steps := OVERTAKEN;
            && ValidRun(env, steps) && FineUntil(env, steps, 7)
            && steps[5].settledTip < steps[7].start
            && Lookup(Run(env, steps, 7), ID, 3, 0).settled
            && !Lookup(Run(env, steps, 8), ID, 3, 0).settled
  {
    hide Next, Run, Fine, FineUntil, Enabled, AnswerWritten;
    var steps := OVERTAKEN;
    assert forall k :: 0 <= k < 4 ==> steps[k] == PREFIX[k];
    Begins(env, steps);
    RunStep(env, steps, 4);
    RunStep(env, steps, 5);
    RunStep(env, steps, 6);
    RunStep(env, steps, 7);
    RowVisited(env, Run(env, steps, 4), BROADCAST, FOUND.answer, JOB.view, multiset{JOB});
    assert AnswerWritten(BROADCAST, None, FOUND.answer, 0) == MINED by { Answers(); }
    Overtakes(env, Run(env, steps, 5));
    assert forall k :: 0 <= k < |steps| ==> Enabled(Run(env, steps, k), steps[k]) by { FineIsValid(env, steps, 7); }
  }

  lemma Overtakes(env: Env, s5: System)
    requires Shows(s5, map[], MINED, JOB.view, multiset{})
    ensures var steps := OVERTAKEN;
            var s6 := Next(env, s5, steps[5]);
            var s7 := Next(env, s6, steps[6]);
            var s8 := Next(env, s7, steps[7]);
            && Fine(s5, steps[5]) && Fine(s6, steps[6]) && Enabled(s7, steps[7])
            && Lookup(s7, ID, 3, 0).settled && !Lookup(s8, ID, 3, 0).settled
  {
    hide Next;
    var steps := OVERTAKEN;
    var s6 := Next(env, s5, steps[5]);
    var s7 := Next(env, s6, steps[6]);
    ViewStored(env, s5, 130, 110);
    ChainStepRows(env, s6, steps[6]);
    ViewAfterStep(env, s6, steps[6]);
    ChainStepRows(env, s7, steps[7]);
    ViewAfterStep(env, s7, steps[7]);
  }

  // ---- A tick whose answer is undone ----

  /** The tick finds the transaction at a height the reorg reverts, and the reorg is handled
      after the visit: the transaction was mined again at a height its old block had, or the
      reorg is old news to the tick. */
  const UNMINED: seq<Step> := PREFIX + [FOUND, HandleReorg(115, 130, 0)]

  /** The row the tick has just found has no height after the tick, until the next one. */
  lemma ReorgAfterVisitUnmines(env: Env)
    requires ListsShop(env)
    ensures var steps := UNMINED;
            var found, undone := Run(env, steps, 5), Run(env, steps, 6);
            && ValidRun(env, steps) && FineUntil(env, steps, 6)
            && ID in found.ledger && found.ledger[ID].minedHeight == Some(120) && found.jobs == multiset{}
            && ID in undone.ledger && undone.ledger[ID].minedHeight == None && undone.jobs == multiset{}
  {
    hide Next, Run, Fine, FineUntil, Enabled, AnswerWritten;
    var steps := UNMINED;
    assert forall k :: 0 <= k < 4 ==> steps[k] == PREFIX[k];
    Begins(env, steps);
    RunStep(env, steps, 4);
    RunStep(env, steps, 5);
    RowVisited(env, Run(env, steps, 4), BROADCAST, FOUND.answer, JOB.view, multiset{JOB});
    Answers();
    ReorgHits(env, Run(env, steps, 5));
    FineIsValid(env, steps, 6);
  }

  lemma ReorgHits(env: Env, st: System)
    requires Shows(st, map[], MINED, JOB.view, multiset{})
    ensures var reorg := HandleReorg(115, 130, 0);
            var next := Next(env, st, reorg);
            Fine(st, reorg) && ID in next.ledger && next.ledger[ID].minedHeight == None && next.jobs == multiset{}
  {
    hide Next;
    EnvelopeStep(env, st, HandleReorg(115, 130, 0));
  }

  // ---- Terminal statuses that are left ----

  /** The visible tip passes the expiry height before the tick that finds the transaction
      mined writes its answer. */
  const LAPSED: seq<Step> := PREFIX + [StoreView(150, 100), FOUND]

  lemma ExpiredThenMined(env: Env)
    requires ListsShop(env)
    ensures var steps := LAPSED;
            var lapsed, found := Lookup(Run(env, steps, 5), ID, 3, 0), Lookup(Run(env, steps, 6), ID, 3, 0);
            && ValidRun(env, steps) && FineUntil(env, steps, 6)
            && lapsed.status == Expired && lapsed.StreamClosed()
            && found.status == Final && !found.StreamClosed()
  {
    hide Next, Run, Fine, FineUntil, Enabled, AnswerWritten;
    var steps := LAPSED;
    assert forall k :: 0 <= k < 4 ==> steps[k] == PREFIX[k];
    Begins(env, steps);
    RunStep(env, steps, 4);
    RunStep(env, steps, 5);
    Refreshed(env, Run(env, steps, 4), 150, 100);
    RowVisited(env, Run(env, steps, 5), BROADCAST, FOUND.answer, View(Some(150), Some(100)), multiset{JOB});
    Answers();
    FineIsValid(env, steps, 6);
  }

  /** A rejected broadcast keeps the prepared row, and a second attempt is accepted. */
  const RETRIED: seq<Step> := [PREPARE, Submit(Rejected("fee")), Submit(Accepted("tx"))]

  lemma FailedThenBroadcast(env: Env)
    requires ListsShop(env)
    ensures var steps := RETRIED;
            var failed, retried := Lookup(Run(env, steps, 2), ID, 3, 0), Lookup(Run(env, steps, 3), ID, 3, 0);
            && ValidRun(env, steps)
            && failed.status == Failed && failed.StreamClosed()
            && retried.status == Broadcast && !retried.StreamClosed()
  {
    hide Next, Run, Prepared, Fine, FineUntil;
    var steps := RETRIED;
    FirstState(env, steps);
    RunStep(env, steps, 0);
    RunStep(env, steps, 1);
    RunStep(env, steps, 2);
    ProposePrepares(env);
    SubmitWrites(env, Run(env, steps, 1), Rejected("fee"));
    SubmitWrites(env, Run(env, steps, 2), Accepted("tx"));
  }

  /** A lookup that reads the ledger before a settle and the prepared store after it finds the
      payment in neither and closes the stream. */
  lemma StraddlingLookupLosesPayment(env: Env, depth: u32, view: View, now: u64)
    requires ListsShop(env)
    ensures var steps := PREFIX;
            var before, after := Run(env, steps, 1), Run(env, steps, 2);
            && ValidRun(env, steps) && Straddled(before, after, ID)
            && LookupPaymentStatus(ID, after.prepared, before.ledger, depth, view, now).status == NeverIssued
            && LookupPaymentStatus(ID, after.prepared, before.ledger, depth, view, now).StreamClosed()
  {
    hide Run, Prepared, Next;
    Begins(env, PREFIX);
    ProposePrepares(env);
  }

  /** A prepared row past its validity reads `Expired`; settling it succeeds all the same. */
  lemma ExpiredThenSettled(env: Env)
    requires ListsShop(env)
    ensures var expired, settled := Lookup(Run(env, PREFIX, 1), ID, 3, 600), Lookup(Run(env, PREFIX, 2), ID, 3, 601);
            && ValidRun(env, PREFIX) && FineUntil(env, PREFIX, 4)
            && expired.status == Expired && expired.StreamClosed()
            && settled.status == Broadcast && !settled.StreamClosed()
  {
    hide Run, Prepared, Next;
    Begins(env, PREFIX);
    ProposePrepares(env);
    FineIsValid(env, PREFIX, 4);
  }

  // ---- An older view ----

  /** The row is found mined while the tick that found it still works with the view it took at
      its start, and an envelope moves the settled tip past it. */
  const OVERTAKES: seq<Step> := PREFIX + [FOUND, StoreView(130, 125)]

  /** A lookup reads `settled`, and the tick then publishes the same row as not settled. */
  lemma TickPublishesOlderView(env: Env)
    requires ListsShop(env)
    ensures var st := Run(env, OVERTAKES, 6);
            && ValidRun(env, OVERTAKES) && FineUntil(env, OVERTAKES, 6) && Lookup(st, ID, 3, 0).settled
            && var published := LookupPaymentStatus(ID, st.prepared, st.ledger, 3, JOB.view, 0);
               !published.settled && !published.StreamClosed() && published.minedHeight == Some(120)
  {
    hide Next, Run, Fine, FineUntil, Enabled, AnswerWritten;
    var steps := OVERTAKES;
    assert forall k :: 0 <= k < 4 ==> steps[k] == PREFIX[k];
    Begins(env, steps);
    RunStep(env, steps, 4);
    RunStep(env, steps, 5);
    RowVisited(env, Run(env, steps, 4), BROADCAST, FOUND.answer, JOB.view, multiset{JOB});
    Answers();
    Refreshed(env, Run(env, steps, 5), 130, 125);
    FineIsValid(env, steps, 6);
  }

  // ---- A delete that fails ----

  /** The success is recorded and the prepared row stays. */
  const UNDELETED := Settle(SUBMISSION, Ok(Accepted("tx")), 0, false)

  /** A second settle attempt passes every gate and overwrites the success-kind row: the first
      transaction is no longer watched. */
  lemma FailedDeleteOverwrites(env: Env)
    requires ListsShop(env)
    ensures var kept := Next(env, Prepared(env), UNDELETED);
            var again := Next(env, kept, Submit(Accepted("tx2")));
            && ID in kept.prepared && kept.ledger == map[ID := BROADCAST]
            && RecordingOf(kept, Submit(Accepted("tx2"))).Some?
            && again.ledger == map[ID := BROADCAST.(outcome := Accepted("tx2"))]
  {
    hide Prepared, RecordingOf, Next;
    ProposePrepares(env);
    UndeletedKeeps(env, Prepared(env));
    var kept := Next(env, Prepared(env), UNDELETED);
    SubmitRecords(env, kept, Accepted("tx2"));
    SubmitWrites(env, kept, Accepted("tx2"));
  }

  lemma UndeletedKeeps(env: Env, st: System)
    requires ListsShop(env) && st.prepared == Prepared(env).prepared
    ensures Next(env, st, UNDELETED) == st.(ledger := st.ledger[ID := BROADCAST])
  {
    hide Prepared, RecordingOf;
    SubmitRecords(env, st, Accepted("tx"));
    SameRecording(st);
  }

  lemma SameRecording(st: System)
    ensures RecordingOf(st, UNDELETED) == RecordingOf(st, Submit(Accepted("tx")))
  {
  }

  // ---- A payment that is never settled ----

  /** A second tick reads the row before the first one finds it mined, and writes the older
      in-mempool answer; the watermark passes the height before the next tick. */
  const STALE: seq<Step> := PREFIX + [
    TICK,
    READ,
    FOUND,
    ReconcileRow(JOB, Ok(InMempool), 0),
    StoreView(200, 150)]

  /** The row keeps its height with a zero depth, both ticks are done with it, and the settled
      tip is past it: as long as the chain plane holds the height, no later tick writes the row
      whatever it is told, and the payment is never reported settled. */
  lemma StaleAnswerStrands(env: Env, rest: seq<Step>, j: nat, depth: u32, now: u64)
    requires ListsShop(env) && HeldFrom(env, STALE + rest, 9, 120) && 9 <= j <= 9 + |rest|
    ensures var st := Run(env, STALE + rest, j);
            && !Lookup(st, ID, depth, now).settled
            && ID in st.ledger && st.ledger[ID] == STRANDED && st.view.IsSettledAt(120)
  {
    hide Run, HeldFrom;
    var steps := STALE + rest;
    StaleState(env, rest);
    StrandedForever(env, steps, 9, j, ID, depth, now);
    WatermarkedForever(env, steps, 9, j, ID);
  }

  /** A tick whose fresh view lacks the settled tip polls the row once more. */
  const REPAIR := RowJob(View(Some(200), None), SuccessKindRow(ID, "tx", Some(120)))

  const REPAIRED: seq<Step> := STALE + [
    TickBegin(Ok(REPAIR.view)),
    TickRead(REPAIR.view),
    ReconcileRow(REPAIR, Ok(MinedAt(120, 81)), 0)]

  /** What holding the height asks of new ticks is needed: a view without a settled tip leaves
      the cache alone and repairs the row. */
  lemma PartialViewRepairs(env: Env)
    requires ListsShop(env)
    ensures FineUntil(env, REPAIRED, 12) && Lookup(Run(env, REPAIRED, 12), ID, 3, 0).settled
  {
    hide Next, Run, Fine, FineUntil, CachedAfter, LookupPaymentStatus;
    var steps := REPAIRED;
    assert steps == STALE + steps[9..];
    StaleState(env, steps[9..]);
    RunStep(env, steps, 9);
    RunStep(env, steps, 10);
    RunStep(env, steps, 11);
    TickReads(env, Run(env, steps, 9), REPAIR, STRANDED, View(Some(200), Some(150)), multiset{});
    Caches();
    Repairs(env, Run(env, steps, 11));
  }

  lemma Repairs(env: Env, st: System)
    requires Shows(st, map[], STRANDED, View(Some(200), Some(150)), multiset{REPAIR})
    ensures var visit := ReconcileRow(REPAIR, Ok(MinedAt(120, 81)), 0);
            Fine(st, visit) && Lookup(Next(env, st, visit), ID, 3, 0).settled
  {
    hide Next;
    var visit := ReconcileRow(REPAIR, Ok(MinedAt(120, 81)), 0);
    ChainStepRows(env, st, visit);
    ViewAfterStep(env, st, visit);
  }

  /** Both ticks have read the row, and the first has found it mined. */
  lemma StaleHalf(env: Env, steps: seq<Step>)
    requires ListsShop(env) && |steps| >= 7 && (forall k :: 0 <= k < 4 ==> steps[k] == PREFIX[k])
    requires steps[4] == TICK && steps[5] == READ && steps[6] == FOUND
    ensures FineUntil(env, steps, 7) && Shows(Run(env, steps, 7), map[], MINED, JOB.view, multiset{JOB})
  {
    hide Next, Run, Fine, FineUntil, Enabled, AnswerWritten, CachedAfter;
    Begins(env, steps);
    RunStep(env, steps, 4);
    RunStep(env, steps, 5);
    RunStep(env, steps, 6);
    TickReads(env, Run(env, steps, 4), JOB, BROADCAST, JOB.view, multiset{JOB});
    Caches();
    assert multiset{JOB} + multiset{JOB} == multiset{JOB, JOB};
    RowVisited(env, Run(env, steps, 6), BROADCAST, FOUND.answer, JOB.view, multiset{JOB, JOB});
    Answers();
    assert multiset{JOB, JOB} - multiset{JOB} == multiset{JOB};
  }

  /** The stale prefix is a valid, calm run, whatever follows, and leaves no tick under way. */
  lemma StaleState(env: Env, rest: seq<Step>)
    requires ListsShop(env)
    ensures var steps := STALE + rest;
            && FineUntil(env, steps, 9)
            && Shows(Run(env, steps, 9), map[], STRANDED, View(Some(200), Some(150)), multiset{})
  {
    hide Next, Run, Fine, FineUntil, Enabled, AnswerWritten;
    var steps := STALE + rest;
    assert forall k :: 0 <= k < 4 ==> steps[k] == PREFIX[k];
    StaleHalf(env, steps);
    RunStep(env, steps, 7);
    RunStep(env, steps, 8);
    RowVisited(env, Run(env, steps, 7), MINED, Ok(InMempool), JOB.view, multiset{JOB});
    Answers();
    Refreshed(env, Run(env, steps, 8), 200, 150);
  }
}
