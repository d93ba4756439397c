/** The whole settlement system as a state machine: prepared store, ledger and cached chain
    view, driven by the HTTP handlers, the TTL sweeper, any number of overlapping
    reconciliation ticks and the chain-event subscription. Every handler is one atomic step;
    a tick takes its view in one step, reads the rows in another and visits each row in one
    more; steps of different ticks interleave freely, each visit acting on what its tick read.

    Main results, over every run: fire-once, settlement attribution, reorg conservation and
    confirmation depth. `Permanence` continues with what settlement means in the long run. */
module Lifecycle {
  import opened Types
  import opened ChainStatus
  import opened SettlementLedgers
  import opened Status
  import opened Reconcile
  import opened Prepare
  import opened Settle
  import Pczt

  /** One row of a tick in flight: the view the tick works with and the row it read. */
  datatype RowJob = RowJob(view: View, row: SuccessKindRow)

  /** `issued` is history: every row ever prepared. `views` holds the view of every tick that
      has yet to read the rows, `jobs` the rows that ticks have read and not yet visited, once
      for every tick that read them. */
  datatype System = System(
    prepared: PreparedTable,
    ledger: Ledger,
    view: View,
    issued: PreparedTable,
    views: multiset<View>,
    jobs: multiset<RowJob>)

  datatype Step =
    | Propose(request: PrepareRequest, jkt: string, tip: Result<u32, string>, newId: PaymentId, now: u64)
    | Settle(settle: SettleRequest, submit: Result<BroadcastOutcome, string>, at: i64, removed: bool)
    | X402Settle(x402: X402Request, submit: Result<BroadcastOutcome, string>, at: i64, removed: bool)
    | Sweep(now: u64)
    | StoreView(visibleTip: u64, settledTip: u64)
    | HandleReorg(start: u64, end: u64, at: i64)
    | TickBegin(status: Result<View, string>)
    | TickRead(tick: View)
    | ReconcileRow(job: RowJob, answer: OracleAnswer, at: i64)

  const INITIAL := System(map[], map[], UNKNOWN_VIEW, map[], multiset{}, multiset{})

  function RecordingOf(st: System, step: Step): Option<Recording> {
    match step
    case Settle(request, submit, _, _) => SettleRecording(st.prepared, request, submit)
    case X402Settle(request, submit, _, _) => X402Recording(st.prepared, request, submit)
    case _ => None
  }

  function AfterRecording(st: System, r: Option<Recording>, at: i64, removed: bool): System {
    st.(ledger := LedgerAfter(st.ledger, r, at), prepared := PreparedAfter(st.prepared, r, removed))
  }

  /** What a tick has to do: visit every success-kind row once. */
  function JobsOf(view: View, m: Ledger): set<RowJob> {
    set r | r in SuccessRows(m) :: RowJob(view, r)
  }

  ghost function Next(env: Env, st: System, step: Step): System {
    match step
    case Propose(request, jkt, tip, newId, now) =>
      var (prepared, _) := Proposed(env, st.prepared, request, jkt, tip, newId, now);
      st.(prepared := prepared, issued := if newId in prepared then st.issued[newId := prepared[newId]] else st.issued)
    case Settle(_, _, at, removed) => AfterRecording(st, RecordingOf(st, step), at, removed)
    case X402Settle(_, _, at, removed) => AfterRecording(st, RecordingOf(st, step), at, removed)
    case Sweep(now) => st.(prepared := Swept(st.prepared, now))
    case _ => ChainNext(st, step)
  }

  /** Steps of the chain plane: views, reorgs and ticks. */
  predicate ChainStep(step: Step) {
    step.HandleReorg? || step.ReconcileRow? || step.TickBegin? || step.TickRead? || step.StoreView?
  }

  function ChainNext(st: System, step: Step): System
    requires ChainStep(step)
  {
    match step
    case StoreView(visible, settled) => st.(view := View(Some(visible), Some(settled)))
    case TickBegin(status) =>
      st.(view := CachedAfter(st.view, status), views := st.views + multiset{TickView(st.view, status)})
    case TickRead(tick) =>
      st.(views := st.views - multiset{tick}, jobs := st.jobs + multiset(JobsOf(tick, st.ledger)))
    case HandleReorg(_, _, _) => st.(ledger := LedgerAfterChain(st.ledger, step))
    case ReconcileRow(job, _, _) =>
      st.(jobs := st.jobs - multiset{job}, ledger := LedgerAfterChain(st.ledger, step))
  }

  function LedgerAfterChain(m: Ledger, step: Step): Ledger {
    match step
    case HandleReorg(start, end, at) => WithRangeDowngrade(m, start, end, at)
    case ReconcileRow(job, answer, at) =>
      if Skipped(job.row.minedHeight, job.view) then m else Reconciled(m, job.row, answer, at)
    case _ => m
  }

  /** Fresh ids, rows some tick read and has yet to visit, and stores that complete what they
      started. */
  predicate Enabled(st: System, step: Step) {
    match step
    case Propose(_, _, _, newId, _) => newId !in st.issued
    case Settle(_, _, _, removed) => removed
    case X402Settle(_, _, _, removed) => removed
    case TickRead(tick) => tick in st.views
    case ReconcileRow(job, _, _) => job in st.jobs
    case _ => true
  }

  /** The state after the first `k` steps. */
  ghost function Run(env: Env, steps: seq<Step>, k: nat): System
    requires k <= |steps|
  {
    if k == 0 then INITIAL else Next(env, Run(env, steps, k - 1), steps[k - 1])
  }

  ghost predicate ValidRun(env: Env, steps: seq<Step>) {
    forall k :: 0 <= k < |steps| ==> Enabled(Run(env, steps, k), steps[k])
  }

  // ---- Fire-once ----

  /** The ledger row carries what the prepared row promised. */
  predicate Attributed(e: LedgerEntry, p: PreparedTx) {
    e.payee == p.payee && e.amountZat == p.amountZat && e.expiryHeight == Some(p.preparation.expiryHeight)
  }

  ghost predicate PreparedInv(st: System) {
    && UniqueKeys(st.prepared)
    && (forall id :: id in st.prepared ==> id in st.issued && st.issued[id] == st.prepared[id])
  }

  ghost predicate LedgerInv(st: System) {
    && (forall id :: id in st.ledger ==> id in st.issued && Attributed(st.ledger[id], st.issued[id]))
    && (forall id :: id in st.ledger && st.ledger[id].outcome.IsSuccess() ==> id !in st.prepared)
    && FailureRowsUnmined(st.ledger)
  }

  ghost predicate JobsInv(st: System) {
    forall job :: job in st.jobs ==>
      && job.row.id in st.ledger
      && st.ledger[job.row.id].outcome.TransactionId() == Some(job.row.transactionId)
  }

  /** The joint invariant of every reachable state. */
  ghost predicate Inv(st: System) {
    PreparedInv(st) && LedgerInv(st) && JobsInv(st)
  }

  lemma ProposeKeepsInv(env: Env, st: System, step: Step)
    requires Inv(st) && step.Propose? && Enabled(st, step)
    ensures Inv(Next(env, st, step))
  {
    ProposeKeepsTable(env, st.prepared, step.request, step.jkt, step.tip, step.newId, step.now);
  }

  lemma ShrunkKeys(t: PreparedTable, s: PreparedTable)
    requires UniqueKeys(t) && (forall id :: id in s ==> id in t && s[id] == t[id])
    ensures UniqueKeys(s)
  {
    forall i, j, key | Holds(s, i, key) && Holds(s, j, key) ensures i == j {
      assert Holds(t, i, key) && Holds(t, j, key);
    }
  }

  lemma SweepKeepsInv(env: Env, st: System, step: Step)
    requires Inv(st) && step.Sweep?
    ensures Inv(Next(env, st, step))
  {
    ShrunkKeys(st.prepared, Swept(st.prepared, step.now));
  }

  /** A recording names a prepared payment, so it never meets a success-kind row. */
  lemma RecordingMeetsNoSuccess(st: System, step: Step)
    requires LedgerInv(st) && RecordingOf(st, step).Some?
    ensures var r := RecordingOf(st, step).value;
            && r.id in st.prepared && r.prepared == st.prepared[r.id]
            && (r.id in st.ledger ==> !st.ledger[r.id].outcome.IsSuccess())
  {
  }

  lemma AfterRecordingRest(st: System, r: Recording, at: i64, removed: bool)
    requires Inv(st) && r.id in st.prepared && r.prepared == st.prepared[r.id]
    ensures PreparedInv(AfterRecording(st, Some(r), at, removed))
    ensures JobsInv(AfterRecording(st, Some(r), at, removed))
  {
    var next := AfterRecording(st, Some(r), at, removed);
    ShrunkKeys(st.prepared, next.prepared);
    hide UniqueKeys;
    forall job | job in next.jobs
      ensures job.row.id in next.ledger
              && next.ledger[job.row.id].outcome.TransactionId() == Some(job.row.transactionId)
    {
      assert st.ledger[job.row.id].outcome.IsSuccess();
    }
  }

  lemma AfterRecordingInvIff(st: System, r: Recording, at: i64, removed: bool)
    requires Inv(st) && r.id in st.prepared && r.prepared == st.prepared[r.id]
    ensures Inv(AfterRecording(st, Some(r), at, removed)) <==> (r.outcome.IsSuccess() ==> removed)
  {
    AfterRecordingRest(st, r, at, removed);
    hide JobsInv, UniqueKeys;
    var next := AfterRecording(st, Some(r), at, removed);
    assert next.ledger[r.id] == NewRow(r.prepared, r.outcome, at);
    assert forall id :: id in st.ledger && id != r.id ==> next.ledger[id] == st.ledger[id];
  }

  /** Recording an outcome keeps the joint invariant if and only if a success also removes
      the prepared row: a failed delete after a success re-opens the payment. */
  lemma RecordingKeepsInvIff(env: Env, st: System, step: Step)
    requires Inv(st) && (step.Settle? || step.X402Settle?)
    ensures var r := RecordingOf(st, step);
            Inv(Next(env, st, step)) <==> (r.Some? && r.value.outcome.IsSuccess() ==> step.removed)
  {
    hide PreparedInv, LedgerInv, JobsInv;
    var r := RecordingOf(st, step);
    if r.Some? {
      AfterRecordingInvIff(st, r.value, step.at, step.removed);
    }
  }

  /** Chain-plane steps keep every row's identity: its keys, outcome and attribution. */
  predicate SameIdentity(a: LedgerEntry, b: LedgerEntry) {
    && a.outcome == b.outcome && a.settledAt == b.settledAt
    && a.payee == b.payee && a.amountZat == b.amountZat && a.expiryHeight == b.expiryHeight
  }

  /** A ledger row after a chain-plane step. */
  function RowAfter(e: LedgerEntry, id: PaymentId, step: Step): LedgerEntry {
    match step
    case HandleReorg(start, end, at) => RangeDowngraded(e, start, end, at)
    case ReconcileRow(job, answer, at) =>
      if job.row.id == id && !Skipped(job.row.minedHeight, job.view)
      then AnswerWritten(e, job.row.minedHeight, answer, at) else e
    case _ => e
  }

  lemma ChainStepState(env: Env, st: System, step: Step)
    requires ChainStep(step)
    ensures var next := Next(env, st, step);
            next.ledger == LedgerAfterChain(st.ledger, step) && next.prepared == st.prepared && next.issued == st.issued
  {
    hide LedgerAfterChain, CachedAfter, TickView, JobsOf;
    assert step.TickBegin? || step.TickRead? || step.StoreView? ==> LedgerAfterChain(st.ledger, step) == st.ledger by {
      ViewsLeaveLedger(st.ledger, step);
    }
  }

  lemma ViewsLeaveLedger(m: Ledger, step: Step)
    ensures step.TickBegin? || step.TickRead? || step.StoreView? ==> LedgerAfterChain(m, step) == m
  {
  }

  /** Chain-plane steps work row by row. */
  lemma ChainStepRows(env: Env, st: System, step: Step)
    requires ChainStep(step)
    ensures var next := Next(env, st, step);
            && next.ledger.Keys == st.ledger.Keys && next.prepared == st.prepared && next.issued == st.issued
            && forall id :: id in st.ledger ==> next.ledger[id] == RowAfter(st.ledger[id], id, step)
  {
    hide Next, AnswerWritten, RangeDowngraded, Skipped;
    ChainStepState(env, st, step);
  }

  lemma ChainStepKeepsIdentity(env: Env, st: System, step: Step)
    requires ChainStep(step)
    ensures Next(env, st, step).ledger.Keys == st.ledger.Keys
    ensures forall id :: id in st.ledger ==> SameIdentity(st.ledger[id], Next(env, st, step).ledger[id])
  {
    hide Next;
    ChainStepRows(env, st, step);
  }

  /** The jobs after a step were there before, or are rows the step has just read. */
  lemma JobsAfter(env: Env, st: System, step: Step, job: RowJob)
    requires ChainStep(step) && job in Next(env, st, step).jobs
    ensures job in st.jobs || job.row in SuccessRows(st.ledger)
  {
  }

  lemma ChainStepKeepsJobs(env: Env, st: System, step: Step)
    requires LedgerInv(st) && JobsInv(st) && ChainStep(step)
    ensures JobsInv(Next(env, st, step))
  {
    hide Next, LedgerInv;
    ChainStepKeepsIdentity(env, st, step);
    forall job | job in Next(env, st, step).jobs
      ensures job.row.id in st.ledger && st.ledger[job.row.id].outcome.TransactionId() == Some(job.row.transactionId)
    {
      JobsAfter(env, st, step, job);
    }
  }

  lemma ChainStepKeepsInv(env: Env, st: System, step: Step)
    requires Inv(st) && ChainStep(step) && Enabled(st, step)
    ensures Inv(Next(env, st, step))
  {
    hide Next, UniqueKeys, RowAfter, JobsInv;
    ChainStepKeepsJobs(env, st, step);
    ChainStepRows(env, st, step);
    ChainStepKeepsIdentity(env, st, step);
    var next := Next(env, st, step);
    forall id | id in next.ledger && !next.ledger[id].outcome.IsSuccess()
      ensures !next.ledger[id].Mined()
    {
      assert SameIdentity(st.ledger[id], next.ledger[id]);
      FailureRowStays(st, step, id);
    }
  }

  /** Ticks visit success-kind rows only, and an unmined row lies in no range. */
  lemma FailureRowStays(st: System, step: Step, id: PaymentId)
    requires Inv(st) && Enabled(st, step) && id in st.ledger && !st.ledger[id].outcome.IsSuccess()
    ensures RowAfter(st.ledger[id], id, step) == st.ledger[id]
  {
    hide AnswerWritten;
    assert step.ReconcileRow? ==> step.job.row.id != id;
  }

  lemma StepKeepsInv(env: Env, st: System, step: Step)
    requires Inv(st) && Enabled(st, step)
    ensures Inv(Next(env, st, step))
  {
    match step {
      case Propose(_, _, _, _, _) => ProposeKeepsInv(env, st, step);
      case Sweep(_) => SweepKeepsInv(env, st, step);
      case Settle(_, _, _, _) => RecordingKeepsInvIff(env, st, step);
      case X402Settle(_, _, _, _) => RecordingKeepsInvIff(env, st, step);
      case _ => ChainStepKeepsInv(env, st, step);
    }
  }

  /** Fire-once: in every reachable state no payment has both a prepared row and a
      success-kind ledger row, every ledger row is attributed to the row that was prepared
      for it, and failure-kind rows carry no height. */
  lemma {:induction false} Reachable(env: Env, steps: seq<Step>, k: nat)
    requires ValidRun(env, steps) && k <= |steps|
    ensures Inv(Run(env, steps, k))
    decreases k
  {
    if k > 0 {
      Reachable(env, steps, k - 1);
      StepKeepsInv(env, Run(env, steps, k - 1), steps[k - 1]);
    }
  }

  lemma StepKeepsSuccessRow(env: Env, st: System, step: Step, id: PaymentId)
    requires Inv(st) && Enabled(st, step)
    requires id in st.ledger && st.ledger[id].outcome.IsSuccess()
    ensures id in Next(env, st, step).ledger
    ensures SameIdentity(st.ledger[id], Next(env, st, step).ledger[id])
  {
    if RecordingOf(st, step).Some? {
      RecordingMeetsNoSuccess(st, step);
    } else if ChainStep(step) {
      ChainStepKeepsIdentity(env, st, step);
    }
  }

  /** A success-kind row is never overwritten, over any stretch of any run. */
  lemma {:induction false} SuccessRowPersists(env: Env, steps: seq<Step>, i: nat, j: nat, id: PaymentId)
    requires ValidRun(env, steps) && i <= j <= |steps|
    requires id in Run(env, steps, i).ledger && Run(env, steps, i).ledger[id].outcome.IsSuccess()
    ensures id in Run(env, steps, j).ledger
    ensures SameIdentity(Run(env, steps, i).ledger[id], Run(env, steps, j).ledger[id])
    ensures id !in Run(env, steps, j).prepared
    decreases j
  {
    hide Next, Enabled, PreparedInv, JobsInv;
    Reachable(env, steps, j);
    if i < j {
      SuccessRowPersists(env, steps, i, j - 1, id);
      Reachable(env, steps, j - 1);
      StepKeepsSuccessRow(env, Run(env, steps, j - 1), steps[j - 1], id);
    }
  }

  /** A settle attempt made on the terms of the prepared row, always with its expiry height:
      by the agent that prepared it, or for its network and with a PCZT in which every labelled
      output pays its recipient and all of them together exactly its amount. */
  predicate Authorizes(step: Step, id: PaymentId, p: PreparedTx, outcome: BroadcastOutcome) {
    match step
    case Settle(request, submit, _, _) =>
      && request.id == id && submit == Ok(outcome) && ValidRawTxHex(request.rawTxHex)
      && request.jkt == p.jkt && request.signedExpiry == Ok(p.preparation.expiryHeight)
    case X402Settle(request, submit, _, _) =>
      && request.id == Some(id) && submit == Ok(outcome) && request.extracted.Ok?
      && request.network == p.network && request.payTo.text == p.recipient
      && request.parsed.Ok? && request.parsed.value.expiryHeight == p.preparation.expiryHeight
      && Pczt.PaysExactly(request.parsed.value, request.payTo, p.amountZat)
    case _ => false
  }

  lemma RecordingAuthorized(st: System, step: Step)
    requires PreparedInv(st) && RecordingOf(st, step).Some?
    ensures var r := RecordingOf(st, step).value;
            r.id in st.issued && Authorizes(step, r.id, st.issued[r.id], r.outcome)
  {
  }

  lemma IssuedKept(env: Env, st: System, step: Step, id: PaymentId)
    requires Enabled(st, step) && id in st.issued
    ensures id in Next(env, st, step).issued && Next(env, st, step).issued[id] == st.issued[id]
  {
  }

  /** A row's outcome is the one recorded by this step, or the one it had. */
  lemma StepOutcome(env: Env, st: System, step: Step, id: PaymentId)
    requires id in Next(env, st, step).ledger
    ensures var r, next := RecordingOf(st, step), Next(env, st, step);
            if r.Some? && r.value.id == id then next.ledger[id].outcome == r.value.outcome
            else id in st.ledger && next.ledger[id].outcome == st.ledger[id].outcome
  {
    if ChainStep(step) {
      ChainStepKeepsIdentity(env, st, step);
    }
  }

  lemma StepAuthorized(env: Env, st: System, step: Step, id: PaymentId)
    requires Inv(st) && Enabled(st, step) && id in Next(env, st, step).ledger
    ensures var next := Next(env, st, step);
            && id in next.issued && (id in st.issued ==> next.issued[id] == st.issued[id])
            && (|| (id in st.ledger && next.ledger[id].outcome == st.ledger[id].outcome)
                || Authorizes(step, id, next.issued[id], next.ledger[id].outcome))
  {
    hide Next, RecordingOf, Authorizes, PreparedInv, JobsInv;
    StepOutcome(env, st, step, id);
    if RecordingOf(st, step).Some? {
      RecordingAuthorized(st, step);
    }
    IssuedKept(env, st, step, id);
  }

  /** Every ledger row goes back to a settle attempt made on its prepared row's terms. */
  lemma {:induction false} RowsAuthorized(env: Env, steps: seq<Step>, k: nat, id: PaymentId)
    requires ValidRun(env, steps) && k <= |steps| && id in Run(env, steps, k).ledger
    ensures id in Run(env, steps, k).issued
    ensures exists m :: 0 <= m < k &&
              Authorizes(steps[m], id, Run(env, steps, k).issued[id], Run(env, steps, k).ledger[id].outcome)
    decreases k
  {
    hide Next, Inv, Enabled, Authorizes;
    if k > 0 {
      var before := Run(env, steps, k - 1);
      Reachable(env, steps, k - 1);
      StepAuthorized(env, before, steps[k - 1], id);
      if !Authorizes(steps[k - 1], id, Run(env, steps, k).issued[id], Run(env, steps, k).ledger[id].outcome) {
        RowsAuthorized(env, steps, k - 1, id);
      }
    }
  }

  // ---- Reorg conservation ----

  ghost predicate MinedIn(st: System, id: PaymentId) {
    id in st.ledger && st.ledger[id].Mined()
  }

  /** Mined-to-unmined transitions of `id` since its row was last recorded. */
  ghost function Drops(env: Env, steps: seq<Step>, k: nat, id: PaymentId): nat
    requires k <= |steps|
  {
    if k == 0 then 0 else
    var before, after := Run(env, steps, k - 1), Run(env, steps, k);
    var r := RecordingOf(before, steps[k - 1]);
    if r.Some? && r.value.id == id then 0
    else Drops(env, steps, k - 1, id) + if MinedIn(before, id) && !MinedIn(after, id) then 1 else 0
  }

  /** One step moves the counter by one exactly when the row loses its height. */
  lemma StepCountsDrops(env: Env, st: System, step: Step, id: PaymentId)
    requires id in st.ledger && id in Next(env, st, step).ledger
    requires RecordingOf(st, step).Some? ==> RecordingOf(st, step).value.id != id
    ensures var e, f := st.ledger[id], Next(env, st, step).ledger[id];
            f.reorgCount == if e.Mined() && !f.Mined() then SaturatingAdd32(e.reorgCount, 1) else e.reorgCount
  {
    if ChainStep(step) {
      ChainStepRows(env, st, step);
      hide Next;
    }
  }

  lemma StepLedgerKeys(env: Env, st: System, step: Step)
    ensures var r := RecordingOf(st, step);
            Next(env, st, step).ledger.Keys == st.ledger.Keys + if r.Some? then {r.value.id} else {}
  {
    if ChainStep(step) {
      hide Next;
      ChainStepRows(env, st, step);
      OthersRecordNothing(st, step);
    } else {
      HandlerKeys(env, st, step);
    }
  }

  lemma HandlerKeys(env: Env, st: System, step: Step)
    requires !ChainStep(step)
    ensures var r := RecordingOf(st, step);
            Next(env, st, step).ledger.Keys == st.ledger.Keys + if r.Some? then {r.value.id} else {}
  {
    hide RecordingOf, Proposed, NewRow, Swept;
    if !(step.Settle? || step.X402Settle?) {
      OthersRecordNothing(st, step);
    }
  }

  lemma OthersRecordNothing(st: System, step: Step)
    requires !(step.Settle? || step.X402Settle?)
    ensures RecordingOf(st, step).None?
  {
  }

  lemma StepRecords(env: Env, st: System, step: Step)
    requires RecordingOf(st, step).Some?
    ensures var r := RecordingOf(st, step).value;
            Next(env, st, step).ledger[r.id] == NewRow(r.prepared, r.outcome, step.at)
  {
  }

  /** `reorg_count` is the number of regressions since the row was recorded, saturated at
      `u32::MAX`, whichever path saw them, however often, and however stale its snapshot. */
  lemma {:induction false} ReorgConservation(env: Env, steps: seq<Step>, k: nat, id: PaymentId)
    requires ValidRun(env, steps) && k <= |steps| && id in Run(env, steps, k).ledger
    ensures Run(env, steps, k).ledger[id].reorgCount == Min(Drops(env, steps, k, id), U32_MAX)
    decreases k
  {
    hide Next, Enabled;
    if k > 0 {
      var before, step := Run(env, steps, k - 1), steps[k - 1];
      StepLedgerKeys(env, before, step);
      var r := RecordingOf(before, step);
      if r.Some? && r.value.id == id {
        StepRecords(env, before, step);
      } else {
        ReorgConservation(env, steps, k - 1, id);
        StepCountsDrops(env, before, step, id);
      }
    }
  }

  /** The second of the latest regression since the row was last recorded. */
  ghost function LastDrop(env: Env, steps: seq<Step>, k: nat, id: PaymentId): Option<i64>
    requires k <= |steps|
  {
    if k == 0 then None else
    var before, after, step := Run(env, steps, k - 1), Run(env, steps, k), steps[k - 1];
    var r := RecordingOf(before, step);
    if r.Some? && r.value.id == id then None
    else if MinedIn(before, id) && !MinedIn(after, id) && (step.HandleReorg? || step.ReconcileRow?) then Some(step.at)
    else LastDrop(env, steps, k - 1, id)
  }

  lemma StepStampsDrops(env: Env, st: System, step: Step, id: PaymentId)
    requires id in st.ledger && id in Next(env, st, step).ledger
    requires RecordingOf(st, step).Some? ==> RecordingOf(st, step).value.id != id
    ensures var e, f := st.ledger[id], Next(env, st, step).ledger[id];
            && (e.Mined() && !f.Mined() ==> (step.HandleReorg? || step.ReconcileRow?) && f.lastReorgedAt == Some(step.at))
            && (!(e.Mined() && !f.Mined()) ==> f.lastReorgedAt == e.lastReorgedAt)
  {
    if ChainStep(step) {
      hide Next;
      ChainStepRows(env, st, step);
    }
  }

  /** `last_reorged_at` is the second of the latest regression that `reorg_count` counts. */
  lemma {:induction false} ReorgStamp(env: Env, steps: seq<Step>, k: nat, id: PaymentId)
    requires ValidRun(env, steps) && k <= |steps| && id in Run(env, steps, k).ledger
    ensures Run(env, steps, k).ledger[id].lastReorgedAt == LastDrop(env, steps, k, id)
    decreases k
  {
    hide Next, Enabled;
    if k > 0 {
      var before, step := Run(env, steps, k - 1), steps[k - 1];
      StepLedgerKeys(env, before, step);
      var r := RecordingOf(before, step);
      if r.Some? && r.value.id == id {
        StepRecords(env, before, step);
      } else {
        ReorgStamp(env, steps, k - 1, id);
        StepStampsDrops(env, before, step, id);
      }
    }
  }

  // ---- Steps seen from one row ----

  /** HTTP handlers and the sweeper leave a success-kind row and the view alone. */
  lemma HandlerKeepsRow(env: Env, st: System, step: Step, id: PaymentId)
    requires Inv(st) && !ChainStep(step)
    requires id in st.ledger && st.ledger[id].outcome.IsSuccess()
    ensures var next := Next(env, st, step);
            id in next.ledger && next.ledger[id] == st.ledger[id] && next.view == st.view
  {
    if RecordingOf(st, step).Some? {
      RecordingMeetsNoSuccess(st, step);
    }
  }

  function ViewAfter(view: View, step: Step): View {
    match step
    case StoreView(visible, settled) => View(Some(visible), Some(settled))
    case TickBegin(status) => CachedAfter(view, status)
    case _ => view
  }

  lemma ViewAfterStep(env: Env, st: System, step: Step)
    ensures Next(env, st, step).view == ViewAfter(st.view, step)
  {
    hide CachedAfter;
  }

  lemma ViewStored(env: Env, st: System, visible: u64, settled: u64)
    ensures Next(env, st, StoreView(visible, settled)) == st.(view := View(Some(visible), Some(settled)))
  {
  }

  function Lookup(st: System, id: PaymentId, depth: u32, now: u64): Snapshot {
    LookupPaymentStatus(id, st.prepared, st.ledger, depth, st.view, now)
  }

  // ---- Confirmation depth ----

  predicate DepthOk(e: LedgerEntry) {
    e.Mined() ==> e.confirmations.Some? && e.confirmations.value >= 1
  }

  predicate DepthKnown(st: System) {
    forall id :: id in st.ledger ==> DepthOk(st.ledger[id])
  }

  /** Writing the answer would leave a height without depth: a mined answer that counts no
      confirmation, or an in-mempool answer for a row that was unmined when it was read and
      is mined by now. */
  predicate LosesDepth(e: LedgerEntry, job: RowJob, answer: OracleAnswer) {
    && !Skipped(job.row.minedHeight, job.view) && answer.Ok?
    && (|| (answer.value.MinedAt? && answer.value.confirmations == 0)
        || (answer.value.InMempool? && job.row.minedHeight.None? && e.Mined()))
  }

  lemma RowDepthIff(env: Env, st: System, step: Step)
    requires step.ReconcileRow? && step.job.row.id in st.ledger && DepthOk(st.ledger[step.job.row.id])
    ensures var id, next := step.job.row.id, Next(env, st, step).ledger;
            && id in next && (DepthOk(next[id]) <==> !LosesDepth(st.ledger[id], step.job, step.answer))
            && next.Keys == st.ledger.Keys && forall other :: other in next && other != id ==> next[other] == st.ledger[other]
  {
    hide Next;
    ChainStepRows(env, st, step);
  }

  lemma OtherStepsKeepDepth(env: Env, st: System, step: Step)
    requires !step.ReconcileRow? && DepthKnown(st)
    ensures DepthKnown(Next(env, st, step))
  {
  }

  /** A step keeps every mined row at a depth of at least one if and only if it is not the
      reconciliation of a row that loses its depth. */
  lemma DepthKeptIff(env: Env, st: System, step: Step)
    requires Inv(st) && Enabled(st, step) && DepthKnown(st)
    ensures step.ReconcileRow? ==> step.job.row.id in st.ledger
    ensures DepthKnown(Next(env, st, step)) <==>
              !(step.ReconcileRow? && LosesDepth(st.ledger[step.job.row.id], step.job, step.answer))
  {
    hide Next, DepthOk, LosesDepth;
    if step.ReconcileRow? {
      RowDepthIff(env, st, step);
    } else {
      OtherStepsKeepDepth(env, st, step);
    }
  }

  predicate DepthLosingStep(st: System, step: Step) {
    && step.ReconcileRow? && step.job.row.id in st.ledger
    && LosesDepth(st.ledger[step.job.row.id], step.job, step.answer)
  }

  ghost predicate LosesDepthAt(env: Env, steps: seq<Step>, k: nat)
    requires k < |steps|
  {
    DepthLosingStep(Run(env, steps, k), steps[k])
  }

  ghost predicate DepthKnownAt(env: Env, steps: seq<Step>, k: nat)
    requires k <= |steps|
  {
    DepthKnown(Run(env, steps, k))
  }

  /** Over a whole run every mined height comes with at least one confirmation if and only if
      no step of the run loses a depth, however its ticks and envelopes overlap. */
  lemma MinedHasDepth(env: Env, steps: seq<Step>)
    requires ValidRun(env, steps)
    ensures (forall k: nat :: k <= |steps| ==> DepthKnownAt(env, steps, k))
       <==> (forall k: nat :: k < |steps| ==> !LosesDepthAt(env, steps, k))
  {
    hide Next, Inv, Enabled, Run, DepthKnown, DepthLosingStep;
    if forall k: nat :: k < |steps| ==> !LosesDepthAt(env, steps, k) {
      forall k: nat | k <= |steps| ensures DepthKnownAt(env, steps, k) {
        DepthInRun(env, steps, k);
      }
    }
    if forall k: nat :: k <= |steps| ==> DepthKnownAt(env, steps, k) {
      forall k: nat | k < |steps| ensures !LosesDepthAt(env, steps, k) {
        assert DepthKnownAt(env, steps, k) && DepthKnownAt(env, steps, k + 1);
        DepthKeptAt(env, steps, k);
      }
    }
  }

  lemma DepthKeptAt(env: Env, steps: seq<Step>, k: nat)
    requires ValidRun(env, steps) && k < |steps| && DepthKnownAt(env, steps, k)
    ensures DepthKnownAt(env, steps, k + 1) <==> !LosesDepthAt(env, steps, k)
  {
    hide Next, Inv, Enabled, LosesDepth, DepthKnown;
    Reachable(env, steps, k);
    DepthKeptIff(env, Run(env, steps, k), steps[k]);
  }

  lemma {:induction false} DepthInRun(env: Env, steps: seq<Step>, k: nat)
    requires ValidRun(env, steps) && k <= |steps|
    requires forall i: nat :: i < k ==> !LosesDepthAt(env, steps, i)
    ensures DepthKnownAt(env, steps, k)
    decreases k
  {
    hide Next, Inv, Enabled, LosesDepthAt;
    if k > 0 {
      DepthInRun(env, steps, k - 1);
      DepthKeptAt(env, steps, k - 1);
    }
  }

  // ---- Expiry is not permanent ----

  /** The step finds the transaction mined after all, or the visible tip recedes. */
  predicate Revives(st: System, step: Step, id: PaymentId)
    requires id in st.ledger && st.ledger[id].expiryHeight.Some?
  {
    match step
    case ReconcileRow(job, answer, _) =>
      && job.row.id == id && !Skipped(job.row.minedHeight, job.view)
      && answer.Ok? && answer.value.MinedAt? && answer.value.confirmations >= 1
    case StoreView(visible, _) => visible < st.ledger[id].expiryHeight.value
    case TickBegin(status) => !CachedAfter(st.view, status).IsLapsedAt(st.ledger[id].expiryHeight.value)
    case _ => false
  }

  lemma LapsedLeftIff(env: Env, st: System, step: Step, id: PaymentId, depth: u32, now: u64, later: u64)
    requires Inv(st) && Enabled(st, step) && id in st.ledger && Lookup(st, id, depth, now).status == Expired
    ensures st.ledger[id].expiryHeight.Some?
    ensures Lookup(Next(env, st, step), id, depth, later).status != Expired <==> Revives(st, step, id)
  {
    hide Next, Inv, Enabled;
    if ChainStep(step) {
      ChainStepRows(env, st, step);
      ViewAfterStep(env, st, step);
    } else {
      HandlerKeepsRow(env, st, step, id);
    }
  }

  /** The prepared row is swept, or settled after all: neither settle path looks at its
      validity. */
  predicate LeavesPrepared(st: System, step: Step, id: PaymentId)
    requires id in st.prepared
  {
    var r := RecordingOf(st, step);
    || (step.Sweep? && st.prepared[id].expiresAt <= step.now)
    || (&& r.Some? && r.value.id == id
        && !(r.value.outcome.IsSuccess() && st.view.IsLapsedAt(st.prepared[id].preparation.expiryHeight)))
  }

  /** A prepared row after a step that neither sweeps nor settles it. */
  lemma PreparedRowStays(env: Env, st: System, step: Step, id: PaymentId)
    requires PreparedInv(st) && Enabled(st, step) && id in st.prepared
    requires !(step.Sweep? && st.prepared[id].expiresAt <= step.now)
    requires RecordingOf(st, step).Some? ==> RecordingOf(st, step).value.id != id
    ensures var next := Next(env, st, step); id in next.prepared && next.prepared[id] == st.prepared[id]
  {
    hide UniqueKeys;
    if step.Propose? {
      assert step.newId != id;
    } else if ChainStep(step) {
      ChainStepRows(env, st, step);
    }
  }

  lemma SweptRowGone(env: Env, st: System, step: Step, id: PaymentId)
    requires step.Sweep? && id in st.prepared && st.prepared[id].expiresAt <= step.now
    ensures id !in Next(env, st, step).prepared
  {
  }

  lemma ValidityLeftIff(env: Env, st: System, step: Step, id: PaymentId, depth: u32, now: u64, later: u64)
    requires Inv(st) && Enabled(st, step) && now <= later
    requires id !in st.ledger && Lookup(st, id, depth, now).status == Expired
    ensures id in st.prepared
    ensures Lookup(Next(env, st, step), id, depth, later).status != Expired <==> LeavesPrepared(st, step, id)
  {
    hide Next, RecordingOf;
    StepLedgerKeys(env, st, step);
    var r := RecordingOf(st, step);
    if r.Some? && r.value.id == id {
      StepRecords(env, st, step);
      RecordingMeetsNoSuccess(st, step);
      assert !step.Sweep? && !ChainStep(step) by { RecordingIsSettle(st, step); }
      ViewAfterStep(env, st, step);
    } else if step.Sweep? && st.prepared[id].expiresAt <= step.now {
      SweptRowGone(env, st, step, id);
    } else {
      PreparedRowStays(env, st, step, id);
    }
  }

  lemma RecordingIsSettle(st: System, step: Step)
    requires RecordingOf(st, step).Some?
    ensures step.Settle? || step.X402Settle?
  {
  }

  /** When `Expired`, a terminal status, is left. A broadcast payment leaves it exactly when a
      tick finds it mined after all or the visible tip recedes below its expiry; a prepared one
      exactly when it is swept, or settled by a transaction that has not lapsed. */
  lemma ExpiredLeftIff(env: Env, st: System, step: Step, id: PaymentId, depth: u32, now: u64, later: u64)
    requires Inv(st) && Enabled(st, step) && now <= later && Lookup(st, id, depth, now).status == Expired
    ensures if id in st.ledger then st.ledger[id].expiryHeight.Some? else id in st.prepared
    ensures Lookup(Next(env, st, step), id, depth, later).status != Expired <==>
              if id in st.ledger then Revives(st, step, id) else LeavesPrepared(st, step, id)
  {
    hide *;
    if id in st.ledger {
      LapsedLeftIff(env, st, step, id, depth, now, later);
    } else {
      ValidityLeftIff(env, st, step, id, depth, now, later);
    }
  }

  // ---- Idempotent prepare over runs ----

  ghost predicate Replays(
    env: Env, st: System, id: PaymentId, request: PrepareRequest, tip: Result<u32, string>, newId: PaymentId, now: u64)
    requires id in st.prepared && id in st.issued
  {
    var p := st.prepared[id];
    && p == st.issued[id]
    && Proposed(env, st.prepared, request, p.jkt, tip, newId, now) == (st.prepared, Ok(p.preparation))
    && Next(env, st, Propose(request, p.jkt, tip, newId, now)) == st
  }

  lemma ProposeReplaysAt(
    env: Env, st: System, id: PaymentId, request: PrepareRequest, tip: Result<u32, string>, newId: PaymentId, now: u64)
    requires PreparedInv(st) && id in st.prepared && newId !in st.issued
    requires st.prepared[id].idempotencyKey.Some? && request.idempotencyKey == st.prepared[id].idempotencyKey
    requires !env.isBlank(st.prepared[id].idempotencyKey.value)
    ensures Replays(env, st, id, request, tip, newId, now)
  {
    ProposeReplays(env, st.prepared, id, request, tip, newId, now);
  }

  /** As long as a keyed prepared row is live, proposing with its key returns the preparation
      first issued for it and changes nothing, at every point of every run. */
  lemma ProposeReplaysInRun(
    env: Env, steps: seq<Step>, k: nat, id: PaymentId, request: PrepareRequest, tip: Result<u32, string>,
    newId: PaymentId, now: u64)
    requires ValidRun(env, steps) && k <= |steps|
    requires id in Run(env, steps, k).prepared && newId !in Run(env, steps, k).issued
    requires Run(env, steps, k).prepared[id].idempotencyKey.Some?
    requires request.idempotencyKey == Run(env, steps, k).prepared[id].idempotencyKey
    requires !env.isBlank(request.idempotencyKey.value)
    ensures id in Run(env, steps, k).issued && Replays(env, Run(env, steps, k), id, request, tip, newId, now)
  {
    hide Run, ValidRun, Replays;
    Reachable(env, steps, k);
    ProposeReplaysAt(env, Run(env, steps, k), id, request, tip, newId, now);
  }
}
