/** What settlement means in the long run. Main results: the exact condition under which a
    payment stays settled, step by step and over whole runs, for each payment on its own; and
    what the tick's own guard contributes: once the settled tip has passed a row, ticks that
    begin later leave it alone whatever the chain plane answers, for better (a settled payment
    stays settled) and for worse (a row without depth is never repaired). */
module Permanence {
  import opened Types
  import opened ChainStatus
  import opened SettlementLedgers
  import opened Status
  import opened Reconcile
  import opened Prepare
  import opened Lifecycle

  // ---- Settled payments ----

  /** What every lookup of `id` reports as `settled`; see `Status.SettledMeaning`. */
  predicate IsSettled(st: System, id: PaymentId) {
    && id in st.ledger && st.ledger[id].outcome.IsSuccess()
    && st.ledger[id].Mined() && st.view.IsSettledAt(st.ledger[id].minedHeight.value)
    && st.ledger[id].confirmations.Some? && st.ledger[id].confirmations.value >= 1
  }

  predicate SettledAt(st: System, id: PaymentId, height: u64) {
    IsSettled(st, id) && st.ledger[id].minedHeight == Some(height)
  }

  /** Nothing that reads settled before the step reads otherwise after it. */
  ghost predicate KeepsSettled(before: System, after: System) {
    forall id, height :: SettledAt(before, id, height) ==> SettledAt(after, id, height)
  }

  /** The answer for a row that had height `read` when the tick read it leaves a row settled at
      `height` settled there. */
  predicate AnswerAgrees(answer: OracleAnswer, read: Option<u64>, height: u64) {
    match answer
    case Err(_) => true
    case Ok(MinedAt(found, count)) => found == height && count >= 1
    case Ok(InMempool) => false
    case Ok(_) => read.None?
  }

  /** A check on the state before the step, for one payment. */
  predicate SafeFor(st: System, step: Step, id: PaymentId) {
    IsSettled(st, id) ==>
      var height := st.ledger[id].minedHeight.value;
      match step
      case StoreView(_, tip) => height <= tip
      case TickBegin(status) => CachedAfter(st.view, status).IsSettledAt(height)
      case HandleReorg(start, end, _) => !(start <= height <= end)
      case ReconcileRow(job, answer, _) =>
        job.row.id == id && !Skipped(job.row.minedHeight, job.view) ==> AnswerAgrees(answer, job.row.minedHeight, height)
      case _ => true
  }

  /** The same for every payment. */
  ghost predicate SafeStep(st: System, step: Step) {
    forall id :: SafeFor(st, step, id)
  }

  /** A step keeps a payment settled at its height if and only if it is safe for that payment. */
  lemma SafeForIff(env: Env, st: System, step: Step, id: PaymentId, height: u64)
    requires Inv(st) && Enabled(st, step) && SettledAt(st, id, height)
    ensures SettledAt(Next(env, st, step), id, height) <==> SafeFor(st, step, id)
  {
    hide Next, Inv, Enabled;
    if ChainStep(step) {
      ChainStepRows(env, st, step);
      ViewAfterStep(env, st, step);
    } else {
      HandlerKeepsRow(env, st, step, id);
    }
  }

  /** A step keeps every settled payment settled at its height if and only if it is safe. */
  lemma KeepsSettledIff(env: Env, st: System, step: Step)
    requires Inv(st) && Enabled(st, step)
    ensures KeepsSettled(st, Next(env, st, step)) <==> SafeStep(st, step)
  {
    hide Next, Inv, SafeFor;
    var next := Next(env, st, step);
    forall id, height | SettledAt(st, id, height) ensures SettledAt(next, id, height) <==> SafeFor(st, step, id) {
      SafeForIff(env, st, step, id, height);
    }
    if KeepsSettled(st, next) {
      forall id ensures SafeFor(st, step, id) {
        if IsSettled(st, id) {
          assert SettledAt(st, id, st.ledger[id].minedHeight.value);
        } else {
          UnsettledIsSafe(st, step, id);
        }
      }
    }
  }

  lemma UnsettledIsSafe(st: System, step: Step, id: PaymentId)
    requires !IsSettled(st, id)
    ensures SafeFor(st, step, id)
  {
  }

  /** Every step from the `i`-th on is safe for the payment. */
  ghost predicate SafeFrom(env: Env, steps: seq<Step>, i: nat, id: PaymentId) {
    ValidRun(env, steps) && forall k :: i <= k < |steps| ==> SafeFor(Run(env, steps, k), steps[k], id)
  }

  /** Settlement survives any stretch of steps that are safe for the payment, whatever they do
      to others, overlapping and stale ticks included. */
  lemma {:induction false} SafeRunLatches(env: Env, steps: seq<Step>, i: nat, j: nat, id: PaymentId, height: u64)
    requires SafeFrom(env, steps, i, id) && i <= j <= |steps| && SettledAt(Run(env, steps, i), id, height)
    ensures SettledAt(Run(env, steps, j), id, height)
    decreases j
  {
    hide Next, Inv, Enabled, SafeFor, SettledAt;
    if i < j {
      SafeRunLatches(env, steps, i, j - 1, id, height);
      Reachable(env, steps, j - 1);
      SafeForIff(env, Run(env, steps, j - 1), steps[j - 1], id, height);
    }
  }

  ghost predicate SettledThen(env: Env, steps: seq<Step>, j: nat, id: PaymentId, height: u64)
    requires j <= |steps|
  {
    SettledAt(Run(env, steps, j), id, height)
  }

  /** A payment settled at step `i` is settled at its height for the rest of the run if and only
      if every step from then on is safe for it. */
  lemma LatchIff(env: Env, steps: seq<Step>, i: nat, id: PaymentId, height: u64)
    requires ValidRun(env, steps) && i <= |steps| && SettledThen(env, steps, i, id, height)
    ensures SafeFrom(env, steps, i, id) <==> forall j :: i <= j <= |steps| ==> SettledThen(env, steps, j, id, height)
  {
    hide Next, Inv, Enabled, SafeFor, SettledAt;
    if SafeFrom(env, steps, i, id) {
      forall j | i <= j <= |steps| ensures SettledThen(env, steps, j, id, height) {
        SafeRunLatches(env, steps, i, j, id, height);
      }
    }
    if forall j :: i <= j <= |steps| ==> SettledThen(env, steps, j, id, height) {
      forall k | i <= k < |steps| ensures SafeFor(Run(env, steps, k), steps[k], id) {
        assert SettledThen(env, steps, k, id, height) && SettledThen(env, steps, k + 1, id, height);
        Reachable(env, steps, k);
        SafeForIff(env, Run(env, steps, k), steps[k], id, height);
      }
    }
  }

  // ---- Lookups of settled payments ----

  /** A lookup reports `settled` exactly for settled payments, from the row itself. */
  lemma LookupOfSettled(st: System, id: PaymentId, depth: u32, now: u64)
    ensures Lookup(st, id, depth, now).settled <==> IsSettled(st, id)
    ensures IsSettled(st, id) ==>
              var s, e := Lookup(st, id, depth, now), st.ledger[id];
              && s.status in {Mined, Final} && s.minedHeight == e.minedHeight
              && s.outcome == Some(e.outcome) && s.settledAt == Some(e.settledAt)
  {
    SettledMeaning(id, st.prepared, st.ledger, depth, st.view, now);
  }

  /** `settled` latches: once a lookup reports it, every lookup whose store reads fall on the
      safe steps that follow finds the same height, outcome and settle time, and reports
      `settled` if and only if the view it carries settles that height. */
  lemma SettledLatches(
    env: Env, steps: seq<Step>, i: nat, p: nat, q: nat, id: PaymentId, depth: u32, view: View, now: u64, later: u64)
    requires SafeFrom(env, steps, i, id) && i <= p <= |steps| && i <= q <= |steps|
    requires Lookup(Run(env, steps, i), id, depth, now).settled
    ensures var a := Lookup(Run(env, steps, i), id, depth, now);
            var b := LookupPaymentStatus(id, Run(env, steps, q).prepared, Run(env, steps, p).ledger, depth, view, later);
            && a.minedHeight.Some? && b.minedHeight == a.minedHeight && b.outcome == a.outcome
            && b.settledAt == a.settledAt && b.status in {Mined, Final}
            && (b.settled <==> view.IsSettledAt(a.minedHeight.value)) && (b.StreamClosed() <==> b.settled)
  {
    hide Run, SafeFrom, ValidRun, SafeFor;
    var st := Run(env, steps, i);
    LookupOfSettled(st, id, depth, now);
    SafeRunLatches(env, steps, i, p, id, st.ledger[id].minedHeight.value);
    assert ValidRun(env, steps) by { SafeIsValid(env, steps, i, id); }
    SuccessRowPersists(env, steps, i, p, id);
  }

  /** Every view loaded since carries the settlement. */
  lemma LaterViewsSettle(env: Env, steps: seq<Step>, i: nat, o: nat, id: PaymentId, depth: u32, now: u64)
    requires SafeFrom(env, steps, i, id) && i <= o <= |steps| && Lookup(Run(env, steps, i), id, depth, now).settled
    ensures var height := Lookup(Run(env, steps, i), id, depth, now).minedHeight;
            height.Some? && Run(env, steps, o).view.IsSettledAt(height.value)
  {
    hide Run, SafeFrom, SafeFor;
    var st := Run(env, steps, i);
    LookupOfSettled(st, id, depth, now);
    SafeRunLatches(env, steps, i, o, id, st.ledger[id].minedHeight.value);
  }

  lemma SafeIsValid(env: Env, steps: seq<Step>, i: nat, id: PaymentId)
    requires SafeFrom(env, steps, i, id)
    ensures ValidRun(env, steps)
  {
  }

  // ---- What the chain plane owes ----

  /** What the chain plane owes the system: the settled tip never recedes, a reverted range
      starts above the settled tip known when it is handled, and a settled transaction is
      reported where it settled. */
  predicate Calm(st: System, step: Step) {
    var tip := st.view.settledTip;
    match step
    case StoreView(_, settled) => tip.Some? ==> tip.value <= settled
    case TickBegin(status) => tip.Some? && Refreshes(status) ==> tip.value <= status.value.settledTip.value
    case HandleReorg(start, _, _) => tip.Some? ==> tip.value < start
    case ReconcileRow(job, answer, _) =>
      IsSettled(st, job.row.id) && !Skipped(job.row.minedHeight, job.view) && answer.Ok? ==>
        && answer.value.MinedAt? && answer.value.confirmations >= 1
        && Some(answer.value.blockHeight) == st.ledger[job.row.id].minedHeight
    case _ => true
  }

  /** A calm chain plane makes every step safe, however ticks and envelopes overlap. */
  lemma CalmIsSafe(st: System, step: Step)
    requires Calm(st, step)
    ensures SafeStep(st, step)
  {
  }

  /** The two halves of an envelope back to back: no settled payment is lost when the tip does
      not recede and the range starts above the envelope's own tip. */
  lemma AtomicEnvelopeKeepsSettled(
    env: Env, st: System, visible: u64, settled: u64, start: u64, end: u64, at: i64)
    requires Inv(st) && settled < start && (st.view.settledTip.Some? ==> st.view.settledTip.value <= settled)
    ensures var stored := Next(env, st, StoreView(visible, settled));
            KeepsSettled(st, Next(env, stored, HandleReorg(start, end, at)))
  {
    hide Next, Inv, SafeFor, SettledAt;
    var view, reorg := StoreView(visible, settled), HandleReorg(start, end, at);
    var stored := Next(env, st, view);
    assert stored.view == View(Some(visible), Some(settled)) by { ViewStored(env, st, visible, settled); }
    StepKeepsInv(env, st, view);
    CalmIsSafe(st, view);
    CalmIsSafe(stored, reorg);
    forall id, height | SettledAt(st, id, height) ensures SettledAt(Next(env, stored, reorg), id, height) {
      SafeForIff(env, st, view, id, height);
      SafeForIff(env, stored, reorg, id, height);
    }
  }

  // ---- Rows the watermark has passed ----

  /** A success-kind row whose height the watermark has passed. */
  predicate Watermarked(st: System, id: PaymentId) {
    && id in st.ledger && st.ledger[id].outcome.IsSuccess()
    && st.ledger[id].Mined() && st.view.IsSettledAt(st.ledger[id].minedHeight.value)
  }

  /** The step does not move the watermark below the row, and any write to it repeats what the
      row says already. */
  predicate Undisturbed(st: System, step: Step, id: PaymentId)
    requires Watermarked(st, id)
  {
    var e := st.ledger[id];
    match step
    case StoreView(_, settled) => e.minedHeight.value <= settled
    case TickBegin(status) => CachedAfter(st.view, status).IsSettledAt(e.minedHeight.value)
    case HandleReorg(start, end, _) => !(start <= e.minedHeight.value <= end)
    case ReconcileRow(job, answer, _) =>
      job.row.id == id && !Skipped(job.row.minedHeight, job.view) ==>
        (match answer
         case Err(_) => true
         case Ok(MinedAt(height, count)) => Some(height) == e.minedHeight && Some(count) == e.confirmations
         case Ok(InMempool) => job.row.minedHeight.None? && e.confirmations == Some(0)
         case Ok(_) => job.row.minedHeight.None?)
    case _ => true
  }

  /** A step leaves a watermarked row as it is, field for field, if and only if it does not
      disturb that row; what it does to other rows does not matter. */
  lemma UndisturbedIff(env: Env, st: System, step: Step, id: PaymentId)
    requires Inv(st) && Enabled(st, step) && Watermarked(st, id)
    ensures Undisturbed(st, step, id) <==>
              Watermarked(Next(env, st, step), id) && Next(env, st, step).ledger[id] == st.ledger[id]
  {
    hide Next, Inv, Enabled;
    if ChainStep(step) {
      ChainStepRows(env, st, step);
      ViewAfterStep(env, st, step);
    } else {
      HandlerKeepsRow(env, st, step, id);
    }
  }

  /** The chain plane's part for one height: neither the cached settled tip nor the view of a
      new tick falls below it, and no range reverts it. It says nothing about answers. */
  predicate HeightHeld(st: System, step: Step, height: u64) {
    match step
    case StoreView(_, settled) => height <= settled
    case TickBegin(status) =>
      TickView(st.view, status).IsSettledAt(height) && CachedAfter(st.view, status).IsSettledAt(height)
    case HandleReorg(start, end, _) => !(start <= height <= end)
    case _ => true
  }

  ghost predicate HeldFrom(env: Env, steps: seq<Step>, i: nat, height: u64) {
    ValidRun(env, steps) && forall k :: i <= k < |steps| ==> HeightHeld(Run(env, steps, k), steps[k], height)
  }

  /** No tick under way will write the row: each that has read the rows read it at or below its
      own settled tip, and each that has not has a view that settles its height. */
  ghost predicate TicksSkip(st: System, id: PaymentId)
    requires id in st.ledger && st.ledger[id].Mined()
  {
    && (forall job :: job in st.jobs && job.row.id == id ==> Skipped(job.row.minedHeight, job.view))
    && (forall view :: view in st.views ==> view.IsSettledAt(st.ledger[id].minedHeight.value))
  }

  /** A job comes from a tick that had its rows, or one that had its view and reads the row as
      it is. */
  lemma NewJobs(env: Env, st: System, step: Step, job: RowJob)
    requires Enabled(st, step) && job in Next(env, st, step).jobs && job.row.id in st.ledger
    ensures job in st.jobs || (job.view in st.views && job.row.minedHeight == st.ledger[job.row.id].minedHeight)
  {
    hide Proposed, RecordingOf, Reconciled, WithRangeDowngrade, CachedAfter, TickView;
    if step.TickRead? && job !in st.jobs {
      assert job in JobsOf(step.tick, st.ledger);
      assert job.row == RowOf(job.row.id, st.ledger[job.row.id]);
    }
  }

  /** The view of a tick that begins while the height is held settles it. */
  lemma NewViews(env: Env, st: System, step: Step, view: View, height: u64)
    requires HeightHeld(st, step, height) && view in Next(env, st, step).views
    ensures view in st.views || view.IsSettledAt(height)
  {
    hide Proposed, RecordingOf, Reconciled, WithRangeDowngrade, CachedAfter, JobsOf;
  }

  /** So a tick that begins while the tip is past the row will skip it. */
  lemma NewTicksSkip(env: Env, st: System, step: Step, id: PaymentId)
    requires Enabled(st, step) && id in st.ledger && st.ledger[id].Mined() && TicksSkip(st, id)
    requires HeightHeld(st, step, st.ledger[id].minedHeight.value)
    requires id in Next(env, st, step).ledger && Next(env, st, step).ledger[id] == st.ledger[id]
    ensures TicksSkip(Next(env, st, step), id)
  {
    hide Next, HeightHeld, Enabled;
    var next := Next(env, st, step);
    forall job | job in next.jobs && job.row.id == id ensures Skipped(job.row.minedHeight, job.view) {
      NewJobs(env, st, step, job);
    }
    forall view | view in next.views ensures view.IsSettledAt(st.ledger[id].minedHeight.value) {
      NewViews(env, st, step, view, st.ledger[id].minedHeight.value);
    }
  }

  lemma WatermarkedStep(env: Env, st: System, step: Step, id: PaymentId)
    requires Inv(st) && Enabled(st, step) && Watermarked(st, id) && TicksSkip(st, id)
    requires HeightHeld(st, step, st.ledger[id].minedHeight.value)
    ensures Watermarked(Next(env, st, step), id) && Next(env, st, step).ledger[id] == st.ledger[id]
    ensures TicksSkip(Next(env, st, step), id)
  {
    hide Next, Inv, Skipped;
    assert Undisturbed(st, step, id);
    UndisturbedIff(env, st, step, id);
    NewTicksSkip(env, st, step, id);
  }

  /** The guard at work: once the settled tip has passed a row and the ticks under way skip it,
      no step ever writes it again, whatever the chain plane answers. */
  lemma {:induction false} WatermarkedForever(env: Env, steps: seq<Step>, i: nat, j: nat, id: PaymentId)
    requires i <= j <= |steps| && Watermarked(Run(env, steps, i), id) && TicksSkip(Run(env, steps, i), id)
    requires HeldFrom(env, steps, i, Run(env, steps, i).ledger[id].minedHeight.value)
    ensures Watermarked(Run(env, steps, j), id) && TicksSkip(Run(env, steps, j), id)
    ensures Run(env, steps, j).ledger[id] == Run(env, steps, i).ledger[id]
    decreases j
  {
    hide Next, Inv, HeightHeld, TicksSkip, Enabled;
    if i < j {
      WatermarkedForever(env, steps, i, j - 1, id);
      Reachable(env, steps, j - 1);
      WatermarkedStep(env, Run(env, steps, j - 1), steps[j - 1], id);
    }
  }

  /** So a settled payment that no older tick holds reads the very same snapshot for ever. */
  lemma SnapshotLatches(
    env: Env, steps: seq<Step>, i: nat, j: nat, id: PaymentId, depth: u32, now: u64, later: u64)
    requires i <= j <= |steps| && Lookup(Run(env, steps, i), id, depth, now).settled && TicksSkip(Run(env, steps, i), id)
    requires HeldFrom(env, steps, i, Run(env, steps, i).ledger[id].minedHeight.value)
    ensures Lookup(Run(env, steps, j), id, depth, later) == Lookup(Run(env, steps, i), id, depth, now)
  {
    hide Run, HeldFrom, TicksSkip;
    var st := Run(env, steps, i);
    LookupOfSettled(st, id, depth, now);
    WatermarkedForever(env, steps, i, j, id);
  }

  /** And a row left without depth when the tip passes it is stranded: no later tick repairs it
      and no lookup ever reports it settled. */
  lemma StrandedForever(env: Env, steps: seq<Step>, i: nat, j: nat, id: PaymentId, depth: u32, now: u64)
    requires i <= j <= |steps| && Watermarked(Run(env, steps, i), id) && TicksSkip(Run(env, steps, i), id)
    requires HeldFrom(env, steps, i, Run(env, steps, i).ledger[id].minedHeight.value)
    requires Run(env, steps, i).ledger[id].confirmations == Some(0)
    ensures !Lookup(Run(env, steps, j), id, depth, now).settled
  {
    hide Run, HeldFrom, TicksSkip;
    WatermarkedForever(env, steps, i, j, id);
  }

  // ---- Ticks that were under way when the payment settled ----

  /** The tick that does this job was under way in `st`: it had read the rows, or had its view. */
  ghost predicate UnderWay(st: System, job: RowJob) {
    job in st.jobs || job.view in st.views
  }

  /** Whatever may still write the payment at a later state is the work of ticks under way in
      `first`. */
  ghost predicate OnlyOldTicks(first: System, st: System, id: PaymentId, height: u64) {
    && (forall job :: job in st.jobs && job.row.id == id ==> UnderWay(first, job) || Skipped(job.row.minedHeight, job.view))
    && (forall view :: view in st.views ==> view in first.views || view.IsSettledAt(height))
  }

  lemma OldTicksStep(env: Env, first: System, st: System, step: Step, id: PaymentId, height: u64)
    requires OnlyOldTicks(first, st, id, height) && Enabled(st, step) && SettledAt(st, id, height) && HeightHeld(st, step, height)
    ensures OnlyOldTicks(first, Next(env, st, step), id, height)
  {
    hide Next, HeightHeld, Enabled;
    var next := Next(env, st, step);
    forall job | job in next.jobs && job.row.id == id
      ensures UnderWay(first, job) || Skipped(job.row.minedHeight, job.view)
    {
      NewJobs(env, st, step, job);
    }
    forall view | view in next.views ensures view in first.views || view.IsSettledAt(height) {
      NewViews(env, st, step, view, height);
    }
  }

  lemma {:induction false} OldTicksOnly(env: Env, steps: seq<Step>, i: nat, j: nat, id: PaymentId, height: u64)
    requires HeldFrom(env, steps, i, height) && i <= j <= |steps|
    requires forall k :: i <= k < j ==> SettledThen(env, steps, k, id, height)
    ensures OnlyOldTicks(Run(env, steps, i), Run(env, steps, j), id, height)
    decreases j
  {
    hide Next, Inv, Enabled, HeightHeld, Skipped, SettledAt;
    if i < j {
      hide OnlyOldTicks;
      OldTicksOnly(env, steps, i, j - 1, id, height);
      assert SettledThen(env, steps, j - 1, id, height);
      OldTicksStep(env, Run(env, steps, i), Run(env, steps, j - 1), steps[j - 1], id, height);
    }
  }

  /** The step writes an answer that a tick under way at step `i` got for the payment, and that
      answer does not put it at `height`. */
  ghost predicate OldTickDisagrees(env: Env, steps: seq<Step>, i: nat, k: nat, id: PaymentId, height: u64)
    requires i <= k < |steps|
  {
    && steps[k].ReconcileRow? && steps[k].job.row.id == id && UnderWay(Run(env, steps, i), steps[k].job)
    && !Skipped(steps[k].job.row.minedHeight, steps[k].job.view)
    && !AnswerAgrees(steps[k].answer, steps[k].job.row.minedHeight, height)
  }

  lemma HeldIsSafe(env: Env, steps: seq<Step>, i: nat, k: nat, id: PaymentId, height: u64)
    requires i <= k < |steps| && HeldFrom(env, steps, i, height) && SettledThen(env, steps, k, id, height)
    requires OnlyOldTicks(Run(env, steps, i), Run(env, steps, k), id, height)
    ensures SafeFor(Run(env, steps, k), steps[k], id) <==> !OldTickDisagrees(env, steps, i, k, id, height)
  {
    hide Run, Skipped, AnswerAgrees, UnderWay;
    assert Enabled(Run(env, steps, k), steps[k]) && HeightHeld(Run(env, steps, k), steps[k], height);
  }

  /** While the chain plane holds the height, only ticks that were already under way when the
      payment settled can unsettle it: it stays settled if and only if none of them writes an
      answer that puts it elsewhere. What later ticks are told does not matter. */
  lemma OnlyOldTicksUnsettle(env: Env, steps: seq<Step>, i: nat, id: PaymentId, height: u64)
    requires HeldFrom(env, steps, i, height) && i <= |steps| && SettledThen(env, steps, i, id, height)
    ensures (forall j :: i <= j <= |steps| ==> SettledThen(env, steps, j, id, height))
       <==> (forall k :: i <= k < |steps| ==> !OldTickDisagrees(env, steps, i, k, id, height))
  {
    hide Next, Inv, Enabled, SafeFor, SettledThen, HeightHeld, OldTickDisagrees, OnlyOldTicks, Run;
    if forall j :: i <= j <= |steps| ==> SettledThen(env, steps, j, id, height) {
      forall k | i <= k < |steps| ensures !OldTickDisagrees(env, steps, i, k, id, height) {
        assert SettledThen(env, steps, k, id, height) && SettledThen(env, steps, k + 1, id, height);
        OldTicksOnly(env, steps, i, k, id, height);
        HeldIsSafe(env, steps, i, k, id, height);
        OneStepSafe(env, steps, k, id, height);
      }
    }
    if forall k :: i <= k < |steps| ==> !OldTickDisagrees(env, steps, i, k, id, height) {
      forall j | i <= j <= |steps| ensures SettledThen(env, steps, j, id, height) {
        SettledWhileHeld(env, steps, i, j, id, height);
      }
    }
  }

  lemma OneStepSafe(env: Env, steps: seq<Step>, k: nat, id: PaymentId, height: u64)
    requires k < |steps| && ValidRun(env, steps) && SettledThen(env, steps, k, id, height)
    ensures SettledThen(env, steps, k + 1, id, height) <==> SafeFor(Run(env, steps, k), steps[k], id)
  {
    hide Next, Inv, Enabled, SafeFor, SettledAt;
    Reachable(env, steps, k);
    SafeForIff(env, Run(env, steps, k), steps[k], id, height);
  }

  lemma {:induction false} SettledWhileHeld(env: Env, steps: seq<Step>, i: nat, j: nat, id: PaymentId, height: u64)
    requires HeldFrom(env, steps, i, height) && i <= j <= |steps| && SettledThen(env, steps, i, id, height)
    requires forall k :: i <= k < |steps| ==> !OldTickDisagrees(env, steps, i, k, id, height)
    ensures forall k :: i <= k <= j ==> SettledThen(env, steps, k, id, height)
    decreases j
  {
    hide Next, Inv, Enabled, SafeFor, SettledThen, HeightHeld, OldTickDisagrees, OnlyOldTicks, Run;
    if i < j {
      SettledWhileHeld(env, steps, i, j - 1, id, height);
      OldTicksOnly(env, steps, i, j - 1, id, height);
      HeldIsSafe(env, steps, i, j - 1, id, height);
      OneStepSafe(env, steps, j - 1, id, height);
    }
  }

  /** So a chain plane that holds the height makes the rest of the run safe for the payment,
      provided the ticks under way skip it or agree. */
  lemma HeldRunIsSafe(env: Env, steps: seq<Step>, i: nat, id: PaymentId, height: u64)
    requires HeldFrom(env, steps, i, height) && i <= |steps| && SettledThen(env, steps, i, id, height)
    requires forall k :: i <= k < |steps| ==> !OldTickDisagrees(env, steps, i, k, id, height)
    ensures SafeFrom(env, steps, i, id)
  {
    hide Run, SettledThen, OldTickDisagrees, SafeFor;
    SettledWhileHeld(env, steps, i, |steps|, id, height);
    LatchIff(env, steps, i, id, height);
  }
}
