/** Ticks as runs of the state machine. A tick takes its view, reads the rows and visits each of
    them, in any order and with envelopes of the event path in between. Main results: without
    envelopes such a run computes `Reconcile.Tick`. Reorgs handled before a row is visited are
    absorbed; a row disagrees with the undisturbed tick if and only if a reorg handled after its
    visit reverts the very height the visit wrote. */
module TickRuns {
  import opened Types
  import opened ChainStatus
  import opened SettlementLedgers
  import opened Status
  import opened Reconcile
  import opened Prepare
  import opened Lifecycle

  /** What a tick works with: its view, the chain plane's replies, and its clock. */
  datatype Poll = Poll(view: View, fetch: TxId -> OracleAnswer, stamp: PaymentId -> i64)

  function Visit(p: Poll, row: SuccessKindRow): Step {
    ReconcileRow(RowJob(p.view, row), p.fetch(row.transactionId), p.stamp(row.id))
  }

  /** The state after `steps` taken from `st`. */
  ghost function After(env: Env, st: System, steps: seq<Step>): System {
    if steps == [] then st else Next(env, After(env, st, steps[..|steps| - 1]), steps[|steps| - 1])
  }

  ghost predicate EnabledAll(env: Env, st: System, steps: seq<Step>) {
    forall k :: 0 <= k < |steps| ==> Enabled(After(env, st, steps[..k]), steps[k])
  }

  /** Runs from the start are such runs. */
  lemma {:induction false} RunIsAfter(env: Env, steps: seq<Step>, k: nat)
    requires k <= |steps|
    ensures Run(env, steps, k) == After(env, INITIAL, steps[..k])
    decreases k
  {
    hide Next;
    if k > 0 {
      RunIsAfter(env, steps, k - 1);
      assert steps[..k][..k - 1] == steps[..k - 1];
    }
  }

  lemma {:induction false} AfterAppend(env: Env, st: System, steps: seq<Step>, step: Step)
    ensures After(env, st, steps + [step]) == Next(env, After(env, st, steps), step)
  {
    hide Next;
    assert (steps + [step])[..|steps + [step]| - 1] == steps;
  }

  lemma {:induction false} AfterConcat(env: Env, st: System, a: seq<Step>, b: seq<Step>)
    ensures After(env, st, a + b) == After(env, After(env, st, a), b)
    decreases |b|
  {
    hide Next;
    if b == [] {
      assert a + b == a;
    } else {
      var init, last := b[..|b| - 1], b[|b| - 1];
      AfterConcat(env, st, a, init);
      assert a + b == (a + init) + [last];
      AfterAppend(env, st, a + init, last);
    }
  }

  // ---- The rest of a tick, with envelopes in between ----

  /** The rows the steps visit, in order. */
  function Visited(steps: seq<Step>): set<SuccessKindRow> {
    set k | 0 <= k < |steps| && steps[k].ReconcileRow? :: steps[k].job.row
  }

  /** Every step visits a row of the snapshot, none twice, or is one half of an envelope. */
  ghost predicate VisitsOrEnvelopes(p: Poll, m: Ledger, steps: seq<Step>) {
    && (forall k :: 0 <= k < |steps| ==>
          || steps[k].HandleReorg? || steps[k].StoreView?
          || (steps[k].ReconcileRow? && steps[k].job.row in SuccessRows(m) && steps[k] == Visit(p, steps[k].job.row)))
    && (forall i, k :: 0 <= i < k < |steps| && steps[i].ReconcileRow? && steps[k].ReconcileRow? ==>
          steps[i].job.row != steps[k].job.row)
  }

  // ---- Without deliveries ----

  function Ids(rows: set<SuccessKindRow>): set<PaymentId> {
    set r | r in rows :: r.id
  }

  lemma {:induction false} VisitedAppend(steps: seq<Step>, step: Step)
    ensures Visited(steps + [step]) == Visited(steps) + if step.ReconcileRow? then {step.job.row} else {}
  {
    var longer := steps + [step];
    forall r ensures r in Visited(longer) <==> r in Visited(steps) || (step.ReconcileRow? && r == step.job.row) {
      if r in Visited(steps) {
        var k :| 0 <= k < |steps| && steps[k].ReconcileRow? && steps[k].job.row == r;
        assert longer[k] == steps[k];
      }
      if step.ReconcileRow? {
        assert longer[|steps|] == step;
      }
    }
  }

  /** The last step visits a row that was not visited before. */
  lemma NotYetVisited(p: Poll, m: Ledger, steps: seq<Step>)
    requires steps != [] && VisitsOrEnvelopes(p, m, steps) && steps[|steps| - 1].ReconcileRow?
    ensures var init, row := steps[..|steps| - 1], steps[|steps| - 1].job.row;
            VisitsOrEnvelopes(p, m, init) && row in SuccessRows(m) && row !in Visited(init) && row.id !in Ids(Visited(init))
  {
    var init, row := steps[..|steps| - 1], steps[|steps| - 1].job.row;
    forall k | 0 <= k < |init| && init[k].ReconcileRow? ensures init[k].job.row.id != row.id {
      assert steps[k].job.row in SuccessRows(m) && steps[k].job.row != row;
      assert row == RowOf(row.id, m[row.id]);
      assert steps[k].job.row == RowOf(steps[k].job.row.id, m[steps[k].job.row.id]);
    }
  }

  lemma VisitStep(env: Env, st: System, p: Poll, row: SuccessKindRow)
    ensures var next := Next(env, st, Visit(p, row));
            && next.ledger == (if Skipped(row.minedHeight, p.view) then st.ledger
                               else Reconciled(st.ledger, row, p.fetch(row.transactionId), p.stamp(row.id)))
            && next.jobs == st.jobs - multiset{RowJob(p.view, row)}
  {
    hide Reconciled, Skipped;
  }

  /** Visiting rows one by one, in any order, is the tick under way. */
  lemma {:induction false} VisitsArePartialTick(env: Env, st: System, p: Poll, steps: seq<Step>)
    requires VisitsOrEnvelopes(p, st.ledger, steps) && forall k :: 0 <= k < |steps| ==> steps[k].ReconcileRow?
    ensures After(env, st, steps).ledger == PartialTick(st.ledger, Ids(Visited(steps)), p.view, p.fetch, p.stamp)
    decreases |steps|
  {
    hide Next, TickEntry, Reconciled, Skipped;
    if steps == [] {
      assert PartialTick(st.ledger, {}, p.view, p.fetch, p.stamp) == st.ledger;
      assert Visited(steps) == {};
    } else {
      var init, last := steps[..|steps| - 1], steps[|steps| - 1];
      NotYetVisited(p, st.ledger, steps);
      VisitsArePartialTick(env, st, p, init);
      PartialTickStep(st.ledger, Ids(Visited(init)), p.view, p.fetch, p.stamp, last.job.row);
      VisitStep(env, After(env, st, init), p, last.job.row);
      assert steps == init + [last];
      VisitedAppend(init, last);
      assert Ids(Visited(steps)) == Ids(Visited(init)) + {last.job.row.id};
    }
  }

  /** The view is taken and the rows are read, with nothing in between. */
  function Begin(status: Result<View, string>, p: Poll): seq<Step> {
    [TickBegin(status)] + [TickRead(p.view)]
  }

  lemma TickStarts(env: Env, st: System, status: Result<View, string>)
    ensures Next(env, st, TickBegin(status)) ==
              st.(view := CachedAfter(st.view, status), views := st.views + multiset{TickView(st.view, status)})
  {
    hide CachedAfter, TickView;
  }

  lemma TickReadsRows(env: Env, st: System, tick: View)
    ensures Next(env, st, TickRead(tick)) ==
              st.(views := st.views - multiset{tick}, jobs := st.jobs + multiset(JobsOf(tick, st.ledger)))
  {
    hide JobsOf;
  }

  lemma OneStep(env: Env, st: System, step: Step)
    ensures After(env, st, [step]) == Next(env, st, step)
  {
    hide Next;
    AfterAppend(env, st, [], step);
    assert [] + [step] == [step];
  }

  /** The state in which a tick starts to visit rows. */
  lemma TickBegins(env: Env, st: System, status: Result<View, string>, p: Poll)
    requires p.view == TickView(st.view, status)
    ensures var begun := After(env, st, Begin(status, p));
            begun == st.(view := CachedAfter(st.view, status), jobs := st.jobs + multiset(JobsOf(p.view, st.ledger)))
  {
    hide Next, After;
    AfterConcat(env, st, [TickBegin(status)], [TickRead(p.view)]);
    OneStep(env, st, TickBegin(status));
    OneStep(env, Next(env, st, TickBegin(status)), TickRead(p.view));
    TickStarts(env, st, status);
    TickReadsRows(env, Next(env, st, TickBegin(status)), p.view);
    assert st.views + multiset{p.view} - multiset{p.view} == st.views;
  }

  /** A tick of the state machine computes the row-wise tick, whatever the order of its rows. */
  lemma TickRunIsTick(env: Env, st: System, status: Result<View, string>, p: Poll, rows: seq<Step>)
    requires p.view == TickView(st.view, status)
    requires VisitsOrEnvelopes(p, st.ledger, rows) && (forall k :: 0 <= k < |rows| ==> rows[k].ReconcileRow?)
    requires Visited(rows) == SuccessRows(st.ledger)
    ensures var end := After(env, st, Begin(status, p) + rows);
            && end.ledger == Tick(st.ledger, p.view, p.fetch, p.stamp)
            && end.view == CachedAfter(st.view, status)
  {
    hide Next, After, Tick, PartialTick;
    var begun := After(env, st, Begin(status, p));
    TickBegins(env, st, status, p);
    AfterConcat(env, st, Begin(status, p), rows);
    VisitsArePartialTick(env, begun, p, rows);
    forall id | id in st.ledger && st.ledger[id].outcome.IsSuccess() ensures id in Ids(Visited(rows)) {
      assert RowOf(id, st.ledger[id]) in SuccessRows(st.ledger);
    }
    PartialTickComplete(st.ledger, Ids(Visited(rows)), p.view, p.fetch, p.stamp);
    RowStepsKeepView(env, begun, rows);
  }

  lemma {:induction false} RowStepsKeepView(env: Env, st: System, steps: seq<Step>)
    requires forall k :: 0 <= k < |steps| ==> steps[k].ReconcileRow?
    ensures After(env, st, steps).view == st.view
    decreases |steps|
  {
    hide Next;
    if steps != [] {
      RowStepsKeepView(env, st, steps[..|steps| - 1]);
      ViewAfterStep(env, After(env, st, steps[..|steps| - 1]), steps[|steps| - 1]);
    }
  }

  // ---- The rows under way ----

  function JobsFor(p: Poll, rows: set<SuccessKindRow>): set<RowJob> {
    set r | r in rows :: RowJob(p.view, r)
  }

  /** The state a tick starts its row loop in. */
  predicate Reads(st: System, p: Poll, m: Ledger, others: multiset<RowJob>) {
    st.ledger == m && st.jobs == others + multiset(JobsOf(p.view, m))
  }

  /** A tick finds each of its rows still to be visited, uses up exactly its own jobs, and
      leaves those of other ticks alone. */
  lemma {:induction false} TickUsesItsJobs(env: Env, st: System, p: Poll, others: multiset<RowJob>, steps: seq<Step>)
    requires Reads(st, p, st.ledger, others) && VisitsOrEnvelopes(p, st.ledger, steps)
    ensures EnabledAll(env, st, steps)
    ensures After(env, st, steps).jobs == others + multiset(JobsFor(p, SuccessRows(st.ledger) - Visited(steps)))
    decreases |steps|
  {
    hide Next, Visited, Enabled, EnabledAll, VisitsOrEnvelopes;
    if steps == [] {
      assert Visited([]) == {} && EnabledAll(env, st, []) by { NothingVisited(env, st); }
      assert JobsFor(p, SuccessRows(st.ledger) - {}) == JobsOf(p.view, st.ledger);
    } else {
      var init, last := steps[..|steps| - 1], steps[|steps| - 1];
      assert steps == init + [last];
      var before, left := After(env, st, init), SuccessRows(st.ledger) - Visited(init);
      ShorterRun(p, st.ledger, steps);
      TickUsesItsJobs(env, st, p, others, init);
      VisitedAppend(init, last);
      if last.ReconcileRow? {
        NotYetVisited(p, st.ledger, steps);
        VisitStep(env, before, p, last.job.row);
        JobUsed(p, left, last.job.row, others);
        assert SuccessRows(st.ledger) - Visited(steps) == left - {last.job.row};
      } else {
        EnvelopeStep(env, before, last);
        assert SuccessRows(st.ledger) - Visited(steps) == left;
      }
      assert Enabled(before, last) by { RowStepEnabled(before, last); }
      EnabledAppend(env, st, init, last);
    }
  }

  lemma NothingVisited(env: Env, st: System)
    ensures Visited([]) == {} && EnabledAll(env, st, [])
  {
  }

  lemma ShorterRun(p: Poll, m: Ledger, steps: seq<Step>)
    requires steps != [] && VisitsOrEnvelopes(p, m, steps)
    ensures VisitsOrEnvelopes(p, m, steps[..|steps| - 1])
    ensures var last := steps[|steps| - 1];
            last.HandleReorg? || last.StoreView? || (last.ReconcileRow? && last == Visit(p, last.job.row))
  {
  }

  lemma RowStepEnabled(st: System, step: Step)
    requires step.HandleReorg? || step.StoreView? || (step.ReconcileRow? && step.job in st.jobs)
    ensures Enabled(st, step)
  {
  }

  lemma EnabledAppend(env: Env, st: System, steps: seq<Step>, step: Step)
    requires EnabledAll(env, st, steps) && Enabled(After(env, st, steps), step)
    ensures EnabledAll(env, st, steps + [step])
  {
    hide After, Enabled;
    var longer := steps + [step];
    forall k | 0 <= k < |longer| ensures Enabled(After(env, st, longer[..k]), longer[k]) {
      if k < |steps| {
        assert longer[..k] == steps[..k] && longer[k] == steps[k];
      } else {
        assert longer[..k] == steps;
      }
    }
  }

  lemma JobUsed(p: Poll, rows: set<SuccessKindRow>, row: SuccessKindRow, others: multiset<RowJob>)
    requires row in rows
    ensures RowJob(p.view, row) in others + multiset(JobsFor(p, rows))
    ensures others + multiset(JobsFor(p, rows)) - multiset{RowJob(p.view, row)} == others + multiset(JobsFor(p, rows - {row}))
  {
    var job := RowJob(p.view, row);
    assert job in JobsFor(p, rows);
    assert JobsFor(p, rows - {row}) == JobsFor(p, rows) - {job};
    assert multiset(JobsFor(p, rows) - {job}) == multiset(JobsFor(p, rows)) - multiset{job};
  }

  // ---- One row, with reorgs before and after its visit ----

  /** The row is as the tick read it, or some delivery has regressed it since. */
  ghost predicate MayHaveRegressed(e: LedgerEntry, f: LedgerEntry) {
    f == e || exists at :: f == Downgraded(e, at)
  }

  /** `f` says what the tick makes of `e`; regressions seen on the way show only in the counter,
      once at most, and in the stamp. */
  predicate Agrees(e: LedgerEntry, f: LedgerEntry, ticked: LedgerEntry) {
    && SameButRegressions(f, ticked)
    && f.reorgCount in {ticked.reorgCount, SaturatingAdd32(ticked.reorgCount, 1)}
    && (!e.Mined() ==> f.reorgCount == ticked.reorgCount)
  }

  /** A visit writes what the tick writes, whether or not the row has regressed since it was
      read. */
  lemma VisitAgrees(e: LedgerEntry, f: LedgerEntry, p: Poll, at: i64)
    requires e.outcome.IsSuccess() && MayHaveRegressed(e, f) && (Skipped(e.minedHeight, p.view) ==> f == e)
    requires Skipped(e.minedHeight, p.view) || p.fetch(e.outcome.transactionId).Ok?
    ensures Agrees(e, if Skipped(e.minedHeight, p.view) then f else AnswerWritten(f, e.minedHeight, p.fetch(e.outcome.transactionId), at),
                   TickEntry(e, p.view, p.fetch, at))
  {
  }

  /** The height the chain plane reports for a row the tick polls. */
  function Reported(p: Poll, e: LedgerEntry): Option<u64>
    requires e.outcome.IsSuccess()
  {
    var answer := p.fetch(e.outcome.transactionId);
    if !Skipped(e.minedHeight, p.view) && answer.Ok? && answer.value.MinedAt? then Some(answer.value.blockHeight) else None
  }

  /** The step reverts that height. */
  predicate Reverts(step: Step, height: Option<u64>) {
    step.HandleReorg? && height.Some? && step.start <= height.value <= step.end
  }

  /** A reorg handled after the visit of the row reverts what the visit wrote. Ranges are
      heights, and a transaction is often mined again at a height its old block had. */
  ghost predicate Undone(p: Poll, e: LedgerEntry, steps: seq<Step>, id: PaymentId)
    requires e.outcome.IsSuccess()
  {
    exists i, k :: 0 <= i < k < |steps| && Visits(steps[i], id) && Reverts(steps[k], Reported(p, e))
  }

  predicate Visits(step: Step, id: PaymentId) {
    step.ReconcileRow? && step.job.row.id == id
  }

  ghost predicate VisitedBy(steps: seq<Step>, id: PaymentId) {
    exists k :: 0 <= k < |steps| && Visits(steps[k], id)
  }

  /** Every range starts above the tick's settled tip. */
  predicate AllAbove(p: Poll, steps: seq<Step>) {
    forall k :: 0 <= k < |steps| && steps[k].HandleReorg? && p.view.settledTip.Some? ==> p.view.settledTip.value < steps[k].start
  }

  /** The tick gets a reply for the row, or does not ask. */
  predicate Answered(p: Poll, e: LedgerEntry)
    requires e.outcome.IsSuccess()
  {
    Skipped(e.minedHeight, p.view) || p.fetch(e.outcome.transactionId).Ok?
  }

  lemma {:induction false} UndoneAppend(p: Poll, e: LedgerEntry, steps: seq<Step>, step: Step, id: PaymentId)
    requires e.outcome.IsSuccess()
    ensures VisitedBy(steps + [step], id) <==> VisitedBy(steps, id) || Visits(step, id)
    ensures Undone(p, e, steps + [step], id) <==>
              Undone(p, e, steps, id) || (VisitedBy(steps, id) && Reverts(step, Reported(p, e)))
    ensures Undone(p, e, steps, id) ==> VisitedBy(steps, id)
  {
    hide Visits, Reverts, Reported;
    var longer, height := steps + [step], Reported(p, e);
    assert longer[|steps|] == step && forall k :: 0 <= k < |steps| ==> longer[k] == steps[k];
    if VisitedBy(steps, id) {
      var i :| 0 <= i < |steps| && Visits(steps[i], id);
      assert Visits(longer[i], id);
      if Reverts(step, height) {
        assert 0 <= i < |steps| && Visits(longer[i], id) && Reverts(longer[|steps|], height);
      }
    }
    if Undone(p, e, steps, id) {
      var i, k :| 0 <= i < k < |steps| && Visits(steps[i], id) && Reverts(steps[k], height);
      assert Visits(longer[i], id) && Reverts(longer[k], height);
    }
    if Undone(p, e, longer, id) {
      var i, k :| 0 <= i < k < |longer| && Visits(longer[i], id) && Reverts(longer[k], height);
      assert Visits(steps[i], id);
    }
  }

  /** Where the row stands in the middle of the tick. */
  ghost predicate RowStands(p: Poll, e: LedgerEntry, f: LedgerEntry, id: PaymentId, visited: bool, undone: bool)
    requires e.outcome.IsSuccess()
  {
    if !visited then MayHaveRegressed(e, f) && (Skipped(e.minedHeight, p.view) ==> f == e)
    else if undone then !f.Mined() && Reported(p, e).Some?
    else Agrees(e, f, TickEntry(e, p.view, p.fetch, p.stamp(id)))
  }

  lemma ReorgMoves(p: Poll, e: LedgerEntry, f: LedgerEntry, id: PaymentId, visited: bool, undone: bool, step: Step)
    requires e.outcome.IsSuccess() && Answered(p, e) && step.HandleReorg? && (undone ==> visited)
    requires p.view.settledTip.Some? ==> p.view.settledTip.value < step.start
    requires RowStands(p, e, f, id, visited, undone)
    ensures RowStands(p, e, RangeDowngraded(f, step.start, step.end, step.at), id, visited,
                      undone || (visited && Reverts(step, Reported(p, e))))
  {
    if !visited {
      if f == e {
        assert RangeDowngraded(f, step.start, step.end, step.at) in {e, Downgraded(e, step.at)};
      } else {
        assert !f.Mined();
      }
    }
  }

  lemma RowMoves(p: Poll, m: Ledger, e: LedgerEntry, f: LedgerEntry, id: PaymentId, visited: bool, undone: bool, step: Step)
    requires id in m && m[id] == e && e.outcome.IsSuccess() && Answered(p, e) && (undone ==> visited)
    requires step.HandleReorg? || step.StoreView? || (step.ReconcileRow? && step.job.row in SuccessRows(m) && step == Visit(p, step.job.row))
    requires step.HandleReorg? && p.view.settledTip.Some? ==> p.view.settledTip.value < step.start
    requires Visits(step, id) ==> !visited
    requires RowStands(p, e, f, id, visited, undone)
    ensures RowStands(p, e, RowAfter(f, id, step), id, visited || Visits(step, id),
                      undone || (visited && Reverts(step, Reported(p, e))))
  {
    if step.HandleReorg? {
      ReorgMoves(p, e, f, id, visited, undone, step);
    } else if Visits(step, id) {
      assert step.job.row == RowOf(id, e);
      VisitAgrees(e, f, p, p.stamp(id));
    }
  }

  lemma {:induction false} RowThroughTick(env: Env, st: System, p: Poll, steps: seq<Step>, id: PaymentId)
    requires id in st.ledger && st.ledger[id].outcome.IsSuccess() && Answered(p, st.ledger[id])
    requires VisitsOrEnvelopes(p, st.ledger, steps) && AllAbove(p, steps)
    ensures var e, end := st.ledger[id], After(env, st, steps).ledger;
            && end.Keys == st.ledger.Keys
            && RowStands(p, e, end[id], id, VisitedBy(steps, id), Undone(p, e, steps, id))
    decreases |steps|
  {
    hide Next, RowAfter, RowStands, Answered, Reverts;
    var e := st.ledger[id];
    if steps == [] {
      assert RowStands(p, e, e, id, false, false) by { NothingYet(p, e, id); }
    } else {
      var init, last := steps[..|steps| - 1], steps[|steps| - 1];
      assert steps == init + [last];
      ShorterRun(p, st.ledger, steps);
      RowThroughTick(env, st, p, init, id);
      UndoneAppend(p, e, init, last, id);
      VisitedOnce(p, st.ledger, steps, id);
      ChainStepRows(env, After(env, st, init), last);
      RowMoves(p, st.ledger, e, After(env, st, init).ledger[id], id, VisitedBy(init, id), Undone(p, e, init, id), last);
    }
  }

  lemma NothingYet(p: Poll, e: LedgerEntry, id: PaymentId)
    requires e.outcome.IsSuccess()
    ensures RowStands(p, e, e, id, false, false)
  {
  }

  lemma VisitedIds(steps: seq<Step>, id: PaymentId)
    requires VisitedBy(steps, id)
    ensures id in Ids(Visited(steps))
  {
    var k :| 0 <= k < |steps| && Visits(steps[k], id);
    assert steps[k].job.row in Visited(steps);
  }

  lemma VisitedOnce(p: Poll, m: Ledger, steps: seq<Step>, id: PaymentId)
    requires steps != [] && VisitsOrEnvelopes(p, m, steps)
    ensures Visits(steps[|steps| - 1], id) ==> !VisitedBy(steps[..|steps| - 1], id)
  {
    hide VisitsOrEnvelopes, Visited, Ids, VisitedBy;
    var init := steps[..|steps| - 1];
    if Visits(steps[|steps| - 1], id) {
      NotYetVisited(p, m, steps);
      if VisitedBy(init, id) {
        VisitedIds(init, id);
      }
    }
  }

  /** A row the tick visits ends as the undisturbed tick leaves it if and only if no reorg
      handled after the visit reverts what the visit wrote. Reorgs handled before it, other
      rows and view refreshes do not matter. */
  lemma RowAgreesIff(env: Env, st: System, p: Poll, steps: seq<Step>, id: PaymentId)
    requires id in st.ledger && st.ledger[id].outcome.IsSuccess() && Answered(p, st.ledger[id])
    requires VisitsOrEnvelopes(p, st.ledger, steps) && AllAbove(p, steps) && VisitedBy(steps, id)
    ensures var e, end := st.ledger[id], After(env, st, steps).ledger;
            var ticked := TickEntry(e, p.view, p.fetch, p.stamp(id));
            && end.Keys == st.ledger.Keys
            && (Agrees(e, end[id], ticked) <==> !Undone(p, e, steps, id))
            && (SameButRegressions(end[id], ticked) <==> !Undone(p, e, steps, id))
            && (Undone(p, e, steps, id) ==> !end[id].Mined() && ticked.Mined())
  {
    hide Undone, VisitedBy, After, VisitsOrEnvelopes, AllAbove;
    RowThroughTick(env, st, p, steps, id);
  }

  /** A row of failure kind stays as it is. */
  lemma {:induction false} FailureThroughTick(env: Env, st: System, p: Poll, steps: seq<Step>, id: PaymentId)
    requires id in st.ledger && !st.ledger[id].outcome.IsSuccess() && !st.ledger[id].Mined()
    requires VisitsOrEnvelopes(p, st.ledger, steps)
    ensures After(env, st, steps).ledger.Keys == st.ledger.Keys && After(env, st, steps).ledger[id] == st.ledger[id]
    decreases |steps|
  {
    hide Next;
    if steps != [] {
      var init, last := steps[..|steps| - 1], steps[|steps| - 1];
      ShorterRun(p, st.ledger, steps);
      FailureThroughTick(env, st, p, init, id);
      ChainStepRows(env, After(env, st, init), last);
      assert last.ReconcileRow? ==> last.job.row.id != id;
    }
  }

  lemma AllVisited(m: Ledger, steps: seq<Step>, id: PaymentId)
    requires id in m && m[id].outcome.IsSuccess() && Visited(steps) == SuccessRows(m)
    ensures VisitedBy(steps, id)
  {
    assert RowOf(id, m[id]) in SuccessRows(m);
    assert RowOf(id, m[id]) in Visited(steps);
    var k :| 0 <= k < |steps| && steps[k].ReconcileRow? && steps[k].job.row == RowOf(id, m[id]);
    assert Visits(steps[k], id);
  }

  /** The same for a payment of either kind; nothing undoes a row of failure kind. */
  ghost predicate UndoneRow(p: Poll, m: Ledger, steps: seq<Step>, id: PaymentId)
    requires id in m
  {
    m[id].outcome.IsSuccess() && Undone(p, m[id], steps, id)
  }

  /** A complete tick with envelopes between its rows, against the tick alone, row by row. */
  lemma TickWithDeliveries(env: Env, st: System, p: Poll, steps: seq<Step>, id: PaymentId)
    requires id in st.ledger && FailureRowsUnmined(st.ledger) && ErrorFree(st.ledger, p.view, p.fetch)
    requires VisitsOrEnvelopes(p, st.ledger, steps) && AllAbove(p, steps) && Visited(steps) == SuccessRows(st.ledger)
    ensures var end, ticked := After(env, st, steps).ledger, Tick(st.ledger, p.view, p.fetch, p.stamp);
            && end.Keys == st.ledger.Keys == ticked.Keys
            && (Agrees(st.ledger[id], end[id], ticked[id]) <==> !UndoneRow(p, st.ledger, steps, id))
            && (SameButRegressions(end[id], ticked[id]) <==> !UndoneRow(p, st.ledger, steps, id))
            && (UndoneRow(p, st.ledger, steps, id) ==> !end[id].Mined() && ticked[id].Mined())
  {
    hide Undone, After, VisitsOrEnvelopes, AllAbove, TickEntry, Visited;
    if st.ledger[id].outcome.IsSuccess() {
      AllVisited(st.ledger, steps, id);
      RowAgreesIff(env, st, p, steps, id);
    } else {
      FailureThroughTick(env, st, p, steps, id);
      FailureAgrees(p, st.ledger[id], p.stamp(id));
    }
  }

  lemma FailureAgrees(p: Poll, e: LedgerEntry, at: i64)
    requires !e.outcome.IsSuccess() && !e.Mined()
    ensures Agrees(e, e, TickEntry(e, p.view, p.fetch, at)) && SameButRegressions(e, TickEntry(e, p.view, p.fetch, at))
  {
  }

  // ---- Confluence inside a run ----

  function Deliveries(reorgs: seq<Reorg>): seq<Step> {
    if reorgs == [] then [] else [HandleReorg(reorgs[0].start, reorgs[0].end, reorgs[0].at)] + Deliveries(reorgs[1..])
  }

  /** Handling deliveries one by one is `Reconcile.Deliver`, and changes nothing but the ledger. */
  lemma {:induction false} DeliveriesDeliver(env: Env, st: System, reorgs: seq<Reorg>)
    ensures After(env, st, Deliveries(reorgs)) == st.(ledger := Deliver(st.ledger, reorgs))
    decreases |reorgs|
  {
    hide WithRangeDowngrade, Next;
    if reorgs != [] {
      var first := HandleReorg(reorgs[0].start, reorgs[0].end, reorgs[0].at);
      AfterConcat(env, st, [first], Deliveries(reorgs[1..]));
      AfterAppend(env, st, [], first);
      assert [] + [first] == [first];
      EnvelopeStep(env, st, first);
      DeliveriesDeliver(env, st.(ledger := WithRangeDowngrade(st.ledger, first.start, first.end, first.at)), reorgs[1..]);
    }
  }

  lemma EnvelopeStep(env: Env, st: System, step: Step)
    requires step.HandleReorg? || step.StoreView?
    ensures Next(env, st, step) ==
              if step.HandleReorg? then st.(ledger := WithRangeDowngrade(st.ledger, step.start, step.end, step.at))
              else st.(view := View(Some(step.visibleTip), Some(step.settledTip)))
  {
  }

  /** Rows above the tip that deliveries regressed are still rows the tick polls. */
  lemma DeliveredErrorFree(m: Ledger, reorgs: seq<Reorg>, view: View, fetch: TxId -> OracleAnswer)
    requires ErrorFree(m, view, fetch) && AboveSettledTip(reorgs, view) && FailureRowsUnmined(m)
    ensures var n := Deliver(m, reorgs);
            ErrorFree(n, view, fetch) && FailureRowsUnmined(n) && n.Keys == m.Keys
  {
    var n := Deliver(m, reorgs);
    forall id | id in m ensures n.Keys == m.Keys && SameIdentity(m[id], n[id])
      && (n[id].outcome.IsSuccess() && !Skipped(n[id].minedHeight, view) ==> fetch(n[id].outcome.transactionId).Ok?)
      && (!n[id].outcome.IsSuccess() ==> !n[id].Mined())
    {
      DeliverRow(m, reorgs, id);
      if Hit(m[id], reorgs) {
        var r :| r in reorgs && InRange(m[id], r.start, r.end);
      }
    }
    if m == map[] {
      DeliverNothing(reorgs);
    }
  }

  lemma {:induction false} DeliverNothing(reorgs: seq<Reorg>)
    ensures Deliver(map[], reorgs) == map[]
    decreases |reorgs|
  {
    if reorgs != [] {
      assert WithRangeDowngrade(map[], reorgs[0].start, reorgs[0].end, reorgs[0].at) == map[];
      DeliverNothing(reorgs[1..]);
    }
  }

  lemma {:induction false} DeliverConcat(m: Ledger, a: seq<Reorg>, b: seq<Reorg>)
    ensures Deliver(Deliver(m, a), b) == Deliver(m, a + b)
    decreases |a|
  {
    hide WithRangeDowngrade;
    if a == [] {
      assert a + b == b;
    } else {
      assert (a + b)[1..] == a[1..] + b;
      DeliverConcat(WithRangeDowngrade(m, a[0].start, a[0].end, a[0].at), a[1..], b);
    }
  }

  /** A tick with reorgs handled before it, between its view and its rows, and envelopes between
      the visits. */
  function BusyTick(
    early: seq<Reorg>, status: Result<View, string>, late: seq<Reorg>, p: Poll, steps: seq<Step>): seq<Step>
  {
    Deliveries(early) + ([TickBegin(status)] + (Deliveries(late) + ([TickRead(p.view)] + steps)))
  }

  lemma BusyTickLedger(
    env: Env, st: System, early: seq<Reorg>, status: Result<View, string>, late: seq<Reorg>, p: Poll, steps: seq<Step>)
    returns (read: System)
    ensures After(env, st, BusyTick(early, status, late, p, steps)) == After(env, read, steps)
    ensures read.ledger == Deliver(st.ledger, early + late) && read.prepared == st.prepared
  {
    hide Next, After, Deliver;
    AfterConcat(env, st, Deliveries(early), [TickBegin(status)] + (Deliveries(late) + ([TickRead(p.view)] + steps)));
    DeliveriesDeliver(env, st, early);
    var s1 := st.(ledger := Deliver(st.ledger, early));
    AfterConcat(env, s1, [TickBegin(status)], Deliveries(late) + ([TickRead(p.view)] + steps));
    OneStep(env, s1, TickBegin(status));
    TickStarts(env, s1, status);
    var s2 := Next(env, s1, TickBegin(status));
    AfterConcat(env, s2, Deliveries(late), [TickRead(p.view)] + steps);
    DeliveriesDeliver(env, s2, late);
    var s3 := s2.(ledger := Deliver(s2.ledger, late));
    AfterConcat(env, s3, [TickRead(p.view)], steps);
    OneStep(env, s3, TickRead(p.view));
    TickReadsRows(env, s3, p.view);
    read := Next(env, s3, TickRead(p.view));
    DeliverConcat(st.ledger, early, late);
  }

  /** Confluence of the event path and the poll path, at every point of every run. Reorgs before
      the tick, between its view and its rows, and between its visits, lost, duplicated or
      reordered, leave the heights, counts and projected status of an undisturbed tick if and
      only if none handled after the visit of the row reverts what the visit wrote. A regression
      seen on the way is counted once, whichever paths saw it. */
  lemma ConfluenceInRun(
    env: Env, run: seq<Step>, early: seq<Reorg>, status: Result<View, string>, late: seq<Reorg>, p: Poll,
    steps: seq<Step>, alone: seq<Step>, id: PaymentId, depth: u32, view: View, now: u64)
    requires ValidRun(env, run) && id in Run(env, run, |run|).ledger && AboveSettledTip(early + late, p.view)
    requires p.view == TickView(Run(env, run, |run|).view, status) && ErrorFree(Run(env, run, |run|).ledger, p.view, p.fetch)
    requires var delivered := Deliver(Run(env, run, |run|).ledger, early + late);
             && VisitsOrEnvelopes(p, delivered, steps) && Visited(steps) == SuccessRows(delivered) && AllAbove(p, steps)
    requires var m := Run(env, run, |run|).ledger;
             && VisitsOrEnvelopes(p, m, alone) && Visited(alone) == SuccessRows(m)
             && forall k :: 0 <= k < |alone| ==> alone[k].ReconcileRow?
    ensures id in Deliver(Run(env, run, |run|).ledger, early + late)
    ensures var st := Run(env, run, |run|);
            var via := After(env, st, BusyTick(early, status, late, p, steps));
            var plain := After(env, st, Begin(status, p) + alone);
            var undone := UndoneRow(p, Deliver(st.ledger, early + late), steps, id);
            && via.ledger.Keys == plain.ledger.Keys == st.ledger.Keys
            && (SameButRegressions(via.ledger[id], plain.ledger[id]) <==> !undone)
            && (undone ==> !via.ledger[id].Mined() && plain.ledger[id].Mined())
            && (!undone ==>
                  && via.ledger[id].reorgCount in {plain.ledger[id].reorgCount, SaturatingAdd32(plain.ledger[id].reorgCount, 1)}
                  && var s := LookupPaymentStatus(id, via.prepared, via.ledger, depth, view, now);
                     s == LookupPaymentStatus(id, plain.prepared, plain.ledger, depth, view, now).(reorgCount := s.reorgCount))
  {
    var st := Run(env, run, |run|);
    Reachable(env, run, |run|);
    hide Run, ValidRun, Next, VisitsOrEnvelopes, AllAbove, ErrorFree, After, Deliver, Tick, Undone, BusyTick;
    var reorgs := early + late;
    DeliveredErrorFree(st.ledger, reorgs, p.view, p.fetch);
    var read := BusyTickLedger(env, st, early, status, late, p, steps);
    TickWithDeliveries(env, read, p, steps, id);
    TickRunIsTick(env, st, status, p, alone);
    DeliveredTickAgrees(st.ledger, reorgs, p, id);
    var via := After(env, st, BusyTick(early, status, late, p, steps));
    var plain := After(env, st, Begin(status, p) + alone);
    if SameButRegressions(via.ledger[id], plain.ledger[id]) {
      LookupIsLocal(id, st.prepared, via.ledger, plain.ledger, depth, view, now);
    }
  }

  /** The tick after the deliveries against the tick alone; a row the deliveries hit has spent
      its one regression. */
  lemma DeliveredTickAgrees(m: Ledger, reorgs: seq<Reorg>, p: Poll, id: PaymentId)
    requires id in m && FailureRowsUnmined(m) && ErrorFree(m, p.view, p.fetch) && AboveSettledTip(reorgs, p.view)
    ensures var via, alone := Tick(Deliver(m, reorgs), p.view, p.fetch, p.stamp), Tick(m, p.view, p.fetch, p.stamp);
            && via.Keys == alone.Keys == m.Keys == Deliver(m, reorgs).Keys
            && SameButRegressions(via[id], alone[id])
            && (if Deliver(m, reorgs)[id] == m[id] then via[id] == alone[id]
                else !Deliver(m, reorgs)[id].Mined()
                     && via[id].reorgCount in {alone[id].reorgCount, SaturatingAdd32(alone[id].reorgCount, 1)})
  {
    DeliverRow(m, reorgs, id);
    Confluence(m, reorgs, p.view, p.fetch, p.stamp, id, map[], 0, 0);
  }
}
