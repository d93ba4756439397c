/** The reconciliation tick: re-poll every unsettled success-kind row and apply the answer.
    Main results: a tick is idempotent, agrees with the chain plane, and absorbs any batch of
    reorg deliveries above its settled tip. */
module Reconcile {
  import opened Types
  import opened ChainStatus
  import opened SettlementLedgers
  import opened Status

  datatype ConfirmationOutcome =
    | MinedAt(blockHeight: u64, confirmations: u32)
    | InMempool
    | NotFound
    | ConflictingChain

  /** The chain plane's reply for one transaction; `Err` is a transport failure. */
  type OracleAnswer = Result<ConfirmationOutcome, string>

  // ---- One row ----

  /** Writing the answer for a row that had height `read` when the tick read it. */
  function AnswerWritten(e: LedgerEntry, read: Option<u64>, answer: OracleAnswer, at: i64): LedgerEntry {
    match answer
    case Err(_) => e
    case Ok(MinedAt(height, count)) => Confirmed(e, count, Some(height))
    case Ok(InMempool) => if read.Some? then Downgraded(e, at) else Confirmed(e, 0, None)
    case Ok(_) => if read.Some? then Downgraded(e, at) else e
  }

  /** What one reconciled row does to the ledger. The row is the tick's snapshot; the writes
      go to whatever the ledger holds now. */
  function Reconciled(m: Ledger, row: SuccessKindRow, answer: OracleAnswer, at: i64): Ledger {
    if row.id in m then m[row.id := AnswerWritten(m[row.id], row.minedHeight, answer, at)] else m
  }

  predicate Skipped(minedHeight: Option<u64>, view: View) {
    minedHeight.Some? && view.IsSettledAt(minedHeight.value)
  }

  // ---- One tick ----

  function TickEntry(e: LedgerEntry, view: View, fetch: TxId -> OracleAnswer, at: i64): LedgerEntry {
    if e.outcome.IsSuccess() && !Skipped(e.minedHeight, view)
    then AnswerWritten(e, e.minedHeight, fetch(e.outcome.transactionId), at)
    else e
  }

  /** The ledger after a complete tick; `stamp` is the wall clock at each row. */
  function Tick(m: Ledger, view: View, fetch: TxId -> OracleAnswer, stamp: PaymentId -> i64): Ledger {
    map id | id in m :: TickEntry(m[id], view, fetch, stamp(id))
  }

  /** The view a tick works with: the fresh one, or the cached one when the read failed. */
  function TickView(cached: View, status: Result<View, string>): View {
    if status.Ok? then status.value else cached
  }

  predicate Refreshes(status: Result<View, string>) {
    status.Ok? && status.value.visibleTip.Some? && status.value.settledTip.Some?
  }

  /** The cache after a tick: refreshed only by a view that carries both heights. */
  function CachedAfter(cached: View, status: Result<View, string>): View {
    if Refreshes(status) then status.value else cached
  }

  method ReconcileUnsettledRow(ledger: SettlementLedger, row: SuccessKindRow, answer: OracleAnswer, at: i64)
    modifies ledger
    ensures ledger.entries == Reconciled(old(ledger.entries), row, answer, at)
  {
    assert row.id in ledger.entries ==> ledger.entries == ledger.entries[row.id := ledger.entries[row.id]];
    match answer {
      case Err(_) =>
      case Ok(MinedAt(height, count)) =>
        var _ := ledger.RecordConfirmation(row.id, count, Some(height));
      case Ok(InMempool) =>
        if row.minedHeight.Some? {
          var _ := ledger.DowngradeOnReorg(row.id, at);
        } else {
          var _ := ledger.RecordConfirmation(row.id, 0, None);
        }
      case Ok(_) =>
        if row.minedHeight.Some? {
          var _ := ledger.DowngradeOnReorg(row.id, at);
        }
    }
  }

  /** A tick under way: the rows in `done` have been visited. */
  function PartialTick(
    m: Ledger, done: set<PaymentId>, view: View, fetch: TxId -> OracleAnswer, stamp: PaymentId -> i64): Ledger
  {
    map id | id in m :: if id in done then TickEntry(m[id], view, fetch, stamp(id)) else m[id]
  }

  lemma PartialTickStep(
    m: Ledger, done: set<PaymentId>, view: View, fetch: TxId -> OracleAnswer, stamp: PaymentId -> i64, row: SuccessKindRow)
    requires row in SuccessRows(m) && row.id !in done
    ensures PartialTick(m, done + {row.id}, view, fetch, stamp)
         == (if Skipped(row.minedHeight, view) then PartialTick(m, done, view, fetch, stamp)
             else Reconciled(PartialTick(m, done, view, fetch, stamp), row, fetch(row.transactionId), stamp(row.id)))
  {
    assert row == RowOf(row.id, m[row.id]);
    assert PartialTick(m, done, view, fetch, stamp)[row.id] == m[row.id];
  }

  lemma PartialTickComplete(
    m: Ledger, done: set<PaymentId>, view: View, fetch: TxId -> OracleAnswer, stamp: PaymentId -> i64)
    requires forall id :: id in m && m[id].outcome.IsSuccess() ==> id in done
    ensures PartialTick(m, done, view, fetch, stamp) == Tick(m, view, fetch, stamp)
  {
  }

  lemma RowsCoverSuccessIds(m: Ledger, rows: seq<SuccessKindRow>)
    requires (set r | r in rows) == SuccessRows(m)
    ensures (set k | 0 <= k < |rows| :: rows[k].id) == set id | id in m && m[id].outcome.IsSuccess()
  {
    forall id | id in m && m[id].outcome.IsSuccess()
      ensures exists k :: 0 <= k < |rows| && rows[k].id == id
    {
      assert RowOf(id, m[id]) in SuccessRows(m);
      assert RowOf(id, m[id]) in rows;
    }
    forall k | 0 <= k < |rows|
      ensures rows[k].id in m && m[rows[k].id].outcome.IsSuccess()
    {
      assert rows[k] in rows;
      assert rows[k] in SuccessRows(m);
    }
  }

  function WatchedSuccessIds(m: Ledger, watched: set<PaymentId>): set<PaymentId> {
    set id | id in m && m[id].outcome.IsSuccess() && id in watched
  }

  /** One tick over the whole ledger. Rows are visited one by one in an arbitrary order, yet
      every snapshot the tick publishes is the projection of the final ledger, and exactly the
      watched success-kind rows are published. `watched` holds the ids that have a subscriber
      when their row is reached; `prepared` and `now` are what a row's lookup reads then. */
  method PollOracleOnce(
    ledger: SettlementLedger, cache: ChainStatusCache, status: Result<View, string>,
    fetch: TxId -> OracleAnswer, stamp: PaymentId -> i64,
    prepared: PaymentId -> PreparedTable, watched: set<PaymentId>, depth: u32, now: PaymentId -> u64, refreshedAt: u64)
    returns (published: map<PaymentId, Snapshot>)
    modifies ledger, cache
    ensures cache.AsView() == CachedAfter(old(cache.AsView()), status)
    ensures cache.refreshedAt == if Refreshes(status) then refreshedAt else old(cache.refreshedAt)
    ensures var view := TickView(old(cache.AsView()), status);
            && ledger.entries == Tick(old(ledger.entries), view, fetch, stamp)
            && published.Keys == WatchedSuccessIds(old(ledger.entries), watched)
            && forall id :: id in published ==>
                 published[id] == LookupPaymentStatus(id, prepared(id), ledger.entries, depth, view, now(id))
  {
    var view;
    match status {
      case Ok(latest) =>
        if latest.visibleTip.Some? && latest.settledTip.Some? {
          cache.Store(latest.visibleTip.value, latest.settledTip.value, refreshedAt);
        }
        view := latest;
      case Err(_) =>
        view := cache.Load();
    }
    published := ReconcileRows(ledger, view, fetch, stamp, prepared, watched, depth, now);
  }

  method ReconcileRows(
    ledger: SettlementLedger, view: View, fetch: TxId -> OracleAnswer, stamp: PaymentId -> i64,
    prepared: PaymentId -> PreparedTable, watched: set<PaymentId>, depth: u32, now: PaymentId -> u64)
    returns (published: map<PaymentId, Snapshot>)
    modifies ledger
    ensures ledger.entries == Tick(old(ledger.entries), view, fetch, stamp)
    ensures published.Keys == WatchedSuccessIds(old(ledger.entries), watched)
    ensures forall id :: id in published ==>
              published[id] == LookupPaymentStatus(id, prepared(id), ledger.entries, depth, view, now(id))
  {
    ghost var before, done := ledger.entries, {};
    ghost var after := Tick(before, view, fetch, stamp);
    assert PartialTick(before, done, view, fetch, stamp) == before;
    var rows := ledger.SuccessKindTransactions();
    published := map[];
    var i := 0;
    while i < |rows|
      invariant 0 <= i <= |rows|
      invariant done == set k | 0 <= k < i :: rows[k].id
      invariant ledger.entries == PartialTick(before, done, view, fetch, stamp)
      invariant published.Keys == done * watched
      invariant forall id :: id in published ==>
                  published[id] == LookupPaymentStatus(id, prepared(id), after, depth, view, now(id))
    {
      var row := rows[i];
      assert row in SuccessRows(before) by { assert row in rows; }
      PartialTickStep(before, done, view, fetch, stamp, row);
      if !Skipped(row.minedHeight, view) {
        ReconcileUnsettledRow(ledger, row, fetch(row.transactionId), stamp(row.id));
      }
      done := done + {row.id};
      if row.id in watched {
        assert ledger.entries[row.id] == after[row.id];
        published := published[row.id := 
                                 LookupPaymentStatus(row.id, prepared(row.id), ledger.entries, depth, view, now(row.id))];
      }
      i := i + 1;
    }
    RowsCoverSuccessIds(before, rows);
    PartialTickComplete(before, done, view, fetch, stamp);
  }

  // ---- Agreement and idempotence ----

  /** The tick polls the row: it is a success, and not mined at or below the settled tip. */
  predicate Polls(e: LedgerEntry, view: View) {
    && (e.outcome.Accepted? || e.outcome.Duplicate?)
    && !(e.minedHeight.Some? && view.settledTip.Some? && e.minedHeight.value <= view.settledTip.value)
  }

  /** After a tick, a row it polled says what the chain plane said: mined exactly at the reported
      height with the reported depth, or not mined. A row that was mined and no longer is has
      regressed, and no other. Rows the tick did not poll, or got no reply for, are untouched. */
  lemma TickAgreesWithChain(m: Ledger, view: View, fetch: TxId -> OracleAnswer, stamp: PaymentId -> i64, id: PaymentId)
    requires id in m
    ensures var e, f := m[id], Tick(m, view, fetch, stamp)[id];
            if !Polls(e, view) || fetch(e.outcome.transactionId).Err? then f == e
            else
              && f.outcome == e.outcome && f.settledAt == e.settledAt && f.expiryHeight == e.expiryHeight
              && f.payee == e.payee && f.amountZat == e.amountZat
              && (if e.minedHeight.Some? && f.minedHeight.None?
                  then f.reorgCount == Min(e.reorgCount + 1, U32_MAX) && f.lastReorgedAt == Some(stamp(id))
                  else f.reorgCount == e.reorgCount && f.lastReorgedAt == e.lastReorgedAt)
              && match fetch(e.outcome.transactionId).value
                 case MinedAt(height, count) => f.minedHeight == Some(height) && f.confirmations == Some(count)
                 case InMempool => f.minedHeight == None && f.confirmations == Some(0)
                 case _ => f.minedHeight == None && f.confirmations == if e.minedHeight.Some? then Some(0) else e.confirmations
  {
  }

  /** The view of a tick is the fresh one, or the cached one when the read failed; the cache
      takes a fresh view only when it has both heights. */
  lemma TickViews(cached: View, latest: View, reason: string)
    ensures TickView(cached, Ok(latest)) == latest && TickView(cached, Err(reason)) == cached
    ensures CachedAfter(cached, Err(reason)) == cached
    ensures CachedAfter(cached, Ok(latest)) == if latest.visibleTip.Some? && latest.settledTip.Some? then latest else cached
  {
  }

  /** A second tick with the same answers changes nothing, not even counters or stamps. */
  lemma TickIdempotent(
    m: Ledger, view: View, fetch: TxId -> OracleAnswer, first: PaymentId -> i64, second: PaymentId -> i64)
    ensures Tick(Tick(m, view, fetch, first), view, fetch, second) == Tick(m, view, fetch, first)
  {
    var once := Tick(m, view, fetch, first);
    forall id | id in m
      ensures TickEntry(once[id], view, fetch, second(id)) == once[id]
    {
      assert once[id] == TickEntry(m[id], view, fetch, first(id));
    }
  }

  // ---- Confluence of the event path and the poll path ----

  /** A reorg delivery: the inclusive reverted range and the second it was handled. */
  datatype Reorg = Reorg(start: u64, end: u64, at: i64)

  /** The ledger after the event path handled the deliveries in order. */
  function Deliver(m: Ledger, reorgs: seq<Reorg>): Ledger
    decreases |reorgs|
  {
    if reorgs == [] then m
    else Deliver(WithRangeDowngrade(m, reorgs[0].start, reorgs[0].end, reorgs[0].at), reorgs[1..])
  }

  ghost predicate Hit(e: LedgerEntry, reorgs: seq<Reorg>) {
    exists r :: r in reorgs && InRange(e, r.start, r.end)
  }

  /** However many deliveries hit a row, it regresses once: by the first that hits. */
  lemma {:induction false} DeliverRow(m: Ledger, reorgs: seq<Reorg>, id: PaymentId)
    requires id in m
    ensures Deliver(m, reorgs).Keys == m.Keys
    ensures !Hit(m[id], reorgs) ==> Deliver(m, reorgs)[id] == m[id]
    ensures Hit(m[id], reorgs) ==> exists r :: r in reorgs && Deliver(m, reorgs)[id] == Downgraded(m[id], r.at)
    decreases |reorgs|
  {
    if reorgs != [] {
      var r := reorgs[0];
      var next := WithRangeDowngrade(m, r.start, r.end, r.at);
      assert next.Keys == m.Keys;
      DeliverRow(next, reorgs[1..], id);
      if InRange(m[id], r.start, r.end) {
        assert r in reorgs;
        assert !Hit(next[id], reorgs[1..]);
      } else {
        assert next[id] == m[id];
        assert forall q :: q in reorgs <==> q == r || q in reorgs[1..];
      }
    }
  }

  predicate AboveSettledTip(reorgs: seq<Reorg>, view: View) {
    forall r :: r in reorgs && view.settledTip.Some? ==> r.start > view.settledTip.value
  }

  /** Failure-kind rows never carry a height; see `Lifecycle.Reachable`. */
  predicate FailureRowsUnmined(m: Ledger) {
    forall id :: id in m && !m[id].outcome.IsSuccess() ==> !m[id].Mined()
  }

  /** The tick gets a reply for every row it polls. */
  predicate ErrorFree(m: Ledger, view: View, fetch: TxId -> OracleAnswer) {
    forall id :: id in m && m[id].outcome.IsSuccess() && !Skipped(m[id].minedHeight, view) ==>
      fetch(m[id].outcome.transactionId).Ok?
  }

  predicate SameButRegressions(a: LedgerEntry, b: LedgerEntry) {
    a == b.(reorgCount := a.reorgCount, lastReorgedAt := a.lastReorgedAt)
  }

  /** A regressed row and the untouched row meet again after the tick. */
  lemma RegressionAbsorbed(e: LedgerEntry, view: View, fetch: TxId -> OracleAnswer, at: i64, stamp: i64)
    requires e.outcome.IsSuccess() && e.Mined() && !Skipped(e.minedHeight, view)
    ensures var absorbed := TickEntry(Downgraded(e, at), view, fetch, stamp);
            var plain := TickEntry(e, view, fetch, stamp);
            && (SameButRegressions(absorbed, plain) <==> fetch(e.outcome.transactionId).Ok?)
            && (fetch(e.outcome.transactionId).Ok? ==>
                  absorbed.reorgCount in {plain.reorgCount, SaturatingAdd32(plain.reorgCount, 1)})
  {
  }

  /** The projection reads nothing of the ledger but the payment's own row. */
  lemma LookupIsLocal(
    id: PaymentId, prepared: PreparedTable, m: Ledger, n: Ledger, depth: u32, view: View, now: u64)
    requires id in m && id in n && SameButRegressions(m[id], n[id])
    ensures var s := LookupPaymentStatus(id, prepared, m, depth, view, now);
            s == LookupPaymentStatus(id, prepared, n, depth, view, now).(reorgCount := s.reorgCount)
  {
  }

  /** Lost, duplicated or reordered deliveries above the tick's settled tip leave no trace in
      heights, counts or projected status after one complete error-free tick. The regression
      counter differs by at most one: a reorg seen by both paths is counted once. */
  lemma Confluence(
    m: Ledger, reorgs: seq<Reorg>, view: View, fetch: TxId -> OracleAnswer, stamp: PaymentId -> i64, id: PaymentId,
    prepared: PreparedTable, depth: u32, now: u64)
    requires id in m && FailureRowsUnmined(m) && ErrorFree(m, view, fetch) && AboveSettledTip(reorgs, view)
    ensures var via := Tick(Deliver(m, reorgs), view, fetch, stamp);
            var alone := Tick(m, view, fetch, stamp);
            && via.Keys == alone.Keys
            && SameButRegressions(via[id], alone[id])
            && via[id].reorgCount in {alone[id].reorgCount, SaturatingAdd32(alone[id].reorgCount, 1)}
            && var s := LookupPaymentStatus(id, prepared, via, depth, view, now);
               s == LookupPaymentStatus(id, prepared, alone, depth, view, now).(reorgCount := s.reorgCount)
  {
    var via := Tick(Deliver(m, reorgs), view, fetch, stamp);
    var alone := Tick(m, view, fetch, stamp);
    DeliverRow(m, reorgs, id);
    if Hit(m[id], reorgs) {
      var hit :| hit in reorgs && InRange(m[id], hit.start, hit.end);
      var r :| r in reorgs && Deliver(m, reorgs)[id] == Downgraded(m[id], r.at);
      RegressionAbsorbed(m[id], view, fetch, r.at, stamp(id));
    }
    LookupIsLocal(id, prepared, via, alone, depth, view, now);
  }
}
