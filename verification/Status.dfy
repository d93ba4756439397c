/** The status projection: prepared row, ledger row and chain view into one snapshot. */
module Status {
  import opened Types
  import opened ChainStatus

  datatype PaymentStatus = Awaiting | Broadcast | Mined | Final | Failed | NeverIssued | Expired
  {
    predicate IsTerminal() {
      Failed? || NeverIssued? || Expired?
    }
  }

  datatype Snapshot = Snapshot(
    id: PaymentId,
    status: PaymentStatus,
    outcome: Option<BroadcastOutcome>,
    settledAt: Option<i64>,
    confirmations: Option<u32>,
    minedHeight: Option<u64>,
    reorgCount: u32,
    settled: bool)
  {
    predicate StreamClosed() {
      settled || status.IsTerminal()
    }
  }

  function ClassifySuccessRow(e: LedgerEntry, depth: u32, view: View): (PaymentStatus, bool) {
    if e.minedHeight.Some? && e.confirmations.Some? && e.confirmations.value >= 1 then
      (if e.confirmations.value >= depth then Final else Mined, view.IsSettledAt(e.minedHeight.value))
    else if e.expiryHeight.Some? && view.IsLapsedAt(e.expiryHeight.value) then (Expired, false)
    else (Broadcast, false)
  }

  function Classify(e: LedgerEntry, depth: u32, view: View): (PaymentStatus, bool) {
    if e.outcome.IsSuccess() then ClassifySuccessRow(e, depth, view) else (Failed, false)
  }

  function LookupPaymentStatus(
    id: PaymentId, prepared: PreparedTable, ledger: Ledger, depth: u32, view: View, now: u64): Snapshot
  {
    if id in ledger then
      var e := ledger[id];
      var (status, settled) := Classify(e, depth, view);
      Snapshot(id, status, Some(e.outcome), Some(e.settledAt), e.confirmations, e.minedHeight, e.reorgCount, settled)
    else if id in prepared then
      Snapshot(id, if prepared[id].expiresAt > now then Awaiting else Expired, None, None, None, None, 0, false)
    else
      Snapshot(id, NeverIssued, None, None, None, None, 0, false)
  }

  /** What the `settled` bit of a snapshot means, and what it rules out. */
  lemma SettledMeaning(
    id: PaymentId, prepared: PreparedTable, ledger: Ledger, depth: u32, view: View, now: u64)
    ensures var s := LookupPaymentStatus(id, prepared, ledger, depth, view, now);
            && (s.settled <==>
                && id in ledger && (ledger[id].outcome.Accepted? || ledger[id].outcome.Duplicate?)
                && ledger[id].minedHeight.Some? && view.settledTip.Some?
                && ledger[id].minedHeight.value <= view.settledTip.value
                && ledger[id].confirmations.Some? && ledger[id].confirmations.value >= 1)
            && (s.settled ==> s.status in {Mined, Final} && s.minedHeight == ledger[id].minedHeight)
            && (s.status == NeverIssued <==> id !in ledger && id !in prepared)
  {
  }

  /** A snapshot carries its row: outcome, time, count, height and regressions as they stand. */
  lemma SnapshotCarriesRow(
    id: PaymentId, prepared: PreparedTable, ledger: Ledger, depth: u32, view: View, now: u64)
    ensures var s := LookupPaymentStatus(id, prepared, ledger, depth, view, now);
            && s.id == id
            && (id in ledger ==>
                  var e := ledger[id];
                  && s.outcome == Some(e.outcome) && s.settledAt == Some(e.settledAt) && s.confirmations == e.confirmations
                  && s.minedHeight == e.minedHeight && s.reorgCount == e.reorgCount)
            && (id !in ledger ==>
                  && s.outcome == None && s.settledAt == None && s.confirmations == None && s.minedHeight == None
                  && s.reorgCount == 0 && !s.settled)
  {
  }

  /** A row whose containing block the oracle has seen. */
  predicate Seen(e: LedgerEntry) {
    e.minedHeight.Some? && e.confirmations.Some? && e.confirmations.value >= 1
  }

  /** When each status is reported: the seven cases exclude one another and leave nothing out.
      A snapshot closes the stream exactly when it is settled, failed, expired or unknown. */
  lemma StatusMeaning(
    id: PaymentId, prepared: PreparedTable, ledger: Ledger, depth: u32, view: View, now: u64)
    ensures var s := LookupPaymentStatus(id, prepared, ledger, depth, view, now);
            var status := s.status;
            var success := id in ledger && (ledger[id].outcome.Accepted? || ledger[id].outcome.Duplicate?);
            var lapsed := success && !Seen(ledger[id]) && ledger[id].expiryHeight.Some?
                          && view.visibleTip.Some? && view.visibleTip.value >= ledger[id].expiryHeight.value;
            && (status == Final <==> success && Seen(ledger[id]) && ledger[id].confirmations.value >= depth)
            && (status == Mined <==> success && Seen(ledger[id]) && ledger[id].confirmations.value < depth)
            && (status == Broadcast <==> success && !Seen(ledger[id]) && !lapsed)
            && (status == Failed <==> id in ledger && !success)
            && (status == Awaiting <==> id !in ledger && id in prepared && prepared[id].expiresAt > now)
            && (status == NeverIssued <==> id !in ledger && id !in prepared)
            && (status == Expired <==> lapsed || (id !in ledger && id in prepared && prepared[id].expiresAt <= now))
            && (s.StreamClosed() <==> s.settled || status in {Failed, NeverIssued, Expired})
  {
  }

  // ---- Torn reads of the view cache ----

  /** A load that overlaps one store: each field is read either before or after the store
      wrote it, in any combination (the fields are relaxed atomics). */
  ghost predicate TornRead(before: Fields, after: Fields, seen: Fields) {
    && seen.visibleTip in {before.visibleTip, after.visibleTip}
    && seen.settledTip in {before.settledTip, after.settledTip}
    && seen.known in {before.known, after.known}
  }

  ghost predicate Harmless(e: LedgerEntry, before: Fields, after: Fields, seen: Fields, depth: u32) {
    Classify(e, depth, seen.AsView()) in {Classify(e, depth, before.AsView()), Classify(e, depth, after.AsView())}
  }

  /** A mined row reads only the settled tip and an unmined row only the visible tip, so a
      torn view never produces a pair that neither whole view would have produced. A cache
      that was never stored holds zero heights, and whatever a zero height settles or lapses
      the stored view settles or lapses too. */
  lemma TornViewsHarmless(e: LedgerEntry, before: Fields, after: Fields, seen: Fields, depth: u32)
    requires after.known && TornRead(before, after, seen)
    requires before.known || (before.visibleTip == 0 && before.settledTip == 0)
    ensures Harmless(e, before, after, seen, depth)
  {
    assert Classify(e, depth, seen.AsView()) == Classify(e, depth, before.AsView())
           || Classify(e, depth, seen.AsView()) == Classify(e, depth, after.AsView());
  }
}
