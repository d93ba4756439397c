/** The libSQL settlement ledger: flattened outcome columns, signed 64-bit integers and
    clamped reads. Main result: every operation sequence reads back exactly what the
    saturating in-memory ledger holds, and every row satisfies the outcome-column constraint. */
module LedgerStore {
  import opened Types
  import opened SettlementLedgers

  datatype Row = Row(
    kind: string,
    transactionId: Option<string>,
    upstreamMessage: Option<string>,
    settledAt: i64,
    confirmations: Option<int>,
    minedHeight: Option<int>,
    lastCheckAt: Option<i64>,
    reorgCount: int,
    lastReorgedAt: Option<i64>,
    expiryHeight: Option<int>,
    payee: string,
    amountZat: int)

  type Table = map<PaymentId, Row>

  // ---- Encoding ----

  function EncodeOutcome(outcome: BroadcastOutcome): (string, Option<string>, Option<string>) {
    match outcome
    case Accepted(txid) => ("accepted", Some(txid), None)
    case Duplicate(txid) => ("duplicate", Some(txid), None)
    case InvalidEncoding(message) => ("invalid_encoding", None, Some(message))
    case Rejected(message) => ("rejected", None, Some(message))
    case Unknown(message) => ("unknown", None, Some(message))
  }

  function DecodeOutcome(kind: string, transactionId: Option<string>, upstreamMessage: Option<string>)
    : Result<BroadcastOutcome, StoreError>
  {
    var message := if upstreamMessage.Some? then upstreamMessage.value else "";
    if kind == "accepted" then
      if transactionId.Some? then Ok(Accepted(transactionId.value)) else Err(RowMalformed("accepted row missing transaction_id"))
    else if kind == "duplicate" then
      if transactionId.Some? then Ok(Duplicate(transactionId.value)) else Err(RowMalformed("duplicate row missing transaction_id"))
    else if kind == "invalid_encoding" then Ok(InvalidEncoding(message))
    else if kind == "rejected" then Ok(Rejected(message))
    else if kind == "unknown" then Ok(Unknown(message))
    else Err(RowMalformed("unknown broadcast_outcome_kind"))
  }

  /** The constraint `settlement_outcome_columns_v4`. */
  predicate OutcomeColumns(kind: string, transactionId: Option<string>, upstreamMessage: Option<string>) {
    || (kind in ["accepted", "duplicate"] && transactionId.Some? && upstreamMessage.None?)
    || (kind in ["invalid_encoding", "rejected", "unknown"] && transactionId.None? && upstreamMessage.Some?)
  }

  /** The three columns satisfy the constraint exactly when they encode some outcome. */
  lemma OutcomeColumnsIff(kind: string, txid: Option<string>, message: Option<string>)
    ensures OutcomeColumns(kind, txid, message) <==>
              DecodeOutcome(kind, txid, message).Ok?
              && EncodeOutcome(DecodeOutcome(kind, txid, message).value) == (kind, txid, message)
  {
  }

  /** What the columns read as: a success needs its transaction id, a missing message is empty,
      and an unknown kind is an error. */
  lemma DecodeMeaning(kind: string, txid: Option<string>, message: Option<string>)
    ensures var r := DecodeOutcome(kind, txid, message);
            var text := if message.Some? then message.value else "";
            && (r.Err? <==>
                  || (kind in ["accepted", "duplicate"] && txid.None?)
                  || kind !in ["accepted", "duplicate", "invalid_encoding", "rejected", "unknown"])
            && (kind == "accepted" && txid.Some? ==> r == Ok(Accepted(txid.value)))
            && (kind == "duplicate" && txid.Some? ==> r == Ok(Duplicate(txid.value)))
            && (kind == "invalid_encoding" ==> r == Ok(InvalidEncoding(text)))
            && (kind == "rejected" ==> r == Ok(Rejected(text))) && (kind == "unknown" ==> r == Ok(Unknown(text)))
  {
  }

  lemma OutcomeRoundTrip(outcome: BroadcastOutcome)
    ensures var (kind, txid, message) := EncodeOutcome(outcome);
            && OutcomeColumns(kind, txid, message) && DecodeOutcome(kind, txid, message) == Ok(outcome)
            && (kind == "accepted" <==> outcome.Accepted?) && (kind == "duplicate" <==> outcome.Duplicate?)
            && (kind == "invalid_encoding" <==> outcome.InvalidEncoding?) && (kind == "rejected" <==> outcome.Rejected?)
            && (kind == "unknown" <==> outcome.Unknown?)
  {
  }

  /** `i64::try_from(x).unwrap_or(i64::MAX)`. */
  function ClampI64(x: u64): i64 {
    Min(x, I64_MAX)
  }

  function ClampHeight(height: Option<u64>): Option<int> {
    if height.Some? then Some(ClampI64(height.value)) else None
  }

  /** Reads clamp an out-of-range column: `u32::MAX` or zero. */
  function ReadU32(raw: int): u32 {
    if 0 <= raw <= U32_MAX then raw else U32_MAX
  }

  function ReadU64(raw: int): u64 {
    if 0 <= raw <= U64_MAX then raw else 0
  }

  function EntryToRow(e: LedgerEntry): Row {
    var (kind, txid, message) := EncodeOutcome(e.outcome);
    Row(kind, txid, message, e.settledAt,
        if e.confirmations.Some? then Some(e.confirmations.value) else None,
        ClampHeight(e.minedHeight), None, e.reorgCount, e.lastReorgedAt,
        if e.expiryHeight.Some? then Some(e.expiryHeight.value) else None, e.payee, ClampI64(e.amountZat))
  }

  function RowToEntry(row: Row): Result<LedgerEntry, StoreError> {
    match DecodeOutcome(row.kind, row.transactionId, row.upstreamMessage)
    case Err(error) => Err(error)
    case Ok(outcome) =>
      Ok(LedgerEntry(outcome, row.settledAt,
                     if row.confirmations.Some? then Some(ReadU32(row.confirmations.value)) else None,
                     if row.minedHeight.Some? then Some(ReadU64(row.minedHeight.value)) else None,
                     ReadU32(row.reorgCount), row.lastReorgedAt,
                     if row.expiryHeight.Some? then Some(ReadU32(row.expiryHeight.value)) else None,
                     row.payee, ReadU64(row.amountZat)))
  }

  predicate Fits(e: LedgerEntry) {
    (e.minedHeight.Some? ==> e.minedHeight.value <= I64_MAX) && e.amountZat <= I64_MAX
  }

  /** A recorded entry reads back unchanged if and only if its height and amount fit `i64`. */
  lemma RecordRoundTripIff(e: LedgerEntry)
    ensures RowToEntry(EntryToRow(e)) == Ok(e) <==> Fits(e)
  {
    OutcomeRoundTrip(e.outcome);
  }

  // ---- Statements ----

  predicate SqlInRange(row: Row, start: u64, end: u64) {
    row.minedHeight.Some? && ClampI64(start) <= row.minedHeight.value <= ClampI64(end)
  }

  /** `BETWEEN` with clamped bounds agrees with the unclamped range on every storable height,
      except for a range that starts beyond `i64` and a row at exactly `i64::MAX`. */
  lemma RangeAgreesIff(height: u64, start: u64, end: u64)
    requires height <= I64_MAX
    ensures (ClampI64(start) <= height <= ClampI64(end) <==> start <= height <= end)
       <==> !(height == I64_MAX && start > I64_MAX && end >= I64_MAX)
  {
  }

  function SqlDowngraded(row: Row, at: i64): Row {
    row.(minedHeight := None, confirmations := Some(0), reorgCount := row.reorgCount + 1, lastReorgedAt := Some(at))
  }

  function SqlConfirmed(row: Row, count: u32, height: Option<u64>, now: i64): Row {
    row.(confirmations := Some(count),
         minedHeight := if height.Some? then ClampHeight(height) else row.minedHeight,  // COALESCE
         lastCheckAt := Some(now))
  }

  /** `SELECT payment_id, transaction_id, mined_block_height … WHERE kind IN (…)`; a row
      without a transaction id makes the whole read fail. */
  predicate SelectsSuccess(row: Row) {
    row.kind in ["accepted", "duplicate"]
  }

  function SelectedRow(id: PaymentId, row: Row): SuccessKindRow
    requires row.transactionId.Some?
  {
    SuccessKindRow(id, row.transactionId.value,
                   if row.minedHeight.Some? then Some(ReadU64(row.minedHeight.value)) else None)
  }

  class LibsqlSettlementLedger {
    var rows: Table

    constructor ()
      ensures rows == map[]
    {
      rows := map[];
    }

    method Record(id: PaymentId, entry: LedgerEntry)
      modifies this
      ensures rows == old(rows)[id := EntryToRow(entry)]
    {
      rows := rows[id := EntryToRow(entry)];
    }

    method Find(id: PaymentId) returns (result: Result<Option<LedgerEntry>, StoreError>)
      ensures id !in rows ==> result == Ok(None)
      ensures id in rows && RowToEntry(rows[id]).Ok? ==> result == Ok(Some(RowToEntry(rows[id]).value))
      ensures id in rows && RowToEntry(rows[id]).Err? ==> result == Err(RowToEntry(rows[id]).error)
    {
      if id !in rows {
        return Ok(None);
      }
      match RowToEntry(rows[id]) {
        case Ok(entry) => result := Ok(Some(entry));
        case Err(error) => result := Err(error);
      }
    }

    /** On a table that reads back as `m`, the poll gets the same rows from either store. */
    method SuccessKindTransactions(ghost m: Ledger) returns (result: Result<seq<SuccessKindRow>, StoreError>)
      ensures result.Err? <==> exists id :: id in rows && SelectsSuccess(rows[id]) && rows[id].transactionId.None?
      ensures Reads(rows, m) ==>
                result.Ok? && DistinctIds(result.value) && (set r | r in result.value) == SuccessRows(m)
    {
      var collected: seq<SuccessKindRow> := [];
      var todo := rows.Keys;
      while todo != {}
        invariant todo <= rows.Keys && DistinctIds(collected)
        invariant forall id :: id in rows.Keys - todo && SelectsSuccess(rows[id]) ==> rows[id].transactionId.Some?
        invariant forall r :: r in collected <==>
                    r.id in rows.Keys - todo && SelectsSuccess(rows[r.id]) && r == SelectedRow(r.id, rows[r.id])
      {
        var id :| id in todo;
        todo := todo - {id};
        if SelectsSuccess(rows[id]) {
          if rows[id].transactionId.None? {
            if Reads(rows, m) {
              SelectedReads(id, rows[id], m[id]);
            }
            return Err(RowMalformed("transaction_id read failed"));
          }
          collected := collected + [SelectedRow(id, rows[id])];
        }
      }
      if Reads(rows, m) {
        forall id | id in rows
          ensures SelectsSuccess(rows[id]) <==> m[id].outcome.IsSuccess()
          ensures SelectsSuccess(rows[id]) ==> SelectedRow(id, rows[id]) == RowOf(id, m[id])
        {
          SelectedReads(id, rows[id], m[id]);
        }
      }
      result := Ok(collected);
    }

    method RecordConfirmation(id: PaymentId, count: u32, height: Option<u64>, now: i64) returns (updated: bool)
      modifies this
      ensures (rows, Flag(updated)) == Executed(old(rows), Confirm(id, count, height, now))
    {
      if id in rows {
        rows := rows[id := SqlConfirmed(rows[id], count, height, now)];
        return true;
      }
      return false;
    }

    method DowngradeOnReorg(id: PaymentId, at: i64) returns (downgraded: bool)
      modifies this
      ensures (rows, Flag(downgraded)) == Executed(old(rows), Downgrade(id, at))
    {
      if id in rows && rows[id].minedHeight.Some? {
        rows := rows[id := SqlDowngraded(rows[id], at)];
        return true;
      }
      return false;
    }

    method DowngradeReorgedRange(start: u64, end: u64, at: i64) returns (downgraded: set<PaymentId>)
      modifies this
      ensures (rows, Ids(downgraded)) == Executed(old(rows), DowngradeRange(start, end, at))
    {
      downgraded := set id | id in rows && SqlInRange(rows[id], start, end);
      rows := map id | id in rows :: if SqlInRange(rows[id], start, end) then SqlDowngraded(rows[id], at) else rows[id];
    }
  }

  // ---- Simulation ----

  datatype Op =
    | Record(id: PaymentId, entry: LedgerEntry)
    | Confirm(id: PaymentId, count: u32, height: Option<u64>, now: i64)
    | Downgrade(id: PaymentId, at: i64)
    | DowngradeRange(start: u64, end: u64, at: i64)

  datatype Output = Done | Flag(flag: bool) | Ids(ids: set<PaymentId>)

  /** One statement on the table. */
  function Executed(rows: Table, op: Op): (Table, Output) {
    match op
    case Record(id, e) => (rows[id := EntryToRow(e)], Done)
    case Confirm(id, count, height, now) =>
      if id in rows then (rows[id := SqlConfirmed(rows[id], count, height, now)], Flag(true)) else (rows, Flag(false))
    case Downgrade(id, at) =>
      if id in rows && rows[id].minedHeight.Some?
      then (rows[id := SqlDowngraded(rows[id], at)], Flag(true)) else (rows, Flag(false))
    case DowngradeRange(start, end, at) =>
      (map id | id in rows :: if SqlInRange(rows[id], start, end) then SqlDowngraded(rows[id], at) else rows[id],
       Ids(set id | id in rows && SqlInRange(rows[id], start, end)))
  }

  /** The same operation on the in-memory ledger. */
  function Performed(m: Ledger, op: Op): (Ledger, Output) {
    match op
    case Record(id, e) => (m[id := e], Done)
    case Confirm(id, count, height, _) => (WithConfirmation(m, id, count, height), Flag(id in m))
    case Downgrade(id, at) => (WithDowngrade(m, id, at), Flag(id in m && m[id].Mined()))
    case DowngradeRange(start, end, at) =>
      (WithRangeDowngrade(m, start, end, at), Ids(set id | id in m && InRange(m[id], start, end)))
  }

  /** Heights, amounts and range starts fit the signed columns. */
  predicate OpFits(op: Op) {
    match op
    case Record(_, e) => Fits(e)
    case Confirm(_, _, height, _) => height.Some? ==> height.value <= I64_MAX
    case Downgrade(_, _) => true
    case DowngradeRange(start, _, _) => start <= I64_MAX
  }

  /** The row reads back as `e`; the regression column may run past `u32`. */
  predicate RowReads(row: Row, e: LedgerEntry) {
    && RowToEntry(row) == Ok(e)
    && OutcomeColumns(row.kind, row.transactionId, row.upstreamMessage)
    && 0 <= row.reorgCount
    && (row.minedHeight.Some? ==> 0 <= row.minedHeight.value <= I64_MAX)
  }

  predicate Reads(rows: Table, m: Ledger) {
    rows.Keys == m.Keys && forall id :: id in rows ==> RowReads(rows[id], m[id])
  }

  /** A readable row is selected exactly when its outcome is a success, as the same row. */
  lemma SelectedReads(id: PaymentId, row: Row, e: LedgerEntry)
    requires RowReads(row, e)
    ensures SelectsSuccess(row) <==> e.outcome.IsSuccess()
    ensures SelectsSuccess(row) ==> row.transactionId.Some? && SelectedRow(id, row) == RowOf(id, e)
  {
  }

  lemma RecordReads(e: LedgerEntry)
    requires Fits(e)
    ensures RowReads(EntryToRow(e), e)
  {
    OutcomeRoundTrip(e.outcome);
  }

  lemma ConfirmReads(row: Row, e: LedgerEntry, count: u32, height: Option<u64>, now: i64)
    requires RowReads(row, e) && (height.Some? ==> height.value <= I64_MAX)
    ensures RowReads(SqlConfirmed(row, count, height, now), Confirmed(e, count, height))
    ensures SqlConfirmed(row, count, height, now).lastCheckAt == Some(now)
  {
  }

  /** An unbounded counter read through a clamp is a saturating counter. */
  lemma DowngradeReads(row: Row, e: LedgerEntry, at: i64)
    requires RowReads(row, e) && e.Mined()
    ensures RowReads(SqlDowngraded(row, at), Downgraded(e, at))
  {
  }

  lemma StepSimulates(rows: Table, m: Ledger, op: Op)
    requires Reads(rows, m) && OpFits(op)
    ensures var (rows', out) := Executed(rows, op);
            var (m', out') := Performed(m, op);
            Reads(rows', m') && out == out'
  {
    match op {
      case Record(id, e) => RecordReads(e);
      case Confirm(id, count, height, now) =>
        if id in m {
          ConfirmReads(rows[id], m[id], count, height, now);
        }
      case Downgrade(id, at) =>
        if id in m && m[id].Mined() {
          DowngradeReads(rows[id], m[id], at);
        }
      case DowngradeRange(start, end, at) =>
        forall id | id in m ensures SqlInRange(rows[id], start, end) <==> InRange(m[id], start, end) {
          assert RowReads(rows[id], m[id]);
        }
        forall id | id in m && InRange(m[id], start, end) ensures RowReads(SqlDowngraded(rows[id], at), Downgraded(m[id], at)) {
          DowngradeReads(rows[id], m[id], at);
        }
    }
  }

  function RunSql(ops: seq<Op>): (Table, seq<Output>) {
    if ops == [] then (map[], []) else
    var (rows, outs) := RunSql(ops[..|ops| - 1]);
    var (next, out) := Executed(rows, ops[|ops| - 1]);
    (next, outs + [out])
  }

  function RunMemory(ops: seq<Op>): (Ledger, seq<Output>) {
    if ops == [] then (map[], []) else
    var (m, outs) := RunMemory(ops[..|ops| - 1]);
    var (next, out) := Performed(m, ops[|ops| - 1]);
    (next, outs + [out])
  }

  /** Every operation sequence gives the same outputs and the same readable rows on both. */
  lemma {:induction false} LedgersAgree(ops: seq<Op>)
    requires forall op :: op in ops ==> OpFits(op)
    ensures Reads(RunSql(ops).0, RunMemory(ops).0)
    ensures RunSql(ops).1 == RunMemory(ops).1
  {
    if ops != [] {
      var init := ops[..|ops| - 1];
      LedgersAgree(init);
      StepSimulates(RunSql(init).0, RunMemory(init).0, ops[|ops| - 1]);
    }
  }
}
