/** The libSQL prepared-transaction table. The payment URI is not a column: it is derived
    again from recipient, amount and memo on every read. Main result: the table and the
    two-index cache simulate each other on every row `propose` writes. */
module PreparedStore {
  import opened Types
  import opened ZecAmount
  import opened Prepare

  /** One table row; integer columns are signed 64-bit. */
  datatype Row = Row(
    payee: string,
    network: string,
    recipient: string,
    amountZat: i64,
    memo: seq<u8>,
    expiryHeight: i64,
    jkt: string,
    idempotencyKey: Option<string>,
    expiresAt: i64)

  function NetworkToSql(network: Network): string {
    match network
    case Mainnet => "mainnet"
    case Testnet => "testnet"
    case Regtest => "regtest"
  }

  function SqlToNetwork(raw: string): Result<Network, StoreError> {
    if raw == "mainnet" then Ok(Mainnet)
    else if raw == "testnet" then Ok(Testnet)
    else if raw == "regtest" then Ok(Regtest)
    else Err(RowMalformed("unknown network"))
  }

  function EntryToRow(e: PreparedTx): Result<Row, StoreError> {
    if e.amountZat > I64_MAX then Err(IntegrityViolation("amount_zat exceeds i64"))
    else if e.expiresAt > I64_MAX then Err(IntegrityViolation("expires_at_unix_seconds exceeds i64"))
    else Ok(Row(e.payee, NetworkToSql(e.network), e.recipient, e.amountZat, e.preparation.memo,
                e.preparation.expiryHeight, e.jkt, e.idempotencyKey, e.expiresAt))
  }

  function RowToEntry(base64: seq<u8> -> string, id: PaymentId, row: Row): Result<PreparedTx, StoreError> {
    if row.amountZat < 0 then Err(RowMalformed("amount_zat does not fit u64"))
    else if !(0 <= row.expiryHeight <= U32_MAX) then Err(RowMalformed("expiry_height does not fit u32"))
    else if SqlToNetwork(row.network).Err? then Err(SqlToNetwork(row.network).error)
    else if row.expiresAt < 0 then Err(RowMalformed("expires_at_unix_seconds does not fit u64"))
    else
      var uri := ComposePaymentUri(base64, row.recipient, row.amountZat, row.memo);
      Ok(PreparedTx(Preparation(id, uri, row.memo, row.expiryHeight, row.amountZat), row.payee,
                    SqlToNetwork(row.network).value, row.recipient, row.amountZat, row.expiresAt,
                    row.idempotencyKey, row.jkt))
  }

  /** Everything the schema does not store can be recomputed from what it does. */
  predicate Derivable(base64: seq<u8> -> string, e: PreparedTx) {
    && e.preparation.amountZat == e.amountZat
    && e.preparation.paymentUri == ComposePaymentUri(base64, e.recipient, e.amountZat, e.preparation.memo)
  }

  /** A row reads back as written if and only if its URI and amount are the derived ones. */
  lemma RowRoundTripIff(base64: seq<u8> -> string, e: PreparedTx)
    requires EntryToRow(e).Ok?
    ensures RowToEntry(base64, e.preparation.paymentId, EntryToRow(e).value) == Ok(e) <==> Derivable(base64, e)
  {
    hide ComposePaymentUri, NetworkToSql, SqlToNetwork;
    NetworkRoundTrip(e.network);
    var p := e.preparation;
    assert p == Preparation(p.paymentId, p.paymentUri, p.memo, p.expiryHeight, p.amountZat);
  }

  lemma NetworkRoundTrip(network: Network)
    ensures SqlToNetwork(NetworkToSql(network)) == Ok(network)
  {
  }

  /** Every row `propose` drafts is derivable, so a replayed prepare returns the same URI. */
  lemma DraftDerivable(
    env: Env, request: PrepareRequest, jkt: string, tip: Result<u32, string>, newId: PaymentId, now: u64)
    requires Draft(env, request, jkt, tip, newId, now).Ok?
    ensures Derivable(env.base64, Draft(env, request, jkt, tip, newId, now).value)
    ensures Draft(env, request, jkt, tip, newId, now).value.preparation.paymentId == newId
  {
  }

  /** Every row the table accepts satisfies the column constraints of its schema. */
  lemma RowMeetsSchema(e: PreparedTx)
    requires EntryToRow(e).Ok?
    ensures var row := EntryToRow(e).value;
            && row.network in ["mainnet", "testnet", "regtest"] && row.amountZat >= 0
            && (row.network == "mainnet" <==> e.network.Mainnet?) && (row.network == "testnet" <==> e.network.Testnet?)
  {
  }

  /** A row read back from the table asks the payer for its own recipient, amount and memo. */
  lemma StoredUriAsks(base64: seq<u8> -> string, id: PaymentId, row: Row)
    requires RowToEntry(base64, id, row).Ok? && '?' !in row.recipient
    ensures var p := RowToEntry(base64, id, row).value;
            var asked := ReadUri(p.preparation.paymentUri);
            && asked.Some? && asked.value.recipient == row.recipient && asked.value.memo == base64(row.memo)
            && ParseZec(asked.value.amount) == Some(row.amountZat)
            && p.recipient == row.recipient && p.amountZat == row.amountZat && p.preparation.memo == row.memo
  {
    hide ComposePaymentUri, ReadUri, ParseZec;
    UriReads(base64, row.recipient, row.amountZat, row.memo);
  }

  /** The table rows, read back, are the rows of `t`. */
  ghost predicate Represents(base64: seq<u8> -> string, rows: map<PaymentId, Row>, t: PreparedTable) {
    && rows.Keys == t.Keys
    && forall id :: id in rows ==> RowToEntry(base64, id, rows[id]) == Ok(t[id])
  }

  function RowKey(row: Row): Option<CompositeKey> {
    if row.idempotencyKey.Some? then Some((row.jkt, row.idempotencyKey.value)) else None
  }

  predicate KeyTaken(rows: map<PaymentId, Row>, id: PaymentId, row: Row) {
    RowKey(row).Some? && exists other :: other in rows && other != id && RowKey(rows[other]) == RowKey(row)
  }

  class LibsqlPreparedTxStore {
    var rows: map<PaymentId, Row>

    constructor ()
      ensures rows == map[]
    {
      rows := map[];
    }

    /** An upsert on the primary key; the partial unique index rejects a key held elsewhere.
        On rows the cache also accepts, both stores go on holding the same table. */
    method Insert(base64: seq<u8> -> string, entry: PreparedTx, ghost t: PreparedTable) returns (result: Result<(), StoreError>)
      requires Represents(base64, rows, t)
      modifies this
      ensures result.Err? ==> rows == old(rows)
      ensures result.Ok? <==>
                && entry.amountZat <= I64_MAX && entry.expiresAt <= I64_MAX
                && (forall other, key :: KeyOf(entry) == Some(key) && Holds(t, other, key) ==>
                      other == entry.preparation.paymentId)
      ensures result.Ok? && Derivable(base64, entry) ==>
                Represents(base64, rows, t[entry.preparation.paymentId := entry])
    {
      var encoded := EntryToRow(entry);
      if encoded.Err? {
        return Err(encoded.error);
      }
      var id, row := entry.preparation.paymentId, encoded.value;
      KeyTakenIff(base64, rows, t, id, entry);
      if KeyTaken(rows, id, row) {
        return Err(IntegrityViolation("prepared_tx_idempotency_idx"));
      }
      rows := rows[id := row];
      RowRoundTripIff(base64, entry);
      result := Ok(());
    }

    method FindByPaymentId(base64: seq<u8> -> string, id: PaymentId, ghost t: PreparedTable)
      returns (result: Result<Option<PreparedTx>, StoreError>)
      ensures Represents(base64, rows, t) ==> result == Ok(if id in t then Some(t[id]) else None)
    {
      if id !in rows {
        return Ok(None);
      }
      var entry := RowToEntry(base64, id, rows[id]);
      result := if entry.Ok? then Ok(Some(entry.value)) else Err(entry.error);
    }

    /** Agrees with the cache's index lookup on every key. */
    method FindByIdempotency(base64: seq<u8> -> string, jkt: string, key: string, ghost t: PreparedTable)
      returns (result: Result<Option<PreparedTx>, StoreError>)
      ensures Represents(base64, rows, t) && UniqueKeys(t) ==> result == Ok(FindKeyed(t, (jkt, key)))
    {
      if Represents(base64, rows, t) {
        RepresentsKeys(base64, rows, t);
      }
      if exists id :: id in rows && RowKey(rows[id]) == Some((jkt, key)) {
        var id :| id in rows && RowKey(rows[id]) == Some((jkt, key));
        assert Represents(base64, rows, t) ==> Holds(t, id, (jkt, key));
        var entry := RowToEntry(base64, id, rows[id]);
        result := if entry.Ok? then Ok(Some(entry.value)) else Err(entry.error);
      } else {
        result := Ok(None);
      }
    }

    method Remove(base64: seq<u8> -> string, id: PaymentId, ghost t: PreparedTable)
      returns (result: Result<Option<PreparedTx>, StoreError>)
      requires Represents(base64, rows, t)
      modifies this
      ensures result == Ok(if id in t then Some(t[id]) else None)
      ensures Represents(base64, rows, t - {id})
    {
      result := FindByPaymentId(base64, id, t);
      if result.Ok? && result.value.Some? {
        rows := rows - {id};
      }
    }

    method SweepExpired(base64: seq<u8> -> string, now: u64, ghost t: PreparedTable) returns (result: Result<int, StoreError>)
      requires Represents(base64, rows, t)
      modifies this
      ensures result.Ok? <==> now <= I64_MAX
      ensures Represents(base64, rows, if result.Ok? then Swept(t, now) else t)
      ensures result.Ok? ==> result.value == |t| - |Swept(t, now)|
    {
      if now > I64_MAX {
        return Err(IntegrityViolation("now_unix_seconds exceeds i64"));
      }
      SweepRepresents(base64, rows, t, now);
      var before := |rows|;
      rows := SweptRows(rows, now);
      result := Ok(before - |rows|);
    }
  }

  /** `DELETE … WHERE expires_at_unix_seconds <= ?`. */
  function SweptRows(rows: map<PaymentId, Row>, now: i64): map<PaymentId, Row> {
    map id | id in rows && !(rows[id].expiresAt <= now) :: rows[id]
  }

  lemma SweepRepresents(base64: seq<u8> -> string, rows: map<PaymentId, Row>, t: PreparedTable, now: i64)
    requires Represents(base64, rows, t) && now >= 0
    ensures Represents(base64, SweptRows(rows, now), Swept(t, now))
    ensures |rows| == |t| && |SweptRows(rows, now)| == |Swept(t, now)|
  {
    SameSize(rows, t);
    SameSize(SweptRows(rows, now), Swept(t, now));
  }

  lemma SameSize<A, B>(a: map<PaymentId, A>, b: map<PaymentId, B>)
    requires a.Keys == b.Keys
    ensures |a| == |b|
  {
    assert |a| == |a.Keys| && |b| == |b.Keys|;
  }

  lemma RepresentsKeys(base64: seq<u8> -> string, rows: map<PaymentId, Row>, t: PreparedTable)
    requires Represents(base64, rows, t)
    ensures forall id :: id in rows ==> RowKey(rows[id]) == KeyOf(t[id])
  {
    forall id | id in rows ensures RowKey(rows[id]) == KeyOf(t[id]) {
      assert RowToEntry(base64, id, rows[id]) == Ok(t[id]);
    }
  }

  /** The unique index and the cache's notion of a free key agree. */
  lemma KeyTakenIff(base64: seq<u8> -> string, rows: map<PaymentId, Row>, t: PreparedTable, id: PaymentId, e: PreparedTx)
    requires Represents(base64, rows, t) && EntryToRow(e).Ok?
    ensures KeyTaken(rows, id, EntryToRow(e).value) <==>
              !(forall other, key :: KeyOf(e) == Some(key) && Holds(t, other, key) ==> other == id)
  {
    RepresentsKeys(base64, rows, t);
    var row := EntryToRow(e).value;
    if KeyTaken(rows, id, row) {
      var other :| other in rows && other != id && RowKey(rows[other]) == RowKey(row);
      assert Holds(t, other, KeyOf(e).value);
    }
  }

  // ---- Whole runs of the two stores ----

  datatype Op = Insert(entry: PreparedTx) | Remove(id: PaymentId) | Sweep(now: u64)

  /** Both stores under one operation: the table, its index, and the SQL rows. */
  datatype Stores = Stores(table: PreparedTable, index: Index, rows: map<PaymentId, Row>)

  ghost function Apply(s: Stores, op: Op): Stores {
    match op
    case Insert(e) =>
      var id := e.preparation.paymentId;
      var rows := if EntryToRow(e).Ok? && !KeyTaken(s.rows, id, EntryToRow(e).value)
                  then s.rows[id := EntryToRow(e).value] else s.rows;
      Stores(s.table[id := e], IndexAfterInsert(s.index, e), rows)
    case Remove(id) =>
      var index := if id in s.table && KeyOf(s.table[id]).Some? then s.index - {KeyOf(s.table[id]).value} else s.index;
      Stores(s.table - {id}, index, s.rows - {id})
    case Sweep(now) =>
      var table := Swept(s.table, now);
      Stores(table, map key | key in s.index && s.index[key] in table :: s.index[key],
             if now <= I64_MAX then SweptRows(s.rows, now) else s.rows)
  }

  ghost function Run(ops: seq<Op>): Stores {
    if ops == [] then Stores(map[], map[], map[]) else Apply(Run(ops[..|ops| - 1]), ops[|ops| - 1])
  }

  /** What `propose` guarantees of its inserts, and a clock that fits the SQL column. */
  ghost predicate Proper(base64: seq<u8> -> string, ops: seq<Op>) {
    ops != [] ==>
      var op := ops[|ops| - 1];
      && Proper(base64, ops[..|ops| - 1])
      && (op.Insert? ==> KeyFree(Run(ops[..|ops| - 1]).table, op.entry) && Derivable(base64, op.entry)
                         && op.entry.amountZat <= I64_MAX && op.entry.expiresAt <= I64_MAX)
      && (op.Sweep? ==> op.now <= I64_MAX)
  }

  /** Over every run the index stays exact and the SQL rows read back as the cached table. */
  lemma {:induction false} StoresAgree(base64: seq<u8> -> string, ops: seq<Op>)
    requires Proper(base64, ops)
    ensures Coherent(Run(ops).table, Run(ops).index)
    ensures Represents(base64, Run(ops).rows, Run(ops).table)
  {
    if ops != [] {
      var s, op := Run(ops[..|ops| - 1]), ops[|ops| - 1];
      StoresAgree(base64, ops[..|ops| - 1]);
      match op {
        case Insert(e) =>
          InsertCoherentIff(s.table, s.index, e);
          KeyTakenIff(base64, s.rows, s.table, e.preparation.paymentId, e);
          RowRoundTripIff(base64, e);
        case Remove(id) =>
          if id in s.table {
            RemoveCoherent(s.table, s.index, id);
          } else {
            assert s.table - {id} == s.table;
          }
        case Sweep(now) =>
          SweepCoherent(s.table, s.index, now);
          SweepRepresents(base64, s.rows, s.table, now);
      }
    }
  }
}
