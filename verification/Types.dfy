/** Domain types shared by the payment lifecycle: machine integers, identifiers,
    broadcast outcomes, prepared rows and settlement-ledger rows. */
module Types {

  datatype Option<+T> = None | Some(value: T)

  datatype Result<+T, +E> = Ok(value: T) | Err(error: E)

  const U32_MAX: int := 0xFFFF_FFFF
  const U64_MAX: int := 0xFFFF_FFFF_FFFF_FFFF
  const I64_MAX: int := 0x7FFF_FFFF_FFFF_FFFF
  const I64_MIN: int := -0x8000_0000_0000_0000

  type u8 = x: int | 0 <= x < 256
  type u32 = x: int | 0 <= x <= U32_MAX
  type u64 = x: int | 0 <= x <= U64_MAX
  type i64 = x: int | I64_MIN <= x <= I64_MAX

  function Min(a: int, b: int): int {
    if a <= b then a else b
  }

  /** `u32::saturating_add`. */
  function SaturatingAdd32(a: u32, b: u32): u32 {
    Min(a + b, U32_MAX)
  }

  type PaymentId = string
  type PayeeId = string
  type TxId = string

  datatype Network = Mainnet | Testnet | Regtest

  datatype Scheme = Zcash

  /** Outcome of a broadcast attempt as persisted on the ledger. */
  datatype BroadcastOutcome =
    | Accepted(transactionId: TxId)
    | Duplicate(transactionId: TxId)
    | InvalidEncoding(upstreamMessage: string)
    | Rejected(upstreamMessage: string)
    | Unknown(upstreamMessage: string)
  {
    predicate IsSuccess() {
      Accepted? || Duplicate?
    }

    function TransactionId(): Option<TxId> {
      if IsSuccess() then Some(transactionId) else None
    }
  }

  datatype Preparation = Preparation(
    paymentId: PaymentId,
    paymentUri: string,
    memo: seq<u8>,
    expiryHeight: u32,
    amountZat: u64)

  /** A prepared payment awaiting settlement. */
  datatype PreparedTx = PreparedTx(
    preparation: Preparation,
    payee: PayeeId,
    network: Network,
    recipient: string,
    amountZat: u64,
    expiresAt: u64,
    idempotencyKey: Option<string>,
    jkt: string)

  /** Why a store refused a write or could not read a row. */
  datatype StoreError = IntegrityViolation(constraint: string) | RowMalformed(reason: string)

  type PreparedTable = map<PaymentId, PreparedTx>

  /** One settle attempt. */
  datatype LedgerEntry = LedgerEntry(
    outcome: BroadcastOutcome,
    settledAt: i64,
    confirmations: Option<u32>,
    minedHeight: Option<u64>,
    reorgCount: u32,
    lastReorgedAt: Option<i64>,
    expiryHeight: Option<u32>,
    payee: PayeeId,
    amountZat: u64)
  {
    predicate Mined() {
      minedHeight.Some?
    }
  }

  type Ledger = map<PaymentId, LedgerEntry>
}
