/** The two settle paths. Each one gates the request against the prepared row, broadcasts,
    records the outcome on the ledger and, on success, removes the prepared row. */
module Settle {
  import opened Types
  import opened Binding
  import opened SettlementLedgers
  import opened Prepare
  import Pczt

  datatype SettleError =
    | RawTxHexInvalid
    | PreparationNotFound
    | DpopMismatch
    | ObsoleteMemoVersion(observed: u8)
    | TransactionMalformed(reason: string)
    | ExpiryHeightMismatch(prepared: u32, signed: u32)
    | ChainUnavailable(reason: string)

  predicate IsHexDigit(c: char) {
    '0' <= c <= '9' || 'a' <= c <= 'f' || 'A' <= c <= 'F'
  }

  predicate ValidRawTxHex(hex: string) {
    hex != "" && |hex| % 2 == 0 && forall c :: c in hex ==> IsHexDigit(c)
  }

  /** A lifecycle settle request with the transaction parser's reading of its expiry height. */
  datatype SettleRequest = SettleRequest(
    id: PaymentId, rawTxHex: string, jkt: string, signedExpiry: Result<u32, string>)

  /** Every gate before the broadcast, in order. */
  function SettleGate(prepared: PreparedTable, request: SettleRequest): Result<PreparedTx, SettleError> {
    if !ValidRawTxHex(request.rawTxHex) then Err(RawTxHexInvalid)
    else if request.id !in prepared then Err(PreparationNotFound)
    else
      var p := prepared[request.id];
      if p.jkt != request.jkt then Err(DpopMismatch)
      else if |p.preparation.memo| > 1 && p.preparation.memo[1] != PROTOCOL_MEMO_VERSION
      then Err(ObsoleteMemoVersion(p.preparation.memo[1]))
      else if request.signedExpiry.Err? then Err(TransactionMalformed(request.signedExpiry.error))
      else if request.signedExpiry.value != p.preparation.expiryHeight
      then Err(ExpiryHeightMismatch(p.preparation.expiryHeight, request.signedExpiry.value))
      else Ok(p)
  }

  /** An x402 settle request: what it names, and the PCZT as the parser, the address library
      and the extractor read it. */
  datatype X402Request = X402Request(
    id: Option<PaymentId>, network: Network, amountZat: u64, payTo: Pczt.PayTo,
    parsed: Result<Pczt.Pczt, string>, extracted: Result<(seq<u8>, TxId), string>)

  /** The expiry height of a PCZT that pays exactly what the request asks. */
  function VerifiedExpiry(request: X402Request): Option<u32> {
    if && request.parsed.Ok? && request.extracted.Ok?
       && Pczt.PaysExactly(request.parsed.value, request.payTo, request.amountZat)
    then Some(request.parsed.value.expiryHeight) else None
  }

  /** The gate that refused an x402 settlement. */
  datatype X402Gate = NotPrepared | RequirementsMismatch | Unverified | ExpiryMismatch

  datatype X402Error = AtGate(gate: X402Gate) | PcztRefused(error: Pczt.PcztError) | Unavailable(reason: string)

  /** The prepared row an x402 settlement is recorded against, if it names one. */
  function X402Admits(prepared: PreparedTable, request: X402Request): Result<Option<PreparedTx>, X402Gate> {
    if request.id.None? then
      if VerifiedExpiry(request).None? then Err(Unverified) else Ok(None)
    else if request.id.value !in prepared then Err(NotPrepared)
    else
      var p := prepared[request.id.value];
      if !(p.network == request.network && p.amountZat == request.amountZat && p.recipient == request.payTo.text)
      then Err(RequirementsMismatch)
      else if VerifiedExpiry(request).None? then Err(Unverified)
      else if VerifiedExpiry(request).value != p.preparation.expiryHeight then Err(ExpiryMismatch)
      else Ok(Some(p))
  }

  /** The ledger row a settle attempt writes: attribution is copied from the prepared row. */
  function NewRow(p: PreparedTx, outcome: BroadcastOutcome, now: i64): LedgerEntry {
    LedgerEntry(outcome, now, None, None, 0, None, Some(p.preparation.expiryHeight), p.payee, p.amountZat)
  }

  /** What a settle attempt records: the payment, its prepared row and the outcome. */
  datatype Recording = Recording(id: PaymentId, prepared: PreparedTx, outcome: BroadcastOutcome)

  function SettleRecording(prepared: PreparedTable, request: SettleRequest, submit: Result<BroadcastOutcome, string>)
    : Option<Recording>
  {
    var gate := SettleGate(prepared, request);
    if gate.Ok? && submit.Ok? then Some(Recording(request.id, gate.value, submit.value)) else None
  }

  function X402Recording(prepared: PreparedTable, request: X402Request, submit: Result<BroadcastOutcome, string>)
    : Option<Recording>
  {
    var gate := X402Admits(prepared, request);
    if gate.Ok? && gate.value.Some? && submit.Ok? && request.id.Some?
    then Some(Recording(request.id.value, gate.value.value, submit.value)) else None
  }

  function LedgerAfter(ledger: Ledger, r: Option<Recording>, now: i64): Ledger {
    if r.None? then ledger else ledger[r.value.id := NewRow(r.value.prepared, r.value.outcome, now)]
  }

  /** `removed` is false when the store fails to delete after the record succeeded. */
  function PreparedAfter(prepared: PreparedTable, r: Option<Recording>, removed: bool): PreparedTable {
    if r.Some? && r.value.outcome.IsSuccess() && removed then prepared - {r.value.id} else prepared
  }

  // ---- When an attempt is recorded, and as what ----

  /** A non-empty even number of hexadecimal digits. */
  predicate HexBytes(hex: string) {
    |hex| >= 2 && |hex| % 2 == 0 && forall i :: 0 <= i < |hex| ==> hex[i] in "0123456789abcdefABCDEF"
  }

  /** The memo is too short to carry a version, or carries the current one. */
  predicate CurrentMemo(memo: seq<u8>) {
    |memo| < 2 || memo[1] == 0x02
  }

  lemma HexDigits(c: char)
    ensures IsHexDigit(c) <==> c in "0123456789abcdefABCDEF"
  {
  }

  lemma HexIff(hex: string)
    ensures ValidRawTxHex(hex) <==> HexBytes(hex)
  {
    forall i | 0 <= i < |hex| ensures IsHexDigit(hex[i]) <==> hex[i] in "0123456789abcdefABCDEF" {
      HexDigits(hex[i]);
    }
    forall c | c in hex ensures exists i :: 0 <= i < |hex| && hex[i] == c {
    }
  }

  /** A lifecycle settle is recorded if and only if the transaction is hexadecimal, the payment
      is prepared, the agent is the one that prepared it, the memo is current, the signed
      transaction parses and carries the prepared expiry height, and the broadcast answers. */
  lemma SettleRecordedIff(prepared: PreparedTable, request: SettleRequest, submit: Result<BroadcastOutcome, string>)
    ensures var r := SettleRecording(prepared, request, submit);
            && (r.Some? <==>
                && HexBytes(request.rawTxHex) && request.id in prepared
                && prepared[request.id].jkt == request.jkt && CurrentMemo(prepared[request.id].preparation.memo)
                && request.signedExpiry == Ok(prepared[request.id].preparation.expiryHeight) && submit.Ok?)
            && (r.Some? ==> r.value == Recording(request.id, prepared[request.id], submit.value))
  {
    HexIff(request.rawTxHex);
  }

  /** The refusal before the broadcast is that of the first condition that fails. */
  lemma SettleRefusalOrder(prepared: PreparedTable, request: SettleRequest)
    ensures var g := SettleGate(prepared, request);
            var found := HexBytes(request.rawTxHex) && request.id in prepared;
            var owned := found && prepared[request.id].jkt == request.jkt;
            var current := owned && CurrentMemo(prepared[request.id].preparation.memo);
            && (g == Err(RawTxHexInvalid) <==> !HexBytes(request.rawTxHex))
            && (g == Err(PreparationNotFound) <==> HexBytes(request.rawTxHex) && request.id !in prepared)
            && (g == Err(DpopMismatch) <==> found && !owned)
            && (owned && !current ==> g == Err(ObsoleteMemoVersion(prepared[request.id].preparation.memo[1])))
            && (current && request.signedExpiry.Err? ==> g == Err(TransactionMalformed(request.signedExpiry.error)))
            && (current && request.signedExpiry.Ok? && request.signedExpiry.value != prepared[request.id].preparation.expiryHeight ==>
                  g == Err(ExpiryHeightMismatch(prepared[request.id].preparation.expiryHeight, request.signedExpiry.value)))
  {
    HexIff(request.rawTxHex);
  }

  /** An x402 settle that names a payment is recorded if and only if the payment is prepared for
      its network, amount and recipient, its PCZT pays exactly that and extracts, with the
      prepared expiry height, and the broadcast answers. */
  lemma X402RecordedIff(prepared: PreparedTable, request: X402Request, submit: Result<BroadcastOutcome, string>)
    ensures var r := X402Recording(prepared, request, submit);
            && (r.Some? <==>
                && request.id.Some? && request.id.value in prepared && submit.Ok?
                && var p := prepared[request.id.value];
                   && p.network == request.network && p.amountZat == request.amountZat && p.recipient == request.payTo.text
                   && request.parsed.Ok? && request.extracted.Ok?
                   && Pczt.PaysExactly(request.parsed.value, request.payTo, p.amountZat)
                   && request.parsed.value.expiryHeight == p.preparation.expiryHeight)
            && (r.Some? ==> r.value == Recording(request.id.value, prepared[request.id.value], submit.value))
  {
  }

  /** The gate that refuses an x402 settle is the first that fails. */
  lemma X402RefusalOrder(prepared: PreparedTable, request: X402Request)
    ensures var g := X402Admits(prepared, request);
            var found := request.id.Some? && request.id.value in prepared;
            var matching := found && prepared[request.id.value].network == request.network
                            && prepared[request.id.value].amountZat == request.amountZat
                            && prepared[request.id.value].recipient == request.payTo.text;
            var paid := request.parsed.Ok? && request.extracted.Ok?
                        && Pczt.PaysExactly(request.parsed.value, request.payTo, request.amountZat);
            && (g == Err(NotPrepared) <==> request.id.Some? && !found)
            && (g == Err(RequirementsMismatch) <==> found && !matching)
            && (g == Err(Unverified) <==> (request.id.None? || matching) && !paid)
            && (g == Err(ExpiryMismatch) <==>
                  matching && paid && request.parsed.value.expiryHeight != prepared[request.id.value].preparation.expiryHeight)
            && (request.id.None? && paid ==> g == Ok(None))
  {
  }

  /** The recorded row: the outcome at the second of the attempt, the terms of the prepared row,
      nothing seen on the chain yet. The prepared row goes exactly with a success. */
  lemma RecordingWrites(ledger: Ledger, prepared: PreparedTable, r: Recording, now: i64)
    requires r.id in prepared
    ensures var e := LedgerAfter(ledger, Some(r), now)[r.id];
            && e.outcome == r.outcome && e.settledAt == now
            && e.confirmations == None && e.minedHeight == None && e.reorgCount == 0 && e.lastReorgedAt == None
            && e.payee == r.prepared.payee && e.amountZat == r.prepared.amountZat
            && e.expiryHeight == Some(r.prepared.preparation.expiryHeight)
    ensures forall other :: other in ledger && other != r.id ==> LedgerAfter(ledger, Some(r), now)[other] == ledger[other]
    ensures r.id in PreparedAfter(prepared, Some(r), true) <==> !(r.outcome.Accepted? || r.outcome.Duplicate?)
    ensures forall other :: other in prepared && other != r.id ==>
              other in PreparedAfter(prepared, Some(r), true) && PreparedAfter(prepared, Some(r), true)[other] == prepared[other]
  {
  }

  method SubmitSettlement(
    cache: PreparedTxCache, ledger: SettlementLedger, request: SettleRequest,
    submit: Result<BroadcastOutcome, string>, now: i64)
    returns (result: Result<BroadcastOutcome, SettleError>)
    requires cache.Valid()
    modifies cache, ledger
    ensures cache.Valid()
    ensures var r := SettleRecording(old(cache.byPaymentId), request, submit);
            && ledger.entries == LedgerAfter(old(ledger.entries), r, now)
            && cache.byPaymentId == PreparedAfter(old(cache.byPaymentId), r, true)
            && (result.Ok? <==> r.Some?) && (result.Ok? ==> result.value == r.value.outcome)
    ensures result.Err? ==>
              var gate := SettleGate(old(cache.byPaymentId), request);
              if gate.Err? then result.error == gate.error
              else submit.Err? && result.error == ChainUnavailable(submit.error)
  {
    if !ValidRawTxHex(request.rawTxHex) {
      return Err(RawTxHexInvalid);
    }
    var found := cache.FindByPaymentId(request.id);
    if found.None? {
      return Err(PreparationNotFound);
    }
    var p := found.value;
    if p.jkt != request.jkt {
      return Err(DpopMismatch);
    }
    if |p.preparation.memo| > 1 && p.preparation.memo[1] != PROTOCOL_MEMO_VERSION {
      return Err(ObsoleteMemoVersion(p.preparation.memo[1]));
    }
    if request.signedExpiry.Err? {
      return Err(TransactionMalformed(request.signedExpiry.error));
    }
    if request.signedExpiry.value != p.preparation.expiryHeight {
      return Err(ExpiryHeightMismatch(p.preparation.expiryHeight, request.signedExpiry.value));
    }
    if submit.Err? {
      return Err(ChainUnavailable(submit.error));
    }
    ledger.Record(request.id, NewRow(p, submit.value, now));
    if submit.value.IsSuccess() {
      var _ := cache.Remove(request.id);
    }
    result := Ok(submit.value);
  }

  /** The lifecycle half of the x402 settle handler: look up, check, record, remove. */
  method SettleX402(
    cache: PreparedTxCache, ledger: SettlementLedger, request: X402Request,
    submit: Result<BroadcastOutcome, string>, now: i64)
    returns (result: Result<BroadcastOutcome, X402Error>)
    requires cache.Valid()
    modifies cache, ledger
    ensures cache.Valid()
    ensures var r := X402Recording(old(cache.byPaymentId), request, submit);
            && ledger.entries == LedgerAfter(old(ledger.entries), r, now)
            && cache.byPaymentId == PreparedAfter(old(cache.byPaymentId), r, true)
    ensures result.Ok? <==> X402Admits(old(cache.byPaymentId), request).Ok? && submit.Ok?
    ensures result.Ok? ==> result.value == submit.value
    ensures var admits := X402Admits(old(cache.byPaymentId), request);
            && (admits == Err(Unverified) <==> result.Err? && result.error.PcztRefused?)
            && (admits.Err? && admits.error != Unverified ==> result == Err(AtGate(admits.error)))
            && (admits.Ok? && submit.Err? ==> result == Err(Unavailable(submit.error)))
  {
    var prepared: Option<PreparedTx> := None;
    if request.id.Some? {
      prepared := cache.FindByPaymentId(request.id.value);
      if prepared.None? {
        return Err(AtGate(NotPrepared));
      }
      var p := prepared.value;
      if !(p.network == request.network && p.amountZat == request.amountZat && p.recipient == request.payTo.text) {
        return Err(AtGate(RequirementsMismatch));
      }
    }
    var verified := Pczt.VerifyPcztSettlement(request.parsed, request.payTo, request.amountZat, request.extracted);
    if verified.Err? {
      return Err(PcztRefused(verified.error));
    }
    if prepared.Some? && verified.value.expiryHeight != prepared.value.preparation.expiryHeight {
      return Err(AtGate(ExpiryMismatch));
    }
    if submit.Err? {
      return Err(Unavailable(submit.error));
    }
    if prepared.Some? {
      ledger.Record(request.id.value, NewRow(prepared.value, submit.value, now));
      if submit.value.IsSuccess() {
        var _ := cache.Remove(request.id.value);
      }
    }
    result := Ok(submit.value);
  }
}
