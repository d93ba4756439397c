/** Exact-amount verification of a PCZT. Parsing, address decoding and extraction are inputs.
    Main result: the matcher succeeds if and only if every labelled shielded output pays the
    requested address with a visible amount, no transparent output is labelled, and the
    mathematical sum fits `u64`; the settlement verifies only when that sum is the price. */
module Pczt {
  import opened Types

  datatype Pool = Sapling | Orchard | Ironwood

  datatype Output = Output(userAddress: Option<string>, recipient: Option<seq<u8>>, value: Option<u64>)

  datatype Pczt = Pczt(
    sapling: seq<Output>, orchard: seq<Output>, ironwood: seq<Output>, transparent: seq<Output>, expiryHeight: u32)

  /** The requested address as the address library sees it. */
  datatype PayTo = PayTo(
    text: string,
    decodes: bool,
    validReceiver: (Pool, seq<u8>) -> bool,
    corresponds: (Pool, seq<u8>) -> bool)

  datatype PcztError =
    | PcztMalformed(reason: string)
    | PayToMalformed
    | PaymentAddressMismatch
    | PaymentAmountMissing(pool: Pool)
    | PaymentAmountMismatch(required: u64, matched: u64)
    | PaymentAmountOverflow
    | PaymentNotVerifiable(reason: string)
    | PcztNotExtractable(reason: string)

  // ---- What a PCZT must look like ----

  /** Why a single output is refused, if it is; an unlabelled output never is. */
  function Refusal(o: Output, pool: Pool, payTo: PayTo): Option<PcztError> {
    if o.userAddress.None? then None
    else if o.userAddress.value != payTo.text then Some(PaymentAddressMismatch)
    else if o.recipient.None? then Some(PaymentNotVerifiable("output omitted recipient bytes"))
    else if o.value.None? then Some(PaymentAmountMissing(pool))
    else if !payTo.validReceiver(pool, o.recipient.value)
    then Some(PaymentNotVerifiable("output recipient bytes are invalid"))
    else if !payTo.corresponds(pool, o.recipient.value) then Some(PaymentAddressMismatch)
    else None
  }

  /** Labelled with the requested address, to a receiver of it, with a visible amount. */
  predicate Pays(o: Output, pool: Pool, payTo: PayTo) {
    && o.userAddress == Some(payTo.text) && o.recipient.Some? && o.value.Some?
    && payTo.validReceiver(pool, o.recipient.value) && payTo.corresponds(pool, o.recipient.value)
  }

  predicate PoolPays(outputs: seq<Output>, pool: Pool, payTo: PayTo) {
    forall o :: o in outputs && o.userAddress.Some? ==> Pays(o, pool, payTo)
  }

  /** The mathematical sum of the labelled amounts. */
  function Total(outputs: seq<Output>): nat {
    if outputs == [] then 0 else
    var last := outputs[|outputs| - 1];
    Total(outputs[..|outputs| - 1]) + if last.userAddress.Some? && last.value.Some? then last.value.value else 0
  }

  predicate Payable(p: Pczt, payTo: PayTo) {
    && payTo.decodes
    && PoolPays(p.sapling, Sapling, payTo) && PoolPays(p.orchard, Orchard, payTo) && PoolPays(p.ironwood, Ironwood, payTo)
    && (forall o :: o in p.transparent ==> o.userAddress.None?)
  }

  function GrandTotal(p: Pczt): nat {
    Total(p.sapling) + Total(p.orchard) + Total(p.ironwood)
  }

  /** Every labelled output pays the address, and together they pay exactly the price. */
  predicate PaysExactly(p: Pczt, payTo: PayTo, amountZat: u64) {
    Payable(p, payTo) && GrandTotal(p) == amountZat
  }

  /** An output that pays: ours by label, by receiver and with an amount in sight. */
  lemma PaysMeans(o: Output, pool: Pool, payTo: PayTo)
    ensures Pays(o, pool, payTo) <==>
              && o.userAddress == Some(payTo.text) && o.recipient.Some? && o.value.Some?
              && payTo.validReceiver(pool, o.recipient.value) && payTo.corresponds(pool, o.recipient.value)
  {
  }

  /** What an exactly paying PCZT looks like, output by output. */
  lemma PaysExactlyMeans(p: Pczt, payTo: PayTo, amountZat: u64)
    ensures PaysExactly(p, payTo, amountZat) <==>
              && payTo.decodes
              && (forall i :: 0 <= i < |p.sapling| && p.sapling[i].userAddress.Some? ==> Pays(p.sapling[i], Sapling, payTo))
              && (forall i :: 0 <= i < |p.orchard| && p.orchard[i].userAddress.Some? ==> Pays(p.orchard[i], Orchard, payTo))
              && (forall i :: 0 <= i < |p.ironwood| && p.ironwood[i].userAddress.Some? ==> Pays(p.ironwood[i], Ironwood, payTo))
              && (forall i :: 0 <= i < |p.transparent| ==> p.transparent[i].userAddress.None?)
              && Total(p.sapling) + Total(p.orchard) + Total(p.ironwood) == amountZat
  {
    hide Pays, Total;
    PoolPaysByIndex(p.sapling, Sapling, payTo);
    PoolPaysByIndex(p.orchard, Orchard, payTo);
    PoolPaysByIndex(p.ironwood, Ironwood, payTo);
    forall o | o in p.transparent ensures exists i :: 0 <= i < |p.transparent| && p.transparent[i] == o {
    }
  }

  lemma PoolPaysByIndex(outputs: seq<Output>, pool: Pool, payTo: PayTo)
    ensures PoolPays(outputs, pool, payTo) <==>
              forall i :: 0 <= i < |outputs| && outputs[i].userAddress.Some? ==> Pays(outputs[i], pool, payTo)
  {
    hide Pays;
    forall o | o in outputs ensures exists i :: 0 <= i < |outputs| && outputs[i] == o {
    }
  }

  lemma {:induction false} TotalGrows(outputs: seq<Output>, i: nat)
    requires i <= |outputs|
    ensures Total(outputs[..i]) <= Total(outputs)
    decreases |outputs|
  {
    if i == |outputs| {
      assert outputs[..i] == outputs;
    } else {
      TotalGrows(outputs[..|outputs| - 1], i);
      assert outputs[..|outputs| - 1][..i] == outputs[..i];
    }
  }

  // ---- The matcher ----

  /** `checked_add`. */
  function AddMatchedAmount(current: u64, additional: u64): Result<u64, PcztError> {
    if current + additional <= U64_MAX then Ok(current + additional) else Err(PaymentAmountOverflow)
  }

  /** The error comes from the first output that is refused or overflows the running sum. */
  ghost predicate FirstFailure(outputs: seq<Output>, pool: Pool, payTo: PayTo, start: u64, error: PcztError) {
    exists i :: 0 <= i < |outputs| && FailsAt(outputs, pool, payTo, start, error, i)
  }

  ghost predicate FailsAt(outputs: seq<Output>, pool: Pool, payTo: PayTo, start: u64, error: PcztError, i: nat)
    requires i < |outputs|
  {
    && PoolPays(outputs[..i], pool, payTo) && start + Total(outputs[..i]) <= U64_MAX
    && (if Refusal(outputs[i], pool, payTo).Some? then Refusal(outputs[i], pool, payTo) == Some(error)
        else start + Total(outputs[..i + 1]) > U64_MAX && error == PaymentAmountOverflow)
  }

  function Amount(o: Output): nat {
    if o.userAddress.Some? && o.value.Some? then o.value.value else 0
  }

  /** One output against the running sum. */
  method MatchOutput(o: Output, pool: Pool, payTo: PayTo, matched: u64) returns (r: Result<u64, PcztError>)
    ensures r.Ok? <==> (o.userAddress.Some? ==> Pays(o, pool, payTo)) && matched + Amount(o) <= U64_MAX
    ensures r.Ok? ==> r.value == matched + Amount(o)
    ensures r.Err? && Refusal(o, pool, payTo).Some? ==> r.error == Refusal(o, pool, payTo).value
    ensures r.Err? && Refusal(o, pool, payTo).None? ==> r.error == PaymentAmountOverflow
  {
    if o.userAddress.None? {
      return Ok(matched);
    }
    if o.userAddress.value != payTo.text {
      return Err(PaymentAddressMismatch);
    }
    if o.recipient.None? {
      return Err(PaymentNotVerifiable("output omitted recipient bytes"));
    }
    if o.value.None? {
      return Err(PaymentAmountMissing(pool));
    }
    if !payTo.validReceiver(pool, o.recipient.value) {
      return Err(PaymentNotVerifiable("output recipient bytes are invalid"));
    }
    if !payTo.corresponds(pool, o.recipient.value) {
      return Err(PaymentAddressMismatch);
    }
    r := AddMatchedAmount(matched, o.value.value);
  }

  lemma PrefixExtends(outputs: seq<Output>, i: nat, pool: Pool, payTo: PayTo)
    requires i < |outputs|
    ensures Total(outputs[..i + 1]) == Total(outputs[..i]) + Amount(outputs[i])
    ensures PoolPays(outputs[..i + 1], pool, payTo) <==>
              PoolPays(outputs[..i], pool, payTo) && (outputs[i].userAddress.Some? ==> Pays(outputs[i], pool, payTo))
  {
    assert outputs[..i + 1] == outputs[..i] + [outputs[i]];
    assert outputs[..i + 1][..i] == outputs[..i];
  }

  /** A prefix that does not pay, or overflows, condemns the whole pool. */
  lemma PrefixDecides(outputs: seq<Output>, i: nat, pool: Pool, payTo: PayTo, start: u64)
    requires i <= |outputs|
    requires !PoolPays(outputs[..i], pool, payTo) || start + Total(outputs[..i]) > U64_MAX
    ensures !(PoolPays(outputs, pool, payTo) && start + Total(outputs) <= U64_MAX)
  {
    TotalGrows(outputs, i);
  }

  method MatchPool(outputs: seq<Output>, pool: Pool, payTo: PayTo, start: u64) returns (r: Result<u64, PcztError>)
    ensures r.Ok? <==> PoolPays(outputs, pool, payTo) && start + Total(outputs) <= U64_MAX
    ensures r.Ok? ==> r.value == start + Total(outputs)
    ensures r.Err? ==> FirstFailure(outputs, pool, payTo, start, r.error)
  {
    hide PoolPays, Pays, Total, Refusal;
    assert Total([]) == 0 && PoolPays([], pool, payTo) by { EmptyPool(pool, payTo); }
    var matched := start;
    var i := 0;
    while i < |outputs|
      invariant 0 <= i <= |outputs|
      invariant PoolPays(outputs[..i], pool, payTo)
      invariant matched == start + Total(outputs[..i]) <= U64_MAX
    {
      PrefixExtends(outputs, i, pool, payTo);
      var step := MatchOutput(outputs[i], pool, payTo, matched);
      if step.Err? {
        PrefixDecides(outputs, i + 1, pool, payTo, start);
        RefusalIff(outputs[i], pool, payTo);
        assert FailsAt(outputs, pool, payTo, start, step.error, i);
        return step;
      }
      matched := step.value;
      i := i + 1;
    }
    assert outputs[..i] == outputs;
    r := Ok(matched);
  }

  lemma EmptyPool(pool: Pool, payTo: PayTo)
    ensures Total([]) == 0 && PoolPays([], pool, payTo)
  {
  }

  /** An output is refused exactly when it is labelled and does not pay. */
  lemma RefusalIff(o: Output, pool: Pool, payTo: PayTo)
    ensures Refusal(o, pool, payTo).Some? <==> o.userAddress.Some? && !Pays(o, pool, payTo)
  {
  }

  /** Where a refusal comes from: the address, then the pools in order, then the label on a
      transparent output. */
  ghost predicate RefusedFor(p: Pczt, payTo: PayTo, error: PcztError) {
    var sapling, orchard := Total(p.sapling), Total(p.sapling) + Total(p.orchard);
    if !payTo.decodes then error == PayToMalformed
    else if !(PoolPays(p.sapling, Sapling, payTo) && sapling <= U64_MAX)
    then FirstFailure(p.sapling, Sapling, payTo, 0, error)
    else if !(PoolPays(p.orchard, Orchard, payTo) && orchard <= U64_MAX)
    then FirstFailure(p.orchard, Orchard, payTo, sapling, error)
    else if !(PoolPays(p.ironwood, Ironwood, payTo) && GrandTotal(p) <= U64_MAX)
    then FirstFailure(p.ironwood, Ironwood, payTo, orchard, error)
    else error.PaymentNotVerifiable? && exists o :: o in p.transparent && o.userAddress.Some?
  }

  /** Which refusal a labelled output gets: a foreign label, then missing recipient bytes, a
      missing amount, bytes that are no receiver, a receiver of another address. */
  lemma RefusalMeaning(o: Output, pool: Pool, payTo: PayTo)
    ensures var r := Refusal(o, pool, payTo);
            var ours := o.userAddress == Some(payTo.text);
            var addressed := ours && o.recipient.Some?;
            var valued := addressed && o.value.Some?;
            && (r == Some(PaymentAddressMismatch) <==>
                  || (o.userAddress.Some? && o.userAddress.value != payTo.text)
                  || (valued && payTo.validReceiver(pool, o.recipient.value) && !payTo.corresponds(pool, o.recipient.value)))
            && (r == Some(PaymentNotVerifiable("output omitted recipient bytes")) <==> ours && o.recipient.None?)
            && (r == Some(PaymentAmountMissing(pool)) <==> addressed && o.value.None?)
            && (r == Some(PaymentNotVerifiable("output recipient bytes are invalid")) <==>
                  valued && !payTo.validReceiver(pool, o.recipient.value))
            && (r == None <==>
                  || o.userAddress.None?
                  || (valued && payTo.validReceiver(pool, o.recipient.value) && payTo.corresponds(pool, o.recipient.value)))
  {
  }

  method MatchedPcztAmount(p: Pczt, payTo: PayTo) returns (r: Result<u64, PcztError>)
    ensures r.Ok? <==> Payable(p, payTo) && GrandTotal(p) <= U64_MAX
    ensures r.Ok? ==> r.value == GrandTotal(p)
    ensures r.Err? ==> RefusedFor(p, payTo, r.error)
  {
    if !payTo.decodes {
      return Err(PayToMalformed);
    }
    r := MatchPool(p.sapling, Sapling, payTo, 0);
    if r.Err? {
      return;
    }
    r := MatchPool(p.orchard, Orchard, payTo, r.value);
    if r.Err? {
      return;
    }
    r := MatchPool(p.ironwood, Ironwood, payTo, r.value);
    if r.Err? {
      return;
    }
    var i := 0;
    while i < |p.transparent|
      invariant 0 <= i <= |p.transparent|
      invariant forall k :: 0 <= k < i ==> p.transparent[k].userAddress.None?
    {
      if p.transparent[i].userAddress.Some? {
        assert p.transparent[i] in p.transparent;
        return Err(PaymentNotVerifiable("transparent labelled outputs are not accepted"));
      }
      i := i + 1;
    }
  }

  datatype VerifiedSettlement = VerifiedSettlement(rawTx: seq<u8>, transactionId: TxId, expiryHeight: u32)

  /** Parse, match, compare with the price, extract: in that order. */
  method VerifyPcztSettlement(
    parsed: Result<Pczt, string>, payTo: PayTo, amountZat: u64, extracted: Result<(seq<u8>, TxId), string>)
    returns (r: Result<VerifiedSettlement, PcztError>)
    ensures r.Ok? <==> parsed.Ok? && PaysExactly(parsed.value, payTo, amountZat) && extracted.Ok?
    ensures r.Ok? ==> r.value == VerifiedSettlement(extracted.value.0, extracted.value.1, parsed.value.expiryHeight)
    ensures parsed.Ok? && Payable(parsed.value, payTo) && GrandTotal(parsed.value) <= U64_MAX
            && GrandTotal(parsed.value) != amountZat ==>
              r == Err(PaymentAmountMismatch(amountZat, GrandTotal(parsed.value)))
    ensures parsed.Err? ==> r == Err(PcztMalformed(parsed.error))
    ensures parsed.Ok? && !(Payable(parsed.value, payTo) && GrandTotal(parsed.value) <= U64_MAX) ==>
              r.Err? && RefusedFor(parsed.value, payTo, r.error)
    ensures parsed.Ok? && PaysExactly(parsed.value, payTo, amountZat) && extracted.Err? ==>
              r == Err(PcztNotExtractable(extracted.error))
  {
    if parsed.Err? {
      return Err(PcztMalformed(parsed.error));
    }
    var matched := MatchedPcztAmount(parsed.value, payTo);
    if matched.Err? {
      return Err(matched.error);
    }
    if matched.value != amountZat {
      return Err(PaymentAmountMismatch(amountZat, matched.value));
    }
    if extracted.Err? {
      return Err(PcztNotExtractable(extracted.error));
    }
    r := Ok(VerifiedSettlement(extracted.value.0, extracted.value.1, parsed.value.expiryHeight));
  }
}
