/** Preparing a payment: the registry-authoritative `propose` and the two-index cache.
    Main results: the idempotency index is exactly the inverse of the live keyed rows, so the
    cache behaves like one table; inserting keeps that if and only if the key is free. */
module Prepare {
  import opened Types
  import opened Binding
  import opened ZecAmount

  const DEFAULT_VALIDITY_SECONDS: u64 := 300
  const DEFAULT_EXPIRY_DELTA_BLOCKS: u32 := 40

  datatype AcceptsEntry = AcceptsEntry(
    scheme: Scheme,
    network: Network,
    payTo: string,
    amountZat: u64,
    maxValiditySeconds: u64,
    expiryDeltaBlocks: Option<u32>)

  datatype PrepareRequest = PrepareRequest(
    payee: PayeeId,
    network: Network,
    scheme: Scheme,
    resourceUri: string,
    nonce: string,
    evidence: Option<seq<u8>>,
    idempotencyKey: Option<string>)

  datatype PrepareError = PayeeUnknown | SchemeNetworkUnsupported | ExpiryHeightInvalid | TipOracle(reason: string)

  /** The operator's registry and the library functions `propose` calls. */
  datatype Env = Env(
    registry: map<PayeeId, seq<AcceptsEntry>>,
    utf8: string -> seq<u8>,
    hash: seq<u8> -> seq<u8>,
    base64: seq<u8> -> string,
    isBlank: string -> bool)

  type CompositeKey = (string, string)

  function KeyOf(e: PreparedTx): Option<CompositeKey> {
    if e.idempotencyKey.Some? then Some((e.jkt, e.idempotencyKey.value)) else None
  }

  // ---- The table the cache stands for ----

  ghost predicate Holds(t: PreparedTable, id: PaymentId, key: CompositeKey) {
    id in t && KeyOf(t[id]) == Some(key)
  }

  /** `SELECT … WHERE agent_dpop_jkt = ? AND idempotency_key = ?` on one table. */
  ghost function FindKeyed(t: PreparedTable, key: CompositeKey): Option<PreparedTx> {
    if exists id :: Holds(t, id, key) then
      var id :| Holds(t, id, key);
      Some(t[id])
    else None
  }

  /** The partial unique index: no two live rows share a composite key. */
  ghost predicate UniqueKeys(t: PreparedTable) {
    forall i, j, key :: Holds(t, i, key) && Holds(t, j, key) ==> i == j
  }

  function Swept(t: PreparedTable, now: u64): PreparedTable {
    map id | id in t && t[id].expiresAt > now :: t[id]
  }

  // ---- The two-index cache ----

  type Index = map<CompositeKey, PaymentId>

  /** `index` is exactly the inverse of the live keyed rows. */
  ghost predicate Coherent(t: PreparedTable, index: Index) {
    && (forall key :: key in index ==> Holds(t, index[key], key))
    && (forall id, key :: Holds(t, id, key) ==> key in index && index[key] == id)
  }

  lemma CoherentFinds(t: PreparedTable, index: Index, key: CompositeKey)
    requires Coherent(t, index)
    ensures UniqueKeys(t)
    ensures FindKeyed(t, key) == if key in index then Some(t[index[key]]) else None
  {
  }

  function IndexAfterInsert(index: Index, e: PreparedTx): Index {
    if KeyOf(e).Some? then index[KeyOf(e).value := e.preparation.paymentId] else index
  }

  /** The row's key is free for this id, and the id did not hold another key before. */
  ghost predicate KeyFree(t: PreparedTable, e: PreparedTx) {
    var id := e.preparation.paymentId;
    && (forall other, key :: KeyOf(e) == Some(key) && Holds(t, other, key) ==> other == id)
    && (id in t && KeyOf(t[id]).Some? ==> KeyOf(t[id]) == KeyOf(e))
  }

  /** `insert` keeps the index exact if and only if the key is free. */
  lemma InsertCoherentIff(t: PreparedTable, index: Index, e: PreparedTx)
    requires Coherent(t, index)
    ensures Coherent(t[e.preparation.paymentId := e], IndexAfterInsert(index, e)) <==> KeyFree(t, e)
  {
    var id := e.preparation.paymentId;
    var after, indexed := t[id := e], IndexAfterInsert(index, e);
    forall other, key ensures other != id ==> (Holds(after, other, key) <==> Holds(t, other, key)) {
    }
    if Coherent(after, indexed) {
      forall other, key | KeyOf(e) == Some(key) && Holds(t, other, key) ensures other == id {
        assert other != id ==> Holds(after, other, key);
      }
      if id in t && KeyOf(t[id]).Some? {
        var key := KeyOf(t[id]).value;
        assert Holds(t, id, key);
        assert key in indexed;
        assert Holds(after, indexed[key], key);
      }
    }
    if KeyFree(t, e) {
      forall key | key in indexed ensures Holds(after, indexed[key], key) {
        if KeyOf(e) == Some(key) {
        } else {
          assert Holds(t, index[key], key);
        }
      }
      forall other, key | Holds(after, other, key) ensures key in indexed && indexed[key] == other {
        if other != id {
          assert Holds(t, other, key);
        }
      }
    }
  }

  lemma RemoveCoherent(t: PreparedTable, index: Index, id: PaymentId)
    requires Coherent(t, index) && id in t
    ensures Coherent(t - {id}, if KeyOf(t[id]).Some? then index - {KeyOf(t[id]).value} else index)
  {
    forall other, key ensures Holds(t - {id}, other, key) <==> other != id && Holds(t, other, key) {
    }
    if KeyOf(t[id]).Some? {
      assert Holds(t, id, KeyOf(t[id]).value);
    }
  }

  lemma SweepCoherent(t: PreparedTable, index: Index, now: u64)
    requires Coherent(t, index)
    ensures Coherent(Swept(t, now), map key | key in index && index[key] in Swept(t, now) :: index[key])
  {
    forall id, key ensures Holds(Swept(t, now), id, key) <==> id in Swept(t, now) && Holds(t, id, key) {
    }
  }

  class PreparedTxCache {
    var byPaymentId: PreparedTable
    var byIdempotency: Index

    ghost predicate Valid()
      reads this
    {
      Coherent(byPaymentId, byIdempotency)
    }

    constructor ()
      ensures Valid() && byPaymentId == map[]
    {
      byPaymentId, byIdempotency := map[], map[];
    }

    method Insert(entry: PreparedTx)
      modifies this
      ensures byPaymentId == old(byPaymentId)[entry.preparation.paymentId := entry]
      ensures byIdempotency == IndexAfterInsert(old(byIdempotency), entry)
      ensures old(Valid()) ==> (Valid() <==> old(KeyFree(byPaymentId, entry)))
    {
      ghost var t, index := byPaymentId, byIdempotency;
      if entry.idempotencyKey.Some? {
        byIdempotency := byIdempotency[(entry.jkt, entry.idempotencyKey.value) := entry.preparation.paymentId];
      }
      byPaymentId := byPaymentId[entry.preparation.paymentId := entry];
      if Coherent(t, index) {
        InsertCoherentIff(t, index, entry);
      }
    }

    method FindByPaymentId(id: PaymentId) returns (found: Option<PreparedTx>)
      ensures found.Some? <==> id in byPaymentId
      ensures found.Some? ==> found.value == byPaymentId[id]
    {
      found := if id in byPaymentId then Some(byPaymentId[id]) else None;
    }

    method FindByIdempotency(jkt: string, key: string) returns (found: Option<PreparedTx>)
      requires Valid()
      ensures found == FindKeyed(byPaymentId, (jkt, key))
    {
      CoherentFinds(byPaymentId, byIdempotency, (jkt, key));
      if (jkt, key) !in byIdempotency {
        return None;
      }
      var id := byIdempotency[(jkt, key)];
      found := if id in byPaymentId then Some(byPaymentId[id]) else None;
    }

    method Remove(id: PaymentId) returns (removed: Option<PreparedTx>)
      requires Valid()
      modifies this
      ensures Valid() && byPaymentId == old(byPaymentId) - {id}
      ensures removed == if id in old(byPaymentId) then Some(old(byPaymentId)[id]) else None
    {
      if id !in byPaymentId {
        assert byPaymentId - {id} == byPaymentId;
        return None;
      }
      RemoveCoherent(byPaymentId, byIdempotency, id);
      var entry := byPaymentId[id];
      byPaymentId := byPaymentId - {id};
      if entry.idempotencyKey.Some? {
        byIdempotency := byIdempotency - {(entry.jkt, entry.idempotencyKey.value)};
      }
      removed := Some(entry);
    }

    method SweepExpired(now: u64) returns (dropped: int)
      requires Valid()
      modifies this
      ensures Valid() && byPaymentId == Swept(old(byPaymentId), now)
      ensures dropped == |old(byPaymentId)| - |byPaymentId|
    {
      SweepCoherent(byPaymentId, byIdempotency, now);
      var before := |byPaymentId|;
      byPaymentId := map id | id in byPaymentId && byPaymentId[id].expiresAt > now :: byPaymentId[id];
      byIdempotency := map key | key in byIdempotency && byIdempotency[key] in byPaymentId :: byIdempotency[key];
      dropped := before - |byPaymentId|;
    }

    /** Idempotent replay first, registry resolution second, insert last. */
    method Propose(
      env: Env, request: PrepareRequest, jkt: string, tip: Result<u32, string>, newId: PaymentId, now: u64)
      returns (result: Result<Preparation, PrepareError>)
      requires Valid() && newId !in byPaymentId
      modifies this
      ensures Valid()
      ensures (byPaymentId, result) == Proposed(env, old(byPaymentId), request, jkt, tip, newId, now)
    {
      if request.idempotencyKey.Some? && !env.isBlank(request.idempotencyKey.value) {
        var prior := FindByIdempotency(jkt, request.idempotencyKey.value);
        if prior.Some? {
          return Ok(prior.value.preparation);
        }
      }
      var drafted := Draft(env, request, jkt, tip, newId, now);
      if drafted.Err? {
        return Err(drafted.error);
      }
      Insert(drafted.value);
      result := Ok(drafted.value.preparation);
    }
  }

  // ---- propose ----

  /** A blank key counts as no key; any other key is used verbatim. */
  function EffectiveKey(env: Env, request: PrepareRequest): Option<string> {
    if request.idempotencyKey.Some? && !env.isBlank(request.idempotencyKey.value) then request.idempotencyKey else None
  }

  function FirstMatch(entries: seq<AcceptsEntry>, scheme: Scheme, network: Network): Option<AcceptsEntry> {
    if entries == [] then None
    else if entries[0].scheme == scheme && entries[0].network == network then Some(entries[0])
    else FirstMatch(entries[1..], scheme, network)
  }

  function Delta(e: AcceptsEntry): u32 {
    if e.expiryDeltaBlocks.Some? then e.expiryDeltaBlocks.value else DEFAULT_EXPIRY_DELTA_BLOCKS
  }

  function Validity(e: AcceptsEntry): u64 {
    if e.maxValiditySeconds > 0 then e.maxValiditySeconds else DEFAULT_VALIDITY_SECONDS
  }

  function ChallengeOf(env: Env, request: PrepareRequest): Challenge {
    Challenge(env.utf8(request.payee), request.scheme, request.network,
              env.utf8(request.resourceUri), env.utf8(request.nonce))
  }

  /** The row a first-time request produces, or the reason it cannot. */
  function Draft(
    env: Env, request: PrepareRequest, jkt: string, tip: Result<u32, string>, newId: PaymentId, now: u64)
    : Result<PreparedTx, PrepareError>
  {
    if request.payee !in env.registry then Err(PayeeUnknown) else
    var accepts := FirstMatch(env.registry[request.payee], request.scheme, request.network);
    if accepts.None? then Err(SchemeNetworkUnsupported) else
    if tip.Err? then Err(TipOracle(tip.error)) else
    var entry := accepts.value;
    var expiryHeight := SaturatingAdd32(tip.value, Delta(entry));
    if expiryHeight == 0 then Err(ExpiryHeightInvalid) else
    var memo := ComposeBindingMemo(env.hash, ChallengeOf(env, request), request.evidence);
    var uri := ComposePaymentUri(env.base64, entry.payTo, entry.amountZat, memo);
    Ok(PreparedTx(Preparation(newId, uri, memo, expiryHeight, entry.amountZat), request.payee, request.network,
                  entry.payTo, entry.amountZat, Min(now + Validity(entry), U64_MAX), EffectiveKey(env, request), jkt))
  }

  /** `FirstMatch` is the earliest entry for the pair, or nothing when there is none. */
  lemma {:induction false} FirstMatchIs(entries: seq<AcceptsEntry>, scheme: Scheme, network: Network)
    ensures var found := FirstMatch(entries, scheme, network);
            && (found.None? <==> forall e :: e in entries ==> !(e.scheme == scheme && e.network == network))
            && (found.Some? ==> exists k :: 0 <= k < |entries| && entries[k] == found.value
                                  && found.value.scheme == scheme && found.value.network == network
                                  && forall i :: 0 <= i < k ==> !(entries[i].scheme == scheme && entries[i].network == network))
    decreases |entries|
  {
    if entries != [] && !(entries[0].scheme == scheme && entries[0].network == network) {
      FirstMatchIs(entries[1..], scheme, network);
      var found := FirstMatch(entries, scheme, network);
      assert forall e :: e in entries <==> e == entries[0] || e in entries[1..];
      if found.Some? {
        var k :| 0 <= k < |entries[1..]| && entries[1..][k] == found.value
                 && forall i :: 0 <= i < k ==> !(entries[1..][i].scheme == scheme && entries[1..][i].network == network);
        forall i | 0 <= i < k + 1 ensures !(entries[i].scheme == scheme && entries[i].network == network) {
          assert i > 0 ==> entries[i] == entries[1..][i - 1];
        }
        assert entries[k + 1] == found.value;
      }
    }
  }

  /** The registry decides: recipient, amount, expiry and validity of a drafted row come from the
      payee's first entry for the requested scheme and network, never from the request. */
  lemma DraftAuthoritative(
    env: Env, request: PrepareRequest, jkt: string, tip: Result<u32, string>, newId: PaymentId, now: u64)
    requires Draft(env, request, jkt, tip, newId, now).Ok?
    ensures request.payee in env.registry && tip.Ok?
    ensures var p := Draft(env, request, jkt, tip, newId, now).value;
            && p.preparation.expiryHeight > 0 && p.preparation.expiryHeight >= tip.value
            && p.jkt == jkt && p.payee == request.payee && p.preparation.paymentId == newId
            && exists k :: 0 <= k < |env.registry[request.payee]| && FirstServing(env.registry[request.payee], request, k)
                 && PricedBy(p, env.registry[request.payee][k], tip.value, now)
  {
    var entries := env.registry[request.payee];
    FirstMatchIs(entries, request.scheme, request.network);
    var e := FirstMatch(entries, request.scheme, request.network).value;
    var k :| 0 <= k < |entries| && entries[k] == e
             && forall i :: 0 <= i < k ==> !(entries[i].scheme == request.scheme && entries[i].network == request.network);
    assert FirstServing(entries, request, k);
  }

  /** No earlier entry serves the request. */
  predicate FirstServing(entries: seq<AcceptsEntry>, request: PrepareRequest, k: nat)
    requires k < |entries|
  {
    && entries[k].scheme == request.scheme && entries[k].network == request.network
    && forall i :: 0 <= i < k ==> !(entries[i].scheme == request.scheme && entries[i].network == request.network)
  }

  /** The terms of a registry entry: 40 blocks and 300 seconds where it names none. */
  predicate PricedBy(p: PreparedTx, e: AcceptsEntry, tip: u32, now: u64) {
    && p.recipient == e.payTo && p.amountZat == e.amountZat && p.preparation.amountZat == e.amountZat
    && p.network == e.network
    && (e.expiryDeltaBlocks.Some? ==> p.preparation.expiryHeight == Min(tip + e.expiryDeltaBlocks.value, U32_MAX))
    && (e.expiryDeltaBlocks.None? ==> p.preparation.expiryHeight == Min(tip + 40, U32_MAX))
    && (e.maxValiditySeconds > 0 ==> p.expiresAt == Min(now + e.maxValiditySeconds, U64_MAX))
    && (e.maxValiditySeconds == 0 ==> p.expiresAt == Min(now + 300, U64_MAX))
  }

  /** The URI of a drafted row asks the payer for what the registry entry says: its address, its
      price to the zatoshi, and the binding memo of the request. */
  lemma DraftUriAsks(
    env: Env, request: PrepareRequest, jkt: string, tip: Result<u32, string>, newId: PaymentId, now: u64)
    requires Draft(env, request, jkt, tip, newId, now).Ok?
    requires '?' !in Draft(env, request, jkt, tip, newId, now).value.recipient
    ensures var p := Draft(env, request, jkt, tip, newId, now).value;
            var asked := ReadUri(p.preparation.paymentUri);
            && asked.Some? && asked.value.recipient == p.recipient && asked.value.memo == env.base64(p.preparation.memo)
            && ParseZec(asked.value.amount) == Some(p.amountZat)
            && p.preparation.memo == ComposeBindingMemo(env.hash, Challenge(
                 env.utf8(request.payee), request.scheme, request.network, env.utf8(request.resourceUri), env.utf8(request.nonce)),
                 request.evidence)
  {
    hide ComposePaymentUri, ReadUri, ParseZec;
    var p := Draft(env, request, jkt, tip, newId, now).value;
    UriReads(env.base64, p.recipient, p.amountZat, p.preparation.memo);
  }

  predicate Serves(e: AcceptsEntry, request: PrepareRequest) {
    e.scheme == request.scheme && e.network == request.network
  }

  /** The entry the request resolves to asks for no blocks beyond the tip. */
  predicate ZeroDelta(env: Env, request: PrepareRequest)
    requires request.payee in env.registry
  {
    var e := FirstMatch(env.registry[request.payee], request.scheme, request.network);
    e.Some? && e.value.expiryDeltaBlocks == Some(0)
  }

  /** Every refusal has its own cause, and the causes are tried in order. */
  lemma DraftRefusals(
    env: Env, request: PrepareRequest, jkt: string, tip: Result<u32, string>, newId: PaymentId, now: u64)
    ensures var r := Draft(env, request, jkt, tip, newId, now);
            var known := request.payee in env.registry;
            var served := known && exists e :: e in env.registry[request.payee] && Serves(e, request);
            && (r == Err(PayeeUnknown) <==> !known)
            && (r == Err(SchemeNetworkUnsupported) <==> known && !served)
            && (r.Err? && r.error.TipOracle? <==> served && tip.Err?) && (served && tip.Err? ==> r == Err(TipOracle(tip.error)))
            && (r == Err(ExpiryHeightInvalid) <==> served && tip == Ok(0) && ZeroDelta(env, request))
            && (r.Ok? <==> served && tip.Ok? && !(tip.value == 0 && ZeroDelta(env, request)))
  {
    if request.payee in env.registry {
      var entries := env.registry[request.payee];
      FirstMatchIs(entries, request.scheme, request.network);
      if FirstMatch(entries, request.scheme, request.network).Some? {
        var e := FirstMatch(entries, request.scheme, request.network).value;
        assert e in entries && Serves(e, request);
      }
    }
  }

  /** The library functions `propose` relies on: a 32-byte hash and an injective encoding. */
  ghost predicate Sound(env: Env) {
    Hash32(env.hash) && forall a, b :: env.utf8(a) == env.utf8(b) ==> a == b
  }

  /** What a request's challenge binds, short of its idempotency key. */
  predicate SameChallenge(a: PrepareRequest, b: PrepareRequest) {
    && a.payee == b.payee && a.scheme == b.scheme && a.network == b.network
    && a.resourceUri == b.resourceUri && a.nonce == b.nonce && a.evidence == b.evidence
  }

  ghost predicate Encodable(env: Env, request: PrepareRequest) {
    && NulFree(env.utf8(request.payee)) && NulFree(env.utf8(request.resourceUri))
    && (request.evidence.Some? ==> |request.evidence.value| == EVIDENCE_BYTES)
  }

  /** Two drafted rows with the same memo were drafted for the same challenge and evidence, or
      their challenge pre-images are a collision of the hash. */
  lemma DraftBinds(
    env: Env, a: PrepareRequest, b: PrepareRequest, jktA: string, jktB: string,
    tipA: Result<u32, string>, tipB: Result<u32, string>, idA: PaymentId, idB: PaymentId, nowA: u64, nowB: u64)
    requires Sound(env) && Encodable(env, a) && Encodable(env, b)
    requires Draft(env, a, jktA, tipA, idA, nowA).Ok? && Draft(env, b, jktB, tipB, idB, nowB).Ok?
    requires Draft(env, a, jktA, tipA, idA, nowA).value.preparation.memo
          == Draft(env, b, jktB, tipB, idB, nowB).value.preparation.memo
    ensures SameChallenge(a, b)
         || Collision(env.hash, ChallengePreimage(ChallengeOf(env, a)), ChallengePreimage(ChallengeOf(env, b)))
  {
    MemoBinds(env.hash, ChallengeOf(env, a), a.evidence, ChallengeOf(env, b), b.evidence);
  }

  ghost function Proposed(
    env: Env, t: PreparedTable, request: PrepareRequest, jkt: string, tip: Result<u32, string>, newId: PaymentId, now: u64)
    : (PreparedTable, Result<Preparation, PrepareError>)
  {
    var key := EffectiveKey(env, request);
    var prior := if key.Some? then FindKeyed(t, (jkt, key.value)) else None;
    if prior.Some? then (t, Ok(prior.value.preparation)) else
    match Draft(env, request, jkt, tip, newId, now)
    case Err(reason) => (t, Err(reason))
    case Ok(entry) => (t[newId := entry], Ok(entry.preparation))
  }

  /** The request carries a key that counts. */
  predicate Keyed(env: Env, request: PrepareRequest) {
    request.idempotencyKey.Some? && !env.isBlank(request.idempotencyKey.value)
  }

  /** A live row of the same agent under the same key. */
  ghost predicate Earlier(env: Env, t: PreparedTable, request: PrepareRequest, jkt: string, id: PaymentId) {
    && Keyed(env, request) && id in t
    && t[id].jkt == jkt && t[id].idempotencyKey == request.idempotencyKey
  }

  /** What a propose does, in full. A live row of the same agent under the same non-blank key is
      answered again and nothing is written. Otherwise a row under the new id is written exactly
      when one can be drafted; it carries the key if that is not blank, and none otherwise. */
  lemma ProposeIff(
    env: Env, t: PreparedTable, request: PrepareRequest, jkt: string, tip: Result<u32, string>, newId: PaymentId, now: u64)
    requires UniqueKeys(t) && newId !in t
    ensures var (after, r) := Proposed(env, t, request, jkt, tip, newId, now);
            && (forall id :: Earlier(env, t, request, jkt, id) ==> after == t && r == Ok(t[id].preparation))
            && ((forall id :: !Earlier(env, t, request, jkt, id)) ==>
                  && (r.Err? ==> after == t)
                  && (r.Ok? ==>
                        && newId in after && after == t[newId := after[newId]]
                        && after[newId].preparation == r.value && r.value.paymentId == newId
                        && after[newId].jkt == jkt && after[newId].payee == request.payee
                        && after[newId].idempotencyKey == if Keyed(env, request) then request.idempotencyKey else None))
  {
    hide Draft;
    if request.idempotencyKey.Some? {
      var key := (jkt, request.idempotencyKey.value);
      forall id ensures Earlier(env, t, request, jkt, id) <==> Keyed(env, request) && Holds(t, id, key) {
      }
    }
    var drafted := Draft(env, request, jkt, tip, newId, now);
    if drafted.Ok? {
      DraftCarries(env, request, jkt, tip, newId, now);
    }
  }

  lemma DraftCarries(
    env: Env, request: PrepareRequest, jkt: string, tip: Result<u32, string>, newId: PaymentId, now: u64)
    requires Draft(env, request, jkt, tip, newId, now).Ok?
    ensures var p := Draft(env, request, jkt, tip, newId, now).value;
            && p.jkt == jkt && p.payee == request.payee && p.preparation.paymentId == newId
            && p.idempotencyKey == if Keyed(env, request) then request.idempotencyKey else None
  {
  }

  /** While a keyed row is live, every propose with its key returns its preparation and
      writes nothing, whatever else the request says. */
  lemma ProposeReplays(
    env: Env, t: PreparedTable, id: PaymentId, request: PrepareRequest, tip: Result<u32, string>,
    newId: PaymentId, now: u64)
    requires UniqueKeys(t) && id in t && t[id].idempotencyKey.Some?
    requires request.idempotencyKey == t[id].idempotencyKey && !env.isBlank(t[id].idempotencyKey.value)
    ensures Proposed(env, t, request, t[id].jkt, tip, newId, now) == (t, Ok(t[id].preparation))
  {
    assert Holds(t, id, KeyOf(t[id]).value);
  }

  /** A propose never breaks the unique index and never touches an existing row. */
  lemma ProposeKeepsTable(
    env: Env, t: PreparedTable, request: PrepareRequest, jkt: string, tip: Result<u32, string>,
    newId: PaymentId, now: u64)
    requires UniqueKeys(t) && newId !in t
    ensures var (after, _) := Proposed(env, t, request, jkt, tip, newId, now);
            UniqueKeys(after) && forall id :: id in t ==> id in after && after[id] == t[id]
  {
    var (after, _) := Proposed(env, t, request, jkt, tip, newId, now);
    forall i, j, key | Holds(after, i, key) && Holds(after, j, key) ensures i == j {
      assert i != newId ==> Holds(t, i, key);
      assert j != newId ==> Holds(t, j, key);
    }
  }
}
