/** DPoP proof verification and its replay store (sections 4.3 and 11.1 of RFC 9449). JWT
    decoding, URL canonicalization and ECDSA are inputs: a proof is what the decoders read
    from it. Main result: although the store forgets pairs after 300 seconds, no proof is
    accepted twice in any run, because the issued-at gate closes first. */
module Dpop {
  import opened Types

  const NANOS: nat := 1_000_000_000
  const CLOCK_SKEW_SECONDS: nat := 60
  const REPLAY_WINDOW_SECONDS: nat := 300
  const TTL: nat := REPLAY_WINDOW_SECONDS * NANOS
  const MAX_JTI_LEN: nat := 128

  /** Nanoseconds on the monotonic clock; earlier instants than zero are not representable. */
  type Instant = nat

  // ---- The replay store ----

  type Pair = (string, seq<u8>)

  type Sightings = map<Pair, Instant>

  datatype ReplayOutcome = Fresh | Already

  /** `now.checked_sub(ttl).unwrap_or(now)`. */
  function Cutoff(now: Instant): Instant {
    if now >= TTL then now - TTL else now
  }

  function Retained(seen: Sightings, now: Instant): Sightings {
    map pair | pair in seen && seen[pair] > Cutoff(now) :: seen[pair]
  }

  function Observed(seen: Sightings, pair: Pair, now: Instant): (Sightings, ReplayOutcome) {
    var kept := Retained(seen, now);
    if pair in kept then (kept, Already) else (kept[pair := now], Fresh)
  }

  class InMemoryReplayStore {
    var inner: Sightings

    constructor ()
      ensures inner == map[]
    {
      inner := map[];
    }

    method Observe(jkt: string, jti: seq<u8>, now: Instant) returns (outcome: ReplayOutcome)
      modifies this
      ensures (inner, outcome) == Observed(old(inner), (jkt, jti), now)
      ensures (jkt, jti) in inner
    {
      var cutoff := if now >= TTL then now - TTL else now;
      inner := map pair | pair in inner && inner[pair] > cutoff :: inner[pair];
      if (jkt, jti) in inner {
        return Already;
      }
      inner := inner[(jkt, jti) := now];
      outcome := Fresh;
    }
  }

  // ---- The gates ----

  /** `malformed` is the first structural defect of header, key or claims; `htu` is absent when
      the claimed URL does not canonicalize; `jti` is the trimmed claim in bytes. */
  datatype Proof = Proof(
    blank: bool,
    malformed: Option<string>,
    jkt: string,
    jti: seq<u8>,
    htm: string,
    htu: Option<string>,
    iat: i64,
    signatureValid: bool)

  datatype DpopError = Missing | InvalidProof(reason: string) | ClockSkew(driftSeconds: nat) | Replay

  function SaturatingSub(a: i64, b: i64): i64 {
    if a - b > I64_MAX then I64_MAX else if a - b < I64_MIN then I64_MIN else a - b
  }

  function Abs(x: int): nat {
    if x < 0 then -x else x
  }

  function AbsDriftSeconds(iat: i64, now: i64): nat {
    var drift, other := Abs(SaturatingSub(iat, now)), Abs(SaturatingSub(now, iat));
    if drift >= other then drift else other
  }

  /** Saturation never turns a large drift into a small one. */
  lemma DriftExact(iat: i64, now: i64)
    ensures AbsDriftSeconds(iat, now) == Min(Abs(iat - now), I64_MAX + 1)
  {
  }

  /** The gates before the pair is burned. */
  function EarlyGate(proof: Proof): Option<DpopError> {
    if proof.blank then Some(Missing)
    else if proof.malformed.Some? then Some(InvalidProof(proof.malformed.value))
    else if proof.jti == [] then Some(InvalidProof("jti must be non-empty"))
    else if |proof.jti| > MAX_JTI_LEN then Some(InvalidProof("jti exceeds cap"))
    else None
  }

  /** The gates after it; `url` is the canonical request URL. */
  function LateGate(proof: Proof, verb: string, url: Option<string>, now: i64): Option<DpopError> {
    if verb != proof.htm then Some(InvalidProof("htm mismatch"))
    else if url.None? || proof.htu.None? then Some(InvalidProof("url not canonical"))
    else if url != proof.htu then Some(InvalidProof("htu mismatch"))
    else if AbsDriftSeconds(proof.iat, now) > CLOCK_SKEW_SECONDS then Some(ClockSkew(AbsDriftSeconds(proof.iat, now)))
    else if !proof.signatureValid then Some(InvalidProof("signature verification failed"))
    else None
  }

  function Verified(seen: Sightings, proof: Proof, verb: string, url: Option<string>, at: Instant, now: i64)
    : (Sightings, Result<string, DpopError>)
  {
    if EarlyGate(proof).Some? then (seen, Err(EarlyGate(proof).value)) else
    var (after, outcome) := Observed(seen, (proof.jkt, proof.jti), at);
    if outcome.Already? then (after, Err(Replay))
    else if LateGate(proof, verb, url, now).Some? then (after, Err(LateGate(proof, verb, url, now).value))
    else (after, Ok(proof.jkt))
  }

  method VerifyDpopProof(
    store: InMemoryReplayStore, proof: Proof, verb: string, url: Option<string>, at: Instant, now: i64)
    returns (result: Result<string, DpopError>)
    modifies store
    ensures (store.inner, result) == Verified(old(store.inner), proof, verb, url, at, now)
  {
    if proof.blank {
      return Err(Missing);
    }
    if proof.malformed.Some? {
      return Err(InvalidProof(proof.malformed.value));
    }
    if proof.jti == [] {
      return Err(InvalidProof("jti must be non-empty"));
    }
    if |proof.jti| > MAX_JTI_LEN {
      return Err(InvalidProof("jti exceeds cap"));
    }
    var outcome := store.Observe(proof.jkt, proof.jti, at);
    if outcome.Already? {
      return Err(Replay);
    }
    if verb != proof.htm {
      return Err(InvalidProof("htm mismatch"));
    }
    if url.None? || proof.htu.None? {
      return Err(InvalidProof("url not canonical"));
    }
    if url != proof.htu {
      return Err(InvalidProof("htu mismatch"));
    }
    var drift := AbsDriftSeconds(proof.iat, now);
    if drift > CLOCK_SKEW_SECONDS {
      return Err(ClockSkew(drift));
    }
    if !proof.signatureValid {
      return Err(InvalidProof("signature verification failed"));
    }
    result := Ok(proof.jkt);
  }

  // ---- What acceptance means ----

  /** The store still remembers the pair at `at`: it was seen less than 300 seconds ago. While
      300 seconds ago is not representable, it remembers nothing that is not in the future. */
  predicate Remembers(seen: Sightings, pair: Pair, at: Instant) {
    pair in seen && seen[pair] > if at >= 300_000_000_000 then at - 300_000_000_000 else at
  }

  /** A proof is accepted, as its key, if and only if it is well formed, its identifier has 1 to
      128 bytes and is not remembered for that key, it names this verb and this URL, it was
      issued within 60 seconds, and its signature is valid. */
  lemma AcceptanceIff(seen: Sightings, proof: Proof, verb: string, url: Option<string>, at: Instant, now: i64)
    ensures var r := Verified(seen, proof, verb, url, at, now).1;
            && (r.Ok? ==> r.value == proof.jkt)
            && (r.Ok? <==>
                && !proof.blank && proof.malformed.None? && 1 <= |proof.jti| <= 128
                && !Remembers(seen, (proof.jkt, proof.jti), at)
                && proof.htm == verb && url.Some? && proof.htu == url
                && -60 <= proof.iat - now <= 60 && proof.signatureValid)
  {
    DriftExact(proof.iat, now);
  }

  /** The reason of a refusal is the first condition that fails, in this order. */
  lemma RefusalOrder(seen: Sightings, proof: Proof, verb: string, url: Option<string>, at: Instant, now: i64)
    ensures var r := Verified(seen, proof, verb, url, at, now).1;
            var formed := !proof.blank && proof.malformed.None?;
            var named := formed && 1 <= |proof.jti| <= 128;
            var unseen := named && !Remembers(seen, (proof.jkt, proof.jti), at);
            var addressed := unseen && proof.htm == verb && url.Some? && proof.htu == url;
            && (r == Err(Missing) <==> proof.blank)
            && (!proof.blank && proof.malformed.Some? ==> r == Err(InvalidProof(proof.malformed.value)))
            && (formed && |proof.jti| == 0 ==> r == Err(InvalidProof("jti must be non-empty")))
            && (formed && |proof.jti| > 128 ==> r == Err(InvalidProof("jti exceeds cap")))
            && (r == Err(Replay) <==> named && !unseen)
            && (unseen && proof.htm != verb ==> r == Err(InvalidProof("htm mismatch")))
            && (unseen && proof.htm == verb && (url.None? || proof.htu.None?) ==> r == Err(InvalidProof("url not canonical")))
            && (unseen && proof.htm == verb && url.Some? && proof.htu.Some? && url != proof.htu ==>
                  r == Err(InvalidProof("htu mismatch")))
            && (r.Err? && r.error.ClockSkew? <==> addressed && !(-60 <= proof.iat - now <= 60))
            && (r.Err? && r.error.ClockSkew? ==> r.error.driftSeconds == Min(Abs(proof.iat - now), I64_MAX + 1))
            && (addressed && -60 <= proof.iat - now <= 60 && !proof.signatureValid ==>
                  r == Err(InvalidProof("signature verification failed")))
  {
    DriftExact(proof.iat, now);
  }

  /** Only a proof that is not well formed leaves the store alone; any other burns its pair, and
      nothing but what has run out of its retention is forgotten. */
  lemma StoreAfter(seen: Sightings, proof: Proof, verb: string, url: Option<string>, at: Instant, now: i64)
    ensures var after := Verified(seen, proof, verb, url, at, now).0;
            if proof.blank || proof.malformed.Some? || !(1 <= |proof.jti| <= 128) then after == seen
            else
              && (proof.jkt, proof.jti) in after
              && (forall pair :: pair in after ==>
                    if Remembers(seen, pair, at) then after[pair] == seen[pair]
                    else pair == (proof.jkt, proof.jti) && after[pair] == at)
              && (forall pair :: Remembers(seen, pair, at) ==> pair in after)
  {
  }

  // ---- Runs ----

  /** A verification observes the pair at `at` and reads the wall clock later, at `judged`: it
      may be suspended in between. */
  datatype Call = Call(proof: Proof, verb: string, url: Option<string>, at: Instant, judged: Instant)

  /** The wall clock in seconds, advancing with the monotonic clock. */
  function WallClock(offset: nat, at: Instant): i64 {
    Min((at + offset) / NANOS, I64_MAX)
  }

  function Outcome(offset: nat, seen: Sightings, c: Call): (Sightings, Result<string, DpopError>) {
    Verified(seen, c.proof, c.verb, c.url, c.at, WallClock(offset, c.judged))
  }

  function Run(offset: nat, calls: seq<Call>, k: nat): Sightings
    requires k <= |calls|
  {
    if k == 0 then map[] else Outcome(offset, Run(offset, calls, k - 1), calls[k - 1]).0
  }

  predicate Accepted(offset: nat, calls: seq<Call>, k: nat)
    requires k < |calls|
  {
    Outcome(offset, Run(offset, calls, k), calls[k]).1.Ok?
  }

  /** Calls are listed in the order the store observes them. */
  predicate Ordered(calls: seq<Call>) {
    && (forall i, j :: 0 <= i < j < |calls| ==> calls[i].at <= calls[j].at)
    && (forall i :: 0 <= i < |calls| ==> calls[i].at <= calls[i].judged)
  }

  /** No verification takes longer than `slack` from the observation to the clock reading. */
  predicate Prompt(calls: seq<Call>, slack: nat) {
    forall i :: 0 <= i < |calls| ==> calls[i].judged - calls[i].at <= slack
  }

  /** Every instant is at least the retention period after the clock's origin. */
  predicate Representable(calls: seq<Call>) {
    forall i :: 0 <= i < |calls| ==> calls[i].at >= TTL
  }

  /** The wall clock has not reached the end of `i64`. */
  predicate ClockInRange(offset: nat, calls: seq<Call>) {
    forall i :: 0 <= i < |calls| ==> (calls[i].judged + offset) / NANOS <= I64_MAX
  }

  /** A sighting is kept as long as no call comes a full retention period later. */
  lemma {:induction false} SightingKept(offset: nat, calls: seq<Call>, i: nat, m: nat, pair: Pair)
    requires i <= m <= |calls| && Ordered(calls) && Representable(calls)
    requires pair in Run(offset, calls, i)
    requires m > i ==> calls[m - 1].at < Run(offset, calls, i)[pair] + TTL
    ensures pair in Run(offset, calls, m) && Run(offset, calls, m)[pair] == Run(offset, calls, i)[pair]
    decreases m
  {
    if m > i {
      if m - 1 > i {
        assert calls[m - 2].at <= calls[m - 1].at;
      }
      SightingKept(offset, calls, i, m - 1, pair);
    }
  }

  lemma DriftBoundsGap(offset: nat, iat: i64, a: Instant, b: Instant)
    requires (a + offset) / NANOS <= I64_MAX && (b + offset) / NANOS <= I64_MAX
    requires AbsDriftSeconds(iat, WallClock(offset, a)) <= CLOCK_SKEW_SECONDS
    requires AbsDriftSeconds(iat, WallClock(offset, b)) <= CLOCK_SKEW_SECONDS
    ensures b - a < 121 * NANOS
  {
    DriftExact(iat, WallClock(offset, a));
    DriftExact(iat, WallClock(offset, b));
  }

  /** What is left of the retention period once the issued-at gate has taken its share. */
  const SLACK: nat := 179 * NANOS

  /** No proof is accepted twice in any run, however long and whatever else is verified, as
      long as no verification is suspended for more than 179 seconds. */
  lemma AcceptedAtMostOnce(offset: nat, calls: seq<Call>, i: nat, j: nat)
    requires i < j < |calls| && Ordered(calls) && Representable(calls) && ClockInRange(offset, calls)
    requires Prompt(calls, SLACK) && calls[i].proof == calls[j].proof
    ensures !(Accepted(offset, calls, i) && Accepted(offset, calls, j))
  {
    if Accepted(offset, calls, i) && Accepted(offset, calls, j) {
      var c, d := calls[i], calls[j];
      var pair := (c.proof.jkt, c.proof.jti);
      DriftBoundsGap(offset, c.proof.iat, c.judged, d.judged);
      assert Run(offset, calls, i + 1)[pair] == c.at;
      if j > i + 1 {
        assert calls[j - 1].at <= d.at;
      }
      SightingKept(offset, calls, i + 1, j, pair);
    }
  }

  /** Two verifications of a good proof, the first suspended for `slack`. */
  function Delayed(slack: nat): seq<Call>
    requires (TTL + slack) / NANOS + 122 <= I64_MAX
  {
    var second := (TTL + slack + NANOS - 1) / NANOS;
    var first := second * NANOS;
    var proof := Proof(false, None, "key", [1], "POST", Some("url"), second + CLOCK_SKEW_SECONDS, true);
    [Call(proof, "POST", Some("url"), first - slack, first),
     Call(proof, "POST", Some("url"), first + 121 * NANOS - 1, first + 121 * NANOS - 1)]
  }

  /** The slack is exact: past it, a proof is accepted twice. */
  lemma SlackExceeded(slack: nat)
    requires slack > SLACK && (TTL + slack) / NANOS + 122 <= I64_MAX
    ensures var calls := Delayed(slack);
            && Ordered(calls) && Representable(calls) && ClockInRange(0, calls) && Prompt(calls, slack)
            && calls[0].proof == calls[1].proof && Accepted(0, calls, 0) && Accepted(0, calls, 1)
  {
    var calls := Delayed(slack);
    var c, d := calls[0], calls[1];
    DriftExact(c.proof.iat, WallClock(0, c.judged));
    DriftExact(d.proof.iat, WallClock(0, d.judged));
    assert Run(0, calls, 0) == map[];
    assert Run(0, calls, 1) == Outcome(0, map[], c).0 == map[("key", [1]) := c.at];
    assert Cutoff(d.at) >= c.at;
  }

  /** A call evicts a sighting of time `seen`: `now - ttl` is not representable, or the
      retention period has run out. Calls refused by an early gate do not reach the store. */
  predicate Evicts(c: Call, seen: Instant) {
    EarlyGate(c.proof).None? && (c.at < TTL || c.at >= seen + TTL)
  }

  predicate Observes(c: Call, pair: Pair) {
    EarlyGate(c.proof).None? && (c.proof.jkt, c.proof.jti) == pair
  }

  /** One call for another pair keeps a sighting exactly when it does not evict it. */
  lemma OtherCall(offset: nat, seen: Sightings, c: Call, pair: Pair)
    requires !Observes(c, pair) && (pair in seen ==> seen[pair] <= c.at)
    ensures var after := Outcome(offset, seen, c).0;
            && (pair in after <==> pair in seen && !Evicts(c, seen[pair]))
            && (pair in after ==> after[pair] == seen[pair])
  {
  }

  /** While the pair is not observed again, its sighting is held until the first call that
      evicts it, and stays forgotten from then on. */
  lemma {:induction false} SightingHeldIff(offset: nat, calls: seq<Call>, i: nat, m: nat, pair: Pair)
    requires i <= m <= |calls| && Ordered(calls) && pair in Run(offset, calls, i)
    requires i < |calls| ==> Run(offset, calls, i)[pair] <= calls[i].at
    requires forall k :: i <= k < m ==> !Observes(calls[k], pair)
    ensures pair in Run(offset, calls, m) <==> forall k :: i <= k < m ==> !Evicts(calls[k], Run(offset, calls, i)[pair])
    ensures pair in Run(offset, calls, m) ==> Run(offset, calls, m)[pair] == Run(offset, calls, i)[pair]
    decreases m
  {
    hide Outcome, Evicts, Observes;
    if i < m {
      SightingHeldIff(offset, calls, i, m - 1, pair);
      assert calls[i].at <= calls[m - 1].at;
      OtherCall(offset, Run(offset, calls, m - 1), calls[m - 1], pair);
    }
  }

  /** The sighting a call leaves behind is not in the future. */
  lemma {:induction false} SightingsArePast(offset: nat, calls: seq<Call>, k: nat, pair: Pair)
    requires 0 < k <= |calls| && Ordered(calls) && pair in Run(offset, calls, k)
    ensures Run(offset, calls, k)[pair] <= calls[k - 1].at
    decreases k
  {
    if k > 1 && pair in Run(offset, calls, k - 1) {
      SightingsArePast(offset, calls, k - 1, pair);
      assert calls[k - 2].at <= calls[k - 1].at;
    }
  }

  lemma ObservedIsHeld(offset: nat, seen: Sightings, c: Call, pair: Pair)
    requires Observes(c, pair)
    ensures pair in Outcome(offset, seen, c).0
  {
  }

  /** The last word on replay, for any call of any run: a call whose pair was last observed by
      call `i`, and whose other gates pass, is accepted if and only if some call since then, or
      this one, has made the store forget the sighting. */
  lemma AcceptedAgainIff(offset: nat, calls: seq<Call>, i: nat, j: nat, pair: Pair)
    requires i < j < |calls| && Ordered(calls) && Observes(calls[i], pair) && Observes(calls[j], pair)
    requires forall k :: i < k < j ==> !Observes(calls[k], pair)
    requires LateGate(calls[j].proof, calls[j].verb, calls[j].url, WallClock(offset, calls[j].judged)).None?
    ensures pair in Run(offset, calls, i + 1)
    ensures Accepted(offset, calls, j) <==>
              exists k :: i < k <= j && Evicts(calls[k], Run(offset, calls, i + 1)[pair])
  {
    ObservedIsHeld(offset, Run(offset, calls, i), calls[i], pair);
    SightingsArePast(offset, calls, i + 1, pair);
    assert calls[i].at <= calls[i + 1].at;
    SightingHeldIff(offset, calls, i + 1, j, pair);
    var seen := Run(offset, calls, i + 1)[pair];
    assert calls[i].at <= calls[j].at;
    JudgedCall(offset, Run(offset, calls, j), calls[j], pair);
  }

  /** A call whose other gates pass is accepted exactly when the store does not hold its pair
      any more. */
  lemma JudgedCall(offset: nat, seen: Sightings, c: Call, pair: Pair)
    requires Observes(c, pair) && (pair in seen ==> seen[pair] <= c.at)
    requires LateGate(c.proof, c.verb, c.url, WallClock(offset, c.judged)).None?
    ensures Outcome(offset, seen, c).1.Ok? <==> pair !in seen || Evicts(c, seen[pair])
  {
  }

  /** In particular a proof accepted at `i` and good again at `j`, not observed in between, is
      accepted twice if and only if some call in (i, j] comes before the retention period is
      representable or a whole retention period after `i`. */
  lemma SecondAcceptanceIff(offset: nat, calls: seq<Call>, i: nat, j: nat)
    requires i < j < |calls| && Ordered(calls) && calls[i].proof == calls[j].proof && Accepted(offset, calls, i)
    requires forall k :: i < k < j ==> !Observes(calls[k], (calls[i].proof.jkt, calls[i].proof.jti))
    requires LateGate(calls[j].proof, calls[j].verb, calls[j].url, WallClock(offset, calls[j].judged)).None?
    ensures Accepted(offset, calls, j) <==> exists k :: i < k <= j && Evicts(calls[k], calls[i].at)
  {
    var pair := (calls[i].proof.jkt, calls[i].proof.jti);
    assert Run(offset, calls, i + 1)[pair] == calls[i].at;
    AcceptedAgainIff(offset, calls, i, j, pair);
  }

  /** A stranger's call makes the store forget: the proof is accepted again although the
      retention period is representable by then and has not run out. */
  function Forgotten(): seq<Call> {
    var proof := Proof(false, None, "key", [1], "POST", Some("url"), 250, true);
    [Call(proof, "POST", Some("url"), 200 * NANOS, 200 * NANOS),
     Call(proof.(jti := [2]), "POST", Some("url"), 250 * NANOS, 250 * NANOS),
     Call(proof, "POST", Some("url"), 305 * NANOS, 305 * NANOS)]
  }

  lemma StrangerForgets()
    ensures var calls := Forgotten();
            && Ordered(calls) && Accepted(0, calls, 0) && Accepted(0, calls, 2) && calls[0].proof == calls[2].proof
            && calls[2].at >= TTL && calls[2].at < calls[0].at + TTL
  {
    var calls := Forgotten();
    DriftExact(250, WallClock(0, calls[0].judged));
    DriftExact(250, WallClock(0, calls[2].judged));
    assert Run(0, calls, 0) == map[];
    SecondAcceptanceIff(0, calls, 0, 2);
    assert Evicts(calls[1], calls[0].at);
  }

  /** The pair is burned before the claims are judged: a probe with wrong claims makes every
      proof with the same key and identifier a replay for the whole retention period. */
  lemma ProbeBurns(offset: nat, calls: seq<Call>, i: nat, j: nat)
    requires i < j < |calls| && Ordered(calls) && Representable(calls)
    requires EarlyGate(calls[i].proof).None? && EarlyGate(calls[j].proof).None?
    requires (calls[i].proof.jkt, calls[i].proof.jti) == (calls[j].proof.jkt, calls[j].proof.jti)
    requires calls[j].at < Run(offset, calls, i + 1)[(calls[i].proof.jkt, calls[i].proof.jti)] + TTL
    ensures Outcome(offset, Run(offset, calls, j), calls[j]).1 == Err(Replay)
  {
    var pair := (calls[i].proof.jkt, calls[i].proof.jti);
    if j > i + 1 {
      assert calls[j - 1].at <= calls[j].at;
    }
    SightingKept(offset, calls, i + 1, j, pair);
  }
}
