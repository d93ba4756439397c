/** The protocol memo that binds a payment to its challenge and resource. Strings are their
    UTF-8 bytes here; the hash is a parameter. */
module Binding {
  import opened Types

  type Bytes = seq<u8>

  const NUL: u8 := 0
  const PROTOCOL_MEMO_TAG: u8 := 0xFF
  const PROTOCOL_MEMO_VERSION: u8 := 0x02
  const EVIDENCE_BYTES := 32

  /** "zpay/v1/challenge" and "zpay/v1/resource". */
  const DOMAIN_TAG_CHALLENGE: Bytes :=
    [122, 112, 97, 121, 47, 118, 49, 47, 99, 104, 97, 108, 108, 101, 110, 103, 101]
  const DOMAIN_TAG_RESOURCE: Bytes :=
    [122, 112, 97, 121, 47, 118, 49, 47, 114, 101, 115, 111, 117, 114, 99, 101]

  function SchemeByte(scheme: Scheme): u8 {
    match scheme case Zcash => 0x01
  }

  function NetworkByte(network: Network): u8 {
    match network
    case Mainnet => 0x01
    case Testnet => 0x02
    case Regtest => 0x03
  }

  /** What a challenge binds. */
  datatype Challenge = Challenge(payee: Bytes, scheme: Scheme, network: Network, uri: Bytes, nonce: Bytes)

  function ChallengeBody(c: Challenge): Bytes {
    c.payee + [NUL] + [SchemeByte(c.scheme)] + [NUL] + [NetworkByte(c.network)] + [NUL] + c.uri + [NUL] + c.nonce
  }

  function ChallengePreimage(c: Challenge): Bytes {
    DOMAIN_TAG_CHALLENGE + [NUL] + ChallengeBody(c)
  }

  function ResourcePreimage(uri: Bytes): Bytes {
    DOMAIN_TAG_RESOURCE + [NUL] + uri
  }

  function ComposeBindingMemo(hash: Bytes -> Bytes, c: Challenge, evidence: Option<Bytes>): Bytes {
    [PROTOCOL_MEMO_TAG, PROTOCOL_MEMO_VERSION] + hash(ChallengePreimage(c)) + hash(ResourcePreimage(c.uri))
    + (if evidence.Some? then evidence.value else [])
  }

  ghost predicate Hash32(hash: Bytes -> Bytes) {
    forall x :: |hash(x)| == 32
  }

  predicate NulFree(s: Bytes) {
    NUL !in s
  }

  // ---- The pre-images ----

  /** A NUL-terminated field without NULs can be read back from the front. */
  lemma {:induction false} SplitAtNul(p: Bytes, rest: Bytes, q: Bytes, tail: Bytes)
    requires NulFree(p) && NulFree(q) && p + [NUL] + rest == q + [NUL] + tail
    ensures p == q && rest == tail
    decreases |p|
  {
    var whole := p + [NUL] + rest;
    assert whole[|p|] == NUL;
    assert (q + [NUL] + tail)[|q|] == NUL;
    assert forall i :: 0 <= i < |p| ==> whole[i] == p[i];
    assert forall i :: 0 <= i < |q| ==> whole[i] == q[i];
    assert |p| == |q|;
    assert p == whole[..|p|] && q == whole[..|q|];
    assert rest == whole[|p| + 1..] && tail == whole[|q| + 1..];
  }

  function Tail(c: Challenge): Bytes {
    [SchemeByte(c.scheme), NUL, NetworkByte(c.network), NUL] + (c.uri + [NUL] + c.nonce)
  }

  lemma BodySplits(c: Challenge)
    ensures ChallengeBody(c) == c.payee + [NUL] + Tail(c)
  {
  }

  /** On NUL-free payees and URIs the challenge pre-image determines all five fields. */
  lemma ChallengeInjective(a: Challenge, b: Challenge)
    requires NulFree(a.payee) && NulFree(b.payee) && NulFree(a.uri) && NulFree(b.uri)
    requires ChallengePreimage(a) == ChallengePreimage(b)
    ensures a == b
  {
    var k := |DOMAIN_TAG_CHALLENGE| + 1;
    assert ChallengeBody(a) == ChallengePreimage(a)[k..] && ChallengeBody(b) == ChallengePreimage(b)[k..];
    BodySplits(a);
    BodySplits(b);
    SplitAtNul(a.payee, Tail(a), b.payee, Tail(b));
    assert Tail(a)[0] == Tail(b)[0] && Tail(a)[2] == Tail(b)[2];
    assert Tail(a)[4..] == a.uri + [NUL] + a.nonce && Tail(b)[4..] == b.uri + [NUL] + b.nonce;
    SplitAtNul(a.uri, a.nonce, b.uri, b.nonce);
  }

  function NulCount(s: Bytes): nat {
    multiset(s)[NUL]
  }

  lemma TailNulCount(c: Challenge)
    ensures NulCount([NUL] + Tail(c)) == 4 + NulCount(c.uri) + NulCount(c.nonce)
  {
  }

  /** `c` is the only challenge with its pre-image. */
  ghost predicate Unambiguous(c: Challenge) {
    forall d :: ChallengePreimage(d) == ChallengePreimage(c) ==> d == c
  }

  lemma PreimageOfTail(c: Challenge, d: Challenge)
    requires d == c.(uri := d.uri, nonce := d.nonce) && d.uri + [NUL] + d.nonce == c.uri + [NUL] + c.nonce
    ensures ChallengePreimage(d) == ChallengePreimage(c)
  {
    BodySplits(c);
    BodySplits(d);
  }

  /** A NUL inside the URI or the nonce can be read as the separator instead. */
  lemma Respelled(c: Challenge) returns (d: Challenge)
    requires !NulFree(c.uri) || !NulFree(c.nonce)
    ensures d != c && ChallengePreimage(d) == ChallengePreimage(c)
  {
    if !NulFree(c.uri) {
      var i :| 0 <= i < |c.uri| && c.uri[i] == NUL;
      d := c.(uri := c.uri[..i], nonce := c.uri[i + 1..] + [NUL] + c.nonce);
      assert c.uri == c.uri[..i] + [NUL] + c.uri[i + 1..];
    } else {
      var i :| 0 <= i < |c.nonce| && c.nonce[i] == NUL;
      d := c.(uri := c.uri + [NUL] + c.nonce[..i], nonce := c.nonce[i + 1..]);
      assert c.nonce == c.nonce[..i] + [NUL] + c.nonce[i + 1..];
      assert |d.uri| != |c.uri|;
    }
    PreimageOfTail(c, d);
  }

  /** Read from here, the bytes look like the end of a payee: scheme and network follow. */
  predicate LooksLikeEnd(body: Bytes, i: nat) {
    && i + 5 <= |body| && body[i] == NUL && body[i + 1] == SchemeByte(Zcash) && body[i + 2] == NUL
    && body[i + 3] in {NetworkByte(Mainnet), NetworkByte(Testnet), NetworkByte(Regtest)} && body[i + 4] == NUL
  }

  /** The payee itself can be read as a shorter payee followed by scheme and network. */
  ghost predicate EndsEarly(c: Challenge) {
    exists i :: 0 <= i < |c.payee| && LooksLikeEnd(ChallengeBody(c), i)
  }

  /** Bytes that look like the end of a payee, with a NUL further on, are a challenge. */
  lemma Reparsed(body: Bytes, i: nat, n: nat) returns (d: Challenge)
    requires LooksLikeEnd(body, i) && i + 5 <= n < |body| && body[n] == NUL
    ensures ChallengeBody(d) == body && |d.payee| == i
  {
    var network :| NetworkByte(network) == body[i + 3];
    d := Challenge(body[..i], Zcash, network, body[i + 5..n], body[n + 1..]);
    BodySplits(d);
    var head, rest := [NUL, SchemeByte(Zcash), NUL, NetworkByte(network), NUL], d.uri + [NUL] + d.nonce;
    assert rest == body[i + 5..];
    assert head == body[i..i + 5];
    assert [NUL] + Tail(d) == head + rest;
    hide ChallengeBody;
    assert body == body[..i] + (body[i..i + 5] + body[i + 5..]);
  }

  /** A payee that ends early makes room for a different challenge. */
  lemma Shortened(c: Challenge, i: nat) returns (d: Challenge)
    requires i < |c.payee| && LooksLikeEnd(ChallengeBody(c), i)
    ensures d != c && ChallengePreimage(d) == ChallengePreimage(c)
  {
    var body := ChallengeBody(c);
    var n := |c.payee| + 5 + |c.uri|;
    assert body[n] == NUL;
    hide ChallengeBody;
    d := Reparsed(body, i, n);
  }

  /** Where the payee ends, scheme and network follow. */
  lemma PayeeEnds(c: Challenge)
    ensures LooksLikeEnd(ChallengeBody(c), |c.payee|)
    ensures ChallengeBody(c)[..|c.payee|] == c.payee && ChallengeBody(c)[|c.payee|..] == [NUL] + Tail(c)
  {
    BodySplits(c);
    assert ChallengeBody(c)[|c.payee|..] == [NUL] + Tail(c);
    var rest := [NUL] + Tail(c);
    assert forall k :: 0 <= k < 5 ==> ChallengeBody(c)[|c.payee| + k] == rest[k];
    assert c.scheme == Zcash;
  }

  /** Cutting later, past a NUL, leaves fewer of them. */
  lemma LaterCutHasFewer(body: Bytes, a: nat, b: nat)
    requires a < b <= |body| && body[a] == NUL
    ensures NulCount(body[b..]) < NulCount(body[a..])
  {
    assert body[a..] == body[a..b] + body[b..];
    assert body[a..b][0] == NUL;
  }

  /** With NUL-free URI and nonce no other challenge has a longer payee: its own separators
      would not fit. */
  lemma NoLongerPayee(c: Challenge, d: Challenge)
    requires NulFree(c.uri) && NulFree(c.nonce) && ChallengeBody(d) == ChallengeBody(c)
    ensures |d.payee| <= |c.payee|
  {
    hide ChallengeBody, Tail;
    PayeeEnds(c);
    PayeeEnds(d);
    TailNulCount(c);
    TailNulCount(d);
    if |d.payee| > |c.payee| {
      LaterCutHasFewer(ChallengeBody(c), |c.payee|, |d.payee|);
    }
  }

  lemma TailInjective(c: Challenge, d: Challenge)
    requires NulFree(c.uri) && NulFree(c.nonce) && Tail(c) == Tail(d)
    ensures d == c.(payee := d.payee)
  {
    assert Tail(c)[0] == Tail(d)[0] && Tail(c)[2] == Tail(d)[2];
    assert Tail(c)[4..] == c.uri + [NUL] + c.nonce && Tail(d)[4..] == d.uri + [NUL] + d.nonce;
    hide Tail;
    assert NulCount(c.uri + [NUL] + c.nonce) == NulCount(c.uri) + 1 + NulCount(c.nonce);
    assert NulCount(d.uri + [NUL] + d.nonce) == NulCount(d.uri) + 1 + NulCount(d.nonce);
    SplitAtNul(c.uri, c.nonce, d.uri, d.nonce);
  }

  lemma SameLength(c: Challenge, d: Challenge)
    requires NulFree(c.uri) && NulFree(c.nonce) && ChallengeBody(d) == ChallengeBody(c) && |d.payee| == |c.payee|
    ensures d == c
  {
    hide ChallengeBody, Tail;
    PayeeEnds(c);
    PayeeEnds(d);
    assert ([NUL] + Tail(c))[1..] == Tail(c) && ([NUL] + Tail(d))[1..] == Tail(d);
    TailInjective(c, d);
  }

  /** A challenge is unambiguous among all challenges if and only if its URI and nonce are
      NUL-free and its payee does not end early. */
  lemma UnambiguousIff(c: Challenge)
    ensures Unambiguous(c) <==> NulFree(c.uri) && NulFree(c.nonce) && !EndsEarly(c)
  {
    var k := |DOMAIN_TAG_CHALLENGE| + 1;
    assert ChallengePreimage(c)[k..] == ChallengeBody(c);
    if !NulFree(c.uri) || !NulFree(c.nonce) {
      var d := Respelled(c);
    } else if EndsEarly(c) {
      var i :| 0 <= i < |c.payee| && LooksLikeEnd(ChallengeBody(c), i);
      var d := Shortened(c, i);
    } else {
      forall d | ChallengePreimage(d) == ChallengePreimage(c)
        ensures d == c
      {
        assert ChallengePreimage(d)[k..] == ChallengeBody(d);
        NoLongerPayee(c, d);
        PayeeEnds(d);
        if |d.payee| == |c.payee| {
          SameLength(c, d);
        }
      }
    }
  }

  /** A NUL-free payee never ends early. */
  lemma NulFreeEndsOnTime(c: Challenge)
    requires NulFree(c.payee)
    ensures !EndsEarly(c)
  {
    PayeeEnds(c);
  }

  /** The domain tags separate the two pre-image families for all inputs. */
  lemma PreimagesDisjoint(c: Challenge, uri: Bytes)
    ensures ChallengePreimage(c) != ResourcePreimage(uri)
  {
    assert ChallengePreimage(c)[8] == DOMAIN_TAG_CHALLENGE[8];
    assert ResourcePreimage(uri)[8] == DOMAIN_TAG_RESOURCE[8];
  }

  // ---- The memo ----

  /** The bytes of a memo: tag and version, the two hashes, the evidence verbatim. */
  lemma MemoLayout(hash: Bytes -> Bytes, c: Challenge, evidence: Option<Bytes>)
    requires Hash32(hash)
    ensures var memo := ComposeBindingMemo(hash, c, evidence);
            && |memo| >= 66 && memo[0] == 0xFF && memo[1] == 0x02
            && memo[2..34] == hash(ChallengePreimage(c)) && memo[34..66] == hash(ResourcePreimage(c.uri))
            && memo[66..] == (if evidence.Some? then evidence.value else [])
  {
  }

  /** Where a challenge pre-image carries what. */
  lemma PreimageLayout(c: Challenge)
    ensures var x, n := ChallengePreimage(c), |c.payee|;
            && |x| == 18 + n + 6 + |c.uri| + |c.nonce|
            && x[18..18 + n] == c.payee && x[18 + n + 1] == 1
            && x[18 + n + 3] == (match c.network case Mainnet => 1 case Testnet => 2 case Regtest => 3)
            && x[18 + n + 5..18 + n + 5 + |c.uri|] == c.uri && x[18 + n + 6 + |c.uri|..] == c.nonce
  {
  }

  /** Both pre-images of one small challenge, byte by byte. */
  lemma KnownPreimages()
    ensures ChallengePreimage(Challenge([112], Zcash, Testnet, [117], [110]))
         == [122, 112, 97, 121, 47, 118, 49, 47, 99, 104, 97, 108, 108, 101, 110, 103, 101, 0, 112, 0, 1, 0, 2, 0, 117, 0, 110]
    ensures ResourcePreimage([117]) == [122, 112, 97, 121, 47, 118, 49, 47, 114, 101, 115, 111, 117, 114, 99, 101, 0, 117]
  {
  }

  ghost predicate Collision(hash: Bytes -> Bytes, x: Bytes, y: Bytes) {
    x != y && hash(x) == hash(y)
  }

  /** 66 or 98 bytes according to evidence; equal memos bind equal fields and equal evidence,
      or exhibit a collision of the hash on the two challenge pre-images. */
  lemma MemoBinds(hash: Bytes -> Bytes, a: Challenge, ea: Option<Bytes>, b: Challenge, eb: Option<Bytes>)
    requires Hash32(hash)
    requires ea.Some? ==> |ea.value| == EVIDENCE_BYTES
    requires eb.Some? ==> |eb.value| == EVIDENCE_BYTES
    ensures |ComposeBindingMemo(hash, a, ea)| == if ea.Some? then 98 else 66
    ensures NulFree(a.payee) && NulFree(b.payee) && NulFree(a.uri) && NulFree(b.uri)
            && ComposeBindingMemo(hash, a, ea) == ComposeBindingMemo(hash, b, eb) ==>
              (a == b && ea == eb) || Collision(hash, ChallengePreimage(a), ChallengePreimage(b))
  {
    var m, n := ComposeBindingMemo(hash, a, ea), ComposeBindingMemo(hash, b, eb);
    if m == n {
      assert m[2..34] == hash(ChallengePreimage(a)) && n[2..34] == hash(ChallengePreimage(b));
      assert m[66..] == (if ea.Some? then ea.value else []) && n[66..] == (if eb.Some? then eb.value else []);
      if ChallengePreimage(a) == ChallengePreimage(b)
         && NulFree(a.payee) && NulFree(b.payee) && NulFree(a.uri) && NulFree(b.uri) {
        ChallengeInjective(a, b);
      }
    }
  }
}
