/** ZEC amounts in ZIP-321 decimal syntax, and the payment URI built from them. */
module ZecAmount {
  import opened Types

  const ZAT_PER_ZEC := 100_000_000
  const FRACTION_DIGITS := 8

  function Digit(d: nat): char
    requires d < 10
  {
    '0' + d as char
  }

  predicate AllDigits(s: string) {
    forall i :: 0 <= i < |s| ==> '0' <= s[i] <= '9'
  }

  /** Unpadded decimal. */
  function Decimal(n: nat): string {
    if n < 10 then [Digit(n)] else Decimal(n / 10) + [Digit(n % 10)]
  }

  /** The last `width` decimal digits, zero-padded. */
  function Padded(n: nat, width: nat): string
    decreases width
  {
    if width == 0 then "" else Padded(n / 10, width - 1) + [Digit(n % 10)]
  }

  function TrimZeros(s: string): string {
    if s != "" && s[|s| - 1] == '0' then TrimZeros(s[..|s| - 1]) else s
  }

  function FormatZec(zat: nat): string {
    var whole, fraction := zat / ZAT_PER_ZEC, zat % ZAT_PER_ZEC;
    if fraction == 0 then Decimal(whole) else Decimal(whole) + "." + TrimZeros(Padded(fraction, FRACTION_DIGITS))
  }

  /** `zcash:<recipient>?amount=<zec>&memo=<base64url>`; the encoder is a parameter. */
  function ComposePaymentUri(base64: seq<u8> -> string, recipient: string, amountZat: u64, memo: seq<u8>): string {
    "zcash:" + recipient + "?amount=" + FormatZec(amountZat) + "&memo=" + base64(memo)
  }

  // ---- Reading an amount back ----

  function Value(s: string): nat
    requires AllDigits(s)
  {
    if s == "" then 0 else 10 * Value(s[..|s| - 1]) + (s[|s| - 1] as int - '0' as int)
  }

  function Pow10(k: nat): nat {
    if k == 0 then 1 else 10 * Pow10(k - 1)
  }

  /** `v` followed by `k` zeros. */
  function Shifted(v: nat, k: nat): nat {
    if k == 0 then v else 10 * Shifted(v, k - 1)
  }

  /** A fraction read in zatoshis. */
  function FractionZat(f: string): nat
    requires AllDigits(f) && |f| <= FRACTION_DIGITS
  {
    Shifted(Value(f), FRACTION_DIGITS - |f|)
  }

  function Whole(s: string): string {
    if s == "" || s[0] == '.' then "" else [s[0]] + Whole(s[1..])
  }

  /** The reference reader: decimal digits, then at most one point and one to eight digits. */
  function ParseZec(s: string): Option<nat> {
    var whole := Whole(s);
    if whole == "" || !AllDigits(whole) || |whole| > |s| then None
    else if |whole| == |s| then Some(Value(whole) * ZAT_PER_ZEC)
    else
      var fraction := s[|whole| + 1..];
      if !AllDigits(fraction) || !(1 <= |fraction| <= FRACTION_DIGITS) then None
      else Some(Value(whole) * ZAT_PER_ZEC + FractionZat(fraction))
  }

  /** No superfluous leading zero. */
  predicate CanonicalWhole(s: string) {
    s != "" && AllDigits(s) && (s[0] == '0' ==> |s| == 1)
  }

  /** At most eight digits, no trailing zero, never empty. */
  predicate CanonicalFraction(s: string) {
    1 <= |s| <= FRACTION_DIGITS && AllDigits(s) && s[|s| - 1] != '0'
  }

  ghost predicate Canonical(s: string) {
    CanonicalWhole(s) || exists w, f :: CanonicalWhole(w) && CanonicalFraction(f) && s == w + "." + f
  }

  lemma {:induction false} DecimalReads(n: nat)
    ensures CanonicalWhole(Decimal(n)) && Value(Decimal(n)) == n
    ensures n > 0 ==> Decimal(n)[0] != '0'
  {
    if n >= 10 {
      DecimalReads(n / 10);
      assert Decimal(n)[..|Decimal(n)| - 1] == Decimal(n / 10);
    }
  }

  lemma {:induction false} PaddedReads(n: nat, width: nat)
    requires n < Pow10(width)
    ensures AllDigits(Padded(n, width)) && |Padded(n, width)| == width && Value(Padded(n, width)) == n
    decreases width
  {
    if width > 0 {
      PaddedReads(n / 10, width - 1);
      assert Padded(n, width)[..width - 1] == Padded(n / 10, width - 1);
    }
  }

  lemma {:induction false} ShiftTen(v: nat, k: nat)
    ensures Shifted(10 * v, k) == 10 * Shifted(v, k)
    decreases k
  {
    if k > 0 {
      ShiftTen(v, k - 1);
    }
  }

  /** Trimming keeps the scaled value and leaves a canonical fraction. */
  lemma {:induction false} TrimReads(s: string)
    requires AllDigits(s) && |s| <= FRACTION_DIGITS && Value(s) > 0
    ensures CanonicalFraction(TrimZeros(s))
    ensures FractionZat(TrimZeros(s)) == FractionZat(s)
    decreases |s|
  {
    if s[|s| - 1] == '0' {
      var t := s[..|s| - 1];
      assert Value(s) == 10 * Value(t);
      TrimReads(t);
      ShiftTen(Value(t), FRACTION_DIGITS - |s|);
    }
  }

  lemma {:induction false} WholeStops(w: string, rest: string)
    requires AllDigits(w) && (rest == "" || rest[0] == '.')
    ensures Whole(w + rest) == w
    decreases |w|
  {
    if w == "" {
      assert w + rest == rest;
    } else {
      assert (w + rest)[1..] == w[1..] + rest;
      WholeStops(w[1..], rest);
    }
  }

  /** Printing is exact: the reader recovers every amount, and the text is canonical. */
  lemma {:induction false} FormatZecRoundTrip(zat: nat)
    ensures ParseZec(FormatZec(zat)) == Some(zat)
    ensures Canonical(FormatZec(zat))
  {
    hide TrimZeros, Padded, Decimal, Value, Whole;
    var whole, fraction := zat / ZAT_PER_ZEC, zat % ZAT_PER_ZEC;
    var w := Decimal(whole);
    DecimalReads(whole);
    if fraction == 0 {
      WholeStops(w, "");
      assert w + "" == w;
    } else {
      assert Pow10(8) == ZAT_PER_ZEC;
      PaddedReads(fraction, FRACTION_DIGITS);
      TrimReads(Padded(fraction, FRACTION_DIGITS));
      ParseParts(w, TrimZeros(Padded(fraction, FRACTION_DIGITS)));
    }
  }

  // ---- The canonical text is unique ----

  function Zeros(k: nat): string {
    if k == 0 then "" else Zeros(k - 1) + "0"
  }

  lemma {:induction false} DecimalUnique(s: string)
    requires CanonicalWhole(s)
    ensures Decimal(Value(s)) == s
    ensures s[0] != '0' ==> Value(s) > 0
    decreases |s|
  {
    var init, last := s[..|s| - 1], s[|s| - 1];
    if |s| == 1 {
      assert Value(init) == 0;
      assert s == [last];
    } else {
      DecimalUnique(init);
      assert Value(s) / 10 == Value(init);
      assert s == init + [last];
    }
  }

  lemma {:induction false} PaddedExact(s: string)
    requires AllDigits(s)
    ensures Padded(Value(s), |s|) == s
    decreases |s|
  {
    if s != "" {
      var init, last := s[..|s| - 1], s[|s| - 1];
      PaddedExact(init);
      assert Value(s) / 10 == Value(init);
      assert s == init + [last];
    }
  }

  lemma {:induction false} PaddedShift(v: nat, width: nat, zeros: nat)
    ensures Padded(Shifted(v, zeros), width + zeros) == Padded(v, width) + Zeros(zeros)
    decreases zeros
  {
    if zeros > 0 {
      var n := Shifted(v, zeros - 1);
      PaddedShift(v, width, zeros - 1);
      assert Padded(10 * n, width + zeros) == Padded(n, width + zeros - 1) + ['0'];
    }
  }

  lemma {:induction false} TrimRemoves(f: string, zeros: nat)
    requires f != "" && f[|f| - 1] != '0'
    ensures TrimZeros(f + Zeros(zeros)) == f
    decreases zeros
  {
    var s := f + Zeros(zeros);
    if zeros > 0 {
      assert s[..|s| - 1] == f + Zeros(zeros - 1);
      TrimRemoves(f, zeros - 1);
    } else {
      assert s == f;
    }
  }

  lemma {:induction false} ValueBound(s: string)
    requires AllDigits(s)
    ensures Value(s) < Pow10(|s|)
    decreases |s|
  {
    if s != "" {
      ValueBound(s[..|s| - 1]);
    }
  }

  lemma {:induction false} ShiftBound(v: nat, width: nat, k: nat)
    requires v < Pow10(width)
    ensures Shifted(v, k) < Pow10(width + k) && (v > 0 ==> Shifted(v, k) > 0)
    decreases k
  {
    if k > 0 {
      ShiftBound(v, width, k - 1);
    }
  }

  /** A canonical fraction carries a value strictly between zero and one ZEC, and printing
      that value gives the fraction back. */
  lemma {:induction false} FractionUnique(f: string)
    requires CanonicalFraction(f)
    ensures 0 < FractionZat(f) < ZAT_PER_ZEC
    ensures TrimZeros(Padded(FractionZat(f), FRACTION_DIGITS)) == f
  {
    FractionUniqueAt(f, FRACTION_DIGITS - |f|, FRACTION_DIGITS);
    assert Pow10(8) == ZAT_PER_ZEC;
  }

  lemma {:induction false} FractionUniqueAt(f: string, zeros: nat, width: nat)
    requires f != "" && AllDigits(f) && f[|f| - 1] != '0' && width == |f| + zeros
    ensures 0 < Shifted(Value(f), zeros) < Pow10(width)
    ensures TrimZeros(Padded(Shifted(Value(f), zeros), width)) == f
  {
    hide TrimZeros, Padded, Shifted, Zeros, Pow10;
    assert Value(f) > 0;
    hide Value;
    ValueBound(f);
    ShiftBound(Value(f), |f|, zeros);
    PaddedExact(f);
    PaddedShift(Value(f), |f|, zeros);
    TrimRemoves(f, zeros);
  }

  /** The reader on text that has a whole part, a point and a fraction. */
  lemma {:induction false} ParseParts(w: string, f: string)
    requires CanonicalWhole(w) && CanonicalFraction(f)
    ensures ParseZec(w + "." + f) == Some(Value(w) * ZAT_PER_ZEC + FractionZat(f))
  {
    var s := w + "." + f;
    assert s == w + ("." + f);
    WholeStops(w, "." + f);
    assert s[|w| + 1..] == f;
  }

  lemma {:induction false} FormatParts(whole: nat, fraction: nat)
    requires 0 < fraction < ZAT_PER_ZEC
    ensures FormatZec(whole * ZAT_PER_ZEC + fraction)
         == Decimal(whole) + "." + TrimZeros(Padded(fraction, FRACTION_DIGITS))
  {
    assert (whole * ZAT_PER_ZEC + fraction) / ZAT_PER_ZEC == whole;
  }

  lemma {:induction false} WholeComplete(s: string)
    requires CanonicalWhole(s)
    ensures ParseZec(s) == Some(Value(s) * ZAT_PER_ZEC) && FormatZec(Value(s) * ZAT_PER_ZEC) == s
  {
    WholeStops(s, "");
    assert s + "" == s;
    DecimalUnique(s);
  }

  lemma {:induction false} FractionComplete(w: string, f: string)
    requires CanonicalWhole(w) && CanonicalFraction(f)
    ensures FormatZec(Value(w) * ZAT_PER_ZEC + FractionZat(f)) == w + "." + f
  {
    hide FormatZec, TrimZeros, Padded, Decimal, Value, FractionZat;
    DecimalUnique(w);
    FractionUnique(f);
    FormatParts(Value(w), FractionZat(f));
  }

  /** Every canonical text is the printed form of the amount it denotes. */
  lemma {:induction false} FormatZecComplete(s: string)
    requires Canonical(s)
    ensures ParseZec(s).Some? && FormatZec(ParseZec(s).value) == s
  {
    hide FormatZec, ParseZec, Value, FractionZat, CanonicalWhole, CanonicalFraction;
    if CanonicalWhole(s) {
      WholeComplete(s);
    } else {
      var w, f :| CanonicalWhole(w) && CanonicalFraction(f) && s == w + "." + f;
      ParseParts(w, f);
      FractionComplete(w, f);
    }
  }

  lemma ValueAppend(s: string, c: char)
    requires AllDigits(s) && '0' <= c <= '9'
    ensures AllDigits(s + [c]) && Value(s + [c]) == 10 * Value(s) + (c as int - '0' as int)
  {
    assert (s + [c])[..|s + [c]| - 1] == s;
  }

  lemma {:induction false} KnownValues()
    ensures Value("0") == 0 && Value("1") == 1 && FractionZat("1") == 10_000_000
  {
    ValueAppend("", '0');
    ValueAppend("", '1');
    assert "" + ['0'] == "0" && "" + ['1'] == "1";
    assert Shifted(1, 3) == 1_000;
    assert Shifted(1, 7) == 10_000_000;
  }

  /** Amounts as the wallet shows them. */
  lemma KnownAmounts()
    ensures FormatZec(100_000_000) == "1" && FormatZec(10_000_000) == "0.1"
  {
    hide FormatZec, Value, FractionZat;
    KnownValues();
    WholeComplete("1");
    FractionComplete("0", "1");
    assert "0" + "." + "1" == "0.1";
  }

  // ---- Reading the URI back ----

  /** The text before the first `c`, if there is one. */
  function UpTo(s: string, c: char): Option<string> {
    if s == "" then None
    else if s[0] == c then Some("")
    else if UpTo(s[1..], c).None? then None
    else Some([s[0]] + UpTo(s[1..], c).value)
  }

  function Following(s: string, prefix: string): Option<string> {
    if |prefix| <= |s| && s[..|prefix|] == prefix then Some(s[|prefix|..]) else None
  }

  datatype PaymentRequest = PaymentRequest(recipient: string, amount: string, memo: string)

  /** The reference reader of a payment URI: scheme, address, amount and memo, in that order. */
  function ReadUri(uri: string): Option<PaymentRequest> {
    var body := Following(uri, "zcash:");
    if body.None? then None else
    var recipient := UpTo(body.value, '?');
    if recipient.None? || |recipient.value| >= |body.value| then None else
    var query := Following(body.value[|recipient.value| + 1..], "amount=");
    if query.None? then None else
    var amount := UpTo(query.value, '&');
    if amount.None? || |amount.value| >= |query.value| then None else
    var memo := Following(query.value[|amount.value| + 1..], "memo=");
    if memo.None? then None else Some(PaymentRequest(recipient.value, amount.value, memo.value))
  }

  lemma {:induction false} UpToStops(s: string, c: char, rest: string)
    requires c !in s
    ensures UpTo(s + [c] + rest, c) == Some(s)
    decreases |s|
  {
    var whole := s + [c] + rest;
    if s == "" {
      assert whole[0] == c;
    } else {
      assert whole[0] == s[0] && whole[1..] == s[1..] + [c] + rest;
      UpToStops(s[1..], c, rest);
      assert s == [s[0]] + s[1..];
    }
  }

  lemma AfterPrefix(prefix: string, rest: string)
    ensures Following(prefix + rest, prefix) == Some(rest)
  {
    assert (prefix + rest)[..|prefix|] == prefix && (prefix + rest)[|prefix|..] == rest;
  }

  /** A canonical amount has no query separator in it. */
  lemma CanonicalHasNoAmpersand(s: string)
    requires Canonical(s)
    ensures '&' !in s
  {
    if !CanonicalWhole(s) {
      var w, f :| CanonicalWhole(w) && CanonicalFraction(f) && s == w + "." + f;
    }
  }

  lemma {:induction false} ReadParts(recipient: string, amount: string, memo: string)
    requires '?' !in recipient && '&' !in amount
    ensures ReadUri("zcash:" + recipient + "?amount=" + amount + "&memo=" + memo)
         == Some(PaymentRequest(recipient, amount, memo))
  {
    hide UpTo, Following;
    var tail := "memo=" + memo;
    var query := amount + ['&'] + tail;
    var body := recipient + ['?'] + ("amount=" + query);
    assert "zcash:" + recipient + "?amount=" + amount + "&memo=" + memo == "zcash:" + body;
    AfterPrefix("zcash:", body);
    UpToStops(recipient, '?', "amount=" + query);
    assert body[|recipient| + 1..] == "amount=" + query;
    AfterPrefix("amount=", query);
    UpToStops(amount, '&', tail);
    assert query[|amount| + 1..] == tail;
    AfterPrefix("memo=", memo);
  }

  /** The URI asks for exactly this: a reader gets back the recipient, the amount to the zatoshi
      and the encoded memo. */
  lemma {:induction false} UriReads(base64: seq<u8> -> string, recipient: string, amountZat: u64, memo: seq<u8>)
    requires '?' !in recipient
    ensures var r := ReadUri(ComposePaymentUri(base64, recipient, amountZat, memo));
            && r.Some? && r.value.recipient == recipient && r.value.memo == base64(memo)
            && ParseZec(r.value.amount) == Some(amountZat) && Canonical(r.value.amount)
  {
    hide FormatZec, ReadUri, ParseZec, Canonical;
    FormatZecRoundTrip(amountZat);
    CanonicalHasNoAmpersand(FormatZec(amountZat));
    ReadParts(recipient, FormatZec(amountZat), base64(memo));
  }
}
