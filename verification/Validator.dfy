/** internal/validator and the rules in the tags of models.PaymentEvent. Times are in nanoseconds. */
module Validator {
  import opened Wrappers
  import opened Models

  const MAX_PAYLOAD_SIZE := 10 * 1024
  const MAX_SKEW := 5 * 60 * 1_000_000_000

  /** The library functions the code calls; only their results matter here. */
  datatype Codec = Codec(
    encode: PaymentEvent -> Option<Bytes>,        // json.Marshal
    decode: Bytes -> Option<PaymentEvent>,        // json.Unmarshal
    parseRfc3339: string -> Option<int>,          // time.Parse(time.RFC3339, _)
    parseRfc3339Nano: string -> Option<int>,
    formatRfc3339: int -> string)

  datatype ValidationError = TooLarge(size: nat) | EmptyPayload | Malformed | RuleBroken

  // ----- field rules ---------------------------------------------------------------------------

  predicate LowerHex(c: char) {
    '0' <= c <= '9' || 'a' <= c <= 'f'
  }

  /** uuid4: 8-4-4-4-12 hexadecimal digits with version 4 and variant 8, 9, a or b. */
  predicate Uuid4(s: string) {
    && |s| == 36
    && s[8] == s[13] == s[18] == s[23] == '-'
    && s[14] == '4' && (s[19] == '8' || s[19] == '9' || s[19] == 'a' || s[19] == 'b')
    && forall i :: 0 <= i < 36 && i != 8 && i != 13 && i != 18 && i != 23 ==> LowerHex(s[i])
  }

  predicate KnownStatus(s: string) {
    s == "pending" || s == "confirmed" || s == "failed" || s == "refunded"
  }

  predicate CurrencyCode(s: string) {
    |s| == 3 && forall i :: 0 <= i < 3 ==> !('a' <= s[i] <= 'z')
  }

  /** The custom printascii rule, on a description that may be empty. */
  predicate Description(s: string) {
    |s| <= 255 && forall i :: 0 <= i < |s| ==> ' ' <= s[i] <= '~'
  }

  function ParseTimestamp(codec: Codec, s: string): Option<int> {
    var t := codec.parseRfc3339(s);
    if t.Some? then t else codec.parseRfc3339Nano(s)
  }

  /** The custom rfc3339 rule: a timestamp no later than five minutes from now. */
  predicate TimestampOk(codec: Codec, s: string, now: int) {
    var t := ParseTimestamp(codec, s);
    s != "" && t.Some? && t.value <= now + MAX_SKEW
  }

  predicate FieldsOk(e: PaymentEvent) {
    && Uuid4(e.paymentId) && KnownStatus(e.status) && e.amount > 0.0
    && CurrencyCode(e.currency) && Description(e.description)
  }

  function Validate(codec: Codec, data: Bytes, now: int): Result<PaymentEvent, ValidationError> {
    if |data| > MAX_PAYLOAD_SIZE then Failure(TooLarge(|data|))
    else if data == [] then Failure(EmptyPayload)
    else
      match codec.decode(data)
      case None => Failure(Malformed)
      case Some(e) =>
        if FieldsOk(e) && TimestampOk(codec, e.timestamp, now) then Success(e) else Failure(RuleBroken)
  }

  // ----- what is accepted ----------------------------------------------------------------------

  predicate AllIn(s: string, chars: string) {
    forall c :: c in s ==> c in chars
  }

  const HEX := "0123456789abcdef"

  /** The parts of a version-4 uuid: 8, 4, 3, 4 and 12 hexadecimal digits, the fourth part starting with 8, 9, a or b. */
  predicate UuidParts(id: string, a: string, b: string, c: string, d: string, f: string) {
    && id == a + "-" + b + "-4" + c + "-" + d + "-" + f
    && |a| == 8 && |b| == 4 && |c| == 3 && |d| == 4 && |f| == 12
    && AllIn(a, HEX) && AllIn(b, HEX) && AllIn(c, HEX) && AllIn(d, HEX) && AllIn(f, HEX)
    && d[0] in "89ab"
  }

  lemma HexIsInRange(c: char)
    ensures LowerHex(c) <==> c in HEX
  {
    assert HEX[0] == '0' && HEX[1] == '1' && HEX[2] == '2' && HEX[3] == '3' && HEX[4] == '4' && HEX[5] == '5';
    assert HEX[6] == '6' && HEX[7] == '7' && HEX[8] == '8' && HEX[9] == '9' && HEX[10] == 'a' && HEX[11] == 'b';
    assert HEX[12] == 'c' && HEX[13] == 'd' && HEX[14] == 'e' && HEX[15] == 'f';
  }

  lemma HexSlice(s: string, lo: nat, hi: nat)
    requires lo <= hi <= |s|
    ensures AllIn(s[lo..hi], HEX) <==> forall i :: lo <= i < hi ==> LowerHex(s[i])
  {
    forall c: char
      ensures LowerHex(c) <==> c in HEX
    {
      HexIsInRange(c);
    }
    forall i | lo <= i < hi
      ensures s[i] in s[lo..hi]
    {
      assert s[lo..hi][i - lo] == s[i];
    }
  }

  lemma UuidSplits(s: string)
    requires |s| == 36
    ensures s == s[..8] + [s[8]] + s[9..13] + [s[13], s[14]] + s[15..18] + [s[18]] + s[19..23] + [s[23]] + s[24..]
  {
  }

  /** The uuid rule accepts exactly the strings that are made of such parts. */
  lemma UuidIsParts(s: string)
    ensures Uuid4(s) <==> exists a, b, c, d, f :: UuidParts(s, a, b, c, d, f)
  {
    if Uuid4(s) {
      UuidSplits(s);
      HexSlice(s, 0, 8);
      HexSlice(s, 9, 13);
      HexSlice(s, 15, 18);
      HexSlice(s, 19, 23);
      HexSlice(s, 24, 36);
      assert s[..8] == s[0..8] && s[24..] == s[24..36];
      assert UuidParts(s, s[..8], s[9..13], s[15..18], s[19..23], s[24..]);
    }
    if a, b, c, d, f :| UuidParts(s, a, b, c, d, f) {
      PartsAreUuid(s, a, b, c, d, f);
    }
  }

  lemma PartsAreUuid(s: string, a: string, b: string, c: string, d: string, f: string)
    requires UuidParts(s, a, b, c, d, f)
    ensures Uuid4(s)
  {
    assert s[0..8] == a && s[9..13] == b && s[15..18] == c && s[19..23] == d && s[24..36] == f;
    HexSlice(s, 0, 8);
    HexSlice(s, 9, 13);
    HexSlice(s, 15, 18);
    HexSlice(s, 19, 23);
    HexSlice(s, 24, 36);
    assert s[19] == d[0];
  }

  /**
   Exactly what is accepted. A payload of 1 to 10240 bytes that decodes to e is valid at a time if and
   only if e's payment id is a version-4 uuid, its status is one of the four, its amount is positive,
   its currency has three characters and no lower-case letter, its description has at most 255
   characters, all printable ASCII, and its timestamp parses to no more than five minutes later.
   */
  lemma ValidExactlyWhen(codec: Codec, data: Bytes, now: int, e: PaymentEvent)
    requires 0 < |data| <= 10240 && codec.decode(data) == Some(e)
    ensures Validate(codec, data, now).Success? <==>
              && (exists a, b, c, d, f :: UuidParts(e.paymentId, a, b, c, d, f))
              && e.status in {"pending", "confirmed", "failed", "refunded"}
              && 0.0 < e.amount
              && |e.currency| == 3 && (forall ch :: ch in e.currency ==> ch !in "abcdefghijklmnopqrstuvwxyz")
              && |e.description| <= 255 && (forall ch :: ch in e.description ==> 32 <= ch as int <= 126)
              && e.timestamp != ""
              && (match codec.parseRfc3339(e.timestamp)
                  case Some(t) => t <= now + 300_000_000_000
                  case None =>
                    match codec.parseRfc3339Nano(e.timestamp)
                    case Some(t) => t <= now + 300_000_000_000
                    case None => false)
    ensures Validate(codec, data, now).Success? ==> Validate(codec, data, now).value == e
    ensures Validate(codec, data, now).Failure? ==> Validate(codec, data, now).error == RuleBroken
  {
    UuidIsParts(e.paymentId);
    CurrencyExactlyWhen(e.currency);
    DescriptionExactlyWhen(e.description);
  }

  lemma CurrencyExactlyWhen(s: string)
    ensures CurrencyCode(s) <==> |s| == 3 && forall ch :: ch in s ==> ch !in "abcdefghijklmnopqrstuvwxyz"
  {
    var lower := "abcdefghijklmnopqrstuvwxyz";
    forall ch: char
      ensures 'a' <= ch <= 'z' <==> ch in lower
    {
      LowerCase(ch);
    }
    forall i | 0 <= i < |s|
      ensures s[i] in s
    {
    }
  }

  lemma LowerCase(ch: char)
    ensures 'a' <= ch <= 'z' <==> ch in "abcdefghijklmnopqrstuvwxyz"
  {
    var lower := "abcdefghijklmnopqrstuvwxyz";
    assert forall i :: 0 <= i < 26 ==> lower[i] as int == 'a' as int + i;
    if 'a' <= ch <= 'z' {
      assert lower[ch as int - 'a' as int] == ch;
    }
  }

  lemma DescriptionExactlyWhen(s: string)
    ensures Description(s) <==> |s| <= 255 && forall ch :: ch in s ==> 32 <= ch as int <= 126
  {
    if forall ch :: ch in s ==> 32 <= ch as int <= 126 {
      forall i | 0 <= i < |s|
        ensures ' ' <= s[i] <= '~'
      {
        assert s[i] in s;
      }
    }
  }

  /** And what is rejected before the rules are looked at. */
  lemma RejectedUnread(codec: Codec, data: Bytes, now: int)
    ensures Validate(codec, data, now) == Failure(TooLarge(|data|)) <==> |data| > 10240
    ensures Validate(codec, data, now) == Failure(EmptyPayload) <==> data == []
    ensures Validate(codec, data, now) == Failure(Malformed) <==> 0 < |data| <= 10240 && codec.decode(data).None?
  {
  }

  // ----- time ----------------------------------------------------------------------------------

  /**
   The clock can only turn a rejection into an acceptance, never the other way, and never changes
   the event: once valid, valid with the same event at every later time.
   */
  lemma ValidStaysValid(codec: Codec, data: Bytes, now: int, later: int)
    requires now <= later && Validate(codec, data, now).Success?
    ensures Validate(codec, data, later) == Validate(codec, data, now)
  {
  }

  /**
   When a rejected message would be accepted: at a later time it passes if and only if the timestamp
   rule was the only one it broke and its timestamp has come within the skew by then.
   */
  lemma RejectionIsFinalUnlessEarly(codec: Codec, data: Bytes, now: int, later: int)
    requires now <= later && Validate(codec, data, now).Failure?
    ensures Validate(codec, data, later).Success? <==>
              && 0 < |data| <= MAX_PAYLOAD_SIZE && codec.decode(data).Some?
              && var e := codec.decode(data).value;
                 && FieldsOk(e) && e.timestamp != ""
                 && ParseTimestamp(codec, e.timestamp).Some?
                 && now + MAX_SKEW < ParseTimestamp(codec, e.timestamp).value <= later + MAX_SKEW
  {
  }
}
