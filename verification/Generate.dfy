/** GenerateEvent and GenerateBulkEvents of internal/producer/producer.go. */
module Generate {
  import opened Models
  import opened Validator
  import opened Decimal

  const MAX_INT64 := 0x7fff_ffff_ffff_ffff

  /** What the code relies on: uuid.New gives version-4 uuids, and a formatted time parses to the same or an earlier one. */
  ghost predicate Sound(codec: Codec, ids: nat -> string) {
    && (forall k :: Uuid4(ids(k)))
    && (forall t: int :: codec.formatRfc3339(t) != "" && FormatRoundsDown(codec, t))
  }

  /** Formatting drops the fraction of a second. */
  predicate FormatRoundsDown(codec: Codec, t: int) {
    var p := ParseTimestamp(codec, codec.formatRfc3339(t));
    p.Some? && p.value <= t
  }

  /** Empty arguments, and an amount that is not positive, are replaced by defaults. */
  function GenerateEvent(codec: Codec, paymentId: string, status: string, amount: real, currency: string,
                         description: string, newId: string, now: int): PaymentEvent {
    PaymentEvent(
      if paymentId == "" then newId else paymentId,
      if status == "" then "confirmed" else status,
      if amount <= 0.0 then 100.0 else amount,
      if currency == "" then "BRL" else currency,
      description,
      codec.formatRfc3339(now))
  }

  /**
   A generated event satisfies every rule, at its creation and at all later times, if and only if the
   arguments that were given satisfy theirs; no amount can break one.
   */
  lemma GeneratedIsValid(codec: Codec, ids: nat -> string, paymentId: string, status: string, amount: real,
                         currency: string, description: string, k: nat, now: int, later: int)
    requires Sound(codec, ids) && now <= later
    ensures var e := GenerateEvent(codec, paymentId, status, amount, currency, description, ids(k), now);
            (FieldsOk(e) && TimestampOk(codec, e.timestamp, later)) <==>
              && (paymentId == "" || Uuid4(paymentId))
              && (status == "" || KnownStatus(status))
              && (currency == "" || CurrencyCode(currency))
              && Description(description)
  {
    assert FormatRoundsDown(codec, now);
    assert Uuid4(ids(k));
    assert CurrencyCode("BRL");
  }

  /** What was given is kept, and what was not is a fresh id, "confirmed", 100 and "BRL". */
  lemma DefaultsFillIn(codec: Codec, paymentId: string, status: string, amount: real, currency: string,
                       description: string, newId: string, now: int)
    ensures var e := GenerateEvent(codec, paymentId, status, amount, currency, description, newId, now);
            && (paymentId != "" ==> e.paymentId == paymentId) && (paymentId == "" ==> e.paymentId == newId)
            && (status != "" ==> e.status == status) && (status == "" ==> e.status == "confirmed")
            && (amount > 0.0 ==> e.amount == amount) && (amount <= 0.0 ==> e.amount == 100.0)
            && (currency != "" ==> e.currency == currency) && (currency == "" ==> e.currency == "BRL")
            && e.description == description && e.timestamp == codec.formatRfc3339(now)
  {
  }

  // ----- in bulk -------------------------------------------------------------------------------

  /** ASCII bytes as a string. */
  function Text(b: Bytes): (s: string)
    ensures |s| == |b| && forall i :: 0 <= i < |b| ==> s[i] as int == b[i] as int
  {
    seq(|b|, i requires 0 <= i < |b| => b[i] as char)
  }

  function BulkDescription(i: nat, count: nat): string {
    "Bulk event " + Text(FormatInt(i + 1)) + " of " + Text(FormatInt(count))
  }

  lemma NumberIsPrintable(n: nat)
    requires n <= MAX_INT64
    ensures |Text(FormatInt(n))| <= 19
    ensures forall k :: 0 <= k < |Text(FormatInt(n))| ==> ' ' <= Text(FormatInt(n))[k] <= '~'
  {
    DigitsParse(n);
    assert Pow10(10) == 10_000_000_000;
    assert Pow10(19) == 10_000_000_000_000_000_000;
    DigitsLength(n, 19);
    forall k | 0 <= k < |Text(FormatInt(n))|
      ensures ' ' <= Text(FormatInt(n))[k] <= '~'
    {
      assert IsDigit(Digits(n)[k]);
    }
  }

  lemma DescriptionOk(i: nat, count: nat)
    requires i < count <= MAX_INT64
    ensures Description(BulkDescription(i, count))
  {
    NumberIsPrintable(i + 1);
    NumberIsPrintable(count);
  }

  /**
   Every event of a bulk satisfies the consumer's rules, at its creation and at all later times, for
   every count; event i has id i of the supply and ten times i + 1 as its amount.
   */
  method GenerateBulkEvents(codec: Codec, ids: nat -> string, clock: nat -> int, count: nat)
      returns (events: array<PaymentEvent>)
    requires Sound(codec, ids) && count <= MAX_INT64
    ensures fresh(events) && events.Length == count
    ensures forall i :: 0 <= i < count ==>
              && events[i].paymentId == ids(i) && events[i].amount == (i + 1) as real * 10.0
              && events[i].status == "confirmed" && events[i].currency == "BRL"
              && events[i].description == "Bulk event " + Text(FormatInt(i + 1)) + " of " + Text(FormatInt(count))
              && events[i].timestamp == codec.formatRfc3339(clock(i))
              && FieldsOk(events[i])
    ensures forall i, t: int :: 0 <= i < count && clock(i) <= t ==> TimestampOk(codec, events[i].timestamp, t)
  {
    events := new PaymentEvent[count];
    for i := 0 to count
      invariant forall k :: 0 <= k < i ==>
                  && events[k].paymentId == ids(k) && events[k].amount == (k + 1) as real * 10.0
                  && events[k].status == "confirmed" && events[k].currency == "BRL"
                  && events[k].description == BulkDescription(k, count)
                  && events[k].timestamp == codec.formatRfc3339(clock(k))
                  && FieldsOk(events[k])
      invariant forall k, t: int :: 0 <= k < i && clock(k) <= t ==> TimestampOk(codec, events[k].timestamp, t)
    {
      assert Uuid4(ids(i));
      var e := GenerateEvent(codec, ids(i), "confirmed", (i + 1) as real * 10.0, "BRL",
                             BulkDescription(i, count), ids(i), clock(i));
      DescriptionOk(i, count);
      assert ids(i) != "";
      assert CurrencyCode("BRL");
      GeneratedIsValid(codec, ids, ids(i), "confirmed", e.amount, "BRL", e.description, i, clock(i), clock(i));
      forall t: int | clock(i) <= t
        ensures TimestampOk(codec, e.timestamp, t)
      {
        GeneratedIsValid(codec, ids, ids(i), "confirmed", e.amount, "BRL", e.description, i, clock(i), t);
      }
      events[i] := e;
    }
  }
}
