/** internal/producer/producer.go: event generation and the paced publishing loop. */
module Producer {
  import opened Wrappers
  import opened Models
  import opened Validator

  const SECOND := 1_000_000_000

  datatype PublishError = ContextDone | MarshalFailed | NotValid(error: ValidationError) | SendFailed

  datatype Outcome = Outcome(event: PaymentEvent, partition: int, offset: int, error: Option<PublishError>)

  /** One call of SendMessage: which event, which bytes, when validated and when sent. */
  datatype Sent = Sent(index: nat, value: Bytes, checkedAt: int, at: int)

  /** What the environment does in iteration i. */
  datatype World = World(
    start: int,                      // when the ticker starts
    doneAtTop: nat -> bool,          // the context is done at the loop's first select
    doneWaiting: nat -> bool,        // or instead of the tick
    work: nat -> nat,                // time from past the selects to the validation
    sendDelay: nat -> nat,           // from the validation to the send
    wake: nat -> nat,                // how late the goroutine runs after a tick it waited for
    broker: nat -> Option<(int, int)>)

  // ----- the ticker ----------------------------------------------------------------------------

  /** seen: the ticks received or dropped by the last receive. */
  datatype Clock = Clock(now: int, seen: nat)

  /** When tick k is due. */
  function Due(start: int, period: nat, k: nat): int {
    start + k * period
  }

  function TicksBy(start: int, period: nat, now: int): int
    requires period > 0
  {
    (now - start) / period
  }

  /**
   A receive from time.Ticker. The channel buffers one tick and drops further ones: with a tick in it
   the receive returns at once; otherwise it returns with the next tick, and ticks that come before
   the goroutine runs again are there for the receive after.
   */
  function Receive(start: int, period: nat, c: Clock, wake: nat): Clock
    requires period > 0
  {
    if TicksBy(start, period, c.now) > c.seen then Clock(c.now, TicksBy(start, period, c.now))
    else Clock(Due(start, period, c.seen + 1) + wake, c.seen + 1)
  }

  lemma MulMonotone(a: int, b: int, period: nat)
    ensures a <= b ==> a * period <= b * period
  {
  }

  lemma DivAtLeast(x: int, k: int, period: nat)
    requires period > 0 && k * period <= x
    ensures x / period >= k
  {
    var q := x / period;
    assert x == q * period + x % period;
    assert x < (q + 1) * period;
    MulMonotone(q + 1, k, period);
  }

  /** Each receive uses up a later tick than the one before, and not before it is due. */
  lemma ReceiveAdvances(start: int, period: nat, c: Clock, wake: nat)
    requires period > 0 && Due(start, period, c.seen) <= c.now
    ensures var c' := Receive(start, period, c, wake);
            c'.seen >= c.seen + 1 && Due(start, period, c'.seen) <= c'.now && c'.now >= c.now
  {
    var q := TicksBy(start, period, c.now);
    assert c.now - start == q * period + (c.now - start) % period;
    MulMonotone(q + 1, c.seen + 1, period);
  }

  // ----- the timeline --------------------------------------------------------------------------

  predicate Sends(codec: Codec, event: PaymentEvent, t: int) {
    codec.encode(event).Some? && Validate(codec, codec.encode(event).value, t).Success?
  }

  /** When iteration i ends, if it got past its selects at this time. */
  function Finished(codec: Codec, world: World, event: PaymentEvent, i: nat, entered: int): int {
    var checkedAt := entered + world.work(i);
    if Sends(codec, event, checkedAt) then checkedAt + world.sendDelay(i) else checkedAt
  }

  /** The clock when iteration i begins, and when it is past its selects, if it comes so far. */
  function Begun(codec: Codec, world: World, events: seq<PaymentEvent>, rate: int, i: nat): Clock
    requires i <= |events| && rate <= SECOND
    decreases i, 0
  {
    if i == 0 then Clock(world.start, 0)
    else
      var c := Entered(codec, world, events, rate, i - 1);
      c.(now := Finished(codec, world, events[i - 1], i - 1, c.now))
  }

  function Entered(codec: Codec, world: World, events: seq<PaymentEvent>, rate: int, i: nat): Clock
    requires i <= |events| && rate <= SECOND
    decreases i, 1
  {
    var c := Begun(codec, world, events, rate, i);
    if rate > 0 && i > 0 then Receive(world.start, SECOND / rate, c, world.wake(i)) else c
  }

  function CheckedAt(codec: Codec, world: World, events: seq<PaymentEvent>, rate: int, i: nat): int
    requires i <= |events| && rate <= SECOND
  {
    Entered(codec, world, events, rate, i).now + world.work(i)
  }

  /** Iteration i is never entered before tick i is due, whatever the delays. */
  lemma {:induction false} EnteredOnTick(codec: Codec, world: World, events: seq<PaymentEvent>, rate: int, i: nat)
    requires i <= |events| && 0 < rate <= SECOND
    ensures var c := Entered(codec, world, events, rate, i);
            && c.seen >= i
            && Due(world.start, SECOND / rate, c.seen) <= c.now
            && Due(world.start, SECOND / rate, i) <= c.now
  {
    var period := SECOND / rate;
    var c := Entered(codec, world, events, rate, i);
    if i > 0 {
      EnteredOnTick(codec, world, events, rate, i - 1);
      ReceiveAdvances(world.start, period, Begun(codec, world, events, rate, i), world.wake(i));
    }
    MulMonotone(i, c.seen, period);
  }

  /** Without delays iteration i is entered exactly at tick i, and so is each event that is sent. */
  lemma {:induction false} NoDelayNoWait(codec: Codec, world: World, events: seq<PaymentEvent>, rate: int, i: nat)
    requires i <= |events| && 0 < rate <= SECOND
    requires forall k :: world.work(k) == world.sendDelay(k) == world.wake(k) == 0
    ensures Entered(codec, world, events, rate, i) == Clock(world.start + i * (1_000_000_000 / rate), i)
    ensures CheckedAt(codec, world, events, rate, i) == world.start + i * (1_000_000_000 / rate)
  {
    if i > 0 {
      NoDelayNoWait(codec, world, events, rate, i - 1);
      var period := SECOND / rate;
      TickIsDue(world.start, period, i - 1);
    }
  }

  lemma TickIsDue(start: int, period: nat, k: nat)
    requires period > 0
    ensures TicksBy(start, period, Due(start, period, k)) == k
    ensures Due(start, period, k + 1) == Due(start, period, k) + period
  {
    var x := k * period;
    assert Due(start, period, k) - start == x;
    DivAtLeast(x, k, period);
    var q := x / period;
    assert x == q * period + x % period;
    if q > k {
      MulMonotone(k + 1, q, period);
    }
  }

  // ----- what came of an event -----------------------------------------------------------------

  function Indices(sent: seq<Sent>): set<nat> {
    set k | 0 <= k < |sent| :: sent[k].index
  }

  lemma IndicesSnoc(sent: seq<Sent>, s: Sent)
    ensures Indices(sent + [s]) == Indices(sent) + {s.index}
  {
    forall i
      ensures i in Indices(sent + [s]) <==> i in Indices(sent) || i == s.index
    {
      if i in Indices(sent) {
        var k :| 0 <= k < |sent| && sent[k].index == i;
        assert (sent + [s])[k].index == i;
      }
      assert (sent + [s])[|sent|] == s;
    }
  }

  /** The context ends the loop in iteration i. */
  predicate Stops(world: World, rate: int, i: nat) {
    world.doneAtTop(i) || (rate > 0 && i > 0 && world.doneWaiting(i))
  }

  /** What the result of event i says, when the loop came to it. attempted: the broker was called. */
  predicate Faithful(codec: Codec, world: World, event: PaymentEvent, i: nat, checkedAt: int, r: Outcome, attempted: bool) {
    r.event == event &&
    match r.error
    case None => attempted && world.broker(i) == Some((r.partition, r.offset))
    case Some(SendFailed) => attempted && world.broker(i) == None
    case Some(MarshalFailed) => !attempted && codec.encode(event) == None
    case Some(NotValid(err)) =>
      !attempted && codec.encode(event).Some? && Validate(codec, codec.encode(event).value, checkedAt) == Failure(err)
    case Some(ContextDone) => !attempted
  }

  /** The broker was given the bytes of this event after they had passed validation. */
  predicate SentOk(codec: Codec, event: PaymentEvent, s: Sent) {
    && codec.encode(event) == Some(s.value)
    && s.checkedAt <= s.at
    && Validate(codec, s.value, s.checkedAt).Success?
  }

  predicate SentAsPlanned(codec: Codec, world: World, event: PaymentEvent, i: nat, checkedAt: int, s: Sent) {
    s.index == i && SentOk(codec, event, s) && s.checkedAt == checkedAt && s.at == checkedAt + world.sendDelay(i)
  }

  /** An iteration past its selects: marshal, validate, send. */
  method PublishOne(codec: Codec, world: World, event: PaymentEvent, i: nat, entered: int)
      returns (r: Outcome, sent: Option<Sent>, now: int)
    ensures now == Finished(codec, world, event, i, entered)
    ensures Faithful(codec, world, event, i, entered + world.work(i), r, sent.Some?) && r.error != Some(ContextDone)
    ensures sent.Some? ==> SentAsPlanned(codec, world, event, i, entered + world.work(i), sent.value)
  {
    now := entered + world.work(i);
    var eventData := codec.encode(event);
    if eventData.None? {
      return Outcome(event, 0, 0, Some(MarshalFailed)), None, now;
    }
    var checkedAt := now;
    var verdict := Validate(codec, eventData.value, checkedAt);
    if verdict.Failure? {
      return Outcome(event, 0, 0, Some(NotValid(verdict.error))), None, now;
    }
    now := now + world.sendDelay(i);
    sent := Some(Sent(i, eventData.value, checkedAt, now));
    match world.broker(i) {
      case None => r := Outcome(event, 0, 0, Some(SendFailed));
      case Some(pair) => r := Outcome(event, pair.0, pair.1, None);
    }
  }

  /** What holds of the results and the sends so far. */
  predicate Corresponds(codec: Codec, world: World, events: seq<PaymentEvent>, rate: int, results: seq<Outcome>, sent: seq<Sent>)
    requires rate <= SECOND
  {
    && |results| <= |events|
    && (forall i :: 0 <= i < |results| ==>
          && Faithful(codec, world, events[i], i, CheckedAt(codec, world, events, rate, i), results[i], i in Indices(sent))
          && (results[i].error == Some(ContextDone) <==> Stops(world, rate, i)))
    && (forall k :: 0 <= k < |sent| ==>
          && sent[k].index < |results|
          && SentAsPlanned(codec, world, events[sent[k].index], sent[k].index,
                           CheckedAt(codec, world, events, rate, sent[k].index), sent[k]))
    && (forall j, k :: 0 <= j < k < |sent| ==> sent[j].index < sent[k].index)
  }

  lemma CorrespondsMore(codec: Codec, world: World, events: seq<PaymentEvent>, rate: int, results: seq<Outcome>,
                        sent: seq<Sent>, r: Outcome, s: Option<Sent>)
    requires rate <= SECOND && Corresponds(codec, world, events, rate, results, sent) && |results| < |events|
    requires var i := |results|;
             var checkedAt := CheckedAt(codec, world, events, rate, i);
             && Faithful(codec, world, events[i], i, checkedAt, r, s.Some?)
             && (r.error == Some(ContextDone) <==> Stops(world, rate, i))
             && (s.Some? ==> SentAsPlanned(codec, world, events[i], i, checkedAt, s.value))
    ensures Corresponds(codec, world, events, rate, results + [r], sent + if s.Some? then [s.value] else [])
  {
    var i := |results|;
    assert i !in Indices(sent);
    if s.Some? {
      IndicesSnoc(sent, s.value);
    } else {
      assert sent + [] == sent;
    }
  }

  /** Result i is about event i, and says whether it was sent, or why not, as the environment had it. */
  predicate Says(codec: Codec, world: World, events: seq<PaymentEvent>, rate: int, results: seq<Outcome>, i: nat)
    requires rate <= SECOND && i < |results| <= |events|
  {
    var data, at := codec.encode(events[i]), CheckedAt(codec, world, events, rate, i);
    var stopped := world.doneAtTop(i) || (rate > 0 && i > 0 && world.doneWaiting(i));
    && results[i].event == events[i]
    && (results[i].error == Some(ContextDone) <==> stopped)
    && match results[i].error
       case None =>
         && data.Some? && Validate(codec, data.value, at).Success?
         && world.broker(i) == Some((results[i].partition, results[i].offset))
       case Some(SendFailed) => data.Some? && Validate(codec, data.value, at).Success? && world.broker(i) == None
       case Some(MarshalFailed) => data == None
       case Some(NotValid(err)) => data.Some? && Validate(codec, data.value, at) == Failure(err)
       case Some(ContextDone) => i == |results| - 1
  }

  /**
   Publish. The results are a prefix in correspondence with the events: the whole list unless the
   context ended the loop, and then up to the first iteration in which it did, whose result says so.
   The broker is called exactly for the events that marshal and pass validation at the time of their
   check, once each and in order.
   */
  method Publish(codec: Codec, world: World, events: seq<PaymentEvent>, rate: int)
      returns (results: seq<Outcome>, sent: seq<Sent>)
    requires rate <= SECOND                       // NewTicker panics on an interval of zero
    ensures Corresponds(codec, world, events, rate, results, sent)
    ensures |results| <= |events|
    ensures forall i :: 0 <= i < |results| ==> Says(codec, world, events, rate, results, i)
    ensures |results| < |events| ==> results != [] && results[|results| - 1].error == Some(ContextDone)
  {
    results, sent := [], [];
    var clock := Clock(world.start, 0);
    for i := 0 to |events|
      invariant |results| == i
      invariant clock == Begun(codec, world, events, rate, i)
      invariant Corresponds(codec, world, events, rate, results, sent)
      invariant forall k :: 0 <= k < i ==> !Stops(world, rate, k)
    {
      if world.doneAtTop(i) {
        results := Stopped(codec, world, events, rate, results, sent);
        CorrespondsMeans(codec, world, events, rate, results, sent);
        return;
      }
      if rate > 0 && i > 0 {
        if world.doneWaiting(i) {
          results := Stopped(codec, world, events, rate, results, sent);
          CorrespondsMeans(codec, world, events, rate, results, sent);
          return;
        }
        clock := Receive(world.start, SECOND / rate, clock, world.wake(i));
      }
      results, sent, clock := PublishNext(codec, world, events, rate, results, sent, clock);
    }
    CorrespondsMeans(codec, world, events, rate, results, sent);
  }

  /** The rest of an iteration that got past its selects. */
  method PublishNext(codec: Codec, world: World, events: seq<PaymentEvent>, rate: int,
                     results: seq<Outcome>, sent: seq<Sent>, clock: Clock)
      returns (results': seq<Outcome>, sent': seq<Sent>, clock': Clock)
    requires rate <= SECOND && Corresponds(codec, world, events, rate, results, sent) && |results| < |events|
    requires !Stops(world, rate, |results|) && clock == Entered(codec, world, events, rate, |results|)
    ensures |results'| == |results| + 1 && Corresponds(codec, world, events, rate, results', sent')
    ensures clock' == Begun(codec, world, events, rate, |results| + 1)
  {
    var i := |results|;
    var r, s, now := PublishOne(codec, world, events[i], i, clock.now);
    CorrespondsMore(codec, world, events, rate, results, sent, r, s);
    results', sent' := results + [r], sent + if s.Some? then [s.value] else [];
    clock' := clock.(now := now);
  }

  /** What the results of a loop that ran to its end or to its context's say, one by one. */
  lemma CorrespondsMeans(codec: Codec, world: World, events: seq<PaymentEvent>, rate: int, results: seq<Outcome>, sent: seq<Sent>)
    requires rate <= SECOND && Corresponds(codec, world, events, rate, results, sent)
    requires forall i :: 0 <= i < |results| - 1 ==> !Stops(world, rate, i)
    ensures forall i :: 0 <= i < |results| ==> Says(codec, world, events, rate, results, i)
  {
    forall i | 0 <= i < |results|
      ensures Says(codec, world, events, rate, results, i)
    {
      if i in Indices(sent) {
        var k :| 0 <= k < |sent| && sent[k].index == i;
        assert SentAsPlanned(codec, world, events[i], i, CheckedAt(codec, world, events, rate, i), sent[k]);
      }
    }
  }

  /** The result with the context's error. */
  method Stopped(codec: Codec, world: World, events: seq<PaymentEvent>, rate: int, results: seq<Outcome>, ghost sent: seq<Sent>)
      returns (all: seq<Outcome>)
    requires rate <= SECOND && Corresponds(codec, world, events, rate, results, sent) && |results| < |events|
    requires Stops(world, rate, |results|)
    ensures Corresponds(codec, world, events, rate, all, sent) && |all| == |results| + 1
  {
    var stopped := Outcome(events[|results|], 0, 0, Some(ContextDone));
    CorrespondsMore(codec, world, events, rate, results, sent, stopped, None);
    assert sent + [] == sent;
    all := results + [stopped];
  }

  // ----- consequences --------------------------------------------------------------------------

  /** Never earlier than i periods after the start for event i. */
  predicate Paced(start: int, period: nat, sent: seq<Sent>) {
    forall k :: 0 <= k < |sent| ==> sent[k].at >= Due(start, period, sent[k].index)
  }

  lemma SentIsPaced(codec: Codec, world: World, events: seq<PaymentEvent>, rate: int, results: seq<Outcome>, sent: seq<Sent>)
    requires 0 < rate <= SECOND && Corresponds(codec, world, events, rate, results, sent)
    ensures Paced(world.start, SECOND / rate, sent)
  {
    forall k | 0 <= k < |sent|
      ensures sent[k].at >= Due(world.start, SECOND / rate, sent[k].index)
    {
      EnteredOnTick(codec, world, events, rate, sent[k].index);
    }
  }

  /** The number of sends at or before time t. */
  function SentBy(sent: seq<Sent>, t: int): nat {
    if sent == [] then 0
    else SentBy(sent[..|sent| - 1], t) + if sent[|sent| - 1].at <= t then 1 else 0
  }

  /** SentBy counts the sends at or before t, each once. */
  lemma {:induction false} SentByCounts(sent: seq<Sent>, t: int)
    ensures SentBy(sent, t) == |set k | 0 <= k < |sent| && sent[k].at <= t|
  {
    var all := set k | 0 <= k < |sent| && sent[k].at <= t;
    if sent != [] {
      var n := |sent| - 1;
      SentByCounts(sent[..n], t);
      var before := set k | 0 <= k < |sent[..n]| && sent[..n][k].at <= t;
      assert all == before + if sent[n].at <= t then {n} else {};
    }
  }

  lemma {:induction false} SentByIndex(start: int, period: nat, sent: seq<Sent>, t: int)
    requires period > 0 && t >= start && Paced(start, period, sent)
    requires forall j, k :: 0 <= j < k < |sent| ==> sent[j].index < sent[k].index
    ensures SentBy(sent, t) <= 1 + (t - start) / period
    ensures sent != [] ==> SentBy(sent, t) <= sent[|sent| - 1].index + 1
  {
    if sent != [] {
      var n := |sent| - 1;
      SentByIndex(start, period, sent[..n], t);
      if sent[n].at <= t {
        DivAtLeast(t - start, sent[n].index, period);
      }
    }
  }

  /**
   Rate limit: Publish sends event i never earlier than i periods after the ticker's start, and by any
   time t it has made at most 1 + (t - start) / period sends, for every rate, every list of events and
   all processing and scheduling delays.
   */
  method PublishWithinRate(codec: Codec, world: World, events: seq<PaymentEvent>, rate: int)
      returns (results: seq<Outcome>, sent: seq<Sent>)
    requires 0 < rate <= SECOND
    ensures Corresponds(codec, world, events, rate, results, sent)
    ensures forall k :: 0 <= k < |sent| ==> sent[k].at >= world.start + sent[k].index * (1_000_000_000 / rate)
    ensures forall t: int :: t >= world.start ==> SentBy(sent, t) <= 1 + (t - world.start) / (1_000_000_000 / rate)
  {
    results, sent := Publish(codec, world, events, rate);
    SentIsPaced(codec, world, events, rate, results, sent);
    forall t: int | t >= world.start
      ensures SentBy(sent, t) <= 1 + (t - world.start) / (1_000_000_000 / rate)
    {
      SentByIndex(world.start, SECOND / rate, sent, t);
    }
  }

  /**
   Producer acceptance implies consumer acceptance: bytes that Publish sent pass the consumer's
   validation, with the same event, at every time not before the producer's check.
   */
  lemma SentBytesValidate(codec: Codec, event: PaymentEvent, s: Sent, later: int)
    requires SentOk(codec, event, s) && s.checkedAt <= later
    ensures Validate(codec, s.value, later).Success?
    ensures Validate(codec, s.value, later) == Validate(codec, s.value, s.checkedAt)
  {
    ValidStaysValid(codec, s.value, s.checkedAt, later);
  }
}
