/** internal/dlq/producer.go: the dead-letter envelope and its one-shot send. */
module Dlq {
  import opened Wrappers
  import opened Models
  import opened Decimal

  datatype ProducerMessage = ProducerMessage(topic: Bytes, key: Bytes, value: Bytes, headers: seq<Header>)

  /** The bytes of an ASCII literal. */
  function Ascii(s: string): Bytes
    requires forall i :: 0 <= i < |s| ==> s[i] as int < 128
  {
    seq(|s|, i requires 0 <= i < |s| => s[i] as int as byte)
  }

  const ORIGINAL_TOPIC := Ascii("original_topic")
  const ORIGINAL_PARTITION := Ascii("original_partition")
  const ORIGINAL_OFFSET := Ascii("original_offset")
  const ERROR_COUNT := Ascii("error_count")
  const LAST_ERROR := Ascii("last_error")
  const DLQ_TIMESTAMP := Ascii("dlq_timestamp")
  const TRACE_ID := Ascii("trace_id")

  // ----- the envelope --------------------------------------------------------------------------

  function NewHeaders(msg: Message, err: Bytes, timestamp: Bytes, traceId: Bytes): seq<Header> {
    [Header(ORIGINAL_TOPIC, msg.topic),
     Header(ORIGINAL_PARTITION, FormatInt(msg.partition)),
     Header(ORIGINAL_OFFSET, FormatInt(msg.offset)),
     Header(ERROR_COUNT, Ascii("3")),
     Header(LAST_ERROR, err),
     Header(DLQ_TIMESTAMP, timestamp)]
    + if traceId == [] then [] else [Header(TRACE_ID, traceId)]
  }

  /** The headers that are not nil, in order. */
  function Present(headers: seq<Option<Header>>): seq<Header> {
    if headers == [] then []
    else
      var last := headers[|headers| - 1];
      Present(headers[..|headers| - 1]) + if last.Some? then [last.value] else []
  }

  /** Headers none of which is nil are all kept, in their places. */
  lemma {:induction false} PresentKeepsAll(headers: seq<Option<Header>>)
    requires forall i :: 0 <= i < |headers| ==> headers[i].Some?
    ensures |Present(headers)| == |headers|
    ensures forall i :: 0 <= i < |headers| ==> Present(headers)[i] == headers[i].value
  {
    if headers != [] {
      PresentKeepsAll(headers[..|headers| - 1]);
    }
  }

  /** A nil header makes no difference, wherever it stands. */
  lemma {:induction false} PresentSkipsNil(a: seq<Option<Header>>, b: seq<Option<Header>>)
    ensures Present(a + [None] + b) == Present(a + b)
  {
    if b == [] {
      assert a + [None] + b == a + [None] && a + b == a;
      assert (a + [None])[..|a|] == a;
    } else {
      var n := |b| - 1;
      PresentSkipsNil(a, b[..n]);
      assert (a + [None] + b)[..|a| + 1 + n] == a + [None] + b[..n];
      assert (a + b)[..|a| + n] == a + b[..n];
    }
  }

  /** Build the dead letter: key and value as they were, the message's headers, then the new ones. */
  method BuildEnvelope(dlqTopic: Bytes, msg: Message, err: Bytes, timestamp: Bytes, traceId: Bytes)
      returns (dlqMsg: ProducerMessage)
    ensures dlqMsg.topic == dlqTopic && dlqMsg.key == msg.key && dlqMsg.value == msg.value
    ensures dlqMsg.headers == Present(msg.headers) + NewHeaders(msg, err, timestamp, traceId)
  {
    var newHeaders := [
      Header(ORIGINAL_TOPIC, msg.topic),
      Header(ORIGINAL_PARTITION, FormatInt(msg.partition)),
      Header(ORIGINAL_OFFSET, FormatInt(msg.offset)),
      Header(ERROR_COUNT, Ascii("3")),
      Header(LAST_ERROR, err),
      Header(DLQ_TIMESTAMP, timestamp)];
    if traceId != [] {
      newHeaders := newHeaders + [Header(TRACE_ID, traceId)];
    }
    var allHeaders: seq<Header> := [];
    for i := 0 to |msg.headers|
      invariant allHeaders == Present(msg.headers[..i])
    {
      assert msg.headers[..i + 1][..i] == msg.headers[..i];
      if msg.headers[i].Some? {
        allHeaders := allHeaders + [msg.headers[i].value];
      }
    }
    assert msg.headers[..|msg.headers|] == msg.headers;
    dlqMsg := ProducerMessage(dlqTopic, msg.key, msg.value, allHeaders + newHeaders);
  }

  // ----- reading it back -----------------------------------------------------------------------

  /** The value of the last header with this key. */
  function Last(headers: seq<Header>, key: Bytes): Option<Bytes> {
    if headers == [] then None
    else if headers[|headers| - 1].key == key then Some(headers[|headers| - 1].value)
    else Last(headers[..|headers| - 1], key)
  }

  lemma {:induction false} LastOfNew(a: seq<Header>, b: seq<Header>, key: Bytes)
    ensures Last(a + b, key) == if Last(b, key).Some? then Last(b, key) else Last(a, key)
  {
    if b == [] {
      assert a + b == a;
    } else {
      assert (a + b)[..|a + b| - 1] == a + b[..|b| - 1];
      LastOfNew(a, b[..|b| - 1], key);
    }
  }

  datatype Source = Source(topic: Bytes, partition: int, offset: int)

  function Recover(headers: seq<Header>): Option<Source> {
    match (Last(headers, ORIGINAL_TOPIC), Last(headers, ORIGINAL_PARTITION), Last(headers, ORIGINAL_OFFSET))
    case (Some(t), Some(p), Some(o)) =>
      (match (ParseInt(p), ParseInt(o))
       case (Some(partition), Some(offset)) => Some(Source(t, partition, offset))
       case _ => None)
    case _ => None
  }

  lemma NamesDiffer()
    ensures ORIGINAL_TOPIC[9] == 116 && ORIGINAL_PARTITION[9] == 112 && ORIGINAL_OFFSET[9] == 111
    ensures |ORIGINAL_TOPIC| == 14 && |ORIGINAL_PARTITION| == 18 && |ORIGINAL_OFFSET| == 15
    ensures |ERROR_COUNT| == 11 && |LAST_ERROR| == 10 && |DLQ_TIMESTAMP| == 13 && |TRACE_ID| == 8
  {
  }

  lemma LastStep(headers: seq<Header>, h: Header, key: Bytes)
    ensures Last(headers + [h], key) == if h.key == key then Some(h.value) else Last(headers, key)
  {
    assert (headers + [h])[..|headers|] == headers;
  }

  lemma NewHeadersName(msg: Message, err: Bytes, timestamp: Bytes, traceId: Bytes)
    ensures var hs := NewHeaders(msg, err, timestamp, traceId);
            && Last(hs, ORIGINAL_TOPIC) == Some(msg.topic)
            && Last(hs, ORIGINAL_PARTITION) == Some(FormatInt(msg.partition))
            && Last(hs, ORIGINAL_OFFSET) == Some(FormatInt(msg.offset))
  {
    NamesDiffer();
    var h1 := [Header(ORIGINAL_TOPIC, msg.topic)];
    var h2 := h1 + [Header(ORIGINAL_PARTITION, FormatInt(msg.partition))];
    var h3 := h2 + [Header(ORIGINAL_OFFSET, FormatInt(msg.offset))];
    var h4 := h3 + [Header(ERROR_COUNT, Ascii("3"))];
    var h5 := h4 + [Header(LAST_ERROR, err)];
    var h6 := h5 + [Header(DLQ_TIMESTAMP, timestamp)];
    forall key: Bytes | key == ORIGINAL_TOPIC || key == ORIGINAL_PARTITION || key == ORIGINAL_OFFSET
      ensures Last(NewHeaders(msg, err, timestamp, traceId), key) == Last(h3, key)
    {
      LastStep(h3, Header(ERROR_COUNT, Ascii("3")), key);
      LastStep(h4, Header(LAST_ERROR, err), key);
      LastStep(h5, Header(DLQ_TIMESTAMP, timestamp), key);
      LastStep(h6, Header(TRACE_ID, traceId), key);
      assert NewHeaders(msg, err, timestamp, traceId) == h6 + if traceId == [] then [] else [Header(TRACE_ID, traceId)];
      assert h6 + [] == h6;
    }
    forall key: Bytes
      ensures Last(h3, key) == if key == ORIGINAL_OFFSET then Some(FormatInt(msg.offset))
                               else if key == ORIGINAL_PARTITION then Some(FormatInt(msg.partition))
                               else if key == ORIGINAL_TOPIC then Some(msg.topic) else None
    {
      LastStep([], Header(ORIGINAL_TOPIC, msg.topic), key);
      assert [] + h1 == h1;
      LastStep(h1, Header(ORIGINAL_PARTITION, FormatInt(msg.partition)), key);
      LastStep(h2, Header(ORIGINAL_OFFSET, FormatInt(msg.offset)), key);
    }
  }

  /**
   The source coordinates are recovered exactly from the last headers of their names, for every
   topic, partition and offset, also when the message already carried such headers because it was a
   dead letter itself.
   */
  lemma EnvelopeRoundTrips(msg: Message, err: Bytes, timestamp: Bytes, traceId: Bytes)
    ensures Recover(Present(msg.headers) + NewHeaders(msg, err, timestamp, traceId))
            == Some(Source(msg.topic, msg.partition, msg.offset))
    ensures var headers := Present(msg.headers) + NewHeaders(msg, err, timestamp, traceId);
            && Last(headers, Ascii("original_topic")) == Some(msg.topic)
            && Last(headers, Ascii("original_partition")) == Some(FormatInt(msg.partition))
            && Last(headers, Ascii("original_offset")) == Some(FormatInt(msg.offset))
  {
    var old_, new_ := Present(msg.headers), NewHeaders(msg, err, timestamp, traceId);
    NewHeadersName(msg, err, timestamp, traceId);
    LastOfNew(old_, new_, ORIGINAL_TOPIC);
    LastOfNew(old_, new_, ORIGINAL_PARTITION);
    LastOfNew(old_, new_, ORIGINAL_OFFSET);
    FormatParses(msg.partition);
    FormatParses(msg.offset);
  }

  /** What the headers after the first four leave to read under a key that is none of theirs, and under their own. */
  lemma TailReads(hs: seq<Header>, err: Bytes, timestamp: Bytes, traceId: Bytes)
    ensures var all := hs + [Header(LAST_ERROR, err)] + [Header(DLQ_TIMESTAMP, timestamp)]
                       + (if traceId == [] then [] else [Header(TRACE_ID, traceId)]);
            && Last(all, LAST_ERROR) == Some(err) && Last(all, DLQ_TIMESTAMP) == Some(timestamp)
            && Last(all, TRACE_ID) == if traceId == [] then Last(hs, TRACE_ID) else Some(traceId)
  {
    NamesDiffer();
    var h5 := hs + [Header(LAST_ERROR, err)];
    var h6 := h5 + [Header(DLQ_TIMESTAMP, timestamp)];
    assert h6 + [] == h6;
    forall key: Bytes
      ensures Last(h6, key) == if key == DLQ_TIMESTAMP then Some(timestamp) else if key == LAST_ERROR then Some(err) else Last(hs, key)
      ensures Last(h6 + [Header(TRACE_ID, traceId)], key) == if key == TRACE_ID then Some(traceId) else Last(h6, key)
    {
      LastStep(hs, Header(LAST_ERROR, err), key);
      LastStep(h5, Header(DLQ_TIMESTAMP, timestamp), key);
      LastStep(h6, Header(TRACE_ID, traceId), key);
    }
  }

  /** The error and the time can be read back from the dead letter, and the trace if there is one. */
  lemma ReasonIsReadBack(msg: Message, err: Bytes, timestamp: Bytes, traceId: Bytes)
    ensures var headers := Present(msg.headers) + NewHeaders(msg, err, timestamp, traceId);
            && Last(headers, Ascii("last_error")) == Some(err)
            && Last(headers, Ascii("dlq_timestamp")) == Some(timestamp)
            && (traceId != [] ==> Last(headers, Ascii("trace_id")) == Some(traceId))
            && |headers| == |Present(msg.headers)| + (if traceId == [] then 6 else 7)
  {
    var hs := Present(msg.headers) + [
      Header(ORIGINAL_TOPIC, msg.topic), Header(ORIGINAL_PARTITION, FormatInt(msg.partition)),
      Header(ORIGINAL_OFFSET, FormatInt(msg.offset)), Header(ERROR_COUNT, Ascii("3"))];
    TailReads(hs, err, timestamp, traceId);
    assert Present(msg.headers) + NewHeaders(msg, err, timestamp, traceId)
           == hs + [Header(LAST_ERROR, err)] + [Header(DLQ_TIMESTAMP, timestamp)]
              + (if traceId == [] then [] else [Header(TRACE_ID, traceId)]);
  }

  // ----- the send ------------------------------------------------------------------------------

  datatype SendError = Cancelled | SendFailed

  /** The dead-letter topic, and the sends whose goroutine has not finished. */
  class Broker {
    var accepted: seq<ProducerMessage>
    var unfinished: seq<ProducerMessage>

    constructor ()
      ensures accepted == [] && unfinished == []
    {
      accepted, unfinished := [], [];
    }
  }

  /**
   What becomes of the send and of the wait for it: whether the goroutine finishes by then, whether the
   broker appended the message, whether it said so, and whether the select takes the context's case.
   */
  datatype Fate = Fate(finished: bool, appended: bool, ok: bool, contextWins: bool)

  /**
   Start one send in a goroutine and wait for its result or for the context. The result is nil exactly
   when the send finished, the broker answered well and the context did not win; then the broker
   accepted exactly this message. An error leaves it accepted once or not at all: the producer waits
   for the local broker only, and its answer can be lost after the append. When the context wins, the
   send may also still happen once.
   */
  method SendWithContext(broker: Broker, msg: ProducerMessage, fate: Fate) returns (err: Option<SendError>)
    modifies broker
    ensures err.None? <==> fate.finished && fate.ok && !fate.contextWins
    ensures err == Some(Cancelled) <==> !fate.finished || fate.contextWins
    ensures broker.accepted == old(broker.accepted) + if fate.finished && (fate.ok || fate.appended) then [msg] else []
    ensures broker.unfinished == old(broker.unfinished) + if fate.finished then [] else [msg]
  {
    var result: seq<bool> := [];              // the one-slot channel
    if fate.finished {
      if fate.ok || fate.appended {
        broker.accepted := broker.accepted + [msg];
      }
      result := [fate.ok];
    } else {
      broker.unfinished := broker.unfinished + [msg];
    }
    if fate.contextWins || result == [] {
      return Some(Cancelled);
    }
    return if result[0] then None else Some(SendFailed);
  }

  /** Publish: the envelope, sent at most once. */
  method Publish(broker: Broker, dlqTopic: Bytes, msg: Message, errText: Bytes, timestamp: Bytes, traceId: Bytes, fate: Fate)
      returns (err: Option<SendError>)
    modifies broker
    ensures err.None? <==> fate.finished && fate.ok && !fate.contextWins
    ensures |broker.accepted| + |broker.unfinished| <= |old(broker.accepted)| + |old(broker.unfinished)| + 1
    ensures old(broker.accepted) <= broker.accepted && old(broker.unfinished) <= broker.unfinished
    ensures err.None? ==>
              && |broker.accepted| == |old(broker.accepted)| + 1
              && var letter := broker.accepted[|old(broker.accepted)|];
                 && letter.topic == dlqTopic && letter.key == msg.key && letter.value == msg.value
                 && letter.headers == Present(msg.headers) + NewHeaders(msg, errText, timestamp, traceId)
                 && Recover(letter.headers) == Some(Source(msg.topic, msg.partition, msg.offset))
  {
    var letter := BuildEnvelope(dlqTopic, msg, errText, timestamp, traceId);
    EnvelopeRoundTrips(msg, errText, timestamp, traceId);
    err := SendWithContext(broker, letter, fate);
  }
}
