/**
 Redis and DynamoDB as the consumer uses them. The functions say what a request does once it runs
 on the server; the repository objects that send the requests are in Backends.
 */
module Stores {
  import opened Wrappers
  import opened Models

  // ----- Redis keys ---------------------------------------------------------------------------

  datatype RedisKey = MarkKey(id: string) | StatusKey(id: string) | DlqCountKey

  /** The key as it is sent to Redis. */
  function Render(k: RedisKey): string {
    match k
    case MarkKey(id) => "idempotency:" + id
    case StatusKey(id) => "payment:" + id
    case DlqCountKey => "dlq:count"
  }

  /**
   Two keys of the consumer are the same string only when they are the same key of the same
   family, whatever the payment ids are. CommandsAgree below is what that is for.
   */
  lemma RenderInjective(k1: RedisKey, k2: RedisKey)
    ensures Render(k1) == Render(k2) <==> k1 == k2
  {
    if Render(k1) == Render(k2) {
      assert Render(k1)[0] == Render(k2)[0];
      match k1
      case MarkKey(id) =>
        assert id == Render(k1)[12..] && k2.id == Render(k2)[12..];
      case StatusKey(id) =>
        assert id == Render(k1)[8..] && k2.id == Render(k2)[8..];
      case DlqCountKey =>
    }
  }

  // ----- Redis commands -----------------------------------------------------------------------

  /** None is a key without expiry; Some(t) is gone from t on. */
  type Expiry = Option<nat>

  predicate Live(x: Expiry, now: nat) {
    x.None? || now < x.value
  }

  datatype StatusEntry = StatusEntry(fields: PaymentStatus, expiry: Expiry)

  datatype Redis = Redis(marks: map<string, Expiry>, statuses: map<string, StatusEntry>, dlqCount: int)

  /** EXISTS idempotency:<id> */
  predicate MarkLive(r: Redis, now: nat, id: string) {
    id in r.marks && Live(r.marks[id], now)
  }

  /** SET idempotency:<id> 1 NX with a time to live; zero means no expiry, as in go-redis. */
  function SetNX(r: Redis, now: nat, id: string, ttl: nat): Redis {
    if MarkLive(r, now, id) then r
    else r.(marks := r.marks[id := ExpiryOf(ttl, now)])
  }

  /** HSET payment:<id> with the three fields; a live key keeps its expiry. */
  function HSet(r: Redis, now: nat, id: string, status: string): Redis {
    var expiry := if id in r.statuses && Live(r.statuses[id].expiry, now) then r.statuses[id].expiry else None;
    r.(statuses := r.statuses[id := StatusEntry(PaymentStatus(id, status, now), expiry)])
  }

  /** EXPIRE payment:<id>; Redis deletes the key at once when the time to live is zero. */
  function Expire(r: Redis, now: nat, id: string, ttl: nat): Redis {
    if id !in r.statuses || !Live(r.statuses[id].expiry, now) then r
    else if ttl == 0 then r.(statuses := r.statuses - {id})
    else r.(statuses := r.statuses[id := r.statuses[id].(expiry := Some(now + ttl))])
  }

  /** INCR dlq:count */
  function Incr(r: Redis): Redis {
    r.(dlqCount := r.dlqCount + 1)
  }

  /** The status a reader finds under payment:<id>. */
  function StatusOf(r: Redis, now: nat, id: string): Option<string> {
    if id in r.statuses && Live(r.statuses[id].expiry, now) then Some(r.statuses[id].fields.status) else None
  }

  // ----- one keyspace --------------------------------------------------------------------------

  /** What a Redis key can hold. */
  datatype Entry = MarkEntry(expiry: Expiry) | HashEntry(status: StatusEntry) | CountEntry(n: int)

  type Keyspace = map<string, Entry>

  /** What the keyspace holds under a key, for any rendering of keys. */
  function Get(render: RedisKey -> string, flat: Keyspace, k: RedisKey): Option<Entry> {
    if render(k) in flat then Some(flat[render(k)]) else None
  }

  /** What the record Redis says is there. A counter that was never incremented reads as zero. */
  function EntryOf(r: Redis, k: RedisKey): Option<Entry> {
    match k
    case MarkKey(id) => if id in r.marks then Some(MarkEntry(r.marks[id])) else None
    case StatusKey(id) => if id in r.statuses then Some(HashEntry(r.statuses[id])) else None
    case DlqCountKey => if r.dlqCount == 0 then None else Some(CountEntry(r.dlqCount))
  }

  /** The three families inside Redis' one keyspace. */
  ghost predicate Represents(render: RedisKey -> string, flat: Keyspace, r: Redis) {
    forall k: RedisKey ::
      Get(render, flat, k) == EntryOf(r, k) || (k == DlqCountKey && Get(render, flat, k) == Some(CountEntry(0)) && r.dlqCount == 0)
  }

  /** The keyspace after one key was written, or deleted. */
  function Put(render: RedisKey -> string, flat: Keyspace, k: RedisKey, e: Option<Entry>): Keyspace {
    if e.Some? then flat[render(k) := e.value] else flat - {render(k)}
  }

  /** The record Redis after one key was written, or deleted. */
  function WithEntry(r: Redis, k: RedisKey, e: Option<Entry>): Redis {
    match (k, e)
    case (MarkKey(id), Some(MarkEntry(x))) => r.(marks := r.marks[id := x])
    case (MarkKey(id), None) => r.(marks := r.marks - {id})
    case (StatusKey(id), Some(HashEntry(s))) => r.(statuses := r.statuses[id := s])
    case (StatusKey(id), None) => r.(statuses := r.statuses - {id})
    case (DlqCountKey, Some(CountEntry(n))) => r.(dlqCount := n)
    case _ => r.(dlqCount := 0)
  }

  predicate OfFamily(k: RedisKey, e: Option<Entry>) {
    match e
    case None => true
    case Some(MarkEntry(_)) => k.MarkKey?
    case Some(HashEntry(_)) => k.StatusKey?
    case Some(CountEntry(_)) => k.DlqCountKey?
  }

  ghost predicate TellsApart(render: RedisKey -> string) {
    forall k1, k2 :: render(k1) == render(k2) ==> k1 == k2
  }

  /** Writing or deleting one key of the keyspace is writing or deleting it in its own family of the record. */
  lemma PutIsLocal(render: RedisKey -> string, flat: Keyspace, r: Redis, k: RedisKey, e: Option<Entry>)
    requires TellsApart(render) && Represents(render, flat, r) && OfFamily(k, e)
    ensures Represents(render, Put(render, flat, k, e), WithEntry(r, k, e))
  {
    var flat', r' := Put(render, flat, k, e), WithEntry(r, k, e);
    forall key: RedisKey
      ensures key != k ==> Get(render, flat', key) == Get(render, flat, key) && EntryOf(r', key) == EntryOf(r, key)
    {
    }
  }

  // ----- the commands, on the one keyspace -----------------------------------------------------

  function ExpiryIn(e: Entry): Expiry {
    match e
    case MarkEntry(expiry) => expiry
    case HashEntry(status) => status.expiry
    case CountEntry(_) => None
  }

  /** EXISTS */
  predicate FlatExists(render: RedisKey -> string, flat: Keyspace, now: nat, k: RedisKey) {
    var e := Get(render, flat, k);
    e.Some? && Live(ExpiryIn(e.value), now)
  }

  function FlatSetNX(render: RedisKey -> string, flat: Keyspace, now: nat, id: string, ttl: nat): Keyspace {
    if FlatExists(render, flat, now, MarkKey(id)) then flat
    else Put(render, flat, MarkKey(id), Some(MarkEntry(ExpiryOf(ttl, now))))
  }

  function FlatHSet(render: RedisKey -> string, flat: Keyspace, now: nat, id: string, status: string): Keyspace {
    var expiry := if FlatExists(render, flat, now, StatusKey(id)) then ExpiryIn(Get(render, flat, StatusKey(id)).value) else None;
    Put(render, flat, StatusKey(id), Some(HashEntry(StatusEntry(PaymentStatus(id, status, now), expiry))))
  }

  function FlatExpire(render: RedisKey -> string, flat: Keyspace, now: nat, id: string, ttl: nat): Keyspace {
    if !FlatExists(render, flat, now, StatusKey(id)) then flat
    else
      match Get(render, flat, StatusKey(id)).value
      case HashEntry(status) =>
        Put(render, flat, StatusKey(id), if ttl == 0 then None else Some(HashEntry(status.(expiry := Some(now + ttl)))))
      case _ => flat
  }

  function FlatIncr(render: RedisKey -> string, flat: Keyspace): Keyspace {
    match Get(render, flat, DlqCountKey)
    case Some(CountEntry(n)) => Put(render, flat, DlqCountKey, Some(CountEntry(n + 1)))
    case _ => Put(render, flat, DlqCountKey, Some(CountEntry(1)))
  }

  /** Each command is at most one write or deletion of its own key. */
  lemma CommandsAreWrites(r: Redis, now: nat, id: string, status: string, ttl: nat)
    ensures SetNX(r, now, id, ttl) ==
            if MarkLive(r, now, id) then r else WithEntry(r, MarkKey(id), Some(MarkEntry(ExpiryOf(ttl, now))))
    ensures var expiry := if id in r.statuses && Live(r.statuses[id].expiry, now) then r.statuses[id].expiry else None;
            HSet(r, now, id, status) ==
            WithEntry(r, StatusKey(id), Some(HashEntry(StatusEntry(PaymentStatus(id, status, now), expiry))))
    ensures Expire(r, now, id, ttl) ==
            if id !in r.statuses || !Live(r.statuses[id].expiry, now) then r
            else WithEntry(r, StatusKey(id), if ttl == 0 then None
                                             else Some(HashEntry(r.statuses[id].(expiry := Some(now + ttl)))))
    ensures Incr(r) == WithEntry(r, DlqCountKey, Some(CountEntry(r.dlqCount + 1)))
  {
  }

  lemma MarksAgree(render: RedisKey -> string, flat: Keyspace, r: Redis, now: nat, id: string, ttl: nat)
    requires TellsApart(render) && Represents(render, flat, r)
    ensures FlatExists(render, flat, now, MarkKey(id)) <==> MarkLive(r, now, id)
    ensures Represents(render, FlatSetNX(render, flat, now, id, ttl), SetNX(r, now, id, ttl))
  {
    CommandsAreWrites(r, now, id, "", ttl);
    assert Get(render, flat, MarkKey(id)) == EntryOf(r, MarkKey(id));
    PutIsLocal(render, flat, r, MarkKey(id), Some(MarkEntry(ExpiryOf(ttl, now))));
  }

  lemma StatusesAgree(render: RedisKey -> string, flat: Keyspace, r: Redis, now: nat, id: string, status: string, ttl: nat)
    requires TellsApart(render) && Represents(render, flat, r)
    ensures Represents(render, FlatHSet(render, flat, now, id, status), HSet(r, now, id, status))
    ensures Represents(render, FlatExpire(render, flat, now, id, ttl), Expire(r, now, id, ttl))
  {
    CommandsAreWrites(r, now, id, status, ttl);
    assert Get(render, flat, StatusKey(id)) == EntryOf(r, StatusKey(id));
    var was := if id in r.statuses && Live(r.statuses[id].expiry, now) then r.statuses[id].expiry else None;
    PutIsLocal(render, flat, r, StatusKey(id), Some(HashEntry(StatusEntry(PaymentStatus(id, status, now), was))));
    PutIsLocal(render, flat, r, StatusKey(id), None);
    if id in r.statuses {
      PutIsLocal(render, flat, r, StatusKey(id), Some(HashEntry(r.statuses[id].(expiry := Some(now + ttl)))));
    }
  }

  lemma CountAgrees(render: RedisKey -> string, flat: Keyspace, r: Redis)
    requires TellsApart(render) && Represents(render, flat, r)
    ensures Represents(render, FlatIncr(render, flat), Incr(r))
  {
    assert Get(render, flat, DlqCountKey) == EntryOf(r, DlqCountKey) || Get(render, flat, DlqCountKey) == Some(CountEntry(0));
    PutIsLocal(render, flat, r, DlqCountKey, Some(CountEntry(r.dlqCount + 1)));
  }

  /**
   The commands the consumer sends do the same to Redis' one keyspace, where they see only rendered
   keys, as to the record Redis: the keyspace still represents the record after each of them, and the
   existence check answers the same.
   */
  lemma CommandsAgree(flat: Keyspace, r: Redis, now: nat, id: string, status: string, ttl: nat)
    requires Represents(Render, flat, r)
    ensures FlatExists(Render, flat, now, MarkKey(id)) <==> MarkLive(r, now, id)
    ensures Represents(Render, FlatSetNX(Render, flat, now, id, ttl), SetNX(r, now, id, ttl))
    ensures Represents(Render, FlatHSet(Render, flat, now, id, status), HSet(r, now, id, status))
    ensures Represents(Render, FlatExpire(Render, flat, now, id, ttl), Expire(r, now, id, ttl))
    ensures Represents(Render, FlatIncr(Render, flat), Incr(r))
  {
    forall k1, k2
      ensures Render(k1) == Render(k2) ==> k1 == k2
    {
      RenderInjective(k1, k2);
    }
    assert TellsApart(Render);
    MarksAgree(Render, flat, r, now, id, ttl);
    StatusesAgree(Render, flat, r, now, id, status, ttl);
    CountAgrees(Render, flat, r);
  }

  // ----- what a mark means ---------------------------------------------------------------------

  function ExpiryOf(ttl: nat, at: nat): Expiry {
    if ttl == 0 then None else Some(at + ttl)
  }

  /**
   After a mark request that ran, the id is marked. A mark it created lives for exactly its time to
   live, one that was live is left as it was, and no other id, status or count is touched.
   */
  lemma SetNXMeaning(r: Redis, now: nat, id: string, ttl: nat)
    ensures var r' := SetNX(r, now, id, ttl);
            && MarkLive(r', now, id)
            && (MarkLive(r, now, id) ==> r' == r)
            && (!MarkLive(r, now, id) ==> forall t: nat | now <= t :: MarkLive(r', t, id) <==> ttl == 0 || t < now + ttl)
            && (forall other: string, t: nat | other != id :: MarkLive(r', t, other) <==> MarkLive(r, t, other))
            && r'.statuses == r.statuses && r'.dlqCount == r.dlqCount
  {
  }

  predicate InTimeOrder(times: seq<nat>) {
    forall i, j :: 0 <= i < j < |times| ==> times[i] <= times[j]
  }

  /** Redis after mark requests for one id ran at these times. */
  function MarkedAt(r: Redis, id: string, ttl: nat, times: seq<nat>): Redis {
    if times == [] then r
    else SetNX(MarkedAt(r, id, ttl, times[..|times| - 1]), times[|times| - 1], id, ttl)
  }

  /** Request i created the key. */
  predicate Creates(r: Redis, id: string, ttl: nat, times: seq<nat>, i: nat)
    requires i < |times|
  {
    !MarkLive(MarkedAt(r, id, ttl, times[..i]), times[i], id)
  }

  /** The newest of the requests that created the key. */
  function LastCreated(r: Redis, id: string, ttl: nat, times: seq<nat>): Option<nat> {
    if times == [] then None
    else if Creates(r, id, ttl, times, |times| - 1) then Some(times[|times| - 1])
    else LastCreated(r, id, ttl, times[..|times| - 1])
  }

  /** For an id that was never marked, the key is the one the newest creating request made. */
  lemma {:induction false} MarkIsNewest(r: Redis, id: string, ttl: nat, times: seq<nat>)
    requires id !in r.marks
    ensures var m := MarkedAt(r, id, ttl, times).marks;
            match LastCreated(r, id, ttl, times)
            case None => id !in m
            case Some(at) => id in m && m[id] == ExpiryOf(ttl, at)
  {
    if times != [] {
      MarkIsNewest(r, id, ttl, times[..|times| - 1]);
    }
  }

  lemma {:induction false} NewestIsCreator(r: Redis, id: string, ttl: nat, times: seq<nat>) returns (i: nat)
    requires LastCreated(r, id, ttl, times).Some?
    ensures i < |times| && Creates(r, id, ttl, times, i) && LastCreated(r, id, ttl, times) == Some(times[i])
    ensures forall j :: i < j < |times| ==> !Creates(r, id, ttl, times, j)
  {
    var n := |times| - 1;
    if Creates(r, id, ttl, times, n) {
      i := n;
    } else {
      i := NewestIsCreator(r, id, ttl, times[..n]);
      assert times[..n][..i] == times[..i];
      forall j | i < j < |times|
        ensures !Creates(r, id, ttl, times, j)
      {
        assert j < n ==> times[..n][..j] == times[..j] && !Creates(r, id, ttl, times[..n], j);
      }
    }
  }

  /**
   What an answered existence check says, for an id that was never marked before the requests: it
   finds a key if and only if one of the mark requests created it less than one time to live ago.
   */
  lemma CheckFindsCreatedMark(r: Redis, id: string, ttl: nat, times: seq<nat>, now: nat)
    requires id !in r.marks && InTimeOrder(times) && forall i :: 0 <= i < |times| ==> times[i] <= now
    ensures MarkLive(MarkedAt(r, id, ttl, times), now, id)
            <==> exists i :: 0 <= i < |times| && Creates(r, id, ttl, times, i) && (ttl == 0 || now < times[i] + ttl)
  {
    MarkIsNewest(r, id, ttl, times);
    if LastCreated(r, id, ttl, times).Some? {
      var k := NewestIsCreator(r, id, ttl, times);
      forall i | 0 <= i < |times| && Creates(r, id, ttl, times, i)
        ensures times[i] <= times[k]
      {
        assert i <= k;
      }
    } else {
      NoCreator(r, id, ttl, times);
    }
  }

  lemma {:induction false} NoCreator(r: Redis, id: string, ttl: nat, times: seq<nat>)
    requires LastCreated(r, id, ttl, times).None?
    ensures forall i :: 0 <= i < |times| ==> !Creates(r, id, ttl, times, i)
  {
    if times != [] {
      var n := |times| - 1;
      NoCreator(r, id, ttl, times[..n]);
      forall i | 0 <= i < |times|
        ensures !Creates(r, id, ttl, times, i)
      {
        assert i < n ==> times[..n][..i] == times[..i] && !Creates(r, id, ttl, times[..n], i);
      }
    }
  }

  // ----- DynamoDB -----------------------------------------------------------------------------

  datatype RowKey = RowKey(paymentId: string, timestamp: string)

  function KeyOf(e: PaymentEvent): RowKey {
    RowKey(e.paymentId, e.timestamp)
  }

  /** One row per payment id and timestamp, and no coarser or finer. */
  lemma KeyIsIdAndTime(a: PaymentEvent, b: PaymentEvent)
    ensures KeyOf(a) == KeyOf(b) <==> a.paymentId == b.paymentId && a.timestamp == b.timestamp
  {
  }

  type Rows = map<RowKey, PaymentHistory>

  /** PutItem under the condition that no item has this key. */
  function PutIfAbsent(rows: Rows, k: RowKey, item: PaymentHistory): Rows {
    if k in rows then rows else rows[k := item]
  }

  // ----- Requests over the network ------------------------------------------------------------

  /** How much of a request ran on the server; only a pipeline can run in part. */
  datatype Effect = Lost | Half | Done

  /** UpdateStatus: the HSET and the EXPIRE of one pipeline, which is not a transaction. */
  function Pipeline(r: Redis, now: nat, id: string, status: string, ttl: nat, effect: Effect): Redis {
    match effect
    case Lost => r
    case Half => HSet(r, now, id, status)
    case Done => Expire(HSet(r, now, id, status), now, id, ttl)
  }

  /**
   After a whole pipeline a reader finds the status at once if and only if the time to live is
   positive, and no other payment's status or mark has changed. Half a pipeline leaves the status to be
   read, whatever the time to live, and a lost one changes nothing.
   */
  lemma PipelineMeaning(r: Redis, now: nat, id: string, status: string, ttl: nat)
    ensures var r' := Pipeline(r, now, id, status, ttl, Done);
            && (StatusOf(r', now, id) == Some(status) <==> ttl > 0)
            && (StatusOf(r', now, id) == None <==> ttl == 0)
            && (forall t: nat | now <= t < now + ttl :: StatusOf(r', t, id) == Some(status))
            && (forall other: string, t: nat | other != id :: StatusOf(r', t, other) == StatusOf(r, t, other))
            && r'.marks == r.marks && r'.dlqCount == r.dlqCount
    ensures StatusOf(Pipeline(r, now, id, status, ttl, Half), now, id) == Some(status)
    ensures Pipeline(r, now, id, status, ttl, Lost) == r
  {
  }
}
