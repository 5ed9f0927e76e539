/**
 The consumer's repository objects over the remote services they call. A request may be lost, and
 so may its answer; what it does when it runs is given by the functions of Stores. What happens to
 the k-th question the consumer asks its environment is an input, fates(k).
 */
module Backends {
  import opened Models
  import opened Stores
  import opened Protocol

  type Random = r: real | 0.0 <= r < 1.0 witness 0.0

  /**
   How much of a request ran and whether the caller was told it all did; whether a select finds the
   context ended and takes that case; the random number of a wait.
   */
  datatype Fate = Fate(effect: Effect, acked: bool, ctxDone: bool, rnd: Random)

  /** What ran of a request: all of it if it was acknowledged, and only a pipeline runs in part. */
  function Ran(f: Fate, pipeline: bool): (effect: Effect)
    ensures f.acked ==> effect.Done?
    ensures !pipeline ==> !effect.Half?
  {
    if f.acked || (f.effect.Half? && !pipeline) then Done else f.effect
  }

  /** Redis, DynamoDB, the dead-letter topic, the pub/sub channel and the clock. */
  class Cloud {
    const fates: nat -> Fate
    const delays: nat -> nat          // by how much a timer is late, and what passes in between
    var asked: nat                    // questions answered so far
    var elapsed: nat                  // and passages of time
    var now: nat
    var redis: Redis
    var rows: Rows
    var dlq: seq<Letter>
    var bus: seq<PaymentEvent>

    constructor (fates: nat -> Fate, delays: nat -> nat)
      ensures this.fates == fates && this.delays == delays && asked == 0 && elapsed == 0 && now == 0
      ensures redis == Redis(map[], map[], 0) && rows == map[] && dlq == [] && bus == []
    {
      this.fates, this.delays, asked, elapsed, now := fates, delays, 0, 0, 0;
      redis := Redis(map[], map[], 0);
      rows := map[];
      dlq := [];
      bus := [];
    }

    /** Time passes: what was waited for, and some more. */
    method Elapse(atLeast: int) returns (d: nat)
      modifies this`now, this`elapsed
      ensures elapsed == old(elapsed) + 1 && now == old(now) + d
      ensures d == (if atLeast >= 0 then atLeast else 0) + delays(old(elapsed))
    {
      d := (if atLeast >= 0 then atLeast else 0) + delays(elapsed);
      now, elapsed := now + d, elapsed + 1;
    }

    /** The answer to the next question. */
    method Ask() returns (f: Fate)
      modifies this`asked
      ensures f == fates(old(asked)) && asked == old(asked) + 1
    {
      f := fates(asked);
      asked := asked + 1;
    }

    /** One question was asked, and this was its answer. */
    twostate predicate Answered(pipeline: bool, effect: Effect, acked: bool)
      reads this
    {
      && asked == old(asked) + 1
      && effect == Ran(fates(old(asked)), pipeline) && acked == fates(old(asked)).acked
    }

    /** Send a request; what it does is up to the caller. */
    method Send(pipeline: bool) returns (effect: Effect, acked: bool)
      modifies this`asked
      ensures Answered(pipeline, effect, acked)
    {
      var f := Ask();
      effect, acked := Ran(f, pipeline), f.acked;
    }
  }

  class RedisChecker {
    const cloud: Cloud
    const ttl: nat

    constructor (cloud: Cloud, ttl: nat)
      ensures this.cloud == cloud && this.ttl == ttl
    {
      this.cloud, this.ttl := cloud, ttl;
    }

    /** An unanswered check reports "not processed". */
    method IsProcessed(paymentId: string) returns (processed: bool, effect: Effect, acked: bool)
      modifies cloud`asked
      ensures cloud.Answered(false, effect, acked)
      ensures processed <==> acked && MarkLive(cloud.redis, cloud.now, paymentId)
    {
      effect, acked := cloud.Send(false);
      processed := acked && MarkLive(cloud.redis, cloud.now, paymentId);
    }

    /**
     Returns nil only when this very request created the key, and then every answered check finds it
     for exactly its time to live. A request that ran leaves the id marked, whoever marked it.
     */
    method MarkProcessed(paymentId: string) returns (ok: bool, effect: Effect, acked: bool)
      modifies cloud`redis, cloud`asked
      ensures cloud.Answered(false, effect, acked)
      ensures cloud.redis == if effect.Done? then SetNX(old(cloud.redis), cloud.now, paymentId, ttl) else old(cloud.redis)
      ensures ok <==> acked && !MarkLive(old(cloud.redis), cloud.now, paymentId)
      ensures effect.Done? ==> MarkLive(cloud.redis, cloud.now, paymentId)
      ensures ok ==> forall t: nat :: cloud.now <= t ==> (MarkLive(cloud.redis, t, paymentId) <==> ttl == 0 || t < cloud.now + ttl)
    {
      effect, acked := cloud.Send(false);
      var exists_ := MarkLive(cloud.redis, cloud.now, paymentId);
      if effect.Done? {
        cloud.redis := SetNX(cloud.redis, cloud.now, paymentId, ttl);
      }
      ok := acked && !exists_;
    }
  }

  class RedisUpdater {
    const cloud: Cloud
    const ttl: nat

    constructor (cloud: Cloud, ttl: nat)
      ensures this.cloud == cloud && this.ttl == ttl
    {
      this.cloud, this.ttl := cloud, ttl;
    }

    method UpdateStatus(paymentId: string, status: string) returns (effect: Effect, acked: bool)
      modifies cloud`redis, cloud`asked
      ensures cloud.Answered(true, effect, acked)
      ensures cloud.redis == Pipeline(old(cloud.redis), cloud.now, paymentId, status, ttl, effect)
    {
      effect, acked := cloud.Send(true);
      if !effect.Lost? {
        cloud.redis := HSet(cloud.redis, cloud.now, paymentId, status);
      }
      if effect.Done? {
        cloud.redis := Expire(cloud.redis, cloud.now, paymentId, ttl);
      }
    }
  }

  class DynamoRecorder {
    const cloud: Cloud

    constructor (cloud: Cloud)
      ensures this.cloud == cloud
    {
      this.cloud := cloud;
    }

    /** A failed condition means the row is already there, and counts as success. */
    method RecordHistory(event: PaymentEvent, traceId: string) returns (effect: Effect, acked: bool)
      modifies cloud`rows, cloud`asked
      ensures cloud.Answered(false, effect, acked)
      ensures var item := NewPaymentHistoryFromEvent(event, cloud.now, traceId);
              cloud.rows == if effect.Done? then PutIfAbsent(old(cloud.rows), KeyOf(event), item) else old(cloud.rows)
      ensures acked ==> KeyOf(event) in cloud.rows
    {
      var history := NewPaymentHistoryFromEvent(event, cloud.now, traceId);
      effect, acked := cloud.Send(false);
      if effect.Done? && KeyOf(event) !in cloud.rows {
        cloud.rows := cloud.rows[KeyOf(event) := history];
      }
    }
  }
}
