/**
 The retried pair of writes: a Redis status, then a conditional DynamoDB put. Requests and
 acknowledgements can be lost in any attempt.
 */
module Writes {
  import opened Models
  import opened Stores
  import opened Protocol

  // ----- stores with the clock readings and trace ids taken out --------------------------------

  function Statuses(r: Redis): map<string, string> {
    map id | id in r.statuses :: r.statuses[id].fields.status
  }

  function Events(rows: Rows): map<RowKey, PaymentEvent> {
    map key | key in rows :: rows[key].event
  }

  // ----- one clean attempt, as the reference ---------------------------------------------------

  function CleanRedis(cfg: Config, g: Shared, e: PaymentEvent): Redis {
    Pipeline(g.redis, g.now, e.paymentId, e.status, cfg.statusTtl, Done)
  }

  function CleanRows(g: Shared, e: PaymentEvent, trace: string): Rows {
    PutIfAbsent(g.rows, KeyOf(e), NewPaymentHistoryFromEvent(e, g.now, trace))
  }

  // ----- the invariant of the retry loop -------------------------------------------------------

  /** Only the event's own status can differ from what it was, and then it is the event's. */
  ghost predicate StatusTouched(r0: Redis, r: Redis, e: PaymentEvent) {
    && r.marks == r0.marks
    && (forall id :: id != e.paymentId ==>
          (id in r.statuses <==> id in r0.statuses) &&
          (id in r0.statuses ==> r.statuses[id] == r0.statuses[id]))
    && (e.paymentId in r.statuses ==>
          (e.paymentId in r0.statuses && r.statuses[e.paymentId] == r0.statuses[e.paymentId])
          || r.statuses[e.paymentId].fields.status == e.status)
  }

  /** Only the event's own row can be new, and then it is the event's. */
  predicate RowTouched(rows0: Rows, rows: Rows, e: PaymentEvent) {
    || rows == rows0
    || (KeyOf(e) !in rows0 && KeyOf(e) in rows && rows[KeyOf(e)].event == e
        && rows == rows0[KeyOf(e) := rows[KeyOf(e)]])
  }

  predicate StatusWritten(cfg: Config, r: Redis, e: PaymentEvent) {
    if cfg.statusTtl == 0 then e.paymentId !in r.statuses
    else e.paymentId in r.statuses && r.statuses[e.paymentId].fields.status == e.status
         && r.statuses[e.paymentId].expiry.Some?
  }

  /** The call is on its way to returning nil after its writes. */
  predicate Wrote(at: PC) {
    at.Publishing? || ((at.Returning? || at.Settling?) && at.result.None?)
  }

  predicate InRetry(at: PC, e: PaymentEvent) {
    (at.WritingStatus? || at.WritingHistory? || at.Waiting? || at.Publishing?) && at.event == e
  }

  predicate AfterRetry(at: PC) {
    at.DlqSending? || at.DlqCounting? || at.Returning? || at.Settling?
  }

  ghost predicate Retrying(cfg: Config, g0: Shared, e: PaymentEvent, g: Shared, c: Claim) {
    && c.Busy? && (InRetry(c.at, e) || AfterRetry(c.at))
    && StatusTouched(g0.redis, g.redis, e)
    && RowTouched(g0.rows, g.rows, e)
    && (c.at.WritingHistory? || Wrote(c.at) ==> StatusWritten(cfg, g.redis, e))
    && (Wrote(c.at) ==> KeyOf(e) in g.rows)
  }

  lemma PipelineTouches(cfg: Config, r0: Redis, r: Redis, now: nat, e: PaymentEvent, effect: Effect)
    requires StatusTouched(r0, r, e)
    ensures var r' := Pipeline(r, now, e.paymentId, e.status, cfg.statusTtl, effect);
            StatusTouched(r0, r', e) && (effect.Done? ==> StatusWritten(cfg, r', e))
  {
  }

  lemma PutTouches(rows0: Rows, rows: Rows, e: PaymentEvent, item: PaymentHistory)
    requires RowTouched(rows0, rows, e) && item.event == e
    ensures var rows' := PutIfAbsent(rows, KeyOf(e), item); RowTouched(rows0, rows', e) && KeyOf(e) in rows'
  {
  }

  lemma RetryStatusStep(cfg: Config, g0: Shared, e: PaymentEvent, g: Shared, c: Claim, r: Reply)
    requires Retrying(cfg, g0, e, g, c) && Enabled(cfg, g, c, r)
    requires c.at.WritingStatus?
    ensures Retrying(cfg, g0, e, Step(cfg, g, c, r).0, Step(cfg, g, c, r).1)
  {
    PipelineTouches(cfg, g0.redis, g.redis, g.now, e, r.effect);
  }

  lemma RetryHistoryStep(cfg: Config, g0: Shared, e: PaymentEvent, g: Shared, c: Claim, r: Reply)
    requires Retrying(cfg, g0, e, g, c) && Enabled(cfg, g, c, r)
    requires c.at.WritingHistory?
    ensures Retrying(cfg, g0, e, Step(cfg, g, c, r).0, Step(cfg, g, c, r).1)
  {
    PutTouches(g0.rows, g.rows, e, NewPaymentHistoryFromEvent(e, g.now, c.trace));
  }

  lemma RetryLoopStep(cfg: Config, g0: Shared, e: PaymentEvent, g: Shared, c: Claim, r: Reply)
    requires Retrying(cfg, g0, e, g, c) && Enabled(cfg, g, c, r)
    requires c.at.Waiting? || c.at.Publishing?
    ensures Retrying(cfg, g0, e, Step(cfg, g, c, r).0, Step(cfg, g, c, r).1)
  {
  }

  lemma RetryEndStep(cfg: Config, g0: Shared, e: PaymentEvent, g: Shared, c: Claim, r: Reply)
    requires Retrying(cfg, g0, e, g, c) && Enabled(cfg, g, c, r)
    requires c.at.DlqSending? || c.at.DlqCounting? || c.at.Returning?
    ensures Retrying(cfg, g0, e, Step(cfg, g, c, r).0, Step(cfg, g, c, r).1)
  {
  }

  lemma CallsGrow(cfg: Config, g: Shared, c: Claim, r: Reply)
    requires Enabled(cfg, g, c, r)
    ensures var (g', c') := Step(cfg, g, c, r);
            && |g'.calls| >= |g.calls|
            && (c'.Busy? ==> if c.Busy? then c'.call == c.call else c'.call == |g.calls|)
  {
  }

  /** As long as the claim is still on the call that entered the loop, the invariant holds. */
  lemma {:induction false} RetryAlways(cfg: Config, g0: Shared, c0: Claim, e: PaymentEvent, script: seq<Action>)
    requires c0.Busy? && c0.call < |g0.calls| && c0.at == WritingStatus(e, 0)
    requires After(cfg, g0, c0, script).Some?
    ensures var gc := After(cfg, g0, c0, script).value;
            && c0.call < |gc.0.calls|
            && (gc.1.Busy? && gc.1.call == c0.call ==> Retrying(cfg, g0, e, gc.0, gc.1))
  {
    if script != [] {
      var init, last := script[..|script| - 1], script[|script| - 1];
      RetryAlways(cfg, g0, c0, e, init);
      var (g, c) := After(cfg, g0, c0, init).value;
      if last.Do? {
        CallsGrow(cfg, g, c, last.reply);
        if c.Busy? && c.call == c0.call && !c.at.Settling? {
          if c.at.WritingStatus? {
            RetryStatusStep(cfg, g0, e, g, c, last.reply);
          } else if c.at.WritingHistory? {
            RetryHistoryStep(cfg, g0, e, g, c, last.reply);
          } else if c.at.Waiting? || c.at.Publishing? {
            RetryLoopStep(cfg, g0, e, g, c, last.reply);
          } else {
            RetryEndStep(cfg, g0, e, g, c, last.reply);
          }
        }
      }
    }
  }

  lemma WrittenIsClean(cfg: Config, r0: Redis, r: Redis, now: nat, e: PaymentEvent)
    requires StatusTouched(r0, r, e) && StatusWritten(cfg, r, e)
    ensures Statuses(r) == Statuses(Pipeline(r0, now, e.paymentId, e.status, cfg.statusTtl, Done))
  {
    var r' := Pipeline(r0, now, e.paymentId, e.status, cfg.statusTtl, Done);
    PipelineTouches(cfg, r0, r0, now, e, Done);
    forall id
      ensures id in Statuses(r) <==> id in Statuses(r')
      ensures id in Statuses(r) ==> Statuses(r)[id] == Statuses(r')[id]
    {
    }
  }

  lemma TouchedElsewhere(r0: Redis, r: Redis, e: PaymentEvent)
    requires StatusTouched(r0, r, e)
    ensures Statuses(r) - {e.paymentId} == Statuses(r0) - {e.paymentId}
  {
  }

  lemma PutIsClean(rows0: Rows, rows: Rows, e: PaymentEvent, item: PaymentHistory)
    requires RowTouched(rows0, rows, e) && item.event == e
    ensures KeyOf(e) in rows ==> Events(rows) == Events(PutIfAbsent(rows0, KeyOf(e), item))
    ensures KeyOf(e) in rows0 || KeyOf(e) !in rows ==> rows == rows0
  {
  }

  // ----- the theorem ---------------------------------------------------------------------------

  /**
   Retrying with lost acknowledgements equals one clean attempt. Take any script from the first
   attempt to the moment the call's result is known. If the result is nil, statuses and history are,
   up to clock readings and trace ids, those of one attempt in which nothing failed; exactly one row
   has the event's key, and it predates the call or is this event's. If the result is an error, at
   most that one status and that one row differ from before, and they hold this event's values.
   The marks are untouched either way.
   */
  lemma RetryEqualsOneAttempt(cfg: Config, g0: Shared, c0: Claim, e: PaymentEvent, script: seq<Action>)
    requires c0.Busy? && c0.call < |g0.calls| && c0.at == WritingStatus(e, 0)
    requires After(cfg, g0, c0, script).Some?
    requires var c := After(cfg, g0, c0, script).value.1; c.Busy? && c.call == c0.call && c.at.Settling?
    ensures var (g, c) := After(cfg, g0, c0, script).value;
            && g.redis.marks == g0.redis.marks
            && (c.at.result.None? ==>
                  && Statuses(g.redis) == Statuses(CleanRedis(cfg, g0, e))
                  && Events(g.rows) == Events(CleanRows(g0, e, c0.trace))
                  && (KeyOf(e) in g0.rows ==> g.rows == g0.rows))
            && (c.at.result.Some? ==>
                  && Statuses(g.redis) - {e.paymentId} == Statuses(g0.redis) - {e.paymentId}
                  && (e.paymentId in Statuses(g.redis) ==>
                        Statuses(g.redis)[e.paymentId] == e.status
                        || (e.paymentId in Statuses(g0.redis)
                            && Statuses(g.redis)[e.paymentId] == Statuses(g0.redis)[e.paymentId]))
                  && (g.rows == g0.rows || Events(g.rows) == Events(CleanRows(g0, e, c0.trace))))
  {
    RetryAlways(cfg, g0, c0, e, script);
    var (g, c) := After(cfg, g0, c0, script).value;
    if c.at.result.None? {
      WrittenIsClean(cfg, g0.redis, g.redis, g0.now, e);
      PutIsClean(g0.rows, g.rows, e, NewPaymentHistoryFromEvent(e, g0.now, c0.trace));
    } else {
      TouchedElsewhere(g0.redis, g.redis, e);
      PutIsClean(g0.rows, g.rows, e, NewPaymentHistoryFromEvent(e, g0.now, c0.trace));
    }
  }
}
