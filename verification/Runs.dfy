/** Pieces of runs, from which the limits of the theorems are built. */
module Runs {
  import opened Wrappers
  import opened Models
  import opened Stores
  import opened Protocol

  /** One more event of a run. */
  lemma Next(cfg: Config, s: System, run: seq<Event>, t: System, ev: Event) returns (t': System)
    requires Exec(cfg, s, run) == Some(t) && Possible(cfg, t, ev)
    ensures Exec(cfg, s, run + [ev]) == Some(t') && t' == Happen(cfg, t, ev)
  {
    t' := Happen(cfg, t, ev);
    assert (run + [ev])[..|run|] == run;
  }

  /** A run of two and of three events. */
  lemma Two(cfg: Config, s: System, a: Event, t1: System, b: Event, t2: System)
    requires Possible(cfg, s, a) && t1 == Happen(cfg, s, a)
    requires Possible(cfg, t1, b) && t2 == Happen(cfg, t1, b)
    ensures Exec(cfg, s, [a, b]) == Some(t2)
  {
    assert [a, b][..1] == [a] && [a][..0] == [];
    assert Exec(cfg, s, [a]) == Some(t1);
  }

  lemma Three(cfg: Config, s: System, a: Event, t1: System, b: Event, t2: System, c: Event, t3: System)
    requires Possible(cfg, s, a) && t1 == Happen(cfg, s, a)
    requires Possible(cfg, t1, b) && t2 == Happen(cfg, t1, b)
    requires Possible(cfg, t2, c) && t3 == Happen(cfg, t2, c)
    ensures Exec(cfg, s, [a, b, c]) == Some(t3)
  {
    Two(cfg, s, a, t1, b, t2);
    var t := Next(cfg, s, [a, b], t2, c);
    assert [a, b] + [c] == [a, b, c];
  }

  /** Claim p is free to take a message that validates to e. */
  predicate CanTake(cfg: Config, t: System, p: nat, m: Message, e: PaymentEvent) {
    && p < |t.claims| && t.claims[p].Idle? && m.partition == p
    && t.g.held < cfg.workers && cfg.verdict(m.value, t.g.now) == Success(e)
  }

  /** Everything but the marks, the semaphore, the counters and the record of calls. */
  predicate SameTraces(a: Shared, b: Shared) {
    && a.rows == b.rows && a.redis.statuses == b.redis.statuses && a.redis.dlqCount == b.redis.dlqCount
    && a.bus == b.bus && a.dlq == b.dlq
  }

  predicate SameStores(a: Shared, b: Shared) {
    SameTraces(a, b) && a.redis == b.redis && a.positions == b.positions && a.now == b.now
  }

  // ----- up to the existence check -------------------------------------------------------------

  function TakeEvents(p: nat, m: Message): seq<Event> {
    [Move(p, Deliver(m, "")), Move(p, SlotTaken), Move(p, Proceed)]
  }

  function TakenCall(m: Message, e: PaymentEvent): Call {
    Blank(m, "").(acquired := true, event := Some(e))
  }

  lemma Take(cfg: Config, t: System, p: nat, m: Message, e: PaymentEvent) returns (t': System)
    requires CanTake(cfg, t, p, m, e)
    ensures Exec(cfg, t, TakeEvents(p, m)) == Some(t')
    ensures t'.claims == t.claims[p := Busy(|t.g.calls|, m, "", Checking(e))]
    ensures t'.g.calls == t.g.calls + [TakenCall(m, e)]
    ensures SameStores(t.g, t'.g) && t'.g.held == t.g.held + 1
  {
    var t1 := Happen(cfg, t, Move(p, Deliver(m, "")));
    var t2 := Happen(cfg, t1, Move(p, SlotTaken));
    t' := Happen(cfg, t2, Move(p, Proceed));
    Three(cfg, t, Move(p, Deliver(m, "")), t1, Move(p, SlotTaken), t2, Move(p, Proceed), t');
  }

  // ----- past the mark -------------------------------------------------------------------------

  function Asked(p: nat, ran: bool): Event {
    Move(p, Remote(if ran then Done else Lost, ran))
  }

  /** Take the message, check, and mark; either request may be lost. */
  function PassEvents(p: nat, m: Message, checked: bool, marked: bool): seq<Event> {
    TakeEvents(p, m) + [Asked(p, checked), Asked(p, marked)]
  }

  function PassedCall(m: Message, e: PaymentEvent, now: nat, checked: bool, marked: bool, created: bool): Call {
    TakenCall(m, e).(checkAcked := checked, passed := Some(now), markRan := marked, markSet := created)
  }

  lemma CheckAndMark(cfg: Config, t: System, p: nat, e: PaymentEvent, checked: bool, marked: bool) returns (t': System)
    requires p < |t.claims| && t.claims[p].Busy? && t.claims[p].call < |t.g.calls| && t.claims[p].at == Checking(e)
    requires checked ==> !MarkLive(t.g.redis, t.g.now, e.paymentId)
    ensures Exec(cfg, t, [Asked(p, checked), Asked(p, marked)]) == Some(t')
    ensures t'.claims == t.claims[p := t.claims[p].(at := StartRetry(cfg, e))]
    ensures var k, created := t.claims[p].call, marked && !MarkLive(t.g.redis, t.g.now, e.paymentId);
            t'.g.calls == t.g.calls[k := t.g.calls[k].(checkAcked := checked, hit := None, passed := Some(t.g.now),
                                                       markRan := marked, markSet := created)]
    ensures SameTraces(t.g, t'.g) && t'.g.now == t.g.now && t'.g.positions == t.g.positions && t'.g.held == t.g.held
    ensures t'.g.redis == if marked then SetNX(t.g.redis, t.g.now, e.paymentId, cfg.markTtl) else t.g.redis
  {
    var t1 := Happen(cfg, t, Asked(p, checked));
    t' := Happen(cfg, t1, Asked(p, marked));
    Two(cfg, t, Asked(p, checked), t1, Asked(p, marked), t');
  }

  /** A claim passes on to its writes when its check finds no mark, or is not answered. */
  lemma PassOn(cfg: Config, t: System, p: nat, m: Message, e: PaymentEvent, checked: bool, marked: bool) returns (t': System)
    requires CanTake(cfg, t, p, m, e) && (checked ==> !MarkLive(t.g.redis, t.g.now, e.paymentId))
    ensures Exec(cfg, t, PassEvents(p, m, checked, marked)) == Some(t')
    ensures t'.claims == t.claims[p := Busy(|t.g.calls|, m, "", StartRetry(cfg, e))]
    ensures var created := marked && !MarkLive(t.g.redis, t.g.now, e.paymentId);
            t'.g.calls == t.g.calls + [PassedCall(m, e, t.g.now, checked, marked, created)]
    ensures SameTraces(t.g, t'.g) && t'.g.now == t.g.now && t'.g.positions == t.g.positions
    ensures t'.g.redis == if marked then SetNX(t.g.redis, t.g.now, e.paymentId, cfg.markTtl) else t.g.redis
    ensures t'.g.held == t.g.held + 1
  {
    var t1 := Take(cfg, t, p, m, e);
    t' := CheckAndMark(cfg, t1, p, e, checked, marked);
    ExecAppend(cfg, t, TakeEvents(p, m), [Asked(p, checked), Asked(p, marked)]);
  }

  // ----- a duplicate ---------------------------------------------------------------------------

  function SkipEvents(p: nat, m: Message): seq<Event> {
    TakeEvents(p, m) + [Asked(p, true), Move(p, Proceed), Move(p, Proceed)]
  }

  function SkippedCall(m: Message, e: PaymentEvent, now: nat): Call {
    TakenCall(m, e).(checkAcked := true, hit := Some(now), finished := true, offsetMarked := true)
  }

  lemma HitAndSettle(cfg: Config, t: System, p: nat, e: PaymentEvent) returns (t': System)
    requires p < |t.claims| && t.claims[p].Busy? && t.claims[p].call < |t.g.calls| && t.claims[p].at == Checking(e)
    requires t.g.held > 0 && MarkLive(t.g.redis, t.g.now, e.paymentId)
    ensures Exec(cfg, t, [Asked(p, true), Move(p, Proceed), Move(p, Proceed)]) == Some(t')
    ensures t'.claims == t.claims[p := Idle] && t'.g.held == t.g.held - 1
    ensures var k := t.claims[p].call;
            t'.g.calls == t.g.calls[k := t.g.calls[k].(checkAcked := true, hit := Some(t.g.now), finished := true,
                                                       result := None, offsetMarked := true)]
    ensures SameTraces(t.g, t'.g) && t'.g.redis == t.g.redis && t'.g.now == t.g.now
    ensures t'.g.positions == Advance(t.g.positions, t.claims[p].msg.partition, t.claims[p].msg.offset)
  {
    var t1 := Happen(cfg, t, Asked(p, true));
    var t2 := Happen(cfg, t1, Move(p, Proceed));
    t' := Happen(cfg, t2, Move(p, Proceed));
    Three(cfg, t, Asked(p, true), t1, Move(p, Proceed), t2, Move(p, Proceed), t');
  }

  /** A claim whose check finds a mark skips its message and marks the offset. */
  lemma Skip(cfg: Config, t: System, p: nat, m: Message, e: PaymentEvent) returns (t': System)
    requires CanTake(cfg, t, p, m, e) && MarkLive(t.g.redis, t.g.now, e.paymentId)
    ensures Exec(cfg, t, SkipEvents(p, m)) == Some(t')
    ensures t'.claims == t.claims && t'.g.held == t.g.held
    ensures t'.g.calls == t.g.calls + [SkippedCall(m, e, t.g.now)]
    ensures SameTraces(t.g, t'.g) && t'.g.redis == t.g.redis && t'.g.now == t.g.now
    ensures t'.g.positions == Advance(t.g.positions, p, m.offset)
  {
    var t1 := Take(cfg, t, p, m, e);
    t' := HitAndSettle(cfg, t1, p, e);
    ExecAppend(cfg, t, TakeEvents(p, m), [Asked(p, true), Move(p, Proceed), Move(p, Proceed)]);
  }

  // ----- writes that fail ----------------------------------------------------------------------

  /** The first status write is lost, and the context ends the wait for the next one, if there is one. */
  function FailEvents(cfg: Config, p: nat): seq<Event> {
    if cfg.maxAttempts <= 0 then []
    else if cfg.maxAttempts == 1 then [Asked(p, false)]
    else [Asked(p, false), Move(p, CtxDone)]
  }

  function FailureOf(cfg: Config): Failure {
    if cfg.maxAttempts <= 0 then Exhausted(cfg.maxAttempts, None)
    else if cfg.maxAttempts == 1 then Exhausted(cfg.maxAttempts, Some(StatusWriteFailed))
    else BackoffCancelled
  }

  lemma FailWrites(cfg: Config, t: System, p: nat, e: PaymentEvent) returns (t': System)
    requires p < |t.claims| && t.claims[p].Busy? && t.claims[p].call < |t.g.calls|
    requires t.claims[p].at == StartRetry(cfg, e)
    ensures Exec(cfg, t, FailEvents(cfg, p)) == Some(t')
    ensures t'.claims == t.claims[p := t.claims[p].(at := DlqSending(FailureOf(cfg)))]
    ensures SameStores(t.g, t'.g) && t'.g.held == t.g.held && |t'.g.calls| == |t.g.calls|
  {
    t' := t;
    if cfg.maxAttempts > 0 {
      t' := Next(cfg, t, [], t', Asked(p, false));
      if cfg.maxAttempts > 1 {
        t' := Next(cfg, t, [] + [Asked(p, false)], t', Move(p, CtxDone));
      }
    }
  }

  // ----- a letter that is lost -----------------------------------------------------------------

  function RejectEvents(p: nat, m: Message): seq<Event> {
    TakeEvents(p, m)
  }

  /** Up to the dead letter of an invalid message. */
  lemma Reject(cfg: Config, t: System, p: nat, m: Message, why: string) returns (t': System)
    requires p < |t.claims| && t.claims[p].Idle? && m.partition == p && t.g.held < cfg.workers
    requires cfg.verdict(m.value, t.g.now) == Failure(why)
    ensures Exec(cfg, t, RejectEvents(p, m)) == Some(t')
    ensures SameStores(t.g, t'.g) && t'.g.held == t.g.held + 1
    ensures t'.claims == t.claims[p := Busy(|t.g.calls|, m, "", DlqSending(Invalid(why)))]
    ensures |t'.g.calls| == |t.g.calls| + 1
  {
    var t1 := Happen(cfg, t, Move(p, Deliver(m, "")));
    var t2 := Happen(cfg, t1, Move(p, SlotTaken));
    t' := Happen(cfg, t2, Move(p, Proceed));
    Three(cfg, t, Move(p, Deliver(m, "")), t1, Move(p, SlotTaken), t2, Move(p, Proceed), t');
  }

  /** The letter is lost, and so is its count; then the claim is free for its next message. */
  function GiveUpEvents(cfg: Config, p: nat): seq<Event> {
    [Asked(p, false)] + (if cfg.countsDlq then [Asked(p, false)] else []) + [Move(p, Proceed), Move(p, Proceed)]
  }

  lemma GiveUp(cfg: Config, t: System, p: nat, f: Failure) returns (t': System)
    requires p < |t.claims| && t.claims[p].Busy? && t.claims[p].call < |t.g.calls| && t.g.held > 0
    requires t.claims[p].at == DlqSending(f)
    ensures Exec(cfg, t, GiveUpEvents(cfg, p)) == Some(t')
    ensures SameStores(t.g, t'.g) && t'.g.held == t.g.held - 1 && t'.claims == t.claims[p := Idle]
  {
    var t1 := DropLetter(cfg, t, p, f);
    var t2 := Happen(cfg, t1, Move(p, Proceed));
    t' := Happen(cfg, t2, Move(p, Proceed));
    Two(cfg, t1, Move(p, Proceed), t2, Move(p, Proceed), t');
    ExecAppend(cfg, t, [Asked(p, false)] + (if cfg.countsDlq then [Asked(p, false)] else []), [Move(p, Proceed), Move(p, Proceed)]);
  }

  lemma DropLetter(cfg: Config, t: System, p: nat, f: Failure) returns (t': System)
    requires p < |t.claims| && t.claims[p].Busy? && t.claims[p].call < |t.g.calls| && t.claims[p].at == DlqSending(f)
    ensures Exec(cfg, t, [Asked(p, false)] + if cfg.countsDlq then [Asked(p, false)] else []) == Some(t')
    ensures SameStores(t.g, t'.g) && t'.g.held == t.g.held && |t'.g.calls| == |t.g.calls|
    ensures t'.claims == t.claims[p := t.claims[p].(at := Returning(Some(f)))]
  {
    assert [] + [Asked(p, false)] == [Asked(p, false)];
    assert [Asked(p, false)] + [] == [Asked(p, false)];
    t' := Next(cfg, t, [], t, Asked(p, false));
    if cfg.countsDlq {
      t' := Next(cfg, t, [Asked(p, false)], t', Asked(p, false));
    }
  }
}
