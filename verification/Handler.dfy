/**
 internal/consumer/handler.go as it is written: one goroutine's loop over its messages, with the
 Handler's fields updated in place. Every method is proved to take exactly the steps of Protocol:
 the ghost script records them, After recomputes the whole visible state from it, and Follows says
 that each step was the one the environment's answers call for.
 */
module Consumer {
  import opened Wrappers
  import opened Models
  import opened Stores
  import opened Protocol
  import opened Backends
  import opened Inputs
  import R = Retry

  class Handler {
    const cfg: Config
    const baseDelay: int
    const cloud: Cloud
    const idempotency: RedisChecker
    const status: RedisUpdater
    const history: DynamoRecorder

    var held: nat                     // tokens in the semaphore channel
    var n: Counters
    var positions: map<int, int>      // kept by the session

    ghost var calls: seq<Call>
    ghost var start: Shared
    ghost var script: seq<Action>
    ghost var claim: Claim
    ghost var delivered: seq<Message>
    ghost const first: nat            // questions asked before this Handler was created

    ghost function View(): Shared
      reads this, cloud
    {
      Shared(cloud.now, cloud.redis, cloud.rows, cloud.dlq, cloud.bus, positions, held, n, calls)
    }

    ghost predicate Wired() {
      && idempotency.cloud == status.cloud == history.cloud == cloud
      && idempotency.ttl == cfg.markTtl && status.ttl == cfg.statusTtl
    }

    /** The steps recorded so far lead from the start to this state, and follow the answers that were given. */
    ghost predicate Leads(g: Shared, asked: nat)
      reads `start, `script, `claim, `delivered
    {
      LeadsTo(cfg, start, script, cloud.fates, first, g, claim, asked, delivered)
    }

    /** Leads, for proofs that mention Looked: the recursive definitions stay out of the others. */
    ghost predicate Recorded(g: Shared, asked: nat)
      reads `start, `script, `claim, `delivered
    {
      forall key: int {:trigger Looked(key)} :: Looked(key) ==> Leads(g, asked)
    }

    predicate Looked(key: int) {
      true
    }

    /** The recorded steps lead to what the fields now show. */
    ghost predicate Valid()
      reads this, cloud
    {
      Wired() && Recorded(View(), cloud.asked)
    }

    constructor (cfg: Config, baseDelay: int, cloud: Cloud)
      ensures Valid() && this.cfg == cfg && this.cloud == cloud
      ensures claim == Idle && script == [] && delivered == [] && held == 0 && n == ZERO_COUNTERS && calls == []
      ensures start == View() && start.now == cloud.now && start.redis == cloud.redis && start.bus == cloud.bus
      ensures start.rows == cloud.rows && start.dlq == cloud.dlq
      ensures fresh(this)
    {
      this.cfg, this.baseDelay, this.cloud := cfg, baseDelay, cloud;
      idempotency := new RedisChecker(cloud, cfg.markTtl);
      status := new RedisUpdater(cloud, cfg.statusTtl);
      history := new DynamoRecorder(cloud);
      held, n, positions := 0, ZERO_COUNTERS, map[];
      calls, script, claim, delivered, first := [], [], Idle, [], cloud.asked;
      new;
      start := View();
    }

    // ----- recording -----------------------------------------------------------------------------

    /**
     Record a step already carried out on the fields, from the state g it was taken in, when so many
     questions had been asked. It must be the step the answer calls for.
     */
    ghost method Took(g: Shared, asked: nat, r: Reply)
      requires Wired() && Recorded(g, asked)
      requires Enabled(cfg, g, claim, r)
      requires claim.Busy? ==> r == ReplyTo(cfg, g, claim, cloud.fates(asked))
      requires cloud.asked == asked + if Asks(claim) then 1 else 0
      requires var g' := Step(cfg, g, claim, r).0; g' == View().(calls := g'.calls)
      modifies this`calls, this`script, this`claim, this`delivered
      ensures Valid() && script == old(script) + [Do(r)] && claim == Step(cfg, g, old(claim), r).1
      ensures View() == Step(cfg, g, old(claim), r).0
      ensures delivered == old(delivered) + if r.Deliver? then [r.msg] else []
    {
      assert Looked(0);
      LeadsByStep(cfg, start, script, cloud.fates, first, g, claim, asked, delivered, r);
      var next := Step(cfg, g, claim, r);
      calls, claim, script := next.0.calls, next.1, script + [Do(r)];
      delivered := delivered + if r.Deliver? then [r.msg] else [];
    }

    /** Record that time has passed. */
    ghost method Ticked(g: Shared, d: nat)
      requires Wired() && Recorded(g, cloud.asked) && View() == g.(now := g.now + d)
      modifies this`script
      ensures Valid() && script == old(script) + [Tick(d)]
    {
      assert Looked(0);
      LeadsByTime(cfg, start, script, cloud.fates, first, g, claim, cloud.asked, delivered, d);
      script := script + [Tick(d)];
    }

    /** Time passes, the delay and what the environment adds; nothing else happens. */
    method Elapse(delay: int)
      requires Valid()
      modifies cloud`now, cloud`elapsed, this`script
      ensures Valid() && View() == old(View()).(now := cloud.now)
      ensures cloud.now == old(cloud.now) + (if delay >= 0 then delay else 0) + cloud.delays(old(cloud.elapsed))
      ensures old(script) <= script
    {
      ghost var g := View();
      var d := cloud.Elapse(delay);
      Ticked(g, d);
    }

    /** The claim is still on the same message, nothing else was delivered, and no recorded step was changed. */
    twostate predicate SameMessage()
      reads this
    {
      && claim.Busy? && old(claim).Busy? && claim == old(claim).(at := claim.at) && start == old(start)
      && old(script) <= script && delivered == old(delivered)
    }

    /** Within the part of processMessage that holds the slot. */
    twostate predicate Inside()
      reads this
    {
      SameMessage() && held == old(held)
    }

    ghost predicate At(at: PC)
      reads this, cloud
    {
      Valid() && claim.Busy? && claim.call < |calls| && claim.at == at
    }

    // ----- processMessage ------------------------------------------------------------------------

    /** The select on the semaphore and the context: a free slot is taken unless the context has ended. */
    method AcquireSlot() returns (got: bool)
      requires At(Acquiring)
      modifies this, cloud
      ensures SameMessage()
      ensures got <==> old(held) < cfg.workers && !cloud.fates(old(cloud.asked)).ctxDone
      ensures got ==> At(Validating) && held == old(held) + 1
      ensures !got ==> At(Settling(Some(Cancelled))) && held == old(held)
    {
      ghost var g, asked := View(), cloud.asked;
      var f := cloud.Ask();
      got := held < cfg.workers && !f.ctxDone;
      if got {
        held := held + 1;
        Took(g, asked, SlotTaken);
      } else {
        n := n.(cancelled := n.cancelled + 1);
        Took(g, asked, CtxDone);
      }
    }

    method Validate(msg: Message) returns (verdict: Result<PaymentEvent, string>)
      requires At(Validating) && claim.msg == msg
      modifies this, cloud`now, cloud`elapsed
      ensures Inside()
      ensures At(match verdict case Success(e) => Checking(e) case Failure(why) => DlqSending(Invalid(why)))
    {
      Elapse(0);
      verdict := cfg.verdict(msg.value, cloud.now);
      Took(View(), cloud.asked, Proceed);
    }

    /** The letter was counted once, and sent once or lost; the other stores are as they were. */
    twostate predicate OneLetter(msg: Message, f: Failure)
      reads this, cloud
    {
      && n == old(n).(dlqValidation := n.dlqValidation, dlqRetry := n.dlqRetry)
      && n.dlqValidation == old(n.dlqValidation) + (if f.Invalid? then 1 else 0)
      && n.dlqRetry == old(n.dlqRetry) + (if f.Invalid? then 0 else 1)
      && (cloud.dlq == old(cloud.dlq) || cloud.dlq == old(cloud.dlq) + [Letter(msg, f)])
      && cloud.rows == old(cloud.rows) && cloud.bus == old(cloud.bus)
    }

    /** Count, publish to the dead letters, count in Redis; failures are only logged. */
    method DeadLetter(msg: Message, f: Failure)
      requires At(DlqSending(f)) && claim.msg == msg
      modifies this, cloud
      ensures Inside() && At(Returning(Some(f))) && OneLetter(msg, f)
      ensures cloud.redis == old(cloud.redis) || (cfg.countsDlq && cloud.redis == Incr(old(cloud.redis)))
    {
      SendLetter(msg, f);
      if cfg.countsDlq {
        Elapse(0);
        CountLetter(f);
      }
    }

    method SendLetter(msg: Message, f: Failure)
      requires At(DlqSending(f)) && claim.msg == msg
      modifies this, cloud
      ensures Inside() && At(if cfg.countsDlq then DlqCounting(f) else Returning(Some(f)))
      ensures n == CountDead(old(n), f) && cloud.redis == old(cloud.redis)
      ensures cloud.dlq == old(cloud.dlq) || cloud.dlq == old(cloud.dlq) + [Letter(msg, f)]
      ensures cloud.rows == old(cloud.rows) && cloud.bus == old(cloud.bus)
    {
      ghost var g, asked := View(), cloud.asked;
      n := CountDead(n, f);
      var effect, acked := cloud.Send(false);
      cloud.dlq := cloud.dlq + if effect.Done? then [Letter(msg, f)] else [];
      Took(g, asked, Remote(effect, acked));
    }

    method CountLetter(f: Failure)
      requires At(DlqCounting(f))
      modifies this, cloud
      ensures Inside() && At(Returning(Some(f)))
      ensures n == old(n) && cloud.dlq == old(cloud.dlq) && cloud.rows == old(cloud.rows) && cloud.bus == old(cloud.bus)
      ensures cloud.redis == old(cloud.redis) || cloud.redis == Incr(old(cloud.redis))
    {
      ghost var g, asked := View(), cloud.asked;
      var effect, acked := cloud.Send(false);
      if effect.Done? {
        cloud.redis := Incr(cloud.redis);
      }
      Took(g, asked, Remote(effect, acked));
    }

    method CheckDuplicate(e: PaymentEvent) returns (processed: bool)
      requires At(Checking(e))
      modifies this, cloud
      ensures Inside()
      ensures At(if processed then Returning(None) else Marking(e))
    {
      ghost var g, asked := View(), cloud.asked;
      var effect, acked;
      processed, effect, acked := idempotency.IsProcessed(e.paymentId);
      if processed {
        n := n.(hits := n.hits + 1);
      }
      Took(g, asked, Remote(effect, acked));
    }

    method Mark(e: PaymentEvent)
      requires At(Marking(e))
      modifies this, cloud
      ensures Inside() && At(StartRetry(cfg, e))
    {
      ghost var g, asked := View(), cloud.asked;
      var ok, effect, acked := idempotency.MarkProcessed(e.paymentId);
      n := n.(entered := n.entered + 1);
      Took(g, asked, Remote(effect, acked));
    }

    method WriteStatus(e: PaymentEvent, k: nat) returns (acked: bool)
      requires At(WritingStatus(e, k))
      modifies this, cloud
      ensures Inside() && At(if acked then WritingHistory(e, k) else AfterFailure(cfg, e, k, StatusWriteFailed))
      ensures n.retryAttempts == old(n.retryAttempts) + 1
    {
      ghost var g, asked := View(), cloud.asked;
      n := n.(retryAttempts := n.retryAttempts + 1);
      var effect;
      effect, acked := status.UpdateStatus(e.paymentId, e.status);
      Took(g, asked, Remote(effect, acked));
    }

    method WriteHistory(e: PaymentEvent, trace: string, k: nat) returns (acked: bool)
      requires At(WritingHistory(e, k)) && claim.trace == trace
      modifies this, cloud
      ensures Inside() && At(if acked then Publishing(e) else AfterFailure(cfg, e, k, HistoryWriteFailed))
      ensures n == old(n)
    {
      ghost var g, asked := View(), cloud.asked;
      var effect;
      effect, acked := history.RecordHistory(e, trace);
      Took(g, asked, Remote(effect, acked));
    }

    /** The function given to retry.Do. */
    method Attempt(e: PaymentEvent, trace: string, k: nat) returns (err: Option<WriteError>)
      requires At(WritingStatus(e, k)) && claim.trace == trace
      modifies this, cloud
      ensures Inside() && n.retryAttempts == old(n.retryAttempts) + 1
      ensures At(match err case None => Publishing(e) case Some(w) => AfterFailure(cfg, e, k, w))
    {
      var acked := WriteStatus(e, k);
      if !acked {
        return Some(StatusWriteFailed);
      }
      Elapse(0);
      acked := WriteHistory(e, trace, k);
      return if acked then None else Some(HistoryWriteFailed);
    }

    /** The select on the context and the timer, before attempt k: the jittered delay, and how late the timer is. */
    method Wait(e: PaymentEvent, k: nat) returns (done: bool)
      requires At(Waiting(e, k)) && k >= 1
      modifies this, cloud
      ensures Inside() && At(if done then DlqSending(BackoffCancelled) else WritingStatus(e, k))
      ensures n == old(n) && done == cloud.fates(old(cloud.asked)).ctxDone
      ensures !done ==> cloud.now == old(cloud.now) + cloud.delays(old(cloud.elapsed))
                                     + R.AddJitter(R.Backoff(baseDelay, k), cloud.fates(old(cloud.asked)).rnd)
    {
      ghost var asked := cloud.asked;
      var f := cloud.fates(cloud.asked);
      done := f.ctxDone;
      var delay := R.AddJitter(R.Backoff(baseDelay, k), f.rnd);
      Elapse(if done then 0 else delay);
      ghost var g := View();
      f := cloud.Ask();
      Took(g, asked, if done then CtxDone else Proceed);
    }

    /** Where retry.Do stands before an iteration, given the error of the last attempt. */
    function LoopHead(e: PaymentEvent, attempt: nat, lastErr: Option<WriteError>): PC {
      if attempt == 0 then StartRetry(cfg, e)
      else if attempt < cfg.maxAttempts then Waiting(e, attempt)
      else DlqSending(Exhausted(cfg.maxAttempts, lastErr))
    }

    /** One iteration of retry.Do: the wait, unless it is the first, and the attempt. */
    method RetryTurn(e: PaymentEvent, trace: string, k: nat, ghost lastErr: Option<WriteError>)
        returns (done: bool, failed: Option<WriteError>)
      requires k < cfg.maxAttempts && At(LoopHead(e, k, lastErr)) && claim.trace == trace
      modifies this, cloud
      ensures Inside() && n.retryAttempts == old(n.retryAttempts) + if done then 0 else 1
      ensures done ==> k > 0 && At(DlqSending(BackoffCancelled))
      ensures !done ==> At(if failed.None? then Publishing(e) else LoopHead(e, k + 1, failed))
    {
      if k > 0 {
        done, failed := LaterTurn(e, trace, k);
      } else {
        done := false;
        failed := Attempt(e, trace, k);
      }
    }

    method LaterTurn(e: PaymentEvent, trace: string, k: nat) returns (done: bool, failed: Option<WriteError>)
      requires 0 < k < cfg.maxAttempts && At(Waiting(e, k)) && claim.trace == trace
      modifies this, cloud
      ensures Inside() && n.retryAttempts == old(n.retryAttempts) + if done then 0 else 1
      ensures At(if done then DlqSending(BackoffCancelled) else match failed case None => Publishing(e) case Some(w) => AfterFailure(cfg, e, k, w))
    {
      failed := None;
      done := Wait(e, k);
      if !done {
        failed := Attempt(e, trace, k);
      }
    }

    /** retry.Do around Attempt: how many attempts were made, for each way it can end. */
    method RetryWrites(e: PaymentEvent, trace: string) returns (err: Option<Failure>)
      requires At(StartRetry(cfg, e)) && claim.trace == trace
      modifies this, cloud
      ensures Inside()
      ensures At(match err case None => Publishing(e) case Some(f) => DlqSending(f))
      ensures var made := n.retryAttempts - old(n.retryAttempts);
              match err
              case None => 1 <= made <= cfg.maxAttempts
              case Some(BackoffCancelled) => 1 <= made < cfg.maxAttempts
              case Some(Exhausted(max, last)) =>
                max == cfg.maxAttempts && made == (if max > 0 then max else 0) && (last.Some? <==> max > 0)
              case Some(_) => false
    {
      var lastErr: Option<WriteError> := None;
      var attempt := 0;
      while attempt < cfg.maxAttempts
        invariant 0 <= attempt && Inside()
        invariant At(LoopHead(e, attempt, lastErr))
        invariant attempt == 0 <==> lastErr.None?
        invariant n.retryAttempts == old(n.retryAttempts) + attempt
        invariant attempt <= cfg.maxAttempts || attempt == 0
      {
        var done, failed := RetryTurn(e, trace, attempt, lastErr);
        if done {
          return Some(BackoffCancelled);
        }
        if failed.None? {
          return None;
        }
        lastErr := failed;
        attempt := attempt + 1;
      }
      return Some(Exhausted(cfg.maxAttempts, lastErr));
    }

    /** Best effort: a failed publication is only logged. */
    method PublishEvent(e: PaymentEvent)
      requires At(Publishing(e))
      modifies this, cloud
      ensures Inside() && At(Returning(None))
    {
      ghost var g, asked := View(), cloud.asked;
      n := n.(completions := n.completions + 1);
      var effect, acked := cloud.Send(false);
      if effect.Done? {
        cloud.bus := cloud.bus + [e];
      }
      Took(g, asked, Remote(effect, acked));
    }

    /** After the retries: the dead letter of a failure, or the publication. */
    method Conclude(msg: Message, event: PaymentEvent, err: Option<Failure>)
      requires At(match err case None => Publishing(event) case Some(f) => DlqSending(f)) && claim.msg == msg
      modifies this, cloud
      ensures Inside() && At(Returning(err))
    {
      Elapse(0);
      if err.Some? {
        DeadLetter(msg, err.value);
      } else {
        PublishEvent(event);
      }
    }

    /** Mark the payment, whatever comes of it, and write under retry. */
    method MarkAndWrite(event: PaymentEvent, trace: string) returns (err: Option<Failure>)
      requires At(Marking(event)) && claim.trace == trace
      modifies this, cloud
      ensures Inside() && At(match err case None => Publishing(event) case Some(f) => DlqSending(f))
    {
      Mark(event);
      Elapse(0);
      err := RetryWrites(event, trace);
    }

    /** A valid payment: skip it if it was found processed. */
    method Process(msg: Message, event: PaymentEvent, trace: string) returns (err: Option<Failure>)
      requires At(Checking(event)) && claim.msg == msg && claim.trace == trace
      modifies this, cloud
      ensures Inside() && At(Returning(err))
    {
      var processed := CheckDuplicate(event);
      if processed {
        return None;
      }
      Elapse(0);
      err := MarkAndWrite(event, trace);
      Conclude(msg, event, err);
    }

    /** What processMessage does while it holds its slot. */
    method Handle(msg: Message, trace: string) returns (err: Option<Failure>)
      requires At(Validating) && claim.msg == msg && claim.trace == trace
      modifies this, cloud
      ensures Inside() && At(Returning(err))
    {
      var verdict := Validate(msg);
      Elapse(0);
      if verdict.Failure? {
        DeadLetter(msg, Invalid(verdict.error));
        return Some(Invalid(verdict.error));
      }
      err := Process(msg, verdict.value, trace);
    }

    method ProcessMessage(msg: Message, trace: string) returns (err: Option<Failure>)
      requires At(Acquiring) && claim.msg == msg && claim.trace == trace
      modifies this, cloud
      ensures SameMessage() && At(Settling(err))
      ensures held == old(held)
    {
      var got := AcquireSlot();
      if !got {
        return Some(Cancelled);
      }
      err := Serve(msg, trace);
    }

    /** While the slot is held, and the deferred release. */
    method Serve(msg: Message, trace: string) returns (err: Option<Failure>)
      requires At(Validating) && claim.msg == msg && claim.trace == trace && held > 0
      modifies this, cloud
      ensures SameMessage() && At(Settling(err)) && held == old(held) - 1
    {
      err := Handle(msg, trace);
      Release(err);
    }

    /** The deferred release. */
    method Release(err: Option<Failure>)
      requires At(Returning(err)) && held > 0
      modifies this
      ensures SameMessage() && At(Settling(err)) && held == old(held) - 1
    {
      ghost var g, asked := View(), cloud.asked;
      held := held - 1;
      Took(g, asked, Proceed);
    }

    // ----- ConsumeClaim --------------------------------------------------------------------------

    method Receive(msg: Message, trace: string)
      requires Valid() && claim == Idle
      modifies this
      ensures At(Acquiring) && claim.msg == msg && claim.trace == trace && held == old(held) && start == old(start)
      ensures old(script) <= script && delivered == old(delivered) + [msg]
    {
      ghost var g, asked := View(), cloud.asked;
      n := n.(received := n.received + 1);
      Took(g, asked, Deliver(msg, trace));
    }

    /** A message comes, after some time, and waits for its turn. */
    method Arrive(msg: Message, trace: string)
      requires Valid() && claim == Idle
      modifies this, cloud
      ensures At(Acquiring) && claim.msg == msg && claim.trace == trace && held == old(held) && start == old(start)
      ensures old(script) <= script && delivered == old(delivered) + [msg]
    {
      Elapse(0);
      Receive(msg, trace);
      Elapse(0);
    }

    /** Count the result, and mark the message unless there was an error. */
    method Settle(msg: Message, err: Option<Failure>)
      requires At(Settling(err)) && claim.msg == msg
      modifies this
      ensures Valid() && claim == Idle && held == old(held) && start == old(start)
      ensures old(script) <= script && delivered == old(delivered)
      ensures positions == if err.Some? then old(positions) else Protocol.Advance(old(positions), msg.partition, msg.offset)
    {
      ghost var g, asked := View(), cloud.asked;
      if err.Some? {
        n := n.(error := n.error + 1);
      } else {
        n := n.(success := n.success + 1, marks := n.marks + 1);
        positions := Protocol.Advance(positions, msg.partition, msg.offset);
      }
      Took(g, asked, Proceed);
    }

    /** One turn of the loop. */
    method ConsumeOne(msg: Message)
      requires Valid() && claim == Idle
      modifies this, cloud
      ensures Valid() && claim == Idle && held == old(held) && start == old(start)
      ensures old(script) <= script && delivered == old(delivered) + [msg]
    {
      var trace: string := *;
      Arrive(msg, trace);
      var err := ProcessMessage(msg, trace);
      Settle(msg, err);
    }

    /**
     The loop over the claim's messages. It ends idle after exactly these messages, having taken the
     steps the script records from the state the Handler was created in, and every slot it took is
     given back.
     */
    method ConsumeClaim(messages: seq<Message>)
      requires Valid() && claim == Idle
      modifies this, cloud
      ensures Valid() && claim == Idle && held == old(held) && start == old(start)
      ensures old(script) <= script && delivered == old(delivered) + messages
      ensures Leads(View(), cloud.asked)
    {
      for i := 0 to |messages|
        invariant Valid() && claim == Idle && held == old(held) && start == old(start)
        invariant old(script) <= script && delivered == old(delivered) + messages[..i]
      {
        ConsumeOne(messages[i]);
        assert messages[..i + 1] == messages[..i] + [messages[i]];
      }
      assert messages[..|messages|] == messages;
      assert Looked(0);
    }
  }
}
