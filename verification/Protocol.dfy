/**
 The consumer's protocol, one atomic step at a time.

 A claim is the goroutine sarama runs per partition (ConsumeClaim). Its program counter says which
 call of ConsumeClaim/processMessage it is about to make; a Reply is what the environment answers.
 Step is deterministic in the reply. A script is one claim running alone; Exec interleaves claims
 with the clock and with crashes of the process.
 */
module Protocol {
  import opened Wrappers
  import opened Models
  import opened Stores

  /** The configuration NewHandler receives. Durations are in clock units. */
  datatype Config = Config(
    workers: nat,
    markTtl: nat,
    statusTtl: nat,
    maxAttempts: int,
    countsDlq: bool,                                        // redisClient != nil
    verdict: (Bytes, nat) -> Result<PaymentEvent, string>)  // the Validator, at a clock reading

  datatype WriteError = StatusWriteFailed | HistoryWriteFailed

  /** The error processMessage returns. */
  datatype Failure =
    | Cancelled                                     // no semaphore slot before the context ended
    | Invalid(reason: string)
    | BackoffCancelled
    | Exhausted(attempts: int, last: Option<WriteError>)

  datatype PC =
    | Acquiring
    | Validating
    | DlqSending(failure: Failure)
    | DlqCounting(failure: Failure)
    | Checking(event: PaymentEvent)
    | Marking(event: PaymentEvent)
    | WritingStatus(event: PaymentEvent, attempt: nat)
    | WritingHistory(event: PaymentEvent, attempt: nat)
    | Waiting(event: PaymentEvent, attempt: nat)
    | Publishing(event: PaymentEvent)
    | Returning(result: Option<Failure>)            // the deferred release of the semaphore
    | Settling(result: Option<Failure>)             // back in ConsumeClaim

  datatype Claim = Idle | Busy(call: nat, msg: Message, trace: string, at: PC)

  datatype Put = Put(attempt: nat, at: nat, afterStatus: bool)

  /** What a call has done so far; one record per delivered message. */
  datatype Call = Call(
    msg: Message,
    trace: string,
    acquired: bool,
    event: Option<PaymentEvent>,
    checkAcked: bool,                               // the existence check was answered
    hit: Option<nat>,                               // when the check answered "exists"
    passed: Option<nat>,                            // when the mark was requested
    markRan: bool,                                  // the mark request ran on the server
    markSet: bool,                                  // and it created the key
    attempts: nat,
    statusAck: Option<nat>,                         // the last attempt whose status write was acknowledged
    rowPut: Option<Put>,                            // the put that created the row
    recorded: bool,                                 // a put ran, after the status write of its attempt
    written: bool,                                  // both writes of one attempt were acknowledged
    dlqAttempts: nat,
    letterSent: bool,                               // the dead letter reached its topic
    counted: bool,                                  // and dlq:count was incremented for it
    busAttempts: nat,
    published: bool,                                // the event reached the bus
    finished: bool,
    result: Option<Failure>,
    offsetMarked: bool)

  function Blank(msg: Message, trace: string): Call {
    Call(msg, trace, false, None, false, None, None, false, false, 0, None, None, false, false, 0, false, false, 0, false,
         false, None, false)
  }

  /** The OpenTelemetry counters, and three the source does not have: cancelled, entered, marks. */
  datatype Counters = Counters(
    received: nat,
    success: nat,
    error: nat,
    hits: nat,
    dlqValidation: nat,
    dlqRetry: nat,
    retryAttempts: nat,
    cancelled: nat,
    entered: nat,
    completions: nat,
    marks: nat)

  const ZERO_COUNTERS := Counters(0, 0, 0, 0, 0, 0, 0, 0, 0, 0, 0)

  datatype Letter = Letter(msg: Message, failure: Failure)

  /** Everything the claims share: the clock, the remote stores, the Handler's fields, the record of calls. */
  datatype Shared = Shared(
    now: nat,
    redis: Redis,
    rows: Rows,
    dlq: seq<Letter>,
    bus: seq<PaymentEvent>,
    positions: map<int, int>,
    held: nat,
    n: Counters,
    calls: seq<Call>)

  datatype Reply =
    | Deliver(msg: Message, trace: string)
    | SlotTaken
    | CtxDone
    | Proceed
    | Remote(effect: Effect, acked: bool)

  predicate Enabled(cfg: Config, g: Shared, c: Claim, r: Reply) {
    match c
    case Idle => r.Deliver?
    case Busy(k, _, _, at) =>
      k < |g.calls| &&
      match at
      case Acquiring => r.CtxDone? || (r.SlotTaken? && g.held < cfg.workers)
      case Waiting(_, _) => r.CtxDone? || r.Proceed?
      case Validating => r.Proceed?
      case Returning(_) => r.Proceed? && g.held > 0
      case Settling(_) => r.Proceed?
      case WritingStatus(_, _) => r.Remote? && (r.acked ==> r.effect.Done?)
      case _ => r.Remote? && (r.acked ==> r.effect.Done?) && !r.effect.Half?
  }

  // ----- the code between two calls ------------------------------------------------------------

  /** retry.Do before its first attempt: with no attempts allowed it fails without a write. */
  function StartRetry(cfg: Config, e: PaymentEvent): PC {
    if cfg.maxAttempts <= 0 then DlqSending(Exhausted(cfg.maxAttempts, None)) else WritingStatus(e, 0)
  }

  /** retry.Do after attempt k failed. */
  function AfterFailure(cfg: Config, e: PaymentEvent, k: nat, err: WriteError): PC {
    if k + 1 < cfg.maxAttempts then Waiting(e, k + 1) else DlqSending(Exhausted(cfg.maxAttempts, Some(err)))
  }

  /** Go on to the program counter, with the call's record updated. */
  function Goto(g: Shared, c: Claim, call: Call, at: PC): (Shared, Claim)
    requires c.Busy? && c.call < |g.calls|
  {
    (g.(calls := g.calls[c.call := call]), c.(at := at))
  }

  /** sarama's MarkMessage: the position only moves forward, to one past the offset. */
  function Advance(positions: map<int, int>, p: int, offset: int): map<int, int> {
    if p in positions && offset + 1 <= positions[p] then positions else positions[p := offset + 1]
  }

  // ----- one step ------------------------------------------------------------------------------

  function OnDeliver(g: Shared, r: Reply): (Shared, Claim)
    requires r.Deliver?
  {
    (g.(n := g.n.(received := g.n.received + 1), calls := g.calls + [Blank(r.msg, r.trace)]),
     Busy(|g.calls|, r.msg, r.trace, Acquiring))
  }

  function OnAcquire(g: Shared, c: Claim, r: Reply): (Shared, Claim)
    requires c.Busy? && c.call < |g.calls|
  {
    var call := g.calls[c.call];
    if r.SlotTaken? then
      Goto(g.(held := g.held + 1), c, call.(acquired := true), Validating)
    else
      Goto(g.(n := g.n.(cancelled := g.n.cancelled + 1)), c, call, Settling(Some(Cancelled)))
  }

  function OnValidate(cfg: Config, g: Shared, c: Claim): (Shared, Claim)
    requires c.Busy? && c.call < |g.calls|
  {
    var call := g.calls[c.call];
    match cfg.verdict(c.msg.value, g.now)
    case Failure(why) => Goto(g, c, call, DlqSending(Invalid(why)))
    case Success(e) => Goto(g, c, call.(event := Some(e)), Checking(e))
  }

  /** The counter of a dead-letter attempt, by its reason. */
  function CountDead(n: Counters, f: Failure): Counters {
    n.(dlqValidation := n.dlqValidation + (if f.Invalid? then 1 else 0),
       dlqRetry := n.dlqRetry + (if f.Invalid? then 0 else 1))
  }

  function OnDlqSend(cfg: Config, g: Shared, c: Claim, f: Failure, r: Reply): (Shared, Claim)
    requires c.Busy? && c.call < |g.calls| && r.Remote?
  {
    var call := g.calls[c.call];
    var g' := g.(n := CountDead(g.n, f), dlq := g.dlq + if r.effect.Done? then [Letter(c.msg, f)] else []);
    Goto(g', c, call.(dlqAttempts := call.dlqAttempts + 1, letterSent := r.effect.Done?),
         if cfg.countsDlq then DlqCounting(f) else Returning(Some(f)))
  }

  function OnDlqCount(g: Shared, c: Claim, f: Failure, r: Reply): (Shared, Claim)
    requires c.Busy? && c.call < |g.calls| && r.Remote?
  {
    Goto(g.(redis := if r.effect.Done? then Incr(g.redis) else g.redis), c,
         g.calls[c.call].(counted := r.effect.Done?), Returning(Some(f)))
  }

  function OnCheck(g: Shared, c: Claim, e: PaymentEvent, r: Reply): (Shared, Claim)
    requires c.Busy? && c.call < |g.calls| && r.Remote?
  {
    var found := r.acked && MarkLive(g.redis, g.now, e.paymentId);
    Goto(g.(n := g.n.(hits := g.n.hits + if found then 1 else 0)), c,
         g.calls[c.call].(checkAcked := r.acked, hit := if found then Some(g.now) else None),
         if found then Returning(None) else Marking(e))
  }

  function OnMark(cfg: Config, g: Shared, c: Claim, e: PaymentEvent, r: Reply): (Shared, Claim)
    requires c.Busy? && c.call < |g.calls| && r.Remote?
  {
    var ran := r.effect.Done?;
    var created := ran && !MarkLive(g.redis, g.now, e.paymentId);
    Goto(g.(redis := if ran then SetNX(g.redis, g.now, e.paymentId, cfg.markTtl) else g.redis,
            n := g.n.(entered := g.n.entered + 1)), c,
         g.calls[c.call].(passed := Some(g.now), markRan := ran, markSet := created),
         StartRetry(cfg, e))
  }

  function OnWriteStatus(cfg: Config, g: Shared, c: Claim, e: PaymentEvent, k: nat, r: Reply): (Shared, Claim)
    requires c.Busy? && c.call < |g.calls| && r.Remote?
  {
    var call := g.calls[c.call];
    var g' := g.(n := g.n.(retryAttempts := g.n.retryAttempts + 1),
                 redis := Pipeline(g.redis, g.now, e.paymentId, e.status, cfg.statusTtl, r.effect));
    Goto(g', c, call.(attempts := call.attempts + 1, statusAck := if r.acked then Some(k) else call.statusAck),
         if r.acked then WritingHistory(e, k) else AfterFailure(cfg, e, k, StatusWriteFailed))
  }

  function OnWriteHistory(cfg: Config, g: Shared, c: Claim, e: PaymentEvent, k: nat, r: Reply): (Shared, Claim)
    requires c.Busy? && c.call < |g.calls| && r.Remote?
  {
    var creates := r.effect.Done? && KeyOf(e) !in g.rows;
    var item := NewPaymentHistoryFromEvent(e, g.now, c.trace);
    var was := g.calls[c.call];
    var g' := g.(rows := if r.effect.Done? then PutIfAbsent(g.rows, KeyOf(e), item) else g.rows);
    Goto(g', c,
         was.(rowPut := if creates then Some(Put(k, g.now, was.statusAck == Some(k))) else was.rowPut,
              recorded := was.recorded || r.effect.Done?,
              written := was.written || r.acked),
         if r.acked then Publishing(e) else AfterFailure(cfg, e, k, HistoryWriteFailed))
  }

  function OnWait(g: Shared, c: Claim, e: PaymentEvent, k: nat, r: Reply): (Shared, Claim)
    requires c.Busy? && c.call < |g.calls|
  {
    Goto(g, c, g.calls[c.call], if r.CtxDone? then DlqSending(BackoffCancelled) else WritingStatus(e, k))
  }

  function OnPublish(g: Shared, c: Claim, e: PaymentEvent, r: Reply): (Shared, Claim)
    requires c.Busy? && c.call < |g.calls| && r.Remote?
  {
    var call := g.calls[c.call];
    var g' := g.(bus := g.bus + if r.effect.Done? then [e] else [], n := g.n.(completions := g.n.completions + 1));
    Goto(g', c,
         call.(busAttempts := call.busAttempts + 1, published := r.effect.Done?), Returning(None))
  }

  function OnReturn(g: Shared, c: Claim, result: Option<Failure>): (Shared, Claim)
    requires c.Busy? && c.call < |g.calls| && g.held > 0
  {
    Goto(g.(held := g.held - 1), c, g.calls[c.call], Settling(result))
  }

  function OnSettle(g: Shared, c: Claim, result: Option<Failure>): (Shared, Claim)
    requires c.Busy? && c.call < |g.calls|
  {
    var ok := result.None?;
    var call := g.calls[c.call].(finished := true, result := result, offsetMarked := ok);
    (g.(n := g.n.(success := g.n.success + (if ok then 1 else 0),
                  marks := g.n.marks + (if ok then 1 else 0),
                  error := g.n.error + (if ok then 0 else 1)),
        positions := if ok then Advance(g.positions, c.msg.partition, c.msg.offset) else g.positions,
        calls := g.calls[c.call := call]),
     Idle)
  }

  function Step(cfg: Config, g: Shared, c: Claim, r: Reply): (Shared, Claim)
    requires Enabled(cfg, g, c, r)
  {
    match c
    case Idle => OnDeliver(g, r)
    case Busy(_, _, _, at) =>
      match at
      case Acquiring => OnAcquire(g, c, r)
      case Validating => OnValidate(cfg, g, c)
      case DlqSending(f) => OnDlqSend(cfg, g, c, f, r)
      case DlqCounting(f) => OnDlqCount(g, c, f, r)
      case Checking(e) => OnCheck(g, c, e, r)
      case Marking(e) => OnMark(cfg, g, c, e, r)
      case WritingStatus(e, k) => OnWriteStatus(cfg, g, c, e, k, r)
      case WritingHistory(e, k) => OnWriteHistory(cfg, g, c, e, k, r)
      case Waiting(e, k) => OnWait(g, c, e, k, r)
      case Publishing(e) => OnPublish(g, c, e, r)
      case Returning(result) => OnReturn(g, c, result)
      case Settling(result) => OnSettle(g, c, result)
  }

  // ----- one claim alone -----------------------------------------------------------------------

  datatype Action = Do(reply: Reply) | Tick(d: nat)

  function Act(cfg: Config, g: Shared, c: Claim, a: Action): Option<(Shared, Claim)> {
    match a
    case Tick(d) => Some((g.(now := g.now + d), c))
    case Do(r) => if Enabled(cfg, g, c, r) then Some(Step(cfg, g, c, r)) else None
  }

  /** The state after a script, or None when the script asks for a step that cannot happen. */
  function After(cfg: Config, g: Shared, c: Claim, script: seq<Action>): Option<(Shared, Claim)> {
    if script == [] then Some((g, c))
    else
      match After(cfg, g, c, script[..|script| - 1])
      case None => None
      case Some(gc) => Act(cfg, gc.0, gc.1, script[|script| - 1])
  }

  lemma AfterSnoc(cfg: Config, g: Shared, c: Claim, script: seq<Action>, a: Action)
    ensures After(cfg, g, c, script + [a]) ==
            match After(cfg, g, c, script)
            case None => None
            case Some(gc) => Act(cfg, gc.0, gc.1, a)
  {
    assert (script + [a])[..|script|] == script;
  }

  /** The messages a script delivers, in order. */
  function Delivered(script: seq<Action>): seq<Message> {
    if script == [] then []
    else
      var a := script[|script| - 1];
      Delivered(script[..|script| - 1]) + if a.Do? && a.reply.Deliver? then [a.reply.msg] else []
  }

  lemma DeliveredSnoc(script: seq<Action>, a: Action)
    ensures Delivered(script + [a]) == Delivered(script) + if a.Do? && a.reply.Deliver? then [a.reply.msg] else []
  {
    assert (script + [a])[..|script|] == script;
  }

  // ----- all claims ----------------------------------------------------------------------------

  /** Claim p consumes partition p. */
  datatype System = System(g: Shared, claims: seq<Claim>)

  datatype Event = Move(p: nat, reply: Reply) | Pass(d: nat) | Crash

  predicate Possible(cfg: Config, s: System, ev: Event) {
    match ev
    case Pass(_) => true
    case Crash => true
    case Move(p, r) =>
      && p < |s.claims|
      && Enabled(cfg, s.g, s.claims[p], r)
      && (r.Deliver? ==> r.msg.partition == p)
  }

  /**
   A crash loses the process: claims, semaphore and counters. The stores and the record of calls stay,
   and so do the positions, which are the furthest marked so far: what was committed of them may lag
   behind. Redelivery needs no rule of its own: any message of its partition can be delivered to an
   idle claim at any time.
   */
  function Happen(cfg: Config, s: System, ev: Event): System
    requires Possible(cfg, s, ev)
  {
    match ev
    case Pass(d) => s.(g := s.g.(now := s.g.now + d))
    case Crash => System(s.g.(held := 0, n := ZERO_COUNTERS), seq(|s.claims|, _ => Idle))
    case Move(p, r) =>
      var (g, c) := Step(cfg, s.g, s.claims[p], r);
      System(g, s.claims[p := c])
  }

  function Exec(cfg: Config, s: System, run: seq<Event>): Option<System> {
    if run == [] then Some(s)
    else
      match Exec(cfg, s, run[..|run| - 1])
      case None => None
      case Some(m) => if Possible(cfg, m, run[|run| - 1]) then Some(Happen(cfg, m, run[|run| - 1])) else None
  }

  /** A run in two parts. */
  lemma {:induction false} ExecAppend(cfg: Config, s: System, run: seq<Event>, more: seq<Event>)
    requires Exec(cfg, s, run).Some?
    ensures Exec(cfg, s, run + more) == Exec(cfg, Exec(cfg, s, run).value, more)
  {
    if more == [] {
      assert run + more == run;
    } else {
      var n := |more| - 1;
      assert (run + more)[..|run + more| - 1] == run + more[..n];
      ExecAppend(cfg, s, run, more[..n]);
    }
  }

  /** The consumer before its first session: nothing in flight and no idempotency mark in Redis. */
  predicate Init(s: System) {
    && s.g.held == 0 && s.g.n == ZERO_COUNTERS && s.g.calls == []
    && s.g.redis.marks == map[]
    && s.g.bus == []
    && forall p :: 0 <= p < |s.claims| ==> s.claims[p] == Idle
  }

  /** t is a reachable state: some run from an initial state s ends in it. */
  predicate Reaches(cfg: Config, s: System, run: seq<Event>, t: System) {
    Init(s) && Exec(cfg, s, run) == Some(t)
  }

  /** An action of one claim as an event of claim p, and a script as a run. */
  function LiftOne(p: nat, a: Action): Event {
    match a
    case Do(r) => Move(p, r)
    case Tick(d) => Pass(d)
  }

  function Lift(p: nat, script: seq<Action>): seq<Event> {
    seq(|script|, i requires 0 <= i < |script| => LiftOne(p, script[i]))
  }

  lemma SoloStep(cfg: Config, s: System, p: nat, g: Shared, c: Claim, a: Action)
    requires p < |s.claims| && Act(cfg, g, c, a).Some?
    requires a.Do? && a.reply.Deliver? ==> a.reply.msg.partition == p
    ensures var next, m := Act(cfg, g, c, a).value, System(g, s.claims[p := c]);
            Possible(cfg, m, LiftOne(p, a)) && Happen(cfg, m, LiftOne(p, a)) == System(next.0, s.claims[p := next.1])
  {
    var next := Act(cfg, g, c, a).value;
    assert s.claims[p := c][p := next.1] == s.claims[p := next.1];
  }

  /**
   A claim running alone is a run of the whole system in which only that claim moves: what is
   proved of every run holds of every execution of ConsumeClaim.
   */
  lemma {:induction false} SoloRun(cfg: Config, s: System, p: nat, script: seq<Action>)
    requires p < |s.claims|
    requires After(cfg, s.g, s.claims[p], script).Some?
    requires forall m :: m in Delivered(script) ==> m.partition == p
    ensures var gc := After(cfg, s.g, s.claims[p], script).value;
            Exec(cfg, s, Lift(p, script)) == Some(System(gc.0, s.claims[p := gc.1]))
  {
    if script == [] {
      assert s.claims[p := s.claims[p]] == s.claims;
    } else {
      var n := |script| - 1;
      var last := script[n];
      SoloRun(cfg, s, p, script[..n]);
      assert Lift(p, script)[..n] == Lift(p, script[..n]);
      assert last.Do? && last.reply.Deliver? ==> last.reply.msg in Delivered(script);
      var (g, c) := After(cfg, s.g, s.claims[p], script[..n]).value;
      SoloStep(cfg, s, p, g, c, last);
    }
  }
}
