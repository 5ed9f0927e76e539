/**
 The design documents promise that no message in flight is lost, because idempotency makes
 redelivery safe. The mark is set before the writes, it is for the payment and not for the event, and
 a failed dead letter is only logged, so the promise fails: here is exactly when, message by message.
 */
module Loss {
  import opened Wrappers
  import opened Models
  import opened Stores
  import opened Protocol
  import opened Safety
  import opened Provenance
  import opened Atomicity
  import opened Outcomes
  import opened Runs

  // ----- a message that was handled ------------------------------------------------------------

  predicate LetterFor(dlq: seq<Letter>, m: Message) {
    exists i :: 0 <= i < |dlq| && dlq[i].msg == m
  }

  /** The event's history row is in the table, or a dead letter for its message is in the topic. */
  predicate MessageHandled(g: Shared, m: Message, e: PaymentEvent) {
    KeyOf(e) in g.rows || LetterFor(g.dlq, m)
  }

  /** The call put the event's row, after its status write, or got the message's dead letter through. */
  predicate Handles(call: Call, m: Message, e: PaymentEvent) {
    || (call.recorded && call.event.Some? && KeyOf(call.event.value) == KeyOf(e))
    || (call.letterSent && call.msg == m)
  }

  /** The message was handled before the run, or by some other call than call k. */
  predicate HandledElsewhere(s: Shared, calls: seq<Call>, k: nat, m: Message, e: PaymentEvent) {
    MessageHandled(s, m, e) || exists j :: 0 <= j < |calls| && j != k && Handles(calls[j], m, e)
  }

  predicate ForId(call: Call, id: string) {
    call.event.Some? && call.event.value.paymentId == id
  }

  lemma LettersSince(cfg: Config, s: System, run: seq<Event>, t: System, m: Message)
    requires Reaches(cfg, s, run, t)
    ensures LetterFor(t.g.dlq, m)
            <==> LetterFor(s.g.dlq, m) || exists k :: 0 <= k < |t.g.calls| && t.g.calls[k].letterSent && t.g.calls[k].msg == m
  {
    NoLetterExactlyWhen(cfg, s, run, t, m);
    if i :| 0 <= i < |s.g.dlq| && s.g.dlq[i].msg == m {
      assert t.g.dlq[i].msg == m;
    }
    if i :| 0 <= i < |t.g.dlq| && t.g.dlq[i].msg == m {
      assert i < |s.g.dlq| ==> s.g.dlq[i].msg == m;
    }
  }

  lemma RowsSince(cfg: Config, s: System, run: seq<Event>, t: System, key: RowKey)
    requires Reaches(cfg, s, run, t)
    ensures key in t.g.rows
            <==> key in s.g.rows
                 || exists k :: 0 <= k < |t.g.calls| && t.g.calls[k].recorded && t.g.calls[k].event.Some?
                                && KeyOf(t.g.calls[k].event.value) == key
  {
    RowsAlways(cfg, s, run);
    ControlAlways(cfg, s, run);
    if key in t.g.rows && key !in s.g.rows {
      var j := RowHasWriter(cfg, s, run, t, key);
      assert Sound(cfg, t.g.calls[j]);
    }
    forall k | 0 <= k < |t.g.calls| && t.g.calls[k].recorded && t.g.calls[k].event.Some?
      ensures KeyOf(t.g.calls[k].event.value) in t.g.rows
    {
      assert RecordedRowExists(t.g, t.g.calls[k]);
    }
  }

  /**
   In every reachable state the row or the letter of a message is there if and only if it was there at
   the start or some call put the one or got the other through; and only an event with a row can have
   been published.
   */
  lemma HandledIsVisible(cfg: Config, s: System, run: seq<Event>, t: System, m: Message, e: PaymentEvent)
    requires Reaches(cfg, s, run, t)
    ensures MessageHandled(t.g, m, e)
            <==> MessageHandled(s.g, m, e) || exists j :: 0 <= j < |t.g.calls| && Handles(t.g.calls[j], m, e)
    ensures !MessageHandled(t.g, m, e) ==> e !in t.g.bus
  {
    LettersSince(cfg, s, run, t, m);
    RowsSince(cfg, s, run, t, KeyOf(e));
    if e in t.g.bus {
      PublishedIsPersisted(cfg, s, run, t, e);
    }
  }

  /** A payment none of whose calls handled anything has no row that does not predate the run, was never published, and none of the letters is its. */
  lemma UnhandledIsInvisible(cfg: Config, s: System, run: seq<Event>, t: System, id: string)
    requires Reaches(cfg, s, run, t)
    requires forall k :: 0 <= k < |t.g.calls| && ForId(t.g.calls[k], id) ==> !t.g.calls[k].recorded && !t.g.calls[k].letterSent
    ensures forall key :: key in t.g.rows && key.paymentId == id ==> key in s.g.rows
    ensures forall e :: e in t.g.bus ==> e.paymentId != id
    ensures forall m :: LetterFor(t.g.dlq, m) ==>
              LetterFor(s.g.dlq, m) ||
              exists k :: 0 <= k < |t.g.calls| && t.g.calls[k].msg == m && t.g.calls[k].letterSent && !ForId(t.g.calls[k], id)
  {
    ControlAlways(cfg, s, run);
    var publishers := PublishedHasCall(cfg, s, run, t);
    forall key | key in t.g.rows && key.paymentId == id
      ensures key in s.g.rows
    {
      RowsSince(cfg, s, run, t, key);
    }
    forall i | 0 <= i < |t.g.bus|
      ensures t.g.bus[i].paymentId != id
    {
      assert PublishedBy(t.g, publishers[i], t.g.bus[i]) && Sound(cfg, t.g.calls[publishers[i]]);
    }
    forall m | LetterFor(t.g.dlq, m)
      ensures LetterFor(s.g.dlq, m) ||
              exists k :: 0 <= k < |t.g.calls| && t.g.calls[k].msg == m && t.g.calls[k].letterSent && !ForId(t.g.calls[k], id)
    {
      LettersSince(cfg, s, run, t, m);
    }
  }

  /** What no call handled was handled neither here nor elsewhere, and the other way round. */
  lemma OwnOrElsewhere(cfg: Config, s: System, run: seq<Event>, t: System, k: nat, m: Message, e: PaymentEvent)
    requires Reaches(cfg, s, run, t) && k < |t.g.calls|
    ensures MessageHandled(t.g, m, e) <==> Handles(t.g.calls[k], m, e) || HandledElsewhere(s.g, t.g.calls, k, m, e)
  {
    HandledIsVisible(cfg, s, run, t, m, e);
  }

  // ----- what a loss looks like afterwards -----------------------------------------------------

  /** A call that set the payment's mark and did not handle this message. */
  predicate Dropped(call: Call, m: Message, e: PaymentEvent) {
    ForId(call, e.paymentId) && call.markSet && !Handles(call, m, e)
  }

  /**
   In every reachable state: a message whose offset was marked has its row or its letter, unless some
   call for its payment set the mark without handling this message.
   */
  lemma MarkedIsHandledUnlessDropped(cfg: Config, s: System, run: seq<Event>, t: System, k: nat)
    requires Reaches(cfg, s, run, t) && k < |t.g.calls| && t.g.calls[k].offsetMarked
    ensures var m, call := t.g.calls[k].msg, t.g.calls[k];
            && call.event.Some?
            && (MessageHandled(t.g, m, call.event.value)
                || exists j :: 0 <= j < |t.g.calls| && Dropped(t.g.calls[j], m, call.event.value))
  {
    ControlAlways(cfg, s, run);
    var calls := t.g.calls;
    assert Sound(cfg, calls[k]);
    var m, e := calls[k].msg, calls[k].event.value;
    HandledIsVisible(cfg, s, run, t, m, e);
    if calls[k].hit.Some? {
      var j := SkipHasCause(cfg, s, run, t, k);
      assert Dropped(calls[j], m, e) || Handles(calls[j], m, e);
    } else {
      assert Handles(calls[k], m, e);
    }
  }

  /** The call was for another message or another event of the payment: this message was taken for its duplicate. */
  predicate ForAnother(call: Call, m: Message, e: PaymentEvent) {
    call.event.Some? && (call.msg != m || KeyOf(call.event.value) != KeyOf(e))
  }

  /** The call was cut off by a crash: it has not returned, and no claim works on it any more. */
  predicate CutOff(t: System, j: nat)
    requires j < |t.g.calls|
  {
    !t.g.calls[j].finished && forall q :: 0 <= q < |t.claims| && t.claims[q].Busy? ==> t.claims[q].call != j
  }

  /** The call returned an error, and its dead letter did not get through. */
  predicate LetterLost(call: Call) {
    call.finished && call.result.Some? && call.dlqAttempts == 1 && !call.letterSent
  }

  /**
   With payment ids routed to partitions, a marked message is lost in three ways only. It was skipped
   for the mark of an earlier call of its partition and payment, and either that call was for another
   message or event of the payment, or it was for this very message and was cut off by a crash, or
   returned an error whose dead letter was lost.
   */
  lemma LossHasThreeCauses(cfg: Config, home: string -> int, s: System, run: seq<Event>, t: System, k: nat) returns (j: nat)
    requires Reaches(cfg, s, run, t) && Routed(cfg, home, run)
    requires k < |t.g.calls| && t.g.calls[k].offsetMarked && t.g.calls[k].event.Some?
    requires !MessageHandled(t.g, t.g.calls[k].msg, t.g.calls[k].event.value)
    ensures var m, e := t.g.calls[k].msg, t.g.calls[k].event.value;
            && j < k && Dropped(t.g.calls[j], m, e)
            && (ForAnother(t.g.calls[j], m, e) || CutOff(t, j) || LetterLost(t.g.calls[j]))
            && t.g.calls[k].hit.Some?
            && Justifies(cfg, t.g.calls, j, k, e.paymentId, t.g.calls[k].hit.value)
  {
    ControlAlways(cfg, s, run);
    ExclusiveAlways(cfg, home, s, run);
    var calls := t.g.calls;
    var m, e := calls[k].msg, calls[k].event.value;
    HandledIsVisible(cfg, s, run, t, m, e);
    assert Sound(cfg, calls[k]) && !Handles(calls[k], m, e);
    j := SkipHasCause(cfg, s, run, t, k);
    assert Sound(cfg, calls[j]) && !Handles(calls[j], m, e);
    assert CallRouted(cfg, home, calls[j]) && CallRouted(cfg, home, calls[k]);
    forall q | 0 <= q < |t.claims| && t.claims[q].Busy?
      ensures t.claims[q].call != j
    {
      assert ClaimFits(cfg, t.g, t.claims[q]) && Newest(t.g, t.claims[q]);
    }
  }

  // ----- when redelivery loses a message -------------------------------------------------------

  predicate NoCrash(run: seq<Event>) {
    forall i :: 0 <= i < |run| ==> !run[i].Crash?
  }

  /** Every dead-letter attempt of the calls from n on got through. */
  predicate LettersArrive(calls: seq<Call>, n: nat) {
    forall k :: n <= k < |calls| && calls[k].dlqAttempts == 1 ==> calls[k].letterSent
  }

  /** The message never validates to an event of this payment. */
  ghost predicate NeverFor(cfg: Config, m: Message, id: string) {
    forall t: nat :: cfg.verdict(m.value, t).Success? ==> cfg.verdict(m.value, t).value.paymentId != id
  }

  /** Whenever the message validates, it is to this event. */
  ghost predicate OnlyTo(cfg: Config, m: Message, e: PaymentEvent) {
    forall t: nat :: cfg.verdict(m.value, t).Success? ==> cfg.verdict(m.value, t) == Success(e)
  }

  ghost predicate AloneFor(cfg: Config, m: Message, id: string, other: Message) {
    other == m || NeverFor(cfg, other, id)
  }

  /** No other message of this payment is delivered. */
  ghost predicate OnlyMessage(cfg: Config, m: Message, id: string, run: seq<Event>) {
    forall i :: 0 <= i < |run| && Delivers(run[i]) ==> AloneFor(cfg, m, id, run[i].reply.msg)
  }

  /** Call k marked the offset of this message, and it has neither row nor letter. */
  predicate LostBy(g: Shared, k: nat, m: Message, e: PaymentEvent) {
    && k < |g.calls| && g.calls[k].msg == m && g.calls[k].event == Some(e) && g.calls[k].offsetMarked
    && !MessageHandled(g, m, e)
  }

  /**
   After these events from u - in which nothing crashes, no letter is lost and no other message of the
   payment arrives - message m, delivered again, is lost.
   */
  ghost predicate Loses(cfg: Config, home: string -> int, u: System, m: Message, e: PaymentEvent, after: seq<Event>) {
    && NoCrash(after) && Routed(cfg, home, after) && OnlyMessage(cfg, m, e.paymentId, after)
    && Exec(cfg, u, after).Some?
    && var g := Exec(cfg, u, after).value.g;
       && LettersArrive(g.calls, |u.g.calls|)
       && exists k: nat :: |u.g.calls| <= k && LostBy(g, k, m, e)
  }

  /** What has happened up to u is enough for redelivery to lose the message. */
  ghost predicate CanLose(cfg: Config, home: string -> int, u: System, m: Message, e: PaymentEvent) {
    exists after :: Loses(cfg, home, u, m, e, after)
  }

  /** The claim of the call's partition works on call k. */
  predicate OnIt(s: System, k: nat)
    requires k < |s.g.calls|
  {
    var q := s.g.calls[k].msg.partition;
    0 <= q < |s.claims| && s.claims[q].Busy? && s.claims[q].call == k
  }

  /**
   Since g0, when partition p's claim was idle: p's calls up to then stay as they are, every unfinished
   one since is in flight, and rows and letters were only added.
   */
  predicate Since(g0: Shared, p: nat, s: System) {
    && |g0.calls| <= |s.g.calls| && g0.now <= s.g.now && p < |s.claims|
    && Grown(g0.rows, s.g.rows) && g0.dlq <= s.g.dlq
    && (forall k :: 0 <= k < |g0.calls| ==> s.g.calls[k].msg == g0.calls[k].msg)
    && (forall k :: 0 <= k < |g0.calls| && g0.calls[k].msg.partition == p ==> s.g.calls[k] == g0.calls[k])
    && (forall k :: |g0.calls| <= k < |s.g.calls| && s.g.calls[k].hit.Some? ==> g0.now <= s.g.calls[k].hit.value)
    && (s.claims[p].Busy? ==> s.claims[p].call >= |g0.calls|)
    && (forall k :: |g0.calls| <= k < |s.g.calls| && !s.g.calls[k].finished ==> OnIt(s, k))
  }

  lemma SinceMove(cfg: Config, g0: Shared, p: nat, s: System, q: nat, g': Shared, c': Claim)
    requires q < |s.claims| && Control(cfg, s) && Since(g0, p, s) && Moved(cfg, s.g, s.claims[q], g', c')
    requires s.g.dlq <= g'.dlq
    ensures Since(g0, p, System(g', s.claims[q := c']))
  {
    var s' := System(g', s.claims[q := c']);
    RowsGrow(cfg, s.g, s.claims[q], g', c');
    forall k | |g0.calls| <= k < |s'.g.calls| && !s'.g.calls[k].finished
      ensures OnIt(s', k)
    {
      assert k != s.claims[q].call ==> OnIt(s, k);
    }
  }

  lemma SinceRest(cfg: Config, g0: Shared, p: nat, s: System, ev: Event)
    requires Possible(cfg, s, ev) && Since(g0, p, s) && !ev.Crash?
    requires ev.Move? ==> s.claims[ev.p].Idle?
    ensures Since(g0, p, Happen(cfg, s, ev))
  {
    var s' := Happen(cfg, s, ev);
    forall k | |g0.calls| <= k < |s'.g.calls| && !s'.g.calls[k].finished
      ensures OnIt(s', k)
    {
      assert k < |s.g.calls| ==> OnIt(s, k);
    }
  }

  lemma SinceStep(cfg: Config, g0: Shared, p: nat, s: System, ev: Event)
    requires Possible(cfg, s, ev) && Control(cfg, s) && Since(g0, p, s) && !ev.Crash?
    ensures Since(g0, p, Happen(cfg, s, ev))
  {
    if ev.Move? && s.claims[ev.p].Busy? {
      var (g', c') := Step(cfg, s.g, s.claims[ev.p], ev.reply);
      ClaimStep(cfg, s.g, s.claims[ev.p], ev.reply);
      LetterStep(cfg, s.g, s.claims[ev.p], ev.reply);
      SinceMove(cfg, g0, p, s, ev.p, g', c');
    } else {
      SinceRest(cfg, g0, p, s, ev);
    }
  }

  lemma {:induction false} SinceAlways(cfg: Config, u: System, p: nat, after: seq<Event>)
    requires Control(cfg, u) && p < |u.claims| && u.claims[p].Idle?
    requires NoCrash(after) && Exec(cfg, u, after).Some?
    ensures var t := Exec(cfg, u, after).value; Control(cfg, t) && Since(u.g, p, t)
  {
    if after != [] {
      var init := after[..|after| - 1];
      var m := Exec(cfg, u, init).value;
      SinceAlways(cfg, u, p, init);
      ControlStep(cfg, m, after[|after| - 1]);
      SinceStep(cfg, u.g, p, m, after[|after| - 1]);
    }
  }

  /** The calls from n on that are for this payment are all for this message and event. */
  ghost predicate OnlyCalls(cfg: Config, m: Message, e: PaymentEvent, n: nat, calls: seq<Call>) {
    forall k :: n <= k < |calls| ==> OnlyCall(cfg, m, e, calls[k])
  }

  ghost predicate OnlyCall(cfg: Config, m: Message, e: PaymentEvent, call: Call) {
    && AloneFor(cfg, m, e.paymentId, call.msg)
    && (ForId(call, e.paymentId) ==> call.msg == m && call.event == Some(e))
  }

  lemma OnlyStep(cfg: Config, m: Message, e: PaymentEvent, n: nat, s: System, ev: Event)
    requires Possible(cfg, s, ev) && Control(cfg, s) && OnlyTo(cfg, m, e) && OnlyCalls(cfg, m, e, n, s.g.calls)
    requires Delivers(ev) ==> AloneFor(cfg, m, e.paymentId, ev.reply.msg)
    ensures OnlyCalls(cfg, m, e, n, Happen(cfg, s, ev).g.calls)
  {
    if ev.Move? && s.claims[ev.p].Busy? {
      var (g', c') := Step(cfg, s.g, s.claims[ev.p], ev.reply);
      ClaimStep(cfg, s.g, s.claims[ev.p], ev.reply);
      OnlyMove(cfg, m, e, n, s.g, s.claims[ev.p], g', c');
    }
  }

  lemma OnlyMove(cfg: Config, m: Message, e: PaymentEvent, n: nat, g: Shared, c: Claim, g': Shared, c': Claim)
    requires Moved(cfg, g, c, g', c') && OnlyTo(cfg, m, e) && OnlyCalls(cfg, m, e, n, g.calls)
    ensures OnlyCalls(cfg, m, e, n, g'.calls)
  {
    if c.call >= n {
      assert OnlyCall(cfg, m, e, g.calls[c.call]);
      assert OnlyCall(cfg, m, e, g'.calls[c.call]);
    }
    forall k | n <= k < |g'.calls|
      ensures OnlyCall(cfg, m, e, g'.calls[k])
    {
      assert k != c.call ==> OnlyCall(cfg, m, e, g.calls[k]);
    }
  }

  lemma {:induction false} OnlyAlways(cfg: Config, m: Message, e: PaymentEvent, u: System, after: seq<Event>)
    requires Control(cfg, u) && OnlyTo(cfg, m, e) && OnlyMessage(cfg, m, e.paymentId, after)
    requires Exec(cfg, u, after).Some?
    ensures Control(cfg, Exec(cfg, u, after).value)
    ensures OnlyCalls(cfg, m, e, |u.g.calls|, Exec(cfg, u, after).value.g.calls)
  {
    if after != [] {
      var init, ev := after[..|after| - 1], after[|after| - 1];
      var t := Exec(cfg, u, init).value;
      assert Delivers(ev) ==> AloneFor(cfg, m, e.paymentId, ev.reply.msg);
      OnlyAlways(cfg, m, e, u, init);
      ControlStep(cfg, t, ev);
      OnlyStep(cfg, m, e, |u.g.calls|, t, ev);
    }
  }

  /** A run in two parts. */
  lemma TwoParts(cfg: Config, home: string -> int, s: System, run: seq<Event>, u: System, after: seq<Event>, t: System)
    requires Reaches(cfg, s, run, u) && Routed(cfg, home, run) && Routed(cfg, home, after)
    requires Exec(cfg, u, after) == Some(t)
    ensures Reaches(cfg, s, run + after, t) && Routed(cfg, home, run + after)
  {
    ExecAppend(cfg, s, run, after);
  }

  /** The mark that a lost message was skipped for is older than u. */
  lemma CauseIsOlder(cfg: Config, home: string -> int, u: System, p: nat, t: System, m: Message, e: PaymentEvent, j: nat)
    requires Since(u.g, p, t) && LettersArrive(t.g.calls, |u.g.calls|) && OnlyCalls(cfg, m, e, |u.g.calls|, t.g.calls)
    requires j < |t.g.calls| && Dropped(t.g.calls[j], m, e)
    requires ForAnother(t.g.calls[j], m, e) || CutOff(t, j) || LetterLost(t.g.calls[j])
    ensures j < |u.g.calls|
  {
    assert j >= |u.g.calls| ==> OnlyCall(cfg, m, e, t.g.calls[j]);
  }

  /** A message lost after u has a payment mark that was live at u, and was not handled then. */
  lemma LossHasMark(cfg: Config, home: string -> int, s: System, run: seq<Event>, u: System, p: nat,
                    m: Message, e: PaymentEvent, after: seq<Event>)
    requires Reaches(cfg, s, run, u) && Routed(cfg, home, run) && Loses(cfg, home, u, m, e, after)
    requires p < |u.claims| && u.claims[p].Idle? && m.partition == p && OnlyTo(cfg, m, e)
    ensures MarkLive(u.g.redis, u.g.now, e.paymentId) && !MessageHandled(u.g, m, e)
  {
    var t := Exec(cfg, u, after).value;
    var k: nat :| |u.g.calls| <= k && LostBy(t.g, k, m, e);
    TwoParts(cfg, home, s, run, u, after, t);
    ControlAlways(cfg, s, run);
    SinceAlways(cfg, u, p, after);
    OnlyAlways(cfg, m, e, u, after);
    var j := LossHasThreeCauses(cfg, home, s, run + after, t, k);
    CauseIsOlder(cfg, home, u, p, t, m, e, j);
    ExclusiveAlways(cfg, home, s, run);
    ExclusiveAlways(cfg, home, s, run + after);
    OldMarkIsLive(cfg, home, u, p, t, k, j, e.paymentId);
    if MessageHandled(u.g, m, e) {
      HandledStays(u.g, p, t, m, e);
    }
  }

  /** A mark set before u and found after it is live at u. */
  lemma OldMarkIsLive(cfg: Config, home: string -> int, u: System, p: nat, t: System, k: nat, j: nat, id: string)
    requires Since(u.g, p, t) && Exclusive(cfg, home, u) && Exclusive(cfg, home, t)
    requires |u.g.calls| <= k < |t.g.calls| && j < |u.g.calls|
    requires t.g.calls[k].msg.partition == p && ForId(t.g.calls[k], id) && t.g.calls[k].hit.Some?
    requires Justifies(cfg, t.g.calls, j, k, id, t.g.calls[k].hit.value)
    ensures MarkLive(u.g.redis, u.g.now, id)
  {
    assert CallRouted(cfg, home, t.g.calls[j]) && CallRouted(cfg, home, t.g.calls[k]);
    assert t.g.calls[j] == u.g.calls[j];
    assert MarkStands(cfg, u.g, u.g.calls[j]);
  }

  lemma HandledStays(g0: Shared, p: nat, t: System, m: Message, e: PaymentEvent)
    requires Since(g0, p, t) && MessageHandled(g0, m, e)
    ensures MessageHandled(t.g, m, e)
  {
    if LetterFor(g0.dlq, m) {
      var i :| 0 <= i < |g0.dlq| && g0.dlq[i].msg == m;
      assert t.g.dlq[i].msg == m;
    }
  }

  lemma SkipLoses(cfg: Config, home: string -> int, u: System, p: nat, m: Message, e: PaymentEvent)
    requires CanTake(cfg, u, p, m, e) && MessageRouted(cfg, home, m)
    requires MarkLive(u.g.redis, u.g.now, e.paymentId) && !MessageHandled(u.g, m, e)
    ensures CanLose(cfg, home, u, m, e)
  {
    var t := Skip(cfg, u, p, m, e);
    var k := |u.g.calls|;
    assert t.g.calls[k] == SkippedCall(m, e, u.g.now);
    assert LostBy(t.g, k, m, e);
    assert Loses(cfg, home, u, m, e, SkipEvents(p, m));
  }

  /**
   Exactly when redelivery loses a message. Take any reachable state with ids routed to partitions,
   whatever failed and crashed before, and an idle claim that can take a message that validates to e.
   There is a run - with no crash, no lost letter and no other message of the payment from here on -
   after which this message's offset is marked and it has neither row nor letter, if and only if the
   payment's mark is live and the message has neither row nor letter now.
   */
  lemma RedeliveryLosesExactlyWhen(cfg: Config, home: string -> int, s: System, run: seq<Event>, u: System,
                                   p: nat, m: Message, e: PaymentEvent)
    requires Reaches(cfg, s, run, u) && Routed(cfg, home, run)
    requires CanTake(cfg, u, p, m, e) && MessageRouted(cfg, home, m) && OnlyTo(cfg, m, e)
    ensures CanLose(cfg, home, u, m, e)
            <==> MarkLive(u.g.redis, u.g.now, e.paymentId) && !MessageHandled(u.g, m, e)
  {
    if MarkLive(u.g.redis, u.g.now, e.paymentId) && !MessageHandled(u.g, m, e) {
      SkipLoses(cfg, home, u, p, m, e);
    }
    if after :| Loses(cfg, home, u, m, e, after) {
      LossHasMark(cfg, home, s, run, u, p, m, e, after);
    }
  }

  // ----- when a crash loses a message ----------------------------------------------------------

  /** The call's row has not been put, and its letter has not arrived, though it may already be lost. */
  predicate InWindow(at: PC, call: Call) {
    match at
    case WritingStatus(_, _) => !call.recorded
    case WritingHistory(_, _) => !call.recorded
    case Waiting(_, _) => !call.recorded
    case DlqSending(_) => !call.recorded
    case DlqCounting(_) => !call.recorded && !call.letterSent
    case Returning(result) => result.Some? && !call.recorded && !call.letterSent
    case Settling(result) => result.Some? && !call.recorded && !call.letterSent
    case _ => false
  }

  /** Past its mark, a call has not handled its message exactly while it is in the window. */
  lemma WindowIsUnhandled(cfg: Config, g: Shared, c: Claim)
    requires c.Busy? && ClaimFits(cfg, g, c) && Sound(cfg, g.calls[c.call]) && g.calls[c.call].passed.Some?
    ensures var call := g.calls[c.call];
            !Handles(call, c.msg, call.event.value) <==> InWindow(c.at, call)
  {
  }

  /**
   Exactly when a crash can lose a message. Take any reachable state with ids routed to partitions, and
   a claim whose message has been validated, and still validates, to e. After a crash now, redelivery
   can lose the message if and only if the payment's mark is live and the message has neither row nor
   letter. For a claim past its mark request that is: it stands between the mark and the row or the
   letter, or its letter was lost and it has not returned yet; the mark is live; and the message was
   not handled before the run or by another call.
   */
  lemma CrashLosesExactlyWhen(cfg: Config, home: string -> int, s: System, run: seq<Event>, t: System, p: nat, e: PaymentEvent)
    requires Reaches(cfg, s, run, t) && Routed(cfg, home, run)
    requires p < |t.claims| && t.claims[p].Busy? && t.claims[p].call < |t.g.calls|
    requires t.g.calls[t.claims[p].call].event == Some(e)
    requires cfg.verdict(t.claims[p].msg.value, t.g.now) == Success(e) && OnlyTo(cfg, t.claims[p].msg, e)
    ensures var c, calls, id, u := t.claims[p], t.g.calls, e.paymentId, Happen(cfg, t, Crash);
            && (CanLose(cfg, home, u, c.msg, e) <==> MarkLive(t.g.redis, t.g.now, id) && !MessageHandled(t.g, c.msg, e))
            && (calls[c.call].passed.Some? ==>
                  (CanLose(cfg, home, u, c.msg, e) <==>
                     && InWindow(c.at, calls[c.call])
                     && MarkLive(t.g.redis, t.g.now, id)
                     && !HandledElsewhere(s.g, calls, c.call, c.msg, e)))
  {
    ControlAlways(cfg, s, run);
    ExclusiveAlways(cfg, home, s, run);
    var c, calls := t.claims[p], t.g.calls;
    assert ClaimFits(cfg, t.g, c) && Sound(cfg, calls[c.call]) && CallRouted(cfg, home, calls[c.call]);
    Acquired(cfg, t.g, c);
    TwoParts(cfg, home, s, run, t, [Crash], CrashNow(cfg, t));
    RedeliveryLosesExactlyWhen(cfg, home, s, run + [Crash], Happen(cfg, t, Crash), p, c.msg, e);
    if calls[c.call].passed.Some? {
      WindowIsUnhandled(cfg, t.g, c);
      OwnOrElsewhere(cfg, s, run, t, c.call, c.msg, e);
    }
  }

  function CrashNow(cfg: Config, t: System): (u: System)
    ensures Exec(cfg, t, [Crash]) == Some(u) && u == Happen(cfg, t, Crash)
  {
    assert Exec(cfg, t, []) == Some(t);
    Happen(cfg, t, Crash)
  }

  lemma Acquired(cfg: Config, g: Shared, c: Claim)
    requires c.Busy? && ClaimFits(cfg, g, c) && Sound(cfg, g.calls[c.call]) && g.calls[c.call].event.Some?
    ensures cfg.workers > 0
  {
  }

  // ----- both losses, from every state ---------------------------------------------------------

  /**
   The promise fails from every state: whenever a claim is idle, a slot is free and a message would
   validate to a payment without a live mark, there is a continuation - a crash between the mark and
   the writes, then redelivery - after which the offset is marked and neither the status, the
   history, the bus nor the dead letters have any trace of the payment.
   */
  lemma CrashAfterMarkLosesMessage(cfg: Config, t: System, p: nat, m: Message, e: PaymentEvent) returns (t': System)
    requires CanTake(cfg, t, p, m, e) && !MarkLive(t.g.redis, t.g.now, e.paymentId)
    ensures Exec(cfg, t, PassEvents(p, m, true, true) + [Crash] + SkipEvents(p, m)) == Some(t')
    ensures SameTraces(t.g, t'.g)
    ensures p in t'.g.positions && t'.g.positions[p] > m.offset
    ensures t'.g.held == 0 && forall q :: 0 <= q < |t'.claims| ==> t'.claims[q].Idle?
  {
    var t1 := PassOn(cfg, t, p, m, e, true, true);
    var u := Next(cfg, t, PassEvents(p, m, true, true), t1, Crash);
    t' := Skip(cfg, u, p, m, e);
    ExecAppend(cfg, t, PassEvents(p, m, true, true) + [Crash], SkipEvents(p, m));
  }

  lemma NoCrashTwice(a: seq<Event>, b: seq<Event>)
    requires NoCrash(a) && NoCrash(b)
    ensures NoCrash(a + b)
  {
  }

  /** From the mark to the next message: the writes fail and the dead letter is lost. */
  lemma LoseLetter(cfg: Config, t: System, p: nat, e: PaymentEvent) returns (run: seq<Event>, t': System)
    requires p < |t.claims| && t.claims[p].Busy? && t.claims[p].call < |t.g.calls| && t.g.held > 0
    requires t.claims[p].at == StartRetry(cfg, e)
    ensures Exec(cfg, t, run) == Some(t') && NoCrash(run)
    ensures SameStores(t.g, t'.g) && t'.g.held == t.g.held - 1 && t'.claims == t.claims[p := Idle]
  {
    var t1 := FailWrites(cfg, t, p, e);
    t' := GiveUp(cfg, t1, p, FailureOf(cfg));
    ExecAppend(cfg, t, FailEvents(cfg, p), GiveUpEvents(cfg, p));
    NoCrashTwice(FailEvents(cfg, p), GiveUpEvents(cfg, p));
    run := FailEvents(cfg, p) + GiveUpEvents(cfg, p);
  }

  /**
   Nor does it take a crash: from every such state there is a continuation without one - the context
   ends the retries, as it does in a graceful shutdown, and the dead letter is lost - after which
   redelivery marks the offset and again there is no trace.
   */
  lemma LostLetterLosesMessage(cfg: Config, t: System, p: nat, m: Message, e: PaymentEvent)
      returns (run: seq<Event>, t': System)
    requires CanTake(cfg, t, p, m, e) && !MarkLive(t.g.redis, t.g.now, e.paymentId)
    ensures Exec(cfg, t, run) == Some(t') && NoCrash(run)
    ensures SameTraces(t.g, t'.g) && t'.claims == t.claims
    ensures p in t'.g.positions && t'.g.positions[p] > m.offset
  {
    var t1 := PassOn(cfg, t, p, m, e, true, true);
    var fail, t2 := LoseLetter(cfg, t1, p, e);
    t' := Skip(cfg, t2, p, m, e);
    run := ThreeParts(cfg, t, PassEvents(p, m, true, true), t1, fail, t2, SkipEvents(p, m), t');
  }

  lemma ThreeParts(cfg: Config, t: System, a: seq<Event>, t1: System, b: seq<Event>, t2: System, c: seq<Event>, t3: System)
      returns (run: seq<Event>)
    requires Exec(cfg, t, a) == Some(t1) && Exec(cfg, t1, b) == Some(t2) && Exec(cfg, t2, c) == Some(t3)
    requires NoCrash(a) && NoCrash(b) && NoCrash(c)
    ensures Exec(cfg, t, run) == Some(t3) && NoCrash(run)
  {
    ExecAppend(cfg, t, a, b);
    ExecAppend(cfg, t, a + b, c);
    run := a + b + c;
  }

  // ----- messages that are passed over ---------------------------------------------------------

  /** The marked position of the message's partition is past it. */
  predicate PassedOver(g: Shared, m: Message) {
    m.partition in g.positions && m.offset < g.positions[m.partition]
  }

  /** The call marked this message's offset or a later one of its partition. */
  predicate MarksFrom(call: Call, m: Message) {
    call.offsetMarked && call.msg.partition == m.partition && m.offset <= call.msg.offset
  }

  /** Passed over: its partition's position started past it, or some call marked its offset or a later one. */
  predicate IsPassed(s: Shared, calls: seq<Call>, m: Message) {
    PassedOver(s, m) || exists k :: 0 <= k < |calls| && MarksFrom(calls[k], m)
  }

  /**
   A message is passed over exactly when its position started past it, or some call has marked its
   offset or a later one, whether or not it was delivered or failed itself. It is then gone without row
   and letter exactly if in addition it was not handled before the run and no call put its row or got
   its letter through; an invalid message, which has no event, exactly if no call got its letter through.
   */
  lemma PassedOverExactlyWhen(cfg: Config, s: System, run: seq<Event>, t: System, m: Message, e: PaymentEvent)
    requires Reaches(cfg, s, run, t)
    ensures PassedOver(t.g, m) <==> IsPassed(s.g, t.g.calls, m)
    ensures PassedOver(t.g, m) && !MessageHandled(t.g, m, e)
            <==> && IsPassed(s.g, t.g.calls, m) && !MessageHandled(s.g, m, e)
                 && forall j :: 0 <= j < |t.g.calls| ==> !Handles(t.g.calls[j], m, e)
    ensures PassedOver(t.g, m) && !LetterFor(t.g.dlq, m)
            <==> && IsPassed(s.g, t.g.calls, m) && !LetterFor(s.g.dlq, m)
                 && forall j :: 0 <= j < |t.g.calls| && t.g.calls[j].msg == m ==> !t.g.calls[j].letterSent
  {
    HandledIsVisible(cfg, s, run, t, m, e);
    LettersSince(cfg, s, run, t, m);
    PassedIsMarked(cfg, s, run, t, m);
  }

  lemma PassedIsMarked(cfg: Config, s: System, run: seq<Event>, t: System, m: Message)
    requires Reaches(cfg, s, run, t)
    ensures PassedOver(t.g, m) <==> IsPassed(s.g, t.g.calls, m)
  {
    PositionsAreMarked(cfg, s, run, t);
    forall k | 0 <= k < |t.g.calls|
      ensures MarksFrom(t.g.calls[k], m) ==> PassedOver(t.g, m)
    {
      assert Passed(t.g, t.g.calls[k]);
    }
    var p := m.partition;
    if k: nat :| p in t.g.positions && MarkedTo(t.g.calls, k, p, t.g.positions[p]) {
      assert PassedOver(t.g, m) ==> MarksFrom(t.g.calls[k], m);
    }
  }

  /**
   So it can vanish: from every state with a live mark, an invalid message whose dead-letter
   publication is lost leaves no trace at all once a later message of its partition has been skipped.
   */
  lemma FailedMessageIsPassedOver(cfg: Config, t: System, p: nat, m: Message, why: string, later: Message, e: PaymentEvent)
      returns (t': System)
    requires CanTake(cfg, t, p, later, e)
    requires m.partition == p && m.offset < later.offset && cfg.verdict(m.value, t.g.now) == Failure(why)
    requires MarkLive(t.g.redis, t.g.now, e.paymentId)
    ensures Exec(cfg, t, RejectEvents(p, m) + GiveUpEvents(cfg, p) + SkipEvents(p, later)) == Some(t')
    ensures SameTraces(t.g, t'.g) && t'.claims == t.claims
    ensures p in t'.g.positions && t'.g.positions[p] > m.offset + 1
  {
    var t1 := Reject(cfg, t, p, m, why);
    var t2 := GiveUp(cfg, t1, p, Invalid(why));
    ExecAppend(cfg, t, RejectEvents(p, m), GiveUpEvents(cfg, p));
    t' := Skip(cfg, t2, p, later, e);
    ExecAppend(cfg, t, RejectEvents(p, m) + GiveUpEvents(cfg, p), SkipEvents(p, later));
  }
}
