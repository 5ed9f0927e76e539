/**
 What every call of processMessage has done when it ends, under every interleaving of claims,
 every outcome of the remote calls and crashes at any step.
 */
module Safety {
  import opened Wrappers
  import opened Models
  import opened Stores
  import opened Protocol

  // ----- the property --------------------------------------------------------------------------

  /** A call that returned nil: it skipped a live mark, or it completed both writes itself. */
  predicate Succeeded(call: Call) {
    && call.acquired && call.event.Some? && call.dlqAttempts == 0
    && (if call.hit.Some?
        then call.checkAcked && call.passed.None? && !call.written && call.busAttempts == 0
        else call.passed.Some? && call.written && call.busAttempts == 1)
  }

  /** A call that returned an error: one dead-letter attempt, unless it never got a slot. */
  predicate Failed(call: Call, f: Failure) {
    && !call.written && call.busAttempts == 0 && call.hit.None?
    && (f.Cancelled? <==> !call.acquired)
    && call.dlqAttempts == (if call.acquired then 1 else 0)
    && (f.Invalid? || f.Cancelled? <==> call.event.None?)
    && (call.passed.Some? <==> call.event.Some?)
  }

  predicate Concluded(call: Call, result: Option<Failure>) {
    match result
    case None => Succeeded(call)
    case Some(f) => Failed(call, f)
  }

  /** What holds of every call's record at every moment, whether it is in flight, finished or lost in a crash. */
  predicate Sound(cfg: Config, call: Call) {
    && (call.finished ==> Concluded(call, call.result))
    && (call.offsetMarked <==> call.finished && call.result.None?)
    && (call.hit.Some? ==> call.event.Some? && call.checkAcked && call.passed.None?)
    && (call.passed.Some? ==> call.event.Some? && call.acquired)
    && (call.markSet ==> call.passed.Some? && call.markRan)
    && (call.rowPut.Some? ==> call.passed.Some? && call.rowPut.value.afterStatus)
    && (call.rowPut.Some? ==> call.recorded)
    && (call.recorded ==> call.passed.Some? && call.statusAck.Some?)
    && (call.written ==> call.recorded)
    && (call.busAttempts > 0 ==> call.written)
    && (call.published ==> call.busAttempts == 1)
    && call.dlqAttempts <= 1
    && (call.letterSent ==> call.dlqAttempts == 1)
    && (call.counted ==> call.dlqAttempts == 1 && cfg.countsDlq)
    && (call.attempts == 0 || call.attempts <= cfg.maxAttempts)
    && (call.acquired ==> cfg.workers > 0)
  }

  // ----- the invariant -------------------------------------------------------------------------

  predicate Passing(call: Call, e: PaymentEvent) {
    && call.acquired && call.event == Some(e) && call.hit.None? && call.passed.Some?
    && call.dlqAttempts == 0 && call.busAttempts == 0
  }

  /** The record a call has when its claim is at this program counter. */
  predicate Fits(cfg: Config, at: PC, call: Call) {
    match at
    case Acquiring => call == Blank(call.msg, call.trace)
    case Validating => call == Blank(call.msg, call.trace).(acquired := true)
    case Checking(e) => call == Blank(call.msg, call.trace).(acquired := true, event := Some(e))
    case Marking(e) => call == Blank(call.msg, call.trace).(acquired := true, event := Some(e), checkAcked := call.checkAcked)
    case WritingStatus(e, k) => Passing(call, e) && !call.written && call.attempts == k < cfg.maxAttempts
    case WritingHistory(e, k) =>
      Passing(call, e) && !call.written && call.attempts == k + 1 <= cfg.maxAttempts && call.statusAck == Some(k)
    case Waiting(e, k) => Passing(call, e) && !call.written && 0 < call.attempts == k < cfg.maxAttempts
    case Publishing(e) => Passing(call, e) && call.written
    case DlqSending(f) => call.acquired && !call.counted && call.dlqAttempts == 0 && Failed(call.(dlqAttempts := 1), f)
    case DlqCounting(f) => cfg.countsDlq && !call.counted && call.acquired && Failed(call, f)
    case Returning(result) => call.acquired && Concluded(call, result)
    case Settling(result) => Concluded(call, result)
  }

  predicate ClaimFits(cfg: Config, g: Shared, c: Claim) {
    c.Busy? ==>
      && c.call < |g.calls|
      && g.calls[c.call].msg == c.msg && g.calls[c.call].trace == c.trace
      && !g.calls[c.call].finished
      && Fits(cfg, c.at, g.calls[c.call])
  }

  predicate AllSound(cfg: Config, calls: seq<Call>) {
    forall k :: 0 <= k < |calls| ==> Sound(cfg, calls[k])
  }

  /** A busy claim works on the newest call of its partition. */
  predicate Newest(g: Shared, c: Claim) {
    c.Busy? ==> forall k :: 0 <= k < |g.calls| && g.calls[k].msg.partition == c.msg.partition ==> k <= c.call
  }

  predicate Control(cfg: Config, s: System) {
    && AllSound(cfg, s.g.calls)
    && (forall p :: 0 <= p < |s.claims| ==> ClaimFits(cfg, s.g, s.claims[p]))
    && (forall p :: 0 <= p < |s.claims| && s.claims[p].Busy? ==> s.claims[p].msg.partition == p)
    && (forall p :: 0 <= p < |s.claims| ==> Newest(s.g, s.claims[p]))
  }

  /** A record only grows: what it says of validation, check, mark and row stays. */
  predicate Extends(a: Call, b: Call) {
    && a.msg == b.msg && a.trace == b.trace
    && (a.event.Some? ==> b.event == a.event)
    && (a.hit.Some? ==> b.hit == a.hit)
    && (a.passed.Some? ==> b.passed == a.passed && b.markRan == a.markRan && b.markSet == a.markSet
                           && b.checkAcked == a.checkAcked)
    && (a.markSet ==> b.markSet)
    && (a.recorded ==> b.recorded)
    && (a.written ==> b.written)
    && (a.letterSent ==> b.letterSent)
    && (a.published ==> b.published)
    && (a.finished ==> b == a)
  }

  predicate AllExtend(a: seq<Call>, b: seq<Call>) {
    |a| <= |b| && forall k :: 0 <= k < |a| ==> Extends(a[k], b[k])
  }

  // ----- one claim -----------------------------------------------------------------------------

  /** A step of a busy claim changes its own record only, soundly, and leaves it fitting. */
  predicate KeepsRecord(cfg: Config, g: Shared, c: Claim, g': Shared, c': Claim)
    requires c.Busy? && c.call < |g.calls|
  {
    && |g'.calls| == |g.calls|
    && g'.calls == g.calls[c.call := g'.calls[c.call]]
    && Extends(g.calls[c.call], g'.calls[c.call])
    && Sound(cfg, g'.calls[c.call])
    && ClaimFits(cfg, g', c')
    && (c'.Busy? ==> c'.call == c.call && c'.msg == c.msg && c'.trace == c.trace)
    && (c'.Idle? ==> g'.calls[c.call].finished)
  }

  // ----- what one step does to the stores ------------------------------------------------------

  /** Only a mark request that finds no live mark changes the marks. */
  predicate MarksChange(cfg: Config, g: Shared, c: Claim, g': Shared)
    requires c.Busy? && c.call < |g.calls| == |g'.calls|
  {
    var call, call' := g.calls[c.call], g'.calls[c.call];
    if call'.markSet && !call.markSet then
      && c.at.Marking? && !MarkLive(g.redis, g.now, c.at.event.paymentId)
      && call'.passed == Some(g.now)
      && g'.redis.marks == g.redis.marks[c.at.event.paymentId := ExpiryOf(cfg.markTtl, g.now)]
    else
      g'.redis.marks == g.redis.marks
  }

  /** Only a conditional put of an absent key changes the rows, after the status write of its attempt. */
  predicate RowsChange(g: Shared, c: Claim, g': Shared)
    requires c.Busy? && c.call < |g.calls| == |g'.calls|
  {
    var call, call' := g.calls[c.call], g'.calls[c.call];
    if g'.rows != g.rows then
      && c.at.WritingHistory? && KeyOf(c.at.event) !in g.rows
      && g'.rows == g.rows[KeyOf(c.at.event) := NewPaymentHistoryFromEvent(c.at.event, g.now, c.trace)]
      && call'.rowPut == Some(Put(c.at.attempt, g.now, true))
    else
      call'.rowPut == call.rowPut
  }

  predicate RestChanges(g: Shared, c: Claim, g': Shared)
    requires c.Busy? && c.call < |g.calls| == |g'.calls|
  {
    var call, call' := g.calls[c.call], g'.calls[c.call];
    && g'.now == g.now
    && (if call'.published && !call.published then c.at.Publishing? && g'.bus == g.bus + [c.at.event]
        else g'.bus == g.bus)
    && (call'.hit != call.hit ==>
          c.at.Checking? && call'.hit == Some(g.now) && MarkLive(g.redis, g.now, c.at.event.paymentId))
    && (call'.recorded && !call.recorded ==> c.at.WritingHistory? && KeyOf(c.at.event) in g'.rows)
    && (call'.written && !call.written ==> c.at.WritingHistory?)
  }

  /** The check comes directly before the mark, and the mark says whether it created the key. */
  predicate CheckThenMark(g: Shared, c: Claim, g': Shared, c': Claim)
    requires c.Busy? && c.call < |g.calls| == |g'.calls|
  {
    var call, call' := g.calls[c.call], g'.calls[c.call];
    && (c'.Busy? && c'.at.Marking? ==>
          c.at.Checking? && c.at.event == c'.at.event &&
          (call'.checkAcked ==> !MarkLive(g.redis, g.now, c.at.event.paymentId)))
    && (call'.passed != call.passed ==>
          c.at.Marking? && call'.passed == Some(g.now) && call'.checkAcked == call.checkAcked &&
          call'.markSet == (call'.markRan && !MarkLive(g.redis, g.now, c.at.event.paymentId)))
    && (call'.event != call.event ==>
          c.at.Validating? && call'.event.Some? && call.event.None?)
  }

  predicate Effects(cfg: Config, g: Shared, c: Claim, g': Shared, c': Claim)
    requires c.Busy? && c.call < |g.calls| == |g'.calls|
  {
    && MarksChange(cfg, g, c, g') && RowsChange(g, c, g') && RestChanges(g, c, g')
    && CheckThenMark(g, c, g', c')
    && (c.at.Validating? && g'.calls[c.call].event.Some? ==>
          cfg.verdict(c.msg.value, g.now) == Success(g'.calls[c.call].event.value))
  }

  predicate Ready(cfg: Config, g: Shared, c: Claim, r: Reply) {
    Enabled(cfg, g, c, r) && c.Busy? && ClaimFits(cfg, g, c) && Sound(cfg, g.calls[c.call])
  }

  lemma ClaimStep(cfg: Config, g: Shared, c: Claim, r: Reply)
    requires Ready(cfg, g, c, r)
    ensures var (g', c') := Step(cfg, g, c, r); KeepsRecord(cfg, g, c, g', c') && Effects(cfg, g, c, g', c')
  {
    if c.at.Acquiring? || c.at.Validating? || c.at.DlqSending? || c.at.DlqCounting? || c.at.Checking? || c.at.Marking? {
      EarlyStep(cfg, g, c, r);
    } else {
      LateStep(cfg, g, c, r);
    }
  }

  lemma EarlyStep(cfg: Config, g: Shared, c: Claim, r: Reply)
    requires Ready(cfg, g, c, r)
    requires c.at.Acquiring? || c.at.Validating? || c.at.DlqSending? || c.at.DlqCounting? || c.at.Checking? || c.at.Marking?
    ensures var (g', c') := Step(cfg, g, c, r); KeepsRecord(cfg, g, c, g', c') && Effects(cfg, g, c, g', c')
  {
    match c.at
    case Acquiring => AcquiringKeeps(cfg, g, c, r);
    case Validating => ValidatingKeeps(cfg, g, c, r);
    case DlqSending(_) => DlqSendingKeeps(cfg, g, c, r);
    case DlqCounting(_) => DlqCountingKeeps(cfg, g, c, r);
    case Checking(_) => CheckingKeeps(cfg, g, c, r);
    case Marking(_) => MarkingKeeps(cfg, g, c, r);
  }

  lemma LateStep(cfg: Config, g: Shared, c: Claim, r: Reply)
    requires Ready(cfg, g, c, r)
    requires c.at.WritingStatus? || c.at.WritingHistory? || c.at.Waiting? || c.at.Publishing? || c.at.Returning? || c.at.Settling?
    ensures var (g', c') := Step(cfg, g, c, r); KeepsRecord(cfg, g, c, g', c') && Effects(cfg, g, c, g', c')
  {
    match c.at
    case WritingStatus(_, _) => WritingStatusKeeps(cfg, g, c, r);
    case WritingHistory(_, _) => WritingHistoryKeeps(cfg, g, c, r);
    case Waiting(_, _) => WaitingKeeps(cfg, g, c, r);
    case Publishing(_) => PublishingKeeps(cfg, g, c, r);
    case Returning(_) => ReturningKeeps(cfg, g, c, r);
    case Settling(_) => SettlingKeeps(cfg, g, c, r);
  }

  lemma AcquiringKeeps(cfg: Config, g: Shared, c: Claim, r: Reply)
    requires Ready(cfg, g, c, r) && c.at.Acquiring?
    ensures var (g', c') := OnAcquire(g, c, r);
            KeepsRecord(cfg, g, c, g', c') && Effects(cfg, g, c, g', c')
  {
  }

  lemma ValidatingKeeps(cfg: Config, g: Shared, c: Claim, r: Reply)
    requires Ready(cfg, g, c, r) && c.at.Validating?
    ensures var (g', c') := OnValidate(cfg, g, c);
            KeepsRecord(cfg, g, c, g', c') && Effects(cfg, g, c, g', c')
  {
  }

  lemma DlqSendingKeeps(cfg: Config, g: Shared, c: Claim, r: Reply)
    requires Ready(cfg, g, c, r) && c.at.DlqSending?
    ensures var (g', c') := OnDlqSend(cfg, g, c, c.at.failure, r);
            KeepsRecord(cfg, g, c, g', c') && Effects(cfg, g, c, g', c')
  {
  }

  lemma DlqCountingKeeps(cfg: Config, g: Shared, c: Claim, r: Reply)
    requires Ready(cfg, g, c, r) && c.at.DlqCounting?
    ensures var (g', c') := OnDlqCount(g, c, c.at.failure, r);
            KeepsRecord(cfg, g, c, g', c') && Effects(cfg, g, c, g', c')
  {
  }

  lemma CheckingKeeps(cfg: Config, g: Shared, c: Claim, r: Reply)
    requires Ready(cfg, g, c, r) && c.at.Checking?
    ensures var (g', c') := OnCheck(g, c, c.at.event, r);
            KeepsRecord(cfg, g, c, g', c') && Effects(cfg, g, c, g', c')
  {
  }

  lemma MarkingKeeps(cfg: Config, g: Shared, c: Claim, r: Reply)
    requires Ready(cfg, g, c, r) && c.at.Marking?
    ensures var (g', c') := OnMark(cfg, g, c, c.at.event, r);
            KeepsRecord(cfg, g, c, g', c') && Effects(cfg, g, c, g', c')
  {
  }

  lemma WritingStatusKeeps(cfg: Config, g: Shared, c: Claim, r: Reply)
    requires Ready(cfg, g, c, r) && c.at.WritingStatus?
    ensures var (g', c') := OnWriteStatus(cfg, g, c, c.at.event, c.at.attempt, r);
            KeepsRecord(cfg, g, c, g', c') && Effects(cfg, g, c, g', c')
  {
  }

  lemma WritingHistoryKeeps(cfg: Config, g: Shared, c: Claim, r: Reply)
    requires Ready(cfg, g, c, r) && c.at.WritingHistory?
    ensures var (g', c') := OnWriteHistory(cfg, g, c, c.at.event, c.at.attempt, r);
            KeepsRecord(cfg, g, c, g', c') && Effects(cfg, g, c, g', c')
  {
    HistoryRecord(cfg, g, c, r);
    HistoryEffects(cfg, g, c, r);
  }

  lemma HistoryRecord(cfg: Config, g: Shared, c: Claim, r: Reply)
    requires Ready(cfg, g, c, r) && c.at.WritingHistory?
    ensures var (g', c') := OnWriteHistory(cfg, g, c, c.at.event, c.at.attempt, r); KeepsRecord(cfg, g, c, g', c')
  {
    var (g', c') := OnWriteHistory(cfg, g, c, c.at.event, c.at.attempt, r);
    var call, call' := g.calls[c.call], g'.calls[c.call];
    assert Extends(call, call') && Sound(cfg, call');
    assert Fits(cfg, c'.at, call');
  }

  lemma HistoryEffects(cfg: Config, g: Shared, c: Claim, r: Reply)
    requires Ready(cfg, g, c, r) && c.at.WritingHistory?
    ensures var (g', c') := OnWriteHistory(cfg, g, c, c.at.event, c.at.attempt, r);
            |g'.calls| == |g.calls| && Effects(cfg, g, c, g', c')
  {
  }

  lemma WaitingKeeps(cfg: Config, g: Shared, c: Claim, r: Reply)
    requires Ready(cfg, g, c, r) && c.at.Waiting?
    ensures var (g', c') := OnWait(g, c, c.at.event, c.at.attempt, r);
            KeepsRecord(cfg, g, c, g', c') && Effects(cfg, g, c, g', c')
  {
  }

  lemma PublishingKeeps(cfg: Config, g: Shared, c: Claim, r: Reply)
    requires Ready(cfg, g, c, r) && c.at.Publishing?
    ensures var (g', c') := OnPublish(g, c, c.at.event, r);
            KeepsRecord(cfg, g, c, g', c') && Effects(cfg, g, c, g', c')
  {
  }

  lemma ReturningKeeps(cfg: Config, g: Shared, c: Claim, r: Reply)
    requires Ready(cfg, g, c, r) && c.at.Returning?
    ensures var (g', c') := OnReturn(g, c, c.at.result);
            KeepsRecord(cfg, g, c, g', c') && Effects(cfg, g, c, g', c')
  {
  }

  lemma SettlingKeeps(cfg: Config, g: Shared, c: Claim, r: Reply)
    requires Ready(cfg, g, c, r) && c.at.Settling?
    ensures var (g', c') := OnSettle(g, c, c.at.result);
            KeepsRecord(cfg, g, c, g', c') && Effects(cfg, g, c, g', c')
  {
  }

  // ----- all claims ----------------------------------------------------------------------------

  /** A step of claim c leaves a claim of another partition alone. */
  lemma OthersKeep(cfg: Config, g: Shared, c: Claim, g': Shared, d: Claim)
    requires c.Busy? && c.call < |g.calls| && g.calls[c.call].msg == c.msg
    requires |g'.calls| == |g.calls| && g'.calls == g.calls[c.call := g'.calls[c.call]]
    requires g'.calls[c.call].msg == c.msg
    requires ClaimFits(cfg, g, d) && Newest(g, d)
    requires d.Busy? ==> d.msg.partition != c.msg.partition
    ensures ClaimFits(cfg, g', d) && Newest(g', d)
  {
    assert d.Busy? ==> d.call != c.call && g'.calls[d.call] == g.calls[d.call];
  }

  lemma ControlMove(cfg: Config, s: System, p: nat, g': Shared, c': Claim)
    requires p < |s.claims| && Control(cfg, s) && s.claims[p].Busy? && KeepsRecord(cfg, s.g, s.claims[p], g', c')
    ensures Control(cfg, System(g', s.claims[p := c']))
    ensures AllExtend(s.g.calls, g'.calls)
  {
    var c := s.claims[p];
    forall q | 0 <= q < |s.claims| && q != p
      ensures ClaimFits(cfg, g', s.claims[q]) && Newest(g', s.claims[q])
    {
      OthersKeep(cfg, s.g, c, g', s.claims[q]);
    }
  }

  lemma ControlDeliver(cfg: Config, s: System, p: nat, r: Reply)
    requires Possible(cfg, s, Move(p, r)) && Control(cfg, s) && s.claims[p].Idle?
    ensures Control(cfg, Happen(cfg, s, Move(p, r)))
    ensures AllExtend(s.g.calls, Happen(cfg, s, Move(p, r)).g.calls)
  {
    var s' := Happen(cfg, s, Move(p, r));
    assert s'.claims[p].at == Acquiring;
    forall q | 0 <= q < |s.claims| && q != p
      ensures ClaimFits(cfg, s'.g, s.claims[q]) && Newest(s'.g, s.claims[q])
    {
      assert s.claims[q].Busy? ==> s.claims[q].msg.partition != p;
    }
  }

  lemma ControlStep(cfg: Config, s: System, ev: Event)
    requires Possible(cfg, s, ev) && Control(cfg, s)
    ensures Control(cfg, Happen(cfg, s, ev))
    ensures AllExtend(s.g.calls, Happen(cfg, s, ev).g.calls)
  {
    if ev.Move? {
      if s.claims[ev.p].Busy? {
        var (g', c') := Step(cfg, s.g, s.claims[ev.p], ev.reply);
        ClaimStep(cfg, s.g, s.claims[ev.p], ev.reply);
        ControlMove(cfg, s, ev.p, g', c');
      } else {
        ControlDeliver(cfg, s, ev.p, ev.reply);
      }
    }
  }

  lemma {:induction false} ControlAlways(cfg: Config, s: System, run: seq<Event>)
    requires Init(s) && Exec(cfg, s, run).Some?
    ensures Control(cfg, Exec(cfg, s, run).value)
  {
    if run != [] {
      ControlAlways(cfg, s, run[..|run| - 1]);
      ControlStep(cfg, Exec(cfg, s, run[..|run| - 1]).value, run[|run| - 1]);
    }
  }
}
