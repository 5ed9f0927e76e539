/**
 A nil result means stored, and retrying equals one clean attempt, also while other claims run.
 */
module Stored {
  import opened Wrappers
  import opened Models
  import opened Stores
  import opened Protocol
  import opened Safety
  import opened Provenance
  import opened Atomicity
  import opened Writes

  // ----- what a step does to the statuses ------------------------------------------------------

  /** Only a status write changes the statuses, and only that of its own payment. */
  ghost predicate StatusesChange(cfg: Config, g: Shared, c: Claim, g': Shared, c': Claim) {
    && c.Busy?
    && (!c.at.WritingStatus? ==> g'.redis.statuses == g.redis.statuses)
    && (c.at.WritingStatus? ==> OnlyStatus(g.redis.statuses, g'.redis.statuses, c.at.event.paymentId))
    && (c'.Busy? && c'.at.WritingHistory? ==>
          c.at.WritingStatus? && c'.at.event == c.at.event && StatusWritten(cfg, g'.redis, c.at.event))
  }

  ghost predicate OnlyStatus(a: map<string, StatusEntry>, b: map<string, StatusEntry>, id: string) {
    forall other :: other != id ==> (other in b <==> other in a) && (other in a ==> b[other] == a[other])
  }

  lemma WriteChanges(cfg: Config, g: Shared, c: Claim, r: Reply)
    requires Enabled(cfg, g, c, r) && c.Busy? && c.at.WritingStatus?
    ensures StatusesChange(cfg, g, c, Step(cfg, g, c, r).0, Step(cfg, g, c, r).1)
  {
    var e := c.at.event;
    PipelineTouches(cfg, g.redis, g.redis, g.now, e, r.effect);
  }

  lemma OtherChanges(cfg: Config, g: Shared, c: Claim, r: Reply)
    requires Enabled(cfg, g, c, r) && c.Busy? && !c.at.WritingStatus?
    ensures StatusesChange(cfg, g, c, Step(cfg, g, c, r).0, Step(cfg, g, c, r).1)
  {
    match c.at
    case Acquiring =>
    case Validating =>
    case DlqSending(_) =>
    case DlqCounting(_) =>
    case Checking(_) =>
    case Marking(_) =>
    case WritingHistory(_, _) =>
    case Waiting(_, _) =>
    case Publishing(_) =>
    case Returning(_) =>
    case Settling(_) =>
  }

  lemma StepChanges(cfg: Config, g: Shared, c: Claim, r: Reply)
    requires Ready(cfg, g, c, r)
    ensures var (g', c') := Step(cfg, g, c, r); Moved(cfg, g, c, g', c') && StatusesChange(cfg, g, c, g', c')
  {
    ClaimStep(cfg, g, c, r);
    if c.at.WritingStatus? {
      WriteChanges(cfg, g, c, r);
    } else {
      OtherChanges(cfg, g, c, r);
    }
  }

  // ----- the invariant -------------------------------------------------------------------------

  /** From the acknowledged status write to the end of the call, or of the attempt if it fails. */
  predicate Holds(cfg: Config, g: Shared, c: Claim) {
    c.Busy? && c.call < |g.calls| && g.calls[c.call].event.Some? && (c.at.WritingHistory? || g.calls[c.call].written) ==>
      StatusWritten(cfg, g.redis, g.calls[c.call].event.value)
  }

  predicate AllHold(cfg: Config, s: System) {
    forall p :: 0 <= p < |s.claims| ==> Holds(cfg, s.g, s.claims[p])
  }

  lemma OwnHolds(cfg: Config, g: Shared, c: Claim, g': Shared, c': Claim)
    requires c.Busy? && ClaimFits(cfg, g, c) && Holds(cfg, g, c) && Sound(cfg, g.calls[c.call])
    requires KeepsRecord(cfg, g, c, g', c') && Effects(cfg, g, c, g', c') && StatusesChange(cfg, g, c, g', c')
    ensures Holds(cfg, g', c')
  {
  }

  lemma OthersHold(cfg: Config, home: string -> int, g: Shared, c: Claim, g': Shared, c': Claim, d: Claim)
    requires c.Busy? && ClaimFits(cfg, g, c) && ClaimFits(cfg, g, d) && Holds(cfg, g, d)
    requires KeepsRecord(cfg, g, c, g', c') && StatusesChange(cfg, g, c, g', c')
    requires d.Busy? ==> d.msg.partition != c.msg.partition
    requires forall k :: 0 <= k < |g.calls| ==> CallRouted(cfg, home, g.calls[k])
    ensures Holds(cfg, g', d)
  {
    if d.Busy? {
      assert d.call != c.call && g'.calls[d.call] == g.calls[d.call];
      assert CallRouted(cfg, home, g.calls[c.call]) && CallRouted(cfg, home, g.calls[d.call]);
    }
  }

  lemma HoldMove(cfg: Config, home: string -> int, s: System, p: nat, g': Shared, c': Claim)
    requires p < |s.claims| && Control(cfg, s) && Exclusive(cfg, home, s) && AllHold(cfg, s)
    requires Moved(cfg, s.g, s.claims[p], g', c') && StatusesChange(cfg, s.g, s.claims[p], g', c')
    ensures AllHold(cfg, System(g', s.claims[p := c']))
  {
    OwnHolds(cfg, s.g, s.claims[p], g', c');
    forall q | 0 <= q < |s.claims| && q != p
      ensures Holds(cfg, g', s.claims[q])
    {
      OthersHold(cfg, home, s.g, s.claims[p], g', c', s.claims[q]);
    }
  }

  lemma HoldStep(cfg: Config, home: string -> int, s: System, ev: Event)
    requires Possible(cfg, s, ev) && Control(cfg, s) && Exclusive(cfg, home, s) && AllHold(cfg, s)
    ensures AllHold(cfg, Happen(cfg, s, ev))
  {
    if ev.Move? && s.claims[ev.p].Busy? {
      var (g', c') := Step(cfg, s.g, s.claims[ev.p], ev.reply);
      StepChanges(cfg, s.g, s.claims[ev.p], ev.reply);
      HoldMove(cfg, home, s, ev.p, g', c');
    } else {
      IdleHolds(cfg, s, ev);
    }
  }

  lemma IdleHolds(cfg: Config, s: System, ev: Event)
    requires Possible(cfg, s, ev) && Control(cfg, s) && AllHold(cfg, s)
    requires ev.Move? ==> s.claims[ev.p].Idle?
    ensures AllHold(cfg, Happen(cfg, s, ev))
  {
    var s' := Happen(cfg, s, ev);
    forall q | 0 <= q < |s'.claims|
      ensures Holds(cfg, s'.g, s'.claims[q])
    {
      assert Holds(cfg, s.g, s.claims[q]) && ClaimFits(cfg, s.g, s.claims[q]);
    }
  }

  lemma {:induction false} HoldAlways(cfg: Config, home: string -> int, s: System, run: seq<Event>)
    requires Init(s) && Exec(cfg, s, run).Some? && Routed(cfg, home, run)
    ensures AllHold(cfg, Exec(cfg, s, run).value)
  {
    if run != [] {
      var init := run[..|run| - 1];
      HoldAlways(cfg, home, s, init);
      ControlAlways(cfg, s, init);
      ExclusiveAlways(cfg, home, s, init);
      HoldStep(cfg, home, Exec(cfg, s, init).value, run[|run| - 1]);
    }
  }

  // ----- nil means stored ----------------------------------------------------------------------

  /** The row predates the run, or was written by this call or one before it on its partition. */
  ghost predicate RowOfCall(rows0: Rows, g: Shared, k: nat, key: RowKey)
    requires k < |g.calls| && key in g.rows
  {
    || (key in rows0 && g.rows[key] == rows0[key])
    || exists j: nat :: j <= k && WroteRow(g, j, key, g.rows[key])
  }

  /**
   With payment ids routed to partitions, over all interleavings, failures and crashes: when a call
   that did not skip is about to settle with nil, Redis holds exactly its event's status (or, with a
   zero time to live, no status) and the table holds a row under its event's key, which was there
   before the run, or was written by this call or by an earlier one of its partition.
   */
  lemma NilMeansStored(cfg: Config, home: string -> int, s: System, run: seq<Event>, t: System, p: nat)
    requires Reaches(cfg, s, run, t) && Routed(cfg, home, run)
    requires p < |t.claims| && t.claims[p].Busy? && t.claims[p].at == Settling(None)
    requires t.claims[p].call < |t.g.calls| && t.g.calls[t.claims[p].call].hit.None?
    ensures var k := t.claims[p].call;
            && t.g.calls[k].event.Some?
            && var e := t.g.calls[k].event.value;
               && KeyOf(e) in t.g.rows && RowOfCall(s.g.rows, t.g, k, KeyOf(e))
               && (if cfg.statusTtl == 0 then e.paymentId !in t.g.redis.statuses
                   else e.paymentId in t.g.redis.statuses
                        && t.g.redis.statuses[e.paymentId].fields.status == e.status)
  {
    HoldAlways(cfg, home, s, run);
    ControlAlways(cfg, s, run);
    RowsAlways(cfg, s, run);
    ExclusiveAlways(cfg, home, s, run);
    var c := t.claims[p];
    assert ClaimFits(cfg, t.g, c) && Holds(cfg, t.g, c);
    assert RecordedRowExists(t.g, t.g.calls[c.call]);
    RowIsOlder(cfg, home, s.g.rows, t, p);
  }

  lemma RowIsOlder(cfg: Config, home: string -> int, rows0: Rows, t: System, p: nat)
    requires Control(cfg, t) && Exclusive(cfg, home, t) && RowsExplained(rows0, t.g)
    requires p < |t.claims| && t.claims[p].Busy? && t.g.calls[t.claims[p].call].event.Some?
    requires KeyOf(t.g.calls[t.claims[p].call].event.value) in t.g.rows
    ensures RowOfCall(rows0, t.g, t.claims[p].call, KeyOf(t.g.calls[t.claims[p].call].event.value))
  {
    var c := t.claims[p];
    var key := KeyOf(t.g.calls[c.call].event.value);
    assert RowExplained(rows0, t.g, key);
    if !(key in rows0 && t.g.rows[key] == rows0[key]) {
      var j: nat :| WroteRow(t.g, j, key, t.g.rows[key]);
      assert CallRouted(cfg, home, t.g.calls[j]) && CallRouted(cfg, home, t.g.calls[c.call]);
      assert Newest(t.g, c);
    }
  }

  // ----- the retried writes among other claims -------------------------------------------------

  /** The payment's status is what it was, or the event's, or gone because the time to live is zero. */
  predicate StatusHere(cfg: Config, a: map<string, StatusEntry>, b: map<string, StatusEntry>, e: PaymentEvent) {
    var id := e.paymentId;
    || ((id in b <==> id in a) && (id in a ==> b[id] == a[id]))
    || (if id in b then b[id].fields.status == e.status else cfg.statusTtl == 0)
  }

  /** The event's row is what it was, or new and the event's. */
  predicate RowHere(a: Rows, b: Rows, e: PaymentEvent) {
    var key := KeyOf(e);
    if key in a then key in b && b[key] == a[key] else key in b ==> b[key].event == e
  }

  /** What the retry loop has done so far to its own status and row, since shared state g0. */
  predicate Here(cfg: Config, g0: Shared, e: PaymentEvent, g: Shared, c: Claim) {
    && c.Busy? && (InRetry(c.at, e) || AfterRetry(c.at))
    && StatusHere(cfg, g0.redis.statuses, g.redis.statuses, e)
    && RowHere(g0.rows, g.rows, e)
    && (c.at.WritingHistory? || Wrote(c.at) ==> StatusWritten(cfg, g.redis, e))
    && (Wrote(c.at) ==> KeyOf(e) in g.rows)
  }

  lemma HereStatus(cfg: Config, g0: Shared, e: PaymentEvent, g: Shared, c: Claim, r: Reply)
    requires Here(cfg, g0, e, g, c) && Enabled(cfg, g, c, r) && c.at.WritingStatus?
    ensures Here(cfg, g0, e, Step(cfg, g, c, r).0, Step(cfg, g, c, r).1)
  {
    PipelineTouches(cfg, g.redis, g.redis, g.now, e, r.effect);
  }

  lemma HereHistory(cfg: Config, g0: Shared, e: PaymentEvent, g: Shared, c: Claim, r: Reply)
    requires Here(cfg, g0, e, g, c) && Enabled(cfg, g, c, r) && c.at.WritingHistory?
    ensures Here(cfg, g0, e, Step(cfg, g, c, r).0, Step(cfg, g, c, r).1)
  {
  }

  lemma HereRest(cfg: Config, g0: Shared, e: PaymentEvent, g: Shared, c: Claim, r: Reply)
    requires Here(cfg, g0, e, g, c) && Enabled(cfg, g, c, r)
    requires !c.at.WritingStatus? && !c.at.WritingHistory? && !c.at.Settling?
    ensures Here(cfg, g0, e, Step(cfg, g, c, r).0, Step(cfg, g, c, r).1)
  {
  }

  /** A step of another partition's claim leaves this payment's status and rows alone. */
  lemma HereOther(cfg: Config, home: string -> int, g0: Shared, e: PaymentEvent, g: Shared, d: Claim,
                  c: Claim, g': Shared, c': Claim)
    requires Here(cfg, g0, e, g, d) && ClaimFits(cfg, g, d) && g.calls[d.call].event == Some(e)
    requires Moved(cfg, g, c, g', c') && StatusesChange(cfg, g, c, g', c') && d.msg.partition != c.msg.partition
    requires forall k :: 0 <= k < |g.calls| ==> CallRouted(cfg, home, g.calls[k])
    ensures Here(cfg, g0, e, g', d)
  {
    assert CallRouted(cfg, home, g.calls[c.call]) && CallRouted(cfg, home, g.calls[d.call]);
  }

  /** Claim p is still on call k for event e, and its writes are as Here says. */
  predicate StillHere(cfg: Config, g0: Shared, e: PaymentEvent, s: System, p: nat, k: nat) {
    && p < |s.claims|
    && (s.claims[p].Busy? && s.claims[p].call == k ==>
          k < |s.g.calls| && s.g.calls[k].event == Some(e) && Here(cfg, g0, e, s.g, s.claims[p]))
  }

  lemma HereOwn(cfg: Config, g0: Shared, e: PaymentEvent, g: Shared, c: Claim, r: Reply)
    requires Here(cfg, g0, e, g, c) && Enabled(cfg, g, c, r) && !c.at.Settling?
    ensures Here(cfg, g0, e, Step(cfg, g, c, r).0, Step(cfg, g, c, r).1)
  {
    if c.at.WritingStatus? {
      HereStatus(cfg, g0, e, g, c, r);
    } else if c.at.WritingHistory? {
      HereHistory(cfg, g0, e, g, c, r);
    } else {
      HereRest(cfg, g0, e, g, c, r);
    }
  }

  lemma StillHereOwn(cfg: Config, g0: Shared, e: PaymentEvent, s: System, p: nat, k: nat, g': Shared, c': Claim)
    requires StillHere(cfg, g0, e, s, p, k) && Moved(cfg, s.g, s.claims[p], g', c')
    requires s.claims[p].call == k && !s.claims[p].at.Settling? ==> Here(cfg, g0, e, g', c')
    requires s.claims[p].at.Settling? ==> c'.Idle?
    ensures StillHere(cfg, g0, e, System(g', s.claims[p := c']), p, k)
  {
  }

  lemma StillHereOther(cfg: Config, home: string -> int, g0: Shared, e: PaymentEvent, s: System, p: nat, k: nat,
                       q: nat, g': Shared, c': Claim)
    requires q < |s.claims| && Control(cfg, s) && Exclusive(cfg, home, s) && StillHere(cfg, g0, e, s, p, k) && q != p
    requires Moved(cfg, s.g, s.claims[q], g', c') && StatusesChange(cfg, s.g, s.claims[q], g', c')
    ensures StillHere(cfg, g0, e, System(g', s.claims[q := c']), p, k)
  {
    var c, d := s.claims[q], s.claims[p];
    if d.Busy? && d.call == k {
      assert ClaimFits(cfg, s.g, d) && d.call != c.call;
      HereOther(cfg, home, g0, e, s.g, d, c, g', c');
    }
  }

  lemma StillHereMove(cfg: Config, home: string -> int, g0: Shared, e: PaymentEvent, s: System, p: nat, k: nat, q: nat, r: Reply)
    requires Possible(cfg, s, Move(q, r)) && Control(cfg, s) && Exclusive(cfg, home, s) && s.claims[q].Busy?
    requires StillHere(cfg, g0, e, s, p, k)
    ensures StillHere(cfg, g0, e, Happen(cfg, s, Move(q, r)), p, k)
  {
    var c := s.claims[q];
    var (g', c') := Step(cfg, s.g, c, r);
    StepChanges(cfg, s.g, c, r);
    if q != p {
      StillHereOther(cfg, home, g0, e, s, p, k, q, g', c');
    } else {
      if c.call == k && !c.at.Settling? {
        HereOwn(cfg, g0, e, s.g, c, r);
      }
      StillHereOwn(cfg, g0, e, s, p, k, g', c');
    }
  }

  lemma StillHereRest(cfg: Config, g0: Shared, e: PaymentEvent, s: System, p: nat, k: nat, ev: Event)
    requires Possible(cfg, s, ev) && StillHere(cfg, g0, e, s, p, k) && k < |s.g.calls|
    requires ev.Move? ==> s.claims[ev.p].Idle?
    ensures StillHere(cfg, g0, e, Happen(cfg, s, ev), p, k)
  {
  }

  lemma {:induction false} StillHereAlways(cfg: Config, home: string -> int, e: PaymentEvent, s: System, p: nat, k: nat,
                                           more: seq<Event>)
    requires Control(cfg, s) && Exclusive(cfg, home, s) && Routed(cfg, home, more)
    requires StillHere(cfg, s.g, e, s, p, k) && k < |s.g.calls|
    requires Exec(cfg, s, more).Some?
    ensures var t := Exec(cfg, s, more).value;
            && Control(cfg, t) && Exclusive(cfg, home, t) && |s.g.calls| <= |t.g.calls|
            && StillHere(cfg, s.g, e, t, p, k)
  {
    if more != [] {
      var init, ev := more[..|more| - 1], more[|more| - 1];
      var m := Exec(cfg, s, init).value;
      StillHereAlways(cfg, home, e, s, p, k, init);
      ControlStep(cfg, m, ev);
      ExclusiveStep(cfg, home, m, ev);
      if ev.Move? && m.claims[ev.p].Busy? {
        StillHereMove(cfg, home, s.g, e, m, p, k, ev.p, ev.reply);
      } else {
        StillHereRest(cfg, s.g, e, m, p, k, ev);
      }
    }
  }

  /** The status under a payment id without its clock readings, and the event of a row. */
  function StatusIn(r: Redis, id: string): (status: Option<string>)
    ensures status.Some? <==> id in r.statuses
    ensures status.Some? ==> r.statuses[id].fields.status == status.value
  {
    if id in r.statuses then Some(r.statuses[id].fields.status) else None
  }

  function EventIn(rows: Rows, key: RowKey): (event: Option<PaymentEvent>)
    ensures event.Some? <==> key in rows
    ensures event.Some? ==> rows[key].event == event.value
  {
    if key in rows then Some(rows[key].event) else None
  }

  /**
   The payment's status and the event's row are as one clean attempt in g0 would have left them. After
   an error each can also be as it was, and the status the event's without its time to live, when only
   half of a pipeline ran.
   */
  predicate AsOneAttempt(cfg: Config, g0: Shared, trace: string, e: PaymentEvent, g: Shared, succeeded: bool) {
    var id, key := e.paymentId, KeyOf(e);
    var redis, rows := CleanRedis(cfg, g0, e), CleanRows(g0, e, trace);
    && (StatusIn(g.redis, id) == StatusIn(redis, id) || (!succeeded && StatusIn(g.redis, id) in {StatusIn(g0.redis, id), Some(e.status)}))
    && (EventIn(g.rows, key) == EventIn(rows, key) || (!succeeded && EventIn(g.rows, key) == EventIn(g0.rows, key)))
    && (key in g0.rows ==> key in g.rows && g.rows[key] == g0.rows[key])
  }

  lemma HereIsClean(cfg: Config, g0: Shared, trace: string, e: PaymentEvent, g: Shared, c: Claim)
    requires Here(cfg, g0, e, g, c) && c.at.Settling?
    ensures AsOneAttempt(cfg, g0, trace, e, g, c.at.result.None?)
  {
    PipelineTouches(cfg, g0.redis, g0.redis, g0.now, e, Done);
  }

  /**
   Retrying with lost acknowledgements equals one clean attempt, also while other claims run. With ids
   routed to partitions, take any reachable state in which a claim is about to make its first attempt
   for e, and any continuation - the other claims, the clock, failures - to the moment this call's
   result is known. If it is nil, the payment's status and the event's row are those of one attempt
   made at the beginning in which nothing failed, up to clock readings and trace ids; if it is an
   error, each of the two is as it was or what this event's writes leave.
   */
  lemma RetryAmongOthers(cfg: Config, home: string -> int, s: System, run: seq<Event>, t1: System,
                         more: seq<Event>, t2: System, p: nat, e: PaymentEvent)
    requires Reaches(cfg, s, run, t1) && Routed(cfg, home, run)
    requires Exec(cfg, t1, more) == Some(t2) && Routed(cfg, home, more)
    requires p < |t1.claims| && t1.claims[p].Busy? && t1.claims[p].at == WritingStatus(e, 0)
    requires p < |t2.claims| && t2.claims[p].Busy? && t2.claims[p].call == t1.claims[p].call && t2.claims[p].at.Settling?
    ensures AsOneAttempt(cfg, t1.g, t1.claims[p].trace, e, t2.g, t2.claims[p].at.result.None?)
  {
    ControlAlways(cfg, s, run);
    ExclusiveAlways(cfg, home, s, run);
    assert ClaimFits(cfg, t1.g, t1.claims[p]);
    StillHereAlways(cfg, home, e, t1, p, t1.claims[p].call, more);
    HereIsClean(cfg, t1.g, t1.claims[p].trace, e, t2.g, t2.claims[p]);
  }
}
