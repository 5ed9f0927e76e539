/**
 ConsumeClaim when every remote call is answered: it refines a pure function of the messages, and
 redelivering handled messages changes nothing.
 */
module Healthy {
  import opened Wrappers
  import opened Models
  import opened Stores
  import opened Protocol
  import opened Writes

  // ----- the pure function ---------------------------------------------------------------------

  /** A message with what the validator said of it. */
  datatype Judgement = Judgement(msg: Message, event: Option<PaymentEvent>)

  /** What the consumer leaves behind, without clock readings and trace ids. */
  datatype Book = Book(
    ids: set<string>,                     // payment ids with a live mark
    statuses: map<string, string>,
    history: map<RowKey, PaymentEvent>,
    bus: seq<PaymentEvent>,
    dead: seq<Message>,
    deadCount: int,                       // dlq:count
    positions: map<int, int>)

  predicate Fresh(b: Book, j: Judgement) {
    j.event.Some? && j.event.value.paymentId !in b.ids
  }

  /** One message: an invalid one goes to the dead letters, a known id only advances the position. */
  function Absorb(cfg: Config, b: Book, j: Judgement): Book {
    if j.event.None? then b.(dead := b.dead + [j.msg], deadCount := b.deadCount + if cfg.countsDlq then 1 else 0)
    else
      var b' := if Fresh(b, j) then Published(Recorded(StatusSet(cfg, Claimed(b, j.event.value), j.event.value), j.event.value), j.event.value) else b;
      b'.(positions := Advance(b.positions, j.msg.partition, j.msg.offset))
  }

  function Claimed(b: Book, e: PaymentEvent): Book {
    b.(ids := b.ids + {e.paymentId})
  }

  function StatusSet(cfg: Config, b: Book, e: PaymentEvent): Book {
    b.(statuses := if cfg.statusTtl == 0 then b.statuses - {e.paymentId} else b.statuses[e.paymentId := e.status])
  }

  function Recorded(b: Book, e: PaymentEvent): Book {
    b.(history := if KeyOf(e) in b.history then b.history else b.history[KeyOf(e) := e])
  }

  function Published(b: Book, e: PaymentEvent): Book {
    b.(bus := b.bus + [e])
  }

  function AbsorbAll(cfg: Config, b: Book, js: seq<Judgement>): Book {
    if js == [] then b else Absorb(cfg, AbsorbAll(cfg, b, js[..|js| - 1]), js[|js| - 1])
  }

  // ----- the same, read off the shared state ---------------------------------------------------

  function LiveIds(r: Redis, now: nat): set<string> {
    set id | id in r.marks && Live(r.marks[id], now)
  }

  function Letters(dlq: seq<Letter>): seq<Message> {
    seq(|dlq|, i requires 0 <= i < |dlq| => dlq[i].msg)
  }

  function BookOf(g: Shared): Book {
    Book(LiveIds(g.redis, g.now), Statuses(g.redis), Events(g.rows), g.bus, Letters(g.dlq), g.redis.dlqCount, g.positions)
  }

  // ----- healthy scripts -----------------------------------------------------------------------

  /** Every request runs and is answered, and the session's context stays alive. */
  predicate Healthy(script: seq<Action>) {
    forall i :: 0 <= i < |script| && script[i].Do? ==>
      !script[i].reply.CtxDone? && (script[i].reply.Remote? ==> script[i].reply.acked)
  }

  /** The messages a script brought before the validator, with its verdicts, in order. */
  function Judged(cfg: Config, g: Shared, c: Claim, script: seq<Action>): seq<Judgement> {
    if script == [] then []
    else
      var init := script[..|script| - 1];
      var before := After(cfg, g, c, init);
      Judged(cfg, g, c, init) +
      if script[|script| - 1].Do? && before.Some? && before.value.1.Busy? && before.value.1.at.Validating?
      then [Judge(cfg, before.value.0, before.value.1.msg)] else []
  }

  function Judge(cfg: Config, g: Shared, msg: Message): Judgement {
    Judgement(msg, match cfg.verdict(msg.value, g.now) case Success(e) => Some(e) case Failure(_) => None)
  }

  /** The marks that are live now stay live until the horizon, and so does a mark set by then. */
  predicate Lasting(cfg: Config, g: Shared, horizon: nat) {
    && (forall id :: id in g.redis.marks && Live(g.redis.marks[id], g.now) ==> Live(g.redis.marks[id], horizon))
    && (cfg.markTtl == 0 || horizon < g.now + cfg.markTtl)
  }

  // ----- the invariant -------------------------------------------------------------------------

  /** The book while the message judged last is being handled. */
  function Partial(cfg: Config, b: Book, j: Judgement, at: PC): Book {
    match at
    case WritingStatus(e, _) => Claimed(b, e)
    case WritingHistory(e, _) => StatusSet(cfg, Claimed(b, e), e)
    case Publishing(e) => Recorded(StatusSet(cfg, Claimed(b, e), e), e)
    case DlqCounting(_) => Absorb(cfg, b, j).(deadCount := b.deadCount)
    case Returning(_) => Absorb(cfg, b, j).(positions := b.positions)
    case Settling(_) => Absorb(cfg, b, j).(positions := b.positions)
    case _ => b
  }

  /** Where a healthy call can be, given the book before its message. */
  predicate OnPath(cfg: Config, b: Book, j: Judgement, at: PC) {
    match at
    case Checking(e) => j.event == Some(e)
    case Marking(e) => j.event == Some(e) && Fresh(b, j)
    case WritingStatus(e, k) => j.event == Some(e) && Fresh(b, j) && k == 0
    case WritingHistory(e, k) => j.event == Some(e) && Fresh(b, j) && k == 0
    case Publishing(e) => j.event == Some(e) && Fresh(b, j)
    case DlqSending(f) => j.event.None? && f.Invalid?
    case DlqCounting(f) => j.event.None? && f.Invalid? && cfg.countsDlq
    case Returning(r) => r.None? <==> j.event.Some?
    case Settling(r) => r.None? <==> j.event.Some?
    case _ => false
  }

  predicate BeforeVerdict(c: Claim) {
    c.Idle? || c.at.Acquiring? || c.at.Validating?
  }

  predicate MarksLast(g: Shared, horizon: nat) {
    forall id :: id in g.redis.marks && Live(g.redis.marks[id], g.now) ==> Live(g.redis.marks[id], horizon)
  }

  predicate Tracks(cfg: Config, b0: Book, js: seq<Judgement>, g: Shared, c: Claim) {
    if BeforeVerdict(c) then BookOf(g) == AbsorbAll(cfg, b0, js)
    else
      js != [] &&
      var b, j := AbsorbAll(cfg, b0, js[..|js| - 1]), js[|js| - 1];
      && j.msg == c.msg && OnPath(cfg, b, j, c.at) && BookOf(g) == Partial(cfg, b, j, c.at)
  }

  // ----- one step ------------------------------------------------------------------------------

  lemma LettersSnoc(dlq: seq<Letter>, l: Letter)
    ensures Letters(dlq + [l]) == Letters(dlq) + [l.msg]
  {
  }

  lemma IdsAfterSetNX(cfg: Config, g: Shared, id: string, horizon: nat)
    requires MarksLast(g, horizon) && !MarkLive(g.redis, g.now, id)
    requires cfg.markTtl == 0 || horizon < g.now + cfg.markTtl
    ensures var r := SetNX(g.redis, g.now, id, cfg.markTtl);
            && LiveIds(r, g.now) == LiveIds(g.redis, g.now) + {id}
            && Live(r.marks[id], horizon)
            && r.statuses == g.redis.statuses
  {
    assert cfg.markTtl == 0 || g.now < g.now + cfg.markTtl;
  }

  lemma StatusesAfterPipeline(cfg: Config, r: Redis, now: nat, e: PaymentEvent)
    ensures var r' := Pipeline(r, now, e.paymentId, e.status, cfg.statusTtl, Done);
            && r'.marks == r.marks
            && Statuses(r') == if cfg.statusTtl == 0 then Statuses(r) - {e.paymentId}
                               else Statuses(r)[e.paymentId := e.status]
  {
  }

  lemma EventsAfterPut(rows: Rows, e: PaymentEvent, item: PaymentHistory)
    requires item.event == e
    ensures Events(PutIfAbsent(rows, KeyOf(e), item)) ==
            if KeyOf(e) in Events(rows) then Events(rows) else Events(rows)[KeyOf(e) := e]
  {
  }

  /** The claim is handling message j, and the stores are where the book says. */
  predicate Handling(cfg: Config, b: Book, j: Judgement, g: Shared, c: Claim) {
    c.Busy? && !BeforeVerdict(c) && j.msg == c.msg && OnPath(cfg, b, j, c.at) && BookOf(g) == Partial(cfg, b, j, c.at)
  }

  predicate HealthyReply(r: Reply) {
    !r.CtxDone? && (r.Remote? ==> r.acked)
  }

  predicate Room(cfg: Config, g: Shared, horizon: nat) {
    && MarksLast(g, horizon) && g.now <= horizon
    && (cfg.markTtl == 0 || horizon < g.now + cfg.markTtl)
    && cfg.maxAttempts >= 1
  }

  lemma CheckTracks(cfg: Config, b: Book, j: Judgement, g: Shared, c: Claim, r: Reply, horizon: nat)
    requires Handling(cfg, b, j, g, c) && Enabled(cfg, g, c, r) && HealthyReply(r) && Room(cfg, g, horizon)
    requires c.at.Checking?
    ensures Handling(cfg, b, j, Step(cfg, g, c, r).0, Step(cfg, g, c, r).1)
    ensures MarksLast(Step(cfg, g, c, r).0, horizon)
  {
    assert c.at.event.paymentId in LiveIds(g.redis, g.now) <==> MarkLive(g.redis, g.now, c.at.event.paymentId);
  }

  lemma MarkTracks(cfg: Config, b: Book, j: Judgement, g: Shared, c: Claim, r: Reply, horizon: nat)
    requires Handling(cfg, b, j, g, c) && Enabled(cfg, g, c, r) && HealthyReply(r) && Room(cfg, g, horizon)
    requires c.at.Marking?
    ensures Handling(cfg, b, j, Step(cfg, g, c, r).0, Step(cfg, g, c, r).1)
    ensures MarksLast(Step(cfg, g, c, r).0, horizon)
  {
    var id := c.at.event.paymentId;
    assert id in LiveIds(g.redis, g.now) <==> MarkLive(g.redis, g.now, id);
    IdsAfterSetNX(cfg, g, id, horizon);
  }

  lemma StatusTracks(cfg: Config, b: Book, j: Judgement, g: Shared, c: Claim, r: Reply, horizon: nat)
    requires Handling(cfg, b, j, g, c) && Enabled(cfg, g, c, r) && HealthyReply(r) && Room(cfg, g, horizon)
    requires c.at.WritingStatus?
    ensures Handling(cfg, b, j, Step(cfg, g, c, r).0, Step(cfg, g, c, r).1)
    ensures MarksLast(Step(cfg, g, c, r).0, horizon)
  {
    StatusesAfterPipeline(cfg, g.redis, g.now, c.at.event);
  }

  lemma HistoryTracks(cfg: Config, b: Book, j: Judgement, g: Shared, c: Claim, r: Reply, horizon: nat)
    requires Handling(cfg, b, j, g, c) && Enabled(cfg, g, c, r) && HealthyReply(r) && Room(cfg, g, horizon)
    requires c.at.WritingHistory?
    ensures Handling(cfg, b, j, Step(cfg, g, c, r).0, Step(cfg, g, c, r).1)
    ensures MarksLast(Step(cfg, g, c, r).0, horizon)
  {
    EventsAfterPut(g.rows, c.at.event, NewPaymentHistoryFromEvent(c.at.event, g.now, c.trace));
  }

  lemma PublishTracks(cfg: Config, b: Book, j: Judgement, g: Shared, c: Claim, r: Reply, horizon: nat)
    requires Handling(cfg, b, j, g, c) && Enabled(cfg, g, c, r) && HealthyReply(r) && Room(cfg, g, horizon)
    requires c.at.Publishing?
    ensures Handling(cfg, b, j, Step(cfg, g, c, r).0, Step(cfg, g, c, r).1)
    ensures MarksLast(Step(cfg, g, c, r).0, horizon)
  {
  }

  lemma DlqTracks(cfg: Config, b: Book, j: Judgement, g: Shared, c: Claim, r: Reply, horizon: nat)
    requires Handling(cfg, b, j, g, c) && Enabled(cfg, g, c, r) && HealthyReply(r) && Room(cfg, g, horizon)
    requires c.at.DlqSending? || c.at.DlqCounting?
    ensures Handling(cfg, b, j, Step(cfg, g, c, r).0, Step(cfg, g, c, r).1)
    ensures MarksLast(Step(cfg, g, c, r).0, horizon)
  {
    if c.at.DlqSending? {
      LettersSnoc(g.dlq, Letter(c.msg, c.at.failure));
    }
  }

  lemma ReturnTracks(cfg: Config, b: Book, j: Judgement, g: Shared, c: Claim, r: Reply, horizon: nat)
    requires Handling(cfg, b, j, g, c) && Enabled(cfg, g, c, r) && HealthyReply(r) && Room(cfg, g, horizon)
    requires c.at.Returning?
    ensures Handling(cfg, b, j, Step(cfg, g, c, r).0, Step(cfg, g, c, r).1)
    ensures MarksLast(Step(cfg, g, c, r).0, horizon)
  {
  }

  lemma SettleTracks(cfg: Config, b: Book, j: Judgement, g: Shared, c: Claim, r: Reply, horizon: nat)
    requires Handling(cfg, b, j, g, c) && Enabled(cfg, g, c, r) && HealthyReply(r) && Room(cfg, g, horizon)
    requires c.at.Settling?
    ensures Step(cfg, g, c, r).1.Idle? && BookOf(Step(cfg, g, c, r).0) == Absorb(cfg, b, j)
    ensures MarksLast(Step(cfg, g, c, r).0, horizon)
  {
  }

  lemma TickTracks(g: Shared, d: nat, horizon: nat)
    requires MarksLast(g, horizon) && g.now + d <= horizon
    ensures var g' := g.(now := g.now + d); BookOf(g') == BookOf(g) && MarksLast(g', horizon)
  {
    assert LiveIds(g.redis, g.now + d) == LiveIds(g.redis, g.now);
  }

  lemma VerdictTracks(cfg: Config, b0: Book, js: seq<Judgement>, g: Shared, c: Claim, r: Reply)
    requires c.Busy? && c.at.Validating? && Enabled(cfg, g, c, r) && BookOf(g) == AbsorbAll(cfg, b0, js)
    ensures var js' := js + [Judge(cfg, g, c.msg)];
            Tracks(cfg, b0, js', Step(cfg, g, c, r).0, Step(cfg, g, c, r).1)
  {
    var js' := js + [Judge(cfg, g, c.msg)];
    assert js'[..|js'| - 1] == js;
  }

  /** Any step of a busy claim that has its verdict. */
  lemma HandlingTracks(cfg: Config, b0: Book, js: seq<Judgement>, g: Shared, c: Claim, r: Reply, horizon: nat)
    requires Tracks(cfg, b0, js, g, c) && !BeforeVerdict(c)
    requires Enabled(cfg, g, c, r) && HealthyReply(r) && Room(cfg, g, horizon)
    ensures Tracks(cfg, b0, js, Step(cfg, g, c, r).0, Step(cfg, g, c, r).1)
    ensures MarksLast(Step(cfg, g, c, r).0, horizon)
  {
    var b, j := AbsorbAll(cfg, b0, js[..|js| - 1]), js[|js| - 1];
    if c.at.Checking? {
      CheckTracks(cfg, b, j, g, c, r, horizon);
    } else if c.at.Marking? {
      MarkTracks(cfg, b, j, g, c, r, horizon);
    } else if c.at.WritingStatus? {
      StatusTracks(cfg, b, j, g, c, r, horizon);
    } else if c.at.WritingHistory? {
      HistoryTracks(cfg, b, j, g, c, r, horizon);
    } else if c.at.Publishing? {
      PublishTracks(cfg, b, j, g, c, r, horizon);
    } else if c.at.Returning? {
      ReturnTracks(cfg, b, j, g, c, r, horizon);
    } else if c.at.Settling? {
      SettleTracks(cfg, b, j, g, c, r, horizon);
    } else {
      DlqTracks(cfg, b, j, g, c, r, horizon);
    }
  }

  lemma StepKeepsClock(cfg: Config, g: Shared, c: Claim, r: Reply)
    requires Enabled(cfg, g, c, r)
    ensures Step(cfg, g, c, r).0.now == g.now
  {
  }

  lemma {:induction false} ClockNeverGoesBack(cfg: Config, g0: Shared, c0: Claim, script: seq<Action>)
    requires After(cfg, g0, c0, script).Some?
    ensures g0.now <= After(cfg, g0, c0, script).value.0.now
  {
    if script != [] {
      var init, last := script[..|script| - 1], script[|script| - 1];
      ClockNeverGoesBack(cfg, g0, c0, init);
      if last.Do? {
        var (g, c) := After(cfg, g0, c0, init).value;
        StepKeepsClock(cfg, g, c, last.reply);
      }
    }
  }

  lemma TrackStep(cfg: Config, b0: Book, js: seq<Judgement>, g: Shared, c: Claim, r: Reply, horizon: nat)
    requires Tracks(cfg, b0, js, g, c)
    requires Enabled(cfg, g, c, r) && HealthyReply(r) && Room(cfg, g, horizon)
    ensures var (g', c') := Step(cfg, g, c, r);
            && Tracks(cfg, b0, js + (if c.Busy? && c.at.Validating? then [Judge(cfg, g, c.msg)] else []), g', c')
            && MarksLast(g', horizon)
  {
    if !BeforeVerdict(c) {
      HandlingTracks(cfg, b0, js, g, c, r, horizon);
      assert js + [] == js;
    } else if c.Busy? && c.at.Validating? {
      VerdictTracks(cfg, b0, js, g, c, r);
    } else {
      assert js + [] == js;
    }
  }

  lemma {:induction false} HealthyTracks(cfg: Config, g0: Shared, script: seq<Action>, horizon: nat)
    requires Healthy(script) && After(cfg, g0, Idle, script).Some?
    requires Lasting(cfg, g0, horizon) && cfg.maxAttempts >= 1
    requires After(cfg, g0, Idle, script).value.0.now <= horizon
    ensures var (g, c) := After(cfg, g0, Idle, script).value;
            && Tracks(cfg, BookOf(g0), Judged(cfg, g0, Idle, script), g, c)
            && MarksLast(g, horizon)
  {
    if script != [] {
      var init, last := script[..|script| - 1], script[|script| - 1];
      var (g, c) := After(cfg, g0, Idle, init).value;
      var js := Judged(cfg, g0, Idle, init);
      ClockNeverGoesBack(cfg, g0, Idle, init);
      if last.Tick? {
        HealthyTracks(cfg, g0, init, horizon);
        TickTracks(g, last.d, horizon);
        assert Judged(cfg, g0, Idle, script) == js;
        assert After(cfg, g0, Idle, script) == Some((g.(now := g.now + last.d), c));
      } else {
        StepKeepsClock(cfg, g, c, last.reply);
        HealthyTracks(cfg, g0, init, horizon);
        TrackStep(cfg, BookOf(g0), js, g, c, last.reply, horizon);
      }
    }
  }

  // ----- every delivered message is judged once, in order --------------------------------------

  function Messages(js: seq<Judgement>): seq<Message> {
    seq(|js|, i requires 0 <= i < |js| => js[i].msg)
  }

  /** The verdict is the validator's at some clock reading of the run. */
  ghost predicate JudgedWithin(cfg: Config, j: Judgement, from: nat, to: nat) {
    exists t: nat :: from <= t <= to && j.event == (match cfg.verdict(j.msg.value, t) case Success(e) => Some(e) case Failure(_) => None)
  }

  function Undecided(c: Claim): seq<Message> {
    if c.Busy? && BeforeVerdict(c) then [c.msg] else []
  }

  lemma DeliveredStep(cfg: Config, g: Shared, c: Claim, r: Reply)
    requires Enabled(cfg, g, c, r) && HealthyReply(r)
    ensures Undecided(c) + (if r.Deliver? then [r.msg] else [])
            == (if c.Busy? && c.at.Validating? then [c.msg] else []) + Undecided(Step(cfg, g, c, r).1)
  {
  }

  lemma {:induction false} JudgedIsDelivered(cfg: Config, g0: Shared, script: seq<Action>)
    requires Healthy(script) && After(cfg, g0, Idle, script).Some?
    ensures Delivered(script) ==
            Messages(Judged(cfg, g0, Idle, script)) + Undecided(After(cfg, g0, Idle, script).value.1)
  {
    if script != [] {
      var init, last := script[..|script| - 1], script[|script| - 1];
      var (g, c) := After(cfg, g0, Idle, init).value;
      var js, js' := Judged(cfg, g0, Idle, init), Judged(cfg, g0, Idle, script);
      JudgedIsDelivered(cfg, g0, init);
      if last.Do? {
        DeliveredStep(cfg, g, c, last.reply);
        assert Messages(js') == Messages(js) + (if c.Busy? && c.at.Validating? then [c.msg] else []);
      } else {
        assert js' == js;
      }
    }
  }

  lemma {:induction false} JudgedInTime(cfg: Config, g0: Shared, script: seq<Action>, i: nat)
    requires After(cfg, g0, Idle, script).Some? && i < |Judged(cfg, g0, Idle, script)|
    ensures JudgedWithin(cfg, Judged(cfg, g0, Idle, script)[i], g0.now, After(cfg, g0, Idle, script).value.0.now)
  {
    var init, last := script[..|script| - 1], script[|script| - 1];
    var (g, c) := After(cfg, g0, Idle, init).value;
    ClockNeverGoesBack(cfg, g0, Idle, init);
    if last.Do? {
      StepKeepsClock(cfg, g, c, last.reply);
    }
    var js := Judged(cfg, g0, Idle, init);
    if i < |js| {
      JudgedInTime(cfg, g0, init, i);
    } else {
      assert Judged(cfg, g0, Idle, script)[i] == Judge(cfg, g, c.msg);
    }
  }

  // ----- what the pure function leaves ---------------------------------------------------------

  /** Message i holds the first valid event of its payment id, among these and the known ids. */
  predicate IsFirst(ids: set<string>, js: seq<Judgement>, i: nat)
    requires i < |js|
  {
    && js[i].event.Some? && js[i].event.value.paymentId !in ids
    && forall k :: 0 <= k < i && js[k].event.Some? ==> js[k].event.value.paymentId != js[i].event.value.paymentId
  }

  function Firsts(ids: set<string>, js: seq<Judgement>): seq<PaymentEvent> {
    if js == [] then []
    else Firsts(ids, js[..|js| - 1]) +
         if IsFirst(ids, js, |js| - 1) then [js[|js| - 1].event.value] else []
  }

  function Invalids(js: seq<Judgement>): seq<Message> {
    if js == [] then []
    else Invalids(js[..|js| - 1]) + if js[|js| - 1].event.None? then [js[|js| - 1].msg] else []
  }

  function ValidIds(js: seq<Judgement>): set<string> {
    set i | 0 <= i < |js| && js[i].event.Some? :: js[i].event.value.paymentId
  }

  lemma ValidIdsSnoc(js: seq<Judgement>)
    requires js != []
    ensures var last := js[|js| - 1];
            ValidIds(js) == ValidIds(js[..|js| - 1]) + (if last.event.Some? then {last.event.value.paymentId} else {})
  {
    var n := |js| - 1;
    forall id
      ensures id in ValidIds(js) <==> id in ValidIds(js[..n]) || (js[n].event.Some? && id == js[n].event.value.paymentId)
    {
      if id in ValidIds(js) {
        var i :| 0 <= i < |js| && js[i].event.Some? && js[i].event.value.paymentId == id;
        assert i < n ==> js[..n][i] == js[i];
      }
      if id in ValidIds(js[..n]) {
        var i :| 0 <= i < n && js[..n][i].event.Some? && js[..n][i].event.value.paymentId == id;
        assert js[i].event.value.paymentId == id;
      }
    }
  }

  /** The rows the first valid events call for. */
  function FirstKeys(ids: set<string>, js: seq<Judgement>): set<RowKey> {
    if js == [] then {}
    else FirstKeys(ids, js[..|js| - 1]) +
         if IsFirst(ids, js, |js| - 1) then {KeyOf(js[|js| - 1].event.value)} else {}
  }

  lemma {:induction false} FirstKeysAre(ids: set<string>, js: seq<Judgement>)
    ensures FirstKeys(ids, js) == set e | e in Firsts(ids, js) :: KeyOf(e)
  {
    if js != [] {
      var init := js[..|js| - 1];
      FirstKeysAre(ids, init);
      forall key
        ensures key in FirstKeys(ids, js) <==> exists e :: e in Firsts(ids, js) && KeyOf(e) == key
      {
        if key in FirstKeys(ids, init) {
          var e :| e in Firsts(ids, init) && KeyOf(e) == key;
          assert e in Firsts(ids, js);
        } else if key in FirstKeys(ids, js) {
          assert js[|js| - 1].event.value in Firsts(ids, js);
        }
      }
    }
  }

  /** The last message is the first of its id exactly when no valid one before it has the id. */
  lemma FirstIsNew(ids: set<string>, js: seq<Judgement>)
    requires js != []
    ensures var n := |js| - 1;
            IsFirst(ids, js, n)
            <==> js[n].event.Some? && js[n].event.value.paymentId !in ids + ValidIds(js[..n])
  {
    var n := |js| - 1;
    if js[n].event.Some? {
      var id := js[n].event.value.paymentId;
      if id in ValidIds(js[..n]) {
        var k :| 0 <= k < n && js[..n][k].event.Some? && js[..n][k].event.value.paymentId == id;
        assert js[k].event.Some?;
      }
      if k :| 0 <= k < n && js[k].event.Some? && js[k].event.value.paymentId == id {
        assert js[..n][k].event.Some?;
      }
    }
  }

  lemma {:induction false} AbsorbedLogs(cfg: Config, b: Book, js: seq<Judgement>)
    ensures var b' := AbsorbAll(cfg, b, js);
            && b'.bus == b.bus + Firsts(b.ids, js)
            && b'.dead == b.dead + Invalids(js)
            && b'.deadCount == b.deadCount + (if cfg.countsDlq then |Invalids(js)| else 0)
            && b'.ids == b.ids + ValidIds(js)
  {
    if js != [] {
      AbsorbedLogs(cfg, b, js[..|js| - 1]);
      ValidIdsSnoc(js);
      FirstIsNew(b.ids, js);
    }
  }

  /** The rows are those that were there and those of the first valid events; no later event adds one. */
  lemma {:induction false} AbsorbedRows(cfg: Config, b: Book, js: seq<Judgement>)
    ensures AbsorbAll(cfg, b, js).history.Keys == b.history.Keys + FirstKeys(b.ids, js)
  {
    if js != [] {
      AbsorbedRows(cfg, b, js[..|js| - 1]);
      AbsorbedLogs(cfg, b, js[..|js| - 1]);
      FirstIsNew(b.ids, js);
    }
  }

  /** The first valid event of an id decides its status and, unless its row predates the run, its row. */
  lemma {:induction false} FirstDecides(cfg: Config, b: Book, js: seq<Judgement>, i: nat)
    requires i < |js| && IsFirst(b.ids, js, i)
    ensures var b', e := AbsorbAll(cfg, b, js), js[i].event.value;
            && (cfg.statusTtl > 0 ==> e.paymentId in b'.statuses && b'.statuses[e.paymentId] == e.status)
            && KeyOf(e) in b'.history
            && b'.history[KeyOf(e)] == if KeyOf(e) in b.history then b.history[KeyOf(e)] else e
  {
    var n := |js| - 1;
    var m := AbsorbAll(cfg, b, js[..n]);
    AbsorbedLogs(cfg, b, js[..n]);
    if i == n {
      assert js[n].event.value.paymentId !in ValidIds(js[..n]);
      KeyStaysAbsent(cfg, b, js[..n], js[n].event.value);
    } else {
      assert js[..n][i] == js[i];
      FirstDecides(cfg, b, js[..n], i);
      assert js[i].event.value.paymentId in ValidIds(js[..n]) by {
        assert js[..n][i].event.Some?;
      }
      if Fresh(m, js[n]) {
        assert js[n].event.value.paymentId != js[i].event.value.paymentId;
      }
    }
  }

  /** Rows and statuses of ids without a valid event among the messages stay as they were. */
  lemma {:induction false} KeyStaysAbsent(cfg: Config, b: Book, js: seq<Judgement>, e: PaymentEvent)
    requires e.paymentId !in ValidIds(js) || e.paymentId in b.ids
    ensures var b' := AbsorbAll(cfg, b, js);
            && (KeyOf(e) in b'.history <==> KeyOf(e) in b.history)
            && (KeyOf(e) in b.history ==> b'.history[KeyOf(e)] == b.history[KeyOf(e)])
            && (e.paymentId in b'.statuses <==> e.paymentId in b.statuses)
            && (e.paymentId in b.statuses ==> b'.statuses[e.paymentId] == b.statuses[e.paymentId])
  {
    if js != [] {
      var n := |js| - 1;
      ValidIdsSnoc(js);
      AbsorbedLogs(cfg, b, js[..n]);
      KeyStaysAbsent(cfg, b, js[..n], e);
    }
  }

  function LastValid(js: seq<Judgement>): Option<int> {
    if js == [] then None
    else if js[|js| - 1].event.Some? then Some(js[|js| - 1].msg.offset)
    else LastValid(js[..|js| - 1])
  }

  predicate InOffsetOrder(js: seq<Judgement>, p: int) {
    && (forall i :: 0 <= i < |js| ==> js[i].msg.partition == p)
    && (forall i, k :: 0 <= i < k < |js| ==> js[i].msg.offset < js[k].msg.offset)
  }

  lemma {:induction false} LastValidIsThere(js: seq<Judgement>) returns (i: nat)
    requires LastValid(js).Some?
    ensures i < |js| && js[i].msg.offset == LastValid(js).value && js[i].event.Some?
  {
    i := |js| - 1;
    if js[i].event.None? {
      i := LastValidIsThere(js[..i]);
    }
  }

  /** The position ends one past the last valid offset, unless it was further already. */
  lemma {:induction false} PositionAfter(cfg: Config, b: Book, js: seq<Judgement>, p: int)
    requires InOffsetOrder(js, p)
    ensures AbsorbAll(cfg, b, js).positions ==
            match LastValid(js) case None => b.positions case Some(o) => Advance(b.positions, p, o)
  {
    if js != [] {
      var n := |js| - 1;
      PositionAfter(cfg, b, js[..n], p);
      if js[n].event.Some? && LastValid(js[..n]).Some? {
        var i := LastValidIsThere(js[..n]);
        assert js[i].msg.offset < js[n].msg.offset;
      }
    }
  }

  // ----- theorems ------------------------------------------------------------------------------

  /**
   ConsumeClaim refines a pure function of its messages. For every healthy script that ends between
   two messages and does not outlast a mark: the messages judged are the messages delivered, each
   judged by the validator at a clock reading of the run, and the stores, dead letters, bus and
   position are those the pure function computes from the judgements alone.
   */
  lemma ConsumeClaimRefines(cfg: Config, g0: Shared, script: seq<Action>, g: Shared)
    requires Healthy(script) && cfg.maxAttempts >= 1
    requires After(cfg, g0, Idle, script) == Some((g, Idle)) && Lasting(cfg, g0, g.now)
    ensures var js := Judged(cfg, g0, Idle, script);
            && Messages(js) == Delivered(script)
            && (forall i :: 0 <= i < |js| ==> JudgedWithin(cfg, js[i], g0.now, g.now))
            && BookOf(g) == AbsorbAll(cfg, BookOf(g0), js)
            && g.bus == g0.bus + Firsts(LiveIds(g0.redis, g0.now), js)
            && Letters(g.dlq) == Letters(g0.dlq) + Invalids(js)
            && g.redis.dlqCount == g0.redis.dlqCount + (if cfg.countsDlq then |Invalids(js)| else 0)
            && Events(g.rows).Keys == Events(g0.rows).Keys + set e | e in Firsts(LiveIds(g0.redis, g0.now), js) :: KeyOf(e)
  {
    var js := Judged(cfg, g0, Idle, script);
    FirstKeysAre(LiveIds(g0.redis, g0.now), js);
    HealthyTracks(cfg, g0, script, g.now);
    JudgedIsDelivered(cfg, g0, script);
    AbsorbedLogs(cfg, BookOf(g0), js);
    AbsorbedRows(cfg, BookOf(g0), js);
    forall i | 0 <= i < |js|
      ensures JudgedWithin(cfg, js[i], g0.now, g.now)
    {
      JudgedInTime(cfg, g0, script, i);
    }
  }

  /** Messages whose ids are known leave statuses, history and bus alone; invalid ones are dead-lettered again. */
  lemma {:induction false} KnownIdsChangeNothing(cfg: Config, b: Book, js: seq<Judgement>)
    requires ValidIds(js) <= b.ids
    ensures var b' := AbsorbAll(cfg, b, js);
            b'.(positions := b.positions) ==
            b.(dead := b.dead + Invalids(js), deadCount := b.deadCount + if cfg.countsDlq then |Invalids(js)| else 0)
  {
    if js != [] {
      ValidIdsSnoc(js);
      KnownIdsChangeNothing(cfg, b, js[..|js| - 1]);
    }
  }

  /**
   Replay is idempotent. After a healthy run, any second healthy run whose valid events are of payment
   ids that are marked or were valid in the first one leaves statuses, history, bus and marks as
   they are, and adds exactly its invalid messages to the dead letters. The second run may deliver
   any messages, in any order and number.
   */
  lemma ReplayIsIdempotent(cfg: Config, g0: Shared, first: seq<Action>, g1: Shared, second: seq<Action>, g2: Shared)
    requires Healthy(first) && Healthy(second) && cfg.maxAttempts >= 1
    requires After(cfg, g0, Idle, first) == Some((g1, Idle)) && Lasting(cfg, g0, g1.now)
    requires After(cfg, g1, Idle, second) == Some((g2, Idle)) && Lasting(cfg, g1, g2.now)
    requires ValidIds(Judged(cfg, g1, Idle, second)) <=
             LiveIds(g0.redis, g0.now) + ValidIds(Judged(cfg, g0, Idle, first))
    ensures Statuses(g2.redis) == Statuses(g1.redis) && Events(g2.rows) == Events(g1.rows)
    ensures g2.bus == g1.bus
    ensures LiveIds(g2.redis, g2.now) == LiveIds(g1.redis, g1.now)
    ensures Letters(g2.dlq) == Letters(g1.dlq) + Invalids(Judged(cfg, g1, Idle, second))
  {
    ConsumeClaimRefines(cfg, g0, first, g1);
    ConsumeClaimRefines(cfg, g1, second, g2);
    AbsorbedLogs(cfg, BookOf(g0), Judged(cfg, g0, Idle, first));
    KnownIdsChangeNothing(cfg, BookOf(g1), Judged(cfg, g1, Idle, second));
  }
}
