/** The theorems about runs, applied to the Handler object. */
module Session {
  import opened Wrappers
  import opened Models
  import opened Stores
  import opened Protocol
  import opened Backends
  import opened Inputs
  import opened Consumer
  import opened Writes
  import opened Atomicity
  import S = Safety
  import A = Accounting
  import H = Healthy
  import L = Loss
  import V = Validator

  /** The start of a script as a state of the whole system, in which no other claim is busy. */
  function Alone(g: Shared, p: nat): System {
    System(g, seq(p + 1, _ => Idle))
  }

  /**
   What every execution of ConsumeClaim leaves behind, whatever failed on the way: sound calls, no
   slot held, and counters that balance.
   */
  lemma SoloIsSafe(cfg: Config, g0: Shared, script: seq<Action>, g: Shared, p: nat)
    requires Init(Alone(g0, p))
    requires forall m :: m in Delivered(script) ==> m.partition == p
    requires After(cfg, g0, Idle, script) == Some((g, Idle))
    ensures S.AllSound(cfg, g.calls) && g.held == 0
    ensures g.n.received == g.n.success + g.n.error
    ensures g.n.marks == g.n.success == g.n.hits + g.n.completions
    ensures g.n.error == g.n.dlqValidation + g.n.dlqRetry + g.n.cancelled
  {
    var s := Alone(g0, p);
    SoloRun(cfg, s, p, script);
    var t := System(g, s.claims[p := Idle]);
    S.ControlAlways(cfg, s, Lift(p, script));
    A.CountersBalance(cfg, s, Lift(p, script), t);
  }

  /**
   A new Handler over empty stores consumes a partition's messages. In every execution each call is
   sound and the counters balance. With at least one worker and one attempt, answers that all arrive
   and a context that stays alive, unless a mark runs out on the way, the bus has received the first
   valid event of each payment id, in order, and the dead letters are exactly the invalid messages, in
   order.
   */
  method ConsumePartition(cfg: Config, baseDelay: int, messages: seq<Message>, p: nat, fates: nat -> Fate, delays: nat -> nat)
      returns (h: Handler)
    requires forall m :: m in messages ==> m.partition == p
    ensures h.Valid() && Delivered(h.script) == messages
    ensures S.AllSound(cfg, h.calls) && h.held == 0
    ensures h.n.received == h.n.success + h.n.error
    ensures h.n.success == h.n.hits + h.n.completions
    ensures h.n.error == h.n.dlqValidation + h.n.dlqRetry + h.n.cancelled
    ensures cfg.workers >= 1 && AllWell(fates) ==> H.Healthy(h.script)
    ensures cfg.workers >= 1 && AllWell(fates) && cfg.maxAttempts >= 1
            && (cfg.markTtl == 0 || h.cloud.now < cfg.markTtl) ==>
              var js := H.Judged(cfg, h.start, Idle, h.script);
              && H.Messages(js) == messages
              && (forall i :: 0 <= i < |js| ==> H.JudgedWithin(cfg, js[i], 0, h.cloud.now))
              && h.cloud.bus == H.Firsts({}, js)
              && H.BookOf(h.View()) == H.AbsorbAll(cfg, H.BookOf(h.start), js)
              && H.Letters(h.cloud.dlq) == H.Invalids(js)
              && h.cloud.redis.dlqCount == (if cfg.countsDlq then |H.Invalids(js)| else 0)
              && Events(h.cloud.rows).Keys == set e | e in H.Firsts({}, js) :: KeyOf(e)
  {
    var cloud := new Cloud(fates, delays);
    h := new Handler(cfg, baseDelay, cloud);
    h.ConsumeClaim(messages);
    assert [] + messages == messages;
    SoloIsSafe(cfg, h.start, h.script, h.View(), p);
    if cfg.workers >= 1 && AllWell(fates) {
      AllWellIsHealthy(cfg, h.start, h.script, fates, h.first);
      if cfg.maxAttempts >= 1 && (cfg.markTtl == 0 || h.cloud.now < cfg.markTtl) {
        assert H.LiveIds(h.start.redis, h.start.now) == {};
        H.ConsumeClaimRefines(cfg, h.start, h.script, h.View());
      }
    }
  }

  // ----- with the validator of internal/validator ----------------------------------------------

  /** The Handler was given this validator. */
  ghost predicate UsesValidator(cfg: Config, codec: V.Codec) {
    forall data: Bytes, t: nat ::
      match V.Validate(codec, data, t)
      case Success(e) => cfg.verdict(data, t) == Success(e)
      case Failure(_) => cfg.verdict(data, t).Failure?
  }

  /** A message judged valid in one run is judged valid, with the same event, in any later one. */
  lemma SameJudgementLater(cfg: Config, codec: V.Codec, a: H.Judgement, b: H.Judgement, t0: nat, t1: nat, t2: nat)
    requires UsesValidator(cfg, codec) && a.msg == b.msg && a.event.Some?
    requires H.JudgedWithin(cfg, a, t0, t1) && H.JudgedWithin(cfg, b, t1, t2)
    ensures b.event == a.event
  {
    var ta: nat :| t0 <= ta <= t1 &&
      a.event == (match cfg.verdict(a.msg.value, ta) case Success(e) => Some(e) case Failure(_) => None);
    var tb: nat :| t1 <= tb <= t2 &&
      b.event == (match cfg.verdict(b.msg.value, tb) case Success(e) => Some(e) case Failure(_) => None);
    assert V.Validate(codec, a.msg.value, ta).Success?;
    V.ValidStaysValid(codec, a.msg.value, ta, tb);
  }

  /**
   Redelivery after a healthy run. Any sequence of messages that were judged valid in the first run,
   in any order and number, leaves statuses, history, bus and dead letters exactly as they were while
   the marks live: the validator cannot change its mind about them.
   */
  lemma RedeliveryChangesNothing(cfg: Config, codec: V.Codec, g0: Shared, first: seq<Action>, g1: Shared,
                                 second: seq<Action>, g2: Shared)
    requires UsesValidator(cfg, codec)
    requires H.Healthy(first) && H.Healthy(second) && cfg.maxAttempts >= 1
    requires After(cfg, g0, Idle, first) == Some((g1, Idle)) && H.Lasting(cfg, g0, g1.now)
    requires After(cfg, g1, Idle, second) == Some((g2, Idle)) && H.Lasting(cfg, g1, g2.now)
    requires forall m :: m in Delivered(second) ==> FoundValid(H.Judged(cfg, g0, Idle, first), m)
    ensures Statuses(g2.redis) == Statuses(g1.redis) && Events(g2.rows) == Events(g1.rows)
    ensures g2.bus == g1.bus && H.Letters(g2.dlq) == H.Letters(g1.dlq)
  {
    var js1, js2 := H.Judged(cfg, g0, Idle, first), H.Judged(cfg, g1, Idle, second);
    H.ConsumeClaimRefines(cfg, g0, first, g1);
    H.ConsumeClaimRefines(cfg, g1, second, g2);
    forall k | 0 <= k < |js2|
      ensures js2[k].event.Some? && js2[k].event.value.paymentId in H.ValidIds(js1)
    {
      assert H.Messages(js2)[k] in Delivered(second);
      var i :| 0 <= i < |js1| && js1[i].msg == js2[k].msg && js1[i].event.Some?;
      SameJudgementLater(cfg, codec, js1[i], js2[k], g0.now, g1.now, g2.now);
    }
    NoInvalids(js2);
    H.ReplayIsIdempotent(cfg, g0, first, g1, second, g2);
  }

  predicate FoundValid(js: seq<H.Judgement>, m: Message) {
    exists i :: 0 <= i < |js| && js[i].msg == m && js[i].event.Some?
  }

  lemma {:induction false} NoInvalids(js: seq<H.Judgement>)
    requires forall k :: 0 <= k < |js| ==> js[k].event.Some?
    ensures H.Invalids(js) == []
  {
    if js != [] {
      NoInvalids(js[..|js| - 1]);
    }
  }

  // ----- losses, with this validator -----------------------------------------------------------

  /** A message that once validated to e always validates to e from then on, and to nothing else at any time. */
  lemma ValidatesToOne(cfg: Config, codec: V.Codec, m: Message, e: PaymentEvent, t0: nat)
    requires UsesValidator(cfg, codec) && cfg.verdict(m.value, t0) == Success(e)
    ensures L.OnlyTo(cfg, m, e)
    ensures forall t: nat :: t0 <= t ==> cfg.verdict(m.value, t) == Success(e)
  {
    assert V.Validate(codec, m.value, t0).Success?;
    forall t: nat
      ensures cfg.verdict(m.value, t).Success? ==> cfg.verdict(m.value, t) == Success(e)
      ensures t0 <= t ==> cfg.verdict(m.value, t) == Success(e)
    {
      if t0 <= t {
        V.ValidStaysValid(codec, m.value, t0, t);
      } else if cfg.verdict(m.value, t).Success? {
        assert V.Validate(codec, m.value, t).Success?;
        V.ValidStaysValid(codec, m.value, t, t0);
      }
    }
  }

  /** The call's event is what the validator said of its message, at some moment by now. */
  ghost predicate Validated(cfg: Config, now: nat, call: Call) {
    call.event.Some? ==> exists t: nat :: t <= now && cfg.verdict(call.msg.value, t) == Success(call.event.value)
  }

  lemma ValidatedStep(cfg: Config, s: System, ev: Event)
    requires Possible(cfg, s, ev) && S.Control(cfg, s)
    requires forall k :: 0 <= k < |s.g.calls| ==> Validated(cfg, s.g.now, s.g.calls[k])
    ensures var g := Happen(cfg, s, ev).g; forall k :: 0 <= k < |g.calls| ==> Validated(cfg, g.now, g.calls[k])
  {
    var g := Happen(cfg, s, ev).g;
    if ev.Move? && s.claims[ev.p].Busy? {
      S.ClaimStep(cfg, s.g, s.claims[ev.p], ev.reply);
    }
    forall k | 0 <= k < |g.calls|
      ensures Validated(cfg, g.now, g.calls[k])
    {
      assert k < |s.g.calls| ==> Validated(cfg, s.g.now, s.g.calls[k]);
    }
  }

  /** Every event a call works on came from the validator. */
  lemma {:induction false} EventsWereValidated(cfg: Config, s: System, run: seq<Event>, t: System)
    requires Reaches(cfg, s, run, t)
    ensures forall k :: 0 <= k < |t.g.calls| ==> Validated(cfg, t.g.now, t.g.calls[k])
  {
    if run != [] {
      var m := Exec(cfg, s, run[..|run| - 1]).value;
      EventsWereValidated(cfg, s, run[..|run| - 1], m);
      S.ControlAlways(cfg, s, run[..|run| - 1]);
      ValidatedStep(cfg, m, run[|run| - 1]);
    }
  }

  /**
   Loss.CrashLosesExactlyWhen with the validator as it is, which leaves no condition on verdicts: for
   every claim whose message was validated, redelivery after a crash can lose the message if and only
   if its payment's mark is live and it has neither row nor letter.
   */
  lemma CrashLosesExactlyWhen(cfg: Config, codec: V.Codec, home: string -> int, s: System, run: seq<Event>, t: System, p: nat)
    requires UsesValidator(cfg, codec) && Reaches(cfg, s, run, t) && Routed(cfg, home, run)
    requires p < |t.claims| && t.claims[p].Busy? && t.claims[p].call < |t.g.calls|
    requires t.g.calls[t.claims[p].call].event.Some?
    ensures var m, e := t.claims[p].msg, t.g.calls[t.claims[p].call].event.value;
            L.CanLose(cfg, home, Happen(cfg, t, Crash), m, e)
            <==> MarkLive(t.g.redis, t.g.now, e.paymentId) && !L.MessageHandled(t.g, m, e)
  {
    var c := t.claims[p];
    var e := t.g.calls[c.call].event.value;
    S.ControlAlways(cfg, s, run);
    EventsWereValidated(cfg, s, run, t);
    assert S.ClaimFits(cfg, t.g, c) && Validated(cfg, t.g.now, t.g.calls[c.call]);
    var t0: nat :| t0 <= t.g.now && cfg.verdict(c.msg.value, t0) == Success(e);
    ValidatesToOne(cfg, codec, c.msg, e, t0);
    L.CrashLosesExactlyWhen(cfg, home, s, run, t, p, e);
  }
}
