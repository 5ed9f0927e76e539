/** The steps of one claim are determined by its messages and by what the environment answers. */
module Inputs {
  import opened Wrappers
  import opened Models
  import opened Stores
  import opened Protocol
  import opened Backends
  import H = Healthy

  /** The claim's next step asks the environment something. */
  predicate Asks(c: Claim) {
    c.Busy? && !c.at.Validating? && !c.at.Returning? && !c.at.Settling?
  }

  /** The reply to the claim's next step, given the answer of the environment. */
  function ReplyTo(cfg: Config, g: Shared, c: Claim, f: Fate): Reply
    requires c.Busy?
  {
    match c.at
    case Acquiring => if g.held < cfg.workers && !f.ctxDone then SlotTaken else CtxDone
    case Waiting(_, _) => if f.ctxDone then CtxDone else Proceed
    case WritingStatus(_, _) => Remote(Ran(f, true), f.acked)
    case Validating => Proceed
    case Returning(_) => Proceed
    case Settling(_) => Proceed
    case _ => Remote(Ran(f, false), f.acked)
  }

  /** The questions a script has asked. */
  function Questions(cfg: Config, start: Shared, script: seq<Action>): nat {
    if script == [] then 0
    else
      var init, last := script[..|script| - 1], script[|script| - 1];
      var before := After(cfg, start, Idle, init);
      Questions(cfg, start, init) + if last.Do? && before.Some? && Asks(before.value.1) then 1 else 0
  }

  /** After this much of a script, the next action had the reply that the answer to the next question calls for. */
  predicate StepFollows(cfg: Config, start: Shared, before: seq<Action>, a: Action, fates: nat -> Fate, first: nat) {
    var gc := After(cfg, start, Idle, before);
    a.Do? && gc.Some? && gc.value.1.Busy? ==>
      a.reply == ReplyTo(cfg, gc.value.0, gc.value.1, fates(first + Questions(cfg, start, before)))
  }

  /** Every step but the arrival of a message had the reply the answers call for, the k-th question the k-th answer. */
  predicate Follows(cfg: Config, start: Shared, script: seq<Action>, fates: nat -> Fate, first: nat) {
    forall i :: 0 <= i < |script| ==> StepFollows(cfg, start, script[..i], script[i], fates, first)
  }

  lemma FollowsSnoc(cfg: Config, start: Shared, script: seq<Action>, fates: nat -> Fate, first: nat, a: Action)
    requires Follows(cfg, start, script, fates, first) && StepFollows(cfg, start, script, a, fates, first)
    ensures Follows(cfg, start, script + [a], fates, first)
  {
    var more := script + [a];
    forall i | 0 <= i < |more|
      ensures StepFollows(cfg, start, more[..i], more[i], fates, first)
    {
      if i < |script| {
        assert more[..i] == script[..i];
        assert StepFollows(cfg, start, script[..i], script[i], fates, first);
      } else {
        assert more[..i] == script;
      }
    }
  }

  lemma QuestionsSnoc(cfg: Config, start: Shared, script: seq<Action>, a: Action)
    requires After(cfg, start, Idle, script).Some?
    ensures Questions(cfg, start, script + [a]) ==
            Questions(cfg, start, script) + if a.Do? && Asks(After(cfg, start, Idle, script).value.1) then 1 else 0
  {
    assert (script + [a])[..|script|] == script;
  }

  /**
   From the start, with an idle claim, a script leads to this state and claim; it follows the answers,
   has asked so many questions and delivered these messages.
   */
  predicate LeadsTo(cfg: Config, start: Shared, script: seq<Action>, fates: nat -> Fate, first: nat,
                    g: Shared, c: Claim, asked: nat, delivered: seq<Message>) {
    && After(cfg, start, Idle, script) == Some((g, c))
    && Follows(cfg, start, script, fates, first)
    && asked == first + Questions(cfg, start, script)
    && delivered == Delivered(script)
  }

  lemma LeadsByStep(cfg: Config, start: Shared, script: seq<Action>, fates: nat -> Fate, first: nat,
                    g: Shared, c: Claim, asked: nat, delivered: seq<Message>, r: Reply)
    requires LeadsTo(cfg, start, script, fates, first, g, c, asked, delivered)
    requires Enabled(cfg, g, c, r) && (c.Busy? ==> r == ReplyTo(cfg, g, c, fates(asked)))
    ensures var (g', c') := Step(cfg, g, c, r);
            LeadsTo(cfg, start, script + [Do(r)], fates, first, g', c', asked + (if Asks(c) then 1 else 0),
                    delivered + if r.Deliver? then [r.msg] else [])
  {
    AfterSnoc(cfg, start, Idle, script, Do(r));
    FollowsSnoc(cfg, start, script, fates, first, Do(r));
    QuestionsSnoc(cfg, start, script, Do(r));
    DeliveredSnoc(script, Do(r));
  }

  lemma LeadsByTime(cfg: Config, start: Shared, script: seq<Action>, fates: nat -> Fate, first: nat,
                    g: Shared, c: Claim, asked: nat, delivered: seq<Message>, d: nat)
    requires LeadsTo(cfg, start, script, fates, first, g, c, asked, delivered)
    ensures LeadsTo(cfg, start, script + [Tick(d)], fates, first, g.(now := g.now + d), c, asked, delivered)
  {
    AfterSnoc(cfg, start, Idle, script, Tick(d));
    FollowsSnoc(cfg, start, script, fates, first, Tick(d));
    QuestionsSnoc(cfg, start, script, Tick(d));
    DeliveredSnoc(script, Tick(d));
    assert delivered + [] == delivered;
  }

  // ----- answers that all arrive ---------------------------------------------------------------

  /** Every request is answered, and the context stays alive. */
  ghost predicate AllWell(fates: nat -> Fate) {
    forall k :: fates(k).acked && !fates(k).ctxDone
  }

  /** One claim alone holds a slot between acquire and return, and no other. */
  predicate HoldsOwn(g: Shared, c: Claim) {
    g.held == if c.Idle? || c.at.Acquiring? || c.at.Settling? then 0 else 1
  }

  lemma HoldsOwnStep(cfg: Config, g: Shared, c: Claim, r: Reply)
    requires Enabled(cfg, g, c, r) && HoldsOwn(g, c)
    ensures HoldsOwn(Step(cfg, g, c, r).0, Step(cfg, g, c, r).1)
  {
    match c
    case Idle =>
    case Busy(_, _, _, at) =>
      match at
      case Acquiring =>
      case Validating =>
      case DlqSending(_) =>
      case DlqCounting(_) =>
      case Checking(_) =>
      case Marking(_) =>
      case WritingStatus(_, _) =>
      case WritingHistory(_, _) =>
      case Waiting(_, _) =>
      case Publishing(_) =>
      case Returning(_) =>
      case Settling(_) =>
  }

  lemma WellReply(cfg: Config, g: Shared, c: Claim, r: Reply, f: Fate)
    requires cfg.workers >= 1 && HoldsOwn(g, c) && Enabled(cfg, g, c, r) && f.acked && !f.ctxDone
    requires c.Busy? ==> r == ReplyTo(cfg, g, c, f)
    ensures H.HealthyReply(r)
  {
  }

  lemma FollowsInit(cfg: Config, start: Shared, script: seq<Action>, fates: nat -> Fate, first: nat)
    requires script != [] && Follows(cfg, start, script, fates, first)
    ensures Follows(cfg, start, script[..|script| - 1], fates, first)
    ensures StepFollows(cfg, start, script[..|script| - 1], script[|script| - 1], fates, first)
  {
    var init := script[..|script| - 1];
    forall i | 0 <= i < |init|
      ensures StepFollows(cfg, start, init[..i], init[i], fates, first)
    {
      assert init[..i] == script[..i];
      assert StepFollows(cfg, start, script[..i], script[i], fates, first);
    }
  }

  lemma {:induction false} HoldsOwnAlways(cfg: Config, start: Shared, script: seq<Action>)
    requires HoldsOwn(start, Idle) && After(cfg, start, Idle, script).Some?
    ensures var (g, c) := After(cfg, start, Idle, script).value; HoldsOwn(g, c)
  {
    if script != [] {
      var init, last := script[..|script| - 1], script[|script| - 1];
      HoldsOwnAlways(cfg, start, init);
      if last.Do? {
        var (g, c) := After(cfg, start, Idle, init).value;
        HoldsOwnStep(cfg, g, c, last.reply);
      }
    }
  }

  lemma HealthySnoc(script: seq<Action>)
    requires script != [] && H.Healthy(script[..|script| - 1])
    requires script[|script| - 1].Do? ==> H.HealthyReply(script[|script| - 1].reply)
    ensures H.Healthy(script)
  {
    var n := |script| - 1;
    forall i | 0 <= i < |script| && script[i].Do?
      ensures H.HealthyReply(script[i].reply)
    {
      assert i < n ==> script[..n][i] == script[i];
    }
  }

  /**
   With at least one worker, a claim alone whose requests are all answered and whose context stays
   alive takes only healthy steps: it gets its slot, and nothing is cancelled or lost.
   */
  lemma {:induction false} AllWellIsHealthy(cfg: Config, start: Shared, script: seq<Action>, fates: nat -> Fate, first: nat)
    requires cfg.workers >= 1 && AllWell(fates) && HoldsOwn(start, Idle)
    requires Follows(cfg, start, script, fates, first) && After(cfg, start, Idle, script).Some?
    ensures H.Healthy(script)
  {
    if script != [] {
      var init, last := script[..|script| - 1], script[|script| - 1];
      FollowsInit(cfg, start, script, fates, first);
      AllWellIsHealthy(cfg, start, init, fates, first);
      HoldsOwnAlways(cfg, start, init);
      var (g, c) := After(cfg, start, Idle, init).value;
      if last.Do? {
        WellReply(cfg, g, c, last.reply, fates(first + Questions(cfg, start, init)));
      }
      HealthySnoc(script);
    }
  }
}
