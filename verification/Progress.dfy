/** Every call ends: a bound on its own steps, and no step it has to wait for but a free slot. */
module Progress {
  import opened Wrappers
  import opened Sums
  import opened Stores
  import opened Protocol
  import opened Safety
  import opened Accounting

  // ----- a bound -------------------------------------------------------------------------------

  /** The most steps a call can still take, for n attempts. */
  function StepsLeft(n: int, at: PC): int {
    match at
    case Settling(_) => 1
    case Returning(_) => 2
    case DlqCounting(_) => 3
    case Publishing(_) => 3
    case DlqSending(_) => 4
    case WritingHistory(_, k) => 3 * (n - k) + 2
    case WritingStatus(_, k) => 3 * (n - k) + 3
    case Waiting(_, k) => 3 * (n - k) + 4
    case Marking(_) => if n >= 1 then 3 * n + 4 else 5
    case Checking(_) => if n >= 1 then 3 * n + 5 else 6
    case Validating => if n >= 1 then 3 * n + 6 else 7
    case Acquiring => if n >= 1 then 3 * n + 7 else 8
  }

  lemma StepsLeftShrink(cfg: Config, g: Shared, c: Claim, r: Reply)
    requires Enabled(cfg, g, c, r) && c.Busy? && InRange(cfg, c)
    ensures var c' := Step(cfg, g, c, r).1; c'.Busy? ==> 1 <= StepsLeft(cfg.maxAttempts, c'.at) < StepsLeft(cfg.maxAttempts, c.at)
  {
    match c.at
    case Acquiring =>
    case Validating =>
    case DlqSending(_) =>
    case DlqCounting(_) =>
    case Checking(_) =>
    case Marking(_) =>
    case WritingStatus(_, _) =>
    case WritingHistory(_, _) =>
    case Waiting(_, _) =>
    case Publishing(_) =>
    case Returning(_) =>
    case Settling(_) =>
  }

  function IsOwn(p: nat): Event -> int {
    (ev: Event) => if ev.Move? && ev.p == p then 1 else 0
  }

  /** The steps of claim p in a run. */
  function OwnSteps(p: nat, run: seq<Event>): int {
    Sum(IsOwn(p), run)
  }

  lemma FitsInRange(cfg: Config, g: Shared, c: Claim)
    requires ClaimFits(cfg, g, c)
    ensures InRange(cfg, c)
    ensures c.Busy? ==> 1 <= StepsLeft(cfg.maxAttempts, c.at)
  {
  }

  predicate OnCall(s: System, p: nat, k: nat) {
    p < |s.claims| && s.claims[p].Busy? && s.claims[p].call == k
  }

  /** One event: a claim that is on call k afterwards was on it before, and has fewer steps left if it moved. */
  lemma OnCallStep(cfg: Config, s: System, ev: Event, p: nat, k: nat)
    requires Possible(cfg, s, ev) && Control(cfg, s) && k < |s.g.calls|
    requires OnCall(Happen(cfg, s, ev), p, k)
    ensures OnCall(s, p, k)
    ensures StepsLeft(cfg.maxAttempts, Happen(cfg, s, ev).claims[p].at)
            <= StepsLeft(cfg.maxAttempts, s.claims[p].at) - if ev.Move? && ev.p == p then 1 else 0
  {
    if ev.Move? && ev.p == p {
      var c := s.claims[p];
      if c.Busy? {
        FitsInRange(cfg, s.g, c);
        StepsLeftShrink(cfg, s.g, c, ev.reply);
        ClaimStep(cfg, s.g, c, ev.reply);
      }
    }
  }

  lemma {:induction false} StepsAreBounded(cfg: Config, t: System, more: seq<Event>, p: nat, k: nat)
    requires Control(cfg, t) && k < |t.g.calls| && Exec(cfg, t, more).Some?
    requires OnCall(Exec(cfg, t, more).value, p, k)
    ensures OnCall(t, p, k)
    ensures OwnSteps(p, more) + StepsLeft(cfg.maxAttempts, Exec(cfg, t, more).value.claims[p].at)
            <= StepsLeft(cfg.maxAttempts, t.claims[p].at)
  {
    if more != [] {
      var init, ev := more[..|more| - 1], more[|more| - 1];
      var m := Exec(cfg, t, init).value;
      ControlOn(cfg, t, init);
      OnCallStep(cfg, m, ev, p, k);
      StepsAreBounded(cfg, t, init, p, k);
    }
  }

  lemma {:induction false} ControlOn(cfg: Config, t: System, more: seq<Event>)
    requires Control(cfg, t) && Exec(cfg, t, more).Some?
    ensures Control(cfg, Exec(cfg, t, more).value) && |t.g.calls| <= |Exec(cfg, t, more).value.g.calls|
  {
    if more != [] {
      ControlOn(cfg, t, more[..|more| - 1]);
      ControlStep(cfg, Exec(cfg, t, more[..|more| - 1]).value, more[|more| - 1]);
    }
  }

  /** The most steps a whole call takes, from its delivery to its settling. */
  function CallBound(cfg: Config): nat {
    if cfg.maxAttempts >= 1 then 3 * cfg.maxAttempts + 7 else 8
  }

  /**
   A call is over after at most 3n + 7 steps of its own, for n attempts (8 when none is allowed): in
   every run, from any reachable state to any later one in which the claim is still on the same call,
   the claim has taken fewer steps than that, however the others interleave.
   */
  lemma CallEnds(cfg: Config, s: System, run: seq<Event>, t: System, more: seq<Event>, t': System, p: nat, k: nat)
    requires Reaches(cfg, s, run, t) && k < |t.g.calls|
    requires Exec(cfg, t, more) == Some(t') && OnCall(t', p, k)
    ensures OwnSteps(p, more) < CallBound(cfg)
  {
    ControlAlways(cfg, s, run);
    ControlOn(cfg, t, more);
    StepsAreBounded(cfg, t, more, p, k);
    FitsInRange(cfg, t.g, t.claims[p]);
    FitsInRange(cfg, t'.g, t'.claims[p]);
    assert StepsLeft(cfg.maxAttempts, t.claims[p].at) <= CallBound(cfg);
  }

  // ----- no waiting ----------------------------------------------------------------------------

  /** The reply of a step that is not a cancellation. */
  function Answer(at: PC): Reply {
    match at
    case Acquiring => SlotTaken
    case Validating => Proceed
    case Waiting(_, _) => Proceed
    case Returning(_) => Proceed
    case Settling(_) => Proceed
    case _ => Remote(Lost, false)
  }

  /**
   A busy claim never waits for another one but at the semaphore: in every reachable state it can take
   a step without being cancelled, unless it is waiting for a slot and none is free.
   */
  lemma NeverStuck(cfg: Config, s: System, run: seq<Event>, t: System, p: nat)
    requires Reaches(cfg, s, run, t) && p < |t.claims| && t.claims[p].Busy?
    ensures Enabled(cfg, t.g, t.claims[p], Answer(t.claims[p].at))
            <==> !(t.claims[p].at.Acquiring? && t.g.held >= cfg.workers)
  {
    ControlAlways(cfg, s, run);
    assert ClaimFits(cfg, t.g, t.claims[p]);
    SemaphoreIsExact(cfg, s, run, t);
  }

  /** And when no slot is free, some call that holds one can take a step: there is no deadlock. */
  lemma SomeoneMoves(cfg: Config, s: System, run: seq<Event>, t: System) returns (q: nat)
    requires Reaches(cfg, s, run, t) && 0 < cfg.workers <= t.g.held
    ensures q < |t.claims| && t.claims[q].Busy? && HoldsSlot(t.claims[q]) == 1
    ensures Enabled(cfg, t.g, t.claims[q], Answer(t.claims[q].at))
  {
    SemaphoreIsExact(cfg, s, run, t);
    if forall i :: 0 <= i < |t.claims| ==> HoldsSlot(t.claims[i]) == 0 {
      SumZero(HoldsSlot, t.claims);
    }
    q :| q < |t.claims| && HoldsSlot(t.claims[q]) != 0;
    NeverStuck(cfg, s, run, t, q);
  }
}
