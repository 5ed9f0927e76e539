/** The semaphore and the counters, as sums over the claims, in every reachable state. */
module Accounting {
  import opened Sums
  import opened Protocol
  import opened Safety

  // ----- what a claim contributes at its program counter ---------------------------------------

  function HoldsSlot(c: Claim): int {
    if c.Idle? || c.at.Acquiring? || c.at.Settling? then 0 else 1
  }

  function InFlight(c: Claim): int {
    if c.Busy? then 1 else 0
  }

  function WillSucceed(c: Claim): int {
    if c.Busy? && (c.at.Returning? || c.at.Settling?) && c.at.result.None? then 1 else 0
  }

  function WillFail(c: Claim): int {
    if c.Idle? then 0
    else if c.at.DlqCounting? then 1
    else if (c.at.Returning? || c.at.Settling?) && c.at.result.Some? then 1
    else 0
  }

  /** Attempts a call in the retry loop may still start. */
  function Remaining(cfg: Config): Claim -> int {
    (c: Claim) =>
      if c.Idle? then 0
      else if c.at.WritingHistory? then cfg.maxAttempts - (c.at.attempt + 1)
      else if c.at.WritingStatus? || c.at.Waiting? then cfg.maxAttempts - c.at.attempt
      else 0
  }

  /** The call is in the loop and has not started its first attempt. */
  function Starting(c: Claim): int {
    if c.Busy? && c.at.WritingStatus? && c.at.attempt == 0 then 1 else 0
  }

  // ----- the balance ---------------------------------------------------------------------------

  predicate Balanced(cfg: Config, s: System) {
    var n := s.g.n;
    && s.g.held == Sum(HoldsSlot, s.claims) && s.g.held <= cfg.workers
    && n.received == n.success + n.error + Sum(InFlight, s.claims)
    && n.marks == n.success
    && n.hits + n.completions == n.success + Sum(WillSucceed, s.claims)
    && n.dlqValidation + n.dlqRetry + n.cancelled == n.error + Sum(WillFail, s.claims)
    && (cfg.maxAttempts >= 1 ==> n.entered <= n.retryAttempts + Sum(Starting, s.claims))
    && (cfg.maxAttempts >= 1 ==> n.retryAttempts + Sum(Remaining(cfg), s.claims) <= n.entered * cfg.maxAttempts)
  }

  /** A claim in the retry loop has not run past the last attempt. */
  predicate InRange(cfg: Config, c: Claim) {
    c.Busy? && (c.at.WritingStatus? || c.at.WritingHistory? || c.at.Waiting?) ==> c.at.attempt < cfg.maxAttempts
  }

  /** The semaphore and the counters move by what the claim's contribution changes. */
  predicate Moves(cfg: Config, g: Shared, c: Claim, g': Shared, c': Claim) {
    var n, n' := g.n, g'.n;
    && g'.held - g.held == HoldsSlot(c') - HoldsSlot(c)
    && (g'.held > g.held ==> g'.held <= cfg.workers)
    && n'.received - n.received == n'.success - n.success + n'.error - n.error + InFlight(c') - InFlight(c)
    && n'.marks - n.marks == n'.success - n.success
    && n'.hits - n.hits + n'.completions - n.completions
       == n'.success - n.success + WillSucceed(c') - WillSucceed(c)
    && n'.dlqValidation - n.dlqValidation + n'.dlqRetry - n.dlqRetry + n'.cancelled - n.cancelled
       == n'.error - n.error + WillFail(c') - WillFail(c)
    && 0 <= n'.entered - n.entered <= 1
    && (cfg.maxAttempts >= 1 ==>
          n'.entered - n.entered <= n'.retryAttempts - n.retryAttempts + Starting(c') - Starting(c))
    && (cfg.maxAttempts >= 1 ==>
          n'.retryAttempts - n.retryAttempts + Remaining(cfg)(c') - Remaining(cfg)(c)
          <= (if n'.entered > n.entered then cfg.maxAttempts else 0))
  }

  lemma MovesStart(cfg: Config, g: Shared, c: Claim, r: Reply)
    requires Enabled(cfg, g, c, r) && InRange(cfg, c)
    requires c.Idle? || c.at.Acquiring? || c.at.Validating?
    ensures Moves(cfg, g, c, Step(cfg, g, c, r).0, Step(cfg, g, c, r).1)
  {
  }

  lemma MovesPass(cfg: Config, g: Shared, c: Claim, r: Reply)
    requires Enabled(cfg, g, c, r) && InRange(cfg, c)
    requires c.Busy? && (c.at.Checking? || c.at.Marking?)
    ensures Moves(cfg, g, c, Step(cfg, g, c, r).0, Step(cfg, g, c, r).1)
  {
  }

  lemma MovesStatus(cfg: Config, g: Shared, c: Claim, r: Reply)
    requires Enabled(cfg, g, c, r) && InRange(cfg, c)
    requires c.Busy? && c.at.WritingStatus?
    ensures Moves(cfg, g, c, Step(cfg, g, c, r).0, Step(cfg, g, c, r).1)
  {
  }

  lemma MovesHistory(cfg: Config, g: Shared, c: Claim, r: Reply)
    requires Enabled(cfg, g, c, r) && InRange(cfg, c)
    requires c.Busy? && c.at.WritingHistory?
    ensures Moves(cfg, g, c, Step(cfg, g, c, r).0, Step(cfg, g, c, r).1)
  {
  }

  lemma MovesLoop(cfg: Config, g: Shared, c: Claim, r: Reply)
    requires Enabled(cfg, g, c, r) && InRange(cfg, c)
    requires c.Busy? && (c.at.Waiting? || c.at.Publishing?)
    ensures Moves(cfg, g, c, Step(cfg, g, c, r).0, Step(cfg, g, c, r).1)
  {
  }

  lemma MovesDlq(cfg: Config, g: Shared, c: Claim, r: Reply)
    requires Enabled(cfg, g, c, r) && InRange(cfg, c)
    requires c.Busy? && (c.at.DlqSending? || c.at.DlqCounting?)
    ensures Moves(cfg, g, c, Step(cfg, g, c, r).0, Step(cfg, g, c, r).1)
  {
  }

  lemma MovesEnd(cfg: Config, g: Shared, c: Claim, r: Reply)
    requires Enabled(cfg, g, c, r) && InRange(cfg, c)
    requires c.Busy? && (c.at.Returning? || c.at.Settling?)
    ensures Moves(cfg, g, c, Step(cfg, g, c, r).0, Step(cfg, g, c, r).1)
  {
  }

  lemma StepMoves(cfg: Config, g: Shared, c: Claim, r: Reply)
    requires Enabled(cfg, g, c, r) && InRange(cfg, c)
    ensures Moves(cfg, g, c, Step(cfg, g, c, r).0, Step(cfg, g, c, r).1)
  {
    if c.Idle? || c.at.Acquiring? || c.at.Validating? {
      MovesStart(cfg, g, c, r);
    } else if c.at.Checking? || c.at.Marking? {
      MovesPass(cfg, g, c, r);
    } else if c.at.WritingStatus? {
      MovesStatus(cfg, g, c, r);
    } else if c.at.WritingHistory? {
      MovesHistory(cfg, g, c, r);
    } else if c.at.Waiting? || c.at.Publishing? {
      MovesLoop(cfg, g, c, r);
    } else if c.at.DlqSending? || c.at.DlqCounting? {
      MovesDlq(cfg, g, c, r);
    } else {
      MovesEnd(cfg, g, c, r);
    }
  }

  lemma BalanceMove(cfg: Config, s: System, p: nat, g': Shared, c': Claim)
    requires p < |s.claims| && Balanced(cfg, s) && Moves(cfg, s.g, s.claims[p], g', c')
    ensures Balanced(cfg, System(g', s.claims[p := c']))
  {
    SumUpdate(HoldsSlot, s.claims, p, c');
    SumUpdate(InFlight, s.claims, p, c');
    SumUpdate(WillSucceed, s.claims, p, c');
    SumUpdate(WillFail, s.claims, p, c');
    SumUpdate(Starting, s.claims, p, c');
    SumUpdate(Remaining(cfg), s.claims, p, c');
    assert (s.g.n.entered + 1) * cfg.maxAttempts == s.g.n.entered * cfg.maxAttempts + cfg.maxAttempts;
  }

  lemma BalanceStep(cfg: Config, s: System, ev: Event)
    requires Possible(cfg, s, ev) && Balanced(cfg, s)
    requires forall p :: 0 <= p < |s.claims| ==> InRange(cfg, s.claims[p])
    ensures Balanced(cfg, Happen(cfg, s, ev))
  {
    if ev.Move? {
      var (g', c') := Step(cfg, s.g, s.claims[ev.p], ev.reply);
      StepMoves(cfg, s.g, s.claims[ev.p], ev.reply);
      BalanceMove(cfg, s, ev.p, g', c');
    } else if ev.Crash? {
      AllIdleBalances(cfg, Happen(cfg, s, ev));
    }
  }

  lemma AllIdleBalances(cfg: Config, s: System)
    requires s.g.held == 0 && s.g.n == ZERO_COUNTERS
    requires forall p :: 0 <= p < |s.claims| ==> s.claims[p] == Idle
    ensures Balanced(cfg, s)
  {
    SumZero(HoldsSlot, s.claims);
    SumZero(InFlight, s.claims);
    SumZero(WillSucceed, s.claims);
    SumZero(WillFail, s.claims);
    SumZero(Starting, s.claims);
    SumZero(Remaining(cfg), s.claims);
  }

  lemma {:induction false} BalanceAlways(cfg: Config, s: System, run: seq<Event>)
    requires Init(s) && Exec(cfg, s, run).Some?
    ensures Balanced(cfg, Exec(cfg, s, run).value)
  {
    if run == [] {
      AllIdleBalances(cfg, s);
    } else {
      var init := run[..|run| - 1];
      var m := Exec(cfg, s, init).value;
      BalanceAlways(cfg, s, init);
      ControlAlways(cfg, s, init);
      forall p | 0 <= p < |m.claims|
        ensures InRange(cfg, m.claims[p])
      {
        assert ClaimFits(cfg, m.g, m.claims[p]);
      }
      BalanceStep(cfg, m, run[|run| - 1]);
    }
  }

  // ----- theorems ------------------------------------------------------------------------------

  /**
   In every reachable state the semaphore's occupancy is the number of calls between acquiring and
   returning, it never exceeds the worker count, and the deferred release never has to wait.
   */
  lemma SemaphoreIsExact(cfg: Config, s: System, run: seq<Event>, t: System)
    requires Reaches(cfg, s, run, t)
    ensures t.g.held == Sum(HoldsSlot, t.claims)
    ensures t.g.held <= cfg.workers
    ensures forall p :: 0 <= p < |t.claims| && t.claims[p].Busy? && t.claims[p].at.Returning? ==>
              Enabled(cfg, t.g, t.claims[p], Proceed)
  {
    BalanceAlways(cfg, s, run);
    ControlAlways(cfg, s, run);
    forall p | 0 <= p < |t.claims| && t.claims[p].Busy? && t.claims[p].at.Returning?
      ensures Enabled(cfg, t.g, t.claims[p], Proceed)
    {
      SumAtLeast(HoldsSlot, t.claims, p);
      assert ClaimFits(cfg, t.g, t.claims[p]);
    }
  }

  /** The counters balance whenever no call is in flight. */
  lemma CountersBalance(cfg: Config, s: System, run: seq<Event>, t: System)
    requires Reaches(cfg, s, run, t)
    requires forall p :: 0 <= p < |t.claims| ==> t.claims[p].Idle?
    ensures t.g.held == 0
    ensures var n := t.g.n;
            && n.received == n.success + n.error
            && n.marks == n.success == n.hits + n.completions
            && n.error == n.dlqValidation + n.dlqRetry + n.cancelled
            && (cfg.maxAttempts >= 1 ==> n.entered <= n.retryAttempts <= n.entered * cfg.maxAttempts)
  {
    BalanceAlways(cfg, s, run);
    SumZero(HoldsSlot, t.claims);
    SumZero(InFlight, t.claims);
    SumZero(WillSucceed, t.claims);
    SumZero(WillFail, t.claims);
    SumZero(Starting, t.claims);
    SumZero(Remaining(cfg), t.claims);
  }
}
