/** What each counter counts: the calls, since the process last started, that did what it is named for. */
module Tallies {
  import opened Wrappers
  import opened Sums
  import opened Stores
  import opened Protocol
  import opened Safety

  function One(b: bool): int {
    if b then 1 else 0
  }

  function Received(call: Call): int { 1 }
  function Succeeds(call: Call): int { One(call.offsetMarked) }
  function Fails(call: Call): int { One(call.finished && call.result.Some?) }
  function Hits(call: Call): int { One(call.hit.Some?) }
  function DeadOnArrival(call: Call): int { One(call.dlqAttempts == 1 && call.event.None?) }
  function DeadAfterRetry(call: Call): int { One(call.dlqAttempts == 1 && call.event.Some?) }
  function Attempts(call: Call): int { call.attempts }
  function CountedInRedis(call: Call): int { One(call.counted) }

  /** The source's counters, over these calls. */
  predicate Tally(n: Counters, calls: seq<Call>) {
    && n.received == Sum(Received, calls)
    && n.success == Sum(Succeeds, calls)
    && n.error == Sum(Fails, calls)
    && n.hits == Sum(Hits, calls)
    && n.dlqValidation == Sum(DeadOnArrival, calls)
    && n.dlqRetry == Sum(DeadAfterRetry, calls)
    && n.retryAttempts == Sum(Attempts, calls)
  }

  // ----- one step ------------------------------------------------------------------------------

  /** The counters move by what the call's record changes. */
  predicate Counts(g: Shared, c: Claim, g': Shared)
    requires c.Busy? && c.call < |g.calls| == |g'.calls|
  {
    var n, n', a, b := g.n, g'.n, g.calls[c.call], g'.calls[c.call];
    && n'.received == n.received
    && n'.success - n.success == Succeeds(b) - Succeeds(a)
    && n'.error - n.error == Fails(b) - Fails(a)
    && n'.hits - n.hits == Hits(b) - Hits(a)
    && n'.dlqValidation - n.dlqValidation == DeadOnArrival(b) - DeadOnArrival(a)
    && n'.dlqRetry - n.dlqRetry == DeadAfterRetry(b) - DeadAfterRetry(a)
    && n'.retryAttempts - n.retryAttempts == Attempts(b) - Attempts(a)
    && g'.redis.dlqCount - g.redis.dlqCount == CountedInRedis(b) - CountedInRedis(a)
  }

  lemma CountsStart(cfg: Config, g: Shared, c: Claim, r: Reply)
    requires Ready(cfg, g, c, r) && (c.at.Acquiring? || c.at.Validating? || c.at.Checking? || c.at.Marking?)
    ensures |Step(cfg, g, c, r).0.calls| == |g.calls| && Counts(g, c, Step(cfg, g, c, r).0)
  {
    match c.at
    case Acquiring =>
    case Validating =>
    case Checking(_) =>
    case Marking(_) =>
  }

  lemma CountsWrite(cfg: Config, g: Shared, c: Claim, r: Reply)
    requires Ready(cfg, g, c, r) && (c.at.WritingStatus? || c.at.WritingHistory? || c.at.Waiting? || c.at.Publishing?)
    ensures |Step(cfg, g, c, r).0.calls| == |g.calls| && Counts(g, c, Step(cfg, g, c, r).0)
  {
    match c.at
    case WritingStatus(_, _) =>
    case WritingHistory(_, _) =>
    case Waiting(_, _) =>
    case Publishing(_) =>
  }

  lemma CountsEnd(cfg: Config, g: Shared, c: Claim, r: Reply)
    requires Ready(cfg, g, c, r) && (c.at.DlqSending? || c.at.DlqCounting? || c.at.Returning? || c.at.Settling?)
    ensures |Step(cfg, g, c, r).0.calls| == |g.calls| && Counts(g, c, Step(cfg, g, c, r).0)
  {
    match c.at
    case DlqSending(_) =>
    case DlqCounting(_) =>
    case Returning(_) =>
    case Settling(_) =>
  }

  lemma CountsStep(cfg: Config, g: Shared, c: Claim, r: Reply)
    requires Ready(cfg, g, c, r)
    ensures |Step(cfg, g, c, r).0.calls| == |g.calls| && Counts(g, c, Step(cfg, g, c, r).0)
  {
    if c.at.Acquiring? || c.at.Validating? || c.at.Checking? || c.at.Marking? {
      CountsStart(cfg, g, c, r);
    } else if c.at.DlqSending? || c.at.DlqCounting? || c.at.Returning? || c.at.Settling? {
      CountsEnd(cfg, g, c, r);
    } else {
      CountsWrite(cfg, g, c, r);
    }
  }

  // ----- all calls -----------------------------------------------------------------------------

  /** Since the process started with call base: its claims work on later calls, and the counters count those. */
  predicate Tallied(s: System, base: nat) {
    && base <= |s.g.calls| && Tally(s.g.n, s.g.calls[base..])
    && forall p :: 0 <= p < |s.claims| && s.claims[p].Busy? ==> base <= s.claims[p].call
  }

  lemma TallyUpdate(n: Counters, n': Counters, calls: seq<Call>, i: nat, b: Call)
    requires i < |calls| && Tally(n, calls) && n'.received == n.received
    requires var a := calls[i];
             && n'.success - n.success == Succeeds(b) - Succeeds(a) && n'.error - n.error == Fails(b) - Fails(a)
             && n'.hits - n.hits == Hits(b) - Hits(a)
             && n'.dlqValidation - n.dlqValidation == DeadOnArrival(b) - DeadOnArrival(a)
             && n'.dlqRetry - n.dlqRetry == DeadAfterRetry(b) - DeadAfterRetry(a)
             && n'.retryAttempts - n.retryAttempts == Attempts(b) - Attempts(a)
    ensures Tally(n', calls[i := b])
  {
    SumUpdate(Received, calls, i, b);
    SumUpdate(Succeeds, calls, i, b);
    SumUpdate(Fails, calls, i, b);
    SumUpdate(Hits, calls, i, b);
    SumUpdate(DeadOnArrival, calls, i, b);
    SumUpdate(DeadAfterRetry, calls, i, b);
    SumUpdate(Attempts, calls, i, b);
  }

  lemma TallyDeliver(n: Counters, calls: seq<Call>, b: Call)
    requires Tally(n, calls) && b == Blank(b.msg, b.trace)
    ensures Tally(n.(received := n.received + 1), calls + [b])
    ensures Sum(CountedInRedis, calls + [b]) == Sum(CountedInRedis, calls)
  {
    assert (calls + [b])[..|calls|] == calls;
  }

  lemma TalliedMove(cfg: Config, s: System, base: nat, p: nat, g': Shared, c': Claim)
    requires p < |s.claims| && s.claims[p].Busy? && Control(cfg, s) && Tallied(s, base)
    requires KeepsRecord(cfg, s.g, s.claims[p], g', c') && Counts(s.g, s.claims[p], g')
    ensures Tallied(System(g', s.claims[p := c']), base)
    ensures g'.redis.dlqCount - s.g.redis.dlqCount == Sum(CountedInRedis, g'.calls) - Sum(CountedInRedis, s.g.calls)
  {
    var k := s.claims[p].call;
    var b := g'.calls[k];
    assert g'.calls[base..] == s.g.calls[base..][k - base := b];
    TallyUpdate(s.g.n, g'.n, s.g.calls[base..], k - base, b);
    SumUpdate(CountedInRedis, s.g.calls, k, b);
  }

  lemma TalliedDeliver(cfg: Config, s: System, base: nat, p: nat, r: Reply)
    requires Possible(cfg, s, Move(p, r)) && s.claims[p].Idle? && Tallied(s, base)
    ensures Tallied(Happen(cfg, s, Move(p, r)), base)
    ensures Happen(cfg, s, Move(p, r)).g.redis == s.g.redis
    ensures Sum(CountedInRedis, Happen(cfg, s, Move(p, r)).g.calls) == Sum(CountedInRedis, s.g.calls)
  {
    var b := Blank(r.msg, r.trace);
    assert (s.g.calls + [b])[base..] == s.g.calls[base..] + [b];
    TallyDeliver(s.g.n, s.g.calls[base..], b);
    assert (s.g.calls + [b])[..|s.g.calls|] == s.g.calls;
  }

  /**
   In every run there is a first call of the running process - the number of calls at the last crash,
   or 0 - such that every counter is the number of calls since then that were received, marked,
   failed, skipped, dead-lettered after validation or after the retries, and the attempts those calls
   made. And dlq:count has grown, over all crashes, by the number of calls whose increment ran.
   */
  lemma {:induction false} CountersCountCalls(cfg: Config, s: System, run: seq<Event>, t: System) returns (base: nat)
    requires Reaches(cfg, s, run, t)
    ensures Tallied(t, base)
    ensures (forall i :: 0 <= i < |run| ==> !run[i].Crash?) ==> base == 0
    ensures t.g.redis.dlqCount == s.g.redis.dlqCount + Sum(CountedInRedis, t.g.calls)
  {
    if run == [] {
      base := 0;
    } else {
      var init, ev := run[..|run| - 1], run[|run| - 1];
      var m := Exec(cfg, s, init).value;
      base := CountersCountCalls(cfg, s, init, m);
      ControlAlways(cfg, s, init);
      match ev {
        case Pass(_) =>
        case Crash => base := |m.g.calls|;
        case Move(p, r) =>
          if m.claims[p].Busy? {
            var (g', c') := Step(cfg, m.g, m.claims[p], r);
            ClaimStep(cfg, m.g, m.claims[p], r);
            CountsStep(cfg, m.g, m.claims[p], r);
            TalliedMove(cfg, m, base, p, g', c');
          } else {
            TalliedDeliver(cfg, m, base, p, r);
          }
      }
    }
  }
}
