/** NewSyncProducerWithRetry of internal/kafka/provider.go. Times are in milliseconds. */
module Connect {
  import opened Wrappers

  const FIRST_BACKOFF := 500
  const MAX_BACKOFF := 8_000
  const MAX_ELAPSED := 30_000

  function Pow2(k: nat): nat {
    if k == 0 then 1 else 2 * Pow2(k - 1)
  }

  function Min(a: int, b: int): int {
    if a <= b then a else b
  }

  /** The wait after attempt k: doubled each time, up to the cap. */
  function WaitAfter(k: nat): (wait: nat)
    ensures wait <= MAX_BACKOFF
  {
    if k == 0 then FIRST_BACKOFF else Min(2 * WaitAfter(k - 1), MAX_BACKOFF)
  }

  function Waited(k: nat): int {
    if k == 0 then 0 else Waited(k - 1) + WaitAfter(k - 1)
  }

  function Total(waits: seq<nat>): int {
    if waits == [] then 0 else Total(waits[..|waits| - 1]) + waits[|waits| - 1]
  }

  predicate AddUpTo(waits: seq<nat>, most: nat) {
    Total(waits) <= most
  }

  lemma {:induction false} WaitIsCappedPower(k: nat)
    ensures WaitAfter(k) == Min(FIRST_BACKOFF * Pow2(k), MAX_BACKOFF)
  {
    if k > 0 {
      WaitIsCappedPower(k - 1);
    }
  }

  lemma {:induction false} WaitedGrows(a: nat, b: nat)
    requires a <= b
    ensures Waited(a) <= Waited(b)
  {
    if a < b {
      WaitIsCappedPower(b - 1);
      WaitedGrows(a, b - 1);
    }
  }

  /** Seven waits are the first that outlast the deadline. */
  lemma SevenWaits()
    ensures Waited(6) == 23_500 < MAX_ELAPSED < 31_500 == Waited(7)
  {
    assert WaitAfter(2) == 2_000;
    assert WaitAfter(4) == MAX_BACKOFF;
    assert WaitAfter(6) == MAX_BACKOFF;
    assert Waited(3) == 3_500;
    assert Waited(5) == 15_500;
  }

  /** The first n waits. */
  function Waits(n: nat): seq<nat> {
    if n == 0 then [] else Waits(n - 1) + [WaitAfter(n - 1)]
  }

  /** Wait k is 500 ms times two to the k, up to 8 s. */
  lemma {:induction false} WaitAt(n: nat, k: nat)
    requires k < n
    ensures |Waits(n)| == n && Waits(n)[k] == Min(FIRST_BACKOFF * Pow2(k), MAX_BACKOFF)
  {
    WaitsSize(n - 1);
    if k < n - 1 {
      WaitAt(n - 1, k);
    } else {
      WaitIsCappedPower(k);
    }
  }

  lemma {:induction false} WaitsSize(n: nat)
    ensures |Waits(n)| == n && Total(Waits(n)) == Waited(n)
  {
    if n > 0 {
      WaitsSize(n - 1);
      assert Waits(n)[..n - 1] == Waits(n - 1);
    }
  }

  /** Seven of them add up to 31.5 s. */
  lemma WaitsAddUp(n: nat)
    requires n <= 7
    ensures AddUpTo(Waits(n), 31_500)
  {
    SevenWaits();
    WaitsSize(n);
    WaitedGrows(n, 7);
  }

  // ----- the loop ------------------------------------------------------------------------------

  /**
   What happens in round k: the attempt succeeds or fails after a while; the context is found done
   after it, or ends during the wait; the timer fires late by so much.
   */
  datatype Round = Round(succeeds: bool, duration: nat, cancelledAfter: bool, cancelledDuring: bool, late: nat)

  /** How long after the start attempt k begins and returns, if it is made. */
  function BeginsAt(w: nat -> Round, k: nat): nat
    decreases k, 0
  {
    if k == 0 then 0 else ReturnsAt(w, k - 1) + WaitAfter(k - 1) + w(k - 1).late
  }

  function ReturnsAt(w: nat -> Round, k: nat): nat
    decreases k, 1
  {
    BeginsAt(w, k) + w(k).duration
  }

  /** Attempt k fails, and nothing stops the loop from making the next one. */
  predicate GoesOn(w: nat -> Round, k: nat) {
    !w(k).succeeds && !w(k).cancelledAfter && ReturnsAt(w, k) <= MAX_ELAPSED && !w(k).cancelledDuring
  }

  /** The attempts up to k took this long, and the timers before it were late by this much. */
  function Durations(w: nat -> Round, k: nat): nat {
    w(k).duration + if k == 0 then 0 else Durations(w, k - 1)
  }

  function Lateness(w: nat -> Round, k: nat): nat {
    if k == 0 then 0 else Lateness(w, k - 1) + w(k - 1).late
  }

  /** The time at which attempt k returns is made up of the attempts, the nominal waits and the lateness so far. */
  lemma {:induction false} TimeAddsUp(w: nat -> Round, k: nat)
    ensures ReturnsAt(w, k) == Durations(w, k) + Waited(k) + Lateness(w, k)
  {
    if k > 0 {
      TimeAddsUp(w, k - 1);
    }
  }

  /** No attempt returns before all the waits ahead of it are over. */
  lemma {:induction false} WaitsComeFirst(w: nat -> Round, k: nat)
    ensures ReturnsAt(w, k) >= Waited(k)
  {
    if k > 0 {
      WaitsComeFirst(w, k - 1);
    }
  }

  /** The eighth attempt is the last, whatever the durations are. */
  lemma EighthIsLast(w: nat -> Round, k: nat)
    requires GoesOn(w, k)
    ensures k < 7
  {
    SevenWaits();
    WaitsComeFirst(w, k);
    if k >= 7 {
      WaitedGrows(7, k);
    }
  }

  datatype Outcome = Connected | ContextDone | TimedOut

  /** The result after attempt k, the last one. */
  function Ends(w: nat -> Round, k: nat): Outcome {
    if w(k).succeeds then Connected
    else if w(k).cancelledAfter then ContextDone
    else if ReturnsAt(w, k) > MAX_ELAPSED then TimedOut
    else ContextDone
  }

  /**
   The loop stops at the first attempt that does not let it go on, which is at most the eighth, after
   at most 31.5 s of nominal waiting. It connects exactly when that attempt succeeded, and times out
   exactly when it failed, with the context alive, later than 30 s after the start.
   */
  method NewSyncProducerWithRetry(w: nat -> Round) returns (outcome: Outcome, attempts: nat, waits: seq<nat>)
    ensures 1 <= attempts <= 8
    ensures forall k :: 0 <= k < attempts - 1 ==>
              !w(k).succeeds && !w(k).cancelledAfter && !w(k).cancelledDuring && ReturnsAt(w, k) <= 30_000
    ensures var last, at := w(attempts - 1), ReturnsAt(w, attempts - 1);
            && (outcome.Connected? <==> last.succeeds)
            && (outcome.TimedOut? <==> !last.succeeds && !last.cancelledAfter && at > 30_000)
            && (outcome.ContextDone? <==>
                  !last.succeeds && (last.cancelledAfter || (at <= 30_000 && last.cancelledDuring)))
    ensures waits == Waits(attempts - 1) && AddUpTo(waits, 31_500)
  {
    var backoff, now := FIRST_BACKOFF, 0;
    attempts, waits := 0, [];
    while true
      invariant now == BeginsAt(w, attempts) && backoff == WaitAfter(attempts)
      invariant waits == Waits(attempts)
      invariant forall k :: 0 <= k < attempts ==> GoesOn(w, k)
      decreases 8 - attempts
    {
      var k := attempts;
      if k > 0 {
        EighthIsLast(w, k - 1);
      }
      var stopped;
      stopped, now := Attempt(w, k, now);
      attempts := attempts + 1;
      if stopped.Some? {
        WaitsAddUp(k);
        forall i | 0 <= i < k
          ensures !w(i).succeeds && !w(i).cancelledAfter && !w(i).cancelledDuring && ReturnsAt(w, i) <= 30_000
        {
          assert GoesOn(w, i);
        }
        return stopped.value, attempts, waits;
      }
      EighthIsLast(w, k);
      now := now + backoff + w(k).late;
      waits := waits + [backoff];
      backoff := NextBackoff(backoff);
    }
  }

  /** One turn of the loop, up to its wait. */
  method Attempt(w: nat -> Round, k: nat, began: nat) returns (stopped: Option<Outcome>, now: nat)
    requires began == BeginsAt(w, k)
    ensures now == ReturnsAt(w, k)
    ensures stopped == if GoesOn(w, k) then None else Some(Ends(w, k))
  {
    var deadline := MAX_ELAPSED;
    now := began + w(k).duration;
    if w(k).succeeds {
      return Some(Connected), now;
    }
    if w(k).cancelledAfter {
      return Some(ContextDone), now;
    }
    if now > deadline {
      return Some(TimedOut), now;
    }
    return if w(k).cancelledDuring then Some(ContextDone) else None, now;
  }

  /** Doubled, up to the cap. */
  method NextBackoff(was: int) returns (backoff: int)
    ensures backoff == Min(2 * was, MAX_BACKOFF)
  {
    backoff := was * 2;
    if backoff > MAX_BACKOFF {
      backoff := MAX_BACKOFF;
    }
  }
}
