/** internal/retry: the attempt loop and its backoff, in nanoseconds of a 64-bit time.Duration. */
module Retry {
  import opened Wrappers
  import opened Sums

  const TWO63 := 0x8000_0000_0000_0000
  const MILLISECOND := 1_000_000

  /** The value a 64-bit signed result takes. */
  function Wrap64(x: int): int {
    (x + TWO63) % (2 * TWO63) - TWO63
  }

  function Pow3(k: nat): nat {
    if k == 0 then 1 else 3 * Pow3(k - 1)
  }

  /** The conversion of a float to an integer type. */
  function Truncate(x: real): int {
    if x >= 0.0 then x.Floor else -((-x).Floor)
  }

  /** The jitter before it is cut to whole nanoseconds; rnd is the random number in [0, 1). */
  function Swing(d: int, rnd: real): real {
    Scale(d as real * 0.25, rnd * 2.0 - 1.0)
  }

  function Scale(q: real, u: real): real {
    q * u
  }

  function AddJitter(d: int, rnd: real): int {
    if d == 0 then 0
    else
      var result := Wrap64(d + Truncate(Swing(d, rnd)));
      if result < 0 then 0 else result
  }

  /** The wait before attempt k, counted from 0. */
  function Backoff(base: int, k: nat): int
    requires k >= 1
  {
    Wrap64(base * Pow3(k - 1))
  }

  // ----- one wait ------------------------------------------------------------------------------

  lemma ScaleBounds(q: real, u: real)
    requires 0.0 <= q && -1.0 <= u <= 1.0
    ensures -q <= Scale(q, u) <= q
  {
    if u >= 0.0 {
      assert q * u <= q * 1.0;
    } else {
      assert q * -u <= q * 1.0;
    }
  }

  /** The jitter is at most a quarter of a non-negative delay. */
  lemma SwingBounds(d: int, rnd: real)
    requires 0 <= d && 0.0 <= rnd < 1.0
    ensures -d <= 4 * Truncate(Swing(d, rnd)) <= d
  {
    var q, x := d as real * 0.25, Swing(d, rnd);
    ScaleBounds(q, rnd * 2.0 - 1.0);
    TruncateBounds(x);
    QuarterBounds(d, Truncate(x));
  }

  lemma QuarterBounds(d: int, t: int)
    requires -(d as real * 0.25) <= t as real <= d as real * 0.25
    ensures -d <= 4 * t <= d
  {
    assert (4 * t) as real == 4.0 * t as real;
  }

  /** A non-negative delay is kept within a quarter either way, and the clamp at zero does nothing. */
  lemma JitterWithinAQuarter(d: int, rnd: real)
    requires 0 <= d && 5 * d < 4 * TWO63 && 0.0 <= rnd < 1.0
    ensures 3 * d <= 4 * AddJitter(d, rnd) <= 5 * d
    ensures AddJitter(d, rnd) == d + Truncate(Swing(d, rnd))
  {
    SwingBounds(d, rnd);
    if d == 0 {
      assert Swing(0, rnd) == 0.0;
    }
    NoWrap(d + Truncate(Swing(d, rnd)));
  }

  lemma ScaleLinear(d: real, rnd: real)
    ensures d + Scale(d * 0.25, rnd * 2.0 - 1.0) == d * (0.75 + 0.5 * rnd)
  {
  }

  /** The jittered delay is, to the nanosecond, the share of the delay that the random number picks between 3/4 and 5/4. */
  lemma JitterFollowsRandom(d: int, rnd: real)
    requires 0 <= d && 5 * d < 4 * TWO63 && 0.0 <= rnd < 1.0
    ensures -1.0 < AddJitter(d, rnd) as real - d as real * (0.75 + 0.5 * rnd) < 1.0
  {
    JitterWithinAQuarter(d, rnd);
    ScaleLinear(d as real, rnd);
    var x := Swing(d, rnd);
    assert -1.0 < Truncate(x) as real - x < 1.0;
    assert AddJitter(d, rnd) as real == d as real + Truncate(x) as real;
  }

  lemma NoWrap(x: int)
    requires -TWO63 <= x < TWO63
    ensures Wrap64(x) == x
  {
  }

  lemma TruncateBounds(x: real)
    ensures x >= 0.0 ==> 0.0 <= Truncate(x) as real <= x
    ensures x <= 0.0 ==> x <= Truncate(x) as real <= 0.0
  {
  }

  // ----- the loop ------------------------------------------------------------------------------

  datatype DoError<+E> = ContextDone | AllFailed(attempts: int, last: Option<E>)

  /**
   Do, for a function whose k-th call returns fn(k) and a context that is done during the wait
   before attempt k when cancelled(k). The loop calls fn until a call returns nil, until the
   context is done during a wait, or until the attempts are used up; with no attempts allowed it
   fails without a call.
   */
  method Do<E>(maxAttempts: int, base: int, fn: nat -> Option<E>, cancelled: nat -> bool, rnd: nat -> real)
      returns (result: Option<DoError<E>>, calls: nat, waits: seq<int>)
    ensures calls <= (if maxAttempts > 0 then maxAttempts else 0)
    ensures maxAttempts >= 1 ==> calls >= 1
    ensures forall k :: 0 <= k < calls - 1 ==> fn(k).Some?
    ensures forall k :: 1 <= k < calls ==> !cancelled(k)
    ensures result.None? <==> calls > 0 && fn(calls - 1).None?
    ensures result == Some(ContextDone) ==> 0 < calls < maxAttempts && cancelled(calls)
    ensures result.Some? && result.value.AllFailed? ==>
              && (maxAttempts <= 0 || calls == maxAttempts)
              && result.value.attempts == maxAttempts
              && result.value.last == if calls == 0 then None else fn(calls - 1)
    ensures |waits| == if calls == 0 then 0 else calls - 1
    ensures forall k :: 0 <= k < |waits| ==> waits[k] == AddJitter(Backoff(base, k + 1), rnd(k))
  {
    var lastErr: Option<E> := None;
    var attempt := 0;
    calls, waits := 0, [];
    while attempt < maxAttempts
      invariant 0 <= attempt && (attempt <= maxAttempts || (maxAttempts < 0 && attempt == 0))
      invariant calls == attempt
      invariant |waits| == if attempt == 0 then 0 else attempt - 1
      invariant forall k :: 0 <= k < attempt ==> fn(k).Some?
      invariant forall k :: 1 <= k < attempt ==> !cancelled(k)
      invariant forall k :: 0 <= k < |waits| ==> waits[k] == AddJitter(Backoff(base, k + 1), rnd(k))
      invariant lastErr == if attempt == 0 then None else fn(attempt - 1)
    {
      if attempt > 0 {
        var delay := AddJitter(Backoff(base, attempt), rnd(attempt - 1));
        if cancelled(attempt) {
          return Some(ContextDone), calls, waits;
        }
        waits := waits + [delay];
      }
      var err := fn(attempt);
      calls := calls + 1;
      if err.None? {
        return None, calls, waits;
      }
      lastErr := err;
      attempt := attempt + 1;
    }
    result := Some(AllFailed(maxAttempts, lastErr));
  }

  // ----- the total ------------------------------------------------------------------------------

  function Itself(x: int): int { x }

  /** The waits of a loop that made m + 1 calls. */
  predicate Schedule(base: int, waits: seq<int>, rnd: nat -> real) {
    forall k :: 0 <= k < |waits| ==> waits[k] == AddJitter(Backoff(base, k + 1), rnd(k))
  }

  /** No product of the schedule, jitter included, leaves the 64-bit range. */
  predicate Fits64(base: int, m: nat) {
    m == 0 || 5 * (base * Pow3(m - 1)) < 4 * TWO63
  }

  lemma {:induction false} FitsSmaller(base: int, m: nat)
    requires base >= 0 && m >= 1 && Fits64(base, m)
    ensures Fits64(base, m - 1)
  {
    if m >= 2 {
      assert base * Pow3(m - 1) == 3 * (base * Pow3(m - 2));
      assert base * Pow3(m - 2) >= 0;
    }
  }

  /**
   With a non-negative base and no overflow, m waits add up to base * (3^m - 1) / 2, a quarter of
   that more or less, for every sequence of random numbers.
   */
  lemma {:induction false} TotalWait(base: int, waits: seq<int>, rnd: nat -> real)
    requires base >= 0 && Schedule(base, waits, rnd) && Fits64(base, |waits|)
    requires forall k :: 0.0 <= rnd(k) < 1.0
    ensures 3 * (base * (Pow3(|waits|) - 1)) <= 8 * Sum(Itself, waits) <= 5 * (base * (Pow3(|waits|) - 1))
  {
    var m := |waits|;
    if m > 0 {
      FitsSmaller(base, m);
      TotalWait(base, waits[..m - 1], rnd);
      var d := base * Pow3(m - 1);
      NoWrap(d);
      JitterWithinAQuarter(d, rnd(m - 1));
      assert waits[m - 1] == AddJitter(d, rnd(m - 1));
      Triple(base, m);
    }
  }

  lemma Triple(base: int, m: nat)
    requires m >= 1
    ensures base * (Pow3(m) - 1) == base * (Pow3(m - 1) - 1) + 2 * (base * Pow3(m - 1))
  {
  }

  /** The nominal delay is the base before the second attempt, and three times the one before after that. */
  lemma BackoffTriples(base: int, k: nat)
    requires base >= 0 && k >= 1 && Fits64(base, k + 1)
    ensures Backoff(base, 1) == base
    ensures Backoff(base, k + 1) == 3 * Backoff(base, k)
  {
    assert Pow3(k) == 3 * Pow3(k - 1);
    assert base * Pow3(k) == 3 * (base * Pow3(k - 1));
    Pow3Monotone(0, k - 1);
    BaseFits(base, k);
    NoWrap(base * Pow3(k));
    NoWrap(base * Pow3(k - 1));
    assert base * Pow3(0) == base;
    NoWrap(base);
  }

  lemma BaseFits(base: int, k: nat)
    requires base >= 0 && k >= 1
    ensures 0 <= base <= base * Pow3(k - 1)
  {
    Pow3Monotone(0, k - 1);
    assert base * (Pow3(k - 1) - 1) >= 0;
  }

  /** The default base of 100 ms overflows with the wait before the 25th attempt and no earlier. */
  lemma HundredMillisecondsFit(n: nat)
    requires n >= 1
    ensures Fits64(100 * MILLISECOND, n - 1) <==> n <= 24
    ensures Backoff(100 * MILLISECOND, 24) < 0
  {
    Pow3Values();
    if n <= 24 {
      if n >= 2 { Pow3Monotone(n - 2, 22); }
    } else {
      Pow3Monotone(23, n - 2);
    }
  }

  lemma Pow3Values()
    ensures Pow3(22) == 31381059609 && Pow3(23) == 94143178827
  {
    assert Pow3(6) == 729;
    assert Pow3(12) == 531441;
    assert Pow3(17) == 129140163;
  }

  lemma {:induction false} Pow3Monotone(a: nat, b: nat)
    requires a <= b
    ensures Pow3(a) <= Pow3(b)
  {
    if a < b {
      Pow3Monotone(a, b - 1);
    }
  }
}
