/** How far Atomicity.PassesAreApart reaches: its conditions are exactly the ones that are needed. */
module Limits {
  import opened Wrappers
  import opened Models
  import opened Stores
  import opened Protocol
  import opened Atomicity
  import opened Runs

  /** Calls i and j of this run both went on to write for one payment, with these outcomes of check and mark. */
  ghost predicate Pair(cfg: Config, home: string -> int, s: System, run: seq<Event>, t: System, i: nat, j: nat,
                       checked: bool, marked: bool, checkedLater: bool) {
    && Reaches(cfg, s, run, t) && Routed(cfg, home, run)
    && i < j < |t.g.calls|
    && var a, b := t.g.calls[i], t.g.calls[j];
       && a.passed.Some? && b.passed.Some? && SameId(a, b)
       && a.checkAcked == checked && a.markRan == marked && b.checkAcked == checkedLater
  }

  predicate FarApart(cfg: Config, a: Call, b: Call)
    requires a.passed.Some? && b.passed.Some?
  {
    cfg.markTtl > 0 && a.passed.value + cfg.markTtl <= b.passed.value
  }

  ghost predicate AlwaysApart(cfg: Config, home: string -> int, s: System, checked: bool, marked: bool, checkedLater: bool) {
    forall run: seq<Event>, t: System, i: nat, j: nat ::
      Pair(cfg, home, s, run, t, i, j, checked, marked, checkedLater) ==> FarApart(cfg, t.g.calls[i], t.g.calls[j])
  }

  // ----- two passes ----------------------------------------------------------------------------

  /** Check and mark, crash, wait, redeliver, check and mark. */
  function TwiceEvents(p: nat, m: Message, checked: bool, marked: bool, d: nat, checkedLater: bool): seq<Event> {
    PassEvents(p, m, checked, marked) + [Crash, Pass(d)] + PassEvents(p, m, checkedLater, true)
  }

  /** The first call of the pair may have found a mark, and the second must not, if they were answered. */
  predicate ChecksMiss(cfg: Config, g: Shared, id: string, checked: bool, marked: bool, d: nat, checkedLater: bool) {
    var redis := if marked then SetNX(g.redis, g.now, id, cfg.markTtl) else g.redis;
    (checked ==> !MarkLive(g.redis, g.now, id)) && (checkedLater ==> !MarkLive(redis, g.now + d, id))
  }

  lemma CrashAndWait(cfg: Config, t: System, d: nat) returns (t': System)
    ensures Exec(cfg, t, [Crash, Pass(d)]) == Some(t')
    ensures |t'.claims| == |t.claims| && forall q :: 0 <= q < |t'.claims| ==> t'.claims[q].Idle?
    ensures t'.g.held == 0 && t'.g.now == t.g.now + d && t'.g.redis == t.g.redis && t'.g.calls == t.g.calls
  {
    var t1 := Happen(cfg, t, Crash);
    t' := Happen(cfg, t1, Pass(d));
    Two(cfg, t, Crash, t1, Pass(d), t');
  }

  lemma PassAndWait(cfg: Config, t: System, p: nat, m: Message, e: PaymentEvent, checked: bool, marked: bool, d: nat)
      returns (t': System)
    requires CanTake(cfg, t, p, m, e) && (checked ==> !MarkLive(t.g.redis, t.g.now, e.paymentId))
    ensures Exec(cfg, t, PassEvents(p, m, checked, marked) + [Crash, Pass(d)]) == Some(t')
    ensures |t'.claims| == |t.claims| && t'.claims[p].Idle? && t'.g.held == 0 && t'.g.now == t.g.now + d
    ensures t'.g.redis == if marked then SetNX(t.g.redis, t.g.now, e.paymentId, cfg.markTtl) else t.g.redis
    ensures var created := marked && !MarkLive(t.g.redis, t.g.now, e.paymentId);
            t'.g.calls == t.g.calls + [PassedCall(m, e, t.g.now, checked, marked, created)]
  {
    var t1 := PassOn(cfg, t, p, m, e, checked, marked);
    t' := CrashAndWait(cfg, t1, d);
    ExecAppend(cfg, t, PassEvents(p, m, checked, marked), [Crash, Pass(d)]);
  }

  /** Calls n and n + 1 passed d apart, with these outcomes. */
  predicate PairOf(t: System, n: nat, e: PaymentEvent, now: nat, d: nat, checked: bool, marked: bool, checkedLater: bool)
    requires |t.g.calls| == n + 2
  {
    var a, b := t.g.calls[n], t.g.calls[n + 1];
    && a.event == b.event == Some(e) && a.passed == Some(now) && b.passed == Some(now + d)
    && a.checkAcked == checked && a.markRan == marked && b.checkAcked == checkedLater
  }

  /**
   From every state with an idle claim: one message passes on to its writes twice, d apart, wherever
   the two checks, if they are answered, find no mark.
   */
  lemma PassTwice(cfg: Config, t: System, p: nat, m: Message, e: PaymentEvent,
                  checked: bool, marked: bool, d: nat, checkedLater: bool) returns (t': System)
    requires CanTake(cfg, t, p, m, e) && cfg.verdict(m.value, t.g.now + d) == Success(e)
    requires ChecksMiss(cfg, t.g, e.paymentId, checked, marked, d, checkedLater)
    ensures Exec(cfg, t, TwiceEvents(p, m, checked, marked, d, checkedLater)) == Some(t')
    ensures |t'.g.calls| == |t.g.calls| + 2
    ensures PairOf(t', |t.g.calls|, e, t.g.now, d, checked, marked, checkedLater)
  {
    var t1 := PassAndWait(cfg, t, p, m, e, checked, marked, d);
    t' := PassOn(cfg, t1, p, m, e, checkedLater, true);
    ExecAppend(cfg, t, PassEvents(p, m, checked, marked) + [Crash, Pass(d)], PassEvents(p, m, checkedLater, true));
  }

  lemma RoutedTwice(cfg: Config, home: string -> int, t: System, p: nat, m: Message, e: PaymentEvent,
                    checked: bool, marked: bool, d: nat, checkedLater: bool) returns (run: seq<Event>, t': System)
    requires CanTake(cfg, t, p, m, e) && cfg.verdict(m.value, t.g.now + d) == Success(e) && MessageRouted(cfg, home, m)
    requires ChecksMiss(cfg, t.g, e.paymentId, checked, marked, d, checkedLater)
    ensures Exec(cfg, t, run) == Some(t') && Routed(cfg, home, run)
    ensures |t'.g.calls| == |t.g.calls| + 2
    ensures PairOf(t', |t.g.calls|, e, t.g.now, d, checked, marked, checkedLater)
  {
    run := TwiceEvents(p, m, checked, marked, d, checkedLater);
    t' := PassTwice(cfg, t, p, m, e, checked, marked, d, checkedLater);
  }

  // ----- the exact condition -------------------------------------------------------------------

  /** The message validates to this event from now on. */
  ghost predicate Steady(cfg: Config, from: nat, m: Message, e: PaymentEvent) {
    forall t: nat :: from <= t ==> cfg.verdict(m.value, t) == Success(e)
  }

  /** With a lost first mark or an unanswered second check, two passes happen at the same instant. */
  lemma SameInstant(cfg: Config, home: string -> int, s: System, p: nat, m: Message, e: PaymentEvent,
                    checked: bool, marked: bool, checkedLater: bool)
    requires Init(s) && CanTake(cfg, s, p, m, e) && MessageRouted(cfg, home, m)
    requires !marked || !checkedLater
    ensures !AlwaysApart(cfg, home, s, checked, marked, checkedLater)
  {
    var run, t := RoutedTwice(cfg, home, s, p, m, e, checked, marked, 0, checkedLater);
    assert Pair(cfg, home, s, run, t, 0, 1, checked, marked, checkedLater);
    assert !FarApart(cfg, t.g.calls[0], t.g.calls[1]);
  }

  /** A mark was set, its process crashed, and one moment of its time to live is left. */
  function AgedEvents(cfg: Config, p: nat, m: Message): seq<Event>
    requires cfg.markTtl >= 2
  {
    PassEvents(p, m, true, true) + [Crash, Pass(cfg.markTtl - 1)]
  }

  lemma AgedRouted(cfg: Config, home: string -> int, p: nat, m: Message)
    requires MessageRouted(cfg, home, m) && cfg.markTtl >= 2
    ensures Routed(cfg, home, AgedEvents(cfg, p, m))
  {
  }

  lemma AgedMark(cfg: Config, home: string -> int, s: System, p: nat, m: Message, e: PaymentEvent)
      returns (run: seq<Event>, t: System)
    requires Init(s) && CanTake(cfg, s, p, m, e) && MessageRouted(cfg, home, m)
    requires Steady(cfg, s.g.now, m, e) && cfg.markTtl >= 2
    ensures Reaches(cfg, s, run, t) && Routed(cfg, home, run)
    ensures CanTake(cfg, t, p, m, e) && Steady(cfg, t.g.now, m, e) && |t.g.calls| == 1
    ensures e.paymentId in t.g.redis.marks && t.g.redis.marks[e.paymentId] == Some(t.g.now + 1)
  {
    run := AgedEvents(cfg, p, m);
    t := PassAndWait(cfg, s, p, m, e, true, true, cfg.markTtl - 1);
    AgedRouted(cfg, home, p, m);
  }

  lemma InTwoParts(cfg: Config, home: string -> int, s: System, run: seq<Event>, t1: System, more: seq<Event>, t: System)
    requires Reaches(cfg, s, run, t1) && Exec(cfg, t1, more) == Some(t)
    requires Routed(cfg, home, run) && Routed(cfg, home, more)
    ensures Reaches(cfg, s, run + more, t) && Routed(cfg, home, run + more)
  {
    ExecAppend(cfg, s, run, more);
  }

  /** With an unanswered first check the mark may belong to an older call and run out one moment later. */
  lemma OlderMarkRunsOut(cfg: Config, home: string -> int, s: System, p: nat, m: Message, e: PaymentEvent)
    requires Init(s) && CanTake(cfg, s, p, m, e) && MessageRouted(cfg, home, m)
    requires Steady(cfg, s.g.now, m, e) && cfg.markTtl >= 2
    ensures !AlwaysApart(cfg, home, s, false, true, true)
  {
    var run, t1 := AgedMark(cfg, home, s, p, m, e);
    var more, t := RoutedTwice(cfg, home, t1, p, m, e, false, true, 1, true);
    InTwoParts(cfg, home, s, run, t1, more, t);
    assert Pair(cfg, home, s, run + more, t, 1, 2, false, true, true);
    assert !FarApart(cfg, t.g.calls[1], t.g.calls[2]);
  }

  /**
   Exactly when two passes for one payment are a time to live apart. For each outcome of the first
   check, the first mark request and the second check: in all runs, over all interleavings of
   partitions, failures and crashes, passes with these outcomes are apart if and only if the mark
   request ran, the second check was answered, and the first was answered too - the last unless the
   time to live is shorter than two units of the clock.
   */
  lemma ConditionIsExact(cfg: Config, home: string -> int, s: System, p: nat, m: Message, e: PaymentEvent,
                         checked: bool, marked: bool, checkedLater: bool)
    requires Init(s) && CanTake(cfg, s, p, m, e) && MessageRouted(cfg, home, m) && Steady(cfg, s.g.now, m, e)
    ensures AlwaysApart(cfg, home, s, checked, marked, checkedLater)
            <==> marked && checkedLater && (checked || cfg.markTtl <= 1)
  {
    if !marked || !checkedLater {
      SameInstant(cfg, home, s, p, m, e, checked, marked, checkedLater);
    } else if !checked && cfg.markTtl >= 2 {
      OlderMarkRunsOut(cfg, home, s, p, m, e);
    } else {
      forall run: seq<Event>, t: System, i: nat, j: nat | Pair(cfg, home, s, run, t, i, j, checked, marked, checkedLater)
        ensures FarApart(cfg, t.g.calls[i], t.g.calls[j])
      {
        PairsAreApart(cfg, home, s, run, t, i, j, checked);
      }
    }
  }

  lemma PairsAreApart(cfg: Config, home: string -> int, s: System, run: seq<Event>, t: System, i: nat, j: nat, checked: bool)
    requires Pair(cfg, home, s, run, t, i, j, checked, true, true) && (checked || cfg.markTtl <= 1)
    ensures FarApart(cfg, t.g.calls[i], t.g.calls[j])
  {
    if checked {
      PassesAreApart(cfg, home, s, run, t, i, j);
    } else {
      ExclusiveAlways(cfg, home, s, run);
      assert Apart(cfg, t.g.calls[i], t.g.calls[j]);
    }
  }
}
