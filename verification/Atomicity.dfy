/**
 The check (EXISTS) and the mark (SETNX) are two requests, and the handler goes on when the mark
 fails. What makes the pair act as one is that a payment id belongs to one partition and a
 partition's messages are handled one at a time.
 */
module Atomicity {
  import opened Models
  import opened Stores
  import opened Protocol
  import opened Safety
  import opened Provenance

  // ----- routing -------------------------------------------------------------------------------

  /** Whatever payment the message validates to, its id is at home on the message's partition. */
  ghost predicate MessageRouted(cfg: Config, home: string -> int, m: Message) {
    forall t: nat :: cfg.verdict(m.value, t).Success? ==> home(cfg.verdict(m.value, t).value.paymentId) == m.partition
  }

  predicate Delivers(ev: Event) {
    ev.Move? && ev.reply.Deliver?
  }

  ghost predicate Routed(cfg: Config, home: string -> int, run: seq<Event>) {
    forall i :: 0 <= i < |run| && Delivers(run[i]) ==> MessageRouted(cfg, home, run[i].reply.msg)
  }

  // ----- the invariant -------------------------------------------------------------------------

  ghost predicate CallRouted(cfg: Config, home: string -> int, call: Call) {
    MessageRouted(cfg, home, call.msg) && (call.event.Some? ==> home(call.event.value.paymentId) == call.msg.partition)
  }

  /** x is not earlier than y. */
  predicate Covers(x: Expiry, y: Expiry) {
    x.None? || (y.Some? && y.value <= x.value)
  }

  /** The key a call created is still there, or was replaced by one that lives longer. */
  predicate MarkStands(cfg: Config, g: Shared, call: Call) {
    call.markSet && call.event.Some? && call.passed.Some? ==>
      && call.event.value.paymentId in g.redis.marks
      && Covers(g.redis.marks[call.event.value.paymentId], ExpiryOf(cfg.markTtl, call.passed.value))
  }

  /** A mark request that ran left a key that lives beyond that moment, and no key was replaced by a shorter one. */
  predicate RanStands(g: Shared, call: Call) {
    call.markRan && call.event.Some? && call.passed.Some? ==>
      && call.passed.value <= g.now
      && call.event.value.paymentId in g.redis.marks
      && Beyond(g.redis.marks[call.event.value.paymentId], call.passed.value)
  }

  /** Live at time t. */
  predicate Beyond(x: Expiry, t: nat) {
    x.Some? ==> t < x.value
  }

  /** Marks set with no time to live never expire. */
  predicate Forever(cfg: Config, g: Shared) {
    cfg.markTtl == 0 ==> forall id :: id in g.redis.marks ==> g.redis.marks[id].None?
  }

  /** A claim between an answered check and its mark: the id has no live mark. */
  predicate GapIsQuiet(g: Shared, c: Claim) {
    c.Busy? && c.call < |g.calls| && c.at.Marking? && g.calls[c.call].checkAcked ==>
      !MarkLive(g.redis, g.now, c.at.event.paymentId)
  }

  predicate SameId(a: Call, b: Call) {
    a.event.Some? && b.event.Some? && a.event.value.paymentId == b.event.value.paymentId
  }

  /**
   The later call, its check answered, passed only after the earlier call's mark had run out; if the
   earlier call's request ran without creating the key, after the mark it found there had run out.
   */
  predicate Apart(cfg: Config, a: Call, b: Call) {
    a.passed.Some? && b.passed.Some? && SameId(a, b) && b.checkAcked ==>
      && (a.markSet ==> cfg.markTtl > 0 && a.passed.value + cfg.markTtl <= b.passed.value)
      && (a.markRan ==> cfg.markTtl > 0 && a.passed.value < b.passed.value)
  }

  predicate MarkAnswersCheck(call: Call) {
    call.passed.Some? && call.checkAcked && call.markRan ==> call.markSet
  }

  ghost predicate Exclusive(cfg: Config, home: string -> int, s: System) {
    && (forall k :: 0 <= k < |s.g.calls| ==>
          CallRouted(cfg, home, s.g.calls[k]) && MarkStands(cfg, s.g, s.g.calls[k]) && MarkAnswersCheck(s.g.calls[k]))
    && (forall p :: 0 <= p < |s.claims| ==> GapIsQuiet(s.g, s.claims[p]))
    && (forall i, j :: 0 <= i < j < |s.g.calls| ==> Apart(cfg, s.g.calls[i], s.g.calls[j]))
    && (forall k :: 0 <= k < |s.g.calls| ==> RanStands(s.g, s.g.calls[k]))
    && Forever(cfg, s.g)
  }

  // ----- preservation --------------------------------------------------------------------------

  lemma RecordsMove(cfg: Config, home: string -> int, g: Shared, c: Claim, g': Shared, c': Claim)
    requires c.Busy? && ClaimFits(cfg, g, c) && AllSound(cfg, g.calls) && GapIsQuiet(g, c)
    requires KeepsRecord(cfg, g, c, g', c') && Effects(cfg, g, c, g', c')
    requires forall k :: 0 <= k < |g.calls| ==>
               CallRouted(cfg, home, g.calls[k]) && MarkStands(cfg, g, g.calls[k]) && MarkAnswersCheck(g.calls[k])
    ensures forall k :: 0 <= k < |g'.calls| ==>
              CallRouted(cfg, home, g'.calls[k]) && MarkStands(cfg, g', g'.calls[k]) && MarkAnswersCheck(g'.calls[k])
  {
    assert CallRouted(cfg, home, g'.calls[c.call]) by {
      assert CallRouted(cfg, home, g.calls[c.call]);
    }
    forall k | 0 <= k < |g'.calls|
      ensures MarkStands(cfg, g', g'.calls[k])
    {
      assert MarkStands(cfg, g, g.calls[k]) && Sound(cfg, g.calls[k]);
    }
  }

  lemma RanMove(cfg: Config, g: Shared, c: Claim, g': Shared, c': Claim)
    requires c.Busy? && ClaimFits(cfg, g, c) && AllSound(cfg, g.calls)
    requires KeepsRecord(cfg, g, c, g', c') && Effects(cfg, g, c, g', c')
    requires Forever(cfg, g) && forall k :: 0 <= k < |g.calls| ==> RanStands(g, g.calls[k])
    ensures Forever(cfg, g') && forall k :: 0 <= k < |g'.calls| ==> RanStands(g', g'.calls[k])
  {
    forall k | 0 <= k < |g'.calls|
      ensures RanStands(g', g'.calls[k])
    {
      assert RanStands(g, g.calls[k]) && Sound(cfg, g.calls[k]);
    }
  }

  /** Another claim's gap stays quiet: the moving claim marks only ids of its own partition. */
  lemma GapStaysQuiet(cfg: Config, home: string -> int, g: Shared, c: Claim, g': Shared, c': Claim, d: Claim)
    requires c.Busy? && ClaimFits(cfg, g, c) && ClaimFits(cfg, g, d)
    requires KeepsRecord(cfg, g, c, g', c') && Effects(cfg, g, c, g', c')
    requires d.Busy? ==> d.msg.partition != c.msg.partition
    requires forall k :: 0 <= k < |g.calls| ==> CallRouted(cfg, home, g.calls[k])
    requires GapIsQuiet(g, d)
    ensures GapIsQuiet(g', d)
  {
    if d.Busy? && d.at.Marking? {
      assert d.call != c.call;
      assert CallRouted(cfg, home, g.calls[c.call]) && CallRouted(cfg, home, g.calls[d.call]);
    }
  }

  lemma PairsMove(cfg: Config, home: string -> int, g: Shared, c: Claim, g': Shared, c': Claim)
    requires c.Busy? && ClaimFits(cfg, g, c) && AllSound(cfg, g.calls) && GapIsQuiet(g, c) && Newest(g, c)
    requires KeepsRecord(cfg, g, c, g', c') && Effects(cfg, g, c, g', c')
    requires forall k :: 0 <= k < |g.calls| ==> CallRouted(cfg, home, g.calls[k]) && MarkStands(cfg, g, g.calls[k])
    requires Forever(cfg, g) && forall k :: 0 <= k < |g.calls| ==> RanStands(g, g.calls[k])
    requires forall i, j :: 0 <= i < j < |g.calls| ==> Apart(cfg, g.calls[i], g.calls[j])
    ensures forall i, j :: 0 <= i < j < |g'.calls| ==> Apart(cfg, g'.calls[i], g'.calls[j])
  {
    assert CallRouted(cfg, home, g.calls[c.call]);
    forall i, j | 0 <= i < j < |g'.calls|
      ensures Apart(cfg, g'.calls[i], g'.calls[j])
    {
      var a, b := g.calls[i], g.calls[j];
      assert Apart(cfg, a, b) && Sound(cfg, a) && Sound(cfg, b);
      assert MarkStands(cfg, g, a) && RanStands(g, a) && CallRouted(cfg, home, b);
      assert b.msg.partition == c.msg.partition ==> j <= c.call;
    }
  }

  lemma ExclusiveMove(cfg: Config, home: string -> int, s: System, p: nat, g': Shared, c': Claim)
    requires p < |s.claims| && Control(cfg, s) && Exclusive(cfg, home, s) && Moved(cfg, s.g, s.claims[p], g', c')
    ensures Exclusive(cfg, home, System(g', s.claims[p := c']))
  {
    var c := s.claims[p];
    RecordsMove(cfg, home, s.g, c, g', c');
    RanMove(cfg, s.g, c, g', c');
    PairsMove(cfg, home, s.g, c, g', c');
    forall q | 0 <= q < |s.claims| && q != p
      ensures GapIsQuiet(g', s.claims[q])
    {
      GapStaysQuiet(cfg, home, s.g, c, g', c', s.claims[q]);
    }
  }

  lemma ExclusiveStep(cfg: Config, home: string -> int, s: System, ev: Event)
    requires Possible(cfg, s, ev) && Control(cfg, s) && Exclusive(cfg, home, s)
    requires Delivers(ev) ==> MessageRouted(cfg, home, ev.reply.msg)
    ensures Exclusive(cfg, home, Happen(cfg, s, ev))
  {
    if ev.Move? && s.claims[ev.p].Busy? {
      var (g', c') := Step(cfg, s.g, s.claims[ev.p], ev.reply);
      ClaimStep(cfg, s.g, s.claims[ev.p], ev.reply);
      ExclusiveMove(cfg, home, s, ev.p, g', c');
    } else {
      ExclusiveIdle(cfg, home, s, ev);
    }
  }

  lemma ExclusiveIdle(cfg: Config, home: string -> int, s: System, ev: Event)
    requires Possible(cfg, s, ev) && Control(cfg, s) && Exclusive(cfg, home, s)
    requires ev.Move? ==> s.claims[ev.p].Idle? && MessageRouted(cfg, home, ev.reply.msg)
    ensures Exclusive(cfg, home, Happen(cfg, s, ev))
  {
    var s' := Happen(cfg, s, ev);
    forall k | 0 <= k < |s'.g.calls|
      ensures CallRouted(cfg, home, s'.g.calls[k]) && MarkStands(cfg, s'.g, s'.g.calls[k]) && RanStands(s'.g, s'.g.calls[k])
    {
      assert k < |s.g.calls| ==>
        CallRouted(cfg, home, s.g.calls[k]) && MarkStands(cfg, s.g, s.g.calls[k]) && RanStands(s.g, s.g.calls[k]);
    }
    forall q | 0 <= q < |s'.claims|
      ensures GapIsQuiet(s'.g, s'.claims[q])
    {
      assert GapIsQuiet(s.g, s.claims[q]) && ClaimFits(cfg, s.g, s.claims[q]);
    }
  }

  lemma {:induction false} ExclusiveAlways(cfg: Config, home: string -> int, s: System, run: seq<Event>)
    requires Init(s) && Exec(cfg, s, run).Some? && Routed(cfg, home, run)
    ensures Exclusive(cfg, home, Exec(cfg, s, run).value)
  {
    if run != [] {
      var init := run[..|run| - 1];
      ExclusiveAlways(cfg, home, s, init);
      ControlAlways(cfg, s, init);
      assert Delivers(run[|run| - 1]) ==> MessageRouted(cfg, home, run[|run| - 1].reply.msg);
      ExclusiveStep(cfg, home, Exec(cfg, s, init).value, run[|run| - 1]);
    }
  }

  // ----- the theorem ---------------------------------------------------------------------------

  /**
   Check-then-mark acts atomically. In every run, over all interleavings of partitions, crashes and
   failures elsewhere: take two calls that both went on to write for the same payment id. When Redis
   answered both existence checks and the first call's mark request ran, the marks are at least one
   time to live apart, and with no expiry (ttl 0) there are no two such calls.
   */
  lemma PassesAreApart(cfg: Config, home: string -> int, s: System, run: seq<Event>, t: System, i: nat, j: nat)
    requires Reaches(cfg, s, run, t) && Routed(cfg, home, run)
    requires i < j < |t.g.calls|
    requires var a, b := t.g.calls[i], t.g.calls[j];
             && a.passed.Some? && b.passed.Some? && SameId(a, b)
             && a.checkAcked && a.markRan && b.checkAcked
    ensures var a, b := t.g.calls[i], t.g.calls[j];
            a.markSet && cfg.markTtl > 0 && a.passed.value + cfg.markTtl <= b.passed.value
  {
    ExclusiveAlways(cfg, home, s, run);
    assert MarkAnswersCheck(t.g.calls[i]) && Apart(cfg, t.g.calls[i], t.g.calls[j]);
  }
}
