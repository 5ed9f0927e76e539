/**
 What the records of calls say, seen from outside: every marked position was marked by a call, and the
 dead letters and the calls that got one through are the same.
 */
module Outcomes {
  import opened Wrappers
  import opened Models
  import opened Protocol
  import opened Safety

  // ----- positions -----------------------------------------------------------------------------

  /** Call k marked its offset, and one past it is o. */
  predicate MarkedTo(calls: seq<Call>, k: nat, p: int, o: int) {
    k < |calls| && calls[k].offsetMarked && calls[k].msg.partition == p && calls[k].msg.offset + 1 == o
  }

  predicate Passed(g: Shared, call: Call) {
    call.offsetMarked ==>
      call.msg.partition in g.positions && call.msg.offset < g.positions[call.msg.partition]
  }

  ghost predicate PositionsExplained(pos0: map<int, int>, g: Shared) {
    && (forall p :: p in pos0 ==> p in g.positions && pos0[p] <= g.positions[p])
    && (forall p :: p in g.positions ==>
          (p in pos0 && g.positions[p] == pos0[p]) || exists k :: MarkedTo(g.calls, k, p, g.positions[p]))
    && (forall k :: 0 <= k < |g.calls| ==> Passed(g, g.calls[k]))
  }

  /** Only settling a call with nil moves a position, and it marks the call's offset. */
  predicate PositionsChange(g: Shared, c: Claim, g': Shared)
    requires c.Busy? && c.call < |g.calls| == |g'.calls|
  {
    if c.at == Settling(None) then
      g'.calls[c.call].offsetMarked && g'.positions == Advance(g.positions, c.msg.partition, c.msg.offset)
    else
      g'.positions == g.positions && !g'.calls[c.call].offsetMarked
  }

  lemma PositionStep(cfg: Config, g: Shared, c: Claim, r: Reply)
    requires Ready(cfg, g, c, r)
    ensures |Step(cfg, g, c, r).0.calls| == |g.calls| && PositionsChange(g, c, Step(cfg, g, c, r).0)
  {
    match c.at
    case Settling(_) =>
    case Acquiring =>
    case Validating =>
    case DlqSending(_) =>
    case DlqCounting(_) =>
    case Checking(_) =>
    case Marking(_) =>
    case WritingStatus(_, _) =>
    case WritingHistory(_, _) =>
    case Waiting(_, _) =>
    case Publishing(_) =>
    case Returning(_) =>
  }

  lemma PositionsMove(cfg: Config, pos0: map<int, int>, g: Shared, c: Claim, g': Shared, c': Claim)
    requires c.Busy? && ClaimFits(cfg, g, c) && Sound(cfg, g.calls[c.call]) && KeepsRecord(cfg, g, c, g', c')
    requires PositionsChange(g, c, g') && PositionsExplained(pos0, g)
    ensures PositionsExplained(pos0, g')
  {
    forall p | p in g'.positions
      ensures (p in pos0 && g'.positions[p] == pos0[p]) || exists k :: MarkedTo(g'.calls, k, p, g'.positions[p])
    {
      if p in g.positions && g'.positions[p] == g.positions[p] {
        if k :| MarkedTo(g.calls, k, p, g.positions[p]) {
          assert MarkedTo(g'.calls, k, p, g'.positions[p]);
        }
      } else {
        assert MarkedTo(g'.calls, c.call, p, g'.positions[p]);
      }
    }
    forall k | 0 <= k < |g'.calls|
      ensures Passed(g', g'.calls[k])
    {
      assert Passed(g, g.calls[k]);
    }
  }

  lemma PositionsRest(cfg: Config, pos0: map<int, int>, s: System, ev: Event)
    requires Possible(cfg, s, ev) && PositionsExplained(pos0, s.g)
    requires ev.Move? ==> s.claims[ev.p].Idle?
    ensures PositionsExplained(pos0, Happen(cfg, s, ev).g)
  {
    var g' := Happen(cfg, s, ev).g;
    forall p | p in g'.positions
      ensures (p in pos0 && g'.positions[p] == pos0[p]) || exists k :: MarkedTo(g'.calls, k, p, g'.positions[p])
    {
      if k :| MarkedTo(s.g.calls, k, p, s.g.positions[p]) {
        assert MarkedTo(g'.calls, k, p, g'.positions[p]);
      }
    }
    forall k | 0 <= k < |g'.calls|
      ensures Passed(g', g'.calls[k])
    {
      assert k < |s.g.calls| ==> Passed(s.g, s.g.calls[k]);
    }
  }

  /**
   In every run a partition's position is where it was at the start, or one past the offset of a call
   that marked it; it never goes back, and it is past the offset of every call that marked one.
   */
  lemma {:induction false} PositionsAreMarked(cfg: Config, s: System, run: seq<Event>, t: System)
    requires Reaches(cfg, s, run, t)
    ensures PositionsExplained(s.g.positions, t.g)
  {
    if run != [] {
      var init, ev := run[..|run| - 1], run[|run| - 1];
      var m := Exec(cfg, s, init).value;
      PositionsAreMarked(cfg, s, init, m);
      ControlAlways(cfg, s, init);
      if ev.Move? && m.claims[ev.p].Busy? {
        var c := m.claims[ev.p];
        var (g', c') := Step(cfg, m.g, c, ev.reply);
        ClaimStep(cfg, m.g, c, ev.reply);
        PositionStep(cfg, m.g, c, ev.reply);
        PositionsMove(cfg, s.g.positions, m.g, c, g', c');
      } else {
        PositionsRest(cfg, s.g.positions, m, ev);
      }
    }
  }

  // ----- dead letters --------------------------------------------------------------------------

  /** The error a call is going to return, once its dead letter is behind it. */
  function Sentence(at: PC): Option<Failure> {
    match at
    case DlqCounting(f) => Some(f)
    case Returning(result) => result
    case Settling(result) => result
    case _ => None
  }

  /** Call k made the attempt that sent this letter, and its result is the letter's error. */
  predicate SentBy(s: System, k: nat, letter: Letter) {
    && k < |s.g.calls| && s.g.calls[k].letterSent && s.g.calls[k].dlqAttempts == 1 && s.g.calls[k].msg == letter.msg
    && (s.g.calls[k].finished ==> s.g.calls[k].result == Some(letter.failure))
    && (forall q :: 0 <= q < |s.claims| && s.claims[q].Busy? && s.claims[q].call == k ==>
          Sentence(s.claims[q].at) == Some(letter.failure))
  }

  /** A call's dead-letter attempt adds one letter or none; from then on its error is fixed. */
  predicate LettersChange(g: Shared, c: Claim, g': Shared, c': Claim)
    requires c.Busy? && c.call < |g.calls| == |g'.calls|
  {
    var call, call' := g.calls[c.call], g'.calls[c.call];
    && (if c.at.DlqSending? then
          && call.dlqAttempts == 0 && call'.dlqAttempts == 1
          && g'.dlq == g.dlq + (if call'.letterSent then [Letter(c.msg, c.at.failure)] else [])
          && c'.Busy? && Sentence(c'.at) == Some(c.at.failure)
        else g'.dlq == g.dlq && call'.dlqAttempts == call.dlqAttempts && call'.letterSent == call.letterSent)
    && (Sentence(c.at).Some? ==>
          if c'.Busy? then Sentence(c'.at) == Sentence(c.at) else call'.result == Sentence(c.at))
  }

  lemma LetterStep(cfg: Config, g: Shared, c: Claim, r: Reply)
    requires Ready(cfg, g, c, r)
    ensures var (g', c') := Step(cfg, g, c, r); |g'.calls| == |g.calls| && LettersChange(g, c, g', c')
  {
    if c.at.DlqSending? || c.at.DlqCounting? || c.at.Returning? || c.at.Settling? {
      LetterEnd(cfg, g, c, r);
    } else {
      LetterBefore(cfg, g, c, r);
    }
  }

  lemma LetterEnd(cfg: Config, g: Shared, c: Claim, r: Reply)
    requires Ready(cfg, g, c, r) && (c.at.DlqSending? || c.at.DlqCounting? || c.at.Returning? || c.at.Settling?)
    ensures var (g', c') := Step(cfg, g, c, r); |g'.calls| == |g.calls| && LettersChange(g, c, g', c')
  {
    match c.at
    case DlqSending(_) =>
    case DlqCounting(_) =>
    case Returning(_) =>
    case Settling(_) =>
  }

  lemma LetterBefore(cfg: Config, g: Shared, c: Claim, r: Reply)
    requires Ready(cfg, g, c, r) && !c.at.DlqSending? && !c.at.DlqCounting? && !c.at.Returning? && !c.at.Settling?
    ensures var (g', c') := Step(cfg, g, c, r); |g'.calls| == |g.calls| && LettersChange(g, c, g', c')
  {
    match c.at
    case Acquiring =>
    case Validating =>
    case Checking(_) =>
    case Marking(_) =>
    case WritingStatus(_, _) =>
    case WritingHistory(_, _) =>
    case Waiting(_, _) =>
    case Publishing(_) =>
  }

  predicate Distinct(ks: seq<nat>) {
    forall i, j :: 0 <= i < j < |ks| ==> ks[i] != ks[j]
  }

  /** senders[i] sent the i-th letter since the start, and they are all the calls whose letter arrived. */
  predicate Senders(old_: seq<Letter>, s: System, senders: seq<nat>) {
    && old_ <= s.g.dlq && |senders| == |s.g.dlq| - |old_| && Distinct(senders)
    && (forall i :: 0 <= i < |senders| ==> SentBy(s, senders[i], s.g.dlq[|old_| + i]))
    && (forall k: nat :: k < |s.g.calls| && s.g.calls[k].letterSent ==> k in senders)
  }

  lemma SenderStays(cfg: Config, s: System, p: nat, r: Reply, k: nat, letter: Letter)
    requires Possible(cfg, s, Move(p, r)) && Control(cfg, s) && s.claims[p].Busy?
    requires SentBy(s, k, letter)
    ensures SentBy(Happen(cfg, s, Move(p, r)), k, letter)
  {
    var c := s.claims[p];
    ClaimStep(cfg, s.g, c, r);
    LetterStep(cfg, s.g, c, r);
  }

  /** All senders stay, and one that is about to send its letter is not among them. */
  lemma SendersStay(cfg: Config, old_: seq<Letter>, s: System, p: nat, r: Reply, senders: seq<nat>)
    requires Possible(cfg, s, Move(p, r)) && Control(cfg, s) && s.claims[p].Busy? && Senders(old_, s, senders)
    ensures forall i :: 0 <= i < |senders| ==> SentBy(Happen(cfg, s, Move(p, r)), senders[i], s.g.dlq[|old_| + i])
    ensures s.claims[p].at.DlqSending? ==> s.claims[p].call !in senders
  {
    forall i | 0 <= i < |senders|
      ensures SentBy(Happen(cfg, s, Move(p, r)), senders[i], s.g.dlq[|old_| + i])
      ensures s.claims[p].at.DlqSending? ==> senders[i] != s.claims[p].call
    {
      assert SentBy(s, senders[i], s.g.dlq[|old_| + i]);
      SenderStays(cfg, s, p, r, senders[i], s.g.dlq[|old_| + i]);
      assert ClaimFits(cfg, s.g, s.claims[p]);
    }
  }

  lemma SendersMove(cfg: Config, old_: seq<Letter>, s: System, p: nat, r: Reply, senders: seq<nat>) returns (more: seq<nat>)
    requires Possible(cfg, s, Move(p, r)) && Control(cfg, s) && s.claims[p].Busy?
    requires Senders(old_, s, senders)
    ensures Senders(old_, Happen(cfg, s, Move(p, r)), more)
  {
    var c := s.claims[p];
    var s' := Happen(cfg, s, Move(p, r));
    SendersStay(cfg, old_, s, p, r, senders);
    ClaimStep(cfg, s.g, c, r);
    LetterStep(cfg, s.g, c, r);
    if c.at.DlqSending? && s'.g.calls[c.call].letterSent {
      NewSender(cfg, s, p, r);
      more := senders + [c.call];
      OneMoreSender(old_, s.g.dlq, s', senders, c.call, Letter(c.msg, c.at.failure));
    } else {
      more := senders;
    }
  }

  lemma OneMoreSender(old_: seq<Letter>, dlq: seq<Letter>, s': System, senders: seq<nat>, k: nat, letter: Letter)
    requires old_ <= dlq && |senders| == |dlq| - |old_| && Distinct(senders) && k !in senders
    requires s'.g.dlq == dlq + [letter] && SentBy(s', k, letter)
    requires forall i :: 0 <= i < |senders| ==> SentBy(s', senders[i], dlq[|old_| + i])
    requires forall j: nat :: j < |s'.g.calls| && s'.g.calls[j].letterSent && j != k ==> j in senders
    ensures Senders(old_, s', senders + [k])
  {
  }

  lemma NewSender(cfg: Config, s: System, p: nat, r: Reply)
    requires Possible(cfg, s, Move(p, r)) && Control(cfg, s) && s.claims[p].Busy? && s.claims[p].at.DlqSending?
    requires Happen(cfg, s, Move(p, r)).g.calls[s.claims[p].call].letterSent
    ensures SentBy(Happen(cfg, s, Move(p, r)), s.claims[p].call, Letter(s.claims[p].msg, s.claims[p].at.failure))
  {
    var c := s.claims[p];
    ClaimStep(cfg, s.g, c, r);
    LetterStep(cfg, s.g, c, r);
    forall q | 0 <= q < |s.claims| && q != p && s.claims[q].Busy?
      ensures s.claims[q].call != c.call
    {
      assert ClaimFits(cfg, s.g, s.claims[q]) && s.claims[q].msg.partition == q;
    }
  }

  lemma SendersRest(cfg: Config, old_: seq<Letter>, s: System, ev: Event, senders: seq<nat>)
    requires Possible(cfg, s, ev) && Senders(old_, s, senders)
    requires ev.Move? ==> s.claims[ev.p].Idle?
    ensures Senders(old_, Happen(cfg, s, ev), senders)
  {
    var s' := Happen(cfg, s, ev);
    forall i | 0 <= i < |senders|
      ensures SentBy(s', senders[i], s'.g.dlq[|old_| + i])
    {
      assert SentBy(s, senders[i], s.g.dlq[|old_| + i]);
    }
  }

  /**
   In every run the dead letters that arrived since the start and the calls whose letter got through are
   the same, one to one: each letter is of its call's message, was its one attempt, and holds the error
   the call returned, once it has.
   */
  lemma {:induction false} LettersHaveSenders(cfg: Config, s: System, run: seq<Event>, t: System) returns (senders: seq<nat>)
    requires Reaches(cfg, s, run, t)
    ensures Senders(s.g.dlq, t, senders)
  {
    if run == [] {
      senders := [];
    } else {
      var init, ev := run[..|run| - 1], run[|run| - 1];
      var m := Exec(cfg, s, init).value;
      senders := LettersHaveSenders(cfg, s, init, m);
      ControlAlways(cfg, s, init);
      if ev.Move? && m.claims[ev.p].Busy? {
        senders := SendersMove(cfg, s.g.dlq, m, ev.p, ev.reply, senders);
      } else {
        SendersRest(cfg, s.g.dlq, m, ev, senders);
      }
    }
  }

  /** A message has no letter since the start exactly when no call for it got one through. */
  lemma NoLetterExactlyWhen(cfg: Config, s: System, run: seq<Event>, t: System, m: Message)
    requires Reaches(cfg, s, run, t)
    ensures s.g.dlq <= t.g.dlq
    ensures (forall i :: |s.g.dlq| <= i < |t.g.dlq| ==> t.g.dlq[i].msg != m)
            <==> (forall k :: 0 <= k < |t.g.calls| && t.g.calls[k].msg == m ==> !t.g.calls[k].letterSent)
  {
    var senders := LettersHaveSenders(cfg, s, run, t);
    forall k | 0 <= k < |t.g.calls| && t.g.calls[k].letterSent
      ensures exists i :: |s.g.dlq| <= i < |t.g.dlq| && t.g.dlq[i].msg == t.g.calls[k].msg
    {
      var i :| 0 <= i < |senders| && senders[i] == k;
      assert SentBy(t, senders[i], t.g.dlq[|s.g.dlq| + i]);
    }
    forall i | |s.g.dlq| <= i < |t.g.dlq|
      ensures exists k :: 0 <= k < |t.g.calls| && t.g.calls[k].letterSent && t.g.calls[k].msg == t.g.dlq[i].msg
    {
      assert SentBy(t, senders[i - |s.g.dlq|], t.g.dlq[|s.g.dlq| + (i - |s.g.dlq|)]);
    }
  }

  // ----- publications --------------------------------------------------------------------------

  /** Call k completed both writes for this event and got it onto the bus. */
  predicate PublishedBy(g: Shared, k: nat, e: PaymentEvent) {
    k < |g.calls| && g.calls[k].published && g.calls[k].written && g.calls[k].event == Some(e)
  }

  /** publishers[i] published the i-th event of the bus, and they are all the calls that got one there. */
  predicate Publishers(g: Shared, publishers: seq<nat>) {
    && |publishers| == |g.bus| && Distinct(publishers)
    && (forall i :: 0 <= i < |g.bus| ==> PublishedBy(g, publishers[i], g.bus[i]))
    && (forall k: nat :: k < |g.calls| && g.calls[k].published ==> k in publishers)
  }

  lemma PublishersMove(cfg: Config, g: Shared, c: Claim, g': Shared, c': Claim, publishers: seq<nat>) returns (more: seq<nat>)
    requires c.Busy? && ClaimFits(cfg, g, c) && AllSound(cfg, g.calls)
    requires KeepsRecord(cfg, g, c, g', c') && Effects(cfg, g, c, g', c')
    requires Publishers(g, publishers)
    ensures Publishers(g', more)
  {
    forall i | 0 <= i < |g.bus|
      ensures PublishedBy(g', publishers[i], g.bus[i])
    {
      assert PublishedBy(g, publishers[i], g.bus[i]);
    }
    if g'.calls[c.call].published && !g.calls[c.call].published {
      assert c.call !in publishers;
      more := publishers + [c.call];
      assert PublishedBy(g', c.call, c.at.event);
    } else {
      more := publishers;
    }
  }

  lemma PublishersRest(cfg: Config, s: System, ev: Event, publishers: seq<nat>)
    requires Possible(cfg, s, ev) && Publishers(s.g, publishers)
    requires ev.Move? ==> s.claims[ev.p].Idle?
    ensures Publishers(Happen(cfg, s, ev).g, publishers)
  {
    var g' := Happen(cfg, s, ev).g;
    forall i | 0 <= i < |g'.bus|
      ensures PublishedBy(g', publishers[i], g'.bus[i])
    {
      assert PublishedBy(s.g, publishers[i], s.g.bus[i]);
    }
  }

  /**
   In every run the events on the bus and the calls that got one there are the same, one to one: each
   was published by a call that had completed both writes for it, and no call published twice.
   */
  lemma {:induction false} PublishedHasCall(cfg: Config, s: System, run: seq<Event>, t: System) returns (publishers: seq<nat>)
    requires Reaches(cfg, s, run, t)
    ensures Publishers(t.g, publishers)
  {
    if run == [] {
      publishers := [];
    } else {
      var init, ev := run[..|run| - 1], run[|run| - 1];
      var m := Exec(cfg, s, init).value;
      publishers := PublishedHasCall(cfg, s, init, m);
      ControlAlways(cfg, s, init);
      if ev.Move? && m.claims[ev.p].Busy? {
        var (g', c') := Step(cfg, m.g, m.claims[ev.p], ev.reply);
        ClaimStep(cfg, m.g, m.claims[ev.p], ev.reply);
        publishers := PublishersMove(cfg, m.g, m.claims[ev.p], g', c', publishers);
      } else {
        PublishersRest(cfg, m, ev, publishers);
      }
    }
  }

  // ----- every call ----------------------------------------------------------------------------

  /**
   Safety of every call. In every reachable state: a message whose offset was marked either completed
   both writes in that call, or its existence check was answered and found a mark, and the marked
   position is past it; a call that returned an error made exactly one dead-letter attempt, or none
   when it failed to get a slot, and its offset was not marked; nothing was published without both
   writes.
   */
  lemma EveryCallIsSound(cfg: Config, s: System, run: seq<Event>, t: System, k: nat)
    requires Reaches(cfg, s, run, t) && k < |t.g.calls|
    ensures var call := t.g.calls[k];
            && Sound(cfg, call)
            && (call.offsetMarked ==>
                  && call.event.Some? && call.dlqAttempts == 0
                  && (call.hit.Some? || (call.written && call.statusAck.Some?))
                  && call.msg.partition in t.g.positions && call.msg.offset < t.g.positions[call.msg.partition])
            && (call.finished && call.result.Some? ==>
                  !call.offsetMarked && call.busAttempts == 0 &&
                  call.dlqAttempts == if call.result.value.Cancelled? then 0 else 1)
  {
    ControlAlways(cfg, s, run);
    PositionsAreMarked(cfg, s, run, t);
    assert Passed(t.g, t.g.calls[k]);
  }
}
