/**
 The fan-out of internal/ui/events.go as a state machine. Subscribe, unsubscribe and Close take the
 write lock; a dispatch takes the read lock and offers one event to the registered subscribers, one
 at a time and in any order; clients receive at any time. Ids are the uuids, taken to be fresh.
 */
module Bus {
  import opened Wrappers
  import opened Models

  type Id = nat

  /**
   One subscription's channel. kept says of each event offered since registration whether it was
   sent or dropped; taken is what the client has received.
   */
  datatype Sub = Sub(open: bool, buf: seq<PaymentEvent>, taken: seq<PaymentEvent>, kept: seq<bool>, since: nat)

  datatype State = State(
    cap: nat,                     // bufSize
    subs: map<Id, Sub>,           // every channel ever made
    registered: set<Id>,          // the keys of the subscribers map
    log: seq<PaymentEvent>,       // events whose dispatch has begun
    dispatching: bool,            // the read lock is held
    sending: set<Id>)             // subscribers the current dispatch has not reached

  datatype Event =
    | Subscribe(id: Id)
    | Unsubscribe(id: Id)
    | Close
    | Begin(event: PaymentEvent)
    | Send(id: Id, ready: bool)   // ready: the client is waiting in a receive
    | End
    | Receive(id: Id)

  // ----- the code ------------------------------------------------------------------------------

  /** The non-blocking send. An unbuffered channel hands over only to a waiting client. */
  function Offer(cap: nat, s: Sub, e: PaymentEvent, ready: bool): Sub {
    if |s.buf| < cap then s.(buf := s.buf + [e], kept := s.kept + [true])
    else if cap == 0 && ready then s.(taken := s.taken + [e], kept := s.kept + [true])
    else s.(kept := s.kept + [false])
  }

  function Subscribed(b: State, id: Id): State {
    b.(subs := b.subs[id := Sub(true, [], [], [], |b.log|)], registered := b.registered + {id})
  }

  /** The returned closure; calling it again finds nothing to do. */
  function Unsubscribed(b: State, id: Id): State {
    if id in b.registered && id in b.subs then
      b.(subs := b.subs[id := b.subs[id].(open := false)], registered := b.registered - {id})
    else b
  }

  function Closed(b: State): State {
    b.(subs := ShutSome(b.subs, b.registered), registered := {})
  }

  function ShutSome(subs: map<Id, Sub>, ids: set<Id>): map<Id, Sub> {
    map id | id in subs :: if id in ids then subs[id].(open := false) else subs[id]
  }

  function OfferSome(cap: nat, subs: map<Id, Sub>, ids: set<Id>, e: PaymentEvent, ready: set<Id>): map<Id, Sub> {
    map id | id in subs :: if id in ids then Offer(cap, subs[id], e, id in ready) else subs[id]
  }

  /** Channel by channel, in any order: the next one changes from what it was at the start. */
  lemma ShutOneMore(subs: map<Id, Sub>, ids: set<Id>, id: Id)
    requires id in subs && id !in ids
    ensures ShutSome(subs, ids)[id] == subs[id]
    ensures ShutSome(subs, ids)[id := subs[id].(open := false)] == ShutSome(subs, ids + {id})
  {
  }

  lemma OfferOneMore(cap: nat, subs: map<Id, Sub>, ids: set<Id>, id: Id, e: PaymentEvent, ready: set<Id>)
    requires id in subs && id !in ids
    ensures OfferSome(cap, subs, ids, e, ready)[id] == subs[id]
    ensures OfferSome(cap, subs, ids, e, ready)[id := Offer(cap, subs[id], e, id in ready)]
            == OfferSome(cap, subs, ids + {id}, e, ready)
  {
  }

  predicate Possible(b: State, ev: Event) {
    match ev
    case Subscribe(id) => !b.dispatching && id !in b.subs
    case Unsubscribe(_) => !b.dispatching
    case Close => !b.dispatching
    case Begin(_) => !b.dispatching
    case Send(id, _) => b.dispatching && id in b.sending && id in b.subs && b.log != []
    case End => b.dispatching && b.sending == {}
    case Receive(id) => id in b.subs && b.subs[id].buf != []
  }

  function Step(b: State, ev: Event): State
    requires Possible(b, ev)
  {
    match ev
    case Subscribe(id) => Subscribed(b, id)
    case Unsubscribe(id) => Unsubscribed(b, id)
    case Close => Closed(b)
    case Begin(e) => b.(log := b.log + [e], dispatching := true, sending := b.registered)
    case Send(id, ready) => Sent(b, id, ready)
    case End => b.(dispatching := false)
    case Receive(id) => Received(b, id)
  }

  function Sent(b: State, id: Id, ready: bool): State
    requires id in b.subs && b.log != []
  {
    b.(subs := b.subs[id := Offer(b.cap, b.subs[id], b.log[|b.log| - 1], ready)], sending := b.sending - {id})
  }

  function Received(b: State, id: Id): State
    requires id in b.subs && b.subs[id].buf != []
  {
    var s := b.subs[id];
    b.(subs := b.subs[id := s.(buf := s.buf[1..], taken := s.taken + [s.buf[0]])])
  }

  /** Go's run-time panics: closing a closed channel, sending on a closed channel. */
  predicate Panics(b: State, ev: Event) {
    match ev
    case Unsubscribe(id) => id in b.registered && (id !in b.subs || !b.subs[id].open)
    case Close => exists id :: id in b.registered && (id !in b.subs || !b.subs[id].open)
    case Send(id, _) => id !in b.subs || !b.subs[id].open
    case _ => false
  }

  function Start(cap: nat): State {
    State(cap, map[], {}, [], false, {})
  }

  function Run(cap: nat, run: seq<Event>): Option<State> {
    if run == [] then Some(Start(cap))
    else
      match Run(cap, run[..|run| - 1])
      case None => None
      case Some(b) => if Possible(b, run[|run| - 1]) then Some(Step(b, run[|run| - 1])) else None
  }

  // ----- the invariant -------------------------------------------------------------------------

  /** The events of es whose flag is set. */
  function Select(es: seq<PaymentEvent>, kept: seq<bool>): seq<PaymentEvent>
    requires |es| == |kept|
  {
    if es == [] then []
    else Select(es[..|es| - 1], kept[..|es| - 1]) + if kept[|es| - 1] then [es[|es| - 1]] else []
  }

  function Dropped(kept: seq<bool>): nat {
    if kept == [] then 0 else Dropped(kept[..|kept| - 1]) + if kept[|kept| - 1] then 0 else 1
  }

  lemma {:induction false} SelectSize(es: seq<PaymentEvent>, kept: seq<bool>)
    requires |es| == |kept|
    ensures |Select(es, kept)| + Dropped(kept) == |es|
  {
    if es != [] {
      SelectSize(es[..|es| - 1], kept[..|es| - 1]);
    }
  }

  lemma SelectSnoc(es: seq<PaymentEvent>, kept: seq<bool>, e: PaymentEvent, k: bool)
    requires |es| == |kept|
    ensures Select(es + [e], kept + [k]) == Select(es, kept) + if k then [e] else []
  {
    assert (es + [e])[..|es|] == es && (kept + [k])[..|es|] == kept;
  }

  /** The dispatches a subscription has been offered: consecutive ones, from its registration on. */
  function Offered(log: seq<PaymentEvent>, s: Sub): seq<PaymentEvent>
    requires s.since + |s.kept| <= |log|
  {
    log[s.since..s.since + |s.kept|]
  }

  /** Received and buffered, in order. */
  function Stream(s: Sub): seq<PaymentEvent> {
    s.taken + s.buf
  }

  /** The stream of one subscription is exactly what was kept of the events offered to it. */
  predicate StreamOk(b: State, s: Sub) {
    && s.since + |s.kept| <= |b.log|
    && Stream(s) == Select(Offered(b.log, s), s.kept)
    && |s.buf| <= b.cap
  }

  /** While registered it has been offered everything since it joined, but for a dispatch still on its way. */
  predicate UpToDate(b: State, id: Id, s: Sub) {
    id in b.registered ==> s.since + |s.kept| == |b.log| - if id in b.sending then 1 else 0
  }

  predicate Inv(b: State) {
    && b.registered <= b.subs.Keys
    && b.sending <= b.registered
    && (b.dispatching ==> b.log != [])
    && (!b.dispatching ==> b.sending == {})
    && (forall id :: id in b.subs ==> (b.subs[id].open <==> id in b.registered))
    && (forall id :: id in b.subs ==> StreamOk(b, b.subs[id]) && UpToDate(b, id, b.subs[id]))
  }

  lemma StreamAfterLog(b: State, s: Sub, e: PaymentEvent)
    requires StreamOk(b, s)
    ensures StreamOk(b.(log := b.log + [e]), s)
  {
    assert Offered(b.log + [e], s) == Offered(b.log, s);
  }

  /** An offer appends to the stream what it keeps. */
  lemma OfferAppends(cap: nat, s: Sub, e: PaymentEvent, ready: bool)
    requires |s.buf| <= cap
    ensures var s' := Offer(cap, s, e, ready);
            var k := |s.buf| < cap || (cap == 0 && ready);
            && s'.kept == s.kept + [k] && s'.since == s.since && s'.open == s.open && |s'.buf| <= cap
            && Stream(s') == Stream(s) + if k then [e] else []
  {
  }

  lemma StreamAfterOffer(b: State, s: Sub, ready: bool)
    requires StreamOk(b, s) && s.since + |s.kept| + 1 == |b.log|
    ensures StreamOk(b, Offer(b.cap, s, b.log[|b.log| - 1], ready))
  {
    var e := b.log[|b.log| - 1];
    var s' := Offer(b.cap, s, e, ready);
    OfferAppends(b.cap, s, e, ready);
    OfferedSnoc(b.log, s, s');
    SelectSnoc(Offered(b.log, s), s.kept, e, s'.kept[|s.kept|]);
  }

  lemma OfferedSnoc(log: seq<PaymentEvent>, s: Sub, s': Sub)
    requires s.since + |s.kept| + 1 == |log| && s'.since == s.since && |s'.kept| == |s.kept| + 1
    ensures Offered(log, s') == Offered(log, s) + [log[|log| - 1]]
  {
  }

  lemma InvSubscribe(b: State, id: Id)
    requires Inv(b) && Possible(b, Subscribe(id))
    ensures Inv(Subscribed(b, id))
  {
    assert StreamOk(b, Subscribed(b, id).subs[id]);
  }

  lemma InvBegin(b: State, e: PaymentEvent)
    requires Inv(b) && Possible(b, Begin(e))
    ensures Inv(Step(b, Begin(e)))
  {
    var b' := Step(b, Begin(e));
    forall id | id in b.subs
      ensures StreamOk(b', b'.subs[id]) && UpToDate(b', id, b'.subs[id])
    {
      assert StreamOk(b, b.subs[id]) && UpToDate(b, id, b.subs[id]);
      StreamAfterLog(b, b.subs[id], e);
    }
  }

  lemma InvSend(b: State, id: Id, ready: bool)
    requires Inv(b) && Possible(b, Send(id, ready))
    ensures Inv(Step(b, Send(id, ready)))
  {
    var b' := Step(b, Send(id, ready));
    assert StreamOk(b, b.subs[id]) && UpToDate(b, id, b.subs[id]);
    StreamAfterOffer(b, b.subs[id], ready);
    OfferAppends(b.cap, b.subs[id], b.log[|b.log| - 1], ready);
    forall i | i in b'.subs
      ensures StreamOk(b', b'.subs[i]) && UpToDate(b', i, b'.subs[i])
    {
      assert i != id ==> StreamOk(b, b.subs[i]) && UpToDate(b, i, b.subs[i]);
    }
  }

  lemma InvReceive(b: State, id: Id)
    requires Inv(b) && Possible(b, Receive(id))
    ensures Inv(Step(b, Receive(id)))
  {
    var b', s := Step(b, Receive(id)), b.subs[id];
    assert StreamOk(b, s) && UpToDate(b, id, s);
    assert Stream(b'.subs[id]) == Stream(s);
    forall i | i in b'.subs
      ensures StreamOk(b', b'.subs[i]) && UpToDate(b', i, b'.subs[i])
    {
      assert i != id ==> StreamOk(b, b.subs[i]) && UpToDate(b, i, b.subs[i]);
    }
  }

  lemma InvShut(b: State, ev: Event)
    requires Inv(b) && Possible(b, ev) && (ev.Unsubscribe? || ev.Close? || ev.End?)
    ensures Inv(Step(b, ev))
  {
    var b' := Step(b, ev);
    forall i | i in b'.subs
      ensures StreamOk(b', b'.subs[i]) && UpToDate(b', i, b'.subs[i])
    {
      assert StreamOk(b, b.subs[i]) && UpToDate(b, i, b.subs[i]);
    }
  }

  lemma InvStep(b: State, ev: Event)
    requires Inv(b) && Possible(b, ev)
    ensures Inv(Step(b, ev))
  {
    match ev
    case Subscribe(id) => InvSubscribe(b, id);
    case Begin(e) => InvBegin(b, e);
    case Send(id, ready) => InvSend(b, id, ready);
    case Receive(id) => InvReceive(b, id);
    case _ => InvShut(b, ev);
  }

  lemma {:induction false} InvAlways(cap: nat, run: seq<Event>)
    requires Run(cap, run).Some?
    ensures Inv(Run(cap, run).value) && Run(cap, run).value.cap == cap
  {
    if run != [] {
      InvAlways(cap, run[..|run| - 1]);
      InvStep(Run(cap, run[..|run| - 1]).value, run[|run| - 1]);
    }
  }

  // ----- theorems ------------------------------------------------------------------------------

  /**
   Under every interleaving of subscribe, repeated unsubscribe, dispatch and repeated Close, a
   channel is in the map exactly while it is open, and no possible next event panics.
   */
  lemma NeverPanics(cap: nat, run: seq<Event>, ev: Event)
    requires Run(cap, run).Some? && Possible(Run(cap, run).value, ev)
    ensures !Panics(Run(cap, run).value, ev)
    ensures var b := Run(cap, run).value; forall id :: id in b.subs ==> (b.subs[id].open <==> id in b.registered)
    ensures Run(cap, run).value.registered <= Run(cap, run).value.subs.Keys
  {
    InvAlways(cap, run);
  }

  /** The state in which a send or a close happens: the channel is there, open and not over-full. */
  lemma ChannelReady(cap: nat, run: seq<Event>, id: Id)
    requires Run(cap, run).Some? && id in Run(cap, run).value.registered + Run(cap, run).value.sending
    ensures var b := Run(cap, run).value;
            b.cap == cap && id in b.subs && b.subs[id].open && |b.subs[id].buf| <= cap
  {
    InvAlways(cap, run);
    var b := Run(cap, run).value;
    assert StreamOk(b, b.subs[id]);
  }

  /**
   The stream of every subscription, in every reachable state: received and buffered events together
   are, in order, those kept of the consecutive dispatches offered to it from its registration on;
   received, buffered and dropped add up to offered; nothing offered is missing while it is
   registered, except the event of a dispatch that has not reached it yet.
   */
  lemma StreamIsWhatWasKept(cap: nat, run: seq<Event>, id: Id)
    requires Run(cap, run).Some? && id in Run(cap, run).value.subs
    ensures var b := Run(cap, run).value;
            var s := b.subs[id];
            && s.since + |s.kept| <= |b.log|
            && s.taken + s.buf == Select(Offered(b.log, s), s.kept)
            && |s.taken| + |s.buf| + Dropped(s.kept) == |s.kept|
            && |s.buf| <= cap
            && (id in b.registered && !b.dispatching ==> s.since + |s.kept| == |b.log|)
  {
    InvAlways(cap, run);
    var b := Run(cap, run).value;
    var s := b.subs[id];
    assert StreamOk(b, s) && UpToDate(b, id, s);
    SelectSize(Offered(b.log, s), s.kept);
    assert |Stream(s)| == |s.taken| + |s.buf|;
  }

  /** An event is dropped only when the buffer is full, and then the stream is left as it was. */
  lemma DropsOnlyWhenFull(cap: nat, run: seq<Event>, id: Id, ready: bool)
    requires Run(cap, run).Some? && Possible(Run(cap, run).value, Send(id, ready))
    ensures var b := Run(cap, run).value;
            var s, s' := b.subs[id], Step(b, Send(id, ready)).subs[id];
            var e := b.log[|b.log| - 1];
            && |s'.kept| == |s.kept| + 1
            && (!s'.kept[|s.kept|] <==> |s.buf| == cap && !(cap == 0 && ready))
            && Stream(s') == Stream(s) + if s'.kept[|s.kept|] then [e] else []
  {
    InvAlways(cap, run);
    var b := Run(cap, run).value;
    assert StreamOk(b, b.subs[id]);
    OfferAppends(cap, b.subs[id], b.log[|b.log| - 1], ready);
  }

  // ----- independence of the other subscribers -------------------------------------------------

  /** The events that concern one subscription: its own, every dispatch and Close. */
  predicate Concerns(id: Id, ev: Event) {
    match ev
    case Subscribe(i) => i == id
    case Unsubscribe(i) => i == id
    case Send(i, _) => i == id
    case Receive(i) => i == id
    case Begin(_) => true
    case Close => true
    case End => false
  }

  function Own(id: Id, run: seq<Event>): seq<Event> {
    if run == [] then []
    else Own(id, run[..|run| - 1]) + if Concerns(id, run[|run| - 1]) then [run[|run| - 1]] else []
  }

  /** What one subscription sees: its channel, whether it is in the map, and the dispatched events. */
  datatype Projection = Projection(sub: Option<Sub>, registered: bool, log: seq<PaymentEvent>)

  function Project(b: State, id: Id): Projection {
    Projection(if id in b.subs then Some(b.subs[id]) else None, id in b.registered, b.log)
  }

  /** The effect of an event on one subscription, from what that subscription sees alone. */
  function Local(cap: nat, p: Projection, ev: Event): Projection {
    match ev
    case Subscribe(_) => Projection(Some(Sub(true, [], [], [], |p.log|)), true, p.log)
    case Unsubscribe(_) => Shut(p)
    case Close => Shut(p)
    case Begin(e) => p.(log := p.log + [e])
    case Send(_, ready) =>
      if p.sub.Some? && p.log != [] then p.(sub := Some(Offer(cap, p.sub.value, p.log[|p.log| - 1], ready))) else p
    case Receive(_) =>
      if p.sub.Some? && p.sub.value.buf != [] then
        var s := p.sub.value;
        p.(sub := Some(s.(buf := s.buf[1..], taken := s.taken + [s.buf[0]])))
      else p
    case End => p
  }

  function Shut(p: Projection): Projection {
    if p.registered && p.sub.Some? then p.(sub := Some(p.sub.value.(open := false)), registered := false) else p
  }

  function LocalRun(cap: nat, own: seq<Event>): Projection {
    if own == [] then Projection(None, false, [])
    else Local(cap, LocalRun(cap, own[..|own| - 1]), own[|own| - 1])
  }

  lemma LocalStep(b: State, ev: Event, id: Id)
    requires Inv(b) && Possible(b, ev)
    ensures Project(Step(b, ev), id) == if Concerns(id, ev) then Local(b.cap, Project(b, id), ev) else Project(b, id)
  {
    match ev
    case Subscribe(_) =>
    case Unsubscribe(_) =>
    case Close =>
    case Begin(_) =>
    case Send(_, _) =>
    case End =>
    case Receive(_) =>
  }

  lemma {:induction false} ProjectionIsLocal(cap: nat, run: seq<Event>, id: Id)
    requires Run(cap, run).Some?
    ensures Project(Run(cap, run).value, id) == LocalRun(cap, Own(id, run))
  {
    if run != [] {
      var init, ev := run[..|run| - 1], run[|run| - 1];
      ProjectionIsLocal(cap, init, id);
      InvAlways(cap, init);
      var own, own' := Own(id, init), Own(id, run);
      if Concerns(id, ev) {
        assert own' == own + [ev] && own'[..|own'| - 1] == own;
      } else {
        assert own' == own;
      }
      LocalStep(Run(cap, init).value, ev, id);
    }
  }

  /**
   One subscriber's stream depends neither on the order in which a dispatch visits the map nor on how
   fast the others receive: two runs with the same dispatches and the same events of this subscriber,
   in the same order, whatever the others do and whenever, leave it with the same stream.
   */
  lemma StreamIgnoresOthers(cap: nat, run1: seq<Event>, run2: seq<Event>, id: Id)
    requires Run(cap, run1).Some? && Run(cap, run2).Some?
    requires Own(id, run1) == Own(id, run2)
    ensures Project(Run(cap, run1).value, id) == Project(Run(cap, run2).value, id)
  {
    ProjectionIsLocal(cap, run1, id);
    ProjectionIsLocal(cap, run2, id);
  }
}
