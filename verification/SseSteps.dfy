/** Any number of HandleSSE requests at once, interleaved with the event bus. */
module SseSteps {
  import opened Wrappers
  import opened Sums
  import opened Sse
  import Bus

  /** Where a request is; the last three are its deferred calls, in the order they run. */
  datatype Request = Arriving | HasSlot | Counted | Streaming | Cancelled | Uncounted | Gone

  /** Request i subscribes under id i. */
  datatype State = State(slots: int, connections: int, bus: Bus.State, requests: seq<Request>)

  datatype Event =
    | Arrive
    | Move(i: nat, flusher: bool)
    | OnBus(event: Bus.Event)

  predicate Possible(s: State, ev: Event) {
    match ev
    case Arrive => true
    case OnBus(e) => !e.Subscribe? && !e.Unsubscribe? && Bus.Possible(s.bus, e)
    case Move(i, _) =>
      i < |s.requests| &&
      match s.requests[i]
      case Counted => Bus.Possible(s.bus, Bus.Subscribe(i))
      case Streaming => Bus.Possible(s.bus, Bus.Unsubscribe(i))
      case Gone => false
      case _ => true
  }

  function Goto(s: State, i: nat, r: Request): State
    requires i < |s.requests|
  {
    s.(requests := s.requests[i := r])
  }

  function Step(s: State, ev: Event): State
    requires Possible(s, ev)
  {
    match ev
    case Arrive => s.(requests := s.requests + [Arriving])
    case OnBus(e) => s.(bus := Bus.Step(s.bus, e))
    case Move(i, flusher) =>
      match s.requests[i]
      case Arriving =>
        if s.slots < MAX_CONNECTIONS then Goto(s.(slots := s.slots + 1), i, HasSlot) else Goto(s, i, Gone)
      case HasSlot =>
        if flusher then Goto(s.(connections := s.connections + 1), i, Counted) else Goto(s, i, Uncounted)
      case Counted => Goto(s.(bus := Bus.Step(s.bus, Bus.Subscribe(i))), i, Streaming)
      case Streaming => Goto(s.(bus := Bus.Step(s.bus, Bus.Unsubscribe(i))), i, Cancelled)
      case Cancelled => Goto(s.(connections := s.connections - 1), i, Uncounted)
      case Uncounted => Goto(s.(slots := s.slots - 1), i, Gone)
      case Gone => s
  }

  function Run(cap: nat, run: seq<Event>): Option<State> {
    if run == [] then Some(State(0, 0, Bus.Start(cap), []))
    else
      match Run(cap, run[..|run| - 1])
      case None => None
      case Some(s) => if Possible(s, run[|run| - 1]) then Some(Step(s, run[|run| - 1])) else None
  }

  // ----- the invariant -------------------------------------------------------------------------

  function Slot(r: Request): int {
    if r.Arriving? || r.Gone? then 0 else 1
  }

  function Connection(r: Request): int {
    if r.Counted? || r.Streaming? || r.Cancelled? then 1 else 0
  }

  function Subscription(r: Request): int {
    if r.Streaming? then 1 else 0
  }

  predicate Inv(s: State) {
    && s.slots == Sum(Slot, s.requests) <= MAX_CONNECTIONS
    && s.connections == Sum(Connection, s.requests)
    && RegisteredStream(s.bus, s.requests)
  }

  predicate RegisteredStream(b: Bus.State, requests: seq<Request>) {
    && b.registered <= b.subs.Keys
    && forall i :: i in b.registered ==> i < |requests| && requests[i].Streaming?
  }

  /** The bus on its own registers nobody. */
  lemma BusRegistersNobody(b: Bus.State, e: Bus.Event)
    requires !e.Subscribe? && Bus.Possible(b, e) && b.registered <= b.subs.Keys
    ensures var b' := Bus.Step(b, e);
            && b'.registered <= b.registered && b'.registered <= b'.subs.Keys
            && (e.Unsubscribe? ==> b'.registered == b.registered - {e.id})
  {
  }

  lemma MoveStep(s: State, i: nat, flusher: bool)
    requires Inv(s) && Possible(s, Move(i, flusher))
    ensures Inv(Step(s, Move(i, flusher)))
  {
    var s' := Step(s, Move(i, flusher));
    SumUpdate(Slot, s.requests, i, s'.requests[i]);
    SumUpdate(Connection, s.requests, i, s'.requests[i]);
    assert RegisteredStream(s'.bus, s'.requests) by {
      if s.requests[i].Streaming? {
        BusRegistersNobody(s.bus, Bus.Unsubscribe(i));
      }
    }
  }

  lemma InvStep(s: State, ev: Event)
    requires Inv(s) && Possible(s, ev)
    ensures Inv(Step(s, ev))
  {
    match ev
    case Arrive =>
      assert Step(s, ev).requests[..|s.requests|] == s.requests;
    case OnBus(e) =>
      BusRegistersNobody(s.bus, e);
    case Move(i, flusher) =>
      MoveStep(s, i, flusher);
  }

  lemma {:induction false} InvAlways(cap: nat, run: seq<Event>)
    requires Run(cap, run).Some?
    ensures Inv(Run(cap, run).value)
  {
    if run != [] {
      InvAlways(cap, run[..|run| - 1]);
      InvStep(Run(cap, run[..|run| - 1]).value, run[|run| - 1]);
    }
  }

  /** A set of streaming requests has no more members than there are streaming requests. */
  lemma {:induction false} Streams(requests: seq<Request>, ids: set<nat>)
    requires forall i :: i in ids ==> i < |requests| && requests[i].Streaming?
    ensures |ids| <= Sum(Subscription, requests)
  {
    if requests == [] {
      assert ids == {};
    } else {
      var n := |requests| - 1;
      Streams(requests[..n], ids - {n});
      assert |ids| <= |ids - {n}| + if n in ids then 1 else 0;
    }
  }

  /**
   In every reachable state, if SSE requests are the only subscribers, there are at most as many
   subscribers as counted connections, as many connections as slots held, and 100 slots. Once every
   request is gone, nothing is held.
   */
  lemma ResourcesNest(cap: nat, run: seq<Event>)
    requires Run(cap, run).Some?
    ensures var s := Run(cap, run).value;
            && |s.bus.registered| <= s.connections <= s.slots <= 100
            && ((forall i :: 0 <= i < |s.requests| ==> s.requests[i].Gone?) ==>
                  s.slots == s.connections == 0 && s.bus.registered == {})
  {
    InvAlways(cap, run);
    var s := Run(cap, run).value;
    Streams(s.requests, s.bus.registered);
    SumMonotone(Subscription, Connection, s.requests);
    SumMonotone(Connection, Slot, s.requests);
    if forall i :: 0 <= i < |s.requests| ==> s.requests[i].Gone? {
      SumZero(Slot, s.requests);
      SumZero(Connection, s.requests);
    }
  }
}
