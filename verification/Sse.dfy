/**
 HandleSSE of internal/ui/handlers.go. Its resources nest: a slot of the global semaphore, the
 connection counter, the subscription; they are released in the opposite order on every return.
 */
module Sse {
  import opened Models
  import opened Sums
  import opened EventBuses
  import Bus

  const MAX_CONNECTIONS := 100

  datatype Frame = Connected | Heartbeat | Payment(event: PaymentEvent)

  /** What can wake the handler's select, or happen to the bus meanwhile. */
  datatype Turn =
    | Published(event: PaymentEvent)   // the bus dispatches an event
    | BusCloses
    | EventReady                       // the channel case is taken
    | TickerFires
    | ClientGone

  function Payments(frames: seq<Frame>): seq<PaymentEvent> {
    if frames == [] then []
    else
      var last := frames[|frames| - 1];
      Payments(frames[..|frames| - 1]) + if last.Payment? then [last.event] else []
  }

  lemma PaymentsSnoc(frames: seq<Frame>, f: Frame)
    ensures Payments(frames + [f]) == Payments(frames) + if f.Payment? then [f.event] else []
  {
    assert (frames + [f])[..|frames|] == frames;
  }

  // ----- one client's stream, on its own -------------------------------------------------------

  /** What the client was sent, what its channel holds, and whether the handler has returned. */
  datatype Line = Line(frames: seq<Frame>, buf: seq<PaymentEvent>, closed: bool, over: bool)

  function OnTurn(cap: nat, l: Line, turn: Turn): Line {
    if l.over then l
    else
      match turn
      case Published(e) =>
        if l.closed then l
        else if |l.buf| < cap then l.(buf := l.buf + [e])
        else if cap == 0 then l.(frames := l.frames + [Payment(e)])
        else l
      case BusCloses => l.(closed := true)
      case EventReady =>
        if l.buf != [] then l.(frames := l.frames + [Payment(l.buf[0])], buf := l.buf[1..])
        else l.(over := l.closed)
      case TickerFires => l.(frames := l.frames + [Heartbeat])
      case ClientGone => l.(over := true)
  }

  function Served(cap: nat, turns: seq<Turn>): Line {
    if turns == [] then Line([Connected], [], false, false)
    else OnTurn(cap, Served(cap, turns[..|turns| - 1]), turns[|turns| - 1])
  }

  /** Turn i ends the stream: the client is gone, or the channel is closed and has been drained. */
  predicate Ends(cap: nat, turns: seq<Turn>, i: nat)
    requires i < |turns|
  {
    var l := Served(cap, turns[..i]);
    turns[i].ClientGone? || (turns[i].EventReady? && l.closed && l.buf == [])
  }

  /** The handler has returned exactly when some turn ended the stream. */
  lemma {:induction false} OverMeansEnded(cap: nat, turns: seq<Turn>)
    ensures Served(cap, turns).over <==> exists i :: 0 <= i < |turns| && Ends(cap, turns, i)
  {
    if turns != [] {
      var n := |turns| - 1;
      OverMeansEnded(cap, turns[..n]);
      forall i | 0 <= i < n
        ensures Ends(cap, turns, i) <==> Ends(cap, turns[..n], i)
      {
        assert turns[..n][..i] == turns[..i];
      }
      if Served(cap, turns).over && !Served(cap, turns[..n]).over {
        assert Ends(cap, turns, n);
      }
      if Ends(cap, turns, n) {
        assert Served(cap, turns).over;
      }
    }
  }

  function IsBeat(f: Frame): int {
    if f.Heartbeat? then 1 else 0
  }

  function IsTick(turn: Turn): int {
    if turn.TickerFires? then 1 else 0
  }

  function Beats(frames: seq<Frame>): int {
    Sum(IsBeat, frames)
  }

  function Ticks(turns: seq<Turn>): int {
    Sum(IsTick, turns)
  }

  lemma BeatsSnoc(frames: seq<Frame>, f: Frame)
    ensures Beats(frames + [f]) == Beats(frames) + if f.Heartbeat? then 1 else 0
  {
    assert (frames + [f])[..|frames|] == frames;
  }

  /** What one turn adds: at most one frame, a heartbeat if and only if the ticker fired, and never a second first frame. */
  lemma TurnAdds(cap: nat, l: Line, turn: Turn)
    ensures var l' := OnTurn(cap, l, turn);
            && l.frames <= l'.frames && |l'.frames| <= |l.frames| + 1
            && (|l'.frames| > |l.frames| ==> !l'.frames[|l.frames|].Connected?)
            && Beats(l'.frames) == Beats(l.frames) + if !l.over && turn.TickerFires? then 1 else 0
  {
    BeatsSnoc(l.frames, Heartbeat);
    if l.buf != [] {
      BeatsSnoc(l.frames, Payment(l.buf[0]));
    }
    if turn.Published? {
      BeatsSnoc(l.frames, Payment(turn.event));
    }
  }

  /** The first frame, and only it, says that the client is connected. */
  lemma {:induction false} FirstFrame(cap: nat, turns: seq<Turn>)
    ensures var frames := Served(cap, turns).frames;
            frames != [] && frames[0] == Connected && forall i :: 0 < i < |frames| ==> !frames[i].Connected?
  {
    if turns != [] {
      FirstFrame(cap, turns[..|turns| - 1]);
      TurnAdds(cap, Served(cap, turns[..|turns| - 1]), turns[|turns| - 1]);
    }
  }

  /** There is one heartbeat for each time the ticker fired before the stream was over. */
  lemma {:induction false} BeatsAreTicks(cap: nat, turns: seq<Turn>)
    ensures !Served(cap, turns).over ==> Beats(Served(cap, turns).frames) == Ticks(turns)
    ensures Beats(Served(cap, turns).frames) <= Ticks(turns)
  {
    if turns == [] {
      assert [Connected][..0] == [];
    } else {
      BeatsAreTicks(cap, turns[..|turns| - 1]);
      TurnAdds(cap, Served(cap, turns[..|turns| - 1]), turns[|turns| - 1]);
    }
  }

  lemma {:induction false} OverStays(cap: nat, turns: seq<Turn>, i: nat)
    requires i <= |turns| && Served(cap, turns[..i]).over
    ensures Served(cap, turns) == Served(cap, turns[..i])
  {
    if i < |turns| {
      var n := |turns| - 1;
      assert turns[..n][..i] == turns[..i];
      OverStays(cap, turns[..n], i);
    } else {
      assert turns[..i] == turns;
    }
  }

  // ----- the handler as it is written ----------------------------------------------------------

  datatype Response = Rejected(status: nat) | Streamed(frames: seq<Frame>)

  class Handlers {
    var slots: nat              // tokens in sseSemaphore
    var connections: nat        // sseConnections
    var total: nat              // sseTotalConnections

    /**
     One request, for any sequence of things that happen while it streams. Without an event bus, with
     a full semaphore or with a writer that cannot flush it is refused. Otherwise the client is sent
     exactly what Served says, which ends when the client is gone or the closed channel is drained;
     the payments among it are, in order, what the subscription's channel handed over. On every path
     the slot, the connection count and the subscription are given back.
     */
    method HandleSSE(bus: EventBus?, id: Bus.Id, flusher: bool, turns: seq<Turn>) returns (r: Response)
      requires slots <= 100
      requires bus != null ==> bus.Unlocked() && id !in bus.made
      modifies this, bus, if bus == null then {} else bus.made.Values
      ensures slots == old(slots) && connections == old(connections)
      ensures r.Streamed? <==> bus != null && old(slots) < 100 && flusher
      ensures r.Rejected? ==> r.status == if bus != null && old(slots) >= 100 then 503 else 500
      ensures total == old(total) + if r.Streamed? then 1 else 0
      ensures bus != null ==>
                bus.Unlocked() && id !in bus.subscribers && bus.subscribers.Keys <= old(bus.subscribers.Keys)
      ensures r.Streamed? ==>
                && r.frames == Served(bus.bufSize, turns).frames
                && id in bus.made && Payments(r.frames) == bus.made[id].taken
    {
      if bus == null {
        return Rejected(500);
      }
      r := Admit(bus, id, flusher, turns);
    }

    /** Past the check for the bus: the slot, the writer, the counters, the stream. */
    method Admit(bus: EventBus, id: Bus.Id, flusher: bool, turns: seq<Turn>) returns (r: Response)
      requires slots <= MAX_CONNECTIONS && bus.Unlocked() && id !in bus.made
      modifies this, bus, bus.made.Values
      ensures slots == old(slots) && connections == old(connections)
      ensures r.Streamed? <==> old(slots) < MAX_CONNECTIONS && flusher
      ensures r.Rejected? ==> r.status == if old(slots) >= MAX_CONNECTIONS then 503 else 500
      ensures total == old(total) + if r.Streamed? then 1 else 0
      ensures bus.Unlocked() && id !in bus.subscribers && bus.subscribers.Keys <= old(bus.subscribers.Keys)
      ensures r.Streamed? ==>
                && r.frames == Served(bus.bufSize, turns).frames
                && id in bus.made && Payments(r.frames) == bus.made[id].taken
    {
      assert id !in bus.subscribers;
      if slots >= MAX_CONNECTIONS {
        return Rejected(503);
      }
      slots := slots + 1;
      if flusher {
        r := Count(bus, id, turns);
      } else {
        r := Rejected(500);
      }
      slots := slots - 1;
    }

    /** Between the two counters' increments and the deferred decrement. */
    method Count(bus: EventBus, id: Bus.Id, turns: seq<Turn>) returns (r: Response)
      requires bus.Unlocked() && id !in bus.made
      modifies this`connections, this`total, bus, bus.made.Values
      ensures connections == old(connections) && total == old(total) + 1
      ensures bus.Unlocked() && id !in bus.subscribers && bus.subscribers.Keys <= old(bus.subscribers.Keys)
      ensures r.Streamed? && r.frames == Served(bus.bufSize, turns).frames
      ensures id in bus.made && Payments(r.frames) == bus.made[id].taken
    {
      connections, total := connections + 1, total + 1;
      var frames := Subscribed(bus, id, turns);
      connections := connections - 1;
      r := Streamed(frames);
    }

    /** From subscribing to the deferred cancel. */
    method Subscribed(bus: EventBus, id: Bus.Id, turns: seq<Turn>) returns (frames: seq<Frame>)
      requires bus.Unlocked() && id !in bus.made
      modifies bus, bus.made.Values
      ensures bus.Unlocked() && id !in bus.subscribers && bus.subscribers.Keys <= old(bus.subscribers.Keys)
      ensures frames == Served(bus.bufSize, turns).frames
      ensures id in bus.made && Payments(frames) == bus.made[id].taken
    {
      var ch := bus.Subscribe(id);
      assert ch.View().buf == [];
      frames := Stream(bus, id, ch, turns);
      ghost var was := bus.Subs();
      assert was[id] == ch.View();
      bus.Unsubscribe(id);
      assert bus.Subs()[id] == ch.View();
    }

    /** The loop, until the client is gone or the channel is closed and drained. */
    method Stream(bus: EventBus, id: Bus.Id, ch: Channel, turns: seq<Turn>) returns (frames: seq<Frame>)
      requires bus.Unlocked() && id in bus.made && bus.made[id] == ch
      requires ch.taken == ch.buf == [] && !ch.closed
      modifies bus, bus.made.Values
      ensures bus.Unlocked() && bus.made == old(bus.made)
      ensures bus.subscribers.Keys <= old(bus.subscribers.Keys)
      ensures frames == Served(bus.bufSize, turns).frames && Payments(frames) == ch.taken
    {
      frames := [Connected];
      PaymentsSnoc([], Connected);
      for i := 0 to |turns|
        invariant bus.Unlocked() && bus.made == old(bus.made)
        invariant bus.subscribers.Keys <= old(bus.subscribers.Keys)
        invariant Shows(Served(bus.bufSize, turns[..i]), frames, ch) && !Served(bus.bufSize, turns[..i]).over
      {
        ghost var l := Served(bus.bufSize, turns[..i]);
        assert turns[..i + 1][..i] == turns[..i];
        var over;
        frames, over := OneTurn(bus, id, ch, turns[i], frames, l);
        if over {
          OverStays(bus.bufSize, turns, i + 1);
          return;
        }
      }
      assert turns[..|turns|] == turns;
    }

    /** The handler and its channel are where this line says. */
    ghost predicate Shows(l: Line, frames: seq<Frame>, ch: Channel)
      reads ch
    {
      l.frames == frames && l.buf == ch.buf && l.closed == ch.closed && Payments(frames) == ch.taken
    }

    /** One round of the select, or one thing the bus does meanwhile. */
    method OneTurn(bus: EventBus, id: Bus.Id, ch: Channel, turn: Turn, frames: seq<Frame>, ghost l: Line)
        returns (frames': seq<Frame>, over: bool)
      requires bus.Unlocked() && id in bus.made && bus.made[id] == ch && Shows(l, frames, ch) && !l.over
      modifies bus, bus.made.Values
      ensures bus.Unlocked() && bus.made == old(bus.made) && bus.subscribers.Keys <= old(bus.subscribers.Keys)
      ensures Shows(OnTurn(bus.bufSize, l, turn), frames', ch) && over == OnTurn(bus.bufSize, l, turn).over
    {
      frames', over := frames, false;
      match turn
      case Published(e) =>
        frames' := Publish(bus, id, ch, e, frames, l);
      case BusCloses =>
        CloseBus(bus, id, ch);
      case EventReady =>
        if ch.buf != [] {
          var e := bus.Receive(id, ch);
          PaymentsSnoc(frames, Payment(e));
          frames' := frames + [Payment(e)];
        } else {
          over := ch.closed;
        }
      case TickerFires =>
        PaymentsSnoc(frames, Heartbeat);
        frames' := frames + [Heartbeat];
      case ClientGone =>
        over := true;
    }

    method CloseBus(bus: EventBus, id: Bus.Id, ch: Channel)
      requires bus.Unlocked() && id in bus.made && bus.made[id] == ch
      modifies bus, bus.made.Values
      ensures bus.Unlocked() && bus.made == old(bus.made) && bus.subscribers.Keys <= old(bus.subscribers.Keys)
      ensures ch.closed && ch.buf == old(ch.buf) && ch.taken == old(ch.taken)
    {
      ghost var was := bus.Subs();
      assert was[id] == ch.View();
      bus.OpenIsRegistered(id);
      bus.Close();
      assert bus.Subs()[id] == ch.View();
    }

    /** The bus dispatches while the handler waits: an unbuffered channel hands over at once. */
    method Publish(bus: EventBus, id: Bus.Id, ch: Channel, e: PaymentEvent, frames: seq<Frame>, ghost l: Line)
        returns (frames': seq<Frame>)
      requires bus.Unlocked() && id in bus.made && bus.made[id] == ch && Shows(l, frames, ch) && !l.over
      modifies bus, bus.made.Values
      ensures bus.Unlocked() && bus.made == old(bus.made) && bus.subscribers == old(bus.subscribers)
      ensures Shows(OnTurn(bus.bufSize, l, Published(e)), frames', ch)
    {
      ghost var was := bus.Subs();
      assert was[id] == ch.View();
      bus.OpenIsRegistered(id);
      var handed := bus.bufSize == 0 && id in bus.subscribers;
      bus.Dispatch(e, {id});
      assert bus.Subs()[id] == ch.View();
      frames' := frames;
      if handed {
        PaymentsSnoc(frames, Payment(e));
        frames' := frames + [Payment(e)];
      }
    }
  }
}
