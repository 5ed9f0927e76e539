/**
 internal/ui/events.go as it is written: a map of channels changed in place. Every method is proved
 to take the steps of the state machine in Bus, so what is proved of its runs holds of the object.
 */
module EventBuses {
  import opened Wrappers
  import opened Models
  import Bus

  /** A Go channel of events, with a history of what passed through it. */
  class Channel {
    const cap: nat
    var buf: seq<PaymentEvent>
    var closed: bool
    ghost var taken: seq<PaymentEvent>
    ghost var kept: seq<bool>
    ghost const since: nat
    ghost const id: Bus.Id

    constructor (cap: nat, ghost since: nat, ghost id: Bus.Id)
      ensures View() == Bus.Sub(true, [], [], [], since) && this.cap == cap && this.id == id
    {
      this.cap, this.since, this.id := cap, since, id;
      buf, closed, taken, kept := [], false, [], [];
    }

    ghost function View(): Bus.Sub
      reads this
    {
      Bus.Sub(!closed, buf, taken, kept, since)
    }

    /** select with a default case. Sending on a closed channel would panic. */
    method TrySend(e: PaymentEvent, ready: bool) returns (sent: bool)
      requires !closed && |buf| <= cap
      modifies this
      ensures View() == Bus.Offer(cap, old(View()), e, ready)
      ensures sent <==> |old(buf)| < cap || (cap == 0 && ready)
    {
      sent := |buf| < cap || (cap == 0 && ready);
      if |buf| < cap {
        buf := buf + [e];
      } else if sent {
        taken := taken + [e];
      }
      kept := kept + [sent];
    }

    /** Closing a closed channel would panic. */
    method Close()
      requires !closed
      modifies this
      ensures View() == old(View()).(open := false)
    {
      closed := true;
    }

    /** A receive that does not block: the next event, also from a closed channel until it is drained. */
    method Take() returns (e: PaymentEvent)
      requires buf != []
      modifies this
      ensures e == old(buf)[0]
      ensures View() == old(View()).(buf := old(buf)[1..], taken := old(taken) + [e])
    {
      e := buf[0];
      buf, taken := buf[1..], taken + [e];
    }
  }

  class EventBus {
    const bufSize: nat
    var subscribers: map<Bus.Id, Channel>
    var cancelled: bool

    ghost var made: map<Bus.Id, Channel>
    ghost var log: seq<PaymentEvent>
    ghost var dispatching: bool
    ghost var sending: set<Bus.Id>
    ghost var run: seq<Bus.Event>

    ghost function Subs(): map<Bus.Id, Bus.Sub>
      reads `made, made.Values
    {
      map id | id in made :: made[id].View()
    }

    ghost function View(): Bus.State
      reads `subscribers, `made, `log, `dispatching, `sending, made.Values
    {
      Bus.State(bufSize, Subs(), subscribers.Keys, log, dispatching, sending)
    }

    ghost predicate Wired()
      reads `subscribers, `made
    {
      && (forall id :: id in subscribers ==> id in made && subscribers[id] == made[id])
      && (forall id :: id in made ==> made[id].cap == bufSize && made[id].id == id)
    }

    /** The events taken so far lead from a new bus to what the fields show. */
    ghost predicate Valid()
      reads this, made.Values
    {
      Wired() && Bus.Run(bufSize, run) == Some(View())
    }

    ghost predicate Unlocked()
      reads this, made.Values
    {
      Valid() && !dispatching
    }

    constructor (bufSize: nat)
      ensures Unlocked() && this.bufSize == bufSize && run == [] && made == map[] && !cancelled
      ensures fresh(this)
    {
      this.bufSize := bufSize;
      subscribers, cancelled := map[], false;
      made, log, dispatching, sending, run := map[], [], false, {}, [];
      new;
      assert View() == Bus.Start(bufSize);
    }

    /** A channel is open exactly while it is in the map, and never over-full. */
    lemma OpenIsRegistered(id: Bus.Id)
      requires Valid() && id in made
      ensures !made[id].closed <==> id in subscribers
      ensures |made[id].buf| <= bufSize
    {
      Bus.InvAlways(bufSize, run);
      assert View().subs[id] == made[id].View();
      assert Bus.StreamOk(View(), View().subs[id]);
    }

    ghost method Took(b: Bus.State, ev: Bus.Event)
      requires Wired() && Bus.Run(bufSize, run) == Some(b)
      requires Bus.Possible(b, ev) && View() == Bus.Step(b, ev)
      modifies this`run
      ensures Valid() && run == old(run) + [ev]
    {
      assert (run + [ev])[..|run|] == run;
      run := run + [ev];
    }

    /** Register a channel under a fresh id. */
    method Subscribe(id: Bus.Id) returns (ch: Channel)
      requires Unlocked() && id !in made
      modifies this
      ensures Unlocked() && run == old(run) + [Bus.Subscribe(id)]
      ensures made == old(made)[id := ch] && subscribers == old(subscribers)[id := ch] && fresh(ch)
      ensures ch.View() == Bus.Sub(true, [], [], [], |log|)
      ensures log == old(log) && cancelled == old(cancelled)
    {
      ghost var b := View();
      ch := Add(id);
      Took(b, Bus.Subscribe(id));
    }

    method Add(id: Bus.Id) returns (ch: Channel)
      requires Wired() && id !in made
      modifies `subscribers, `made
      ensures Wired() && fresh(ch) && made == old(made)[id := ch] && subscribers == old(subscribers)[id := ch]
      ensures View() == Bus.Subscribed(old(View()), id)
      ensures ch.View() == Bus.Sub(true, [], [], [], |log|)
    {
      ghost var b := View();
      ch := new Channel(bufSize, |log|, id);
      subscribers := subscribers[id := ch];
      made := made[id := ch];
      assert Subs() == b.subs[id := ch.View()];
      assert subscribers.Keys == b.registered + {id};
    }

    method CloseOne(id: Bus.Id)
      requires Wired() && id in subscribers && !subscribers[id].closed
      modifies subscribers[id]
      ensures Subs() == old(Subs())[id := old(Subs())[id].(open := false)]
    {
      ghost var was := Subs();
      subscribers[id].Close();
      assert Subs() == was[id := was[id].(open := false)];
    }

    /** The returned closure. It can be called again, also after Close. */
    method Unsubscribe(id: Bus.Id)
      requires Unlocked()
      modifies this, made.Values
      ensures Unlocked() && run == old(run) + [Bus.Unsubscribe(id)]
      ensures made == old(made) && subscribers == old(subscribers) - {id}
      ensures log == old(log) && cancelled == old(cancelled)
      ensures Subs() == if id in old(subscribers) then old(Subs())[id := old(Subs())[id].(open := false)] else old(Subs())
    {
      ghost var b := View();
      if id in subscribers {
        Bus.ChannelReady(bufSize, run, id);
        assert b.subs[id] == made[id].View();
        CloseOne(id);
        subscribers := subscribers - {id};
        assert View().registered == b.registered - {id};
      } else {
        assert subscribers - {id} == subscribers;
      }
      Took(b, Bus.Unsubscribe(id));
    }

    /** Close every channel and empty the map, visiting it in any order. */
    method Close()
      requires Unlocked()
      modifies this, made.Values
      ensures Unlocked() && run == old(run) + [Bus.Close]
      ensures made == old(made) && subscribers == map[] && cancelled
      ensures log == old(log)
      ensures Subs() == Bus.ShutSome(old(Subs()), old(subscribers.Keys))
    {
      ghost var b := View();
      cancelled := true;
      CloseAll(b);
      Took(b, Bus.Close);
    }

    /** The loop of Close. */
    method CloseAll(ghost b: Bus.State)
      requires Valid() && b == View()
      modifies `subscribers, made.Values
      ensures Wired() && subscribers == map[]
      ensures Subs() == Bus.ShutSome(b.subs, b.registered)
    {
      ghost var all := subscribers.Keys;
      forall id | id in all
        ensures id in b.subs && b.subs[id].open
      {
        Bus.ChannelReady(bufSize, run, id);
      }
      assert all - subscribers.Keys == {};
      assert Subs() == Bus.ShutSome(b.subs, {});
      while subscribers != map[]
        invariant Wired() && subscribers.Keys <= all
        invariant Subs() == Bus.ShutSome(b.subs, all - subscribers.Keys)
        decreases subscribers.Keys
      {
        CloseNext(b, all);
      }
      assert all - subscribers.Keys == all;
    }

    method CloseNext(ghost b: Bus.State, ghost all: set<Bus.Id>)
      requires Wired() && subscribers != map[] && subscribers.Keys <= all <= b.subs.Keys
      requires forall id :: id in all ==> b.subs[id].open
      requires Subs() == Bus.ShutSome(b.subs, all - subscribers.Keys)
      modifies `subscribers, made.Values
      ensures Wired() && subscribers.Keys < old(subscribers.Keys)
      ensures Subs() == Bus.ShutSome(b.subs, all - subscribers.Keys)
    {
      var id :| id in subscribers;
      Bus.ShutOneMore(b.subs, all - subscribers.Keys, id);
      assert made[id].View() == Subs()[id] == b.subs[id];
      CloseOne(id);
      assert (all - subscribers.Keys) + {id} == all - (subscribers - {id}).Keys;
      subscribers := subscribers - {id};
    }

    /**
     One event from Redis: offered once to every registered channel, in any order, without
     blocking. ready are the clients waiting in a receive, which matters for unbuffered channels.
     */
    method Dispatch(e: PaymentEvent, ready: set<Bus.Id>)
      requires Unlocked()
      modifies this, made.Values
      ensures Unlocked() && made == old(made) && subscribers == old(subscribers)
      ensures log == old(log) + [e] && cancelled == old(cancelled)
      ensures Subs() == Bus.OfferSome(bufSize, old(Subs()), subscribers.Keys, e, ready)
    {
      RLock(e);
      OfferAll(e, ready);
      RUnlock();
    }

    method RLock(ghost e: PaymentEvent)
      requires Unlocked()
      modifies `log, `dispatching, `sending, `run
      ensures Valid() && dispatching && sending == subscribers.Keys
      ensures log == old(log) + [e] && Subs() == old(Subs())
    {
      ghost var b := View();
      log, dispatching, sending := log + [e], true, subscribers.Keys;
      Took(b, Bus.Begin(e));
    }

    method RUnlock()
      requires Valid() && dispatching && sending == {}
      modifies `dispatching, `run
      ensures Unlocked() && Subs() == old(Subs())
    {
      ghost var b := View();
      dispatching := false;
      Took(b, Bus.End);
    }

    /** The loop over the map. */
    method OfferAll(e: PaymentEvent, ready: set<Bus.Id>)
      requires Valid() && dispatching && sending == subscribers.Keys && log != [] && log[|log| - 1] == e
      modifies `sending, `run, made.Values
      ensures Valid() && sending == {}
      ensures Subs() == Bus.OfferSome(bufSize, old(Subs()), subscribers.Keys, e, ready)
    {
      ghost var subs := Subs();
      var todo := subscribers.Keys;
      assert subscribers.Keys - todo == {};
      assert Subs() == Bus.OfferSome(bufSize, subs, {}, e, ready);
      while todo != {}
        invariant Valid() && sending == todo <= subscribers.Keys
        invariant Subs() == Bus.OfferSome(bufSize, subs, subscribers.Keys - todo, e, ready)
        decreases todo
      {
        todo := OfferNext(subs, todo, e, ready);
      }
      assert subscribers.Keys - todo == subscribers.Keys;
    }

    method OfferNext(ghost subs: map<Bus.Id, Bus.Sub>, todo: set<Bus.Id>, e: PaymentEvent, ready: set<Bus.Id>)
        returns (left: set<Bus.Id>)
      requires Valid() && dispatching && sending == todo <= subscribers.Keys && todo != {}
      requires log != [] && log[|log| - 1] == e && subscribers.Keys <= subs.Keys
      requires Subs() == Bus.OfferSome(bufSize, subs, subscribers.Keys - todo, e, ready)
      modifies `sending, `run, made.Values
      ensures Valid() && sending == left < todo
      ensures Subs() == Bus.OfferSome(bufSize, subs, subscribers.Keys - left, e, ready)
    {
      var id :| id in todo;
      left := todo - {id};
      Bus.OfferOneMore(bufSize, subs, subscribers.Keys - todo, id, e, ready);
      assert (subscribers.Keys - todo) + {id} == subscribers.Keys - left;
      OfferOne(id, e, id in ready);
    }

    /** The select of the dispatch loop, for one subscriber. */
    method OfferOne(id: Bus.Id, e: PaymentEvent, ready: bool)
      requires Valid() && dispatching && id in sending && id in subscribers
      requires log != [] && log[|log| - 1] == e
      modifies `sending, `run, subscribers[id]
      ensures Valid() && sending == old(sending) - {id}
      ensures run == old(run) + [Bus.Send(id, ready)]
      ensures Subs() == old(Subs())[id := Bus.Offer(bufSize, old(Subs())[id], e, ready)]
    {
      ghost var b := View();
      OpenIsRegistered(id);
      SendAndDrop(id, e, ready);
      Took(b, Bus.Send(id, ready));
    }

    /** The channel is offered the event, and the dispatch is done with it. */
    method SendAndDrop(id: Bus.Id, e: PaymentEvent, ready: bool)
      requires Wired() && id in subscribers && !subscribers[id].closed && |subscribers[id].buf| <= bufSize
      requires log != [] && log[|log| - 1] == e
      modifies `sending, subscribers[id]
      ensures Wired() && sending == old(sending) - {id} && View() == Bus.Sent(old(View()), id, ready)
      ensures Subs() == old(Subs())[id := Bus.Offer(bufSize, old(Subs())[id], e, ready)]
    {
      SendTo(id, e, ready);
      sending := sending - {id};
    }

    method SendTo(id: Bus.Id, e: PaymentEvent, ready: bool)
      requires Wired() && id in subscribers && !subscribers[id].closed && |subscribers[id].buf| <= bufSize
      modifies subscribers[id]
      ensures Subs() == old(Subs())[id := Bus.Offer(bufSize, old(Subs())[id], e, ready)]
    {
      ghost var subs := Subs();
      assert subs[id] == made[id].View();
      var sent := subscribers[id].TrySend(e, ready);
      assert Subs() == subs[id := Bus.Offer(bufSize, subs[id], e, ready)];
    }

    /** A client takes the next event from the channel Subscribe gave it, whatever the bus is doing. */
    method Receive(ghost id: Bus.Id, ch: Channel) returns (e: PaymentEvent)
      requires Valid() && id in made && made[id] == ch && ch.buf != []
      modifies this`run, ch
      ensures Valid() && run == old(run) + [Bus.Receive(id)]
      ensures e == old(ch.buf)[0] && ch.taken == old(ch.taken) + [e]
      ensures ch.buf == old(ch.buf)[1..] && ch.closed == old(ch.closed)
    {
      ghost var b := View();
      assert b.subs[id] == ch.View();
      e := ch.Take();
      assert Subs() == Bus.Step(b, Bus.Receive(id)).subs;
      Took(b, Bus.Receive(id));
    }
  }
}
