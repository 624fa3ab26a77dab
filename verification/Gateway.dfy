/** The gateway one call at a time: broker, registry and the three entry points.
    `GatewayProtocol` covers calls that overlap. */
module Gateway {
  import opened Wrappers
  import opened Topics

  const QUEUE: nat := 64

  datatype Subscription = Subscription(topic: string, chargePointID: string)

  datatype Message = Message(topic: string, payload: string)

  class Broker {
    var subs: map<nat, Subscription>
    var nextHandle: nat
    var published: seq<Message>

    constructor ()
      ensures subs == map[] && published == [] && nextHandle == 0
    {
      subs, published, nextHandle := map[], [], 0;
    }

    /** Every subscription has a handle of its own. */
    method Subscribe(topic: string, id: string) returns (h: nat)
      modifies this
      ensures h == old(nextHandle) && nextHandle == h + 1 && published == old(published)
      ensures subs == old(subs)[h := Subscription(topic, id)]
    {
      h := nextHandle;
      nextHandle := h + 1;
      subs := subs[h := Subscription(topic, id)];
    }
  }

  class Connection {
    const chargePointID: string
    var unsubscribe: Option<nat>
    var ready: bool
    var outbound: seq<string>
    var done: bool       // CloseOnce has run
    var closed: bool

    constructor (id: string, handle: Option<nat>)
      ensures chargePointID == id && unsubscribe == handle && !ready && outbound == [] && !done && !closed
    {
      chargePointID, unsubscribe, ready, outbound, done, closed := id, handle, false, [], false, false;
    }
  }

  class Gate {
    const broker: Broker
    var conns: map<string, Connection>

    function Sessions(): set<Connection> reads this { set id | id in conns :: conns[id] }

    /** A registered session: kept under its own id, open, with a subscription of its own on
        its out topic. */
    predicate SessionOk(id: string)
      requires id in conns
      reads this, broker, Sessions()
    {
      && conns[id].chargePointID == id && conns[id].ready && !conns[id].done && !conns[id].closed
      && |conns[id].outbound| <= QUEUE && conns[id].unsubscribe.Some?
      && conns[id].unsubscribe.value in broker.subs
      && broker.subs[conns[id].unsubscribe.value] == Subscription(OutTopic(id), id)
    }

    /** The live subscriptions are the registered sessions', but for `pending`. */
    ghost predicate ValidBut(pending: set<nat>)
      reads this, broker, Sessions()
    {
      && (forall id :: id in conns ==> SessionOk(id) && conns[id].unsubscribe.value !in pending)
      && (forall h :: h in broker.subs ==> h < broker.nextHandle)
      && (forall h :: h in broker.subs && h !in pending ==>
            broker.subs[h].chargePointID in conns && conns[broker.subs[h].chargePointID].unsubscribe == Some(h))
    }

    ghost predicate Valid()
      reads this, broker, Sessions()
    {
      ValidBut({})
    }

    constructor (b: Broker)
      requires b.subs == map[]
      ensures Valid() && broker == b && conns == map[]
    {
      broker, conns := b, map[];
    }

    method Lookup(id: string) returns (c: Option<Connection>)
      ensures c == if id in conns then Some(conns[id]) else None
    {
      c := if id in conns then Some(conns[id]) else None;
    }

    /** `CloseOnce.Do`: the second time nothing happens. */
    method Close(c: Connection)
      modifies c, broker
      ensures c.done && c.outbound == old(c.outbound) && c.ready == old(c.ready) && c.unsubscribe == old(c.unsubscribe)
      ensures c.closed == (old(c.closed) || !old(c.done))
      ensures broker.subs == if old(c.done) || c.unsubscribe.None? then old(broker.subs) else old(broker.subs) - {c.unsubscribe.value}
      ensures broker.nextHandle == old(broker.nextHandle) && broker.published == old(broker.published)
    {
      if !c.done {
        c.done := true;
        if c.unsubscribe.Some? {
          broker.subs := broker.subs - {c.unsubscribe.value};
        }
        c.closed := true;
      }
    }

    /** The session replaced is closed and detached; every other one is left alone. */
    method Register(c: Connection)
      requires c !in Sessions() && !c.done && !c.closed && c.unsubscribe.Some? && c.outbound == []
      requires c.unsubscribe.value in broker.subs
      requires broker.subs[c.unsubscribe.value] == Subscription(OutTopic(c.chargePointID), c.chargePointID)
      requires ValidBut({c.unsubscribe.value})
      modifies this, c, broker, Sessions()
      ensures Valid()
      ensures conns == old(conns)[c.chargePointID := c] && c.unsubscribe == old(c.unsubscribe) && c.outbound == []
      ensures c.chargePointID in old(conns) ==> var was := old(conns)[c.chargePointID];
                was.closed && broker.subs == old(broker.subs) - {old(was.unsubscribe.value)}
      ensures c.chargePointID !in old(conns) ==> broker.subs == old(broker.subs)
      ensures broker.nextHandle == old(broker.nextHandle) && broker.published == old(broker.published)
      ensures forall id :: id in old(conns) && id != c.chargePointID ==> unchanged(old(conns)[id])
    {
      var id := c.chargePointID;
      var existing := if id in conns then Some(conns[id]) else None;
      assert existing.Some? ==> SessionOk(id);
      forall k | k in conns && k != id ensures existing.Some? ==> conns[k] != existing.value {
        assert SessionOk(k);
      }
      c.ready := true;
      conns := conns[id := c];
      if existing.Some? {
        Close(existing.value);
      }
      forall k | k in conns ensures SessionOk(k) {
        assert k != id ==> old(SessionOk(k));
      }
    }

    method NewSession(id: string) returns (c: Connection)
      requires Valid()
      modifies broker
      ensures fresh(c) && c.chargePointID == id && c.unsubscribe.Some? && !c.done && !c.closed && c.outbound == []
      ensures c.unsubscribe.value !in old(broker.subs) && broker.published == old(broker.published)
      ensures broker.subs == old(broker.subs)[c.unsubscribe.value := Subscription(OutTopic(id), id)]
      ensures ValidBut({c.unsubscribe.value})
    {
      var h := broker.Subscribe(OutTopic(id), id);
      forall k | k in conns ensures SessionOk(k) && conns[k].unsubscribe.value != h {
        assert old(SessionOk(k));
      }
      c := new Connection(id, Some(h));
    }

    method Connect(id: string, reachable: bool) returns (r: Result<Connection>)
      requires Valid()
      modifies this, broker, Sessions()
      ensures Valid() && broker.published == old(broker.published)
      ensures r.Ok? <==> reachable
      ensures r.Err? ==> conns == old(conns) && broker.subs == old(broker.subs)
      ensures r.Ok? ==> fresh(r.value) && conns == old(conns)[id := r.value] && r.value.outbound == []
      ensures forall k :: k in old(conns) && (r.Err? || k != id) ==> unchanged(old(conns)[k])
      ensures r.Ok? && id in old(conns) ==> old(conns)[id].closed
    {
      if !reachable {
        return Err("subscribe");
      }
      var conn := NewSession(id);
      Register(conn);
      return Ok(conn);
    }

    /** Nothing happens for an id without a session; otherwise whichever session is current goes. */
    method Disconnect(id: string)
      requires Valid()
      modifies this, broker, Sessions()
      ensures Valid() && conns == old(conns) - {id} && broker.published == old(broker.published)
      ensures id !in old(conns) ==> broker.subs == old(broker.subs)
      ensures id in old(conns) ==> old(conns)[id].closed && broker.subs == old(broker.subs) - {old(conns[id].unsubscribe.value)}
      ensures forall k :: k in old(conns) && k != id ==> unchanged(old(conns)[k])
    {
      if id !in conns {
        return;
      }
      var c := conns[id];
      assert SessionOk(id);
      forall k | k in conns && k != id ensures conns[k] != c {
        assert SessionOk(k);
      }
      conns := conns - {id};
      Close(c);
      forall k | k in conns ensures SessionOk(k) {
        assert old(SessionOk(k));
      }
    }

    method PublishInbound(id: string, payload: string, reachable: bool) returns (r: Result<()>)
      requires Valid()
      modifies broker
      ensures Valid() && broker.subs == old(broker.subs)
      ensures r.Ok? <==> id in conns && reachable
      ensures broker.published == old(broker.published) + if r.Ok? then [Message(InTopic(id), payload)] else []
    {
      var c := Lookup(id);
      if c.None? {
        return Err("charge point not registered");
      }
      if !reachable {
        return Err("publish");
      }
      broker.published := broker.published + [Message(InTopic(id), payload)];
      return Ok(());
    }

    /** The handler of subscription `h`.  With a full queue it would wait, so nothing has
        happened yet. */
    method Delivered(h: nat, payload: string) returns (sent: bool)
      requires Valid() && h in broker.subs
      modifies Sessions()
      ensures Valid() && broker.subs[h].chargePointID in conns
      ensures var c := conns[broker.subs[h].chargePointID];
              && broker.subs[h].topic == OutTopic(c.chargePointID)
              && (sent <==> |old(c.outbound)| < QUEUE)
              && c.outbound == old(c.outbound) + if sent then [payload] else []
      ensures forall k :: k in conns && k != broker.subs[h].chargePointID ==> unchanged(conns[k])
    {
      var found := Lookup(broker.subs[h].chargePointID);
      var c := found.value;
      assert SessionOk(c.chargePointID);
      forall k | k in conns && k != c.chargePointID ensures conns[k] != c {
        assert SessionOk(k);
      }
      sent := |c.outbound| < QUEUE;
      if sent {
        c.outbound := c.outbound + [payload];
      }
      forall k | k in conns ensures SessionOk(k) {
        assert old(SessionOk(k));
      }
    }
  }
}
