/** How often a message published on an out topic reaches the registered session.  Every live
    subscription hands it on, and each handler looks the session up by id; so it arrives
    once exactly when nobody but closing threads still holds a session of that id. */
module GatewayDelivery {
  import opened Wrappers
  import opened Topics
  import opened GatewayProtocol
  import opened GatewayDisconnect

  /** A thread between the subscription of a session of `cp` and its unsubscription. */
  ghost predicate InTransition(s: Gate, cp: string) {
    exists t, c :: Holds(s, t, c) && c in s.conns && s.conns[c].chargePointID == cp && !s.work[t].Closing?
  }

  ghost predicate OneSubscription(s: Gate, cp: string) {
    forall h, k :: OnOutTopic(s, h, cp) && OnOutTopic(s, k, cp) ==> h == k
  }

  /** The session of a live subscription on the topic is of that id. */
  lemma SubscriptionOwner(s: Gate, h: nat, cp: string)
    requires Inv(s) && OnOutTopic(s, h, cp)
    ensures var c := s.subs[h].of;
            && c in s.conns && s.conns[c].handle == h && Live(s, c) && s.conns[c].chargePointID == cp
            && s.subs[h] == Subscription(OutTopic(cp), cp, c)
  {
    var c := s.subs[h].of;
    assert SubscriptionOk(s, h) && SessionOk(s, c);
    TopicsAreInjective(s.conns[c].chargePointID, cp);
  }

  lemma LiveIsOnTopic(s: Gate, c: nat)
    requires Inv(s) && c in s.conns && Live(s, c)
    ensures OnOutTopic(s, s.conns[c].handle, s.conns[c].chargePointID)
  {
    assert SessionOk(s, c);
  }

  lemma ThreadOwned(s: Gate, c: nat)
    requires Inv(s) && c in s.conns && Live(s, c) && s.conns[c].owner.Thread?
    ensures InTransition(s, s.conns[c].chargePointID)
  {
    assert SessionOk(s, c);
    assert Holds(s, s.conns[c].owner.t, c);
  }

  /** In every reachable state with a registered session: its subscription is the only live one on its
      out topic exactly when every thread that holds a session of the id has unsubscribed it. */
  lemma OneSubscriptionExactly(ss: seq<Gate>, steps: seq<Step>, i: nat, cp: string)
    requires IsRun(ss, steps) && i < |ss| && cp in ss[i].table
    ensures OneSubscription(ss[i], cp) <==> !InTransition(ss[i], cp)
  {
    RunKeeps(ss, steps, i);
    OneInvExactly(ss[i], cp);
  }

  lemma OneInvExactly(s: Gate, cp: string)
    requires Inv(s) && cp in s.table
    ensures OneSubscription(s, cp) <==> !InTransition(s, cp)
  {
    var d := s.table[cp];
    RegisteredIsOwned(s, cp);
    LiveIsOnTopic(s, d);
    if t, c :| Holds(s, t, c) && c in s.conns && s.conns[c].chargePointID == cp && !s.work[t].Closing? {
      HolderOwns(s, t);
      LiveIsOnTopic(s, c);
      OwnHandle(s, c);
      assert s.conns[c].handle != s.conns[d].handle;
    }
    if !InTransition(s, cp) {
      forall h | OnOutTopic(s, h, cp) ensures h == s.conns[d].handle {
        SubscriptionOwner(s, h, cp);
        var c := s.subs[h].of;
        assert SessionOk(s, c);
        if s.conns[c].owner.Thread? {
          ThreadOwned(s, c);
          assert false;
        }
      }
    }
  }

  /** One message, handed on by two subscriptions, is twice in the queue of the registered session. */
  ghost predicate Twice(s: Gate, cp: string, h: nat, k: nat, a: nat, b: nat, payload: string) {
    && h != k && a != b && cp in s.table && s.table[cp] in s.conns
    && Can(s, Deliver(a, h, payload))
    && var s1 := Next(s, Deliver(a, h, payload));
       && Can(s1, Deliver(b, k, payload))
       && var s2 := Next(Next(Next(s1, Deliver(b, k, payload)), LookUp(a)), LookUp(b));
          && Can(s2, Enqueue(a)) && Can(Next(s2, Enqueue(a)), Enqueue(b))
          && var s3 := Next(Next(s2, Enqueue(a)), Enqueue(b));
             && s.table[cp] in s3.conns
             && s3.conns[s.table[cp]].outbound
                == s.conns[s.table[cp]].outbound + [Frame(OutTopic(cp), payload), Frame(OutTopic(cp), payload)]
  }

  ghost predicate Room(s: Gate, cp: string) {
    cp in s.table && s.table[cp] in s.conns && |s.conns[s.table[cp]].outbound| + 2 <= QUEUE
  }

  lemma TwoHandlesDeliverTwice(s: Gate, cp: string, h: nat, k: nat, a: nat, b: nat, payload: string)
    requires Inv(s) && Room(s, cp) && h != k && OnOutTopic(s, h, cp) && OnOutTopic(s, k, cp)
    requires a !in s.work && b !in s.work && a != b
    ensures Twice(s, cp, h, k, a, b, payload)
  {
    SubscriptionOwner(s, h, cp);
    SubscriptionOwner(s, k, cp);
    var d := s.table[cp];
    var f := Frame(OutTopic(cp), payload);
    assert s.conns[d].outbound + [f] + [f] == s.conns[d].outbound + [f, f];
  }

  /** What is twice in the queue came through subscriptions on the topic. */
  lemma TwiceMeansTwoHandles(s: Gate, cp: string, h: nat, k: nat, a: nat, b: nat, payload: string)
    requires Inv(s) && Twice(s, cp, h, k, a, b, payload)
    ensures OnOutTopic(s, h, cp) && OnOutTopic(s, k, cp)
  {
    var d := s.table[cp];
    assert SubscriptionOk(s, h) && SubscriptionOk(s, k);
    assert SessionOk(s, s.subs[h].of) && SessionOk(s, s.subs[k].of);
    var f, g := Frame(s.subs[h].topic, payload), Frame(s.subs[k].topic, payload);
    var s1 := Next(s, Deliver(a, h, payload));
    var s2 := Next(Next(Next(s1, Deliver(b, k, payload)), LookUp(a)), LookUp(b));
    var s3 := Next(Next(s2, Enqueue(a)), Enqueue(b));
    var n := |s.conns[d].outbound|;
    assert |s3.conns[d].outbound| == n + 2;
    assert s3.conns[d].outbound[n] == f && s3.conns[d].outbound[n + 1] == g;
  }

  lemma TwoThreads(s: Gate) returns (a: nat, b: nat)
    ensures a !in s.work && b !in s.work && a != b
  {
    a := Beyond(s.work.Keys);
    assert a !in s.work.Keys && a + 1 !in s.work.Keys;
    b := a + 1;
  }

  lemma {:induction false} Beyond(busy: set<nat>) returns (t: nat)
    ensures forall u :: u in busy ==> u < t
    decreases |busy|
  {
    t := 0;
    if u: nat :| u in busy {
      var rest := busy - {u};
      var r := Beyond(rest);
      t := if r <= u then u + 1 else r;
      forall v | v in busy ensures v < t {
        assert v == u || v in rest;
      }
    }
  }

  /** In every reachable state with a registered session that has room for two: a message can be
      delivered to it twice exactly while some thread holds a session of the id that it has
      not unsubscribed, before its swap or after. */
  lemma DeliveredTwiceExactly(ss: seq<Gate>, steps: seq<Step>, i: nat, cp: string, payload: string)
    requires IsRun(ss, steps) && i < |ss| && Room(ss[i], cp)
    ensures (exists h, k, a, b :: Twice(ss[i], cp, h, k, a, b, payload)) <==> InTransition(ss[i], cp)
  {
    RunKeeps(ss, steps, i);
    var s := ss[i];
    OneInvExactly(s, cp);
    if h, k, a, b :| Twice(s, cp, h, k, a, b, payload) {
      TwiceMeansTwoHandles(s, cp, h, k, a, b, payload);
    }
    if h, k :| OnOutTopic(s, h, cp) && OnOutTopic(s, k, cp) && h != k {
      var a, b := TwoThreads(s);
      TwoHandlesDeliverTwice(s, cp, h, k, a, b, payload);
    }
  }

  /** A registered session and another being registered. */
  lemma ReplacementBegins(cp: string) returns (s: Gate)
    ensures Arises(s) && Inv(s) && s.work == map[0 := Registering(1)] && Room(s, cp) && s.table[cp] == 0
    ensures 1 in s.conns && s.conns[1].chargePointID == cp && s.conns[1].outbound == []
    ensures OnOutTopic(s, 0, cp) && OnOutTopic(s, 1, cp)
  {
    var s0 := Gate(map[], map[], map[], map[]);
    var ss, steps: seq<Step> := [s0], [];
    assert IsRun(ss, steps) && ss[|steps|] == s0;
    var s1 := ConnectAlone(s0, cp, 0, 0);
    ArisesNext(s1, Subscribe(0, cp, 1, 1));
    s := Next(s1, Subscribe(0, cp, 1, 1));
    RegisteredIsOwned(s, cp);
    LiveIsOnTopic(s, 0);
  }

  /** The replaced session is out of the map and not yet unsubscribed. */
  lemma ReplacementSwaps(cp: string) returns (s: Gate)
    ensures Arises(s) && Inv(s) && s.work == map[0 := Leaving(0)] && Room(s, cp)
    ensures OnOutTopic(s, 0, cp) && OnOutTopic(s, 1, cp)
  {
    var s1 := ReplacementBegins(cp);
    ArisesNext(s1, Swap(0));
    s := Next(s1, Swap(0));
  }

  /** Subscribe, swap, subscribe: the next message comes twice; and after the second swap it still does. */
  lemma ReplacementDeliversTwice(cp: string, payload: string)
    ensures exists s :: Arises(s) && 0 in s.work && s.work[0].Registering? && Twice(s, cp, 0, 1, 1, 2, payload)
    ensures exists s :: Arises(s) && 0 in s.work && s.work[0].Leaving? && Twice(s, cp, 0, 1, 1, 2, payload)
  {
    var s2 := ReplacementBegins(cp);
    TwoHandlesDeliverTwice(s2, cp, 0, 1, 1, 2, payload);
    var s3 := ReplacementSwaps(cp);
    TwoHandlesDeliverTwice(s3, cp, 0, 1, 1, 2, payload);
  }
}
