/** The session registry under concurrency.  `Connect` subscribes, swaps the registry entry
    under the lock, then closes the session it replaced; `Disconnect` removes under the
    lock, then closes; a delivery looks the session up, then sends.  Any number of
    these calls interleave step by step.  Every subscription has its own handle, as the
    `Broker` interface promises. */
module GatewayProtocol {
  import opened Wrappers
  import opened Topics

  datatype Once = Fresh | Running | Finished

  datatype Frame = Frame(topic: string, payload: string)

  const QUEUE: nat := 64

  /** History: who looks after a session. */
  datatype Owner = Table | Thread(t: nat) | Nobody

  /** `ready` is whether the channels have been made.  The two counters are how often
      the unsubscribe function and `close(closed)` have run; `returned` is whether the
      handler that made the connection has returned (history). */
  datatype Connection = Connection(
    chargePointID: string, handle: nat, ready: bool, once: Once,
    unsubscribes: nat, closes: nat, outbound: seq<Frame>, owner: Owner, returned: bool)

  /** The handler knows the charge point id only; `of`, the connection it was made for, is history. */
  datatype Subscription = Subscription(topic: string, chargePointID: string, of: nat)

  /** Where a call stands. */
  datatype Work =
    | Registering(c: nat)           // subscribed, before the swap
    | Leaving(c: nat)               // out of the map, before CloseOnce
    | Unsubscribing(c: nat)         // inside CloseOnce
    | Closing(c: nat)               // unsubscribed, before close(closed)
    | LookingUp(chargePointID: string, frame: Frame)
    | Sending(to: nat, frame: Frame)

  datatype Gate = Gate(
    conns: map<nat, Connection>,
    table: map<string, nat>,
    subs: map<nat, Subscription>,
    work: map<nat, Work>)

  datatype Step =
    | Subscribe(t: nat, cp: string, c: nat, handle: nat)
    | Swap(t: nat)
    | Remove(t: nat, cp: string)              // Disconnect, from anywhere
    | HandlerReturns(t: nat, c: nat)          // the deferred Disconnect of the handler that made `c`
    | BeginOnce(t: nat)
    | Unsubscribe(t: nat)
    | CloseChannel(t: nat)
    | Deliver(t: nat, handle: nat, payload: string)
    | LookUp(t: nat)
    | Enqueue(t: nat)
    | Drop(t: nat)
    | Drain(c: nat)

  function Held(w: Work): Option<nat> {
    match w
    case Registering(c) => Some(c)
    case Leaving(c) => Some(c)
    case Unsubscribing(c) => Some(c)
    case Closing(c) => Some(c)
    case _ => None
  }

  /** The registry key of the session a thread is about to register. */
  function Entry(s: Gate, t: nat): string
    requires t in s.work && s.work[t].Registering? && s.work[t].c in s.conns
  {
    s.conns[s.work[t].c].chargePointID
  }

  /** A new connection and a new subscription are fresh; a thread blocks in `Once.Do` while
      another runs it, and in the send while the queue is full and the session open. */
  ghost predicate Can(s: Gate, step: Step) {
    match step
    case Subscribe(t, _, c, h) => t !in s.work && c !in s.conns && forall d :: d in s.conns ==> s.conns[d].handle != h
    case Swap(t) => t in s.work && s.work[t].Registering? && s.work[t].c in s.conns
                    && (Entry(s, t) in s.table ==> s.table[Entry(s, t)] in s.conns)
    case Remove(t, cp) => t !in s.work && (cp in s.table ==> s.table[cp] in s.conns)
    case HandlerReturns(t, c) =>
      && t !in s.work && c in s.conns && s.conns[c].ready && !s.conns[c].returned
      && (s.conns[c].chargePointID in s.table ==> s.table[s.conns[c].chargePointID] in s.conns)
    case BeginOnce(t) => t in s.work && s.work[t].Leaving? && s.work[t].c in s.conns && s.conns[s.work[t].c].once != Running
    case Unsubscribe(t) => t in s.work && s.work[t].Unsubscribing? && s.work[t].c in s.conns
    case CloseChannel(t) => t in s.work && s.work[t].Closing? && s.work[t].c in s.conns
    case Deliver(t, h, _) => t !in s.work && h in s.subs
    case LookUp(t) => t in s.work && s.work[t].LookingUp?
    case Enqueue(t) => t in s.work && s.work[t].Sending? && s.work[t].to in s.conns && |s.conns[s.work[t].to].outbound| < QUEUE
    case Drop(t) => t in s.work && s.work[t].Sending? && s.work[t].to in s.conns && s.conns[s.work[t].to].closes > 0
    case Drain(c) => c in s.conns && s.conns[c].outbound != []
  }

  ghost function Next(s: Gate, step: Step): Gate
    requires Can(s, step)
  {
    match step
    case Subscribe(t, cp, c, h) =>
      s.(conns := s.conns[c := Connection(cp, h, false, Fresh, 0, 0, [], Thread(t), false)],
         subs := s.subs[h := Subscription(OutTopic(cp), cp, c)],
         work := s.work[t := Registering(c)])
    case Swap(t) =>
      var c := s.work[t].c;
      var cp := Entry(s, t);
      var installed := s.(conns := s.conns[c := s.conns[c].(ready := true, owner := Table)], table := s.table[cp := c]);
      if cp in s.table then TakenOut(installed, t, s.table[cp]) else installed.(work := s.work - {t})
    case Remove(t, cp) => Disconnected(s, t, cp)
    case HandlerReturns(t, c) =>
      Disconnected(s.(conns := s.conns[c := s.conns[c].(returned := true)]), t, s.conns[c].chargePointID)
    case BeginOnce(t) =>
      var c := s.work[t].c;
      if s.conns[c].once == Fresh
      then s.(conns := s.conns[c := s.conns[c].(once := Running)], work := s.work[t := Unsubscribing(c)])
      else s.(work := s.work - {t})
    case Unsubscribe(t) =>
      var c := s.work[t].c;
      s.(conns := s.conns[c := s.conns[c].(unsubscribes := s.conns[c].unsubscribes + 1)],
         subs := s.subs - {s.conns[c].handle},
         work := s.work[t := Closing(c)])
    case CloseChannel(t) =>
      var c := s.work[t].c;
      s.(conns := s.conns[c := s.conns[c].(closes := s.conns[c].closes + 1, once := Finished, owner := Nobody)],
         work := s.work - {t})
    case Deliver(t, h, payload) =>
      s.(work := s.work[t := LookingUp(s.subs[h].chargePointID, Frame(s.subs[h].topic, payload))])
    case LookUp(t) =>
      var cp := s.work[t].chargePointID;
      if cp in s.table then s.(work := s.work[t := Sending(s.table[cp], s.work[t].frame)]) else s.(work := s.work - {t})
    case Enqueue(t) =>
      var c := s.work[t].to;
      s.(conns := s.conns[c := s.conns[c].(outbound := s.conns[c].outbound + [s.work[t].frame])], work := s.work - {t})
    case Drop(t) => s.(work := s.work - {t})
    case Drain(c) => s.(conns := s.conns[c := s.conns[c].(outbound := s.conns[c].outbound[1..])])
  }

  /** `Disconnect` up to its unlock: it goes by id, whoever calls. */
  function Disconnected(s: Gate, t: nat, cp: string): Gate
    requires cp in s.table ==> s.table[cp] in s.conns
  {
    if cp in s.table then TakenOut(s.(table := s.table - {cp}), t, s.table[cp]) else s
  }

  /** Thread `t` leaves the lock with a session that is no longer in the map. */
  function TakenOut(s: Gate, t: nat, c: nat): Gate
    requires c in s.conns
  {
    s.(conns := s.conns[c := s.conns[c].(owner := Thread(t))], work := s.work[t := Leaving(c)])
  }

  // ----- The invariant -----

  /** What each stage in a session's life means.  The last has nobody left to look after it. */
  predicate Untouched(c: Connection) { c.once == Fresh && c.unsubscribes == 0 && c.closes == 0 }
  predicate Gone(c: Connection) { c.ready && c.once == Finished && c.unsubscribes == 1 && c.closes == 1 }

  predicate Fits(w: Work, c: Connection, live: bool) {
    match w
    case Registering(_) => Untouched(c) && live && !c.ready
    case Leaving(_) => Untouched(c) && live && c.ready
    case Unsubscribing(_) => c.once == Running && c.unsubscribes == 0 && c.closes == 0 && live && c.ready
    case Closing(_) => c.once == Running && c.unsubscribes == 1 && c.closes == 0 && !live && c.ready
    case _ => true
  }

  predicate Registered(s: Gate, c: nat) {
    c in s.conns && s.conns[c].chargePointID in s.table && s.table[s.conns[c].chargePointID] == c
  }

  predicate Holds(s: Gate, t: nat, c: nat) {
    t in s.work && Held(s.work[t]) == Some(c)
  }

  predicate Live(s: Gate, c: nat)
    requires c in s.conns
  {
    s.conns[c].handle in s.subs
  }

  predicate EntryOk(s: Gate, cp: string)
    requires cp in s.table
  {
    s.table[cp] in s.conns && s.conns[s.table[cp]].chargePointID == cp && s.conns[s.table[cp]].owner == Table
  }

  predicate Reachable(s: Gate, c: nat, frame: Frame) {
    c in s.conns && s.conns[c].ready && frame.topic == OutTopic(s.conns[c].chargePointID)
  }

  predicate ThreadOk(s: Gate, t: nat)
    requires t in s.work
  {
    && (Held(s.work[t]).Some? ==> Held(s.work[t]).value in s.conns && s.conns[Held(s.work[t]).value].owner == Thread(t))
    && (s.work[t].LookingUp? ==> s.work[t].frame.topic == OutTopic(s.work[t].chargePointID))
    && (s.work[t].Sending? ==> Reachable(s, s.work[t].to, s.work[t].frame))
  }

  predicate SessionOk(s: Gate, c: nat)
    requires c in s.conns
  {
    && (match s.conns[c].owner
        case Table => Registered(s, c) && Untouched(s.conns[c]) && s.conns[c].ready && Live(s, c)
        case Thread(t) => Holds(s, t, c) && Fits(s.work[t], s.conns[c], Live(s, c))
        case Nobody => Gone(s.conns[c]) && !Live(s, c))
    && (Live(s, c) ==> s.subs[s.conns[c].handle] == Subscription(OutTopic(s.conns[c].chargePointID), s.conns[c].chargePointID, c))
    && |s.conns[c].outbound| <= QUEUE
    && forall i :: 0 <= i < |s.conns[c].outbound| ==> s.conns[c].outbound[i].topic == OutTopic(s.conns[c].chargePointID)
  }

  predicate SubscriptionOk(s: Gate, h: nat)
    requires h in s.subs
  {
    s.subs[h].of in s.conns && s.conns[s.subs[h].of].handle == h
  }

  ghost predicate Inv(s: Gate) {
    && (forall cp {:trigger EntryOk(s, cp)} :: cp in s.table ==> EntryOk(s, cp))
    && (forall t {:trigger ThreadOk(s, t)} :: t in s.work ==> ThreadOk(s, t))
    && (forall c {:trigger SessionOk(s, c)} :: c in s.conns ==> SessionOk(s, c))
    && (forall h {:trigger SubscriptionOk(s, h)} :: h in s.subs ==> SubscriptionOk(s, h))
  }

  // ----- Frames: what a step does not touch stays as it should be -----

  predicate SameSession(s: Gate, s': Gate, e: nat)
    requires e in s.conns && e in s'.conns
  {
    && s'.conns[e] == s.conns[e].(outbound := s'.conns[e].outbound)
    && (Live(s', e) <==> Live(s, e))
    && (Live(s, e) ==> s'.subs[s.conns[e].handle] == s.subs[s.conns[e].handle])
    && (s.conns[e].owner == Table && Registered(s, e) ==> Registered(s', e))
    && (s.conns[e].owner.Thread? && s.conns[e].owner.t in s.work ==>
          s.conns[e].owner.t in s'.work && s'.work[s.conns[e].owner.t] == s.work[s.conns[e].owner.t])
  }

  lemma SessionFrame(s: Gate, s': Gate, e: nat)
    requires e in s.conns && e in s'.conns && SessionOk(s, e) && SameSession(s, s', e)
    requires s'.conns[e].outbound == s.conns[e].outbound
    ensures SessionOk(s', e)
  {
  }

  lemma ThreadFrame(s: Gate, s': Gate, u: nat)
    requires u in s.work && ThreadOk(s, u) && u in s'.work && s'.work[u] == s.work[u]
    requires Held(s.work[u]).Some? ==>
               Held(s.work[u]).value in s'.conns && s'.conns[Held(s.work[u]).value].owner == Thread(u)
    requires s.work[u].Sending? ==>
               s.work[u].to in s'.conns && s'.conns[s.work[u].to].ready
               && (s.work[u].to in s.conns ==> s'.conns[s.work[u].to].chargePointID == s.conns[s.work[u].to].chargePointID)
    ensures ThreadOk(s', u)
  {
  }

  /** Sessions stay where they are: ids and handles are for good, channels are never unmade,
      and nobody's session is taken by a step of another. */
  ghost predicate Steady(s: Gate, s': Gate, t: nat) {
    && (forall e :: e in s.conns ==>
          && e in s'.conns && s'.conns[e].chargePointID == s.conns[e].chargePointID
          && s'.conns[e].handle == s.conns[e].handle && (s.conns[e].ready ==> s'.conns[e].ready)
          && (s.conns[e].owner.Thread? && s.conns[e].owner.t != t ==> s'.conns[e].owner == s.conns[e].owner))
    && (forall u :: u != t ==> (u in s.work <==> u in s'.work) && (u in s.work ==> s'.work[u] == s.work[u]))
  }

  lemma ThreadsKeep(s: Gate, s': Gate, t: nat)
    requires Inv(s) && Steady(s, s', t) && (t in s'.work ==> ThreadOk(s', t))
    ensures forall u {:trigger ThreadOk(s', u)} :: u in s'.work ==> ThreadOk(s', u)
  {
    forall u | u in s'.work ensures ThreadOk(s', u) {
      if u != t {
        assert ThreadOk(s, u);
        ThreadFrame(s, s', u);
      }
    }
  }

  lemma EntriesKeep(s: Gate, s': Gate)
    requires Inv(s)
    requires forall cp :: cp in s'.table ==>
      || (s'.table[cp] in s'.conns && s'.conns[s'.table[cp]].chargePointID == cp && s'.conns[s'.table[cp]].owner == Table)
      || (cp in s.table && s'.table[cp] == s.table[cp] && s.table[cp] in s'.conns
          && (s.table[cp] in s.conns ==> s'.conns[s.table[cp]].chargePointID == s.conns[s.table[cp]].chargePointID
                                         && s'.conns[s.table[cp]].owner == s.conns[s.table[cp]].owner))
    ensures forall cp {:trigger EntryOk(s', cp)} :: cp in s'.table ==> EntryOk(s', cp)
  {
    forall cp | cp in s'.table ensures EntryOk(s', cp) {
      if cp in s.table { assert EntryOk(s, cp); }
    }
  }

  lemma SubscriptionsKeep(s: Gate, s': Gate)
    requires Inv(s)
    requires forall h :: h in s'.subs ==>
      || (s'.subs[h].of in s'.conns && s'.conns[s'.subs[h].of].handle == h)
      || (h in s.subs && s'.subs[h] == s.subs[h]
          && (s.subs[h].of in s.conns ==> s.subs[h].of in s'.conns && s'.conns[s.subs[h].of].handle == s.conns[s.subs[h].of].handle))
    ensures forall h {:trigger SubscriptionOk(s', h)} :: h in s'.subs ==> SubscriptionOk(s', h)
  {
    forall h | h in s'.subs ensures SubscriptionOk(s', h) {
      if h in s.subs { assert SubscriptionOk(s, h); }
    }
  }

  // ----- Life-cycle steps -----

  lemma FreshIsUnknown(s: Gate, t: nat, c: nat, h: nat)
    requires Inv(s) && t !in s.work && c !in s.conns && forall d :: d in s.conns ==> s.conns[d].handle != h
    ensures h !in s.subs
    ensures forall e :: e in s.conns ==> s.conns[e].owner != Thread(t)
  {
    forall k | k in s.subs ensures k != h {
      assert SubscriptionOk(s, k);
    }
    forall e | e in s.conns ensures s.conns[e].owner != Thread(t) {
      assert SessionOk(s, e);
    }
  }

  lemma SubscribeSessions(s: Gate, t: nat, cp: string, c: nat, h: nat, e: nat)
    requires Inv(s) && Can(s, Subscribe(t, cp, c, h)) && e in Next(s, Subscribe(t, cp, c, h)).conns
    ensures SessionOk(Next(s, Subscribe(t, cp, c, h)), e)
  {
    FreshIsUnknown(s, t, c, h);
    if e != c {
      assert SessionOk(s, e);
      SessionFrame(s, Next(s, Subscribe(t, cp, c, h)), e);
    }
  }

  lemma SubscribeKeeps(s: Gate, t: nat, cp: string, c: nat, h: nat)
    requires Inv(s) && Can(s, Subscribe(t, cp, c, h))
    ensures Inv(Next(s, Subscribe(t, cp, c, h)))
  {
    var s' := Next(s, Subscribe(t, cp, c, h));
    FreshIsUnknown(s, t, c, h);
    forall e | e in s'.conns ensures SessionOk(s', e) {
      SubscribeSessions(s, t, cp, c, h, e);
    }
    ThreadsKeep(s, s', t);
    forall k | k in s.table ensures s.table[k] in s.conns { assert EntryOk(s, k); }
    EntriesKeep(s, s');
    SubscriptionsKeep(s, s');
  }

  /** A session in the map is nobody else's. */
  lemma RegisteredIsOwned(s: Gate, cp: string)
    requires Inv(s) && cp in s.table
    ensures s.table[cp] in s.conns
    ensures var d := s.table[cp];
            && s.conns[d].chargePointID == cp && s.conns[d].owner == Table && Untouched(s.conns[d])
            && s.conns[d].ready && Live(s, d)
  {
    assert EntryOk(s, cp);
    assert SessionOk(s, s.table[cp]);
  }

  lemma HolderOwns(s: Gate, t: nat)
    requires Inv(s) && t in s.work && Held(s.work[t]).Some?
    ensures var c := Held(s.work[t]).value;
            && c in s.conns && s.conns[c].owner == Thread(t) && Fits(s.work[t], s.conns[c], Live(s, c))
            && forall e :: e in s.conns && s.conns[e].owner == Thread(t) ==> e == c
  {
    var c := Held(s.work[t]).value;
    assert ThreadOk(s, t);
    assert SessionOk(s, c);
    forall e | e in s.conns && s.conns[e].owner == Thread(t) ensures e == c {
      assert SessionOk(s, e);
    }
  }

  lemma SwapSessions(s: Gate, t: nat, e: nat)
    requires Inv(s) && Can(s, Swap(t)) && e in s.conns
    ensures SessionOk(Next(s, Swap(t)), e)
  {
    var s' := Next(s, Swap(t));
    var c, cp := s.work[t].c, Entry(s, t);
    HolderOwns(s, t);
    if cp in s.table { RegisteredIsOwned(s, cp); }
    assert SessionOk(s, e);
    if e != c && !(cp in s.table && e == s.table[cp]) {
      SessionFrame(s, s', e);
    }
  }

  lemma SwapEntries(s: Gate, t: nat)
    requires Inv(s) && Can(s, Swap(t))
    ensures forall k {:trigger EntryOk(Next(s, Swap(t)), k)} :: k in Next(s, Swap(t)).table ==> EntryOk(Next(s, Swap(t)), k)
  {
    var s' := Next(s, Swap(t));
    var cp := Entry(s, t);
    HolderOwns(s, t);
    if cp in s.table { RegisteredIsOwned(s, cp); }
    forall k | k in s'.table ensures EntryOk(s', k) {
      if k != cp {
        RegisteredIsOwned(s, k);
        var e := s.table[k];
        assert e != s.work[t].c && (cp in s.table ==> e != s.table[cp]);
        assert s'.table[k] == e && s'.conns[e] == s.conns[e];
      }
    }
  }

  lemma SwapKeeps(s: Gate, t: nat)
    requires Inv(s) && Can(s, Swap(t))
    ensures Inv(Next(s, Swap(t)))
  {
    var s' := Next(s, Swap(t));
    var cp := Entry(s, t);
    HolderOwns(s, t);
    if cp in s.table { RegisteredIsOwned(s, cp); }
    forall e | e in s'.conns ensures SessionOk(s', e) {
      SwapSessions(s, t, e);
    }
    ThreadsKeep(s, s', t);
    SwapEntries(s, t);
    SubscriptionsKeep(s, s');
  }

  lemma RemoveKeeps(s: Gate, t: nat, cp: string)
    requires Inv(s) && Can(s, Remove(t, cp))
    ensures Inv(Next(s, Remove(t, cp)))
  {
    var s' := Next(s, Remove(t, cp));
    if cp in s.table {
      RegisteredIsOwned(s, cp);
      forall e | e in s.conns ensures s.conns[e].owner != Thread(t) { assert SessionOk(s, e); }
      forall e | e in s'.conns ensures SessionOk(s', e) {
        assert SessionOk(s, e);
        if e != s.table[cp] { SessionFrame(s, s', e); }
      }
      ThreadsKeep(s, s', t);
      forall k | k in s.table ensures s.table[k] in s.conns && s.conns[s.table[k]].chargePointID == k { assert EntryOk(s, k); }
      EntriesKeep(s, s');
      SubscriptionsKeep(s, s');
    }
  }

  /** That a handler has returned is of no consequence to anyone. */
  lemma ReturnKeeps(s: Gate, c: nat)
    requires Inv(s) && c in s.conns
    ensures Inv(s.(conns := s.conns[c := s.conns[c].(returned := true)]))
  {
    var s' := s.(conns := s.conns[c := s.conns[c].(returned := true)]);
    forall e | e in s'.conns ensures SessionOk(s', e) { assert SessionOk(s, e); }
    forall u | u in s'.work ensures ThreadOk(s', u) {
      assert ThreadOk(s, u);
      ThreadFrame(s, s', u);
    }
    forall k | k in s.table ensures EntryOk(s', k) { assert EntryOk(s, k); }
    forall k | k in s.subs ensures SubscriptionOk(s', k) { assert SubscriptionOk(s, k); }
  }

  lemma HandlerReturnKeeps(s: Gate, t: nat, c: nat)
    requires Inv(s) && Can(s, HandlerReturns(t, c))
    ensures Inv(Next(s, HandlerReturns(t, c)))
  {
    ReturnKeeps(s, c);
    RemoveKeeps(s.(conns := s.conns[c := s.conns[c].(returned := true)]), t, s.conns[c].chargePointID);
  }

  lemma OwnHandle(s: Gate, c: nat)
    requires Inv(s) && c in s.conns && Live(s, c)
    ensures forall e :: e in s.conns && Live(s, e) && s.conns[e].handle == s.conns[c].handle ==> e == c
  {
    assert SessionOk(s, c);
    forall e | e in s.conns && Live(s, e) && s.conns[e].handle == s.conns[c].handle ensures e == c {
      assert SessionOk(s, e);
    }
  }

  lemma ClosingSessions(s: Gate, step: Step, e: nat)
    requires Inv(s) && (step.BeginOnce? || step.Unsubscribe? || step.CloseChannel?) && Can(s, step) && e in s.conns
    ensures SessionOk(Next(s, step), e)
  {
    var c := s.work[step.t].c;
    HolderOwns(s, step.t);
    if step.Unsubscribe? { OwnHandle(s, c); }
    assert SessionOk(s, e);
    if e != c { SessionFrame(s, Next(s, step), e); }
  }

  lemma ClosingThreads(s: Gate, step: Step)
    requires Inv(s) && (step.BeginOnce? || step.Unsubscribe? || step.CloseChannel?) && Can(s, step)
    ensures forall u {:trigger ThreadOk(Next(s, step), u)} :: u in Next(s, step).work ==> ThreadOk(Next(s, step), u)
  {
    HolderOwns(s, step.t);
    ThreadsKeep(s, Next(s, step), step.t);
  }

  /** A closing step of the thread that owns the session. */
  lemma ClosingKeeps(s: Gate, step: Step)
    requires Inv(s) && (step.BeginOnce? || step.Unsubscribe? || step.CloseChannel?) && Can(s, step)
    ensures Inv(Next(s, step))
  {
    var s' := Next(s, step);
    var c := s.work[step.t].c;
    assert s.conns[c].owner != Table by { HolderOwns(s, step.t); }
    forall e | e in s'.conns ensures SessionOk(s', e) {
      ClosingSessions(s, step, e);
    }
    ClosingThreads(s, step);
    forall k | k in s.table ensures s.table[k] in s.conns && s.table[k] != c { assert EntryOk(s, k); }
    EntriesKeep(s, s');
    SubscriptionsKeep(s, s');
  }

  // ----- Traffic -----

  /** A thread that owns no session moves on: sessions and subscriptions do not notice. */
  lemma CourierKeeps(s: Gate, s': Gate, t: nat)
    requires Inv(s) && s' == s.(work := s'.work)
    requires t in s.work ==> Held(s.work[t]).None?
    requires forall u :: u != t ==> (u in s.work <==> u in s'.work) && (u in s.work ==> s'.work[u] == s.work[u])
    requires t in s'.work ==> ThreadOk(s', t)
    ensures Inv(s')
  {
    forall e | e in s'.conns ensures SessionOk(s', e) {
      assert SessionOk(s, e);
      SessionFrame(s, s', e);
    }
    ThreadsKeep(s, s', t);
    forall k | k in s.table ensures EntryOk(s', k) { assert EntryOk(s, k); }
    forall k | k in s.subs ensures SubscriptionOk(s', k) { assert SubscriptionOk(s, k); }
  }

  lemma DeliverySteps(s: Gate, step: Step)
    requires Inv(s) && Can(s, step) && (step.Deliver? || step.LookUp? || step.Drop?)
    ensures Inv(Next(s, step))
  {
    if step.Deliver? {
      assert SubscriptionOk(s, step.handle);
      assert SessionOk(s, s.subs[step.handle].of);
    } else {
      assert ThreadOk(s, step.t);
      if step.LookUp? && s.work[step.t].chargePointID in s.table {
        RegisteredIsOwned(s, s.work[step.t].chargePointID);
      }
    }
    CourierKeeps(s, Next(s, step), step.t);
  }

  /** A queue of one session changes. */
  lemma QueueKeeps(s: Gate, s': Gate, c: nat)
    requires Inv(s) && c in s.conns && c in s'.conns
    requires s' == s.(conns := s.conns[c := s.conns[c].(outbound := s'.conns[c].outbound)])
    requires |s'.conns[c].outbound| <= QUEUE
    requires forall i :: 0 <= i < |s'.conns[c].outbound| ==> s'.conns[c].outbound[i].topic == OutTopic(s.conns[c].chargePointID)
    ensures Inv(s')
  {
    forall e | e in s'.conns ensures SessionOk(s', e) {
      assert SessionOk(s, e);
    }
    forall u | u in s'.work ensures ThreadOk(s', u) {
      assert ThreadOk(s, u);
      ThreadFrame(s, s', u);
    }
    forall k | k in s.table ensures EntryOk(s', k) { assert EntryOk(s, k); }
    forall k | k in s.subs ensures SubscriptionOk(s', k) { assert SubscriptionOk(s, k); }
  }

  lemma QueueSteps(s: Gate, step: Step)
    requires Inv(s) && Can(s, step) && (step.Enqueue? || step.Drain?)
    ensures Inv(Next(s, step))
  {
    var c := if step.Enqueue? then s.work[step.t].to else step.c;
    assert SessionOk(s, c);
    if step.Enqueue? {
      assert ThreadOk(s, step.t);
      var moved := s.(work := s.work - {step.t});
      CourierKeeps(s, moved, step.t);
      QueueKeeps(moved, Next(s, step), c);
    } else {
      QueueKeeps(s, Next(s, step), c);
    }
  }

  lemma StepKeeps(s: Gate, step: Step)
    requires Inv(s) && Can(s, step)
    ensures Inv(Next(s, step))
  {
    match step {
      case Subscribe(t, cp, c, h) => SubscribeKeeps(s, t, cp, c, h);
      case Swap(t) => SwapKeeps(s, t);
      case Remove(t, cp) => RemoveKeeps(s, t, cp);
      case HandlerReturns(t, c) => HandlerReturnKeeps(s, t, c);
      case BeginOnce(_) => ClosingKeeps(s, step);
      case Unsubscribe(_) => ClosingKeeps(s, step);
      case CloseChannel(_) => ClosingKeeps(s, step);
      case Deliver(_, _, _) => DeliverySteps(s, step);
      case LookUp(_) => DeliverySteps(s, step);
      case Drop(_) => DeliverySteps(s, step);
      case Enqueue(_) => QueueSteps(s, step);
      case Drain(_) => QueueSteps(s, step);
    }
  }

  ghost predicate IsRun(ss: seq<Gate>, steps: seq<Step>) {
    && |ss| == |steps| + 1 && ss[0] == Gate(map[], map[], map[], map[])
    && forall i :: 0 <= i < |steps| ==> Can(ss[i], steps[i]) && ss[i + 1] == Next(ss[i], steps[i])
  }

  lemma {:induction false} RunKeeps(ss: seq<Gate>, steps: seq<Step>, i: nat)
    requires IsRun(ss, steps) && i < |ss|
    ensures Inv(ss[i])
  {
    if i > 0 {
      RunKeeps(ss, steps, i - 1);
      StepKeeps(ss[i - 1], steps[i - 1]);
    }
  }

  // ----- What every interleaving gives -----

  /** A registered session has its channels, is kept under its own id and is not closed. */
  lemma RegisteredSessionsAreOpen(ss: seq<Gate>, steps: seq<Step>, i: nat, cp: string)
    requires IsRun(ss, steps) && i < |ss| && cp in ss[i].table
    ensures ss[i].table[cp] in ss[i].conns
    ensures var c := ss[i].conns[ss[i].table[cp]];
            c.ready && c.chargePointID == cp && c.closes == 0 && c.unsubscribes == 0 && Live(ss[i], ss[i].table[cp])
  {
    RunKeeps(ss, steps, i);
    RegisteredIsOwned(ss[i], cp);
  }

  /** The unsubscribe function and the close of the channel run at most once per session,
      and in that order. */
  lemma ClosedAtMostOnce(ss: seq<Gate>, steps: seq<Step>, i: nat, c: nat)
    requires IsRun(ss, steps) && i < |ss| && c in ss[i].conns
    ensures ss[i].conns[c].closes <= ss[i].conns[c].unsubscribes <= 1
    ensures ss[i].conns[c].unsubscribes == 1 <==> !Live(ss[i], c)
  {
    RunKeeps(ss, steps, i);
    assert SessionOk(ss[i], c);
  }

  /** A thread that reaches `CloseOnce.Do` is always the first there and never waits. */
  lemma OnceIsNeverContended(ss: seq<Gate>, steps: seq<Step>, i: nat, t: nat)
    requires IsRun(ss, steps) && i < |ss| && t in ss[i].work && ss[i].work[t].Leaving?
    ensures ss[i].work[t].c in ss[i].conns && ss[i].conns[ss[i].work[t].c].once == Fresh
    ensures Can(ss[i], BeginOnce(t))
  {
    RunKeeps(ss, steps, i);
    HolderOwns(ss[i], t);
  }

  /** A session that was registered and no longer is has been closed, or exactly one thread is
      about to close it. */
  lemma LeftSessionsAreOwned(ss: seq<Gate>, steps: seq<Step>, i: nat, c: nat)
    requires IsRun(ss, steps) && i < |ss| && c in ss[i].conns && ss[i].conns[c].ready && !Registered(ss[i], c)
    ensures ss[i].conns[c].closes == 0 <==> exists t :: Holds(ss[i], t, c)
    ensures forall t, u :: Holds(ss[i], t, c) && Holds(ss[i], u, c) ==> t == u
    ensures forall t :: Holds(ss[i], t, c) ==> !ss[i].work[t].Registering?
  {
    RunKeeps(ss, steps, i);
    var s := ss[i];
    assert SessionOk(s, c);
    if s.conns[c].owner.Thread? {
      assert Holds(s, s.conns[c].owner.t, c);
    }
    forall t | Holds(s, t, c) ensures s.conns[c].owner == Thread(t) && Fits(s.work[t], s.conns[c], Live(s, c)) {
      HolderOwns(s, t);
    }
  }

  ghost predicate OnOutTopic(s: Gate, h: nat, cp: string) {
    h in s.subs && s.subs[h].topic == OutTopic(cp)
  }

  /** The live subscriptions on an out topic belong to the registered session, to sessions
      being registered, and to replaced or removed ones not yet unsubscribed. */
  lemma LiveSubscriptionsExactly(ss: seq<Gate>, steps: seq<Step>, i: nat, cp: string, h: nat)
    requires IsRun(ss, steps) && i < |ss|
    ensures OnOutTopic(ss[i], h, cp) <==>
              exists c :: c in ss[i].conns && ss[i].conns[c].handle == h && ss[i].conns[c].chargePointID == cp
                       && ss[i].conns[c].unsubscribes == 0
  {
    RunKeeps(ss, steps, i);
    var s := ss[i];
    if OnOutTopic(s, h, cp) {
      var c := s.subs[h].of;
      assert SubscriptionOk(s, h) && SessionOk(s, c) && Live(s, c);
      TopicsAreInjective(s.conns[c].chargePointID, cp);
      assert s.conns[c].unsubscribes == 0;
    }
    if c :| c in s.conns && s.conns[c].handle == h && s.conns[c].chargePointID == cp && s.conns[c].unsubscribes == 0 {
      assert SessionOk(s, c);
    }
  }

  /** No Connect or Disconnect is under way; deliveries may be. */
  ghost predicate Quiet(s: Gate) {
    forall t :: t in s.work ==> Held(s.work[t]).None?
  }

  /** With no call in progress the only live subscription on an out topic is the
      registered session's, so a message published there is delivered once. */
  lemma QuietMeansOneSubscription(ss: seq<Gate>, steps: seq<Step>, i: nat, cp: string, h: nat)
    requires IsRun(ss, steps) && i < |ss| && Quiet(ss[i])
    ensures OnOutTopic(ss[i], h, cp) <==>
              cp in ss[i].table && ss[i].table[cp] in ss[i].conns && h == ss[i].conns[ss[i].table[cp]].handle
  {
    RunKeeps(ss, steps, i);
    var s := ss[i];
    if OnOutTopic(s, h, cp) {
      var c := s.subs[h].of;
      assert SubscriptionOk(s, h) && SessionOk(s, c) && Live(s, c);
      TopicsAreInjective(s.conns[c].chargePointID, cp);
    }
    if cp in s.table {
      RegisteredIsOwned(s, cp);
      assert SessionOk(s, s.table[cp]);
    }
  }

  /** A message for one charge point enters no queue of another, whichever subscription
      brought it and whoever was registered when. */
  lemma QueuesHoldTheirOwn(ss: seq<Gate>, steps: seq<Step>, i: nat, c: nat, k: nat, cp: string)
    requires IsRun(ss, steps) && i < |ss| && c in ss[i].conns && k < |ss[i].conns[c].outbound|
    requires ss[i].conns[c].outbound[k].topic == OutTopic(cp)
    ensures ss[i].conns[c].chargePointID == cp
  {
    RunKeeps(ss, steps, i);
    assert SessionOk(ss[i], c);
    TopicsAreInjective(ss[i].conns[c].chargePointID, cp);
  }
}
