/** The Disconnect a WebSocket handler defers.  It goes by id, so a handler that returns after its
    session was replaced takes its successor out; this says exactly when, and shows such
    a run. */
module GatewayDisconnect {
  import opened Wrappers
  import opened Topics
  import opened GatewayProtocol

  // ----- The deferred Disconnect of a handler -----

  /** The three steps that close the session a thread has taken out; nobody is in its way. */
  function Closed(s: Gate, t: nat, c: nat): Gate
    requires c in s.conns
  {
    s.(conns := s.conns[c := s.conns[c].(once := Finished, unsubscribes := s.conns[c].unsubscribes + 1,
                                          closes := s.conns[c].closes + 1, owner := Nobody)],
       subs := s.subs - {s.conns[c].handle},
       work := s.work - {t})
  }

  lemma LeavingCloses(s: Gate, t: nat)
    requires Inv(s) && t in s.work && s.work[t].Leaving?
    ensures Can(s, BeginOnce(t))
    ensures var s1 := Next(s, BeginOnce(t));
            && Can(s1, Unsubscribe(t))
            && var s2 := Next(s1, Unsubscribe(t));
               Can(s2, CloseChannel(t)) && s.work[t].c in s.conns && Next(s2, CloseChannel(t)) == Closed(s, t, s.work[t].c)
  {
    HolderOwns(s, t);
    var c := s.work[t].c;
    var s1 := Next(s, BeginOnce(t));
    var s2 := Next(s1, Unsubscribe(t));
    assert s2.work - {t} == s.work - {t};
    assert Next(s2, CloseChannel(t)).conns == Closed(s, t, c).conns;
  }

  /** The session the id is registered to when a handler returns, if it is not the handler's own. */
  function Successor(s: Gate, c: nat): Option<nat>
    requires c in s.conns
  {
    var cp := s.conns[c].chargePointID;
    if cp in s.table && s.table[cp] != c then Some(s.table[cp]) else None
  }

  /** In every reachable state: when the handler of session `c` returns, its deferred Disconnect
      takes some other session out of the registry exactly when `c`'s id is registered to
      another session at that moment; that one is taken and no further one, `c` itself is no
      longer anybody's to lose, and the thread goes on to close what it took. */
  lemma DeferredDisconnectExactly(ss: seq<Gate>, steps: seq<Step>, i: nat, t: nat, c: nat)
    requires IsRun(ss, steps) && i < |ss| && Can(ss[i], HandlerReturns(t, c))
    ensures var s, s' := ss[i], Next(ss[i], HandlerReturns(t, c));
            && ((exists d :: d != c && Registered(s, d) && !Registered(s', d)) <==> Successor(s, c).Some?)
            && (forall d :: d != c && Registered(s, d) && !Registered(s', d) ==> Successor(s, c) == Some(d))
            && (Successor(s, c).Some? ==>
                  && !Registered(s, c)
                  && t in s'.work && s'.work[t] == Leaving(Successor(s, c).value) && Can(s', BeginOnce(t)))
  {
    var s, s' := ss[i], Next(ss[i], HandlerReturns(t, c));
    RunKeeps(ss, steps, i);
    var cp := s.conns[c].chargePointID;
    forall d | Registered(s, d) && d != c ensures !Registered(s', d) <==> s.conns[d].chargePointID == cp { }
    if Successor(s, c).Some? {
      var d := s.table[cp];
      RegisteredIsOwned(s, cp);
      assert Registered(s, d) && !Registered(s', d);
      HandlerReturnKeeps(s, t, c);
      LeavingCloses(s', t);
    }
  }

  ghost predicate Arises(s: Gate) {
    exists ss, steps :: IsRun(ss, steps) && ss[|steps|] == s
  }

  lemma ArisesNext(s: Gate, step: Step)
    requires Arises(s) && Can(s, step)
    ensures Arises(Next(s, step)) && Inv(s) && Inv(Next(s, step))
  {
    var ss, steps :| IsRun(ss, steps) && ss[|steps|] == s;
    RunKeeps(ss, steps, |steps|);
    StepKeeps(s, step);
    var ss', steps' := ss + [Next(s, step)], steps + [step];
    forall i | 0 <= i < |steps'| ensures Can(ss'[i], steps'[i]) && ss'[i + 1] == Next(ss'[i], steps'[i]) {
      if i < |steps| { assert ss'[i] == ss[i] && steps'[i] == steps[i] && ss'[i + 1] == ss[i + 1]; }
    }
    assert IsRun(ss', steps') && ss'[|steps'|] == Next(s, step);
  }

  lemma ArisesClosed(s: Gate, t: nat)
    requires Arises(s) && t in s.work && s.work[t].Leaving?
    ensures s.work[t].c in s.conns && Arises(Closed(s, t, s.work[t].c))
  {
    var ss, steps :| IsRun(ss, steps) && ss[|steps|] == s;
    RunKeeps(ss, steps, |steps|);
    LeavingCloses(s, t);
    ArisesNext(s, BeginOnce(t));
    var s1 := Next(s, BeginOnce(t));
    ArisesNext(s1, Unsubscribe(t));
    ArisesNext(Next(s1, Unsubscribe(t)), CloseChannel(t));
  }

  /** A session of `cp` is registered and no call is under way. */
  lemma ConnectAlone(s: Gate, cp: string, c: nat, h: nat) returns (s': Gate)
    requires Arises(s) && s.work == map[] && Can(s, Subscribe(0, cp, c, h)) && cp !in s.table
    ensures Arises(s') && s'.work == map[] && s'.table == s.table[cp := c]
    ensures s'.conns == s.conns[c := Connection(cp, h, true, Fresh, 0, 0, [], Table, false)]
  {
    ArisesNext(s, Subscribe(0, cp, c, h));
    var s1 := Next(s, Subscribe(0, cp, c, h));
    ArisesNext(s1, Swap(0));
    s' := Next(s1, Swap(0));
    assert s1.work - {0} == map[];
  }

  /** Another one replaces it. */
  lemma ConnectOver(s: Gate, cp: string, c: nat, d: nat, h: nat) returns (s': Gate)
    requires Arises(s) && s.work == map[] && Can(s, Subscribe(0, cp, d, h))
    requires cp in s.table && s.table[cp] == c && c in s.conns && c != d
    ensures Arises(s') && s'.work == map[] && s'.table == s.table[cp := d] && c in s'.conns && d in s'.conns
    ensures s'.conns[d] == Connection(cp, h, true, Fresh, 0, 0, [], Table, false)
    ensures s'.conns[c].closes == s.conns[c].closes + 1 && s'.conns[c].returned == s.conns[c].returned
    ensures s'.conns[c].ready == s.conns[c].ready && s'.conns[c].chargePointID == s.conns[c].chargePointID
  {
    ArisesNext(s, Subscribe(0, cp, d, h));
    var s1 := Next(s, Subscribe(0, cp, d, h));
    ArisesNext(s1, Swap(0));
    var s2 := Next(s1, Swap(0));
    ArisesClosed(s2, 0);
    s' := Closed(s2, 0, c);
    assert s2.work - {0} == map[];
  }

  /** Connect, connect again, and the handler of the first returns: the second session is closed
      and the id has no session, though the second handler is still reading its socket. */
  lemma LateDisconnectEndsSuccessor(cp: string)
    ensures exists s :: Arises(s) && s.work == map[] && cp !in s.table
              && exists c, d :: c in s.conns && d in s.conns && s.conns[c].returned && !s.conns[d].returned
                   && s.conns[c].chargePointID == s.conns[d].chargePointID == cp && s.conns[d].closes == 1
  {
    var s0 := Gate(map[], map[], map[], map[]);
    var ss, steps: seq<Step> := [s0], [];
    assert IsRun(ss, steps) && ss[|steps|] == s0;
    var s1 := ConnectAlone(s0, cp, 0, 0);
    var s2 := ConnectOver(s1, cp, 0, 1, 1);
    ArisesNext(s2, HandlerReturns(0, 0));
    var s3 := Next(s2, HandlerReturns(0, 0));
    ArisesClosed(s3, 0);
    var s4 := Closed(s3, 0, 1);
    assert s3.work - {0} == map[];
    assert 0 in s4.conns && 1 in s4.conns && s4.conns[0].returned && !s4.conns[1].returned;
    assert s4.conns[0].chargePointID == cp && s4.conns[1].chargePointID == cp && s4.conns[1].closes == 1;
  }
}
