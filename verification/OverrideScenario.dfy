/** Why `SessionHistory` has to exclude the Suspended override on a stopped
    transaction: exactly that press breaks its invariant, and here is a run from start
    to the MeterValues that follows the StopTransaction of its own session.
    `OverrideAftermath` says from which states that must be so. */
module OverrideScenario {
  import opened Wrappers
  import opened OrderedMaps
  import opened ChargePointTypes
  import opened DcMeter
  import opened ChargePointModel
  import opened Moves
  import opened MovesCover
  import opened SessionHistory

  /** Setting a connector to Suspended keeps the invariant exactly when no stop is pending there. */
  lemma OverrideBreaksExactly(s: Runtime, c: int, status: ConnectorStatus)
    requires SessionHistory.Inv(s) && s.transactions.Valid() && IsSuspended(status)
    ensures SessionHistory.Inv(Apply(s, PressStatus(c, status))) <==> !OverridesStop(s, PressStatus(c, status))
  {
    var e := PressStatus(c, status);
    if OverridesStop(s, e) {
      assert Apply(s, e).transactions.vals[c] == s.transactions.vals[c].(status := TxCharging);
      assert !RowFits(c, Apply(s, e).transactions.vals[c], Apply(s, e).meterCounter);
    } else {
      forall t: Runtime, m: Move | SessionHistory.Inv(t) && Legal(t, m) && Allowed(t, m, CALM)
        ensures SessionHistory.Inv(Play(t, m))
      {
        MoveKeeps(t, m);
      }
      KeptByStep(SessionHistory.Inv, s, e, CALM);
    }
  }

  // ----- A run, in stages -----

  const BOOT_OK: ReplyPayload := ReplyPayload(BootAcceptedStatus, Some(0), false, None)
  const TAG_OK: ReplyPayload := ReplyPayload(BootOtherStatus, None, true, None)
  const START_OK: ReplyPayload := ReplyPayload(BootOtherStatus, None, true, Some(7))

  /** Registered at time 0 with heartbeats disabled. */
  ghost predicate Up(s: Runtime) {
    Reachable(s, ANY) && Registered(s.link) && s.link.now == 0 && s.link.heartbeatInterval == Some(0)
  }

  lemma Boots() returns (s: Runtime)
    ensures Up(s) && s.connectorStates == Empty() && s.transactions == Empty()
  {
    ReachableInit(0, ANY);
    ReachableStep(Init(0), OnOpen, ANY);
    var s1 := Apply(Init(0), OnOpen);
    var e := OnFrame(InResult(0, Some(BOOT_OK)), []);
    ReachableStep(s1, e, ANY);
    s := Apply(s1, e);
  }

  lemma PlugsIn() returns (s: Runtime)
    ensures Up(s) && s.transactions == Empty()
    ensures s.connectorStates.vals == map[1 := FreshConnector.(status := Preparing, cablePluggedIn := true)]
  {
    var s1 := Boots();
    ReachableStep(s1, PressPlugIn(1), ANY);
    s := Apply(s1, PressPlugIn(1));
  }

  lemma Asks() returns (s: Runtime, uid: nat)
    ensures Up(s) && s.transactions == Empty() && 1 in s.connectorStates.vals
    ensures uid in s.link.pendingCalls.vals
    ensures s.link.pendingCalls.vals[uid] == PendingCall(AuthorizeAction, Some(1), Some("TAG"))
  {
    var s1 := PlugsIn();
    ReachableStep(s1, PressAuthorize(1, "TAG"), ANY);
    s := Apply(s1, PressAuthorize(1, "TAG"));
    uid := s1.link.nextUid;
  }

  lemma Begins() returns (s: Runtime, uid: nat)
    ensures Up(s) && 1 in s.connectorStates.vals
    ensures s.transactions.keys == [1] && s.transactions.vals.Keys == {1}
    ensures Unidentified(s.transactions.vals[1]) && !s.transactions.vals[1].stopPending
    ensures s.transactions.vals[1].connectorId == 1
    ensures uid in s.link.pendingCalls.vals && s.link.pendingCalls.vals[uid].action == StartTransactionAction
  {
    var s1, asked := Asks();
    var e := OnFrame(InResult(asked, Some(TAG_OK)), []);
    ReachableStep(s1, e, ANY);
    s := Apply(s1, e);
    uid := s1.link.nextUid;
  }

  lemma Charges() returns (s: Runtime)
    ensures Up(s) && 1 in s.connectorStates.vals && s.meterValuesTimer == Some(10000)
    ensures s.transactions.keys == [1] && s.transactions.vals.Keys == {1}
    ensures s.transactions.vals[1].transactionId == Some(7) && !s.transactions.vals[1].stopPending
    ensures s.connectorStates.vals[1].status == Charging
  {
    var s1, asked := Begins();
    assert Find(s1.transactions.keys, s1.transactions.vals, Unidentified) == Some(1);
    var e := OnFrame(InResult(asked, Some(START_OK)), []);
    ReachableStep(s1, e, ANY);
    s := Apply(s1, e);
  }

  /** Row 1 has been stopped and its StopTransaction `stop` is on the wire. */
  ghost predicate Stopped(s: Runtime, stop: TraceEntry) {
    && Reachable(s, ANY) && Registered(s.link)
    && s.transactions.keys == [1] && s.transactions.vals.Keys == {1}
    && s.transactions.vals[1].transactionId == Some(7) && s.transactions.vals[1].stopPending
    && stop in s.link.trace && Stops(stop, s.transactions.vals[1])
    && s.meterValuesTimer == Some(10000)
  }

  lemma StopsCharging() returns (s: Runtime, stop: TraceEntry)
    ensures Stopped(s, stop) && s.link.now == 0
  {
    var s1 := Charges();
    ReachableStep(s1, PressStop(1), ANY);
    s := Apply(s1, PressStop(1));
    stop := s.link.trace[|s.link.trace| - 1];
  }

  lemma Overridden() returns (s: Runtime, stop: TraceEntry)
    ensures Stopped(s, stop) && s.link.now == 0 && s.transactions.vals[1].status == TxCharging
  {
    var s1;
    s1, stop := StopsCharging();
    ReachableStep(s1, PressStatus(1, SuspendedEV), ANY);
    s := Apply(s1, PressStatus(1, SuspendedEV));
    assert stop in s.link.trace;
  }

  /** The sample the timer takes ten seconds later follows the stop of the same session. */
  lemma SampleAfterStop()
    ensures exists s :: Reachable(s, ANY) && !WellOrdered(s.link.trace)
  {
    var s1, stop := Overridden();
    ReachableStep(s1, OnTime(10000), ANY);
    var s2 := Apply(s1, OnTime(10000));
    ReachableStep(s2, OnMeterTimer, ANY);
    var s3 := Apply(s2, OnMeterTimer);
    var s2' := s2.(meterValuesTimer := Some(20000));
    assert s3 == SampleAll(SendMeterValues(s2', 1), [1][1..]) == SendMeterValues(s2', 1);
    var i :| 0 <= i < |s2.link.trace| && s2.link.trace[i] == stop;
    var j := |s2.link.trace|;
    assert s3.link.trace[i] == stop && Metered(s3.link.trace[j]);
    assert !InOrder(s3.link.trace[i], s3.link.trace[j]);
  }
}
