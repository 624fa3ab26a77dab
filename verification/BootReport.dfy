/** What a charge point reports after an accepted boot: Available for itself and for every
    connector it is told of, whatever it has stored.  The report is right exactly when all
    of them are Available; a reachable one is not. */
module BootReport {
  import opened Wrappers
  import opened OrderedMaps
  import opened ChargePointTypes
  import opened ChargePointModel
  import opened Moves
  import opened MovesCover
  import opened StoreEffects
  import opened OverrideScenario

  function AllAvailable(connectors: seq<int>): seq<OutCall> {
    seq(|connectors|, i requires 0 <= i < |connectors| => StatusNotification(connectors[i], Available, false))
  }

  /** One status on an accepted, open socket. */
  lemma StatusCalls(s: Runtime, c: int, status: ConnectorStatus)
    requires Registered(s.link)
    ensures var t := SendStatus(s, c, status, false);
            && s.link.trace <= t.link.trace && CallsSince(s, t) == [StatusNotification(c, status, false)]
            && Registered(t.link) && t.connectorStates == s.connectorStates
  {
    OneCall(s, SendStatus(s, c, status, false), Sent(s.link.now, s.link.nextUid, StatusNotification(c, status, false)));
  }

  lemma {:induction false} ReportsAvailable(s: Runtime, connectors: seq<int>)
    requires Registered(s.link)
    ensures var t := ReportAll(s, connectors);
            && s.link.trace <= t.link.trace && CallsSince(s, t) == AllAvailable(connectors)
            && forall c :: ConnectorOf(t, c) == ConnectorOf(s, c)
    decreases connectors
  {
    if connectors == [] {
      NoCalls(s, s);
    } else {
      var s1 := EnsureConnector(s, connectors[0]);
      var s2 := SendStatus(s1, connectors[0], Available, false);
      StatusCalls(s1, connectors[0], Available);
      ReportsAvailable(s2, connectors[1..]);
      CallsVia(s1, s2, ReportAll(s, connectors));
      assert AllAvailable(connectors) == [StatusNotification(connectors[0], Available, false)] + AllAvailable(connectors[1..]);
    }
  }

  /** The deferred half of an accepted boot reports everyone Available and changes no connector. */
  lemma BootReports(s: Runtime, connectors: seq<int>)
    requires Registered(s.link)
    ensures var t := RunTask(s, InitialStatusTask, Some(connectors));
            && s.link.trace <= t.link.trace
            && CallsSince(s, t) == [StatusNotification(MAIN_CONTROLLER, Available, false)] + AllAvailable(connectors)
            && forall c :: ConnectorOf(t, c) == ConnectorOf(s, c)
  {
    var s1 := SendStatus(s, MAIN_CONTROLLER, Available, false);
    StatusCalls(s, MAIN_CONTROLLER, Available);
    ReportsAvailable(s1, connectors);
    CallsVia(s, s1, RunTask(s, InitialStatusTask, Some(connectors)));
  }

  /** The call tells the status that is stored. */
  predicate Truthful(call: OutCall, t: Runtime) {
    call.StatusNotification? && call.connectorId != MAIN_CONTROLLER ==> call.status == ConnectorOf(t, call.connectorId).status
  }

  /** The report is right exactly when every connector reported is stored as Available. */
  lemma BootReportRightExactly(s: Runtime, connectors: seq<int>)
    requires Registered(s.link) && MAIN_CONTROLLER !in connectors
    ensures var t := RunTask(s, InitialStatusTask, Some(connectors));
            && s.link.trace <= t.link.trace
            && ((forall call :: call in CallsSince(s, t) ==> Truthful(call, t))
                <==> forall c :: c in connectors ==> ConnectorOf(s, c).status == Available)
  {
    BootReports(s, connectors);
    var t := RunTask(s, InitialStatusTask, Some(connectors));
    forall c | c in connectors ensures StatusNotification(c, Available, false) in CallsSince(s, t) {
      var i :| 0 <= i < |connectors| && connectors[i] == c;
      assert AllAvailable(connectors)[i] == StatusNotification(c, Available, false);
    }
    forall call | call in CallsSince(s, t)
      ensures call == StatusNotification(MAIN_CONTROLLER, Available, false)
              || (call.StatusNotification? && call.status == Available && call.connectorId in connectors)
    {
      if call in AllAvailable(connectors) {
        var i :| 0 <= i < |connectors| && AllAvailable(connectors)[i] == call;
      }
    }
  }

  /** An accepted boot defers exactly that report, due at once. */
  lemma BootDefersReport(s: Runtime, uid: nat, p: ReplyPayload)
    requires uid in s.link.pendingCalls.vals && s.link.pendingCalls.vals[uid].action == BootNotificationAction
    requires p.status.BootAcceptedStatus?
    ensures HandleCallResult(s, uid, Some(p)).tasks == s.tasks + [Task(s.link.now, InitialStatusTask)]
    ensures HandleCallResult(s, uid, Some(p)).connectorStates == s.connectorStates
    ensures s.link.isOpen ==> Registered(HandleCallResult(s, uid, Some(p)).link)
  {
  }

  /** Booted again while connector 1 charges. */
  lemma BootsCharging() returns (s: Runtime)
    ensures Reachable(s, ANY) && Registered(s.link) && ConnectorOf(s, 1).status == Charging
    ensures |s.tasks| > 0 && s.tasks[|s.tasks| - 1] == Task(s.link.now, InitialStatusTask)
  {
    var s1 := Charges();
    ReachableStep(s1, PressBoot, ANY);
    var s2 := Apply(s1, PressBoot);
    var e := OnFrame(InResult(s1.link.nextUid, Some(BOOT_OK)), []);
    ReachableStep(s2, e, ANY);
    s := Apply(s2, e);
    BootDefersReport(s2, s1.link.nextUid, BOOT_OK);
  }

  /** A run in which a connector that is charging is reported Available. */
  lemma ChargingReportedAvailable()
    ensures exists s, t, i: nat :: Reachable(s, ANY) && i < |s.tasks| && Enabled(s, OnTask(i, Some([1])))
              && t == Apply(s, OnTask(i, Some([1]))) && s.link.trace <= t.link.trace
              && StatusNotification(1, Available, false) in CallsSince(s, t) && ConnectorOf(t, 1).status == Charging
  {
    var s := BootsCharging();
    var i := |s.tasks| - 1;
    ReportsOne(s, i);
    assert Enabled(s, OnTask(i, Some([1])));
  }

  lemma ReportsOne(s: Runtime, i: nat)
    requires Registered(s.link) && i < |s.tasks| && s.tasks[i] == Task(s.link.now, InitialStatusTask)
    requires ConnectorOf(s, 1).status == Charging
    ensures var t := Apply(s, OnTask(i, Some([1])));
            && s.link.trace <= t.link.trace
            && StatusNotification(1, Available, false) in CallsSince(s, t) && ConnectorOf(t, 1).status == Charging
  {
    var s' := RemoveTask(s, i);
    var t := RunTask(s', InitialStatusTask, Some([1]));
    assert Apply(s, OnTask(i, Some([1]))) == t;
    BootReports(s', [1]);
    assert AllAvailable([1])[0] == StatusNotification(1, Available, false);
    assert CallsSince(s, t) == CallsSince(s', t);
  }
}
