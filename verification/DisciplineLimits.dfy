/** Where the discipline's conditions come from: for each event it restricts, exactly when
    that event keeps what disciplined runs keep. */
module DisciplineLimits {
  import opened Wrappers
  import opened OrderedMaps
  import opened ChargePointTypes
  import opened DcMeter
  import opened ChargePointModel
  import opened ChargingInvariant
  import opened Askers
  import opened LiveRows
  import Discipline

  predicate Live(s: Runtime, c: int) {
    c in s.transactions.vals && Stoppable(s.transactions.vals[c])
  }

  lemma {:induction false} ReleasedShow(s: Runtime, keys: seq<int>)
    ensures forall c :: c in keys ==> ConnectorOf(ReleaseAll(s, keys), c).status != Charging
    ensures forall c :: c !in keys ==> ConnectorOf(ReleaseAll(s, keys), c) == ConnectorOf(s, c)
    decreases keys
  {
    if keys != [] {
      var cs := ConnectorOf(s, keys[0]);
      var s1 := if cs.status != Unavailable
                then SendStatus(WithConnector(s, keys[0], Released(cs)), keys[0], Available, false) else s;
      ReleasedShow(s1, keys[1..]);
      assert ReleaseAll(s, keys) == ReleaseAll(s1, keys[1..]);
      assert ConnectorOf(s1, keys[0]).status != Charging;
    }
  }

  /** The deferred half of a Reset hides every live transaction from its connector. */
  lemma ResetKeepsChargingExactly(s: Runtime)
    requires TableOk(s) && s.connectorStates.Valid()
    ensures LiveIsCharging(RunTask(s, ResetTask, None)) <==> forall c :: c in s.transactions.vals ==> !Live(s, c)
  {
    var t := RunTask(s, ResetTask, None);
    ReleaseStays(s, s.connectorStates.keys);
    ReleasedShow(s, s.connectorStates.keys);
    assert t.transactions == s.transactions;
    forall c | c in s.transactions.vals ensures c in t.connectorStates.vals && t.connectorStates.vals[c].status != Charging {
      assert c in s.connectorStates.keys;
      assert ConnectorOf(t, c).status != Charging;
    }
  }

  /** An accepted Authorize puts a new row over whatever the connector holds. */
  lemma AuthorizeKeepsLiveExactly(s: Runtime, uid: nat, p: ReplyPayload, c: int)
    requires uid in s.link.pendingCalls.vals && IsAuthorizeCall(s.link.pendingCalls.vals[uid])
    requires s.link.pendingCalls.vals[uid].connectorId == Some(c) && p.tagAccepted
    ensures LiveStay(s, HandleCallResult(s, uid, Some(p))) <==> !Live(s, c)
  {
    var t := HandleCallResult(s, uid, Some(p));
    assert t.transactions.vals[c].transactionId.None?;
    forall d | d in s.transactions.vals && d != c ensures d in t.transactions.vals && t.transactions.vals[d] == s.transactions.vals[d] { }
  }

  /** An UnlockConnector drops the connector's row without telling the StartTransaction that
      is still outstanding for it. */
  lemma UnlockKeepsBindingExactly(s: Runtime, c: int)
    requires Discipline.Inv(s) && c in s.connectorStates.vals
    ensures var t, shown := HandleUnlockConnector(s, Some(c)).0, s.connectorStates.vals[c].status;
            AskersOf(t.link) == Waiting(t) <==> c !in Waiting(s) || (shown != Preparing && shown != Finishing)
  {
    var t := HandleUnlockConnector(s, Some(c)).0;
    var shown := s.connectorStates.vals[c].status;
    if shown == Preparing || shown == Finishing {
      if Registered(s.link) {
        SentKeeps(s.link, StatusNotification(c, Available, false), None, None);
      }
      assert AskersOf(t.link) == AskersOf(s.link);
      assert t.transactions == Remove(s.transactions, c);
      SelectWithout(s.transactions.keys, c, s.transactions.vals, Unidentified);
      if c in Waiting(s) {
        assert c !in Waiting(t);
      } else {
        WithoutAbsent(Waiting(s), c);
      }
    }
  }

  lemma StatusShows(s: Runtime, c: int, status: ConnectorStatus)
    requires s.link.registration == Accepted
    ensures var t := SetConnectorStatus(s, c, status);
            && c in t.connectorStates.vals && t.connectorStates.vals[c].status == status
            && (forall d :: d in s.connectorStates.vals && d != c ==>
                  d in t.connectorStates.vals && t.connectorStates.vals[d] == s.connectorStates.vals[d])
  {
  }

  /** The other rows are as they were, and the one on `c` is live if it was and did not stop. */
  ghost predicate OnlyStops(s: Runtime, t: Runtime, c: int, stops: bool) {
    && t.transactions.vals.Keys == s.transactions.vals.Keys
    && (forall d :: d in s.transactions.vals && d != c ==> t.transactions.vals[d] == s.transactions.vals[d])
    && (Live(t, c) <==> Live(s, c) && !stops)
  }

  lemma StopStops(s: Runtime, c: int, reason: StopReason)
    ensures OnlyStops(s, StopTransactionOn(s, c, reason), c, s.link.isOpen)
  {
  }

  lemma StatusStops(s: Runtime, c: int, status: ConnectorStatus)
    requires s.link.registration == Accepted
    ensures OnlyStops(s, SetConnectorStatus(s, c, status), c, status == Faulted && s.link.isOpen)
  {
    var s1 := EnsureConnector(s, c);
    if status == Faulted {
      var f := WithConnector(s1, c, ConnectorOf(s1, c).(faultCode := true));
      StopStops(f, c, EmergencyStop);
      assert SetConnectorStatus(s, c, status).transactions == StopTransactionOn(f, c, EmergencyStop).transactions;
    }
  }

  /** A status set by hand agrees with a live transaction only if it is Charging, or Faulted,
      which stops the transaction while the socket is open. */
  lemma StatusKeepsChargingExactly(s: Runtime, c: int, status: ConnectorStatus)
    requires TableOk(s) && s.link.registration == Accepted
    ensures LiveIsCharging(SetConnectorStatus(s, c, status)) <==>
              !Live(s, c) || status == Charging || (status == Faulted && s.link.isOpen)
  {
    StatusShows(s, c, status);
    StatusStops(s, c, status);
  }
}
