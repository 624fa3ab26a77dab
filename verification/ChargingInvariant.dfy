/** In every reachable state a connector that shows Charging holds a transaction
    whose stop has not been sent, and a transaction whose stop has been sent is
    fully described.  The one event that can break this is `setConnectorStatus`
    with Charging, and exactly when it does is stated here. */
module ChargingInvariant {
  import opened Wrappers
  import opened OrderedMaps
  import opened ChargePointTypes
  import opened DcMeter
  import opened ChargePointModel

  ghost predicate RowOk(c: int, tx: Transaction) {
    && tx.connectorId == c
    && (tx.transactionId.Some? ==> tx.transactionId.value != 0)
    && (tx.stopPending ==> tx.transactionId.Some? && tx.meterStop.Some? && tx.stopReason.Some?)
  }

  ghost predicate RowsOk(s: Runtime) {
    forall c :: c in s.transactions.vals ==> RowOk(c, s.transactions.vals[c])
  }

  ghost predicate HasLiveRow(s: Runtime, c: int) {
    c in s.transactions.vals && !s.transactions.vals[c].stopPending
  }

  ghost predicate ChargingHasRow(s: Runtime) {
    forall c :: c in s.connectorStates.vals && s.connectorStates.vals[c].status == Charging ==> HasLiveRow(s, c)
  }

  ghost predicate Inv(s: Runtime) {
    RowsOk(s) && ChargingHasRow(s)
  }

  lemma {:induction false} StopAllKeeps(s: Runtime, keys: seq<int>, reason: StopReason)
    requires Inv(s)
    ensures Inv(StopAll(s, keys, reason))
    decreases keys
  {
    if keys != [] {
      StopAllKeeps(StopTransactionOn(s, keys[0], reason), keys[1..], reason);
      StopAllKeeps(s, keys[1..], reason);
    }
  }

  lemma {:induction false} AvailabilityKeeps(s: Runtime, ids: seq<int>, availability: Availability)
    requires Inv(s)
    ensures Inv(ApplyAvailabilityAll(s, ids, availability).0)
    decreases ids
  {
    if ids != [] {
      AvailabilityKeeps(ApplyAvailability(s, ids[0], availability), ids[1..], availability);
    }
  }

  lemma {:induction false} ReleaseKeeps(s: Runtime, keys: seq<int>)
    requires Inv(s)
    ensures Inv(ReleaseAll(s, keys))
    decreases keys
  {
    if keys != [] {
      var cs := ConnectorOf(s, keys[0]);
      ReleaseKeeps(SendStatus(WithConnector(s, keys[0], Released(cs)), keys[0], Available, false), keys[1..]);
      ReleaseKeeps(s, keys[1..]);
    }
  }

  lemma {:induction false} ReportKeeps(s: Runtime, connectors: seq<int>)
    requires Inv(s)
    ensures Inv(ReportAll(s, connectors))
    decreases connectors
  {
    if connectors != [] {
      ReportKeeps(SendStatus(EnsureConnector(s, connectors[0]), connectors[0], Available, false), connectors[1..]);
    }
  }

  lemma {:induction false} SampleKeeps(s: Runtime, keys: seq<int>)
    requires Inv(s)
    ensures Inv(SampleAll(s, keys))
    decreases keys
  {
    if keys != [] {
      if keys[0] in s.transactions.vals && Sampled(s.transactions.vals[keys[0]]) {
        SampleKeeps(SendMeterValues(s, keys[0]), keys[1..]);
      } else {
        SampleKeeps(s, keys[1..]);
      }
    }
  }

  lemma FinishKeeps(s: Runtime, c: int)
    requires Inv(s)
    requires c in s.transactions.vals ==> s.transactions.vals[c].stopPending
    ensures Inv(FinishStopped(s, c))
  {
  }

  lemma AuthorizeReplyKeeps(s: Runtime, p: ReplyPayload, call: PendingCall)
    requires Inv(s)
    ensures Inv(AuthorizeReply(s, p, call))
  {
  }

  lemma StartReplyKeeps(s: Runtime, p: ReplyPayload)
    requires Inv(s)
    ensures Inv(StartReply(s, p))
  {
  }

  lemma StopReplyKeeps(s: Runtime)
    requires Inv(s)
    ensures Inv(StopReply(s))
  {
    var found := Find(s.transactions.keys, s.transactions.vals, StopIsPending);
    if found.Some? {
      FinishKeeps(s, found.value);
    }
  }

  lemma ReplyKeeps(s: Runtime, uid: nat, payload: Option<ReplyPayload>)
    requires Inv(s)
    ensures Inv(HandleCallResult(s, uid, payload))
  {
    if uid in s.link.pendingCalls.vals {
      var call := s.link.pendingCalls.vals[uid];
      var s1 := Answered(s, uid);
      if call.action == StopTransactionAction {
        StopReplyKeeps(s1);
      } else if payload.Some? {
        match call.action {
          case AuthorizeAction => AuthorizeReplyKeeps(s1, payload.value, call);
          case StartTransactionAction => StartReplyKeeps(s1, payload.value);
          case _ =>
        }
      }
    }
  }

  lemma CommandKeeps(s: Runtime, command: Command, detail: seq<int>)
    requires Inv(s)
    ensures Inv(HandleCommand(s, command, detail).0)
  {
    match command {
      case Reset(t) =>
        if t.Some? { StopAllKeeps(s, s.transactions.keys, ReasonOf(t.value)); }
      case ChangeAvailability(c, a) =>
        if c.Some? && a.Some? { AvailabilityKeeps(s, AvailabilityTargets(s, c.value, detail), a.value); }
      case _ =>
    }
  }

  lemma RemoteStartTaskKeeps(s: Runtime, c: int, idTag: string)
    requires Inv(s)
    ensures Inv(RunRemoteStart(s, c, idTag))
  {
  }

  lemma TaskKeeps(s: Runtime, kind: TaskKind, fetched: Option<seq<int>>)
    requires Inv(s)
    ensures Inv(RunTask(s, kind, fetched))
  {
    match kind {
      case RemoteStartTask(c, idTag) => RemoteStartTaskKeeps(s, c, idTag);
      case ResetTask => ReleaseKeeps(s, s.connectorStates.keys);
      case InitialStatusTask =>
        if fetched.Some? { ReportKeeps(SendStatus(s, MAIN_CONTROLLER, Available, false), fetched.value); }
      case StopTimeoutTask(c) =>
        if c in s.transactions.vals && s.transactions.vals[c].stopPending { FinishKeeps(s, c); }
      case RemoteStopTask(c) => StopOneKeeps(s, c, Remote);
      case TriggerTask(requested, c) => TriggerKeeps(s, requested, c);
      case BootRetryTask =>
    }
  }

  lemma TriggerKeeps(s: Runtime, requested: TriggerKind, target: Option<int>)
    requires Inv(s)
    ensures Inv(RunTrigger(s, requested, target))
  {
  }

  lemma FrameKeeps(s: Runtime, frame: InFrame, detail: seq<int>)
    requires Inv(s)
    ensures Inv(HandleFrame(s, frame, detail))
  {
    match frame {
      case InCall(uid, command) => CommandKeeps(s, command, detail);
      case InResult(uid, payload) => ReplyKeeps(s, uid, payload);
      case InError(uid) =>
      case InUnknown =>
    }
  }

  lemma StopOneKeeps(s: Runtime, c: int, reason: StopReason)
    requires Inv(s)
    ensures Inv(StopTransactionOn(s, c, reason))
  {
  }

  lemma ShowKeeps(s: Runtime, c: int, cs: ConnectorState)
    requires Inv(s) && cs.status != Charging
    ensures Inv(SendStatus(WithConnector(s, c, cs), c, cs.status, cs.faultCode))
  {
  }

  lemma SetStatusKeeps(s: Runtime, c: int, status: ConnectorStatus)
    requires Inv(s) && status != Charging
    ensures Inv(SetConnectorStatus(s, c, status))
  {
    if s.link.registration == Accepted {
      var s1 := EnsureConnector(s, c);
      assert Inv(s1);
      var s2 :=
        if status == Faulted then
          StopTransactionOn(WithConnector(s1, c, ConnectorOf(s1, c).(faultCode := true)), c, EmergencyStop)
        else if IsSuspended(status) then
          if c in s1.transactions.vals then WithTransaction(s1, c, s1.transactions.vals[c].(status := TxCharging)) else s1
        else if status == Available then WithConnector(s1, c, ConnectorOf(s1, c).(faultCode := false))
        else s1;
      if status == Faulted {
        StopOneKeeps(WithConnector(s1, c, ConnectorOf(s1, c).(faultCode := true)), c, EmergencyStop);
      }
      assert Inv(s2);
      var cs := ConnectorOf(s2, c).(status := status);
      ShowKeeps(s2, c, if status == Available then cs.(cablePluggedIn := false) else cs);
    }
  }

  lemma UnplugKeeps(s: Runtime, c: int)
    requires Inv(s)
    ensures Inv(Unplug(s, c))
  {
  }

  lemma StepKeeps(s: Runtime, e: Event)
    requires Inv(s) && Enabled(s, e)
    requires !(e.PressStatus? && e.status == Charging)
    ensures Inv(Apply(s, e))
  {
    match e {
      case OnFrame(frame, detail) => FrameKeeps(s, frame, detail);
      case OnTask(i, fetched) => TaskKeeps(RemoveTask(s, i), s.tasks[i].kind, fetched);
      case OnMeterTimer =>
        SampleKeeps(s.(meterValuesTimer := Some(s.meterValuesTimer.value + SAMPLE_PERIOD)), s.transactions.keys);
      case PressUnplug(c) => UnplugKeeps(s, c);
      case PressStatus(c, status) => SetStatusKeeps(s, c, status);
      case _ =>
    }
  }

  /** Over every run in which no one forces a connector to Charging by hand. */
  lemma {:induction false} ChargingMeansLiveTransaction(ss: seq<Runtime>, es: seq<Event>, i: nat)
    requires IsRun(ss, es) && i < |ss|
    requires forall j :: 0 <= j < |es| ==> !(es[j].PressStatus? && es[j].status == Charging)
    ensures Inv(ss[i])
  {
    if i > 0 {
      ChargingMeansLiveTransaction(ss, es, i - 1);
      StepKeeps(ss[i - 1], es[i - 1]);
    }
  }

  /** The excluded event keeps the invariant exactly when the connector already holds a live row. */
  lemma ForcedChargingExactly(s: Runtime, c: int)
    requires Inv(s)
    ensures Inv(Apply(s, PressStatus(c, Charging))) <==> s.link.registration != Accepted || HasLiveRow(s, c)
  {
    if s.link.registration == Accepted {
      var s' := Apply(s, PressStatus(c, Charging));
      assert s'.connectorStates.vals[c].status == Charging;
    }
  }
}
