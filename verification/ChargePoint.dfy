/** The charge point runtime as the store keeps it: one object whose handlers
    update its fields in place and loop over its maps.  Each method is proved to
    do to the object exactly what its counterpart in ChargePointModel does to a
    value, so the properties of the runs of `Apply` are properties of this object. */
module ChargePointRuntime {
  import opened Wrappers
  import opened OrderedMaps
  import opened ChargePointTypes
  import opened DcMeter
  import Spec = ChargePointModel
  import Effects = StoreEffects
  import Samples = SampleEffects
  import Commands = CommandEffects
  import Replies = ReplyEffects
  import Events = EventEffects

  class ChargePoint {
    var now: nat
    var isOpen: bool
    var registration: Registration
    var heartbeatInterval: Option<nat>
    var heartbeatTimer: Option<HeartbeatTimer>
    var lastMessageSentAt: nat
    var pendingCalls: JsMap<PendingCall>
    var connectorStates: JsMap<ConnectorState>
    var transactions: JsMap<Transaction>
    var meterCounter: nat
    var meterValuesTimer: Option<nat>
    var tasks: seq<Task>
    var nextUid: nat
    ghost var trace: seq<TraceEntry>

    ghost function Model(): Runtime
      reads this
    {
      Runtime(
        Link(now, isOpen, registration, heartbeatInterval, heartbeatTimer, lastMessageSentAt, pendingCalls, nextUid, trace),
        connectorStates, transactions, meterCounter, meterValuesTimer, tasks)
    }

    /** Both tables list each of their keys once. */
    ghost predicate Valid()
      reads this
    {
      Events.TablesValid(Model())
    }

    constructor (at: nat)
      ensures Model() == Spec.Init(at) && Valid()
    {
      now, isOpen, registration := at, false, Disconnected;
      heartbeatInterval, heartbeatTimer, lastMessageSentAt := None, None, at;
      pendingCalls, connectorStates, transactions := Empty(), Empty(), Empty();
      meterCounter, meterValuesTimer, tasks := 0, None, [];
      nextUid, trace := 0, [];
    }

    // ----- Small helpers -----

    method EnsureConnectorState(c: int) returns (cs: ConnectorState)
      modifies this`connectorStates
      ensures Model() == Spec.EnsureConnector(old(Model()), c)
      ensures c in connectorStates.vals && cs == connectorStates.vals[c] == Spec.ConnectorOf(Model(), c)
    {
      if c !in connectorStates.vals {
        connectorStates := Put(connectorStates, c, Spec.FreshConnector);
      }
      cs := connectorStates.vals[c];
    }

    method StoreConnector(c: int, cs: ConnectorState)
      modifies this`connectorStates
      ensures Model() == Spec.WithConnector(old(Model()), c, cs)
    {
      connectorStates := Put(connectorStates, c, cs);
    }

    method SetTimeout(delay: nat, kind: TaskKind)
      modifies this`tasks
      ensures Model() == Spec.Schedule(old(Model()), delay, kind)
    {
      tasks := tasks + [Task(now + delay, kind)];
    }

    method FirstConnectorInState(detail: seq<int>) returns (c: Option<int>)
      ensures c == Spec.FirstConnector(Model(), detail)
    {
      if |connectorStates.keys| > 0 {
        return Some(connectorStates.keys[0]);
      }
      if |detail| > 0 {
        return Some(detail[0]);
      }
      return None;
    }

    // ----- Sending -----

    method ScheduleHeartbeat()
      modifies this`heartbeatTimer
      ensures Model().link == Spec.ScheduleHeartbeat(old(Model()).link)
      ensures Model() == old(Model()).(link := Model().link)
    {
      if registration != Accepted || heartbeatInterval.None? || heartbeatInterval.value == 0 {
        return;
      }
      heartbeatTimer := None;
      var delay := heartbeatInterval.value * 1000;
      heartbeatTimer := Some(HeartbeatTimer(now + delay, delay));
    }

    method SendFrame(call: OutCall, connectorId: Option<int>, idTag: Option<string>)
      modifies this
      ensures Model() == Spec.SendFrame(old(Model()), call, connectorId, idTag)
      ensures Effects.Sends(old(Model()), Model(), call, connectorId, idTag)
    {
      Effects.SendEffect(Model(), call, connectorId, idTag);
      if !isOpen {
        return;
      }
      var uid := nextUid;
      nextUid := nextUid + 1;
      trace := trace + [Sent(now, uid, call)];
      pendingCalls := Put(pendingCalls, uid, PendingCall(call.ActionOf(), connectorId, idTag));
      lastMessageSentAt := now;
      ScheduleHeartbeat();
    }

    method SendResponseFrame(uid: string, response: ResponseStatus)
      modifies this`trace, this`lastMessageSentAt
      ensures Model() == old(Model()).(link := Spec.Respond(old(Model()).link, uid, response))
    {
      if !isOpen {
        return;
      }
      trace := trace + [Responded(now, uid, response)];
      lastMessageSentAt := now;
    }

    method SendBootNotification()
      modifies this
      ensures Model() == Spec.SendBootNotification(old(Model()))
      ensures Effects.Sends(old(Model()), Model(), BootNotification, None, None)
    {
      Effects.SendEffect(Model(), BootNotification, None, None);
      if !isOpen {
        return;
      }
      SendFrame(BootNotification, None, None);
    }

    method SendHeartbeat()
      modifies this
      ensures Model() == Spec.SendHeartbeat(old(Model()))
      ensures Commands.Beats(old(Model()), Model())
    {
      Commands.BeatEffect(Model());
      if registration != Accepted || !isOpen {
        return;
      }
      SendFrame(Heartbeat, None, None);
    }

    method SendStatusNotification(c: int, status: ConnectorStatus, fault: bool)
      modifies this
      ensures Model() == Spec.SendStatus(old(Model()), c, status, fault)
      ensures old(registration) == Accepted ==> Effects.Sends(old(Model()), Model(), StatusNotification(c, status, fault), None, None)
      ensures old(registration) != Accepted ==> Model() == old(Model())
    {
      Effects.SendEffect(Model(), StatusNotification(c, status, fault), None, None);
      if registration != Accepted || !isOpen {
        return;
      }
      SendFrame(StatusNotification(c, status, fault), None, None);
    }

    // ----- Meter values -----

    method SendMeterValuesForTransaction(c: int)
      requires c in transactions.vals && transactions.vals[c].transactionId.Some?
      modifies this
      ensures Model() == Spec.SendMeterValues(old(Model()), c)
      ensures Samples.Samples(old(Model()), Model(), c)
    {
      Samples.SampleEffect(Model(), c);
      if registration != Accepted || !isOpen {
        return;
      }
      var tx := AdvanceDcMeter(transactions.vals[c], SAMPLE_SECONDS);
      transactions := Put(transactions, c, tx);
      SendFrame(Spec.SampleOf(c, tx), None, None);
    }

    method SendConnectorMeterValues(c: int) returns (sent: bool)
      modifies this
      ensures Model() == Spec.TriggeredMeterValues(old(Model()), c)
      ensures sent == (c in old(transactions).vals && Spec.Stoppable(old(transactions).vals[c]))
      ensures Samples.SamplesLive(old(Model()), Model(), c)
    {
      Samples.SampleLiveEffect(Model(), c);
      if c !in transactions.vals || transactions.vals[c].transactionId.None? || transactions.vals[c].stopPending {
        return false;
      }
      SendMeterValuesForTransaction(c);
      return true;
    }

    /** The interval callback: every charging transaction with an id, in table order. */
    method OnMeterTimer()
      requires meterValuesTimer.Some?
      modifies this
      ensures Model() == Spec.FireMeterTimer(old(Model()))
      ensures old(Valid()) ==> Samples.Ticks(old(Model()), Model())
    {
      if Valid() { Samples.TickEffect(Model()); }
      meterValuesTimer := Some(meterValuesTimer.value + Spec.SAMPLE_PERIOD);
      var keys := transactions.keys;
      ghost var start := Model();
      var i := 0;
      while i < |keys|
        invariant 0 <= i <= |keys|
        invariant Spec.SampleAll(start, keys) == Spec.SampleAll(Model(), keys[i..])
      {
        var c := keys[i];
        assert keys[i..][1..] == keys[i + 1..];
        if c in transactions.vals && transactions.vals[c].status == TxCharging && transactions.vals[c].transactionId.Some? {
          SendMeterValuesForTransaction(c);
        }
        i := i + 1;
      }
    }

    // ----- Stopping -----

    method StopConnectorTransaction(c: int, reason: StopReason) returns (stopped: bool)
      modifies this
      ensures Model() == Spec.StopTransactionOn(old(Model()), c, reason)
      ensures stopped == Spec.CanStop(old(Model()), c)
      ensures Effects.Stops(old(Model()), Model(), c, reason) && (stopped <==> Effects.MayStop(old(Model()), c))
    {
      Effects.StopEffect(Model(), c, reason);
      if c !in transactions.vals || transactions.vals[c].transactionId.None? || transactions.vals[c].stopPending {
        return false;
      }
      if !isOpen {
        return false;
      }
      var tx := transactions.vals[c];
      tx := tx.(status := TxFinishing, stopReason := Some(reason), stopPending := true);
      tx := AdvanceDcMeter(tx, STOP_SECONDS);
      tx := tx.(meterStop := Some(tx.meterCurrent));
      transactions := Put(transactions, c, tx);
      var cs := EnsureConnectorState(c);
      StoreConnector(c, cs.(status := Finishing));
      PutTwice(old(connectorStates), c, Spec.FreshConnector, cs.(status := Finishing));
      SendStatusNotification(c, Finishing, false);
      SendFrame(StopTransaction(tx.transactionId.value, tx.idTag, tx.meterStop.value, reason, tx.meterStart), Some(c), None);
      SetTimeout(Spec.STOP_TIMEOUT, StopTimeoutTask(c));
      return true;
    }

    method FinishStoppedTransaction(c: int)
      modifies this
      ensures Model() == Spec.FinishStopped(old(Model()), c)
      ensures Effects.Finishes(old(Model()), Model(), c)
    {
      Effects.FinishEffect(Model(), c);
      if c !in transactions.vals {
        return;
      }
      transactions := Remove(transactions, c);
      if Find(transactions.keys, transactions.vals, Spec.IsCharging).None? {
        meterValuesTimer := None;
      }
      var cs := EnsureConnectorState(c);
      if cs.availabilityRequested == Some(Inoperative) {
        StoreConnector(c, cs.(status := Unavailable, cablePluggedIn := false));
        SendStatusNotification(c, Unavailable, false);
      }
    }

    // ----- Replies to our own calls -----

    method HandleBootNotificationResponse(p: ReplyPayload)
      modifies this
      ensures Model() == Spec.BootReply(old(Model()), p)
    {
      var interval := p.interval.GetOr(Spec.DEFAULT_INTERVAL);
      match p.status {
        case BootAcceptedStatus =>
          registration := Accepted;
          heartbeatInterval := Some(interval);
          trace := trace + [BootAccepted(now)];
          SetTimeout(0, InitialStatusTask);
          ScheduleHeartbeat();
        case BootPendingStatus =>
          registration := Pending;
        case BootRejectedStatus =>
          registration := Rejected;
          SetTimeout(interval * 1000, BootRetryTask);
        case BootOtherStatus =>
      }
    }

    method SetStatusIfPresent(c: int, status: ConnectorStatus)
      modifies this`connectorStates
      ensures Model() == Spec.SetStatusIfPresent(old(Model()), c, status)
    {
      if c in connectorStates.vals {
        StoreConnector(c, connectorStates.vals[c].(status := status));
      }
    }

    method HandleAuthorizeResponse(p: ReplyPayload, call: PendingCall)
      modifies this
      ensures Model() == Spec.AuthorizeReply(old(Model()), p, call)
    {
      var idTag := call.idTag.GetOr(Spec.DEFAULT_ID_TAG);
      if call.connectorId.None? {
        return;
      }
      var c := call.connectorId.value;
      if p.tagAccepted {
        meterCounter := meterCounter + 100;
        var meterStart := meterCounter;
        transactions := Put(transactions, c, Spec.NewTransaction(c, idTag, meterStart));
        SendFrame(StartTransaction(c, idTag, meterStart), Some(c), None);
      } else {
        SetStatusIfPresent(c, Available);
      }
    }

    method HandleStartTransactionResponse(p: ReplyPayload)
      modifies this
      ensures Model() == Spec.StartReply(old(Model()), p)
      ensures Effects.Answers(old(Model()), Model(), p)
    {
      Effects.StartReplyEffect(Model(), p);
      var found := Find(transactions.keys, transactions.vals, Spec.Unidentified);
      if found.None? {
        return;
      }
      var tx := transactions.vals[found.value];
      var c := tx.connectorId;
      if p.tagAccepted && p.transactionId.Some? && p.transactionId.value != 0 {
        transactions := Put(transactions, found.value, tx.(transactionId := p.transactionId, status := TxCharging));
        SetStatusIfPresent(c, Charging);
        SendStatusNotification(c, Charging, false);
        StartMeterValuesTimer();
      } else {
        transactions := Remove(transactions, c);
        SetStatusIfPresent(c, Available);
      }
    }

    method StartMeterValuesTimer()
      modifies this`meterValuesTimer
      ensures Model() == Spec.StartMeterTimer(old(Model()))
    {
      meterValuesTimer := None;
      meterValuesTimer := Some(now + Spec.SAMPLE_PERIOD);
    }

    method HandleStopTransactionResponse()
      modifies this
      ensures Model() == Spec.StopReply(old(Model()))
    {
      var found := Find(transactions.keys, transactions.vals, Spec.StopIsPending);
      if found.None? {
        return;
      }
      FinishStoppedTransaction(transactions.vals[found.value].connectorId);
    }

    method HandleCallResult(uid: nat, payload: Option<ReplyPayload>)
      modifies this
      ensures Model() == Spec.HandleCallResult(old(Model()), uid, payload)
      ensures Replies.Routes(old(Model()), Model(), uid, payload)
    {
      Replies.CallResultEffect(Model(), uid, payload);
      if uid !in pendingCalls.vals {
        return;
      }
      var call := pendingCalls.vals[uid];
      pendingCalls := Remove(pendingCalls, uid);
      if call.action == StopTransactionAction {
        HandleStopTransactionResponse();
      } else if payload.Some? {
        match call.action {
          case BootNotificationAction => HandleBootNotificationResponse(payload.value);
          case AuthorizeAction => HandleAuthorizeResponse(payload.value, call);
          case StartTransactionAction => HandleStartTransactionResponse(payload.value);
          case _ =>
        }
      }
    }

    method HandleCallError(uid: nat)
      modifies this
      ensures Model() == Spec.HandleCallError(old(Model()), uid)
      ensures Replies.Fails(old(Model()), Model(), uid)
    {
      Replies.CallErrorEffect(Model(), uid);
      if uid !in pendingCalls.vals {
        return;
      }
      var call := pendingCalls.vals[uid];
      pendingCalls := Remove(pendingCalls, uid);
      if call.action.AuthorizeAction? || call.action.StartTransactionAction? {
        if call.connectorId.Some? {
          var c := call.connectorId.value;
          if c in connectorStates.vals {
            StoreConnector(c, connectorStates.vals[c].(status := Available, cablePluggedIn := false));
          }
          transactions := Remove(transactions, c);
        }
      }
    }

    // ----- CSMS commands -----

    method HandleRemoteStart(idTag: string, requested: Option<int>, detail: seq<int>) returns (r: ResponseStatus)
      modifies this
      ensures (Model(), r) == Spec.HandleRemoteStart(old(Model()), idTag, requested, detail)
      ensures exists target :: Commands.Targets(old(Model()), requested, detail, target) &&
                Commands.RemoteStarts(old(Model()), Model(), idTag, target, r)
    {
      Commands.RemoteStartEffect(Model(), idTag, requested, detail);
      var target := requested;
      if target.None? {
        target := FirstConnectorInState(detail);
      }
      if idTag == "" || target.None? {
        return RespRejected;
      }
      var c := target.value;
      var cs := EnsureConnectorState(c);
      if cs.status != Available && cs.status != Preparing {
        return RespRejected;
      }
      StoreConnector(c, cs.(pendingRemoteStartIdTag := Some(idTag)));
      SetTimeout(0, RemoteStartTask(c, idTag));
      return RespAccepted;
    }

    method HandleRemoteStop(transactionId: Option<int>) returns (r: ResponseStatus)
      modifies this
      ensures (Model(), r) == Spec.HandleRemoteStop(old(Model()), transactionId)
      ensures Commands.RemoteStops(old(Model()), Model(), transactionId, r)
    {
      Commands.RemoteStopEffect(Model(), transactionId);
      var found: Option<int> := None;
      if transactionId.Some? {
        found := Spec.FindById(transactions.keys, transactions.vals, transactionId.value);
      }
      if found.None? {
        return RespRejected;
      }
      SetTimeout(0, RemoteStopTask(found.value));
      return RespAccepted;
    }

    method HandleUnlockConnector(target: Option<int>) returns (r: ResponseStatus)
      modifies this
      ensures (Model(), r) == Spec.HandleUnlockConnector(old(Model()), target)
      ensures Commands.Unlocks(old(Model()), Model(), target, r)
    {
      Commands.UnlockEffect(Model(), target);
      if target.None? || target.value !in connectorStates.vals {
        return RespUnlockFailed;
      }
      var c := target.value;
      var cs := connectorStates.vals[c];
      if cs.status == Preparing || cs.status == Finishing {
        transactions := Remove(transactions, c);
        StoreConnector(c, cs.(cablePluggedIn := false, status := Available, pendingRemoteStartIdTag := None));
        SendStatusNotification(c, Available, false);
        return RespUnlocked;
      }
      return if cs.status == Charging then RespUnlockFailed else RespUnlocked;
    }

    method HandleReset(resetType: Option<ResetType>) returns (r: ResponseStatus)
      modifies this
      ensures (Model(), r) == Spec.HandleReset(old(Model()), resetType)
      ensures old(Valid()) ==> Commands.Resets(old(Model()), Model(), resetType, r)
    {
      if Valid() { Commands.ResetEffect(Model(), resetType); }
      if resetType.None? {
        return RespRejected;
      }
      var reason := if resetType.value == Hard then HardReset else SoftReset;
      var keys := transactions.keys;
      ghost var start := Model();
      var i := 0;
      while i < |keys|
        invariant 0 <= i <= |keys|
        invariant Spec.StopAll(start, keys, reason) == Spec.StopAll(Model(), keys[i..], reason)
      {
        var c := keys[i];
        assert keys[i..][1..] == keys[i + 1..];
        if c in transactions.vals && transactions.vals[c].transactionId.Some? && !transactions.vals[c].stopPending {
          var _ := StopConnectorTransaction(c, reason);
        }
        i := i + 1;
      }
      SetTimeout(Spec.RESET_DELAY, ResetTask);
      return RespAccepted;
    }

    method ApplyAvailability(c: int, availability: Availability) returns (deferred: bool)
      modifies this
      ensures Model() == Spec.ApplyAvailability(old(Model()), c, availability)
      ensures deferred == (availability == Inoperative && Spec.Busy(Spec.ConnectorOf(old(Model()), c).status))
      ensures Commands.SetsAvailability(old(Model()), Model(), c, availability)
    {
      Commands.SetOneEffect(Model(), c, availability);
      deferred := false;
      var cs := EnsureConnectorState(c);
      cs := cs.(availabilityRequested := Some(availability));
      if availability == Inoperative {
        if cs.status == Charging || cs.status == Preparing || cs.status == Finishing {
          StoreConnector(c, cs);
          deferred := true;
        } else {
          StoreConnector(c, cs.(status := Unavailable, cablePluggedIn := false));
          SendStatusNotification(c, Unavailable, false);
        }
      } else if cs.status == Unavailable {
        StoreConnector(c, cs.(status := Available));
        SendStatusNotification(c, Available, false);
      } else {
        StoreConnector(c, cs);
      }
    }

    method HandleChangeAvailability(target: Option<int>, availability: Option<Availability>, detail: seq<int>)
      returns (r: ResponseStatus)
      modifies this
      ensures (Model(), r) == Spec.HandleChangeAvailability(old(Model()), target, availability, detail)
      ensures Commands.SetsAvailabilities(old(Model()), Model(), target, availability, detail, r)
    {
      Commands.ChangeAvailabilityEffect(Model(), target, availability, detail);
      if target.None? || availability.None? {
        return RespRejected;
      }
      var ids := if target.value != Spec.MAIN_CONTROLLER then [target.value]
                 else if |connectorStates.keys| > 0 then connectorStates.keys else detail;
      if |ids| == 0 {
        return RespRejected;
      }
      var scheduled := false;
      ghost var start := Model();
      var i := 0;
      while i < |ids|
        invariant 0 <= i <= |ids|
        invariant Spec.ApplyAvailabilityAll(start, ids, availability.value).0 ==
                  Spec.ApplyAvailabilityAll(Model(), ids[i..], availability.value).0
        invariant Spec.ApplyAvailabilityAll(start, ids, availability.value).1 ==
                  (scheduled || Spec.ApplyAvailabilityAll(Model(), ids[i..], availability.value).1)
      {
        assert ids[i..][1..] == ids[i + 1..];
        var deferred := ApplyAvailability(ids[i], availability.value);
        scheduled := scheduled || deferred;
        i := i + 1;
      }
      return if scheduled then RespScheduled else RespAccepted;
    }

    method HandleTriggerMessage(requested: TriggerKind, target: Option<int>, detail: seq<int>) returns (r: ResponseStatus)
      modifies this
      ensures (Model(), r) == Spec.HandleTriggerMessage(old(Model()), requested, target, detail)
      ensures Commands.Triggers(old(Model()), Model(), requested, target, detail, r)
    {
      Commands.TriggerEffect(Model(), requested, target, detail);
      var c := target;
      if c.None? {
        c := FirstConnectorInState(detail);
      }
      SetTimeout(0, TriggerTask(requested, c));
      return if requested == TriggerEmpty then RespRejected else RespAccepted;
    }

    method HandleInboundCall(uid: string, command: Command, detail: seq<int>)
      modifies this
      ensures Model() == Spec.HandleInboundCall(old(Model()), uid, command, detail)
      ensures old(Valid()) ==> Commands.AnswersCall(old(Model()), Model(), uid, command, detail)
    {
      if Valid() { Commands.InboundCallEffect(Model(), uid, command, detail); }
      var r: ResponseStatus;
      match command {
        case RemoteStart(idTag, c) => r := HandleRemoteStart(idTag, c, detail);
        case RemoteStop(id) => r := HandleRemoteStop(id);
        case UnlockConnector(c) => r := HandleUnlockConnector(c);
        case Reset(t) => r := HandleReset(t);
        case ChangeAvailability(c, a) => r := HandleChangeAvailability(c, a, detail);
        case TriggerMessage(m, c) => r := HandleTriggerMessage(m, c, detail);
        case ChangeConfiguration => r := RespAccepted;
        case GetConfiguration => r := RespConfiguration;
        case UnknownCommand => r := RespNotImplemented;
      }
      SendResponseFrame(uid, r);
    }

    method HandleOCPPFrame(frame: InFrame, detail: seq<int>)
      modifies this
      ensures Model() == Spec.HandleFrame(old(Model()), frame, detail)
      ensures Effects.Handles(old(Model()), Model(), frame)
    {
      Effects.FrameEffect(Model(), frame, detail);
      match frame {
        case InCall(uid, command) => HandleInboundCall(uid, command, detail);
        case InResult(uid, payload) => HandleCallResult(uid, payload);
        case InError(uid) => HandleCallError(uid);
        case InUnknown =>
      }
    }

    // ----- Deferred tasks -----

    method RunRemoteStart(c: int, idTag: string)
      modifies this
      ensures Model() == Spec.RunRemoteStart(old(Model()), c, idTag)
      ensures Commands.RunsRemoteStart(old(Model()), Model(), c, idTag)
    {
      Commands.RunRemoteStartEffect(Model(), c, idTag);
      var cs := EnsureConnectorState(c);
      if cs.status == Available {
        cs := cs.(cablePluggedIn := true, status := Preparing);
        StoreConnector(c, cs);
        SendStatusNotification(c, Preparing, false);
      }
      if cs.status == Preparing {
        SendFrame(Authorize(idTag), Some(c), Some(idTag));
      }
    }

    method RunReset()
      modifies this
      ensures Model() == Spec.RunTask(old(Model()), ResetTask, None)
      ensures old(Valid()) ==> Commands.RunsReset(old(Model()), Model())
    {
      if Valid() { Commands.RunResetEffect(Model()); }
      var keys := connectorStates.keys;
      ghost var start := Model();
      var i := 0;
      while i < |keys|
        invariant 0 <= i <= |keys|
        invariant Spec.ReleaseAll(start, keys) == Spec.ReleaseAll(Model(), keys[i..])
      {
        assert keys[i..][1..] == keys[i + 1..];
        var c := keys[i];
        var cs := if c in connectorStates.vals then connectorStates.vals[c] else Spec.FreshConnector;
        if cs.status != Unavailable {
          StoreConnector(c, cs.(status := Available, cablePluggedIn := false, pendingRemoteStartIdTag := None));
          SendStatusNotification(c, Available, false);
        }
        i := i + 1;
      }
      SendBootNotification();
    }

    method RunTrigger(requested: TriggerKind, target: Option<int>)
      modifies this
      ensures Model() == Spec.RunTrigger(old(Model()), requested, target)
      ensures Commands.RunsTrigger(old(Model()), Model(), requested, target)
    {
      Commands.RunTriggerEffect(Model(), requested, target);
      match requested {
        case TriggerBoot => SendBootNotification();
        case TriggerHeartbeat => SendHeartbeat();
        case TriggerStatus =>
          if target.Some? {
            var cs := EnsureConnectorState(target.value);
            SendStatusNotification(target.value, cs.status, cs.faultCode);
          }
        case TriggerMeterValues =>
          if target.Some? {
            var _ := SendConnectorMeterValues(target.value);
          }
        case _ =>
      }
    }

    method SendInitialStatusNotifications(fetched: Option<seq<int>>)
      modifies this
      ensures Model() == Spec.RunInitialStatus(old(Model()), fetched)
      ensures Events.ReportsInitially(old(Model()), Model(), fetched)
    {
      Events.InitialStatusEffect(Model(), fetched);
      if fetched.None? {
        return;
      }
      SendStatusNotification(Spec.MAIN_CONTROLLER, Available, false);
      var connectors := fetched.value;
      ghost var start := Model();
      var i := 0;
      while i < |connectors|
        invariant 0 <= i <= |connectors|
        invariant Spec.ReportAll(start, connectors) == Spec.ReportAll(Model(), connectors[i..])
      {
        assert connectors[i..][1..] == connectors[i + 1..];
        var _ := EnsureConnectorState(connectors[i]);
        SendStatusNotification(connectors[i], Available, false);
        i := i + 1;
      }
    }

    /** A due task leaves the queue and runs. */
    method RunTask(index: nat, fetched: Option<seq<int>>)
      requires index < |tasks|
      modifies this
      ensures Model() == Spec.RunTask(Spec.RemoveTask(old(Model()), index), old(tasks)[index].kind, fetched)
    {
      var kind := tasks[index].kind;
      tasks := tasks[..index] + tasks[index + 1..];
      match kind {
        case RemoteStartTask(c, idTag) => RunRemoteStart(c, idTag);
        case RemoteStopTask(c) => var _ := StopConnectorTransaction(c, Remote);
        case ResetTask => RunReset();
        case TriggerTask(requested, c) => RunTrigger(requested, c);
        case BootRetryTask => SendBootNotification();
        case InitialStatusTask => SendInitialStatusNotifications(fetched);
        case StopTimeoutTask(c) =>
          if c in transactions.vals && transactions.vals[c].stopPending {
            FinishStoppedTransaction(c);
          }
      }
    }

    method OnHeartbeatTimer()
      requires heartbeatTimer.Some?
      modifies this
      ensures Model() == old(Model()).(link := Spec.FireHeartbeat(old(Model()).link))
      ensures Events.BeatsOnTime(old(Model()), Model())
    {
      Events.HeartbeatTimerEffect(Model());
      var delay := heartbeatTimer.value.delay;
      heartbeatTimer := None;
      if now - lastMessageSentAt >= delay {
        SendHeartbeat();
      }
      ScheduleHeartbeat();
    }

    // ----- Connector buttons -----

    method PlugInConnector(c: int)
      modifies this
      ensures Model() == Spec.PlugIn(old(Model()), c)
      ensures Events.PlugsIn(old(Model()), Model(), c)
    {
      Events.PlugInEffect(Model(), c);
      if registration != Accepted {
        return;
      }
      var cs := EnsureConnectorState(c);
      if cs.status != Available {
        return;
      }
      StoreConnector(c, cs.(cablePluggedIn := true, status := Preparing));
      SendStatusNotification(c, Preparing, false);
    }

    method AuthorizeConnector(c: int, idTag: string)
      modifies this
      ensures Model() == Spec.AuthorizeConnector(old(Model()), c, idTag)
      ensures Events.AsksFor(old(Model()), Model(), c, idTag)
    {
      Events.AuthorizeButtonEffect(Model(), c, idTag);
      if registration != Accepted || !isOpen || c !in connectorStates.vals {
        return;
      }
      var cs := connectorStates.vals[c];
      if cs.status != Preparing || !cs.cablePluggedIn {
        return;
      }
      SendFrame(Authorize(idTag), Some(c), Some(idTag));
    }

    method UnplugConnector(c: int)
      modifies this
      ensures Model() == Spec.Unplug(old(Model()), c)
      ensures Events.Unplugs(old(Model()), Model(), c)
    {
      Events.UnplugEffect(Model(), c);
      if registration != Accepted || c !in connectorStates.vals {
        return;
      }
      var cs := connectorStates.vals[c];
      if cs.status == Preparing || cs.status == Finishing {
        StoreConnector(c, cs.(cablePluggedIn := false, status := Available, pendingRemoteStartIdTag := None));
        SendStatusNotification(c, Available, false);
      } else if cs.status == Charging {
        var _ := StopConnectorTransaction(c, EVDisconnected);
      }
    }

    method SetConnectorStatus(c: int, status: ConnectorStatus)
      modifies this
      ensures Model() == Spec.SetConnectorStatus(old(Model()), c, status)
      ensures Events.SetsStatus(old(Model()), Model(), c, status)
    {
      Events.StatusButtonEffect(Model(), c, status);
      if registration != Accepted {
        return;
      }
      var cs := EnsureConnectorState(c);
      if status == Faulted {
        StoreConnector(c, cs.(faultCode := true));
        var _ := StopConnectorTransaction(c, EmergencyStop);
      } else if status == SuspendedEV || status == SuspendedEVSE {
        if c in transactions.vals {
          transactions := Put(transactions, c, transactions.vals[c].(status := TxCharging));
        }
      } else if status == Available {
        StoreConnector(c, cs.(faultCode := false));
      }
      cs := connectorStates.vals[c].(status := status);
      if status == Available {
        cs := cs.(cablePluggedIn := false);
      }
      StoreConnector(c, cs);
      SendStatusNotification(c, status, cs.faultCode);
    }

    // ----- One event -----

    /** What one event achieves. */
    method Dispatch(e: Spec.Event)
      requires Spec.Enabled(Model(), e)
      modifies this
      ensures Model() == Spec.Apply(old(Model()), e)
      ensures old(Valid()) ==> Valid() && Events.Does(old(Model()), Model(), e)
    {
      ghost var start := Model();
      RunHandler(e);
      if Events.TablesValid(start) { Events.EventDoes(start, e); }
    }

    method RunHandler(e: Spec.Event)
      requires Spec.Enabled(Model(), e)
      modifies this
      ensures Model() == Spec.Apply(old(Model()), e)
    {
      match e {
        case OnOpen =>
          isOpen, registration := true, Pending;
          trace := trace + [Opened];
          SendBootNotification();
        case OnClose =>
          isOpen := false;
        case OnError =>
          isOpen, registration := false, Disconnected;
        case OnFrame(frame, detail) => HandleOCPPFrame(frame, detail);
        case OnTask(i, fetched) => RunTask(i, fetched);
        case OnHeartbeatTimer => OnHeartbeatTimer();
        case OnMeterTimer => OnMeterTimer();
        case OnTime(to) => now := to;
        case PressPlugIn(c) => PlugInConnector(c);
        case PressAuthorize(c, idTag) => AuthorizeConnector(c, idTag);
        case PressUnplug(c) => UnplugConnector(c);
        case PressStop(c) =>
          if registration == Accepted && isOpen {
            var _ := StopConnectorTransaction(c, Local);
          }
        case PressMeterValues(c) =>
          if registration == Accepted && isOpen {
            var _ := SendConnectorMeterValues(c);
          }
        case PressStatus(c, status) => SetConnectorStatus(c, status);
        case PressBoot => SendBootNotification();
        case PressHeartbeat => SendHeartbeat();
      }
    }
  }
}
