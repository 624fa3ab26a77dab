/** The charge point runtime as a state machine: one function for each function
    of the store, and `Apply`, which runs one event to completion.  The class in
    ChargePoint.dfy carries these out in place; the properties are proved here. */
module ChargePointModel {
  import opened Wrappers
  import opened OrderedMaps
  import opened ChargePointTypes
  import opened DcMeter

  const DEFAULT_INTERVAL: nat := 300
  const SAMPLE_PERIOD: nat := 10000
  const STOP_TIMEOUT: nat := 15000
  const RESET_DELAY: nat := 500
  const MAIN_CONTROLLER: int := 0
  const DEFAULT_ID_TAG: string := "DEADBEEF"

  const FreshConnector: ConnectorState := ConnectorState(Available, false, None, false, None)

  function Init(now: nat): Runtime {
    Runtime(Link(now, false, Disconnected, None, None, now, Empty(), 0, []), Empty(), Empty(), 0, None, [])
  }

  // ----- Connector states and tasks -----

  function ConnectorOf(s: Runtime, c: int): ConnectorState {
    if c in s.connectorStates.vals then s.connectorStates.vals[c] else FreshConnector
  }

  function WithConnector(s: Runtime, c: int, cs: ConnectorState): Runtime {
    s.(connectorStates := Put(s.connectorStates, c, cs))
  }

  function EnsureConnector(s: Runtime, c: int): Runtime {
    if c in s.connectorStates.vals then s else WithConnector(s, c, FreshConnector)
  }

  /** `cs.status = status` on the object the map holds, where there is one. */
  function SetStatusIfPresent(s: Runtime, c: int, status: ConnectorStatus): Runtime {
    if c in s.connectorStates.vals
    then WithConnector(s, c, s.connectorStates.vals[c].(status := status))
    else s
  }

  function WithTransaction(s: Runtime, c: int, tx: Transaction): Runtime {
    s.(transactions := Put(s.transactions, c, tx))
  }

  function WithoutTransaction(s: Runtime, c: int): Runtime {
    s.(transactions := Remove(s.transactions, c))
  }

  function Schedule(s: Runtime, delay: nat, kind: TaskKind): Runtime {
    s.(tasks := s.tasks + [Task(s.link.now + delay, kind)])
  }

  function FirstConnector(s: Runtime, detail: seq<int>): Option<int> {
    if |s.connectorStates.keys| > 0 then Some(s.connectorStates.keys[0])
    else if |detail| > 0 then Some(detail[0])
    else None
  }

  // ----- Sending -----

  function ScheduleHeartbeat(l: Link): Link {
    if l.registration != Accepted || l.heartbeatInterval.None? || l.heartbeatInterval.value == 0 then l
    else
      var delay := l.heartbeatInterval.value * 1000;
      l.(heartbeatTimer := Some(HeartbeatTimer(l.now + delay, delay)))
  }

  /** `sendFrame`: dropped unless the socket is open; otherwise recorded as pending,
      and the heartbeat timer starts over. */
  function Transmit(l: Link, call: OutCall, connectorId: Option<int>, idTag: Option<string>): Link {
    if !l.isOpen then l
    else
      ScheduleHeartbeat(l.(
        trace := l.trace + [Sent(l.now, l.nextUid, call)],
        pendingCalls := Put(l.pendingCalls, l.nextUid, PendingCall(call.ActionOf(), connectorId, idTag)),
        nextUid := l.nextUid + 1,
        lastMessageSentAt := l.now))
  }

  /** The gate of `sendHeartbeat`, `sendStatusNotification` and the meter sampler. */
  predicate Registered(l: Link) {
    l.registration == Accepted && l.isOpen
  }

  function TransmitIfRegistered(l: Link, call: OutCall): Link {
    if Registered(l) then Transmit(l, call, None, None) else l
  }

  function Respond(l: Link, uid: string, response: ResponseStatus): Link {
    if !l.isOpen then l
    else l.(trace := l.trace + [Responded(l.now, uid, response)], lastMessageSentAt := l.now)
  }

  function SendFrame(s: Runtime, call: OutCall, connectorId: Option<int>, idTag: Option<string>): Runtime {
    s.(link := Transmit(s.link, call, connectorId, idTag))
  }

  function SendBootNotification(s: Runtime): Runtime {
    SendFrame(s, BootNotification, None, None)
  }

  function SendHeartbeat(s: Runtime): Runtime {
    s.(link := TransmitIfRegistered(s.link, Heartbeat))
  }

  function SendStatus(s: Runtime, c: int, status: ConnectorStatus, fault: bool): Runtime {
    s.(link := TransmitIfRegistered(s.link, StatusNotification(c, status, fault)))
  }

  function SendAuthorize(s: Runtime, c: int, idTag: string): Runtime {
    SendFrame(s, Authorize(idTag), Some(c), Some(idTag))
  }

  // ----- Meter values -----

  function SampleOf(c: int, tx: Transaction): OutCall
    requires tx.transactionId.Some?
  {
    MeterValues(c, tx.transactionId.value, tx.meterCurrent, tx.powerW, tx.current, tx.voltage, tx.soc, tx.meterStart)
  }

  function SendMeterValues(s: Runtime, c: int): Runtime
    requires c in s.transactions.vals && s.transactions.vals[c].transactionId.Some?
  {
    if !Registered(s.link) then s
    else
      var tx := AdvanceDcMeter(s.transactions.vals[c], SAMPLE_SECONDS);
      SendFrame(WithTransaction(s, c, tx), SampleOf(c, tx), None, None)
  }

  function StartMeterTimer(s: Runtime): Runtime {
    s.(meterValuesTimer := Some(s.link.now + SAMPLE_PERIOD))
  }

  predicate Sampled(tx: Transaction) {
    tx.status == TxCharging && tx.transactionId.Some?
  }

  function SampleAll(s: Runtime, keys: seq<int>): Runtime
    decreases keys
  {
    if keys == [] then s
    else if keys[0] in s.transactions.vals && Sampled(s.transactions.vals[keys[0]])
    then SampleAll(SendMeterValues(s, keys[0]), keys[1..])
    else SampleAll(s, keys[1..])
  }

  predicate Stoppable(tx: Transaction) {
    tx.transactionId.Some? && !tx.stopPending
  }

  function TriggeredMeterValues(s: Runtime, c: int): Runtime {
    if c in s.transactions.vals && Stoppable(s.transactions.vals[c]) then SendMeterValues(s, c) else s
  }

  // ----- Stopping -----

  predicate CanStop(s: Runtime, c: int) {
    c in s.transactions.vals && Stoppable(s.transactions.vals[c]) && s.link.isOpen
  }

  function StoppedRow(tx: Transaction, reason: StopReason): Transaction {
    var metered := AdvanceDcMeter(tx.(status := TxFinishing, stopReason := Some(reason), stopPending := true), STOP_SECONDS);
    metered.(meterStop := Some(metered.meterCurrent))
  }

  function StopFrameOf(tx: Transaction): OutCall
    requires tx.transactionId.Some? && tx.meterStop.Some? && tx.stopReason.Some?
  {
    StopTransaction(tx.transactionId.value, tx.idTag, tx.meterStop.value, tx.stopReason.value, tx.meterStart)
  }

  function StopTransactionOn(s: Runtime, c: int, reason: StopReason): Runtime {
    if !CanStop(s, c) then s
    else
      var tx := StoppedRow(s.transactions.vals[c], reason);
      var s1 := WithConnector(WithTransaction(s, c, tx), c, ConnectorOf(s, c).(status := Finishing));
      var s2 := SendStatus(s1, c, Finishing, false);
      Schedule(SendFrame(s2, StopFrameOf(tx), Some(c), None), STOP_TIMEOUT, StopTimeoutTask(c))
  }

  predicate IsCharging(tx: Transaction) { tx.status == TxCharging }

  /** What `finishStoppedTransaction` does once the row is gone. */
  function Settle(s: Runtime, c: int): Runtime {
    var s1 := if Find(s.transactions.keys, s.transactions.vals, IsCharging).None?
              then s.(meterValuesTimer := None) else s;
    var s2 := EnsureConnector(s1, c);
    var cs := ConnectorOf(s2, c);
    if cs.availabilityRequested == Some(Inoperative)
    then SendStatus(WithConnector(s2, c, cs.(status := Unavailable, cablePluggedIn := false)), c, Unavailable, false)
    else s2
  }

  function FinishStopped(s: Runtime, c: int): Runtime {
    if c !in s.transactions.vals then s else Settle(WithoutTransaction(s, c), c)
  }

  // ----- Replies to our own calls -----

  function AcceptRegistration(l: Link, interval: nat): Link {
    ScheduleHeartbeat(l.(registration := Accepted, heartbeatInterval := Some(interval),
                         trace := l.trace + [BootAccepted(l.now)]))
  }

  function BootReply(s: Runtime, p: ReplyPayload): Runtime {
    var interval := p.interval.GetOr(DEFAULT_INTERVAL);
    match p.status
    case BootAcceptedStatus =>
      Schedule(s.(link := AcceptRegistration(s.link, interval)), 0, InitialStatusTask)
    case BootPendingStatus => s.(link := s.link.(registration := Pending))
    case BootRejectedStatus =>
      Schedule(s.(link := s.link.(registration := Rejected)), interval * 1000, BootRetryTask)
    case BootOtherStatus => s
  }

  function NewTransaction(c: int, idTag: string, meterStart: nat): Transaction {
    Transaction(None, c, idTag, meterStart, meterStart, None, 20, 4000, 0, 0, None, false, TxPreparing)
  }

  function AuthorizeReply(s: Runtime, p: ReplyPayload, call: PendingCall): Runtime {
    if call.connectorId.None? then s
    else
      var c := call.connectorId.value;
      if p.tagAccepted then
        var meterStart := s.meterCounter + 100;
        var idTag := call.idTag.GetOr(DEFAULT_ID_TAG);
        var s1 := WithTransaction(s.(meterCounter := meterStart), c, NewTransaction(c, idTag, meterStart));
        SendFrame(s1, StartTransaction(c, idTag, meterStart), Some(c), None)
      else
        SetStatusIfPresent(s, c, Available)
  }

  predicate Unidentified(tx: Transaction) { tx.transactionId.None? }

  function StartReply(s: Runtime, p: ReplyPayload): Runtime {
    var found := Find(s.transactions.keys, s.transactions.vals, Unidentified);
    if found.None? then s
    else
      var tx := s.transactions.vals[found.value];
      var c := tx.connectorId;
      if p.tagAccepted && p.transactionId.Some? && p.transactionId.value != 0 then
        var s1 := WithTransaction(s, found.value, tx.(transactionId := p.transactionId, status := TxCharging));
        StartMeterTimer(SendStatus(SetStatusIfPresent(s1, c, Charging), c, Charging, false))
      else
        SetStatusIfPresent(WithoutTransaction(s, c), c, Available)
  }

  predicate StopIsPending(tx: Transaction) { tx.stopPending }

  function StopReply(s: Runtime): Runtime {
    var found := Find(s.transactions.keys, s.transactions.vals, StopIsPending);
    if found.None? then s else FinishStopped(s, s.transactions.vals[found.value].connectorId)
  }

  function Answered(s: Runtime, uid: nat): Runtime {
    s.(link := s.link.(pendingCalls := Remove(s.link.pendingCalls, uid)))
  }

  /** `handleCallResult`: a payload that is not there throws in every reply handler but Stop's. */
  function HandleCallResult(s: Runtime, uid: nat, payload: Option<ReplyPayload>): Runtime {
    if uid !in s.link.pendingCalls.vals then s
    else
      var call := s.link.pendingCalls.vals[uid];
      var s1 := Answered(s, uid);
      match call.action
      case BootNotificationAction => if payload.Some? then BootReply(s1, payload.value) else s1
      case AuthorizeAction => if payload.Some? then AuthorizeReply(s1, payload.value, call) else s1
      case StartTransactionAction => if payload.Some? then StartReply(s1, payload.value) else s1
      case StopTransactionAction => StopReply(s1)
      case HeartbeatAction => s1
      case StatusNotificationAction => s1
      case MeterValuesAction => s1
  }

  function HandleCallError(s: Runtime, uid: nat): Runtime {
    if uid !in s.link.pendingCalls.vals then s
    else
      var call := s.link.pendingCalls.vals[uid];
      var s1 := Answered(s, uid);
      if (call.action.AuthorizeAction? || call.action.StartTransactionAction?) && call.connectorId.Some? then
        var c := call.connectorId.value;
        var s2 := if c in s1.connectorStates.vals
                  then WithConnector(s1, c, s1.connectorStates.vals[c].(status := Available, cablePluggedIn := false))
                  else s1;
        WithoutTransaction(s2, c)
      else s1
  }

  // ----- CSMS commands -----

  function HandleRemoteStart(s: Runtime, idTag: string, requested: Option<int>, detail: seq<int>)
    : (Runtime, ResponseStatus)
  {
    var target := if requested.Some? then requested else FirstConnector(s, detail);
    if idTag == "" || target.None? then (s, RespRejected)
    else
      var c := target.value;
      var s1 := EnsureConnector(s, c);
      var cs := ConnectorOf(s1, c);
      if cs.status != Available && cs.status != Preparing then (s1, RespRejected)
      else
        (Schedule(WithConnector(s1, c, cs.(pendingRemoteStartIdTag := Some(idTag))), 0, RemoteStartTask(c, idTag)),
         RespAccepted)
  }

  function FindById(keys: seq<int>, vals: map<int, Transaction>, id: int): Option<int> {
    if keys == [] then None
    else if keys[0] in vals && vals[keys[0]].transactionId == Some(id) then Some(keys[0])
    else FindById(keys[1..], vals, id)
  }

  function HandleRemoteStop(s: Runtime, transactionId: Option<int>): (Runtime, ResponseStatus) {
    var found := if transactionId.None? then None
                 else FindById(s.transactions.keys, s.transactions.vals, transactionId.value);
    if found.None? then (s, RespRejected)
    else (Schedule(s, 0, RemoteStopTask(found.value)), RespAccepted)
  }

  function Released(cs: ConnectorState): ConnectorState {
    cs.(cablePluggedIn := false, status := Available, pendingRemoteStartIdTag := None)
  }

  function HandleUnlockConnector(s: Runtime, target: Option<int>): (Runtime, ResponseStatus) {
    if target.None? || target.value !in s.connectorStates.vals then (s, RespUnlockFailed)
    else
      var c := target.value;
      var cs := s.connectorStates.vals[c];
      if cs.status == Preparing || cs.status == Finishing then
        (SendStatus(WithConnector(WithoutTransaction(s, c), c, Released(cs)), c, Available, false), RespUnlocked)
      else (s, if cs.status == Charging then RespUnlockFailed else RespUnlocked)
  }

  function StopAll(s: Runtime, keys: seq<int>, reason: StopReason): Runtime
    decreases keys
  {
    if keys == [] then s
    else if keys[0] in s.transactions.vals && Stoppable(s.transactions.vals[keys[0]])
    then StopAll(StopTransactionOn(s, keys[0], reason), keys[1..], reason)
    else StopAll(s, keys[1..], reason)
  }

  function ReasonOf(resetType: ResetType): StopReason {
    match resetType
    case Hard => HardReset
    case Soft => SoftReset
  }

  function HandleReset(s: Runtime, resetType: Option<ResetType>): (Runtime, ResponseStatus) {
    if resetType.None? then (s, RespRejected)
    else
      (Schedule(StopAll(s, s.transactions.keys, ReasonOf(resetType.value)), RESET_DELAY, ResetTask), RespAccepted)
  }

  function ApplyAvailability(s: Runtime, c: int, availability: Availability): Runtime {
    var s1 := EnsureConnector(s, c);
    var cs := ConnectorOf(s1, c).(availabilityRequested := Some(availability));
    if availability == Inoperative then
      if Busy(cs.status) then WithConnector(s1, c, cs)
      else SendStatus(WithConnector(s1, c, cs.(status := Unavailable, cablePluggedIn := false)), c, Unavailable, false)
    else if cs.status == Unavailable then
      SendStatus(WithConnector(s1, c, cs.(status := Available)), c, Available, false)
    else WithConnector(s1, c, cs)
  }

  predicate Busy(status: ConnectorStatus) {
    status == Charging || status == Preparing || status == Finishing
  }

  function ApplyAvailabilityAll(s: Runtime, ids: seq<int>, availability: Availability): (Runtime, bool)
    decreases ids
  {
    if ids == [] then (s, false)
    else
      var deferred := availability == Inoperative && Busy(ConnectorOf(s, ids[0]).status);
      var (s1, scheduled) := ApplyAvailabilityAll(ApplyAvailability(s, ids[0], availability), ids[1..], availability);
      (s1, deferred || scheduled)
  }

  function AvailabilityTargets(s: Runtime, c: int, detail: seq<int>): seq<int> {
    if c != MAIN_CONTROLLER then [c]
    else if |s.connectorStates.keys| > 0 then s.connectorStates.keys
    else detail
  }

  function HandleChangeAvailability(s: Runtime, target: Option<int>, availability: Option<Availability>, detail: seq<int>)
    : (Runtime, ResponseStatus)
  {
    if target.None? || availability.None? then (s, RespRejected)
    else
      var ids := AvailabilityTargets(s, target.value, detail);
      if ids == [] then (s, RespRejected)
      else
        var (s1, scheduled) := ApplyAvailabilityAll(s, ids, availability.value);
        (s1, if scheduled then RespScheduled else RespAccepted)
  }

  function HandleTriggerMessage(s: Runtime, requested: TriggerKind, target: Option<int>, detail: seq<int>)
    : (Runtime, ResponseStatus)
  {
    var c := if target.Some? then target else FirstConnector(s, detail);
    (Schedule(s, 0, TriggerTask(requested, c)), if requested == TriggerEmpty then RespRejected else RespAccepted)
  }

  function HandleCommand(s: Runtime, command: Command, detail: seq<int>): (Runtime, ResponseStatus) {
    match command
    case RemoteStart(idTag, c) => HandleRemoteStart(s, idTag, c, detail)
    case RemoteStop(id) => HandleRemoteStop(s, id)
    case UnlockConnector(c) => HandleUnlockConnector(s, c)
    case Reset(t) => HandleReset(s, t)
    case ChangeAvailability(c, a) => HandleChangeAvailability(s, c, a, detail)
    case TriggerMessage(m, c) => HandleTriggerMessage(s, m, c, detail)
    case ChangeConfiguration => (s, RespAccepted)
    case GetConfiguration => (s, RespConfiguration)
    case UnknownCommand => (s, RespNotImplemented)
  }

  function HandleInboundCall(s: Runtime, uid: string, command: Command, detail: seq<int>): Runtime {
    var (s1, response) := HandleCommand(s, command, detail);
    s1.(link := Respond(s1.link, uid, response))
  }

  function HandleFrame(s: Runtime, frame: InFrame, detail: seq<int>): Runtime {
    match frame
    case InCall(uid, command) => HandleInboundCall(s, uid, command, detail)
    case InResult(uid, payload) => HandleCallResult(s, uid, payload)
    case InError(uid) => HandleCallError(s, uid)
    case InUnknown => s
  }

  // ----- Deferred tasks -----

  function RunRemoteStart(s: Runtime, c: int, idTag: string): Runtime {
    var s1 := EnsureConnector(s, c);
    var cs := ConnectorOf(s1, c);
    var s2 := if cs.status == Available
              then SendStatus(WithConnector(s1, c, cs.(cablePluggedIn := true, status := Preparing)), c, Preparing, false)
              else s1;
    if ConnectorOf(s2, c).status == Preparing then SendAuthorize(s2, c, idTag) else s2
  }

  function ReleaseAll(s: Runtime, keys: seq<int>): Runtime
    decreases keys
  {
    if keys == [] then s
    else
      var cs := ConnectorOf(s, keys[0]);
      if cs.status != Unavailable
      then ReleaseAll(SendStatus(WithConnector(s, keys[0], Released(cs)), keys[0], Available, false), keys[1..])
      else ReleaseAll(s, keys[1..])
  }

  function RunTrigger(s: Runtime, requested: TriggerKind, target: Option<int>): Runtime {
    match requested
    case TriggerBoot => SendBootNotification(s)
    case TriggerHeartbeat => SendHeartbeat(s)
    case TriggerStatus =>
      if target.None? then s
      else
        var s1 := EnsureConnector(s, target.value);
        var cs := ConnectorOf(s1, target.value);
        SendStatus(s1, target.value, cs.status, cs.faultCode)
    case TriggerMeterValues => if target.None? then s else TriggeredMeterValues(s, target.value)
    case TriggerOther => s
    case TriggerEmpty => s
  }

  function ReportAll(s: Runtime, connectors: seq<int>): Runtime
    decreases connectors
  {
    if connectors == [] then s
    else ReportAll(SendStatus(EnsureConnector(s, connectors[0]), connectors[0], Available, false), connectors[1..])
  }

  /** The part of `sendInitialStatusNotifications` after its await; None when the fetch failed. */
  function RunInitialStatus(s: Runtime, fetched: Option<seq<int>>): Runtime {
    if fetched.None? then s
    else ReportAll(SendStatus(s, MAIN_CONTROLLER, Available, false), fetched.value)
  }

  function RunStopTimeout(s: Runtime, c: int): Runtime {
    if c in s.transactions.vals && s.transactions.vals[c].stopPending then FinishStopped(s, c) else s
  }

  function RunTask(s: Runtime, kind: TaskKind, fetched: Option<seq<int>>): Runtime {
    match kind
    case RemoteStartTask(c, idTag) => RunRemoteStart(s, c, idTag)
    case RemoteStopTask(c) => StopTransactionOn(s, c, Remote)
    case ResetTask => SendBootNotification(ReleaseAll(s, s.connectorStates.keys))
    case TriggerTask(requested, c) => RunTrigger(s, requested, c)
    case BootRetryTask => SendBootNotification(s)
    case InitialStatusTask => RunInitialStatus(s, fetched)
    case StopTimeoutTask(c) => RunStopTimeout(s, c)
  }

  function RemoveTask(s: Runtime, i: nat): Runtime
    requires i < |s.tasks|
  {
    s.(tasks := s.tasks[..i] + s.tasks[i + 1..])
  }

  // ----- Timers -----

  function FireHeartbeat(l: Link): Link
    requires l.heartbeatTimer.Some?
  {
    var fired := l.(heartbeatTimer := None);
    ScheduleHeartbeat(
      if l.now - l.lastMessageSentAt >= l.heartbeatTimer.value.delay then TransmitIfRegistered(fired, Heartbeat)
      else fired)
  }

  function FireMeterTimer(s: Runtime): Runtime
    requires s.meterValuesTimer.Some?
  {
    SampleAll(s.(meterValuesTimer := Some(s.meterValuesTimer.value + SAMPLE_PERIOD)), s.transactions.keys)
  }

  // ----- Connector buttons -----

  function PlugIn(s: Runtime, c: int): Runtime {
    if s.link.registration != Accepted then s
    else
      var s1 := EnsureConnector(s, c);
      var cs := ConnectorOf(s1, c);
      if cs.status != Available then s1
      else SendStatus(WithConnector(s1, c, cs.(cablePluggedIn := true, status := Preparing)), c, Preparing, false)
  }

  function AuthorizeConnector(s: Runtime, c: int, idTag: string): Runtime {
    if !Registered(s.link) || c !in s.connectorStates.vals then s
    else
      var cs := s.connectorStates.vals[c];
      if cs.status != Preparing || !cs.cablePluggedIn then s else SendAuthorize(s, c, idTag)
  }

  function Unplug(s: Runtime, c: int): Runtime {
    if s.link.registration != Accepted || c !in s.connectorStates.vals then s
    else
      var cs := s.connectorStates.vals[c];
      if cs.status == Preparing || cs.status == Finishing
      then SendStatus(WithConnector(s, c, Released(cs)), c, Available, false)
      else if cs.status == Charging then StopTransactionOn(s, c, EVDisconnected)
      else s
  }

  function StopConnector(s: Runtime, c: int): Runtime {
    if !Registered(s.link) then s else StopTransactionOn(s, c, Local)
  }

  function MeterValuesButton(s: Runtime, c: int): Runtime {
    if !Registered(s.link) then s else TriggeredMeterValues(s, c)
  }

  predicate IsSuspended(status: ConnectorStatus) {
    status == SuspendedEV || status == SuspendedEVSE
  }

  function SetConnectorStatus(s: Runtime, c: int, status: ConnectorStatus): Runtime {
    if s.link.registration != Accepted then s
    else
      var s1 := EnsureConnector(s, c);
      var s2 :=
        if status == Faulted then
          StopTransactionOn(WithConnector(s1, c, ConnectorOf(s1, c).(faultCode := true)), c, EmergencyStop)
        else if IsSuspended(status) then
          if c in s1.transactions.vals then WithTransaction(s1, c, s1.transactions.vals[c].(status := TxCharging)) else s1
        else if status == Available then WithConnector(s1, c, ConnectorOf(s1, c).(faultCode := false))
        else s1;
      var cs := ConnectorOf(s2, c).(status := status);
      var cs' := if status == Available then cs.(cablePluggedIn := false) else cs;
      SendStatus(WithConnector(s2, c, cs'), c, status, cs'.faultCode)
  }

  // ----- Socket -----

  function SocketOpened(s: Runtime): Runtime {
    SendBootNotification(s.(link := s.link.(isOpen := true, registration := Pending, trace := s.link.trace + [Opened])))
  }

  // ----- Events -----

  datatype Event =
    | OnOpen
    | OnClose
    | OnError
    | OnFrame(frame: InFrame, detail: seq<int>)
    | OnTask(index: nat, fetched: Option<seq<int>>)
    | OnHeartbeatTimer
    | OnMeterTimer
    | OnTime(to: nat)
    | PressPlugIn(connectorId: int)
    | PressAuthorize(connectorId: int, idTag: string)
    | PressUnplug(connectorId: int)
    | PressStop(connectorId: int)
    | PressMeterValues(connectorId: int)
    | PressStatus(connectorId: int, status: ConnectorStatus)
    | PressBoot
    | PressHeartbeat

  /** Frames arrive on an open socket only; a timer never fires before it is due. */
  predicate Enabled(s: Runtime, e: Event) {
    match e
    case OnOpen => !s.link.isOpen
    case OnFrame(_, _) => s.link.isOpen
    case OnTask(i, _) => i < |s.tasks| && s.tasks[i].due <= s.link.now
    case OnHeartbeatTimer => s.link.heartbeatTimer.Some? && s.link.heartbeatTimer.value.due <= s.link.now
    case OnMeterTimer => s.meterValuesTimer.Some? && s.meterValuesTimer.value <= s.link.now
    case OnTime(to) => s.link.now <= to
    case _ => true
  }

  function Apply(s: Runtime, e: Event): Runtime
    requires Enabled(s, e)
  {
    match e
    case OnOpen => SocketOpened(s)
    case OnClose => s.(link := s.link.(isOpen := false))
    case OnError => s.(link := s.link.(isOpen := false, registration := Disconnected))
    case OnFrame(frame, detail) => HandleFrame(s, frame, detail)
    case OnTask(i, fetched) => RunTask(RemoveTask(s, i), s.tasks[i].kind, fetched)
    case OnHeartbeatTimer => s.(link := FireHeartbeat(s.link))
    case OnMeterTimer => FireMeterTimer(s)
    case OnTime(to) => s.(link := s.link.(now := to))
    case PressPlugIn(c) => PlugIn(s, c)
    case PressAuthorize(c, idTag) => AuthorizeConnector(s, c, idTag)
    case PressUnplug(c) => Unplug(s, c)
    case PressStop(c) => StopConnector(s, c)
    case PressMeterValues(c) => MeterValuesButton(s, c)
    case PressStatus(c, status) => SetConnectorStatus(s, c, status)
    case PressBoot => SendBootNotification(s)
    case PressHeartbeat => SendHeartbeat(s)
  }

  /** A run: states `ss` joined by events `es`, from a runtime just created. */
  ghost predicate IsRun(ss: seq<Runtime>, es: seq<Event>) {
    && |ss| == |es| + 1
    && ss[0] == Init(ss[0].link.now)
    && forall i :: 0 <= i < |es| ==> Enabled(ss[i], es[i]) && ss[i + 1] == Apply(ss[i], es[i])
  }
}
