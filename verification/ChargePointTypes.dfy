/** The data of one simulated charge point: what `ChargePointRuntime` holds, the
    frames it exchanges and the tasks it has scheduled.  Times are milliseconds. */
module ChargePointTypes {
  import opened Wrappers
  import opened OrderedMaps

  datatype ConnectorStatus =
    | Available | Preparing | Charging | SuspendedEV | SuspendedEVSE
    | Finishing | Reserved | Unavailable | Faulted

  datatype Availability = Operative | Inoperative

  datatype ConnectorState = ConnectorState(
    status: ConnectorStatus,
    cablePluggedIn: bool,
    availabilityRequested: Option<Availability>,
    faultCode: bool,  // 'OtherError' when set, 'NoError' on the wire when not
    pendingRemoteStartIdTag: Option<string>)

  datatype StopReason = Local | Remote | EVDisconnected | EmergencyStop | SoftReset | HardReset

  datatype TxStatus = TxPreparing | TxCharging | TxFinishing

  /** `voltage` and `current` are in tenths, as they appear on the wire. */
  datatype Transaction = Transaction(
    transactionId: Option<int>,
    connectorId: int,
    idTag: string,
    meterStart: nat,
    meterCurrent: nat,
    meterStop: Option<nat>,
    soc: nat,
    voltage: nat,
    current: int,
    powerW: int,
    stopReason: Option<StopReason>,
    stopPending: bool,
    status: TxStatus)

  datatype Action =
    | BootNotificationAction | HeartbeatAction | StatusNotificationAction | AuthorizeAction
    | StartTransactionAction | StopTransactionAction | MeterValuesAction

  datatype PendingCall = PendingCall(action: Action, connectorId: Option<int>, idTag: Option<string>)

  datatype Registration = Disconnected | Pending | Accepted | Rejected

  // ----- Frames the charge point sends -----

  /** A CALL.  `session` is not on the wire: it is the `meterStart` of the table
      row the frame was built from, which names that row for good. */
  datatype OutCall =
    | BootNotification
    | Heartbeat
    | StatusNotification(connectorId: int, status: ConnectorStatus, fault: bool)
    | Authorize(idTag: string)
    | StartTransaction(connectorId: int, idTag: string, session: nat)
    | StopTransaction(transactionId: int, idTag: string, meterStop: nat, reason: StopReason, session: nat)
    | MeterValues(connectorId: int, transactionId: int, energy: nat, powerW: int,
                  current: int, voltage: nat, soc: nat, session: nat)
  {
    function ActionOf(): Action {
      match this
      case BootNotification => BootNotificationAction
      case Heartbeat => HeartbeatAction
      case StatusNotification(_, _, _) => StatusNotificationAction
      case Authorize(_) => AuthorizeAction
      case StartTransaction(_, _, _) => StartTransactionAction
      case StopTransaction(_, _, _, _, _) => StopTransactionAction
      case MeterValues(_, _, _, _, _, _, _, _) => MeterValuesAction
    }
  }

  datatype ResponseStatus =
    | RespAccepted | RespRejected | RespScheduled | RespUnlocked | RespUnlockFailed
    | RespConfiguration | RespNotImplemented

  /** What an observer of the socket sees, in order. */
  datatype TraceEntry =
    | Opened
    | BootAccepted(at: nat)
    | Sent(at: nat, uid: nat, call: OutCall)
    | Responded(at: nat, replyTo: string, response: ResponseStatus)

  // ----- Frames the charge point receives -----

  datatype ResetType = Hard | Soft

  datatype TriggerKind = TriggerBoot | TriggerHeartbeat | TriggerStatus | TriggerMeterValues | TriggerOther | TriggerEmpty

  /** A CSMS command with the fields its handler reads.  A missing or mistyped
      `connectorId` or `type` is None; a missing `idTag` is the empty string. */
  datatype Command =
    | RemoteStart(idTag: string, connectorId: Option<int>)
    | RemoteStop(transactionId: Option<int>)
    | UnlockConnector(connectorId: Option<int>)
    | Reset(resetType: Option<ResetType>)
    | ChangeAvailability(connectorId: Option<int>, availability: Option<Availability>)
    | TriggerMessage(requested: TriggerKind, connectorId: Option<int>)
    | ChangeConfiguration
    | GetConfiguration
    | UnknownCommand

  datatype BootStatus = BootAcceptedStatus | BootPendingStatus | BootRejectedStatus | BootOtherStatus

  /** The fields the reply handlers read from a CALLRESULT payload. */
  datatype ReplyPayload = ReplyPayload(
    status: BootStatus, interval: Option<nat>, tagAccepted: bool, transactionId: Option<int>)

  /** `payload` is None when the frame has no third element; reading a field of it then throws. */
  datatype InFrame =
    | InCall(uid: string, command: Command)
    | InResult(replyUid: nat, payload: Option<ReplyPayload>)
    | InError(errorUid: nat)
    | InUnknown

  // ----- Scheduled work -----

  datatype TaskKind =
    | RemoteStartTask(connectorId: int, idTag: string)
    | RemoteStopTask(connectorId: int)
    | ResetTask
    | TriggerTask(requested: TriggerKind, target: Option<int>)
    | BootRetryTask
    | InitialStatusTask
    | StopTimeoutTask(connectorId: int)

  datatype Task = Task(due: nat, kind: TaskKind)

  datatype HeartbeatTimer = HeartbeatTimer(due: nat, delay: nat)

  /** The wire side of a charge point: socket, registration, heartbeat and the calls in flight. */
  datatype Link = Link(
    now: nat,
    isOpen: bool,
    registration: Registration,
    heartbeatInterval: Option<nat>,  // seconds
    heartbeatTimer: Option<HeartbeatTimer>,
    lastMessageSentAt: nat,
    pendingCalls: JsMap<PendingCall>,
    nextUid: nat,
    trace: seq<TraceEntry>)

  datatype Runtime = Runtime(
    link: Link,
    connectorStates: JsMap<ConnectorState>,
    transactions: JsMap<Transaction>,
    meterCounter: nat,
    meterValuesTimer: Option<nat>,
    tasks: seq<Task>)
}
