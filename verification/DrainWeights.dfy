/** How much traffic each frame and each scheduled task can still cause, and a bound
    on what one handler adds.  A status costs 2: the call, then its reply. */
module DrainWeights {
  import opened Wrappers
  import opened OrderedMaps
  import opened ChargePointTypes
  import opened DcMeter
  import opened ChargePointModel

  /** The fixed connector set, and how many connectors a charge point has stored. */
  datatype Scope = Scope(connectors: set<int>, stored: nat) {
    function Size(): nat { |connectors| }
  }

  const STATUS: nat := 2
  const STOP_CALL: nat := 4       // its reply (3) may report Unavailable
  const START_CALL: nat := 4      // its reply (3) reports Charging
  const AUTHORIZE_CALL: nat := 6  // its reply (5) sends a StartTransaction
  const STOP_TIMEOUT_TASK: nat := 3
  const STOPPING: nat := 9        // a status, a StopTransaction and its timeout

  function InitialStatusWeight(b: Scope): nat { 1 + STATUS * (b.stored + 1) }

  /** Its reply marks the acceptance and schedules the initial statuses. */
  function BootWeight(b: Scope): nat { 3 + InitialStatusWeight(b) }

  function ReplyWeight(a: Action, b: Scope): nat {
    match a
    case BootNotificationAction => BootWeight(b) - 1
    case AuthorizeAction => AUTHORIZE_CALL - 1
    case StartTransactionAction => START_CALL - 1
    case StopTransactionAction => STOP_CALL - 1
    case _ => 1
  }

  function CallWeight(call: OutCall, b: Scope): nat { 1 + ReplyWeight(call.ActionOf(), b) }

  function EntryWeight(e: TraceEntry, b: Scope): nat {
    if e.Sent? then CallWeight(e.call, b) else 1
  }

  function TaskWeight(kind: TaskKind, b: Scope): nat {
    match kind
    case RemoteStartTask(_, _) => 1 + STATUS + AUTHORIZE_CALL
    case RemoteStopTask(_) => 1 + STOPPING
    case ResetTask => 1 + STATUS * b.Size() + BootWeight(b)
    case TriggerTask(_, _) => 1 + BootWeight(b)
    case BootRetryTask => 1 + BootWeight(b)
    case InitialStatusTask => InitialStatusWeight(b)
    case StopTimeoutTask(_) => STOP_TIMEOUT_TASK
  }

  function CommandWeight(command: Command, b: Scope): nat {
    match command
    case RemoteStart(_, _) => TaskWeight(RemoteStartTask(0, ""), b)
    case RemoteStop(_) => TaskWeight(RemoteStopTask(0), b)
    case UnlockConnector(_) => STATUS
    case Reset(_) => STOPPING * b.Size() + TaskWeight(ResetTask, b)
    case ChangeAvailability(_, _) => STATUS * (b.Size() + 1)
    case TriggerMessage(_, _) => TaskWeight(TriggerTask(TriggerBoot, None), b)
    case _ => 0
  }

  function TraceWeight(trace: seq<TraceEntry>, b: Scope): nat {
    if trace == [] then 0
    else TraceWeight(trace[..|trace| - 1], b) + EntryWeight(trace[|trace| - 1], b)
  }

  function TasksWeight(tasks: seq<Task>, b: Scope): nat {
    if tasks == [] then 0
    else TasksWeight(tasks[..|tasks| - 1], b) + TaskWeight(tasks[|tasks| - 1].kind, b)
  }

  /** All the traffic caused so far, counted with what it can still cause. */
  function Weight(s: Runtime, b: Scope): nat {
    TraceWeight(s.link.trace, b) + TasksWeight(s.tasks, b)
  }

  lemma TraceAppend(trace: seq<TraceEntry>, e: TraceEntry, b: Scope)
    ensures TraceWeight(trace + [e], b) == TraceWeight(trace, b) + EntryWeight(e, b)
  {
    assert (trace + [e])[..|trace|] == trace;
  }

  lemma TasksAppend(tasks: seq<Task>, t: Task, b: Scope)
    ensures TasksWeight(tasks + [t], b) == TasksWeight(tasks, b) + TaskWeight(t.kind, b)
  {
    assert (tasks + [t])[..|tasks|] == tasks;
  }

  lemma {:induction false} TasksRemove(tasks: seq<Task>, i: nat, b: Scope)
    requires i < |tasks|
    ensures TasksWeight(tasks[..i] + tasks[i + 1..], b) + TaskWeight(tasks[i].kind, b) == TasksWeight(tasks, b)
  {
    var last := |tasks| - 1;
    if i == last {
      assert tasks[..i] + tasks[i + 1..] == tasks[..last];
    } else {
      var shorter := tasks[..last];
      TasksRemove(shorter, i, b);
      var left := tasks[..i] + tasks[i + 1..];
      assert left[..|left| - 1] == shorter[..i] + shorter[i + 1..];
      assert left[|left| - 1] == tasks[last];
    }
  }

  // ----- The scope -----

  predicate TaskInScope(kind: TaskKind, b: Scope) {
    match kind
    case RemoteStartTask(c, _) => c in b.connectors
    case RemoteStopTask(c) => c in b.connectors
    case TriggerTask(_, c) => c.Some? ==> c.value in b.connectors
    case StopTimeoutTask(c) => c in b.connectors
    case _ => true
  }

  /** Only connectors of the fixed set are named anywhere in the runtime. */
  ghost predicate InScope(s: Runtime, b: Scope) {
    && s.connectorStates.Valid() && s.transactions.Valid()
    && (forall c :: c in s.connectorStates.vals ==> c in b.connectors)
    && (forall c :: c in s.transactions.vals ==> c in b.connectors && s.transactions.vals[c].connectorId in b.connectors)
    && (forall u :: u in s.link.pendingCalls.vals && s.link.pendingCalls.vals[u].connectorId.Some? ==>
          s.link.pendingCalls.vals[u].connectorId.value in b.connectors)
    && (forall t :: t in s.tasks ==> TaskInScope(t.kind, b))
  }

  /** `t` stays in scope and weighs at most `extra` more than `s`. */
  ghost predicate Adds(s: Runtime, t: Runtime, extra: int, b: Scope) {
    (InScope(s, b) ==> InScope(t, b)) && Weight(t, b) <= Weight(s, b) + extra
  }

  lemma {:induction false} FewKeys(keys: seq<int>, all: set<int>)
    requires NoDuplicates(keys) && forall k :: k in keys ==> k in all
    ensures |keys| <= |all|
  {
    if keys != [] {
      var rest := keys[1..];
      assert forall k :: k in rest ==> k in all - {keys[0]};
      FewKeys(rest, all - {keys[0]});
    }
  }

  // ----- Building blocks -----

  lemma ScheduleAdds(s: Runtime, delay: nat, kind: TaskKind, b: Scope)
    requires TaskInScope(kind, b)
    ensures Adds(s, Schedule(s, delay, kind), TaskWeight(kind, b), b)
  {
    TasksAppend(s.tasks, Task(s.link.now + delay, kind), b);
  }

  lemma SendAdds(s: Runtime, call: OutCall, c: Option<int>, idTag: Option<string>, b: Scope)
    requires c.Some? ==> c.value in b.connectors
    ensures Adds(s, SendFrame(s, call, c, idTag), CallWeight(call, b), b)
  {
    if s.link.isOpen {
      TraceAppend(s.link.trace, Sent(s.link.now, s.link.nextUid, call), b);
      var t := SendFrame(s, call, c, idTag);
      assert t.link.trace == s.link.trace + [Sent(s.link.now, s.link.nextUid, call)];
    }
  }

  lemma GatedAdds(s: Runtime, call: OutCall, b: Scope)
    ensures Adds(s, s.(link := TransmitIfRegistered(s.link, call)), CallWeight(call, b), b)
  {
    SendAdds(s, call, None, None, b);
  }

  lemma RespondAdds(s: Runtime, uid: string, response: ResponseStatus, b: Scope)
    ensures Adds(s, s.(link := Respond(s.link, uid, response)), 1, b)
  {
    if s.link.isOpen {
      TraceAppend(s.link.trace, Responded(s.link.now, uid, response), b);
    }
  }

  lemma ConnectorAdds(s: Runtime, c: int, cs: ConnectorState, b: Scope)
    requires c in b.connectors
    ensures Adds(s, WithConnector(s, c, cs), 0, b)
  {
  }

  lemma ReportAdds(s: Runtime, c: int, cs: ConnectorState, status: ConnectorStatus, fault: bool, b: Scope)
    requires c in b.connectors
    ensures Adds(s, SendStatus(WithConnector(s, c, cs), c, status, fault), STATUS, b)
  {
    ConnectorAdds(s, c, cs, b);
    GatedAdds(WithConnector(s, c, cs), StatusNotification(c, status, fault), b);
  }

  lemma RowAdds(s: Runtime, c: int, tx: Transaction, b: Scope)
    requires c in b.connectors && tx.connectorId in b.connectors
    ensures Adds(s, WithTransaction(s, c, tx), 0, b)
  {
  }

  lemma RemoveRowAdds(s: Runtime, c: int, b: Scope)
    ensures Adds(s, WithoutTransaction(s, c), 0, b)
  {
  }

  // ----- Stopping and finishing -----

  lemma SendWeighs(s: Runtime, call: OutCall, c: Option<int>, idTag: Option<string>, b: Scope)
    ensures Weight(SendFrame(s, call, c, idTag), b) <= Weight(s, b) + CallWeight(call, b)
  {
    if s.link.isOpen {
      TraceAppend(s.link.trace, Sent(s.link.now, s.link.nextUid, call), b);
      assert SendFrame(s, call, c, idTag).link.trace == s.link.trace + [Sent(s.link.now, s.link.nextUid, call)];
    }
  }

  lemma StatusWeighs(s: Runtime, c: int, status: ConnectorStatus, fault: bool, b: Scope)
    ensures Weight(SendStatus(s, c, status, fault), b) <= Weight(s, b) + STATUS
  {
    SendWeighs(s, StatusNotification(c, status, fault), None, None, b);
  }

  lemma StopWeighs(s: Runtime, c: int, reason: StopReason, b: Scope)
    ensures Weight(StopTransactionOn(s, c, reason), b) <= Weight(s, b) + STOPPING
  {
    if CanStop(s, c) {
      var tx := StoppedRow(s.transactions.vals[c], reason);
      var s1 := WithConnector(WithTransaction(s, c, tx), c, ConnectorOf(s, c).(status := Finishing));
      StatusWeighs(s1, c, Finishing, false, b);
      var s2 := SendStatus(s1, c, Finishing, false);
      SendWeighs(s2, StopFrameOf(tx), Some(c), None, b);
      var s3 := SendFrame(s2, StopFrameOf(tx), Some(c), None);
      TasksAppend(s3.tasks, Task(s3.link.now + STOP_TIMEOUT, StopTimeoutTask(c)), b);
    }
  }

  lemma StopInScope(s: Runtime, c: int, reason: StopReason, b: Scope)
    requires InScope(s, b)
    ensures InScope(StopTransactionOn(s, c, reason), b)
  {
    if CanStop(s, c) {
      var tx := StoppedRow(s.transactions.vals[c], reason);
      var s1 := WithConnector(WithTransaction(s, c, tx), c, ConnectorOf(s, c).(status := Finishing));
      assert InScope(s1, b);
      SendInScope(s1, SendStatus(s1, c, Finishing, false), b);
    }
  }

  /** The link changed, and with it only calls that name connectors of the scope. */
  lemma SendInScope(s: Runtime, t: Runtime, b: Scope)
    requires InScope(s, b) && t == s.(link := t.link)
    requires forall u :: u in t.link.pendingCalls.vals && t.link.pendingCalls.vals[u].connectorId.Some? ==>
               t.link.pendingCalls.vals[u].connectorId.value in b.connectors
    ensures InScope(t, b)
  {
  }

  lemma StopAdds(s: Runtime, c: int, reason: StopReason, b: Scope)
    requires InScope(s, b)
    ensures Adds(s, StopTransactionOn(s, c, reason), STOPPING, b)
  {
    StopWeighs(s, c, reason, b);
    StopInScope(s, c, reason, b);
  }

  lemma SettleAdds(s: Runtime, c: int, b: Scope)
    requires c in b.connectors
    ensures Adds(s, Settle(s, c), STATUS, b)
  {
    var s1 := if Find(s.transactions.keys, s.transactions.vals, IsCharging).None?
              then s.(meterValuesTimer := None) else s;
    assert Adds(s, s1, 0, b);
    ConnectorAdds(s1, c, FreshConnector, b);
    var s2 := EnsureConnector(s1, c);
    ReportAdds(s2, c, ConnectorOf(s2, c).(status := Unavailable, cablePluggedIn := false), Unavailable, false, b);
  }

  lemma FinishAdds(s: Runtime, c: int, b: Scope)
    requires InScope(s, b)
    ensures Adds(s, FinishStopped(s, c), STATUS, b)
  {
    if c in s.transactions.vals {
      RemoveRowAdds(s, c, b);
      SettleAdds(WithoutTransaction(s, c), c, b);
    }
  }

  lemma SampleAdds(s: Runtime, c: int, b: Scope)
    requires InScope(s, b) && c in s.transactions.vals && s.transactions.vals[c].transactionId.Some?
    ensures Adds(s, SendMeterValues(s, c), STATUS, b)
  {
    var tx := AdvanceDcMeter(s.transactions.vals[c], SAMPLE_SECONDS);
    RowAdds(s, c, tx, b);
    if Registered(s.link) {
      SendAdds(WithTransaction(s, c, tx), SampleOf(c, tx), None, None, b);
    }
  }

  lemma PresentStatusAdds(s: Runtime, c: int, status: ConnectorStatus, b: Scope)
    requires InScope(s, b)
    ensures Adds(s, SetStatusIfPresent(s, c, status), 0, b)
  {
    if c in s.connectorStates.vals {
      ConnectorAdds(s, c, s.connectorStates.vals[c].(status := status), b);
    }
  }

  // ----- Replies -----

  lemma BootReplyAdds(s: Runtime, p: ReplyPayload, b: Scope)
    requires !p.status.BootRejectedStatus?
    ensures Adds(s, BootReply(s, p), BootWeight(b) - 2, b)
  {
    if p.status.BootAcceptedStatus? {
      var interval := p.interval.GetOr(DEFAULT_INTERVAL);
      TraceAppend(s.link.trace, BootAccepted(s.link.now), b);
      var s1 := s.(link := AcceptRegistration(s.link, interval));
      assert s1.link.trace == s.link.trace + [BootAccepted(s.link.now)];
      assert Adds(s, s1, 1, b);
      ScheduleAdds(s1, 0, InitialStatusTask, b);
    }
  }

  lemma BeginAdds(s: Runtime, c: int, tx: Transaction, call: OutCall, counter: nat, b: Scope)
    requires InScope(s, b) && c in b.connectors && tx.connectorId == c
    ensures Adds(s, SendFrame(WithTransaction(s.(meterCounter := counter), c, tx), call, Some(c), None),
                 CallWeight(call, b), b)
  {
    var s1 := WithTransaction(s.(meterCounter := counter), c, tx);
    assert InScope(s1, b);
    SendWeighs(s1, call, Some(c), None, b);
    SendInScope(s1, SendFrame(s1, call, Some(c), None), b);
  }

  lemma AuthorizeReplyAdds(s: Runtime, p: ReplyPayload, call: PendingCall, b: Scope)
    requires InScope(s, b) && (call.connectorId.Some? ==> call.connectorId.value in b.connectors)
    ensures Adds(s, AuthorizeReply(s, p, call), START_CALL, b)
  {
    if call.connectorId.Some? {
      var c: int := call.connectorId.value;
      assert c in b.connectors;
      if p.tagAccepted {
        var meterStart := s.meterCounter + 100;
        var idTag := call.idTag.GetOr(DEFAULT_ID_TAG);
        var t := AuthorizeReply(s, p, call);
        assert t == SendFrame(WithTransaction(s.(meterCounter := meterStart), c, NewTransaction(c, idTag, meterStart)),
                              StartTransaction(c, idTag, meterStart), Some(c), None);
        assert Adds(s, t, START_CALL, b) by {
          BeginAdds(s, c, NewTransaction(c, idTag, meterStart), StartTransaction(c, idTag, meterStart), meterStart, b);
        }
      } else {
        PresentStatusAdds(s, c, Available, b);
      }
    }
  }

  lemma StartReplyAdds(s: Runtime, p: ReplyPayload, b: Scope)
    requires InScope(s, b)
    ensures Adds(s, StartReply(s, p), STATUS, b)
  {
    var found := Find(s.transactions.keys, s.transactions.vals, Unidentified);
    if found.Some? {
      assert Picked(s.transactions.vals, found.value, Unidentified);
      var tx := s.transactions.vals[found.value];
      var c := tx.connectorId;
      if p.tagAccepted && p.transactionId.Some? && p.transactionId.value != 0 {
        var tx' := tx.(transactionId := p.transactionId, status := TxCharging);
        RowAdds(s, found.value, tx', b);
        var s1 := WithTransaction(s, found.value, tx');
        PresentStatusAdds(s1, c, Charging, b);
        var s2 := SetStatusIfPresent(s1, c, Charging);
        GatedAdds(s2, StatusNotification(c, Charging, false), b);
        var s3 := SendStatus(s2, c, Charging, false);
        assert Adds(s3, StartMeterTimer(s3), 0, b);
      } else {
        RemoveRowAdds(s, c, b);
        PresentStatusAdds(WithoutTransaction(s, c), c, Available, b);
      }
    }
  }

  lemma AnsweredAdds(s: Runtime, uid: nat, b: Scope)
    ensures Adds(s, Answered(s, uid), 0, b)
  {
  }

  lemma StopReplyAdds(s: Runtime, b: Scope)
    requires InScope(s, b)
    ensures Adds(s, StopReply(s), STATUS, b)
  {
    var found := Find(s.transactions.keys, s.transactions.vals, StopIsPending);
    if found.Some? { FinishAdds(s, s.transactions.vals[found.value].connectorId, b); }
  }

  lemma ResultAdds(s: Runtime, uid: nat, payload: Option<ReplyPayload>, b: Scope)
    requires InScope(s, b)
    requires payload.Some? ==> !payload.value.status.BootRejectedStatus?
    ensures Adds(s, HandleCallResult(s, uid, payload),
                 if uid in s.link.pendingCalls.vals then ReplyWeight(s.link.pendingCalls.vals[uid].action, b) - 1 else 0, b)
  {
    if uid in s.link.pendingCalls.vals {
      var call := s.link.pendingCalls.vals[uid];
      var s1 := Answered(s, uid);
      AnsweredAdds(s, uid, b);
      if call.action == StopTransactionAction {
        StopReplyAdds(s1, b);
      } else if payload.Some? {
        if call.action == BootNotificationAction {
          BootReplyAdds(s1, payload.value, b);
        } else if call.action == AuthorizeAction {
          AuthorizeReplyAdds(s1, payload.value, call, b);
        } else if call.action == StartTransactionAction {
          StartReplyAdds(s1, payload.value, b);
        }
      }
    }
  }

  lemma ErrorAdds(s: Runtime, uid: nat, b: Scope)
    requires InScope(s, b)
    ensures Adds(s, HandleCallError(s, uid), 0, b)
  {
    if uid in s.link.pendingCalls.vals {
      var call := s.link.pendingCalls.vals[uid];
      var s1 := Answered(s, uid);
      AnsweredAdds(s, uid, b);
      if call.connectorId.Some? {
        var c := call.connectorId.value;
        if c in s1.connectorStates.vals {
          var cs := s1.connectorStates.vals[c].(status := Available, cablePluggedIn := false);
          ConnectorAdds(s1, c, cs, b);
          RemoveRowAdds(WithConnector(s1, c, cs), c, b);
        } else {
          RemoveRowAdds(s1, c, b);
        }
      }
    }
  }
}
