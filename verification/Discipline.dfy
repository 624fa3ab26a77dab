/** Disciplined runs.  StartTransaction replies carry no connector: the store gives
    each to the first transaction without an id.  Under the discipline below the
    transactions without an id are, in table order, exactly the connectors whose
    StartTransaction is outstanding, in sending order, so that choice is right; a
    transaction with its id stays Charging until its stop is sent; and none leaves
    the table before exactly one StopTransaction went out for it. */
module Discipline {
  import opened Wrappers
  import opened OrderedMaps
  import opened ChargePointTypes
  import opened DcMeter
  import opened ChargePointModel
  import opened ChargingInvariant
  import opened Moves
  import opened MovesCover
  import opened Askers
  import opened LiveRows
  import SessionHistory

  // ----- The discipline -----

  /** No transaction on `c`, and no Authorize for it outstanding. */
  ghost predicate Free(s: Runtime, c: int) {
    && c !in s.transactions.vals
    && forall u :: u in AuthorizeCalls(s.link) ==> AuthorizeCalls(s.link)[u].connectorId != Some(c)
  }

  /** A StartTransaction reply is the one for the oldest call, and has a payload. */
  predicate RepliesInOrder(s: Runtime, uid: nat) {
    uid in s.link.pendingCalls.vals && IsStartCall(s.link.pendingCalls.vals[uid]) ==> FirstStart(s.link) == Some(uid)
  }

  /** What the connector card offers in each status. */
  predicate ButtonOffered(s: Runtime, c: int, status: ConnectorStatus) {
    var shown := ConnectorOf(s, c).status;
    match status
    case Faulted => shown == Available || shown == Preparing || (shown == Charging && s.link.isOpen)
    case Unavailable => shown == Available
    case Available => shown == Faulted || shown == Unavailable
    case _ => false
  }

  ghost predicate Disciplined(s: Runtime, e: Event) {
    match e
    case OnFrame(InResult(uid, payload), _) =>
      RepliesInOrder(s, uid) && (AnswersAsk(s, uid) ==> payload.Some?)
    case OnFrame(InError(uid), _) => RepliesInOrder(s, uid)
    case OnFrame(InCall(_, UnlockConnector(c)), _) => c.Some? ==> c.value !in Waiting(s)
    case OnTask(i, _) =>
      i < |s.tasks| ==>
        && (s.tasks[i].kind.RemoteStartTask? ==> Free(s, s.tasks[i].kind.connectorId))
        && (s.tasks[i].kind.ResetTask? ==> forall c :: c in s.transactions.vals ==> !Stoppable(s.transactions.vals[c]))
    case PressAuthorize(c, _) => Free(s, c)
    case PressStatus(c, status) => ButtonOffered(s, c, status)
    case _ => true
  }

  // ----- The invariant -----

  /** An outstanding Authorize names a known connector that holds no transaction. */
  ghost predicate AuthorizeOk(s: Runtime, call: PendingCall) {
    && call.connectorId.Some?
    && call.connectorId.value in s.connectorStates.vals
    && call.connectorId.value !in s.transactions.vals
  }

  ghost predicate Apart(calls: map<int, PendingCall>) {
    forall u, v :: u in calls && v in calls && u != v ==> calls[u].connectorId != calls[v].connectorId
  }

  ghost predicate AuthorizesOk(s: Runtime) {
    && (forall u :: u in AuthorizeCalls(s.link) ==> AuthorizeOk(s, AuthorizeCalls(s.link)[u]))
    && Apart(AuthorizeCalls(s.link))
  }

  lemma AuthorizesStay(s: Runtime, t: Runtime)
    requires AuthorizesOk(s) && AuthorizeCalls(t.link) == AuthorizeCalls(s.link)
    requires forall c :: c in s.connectorStates.vals ==> c in t.connectorStates.vals
    requires forall c :: c in t.transactions.vals ==> c in s.transactions.vals
    ensures AuthorizesOk(t)
  {
    forall u | u in AuthorizeCalls(t.link) ensures AuthorizeOk(t, AuthorizeCalls(t.link)[u]) {
      var call := AuthorizeCalls(t.link)[u];
      assert u in AuthorizeCalls(s.link) && AuthorizeCalls(s.link)[u] == call;
      assert AuthorizeOk(s, call);
      var d: int := call.connectorId.value;
      assert d in s.connectorStates.vals && d !in s.transactions.vals;
    }
  }

  ghost predicate Inv(s: Runtime) {
    && TableOk(s) && PendingOk(s.link)
    && AskersOf(s.link) == Waiting(s)
    && AuthorizesOk(s)
  }

  /** Which connector a StartTransaction reply would be given to. */
  function BoundTo(s: Runtime): Option<int> {
    Find(s.transactions.keys, s.transactions.vals, Unidentified)
  }

  /** In a state that satisfies the invariant, the reply to `uid` goes to the connector that
      asked exactly when `uid` is the oldest StartTransaction outstanding. */
  lemma BindsExactlyInOrder(s: Runtime, uid: nat)
    requires Inv(s) && uid in s.link.pendingCalls.vals && IsStartCall(s.link.pendingCalls.vals[uid])
    ensures BoundTo(s).Some?
    ensures BoundTo(s).value == s.link.pendingCalls.vals[uid].connectorId.GetOr(0) <==> FirstStart(s.link) == Some(uid)
  {
    var keys, vals := s.link.pendingCalls.keys, s.link.pendingCalls.vals;
    FindIsFirstSelected(s.transactions.keys, s.transactions.vals, Unidentified);
    AskerListed(keys, vals, uid);
    var first := FirstStart(s.link).value;
    AskersDropFirst(keys, vals, first);
    if first != uid {
      // The two calls name different connectors, because no connector waits twice.
      assert Picked(vals - {first}, uid, IsStartCall) && uid in Without(keys, first);
      AskerListed(Without(keys, first), vals - {first}, uid);
      SelectNoDuplicates(s.transactions.keys, s.transactions.vals, Unidentified);
      var rest := AskersIn(Without(keys, first), vals - {first});
      assert AskersOf(s.link) == [vals[first].connectorId.GetOr(0)] + rest;
      var j :| 0 <= j < |rest| && rest[j] == vals[uid].connectorId.GetOr(0);
      assert AskersOf(s.link)[j + 1] == rest[j] && AskersOf(s.link)[0] == BoundTo(s).value;
    }
  }

  // ----- Events that neither ask nor answer -----

  lemma CommandIsTame(s: Runtime, command: Command, detail: seq<int>)
    requires TableOk(s)
    requires command.UnlockConnector? && command.connectorId.Some? ==> command.connectorId.value !in Waiting(s)
    ensures Tame(s, HandleCommand(s, command, detail).0)
  {
    var t := HandleCommand(s, command, detail).0;
    match command {
      case UnlockConnector(c) => UnlockIsTame(s, c);
      case Reset(x) =>
        if x.Some? {
          StopAllStays(s, s.transactions.keys, ReasonOf(x.value));
          RowsStayIsTame(s, t);
        }
      case ChangeAvailability(c, a) =>
        if c.Some? && a.Some? { AvailabilityStays(s, AvailabilityTargets(s, c.value, detail), a.value); }
        ConnectorsOnly(s, t);
      case _ => ConnectorsOnly(s, t);
    }
  }

  lemma ReplyIsTame(s: Runtime, uid: nat, payload: Option<ReplyPayload>)
    requires TableOk(s) && !AnswersAsk(s, uid)
    ensures Tame(s, HandleCallResult(s, uid, payload))
  {
    var t := HandleCallResult(s, uid, payload);
    if uid in s.link.pendingCalls.vals && s.link.pendingCalls.vals[uid].action == StopTransactionAction {
      StopReplyIsTame(Answered(s, uid));
      TameFrom(s, Answered(s, uid), t);
    } else {
      OtherReplyLeaves(s, uid, payload);
      ConnectorsOnly(s, t);
    }
  }

  /** Which calls are pending is no part of the picture. */
  lemma TameFrom(s: Runtime, s1: Runtime, t: Runtime)
    requires Tame(s1, t) && s1.transactions == s.transactions && s1.connectorStates == s.connectorStates
    ensures Tame(s, t)
  {
  }

  lemma OtherReplyLeaves(s: Runtime, uid: nat, payload: Option<ReplyPayload>)
    requires !AnswersAsk(s, uid)
    requires uid in s.link.pendingCalls.vals ==> s.link.pendingCalls.vals[uid].action != StopTransactionAction
    ensures HandleCallResult(s, uid, payload).transactions == s.transactions
    ensures HandleCallResult(s, uid, payload).connectorStates == s.connectorStates
  {
  }

  lemma TriggerIsTame(s: Runtime, requested: TriggerKind, target: Option<int>)
    requires TableOk(s)
    ensures Tame(s, RunTrigger(s, requested, target))
  {
    var t := RunTrigger(s, requested, target);
    if requested.TriggerMeterValues? && target.Some? && target.value in s.transactions.vals
       && Stoppable(s.transactions.vals[target.value]) {
      SampleStays(s, target.value);
      RowsStayIsTame(s, t);
    } else {
      ConnectorsOnly(s, t);
    }
  }

  lemma TaskIsTame(s: Runtime, kind: TaskKind, fetched: Option<seq<int>>)
    requires TableOk(s) && !kind.RemoteStartTask?
    requires kind.ResetTask? ==> forall c :: c in s.transactions.vals ==> !Stoppable(s.transactions.vals[c])
    ensures Tame(s, RunTask(s, kind, fetched))
  {
    var t := RunTask(s, kind, fetched);
    match kind {
      case RemoteStopTask(c) =>
        StopStays(s, c, Remote);
        RowsStayIsTame(s, t);
      case ResetTask =>
        ReleaseStays(s, s.connectorStates.keys);
        RowsStayIsTame(s, t);
      case TriggerTask(requested, c) => TriggerIsTame(s, requested, c);
      case InitialStatusTask =>
        if fetched.Some? { ReportStays(SendStatus(s, MAIN_CONTROLLER, Available, false), fetched.value); }
        ConnectorsOnly(s, t);
      case StopTimeoutTask(c) =>
        if c in s.transactions.vals && s.transactions.vals[c].stopPending { FinishIsTame(s, c); }
      case _ => ConnectorsOnly(s, t);
    }
  }

  lemma StatusIsTame(s: Runtime, c: int, status: ConnectorStatus)
    requires TableOk(s) && ButtonOffered(s, c, status)
    ensures Tame(s, SetConnectorStatus(s, c, status))
  {
    var t := SetConnectorStatus(s, c, status);
    if status == Faulted && s.link.registration == Accepted {
      var s1 := EnsureConnector(s, c);
      var s2 := WithConnector(s1, c, ConnectorOf(s1, c).(faultCode := true));
      assert TableOk(s2);
      StopStays(s2, c, EmergencyStop);
      RowsStayIsTame(s, t);
    } else {
      ConnectorsOnly(s, t);
    }
  }

  lemma UnplugIsTame(s: Runtime, c: int)
    requires TableOk(s)
    ensures Tame(s, Unplug(s, c))
  {
    var t := Unplug(s, c);
    if c in s.connectorStates.vals && s.connectorStates.vals[c].status == Charging {
      StopStays(s, c, EVDisconnected);
      RowsStayIsTame(s, t);
    } else {
      ConnectorsOnly(s, t);
    }
  }

  lemma ButtonIsTame(s: Runtime, e: Event)
    requires TableOk(s) && Enabled(s, e) && Disciplined(s, e)
    requires !e.OnFrame? && !e.OnTask? && !e.PressAuthorize?
    ensures Tame(s, Apply(s, e))
  {
    var t := Apply(s, e);
    match e {
      case OnMeterTimer =>
        SampleAllStays(s.(meterValuesTimer := Some(s.meterValuesTimer.value + SAMPLE_PERIOD)), s.transactions.keys);
        RowsStayIsTame(s, t);
      case PressUnplug(c) => UnplugIsTame(s, c);
      case PressStop(c) =>
        StopStays(s, c, Local);
        RowsStayIsTame(s, t);
      case PressMeterValues(c) =>
        if c in s.transactions.vals && Stoppable(s.transactions.vals[c]) { SampleStays(s, c); }
        RowsStayIsTame(s, t);
      case PressStatus(c, status) => StatusIsTame(s, c, status);
      case _ => ConnectorsOnly(s, t);
    }
  }

  lemma EventIsTame(s: Runtime, e: Event)
    requires TableOk(s) && Enabled(s, e) && Disciplined(s, e) && !AsksOrIsAnswered(s, e)
    ensures Tame(s, Apply(s, e))
  {
    match e {
      case OnFrame(frame, detail) =>
        match frame {
          case InCall(_, command) => CommandIsTame(s, command, detail);
          case InResult(uid, payload) => ReplyIsTame(s, uid, payload);
          case InError(uid) =>
          case InUnknown =>
        }
      case OnTask(i, fetched) => TaskIsTame(RemoveTask(s, i), s.tasks[i].kind, fetched);
      case PressAuthorize(_, _) =>
      case _ => ButtonIsTame(s, e);
    }
  }

  lemma TamePicture(s: Runtime, t: Runtime)
    requires Inv(s) && Tame(s, t)
    requires SameAsks(t.link, AskersOf(s.link), AuthorizeCalls(s.link))
    ensures Inv(t) && LiveStay(s, t)
  {
    AuthorizesStay(s, t);
  }

  lemma QuietKeeps(s: Runtime, e: Event)
    requires Inv(s) && Enabled(s, e) && Disciplined(s, e) && !AsksOrIsAnswered(s, e)
    ensures Inv(Apply(s, e)) && LiveStay(s, Apply(s, e))
  {
    var t := Apply(s, e);
    assert Tame(s, t) by { EventIsTame(s, e); }
    assert SameAsks(t.link, AskersOf(s.link), AuthorizeCalls(s.link)) by { QuietEvent(s, e); }
    TamePicture(s, t);
  }

  // ----- Asking -----

  lemma AuthorizeKeeps(s: Runtime, c: int, idTag: string)
    requires Inv(s) && Free(s, c) && c in s.connectorStates.vals
    ensures Inv(SendAuthorize(s, c, idTag)) && LiveStay(s, SendAuthorize(s, c, idTag))
  {
    if s.link.isOpen {
      SentKeeps(s.link, Authorize(idTag), Some(c), Some(idTag));
      assert s.link.nextUid !in AuthorizeCalls(s.link);
    }
  }

  /** Plugging in and the like: same rows, same calls asked. */
  lemma SamePicture(s: Runtime, t: Runtime)
    requires Inv(s) && ChargingStays(s, t)
    requires SameAsks(t.link, AskersOf(s.link), AuthorizeCalls(s.link))
    ensures Inv(t) && LiveStay(s, t)
  {
    ConnectorsOnly(s, t);
    AuthorizesStay(s, t);
  }

  lemma RemoteStartKeeps(s: Runtime, c: int, idTag: string)
    requires Inv(s) && Free(s, c)
    ensures Inv(RunRemoteStart(s, c, idTag)) && LiveStay(s, RunRemoteStart(s, c, idTag))
  {
    var s1 := EnsureConnector(s, c);
    SamePicture(s, s1);
    var cs := ConnectorOf(s1, c);
    var s2 := s1;
    if cs.status == Available {
      s2 := SendStatus(WithConnector(s1, c, cs.(cablePluggedIn := true, status := Preparing)), c, Preparing, false);
      if Registered(s1.link) { SentKeeps(s1.link, StatusNotification(c, Preparing, false), None, None); }
      SamePicture(s, s2);
    }
    if ConnectorOf(s2, c).status == Preparing {
      AuthorizeKeeps(s2, c, idTag);
    }
  }

  // ----- Being answered -----

  lemma NewRowWaits(s: Runtime, t: Runtime, c: int, row: Transaction)
    requires TableOk(s) && c !in s.transactions.vals && Unidentified(row)
    requires t.transactions == Put(s.transactions, c, row)
    ensures Waiting(t) == Waiting(s) + [c]
  {
    SelectAppend(s.transactions.keys, c, t.transactions.vals, Unidentified);
    SelectSameOn(s.transactions.keys, s.transactions.vals, t.transactions.vals, Unidentified);
  }

  /** The Authorize `uid` is off the list, and nothing else is known of its connector. */
  lemma AuthorizeAnswered(s: Runtime, uid: nat)
    requires Inv(s) && uid in AuthorizeCalls(s.link)
    ensures Inv(Answered(s, uid)) && AuthorizeCalls(Answered(s, uid).link) == AuthorizeCalls(s.link) - {uid as int}
    ensures AuthorizeCalls(s.link)[uid] == s.link.pendingCalls.vals[uid] && AuthorizeOk(s, s.link.pendingCalls.vals[uid])
    ensures AskersOf(Answered(s, uid).link) == AskersOf(s.link)
  {
    assert AuthorizeCalls(s.link)[uid] == s.link.pendingCalls.vals[uid];
    AnsweredKeeps(s.link, uid);
    FewerAuthorizes(s, Answered(s, uid), uid);
  }

  lemma FewerAuthorizes(s: Runtime, t: Runtime, uid: nat)
    requires AuthorizesOk(s) && AuthorizeCalls(t.link) == AuthorizeCalls(s.link) - {uid as int}
    requires t.connectorStates == s.connectorStates && t.transactions == s.transactions
    ensures AuthorizesOk(t)
  {
    forall u | u in AuthorizeCalls(t.link) ensures AuthorizeOk(t, AuthorizeCalls(t.link)[u]) {
      assert u in AuthorizeCalls(s.link) && AuthorizeCalls(s.link)[u] == AuthorizeCalls(t.link)[u];
      assert AuthorizeOk(s, AuthorizeCalls(s.link)[u]);
    }
  }

  /** The status of a connector without a transaction is nobody's business here. */
  lemma FreeStatusKeeps(s: Runtime, c: int, status: ConnectorStatus)
    requires Inv(s) && c !in s.transactions.vals
    ensures Inv(SetStatusIfPresent(s, c, status))
  {
    AuthorizesStay(s, SetStatusIfPresent(s, c, status));
  }

  /** A new row and one more asker. */
  lemma BeginsRow(s: Runtime, p: ReplyPayload, call: PendingCall)
    requires PendingOk(s.link) && s.link.isOpen && call.connectorId.Some? && p.tagAccepted
    ensures var c, t := call.connectorId.value, AuthorizeReply(s, p, call);
            && t.transactions == Put(s.transactions, c, NewTransaction(c, call.idTag.GetOr(DEFAULT_ID_TAG), s.meterCounter + 100))
            && t.connectorStates == s.connectorStates && PendingOk(t.link)
            && AskersOf(t.link) == AskersOf(s.link) + [c] && AuthorizeCalls(t.link) == AuthorizeCalls(s.link)
  {
    var c: int := call.connectorId.value;
    SentKeeps(s.link, StartTransaction(c, call.idTag.GetOr(DEFAULT_ID_TAG), s.meterCounter + 100), Some(c), None);
  }

  lemma AuthorizeAcceptedKeeps(s: Runtime, uid: nat, p: ReplyPayload)
    requires Inv(s) && s.link.isOpen && uid in AuthorizeCalls(s.link) && p.tagAccepted
    ensures Inv(HandleCallResult(s, uid, Some(p))) && LiveStay(s, HandleCallResult(s, uid, Some(p)))
  {
    AuthorizeAnswered(s, uid);
    var call := s.link.pendingCalls.vals[uid];
    RowAddedKeeps(s, AuthorizeReply(Answered(s, uid), p, call), uid, call, p);
    assert HandleCallResult(s, uid, Some(p)) == AuthorizeReply(Answered(s, uid), p, call);
  }

  lemma RowAddedKeeps(s: Runtime, t: Runtime, uid: nat, call: PendingCall, p: ReplyPayload)
    requires Inv(s) && Inv(Answered(s, uid)) && s.link.isOpen && p.tagAccepted
    requires uid in AuthorizeCalls(s.link) && AuthorizeCalls(s.link)[uid] == call && AuthorizeOk(s, call)
    requires AuthorizeCalls(Answered(s, uid).link) == AuthorizeCalls(s.link) - {uid as int}
    requires AskersOf(Answered(s, uid).link) == AskersOf(s.link)
    requires t == AuthorizeReply(Answered(s, uid), p, call)
    ensures Inv(t) && LiveStay(s, t)
  {
    var c: int := call.connectorId.value;
    BeginsRow(Answered(s, uid), p, call);
    NewRowKeeps(s, t, uid, c, call.idTag.GetOr(DEFAULT_ID_TAG), s.meterCounter + 100);
  }

  lemma NewRowKeeps(s: Runtime, t: Runtime, uid: nat, c: int, idTag: string, meterStart: nat)
    requires Inv(s) && uid in AuthorizeCalls(s.link) && AuthorizeCalls(s.link)[uid].connectorId == Some(c)
    requires t.transactions == Put(s.transactions, c, NewTransaction(c, idTag, meterStart))
    requires t.connectorStates == s.connectorStates
    requires PendingOk(t.link) && AskersOf(t.link) == AskersOf(s.link) + [c]
    requires AuthorizeCalls(t.link) == AuthorizeCalls(s.link) - {uid as int}
    ensures Inv(t) && LiveStay(s, t)
  {
    assert AuthorizeOk(s, AuthorizeCalls(s.link)[uid]);
    NewRowWaits(s, t, c, NewTransaction(c, idTag, meterStart));
    AuthorizesDropOne(s, t, uid, c);
    assert TableOk(t);
  }

  /** The Authorize that was accepted is gone and its connector now holds a row. */
  lemma AuthorizesDropOne(s: Runtime, t: Runtime, uid: nat, c: int)
    requires AuthorizesOk(s) && uid in AuthorizeCalls(s.link)
    requires AuthorizeCalls(s.link)[uid].connectorId == Some(c)
    requires AuthorizeCalls(t.link) == AuthorizeCalls(s.link) - {uid as int}
    requires t.connectorStates == s.connectorStates
    requires forall d :: d in t.transactions.vals ==> d == c || d in s.transactions.vals
    ensures AuthorizesOk(t)
  {
    forall u | u in AuthorizeCalls(t.link) ensures AuthorizeOk(t, AuthorizeCalls(t.link)[u]) {
      var call := AuthorizeCalls(t.link)[u];
      assert u in AuthorizeCalls(s.link) && AuthorizeCalls(s.link)[u] == call;
      assert AuthorizeOk(s, call);
      var d: int := call.connectorId.value;
      assert d in s.connectorStates.vals && d !in s.transactions.vals;
    }
  }

  lemma AuthorizeRefusedKeeps(s: Runtime, uid: nat, p: ReplyPayload)
    requires Inv(s) && uid in AuthorizeCalls(s.link) && !p.tagAccepted
    ensures Inv(HandleCallResult(s, uid, Some(p))) && LiveStay(s, HandleCallResult(s, uid, Some(p)))
  {
    AuthorizeAnswered(s, uid);
    var call := s.link.pendingCalls.vals[uid];
    FreeStatusKeeps(Answered(s, uid), call.connectorId.value, Available);
    assert HandleCallResult(s, uid, Some(p)) == SetStatusIfPresent(Answered(s, uid), call.connectorId.value, Available);
  }

  lemma AuthorizeErrorKeeps(s: Runtime, uid: nat)
    requires Inv(s) && uid in AuthorizeCalls(s.link)
    ensures Inv(HandleCallError(s, uid)) && LiveStay(s, HandleCallError(s, uid))
  {
    assert s.link.pendingCalls.vals[uid] == AuthorizeCalls(s.link)[uid];
    var c := AuthorizeCalls(s.link)[uid].connectorId.value;
    AnsweredKeeps(s.link, uid);
    var t := HandleCallError(s, uid);
    WithoutAbsent(s.transactions.keys, c);
    assert t.transactions.vals == s.transactions.vals;
  }

  /** The oldest StartTransaction leaves the pending calls: its asker heads the waiting rows. */
  lemma OldestAnswered(s: Runtime, uid: nat)
    requires Inv(s) && FirstStart(s.link) == Some(uid)
    ensures uid in s.link.pendingCalls.vals && BoundTo(s).Some?
    ensures Waiting(s) == [BoundTo(s).value] + AskersOf(Answered(s, uid).link)
    ensures BoundTo(s).value == s.link.pendingCalls.vals[uid].connectorId.GetOr(0)
    ensures PendingOk(Answered(s, uid).link)
    ensures AuthorizeCalls(Answered(s, uid).link) == AuthorizeCalls(s.link)
    ensures Without(Waiting(s), BoundTo(s).value) == AskersOf(Answered(s, uid).link)
  {
    AnsweredKeeps(s.link, uid);
    AskersDropFirst(s.link.pendingCalls.keys, s.link.pendingCalls.vals, uid);
    FindIsFirstSelected(s.transactions.keys, s.transactions.vals, Unidentified);
    SelectNoDuplicates(s.transactions.keys, s.transactions.vals, Unidentified);
    WithoutHead(Waiting(s));
    assert uid !in AuthorizeCalls(s.link);
  }

  lemma StartAcceptedKeeps(s: Runtime, uid: nat, p: ReplyPayload)
    requires Inv(s) && FirstStart(s.link) == Some(uid)
    requires p.tagAccepted && p.transactionId.Some? && p.transactionId.value != 0
    ensures Inv(HandleCallResult(s, uid, Some(p))) && LiveStay(s, HandleCallResult(s, uid, Some(p)))
  {
    OldestAnswered(s, uid);
    var c := BoundTo(s).value;
    var s1 := Answered(s, uid);
    var t := StartReply(s1, p);
    var row := s.transactions.vals[c].(transactionId := p.transactionId, status := TxCharging);
    assert t.transactions == Put(s.transactions, c, row);
    SelectUpdateOut(s.transactions.keys, s.transactions.vals, c, row, Unidentified);
    if Registered(s1.link) { SentKeeps(s1.link, StatusNotification(c, Charging, false), None, None); }
    assert AskersOf(t.link) == Waiting(t);
  }

  lemma StartGoneKeeps(s: Runtime, t: Runtime, uid: nat, c: int)
    requires Inv(s) && FirstStart(s.link) == Some(uid) && BoundTo(s) == Some(c)
    requires t.link == Answered(s, uid).link
    requires t.transactions == Remove(s.transactions, c)
    requires forall d :: d in s.connectorStates.vals ==>
               && d in t.connectorStates.vals
               && (d != c ==> t.connectorStates.vals[d] == s.connectorStates.vals[d])
    ensures Inv(t) && LiveStay(s, t)
  {
    OldestAnswered(s, uid);
    assert Waiting(t) == AskersOf(t.link) by {
      SelectWithout(s.transactions.keys, c, s.transactions.vals, Unidentified);
    }
    assert t.transactions.vals == s.transactions.vals - {c};
    AuthorizesStay(s, t);
    TableWithout(s, t, c);
  }

  lemma TableWithout(s: Runtime, t: Runtime, c: int)
    requires TableOk(s) && c in s.transactions.vals && Unidentified(s.transactions.vals[c])
    requires t.transactions == Remove(s.transactions, c)
    requires forall d :: d in s.connectorStates.vals ==>
               && d in t.connectorStates.vals
               && (d != c ==> t.connectorStates.vals[d] == s.connectorStates.vals[d])
    ensures TableOk(t) && LiveStay(s, t)
  {
    assert t.transactions.vals == s.transactions.vals - {c};
  }

  lemma StartAnswerKeeps(s: Runtime, uid: nat, p: ReplyPayload)
    requires Inv(s) && FirstStart(s.link) == Some(uid)
    ensures Inv(HandleCallResult(s, uid, Some(p))) && LiveStay(s, HandleCallResult(s, uid, Some(p)))
  {
    if p.tagAccepted && p.transactionId.Some? && p.transactionId.value != 0 {
      StartAcceptedKeeps(s, uid, p);
    } else {
      OldestAnswered(s, uid);
      StartGoneKeeps(s, HandleCallResult(s, uid, Some(p)), uid, BoundTo(s).value);
    }
  }

  lemma StartErrorKeeps(s: Runtime, uid: nat)
    requires Inv(s) && FirstStart(s.link) == Some(uid)
    ensures Inv(HandleCallError(s, uid)) && LiveStay(s, HandleCallError(s, uid))
  {
    OldestAnswered(s, uid);
    StartGoneKeeps(s, HandleCallError(s, uid), uid, BoundTo(s).value);
  }

  lemma ResultKeeps(s: Runtime, uid: nat, p: ReplyPayload)
    requires Inv(s) && s.link.isOpen && AnswersAsk(s, uid) && RepliesInOrder(s, uid)
    ensures Inv(HandleCallResult(s, uid, Some(p))) && LiveStay(s, HandleCallResult(s, uid, Some(p)))
  {
    if IsStartCall(s.link.pendingCalls.vals[uid]) {
      StartAnswerKeeps(s, uid, p);
    } else if p.tagAccepted {
      AuthorizeAcceptedKeeps(s, uid, p);
    } else {
      AuthorizeRefusedKeeps(s, uid, p);
    }
  }

  lemma ErrorKeeps(s: Runtime, uid: nat)
    requires Inv(s) && AnswersAsk(s, uid) && RepliesInOrder(s, uid)
    ensures Inv(HandleCallError(s, uid)) && LiveStay(s, HandleCallError(s, uid))
  {
    if IsStartCall(s.link.pendingCalls.vals[uid]) {
      StartErrorKeeps(s, uid);
    } else {
      AuthorizeErrorKeeps(s, uid);
    }
  }

  lemma PressAuthorizeKeeps(s: Runtime, c: int, idTag: string)
    requires Inv(s) && Free(s, c)
    ensures Inv(AuthorizeConnector(s, c, idTag)) && LiveStay(s, AuthorizeConnector(s, c, idTag))
  {
    if c in s.connectorStates.vals {
      AuthorizeKeeps(s, c, idTag);
    }
  }

  lemma RemoteStartTaskKeeps(s: Runtime, i: nat)
    requires Inv(s) && i < |s.tasks| && s.tasks[i].kind.RemoteStartTask? && Free(s, s.tasks[i].kind.connectorId)
    ensures Inv(RunTask(RemoveTask(s, i), s.tasks[i].kind, None))
    ensures LiveStay(s, RunTask(RemoveTask(s, i), s.tasks[i].kind, None))
  {
    var t := RemoveTask(s, i);
    SamePicture(s, t);
    RemoteStartKeeps(t, s.tasks[i].kind.connectorId, s.tasks[i].kind.idTag);
  }

  lemma StepKeeps(s: Runtime, e: Event)
    requires Inv(s) && Enabled(s, e) && Disciplined(s, e)
    ensures Inv(Apply(s, e)) && LiveStay(s, Apply(s, e))
  {
    if !AsksOrIsAnswered(s, e) {
      QuietKeeps(s, e);
    } else {
      match e {
        case OnFrame(InResult(uid, payload), _) => ResultKeeps(s, uid, payload.value);
        case OnFrame(InError(uid), _) => ErrorKeeps(s, uid);
        case OnTask(i, _) => RemoteStartTaskKeeps(s, i);
        case PressAuthorize(c, idTag) => PressAuthorizeKeeps(s, c, idTag);
      }
    }
  }

  // ----- Over runs -----

  ghost predicate IsDisciplinedRun(ss: seq<Runtime>, es: seq<Event>) {
    && IsRun(ss, es)
    && forall i :: 0 <= i < |es| ==> Disciplined(ss[i], es[i])
  }

  /** In every disciplined run: the transactions without an id are, in table order, the askers
      of the outstanding StartTransactions, in sending order; and live transactions are Charging. */
  lemma {:induction false} DisciplineHolds(ss: seq<Runtime>, es: seq<Event>, i: nat)
    requires IsDisciplinedRun(ss, es) && i < |ss|
    ensures Inv(ss[i])
    ensures AskersOf(ss[i].link) == Waiting(ss[i]) && LiveIsCharging(ss[i])
  {
    if i > 0 {
      DisciplineHolds(ss, es, i - 1);
      StepKeeps(ss[i - 1], es[i - 1]);
    }
  }

  predicate GrantsId(p: ReplyPayload) {
    p.tagAccepted && p.transactionId.Some? && p.transactionId.value != 0
  }

  /** What the reply to the StartTransaction of connector `c` does: its waiting row gets the id and
      the connector charges, or the row leaves and the connector is available; every other row and
      connector is as it was. */
  ghost predicate Lands(s: Runtime, t: Runtime, frame: InFrame, c: int) {
    && c in s.transactions.vals && Unidentified(s.transactions.vals[c]) && c in s.connectorStates.vals
    && match frame
       case InResult(_, Some(p)) =>
         if GrantsId(p) then
           && t.transactions == Put(s.transactions, c, s.transactions.vals[c].(transactionId := p.transactionId, status := TxCharging))
           && t.connectorStates == Put(s.connectorStates, c, s.connectorStates.vals[c].(status := Charging))
         else
           && t.transactions == Remove(s.transactions, c)
           && t.connectorStates == Put(s.connectorStates, c, s.connectorStates.vals[c].(status := Available))
       case InError(_) =>
         && t.transactions == Remove(s.transactions, c)
         && t.connectorStates == Put(s.connectorStates, c, s.connectorStates.vals[c].(status := Available, cablePluggedIn := false))
       case _ => false
  }

  lemma OldestLands(s: Runtime, uid: nat, p: ReplyPayload)
    requires Inv(s) && FirstStart(s.link) == Some(uid)
    ensures s.link.pendingCalls.vals[uid].connectorId.Some?
    ensures Lands(s, HandleCallResult(s, uid, Some(p)), InResult(uid, Some(p)), s.link.pendingCalls.vals[uid].connectorId.value)
    ensures Lands(s, HandleCallError(s, uid), InError(uid), s.link.pendingCalls.vals[uid].connectorId.value)
  {
    OldestAnswered(s, uid);
    var c := BoundTo(s).value;
    assert Picked(s.transactions.vals, c, Unidentified) && s.transactions.vals[c].connectorId == c;
  }

  /** Each StartTransaction reply, rejection or CALLERROR of a disciplined run lands on the connector
      that asked. */
  lemma RepliesReachTheirAsker(ss: seq<Runtime>, es: seq<Event>, i: nat, uid: nat)
    requires IsDisciplinedRun(ss, es) && i < |es|
    requires es[i].OnFrame? && ((es[i].frame.InResult? && es[i].frame.replyUid == uid) ||
                                (es[i].frame.InError? && es[i].frame.errorUid == uid))
    requires uid in ss[i].link.pendingCalls.vals && IsStartCall(ss[i].link.pendingCalls.vals[uid])
    ensures BoundTo(ss[i]) == ss[i].link.pendingCalls.vals[uid].connectorId
    ensures ss[i].link.pendingCalls.vals[uid].connectorId.Some?
    ensures Lands(ss[i], ss[i + 1], es[i].frame, ss[i].link.pendingCalls.vals[uid].connectorId.value)
  {
    DisciplineHolds(ss, es, i);
    BindsExactlyInOrder(ss[i], uid);
    assert Disciplined(ss[i], es[i]);
    if es[i].frame.InResult? {
      OldestLands(ss[i], uid, es[i].frame.payload.value);
    } else {
      OldestLands(ss[i], uid, ReplyPayload(BootOtherStatus, None, false, None));
    }
  }

  lemma ButtonsAreCalm(ss: seq<Runtime>, es: seq<Event>)
    requires IsDisciplinedRun(ss, es)
    ensures IsRunWithin(ss, es, CALM)
  {
    forall i | 0 <= i < |es| ensures Within(ss[i], es[i], CALM) {
      assert Disciplined(ss[i], es[i]);
    }
  }

  /** The transaction of row `c` at step `i` is no longer in the table at step `i + 1`. */
  ghost predicate Leaves(s: Runtime, t: Runtime, c: int) {
    && c in s.transactions.vals
    && (c !in t.transactions.vals || t.transactions.vals[c].meterStart != s.transactions.vals[c].meterStart)
  }

  ghost predicate ExactlyOneStop(trace: seq<TraceEntry>, tx: Transaction) {
    exists i :: 0 <= i < |trace| && SessionHistory.Stops(trace[i], tx)
             && forall j :: 0 <= j < |trace| && SessionHistory.Stops(trace[j], tx) ==> j == i
  }

  lemma OneStop(s: Runtime, tx: Transaction)
    requires SessionHistory.WellOrdered(s.link.trace) && SessionHistory.Ended(s.link.trace, tx)
    ensures ExactlyOneStop(s.link.trace, tx)
  {
    var e :| e in s.link.trace && SessionHistory.Stops(e, tx);
    var trace := s.link.trace;
    var i :| 0 <= i < |trace| && trace[i] == e;
    forall j | 0 <= j < |trace| && SessionHistory.Stops(trace[j], tx) ensures j == i {
      assert i < j ==> SessionHistory.InOrder(trace[i], trace[j]);
      assert j < i ==> SessionHistory.InOrder(trace[j], trace[i]);
    }
  }

  /** In every disciplined run a transaction that received an id leaves the table only after
      exactly one StopTransaction was sent for it. */
  lemma LeavesOnlyStopped(ss: seq<Runtime>, es: seq<Event>, i: nat, c: int)
    requires IsDisciplinedRun(ss, es) && i < |es| && Leaves(ss[i], ss[i + 1], c)
    requires ss[i].transactions.vals[c].transactionId.Some?
    ensures ExactlyOneStop(ss[i].link.trace, ss[i].transactions.vals[c])
  {
    DisciplineHolds(ss, es, i);
    StepKeeps(ss[i], es[i]);
    ButtonsAreCalm(ss, es);
    SessionHistory.SessionsAreWellFormed(ss, es, i);
    var tx := ss[i].transactions.vals[c];
    assert !Stoppable(tx);
    OneStop(ss[i], tx);
  }
}
