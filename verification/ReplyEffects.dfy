/** What an answer of the CSMS to one of our own calls achieves, said without the steps of its handler. */
module ReplyEffects {
  import opened Wrappers
  import opened OrderedMaps
  import opened ChargePointTypes
  import opened ChargePointModel
  import opened StoreEffects

  // ----- BootNotification -----

  /** The interval is 300 s unless the answer has one.  Accepted: the heartbeat runs by it and the initial
      statuses are due at once.  Rejected: another BootNotification is due after it.  No row and no
      connector moves. */
  ghost predicate Boots(s: Runtime, t: Runtime, p: ReplyPayload) {
    var seconds := if p.interval.Some? then p.interval.value else 300;
    match p.status
    case BootAcceptedStatus =>
      && t == s.(link := t.link, tasks := s.tasks + [Task(s.link.now, InitialStatusTask)])
      && t.link == s.link.(registration := Accepted, heartbeatInterval := Some(seconds), heartbeatTimer := t.link.heartbeatTimer,
                           trace := s.link.trace + [BootAccepted(s.link.now)])
      && t.link.heartbeatTimer ==
         if seconds == 0 then s.link.heartbeatTimer else Some(HeartbeatTimer(s.link.now + 1000 * seconds, 1000 * seconds))
    case BootPendingStatus => t == s.(link := s.link.(registration := Pending))
    case BootRejectedStatus =>
      t == s.(link := s.link.(registration := Rejected), tasks := s.tasks + [Task(s.link.now + 1000 * seconds, BootRetryTask)])
    case BootOtherStatus => t == s
  }

  lemma BootEffect(s: Runtime, p: ReplyPayload)
    ensures Boots(s, BootReply(s, p), p)
  {
  }

  // ----- Authorize -----

  /** The row of `c` is now `row`, last of all if there was none, and no other moved. */
  ghost predicate RowBecomes(s: Runtime, t: Runtime, c: int, row: Transaction) {
    && c in t.transactions.vals && t.transactions.vals[c] == row && OtherRowsStay(s, t, c)
    && t.transactions.keys == s.transactions.keys + if c in s.transactions.vals then [] else [c]
  }

  /** Nothing without a connector.  Accepted: a new row at a register 100 Wh above the last, at 20 % and
      400.0 V with nothing drawn, for the tag asked about, or else DEADBEEF; and a StartTransaction
      with its connector, tag and register, pending for that connector.  Refused: a connector the store
      knows is Available. */
  ghost predicate Authorizes(s: Runtime, t: Runtime, p: ReplyPayload, call: PendingCall) {
    if call.connectorId.None? then t == s
    else
      var c := call.connectorId.value;
      if p.tagAccepted then
        var tag, register := if call.idTag.Some? then call.idTag.value else "DEADBEEF", s.meterCounter + 100;
        exists begun: Runtime :: begun == s.(meterCounter := register, transactions := begun.transactions)
          && RowBecomes(s, begun, c, Transaction(None, c, tag, register, register, None, 20, 4000, 0, 0, None, false, TxPreparing))
          && Sends(begun, t, StartTransaction(c, tag, register), Some(c), None)
      else if c in s.connectorStates.vals then
        t == s.(connectorStates := t.connectorStates) && ConnectorBecomes(s, t, c, s.connectorStates.vals[c].(status := Available))
      else t == s
  }

  lemma AuthorizeEffect(s: Runtime, p: ReplyPayload, call: PendingCall)
    ensures Authorizes(s, AuthorizeReply(s, p, call), p, call)
  {
    if call.connectorId.Some? && p.tagAccepted {
      var c := call.connectorId.value;
      var tag := if call.idTag.Some? then call.idTag.value else "DEADBEEF";
      var register := s.meterCounter + 100;
      var row := NewTransaction(c, tag, register);
      var begun := WithTransaction(s.(meterCounter := register), c, row);
      assert RowBecomes(s, begun, c, row);
      SendEffect(begun, StartTransaction(c, tag, register), Some(c), None);
    }
  }

  // ----- StopTransaction -----

  /** The oldest row whose stop is pending. */
  ghost predicate OldestStopping(s: Runtime, k: int) {
    exists i :: 0 <= i < |s.transactions.keys| && s.transactions.keys[i] == k
      && k in s.transactions.vals && s.transactions.vals[k].stopPending
      && forall j :: 0 <= j < i && s.transactions.keys[j] in s.transactions.vals ==>
           !s.transactions.vals[s.transactions.keys[j]].stopPending
  }

  /** It is the one that finishes; without one nothing happens. */
  ghost predicate FinishesOldest(s: Runtime, t: Runtime) {
    if forall k :: k in s.transactions.keys && k in s.transactions.vals ==> !s.transactions.vals[k].stopPending then t == s
    else exists k :: OldestStopping(s, k) && Finishes(s, t, s.transactions.vals[k].connectorId)
  }

  lemma {:induction false} FoundIsOldestStopping(keys: seq<int>, vals: map<int, Transaction>) returns (i: nat)
    requires Find(keys, vals, StopIsPending).Some?
    ensures i < |keys| && keys[i] == Find(keys, vals, StopIsPending).value
    ensures forall j :: 0 <= j < i && keys[j] in vals ==> !vals[keys[j]].stopPending
    decreases keys
  {
    if Picked(vals, keys[0], StopIsPending) {
      i := 0;
    } else {
      var r := FoundIsOldestStopping(keys[1..], vals);
      i := r + 1;
      assert forall j :: 0 < j < i ==> keys[j] == keys[1..][j - 1];
    }
  }

  lemma StopReplyEffect(s: Runtime)
    ensures FinishesOldest(s, StopReply(s))
  {
    var found := Find(s.transactions.keys, s.transactions.vals, StopIsPending);
    if found.None? {
      forall k | k in s.transactions.keys && k in s.transactions.vals ensures !s.transactions.vals[k].stopPending {
        assert !Picked(s.transactions.vals, k, StopIsPending);
      }
    } else {
      var i := FoundIsOldestStopping(s.transactions.keys, s.transactions.vals);
      var k: int := found.value;
      assert Picked(s.transactions.vals, k, StopIsPending) && OldestStopping(s, k);
      FinishEffect(s, s.transactions.vals[k].connectorId);
    }
  }

  // ----- Any answer -----

  /** The call is pending no more, and nothing else moved. */
  ghost predicate TakenOff(s: Runtime, t: Runtime, uid: nat) {
    && t == s.(link := s.link.(pendingCalls := t.link.pendingCalls))
    && t.link.pendingCalls.vals == s.link.pendingCalls.vals - {uid}
  }

  /** An answer goes where the pending call says, a payload that is missing nowhere but to a stop; an
      answer to no pending call changes nothing. */
  ghost predicate Routes(s: Runtime, t: Runtime, uid: nat, payload: Option<ReplyPayload>) {
    if uid !in s.link.pendingCalls.vals then t == s
    else exists m :: TakenOff(s, m, uid) && RoutesTo(m, t, s.link.pendingCalls.vals[uid], payload)
  }

  ghost predicate RoutesTo(s: Runtime, t: Runtime, call: PendingCall, payload: Option<ReplyPayload>) {
    match call.action
    case BootNotificationAction => if payload.Some? then Boots(s, t, payload.value) else t == s
    case AuthorizeAction => if payload.Some? then Authorizes(s, t, payload.value, call) else t == s
    case StartTransactionAction => if payload.Some? then Answers(s, t, payload.value) else t == s
    case StopTransactionAction => FinishesOldest(s, t)
    case HeartbeatAction => t == s
    case StatusNotificationAction => t == s
    case MeterValuesAction => t == s
  }

  lemma CallResultEffect(s: Runtime, uid: nat, payload: Option<ReplyPayload>)
    ensures Routes(s, HandleCallResult(s, uid, payload), uid, payload)
  {
    if uid in s.link.pendingCalls.vals {
      var call := s.link.pendingCalls.vals[uid];
      var m, t := Answered(s, uid), HandleCallResult(s, uid, payload);
      assert TakenOff(s, m, uid);
      match call.action {
        case BootNotificationAction => if payload.Some? { BootEffect(m, payload.value); }
        case AuthorizeAction => if payload.Some? { AuthorizeEffect(m, payload.value, call); }
        case StartTransactionAction => if payload.Some? { StartReplyEffect(m, payload.value); }
        case StopTransactionAction => StopReplyEffect(m);
        case _ =>
      }
      assert RoutesTo(m, t, call, payload);
    }
  }

  // ----- A CALLERROR -----

  /** The connector that asked to authorize or to start loses its row and is Available with its cable out;
      any other call is only taken off. */
  ghost predicate Fails(s: Runtime, t: Runtime, uid: nat) {
    if uid !in s.link.pendingCalls.vals then t == s
    else exists m :: TakenOff(s, m, uid) && FailsFor(m, t, s.link.pendingCalls.vals[uid])
  }

  ghost predicate FailsFor(s: Runtime, t: Runtime, call: PendingCall) {
    if (call.action == AuthorizeAction || call.action == StartTransactionAction) && call.connectorId.Some? then
      var c := call.connectorId.value;
      (&& t == s.(transactions := t.transactions, connectorStates := t.connectorStates)
       && RowLeaves(s, t, c)
       && if c in s.connectorStates.vals
          then ConnectorBecomes(s, t, c, s.connectorStates.vals[c].(status := Available, cablePluggedIn := false))
          else t.connectorStates == s.connectorStates)
    else t == s
  }

  lemma CallErrorEffect(s: Runtime, uid: nat)
    ensures Fails(s, HandleCallError(s, uid), uid)
  {
    if uid in s.link.pendingCalls.vals {
      assert TakenOff(s, Answered(s, uid), uid);
    }
  }
}
