/** What the main handlers of the store achieve, said without their steps: what appears on the
    wire, what becomes of the row and connector concerned, and that nothing else moves. */
module StoreEffects {
  import opened Wrappers
  import opened OrderedMaps
  import opened ChargePointTypes
  import opened DcMeter
  import opened MeterReading
  import opened ChargePointModel

  // ----- Sending -----

  /** A live heartbeat interval, in milliseconds. */
  function Interval(l: Link): nat {
    if l.registration == Accepted then l.heartbeatInterval.GetOr(0) * 1000 else 0
  }

  /** The action a call is pending as. */
  predicate Named(call: OutCall, a: Action) {
    && (call.BootNotification? <==> a.BootNotificationAction?)
    && (call.Heartbeat? <==> a.HeartbeatAction?)
    && (call.StatusNotification? <==> a.StatusNotificationAction?)
    && (call.Authorize? <==> a.AuthorizeAction?)
    && (call.StartTransaction? <==> a.StartTransactionAction?)
    && (call.StopTransaction? <==> a.StopTransactionAction?)
    && (call.MeterValues? <==> a.MeterValuesAction?)
  }

  /** Nothing on a closed socket.  On an open one the call is on the wire under a new id, is
      pending as what it is, counts as the last message, and a running heartbeat interval
      starts over; neither rows nor connectors nor tasks are touched. */
  ghost predicate Sends(s: Runtime, t: Runtime, call: OutCall, c: Option<int>, idTag: Option<string>) {
    if !s.link.isOpen then t == s
    else
      && t == s.(link := t.link)
      && t.link.trace == s.link.trace + [Sent(s.link.now, s.link.nextUid, call)]
      && t.link.nextUid > s.link.nextUid && t.link.lastMessageSentAt == s.link.now == t.link.now
      && t.link.isOpen && t.link.registration == s.link.registration && t.link.heartbeatInterval == s.link.heartbeatInterval
      && s.link.nextUid in t.link.pendingCalls.vals && Named(call, t.link.pendingCalls.vals[s.link.nextUid].action)
      && t.link.pendingCalls.vals ==
         s.link.pendingCalls.vals[s.link.nextUid as int := PendingCall(t.link.pendingCalls.vals[s.link.nextUid].action, c, idTag)]
      && (Interval(s.link) > 0 ==> t.link.heartbeatTimer == Some(HeartbeatTimer(s.link.now + Interval(s.link), Interval(s.link))))
      && (Interval(s.link) == 0 ==> t.link.heartbeatTimer == s.link.heartbeatTimer)
  }

  lemma SendEffect(s: Runtime, call: OutCall, c: Option<int>, idTag: Option<string>)
    ensures Sends(s, SendFrame(s, call, c, idTag), call, c, idTag)
  {
  }

  /** The calls on the wire since `s`, oldest first. */
  ghost function CallsSince(s: Runtime, t: Runtime): seq<OutCall>
    requires s.link.trace <= t.link.trace
  {
    Calls(t.link.trace[|s.link.trace|..])
  }

  function Calls(trace: seq<TraceEntry>): seq<OutCall> {
    if trace == [] then [] else CallOf(trace[0]) + Calls(trace[1..])
  }

  function CallOf(e: TraceEntry): seq<OutCall> {
    if e.Sent? then [e.call] else []
  }

  lemma NoCalls(s: Runtime, t: Runtime)
    requires t.link.trace == s.link.trace
    ensures CallsSince(s, t) == []
  {
    assert t.link.trace[|s.link.trace|..] == [];
  }

  lemma CallsFrom(e: TraceEntry, rest: seq<TraceEntry>)
    requires e.Sent?
    ensures Calls([e] + rest) == [e.call] + Calls(rest)
  {
    assert ([e] + rest)[1..] == rest;
  }

  lemma OneCall(s: Runtime, t: Runtime, e: TraceEntry)
    requires e.Sent? && t.link.trace == s.link.trace + [e]
    ensures CallsSince(s, t) == [e.call]
  {
    CallsFrom(e, []);
    assert t.link.trace[|s.link.trace|..] == [e] + [];
  }

  lemma TwoCalls(s: Runtime, t: Runtime, a: TraceEntry, b: TraceEntry)
    requires a.Sent? && b.Sent? && t.link.trace == s.link.trace + [a] + [b]
    ensures CallsSince(s, t) == [a.call, b.call]
  {
    CallsFrom(b, []);
    CallsFrom(a, [b] + []);
    assert t.link.trace[|s.link.trace|..] == [a] + ([b] + []);
  }

  lemma Associate(a: seq<OutCall>, b: seq<OutCall>, c: seq<OutCall>)
    ensures a + (b + c) == (a + b) + c
  {
  }

  lemma CallsUnfold(a: seq<TraceEntry>, b: seq<TraceEntry>)
    requires a != []
    ensures Calls(a + b) == CallOf(a[0]) + Calls(a[1..] + b)
  {
    assert (a + b)[1..] == a[1..] + b && (a + b)[0] == a[0];
  }

  lemma {:induction false} CallsJoin(a: seq<TraceEntry>, b: seq<TraceEntry>)
    ensures Calls(a + b) == Calls(a) + Calls(b)
    decreases a
  {
    if a == [] {
      assert a + b == b;
    } else {
      CallsUnfold(a, b);
      CallsJoin(a[1..], b);
      Associate(CallOf(a[0]), Calls(a[1..]), Calls(b));
    }
  }

  lemma CallsVia(s: Runtime, t: Runtime, u: Runtime)
    requires s.link.trace <= t.link.trace <= u.link.trace
    ensures s.link.trace <= u.link.trace && CallsSince(s, u) == CallsSince(s, t) + CallsSince(t, u)
  {
    var n, m := |s.link.trace|, |t.link.trace|;
    CallsJoin(t.link.trace[n..], u.link.trace[m..]);
    assert u.link.trace[n..] == t.link.trace[n..] + u.link.trace[m..];
  }

  /** The trace grew by exactly these calls; socket, registration and clock are as they were. */
  ghost predicate Says(s: Runtime, t: Runtime, calls: seq<OutCall>) {
    && s.link.trace <= t.link.trace && |t.link.trace| == |s.link.trace| + |calls| && CallsSince(s, t) == calls
    && t.link.isOpen == s.link.isOpen && t.link.registration == s.link.registration
    && t.link.heartbeatInterval == s.link.heartbeatInterval && t.link.now == s.link.now
  }

  lemma SaysNothing(s: Runtime, t: Runtime)
    requires t.link == s.link
    ensures Says(s, t, [])
  {
    NoCalls(s, t);
  }

  lemma SaysVia(s: Runtime, t: Runtime, u: Runtime, a: seq<OutCall>, b: seq<OutCall>)
    requires Says(s, t, a) && Says(t, u, b)
    ensures Says(s, u, a + b)
  {
    CallsVia(s, t, u);
  }

  /** A change beside the link says nothing. */
  lemma SaysBeside(s: Runtime, s': Runtime, t: Runtime, t': Runtime, calls: seq<OutCall>)
    requires Says(s, t, calls) && s'.link == s.link && t'.link == t.link
    ensures Says(s', t', calls)
  {
  }

  /** A call that needs an open socket, and one that needs acceptance too. */
  function OnSocket(s: Runtime, call: OutCall): seq<OutCall> {
    if s.link.isOpen then [call] else []
  }

  function WhenAccepted(s: Runtime, call: OutCall): seq<OutCall> {
    if s.link.isOpen && s.link.registration == Accepted then [call] else []
  }

  lemma FrameSays(s: Runtime, call: OutCall, c: Option<int>, idTag: Option<string>)
    ensures Says(s, SendFrame(s, call, c, idTag), OnSocket(s, call))
    ensures SendFrame(s, call, c, idTag) == s.(link := SendFrame(s, call, c, idTag).link)
  {
    if s.link.isOpen {
      OneCall(s, SendFrame(s, call, c, idTag), Sent(s.link.now, s.link.nextUid, call));
    } else {
      NoCalls(s, s);
    }
  }

  lemma StatusSays(s: Runtime, c: int, status: ConnectorStatus, fault: bool)
    ensures Says(s, SendStatus(s, c, status, fault), WhenAccepted(s, StatusNotification(c, status, fault)))
    ensures SendStatus(s, c, status, fault) == s.(link := SendStatus(s, c, status, fault).link)
  {
    if Registered(s.link) {
      FrameSays(s, StatusNotification(c, status, fault), None, None);
    } else {
      NoCalls(s, s);
    }
  }

  lemma HeartbeatSays(s: Runtime)
    ensures Says(s, SendHeartbeat(s), WhenAccepted(s, Heartbeat))
  {
    if Registered(s.link) {
      FrameSays(s, Heartbeat, None, None);
    } else {
      NoCalls(s, s);
    }
  }

  // ----- Other rows and connectors -----

  /** The connector as the store has it, or as it would be made. */
  function Shown(s: Runtime, c: int): ConnectorState {
    if c in s.connectorStates.vals then s.connectorStates.vals[c] else ConnectorState(Available, false, None, false, None)
  }

  /** Connector `c` is now `cs`, known last of all if it was not known, and no other moved. */
  ghost predicate ConnectorBecomes(s: Runtime, t: Runtime, c: int, cs: ConnectorState) {
    && c in t.connectorStates.vals && t.connectorStates.vals[c] == cs && OtherConnectorsStay(s, t, c)
    && t.connectorStates.keys == s.connectorStates.keys + if c in s.connectorStates.vals then [] else [c]
  }

  ghost predicate RowsStay(s: Runtime, t: Runtime) {
    t.transactions == s.transactions && t.meterCounter == s.meterCounter && t.meterValuesTimer == s.meterValuesTimer
  }

  ghost predicate OtherRowsStay(s: Runtime, t: Runtime, c: int) {
    forall d :: d != c ==>
      && (d in t.transactions.vals <==> d in s.transactions.vals)
      && (d in s.transactions.vals ==> t.transactions.vals[d] == s.transactions.vals[d])
  }

  /** The row of `c` is gone, and the others are as they were and in their order. */
  ghost predicate RowLeaves(s: Runtime, t: Runtime, c: int) {
    c !in t.transactions.vals && OtherRowsStay(s, t, c) && t.transactions.keys == Without(s.transactions.keys, c)
  }

  /** Connector `c`, if the store knows it, has this status, and nothing else of any connector moved. */
  ghost predicate StatusBecomes(s: Runtime, t: Runtime, c: int, status: ConnectorStatus) {
    if c in s.connectorStates.vals then ConnectorBecomes(s, t, c, s.connectorStates.vals[c].(status := status))
    else t.connectorStates == s.connectorStates
  }

  ghost predicate OtherConnectorsStay(s: Runtime, t: Runtime, c: int) {
    forall d :: d != c ==>
      && (d in t.connectorStates.vals <==> d in s.connectorStates.vals)
      && (d in s.connectorStates.vals ==> t.connectorStates.vals[d] == s.connectorStates.vals[d])
  }

  // ----- Stopping -----

  /** The row has an id, its stop was not sent, and there is a socket to send it on. */
  predicate MayStop(s: Runtime, c: int) {
    && s.link.isOpen && c in s.transactions.vals
    && s.transactions.vals[c].transactionId.Some? && !s.transactions.vals[c].stopPending
  }

  /** Read once more, over five seconds, and closed with that register. */
  predicate StoppedAs(was: Transaction, now: Transaction, reason: StopReason) {
    && Reads(was, now, 5)
    && now == was.(soc := now.soc, powerW := now.powerW, voltage := now.voltage, current := now.current, meterCurrent := now.meterCurrent,
                   meterStop := Some(now.meterCurrent), stopReason := Some(reason), stopPending := true, status := TxFinishing)
  }

  function StopOf(was: Transaction, register: nat, reason: StopReason): OutCall
    requires was.transactionId.Some?
  {
    StopTransaction(was.transactionId.value, was.idTag, register, reason, was.meterStart)
  }

  /** Nothing happens unless the row may be stopped.  Then the StopTransaction is the last call on the
      wire, after a Finishing status if the charge point is accepted; it reports the row's
      own id, tag and a register above all it has read; the row stays until the answer
      or 15 s have passed. */
  ghost predicate Stops(s: Runtime, t: Runtime, c: int, reason: StopReason) {
    if !MayStop(s, c) then t == s
    else
      && s.link.trace <= t.link.trace && c in t.transactions.vals && c in t.connectorStates.vals
      && StoppedAs(s.transactions.vals[c], t.transactions.vals[c], reason)
      && CallsSince(s, t) ==
         (if s.link.registration == Accepted then [StatusNotification(c, Finishing, false)] else [])
         + [StopOf(s.transactions.vals[c], t.transactions.vals[c].meterCurrent, reason)]
      && t.transactions.keys == s.transactions.keys
      && ConnectorBecomes(s, t, c, Shown(s, c).(status := Finishing)) && OtherRowsStay(s, t, c)
      && t.tasks == s.tasks + [Task(s.link.now + 15000, StopTimeoutTask(c))]
      && t.meterCounter == s.meterCounter && t.meterValuesTimer == s.meterValuesTimer
  }

  lemma StopCalls(s: Runtime, c: int, reason: StopReason)
    requires MayStop(s, c)
    ensures var t := StopTransactionOn(s, c, reason);
            && s.link.trace <= t.link.trace && c in t.transactions.vals
            && CallsSince(s, t) ==
               (if s.link.registration == Accepted then [StatusNotification(c, Finishing, false)] else [])
               + [StopOf(s.transactions.vals[c], t.transactions.vals[c].meterCurrent, reason)]
  {
    var t := StopTransactionOn(s, c, reason);
    var status, stop := StatusNotification(c, Finishing, false), StopFrameOf(StoppedRow(s.transactions.vals[c], reason));
    if s.link.registration == Accepted {
      TwoCalls(s, t, Sent(s.link.now, s.link.nextUid, status), Sent(s.link.now, s.link.nextUid + 1, stop));
    } else {
      OneCall(s, t, Sent(s.link.now, s.link.nextUid, stop));
    }
  }

  lemma StopEffect(s: Runtime, c: int, reason: StopReason)
    ensures Stops(s, StopTransactionOn(s, c, reason), c, reason)
  {
    if MayStop(s, c) {
      StopCalls(s, c, reason);
      MeterEffect(s.transactions.vals[c].(status := TxFinishing, stopReason := Some(reason), stopPending := true), STOP_SECONDS);
    }
  }

  // ----- Finishing -----

  predicate WantsOut(s: Runtime, c: int) {
    c in s.connectorStates.vals && s.connectorStates.vals[c].availabilityRequested == Some(Inoperative)
  }

  /** Nothing happens without a row.  Otherwise the row is gone, the sampling timer runs on only if some
      other row still charges, and a connector that was to become inoperative is now
      Unavailable and, on an accepted socket, reported so. */
  ghost predicate Finishes(s: Runtime, t: Runtime, c: int) {
    if c !in s.transactions.vals then t == s
    else
      && s.link.trace <= t.link.trace
      && RowLeaves(s, t, c) && OtherConnectorsStay(s, t, c)
      && t.tasks == s.tasks && t.meterCounter == s.meterCounter
      && t.meterValuesTimer ==
         (if exists d :: d != c && d in s.transactions.keys && d in s.transactions.vals && s.transactions.vals[d].status == TxCharging
          then s.meterValuesTimer else None)
      && c in t.connectorStates.vals
      && CallsSince(s, t) ==
         (if WantsOut(s, c) && s.link.registration == Accepted && s.link.isOpen
          then [StatusNotification(c, Unavailable, false)] else [])
      && t.connectorStates.vals[c] ==
         (if WantsOut(s, c) then s.connectorStates.vals[c].(status := Unavailable, cablePluggedIn := false)
          else Shown(s, c))
  }

  lemma FinishEffect(s: Runtime, c: int)
    ensures Finishes(s, FinishStopped(s, c), c)
  {
    if c in s.transactions.vals {
      var t := FinishStopped(s, c);
      if WantsOut(s, c) && s.link.registration == Accepted && s.link.isOpen {
        OneCall(s, t, Sent(s.link.now, s.link.nextUid, StatusNotification(c, Unavailable, false)));
      } else {
        NoCalls(s, t);
      }
    }
  }

  // ----- The answer to a StartTransaction -----

  /** The row is the oldest of those that still wait for an id. */
  ghost predicate OldestWaiting(s: Runtime, k: int) {
    exists i :: 0 <= i < |s.transactions.keys| && s.transactions.keys[i] == k
      && k in s.transactions.vals && s.transactions.vals[k].transactionId.None?
      && forall j :: 0 <= j < i && s.transactions.keys[j] in s.transactions.vals ==>
           s.transactions.vals[s.transactions.keys[j]].transactionId.Some?
  }

  lemma {:induction false} FoundIsOldest(keys: seq<int>, vals: map<int, Transaction>) returns (i: nat)
    requires Find(keys, vals, Unidentified).Some?
    ensures i < |keys| && keys[i] == Find(keys, vals, Unidentified).value
    ensures forall j :: 0 <= j < i && keys[j] in vals ==> vals[keys[j]].transactionId.Some?
    decreases keys
  {
    if Picked(vals, keys[0], Unidentified) {
      i := 0;
    } else {
      var r := FoundIsOldest(keys[1..], vals);
      i := r + 1;
      assert forall j :: 0 < j < i ==> keys[j] == keys[1..][j - 1];
    }
  }

  /** The row gets the id, its connector charges, and it is sampled from now on. */
  ghost predicate Granted(s: Runtime, t: Runtime, k: int, id: int)
    requires k in s.transactions.vals
  {
    var row := s.transactions.vals[k];
    var c := row.connectorId;
    (&& t.transactions.vals == s.transactions.vals[k := row.(transactionId := Some(id), status := TxCharging)]
     && t.transactions.keys == s.transactions.keys && t.meterCounter == s.meterCounter
     && t.meterValuesTimer == Some(s.link.now + 10000)
     && StatusBecomes(s, t, c, Charging) && s.link.trace <= t.link.trace && t.tasks == s.tasks
     && CallsSince(s, t) == if s.link.registration == Accepted && s.link.isOpen then [StatusNotification(c, Charging, false)] else [])
  }

  /** The row of its connector leaves, and the connector is free again. */
  ghost predicate Refused(s: Runtime, t: Runtime, k: int)
    requires k in s.transactions.vals
  {
    var c := s.transactions.vals[k].connectorId;
    (&& RowLeaves(s, t, c) && StatusBecomes(s, t, c, Available)
     && t == s.(transactions := t.transactions, connectorStates := t.connectorStates))
  }

  /** The answer goes to the oldest row without an id; without one nothing happens. */
  ghost predicate Answers(s: Runtime, t: Runtime, p: ReplyPayload) {
    if forall k :: k in s.transactions.keys && k in s.transactions.vals ==> s.transactions.vals[k].transactionId.Some? then t == s
    else
      exists k :: OldestWaiting(s, k) &&
        if p.tagAccepted && p.transactionId.Some? && p.transactionId.value != 0
        then Granted(s, t, k, p.transactionId.value) else Refused(s, t, k)
  }

  lemma GrantEffect(s: Runtime, p: ReplyPayload, k: int)
    requires Find(s.transactions.keys, s.transactions.vals, Unidentified) == Some(k) && k in s.transactions.vals
    requires p.tagAccepted && p.transactionId.Some? && p.transactionId.value != 0
    ensures Granted(s, StartReply(s, p), k, p.transactionId.value)
  {
    var t := StartReply(s, p);
    var c := s.transactions.vals[k].connectorId;
    if Registered(s.link) {
      OneCall(s, t, Sent(s.link.now, s.link.nextUid, StatusNotification(c, Charging, false)));
    } else {
      NoCalls(s, t);
    }
  }

  lemma StartReplyEffect(s: Runtime, p: ReplyPayload)
    ensures Answers(s, StartReply(s, p), p)
  {
    var found := Find(s.transactions.keys, s.transactions.vals, Unidentified);
    if found.None? {
      forall k | k in s.transactions.keys && k in s.transactions.vals ensures s.transactions.vals[k].transactionId.Some? {
        assert !Picked(s.transactions.vals, k, Unidentified);
      }
    } else {
      var i := FoundIsOldest(s.transactions.keys, s.transactions.vals);
      var k: int := found.value;
      assert Picked(s.transactions.vals, k, Unidentified) && OldestWaiting(s, k);
      if p.tagAccepted && p.transactionId.Some? && p.transactionId.value != 0 {
        GrantEffect(s, p, k);
      } else {
        assert Refused(s, StartReply(s, p), k);
      }
    }
  }

  // ----- One inbound frame -----

  /** The trace only grew, and by no response; the socket is as it was. */
  ghost predicate Unanswering(s: Runtime, t: Runtime) {
    && s.link.trace <= t.link.trace && t.link.isOpen == s.link.isOpen && t.link.now == s.link.now
    && forall i :: |s.link.trace| <= i < |t.link.trace| ==> !t.link.trace[i].Responded?
  }

  lemma {:induction false} StopAllUnanswering(s: Runtime, keys: seq<int>, reason: StopReason)
    ensures Unanswering(s, StopAll(s, keys, reason))
    decreases keys
  {
    if keys != [] {
      if keys[0] in s.transactions.vals && Stoppable(s.transactions.vals[keys[0]]) {
        StopAllUnanswering(StopTransactionOn(s, keys[0], reason), keys[1..], reason);
      } else {
        StopAllUnanswering(s, keys[1..], reason);
      }
    }
  }

  lemma {:induction false} AvailabilityUnanswering(s: Runtime, ids: seq<int>, availability: Availability)
    ensures Unanswering(s, ApplyAvailabilityAll(s, ids, availability).0)
    decreases ids
  {
    if ids != [] {
      AvailabilityUnanswering(ApplyAvailability(s, ids[0], availability), ids[1..], availability);
    }
  }

  lemma CommandUnanswering(s: Runtime, command: Command, detail: seq<int>)
    ensures Unanswering(s, HandleCommand(s, command, detail).0)
  {
    match command {
      case Reset(t) =>
        if t.Some? { StopAllUnanswering(s, s.transactions.keys, ReasonOf(t.value)); }
      case ChangeAvailability(c, a) =>
        if c.Some? && a.Some? { AvailabilityUnanswering(s, AvailabilityTargets(s, c.value, detail), a.value); }
      case _ =>
    }
  }

  /** The response to a command of the CSMS. */
  predicate IsResponse(e: TraceEntry, at: nat, uid: string) {
    e.Responded? && e.at == at && e.replyTo == uid
  }

  /** A CALL on an open socket is answered by exactly one response, under its own id, after everything
      else it causes; a reply takes its call off the pending ones, changes nothing if there is
      none, and, like any other frame, is never responded to. */
  ghost predicate Handles(s: Runtime, t: Runtime, frame: InFrame) {
    match frame
    case InCall(uid, _) =>
      if s.link.isOpen then
        && |t.link.trace| > |s.link.trace| && s.link.trace <= t.link.trace
        && IsResponse(t.link.trace[|t.link.trace| - 1], s.link.now, uid)
        && t.link.lastMessageSentAt == s.link.now
        && forall i :: |s.link.trace| <= i < |t.link.trace| - 1 ==> !t.link.trace[i].Responded?
      else Unanswering(s, t)
    case InResult(uid, _) =>
      && Unanswering(s, t)
      && if uid in s.link.pendingCalls.vals then uid !in t.link.pendingCalls.vals || uid >= s.link.nextUid else t == s
    case InError(uid) =>
      && Unanswering(s, t)
      && if uid in s.link.pendingCalls.vals then uid !in t.link.pendingCalls.vals else t == s
    case InUnknown => t == s
  }

  /** No response, and no call that was sent before is pending anew. */
  ghost predicate Quietly(s: Runtime, t: Runtime) {
    && Unanswering(s, t)
    && forall u :: u in t.link.pendingCalls.vals && u < s.link.nextUid ==> u in s.link.pendingCalls.vals
  }

  lemma BootQuietly(s: Runtime, p: ReplyPayload)
    ensures Quietly(s, BootReply(s, p))
  {
  }

  lemma AuthorizeQuietly(s: Runtime, p: ReplyPayload, call: PendingCall)
    ensures Quietly(s, AuthorizeReply(s, p, call))
  {
  }

  lemma StartQuietly(s: Runtime, p: ReplyPayload)
    ensures Quietly(s, StartReply(s, p))
  {
  }

  lemma StopQuietly(s: Runtime)
    ensures Quietly(s, StopReply(s))
  {
  }

  lemma ReplyUnanswering(s: Runtime, uid: nat, payload: Option<ReplyPayload>)
    ensures Unanswering(s, HandleCallResult(s, uid, payload))
    ensures uid in s.link.pendingCalls.vals && uid < s.link.nextUid ==>
              uid !in HandleCallResult(s, uid, payload).link.pendingCalls.vals
  {
    if uid in s.link.pendingCalls.vals {
      var s1 := Answered(s, uid);
      var call := s.link.pendingCalls.vals[uid];
      StopQuietly(s1);
      if payload.Some? {
        StartQuietly(s1, payload.value);
        AuthorizeQuietly(s1, payload.value, call);
        BootQuietly(s1, payload.value);
      }
    }
  }

  lemma FrameEffect(s: Runtime, frame: InFrame, detail: seq<int>)
    ensures Handles(s, HandleFrame(s, frame, detail), frame)
  {
    match frame {
      case InCall(uid, command) => CommandUnanswering(s, command, detail);
      case InResult(uid, payload) => ReplyUnanswering(s, uid, payload);
      case InError(uid) =>
      case InUnknown =>
    }
  }
}
