/** Each handler, timer and button is a sequence of moves. */
module MovesCover {
  import opened Wrappers
  import opened OrderedMaps
  import opened ChargePointTypes
  import opened DcMeter
  import opened ChargePointModel
  import opened Moves

  lemma MoveKeepsRowsValid(s: Runtime, m: Move)
    requires Legal(s, m) && s.transactions.Valid()
    ensures Play(s, m).transactions.Valid()
  {
  }

  lemma {:induction false} PlayKeepsRowsValid(s: Runtime, ms: seq<Move>, r: Regime)
    requires Playable(s, ms, r) && s.transactions.Valid()
    ensures PlayAll(s, ms, r).transactions.Valid()
    decreases ms
  {
    if ms != [] {
      MoveKeepsRowsValid(s, ms[0]);
      PlayKeepsRowsValid(Play(s, ms[0]), ms[1..], r);
    }
  }

  lemma ReachedRowsValid(o: Runtime, s: Runtime, r: Regime)
    requires Reaches(o, s, r) && o.transactions.Valid()
    ensures s.transactions.Valid()
  {
    var ms :| Playable(o, ms, r) && PlayAll(o, ms, r) == s;
    PlayKeepsRowsValid(o, ms, r);
  }

  // ----- Building blocks -----

  lemma FrameFrom(o: Runtime, s: Runtime, call: OutCall, c: Option<int>, idTag: Option<string>, r: Regime)
    requires Reaches(o, s, r) && !NamesTransaction(call) && !Gated(call) && (r.quiet ==> !call.Authorize?)
    ensures Reaches(o, SendFrame(s, call, c, idTag), r)
  {
    if s.link.isOpen {
      Then(o, s, Wire(LSend(call, c, idTag)), r);
    }
  }

  lemma GatedFrom(o: Runtime, s: Runtime, call: OutCall, r: Regime)
    requires Reaches(o, s, r) && Gated(call) && !NamesTransaction(call)
    ensures Reaches(o, s.(link := TransmitIfRegistered(s.link, call)), r)
  {
    if Registered(s.link) {
      Then(o, s, Wire(LSend(call, None, None)), r);
    }
  }

  lemma ConnectorFrom(o: Runtime, s: Runtime, c: int, cs: ConnectorState, r: Regime)
    requires Reaches(o, s, r)
    ensures Reaches(o, WithConnector(s, c, cs), r)
  {
    Then(o, s, SetConnector(c, cs), r);
  }

  lemma EnsureFrom(o: Runtime, s: Runtime, c: int, r: Regime)
    requires Reaches(o, s, r)
    ensures Reaches(o, EnsureConnector(s, c), r)
  {
    ConnectorFrom(o, s, c, FreshConnector, r);
  }

  lemma ReportFrom(o: Runtime, s: Runtime, c: int, cs: ConnectorState, status: ConnectorStatus, fault: bool, r: Regime)
    requires Reaches(o, s, r)
    ensures Reaches(o, SendStatus(WithConnector(s, c, cs), c, status, fault), r)
  {
    ConnectorFrom(o, s, c, cs, r);
    GatedFrom(o, WithConnector(s, c, cs), StatusNotification(c, status, fault), r);
  }

  lemma StopFrom(o: Runtime, s: Runtime, c: int, reason: StopReason, r: Regime)
    requires Reaches(o, s, r)
    ensures Reaches(o, StopTransactionOn(s, c, reason), r)
  {
    if CanStop(s, c) {
      var cs := ConnectorOf(s, c).(status := Finishing);
      ReportFrom(o, s, c, cs, Finishing, false, r);
      var s1 := SendStatus(WithConnector(s, c, cs), c, Finishing, false);
      assert CanStop(s1, c) by { SendKeepsOpen(s.link, StatusNotification(c, Finishing, false)); }
      Then(o, s1, Stop(c, reason), r);
      assert Play(s1, Stop(c, reason)) == StopTransactionOn(s, c, reason);
    }
  }

  lemma SendKeepsOpen(l: Link, call: OutCall)
    ensures TransmitIfRegistered(l, call).isOpen == l.isOpen
    ensures TransmitIfRegistered(l, call).now == l.now
  {
  }

  lemma SampleFrom(o: Runtime, s: Runtime, c: int, r: Regime)
    requires Reaches(o, s, r)
    requires c in s.transactions.vals && s.transactions.vals[c].transactionId.Some?
    requires Stoppable(s.transactions.vals[c]) || Sampled(s.transactions.vals[c])
    ensures Reaches(o, SendMeterValues(s, c), r)
  {
    if Registered(s.link) {
      Then(o, s, Sample(c), r);
    }
  }

  lemma SettleFrom(o: Runtime, s: Runtime, c: int, r: Regime)
    requires Reaches(o, s, r) && o.transactions.Valid()
    ensures Reaches(o, Settle(s, c), r)
  {
    ReachedRowsValid(o, s, r);
    var s1 := s;
    if Find(s.transactions.keys, s.transactions.vals, IsCharging).None? {
      assert forall k :: k in s.transactions.vals ==> !Picked(s.transactions.vals, k, IsCharging);
      Then(o, s, ClearMeterTimer, r);
      s1 := s.(meterValuesTimer := None);
    }
    EnsureFrom(o, s1, c, r);
    var s2 := EnsureConnector(s1, c);
    ReportFrom(o, s2, c, ConnectorOf(s2, c).(status := Unavailable, cablePluggedIn := false), Unavailable, false, r);
  }

  lemma FinishFrom(o: Runtime, s: Runtime, c: int, r: Regime)
    requires Reaches(o, s, r) && o.transactions.Valid()
    ensures Reaches(o, FinishStopped(s, c), r)
  {
    if c in s.transactions.vals {
      Then(o, s, RemoveRow(c), r);
      SettleFrom(o, WithoutTransaction(s, c), c, r);
    }
  }

  // ----- Replies -----

  /** The call a reply answers is an Authorize or a StartTransaction. */
  predicate AnswersAsk(s: Runtime, uid: nat) {
    uid in s.link.pendingCalls.vals && Asks(s.link.pendingCalls.vals[uid])
  }

  lemma AnsweredFrom(s: Runtime, uid: nat, r: Regime)
    requires r.quiet ==> !AnswersAsk(s, uid)
    ensures Reaches(s, Answered(s, uid), r)
  {
    One(s, Wire(LAnswered(uid)), r);
  }

  lemma BootReplyFrom(o: Runtime, s: Runtime, p: ReplyPayload, r: Regime)
    requires Reaches(o, s, r)
    requires r.interval.Some? && p.status.BootAcceptedStatus? ==> p.interval.GetOr(DEFAULT_INTERVAL) == r.interval.value
    ensures Reaches(o, BootReply(s, p), r)
  {
    var interval := p.interval.GetOr(DEFAULT_INTERVAL);
    match p.status {
      case BootAcceptedStatus =>
        Then(o, s, Wire(LAccept(interval)), r);
        Then(o, Play(s, Wire(LAccept(interval))), AddTask(0, InitialStatusTask), r);
      case BootPendingStatus => Then(o, s, Wire(LUnaccept(Pending)), r);
      case BootRejectedStatus =>
        Then(o, s, Wire(LUnaccept(Rejected)), r);
        Then(o, Play(s, Wire(LUnaccept(Rejected))), AddTask(interval * 1000, BootRetryTask), r);
      case BootOtherStatus =>
    }
  }

  lemma PresentStatusFrom(o: Runtime, s: Runtime, c: int, status: ConnectorStatus, r: Regime)
    requires Reaches(o, s, r)
    ensures Reaches(o, SetStatusIfPresent(s, c, status), r)
  {
    if c in s.connectorStates.vals {
      ConnectorFrom(o, s, c, s.connectorStates.vals[c].(status := status), r);
    }
  }

  lemma AuthorizeReplyFrom(o: Runtime, s: Runtime, p: ReplyPayload, call: PendingCall, r: Regime)
    requires Reaches(o, s, r) && s.link.isOpen && !r.quiet
    ensures Reaches(o, AuthorizeReply(s, p, call), r)
  {
    if call.connectorId.Some? {
      var c := call.connectorId.value;
      if p.tagAccepted {
        Then(o, s, Begin(c, call.idTag.GetOr(DEFAULT_ID_TAG)), r);
      } else {
        PresentStatusFrom(o, s, c, Available, r);
      }
    }
  }

  /** The timer is set with the id here and after the report in the handler; the two commute. */
  lemma IdentifiedFrom(o: Runtime, s: Runtime, p: ReplyPayload, r: Regime)
    requires Reaches(o, s, r)
    requires p.tagAccepted && p.transactionId.Some? && p.transactionId.value != 0
    requires Find(s.transactions.keys, s.transactions.vals, Unidentified).Some?
    ensures Reaches(o, StartReply(s, p), r)
  {
    var k := Find(s.transactions.keys, s.transactions.vals, Unidentified).value;
    assert Picked(s.transactions.vals, k, Unidentified);
    var c := s.transactions.vals[k].connectorId;
    var m := Identify(k, p.transactionId.value);
    Then(o, s, m, r);
    var s1 := Play(s, m);
    PresentStatusFrom(o, s1, c, Charging, r);
    var s2 := SetStatusIfPresent(s1, c, Charging);
    GatedFrom(o, s2, StatusNotification(c, Charging, false), r);
    SendKeepsOpen(s2.link, StatusNotification(c, Charging, false));
  }

  lemma StartReplyFrom(o: Runtime, s: Runtime, p: ReplyPayload, r: Regime)
    requires Reaches(o, s, r)
    ensures Reaches(o, StartReply(s, p), r)
  {
    var found := Find(s.transactions.keys, s.transactions.vals, Unidentified);
    if found.Some? {
      assert Picked(s.transactions.vals, found.value, Unidentified);
      var tx := s.transactions.vals[found.value];
      var c := tx.connectorId;
      if p.tagAccepted && p.transactionId.Some? && p.transactionId.value != 0 {
        IdentifiedFrom(o, s, p, r);
      } else {
        Then(o, s, RemoveRow(c), r);
        PresentStatusFrom(o, WithoutTransaction(s, c), c, Available, r);
      }
    }
  }

  /** An accepted BootNotification reply with an interval other than `interval`. */
  predicate OtherInterval(s: Runtime, frame: InFrame, interval: nat) {
    && frame.InResult? && frame.replyUid in s.link.pendingCalls.vals
    && s.link.pendingCalls.vals[frame.replyUid].action == BootNotificationAction
    && frame.payload.Some? && frame.payload.value.status.BootAcceptedStatus?
    && frame.payload.value.interval.GetOr(DEFAULT_INTERVAL) != interval
  }

  lemma ResultFrom(s: Runtime, uid: nat, payload: Option<ReplyPayload>, r: Regime)
    requires s.link.isOpen && s.transactions.Valid()
    requires r.interval.Some? ==> !OtherInterval(s, InResult(uid, payload), r.interval.value)
    requires r.quiet ==> !AnswersAsk(s, uid)
    ensures Reaches(s, HandleCallResult(s, uid, payload), r)
  {
    ReachesItself(s, r);
    if uid in s.link.pendingCalls.vals {
      AnsweredFrom(s, uid, r);
      var call := s.link.pendingCalls.vals[uid];
      var s1 := Answered(s, uid);
      if call.action == StopTransactionAction {
        var found := Find(s1.transactions.keys, s1.transactions.vals, StopIsPending);
        if found.Some? {
          FinishFrom(s, s1, s1.transactions.vals[found.value].connectorId, r);
        }
      } else if payload.Some? {
        match call.action {
          case BootNotificationAction => BootReplyFrom(s, s1, payload.value, r);
          case AuthorizeAction => AuthorizeReplyFrom(s, s1, payload.value, call, r);
          case StartTransactionAction => StartReplyFrom(s, s1, payload.value, r);
          case _ =>
        }
      }
    }
  }

  lemma ErrorFrom(s: Runtime, uid: nat, r: Regime)
    requires r.quiet ==> !AnswersAsk(s, uid)
    ensures Reaches(s, HandleCallError(s, uid), r)
  {
    ReachesItself(s, r);
    if uid in s.link.pendingCalls.vals {
      AnsweredFrom(s, uid, r);
      var call := s.link.pendingCalls.vals[uid];
      var s1 := Answered(s, uid);
      if (call.action.AuthorizeAction? || call.action.StartTransactionAction?) && call.connectorId.Some? {
        var c := call.connectorId.value;
        var s2 := s1;
        if c in s1.connectorStates.vals {
          var cs := s1.connectorStates.vals[c].(status := Available, cablePluggedIn := false);
          ConnectorFrom(s, s1, c, cs, r);
          s2 := WithConnector(s1, c, cs);
        }
        Then(s, s2, RemoveRow(c), r);
      }
    }
  }

  // ----- Commands -----

  lemma {:induction false} StopAllFrom(o: Runtime, s: Runtime, keys: seq<int>, reason: StopReason, r: Regime)
    requires Reaches(o, s, r)
    ensures Reaches(o, StopAll(s, keys, reason), r)
    decreases keys
  {
    if keys != [] {
      StopFrom(o, s, keys[0], reason, r);
      StopAllFrom(o, StopTransactionOn(s, keys[0], reason), keys[1..], reason, r);
      StopAllFrom(o, s, keys[1..], reason, r);
    }
  }

  lemma AvailabilityFrom(o: Runtime, s: Runtime, c: int, availability: Availability, r: Regime)
    requires Reaches(o, s, r)
    ensures Reaches(o, ApplyAvailability(s, c, availability), r)
  {
    EnsureFrom(o, s, c, r);
    var s1 := EnsureConnector(s, c);
    var cs := ConnectorOf(s1, c).(availabilityRequested := Some(availability));
    ConnectorFrom(o, s1, c, cs, r);
    ReportFrom(o, s1, c, cs.(status := Unavailable, cablePluggedIn := false), Unavailable, false, r);
    ReportFrom(o, s1, c, cs.(status := Available), Available, false, r);
  }

  lemma {:induction false} AvailabilityAllFrom(o: Runtime, s: Runtime, ids: seq<int>, availability: Availability, r: Regime)
    requires Reaches(o, s, r)
    ensures Reaches(o, ApplyAvailabilityAll(s, ids, availability).0, r)
    decreases ids
  {
    if ids != [] {
      AvailabilityFrom(o, s, ids[0], availability, r);
      AvailabilityAllFrom(o, ApplyAvailability(s, ids[0], availability), ids[1..], availability, r);
    }
  }

  lemma RemoteStartFrom(s: Runtime, idTag: string, requested: Option<int>, detail: seq<int>, r: Regime)
    ensures Reaches(s, HandleRemoteStart(s, idTag, requested, detail).0, r)
  {
    ReachesItself(s, r);
    var target := if requested.Some? then requested else FirstConnector(s, detail);
    if target.Some? {
      var c := target.value;
      EnsureFrom(s, s, c, r);
      var s1 := EnsureConnector(s, c);
      var cs := ConnectorOf(s1, c).(pendingRemoteStartIdTag := Some(idTag));
      ConnectorFrom(s, s1, c, cs, r);
      Then(s, WithConnector(s1, c, cs), AddTask(0, RemoteStartTask(c, idTag)), r);
    }
  }

  lemma UnlockFrom(s: Runtime, target: Option<int>, r: Regime)
    ensures Reaches(s, HandleUnlockConnector(s, target).0, r)
  {
    ReachesItself(s, r);
    if target.Some? && target.value in s.connectorStates.vals {
      var c := target.value;
      One(s, RemoveRow(c), r);
      ReportFrom(s, WithoutTransaction(s, c), c, Released(s.connectorStates.vals[c]), Available, false, r);
    }
  }

  lemma CommandFrom(s: Runtime, command: Command, detail: seq<int>, r: Regime)
    ensures Reaches(s, HandleCommand(s, command, detail).0, r)
  {
    ReachesItself(s, r);
    match command {
      case RemoteStart(idTag, c) => RemoteStartFrom(s, idTag, c, detail, r);
      case RemoteStop(id) =>
        if id.Some? {
          var found := FindById(s.transactions.keys, s.transactions.vals, id.value);
          if found.Some? { One(s, AddTask(0, RemoteStopTask(found.value)), r); }
        }
      case UnlockConnector(c) => UnlockFrom(s, c, r);
      case Reset(t) =>
        if t.Some? {
          StopAllFrom(s, s, s.transactions.keys, ReasonOf(t.value), r);
          Then(s, StopAll(s, s.transactions.keys, ReasonOf(t.value)), AddTask(RESET_DELAY, ResetTask), r);
        }
      case ChangeAvailability(c, a) =>
        if c.Some? && a.Some? { AvailabilityAllFrom(s, s, AvailabilityTargets(s, c.value, detail), a.value, r); }
      case TriggerMessage(m, c) =>
        One(s, AddTask(0, TriggerTask(m, if c.Some? then c else FirstConnector(s, detail))), r);
      case _ =>
    }
  }

  lemma FrameReaches(s: Runtime, frame: InFrame, detail: seq<int>, r: Regime)
    requires s.link.isOpen && s.transactions.Valid()
    requires r.interval.Some? ==> !OtherInterval(s, frame, r.interval.value)
    requires r.quiet ==> !(frame.InResult? && AnswersAsk(s, frame.replyUid)) && !(frame.InError? && AnswersAsk(s, frame.errorUid))
    ensures Reaches(s, HandleFrame(s, frame, detail), r)
  {
    match frame {
      case InCall(uid, command) =>
        CommandFrom(s, command, detail, r);
        var (s1, response) := HandleCommand(s, command, detail);
        if s1.link.isOpen { Then(s, s1, Wire(LRespond(uid, response)), r); }
      case InResult(uid, payload) => ResultFrom(s, uid, payload, r);
      case InError(uid) => ErrorFrom(s, uid, r);
      case InUnknown => ReachesItself(s, r);
    }
  }

  // ----- Tasks -----

  lemma RemoteStartTaskFrom(o: Runtime, s: Runtime, c: int, idTag: string, r: Regime)
    requires Reaches(o, s, r) && !r.quiet
    ensures Reaches(o, RunRemoteStart(s, c, idTag), r)
  {
    EnsureFrom(o, s, c, r);
    var s1 := EnsureConnector(s, c);
    var cs := ConnectorOf(s1, c);
    var s2 := s1;
    if cs.status == Available {
      ReportFrom(o, s1, c, cs.(cablePluggedIn := true, status := Preparing), Preparing, false, r);
      s2 := SendStatus(WithConnector(s1, c, cs.(cablePluggedIn := true, status := Preparing)), c, Preparing, false);
    }
    FrameFrom(o, s2, Authorize(idTag), Some(c), Some(idTag), r);
  }

  lemma {:induction false} ReleaseAllFrom(o: Runtime, s: Runtime, keys: seq<int>, r: Regime)
    requires Reaches(o, s, r)
    ensures Reaches(o, ReleaseAll(s, keys), r)
    decreases keys
  {
    if keys != [] {
      var cs := ConnectorOf(s, keys[0]);
      if cs.status != Unavailable {
        ReportFrom(o, s, keys[0], Released(cs), Available, false, r);
        ReleaseAllFrom(o, SendStatus(WithConnector(s, keys[0], Released(cs)), keys[0], Available, false), keys[1..], r);
      } else {
        ReleaseAllFrom(o, s, keys[1..], r);
      }
    }
  }

  lemma {:induction false} ReportAllFrom(o: Runtime, s: Runtime, connectors: seq<int>, r: Regime)
    requires Reaches(o, s, r)
    ensures Reaches(o, ReportAll(s, connectors), r)
    decreases connectors
  {
    if connectors != [] {
      EnsureFrom(o, s, connectors[0], r);
      var s1 := EnsureConnector(s, connectors[0]);
      GatedFrom(o, s1, StatusNotification(connectors[0], Available, false), r);
      ReportAllFrom(o, SendStatus(s1, connectors[0], Available, false), connectors[1..], r);
    }
  }

  lemma TriggerFrom(o: Runtime, s: Runtime, requested: TriggerKind, target: Option<int>, r: Regime)
    requires Reaches(o, s, r)
    ensures Reaches(o, RunTrigger(s, requested, target), r)
  {
    match requested {
      case TriggerBoot => FrameFrom(o, s, BootNotification, None, None, r);
      case TriggerHeartbeat => GatedFrom(o, s, Heartbeat, r);
      case TriggerStatus =>
        if target.Some? {
          EnsureFrom(o, s, target.value, r);
          var s1 := EnsureConnector(s, target.value);
          var cs := ConnectorOf(s1, target.value);
          GatedFrom(o, s1, StatusNotification(target.value, cs.status, cs.faultCode), r);
        }
      case TriggerMeterValues =>
        if target.Some? && target.value in s.transactions.vals && Stoppable(s.transactions.vals[target.value]) {
          SampleFrom(o, s, target.value, r);
        }
      case _ =>
    }
  }

  lemma TimeOutReaches(s: Runtime, i: nat, r: Regime)
    requires i < |s.tasks| && s.tasks[i].kind.StopTimeoutTask? && s.transactions.Valid()
    ensures Reaches(s, RunStopTimeout(RemoveTask(s, i), s.tasks[i].kind.connectorId), r)
  {
    One(s, TimeOut(i), r);
    SettleFrom(s, Play(s, TimeOut(i)), s.tasks[i].kind.connectorId, r);
  }

  lemma TaskReaches(s: Runtime, i: nat, fetched: Option<seq<int>>, r: Regime)
    requires i < |s.tasks| && s.transactions.Valid() && (r.quiet ==> !s.tasks[i].kind.RemoteStartTask?)
    ensures Reaches(s, RunTask(RemoveTask(s, i), s.tasks[i].kind, fetched), r)
  {
    var kind := s.tasks[i].kind;
    if kind.StopTimeoutTask? {
      TimeOutReaches(s, i, r);
    } else {
      One(s, DropTask(i), r);
      var t := RemoveTask(s, i);
      match kind {
        case RemoteStartTask(c, idTag) => RemoteStartTaskFrom(s, t, c, idTag, r);
        case RemoteStopTask(c) => StopFrom(s, t, c, Remote, r);
        case ResetTask =>
          ReleaseAllFrom(s, t, t.connectorStates.keys, r);
          FrameFrom(s, ReleaseAll(t, t.connectorStates.keys), BootNotification, None, None, r);
        case TriggerTask(requested, c) => TriggerFrom(s, t, requested, c, r);
        case BootRetryTask => FrameFrom(s, t, BootNotification, None, None, r);
        case InitialStatusTask =>
          if fetched.Some? {
            GatedFrom(s, t, StatusNotification(MAIN_CONTROLLER, Available, false), r);
            ReportAllFrom(s, SendStatus(t, MAIN_CONTROLLER, Available, false), fetched.value, r);
          }
      }
    }
  }

  // ----- Timers and buttons -----

  lemma {:induction false} SampleAllFrom(o: Runtime, s: Runtime, keys: seq<int>, r: Regime)
    requires Reaches(o, s, r)
    ensures Reaches(o, SampleAll(s, keys), r)
    decreases keys
  {
    if keys != [] {
      if keys[0] in s.transactions.vals && Sampled(s.transactions.vals[keys[0]]) {
        SampleFrom(o, s, keys[0], r);
        SampleAllFrom(o, SendMeterValues(s, keys[0]), keys[1..], r);
      } else {
        SampleAllFrom(o, s, keys[1..], r);
      }
    }
  }

  lemma PlugInReaches(s: Runtime, c: int, r: Regime)
    ensures Reaches(s, PlugIn(s, c), r)
  {
    ReachesItself(s, r);
    EnsureFrom(s, s, c, r);
    var s1 := EnsureConnector(s, c);
    ReportFrom(s, s1, c, ConnectorOf(s1, c).(cablePluggedIn := true, status := Preparing), Preparing, false, r);
  }

  lemma UnplugReaches(s: Runtime, c: int, r: Regime)
    ensures Reaches(s, Unplug(s, c), r)
  {
    ReachesItself(s, r);
    if c in s.connectorStates.vals {
      ReportFrom(s, s, c, Released(s.connectorStates.vals[c]), Available, false, r);
      StopFrom(s, s, c, EVDisconnected, r);
    }
  }

  /** Whether this press is the Suspended override on a transaction whose stop was sent. */
  predicate OverridesStop(s: Runtime, e: Event) {
    && e.PressStatus? && IsSuspended(e.status) && s.link.registration == Accepted
    && e.connectorId in s.transactions.vals && s.transactions.vals[e.connectorId].stopPending
  }

  lemma SetStatusReaches(s: Runtime, c: int, status: ConnectorStatus, r: Regime)
    requires r.calm ==> !OverridesStop(s, PressStatus(c, status))
    ensures Reaches(s, SetConnectorStatus(s, c, status), r)
  {
    ReachesItself(s, r);
    if s.link.registration == Accepted {
      EnsureFrom(s, s, c, r);
      var s1 := EnsureConnector(s, c);
      var s2 := s1;
      if status == Faulted {
        ConnectorFrom(s, s1, c, ConnectorOf(s1, c).(faultCode := true), r);
        s2 := WithConnector(s1, c, ConnectorOf(s1, c).(faultCode := true));
        StopFrom(s, s2, c, EmergencyStop, r);
        s2 := StopTransactionOn(s2, c, EmergencyStop);
      } else if IsSuspended(status) {
        if c in s1.transactions.vals {
          Then(s, s1, Suspend(c), r);
          s2 := WithTransaction(s1, c, s1.transactions.vals[c].(status := TxCharging));
        }
      } else if status == Available {
        ConnectorFrom(s, s1, c, ConnectorOf(s1, c).(faultCode := false), r);
        s2 := WithConnector(s1, c, ConnectorOf(s1, c).(faultCode := false));
      }
      var cs := ConnectorOf(s2, c).(status := status);
      var cs' := if status == Available then cs.(cablePluggedIn := false) else cs;
      ReportFrom(s, s2, c, cs', status, cs'.faultCode, r);
    }
  }

  /** The event respects the regime. */
  ghost predicate Within(s: Runtime, e: Event, r: Regime) {
    && (r.calm ==> !OverridesStop(s, e))
    && (r.beats && e.OnTime? ==> BeatOnTime(s, e.to))
    && (r.stops && e.OnTime? ==> StopsOnTime(s, e.to))
    && (r.interval.Some? && e.OnFrame? ==> !OtherInterval(s, e.frame, r.interval.value))
    && (r.quiet ==> !AsksOrIsAnswered(s, e))
  }

  /** The event may send an Authorize, or brings the reply to an Authorize or StartTransaction. */
  predicate AsksOrIsAnswered(s: Runtime, e: Event) {
    match e
    case OnFrame(InResult(uid, _), _) => AnswersAsk(s, uid)
    case OnFrame(InError(uid), _) => AnswersAsk(s, uid)
    case OnTask(i, _) => i < |s.tasks| && s.tasks[i].kind.RemoteStartTask?
    case PressAuthorize(_, _) => true
    case _ => false
  }

  /** The whole of one event. */
  lemma StepIsMoves(s: Runtime, e: Event, r: Regime)
    requires Enabled(s, e) && s.transactions.Valid() && Within(s, e, r)
    ensures Reaches(s, Apply(s, e), r)
  {
    ReachesItself(s, r);
    match e {
      case OnOpen =>
        One(s, Wire(LOpen), r);
        FrameFrom(s, Play(s, Wire(LOpen)), BootNotification, None, None, r);
      case OnClose => One(s, Wire(LClose), r);
      case OnError =>
        One(s, Wire(LClose), r);
        Then(s, Play(s, Wire(LClose)), Wire(LUnaccept(Disconnected)), r);
      case OnFrame(frame, detail) => FrameReaches(s, frame, detail, r);
      case OnTask(i, fetched) => TaskReaches(s, i, fetched, r);
      case OnHeartbeatTimer => One(s, Wire(LFire), r);
      case OnMeterTimer =>
        One(s, MeterPeriod, r);
        SampleAllFrom(s, Play(s, MeterPeriod), s.transactions.keys, r);
      case OnTime(to) => One(s, Wire(LTime(to)), r);
      case PressPlugIn(c) => PlugInReaches(s, c, r);
      case PressAuthorize(c, idTag) => FrameFrom(s, s, Authorize(idTag), Some(c), Some(idTag), r);
      case PressUnplug(c) => UnplugReaches(s, c, r);
      case PressStop(c) => StopFrom(s, s, c, Local, r);
      case PressMeterValues(c) =>
        if c in s.transactions.vals && Stoppable(s.transactions.vals[c]) { SampleFrom(s, s, c, r); }
      case PressStatus(c, status) => SetStatusReaches(s, c, status, r);
      case PressBoot => FrameFrom(s, s, BootNotification, None, None, r);
      case PressHeartbeat => GatedFrom(s, s, Heartbeat, r);
    }
  }

  // ----- Invariants of moves are invariants of runs -----

  ghost predicate IsRunWithin(ss: seq<Runtime>, es: seq<Event>, r: Regime) {
    && IsRun(ss, es)
    && forall i :: 0 <= i < |es| ==> Within(ss[i], es[i], r)
  }

  ghost predicate KeptByMoves(P: Runtime -> bool, r: Regime) {
    forall s: Runtime, m: Move {:trigger Play(s, m)} :: P(s) && Legal(s, m) && Allowed(s, m, r) ==> P(Play(s, m))
  }

  lemma {:induction false} KeptByPlay(P: Runtime -> bool, s: Runtime, ms: seq<Move>, r: Regime)
    requires KeptByMoves(P, r) && P(s) && Playable(s, ms, r)
    ensures P(PlayAll(s, ms, r))
    decreases ms
  {
    if ms != [] {
      KeptByPlay(P, Play(s, ms[0]), ms[1..], r);
    }
  }

  lemma KeptByStep(P: Runtime -> bool, s: Runtime, e: Event, r: Regime)
    requires KeptByMoves(P, r) && P(s) && s.transactions.Valid() && Enabled(s, e) && Within(s, e, r)
    ensures P(Apply(s, e)) && Apply(s, e).transactions.Valid()
  {
    StepIsMoves(s, e, r);
    ReachedRowsValid(s, Apply(s, e), r);
    var ms :| Playable(s, ms, r) && PlayAll(s, ms, r) == Apply(s, e);
    KeptByPlay(P, s, ms, r);
  }

  lemma {:induction false} KeptByRun(P: Runtime -> bool, ss: seq<Runtime>, es: seq<Event>, i: nat, r: Regime)
    requires KeptByMoves(P, r) && IsRunWithin(ss, es, r) && P(ss[0]) && i < |ss|
    ensures P(ss[i]) && ss[i].transactions.Valid()
  {
    if i > 0 {
      KeptByRun(P, ss, es, i - 1, r);
      KeptByStep(P, ss[i - 1], es[i - 1], r);
    }
  }

  // ----- Reachable states -----

  ghost predicate Reachable(s: Runtime, r: Regime) {
    exists ss, es :: IsRunWithin(ss, es, r) && ss[|es|] == s
  }

  lemma ReachableInit(now: nat, r: Regime)
    ensures Reachable(Init(now), r)
  {
    var ss, es: seq<Event> := [Init(now)], [];
    assert IsRunWithin(ss, es, r) && ss[|es|] == Init(now);
  }

  lemma ReachableStep(s: Runtime, e: Event, r: Regime)
    requires Reachable(s, r) && Enabled(s, e) && Within(s, e, r)
    ensures Reachable(Apply(s, e), r)
  {
    var ss, es :| IsRunWithin(ss, es, r) && ss[|es|] == s;
    var ss', es' := ss + [Apply(s, e)], es + [e];
    forall i | 0 <= i < |es'|
      ensures Enabled(ss'[i], es'[i]) && ss'[i + 1] == Apply(ss'[i], es'[i]) && Within(ss'[i], es'[i], r)
    {
      if i < |es| { assert ss'[i] == ss[i] && es'[i] == es[i] && ss'[i + 1] == ss[i + 1]; }
    }
    assert IsRunWithin(ss', es', r) && ss'[|es'|] == Apply(s, e);
  }
}
