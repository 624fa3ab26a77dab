/** What every event does to the store, said without its handler: what the user's buttons, the timers, the
    deferred tasks, the socket and the frames of the CSMS each achieve. */
module EventEffects {
  import opened Wrappers
  import opened OrderedMaps
  import opened ChargePointTypes
  import opened ChargePointModel
  import opened Moves
  import opened MovesCover
  import opened StoreEffects
  import opened SampleEffects
  import opened CommandEffects
  import opened ReplyEffects

  // ----- Buttons -----

  /** Only on an accepted charge point: an Available connector gets its cable in and is reported Preparing. */
  ghost predicate PlugsIn(s: Runtime, t: Runtime, c: int) {
    if s.link.registration != Accepted then t == s
    else
      && RowsStay(s, t) && t.tasks == s.tasks
      && if Shown(s, c).status == Available then
           && ConnectorBecomes(s, t, c, Shown(s, c).(status := Preparing, cablePluggedIn := true))
           && Says(s, t, WhenAccepted(s, StatusNotification(c, Preparing, false)))
         else ConnectorBecomes(s, t, c, Shown(s, c)) && t.link == s.link
  }

  lemma PlugInEffect(s: Runtime, c: int)
    ensures PlugsIn(s, PlugIn(s, c), c)
  {
    SetAndReported(s, WithConnector(EnsureConnector(s, c), c, Shown(s, c).(cablePluggedIn := true, status := Preparing)), c, Preparing);
  }

  /** Asked only for a Preparing connector with its cable in. */
  ghost predicate AsksFor(s: Runtime, t: Runtime, c: int, idTag: string) {
    if && s.link.registration == Accepted && c in s.connectorStates.vals
       && s.connectorStates.vals[c].status == Preparing && s.connectorStates.vals[c].cablePluggedIn
    then Sends(s, t, Authorize(idTag), Some(c), Some(idTag))
    else t == s
  }

  lemma AuthorizeButtonEffect(s: Runtime, c: int, idTag: string)
    ensures AsksFor(s, AuthorizeConnector(s, c, idTag), c, idTag)
  {
  }

  /** A Preparing or Finishing connector is freed; a Charging one is stopped because the vehicle left. */
  ghost predicate Unplugs(s: Runtime, t: Runtime, c: int) {
    if s.link.registration != Accepted || c !in s.connectorStates.vals then t == s
    else
      var cs := s.connectorStates.vals[c];
      if cs.status == Charging then Stops(s, t, c, EVDisconnected)
      else if cs.status == Preparing || cs.status == Finishing then
        && RowsStay(s, t) && t.tasks == s.tasks
        && ConnectorBecomes(s, t, c, cs.(status := Available, cablePluggedIn := false, pendingRemoteStartIdTag := None))
        && Says(s, t, WhenAccepted(s, StatusNotification(c, Available, false)))
      else t == s
  }

  lemma UnplugEffect(s: Runtime, c: int)
    ensures Unplugs(s, Unplug(s, c), c)
  {
    if c in s.connectorStates.vals {
      SetAndReported(s, WithConnector(s, c, Released(s.connectorStates.vals[c])), c, Available);
      StopEffect(s, c, EVDisconnected);
    }
  }

  ghost predicate StopsByHand(s: Runtime, t: Runtime, c: int) {
    if s.link.registration == Accepted then Stops(s, t, c, Local) else t == s
  }

  lemma StopButtonEffect(s: Runtime, c: int)
    ensures StopsByHand(s, StopConnector(s, c), c)
  {
    StopEffect(s, c, Local);
  }

  ghost predicate SamplesByHand(s: Runtime, t: Runtime, c: int) {
    if s.link.registration == Accepted && s.link.isOpen then SamplesLive(s, t, c) else t == s
  }

  lemma MeterButtonEffect(s: Runtime, c: int)
    ensures SamplesByHand(s, MeterValuesButton(s, c), c)
  {
    SampleLiveEffect(s, c);
  }

  // ----- A status set by hand -----

  /** The connector has the status and its fault: set by Faulted, cleared by Available, which takes the cable
      out too. */
  function Final(s: Runtime, c: int, status: ConnectorStatus): ConnectorState {
    Shown(s, c).(status := status, faultCode := status == Faulted || (status != Available && Shown(s, c).faultCode),
                 cablePluggedIn := status != Available && Shown(s, c).cablePluggedIn)
  }

  /** The connector reports it.  Faulted stops a running transaction first, for an emergency; a suspension
      marks the row, if there is one, as charging. */
  ghost predicate FollowsStatus(s: Runtime, t: Runtime, c: int, status: ConnectorStatus) {
    var report := WhenAccepted(s, StatusNotification(c, status, status == Faulted || (status != Available && Shown(s, c).faultCode)));
    (&& t.meterCounter == s.meterCounter && t.meterValuesTimer == s.meterValuesTimer
     && if status == Faulted && MayStop(s, c) then
          && c in t.transactions.vals && StoppedAs(s.transactions.vals[c], t.transactions.vals[c], EmergencyStop) && OtherRowsStay(s, t, c)
          && Says(s, t, [StatusNotification(c, Finishing, false),
                         StopOf(s.transactions.vals[c], t.transactions.vals[c].meterCurrent, EmergencyStop)] + report)
          && t.tasks == s.tasks + [Task(s.link.now + 15000, StopTimeoutTask(c))]
        else if (status == SuspendedEV || status == SuspendedEVSE) && c in s.transactions.vals then
          && RowBecomes(s, t, c, s.transactions.vals[c].(status := TxCharging)) && Says(s, t, report) && t.tasks == s.tasks
        else
          t.transactions == s.transactions && Says(s, t, report) && t.tasks == s.tasks)
  }

  /** Only on an accepted charge point. */
  ghost predicate SetsStatus(s: Runtime, t: Runtime, c: int, status: ConnectorStatus) {
    if s.link.registration != Accepted then t == s
    else ConnectorBecomes(s, t, c, Final(s, c, status)) && FollowsStatus(s, t, c, status)
  }

  /** The last step of every way to set a status. */
  lemma LastReport(s: Runtime, s2: Runtime, t: Runtime, c: int, cs: ConnectorState, before: seq<OutCall>)
    requires Says(s, s2, before) && t == SendStatus(WithConnector(s2, c, cs), c, cs.status, cs.faultCode)
    ensures Says(s, t, before + WhenAccepted(s, StatusNotification(c, cs.status, cs.faultCode)))
    ensures t == WithConnector(s2, c, cs).(link := t.link)
  {
    var w := WithConnector(s2, c, cs);
    var report := WhenAccepted(s, StatusNotification(c, cs.status, cs.faultCode));
    StatusSays(w, c, cs.status, cs.faultCode);
    SaysBeside(w, s2, t, t, report);
    SaysVia(s, s2, t, before, report);
  }

  lemma ConnectorTwice(s: Runtime, m: Runtime, t: Runtime, c: int, a: ConnectorState, b: ConnectorState)
    requires ConnectorBecomes(s, m, c, a) && ConnectorBecomes(m, t, c, b)
    ensures ConnectorBecomes(s, t, c, b)
  {
  }

  function FaultMarked(s: Runtime, c: int): Runtime {
    WithConnector(EnsureConnector(s, c), c, Shown(s, c).(faultCode := true))
  }

  lemma FaultSteps(s: Runtime, c: int)
    requires s.link.registration == Accepted && MayStop(s, c)
    ensures var s2 := StopTransactionOn(FaultMarked(s, c), c, EmergencyStop);
            && Stops(FaultMarked(s, c), s2, c, EmergencyStop)
            && ConnectorBecomes(s, s2, c, Shown(s, c).(faultCode := true, status := Finishing))
            && SetConnectorStatus(s, c, Faulted) ==
               SendStatus(WithConnector(s2, c, Shown(s, c).(faultCode := true, status := Faulted)), c, Faulted, true)
  {
    var s1 := FaultMarked(s, c);
    var marked := Shown(s, c).(faultCode := true);
    assert ConnectorBecomes(s, s1, c, marked);
    StopEffect(s1, c, EmergencyStop);
    ConnectorTwice(s, s1, StopTransactionOn(s1, c, EmergencyStop), c, marked, marked.(status := Finishing));
  }

  lemma FaultShows(s: Runtime, c: int)
    requires s.link.registration == Accepted && MayStop(s, c)
    ensures ConnectorBecomes(s, SetConnectorStatus(s, c, Faulted), c, Final(s, c, Faulted))
  {
    FaultSteps(s, c);
    var s2 := StopTransactionOn(FaultMarked(s, c), c, EmergencyStop);
    var w := WithConnector(s2, c, Final(s, c, Faulted));
    ConnectorTwice(s, s2, w, c, Shown(s, c).(faultCode := true, status := Finishing), Final(s, c, Faulted));
    StatusSays(w, c, Faulted, true);
  }

  lemma FaultFollows(s: Runtime, s1: Runtime, s2: Runtime, t: Runtime, c: int, cs: ConnectorState)
    requires s.link.registration == Accepted && MayStop(s, c) && s1 == s.(connectorStates := s1.connectorStates)
    requires Stops(s1, s2, c, EmergencyStop) && t == WithConnector(s2, c, cs).(link := t.link)
    requires Says(s, t, [StatusNotification(c, Finishing, false),
                         StopOf(s.transactions.vals[c], s2.transactions.vals[c].meterCurrent, EmergencyStop)]
                        + WhenAccepted(s, StatusNotification(c, Faulted, true)))
    ensures FollowsStatus(s, t, c, Faulted)
  {
  }

  lemma FaultEffect(s: Runtime, c: int)
    requires s.link.registration == Accepted && MayStop(s, c)
    ensures SetsStatus(s, SetConnectorStatus(s, c, Faulted), c, Faulted)
  {
    var s1 := FaultMarked(s, c);
    var s2, t := StopTransactionOn(s1, c, EmergencyStop), SetConnectorStatus(s, c, Faulted);
    FaultShows(s, c);
    FaultSteps(s, c);
    FaultSays(s, s1, s2, t, c);
    FaultFollows(s, s1, s2, t, c, Final(s, c, Faulted));
  }

  lemma FaultSays(s: Runtime, s1: Runtime, s2: Runtime, t: Runtime, c: int)
    requires s.link.registration == Accepted && MayStop(s, c) && s1.link == s.link && s1.transactions == s.transactions
    requires Stops(s1, s2, c, EmergencyStop) && s2 == StopTransactionOn(s1, c, EmergencyStop)
    requires t == SendStatus(WithConnector(s2, c, Shown(s, c).(faultCode := true, status := Faulted)), c, Faulted, true)
    ensures Says(s, t, [StatusNotification(c, Finishing, false),
                        StopOf(s.transactions.vals[c], s2.transactions.vals[c].meterCurrent, EmergencyStop)]
                       + WhenAccepted(s, StatusNotification(c, Faulted, true)))
    ensures t == WithConnector(s2, c, Shown(s, c).(faultCode := true, status := Faulted)).(link := t.link)
  {
    StopSays(s, s1, s2, c);
    LastReport(s, s2, t, c, Shown(s, c).(faultCode := true, status := Faulted),
               [StatusNotification(c, Finishing, false),
                StopOf(s.transactions.vals[c], s2.transactions.vals[c].meterCurrent, EmergencyStop)]);
  }

  lemma StopSays(s: Runtime, s1: Runtime, s2: Runtime, c: int)
    requires s.link.registration == Accepted && MayStop(s, c) && s1.link == s.link && s1.transactions == s.transactions
    requires Stops(s1, s2, c, EmergencyStop) && s2 == StopTransactionOn(s1, c, EmergencyStop)
    ensures Says(s, s2, [StatusNotification(c, Finishing, false),
                         StopOf(s.transactions.vals[c], s2.transactions.vals[c].meterCurrent, EmergencyStop)])
  {
    StopOneEffect(s1, c, EmergencyStop);
    SaysBeside(s1, s, s2, s2, [StatusNotification(c, Finishing, false),
                               StopOf(s.transactions.vals[c], s2.transactions.vals[c].meterCurrent, EmergencyStop)]);
  }

  /** Before the status itself is set, where nothing is stopped. */
  function Marked(s: Runtime, c: int, status: ConnectorStatus): Runtime {
    var s1 := EnsureConnector(s, c);
    if status == Faulted then WithConnector(s1, c, Shown(s, c).(faultCode := true))
    else if IsSuspended(status) && c in s.transactions.vals then WithTransaction(s1, c, s.transactions.vals[c].(status := TxCharging))
    else if status == Available then WithConnector(s1, c, Shown(s, c).(faultCode := false))
    else s1
  }

  lemma PlainSteps(s: Runtime, c: int, status: ConnectorStatus)
    requires s.link.registration == Accepted && !(status == Faulted && MayStop(s, c))
    ensures SetConnectorStatus(s, c, status) ==
            SendStatus(WithConnector(Marked(s, c, status), c, Final(s, c, status)), c, status, Final(s, c, status).faultCode)
    ensures exists cs :: ConnectorBecomes(s, Marked(s, c, status), c, cs)
  {
    assert ConnectorBecomes(s, Marked(s, c, status), c, Shown(Marked(s, c, status), c));
  }

  lemma PlainShows(s: Runtime, c: int, status: ConnectorStatus)
    requires s.link.registration == Accepted && !(status == Faulted && MayStop(s, c))
    ensures ConnectorBecomes(s, SetConnectorStatus(s, c, status), c, Final(s, c, status))
  {
    PlainSteps(s, c, status);
    var s2 := Marked(s, c, status);
    var cs :| ConnectorBecomes(s, s2, c, cs);
    var w := WithConnector(s2, c, Final(s, c, status));
    ConnectorTwice(s, s2, w, c, cs, Final(s, c, status));
    StatusSays(w, c, status, Final(s, c, status).faultCode);
  }

  lemma PlainStatusEffect(s: Runtime, c: int, status: ConnectorStatus)
    requires s.link.registration == Accepted && !(status == Faulted && MayStop(s, c))
    ensures SetsStatus(s, SetConnectorStatus(s, c, status), c, status)
  {
    PlainSteps(s, c, status);
    PlainShows(s, c, status);
    SaysNothing(s, Marked(s, c, status));
    LastReport(s, Marked(s, c, status), SetConnectorStatus(s, c, status), c, Final(s, c, status), []);
  }

  lemma StatusButtonEffect(s: Runtime, c: int, status: ConnectorStatus)
    ensures SetsStatus(s, SetConnectorStatus(s, c, status), c, status)
  {
    if s.link.registration == Accepted {
      if status == Faulted && MayStop(s, c) {
        FaultEffect(s, c);
      } else {
        PlainStatusEffect(s, c, status);
      }
    }
  }

  // ----- Deferred tasks -----

  /** One Available a connector. */
  function AllFree(connectors: seq<int>): seq<OutCall> {
    if connectors == [] then [] else [StatusNotification(connectors[0], Available, false)] + AllFree(connectors[1..])
  }

  /** Each of these is known from now on, and no connector is other than it was shown. */
  ghost predicate Known(s: Runtime, t: Runtime, connectors: seq<int>) {
    forall c :: Shown(t, c) == Shown(s, c) && (c in t.connectorStates.vals <==> c in s.connectorStates.vals || c in connectors)
  }

  /** The statuses due after an accepted boot: controller 0 and every connector fetched, all Available; with
      nothing fetched, nothing. */
  ghost predicate ReportsInitially(s: Runtime, t: Runtime, fetched: Option<seq<int>>) {
    if fetched.None? then t == s
    else
      && RowsStay(s, t) && t.tasks == s.tasks && Known(s, t, fetched.value)
      && Says(s, t, if s.link.isOpen && s.link.registration == Accepted then AllFree([0] + fetched.value) else [])
  }

  lemma {:induction false} ReportAllEffect(s: Runtime, connectors: seq<int>)
    ensures var t := ReportAll(s, connectors);
            && RowsStay(s, t) && t.tasks == s.tasks && Known(s, t, connectors)
            && Says(s, t, if s.link.isOpen && s.link.registration == Accepted then AllFree(connectors) else [])
    decreases connectors
  {
    if connectors == [] {
      SaysNothing(s, s);
    } else {
      var c, rest := connectors[0], connectors[1..];
      var s1 := EnsureConnector(s, c);
      var s2 := SendStatus(s1, c, Available, false);
      SetAndReported(s, s1, c, Available);
      ReportAllEffect(s2, rest);
      SaysVia(s, s2, ReportAll(s, connectors), WhenAccepted(s, StatusNotification(c, Available, false)),
              if s.link.isOpen && s.link.registration == Accepted then AllFree(rest) else []);
      assert forall d :: d in connectors <==> d == c || d in rest;
    }
  }

  lemma InitialStatusEffect(s: Runtime, fetched: Option<seq<int>>)
    ensures ReportsInitially(s, RunInitialStatus(s, fetched), fetched)
  {
    if fetched.Some? {
      var s1 := SendStatus(s, 0, Available, false);
      StatusSays(s, 0, Available, false);
      ReportAllEffect(s1, fetched.value);
      SaysVia(s, s1, RunInitialStatus(s, fetched), WhenAccepted(s, StatusNotification(0, Available, false)),
              if s.link.isOpen && s.link.registration == Accepted then AllFree(fetched.value) else []);
      assert ([0] + fetched.value)[1..] == fetched.value;
    }
  }

  ghost predicate Runs(s: Runtime, t: Runtime, kind: TaskKind, fetched: Option<seq<int>>) {
    match kind
    case RemoteStartTask(c, idTag) => RunsRemoteStart(s, t, c, idTag)
    case RemoteStopTask(c) => Stops(s, t, c, Remote)
    case ResetTask => RunsReset(s, t)
    case TriggerTask(requested, c) => RunsTrigger(s, t, requested, c)
    case BootRetryTask => Sends(s, t, BootNotification, None, None)
    case InitialStatusTask => ReportsInitially(s, t, fetched)
    case StopTimeoutTask(c) =>
      if c in s.transactions.vals && s.transactions.vals[c].stopPending then Finishes(s, t, c) else t == s
  }

  lemma TaskEffect(s: Runtime, kind: TaskKind, fetched: Option<seq<int>>)
    requires NoDuplicates(s.connectorStates.keys)
    ensures Runs(s, RunTask(s, kind, fetched), kind, fetched)
  {
    match kind {
      case RemoteStartTask(c, idTag) => RunRemoteStartEffect(s, c, idTag);
      case RemoteStopTask(c) => StopEffect(s, c, Remote);
      case ResetTask => RunResetEffect(s);
      case TriggerTask(requested, c) => RunTriggerEffect(s, requested, c);
      case BootRetryTask => SendEffect(s, BootNotification, None, None);
      case InitialStatusTask => InitialStatusEffect(s, fetched);
      case StopTimeoutTask(c) => FinishEffect(s, c);
    }
  }

  // ----- Timers and socket -----

  /** A Heartbeat only if nothing was sent for a whole interval; either way the timer starts over if it is to
      run at all. */
  ghost predicate BeatsOnTime(s: Runtime, t: Runtime)
    requires s.link.heartbeatTimer.Some?
  {
    var stopped := s.(link := s.link.(heartbeatTimer := None));
    if && s.link.now - s.link.lastMessageSentAt >= s.link.heartbeatTimer.value.delay
       && s.link.registration == Accepted && s.link.isOpen
    then Sends(stopped, t, Heartbeat, None, None)
    else
      t == s.(link := s.link.(heartbeatTimer :=
        if Interval(s.link) > 0 then Some(HeartbeatTimer(s.link.now + Interval(s.link), Interval(s.link))) else None))
  }

  lemma HeartbeatTimerEffect(s: Runtime)
    requires s.link.heartbeatTimer.Some?
    ensures BeatsOnTime(s, s.(link := FireHeartbeat(s.link)))
  {
  }

  /** The socket is open, registration starts over, and a BootNotification is sent. */
  ghost predicate Opens(s: Runtime, t: Runtime) {
    Sends(s.(link := s.link.(isOpen := true, registration := Pending, trace := s.link.trace + [Opened])), t, BootNotification, None, None)
  }

  lemma OpenEffect(s: Runtime)
    ensures Opens(s, SocketOpened(s))
  {
  }

  // ----- Frames -----

  ghost predicate Receives(s: Runtime, t: Runtime, frame: InFrame, detail: seq<int>) {
    match frame
    case InCall(uid, command) => AnswersCall(s, t, uid, command, detail)
    case InResult(uid, payload) => Routes(s, t, uid, payload)
    case InError(uid) => Fails(s, t, uid)
    case InUnknown => t == s
  }

  lemma ReceiveEffect(s: Runtime, frame: InFrame, detail: seq<int>)
    requires NoDuplicates(s.transactions.keys)
    ensures Receives(s, HandleFrame(s, frame, detail), frame, detail)
  {
    match frame {
      case InCall(uid, command) => InboundCallEffect(s, uid, command, detail);
      case InResult(uid, payload) => CallResultEffect(s, uid, payload);
      case InError(uid) => CallErrorEffect(s, uid);
      case InUnknown =>
    }
  }

  // ----- Events -----

  ghost predicate Does(s: Runtime, t: Runtime, e: Event)
    requires Enabled(s, e)
  {
    match e
    case OnOpen => Opens(s, t)
    case OnClose => t == s.(link := s.link.(isOpen := false))
    case OnError => t == s.(link := s.link.(isOpen := false, registration := Disconnected))
    case OnFrame(frame, detail) => Receives(s, t, frame, detail)
    case OnTask(i, fetched) => Runs(s.(tasks := s.tasks[..i] + s.tasks[i + 1..]), t, s.tasks[i].kind, fetched)
    case OnHeartbeatTimer => BeatsOnTime(s, t)
    case OnMeterTimer => Ticks(s, t)
    case OnTime(to) => t == s.(link := s.link.(now := to))
    case PressPlugIn(c) => PlugsIn(s, t, c)
    case PressAuthorize(c, idTag) => AsksFor(s, t, c, idTag)
    case PressUnplug(c) => Unplugs(s, t, c)
    case PressStop(c) => StopsByHand(s, t, c)
    case PressMeterValues(c) => SamplesByHand(s, t, c)
    case PressStatus(c, status) => SetsStatus(s, t, c, status)
    case PressBoot => Sends(s, t, BootNotification, None, None)
    case PressHeartbeat => Beats(s, t)
  }

  lemma EventEffect(s: Runtime, e: Event)
    requires Enabled(s, e) && NoDuplicates(s.transactions.keys) && NoDuplicates(s.connectorStates.keys)
    ensures Does(s, Apply(s, e), e)
  {
    match e {
      case OnOpen => OpenEffect(s);
      case OnFrame(frame, detail) => ReceiveEffect(s, frame, detail);
      case OnTask(i, fetched) => TaskEffect(RemoveTask(s, i), s.tasks[i].kind, fetched);
      case OnHeartbeatTimer => HeartbeatTimerEffect(s);
      case OnMeterTimer => TickEffect(s);
      case PressPlugIn(c) => PlugInEffect(s, c);
      case PressAuthorize(c, idTag) => AuthorizeButtonEffect(s, c, idTag);
      case PressUnplug(c) => UnplugEffect(s, c);
      case PressStop(c) => StopButtonEffect(s, c);
      case PressMeterValues(c) => MeterButtonEffect(s, c);
      case PressStatus(c, status) => StatusButtonEffect(s, c, status);
      case PressBoot => SendEffect(s, BootNotification, None, None);
      case PressHeartbeat => BeatEffect(s);
      case _ =>
    }
  }

  /** Both tables list each of their keys once. */
  ghost predicate TablesValid(s: Runtime) {
    s.transactions.Valid() && s.connectorStates.Valid()
  }

  lemma TablesStayValid()
    ensures KeptByMoves(TablesValid, ANY)
  {
    forall s: Runtime, m: Move | TablesValid(s) && Legal(s, m) && Allowed(s, m, ANY) ensures TablesValid(Play(s, m)) {
      MoveKeepsRowsValid(s, m);
    }
  }

  /** Every event of every charge point whose tables are valid does what is said of it, and leaves them so. */
  lemma EventDoes(s: Runtime, e: Event)
    requires Enabled(s, e) && TablesValid(s)
    ensures Does(s, Apply(s, e), e) && TablesValid(Apply(s, e))
  {
    EventEffect(s, e);
    TablesStayValid();
    KeptByStep(TablesValid, s, e, ANY);
  }

  /** Every event of every run. */
  lemma RunsDo(ss: seq<Runtime>, es: seq<Event>, i: nat)
    requires IsRun(ss, es) && i < |es|
    ensures Does(ss[i], ss[i + 1], es[i])
  {
    TablesStayValid();
    assert IsRunWithin(ss, es, ANY);
    KeptByRun(TablesValid, ss, es, i, ANY);
    EventDoes(ss[i], es[i]);
  }
}
