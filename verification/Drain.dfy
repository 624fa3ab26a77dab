/** The exchange between a charge point and the message processor always drains:
    with no new input and the periodic timers silent, every step of either side
    makes a measure of the outstanding traffic strictly smaller. */
module Drain {
  import opened Wrappers
  import opened OrderedMaps
  import opened ChargePointTypes
  import opened DcMeter
  import opened ChargePointModel
  import opened DrainWeights
  import opened Moves
  import opened MovesCover

  // ----- What commands and tasks add -----

  lemma {:induction false} StopAllAdds(s: Runtime, keys: seq<int>, reason: StopReason, b: Scope)
    requires InScope(s, b)
    ensures Adds(s, StopAll(s, keys, reason), STOPPING * |keys|, b)
    decreases keys
  {
    if keys != [] {
      StopAdds(s, keys[0], reason, b);
      StopAllAdds(StopTransactionOn(s, keys[0], reason), keys[1..], reason, b);
      StopAllAdds(s, keys[1..], reason, b);
    }
  }

  lemma AvailabilityAdds(s: Runtime, c: int, availability: Availability, b: Scope)
    requires c in b.connectors
    ensures Adds(s, ApplyAvailability(s, c, availability), STATUS, b)
  {
    ConnectorAdds(s, c, FreshConnector, b);
    var s1 := EnsureConnector(s, c);
    var cs := ConnectorOf(s1, c).(availabilityRequested := Some(availability));
    ConnectorAdds(s1, c, cs, b);
    ReportAdds(s1, c, cs.(status := Unavailable, cablePluggedIn := false), Unavailable, false, b);
    ReportAdds(s1, c, cs.(status := Available), Available, false, b);
  }

  lemma {:induction false} AvailabilityAllAdds(s: Runtime, ids: seq<int>, availability: Availability, b: Scope)
    requires forall c :: c in ids ==> c in b.connectors
    ensures Adds(s, ApplyAvailabilityAll(s, ids, availability).0, STATUS * |ids|, b)
    decreases ids
  {
    if ids != [] {
      AvailabilityAdds(s, ids[0], availability, b);
      AvailabilityAllAdds(ApplyAvailability(s, ids[0], availability), ids[1..], availability, b);
    }
  }

  predicate CommandInScope(command: Command, b: Scope) {
    match command
    case RemoteStart(_, c) => c.Some? ==> c.value in b.connectors
    case ChangeAvailability(c, _) => c.Some? && c.value != MAIN_CONTROLLER ==> c.value in b.connectors
    case TriggerMessage(_, c) => c.Some? ==> c.value in b.connectors
    case _ => true
  }

  /** The connectors of the selected charge point, as the command handlers see them. */
  predicate DetailInScope(detail: seq<int>, b: Scope) {
    |detail| <= b.Size() && forall c :: c in detail ==> c in b.connectors
  }

  lemma RemoteStartAdds(s: Runtime, idTag: string, requested: Option<int>, detail: seq<int>, b: Scope)
    requires InScope(s, b) && DetailInScope(detail, b) && CommandInScope(RemoteStart(idTag, requested), b)
    ensures Adds(s, HandleRemoteStart(s, idTag, requested, detail).0, TaskWeight(RemoteStartTask(0, ""), b), b)
  {
    var target := if requested.Some? then requested else FirstConnector(s, detail);
    if target.Some? {
      var c: int := target.value;
      assert c in b.connectors;
      ConnectorAdds(s, c, FreshConnector, b);
      var s1 := EnsureConnector(s, c);
      var cs := ConnectorOf(s1, c).(pendingRemoteStartIdTag := Some(idTag));
      ConnectorAdds(s1, c, cs, b);
      ScheduleAdds(WithConnector(s1, c, cs), 0, RemoteStartTask(c, idTag), b);
    }
  }

  lemma UnlockAdds(s: Runtime, target: Option<int>, b: Scope)
    requires InScope(s, b)
    ensures Adds(s, HandleUnlockConnector(s, target).0, STATUS, b)
  {
    if target.Some? && target.value in s.connectorStates.vals {
      var c: int := target.value;
      RemoveRowAdds(s, c, b);
      ReportAdds(WithoutTransaction(s, c), c, Released(s.connectorStates.vals[c]), Available, false, b);
    }
  }

  lemma ResetAdds(s: Runtime, resetType: Option<ResetType>, b: Scope)
    requires InScope(s, b)
    ensures Adds(s, HandleReset(s, resetType).0, CommandWeight(Reset(resetType), b), b)
  {
    if resetType.Some? {
      var keys := s.transactions.keys;
      FewKeys(keys, b.connectors);
      var t := StopAll(s, keys, ReasonOf(resetType.value));
      StopAllAdds(s, keys, ReasonOf(resetType.value), b);
      ScheduleAdds(t, RESET_DELAY, ResetTask, b);
    }
  }

  lemma ChangeAvailabilityAdds(s: Runtime, target: Option<int>, availability: Option<Availability>, detail: seq<int>, b: Scope)
    requires InScope(s, b) && DetailInScope(detail, b) && CommandInScope(ChangeAvailability(target, availability), b)
    ensures Adds(s, HandleChangeAvailability(s, target, availability, detail).0, STATUS * (b.Size() + 1), b)
  {
    if target.Some? && availability.Some? {
      var ids := AvailabilityTargets(s, target.value, detail);
      FewKeys(s.connectorStates.keys, b.connectors);
      var c: int := target.value;
      assert forall k :: k in ids ==> k in b.connectors;
      AvailabilityAllAdds(s, ids, availability.value, b);
    }
  }

  lemma FindByIdIsKey(keys: seq<int>, vals: map<int, Transaction>, id: int)
    ensures FindById(keys, vals, id).Some? ==>
              FindById(keys, vals, id).value in keys && FindById(keys, vals, id).value in vals
  {
  }

  lemma CommandAdds(s: Runtime, command: Command, detail: seq<int>, b: Scope)
    requires InScope(s, b) && DetailInScope(detail, b) && CommandInScope(command, b)
    ensures Adds(s, HandleCommand(s, command, detail).0, CommandWeight(command, b), b)
  {
    match command {
      case RemoteStart(idTag, c) => RemoteStartAdds(s, idTag, c, detail, b);
      case RemoteStop(id) =>
        if id.Some? {
          FindByIdIsKey(s.transactions.keys, s.transactions.vals, id.value);
          var found := FindById(s.transactions.keys, s.transactions.vals, id.value);
          if found.Some? {
            var c: int := found.value;
            assert c in b.connectors;
            ScheduleAdds(s, 0, RemoteStopTask(c), b);
          }
        }
      case UnlockConnector(c) => UnlockAdds(s, c, b);
      case Reset(t) => ResetAdds(s, t, b);
      case ChangeAvailability(c, a) => ChangeAvailabilityAdds(s, c, a, detail, b);
      case TriggerMessage(m, c) =>
        var target := if c.Some? then c else FirstConnector(s, detail);
        if target.Some? { var d: int := target.value; assert d in b.connectors; }
        ScheduleAdds(s, 0, TriggerTask(m, target), b);
      case _ =>
    }
  }

  lemma RemoteStartTaskAdds(s: Runtime, c: int, idTag: string, b: Scope)
    requires c in b.connectors
    ensures Adds(s, RunRemoteStart(s, c, idTag), STATUS + AUTHORIZE_CALL, b)
  {
    EnsureAdds(s, c, b);
    var s1 := EnsureConnector(s, c);
    var cs := ConnectorOf(s1, c);
    var s2 := s1;
    if cs.status == Available {
      ReportAdds(s1, c, cs.(cablePluggedIn := true, status := Preparing), Preparing, false, b);
      s2 := SendStatus(WithConnector(s1, c, cs.(cablePluggedIn := true, status := Preparing)), c, Preparing, false);
    }
    SendAdds(s2, Authorize(idTag), Some(c), Some(idTag), b);
    assert RunRemoteStart(s, c, idTag) == s2 || RunRemoteStart(s, c, idTag) == SendAuthorize(s2, c, idTag);
  }

  lemma EnsureAdds(s: Runtime, c: int, b: Scope)
    requires c in b.connectors
    ensures Adds(s, EnsureConnector(s, c), 0, b)
  {
    ConnectorAdds(s, c, FreshConnector, b);
  }

  lemma {:induction false} ReleaseAllAdds(s: Runtime, keys: seq<int>, b: Scope)
    requires forall c :: c in keys ==> c in b.connectors
    ensures Adds(s, ReleaseAll(s, keys), STATUS * |keys|, b)
    decreases keys
  {
    if keys != [] {
      var cs := ConnectorOf(s, keys[0]);
      if cs.status != Unavailable {
        ReportAdds(s, keys[0], Released(cs), Available, false, b);
        ReleaseAllAdds(SendStatus(WithConnector(s, keys[0], Released(cs)), keys[0], Available, false), keys[1..], b);
      } else {
        ReleaseAllAdds(s, keys[1..], b);
      }
    }
  }

  lemma {:induction false} ReportAllAdds(s: Runtime, connectors: seq<int>, b: Scope)
    requires forall c :: c in connectors ==> c in b.connectors
    ensures Adds(s, ReportAll(s, connectors), STATUS * |connectors|, b)
    decreases connectors
  {
    if connectors != [] {
      ConnectorAdds(s, connectors[0], FreshConnector, b);
      var s1 := EnsureConnector(s, connectors[0]);
      GatedAdds(s1, StatusNotification(connectors[0], Available, false), b);
      ReportAllAdds(SendStatus(s1, connectors[0], Available, false), connectors[1..], b);
    }
  }

  lemma TriggerStatusAdds(s: Runtime, c: int, b: Scope)
    requires c in b.connectors
    ensures Adds(s, RunTrigger(s, TriggerStatus, Some(c)), STATUS, b)
  {
    EnsureAdds(s, c, b);
    var s1 := EnsureConnector(s, c);
    GatedAdds(s1, StatusNotification(c, ConnectorOf(s1, c).status, ConnectorOf(s1, c).faultCode), b);
  }

  lemma TriggerAdds(s: Runtime, requested: TriggerKind, target: Option<int>, b: Scope)
    requires InScope(s, b) && (target.Some? ==> target.value in b.connectors)
    ensures Adds(s, RunTrigger(s, requested, target), BootWeight(b), b)
  {
    match requested {
      case TriggerBoot => SendAdds(s, BootNotification, None, None, b);
      case TriggerHeartbeat => GatedAdds(s, Heartbeat, b);
      case TriggerStatus =>
        if target.Some? { TriggerStatusAdds(s, target.value, b); }
      case TriggerMeterValues =>
        if target.Some? && target.value in s.transactions.vals && Stoppable(s.transactions.vals[target.value]) {
          SampleAdds(s, target.value, b);
        }
      case _ =>
    }
  }

  predicate FetchedInScope(fetched: Option<seq<int>>, b: Scope) {
    fetched.Some? ==> |fetched.value| <= b.stored && forall c :: c in fetched.value ==> c in b.connectors
  }

  lemma ResetTaskAdds(s: Runtime, b: Scope)
    requires InScope(s, b)
    ensures Adds(s, RunTask(s, ResetTask, None), STATUS * b.Size() + BootWeight(b), b)
  {
    FewKeys(s.connectorStates.keys, b.connectors);
    ReleaseAllAdds(s, s.connectorStates.keys, b);
    SendAdds(ReleaseAll(s, s.connectorStates.keys), BootNotification, None, None, b);
  }

  lemma InitialStatusAdds(s: Runtime, fetched: Option<seq<int>>, b: Scope)
    requires FetchedInScope(fetched, b)
    ensures Adds(s, RunInitialStatus(s, fetched), STATUS * (b.stored + 1), b)
  {
    if fetched.Some? {
      GatedAdds(s, StatusNotification(MAIN_CONTROLLER, Available, false), b);
      ReportAllAdds(SendStatus(s, MAIN_CONTROLLER, Available, false), fetched.value, b);
    }
  }

  lemma TaskAdds(s: Runtime, kind: TaskKind, fetched: Option<seq<int>>, b: Scope)
    requires InScope(s, b) && TaskInScope(kind, b) && FetchedInScope(fetched, b)
    ensures Adds(s, RunTask(s, kind, fetched), TaskWeight(kind, b) - 1, b)
  {
    match kind {
      case RemoteStartTask(c, idTag) => RemoteStartTaskAdds(s, c, idTag, b);
      case RemoteStopTask(c) => StopAdds(s, c, Remote, b);
      case ResetTask => ResetTaskAdds(s, b);
      case TriggerTask(requested, c) => TriggerAdds(s, requested, c, b);
      case BootRetryTask => SendAdds(s, BootNotification, None, None, b);
      case InitialStatusTask => InitialStatusAdds(s, fetched, b);
      case StopTimeoutTask(c) => FinishAdds(s, c, b);
    }
  }

  // ----- The exchange -----

  /** The charge point, how much of what it sent the processor has taken, and the
      frames on their way to the charge point. */
  datatype Exchange = Exchange(cp: Runtime, taken: nat, inbox: seq<InFrame>)

  /** What the processor sends back for a CALL: a result, an error, or nothing (a lost publish). */
  datatype Answer = NoAnswer | ResultAnswer(payload: Option<ReplyPayload>) | ErrorAnswer

  datatype Step =
    | Process(answer: Answer)
    | Deliver(index: nat, detail: seq<int>)
    | Defer(task: nat, fetched: Option<seq<int>>, at: nat)

  /** The processor accepts every boot it answers: `ProcessorAnswers.NothingIsRefused`. */
  predicate NeverRefused(payload: Option<ReplyPayload>) {
    payload.Some? ==> !payload.value.status.BootRejectedStatus?
  }

  predicate MailOk(m: InFrame, l: Link, b: Scope) {
    match m
    case InCall(_, command) => CommandInScope(command, b)
    case InResult(uid, payload) => uid < l.nextUid && NeverRefused(payload)
    case _ => true
  }

  ghost predicate Ok(x: Exchange, b: Scope) {
    && InScope(x.cp, b)
    && x.taken <= |x.cp.link.trace|
    && (forall m :: m in x.inbox ==> MailOk(m, x.cp.link, b))
    && (forall u :: u in x.cp.link.pendingCalls.vals ==> u < x.cp.link.nextUid)
    && (forall e :: e in x.cp.link.trace && e.Sent? ==> SentOk(e, x.cp.link))
  }

  /** A frame on the wire is still pending, if at all, as the call it carried. */
  predicate SentOk(e: TraceEntry, l: Link)
    requires e.Sent?
  {
    && e.uid < l.nextUid
    && (e.uid in l.pendingCalls.vals ==> l.pendingCalls.vals[e.uid].action == e.call.ActionOf())
  }

  ghost predicate Can(x: Exchange, step: Step, b: Scope) {
    match step
    case Process(answer) => x.taken < |x.cp.link.trace| && (answer.ResultAnswer? ==> NeverRefused(answer.payload))
    case Deliver(i, detail) => i < |x.inbox| && x.cp.link.isOpen && DetailInScope(detail, b)
    case Defer(i, fetched, at) =>
      && i < |x.cp.tasks| && x.cp.link.now <= at && x.cp.tasks[i].due <= at
      && FetchedInScope(fetched, b)
  }

  function ReplyTo(e: TraceEntry, answer: Answer): seq<InFrame> {
    if !e.Sent? then []
    else match answer
      case NoAnswer => []
      case ResultAnswer(payload) => [InResult(e.uid, payload)]
      case ErrorAnswer => [InError(e.uid)]
  }

  ghost function Next(x: Exchange, step: Step, b: Scope): Exchange
    requires Can(x, step, b)
  {
    match step
    case Process(answer) => Exchange(x.cp, x.taken + 1, x.inbox + ReplyTo(x.cp.link.trace[x.taken], answer))
    case Deliver(i, detail) =>
      Exchange(HandleFrame(x.cp, x.inbox[i], detail), x.taken, x.inbox[..i] + x.inbox[i + 1..])
    case Defer(i, fetched, at) =>
      var cp := x.cp.(link := x.cp.link.(now := at));
      Exchange(RunTask(RemoveTask(cp, i), cp.tasks[i].kind, fetched), x.taken, x.inbox)
  }

  // ----- The measure -----

  function MailWeight(m: InFrame, l: Link, b: Scope): nat {
    match m
    case InCall(_, command) => 2 + CommandWeight(command, b)
    case InResult(uid, _) =>
      if uid in l.pendingCalls.vals then ReplyWeight(l.pendingCalls.vals[uid].action, b) else 1
    case InError(_) => 1
    case InUnknown => 1
  }

  function InboxWeight(inbox: seq<InFrame>, l: Link, b: Scope): nat {
    if inbox == [] then 0
    else InboxWeight(inbox[..|inbox| - 1], l, b) + MailWeight(inbox[|inbox| - 1], l, b)
  }

  function Unread(x: Exchange, b: Scope): int
    requires x.taken <= |x.cp.link.trace|
  {
    TraceWeight(x.cp.link.trace, b) - TraceWeight(x.cp.link.trace[..x.taken], b)
  }

  function Measure(x: Exchange, b: Scope): int
    requires x.taken <= |x.cp.link.trace|
  {
    Unread(x, b) + TasksWeight(x.cp.tasks, b) + InboxWeight(x.inbox, x.cp.link, b)
  }

  lemma {:induction false} PrefixWeighsLess(trace: seq<TraceEntry>, n: nat, b: Scope)
    requires n <= |trace|
    ensures TraceWeight(trace[..n], b) <= TraceWeight(trace, b)
    decreases |trace|
  {
    if n < |trace| {
      var shorter := trace[..|trace| - 1];
      PrefixWeighsLess(shorter, n, b);
      assert shorter[..n] == trace[..n];
    } else {
      assert trace[..n] == trace;
    }
  }

  lemma MeasureIsNatural(x: Exchange, b: Scope)
    requires x.taken <= |x.cp.link.trace|
    ensures Measure(x, b) >= 0
  {
    PrefixWeighsLess(x.cp.link.trace, x.taken, b);
  }

  lemma InboxAppend(inbox: seq<InFrame>, m: InFrame, l: Link, b: Scope)
    ensures InboxWeight(inbox + [m], l, b) == InboxWeight(inbox, l, b) + MailWeight(m, l, b)
  {
    assert (inbox + [m])[..|inbox|] == inbox;
  }

  lemma {:induction false} InboxRemove(inbox: seq<InFrame>, i: nat, l: Link, b: Scope)
    requires i < |inbox|
    ensures InboxWeight(inbox[..i] + inbox[i + 1..], l, b) + MailWeight(inbox[i], l, b) == InboxWeight(inbox, l, b)
  {
    var last := |inbox| - 1;
    if i == last {
      assert inbox[..i] + inbox[i + 1..] == inbox[..last];
    } else {
      var shorter := inbox[..last];
      InboxRemove(shorter, i, l, b);
      var left := inbox[..i] + inbox[i + 1..];
      assert left[..|left| - 1] == shorter[..i] + shorter[i + 1..];
      assert left[|left| - 1] == inbox[last];
    }
  }

  // ----- The link only grows -----

  /** Since `l`: nothing taken back from the trace, and no old call is pending again or as another. */
  ghost predicate Grown(l: Link, l': Link) {
    && l.nextUid <= l'.nextUid
    && |l.trace| <= |l'.trace| && l'.trace[..|l.trace|] == l.trace
    && (forall u :: u in l'.pendingCalls.vals && u < l.nextUid ==>
          u in l.pendingCalls.vals && l'.pendingCalls.vals[u] == l.pendingCalls.vals[u])
    && (forall u :: u in l'.pendingCalls.vals ==> u < l'.nextUid)
    && (forall e :: e in l'.trace && e.Sent? ==> SentOk(e, l'))
  }

  lemma TransmitGrows(l: Link, m: Link, call: OutCall, c: Option<int>, idTag: Option<string>)
    requires Grown(l, m)
    ensures Grown(l, Transmit(m, call, c, idTag))
  {
    if m.isOpen {
      var t := Transmit(m, call, c, idTag);
      assert t.trace == m.trace + [Sent(m.now, m.nextUid, call)];
      assert t.pendingCalls.vals == m.pendingCalls.vals[m.nextUid as int := PendingCall(call.ActionOf(), c, idTag)];
      forall e | e in t.trace && e.Sent? ensures SentOk(e, t) {
        assert e in m.trace || e == Sent(m.now, m.nextUid, call);
      }
    }
  }

  /** Nothing was sent: at most an entry that is not a call was added. */
  lemma QuietGrows(l: Link, m: Link, t: Link, more: seq<TraceEntry>)
    requires Grown(l, m) && t.trace == m.trace + more && t.nextUid == m.nextUid
    requires forall e :: e in more ==> !e.Sent?
    requires t.pendingCalls == m.pendingCalls
    ensures Grown(l, t)
  {
    forall e | e in t.trace && e.Sent? ensures SentOk(e, t) {
      assert e in m.trace;
    }
  }

  lemma AnsweredGrows(l: Link, m: Link, uid: nat)
    requires Grown(l, m)
    ensures Grown(l, m.(pendingCalls := Remove(m.pendingCalls, uid)))
  {
    var t := m.(pendingCalls := Remove(m.pendingCalls, uid));
    forall e | e in t.trace && e.Sent? ensures SentOk(e, t) {
      assert SentOk(e, m);
    }
  }

  lemma FireGrows(l: Link, m: Link)
    requires Grown(l, m) && m.heartbeatTimer.Some?
    ensures Grown(l, FireHeartbeat(m))
  {
    var fired := m.(heartbeatTimer := None);
    QuietGrows(l, m, fired, []);
    TransmitGrows(l, fired, Heartbeat, None, None);
    var sent := if m.now - m.lastMessageSentAt >= m.heartbeatTimer.value.delay then TransmitIfRegistered(fired, Heartbeat) else fired;
    QuietGrows(l, sent, FireHeartbeat(m), []);
  }

  lemma LinkMoveGrows(l: Link, m: Link, move: LinkMove)
    requires Grown(l, m) && LinkLegal(m, move)
    ensures Grown(l, LinkPlay(m, move))
  {
    match move {
      case LSend(call, c, idTag) => TransmitGrows(l, m, call, c, idTag);
      case LFire => FireGrows(l, m);
      case LAnswered(uid) => AnsweredGrows(l, m, uid);
      case LRespond(uid, response) => QuietGrows(l, m, LinkPlay(m, move), [Responded(m.now, uid, response)]);
      case LAccept(_) => QuietGrows(l, m, LinkPlay(m, move), [BootAccepted(m.now)]);
      case LOpen => QuietGrows(l, m, LinkPlay(m, move), [Opened]);
      case _ => QuietGrows(l, m, LinkPlay(m, move), []);
    }
  }

  lemma EventGrows(s: Runtime, e: Event)
    requires Enabled(s, e) && s.transactions.Valid() && Grown(s.link, s.link)
    ensures Grown(s.link, Apply(s, e).link)
  {
    var l := s.link;
    var P := (t: Runtime) => Grown(l, t.link);
    forall t: Runtime, m: Move | P(t) && Legal(t, m) && Allowed(t, m, ANY) ensures P(Play(t, m)) {
      LinkFollows(t, m);
      if OnLink(t, m).Some? {
        LinkMoveGrows(l, t.link, OnLink(t, m).value);
      }
    }
    KeptByStep(P, s, e, ANY);
  }

  lemma {:induction false} InboxNoHeavier(inbox: seq<InFrame>, l: Link, l': Link, b: Scope)
    requires Grown(l, l')
    requires forall m :: m in inbox ==> MailOk(m, l, b)
    ensures InboxWeight(inbox, l', b) <= InboxWeight(inbox, l, b)
    ensures forall m :: m in inbox ==> MailOk(m, l', b)
  {
    if inbox != [] {
      InboxNoHeavier(inbox[..|inbox| - 1], l, l', b);
      assert MailOk(inbox[|inbox| - 1], l, b);
    }
  }

  // ----- Every step makes the measure smaller -----

  lemma ProcessShrinks(x: Exchange, answer: Answer, b: Scope)
    requires Ok(x, b) && Can(x, Process(answer), b)
    ensures Ok(Next(x, Process(answer), b), b)
    ensures Measure(Next(x, Process(answer), b), b) < Measure(x, b)
  {
    var trace := x.cp.link.trace;
    var e := trace[x.taken];
    assert trace[..x.taken + 1] == trace[..x.taken] + [e];
    TraceAppend(trace[..x.taken], e, b);
    assert e in trace;
    var reply := ReplyTo(e, answer);
    if reply == [] {
      assert x.inbox + reply == x.inbox;
    } else {
      InboxAppend(x.inbox, reply[0], x.cp.link, b);
      assert reply == [reply[0]];
    }
  }

  /** A handler ran on the charge point and added `extra`; the inbox lost `gone`. */
  lemma HandlerShrinks(x: Exchange, cp: Runtime, inbox: seq<InFrame>, extra: int, gone: int, b: Scope)
    requires Ok(x, b) && InScope(cp, b) && Weight(cp, b) <= Weight(x.cp, b) + extra && Grown(x.cp.link, cp.link)
    requires extra < gone
    requires InboxWeight(inbox, x.cp.link, b) + gone <= InboxWeight(x.inbox, x.cp.link, b)
    requires forall m :: m in inbox ==> m in x.inbox
    ensures Ok(Exchange(cp, x.taken, inbox), b)
    ensures Measure(Exchange(cp, x.taken, inbox), b) < Measure(x, b)
  {
    InboxNoHeavier(inbox, x.cp.link, cp.link, b);
    assert cp.link.trace[..x.taken] == x.cp.link.trace[..x.taken];
  }

  lemma FrameAdds(s: Runtime, m: InFrame, detail: seq<int>, b: Scope)
    requires InScope(s, b) && DetailInScope(detail, b) && MailOk(m, s.link, b)
    ensures Adds(s, HandleFrame(s, m, detail), MailWeight(m, s.link, b) - 1, b)
  {
    match m {
      case InCall(uid, command) =>
        CommandAdds(s, command, detail, b);
        var (s1, response) := HandleCommand(s, command, detail);
        RespondAdds(s1, uid, response, b);
      case InResult(uid, payload) => ResultAdds(s, uid, payload, b);
      case InError(uid) => ErrorAdds(s, uid, b);
      case InUnknown =>
    }
  }

  lemma DeliverShrinks(x: Exchange, i: nat, detail: seq<int>, b: Scope)
    requires Ok(x, b) && Can(x, Deliver(i, detail), b)
    ensures Ok(Next(x, Deliver(i, detail), b), b)
    ensures Measure(Next(x, Deliver(i, detail), b), b) < Measure(x, b)
  {
    var m := x.inbox[i];
    FrameAdds(x.cp, m, detail, b);
    EventGrows(x.cp, OnFrame(m, detail));
    InboxRemove(x.inbox, i, x.cp.link, b);
    HandlerShrinks(x, HandleFrame(x.cp, m, detail), x.inbox[..i] + x.inbox[i + 1..],
                   MailWeight(m, x.cp.link, b) - 1, MailWeight(m, x.cp.link, b), b);
  }

  lemma RemoveTaskInScope(s: Runtime, i: nat, b: Scope)
    requires InScope(s, b) && i < |s.tasks|
    ensures InScope(RemoveTask(s, i), b) && TaskInScope(s.tasks[i].kind, b)
    ensures Weight(RemoveTask(s, i), b) + TaskWeight(s.tasks[i].kind, b) == Weight(s, b)
  {
    TasksRemove(s.tasks, i, b);
    assert s.tasks[i] in s.tasks;
  }

  lemma DeferredWeighsLess(s: Runtime, cp: Runtime, i: nat, fetched: Option<seq<int>>, b: Scope)
    requires InScope(s, b) && i < |s.tasks| && FetchedInScope(fetched, b) && cp == s.(link := s.link.(now := cp.link.now))
    ensures var cp' := RunTask(RemoveTask(cp, i), cp.tasks[i].kind, fetched);
            InScope(cp', b) && Weight(cp', b) < Weight(cp, b)
  {
    assert InScope(cp, b) && Weight(cp, b) == Weight(s, b);
    RemoveTaskInScope(cp, i, b);
    TaskAdds(RemoveTask(cp, i), cp.tasks[i].kind, fetched, b);
  }

  lemma DeferShrinks(x: Exchange, i: nat, fetched: Option<seq<int>>, at: nat, b: Scope)
    requires Ok(x, b) && Can(x, Defer(i, fetched, at), b)
    ensures Ok(Next(x, Defer(i, fetched, at), b), b)
    ensures Measure(Next(x, Defer(i, fetched, at), b), b) < Measure(x, b)
  {
    var cp := x.cp.(link := x.cp.link.(now := at));
    var kind := cp.tasks[i].kind;
    DeferredWeighsLess(x.cp, cp, i, fetched, b);
    EventGrows(cp, OnTask(i, fetched));
    HandlerMovesOn(x, cp, RunTask(RemoveTask(cp, i), kind, fetched), b);
  }

  lemma HandlerMovesOn(x: Exchange, cp: Runtime, cp': Runtime, b: Scope)
    requires Ok(x, b) && cp == x.cp.(link := x.cp.link.(now := cp.link.now))
    requires InScope(cp', b) && Weight(cp', b) < Weight(cp, b) && Grown(cp.link, cp'.link)
    ensures Ok(Exchange(cp', x.taken, x.inbox), b)
    ensures Measure(Exchange(cp', x.taken, x.inbox), b) < Measure(x, b)
  {
    HandlerShrinks(x, cp', x.inbox, -1, 0, b);
  }

  lemma StepShrinks(x: Exchange, step: Step, b: Scope)
    requires Ok(x, b) && Can(x, step, b)
    ensures Ok(Next(x, step, b), b)
    ensures Measure(Next(x, step, b), b) < Measure(x, b)
  {
    match step {
      case Process(answer) => ProcessShrinks(x, answer, b);
      case Deliver(i, detail) => DeliverShrinks(x, i, detail, b);
      case Defer(i, fetched, at) => DeferShrinks(x, i, fetched, at, b);
    }
  }

  ghost predicate IsExchange(xs: seq<Exchange>, steps: seq<Step>, b: Scope) {
    && |xs| == |steps| + 1
    && forall i :: 0 <= i < |steps| ==> Can(xs[i], steps[i], b) && xs[i + 1] == Next(xs[i], steps[i], b)
  }

  /** No exchange is longer than the measure of where it starts. */
  lemma {:induction false} ExchangesDrain(xs: seq<Exchange>, steps: seq<Step>, b: Scope)
    requires IsExchange(xs, steps, b) && Ok(xs[0], b)
    ensures |steps| <= Measure(xs[0], b)
    decreases |steps|
  {
    if |steps| == 0 {
      MeasureIsNatural(xs[0], b);
    } else {
      StepShrinks(xs[0], steps[0], b);
      ExchangesDrain(xs[1..], steps[1..], b);
    }
  }

  /** An exchange with no step left has nothing in flight and nothing deferred. */
  lemma StuckMeansDrained(x: Exchange, b: Scope)
    requires x.taken <= |x.cp.link.trace|
    requires forall step :: !Can(x, step, b)
    ensures x.taken == |x.cp.link.trace| && x.cp.tasks == []
    ensures x.cp.link.isOpen ==> x.inbox == []
  {
    assert !Can(x, Process(NoAnswer), b);
    assert !Can(x, Deliver(0, []), b);
    var at := if |x.cp.tasks| > 0 then Max(x.cp.link.now, x.cp.tasks[0].due) else 0;
    assert !Can(x, Defer(0, None, at), b);
  }

  /** A charge point just created, with nothing in flight, is where an exchange can start.
      `DrainRuns` shows it of every state of a run. */
  lemma FreshIsOk(now: nat, b: Scope)
    ensures Ok(Exchange(Init(now), 0, []), b)
  {
  }
}
