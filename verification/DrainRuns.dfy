/** Exchanges that start where a run has got to.  Whatever the charge point has been through,
    with traffic unread, answers under way and tasks deferred, the state of a run is
    one from which `Drain` shows the exchange to end. */
module DrainRuns {
  import opened Wrappers
  import opened OrderedMaps
  import opened ChargePointTypes
  import opened DcMeter
  import opened ChargePointModel
  import opened DrainWeights
  import opened Drain
  import opened MovesCover

  /** The event names connectors of the fixed set only. */
  predicate EventInScope(e: Event, b: Scope) {
    match e
    case OnFrame(InCall(_, command), detail) => CommandInScope(command, b) && DetailInScope(detail, b)
    case OnTask(_, fetched) => FetchedInScope(fetched, b)
    case PressPlugIn(c) => c in b.connectors
    case PressAuthorize(c, _) => c in b.connectors
    case PressUnplug(c) => c in b.connectors
    case PressStop(c) => c in b.connectors
    case PressMeterValues(c) => c in b.connectors
    case PressStatus(c, _) => c in b.connectors
    case _ => true
  }

  ghost predicate IsRunInScope(ss: seq<Runtime>, es: seq<Event>, b: Scope) {
    IsRun(ss, es) && forall i :: 0 <= i < |es| ==> EventInScope(es[i], b)
  }

  // ----- Every event keeps the scope -----

  lemma ResultInScope(s: Runtime, uid: nat, payload: Option<ReplyPayload>, b: Scope)
    requires InScope(s, b)
    ensures InScope(HandleCallResult(s, uid, payload), b)
  {
    if NeverRefused(payload) {
      ResultAdds(s, uid, payload, b);
    } else if uid in s.link.pendingCalls.vals {
      var call := s.link.pendingCalls.vals[uid];
      var s1 := Answered(s, uid);
      AnsweredAdds(s, uid, b);
      if call.action == StopTransactionAction {
        StopReplyAdds(s1, b);
      } else if call.action == AuthorizeAction {
        AuthorizeReplyAdds(s1, payload.value, call, b);
      } else if call.action == StartTransactionAction {
        StartReplyAdds(s1, payload.value, b);
      } else if call.action == BootNotificationAction {
        RefusedInScope(s1, payload.value, b);
      }
    }
  }

  lemma RefusedInScope(s: Runtime, p: ReplyPayload, b: Scope)
    requires InScope(s, b) && p.status.BootRejectedStatus?
    ensures InScope(BootReply(s, p), b)
  {
  }

  lemma FrameInScope(s: Runtime, frame: InFrame, detail: seq<int>, b: Scope)
    requires InScope(s, b) && EventInScope(OnFrame(frame, detail), b)
    ensures InScope(HandleFrame(s, frame, detail), b)
  {
    match frame {
      case InCall(uid, command) =>
        CommandAdds(s, command, detail, b);
        RespondAdds(HandleCommand(s, command, detail).0, uid, HandleCommand(s, command, detail).1, b);
      case InResult(uid, payload) => ResultInScope(s, uid, payload, b);
      case InError(uid) => ErrorAdds(s, uid, b);
      case InUnknown =>
    }
  }

  lemma HeartbeatInScope(s: Runtime, b: Scope)
    requires InScope(s, b) && s.link.heartbeatTimer.Some?
    ensures InScope(s.(link := FireHeartbeat(s.link)), b)
  {
    SendInScope(s, s.(link := FireHeartbeat(s.link)), b);
  }

  lemma {:induction false} SamplesInScope(s: Runtime, keys: seq<int>, b: Scope)
    requires InScope(s, b)
    ensures InScope(SampleAll(s, keys), b)
    decreases keys
  {
    if keys != [] {
      if keys[0] in s.transactions.vals && Sampled(s.transactions.vals[keys[0]]) {
        SampleAdds(s, keys[0], b);
        SamplesInScope(SendMeterValues(s, keys[0]), keys[1..], b);
      } else {
        SamplesInScope(s, keys[1..], b);
      }
    }
  }

  lemma PlugInScope(s: Runtime, c: int, b: Scope)
    requires InScope(s, b) && c in b.connectors
    ensures InScope(PlugIn(s, c), b) && InScope(Unplug(s, c), b)
  {
    ConnectorAdds(s, c, FreshConnector, b);
    var s1 := EnsureConnector(s, c);
    var cs := ConnectorOf(s1, c);
    ReportAdds(s1, c, cs.(cablePluggedIn := true, status := Preparing), Preparing, false, b);
    ReportAdds(s, c, Released(ConnectorOf(s, c)), Available, false, b);
    StopAdds(s, c, EVDisconnected, b);
  }

  lemma StatusInScope(s: Runtime, c: int, status: ConnectorStatus, b: Scope)
    requires InScope(s, b) && c in b.connectors
    ensures InScope(SetConnectorStatus(s, c, status), b)
  {
    if s.link.registration == Accepted {
      ConnectorAdds(s, c, FreshConnector, b);
      var s1 := EnsureConnector(s, c);
      var cs := ConnectorOf(s1, c);
      ConnectorAdds(s1, c, cs.(faultCode := status == Faulted), b);
      var s2 := s1;
      if status == Faulted {
        s2 := WithConnector(s1, c, cs.(faultCode := true));
        StopAdds(s2, c, EmergencyStop, b);
        s2 := StopTransactionOn(s2, c, EmergencyStop);
      } else if IsSuspended(status) {
        if c in s1.transactions.vals {
          s2 := WithTransaction(s1, c, s1.transactions.vals[c].(status := TxCharging));
          RowAdds(s1, c, s1.transactions.vals[c].(status := TxCharging), b);
        }
      } else if status == Available {
        s2 := WithConnector(s1, c, cs.(faultCode := false));
      }
      var shown := ConnectorOf(s2, c).(status := status);
      var shown' := if status == Available then shown.(cablePluggedIn := false) else shown;
      ReportAdds(s2, c, shown', status, shown'.faultCode, b);
    }
  }

  lemma ButtonInScope(s: Runtime, e: Event, b: Scope)
    requires InScope(s, b) && EventInScope(e, b)
    requires e.PressAuthorize? || e.PressStop? || e.PressMeterValues? || e.PressBoot? || e.PressHeartbeat?
    ensures InScope(Apply(s, e), b)
  {
    match e {
      case PressAuthorize(c, idTag) => SendAdds(s, Authorize(idTag), Some(c), Some(idTag), b);
      case PressStop(c) => StopAdds(s, c, Local, b);
      case PressMeterValues(c) =>
        if c in s.transactions.vals && Stoppable(s.transactions.vals[c]) { SampleAdds(s, c, b); }
      case PressBoot => SendAdds(s, BootNotification, None, None, b);
      case PressHeartbeat => GatedAdds(s, Heartbeat, b);
    }
  }

  lemma OpenedInScope(s: Runtime, b: Scope)
    requires InScope(s, b)
    ensures InScope(SocketOpened(s), b)
  {
    var s1 := s.(link := s.link.(isOpen := true, registration := Pending, trace := s.link.trace + [Opened]));
    assert InScope(s1, b);
    SendAdds(s1, BootNotification, None, None, b);
  }

  lemma StepInScope(s: Runtime, e: Event, b: Scope)
    requires InScope(s, b) && Enabled(s, e) && EventInScope(e, b)
    ensures InScope(Apply(s, e), b)
  {
    match e {
      case OnOpen => OpenedInScope(s, b);
      case OnClose =>
      case OnError =>
      case OnFrame(frame, detail) => FrameInScope(s, frame, detail, b);
      case OnTask(i, fetched) =>
        RemoveTaskInScope(s, i, b);
        TaskAdds(RemoveTask(s, i), s.tasks[i].kind, fetched, b);
      case OnHeartbeatTimer => HeartbeatInScope(s, b);
      case OnMeterTimer =>
        SamplesInScope(s.(meterValuesTimer := Some(s.meterValuesTimer.value + SAMPLE_PERIOD)), s.transactions.keys, b);
      case OnTime(_) =>
      case PressPlugIn(c) => PlugInScope(s, c, b);
      case PressUnplug(c) => PlugInScope(s, c, b);
      case PressStatus(c, status) => StatusInScope(s, c, status, b);
      case PressAuthorize(_, _) => ButtonInScope(s, e, b);
      case PressStop(_) => ButtonInScope(s, e, b);
      case PressMeterValues(_) => ButtonInScope(s, e, b);
      case PressBoot => ButtonInScope(s, e, b);
      case PressHeartbeat => ButtonInScope(s, e, b);
    }
  }

  lemma {:induction false} RunInScope(ss: seq<Runtime>, es: seq<Event>, i: nat, b: Scope)
    requires IsRunInScope(ss, es, b) && i < |ss|
    ensures InScope(ss[i], b) && Grown(ss[i].link, ss[i].link)
  {
    if i > 0 {
      RunInScope(ss, es, i - 1, b);
      StepInScope(ss[i - 1], es[i - 1], b);
      EventGrows(ss[i - 1], es[i - 1]);
      GrownAlone(ss[i - 1].link, ss[i].link);
    }
  }

  lemma GrownAlone(l: Link, l': Link)
    requires Grown(l, l')
    ensures Grown(l', l')
  {
  }

  // ----- So the exchange may start anywhere -----

  /** At every point of every run, with any part of what was sent still unread, and any answers to
      calls and commands of the CSMS under way. */
  lemma RunsAreOk(ss: seq<Runtime>, es: seq<Event>, i: nat, taken: nat, inbox: seq<InFrame>, b: Scope)
    requires IsRunInScope(ss, es, b) && i < |ss| && taken <= |ss[i].link.trace|
    requires forall m :: m in inbox ==> MailOk(m, ss[i].link, b)
    ensures Drain.Ok(Exchange(ss[i], taken, inbox), b)
  {
    RunInScope(ss, es, i, b);
  }

  /** From there, with no new input and the periodic timers silent, the exchange is over
      within as many steps as the weight of what is outstanding. */
  lemma RunsDrain(ss: seq<Runtime>, es: seq<Event>, i: nat, xs: seq<Exchange>, steps: seq<Step>, b: Scope)
    requires IsRunInScope(ss, es, b) && i < |ss| && IsExchange(xs, steps, b)
    requires xs[0].cp == ss[i] && xs[0].taken <= |ss[i].link.trace|
    requires forall m :: m in xs[0].inbox ==> MailOk(m, ss[i].link, b)
    ensures |steps| <= Measure(xs[0], b)
  {
    RunsAreOk(ss, es, i, xs[0].taken, xs[0].inbox, b);
    ExchangesDrain(xs, steps, b);
  }

  /** A Reset on its way to a charge point whose own frames have all been read: its stops, statuses
      and boot, and everything deferred before, are over within this many steps. */
  lemma ResetDrains(ss: seq<Runtime>, es: seq<Event>, i: nat, uid: string, kind: ResetType,
                    xs: seq<Exchange>, steps: seq<Step>, b: Scope)
    requires IsRunInScope(ss, es, b) && i < |ss| && IsExchange(xs, steps, b)
    requires xs[0] == Exchange(ss[i], |ss[i].link.trace|, [InCall(uid, Reset(Some(kind)))])
    ensures |steps| <= TasksWeight(ss[i].tasks, b) + 11 * b.Size() + 2 * b.stored + 9
  {
    RunsDrain(ss, es, i, xs, steps, b);
    assert ss[i].link.trace[..|ss[i].link.trace|] == ss[i].link.trace;
    var mail := InCall(uid, Reset(Some(kind)));
    assert [mail][..0] == [];
    assert InboxWeight([mail], ss[i].link, b) == InboxWeight([], ss[i].link, b) + MailWeight(mail, ss[i].link, b);
  }

  /** An Authorize just sent: its answer, the StartTransaction, its answer and the status are over
      within six steps, besides what was deferred before. */
  lemma AuthorizeDrains(ss: seq<Runtime>, es: seq<Event>, i: nat, c: int, idTag: string,
                        xs: seq<Exchange>, steps: seq<Step>, b: Scope)
    requires IsRunInScope(ss, es, b) && i < |es| && es[i] == PressAuthorize(c, idTag) && IsExchange(xs, steps, b)
    requires xs[0] == Exchange(ss[i + 1], |ss[i].link.trace|, [])
    ensures |steps| <= TasksWeight(ss[i].tasks, b) + AUTHORIZE_CALL
  {
    var l, l' := ss[i].link, ss[i + 1].link;
    assert ss[i + 1] == AuthorizeConnector(ss[i], c, idTag);
    if l'.trace != l.trace {
      var e := Sent(l.now, l.nextUid, Authorize(idTag));
      assert l'.trace == l.trace + [e];
      TraceAppend(l.trace, e, b);
    }
    assert l'.trace[..|l.trace|] == l.trace;
    assert ss[i + 1].tasks == ss[i].tasks;
    RunsDrain(ss, es, i + 1, xs, steps, b);
  }
}
