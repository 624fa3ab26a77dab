/** Every event of the charge point, whatever loops it runs, is a sequence of a
    few small moves.  An invariant need only be shown for each move; this module
    shows that nothing the runtime does falls outside them. */
module Moves {
  import opened Wrappers
  import opened OrderedMaps
  import opened ChargePointTypes
  import opened DcMeter
  import opened ChargePointModel

  // ----- Moves of the link -----

  datatype LinkMove =
    | LSend(call: OutCall, connectorId: Option<int>, idTag: Option<string>)
    | LRespond(uid: string, response: ResponseStatus)
    | LAnswered(replyUid: nat)
    | LAccept(interval: nat)
    | LUnaccept(registration: Registration)
    | LOpen
    | LClose
    | LFire
    | LTime(to: nat)

  /** The calls a charge point may make only once its boot was accepted (OCPP 1.6 section 4.2). */
  predicate Gated(call: OutCall) {
    call.Heartbeat? || call.StatusNotification? || call.MeterValues?
  }

  predicate LinkLegal(l: Link, m: LinkMove) {
    match m
    case LSend(call, _, _) => l.isOpen && (Gated(call) ==> l.registration == Accepted)
    case LRespond(_, _) => l.isOpen
    case LUnaccept(r) => r != Accepted
    case LOpen => !l.isOpen
    case LFire => l.heartbeatTimer.Some? && l.heartbeatTimer.value.due <= l.now
    case LTime(to) => l.now <= to
    case _ => true
  }

  function LinkPlay(l: Link, m: LinkMove): Link
    requires LinkLegal(l, m)
  {
    match m
    case LSend(call, c, tag) => Transmit(l, call, c, tag)
    case LRespond(uid, response) => Respond(l, uid, response)
    case LAnswered(uid) => l.(pendingCalls := Remove(l.pendingCalls, uid))
    case LAccept(interval) => AcceptRegistration(l, interval)
    case LUnaccept(r) => l.(registration := r)
    case LOpen => l.(isOpen := true, registration := Pending, trace := l.trace + [Opened])
    case LClose => l.(isOpen := false)
    case LFire => FireHeartbeat(l)
    case LTime(to) => l.(now := to)
  }

  // ----- Moves of the runtime -----

  datatype Move =
    | Wire(link: LinkMove)                       // anything but a frame of a transaction
    | SetConnector(connectorId: int, connector: ConnectorState)
    | AddTask(delay: nat, kind: TaskKind)
    | DropTask(index: nat)
    | TimeOut(task: nat)                         // a stop timeout and the row it finishes
    | Sample(sampled: int)
    | Stop(stopped: int, reason: StopReason)
    | Begin(begun: int, idTag: string)
    | Identify(identified: int, id: int)
    | Suspend(suspended: int)
    | RemoveRow(removed: int)
    | MeterPeriod
    | ClearMeterTimer

  /** Frames that name a transaction leave only through Begin, Sample and Stop. */
  predicate NamesTransaction(call: OutCall) {
    call.StartTransaction? || call.StopTransaction? || call.MeterValues?
  }

  ghost predicate Legal(s: Runtime, m: Move) {
    match m
    case Wire(lm) => LinkLegal(s.link, lm) && (lm.LSend? ==> !NamesTransaction(lm.call))
    case AddTask(_, kind) => !kind.StopTimeoutTask?
    case DropTask(i) => i < |s.tasks| && !s.tasks[i].kind.StopTimeoutTask?
    case TimeOut(i) => i < |s.tasks| && s.tasks[i].kind.StopTimeoutTask?
    case Sample(c) =>
      && c in s.transactions.vals && Registered(s.link)
      && s.transactions.vals[c].transactionId.Some?
      && (Stoppable(s.transactions.vals[c]) || Sampled(s.transactions.vals[c]))
    case Stop(c, _) => CanStop(s, c)
    case Begin(_, _) => s.link.isOpen
    case Identify(c, id) => id != 0 && c in s.transactions.vals && Unidentified(s.transactions.vals[c])
    case Suspend(c) => c in s.transactions.vals
    case MeterPeriod => s.meterValuesTimer.Some?
    case ClearMeterTimer => forall c :: c in s.transactions.vals ==> !IsCharging(s.transactions.vals[c])
    case _ => true
  }

  ghost function Play(s: Runtime, m: Move): Runtime
    requires Legal(s, m)
  {
    match m
    case Wire(lm) => s.(link := LinkPlay(s.link, lm))
    case SetConnector(c, cs) => WithConnector(s, c, cs)
    case AddTask(delay, kind) => Schedule(s, delay, kind)
    case DropTask(i) => RemoveTask(s, i)
    case TimeOut(i) =>
      var c := s.tasks[i].kind.connectorId;
      var s1 := RemoveTask(s, i);
      if c in s.transactions.vals && s.transactions.vals[c].stopPending then WithoutTransaction(s1, c) else s1
    case Sample(c) => SendMeterValues(s, c)
    case Stop(c, reason) =>
      var tx := StoppedRow(s.transactions.vals[c], reason);
      Schedule(SendFrame(WithTransaction(s, c, tx), StopFrameOf(tx), Some(c), None), STOP_TIMEOUT, StopTimeoutTask(c))
    case Begin(c, idTag) =>
      var meterStart := s.meterCounter + 100;
      SendFrame(WithTransaction(s.(meterCounter := meterStart), c, NewTransaction(c, idTag, meterStart)),
                StartTransaction(c, idTag, meterStart), Some(c), None)
    case Identify(c, id) =>
      StartMeterTimer(WithTransaction(s, c, s.transactions.vals[c].(transactionId := Some(id), status := TxCharging)))
    case Suspend(c) => WithTransaction(s, c, s.transactions.vals[c].(status := TxCharging))
    case RemoveRow(c) => WithoutTransaction(s, c)
    case MeterPeriod => s.(meterValuesTimer := Some(s.meterValuesTimer.value + SAMPLE_PERIOD))
    case ClearMeterTimer => s.(meterValuesTimer := None)
  }

  /** What a move does to the link: at most one link move. */
  ghost function OnLink(s: Runtime, m: Move): Option<LinkMove>
    requires Legal(s, m)
  {
    match m
    case Wire(lm) => Some(lm)
    case Sample(c) => Some(LSend(SampleOf(c, AdvanceDcMeter(s.transactions.vals[c], SAMPLE_SECONDS)), None, None))
    case Stop(c, reason) => Some(LSend(StopFrameOf(StoppedRow(s.transactions.vals[c], reason)), Some(c), None))
    case Begin(c, idTag) => Some(LSend(StartTransaction(c, idTag, s.meterCounter + 100), Some(c), None))
    case _ => None
  }

  lemma LinkFollows(s: Runtime, m: Move)
    requires Legal(s, m)
    ensures OnLink(s, m).None? ==> Play(s, m).link == s.link
    ensures OnLink(s, m).Some? ==>
              LinkLegal(s.link, OnLink(s, m).value) && Play(s, m).link == LinkPlay(s.link, OnLink(s, m).value)
  {
  }

  /** The Suspended override landing on a transaction whose stop was already sent. */
  ghost predicate Disturbs(s: Runtime, m: Move) {
    m.Suspend? && m.suspended in s.transactions.vals && s.transactions.vals[m.suspended].stopPending
  }

  /** The heartbeat timer is not overdue at time `to`. */
  ghost predicate BeatOnTime(s: Runtime, to: nat) {
    s.link.heartbeatTimer.Some? ==> to <= s.link.heartbeatTimer.value.due
  }

  /** No stop timeout is overdue at time `to`. */
  ghost predicate StopsOnTime(s: Runtime, to: nat) {
    forall t :: t in s.tasks && t.kind.StopTimeoutTask? ==> to <= t.due
  }

  /** What a run may be restricted to.  `calm`: no Suspended override lands on a
      stopped transaction.  `beats`: the clock never passes the heartbeat timer when it is
      due; `stops`: nor a stop timeout.  Everything else deferred may take as long as it
      likes.  `interval`: every accepted boot carries this heartbeat interval.  `quiet`: no
      Authorize or StartTransaction is sent or answered. */
  datatype Regime = Regime(calm: bool, beats: bool, stops: bool, interval: Option<nat>, quiet: bool)

  const ANY: Regime := Regime(false, false, false, None, false)
  const CALM: Regime := Regime(true, false, false, None, false)
  const STOPS_ON_TIME: Regime := Regime(false, false, true, None, false)
  const QUIET: Regime := Regime(false, false, false, None, true)

  /** Calls whose replies decide which transaction a connector holds. */
  predicate Asks(call: PendingCall) {
    call.action.AuthorizeAction? || call.action.StartTransactionAction?
  }

  predicate AsksOrAnswers(l: Link, m: LinkMove) {
    match m
    case LSend(call, _, _) => call.Authorize?
    case LAnswered(uid) => uid in l.pendingCalls.vals && Asks(l.pendingCalls.vals[uid])
    case _ => false
  }

  ghost predicate Allowed(s: Runtime, m: Move, r: Regime) {
    && (r.calm ==> !Disturbs(s, m))
    && (r.beats && m.Wire? && m.link.LTime? ==> BeatOnTime(s, m.link.to))
    && (r.stops && m.Wire? && m.link.LTime? ==> StopsOnTime(s, m.link.to))
    && (r.interval.Some? && m.Wire? && m.link.LAccept? ==> m.link.interval == r.interval.value)
    && (r.quiet ==> !m.Begin? && (m.Wire? ==> !AsksOrAnswers(s.link, m.link)))
  }

  ghost predicate Playable(s: Runtime, ms: seq<Move>, r: Regime)
    decreases ms
  {
    ms == [] || (Legal(s, ms[0]) && Allowed(s, ms[0], r) && Playable(Play(s, ms[0]), ms[1..], r))
  }

  ghost function PlayAll(s: Runtime, ms: seq<Move>, r: Regime): Runtime
    requires Playable(s, ms, r)
    decreases ms
  {
    if ms == [] then s else PlayAll(Play(s, ms[0]), ms[1..], r)
  }

  ghost predicate Reaches(s: Runtime, s': Runtime, r: Regime) {
    exists ms :: Playable(s, ms, r) && PlayAll(s, ms, r) == s'
  }

  // ----- Reaching is reflexive and transitive -----

  lemma ReachesItself(s: Runtime, r: Regime)
    ensures Reaches(s, s, r)
  {
    assert Playable(s, [], r) && PlayAll(s, [], r) == s;
  }

  lemma {:induction false} PlayAppend(s: Runtime, ms: seq<Move>, ns: seq<Move>, r: Regime)
    requires Playable(s, ms, r) && Playable(PlayAll(s, ms, r), ns, r)
    ensures Playable(s, ms + ns, r) && PlayAll(s, ms + ns, r) == PlayAll(PlayAll(s, ms, r), ns, r)
    decreases ms
  {
    if ms == [] {
      assert ms + ns == ns;
    } else {
      PlayAppend(Play(s, ms[0]), ms[1..], ns, r);
      assert (ms + ns)[1..] == ms[1..] + ns;
    }
  }

  lemma ReachesVia(s: Runtime, t: Runtime, u: Runtime, r: Regime)
    requires Reaches(s, t, r) && Reaches(t, u, r)
    ensures Reaches(s, u, r)
  {
    var ms :| Playable(s, ms, r) && PlayAll(s, ms, r) == t;
    var ns :| Playable(t, ns, r) && PlayAll(t, ns, r) == u;
    PlayAppend(s, ms, ns, r);
  }

  lemma Single(t: Runtime, m: Move, r: Regime)
    requires Legal(t, m) && Allowed(t, m, r)
    ensures Playable(t, [m], r) && PlayAll(t, [m], r) == Play(t, m)
  {
    assert [m][0] == m && [m][1..] == [];
    assert Playable(Play(t, m), [], r);
  }

  /** One more move at the end. */
  lemma Then(s: Runtime, t: Runtime, m: Move, r: Regime)
    requires Reaches(s, t, r) && Legal(t, m) && Allowed(t, m, r)
    ensures Reaches(s, Play(t, m), r)
  {
    Single(t, m, r);
    ReachesVia(s, t, Play(t, m), r);
  }

  lemma One(s: Runtime, m: Move, r: Regime)
    requires Legal(s, m) && Allowed(s, m, r)
    ensures Reaches(s, Play(s, m), r)
  {
    ReachesItself(s, r);
    Then(s, s, m, r);
  }
}
