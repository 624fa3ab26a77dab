/** The heartbeat as a timed property (OCPP 1.6 section 4.6).  With a fixed interval
    and a heartbeat timer that fires on time, a registered charge point is never
    silent for two intervals, and never for more than one when its last frame was a CALL: only
    CALLs re-arm the timer, responses do not.  No automatic heartbeat comes sooner
    than one interval after the frame before it. */
module HeartbeatBound {
  import opened Wrappers
  import opened OrderedMaps
  import opened ChargePointTypes
  import opened ChargePointModel
  import opened Moves
  import opened MovesCover

  // ----- Reading the trace -----

  predicate IsFrame(e: TraceEntry) { e.Sent? || e.Responded? }

  /** The last entry that is a frame. */
  function LastFrame(trace: seq<TraceEntry>): (r: Option<TraceEntry>)
    ensures r.Some? ==> IsFrame(r.value)
  {
    if trace == [] then None
    else if IsFrame(trace[|trace| - 1]) then Some(trace[|trace| - 1])
    else LastFrame(trace[..|trace| - 1])
  }

  /** When the last BootNotification was accepted. */
  function LastAcceptance(trace: seq<TraceEntry>): Option<nat> {
    if trace == [] then None
    else if trace[|trace| - 1].BootAccepted? then Some(trace[|trace| - 1].at)
    else LastAcceptance(trace[..|trace| - 1])
  }

  lemma OneMoreEntry(trace: seq<TraceEntry>, e: TraceEntry)
    ensures LastFrame(trace + [e]) == if IsFrame(e) then Some(e) else LastFrame(trace)
    ensures LastAcceptance(trace + [e]) == if e.BootAccepted? then Some(e.at) else LastAcceptance(trace)
  {
    assert (trace + [e])[..|trace|] == trace;
  }

  predicate EndsInCall(trace: seq<TraceEntry>) {
    LastFrame(trace).Some? && LastFrame(trace).value.Sent?
  }

  function Later(a: nat, b: nat): nat { if a < b then b else a }

  /** The later of the last outgoing frame and the last accepted boot. */
  function Since(l: Link): nat {
    Later(l.lastMessageSentAt, LastAcceptance(l.trace).GetOr(0))
  }

  // ----- The invariant -----

  /** `delay` is the interval in milliseconds. */
  ghost predicate LinkInv(l: Link, delay: nat) {
    && l.lastMessageSentAt <= l.now
    && (LastAcceptance(l.trace).Some? ==> LastAcceptance(l.trace).value <= l.now)
    && (LastFrame(l.trace).Some? ==> LastFrame(l.trace).value.at == l.lastMessageSentAt)
    && (l.heartbeatTimer.Some? ==> l.heartbeatTimer.value.delay == delay && l.now <= l.heartbeatTimer.value.due)
    && (l.registration == Accepted ==> l.heartbeatInterval.Some? && l.heartbeatInterval.value * 1000 == delay)
    && (Registered(l) ==>
          && LastAcceptance(l.trace).Some? && l.heartbeatTimer.Some?
          && l.heartbeatTimer.value.due < Since(l) + 2 * delay
          && LastAcceptance(l.trace).value + delay <= l.heartbeatTimer.value.due
          && (EndsInCall(l.trace) ==> l.heartbeatTimer.value.due == Since(l) + delay))
  }

  ghost predicate LinkAllowed(l: Link, m: LinkMove, delay: nat) {
    && (m.LAccept? ==> m.interval * 1000 == delay)
    && (m.LTime? && l.heartbeatTimer.Some? ==> m.to <= l.heartbeatTimer.value.due)
  }

  lemma FireKeeps(l: Link, delay: nat)
    requires delay > 0 && LinkInv(l, delay) && LinkLegal(l, LFire)
    ensures LinkInv(FireHeartbeat(l), delay)
  {
    OneMoreEntry(l.trace, Sent(l.now, l.nextUid, Heartbeat));
  }

  lemma SendKeeps(l: Link, call: OutCall, c: Option<int>, idTag: Option<string>, delay: nat)
    requires delay > 0 && LinkInv(l, delay)
    ensures LinkInv(Transmit(l, call, c, idTag), delay)
  {
    OneMoreEntry(l.trace, Sent(l.now, l.nextUid, call));
  }

  lemma RespondKeeps(l: Link, uid: string, response: ResponseStatus, delay: nat)
    requires delay > 0 && LinkInv(l, delay)
    ensures LinkInv(Respond(l, uid, response), delay)
  {
    OneMoreEntry(l.trace, Responded(l.now, uid, response));
  }

  lemma AcceptKeeps(l: Link, delay: nat)
    requires delay > 0 && delay % 1000 == 0 && LinkInv(l, delay)
    ensures LinkInv(AcceptRegistration(l, delay / 1000), delay)
  {
    OneMoreEntry(l.trace, BootAccepted(l.now));
  }

  lemma LinkKeeps(l: Link, m: LinkMove, delay: nat)
    requires delay > 0 && LinkInv(l, delay) && LinkLegal(l, m) && LinkAllowed(l, m, delay)
    ensures LinkInv(LinkPlay(l, m), delay)
  {
    match m {
      case LSend(call, c, idTag) => SendKeeps(l, call, c, idTag, delay);
      case LRespond(uid, response) => RespondKeeps(l, uid, response, delay);
      case LAccept(_) => AcceptKeeps(l, delay);
      case LOpen => OneMoreEntry(l.trace, Opened);
      case LFire => FireKeeps(l, delay);
      case _ =>
    }
  }

  /** A run whose accepted boots all carry `interval` seconds and whose heartbeat timer fires on time. */
  function Timed(interval: nat): Regime {
    Regime(false, true, false, Some(interval), false)
  }

  lemma LinkInvAlong(ss: seq<Runtime>, es: seq<Event>, i: nat, interval: nat)
    requires IsRunWithin(ss, es, Timed(interval)) && i < |ss| && interval > 0
    ensures LinkInv(ss[i].link, interval * 1000)
  {
    var P := (s: Runtime) => LinkInv(s.link, interval * 1000);
    forall s: Runtime, m: Move | P(s) && Legal(s, m) && Allowed(s, m, Timed(interval)) ensures P(Play(s, m)) {
      LinkFollows(s, m);
      if OnLink(s, m).Some? {
        LinkKeeps(s.link, OnLink(s, m).value, interval * 1000);
      }
    }
    KeptByRun(P, ss, es, i, Timed(interval));
  }

  /** Over every timed run: how long a registered charge point can have been silent. */
  lemma SilenceIsBounded(ss: seq<Runtime>, es: seq<Event>, i: nat, interval: nat)
    requires IsRunWithin(ss, es, Timed(interval)) && i < |ss| && interval > 0
    requires Registered(ss[i].link)
    ensures ss[i].link.now - Since(ss[i].link) < 2 * interval * 1000
    ensures EndsInCall(ss[i].link.trace) ==> ss[i].link.now - Since(ss[i].link) <= interval * 1000
  {
    LinkInvAlong(ss, es, i, interval);
  }

  /** A heartbeat the timer sends is at least one interval after the frame before it. */
  lemma AutomaticHeartbeatsAreSpaced(ss: seq<Runtime>, es: seq<Event>, i: nat, interval: nat)
    requires IsRunWithin(ss, es, Timed(interval)) && i < |es| && interval > 0
    requires es[i].OnHeartbeatTimer? && ss[i + 1].link.trace != ss[i].link.trace
    ensures ss[i + 1].link.trace == ss[i].link.trace + [Sent(ss[i].link.now, ss[i].link.nextUid, Heartbeat)]
    ensures LastFrame(ss[i].link.trace).Some? ==>
              LastFrame(ss[i].link.trace).value.at + interval * 1000 <= ss[i].link.now
  {
    LinkInvAlong(ss, es, i, interval);
  }

  // ----- Left alone -----

  /** The clock reaches the heartbeat timer, and it fires. */
  function Beaten(l: Link): Link
    requires l.heartbeatTimer.Some?
  {
    FireHeartbeat(l.(now := l.heartbeatTimer.value.due))
  }

  /** When a charge point to which nothing more happens sends its next heartbeat: when the timer is
      due, unless a response was sent since it was armed; then one interval later. */
  function NextBeat(l: Link, delay: nat): nat
    requires l.heartbeatTimer.Some?
  {
    var due := l.heartbeatTimer.value.due;
    if due - l.lastMessageSentAt >= delay then due else due + delay
  }

  /** Left alone, a registered charge point sends its next heartbeat at `NextBeat`, and has then been
      silent for more than one interval exactly when the timer was not armed at the moment
      the silence began and is not due at that moment either. */
  lemma IdleSilenceExactly(ss: seq<Runtime>, es: seq<Event>, i: nat, interval: nat)
    requires IsRunWithin(ss, es, Timed(interval)) && i < |ss| && interval > 0
    requires Registered(ss[i].link)
    ensures ss[i].link.heartbeatTimer.Some?
    ensures var l, delay := ss[i].link, interval * 1000;
            var due, at := l.heartbeatTimer.value.due, NextBeat(l, delay);
            && Beaten(l).heartbeatTimer.Some?
            && (at == due ==> Beaten(l).trace == l.trace + [Sent(at, l.nextUid, Heartbeat)])
            && (at != due ==> Beaten(l).trace == l.trace && Beaten(Beaten(l)).trace == l.trace + [Sent(at, l.nextUid, Heartbeat)])
            && (at - Since(l) > delay <==> due != Since(l) && due != Since(l) + delay)
  {
    LinkInvAlong(ss, es, i, interval);
  }

  // ----- Two intervals is the right bound -----

  function BootOk(interval: nat): ReplyPayload {
    ReplyPayload(BootAcceptedStatus, Some(interval), false, None)
  }

  /** Registered, with the timer armed at time 0 and nothing else to come. */
  ghost predicate Waits(s: Runtime, interval: nat, now: nat, last: nat) {
    && Reachable(s, Timed(interval)) && Registered(s.link) && s.link.now == now && s.link.lastMessageSentAt == last
    && s.link.heartbeatInterval == Some(interval)
    && s.link.heartbeatTimer == Some(HeartbeatTimer(interval * 1000, interval * 1000))
    && LastAcceptance(s.link.trace) == Some(0) && s.meterValuesTimer.None?
  }

  /** The moment the boot is accepted, at time 0. */
  lemma JustAccepted(interval: nat)
    returns (s: Runtime)
    requires interval > 0
    ensures Waits(s, interval, 0, 0)
  {
    var s0 := Init(0);
    ReachableInit(0, Timed(interval));
    ReachableStep(s0, OnOpen, Timed(interval));
    var s1 := Apply(s0, OnOpen);
    var accepted := OnFrame(InResult(0, Some(BootOk(interval))), []);
    ReachableStep(s1, accepted, Timed(interval));
    s := Apply(s1, accepted);
    OneMoreEntry(s1.link.trace, BootAccepted(0));
  }

  /** While the connectors are being fetched the clock moves one millisecond. */
  lemma JustIdle(interval: nat)
    returns (s: Runtime)
    requires interval > 0
    ensures Waits(s, interval, 1, 0)
  {
    var s1 := JustAccepted(interval);
    ReachableStep(s1, OnTime(1), Timed(interval));
    s := Apply(s1, OnTime(1));
  }

  /** It then answers a command. */
  lemma JustAnswered(interval: nat)
    returns (s: Runtime)
    requires interval > 0
    ensures Waits(s, interval, 1, 1)
  {
    var s3 := JustIdle(interval);
    var command := OnFrame(InCall("c", GetConfiguration), []);
    ReachableStep(s3, command, Timed(interval));
    s := Apply(s3, command);
    OneMoreEntry(s3.link.trace, Responded(1, "c", RespConfiguration));
  }

  /** Whatever the interval, a response sent just after the timer was armed leaves the charge point
      silent for all but a millisecond of two intervals. */
  lemma AlmostTwoIntervals(interval: nat)
    requires interval > 0
    ensures exists s ::
              Reachable(s, Timed(interval)) && Registered(s.link) && s.link.now - Since(s.link) == 2 * interval * 1000 - 1
  {
    var delay := interval * 1000;
    var s4 := JustAnswered(interval);
    ReachableStep(s4, OnTime(delay), Timed(interval));
    var s5 := Apply(s4, OnTime(delay));
    ReachableStep(s5, OnHeartbeatTimer, Timed(interval));
    var s6 := Apply(s5, OnHeartbeatTimer);
    ReachableStep(s6, OnTime(2 * delay), Timed(interval));
    var s7 := Apply(s6, OnTime(2 * delay));
    assert s7.link.trace == s4.link.trace;
  }
}
