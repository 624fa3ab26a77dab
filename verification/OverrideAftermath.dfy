/** What follows a Suspended override that lands on a transaction already stopped: from
    every such state a calm run leads to a MeterValues after the StopTransaction of
    its own session (against OCPP 1.6 section 4.10), and from no other. */
module OverrideAftermath {
  import opened Wrappers
  import opened OrderedMaps
  import opened ChargePointTypes
  import opened DcMeter
  import opened ChargePointModel
  import opened Moves
  import opened MovesCover
  import opened SessionHistory
  import opened OverrideScenario

  // ----- What the press leads to -----

  /** A calm continuation: `t` is reached from `s` by events none of which overrides again. */
  ghost predicate Leads(s: Runtime, t: Runtime) {
    exists ss, es :: IsPath(ss, es) && ss[0] == s && ss[|es|] == t
  }

  ghost predicate CalmStep(s: Runtime, e: Event, t: Runtime) {
    Enabled(s, e) && Within(s, e, CALM) && t == Apply(s, e)
  }

  ghost predicate IsPath(ss: seq<Runtime>, es: seq<Event>) {
    |ss| == |es| + 1 && forall i :: 0 <= i < |es| ==> CalmStep(ss[i], es[i], ss[i + 1])
  }

  lemma LeadsItself(s: Runtime)
    ensures Leads(s, s)
  {
    var ss, es: seq<Event> := [s], [];
    assert IsPath(ss, es) && ss[0] == s && ss[|es|] == s;
  }

  lemma OneStep(s: Runtime, e: Event)
    requires Enabled(s, e) && Within(s, e, CALM)
    ensures Leads(s, Apply(s, e))
  {
    var ss, es := [s, Apply(s, e)], [e];
    assert CalmStep(s, e, Apply(s, e));
    assert IsPath(ss, es) && ss[0] == s && ss[|es|] == Apply(s, e);
  }

  /** Row `c` was stopped by the frame `stop` and is marked as charging again. */
  ghost predicate Haunted(s: Runtime, c: int, stop: TraceEntry) {
    && s.transactions.Valid() && c in s.transactions.vals
    && s.transactions.vals[c].transactionId.Some? && s.transactions.vals[c].status == TxCharging
    && stop in s.link.trace && Stops(stop, s.transactions.vals[c])
  }

  lemma PressMarks(s: Runtime, c: int, status: ConnectorStatus)
    requires OverridesStop(s, PressStatus(c, status))
    ensures var t := Apply(s, PressStatus(c, status));
            && t.transactions == Put(s.transactions, c, s.transactions.vals[c].(status := TxCharging))
            && s.link.trace <= t.link.trace
  {
  }

  lemma PressHaunts(s: Runtime, c: int, status: ConnectorStatus) returns (stop: TraceEntry)
    requires SessionHistory.Inv(s) && s.transactions.Valid() && OverridesStop(s, PressStatus(c, status))
    ensures Haunted(Apply(s, PressStatus(c, status)), c, stop)
  {
    var tx := s.transactions.vals[c];
    assert RowFits(c, tx, s.meterCounter);
    assert Ended(s.link.trace, tx);
    stop :| stop in s.link.trace && Stops(stop, tx);
    PressMarks(s, c, status);
    assert stop in Apply(s, PressStatus(c, status)).link.trace;
  }

  lemma StaysHaunted(s: Runtime, t: Runtime, c: int, stop: TraceEntry)
    requires Haunted(s, c, stop) && t.transactions.Valid() && s.link.trace <= t.link.trace
    requires c in t.transactions.vals && t.transactions.vals[c] == s.transactions.vals[c]
    ensures Haunted(t, c, stop)
  {
    assert stop in t.link.trace;
  }

  /** A sample of row `c` itself. */
  lemma SampleIsLate(s: Runtime, c: int, stop: TraceEntry)
    requires Haunted(s, c, stop) && Registered(s.link)
    ensures !WellOrdered(SendMeterValues(s, c).link.trace)
  {
    var t := SendMeterValues(s, c);
    var e := Sent(s.link.now, s.link.nextUid, SampleOf(c, AdvanceDcMeter(s.transactions.vals[c], SAMPLE_SECONDS)));
    assert t.link.trace == s.link.trace + [e];
    var i :| 0 <= i < |s.link.trace| && s.link.trace[i] == stop;
    assert t.link.trace[i] == stop && t.link.trace[|s.link.trace|] == e;
    assert !InOrder(stop, e);
  }

  lemma SampleElsewhere(s: Runtime, k: int, c: int, stop: TraceEntry)
    requires Haunted(s, c, stop) && k != c && k in s.transactions.vals && s.transactions.vals[k].transactionId.Some?
    ensures Haunted(SendMeterValues(s, k), c, stop)
    ensures Registered(s.link) ==> Registered(SendMeterValues(s, k).link)
  {
    StaysHaunted(s, SendMeterValues(s, k), c, stop);
  }

  /** The sampler comes to row `c` sooner or later and sends a frame after its stop. */
  lemma {:induction false} SamplerFinds(s: Runtime, keys: seq<int>, c: int, stop: TraceEntry)
    requires Haunted(s, c, stop) && Registered(s.link) && c in keys
    ensures !WellOrdered(SampleAll(s, keys).link.trace)
    decreases keys
  {
    var k := keys[0];
    if k == c {
      SampleIsLate(s, c, stop);
      SampleAllGrows(SendMeterValues(s, c), keys[1..]);
      OrderInherited(SendMeterValues(s, c).link.trace, SampleAll(s, keys).link.trace);
    } else if k in s.transactions.vals && Sampled(s.transactions.vals[k]) {
      SampleElsewhere(s, k, c, stop);
      SamplerFinds(SendMeterValues(s, k), keys[1..], c, stop);
    } else {
      SamplerFinds(s, keys[1..], c, stop);
    }
  }

  lemma {:induction false} SampleAllGrows(s: Runtime, keys: seq<int>)
    ensures s.link.trace <= SampleAll(s, keys).link.trace
    decreases keys
  {
    if keys != [] {
      if keys[0] in s.transactions.vals && Sampled(s.transactions.vals[keys[0]]) {
        SampleAllGrows(SendMeterValues(s, keys[0]), keys[1..]);
      } else {
        SampleAllGrows(s, keys[1..]);
      }
    }
  }

  lemma OrderInherited(early: seq<TraceEntry>, late: seq<TraceEntry>)
    requires early <= late
    ensures WellOrdered(late) ==> WellOrdered(early)
  {
    if WellOrdered(late) {
      forall i, j | 0 <= i < j < |early| ensures InOrder(early[i], early[j]) {
        assert early[i] == late[i] && early[j] == late[j];
      }
    }
  }

  /** Time passes until the sampling timer is due, and it fires. */
  function Ticked(s: Runtime): Runtime
    requires s.meterValuesTimer.Some?
  {
    Apply(Apply(s, OnTime(Max(s.link.now, s.meterValuesTimer.value))), OnMeterTimer)
  }

  lemma TickLeads(s: Runtime)
    requires s.meterValuesTimer.Some?
    ensures Leads(s, Ticked(s))
  {
    var e := OnTime(Max(s.link.now, s.meterValuesTimer.value));
    OneStep(s, e);
    OneStep(Apply(s, e), OnMeterTimer);
    LeadsVia(s, Apply(s, e), Ticked(s));
  }

  /** With an open, accepted socket and the sampling timer running the next tick is one too many. */
  lemma TickFollowsStop(s: Runtime, c: int, stop: TraceEntry)
    requires Haunted(s, c, stop) && Registered(s.link) && s.meterValuesTimer.Some?
    ensures !WellOrdered(Ticked(s).link.trace)
  {
    var s1 := Apply(s, OnTime(Max(s.link.now, s.meterValuesTimer.value)));
    SamplerFinds(s1.(meterValuesTimer := Some(s1.meterValuesTimer.value + SAMPLE_PERIOD)), s1.transactions.keys, c, stop);
  }

  // ----- However the press finds the charge point -----

  lemma JoinedStep(ss: seq<Runtime>, es: seq<Event>, ts: seq<Runtime>, fs: seq<Event>, i: nat)
    requires IsPath(ss, es) && IsPath(ts, fs) && ss[|es|] == ts[0] && i < |es| + |fs|
    ensures CalmStep((ss[..|es|] + ts)[i], (es + fs)[i], (ss[..|es|] + ts)[i + 1])
  {
    if i < |es| {
      assert CalmStep(ss[i], es[i], ss[i + 1]);
      assert (ss[..|es|] + ts)[i + 1] == ss[i + 1];
    } else {
      assert CalmStep(ts[i - |es|], fs[i - |es|], ts[i - |es| + 1]);
    }
  }

  lemma LeadsVia(s: Runtime, t: Runtime, u: Runtime)
    requires Leads(s, t) && Leads(t, u)
    ensures Leads(s, u)
  {
    var ss, es :| IsPath(ss, es) && ss[0] == s && ss[|es|] == t;
    var ts, fs :| IsPath(ts, fs) && ts[0] == t && ts[|fs|] == u;
    var us, gs := ss[..|es|] + ts, es + fs;
    forall i | 0 <= i < |gs| ensures CalmStep(us[i], gs[i], us[i + 1]) {
      JoinedStep(ss, es, ts, fs, i);
    }
    assert us[0] == s && us[|gs|] == u;
    assert IsPath(us, gs);
  }

  /** A closed socket opens and the boot is accepted. */
  lemma Reopens(s: Runtime, c: int, stop: TraceEntry) returns (t: Runtime)
    requires Haunted(s, c, stop) && !s.link.isOpen
    ensures Leads(s, t) && Haunted(t, c, stop) && Registered(t.link)
  {
    OneStep(s, OnOpen);
    var s1 := Apply(s, OnOpen);
    StaysHaunted(s, s1, c, stop);
    var e := OnFrame(InResult(s.link.nextUid, Some(BOOT_OK)), []);
    OneStep(s1, e);
    t := Apply(s1, e);
    LeadsVia(s, s1, t);
    StaysHaunted(s1, t, c, stop);
  }

  lemma {:induction false} Above(used: set<int>) returns (d: int)
    ensures forall x :: x in used ==> x < d
    decreases |used|
  {
    d := 0;
    if x: int :| x in used {
      var rest := used - {x};
      var r := Above(rest);
      d := Max(r, x + 1);
      forall y | y in used ensures y < d {
        assert y == x || y in rest;
      }
    }
  }

  /** What the answer to its latest call does. */
  ghost predicate Asked(s: Runtime, action: Action, c: Option<int>) {
    && s.link.nextUid > 0 && (s.link.nextUid - 1) in s.link.pendingCalls.vals
    && s.link.pendingCalls.vals[s.link.nextUid - 1].action == action
    && s.link.pendingCalls.vals[s.link.nextUid - 1].connectorId == c
  }

  function Reply(s: Runtime, p: ReplyPayload): Event
    requires s.link.nextUid > 0
  {
    OnFrame(InResult(s.link.nextUid - 1, Some(p)), [])
  }

  /** An unused connector is plugged in. */
  lemma AnotherPlugsIn(s: Runtime, d: int)
    requires Registered(s.link) && d !in s.connectorStates.vals
    ensures var t := Apply(s, PressPlugIn(d));
            && t.transactions == s.transactions && Registered(t.link) && s.link.trace <= t.link.trace
            && d in t.connectorStates.vals && t.connectorStates.vals[d].status == Preparing
            && t.connectorStates.vals[d].cablePluggedIn
  {
  }

  lemma AnotherAuthorizes(s: Runtime, d: int)
    requires Registered(s.link) && d in s.connectorStates.vals && s.connectorStates.vals[d].status == Preparing
    requires s.connectorStates.vals[d].cablePluggedIn
    ensures var t := Apply(s, PressAuthorize(d, "TAG"));
            && t.transactions == s.transactions && Registered(t.link) && s.link.trace <= t.link.trace
            && Asked(t, AuthorizeAction, Some(d))
  {
  }

  lemma AnotherBegins(s: Runtime, d: int)
    requires Registered(s.link) && Asked(s, AuthorizeAction, Some(d))
    ensures var t := Apply(s, Reply(s, TAG_OK));
            && Registered(t.link) && s.link.trace <= t.link.trace && Asked(t, StartTransactionAction, Some(d))
            && d in t.transactions.vals && Unidentified(t.transactions.vals[d])
            && t.transactions == Put(s.transactions, d, t.transactions.vals[d])
  {
    var uid := s.link.nextUid - 1;
    var call := s.link.pendingCalls.vals[uid];
    assert Apply(s, Reply(s, TAG_OK)) == AuthorizeReply(Answered(s, uid), TAG_OK, call);
  }

  /** Whoever gets the id, the timer starts. */
  lemma AnotherCharges(s: Runtime, d: int)
    requires Registered(s.link) && Asked(s, StartTransactionAction, Some(d))
    requires s.transactions.Valid() && d in s.transactions.vals && Unidentified(s.transactions.vals[d])
    ensures var t := Apply(s, Reply(s, START_OK));
            && Registered(t.link) && s.link.trace <= t.link.trace && t.meterValuesTimer.Some?
            && exists k, tx :: Picked(s.transactions.vals, k, Unidentified) && t.transactions == Put(s.transactions, k, tx)
  {
    assert Picked(s.transactions.vals, d, Unidentified) && d in s.transactions.keys;
    var k := Find(s.transactions.keys, s.transactions.vals, Unidentified).value;
    var tx := s.transactions.vals[k].(transactionId := Some(7), status := TxCharging);
    assert Apply(s, Reply(s, START_OK)).transactions == Put(s.transactions, k, tx);
  }

  lemma StepHaunts(s: Runtime, e: Event, c: int, stop: TraceEntry)
    requires Haunted(s, c, stop) && Enabled(s, e) && Within(s, e, CALM)
    requires s.link.trace <= Apply(s, e).link.trace
    requires Apply(s, e).transactions == s.transactions || exists k, tx :: k != c && Apply(s, e).transactions == Put(s.transactions, k, tx)
    ensures Leads(s, Apply(s, e)) && Haunted(Apply(s, e), c, stop)
  {
    OneStep(s, e);
    ValidAfter(s, e);
    StaysHaunted(s, Apply(s, e), c, stop);
  }

  lemma ValidAfter(s: Runtime, e: Event)
    requires s.transactions.Valid() && Enabled(s, e) && Within(s, e, CALM)
    ensures Apply(s, e).transactions.Valid()
  {
    StepIsMoves(s, e, CALM);
    ReachedRowsValid(s, Apply(s, e), CALM);
  }

  lemma AskingLeads(s: Runtime, c: int, stop: TraceEntry) returns (t: Runtime, d: int)
    requires Haunted(s, c, stop) && Registered(s.link)
    ensures Leads(s, t) && Haunted(t, c, stop) && Registered(t.link) && Asked(t, AuthorizeAction, Some(d))
    ensures d !in t.transactions.vals
  {
    d := Above(s.connectorStates.vals.Keys + s.transactions.vals.Keys);
    assert d !in s.connectorStates.vals.Keys + s.transactions.vals.Keys;
    var s1 := Apply(s, PressPlugIn(d));
    AnotherPlugsIn(s, d);
    StepHaunts(s, PressPlugIn(d), c, stop);
    t := Apply(s1, PressAuthorize(d, "TAG"));
    AnotherAuthorizes(s1, d);
    StepHaunts(s1, PressAuthorize(d, "TAG"), c, stop);
    LeadsVia(s, s1, t);
  }

  lemma TimerStarts(s: Runtime, c: int, stop: TraceEntry) returns (t: Runtime)
    requires Haunted(s, c, stop) && Registered(s.link)
    ensures Leads(s, t) && Haunted(t, c, stop) && Registered(t.link) && t.meterValuesTimer.Some?
  {
    var s1, d := AskingLeads(s, c, stop);
    var s2 := Apply(s1, Reply(s1, TAG_OK));
    AnotherBegins(s1, d);
    StepHaunts(s1, Reply(s1, TAG_OK), c, stop);
    LeadsVia(s, s1, s2);
    t := Apply(s2, Reply(s2, START_OK));
    AnotherCharges(s2, d);
    StepHaunts(s2, Reply(s2, START_OK), c, stop);
    LeadsVia(s, s2, t);
  }

  /** From every state the press leaves behind, the late sample can still come. */
  lemma LateSampleComes(s: Runtime, c: int, stop: TraceEntry) returns (t: Runtime)
    requires Haunted(s, c, stop) && s.link.registration == Accepted
    ensures Leads(s, t) && !WellOrdered(t.link.trace)
  {
    LeadsItself(s);
    var s1 := s;
    if !s.link.isOpen {
      s1 := Reopens(s, c, stop);
    }
    if s1.meterValuesTimer.None? {
      var s2 := TimerStarts(s1, c, stop);
      LeadsVia(s, s1, s2);
      s1 := s2;
    }
    TickFollowsStop(s1, c, stop);
    TickLeads(s1);
    t := Ticked(s1);
    LeadsVia(s, s1, t);
  }

  lemma {:induction false} PathKeeps(ss: seq<Runtime>, es: seq<Event>, i: nat)
    requires IsPath(ss, es) && SessionHistory.Inv(ss[0]) && ss[0].transactions.Valid() && i < |ss|
    ensures SessionHistory.Inv(ss[i]) && ss[i].transactions.Valid()
  {
    if i > 0 {
      PathKeeps(ss, es, i - 1);
      assert CalmStep(ss[i - 1], es[i - 1], ss[i]);
      forall t: Runtime, m: Move | SessionHistory.Inv(t) && Legal(t, m) && Allowed(t, m, CALM)
        ensures SessionHistory.Inv(Play(t, m))
      {
        MoveKeeps(t, m);
      }
      KeptByStep(SessionHistory.Inv, ss[i - 1], es[i - 1], CALM);
    }
  }

  /** Setting a connector to Suspended leaves every further calm run with a well-ordered trace exactly when no
      stop is pending on that connector: otherwise some calm run goes on to send a
      MeterValues after the StopTransaction of its own session. */
  lemma OverrideIsHarmlessExactly(s: Runtime, c: int, status: ConnectorStatus)
    requires SessionHistory.Inv(s) && s.transactions.Valid() && IsSuspended(status)
    ensures (forall t :: Leads(Apply(s, PressStatus(c, status)), t) ==> WellOrdered(t.link.trace))
      <==> !OverridesStop(s, PressStatus(c, status))
  {
    var e := PressStatus(c, status);
    var s1 := Apply(s, e);
    if OverridesStop(s, e) {
      var stop := PressHaunts(s, c, status);
      var t := LateSampleComes(s1, c, stop);
    } else {
      forall t | Leads(s1, t) ensures WellOrdered(t.link.trace) {
        var ss, es :| IsPath(ss, es) && ss[0] == s1 && ss[|es|] == t;
        OverrideBreaksExactly(s, c, status);
        assert Within(s, e, CALM);
        ValidAfter(s, e);
        PathKeeps(ss, es, |es|);
      }
    }
  }

  /** With the socket open and the timer running the very next tick shows it: its trace is out of
      order exactly when a stop was pending under the press. */
  lemma NextTickShowsExactly(s: Runtime, c: int, status: ConnectorStatus)
    requires SessionHistory.Inv(s) && s.transactions.Valid() && IsSuspended(status)
    requires Registered(s.link) && s.meterValuesTimer.Some?
    ensures WellOrdered(Ticked(Apply(s, PressStatus(c, status))).link.trace) <==> !OverridesStop(s, PressStatus(c, status))
  {
    var e := PressStatus(c, status);
    var s1 := Apply(s, e);
    if OverridesStop(s, e) {
      var stop := PressHaunts(s, c, status);
      TickFollowsStop(s1, c, stop);
    } else {
      OverrideIsHarmlessExactly(s, c, status);
      TickLeads(s1);
    }
  }
}
