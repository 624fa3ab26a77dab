/** What the frames of one transaction look like on the wire, over every run in
    which no Suspended override lands on a transaction already stopped: one
    StartTransaction, then samples of a strictly rising register, then at most one
    StopTransaction above them all, and nothing after it (OCPP 1.6 section 4.10).
    A counterexample shows why the override has to be excluded. */
module SessionHistory {
  import opened Wrappers
  import opened OrderedMaps
  import opened ChargePointTypes
  import opened DcMeter
  import opened ChargePointModel
  import opened Moves
  import opened MovesCover

  // ----- Reading the trace -----

  predicate IsStart(e: TraceEntry) { e.Sent? && e.call.StartTransaction? }

  predicate IsStop(e: TraceEntry) { e.Sent? && e.call.StopTransaction? }

  /** Frames that carry the energy register of a transaction. */
  predicate Metered(e: TraceEntry) {
    e.Sent? && (e.call.MeterValues? || e.call.StopTransaction?)
  }

  function Energy(e: TraceEntry): nat
    requires Metered(e)
  {
    if e.call.MeterValues? then e.call.energy else e.call.meterStop
  }

  /** `early` belongs before `late`: nothing follows a stop and the register rises. */
  predicate InOrder(early: TraceEntry, late: TraceEntry) {
    Metered(early) && Metered(late) && early.call.session == late.call.session ==>
      && !IsStop(early)
      && Energy(early) < Energy(late)
      && early.call.transactionId == late.call.transactionId
  }

  /** The StartTransaction that `e`, a metered frame, continues. */
  predicate Opens(start: TraceEntry, e: TraceEntry) {
    && IsStart(start) && Metered(e)
    && start.call.session == e.call.session
    && start.call.session < Energy(e)
    && (IsStop(e) ==> e.call.idTag == start.call.idTag)
    && (!IsStop(e) ==> e.call.connectorId == start.call.connectorId)
  }

  ghost predicate WellOrdered(trace: seq<TraceEntry>) {
    forall i, j :: 0 <= i < j < |trace| ==> InOrder(trace[i], trace[j])
  }

  ghost predicate OpenedBefore(trace: seq<TraceEntry>, i: nat)
    requires i < |trace|
  {
    exists j :: 0 <= j < i && Opens(trace[j], trace[i])
  }

  ghost predicate WellOpened(trace: seq<TraceEntry>) {
    forall i :: 0 <= i < |trace| && Metered(trace[i]) ==> OpenedBefore(trace, i)
  }

  // ----- The invariant that carries it -----

  predicate RowFits(c: int, tx: Transaction, counter: nat) {
    && tx.connectorId == c
    && tx.meterStart <= tx.meterCurrent && tx.meterStart <= counter
    && (tx.stopPending ==> tx.transactionId.Some? && tx.status == TxFinishing)
    && (Stoppable(tx) ==> tx.status == TxCharging)
  }

  /** What the frames of its session may be, given the row as it stands. */
  predicate EntryFits(e: TraceEntry, tx: Transaction) {
    Metered(e) && e.call.session == tx.meterStart ==>
      && tx.transactionId == Some(e.call.transactionId)
      && Energy(e) <= tx.meterCurrent
      && (IsStop(e) ==> tx.stopPending)
  }

  predicate Starts(e: TraceEntry, tx: Transaction) {
    IsStart(e) && e.call == StartTransaction(tx.connectorId, tx.idTag, tx.meterStart)
  }

  predicate Stops(e: TraceEntry, tx: Transaction) {
    IsStop(e) && e.call.session == tx.meterStart
  }

  ghost predicate RowsFit(s: Runtime) {
    && (forall c :: c in s.transactions.vals ==> RowFits(c, s.transactions.vals[c], s.meterCounter))
    && (forall c, d :: c in s.transactions.vals && d in s.transactions.vals && c != d ==>
          s.transactions.vals[c].meterStart != s.transactions.vals[d].meterStart)
  }

  ghost predicate TraceFits(s: Runtime) {
    && (forall e :: e in s.link.trace && (Metered(e) || IsStart(e)) ==> e.call.session <= s.meterCounter)
    && (forall e, c :: e in s.link.trace && c in s.transactions.vals ==> EntryFits(e, s.transactions.vals[c]))
  }

  ghost predicate Begun(trace: seq<TraceEntry>, tx: Transaction) {
    exists e :: e in trace && Starts(e, tx)
  }

  ghost predicate Ended(trace: seq<TraceEntry>, tx: Transaction) {
    exists e :: e in trace && Stops(e, tx)
  }

  ghost predicate RowsTraced(s: Runtime) {
    forall c :: c in s.transactions.vals ==>
      && Begun(s.link.trace, s.transactions.vals[c])
      && (s.transactions.vals[c].stopPending ==> Ended(s.link.trace, s.transactions.vals[c]))
  }

  ghost predicate Inv(s: Runtime) {
    && RowsFit(s) && TraceFits(s) && RowsTraced(s)
    && WellOrdered(s.link.trace) && WellOpened(s.link.trace)
  }

  // ----- One entry at the end of the trace -----

  /** What a link move adds to the trace. */
  ghost function Added(l: Link, m: LinkMove): seq<TraceEntry>
    requires LinkLegal(l, m)
  {
    match m
    case LSend(call, _, _) => [Sent(l.now, l.nextUid, call)]
    case LRespond(uid, response) => [Responded(l.now, uid, response)]
    case LAccept(_) => [BootAccepted(l.now)]
    case LOpen => [Opened]
    case LFire =>
      if l.now - l.lastMessageSentAt >= l.heartbeatTimer.value.delay && Registered(l)
      then [Sent(l.now, l.nextUid, Heartbeat)] else []
    case _ => []
  }

  lemma TraceGrowsBy(l: Link, m: LinkMove)
    requires LinkLegal(l, m)
    ensures LinkPlay(l, m).trace == l.trace + Added(l, m)
  {
  }

  lemma Appended(trace: seq<TraceEntry>, e: TraceEntry)
    requires WellOrdered(trace) && WellOpened(trace)
    requires forall d :: d in trace ==> InOrder(d, e)
    requires Metered(e) ==> exists d :: d in trace && Opens(d, e)
    ensures WellOrdered(trace + [e]) && WellOpened(trace + [e])
  {
    var longer := trace + [e];
    forall i | 0 <= i < |longer| && Metered(longer[i]) ensures OpenedBefore(longer, i) {
      if i < |trace| {
        assert OpenedBefore(trace, i);
        var j :| 0 <= j < i && Opens(trace[j], trace[i]);
        assert Opens(longer[j], longer[i]);
      } else {
        var d :| d in trace && Opens(d, e);
        var j :| 0 <= j < |trace| && trace[j] == d;
        assert Opens(longer[j], longer[i]);
      }
    }
  }

  lemma StillTraced(trace: seq<TraceEntry>, more: seq<TraceEntry>, tx: Transaction)
    ensures Begun(trace, tx) ==> Begun(trace + more, tx)
    ensures Ended(trace, tx) ==> Ended(trace + more, tx)
  {
    if Begun(trace, tx) {
      var e :| e in trace && Starts(e, tx);
      assert e in trace + more;
    }
    if Ended(trace, tx) {
      var e :| e in trace && Stops(e, tx);
      assert e in trace + more;
    }
  }

  /** An entry that says nothing about a transaction. */
  lemma QuietEntries(s: Runtime, t: Runtime, more: seq<TraceEntry>)
    requires Inv(s) && t.link.trace == s.link.trace + more && |more| <= 1
    requires forall e :: e in more ==> !Metered(e) && !IsStart(e)
    requires t.transactions.vals == s.transactions.vals && t.meterCounter == s.meterCounter
    ensures Inv(t)
  {
    if |more| == 1 {
      assert more == [more[0]] && more[0] in more;
      Appended(s.link.trace, more[0]);
    } else {
      assert s.link.trace + more == s.link.trace;
    }
    forall c | c in t.transactions.vals
      ensures Begun(t.link.trace, t.transactions.vals[c])
      ensures t.transactions.vals[c].stopPending ==> Ended(t.link.trace, t.transactions.vals[c])
    {
      StillTraced(s.link.trace, more, t.transactions.vals[c]);
    }
    forall e, c | e in t.link.trace && c in t.transactions.vals ensures EntryFits(e, t.transactions.vals[c]) {
      assert e in s.link.trace || e in more;
    }
  }

  /** Row `c` moved its register up to what the new entry `e` reports. */
  lemma MeteredEntry(s: Runtime, t: Runtime, c: int, e: TraceEntry)
    requires Inv(s) && c in s.transactions.vals && Stoppable(s.transactions.vals[c])
    requires Metered(e) && t.link.trace == s.link.trace + [e] && t.meterCounter == s.meterCounter
    requires c in t.transactions.vals && t.transactions.vals == s.transactions.vals[c := t.transactions.vals[c]]
    requires var tx, tx' := s.transactions.vals[c], t.transactions.vals[c];
             && RowFits(c, tx', s.meterCounter)
             && tx'.meterStart == tx.meterStart && tx'.idTag == tx.idTag && tx'.transactionId == tx.transactionId
             && e.call.session == tx.meterStart && Some(e.call.transactionId) == tx.transactionId
             && tx.meterCurrent < Energy(e) == tx'.meterCurrent
             && (IsStop(e) <==> tx'.stopPending)
             && (IsStop(e) ==> e.call.idTag == tx.idTag)
             && (!IsStop(e) ==> e.call.connectorId == c)
    ensures Inv(t)
  {
    var tx, tx' := s.transactions.vals[c], t.transactions.vals[c];
    forall d | d in s.link.trace ensures InOrder(d, e) {
      assert EntryFits(d, tx);
    }
    assert Begun(s.link.trace, tx);
    var start :| start in s.link.trace && Starts(start, tx);
    assert Opens(start, e);
    Appended(s.link.trace, e);
    assert e in t.link.trace;
    forall d | d in t.transactions.vals
      ensures Begun(t.link.trace, t.transactions.vals[d])
      ensures t.transactions.vals[d].stopPending ==> Ended(t.link.trace, t.transactions.vals[d])
    {
      StillTraced(s.link.trace, [e], t.transactions.vals[d]);
      if d == c {
        assert start in t.link.trace && Starts(start, tx');
        if tx'.stopPending { assert Stops(e, tx'); }
      }
    }
    forall f, d | f in t.link.trace && d in t.transactions.vals ensures EntryFits(f, t.transactions.vals[d]) {
      if f in s.link.trace {
        assert EntryFits(f, s.transactions.vals[d]);
      } else {
        assert f == e;
      }
    }
  }

  // ----- Each move -----

  lemma EnergyRises(powerW: int, seconds: nat)
    ensures EnergyStep(powerW, seconds) >= 1
  {
  }

  lemma SampleKeeps(s: Runtime, c: int)
    requires Inv(s) && Legal(s, Sample(c))
    ensures Inv(Play(s, Sample(c)))
  {
    var tx := AdvanceDcMeter(s.transactions.vals[c], SAMPLE_SECONDS);
    EnergyRises(tx.powerW, SAMPLE_SECONDS);
    MeteredEntry(s, Play(s, Sample(c)), c, Sent(s.link.now, s.link.nextUid, SampleOf(c, tx)));
  }

  lemma StopKeeps(s: Runtime, c: int, reason: StopReason)
    requires Inv(s) && Legal(s, Stop(c, reason))
    ensures Inv(Play(s, Stop(c, reason)))
  {
    var tx := StoppedRow(s.transactions.vals[c], reason);
    EnergyRises(tx.powerW, STOP_SECONDS);
    MeteredEntry(s, Play(s, Stop(c, reason)), c, Sent(s.link.now, s.link.nextUid, StopFrameOf(tx)));
  }

  lemma BeginTraces(s: Runtime, t: Runtime, c: int, e: TraceEntry)
    requires Inv(s) && t.link.trace == s.link.trace + [e]
    requires forall d :: d in t.transactions.vals && d != c ==> d in s.transactions.vals && t.transactions.vals[d] == s.transactions.vals[d]
    requires c in t.transactions.vals ==> Starts(e, t.transactions.vals[c]) && !t.transactions.vals[c].stopPending
    ensures RowsTraced(t)
  {
    forall d | d in t.transactions.vals
      ensures Begun(t.link.trace, t.transactions.vals[d])
      ensures t.transactions.vals[d].stopPending ==> Ended(t.link.trace, t.transactions.vals[d])
    {
      assert e in t.link.trace;
      StillTraced(s.link.trace, [e], t.transactions.vals[d]);
      if d == c { assert Starts(e, t.transactions.vals[c]); }
    }
  }

  lemma BeginKeeps(s: Runtime, c: int, idTag: string)
    requires Inv(s) && Legal(s, Begin(c, idTag))
    ensures Inv(Play(s, Begin(c, idTag)))
  {
    var t := Play(s, Begin(c, idTag));
    var e := Sent(s.link.now, s.link.nextUid, StartTransaction(c, idTag, s.meterCounter + 100));
    Appended(s.link.trace, e);
    assert t.link.trace == s.link.trace + [e] && e in t.link.trace;
    BeginTraces(s, t, c, e);
    forall f, d | f in t.link.trace && d in t.transactions.vals ensures EntryFits(f, t.transactions.vals[d]) {
      assert f in s.link.trace || f == e;
    }
  }

  lemma RowOnlyShape(s: Runtime, m: Move)
    requires RowsFit(s) && Legal(s, m) && Allowed(s, m, CALM)
    requires m.Identify? || m.Suspend? || m.RemoveRow? || m.TimeOut?
    ensures var t := Play(s, m);
            && t.link.trace == s.link.trace && t.meterCounter == s.meterCounter && RowsFit(t)
            && forall c :: c in t.transactions.vals ==>
                 && c in s.transactions.vals && SameStory(s.transactions.vals[c], t.transactions.vals[c])
  {
  }

  /** As far as the trace tells: the same transaction, with an id if it had one. */
  predicate SameStory(was: Transaction, now: Transaction) {
    && now.connectorId == was.connectorId && now.idTag == was.idTag && now.meterStart == was.meterStart
    && now.meterCurrent == was.meterCurrent && now.stopPending == was.stopPending
    && (was.transactionId.Some? ==> now.transactionId == was.transactionId)
  }

  /** Moves that leave the trace alone: rows may go, gain an id, or be told to charge. */
  lemma RowOnlyKeeps(s: Runtime, m: Move)
    requires Inv(s) && Legal(s, m) && Allowed(s, m, CALM)
    requires m.Identify? || m.Suspend? || m.RemoveRow? || m.TimeOut?
    ensures Inv(Play(s, m))
  {
    RowOnlyShape(s, m);
    SameStories(s, Play(s, m));
  }

  lemma SameStories(s: Runtime, t: Runtime)
    requires Inv(s) && t.link.trace == s.link.trace && t.meterCounter == s.meterCounter && RowsFit(t)
    requires forall c :: c in t.transactions.vals ==>
               c in s.transactions.vals && SameStory(s.transactions.vals[c], t.transactions.vals[c])
    ensures Inv(t)
  {
    forall e, c | e in t.link.trace && c in t.transactions.vals ensures EntryFits(e, t.transactions.vals[c]) {
      assert EntryFits(e, s.transactions.vals[c]);
    }
    forall c | c in t.transactions.vals
      ensures Begun(t.link.trace, t.transactions.vals[c])
      ensures t.transactions.vals[c].stopPending ==> Ended(t.link.trace, t.transactions.vals[c])
    {
      var start :| start in s.link.trace && Starts(start, s.transactions.vals[c]);
      assert Starts(start, t.transactions.vals[c]);
      if t.transactions.vals[c].stopPending {
        var stop :| stop in s.link.trace && Stops(stop, s.transactions.vals[c]);
        assert Stops(stop, t.transactions.vals[c]);
      }
    }
  }

  lemma MoveKeeps(s: Runtime, m: Move)
    requires Inv(s) && Legal(s, m) && Allowed(s, m, CALM)
    ensures Inv(Play(s, m))
  {
    if m.Wire? {
      TraceGrowsBy(s.link, m.link);
      QuietEntries(s, Play(s, m), Added(s.link, m.link));
    } else if m.Sample? {
      SampleKeeps(s, m.sampled);
    } else if m.Stop? {
      StopKeeps(s, m.stopped, m.reason);
    } else if m.Begin? {
      BeginKeeps(s, m.begun, m.idTag);
    } else if m.Identify? || m.Suspend? || m.RemoveRow? || m.TimeOut? {
      RowOnlyKeeps(s, m);
    } else {
      assert s.link.trace + [] == s.link.trace;
      QuietEntries(s, Play(s, m), []);
    }
  }

  /** Over every calm run. */
  lemma SessionsAreWellFormed(ss: seq<Runtime>, es: seq<Event>, i: nat)
    requires IsRunWithin(ss, es, CALM) && i < |ss|
    ensures WellOrdered(ss[i].link.trace) && WellOpened(ss[i].link.trace)
    ensures Inv(ss[i])
  {
    forall s: Runtime, m: Move | Inv(s) && Legal(s, m) && Allowed(s, m, CALM) ensures Inv(Play(s, m)) {
      MoveKeeps(s, m);
    }
    KeptByRun(Inv, ss, es, i, CALM);
  }

  // ----- What `session` names -----

  ghost predicate StartsRise(s: Runtime) {
    && (forall e :: e in s.link.trace && IsStart(e) ==> e.call.session <= s.meterCounter)
    && (forall i, j :: 0 <= i < j < |s.link.trace| && IsStart(s.link.trace[i]) && IsStart(s.link.trace[j]) ==>
          s.link.trace[i].call.session < s.link.trace[j].call.session)
  }

  lemma EntryKeepsRise(s: Runtime, t: Runtime, more: seq<TraceEntry>)
    requires StartsRise(s) && t.link.trace == s.link.trace + more && |more| <= 1 && s.meterCounter <= t.meterCounter
    requires forall e :: e in more && IsStart(e) ==> s.meterCounter < e.call.session <= t.meterCounter
    ensures StartsRise(t)
  {
    forall i | 0 <= i < |t.link.trace| ensures t.link.trace[i] == if i < |s.link.trace| then s.link.trace[i] else more[0] { }
  }

  lemma MoveKeepsRise(s: Runtime, m: Move)
    requires StartsRise(s) && Legal(s, m)
    ensures StartsRise(Play(s, m))
  {
    LinkFollows(s, m);
    var t := Play(s, m);
    if OnLink(s, m).Some? {
      TraceGrowsBy(s.link, OnLink(s, m).value);
      EntryKeepsRise(s, t, Added(s.link, OnLink(s, m).value));
    } else {
      assert s.link.trace + [] == s.link.trace;
      EntryKeepsRise(s, t, []);
    }
  }

  /** Over every run, calm or not: no two StartTransactions carry the same session; it names the
      transaction for good. */
  lemma SessionsAreUnique(ss: seq<Runtime>, es: seq<Event>, i: nat, j: nat, k: nat)
    requires IsRun(ss, es) && i < |ss| && j < |ss[i].link.trace| && k < |ss[i].link.trace|
    requires IsStart(ss[i].link.trace[j]) && IsStart(ss[i].link.trace[k])
    ensures ss[i].link.trace[j].call.session == ss[i].link.trace[k].call.session <==> j == k
  {
    forall s: Runtime, m: Move | StartsRise(s) && Legal(s, m) && Allowed(s, m, ANY) ensures StartsRise(Play(s, m)) {
      MoveKeepsRise(s, m);
    }
    assert IsRunWithin(ss, es, ANY);
    KeptByRun(StartsRise, ss, es, i, ANY);
  }
}
