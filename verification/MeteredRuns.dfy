/** The session arithmetic on the wire: over every calm run, the register a frame
    reports is fixed, up to the stated bounds, by how many samples of its session
    were sent before it. */
module MeteredRuns {
  import opened Wrappers
  import opened OrderedMaps
  import opened ChargePointTypes
  import opened DcMeter
  import opened ChargePointModel
  import opened Moves
  import opened MovesCover
  import opened MeterArithmetic
  import opened SessionHistory

  predicate IsSample(e: TraceEntry, session: nat) {
    e.Sent? && e.call.MeterValues? && e.call.session == session
  }

  function CountSamples(trace: seq<TraceEntry>, session: nat): nat {
    if trace == [] then 0
    else CountSamples(trace[..|trace| - 1], session) + (if IsSample(trace[|trace| - 1], session) then 1 else 0)
  }

  lemma CountAppend(trace: seq<TraceEntry>, e: TraceEntry, session: nat)
    ensures CountSamples(trace + [e], session) == CountSamples(trace, session) + (if IsSample(e, session) then 1 else 0)
  {
    assert (trace + [e])[..|trace|] == trace;
  }

  lemma {:induction false} NoneCounted(trace: seq<TraceEntry>, session: nat)
    requires forall e :: e in trace && (Metered(e) || IsStart(e)) ==> e.call.session < session
    ensures CountSamples(trace, session) == 0
  {
    if trace != [] {
      NoneCounted(trace[..|trace| - 1], session);
      assert trace[|trace| - 1] in trace;
    }
  }

  /** A frame reports what its place in the session allows. */
  predicate InRange(e: TraceEntry, samplesBefore: nat) {
    Metered(e) ==>
      var drawn := Energy(e) - e.call.session;
      if IsStop(e) then 50 * samplesBefore + 25 <= drawn <= 250 * samplesBefore + 125
      else 50 * (samplesBefore + 1) <= drawn <= 250 * (samplesBefore + 1)
  }

  ghost predicate AllInRange(trace: seq<TraceEntry>) {
    forall i :: 0 <= i < |trace| && Metered(trace[i]) ==>
      InRange(trace[i], CountSamples(trace[..i], trace[i].call.session))
  }

  predicate SameReading(a: Transaction, b: Transaction) {
    a.soc == b.soc && a.meterCurrent == b.meterCurrent
  }

  function Opening(tx: Transaction): Transaction {
    NewTransaction(tx.connectorId, tx.idTag, tx.meterStart)
  }

  /** A row not yet stopped reads what that many samples make of a new one. */
  predicate ReadsAfter(tx: Transaction, samples: nat) {
    !tx.stopPending ==> SameReading(tx, AfterSamples(Opening(tx), samples))
  }

  ghost predicate Inv(s: Runtime) {
    && SessionHistory.Inv(s)
    && AllInRange(s.link.trace)
    && forall c :: c in s.transactions.vals ==>
         ReadsAfter(s.transactions.vals[c], CountSamples(s.link.trace, s.transactions.vals[c].meterStart))
  }

  lemma {:induction false} AfterSamplesReads(a: Transaction, b: Transaction, n: nat)
    requires SameReading(a, b)
    ensures SameReading(AfterSamples(a, n), AfterSamples(b, n))
  {
    if n > 0 { AfterSamplesReads(a, b, n - 1); }
  }

  lemma RangeAppend(trace: seq<TraceEntry>, e: TraceEntry)
    requires AllInRange(trace) && (Metered(e) ==> InRange(e, CountSamples(trace, e.call.session)))
    ensures AllInRange(trace + [e])
  {
    var longer := trace + [e];
    forall i | 0 <= i < |longer| && Metered(longer[i])
      ensures InRange(longer[i], CountSamples(longer[..i], longer[i].call.session))
    {
      assert longer[..i] == trace[..i];
      if i == |trace| { assert trace[..i] == trace; }
    }
  }

  lemma SampleKeeps(s: Runtime, c: int)
    requires Inv(s) && Legal(s, Sample(c))
    ensures AllInRange(Play(s, Sample(c)).link.trace)
    ensures Play(s, Sample(c)).transactions.vals[c].stopPending ||
            ReadsAfter(Play(s, Sample(c)).transactions.vals[c],
                       CountSamples(Play(s, Sample(c)).link.trace, s.transactions.vals[c].meterStart))
  {
    var tx := s.transactions.vals[c];
    assert SessionHistory.RowFits(c, tx, s.meterCounter);
    var n := CountSamples(s.link.trace, tx.meterStart);
    var tx' := AdvanceDcMeter(tx, SAMPLE_SECONDS);
    var e := Sent(s.link.now, s.link.nextUid, SampleOf(c, tx'));
    assert Play(s, Sample(c)).link.trace == s.link.trace + [e];
    CountAppend(s.link.trace, e, tx.meterStart);
    SamplesInRange(Opening(tx), n + 1);
    assert SameReading(tx', AfterSamples(Opening(tx), n + 1));
    RangeAppend(s.link.trace, e);
  }

  lemma StopReading(tx: Transaction, n: nat, reason: StopReason)
    requires SameReading(tx, AfterSamples(Opening(tx), n))
    ensures StoppedRow(tx, reason).meterStop.Some?
    ensures 50 * n + 25 <= StoppedRow(tx, reason).meterStop.value - tx.meterStart <= 250 * n + 125
  {
    WholeSession(Opening(tx), n, reason);
    assert StoppedRow(tx, reason).meterStop == StoppedRow(AfterSamples(Opening(tx), n), reason).meterStop;
  }

  lemma StopKeeps(s: Runtime, c: int, reason: StopReason)
    requires Inv(s) && Legal(s, Stop(c, reason))
    ensures AllInRange(Play(s, Stop(c, reason)).link.trace)
  {
    var tx := s.transactions.vals[c];
    var n := CountSamples(s.link.trace, tx.meterStart);
    var tx' := StoppedRow(tx, reason);
    var e := Sent(s.link.now, s.link.nextUid, StopFrameOf(tx'));
    assert Play(s, Stop(c, reason)).link.trace == s.link.trace + [e];
    StopReading(tx, n, reason);
    RangeAppend(s.link.trace, e);
  }

  /** Rows other than the one a move touches keep their count and their reading. */
  lemma OthersRead(s: Runtime, m: Move, c: int)
    requires Inv(s) && Legal(s, m) && c in Play(s, m).transactions.vals && c in s.transactions.vals
    requires !(m.Sample? && m.sampled == c) && !(m.Begin? && m.begun == c)
    ensures ReadsAfter(Play(s, m).transactions.vals[c],
                       CountSamples(Play(s, m).link.trace, Play(s, m).transactions.vals[c].meterStart))
  {
    OtherRowStays(s, m, c);
    OtherCountStays(s, m, c);
  }

  lemma OtherRowStays(s: Runtime, m: Move, c: int)
    requires Legal(s, m) && c in Play(s, m).transactions.vals && c in s.transactions.vals
    requires !(m.Sample? && m.sampled == c) && !(m.Begin? && m.begun == c)
    ensures var a, b := s.transactions.vals[c], Play(s, m).transactions.vals[c];
            && b.meterStart == a.meterStart && Opening(b) == Opening(a)
            && (!b.stopPending ==> !a.stopPending && SameReading(b, a))
  {
  }

  lemma OtherCountStays(s: Runtime, m: Move, c: int)
    requires Inv(s) && Legal(s, m) && c in s.transactions.vals && !(m.Sample? && m.sampled == c)
    ensures CountSamples(Play(s, m).link.trace, s.transactions.vals[c].meterStart)
         == CountSamples(s.link.trace, s.transactions.vals[c].meterStart)
  {
    LinkFollows(s, m);
    if OnLink(s, m).Some? {
      CountGrows(s.link, OnLink(s, m).value, s.transactions.vals[c].meterStart);
    }
  }

  lemma CountGrows(l: Link, m: LinkMove, session: nat)
    requires LinkLegal(l, m)
    ensures CountSamples(LinkPlay(l, m).trace, session) ==
            CountSamples(l.trace, session) + if |Added(l, m)| > 0 && IsSample(Added(l, m)[0], session) then 1 else 0
  {
    TraceGrowsBy(l, m);
    var more := Added(l, m);
    if |more| > 0 {
      CountAppend(l.trace, more[0], session);
      assert more == [more[0]];
    } else {
      assert l.trace + more == l.trace;
    }
  }

  lemma BegunReads(s: Runtime, c: int, idTag: string)
    requires Inv(s) && Legal(s, Begin(c, idTag))
    ensures ReadsAfter(Play(s, Begin(c, idTag)).transactions.vals[c],
                       CountSamples(Play(s, Begin(c, idTag)).link.trace, Play(s, Begin(c, idTag)).transactions.vals[c].meterStart))
  {
    var t := Play(s, Begin(c, idTag));
    var e := Sent(s.link.now, s.link.nextUid, StartTransaction(c, idTag, s.meterCounter + 100));
    assert t.link.trace == s.link.trace + [e];
    NoneCounted(s.link.trace, s.meterCounter + 100);
    CountAppend(s.link.trace, e, s.meterCounter + 100);
  }

  lemma TraceInRange(s: Runtime, m: Move)
    requires Inv(s) && Legal(s, m)
    ensures AllInRange(Play(s, m).link.trace)
  {
    if m.Sample? {
      SampleKeeps(s, m.sampled);
    } else if m.Stop? {
      StopKeeps(s, m.stopped, m.reason);
    } else {
      LinkFollows(s, m);
      if OnLink(s, m).Some? {
        TraceGrowsBy(s.link, OnLink(s, m).value);
        var more := Added(s.link, OnLink(s, m).value);
        if |more| > 0 {
          assert more == [more[0]];
          RangeAppend(s.link.trace, more[0]);
        } else {
          assert s.link.trace + more == s.link.trace;
        }
      }
    }
  }

  lemma MoveKeeps(s: Runtime, m: Move)
    requires Inv(s) && Legal(s, m) && Allowed(s, m, CALM)
    ensures Inv(Play(s, m))
  {
    SessionHistory.MoveKeeps(s, m);
    TraceInRange(s, m);
    var t := Play(s, m);
    forall c | c in t.transactions.vals
      ensures ReadsAfter(t.transactions.vals[c], CountSamples(t.link.trace, t.transactions.vals[c].meterStart))
    {
      if m.Sample? && m.sampled == c {
        SampleKeeps(s, c);
      } else if m.Begin? && m.begun == c {
        BegunReads(s, c, m.idTag);
      } else {
        OthersRead(s, m, c);
      }
    }
  }

  /** Over every calm run: after `n` samples a StopTransaction reports between 50n + 25 and
      250n + 125 Wh, and the next sample between 50(n + 1) and 250(n + 1) Wh. */
  lemma RegistersInRange(ss: seq<Runtime>, es: seq<Event>, i: nat)
    requires IsRunWithin(ss, es, CALM) && i < |ss|
    ensures AllInRange(ss[i].link.trace)
  {
    forall s: Runtime, m: Move | Inv(s) && Legal(s, m) && Allowed(s, m, CALM) ensures Inv(Play(s, m)) {
      MoveKeeps(s, m);
    }
    KeptByRun(Inv, ss, es, i, CALM);
  }
}
