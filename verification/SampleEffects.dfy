/** What a sample of the meter makes of a row and sends, and what the sampling timer sends for the
    whole table, said without the code's own steps. */
module SampleEffects {
  import opened Wrappers
  import opened OrderedMaps
  import opened ChargePointTypes
  import opened DcMeter
  import opened MeterReading
  import opened ChargePointModel
  import opened Moves
  import opened MovesCover
  import opened StoreEffects
  import SessionHistory

  // ----- One sample -----

  /** The frame that reports a row. */
  ghost predicate Reports(call: OutCall, c: int, row: Transaction) {
    && call.MeterValues? && row.transactionId.Some?
    && call.connectorId == c && call.transactionId == row.transactionId.value
    && call.energy == row.meterCurrent && call.powerW == row.powerW && call.current == row.current
    && call.voltage == row.voltage && call.soc == row.soc && call.session == row.meterStart
  }

  ghost predicate Rest(s: Runtime, t: Runtime) {
    t.connectorStates == s.connectorStates && t.tasks == s.tasks && t.meterCounter == s.meterCounter
  }

  /** Accepted and open, the row is read ten seconds on and the one call sent reports it; otherwise
      nothing happens. */
  ghost predicate Samples(s: Runtime, t: Runtime, c: int) {
    if !(s.link.registration == Accepted && s.link.isOpen) then t == s
    else
      && c in s.transactions.vals && c in t.transactions.vals && t.transactions.keys == s.transactions.keys
      && OtherRowsStay(s, t, c) && Rest(s, t) && t.meterValuesTimer == s.meterValuesTimer
      && Reads(s.transactions.vals[c], t.transactions.vals[c], 10) && OnlyReads(s.transactions.vals[c], t.transactions.vals[c])
      && exists call :: Says(s, t, [call]) && Reports(call, c, t.transactions.vals[c])
  }

  lemma SampleEffect(s: Runtime, c: int)
    requires c in s.transactions.vals && s.transactions.vals[c].transactionId.Some?
    ensures Samples(s, SendMeterValues(s, c), c)
  {
    if Registered(s.link) {
      var tx := AdvanceDcMeter(s.transactions.vals[c], SAMPLE_SECONDS);
      var s1 := WithTransaction(s, c, tx);
      MeterEffect(s.transactions.vals[c], SAMPLE_SECONDS);
      FrameSays(s1, SampleOf(c, tx), None, None);
      SaysBeside(s1, s, SendMeterValues(s, c), SendMeterValues(s, c), [SampleOf(c, tx)]);
      assert Reports(SampleOf(c, tx), c, tx);
    }
  }

  // ----- The button and the trigger -----

  /** A row with an id whose stop was not sent is sampled; otherwise nothing happens. */
  ghost predicate SamplesLive(s: Runtime, t: Runtime, c: int) {
    if c in s.transactions.vals && s.transactions.vals[c].transactionId.Some? && !s.transactions.vals[c].stopPending
    then Samples(s, t, c) else t == s
  }

  lemma SampleLiveEffect(s: Runtime, c: int)
    ensures SamplesLive(s, TriggeredMeterValues(s, c), c)
  {
    if c in s.transactions.vals && Stoppable(s.transactions.vals[c]) { SampleEffect(s, c); }
  }

  // ----- The sampling timer -----

  predicate Due(s: Runtime, k: int) {
    k in s.transactions.vals && s.transactions.vals[k].status == TxCharging && s.transactions.vals[k].transactionId.Some?
  }

  /** The charging rows with an id, in the order of `keys`. */
  function DueKeys(s: Runtime, keys: seq<int>): seq<int> {
    if keys == [] then []
    else (if Due(s, keys[0]) then [keys[0]] else []) + DueKeys(s, keys[1..])
  }

  /** One call a row, in that order. */
  ghost predicate AllReport(t: Runtime, calls: seq<OutCall>, due: seq<int>) {
    && |calls| == |due|
    && forall i :: 0 <= i < |due| ==> due[i] in t.transactions.vals && Reports(calls[i], due[i], t.transactions.vals[due[i]])
  }

  /** The charging rows with an id among `keys` are read ten seconds on, and no other row moves. */
  ghost predicate AllRead(s: Runtime, t: Runtime, keys: seq<int>) {
    && t.transactions.keys == s.transactions.keys && t.transactions.vals.Keys == s.transactions.vals.Keys && Rest(s, t)
    && t.meterValuesTimer == s.meterValuesTimer
    && forall k {:trigger RowAfter(s, t, k, keys)} :: k in s.transactions.vals ==> RowAfter(s, t, k, keys)
  }

  ghost predicate RowAfter(s: Runtime, t: Runtime, k: int, keys: seq<int>)
    requires k in s.transactions.vals
  {
    && k in t.transactions.vals
    && if k in keys && Due(s, k) then
         Reads(s.transactions.vals[k], t.transactions.vals[k], 10) && OnlyReads(s.transactions.vals[k], t.transactions.vals[k])
       else t.transactions.vals[k] == s.transactions.vals[k]
  }

  /** The calls sent are one for each of them, in table order, and no other. */
  ghost predicate AllSaid(s: Runtime, t: Runtime, keys: seq<int>) {
    exists calls :: Says(s, t, calls) && AllReport(t, calls, DueKeys(s, keys))
  }

  ghost predicate SamplesAll(s: Runtime, t: Runtime, keys: seq<int>) {
    if !(s.link.registration == Accepted && s.link.isOpen) then t == s
    else AllRead(s, t, keys) && AllSaid(s, t, keys)
  }

  lemma {:induction false} SameDue(s: Runtime, t: Runtime, keys: seq<int>)
    requires forall k :: k in keys ==> (Due(s, k) <==> Due(t, k))
    ensures DueKeys(s, keys) == DueKeys(t, keys)
    ensures forall k :: k in DueKeys(s, keys) ==> k in keys && Due(s, k)
  {
    if keys != [] {
      SameDue(s, t, keys[1..]);
    }
  }

  lemma {:induction false} SampleAllEffect(s: Runtime, keys: seq<int>)
    requires NoDuplicates(keys)
    ensures SamplesAll(s, SampleAll(s, keys), keys)
    decreases keys
  {
    var t := SampleAll(s, keys);
    if keys == [] {
      SaysNothing(s, s);
      assert AllReport(s, [], []);
    } else if !Due(s, keys[0]) {
      SampleAllEffect(s, keys[1..]);
      if Registered(s.link) { SampleSkips(s, t, keys); }
    } else {
      var s1 := SendMeterValues(s, keys[0]);
      SampleEffect(s, keys[0]);
      SampleAllEffect(s1, keys[1..]);
      if Registered(s.link) {
        FirstRead(s, s1, t, keys);
        FirstSaid(s, s1, t, keys);
      }
    }
  }

  lemma SampleSkips(s: Runtime, t: Runtime, keys: seq<int>)
    requires keys != [] && !Due(s, keys[0]) && AllRead(s, t, keys[1..]) && AllSaid(s, t, keys[1..])
    ensures AllRead(s, t, keys) && AllSaid(s, t, keys)
  {
    assert DueKeys(s, keys) == DueKeys(s, keys[1..]);
    forall k | k in s.transactions.vals ensures RowAfter(s, t, k, keys) {
      assert RowAfter(s, t, k, keys[1..]);
      assert k in keys <==> k == keys[0] || k in keys[1..];
    }
  }

  lemma FirstRead(s: Runtime, s1: Runtime, t: Runtime, keys: seq<int>)
    requires NoDuplicates(keys) && keys != [] && Due(s, keys[0]) && Registered(s.link)
    requires Samples(s, s1, keys[0]) && AllRead(s1, t, keys[1..])
    ensures AllRead(s, t, keys)
  {
    var first, rest := keys[0], keys[1..];
    assert first !in rest;
    SameKeys(s, s1, first);
    forall k | k in s.transactions.vals ensures RowAfter(s, t, k, keys) {
      assert k in keys <==> k == first || k in rest;
      assert RowAfter(s1, t, k, rest);
      if k != first { assert s1.transactions.vals[k] == s.transactions.vals[k]; }
    }
  }

  lemma SameKeys(s: Runtime, s1: Runtime, c: int)
    requires c in s.transactions.vals && c in s1.transactions.vals && OtherRowsStay(s, s1, c)
    ensures s1.transactions.vals.Keys == s.transactions.vals.Keys
  {
    forall k ensures k in s1.transactions.vals.Keys <==> k in s.transactions.vals.Keys { }
  }

  lemma FirstSaid(s: Runtime, s1: Runtime, t: Runtime, keys: seq<int>)
    requires NoDuplicates(keys) && keys != [] && Due(s, keys[0]) && Registered(s.link)
    requires Samples(s, s1, keys[0]) && AllRead(s1, t, keys[1..]) && AllSaid(s1, t, keys[1..])
    ensures AllSaid(s, t, keys)
  {
    var k, rest := keys[0], keys[1..];
    assert k !in rest;
    var call :| Says(s, s1, [call]) && Reports(call, k, s1.transactions.vals[k]);
    var calls :| Says(s1, t, calls) && AllReport(t, calls, DueKeys(s1, rest));
    SameDue(s, s1, rest);
    SaysVia(s, s1, t, [call], calls);
    assert RowAfter(s1, t, k, rest);
    assert DueKeys(s, keys) == [k] + DueKeys(s1, rest);
    AllReportFirst(t, call, calls, k, DueKeys(s1, rest));
  }

  lemma AllReportFirst(t: Runtime, call: OutCall, calls: seq<OutCall>, k: int, due: seq<int>)
    requires AllReport(t, calls, due) && k in t.transactions.vals && Reports(call, k, t.transactions.vals[k])
    ensures AllReport(t, [call] + calls, [k] + due)
  {
  }

  /** The tick: the timer is set on by ten seconds and the table sampled. */
  ghost predicate Ticks(s: Runtime, t: Runtime)
    requires s.meterValuesTimer.Some?
  {
    SamplesAll(s.(meterValuesTimer := Some(s.meterValuesTimer.value + 10000)), t, s.transactions.keys)
  }

  lemma TickEffect(s: Runtime)
    requires s.meterValuesTimer.Some? && NoDuplicates(s.transactions.keys)
    ensures Ticks(s, FireMeterTimer(s))
  {
    SampleAllEffect(s.(meterValuesTimer := Some(s.meterValuesTimer.value + SAMPLE_PERIOD)), s.transactions.keys);
  }

  // ----- Over every run -----

  /** What a frame reports fits together: charge, power, and voltage times current (both in tenths) within
      25.2 W of the power. */
  predicate Plausible(e: TraceEntry) {
    e.Sent? && e.call.MeterValues? ==>
      && 21 <= e.call.soc <= 95 && 18000 <= e.call.powerW <= 90000
      && -2520 <= e.call.voltage * e.call.current - 100 * e.call.powerW <= 2520
  }

  ghost predicate PlausibleInv(s: Runtime) {
    && (forall e :: e in s.link.trace ==> Plausible(e))
    && (forall c :: c in s.transactions.vals ==> 20 <= s.transactions.vals[c].soc <= 95)
  }

  lemma SampleIsPlausible(tx: Transaction, at: nat, uid: nat, c: int)
    requires 20 <= tx.soc <= 95 && tx.transactionId.Some?
    ensures Plausible(Sent(at, uid, SampleOf(c, AdvanceDcMeter(tx, SAMPLE_SECONDS))))
    ensures 20 <= AdvanceDcMeter(tx, SAMPLE_SECONDS).soc <= 95
  {
    var t := AdvanceDcMeter(tx, SAMPLE_SECONDS);
    MeterEffect(tx, SAMPLE_SECONDS);
    assert t.voltage <= 5040;
    assert t.current * t.voltage == t.voltage * t.current;
  }

  lemma MoveKeepsPlausible(s: Runtime, m: Move)
    requires PlausibleInv(s) && Legal(s, m)
    ensures PlausibleInv(Play(s, m))
  {
    LinkFollows(s, m);
    if m.Sample? {
      SampleIsPlausible(s.transactions.vals[m.sampled], s.link.now, s.link.nextUid, m.sampled);
    }
    if OnLink(s, m).Some? {
      PlausibleEntries(s, m);
    }
  }

  lemma PlausibleEntries(s: Runtime, m: Move)
    requires PlausibleInv(s) && Legal(s, m) && OnLink(s, m).Some?
    requires m.Sample? ==> Plausible(Sent(s.link.now, s.link.nextUid, SampleOf(m.sampled, AdvanceDcMeter(s.transactions.vals[m.sampled], SAMPLE_SECONDS))))
    ensures forall e :: e in Play(s, m).link.trace ==> Plausible(e)
  {
    LinkFollows(s, m);
    SessionHistory.TraceGrowsBy(s.link, OnLink(s, m).value);
    forall e | e in Play(s, m).link.trace ensures Plausible(e) {
      assert e in s.link.trace || e in SessionHistory.Added(s.link, OnLink(s, m).value);
    }
  }

  /** Every MeterValues of every run. */
  lemma SamplesArePlausible(ss: seq<Runtime>, es: seq<Event>, i: nat, e: TraceEntry)
    requires IsRun(ss, es) && i < |ss| && e in ss[i].link.trace
    ensures Plausible(e)
  {
    forall s: Runtime, m: Move | PlausibleInv(s) && Legal(s, m) && Allowed(s, m, ANY) ensures PlausibleInv(Play(s, m)) {
      MoveKeepsPlausible(s, m);
    }
    assert IsRunWithin(ss, es, ANY);
    KeptByRun(PlausibleInv, ss, es, i, ANY);
  }
}
