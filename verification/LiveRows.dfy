/** The table side of a disciplined run: a transaction that has its id and whose
    stop was not sent is Charging on its connector, and no event that neither asks
    nor answers takes such a transaction, or one still waiting for its id, away. */
module LiveRows {
  import opened Wrappers
  import opened OrderedMaps
  import opened ChargePointTypes
  import opened DcMeter
  import opened ChargePointModel
  import opened ChargingInvariant

  ghost predicate LiveIsCharging(s: Runtime) {
    forall c :: c in s.transactions.vals ==>
      && c in s.connectorStates.vals
      && (Stoppable(s.transactions.vals[c]) ==> s.connectorStates.vals[c].status == Charging)
  }

  ghost predicate TableOk(s: Runtime) {
    s.transactions.Valid() && RowsOk(s) && LiveIsCharging(s)
  }

  function Waiting(s: Runtime): seq<int> {
    Select(s.transactions.keys, s.transactions.vals, Unidentified)
  }

  /** Same transaction: same session, same id. */
  predicate SameSession(a: Transaction, b: Transaction) {
    a.meterStart == b.meterStart && a.transactionId == b.transactionId
  }

  /** No transaction with an id and no stop pending has left the table. */
  ghost predicate LiveStay(s: Runtime, t: Runtime) {
    forall c :: c in s.transactions.vals && Stoppable(s.transactions.vals[c]) ==>
      c in t.transactions.vals && SameSession(s.transactions.vals[c], t.transactions.vals[c])
  }

  /** What every event that is neither an ask nor an answer does to the table. */
  ghost predicate Tame(s: Runtime, t: Runtime) {
    && TableOk(t) && Waiting(t) == Waiting(s) && LiveStay(s, t)
    && (forall c :: c in s.connectorStates.vals ==> c in t.connectorStates.vals)
    && (forall c :: c in t.transactions.vals ==> c in s.transactions.vals)
  }

  // ----- Events that leave the transactions alone -----

  /** No connector disappears and none stops being Charging. */
  ghost predicate ChargingStays(s: Runtime, t: Runtime) {
    && t.transactions == s.transactions
    && forall c :: c in s.connectorStates.vals ==>
         && c in t.connectorStates.vals
         && (s.connectorStates.vals[c].status == Charging ==> t.connectorStates.vals[c].status == Charging)
  }

  lemma ConnectorsOnly(s: Runtime, t: Runtime)
    requires TableOk(s) && ChargingStays(s, t)
    ensures Tame(s, t)
  {
  }

  lemma {:induction false} AvailabilityStays(s: Runtime, ids: seq<int>, availability: Availability)
    ensures ChargingStays(s, ApplyAvailabilityAll(s, ids, availability).0)
    decreases ids
  {
    if ids != [] {
      var s1 := ApplyAvailability(s, ids[0], availability);
      assert ChargingStays(s, s1);
      AvailabilityStays(s1, ids[1..], availability);
    }
  }

  lemma {:induction false} ReportStays(s: Runtime, connectors: seq<int>)
    ensures ChargingStays(s, ReportAll(s, connectors))
    decreases connectors
  {
    if connectors != [] {
      ReportStays(SendStatus(EnsureConnector(s, connectors[0]), connectors[0], Available, false), connectors[1..]);
    }
  }

  lemma {:induction false} ReleaseStays(s: Runtime, keys: seq<int>)
    ensures ReleaseAll(s, keys).transactions == s.transactions
    ensures forall c :: c in s.connectorStates.vals ==> c in ReleaseAll(s, keys).connectorStates.vals
    decreases keys
  {
    if keys != [] {
      var cs := ConnectorOf(s, keys[0]);
      ReleaseStays(SendStatus(WithConnector(s, keys[0], Released(cs)), keys[0], Available, false), keys[1..]);
      ReleaseStays(s, keys[1..]);
    }
  }

  // ----- Events that rewrite rows in place -----

  /** Every row is still there, for the same transaction, and no stopped one came back. */
  ghost predicate RowsStay(s: Runtime, t: Runtime) {
    && t.transactions.keys == s.transactions.keys
    && t.transactions.vals.Keys == s.transactions.vals.Keys
    && (forall c :: c in s.connectorStates.vals ==> c in t.connectorStates.vals)
    && forall c :: c in s.transactions.vals ==> SameSession(s.transactions.vals[c], t.transactions.vals[c])
  }

  lemma RowsStayIsTame(s: Runtime, t: Runtime)
    requires TableOk(s) && RowsStay(s, t) && TableOk(t)
    ensures Tame(s, t)
  {
    SelectSameOn(s.transactions.keys, s.transactions.vals, t.transactions.vals, Unidentified);
  }

  lemma StopStays(s: Runtime, c: int, reason: StopReason)
    requires TableOk(s)
    ensures RowsStay(s, StopTransactionOn(s, c, reason)) && TableOk(StopTransactionOn(s, c, reason))
    ensures CanStop(s, c) ==> StopTransactionOn(s, c, reason).transactions.vals[c].stopPending
  {
  }

  lemma {:induction false} StopAllStays(s: Runtime, keys: seq<int>, reason: StopReason)
    requires TableOk(s)
    ensures RowsStay(s, StopAll(s, keys, reason)) && TableOk(StopAll(s, keys, reason))
    decreases keys
  {
    if keys != [] {
      StopStays(s, keys[0], reason);
      StopAllStays(StopTransactionOn(s, keys[0], reason), keys[1..], reason);
      StopAllStays(s, keys[1..], reason);
    }
  }

  lemma SampleStays(s: Runtime, c: int)
    requires TableOk(s) && c in s.transactions.vals && s.transactions.vals[c].transactionId.Some?
    ensures RowsStay(s, SendMeterValues(s, c)) && TableOk(SendMeterValues(s, c))
  {
  }

  lemma {:induction false} SampleAllStays(s: Runtime, keys: seq<int>)
    requires TableOk(s)
    ensures RowsStay(s, SampleAll(s, keys)) && TableOk(SampleAll(s, keys))
    decreases keys
  {
    if keys != [] {
      if keys[0] in s.transactions.vals && Sampled(s.transactions.vals[keys[0]]) {
        SampleStays(s, keys[0]);
        SampleAllStays(SendMeterValues(s, keys[0]), keys[1..]);
      } else {
        SampleAllStays(s, keys[1..]);
      }
    }
  }

  // ----- Events that take a row away -----

  /** Taking away a row that has its id and is not live disturbs nothing. */
  lemma DropIsTame(s: Runtime, t: Runtime, c: int)
    requires TableOk(s) && c in s.transactions.vals
    requires !Unidentified(s.transactions.vals[c]) && !Stoppable(s.transactions.vals[c])
    requires t.transactions == Remove(s.transactions, c)
    requires forall d :: d in s.connectorStates.vals ==>
               && d in t.connectorStates.vals
               && (d != c && s.connectorStates.vals[d].status == Charging ==> t.connectorStates.vals[d].status == Charging)
    ensures Tame(s, t)
  {
    assert Waiting(t) == Waiting(s) by {
      SelectWithout(s.transactions.keys, c, s.transactions.vals, Unidentified);
      WithoutAbsent(Waiting(s), c);
    }
    assert t.transactions.vals == s.transactions.vals - {c};
  }

  lemma FinishIsTame(s: Runtime, c: int)
    requires TableOk(s) && c in s.transactions.vals && s.transactions.vals[c].stopPending
    ensures Tame(s, FinishStopped(s, c))
  {
    DropIsTame(s, FinishStopped(s, c), c);
  }

  lemma StopReplyIsTame(s: Runtime)
    requires TableOk(s)
    ensures Tame(s, StopReply(s))
  {
    var found := Find(s.transactions.keys, s.transactions.vals, StopIsPending);
    if found.Some? {
      FinishIsTame(s, found.value);
    }
  }

  lemma UnlockIsTame(s: Runtime, target: Option<int>)
    requires TableOk(s)
    requires target.Some? ==> target.value !in Waiting(s)
    ensures Tame(s, HandleUnlockConnector(s, target).0)
  {
    if target.Some? && target.value in s.connectorStates.vals {
      var c := target.value;
      var t := HandleUnlockConnector(s, target).0;
      var shown := s.connectorStates.vals[c].status;
      if shown == Preparing || shown == Finishing {
        UnlockDrops(s, c);
        if c in s.transactions.vals {
          DropIsTame(s, t, c);
        } else {
          WithoutAbsent(s.transactions.keys, c);
          assert t.transactions.vals == s.transactions.vals;
          ConnectorsOnly(s, t);
        }
      } else {
        ConnectorsOnly(s, t);
      }
    } else {
      ConnectorsOnly(s, s);
    }
  }

  lemma UnlockDrops(s: Runtime, c: int)
    requires c in s.connectorStates.vals
    requires s.connectorStates.vals[c].status == Preparing || s.connectorStates.vals[c].status == Finishing
    ensures var t := HandleUnlockConnector(s, Some(c)).0;
            && t.transactions == Remove(s.transactions, c)
            && forall d :: d in s.connectorStates.vals ==>
                 d in t.connectorStates.vals && (d != c ==> t.connectorStates.vals[d] == s.connectorStates.vals[d])
  {
  }
}
