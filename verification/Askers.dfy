/** Which connectors are waiting for a StartTransaction reply, in sending order,
    and which calls are Authorize requests still unanswered.  Events that neither
    ask nor bring such an answer leave both unchanged. */
module Askers {
  import opened Wrappers
  import opened OrderedMaps
  import opened ChargePointTypes
  import opened ChargePointModel
  import opened Moves
  import opened MovesCover

  predicate IsStartCall(call: PendingCall) { call.action.StartTransactionAction? }

  predicate IsAuthorizeCall(call: PendingCall) { call.action.AuthorizeAction? }

  /** The connectors of the outstanding StartTransaction calls, oldest first. */
  function AskersIn(keys: seq<int>, vals: map<int, PendingCall>): seq<int> {
    if keys == [] then []
    else
      var rest := AskersIn(keys[1..], vals);
      if Picked(vals, keys[0], IsStartCall) then [vals[keys[0]].connectorId.GetOr(0)] + rest else rest
  }

  function AskersOf(l: Link): seq<int> {
    AskersIn(l.pendingCalls.keys, l.pendingCalls.vals)
  }

  function FirstStart(l: Link): Option<int> {
    Find(l.pendingCalls.keys, l.pendingCalls.vals, IsStartCall)
  }

  ghost function AuthorizeCalls(l: Link): map<int, PendingCall> {
    map u | u in l.pendingCalls.vals && IsAuthorizeCall(l.pendingCalls.vals[u]) :: l.pendingCalls.vals[u]
  }

  ghost predicate PendingOk(l: Link) {
    && l.pendingCalls.Valid()
    && forall u :: u in l.pendingCalls.vals ==>
         u < l.nextUid && (Asks(l.pendingCalls.vals[u]) ==> l.pendingCalls.vals[u].connectorId.Some?)
  }

  // ----- How AskersIn moves -----

  lemma {:induction false} AskersAppend(keys: seq<int>, k: int, vals: map<int, PendingCall>, call: PendingCall)
    requires k !in keys
    ensures AskersIn(keys + [k], vals[k := call]) ==
            AskersIn(keys, vals) + (if IsStartCall(call) then [call.connectorId.GetOr(0)] else [])
  {
    if keys == [] {
      assert [k][1..] == [];
    } else {
      AskersAppend(keys[1..], k, vals, call);
      assert (keys + [k])[1..] == keys[1..] + [k];
    }
  }

  lemma {:induction false} AskersDropOther(keys: seq<int>, vals: map<int, PendingCall>, u: int)
    requires u in vals ==> !IsStartCall(vals[u])
    ensures AskersIn(Without(keys, u), vals - {u}) == AskersIn(keys, vals)
  {
    if keys != [] {
      AskersDropOther(keys[1..], vals, u);
    }
  }

  lemma {:induction false} AskersGone(keys: seq<int>, vals: map<int, PendingCall>, u: int)
    requires u !in keys
    ensures AskersIn(keys, vals - {u}) == AskersIn(keys, vals)
  {
    if keys != [] {
      AskersGone(keys[1..], vals, u);
    }
  }

  /** Answering the oldest StartTransaction takes the first asker off the list. */
  lemma {:induction false} AskersDropFirst(keys: seq<int>, vals: map<int, PendingCall>, u: int)
    requires NoDuplicates(keys) && Find(keys, vals, IsStartCall) == Some(u)
    ensures AskersIn(keys, vals) ==
            [vals[u].connectorId.GetOr(0)] + AskersIn(Without(keys, u), vals - {u})
  {
    if keys[0] == u {
      WithoutHead(keys);
      AskersGone(keys[1..], vals, u);
    } else {
      AskersDropFirst(keys[1..], vals, u);
    }
  }

  lemma {:induction false} AskerListed(keys: seq<int>, vals: map<int, PendingCall>, u: int)
    requires u in keys && Picked(vals, u, IsStartCall)
    ensures vals[u].connectorId.GetOr(0) in AskersIn(keys, vals)
  {
    if keys[0] != u {
      AskerListed(keys[1..], vals, u);
    }
  }

  // ----- Link moves -----

  lemma TransmitRecords(l: Link, call: OutCall, c: Option<int>, idTag: Option<string>)
    requires l.isOpen
    ensures Transmit(l, call, c, idTag).pendingCalls ==
            Put(l.pendingCalls, l.nextUid, PendingCall(call.ActionOf(), c, idTag))
    ensures Transmit(l, call, c, idTag).nextUid == l.nextUid + 1
  {
  }

  lemma PutFresh(l: Link, l': Link, call: PendingCall)
    requires PendingOk(l) && (Asks(call) ==> call.connectorId.Some?)
    requires l'.pendingCalls == Put(l.pendingCalls, l.nextUid, call) && l'.nextUid == l.nextUid + 1
    ensures PendingOk(l')
    ensures AskersOf(l') == AskersOf(l) + (if IsStartCall(call) then [call.connectorId.GetOr(0)] else [])
    ensures AuthorizeCalls(l') ==
            if IsAuthorizeCall(call) then AuthorizeCalls(l)[l.nextUid as int := call] else AuthorizeCalls(l)
  {
    assert l.nextUid !in l.pendingCalls.keys;
    AskersAppend(l.pendingCalls.keys, l.nextUid, l.pendingCalls.vals, call);
  }

  lemma SentKeeps(l: Link, call: OutCall, c: Option<int>, idTag: Option<string>)
    requires PendingOk(l) && l.isOpen
    requires call.Authorize? || call.StartTransaction? ==> c.Some?
    ensures PendingOk(Transmit(l, call, c, idTag))
    ensures AskersOf(Transmit(l, call, c, idTag)) ==
            AskersOf(l) + (if call.StartTransaction? then [c.GetOr(0)] else [])
    ensures AuthorizeCalls(Transmit(l, call, c, idTag)) ==
            if call.Authorize? then AuthorizeCalls(l)[l.nextUid as int := PendingCall(AuthorizeAction, c, idTag)]
            else AuthorizeCalls(l)
  {
    TransmitRecords(l, call, c, idTag);
    PutFresh(l, Transmit(l, call, c, idTag), PendingCall(call.ActionOf(), c, idTag));
  }

  lemma AnsweredKeeps(l: Link, u: int)
    requires PendingOk(l)
    ensures PendingOk(l.(pendingCalls := Remove(l.pendingCalls, u)))
    ensures u in l.pendingCalls.vals && !IsStartCall(l.pendingCalls.vals[u]) ==>
              AskersOf(l.(pendingCalls := Remove(l.pendingCalls, u))) == AskersOf(l)
    ensures u !in l.pendingCalls.vals ==> AskersOf(l.(pendingCalls := Remove(l.pendingCalls, u))) == AskersOf(l)
    ensures AuthorizeCalls(l.(pendingCalls := Remove(l.pendingCalls, u))) == AuthorizeCalls(l) - {u}
  {
    if u in l.pendingCalls.vals ==> !IsStartCall(l.pendingCalls.vals[u]) {
      AskersDropOther(l.pendingCalls.keys, l.pendingCalls.vals, u);
    }
  }

  /** The view a quiet event must leave unchanged. */
  ghost predicate SameAsks(l: Link, askers: seq<int>, authorizing: map<int, PendingCall>) {
    PendingOk(l) && AskersOf(l) == askers && AuthorizeCalls(l) == authorizing
  }

  lemma LinkKeeps(l: Link, m: LinkMove, askers: seq<int>, authorizing: map<int, PendingCall>)
    requires SameAsks(l, askers, authorizing) && LinkLegal(l, m)
    requires !AsksOrAnswers(l, m) && (m.LSend? ==> !m.call.StartTransaction?)
    ensures SameAsks(LinkPlay(l, m), askers, authorizing)
  {
    match m {
      case LSend(call, c, idTag) => SentKeeps(l, call, c, idTag);
      case LAnswered(u) =>
        AnsweredKeeps(l, u);
        assert u !in AuthorizeCalls(l);
      case LFire => FireKeeps(l, askers, authorizing);
      case _ => SameCalls(l, LinkPlay(l, m), askers, authorizing);
    }
  }

  lemma SameCalls(l: Link, l': Link, askers: seq<int>, authorizing: map<int, PendingCall>)
    requires SameAsks(l, askers, authorizing) && l'.pendingCalls == l.pendingCalls && l'.nextUid == l.nextUid
    ensures SameAsks(l', askers, authorizing)
  {
    assert AuthorizeCalls(l') == AuthorizeCalls(l);
  }

  lemma FireKeeps(l: Link, askers: seq<int>, authorizing: map<int, PendingCall>)
    requires SameAsks(l, askers, authorizing) && l.heartbeatTimer.Some?
    ensures SameAsks(FireHeartbeat(l), askers, authorizing)
  {
    var fired := l.(heartbeatTimer := None);
    SameCalls(l, fired, askers, authorizing);
    if l.now - l.lastMessageSentAt >= l.heartbeatTimer.value.delay && Registered(fired) {
      SentKeeps(fired, Heartbeat, None, None);
      SameCalls(Transmit(fired, Heartbeat, None, None), FireHeartbeat(l), askers, authorizing);
    } else {
      SameCalls(fired, FireHeartbeat(l), askers, authorizing);
    }
  }

  lemma QuietEvent(s: Runtime, e: Event)
    requires PendingOk(s.link) && s.transactions.Valid() && Enabled(s, e) && !AsksOrIsAnswered(s, e)
    ensures SameAsks(Apply(s, e).link, AskersOf(s.link), AuthorizeCalls(s.link))
  {
    var askers, authorizing := AskersOf(s.link), AuthorizeCalls(s.link);
    var P := (t: Runtime) => SameAsks(t.link, askers, authorizing);
    forall t: Runtime, m: Move | P(t) && Legal(t, m) && Allowed(t, m, QUIET) ensures P(Play(t, m)) {
      LinkFollows(t, m);
      if OnLink(t, m).Some? {
        LinkKeeps(t.link, OnLink(t, m).value, askers, authorizing);
      }
    }
    KeptByStep(P, s, e, QUIET);
  }
}
