/** What the commands of the CSMS achieve, at once and in their deferred half, said without the steps
    of their handlers. */
module CommandEffects {
  import opened Wrappers
  import opened OrderedMaps
  import opened ChargePointTypes
  import opened DcMeter
  import opened ChargePointModel
  import opened StoreEffects
  import opened SampleEffects

  /** The connector a command without one falls back to: the first the store knows, else the first
      of the selected charge point. */
  ghost predicate Falls(s: Runtime, detail: seq<int>, target: Option<int>) {
    && (s.connectorStates.keys != [] ==> target == Some(s.connectorStates.keys[0]))
    && (s.connectorStates.keys == [] && detail != [] ==> target == Some(detail[0]))
    && (s.connectorStates.keys == [] && detail == [] ==> target == None)
  }

  ghost predicate Targets(s: Runtime, requested: Option<int>, detail: seq<int>, target: Option<int>) {
    if requested.Some? then target == requested else Falls(s, detail, target)
  }

  // ----- RemoteStartTransaction -----

  /** Accepted only with a tag, for a connector that is Available or Preparing; then the connector keeps
      the tag and the start is deferred.  Otherwise at most the connector comes to be known. */
  ghost predicate RemoteStarts(s: Runtime, t: Runtime, idTag: string, target: Option<int>, r: ResponseStatus) {
    if idTag == "" || target.None? then t == s && r == RespRejected
    else
      var c, cs := target.value, Shown(s, target.value);
      (&& t.link == s.link && RowsStay(s, t)
       && if cs.status == Available || cs.status == Preparing then
            && r == RespAccepted && ConnectorBecomes(s, t, c, cs.(pendingRemoteStartIdTag := Some(idTag)))
            && t.tasks == s.tasks + [Task(s.link.now, RemoteStartTask(c, idTag))]
          else
            r == RespRejected && ConnectorBecomes(s, t, c, cs) && t.tasks == s.tasks)
  }

  lemma RemoteStartEffect(s: Runtime, idTag: string, requested: Option<int>, detail: seq<int>)
    ensures var (t, r) := HandleRemoteStart(s, idTag, requested, detail);
            exists target :: Targets(s, requested, detail, target) && RemoteStarts(s, t, idTag, target, r)
  {
    var target := if requested.Some? then requested else FirstConnector(s, detail);
    var (t, r) := HandleRemoteStart(s, idTag, requested, detail);
    assert Targets(s, requested, detail, target);
    assert RemoteStarts(s, t, idTag, target, r);
  }

  /** The deferred half: an Available connector is plugged in and reported Preparing; a Preparing one asks
      for authorization with the tag of the command; any other does nothing. */
  ghost predicate RunsRemoteStart(s: Runtime, t: Runtime, c: int, idTag: string) {
    var cs := Shown(s, c);
    (&& RowsStay(s, t) && t.tasks == s.tasks
     && if cs.status == Available then
          && ConnectorBecomes(s, t, c, cs.(status := Preparing, cablePluggedIn := true))
          && Says(s, t, WhenAccepted(s, StatusNotification(c, Preparing, false)) + OnSocket(s, Authorize(idTag)))
          && (s.link.isOpen ==> LastAsks(t, c, idTag))
        else if cs.status == Preparing then
          ConnectorBecomes(s, t, c, cs) && Says(s, t, OnSocket(s, Authorize(idTag))) && (s.link.isOpen ==> LastAsks(t, c, idTag))
        else
          ConnectorBecomes(s, t, c, cs) && t.link == s.link)
  }

  /** The latest call is pending as an Authorize of `c` with that tag. */
  ghost predicate LastAsks(t: Runtime, c: int, idTag: string) {
    && t.link.nextUid > 0 && (t.link.nextUid - 1) in t.link.pendingCalls.vals
    && t.link.pendingCalls.vals[t.link.nextUid - 1] == PendingCall(AuthorizeAction, Some(c), Some(idTag))
  }

  lemma SetAndReported(s: Runtime, w: Runtime, c: int, status: ConnectorStatus)
    requires w.link == s.link
    ensures Says(s, SendStatus(w, c, status, false), WhenAccepted(s, StatusNotification(c, status, false)))
    ensures SendStatus(w, c, status, false) == w.(link := SendStatus(w, c, status, false).link)
  {
    StatusSays(w, c, status, false);
    SaysBeside(w, s, SendStatus(w, c, status, false), SendStatus(w, c, status, false), WhenAccepted(s, StatusNotification(c, status, false)));
  }

  lemma AskEffect(s: Runtime, c: int, idTag: string)
    ensures var t := SendAuthorize(s, c, idTag);
            t == s.(link := t.link) && Says(s, t, OnSocket(s, Authorize(idTag))) && (s.link.isOpen ==> LastAsks(t, c, idTag))
  {
    FrameSays(s, Authorize(idTag), Some(c), Some(idTag));
  }

  lemma PluggedThenAsks(s: Runtime, c: int, idTag: string)
    requires Shown(s, c).status == Available
    ensures RunsRemoteStart(s, RunRemoteStart(s, c, idTag), c, idTag)
  {
    var w := WithConnector(EnsureConnector(s, c), c, Shown(s, c).(cablePluggedIn := true, status := Preparing));
    var s2 := SendStatus(w, c, Preparing, false);
    SetAndReported(s, w, c, Preparing);
    AskEffect(s2, c, idTag);
    SaysVia(s, s2, SendAuthorize(s2, c, idTag), WhenAccepted(s, StatusNotification(c, Preparing, false)), OnSocket(s, Authorize(idTag)));
  }

  lemma RunRemoteStartEffect(s: Runtime, c: int, idTag: string)
    ensures RunsRemoteStart(s, RunRemoteStart(s, c, idTag), c, idTag)
  {
    if Shown(s, c).status == Available {
      PluggedThenAsks(s, c, idTag);
    } else {
      var s1 := EnsureConnector(s, c);
      AskEffect(s1, c, idTag);
      SaysBeside(s1, s, SendAuthorize(s1, c, idTag), SendAuthorize(s1, c, idTag), OnSocket(s, Authorize(idTag)));
    }
  }

  // ----- RemoteStopTransaction -----

  predicate HasId(s: Runtime, c: int, id: int) {
    c in s.transactions.vals && s.transactions.vals[c].transactionId == Some(id)
  }

  /** The first in table order. */
  ghost predicate FirstWithId(s: Runtime, c: int, id: int) {
    exists i :: 0 <= i < |s.transactions.keys| && s.transactions.keys[i] == c && HasId(s, c, id)
      && forall j :: 0 <= j < i ==> !HasId(s, s.transactions.keys[j], id)
  }

  /** Accepted exactly when some transaction has that id; then the stop of the first such is deferred, and
      otherwise nothing happens. */
  ghost predicate RemoteStops(s: Runtime, t: Runtime, id: Option<int>, r: ResponseStatus) {
    if id.Some? && exists c :: c in s.transactions.keys && HasId(s, c, id.value) then
      r == RespAccepted && exists c :: FirstWithId(s, c, id.value) && t == s.(tasks := s.tasks + [Task(s.link.now, RemoteStopTask(c))])
    else
      r == RespRejected && t == s
  }

  lemma {:induction false} FoundById(s: Runtime, keys: seq<int>, id: int) returns (i: nat)
    ensures FindById(keys, s.transactions.vals, id).Some? ==>
              && i < |keys| && FindById(keys, s.transactions.vals, id) == Some(keys[i]) && HasId(s, keys[i], id)
              && forall j :: 0 <= j < i ==> !HasId(s, keys[j], id)
    ensures FindById(keys, s.transactions.vals, id).None? ==> forall k :: k in keys ==> !HasId(s, k, id)
    decreases keys
  {
    if keys == [] || HasId(s, keys[0], id) {
      i := 0;
    } else {
      var r := FoundById(s, keys[1..], id);
      i := r + 1;
      assert forall j :: 0 < j < |keys| ==> keys[j] == keys[1..][j - 1];
    }
  }

  lemma RemoteStopEffect(s: Runtime, id: Option<int>)
    ensures RemoteStops(s, HandleRemoteStop(s, id).0, id, HandleRemoteStop(s, id).1)
  {
    if id.Some? {
      var i := FoundById(s, s.transactions.keys, id.value);
      var found := FindById(s.transactions.keys, s.transactions.vals, id.value);
      if found.Some? {
        var c: int := found.value;
        assert c in s.transactions.keys && FirstWithId(s, c, id.value);
      }
    }
  }

  /** Running it stops that very transaction, with reason Remote. */
  lemma RemoteStopStopsIt(s: Runtime, c: int, id: int)
    requires FirstWithId(s, c, id) && MayStop(s, c)
    ensures var t := RunTask(s, RemoteStopTask(c), None);
            && s.link.trace <= t.link.trace && |CallsSince(s, t)| > 0
            && var last := CallsSince(s, t)[|CallsSince(s, t)| - 1];
               last.StopTransaction? && last.transactionId == id && last.reason == Remote
  {
    StopEffect(s, c, Remote);
  }

  // ----- UnlockConnector -----

  /** Only a connector that is Preparing or Finishing is freed, with its row; one that charges refuses. */
  ghost predicate Unlocks(s: Runtime, t: Runtime, target: Option<int>, r: ResponseStatus) {
    if target.None? || target.value !in s.connectorStates.vals then t == s && r == RespUnlockFailed
    else
      var c, cs := target.value, s.connectorStates.vals[target.value];
      if cs.status == Preparing || cs.status == Finishing then
        && r == RespUnlocked && RowLeaves(s, t, c)
        && ConnectorBecomes(s, t, c, cs.(status := Available, cablePluggedIn := false, pendingRemoteStartIdTag := None))
        && Says(s, t, WhenAccepted(s, StatusNotification(c, Available, false)))
        && t.tasks == s.tasks && t.meterCounter == s.meterCounter && t.meterValuesTimer == s.meterValuesTimer
      else
        t == s && r == if cs.status == Charging then RespUnlockFailed else RespUnlocked
  }

  lemma UnlockEffect(s: Runtime, target: Option<int>)
    ensures Unlocks(s, HandleUnlockConnector(s, target).0, target, HandleUnlockConnector(s, target).1)
  {
    if target.Some? && target.value in s.connectorStates.vals {
      var c: int := target.value;
      var cs := s.connectorStates.vals[c];
      if cs.status == Preparing || cs.status == Finishing {
        var w := WithConnector(WithoutTransaction(s, c), c, Released(cs));
        StatusSays(w, c, Available, false);
        SaysBeside(w, s, SendStatus(w, c, Available, false), SendStatus(w, c, Available, false),
                   WhenAccepted(s, StatusNotification(c, Available, false)));
      }
    }
  }

  // ----- Reset -----

  /** The rows a Reset stops, in the order of `keys`. */
  function Stoppables(s: Runtime, keys: seq<int>): seq<int> {
    if keys == [] then []
    else (if MayStop(s, keys[0]) then [keys[0]] else []) + Stoppables(s, keys[1..])
  }

  /** What is said for the stop of one row. */
  function StopSaid(s: Runtime, c: int, register: nat, reason: StopReason): seq<OutCall>
    requires MayStop(s, c)
  {
    (if s.link.registration == Accepted then [StatusNotification(c, Finishing, false)] else [])
    + [StopOf(s.transactions.vals[c], register, reason)]
  }

  /** For each of the rows in turn, its Finishing status and its StopTransaction with the register that
      it ends with. */
  ghost function StopsSaid(s: Runtime, t: Runtime, stopped: seq<int>, reason: StopReason): seq<OutCall>
    requires forall c :: c in stopped ==> MayStop(s, c) && c in t.transactions.vals
  {
    if stopped == [] then []
    else StopSaid(s, stopped[0], t.transactions.vals[stopped[0]].meterCurrent, reason) + StopsSaid(s, t, stopped[1..], reason)
  }

  function Timeouts(stopped: seq<int>, at: nat): seq<Task> {
    if stopped == [] then [] else [Task(at, StopTimeoutTask(stopped[0]))] + Timeouts(stopped[1..], at)
  }

  /** The rows that may be stopped are, the others are as they were; so are the connectors. */
  ghost predicate StopsRows(s: Runtime, t: Runtime, keys: seq<int>, reason: StopReason) {
    && t.transactions.keys == s.transactions.keys && t.transactions.vals.Keys == s.transactions.vals.Keys
    && t.meterCounter == s.meterCounter && t.meterValuesTimer == s.meterValuesTimer
    && forall c {:trigger StopsRow(s, t, c, keys, reason)} :: StopsRow(s, t, c, keys, reason)
  }

  ghost predicate StopsRow(s: Runtime, t: Runtime, c: int, keys: seq<int>, reason: StopReason) {
    if c in keys && MayStop(s, c) then
      && c in t.transactions.vals && StoppedAs(s.transactions.vals[c], t.transactions.vals[c], reason)
      && c in t.connectorStates.vals && t.connectorStates.vals[c] == Shown(s, c).(status := Finishing)
    else
      && (c in t.transactions.vals <==> c in s.transactions.vals)
      && (c in s.transactions.vals ==> t.transactions.vals[c] == s.transactions.vals[c])
      && (c in t.connectorStates.vals <==> c in s.connectorStates.vals)
      && (c in s.connectorStates.vals ==> t.connectorStates.vals[c] == s.connectorStates.vals[c])
  }

  lemma {:induction false} StoppablesIn(s: Runtime, keys: seq<int>)
    ensures forall c :: c in Stoppables(s, keys) <==> c in keys && MayStop(s, c)
  {
    if keys != [] { StoppablesIn(s, keys[1..]); }
  }

  ghost predicate StopsAll(s: Runtime, t: Runtime, keys: seq<int>, reason: StopReason) {
    && StopsRows(s, t, keys, reason)
    && (forall c :: c in Stoppables(s, keys) ==> MayStop(s, c) && c in t.transactions.vals)
    && Says(s, t, StopsSaid(s, t, Stoppables(s, keys), reason))
    && t.tasks == s.tasks + Timeouts(Stoppables(s, keys), s.link.now + 15000)
  }

  /** Without a type nothing happens.  With one, every row with an id and no stop pending is stopped, in
      table order, HardReset for Hard and SoftReset for Soft, if the socket is open; and the
      rest is deferred by half a second. */
  ghost predicate Resets(s: Runtime, t: Runtime, kind: Option<ResetType>, r: ResponseStatus) {
    if kind.None? then t == s && r == RespRejected
    else
      && r == RespAccepted
      && |t.tasks| > 0 && t.tasks[|t.tasks| - 1] == Task(s.link.now + 500, ResetTask)
      && StopsAll(s, t.(tasks := t.tasks[..|t.tasks| - 1]), s.transactions.keys,
                  match kind.value case Hard => HardReset case Soft => SoftReset)
  }

  lemma {:induction false} SameStoppables(s: Runtime, t: Runtime, keys: seq<int>)
    requires forall c :: c in keys ==> (MayStop(s, c) <==> MayStop(t, c))
    ensures Stoppables(s, keys) == Stoppables(t, keys)
  {
    if keys != [] { SameStoppables(s, t, keys[1..]); }
  }

  lemma {:induction false} SameStopsSaid(s: Runtime, s1: Runtime, t: Runtime, stopped: seq<int>, reason: StopReason)
    requires forall c :: c in stopped ==>
               MayStop(s, c) && MayStop(s1, c) && c in t.transactions.vals && s1.transactions.vals[c] == s.transactions.vals[c]
    requires s1.link.registration == s.link.registration
    ensures StopsSaid(s, t, stopped, reason) == StopsSaid(s1, t, stopped, reason)
  {
    if stopped != [] { SameStopsSaid(s, s1, t, stopped[1..], reason); }
  }

  /** One row stopped. */
  ghost predicate StopsOne(s: Runtime, t: Runtime, c: int, reason: StopReason) {
    && MayStop(s, c) && Stops(s, t, c, reason)
    && Says(s, t, StopSaid(s, c, t.transactions.vals[c].meterCurrent, reason))
  }

  lemma StopOneEffect(s: Runtime, c: int, reason: StopReason)
    requires MayStop(s, c)
    ensures StopsOne(s, StopTransactionOn(s, c, reason), c, reason)
  {
    StopEffect(s, c, reason);
    var t := StopTransactionOn(s, c, reason);
    if s.link.registration == Accepted {
      assert |t.link.trace| == |s.link.trace| + 2;
    }
  }

  lemma {:induction false} StopAllEffect(s: Runtime, keys: seq<int>, reason: StopReason)
    requires NoDuplicates(keys)
    ensures StopsAll(s, StopAll(s, keys, reason), keys, reason)
    decreases keys
  {
    var t := StopAll(s, keys, reason);
    StoppablesIn(s, keys);
    if keys == [] {
      SaysNothing(s, s);
      assert s.tasks + [] == s.tasks;
    } else if MayStop(s, keys[0]) {
      var s1 := StopTransactionOn(s, keys[0], reason);
      StopOneEffect(s, keys[0], reason);
      StopAllEffect(s1, keys[1..], reason);
      StopThenRest(s, s1, t, keys, reason);
    } else {
      assert StopAll(s, keys, reason) == StopAll(s, keys[1..], reason);
      StopAllEffect(s, keys[1..], reason);
      StopSkips(s, t, keys, reason);
    }
  }

  lemma StopSkips(s: Runtime, t: Runtime, keys: seq<int>, reason: StopReason)
    requires keys != [] && !MayStop(s, keys[0]) && StopsAll(s, t, keys[1..], reason)
    ensures StopsAll(s, t, keys, reason)
  {
    assert Stoppables(s, keys) == Stoppables(s, keys[1..]);
    forall c ensures StopsRow(s, t, c, keys, reason) {
      assert StopsRow(s, t, c, keys[1..], reason);
      assert c in keys <==> c == keys[0] || c in keys[1..];
    }
  }

  lemma FirstStopsRows(s: Runtime, s1: Runtime, t: Runtime, keys: seq<int>, reason: StopReason)
    requires NoDuplicates(keys) && keys != [] && StopsOne(s, s1, keys[0], reason) && StopsRows(s1, t, keys[1..], reason)
    ensures StopsRows(s, t, keys, reason)
  {
    var first, rest := keys[0], keys[1..];
    assert first !in rest;
    SameKeys(s, s1, first);
    forall c ensures StopsRow(s, t, c, keys, reason) {
      assert c in keys <==> c == first || c in rest;
      assert StopsRow(s1, t, c, rest, reason);
      if c != first {
        assert c in s1.transactions.vals <==> c in s.transactions.vals;
        assert Shown(s1, c) == Shown(s, c);
      }
    }
  }

  lemma FirstStoppable(s: Runtime, s1: Runtime, t: Runtime, keys: seq<int>, reason: StopReason)
    requires NoDuplicates(keys) && keys != [] && StopsOne(s, s1, keys[0], reason) && StopsRows(s1, t, keys[1..], reason)
    ensures Stoppables(s, keys) == [keys[0]] + Stoppables(s1, keys[1..])
    ensures StoppablesKnown(s, t, keys)
    ensures forall c :: c in Stoppables(s1, keys[1..]) ==>
              MayStop(s, c) && MayStop(s1, c) && c in t.transactions.vals && s1.transactions.vals[c] == s.transactions.vals[c]
    ensures t.transactions.vals[keys[0]] == s1.transactions.vals[keys[0]]
  {
    var first, rest := keys[0], keys[1..];
    assert first !in rest;
    forall c | c in rest ensures MayStop(s, c) <==> MayStop(s1, c) { }
    SameStoppables(s, s1, rest);
    StoppablesIn(s1, rest);
    StoppablesIn(s, keys);
    SameKeys(s, s1, first);
    assert StopsRow(s1, t, first, rest, reason);
  }

  lemma FirstStopsSay(s: Runtime, s1: Runtime, t: Runtime, first: int, later: seq<int>, reason: StopReason)
    requires forall c :: c in later ==>
               MayStop(s, c) && MayStop(s1, c) && c in t.transactions.vals && s1.transactions.vals[c] == s.transactions.vals[c]
    requires MayStop(s, first) && first in t.transactions.vals
    requires Says(s, s1, StopSaid(s, first, t.transactions.vals[first].meterCurrent, reason))
    requires Says(s1, t, StopsSaid(s1, t, later, reason))
    ensures Says(s, t, StopsSaid(s, t, [first] + later, reason))
  {
    assert ([first] + later)[1..] == later;
    SameStopsSaid(s, s1, t, later, reason);
    SaysVia(s, s1, t, StopSaid(s, first, t.transactions.vals[first].meterCurrent, reason), StopsSaid(s1, t, later, reason));
  }

  lemma TimeoutsFrom(first: int, later: seq<int>, at: nat)
    ensures Timeouts([first] + later, at) == [Task(at, StopTimeoutTask(first))] + Timeouts(later, at)
  {
    assert ([first] + later)[1..] == later;
  }

  lemma StopThenRest(s: Runtime, s1: Runtime, t: Runtime, keys: seq<int>, reason: StopReason)
    requires NoDuplicates(keys) && keys != [] && StopsOne(s, s1, keys[0], reason) && StopsAll(s1, t, keys[1..], reason)
    ensures StopsAll(s, t, keys, reason)
  {
    FirstStopsRows(s, s1, t, keys, reason);
    FirstStoppable(s, s1, t, keys, reason);
    FirstStopsSay(s, s1, t, keys[0], Stoppables(s1, keys[1..]), reason);
    TimeoutsFrom(keys[0], Stoppables(s1, keys[1..]), s.link.now + 15000);
  }

  ghost predicate StoppablesKnown(s: Runtime, t: Runtime, keys: seq<int>) {
    forall c :: c in Stoppables(s, keys) ==> MayStop(s, c) && c in t.transactions.vals
  }

  lemma ResetEffect(s: Runtime, kind: Option<ResetType>)
    requires NoDuplicates(s.transactions.keys)
    ensures Resets(s, HandleReset(s, kind).0, kind, HandleReset(s, kind).1)
  {
    if kind.Some? {
      var t := StopAll(s, s.transactions.keys, ReasonOf(kind.value));
      StopAllEffect(s, s.transactions.keys, ReasonOf(kind.value));
      var t' := HandleReset(s, kind).0;
      assert t'.tasks[..|t'.tasks| - 1] == t.tasks;
      assert t'.(tasks := t.tasks) == t;
    }
  }

  // ----- The deferred half of a Reset -----

  function Freed(s: Runtime, keys: seq<int>): seq<OutCall> {
    if keys == [] then []
    else (if Shown(s, keys[0]).status != Unavailable then [StatusNotification(keys[0], Available, false)] else []) + Freed(s, keys[1..])
  }

  /** Every connector but the Unavailable ones is Available with its cable out and no tag kept, and
      reported so in order; then the charge point boots.  No row moves. */
  ghost predicate RunsReset(s: Runtime, t: Runtime) {
    && RowsStay(s, t) && t.tasks == s.tasks
    && Says(s, t, (if s.link.isOpen && s.link.registration == Accepted then Freed(s, s.connectorStates.keys) else [])
                  + OnSocket(s, BootNotification))
    && Frees(s, t, s.connectorStates.keys)
  }

  ghost predicate Frees(s: Runtime, t: Runtime, keys: seq<int>) {
    forall c {:trigger FreesOne(s, t, c, keys)} :: FreesOne(s, t, c, keys)
  }

  ghost predicate FreesOne(s: Runtime, t: Runtime, c: int, keys: seq<int>) {
    if c in keys && Shown(s, c).status != Unavailable then
      && c in t.connectorStates.vals
      && t.connectorStates.vals[c] == Shown(s, c).(status := Available, cablePluggedIn := false, pendingRemoteStartIdTag := None)
    else
      && (c in t.connectorStates.vals <==> c in s.connectorStates.vals)
      && (c in s.connectorStates.vals ==> t.connectorStates.vals[c] == s.connectorStates.vals[c])
  }

  lemma {:induction false} SameFreed(s: Runtime, s1: Runtime, keys: seq<int>)
    requires forall c :: c in keys ==> Shown(s, c) == Shown(s1, c)
    ensures Freed(s, keys) == Freed(s1, keys)
  {
    if keys != [] { SameFreed(s, s1, keys[1..]); }
  }

  lemma {:induction false} ReleaseAllEffect(s: Runtime, keys: seq<int>)
    requires NoDuplicates(keys)
    ensures var t := ReleaseAll(s, keys);
            && RowsStay(s, t) && t.tasks == s.tasks && Frees(s, t, keys)
            && Says(s, t, if s.link.isOpen && s.link.registration == Accepted then Freed(s, keys) else [])
    decreases keys
  {
    var t := ReleaseAll(s, keys);
    if keys == [] {
      SaysNothing(s, s);
    } else {
      var k, rest := keys[0], keys[1..];
      var cs := ConnectorOf(s, k);
      assert k !in rest;
      assert forall c :: c in keys <==> c == k || c in rest;
      if cs.status != Unavailable {
        var w := WithConnector(s, k, Released(cs));
        var s1 := SendStatus(w, k, Available, false);
        StatusSays(w, k, Available, false);
        SaysBeside(w, s, s1, s1, WhenAccepted(s, StatusNotification(k, Available, false)));
        ReleaseAllEffect(s1, rest);
        SameFreed(s, s1, rest);
        SaysVia(s, s1, t, WhenAccepted(s, StatusNotification(k, Available, false)),
                if s.link.isOpen && s.link.registration == Accepted then Freed(s1, rest) else []);
        forall c ensures FreesOne(s, t, c, keys) {
          assert FreesOne(s1, t, c, rest);
        }
      } else {
        ReleaseAllEffect(s, rest);
        assert Freed(s, keys) == Freed(s, rest);
        forall c ensures FreesOne(s, t, c, keys) {
          assert FreesOne(s, t, c, rest);
        }
      }
    }
  }

  lemma RunResetEffect(s: Runtime)
    requires NoDuplicates(s.connectorStates.keys)
    ensures RunsReset(s, RunTask(s, ResetTask, None))
  {
    var s1 := ReleaseAll(s, s.connectorStates.keys);
    var t := SendBootNotification(s1);
    ReleaseAllEffect(s, s.connectorStates.keys);
    FrameSays(s1, BootNotification, None, None);
    SaysVia(s, s1, t, if s.link.isOpen && s.link.registration == Accepted then Freed(s, s.connectorStates.keys) else [],
            OnSocket(s, BootNotification));
    forall c ensures FreesOne(s, t, c, s.connectorStates.keys) {
      assert FreesOne(s, s1, c, s.connectorStates.keys);
    }
  }

  // ----- ChangeAvailability -----

  predicate InUse(s: Runtime, c: int) {
    Shown(s, c).status == Charging || Shown(s, c).status == Preparing || Shown(s, c).status == Finishing
  }

  /** One connector: one in use only notes that it is to become inoperative, any other is Unavailable at
      once; an Unavailable one asked to be operative is Available; each change is reported. */
  ghost predicate SetsAvailability(s: Runtime, t: Runtime, c: int, a: Availability) {
    var cs := Shown(s, c).(availabilityRequested := Some(a));
    (&& RowsStay(s, t) && t.tasks == s.tasks
     && if a == Inoperative && !InUse(s, c) then
          && ConnectorBecomes(s, t, c, cs.(status := Unavailable, cablePluggedIn := false))
          && Says(s, t, WhenAccepted(s, StatusNotification(c, Unavailable, false)))
        else if a == Operative && cs.status == Unavailable then
          && ConnectorBecomes(s, t, c, cs.(status := Available))
          && Says(s, t, WhenAccepted(s, StatusNotification(c, Available, false)))
        else
          ConnectorBecomes(s, t, c, cs) && t.link == s.link)
  }

  /** One after the other. */
  ghost predicate SetsInTurn(s: Runtime, t: Runtime, ids: seq<int>, a: Availability)
    decreases ids
  {
    if ids == [] then t == s
    else exists m :: SetsAvailability(s, m, ids[0], a) && SetsInTurn(m, t, ids[1..], a)
  }

  /** The connector named, or for connector 0 all the store knows, or else those of the selected charge
      point. */
  function Addressed(s: Runtime, target: Option<int>, detail: seq<int>): seq<int> {
    if target.None? then []
    else if target.value != 0 then [target.value]
    else if s.connectorStates.keys != [] then s.connectorStates.keys
    else detail
  }

  /** Rejected if a field is missing or there is no connector to set; Scheduled exactly when some connector
      addressed is in use and was to become inoperative. */
  ghost predicate SetsAvailabilities(s: Runtime, t: Runtime, target: Option<int>, a: Option<Availability>, detail: seq<int>, r: ResponseStatus) {
    var ids := Addressed(s, target, detail);
    if a.None? || ids == [] then t == s && r == RespRejected
    else
      && SetsInTurn(s, t, ids, a.value)
      && (r == RespScheduled || r == RespAccepted)
      && (r == RespScheduled <==> a.value == Inoperative && exists c :: c in ids && InUse(s, c))
  }

  lemma SetOneEffect(s: Runtime, c: int, a: Availability)
    ensures SetsAvailability(s, ApplyAvailability(s, c, a), c, a)
  {
    var cs := Shown(s, c).(availabilityRequested := Some(a));
    if a == Inoperative && !InUse(s, c) {
      var w := WithConnector(EnsureConnector(s, c), c, cs.(status := Unavailable, cablePluggedIn := false));
      SetAndReported(s, w, c, Unavailable);
    } else if a == Operative && cs.status == Unavailable {
      var w := WithConnector(EnsureConnector(s, c), c, cs.(status := Available));
      SetAndReported(s, w, c, Available);
    }
  }

  lemma InoperativeKeepsInUse(s: Runtime, t: Runtime, c: int, d: int)
    requires SetsAvailability(s, t, c, Inoperative)
    ensures InUse(t, d) <==> InUse(s, d)
  {
  }

  lemma {:induction false} SetAllEffect(s: Runtime, ids: seq<int>, a: Availability)
    ensures SetsInTurn(s, ApplyAvailabilityAll(s, ids, a).0, ids, a)
    ensures ApplyAvailabilityAll(s, ids, a).1 <==> a == Inoperative && exists c :: c in ids && InUse(s, c)
    decreases ids
  {
    if ids != [] {
      var m := ApplyAvailability(s, ids[0], a);
      SetOneEffect(s, ids[0], a);
      SetAllEffect(m, ids[1..], a);
      if a == Inoperative {
        forall d ensures InUse(m, d) <==> InUse(s, d) {
          InoperativeKeepsInUse(s, m, ids[0], d);
        }
        assert forall d :: d in ids <==> d == ids[0] || d in ids[1..];
      }
    }
  }

  lemma ChangeAvailabilityEffect(s: Runtime, target: Option<int>, a: Option<Availability>, detail: seq<int>)
    ensures var (t, r) := HandleChangeAvailability(s, target, a, detail);
            SetsAvailabilities(s, t, target, a, detail, r)
  {
    if a.Some? { SetAllEffect(s, Addressed(s, target, detail), a.value); }
  }

  // ----- TriggerMessage -----

  /** The message asked for is deferred, even the empty one that is rejected. */
  ghost predicate Triggers(s: Runtime, t: Runtime, kind: TriggerKind, requested: Option<int>, detail: seq<int>, r: ResponseStatus) {
    && (exists c :: Targets(s, requested, detail, c) && t == s.(tasks := s.tasks + [Task(s.link.now, TriggerTask(kind, c))]))
    && r == if kind.TriggerEmpty? then RespRejected else RespAccepted
  }

  lemma TriggerEffect(s: Runtime, kind: TriggerKind, requested: Option<int>, detail: seq<int>)
    ensures var (t, r) := HandleTriggerMessage(s, kind, requested, detail);
            Triggers(s, t, kind, requested, detail, r)
  {
    var c := if requested.Some? then requested else FirstConnector(s, detail);
    assert Targets(s, requested, detail, c);
  }

  /** Sent if accepted. */
  ghost predicate Beats(s: Runtime, t: Runtime) {
    if s.link.registration == Accepted then Sends(s, t, Heartbeat, None, None) else t == s
  }

  /** The deferred half sends what was asked for, a status as stored. */
  ghost predicate RunsTrigger(s: Runtime, t: Runtime, kind: TriggerKind, target: Option<int>) {
    match kind
    case TriggerBoot => Sends(s, t, BootNotification, None, None)
    case TriggerHeartbeat => Beats(s, t)
    case TriggerStatus =>
      if target.None? then t == s
      else
        && RowsStay(s, t) && t.tasks == s.tasks && ConnectorBecomes(s, t, target.value, Shown(s, target.value))
        && Says(s, t, WhenAccepted(s, StatusNotification(target.value, Shown(s, target.value).status, Shown(s, target.value).faultCode)))
    case TriggerMeterValues => if target.None? then t == s else SamplesLive(s, t, target.value)
    case TriggerOther => t == s
    case TriggerEmpty => t == s
  }

  lemma BeatEffect(s: Runtime)
    ensures Beats(s, SendHeartbeat(s))
  {
  }

  lemma RunTriggerEffect(s: Runtime, kind: TriggerKind, target: Option<int>)
    ensures RunsTrigger(s, RunTrigger(s, kind, target), kind, target)
  {
    match kind {
      case TriggerStatus =>
        if target.Some? {
          var s1 := EnsureConnector(s, target.value);
          var cs := Shown(s, target.value);
          StatusSays(s1, target.value, cs.status, cs.faultCode);
          SaysBeside(s1, s, RunTrigger(s, kind, target), RunTrigger(s, kind, target),
                     WhenAccepted(s, StatusNotification(target.value, cs.status, cs.faultCode)));
        }
      case TriggerMeterValues =>
        if target.Some? { SampleLiveEffect(s, target.value); }
      case _ =>
    }
  }

  // ----- One CALL of the CSMS -----

  /** What the command does and how it is answered. */
  ghost predicate Commands(s: Runtime, t: Runtime, command: Command, detail: seq<int>, r: ResponseStatus) {
    match command
    case RemoteStart(idTag, c) => exists target :: Targets(s, c, detail, target) && RemoteStarts(s, t, idTag, target, r)
    case RemoteStop(id) => RemoteStops(s, t, id, r)
    case UnlockConnector(c) => Unlocks(s, t, c, r)
    case Reset(kind) => Resets(s, t, kind, r)
    case ChangeAvailability(c, a) => SetsAvailabilities(s, t, c, a, detail, r)
    case TriggerMessage(kind, c) => Triggers(s, t, kind, c, detail, r)
    case ChangeConfiguration => t == s && r == RespAccepted
    case GetConfiguration => t == s && r == RespConfiguration
    case UnknownCommand => t == s && r == RespNotImplemented
  }

  lemma CommandEffect(s: Runtime, command: Command, detail: seq<int>)
    requires NoDuplicates(s.transactions.keys)
    ensures var (t, r) := HandleCommand(s, command, detail);
            Commands(s, t, command, detail, r)
  {
    match command {
      case RemoteStart(idTag, c) => RemoteStartEffect(s, idTag, c, detail);
      case RemoteStop(id) => RemoteStopEffect(s, id);
      case UnlockConnector(c) => UnlockEffect(s, c);
      case Reset(kind) => ResetEffect(s, kind);
      case ChangeAvailability(c, a) => ChangeAvailabilityEffect(s, c, a, detail);
      case TriggerMessage(kind, c) => TriggerEffect(s, kind, c, detail);
      case _ =>
    }
  }

  /** The response is the last thing on the wire. */
  ghost predicate Responds(s: Runtime, t: Runtime, uid: string, r: ResponseStatus) {
    if !s.link.isOpen then t == s
    else t == s.(link := s.link.(trace := s.link.trace + [Responded(s.link.now, uid, r)], lastMessageSentAt := s.link.now))
  }

  /** The command is carried out and then answered. */
  ghost predicate AnswersCall(s: Runtime, t: Runtime, uid: string, command: Command, detail: seq<int>) {
    exists done, r :: Commands(s, done, command, detail, r) && Responds(done, t, uid, r)
  }

  lemma InboundCallEffect(s: Runtime, uid: string, command: Command, detail: seq<int>)
    requires NoDuplicates(s.transactions.keys)
    ensures AnswersCall(s, HandleInboundCall(s, uid, command, detail), uid, command, detail)
  {
    var (done, r) := HandleCommand(s, command, detail);
    CommandEffect(s, command, detail);
    assert Responds(done, HandleInboundCall(s, uid, command, detail), uid, r);
  }
}
