/** Across any number of reconnects, no Heartbeat, StatusNotification or MeterValues
    leaves on a connection before a BootNotification was accepted on that very
    connection (OCPP 1.6 section 4.2). */
module RegistrationGate {
  import opened Wrappers
  import opened OrderedMaps
  import opened ChargePointTypes
  import opened ChargePointModel
  import opened Moves
  import opened MovesCover

  /** Between the last time the socket opened and position `n`, a boot was accepted. */
  ghost predicate AcceptedBefore(trace: seq<TraceEntry>, n: nat)
    requires n <= |trace|
  {
    exists j :: 0 <= j < n && trace[j].BootAccepted? && forall k :: j < k < n ==> !trace[k].Opened?
  }

  predicate IsGated(entry: TraceEntry) {
    entry.Sent? && Gated(entry.call)
  }

  ghost predicate Gatekept(trace: seq<TraceEntry>) {
    forall i :: 0 <= i < |trace| && IsGated(trace[i]) ==> AcceptedBefore(trace, i)
  }

  ghost predicate Inv(s: Runtime) {
    && Gatekept(s.link.trace)
    && (s.link.registration == Accepted ==> AcceptedBefore(s.link.trace, |s.link.trace|))
  }

  lemma PrefixAccepted(trace: seq<TraceEntry>, more: seq<TraceEntry>, n: nat)
    requires n <= |trace| && AcceptedBefore(trace, n)
    ensures AcceptedBefore(trace + more, n)
  {
    var j :| 0 <= j < n && trace[j].BootAccepted? && forall k :: j < k < n ==> !trace[k].Opened?;
    assert (trace + more)[j].BootAccepted?;
  }

  lemma EntryKeeps(trace: seq<TraceEntry>, entry: TraceEntry)
    requires Gatekept(trace)
    requires IsGated(entry) ==> AcceptedBefore(trace, |trace|)
    ensures Gatekept(trace + [entry])
    ensures AcceptedBefore(trace, |trace|) && !entry.Opened? ==> AcceptedBefore(trace + [entry], |trace| + 1)
    ensures entry.BootAccepted? ==> AcceptedBefore(trace + [entry], |trace| + 1)
  {
    var longer := trace + [entry];
    forall i | 0 <= i < |longer| && IsGated(longer[i]) ensures AcceptedBefore(longer, i) {
      PrefixAccepted(trace, [entry], i);
    }
    if AcceptedBefore(trace, |trace|) && !entry.Opened? {
      var j :| 0 <= j < |trace| && trace[j].BootAccepted? && forall k :: j < k < |trace| ==> !trace[k].Opened?;
      assert longer[j].BootAccepted?;
    }
    if entry.BootAccepted? {
      assert longer[|trace|].BootAccepted?;
    }
  }

  lemma LinkKeeps(l: Link, m: LinkMove)
    requires LinkLegal(l, m) && Gatekept(l.trace)
    requires l.registration == Accepted ==> AcceptedBefore(l.trace, |l.trace|)
    ensures Gatekept(LinkPlay(l, m).trace)
    ensures LinkPlay(l, m).registration == Accepted ==> AcceptedBefore(LinkPlay(l, m).trace, |LinkPlay(l, m).trace|)
  {
    match m {
      case LSend(call, _, _) => EntryKeeps(l.trace, Sent(l.now, l.nextUid, call));
      case LRespond(uid, response) => EntryKeeps(l.trace, Responded(l.now, uid, response));
      case LAccept(_) => EntryKeeps(l.trace, BootAccepted(l.now));
      case LOpen => EntryKeeps(l.trace, Opened);
      case LFire => if Registered(l) { EntryKeeps(l.trace, Sent(l.now, l.nextUid, Heartbeat)); }
      case _ =>
    }
  }

  lemma MoveKeeps(s: Runtime, m: Move)
    requires Inv(s) && Legal(s, m)
    ensures Inv(Play(s, m))
  {
    LinkFollows(s, m);
    if OnLink(s, m).Some? {
      LinkKeeps(s.link, OnLink(s, m).value);
    }
  }

  /** Over every run. */
  lemma NothingGatedBeforeAcceptance(ss: seq<Runtime>, es: seq<Event>, i: nat)
    requires IsRun(ss, es) && i < |ss|
    ensures Gatekept(ss[i].link.trace)
  {
    forall s: Runtime, m: Move | Inv(s) && Legal(s, m) && Allowed(s, m, ANY) ensures Inv(Play(s, m)) {
      MoveKeeps(s, m);
    }
    KeptByRun(Inv, ss, es, i, ANY);
  }
}
