/** The answers of the message processor as the charge point reads them: it never refuses a boot, which
    is what `Drain` takes for granted, and a boot it answers registers the charge point. */
module ProcessorAnswers {
  import opened Wrappers
  import opened OrderedMaps
  import opened Codec
  import opened ChargePointTypes
  import opened ChargePointModel
  import Processor
  import Drain
  import Replies = ReplyEffects

  // ----- Reading an answer -----

  /** The last field of exactly that name. */
  function Member(j: Json, name: string): Option<Json> {
    if !j.Obj? then None else MemberOf(j.fields, name)
  }

  function MemberOf(fields: seq<Field>, name: string): Option<Json> {
    if fields == [] then None
    else if fields[|fields| - 1].name == name then Some(fields[|fields| - 1].value)
    else MemberOf(fields[..|fields| - 1], name)
  }

  function StatusOf(j: Json): BootStatus {
    var status := Member(j, "status");
    if status == Some(Str("Accepted")) then BootAcceptedStatus
    else if status == Some(Str("Pending")) then BootPendingStatus
    else if status == Some(Str("Rejected")) then BootRejectedStatus
    else BootOtherStatus
  }

  function NatAt(j: Json, name: string): Option<nat> {
    match Member(j, name)
    case Some(Int(n)) => if n >= 0 then Some(n) else None
    case _ => None
  }

  function IntAt(j: Json, name: string): Option<int> {
    match Member(j, name)
    case Some(Int(n)) => Some(n)
    case _ => None
  }

  predicate TagAccepted(j: Json) {
    match Member(j, "idTagInfo")
    case Some(info) => Member(info, "status") == Some(Str("Accepted"))
    case None => false
  }

  /** The fields an answer to `action` is read for: status and interval for a boot only.  Reading a
      field of null throws. */
  function Read(action: Action, j: Json): Option<ReplyPayload> {
    if j.Null? then None
    else if action == BootNotificationAction then Some(ReplyPayload(StatusOf(j), NatAt(j, "interval"), false, None))
    else Some(ReplyPayload(BootOtherStatus, None, TagAccepted(j), IntAt(j, "transactionId")))
  }

  /** No other answer is read for its status or interval. */
  lemma StatusIsReadOfBoots(s: Runtime, uid: nat, p: ReplyPayload, status: BootStatus, interval: Option<nat>)
    requires uid in s.link.pendingCalls.vals ==> s.link.pendingCalls.vals[uid].action != BootNotificationAction
    ensures HandleCallResult(s, uid, Some(p)) == HandleCallResult(s, uid, Some(p.(status := status, interval := interval)))
  {
  }

  /** A frame as the charge point takes it: the answer to the call it sent under `uid`. */
  function Taken(uid: nat, action: Action, frame: Json): InFrame {
    if !frame.Arr? || |frame.items| < 2 then InUnknown
    else if frame.items[0] == Int(3) then InResult(uid, if |frame.items| > 2 then Read(action, frame.items[2]) else None)
    else if frame.items[0] == Int(4) then InError(uid)
    else InUnknown
  }

  // ----- What the processor sends -----

  function Word(call: OutCall): string {
    match call
    case BootNotification => "BootNotification"
    case Heartbeat => "Heartbeat"
    case StatusNotification(_, _, _) => "StatusNotification"
    case Authorize(_) => "Authorize"
    case StartTransaction(_, _, _) => "StartTransaction"
    case StopTransaction(_, _, _, _, _) => "StopTransaction"
    case MeterValues(_, _, _, _, _, _, _, _) => "MeterValues"
  }

  lemma BootFieldsRead(now: string)
    ensures var j := Obj([Field("status", Str("Accepted")), Field("currentTime", Str(now)), Field("interval", Int(300))]);
            Read(BootNotificationAction, j) == Some(ReplyPayload(BootAcceptedStatus, Some(300), false, None))
  {
    var a, b, c := Field("status", Str("Accepted")), Field("currentTime", Str(now)), Field("interval", Int(300));
    assert [a, b, c][..2] == [a, b] && [a, b][..1] == [a];
    assert MemberOf([a, b, c], "interval") == Some(Int(300));
    assert MemberOf([a, b, c], "status") == MemberOf([a, b], "status") == MemberOf([a], "status") == Some(Str("Accepted"));
  }

  /** A boot is accepted with an interval of 300 s, unless the schema refuses that answer. */
  lemma BootsAreAccepted(uid: nat, frame: Json, cp: string, msg: Message, version: string, o: Processor.Outside)
    requires msg.action == "BootNotification" && Processor.Says(frame, cp, msg, version, o)
    ensures var boot := Obj([Field("status", Str("Accepted")), Field("currentTime", Str(o.now)), Field("interval", Int(300))]);
            Taken(uid, BootNotificationAction, frame) ==
              if version == "1.6J" && o.schema("BootNotification", boot).Some? then InError(uid)
              else InResult(uid, Some(ReplyPayload(BootAcceptedStatus, Some(300), false, None)))
  {
    BootFieldsRead(o.now);
  }

  predicate IsReply(frame: Json) {
    frame.Arr? && ((|frame.items| == 3 && frame.items[0] == Int(3)) || (|frame.items| == 5 && frame.items[0] == Int(4)))
  }

  lemma ResultIsReply(frame: Json, uid: string, action: string, payload: Json, version: string, o: Processor.Outside)
    requires Processor.ResultSays(frame, uid, action, payload, version, o)
    ensures IsReply(frame)
  {
  }

  lemma CoreIsReply(frame: Json, uid: string, action: string, r: Processor.CoreReply, version: string, o: Processor.Outside)
    requires Processor.CoreSays(frame, uid, action, r, version, o)
    ensures IsReply(frame)
  {
    if exists i :: Processor.PayloadAt(r, i) {
      var i :| Processor.PayloadAt(r, i) && Processor.ResultSays(frame, uid, action, r.raw.json.fields[i].value, version, o);
      ResultIsReply(frame, uid, action, r.raw.json.fields[i].value, version, o);
    }
  }

  /** Whatever is answered to whichever call, the charge point reads no refusal in it. */
  lemma NothingIsRefused(call: OutCall, uid: nat, frame: Json, cp: string, msg: Message, version: string, o: Processor.Outside)
    requires msg.action == Word(call) && Processor.Says(frame, cp, msg, version, o)
    ensures var m := Taken(uid, call.ActionOf(), frame);
            m == InError(uid) || (m.InResult? && m.replyUid == uid && Drain.NeverRefused(m.payload))
  {
    match call {
      case BootNotification => BootsAreAccepted(uid, frame, cp, msg, version, o);
      case Heartbeat => ResultIsReply(frame, msg.uniqueID, msg.action, Obj([Field("currentTime", Str(o.now))]), version, o);
      case StatusNotification(_, _, _) => ResultIsReply(frame, msg.uniqueID, msg.action, Obj([]), version, o);
      case MeterValues(_, _, _, _, _, _, _, _) => ResultIsReply(frame, msg.uniqueID, msg.action, Obj([]), version, o);
      case _ => CoreIsReply(frame, msg.uniqueID, msg.action, o.core(cp, msg.action, msg.payload), version, o);
    }
  }

  // ----- From the processor to the charge point -----

  /** A boot the processor answers registers the charge point that sent it: accepted, its heartbeat every
      300 s and its first statuses due. */
  lemma AnsweredBootRegisters(s: Runtime, uid: nat, frame: Json, cp: string, msg: Message, version: string, o: Processor.Outside, detail: seq<int>)
    requires uid in s.link.pendingCalls.vals && s.link.pendingCalls.vals[uid].action == BootNotificationAction
    requires msg.action == "BootNotification" && Processor.Says(frame, cp, msg, version, o)
    requires Taken(uid, BootNotificationAction, frame).InResult?
    ensures var t := HandleFrame(s, Taken(uid, BootNotificationAction, frame), detail);
            && t.link.registration == Accepted && t.link.heartbeatInterval == Some(300)
            && t.link.heartbeatTimer == Some(HeartbeatTimer(s.link.now + 300000, 300000))
            && t.tasks == s.tasks + [Task(s.link.now, InitialStatusTask)] && t.transactions == s.transactions
  {
    BootsAreAccepted(uid, frame, cp, msg, version, o);
    Replies.CallResultEffect(s, uid, Some(ReplyPayload(BootAcceptedStatus, Some(300), false, None)));
  }
}
