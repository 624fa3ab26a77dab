/** The message processor: every CALL is answered once, nothing else is answered. */
module Processor {
  import opened Wrappers
  import opened Topics
  import opened Codec

  // ----- The core's answers -----

  /** What the HTTP client brings back: no client configured, a failed call, or a body. */
  datatype CoreReply = NoCore | CoreFailed(why: string) | Body(raw: Raw)

  function Lower(c: char): char {
    if 'A' <= c <= 'Z' then c - 'A' + 'a' else c
  }

  /** Go matches field names up to letter case. */
  predicate SameName(a: string, b: string) {
    |a| == |b| && forall i :: 0 <= i < |a| ==> Lower(a[i]) == Lower(b[i])
  }

  /** The last field of that name wins. */
  function FieldOf(fields: seq<Field>, name: string): Option<Json> {
    if fields == [] then None
    else if SameName(fields[|fields| - 1].name, name) then Some(fields[|fields| - 1].value)
    else FieldOf(fields[..|fields| - 1], name)
  }

  function CorePayload(raw: Raw): Result<Json> {
    if raw.NotJson? then Err("core response is not a coreEnvelope")
    else
      match raw.json
      case Null => Err("core response has empty payload")
      case Obj(fields) =>
        (match FieldOf(fields, "payload")
         case None => Err("core response has empty payload")
         case Some(j) => Ok(j))
      case _ => Err("core response is not a coreEnvelope")
  }

  // ----- Answering a CALL -----

  /** What one call of `Handle` meets outside: the clock, the core, the schema check of the
      answer (its error text, if any) and whether the broker takes the publication. */
  datatype Outside = Outside(
    now: string,
    core: (string, string, Option<Json>) -> CoreReply,
    schema: (string, Json) -> Option<string>,
    brokerUp: bool)

  const CORE_ACTIONS: set<string> := {"Authorize", "StartTransaction", "StopTransaction"}

  function FromCore(r: CoreReply): Result<Json> {
    match r
    case NoCore => Err("core unavailable")
    case CoreFailed(why) => Err(why)
    case Body(raw) => CorePayload(raw)
  }

  /** The answer to an action of the processor, if it is one. */
  function Answer(cp: string, action: string, payload: Option<Json>, o: Outside): Option<Result<Json>> {
    if action == "BootNotification" then
      Some(Ok(Obj([Field("status", Str("Accepted")), Field("currentTime", Str(o.now)), Field("interval", Int(300))])))
    else if action == "Heartbeat" then Some(Ok(Obj([Field("currentTime", Str(o.now))])))
    else if action == "StatusNotification" || action == "MeterValues" then Some(Ok(Obj([])))
    else if action in CORE_ACTIONS then Some(FromCore(o.core(cp, action, payload)))
    else None
  }

  /** Only the answers of OCPP 1.6J are checked. */
  function SchemaError(version: string, action: string, payload: Json, o: Outside): Option<string> {
    if version != "1.6J" then None else o.schema(action, payload)
  }

  // ----- The handler -----

  datatype Publication = Publication(topic: string, frame: Json)

  datatype Audit = Audit(kind: string, chargePointID: string, messageType: string, uniqueID: string, decision: string)

  function MsgTypeName(id: int): string {
    if id == CALL then "CALL"
    else if id == CALLRESULT then "CALLRESULT"
    else if id == CALLERROR then "CALLERROR"
    else "UNKNOWN"
  }

  /** The one right answer to a CALL: NotImplemented for an action the processor does not
      know, GenericError when the answer fails or is refused by the schema, the result
      otherwise. */
  ghost predicate Answers(reply: Message, cp: string, call: Message, version: string, o: Outside) {
    Delivers(reply, call, Answer(cp, call.action, call.payload, o), version, o)
  }

  ghost predicate Delivers(reply: Message, call: Message, answer: Option<Result<Json>>, version: string, o: Outside) {
    && reply.uniqueID == call.uniqueID
    && match answer
       case None => reply.messageTypeID == CALLERROR && reply.errorCode == "NotImplemented"
       case Some(Err(why)) => reply.messageTypeID == CALLERROR && reply.errorCode == "GenericError" && reply.errorDescription == why
       case Some(Ok(j)) =>
         if SchemaError(version, call.action, j, o).Some?
         then reply.messageTypeID == CALLERROR && reply.errorCode == "GenericError"
         else reply.messageTypeID == CALLRESULT && reply.payload == Some(j)
  }

  // ----- What is on the wire -----

  ghost predicate ErrorSays(frame: Json, uniqueID: string, code: string) {
    exists why :: frame == Arr([Int(4), Str(uniqueID), Str(code), Str(why), Obj([])])
  }

  /** The result as it is, unless the schema of OCPP 1.6J refuses it. */
  ghost predicate ResultSays(frame: Json, uniqueID: string, action: string, payload: Json, version: string, o: Outside) {
    if version == "1.6J" && o.schema(action, payload).Some? then ErrorSays(frame, uniqueID, "GenericError")
    else frame == Arr([Int(3), Str(uniqueID), payload])
  }

  /** The word payload, in letters of either case. */
  predicate IsPayload(name: string) {
    && |name| == 7 && name[0] in "Pp" && name[1] in "Aa" && name[2] in "Yy" && name[3] in "Ll"
    && name[4] in "Oo" && name[5] in "Aa" && name[6] in "Dd"
  }

  /** Field `i` is the last payload field of the core's body. */
  predicate PayloadAt(r: CoreReply, i: int) {
    && r.Body? && r.raw.Text? && r.raw.json.Obj? && 0 <= i < |r.raw.json.fields|
    && IsPayload(r.raw.json.fields[i].name)
    && forall j :: i < j < |r.raw.json.fields| ==> !IsPayload(r.raw.json.fields[j].name)
  }

  /** The payload of the core's body is the result; without a core, a body or that field, GenericError. */
  ghost predicate CoreSays(frame: Json, uniqueID: string, action: string, r: CoreReply, version: string, o: Outside) {
    if exists i :: PayloadAt(r, i) then
      exists i :: PayloadAt(r, i) && ResultSays(frame, uniqueID, action, r.raw.json.fields[i].value, version, o)
    else
      frame == Arr([Int(4), Str(uniqueID), Str("GenericError"),
                    Str(if r.NoCore? then "core unavailable"
                        else if r.CoreFailed? then r.why
                        else if r.raw.Text? && (r.raw.json.Obj? || r.raw.json.Null?) then "core response has empty payload"
                        else "core response is not a coreEnvelope"),
                    Obj([])])
  }

  /** What the frame that answers a CALL says, action by action. */
  ghost predicate Says(frame: Json, cp: string, call: Message, version: string, o: Outside) {
    var uid, action := call.uniqueID, call.action;
    if action == "BootNotification" then
      ResultSays(frame, uid, action,
                 Obj([Field("status", Str("Accepted")), Field("currentTime", Str(o.now)), Field("interval", Int(300))]), version, o)
    else if action == "Heartbeat" then ResultSays(frame, uid, action, Obj([Field("currentTime", Str(o.now))]), version, o)
    else if action == "StatusNotification" || action == "MeterValues" then ResultSays(frame, uid, action, Obj([]), version, o)
    else if action == "Authorize" || action == "StartTransaction" || action == "StopTransaction" then
      CoreSays(frame, uid, action, o.core(cp, action, call.payload), version, o)
    else ErrorSays(frame, uid, "NotImplemented")
  }

  /** The log entry of a publication: the kind of its frame, and whether the broker took it. */
  predicate Logs(a: Audit, frame: Json, cp: string, uniqueID: string, o: Outside) {
    && frame.Arr? && |frame.items| >= 3
    && a == Audit("published", cp, if frame.items[0] == Int(3) then "CALLRESULT" else "CALLERROR", uniqueID,
                  if !o.brokerUp then "publish_failed"
                  else if frame.items[0] == Int(4) && frame.items[2] == Str("NotImplemented") then "not_implemented"
                  else "responded")
  }

  /** What the handler has at hand for a result or an error, as a frame. */
  ghost predicate Carries(frame: Json, uniqueID: string, action: string, answer: Option<Result<Json>>, version: string, o: Outside) {
    match answer
    case None => ErrorSays(frame, uniqueID, "NotImplemented")
    case Some(Err(why)) => frame == Arr([Int(4), Str(uniqueID), Str("GenericError"), Str(why), Obj([])])
    case Some(Ok(j)) => ResultSays(frame, uniqueID, action, j, version, o)
  }

  lemma SameNameIsPayload(name: string)
    ensures SameName(name, "payload") <==> IsPayload(name)
  {
    if |name| == 7 {
      assert SameName(name, "payload") <==>
        && Lower(name[0]) == 'p' && Lower(name[1]) == 'a' && Lower(name[2]) == 'y' && Lower(name[3]) == 'l'
        && Lower(name[4]) == 'o' && Lower(name[5]) == 'a' && Lower(name[6]) == 'd';
    }
  }

  lemma {:induction false} FieldIsLast(fields: seq<Field>) returns (i: int)
    ensures FieldOf(fields, "payload").Some? ==>
              && 0 <= i < |fields| && IsPayload(fields[i].name) && FieldOf(fields, "payload") == Some(fields[i].value)
              && forall j :: i < j < |fields| ==> !IsPayload(fields[j].name)
    ensures FieldOf(fields, "payload").None? ==> forall j :: 0 <= j < |fields| ==> !IsPayload(fields[j].name)
  {
    i := |fields| - 1;
    if fields != [] {
      SameNameIsPayload(fields[i].name);
      if !IsPayload(fields[i].name) {
        ghost var front := fields[..i];
        assert forall j :: 0 <= j < i ==> fields[j] == front[j];
        i := FieldIsLast(front);
      }
    }
  }

  lemma CoreCarries(frame: Json, uniqueID: string, action: string, r: CoreReply, version: string, o: Outside)
    ensures Carries(frame, uniqueID, action, Some(FromCore(r)), version, o) <==> CoreSays(frame, uniqueID, action, r, version, o)
  {
    if r.Body? && r.raw.Text? && r.raw.json.Obj? {
      var fields := r.raw.json.fields;
      var i := FieldIsLast(fields);
      if FieldOf(fields, "payload").Some? {
        assert PayloadAt(r, i);
        forall k | PayloadAt(r, k) ensures k == i { }
      }
    }
  }

  /** The answer at hand is exactly what the frame has to say. */
  lemma AnswerSays(frame: Json, cp: string, call: Message, version: string, o: Outside)
    ensures Carries(frame, call.uniqueID, call.action, Answer(cp, call.action, call.payload, o), version, o)
            <==> Says(frame, cp, call, version, o)
  {
    if call.action in CORE_ACTIONS {
      CoreCarries(frame, call.uniqueID, call.action, o.core(cp, call.action, call.payload), version, o);
    }
  }

  lemma CarriedDecodes(frame: Json, call: Message, answer: Option<Result<Json>>, version: string, o: Outside)
    requires Carries(frame, call.uniqueID, call.action, answer, version, o)
    ensures Decode(Text(frame)).Ok? && Delivers(Decode(Text(frame)).value, call, answer, version, o)
  {
  }

  /** A frame that says so decodes to the one right answer. */
  lemma SaysTheAnswer(frame: Json, cp: string, call: Message, version: string, o: Outside)
    requires Says(frame, cp, call, version, o)
    ensures Decode(Text(frame)).Ok? && Answers(Decode(Text(frame)).value, cp, call, version, o)
  {
    AnswerSays(frame, cp, call, version, o);
    CarriedDecodes(frame, call, Answer(cp, call.action, call.payload, o), version, o);
  }

  class Handler {
    const version: string
    var attempts: seq<Publication>      // what was handed to the broker
    var audits: seq<Audit>

    constructor (version: string)
      ensures this.version == version && attempts == [] && audits == []
    {
      this.version, attempts, audits := version, [], [];
    }

    /** Every CALL causes exactly one publish attempt, on the charge point's out topic, of a frame
        that decodes to the one right answer.  Replies and undecodable frames cause none.  The
        audit log gets what was consumed and, for a CALL, what became of the publication. */
    method Handle(cp: string, raw: Raw, o: Outside)
      modifies this
      ensures (Decode(raw).Ok? && Decode(raw).value.messageTypeID == CALL) ==>
                && |attempts| == |old(attempts)| + 1 && attempts[..|old(attempts)|] == old(attempts)
                && attempts[|old(attempts)|].topic == OutTopic(cp)
                && Says(attempts[|old(attempts)|].frame, cp, Decode(raw).value, version, o)
      ensures (Decode(raw).Err? || Decode(raw).value.messageTypeID != CALL) ==> attempts == old(attempts)
      ensures Decode(raw).Err? ==> audits == old(audits) + [Audit("consumed", cp, "", "", "parse_error")]
      ensures Decode(raw).Ok? ==>
                var uid, kind := Decode(raw).value.uniqueID, Decode(raw).value.messageTypeID;
                && |audits| == |old(audits)| + 2 && audits[..|old(audits)|] == old(audits)
                && audits[|old(audits)|] ==
                   Audit("consumed", cp, if kind == 2 then "CALL" else if kind == 3 then "CALLRESULT" else "CALLERROR", uid, "")
                && if kind == 2 then Logs(audits[|old(audits)| + 1], attempts[|old(attempts)|].frame, cp, uid, o)
                   else audits[|old(audits)| + 1] == audits[|old(audits)|].(decision := "noop")
    {
      var decoded := Decode(raw);
      if decoded.Err? {
        audits := audits + [Audit("consumed", cp, "", "", "parse_error")];
        return;
      }
      var msg := decoded.value;
      ghost var before := audits;
      audits := audits + [Audit("consumed", cp, MsgTypeName(msg.messageTypeID), msg.uniqueID, "")];
      ghost var consumed := audits;
      if msg.messageTypeID == CALL {
        RespondToCall(cp, msg, o);
        assert audits[..|consumed|] == consumed;
      } else {
        audits := audits + [Audit("consumed", cp, MsgTypeName(msg.messageTypeID), msg.uniqueID, "noop")];
      }
      StartsWith(audits, consumed, before);
    }

    static lemma StartsWith(all: seq<Audit>, consumed: seq<Audit>, before: seq<Audit>)
      requires |all| == |consumed| + 1 && |consumed| == |before| + 1
      requires all[..|consumed|] == consumed && consumed[..|before|] == before
      ensures all[..|before|] == before && all[|before|] == consumed[|before|]
    {
      assert all[..|consumed|][..|before|] == all[..|before|];
    }

    /** One attempt, one audit, for a reply that answers the call. */
    twostate predicate Responded(cp: string, msg: Message, o: Outside) reads this {
      && |attempts| == |old(attempts)| + 1 && attempts[..|old(attempts)|] == old(attempts)
      && attempts[|old(attempts)|].topic == OutTopic(cp)
      && Says(attempts[|old(attempts)|].frame, cp, msg, version, o)
      && |audits| == |old(audits)| + 1 && audits[..|old(audits)|] == old(audits)
      && Logs(audits[|old(audits)|], attempts[|old(attempts)|].frame, cp, msg.uniqueID, o)
    }

    method RespondToCall(cp: string, msg: Message, o: Outside)
      requires msg.messageTypeID == CALL
      modifies this
      ensures Responded(cp, msg, o)
    {
      var answer := Answer(cp, msg.action, msg.payload, o);
      if answer.None? {
        PublishError(cp, msg.uniqueID, "NotImplemented", "action " + msg.action + " is not supported by message-processor", o);
      } else if answer.value.Err? {
        PublishError(cp, msg.uniqueID, "GenericError", answer.value.message, o);
      } else {
        PublishResult(cp, msg.uniqueID, answer.value.value, msg.action, o);
      }
      AnswerSays(attempts[|old(attempts)|].frame, cp, msg, version, o);
    }

    method PublishResult(cp: string, uniqueID: string, payload: Json, action: string, o: Outside)
      modifies this
      ensures Sent(cp, uniqueID, o)
      ensures var reply := Decode(Text(attempts[|old(attempts)|].frame)).value;
              if SchemaError(version, action, payload, o).Some?
              then reply.messageTypeID == CALLERROR && reply.errorCode == "GenericError"
              else reply == BuildResult(uniqueID, payload)
      ensures ResultSays(attempts[|old(attempts)|].frame, uniqueID, action, payload, version, o)
    {
      var refused := SchemaError(version, action, payload, o);
      if refused.Some? {
        PublishError(cp, uniqueID, "GenericError", "response schema validation failed: " + refused.value, o);
        return;
      }
      BuiltMessagesArrive(uniqueID, "", "", payload, None);
      var frame := Encode(BuildResult(uniqueID, payload)).value;
      attempts := attempts + [Publication(OutTopic(cp), frame)];
      audits := audits + [Audit("published", cp, "CALLRESULT", uniqueID, if o.brokerUp then "responded" else "publish_failed")];
    }

    method PublishError(cp: string, uniqueID: string, code: string, description: string, o: Outside)
      modifies this
      ensures Sent(cp, uniqueID, o)
      ensures Decode(Text(attempts[|old(attempts)|].frame)).value == BuildError(uniqueID, code, description, None)
      ensures attempts[|old(attempts)|].frame == Arr([Int(4), Str(uniqueID), Str(code), Str(description), Obj([])])
    {
      BuiltMessagesArrive(uniqueID, description, code, Null, None);
      var frame := Encode(BuildError(uniqueID, code, description, None)).value;
      attempts := attempts + [Publication(OutTopic(cp), frame)];
      var decision := if code == "NotImplemented" then "not_implemented" else "responded";
      audits := audits + [Audit("published", cp, "CALLERROR", uniqueID, if o.brokerUp then decision else "publish_failed")];
    }

    twostate predicate Sent(cp: string, uniqueID: string, o: Outside) reads this {
      && |attempts| == |old(attempts)| + 1 && attempts[..|old(attempts)|] == old(attempts)
      && attempts[|old(attempts)|].topic == OutTopic(cp)
      && Decode(Text(attempts[|old(attempts)|].frame)).Ok?
      && Decode(Text(attempts[|old(attempts)|].frame)).value.uniqueID == uniqueID
      && |audits| == |old(audits)| + 1 && audits[..|old(audits)|] == old(audits)
      && Logs(audits[|old(audits)|], attempts[|old(attempts)|].frame, cp, uniqueID, o)
    }
  }

  // ----- The subscription -----

  class Inbound {
    const handler: Handler
    var subscribed: bool

    constructor (h: Handler)
      ensures handler == h && !subscribed
    {
      handler, subscribed := h, false;
    }

    method Start(reachable: bool) returns (r: Result<()>)
      modifies this
      ensures r.Ok? <==> reachable
      ensures subscribed == (old(subscribed) || reachable)
    {
      if !reachable { return Err("subscribe"); }
      subscribed := true;
      return Ok(());
    }

    method Stop()
      modifies this
      ensures !subscribed
    {
      subscribed := false;
    }

    /** The dispatch closure.  From the path a charge point connects with to the topic it listens on: a CALL
        on the in topic of an id the gateway accepted is answered once, on the out topic
        of that id, under the request's unique id. */
    method Dispatch(topic: string, raw: Raw, o: Outside)
      modifies handler
      ensures ChargePointIDFromTopic(topic) == "" ==>
                handler.attempts == old(handler.attempts) && handler.audits == old(handler.audits)
      ensures forall path: string :: (ExtractChargePointID(path) != "" && topic == InTopic(ExtractChargePointID(path))
                && Decode(raw).Ok? && Decode(raw).value.messageTypeID == CALL) ==>
                  && Subscribed(topic)
                  && |handler.attempts| == |old(handler.attempts)| + 1
                  && handler.attempts[..|old(handler.attempts)|] == old(handler.attempts)
                  && var sent := handler.attempts[|old(handler.attempts)|];
                     && sent.topic == OutTopic(ExtractChargePointID(path))
                     && Says(sent.frame, ExtractChargePointID(path), Decode(raw).value, handler.version, o)
      ensures (Decode(raw).Err? || Decode(raw).value.messageTypeID != CALL) ==> handler.attempts == old(handler.attempts)
    {
      forall path: string | ExtractChargePointID(path) != "" && topic == InTopic(ExtractChargePointID(path))
        ensures Subscribed(topic) && ChargePointIDFromTopic(topic) == ExtractChargePointID(path)
      {
        ExtractsExactly(path, ExtractChargePointID(path));
        RoundTripsExactly(ExtractChargePointID(path));
        SubscriptionSeesExactly(ExtractChargePointID(path));
      }
      var cp := ChargePointIDFromTopic(topic);
      if cp == "" {
        return;
      }
      handler.Handle(cp, raw, o);
    }
  }
}
