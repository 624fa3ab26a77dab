/** The OCPP-J envelope on JSON values (OCPP-J 1.6, section 4.2). */
module Codec {
  import opened Wrappers

  /** `Int` is a number literal without fraction or exponent, `Number` any other. */
  datatype Json =
    | Null
    | Bool(b: bool)
    | Int(n: int)
    | Number(literal: string)
    | Str(s: string)
    | Arr(items: seq<Json>)
    | Obj(fields: seq<Field>)

  datatype Field = Field(name: string, value: Json)

  /** Bytes off the wire: JSON text or not. */
  datatype Raw = Text(json: Json) | NotJson

  const CALL: int := 2
  const CALLRESULT: int := 3
  const CALLERROR: int := 4

  /** A nil `json.RawMessage` is `None`. */
  datatype Message = Message(
    messageTypeID: int,
    uniqueID: string,
    action: string,
    payload: Option<Json>,
    errorCode: string,
    errorDescription: string,
    errorDetails: Option<Json>)

  const MIN_INT: int := -0x8000_0000_0000_0000
  const MAX_INT: int := 0x7fff_ffff_ffff_ffff

  /** `json.Unmarshal` into a zero `int`: null leaves it alone. */
  function ReadInt(j: Json): Option<int> {
    match j
    case Null => Some(0)
    case Int(n) => if MIN_INT <= n <= MAX_INT then Some(n) else None
    case _ => None
  }

  /** `json.Unmarshal` into an empty `string`. */
  function ReadString(j: Json): Option<string> {
    match j
    case Null => Some("")
    case Str(s) => Some(s)
    case _ => None
  }

  /** A nil raw message is written as null. */
  function Written(p: Option<Json>): Json {
    p.GetOr(Null)
  }

  function Encode(m: Message): Result<Json> {
    if m.messageTypeID == CALL then
      if m.action == "" then Err("CALL requires action")
      else Ok(Arr([Int(CALL), Str(m.uniqueID), Str(m.action), Written(m.payload)]))
    else if m.messageTypeID == CALLRESULT then
      Ok(Arr([Int(CALLRESULT), Str(m.uniqueID), Written(m.payload)]))
    else if m.messageTypeID == CALLERROR then
      Ok(Arr([Int(CALLERROR), Str(m.uniqueID), Str(m.errorCode), Str(m.errorDescription), Written(m.errorDetails)]))
    else Err("unknown message type")
  }

  function Decode(raw: Raw): Result<Message> {
    if raw.NotJson? then Err("invalid JSON array")
    else if raw.json.Null? then Err("frame too short")          // null leaves the slice nil
    else if !raw.json.Arr? then Err("invalid JSON array")
    else DecodeItems(raw.json.items)
  }

  function DecodeItems(arr: seq<Json>): Result<Message> {
    if |arr| < 2 then Err("frame too short")
    else if ReadInt(arr[0]).None? then Err("invalid message type id")
    else if ReadString(arr[1]).None? then Err("invalid unique id")
    else
      var typeID, uniqueID := ReadInt(arr[0]).value, ReadString(arr[1]).value;
      if typeID == CALL then
        if |arr| != 4 then Err("CALL frame must have 4 elements")
        else if ReadString(arr[2]).None? then Err("invalid action")
        else Ok(Message(CALL, uniqueID, ReadString(arr[2]).value, Some(arr[3]), "", "", None))
      else if typeID == CALLRESULT then
        if |arr| != 3 then Err("CALLRESULT frame must have 3 elements")
        else Ok(Message(CALLRESULT, uniqueID, "", Some(arr[2]), "", "", None))
      else if typeID == CALLERROR then
        if |arr| != 5 then Err("CALLERROR frame must have 5 elements")
        else if ReadString(arr[2]).None? then Err("invalid error code")
        else if ReadString(arr[3]).None? then Err("invalid error description")
        else Ok(Message(CALLERROR, uniqueID, "", None, ReadString(arr[2]).value, ReadString(arr[3]).value, Some(arr[4])))
      else Err("unknown message type id")
  }

  function BuildCall(uniqueID: string, action: string, payload: Json): Message {
    Message(CALL, uniqueID, action, Some(payload), "", "", None)
  }

  function BuildResult(uniqueID: string, payload: Json): Message {
    Message(CALLRESULT, uniqueID, "", Some(payload), "", "", None)
  }

  /** Without details an empty object is sent. */
  function BuildError(uniqueID: string, code: string, description: string, details: Option<Json>): Message {
    Message(CALLERROR, uniqueID, "", None, code, description, Some(details.GetOr(Obj([]))))
  }

  // ----- Round trips -----

  /** Only the fields of its own kind are set, and the raw message is present. */
  predicate Canonical(m: Message) {
    if m.messageTypeID == CALL || m.messageTypeID == CALLRESULT then
      && m.payload.Some? && m.errorCode == "" && m.errorDescription == "" && m.errorDetails.None?
      && (m.messageTypeID == CALLRESULT ==> m.action == "")
    else
      m.action == "" && m.payload.None? && m.errorDetails.Some?
  }

  /** A message survives the wire exactly when it is canonical; one that is not comes back
      with the same kind and unique id. */
  lemma MessageRoundTripsExactly(m: Message)
    requires Encode(m).Ok?
    ensures Decode(Text(Encode(m).value)).Ok?
    ensures var back := Decode(Text(Encode(m).value)).value;
            && Canonical(back) && back.uniqueID == m.uniqueID && back.messageTypeID == m.messageTypeID
            && (back == m <==> Canonical(m))
  {
    var arr := Encode(m).value.items;
    assert arr[0] == Int(m.messageTypeID) && arr[1] == Str(m.uniqueID);
  }

  /** Every built message can be sent, except a CALL without an action, and arrives as built. */
  lemma BuiltMessagesArrive(uniqueID: string, text: string, code: string, j: Json, details: Option<Json>)
    ensures var m := BuildCall(uniqueID, text, j);
            (Encode(m).Ok? <==> text != "") && (text != "" ==> Decode(Text(Encode(m).value)) == Ok(m))
    ensures var m := BuildResult(uniqueID, j); Encode(m).Ok? && Decode(Text(Encode(m).value)) == Ok(m)
    ensures var m := BuildError(uniqueID, code, text, details); Encode(m).Ok? && Decode(Text(Encode(m).value)) == Ok(m)
  {
    if text != "" {
      MessageRoundTripsExactly(BuildCall(uniqueID, text, j));
    }
    MessageRoundTripsExactly(BuildResult(uniqueID, j));
    MessageRoundTripsExactly(BuildError(uniqueID, code, text, details));
  }

  /** What the wire may carry: 2 for a CALL with four elements, 3 for a CALLRESULT with three, 4 for a
      CALLERROR with five; text or null up to the payload. */
  predicate WellFormed(arr: seq<Json>) {
    && |arr| > 0 && ((arr[0] == Int(2) && |arr| == 4) || (arr[0] == Int(3) && |arr| == 3) || (arr[0] == Int(4) && |arr| == 5))
    && forall i :: 1 <= i < |arr| - 1 ==> arr[i].Str? || arr[i].Null?
  }

  /** A text, empty for null. */
  predicate Tells(j: Json, text: string) {
    j == Str(text) || (j == Null && text == "")
  }

  lemma DecodesExactly(raw: Raw)
    ensures Decode(raw).Ok? <==> raw.Text? && raw.json.Arr? && WellFormed(raw.json.items)
    ensures Decode(raw).Ok? ==>
              var m, arr := Decode(raw).value, raw.json.items;
              && arr[0] == Int(m.messageTypeID) && Tells(arr[1], m.uniqueID)
              && (m.messageTypeID == 2 ==>
                    && Tells(arr[2], m.action)
                    && m == Message(2, m.uniqueID, m.action, Some(arr[3]), "", "", None))
              && (m.messageTypeID == 3 ==> m == Message(3, m.uniqueID, "", Some(arr[2]), "", "", None))
              && (m.messageTypeID == 4 ==>
                    && Tells(arr[2], m.errorCode) && Tells(arr[3], m.errorDescription)
                    && m == Message(4, m.uniqueID, "", None, m.errorCode, m.errorDescription, Some(arr[4])))
  {
  }

  /** What is written, element by element; a CALL needs an action, and a raw message that is not there is
      null. */
  lemma EncodesExactly(m: Message)
    ensures Encode(m).Ok? <==> (m.messageTypeID == 2 && m.action != "") || m.messageTypeID == 3 || m.messageTypeID == 4
    ensures Encode(m).Ok? ==>
              var payload, details := (if m.payload.Some? then m.payload.value else Null), (if m.errorDetails.Some? then m.errorDetails.value else Null);
              && (m.messageTypeID == 2 ==> Encode(m).value == Arr([Int(2), Str(m.uniqueID), Str(m.action), payload]))
              && (m.messageTypeID == 3 ==> Encode(m).value == Arr([Int(3), Str(m.uniqueID), payload]))
              && (m.messageTypeID == 4 ==>
                    Encode(m).value == Arr([Int(4), Str(m.uniqueID), Str(m.errorCode), Str(m.errorDescription), details]))
  {
  }

  /** The elements between the type id and the payload. */
  predicate NoNullText(arr: seq<Json>) {
    forall i :: 1 <= i < |arr| - 1 ==> !arr[i].Null?
  }

  /** A frame that decodes is reproduced exactly when none of its text elements was null (one
      that was is read as empty text) and it is not a CALL with an empty action. */
  lemma FrameRoundTripsExactly(arr: seq<Json>)
    requires DecodeItems(arr).Ok?
    ensures var m := DecodeItems(arr).value;
            && Canonical(m)
            && (Encode(m) == Ok(Arr(arr)) <==> NoNullText(arr) && (m.messageTypeID == CALL ==> m.action != ""))
  {
    var m := DecodeItems(arr).value;
    assert arr[0] == Int(m.messageTypeID);
    if Encode(m).Ok? {
      var out := Encode(m).value.items;
      assert |out| == |arr| && out[0] == arr[0] && out[|out| - 1] == arr[|arr| - 1];
      if NoNullText(arr) {
        assert forall i :: 1 <= i < |arr| - 1 ==> out[i] == arr[i];
        assert out == arr;
      } else {
        var i :| 1 <= i < |arr| - 1 && arr[i].Null?;
        assert out[i].Str?;
        assert out != arr;
      }
    }
  }
}
