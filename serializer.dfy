/**
 * The message envelope on the wire: a JSON object with the type id under
 * "type", the request id under "requestId" when there is one, and the
 * payload's tree under "data". JSON text and the reflective payload mapping
 * are abstract: text is already parsed into a tree (or found malformed), and
 * a payload codec turns payloads into object trees and back.
 */
module MessageSerializer {
  import opened Wrappers
  import opened Payloads
  import opened MessageTypes

  /** A JSON tree; numbers keep the text they were written with. */
  datatype Json =
    | JNull
    | JBool(b: bool)
    | JNum(lexeme: string)
    | JStr(s: string)
    | JArr(items: seq<Json>)
    | JObj(fields: map<string, Json>)

  /** The result of parsing JSON text: a syntax error, or a tree. */
  datatype JsonText = Malformed | Parsed(root: Json)

  /** The exceptions the decoding path can raise. The first three are caught. */
  datatype Thrown = JsonSyntax | IllegalState | ClassCast | UnsupportedOperation

  predicate Caught(e: Thrown) {
    e != UnsupportedOperation
  }

  /** JsonElement.getAsString: a primitive's text; a one-element array's element;
    * an IllegalStateException for other arrays; UnsupportedOperationException for
    * null and objects. */
  function GetAsString(j: Json): (r: Result<string, Thrown>)
    ensures j.JStr? ==> r == Ok(j.s)
    ensures (j.JNull? || j.JObj?) ==> r == Err(UnsupportedOperation)
    decreases j
  {
    match j
    case JStr(s) => Ok(s)
    case JNum(lexeme) => Ok(lexeme)
    case JBool(b) => Ok(if b then "true" else "false")
    case JArr(items) => if |items| == 1 then GetAsString(items[0]) else Err(IllegalState)
    case JNull => Err(UnsupportedOperation)
    case JObj(_) => Err(UnsupportedOperation)
  }

  /** The per-kind payload mapping: `toTree` for GSON.toJsonTree, `fromTree` for
    * GSON.fromJson into a given class (None when it raises JsonSyntaxException). */
  datatype PayloadCodec = PayloadCodec(
    toTree: Payload -> Json,
    fromTree: (PayloadClass, map<string, Json>) -> Option<Payload>)

  /** A codec that maps every payload to an object which reads back as the same payload. */
  ghost predicate ValidCodec(codec: PayloadCodec) {
    forall p :: codec.toTree(p).JObj? && codec.fromTree(ClassOf(p), codec.toTree(p).fields) == Some(p)
  }

  /** serialize: the envelope object (its rendering to text is abstract). */
  function Serialize(m: Message, codec: PayloadCodec): (r: Json)
    ensures r.JObj?
    ensures "type" in r.fields && r.fields["type"] == JStr(m.msgType.id)
    ensures "requestId" in r.fields <==> m.requestId.Some?
    ensures m.requestId.Some? ==> r.fields["requestId"] == JStr(m.requestId.value)
    ensures "data" in r.fields && r.fields["data"] == codec.toTree(m.payload)
    ensures forall k :: k in r.fields ==> k in {"type", "requestId", "data"}
  {
    var base := map["type" := JStr(m.msgType.id)];
    var withId := if m.requestId.Some? then base["requestId" := JStr(m.requestId.value)] else base;
    JObj(withId["data" := codec.toTree(m.payload)])
  }

  /** What deserialize hands back: a message, null, or an exception that escapes it. */
  datatype Decoded = Decoded(message: Message) | NullMessage | Escaped(thrown: Thrown)

  /** An exception on the decoding path: null if caught, escaping otherwise. */
  function Raise(e: Thrown): (r: Decoded)
    ensures r.Escaped? <==> !Caught(e)
  {
    if Caught(e) then NullMessage else Escaped(e)
  }

  /** The "data" object handed to the payload mapping: an empty object unless "data" is an object. */
  function DataFields(fields: map<string, Json>): (r: map<string, Json>)
    ensures "data" in fields && fields["data"].JObj? ==> r == fields["data"].fields
    ensures !("data" in fields && fields["data"].JObj?) ==> r == map[]
  {
    if "data" in fields && fields["data"].JObj? then fields["data"].fields else map[]
  }

  /** deserialize as written. Only JsonSyntaxException, IllegalStateException and
    * ClassCastException are caught, so reading a JSON null or an object as the
    * "type" or "requestId" string lets UnsupportedOperationException escape. */
  function DeserializeAsWritten(text: JsonText, codec: PayloadCodec): (r: Decoded)
    ensures text.Malformed? ==> r == NullMessage
    ensures text.Parsed? && !text.root.JObj? ==> r == NullMessage
    ensures text.Parsed? && text.root.JObj? && "type" !in text.root.fields ==> r == NullMessage
    ensures r.Decoded? ==> r.message.msgType in AllTypes
  {
    match text
    case Malformed => Raise(JsonSyntax)
    case Parsed(root) =>
      if !root.JObj? then Raise(IllegalState)
      else
        var fields := root.fields;
        if "type" !in fields then NullMessage
        else
          match GetAsString(fields["type"])
          case Err(e) => Raise(e)
          case Ok(typeName) =>
            match FindById(typeName)
            case None => NullMessage
            case Some(t) =>
              var requestId: Result<Option<string>, Thrown> :=
                if "requestId" in fields && !fields["requestId"].JNull? then
                  match GetAsString(fields["requestId"])
                  case Ok(s) => Ok(Some(s))
                  case Err(e) => Err(e)
                else Ok(None);
              if requestId.Err? then Raise(requestId.error)
              else
                match codec.fromTree(t.payloadType, DataFields(fields))
                case None => Raise(JsonSyntax)
                case Some(p) => Decoded(Message(t, requestId.value, p))
  }

  /** deserialize as evidently intended: every failure, including a non-string
    * "type" or "requestId", gives null. */
  function Deserialize(text: JsonText, codec: PayloadCodec): (r: Option<Message>)
    ensures r.Some? <==> DeserializeAsWritten(text, codec).Decoded?
    ensures r.Some? ==> DeserializeAsWritten(text, codec) == Decoded(r.value)
  {
    match DeserializeAsWritten(text, codec)
    case Decoded(m) => Some(m)
    case NullMessage => None
    case Escaped(_) => None
  }

  /** A registered type with a payload of its class survives the round trip through
    * the envelope, request id and payload included. */
  lemma RoundTrip(m: Message, codec: PayloadCodec)
    requires ValidCodec(codec) && WellTyped(m)
    ensures Deserialize(Parsed(Serialize(m, codec)), codec) == Some(m)
  {
    var root := Serialize(m, codec);
    FindByIdRoundTrip(m.msgType);
    assert codec.toTree(m.payload).JObj?;
    assert DataFields(root.fields) == codec.toTree(m.payload).fields;
    assert codec.fromTree(ClassOf(m.payload), codec.toTree(m.payload).fields) == Some(m.payload);
  }

  /** Malformed text, a root that is not an object, a missing "type" and an unknown
    * type all give null. */
  lemma InvalidEnvelopesGiveNull(text: JsonText, codec: PayloadCodec)
    requires text.Malformed? || !text.root.JObj? || "type" !in text.root.fields
             || (GetAsString(text.root.fields["type"]).Ok? && FindById(GetAsString(text.root.fields["type"]).value).None?)
    ensures Deserialize(text, codec) == None
  {
  }

  /** A decoded message has no request id exactly when "requestId" is absent or JSON null,
    * and a string "requestId" decodes to exactly that id. */
  lemma RequestIdDecoding(root: map<string, Json>, codec: PayloadCodec)
    requires Deserialize(Parsed(JObj(root)), codec).Some?
    ensures Deserialize(Parsed(JObj(root)), codec).value.requestId.None?
            <==> ("requestId" !in root || root["requestId"].JNull?)
    ensures "requestId" in root && root["requestId"].JStr? ==>
            Deserialize(Parsed(JObj(root)), codec).value.requestId == Some(root["requestId"].s)
  {
  }

  /** The payload is read from "data" when it is an object, and from an empty object otherwise. */
  lemma PayloadReadFromDataObject(root: map<string, Json>, codec: PayloadCodec)
    requires Deserialize(Parsed(JObj(root)), codec).Some?
    ensures var m := Deserialize(Parsed(JObj(root)), codec).value;
            Some(m.payload) == codec.fromTree(m.msgType.payloadType, DataFields(root))
  {
  }

  /** As written, a JSON null "type" escapes deserialize as an UnsupportedOperationException. */
  lemma NullTypeEscapes(codec: PayloadCodec)
    ensures DeserializeAsWritten(Parsed(JObj(map["type" := JNull])), codec) == Escaped(UnsupportedOperation)
  {
  }

  /** As written, an object "requestId" on a known type escapes in the same way. */
  lemma ObjectRequestIdEscapes(codec: PayloadCodec, id: string)
    requires FindById(id).Some?
    ensures DeserializeAsWritten(Parsed(JObj(map["type" := JStr(id), "requestId" := JObj(map[])])), codec)
            == Escaped(UnsupportedOperation)
  {
  }

  /** The corrected decoding never escapes: those inputs give null. */
  lemma CorrectedNeverEscapes(codec: PayloadCodec, id: string)
    requires FindById(id).Some?
    ensures Deserialize(Parsed(JObj(map["type" := JNull])), codec) == None
    ensures Deserialize(Parsed(JObj(map["type" := JStr(id), "requestId" := JObj(map[])])), codec) == None
  {
    NullTypeEscapes(codec);
    ObjectRequestIdEscapes(codec, id);
  }
}
