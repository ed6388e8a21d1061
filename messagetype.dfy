/**
 * The registry of message types: sixteen kinds, each with an id, a direction,
 * whether it needs a request id, its payload class, the capability it belongs
 * to and whether it needs interactivity.
 */
module MessageTypes {
  import opened Wrappers
  import opened Payloads
  import Caps = ProtocolCapabilities

  datatype Direction = ClientToServer | ServerToClient

  datatype MessageType = MessageType(
    id: string,
    direction: Direction,
    requestIdRequired: bool,
    payloadType: PayloadClass,
    capability: Option<string>,
    interactivityRequired: bool)

  /** A client request outside any capability: needs a request id, no interactivity. */
  function ClientRequest(name: string, payloadType: PayloadClass): MessageType {
    MessageType(name, ClientToServer, true, payloadType, None, false)
  }

  /** A client request belonging to a capability. */
  function CapabilityClientRequest(name: string, payloadType: PayloadClass, capability: string, interactivityRequired: bool): MessageType {
    MessageType(name, ClientToServer, true, payloadType, Some(capability), interactivityRequired)
  }

  /** A server message outside any capability. */
  function ServerMessage(name: string, payloadType: PayloadClass): MessageType {
    MessageType(name, ServerToClient, false, payloadType, None, false)
  }

  /** A server message belonging to a capability. */
  function CapabilityServerMessage(name: string, payloadType: PayloadClass, capability: string): MessageType {
    MessageType(name, ServerToClient, false, payloadType, Some(capability), false)
  }

  /** A client message without a request id, belonging to a capability. */
  function ClientMessage(name: string, payloadType: PayloadClass, capability: string, interactivityRequired: bool): MessageType {
    MessageType(name, ClientToServer, false, payloadType, Some(capability), interactivityRequired)
  }

  // The baseline types, in registration order.
  const HELLO := ClientRequest("HELLO", HelloClass)
  const WELCOME := ServerMessage("WELCOME", WelcomeClass)
  const REJECT := ServerMessage("REJECT", RejectClass)
  const PING := ClientRequest("PING", PingClass)
  const PONG := ServerMessage("PONG", PongClass)
  const ERROR := ServerMessage("ERROR", ErrorClass)
  const INTERACTIVITY_STATUS := CapabilityServerMessage("INTERACTIVITY_STATUS", InteractivityStatusClass, Caps.InteractivityStatus)
  const COMPLETION_REQUEST := CapabilityClientRequest("COMPLETION_REQUEST", CompletionRequestClass, Caps.Completion, true)
  const COMPLETION_RESPONSE := CapabilityServerMessage("COMPLETION_RESPONSE", CompletionResponseClass, Caps.Completion)
  const SYNTAX_HIGHLIGHT_REQUEST := CapabilityClientRequest("SYNTAX_HIGHLIGHT_REQUEST", SyntaxHighlightRequestClass, Caps.SyntaxHighlight, true)
  const SYNTAX_HIGHLIGHT_RESPONSE := CapabilityServerMessage("SYNTAX_HIGHLIGHT_RESPONSE", SyntaxHighlightResponseClass, Caps.SyntaxHighlight)
  const PARSE_REQUEST := CapabilityClientRequest("PARSE_REQUEST", ParseRequestClass, Caps.Parse, true)
  const PARSE_RESPONSE := CapabilityServerMessage("PARSE_RESPONSE", ParseResponseClass, Caps.Parse)
  const COMMAND_EXECUTE := ClientMessage("COMMAND_EXECUTE", CommandExecuteClass, Caps.CommandExecute, true)
  const LOG_SUBSCRIBE := ClientMessage("LOG_SUBSCRIBE", LogSubscribeClass, Caps.LogForward, false)
  const LOG_FORWARD := CapabilityServerMessage("LOG_FORWARD", LogForwardClass, Caps.LogForward)

  const AllTypes: seq<MessageType> := [
    HELLO, WELCOME, REJECT, PING, PONG, ERROR, INTERACTIVITY_STATUS,
    COMPLETION_REQUEST, COMPLETION_RESPONSE, SYNTAX_HIGHLIGHT_REQUEST, SYNTAX_HIGHLIGHT_RESPONSE,
    PARSE_REQUEST, PARSE_RESPONSE, COMMAND_EXECUTE, LOG_SUBSCRIBE, LOG_FORWARD
  ]

  predicate DistinctIds(ts: seq<MessageType>) {
    forall i, j :: 0 <= i < j < |ts| ==> ts[i].id != ts[j].id
  }

  predicate DistinctPayloadTypes(ts: seq<MessageType>) {
    forall i, j :: 0 <= i < j < |ts| ==> ts[i].payloadType != ts[j].payloadType
  }

  /** A cheap fingerprint of an id: its length and second letter. */
  function IdKey(id: string): int {
    |id| * 128 + (if |id| > 1 then id[1] as int else 0)
  }

  /** The fingerprints of the sixteen ids, in registration order. */
  const IdKeys: seq<int> := [
    5 * 128 + 'E' as int, 7 * 128 + 'E' as int, 6 * 128 + 'E' as int, 4 * 128 + 'I' as int,
    4 * 128 + 'O' as int, 5 * 128 + 'R' as int, 20 * 128 + 'N' as int, 18 * 128 + 'O' as int,
    19 * 128 + 'O' as int, 24 * 128 + 'Y' as int, 25 * 128 + 'Y' as int, 13 * 128 + 'A' as int,
    14 * 128 + 'A' as int, 15 * 128 + 'O' as int, 13 * 128 + 'O' as int, 11 * 128 + 'O' as int]

  lemma IdKeysOfAllTypes()
    ensures |AllTypes| == |IdKeys| == 16
    ensures forall i :: 0 <= i < 16 ==> IdKey(AllTypes[i].id) == IdKeys[i]
  {
  }

  lemma IdKeysDistinct()
    ensures |IdKeys| == 16
    ensures forall i, j :: 0 <= i < j < 16 ==> IdKeys[i] != IdKeys[j]
  {
  }

  /** The sixteen ids differ pairwise. */
  lemma IdsDistinct()
    ensures |AllTypes| == 16
    ensures DistinctIds(AllTypes)
  {
    IdKeysOfAllTypes();
    IdKeysDistinct();
  }

  /** Position of a payload class in the registration order. */
  function RegistrationIndex(c: PayloadClass): (i: int)
    ensures 0 <= i < 16
  {
    match c
    case HelloClass => 0
    case WelcomeClass => 1
    case RejectClass => 2
    case PingClass => 3
    case PongClass => 4
    case ErrorClass => 5
    case InteractivityStatusClass => 6
    case CompletionRequestClass => 7
    case CompletionResponseClass => 8
    case SyntaxHighlightRequestClass => 9
    case SyntaxHighlightResponseClass => 10
    case ParseRequestClass => 11
    case ParseResponseClass => 12
    case CommandExecuteClass => 13
    case LogSubscribeClass => 14
    case LogForwardClass => 15
  }

  lemma RegistrationIndexOfAllTypes()
    ensures |AllTypes| == 16
    ensures forall i :: 0 <= i < 16 ==> RegistrationIndex(AllTypes[i].payloadType) == i
  {
  }

  /** The sixteen payload classes differ pairwise. */
  lemma PayloadTypesDistinct()
    ensures |AllTypes| == 16
    ensures DistinctPayloadTypes(AllTypes)
  {
    RegistrationIndexOfAllTypes();
  }

  /** Every payload class is the payload type of some registered type. */
  lemma EveryPayloadClassRegistered(c: PayloadClass)
    ensures exists i :: 0 <= i < |AllTypes| && AllTypes[i].payloadType == c
  {
    RegistrationIndexOfAllTypes();
    var i := RegistrationIndex(c);
    assert 0 <= i < 16;
    assert AllTypes[i].payloadType == c;
  }

  // ---------------------------------------------------------------------------
  // The flags, by kind
  // ---------------------------------------------------------------------------

  /** clientRequest kinds go client to server and need a request id; clientMessage kinds
    * go client to server without one; server messages need neither a request id nor
    * interactivity. */
  lemma DirectionAndRequestIdFlags(t: MessageType)
    requires t in AllTypes
    ensures t.direction == ClientToServer && t.requestIdRequired
            <==> t.id in {"HELLO", "PING", "COMPLETION_REQUEST", "SYNTAX_HIGHLIGHT_REQUEST", "PARSE_REQUEST"}
    ensures t.direction == ClientToServer && !t.requestIdRequired <==> t.id in {"COMMAND_EXECUTE", "LOG_SUBSCRIBE"}
    ensures t.direction == ServerToClient ==> !t.requestIdRequired && !t.interactivityRequired
  {
  }

  /** Exactly the three capability requests and COMMAND_EXECUTE need interactivity. */
  lemma InteractivityFlags(t: MessageType)
    requires t in AllTypes
    ensures t.interactivityRequired
            <==> t.id in {"COMPLETION_REQUEST", "SYNTAX_HIGHLIGHT_REQUEST", "PARSE_REQUEST", "COMMAND_EXECUTE"}
  {
  }

  /** The six baseline kinds carry no capability; each other kind carries one of the six names. */
  lemma CapabilityFlags(t: MessageType)
    requires t in AllTypes
    ensures t.capability.None? <==> t.id in {"HELLO", "WELCOME", "REJECT", "PING", "PONG", "ERROR"}
    ensures t.capability.Some? ==> t.capability.value in Caps.AllNames
  {
  }

  function IsClientToServer(t: MessageType): bool {
    t.direction == ClientToServer
  }

  function IsServerToClient(t: MessageType): bool {
    t.direction == ServerToClient
  }

  /** Every type goes one way: exactly one of the two direction tests holds. */
  lemma ExactlyOneDirection(t: MessageType)
    ensures IsClientToServer(t) != IsServerToClient(t)
  {
  }

  // ---------------------------------------------------------------------------
  // Lookups
  // ---------------------------------------------------------------------------

  /** The first type in `ts` with the given id. */
  function FindIdIn(ts: seq<MessageType>, id: string): (r: Option<MessageType>)
    ensures r.Some? ==> r.value in ts && r.value.id == id
    ensures r.None? <==> forall i :: 0 <= i < |ts| ==> ts[i].id != id
    decreases |ts|
  {
    if ts == [] then None
    else
      var init := ts[..|ts| - 1];
      match FindIdIn(init, id)
      case Some(t) => Some(t)
      case None => if ts[|ts| - 1].id == id then Some(ts[|ts| - 1]) else None
  }

  /** The first type in `ts` with the given payload class. */
  function FindClassIn(ts: seq<MessageType>, c: PayloadClass): (r: Option<MessageType>)
    ensures r.Some? ==> r.value in ts && r.value.payloadType == c
    ensures r.None? <==> forall i :: 0 <= i < |ts| ==> ts[i].payloadType != c
    decreases |ts|
  {
    if ts == [] then None
    else
      var init := ts[..|ts| - 1];
      match FindClassIn(init, c)
      case Some(t) => Some(t)
      case None => if ts[|ts| - 1].payloadType == c then Some(ts[|ts| - 1]) else None
  }

  /** findById: the registered type with this id, or null. */
  function FindById(id: string): (r: Option<MessageType>)
    ensures r.Some? ==> r.value in AllTypes && r.value.id == id
    ensures r.None? <==> forall t :: t in AllTypes ==> t.id != id
  {
    FindIdIn(AllTypes, id)
  }

  /** byIdOrThrow: as findById, but an unknown id is an IllegalArgumentException. */
  function ByIdOrThrow(id: string): (r: Result<MessageType, string>)
    ensures r.Ok? ==> r.value in AllTypes && r.value.id == id
    ensures r.Err? <==> forall t :: t in AllTypes ==> t.id != id
    ensures r.Err? ==> r.error == "No message type with id '" + id + "'"
  {
    match FindById(id)
    case Some(t) => Ok(t)
    case None => Err("No message type with id '" + id + "'")
  }

  /** findByPayloadClass: the registered type whose payload class this is. */
  function FindByPayloadClass(c: PayloadClass): (r: Option<MessageType>)
    ensures r.Some? && r.value in AllTypes && r.value.payloadType == c
  {
    EveryPayloadClassRegistered(c);
    FindClassIn(AllTypes, c)
  }

  /** Looking up a registered type's id finds that very type. */
  lemma FindByIdRoundTrip(t: MessageType)
    requires t in AllTypes
    ensures FindById(t.id) == Some(t)
    ensures ByIdOrThrow(t.id) == Ok(t)
  {
    IdsDistinct();
    var u := FindById(t.id).value;
    var i :| 0 <= i < |AllTypes| && AllTypes[i] == t;
    var j :| 0 <= j < |AllTypes| && AllTypes[j] == u;
    assert AllTypes[i].id == AllTypes[j].id;
  }

  /** Looking up a registered type's payload class finds that very type, so the
    * class-to-type mapping is injective. */
  lemma FindByPayloadClassRoundTrip(t: MessageType)
    requires t in AllTypes
    ensures FindByPayloadClass(t.payloadType) == Some(t)
  {
    PayloadTypesDistinct();
    var u := FindByPayloadClass(t.payloadType).value;
    var i :| 0 <= i < |AllTypes| && AllTypes[i] == t;
    var j :| 0 <= j < |AllTypes| && AllTypes[j] == u;
    assert AllTypes[i].payloadType == AllTypes[j].payloadType;
  }

  /** findByPayloadClass finds the type registered at the class's position. */
  lemma FindByPayloadClassAt(c: PayloadClass)
    ensures 0 <= RegistrationIndex(c) < |AllTypes|
    ensures FindByPayloadClass(c) == Some(AllTypes[RegistrationIndex(c)])
  {
    RegistrationIndexOfAllTypes();
    FindByPayloadClassRoundTrip(AllTypes[RegistrationIndex(c)]);
  }

  /** A payload a server may send: one of the nine server-to-client records. */
  predicate IsServerPayload(p: Payload) {
    p.Welcome? || p.Reject? || p.CompletionResponse? || p.SyntaxHighlightResponse? || p.ParseResponse?
    || p.LogForward? || p.Pong? || p.Error? || p.InteractivityStatus?
  }

  /** serverTypeForPayload: the type to send a payload under; a client payload is refused. */
  function ServerTypeForPayload(p: Payload): (r: Result<MessageType, string>)
    ensures r.Ok? ==> r.value in AllTypes && r.value.payloadType == ClassOf(p) && r.value.direction == ServerToClient
    ensures r.Err? ==> r.error == "Cannot send request payload as response: " + SimpleName(ClassOf(p))
  {
    match FindByPayloadClass(ClassOf(p))
    case None => Err("Unknown payload type: " + SimpleName(ClassOf(p)))
    case Some(t) =>
      if !IsServerToClient(t) then Err("Cannot send request payload as response: " + SimpleName(ClassOf(p)))
      else Ok(t)
  }

  /** The direction each payload class travels in. */
  function ClassDirection(c: PayloadClass): Direction {
    match c
    case WelcomeClass | RejectClass | PongClass | ErrorClass | InteractivityStatusClass
      | CompletionResponseClass | SyntaxHighlightResponseClass | ParseResponseClass | LogForwardClass => ServerToClient
    case _ => ClientToServer
  }

  /** Every registered type travels in its payload class's direction. */
  lemma DirectionFollowsClass()
    ensures |AllTypes| == 16
    ensures forall i :: 0 <= i < 16 ==> AllTypes[i].direction == ClassDirection(AllTypes[i].payloadType)
  {
  }

  /** serverTypeForPayload accepts a payload exactly when the type registered at its
    * class's position goes server to client. */
  lemma ServerTypeAcceptsByPosition(p: Payload)
    ensures ServerTypeForPayload(p).Ok? <==> IsServerToClient(AllTypes[RegistrationIndex(ClassOf(p))])
  {
    var c := ClassOf(p);
    FindByPayloadClassAt(c);
  }

  /** The server payloads are exactly those of the classes that travel server to client. */
  lemma ServerPayloadByClassDirection(p: Payload)
    ensures IsServerPayload(p) <==> ClassDirection(ClassOf(p)) == ServerToClient
  {
  }

  /** The nine server payloads are accepted, the seven client payloads refused. */
  lemma ServerTypeForPayloadIffServerPayload(p: Payload)
    ensures ServerTypeForPayload(p).Ok? <==> IsServerPayload(p)
  {
    var c := ClassOf(p);
    var i := RegistrationIndex(c);
    FindByPayloadClassAt(c);
    ServerTypeAcceptsByPosition(p);
    ServerPayloadByClassDirection(p);
    DirectionFollowsClass();
    assert AllTypes[i].payloadType == c;
    assert AllTypes[i].direction == ClassDirection(c);
  }

  /** The two handshake answers go out under REJECT and WELCOME. */
  lemma ServerTypeOfHandshakePayloads(p: Payload)
    requires p.Reject? || p.Welcome?
    ensures ServerTypeForPayload(p) == Ok(if p.Reject? then REJECT else WELCOME)
  {
    if p.Reject? {
      ServerTypeOfReject(p);
    } else {
      ServerTypeOfWelcome(p);
    }
  }

  /** A refusal goes out under REJECT. */
  lemma ServerTypeOfReject(p: Payload)
    requires p.Reject?
    ensures ServerTypeForPayload(p) == Ok(REJECT)
  {
    assert ClassOf(p) == RejectClass;
    FindByPayloadClassAt(RejectClass);
    assert AllTypes[2] == REJECT;
  }

  /** An acceptance goes out under WELCOME. */
  lemma ServerTypeOfWelcome(p: Payload)
    requires p.Welcome?
    ensures ServerTypeForPayload(p) == Ok(WELCOME)
  {
    assert ClassOf(p) == WelcomeClass;
    FindByPayloadClassAt(WelcomeClass);
    assert AllTypes[1] == WELCOME;
  }

  /** A PONG answer goes out under PONG. */
  lemma ServerTypeOfPong(p: Payload)
    requires p.Pong?
    ensures ServerTypeForPayload(p) == Ok(PONG)
  {
    assert ClassOf(p) == PongClass;
    FindByPayloadClassAt(PongClass);
    assert AllTypes[4] == PONG;
  }

  // ---------------------------------------------------------------------------
  // Registration (the static initialiser filling ID_TO_TYPE, PAYLOAD_TO_TYPE, ALL)
  // ---------------------------------------------------------------------------

  /** The id map that registering `ts` in order leaves behind. */
  function IdMap(ts: seq<MessageType>): map<string, MessageType>
    decreases |ts|
  {
    if ts == [] then map[] else IdMap(ts[..|ts| - 1])[ts[|ts| - 1].id := ts[|ts| - 1]]
  }

  /** The class map that registering `ts` in order leaves behind. */
  function ClassMap(ts: seq<MessageType>): map<PayloadClass, MessageType>
    decreases |ts|
  {
    if ts == [] then map[] else ClassMap(ts[..|ts| - 1])[ts[|ts| - 1].payloadType := ts[|ts| - 1]]
  }

  /** The id map holds exactly the ids of `ts`; with distinct ids, each maps to its own type. */
  lemma {:induction false} IdMapContents(ts: seq<MessageType>)
    ensures forall id :: id in IdMap(ts) <==> exists i :: 0 <= i < |ts| && ts[i].id == id
    ensures DistinctIds(ts) ==> forall i :: 0 <= i < |ts| ==> IdMap(ts)[ts[i].id] == ts[i]
    decreases |ts|
  {
    if ts != [] {
      var init, t := ts[..|ts| - 1], ts[|ts| - 1];
      IdMapContents(init);
      forall id ensures id in IdMap(ts) <==> exists i :: 0 <= i < |ts| && ts[i].id == id {
        if id in IdMap(init) {
          var i :| 0 <= i < |init| && init[i].id == id;
          assert ts[i].id == id;
        }
        if exists i :: 0 <= i < |ts| && ts[i].id == id {
          var i :| 0 <= i < |ts| && ts[i].id == id;
          if i < |init| {
            assert init[i].id == id;
          }
        }
      }
      if DistinctIds(ts) {
        assert DistinctIds(init);
        forall i | 0 <= i < |ts| ensures IdMap(ts)[ts[i].id] == ts[i] {
          if i < |init| {
            assert init[i] == ts[i];
          }
        }
      }
    }
  }

  /** The class map holds exactly the classes of `ts`; with distinct classes, each maps to its own type. */
  lemma {:induction false} ClassMapContents(ts: seq<MessageType>)
    ensures forall c :: c in ClassMap(ts) <==> exists i :: 0 <= i < |ts| && ts[i].payloadType == c
    ensures DistinctPayloadTypes(ts) ==> forall i :: 0 <= i < |ts| ==> ClassMap(ts)[ts[i].payloadType] == ts[i]
    decreases |ts|
  {
    if ts != [] {
      var init, t := ts[..|ts| - 1], ts[|ts| - 1];
      ClassMapContents(init);
      forall c ensures c in ClassMap(ts) <==> exists i :: 0 <= i < |ts| && ts[i].payloadType == c {
        if c in ClassMap(init) {
          var i :| 0 <= i < |init| && init[i].payloadType == c;
          assert ts[i].payloadType == c;
        }
        if exists i :: 0 <= i < |ts| && ts[i].payloadType == c {
          var i :| 0 <= i < |ts| && ts[i].payloadType == c;
          if i < |init| {
            assert init[i].payloadType == c;
          }
        }
      }
      if DistinctPayloadTypes(ts) {
        assert DistinctPayloadTypes(init);
        forall i | 0 <= i < |ts| ensures ClassMap(ts)[ts[i].payloadType] == ts[i] {
          if i < |init| {
            assert init[i] == ts[i];
          }
        }
      }
    }
  }

  /** With distinct ids, the first match in `ts` is the entry the id map keeps. */
  lemma {:induction false} FindIdInAgreesWithIdMap(ts: seq<MessageType>, id: string)
    requires DistinctIds(ts)
    ensures id in IdMap(ts) <==> FindIdIn(ts, id).Some?
    ensures id in IdMap(ts) ==> FindIdIn(ts, id) == Some(IdMap(ts)[id])
    decreases |ts|
  {
    if ts != [] {
      var init := ts[..|ts| - 1];
      assert DistinctIds(init);
      FindIdInAgreesWithIdMap(init, id);
      IdMapContents(init);
      if id in IdMap(init) {
        var i :| 0 <= i < |init| && init[i].id == id;
        assert ts[i].id == id;
      }
    }
  }

  /** With distinct classes, the first match in `ts` is the entry the class map keeps. */
  lemma FindClassInAgreesWithClassMap(ts: seq<MessageType>, c: PayloadClass)
    requires DistinctPayloadTypes(ts)
    ensures c in ClassMap(ts) <==> FindClassIn(ts, c).Some?
    ensures c in ClassMap(ts) ==> FindClassIn(ts, c) == Some(ClassMap(ts)[c])
  {
    ClassMapContents(ts);
    var r := FindClassIn(ts, c);
    if r.Some? {
      var j :| 0 <= j < |ts| && ts[j] == r.value;
      assert ClassMap(ts)[ts[j].payloadType] == ts[j];
    }
  }

  /** With distinct ids and classes, the next type of a list has neither an id nor a class
    * that the types before it registered. */
  lemma NextIsFresh(ts: seq<MessageType>, k: int)
    requires DistinctIds(ts) && DistinctPayloadTypes(ts) && 0 <= k < |ts|
    ensures ts[k].id !in IdMap(ts[..k]) && ts[k].payloadType !in ClassMap(ts[..k])
  {
    IdMapContents(ts[..k]);
    ClassMapContents(ts[..k]);
    forall i | 0 <= i < k ensures ts[..k][i].id != ts[k].id && ts[..k][i].payloadType != ts[k].payloadType {
      assert ts[..k][i] == ts[i];
    }
  }

  /** Appending a type with a new id keeps the ids distinct. */
  lemma AppendKeepsIdsDistinct(before: seq<MessageType>, t: MessageType)
    requires DistinctIds(before) && t.id !in IdMap(before)
    ensures DistinctIds(before + [t])
    ensures IdMap(before + [t]) == IdMap(before)[t.id := t]
  {
    IdMapContents(before);
    var all := before + [t];
    assert all[..|all| - 1] == before;
    forall i | 0 <= i < |before| ensures before[i].id != t.id {
    }
  }

  /** Appending a type with a new class keeps the classes distinct. */
  lemma AppendKeepsClassesDistinct(before: seq<MessageType>, t: MessageType)
    requires DistinctPayloadTypes(before) && t.payloadType !in ClassMap(before)
    ensures DistinctPayloadTypes(before + [t])
    ensures ClassMap(before + [t]) == ClassMap(before)[t.payloadType := t]
  {
    ClassMapContents(before);
    var all := before + [t];
    assert all[..|all| - 1] == before;
    forall i | 0 <= i < |before| ensures before[i].payloadType != t.payloadType {
    }
  }

  /** The three registry collections, filled one type at a time. */
  class Registry {
    var idToType: map<string, MessageType>
    var payloadToType: map<PayloadClass, MessageType>
    var all: seq<MessageType>

    /** Both maps are what registering the list in order gives, with no duplicate id or class. */
    predicate Valid()
      reads this
    {
      DistinctIds(all) && DistinctPayloadTypes(all)
      && idToType == IdMap(all) && payloadToType == ClassMap(all)
    }

    constructor()
      ensures idToType == map[] && payloadToType == map[] && all == []
      ensures Valid()
    {
      idToType, payloadToType, all := map[], map[], [];
    }

    /** register: the id map is written before the duplicate test, so a clash on the
      * id still overwrites it; a clash on the class overwrites the class map. */
    method Register(t: MessageType) returns (r: Result<MessageType, string>)
      modifies this
      ensures idToType == old(idToType)[t.id := t]
      ensures t.id in old(idToType) ==>
        r == Err("Duplicate message type id: " + t.id) && payloadToType == old(payloadToType) && all == old(all)
      ensures t.id !in old(idToType) && t.payloadType in old(payloadToType) ==>
        r == Err("Duplicate payload type mapping for " + ClassName(t.payloadType))
        && payloadToType == old(payloadToType)[t.payloadType := t] && all == old(all)
      ensures t.id !in old(idToType) && t.payloadType !in old(payloadToType) ==>
        r == Ok(t) && payloadToType == old(payloadToType)[t.payloadType := t] && all == old(all) + [t]
      ensures old(Valid()) && r.Ok? ==> Valid()
    {
      var existingById := t.id in idToType;
      idToType := idToType[t.id := t];
      if existingById {
        return Err("Duplicate message type id: " + t.id);
      }
      var existingByPayload := t.payloadType in payloadToType;
      payloadToType := payloadToType[t.payloadType := t];
      if existingByPayload {
        return Err("Duplicate payload type mapping for " + ClassName(t.payloadType));
      }
      if old(Valid()) {
        AppendKeepsIdsDistinct(all, t);
        AppendKeepsClassesDistinct(all, t);
      }
      all := all + [t];
      r := Ok(t);
    }

    /** The static initialiser: registers each of `ts` in order. With distinct ids and
      * classes no registration fails, and the registry then holds exactly `ts`. */
    method RegisterEach(ts: seq<MessageType>) returns (failure: Option<string>)
      requires Valid() && all == []
      requires DistinctIds(ts) && DistinctPayloadTypes(ts)
      modifies this
      ensures failure == None && Valid() && all == ts
    {
      var k := 0;
      while k < |ts|
        invariant 0 <= k <= |ts|
        invariant Valid() && all == ts[..k]
      {
        var t := ts[k];
        NextIsFresh(ts, k);
        var r := Register(t);
        assert ts[..k + 1] == ts[..k] + [t];
        k := k + 1;
      }
      assert ts[..k] == ts;
      failure := None;
    }
  }

  /** The registry the initialiser builds agrees with the lookups: findById and
    * findByPayloadClass read the maps it filled. */
  lemma RegistryAgreesWithLookups(r: Registry)
    requires r.Valid() && r.all == AllTypes
    ensures forall id :: id in r.idToType <==> FindById(id).Some?
    ensures forall id :: id in r.idToType ==> FindById(id) == Some(r.idToType[id])
    ensures forall c :: c in r.payloadToType && FindByPayloadClass(c) == Some(r.payloadToType[c])
  {
    forall id ensures (id in r.idToType <==> FindById(id).Some?)
                   && (id in r.idToType ==> FindById(id) == Some(r.idToType[id])) {
      FindIdInAgreesWithIdMap(AllTypes, id);
    }
    forall c ensures c in r.payloadToType && FindByPayloadClass(c) == Some(r.payloadToType[c]) {
      FindClassInAgreesWithClassMap(AllTypes, c);
      EveryPayloadClassRegistered(c);
    }
  }

  /** Registration of the sixteen types succeeds. */
  method InitializeRegistry() returns (r: Registry)
    ensures r.Valid() && r.all == AllTypes
  {
    r := new Registry();
    IdsDistinct();
    PayloadTypesDistinct();
    var failure := r.RegisterEach(AllTypes);
  }

  // ---------------------------------------------------------------------------
  // The envelope
  // ---------------------------------------------------------------------------

  /** A message: its type, the request id it answers or carries, and its payload. */
  datatype Message = Message(msgType: MessageType, requestId: Option<string>, payload: Payload)

  /** A message whose type is registered and whose payload is of that type's class. */
  predicate WellTyped(m: Message) {
    m.msgType in AllTypes && m.msgType.payloadType == ClassOf(m.payload)
  }
}
