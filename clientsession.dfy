/**
 * A server's session with one connected client after the handshake: the gate
 * every incoming message passes through, the session flags, and the messages
 * the session sends back. The handler registry is abstract: a function from a
 * message to whether it was handled and what the handler replied through its
 * response context.
 */
module Sessions {
  import opened Wrappers
  import opened Payloads
  import opened MessageTypes
  import opened Endpoints
  import opened Ansi
  import Caps = ProtocolCapabilities

  // ---------------------------------------------------------------------------
  // Response contexts
  // ---------------------------------------------------------------------------

  /** The response context of one incoming message: its request id, possibly absent. */
  datatype ResponseContext = ResponseContext(requestId: Option<string>)

  /** buildError: an ERROR answering the context's request, or unsolicited without one. */
  function BuildError(ctx: ResponseContext, message: string, details: Option<string>): (m: Message)
    ensures m.requestId == ctx.requestId && m.msgType == ERROR
    ensures m.payload == Error(message, details) && WellTyped(m)
  {
    Message(ERROR, ctx.requestId, Error(message, details))
  }

  /** buildResponse: the payload under its server type, echoing the request id; a client
    * payload is refused with IllegalArgumentException. */
  function BuildResponse(ctx: ResponseContext, payload: Payload): (r: Result<Message, string>)
    ensures r.Ok? <==> IsServerPayload(payload)
    ensures r.Ok? ==> r.value.requestId == ctx.requestId && r.value.payload == payload && WellTyped(r.value)
    ensures r.Ok? ==> r.value.msgType.direction == ServerToClient
  {
    ServerTypeForPayloadIffServerPayload(payload);
    match ServerTypeForPayload(payload)
    case Ok(t) => Ok(Message(t, ctx.requestId, payload))
    case Err(e) => Err(e)
  }

  /** What a handler does through its context: reply with a payload, or report an error. */
  datatype Reply = ReplyWith(payload: Payload) | ErrorWith(message: string, details: Option<string>)

  /** The messages a run of replies sends, up to the first reply that throws, and what it threw. */
  datatype Sending = Sending(sent: seq<Message>, thrown: Option<string>)

  function SendReplies(ctx: ResponseContext, replies: seq<Reply>): (r: Sending)
    ensures |r.sent| <= |replies|
    ensures r.thrown.None? ==> |r.sent| == |replies|
    ensures forall i :: 0 <= i < |r.sent| ==> r.sent[i].requestId == ctx.requestId && WellTyped(r.sent[i])
    decreases |replies|
  {
    if replies == [] then Sending([], None)
    else
      var first: Result<Message, string> :=
        match replies[0]
        case ReplyWith(payload) => BuildResponse(ctx, payload)
        case ErrorWith(message, details) => Ok(BuildError(ctx, message, details));
      if first.Err? then Sending([], Some(first.error))
      else
        var rest := SendReplies(ctx, replies[1..]);
        Sending([first.value] + rest.sent, rest.thrown)
  }

  /** A run of replies throws exactly when one of them carries a client payload. */
  lemma {:induction false} SendRepliesThrowsIffClientPayload(ctx: ResponseContext, replies: seq<Reply>)
    ensures SendReplies(ctx, replies).thrown.Some? <==>
            exists i :: 0 <= i < |replies| && replies[i].ReplyWith? && !IsServerPayload(replies[i].payload)
    decreases |replies|
  {
    if replies != [] {
      SendRepliesThrowsIffClientPayload(ctx, replies[1..]);
      ServerTypeForPayloadIffServerPayload(if replies[0].ReplyWith? then replies[0].payload else Pong);
      if SendReplies(ctx, replies[1..]).thrown.Some? {
        var i :| 0 <= i < |replies[1..]| && replies[1..][i].ReplyWith? && !IsServerPayload(replies[1..][i].payload);
        assert replies[i + 1] == replies[1..][i];
      }
      if exists i :: 0 <= i < |replies| && replies[i].ReplyWith? && !IsServerPayload(replies[i].payload) {
        var i :| 0 <= i < |replies| && replies[i].ReplyWith? && !IsServerPayload(replies[i].payload);
        if i > 0 {
          assert replies[1..][i - 1] == replies[i];
        }
      }
    }
  }

  /** The abstract handler registry: whether a message was handled, and the replies its
    * handler made; the handler runs with the session's color level in context. */
  datatype HandlerOutcome = HandlerOutcome(handled: bool, replies: seq<Reply>)

  datatype HandlerRegistry = HandlerRegistry(handle: (MessageType, Payload, ColorLevel) -> HandlerOutcome)

  // ---------------------------------------------------------------------------
  // The gate
  // ---------------------------------------------------------------------------

  /** Where the gate sends a message. */
  datatype GateOutcome = Refuse(error: string) | AnswerPing | SubscribeLogs | Dispatch

  const CapabilityNotNegotiated: string := "Capability not negotiated: "

  /** A type is usable when it has no capability or its capability was negotiated. */
  predicate Supports(negotiated: map<string, int>, t: MessageType) {
    t.capability.None? || t.capability.value in negotiated
  }

  /** accept's checks, in order: request id, PING, capability, LOG_SUBSCRIBE, direction,
    * interactivity; what passes them all is dispatched. */
  function Gate(m: Message, negotiated: map<string, int>, interactive: bool): (g: GateOutcome)
    ensures g.AnswerPing? ==> m.msgType == PING
    ensures g.SubscribeLogs? ==> m.msgType == LOG_SUBSCRIBE
    ensures g.Dispatch? ==> m.msgType.direction == ClientToServer && Supports(negotiated, m.msgType)
  {
    var t := m.msgType;
    if m.requestId.None? && t.requestIdRequired then Refuse("Missing requestId for message type: " + t.id)
    else if t == PING then AnswerPing
    else if t.capability.Some? && t.capability.value !in negotiated then Refuse(CapabilityNotNegotiated + t.capability.value)
    else if t == LOG_SUBSCRIBE then
      if !Supports(negotiated, LOG_FORWARD) then Refuse(CapabilityNotNegotiated + LOG_FORWARD.capability.value)
      else SubscribeLogs
    else if t.direction != ClientToServer then Refuse("Invalid message direction: " + t.id)
    else if !interactive && t.interactivityRequired then Refuse("Interactivity is currently unavailable")
    else Dispatch
  }

  /** A dispatched message is a client message of a negotiated capability, with its request id
    * when its type needs one, and interactive when its type needs it. */
  lemma DispatchMeansAllChecksPassed(m: Message, negotiated: map<string, int>, interactive: bool)
    requires Gate(m, negotiated, interactive) == Dispatch
    ensures m.msgType.requestIdRequired ==> m.requestId.Some?
    ensures m.msgType != PING && m.msgType != LOG_SUBSCRIBE
    ensures Supports(negotiated, m.msgType) && m.msgType.direction == ClientToServer
    ensures m.msgType.interactivityRequired ==> interactive
  {
  }

  /** A PING with its request id is answered whatever was negotiated and whatever the
    * interactivity; one without is refused for the missing id. */
  lemma PingIsAlwaysAnswered(m: Message, negotiated: map<string, int>, interactive: bool)
    requires m.msgType == PING
    ensures Gate(m, negotiated, interactive) ==
            if m.requestId.Some? then AnswerPing else Refuse("Missing requestId for message type: PING")
  {
  }

  /** An unnegotiated capability is refused before the direction and interactivity checks. */
  lemma CapabilityCheckedFirst(m: Message, negotiated: map<string, int>, interactive: bool)
    requires m.requestId.Some? || !m.msgType.requestIdRequired
    requires m.msgType != PING
    requires m.msgType.capability.Some? && m.msgType.capability.value !in negotiated
    ensures Gate(m, negotiated, interactive) == Refuse(CapabilityNotNegotiated + m.msgType.capability.value)
  {
  }

  /** LOG_SUBSCRIBE subscribes exactly when log_forward was negotiated; the second check on it
    * can never refuse, since the first already did. */
  lemma LogSubscribeNeedsLogForward(m: Message, negotiated: map<string, int>, interactive: bool)
    requires m.msgType == LOG_SUBSCRIBE
    ensures Gate(m, negotiated, interactive) ==
            if Caps.LogForward in negotiated then SubscribeLogs else Refuse(CapabilityNotNegotiated + Caps.LogForward)
  {
  }

  /** A server-to-client type that passes the capability check is refused for its direction. */
  lemma ServerTypesAreRefused(m: Message, negotiated: map<string, int>, interactive: bool)
    requires m.msgType in AllTypes && m.msgType.direction == ServerToClient
    requires Supports(negotiated, m.msgType)
    ensures Gate(m, negotiated, interactive) == Refuse("Invalid message direction: " + m.msgType.id)
  {
    DirectionAndRequestIdFlags(m.msgType);
    assert m.msgType != PING && m.msgType != LOG_SUBSCRIBE;
  }

  /** Without interactivity an interactive command is refused: it never reaches a handler. */
  lemma InteractiveTypesNeedInteractivity(m: Message, negotiated: map<string, int>)
    requires m.msgType in AllTypes && m.msgType.interactivityRequired
    requires m.requestId.Some? || !m.msgType.requestIdRequired
    requires Supports(negotiated, m.msgType)
    ensures Gate(m, negotiated, false) == Refuse("Interactivity is currently unavailable")
  {
    InteractivityFlags(m.msgType);
    DirectionAndRequestIdFlags(m.msgType);
    assert m.msgType != PING && m.msgType != LOG_SUBSCRIBE;
  }

  /** The first refusal: a missing request id is refused on an unsolicited ERROR. */
  lemma MissingRequestIdErrorIsUnsolicited(m: Message, negotiated: map<string, int>, interactive: bool)
    requires m.requestId.None? && m.msgType.requestIdRequired
    ensures Gate(m, negotiated, interactive) == Refuse("Missing requestId for message type: " + m.msgType.id)
    ensures BuildError(ResponseContext(m.requestId), Gate(m, negotiated, interactive).error, None).requestId.None?
  {
  }

  /** Everything accept sends for a message, and what escapes it. */
  function AcceptOutput(m: Message, negotiated: map<string, int>, interactive: bool,
                        colorLevel: ColorLevel, handlers: HandlerRegistry): (out: Sending)
    ensures forall i :: 0 <= i < |out.sent| ==> out.sent[i].requestId == m.requestId && WellTyped(out.sent[i])
    ensures out.thrown.Some? ==> Gate(m, negotiated, interactive) == Dispatch
  {
    ServerTypeOfPong(Pong);
    var ctx := ResponseContext(m.requestId);
    match Gate(m, negotiated, interactive)
    case Refuse(error) => Sending([BuildError(ctx, error, None)], None)
    case AnswerPing => Sending([Message(PONG, m.requestId, Pong)], None)
    case SubscribeLogs => Sending([], None)
    case Dispatch => DispatchOutput(m, colorLevel, handlers)
  }

  /** What dispatching to the registry sends: the handler's replies, then ERROR "Unknown message
    * type" if it did not handle the message and nothing escaped. */
  function DispatchOutput(m: Message, colorLevel: ColorLevel, handlers: HandlerRegistry): (out: Sending)
    ensures forall i :: 0 <= i < |out.sent| ==> out.sent[i].requestId == m.requestId && WellTyped(out.sent[i])
  {
    var ctx := ResponseContext(m.requestId);
    var outcome := handlers.handle(m.msgType, m.payload, colorLevel);
    var replies := SendReplies(ctx, outcome.replies);
    if replies.thrown.Some? || outcome.handled then replies
    else Sending(replies.sent + [BuildError(ctx, "Unknown message type: " + m.msgType.id, None)], None)
  }

  /** A message the gate refuses, or a PING, gets exactly one answer with its own request id. */
  lemma GateAnswersOnce(m: Message, negotiated: map<string, int>, interactive: bool,
                        colorLevel: ColorLevel, handlers: HandlerRegistry)
    requires !Gate(m, negotiated, interactive).Dispatch? && !Gate(m, negotiated, interactive).SubscribeLogs?
    ensures var out := AcceptOutput(m, negotiated, interactive, colorLevel, handlers);
            |out.sent| == 1 && out.sent[0].requestId == m.requestId && out.thrown.None?
            && (out.sent[0].msgType == PONG <==> Gate(m, negotiated, interactive) == AnswerPing)
  {
  }

  /** A dispatched message the handler leaves unhandled ends with ERROR "Unknown message type". */
  lemma UnhandledEndsWithUnknownType(m: Message, negotiated: map<string, int>, interactive: bool,
                                     colorLevel: ColorLevel, handlers: HandlerRegistry)
    requires Gate(m, negotiated, interactive) == Dispatch
    requires !handlers.handle(m.msgType, m.payload, colorLevel).handled
    requires forall i :: 0 <= i < |handlers.handle(m.msgType, m.payload, colorLevel).replies| ==>
               handlers.handle(m.msgType, m.payload, colorLevel).replies[i].ErrorWith?
    ensures var out := AcceptOutput(m, negotiated, interactive, colorLevel, handlers);
            out.thrown.None? && |out.sent| >= 1
            && out.sent[|out.sent| - 1] == BuildError(ResponseContext(m.requestId), "Unknown message type: " + m.msgType.id, None)
  {
    var replies := handlers.handle(m.msgType, m.payload, colorLevel).replies;
    SendRepliesThrowsIffClientPayload(ResponseContext(m.requestId), replies);
  }

  /** The unsolicited INTERACTIVITY_STATUS a session sends when interactivity_status was negotiated. */
  function StatusUpdate(negotiated: map<string, int>, available: bool): (r: seq<Message>)
    ensures |r| <= 1
    ensures |r| == 1 <==> Caps.InteractivityStatus in negotiated
    ensures |r| == 1 ==> r[0].requestId.None? && r[0].payload == InteractivityStatus(available) && WellTyped(r[0])
  {
    if Supports(negotiated, INTERACTIVITY_STATUS) then [Message(INTERACTIVITY_STATUS, None, InteractivityStatus(available))]
    else []
  }

  // ---------------------------------------------------------------------------
  // The session
  // ---------------------------------------------------------------------------

  class ClientSession {
    const connection: Outbox
    /** The thread-local color-level context the handlers run in. */
    const colorContext: ColorLevelContext
    var logReady: bool
    var interactivityAvailable: bool
    var colorLevel: ColorLevel
    var negotiatedCapabilities: map<string, int>

    constructor (connection: Outbox, colorContext: ColorLevelContext, interactivityAvailable: bool)
      ensures this.connection == connection && this.colorContext == colorContext
      ensures this.interactivityAvailable == interactivityAvailable
      ensures !logReady && colorLevel == NoColor && negotiatedCapabilities == map[]
    {
      this.connection := connection;
      this.colorContext := colorContext;
      this.interactivityAvailable := interactivityAvailable;
      logReady := false;
      colorLevel := NoColor;
      negotiatedCapabilities := map[];
    }

    /** isLogReady: subscribed, and log_forward negotiated. */
    function IsLogReady(): (r: bool)
      reads this
      ensures r <==> logReady && Caps.LogForward in negotiatedCapabilities
    {
      logReady && Supports(negotiatedCapabilities, LOG_FORWARD)
    }

    method SetColorLevel(level: ColorLevel)
      modifies this
      ensures colorLevel == level
      ensures logReady == old(logReady) && interactivityAvailable == old(interactivityAvailable)
      ensures negotiatedCapabilities == old(negotiatedCapabilities)
    {
      colorLevel := level;
    }

    method SetNegotiatedCapabilities(negotiated: map<string, int>)
      modifies this
      ensures negotiatedCapabilities == negotiated
      ensures logReady == old(logReady) && interactivityAvailable == old(interactivityAvailable)
      ensures colorLevel == old(colorLevel)
    {
      negotiatedCapabilities := negotiated;
    }

    /** initialize: announce the interactivity flag when interactivity_status was negotiated. */
    method Initialize()
      modifies connection
      ensures connection.sent == old(connection.sent) + StatusUpdate(negotiatedCapabilities, interactivityAvailable)
    {
      if Supports(negotiatedCapabilities, INTERACTIVITY_STATUS) {
        connection.Send(Message(INTERACTIVITY_STATUS, None, InteractivityStatus(interactivityAvailable)));
      }
    }

    /** setInteractivityAvailable: record the flag and announce it the same way. */
    method SetInteractivityAvailable(available: bool)
      modifies this, connection
      ensures interactivityAvailable == available
      ensures logReady == old(logReady) && colorLevel == old(colorLevel)
      ensures negotiatedCapabilities == old(negotiatedCapabilities)
      ensures connection.sent == old(connection.sent) + StatusUpdate(negotiatedCapabilities, available)
    {
      interactivityAvailable := available;
      if Supports(negotiatedCapabilities, INTERACTIVITY_STATUS) {
        connection.Send(Message(INTERACTIVITY_STATUS, None, InteractivityStatus(available)));
      }
    }

    /** The context's messages go out one after another. */
    method SendAll(ms: seq<Message>)
      modifies connection
      ensures connection.sent == old(connection.sent) + ms
    {
      var i := 0;
      while i < |ms|
        invariant 0 <= i <= |ms|
        invariant connection.sent == old(connection.sent) + ms[..i]
      {
        connection.Send(ms[i]);
        i := i + 1;
      }
    }

    /** accept: pass the message through the gate; dispatch it to the registry with the
      * session's color level pushed, and restore the context afterwards. `thrown` is an
      * exception escaping accept (a handler replying with a client payload). */
    method Accept(m: Message, handlers: HandlerRegistry) returns (thrown: Option<string>)
      modifies this, connection, colorContext
      ensures connection.sent == old(connection.sent)
              + AcceptOutput(m, old(negotiatedCapabilities), old(interactivityAvailable), old(colorLevel), handlers).sent
      ensures thrown == AcceptOutput(m, old(negotiatedCapabilities), old(interactivityAvailable), old(colorLevel), handlers).thrown
      ensures colorContext.current == old(colorContext.current)
      ensures logReady == (old(logReady) || Gate(m, old(negotiatedCapabilities), old(interactivityAvailable)) == SubscribeLogs)
      ensures old(IsLogReady()) ==> IsLogReady()
      ensures !old(IsLogReady()) ==> (IsLogReady() <==> m.msgType == LOG_SUBSCRIBE && Caps.LogForward in negotiatedCapabilities)
      ensures interactivityAvailable == old(interactivityAvailable) && colorLevel == old(colorLevel)
      ensures negotiatedCapabilities == old(negotiatedCapabilities)
    {
      var ctx := ResponseContext(m.requestId);
      var gate := Gate(m, negotiatedCapabilities, interactivityAvailable);
      thrown := None;
      match gate {
        case Refuse(error) =>
          connection.Send(BuildError(ctx, error, None));
        case AnswerPing =>
          ServerTypeOfPong(Pong);
          var pong := BuildResponse(ctx, Pong);
          connection.Send(pong.value);
        case SubscribeLogs =>
          logReady := true;
        case Dispatch =>
          thrown := RunHandler(m, handlers);
      }
    }

    /** The handler call, inside a scope that pushes the session's color level. */
    method RunHandler(m: Message, handlers: HandlerRegistry) returns (thrown: Option<string>)
      modifies connection, colorContext
      ensures connection.sent == old(connection.sent) + DispatchOutput(m, colorLevel, handlers).sent
      ensures thrown == DispatchOutput(m, colorLevel, handlers).thrown
      ensures colorContext.current == old(colorContext.current)
    {
      var ctx := ResponseContext(m.requestId);
      var scope := colorContext.Push(colorLevel);
      var outcome := handlers.handle(m.msgType, m.payload, colorContext.Current());
      var replies := SendReplies(ctx, outcome.replies);
      assert DispatchOutput(m, colorLevel, handlers) ==
             if replies.thrown.Some? || outcome.handled then replies
             else Sending(replies.sent + [BuildError(ctx, "Unknown message type: " + m.msgType.id, None)], None);
      SendAll(replies.sent);
      colorContext.Close(scope);
      thrown := ReportUnhandled(m, ctx, replies.thrown, outcome.handled);
    }

    /** After the handlers: a message none of them took, when no reply threw, gets ERROR
      * "Unknown message type"; an exception a reply threw escapes. */
    method ReportUnhandled(m: Message, ctx: ResponseContext, replyThrown: Option<string>, handled: bool)
      returns (thrown: Option<string>)
      modifies connection
      ensures thrown == replyThrown
      ensures connection.sent == old(connection.sent) +
              if replyThrown.Some? || handled then [] else [BuildError(ctx, "Unknown message type: " + m.msgType.id, None)]
    {
      thrown := replyThrown;
      if thrown.None? && !handled {
        connection.Send(BuildError(ctx, "Unknown message type: " + m.msgType.id, None));
      }
    }
  }

  /** The gate subscribes a session to the log for LOG_SUBSCRIBE with log_forward negotiated,
    * and for no other message, so an accepted LOG_SUBSCRIBE is the only way to log-readiness. */
  lemma OnlySubscribeMakesLogReady(m: Message, negotiated: map<string, int>, interactive: bool)
    ensures Gate(m, negotiated, interactive) == SubscribeLogs <==> m.msgType == LOG_SUBSCRIBE && Caps.LogForward in negotiated
  {
  }
}
