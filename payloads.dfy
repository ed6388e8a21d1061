/**
 * The sixteen message payloads, the handshake reject reasons, and the payload
 * classes the message-type registry keys on. Every field that deserialised
 * JSON can leave null is an Option.
 */
module Payloads {
  import opened Wrappers
  import opened VersionRanges
  import opened Ansi

  datatype CandidateInfo = CandidateInfo(value: string, display: string, description: Option<string>)

  datatype Payload =
    // client to server
    | Hello(
        transportEpochRange: Option<CapabilityVersionRange>,
        colorLevel: Option<ColorLevel>,
        capabilities: Option<map<string, Option<CapabilityVersionRange>>>,
        requiredCapabilities: Option<set<Option<string>>>)
    | CompletionRequest(command: string, cursor: int)
    | SyntaxHighlightRequest(command: string)
    | ParseRequest(command: string, cursor: int)
    | CommandExecute(command: string)
    | Ping
    | LogSubscribe
    // server to client
    | Welcome(transportEpoch: int, selectedCapabilities: Option<map<string, Option<int>>>)
    | Reject(
        reason: Option<string>,
        message: Option<string>,
        expectedTransportEpoch: Option<int>,
        missingRequiredCapabilities: Option<set<string>>)
    | CompletionResponse(candidates: seq<CandidateInfo>)
    | SyntaxHighlightResponse(command: string, highlighted: string)
    | ParseResponse(word: string, wordCursor: int, wordIndex: int, words: seq<string>, line: string, cursor: int)
    | LogForward(rendered: string)
    | Pong
    | Error(errorMessage: string, details: Option<string>)
    | InteractivityStatus(available: bool)

  /** The record classes of the payloads (`payload.getClass()`). */
  datatype PayloadClass =
    | HelloClass | CompletionRequestClass | SyntaxHighlightRequestClass | ParseRequestClass
    | CommandExecuteClass | PingClass | LogSubscribeClass
    | WelcomeClass | RejectClass | CompletionResponseClass | SyntaxHighlightResponseClass
    | ParseResponseClass | LogForwardClass | PongClass | ErrorClass | InteractivityStatusClass

  function ClassOf(p: Payload): PayloadClass {
    match p
    case Hello(_, _, _, _) => HelloClass
    case CompletionRequest(_, _) => CompletionRequestClass
    case SyntaxHighlightRequest(_) => SyntaxHighlightRequestClass
    case ParseRequest(_, _) => ParseRequestClass
    case CommandExecute(_) => CommandExecuteClass
    case Ping => PingClass
    case LogSubscribe => LogSubscribeClass
    case Welcome(_, _) => WelcomeClass
    case Reject(_, _, _, _) => RejectClass
    case CompletionResponse(_) => CompletionResponseClass
    case SyntaxHighlightResponse(_, _) => SyntaxHighlightResponseClass
    case ParseResponse(_, _, _, _, _, _) => ParseResponseClass
    case LogForward(_) => LogForwardClass
    case Pong => PongClass
    case Error(_, _) => ErrorClass
    case InteractivityStatus(_) => InteractivityStatusClass
  }

  /** Class.getSimpleName of a payload record. */
  function SimpleName(c: PayloadClass): string {
    match c
    case HelloClass => "Hello"
    case CompletionRequestClass => "CompletionRequest"
    case SyntaxHighlightRequestClass => "SyntaxHighlightRequest"
    case ParseRequestClass => "ParseRequest"
    case CommandExecuteClass => "CommandExecute"
    case PingClass => "Ping"
    case LogSubscribeClass => "LogSubscribe"
    case WelcomeClass => "Welcome"
    case RejectClass => "Reject"
    case CompletionResponseClass => "CompletionResponse"
    case SyntaxHighlightResponseClass => "SyntaxHighlightResponse"
    case ParseResponseClass => "ParseResponse"
    case LogForwardClass => "LogForward"
    case PongClass => "Pong"
    case ErrorClass => "Error"
    case InteractivityStatusClass => "InteractivityStatus"
  }

  /** Class.getName of a payload record: nested in Payloads, so joined with '$'. */
  function ClassName(c: PayloadClass): string {
    "xyz.jpenilla.endermux.protocol.Payloads$" + SimpleName(c)
  }

  // Reasons a server gives in a handshake REJECT.
  const MissingRequestId: string := "missing_request_id"
  const ExpectedHello: string := "expected_hello"
  const UnsupportedTransportEpoch: string := "unsupported_transport_epoch"
  const InvalidTransportEpochRange: string := "invalid_transport_epoch_range"
  const MissingColorLevel: string := "missing_color_level"
  const MissingCapabilityNegotiationData: string := "missing_capability_negotiation_data"
  const InvalidCapabilityVersionRange: string := "invalid_capability_version_range"
  const InvalidRequiredCapabilityDeclaration: string := "invalid_required_capability_declaration"
  const MissingRequiredCapabilities: string := "missing_required_capabilities"
}
