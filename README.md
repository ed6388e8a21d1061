# Endermux protocol, sessions and log forwarding in Dafny

Endermux connects a terminal console client to a running server over a local socket. This project models its core:

- **Framing.** Each frame is a length-prefixed, optionally gzip-compressed payload with a one-byte compression tag. The model checks the size caps in both directions and proves that a written frame reads back.
- **Message envelope.** Sixteen registered message types, each with a wire id, a direction, a payload class, an optional capability and request-id and interactivity requirements. Messages are carried as a JSON envelope (`type`, `requestId`, `data`).
- **Versioning.** Capability version ranges and the negotiation of the highest version both sides support.
- **Handshake.** The server's `performHandshake` and the client's handler: the transport-epoch check, required capabilities, `REJECT` reasons and the `HandshakeFatal` exceptions the client raises, with their user-facing messages.
- **Server session.** `ClientSession`'s gating of each incoming message: request ids, PING, capabilities, direction and interactivity.
- **Console client.** `RemoteConsoleSession`: what it prints, which typed lines it sends, and the one-shot hint suppression. `EndermuxClient`: the quit decision, the exit code and the capped exponential retry backoff.
- **Logging contexts.** The per-thread color-level contexts (`ColorLevelContext`, `RenderColorContext`) and the five pre-rendered strings kept by `RichLogContext`.
- **Log forwarding.** `RemoteLogForwarder`'s per-level rendering and its rate-limited failure diagnostics, and `EndermuxForwardingAppender`'s single instance and forwarding target.

Code that changes state in place becomes a class with `modifies` and `old` contracts: the sessions, the handshake handlers, the context stacks, the forwarder and the appender slots. Pure code becomes functions with lemmas. Loops are methods proved against specification functions, such as the version countdown, the frame reader's buffer fill and the client's retry loop.

Java `null` is modelled as `Option`, and exceptions as `Result` values. Each color level's ANSI serializer is a plain value. The following are not modelled directly but enter as parameters:

- the socket;
- the clock;
- gzip;
- JSON text parsing;
- GSON's reflective payload mapping;
- what the terminal reader reports;
- the platform line separator that PatternLayout's `%n` writes.

The modules follow the source layout:

| file | module |
|---|---|
| `constants.dfy` | `ProtocolConstants` |
| `versionrange.dfy` | `VersionRanges` |
| `capabilities.dfy` | `ProtocolCapabilities` |
| `framecompression.dfy` | `FrameCompression` |
| `framecodec.dfy` | `FrameCodec` |
| `payloads.dfy` | `Payloads` |
| `messagetype.dfy` | `MessageTypes` |
| `serializer.dfy` | `MessageSerializer` |
| `handshakeerrors.dfy` | `HandshakeErrors` |
| `serverhandshake.dfy` | `ServerHandshake` |
| `clienthandshake.dfy` | `ClientHandshake` |
| `endpoint.dfy` | `Endpoints` |
| `clientsession.dfy` | `Sessions` |
| `ansi.dfy` | `Ansi` (ColorLevelContext) |
| `consolesession.dfy` | `ConsoleSession` |
| `supervisor.dfy` | `Supervisor` |
| `logcontexts.dfy` | `LogContexts` |
| `logforwarding.dfy` | `LogForwarding` |

Three modules are support code:

- `wrappers.dfy`: `Option` and `Result`;
- `strings.dfy`: the `java.lang.String` behaviour used, namely `trim`, integer rendering, joining and `compareTo`'s ordering by UTF-16 code unit;
- `endpoint.dfy`: a send-only transport.

## Model

| member | source | states |
|---|---|---|
| ProtocolConstants.ClientEpochRangeIsExactlyCurrent | endermux-common/src/main/java/xyz/jpenilla/endermux/protocol/SocketProtocolConstants.java:14-22 | the client's transport-epoch range is valid and contains exactly the current epoch 16 |
| VersionRanges.Valid | endermux-common/src/main/java/xyz/jpenilla/endermux/protocol/CapabilityVersionRange.java:18-28 | reference definition of validity: positive bounds in order and every exclusion between them; `IsValid` is proved to compute it |
| VersionRanges.Contains | endermux-common/src/main/java/xyz/jpenilla/endermux/protocol/CapabilityVersionRange.java:30-35 | reference definition of membership: a valid range, the version within the bounds and not excluded; `Includes` is proved to compute it |
| VersionRanges.IsValid | endermux-common/src/main/java/xyz/jpenilla/endermux/protocol/CapabilityVersionRange.java:18-28 | a range is valid exactly when its minimum is positive, its maximum is at least its minimum and every excluded version lies between them |
| VersionRanges.Includes | endermux-common/src/main/java/xyz/jpenilla/endermux/protocol/CapabilityVersionRange.java:30-35 | a version is included exactly when the range is valid, the version is inside the bounds and it is not excluded; an invalid range includes nothing |
| VersionRanges.SearchDown | endermux-common/src/main/java/xyz/jpenilla/endermux/protocol/CapabilityVersionRange.java:46-51 | counting down, the first version found is in both ranges and nothing above it (up to the start) is; when none is found, no version in the interval is in both |
| VersionRanges.HighestCommon | endermux-common/src/main/java/xyz/jpenilla/endermux/protocol/CapabilityVersionRange.java:37-52 | the answer is a version both ranges include and no larger version is; there is no answer exactly when the ranges share no version |
| VersionRanges.HighestCommonVersion | endermux-common/src/main/java/xyz/jpenilla/endermux/protocol/CapabilityVersionRange.java:37-52 | the countdown loop returns the highest version both ranges include, or none |
| VersionRanges.HighestCommonWithinBounds | endermux-common/src/main/java/xyz/jpenilla/endermux/protocol/CapabilityVersionRange.java:41-46 | a common version lies between the larger minimum and the smaller maximum |
| VersionRanges.HighestCommonSymmetric | endermux-common/src/main/java/xyz/jpenilla/endermux/protocol/CapabilityVersionRange.java:37-52 | asking either range about the other gives the same answer |
| VersionRanges.HighestCommonUnique | endermux-common/src/main/java/xyz/jpenilla/endermux/protocol/CapabilityVersionRange.java:37-52 | any answer that is a common version with none above it, or none when nothing is common, is the one highestCommonVersion gives |
| VersionRanges.InvalidHasNoCommonVersion | endermux-common/src/main/java/xyz/jpenilla/endermux/protocol/CapabilityVersionRange.java:38-40 | when either range is invalid there is no common version |
| VersionRanges.WorkedExample | endermux-common/src/test/java/xyz/jpenilla/endermux/protocol/CapabilityVersionRangeTest.java:28-33 | [1,5] without 5 and [3,6] without 4 have 3 as their highest common version |
| ProtocolCapabilities.NegotiateHighestCommonVersion | endermux-common/src/main/java/xyz/jpenilla/endermux/protocol/ProtocolCapabilities.java:60-65 | the negotiated version is the highest one both the client's and the server's range include, or none when they share none |
| ProtocolCapabilities.NamesDistinct | endermux-common/src/main/java/xyz/jpenilla/endermux/protocol/ProtocolCapabilities.java:13-18 | the six capability names are six different strings |
| ProtocolCapabilities.PoliciesCoverAllNames | endermux-common/src/main/java/xyz/jpenilla/endermux/protocol/ProtocolCapabilities.java:23-46 | the client and server policies each cover exactly the six capabilities |
| ProtocolCapabilities.RequiredAreSupported | endermux-common/src/main/java/xyz/jpenilla/endermux/protocol/ProtocolCapabilities.java:23-36 | the client requires three capabilities, all of which it supports |
| ProtocolCapabilities.PolicyRangesAreV1 | endermux-common/src/main/java/xyz/jpenilla/endermux/protocol/ProtocolCapabilities.java:20-46 | every policy range is [1,1] without exclusions, which is valid and contains exactly version 1 |
| ProtocolCapabilities.V1OnlyNegotiatesV1 | endermux-common/src/main/java/xyz/jpenilla/endermux/protocol/ProtocolCapabilities.java:60-65 | two [1,1] ranges negotiate version 1 |
| FrameCompression.WireValue | endermux-common/src/main/java/xyz/jpenilla/endermux/protocol/FrameCompressionType.java:7-17 | every compression type's tag fits in one unsigned byte |
| FrameCompression.FromWireValue | endermux-common/src/main/java/xyz/jpenilla/endermux/protocol/FrameCompressionType.java:23-30 | tags 0 and 1 are accepted and name the type with that tag; any other tag fails with "Unsupported frame compression: " and the tag |
| FrameCompression.WireValueRoundTrip | endermux-common/src/main/java/xyz/jpenilla/endermux/protocol/FrameCompressionType.java:19-30 | reading back the tag of a type gives that type |
| FrameCompression.WireValuesDistinct | endermux-common/src/main/java/xyz/jpenilla/endermux/protocol/FrameCompressionType.java:7-8 | NONE is tag 0 and GZIP is tag 1 |
| FrameCodec.DecodeInt32 | endermux-common/src/main/java/xyz/jpenilla/endermux/protocol/FrameCodec.java:24 | four big-endian bytes read as a value in the signed 32-bit range |
| FrameCodec.EncodeInt32 | endermux-common/src/main/java/xyz/jpenilla/endermux/protocol/FrameCodec.java:65 | the four bytes written for a 32-bit value read back as that value |
| FrameCodec.ValidateUncompressedPayloadSize | endermux-common/src/main/java/xyz/jpenilla/endermux/protocol/FrameCodec.java:91-96 | a payload is passed through unchanged exactly when it is within 4 MiB; otherwise "Uncompressed payload too large: " and its length |
| FrameCodec.OverflowTotalMeaning | endermux-common/src/main/java/xyz/jpenilla/endermux/protocol/FrameCodec.java:78-86 | the running total passes the cap exactly when the whole output would, and the total reported is over the cap and no more than the whole output |
| FrameCodec.Gunzipped | endermux-common/src/main/java/xyz/jpenilla/endermux/protocol/FrameCodec.java:71-89 | decompression succeeds exactly when the stream is sound and its output is within 4 MiB, giving that output; larger output fails with "Decompressed frame too large: " |
| FrameCodec.Gunzip | endermux-common/src/main/java/xyz/jpenilla/endermux/protocol/FrameCodec.java:71-89 | the copy loop with its running total gives what Gunzipped specifies, never more than 4 MiB |
| FrameCodec.DecodeFrame | endermux-common/src/main/java/xyz/jpenilla/endermux/protocol/FrameCodec.java:21-40 | end of stream before the length gives no frame; a frame consumes four bytes plus the length field, holds at most 4 MiB, and an uncompressed frame's data is the bytes after the tag |
| FrameCodec.EncodeFrame | endermux-common/src/main/java/xyz/jpenilla/endermux/protocol/FrameCodec.java:46-69 | over 4 MiB of data fails with the uncompressed-size error; data within 4 MiB whose (compressed) payload passes 1 MiB fails with "Compressed payload too large: " and the payload length; success exactly when both caps hold, and the bytes are the length (payload + 1), the tag and the payload |
| FrameCodec.RoundTripNone | endermux-common/src/main/java/xyz/jpenilla/endermux/protocol/FrameCodec.java:21-69 | an uncompressed frame within the cap reads back as the same data, consuming exactly the bytes written, whatever follows |
| FrameCodec.RoundTripGzip | endermux-common/src/main/java/xyz/jpenilla/endermux/protocol/FrameCodec.java:21-89 | a gzip frame reads back as the original data when the gzip library round-trips and both caps hold |
| FrameCodec.InvalidSizeFailsBeforeTag | endermux-common/src/main/java/xyz/jpenilla/endermux/protocol/FrameCodec.java:29-31 | a length that is not positive or over the cap + 1 fails with "Invalid frame size: " and the length, whatever follows the length field |
| FrameCodec.UnsupportedTagFailsBeforePayload | endermux-common/src/main/java/xyz/jpenilla/endermux/protocol/FrameCodec.java:33 | an unknown tag fails with the unsupported-compression error before the payload is read |
| FrameCodec.TruncatedFrameFails | endermux-common/src/main/java/xyz/jpenilla/endermux/protocol/FrameCodec.java:33-35 | a frame whose tag or payload is cut short is an end-of-stream error |
| FrameCodec.OneOverCompressedCapFails | endermux-common/src/test/java/xyz/jpenilla/endermux/protocol/FrameCodecTest.java:60-70 | one byte over the compressed cap without compression fails as a compressed-size error |
| FrameCodec.UncompressedReadNeverOversize | endermux-common/src/main/java/xyz/jpenilla/endermux/protocol/FrameCodec.java:29-37 | an uncompressed frame that passes the length check is never refused by the uncompressed-size check |
| FrameCodec.ByteInput.ReadInt | endermux-common/src/main/java/xyz/jpenilla/endermux/protocol/FrameCodec.java:22-27 | four bytes are consumed and decoded, or end of stream when fewer remain |
| FrameCodec.ByteInput.ReadUnsignedByte | endermux-common/src/main/java/xyz/jpenilla/endermux/protocol/FrameCodec.java:33 | one byte is consumed, or end of stream |
| FrameCodec.ByteInput.ReadFully | endermux-common/src/main/java/xyz/jpenilla/endermux/protocol/FrameCodec.java:34-35 | exactly n bytes are consumed, or end of stream when fewer remain |
| FrameCodec.ByteInput.constructor | endermux-common/src/main/java/xyz/jpenilla/endermux/protocol/FrameCodec.java:21 | a stream over the given bytes has exactly those bytes left to read |
| FrameCodec.ByteOutput.WriteInt | endermux-common/src/main/java/xyz/jpenilla/endermux/protocol/FrameCodec.java:65 | the four big-endian bytes of the value are appended |
| FrameCodec.ByteOutput.WriteByte | endermux-common/src/main/java/xyz/jpenilla/endermux/protocol/FrameCodec.java:66 | one byte is appended to what was written, and nothing else changes |
| FrameCodec.ByteOutput.Write | endermux-common/src/main/java/xyz/jpenilla/endermux/protocol/FrameCodec.java:67 | the whole payload is appended to what was written, in order |
| FrameCodec.ReadFrame | endermux-common/src/main/java/xyz/jpenilla/endermux/protocol/FrameCodec.java:21-40 | reading from the stream gives what DecodeFrame specifies for the remaining bytes, and a frame leaves the stream right after itself |
| FrameCodec.WriteFrame | endermux-common/src/main/java/xyz/jpenilla/endermux/protocol/FrameCodec.java:46-69 | on success the stream gains exactly EncodeFrame's bytes; on a size error nothing is written and that error is returned |
| Ansi.ColorLevelContext.constructor | endermux-common/src/main/java/xyz/jpenilla/endermux/ansi/ColorLevelContext.java:10-17 | the context starts with the local terminal's level and an empty thread-local slot |
| Ansi.ColorLevelContext.Push | endermux-common/src/main/java/xyz/jpenilla/endermux/ansi/ColorLevelContext.java:22-24 | after a push the current level is the pushed one, and the scope remembers what the slot held before |
| Ansi.ColorLevelContext.Close | endermux-common/src/main/java/xyz/jpenilla/endermux/ansi/ColorLevelContext.java:25-31 | closing puts the previous value back, or clears the slot so that the local level applies again |
| Ansi.ColorLevelContext.Current | endermux-common/src/main/java/xyz/jpenilla/endermux/ansi/ColorLevelContext.java:34-37 | the pushed level when the slot holds one, the local level when it is empty |
| Ansi.ColorLevelContext.Nested | endermux-common/src/main/java/xyz/jpenilla/endermux/ansi/ColorLevelContext.java:22-32 | inside any number of nested try-with-resources scopes the current level is the innermost pushed one, and closing them innermost first leaves the slot as it was |
| Ansi.ColorLevelContext.CurrentSerializer | endermux-common/src/main/java/xyz/jpenilla/endermux/ansi/ColorLevelContext.java:34-51 | the chosen serializer renders at the current level, and it is the local one exactly when nothing is pushed |
| MessageTypes.IdsDistinct | endermux-common/src/main/java/xyz/jpenilla/endermux/protocol/MessageType.java:22-100 | the sixteen registered types have sixteen different ids |
| MessageTypes.PayloadTypesDistinct | endermux-common/src/main/java/xyz/jpenilla/endermux/protocol/MessageType.java:22-100 | the sixteen registered types have sixteen different payload classes |
| MessageTypes.EveryPayloadClassRegistered | endermux-common/src/main/java/xyz/jpenilla/endermux/protocol/MessageType.java:22-100 | every payload record class is the payload type of a registered type |
| MessageTypes.DirectionAndRequestIdFlags | endermux-common/src/main/java/xyz/jpenilla/endermux/protocol/MessageType.java:125-157 | client requests go client to server with a request id, client messages without one, and server messages need neither a request id nor interactivity |
| MessageTypes.InteractivityFlags | endermux-common/src/main/java/xyz/jpenilla/endermux/protocol/MessageType.java:43-95 | exactly the completion, syntax-highlight and parse requests and COMMAND_EXECUTE need interactivity |
| MessageTypes.CapabilityFlags | endermux-common/src/main/java/xyz/jpenilla/endermux/protocol/MessageType.java:22-100 | the six baseline types carry no capability and every other type carries one of the six capability names |
| MessageTypes.ExactlyOneDirection | endermux-common/src/main/java/xyz/jpenilla/endermux/protocol/MessageType.java:198-204 | every type is either client-to-server or server-to-client, never both |
| MessageTypes.FindIdIn | endermux-common/src/main/java/xyz/jpenilla/endermux/protocol/MessageType.java:210-212 | the type found has the id asked for; nothing is found exactly when no type has it |
| MessageTypes.FindClassIn | endermux-common/src/main/java/xyz/jpenilla/endermux/protocol/MessageType.java:222-224 | the type found has the payload class asked for; nothing is found exactly when no type has it |
| MessageTypes.FindById | endermux-common/src/main/java/xyz/jpenilla/endermux/protocol/MessageType.java:210-212 | findById gives a registered type with that id, and null exactly when no registered type has it |
| MessageTypes.ByIdOrThrow | endermux-common/src/main/java/xyz/jpenilla/endermux/protocol/MessageType.java:214-220 | a registered type with the id, or "No message type with id '…'" exactly when there is none |
| MessageTypes.FindByPayloadClass | endermux-common/src/main/java/xyz/jpenilla/endermux/protocol/MessageType.java:222-224 | every payload class finds a registered type of that class |
| MessageTypes.FindByIdRoundTrip | endermux-common/src/test/java/xyz/jpenilla/endermux/protocol/MessageTypeTest.java:60-68 | looking up a registered type's id finds that very type, by findById and by byIdOrThrow |
| MessageTypes.FindByPayloadClassRoundTrip | endermux-common/src/test/java/xyz/jpenilla/endermux/protocol/MessageTypeTest.java:42-47 | looking up a registered type's payload class finds that very type |
| MessageTypes.ServerTypeForPayload | endermux-common/src/main/java/xyz/jpenilla/endermux/protocol/MessageType.java:226-235 | a payload goes out under a registered server-to-client type of its own class; a client payload is refused with "Cannot send request payload as response: " and its class name |
| MessageTypes.DirectionFollowsClass | endermux-common/src/main/java/xyz/jpenilla/endermux/protocol/MessageType.java:22-100 | each registered type travels in its payload class's direction |
| MessageTypes.ServerTypeForPayloadIffServerPayload | endermux-common/src/test/java/xyz/jpenilla/endermux/protocol/MessageTypeTest.java:13-40 | the nine server payloads are accepted and the seven client payloads refused |
| MessageTypes.ServerTypeOfHandshakePayloads | endermux-common/src/test/java/xyz/jpenilla/endermux/protocol/MessageTypeTest.java:15-16 | WELCOME and REJECT payloads go out under WELCOME and REJECT |
| MessageTypes.ServerTypeOfReject | endermux-common/src/test/java/xyz/jpenilla/endermux/protocol/MessageTypeTest.java:16 | a REJECT payload goes out under REJECT |
| MessageTypes.ServerTypeOfWelcome | endermux-common/src/test/java/xyz/jpenilla/endermux/protocol/MessageTypeTest.java:15 | a WELCOME payload goes out under WELCOME |
| MessageTypes.ServerTypeOfPong | endermux-common/src/test/java/xyz/jpenilla/endermux/protocol/MessageTypeTest.java:21 | a PONG payload goes out under PONG |
| MessageTypes.IdMapContents | endermux-common/src/main/java/xyz/jpenilla/endermux/protocol/MessageType.java:159-172 | registering a list fills the id map with exactly its ids, each mapped to its own type when ids are distinct |
| MessageTypes.ClassMapContents | endermux-common/src/main/java/xyz/jpenilla/endermux/protocol/MessageType.java:159-172 | registering a list fills the class map with exactly its classes, each mapped to its own type when classes are distinct |
| MessageTypes.FindIdInAgreesWithIdMap | endermux-common/src/main/java/xyz/jpenilla/endermux/protocol/MessageType.java:210-212 | with distinct ids, a search of the list and a lookup in the id map agree |
| MessageTypes.FindClassInAgreesWithClassMap | endermux-common/src/main/java/xyz/jpenilla/endermux/protocol/MessageType.java:222-224 | with distinct classes, a search of the list and a lookup in the class map agree |
| MessageTypes.AppendKeepsIdsDistinct | endermux-common/src/main/java/xyz/jpenilla/endermux/protocol/MessageType.java:159-163 | registering a type with a new id keeps the ids distinct and adds that one entry to the id map |
| MessageTypes.AppendKeepsClassesDistinct | endermux-common/src/main/java/xyz/jpenilla/endermux/protocol/MessageType.java:165-168 | registering a type with a new class keeps the classes distinct and adds that one entry to the class map |
| MessageTypes.Registry.constructor | endermux-common/src/main/java/xyz/jpenilla/endermux/protocol/MessageType.java:13-15 | the registry starts with two empty maps and an empty list |
| MessageTypes.Registry.Register | endermux-common/src/main/java/xyz/jpenilla/endermux/protocol/MessageType.java:159-172 | the id map is always overwritten; a duplicate id fails first, then a duplicate class fails after overwriting the class map; only a fresh type is appended, and then the registry stays consistent |
| MessageTypes.Registry.RegisterEach | endermux-common/src/main/java/xyz/jpenilla/endermux/protocol/MessageType.java:22-100 | registering types with distinct ids and classes never fails, and the registry then holds exactly them in order |
| MessageTypes.RegistryAgreesWithLookups | endermux-common/src/main/java/xyz/jpenilla/endermux/protocol/MessageType.java:206-224 | the registry the static initialiser builds answers findById and findByPayloadClass for every key |
| MessageTypes.InitializeRegistry | endermux-common/src/main/java/xyz/jpenilla/endermux/protocol/MessageType.java:13-100 | registering the sixteen baseline types succeeds and gives a consistent registry |
| MessageSerializer.GetAsString | endermux-common/src/main/java/xyz/jpenilla/endermux/protocol/MessageSerializer.java:43-50 | a JSON string reads as itself; a JSON null or an object raises UnsupportedOperationException |
| MessageSerializer.Serialize | endermux-common/src/main/java/xyz/jpenilla/endermux/protocol/MessageSerializer.java:22-33 | the envelope has "type" holding the type id, "requestId" exactly when the message has one, and "data" holding the payload tree, and nothing else |
| MessageSerializer.Raise | endermux-common/src/main/java/xyz/jpenilla/endermux/protocol/MessageSerializer.java:62-64 | an exception turns into null exactly when it is one of the three caught kinds |
| MessageSerializer.DataFields | endermux-common/src/main/java/xyz/jpenilla/endermux/protocol/MessageSerializer.java:55-57 | the payload is read from "data" when it is an object, and from an empty object otherwise |
| MessageSerializer.DeserializeAsWritten | endermux-common/src/main/java/xyz/jpenilla/endermux/protocol/MessageSerializer.java:35-65 | malformed text, a root that is not an object and a missing "type" give null, and a decoded message always has a registered type |
| MessageSerializer.Deserialize | endermux-common/src/main/java/xyz/jpenilla/endermux/protocol/MessageSerializer.java:35-65 | the corrected decoding gives a message exactly when the code as written does, the same message, and null in place of every escaping exception |
| MessageSerializer.RoundTrip | endermux-common/src/test/java/xyz/jpenilla/endermux/protocol/MessageSerializerTest.java:20-31 | a registered type with a payload of its class survives serialize then deserialize, its type, request id and payload included |
| MessageSerializer.InvalidEnvelopesGiveNull | endermux-common/src/test/java/xyz/jpenilla/endermux/protocol/MessageSerializerTest.java:42-48 | malformed text, a non-object root, a missing "type" and an unknown type id all give null |
| MessageSerializer.RequestIdDecoding | endermux-common/src/main/java/xyz/jpenilla/endermux/protocol/MessageSerializer.java:49-51 | a decoded message has no request id exactly when "requestId" is absent or JSON null, and a string "requestId" decodes to exactly that id |
| MessageSerializer.PayloadReadFromDataObject | endermux-common/src/main/java/xyz/jpenilla/endermux/protocol/MessageSerializer.java:53-58 | the decoded payload is what the payload mapping gives for the type's class and the "data" object |
| MessageSerializer.NullTypeEscapes | endermux-common/src/main/java/xyz/jpenilla/endermux/protocol/MessageSerializer.java:43-62 | as written, {"type": null} makes deserialize throw UnsupportedOperationException instead of returning null |
| MessageSerializer.ObjectRequestIdEscapes | endermux-common/src/main/java/xyz/jpenilla/endermux/protocol/MessageSerializer.java:49-62 | as written, an object "requestId" on a known type escapes in the same way |
| MessageSerializer.CorrectedNeverEscapes | endermux-common/src/main/java/xyz/jpenilla/endermux/protocol/MessageSerializer.java:35-65 | the corrected decoding returns null for both of those inputs |
| Strings.CodeUnits | endermux-client/src/main/java/xyz/jpenilla/endermux/client/transport/MissingRequiredCapabilitiesException.java:37 | a character below U+10000 is one code unit, itself and not a surrogate; any other is a high surrogate followed by a low one |
| Strings.Utf16Injective | endermux-client/src/main/java/xyz/jpenilla/endermux/client/transport/MissingRequiredCapabilitiesException.java:37 | distinct strings have distinct UTF-16 code unit sequences |
| Strings.LessTransitive | endermux-client/src/main/java/xyz/jpenilla/endermux/client/transport/MissingRequiredCapabilitiesException.java:37 | `compareTo`'s order, lexicographic on UTF-16 code units, is transitive |
| Strings.LessTotal | endermux-client/src/main/java/xyz/jpenilla/endermux/client/transport/MissingRequiredCapabilitiesException.java:37 | any two distinct strings are ordered one way or the other |
| Strings.SupplementaryBeforeHighBmp | endermux-client/src/main/java/xyz/jpenilla/endermux/client/transport/MissingRequiredCapabilitiesException.java:37 | U+10000 sorts before U+FFFF, as comparing code units gives, though its scalar value is larger |
| Strings.SortedElements | endermux-client/src/main/java/xyz/jpenilla/endermux/client/transport/MissingRequiredCapabilitiesException.java:37 | `sorted()` lists each element of the set exactly once, in strictly ascending order |
| HandshakeErrors.Head | endermux-client/src/main/java/xyz/jpenilla/endermux/client/transport/ProtocolMismatchException.java:37-40 | the opening sentence of each failure, with the epochs, the sorted missing names, the quoted reason or the fixed text; `UserFacingMessage` and `WithClauseShape` prove each message starts with it |
| HandshakeErrors.Hint | endermux-client/src/main/java/xyz/jpenilla/endermux/client/transport/ProtocolMismatchException.java:45 | an epoch mismatch asks for matching versions and every other failure for compatible ones; `HintsBeginWithPlease` proves each hint opens with ". Please" |
| HandshakeErrors.WithClause | endermux-client/src/main/java/xyz/jpenilla/endermux/client/transport/ProtocolMismatchException.java:41-45 | the head, then the clause only when its text is not blank, then the hint; `WithClauseShape` proves the message starts with the head and ends with the hint |
| HandshakeErrors.WithClauseShape | endermux-client/src/main/java/xyz/jpenilla/endermux/client/transport/ProtocolMismatchException.java:36-46 | every message built this way starts with its head and ends with its hint, whatever the clause |
| HandshakeErrors.MissingList | endermux-client/src/main/java/xyz/jpenilla/endermux/client/transport/MissingRequiredCapabilitiesException.java:37 | no missing names render as "<none>", one name as itself, and more as the names in ascending order joined by ", " |
| HandshakeErrors.UserFacingMessage | endermux-client/src/main/java/xyz/jpenilla/endermux/client/transport/ProtocolMismatchException.java:34-47 | every user-facing message begins with its kind's opening sentence and ends with the "Please update client/server" hint (matching versions for an epoch mismatch, compatible versions otherwise) |
| HandshakeErrors.HintsBeginWithPlease | endermux-client/src/main/java/xyz/jpenilla/endermux/client/transport/UnknownRejectReasonException.java:29-33 | each hint begins ". P", which no clause opening does, so a clause cannot be mistaken for the hint |
| HandshakeErrors.ClauseIffNonBlank | endermux-client/src/main/java/xyz/jpenilla/endermux/client/transport/MissingRequiredCapabilitiesException.java:38-42 | the ". Reason: …", ": …" or " (…)" clause follows the opening sentence exactly when its text is not blank |
| HandshakeErrors.BlankClauseIsOmitted | endermux-client/src/main/java/xyz/jpenilla/endermux/client/transport/InvalidHandshakeResponseException.java:14-25 | a blank clause text leaves just the opening sentence and the hint |
| HandshakeErrors.EveryMissingNameIsListed | endermux-client/src/main/java/xyz/jpenilla/endermux/client/transport/MissingRequiredCapabilitiesException.java:36-37 | every missing capability is named in the message |
| HandshakeErrors.MissingListStartsWithLeast | endermux-client/src/main/java/xyz/jpenilla/endermux/client/transport/MissingRequiredCapabilitiesException.java:37 | with two or more names the list begins with the least of them followed by ", " |
| ClientHandshake.NewHandler | endermux-client/src/main/java/xyz/jpenilla/endermux/client/transport/ClientHandshakeHandler.java:23-34 | a handler is built exactly when the epoch range is valid, keeping the policy unchanged; otherwise "supportedTransportEpochRange must be valid" |
| ClientHandshake.ClientPolicyMakesAHandler | endermux-client/src/main/java/xyz/jpenilla/endermux/client/transport/ClientHandshakeHandler.java:28-30 | the client's own policy passes the constructor's validity check |
| ClientHandshake.CreateHelloPayload | endermux-client/src/main/java/xyz/jpenilla/endermux/client/transport/ClientHandshakeHandler.java:36-43 | the HELLO carries the handler's epoch range, the terminal's colour level, every supported capability with its range, and the required names with no null among them |
| ClientHandshake.ReasonOf | endermux-client/src/main/java/xyz/jpenilla/endermux/client/transport/ClientHandshakeHandler.java:83-86 | an absent or blank reject reason reads as "<missing>", any other reason as itself |
| ClientHandshake.RejectFatal | endermux-client/src/main/java/xyz/jpenilla/endermux/client/transport/ClientHandshakeHandler.java:82-112 | reference definition of handleReject; `RejectFatalClassification` proves which REJECT becomes which failure and with which text |
| ClientHandshake.RejectReasonFacts | endermux-common/src/main/java/xyz/jpenilla/endermux/protocol/HandshakeRejectReasons.java:10-18 | every reason code the server refuses with is non-blank and reads back as itself; only the epoch check uses unsupported_transport_epoch and only the capability check uses missing_required_capabilities |
| ClientHandshake.RejectionReadBack | endermux-client/src/main/java/xyz/jpenilla/endermux/client/transport/ClientHandshakeHandler.java:82-112 | the REJECT the server builds for a failed check reads back as an epoch mismatch for the epoch check, a capability mismatch naming the missing names for the capability check, and an unknown reason with its code otherwise |
| ClientHandshake.RejectFatalClassification | endermux-client/src/main/java/xyz/jpenilla/endermux/client/transport/ClientHandshakeHandler.java:82-112 | a REJECT becomes an epoch mismatch exactly for the unsupported-epoch reason with an expected epoch, a capability mismatch exactly for the missing-capabilities reason with a non-empty set, and an unknown-reason failure otherwise; the message becomes the failure's text, "" when absent |
| ClientHandshake.ValidationOf | endermux-client/src/main/java/xyz/jpenilla/endermux/client/transport/ClientHandshakeHandler.java:114-145 | reference definition of validateSelectedCapabilities: some bad entry is reported if there is one, else the unselected required names if any, else acceptance; the method is proved to meet it |
| ClientHandshake.ValidateSelectedCapabilities | endermux-client/src/main/java/xyz/jpenilla/endermux/client/transport/ClientHandshakeHandler.java:114-145 | some bad entry is reported (invalid entry, or unsupported version for a known capability); without one, the required names left unselected are reported; otherwise the selections are accepted |
| ClientHandshake.FindBadEntry | endermux-client/src/main/java/xyz/jpenilla/endermux/client/transport/ClientHandshakeHandler.java:117-131 | an error is returned exactly when some selection has no version, a version below 1, or a version outside the client's range for that capability, and it is that entry's text |
| ClientHandshake.UnselectedRequired | endermux-client/src/main/java/xyz/jpenilla/endermux/client/transport/ClientHandshakeHandler.java:133-139 | the names collected are exactly the required capabilities without a selection |
| ClientHandshake.Versions | endermux-client/src/main/java/xyz/jpenilla/endermux/client/transport/ClientHandshakeHandler.java:79 | every selection that carries a version appears with that version |
| ClientHandshake.ValidationResult | endermux-client/src/main/java/xyz/jpenilla/endermux/client/transport/ClientHandshakeHandler.java:73-79 | acceptance exactly gives the selections; an invalid selection becomes InvalidHandshakeResponse with its text, and missing names become MissingRequiredCapabilities with exactly those names |
| ClientHandshake.AcceptedSelectionsAreSupported | endermux-client/src/main/java/xyz/jpenilla/endermux/client/transport/ClientHandshakeHandler.java:114-145 | accepted selections name every required capability, each at a version of at least 1 that the client supports whenever it knows the capability |
| ClientHandshake.ValidationWithoutBadEntries | endermux-client/src/main/java/xyz/jpenilla/endermux/client/transport/ClientHandshakeHandler.java:133-144 | without bad entries the outcome is acceptance when every required name is selected, and otherwise the missing-capabilities failure with exactly the unselected names |
| ClientHandshake.BadEntryIsReported | endermux-client/src/main/java/xyz/jpenilla/endermux/client/transport/ClientHandshakeHandler.java:117-131 | when some entry is bad, validation reports an invalid selection, with the invalid-entry text or the unsupported-version text of a real unsupported entry |
| ClientHandshake.HandshakeOutcome | endermux-client/src/main/java/xyz/jpenilla/endermux/client/transport/ClientHandshakeHandler.java:45-80 | reference definition of handleHandshakeResponse, check by check in source order; the method is proved to meet it |
| ClientHandshake.HandleHandshakeResponse | endermux-client/src/main/java/xyz/jpenilla/endermux/client/transport/ClientHandshakeHandler.java:45-80 | the checks run in source order: request id, REJECT, response type, transport epoch, presence of selections, then selection validation, each with its own failure |
| ClientHandshake.SuccessIsSupported | endermux-client/src/main/java/xyz/jpenilla/endermux/client/transport/ClientHandshakeHandler.java:45-80 | a successful handshake answered a WELCOME with the expected request id, at an epoch the client supports, selecting every required capability at supported versions |
| ClientHandshake.ServerRejectionsAreUnderstood | endermux-client/src/main/java/xyz/jpenilla/endermux/client/transport/ClientHandshakeHandler.java:82-112 | every REJECT the server sends is read as the failure it means: an unsupported epoch as an epoch mismatch, unmet requirements as a capability mismatch naming the missing names, anything else as an unknown reason with its text |
| ClientHandshake.ClientHelloIsBaseline | endermux-client/src/main/java/xyz/jpenilla/endermux/client/transport/ClientHandshakeHandler.java:36-43 | the HELLO built from the client's policy is the one the server welcomes with every capability |
| ClientHandshake.BaselineSelectionsAccepted | endermux-client/src/main/java/xyz/jpenilla/endermux/client/transport/ClientHandshakeHandler.java:114-145 | the client's policy accepts all six capabilities at version 1 |
| ClientHandshake.PoliciesCompleteTheHandshake | endermux-client/src/main/java/xyz/jpenilla/endermux/client/transport/ClientHandshakeHandler.java:45-80 | a client and a server on their own policies complete the handshake with all six capabilities at version 1 |
| ServerHandshake.NegotiatedOver | endermux-server/src/main/java/xyz/jpenilla/endermux/server/ServerHandshakeHandler.java:152-170 | every selection made over a set of names is for a name the client offers with a range and the server knows, at a version both ranges include |
| ServerHandshake.Negotiated | endermux-server/src/main/java/xyz/jpenilla/endermux/server/ServerHandshakeHandler.java:152-170 | the selections are for names both sides declare, each at a version the client's and the server's ranges both include |
| ServerHandshake.NegotiatedOverStep | endermux-server/src/main/java/xyz/jpenilla/endermux/server/ServerHandshakeHandler.java:154-168 | taking one more valid entry into account adds its highest common version when there is one, and nothing otherwise |
| ServerHandshake.NegotiatedMeaning | endermux-server/src/main/java/xyz/jpenilla/endermux/server/ServerHandshakeHandler.java:152-170 | a capability is selected exactly when both sides know it and their ranges share a version, and then at the highest shared version |
| ServerHandshake.SelectFor | endermux-server/src/main/java/xyz/jpenilla/endermux/server/ServerHandshakeHandler.java:157-167 | one loop step records the entry's highest common version with the server, if any |
| ServerHandshake.NegotiateCapabilities | endermux-server/src/main/java/xyz/jpenilla/endermux/server/ServerHandshakeHandler.java:152-170 | the result is null exactly when some client range is absent or invalid, whichever entry comes first, and otherwise it is the negotiated selections |
| ServerHandshake.RequiredNamesOfNames | endermux-server/src/main/java/xyz/jpenilla/endermux/server/ServerHandshakeHandler.java:172-187 | a declaration without null names declares exactly those names |
| ServerHandshake.MissingRequired | endermux-server/src/main/java/xyz/jpenilla/endermux/server/ServerHandshakeHandler.java:172-187 | the result is null exactly when the declaration holds a null name, and otherwise the required names with no selection |
| ServerHandshake.Decide | endermux-server/src/main/java/xyz/jpenilla/endermux/server/ServerHandshakeHandler.java:31-150 | a welcome needs a request id, a HELLO with its data, and carries the negotiated selections; a rejection lists missing names exactly when the failed check is the required-capabilities one |
| ServerHandshake.DecideIsFirstFailedCheck | endermux-server/src/main/java/xyz/jpenilla/endermux/server/ServerHandshakeHandler.java:31-150 | the nine checks run in a fixed order; a message is welcomed exactly when it passes all of them, and a rejection names the first check it fails |
| ServerHandshake.MissingIsRequiredMinusSelected | endermux-server/src/main/java/xyz/jpenilla/endermux/server/ServerHandshakeHandler.java:119-145 | a rejection for unmet requirements names exactly the required names left unselected, and at least one |
| ServerHandshake.AsWelcomeSelections | endermux-server/src/main/java/xyz/jpenilla/endermux/server/ServerHandshakeHandler.java:147-148 | the WELCOME carries exactly the negotiated names with their versions |
| ServerHandshake.ResponsePayload | endermux-server/src/main/java/xyz/jpenilla/endermux/server/ServerHandshakeHandler.java:189-202 | a verdict is answered with a REJECT or a WELCOME payload |
| ServerHandshake.Response | endermux-server/src/main/java/xyz/jpenilla/endermux/server/ServerHandshakeHandler.java:204-216 | the answer carries the first message's request id, the payload for the verdict, and is sent as REJECT or WELCOME, a registered type matching its payload |
| ServerHandshake.PerformHandshake | endermux-server/src/main/java/xyz/jpenilla/endermux/server/ServerHandshakeHandler.java:31-150 | exactly one answer is sent; a result is returned exactly when the message is welcomed, and it holds the HELLO and the negotiated selections |
| ServerHandshake.MissingRequestIdIsRejectedFirst | endermux-server/src/main/java/xyz/jpenilla/endermux/server/ServerHandshakeHandler.java:33-44 | a first message without a request id, of any type, is refused with missing_request_id, the server's epoch and no request id |
| ServerHandshake.ExpectedEpochOnlyWithoutMissing | endermux-server/src/main/java/xyz/jpenilla/endermux/server/ServerHandshakeHandler.java:135-145 | only a rejection for unmet requirements leaves the expected epoch out |
| ServerHandshake.BaselineNegotiatesEverythingAtV1 | endermux-server/src/main/java/xyz/jpenilla/endermux/server/ServerHandshakeHandler.java:152-170 | negotiating the client's policy against the server's selects all six capabilities at version 1 |
| ServerHandshake.BaselineHandshakeIsWelcomed | endermux-server/src/main/java/xyz/jpenilla/endermux/server/ServerHandshakeHandler.java:31-150 | the client's own HELLO with a request id is welcomed with all six capabilities at version 1 |
| Endpoints.Outbox.Send | endermux-server/src/main/java/xyz/jpenilla/endermux/server/ClientSession.java:141-145 | a send appends exactly that message after those already sent |
| Sessions.BuildError | endermux-server/src/main/java/xyz/jpenilla/endermux/server/ClientSession.java:181-185 | an ERROR with the given text and details, answering the context's request id or unsolicited without one |
| Sessions.BuildResponse | endermux-server/src/main/java/xyz/jpenilla/endermux/server/ClientSession.java:174-179 | a reply is built exactly for a server payload, under its server-to-client type, echoing the request id; a client payload is refused |
| Sessions.SendReplies | endermux-server/src/main/java/xyz/jpenilla/endermux/server/ClientSession.java:159-172 | the replies are sent in order up to the first that throws, each with the context's request id and a type matching its payload |
| Sessions.SendRepliesThrowsIffClientPayload | endermux-server/src/main/java/xyz/jpenilla/endermux/server/ClientSession.java:174-179 | a run of replies throws exactly when one of them replies with a client payload |
| Sessions.Gate | endermux-server/src/main/java/xyz/jpenilla/endermux/server/ClientSession.java:53-86 | a PING is answered only for PING, a subscription only for LOG_SUBSCRIBE, and dispatch only for a client-to-server type whose capability is negotiated |
| Sessions.DispatchMeansAllChecksPassed | endermux-server/src/main/java/xyz/jpenilla/endermux/server/ClientSession.java:50-95 | a message reaches the handlers only with its request id when needed, a negotiated capability, the client-to-server direction and interactivity when needed |
| Sessions.PingIsAlwaysAnswered | endermux-server/src/main/java/xyz/jpenilla/endermux/server/ClientSession.java:53-61 | a PING with a request id is answered whatever was negotiated; one without is refused for the missing id |
| Sessions.CapabilityCheckedFirst | endermux-server/src/main/java/xyz/jpenilla/endermux/server/ClientSession.java:63-67 | an unnegotiated capability is refused with "Capability not negotiated: " before the direction and interactivity checks |
| Sessions.LogSubscribeNeedsLogForward | endermux-server/src/main/java/xyz/jpenilla/endermux/server/ClientSession.java:69-76 | LOG_SUBSCRIBE subscribes exactly when log_forward was negotiated, and is refused naming log_forward otherwise |
| Sessions.ServerTypesAreRefused | endermux-server/src/main/java/xyz/jpenilla/endermux/server/ClientSession.java:78-81 | a server-to-client type that passes the capability check is refused for its direction |
| Sessions.InteractiveTypesNeedInteractivity | endermux-server/src/main/java/xyz/jpenilla/endermux/server/ClientSession.java:83-86 | without interactivity a command needing it is refused with "Interactivity is currently unavailable" |
| Sessions.MissingRequestIdErrorIsUnsolicited | endermux-server/src/main/java/xyz/jpenilla/endermux/server/ClientSession.java:53-56 | a missing request id is refused with an ERROR that itself carries no request id |
| Sessions.AcceptOutput | endermux-server/src/main/java/xyz/jpenilla/endermux/server/ClientSession.java:50-100 | everything accept sends carries the message's request id and is well typed, and something escapes only from a dispatched message |
| Sessions.DispatchOutput | endermux-server/src/main/java/xyz/jpenilla/endermux/server/ClientSession.java:88-99 | the handler's replies and the possible "Unknown message type" error all carry the message's request id and are well typed |
| Sessions.GateAnswersOnce | endermux-server/src/main/java/xyz/jpenilla/endermux/server/ClientSession.java:50-87 | a refused message or a PING gets exactly one answer with its own request id, a PONG exactly for the PING |
| Sessions.UnhandledEndsWithUnknownType | endermux-server/src/main/java/xyz/jpenilla/endermux/server/ClientSession.java:97-99 | a dispatched message no handler takes ends with ERROR "Unknown message type: " and its type |
| Sessions.StatusUpdate | endermux-server/src/main/java/xyz/jpenilla/endermux/server/ClientSession.java:40-47 | an unsolicited INTERACTIVITY_STATUS with the flag is sent exactly when interactivity_status was negotiated |
| Sessions.ClientSession.constructor | endermux-server/src/main/java/xyz/jpenilla/endermux/server/ClientSession.java:25-38 | a session starts not log-ready, at colour level NONE, with nothing negotiated |
| Sessions.ClientSession.SetColorLevel | endermux-server/src/main/java/xyz/jpenilla/endermux/server/ClientSession.java:110-112 | only the colour level changes |
| Sessions.ClientSession.SetNegotiatedCapabilities | endermux-server/src/main/java/xyz/jpenilla/endermux/server/ClientSession.java:114-116 | only the negotiated capabilities change |
| Sessions.ClientSession.Initialize | endermux-server/src/main/java/xyz/jpenilla/endermux/server/ClientSession.java:40-47 | the status update is sent exactly when interactivity_status was negotiated |
| Sessions.ClientSession.SetInteractivityAvailable | endermux-server/src/main/java/xyz/jpenilla/endermux/server/ClientSession.java:118-126 | the flag is recorded and announced when interactivity_status was negotiated; nothing else changes |
| Sessions.ClientSession.SendAll | endermux-server/src/main/java/xyz/jpenilla/endermux/server/ClientSession.java:141-145 | the messages are sent in order |
| Sessions.ClientSession.Accept | endermux-server/src/main/java/xyz/jpenilla/endermux/server/ClientSession.java:50-100 | the session sends what the gate and the handlers produce, becomes log-ready only through an accepted LOG_SUBSCRIBE, and leaves the colour context as it found it |
| Sessions.ClientSession.RunHandler | endermux-server/src/main/java/xyz/jpenilla/endermux/server/ClientSession.java:88-99 | the handlers run with the session's colour level pushed, their replies are sent, an unhandled message adds the unknown-type error, and the context is restored |
| Sessions.ClientSession.ReportUnhandled | endermux-server/src/main/java/xyz/jpenilla/endermux/server/ClientSession.java:97-99 | a message no handler took gets exactly one ERROR "Unknown message type: " and its type, unless a reply threw, which escapes; a handled message sends nothing more |
| Sessions.ClientSession.IsLogReady | endermux-server/src/main/java/xyz/jpenilla/endermux/server/ClientSession.java:102-104 | a session is log-ready exactly when it has subscribed and log_forward is among the negotiated capabilities |
| Sessions.OnlySubscribeMakesLogReady | endermux-server/src/main/java/xyz/jpenilla/endermux/server/ClientSession.java:69-76 | the gate grants a log subscription exactly for a LOG_SUBSCRIBE while log_forward is negotiated; nothing else sets the flag |
| ConsoleSession.QuitClientByDefault | endermux-client/src/main/java/xyz/jpenilla/endermux/client/runtime/RemoteConsoleSession.java:326-341 | the client quits by default exactly after the user's end of input or an unrecoverable handshake failure |
| ConsoleSession.RunOutcome | endermux-client/src/main/java/xyz/jpenilla/endermux/client/runtime/RemoteConsoleSession.java:55-94 | reference definition of the outcome of each way run ends; `RunOutcomeMapping` proves what it connects to |
| ConsoleSession.RunOutcomeMapping | endermux-client/src/main/java/xyz/jpenilla/endermux/client/runtime/RemoteConsoleSession.java:55-94 | a session counts as connected exactly when connect returned; a handshake refusal is the only unrecoverable end, end of input the only USER_EOF, other failures generic; the client quits by default exactly on a refusal or the user's end of input |
| ConsoleSession.CommandFor | endermux-client/src/main/java/xyz/jpenilla/endermux/client/runtime/RemoteConsoleSession.java:159-171 | a typed line becomes a command exactly when the server allows interaction and the line has a character left after trimming; the command is the trimmed line |
| ConsoleSession.CommandMessage | endermux-client/src/main/java/xyz/jpenilla/endermux/client/runtime/RemoteConsoleSession.java:283-287 | a command is an unsolicited COMMAND_EXECUTE carrying the text |
| ConsoleSession.CommandMessageIsWellTyped | endermux-client/src/main/java/xyz/jpenilla/endermux/client/runtime/RemoteConsoleSession.java:283-287 | the command message's type is registered and its payload is of that type's class |
| ConsoleSession.CommandsReachTheServer | endermux-server/src/main/java/xyz/jpenilla/endermux/server/ClientSession.java:63-87 | a command is refused without the command_execute capability, refused with "Interactivity is currently unavailable" while the server is not interactive, and dispatched otherwise |
| ConsoleSession.BeforeEnd | endermux-client/src/main/java/xyz/jpenilla/endermux/client/runtime/RemoteConsoleSession.java:152-160 | the events handled are a prefix of those read, none of them an end of input, and an end of input follows when any are left |
| ConsoleSession.EventCommands | endermux-client/src/main/java/xyz/jpenilla/endermux/client/runtime/RemoteConsoleSession.java:146-171 | a reader event sends at most one command |
| ConsoleSession.Commands | endermux-client/src/main/java/xyz/jpenilla/endermux/client/runtime/RemoteConsoleSession.java:139-172 | a read sends no more commands than events, and none while the server disallows interaction |
| ConsoleSession.Interrupts | endermux-client/src/main/java/xyz/jpenilla/endermux/client/runtime/RemoteConsoleSession.java:149-151 | the interrupts among the events read, none exactly when no event is an interrupt |
| ConsoleSession.Hints | endermux-client/src/main/java/xyz/jpenilla/endermux/client/runtime/RemoteConsoleSession.java:149-151 | every interrupt prints one disconnect hint except the first when the suppress flag was set |
| ConsoleSession.Prompt | endermux-client/src/main/java/xyz/jpenilla/endermux/client/runtime/RemoteConsoleSession.java:322-324 | the prompt is "> " exactly while interactive and empty exactly while not |
| ConsoleSession.RemoteConsoleSession.constructor | endermux-client/src/main/java/xyz/jpenilla/endermux/client/runtime/RemoteConsoleSession.java:38-53 | a new session, with the transport and the line reader it is given, is unconnected, not interactive, with no hint suppressed and nothing printed |
| ConsoleSession.RemoteConsoleSession.Connected | endermux-client/src/main/java/xyz/jpenilla/endermux/client/runtime/RemoteConsoleSession.java:58-75 | after connecting the session is not yet interactive and has sent exactly one unsolicited LOG_SUBSCRIBE |
| ConsoleSession.RemoteConsoleSession.Disconnected | endermux-client/src/main/java/xyz/jpenilla/endermux/client/runtime/RemoteConsoleSession.java:103-110 | after the transport drops the session is no longer connected, and nothing else changes |
| ConsoleSession.RemoteConsoleSession.HandleMessage | endermux-client/src/main/java/xyz/jpenilla/endermux/client/runtime/RemoteConsoleSession.java:240-265 | while unconnected nothing changes; a LOG_FORWARD prints its rendered line, an ERROR its message and details; an INTERACTIVITY_STATUS sets the flag and, only when it changes, sets the suppress flag to whether the reader was interrupted |
| ConsoleSession.RemoteConsoleSession.ConsumeSuppressedInterruptHint | endermux-client/src/main/java/xyz/jpenilla/endermux/client/runtime/RemoteConsoleSession.java:297-303 | returns the suppress flag and leaves it clear, nothing else changes |
| ConsoleSession.RemoteConsoleSession.PrintDisconnectHint | endermux-client/src/main/java/xyz/jpenilla/endermux/client/runtime/RemoteConsoleSession.java:305-313 | prints the hint exactly when it was not suppressed and the session is connected; the suppress flag ends clear |
| ConsoleSession.RemoteConsoleSession.UpdateReaderMode | endermux-client/src/main/java/xyz/jpenilla/endermux/client/runtime/RemoteConsoleSession.java:267-273 | the reader erases the line on finish exactly when interaction is unavailable |
| ConsoleSession.RemoteConsoleSession.AcceptInputInteractive | endermux-client/src/main/java/xyz/jpenilla/endermux/client/runtime/RemoteConsoleSession.java:138-173 | unconnected it ends CONNECTION_CLOSED at once; connected it ends USER_QUIT at the first end of input, having sent exactly the commands of the events before it and printed one hint per interrupt bar a suppressed first |
| ConsoleSession.RemoteConsoleSession.AcceptInputUntilDisconnect | endermux-client/src/main/java/xyz/jpenilla/endermux/client/runtime/RemoteConsoleSession.java:138-173 | connected, reading sends the commands and prints the hints up to the end of input, which quits; a disconnect instead clears the connection, prints no hint for the interrupt it causes and ends CONNECTION_CLOSED; unconnected it ends CONNECTION_CLOSED at once |
| ConsoleSession.RemoteConsoleSession.ReadWhileConnected | endermux-client/src/main/java/xyz/jpenilla/endermux/client/runtime/RemoteConsoleSession.java:138-172 | while connected, reading ends with USER_QUIT at the first end of input; by then exactly the commands of the earlier events are sent and one hint per interrupt, bar a suppressed first, is printed, and the reader mode follows interactivity |
| ConsoleSession.RemoteConsoleSession.ReadNext | endermux-client/src/main/java/xyz/jpenilla/endermux/client/runtime/RemoteConsoleSession.java:144-171 | one turn of the read loop: an end of input ends the read prefix there and changes nothing sent or printed; any other event lies inside the prefix and is accounted for |
| ConsoleSession.RemoteConsoleSession.ReadEvent | endermux-client/src/main/java/xyz/jpenilla/endermux/client/runtime/RemoteConsoleSession.java:148-171 | handling an event other than end of input moves what is sent and printed from the first i events to the first i + 1 |
| ConsoleSession.ReadContinues | endermux-client/src/main/java/xyz/jpenilla/endermux/client/runtime/RemoteConsoleSession.java:152-161 | an event that is not an end of input, reached within the read prefix, lies inside it |
| ConsoleSession.ReadEnds | endermux-client/src/main/java/xyz/jpenilla/endermux/client/runtime/RemoteConsoleSession.java:152-161 | an end of input, or running out of events, ends the read prefix at that position |
| ConsoleSession.RemoteConsoleSession.HandleEvent | endermux-client/src/main/java/xyz/jpenilla/endermux/client/runtime/RemoteConsoleSession.java:146-171 | one event extends the sent commands and the printed hints by exactly that event's share |
| ConsoleSession.RemoteConsoleSession.InterruptRead | endermux-client/src/main/java/xyz/jpenilla/endermux/client/runtime/RemoteConsoleSession.java:149-151 | an interrupt adds one to the interrupts accounted for in the printed hints and the suppress flag |
| ConsoleSession.RemoteConsoleSession.SendCommand | endermux-client/src/main/java/xyz/jpenilla/endermux/client/runtime/RemoteConsoleSession.java:283-287 | a command, when present, is appended to what the transport has sent |
| ConsoleSession.ProgressStep | endermux-client/src/main/java/xyz/jpenilla/endermux/client/runtime/RemoteConsoleSession.java:139-172 | reading one more event extends the commands and the interrupt count by that event's share |
| ConsoleSession.ErrorLines | endermux-client/src/main/java/xyz/jpenilla/endermux/client/runtime/RemoteConsoleSession.java:315-320 | an ERROR prints "Error: " and its message, then "Details: " and its details exactly when they are present |
| ConsoleSession.Shown | endermux-client/src/main/java/xyz/jpenilla/endermux/client/runtime/RemoteConsoleSession.java:240-255 | at most two lines, and some exactly for a LOG_FORWARD or an ERROR carrying its payload |
| ConsoleSession.CommandsAreTrimmedLines | endermux-client/src/main/java/xyz/jpenilla/endermux/client/runtime/RemoteConsoleSession.java:159-171 | every command sent is the non-empty trimmed text of some typed line, and commands are sent only while interactive |
| ConsoleSession.CommandSource | endermux-client/src/main/java/xyz/jpenilla/endermux/client/runtime/RemoteConsoleSession.java:159-171 | each sent command comes from a typed line at a known position among the events, read while interactive, and is that line trimmed and non-empty |
| Supervisor.ExitCode | endermux-client/src/main/java/xyz/jpenilla/endermux/client/runtime/EndermuxClient.java:96-100 | the exit code is 1 exactly after an unrecoverable handshake failure and 0 otherwise, also when no reason was recorded |
| Supervisor.Pow2Values | endermux-client/src/main/java/xyz/jpenilla/endermux/client/runtime/EndermuxClient.java:151-153 | the powers of two the backoff uses: 2^5, 2^6 and 2^30 |
| Supervisor.ShiftNeverOverflows | endermux-client/src/main/java/xyz/jpenilla/endermux/client/runtime/EndermuxClient.java:151-152 | shifting the initial backoff by at most 30 places stays inside a Java long, so the shift is the exact product |
| Supervisor.RetryBackoffMs | endermux-client/src/main/java/xyz/jpenilla/endermux/client/runtime/EndermuxClient.java:147-154 | no wait up to the first retry, and never more than the one-minute cap |
| Supervisor.RetryBackoffBounds | endermux-client/src/main/java/xyz/jpenilla/endermux/client/runtime/EndermuxClient.java:147-154 | no wait up to the first retry; after it a whole number of seconds between one second and a minute, exactly 1000 * 2^(attempt-2) up to the cap |
| Supervisor.RetryBackoffSaturates | endermux-client/src/main/java/xyz/jpenilla/endermux/client/runtime/EndermuxClient.java:151-153 | from the eighth attempt on the backoff is the one-minute cap |
| Supervisor.RetryBackoffMonotone | endermux-client/src/main/java/xyz/jpenilla/endermux/client/runtime/EndermuxClient.java:147-154 | a later attempt never waits less |
| Supervisor.FormatBackoff | endermux-client/src/main/java/xyz/jpenilla/endermux/client/runtime/EndermuxClient.java:156-159 | a whole number of milliseconds is shown as seconds ending in "s" |
| Supervisor.BackoffsFormatAsSeconds | endermux-client/src/main/java/xyz/jpenilla/endermux/client/runtime/EndermuxClient.java:78-81 | every backoff the loop waits is shown as digits and "s" whose number of seconds times 1000 is the backoff |
| Supervisor.ShouldQuitClient | endermux-client/src/main/java/xyz/jpenilla/endermux/client/runtime/EndermuxClient.java:103-112 | the client quits exactly after the user's end of input, or an unrecoverable handshake failure when not overridden |
| Supervisor.RecordedExitReason | endermux-client/src/main/java/xyz/jpenilla/endermux/client/runtime/EndermuxClient.java:57-64 | end of input records USER_EOF, a fatal handshake not overridden records its failure, any other outcome keeps the earlier reason |
| Supervisor.Step | endermux-client/src/main/java/xyz/jpenilla/endermux/client/runtime/EndermuxClient.java:43-86 | a socket that never appears ends the loop unchanged; otherwise the reason is recorded, a connected session resets the retry count, and the loop ends on quitting or an interrupted backoff, else it waits the next backoff |
| Supervisor.Supervise | endermux-client/src/main/java/xyz/jpenilla/endermux/client/runtime/EndermuxClient.java:43-86 | a stopped loop stays as it is; the retry loop over the rounds, round by round, up to the one that stops it |
| Supervisor.SuperviseExtends | endermux-client/src/main/java/xyz/jpenilla/endermux/client/runtime/EndermuxClient.java:65-85 | the loop only appends backoffs, one per round while it goes on, and keeps an exit reason once recorded |
| Supervisor.ConnectedSessionRetriesAtOnce | endermux-client/src/main/java/xyz/jpenilla/endermux/client/runtime/EndermuxClient.java:65-78 | after a session that connected the retry count restarts and the next wait is zero |
| Supervisor.FailuresBackOff | endermux-client/src/main/java/xyz/jpenilla/endermux/client/runtime/EndermuxClient.java:65-85 | failed attempts in a row wait the backoffs of consecutive retry counts and never end the loop |
| Supervisor.UserEofQuits | endermux-client/src/main/java/xyz/jpenilla/endermux/client/runtime/EndermuxClient.java:57-75 | the user's end of input ends the loop with exit code 0 |
| Supervisor.UnrecoverableHandshakeQuits | endermux-client/src/main/java/xyz/jpenilla/endermux/client/runtime/EndermuxClient.java:59-75 | an unrecoverable handshake failure ends the loop with exit code 1, unless overridden, when the earlier reason is kept and the loop goes on |
| Supervisor.EndermuxClient.constructor | endermux-client/src/main/java/xyz/jpenilla/endermux/client/runtime/EndermuxClient.java:29-32 | a new client has no shutdown requested, no exit reason and no active session |
| Supervisor.EndermuxClient.OnInterrupt | endermux-client/src/main/java/xyz/jpenilla/endermux/client/runtime/EndermuxClient.java:138-144 | without a connected session an interrupt records USER_INTERRUPT_WHILE_WAITING and requests shutdown; with one nothing changes |
| Supervisor.EndermuxClient.Run | endermux-client/src/main/java/xyz/jpenilla/endermux/client/runtime/EndermuxClient.java:34-101 | the loop runs the rounds to the one that ends it, not at all when shutdown was already requested, and returns the exit code of the reason recorded |
| LogContexts.RenderColorContext.constructor | endermux-common/src/main/java/xyz/jpenilla/endermux/log4j/RenderColorContext.java:9-10 | the slot starts empty, so the current level is the local terminal's |
| LogContexts.RenderColorContext.Current | endermux-common/src/main/java/xyz/jpenilla/endermux/log4j/RenderColorContext.java:27-30 | the pushed level when there is one, the local terminal's level otherwise |
| LogContexts.RenderColorContext.Push | endermux-common/src/main/java/xyz/jpenilla/endermux/log4j/RenderColorContext.java:15-17 | the pushed level becomes current and the scope keeps the previous slot |
| LogContexts.RenderColorContext.Close | endermux-common/src/main/java/xyz/jpenilla/endermux/log4j/RenderColorContext.java:18-24 | closing puts the previous slot back, so with nothing pushed before the local level is current again |
| LogContexts.KeyFor | endermux-common/src/main/java/xyz/jpenilla/endermux/log4j/RichLogContext.java:15-20 | every key starts with "endermux.richMessage." and has a suffix after it |
| LogContexts.KeyForInjective | endermux-common/src/main/java/xyz/jpenilla/endermux/log4j/RichLogContext.java:77-85 | distinct color levels use distinct keys |
| LogContexts.KeysAreTheKeysOfTheLevels | endermux-common/src/main/java/xyz/jpenilla/endermux/log4j/RichLogContext.java:15-20 | the five keys are exactly the keys of the five levels |
| LogContexts.FiveDistinctKeys | endermux-common/src/main/java/xyz/jpenilla/endermux/log4j/RichLogContext.java:15-20 | there are exactly five keys |
| LogContexts.SavedScope | endermux-common/src/main/java/xyz/jpenilla/endermux/log4j/RichLogContext.java:52-56 | a push saves for each level the value its key held, or its absence |
| LogContexts.Restored | endermux-common/src/main/java/xyz/jpenilla/endermux/log4j/RichLogContext.java:87-93 | restoring a key gives it the saved value, or removes it when there was none, and leaves every other key alone |
| LogContexts.Pushed | endermux-common/src/main/java/xyz/jpenilla/endermux/log4j/RichLogContext.java:45-71 | reference definition of the context after a push: the five keys set to the five renderings; `RenderedForAfterPush` and `OtherKeysUntouched` prove what it holds |
| LogContexts.Closed | endermux-common/src/main/java/xyz/jpenilla/endermux/log4j/RichLogContext.java:64-70 | reference definition of the context after a close: the five keys restored innermost first; `ClosedRestoresEachKey` and `PushThenCloseRestores` prove it undoes a push |
| LogContexts.RenderedFor | endermux-common/src/main/java/xyz/jpenilla/endermux/log4j/RichLogContext.java:73-75 | reference definition of renderedFor, the value under the level's key; `RenderedForAfterPush` proves it gives back what was pushed |
| LogContexts.RenderedForAfterPush | endermux-common/src/main/java/xyz/jpenilla/endermux/log4j/RichLogContext.java:73-75 | after a push, renderedFor gives for each level the string pushed for that level |
| LogContexts.ClosedRestoresEachKey | endermux-common/src/main/java/xyz/jpenilla/endermux/log4j/RichLogContext.java:64-70 | closing gives each of the five keys its saved value back, and removes it when it had none |
| LogContexts.OtherKeysUntouched | endermux-common/src/main/java/xyz/jpenilla/endermux/log4j/RichLogContext.java:45-71 | neither pushing nor closing changes a key other than the five |
| LogContexts.PushThenCloseRestores | endermux-common/src/main/java/xyz/jpenilla/endermux/log4j/RichLogContext.java:45-71 | closing the scope a push returned gives back the context exactly as it was before the push |
| LogContexts.PushThenCloseAt | endermux-common/src/main/java/xyz/jpenilla/endermux/log4j/RichLogContext.java:45-71 | after a push and its close, every key, rendering or not, has the value it had before |
| LogContexts.NestedRichScopesRestore | endermux-common/src/main/java/xyz/jpenilla/endermux/log4j/RichLogContext.java:45-71 | two nested pushes closed innermost first leave the context as it was before both |
| LogContexts.RichLogContext.constructor | endermux-common/src/main/java/xyz/jpenilla/endermux/log4j/RichLogContext.java:45-71 | the context starts as the thread's map |
| LogContexts.RichLogContext.PushRenderedByColorLevel | endermux-common/src/main/java/xyz/jpenilla/endermux/log4j/RichLogContext.java:45-71 | the five keys are set to the five strings and the scope saves their previous values |
| LogContexts.RichLogContext.PushRenderedBy | endermux-common/src/main/java/xyz/jpenilla/endermux/log4j/RichLogContext.java:25-33 | the function is applied to each level's serializer and the results pushed as the five strings |
| LogContexts.RichLogContext.Get | endermux-common/src/main/java/xyz/jpenilla/endermux/log4j/RichLogContext.java:52-56 | the value of a key, or None when it is absent |
| LogContexts.RichLogContext.Close | endermux-common/src/main/java/xyz/jpenilla/endermux/log4j/RichLogContext.java:64-70 | closing a scope restores each of the five keys in turn |
| LogContexts.RichLogContext.Restore | endermux-common/src/main/java/xyz/jpenilla/endermux/log4j/RichLogContext.java:87-93 | a key is removed when its saved value is absent and put back otherwise |
| LogForwarding.AfterError | endermux-server/src/main/java/xyz/jpenilla/endermux/server/log4j/RemoteLogForwarder.java:51-64 | every failure is counted; a diagnostic with the new total is emitted, and the last-log time moved, exactly when more than a minute has passed since the last one |
| LogForwarding.ErrorKeepsSpacing | endermux-server/src/main/java/xyz/jpenilla/endermux/server/log4j/RemoteLogForwarder.java:51-64 | one failure keeps the diagnostics more than a minute apart and only ever appends to them |
| LogForwarding.AfterErrors | endermux-server/src/main/java/xyz/jpenilla/endermux/server/log4j/RemoteLogForwarder.java:51-64 | after a run of failures every one is counted and at most one diagnostic per failure is added |
| LogForwarding.ErrorsAreCountedAndSpaced | endermux-server/src/main/java/xyz/jpenilla/endermux/server/log4j/RemoteLogForwarder.java:51-64 | over any run of failures each is counted once, the diagnostics stay more than a minute apart, none is lost and there is at most one per failure |
| LogForwarding.SparseErrorsAreAllReported | endermux-server/src/main/java/xyz/jpenilla/endermux/server/log4j/RemoteLogForwarder.java:51-64 | failures more than a minute apart each emit a diagnostic |
| LogForwarding.QuickRepeatIsSilent | endermux-server/src/main/java/xyz/jpenilla/endermux/server/log4j/RemoteLogForwarder.java:55-63 | a failure within a minute of the last diagnostic is counted but emits none |
| LogForwarding.RemoteLogForwarder.constructor | endermux-server/src/main/java/xyz/jpenilla/endermux/server/log4j/RemoteLogForwarder.java:22-28 | a new forwarder keeps its layout and has counted no failures and broadcast nothing |
| LogForwarding.RemoteLogForwarder.Forward | endermux-server/src/main/java/xyz/jpenilla/endermux/server/log4j/RemoteLogForwarder.java:31-43 | nothing happens while the server is not running; otherwise the event is broadcast rendered once per client level, or a broadcast failure is handled as a counted, rate-limited error; the render color context is left as it was |
| LogForwarding.RemoteLogForwarder.RenderAll | endermux-server/src/main/java/xyz/jpenilla/endermux/server/log4j/RemoteLogForwarder.java:39 | the renderings are the layout's rendering of the event at each requested level, in order |
| LogForwarding.RemoteLogForwarder.Render | endermux-server/src/main/java/xyz/jpenilla/endermux/server/log4j/RemoteLogForwarder.java:45-49 | the rendering is the layout's at the requested level, and the render color context is restored afterwards |
| LogForwarding.RemoteLogForwarder.HandleForwardingError | endermux-server/src/main/java/xyz/jpenilla/endermux/server/log4j/RemoteLogForwarder.java:51-64 | the failure count and the diagnostics move exactly as AfterError says, nothing else changes |
| LogForwarding.EndermuxForwardingAppender.constructor | endermux-server/src/main/java/xyz/jpenilla/endermux/server/log4j/EndermuxForwardingAppender.java:32-42 | the appender keeps its name and layout |
| LogForwarding.AppenderSlots.constructor | endermux-server/src/main/java/xyz/jpenilla/endermux/server/log4j/EndermuxForwardingAppender.java:29-30 | no appender and no target at start |
| LogForwarding.AppenderSlots.CreateAppender | endermux-server/src/main/java/xyz/jpenilla/endermux/server/log4j/EndermuxForwardingAppender.java:32-55 | a second appender is refused with "Only one EndermuxForwardingAppender may exist"; the first becomes the instance, with the default layout when none is given |
| LogForwarding.AppenderSlots.Attach | endermux-server/src/main/java/xyz/jpenilla/endermux/server/log4j/EndermuxForwardingAppender.java:57-60 | without an appender attach fails with "Endermux forwarding appender is unavailable"; otherwise a fresh forwarder with the appender's layout becomes the target |
| LogForwarding.AppenderSlots.Detach | endermux-server/src/main/java/xyz/jpenilla/endermux/server/log4j/EndermuxForwardingAppender.java:62-64 | the target is cleared and the appender kept |
| LogForwarding.AppenderSlots.Append | endermux-server/src/main/java/xyz/jpenilla/endermux/server/log4j/EndermuxForwardingAppender.java:66-72 | an event goes to the current target exactly once, and neither slot changes |

## Left out

- Sockets, threads, the executor for log output, read timeouts and the handshake deadline are left out. Each operation takes what the transport reported during it (a frame read, a timeout, a closed stream) as a parameter.
- Concurrency is left out. The interrupt handler, the disconnect callback and the message handler run on other threads in the source and are modelled as separate calls on one state. A disconnect is `Disconnected`, followed by the reader interrupt it causes and the read loop's next connection check, put together in `AcceptInputUntilDisconnect`.
- Gzip is left out. Compression and decompression are a pair of function values, so the model does not prove that inflating a deflated payload gives it back. The frame round trip assumes the pair does, stated as `FrameCodec.RoundTrips`.
- JSON text is left out. Parsing and rendering are abstract, and the envelope is modelled on a JSON tree. The GSON payload mapping is a codec parameter; the round trip assumes it reads back what it wrote.
- Color rendering is left out. ANSI component serialisation, PatternLayout's formatting and `RichLogContext.pushComponent` (rendering a component at each level) are not modelled; a layout is a function of the event and the color level.
- The dumb-terminal input path of `RemoteConsoleSession` is not part of this model. It polls standard input with sleeps, and the model covers only the interactive reader path. `SocketPathWatcher`, `TerminalRuntimeContext`, `TerminalOutput` and `StreamRedirection` are not part of this model either; their results are parameters.
- The server's broadcast to clients and its handler registry are abstract. A broadcast reports success or failure; the registry reports whether it handled a message.
- `SessionOutcome` declares two components, `didConnect` and `disconnectReason`, but `EndermuxClient.shouldQuitClient` calls `quitClient()` on it and the client test builds it with three. The model takes `quitClient` to be the reason's `quitClientByDefault`, which agrees with every case in the test.
- `SocketProtocolConstants` sets the transport epoch and the minimum supported epoch to 16 (SocketProtocolConstants.java:14-22) and the frame cap to 1 MiB. `FrameCodec` also refers to `MAX_COMPRESSED_PAYLOAD_SIZE_BYTES` and `MAX_UNCOMPRESSED_PAYLOAD_SIZE_BYTES` (FrameCodec.java:29, 52, 61, 82, 92), which `SocketProtocolConstants` does not declare. The model fixes them at 1 MiB and 4 MiB, the sizes the frame codec's error cases are stated with.
- Java `HashMap` and `HashSet` iteration order is unspecified. Where the source reports the first offending capability it meets, the contracts say only that the reported one is among the offending ones.
- `Supervisor.FormatBackoff`: only the whole-seconds branch is modelled. The one-decimal floating-point rendering gives `None`, and no backoff the loop computes reaches it.
- `Supervisor.EndermuxClient.Run`: an interrupt that arrives while the client waits for the socket or backs off is taken into the round's `socketAppeared` and `backoffCompleted` flags. `Run` itself never records USER_INTERRUPT_WHILE_WAITING (EndermuxClient.java:141); `OnInterrupt` does, as a separate call. The exit code is 0 either way.
- `Supervisor.Step`: the retry count is unbounded, where Java's `int` would wrap after 2^31 failed attempts in a row. The shift into the backoff is proved not to overflow a `long`.
- `LogForwarding.AfterError`: the failure count is unbounded where the source's `AtomicLong` would wrap. The diagnostic's text is reduced to the total, the time and the exception message.
- `LogContexts.RenderColorContext` and `Ansi.ColorLevelContext` are modelled for one thread; each `ThreadLocal` is a field.
- Java `null` is modelled as `Option` only where the source checks for it: a client's capability range, a required capability name, a selected version and the reject reason. Map keys and other names are plain strings.

## Findings

| source | as written | input that shows it | evidently intended | confidence | as-written member | corrected member |
|---|---|---|---|---|---|---|
| endermux-common/src/main/java/xyz/jpenilla/endermux/protocol/MessageSerializer.java:43-62 | `getAsString()` on a JSON null or object `type` (or a non-null object `requestId`) throws `UnsupportedOperationException`, which the catch of `JsonSyntaxException`, `IllegalStateException` and `ClassCastException` does not cover, so it escapes `deserialize` | `{"type": null}` | `deserialize` returns `null` for every malformed envelope | not executed | MessageSerializer.DeserializeAsWritten, MessageSerializer.NullTypeEscapes | MessageSerializer.Deserialize, MessageSerializer.CorrectedNeverEscapes |
