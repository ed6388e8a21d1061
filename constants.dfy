/**
 * Fixed numbers of the socket protocol: the transport epoch, the frame and
 * payload size caps, and the handshake timeouts.
 */
module ProtocolConstants {
  import opened VersionRanges

  /** Version of the framing, envelope and handshake structure. */
  const TransportEpoch: int := 16

  /** Lowest transport epoch this client release negotiates. */
  const MinSupportedTransportEpoch: int := 16

  /** The client's supported transport epochs: [MinSupportedTransportEpoch, TransportEpoch]. */
  const ClientSupportedTransportEpochRange: CapabilityVersionRange :=
    CapabilityVersionRange(MinSupportedTransportEpoch, TransportEpoch, {})

  const MaxFrameSizeBytes: int := 1024 * 1024

  /** Largest payload, after compression, that a frame may carry. */
  const MaxCompressedPayloadSizeBytes: int := 1024 * 1024

  /** Largest payload, before compression or after decompression. */
  const MaxUncompressedPayloadSizeBytes: int := 4 * 1024 * 1024

  const HandshakeTimeoutMs: int := 2000
  const HandshakeTimeoutJoinMs: int := 1000
  const SyntaxHighlightTimeoutMs: int := 1000
  const CompletionTimeoutMs: int := 5000

  /** The client's own epoch range is valid and includes exactly the current epoch. */
  lemma ClientEpochRangeIsExactlyCurrent()
    ensures Valid(ClientSupportedTransportEpochRange)
    ensures forall v :: Contains(ClientSupportedTransportEpochRange, v) <==> v == TransportEpoch
  {
  }

  /** A frame length field of MaxCompressed + 1 (payload plus tag) is a size the
    * uncompressed cap still admits, which the oversize tests depend on. */
  lemma CapsAreOrdered()
    ensures 0 < MaxCompressedPayloadSizeBytes
    ensures MaxCompressedPayloadSizeBytes + 1 <= MaxUncompressedPayloadSizeBytes
  {
  }
}
