/**
 * Wire framing. A frame is a 4-byte big-endian signed length L, one
 * compression tag byte, and L - 1 payload bytes. The payload may be gzip
 * compressed; gzip itself is a pair of library functions given as a parameter.
 */
module FrameCodec {
  import opened Wrappers
  import opened Strings
  import opened FrameCompression
  import opened ProtocolConstants

  /** An unsigned byte as read by readUnsignedByte. */
  type Byte = b: int | 0 <= b < 256

  /** What reading or writing a frame fails with. */
  datatype FrameError =
    | ProtocolError(message: string)   // ProtocolException
    | UnexpectedEof                     // EOFException from readUnsignedByte or readFully
    | CorruptGzipStream                 // the IOException the gzip reader throws on bad input

  /** The chunks successive `read` calls of the gzip reader return, in order, and
    * whether the stream then ended normally (-1) or failed. */
  datatype InflateRun = InflateRun(chunks: seq<seq<Byte>>, corrupt: bool)

  /** The gzip library: compression of a buffer, and a reader over compressed bytes. */
  datatype GzipLibrary = GzipLibrary(compress: seq<Byte> -> seq<Byte>, inflate: seq<Byte> -> InflateRun)

  /** The bytes of successive chunks, concatenated in order. */
  function Flatten(chunks: seq<seq<Byte>>): seq<Byte>
    decreases |chunks|
  {
    if chunks == [] then [] else Flatten(chunks[..|chunks| - 1]) + chunks[|chunks| - 1]
  }

  /** Decompressing what the library compressed gives the original bytes back. */
  ghost predicate RoundTrips(gz: GzipLibrary) {
    forall d :: !gz.inflate(gz.compress(d)).corrupt && Flatten(gz.inflate(gz.compress(d)).chunks) == d
  }

  // ---------------------------------------------------------------------------
  // DataInputStream.readInt / DataOutputStream.writeInt
  // ---------------------------------------------------------------------------

  const TwoTo31: int := 0x8000_0000
  const TwoTo32: int := 0x1_0000_0000

  /** Four bytes, most significant first, read as a two's-complement 32-bit int. */
  function DecodeInt32(b: seq<Byte>): (n: int)
    requires |b| == 4
    ensures -TwoTo31 <= n < TwoTo31
  {
    var u: int := ((b[0] as int * 256 + b[1]) * 256 + b[2]) * 256 + b[3];
    if u >= TwoTo31 then u - TwoTo32 else u
  }

  /** The four bytes writeInt emits for `n`. */
  function EncodeInt32(n: int): (b: seq<Byte>)
    requires -TwoTo31 <= n < TwoTo31
    ensures |b| == 4 && DecodeInt32(b) == n
  {
    var u := if n < 0 then n + TwoTo32 else n;
    var u1 := u / 256;
    var u2 := u1 / 256;
    assert u == u1 * 256 + u % 256 && u1 == u2 * 256 + u1 % 256;
    assert u2 == (u2 / 256) * 256 + u2 % 256;
    [u2 / 256, u2 % 256, u1 % 256, u % 256]
  }

  // ---------------------------------------------------------------------------
  // Size checks and gunzip's running total
  // ---------------------------------------------------------------------------

  /** validateUncompressedPayloadSize: a payload over the uncompressed cap is refused. */
  function ValidateUncompressedPayloadSize(data: seq<Byte>): (r: Result<seq<Byte>, FrameError>)
    ensures r.Ok? <==> |data| <= MaxUncompressedPayloadSizeBytes
    ensures r.Ok? ==> r.value == data
    ensures r.Err? ==> r.error == ProtocolError("Uncompressed payload too large: " + IntToString(|data|))
  {
    if |data| > MaxUncompressedPayloadSizeBytes then
      Err(ProtocolError("Uncompressed payload too large: " + IntToString(|data|)))
    else Ok(data)
  }

  /** The running total at the first chunk that takes it over the uncompressed cap, if any. */
  function OverflowTotal(chunks: seq<seq<Byte>>, total: nat): (r: Option<nat>)
    decreases |chunks|
  {
    if chunks == [] then None
    else if total + |chunks[0]| > MaxUncompressedPayloadSizeBytes then Some(total + |chunks[0]|)
    else OverflowTotal(chunks[1..], total + |chunks[0]|)
  }

  /** Flattening distributes over appending runs of chunks. */
  lemma {:induction false} FlattenAppend(a: seq<seq<Byte>>, b: seq<seq<Byte>>)
    ensures Flatten(a + b) == Flatten(a) + Flatten(b)
    decreases |b|
  {
    if b == [] {
      assert a + b == a;
    } else {
      var init := b[..|b| - 1];
      FlattenAppend(a, init);
      assert (a + b)[..|a + b| - 1] == a + init;
    }
  }

  lemma FlattenCons(chunks: seq<seq<Byte>>)
    requires chunks != []
    ensures Flatten(chunks) == chunks[0] + Flatten(chunks[1..])
  {
    FlattenAppend([chunks[0]], chunks[1..]);
    assert [chunks[0]] + chunks[1..] == chunks;
    assert Flatten([chunks[0]]) == Flatten([chunks[0]][..0]) + chunks[0];
  }

  /** The running total overflows exactly when the whole output would exceed the cap,
    * and the total it reports is over the cap and no more than the whole output. */
  lemma {:induction false} OverflowTotalMeaning(chunks: seq<seq<Byte>>, total: nat)
    requires total <= MaxUncompressedPayloadSizeBytes
    ensures OverflowTotal(chunks, total).None? <==> total + |Flatten(chunks)| <= MaxUncompressedPayloadSizeBytes
    ensures OverflowTotal(chunks, total).Some? ==>
      MaxUncompressedPayloadSizeBytes < OverflowTotal(chunks, total).value <= total + |Flatten(chunks)|
    decreases |chunks|
  {
    if chunks != [] {
      FlattenCons(chunks);
      assert |Flatten(chunks)| == |chunks[0]| + |Flatten(chunks[1..])|;
      if total + |chunks[0]| <= MaxUncompressedPayloadSizeBytes {
        OverflowTotalMeaning(chunks[1..], total + |chunks[0]|);
      }
    }
  }

  /** What gunzip returns for a run of the gzip reader. */
  function Gunzipped(run: InflateRun): (r: Result<seq<Byte>, FrameError>)
    ensures r.Ok? <==> !run.corrupt && |Flatten(run.chunks)| <= MaxUncompressedPayloadSizeBytes
    ensures r.Ok? ==> r.value == Flatten(run.chunks)
    ensures |Flatten(run.chunks)| > MaxUncompressedPayloadSizeBytes ==>
      r.Err? && r.error.ProtocolError? && StartsWith(r.error.message, "Decompressed frame too large: ")
  {
    OverflowTotalMeaning(run.chunks, 0);
    match OverflowTotal(run.chunks, 0)
    case Some(t) => Err(ProtocolError("Decompressed frame too large: " + IntToString(t)))
    case None => if run.corrupt then Err(CorruptGzipStream) else Ok(Flatten(run.chunks))
  }

  /** gunzip: copies chunk after chunk to the output, aborting once the running total passes the cap. */
  method Gunzip(run: InflateRun) returns (r: Result<seq<Byte>, FrameError>)
    ensures r == Gunzipped(run)
    ensures r.Ok? ==> |r.value| <= MaxUncompressedPayloadSizeBytes
  {
    var chunks := run.chunks;
    var out: seq<Byte> := [];
    var total: nat := 0;
    var i := 0;
    while i < |chunks|
      invariant 0 <= i <= |chunks|
      invariant out == Flatten(chunks[..i]) && total == |out|
      invariant total <= MaxUncompressedPayloadSizeBytes
      invariant OverflowTotal(chunks, 0) == OverflowTotal(chunks[i..], total)
      decreases |chunks| - i
    {
      var read := chunks[i];
      total := total + |read|;
      if total > MaxUncompressedPayloadSizeBytes {
        return Err(ProtocolError("Decompressed frame too large: " + IntToString(total)));
      }
      assert chunks[..i + 1][..i] == chunks[..i];
      out := out + read;
      assert chunks[i..][1..] == chunks[i + 1..];
      i := i + 1;
    }
    assert chunks[..i] == chunks;
    if run.corrupt {
      return Err(CorruptGzipStream);
    }
    return Ok(out);
  }

  // ---------------------------------------------------------------------------
  // readFrame and writeFrame on byte sequences
  // ---------------------------------------------------------------------------

  /** The result of reading one frame: none at end of stream, the decoded payload
    * and the number of bytes the frame took, or a failure. */
  datatype ReadOutcome = NoFrame | Frame(data: seq<Byte>, consumed: nat) | Failed(error: FrameError)

  /** readFrame on the bytes that remain in the stream. */
  function DecodeFrame(input: seq<Byte>, gz: GzipLibrary): (r: ReadOutcome)
    ensures r.NoFrame? <==> |input| < 4
    ensures r.Frame? ==> 5 <= r.consumed <= |input| && r.consumed == 4 + DecodeInt32(input[..4])
    ensures r.Frame? ==> |r.data| <= MaxUncompressedPayloadSizeBytes
    ensures r.Frame? && input[4] == WireValue(NoCompression) ==> r.data == input[5..r.consumed]
  {
    if |input| < 4 then NoFrame
    else
      var length := DecodeInt32(input[..4]);
      if length <= 0 || length > MaxCompressedPayloadSizeBytes + 1 then
        Failed(ProtocolError("Invalid frame size: " + IntToString(length)))
      else if |input| < 5 then Failed(UnexpectedEof)
      else
        match FromWireValue(input[4])
        case Err(message) => Failed(ProtocolError(message))
        case Ok(compression) =>
          if |input| < 4 + length then Failed(UnexpectedEof)
          else
            var data := input[5..4 + length];
            var decoded := match compression
              case NoCompression => ValidateUncompressedPayloadSize(data)
              case Gzip => Gunzipped(gz.inflate(data));
            match decoded
            case Ok(d) => Frame(d, 4 + length)
            case Err(e) => Failed(e)
  }

  /** The bytes that go in the frame: the data itself, or its gzip compression. */
  function FramePayload(data: seq<Byte>, compression: FrameCompressionType, gz: GzipLibrary): seq<Byte> {
    match compression
    case NoCompression => data
    case Gzip => gz.compress(data)
  }

  /** writeFrame: the bytes written for `data`, or the size error raised before anything is written. */
  function EncodeFrame(data: seq<Byte>, compression: FrameCompressionType, gz: GzipLibrary): (r: Result<seq<Byte>, FrameError>)
    ensures |data| > MaxUncompressedPayloadSizeBytes ==>
      r == Err(ProtocolError("Uncompressed payload too large: " + IntToString(|data|)))
    ensures |data| <= MaxUncompressedPayloadSizeBytes && |FramePayload(data, compression, gz)| > MaxCompressedPayloadSizeBytes ==>
      r == Err(ProtocolError("Compressed payload too large: " + IntToString(|FramePayload(data, compression, gz)|)))
    ensures r.Ok? <==> |data| <= MaxUncompressedPayloadSizeBytes
                       && |FramePayload(data, compression, gz)| <= MaxCompressedPayloadSizeBytes
    ensures r.Ok? ==> |r.value| == |FramePayload(data, compression, gz)| + 5
                      && DecodeInt32(r.value[..4]) == |FramePayload(data, compression, gz)| + 1
                      && r.value[4] == WireValue(compression)
                      && r.value[5..] == FramePayload(data, compression, gz)
  {
    if |data| > MaxUncompressedPayloadSizeBytes then
      Err(ProtocolError("Uncompressed payload too large: " + IntToString(|data|)))
    else
      var payload := FramePayload(data, compression, gz);
      if |payload| > MaxCompressedPayloadSizeBytes then
        Err(ProtocolError("Compressed payload too large: " + IntToString(|payload|)))
      else
        var header := EncodeInt32(|payload| + 1);
        var bytes := header + [WireValue(compression) as Byte] + payload;
        assert bytes[..4] == header;
        Ok(bytes)
  }

  // ---------------------------------------------------------------------------
  // Properties of the frame format
  // ---------------------------------------------------------------------------

  /** An uncompressed frame within the compressed cap reads back as the same
    * bytes, consuming exactly what was written, whatever follows it. */
  lemma RoundTripNone(data: seq<Byte>, rest: seq<Byte>, gz: GzipLibrary)
    requires |data| <= MaxCompressedPayloadSizeBytes
    ensures EncodeFrame(data, NoCompression, gz).Ok?
    ensures DecodeFrame(EncodeFrame(data, NoCompression, gz).value + rest, gz) == Frame(data, |data| + 5)
  {
    var bytes := EncodeFrame(data, NoCompression, gz).value;
    var input := bytes + rest;
    assert input[..4] == bytes[..4];
    assert input[4] == bytes[4];
    assert input[5..4 + (|data| + 1)] == bytes[5..] == data;
  }

  /** A gzip frame reads back as the original bytes when the library round-trips
    * and both caps hold. */
  lemma RoundTripGzip(data: seq<Byte>, rest: seq<Byte>, gz: GzipLibrary)
    requires RoundTrips(gz)
    requires |data| <= MaxUncompressedPayloadSizeBytes
    requires |gz.compress(data)| <= MaxCompressedPayloadSizeBytes
    ensures EncodeFrame(data, Gzip, gz).Ok?
    ensures DecodeFrame(EncodeFrame(data, Gzip, gz).value + rest, gz) == Frame(data, |gz.compress(data)| + 5)
  {
    var payload := gz.compress(data);
    var bytes := EncodeFrame(data, Gzip, gz).value;
    var input := bytes + rest;
    assert input[..4] == bytes[..4];
    assert input[4] == bytes[4];
    assert input[5..4 + (|payload| + 1)] == bytes[5..] == payload;
    assert !gz.inflate(payload).corrupt && Flatten(gz.inflate(payload).chunks) == data;
  }

  /** A length field that is not positive or is over the cap is refused before
    * any further byte is looked at. */
  lemma InvalidSizeFailsBeforeTag(input: seq<Byte>, gz: GzipLibrary)
    requires |input| >= 4
    requires DecodeInt32(input[..4]) <= 0 || DecodeInt32(input[..4]) > MaxCompressedPayloadSizeBytes + 1
    ensures DecodeFrame(input, gz) == Failed(ProtocolError("Invalid frame size: " + IntToString(DecodeInt32(input[..4]))))
    ensures DecodeFrame(input, gz) == DecodeFrame(input[..4], gz)
  {
    assert input[..4][..4] == input[..4];
  }

  /** An unknown tag is refused before the payload is read. */
  lemma UnsupportedTagFailsBeforePayload(input: seq<Byte>, gz: GzipLibrary)
    requires |input| >= 5
    requires 0 < DecodeInt32(input[..4]) <= MaxCompressedPayloadSizeBytes + 1
    requires input[4] != 0 && input[4] != 1
    ensures DecodeFrame(input, gz) == Failed(ProtocolError("Unsupported frame compression: " + IntToString(input[4])))
    ensures DecodeFrame(input, gz) == DecodeFrame(input[..5], gz)
  {
    assert input[..5][..4] == input[..4];
  }

  /** A frame whose tag or payload bytes are cut short is an end-of-stream error. */
  lemma TruncatedFrameFails(input: seq<Byte>, gz: GzipLibrary)
    requires |input| >= 4
    requires 0 < DecodeInt32(input[..4]) <= MaxCompressedPayloadSizeBytes + 1
    requires |input| < 4 + DecodeInt32(input[..4])
    requires |input| >= 5 ==> input[4] == 0 || input[4] == 1
    ensures DecodeFrame(input, gz) == Failed(UnexpectedEof)
  {
  }

  /** With NONE, one byte over the compressed cap is refused as a compressed-size error,
    * though it is well within the uncompressed cap. */
  lemma OneOverCompressedCapFails(data: seq<Byte>, gz: GzipLibrary)
    requires |data| == MaxCompressedPayloadSizeBytes + 1
    ensures EncodeFrame(data, NoCompression, gz)
            == Err(ProtocolError("Compressed payload too large: " + IntToString(MaxCompressedPayloadSizeBytes + 1)))
  {
  }

  /** An uncompressed frame that passes the length check is never refused by the
    * uncompressed-size check: its payload is at most the compressed cap. */
  lemma UncompressedReadNeverOversize(input: seq<Byte>, gz: GzipLibrary)
    requires |input| >= 5 && |input| >= 4 + DecodeInt32(input[..4])
    requires 0 < DecodeInt32(input[..4]) <= MaxCompressedPayloadSizeBytes + 1
    requires input[4] == WireValue(NoCompression)
    ensures DecodeFrame(input, gz) == Frame(input[5..4 + DecodeInt32(input[..4])], 4 + DecodeInt32(input[..4]))
  {
  }

  // ---------------------------------------------------------------------------
  // The streams readFrame and writeFrame work on
  // ---------------------------------------------------------------------------

  /** A DataInputStream over a fixed sequence of bytes. */
  class ByteInput {
    var bytes: seq<Byte>
    var pos: nat

    predicate Valid()
      reads this
    {
      pos <= |bytes|
    }

    /** The bytes not yet consumed. */
    function Remaining(): seq<Byte>
      reads this
      requires Valid()
    {
      bytes[pos..]
    }

    constructor (data: seq<Byte>)
      ensures Valid() && Remaining() == data
    {
      bytes, pos := data, 0;
    }

    /** readInt: four bytes, or end of stream (EOFException) when fewer remain. */
    method ReadInt() returns (r: Option<int>)
      requires Valid()
      modifies this`pos
      ensures Valid() && bytes == old(bytes)
      ensures |old(Remaining())| < 4 ==> r == None && Remaining() == []
      ensures |old(Remaining())| >= 4 ==>
        r == Some(DecodeInt32(old(Remaining())[..4])) && Remaining() == old(Remaining())[4..]
    {
      if |bytes| - pos < 4 {
        pos := |bytes|;
        return None;
      }
      r := Some(DecodeInt32(bytes[pos..pos + 4]));
      assert bytes[pos..][..4] == bytes[pos..pos + 4];
      pos := pos + 4;
    }

    /** readUnsignedByte: one byte, or end of stream. */
    method ReadUnsignedByte() returns (r: Option<Byte>)
      requires Valid()
      modifies this`pos
      ensures Valid() && bytes == old(bytes)
      ensures old(Remaining()) == [] ==> r == None && Remaining() == []
      ensures old(Remaining()) != [] ==> r == Some(old(Remaining())[0]) && Remaining() == old(Remaining())[1..]
    {
      if pos == |bytes| {
        return None;
      }
      r := Some(bytes[pos]);
      pos := pos + 1;
    }

    /** readFully: exactly `n` bytes, or end of stream when fewer remain. */
    method ReadFully(n: nat) returns (r: Option<seq<Byte>>)
      requires Valid()
      modifies this`pos
      ensures Valid() && bytes == old(bytes)
      ensures |old(Remaining())| < n ==> r == None && Remaining() == []
      ensures |old(Remaining())| >= n ==> r == Some(old(Remaining())[..n]) && Remaining() == old(Remaining())[n..]
    {
      if |bytes| - pos < n {
        pos := |bytes|;
        return None;
      }
      r := Some(bytes[pos..pos + n]);
      assert bytes[pos..][..n] == bytes[pos..pos + n];
      pos := pos + n;
    }
  }

  /** A DataOutputStream that collects what is written. */
  class ByteOutput {
    var written: seq<Byte>

    constructor ()
      ensures written == []
    {
      written := [];
    }

    method WriteInt(n: int)
      requires -TwoTo31 <= n < TwoTo31
      modifies this
      ensures written == old(written) + EncodeInt32(n)
    {
      written := written + EncodeInt32(n);
    }

    method WriteByte(b: Byte)
      modifies this
      ensures written == old(written) + [b]
    {
      written := written + [b];
    }

    method Write(data: seq<Byte>)
      modifies this
      ensures written == old(written) + data
    {
      written := written + data;
    }
  }

  /** readFrame: length, tag, payload, each read from the stream in turn. */
  method ReadFrame(input: ByteInput, gz: GzipLibrary) returns (r: ReadOutcome)
    requires input.Valid()
    modifies input
    ensures input.Valid()
    ensures r == DecodeFrame(old(input.Remaining()), gz)
    ensures r.Frame? ==> input.Remaining() == old(input.Remaining())[r.consumed..]
  {
    ghost var before := input.Remaining();
    var length := input.ReadInt();
    if length.None? {
      return NoFrame;
    }
    if length.value <= 0 || length.value > MaxCompressedPayloadSizeBytes + 1 {
      return Failed(ProtocolError("Invalid frame size: " + IntToString(length.value)));
    }
    var tag := input.ReadUnsignedByte();
    if tag.None? {
      return Failed(UnexpectedEof);
    }
    assert tag.value == before[4];
    var compression := FromWireValue(tag.value);
    if compression.Err? {
      return Failed(ProtocolError(compression.error));
    }
    var data := input.ReadFully(length.value - 1);
    if data.None? {
      return Failed(UnexpectedEof);
    }
    assert data.value == before[5..4 + length.value];
    assert input.Remaining() == before[4 + length.value..];
    var decoded;
    match compression.value {
      case NoCompression =>
        decoded := ValidateUncompressedPayloadSize(data.value);
      case Gzip =>
        decoded := Gunzip(gz.inflate(data.value));
    }
    match decoded {
      case Ok(d) => r := Frame(d, 4 + length.value);
      case Err(e) => r := Failed(e);
    }
  }

  /** writeFrame: the size checks, then length, tag and payload, in that order. */
  method WriteFrame(out: ByteOutput, data: seq<Byte>, compression: FrameCompressionType, gz: GzipLibrary)
    returns (r: Result<(), FrameError>)
    modifies out
    ensures EncodeFrame(data, compression, gz).Ok? ==>
      r.Ok? && out.written == old(out.written) + EncodeFrame(data, compression, gz).value
    ensures EncodeFrame(data, compression, gz).Err? ==>
      r == Err(EncodeFrame(data, compression, gz).error) && out.written == old(out.written)
  {
    if |data| > MaxUncompressedPayloadSizeBytes {
      return Err(ProtocolError("Uncompressed payload too large: " + IntToString(|data|)));
    }
    var payload := FramePayload(data, compression, gz);
    if |payload| > MaxCompressedPayloadSizeBytes {
      return Err(ProtocolError("Compressed payload too large: " + IntToString(|payload|)));
    }
    out.WriteInt(|payload| + 1);
    out.WriteByte(WireValue(compression));
    out.Write(payload);
    return Ok(());
  }
}
