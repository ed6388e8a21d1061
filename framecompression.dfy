/** The compression tag carried in each frame's fifth byte. */
module FrameCompression {
  import opened Wrappers
  import opened Strings

  datatype FrameCompressionType = NoCompression | Gzip

  /** The tag byte of a compression type. */
  function WireValue(c: FrameCompressionType): (v: int)
    ensures 0 <= v <= 0xFF
  {
    match c
    case NoCompression => 0
    case Gzip => 1
  }

  /** fromWireValue: the type whose tag is `v`; any other tag is a protocol error. */
  function FromWireValue(v: int): (r: Result<FrameCompressionType, string>)
    ensures r.Ok? <==> v == 0 || v == 1
    ensures r.Ok? ==> WireValue(r.value) == v
    ensures r.Err? ==> r.error == "Unsupported frame compression: " + IntToString(v)
  {
    if v == WireValue(NoCompression) then Ok(NoCompression)
    else if v == WireValue(Gzip) then Ok(Gzip)
    else Err("Unsupported frame compression: " + IntToString(v))
  }

  /** Reading back the tag of a type gives that type. */
  lemma WireValueRoundTrip(c: FrameCompressionType)
    ensures FromWireValue(WireValue(c)) == Ok(c)
  {
  }

  /** The two types have different tags: NONE is 0 and GZIP is 1. */
  lemma WireValuesDistinct()
    ensures WireValue(NoCompression) == 0 && WireValue(Gzip) == 1
  {
  }
}
