/**
 * The big-endian `struct.pack` helpers of the MCU and XBB encoders. The
 * signed packers raise struct.error outside their range; the unsigned ones
 * first mask the value to their width, so they never raise.
 */
module BigEndianPack {
  import opened Wrappers
  import opened Bytes

  /**
   * The struct.error raised by `>h` and by `>i` for a value outside their
   * range, worded as CPython's `_range_error` words it for a signed format.
   */
  const Int16RangeError: Error := StructError("'h' format requires -32768 <= number <= 32767")
  const Int32RangeError: Error := StructError("'i' format requires -2147483648 <= number <= 2147483647")
  /** The struct.error raised by an `I` field (little- or big-endian) for a value outside its range. */
  const UInt32RangeError: Error := StructError("'I' format requires 0 <= number <= 4294967295")

  /** `pack_int16_be`: `struct.pack('>h', v)`. */
  function PackInt16BE(v: int): (r: Result<seq<byte>>)
    ensures r.Success? <==> -0x8000 <= v < 0x8000
    ensures r.Failure? ==> r.error == Int16RangeError
    ensures r.Success? ==> |r.value| == 2 && Signed(FromBE(r.value), 2) == v
  {
    if InSigned(v, 2) then
      ReadSBE(v, 2);
      Success(SBE(v, 2))
    else Failure(Int16RangeError)
  }

  /** `pack_uint16_be`: `struct.pack('>H', v & 0xFFFF)`. */
  function PackUInt16BE(v: int): (r: seq<byte>)
    ensures |r| == 2
    ensures FromBE(r) == v % 0x1_0000
    ensures 0 <= v < 0x1_0000 ==> FromBE(r) == v
  {
    FromBEOfBE(WrapUnsigned(v, 2), 2);
    BE(WrapUnsigned(v, 2), 2)
  }

  /** `pack_int32_be`: `struct.pack('>i', v)`. */
  function PackInt32BE(v: int): (r: Result<seq<byte>>)
    ensures r.Success? <==> -0x8000_0000 <= v < 0x8000_0000
    ensures r.Failure? ==> r.error == Int32RangeError
    ensures r.Success? ==> |r.value| == 4 && Signed(FromBE(r.value), 4) == v
  {
    if InSigned(v, 4) then
      ReadSBE(v, 4);
      Success(SBE(v, 4))
    else Failure(Int32RangeError)
  }

  /** `pack_uint32_be`: `struct.pack('>I', v & 0xFFFFFFFF)`. */
  function PackUInt32BE(v: int): (r: seq<byte>)
    ensures |r| == 4
    ensures FromBE(r) == v % 0x1_0000_0000
    ensures 0 <= v < 0x1_0000_0000 ==> FromBE(r) == v
  {
    FromBEOfBE(WrapUnsigned(v, 4), 4);
    BE(WrapUnsigned(v, 4), 4)
  }

  /** `pack_float_be(0.0)`: IEEE 754 single precision +0.0 is four zero bytes. */
  function PackFloatZeroBE(): (r: seq<byte>)
    ensures |r| == 4 && forall k :: 0 <= k < 4 ==> r[k] == 0
  {
    [0, 0, 0, 0]
  }
}
