/**
  The frame decoder: a reply from the GYRO_XOUT block is the register byte
  followed by X, Y and Z, each a big-endian 16-bit two's-complement value.
*/
module FrameDecoder {
  import opened Wrappers
  import opened Bits
  import opened Protocol

  type Byte = b: int | 0 <= b < 0x100

  /** Register byte plus NUM_BYTES data bytes. */
  const FRAME_LENGTH := NUM_BYTES + 1

  predicate InInt16(v: int)
  {
    -0x8000 <= v < 0x8000
  }

  datatype FrameError = WrongLength(length: nat)

  /** `(hi << 8) | lo`: the unsigned register value of one axis. */
  function Combine(hi: Byte, lo: Byte): (v: nat)
    ensures v == hi * 0x100 + lo
    ensures v < 0x10000
  {
    Pow2Values();
    OrDisjoint(hi, lo, 8);
    Or(ShiftLeft(hi, 8), lo)
  }

  /** Reads a 16-bit register value as two's complement: `((v ^ 0xFFFF) + 1) * -1` when `v >> 15` is set. */
  function SignExtend(v: nat): (s: int)
    requires v < 0x10000
    ensures InInt16(s)
    ensures s == if v >= 0x8000 then v - 0x10000 else v
  {
    Pow2Values();
    ShiftRightZero(v, 15);
    if ShiftRight(v, 15) != 0 then
      XorAllOnes(v, 16);
      (Xor(v, 0xFFFF) + 1) * -1
    else
      v
  }

  /** The signed value of one axis from its high and low byte. */
  function Decode16(hi: Byte, lo: Byte): (s: int)
    ensures InInt16(s)
    ensures s == if hi >= 0x80 then hi * 0x100 + lo - 0x10000 else hi * 0x100 + lo
  {
    SignExtend(Combine(hi, lo))
  }

  /** The bytes the sensor sends for a signed value: high byte, then low byte. */
  function Encode16(s: int): (bytes: (Byte, Byte))
    requires InInt16(s)
  {
    var u := if s < 0 then s + 0x10000 else s;
    (u / 0x100, u % 0x100)
  }

  lemma DecodeEncode(s: int)
    requires InInt16(s)
    ensures Decode16(Encode16(s).0, Encode16(s).1) == s
  {
  }

  lemma EncodeDecode(hi: Byte, lo: Byte)
    ensures Encode16(Decode16(hi, lo)) == (hi, lo)
  {
  }

  lemma DecodeLandmarks()
    ensures Decode16(0x00, 0x00) == 0
    ensures Decode16(0x7F, 0xFF) == 32767
    ensures Decode16(0x80, 0x00) == -32768
    ensures Decode16(0xFF, 0xFF) == -1
  {
  }

  /** Decodes a reply frame; the register byte `data[0]` is not inspected here. */
  function DecodeFrame(data: seq<Byte>): (r: Result<Xyz<int>, FrameError>)
    ensures r.Success? <==> |data| == FRAME_LENGTH
    ensures r.Failure? ==> r.error == WrongLength(|data|)
    ensures r.Success? ==> InInt16(r.value.x) && InInt16(r.value.y) && InInt16(r.value.z)
  {
    if |data| != FRAME_LENGTH then Failure(WrongLength(|data|))
    else Success(Xyz(Decode16(data[1], data[2]), Decode16(data[3], data[4]), Decode16(data[5], data[6])))
  }

  /** The data bytes of a frame carrying the given readings. */
  function EncodeFrame(v: Xyz<int>): (bytes: seq<Byte>)
    requires InInt16(v.x) && InInt16(v.y) && InInt16(v.z)
    ensures |bytes| == NUM_BYTES
  {
    var (xh, xl) := Encode16(v.x);
    var (yh, yl) := Encode16(v.y);
    var (zh, zl) := Encode16(v.z);
    [xh, xl, yh, yl, zh, zl]
  }

  /** Whatever register byte leads it, a frame the sensor sends for `v` decodes to `v`. */
  lemma FrameDecodeEncode(register: Byte, v: Xyz<int>)
    requires InInt16(v.x) && InInt16(v.y) && InInt16(v.z)
    ensures DecodeFrame([register] + EncodeFrame(v)) == Success(v)
  {
    var data := [register] + EncodeFrame(v);
    DecodeEncode(v.x);
    DecodeEncode(v.y);
    DecodeEncode(v.z);
    assert data[1..3] == [Encode16(v.x).0, Encode16(v.x).1];
  }

  /** Every frame of the right length is the encoding of what it decodes to. */
  lemma FrameEncodeDecode(data: seq<Byte>)
    requires |data| == FRAME_LENGTH
    ensures DecodeFrame(data).Success?
    ensures [data[0]] + EncodeFrame(DecodeFrame(data).value) == data
  {
    EncodeDecode(data[1], data[2]);
    EncodeDecode(data[3], data[4]);
    EncodeDecode(data[5], data[6]);
  }
}
