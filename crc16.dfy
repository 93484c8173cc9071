/**
 * CRC-16 with polynomial 0x1021, processed most significant bit first, with
 * no reflection and no final XOR (the CRC-16/CCITT-FALSE parameter set when
 * the initial value is 0xFFFF). The AFE_MEAS protocol and the SIL frame
 * encoder use the same bitwise algorithm.
 */
module Crc16 {
  import opened Bytes

  const Polynomial: bv16 := 0x1021
  const InitialValue: bv16 := 0xFFFF

  /** One shift of the register: XOR the polynomial in when the top bit falls out. */
  function ShiftStep(crc: bv16): bv16
  {
    if crc & 0x8000 != 0 then (crc << 1) ^ Polynomial else crc << 1
  }

  function Shifts(crc: bv16, k: nat): bv16
    decreases k
  {
    if k == 0 then crc else Shifts(ShiftStep(crc), k - 1)
  }

  /** The register after one data byte has been folded in. */
  function UpdateByte(crc: bv16, b: byte): bv16
  {
    Shifts(crc ^ (((b as bv8) as bv16) << 8), 8)
  }

  /** The CRC of `data` starting from register value `crc`. */
  function Crc(data: seq<byte>, crc: bv16): bv16
  {
    if |data| == 0 then crc else Crc(data[1..], UpdateByte(crc, data[0]))
  }

  /** The frame checksum: the CRC of `data` from the initial value 0xFFFF, as a 16-bit number. */
  function Checksum(data: seq<byte>): (c: nat)
    ensures c < 0x1_0000
  {
    Crc(data, InitialValue) as int
  }

  lemma {:induction false} CrcAppend(a: seq<byte>, b: seq<byte>, crc: bv16)
    ensures Crc(a + b, crc) == Crc(b, Crc(a, crc))
  {
    if |a| > 0 {
      assert (a + b)[1..] == a[1..] + b;
      CrcAppend(a[1..], b, UpdateByte(crc, a[0]));
    } else {
      assert a + b == b;
    }
  }

  /**
   * The bitwise loop of `crc16_ccitt`: for every byte, XOR it into the high
   * half of the register, then shift eight times.
   */
  method Crc16Ccitt(data: seq<byte>, initial: bv16) returns (crc: bv16)
    ensures crc == Crc(data, initial)
  {
    crc := initial;
    var i := 0;
    while i < |data|
      invariant 0 <= i <= |data|
      invariant Crc(data[i..], crc) == Crc(data, initial)
    {
      assert data[i..][1..] == data[i + 1..];
      crc := crc ^ (((data[i] as bv8) as bv16) << 8);
      ghost var start := crc;
      var j := 0;
      while j < 8
        invariant 0 <= j <= 8
        invariant Shifts(crc, 8 - j) == Shifts(start, 8)
      {
        if crc & 0x8000 != 0 {
          crc := (crc << 1) ^ Polynomial;
        } else {
          crc := crc << 1;
        }
        j := j + 1;
      }
      i := i + 1;
    }
  }

  lemma {:induction false} CrcCons(b: byte, rest: seq<byte>, crc: bv16)
    ensures Crc([b] + rest, crc) == Crc(rest, UpdateByte(crc, b))
  {
    assert ([b] + rest)[1..] == rest;
  }

  lemma {:induction false} Step31()
    ensures UpdateByte(0xFFFF, 0x31) == 0xC782
  {
    UpdateByteValue(0xFFFF, 0x31, 0xC782);
  }

  lemma {:induction false} Step32()
    ensures UpdateByte(0xC782, 0x32) == 0x3DBA
  {
    UpdateByteValue(0xC782, 0x32, 0x3DBA);
  }

  lemma {:induction false} Step33()
    ensures UpdateByte(0x3DBA, 0x33) == 0x5BCE
  {
    UpdateByteValue(0x3DBA, 0x33, 0x5BCE);
  }

  lemma {:induction false} Step34()
    ensures UpdateByte(0x5BCE, 0x34) == 0x5349
  {
    UpdateByteValue(0x5BCE, 0x34, 0x5349);
  }

  lemma {:induction false} Step35()
    ensures UpdateByte(0x5349, 0x35) == 0x4560
  {
    UpdateByteValue(0x5349, 0x35, 0x4560);
  }

  lemma {:induction false} Step36()
    ensures UpdateByte(0x4560, 0x36) == 0x2EF4
  {
    UpdateByteValue(0x4560, 0x36, 0x2EF4);
  }

  lemma {:induction false} Step37()
    ensures UpdateByte(0x2EF4, 0x37) == 0x7718
  {
    UpdateByteValue(0x2EF4, 0x37, 0x7718);
  }

  lemma {:induction false} Step38()
    ensures UpdateByte(0x7718, 0x38) == 0xA12B
  {
    UpdateByteValue(0x7718, 0x38, 0xA12B);
  }

  lemma {:induction false} Step39()
    ensures UpdateByte(0xA12B, 0x39) == 0x29B1
  {
    UpdateByteValue(0xA12B, 0x39, 0x29B1);
  }

  lemma {:induction false} CheckPart1()
    ensures Crc([0x31, 0x32, 0x33], 0xFFFF) == 0x5BCE
  {
    Step31();
    CrcCons(0x31, [0x32, 0x33], 0xFFFF);
    Step32();
    CrcCons(0x32, [0x33], 0xC782);
    Step33();
    CrcCons(0x33, [], 0x3DBA);
  }

  lemma {:induction false} CheckPart2()
    ensures Crc([0x34, 0x35, 0x36], 0x5BCE) == 0x2EF4
  {
    Step34();
    CrcCons(0x34, [0x35, 0x36], 0x5BCE);
    Step35();
    CrcCons(0x35, [0x36], 0x5349);
    Step36();
    CrcCons(0x36, [], 0x4560);
  }

  lemma {:induction false} CheckPart3()
    ensures Crc([0x37, 0x38, 0x39], 0x2EF4) == 0x29B1
  {
    Step37();
    CrcCons(0x37, [0x38, 0x39], 0x2EF4);
    Step38();
    CrcCons(0x38, [0x39], 0x7718);
    Step39();
    CrcCons(0x39, [], 0xA12B);
  }

  /** The standard check value: "123456789" gives 0x29B1; no data leaves the initial value. */
  lemma {:induction false} CheckValue()
    ensures Crc([], InitialValue) == 0xFFFF
    ensures Crc([0x31, 0x32, 0x33, 0x34, 0x35, 0x36, 0x37, 0x38, 0x39], InitialValue) == 0x29B1
  {
    var p1: seq<byte> := [0x31, 0x32, 0x33];
    var p2: seq<byte> := [0x34, 0x35, 0x36];
    var p3: seq<byte> := [0x37, 0x38, 0x39];
    assert p1 + (p2 + p3) == [0x31, 0x32, 0x33, 0x34, 0x35, 0x36, 0x37, 0x38, 0x39];
    CheckPart1();
    CheckPart2();
    CheckPart3();
    CrcAppend(p1, p2 + p3, InitialValue);
    CrcAppend(p2, p3, 0x5BCE);
  }

  /** The register's high and low bytes, as `struct.pack('>H', crc)` emits them. */
  function CrcBytesBE(crc: bv16): (r: seq<byte>)
    ensures |r| == 2
  {
    [((crc >> 8) as bv8) as int, ((crc & 0xFF) as bv8) as int]
  }

  lemma {:induction false} ShiftsLowByte(c: bv16)
    ensures Shifts(c & 0xFF, 8) == (c & 0xFF) << 8
  {
    EightShifts(c & 0xFF);
  }

  /** Eight register shifts written out. */
  lemma {:induction false} EightShifts(c: bv16)
    ensures Shifts(c, 8) == ShiftStep(ShiftStep(ShiftStep(ShiftStep(
      ShiftStep(ShiftStep(ShiftStep(ShiftStep(c))))))))
  {
    var c1 := ShiftStep(c);
    var c2 := ShiftStep(c1);
    var c3 := ShiftStep(c2);
    var c4 := ShiftStep(c3);
    var c5 := ShiftStep(c4);
    var c6 := ShiftStep(c5);
    var c7 := ShiftStep(c6);
    assert Shifts(c7, 1) == ShiftStep(c7);
    assert Shifts(c6, 2) == Shifts(c7, 1);
    assert Shifts(c5, 3) == Shifts(c6, 2);
    assert Shifts(c4, 4) == Shifts(c5, 3);
    assert Shifts(c3, 5) == Shifts(c4, 4);
    assert Shifts(c2, 6) == Shifts(c3, 5);
    assert Shifts(c1, 7) == Shifts(c2, 6);
  }

  lemma {:induction false} UpdateByteValue(crc: bv16, b: byte, r: bv16)
    requires ShiftStep(ShiftStep(ShiftStep(ShiftStep(ShiftStep(ShiftStep(ShiftStep(ShiftStep(
      crc ^ (((b as bv8) as bv16) << 8))))))))) == r
    ensures UpdateByte(crc, b) == r
  {
    EightShifts(crc ^ (((b as bv8) as bv16) << 8));
  }

  lemma {:induction false} CrcBytesValues(c: bv16)
    ensures CrcBytesBE(c)[0] == ((c >> 8) as bv8) as int
    ensures CrcBytesBE(c)[1] == ((c & 0xFF) as bv8) as int
  {
  }

  lemma {:induction false} HighByteShifted(c: bv16)
    ensures var hi: byte := ((c >> 8) as bv8) as int; ((hi as bv8) as bv16) << 8 == (c >> 8) << 8
  {
  }

  lemma {:induction false} HighByteInput(c: bv16)
    ensures c ^ ((((CrcBytesBE(c)[0] as bv8) as bv16)) << 8) == c & 0xFF
  {
    CrcBytesValues(c);
    HighByteShifted(c);
    assert c ^ ((c >> 8) << 8) == c & 0xFF;
  }

  lemma {:induction false} HighByteStep(c: bv16)
    ensures UpdateByte(c, CrcBytesBE(c)[0]) == (c & 0xFF) << 8
  {
    HighByteInput(c);
    ShiftsLowByte(c);
  }

  lemma {:induction false} LowByteInput(c: bv16)
    ensures ((c & 0xFF) << 8) ^ (((CrcBytesBE(c)[1] as bv8) as bv16) << 8) == 0
  {
    CrcBytesValues(c);
    LowByteShifted(c);
  }

  lemma {:induction false} LowByteShifted(c: bv16)
    ensures var lo: byte := ((c & 0xFF) as bv8) as int; ((lo as bv8) as bv16) << 8 == (c & 0xFF) << 8
  {
  }

  lemma {:induction false} LowByteStep(c: bv16)
    ensures UpdateByte((c & 0xFF) << 8, CrcBytesBE(c)[1]) == 0
  {
    LowByteInput(c);
    EightShifts(0);
  }

  /**
   * Appending the CRC of `data`, high byte first, brings the register to
   * zero: the property a receiver uses to check a big-endian CRC trailer.
   */
  lemma {:induction false} ResidueZero(data: seq<byte>, initial: bv16)
    ensures Crc(data + CrcBytesBE(Crc(data, initial)), initial) == 0
  {
    var c := Crc(data, initial);
    var t := CrcBytesBE(c);
    CrcAppend(data, t, initial);
    HighByteStep(c);
    LowByteStep(c);
    assert t == [t[0]] + [t[1]];
    CrcCons(t[0], [t[1]], c);
    CrcCons(t[1], [], (c & 0xFF) << 8);
  }
}
