/**
 * The frame the PC simulator sends to the MCU in software-in-the-loop mode
 * (`protocol_mcu.py`). The data payload holds nine big-endian sections in
 * the order the MCU parses them; the envelope is
 *   AA 01 <length, 2 bytes> <data> <CRC-16 of the data, 2 bytes> 55.
 * Integers are Python ints (unbounded); `struct.pack` raises struct.error
 * for a signed value outside its width and masks unsigned ones.
 */
module McuProtocol {
  import opened Wrappers
  import opened Bytes
  import opened BigEndianPack
  import Crc16
  import Text

  const FrameHeader: byte := 0xAA
  const FrameFooter: byte := 0x55
  const FrameVersion: byte := 0x01
  /** Header, version, two length bytes, two CRC bytes and footer. */
  const FrameOverhead: nat := 7
  const GpiosPerModule: nat := 8
  const GpasPerModule: nat := 4
  const Adc1Channels: nat := 15
  /** 25.0 °C in deci-degrees: the current-sensor temperature when none is given. */
  const DefaultSensorTempDdegc: int := 250

  /** The encoder's configuration: strings, modules per string, cells and temperature sensors per module. */
  datatype Dims = Dims(strings: nat, modules: nat, cells: nat, sensors: nat)

  /** `BS_NR_OF_STRINGS`, `BS_NR_OF_MODULES_PER_STRING`, cell blocks and temperature sensors per module. */
  const DefaultDims: Dims := Dims(1, 1, 16, 16)

  /**
   * The arguments of `encode_frame`. Arrays are given flat, in row-major
   * order, as numpy's `reshape` reads them; the balancing feedback is the
   * two-dimensional [strings][modules] array as a sequence of rows.
   */
  datatype FrameInputs = FrameInputs(
    vcellMv: seq<int>,
    tcellCc: seq<int>,
    packCurrentMa: int,
    packVoltageMv: int,
    statusFlags: nat,
    timestampMs: int,
    balancingFeedback: Option<seq<seq<int>>>,
    openWireMask: Option<seq<int>>,
    gpioVoltages: Option<seq<int>>,
    gpaVoltages: Option<seq<int>>,
    sensorTempDdegc: Option<int>,
    hvBusVoltageMv: Option<int>)

  /** numpy's `reshape` of an array of `size` elements to a shape (d0, d1, d2) that holds a different number. */
  function ReshapeError(size: nat, d0: nat, d1: nat, d2: nat): Error
  {
    ValueError("cannot reshape array of size " + Text.Decimal(size) + " into shape ("
               + Text.Decimal(d0) + "," + Text.Decimal(d1) + "," + Text.Decimal(d2) + ")")
  }

  // ---------------------------------------------------------------------
  // Runs of packed fields

  /** `pack_int16_be` (w = 2) or `pack_int32_be` (w = 4). */
  function PackSignedBE(v: int, w: nat): (r: Result<seq<byte>>)
    requires w == 2 || w == 4
    ensures r.Success? <==> InSigned(v, w)
    ensures r.Failure? ==> r.error == RangeError(w)
    ensures r.Success? ==> |r.value| == w && Signed(FromBE(r.value), w) == v
  {
    if w == 2 then PackInt16BE(v) else PackInt32BE(v)
  }

  function RangeError(w: nat): Error
  {
    if w == 2 then Int16RangeError else Int32RangeError
  }

  /** `pack_uint16_be` (w = 2) or `pack_uint32_be` (w = 4). */
  function PackUnsignedBE(v: int, w: nat): (r: seq<byte>)
    requires w == 2 || w == 4
    ensures |r| == w && FromBE(r) == v % Pow256(w)
  {
    if w == 2 then PackUInt16BE(v) else PackUInt32BE(v)
  }

  /** The signed w-byte codes of `vals`, one after the other; struct.error at the first value out of range. */
  function SignedFields(vals: seq<int>, w: nat): (r: Result<seq<byte>>)
    requires w == 2 || w == 4
    ensures r.Success? <==> forall k :: 0 <= k < |vals| ==> InSigned(vals[k], w)
    ensures r.Failure? ==> r.error == RangeError(w)
    ensures r.Success? ==> |r.value| == w * |vals|
    decreases |vals|
  {
    if |vals| == 0 then Success([])
    else
      var init :- SignedFields(vals[..|vals| - 1], w);
      var last :- PackSignedBE(vals[|vals| - 1], w);
      Success(init + last)
  }

  /** The masked unsigned w-byte codes of `vals`, one after the other. */
  function UnsignedFields(vals: seq<int>, w: nat): (r: seq<byte>)
    requires w == 2 || w == 4
    ensures |r| == w * |vals|
    decreases |vals|
  {
    if |vals| == 0 then [] else UnsignedFields(vals[..|vals| - 1], w) + PackUnsignedBE(vals[|vals| - 1], w)
  }

  lemma {:induction false} Slice(a: seq<byte>, b: seq<byte>, w: nat, k: nat)
    requires w * k + w <= |a|
    ensures (a + b)[w * k..w * k + w] == a[w * k..w * k + w]
  {
  }

  lemma {:induction false} SliceRight<T>(a: seq<T>, b: seq<T>, i: nat, w: nat)
    requires i + w <= |b|
    ensures (a + b)[|a| + i..|a| + i + w] == b[i..i + w]
  {
  }

  /** The offset of the k-th of a run of w-wide blocks. */
  function Offset(k: nat, w: nat): nat
  {
    k * w
  }

  lemma {:induction false} Pow256Values()
    ensures Pow256(2) == 0x1_0000 && Pow256(4) == 0x1_0000_0000
  {
  }

  /** Field k of a run of signed fields reads back as the k-th value. */
  lemma {:induction false} SignedFieldsRead(vals: seq<int>, w: nat, k: nat)
    requires w == 2 || w == 4
    requires SignedFields(vals, w).Success? && k < |vals|
    ensures w * k + w <= |SignedFields(vals, w).value|
    ensures Signed(FromBE(SignedFields(vals, w).value[w * k..w * k + w]), w) == vals[k]
  {
    var n := |vals|;
    var init := SignedFields(vals[..n - 1], w).value;
    var last := PackSignedBE(vals[n - 1], w).value;
    assert SignedFields(vals, w).value == init + last;
    if k < n - 1 {
      SignedFieldsRead(vals[..n - 1], w, k);
      assert w * k + w <= w * (n - 1) by { assert k + 1 <= n - 1; }
      Slice(init, last, w, k);
    } else {
      assert w * k == |init|;
      assert (init + last)[w * k..w * k + w] == last;
    }
  }

  /** Field k of a run of unsigned fields reads back as the k-th value modulo the width. */
  lemma {:induction false} UnsignedFieldsRead(vals: seq<int>, w: nat, k: nat)
    requires w == 2 || w == 4
    requires k < |vals|
    ensures w * k + w <= w * |vals|
    ensures FromBE(UnsignedFields(vals, w)[w * k..w * k + w]) == vals[k] % Pow256(w)
  {
    var n := |vals|;
    var init := UnsignedFields(vals[..n - 1], w);
    var last := PackUnsignedBE(vals[n - 1], w);
    assert UnsignedFields(vals, w) == init + last;
    if k < n - 1 {
      UnsignedFieldsRead(vals[..n - 1], w, k);
      assert w * k + w <= w * (n - 1) by { assert k + 1 <= n - 1; }
      Slice(init, last, w, k);
      assert vals[..n - 1][k] == vals[k];
    } else {
      assert w * k == |init|;
      assert (init + last)[w * k..w * k + w] == last;
      assert FromBE(last) == vals[k] % Pow256(w);
    }
  }

  /** k copies of xs, one after the other. */
  function Repeat<T>(xs: seq<T>, k: nat): (r: seq<T>)
    ensures |r| == k * |xs|
  {
    if k == 0 then [] else Repeat(xs, k - 1) + xs
  }

  lemma {:induction false} MulMono(a: nat, b: nat, c: nat)
    requires a <= b
    ensures a * c <= b * c
  {
    assert b * c == a * c + (b - a) * c;
  }

  lemma {:induction false} RepeatAt<T>(xs: seq<T>, k: nat, j: nat)
    requires j < k
    ensures j * |xs| + |xs| <= k * |xs|
    ensures Repeat(xs, k)[j * |xs|..j * |xs| + |xs|] == xs
  {
    var m := |xs|;
    var init := Repeat(xs, k - 1);
    assert Repeat(xs, k) == init + xs;
    assert |init| == (k - 1) * m;
    MulMono(j + 1, k, m);
    assert j * m + m == (j + 1) * m;
    if j < k - 1 {
      RepeatAt(xs, k - 1, j);
      MulMono(j + 1, k - 1, m);
      assert (init + xs)[j * m..j * m + m] == init[j * m..j * m + m];
    } else {
      assert j * m == |init|;
    }
  }

  function Sum(xs: seq<int>): int
  {
    if |xs| == 0 then 0 else xs[0] + Sum(xs[1..])
  }

  /** The sums of the first k consecutive blocks of w values of xs. */
  function BlockSums(xs: seq<int>, w: nat, k: nat): (r: seq<int>)
    requires k * w <= |xs|
    ensures |r| == k
  {
    if k == 0 then []
    else
      assert (k - 1) * w + w == k * w;
      BlockSums(xs, w, k - 1) + [Sum(xs[(k - 1) * w..k * w])]
  }

  lemma {:induction false} BlockSumsAt(xs: seq<int>, w: nat, k: nat, j: nat)
    requires k * w <= |xs| && j < k
    ensures (j + 1) * w <= |xs|
    ensures BlockSums(xs, w, k)[j] == Sum(xs[j * w..(j + 1) * w])
  {
    MulMono(j + 1, k, w);
    if j < k - 1 {
      MulMono(k - 1, k, w);
      BlockSumsAt(xs, w, k - 1, j);
    }
  }

  // ---------------------------------------------------------------------
  // The sections of the data payload

  /** Section 1 slot values: a cell whose status bit (0 .. cells-1) is set is sent as 0. */
  function CellSlots(d: Dims, vcell: seq<int>, status: nat): (r: seq<int>)
  {
    seq(|vcell|, i requires 0 <= i < |vcell| => if d.cells > 0 && Bit(status, i % d.cells) then 0 else vcell[i])
  }

  /** Section 2 slot values: a sensor whose status bit 16 + t is set is sent as 0. */
  function TemperatureSlots(d: Dims, tcell: seq<int>, status: nat): (r: seq<int>)
  {
    seq(|tcell|, i requires 0 <= i < |tcell| => if d.sensors > 0 && Bit(status, 16 + i % d.sensors) then 0 else tcell[i])
  }

  function CellCount(d: Dims): nat { d.strings * d.modules * d.cells }

  function SensorCount(d: Dims): nat { d.strings * d.modules * d.sensors }

  function ModuleSums(d: Dims, vcell: seq<int>): (r: seq<int>)
    requires |vcell| == CellCount(d)
    ensures |r| == d.strings * d.modules
  {
    BlockSums(vcell, d.cells, d.strings * d.modules)
  }

  function StringSums(d: Dims, vcell: seq<int>): (r: seq<int>)
    requires |vcell| == CellCount(d)
    ensures |r| == d.strings
  {
    assert d.strings * (d.modules * d.cells) == CellCount(d);
    BlockSums(vcell, d.modules * d.cells, d.strings)
  }

  /** Section 1: masked cell voltages as int16, then one uint32 sum per module. */
  function CellVoltageSection(d: Dims, vcell: seq<int>, status: nat): (r: Result<seq<byte>>)
    ensures r.Success? ==> |vcell| == CellCount(d)
    ensures |vcell| != CellCount(d) ==> r == Failure(ReshapeError(|vcell|, d.strings, d.modules, d.cells))
    ensures r.Success? <==>
      |vcell| == CellCount(d) && forall i :: 0 <= i < |vcell| ==> InSigned(CellSlots(d, vcell, status)[i], 2)
    ensures r.Success? ==> |r.value| == 2 * CellCount(d) + 4 * (d.strings * d.modules)
  {
    if |vcell| != CellCount(d) then Failure(ReshapeError(|vcell|, d.strings, d.modules, d.cells))
    else
      var slots :- SignedFields(CellSlots(d, vcell, status), 2);
      Success(slots + UnsignedFields(ModuleSums(d, vcell), 4))
  }

  /** Section 2: masked temperatures as int16. */
  function TemperatureSection(d: Dims, tcell: seq<int>, status: nat): (r: Result<seq<byte>>)
    ensures |tcell| != SensorCount(d) ==> r == Failure(ReshapeError(|tcell|, d.strings, d.modules, d.sensors))
    ensures r.Success? <==>
      |tcell| == SensorCount(d) && forall i :: 0 <= i < |tcell| ==> InSigned(TemperatureSlots(d, tcell, status)[i], 2)
    ensures r.Success? ==> |r.value| == 2 * SensorCount(d)
  {
    if |tcell| != SensorCount(d) then Failure(ReshapeError(|tcell|, d.strings, d.modules, d.sensors))
    else SignedFields(TemperatureSlots(d, tcell, status), 2)
  }

  /** Section 3 values: `balancing_feedback[s, m]` row by row, or zeros when it is absent. */
  function BalancingValues(d: Dims, feedback: Option<seq<seq<int>>>): (r: Result<seq<int>>)
    ensures r.Success? ==> |r.value| == d.strings * d.modules
  {
    match feedback
    case None => Success(seq(d.strings * d.modules, _ => 0))
    case Some(rows) =>
      if d.strings == 0 || d.modules == 0 then Success([])
      else if |rows| < d.strings || exists s :: 0 <= s < d.strings && |rows[s]| < d.modules then Failure(IndexError)
      else
        var chunks := seq(d.strings, s requires 0 <= s < d.strings => rows[s][..d.modules]);
        FlattenLength(chunks, d.modules);
        Success(Flatten(chunks))
  }

  /** Section 4 count: the sum of the given mask, else the number of set bits of `status & 0xFFFF`. */
  function OpenWireCount(mask: Option<seq<int>>, status: nat): int
  {
    match mask
    case Some(m) => Sum(m)
    case None => Popcount(status % 0x1_0000, 16)
  }

  /** Section 4 array: modules * (cells + 1) bytes, 1 for each set status bit below `cells`, else 0. */
  function OpenWireArray(d: Dims, status: nat): (r: seq<byte>)
    ensures |r| == d.modules * (d.cells + 1)
  {
    seq(d.modules * (d.cells + 1), i requires 0 <= i < d.modules * (d.cells + 1) =>
      if i < d.cells && Bit(status, i) then 1 else 0)
  }

  function OpenWireBlock(d: Dims, mask: Option<seq<int>>, status: nat): (r: seq<byte>)
    ensures |r| == 2 + d.modules * (d.cells + 1)
  {
    PackUInt16BE(OpenWireCount(mask, status)) + OpenWireArray(d, status)
  }

  /** Section 4: for each string, the uint16 count and the open-wire array. */
  function OpenWireSection(d: Dims, mask: Option<seq<int>>, status: nat): (r: seq<byte>)
  {
    Repeat(OpenWireBlock(d, mask, status), d.strings)
  }

  /** Sections 5 and 6 values for one string: the given voltages, padded with zeros to n. */
  function AuxValues(given: Option<seq<int>>, n: nat): (r: seq<int>)
    ensures |r| == n
  {
    match given
    case None => seq(n, _ => 0)
    case Some(g) => seq(n, idx requires 0 <= idx < n => if idx < |g| then g[idx] else 0)
  }

  /** Sections 5 (GPIO, eight per module) and 6 (GPA, four per module): the same block for every string. */
  function AuxSection(d: Dims, given: Option<seq<int>>, perModule: nat): (r: Result<seq<byte>>)
  {
    SignedFields(Repeat(AuxValues(given, d.modules * perModule), d.strings), 2)
  }

  /** Seconds since the previous frame, or 20 ms for the first. */
  function Dt(timestampMs: int, lastTimestampMs: int): real
  {
    if lastTimestampMs > 0 then (timestampMs - lastTimestampMs) as real / 1000.0 else 0.02
  }

  function PowerW(inp: FrameInputs): real
  {
    (inp.packVoltageMv * inp.packCurrentMa) as real / 1000000.0
  }

  function SensorTemp(inp: FrameInputs): int
  {
    match inp.sensorTempDdegc
    case Some(t) => t
    case None => DefaultSensorTempDdegc
  }

  /** One Coulomb-counting step: the counter plus current in amperes times dt. */
  function AdvanceCharge(counter: real, inp: FrameInputs, last: int): real
  {
    counter + (inp.packCurrentMa as real / 1000.0) * Dt(inp.timestampMs, last)
  }

  /** One energy-counting step: the counter plus power times dt, in watt-hours. */
  function AdvanceEnergy(counter: real, inp: FrameInputs, last: int): real
  {
    counter + PowerW(inp) * Dt(inp.timestampMs, last) / 3600.0
  }

  /** The Coulomb counters after one frame. */
  function NewCurrentCounters(counters: seq<real>, inp: FrameInputs, last: int): (r: seq<real>)
    ensures |r| == |counters|
  {
    seq(|counters|, s requires 0 <= s < |counters| => AdvanceCharge(counters[s], inp, last))
  }

  /** The energy counters after one frame. */
  function NewEnergyCounters(counters: seq<real>, inp: FrameInputs, last: int): (r: seq<real>)
    ensures |r| == |counters|
  {
    seq(|counters|, s requires 0 <= s < |counters| => AdvanceEnergy(counters[s], inp, last))
  }

  /**
   * The seven int32 values section 7 sends for one string: current, sensor
   * temperature, power, Coulomb counter, energy counter and the two
   * high-voltage taps (pack voltage floor-divided by 2 and by 4; Dafny's `/`
   * with a positive divisor is floor division).
   */
  function SensorRow(inp: FrameInputs, coulombs: real, energy: real): (r: seq<int>)
    ensures |r| == 7
  {
    [inp.packCurrentMa, SensorTemp(inp), Trunc(PowerW(inp)), Trunc(coulombs), Trunc(energy),
     inp.packVoltageMv / 2, inp.packVoltageMv / 4]
  }

  /** Section 7 for one string, packed field by field as the source does. */
  function SensorFields(inp: FrameInputs, coulombs: real, energy: real): (r: Result<seq<byte>>)
    ensures r.Failure? ==> r.error == Int32RangeError
    ensures r.Success? ==> |r.value| == 28
  {
    var current :- PackInt32BE(inp.packCurrentMa);
    var temp :- PackInt32BE(SensorTemp(inp));
    var power :- PackInt32BE(Trunc(PowerW(inp)));
    var charge :- PackInt32BE(Trunc(coulombs));
    var energyBytes :- PackInt32BE(Trunc(energy));
    var tap1 :- PackInt32BE(inp.packVoltageMv / 2);
    var tap2 :- PackInt32BE(inp.packVoltageMv / 4);
    Success(current + temp + power + charge + energyBytes + tap1 + tap2)
  }

  lemma {:induction false} SensorFieldsSucceed(inp: FrameInputs, coulombs: real, energy: real,
                            current: Result<seq<byte>>, temp: Result<seq<byte>>, power: Result<seq<byte>>,
                            charge: Result<seq<byte>>, energyBytes: Result<seq<byte>>,
                            tap1: Result<seq<byte>>, tap2: Result<seq<byte>>)
    requires current == PackInt32BE(inp.packCurrentMa) && current.Success?
    requires temp == PackInt32BE(SensorTemp(inp)) && temp.Success?
    requires power == PackInt32BE(Trunc(PowerW(inp))) && power.Success?
    requires charge == PackInt32BE(Trunc(coulombs)) && charge.Success?
    requires energyBytes == PackInt32BE(Trunc(energy)) && energyBytes.Success?
    requires tap1 == PackInt32BE(inp.packVoltageMv / 2) && tap1.Success?
    requires tap2 == PackInt32BE(inp.packVoltageMv / 4) && tap2.Success?
    ensures SensorFields(inp, coulombs, energy)
      == Success(current.value + temp.value + power.value + charge.value + energyBytes.value + tap1.value + tap2.value)
  {
  }

  lemma {:induction false} SensorFieldsFail(inp: FrameInputs, coulombs: real, energy: real)
    requires || PackInt32BE(inp.packCurrentMa).Failure?
             || PackInt32BE(SensorTemp(inp)).Failure?
             || PackInt32BE(Trunc(PowerW(inp))).Failure?
             || PackInt32BE(Trunc(coulombs)).Failure?
             || PackInt32BE(Trunc(energy)).Failure?
             || PackInt32BE(inp.packVoltageMv / 2).Failure?
             || PackInt32BE(inp.packVoltageMv / 4).Failure?
    ensures SensorFields(inp, coulombs, energy).Failure?
  {
  }

  /** The parts one after the other, or the first part that failed. */
  function Collect(parts: seq<Result<seq<byte>>>): (r: Result<seq<byte>>)
    ensures r.Failure? ==> exists k :: 0 <= k < |parts| && parts[k] == Failure(r.error)
    decreases |parts|
  {
    if |parts| == 0 then Success([])
    else
      var init :- Collect(parts[..|parts| - 1]);
      var last :- parts[|parts| - 1];
      Success(init + last)
  }

  lemma {:induction false} CollectSnoc(parts: seq<Result<seq<byte>>>, s: nat, out: seq<byte>, part: seq<byte>)
    requires s < |parts| && Collect(parts[..s]) == Success(out) && parts[s] == Success(part)
    ensures Collect(parts[..s + 1]) == Success(out + part)
  {
    assert parts[..s + 1][..s] == parts[..s];
  }

  /** A failed part makes the whole collection fail. */
  lemma {:induction false} CollectFails(parts: seq<Result<seq<byte>>>, s: nat)
    requires s < |parts| && parts[s].Failure?
    ensures Collect(parts).Failure?
  {
    var n := |parts|;
    if s < n - 1 {
      CollectFails(parts[..n - 1], s);
    }
  }

  /** Parts that all succeed with w bytes each collect into w bytes per part. */
  lemma {:induction false} CollectUniform(parts: seq<Result<seq<byte>>>, w: nat)
    requires forall k :: 0 <= k < |parts| ==> parts[k].Success? && |parts[k].value| == w
    ensures Collect(parts).Success? && |Collect(parts).value| == w * |parts|
  {
    var n := |parts|;
    if n > 0 {
      CollectUniform(parts[..n - 1], w);
      assert w * n == w * (n - 1) + w;
    }
  }

  /** Section 7: `SensorFields` for every string, with that string's updated counters. */
  function SensorSection(inp: FrameInputs, coulombs: seq<real>, energy: seq<real>): (r: Result<seq<byte>>)
    requires |coulombs| == |energy|
    ensures r.Failure? ==> r.error == Int32RangeError
  {
    Collect(SensorParts(inp, coulombs, energy))
  }

  /** Section 7 succeeds exactly when every string's fields do, and then holds 28 bytes per string. */
  lemma {:induction false} SensorSectionShape(inp: FrameInputs, coulombs: seq<real>, energy: seq<real>)
    requires |coulombs| == |energy|
    ensures SensorSection(inp, coulombs, energy).Success?
      <==> forall s :: 0 <= s < |coulombs| ==> SensorFields(inp, coulombs[s], energy[s]).Success?
    ensures SensorSection(inp, coulombs, energy).Success? ==> |SensorSection(inp, coulombs, energy).value| == 28 * |coulombs|
  {
    var parts := SensorParts(inp, coulombs, energy);
    if forall s :: 0 <= s < |coulombs| ==> SensorFields(inp, coulombs[s], energy[s]).Success? {
      CollectUniform(parts, 28);
    } else {
      var s :| 0 <= s < |coulombs| && SensorFields(inp, coulombs[s], energy[s]).Failure?;
      CollectFails(parts, s);
    }
  }

  function SensorParts(inp: FrameInputs, coulombs: seq<real>, energy: seq<real>): (r: seq<Result<seq<byte>>>)
    requires |coulombs| == |energy|
    ensures |r| == |coulombs|
  {
    seq(|coulombs|, s requires 0 <= s < |coulombs| => SensorFields(inp, coulombs[s], energy[s]))
  }

  /** The fields section 7 packs for a string before advancing its Coulomb counter: current, temperature, power. */
  predicate SensorHeadPacks(inp: FrameInputs)
  {
    && PackInt32BE(inp.packCurrentMa).Success?
    && PackInt32BE(SensorTemp(inp)).Success?
    && PackInt32BE(Trunc(PowerW(inp))).Success?
  }

  /** A string's Coulomb counter once section 7 has reached it: advanced once its first three fields are packed. */
  function ChargeAfterString(coulombs: real, inp: FrameInputs, last: int): real
  {
    if SensorHeadPacks(inp) then AdvanceCharge(coulombs, inp, last) else coulombs
  }

  /** Its energy counter: advanced only once the advanced Coulomb counter has been packed as well. */
  function EnergyAfterString(coulombs: real, energy: real, inp: FrameInputs, last: int): real
  {
    if SensorHeadPacks(inp) && PackInt32BE(Trunc(AdvanceCharge(coulombs, inp, last))).Success? then
      AdvanceEnergy(energy, inp, last)
    else
      energy
  }

  /** Section 7 reaches string s when the fields of every earlier string have been packed. */
  predicate StringReached(inp: FrameInputs, coulombs: seq<real>, energy: seq<real>, last: int, s: nat)
    requires |coulombs| == |energy| && s <= |coulombs|
  {
    Collect(SensorParts(inp, NewCurrentCounters(coulombs, inp, last), NewEnergyCounters(energy, inp, last))[..s]).Success?
  }

  /** The Coulomb counters after section 7, whether it completed or raised part-way. */
  function CurrentCountersAfter(coulombs: seq<real>, energy: seq<real>, inp: FrameInputs, last: int): (r: seq<real>)
    requires |coulombs| == |energy|
    ensures |r| == |coulombs|
  {
    seq(|coulombs|, s requires 0 <= s < |coulombs| =>
      if StringReached(inp, coulombs, energy, last, s) then ChargeAfterString(coulombs[s], inp, last) else coulombs[s])
  }

  /** The energy counters after section 7, whether it completed or raised part-way. */
  function EnergyCountersAfter(coulombs: seq<real>, energy: seq<real>, inp: FrameInputs, last: int): (r: seq<real>)
    requires |coulombs| == |energy|
    ensures |r| == |energy|
  {
    seq(|energy|, s requires 0 <= s < |energy| =>
      if StringReached(inp, coulombs, energy, last, s) then EnergyAfterString(coulombs[s], energy[s], inp, last)
      else energy[s])
  }

  /** A string whose fields pack had its three leading fields and its advanced Coulomb counter packed. */
  lemma {:induction false} SensorFieldsHead(inp: FrameInputs, coulombs: real, energy: real)
    requires SensorFields(inp, coulombs, energy).Success?
    ensures SensorHeadPacks(inp) && PackInt32BE(Trunc(coulombs)).Success?
  {
    if !(SensorHeadPacks(inp) && PackInt32BE(Trunc(coulombs)).Success?) {
      SensorFieldsFail(inp, coulombs, energy);
    }
  }

  /** Every prefix of a successful collection succeeds. */
  lemma {:induction false} CollectPrefix(parts: seq<Result<seq<byte>>>, j: nat)
    requires j <= |parts| && Collect(parts).Success?
    ensures Collect(parts[..j]).Success?
    decreases |parts|
  {
    var n := |parts|;
    if j < n {
      CollectPrefix(parts[..n - 1], j);
      assert parts[..n - 1][..j] == parts[..j];
    } else {
      assert parts[..j] == parts;
    }
  }

  /** When section 7 completes, every string's counters have advanced by one step. */
  lemma {:induction false} SensorCountersOnSuccess(inp: FrameInputs, coulombs: seq<real>, energy: seq<real>, last: int)
    requires |coulombs| == |energy|
    requires SensorSection(inp, NewCurrentCounters(coulombs, inp, last), NewEnergyCounters(energy, inp, last)).Success?
    ensures CurrentCountersAfter(coulombs, energy, inp, last) == NewCurrentCounters(coulombs, inp, last)
    ensures EnergyCountersAfter(coulombs, energy, inp, last) == NewEnergyCounters(energy, inp, last)
  {
    var cs, es := NewCurrentCounters(coulombs, inp, last), NewEnergyCounters(energy, inp, last);
    var parts := SensorParts(inp, cs, es);
    SensorSectionShape(inp, cs, es);
    forall s | 0 <= s < |coulombs|
      ensures CurrentCountersAfter(coulombs, energy, inp, last)[s] == cs[s]
      ensures EnergyCountersAfter(coulombs, energy, inp, last)[s] == es[s]
    {
      CollectPrefix(parts, s);
      SensorFieldsHead(inp, cs[s], es[s]);
    }
  }

  /** A string before one that section 7 reached was reached too, and its fields were packed. */
  lemma {:induction false} EarlierStringAdvanced(inp: FrameInputs, coulombs: seq<real>, energy: seq<real>, last: int,
                                                 s: nat, j: nat)
    requires |coulombs| == |energy| && j < s <= |coulombs|
    requires StringReached(inp, coulombs, energy, last, s)
    ensures CurrentCountersAfter(coulombs, energy, inp, last)[j] == AdvanceCharge(coulombs[j], inp, last)
    ensures EnergyCountersAfter(coulombs, energy, inp, last)[j] == AdvanceEnergy(energy[j], inp, last)
  {
    var cs, es := NewCurrentCounters(coulombs, inp, last), NewEnergyCounters(energy, inp, last);
    var parts := SensorParts(inp, cs, es);
    CollectPrefix(parts[..s], j);
    assert parts[..s][..j] == parts[..j];
    CollectPrefix(parts[..s], j + 1);
    assert parts[..s][..j + 1] == parts[..j + 1];
    assert parts[..j + 1][..j] == parts[..j];
    assert parts[j] == SensorFields(inp, cs[j], es[j]);
    SensorFieldsHead(inp, cs[j], es[j]);
  }

  /** A string after one whose fields did not pack is never reached. */
  lemma {:induction false} LaterStringUntouched(inp: FrameInputs, coulombs: seq<real>, energy: seq<real>, last: int,
                                                s: nat, j: nat)
    requires |coulombs| == |energy| && s < j < |coulombs|
    requires SensorFields(inp, AdvanceCharge(coulombs[s], inp, last), AdvanceEnergy(energy[s], inp, last)).Failure?
    ensures CurrentCountersAfter(coulombs, energy, inp, last)[j] == coulombs[j]
    ensures EnergyCountersAfter(coulombs, energy, inp, last)[j] == energy[j]
  {
    var cs, es := NewCurrentCounters(coulombs, inp, last), NewEnergyCounters(energy, inp, last);
    var parts := SensorParts(inp, cs, es);
    assert parts[..j][s] == parts[s];
    CollectFails(parts[..j], s);
  }

  /**
   * When string s is the first whose fields do not pack, section 7 raises
   * with the earlier strings' counters advanced, string s's counters
   * advanced as far as its fields were packed, and the later strings'
   * counters untouched.
   */
  lemma {:induction false} SensorCountersOnFailure(inp: FrameInputs, coulombs: seq<real>, energy: seq<real>, last: int,
                                                   s: nat)
    requires |coulombs| == |energy| && s < |coulombs|
    requires StringReached(inp, coulombs, energy, last, s)
    requires SensorFields(inp, AdvanceCharge(coulombs[s], inp, last), AdvanceEnergy(energy[s], inp, last)).Failure?
    ensures forall j :: 0 <= j < s ==>
      && CurrentCountersAfter(coulombs, energy, inp, last)[j] == AdvanceCharge(coulombs[j], inp, last)
      && EnergyCountersAfter(coulombs, energy, inp, last)[j] == AdvanceEnergy(energy[j], inp, last)
    ensures CurrentCountersAfter(coulombs, energy, inp, last)[s] == ChargeAfterString(coulombs[s], inp, last)
    ensures EnergyCountersAfter(coulombs, energy, inp, last)[s] == EnergyAfterString(coulombs[s], energy[s], inp, last)
    ensures forall j :: s < j < |coulombs| ==>
      && CurrentCountersAfter(coulombs, energy, inp, last)[j] == coulombs[j]
      && EnergyCountersAfter(coulombs, energy, inp, last)[j] == energy[j]
  {
    forall j | 0 <= j < s
      ensures && CurrentCountersAfter(coulombs, energy, inp, last)[j] == AdvanceCharge(coulombs[j], inp, last)
              && EnergyCountersAfter(coulombs, energy, inp, last)[j] == AdvanceEnergy(energy[j], inp, last)
    {
      EarlierStringAdvanced(inp, coulombs, energy, last, s, j);
    }
    forall j | s < j < |coulombs|
      ensures && CurrentCountersAfter(coulombs, energy, inp, last)[j] == coulombs[j]
              && EnergyCountersAfter(coulombs, energy, inp, last)[j] == energy[j]
    {
      LaterStringUntouched(inp, coulombs, energy, last, s, j);
    }
  }

  function HvBus(inp: FrameInputs): int
  {
    match inp.hvBusVoltageMv
    case Some(v) => v
    case None => inp.packVoltageMv
  }

  /**
   * Section 8 values: pack current, battery voltage, HV bus voltage, then
   * per string its voltage (the sum of its cells), its current, and its
   * power `int(voltage * current / 1000)`.
   */
  function PackValues(d: Dims, inp: FrameInputs): (r: seq<int>)
    requires |inp.vcellMv| == CellCount(d)
    ensures |r| == 3 + 3 * d.strings
  {
    var sums := StringSums(d, inp.vcellMv);
    [inp.packCurrentMa, inp.packVoltageMv, HvBus(inp)]
      + sums
      + seq(d.strings, _ => inp.packCurrentMa)
      + seq(d.strings, s requires 0 <= s < d.strings => Trunc((sums[s] * inp.packCurrentMa) as real / 1000.0))
  }

  function FloatZeros(n: nat): (r: seq<byte>)
    ensures |r| == 4 * n
  {
    Repeat(PackFloatZeroBE(), n)
  }

  /**
   * Section 9, which is constant: contactor feedback (uint32), interlock
   * state, interlock voltages and currents (four floats), IMD resistance
   * (uint32) and flags, two IMD sample voltages, HTSEN temperature 25.0 °C
   * (int16 250) and humidity 50 %, fifteen ADC1 floats and five aerosol bytes.
   */
  function DigitalInputs(): (r: seq<byte>)
    ensures |r| == 102
  {
    assert PackInt16BE(250).Success?;
    PackUInt32BE(0) + [0] + FloatZeros(4) + PackUInt32BE(0) + [0] + FloatZeros(2)
      + PackInt16BE(250).value + [50] + FloatZeros(Adc1Channels) + [0, 0, 0, 0, 0]
  }

  /** Sections 1 to 6, which depend on the arguments only. */
  function MeasurementSections(d: Dims, inp: FrameInputs): (r: Result<seq<byte>>)
    ensures r.Success? ==> |inp.vcellMv| == CellCount(d)
  {
    var cells :- CellVoltageSection(d, inp.vcellMv, inp.statusFlags);
    var temps :- TemperatureSection(d, inp.tcellCc, inp.statusFlags);
    var balancing :- BalancingValues(d, inp.balancingFeedback);
    var gpio :- AuxSection(d, inp.gpioVoltages, GpiosPerModule);
    var gpa :- AuxSection(d, inp.gpaVoltages, GpasPerModule);
    Success(cells + temps + UnsignedFields(balancing, 2) + OpenWireSection(d, inp.openWireMask, inp.statusFlags)
      + gpio + gpa)
  }

  /** Sections 1 to 7, which come before the frame's timestamp is recorded. */
  function LeadingSections(d: Dims, inp: FrameInputs, coulombs: seq<real>, energy: seq<real>, last: int)
    : (r: Result<seq<byte>>)
    requires |coulombs| == |energy|
    ensures r.Success? ==> |inp.vcellMv| == CellCount(d)
  {
    var measurements :- MeasurementSections(d, inp);
    var sensor :- SensorSection(inp, NewCurrentCounters(coulombs, inp, last), NewEnergyCounters(energy, inp, last));
    Success(measurements + sensor)
  }

  /** Sections 8 and 9 after the leading sections. */
  function Completed(d: Dims, inp: FrameInputs, leading: seq<byte>): (r: Result<seq<byte>>)
    requires |inp.vcellMv| == CellCount(d)
  {
    var pack :- SignedFields(PackValues(d, inp), 4);
    Success(leading + pack + DigitalInputs())
  }

  /** The whole data payload of `encode_frame`, or the exception it raises. */
  function Data(d: Dims, inp: FrameInputs, coulombs: seq<real>, energy: seq<real>, last: int): (r: Result<seq<byte>>)
    requires |coulombs| == |energy|
  {
    var leading :- LeadingSections(d, inp, coulombs, energy, last);
    Completed(d, inp, leading)
  }

  /** The data payload's length for the given shape, section by section. */
  function DataLength(d: Dims): nat
  {
    var sm := d.strings * d.modules;
    (2 * CellCount(d) + 4 * sm) + 2 * SensorCount(d) + 2 * sm + d.strings * (2 + d.modules * (d.cells + 1))
      + 2 * (d.strings * (d.modules * GpiosPerModule)) + 2 * (d.strings * (d.modules * GpasPerModule))
      + 28 * d.strings + 4 * (3 + 3 * d.strings) + 102
  }

  /** Every payload that encodes has the length its shape fixes. */
  lemma {:induction false} DataHasLength(d: Dims, inp: FrameInputs, coulombs: seq<real>, energy: seq<real>, last: int)
    requires |coulombs| == |energy| == d.strings
    requires Data(d, inp, coulombs, energy, last).Success?
    ensures |Data(d, inp, coulombs, energy, last).value| == DataLength(d)
  {
    var cs, es := NewCurrentCounters(coulombs, inp, last), NewEnergyCounters(energy, inp, last);
    var cells := CellVoltageSection(d, inp.vcellMv, inp.statusFlags).value;
    var temps := TemperatureSection(d, inp.tcellCc, inp.statusFlags).value;
    var balancing := BalancingValues(d, inp.balancingFeedback).value;
    var gpio := AuxSection(d, inp.gpioVoltages, GpiosPerModule).value;
    var gpa := AuxSection(d, inp.gpaVoltages, GpasPerModule).value;
    var measurements := MeasurementSections(d, inp).value;
    assert measurements == cells + temps + UnsignedFields(balancing, 2)
      + OpenWireSection(d, inp.openWireMask, inp.statusFlags) + gpio + gpa;
    SensorSectionShape(inp, cs, es);
    var sensor := SensorSection(inp, cs, es).value;
    assert |sensor| == 28 * d.strings;
    var pack := SignedFields(PackValues(d, inp), 4).value;
    assert |pack| == 4 * (3 + 3 * d.strings);
    assert Data(d, inp, coulombs, energy, last).value == measurements + sensor + pack + DigitalInputs();
  }

  /** The default 1 x 1 x 16 pack sends 267 bytes of data in a 274-byte frame. */
  lemma {:induction false} DefaultFrameLength()
    ensures DataLength(DefaultDims) == 267
    ensures forall data: seq<byte> :: |data| == DataLength(DefaultDims) ==> |Envelope(data)| == 274
  {
  }


  /** The envelope around a data payload; the length field is masked to 16 bits like every uint16. */
  function Envelope(data: seq<byte>): (f: seq<byte>)
  {
    [FrameHeader, FrameVersion] + PackUInt16BE(|data|) + data + PackUInt16BE(Crc16.Checksum(data)) + [FrameFooter]
  }

  function FrameOf(data: Result<seq<byte>>): (r: Result<seq<byte>>)
  {
    match data
    case Success(payload) => Success(Envelope(payload))
    case Failure(e) => Failure(e)
  }

  // ---------------------------------------------------------------------
  // Loops of the encoder

  /** The packing loop of sections 1, 2 and 5 to 8 for signed fields. */
  method PackSigned(vals: seq<int>, w: nat) returns (r: Result<seq<byte>>)
    requires w == 2 || w == 4
    ensures r == SignedFields(vals, w)
  {
    var out: seq<byte> := [];
    var i := 0;
    while i < |vals|
      invariant 0 <= i <= |vals|
      invariant SignedFields(vals[..i], w) == Success(out)
    {
      var field := PackSignedBE(vals[i], w);
      if field.Failure? {
        return Failure(field.error);
      }
      assert vals[..i + 1][..i] == vals[..i];
      out := out + field.value;
      i := i + 1;
    }
    assert vals[..i] == vals;
    return Success(out);
  }

  /** The packing loop of sections 1 and 3 for unsigned fields. */
  method PackUnsigned(vals: seq<int>, w: nat) returns (out: seq<byte>)
    requires w == 2 || w == 4
    ensures out == UnsignedFields(vals, w)
  {
    out := [];
    for i := 0 to |vals|
      invariant UnsignedFields(vals[..i], w) == out
    {
      assert vals[..i + 1][..i] == vals[..i];
      out := out + PackUnsignedBE(vals[i], w);
    }
    assert vals[..|vals|] == vals;
  }

  /** The open-wire array of one string, one byte at a time. */
  method EncodeOpenWireArray(d: Dims, status: nat) returns (out: seq<byte>)
    ensures out == OpenWireArray(d, status)
  {
    ghost var arr := OpenWireArray(d, status);
    var size := d.modules * (d.cells + 1);
    out := [];
    for i := 0 to size
      invariant out == arr[..i]
    {
      var isOpen := i < d.cells && Bit(status, i);
      assert arr[i] == if isOpen then 1 else 0;
      assert arr[..i + 1] == arr[..i] + [arr[i]];
      out := out + [if isOpen then 1 else 0];
    }
    assert arr[..size] == arr;
  }

  /** Section 4: per string, the count and then the array. */
  method EncodeOpenWire(d: Dims, mask: Option<seq<int>>, status: nat) returns (out: seq<byte>)
    ensures out == OpenWireSection(d, mask, status)
  {
    ghost var block := OpenWireBlock(d, mask, status);
    out := [];
    for s := 0 to d.strings
      invariant out == Repeat(block, s)
    {
      var count := OpenWireCount(mask, status);
      var arr := EncodeOpenWireArray(d, status);
      assert PackUInt16BE(count) + arr == block;
      out := out + (PackUInt16BE(count) + arr);
    }
  }


  /** Sections 1 to 6 of `encode_frame`, in the source's order. */
  method EncodeMeasurements(d: Dims, inp: FrameInputs) returns (r: Result<seq<byte>>)
    ensures r == MeasurementSections(d, inp)
  {
    // Section 1
    if |inp.vcellMv| != d.strings * d.modules * d.cells {
      return Failure(ReshapeError(|inp.vcellMv|, d.strings, d.modules, d.cells));
    }
    var cells :- PackSigned(CellSlots(d, inp.vcellMv, inp.statusFlags), 2);
    var modules := PackUnsigned(ModuleSums(d, inp.vcellMv), 4);
    // Section 2
    if |inp.tcellCc| != d.strings * d.modules * d.sensors {
      return Failure(ReshapeError(|inp.tcellCc|, d.strings, d.modules, d.sensors));
    }
    var temps :- PackSigned(TemperatureSlots(d, inp.tcellCc, inp.statusFlags), 2);
    // Section 3
    var feedback :- BalancingValues(d, inp.balancingFeedback);
    var balancing := PackUnsigned(feedback, 2);
    // Section 4
    var openWire := EncodeOpenWire(d, inp.openWireMask, inp.statusFlags);
    // Sections 5 and 6
    var gpio :- PackSigned(Repeat(AuxValues(inp.gpioVoltages, d.modules * GpiosPerModule), d.strings), 2);
    var gpa :- PackSigned(Repeat(AuxValues(inp.gpaVoltages, d.modules * GpasPerModule), d.strings), 2);
    r := Success(cells + modules + temps + balancing + openWire + gpio + gpa);
  }

  /** Sections 8 and 9 of `encode_frame`, then the envelope. */
  method EncodeTrailing(d: Dims, inp: FrameInputs, leading: seq<byte>) returns (r: Result<seq<byte>>)
    requires |inp.vcellMv| == CellCount(d)
    ensures r == FrameOf(Completed(d, inp, leading))
  {
    // Section 8
    var pack :- PackSigned(PackValues(d, inp), 4);
    // Section 9
    var data := leading + pack + DigitalInputs();
    // The envelope
    var crc := Crc16.Crc16Ccitt(data, 0xFFFF);
    r := Success([FrameHeader, FrameVersion] + PackUInt16BE(|data|) + data + PackUInt16BE(crc as int) + [FrameFooter]);
  }

  // ---------------------------------------------------------------------
  // The encoder object

  /**
   * `SILFrameEncoder`: the configuration, one Coulomb counter and one
   * energy counter per string, and the timestamp of the previous frame.
   */
  class SilFrameEncoder {
    const numStrings: nat
    const numModules: nat
    const numCells: nat
    const numTempSensors: nat
    const currentCounterAs: array<real>
    const energyCounterWh: array<real>
    var lastTimestampMs: int

    function Shape(): Dims
    {
      Dims(numStrings, numModules, numCells, numTempSensors)
    }

    predicate Valid()
    {
      && currentCounterAs.Length == numStrings
      && energyCounterWh.Length == numStrings
      && currentCounterAs != energyCounterWh
    }

    constructor(numStrings: nat, numModules: nat, numCells: nat, numTempSensors: nat)
      ensures Valid()
      ensures Shape() == Dims(numStrings, numModules, numCells, numTempSensors)
      ensures currentCounterAs[..] == seq(numStrings, _ => 0.0)
      ensures energyCounterWh[..] == seq(numStrings, _ => 0.0)
      ensures lastTimestampMs == 0
      ensures fresh(currentCounterAs) && fresh(energyCounterWh)
    {
      this.numStrings := numStrings;
      this.numModules := numModules;
      this.numCells := numCells;
      this.numTempSensors := numTempSensors;
      currentCounterAs := new real[numStrings](_ => 0.0);
      energyCounterWh := new real[numStrings](_ => 0.0);
      lastTimestampMs := 0;
    }

    /**
     * Section 7 for string s: current, sensor temperature and power are
     * packed, then the Coulomb counter is advanced and packed, then the
     * energy counter is advanced and packed, then the two taps. A failure
     * leaves the counters advanced so far.
     */
    method EncodeString(inp: FrameInputs, s: nat) returns (r: Result<seq<byte>>)
      requires Valid() && s < numStrings
      modifies currentCounterAs, energyCounterWh
      ensures r == SensorFields(inp, AdvanceCharge(old(currentCounterAs[s]), inp, lastTimestampMs),
                                AdvanceEnergy(old(energyCounterWh[s]), inp, lastTimestampMs))
      ensures r.Success? ==> currentCounterAs[s] == AdvanceCharge(old(currentCounterAs[s]), inp, lastTimestampMs)
      ensures r.Success? ==> energyCounterWh[s] == AdvanceEnergy(old(energyCounterWh[s]), inp, lastTimestampMs)
      ensures currentCounterAs[s] == ChargeAfterString(old(currentCounterAs[s]), inp, lastTimestampMs)
      ensures energyCounterWh[s] == EnergyAfterString(old(currentCounterAs[s]), old(energyCounterWh[s]), inp, lastTimestampMs)
      ensures forall j :: 0 <= j < numStrings && j != s ==>
        currentCounterAs[j] == old(currentCounterAs[j]) && energyCounterWh[j] == old(energyCounterWh[j])
    {
      ghost var c := AdvanceCharge(currentCounterAs[s], inp, lastTimestampMs);
      ghost var e := AdvanceEnergy(energyCounterWh[s], inp, lastTimestampMs);
      var current := PackInt32BE(inp.packCurrentMa);
      var temp := PackInt32BE(SensorTemp(inp));
      var power := PackInt32BE(Trunc(PowerW(inp)));
      if current.Failure? || temp.Failure? || power.Failure? {
        SensorFieldsFail(inp, c, e);
        return Failure(Int32RangeError);
      }
      currentCounterAs[s] := AdvanceCharge(currentCounterAs[s], inp, lastTimestampMs);
      var charge := PackInt32BE(Trunc(currentCounterAs[s]));
      if charge.Failure? {
        SensorFieldsFail(inp, c, e);
        return Failure(Int32RangeError);
      }
      energyCounterWh[s] := AdvanceEnergy(energyCounterWh[s], inp, lastTimestampMs);
      var energy := PackInt32BE(Trunc(energyCounterWh[s]));
      var tap1 := PackInt32BE(inp.packVoltageMv / 2);
      var tap2 := PackInt32BE(inp.packVoltageMv / 4);
      if energy.Failure? || tap1.Failure? || tap2.Failure? {
        SensorFieldsFail(inp, c, e);
        return Failure(Int32RangeError);
      }
      SensorFieldsSucceed(inp, c, e, current, temp, power, charge, energy, tap1, tap2);
      return Success(current.value + temp.value + power.value + charge.value + energy.value + tap1.value + tap2.value);
    }

    /** Section 7 with its counter updates, string by string. */
    method EncodeCurrentSensor(inp: FrameInputs) returns (r: Result<seq<byte>>)
      requires Valid()
      modifies currentCounterAs, energyCounterWh
      ensures r == SensorSection(inp,
                    NewCurrentCounters(old(currentCounterAs[..]), inp, lastTimestampMs),
                    NewEnergyCounters(old(energyCounterWh[..]), inp, lastTimestampMs))
      ensures r.Success? ==> currentCounterAs[..] == NewCurrentCounters(old(currentCounterAs[..]), inp, lastTimestampMs)
      ensures r.Success? ==> energyCounterWh[..] == NewEnergyCounters(old(energyCounterWh[..]), inp, lastTimestampMs)
      ensures currentCounterAs[..] == CurrentCountersAfter(old(currentCounterAs[..]), old(energyCounterWh[..]), inp, lastTimestampMs)
      ensures energyCounterWh[..] == EnergyCountersAfter(old(currentCounterAs[..]), old(energyCounterWh[..]), inp, lastTimestampMs)
    {
      ghost var c0 := currentCounterAs[..];
      ghost var e0 := energyCounterWh[..];
      ghost var cs := NewCurrentCounters(c0, inp, lastTimestampMs);
      ghost var es := NewEnergyCounters(e0, inp, lastTimestampMs);
      ghost var parts := SensorParts(inp, cs, es);
      var out: seq<byte> := [];
      for s := 0 to numStrings
        invariant forall j :: 0 <= j < s ==> currentCounterAs[j] == cs[j] && energyCounterWh[j] == es[j]
        invariant forall j :: s <= j < numStrings ==> currentCounterAs[j] == c0[j] && energyCounterWh[j] == e0[j]
        invariant Collect(parts[..s]) == Success(out)
      {
        var row := EncodeString(inp, s);
        assert parts[s] == row;
        if row.Failure? {
          CollectFails(parts, s);
          SensorCountersOnFailure(inp, c0, e0, lastTimestampMs, s);
          assert currentCounterAs[..] == CurrentCountersAfter(c0, e0, inp, lastTimestampMs);
          assert energyCounterWh[..] == EnergyCountersAfter(c0, e0, inp, lastTimestampMs);
          return Failure(Int32RangeError);
        }
        CollectSnoc(parts, s, out, row.value);
        out := out + row.value;
      }
      assert parts[..numStrings] == parts;
      assert currentCounterAs[..] == cs;
      assert energyCounterWh[..] == es;
      SensorCountersOnSuccess(inp, c0, e0, lastTimestampMs);
      return Success(out);
    }

    /**
     * Sections 1 to 7 of `encode_frame`, then the recording of the frame's
     * timestamp, which the source does only once section 7 has been packed.
     */
    method EncodeLeading(inp: FrameInputs) returns (r: Result<seq<byte>>)
      requires Valid()
      modifies this, currentCounterAs, energyCounterWh
      ensures r == LeadingSections(Shape(), inp, old(currentCounterAs[..]), old(energyCounterWh[..]), old(lastTimestampMs))
      ensures r.Success? ==>
        && currentCounterAs[..] == NewCurrentCounters(old(currentCounterAs[..]), inp, old(lastTimestampMs))
        && energyCounterWh[..] == NewEnergyCounters(old(energyCounterWh[..]), inp, old(lastTimestampMs))
        && lastTimestampMs == inp.timestampMs
      ensures r.Failure? ==> lastTimestampMs == old(lastTimestampMs)
      ensures MeasurementSections(Shape(), inp).Failure? ==>
        currentCounterAs[..] == old(currentCounterAs[..]) && energyCounterWh[..] == old(energyCounterWh[..])
      ensures MeasurementSections(Shape(), inp).Success? ==>
        && currentCounterAs[..] == CurrentCountersAfter(old(currentCounterAs[..]), old(energyCounterWh[..]), inp, old(lastTimestampMs))
        && energyCounterWh[..] == EnergyCountersAfter(old(currentCounterAs[..]), old(energyCounterWh[..]), inp, old(lastTimestampMs))
    {
      // Sections 1 to 6
      var measurements :- EncodeMeasurements(Shape(), inp);
      // Section 7
      var sensor :- EncodeCurrentSensor(inp);
      lastTimestampMs := inp.timestampMs;
      r := Success(measurements + sensor);
    }

    /**
     * `encode_frame`: the data payload section by section, then the
     * envelope. The counters and the timestamp change as the source
     * changes them once sections 1 to 7 have been packed.
     */
    method EncodeFrame(inp: FrameInputs) returns (r: Result<seq<byte>>)
      requires Valid()
      modifies this, currentCounterAs, energyCounterWh
      ensures r == FrameOf(Data(Shape(), inp, old(currentCounterAs[..]), old(energyCounterWh[..]), old(lastTimestampMs)))
      ensures LeadingSections(Shape(), inp, old(currentCounterAs[..]), old(energyCounterWh[..]), old(lastTimestampMs)).Success? ==>
        && currentCounterAs[..] == NewCurrentCounters(old(currentCounterAs[..]), inp, old(lastTimestampMs))
        && energyCounterWh[..] == NewEnergyCounters(old(energyCounterWh[..]), inp, old(lastTimestampMs))
        && lastTimestampMs == inp.timestampMs
      ensures LeadingSections(Shape(), inp, old(currentCounterAs[..]), old(energyCounterWh[..]), old(lastTimestampMs)).Failure? ==>
        lastTimestampMs == old(lastTimestampMs)
      ensures MeasurementSections(Shape(), inp).Failure? ==>
        currentCounterAs[..] == old(currentCounterAs[..]) && energyCounterWh[..] == old(energyCounterWh[..])
      ensures MeasurementSections(Shape(), inp).Success? ==>
        && currentCounterAs[..] == CurrentCountersAfter(old(currentCounterAs[..]), old(energyCounterWh[..]), inp, old(lastTimestampMs))
        && energyCounterWh[..] == EnergyCountersAfter(old(currentCounterAs[..]), old(energyCounterWh[..]), inp, old(lastTimestampMs))
    {
      var leading :- EncodeLeading(inp);
      r := EncodeTrailing(Shape(), inp, leading);
    }

    /** `reset_counters`: both counter arrays to zero and the timestamp to 0. */
    method ResetCounters()
      requires Valid()
      modifies this, currentCounterAs, energyCounterWh
      ensures currentCounterAs[..] == seq(numStrings, _ => 0.0)
      ensures energyCounterWh[..] == seq(numStrings, _ => 0.0)
      ensures lastTimestampMs == 0
    {
      for i := 0 to numStrings
        invariant forall j :: 0 <= j < i ==> currentCounterAs[j] == 0.0
      {
        currentCounterAs[i] := 0.0;
      }
      for i := 0 to numStrings
        invariant forall j :: 0 <= j < numStrings ==> currentCounterAs[j] == 0.0
        invariant forall j :: 0 <= j < i ==> energyCounterWh[j] == 0.0
      {
        energyCounterWh[i] := 0.0;
      }
      lastTimestampMs := 0;
    }
  }


  // ---------------------------------------------------------------------
  // Properties of the frame

  /**
   * The envelope: AA 01, the data length (mod 2^16) big-endian, the data,
   * the CRC-16 of the data only, big-endian, and 55 — seven bytes more than
   * the data.
   */
  lemma {:induction false} EnvelopeLayout(data: seq<byte>)
    ensures var f := Envelope(data); var n := |data|;
      && |f| == FrameOverhead + n
      && f[0] == FrameHeader && f[1] == FrameVersion
      && FromBE(f[2..4]) == n % 0x1_0000
      && f[4..4 + n] == data
      && FromBE(f[4 + n..6 + n]) == Crc16.Checksum(data)
      && f[6 + n] == FrameFooter
  {
    var n := |data|;
    var len := PackUInt16BE(n);
    var crc := PackUInt16BE(Crc16.Checksum(data));
    var f := Envelope(data);
    assert f == [FrameHeader, FrameVersion] + len + data + crc + [FrameFooter];
    assert f[2..4] == len;
    assert f[4 + n..6 + n] == crc;
  }

  /** Section 1, slot i: 0 when status bit (i mod cells) is set, else the cell's voltage, as int16 big-endian. */
  lemma {:induction false} CellVoltageSlot(d: Dims, vcell: seq<int>, status: nat, i: nat)
    requires CellVoltageSection(d, vcell, status).Success? && i < |vcell|
    ensures var sec := CellVoltageSection(d, vcell, status).value;
      && 2 * i + 2 <= |sec|
      && Signed(FromBE(sec[2 * i..2 * i + 2]), 2) == (if Bit(status, i % d.cells) then 0 else vcell[i])
  {
    var slots := SignedFields(CellSlots(d, vcell, status), 2).value;
    var sec := CellVoltageSection(d, vcell, status).value;
    SignedFieldsRead(CellSlots(d, vcell, status), 2, i);
    Slice(slots, UnsignedFields(ModuleSums(d, vcell), 4), 2, i);
    assert sec == slots + UnsignedFields(ModuleSums(d, vcell), 4);
  }

  lemma {:induction false} ModuleSumAt(d: Dims, vcell: seq<int>, j: nat)
    requires |vcell| == CellCount(d) && j < d.strings * d.modules
    ensures Offset(j, d.cells) + d.cells <= |vcell|
    ensures ModuleSums(d, vcell)[j] == Sum(vcell[Offset(j, d.cells)..Offset(j, d.cells) + d.cells])
  {
    BlockSumsAt(vcell, d.cells, d.strings * d.modules, j);
    assert (j + 1) * d.cells == j * d.cells + d.cells;
  }

  lemma {:induction false} UnsignedTailField(sec: seq<byte>, head: seq<byte>, sums: seq<int>, j: nat, o: nat)
    requires j < |sums| && sec == head + UnsignedFields(sums, 4) && o == |head| + 4 * j
    ensures o + 4 <= |sec|
    ensures FromBE(sec[o..o + 4]) == sums[j] % 0x1_0000_0000
  {
    var tail := UnsignedFields(sums, 4);
    UnsignedFieldsRead(sums, 4, j);
    SliceRight(head, tail, 4 * j, 4);
    Pow256Values();
  }

  /** Section 1, module j: the uint32 sum of that module's cells (mod 2^32), after the cell slots. */
  lemma {:induction false} ModuleVoltageField(d: Dims, vcell: seq<int>, status: nat, j: nat)
    requires CellVoltageSection(d, vcell, status).Success? && j < d.strings * d.modules
    ensures var sec := CellVoltageSection(d, vcell, status).value; var o := 2 * |vcell| + 4 * j;
      var first := Offset(j, d.cells);
      && first + d.cells <= |vcell|
      && o + 4 <= |sec|
      && FromBE(sec[o..o + 4]) == Sum(vcell[first..first + d.cells]) % 0x1_0000_0000
  {
    var slots := SignedFields(CellSlots(d, vcell, status), 2).value;
    var sums := ModuleSums(d, vcell);
    var sec := CellVoltageSection(d, vcell, status).value;
    assert sec == slots + UnsignedFields(sums, 4);
    assert |slots| == 2 * |vcell|;
    UnsignedTailField(sec, slots, sums, j, 2 * |vcell| + 4 * j);
    ModuleSumAt(d, vcell, j);
  }

  /** Section 2, slot i: 0 when status bit 16 + (i mod sensors) is set, else the temperature. */
  lemma {:induction false} TemperatureSlot(d: Dims, tcell: seq<int>, status: nat, i: nat)
    requires TemperatureSection(d, tcell, status).Success? && i < |tcell|
    ensures var sec := TemperatureSection(d, tcell, status).value;
      && 2 * i + 2 <= |sec|
      && Signed(FromBE(sec[2 * i..2 * i + 2]), 2) == (if Bit(status, 16 + i % d.sensors) then 0 else tcell[i])
  {
    SignedFieldsRead(TemperatureSlots(d, tcell, status), 2, i);
  }

  /** Copy s in a run of copies fits in the run and starts with the original's first two elements. */
  lemma {:induction false} RepeatPrefix<T>(xs: seq<T>, k: nat, s: nat)
    requires s < k && 2 <= |xs|
    ensures Offset(s, |xs|) + |xs| <= |Repeat(xs, k)|
    ensures Repeat(xs, k)[Offset(s, |xs|)..Offset(s, |xs|) + 2] == xs[..2]
  {
    RepeatAt(xs, k, s);
    var o := Offset(s, |xs|);
    assert o == s * |xs|;
    assert Repeat(xs, k)[o..o + 2] == Repeat(xs, k)[o..o + |xs|][..2];
  }

  /** Block s of section 4 starts at s times the block width and holds the count. */
  lemma {:induction false} OpenWireCountField(d: Dims, mask: Option<seq<int>>, status: nat, s: nat)
    requires s < d.strings
    ensures var sec := OpenWireSection(d, mask, status); var o := Offset(s, 2 + d.modules * (d.cells + 1));
      && o + 2 + d.modules * (d.cells + 1) <= |sec|
      && FromBE(sec[o..o + 2]) == OpenWireCount(mask, status) % 0x1_0000
  {
    var block := OpenWireBlock(d, mask, status);
    RepeatPrefix(block, d.strings, s);
    assert block[..2] == PackUInt16BE(OpenWireCount(mask, status));
  }


  /** Element j of copy s in a run of copies is element j of the original. */
  lemma {:induction false} RepeatElement<T>(xs: seq<T>, k: nat, s: nat, j: nat)
    requires s < k && j < |xs|
    ensures Offset(s, |xs|) + j < |Repeat(xs, k)|
    ensures Repeat(xs, k)[Offset(s, |xs|) + j] == xs[j]
  {
    RepeatAt(xs, k, s);
    var o := Offset(s, |xs|);
    assert o == s * |xs|;
    assert Repeat(xs, k)[o + j] == Repeat(xs, k)[o..o + |xs|][j];
  }

  lemma {:induction false} FlattenElement<T>(chunks: seq<seq<T>>, w: nat, s: nat, m: nat)
    requires forall t :: 0 <= t < |chunks| ==> |chunks[t]| == w
    requires s < |chunks| && m < w
    ensures Offset(s, w) + m < |Flatten(chunks)|
    ensures Flatten(chunks)[Offset(s, w) + m] == chunks[s][m]
  {
    FlattenUniform(chunks, w, s);
    var o := Offset(s, w);
    assert o == s * w && (s + 1) * w == o + w;
    assert Flatten(chunks)[o + m] == Flatten(chunks)[o..o + w][m];
  }

  /** Byte 2 + i of block s of section 4 is the open-wire flag of cell i. */
  lemma {:induction false} OpenWireArrayByte(d: Dims, mask: Option<seq<int>>, status: nat, s: nat, i: nat)
    requires s < d.strings && i < d.modules * (d.cells + 1)
    ensures var sec := OpenWireSection(d, mask, status); var o := Offset(s, 2 + d.modules * (d.cells + 1));
      && o + 2 + i < |sec|
      && sec[o + 2 + i] == (if i < d.cells && Bit(status, i) then 1 else 0)
  {
    var block := OpenWireBlock(d, mask, status);
    RepeatElement(block, d.strings, s, 2 + i);
    assert block[2 + i] == OpenWireArray(d, status)[i];
  }


  /**
   * Section 4, string s: the count, big-endian (the mask's sum when one is
   * given, else the number of set bits of status & 0xFFFF), then byte i of
   * the array, which is 1 exactly when i < cells and status bit i is set.
   */
  lemma {:induction false} OpenWireFields(d: Dims, mask: Option<seq<int>>, status: nat, s: nat, i: nat)
    requires s < d.strings && i < d.modules * (d.cells + 1)
    ensures var sec := OpenWireSection(d, mask, status); var o := Offset(s, 2 + d.modules * (d.cells + 1));
      && o + 2 + d.modules * (d.cells + 1) <= |sec|
      && FromBE(sec[o..o + 2]) == OpenWireCount(mask, status) % 0x1_0000
      && (mask.None? ==> OpenWireCount(mask, status) == Popcount(status % 0x1_0000, 16))
      && sec[o + 2 + i] == (if i < d.cells && Bit(status, i) then 1 else 0)
  {
    OpenWireCountField(d, mask, status, s);
    OpenWireArrayByte(d, mask, status, s, i);
  }


  /**
   * Section 3, string s and module m: the feedback entry [s][m] as uint16,
   * or 0 when no feedback is given; a table with too few rows or columns
   * raises IndexError.
   */
  lemma {:induction false} BalancingSlot(d: Dims, feedback: Option<seq<seq<int>>>, s: nat, m: nat)
    requires s < d.strings && m < d.modules
    ensures var r := BalancingValues(d, feedback);
      && (var short := feedback.Some? && (|feedback.value| < d.strings
            || exists t :: 0 <= t < d.strings && |feedback.value[t]| < d.modules);
          short ==> r == Failure(IndexError))
      && (r.Success? ==>
            && Offset(s, d.modules) + m < |r.value|
            && FromBE(UnsignedFields(r.value, 2)[2 * (Offset(s, d.modules) + m)..2 * (Offset(s, d.modules) + m) + 2])
               == (if feedback.Some? then feedback.value[s][m] % 0x1_0000 else 0))
  {
    var r := BalancingValues(d, feedback);
    if r.Success? {
      var k := Offset(s, d.modules) + m;
      BalancingElement(d, feedback, s, m);
      UnsignedFieldsRead(r.value, 2, k);
      Pow256Values();
    }
  }

  /** Element s * modules + m of the balancing values is feedback[s][m], or 0 with no feedback. */
  lemma {:induction false} BalancingElement(d: Dims, feedback: Option<seq<seq<int>>>, s: nat, m: nat)
    requires s < d.strings && m < d.modules
    requires BalancingValues(d, feedback).Success?
    ensures var r := BalancingValues(d, feedback).value; var k := Offset(s, d.modules) + m;
      && k < |r|
      && r[k] == if feedback.Some? then feedback.value[s][m] else 0
  {
    var r := BalancingValues(d, feedback).value;
    MulMono(s + 1, d.strings, d.modules);
    assert Offset(s, d.modules) + m < d.strings * d.modules;
    if feedback.Some? {
      var rows := feedback.value;
      var chunks := seq(d.strings, t requires 0 <= t < d.strings => rows[t][..d.modules]);
      FlattenElement(chunks, d.modules, s, m);
      assert r == Flatten(chunks);
    }
  }

  /**
   * Sections 5 and 6, string s and slot j: the j-th given voltage as int16,
   * the same for every string, or 0 past the given ones or when none are given.
   */
  lemma {:induction false} AuxSlot(d: Dims, given: Option<seq<int>>, perModule: nat, s: nat, j: nat)
    requires AuxSection(d, given, perModule).Success?
    requires s < d.strings && j < d.modules * perModule
    ensures var sec := AuxSection(d, given, perModule).value; var k := Offset(s, d.modules * perModule) + j;
      && 2 * k + 2 <= |sec|
      && Signed(FromBE(sec[2 * k..2 * k + 2]), 2) == (if given.Some? && j < |given.value| then given.value[j] else 0)
  {
    var aux := AuxValues(given, d.modules * perModule);
    RepeatedSignedRead(aux, d.strings, s, j);
  }

  /** Field `j` of copy `s` in a run of repeated signed int16 fields reads back as the `j`-th value. */
  lemma {:induction false} RepeatedSignedRead(aux: seq<int>, count: nat, s: nat, j: nat)
    requires SignedFields(Repeat(aux, count), 2).Success?
    requires s < count && j < |aux|
    ensures var sec := SignedFields(Repeat(aux, count), 2).value; var k := Offset(s, |aux|) + j;
      && 2 * k + 2 <= |sec|
      && Signed(FromBE(sec[2 * k..2 * k + 2]), 2) == aux[j]
  {
    RepeatElement(aux, count, s, j);
    SignedFieldsRead(Repeat(aux, count), 2, Offset(s, |aux|) + j);
  }

  /** A successful run of signed fields is the run of all but the last value, then the last field. */
  lemma {:induction false} SignedFieldsSnoc(vals: seq<int>, w: nat)
    requires w == 2 || w == 4
    requires SignedFields(vals, w).Success? && |vals| > 0
    ensures SignedFields(vals[..|vals| - 1], w).Success? && PackSignedBE(vals[|vals| - 1], w).Success?
    ensures SignedFields(vals, w).value
      == SignedFields(vals[..|vals| - 1], w).value + PackSignedBE(vals[|vals| - 1], w).value
  {
  }

  /** Seven values in range pack, as signed fields, into their seven int32 codes one after the other. */
  lemma {:induction false} SignedFieldsSeven(row: seq<int>)
    requires |row| == 7 && forall k :: 0 <= k < 7 ==> InSigned(row[k], 4)
    ensures SignedFields(row, 4) == Success(PackInt32BE(row[0]).value + PackInt32BE(row[1]).value
      + PackInt32BE(row[2]).value + PackInt32BE(row[3]).value + PackInt32BE(row[4]).value
      + PackInt32BE(row[5]).value + PackInt32BE(row[6]).value)
  {
    var p := seq(7, k requires 0 <= k < 7 => PackInt32BE(row[k]).value);
    assert row[..1][..0] == [];
    SignedFieldsSnoc(row[..1], 4);
    assert SignedFields(row[..1], 4).value == p[0];
    assert row[..2][..1] == row[..1];
    SignedFieldsSnoc(row[..2], 4);
    assert SignedFields(row[..2], 4).value == p[0] + p[1];
    assert row[..3][..2] == row[..2];
    SignedFieldsSnoc(row[..3], 4);
    assert SignedFields(row[..3], 4).value == p[0] + p[1] + p[2];
    assert row[..4][..3] == row[..3];
    SignedFieldsSnoc(row[..4], 4);
    assert SignedFields(row[..4], 4).value == p[0] + p[1] + p[2] + p[3];
    assert row[..5][..4] == row[..4];
    SignedFieldsSnoc(row[..5], 4);
    assert SignedFields(row[..5], 4).value == p[0] + p[1] + p[2] + p[3] + p[4];
    assert row[..6][..5] == row[..5];
    SignedFieldsSnoc(row[..6], 4);
    assert SignedFields(row[..6], 4).value == p[0] + p[1] + p[2] + p[3] + p[4] + p[5];
    assert row[..7][..6] == row[..6] && row[..7] == row;
    SignedFieldsSnoc(row, 4);
  }

  /** Section 7 for one string is the seven values of `SensorRow`, each as int32 big-endian. */
  lemma {:induction false} SensorFieldsAreRow(inp: FrameInputs, coulombs: real, energy: real)
    ensures SensorFields(inp, coulombs, energy) == SignedFields(SensorRow(inp, coulombs, energy), 4)
  {
    var row := SensorRow(inp, coulombs, energy);
    if forall k :: 0 <= k < 7 ==> InSigned(row[k], 4) {
      SignedFieldsSeven(row);
      SensorFieldsSucceed(inp, coulombs, energy,
        PackInt32BE(row[0]), PackInt32BE(row[1]), PackInt32BE(row[2]), PackInt32BE(row[3]),
        PackInt32BE(row[4]), PackInt32BE(row[5]), PackInt32BE(row[6]));
    } else {
      SensorFieldsFail(inp, coulombs, energy);
    }
  }

  lemma {:induction false} StringSumAt(d: Dims, vcell: seq<int>, s: nat)
    requires |vcell| == CellCount(d) && s < d.strings
    ensures Offset(s, d.modules * d.cells) + d.modules * d.cells <= |vcell|
    ensures var first := Offset(s, d.modules * d.cells);
      StringSums(d, vcell)[s] == Sum(vcell[first..first + d.modules * d.cells])
  {
    var w := d.modules * d.cells;
    assert d.strings * w == CellCount(d);
    BlockSumsAt(vcell, w, d.strings, s);
    assert (s + 1) * w == s * w + w;
  }

  /** Section 8, string s: its voltage is the sum of its cells, then its current, then its power. */
  lemma {:induction false} PackValuesPerString(d: Dims, inp: FrameInputs, s: nat)
    requires |inp.vcellMv| == CellCount(d) && s < d.strings
    ensures var v := PackValues(d, inp); var w := d.modules * d.cells; var first := Offset(s, w);
      && first + w <= |inp.vcellMv|
      && v[3 + s] == Sum(inp.vcellMv[first..first + w])
      && v[3 + d.strings + s] == inp.packCurrentMa
      && v[3 + 2 * d.strings + s] == Trunc((v[3 + s] * inp.packCurrentMa) as real / 1000.0)
  {
    var sums := StringSums(d, inp.vcellMv);
    var v := PackValues(d, inp);
    StringSumAt(d, inp.vcellMv, s);
    assert v[3 + s] == sums[s];
    assert v[3 + d.strings + s] == inp.packCurrentMa;
    assert v[3 + 2 * d.strings + s] == Trunc((sums[s] * inp.packCurrentMa) as real / 1000.0);
  }

  /** The first fields of section 8 are pack current, battery voltage and the HV bus voltage. */
  lemma {:induction false} PackValuesHead(d: Dims, inp: FrameInputs)
    requires |inp.vcellMv| == CellCount(d)
    ensures var v := PackValues(d, inp);
      && v[0] == inp.packCurrentMa && v[1] == inp.packVoltageMv
      && v[2] == (if inp.hvBusVoltageMv.Some? then inp.hvBusVoltageMv.value else inp.packVoltageMv)
  {
  }
}
