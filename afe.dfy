/**
 * The AFE emulator (`AFEWrapper`): it turns true cell voltages,
 * temperatures and the pack current into quantised, fault-injected readings
 * with a 32-bit status word, and keeps a time-driven fault schedule.
 *
 * The Gaussian noise, the per-channel calibration errors and the CRC trial
 * are numpy draws in the original; here they are parameters. So is the wall
 * clock (`nowMs`).
 */
module AfeEmulator {
  import opened Wrappers
  import opened Bytes
  import opened Bits
  import opened Text

  const NumChannels: nat := 16

  /** Masks are 16-bit: one bit per channel. */
  const MaskLimit: nat := 0x1_0000

  predicate IsMask(m: nat)
  {
    m < MaskLimit
  }

  lemma {:induction false} MaskLimitIsPow2()
    ensures MaskLimit == Pow2(16) && Pow2(32) == 0x1_0000_0000
  {
    assert Pow2(8) == 256;
    assert Pow2(16) == 256 * 256;
    assert Pow2(24) == 256 * 256 * 256;
  }

  // ---------------------------------------------------------------------
  // Fault types.

  datatype FaultType = OpenWire | StuckAdc | NtcOpen | NtcShort | CurrentSensorFault | CrcError

  /** The fault types that set bits of a cell mask. */
  predicate SetsMask(t: FaultType)
  {
    t.OpenWire? || t.StuckAdc? || t.NtcOpen? || t.NtcShort?
  }

  /** The string value of each `FaultType` member. */
  function FaultName(t: FaultType): string
  {
    match t
    case OpenWire => "open_wire"
    case StuckAdc => "stuck_adc"
    case NtcOpen => "ntc_open"
    case NtcShort => "ntc_short"
    case CurrentSensorFault => "current_sensor_fault"
    case CrcError => "crc_error"
  }

  /** `FaultType(fault_type.lower())`, or the `ValueError` raised for an unknown name. */
  function ParseFaultType(s: string): (r: Result<FaultType>)
    ensures r.Success? ==> FaultName(r.value) == Lower(s)
    ensures r.Failure? ==> r.error == ValueError("Unknown fault type: " + s)
  {
    var l := Lower(s);
    if l == "open_wire" then Success(OpenWire)
    else if l == "stuck_adc" then Success(StuckAdc)
    else if l == "ntc_open" then Success(NtcOpen)
    else if l == "ntc_short" then Success(NtcShort)
    else if l == "current_sensor_fault" then Success(CurrentSensorFault)
    else if l == "crc_error" then Success(CrcError)
    else Failure(ValueError("Unknown fault type: " + s))
  }

  /** Every fault type's own name, in any letter case, parses back to it. */
  lemma {:induction false} ParseFaultName(t: FaultType, s: string)
    requires Lower(s) == FaultName(t)
    ensures ParseFaultType(s) == Success(t)
  {
    match t
    case OpenWire =>
    case StuckAdc =>
      assert Lower(s) != "open_wire" by { assert Lower(s)[0] != "open_wire"[0]; }
    case NtcOpen =>
      assert Lower(s) != "open_wire" by { assert Lower(s)[0] != "open_wire"[0]; }
      assert Lower(s) != "stuck_adc" by { assert Lower(s)[0] != "stuck_adc"[0]; }
    case NtcShort =>
      assert Lower(s) != "open_wire" by { assert Lower(s)[0] != "open_wire"[0]; }
      assert Lower(s) != "stuck_adc" by { assert Lower(s)[0] != "stuck_adc"[0]; }
      assert Lower(s) != "ntc_open" by { assert Lower(s)[4] != "ntc_open"[4]; }
    case CurrentSensorFault =>
      assert Lower(s) != "open_wire" by { assert Lower(s)[0] != "open_wire"[0]; }
      assert Lower(s) != "stuck_adc" by { assert Lower(s)[0] != "stuck_adc"[0]; }
      assert Lower(s) != "ntc_open" by { assert Lower(s)[0] != "ntc_open"[0]; }
      assert Lower(s) != "ntc_short" by { assert Lower(s)[0] != "ntc_short"[0]; }
    case CrcError =>
      assert Lower(s) != "open_wire" by { assert Lower(s)[0] != "open_wire"[0]; }
      assert Lower(s) != "stuck_adc" by { assert Lower(s)[0] != "stuck_adc"[0]; }
      assert Lower(s) != "ntc_open" by { assert Lower(s)[0] != "ntc_open"[0]; }
      assert Lower(s) != "ntc_short" by { assert Lower(s)[0] != "ntc_short"[0]; }
      assert Lower(s) != "current_sensor_fault" by { assert |Lower(s)| != |"current_sensor_fault"|; }
  }

  /** A fault type as the methods accept it: the enum member itself or its name. */
  datatype FaultArg = Kind(kind: FaultType) | Named(name: string)

  function ResolveFault(arg: FaultArg): Result<FaultType>
  {
    match arg
    case Kind(t) => Success(t)
    case Named(s) => ParseFaultType(s)
  }

  // ---------------------------------------------------------------------
  // Fault state.

  /** The injected fault state: the three channel masks and the current-sensor flag. */
  datatype Faults = Faults(openWireMask: nat, stuckAdcMask: nat, ntcFaultMask: nat, currentSensorFault: bool)

  const NoFaults := Faults(0, 0, 0, false)

  /**
   * `inject_fault` on the fault state: a per-channel kind ORs the mask
   * into its own mask and needs one; the current-sensor kind sets the flag;
   * a CRC error changes nothing here.
   */
  function InjectFaults(f: Faults, t: FaultType, cellMask: Option<nat>): (r: Result<Faults>)
    ensures r.Failure? <==> SetsMask(t) && cellMask.None?
    ensures r.Failure? && t == OpenWire ==> r.error == ValueError("cell_mask required for open_wire fault")
    ensures r.Failure? && t == StuckAdc ==> r.error == ValueError("cell_mask required for stuck_adc fault")
    ensures r.Failure? && (t.NtcOpen? || t.NtcShort?) ==> r.error == ValueError("cell_mask required for NTC fault")
    ensures r.Success? && t == CrcError ==> r.value == f
    ensures r.Success? && t == CurrentSensorFault ==> r.value == f.(currentSensorFault := true)
    ensures r.Success? && t == OpenWire ==> r.value == f.(openWireMask := BitOr(f.openWireMask, cellMask.value))
    ensures r.Success? && t == StuckAdc ==> r.value == f.(stuckAdcMask := BitOr(f.stuckAdcMask, cellMask.value))
    ensures r.Success? && (t.NtcOpen? || t.NtcShort?) ==> r.value == f.(ntcFaultMask := BitOr(f.ntcFaultMask, cellMask.value))
  {
    match t
    case OpenWire =>
      if cellMask.None? then Failure(ValueError("cell_mask required for open_wire fault"))
      else Success(f.(openWireMask := BitOr(f.openWireMask, cellMask.value)))
    case StuckAdc =>
      if cellMask.None? then Failure(ValueError("cell_mask required for stuck_adc fault"))
      else Success(f.(stuckAdcMask := BitOr(f.stuckAdcMask, cellMask.value)))
    case NtcOpen =>
      if cellMask.None? then Failure(ValueError("cell_mask required for NTC fault"))
      else Success(f.(ntcFaultMask := BitOr(f.ntcFaultMask, cellMask.value)))
    case NtcShort =>
      if cellMask.None? then Failure(ValueError("cell_mask required for NTC fault"))
      else Success(f.(ntcFaultMask := BitOr(f.ntcFaultMask, cellMask.value)))
    case CurrentSensorFault => Success(f.(currentSensorFault := true))
    case CrcError => Success(f)
  }

  /** `clear_fault` on the fault state: AND-NOT of the mask, or the whole mask zeroed when none is given. */
  function ClearFaults(f: Faults, t: FaultType, cellMask: Option<nat>): Faults
  {
    match t
    case OpenWire => f.(openWireMask := if cellMask.None? then 0 else BitAndNot(f.openWireMask, cellMask.value))
    case StuckAdc => f.(stuckAdcMask := if cellMask.None? then 0 else BitAndNot(f.stuckAdcMask, cellMask.value))
    case NtcOpen => f.(ntcFaultMask := if cellMask.None? then 0 else BitAndNot(f.ntcFaultMask, cellMask.value))
    case NtcShort => f.(ntcFaultMask := if cellMask.None? then 0 else BitAndNot(f.ntcFaultMask, cellMask.value))
    case CurrentSensorFault => f.(currentSensorFault := false)
    case CrcError => f
  }

  /** The mask a fault kind lives in, if it has one. */
  function MaskOf(f: Faults, t: FaultType): nat
  {
    match t
    case OpenWire => f.openWireMask
    case StuckAdc => f.stuckAdcMask
    case NtcOpen => f.ntcFaultMask
    case NtcShort => f.ntcFaultMask
    case CurrentSensorFault => 0
    case CrcError => 0
  }

  /**
   * Injecting a per-channel fault on a mask and clearing it again leaves
   * exactly those channels clear and the other masks as they were; when
   * none of those channels were faulted before, the fault state is restored.
   */
  lemma {:induction false} InjectThenClear(f: Faults, t: FaultType, m: nat)
    requires SetsMask(t)
    ensures InjectFaults(f, t, Some(m)).Success?
    ensures var g := ClearFaults(InjectFaults(f, t, Some(m)).value, t, Some(m));
      && (forall i: nat :: Bit(MaskOf(g, t), i) <==> Bit(MaskOf(f, t), i) && !Bit(m, i))
      && g.currentSensorFault == f.currentSensorFault
      && (t == OpenWire ==> g.stuckAdcMask == f.stuckAdcMask && g.ntcFaultMask == f.ntcFaultMask)
      && (t == StuckAdc ==> g.openWireMask == f.openWireMask && g.ntcFaultMask == f.ntcFaultMask)
      && ((t.NtcOpen? || t.NtcShort?) ==> g.openWireMask == f.openWireMask && g.stuckAdcMask == f.stuckAdcMask)
      && ((forall i: nat :: !(Bit(MaskOf(f, t), i) && Bit(m, i))) ==> g == f)
  {
    var g := ClearFaults(InjectFaults(f, t, Some(m)).value, t, Some(m));
    assert MaskOf(g, t) == BitAndNot(BitOr(MaskOf(f, t), m), m);
    SetThenClearMask(MaskOf(f, t), m);
  }

  /** `(before | m) & ~m` clears exactly m's channels, and gives back `before` when they were clear. */
  lemma {:induction false} SetThenClearMask(before: nat, m: nat)
    ensures forall i: nat :: Bit(BitAndNot(BitOr(before, m), m), i) <==> Bit(before, i) && !Bit(m, i)
    ensures (forall i: nat :: !(Bit(before, i) && Bit(m, i))) ==> BitAndNot(BitOr(before, m), m) == before
  {
    var r := BitAndNot(BitOr(before, m), m);
    forall i: nat
      ensures Bit(r, i) <==> Bit(before, i) && !Bit(m, i)
    {
      AndNotBit(BitOr(before, m), m, i);
      OrBit(before, m, i);
    }
    if forall i: nat :: !(Bit(before, i) && Bit(m, i)) {
      BitsEqual(r, before);
    }
  }

  /** Clearing with no mask zeroes the kind's mask and leaves the others alone. */
  lemma {:induction false} ClearAllOfKind(f: Faults, t: FaultType)
    requires SetsMask(t)
    ensures var g := ClearFaults(f, t, None);
      && MaskOf(g, t) == 0
      && g.currentSensorFault == f.currentSensorFault
      && (t == OpenWire ==> g == f.(openWireMask := 0))
      && (t == StuckAdc ==> g == f.(stuckAdcMask := 0))
      && ((t.NtcOpen? || t.NtcShort?) ==> g == f.(ntcFaultMask := 0))
  {
  }

  // ---------------------------------------------------------------------
  // Quantisation.

  /** numpy's and Python's `round` on an exact real: to the nearest integer, ties to even. */
  function RoundHalfEven(x: real): (r: int)
    ensures (r as real - x <= 0.5) && (x - r as real <= 0.5)
    ensures (x - x.Floor as real) != 0.5 ==> (r as real - x < 0.5 && x - r as real < 0.5)
    ensures (x - x.Floor as real) == 0.5 ==> r % 2 == 0
  {
    var f := x.Floor;
    var d := x - f as real;
    if d < 0.5 then f
    else if d > 0.5 then f + 1
    else if f % 2 == 0 then f else f + 1
  }

  lemma {:induction false} RoundInteger(k: int)
    ensures RoundHalfEven(k as real) == k
  {
    assert (k as real).Floor == k;
  }

  /** Rounding is monotone. */
  lemma {:induction false} RoundMonotone(x: real, y: real)
    requires x <= y
    ensures RoundHalfEven(x) <= RoundHalfEven(y)
  {
    if x.Floor < y.Floor {
      assert x.Floor + 1 <= y.Floor;
    }
  }

  /** A voltage quantised to 0.1 mV and clipped to [0, 6553.5]. */
  function QuantizeMv(x: real): (r: real)
    ensures 0.0 <= r <= 6553.5
  {
    var q := RoundHalfEven(x / 0.1) as real * 0.1;
    if q < 0.0 then 0.0 else if q > 6553.5 then 6553.5 else q
  }

  /** The number of 0.1 mV steps a reading is quantised to, after the clip. */
  function QuantizeSteps(x: real): int
  {
    var q := RoundHalfEven(x / 0.1);
    if q < 0 then 0 else if q > 65535 then 65535 else q
  }

  /** Quantised voltages lie on the 0.1 mV grid, so quantising twice changes nothing. */
  lemma {:induction false} QuantizeIdempotent(x: real)
    ensures QuantizeMv(QuantizeMv(x)) == QuantizeMv(x)
    ensures 0 <= QuantizeSteps(x) <= 65535 && QuantizeMv(x) == QuantizeSteps(x) as real * 0.1
  {
    var k := QuantizeSteps(x);
    assert QuantizeMv(x) == k as real * 0.1;
    assert (k as real * 0.1) / 0.1 == k as real;
    RoundInteger(k);
  }

  /** A reading within range is within 0.05 mV of its input. */
  lemma {:induction false} QuantizeError(x: real)
    requires 0.0 <= x <= 6553.5
    ensures -0.05 <= QuantizeMv(x) - x <= 0.05
  {
    var q := RoundHalfEven(x / 0.1);
    RoundMonotone(0.0, x / 0.1);
    RoundInteger(0);
    RoundMonotone(x / 0.1, 65535.0);
    RoundInteger(65535);
    assert 0 <= q <= 65535;
    assert QuantizeMv(x) == q as real * 0.1;
  }

  /** The temperature pipeline up to the int16 cast: 0.1 degree quantisation, then centi-degrees. */
  function CentiDegrees(t: real): int
  {
    RoundHalfEven(t / 0.1) * 10
  }

  /** The int16 cast as the evidently intended saturating conversion. */
  function SaturateInt16(x: int): (r: int)
    ensures -32768 <= r <= 32767
    ensures -32768 <= x <= 32767 ==> r == x
    ensures x < -32768 ==> r == -32768
    ensures x > 32767 ==> r == 32767
  {
    if x < -32768 then -32768 else if x > 32767 then 32767 else x
  }

  /** The int16 cast as numpy performs it on common platforms: modulo 2^16. */
  function WrapInt16(x: int): (r: int)
    ensures -32768 <= r <= 32767
    ensures (r - x) % 65536 == 0
  {
    (x + 32768) % 65536 - 32768
  }

  /** The temperature value substituted for an NTC fault: `INVALID_TEMP_C / 100.0` degrees. */
  const NtcInvalidC: real := -327.68

  /** One temperature channel in centi-degrees, with the saturating cast. */
  function TempChannel(t: real, ntcFault: bool): (r: int)
    ensures -32768 <= r <= 32767
  {
    SaturateInt16(CentiDegrees(if ntcFault then NtcInvalidC else t))
  }

  /** The same channel with the wrapping cast. */
  function TempChannelWrapped(t: real, ntcFault: bool): int
  {
    WrapInt16(CentiDegrees(if ntcFault then NtcInvalidC else t))
  }

  /** The sentinel quantises to -327.7 degrees, i.e. -32770 centi-degrees, outside int16. */
  lemma {:induction false} NtcSentinelOutOfRange()
    ensures CentiDegrees(NtcInvalidC) == -32770
  {
    assert NtcInvalidC / 0.1 == -3276.8;
    assert (-3276.8).Floor == -3277;
  }

  /** As written, the wrapped sentinel reads 327.66 degrees and escapes the NTC threshold. */
  lemma {:induction false} NtcSentinelWrapsAsWritten(t: real)
    ensures TempChannelWrapped(t, true) == 32766
    ensures !(TempChannelWrapped(t, true) <= NtcThreshold)
  {
    NtcSentinelOutOfRange();
  }

  /** Saturated, an NTC fault reads -32768 and always meets the NTC threshold. */
  lemma {:induction false} NtcSentinelFlagged(t: real)
    ensures TempChannel(t, true) == -32768
    ensures TempChannel(t, true) <= NtcThreshold
  {
    NtcSentinelOutOfRange();
  }

  /** A fault-free temperature channel within int16 reads its quantised value. */
  lemma {:induction false} TempChannelInRange(t: real)
    requires -327.6 <= t <= 327.6
    ensures TempChannel(t, false) == CentiDegrees(t)
    ensures -5.0 <= CentiDegrees(t) as real - t * 100.0 <= 5.0
  {
    RoundMonotone(-3276.0, t / 0.1);
    RoundInteger(-3276);
    RoundMonotone(t / 0.1, 3276.0);
    RoundInteger(3276);
  }

  /** The current reading: a sensor fault forces 0 mA; otherwise rounded to 1 mA. */
  function CurrentChannel(calibrated: real, sensorFault: bool): (r: real)
    ensures sensorFault ==> r == 0.0
    ensures !sensorFault ==> -0.5 <= r - calibrated <= 0.5
    ensures r == r.Floor as real
  {
    RoundHalfEven((if sensorFault then 0.0 else calibrated) / 1.0) as real * 1.0
  }

  // ---------------------------------------------------------------------
  // Voltage channels.

  /** A voltage channel's raw output and the value it stores for a later stuck-ADC fault. */
  datatype Channel = Channel(out: real, stored: real)

  /**
   * One channel of `_process_voltages` before quantisation: open wire reads
   * 0 and keeps the stored value; a stuck channel captures the reading when
   * nothing is stored (0.0), else repeats the stored value; a healthy
   * channel refreshes the stored value.
   */
  function VoltageChannel(openWire: bool, stuck: bool, stored: real, v: real): (r: Channel)
    ensures openWire ==> r == Channel(0.0, stored)
    ensures !openWire && stuck && stored != 0.0 ==> r == Channel(stored, stored)
    ensures !openWire && !(stuck && stored != 0.0) ==> r == Channel(v, v)
  {
    if openWire then Channel(0.0, stored)
    else if stuck then (if stored == 0.0 then Channel(v, v) else Channel(stored, stored))
    else Channel(v, v)
  }

  /** Once a stuck channel holds a value, later readings repeat it whatever the input. */
  lemma {:induction false} StuckChannelHolds(stored: real, v1: real, v2: real)
    ensures var c1 := VoltageChannel(false, true, stored, v1);
      c1.stored != 0.0 ==> VoltageChannel(false, true, c1.stored, v2) == c1
  {
  }

  /** Calibration and noise: `v * gain + offset + noise`. */
  function Calibrated(v: real, gain: real, offset: real, noise: real): real
  {
    v * gain + offset + noise
  }

  /** The measured voltages and the new stored values of `_process_voltages`. */
  function VoltageOut(trueV: seq<real>, gains: seq<real>, offsets: seq<real>, noise: seq<real>,
                      f: Faults, stored: seq<real>, i: nat): Channel
    requires |trueV| == NumChannels && |gains| == NumChannels && |offsets| == NumChannels
    requires |noise| == NumChannels && |stored| == NumChannels && i < NumChannels
  {
    VoltageChannel(Bit(f.openWireMask, i), Bit(f.stuckAdcMask, i), stored[i],
                   Calibrated(trueV[i], gains[i], offsets[i], noise[i]))
  }

  // ---------------------------------------------------------------------
  // The status word.

  /** The NTC threshold in centi-degrees. */
  const NtcThreshold: int := -32000

  /**
   * What `_update_status_flags` puts in bit b: the whole open-wire mask, as
   * the word starts from it; bit b < 16 for a 0.0 reading, bits 16..31 for
   * the NTC threshold of channel b - 16, and bit 30 also for a current
   * fault or a 0 mA reading. NTC channels 14 and 15 share bits 30 and 31
   * with the current fault and the CRC error, and a mask wider than 16 bits
   * shows in the bits above 15 as well.
   */
  predicate StatusBit(b: nat, openWireMask: nat, voltages: seq<real>, temps: seq<int>,
                      currentSensorFault: bool, current: real)
    requires |voltages| == NumChannels && |temps| == NumChannels
  {
    || Bit(openWireMask, b)
    || (b < 16 && voltages[b] == 0.0)
    || (16 <= b < 32 && temps[b - 16] <= NtcThreshold)
    || (b == 30 && (currentSensorFault || current == 0.0))
  }

  /** A status word that agrees with `StatusBit` in every bit. */
  ghost predicate StatusMatches(w: nat, openWireMask: nat, voltages: seq<real>, temps: seq<int>,
                          currentSensorFault: bool, current: real)
    requires |voltages| == NumChannels && |temps| == NumChannels
  {
    forall b: nat :: Bit(w, b) <==> StatusBit(b, openWireMask, voltages, temps, currentSensorFault, current)
  }

  /** The word `apply_measurement` returns: the status bits, with bit 31 also set by an injected CRC error. */
  ghost predicate ReportedStatus(w: nat, openWireMask: nat, voltages: seq<real>, temps: seq<int>,
                           currentSensorFault: bool, current: real, crcHit: bool)
    requires |voltages| == NumChannels && |temps| == NumChannels
  {
    forall b: nat ::
      Bit(w, b) <==> StatusBit(b, openWireMask, voltages, temps, currentSensorFault, current) || (b == 31 && crcHit)
  }

  /** The bits determine the word: at most one status word matches. */
  lemma {:induction false} StatusUnique(w1: nat, w2: nat, openWireMask: nat, voltages: seq<real>, temps: seq<int>,
                     currentSensorFault: bool, current: real)
    requires |voltages| == NumChannels && |temps| == NumChannels
    requires StatusMatches(w1, openWireMask, voltages, temps, currentSensorFault, current)
    requires StatusMatches(w2, openWireMask, voltages, temps, currentSensorFault, current)
    ensures w1 == w2
  {
    forall b: nat
      ensures Bit(w1, b) == Bit(w2, b)
    {
      assert Bit(w1, b) == StatusBit(b, openWireMask, voltages, temps, currentSensorFault, current);
    }
    BitsEqual(w1, w2);
  }

  /** With a 16-bit open-wire mask the status word fits in 32 bits, and so does the reported word. */
  lemma {:induction false} StatusWordFits(w: nat, openWireMask: nat, voltages: seq<real>, temps: seq<int>,
                                          currentSensorFault: bool, current: real, crcHit: bool)
    requires |voltages| == NumChannels && |temps| == NumChannels && IsMask(openWireMask)
    requires ReportedStatus(w, openWireMask, voltages, temps, currentSensorFault, current, crcHit)
    ensures w < 0x1_0000_0000
  {
    MaskLimitIsPow2();
    forall b: nat | 32 <= b
      ensures !Bit(w, b)
    {
      HighBitClear(openWireMask, 16, b);
      assert Bit(w, b) == StatusBit(b, openWireMask, voltages, temps, currentSensorFault, current);
    }
    BitsBelow(w, 32);
  }

  /**
   * An NTC fault on channel 14 reads as a current-sensor fault (bit 30), and
   * on channel 15 as a CRC error (bit 31); bits 30 and 31 of the open-wire
   * mask land there too.
   */
  lemma {:induction false} NtcAliasesHighBits(w: nat, openWireMask: nat, voltages: seq<real>, temps: seq<int>,
                           currentSensorFault: bool, current: real)
    requires |voltages| == NumChannels && |temps| == NumChannels
    requires StatusMatches(w, openWireMask, voltages, temps, currentSensorFault, current)
    ensures temps[14] <= NtcThreshold ==> Bit(w, 30)
    ensures Bit(w, 31) <==> temps[15] <= NtcThreshold || Bit(openWireMask, 31)
    ensures Bit(w, 30) <==> temps[14] <= NtcThreshold || currentSensorFault || current == 0.0 || Bit(openWireMask, 30)
  {
    assert Bit(w, 30) == StatusBit(30, openWireMask, voltages, temps, currentSensorFault, current);
    assert Bit(w, 31) == StatusBit(31, openWireMask, voltages, temps, currentSensorFault, current);
  }

  /**
   * Every bit of the open-wire mask shows in the status word, a bit above 15
   * included; a channel's bit is set exactly for an open wire or a 0 V reading.
   */
  lemma {:induction false} OpenWireFlagged(w: nat, openWireMask: nat, voltages: seq<real>, temps: seq<int>,
                        currentSensorFault: bool, current: real, i: nat)
    requires |voltages| == NumChannels && |temps| == NumChannels
    requires StatusMatches(w, openWireMask, voltages, temps, currentSensorFault, current)
    ensures Bit(openWireMask, i) ==> Bit(w, i)
    ensures i < 16 ==> (Bit(w, i) <==> Bit(openWireMask, i) || voltages[i] == 0.0)
  {
    assert Bit(w, i) == StatusBit(i, openWireMask, voltages, temps, currentSensorFault, current);
  }

  // ---------------------------------------------------------------------
  // Statistics.

  datatype Statistics = Statistics(
    measurementCount: nat, crcErrorCount: nat, crcErrorRate: real,
    openWireMask: nat, stuckAdcMask: nat, ntcFaultMask: nat, currentSensorFault: bool)

  /** c / n for a positive n: non-negative, at most 1 when c <= n, and n times it is c. */
  lemma {:induction false} RatioFacts(c: nat, n: nat)
    requires n > 0
    ensures 0.0 <= c as real / n as real
    ensures c <= n ==> c as real / n as real <= 1.0
    ensures (c as real / n as real) * n as real == c as real
  {
    var q := c as real / n as real;
    assert q * n as real == c as real;
  }

  /** `get_statistics`: the observed CRC error rate is count / max(n, 1). */
  function StatisticsOf(measurementCount: nat, crcErrorCount: nat, f: Faults): (r: Statistics)
    ensures crcErrorCount <= measurementCount ==> 0.0 <= r.crcErrorRate <= 1.0
    ensures measurementCount == 0 ==> r.crcErrorRate == crcErrorCount as real
    ensures measurementCount > 0 ==> r.crcErrorRate * measurementCount as real == crcErrorCount as real
  {
    var n := if measurementCount > 1 then measurementCount else 1;
    RatioFacts(crcErrorCount, n);
    Statistics(measurementCount, crcErrorCount, crcErrorCount as real / n as real,
               f.openWireMask, f.stuckAdcMask, f.ntcFaultMask, f.currentSensorFault)
  }

  // ---------------------------------------------------------------------
  // The fault schedule.

  /**
   * A schedule entry: one added by `schedule_fault` (the fault as given, to
   * be injected once its time has come) or the clear entry that
   * `inject_fault` adds for a fault with a duration.
   */
  datatype Entry =
    | Scheduled(arg: FaultArg, cellMask: Option<nat>, injectTimeMs: real, durationMs: Option<real>, injected: bool)
    | ClearAt(kind: FaultType, cellMask: Option<nat>, clearTimeMs: real)

  /** `_get_current_time_ms` on a clock reading: 0 before `start_simulation`. */
  function ClockMs(startTimeMs: Option<real>, nowMs: real): real
  {
    if startTimeMs.None? then 0.0 else nowMs - startTimeMs.value
  }

  predicate Pending(e: Entry)
  {
    e.Scheduled? && !e.injected
  }

  function PendingCount(s: seq<Entry>): nat
  {
    if |s| == 0 then 0 else (if Pending(s[0]) then 1 else 0) + PendingCount(s[1..])
  }

  lemma {:induction false} PendingStep(s: seq<Entry>, i: nat)
    requires i < |s|
    ensures PendingCount(s[i..]) == (if Pending(s[i]) then 1 else 0) + PendingCount(s[i + 1..])
  {
    assert s[i..][1..] == s[i + 1..];
  }

  lemma {:induction false} PendingAppend(s: seq<Entry>, e: Entry)
    requires !Pending(e)
    ensures PendingCount(s + [e]) == PendingCount(s)
  {
    if |s| == 0 {
      assert [e][1..] == [];
    } else {
      assert (s + [e])[1..] == s[1..] + [e];
      PendingAppend(s[1..], e);
    }
  }

  /** The tail after an injection at i: the old tail plus the clear entry, if one was added. */
  lemma {:induction false} TailAfterInject(s: seq<Entry>, extra: seq<Entry>, i: nat, e: Entry)
    requires i < |s| && |extra| <= 1 && (|extra| == 1 ==> !Pending(extra[0]))
    ensures PendingCount((s + extra)[i := e][i + 1..]) == PendingCount(s[i + 1..])
  {
    assert (s + extra)[i := e][i + 1..] == s[i + 1..] + extra;
    if |extra| == 1 {
      assert s[i + 1..] + extra == s[i + 1..] + [extra[0]];
      PendingAppend(s[i + 1..], extra[0]);
    } else {
      assert s[i + 1..] + extra == s[i + 1..];
    }
  }

  datatype Injected = Injected(faults: Faults, added: seq<Entry>)

  /**
   * `inject_fault` as the schedule pass calls it: the new fault state and
   * the clear entry appended for a fault with a duration, or the error it
   * raises (an unknown name, a missing mask).
   */
  function Inject(f: Faults, arg: FaultArg, cellMask: Option<nat>, durationMs: Option<real>, nowMs: real): (r: Result<Injected>)
    ensures r.Success? <==> ResolveFault(arg).Success? && InjectFaults(f, ResolveFault(arg).value, cellMask).Success?
    ensures ResolveFault(arg).Failure? ==> r == Failure(ResolveFault(arg).error)
    ensures r.Success? ==> r.value.faults == InjectFaults(f, ResolveFault(arg).value, cellMask).value
    ensures r.Success? ==> |r.value.added| <= 1 && (|r.value.added| == 1 ==> r.value.added[0].ClearAt?)
    ensures r.Success? ==> (r.value.added != [] <==> durationMs.Some?)
    ensures r.Success? && durationMs.Some? ==>
      var c := r.value.added[0];
      c.kind == ResolveFault(arg).value && c.cellMask == cellMask && c.clearTimeMs == nowMs + durationMs.value
  {
    var t :- ResolveFault(arg);
    var g :- InjectFaults(f, t, cellMask);
    Success(Injected(g, if durationMs.Some? then [ClearAt(t, cellMask, nowMs + durationMs.value)] else []))
  }

  /** The fault state, the (mutated) schedule list, the kept entries, and the error raised, if any. */
  datatype PassResult = PassResult(faults: Faults, schedule: seq<Entry>, remaining: seq<Entry>, error: Option<Error>)

  /**
   * `_update_fault_schedule` from entry i on. The loop runs over the list
   * that injections append to, so a clear entry added by an injection is
   * visited in the same pass. An injected entry with a duration has no
   * clear time and is kept with `injected` set; a permanent one is dropped.
   */
  function PassFrom(f: Faults, s: seq<Entry>, i: nat, remaining: seq<Entry>, now: real): PassResult
    requires i <= |s|
    decreases PendingCount(s[i..]), |s| - i
  {
    if i == |s| then PassResult(f, s, remaining, None)
    else
      var e := s[i];
      PendingStep(s, i);
      if Pending(e) && now >= e.injectTimeMs then
        match Inject(f, e.arg, e.cellMask, e.durationMs, now)
        case Failure(err) => PassResult(f, s, remaining, Some(err))
        case Success(inj) =>
          var s2 := (s + inj.added)[i := e.(injected := true)];
          TailAfterInject(s, inj.added, i, e.(injected := true));
          if e.durationMs.None? then PassFrom(inj.faults, s2, i + 1, remaining, now)
          else PassFrom(inj.faults, s2, i + 1, remaining + [s2[i]], now)
      else if e.ClearAt? && now >= e.clearTimeMs then
        PassFrom(ClearFaults(f, e.kind, e.cellMask), s, i + 1, remaining, now)
      else
        PassFrom(f, s, i + 1, remaining + [e], now)
  }

  /** An entry with nothing to do at time `now`. */
  predicate Quiet(e: Entry, now: real)
  {
    (e.Scheduled? ==> e.injected || now < e.injectTimeMs) && (e.ClearAt? ==> now < e.clearTimeMs)
  }

  /** A pass over entries none of which is due changes nothing and keeps them all, in order. */
  lemma {:induction false} PassQuiet(f: Faults, s: seq<Entry>, i: nat, remaining: seq<Entry>, now: real)
    requires i <= |s| && forall j :: i <= j < |s| ==> Quiet(s[j], now)
    ensures PassFrom(f, s, i, remaining, now) == PassResult(f, s, remaining + s[i..], None)
    decreases |s| - i
  {
    if i < |s| {
      PassQuiet(f, s, i + 1, remaining + [s[i]], now);
      assert remaining + [s[i]] + s[i + 1..] == remaining + s[i..];
    } else {
      assert remaining + s[i..] == remaining;
    }
  }

  /** After a successful pass every kept entry is quiet: nothing due is left behind. */
  lemma {:induction false} PassLeavesQuiet(f: Faults, s: seq<Entry>, i: nat, remaining: seq<Entry>, now: real)
    requires i <= |s| && forall e :: e in remaining ==> Quiet(e, now)
    ensures var r := PassFrom(f, s, i, remaining, now);
      r.error.None? ==> forall e :: e in r.remaining ==> Quiet(e, now)
    decreases PendingCount(s[i..]), |s| - i
  {
    if i < |s| {
      var e := s[i];
      PendingStep(s, i);
      if Pending(e) && now >= e.injectTimeMs {
        match Inject(f, e.arg, e.cellMask, e.durationMs, now)
        case Failure(err) =>
        case Success(inj) =>
          var s2 := (s + inj.added)[i := e.(injected := true)];
          TailAfterInject(s, inj.added, i, e.(injected := true));
          if e.durationMs.None? {
            PassLeavesQuiet(inj.faults, s2, i + 1, remaining, now);
          } else {
            PassLeavesQuiet(inj.faults, s2, i + 1, remaining + [s2[i]], now);
          }
      } else if e.ClearAt? && now >= e.clearTimeMs {
        PassLeavesQuiet(ClearFaults(f, e.kind, e.cellMask), s, i + 1, remaining, now);
      } else {
        PassLeavesQuiet(f, s, i + 1, remaining + [e], now);
      }
    }
  }

  /** An injected entry without a duration, which the pass drops. */
  predicate SpentPermanent(e: Entry)
  {
    e.Scheduled? && e.injected && e.durationMs.None?
  }

  /**
   * A successful pass keeps no injected permanent entry, provided it was
   * given none.
   */
  lemma {:induction false} PassDropsPermanent(f: Faults, s: seq<Entry>, i: nat, remaining: seq<Entry>, now: real)
    requires i <= |s|
    requires forall e :: e in remaining ==> !SpentPermanent(e)
    requires forall j :: i <= j < |s| ==> !SpentPermanent(s[j])
    ensures var r := PassFrom(f, s, i, remaining, now);
      r.error.None? ==> forall e :: e in r.remaining ==> !SpentPermanent(e)
    decreases PendingCount(s[i..]), |s| - i
  {
    if i < |s| {
      var e := s[i];
      PendingStep(s, i);
      if Pending(e) && now >= e.injectTimeMs {
        match Inject(f, e.arg, e.cellMask, e.durationMs, now)
        case Failure(err) =>
        case Success(inj) =>
          var s2 := (s + inj.added)[i := e.(injected := true)];
          TailAfterInject(s, inj.added, i, e.(injected := true));
          assert forall j :: i + 1 <= j < |s2| ==> !SpentPermanent(s2[j]) by {
            forall j | i + 1 <= j < |s2| ensures !SpentPermanent(s2[j]) {
              if j >= |s| {
                assert s2[j] == inj.added[j - |s|];
              }
            }
          }
          if e.durationMs.None? {
            PassDropsPermanent(inj.faults, s2, i + 1, remaining, now);
          } else {
            PassDropsPermanent(inj.faults, s2, i + 1, remaining + [s2[i]], now);
          }
      } else if e.ClearAt? && now >= e.clearTimeMs {
        PassDropsPermanent(ClearFaults(f, e.kind, e.cellMask), s, i + 1, remaining, now);
      } else {
        PassDropsPermanent(f, s, i + 1, remaining + [e], now);
      }
    }
  }

  /** A second pass at the same time, right after a successful one, changes nothing. */
  lemma {:induction false} PassSettles(f: Faults, s: seq<Entry>, now: real)
    ensures var r := PassFrom(f, s, 0, [], now);
      r.error.None? ==> PassFrom(r.faults, r.remaining, 0, [], now) == PassResult(r.faults, r.remaining, r.remaining, None)
  {
    var r := PassFrom(f, s, 0, [], now);
    PassLeavesQuiet(f, s, 0, [], now);
    if r.error.None? {
      PassQuiet(r.faults, r.remaining, 0, [], now);
      assert [] + r.remaining[0..] == r.remaining;
    }
  }

  /**
   * A lone scheduled entry: before its time it stays; when due it is
   * injected once, and a non-positive duration clears it again in the same
   * pass, because the clear entry is appended to the list being walked.
   */
  lemma {:induction false} ScheduledEntryFires(f: Faults, e: Entry, now: real)
    requires e.Scheduled? && !e.injected
    ensures now < e.injectTimeMs ==> PassFrom(f, [e], 0, [], now) == PassResult(f, [e], [e], None)
    ensures var inj := Inject(f, e.arg, e.cellMask, e.durationMs, now);
      var r := PassFrom(f, [e], 0, [], now);
      now >= e.injectTimeMs && inj.Success? ==>
        && r.error.None?
        && (e.durationMs.None? ==> r.faults == inj.value.faults && r.remaining == [])
        && (e.durationMs.Some? && e.durationMs.value > 0.0 ==>
              r.faults == inj.value.faults && r.remaining == [e.(injected := true)] + inj.value.added)
        && (e.durationMs.Some? && e.durationMs.value <= 0.0 ==>
              r.faults == ClearFaults(inj.value.faults, inj.value.added[0].kind, e.cellMask) && r.remaining == [e.(injected := true)])
  {
    if now < e.injectTimeMs {
      PassQuiet(f, [e], 0, [], now);
      assert [e][0..] == [e];
    } else {
      var inj := Inject(f, e.arg, e.cellMask, e.durationMs, now);
      if inj.Success? {
        var e2 := e.(injected := true);
        var s2 := ([e] + inj.value.added)[0 := e2];
        if e.durationMs.None? {
          assert s2 == [e2];
          assert PassFrom(f, [e], 0, [], now) == PassFrom(inj.value.faults, s2, 1, [], now);
        } else {
          var c := inj.value.added[0];
          assert s2 == [e2, c];
          assert [] + [s2[0]] == [e2];
          assert PassFrom(f, [e], 0, [], now) == PassFrom(inj.value.faults, s2, 1, [] + [s2[0]], now);
          if e.durationMs.value > 0.0 {
            assert Quiet(c, now);
            assert PassFrom(inj.value.faults, s2, 1, [e2], now) == PassFrom(inj.value.faults, s2, 2, [e2, c], now);
          } else {
            assert PassFrom(inj.value.faults, s2, 1, [e2], now) == PassFrom(ClearFaults(inj.value.faults, c.kind, c.cellMask), s2, 2, [e2], now);
          }
        }
      }
    }
  }

  /**
   * The clear entry of a fault injected at `now` with duration d: a pass
   * before now + d keeps it and changes nothing; the first pass at or after
   * now + d clears the fault on the same mask and drops the entry.
   */
  lemma {:induction false} InjectedFaultExpires(f: Faults, arg: FaultArg, cellMask: Option<nat>, d: real, now: real,
                                                later: real)
    requires Inject(f, arg, cellMask, Some(d), now).Success?
    ensures var inj := Inject(f, arg, cellMask, Some(d), now).value;
      later < now + d ==> PassFrom(inj.faults, inj.added, 0, [], later) == PassResult(inj.faults, inj.added, inj.added, None)
    ensures var inj := Inject(f, arg, cellMask, Some(d), now).value;
      later >= now + d ==>
        PassFrom(inj.faults, inj.added, 0, [], later)
          == PassResult(ClearFaults(inj.faults, ResolveFault(arg).value, cellMask), inj.added, [], None)
  {
    var inj := Inject(f, arg, cellMask, Some(d), now).value;
    var c := inj.added[0];
    assert inj.added == [c];
    if later < now + d {
      assert PassFrom(inj.faults, inj.added, 0, [], later) == PassFrom(inj.faults, inj.added, 1, [c], later);
    } else {
      assert PassFrom(inj.faults, inj.added, 0, [], later)
        == PassFrom(ClearFaults(inj.faults, c.kind, c.cellMask), inj.added, 1, [], later);
    }
  }

  /**
   * A per-channel fault injected for d ms on channels that were not faulted
   * before is gone again, with the fault state restored, after the first
   * pass at or after its expiry.
   */
  lemma {:induction false} TimedFaultRestores(f: Faults, t: FaultType, m: nat, d: real, now: real, later: real)
    requires SetsMask(t) && later >= now + d
    requires forall i: nat :: !(Bit(MaskOf(f, t), i) && Bit(m, i))
    ensures Inject(f, Kind(t), Some(m), Some(d), now).Success?
    ensures var inj := Inject(f, Kind(t), Some(m), Some(d), now).value;
      var r := PassFrom(inj.faults, inj.added, 0, [], later);
      r.error.None? && r.faults == f && r.remaining == []
  {
    InjectThenClear(f, t, m);
    InjectedFaultExpires(f, Kind(t), Some(m), d, now, later);
  }

  // ---------------------------------------------------------------------
  // One measurement, channel by channel.

  function MeasuredVoltages(trueV: seq<real>, gains: seq<real>, offsets: seq<real>, noise: seq<real>,
                            f: Faults, stored: seq<real>): (r: seq<real>)
    requires |trueV| == NumChannels && |gains| == NumChannels && |offsets| == NumChannels
    requires |noise| == NumChannels && |stored| == NumChannels
    ensures |r| == NumChannels && forall i :: 0 <= i < NumChannels ==> 0.0 <= r[i] <= 6553.5
  {
    seq(NumChannels, i requires 0 <= i < NumChannels => QuantizeMv(VoltageOut(trueV, gains, offsets, noise, f, stored, i).out))
  }

  function StoredVoltages(trueV: seq<real>, gains: seq<real>, offsets: seq<real>, noise: seq<real>,
                          f: Faults, stored: seq<real>): (r: seq<real>)
    requires |trueV| == NumChannels && |gains| == NumChannels && |offsets| == NumChannels
    requires |noise| == NumChannels && |stored| == NumChannels
    ensures |r| == NumChannels
  {
    seq(NumChannels, i requires 0 <= i < NumChannels => VoltageOut(trueV, gains, offsets, noise, f, stored, i).stored)
  }

  function MeasuredTemps(trueT: seq<real>, offsets: seq<real>, noise: seq<real>, ntcFaultMask: nat): (r: seq<int>)
    requires |trueT| == NumChannels && |offsets| == NumChannels && |noise| == NumChannels
    ensures |r| == NumChannels && forall i :: 0 <= i < NumChannels ==> -32768 <= r[i] <= 32767
  {
    seq(NumChannels, i requires 0 <= i < NumChannels => TempChannel(trueT[i] + offsets[i] + noise[i], Bit(ntcFaultMask, i)))
  }

  /** `_should_inject_crc_error` on the uniform draw in [0, 1) it consumes. */
  predicate CrcTrial(rate: real, draw: real)
  {
    rate > 0.0 && draw < rate
  }

  /** The random values one `apply_measurement` consumes. */
  datatype Draws = Draws(voltageNoise: seq<real>, tempNoise: seq<real>, currentNoise: real, crcDraw: real)

  /** What `apply_measurement` returns. */
  datatype Measurement = Measurement(voltagesMv: seq<real>, tempsCenti: seq<int>, currentMa: real, statusFlags: nat)

  /** The first loop of `_update_status_flags`: the open-wire mask plus bit i for each 0 V channel. */
  method OpenWireBits(openWireMask: nat, voltages: seq<real>) returns (w: nat)
    requires |voltages| == NumChannels
    ensures forall b: nat :: Bit(w, b) <==> Bit(openWireMask, b) || (b < 16 && voltages[b] == 0.0)
    ensures IsMask(openWireMask) ==> w < Pow2(16)
  {
    w := openWireMask;
    for i: nat := 0 to NumChannels
      invariant forall b: nat :: Bit(w, b) <==> Bit(openWireMask, b) || (b < i && voltages[b] == 0.0)
    {
      if voltages[i] == 0.0 {
        OrPowBit(w, i);
        w := BitOr(w, Pow2(i));
      }
    }
    if IsMask(openWireMask) {
      MaskLimitIsPow2();
      forall b: nat | 16 <= b
        ensures !Bit(w, b)
      {
        HighBitClear(openWireMask, 16, b);
      }
      BitsBelow(w, 16);
    }
  }

  /** Status bit b (16 <= b < 32) is the NTC flag of channel b - 16. */
  predicate NtcFlag(temps: seq<int>, b: nat)
    requires |temps| == NumChannels
  {
    16 <= b < 32 && temps[b - 16] <= NtcThreshold
  }

  /** After i passes of the NTC loop: the bits of w0 and the NTC flags of channels below i. */
  ghost predicate NtcPrefix(w: nat, w0: nat, temps: seq<int>, i: nat)
    requires |temps| == NumChannels
  {
    forall b: nat :: Bit(w, b) <==> Bit(w0, b) || (b < 16 + i && NtcFlag(temps, b))
  }

  /** One pass of the NTC loop sets bit 16 + i exactly when channel i is at or below the threshold. */
  lemma {:induction false} NtcStep(w: nat, w0: nat, temps: seq<int>, i: nat)
    requires |temps| == NumChannels && i < NumChannels && NtcPrefix(w, w0, temps, i)
    ensures var next := if temps[i] <= NtcThreshold then BitOr(w, Pow2(16 + i)) else w;
      NtcPrefix(next, w0, temps, i + 1)
  {
    var k := 16 + i;
    assert NtcFlag(temps, k) <==> temps[i] <= NtcThreshold;
    if temps[i] <= NtcThreshold {
      OrPowBit(w, k);
    }
  }

  /** The second loop of `_update_status_flags`: bit 16 + i for each NTC channel at or below the threshold. */
  method NtcBits(w0: nat, temps: seq<int>) returns (w: nat)
    requires |temps| == NumChannels
    ensures forall b: nat :: Bit(w, b) <==> Bit(w0, b) || NtcFlag(temps, b)
  {
    w := w0;
    for i: nat := 0 to NumChannels
      invariant NtcPrefix(w, w0, temps, i)
    {
      NtcStep(w, w0, temps, i);
      if temps[i] <= NtcThreshold {
        w := BitOr(w, Pow2(16 + i));
      }
    }
  }

  /** The open-wire bits, the NTC bits and bit 30 together make the status word `StatusBit` describes. */
  lemma {:induction false} StatusFromParts(low: nat, ntc: nat, w: nat, openWireMask: nat, voltages: seq<real>,
                                           temps: seq<int>, currentSensorFault: bool, current: real)
    requires |voltages| == NumChannels && |temps| == NumChannels
    requires forall b: nat :: Bit(low, b) <==> Bit(openWireMask, b) || (b < 16 && voltages[b] == 0.0)
    requires forall b: nat :: Bit(ntc, b) <==> Bit(low, b) || NtcFlag(temps, b)
    requires forall b: nat :: Bit(w, b) <==> Bit(ntc, b) || (b == 30 && (currentSensorFault || current == 0.0))
    ensures StatusMatches(w, openWireMask, voltages, temps, currentSensorFault, current)
  {
    forall b: nat
      ensures Bit(w, b) <==> StatusBit(b, openWireMask, voltages, temps, currentSensorFault, current)
    {
      assert Bit(ntc, b) <==> Bit(low, b) || NtcFlag(temps, b);
    }
  }

  /**
   * The status word `_update_status_flags` builds: the open-wire mask, bit
   * i for each channel reading exactly 0 V, bit 16 + i for each NTC
   * channel at or below the open-circuit threshold, and bit 30 for a
   * current sensor fault or a zero current. It fits in 32 bits when the
   * mask fits in 16.
   */
  method StatusWord(openWireMask: nat, voltages: seq<real>, temps: seq<int>, currentSensorFault: bool, current: real)
    returns (w: nat)
    requires |voltages| == NumChannels && |temps| == NumChannels
    ensures StatusMatches(w, openWireMask, voltages, temps, currentSensorFault, current)
    ensures IsMask(openWireMask) ==> w < 0x1_0000_0000
  {
    var low := OpenWireBits(openWireMask, voltages);
    var ntc := NtcBits(low, temps);
    w := ntc;
    if currentSensorFault || current == 0.0 {
      OrPowBit(w, 30);
      w := BitOr(w, Pow2(30));
    }
    StatusFromParts(low, ntc, w, openWireMask, voltages, temps, currentSensorFault, current);
    if IsMask(openWireMask) {
      StatusWordFits(w, openWireMask, voltages, temps, currentSensorFault, current, false);
    }
  }

  /** `status_flags |= 1 << 31` on an injected CRC error: the status word becomes the reported word. */
  method MarkCrcHit(w: nat, openWireMask: nat, voltages: seq<real>, temps: seq<int>,
                    currentSensorFault: bool, current: real, crcHit: bool) returns (r: nat)
    requires |voltages| == NumChannels && |temps| == NumChannels
    requires StatusMatches(w, openWireMask, voltages, temps, currentSensorFault, current)
    ensures ReportedStatus(r, openWireMask, voltages, temps, currentSensorFault, current, crcHit)
    ensures IsMask(openWireMask) ==> r < 0x1_0000_0000
  {
    r := w;
    if crcHit {
      OrPowBit(w, 31);
      r := BitOr(w, Pow2(31));
    }
    if IsMask(openWireMask) {
      StatusWordFits(r, openWireMask, voltages, temps, currentSensorFault, current, crcHit);
    }
  }

  /**
   * The AFE measurement wrapper. The per-channel calibration errors are
   * drawn once at construction and never change; the fault masks, the
   * stuck-ADC store, the schedule, the status word and the counters are
   * updated in place.
   */
  class AFEWrapper {
    const voltageGainErrors: seq<real>
    const voltageOffsetsMv: seq<real>
    const tempOffsetsC: seq<real>
    const currentGainError: real
    const currentOffsetMa: real

    var openWireMask: nat
    var stuckAdcMask: nat
    const stuckAdcValues: array<real>
    var ntcFaultMask: nat
    var currentSensorFault: bool
    var crcErrorRate: real
    var faultSchedule: seq<Entry>
    var startTimeMs: Option<real>
    var statusFlags: nat
    /** The open-wire mask the status word was last built from. */
    ghost var reportedMask: nat
    var measurementCount: nat
    var crcErrorCount: nat

    ghost predicate Valid()
      reads this
    {
      && |voltageGainErrors| == NumChannels && |voltageOffsetsMv| == NumChannels && |tempOffsetsC| == NumChannels
      && stuckAdcValues.Length == NumChannels
      && 0.0 <= crcErrorRate <= 1.0
      && crcErrorCount <= measurementCount
      && (IsMask(reportedMask) ==> statusFlags < 0x1_0000_0000)
    }

    function FaultState(): Faults
      reads this
    {
      Faults(openWireMask, stuckAdcMask, ntcFaultMask, currentSensorFault)
    }

    /** The calibration draws are parameters; every fault, counter and the clock start cleared. */
    constructor(voltageGainErrors: seq<real>, voltageOffsetsMv: seq<real>, tempOffsetsC: seq<real>,
                currentGainError: real, currentOffsetMa: real)
      requires |voltageGainErrors| == NumChannels && |voltageOffsetsMv| == NumChannels && |tempOffsetsC| == NumChannels
      ensures Valid() && fresh(stuckAdcValues)
      ensures this.voltageGainErrors == voltageGainErrors && this.voltageOffsetsMv == voltageOffsetsMv
      ensures this.tempOffsetsC == tempOffsetsC
      ensures this.currentGainError == currentGainError && this.currentOffsetMa == currentOffsetMa
      ensures FaultState() == NoFaults && stuckAdcValues[..] == seq(NumChannels, _ => 0.0)
      ensures crcErrorRate == 0.0 && faultSchedule == [] && startTimeMs.None?
      ensures statusFlags == 0 && measurementCount == 0 && crcErrorCount == 0
    {
      this.voltageGainErrors := voltageGainErrors;
      this.voltageOffsetsMv := voltageOffsetsMv;
      this.tempOffsetsC := tempOffsetsC;
      this.currentGainError := currentGainError;
      this.currentOffsetMa := currentOffsetMa;
      openWireMask := 0;
      stuckAdcMask := 0;
      stuckAdcValues := new real[NumChannels](_ => 0.0);
      ntcFaultMask := 0;
      currentSensorFault := false;
      crcErrorRate := 0.0;
      faultSchedule := [];
      startTimeMs := None;
      statusFlags := 0;
      reportedMask := 0;
      measurementCount := 0;
      crcErrorCount := 0;
    }

    /** `_get_current_time_ms` at the wall-clock reading nowMs. */
    function CurrentTimeMs(nowMs: real): real
      reads this
    {
      ClockMs(startTimeMs, nowMs)
    }

    method StartSimulation(nowMs: real)
      requires Valid()
      modifies this
      ensures Valid() && startTimeMs == Some(nowMs)
      ensures CurrentTimeMs(nowMs) == 0.0
      ensures FaultState() == old(FaultState()) && faultSchedule == old(faultSchedule) && crcErrorRate == old(crcErrorRate)
      ensures statusFlags == old(statusFlags) && measurementCount == old(measurementCount) && crcErrorCount == old(crcErrorCount)
    {
      startTimeMs := Some(nowMs);
    }

    /** The fault-state half of `inject_fault` for the four fault types that set a mask. */
    method AddMaskFault(t: FaultType, cellMask: Option<nat>) returns (o: Outcome)
      requires Valid() && SetsMask(t)
      modifies this
      ensures Valid()
      ensures InjectFaults(old(FaultState()), t, cellMask).Failure? ==>
        o == Fail(InjectFaults(old(FaultState()), t, cellMask).error) && FaultState() == old(FaultState())
      ensures InjectFaults(old(FaultState()), t, cellMask).Success? ==>
        o == Pass && FaultState() == InjectFaults(old(FaultState()), t, cellMask).value
      ensures faultSchedule == old(faultSchedule) && startTimeMs == old(startTimeMs) && crcErrorRate == old(crcErrorRate)
      ensures statusFlags == old(statusFlags) && measurementCount == old(measurementCount) && crcErrorCount == old(crcErrorCount)
    {
      if cellMask.None? {
        var message := if t == OpenWire then "cell_mask required for open_wire fault"
                       else if t == StuckAdc then "cell_mask required for stuck_adc fault"
                       else "cell_mask required for NTC fault";
        return Fail(ValueError(message));
      }
      var m := cellMask.value;
      if t == OpenWire {
        openWireMask := BitOr(openWireMask, m);
      } else if t == StuckAdc {
        stuckAdcMask := BitOr(stuckAdcMask, m);
      } else {
        ntcFaultMask := BitOr(ntcFaultMask, m);
      }
      o := Pass;
    }

    /** The fault-state half of `inject_fault`, for a resolved fault type. */
    method AddFault(t: FaultType, cellMask: Option<nat>) returns (o: Outcome)
      requires Valid()
      modifies this
      ensures Valid()
      ensures InjectFaults(old(FaultState()), t, cellMask).Failure? ==>
        o == Fail(InjectFaults(old(FaultState()), t, cellMask).error) && FaultState() == old(FaultState())
      ensures InjectFaults(old(FaultState()), t, cellMask).Success? ==>
        o == Pass && FaultState() == InjectFaults(old(FaultState()), t, cellMask).value
      ensures faultSchedule == old(faultSchedule) && startTimeMs == old(startTimeMs) && crcErrorRate == old(crcErrorRate)
      ensures statusFlags == old(statusFlags) && measurementCount == old(measurementCount) && crcErrorCount == old(crcErrorCount)
    {
      if SetsMask(t) {
        o := AddMaskFault(t, cellMask);
      } else {
        if t == CurrentSensorFault {
          currentSensorFault := true;
        }
        o := Pass;
      }
    }

    /**
     * `inject_fault`: the fault state and the schedule become what `Inject`
     * says, or nothing changes and the error is returned.
     */
    method InjectFault(arg: FaultArg, cellMask: Option<nat>, durationMs: Option<real>, nowMs: real) returns (o: Outcome)
      requires Valid()
      modifies this
      ensures Valid()
      ensures var r := Inject(old(FaultState()), arg, cellMask, durationMs, ClockMs(old(startTimeMs), nowMs));
        && (r.Failure? ==> o == Fail(r.error) && FaultState() == old(FaultState()) && faultSchedule == old(faultSchedule))
        && (r.Success? ==> o == Pass && FaultState() == r.value.faults && faultSchedule == old(faultSchedule) + r.value.added)
      ensures startTimeMs == old(startTimeMs) && crcErrorRate == old(crcErrorRate) && statusFlags == old(statusFlags)
      ensures measurementCount == old(measurementCount) && crcErrorCount == old(crcErrorCount)
    {
      var resolved := ResolveFault(arg);
      if resolved.Failure? {
        return Fail(resolved.error);
      }
      var t := resolved.value;
      ghost var g := InjectFaults(FaultState(), t, cellMask);
      o := AddFault(t, cellMask);
      if o.Fail? {
        assert g.Failure?;
        return;
      }
      assert g.Success? && FaultState() == g.value;
      if durationMs.Some? {
        var currentTime := CurrentTimeMs(nowMs);
        faultSchedule := faultSchedule + [ClearAt(t, cellMask, currentTime + durationMs.value)];
      }
      o := Pass;
    }

    /** `clear_fault`: the fault state becomes what `ClearFaults` says, or the name is unknown. */
    method ClearFault(arg: FaultArg, cellMask: Option<nat>) returns (o: Outcome)
      requires Valid()
      modifies this
      ensures Valid()
      ensures ResolveFault(arg).Failure? ==> o == Fail(ResolveFault(arg).error) && FaultState() == old(FaultState())
      ensures ResolveFault(arg).Success? ==> o == Pass && FaultState() == ClearFaults(old(FaultState()), ResolveFault(arg).value, cellMask)
      ensures faultSchedule == old(faultSchedule) && startTimeMs == old(startTimeMs) && crcErrorRate == old(crcErrorRate)
      ensures statusFlags == old(statusFlags) && measurementCount == old(measurementCount) && crcErrorCount == old(crcErrorCount)
    {
      var resolved := ResolveFault(arg);
      if resolved.Failure? {
        return Fail(resolved.error);
      }
      match resolved.value {
        case OpenWire =>
          if cellMask.None? {
            openWireMask := 0;
          } else {
            openWireMask := BitAndNot(openWireMask, cellMask.value);
          }
        case StuckAdc =>
          if cellMask.None? {
            stuckAdcMask := 0;
          } else {
            stuckAdcMask := BitAndNot(stuckAdcMask, cellMask.value);
          }
        case NtcOpen =>
          if cellMask.None? {
            ntcFaultMask := 0;
          } else {
            ntcFaultMask := BitAndNot(ntcFaultMask, cellMask.value);
          }
        case NtcShort =>
          if cellMask.None? {
            ntcFaultMask := 0;
          } else {
            ntcFaultMask := BitAndNot(ntcFaultMask, cellMask.value);
          }
        case CurrentSensorFault =>
          currentSensorFault := false;
        case CrcError =>
      }
      o := Pass;
    }

    /** `schedule_fault`: appends a pending entry; the fault name is only resolved when it fires. */
    method ScheduleFault(arg: FaultArg, injectTimeMs: real, cellMask: Option<nat>, durationMs: Option<real>)
      requires Valid()
      modifies this
      ensures Valid()
      ensures faultSchedule == old(faultSchedule) + [Scheduled(arg, cellMask, injectTimeMs, durationMs, false)]
      ensures FaultState() == old(FaultState()) && startTimeMs == old(startTimeMs) && crcErrorRate == old(crcErrorRate)
      ensures statusFlags == old(statusFlags) && measurementCount == old(measurementCount) && crcErrorCount == old(crcErrorCount)
    {
      faultSchedule := faultSchedule + [Scheduled(arg, cellMask, injectTimeMs, durationMs, false)];
    }

    method SetCrcErrorRate(errorRate: real) returns (o: Outcome)
      requires Valid()
      modifies this
      ensures Valid()
      ensures 0.0 <= errorRate <= 1.0 ==> o == Pass && crcErrorRate == errorRate
      ensures !(0.0 <= errorRate <= 1.0) ==>
        o == Fail(ValueError("CRC error rate must be between 0.0 and 1.0")) && crcErrorRate == old(crcErrorRate)
      ensures FaultState() == old(FaultState()) && faultSchedule == old(faultSchedule) && startTimeMs == old(startTimeMs)
      ensures statusFlags == old(statusFlags) && measurementCount == old(measurementCount) && crcErrorCount == old(crcErrorCount)
    {
      if !(0.0 <= errorRate <= 1.0) {
        return Fail(ValueError("CRC error rate must be between 0.0 and 1.0"));
      }
      crcErrorRate := errorRate;
      o := Pass;
    }

    /**
     * `_update_fault_schedule`: one pass over the schedule at the current
     * time, as `PassFrom` describes; an error raised by an injection stops
     * the pass and leaves the schedule list as mutated so far.
     */
    method UpdateFaultSchedule(nowMs: real) returns (o: Outcome)
      requires Valid()
      modifies this
      ensures Valid()
      ensures var r := PassFrom(old(FaultState()), old(faultSchedule), 0, [], ClockMs(old(startTimeMs), nowMs));
        && FaultState() == r.faults
        && (r.error.None? ==> o == Pass && faultSchedule == r.remaining)
        && (r.error.Some? ==> o == Fail(r.error.value) && faultSchedule == r.schedule)
      ensures startTimeMs == old(startTimeMs) && crcErrorRate == old(crcErrorRate) && statusFlags == old(statusFlags)
      ensures measurementCount == old(measurementCount) && crcErrorCount == old(crcErrorCount)
    {
      var currentTime := CurrentTimeMs(nowMs);
      ghost var goal := PassFrom(FaultState(), faultSchedule, 0, [], currentTime);
      var remaining: seq<Entry> := [];
      var i := 0;
      while i < |faultSchedule|
        invariant Valid() && i <= |faultSchedule|
        invariant PassFrom(FaultState(), faultSchedule, i, remaining, currentTime) == goal
        invariant startTimeMs == old(startTimeMs) && crcErrorRate == old(crcErrorRate) && statusFlags == old(statusFlags)
        invariant measurementCount == old(measurementCount) && crcErrorCount == old(crcErrorCount)
        decreases PendingCount(faultSchedule[i..]), |faultSchedule| - i
      {
        var e := faultSchedule[i];
        PendingStep(faultSchedule, i);
        if Pending(e) && currentTime >= e.injectTimeMs {
          assert e in faultSchedule;
          ghost var before := faultSchedule;
          ghost var f0 := FaultState();
          o := InjectFault(e.arg, e.cellMask, e.durationMs, nowMs);
          if o.Fail? {
            return;
          }
          ghost var inj := Inject(f0, e.arg, e.cellMask, e.durationMs, currentTime).value;
          faultSchedule := faultSchedule[i := e.(injected := true)];
          TailAfterInject(before, inj.added, i, e.(injected := true));
          if e.durationMs.Some? {
            remaining := remaining + [faultSchedule[i]];
          }
        } else if e.ClearAt? && currentTime >= e.clearTimeMs {
          o := ClearFault(Kind(e.kind), e.cellMask);
        } else {
          remaining := remaining + [e];
        }
        i := i + 1;
      }
      faultSchedule := remaining;
      o := Pass;
    }

    /** `_process_voltages`: calibration, noise, the open-wire and stuck-ADC faults, then 0.1 mV quantisation. */
    method ProcessVoltages(trueV: seq<real>, noise: seq<real>) returns (measured: seq<real>)
      requires Valid() && |trueV| == NumChannels && |noise| == NumChannels
      modifies stuckAdcValues
      ensures measured == MeasuredVoltages(trueV, voltageGainErrors, voltageOffsetsMv, noise, FaultState(), old(stuckAdcValues[..]))
      ensures stuckAdcValues[..] == StoredVoltages(trueV, voltageGainErrors, voltageOffsetsMv, noise, FaultState(), old(stuckAdcValues[..]))
    {
      ghost var stored := stuckAdcValues[..];
      var m := seq(NumChannels, i requires 0 <= i < NumChannels => Calibrated(trueV[i], voltageGainErrors[i], voltageOffsetsMv[i], noise[i]));
      for i := 0 to NumChannels
        invariant |m| == NumChannels
        invariant forall j :: 0 <= j < i ==>
          var c := VoltageOut(trueV, voltageGainErrors, voltageOffsetsMv, noise, FaultState(), stored, j);
          m[j] == c.out && stuckAdcValues[j] == c.stored
        invariant forall j :: i <= j < NumChannels ==>
          m[j] == Calibrated(trueV[j], voltageGainErrors[j], voltageOffsetsMv[j], noise[j]) && stuckAdcValues[j] == stored[j]
      {
        if Bit(openWireMask, i) {
          m := m[i := 0.0];
        } else if Bit(stuckAdcMask, i) {
          if stuckAdcValues[i] == 0.0 {
            stuckAdcValues[i] := m[i];
          } else {
            m := m[i := stuckAdcValues[i]];
          }
        } else {
          stuckAdcValues[i] := m[i];
        }
      }
      measured := seq(NumChannels, i requires 0 <= i < NumChannels => QuantizeMv(m[i]));
    }

    /** `_process_temperatures`: offset, noise, the NTC sentinel, 0.1 degree quantisation, centi-degrees. */
    method ProcessTemperatures(trueT: seq<real>, noise: seq<real>) returns (centi: seq<int>)
      requires Valid() && |trueT| == NumChannels && |noise| == NumChannels
      ensures centi == MeasuredTemps(trueT, tempOffsetsC, noise, ntcFaultMask)
    {
      var m := seq(NumChannels, i requires 0 <= i < NumChannels => trueT[i] + tempOffsetsC[i] + noise[i]);
      for i := 0 to NumChannels
        invariant |m| == NumChannels
        invariant forall j :: 0 <= j < NumChannels ==>
          m[j] == if j < i && Bit(ntcFaultMask, j) then NtcInvalidC else trueT[j] + tempOffsetsC[j] + noise[j]
      {
        if Bit(ntcFaultMask, i) {
          m := m[i := NtcInvalidC];
        }
      }
      centi := seq(NumChannels, i requires 0 <= i < NumChannels => SaturateInt16(CentiDegrees(m[i])));
    }

    /** `_process_current`: gain, offset and noise, a sensor fault forcing 0 mA, then 1 mA quantisation. */
    method ProcessCurrent(trueI: real, noise: real) returns (measured: real)
      requires Valid()
      ensures measured == CurrentChannel(Calibrated(trueI, currentGainError, currentOffsetMa, noise), currentSensorFault)
    {
      measured := trueI * currentGainError + currentOffsetMa;
      measured := measured + noise;
      if currentSensorFault {
        measured := 0.0;
      }
      measured := RoundHalfEven(measured / 1.0) as real * 1.0;
    }

    /** `_update_status_flags`: the status word is the one `StatusMatches` pins down. */
    method UpdateStatusFlags(voltages: seq<real>, temps: seq<int>, current: real)
      requires Valid() && |voltages| == NumChannels && |temps| == NumChannels
      modifies this
      ensures Valid()
      ensures StatusMatches(statusFlags, openWireMask, voltages, temps, currentSensorFault, current)
      ensures reportedMask == openWireMask
      ensures FaultState() == old(FaultState()) && faultSchedule == old(faultSchedule) && startTimeMs == old(startTimeMs)
      ensures crcErrorRate == old(crcErrorRate) && measurementCount == old(measurementCount) && crcErrorCount == old(crcErrorCount)
    {
      var w := StatusWord(openWireMask, voltages, temps, currentSensorFault, current);
      statusFlags := w;
      reportedMask := openWireMask;
    }

    /**
     * `apply_measurement`: counts the measurement, runs the schedule pass
     * (an error from it propagates), processes the three channel kinds,
     * rebuilds the status word and runs the CRC trial.
     */
    method ApplyMeasurement(trueV: seq<real>, trueT: seq<real>, trueI: real, nowMs: real, d: Draws)
      returns (r: Result<Measurement>)
      requires Valid() && |trueV| == NumChannels && |trueT| == NumChannels
      requires |d.voltageNoise| == NumChannels && |d.tempNoise| == NumChannels
      modifies this, stuckAdcValues
      ensures Valid()
      ensures measurementCount == old(measurementCount) + 1 && startTimeMs == old(startTimeMs) && crcErrorRate == old(crcErrorRate)
      ensures var p := PassFrom(old(FaultState()), old(faultSchedule), 0, [], ClockMs(old(startTimeMs), nowMs));
        && FaultState() == p.faults
        && (p.error.Some? ==>
              && r == Failure(p.error.value) && faultSchedule == p.schedule
              && statusFlags == old(statusFlags) && crcErrorCount == old(crcErrorCount)
              && stuckAdcValues[..] == old(stuckAdcValues[..]))
        && (p.error.None? ==>
              var v := MeasuredVoltages(trueV, voltageGainErrors, voltageOffsetsMv, d.voltageNoise, p.faults, old(stuckAdcValues[..]));
              var t := MeasuredTemps(trueT, tempOffsetsC, d.tempNoise, p.faults.ntcFaultMask);
              var c := CurrentChannel(Calibrated(trueI, currentGainError, currentOffsetMa, d.currentNoise), p.faults.currentSensorFault);
              var hit := CrcTrial(old(crcErrorRate), d.crcDraw);
              && r == Success(Measurement(v, t, c, statusFlags))
              && faultSchedule == p.remaining
              && stuckAdcValues[..] == StoredVoltages(trueV, voltageGainErrors, voltageOffsetsMv, d.voltageNoise, p.faults, old(stuckAdcValues[..]))
              && crcErrorCount == old(crcErrorCount) + (if hit then 1 else 0)
              && ReportedStatus(statusFlags, p.faults.openWireMask, v, t, p.faults.currentSensorFault, c, hit)
              && reportedMask == p.faults.openWireMask)
    {
      measurementCount := measurementCount + 1;
      var o := UpdateFaultSchedule(nowMs);
      if o.Fail? {
        return Failure(o.error);
      }
      var m := MeasureChannels(trueV, trueT, trueI, d);
      r := Success(m);
    }

    /** The three channel passes of `apply_measurement`: voltages, temperatures, current. */
    method ProcessChannels(trueV: seq<real>, trueT: seq<real>, trueI: real, d: Draws)
      returns (v: seq<real>, t: seq<int>, c: real)
      requires Valid() && |trueV| == NumChannels && |trueT| == NumChannels
      requires |d.voltageNoise| == NumChannels && |d.tempNoise| == NumChannels
      modifies stuckAdcValues
      ensures v == MeasuredVoltages(trueV, voltageGainErrors, voltageOffsetsMv, d.voltageNoise, FaultState(), old(stuckAdcValues[..]))
      ensures stuckAdcValues[..] == StoredVoltages(trueV, voltageGainErrors, voltageOffsetsMv, d.voltageNoise, FaultState(), old(stuckAdcValues[..]))
      ensures t == MeasuredTemps(trueT, tempOffsetsC, d.tempNoise, ntcFaultMask)
      ensures c == CurrentChannel(Calibrated(trueI, currentGainError, currentOffsetMa, d.currentNoise), currentSensorFault)
    {
      v := ProcessVoltages(trueV, d.voltageNoise);
      t := ProcessTemperatures(trueT, d.tempNoise);
      c := ProcessCurrent(trueI, d.currentNoise);
    }

    /** The status word of `apply_measurement` and its CRC-error trial, bit 31 marking a hit. */
    method ReportChannels(v: seq<real>, t: seq<int>, c: real, crcDraw: real) returns (m: Measurement)
      requires Valid() && crcErrorCount < measurementCount && |v| == NumChannels && |t| == NumChannels
      modifies this
      ensures Valid()
      ensures FaultState() == old(FaultState()) && faultSchedule == old(faultSchedule)
      ensures measurementCount == old(measurementCount) && startTimeMs == old(startTimeMs) && crcErrorRate == old(crcErrorRate)
      ensures var hit := CrcTrial(old(crcErrorRate), crcDraw);
        && m == Measurement(v, t, c, statusFlags)
        && crcErrorCount == old(crcErrorCount) + (if hit then 1 else 0)
        && ReportedStatus(statusFlags, openWireMask, v, t, currentSensorFault, c, hit)
      ensures reportedMask == openWireMask
    {
      UpdateStatusFlags(v, t, c);
      var hit := CrcTrial(crcErrorRate, crcDraw);
      var reported := MarkCrcHit(statusFlags, openWireMask, v, t, currentSensorFault, c, hit);
      if hit {
        crcErrorCount := crcErrorCount + 1;
      }
      statusFlags := reported;
      m := Measurement(v, t, c, statusFlags);
    }

    /** The part of `apply_measurement` after the schedule pass, on the current fault state. */
    method MeasureChannels(trueV: seq<real>, trueT: seq<real>, trueI: real, d: Draws) returns (m: Measurement)
      requires Valid() && crcErrorCount < measurementCount && |trueV| == NumChannels && |trueT| == NumChannels
      requires |d.voltageNoise| == NumChannels && |d.tempNoise| == NumChannels
      modifies this, stuckAdcValues
      ensures Valid()
      ensures FaultState() == old(FaultState()) && faultSchedule == old(faultSchedule)
      ensures measurementCount == old(measurementCount) && startTimeMs == old(startTimeMs) && crcErrorRate == old(crcErrorRate)
      ensures var f := old(FaultState());
        var v := MeasuredVoltages(trueV, voltageGainErrors, voltageOffsetsMv, d.voltageNoise, f, old(stuckAdcValues[..]));
        var t := MeasuredTemps(trueT, tempOffsetsC, d.tempNoise, f.ntcFaultMask);
        var c := CurrentChannel(Calibrated(trueI, currentGainError, currentOffsetMa, d.currentNoise), f.currentSensorFault);
        var hit := CrcTrial(old(crcErrorRate), d.crcDraw);
        && m == Measurement(v, t, c, statusFlags)
        && stuckAdcValues[..] == StoredVoltages(trueV, voltageGainErrors, voltageOffsetsMv, d.voltageNoise, f, old(stuckAdcValues[..]))
        && crcErrorCount == old(crcErrorCount) + (if hit then 1 else 0)
        && ReportedStatus(statusFlags, f.openWireMask, v, t, f.currentSensorFault, c, hit)
      ensures reportedMask == openWireMask
    {
      var v, t, c := ProcessChannels(trueV, trueT, trueI, d);
      m := ReportChannels(v, t, c, d.crcDraw);
    }

    /** `get_status_flags`: a 32-bit word when the open-wire mask it was built from has 16 bits. */
    function GetStatusFlags(): (r: nat)
      reads this
      ensures Valid() && IsMask(reportedMask) ==> r < 0x1_0000_0000
    {
      statusFlags
    }

    /** `get_statistics`: the observed CRC error rate lies in [0, 1]. */
    function GetStatistics(): (r: Statistics)
      reads this
      ensures r.measurementCount == measurementCount && r.crcErrorCount == crcErrorCount
      ensures Valid() ==> 0.0 <= r.crcErrorRate <= 1.0
    {
      StatisticsOf(measurementCount, crcErrorCount, FaultState())
    }

    /** `reset`: every fault, the schedule, the clock and the counters cleared; the calibration is kept. */
    method Reset()
      requires Valid()
      modifies this, stuckAdcValues
      ensures Valid()
      ensures FaultState() == NoFaults && stuckAdcValues[..] == seq(NumChannels, _ => 0.0)
      ensures crcErrorRate == 0.0 && faultSchedule == [] && startTimeMs.None?
      ensures statusFlags == 0 && measurementCount == 0 && crcErrorCount == 0
    {
      for i := 0 to NumChannels
        invariant forall j :: 0 <= j < i ==> stuckAdcValues[j] == 0.0
      {
        stuckAdcValues[i] := 0.0;
      }
      openWireMask := 0;
      stuckAdcMask := 0;
      ntcFaultMask := 0;
      currentSensorFault := false;
      crcErrorRate := 0.0;
      faultSchedule := [];
      statusFlags := 0;
      reportedMask := 0;
      measurementCount := 0;
      crcErrorCount := 0;
      startTimeMs := None;
    }
  }
}
