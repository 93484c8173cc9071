/**
 * The AFE_MEAS frame sent from the PC plant simulator to the MCU:
 * SOF | msg_id | len | seq (LE) | 80-byte little-endian payload | CRC16 (LE) | EOF,
 * with the CRC taken over msg_id, len, seq and the payload.
 */
module AfeMeasProtocol {
  import opened Wrappers
  import opened Bytes
  import Crc16
  import opened Text
  import BigEndianPack

  const SOF: byte := 0xA5
  const EOF: byte := 0xAA
  const MsgIdAfeMeas: byte := 0x01
  const MsgIdBmsApp: byte := 0x02

  const NumCells: nat := 16
  /** uint32 timestamp, 16 x uint16, 16 x int16, int32, uint32, uint32. */
  const PayloadSize: nat := 80

  /** The measurement fields of one frame. */
  datatype Measurement = Measurement(
    timestampMs: int,
    vcellMv: seq<int>,
    tcellCc: seq<int>,
    packCurrentMa: int,
    packVoltageMv: int,
    statusFlags: int)

  /** What `decode` returns: the fields and the sequence number. */
  datatype DecodedFrame = DecodedFrame(meas: Measurement, sequence: nat)


  /** Every scalar field fits its struct format letter, and both arrays have 16 elements. */
  predicate Packable(m: Measurement)
  {
    && |m.vcellMv| == NumCells && |m.tcellCc| == NumCells
    && InUnsigned(m.timestampMs, 4)
    && InSigned(m.packCurrentMa, 4)
    && InUnsigned(m.packVoltageMv, 4)
    && InUnsigned(m.statusFlags, 4)
  }

  /** `vcell_mv.astype(np.uint16)`, each field as struct letter `H`. */
  function VoltageFields(v: seq<int>): (r: seq<seq<byte>>)
    ensures |r| == |v|
    ensures forall i :: 0 <= i < |r| ==> |r[i]| == 2
  {
    seq(|v|, i requires 0 <= i < |v| => LE(WrapUnsigned(v[i], 2), 2))
  }

  /** `tcell_cc.astype(np.int16)`, each field as struct letter `h`. */
  function TemperatureFields(t: seq<int>): (r: seq<seq<byte>>)
    ensures |r| == |t|
    ensures forall i :: 0 <= i < |r| ==> |r[i]| == 2
  {
    seq(|t|, i requires 0 <= i < |t| => SLE(WrapSigned(t[i], 2), 2))
  }

  /** The payload packed with format `<I16H16hiII`. */
  function Payload(m: Measurement): (p: seq<byte>)
    requires Packable(m)
    ensures |p| == PayloadSize
  {
    FlattenLength(VoltageFields(m.vcellMv), 2);
    FlattenLength(TemperatureFields(m.tcellCc), 2);
    LE(m.timestampMs, 4)
      + Flatten(VoltageFields(m.vcellMv))
      + Flatten(TemperatureFields(m.tcellCc))
      + SLE(m.packCurrentMa, 4)
      + LE(m.packVoltageMv, 4)
      + LE(m.statusFlags, 4)
  }

  /** msg_id | len | seq: the bytes the CRC covers ahead of the payload. */
  function Header(seqNo: nat, length: nat): (h: seq<byte>)
    requires seqNo < 0x1_0000 && length < 256
    ensures |h| == 4
  {
    [MsgIdAfeMeas, length] + LE(seqNo, 2)
  }

  /** SOF | header | payload | CRC16 little-endian | EOF. */
  function Envelope(seqNo: nat, payload: seq<byte>): (f: seq<byte>)
    requires seqNo < 0x1_0000 && |payload| < 256
    ensures |f| == 8 + |payload|
  {
    var body := Header(seqNo, |payload|) + payload;
    [SOF] + body + LE(Crc16.Checksum(body), 2) + [EOF]
  }

  /**
   * The struct.error of the first field, in payload order, that its format
   * rejects: the timestamp, current, voltage and flags are `I`, `i`, `I`, `I`.
   */
  function FieldRangeError(m: Measurement): Error
  {
    if !InUnsigned(m.timestampMs, 4) then BigEndianPack.UInt32RangeError
    else if !InSigned(m.packCurrentMa, 4) then BigEndianPack.Int32RangeError
    else BigEndianPack.UInt32RangeError
  }

  /**
   * `AFEMeasFrame.encode`: arrays of the wrong length raise ValueError, a
   * field outside its struct format raises struct.error, and the sequence
   * number wraps at 16 bits.
   */
  function Encode(timestampMs: int, vcellMv: seq<int>, tcellCc: seq<int>, packCurrentMa: int,
                  packVoltageMv: int, statusFlags: int, sequence: int): (r: Result<seq<byte>>)
    ensures |vcellMv| != NumCells ==>
      r == Failure(ValueError("vcell_mv must have 16 elements, got " + Decimal(|vcellMv|)))
    ensures |vcellMv| == NumCells && |tcellCc| != NumCells ==>
      r == Failure(ValueError("tcell_cc must have 16 elements, got " + Decimal(|tcellCc|)))
    ensures r.Success? <==> Packable(Measurement(timestampMs, vcellMv, tcellCc, packCurrentMa, packVoltageMv, statusFlags))
    ensures |vcellMv| == NumCells && |tcellCc| == NumCells && !InUnsigned(timestampMs, 4) ==>
      r == Failure(BigEndianPack.UInt32RangeError)
    ensures |vcellMv| == NumCells && |tcellCc| == NumCells && InUnsigned(timestampMs, 4) && !InSigned(packCurrentMa, 4) ==>
      r == Failure(BigEndianPack.Int32RangeError)
    ensures |vcellMv| == NumCells && |tcellCc| == NumCells && InUnsigned(timestampMs, 4) && InSigned(packCurrentMa, 4)
            && !(InUnsigned(packVoltageMv, 4) && InUnsigned(statusFlags, 4)) ==>
      r == Failure(BigEndianPack.UInt32RangeError)
    ensures r.Success? ==>
      var f := r.value;
      && |f| == 8 + PayloadSize
      && f[0] == SOF && f[1] == MsgIdAfeMeas && f[2] == PayloadSize && f[|f| - 1] == EOF
      && FromLE(f[3..5]) == sequence % 0x1_0000
      && f[5..85] == Payload(Measurement(timestampMs, vcellMv, tcellCc, packCurrentMa, packVoltageMv, statusFlags))
      && FromLE(f[85..87]) == Crc16.Checksum(f[1..85])
  {
    var m := Measurement(timestampMs, vcellMv, tcellCc, packCurrentMa, packVoltageMv, statusFlags);
    if |vcellMv| != NumCells then Failure(ValueError("vcell_mv must have 16 elements, got " + Decimal(|vcellMv|)))
    else if |tcellCc| != NumCells then Failure(ValueError("tcell_cc must have 16 elements, got " + Decimal(|tcellCc|)))
    else if !Packable(m) then Failure(FieldRangeError(m))
    else
      var seqNo := sequence % 0x1_0000;
      EnvelopeLayout(seqNo, Payload(m));
      Success(Envelope(seqNo, Payload(m)))
  }

  lemma {:induction false} EnvelopeLayout(seqNo: nat, payload: seq<byte>)
    requires seqNo < 0x1_0000 && |payload| < 256
    ensures var f := Envelope(seqNo, payload); var n := |payload|;
      && f[0] == SOF && f[1] == MsgIdAfeMeas && f[2] == n && f[|f| - 1] == EOF
      && f[3..5] == LE(seqNo, 2)
      && f[5..5 + n] == payload
      && f[1..5 + n] == Header(seqNo, n) + payload
      && f[5 + n..7 + n] == LE(Crc16.Checksum(f[1..5 + n]), 2)
      && FromLE(f[3..5]) == seqNo
      && FromLE(f[5 + n..7 + n]) == Crc16.Checksum(f[1..5 + n])
  {
    var body := Header(seqNo, |payload|) + payload;
    var f := Envelope(seqNo, payload);
    assert f == [SOF] + body + LE(Crc16.Checksum(body), 2) + [EOF];
    assert f[1..5 + |payload|] == body;
    FromLEOfLE(seqNo, 2);
    FromLEOfLE(Crc16.Checksum(body), 2);
  }

  /** The fields `struct.unpack('<I16H16hiII', payload)` yields. */
  function ParsePayload(p: seq<byte>): (m: Measurement)
    requires |p| == PayloadSize
    ensures |m.vcellMv| == NumCells && |m.tcellCc| == NumCells
    ensures forall i :: 0 <= i < NumCells ==> 0 <= m.vcellMv[i] < 0x1_0000
    ensures forall i :: 0 <= i < NumCells ==> -0x8000 <= m.tcellCc[i] < 0x8000
    ensures Packable(m)
  {
    Measurement(
      FromLE(p[0..4]),
      seq(NumCells, i requires 0 <= i < NumCells => FromLE(p[4 + 2 * i..6 + 2 * i])),
      seq(NumCells, i requires 0 <= i < NumCells => Signed(FromLE(p[36 + 2 * i..38 + 2 * i]), 2)),
      Signed(FromLE(p[68..72]), 4),
      FromLE(p[72..76]),
      FromLE(p[76..80]))
  }

  /**
   * `AFEMeasFrame.decode`: `None` for a short frame, a bad SOF or EOF, a
   * foreign message id, a size that disagrees with the length byte or a CRC
   * mismatch. A frame that passes all of these but whose length byte is not
   * 80 reaches `struct.unpack`, which raises.
   */
  function Decode(frame: seq<byte>): (r: Result<Option<DecodedFrame>>)
    ensures r.Failure? ==> r.error.StructError? && |frame| != 8 + PayloadSize
    ensures r.Success? && r.value.Some? ==> |frame| == 8 + PayloadSize && r.value.value.sequence < 0x1_0000
  {
    if |frame| < 7 then Success(None)
    else if frame[0] != SOF || frame[|frame| - 1] != EOF then Success(None)
    else
      var msgId, length: nat, seqNo := frame[1], frame[2], FromLE(frame[3..5]);
      if msgId != MsgIdAfeMeas then Success(None)
      else if |frame| != 1 + 4 + length + 2 + 1 then Success(None)
      else if Crc16.Checksum(frame[1..5 + length]) != FromLE(frame[5 + length..7 + length]) then Success(None)
      else if length != PayloadSize then Failure(StructError("unpack requires a buffer of 80 bytes"))
      else Success(Some(DecodedFrame(ParsePayload(frame[5..5 + length]), seqNo)))
  }

  /** A frame the encoder's envelope builds is accepted; it raises exactly when its length is not 80. */
  lemma {:induction false} DecodeEnvelope(seqNo: nat, payload: seq<byte>)
    requires seqNo < 0x1_0000 && |payload| < 256
    ensures |payload| == PayloadSize ==>
      Decode(Envelope(seqNo, payload)) == Success(Some(DecodedFrame(ParsePayload(payload), seqNo)))
    ensures |payload| != PayloadSize ==>
      Decode(Envelope(seqNo, payload)) == Failure(StructError("unpack requires a buffer of 80 bytes"))
  {
    EnvelopeLayout(seqNo, payload);
  }

  /** The checks a frame passes when `decode` does not reject it. */
  lemma {:induction false} DecodeGuards(frame: seq<byte>)
    requires Decode(frame) != Success(None)
    ensures |frame| >= 8 && |frame| == 8 + frame[2] as int
    ensures frame[0] == SOF && frame[1] == MsgIdAfeMeas && frame[|frame| - 1] == EOF
    ensures Crc16.Checksum(frame[1..5 + frame[2] as int]) == FromLE(frame[5 + frame[2] as int..7 + frame[2] as int])
  {
  }

  /** A frame that passes those checks is the envelope of its sequence number and payload. */
  lemma {:induction false} GuardedFrameIsEnvelope(frame: seq<byte>)
    requires |frame| >= 8 && |frame| == 8 + frame[2] as int
    requires frame[0] == SOF && frame[1] == MsgIdAfeMeas && frame[|frame| - 1] == EOF
    requires Crc16.Checksum(frame[1..5 + frame[2] as int]) == FromLE(frame[5 + frame[2] as int..7 + frame[2] as int])
    ensures frame == Envelope(FromLE(frame[3..5]), frame[5..|frame| - 3])
  {
    var n: nat := frame[2];
    var seqNo := FromLE(frame[3..5]);
    var payload := frame[5..5 + n];
    var body := frame[1..5 + n];
    LEOfFromLE(frame[3..5]);
    assert body == Header(seqNo, n) + payload;
    LEOfFromLE(frame[5 + n..7 + n]);
    assert frame[5 + n..7 + n] == LE(Crc16.Checksum(body), 2);
    assert frame == [frame[0]] + body + frame[5 + n..7 + n] + [frame[|frame| - 1]];
  }

  /** Everything `decode` does not reject is an envelope of its own sequence number and payload. */
  lemma {:induction false} DecodeAcceptsOnlyEnvelopes(frame: seq<byte>)
    requires Decode(frame) != Success(None)
    ensures |frame| >= 8
    ensures frame == Envelope(FromLE(frame[3..5]), frame[5..|frame| - 3])
  {
    DecodeGuards(frame);
    GuardedFrameIsEnvelope(frame);
  }


  /** Where each field of a packed payload lies. */
  lemma {:induction false} PayloadSlices(m: Measurement)
    requires Packable(m)
    ensures var p := Payload(m);
      && p[0..4] == LE(m.timestampMs, 4)
      && p[4..36] == Flatten(VoltageFields(m.vcellMv))
      && p[36..68] == Flatten(TemperatureFields(m.tcellCc))
      && p[68..72] == SLE(m.packCurrentMa, 4)
      && p[72..76] == LE(m.packVoltageMv, 4)
      && p[76..80] == LE(m.statusFlags, 4)
  {
    var p := Payload(m);
    var vs := VoltageFields(m.vcellMv);
    var ts := TemperatureFields(m.tcellCc);
    FlattenLength(vs, 2);
    FlattenLength(ts, 2);
    var fv := Flatten(vs);
    var ft := Flatten(ts);
    assert p == LE(m.timestampMs, 4) + fv + ft + SLE(m.packCurrentMa, 4) + LE(m.packVoltageMv, 4) + LE(m.statusFlags, 4);
  }

  /** Cell i of an unpacked payload is cell i of the packed measurement after its numpy casts. */
  lemma {:induction false} PayloadCell(m: Measurement, i: nat)
    requires Packable(m) && i < NumCells
    ensures var d := ParsePayload(Payload(m));
      && d.vcellMv[i] == WrapUnsigned(m.vcellMv[i], 2)
      && d.tcellCc[i] == WrapSigned(m.tcellCc[i], 2)
  {
    var p := Payload(m);
    var vs := VoltageFields(m.vcellMv);
    var ts := TemperatureFields(m.tcellCc);
    PayloadSlices(m);
    FlattenUniform(vs, 2, i);
    FlattenUniform(ts, 2, i);
    var fv := Flatten(vs);
    var ft := Flatten(ts);
    assert p[4 + 2 * i..6 + 2 * i] == fv[i * 2..(i + 1) * 2];
    assert p[36 + 2 * i..38 + 2 * i] == ft[i * 2..(i + 1) * 2];
    FromLEOfLE(WrapUnsigned(m.vcellMv[i], 2), 2);
    ReadSLE(WrapSigned(m.tcellCc[i], 2), 2);
  }

  /** Unpacking a packed payload gives back every field, arrays after their numpy casts. */
  lemma {:induction false} ParsePayloadOfPayload(m: Measurement)
    requires Packable(m)
    ensures var d := ParsePayload(Payload(m));
      && d.timestampMs == m.timestampMs
      && (forall i :: 0 <= i < NumCells ==> d.vcellMv[i] == WrapUnsigned(m.vcellMv[i], 2))
      && (forall i :: 0 <= i < NumCells ==> d.tcellCc[i] == WrapSigned(m.tcellCc[i], 2))
      && d.packCurrentMa == m.packCurrentMa
      && d.packVoltageMv == m.packVoltageMv
      && d.statusFlags == m.statusFlags
  {
    PayloadSlices(m);
    FromLEOfLE(m.timestampMs, 4);
    ReadSLE(m.packCurrentMa, 4);
    FromLEOfLE(m.packVoltageMv, 4);
    FromLEOfLE(m.statusFlags, 4);
    var d := ParsePayload(Payload(m));
    forall i | 0 <= i < NumCells
      ensures d.vcellMv[i] == WrapUnsigned(m.vcellMv[i], 2)
      ensures d.tcellCc[i] == WrapSigned(m.tcellCc[i], 2)
    {
      PayloadCell(m, i);
    }
  }

  /**
   * `decode(encode(x))` returns every field and the sequence number modulo
   * 2^16; for arrays already in uint16 / int16 range the arrays come back
   * unchanged.
   */
  lemma {:induction false} RoundTrip(timestampMs: int, vcellMv: seq<int>, tcellCc: seq<int>, packCurrentMa: int,
                  packVoltageMv: int, statusFlags: int, sequence: int)
    requires Packable(Measurement(timestampMs, vcellMv, tcellCc, packCurrentMa, packVoltageMv, statusFlags))
    requires forall i :: 0 <= i < NumCells ==> 0 <= vcellMv[i] < 0x1_0000
    requires forall i :: 0 <= i < NumCells ==> -0x8000 <= tcellCc[i] < 0x8000
    ensures Encode(timestampMs, vcellMv, tcellCc, packCurrentMa, packVoltageMv, statusFlags, sequence).Success?
    ensures Decode(Encode(timestampMs, vcellMv, tcellCc, packCurrentMa, packVoltageMv, statusFlags, sequence).value)
      == Success(Some(DecodedFrame(
           Measurement(timestampMs, vcellMv, tcellCc, packCurrentMa, packVoltageMv, statusFlags),
           sequence % 0x1_0000)))
  {
    var m := Measurement(timestampMs, vcellMv, tcellCc, packCurrentMa, packVoltageMv, statusFlags);
    var seqNo := sequence % 0x1_0000;
    DecodeEnvelope(seqNo, Payload(m));
    ParsePayloadOfPayload(m);
    var d := ParsePayload(Payload(m));
    assert d.vcellMv == vcellMv;
    assert d.tcellCc == tcellCc;
  }

  // -----------------------------------------------------------------------
  // validate_afe_meas_data

  /** The Python values a measurement dictionary can hold. */
  datatype PyValue =
    | PyInt(i: int)
    | PyFloat(f: real)
    | NdArray(elems: seq<real>)
    | PyOther

  const RequiredFields: seq<string> :=
    ["timestamp_ms", "vcell_mv", "tcell_cc", "pack_current_ma", "pack_voltage_mv", "status_flags"]

  /** The first of `fields` the dictionary lacks. */
  function FirstMissing(d: map<string, PyValue>, fields: seq<string>): (r: Option<string>)
    ensures r.None? <==> forall k :: 0 <= k < |fields| ==> fields[k] in d
    ensures r.Some? ==> r.value !in d && r.value in fields
  {
    if |fields| == 0 then None
    else if fields[0] !in d then Some(fields[0])
    else FirstMissing(d, fields[1..])
  }

  predicate AllWithin(xs: seq<real>, lo: real, hi: real)
  {
    forall k :: 0 <= k < |xs| ==> lo <= xs[k] <= hi
  }

  function Numeric(v: PyValue): (r: Option<real>)
  {
    match v
    case PyInt(i) => Some(i as real)
    case PyFloat(f) => Some(f)
    case _ => None
  }

  /** `(is_valid, error_message)`. */
  datatype Verdict = Verdict(isValid: bool, error: Option<string>)

  const Int32Min: real := -2147483648.0
  const Int32Max: real := 2147483647.0
  const UInt32Max: real := 4294967295.0

  /** Every required field is present. */
  predicate HasRequired(d: map<string, PyValue>)
  {
    "timestamp_ms" in d && "vcell_mv" in d && "tcell_cc" in d
    && "pack_current_ma" in d && "pack_voltage_mv" in d && "status_flags" in d
  }

  predicate VcellShaped(d: map<string, PyValue>)
    requires HasRequired(d)
  {
    d["vcell_mv"].NdArray? && |d["vcell_mv"].elems| == 16
  }

  predicate TcellShaped(d: map<string, PyValue>)
    requires HasRequired(d)
  {
    d["tcell_cc"].NdArray? && |d["tcell_cc"].elems| == 16
  }

  predicate CurrentInRange(d: map<string, PyValue>)
    requires HasRequired(d) && Numeric(d["pack_current_ma"]).Some?
  {
    Int32Min <= Numeric(d["pack_current_ma"]).value <= Int32Max
  }

  predicate VoltageInRange(d: map<string, PyValue>)
    requires HasRequired(d) && Numeric(d["pack_voltage_mv"]).Some?
  {
    0.0 <= Numeric(d["pack_voltage_mv"]).value <= UInt32Max
  }

  /** Every field present, of its type and within its range. */
  predicate Acceptable(d: map<string, PyValue>)
  {
    && HasRequired(d)
    && VcellShaped(d) && AllWithin(d["vcell_mv"].elems, 0.0, 65535.0)
    && TcellShaped(d) && AllWithin(d["tcell_cc"].elems, -32768.0, 32767.0)
    && Numeric(d["pack_current_ma"]).Some? && CurrentInRange(d)
    && Numeric(d["pack_voltage_mv"]).Some? && VoltageInRange(d)
    && d["status_flags"].PyInt? && 0 <= d["status_flags"].i <= 4294967295
  }

  /**
   * `validate_afe_meas_data`: the first missing field, then each field's
   * type and range in order, each with its own message; a dictionary is
   * accepted exactly when it is `Acceptable`.
   */
  function Validate(d: map<string, PyValue>): (r: Verdict)
    ensures r.isValid <==> r.error.None?
    ensures r.isValid <==> Acceptable(d)
    ensures FirstMissing(d, RequiredFields).Some? ==>
      r == Verdict(false, Some("Missing required field: " + FirstMissing(d, RequiredFields).value))
    ensures FirstMissing(d, RequiredFields).None? <==> HasRequired(d)
    ensures HasRequired(d) && !VcellShaped(d) ==>
      r.error == Some("vcell_mv must be numpy array with 16 elements")
    ensures HasRequired(d) && VcellShaped(d) && !AllWithin(d["vcell_mv"].elems, 0.0, 65535.0) ==>
      r.error == Some("vcell_mv values must be in range [0, 65535] mV")
    ensures HasRequired(d) && VcellShaped(d) && AllWithin(d["vcell_mv"].elems, 0.0, 65535.0) ==>
      && (!TcellShaped(d) ==> r.error == Some("tcell_cc must be numpy array with 16 elements"))
      && (TcellShaped(d) && !AllWithin(d["tcell_cc"].elems, -32768.0, 32767.0) ==>
            r.error == Some("tcell_cc values must be in range [-32768, 32767] centi-°C"))
    ensures HasRequired(d) && VcellShaped(d) && AllWithin(d["vcell_mv"].elems, 0.0, 65535.0)
            && TcellShaped(d) && AllWithin(d["tcell_cc"].elems, -32768.0, 32767.0) ==>
      && (Numeric(d["pack_current_ma"]).None? ==> r.error == Some("pack_current_ma must be numeric"))
      && (Numeric(d["pack_current_ma"]).Some? && !CurrentInRange(d) ==>
            r.error == Some("pack_current_ma must be in range [-2147483648, 2147483647] mA"))
      && (Numeric(d["pack_current_ma"]).Some? && CurrentInRange(d) ==>
            && (Numeric(d["pack_voltage_mv"]).None? ==> r.error == Some("pack_voltage_mv must be numeric"))
            && (Numeric(d["pack_voltage_mv"]).Some? && !VoltageInRange(d) ==>
                  r.error == Some("pack_voltage_mv must be in range [0, 4294967295] mV"))
            && (Numeric(d["pack_voltage_mv"]).Some? && VoltageInRange(d) ==>
                  && (!d["status_flags"].PyInt? ==> r.error == Some("status_flags must be integer"))
                  && (d["status_flags"].PyInt? && !(0 <= d["status_flags"].i <= 4294967295) ==>
                        r.error == Some("status_flags must be in range [0, 4294967295]"))))
  {
    var missing := FirstMissing(d, RequiredFields);
    if missing.Some? then Verdict(false, Some("Missing required field: " + missing.value))
    else
      assert RequiredFields[1] in d && RequiredFields[2] in d && RequiredFields[3] in d;
      assert RequiredFields[4] in d && RequiredFields[5] in d;
      var vcell, tcell := d["vcell_mv"], d["tcell_cc"];
      var current, voltage, flags := d["pack_current_ma"], d["pack_voltage_mv"], d["status_flags"];
      if !vcell.NdArray? || |vcell.elems| != 16 then
        Verdict(false, Some("vcell_mv must be numpy array with 16 elements"))
      else if !AllWithin(vcell.elems, 0.0, 65535.0) then
        Verdict(false, Some("vcell_mv values must be in range [0, 65535] mV"))
      else if !tcell.NdArray? || |tcell.elems| != 16 then
        Verdict(false, Some("tcell_cc must be numpy array with 16 elements"))
      else if !AllWithin(tcell.elems, -32768.0, 32767.0) then
        Verdict(false, Some("tcell_cc values must be in range [-32768, 32767] centi-°C"))
      else if Numeric(current).None? then
        Verdict(false, Some("pack_current_ma must be numeric"))
      else if Numeric(current).value < Int32Min || Numeric(current).value > Int32Max then
        Verdict(false, Some("pack_current_ma must be in range [-2147483648, 2147483647] mA"))
      else if Numeric(voltage).None? then
        Verdict(false, Some("pack_voltage_mv must be numeric"))
      else if Numeric(voltage).value < 0.0 || Numeric(voltage).value > UInt32Max then
        Verdict(false, Some("pack_voltage_mv must be in range [0, 4294967295] mV"))
      else if !flags.PyInt? then
        Verdict(false, Some("status_flags must be integer"))
      else if flags.i < 0 || flags.i > 4294967295 then
        Verdict(false, Some("status_flags must be in range [0, 4294967295]"))
      else Verdict(true, None)
  }

  function AsReals(xs: seq<int>): (r: seq<real>)
    ensures |r| == |xs| && forall k :: 0 <= k < |xs| ==> r[k] == xs[k] as real
  {
    seq(|xs|, k requires 0 <= k < |xs| => xs[k] as real)
  }

  /**
   * A dictionary of integers that passes validation encodes without raising,
   * provided its timestamp fits uint32 (the validator does not check it) and
   * the current and voltage are Python ints rather than floats.
   */
  lemma {:induction false} ValidatedDataEncodes(timestampMs: int, vcellMv: seq<int>, tcellCc: seq<int>, packCurrentMa: int,
                             packVoltageMv: int, statusFlags: int, sequence: int)
    requires InUnsigned(timestampMs, 4)
    requires Validate(map[
      "timestamp_ms" := PyInt(timestampMs), "vcell_mv" := NdArray(AsReals(vcellMv)),
      "tcell_cc" := NdArray(AsReals(tcellCc)), "pack_current_ma" := PyInt(packCurrentMa),
      "pack_voltage_mv" := PyInt(packVoltageMv), "status_flags" := PyInt(statusFlags)]).isValid
    ensures Decode(Encode(timestampMs, vcellMv, tcellCc, packCurrentMa, packVoltageMv, statusFlags, sequence).value)
      == Success(Some(DecodedFrame(
           Measurement(timestampMs, vcellMv, tcellCc, packCurrentMa, packVoltageMv, statusFlags),
           sequence % 0x1_0000)))
  {
    var d := map[
      "timestamp_ms" := PyInt(timestampMs), "vcell_mv" := NdArray(AsReals(vcellMv)),
      "tcell_cc" := NdArray(AsReals(tcellCc)), "pack_current_ma" := PyInt(packCurrentMa),
      "pack_voltage_mv" := PyInt(packVoltageMv), "status_flags" := PyInt(statusFlags)];
    assert d["vcell_mv"].elems == AsReals(vcellMv);
    assert d["tcell_cc"].elems == AsReals(tcellCc);
    forall i | 0 <= i < NumCells
      ensures 0 <= vcellMv[i] < 0x1_0000 && -0x8000 <= tcellCc[i] < 0x8000
    {
      assert AsReals(vcellMv)[i] == vcellMv[i] as real;
      assert AsReals(tcellCc)[i] == tcellCc[i] as real;
    }
    RoundTrip(timestampMs, vcellMv, tcellCc, packCurrentMa, packVoltageMv, statusFlags, sequence);
  }

  /** The dictionary of the valid-frame test passes. */
  lemma {:induction false} CanonicalFrameIsValid()
    ensures Validate(map[
      "timestamp_ms" := PyInt(1000), "vcell_mv" := NdArray(seq(16, _ => 3200.0)),
      "tcell_cc" := NdArray(seq(16, _ => 2500.0)), "pack_current_ma" := PyInt(50000),
      "pack_voltage_mv" := PyInt(51200), "status_flags" := PyInt(0)]) == Verdict(true, None)
  {
    var d := map[
      "timestamp_ms" := PyInt(1000), "vcell_mv" := NdArray(seq(16, _ => 3200.0)),
      "tcell_cc" := NdArray(seq(16, _ => 2500.0)), "pack_current_ma" := PyInt(50000),
      "pack_voltage_mv" := PyInt(51200), "status_flags" := PyInt(0)];
    assert forall k :: 0 <= k < |RequiredFields| ==> RequiredFields[k] in d;
    assert FirstMissing(d, RequiredFields).None?;
    assert AllWithin(d["vcell_mv"].elems, 0.0, 65535.0);
    assert AllWithin(d["tcell_cc"].elems, -32768.0, 32767.0);
  }
}
