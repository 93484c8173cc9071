# Battery-Pack-Simulator in Dafny

A model of the simulation core of Battery-Pack-Simulator: a PC-side simulator
of a 16-cell LiFePO4 pack that feeds an embedded battery-management system.
The model covers:

- the plant: one cell's equivalent-circuit model (`CellModel`, the class
  `LiFePO4Cell`), the 16-cell pack with its thermal coupling (`PackModel`,
  the class `BatteryPack16S`), the OCV table generator (`OcvGenerator`) and
  the current profiles that drive a run (`CurrentProfiles`);
- the analogue front-end emulator (`AfeEmulator`, the class `AFEWrapper`):
  calibration, noise, fault injection, the fault schedule and the 32-bit
  status word;
- the three wire formats: the AFE measurement frame with its CRC-16/CCITT
  (`AfeMeasProtocol`, `Crc16`), the XBB frame with its table-driven CRC-8
  (`XbbProtocol`) and the MCU software-in-the-loop frame (`McuProtocol`, the
  class `SilFrameEncoder`), with the big-endian packers they share
  (`BigEndianPack`).

`Wrappers` holds `Option`, `Result` and `Outcome`, and the Python exception
kinds a call can raise (`ValueError`, `struct.error`, `ZeroDivisionError`,
`IndexError`, `TypeError`). `Bytes` and `Bits` hold the little- and
big-endian codes, Python's two's-complement wrap-arounds, `int()`
truncation, and bitwise OR and AND-NOT on non-negative integers. `Text`
holds ASCII lower-casing for the enum lookups.

Objects whose methods update fields in place are classes. Each has a
`Valid()` invariant, and every method's `ensures` ties the new state to a
pure function of the old one: `Aged`, `UpdateStep`, `Coupled`, `PassFrom`,
`MeasuredVoltages`, `Data` and so on. The properties the source promises
are then lemmas about those functions. Randomness, the wall clock, `exp`
and `sqrt` are parameters.

## Model

| member | source | states |
|---|---|---|
| Crc16.Checksum | pc_simulator/communication/protocol.py:24-52 | the frame checksum both framings use is the CRC from 0xFFFF and fits in 16 bits |
| Crc16.Crc16Ccitt | pc_simulator/communication/protocol.py:24-52 | the byte-by-byte, bit-by-bit loop computes the CRC-16/CCITT (poly 0x1021, init 0xFFFF) defined by `Crc`; the same routine is `crc16_ccitt_be` in protocol_mcu.py:31-54 |
| Crc16.CrcAppend | pc_simulator/communication/protocol.py:24-52 | the CRC of `a + b` is the CRC of `b` started from the register left by `a`, so a frame's CRC can be computed in pieces |
| Crc16.CheckValue | tests/test_uart_tx.py:124-133 | the empty input gives 0xFFFF and "123456789" gives 0x29B1, the catalogue value of CRC-16/CCITT-FALSE |
| Crc16.ResidueZero | pc_simulator/communication/protocol_mcu.py:31-54 | appending a message's CRC big-endian and running the CRC over the result leaves residue 0, so a receiver can verify a frame in one pass |
| BigEndianPack.PackInt16BE | pc_simulator/communication/protocol_mcu.py:57-59 | `struct.pack('>h')`: outside [-32768, 32767], struct.error "'h' format requires -32768 <= number <= 32767"; inside, two bytes that read back as the value |
| BigEndianPack.PackUInt16BE | pc_simulator/communication/protocol_mcu.py:62-64 | `value & 0xFFFF` first, so it never fails and reads back as the value mod 2^16 |
| BigEndianPack.PackInt32BE | pc_simulator/communication/protocol_mcu.py:67-69 | `struct.pack('>i')`: outside the int32 range, struct.error "'i' format requires -2147483648 <= number <= 2147483647"; inside, four bytes that read back as the value |
| BigEndianPack.PackUInt32BE | pc_simulator/communication/protocol_mcu.py:72-74 | masked to 32 bits, never fails, reads back as the value mod 2^32 |
| BigEndianPack.PackFloatZeroBE | pc_simulator/communication/protocol_mcu.py:77-79 | the float32 code of 0.0 is four zero bytes |
| Bytes.FromLEOfLE | pc_simulator/communication/protocol.py:103-111 | a value below 256^n encoded in n little-endian bytes decodes back to itself |
| Bytes.LEOfFromLE | pc_simulator/communication/protocol.py:173-180 | n bytes decoded and re-encoded little-endian are the same bytes |
| Bytes.FromBEOfBE | pc_simulator/communication/protocol_mcu.py:57-74 | the big-endian round trip, value first |
| Bytes.BEOfFromBE | pc_simulator/communication/protocol_mcu.py:57-74 | the big-endian round trip, bytes first |
| Bytes.SignedOfUnsigned | pc_simulator/communication/protocol.py:173-180 | reading the two's-complement code of an in-range signed value gives the value |
| Bytes.WrapUnsigned | pc_simulator/communication/protocol.py:116 | `v & (2^(8n) - 1)` and numpy's unsigned cast lie in [0, 2^(8n)) and leave an in-range value unchanged |
| Bytes.WrapSigned | pc_simulator/afe/wrapper.py:268-271 | numpy's signed cast lies in the signed n-byte range and leaves an in-range value unchanged |
| Bytes.Trunc | pc_simulator/communication/protocol_xbb.py:125-130 | Python's `int()` rounds toward zero: the floor for non-negative inputs, the ceiling for negative ones |
| Bits.OrBit | pc_simulator/afe/wrapper.py:352-372 | bit i of `a \| b` is set exactly when bit i of a or of b is |
| Bits.AndNotBit | pc_simulator/afe/wrapper.py:402-421 | bit i of `a & ~b` is set exactly when it is set in a and clear in b |
| Bits.PowBit | pc_simulator/afe/wrapper.py:295-321 | `1 << i` has bit i and no other |
| AfeMeasProtocol.Payload | pc_simulator/communication/protocol.py:68-69 | the `<I16H16hiII` payload is 80 bytes: timestamp, 16 uint16 voltages, 16 int16 temperatures, current, voltage and flags |
| AfeMeasProtocol.Encode | pc_simulator/communication/protocol.py:72-129 | the ValueError messages for a wrong number of voltages or temperatures, ending in ", got " and the decimal length; success exactly when every field fits its struct code; otherwise the struct.error of the first field out of range in payload order: "'I' format requires 0 <= number <= 4294967295" for the timestamp, "'i' format requires -2147483648 <= number <= 2147483647" for the current, then the `I` text for the voltage or flags; an 88-byte frame of SOF, msg id 0x01, length 80, sequence mod 2^16, the payload, the CRC over bytes 1..84 and EOF |
| AfeMeasProtocol.EnvelopeLayout | pc_simulator/communication/protocol.py:116-127 | the envelope's fields sit at their offsets and the CRC field reads back as the CRC of the header and payload |
| AfeMeasProtocol.ParsePayload | pc_simulator/communication/protocol.py:173-180 | an 80-byte payload unpacks into fields in their struct ranges, which pack again |
| AfeMeasProtocol.Decode | pc_simulator/communication/protocol.py:132-190 | None for a short buffer, a wrong SOF or EOF, a foreign msg id, a size that disagrees with the length byte, or a CRC mismatch; a struct.error only for a frame whose length is not 88; a decoded frame is 88 bytes with a 16-bit sequence number |
| AfeMeasProtocol.DecodeEnvelope | pc_simulator/communication/protocol.py:162-180 | a well-formed envelope decodes exactly when its payload is 80 bytes, else struct.error("unpack requires a buffer of 80 bytes") |
| AfeMeasProtocol.DecodeAcceptsOnlyEnvelopes | pc_simulator/communication/protocol.py:143-170 | anything `decode` does not reject is the envelope of its own sequence number and payload, so its CRC matches |
| AfeMeasProtocol.ParsePayloadOfPayload | pc_simulator/communication/protocol.py:103-111 | parsing a packed payload gives each field back after its struct cast |
| AfeMeasProtocol.RoundTrip | tests/test_uart_tx.py:96-122 | decoding an encoded frame gives back the voltages, temperatures, current, voltage, flags and timestamp, and the sequence number mod 2^16 |
| AfeMeasProtocol.FirstMissing | pc_simulator/communication/protocol.py:204-208 | a required key absent from the input, and none exactly when every required key is present |
| AfeMeasProtocol.Validate | pc_simulator/communication/protocol.py:193-245 | valid exactly when no error is reported, and exactly when the record is `Acceptable`: every required field present, 16 voltages in [0, 65535], 16 temperatures in [-32768, 32767], a numeric int32 current, a numeric voltage in [0, 2^32 - 1] and integer flags in the uint32 range; the first missing field is reported as "Missing required field: " and its name, and otherwise the first failing check, in the source's order, gives its own message |
| AfeMeasProtocol.ValidatedDataEncodes | pc_simulator/communication/protocol.py:193-245 | a dictionary of integers the validator accepts, with a uint32 timestamp, encodes and decodes back to the same fields |
| AfeMeasProtocol.CanonicalFrameIsValid | tests/test_uart_tx.py:30-73 | the record of 3200 mV cells at 25.00 degrees is accepted with no error |
| XbbProtocol.TableIsPolynomial07 | pc_simulator/communication/protocol_xbb.py:31-65 | all 256 entries of the shipped CRC-8 table equal the table derived from polynomial 0x07 |
| XbbProtocol.TableDrivenIsBitwise | pc_simulator/communication/protocol_xbb.py:68-81 | folding bytes in through the table computes the bitwise CRC-8 with polynomial 0x07 |
| XbbProtocol.GenerateCrc8 | pc_simulator/communication/protocol_xbb.py:68-81 | the table loop computes the CRC-8 from register 0; the empty input gives 0 |
| XbbProtocol.PayloadValues | pc_simulator/communication/protocol_xbb.py:133-149 | the payload carries 20 int32 values: current, voltage, the two temperatures and the 16 cells |
| XbbProtocol.FrameFields | pc_simulator/communication/protocol_xbb.py:155-162 | the 87 bytes before the CRC are the header A5 33 00 00 00 50, the 20 fields in order, and B5 |
| XbbProtocol.EncodeFrame | pc_simulator/communication/protocol_xbb.py:100-171 | ValueError unless there are 16 cells, its message ending in ", got " and the decimal length; success exactly then and when the four leading values fit int32, otherwise struct.error; an 88-byte frame whose last byte is the CRC-8 of the 87 before it and whose 20 fields read back as the payload values |
| McuProtocol.PackSignedBE | pc_simulator/communication/protocol_mcu.py:57-69 | a signed field succeeds exactly in range, and then reads back as the value; otherwise it fails with the `'h'` or `'i'` range error of its width |
| McuProtocol.PackUnsignedBE | pc_simulator/communication/protocol_mcu.py:62-74 | an unsigned field is w bytes and reads back as the value mod 2^(8w) |
| McuProtocol.SignedFieldsRead | pc_simulator/communication/protocol_mcu.py:169-177 | field k of a successful run of signed fields reads back as the k-th value |
| McuProtocol.UnsignedFieldsRead | pc_simulator/communication/protocol_mcu.py:180-183 | field k of a run of unsigned fields reads back as the k-th value mod 2^(8w) |
| McuProtocol.CellVoltageSection | pc_simulator/communication/protocol_mcu.py:169-183 | section 1 raises numpy's ValueError "cannot reshape array of size N into shape (strings,modules,cells)", with the sizes in decimal, for a wrong cell count, and succeeds exactly when every masked slot fits int16; it then has 2 bytes per cell and 4 per module |
| McuProtocol.CellVoltageSlot | pc_simulator/communication/protocol_mcu.py:169-177 | slot i reads 0 when status bit (i mod cells) is set, else cell i's voltage |
| McuProtocol.ModuleVoltageField | pc_simulator/communication/protocol_mcu.py:180-183 | module j's field is the uint32 sum of that module's cells, mod 2^32 |
| McuProtocol.TemperatureSection | pc_simulator/communication/protocol_mcu.py:186-194 | section 2 raises numpy's ValueError "cannot reshape array of size N into shape (strings,modules,sensors)", with the sizes in decimal, for a wrong sensor count, and succeeds exactly when every masked slot fits int16, with 2 bytes per sensor |
| McuProtocol.TemperatureSlot | pc_simulator/communication/protocol_mcu.py:186-194 | slot i reads 0 when status bit 16 + (i mod sensors) is set, else sensor i's temperature |
| McuProtocol.BalancingSlot | pc_simulator/communication/protocol_mcu.py:197-205 | section 3's slot for string s and module m is feedback[s][m] as uint16, or 0 with no feedback; a table too small raises IndexError |
| McuProtocol.OpenWireFields | pc_simulator/communication/protocol_mcu.py:208-227 | each string's block is the uint16 count, equal to the popcount of `status & 0xFFFF` when no mask is given, then the array |
| McuProtocol.AuxSlot | pc_simulator/communication/protocol_mcu.py:230-255 | sections 5 and 6: slot j of every string is the j-th given voltage as int16, or 0 past the given ones or when none are given |
| McuProtocol.SensorFieldsAreRow | pc_simulator/communication/protocol_mcu.py:259-286 | section 7 for one string is the seven int32 values of current, sensor temperature, power, charge, energy and the two taps, in order |
| McuProtocol.SensorSectionShape | pc_simulator/communication/protocol_mcu.py:259-286 | section 7 succeeds exactly when every string's fields do, and then has 28 bytes per string |
| McuProtocol.PackValuesPerString | pc_simulator/communication/protocol_mcu.py:292-314 | section 8 for string s holds the sum of that string's cells, then the pack current, then the power |
| McuProtocol.DigitalInputs | pc_simulator/communication/protocol_mcu.py:318-352 | section 9 is a fixed block of 102 bytes |
| McuProtocol.DataHasLength | pc_simulator/communication/protocol_mcu.py:128-352 | every payload that encodes has the length its shape fixes, section by section |
| McuProtocol.DefaultFrameLength | pc_simulator/test_mcu_protocol.py:62-98 | the default 1 x 1 x 16 pack sends 267 bytes of data in a 274-byte frame |
| McuProtocol.EnvelopeLayout | pc_simulator/communication/protocol_mcu.py:355-367 | AA 01, the data length mod 2^16 big-endian, the data, the CRC-16 of the data big-endian, 55: seven bytes more than the data |
| McuProtocol.PackSigned | pc_simulator/communication/protocol_mcu.py:169-177 | the packing loop over a run of signed fields gives what `SignedFields` defines, failing at the first value out of range |
| McuProtocol.EncodeOpenWire | pc_simulator/communication/protocol_mcu.py:208-227 | the byte loop of section 4 gives the count and array block for every string |
| McuProtocol.EncodeMeasurements | pc_simulator/communication/protocol_mcu.py:169-255 | sections 1 to 6 in the source's order, or the first error raised |
| McuProtocol.SilFrameEncoder.constructor | pc_simulator/communication/protocol_mcu.py:111-126 | the shape is kept, both counter arrays are zero per string, and no frame has been timed yet |
| McuProtocol.SilFrameEncoder.EncodeString | pc_simulator/communication/protocol_mcu.py:259-286 | string s's fields are `SensorFields` of its advanced counters; its Coulomb counter advances once current, temperature and power are packed, its energy counter only once the Coulomb counter is packed too (`ChargeAfterString`, `EnergyAfterString`), so a failure leaves them advanced that far; other strings are untouched |
| McuProtocol.SilFrameEncoder.EncodeFrame | pc_simulator/communication/protocol_mcu.py:128-369 | the frame is the envelope of the data payload; the recorded timestamp changes exactly when sections 1 to 7 were packed; an error in sections 1 to 6 leaves both counter arrays as they were, and otherwise they become `CurrentCountersAfter` and `EnergyCountersAfter` whether section 7 completes or raises |
| McuProtocol.SilFrameEncoder.EncodeCurrentSensor | pc_simulator/communication/protocol_mcu.py:265-286 | section 7's loop gives `SensorSection` of the advanced counters, and leaves the counter arrays at `CurrentCountersAfter` and `EnergyCountersAfter`, on success and on failure |
| McuProtocol.CollectPrefix | pc_simulator/communication/protocol_mcu.py:265-286 | when the strings' fields all pack, so do those of every leading run of strings |
| McuProtocol.SensorCountersOnSuccess | pc_simulator/communication/protocol_mcu.py:273-280 | when section 7 completes, every string's counters have advanced by exactly one step |
| McuProtocol.SensorCountersOnFailure | pc_simulator/communication/protocol_mcu.py:265-280 | when string s is the first whose fields do not pack, the earlier strings' counters have advanced, string s's Coulomb counter has advanced if its first three fields packed and its energy counter if its Coulomb counter packed as well, and the later strings' counters are untouched |
| McuProtocol.SilFrameEncoder.ResetCounters | pc_simulator/communication/protocol_mcu.py:371-375 | both counter arrays back to zero and the timestamp to 0 |
| OcvGenerator.LookupSpec | pc_simulator/plant/interpolate_ocv_table.py:21-22 | the lookup finds a value exactly for the key SOCs |
| OcvGenerator.LowerKeySpec | pc_simulator/plant/interpolate_ocv_table.py:25 | the lower key is the largest key at most the SOC, none only when every key is above it |
| OcvGenerator.UpperKeySpec | pc_simulator/plant/interpolate_ocv_table.py:26 | the upper key is the smallest key at least the SOC, none only when every key is below it |
| OcvGenerator.KeyValueExact | pc_simulator/plant/interpolate_ocv_table.py:21-22 | at a key SOC the generated value is that key's OCV |
| OcvGenerator.SegmentValue | pc_simulator/plant/interpolate_ocv_table.py:32-36 | between two neighbouring keys the generated value is their linear interpolation rounded to 3 places |
| OcvGenerator.InterpolationBetweenKeys | pc_simulator/plant/interpolate_ocv_table.py:25-36 | away from the keys, the nearest keys below and above exist and the value lies between their OCVs |
| OcvGenerator.GeneratedIsDischargeTable | pc_simulator/plant/interpolate_ocv_table.py:17-36 | all 101 generated rows equal the discharge table of cell_model.py:41-144 |
| OcvGenerator.KeysAreDischargeRows | pc_simulator/plant/interpolate_ocv_table.py:5-14 | the key points are the discharge table's rows at 0, 5, 10, 20, 50, 80, 90 and 100 % |
| OcvGenerator.GenerateTable | pc_simulator/plant/interpolate_ocv_table.py:17-36 | the loop gives 101 values, one per SOC percent, and they are the discharge table |
| CellModel.TableLengths | pc_simulator/plant/cell_model.py:41-251 | both OCV tables have 101 rows, one per SOC percent |
| CellModel.InterpAtPoint | pc_simulator/plant/cell_model.py:418-434 | `np.interp` at a breakpoint is that table's value |
| CellModel.InterpBetween | pc_simulator/plant/cell_model.py:418-434 | between two breakpoints the interpolation lies between their values |
| CellModel.OcvAtTablePoint | pc_simulator/plant/cell_model.py:382-442 | at a table point the OCV is the row of the chosen curve, shifted by -0.5 mV per degree from 25 degrees |
| CellModel.OcvDischargeMidpoint | pc_simulator/plant/cell_model.py:93 | the discharge curve at 50 % and 25 degrees is 3.297 V |
| CellModel.OcvRestFollowsLast | pc_simulator/plant/cell_model.py:418-434 | at rest, or with no direction given, a cell with history uses the curve of its last direction |
| CellModel.OcvTemperatureShift | pc_simulator/plant/cell_model.py:440 | the OCV moves by exactly -0.5 mV per degree on every curve |
| CellModel.R0TempFactor | pc_simulator/plant/cell_model.py:483-484 | the temperature factor of R0 is never below 0.5 |
| CellModel.R0SocFactorBounds | pc_simulator/plant/cell_model.py:473-478 | the SOC factor of R0 lies in [0.75, 1.4] |
| CellModel.R0Nominal | pc_simulator/plant/cell_model.py:444-489 | 0.5 milliohm at 50 % and 25 degrees with unit multipliers |
| CellModel.R0Positive | pc_simulator/plant/cell_model.py:444-489 | R0 of a consistent cell is strictly positive |
| CellModel.R0FallsWithSoc | pc_simulator/plant/cell_model.py:473-478 | a higher SOC never gives a larger R0 |
| CellModel.R0FallsWithTemperature | pc_simulator/plant/cell_model.py:483-484 | a higher temperature never gives a larger R0 |
| CellModel.CycleFadeFactor | pc_simulator/plant/cell_model.py:347-348 | the cycle fade factor `1 - 0.0001 sqrt(cycles)` is never below its 0.5 floor |
| CellModel.CalendarFadeFactor | pc_simulator/plant/cell_model.py:353-371 | the calendar fade is capped at 30 %: the factor is never below 0.7, for a storage SOC in [0, 1] |
| CellModel.AgingFloors | pc_simulator/plant/cell_model.py:338-380 | aging changes only the capacity and the resistance multiplier; the multiplier is 1 + 0.001 max(cycles, 0), never below 1, and the capacity keeps at least half the nominal one |
| CellModel.AgingNeverGains | pc_simulator/plant/cell_model.py:338-380 | aging never raises the capacity above nominal and never sets a resistance multiplier below 1 |
| CellModel.AgingRaisesResistance | tests/test_cell_model.py:129-146 | R0 after aging is at least R0 with a unit aging multiplier, and more cycles never give a smaller R0 |
| CellModel.FreshCellUnaged | tests/test_cell_model.py:109-114 | a new cell without cycles or calendar time is at full capacity with unit resistance aging |
| CellModel.InitialStateFacts | pc_simulator/plant/cell_model.py:284-336 | `__init__` gives a consistent cell: the SOC clipped to [0, 1], the base multiplier floored at 0.1, no RC voltage, no direction, no calendar time, and the hysteresis and storage SOC keep the unclipped argument |
| CellModel.ThermalStep | pc_simulator/plant/cell_model.py:491-530 | the new temperature lies in [-40, 85], a given ambient is stored, and nothing else changes |
| CellModel.ThermalRelaxes | pc_simulator/plant/cell_model.py:505-530 | without current, for steps up to 200 s, the temperature moves toward the ambient and does not pass it |
| CellModel.RcScale | pc_simulator/plant/cell_model.py:597-610 | the C-rate scale of the RC resistances lies in [0.3, 1] |
| CellModel.CapacityNonZero | pc_simulator/plant/cell_model.py:566-567 | the temperature-dependent capacity `update` divides by is not zero |
| CellModel.UpdateBounds | pc_simulator/plant/cell_model.py:532-667 | `update` keeps the cell consistent with its SOC in [0, 1], returns at least 2500 mV, reports 100 times its SOC and keeps the nominal capacity, base multiplier and cycles |
| CellModel.UpdateTemperature | pc_simulator/plant/cell_model.py:559-562 | a forced temperature is stored unclamped and skips the thermal step (and the ambient); otherwise the temperature ends in [-40, 85]; the storage temperature follows it |
| CellModel.UpdateDirection | pc_simulator/plant/cell_model.py:580-592 | charging beyond 0.001 mA records direction 1 and discharging -1; the dead zone keeps the last direction; the hysteresis SOC is replaced exactly when a non-zero direction differs from the last one |
| CellModel.UpdateCalendar | pc_simulator/plant/cell_model.py:648-661 | calendar hours grow by dt, the storage SOC is taken at rest only, and the aging time stamp moves once more than an hour has passed |
| CellModel.UpdateSocDirection | tests/test_cell_model.py:151-188 | with a positive capacity, charging never lowers the SOC and discharging never raises it |
| CellModel.OwnArguments | pc_simulator/plant/cell_model.py:399-407 | passing the cell's own SOC in percent and its own temperature gives the same OCV and R0 as passing neither |
| CellModel.GetState | pc_simulator/plant/cell_model.py:682-700 | the report holds the SOC in percent (in [0, 100]), the OCV in mV and R0 at the cell's own SOC and temperature (R0 positive for a consistent cell), and the temperature, actual capacity, cycles, calendar hours, both RC voltages and the last direction as stored |
| CellModel.SetAgingFacts | pc_simulator/plant/cell_model.py:669-680 | `set_aging` floors both counters at 0 and re-ages at once |
| CellModel.ResetState | pc_simulator/plant/cell_model.py:702-716 | `reset` clips a new SOC, takes a new temperature, clears the RC voltages and the direction, and keeps the cell consistent |
| CellModel.LiFePO4Cell.constructor | pc_simulator/plant/cell_model.py:284-336 | the fields are the initial state `__init__` computes |
| CellModel.LiFePO4Cell.UpdateAging | pc_simulator/plant/cell_model.py:338-380 | the fields become the aged state |
| CellModel.LiFePO4Cell.UpdateThermal | pc_simulator/plant/cell_model.py:491-530 | the fields become one thermal step of the old state |
| CellModel.LiFePO4Cell.Update | pc_simulator/plant/cell_model.py:532-667 | the new state, the terminal voltage in mV and the SOC in percent are those of `UpdateStep`, whose bounds the lemmas above state |
| CellModel.LiFePO4Cell.SetAging | pc_simulator/plant/cell_model.py:669-680 | the fields become the re-aged state with the floored counters |
| CellModel.LiFePO4Cell.Reset | pc_simulator/plant/cell_model.py:702-716 | the fields become the reset state |
| PackModel.SeqMin | pc_simulator/plant/pack_model.py:276-293 | the minimum is one of the elements and at most every element |
| PackModel.SeqMax | pc_simulator/plant/pack_model.py:326-351 | the maximum is an element and at least every element |
| PackModel.MeanBetween | pc_simulator/plant/pack_model.py:276-293 | the mean lies between the minimum and the maximum |
| PackModel.CouplingConserves | pc_simulator/plant/pack_model.py:182-195 | the coupling energies sum to zero: heat only moves between cells |
| PackModel.CouplingAtEquilibrium | pc_simulator/plant/pack_model.py:182-195 | equal temperatures exchange no heat |
| PackModel.CouplingEnergies | pc_simulator/plant/pack_model.py:182-195 | the loop over every cell and its neighbours computes the coupling energies, each pair visited from both sides |
| PackModel.CoupledFacts | pc_simulator/plant/pack_model.py:200-207 | the coupling changes temperatures only, leaves overridden cells alone and keeps the others in [-40, 85] |
| PackModel.PackSocBounds | tests/test_pack_model.py:121-149 | the pack SOC of consistent cells lies in [0, 100] and the "average" mode never reads below "minimum" |
| PackModel.ImbalanceZeroIffBalanced | pc_simulator/plant/pack_model.py:343-348 | the voltage spread is zero exactly when every cell reports the same voltage, and the SOC spread is zero exactly when every cell has the same SOC |
| PackModel.SpreadState | pc_simulator/plant/pack_model.py:76-105 | a new cell is consistent, has the nominal capacity times the factor clipped to [0.98, 1.02], the SOC offset and clipped to [0, 1], the ambient temperature and the floored resistance factor, and is fresh: no cycles, no calendar time, no RC voltage, no direction |
| PackModel.BatteryPack16S.constructor | pc_simulator/plant/pack_model.py:37-119 | each cell is `SpreadState` of its draws, hence fresh; the coupling coefficient and SOC mode are stored; no overrides, no current, no cycles |
| PackModel.BatteryPack16S.Update | pc_simulator/plant/pack_model.py:121-164 | the current is recorded, each cell steps with it (forced to its override), then the coupling applies; overrides and cycles are unchanged |
| PackModel.BatteryPack16S.ApplyThermalCoupling | pc_simulator/plant/pack_model.py:166-207 | the cells become the coupled states of the old ones |
| PackModel.BatteryPack16S.GetCellVoltages | pc_simulator/plant/pack_model.py:209-227 | an override verbatim, else the cell's OCV in mV |
| PackModel.BatteryPack16S.GetCellTemperatures | pc_simulator/plant/pack_model.py:229-245 | an override verbatim, else the cell's own temperature |
| PackModel.BatteryPack16S.GetCellSocs | pc_simulator/plant/pack_model.py:247-255 | each cell's SOC in percent, in [0, 100]; overrides play no part |
| PackModel.BatteryPack16S.GetPackVoltage | pc_simulator/plant/pack_model.py:257-265 | the sum of the reported cell voltages |
| PackModel.BatteryPack16S.GetPackSoc | pc_simulator/plant/pack_model.py:276-293 | the mean or the minimum by mode, in [0, 100] and never below the minimum |
| PackModel.BatteryPack16S.GetCellImbalance | pc_simulator/plant/pack_model.py:326-351 | the extremes and spreads of the reported voltages and SOCs |
| PackModel.BatteryPack16S.SetCellVoltage | pc_simulator/plant/pack_model.py:295-306 | fails with "Cell index must be 0-15" exactly outside 0..15; otherwise sets or clears that override only |
| PackModel.BatteryPack16S.SetCellTemperature | pc_simulator/plant/pack_model.py:308-319 | the same for the temperature override |
| PackModel.BatteryPack16S.ClearAllFaults | pc_simulator/plant/pack_model.py:321-324 | every override cleared, the cells untouched |
| PackModel.BatteryPack16S.SetAging | pc_simulator/plant/pack_model.py:353-362 | every cell re-aged for the cycle count, which the pack records |
| PackModel.BatteryPack16S.Reset | pc_simulator/plant/pack_model.py:388-405 | every cell reset, the overrides and the current cleared |
| AfeEmulator.ParseFaultType | pc_simulator/afe/wrapper.py:346-350 | a known name in any letter case gives the fault type whose value it is; an unknown one gives "Unknown fault type: ..." |
| AfeEmulator.ParseFaultName | pc_simulator/afe/wrapper.py:346-350 | every fault type's own name parses back to it |
| AfeEmulator.InjectFaults | pc_simulator/afe/wrapper.py:352-372 | a per-channel kind ORs the mask into its own mask and needs one, failing without it with the kind's "cell_mask required for ..." message; the sensor kind sets its flag; a CRC error changes nothing; every other mask is kept |
| AfeEmulator.InjectThenClear | pc_simulator/afe/wrapper.py:402-421 | for a mask of any width, injecting and then clearing it leaves exactly its bits clear and the other masks as they were; with those bits clear before, the state is restored |
| AfeEmulator.ClearAllOfKind | pc_simulator/afe/wrapper.py:402-421 | clearing without a mask zeroes that kind's mask only |
| AfeEmulator.RoundHalfEven | pc_simulator/afe/wrapper.py:236-239 | `np.round`: within 0.5 of the input, strictly nearer unless it is a tie, and ties go to the even integer |
| AfeEmulator.RoundMonotone | pc_simulator/afe/wrapper.py:236-239 | rounding is monotone |
| AfeEmulator.QuantizeMv | pc_simulator/afe/wrapper.py:236-239 | a quantised voltage lies in [0, 6553.5] |
| AfeEmulator.QuantizeIdempotent | pc_simulator/afe/wrapper.py:236-239 | quantised voltages lie on the 0.1 mV grid, so quantising twice changes nothing |
| AfeEmulator.QuantizeError | pc_simulator/afe/wrapper.py:236-239 | an in-range reading moves by at most 0.05 mV |
| AfeEmulator.TempChannel | pc_simulator/afe/wrapper.py:243-273 | a temperature channel in centi-degrees lies in the int16 range |
| AfeEmulator.NtcSentinelOutOfRange | pc_simulator/afe/wrapper.py:264-271 | the NTC sentinel quantises to -32770 centi-degrees, outside int16 |
| AfeEmulator.NtcSentinelWrapsAsWritten | pc_simulator/afe/wrapper.py:268-271 | with the wrapping cast the sentinel reads 32766 and misses the NTC threshold |
| AfeEmulator.NtcSentinelFlagged | pc_simulator/afe/wrapper.py:314-317 | with the saturating cast an NTC fault reads -32768 and always meets the threshold |
| AfeEmulator.TempChannelInRange | pc_simulator/afe/wrapper.py:264-271 | a fault-free channel within range is within 5 centi-degrees of the input |
| AfeEmulator.CurrentChannel | pc_simulator/afe/wrapper.py:275-293 | a sensor fault forces 0 mA; otherwise the reading is a whole number of mA within 0.5 of the calibrated value |
| AfeEmulator.VoltageChannel | pc_simulator/afe/wrapper.py:216-233 | open wire reads 0 and keeps the stored value; a stuck channel with a stored value repeats it; otherwise the reading is stored |
| AfeEmulator.StuckChannelHolds | tests/test_afe_wrapper.py:153-179 | once a stuck channel holds a value, later readings repeat it whatever the input |
| AfeEmulator.StatusUnique | pc_simulator/afe/wrapper.py:295-321 | the status word is determined by its bits |
| AfeEmulator.StatusWordFits | pc_simulator/afe/wrapper.py:295-321 | with an open-wire mask below 2^16 the status word, and the reported word with bit 31, fits in 32 bits |
| AfeEmulator.NtcAliasesHighBits | pc_simulator/afe/wrapper.py:314-321 | an NTC fault on channel 14 sets bit 30, the current-fault bit, and before the CRC trial bit 31 is set exactly by NTC channel 15 or bit 31 of the open-wire mask |
| AfeEmulator.OpenWireFlagged | pc_simulator/afe/wrapper.py:297-311 | every bit of the open-wire mask shows in the status word, bits above 15 included; channel bit i is set exactly when channel i is open or reads 0.0 mV |
| AfeEmulator.StatisticsOf | pc_simulator/afe/wrapper.py:512-527 | the observed CRC error rate is count / max(n, 1), in [0, 1] when the count is at most n |
| AfeEmulator.Inject | pc_simulator/afe/wrapper.py:332-382 | an unknown name or a missing mask is the error raised; otherwise the fault state is `InjectFaults` of the resolved type, and a clear entry is appended exactly when a duration is given, for the same type and mask, due at now plus the duration |
| AfeEmulator.InjectedFaultExpires | pc_simulator/afe/wrapper.py:376-382 | the clear entry of a fault injected with duration d at now stays untouched by a pass before now + d, and the first pass at or after now + d clears the fault on the same mask and drops the entry |
| AfeEmulator.TimedFaultRestores | pc_simulator/afe/wrapper.py:376-421 | a per-channel fault injected for d ms on channels not faulted before leaves the fault state as it was after the first pass at or after its expiry |
| AfeEmulator.PassQuiet | pc_simulator/afe/wrapper.py:468-499 | a pass over entries none of which is due changes nothing and keeps them all, in order |
| AfeEmulator.PassLeavesQuiet | pc_simulator/afe/wrapper.py:468-499 | after a successful pass nothing due is left in the schedule |
| AfeEmulator.PassDropsPermanent | pc_simulator/afe/wrapper.py:478-486 | a successful pass keeps no injected entry without a duration |
| AfeEmulator.PassSettles | pc_simulator/afe/wrapper.py:468-499 | a second pass at the same time changes nothing |
| AfeEmulator.ScheduledEntryFires | pc_simulator/afe/wrapper.py:468-499 | a scheduled entry waits until its time, is injected once, and with a non-positive duration is cleared in the same pass |
| AfeEmulator.MeasuredVoltages | pc_simulator/afe/wrapper.py:204-241 | 16 voltages, each in [0, 6553.5] mV |
| AfeEmulator.MeasuredTemps | pc_simulator/afe/wrapper.py:243-273 | 16 temperatures, each in the int16 range |
| AfeEmulator.AFEWrapper.constructor | pc_simulator/afe/wrapper.py:69-156 | the calibration draws are kept; every fault, the schedule, the clock and the counters start cleared |
| AfeEmulator.AFEWrapper.StartSimulation | pc_simulator/afe/wrapper.py:458-466 | the clock starts now, so the current time reads 0; nothing else changes |
| AfeEmulator.AFEWrapper.InjectFault | pc_simulator/afe/wrapper.py:332-382 | the fault state and schedule become what `Inject` gives, or nothing changes and the error is returned |
| AfeEmulator.AFEWrapper.ClearFault | pc_simulator/afe/wrapper.py:384-421 | the fault state becomes what `ClearFaults` gives, or the unknown name is reported |
| AfeEmulator.AFEWrapper.ScheduleFault | pc_simulator/afe/wrapper.py:423-445 | one pending entry is appended, with any mask unchecked as the source stores it; nothing else changes |
| AfeEmulator.AFEWrapper.SetCrcErrorRate | pc_simulator/afe/wrapper.py:447-456 | a rate in [0, 1] is stored; any other raises "CRC error rate must be between 0.0 and 1.0" and changes nothing |
| AfeEmulator.AFEWrapper.UpdateFaultSchedule | pc_simulator/afe/wrapper.py:468-499 | the fault state and schedule become those of one pass at the current time; an error stops the pass |
| AfeEmulator.AFEWrapper.ProcessVoltages | pc_simulator/afe/wrapper.py:204-241 | the measured voltages and the stuck-ADC store are `MeasuredVoltages` and `StoredVoltages` of the calibrated readings |
| AfeEmulator.AFEWrapper.ProcessTemperatures | pc_simulator/afe/wrapper.py:243-273 | the channels are `MeasuredTemps`, with the saturating int16 cast |
| AfeEmulator.AFEWrapper.ProcessCurrent | pc_simulator/afe/wrapper.py:275-293 | the current channel of the calibrated reading |
| AfeEmulator.AFEWrapper.UpdateStatusFlags | pc_simulator/afe/wrapper.py:295-321 | the status word is the one word whose bits the open wires, the readings and the faults fix |
| AfeEmulator.StatusWord | pc_simulator/afe/wrapper.py:295-321 | the status loops build the word that agrees with `StatusBit` in every bit: the whole open-wire mask, 0.0 mV readings in bits 0-15, NTC readings at or below -32000 in bits 16-31, bit 30 for a current fault or a zero current; below 2^32 when the mask is below 2^16 |
| AfeEmulator.MarkCrcHit | pc_simulator/afe/wrapper.py:197-200 | setting bit 31 on a CRC hit turns a matching status word into the reported word, below 2^32 when the mask is below 2^16 |
| AfeEmulator.AFEWrapper.ProcessChannels | pc_simulator/afe/wrapper.py:184-191 | the three readings are `MeasuredVoltages`, `MeasuredTemps` and `CurrentChannel` of the inputs, the calibration, the draws and the fault state; the stuck-ADC store becomes `StoredVoltages` |
| AfeEmulator.AFEWrapper.ReportChannels | pc_simulator/afe/wrapper.py:193-202 | the status word is rebuilt from the readings; a CRC hit adds one to the error count and sets bit 31; the readings and the reported word are returned and the faults, schedule, clock and rate are kept |
| AfeEmulator.AFEWrapper.MeasureChannels | pc_simulator/afe/wrapper.py:184-202 | the part of `apply_measurement` after the schedule pass: readings from the old fault state and stuck-ADC store, the new store, the CRC count and the reported status word, nothing else changed |
| AfeEmulator.AFEWrapper.ApplyMeasurement | pc_simulator/afe/wrapper.py:158-202 | counts the measurement, runs the schedule pass (an error from it propagates), processes the three channel kinds, rebuilds the status word and adds bit 31 and one CRC error when the trial hits |
| AfeEmulator.AFEWrapper.GetStatusFlags | pc_simulator/afe/wrapper.py:501-510 | a 32-bit word when the open-wire mask it was built from is below 2^16 |
| AfeEmulator.AFEWrapper.GetStatistics | pc_simulator/afe/wrapper.py:512-527 | the counts as stored and a CRC error rate in [0, 1] |
| AfeEmulator.AFEWrapper.Reset | pc_simulator/afe/wrapper.py:529-541 | every fault, the schedule, the clock and the counters cleared; the calibration kept |
| CurrentProfiles.ParseProfileType | pc_simulator/plant/current_profile.py:60-64 | a known name in any letter case gives the type whose value it is; otherwise "Unknown profile type: ..." |
| CurrentProfiles.ParseProfileName | pc_simulator/plant/current_profile.py:60-64 | every profile type's own name parses back to it |
| CurrentProfiles.InitPulse | pc_simulator/plant/current_profile.py:93-123 | fails exactly when the duty cycle is outside [0, 1]; the high and low times add up to the period |
| CurrentProfiles.SortByStart | pc_simulator/plant/current_profile.py:153 | the segments sorted by start time, a permutation of the input |
| CurrentProfiles.ValidateSegments | pc_simulator/plant/current_profile.py:205-217 | passes exactly when no segment ends after the next one starts |
| CurrentProfiles.InitSegments | pc_simulator/plant/current_profile.py:125-156 | succeeds exactly when the sorted segments do not overlap, and then keeps them sorted |
| CurrentProfiles.InitYaml | pc_simulator/plant/current_profile.py:125-156 | without data, ValueError "Either yaml_file or yaml_data must be provided"; otherwise the duration defaults to 0 and it succeeds exactly when the sorted segments do not overlap, keeping them sorted |
| CurrentProfiles.InitDynamic | pc_simulator/plant/current_profile.py:158-203 | a callable is used as given, else the compiled expression; with neither, ValueError "Either function or expression must be provided" |
| CurrentProfiles.FloorMod | pc_simulator/plant/current_profile.py:236-254 | Python's float `%`: the remainder lies in [0, p) for p > 0 and in (p, 0] for p < 0 |
| CurrentProfiles.FirstContaining | pc_simulator/plant/current_profile.py:258-280 | the first segment containing t and none earlier, or none at all |
| CurrentProfiles.GetCurrentAtTime | pc_simulator/plant/current_profile.py:219-288 | the loop over the segments computes the current in mA that `CurrentAt` defines |
| CurrentProfiles.SegmentLookup | pc_simulator/plant/current_profile.py:256-280 | the first containing segment gives the current; none gives 0 |
| CurrentProfiles.ZeroAfterDuration | pc_simulator/plant/current_profile.py:230-231 | past its duration every profile yields 0, and an infinite one never stops |
| CurrentProfiles.ConstantCurrent | tests/test_current_profile.py:15-37 | a constant profile yields its current in mA up to its end |
| CurrentProfiles.PulseSquareWave | pc_simulator/plant/current_profile.py:238-243 | without smoothing a pulse is high exactly while the position in the period is below period times duty |
| CurrentProfiles.PulsePeriodic | tests/test_current_profile.py:39-100 | the pulse repeats every period, smoothed or not |
| CurrentProfiles.SmoothPulseBetween | pc_simulator/plant/current_profile.py:246-252 | during a smoothed edge the current lies between the high and the low current |
| CurrentProfiles.SegmentsDisjoint | pc_simulator/plant/current_profile.py:205-217 | in validated segments no two contain the same time |
| CurrentProfiles.BoundaryBelongsToLater | pc_simulator/plant/current_profile.py:258-263 | a shared boundary belongs to the later segment |
| CurrentProfiles.SegmentLookupDefined | pc_simulator/plant/current_profile.py:265-275 | a validated segment profile never divides by a zero transition time |
| CurrentProfiles.SegmentTransition | pc_simulator/plant/current_profile.py:265-275 | a transition starts at the previous current, ends at the new one and stays between them |
| CurrentProfiles.SegmentProfileCurrent | tests/test_current_profile.py:102-140 | a validated profile yields the current of the one segment containing t, or 0 when none does |
| Text.Lower | pc_simulator/afe/wrapper.py:348 | ASCII lower-casing keeps the length, leaves no upper-case letter, and keeps every character or moves an upper-case letter up by 32 to its lower-case one |
| Text.LowerIdempotent | pc_simulator/afe/wrapper.py:348 | lower-casing twice is lower-casing once |
| Text.Decimal | pc_simulator/communication/protocol.py:98-100 | `str` of a length: at least one decimal digit and no leading zero |
| Text.DecimalValue | pc_simulator/communication/protocol.py:98-100 | the digits read back as the number |

## Left out

- Random draws (calibration errors, noise, SOC spread, the CRC-error trial), the wall clock, and `exp` and `sqrt` are parameters of the methods that use them.
- Floating point is modelled as exact reals, so IEEE rounding and numpy's float32 casts are not captured; `round(x, 3)` rounds ties up.
- The MCU frame takes its cell voltages, temperatures, pack current and voltage, balancing and open-wire data, GPIO/GPA taps and optional sensor readings as integers, the values after the source's `int()` casts; the power and both counters are reals, truncated toward zero (`Bytes.Trunc`) where the source casts them; float32 packing is modelled only for 0.0.
- XbbProtocol.EncodeFrame: the two temperatures are given already converted to integer milli-degrees, so the float-to-int conversion at protocol_xbb.py:125-130 is not part of its contract.
- CellModel.CalendarFadeFactor (and CellModel.UpdateDefined, CellModel.UpdateBounds): `UpdateDefined` requires the storage SOC to lie in [0, 1] at every update, even before any calendar hours have accrued, while `CalendarFadeFactor` requires it (through `CalendarDefined`) only once they have; the constructor stores the unclipped initial SOC there, and outside [0, 1] the source's `** 0.5` yields a complex number and the following `min` raises TypeError, which is not modelled.
- CellModel.UpdateBounds (and CellModel.LiFePO4Cell.Update, PackModel.BatteryPack16S.Update): require a non-zero nominal capacity and a forced temperature other than -175 and -273.15 degrees, because the source then divides by zero.
- CellModel.ThermalRelaxes: stated only for steps up to 200 s; a longer explicit step overshoots the ambient, and the source takes it anyway.
- PackModel.BatteryPack16S.SetAging: requires the Arrhenius storage condition `CalendarDefined` for every cell, for the same reason.
- AfeEmulator.AFEWrapper.ScheduleFault (and InjectFault, ClearFault): masks are non-negative integers of any width; a negative Python mask, whose bitwise operations use two's complement, is not modelled.
- AfeEmulator.AFEWrapper.GetStatusFlags: the word is stated to fit in 32 bits only when the open-wire mask it was built from is below 2^16; a wider mask lands in the status word unchanged, bits 16 and up included.
- AfeEmulator.PassFrom: it states the schedule walk's result, but the lemmas about it state no ordering of entries apart from `PassQuiet`.
- Every clock read within one call uses the same `nowMs`, so time passing inside one call is not captured.
- BigEndianPack.PackInt16BE (and BigEndianPack.PackInt32BE, McuProtocol.PackSignedBE, AfeMeasProtocol.Encode): the struct.error texts are those of CPython 3.12 and later; up to 3.11, a value outside the 64-bit C `long` range, or a negative value for an `I` field, was reported as "argument out of range" instead.
- Text.Lower lower-cases ASCII only; Python's `str.lower()` also maps non-ASCII letters.
- CurrentProfiles.ValidateSegments: the overlap message is not reproduced with its numbers.
- CurrentProfiles.SortByStart: the sort's stability is not stated.
- YAML loading (`load_from_yaml` and the file branch of `_init_yaml`, which `InitYaml` receives as already parsed data), `eval` of expressions (a `compile` parameter of `InitDynamic`), the dynamic callable's own code, `generate_time_series`, `get_profile_info` and `get_duration` are not modelled: they are file I/O, code execution or simple accessors.
- Pack: `get_pack_state`, `get_pack_current`, the standard deviations in `get_cell_imbalance`, and the unused `temp_diffs` list are not modelled.
- Serial transmission, threads and the scripts (uart_tx*.py, main.py, checkpoint_manager.py, multi_crate_discharge.py, run_cell_simulation.py) are not part of this model; neither is `print_frame_info`.

## Findings

| source | as written | input that shows it | evidently intended | confidence | as-written member | corrected member |
|---|---|---|---|---|---|---|
| pc_simulator/afe/wrapper.py:268-271 | the NTC sentinel -327.7 degrees becomes -32770 centi-degrees, and the int16 cast wraps it to 32766, so the NTC threshold at line 316 never sets status bit 16 + i | an NTC fault on any channel | the sentinel saturates to -32768 and sets the NTC bit | not executed | AfeEmulator.NtcSentinelWrapsAsWritten | AfeEmulator.NtcSentinelFlagged |
