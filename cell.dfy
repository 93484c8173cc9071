/**
 * The LiFePO4 cell equivalent-circuit model: the two OCV tables, R0, the
 * hysteresis direction, the thermal model, aging, and the cell object
 * that `update` advances one step at a time.
 */
module CellModel {
  import opened Wrappers

  /** Row k of both tables is SOC k %. */
  const TablePoints: nat := 101

  /** Discharge OCV in volts, ten SOC points per row: SOC 0-9 %, 10-19 %, ..., then 100 %. */
  const DischargeDecades: seq<seq<real>> := [
    [2.862, 2.912, 2.962, 3.012, 3.062, 3.112, 3.124, 3.136, 3.148, 3.160],
    [3.172, 3.183, 3.193, 3.204, 3.215, 3.226, 3.236, 3.247, 3.258, 3.268],
    [3.279, 3.280, 3.280, 3.281, 3.281, 3.282, 3.283, 3.283, 3.284, 3.284],
    [3.285, 3.286, 3.286, 3.287, 3.287, 3.288, 3.289, 3.289, 3.290, 3.290],
    [3.291, 3.292, 3.292, 3.293, 3.293, 3.294, 3.295, 3.295, 3.296, 3.296],
    [3.297, 3.298, 3.298, 3.299, 3.299, 3.300, 3.300, 3.301, 3.302, 3.302],
    [3.303, 3.303, 3.304, 3.304, 3.305, 3.306, 3.306, 3.307, 3.307, 3.308],
    [3.308, 3.309, 3.309, 3.310, 3.311, 3.311, 3.312, 3.312, 3.313, 3.313],
    [3.314, 3.316, 3.317, 3.319, 3.320, 3.322, 3.323, 3.325, 3.326, 3.328],
    [3.329, 3.343, 3.358, 3.372, 3.386, 3.401, 3.415, 3.429, 3.443, 3.458],
    [3.472]
  ]

  /** Charge OCV in volts, laid out like `DischargeDecades`. */
  const ChargeDecades: seq<seq<real>> := [
    [2.510, 2.560, 2.610, 2.660, 2.710, 2.760, 2.810, 2.860, 2.910, 2.960],
    [3.010, 3.060, 3.110, 3.160, 3.190, 3.210, 3.220, 3.230, 3.240, 3.250],
    [3.260, 3.260, 3.260, 3.260, 3.260, 3.260, 3.260, 3.260, 3.260, 3.260],
    [3.260, 3.260, 3.260, 3.260, 3.260, 3.260, 3.260, 3.260, 3.260, 3.260],
    [3.260, 3.260, 3.260, 3.260, 3.260, 3.260, 3.260, 3.260, 3.260, 3.260],
    [3.260, 3.260, 3.260, 3.260, 3.260, 3.260, 3.260, 3.260, 3.260, 3.260],
    [3.260, 3.260, 3.260, 3.260, 3.260, 3.260, 3.260, 3.260, 3.260, 3.260],
    [3.260, 3.260, 3.260, 3.260, 3.260, 3.260, 3.260, 3.260, 3.260, 3.260],
    [3.260, 3.265, 3.270, 3.275, 3.280, 3.285, 3.290, 3.300, 3.310, 3.320],
    [3.330, 3.340, 3.350, 3.360, 3.370, 3.380, 3.385, 3.390, 3.395, 3.398],
    [3.472]
  ]

  /** The discharge table's OCV column: entry k is the OCV at SOC k %. */
  function DischargeOcv(): seq<real>
  {
    seq(TablePoints, k requires 0 <= k < TablePoints => DischargeDecades[k / 10][k % 10])
  }

  /** The charge table's OCV column. */
  function ChargeOcv(): seq<real>
  {
    seq(TablePoints, k requires 0 <= k < TablePoints => ChargeDecades[k / 10][k % 10])
  }

  lemma {:induction false} TableLengths()
    ensures |DischargeOcv()| == TablePoints && |ChargeOcv()| == TablePoints
  {
  }

  function Clamp(x: real, lo: real, hi: real): (r: real)
    requires lo <= hi
    ensures lo <= r <= hi
    ensures lo <= x <= hi ==> r == x
  {
    if x < lo then lo else if x > hi then hi else x
  }

  function Max(a: real, b: real): (r: real)
    ensures r >= a && r >= b && (r == a || r == b)
  {
    if a >= b then a else b
  }

  function Min(a: real, b: real): (r: real)
    ensures r <= a && r <= b && (r == a || r == b)
  {
    if a <= b then a else b
  }

  function Abs(x: real): (r: real)
    ensures r >= 0.0 && (r == x || r == -x)
  {
    if x >= 0.0 then x else -x
  }

  /**
   * `np.interp` of a 101-row table whose breakpoints are SOC 0.00, 0.01,
   * ..., 1.00: the row below `soc`, plus the fraction of the way to the
   * row above.
   */
  function Interp(table: seq<real>, soc: real): real
    requires |table| == TablePoints && 0.0 <= soc <= 1.0
  {
    var x := soc * 100.0;
    var i := x.Floor;
    if i >= 100 then table[100]
    else table[i] + (x - i as real) * (table[i + 1] - table[i])
  }

  /** At a breakpoint the interpolation is the table value itself. */
  lemma {:induction false} InterpAtPoint(table: seq<real>, k: nat)
    requires |table| == TablePoints && k <= 100
    ensures Interp(table, k as real / 100.0) == table[k]
  {
    assert (k as real / 100.0) * 100.0 == k as real;
  }

  /** The product of two non-negative reals is non-negative. */
  lemma {:induction false} MulNonnegative(x: real, y: real)
    requires 0.0 <= x && 0.0 <= y
    ensures 0.0 <= x * y
  {
  }

  /** Multiplying by a non-negative real keeps the order. */
  lemma {:induction false} MulMonoReal(x: real, y: real, c: real)
    requires x <= y && 0.0 <= c
    ensures x * c <= y * c && c * x <= c * y
  {
    MulNonnegative(y - x, c);
    assert (y - x) * c == y * c - x * c;
  }

  /** R0 at an explicit temperature, as a product of its factors. */
  lemma {:induction false} R0AtTemperature(s: CellState, socPct: Option<real>, t: real)
    ensures R0(s, socPct, Some(t))
            == 0.5 * R0SocFactor(SocArg(s, socPct)) * R0TempFactor(t) * s.baseResistanceMultiplier * s.resistanceMultiplier
  {
  }

  /** A product of four non-negative factors grows with its second factor. */
  lemma {:induction false} ProductMonotone(k: real, x: real, y: real, b: real, c: real)
    requires 0.0 <= k && x <= y && 0.0 <= b && 0.0 <= c
    ensures k * x * b * c <= k * y * b * c
  {
    MulMonoReal(x, y, k);
    var p, q := k * x, k * y;
    MulMonoReal(p, q, b);
    var u, v := p * b, q * b;
    MulMonoReal(u, v, c);
  }

  /** a + f * (b - a) for f in [0, 1] lies between a and b. */
  lemma {:induction false} LerpBetween(a: real, b: real, f: real)
    requires 0.0 <= f <= 1.0
    ensures Min(a, b) <= a + f * (b - a) <= Max(a, b)
  {
    var d := if a <= b then b - a else a - b;
    MulNonnegative(f, d);
    MulNonnegative(1.0 - f, d);
    assert (1.0 - f) * d == d - f * d;
    if a <= b {
      assert a + f * (b - a) == a + f * d;
    } else {
      assert a + f * (b - a) == a - f * d;
    }
  }

  /** Between two breakpoints the interpolation lies between their table values. */
  lemma {:induction false} InterpBetween(table: seq<real>, soc: real, k: nat)
    requires |table| == TablePoints && k < 100
    requires k as real / 100.0 <= soc <= (k + 1) as real / 100.0
    ensures Min(table[k], table[k + 1]) <= Interp(table, soc) <= Max(table[k], table[k + 1])
  {
    var x := soc * 100.0;
    assert k as real <= x <= (k + 1) as real;
    var i := x.Floor;
    if i == k {
      assert Interp(table, soc) == table[k] + (x - k as real) * (table[k + 1] - table[k]);
      LerpBetween(table[k], table[k + 1], x - k as real);
    } else {
      assert i == k + 1 && x - i as real == 0.0;
      if i < 100 {
        assert (x - i as real) * (table[i + 1] - table[i]) == 0.0;
        assert Interp(table, soc) == table[i] + (x - i as real) * (table[i + 1] - table[i]);
        assert Interp(table, soc) == table[k + 1];
      }
    }
  }

  // ---------------------------------------------------------------------
  // Equivalent-circuit constants (cell_model.py:253-285).

  const R1: real := 0.001
  const C1: real := 2000.0
  const R2: real := 0.0005
  const C2: real := 10000.0
  /** Volts per degree Celsius. */
  const OcvTempCoeff: real := -0.0005
  const CapacityTempCoeff: real := 0.005
  const FadeRate: real := 0.0001
  const ResistanceIncreaseRate: real := 0.001
  /** Joules per mole. */
  const ActivationEnergy: real := 30000.0
  const GasConstant: real := 8.314
  /** Fade per hour at 25 degrees Celsius and 50 % SOC. */
  const CalendarBaseRate: real := 0.000000001
  const ThermalMass: real := 100.0
  const ThermalResistance: real := 2.0
  /** The terminal-voltage floor, in volts. */
  const MinVoltage: real := 2.5
  /** The current dead-zone of the direction classifier, in mA. */
  const DeadZoneMa: real := 0.001

  /**
   * Every field of a `LiFePO4Cell` object, as one value. The
   * square-root and exponential functions the cell uses are parameters
   * of the operations below.
   */
  datatype CellState = CellState(
    capacityNominalAh: real,
    soc: real,
    temperatureC: real,
    ambientTempC: real,
    cycles: int,
    baseResistanceMultiplier: real,
    vRc1: real,
    vRc2: real,
    lastDirection: int,
    hysteresisSoc: real,
    calendarAgingHours: real,
    lastUpdateHours: real,
    storageSoc: real,
    storageTemp: real,
    capacityActualAh: real,
    resistanceMultiplier: real)

  /**
   * What every reachable cell state satisfies: SOC in [0, 1], a
   * direction in {-1, 0, 1}, the multiplier floors, and the aged capacity
   * at least half the nominal one (on the nominal capacity's side of 0).
   */
  predicate Consistent(s: CellState)
  {
    && 0.0 <= s.soc <= 1.0
    && -1 <= s.lastDirection <= 1
    && s.baseResistanceMultiplier >= 0.1
    && s.resistanceMultiplier >= 1.0
    && AgedCapacity(s.capacityNominalAh, s.capacityActualAh)
  }

  predicate AgedCapacity(nominal: real, actual: real)
  {
    if nominal >= 0.0 then actual >= 0.5 * nominal else actual <= 0.5 * nominal
  }

  function MaxInt0(n: int): nat
  {
    if n >= 0 then n else 0
  }

  // ---------------------------------------------------------------------
  // get_ocv and get_internal_resistance.

  /** An optional percentage argument, or the cell's own SOC. */
  function SocArg(s: CellState, socPct: Option<real>): real
  {
    if socPct.None? then s.soc else Clamp(socPct.value / 100.0, 0.0, 1.0)
  }

  function TempArg(s: CellState, temperatureC: Option<real>): real
  {
    if temperatureC.None? then s.temperatureC else temperatureC.value
  }

  /**
   * Open-circuit voltage in volts: the charge table for a positive
   * direction, the discharge table for a negative one, and at rest the
   * table of the last direction, or the mean of both when there is none;
   * then -0.5 mV per degree away from 25 degrees.
   */
  function Ocv(s: CellState, socPct: Option<real>, temperatureC: Option<real>, direction: Option<int>): real
    requires 0.0 <= s.soc <= 1.0
  {
    var dir := if direction.None? then s.lastDirection else direction.value;
    OcvCurve(s.lastDirection, dir, SocArg(s, socPct)) + OcvTempCoeff * (TempArg(s, temperatureC) - 25.0)
  }

  /** The OCV at 25 degrees on the curve chosen by the direction and, at rest, the last direction. */
  function OcvCurve(lastDirection: int, dir: int, soc: real): real
    requires 0.0 <= soc <= 1.0
  {
    if dir > 0 then Interp(ChargeOcv(), soc)
    else if dir < 0 then Interp(DischargeOcv(), soc)
    else if lastDirection > 0 then Interp(ChargeOcv(), soc)
    else if lastDirection < 0 then Interp(DischargeOcv(), soc)
    else (Interp(ChargeOcv(), soc) + Interp(DischargeOcv(), soc)) / 2.0
  }

  /** The SOC factor of R0: 1.4 at 0 %, 1.0 at 50 %, 0.75 at 100 %. */
  function R0SocFactor(soc: real): real
  {
    if soc <= 0.5 then 1.4 - soc * 0.8 else 1.0 - (soc - 0.5) * 0.5
  }

  /** The temperature factor of R0, -0.5 % per degree, floored at 0.5. */
  function R0TempFactor(temp: real): (r: real)
    ensures r >= 0.5
  {
    Max(1.0 - 0.005 * (temp - 25.0), 0.5)
  }

  /** Internal resistance R0 in milliohms. */
  function R0(s: CellState, socPct: Option<real>, temperatureC: Option<real>): real
  {
    0.5 * R0SocFactor(SocArg(s, socPct)) * R0TempFactor(TempArg(s, temperatureC))
      * s.baseResistanceMultiplier * s.resistanceMultiplier
  }

  // ---------------------------------------------------------------------
  // _update_aging.

  /** The cycle fade factor, `1 - 0.0001 sqrt(cycles)`, floored at 0.5. */
  function CycleFadeFactor(cycles: int, sqrt: real -> real): (r: real)
    ensures r >= 0.5
  {
    Max(1.0 - FadeRate * sqrt(MaxInt0(cycles) as real), 0.5)
  }

  /**
   * The storage condition under which the calendar term is a real number:
   * a storage temperature other than absolute zero (the Arrhenius divisor)
   * and a storage SOC in [0, 1] (the bases of the two square roots).
   */
  predicate CalendarDefined(s: CellState)
  {
    s.calendarAgingHours > 0.0 ==> s.storageTemp + 273.15 != 0.0 && 0.0 <= s.storageSoc <= 1.0
  }

  /**
   * The calendar fade factor: 1 with no calendar time, else one minus
   * the Arrhenius rate times the hours, the fade capped at 30 %.
   */
  function CalendarFadeFactor(s: CellState, exp: real -> real, sqrt: real -> real): (r: real)
    requires CalendarDefined(s)
    ensures r >= 0.7
  {
    if s.calendarAgingHours > 0.0 then
      var tempKelvin := s.storageTemp + 273.15;
      var arrhenius := exp(-ActivationEnergy / (GasConstant * tempKelvin));
      var socFactor := (sqrt(s.storageSoc) + sqrt(1.0 - s.storageSoc)) / 2.0;
      var rate := CalendarBaseRate * arrhenius * socFactor;
      var fade := rate * s.calendarAgingHours;
      1.0 - Min(fade, 0.3)
    else
      1.0
  }

  /** The state after `_update_aging`: the aged capacity and the resistance multiplier. */
  function Aged(s: CellState, exp: real -> real, sqrt: real -> real): CellState
    requires CalendarDefined(s)
  {
    var total := Max(CycleFadeFactor(s.cycles, sqrt) * CalendarFadeFactor(s, exp, sqrt), 0.5);
    s.(capacityActualAh := s.capacityNominalAh * total,
       resistanceMultiplier := 1.0 + ResistanceIncreaseRate * MaxInt0(s.cycles) as real)
  }

  // ---------------------------------------------------------------------
  // _update_thermal_model.

  /**
   * One thermal step: I^2 R0 heating less the loss to ambient through
   * 2 degrees per watt, over a 100 J per degree mass, clamped to
   * [-40, 85]. A given ambient temperature is stored first.
   */
  function ThermalStep(s: CellState, currentMa: real, dtMs: real, ambient: Option<real>): (r: CellState)
    ensures -40.0 <= r.temperatureC <= 85.0
    ensures r.ambientTempC == if ambient.Some? then ambient.value else s.ambientTempC
    ensures r == s.(temperatureC := r.temperatureC, ambientTempC := r.ambientTempC)
  {
    var s1 := if ambient.Some? then s.(ambientTempC := ambient.value) else s;
    var dtemp := ThermalDelta(currentMa, dtMs, R0(s1, None, None), s1.temperatureC, s1.ambientTempC);
    s1.(temperatureC := Clamp(s1.temperatureC + dtemp, -40.0, 85.0))
  }

  /** The unclamped temperature change of one thermal step, R0 given in milliohms. */
  function ThermalDelta(currentMa: real, dtMs: real, r0Mohm: real, temp: real, ambient: real): real
  {
    var currentA := currentMa / 1000.0;
    var powerW := (currentA * currentA) * (r0Mohm / 1000.0);
    var heatTransferW := (temp - ambient) / ThermalResistance;
    ((powerW - heatTransferW) * (dtMs / 1000.0)) / ThermalMass
  }

  // ---------------------------------------------------------------------
  // update, phase by phase.

  /** Charging beyond +0.001 mA, discharging below -0.001 mA, else rest. */
  function Direction(currentMa: real): int
  {
    if currentMa > DeadZoneMa then 1 else if currentMa < -DeadZoneMa then -1 else 0
  }

  /**
   * Forced temperatures and capacities that `update` does not divide by zero
   * with, and a storage SOC the calendar term can take the square root of.
   */
  predicate UpdateDefined(s: CellState, forced: Option<real>)
  {
    && s.capacityNominalAh != 0.0
    && (forced.Some? ==> forced.value != -175.0 && forced.value + 273.15 != 0.0)
    && 0.0 <= s.storageSoc <= 1.0
  }

  /** Step 1: the thermal model, or the forced temperature without it. */
  function TemperaturePhase(s: CellState, currentMa: real, dtMs: real, forced: Option<real>, ambient: Option<real>): CellState
  {
    if forced.None? then ThermalStep(s, currentMa, dtMs, ambient) else s.(temperatureC := forced.value)
  }

  /** The usable capacity at the cell's temperature, +0.5 % per degree. */
  function TempCapacityAh(s: CellState): real
  {
    s.capacityActualAh * (1.0 + CapacityTempCoeff * (s.temperatureC - 25.0))
  }

  /** Step 2: Coulomb counting, then the SOC clamp. */
  function SocPhase(s: CellState, currentMa: real, dtMs: real): CellState
    requires TempCapacityAh(s) != 0.0
  {
    var dsoc := ((currentMa / 1000.0) * (dtMs / (1000.0 * 3600.0))) / TempCapacityAh(s);
    s.(soc := Clamp(s.soc + dsoc, 0.0, 1.0))
  }

  /** Step 3: hysteresis bookkeeping for a new direction. */
  function DirectionPhase(s: CellState, newDirection: int): CellState
  {
    if newDirection != 0 && newDirection != s.lastDirection then
      s.(hysteresisSoc := s.soc, lastDirection := newDirection)
    else if newDirection != 0 then
      s.(lastDirection := newDirection)
    else
      s
  }

  /**
   * The C-rate scale of the RC resistances: 1 up to 1C, then
   * 1 / (1 + 0.15 (C - 1)) floored at 0.3.
   */
  function RcScale(s: CellState, currentMa: real): (r: real)
    ensures 0.3 <= r <= 1.0
  {
    var cRate := if s.capacityNominalAh > 0.0 then Abs(currentMa / 1000.0) / s.capacityNominalAh else 0.0;
    if cRate <= 1.0 then 1.0 else Max(1.0 / (1.0 + 0.15 * (cRate - 1.0)), 0.3)
  }

  /** One RC branch: `v e + I R (1 - e)` with `e = exp(-dt / (R C))`. */
  function RcVoltage(v: real, currentA: real, r: real, c: real, dtSec: real, exp: real -> real): real
  {
    var tau := r * c;
    var e := if tau > 0.0 then exp(-dtSec / tau) else 0.0;
    v * e + currentA * r * (1.0 - e)
  }

  /** Step 4: both RC branches with the C-rate-scaled resistances. */
  function RcPhase(s: CellState, currentMa: real, dtMs: real, exp: real -> real): CellState
  {
    var scale := RcScale(s, currentMa);
    s.(vRc1 := RcVoltage(s.vRc1, currentMa / 1000.0, R1 * scale, C1, dtMs / 1000.0, exp),
       vRc2 := RcVoltage(s.vRc2, currentMa / 1000.0, R2 * scale, C2, dtMs / 1000.0, exp))
  }

  /** Step 5: OCV less the IR drop and both RC magnitudes, floored at 2.5 V. */
  function TerminalVoltage(s: CellState, currentMa: real, newDirection: int): real
    requires 0.0 <= s.soc <= 1.0
  {
    var ocv := Ocv(s, None, None, Some(newDirection));
    var irDrop := Abs(currentMa / 1000.0) * (R0(s, None, None) / 1000.0);
    Max(ocv - irDrop - Abs(s.vRc1) - Abs(s.vRc2), MinVoltage)
  }

  /** Step 6, bookkeeping: calendar hours, storage SOC at rest, storage temperature. */
  function StoragePhase(s: CellState, currentMa: real, dtMs: real): CellState
  {
    s.(storageSoc := if Abs(currentMa) < DeadZoneMa then s.soc else s.storageSoc,
       storageTemp := s.temperatureC,
       calendarAgingHours := s.calendarAgingHours + dtMs / (1000.0 * 3600.0))
  }

  /** Step 6, aging: recomputed once more than an hour has passed since the last time. */
  function AgingPhase(s: CellState, exp: real -> real, sqrt: real -> real): CellState
    requires CalendarDefined(s)
  {
    if s.calendarAgingHours - s.lastUpdateHours > 1.0 then
      Aged(s, exp, sqrt).(lastUpdateHours := s.calendarAgingHours)
    else
      s
  }

  /** What `update` returns along with the new state. */
  datatype StepResult = StepResult(state: CellState, voltageMv: real, socPct: real)

  /** One `update` call: the new state, the terminal voltage in mV and the SOC in percent. */
  function UpdateStep(s: CellState, currentMa: real, dtMs: real, forced: Option<real>, ambient: Option<real>,
                      exp: real -> real, sqrt: real -> real): StepResult
    requires Consistent(s) && UpdateDefined(s, forced)
  {
    var s1 := TemperaturePhase(s, currentMa, dtMs, forced, ambient);
    assert TempCapacityAh(s1) != 0.0 by { CapacityNonZero(s1); }
    var s2 := SocPhase(s1, currentMa, dtMs);
    var newDirection := Direction(currentMa);
    var s3 := DirectionPhase(s2, newDirection);
    var s4 := RcPhase(s3, currentMa, dtMs, exp);
    var vTerminal := TerminalVoltage(s4, currentMa, newDirection);
    var s5 := StoragePhase(s4, currentMa, dtMs);
    var s6 := AgingPhase(s5, exp, sqrt);
    StepResult(s6, vTerminal * 1000.0, s6.soc * 100.0)
  }

  /** The capacity `update` divides by is not zero. */
  lemma {:induction false} CapacityNonZero(s: CellState)
    requires AgedCapacity(s.capacityNominalAh, s.capacityActualAh) && s.capacityNominalAh != 0.0
    requires s.temperatureC != -175.0
    ensures TempCapacityAh(s) != 0.0
  {
    var f := 1.0 + CapacityTempCoeff * (s.temperatureC - 25.0);
    assert f != 0.0;
    assert s.capacityActualAh != 0.0;
  }

  // ---------------------------------------------------------------------
  // Construction, reset and set_aging as state functions.

  /** The state `__init__` leaves: SOC clamped, the multiplier floored at 0.1, then aged. */
  function InitialState(capacityAh: real, initialSoc: real, temperatureC: real, cycles: int,
                        ambientTempC: real, resistanceMultiplier: real,
                        exp: real -> real, sqrt: real -> real): CellState
  {
    var s := CellState(capacityAh, Clamp(initialSoc, 0.0, 1.0), temperatureC, ambientTempC, cycles,
                       Max(resistanceMultiplier, 0.1), 0.0, 0.0, 0, initialSoc, 0.0, 0.0,
                       initialSoc, temperatureC, 0.0, 0.0);
    Aged(s, exp, sqrt)
  }

  /** The state after `reset`: the RC voltages and the last direction are cleared. */
  function ResetState(s: CellState, socPct: Option<real>, temperatureC: Option<real>): (r: CellState)
    ensures Consistent(s) ==> Consistent(r)
  {
    s.(soc := if socPct.Some? then Clamp(socPct.value / 100.0, 0.0, 1.0) else s.soc,
       temperatureC := if temperatureC.Some? then temperatureC.value else s.temperatureC,
       vRc1 := 0.0, vRc2 := 0.0, lastDirection := 0)
  }

  /** The counters `set_aging` stores before re-aging: both floored at 0. */
  function AgingInputs(s: CellState, cycles: int, calendarAgingHours: Option<real>): CellState
  {
    s.(cycles := MaxInt0(cycles),
       calendarAgingHours := if calendarAgingHours.Some? then Max(calendarAgingHours.value, 0.0)
                             else s.calendarAgingHours)
  }

  function SetAgingState(s: CellState, cycles: int, calendarAgingHours: Option<real>,
                         exp: real -> real, sqrt: real -> real): CellState
    requires CalendarDefined(AgingInputs(s, cycles, calendarAgingHours))
  {
    Aged(AgingInputs(s, cycles, calendarAgingHours), exp, sqrt)
  }

  /** What `get_state` reports; `voltageMv` is the OCV, not the terminal voltage. */
  datatype CellReport = CellReport(
    socPct: real, voltageMv: real, temperatureC: real, capacityAh: real,
    internalResistanceMohm: real, cycles: int, calendarAgingHours: real,
    rc1VoltageV: real, rc2VoltageV: real, currentDirection: int)

  /** Passing the cell's own SOC in percent and temperature is the same as passing neither. */
  lemma {:induction false} OwnArguments(s: CellState)
    requires 0.0 <= s.soc <= 1.0
    ensures Ocv(s, Some(s.soc * 100.0), Some(s.temperatureC), None) == Ocv(s, None, None, None)
    ensures R0(s, Some(s.soc * 100.0), Some(s.temperatureC)) == R0(s, None, None)
  {
    OwnSocArg(s);
    R0SameArguments(s, Some(s.soc * 100.0), None, Some(s.temperatureC), None);
  }

  /** R0 depends on its SOC and temperature arguments only through SocArg and TempArg. */
  lemma {:induction false} R0SameArguments(s: CellState, p1: Option<real>, p2: Option<real>, t1: Option<real>, t2: Option<real>)
    requires SocArg(s, p1) == SocArg(s, p2) && TempArg(s, t1) == TempArg(s, t2)
    ensures R0(s, p1, t1) == R0(s, p2, t2)
  {
    var f := R0SocFactor(SocArg(s, p1));
    var t := R0TempFactor(TempArg(s, t1));
    assert R0(s, p1, t1) == 0.5 * f * t * s.baseResistanceMultiplier * s.resistanceMultiplier;
    assert R0(s, p2, t2) == 0.5 * f * t * s.baseResistanceMultiplier * s.resistanceMultiplier;
  }

  /** The cell's own SOC in percent reads back as its SOC. */
  lemma {:induction false} OwnSocArg(s: CellState)
    requires 0.0 <= s.soc <= 1.0
    ensures SocArg(s, Some(s.soc * 100.0)) == SocArg(s, None)
    ensures TempArg(s, Some(s.temperatureC)) == TempArg(s, None)
  {
    assert s.soc * 100.0 / 100.0 == s.soc;
  }

  /**
   * `get_state`: the SOC in percent, the OCV in mV and R0 at the cell's own
   * SOC and temperature, and the stored fields as they are.
   */
  function GetState(s: CellState): (r: CellReport)
    requires 0.0 <= s.soc <= 1.0
    ensures 0.0 <= r.socPct <= 100.0 && r.socPct == s.soc * 100.0
    ensures r.voltageMv == Ocv(s, Some(r.socPct), Some(s.temperatureC), None) * 1000.0
    ensures r.internalResistanceMohm == R0(s, Some(r.socPct), Some(s.temperatureC))
    ensures Consistent(s) ==> r.internalResistanceMohm > 0.0
    ensures r.temperatureC == s.temperatureC && r.capacityAh == s.capacityActualAh && r.cycles == s.cycles
    ensures r.calendarAgingHours == s.calendarAgingHours && r.currentDirection == s.lastDirection
    ensures r.rc1VoltageV == s.vRc1 && r.rc2VoltageV == s.vRc2
  {
    OwnArguments(s);
    assert Consistent(s) ==> R0(s, None, None) > 0.0 by {
      if Consistent(s) {
        R0Positive(s, None, None);
      }
    }
    CellReport(s.soc * 100.0, Ocv(s, None, None, None) * 1000.0, s.temperatureC, s.capacityActualAh,
               R0(s, None, None), s.cycles, s.calendarAgingHours, s.vRc1, s.vRc2, s.lastDirection)
  }

  // ---------------------------------------------------------------------
  // Properties of the OCV.

  /** At a table point the OCV is that row, shifted by -0.5 mV per degree. */
  lemma {:induction false} OcvAtTablePoint(s: CellState, k: nat, temp: real)
    requires 0.0 <= s.soc <= 1.0 && k <= 100
    ensures Ocv(s, Some(k as real), Some(temp), Some(1)) == ChargeOcv()[k] + OcvTempCoeff * (temp - 25.0)
    ensures Ocv(s, Some(k as real), Some(temp), Some(-1)) == DischargeOcv()[k] + OcvTempCoeff * (temp - 25.0)
    ensures s.lastDirection == 0 ==>
      Ocv(s, Some(k as real), Some(temp), Some(0))
        == (ChargeOcv()[k] + DischargeOcv()[k]) / 2.0 + OcvTempCoeff * (temp - 25.0)
  {
    assert SocArg(s, Some(k as real)) == k as real / 100.0;
    InterpAtPoint(ChargeOcv(), k);
    InterpAtPoint(DischargeOcv(), k);
  }

  /** The discharge curve at 50 % and 25 degrees is 3.297 V. */
  lemma {:induction false} OcvDischargeMidpoint(s: CellState)
    requires 0.0 <= s.soc <= 1.0
    ensures Ocv(s, Some(50.0), Some(25.0), Some(-1)) == 3.297
  {
    OcvAtTablePoint(s, 50, 25.0);
    assert DischargeOcv()[50] == DischargeDecades[5][0];
  }

  /** At rest, or with no direction given, a cell with history uses the curve of its last direction. */
  lemma {:induction false} OcvRestFollowsLast(s: CellState, socPct: Option<real>, temperatureC: Option<real>)
    requires 0.0 <= s.soc <= 1.0 && s.lastDirection != 0
    ensures Ocv(s, socPct, temperatureC, Some(0)) == Ocv(s, socPct, temperatureC, Some(s.lastDirection))
    ensures Ocv(s, socPct, temperatureC, None) == Ocv(s, socPct, temperatureC, Some(s.lastDirection))
  {
  }

  /** Temperature moves the OCV by exactly -0.5 mV per degree, whatever the curve. */
  lemma {:induction false} OcvTemperatureShift(s: CellState, socPct: Option<real>, direction: Option<int>, t1: real, t2: real)
    requires 0.0 <= s.soc <= 1.0
    ensures Ocv(s, socPct, Some(t2), direction) - Ocv(s, socPct, Some(t1), direction) == OcvTempCoeff * (t2 - t1)
  {
  }

  // ---------------------------------------------------------------------
  // Properties of R0.

  lemma {:induction false} R0SocFactorBounds(soc: real)
    requires 0.0 <= soc <= 1.0
    ensures 0.75 <= R0SocFactor(soc) <= 1.4
  {
  }

  /** 0.5 milliohm at 50 % and 25 degrees with unit multipliers. */
  lemma {:induction false} R0Nominal(s: CellState)
    requires s.baseResistanceMultiplier == 1.0 && s.resistanceMultiplier == 1.0
    ensures R0(s, Some(50.0), Some(25.0)) == 0.5
  {
    assert SocArg(s, Some(50.0)) == 0.5;
    assert R0TempFactor(25.0) == 1.0;
  }

  /** R0 of a consistent cell is strictly positive. */
  lemma {:induction false} R0Positive(s: CellState, socPct: Option<real>, temperatureC: Option<real>)
    requires Consistent(s)
    ensures R0(s, socPct, temperatureC) > 0.0
  {
    var f := R0SocFactor(SocArg(s, socPct));
    R0SocFactorBounds(SocArg(s, socPct));
    var t := R0TempFactor(TempArg(s, temperatureC));
    assert 0.5 * f > 0.0;
    assert 0.5 * f * t > 0.0;
    assert 0.5 * f * t * s.baseResistanceMultiplier > 0.0;
  }

  /** A higher SOC never gives a larger R0. */
  lemma {:induction false} R0FallsWithSoc(s: CellState, p1: real, p2: real, temperatureC: Option<real>)
    requires Consistent(s) && p1 <= p2
    ensures R0(s, Some(p2), temperatureC) <= R0(s, Some(p1), temperatureC)
  {
    var a, b := SocArg(s, Some(p1)), SocArg(s, Some(p2));
    assert a <= b;
    assert R0SocFactor(b) <= R0SocFactor(a);
    var k := R0TempFactor(TempArg(s, temperatureC)) * s.baseResistanceMultiplier * s.resistanceMultiplier;
    assert k > 0.0 by {
      assert R0TempFactor(TempArg(s, temperatureC)) * s.baseResistanceMultiplier > 0.0;
    }
    assert R0(s, Some(p1), temperatureC) == 0.5 * R0SocFactor(a) * k;
    assert R0(s, Some(p2), temperatureC) == 0.5 * R0SocFactor(b) * k;
  }

  /** A higher temperature never gives a larger R0. */
  lemma {:induction false} R0FallsWithTemperature(s: CellState, socPct: Option<real>, t1: real, t2: real)
    requires Consistent(s) && t1 <= t2
    ensures R0(s, socPct, Some(t2)) <= R0(s, socPct, Some(t1))
  {
    R0SocFactorBounds(SocArg(s, socPct));
    assert R0TempFactor(t2) <= R0TempFactor(t1) by {
      assert 1.0 - 0.005 * (t2 - 25.0) <= 1.0 - 0.005 * (t1 - 25.0);
    }
    R0AtTemperature(s, socPct, t1);
    R0AtTemperature(s, socPct, t2);
    ProductsOrdered(R0(s, socPct, Some(t1)), R0(s, socPct, Some(t2)), 0.5 * R0SocFactor(SocArg(s, socPct)),
                    R0TempFactor(t1), R0TempFactor(t2), s.baseResistanceMultiplier, s.resistanceMultiplier);
  }

  /** Two products that differ only in their second factor are ordered as that factor. */
  lemma {:induction false} ProductsOrdered(r1: real, r2: real, k: real, x1: real, x2: real, b: real, c: real)
    requires r1 == k * x1 * b * c && r2 == k * x2 * b * c
    requires 0.0 <= k && x2 <= x1 && 0.0 <= b && 0.0 <= c
    ensures r2 <= r1
  {
    ProductMonotone(k, x2, x1, b, c);
  }

  // ---------------------------------------------------------------------
  // Properties of aging.

  /**
   * Aging sets only the capacity and the resistance multiplier: the
   * multiplier is 1 + 0.001 max(cycles, 0), never below 1, and the
   * capacity keeps at least half the nominal one.
   */
  lemma {:induction false} AgingFloors(s: CellState, exp: real -> real, sqrt: real -> real)
    requires CalendarDefined(s)
    ensures var r := Aged(s, exp, sqrt);
      && r == s.(capacityActualAh := r.capacityActualAh, resistanceMultiplier := r.resistanceMultiplier)
      && r.resistanceMultiplier == 1.0 + 0.001 * MaxInt0(s.cycles) as real
      && r.resistanceMultiplier >= 1.0
      && AgedCapacity(s.capacityNominalAh, r.capacityActualAh)
  {
    var total := Max(CycleFadeFactor(s.cycles, sqrt) * CalendarFadeFactor(s, exp, sqrt), 0.5);
    assert total >= 0.5;
    if s.capacityNominalAh >= 0.0 {
      assert s.capacityNominalAh * total >= s.capacityNominalAh * 0.5;
    } else {
      assert s.capacityNominalAh * total <= s.capacityNominalAh * 0.5;
    }
  }

  /**
   * With a non-negative square root and exponential, aging never raises
   * the capacity above the nominal one, and never sets a resistance
   * multiplier below 1.
   */
  lemma {:induction false} AgingNeverGains(s: CellState, exp: real -> real, sqrt: real -> real)
    requires CalendarDefined(s) && s.capacityNominalAh >= 0.0
    requires forall x :: exp(x) >= 0.0
    requires forall x :: sqrt(x) >= 0.0
    ensures Aged(s, exp, sqrt).capacityActualAh <= s.capacityNominalAh
    ensures Aged(s, exp, sqrt).resistanceMultiplier >= 1.0
  {
    var c := CycleFadeFactor(s.cycles, sqrt);
    assert c <= 1.0 by { assert sqrt(MaxInt0(s.cycles) as real) >= 0.0; }
    var k := CalendarFadeFactor(s, exp, sqrt);
    assert k <= 1.0 by {
      if s.calendarAgingHours > 0.0 {
        var tempKelvin := s.storageTemp + 273.15;
        var arrhenius := exp(-ActivationEnergy / (GasConstant * tempKelvin));
        var socFactor := (sqrt(s.storageSoc) + sqrt(1.0 - s.storageSoc)) / 2.0;
        assert arrhenius >= 0.0 && socFactor >= 0.0;
        var rate := CalendarBaseRate * arrhenius * socFactor;
        assert rate >= 0.0;
        assert rate * s.calendarAgingHours >= 0.0;
      }
    }
    assert c * k <= 1.0 by {
      assert c * k <= 1.0 * k;
    }
    var total := Max(c * k, 0.5);
    assert total <= 1.0;
    assert s.capacityNominalAh * total <= s.capacityNominalAh * 1.0;
  }

  /**
   * Aging never lowers R0: an aged cell's R0 is at least that of the same
   * cell with unit resistance aging, and more cycles never give a smaller R0.
   */
  lemma {:induction false} AgingRaisesResistance(s: CellState, exp: real -> real, sqrt: real -> real, c1: int, c2: int,
                                                 socPct: Option<real>, temperatureC: Option<real>)
    requires CalendarDefined(s) && 0.0 <= s.soc <= 1.0 && s.baseResistanceMultiplier >= 0.0 && c1 <= c2
    ensures R0(s.(resistanceMultiplier := 1.0), socPct, temperatureC)
         <= R0(Aged(s.(cycles := c1), exp, sqrt), socPct, temperatureC)
    ensures R0(Aged(s.(cycles := c1), exp, sqrt), socPct, temperatureC)
         <= R0(Aged(s.(cycles := c2), exp, sqrt), socPct, temperatureC)
  {
    R0UnitFacts(s, socPct, temperatureC);
    AgedR0(s, exp, sqrt, c1, socPct, temperatureC);
    AgedR0(s, exp, sqrt, c2, socPct, temperatureC);
    ScaledOrder(R0Unit(s, socPct, temperatureC), 1.0 + 0.001 * MaxInt0(c1) as real, 1.0 + 0.001 * MaxInt0(c2) as real);
  }

  /** R0 without the resistance aging multiplier. */
  function R0Unit(s: CellState, socPct: Option<real>, temperatureC: Option<real>): real
  {
    0.5 * R0SocFactor(SocArg(s, socPct)) * R0TempFactor(TempArg(s, temperatureC)) * s.baseResistanceMultiplier
  }

  /** R0Unit is R0 with a unit aging multiplier, and is non-negative for an SOC in [0, 1]. */
  lemma {:induction false} R0UnitFacts(s: CellState, socPct: Option<real>, temperatureC: Option<real>)
    requires 0.0 <= s.soc <= 1.0 && s.baseResistanceMultiplier >= 0.0
    ensures R0Unit(s, socPct, temperatureC) >= 0.0
    ensures R0(s.(resistanceMultiplier := 1.0), socPct, temperatureC) == R0Unit(s, socPct, temperatureC) * 1.0
  {
    var f := R0SocFactor(SocArg(s, socPct));
    R0SocFactorBounds(SocArg(s, socPct));
    MulNonnegative(0.5 * f, R0TempFactor(TempArg(s, temperatureC)));
    MulNonnegative(0.5 * f * R0TempFactor(TempArg(s, temperatureC)), s.baseResistanceMultiplier);
    var u := s.(resistanceMultiplier := 1.0);
    assert SocArg(u, socPct) == SocArg(s, socPct) && TempArg(u, temperatureC) == TempArg(s, temperatureC);
  }

  /** A non-negative factor times 1, m1 and m2, for 1 <= m1 <= m2, is ordered. */
  lemma {:induction false} ScaledOrder(p: real, m1: real, m2: real)
    requires p >= 0.0 && 1.0 <= m1 <= m2
    ensures p * 1.0 <= p * m1 <= p * m2
  {
    MulMonoReal(1.0, m1, p);
    MulMonoReal(m1, m2, p);
  }

  /** After aging with c cycles, R0 is R0Unit times 1 + 0.001 max(c, 0). */
  lemma {:induction false} AgedR0(s: CellState, exp: real -> real, sqrt: real -> real, c: int,
                                  socPct: Option<real>, temperatureC: Option<real>)
    requires CalendarDefined(s)
    ensures R0(Aged(s.(cycles := c), exp, sqrt), socPct, temperatureC)
         == R0Unit(s, socPct, temperatureC) * (1.0 + 0.001 * MaxInt0(c) as real)
  {
    var a := Aged(s.(cycles := c), exp, sqrt);
    AgingFloors(s.(cycles := c), exp, sqrt);
    assert a.soc == s.soc && a.temperatureC == s.temperatureC && a.baseResistanceMultiplier == s.baseResistanceMultiplier;
    assert SocArg(a, socPct) == SocArg(s, socPct);
    assert TempArg(a, temperatureC) == TempArg(s, temperatureC);
  }

  /** A new cell with no cycles is at full capacity, with unit resistance aging. */
  lemma {:induction false} FreshCellUnaged(capacityAh: real, initialSoc: real, temperatureC: real, ambientTempC: real,
                        resistanceMultiplier: real, exp: real -> real, sqrt: real -> real)
    requires sqrt(0.0) == 0.0
    ensures var r := InitialState(capacityAh, initialSoc, temperatureC, 0, ambientTempC, resistanceMultiplier, exp, sqrt);
      r.capacityActualAh == capacityAh && r.resistanceMultiplier == 1.0
  {
  }

  /**
   * Construction: SOC clamped into [0, 1], the multiplier floored at 0.1,
   * no RC voltage and no direction; the hysteresis and storage SOC keep
   * the unclamped argument.
   */
  lemma {:induction false} InitialStateFacts(capacityAh: real, initialSoc: real, temperatureC: real, cycles: int,
                          ambientTempC: real, resistanceMultiplier: real, exp: real -> real, sqrt: real -> real)
    ensures var r := InitialState(capacityAh, initialSoc, temperatureC, cycles, ambientTempC, resistanceMultiplier, exp, sqrt);
      && Consistent(r)
      && r.soc == Clamp(initialSoc, 0.0, 1.0)
      && (0.0 <= initialSoc <= 1.0 ==> r.soc == initialSoc)
      && r.baseResistanceMultiplier == Max(resistanceMultiplier, 0.1)
      && r.vRc1 == 0.0 && r.vRc2 == 0.0 && r.lastDirection == 0
      && r.hysteresisSoc == initialSoc && r.storageSoc == initialSoc
      && r.calendarAgingHours == 0.0
  {
    var s := CellState(capacityAh, Clamp(initialSoc, 0.0, 1.0), temperatureC, ambientTempC, cycles,
                       Max(resistanceMultiplier, 0.1), 0.0, 0.0, 0, initialSoc, 0.0, 0.0,
                       initialSoc, temperatureC, 0.0, 0.0);
    AgingFloors(s, exp, sqrt);
  }

  /** `set_aging` floors both counters at 0 and re-ages at once. */
  lemma {:induction false} SetAgingFacts(s: CellState, cycles: int, calendarAgingHours: Option<real>, exp: real -> real, sqrt: real -> real)
    requires Consistent(s) && CalendarDefined(AgingInputs(s, cycles, calendarAgingHours))
    ensures var r := SetAgingState(s, cycles, calendarAgingHours, exp, sqrt);
      && Consistent(r)
      && r.cycles == MaxInt0(cycles)
      && r.resistanceMultiplier == 1.0 + 0.001 * r.cycles as real
      && (calendarAgingHours.Some? ==> r.calendarAgingHours == Max(calendarAgingHours.value, 0.0) >= 0.0)
      && (calendarAgingHours.None? ==> r.calendarAgingHours == s.calendarAgingHours)
      && r.soc == s.soc && r.temperatureC == s.temperatureC
  {
    AgingFloors(AgingInputs(s, cycles, calendarAgingHours), exp, sqrt);
  }

  // ---------------------------------------------------------------------
  // Properties of the thermal step and of update.

  /**
   * With no current the thermal step moves the temperature toward
   * ambient and never past it, for steps of up to 200 s.
   */
  lemma {:induction false} ThermalRelaxes(s: CellState, dtMs: real, ambient: Option<real>)
    requires 0.0 <= dtMs <= 200000.0
    requires -40.0 <= s.temperatureC <= 85.0
    requires var a := if ambient.Some? then ambient.value else s.ambientTempC; -40.0 <= a <= 85.0
    ensures var a := if ambient.Some? then ambient.value else s.ambientTempC;
      Min(s.temperatureC, a) <= ThermalStep(s, 0.0, dtMs, ambient).temperatureC <= Max(s.temperatureC, a)
  {
    var a := if ambient.Some? then ambient.value else s.ambientTempC;
    var t := s.temperatureC;
    var f := dtMs / 200000.0;
    var s1 := if ambient.Some? then s.(ambientTempC := ambient.value) else s;
    var dtemp := ThermalDelta(0.0, dtMs, R0(s1, None, None), t, a);
    RelaxArithmetic(t, a, dtMs, R0(s1, None, None));
    assert t + dtemp == t + f * (a - t);
    LerpBetween(t, a, f);
  }

  lemma {:induction false} RelaxArithmetic(t: real, a: real, dtMs: real, r0Mohm: real)
    ensures ThermalDelta(0.0, dtMs, r0Mohm, t, a) == (dtMs / 200000.0) * (a - t)
  {
    assert (0.0 / 1000.0 * (0.0 / 1000.0)) * (r0Mohm / 1000.0) == 0.0;
  }

  /** `update` keeps the cell consistent, returns at least 2500 mV, and reports 100 times its SOC. */
  lemma {:induction false} UpdateBounds(s: CellState, currentMa: real, dtMs: real, forced: Option<real>, ambient: Option<real>,
                     exp: real -> real, sqrt: real -> real)
    requires Consistent(s) && UpdateDefined(s, forced)
    ensures var r := UpdateStep(s, currentMa, dtMs, forced, ambient, exp, sqrt);
      && Consistent(r.state)
      && 0.0 <= r.state.soc <= 1.0
      && r.socPct == 100.0 * r.state.soc
      && r.voltageMv >= 2500.0
      && r.state.capacityNominalAh == s.capacityNominalAh
      && r.state.baseResistanceMultiplier == s.baseResistanceMultiplier
      && r.state.cycles == s.cycles
      && UpdateDefined(r.state, forced)
  {
    var s1 := TemperaturePhase(s, currentMa, dtMs, forced, ambient);
    CapacityNonZero(s1);
    var s2 := SocPhase(s1, currentMa, dtMs);
    var s3 := DirectionPhase(s2, Direction(currentMa));
    var s4 := RcPhase(s3, currentMa, dtMs, exp);
    var s5 := StoragePhase(s4, currentMa, dtMs);
    assert Consistent(s5);
    if s5.calendarAgingHours - s5.lastUpdateHours > 1.0 {
      AgingFloors(s5, exp, sqrt);
    }
  }

  /**
   * A forced temperature is stored as given (not clamped) and skips the
   * thermal step, so the ambient is not stored either; otherwise the
   * temperature ends in [-40, 85].
   */
  lemma {:induction false} UpdateTemperature(s: CellState, currentMa: real, dtMs: real, forced: Option<real>, ambient: Option<real>,
                          exp: real -> real, sqrt: real -> real)
    requires Consistent(s) && UpdateDefined(s, forced)
    ensures var r := UpdateStep(s, currentMa, dtMs, forced, ambient, exp, sqrt);
      && (forced.Some? ==> r.state.temperatureC == forced.value && r.state.ambientTempC == s.ambientTempC)
      && (forced.None? ==> -40.0 <= r.state.temperatureC <= 85.0
                           && r.state.ambientTempC == if ambient.Some? then ambient.value else s.ambientTempC)
      && r.state.storageTemp == r.state.temperatureC
  {
  }

  /**
   * Direction bookkeeping: charging beyond 0.001 mA records direction 1
   * and discharging below -0.001 mA records -1; a step inside the dead
   * zone keeps the last direction; the hysteresis SOC is replaced, by the
   * new SOC, exactly when a non-zero direction differs from the last one.
   */
  lemma {:induction false} UpdateDirection(s: CellState, currentMa: real, dtMs: real, forced: Option<real>, ambient: Option<real>,
                        exp: real -> real, sqrt: real -> real)
    requires Consistent(s) && UpdateDefined(s, forced)
    ensures var r := UpdateStep(s, currentMa, dtMs, forced, ambient, exp, sqrt);
      && (currentMa > 0.001 ==> r.state.lastDirection == 1)
      && (currentMa < -0.001 ==> r.state.lastDirection == -1)
      && (-0.001 <= currentMa <= 0.001 ==> r.state.lastDirection == s.lastDirection
                                           && r.state.hysteresisSoc == s.hysteresisSoc)
      && r.state.hysteresisSoc ==
           if Direction(currentMa) != 0 && Direction(currentMa) != s.lastDirection then r.state.soc
           else s.hysteresisSoc
  {
    UpdateAfterSocPhase(s, currentMa, dtMs, forced, ambient, exp, sqrt);
  }

  /**
   * Calendar bookkeeping: the hours grow by dt, the storage SOC follows
   * the SOC only when |I| < 0.001 mA, and the aging time stamp moves to
   * the new hours once more than an hour has passed.
   */
  lemma {:induction false} UpdateCalendar(s: CellState, currentMa: real, dtMs: real, forced: Option<real>, ambient: Option<real>,
                       exp: real -> real, sqrt: real -> real)
    requires Consistent(s) && UpdateDefined(s, forced)
    ensures var r := UpdateStep(s, currentMa, dtMs, forced, ambient, exp, sqrt);
      var hours := s.calendarAgingHours + dtMs / 3600000.0;
      && r.state.calendarAgingHours == hours
      && r.state.storageSoc == (if Abs(currentMa) < 0.001 then r.state.soc else s.storageSoc)
      && r.state.lastUpdateHours == (if hours - s.lastUpdateHours > 1.0 then hours else s.lastUpdateHours)
  {
  }

  /** For a positive capacity, a charging step never lowers the SOC and a discharging step never raises it. */
  lemma {:induction false} UpdateSocDirection(s: CellState, currentMa: real, dtMs: real, forced: Option<real>, ambient: Option<real>,
                           exp: real -> real, sqrt: real -> real)
    requires Consistent(s) && UpdateDefined(s, forced)
    requires s.capacityNominalAh > 0.0 && dtMs >= 0.0
    requires forced.Some? ==> forced.value > -175.0
    ensures var r := UpdateStep(s, currentMa, dtMs, forced, ambient, exp, sqrt);
      && (currentMa >= 0.0 ==> r.state.soc >= s.soc)
      && (currentMa <= 0.0 ==> r.state.soc <= s.soc)
  {
    UpdateAfterSocPhase(s, currentMa, dtMs, forced, ambient, exp, sqrt);
    var s1 := TemperaturePhase(s, currentMa, dtMs, forced, ambient);
    TemperaturePhaseCapacity(s, currentMa, dtMs, forced, ambient);
    SocPhaseDirection(s1, currentMa, dtMs);
  }

  /** With a positive nominal capacity and no forced temperature at or below -175 degrees, step 1 leaves a positive usable capacity. */
  lemma {:induction false} TemperaturePhaseCapacity(s: CellState, currentMa: real, dtMs: real, forced: Option<real>, ambient: Option<real>)
    requires Consistent(s) && s.capacityNominalAh > 0.0
    requires forced.Some? ==> forced.value > -175.0
    ensures var s1 := TemperaturePhase(s, currentMa, dtMs, forced, ambient);
      s1.soc == s.soc && TempCapacityAh(s1) > 0.0
  {
    var s1 := TemperaturePhase(s, currentMa, dtMs, forced, ambient);
    assert s1.capacityActualAh > 0.0;
    var f := 1.0 + CapacityTempCoeff * (s1.temperatureC - 25.0);
    assert f > 0.0;
    assert TempCapacityAh(s1) == s1.capacityActualAh * f;
    PositiveProduct(s1.capacityActualAh, f);
  }

  /** Coulomb counting over a positive capacity and a non-negative step moves the SOC with the sign of the current. */
  lemma {:induction false} SocPhaseDirection(s: CellState, currentMa: real, dtMs: real)
    requires TempCapacityAh(s) > 0.0 && dtMs >= 0.0
    ensures currentMa >= 0.0 ==> SocPhase(s, currentMa, dtMs).soc >= Clamp(s.soc, 0.0, 1.0)
    ensures currentMa <= 0.0 ==> SocPhase(s, currentMa, dtMs).soc <= Clamp(s.soc, 0.0, 1.0)
  {
    var cap := TempCapacityAh(s);
    var q := (currentMa / 1000.0) * (dtMs / (1000.0 * 3600.0));
    if currentMa >= 0.0 {
      assert q >= 0.0;
      assert q / cap >= 0.0;
    }
    if currentMa <= 0.0 {
      assert q <= 0.0;
      assert q / cap <= 0.0;
    }
  }

  /**
   * The steps after the direction bookkeeping leave the SOC, the last
   * direction and the hysteresis SOC as the first three steps set them.
   */
  lemma {:induction false} UpdateAfterSocPhase(s: CellState, currentMa: real, dtMs: real, forced: Option<real>, ambient: Option<real>,
                            exp: real -> real, sqrt: real -> real)
    requires Consistent(s) && UpdateDefined(s, forced)
    ensures TempCapacityAh(TemperaturePhase(s, currentMa, dtMs, forced, ambient)) != 0.0
    ensures var s3 := DirectionPhase(SocPhase(TemperaturePhase(s, currentMa, dtMs, forced, ambient), currentMa, dtMs),
                                     Direction(currentMa));
      var r := UpdateStep(s, currentMa, dtMs, forced, ambient, exp, sqrt).state;
      && r.soc == s3.soc && r.lastDirection == s3.lastDirection && r.hysteresisSoc == s3.hysteresisSoc
  {
    var s1 := TemperaturePhase(s, currentMa, dtMs, forced, ambient);
    CapacityNonZero(s1);
    var s3 := DirectionPhase(SocPhase(s1, currentMa, dtMs), Direction(currentMa));
    var s5 := StoragePhase(RcPhase(s3, currentMa, dtMs, exp), currentMa, dtMs);
    assert s5.soc == s3.soc && s5.lastDirection == s3.lastDirection && s5.hysteresisSoc == s3.hysteresisSoc;
  }

  lemma {:induction false} PositiveProduct(x: real, y: real)
    requires x > 0.0 && y > 0.0
    ensures x * y > 0.0
  {
  }

  // ---------------------------------------------------------------------
  // The cell object.

  /** A LiFePO4 cell whose methods advance its fields in place. */
  class LiFePO4Cell {
    const capacityNominalAh: real
    var soc: real
    var temperatureC: real
    var ambientTempC: real
    var cycles: int
    var baseResistanceMultiplier: real
    var vRc1: real
    var vRc2: real
    var lastCurrentDirection: int
    var hysteresisSoc: real
    var calendarAgingTimeHours: real
    var lastUpdateTimeHours: real
    var storageSoc: real
    var storageTemp: real
    var capacityActualAh: real
    var resistanceMultiplier: real

    /** The object's fields as a value. */
    function State(): CellState
      reads this
    {
      CellState(capacityNominalAh, soc, temperatureC, ambientTempC, cycles, baseResistanceMultiplier,
                vRc1, vRc2, lastCurrentDirection, hysteresisSoc, calendarAgingTimeHours,
                lastUpdateTimeHours, storageSoc, storageTemp, capacityActualAh, resistanceMultiplier)
    }

    predicate Valid()
      reads this
    {
      Consistent(State())
    }

    constructor(capacityAh: real, initialSoc: real, temperatureC: real, cycles: int,
                ambientTempC: real, resistanceMultiplier: real, exp: real -> real, sqrt: real -> real)
      ensures Valid()
      ensures State() == InitialState(capacityAh, initialSoc, temperatureC, cycles, ambientTempC,
                                      resistanceMultiplier, exp, sqrt)
    {
      capacityNominalAh := capacityAh;
      soc := Clamp(initialSoc, 0.0, 1.0);
      this.temperatureC := temperatureC;
      this.ambientTempC := ambientTempC;
      this.cycles := cycles;
      baseResistanceMultiplier := Max(resistanceMultiplier, 0.1);
      vRc1 := 0.0;
      vRc2 := 0.0;
      lastCurrentDirection := 0;
      hysteresisSoc := initialSoc;
      calendarAgingTimeHours := 0.0;
      lastUpdateTimeHours := 0.0;
      storageSoc := initialSoc;
      storageTemp := temperatureC;
      capacityActualAh := 0.0;
      this.resistanceMultiplier := 0.0;
      new;
      UpdateAging(exp, sqrt);
      InitialStateFacts(capacityAh, initialSoc, temperatureC, cycles, ambientTempC, resistanceMultiplier, exp, sqrt);
    }

    /** `_update_aging`. */
    method UpdateAging(exp: real -> real, sqrt: real -> real)
      requires CalendarDefined(State())
      modifies this
      ensures State() == Aged(old(State()), exp, sqrt)
    {
      ghost var s0 := State();
      var cycleFadeFactor := Max(1.0 - FadeRate * sqrt(MaxInt0(cycles) as real), 0.5);
      assert cycleFadeFactor == CycleFadeFactor(s0.cycles, sqrt);
      var calendarFadeFactor := 1.0;
      if calendarAgingTimeHours > 0.0 {
        var tempKelvin := storageTemp + 273.15;
        var arrheniusFactor := exp(-ActivationEnergy / (GasConstant * tempKelvin));
        var socFactor := sqrt(storageSoc) + sqrt(1.0 - storageSoc);
        socFactor := socFactor / 2.0;
        var calendarAgingRate := CalendarBaseRate * arrheniusFactor * socFactor;
        var calendarFade := calendarAgingRate * calendarAgingTimeHours;
        calendarFadeFactor := 1.0 - Min(calendarFade, 0.3);
      }
      assert calendarFadeFactor == CalendarFadeFactor(s0, exp, sqrt);
      var totalFadeFactor := cycleFadeFactor * calendarFadeFactor;
      totalFadeFactor := Max(totalFadeFactor, 0.5);
      capacityActualAh := capacityNominalAh * totalFadeFactor;
      resistanceMultiplier := 1.0 + ResistanceIncreaseRate * MaxInt0(cycles) as real;
    }

    /** `_update_thermal_model`. */
    method UpdateThermal(currentMa: real, dtMs: real, ambient: Option<real>)
      modifies this
      ensures State() == ThermalStep(old(State()), currentMa, dtMs, ambient)
    {
      if ambient.Some? {
        ambientTempC := ambient.value;
      }
      var r0Mohm := R0(State(), None, None);
      var dtemp := ThermalDelta(currentMa, dtMs, r0Mohm, temperatureC, ambientTempC);
      temperatureC := temperatureC + dtemp;
      temperatureC := Clamp(temperatureC, -40.0, 85.0);
    }

    /**
     * `update`: one step of the equivalent circuit. Returns the terminal
     * voltage in mV and the SOC in percent.
     */
    method Update(currentMa: real, dtMs: real, forced: Option<real>, ambient: Option<real>,
                  exp: real -> real, sqrt: real -> real) returns (voltageMv: real, socPct: real)
      requires Valid() && UpdateDefined(State(), forced)
      modifies this
      ensures Valid()
      ensures var r := UpdateStep(old(State()), currentMa, dtMs, forced, ambient, exp, sqrt);
        State() == r.state && voltageMv == r.voltageMv && socPct == r.socPct
    {
      ghost var s0 := State();
      if forced.None? {
        UpdateThermal(currentMa, dtMs, ambient);
      } else {
        temperatureC := forced.value;
      }
      CapacityNonZero(State());
      CoulombCount(currentMa, dtMs);
      var newDirection := Direction(currentMa);
      TrackDirection(newDirection);
      UpdateRc(currentMa, dtMs, exp);
      var vTerminal := TerminalVoltage(State(), currentMa, newDirection);
      TrackCalendar(currentMa, dtMs, exp, sqrt);
      voltageMv := vTerminal * 1000.0;
      socPct := soc * 100.0;
      UpdateBounds(s0, currentMa, dtMs, forced, ambient, exp, sqrt);
    }

    /** `update`, SOC by Coulomb counting at the temperature-dependent capacity. */
    method CoulombCount(currentMa: real, dtMs: real)
      requires TempCapacityAh(State()) != 0.0
      modifies this
      ensures State() == SocPhase(old(State()), currentMa, dtMs)
    {
      var tempCapacityFactor := 1.0 + CapacityTempCoeff * (temperatureC - 25.0);
      var capacityAh := capacityActualAh * tempCapacityFactor;
      assert capacityAh == TempCapacityAh(State());
      var currentA := currentMa / 1000.0;
      var dtHours := dtMs / (1000.0 * 3600.0);
      var dsoc := (currentA * dtHours) / capacityAh;
      assert dsoc == ((currentMa / 1000.0) * (dtMs / (1000.0 * 3600.0))) / TempCapacityAh(State());
      soc := soc + dsoc;
      soc := Clamp(soc, 0.0, 1.0);
    }

    /** `update`, hysteresis tracking for the new direction. */
    method TrackDirection(newDirection: int)
      modifies this
      ensures State() == DirectionPhase(old(State()), newDirection)
    {
      if newDirection != 0 && newDirection != lastCurrentDirection {
        hysteresisSoc := soc;
        lastCurrentDirection := newDirection;
      } else if newDirection != 0 {
        lastCurrentDirection := newDirection;
      }
    }

    /** `update`, both RC branches. */
    method UpdateRc(currentMa: real, dtMs: real, exp: real -> real)
      modifies this
      ensures State() == RcPhase(old(State()), currentMa, dtMs, exp)
    {
      var rcScaleFactor := RcScale(State(), currentMa);
      var currentA := currentMa / 1000.0;
      var dtSec := dtMs / 1000.0;
      vRc1 := RcVoltage(vRc1, currentA, R1 * rcScaleFactor, C1, dtSec, exp);
      vRc2 := RcVoltage(vRc2, currentA, R2 * rcScaleFactor, C2, dtSec, exp);
    }

    /** `update`, calendar tracking and the hourly re-aging. */
    method TrackCalendar(currentMa: real, dtMs: real, exp: real -> real, sqrt: real -> real)
      requires CalendarDefined(StoragePhase(State(), currentMa, dtMs))
      modifies this
      ensures State() == AgingPhase(StoragePhase(old(State()), currentMa, dtMs), exp, sqrt)
    {
      var currentTimeHours := calendarAgingTimeHours + dtMs / (1000.0 * 3600.0);
      if Abs(currentMa) < DeadZoneMa {
        storageSoc := soc;
      }
      storageTemp := temperatureC;
      calendarAgingTimeHours := currentTimeHours;
      if currentTimeHours - lastUpdateTimeHours > 1.0 {
        UpdateAging(exp, sqrt);
        lastUpdateTimeHours := currentTimeHours;
      }
    }

    /** `set_aging`: counters floored at 0, then aged at once. */
    method SetAging(cycles: int, calendarAgingHours: Option<real>, exp: real -> real, sqrt: real -> real)
      requires Valid() && CalendarDefined(AgingInputs(State(), cycles, calendarAgingHours))
      modifies this
      ensures Valid()
      ensures State() == SetAgingState(old(State()), cycles, calendarAgingHours, exp, sqrt)
    {
      ghost var s0 := State();
      this.cycles := MaxInt0(cycles);
      if calendarAgingHours.Some? {
        calendarAgingTimeHours := Max(calendarAgingHours.value, 0.0);
      }
      UpdateAging(exp, sqrt);
      SetAgingFacts(s0, cycles, calendarAgingHours, exp, sqrt);
    }

    /** `reset`: an optional new SOC (clamped) and temperature; RC voltages and direction cleared. */
    method Reset(socPct: Option<real>, temperatureC: Option<real>)
      requires Valid()
      modifies this
      ensures Valid()
      ensures State() == ResetState(old(State()), socPct, temperatureC)
    {
      if socPct.Some? {
        soc := Clamp(socPct.value / 100.0, 0.0, 1.0);
      }
      if temperatureC.Some? {
        this.temperatureC := temperatureC.value;
      }
      vRc1 := 0.0;
      vRc2 := 0.0;
      lastCurrentDirection := 0;
    }
  }
}
