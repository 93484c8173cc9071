/**
 * The 16S pack: sixteen cell objects in series, all driven by one
 * current, with per-slot voltage and temperature overrides, the
 * nearest-neighbour thermal coupling and the pack aggregates.
 */
module PackModel {
  import opened Wrappers
  import opened CellModel

  const NumCells: nat := 16

  // ---------------------------------------------------------------------
  // Aggregates over the sixteen readings (np.sum, np.min, np.max, np.mean).

  function Sum(xs: seq<real>): real
  {
    if |xs| == 0 then 0.0 else Sum(xs[..|xs| - 1]) + xs[|xs| - 1]
  }

  function SeqMin(xs: seq<real>): (r: real)
    requires |xs| > 0
    ensures forall i :: 0 <= i < |xs| ==> r <= xs[i]
    ensures exists i :: 0 <= i < |xs| && r == xs[i]
  {
    if |xs| == 1 then xs[0]
    else
      var m := SeqMin(xs[..|xs| - 1]);
      assert forall i :: 0 <= i < |xs| - 1 ==> xs[..|xs| - 1][i] == xs[i];
      Min(m, xs[|xs| - 1])
  }

  function SeqMax(xs: seq<real>): (r: real)
    requires |xs| > 0
    ensures forall i :: 0 <= i < |xs| ==> r >= xs[i]
    ensures exists i :: 0 <= i < |xs| && r == xs[i]
  {
    if |xs| == 1 then xs[0]
    else
      var m := SeqMax(xs[..|xs| - 1]);
      assert forall i :: 0 <= i < |xs| - 1 ==> xs[..|xs| - 1][i] == xs[i];
      Max(m, xs[|xs| - 1])
  }

  function Mean(xs: seq<real>): real
    requires |xs| > 0
  {
    Sum(xs) / |xs| as real
  }

  /** A sum of values in [lo, hi] lies between n lo and n hi. */
  lemma {:induction false} SumBounds(xs: seq<real>, lo: real, hi: real)
    requires forall i :: 0 <= i < |xs| ==> lo <= xs[i] <= hi
    ensures |xs| as real * lo <= Sum(xs) <= |xs| as real * hi
  {
    if |xs| > 0 {
      var p := xs[..|xs| - 1];
      assert forall i :: 0 <= i < |p| ==> p[i] == xs[i];
      SumBounds(p, lo, hi);
      assert |xs| as real * lo == |p| as real * lo + lo;
      assert |xs| as real * hi == |p| as real * hi + hi;
    }
  }

  /** The mean lies between the minimum and the maximum. */
  lemma {:induction false} MeanBetween(xs: seq<real>)
    requires |xs| > 0
    ensures SeqMin(xs) <= Mean(xs) <= SeqMax(xs)
  {
    MeanBounds(xs, SeqMin(xs), SeqMax(xs));
  }

  lemma {:induction false} MeanBounds(xs: seq<real>, lo: real, hi: real)
    requires |xs| > 0 && forall i :: 0 <= i < |xs| ==> lo <= xs[i] <= hi
    ensures lo <= Mean(xs) <= hi
  {
    SumBounds(xs, lo, hi);
    DivideBounds(Sum(xs), |xs| as real, lo, hi);
  }

  lemma {:induction false} DivideBounds(total: real, n: real, lo: real, hi: real)
    requires n > 0.0 && n * lo <= total <= n * hi
    ensures lo <= total / n <= hi
  {
    assert lo == (n * lo) / n;
    assert hi == (n * hi) / n;
  }

  // ---------------------------------------------------------------------
  // Thermal coupling (pack_model.py:166-207).

  /**
   * The heat flow into cell a from cell a + 1, coefficient times the
   * difference; zero outside the fifteen neighbouring pairs.
   */
  function PairFlow(temps: seq<real>, k: real, a: int): real
    requires |temps| == NumCells
  {
    if 0 <= a < NumCells - 1 then k * (temps[a + 1] - temps[a]) else 0.0
  }

  /**
   * The coupling energies once every cell has been visited: each pair is
   * counted by the visits of both its cells, so cell j receives twice the
   * flow from its right neighbour less twice the flow to its left one.
   */
  function CouplingEnergy(temps: seq<real>, k: real): seq<real>
    requires |temps| == NumCells
  {
    seq(NumCells, j requires 0 <= j < NumCells => 2.0 * (PairFlow(temps, k, j) - PairFlow(temps, k, j - 1)))
  }

  /**
   * The energy of cell j once the visits 0 .. i-1 are done: pair a has
   * been counted by visit a (its left cell) if a < i, and by visit a + 1
   * (its right cell) if a + 1 < i.
   */
  function PartialEnergy(temps: seq<real>, k: real, i: int, j: int): real
    requires |temps| == NumCells
  {
    (if j < i then PairFlow(temps, k, j) else 0.0)
    + (if j + 1 < i then PairFlow(temps, k, j) else 0.0)
    - (if j - 1 < i then PairFlow(temps, k, j - 1) else 0.0)
    - (if j < i then PairFlow(temps, k, j - 1) else 0.0)
  }

  /** What visit i adds to cell j for its left pair. */
  function LeftVisit(temps: seq<real>, k: real, i: int, j: int): real
    requires |temps| == NumCells && 0 <= i < NumCells
  {
    if i > 0 && j == i then -(k * (temps[i] - temps[i - 1]))
    else if i > 0 && j == i - 1 then k * (temps[i] - temps[i - 1])
    else 0.0
  }

  /** What visit i adds to cell j for its right pair. */
  function RightVisit(temps: seq<real>, k: real, i: int, j: int): real
    requires |temps| == NumCells && 0 <= i < NumCells
  {
    if i < NumCells - 1 && j == i then -(k * (temps[i] - temps[i + 1]))
    else if i < NumCells - 1 && j == i + 1 then k * (temps[i] - temps[i + 1])
    else 0.0
  }

  /** Visit i moves every energy from its count before the visit to its count after. */
  lemma {:induction false} VisitStep(temps: seq<real>, k: real, i: int, j: int)
    requires |temps| == NumCells && 0 <= i < NumCells && 0 <= j < NumCells
    ensures PartialEnergy(temps, k, i + 1, j)
      == PartialEnergy(temps, k, i, j) + LeftVisit(temps, k, i, j) + RightVisit(temps, k, i, j)
  {
  }

  /** After all sixteen visits the partial energies are the coupling energies. */
  lemma {:induction false} AllVisited(temps: seq<real>, k: real)
    requires |temps| == NumCells
    ensures forall j :: 0 <= j < NumCells ==> PartialEnergy(temps, k, NumCells, j) == CouplingEnergy(temps, k)[j]
  {
  }

  /** Prefix sums of the coupling energies telescope to twice the last pair's flow. */
  lemma {:induction false} CouplingPrefixSum(temps: seq<real>, k: real, n: nat)
    requires |temps| == NumCells && n <= NumCells
    ensures Sum(CouplingEnergy(temps, k)[..n]) == 2.0 * PairFlow(temps, k, n as int - 1)
  {
    var e := CouplingEnergy(temps, k);
    if n > 0 {
      CouplingPrefixSum(temps, k, n - 1);
      assert e[..n][..n - 1] == e[..n - 1];
      assert Sum(e[..n]) == Sum(e[..n - 1]) + e[n - 1];
    }
  }

  /** The coupling only moves heat between cells: the energies sum to zero. */
  lemma {:induction false} CouplingConserves(temps: seq<real>, k: real)
    requires |temps| == NumCells
    ensures Sum(CouplingEnergy(temps, k)) == 0.0
  {
    CouplingPrefixSum(temps, k, NumCells);
    assert CouplingEnergy(temps, k)[..NumCells] == CouplingEnergy(temps, k);
  }

  /** Equal temperatures exchange no heat. */
  lemma {:induction false} CouplingAtEquilibrium(temps: seq<real>, k: real)
    requires |temps| == NumCells
    requires forall i :: 0 <= i < NumCells ==> temps[i] == temps[0]
    ensures forall j :: 0 <= j < NumCells ==> CouplingEnergy(temps, k)[j] == 0.0
  {
    forall j | 0 <= j < NumCells
      ensures CouplingEnergy(temps, k)[j] == 0.0
    {
      assert PairFlow(temps, k, j) == 0.0;
      assert PairFlow(temps, k, j - 1) == 0.0;
    }
  }

  /** A coupled cell's new temperature: the energy over the thermal mass, clamped. */
  function CoupledTemperature(t: real, energy: real, dtMs: real): (r: real)
    ensures -40.0 <= r <= 85.0
  {
    Clamp(t + (energy * (dtMs / 1000.0)) / ThermalMass, -40.0, 85.0)
  }

  function TemperaturesOf(states: seq<CellState>): (r: seq<real>)
    ensures |r| == |states| && forall i :: 0 <= i < |states| ==> r[i] == states[i].temperatureC
  {
    seq(|states|, i requires 0 <= i < |states| => states[i].temperatureC)
  }

  /** The states after the coupling: overridden cells untouched, the others adjusted. */
  function Coupled(states: seq<CellState>, faultTemperatures: seq<Option<real>>, k: real, dtMs: real): seq<CellState>
    requires |states| == NumCells && |faultTemperatures| == NumCells
  {
    var energy := CouplingEnergy(TemperaturesOf(states), k);
    seq(NumCells, i requires 0 <= i < NumCells => CoupledCell(states[i], faultTemperatures[i], energy[i], dtMs))
  }

  /** One cell after coupling: an overridden temperature is left untouched. */
  function CoupledCell(s: CellState, fault: Option<real>, energy: real, dtMs: real): CellState
  {
    if fault.None? then s.(temperatureC := CoupledTemperature(s.temperatureC, energy, dtMs)) else s
  }

  /** Coupling changes temperatures only, leaves overridden cells alone and keeps the rest in [-40, 85]. */
  lemma {:induction false} CoupledFacts(states: seq<CellState>, faultTemperatures: seq<Option<real>>, k: real, dtMs: real)
    requires |states| == NumCells && |faultTemperatures| == NumCells
    ensures var r := Coupled(states, faultTemperatures, k, dtMs);
      && |r| == NumCells
      && (forall i :: 0 <= i < NumCells ==> r[i] == states[i].(temperatureC := r[i].temperatureC))
      && (forall i :: 0 <= i < NumCells && faultTemperatures[i].Some? ==> r[i] == states[i])
      && (forall i :: 0 <= i < NumCells && faultTemperatures[i].None? ==> -40.0 <= r[i].temperatureC <= 85.0)
  {
  }

  // ---------------------------------------------------------------------
  // The pack update and readings, on states.

  /** Every cell steps with the same pack current; cell i's forced temperature is its override. */
  function SteppedAll(states: seq<CellState>, faultTemperatures: seq<Option<real>>, currentMa: real, dtMs: real,
                      ambient: real, exp: real -> real, sqrt: real -> real): (r: seq<CellState>)
    requires |states| == NumCells && |faultTemperatures| == NumCells
    requires forall i :: 0 <= i < NumCells ==> Consistent(states[i]) && UpdateDefined(states[i], faultTemperatures[i])
    ensures |r| == NumCells
  {
    seq(NumCells, i requires 0 <= i < NumCells =>
      UpdateStep(states[i], currentMa, dtMs, faultTemperatures[i], Some(ambient), exp, sqrt).state)
  }

  /** Cell voltages as reported: an override verbatim, else the OCV in mV that `get_state` gives. */
  function VoltagesOf(faultVoltages: seq<Option<real>>, states: seq<CellState>): (r: seq<real>)
    requires |states| == NumCells && |faultVoltages| == NumCells
    requires forall i :: 0 <= i < NumCells ==> 0.0 <= states[i].soc <= 1.0
    ensures |r| == NumCells
  {
    seq(NumCells, i requires 0 <= i < NumCells =>
      if faultVoltages[i].Some? then faultVoltages[i].value else GetState(states[i]).voltageMv)
  }

  /** Cell SOCs in percent; overrides play no part. */
  function SocsOf(states: seq<CellState>): (r: seq<real>)
    ensures |r| == |states| && forall i :: 0 <= i < |states| ==> r[i] == states[i].soc * 100.0
  {
    seq(|states|, i requires 0 <= i < |states| => states[i].soc * 100.0)
  }

  /** `get_pack_soc`: the mean in "average" mode, the minimum in "minimum" and any other mode. */
  function PackSoc(mode: string, socs: seq<real>): real
    requires |socs| > 0
  {
    if mode == "minimum" then SeqMin(socs)
    else if mode == "average" then Mean(socs)
    else SeqMin(socs)
  }

  /** The pack SOC of consistent cells is a percentage, and "average" never reads below "minimum". */
  lemma {:induction false} PackSocBounds(mode: string, states: seq<CellState>)
    requires |states| > 0 && forall i :: 0 <= i < |states| ==> Consistent(states[i])
    ensures 0.0 <= PackSoc(mode, SocsOf(states)) <= 100.0
    ensures PackSoc("minimum", SocsOf(states)) <= PackSoc("average", SocsOf(states))
    ensures mode != "average" ==> PackSoc(mode, SocsOf(states)) == PackSoc("minimum", SocsOf(states))
  {
    var socs := SocsOf(states);
    MeanBetween(socs);
    var lo := SeqMin(socs);
    var hi := SeqMax(socs);
    var i :| 0 <= i < |socs| && lo == socs[i];
    var j :| 0 <= j < |socs| && hi == socs[j];
    assert 0.0 <= lo && hi <= 100.0;
  }

  /** What `get_cell_imbalance` reports (the standard deviations are not modelled). */
  datatype Imbalance = Imbalance(
    minVoltageMv: real, maxVoltageMv: real, voltageDeltaMv: real,
    minSocPct: real, maxSocPct: real, socDeltaPct: real)

  /** The extremes and spreads of the reported voltages and SOCs. */
  function ImbalanceOf(voltages: seq<real>, socs: seq<real>): (r: Imbalance)
    requires |voltages| > 0 && |socs| > 0
    ensures forall i :: 0 <= i < |voltages| ==> r.minVoltageMv <= voltages[i] <= r.maxVoltageMv
    ensures forall i :: 0 <= i < |socs| ==> r.minSocPct <= socs[i] <= r.maxSocPct
    ensures 0.0 <= r.voltageDeltaMv && 0.0 <= r.socDeltaPct
  {
    var vmin, vmax := SeqMin(voltages), SeqMax(voltages);
    var smin, smax := SeqMin(socs), SeqMax(socs);
    Imbalance(vmin, vmax, vmax - vmin, smin, smax, smax - smin)
  }

  /** The voltage spread is zero exactly when every cell reports the same voltage. */
  lemma {:induction false} ImbalanceZeroIffBalanced(voltages: seq<real>, socs: seq<real>)
    requires |voltages| > 0 && |socs| > 0
    ensures ImbalanceOf(voltages, socs).voltageDeltaMv == 0.0 <==>
            forall i :: 0 <= i < |voltages| ==> voltages[i] == voltages[0]
    ensures ImbalanceOf(voltages, socs).socDeltaPct == 0.0 <==>
            forall i :: 0 <= i < |socs| ==> socs[i] == socs[0]
  {
    var r := ImbalanceOf(voltages, socs);
    if forall i :: 0 <= i < |voltages| ==> voltages[i] == voltages[0] {
      var a :| 0 <= a < |voltages| && SeqMin(voltages) == voltages[a];
      var b :| 0 <= b < |voltages| && SeqMax(voltages) == voltages[b];
    }
    if forall i :: 0 <= i < |socs| ==> socs[i] == socs[0] {
      var a :| 0 <= a < |socs| && SeqMin(socs) == socs[a];
      var b :| 0 <= b < |socs| && SeqMax(socs) == socs[b];
    }
  }

  /** Cell temperatures as reported: an override verbatim, else the cell's own temperature. */
  function ReportedTemperatures(faultTemperatures: seq<Option<real>>, states: seq<CellState>): (r: seq<real>)
    requires |states| == NumCells && |faultTemperatures| == NumCells
    ensures |r| == NumCells
  {
    seq(NumCells, i requires 0 <= i < NumCells =>
      if faultTemperatures[i].Some? then faultTemperatures[i].value else states[i].temperatureC)
  }

  /** Every cell after `reset(soc_pct, temperature_c)`. */
  function ResetAll(states: seq<CellState>, socPct: Option<real>, temperatureC: Option<real>): (r: seq<CellState>)
    ensures |r| == |states|
    ensures forall i :: 0 <= i < |states| && Consistent(states[i]) ==> Consistent(r[i])
  {
    seq(|states|, i requires 0 <= i < |states| => ResetState(states[i], socPct, temperatureC))
  }

  /** Every cell after `set_aging(cycles)` with its calendar hours kept. */
  function AgedAll(states: seq<CellState>, cycles: int, exp: real -> real, sqrt: real -> real): (r: seq<CellState>)
    requires forall i :: 0 <= i < |states| ==> CalendarDefined(AgingInputs(states[i], cycles, None))
    ensures |r| == |states|
  {
    seq(|states|, i requires 0 <= i < |states| => SetAgingState(states[i], cycles, None, exp, sqrt))
  }

  /** Visit i's left pair: cell i gives k (T[i] - T[i-1]) to cell i - 1. */
  method VisitLeft(couplingEnergy: seq<real>, currentTemps: seq<real>, k: real, i: nat) returns (e: seq<real>)
    requires |couplingEnergy| == NumCells && |currentTemps| == NumCells && i < NumCells
    ensures |e| == NumCells
    ensures forall j :: 0 <= j < NumCells ==> e[j] == couplingEnergy[j] + LeftVisit(currentTemps, k, i, j)
  {
    e := couplingEnergy;
    if i > 0 {
      var tempDiff := currentTemps[i] - currentTemps[i - 1];
      e := e[i := e[i] - k * tempDiff];
      e := e[i - 1 := e[i - 1] + k * tempDiff];
    }
  }

  /** Visit i's right pair: cell i gives k (T[i] - T[i+1]) to cell i + 1. */
  method VisitRight(couplingEnergy: seq<real>, currentTemps: seq<real>, k: real, i: nat) returns (e: seq<real>)
    requires |couplingEnergy| == NumCells && |currentTemps| == NumCells && i < NumCells
    ensures |e| == NumCells
    ensures forall j :: 0 <= j < NumCells ==> e[j] == couplingEnergy[j] + RightVisit(currentTemps, k, i, j)
  {
    e := couplingEnergy;
    if i < NumCells - 1 {
      var tempDiff := currentTemps[i] - currentTemps[i + 1];
      e := e[i := e[i] - k * tempDiff];
      e := e[i + 1 := e[i + 1] + k * tempDiff];
    }
  }

  /**
   * The coupling loop of `_apply_thermal_coupling`: each visit i moves
   * k (T[i] - T[j]) from cell i to each neighbour j.
   */
  method CouplingEnergies(currentTemps: seq<real>, k: real) returns (couplingEnergy: seq<real>)
    requires |currentTemps| == NumCells
    ensures couplingEnergy == CouplingEnergy(currentTemps, k)
  {
    couplingEnergy := seq(NumCells, _ => 0.0);
    for i := 0 to NumCells
      invariant |couplingEnergy| == NumCells
      invariant forall j :: 0 <= j < NumCells ==> couplingEnergy[j] == PartialEnergy(currentTemps, k, i, j)
    {
      ghost var e0 := couplingEnergy;
      couplingEnergy := VisitLeft(couplingEnergy, currentTemps, k, i);
      ghost var e1 := couplingEnergy;
      couplingEnergy := VisitRight(couplingEnergy, currentTemps, k, i);
      forall j | 0 <= j < NumCells
        ensures couplingEnergy[j] == PartialEnergy(currentTemps, k, i + 1, j)
      {
        assert couplingEnergy[j] == e1[j] + RightVisit(currentTemps, k, i, j);
        assert e1[j] == e0[j] + LeftVisit(currentTemps, k, i, j);
        VisitStep(currentTemps, k, i, j);
      }
    }
    AllVisited(currentTemps, k);
  }

  /**
   * Cell i's state as `__init__` creates it: its capacity factor and SOC
   * offset applied and clipped, at the ambient temperature, and fresh: no
   * cycles, no calendar time, no RC voltage and no direction.
   */
  function SpreadState(cellCapacityAh: real, initialSocPct: real, ambientTempC: real,
                       capacityVariation: real, socVariation: real, resistanceVariation: real,
                       exp: real -> real, sqrt: real -> real): (r: CellState)
    ensures Consistent(r)
    ensures r.capacityNominalAh == cellCapacityAh * Clamp(capacityVariation, 0.98, 1.02)
    ensures 0.98 <= Clamp(capacityVariation, 0.98, 1.02) <= 1.02
    ensures r.soc == Clamp(initialSocPct / 100.0 + socVariation, 0.0, 1.0) && 0.0 <= r.soc <= 1.0
    ensures r.temperatureC == ambientTempC && r.baseResistanceMultiplier == Max(resistanceVariation, 0.1)
    ensures r.cycles == 0 && r.calendarAgingHours == 0.0 && r.lastDirection == 0 && r.vRc1 == 0.0 && r.vRc2 == 0.0
  {
    InitialStateFacts(cellCapacityAh * Clamp(capacityVariation, 0.98, 1.02),
                      Clamp(initialSocPct / 100.0 + socVariation, 0.0, 1.0),
                      ambientTempC, 0, 25.0, resistanceVariation, exp, sqrt);
    InitialState(cellCapacityAh * Clamp(capacityVariation, 0.98, 1.02),
                 Clamp(initialSocPct / 100.0 + socVariation, 0.0, 1.0),
                 ambientTempC, 0, 25.0, resistanceVariation, exp, sqrt)
  }

  /** The sixteen new, distinct cells of `__init__`, cell i drawn with the i-th variations. */
  method NewCells(cellCapacityAh: real, initialSocPct: real, ambientTempC: real,
                  capacityVariations: seq<real>, socVariations: seq<real>, resistanceVariations: seq<real>,
                  exp: real -> real, sqrt: real -> real)
    returns (cs: seq<LiFePO4Cell>)
    requires |capacityVariations| == NumCells && |socVariations| == NumCells && |resistanceVariations| == NumCells
    ensures |cs| == NumCells
    ensures forall a, b :: 0 <= a < b < NumCells ==> cs[a] != cs[b]
    ensures forall a :: 0 <= a < NumCells ==> fresh(cs[a]) && cs[a].Valid()
    ensures forall a :: 0 <= a < NumCells ==>
      cs[a].State() == SpreadState(cellCapacityAh, initialSocPct, ambientTempC, capacityVariations[a],
                                   socVariations[a], resistanceVariations[a], exp, sqrt)
  {
    cs := [];
    for i := 0 to NumCells
      invariant |cs| == i
      invariant forall a, b :: 0 <= a < b < i ==> cs[a] != cs[b]
      invariant forall a :: 0 <= a < i ==> fresh(cs[a]) && cs[a].Valid()
      invariant forall a :: 0 <= a < i ==>
        cs[a].State() == SpreadState(cellCapacityAh, initialSocPct, ambientTempC, capacityVariations[a],
                                     socVariations[a], resistanceVariations[a], exp, sqrt)
    {
      var cell := new LiFePO4Cell(cellCapacityAh * Clamp(capacityVariations[i], 0.98, 1.02),
                                  Clamp(initialSocPct / 100.0 + socVariations[i], 0.0, 1.0),
                                  ambientTempC, 0, 25.0, resistanceVariations[i], exp, sqrt);
      cs := cs + [cell];
    }
  }

  // ---------------------------------------------------------------------
  // The pack object.

  class BatteryPack16S {
    const cells: seq<LiFePO4Cell>
    var faultVoltages: seq<Option<real>>
    var faultTemperatures: seq<Option<real>>
    var packCurrentMa: real
    var ambientTempC: real
    var cycles: int
    const thermalCouplingCoeff: real
    const socCalculationMode: string

    predicate Valid()
      reads this, cells
    {
      && |cells| == NumCells
      && (forall i, j :: 0 <= i < j < NumCells ==> cells[i] != cells[j])
      && (forall i :: 0 <= i < NumCells ==> cells[i].Valid())
      && |faultVoltages| == NumCells
      && |faultTemperatures| == NumCells
    }

    /** The cells' states, in order. */
    function States(): (r: seq<CellState>)
      reads this, cells
      requires |cells| == NumCells
      ensures |r| == NumCells && forall i :: 0 <= i < NumCells ==> r[i] == cells[i].State()
    {
      seq(NumCells, i requires 0 <= i < NumCells reads cells => cells[i].State())
    }

    /**
     * `__init__`, with the random draws given: capacity factors (clipped
     * to [0.98, 1.02]), SOC offsets (the SOC clipped to [0, 1]) and
     * resistance factors.
     */
    constructor(cellCapacityAh: real, initialSocPct: real, ambientTempC: real,
                capacityVariations: seq<real>, socVariations: seq<real>, resistanceVariations: seq<real>,
                thermalCouplingCoeff: real, socCalculationMode: string,
                exp: real -> real, sqrt: real -> real)
      requires |capacityVariations| == NumCells && |socVariations| == NumCells && |resistanceVariations| == NumCells
      ensures Valid()
      ensures forall i :: 0 <= i < NumCells ==>
        cells[i].State() == SpreadState(cellCapacityAh, initialSocPct, ambientTempC, capacityVariations[i],
                                        socVariations[i], resistanceVariations[i], exp, sqrt)
      ensures faultVoltages == seq(NumCells, _ => None) && faultTemperatures == seq(NumCells, _ => None)
      ensures forall i :: 0 <= i < NumCells ==>
        var c := cells[i].State();
        c.cycles == 0 && c.calendarAgingHours == 0.0 && c.lastDirection == 0 && c.vRc1 == 0.0 && c.vRc2 == 0.0
      ensures packCurrentMa == 0.0 && cycles == 0 && this.ambientTempC == ambientTempC
      ensures this.thermalCouplingCoeff == thermalCouplingCoeff && this.socCalculationMode == socCalculationMode
    {
      var cs := NewCells(cellCapacityAh, initialSocPct, ambientTempC, capacityVariations, socVariations,
                         resistanceVariations, exp, sqrt);
      cells := cs;
      faultVoltages := seq(NumCells, _ => None);
      faultTemperatures := seq(NumCells, _ => None);
      packCurrentMa := 0.0;
      this.ambientTempC := ambientTempC;
      cycles := 0;
      this.thermalCouplingCoeff := thermalCouplingCoeff;
      this.socCalculationMode := socCalculationMode;
    }

    /**
     * `update`: record the current, step every cell with it (cell i forced
     * to its temperature override, if any, with the pack's ambient), then
     * couple neighbouring temperatures.
     */
    method Update(currentMa: real, dtMs: real, ambient: Option<real>, exp: real -> real, sqrt: real -> real)
      requires Valid()
      requires forall i :: 0 <= i < NumCells ==> UpdateDefined(cells[i].State(), faultTemperatures[i])
      modifies this, cells
      ensures Valid()
      ensures packCurrentMa == currentMa
      ensures ambientTempC == if ambient.Some? then ambient.value else old(ambientTempC)
      ensures faultVoltages == old(faultVoltages) && faultTemperatures == old(faultTemperatures)
      ensures cycles == old(cycles)
      ensures States() == Coupled(SteppedAll(old(States()), faultTemperatures, currentMa, dtMs, ambientTempC, exp, sqrt),
                                  faultTemperatures, thermalCouplingCoeff, dtMs)
    {
      if ambient.Some? {
        ambientTempC := ambient.value;
      }
      packCurrentMa := currentMa;
      ghost var s0 := States();
      assert s0 == old(States());
      StepCells(currentMa, dtMs, exp, sqrt);
      ghost var s1 := States();
      assert s1 == SteppedAll(s0, faultTemperatures, currentMa, dtMs, ambientTempC, exp, sqrt);
      ApplyThermalCoupling(dtMs);
      assert States() == Coupled(s1, faultTemperatures, thermalCouplingCoeff, dtMs);
    }

    /** Step every cell with the pack current, cell i forced to its temperature override. */
    method StepCells(currentMa: real, dtMs: real, exp: real -> real, sqrt: real -> real)
      requires Valid()
      requires forall i :: 0 <= i < NumCells ==> UpdateDefined(cells[i].State(), faultTemperatures[i])
      modifies cells
      ensures Valid()
      ensures States() == SteppedAll(old(States()), faultTemperatures, currentMa, dtMs, ambientTempC, exp, sqrt)
    {
      ghost var before := States();
      ghost var stepped := SteppedAll(before, faultTemperatures, currentMa, dtMs, ambientTempC, exp, sqrt);
      for i := 0 to NumCells
        invariant forall j :: 0 <= j < NumCells ==> cells[j].Valid()
        invariant forall j :: 0 <= j < i ==> cells[j].State() == stepped[j]
        invariant forall j :: i <= j < NumCells ==> cells[j].State() == before[j]
      {
        label Visit:
        var forcedTemp := faultTemperatures[i];
        var _, _ := cells[i].Update(currentMa, dtMs, forcedTemp, Some(ambientTempC), exp, sqrt);
        forall j | 0 <= j < NumCells && j != i
          ensures cells[j].State() == old@Visit(cells[j].State())
        {
          assert cells[j] != cells[i];
        }
      }
      assert States() == stepped;
    }

    /** The temperature adjustment of cell i by its coupling energy, clamped, unless overridden. */
    method CoupleCell(i: nat, energy: real, dtMs: real)
      requires Valid() && i < NumCells
      modifies cells[i]
      ensures cells[i].Valid()
      ensures cells[i].State() == CoupledCell(old(cells[i].State()), faultTemperatures[i], energy, dtMs)
    {
      if faultTemperatures[i].None? {
        var cell := cells[i];
        var dtSec := dtMs / 1000.0;
        var tempChange := (energy * dtSec) / ThermalMass;
        cell.temperatureC := cell.temperatureC + tempChange;
        cell.temperatureC := Clamp(cell.temperatureC, -40.0, 85.0);
      }
    }

    /** `_apply_thermal_coupling`. */
    method ApplyThermalCoupling(dtMs: real)
      requires Valid()
      modifies cells
      ensures Valid()
      ensures States() == Coupled(old(States()), faultTemperatures, thermalCouplingCoeff, dtMs)
    {
      ghost var before := States();
      var currentTemps := TemperaturesOf(States());
      var k := thermalCouplingCoeff;
      var couplingEnergy := CouplingEnergies(currentTemps, k);
      ghost var faults := faultTemperatures;
      ghost var target := seq(NumCells, j requires 0 <= j < NumCells =>
        CoupledCell(before[j], faults[j], couplingEnergy[j], dtMs));
      for i := 0 to NumCells
        invariant forall j :: 0 <= j < NumCells ==> cells[j].Valid()
        invariant forall j :: 0 <= j < NumCells ==> cells[j].State() == if j < i then target[j] else before[j]
      {
        label Visit:
        CoupleCell(i, couplingEnergy[i], dtMs);
        forall j | 0 <= j < NumCells && j != i
          ensures cells[j].State() == old@Visit(cells[j].State())
        {
          assert cells[j] != cells[i];
        }
      }
      assert States() == target;
    }

    /** `get_cell_voltages`. */
    method GetCellVoltages() returns (voltages: seq<real>)
      requires Valid()
      ensures |voltages| == NumCells
      ensures forall i :: 0 <= i < NumCells ==>
        voltages[i] == if faultVoltages[i].Some? then faultVoltages[i].value
                       else Ocv(cells[i].State(), None, None, None) * 1000.0
      ensures voltages == VoltagesOf(faultVoltages, States())
    {
      voltages := seq(NumCells, _ => 0.0);
      for i := 0 to NumCells
        invariant |voltages| == NumCells
        invariant forall j :: 0 <= j < i ==> voltages[j] == VoltagesOf(faultVoltages, States())[j]
      {
        if faultVoltages[i].Some? {
          voltages := voltages[i := faultVoltages[i].value];
        } else {
          var state := GetState(cells[i].State());
          voltages := voltages[i := state.voltageMv];
        }
      }
    }

    /** `get_cell_temperatures`. */
    method GetCellTemperatures() returns (temps: seq<real>)
      requires Valid()
      ensures |temps| == NumCells
      ensures forall i :: 0 <= i < NumCells ==>
        temps[i] == if faultTemperatures[i].Some? then faultTemperatures[i].value else cells[i].temperatureC
      ensures temps == ReportedTemperatures(faultTemperatures, States())
    {
      temps := seq(NumCells, _ => 0.0);
      for i := 0 to NumCells
        invariant |temps| == NumCells
        invariant forall j :: 0 <= j < i ==> temps[j] == ReportedTemperatures(faultTemperatures, States())[j]
      {
        if faultTemperatures[i].Some? {
          temps := temps[i := faultTemperatures[i].value];
        } else {
          temps := temps[i := cells[i].temperatureC];
        }
      }
    }

    /** `get_cell_socs`: percentages, overrides play no part. */
    method GetCellSocs() returns (socs: seq<real>)
      requires Valid()
      ensures |socs| == NumCells
      ensures forall i :: 0 <= i < NumCells ==> socs[i] == cells[i].soc * 100.0 && 0.0 <= socs[i] <= 100.0
      ensures socs == SocsOf(States())
    {
      socs := seq(NumCells, i requires 0 <= i < NumCells reads cells => cells[i].soc * 100.0);
    }

    /** `get_pack_voltage`: the sum of the reported cell voltages. */
    method GetPackVoltage() returns (packMv: real)
      requires Valid()
      ensures packMv == Sum(VoltagesOf(faultVoltages, States()))
    {
      var voltages := GetCellVoltages();
      packMv := Sum(voltages);
    }

    /** `get_pack_soc`. */
    method GetPackSoc() returns (socPct: real)
      requires Valid()
      ensures socPct == PackSoc(socCalculationMode, SocsOf(States()))
      ensures 0.0 <= socPct <= 100.0
      ensures SeqMin(SocsOf(States())) <= socPct
    {
      var socs := GetCellSocs();
      PackSocBounds(socCalculationMode, States());
      MeanBetween(socs);
      if socCalculationMode == "minimum" {
        socPct := SeqMin(socs);
      } else if socCalculationMode == "average" {
        socPct := Mean(socs);
      } else {
        socPct := SeqMin(socs);
      }
    }

    /** `get_cell_imbalance`, without the standard deviations. */
    method GetCellImbalance() returns (r: Imbalance)
      requires Valid()
      ensures r == ImbalanceOf(VoltagesOf(faultVoltages, States()), SocsOf(States()))
    {
      var voltages := GetCellVoltages();
      var socs := GetCellSocs();
      assert voltages == VoltagesOf(faultVoltages, States()) && socs == SocsOf(States());
      r := ImbalanceOf(voltages, socs);
    }

    /** `set_cell_voltage`: override (or clear, with None) the voltage reported for one cell. */
    method SetCellVoltage(cellIndex: int, voltageMv: Option<real>) returns (o: Outcome)
      requires Valid()
      modifies this
      ensures Valid()
      ensures o.Fail? <==> !(0 <= cellIndex < NumCells)
      ensures o.Fail? ==> o.error == ValueError("Cell index must be 0-15") && faultVoltages == old(faultVoltages)
      ensures o.Pass? ==> faultVoltages == old(faultVoltages)[cellIndex := voltageMv]
      ensures faultTemperatures == old(faultTemperatures) && unchanged(cells)
      ensures packCurrentMa == old(packCurrentMa) && ambientTempC == old(ambientTempC) && cycles == old(cycles)
    {
      if cellIndex < 0 || cellIndex >= NumCells {
        return Fail(ValueError("Cell index must be 0-15"));
      }
      faultVoltages := faultVoltages[cellIndex := voltageMv];
      o := Pass;
    }

    /** `set_cell_temperature`: override (or clear, with None) one cell's temperature. */
    method SetCellTemperature(cellIndex: int, temperatureC: Option<real>) returns (o: Outcome)
      requires Valid()
      modifies this
      ensures Valid()
      ensures o.Fail? <==> !(0 <= cellIndex < NumCells)
      ensures o.Fail? ==> o.error == ValueError("Cell index must be 0-15") && faultTemperatures == old(faultTemperatures)
      ensures o.Pass? ==> faultTemperatures == old(faultTemperatures)[cellIndex := temperatureC]
      ensures faultVoltages == old(faultVoltages) && unchanged(cells)
      ensures packCurrentMa == old(packCurrentMa) && ambientTempC == old(ambientTempC) && cycles == old(cycles)
    {
      if cellIndex < 0 || cellIndex >= NumCells {
        return Fail(ValueError("Cell index must be 0-15"));
      }
      faultTemperatures := faultTemperatures[cellIndex := temperatureC];
      o := Pass;
    }

    /** `clear_all_faults`. */
    method ClearAllFaults()
      requires Valid()
      modifies this
      ensures Valid()
      ensures forall i :: 0 <= i < NumCells ==> faultVoltages[i].None? && faultTemperatures[i].None?
      ensures unchanged(cells)
      ensures packCurrentMa == old(packCurrentMa) && ambientTempC == old(ambientTempC) && cycles == old(cycles)
    {
      faultVoltages := seq(NumCells, _ => None);
      faultTemperatures := seq(NumCells, _ => None);
    }

    /** `set_aging`: re-age every cell for the cycle count; the pack keeps the raw count. */
    method SetAging(cycles: int, exp: real -> real, sqrt: real -> real)
      requires Valid()
      requires forall i :: 0 <= i < NumCells ==> CalendarDefined(AgingInputs(cells[i].State(), cycles, None))
      modifies this, cells
      ensures Valid()
      ensures States() == AgedAll(old(States()), cycles, exp, sqrt)
      ensures this.cycles == cycles
      ensures faultVoltages == old(faultVoltages) && faultTemperatures == old(faultTemperatures)
      ensures packCurrentMa == old(packCurrentMa) && ambientTempC == old(ambientTempC)
    {
      ghost var before := States();
      ghost var target := AgedAll(before, cycles, exp, sqrt);
      for i := 0 to NumCells
        modifies cells
        invariant forall j :: 0 <= j < NumCells ==> cells[j].Valid()
        invariant forall j :: 0 <= j < i ==> cells[j].State() == target[j]
        invariant forall j :: i <= j < NumCells ==> cells[j].State() == before[j]
      {
        label Visit:
        cells[i].SetAging(cycles, None, exp, sqrt);
        forall j | 0 <= j < NumCells && j != i
          ensures cells[j].State() == old@Visit(cells[j].State())
        {
          assert cells[j] != cells[i];
        }
      }
      assert States() == target;
      this.cycles := cycles;
    }

    /** `reset`: reset every cell, clear the overrides and the current. */
    method Reset(socPct: Option<real>, temperatureC: Option<real>)
      requires Valid()
      modifies this, cells
      ensures Valid()
      ensures States() == ResetAll(old(States()), socPct, temperatureC)
      ensures forall i :: 0 <= i < NumCells ==> faultVoltages[i].None? && faultTemperatures[i].None?
      ensures packCurrentMa == 0.0
      ensures ambientTempC == old(ambientTempC) && cycles == old(cycles)
    {
      ghost var before := States();
      ghost var target := ResetAll(before, socPct, temperatureC);
      for i := 0 to NumCells
        modifies cells
        invariant forall j :: 0 <= j < NumCells ==> cells[j].Valid()
        invariant forall j :: 0 <= j < i ==> cells[j].State() == target[j]
        invariant forall j :: i <= j < NumCells ==> cells[j].State() == before[j]
      {
        label Visit:
        cells[i].Reset(socPct, temperatureC);
        forall j | 0 <= j < NumCells && j != i
          ensures cells[j].State() == old@Visit(cells[j].State())
        {
          assert cells[j] != cells[i];
        }
      }
      assert States() == target;
      ClearAllFaults();
      packCurrentMa := 0.0;
    }
  }
}
