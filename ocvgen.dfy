/**
 * The script that produced the discharge OCV table: eight measured key
 * points, and for every SOC from 0 % to 100 % either the key value or the
 * linear interpolation between the nearest keys below and above, rounded
 * to three decimals.
 */
module OcvGenerator {
  import opened Wrappers
  import CellModel

  datatype KeyPoint = KeyPoint(soc: nat, ocv: real)

  /** The measured key points, in the order the dictionary lists them. */
  const KeyPoints: seq<KeyPoint> := [
    KeyPoint(0, 2.862), KeyPoint(5, 3.112), KeyPoint(10, 3.172), KeyPoint(20, 3.279),
    KeyPoint(50, 3.297), KeyPoint(80, 3.314), KeyPoint(90, 3.329), KeyPoint(100, 3.472)
  ]

  /** The number of generated rows, one per SOC 0 .. 100. */
  const Rows: nat := 101

  /** `key_points[soc]` when `soc` is a key. */
  function Lookup(points: seq<KeyPoint>, soc: nat): Option<real>
  {
    if |points| == 0 then None
    else if points[0].soc == soc then Some(points[0].ocv)
    else Lookup(points[1..], soc)
  }

  /** `max([k for k in keys if k <= soc])`, or None where that list is empty. */
  function LowerKey(points: seq<KeyPoint>, soc: nat): Option<nat>
  {
    if |points| == 0 then None
    else
      var rest := LowerKey(points[1..], soc);
      if points[0].soc > soc then rest
      else if rest.Some? && rest.value > points[0].soc then rest
      else Some(points[0].soc)
  }

  /** `min([k for k in keys if k >= soc])`, or None where that list is empty. */
  function UpperKey(points: seq<KeyPoint>, soc: nat): Option<nat>
  {
    if |points| == 0 then None
    else
      var rest := UpperKey(points[1..], soc);
      if points[0].soc < soc then rest
      else if rest.Some? && rest.value < points[0].soc then rest
      else Some(points[0].soc)
  }

  /** The lookup finds a value exactly for the keys, and the value is that of the first entry with the key. */
  lemma {:induction false} LookupSpec(points: seq<KeyPoint>, soc: nat)
    ensures Lookup(points, soc).Some? <==> exists j :: 0 <= j < |points| && points[j].soc == soc
    ensures Lookup(points, soc).Some? ==>
      exists j :: 0 <= j < |points| && points[j] == KeyPoint(soc, Lookup(points, soc).value)
  {
    if |points| > 0 && points[0].soc != soc {
      LookupSpec(points[1..], soc);
      assert forall j :: 1 <= j < |points| ==> points[j] == points[1..][j - 1];
    }
  }

  /** The lower key is the largest key at most `soc`; there is none only when every key exceeds `soc`. */
  lemma {:induction false} LowerKeySpec(points: seq<KeyPoint>, soc: nat)
    ensures LowerKey(points, soc).None? <==> forall j :: 0 <= j < |points| ==> points[j].soc > soc
    ensures LowerKey(points, soc).Some? ==> var k := LowerKey(points, soc).value;
      && k <= soc
      && (exists j :: 0 <= j < |points| && points[j].soc == k)
      && forall j :: 0 <= j < |points| && points[j].soc <= soc ==> points[j].soc <= k
  {
    if |points| > 0 {
      LowerKeySpec(points[1..], soc);
      assert forall j :: 1 <= j < |points| ==> points[j] == points[1..][j - 1];
    }
  }

  /** The upper key is the smallest key at least `soc`; there is none only when every key is below `soc`. */
  lemma {:induction false} UpperKeySpec(points: seq<KeyPoint>, soc: nat)
    ensures UpperKey(points, soc).None? <==> forall j :: 0 <= j < |points| ==> points[j].soc < soc
    ensures UpperKey(points, soc).Some? ==> var k := UpperKey(points, soc).value;
      && k >= soc
      && (exists j :: 0 <= j < |points| && points[j].soc == k)
      && forall j :: 0 <= j < |points| && points[j].soc >= soc ==> points[j].soc >= k
  {
    if |points| > 0 {
      UpperKeySpec(points[1..], soc);
      assert forall j :: 1 <= j < |points| ==> points[j] == points[1..][j - 1];
    }
  }

  /** `(soc - lower_soc) / (upper_soc - lower_soc)`. */
  function Ratio(soc: nat, lower: nat, upper: nat): real
    requires lower != upper
  {
    (soc - lower) as real / (upper - lower) as real
  }

  /** `lower_ocv + ratio * (upper_ocv - lower_ocv)`. */
  function Lerp(lowerOcv: real, upperOcv: real, ratio: real): real
  {
    lowerOcv + ratio * (upperOcv - lowerOcv)
  }

  /** `round(x, 3)`, with ties rounded up. */
  function RoundMilli(x: real): real
  {
    (x * 1000.0 + 0.5).Floor as real / 1000.0
  }

  /** The generated OCV for one SOC. */
  function GeneratedValue(soc: nat): real
    requires soc < Rows
  {
    match Lookup(KeyPoints, soc)
    case Some(v) => v
    case None =>
      LowerKeySpec(KeyPoints, soc);
      UpperKeySpec(KeyPoints, soc);
      assert KeyPoints[0].soc <= soc && KeyPoints[7].soc >= soc;
      var lower, upper := LowerKey(KeyPoints, soc).value, UpperKey(KeyPoints, soc).value;
      LookupSpec(KeyPoints, lower);
      LookupSpec(KeyPoints, upper);
      Interpolated(soc, lower, upper)
  }

  /** The value between the keys `lower` and `upper` around a non-key SOC. */
  function Interpolated(soc: nat, lower: nat, upper: nat): real
    requires Lookup(KeyPoints, lower).Some? && Lookup(KeyPoints, upper).Some?
    requires lower <= soc <= upper
  {
    var lowerOcv := Lookup(KeyPoints, lower).value;
    if lower == upper then lowerOcv
    else
      var upperOcv := Lookup(KeyPoints, upper).value;
      RoundMilli(Lerp(lowerOcv, upperOcv, Ratio(soc, lower, upper)))
  }

  function KeySoc(j: nat): nat requires j < |KeyPoints| { KeyPoints[j].soc }

  lemma {:induction false} KeysSorted()
    ensures forall i, j :: 0 <= i < j < |KeyPoints| ==> KeySoc(i) < KeySoc(j)
  {
  }

  lemma {:induction false} SegmentNotKey(j: nat, soc: nat)
    requires j < 7 && KeySoc(j) < soc < KeySoc(j + 1)
    ensures Lookup(KeyPoints, soc) == None
  {
    KeysSorted();
    LookupSpec(KeyPoints, soc);
    forall i | 0 <= i < |KeyPoints|
      ensures KeyPoints[i].soc != soc
    {
      assert KeySoc(i) == KeyPoints[i].soc;
      if i <= j {
        assert KeySoc(i) <= KeySoc(j);
      } else {
        assert KeySoc(i) >= KeySoc(j + 1);
      }
    }
  }

  lemma {:induction false} SegmentLower(j: nat, soc: nat)
    requires j < 7 && KeySoc(j) < soc < KeySoc(j + 1)
    ensures LowerKey(KeyPoints, soc) == Some(KeySoc(j))
  {
    KeysSorted();
    LowerKeySpec(KeyPoints, soc);
    var r := LowerKey(KeyPoints, soc);
    assert KeyPoints[0].soc <= soc;
    var i :| 0 <= i < |KeyPoints| && KeyPoints[i].soc == r.value;
    assert KeySoc(i) == r.value && KeySoc(j) <= r.value;
  }

  lemma {:induction false} SegmentUpper(j: nat, soc: nat)
    requires j < 7 && KeySoc(j) < soc < KeySoc(j + 1)
    ensures UpperKey(KeyPoints, soc) == Some(KeySoc(j + 1))
  {
    KeysSorted();
    UpperKeySpec(KeyPoints, soc);
    var r := UpperKey(KeyPoints, soc);
    assert KeyPoints[7].soc >= soc;
    var i :| 0 <= i < |KeyPoints| && KeyPoints[i].soc == r.value;
    assert KeySoc(i) == r.value && KeySoc(j + 1) >= r.value;
  }

  /** A key's own entry is the one the lookup finds. */
  lemma {:induction false} KeyLookup(j: nat)
    requires j < |KeyPoints|
    ensures Lookup(KeyPoints, KeySoc(j)) == Some(KeyPoints[j].ocv)
  {
    KeysSorted();
    LookupSpec(KeyPoints, KeySoc(j));
    var r := Lookup(KeyPoints, KeySoc(j));
    var i :| 0 <= i < |KeyPoints| && KeyPoints[i] == KeyPoint(KeySoc(j), r.value);
    assert KeySoc(i) == KeySoc(j);
    assert i == j;
  }

  /** Line 21-22: at a key SOC the generated value is the key value exactly. */
  lemma {:induction false} KeyValueExact(j: nat)
    requires j < |KeyPoints|
    ensures KeySoc(j) < Rows && GeneratedValue(KeySoc(j)) == KeyPoints[j].ocv
  {
    KeyLookup(j);
  }

  /** Line 32-36 for the keys j and j + 1: their rounded linear interpolation at `soc`. */
  function SegmentFormula(j: nat, soc: nat): real
    requires j < 7 && KeySoc(j) <= soc
  {
    var lower, upper := KeyPoints[j], KeyPoints[j + 1];
    RoundMilli(Lerp(lower.ocv, upper.ocv, Ratio(soc, lower.soc, upper.soc)))
  }

  /** Between keys j and j + 1 the generated value is their rounded linear interpolation. */
  lemma {:induction false} SegmentValue(j: nat, soc: nat)
    requires j < 7 && KeySoc(j) < soc < KeySoc(j + 1)
    ensures soc < Rows
    ensures GeneratedValue(soc) == SegmentFormula(j, soc)
  {
    SegmentNotKey(j, soc);
    SegmentLower(j, soc);
    SegmentUpper(j, soc);
    KeyLookup(j);
    KeyLookup(j + 1);
    assert GeneratedValue(soc) == Interpolated(soc, KeySoc(j), KeySoc(j + 1));
  }

  lemma {:induction false} RowsMatch0(soc: nat)
    requires 0 <= soc < 5
    ensures GeneratedValue(soc) == CellModel.DischargeOcv()[soc]
  {
    if soc == 0 {
      KeyValueExact(0);
    } else if soc == 1 {
      assert SegmentFormula(0, 1) == CellModel.DischargeOcv()[1];
      SegmentValue(0, soc);
    } else if soc == 2 {
      assert SegmentFormula(0, 2) == CellModel.DischargeOcv()[2];
      SegmentValue(0, soc);
    } else if soc == 3 {
      assert SegmentFormula(0, 3) == CellModel.DischargeOcv()[3];
      SegmentValue(0, soc);
    } else {
      assert SegmentFormula(0, 4) == CellModel.DischargeOcv()[4];
      SegmentValue(0, soc);
    }
  }

  lemma {:induction false} RowsMatch5(soc: nat)
    requires 5 <= soc < 10
    ensures GeneratedValue(soc) == CellModel.DischargeOcv()[soc]
  {
    if soc == 5 {
      KeyValueExact(1);
    } else if soc == 6 {
      assert SegmentFormula(1, 6) == CellModel.DischargeOcv()[6];
      SegmentValue(1, soc);
    } else if soc == 7 {
      assert SegmentFormula(1, 7) == CellModel.DischargeOcv()[7];
      SegmentValue(1, soc);
    } else if soc == 8 {
      assert SegmentFormula(1, 8) == CellModel.DischargeOcv()[8];
      SegmentValue(1, soc);
    } else {
      assert SegmentFormula(1, 9) == CellModel.DischargeOcv()[9];
      SegmentValue(1, soc);
    }
  }

  lemma {:induction false} RowsMatch10(soc: nat)
    requires 10 <= soc < 15
    ensures GeneratedValue(soc) == CellModel.DischargeOcv()[soc]
  {
    if soc == 10 {
      KeyValueExact(2);
    } else if soc == 11 {
      assert SegmentFormula(2, 11) == CellModel.DischargeOcv()[11];
      SegmentValue(2, soc);
    } else if soc == 12 {
      assert SegmentFormula(2, 12) == CellModel.DischargeOcv()[12];
      SegmentValue(2, soc);
    } else if soc == 13 {
      assert SegmentFormula(2, 13) == CellModel.DischargeOcv()[13];
      SegmentValue(2, soc);
    } else {
      assert SegmentFormula(2, 14) == CellModel.DischargeOcv()[14];
      SegmentValue(2, soc);
    }
  }

  lemma {:induction false} RowsMatch15(soc: nat)
    requires 15 <= soc < 20
    ensures GeneratedValue(soc) == CellModel.DischargeOcv()[soc]
  {
    if soc == 15 {
      assert SegmentFormula(2, 15) == CellModel.DischargeOcv()[15];
      SegmentValue(2, soc);
    } else if soc == 16 {
      assert SegmentFormula(2, 16) == CellModel.DischargeOcv()[16];
      SegmentValue(2, soc);
    } else if soc == 17 {
      assert SegmentFormula(2, 17) == CellModel.DischargeOcv()[17];
      SegmentValue(2, soc);
    } else if soc == 18 {
      assert SegmentFormula(2, 18) == CellModel.DischargeOcv()[18];
      SegmentValue(2, soc);
    } else {
      assert SegmentFormula(2, 19) == CellModel.DischargeOcv()[19];
      SegmentValue(2, soc);
    }
  }

  lemma {:induction false} RowsMatch20(soc: nat)
    requires 20 <= soc < 25
    ensures GeneratedValue(soc) == CellModel.DischargeOcv()[soc]
  {
    if soc == 20 {
      KeyValueExact(3);
    } else if soc == 21 {
      assert SegmentFormula(3, 21) == CellModel.DischargeOcv()[21];
      SegmentValue(3, soc);
    } else if soc == 22 {
      assert SegmentFormula(3, 22) == CellModel.DischargeOcv()[22];
      SegmentValue(3, soc);
    } else if soc == 23 {
      assert SegmentFormula(3, 23) == CellModel.DischargeOcv()[23];
      SegmentValue(3, soc);
    } else {
      assert SegmentFormula(3, 24) == CellModel.DischargeOcv()[24];
      SegmentValue(3, soc);
    }
  }

  lemma {:induction false} RowsMatch25(soc: nat)
    requires 25 <= soc < 30
    ensures GeneratedValue(soc) == CellModel.DischargeOcv()[soc]
  {
    if soc == 25 {
      assert SegmentFormula(3, 25) == CellModel.DischargeOcv()[25];
      SegmentValue(3, soc);
    } else if soc == 26 {
      assert SegmentFormula(3, 26) == CellModel.DischargeOcv()[26];
      SegmentValue(3, soc);
    } else if soc == 27 {
      assert SegmentFormula(3, 27) == CellModel.DischargeOcv()[27];
      SegmentValue(3, soc);
    } else if soc == 28 {
      assert SegmentFormula(3, 28) == CellModel.DischargeOcv()[28];
      SegmentValue(3, soc);
    } else {
      assert SegmentFormula(3, 29) == CellModel.DischargeOcv()[29];
      SegmentValue(3, soc);
    }
  }

  lemma {:induction false} RowsMatch30(soc: nat)
    requires 30 <= soc < 35
    ensures GeneratedValue(soc) == CellModel.DischargeOcv()[soc]
  {
    if soc == 30 {
      assert SegmentFormula(3, 30) == CellModel.DischargeOcv()[30];
      SegmentValue(3, soc);
    } else if soc == 31 {
      assert SegmentFormula(3, 31) == CellModel.DischargeOcv()[31];
      SegmentValue(3, soc);
    } else if soc == 32 {
      assert SegmentFormula(3, 32) == CellModel.DischargeOcv()[32];
      SegmentValue(3, soc);
    } else if soc == 33 {
      assert SegmentFormula(3, 33) == CellModel.DischargeOcv()[33];
      SegmentValue(3, soc);
    } else {
      assert SegmentFormula(3, 34) == CellModel.DischargeOcv()[34];
      SegmentValue(3, soc);
    }
  }

  lemma {:induction false} RowsMatch35(soc: nat)
    requires 35 <= soc < 40
    ensures GeneratedValue(soc) == CellModel.DischargeOcv()[soc]
  {
    if soc == 35 {
      assert SegmentFormula(3, 35) == CellModel.DischargeOcv()[35];
      SegmentValue(3, soc);
    } else if soc == 36 {
      assert SegmentFormula(3, 36) == CellModel.DischargeOcv()[36];
      SegmentValue(3, soc);
    } else if soc == 37 {
      assert SegmentFormula(3, 37) == CellModel.DischargeOcv()[37];
      SegmentValue(3, soc);
    } else if soc == 38 {
      assert SegmentFormula(3, 38) == CellModel.DischargeOcv()[38];
      SegmentValue(3, soc);
    } else {
      assert SegmentFormula(3, 39) == CellModel.DischargeOcv()[39];
      SegmentValue(3, soc);
    }
  }

  lemma {:induction false} RowsMatch40(soc: nat)
    requires 40 <= soc < 45
    ensures GeneratedValue(soc) == CellModel.DischargeOcv()[soc]
  {
    if soc == 40 {
      assert SegmentFormula(3, 40) == CellModel.DischargeOcv()[40];
      SegmentValue(3, soc);
    } else if soc == 41 {
      assert SegmentFormula(3, 41) == CellModel.DischargeOcv()[41];
      SegmentValue(3, soc);
    } else if soc == 42 {
      assert SegmentFormula(3, 42) == CellModel.DischargeOcv()[42];
      SegmentValue(3, soc);
    } else if soc == 43 {
      assert SegmentFormula(3, 43) == CellModel.DischargeOcv()[43];
      SegmentValue(3, soc);
    } else {
      assert SegmentFormula(3, 44) == CellModel.DischargeOcv()[44];
      SegmentValue(3, soc);
    }
  }

  lemma {:induction false} RowsMatch45(soc: nat)
    requires 45 <= soc < 50
    ensures GeneratedValue(soc) == CellModel.DischargeOcv()[soc]
  {
    if soc == 45 {
      assert SegmentFormula(3, 45) == CellModel.DischargeOcv()[45];
      SegmentValue(3, soc);
    } else if soc == 46 {
      assert SegmentFormula(3, 46) == CellModel.DischargeOcv()[46];
      SegmentValue(3, soc);
    } else if soc == 47 {
      assert SegmentFormula(3, 47) == CellModel.DischargeOcv()[47];
      SegmentValue(3, soc);
    } else if soc == 48 {
      assert SegmentFormula(3, 48) == CellModel.DischargeOcv()[48];
      SegmentValue(3, soc);
    } else {
      assert SegmentFormula(3, 49) == CellModel.DischargeOcv()[49];
      SegmentValue(3, soc);
    }
  }

  lemma {:induction false} RowsMatch50(soc: nat)
    requires 50 <= soc < 55
    ensures GeneratedValue(soc) == CellModel.DischargeOcv()[soc]
  {
    if soc == 50 {
      KeyValueExact(4);
    } else if soc == 51 {
      assert SegmentFormula(4, 51) == CellModel.DischargeOcv()[51];
      SegmentValue(4, soc);
    } else if soc == 52 {
      assert SegmentFormula(4, 52) == CellModel.DischargeOcv()[52];
      SegmentValue(4, soc);
    } else if soc == 53 {
      assert SegmentFormula(4, 53) == CellModel.DischargeOcv()[53];
      SegmentValue(4, soc);
    } else {
      assert SegmentFormula(4, 54) == CellModel.DischargeOcv()[54];
      SegmentValue(4, soc);
    }
  }

  lemma {:induction false} RowsMatch55(soc: nat)
    requires 55 <= soc < 60
    ensures GeneratedValue(soc) == CellModel.DischargeOcv()[soc]
  {
    if soc == 55 {
      assert SegmentFormula(4, 55) == CellModel.DischargeOcv()[55];
      SegmentValue(4, soc);
    } else if soc == 56 {
      assert SegmentFormula(4, 56) == CellModel.DischargeOcv()[56];
      SegmentValue(4, soc);
    } else if soc == 57 {
      assert SegmentFormula(4, 57) == CellModel.DischargeOcv()[57];
      SegmentValue(4, soc);
    } else if soc == 58 {
      assert SegmentFormula(4, 58) == CellModel.DischargeOcv()[58];
      SegmentValue(4, soc);
    } else {
      assert SegmentFormula(4, 59) == CellModel.DischargeOcv()[59];
      SegmentValue(4, soc);
    }
  }

  lemma {:induction false} RowsMatch60(soc: nat)
    requires 60 <= soc < 65
    ensures GeneratedValue(soc) == CellModel.DischargeOcv()[soc]
  {
    if soc == 60 {
      assert SegmentFormula(4, 60) == CellModel.DischargeOcv()[60];
      SegmentValue(4, soc);
    } else if soc == 61 {
      assert SegmentFormula(4, 61) == CellModel.DischargeOcv()[61];
      SegmentValue(4, soc);
    } else if soc == 62 {
      assert SegmentFormula(4, 62) == CellModel.DischargeOcv()[62];
      SegmentValue(4, soc);
    } else if soc == 63 {
      assert SegmentFormula(4, 63) == CellModel.DischargeOcv()[63];
      SegmentValue(4, soc);
    } else {
      assert SegmentFormula(4, 64) == CellModel.DischargeOcv()[64];
      SegmentValue(4, soc);
    }
  }

  lemma {:induction false} RowsMatch65(soc: nat)
    requires 65 <= soc < 70
    ensures GeneratedValue(soc) == CellModel.DischargeOcv()[soc]
  {
    if soc == 65 {
      assert SegmentFormula(4, 65) == CellModel.DischargeOcv()[65];
      SegmentValue(4, soc);
    } else if soc == 66 {
      assert SegmentFormula(4, 66) == CellModel.DischargeOcv()[66];
      SegmentValue(4, soc);
    } else if soc == 67 {
      assert SegmentFormula(4, 67) == CellModel.DischargeOcv()[67];
      SegmentValue(4, soc);
    } else if soc == 68 {
      assert SegmentFormula(4, 68) == CellModel.DischargeOcv()[68];
      SegmentValue(4, soc);
    } else {
      assert SegmentFormula(4, 69) == CellModel.DischargeOcv()[69];
      SegmentValue(4, soc);
    }
  }

  lemma {:induction false} RowsMatch70(soc: nat)
    requires 70 <= soc < 75
    ensures GeneratedValue(soc) == CellModel.DischargeOcv()[soc]
  {
    if soc == 70 {
      assert SegmentFormula(4, 70) == CellModel.DischargeOcv()[70];
      SegmentValue(4, soc);
    } else if soc == 71 {
      assert SegmentFormula(4, 71) == CellModel.DischargeOcv()[71];
      SegmentValue(4, soc);
    } else if soc == 72 {
      assert SegmentFormula(4, 72) == CellModel.DischargeOcv()[72];
      SegmentValue(4, soc);
    } else if soc == 73 {
      assert SegmentFormula(4, 73) == CellModel.DischargeOcv()[73];
      SegmentValue(4, soc);
    } else {
      assert SegmentFormula(4, 74) == CellModel.DischargeOcv()[74];
      SegmentValue(4, soc);
    }
  }

  lemma {:induction false} RowsMatch75(soc: nat)
    requires 75 <= soc < 80
    ensures GeneratedValue(soc) == CellModel.DischargeOcv()[soc]
  {
    if soc == 75 {
      assert SegmentFormula(4, 75) == CellModel.DischargeOcv()[75];
      SegmentValue(4, soc);
    } else if soc == 76 {
      assert SegmentFormula(4, 76) == CellModel.DischargeOcv()[76];
      SegmentValue(4, soc);
    } else if soc == 77 {
      assert SegmentFormula(4, 77) == CellModel.DischargeOcv()[77];
      SegmentValue(4, soc);
    } else if soc == 78 {
      assert SegmentFormula(4, 78) == CellModel.DischargeOcv()[78];
      SegmentValue(4, soc);
    } else {
      assert SegmentFormula(4, 79) == CellModel.DischargeOcv()[79];
      SegmentValue(4, soc);
    }
  }

  lemma {:induction false} RowsMatch80(soc: nat)
    requires 80 <= soc < 85
    ensures GeneratedValue(soc) == CellModel.DischargeOcv()[soc]
  {
    if soc == 80 {
      KeyValueExact(5);
    } else if soc == 81 {
      assert SegmentFormula(5, 81) == CellModel.DischargeOcv()[81];
      SegmentValue(5, soc);
    } else if soc == 82 {
      assert SegmentFormula(5, 82) == CellModel.DischargeOcv()[82];
      SegmentValue(5, soc);
    } else if soc == 83 {
      assert SegmentFormula(5, 83) == CellModel.DischargeOcv()[83];
      SegmentValue(5, soc);
    } else {
      assert SegmentFormula(5, 84) == CellModel.DischargeOcv()[84];
      SegmentValue(5, soc);
    }
  }

  lemma {:induction false} RowsMatch85(soc: nat)
    requires 85 <= soc < 90
    ensures GeneratedValue(soc) == CellModel.DischargeOcv()[soc]
  {
    if soc == 85 {
      assert SegmentFormula(5, 85) == CellModel.DischargeOcv()[85];
      SegmentValue(5, soc);
    } else if soc == 86 {
      assert SegmentFormula(5, 86) == CellModel.DischargeOcv()[86];
      SegmentValue(5, soc);
    } else if soc == 87 {
      assert SegmentFormula(5, 87) == CellModel.DischargeOcv()[87];
      SegmentValue(5, soc);
    } else if soc == 88 {
      assert SegmentFormula(5, 88) == CellModel.DischargeOcv()[88];
      SegmentValue(5, soc);
    } else {
      assert SegmentFormula(5, 89) == CellModel.DischargeOcv()[89];
      SegmentValue(5, soc);
    }
  }

  lemma {:induction false} RowsMatch90(soc: nat)
    requires 90 <= soc < 95
    ensures GeneratedValue(soc) == CellModel.DischargeOcv()[soc]
  {
    if soc == 90 {
      KeyValueExact(6);
    } else if soc == 91 {
      assert SegmentFormula(6, 91) == CellModel.DischargeOcv()[91];
      SegmentValue(6, soc);
    } else if soc == 92 {
      assert SegmentFormula(6, 92) == CellModel.DischargeOcv()[92];
      SegmentValue(6, soc);
    } else if soc == 93 {
      assert SegmentFormula(6, 93) == CellModel.DischargeOcv()[93];
      SegmentValue(6, soc);
    } else {
      assert SegmentFormula(6, 94) == CellModel.DischargeOcv()[94];
      SegmentValue(6, soc);
    }
  }

  lemma {:induction false} RowsMatch95(soc: nat)
    requires 95 <= soc < 100
    ensures GeneratedValue(soc) == CellModel.DischargeOcv()[soc]
  {
    if soc == 95 {
      assert SegmentFormula(6, 95) == CellModel.DischargeOcv()[95];
      SegmentValue(6, soc);
    } else if soc == 96 {
      assert SegmentFormula(6, 96) == CellModel.DischargeOcv()[96];
      SegmentValue(6, soc);
    } else if soc == 97 {
      assert SegmentFormula(6, 97) == CellModel.DischargeOcv()[97];
      SegmentValue(6, soc);
    } else if soc == 98 {
      assert SegmentFormula(6, 98) == CellModel.DischargeOcv()[98];
      SegmentValue(6, soc);
    } else {
      assert SegmentFormula(6, 99) == CellModel.DischargeOcv()[99];
      SegmentValue(6, soc);
    }
  }

  lemma {:induction false} RowsMatch100(soc: nat)
    requires 100 <= soc < 101
    ensures GeneratedValue(soc) == CellModel.DischargeOcv()[soc]
  {
    KeyValueExact(7);
  }

  /** The generated rows are the shipped discharge table, row for row. */
  lemma {:induction false} GeneratedIsDischargeTable()
    ensures |CellModel.DischargeOcv()| == Rows
    ensures forall soc :: 0 <= soc < Rows ==> GeneratedValue(soc) == CellModel.DischargeOcv()[soc]
  {
    forall soc | 0 <= soc < Rows
      ensures GeneratedValue(soc) == CellModel.DischargeOcv()[soc]
    {
      if soc < 5 {
        RowsMatch0(soc);
      } else if soc < 10 {
        RowsMatch5(soc);
      } else if soc < 15 {
        RowsMatch10(soc);
      } else if soc < 20 {
        RowsMatch15(soc);
      } else if soc < 25 {
        RowsMatch20(soc);
      } else if soc < 30 {
        RowsMatch25(soc);
      } else if soc < 35 {
        RowsMatch30(soc);
      } else if soc < 40 {
        RowsMatch35(soc);
      } else if soc < 45 {
        RowsMatch40(soc);
      } else if soc < 50 {
        RowsMatch45(soc);
      } else if soc < 55 {
        RowsMatch50(soc);
      } else if soc < 60 {
        RowsMatch55(soc);
      } else if soc < 65 {
        RowsMatch60(soc);
      } else if soc < 70 {
        RowsMatch65(soc);
      } else if soc < 75 {
        RowsMatch70(soc);
      } else if soc < 80 {
        RowsMatch75(soc);
      } else if soc < 85 {
        RowsMatch80(soc);
      } else if soc < 90 {
        RowsMatch85(soc);
      } else if soc < 95 {
        RowsMatch90(soc);
      } else if soc < 100 {
        RowsMatch95(soc);
      } else {
        RowsMatch100(soc);
      }
    }
  }

  /** The key values as the table lists them: the OCV at 0, 5, 10, 20, 50, 80, 90 and 100 % of the discharge table. */
  lemma {:induction false} KeysAreDischargeRows()
    ensures forall j :: 0 <= j < |KeyPoints| ==>
      KeySoc(j) < |CellModel.DischargeOcv()| && CellModel.DischargeOcv()[KeySoc(j)] == KeyPoints[j].ocv
  {
    GeneratedIsDischargeTable();
    forall j | 0 <= j < |KeyPoints|
      ensures CellModel.DischargeOcv()[KeySoc(j)] == KeyPoints[j].ocv
    {
      KeyValueExact(j);
    }
  }

  /** A whole number of millivolts. */
  predicate IsMilli(v: real)
  {
    (v * 1000.0).Floor as real == v * 1000.0
  }

  lemma {:induction false} KeysAreMilli()
    ensures forall j :: 0 <= j < |KeyPoints| ==> IsMilli(KeyPoints[j].ocv)
  {
  }

  /** Rounding to millivolts keeps a value between two whole-millivolt bounds. */
  lemma {:induction false} RoundMilliBetween(x: real, a: real, b: real)
    requires IsMilli(a) && IsMilli(b) && a <= x <= b
    ensures a <= RoundMilli(x) <= b
  {
    var n := (x * 1000.0 + 0.5).Floor;
    var lo, hi := (a * 1000.0).Floor, (b * 1000.0).Floor;
    assert lo as real <= x * 1000.0 <= hi as real;
    assert lo <= n <= hi;
  }

  /**
   * Line 25-36: away from the keys, the value lies between the values of
   * the nearest keys below and above.
   */
  lemma {:induction false} InterpolationBetweenKeys(soc: nat)
    requires soc < Rows && Lookup(KeyPoints, soc).None?
    ensures var lower, upper := LowerKey(KeyPoints, soc), UpperKey(KeyPoints, soc);
      && lower.Some? && upper.Some? && lower.value < soc < upper.value
      && Lookup(KeyPoints, lower.value).Some? && Lookup(KeyPoints, upper.value).Some?
      && var lo, hi := Lookup(KeyPoints, lower.value).value, Lookup(KeyPoints, upper.value).value;
         CellModel.Min(lo, hi) <= GeneratedValue(soc) <= CellModel.Max(lo, hi)
  {
    KeysSorted();
    LookupSpec(KeyPoints, soc);
    LowerKeySpec(KeyPoints, soc);
    assert KeyPoints[0].soc <= soc && KeyPoints[7].soc >= soc;
    var lower := LowerKey(KeyPoints, soc).value;
    var j :| 0 <= j < |KeyPoints| && KeyPoints[j].soc == lower;
    assert KeySoc(j) == lower < soc;
    assert j < 7 by { assert KeySoc(7) >= soc; }
    assert KeySoc(j + 1) > soc by {
      assert KeyPoints[j + 1].soc != soc;
      assert KeySoc(j + 1) > KeySoc(j);
    }
    SegmentLower(j, soc);
    SegmentUpper(j, soc);
    KeyLookup(j);
    KeyLookup(j + 1);
    SegmentBetween(j, soc);
  }

  /** Inside segment `j` the value lies between the OCVs of the segment's two keys. */
  lemma {:induction false} SegmentBetween(j: nat, soc: nat)
    requires j < 7 && KeySoc(j) < soc < KeySoc(j + 1)
    ensures CellModel.Min(KeyPoints[j].ocv, KeyPoints[j + 1].ocv) <= GeneratedValue(soc)
      <= CellModel.Max(KeyPoints[j].ocv, KeyPoints[j + 1].ocv)
  {
    SegmentValue(j, soc);
    var a, b := KeyPoints[j], KeyPoints[j + 1];
    var ratio := Ratio(soc, a.soc, b.soc);
    UnitRatio((soc - a.soc) as real, (b.soc - a.soc) as real);
    CellModel.LerpBetween(a.ocv, b.ocv, ratio);
    var x := Lerp(a.ocv, b.ocv, ratio);
    var lo, hi := CellModel.Min(a.ocv, b.ocv), CellModel.Max(a.ocv, b.ocv);
    assert lo <= x <= hi;
    KeysAreMilli();
    assert IsMilli(a.ocv) && IsMilli(b.ocv);
    assert IsMilli(lo) && IsMilli(hi);
    RoundMilliBetween(x, lo, hi);
  }

  lemma {:induction false} UnitRatio(x: real, y: real)
    requires 0.0 <= x <= y && y > 0.0
    ensures 0.0 <= x / y <= 1.0
  {
    assert x / y * y == x;
  }

  /** The script's loop: one value per SOC 0 .. 100, appended in order. */
  method GenerateTable() returns (ocvValues: seq<real>)
    ensures |ocvValues| == Rows
    ensures forall soc :: 0 <= soc < Rows ==> ocvValues[soc] == GeneratedValue(soc)
    ensures ocvValues == CellModel.DischargeOcv()
  {
    ocvValues := [];
    for soc := 0 to Rows
      invariant |ocvValues| == soc
      invariant forall k :: 0 <= k < soc ==> ocvValues[k] == GeneratedValue(k)
    {
      var value: real;
      var key := Lookup(KeyPoints, soc);
      if key.Some? {
        value := key.value;
      } else {
        LowerKeySpec(KeyPoints, soc);
        UpperKeySpec(KeyPoints, soc);
        assert KeyPoints[0].soc <= soc && KeyPoints[7].soc >= soc;
        var lowerSoc := LowerKey(KeyPoints, soc).value;
        var upperSoc := UpperKey(KeyPoints, soc).value;
        LookupSpec(KeyPoints, lowerSoc);
        LookupSpec(KeyPoints, upperSoc);
        if lowerSoc == upperSoc {
          value := Lookup(KeyPoints, lowerSoc).value;
        } else {
          var lowerOcv := Lookup(KeyPoints, lowerSoc).value;
          var upperOcv := Lookup(KeyPoints, upperSoc).value;
          var ratio := Ratio(soc, lowerSoc, upperSoc);
          var ocv := Lerp(lowerOcv, upperOcv, ratio);
          value := RoundMilli(ocv);
        }
        assert value == Interpolated(soc, lowerSoc, upperSoc);
      }
      assert value == GeneratedValue(soc);
      ocvValues := ocvValues + [value];
    }
    GeneratedIsDischargeTable();
  }
}
