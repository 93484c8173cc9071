/**
 * The current profile generator (`CurrentProfile`): constant, pulse,
 * time-segment and dynamic profiles, and the current each yields at a
 * given time, in mA.
 *
 * A profile is never changed after it is built, so it is modelled as a
 * value. An infinite duration (`float('inf')`) is `None`. The dynamic
 * profile's callable is a function-typed field.
 */
module CurrentProfiles {
  import opened Wrappers
  import opened Text

  // ---------------------------------------------------------------------
  // Profile types.

  datatype ProfileType = ConstantType | PulseType | YamlType | DynamicType

  /** The string value of each `ProfileType` member. */
  function ProfileTypeName(t: ProfileType): string
  {
    match t
    case ConstantType => "constant"
    case PulseType => "pulse"
    case YamlType => "yaml"
    case DynamicType => "dynamic"
  }

  /** `ProfileType(profile_type.lower())`, or the `ValueError` raised for an unknown name. */
  function ParseProfileType(s: string): (r: Result<ProfileType>)
    ensures r.Success? ==> ProfileTypeName(r.value) == Lower(s)
    ensures r.Failure? <==> forall t :: ProfileTypeName(t) != Lower(s)
    ensures r.Failure? ==> r.error == ValueError("Unknown profile type: " + s)
  {
    var l := Lower(s);
    if l == "constant" then Success(ConstantType)
    else if l == "pulse" then Success(PulseType)
    else if l == "yaml" then Success(YamlType)
    else if l == "dynamic" then Success(DynamicType)
    else Failure(ValueError("Unknown profile type: " + s))
  }

  /** Every profile type's own name, in any letter case, parses back to it. */
  lemma {:induction false} ParseProfileName(t: ProfileType, s: string)
    requires Lower(s) == ProfileTypeName(t)
    ensures ParseProfileType(s) == Success(t)
  {
    match t
    case ConstantType =>
    case PulseType =>
      assert Lower(s) != "constant" by { assert Lower(s)[0] != "constant"[0]; }
    case YamlType =>
      assert Lower(s) != "constant" by { assert Lower(s)[0] != "constant"[0]; }
      assert Lower(s) != "pulse" by { assert Lower(s)[0] != "pulse"[0]; }
    case DynamicType =>
      assert Lower(s) != "constant" by { assert Lower(s)[0] != "constant"[0]; }
      assert Lower(s) != "pulse" by { assert Lower(s)[0] != "pulse"[0]; }
      assert Lower(s) != "yaml" by { assert Lower(s)[0] != "yaml"[0]; }
  }

  // ---------------------------------------------------------------------
  // Profiles.

  /** One time segment: current `currentA` over `[start, end)`. */
  datatype Segment = Segment(start: real, end: real, currentA: real)

  datatype Profile =
    | ConstantProfile(currentA: real, duration: Option<real>)
    | PulseProfile(currentHighA: real, currentLowA: real, periodSec: real, dutyCycle: real, phaseSec: real,
                   duration: Option<real>, highDurationSec: real, lowDurationSec: real)
    | SegmentProfile(duration: Option<real>, segments: seq<Segment>)
    | DynamicProfile(fn: real -> real, duration: Option<real>)

  /** The two constructor flags that shape transitions. */
  datatype Smoothing = Smoothing(enabled: bool, transitionSec: real)

  /** The constructor's defaults: no smoothing, a 1 s transition. */
  const DefaultSmoothing := Smoothing(false, 1.0)

  /** `_init_constant`. */
  function InitConstant(currentA: real, duration: Option<real>): Profile
  {
    ConstantProfile(currentA, duration)
  }

  /** `_init_pulse`: the duty cycle must lie in [0, 1]. */
  function InitPulse(high: real, low: real, periodSec: real, dutyCycle: real, duration: Option<real>, phaseSec: real)
    : (r: Result<Profile>)
    ensures r.Failure? <==> !(0.0 <= dutyCycle <= 1.0)
    ensures r.Failure? ==> r.error == ValueError("Duty cycle must be between 0 and 1")
    ensures r.Success? ==>
      && r.value.PulseProfile? && r.value.periodSec == periodSec
      && r.value.highDurationSec + r.value.lowDurationSec == periodSec
      && (periodSec >= 0.0 ==> 0.0 <= r.value.highDurationSec <= periodSec)
  {
    if !(0.0 <= dutyCycle <= 1.0) then Failure(ValueError("Duty cycle must be between 0 and 1"))
    else Success(PulseProfile(high, low, periodSec, dutyCycle, phaseSec, duration,
                              periodSec * dutyCycle, periodSec * (1.0 - dutyCycle)))
  }

  /**
   * `_init_dynamic`: a callable is taken as it is, else an expression is
   * turned into one by `compile` (the source's `eval` wrapper); with
   * neither, a ValueError.
   */
  function InitDynamic(fn: Option<real -> real>, expression: Option<string>, compile: string -> (real -> real),
                       duration: Option<real>): (r: Result<Profile>)
    ensures r.Failure? <==> fn.None? && expression.None?
    ensures r.Failure? ==> r.error == ValueError("Either function or expression must be provided")
    ensures r.Success? ==> r.value.DynamicProfile? && r.value.duration == duration
    ensures fn.Some? ==> r.Success? && r.value.fn == fn.value
    ensures fn.None? && expression.Some? ==> r.Success? && r.value.fn == compile(expression.value)
  {
    if fn.Some? then Success(DynamicProfile(fn.value, duration))
    else if expression.Some? then Success(DynamicProfile(compile(expression.value), duration))
    else Failure(ValueError("Either function or expression must be provided"))
  }

  // ---------------------------------------------------------------------
  // Sorting and validating segments.

  predicate SortedByStart(s: seq<Segment>)
  {
    forall i, j :: 0 <= i < j < |s| ==> s[i].start <= s[j].start
  }

  /** Inserts x before the first element that does not start earlier, keeping equal starts in order. */
  function InsertByStart(x: Segment, s: seq<Segment>): (r: seq<Segment>)
    requires SortedByStart(s)
    ensures SortedByStart(r)
    ensures multiset(r) == multiset(s) + multiset{x}
    ensures forall k :: 0 <= k < |r| ==> r[k] == x || r[k] in s
  {
    if |s| == 0 then [x]
    else if x.start <= s[0].start then
      ConsSorted(x, s);
      [x] + s
    else
      var rest := InsertByStart(x, s[1..]);
      assert s == [s[0]] + s[1..];
      assert forall k :: 0 <= k < |rest| ==> s[0].start <= rest[k].start;
      ConsSorted(s[0], rest);
      [s[0]] + rest
  }

  /** A segment starting no later than every element of a sorted sequence can go in front of it. */
  lemma {:induction false} ConsSorted(a: Segment, r: seq<Segment>)
    requires SortedByStart(r)
    requires forall k :: 0 <= k < |r| ==> a.start <= r[k].start
    ensures SortedByStart([a] + r)
  {
    var c := [a] + r;
    forall i, j | 0 <= i < j < |c|
      ensures c[i].start <= c[j].start
    {
      assert c[j] == r[j - 1];
      if i > 0 {
        assert c[i] == r[i - 1];
      }
    }
  }

  /** `segments.sort(key=start)`: a stable insertion sort on the start times. */
  function SortByStart(s: seq<Segment>): (r: seq<Segment>)
    ensures SortedByStart(r)
    ensures multiset(r) == multiset(s)
  {
    if |s| == 0 then []
    else
      assert s == [s[0]] + s[1..];
      InsertByStart(s[0], SortByStart(s[1..]))
  }

  /** No segment ends after the next one starts. */
  predicate NoOverlap(s: seq<Segment>)
  {
    forall i :: 0 <= i < |s| - 1 ==> s[i].end <= s[i + 1].start
  }

  /** `_validate_segments`: passes exactly when no adjacent pair overlaps. */
  method ValidateSegments(segments: seq<Segment>) returns (o: Outcome)
    ensures o.Pass? <==> NoOverlap(segments)
    ensures o.Fail? ==> o.error.ValueError?
  {
    if |segments| == 0 {
      return Pass;
    }
    for i := 0 to |segments| - 1
      invariant forall j :: 0 <= j < i ==> segments[j].end <= segments[j + 1].start
    {
      var currentEnd := segments[i].end;
      var nextStart := segments[i + 1].start;
      if currentEnd > nextStart {
        return Fail(ValueError("Segment overlap"));
      }
    }
    o := Pass;
  }

  /** A profile `_init_yaml` accepts: sorted and without overlaps. */
  predicate WellFormedSegments(s: seq<Segment>)
  {
    SortedByStart(s) && NoOverlap(s)
  }

  /** `_init_yaml` on already-parsed data: sort the segments, then validate them. */
  method InitSegments(duration: real, segments: seq<Segment>) returns (r: Result<Profile>)
    ensures r.Success? <==> NoOverlap(SortByStart(segments))
    ensures r.Failure? ==> r.error.ValueError?
    ensures r.Success? ==>
      && r.value.SegmentProfile? && r.value.duration == Some(duration)
      && r.value.segments == SortByStart(segments)
      && WellFormedSegments(r.value.segments)
      && multiset(r.value.segments) == multiset(segments)
  {
    var sorted := SortByStart(segments);
    var o := ValidateSegments(sorted);
    if o.Fail? {
      return Failure(o.error);
    }
    r := Success(SegmentProfile(Some(duration), sorted));
  }

  /** The parsed YAML mapping: `duration_sec`, if present, and the segments. */
  datatype ProfileData = ProfileData(durationSec: Option<real>, segments: seq<Segment>)

  /**
   * `_init_yaml` given the parsed mapping, or none: without data it raises
   * ValueError; otherwise the duration defaults to 0 and the segments are
   * sorted and validated.
   */
  method InitYaml(data: Option<ProfileData>) returns (r: Result<Profile>)
    ensures data.None? ==> r == Failure(ValueError("Either yaml_file or yaml_data must be provided"))
    ensures data.Some? ==> (r.Success? <==> NoOverlap(SortByStart(data.value.segments)))
    ensures data.Some? && r.Failure? ==> r.error.ValueError?
    ensures data.Some? && r.Success? ==>
      && r.value.SegmentProfile?
      && r.value.duration == Some(if data.value.durationSec.Some? then data.value.durationSec.value else 0.0)
      && r.value.segments == SortByStart(data.value.segments)
      && WellFormedSegments(r.value.segments)
  {
    if data.None? {
      return Failure(ValueError("Either yaml_file or yaml_data must be provided"));
    }
    var duration := if data.value.durationSec.Some? then data.value.durationSec.value else 0.0;
    r := InitSegments(duration, data.value.segments);
  }


  // ---------------------------------------------------------------------
  // The current at a time.

  function Min(a: real, b: real): real
  {
    if a <= b then a else b
  }

  function Abs(x: real): real
  {
    if x < 0.0 then -x else x
  }

  /** `np.clip(x, 0.0, 1.0)`. */
  function Clip01(x: real): (r: real)
    ensures 0.0 <= r <= 1.0
    ensures 0.0 <= x <= 1.0 ==> r == x
  {
    if x < 0.0 then 0.0 else if x > 1.0 then 1.0 else x
  }

  /** Python's float `%`: the remainder takes the sign of the divisor. */
  function FloorMod(x: real, p: real): (r: real)
    requires p != 0.0
    ensures p > 0.0 ==> 0.0 <= r < p
    ensures p < 0.0 ==> p < r <= 0.0
  {
    FloorModBounds(x, p);
    x - p * (x / p).Floor as real
  }

  lemma {:induction false} FloorModBounds(x: real, p: real)
    requires p != 0.0
    ensures var r := x - p * (x / p).Floor as real;
      (p > 0.0 ==> 0.0 <= r < p) && (p < 0.0 ==> p < r <= 0.0)
  {
    var q := x / p;
    DivMul(x, p);
    RemainderBounds(x, p, q, q.Floor as real);
  }

  lemma {:induction false} RemainderBounds(x: real, p: real, q: real, f: real)
    requires p != 0.0 && p * q == x && f <= q < f + 1.0
    ensures p > 0.0 ==> 0.0 <= x - p * f < p
    ensures p < 0.0 ==> p < x - p * f <= 0.0
  {
    var d := q - f;
    assert x - p * f == p * d;
    if p > 0.0 {
      ScaleWithin(p, d);
    } else if p < 0.0 {
      ScaleWithin(-p, d);
      assert p * d == -((-p) * d);
    }
  }

  lemma {:induction false} DivMul(x: real, p: real)
    requires p != 0.0
    ensures p * (x / p) == x
  {
  }

  /** 0 <= c * d < c for c > 0 and d in [0, 1). */
  lemma {:induction false} ScaleWithin(c: real, d: real)
    requires c > 0.0 && 0.0 <= d < 1.0
    ensures 0.0 <= c * d < c
  {
    assert c * d < c * 1.0;
  }

  /** `t > duration`: never true for an infinite profile. */
  predicate AfterEnd(duration: Option<real>, t: real)
  {
    duration.Some? && t > duration.value
  }

  /** `a * (1 - pos) + b * pos`. */
  function Blend(a: real, b: real, pos: real): real
  {
    a * (1.0 - pos) + b * pos
  }

  /** A blend with the position in [0, 1] lies between its two ends. */
  lemma {:induction false} BlendBetween(a: real, b: real, pos: real)
    requires 0.0 <= pos <= 1.0
    ensures Min(a, b) <= Blend(a, b, pos) && Blend(a, b, pos) <= (if a <= b then b else a)
    ensures pos == 0.0 ==> Blend(a, b, pos) == a
    ensures pos == 1.0 ==> Blend(a, b, pos) == b
  {
    if a <= b {
      var c := b - a;
      assert Blend(a, b, pos) == a + c * pos;
      ScaleAtMost(c, pos);
      assert a + c * pos <= a + c == b;
    } else {
      var c := a - b;
      var d := 1.0 - pos;
      assert Blend(a, b, pos) == b + c * d;
      ScaleAtMost(c, d);
      assert b <= b + c * d <= b + c == a;
    }
    if pos == 0.0 {
      assert Blend(a, b, pos) == a * 1.0 + b * 0.0;
    }
    if pos == 1.0 {
      assert Blend(a, b, pos) == a * 0.0 + b * 1.0;
    }
  }

  /** 0 <= c * d <= c for c >= 0 and d in [0, 1]. */
  lemma {:induction false} ScaleAtMost(c: real, d: real)
    requires c >= 0.0 && 0.0 <= d <= 1.0
    ensures 0.0 <= c * d <= c
  {
    assert c * (1.0 - d) >= 0.0;
    assert c * d <= c * 1.0;
  }

  /**
   * The pulse current in A: high while the position in the period is
   * below the high time, low after; with smoothing, a linear blend from
   * high to low within half the transition width of the duty boundary.
   * A zero period raises, as float `%` does.
   */
  function PulseCurrentA(p: Profile, sm: Smoothing, t: real): Result<real>
    requires p.PulseProfile?
  {
    if p.periodSec == 0.0 then Failure(ZeroDivisionError)
    else
      var tRel := FloorMod(t + p.phaseSec, p.periodSec);
      var level := if tRel < p.highDurationSec then p.currentHighA else p.currentLowA;
      if sm.enabled then
        var width := Min(sm.transitionSec, p.periodSec * 0.1);
        if Abs(tRel - p.highDurationSec) < width / 2.0 then
          Success(Blend(p.currentHighA, p.currentLowA, (tRel - (p.highDurationSec - width / 2.0)) / width))
        else Success(level)
      else Success(level)
  }

  predicate Contains(s: Segment, t: real)
  {
    s.start <= t < s.end
  }

  function FirstContainingFrom(segments: seq<Segment>, t: real, i: nat): (r: Option<nat>)
    requires i <= |segments|
    ensures r.Some? ==>
      && i <= r.value < |segments| && Contains(segments[r.value], t)
      && forall j :: i <= j < r.value ==> !Contains(segments[j], t)
    ensures r.None? ==> forall j :: i <= j < |segments| ==> !Contains(segments[j], t)
    decreases |segments| - i
  {
    if i == |segments| then None
    else if Contains(segments[i], t) then Some(i)
    else FirstContainingFrom(segments, t, i + 1)
  }

  /** The first half-open segment containing t, if any. */
  function FirstContaining(segments: seq<Segment>, t: real): (r: Option<nat>)
    ensures r.Some? ==>
      && r.value < |segments| && Contains(segments[r.value], t)
      && forall j :: 0 <= j < r.value ==> !Contains(segments[j], t)
    ensures r.None? <==> forall j :: 0 <= j < |segments| ==> !Contains(segments[j], t)
  {
    FirstContainingFrom(segments, t, 0)
  }

  /**
   * The current in A of segment i at t: its own current, or with smoothing
   * and a previous segment, a blend from the previous current over the
   * transition time after the previous end, the position clipped to [0, 1].
   */
  function SegmentCurrentA(segments: seq<Segment>, i: nat, sm: Smoothing, t: real): Result<real>
    requires i < |segments|
  {
    if sm.enabled && i > 0 && t < segments[i - 1].end + sm.transitionSec then
      if sm.transitionSec == 0.0 then Failure(ZeroDivisionError)
      else Success(Blend(segments[i - 1].currentA, segments[i].currentA,
                         Clip01((t - segments[i - 1].end) / sm.transitionSec)))
    else Success(segments[i].currentA)
  }

  /** `get_current_at_time`, in mA. */
  function CurrentAt(p: Profile, sm: Smoothing, t: real): Result<real>
  {
    if AfterEnd(p.duration, t) then Success(0.0)
    else
      match p
      case ConstantProfile(a, _) => Success(a * 1000.0)
      case PulseProfile(_, _, _, _, _, _, _, _) =>
        var a :- PulseCurrentA(p, sm, t);
        Success(a * 1000.0)
      case SegmentProfile(_, segments) =>
        (match FirstContaining(segments, t)
         case None => Success(0.0)
         case Some(i) =>
           var a :- SegmentCurrentA(segments, i, sm, t);
           Success(a * 1000.0))
      case DynamicProfile(fn, _) => Success(fn(t) * 1000.0)
  }

  /** `get_current_at_time`, with the segment search as the loop it is. */
  method GetCurrentAtTime(p: Profile, sm: Smoothing, t: real) returns (r: Result<real>)
    ensures r == CurrentAt(p, sm, t)
  {
    if AfterEnd(p.duration, t) {
      return Success(0.0);
    }
    match p {
      case ConstantProfile(a, _) =>
        r := Success(a * 1000.0);
      case PulseProfile(_, _, _, _, _, _, _, _) =>
        var a := PulseCurrentA(p, sm, t);
        if a.Failure? {
          return Failure(a.error);
        }
        r := Success(a.value * 1000.0);
      case SegmentProfile(_, segments) =>
        r := SegmentLookup(segments, sm, t);
      case DynamicProfile(fn, _) =>
        r := Success(fn(t) * 1000.0);
    }
  }

  /** The segment branch of `get_current_at_time`: the first containing segment wins; none gives 0. */
  method SegmentLookup(segments: seq<Segment>, sm: Smoothing, t: real) returns (r: Result<real>)
    ensures FirstContaining(segments, t).None? ==> r == Success(0.0)
    ensures FirstContaining(segments, t).Some? ==>
      var a := SegmentCurrentA(segments, FirstContaining(segments, t).value, sm, t);
      r == if a.Failure? then Failure(a.error) else Success(a.value * 1000.0)
  {
    var i := 0;
    while i < |segments|
      invariant i <= |segments|
      invariant forall j :: 0 <= j < i ==> !Contains(segments[j], t)
    {
      var seg := segments[i];
      if seg.start <= t < seg.end {
        var currentA := seg.currentA;
        if sm.enabled && i > 0 {
          var prevEnd := segments[i - 1].end;
          if t < prevEnd + sm.transitionSec {
            if sm.transitionSec == 0.0 {
              return Failure(ZeroDivisionError);
            }
            var pos := (t - prevEnd) / sm.transitionSec;
            pos := Clip01(pos);
            currentA := segments[i - 1].currentA * (1.0 - pos) + currentA * pos;
          }
        }
        return Success(currentA * 1000.0);
      }
      i := i + 1;
    }
    r := Success(0.0);
  }

  // ---------------------------------------------------------------------
  // Properties.

  /** Past its duration every profile yields 0; an infinite one never stops. */
  lemma {:induction false} ZeroAfterDuration(p: Profile, sm: Smoothing, t: real)
    ensures AfterEnd(p.duration, t) ==> CurrentAt(p, sm, t) == Success(0.0)
    ensures p.duration.None? ==> !AfterEnd(p.duration, t)
  {
  }

  /** A constant profile yields its current in mA up to and including its end time. */
  lemma {:induction false} ConstantCurrent(a: real, duration: Option<real>, sm: Smoothing, t: real)
    requires !AfterEnd(duration, t)
    ensures CurrentAt(InitConstant(a, duration), sm, t) == Success(a * 1000.0)
  {
  }

  lemma {:induction false} MulCancel(p: real, y: real, z: real)
    requires p != 0.0 && p * y == p * z
    ensures y == z
  {
  }

  /** `FloorMod` is periodic in its first argument. */
  lemma {:induction false} FloorModPeriodic(x: real, p: real)
    requires p != 0.0
    ensures FloorMod(x + p, p) == FloorMod(x, p)
  {
    var q := x / p;
    DivMul(x, p);
    assert p * (q + 1.0) == x + p;
    DivMul(x + p, p);
    MulCancel(p, (x + p) / p, q + 1.0);
    assert ((x + p) / p).Floor == (x / p).Floor + 1;
  }

  /**
   * Without smoothing, a pulse is high exactly when the position in the
   * period is below period times duty, and low otherwise.
   */
  lemma {:induction false} PulseSquareWave(high: real, low: real, periodSec: real, dutyCycle: real, duration: Option<real>,
                        phaseSec: real, t: real)
    requires 0.0 <= dutyCycle <= 1.0 && periodSec != 0.0 && !AfterEnd(duration, t)
    ensures var p := InitPulse(high, low, periodSec, dutyCycle, duration, phaseSec).value;
      CurrentAt(p, DefaultSmoothing, t)
        == Success((if FloorMod(t + phaseSec, periodSec) < periodSec * dutyCycle then high else low) * 1000.0)
  {
  }

  /** The pulse shape repeats every period, smoothed or not. */
  lemma {:induction false} PulsePeriodic(p: Profile, sm: Smoothing, t: real)
    requires p.PulseProfile?
    ensures PulseCurrentA(p, sm, t + p.periodSec) == PulseCurrentA(p, sm, t)
  {
    if p.periodSec != 0.0 {
      assert t + p.periodSec + p.phaseSec == (t + p.phaseSec) + p.periodSec;
      FloorModPeriodic(t + p.phaseSec, p.periodSec);
    }
  }

  /** Inside the smoothing window the pulse current lies between the high and the low current. */
  lemma {:induction false} SmoothPulseBetween(p: Profile, sm: Smoothing, t: real)
    requires p.PulseProfile? && p.periodSec != 0.0 && sm.enabled
    requires PulseCurrentA(p, sm, t).Success?
    ensures var a := PulseCurrentA(p, sm, t).value;
      Min(p.currentHighA, p.currentLowA) <= a
      && a <= (if p.currentHighA <= p.currentLowA then p.currentLowA else p.currentHighA)
  {
    var tRel := FloorMod(t + p.phaseSec, p.periodSec);
    var width := Min(sm.transitionSec, p.periodSec * 0.1);
    if Abs(tRel - p.highDurationSec) < width / 2.0 {
      var pos := (tRel - (p.highDurationSec - width / 2.0)) / width;
      assert width > 0.0;
      assert 0.0 <= tRel - (p.highDurationSec - width / 2.0) <= width;
      assert 0.0 <= pos <= 1.0 by {
        DivideWithin(tRel - (p.highDurationSec - width / 2.0), width);
      }
      BlendBetween(p.currentHighA, p.currentLowA, pos);
    }
  }

  lemma {:induction false} DivideWithin(x: real, w: real)
    requires w > 0.0 && 0.0 <= x <= w
    ensures 0.0 <= x / w <= 1.0
  {
  }

  /** In sorted segments without overlaps, no two segments contain the same time. */
  lemma {:induction false} SegmentsDisjoint(segments: seq<Segment>, t: real, j: nat, k: nat)
    requires WellFormedSegments(segments)
    requires j < k < |segments| && Contains(segments[j], t)
    ensures !Contains(segments[k], t)
  {
    assert segments[j].end <= segments[j + 1].start;
    assert segments[j + 1].start <= segments[k].start;
  }

  /** A shared boundary belongs to the later segment. */
  lemma {:induction false} BoundaryBelongsToLater(segments: seq<Segment>, i: nat)
    requires WellFormedSegments(segments) && i + 1 < |segments|
    requires segments[i].end == segments[i + 1].start < segments[i + 1].end
    ensures FirstContaining(segments, segments[i + 1].start) == Some(i + 1)
  {
    var t := segments[i + 1].start;
    forall j | 0 <= j <= i
      ensures !Contains(segments[j], t)
    {
      assert segments[j].end <= segments[j + 1].start;
      assert segments[j + 1].start <= t;
    }
  }

  /**
   * A validated segment profile never divides by a zero transition time:
   * a time inside segment i is at or after the previous end, so the blend
   * branch needs a positive transition time.
   */
  lemma {:induction false} SegmentLookupDefined(segments: seq<Segment>, sm: Smoothing, t: real, i: nat)
    requires WellFormedSegments(segments) && i < |segments| && Contains(segments[i], t)
    ensures SegmentCurrentA(segments, i, sm, t).Success?
  {
    if i > 0 {
      assert segments[i - 1].end <= segments[i].start;
    }
  }

  /**
   * During a smooth transition the current lies between the two segment
   * currents, starts from the previous one at the previous end, and is the
   * new one once the transition time has passed.
   */
  lemma {:induction false} SegmentTransition(segments: seq<Segment>, sm: Smoothing, t: real, i: nat)
    requires i < |segments| && SegmentCurrentA(segments, i, sm, t).Success?
    ensures var a := SegmentCurrentA(segments, i, sm, t).value;
      var prev := if i > 0 then segments[i - 1].currentA else segments[i].currentA;
      var cur := segments[i].currentA;
      && Min(prev, cur) <= a && a <= (if prev <= cur then cur else prev)
      && (sm.enabled && i > 0 && sm.transitionSec > 0.0 && t == segments[i - 1].end ==> a == prev)
      && (!sm.enabled || i == 0 || t >= segments[i - 1].end + sm.transitionSec ==> a == cur)
  {
    if sm.enabled && i > 0 && t < segments[i - 1].end + sm.transitionSec {
      var pos := Clip01((t - segments[i - 1].end) / sm.transitionSec);
      BlendBetween(segments[i - 1].currentA, segments[i].currentA, pos);
      if sm.transitionSec > 0.0 && t == segments[i - 1].end {
        assert (t - segments[i - 1].end) / sm.transitionSec == 0.0;
      }
    }
  }

  /** A validated segment profile yields the current of the one segment containing t, or 0 when none does. */
  lemma {:induction false} SegmentProfileCurrent(duration: real, segments: seq<Segment>, t: real)
    requires WellFormedSegments(segments) && t <= duration
    ensures FirstContaining(segments, t).None? ==>
      CurrentAt(SegmentProfile(Some(duration), segments), DefaultSmoothing, t) == Success(0.0)
    ensures forall i :: 0 <= i < |segments| && Contains(segments[i], t) ==>
      CurrentAt(SegmentProfile(Some(duration), segments), DefaultSmoothing, t) == Success(segments[i].currentA * 1000.0)
  {
    forall i | 0 <= i < |segments| && Contains(segments[i], t)
      ensures FirstContaining(segments, t) == Some(i)
    {
      var k := FirstContaining(segments, t).value;
      if k < i {
        SegmentsDisjoint(segments, t, k, i);
      }
    }
  }
}
