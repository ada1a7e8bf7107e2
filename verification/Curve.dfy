/** Piecewise-linear demand curves and the knot-only dominance check (curve.rs). */
module Curve {
  import opened Wrappers
  import opened Demand

  datatype CurvePoint = CurvePoint(temperature: real, demand: Percent)

  datatype CurveError = Empty | NotStrictlyIncreasing

  const COMPARISON_EPSILON: real := 0.000000001

  predicate Ordered(points: seq<CurvePoint>) {
    && points != []
    && forall i :: 0 <= i < |points| - 1 ==> points[i].temperature < points[i + 1].temperature
  }

  type Knots = points: seq<CurvePoint> | Ordered(points) witness [CurvePoint(0.0, 0.0)]

  function FromOrderedPoints(points: seq<CurvePoint>): (r: Result<Knots, CurveError>)
    ensures r.Ok? <==> Ordered(points)
    ensures r.Ok? ==> r.value == points
    ensures r == Err(Empty) <==> points == []
  {
    if points == [] then Err(Empty)
    else if exists i :: 0 <= i < |points| - 1 && points[i].temperature >= points[i + 1].temperature
    then Err(NotStrictlyIncreasing)
    else Ok(points)
  }

  function Clamp(x: real, low: real, high: real): real
    requires low <= high
  {
    if x < low then low else if x > high then high else x
  }

  function Interpolated(lower: CurvePoint, upper: CurvePoint, temperature: real): real
    requires lower.temperature < upper.temperature
  {
    var position := (temperature - lower.temperature) / (upper.temperature - lower.temperature);
    lower.demand + (upper.demand - lower.demand) * position
  }

  /** The interpolation as the code bounds it, between the two endpoint demands. */
  function Between(lower: CurvePoint, upper: CurvePoint, temperature: real): (r: Percent)
    requires lower.temperature < upper.temperature
  {
    var low := if lower.demand <= upper.demand then lower.demand else upper.demand;
    var high := if lower.demand <= upper.demand then upper.demand else lower.demand;
    Clamp(Interpolated(lower, upper, temperature), low, high)
  }

  /** The scan over adjacent knot pairs, starting with the pair at `i`. */
  function Scan(points: Knots, i: nat, temperature: real): (r: Percent)
    requires i < |points|
    decreases |points| - i
  {
    if i == |points| - 1 then points[i].demand
    else if temperature == points[i + 1].temperature then points[i + 1].demand
    else if temperature < points[i + 1].temperature then Between(points[i], points[i + 1], temperature)
    else Scan(points, i + 1, temperature)
  }

  function Evaluate(points: Knots, temperature: real): (r: Percent) {
    if temperature <= points[0].temperature then points[0].demand
    else Scan(points, 0, temperature)
  }

  // ---------------------------------------------------------------- evaluation laws

  lemma OrderedEverywhere(points: Knots, i: nat, j: nat)
    requires i < j < |points|
    ensures points[i].temperature < points[j].temperature
    decreases j - i
  {
    if i + 1 < j {
      OrderedEverywhere(points, i, j - 1);
    }
  }

  /** Inside its segment the interpolation lies between the endpoints: the clamp changes nothing. */
  lemma ClampIsIdentity(lower: CurvePoint, upper: CurvePoint, t: real)
    requires lower.temperature < upper.temperature
    requires lower.temperature <= t <= upper.temperature
    ensures Between(lower, upper, t) == Interpolated(lower, upper, t)
  {
    var position := (t - lower.temperature) / (upper.temperature - lower.temperature);
    PositionInUnitInterval(t - lower.temperature, upper.temperature - lower.temperature);
    var rise := upper.demand - lower.demand;
    if rise >= 0.0 {
      assert 0.0 <= rise * position <= rise;
    } else {
      assert rise <= rise * position <= 0.0;
    }
  }

  lemma PositionInUnitInterval(offset: real, span: real)
    requires 0.0 < span && 0.0 <= offset <= span
    ensures 0.0 <= offset / span <= 1.0
  {
  }

  /** Dividing every temperature by a common scale, as the overflow branch does, gives the same position. */
  lemma ScaledPositionAgrees(t: real, low: real, high: real, scale: real)
    requires low < high && 0.0 < scale
    ensures high / scale - low / scale != 0.0
    ensures (t / scale - low / scale) / (high / scale - low / scale) == (t - low) / (high - low)
  {
  }

  /** Value of the curve on the segment that holds `t`, whichever pair the scan started from. */
  lemma {:induction false} ScanOnSegment(points: Knots, start: nat, i: nat, t: real)
    requires start <= i < |points| - 1
    requires points[i].temperature <= t <= points[i + 1].temperature
    requires points[start].temperature < t
    ensures Scan(points, start, t) == Interpolated(points[i], points[i + 1], t)
    decreases i - start
  {
    if start == i {
      if t == points[i + 1].temperature {
        UpperEnd(points[i], points[i + 1]);
      } else {
        ClampIsIdentity(points[i], points[i + 1], t);
      }
    } else {
      if start + 1 < i {
        OrderedEverywhere(points, start + 1, i);
      }
      if t == points[start + 1].temperature {
        assert start + 1 == i;
        LowerEnd(points[i], points[i + 1]);
      } else {
        ScanOnSegment(points, start + 1, i, t);
      }
    }
  }

  lemma UpperEnd(lower: CurvePoint, upper: CurvePoint)
    requires lower.temperature < upper.temperature
    ensures Interpolated(lower, upper, upper.temperature) == upper.demand
  {
  }

  lemma LowerEnd(lower: CurvePoint, upper: CurvePoint)
    requires lower.temperature < upper.temperature
    ensures Interpolated(lower, upper, lower.temperature) == lower.demand
  {
  }

  lemma EvaluateOnSegment(points: Knots, i: nat, t: real)
    requires i < |points| - 1
    requires points[i].temperature <= t <= points[i + 1].temperature
    ensures Evaluate(points, t) == Interpolated(points[i], points[i + 1], t)
  {
    if 0 < i {
      OrderedEverywhere(points, 0, i);
    }
    if t <= points[0].temperature {
      assert i == 0;
      LowerEnd(points[i], points[i + 1]);
    } else {
      ScanOnSegment(points, 0, i, t);
    }
  }

  /** Beyond the last knot the curve keeps its last demand. */
  lemma {:induction false} ScanBeyondLast(points: Knots, i: nat, t: real)
    requires i < |points|
    requires points[|points| - 1].temperature <= t
    ensures Scan(points, i, t) == points[|points| - 1].demand
    decreases |points| - i
  {
    if i < |points| - 1 {
      if i + 1 < |points| - 1 {
        OrderedEverywhere(points, i + 1, |points| - 1);
      }
      ScanBeyondLast(points, i + 1, t);
    }
  }

  lemma EvaluateBeyondLast(points: Knots, t: real)
    requires points[|points| - 1].temperature <= t
    ensures Evaluate(points, t) == points[|points| - 1].demand
  {
    if |points| > 1 {
      OrderedEverywhere(points, 0, |points| - 1);
    }
    ScanBeyondLast(points, 0, t);
  }

  /** The segment holding a temperature strictly inside the knot range. */
  lemma SegmentOf(points: Knots, t: real) returns (i: nat)
    requires points[0].temperature <= t < points[|points| - 1].temperature
    ensures i < |points| - 1
    ensures points[i].temperature <= t < points[i + 1].temperature
  {
    i := 0;
    while t >= points[i + 1].temperature
      invariant i < |points| - 1
      invariant points[i].temperature <= t
      decreases |points| - i
    {
      i := i + 1;
    }
  }

  /** What the curve is: flat outside its knots, and through both ends of a straight line between neighbours. */
  lemma EvaluateIsPiecewiseLinear(points: Knots, i: nat, t: real)
    requires i < |points| - 1
    ensures t <= points[0].temperature ==> Evaluate(points, t) == points[0].demand
    ensures t >= points[|points| - 1].temperature ==> Evaluate(points, t) == points[|points| - 1].demand
    ensures points[i].temperature <= t <= points[i + 1].temperature ==>
              (Evaluate(points, t) - points[i].demand) * (points[i + 1].temperature - points[i].temperature)
              == (points[i + 1].demand - points[i].demand) * (t - points[i].temperature)
  {
    hide Scan;
    if t >= points[|points| - 1].temperature {
      EvaluateBeyondLast(points, t);
    }
    if points[i].temperature <= t <= points[i + 1].temperature {
      EvaluateOnSegment(points, i, t);
      SlopeOfSegment(points[i + 1].demand - points[i].demand, t - points[i].temperature, points[i + 1].temperature - points[i].temperature);
    }
  }

  lemma SlopeOfSegment(rise: real, offset: real, span: real)
    requires span > 0.0
    ensures rise * (offset / span) * span == rise * offset
  {
  }

  // ---------------------------------------------------------------- monotone curves

  ghost predicate NonDecreasing(points: Knots) {
    forall i :: 0 <= i < |points| - 1 ==> points[i].demand <= points[i + 1].demand
  }

  lemma NonDecreasingEverywhere(points: Knots, i: nat, j: nat)
    requires NonDecreasing(points) && i <= j < |points|
    ensures points[i].demand <= points[j].demand
    decreases j - i
  {
    if i < j {
      NonDecreasingEverywhere(points, i, j - 1);
    }
  }

  lemma InterpolatedMonotone(lower: CurvePoint, upper: CurvePoint, s: real, t: real)
    requires lower.temperature < upper.temperature && lower.demand <= upper.demand
    requires s <= t
    ensures Interpolated(lower, upper, s) <= Interpolated(lower, upper, t)
  {
    var span := upper.temperature - lower.temperature;
    var rise := upper.demand - lower.demand;
    assert (s - lower.temperature) / span <= (t - lower.temperature) / span;
    assert rise * ((s - lower.temperature) / span) <= rise * ((t - lower.temperature) / span);
  }

  lemma InterpolatedWithin(lower: CurvePoint, upper: CurvePoint, t: real)
    requires lower.temperature <= t <= upper.temperature
    requires lower.temperature < upper.temperature && lower.demand <= upper.demand
    ensures lower.demand <= Interpolated(lower, upper, t) <= upper.demand
  {
    InterpolatedMonotone(lower, upper, lower.temperature, t);
    InterpolatedMonotone(lower, upper, t, upper.temperature);
    LowerEnd(lower, upper);
    UpperEnd(lower, upper);
  }

  /** A curve with non-decreasing knots is non-decreasing at every pair of real temperatures. */
  lemma EvaluateMonotone(points: Knots, s: real, t: real)
    requires NonDecreasing(points) && s <= t
    ensures Evaluate(points, s) <= Evaluate(points, t)
  {
    var last := |points| - 1;
    if s < points[0].temperature {
      EvaluateWithinRange(points, t);
    } else if t >= points[last].temperature {
      EvaluateBeyondLast(points, t);
      EvaluateWithinRange(points, s);
    } else {
      var i := SegmentOf(points, s);
      var j := SegmentOf(points, t);
      EvaluateOnSegment(points, i, s);
      EvaluateOnSegment(points, j, t);
      if i == j {
        InterpolatedMonotone(points[i], points[i + 1], s, t);
      } else {
        if j < i {
          if j + 1 < i { OrderedEverywhere(points, j + 1, i); }
          assert false;
        }
        NonDecreasingEverywhere(points, i + 1, j);
        InterpolatedWithin(points[i], points[i + 1], s);
        InterpolatedWithin(points[j], points[j + 1], t);
      }
    }
  }

  lemma EvaluateWithinRange(points: Knots, t: real)
    requires NonDecreasing(points)
    ensures points[0].demand <= Evaluate(points, t) <= points[|points| - 1].demand
  {
    var last := |points| - 1;
    NonDecreasingEverywhere(points, 0, last);
    if points[0].temperature <= t < points[last].temperature {
      var i := SegmentOf(points, t);
      EvaluateOnSegment(points, i, t);
      InterpolatedWithin(points[i], points[i + 1], t);
      NonDecreasingEverywhere(points, 0, i);
      NonDecreasingEverywhere(points, i + 1, last);
    } else if points[last].temperature <= t {
      EvaluateBeyondLast(points, t);
    }
  }

  // ---------------------------------------------------------------- the dominance check

  function Temperatures(points: seq<CurvePoint>): (r: seq<real>)
    ensures |r| == |points|
    ensures forall i :: 0 <= i < |r| ==> r[i] == points[i].temperature
  {
    seq(|points|, i requires 0 <= i < |points| => points[i].temperature)
  }

  predicate IsBelow(candidate: Knots, protected: Knots, temperature: real) {
    Evaluate(candidate, temperature) + COMPARISON_EPSILON < Evaluate(protected, temperature)
  }

  function FindBelow(candidate: Knots, protected: Knots, temperatures: seq<real>): (r: Option<real>)
    ensures r.None? <==> forall t :: t in temperatures ==> !IsBelow(candidate, protected, t)
    ensures r.Some? ==> r.value in temperatures && IsBelow(candidate, protected, r.value)
  {
    if temperatures == [] then None
    else if IsBelow(candidate, protected, temperatures[0]) then Some(temperatures[0])
    else FindBelow(candidate, protected, temperatures[1..])
  }

  /** The first knot temperature, candidate knots first, where the candidate is below the protected curve. */
  function FirstBelow(candidate: Knots, protected: Knots): (r: Option<real>) {
    FindBelow(candidate, protected, Temperatures(candidate) + Temperatures(protected))
  }

  /** The point (t, yt) lies on the line through (a, ya) and (b, yb). */
  ghost predicate OnChord(a: real, ya: real, b: real, yb: real, t: real, yt: real) {
    yt * (b - a) == ya * (b - t) + yb * (t - a)
  }

  /** Between two temperatures with no knot strictly inside, a curve is the chord of its end values. */
  lemma AffineBetween(points: Knots, a: real, b: real, t: real)
    requires a < b && a <= t <= b
    requires NoKnotInside(points, a, b)
    ensures OnChord(a, Evaluate(points, a), b, Evaluate(points, b), t, Evaluate(points, t))
  {
    var last := |points| - 1;
    if b <= points[0].temperature {
      FlatChord(points[0].demand, a, b, t);
    } else if points[last].temperature <= a {
      EvaluateBeyondLast(points, a);
      EvaluateBeyondLast(points, t);
      EvaluateBeyondLast(points, b);
      FlatChord(points[last].demand, a, b, t);
    } else {
      var i := SegmentOf(points, a);
      AffineInside(points, i, a, b, t);
    }
  }

  lemma AffineInside(points: Knots, i: nat, a: real, b: real, t: real)
    requires a <= t <= b
    requires i < |points| - 1 && points[i].temperature <= a && b <= points[i + 1].temperature
    ensures OnChord(a, Evaluate(points, a), b, Evaluate(points, b), t, Evaluate(points, t))
  {
    OrderedEverywhere(points, i, i + 1);
    hide *;
    EvaluateOnSegment(points, i, a);
    EvaluateOnSegment(points, i, t);
    EvaluateOnSegment(points, i, b);
    SegmentChord(points[i], points[i + 1], a, b, t);
  }

  lemma SegmentChord(lower: CurvePoint, upper: CurvePoint, a: real, b: real, t: real)
    requires lower.temperature < upper.temperature
    ensures OnChord(a, Interpolated(lower, upper, a), b, Interpolated(lower, upper, b), t, Interpolated(lower, upper, t))
  {
  }

  lemma FlatChord(base: real, a: real, b: real, t: real)
    ensures base * (b - a) == base * (b - t) + base * (t - a)
  {
  }

  /** The two knots around a temperature: none of `temperatures` lies strictly between them. */
  lemma NearestKnots(temperatures: seq<real>, t: real) returns (a: real, b: real)
    requires exists k :: k in temperatures && k <= t
    requires exists k :: k in temperatures && t <= k
    ensures a in temperatures && b in temperatures && a <= t <= b
    ensures forall k :: k in temperatures ==> k <= a || b <= k
  {
    a :| a in temperatures && a <= t;
    b :| b in temperatures && t <= b;
    var i := 0;
    while i < |temperatures|
      invariant 0 <= i <= |temperatures|
      invariant a in temperatures && b in temperatures && a <= t <= b
      invariant forall j :: 0 <= j < i ==> temperatures[j] <= a || b <= temperatures[j]
    {
      if a < temperatures[i] <= t { a := temperatures[i]; }
      if t <= temperatures[i] < b { b := temperatures[i]; }
      i := i + 1;
    }
  }

  /** If a bound `c + slack >= p` holds at every knot of both curves, it holds at every temperature. */
  lemma KnotBoundExtends(candidate: Knots, protected: Knots, slack: real, t: real)
    requires forall k :: k in Temperatures(candidate) + Temperatures(protected)
                         ==> Evaluate(candidate, k) + slack >= Evaluate(protected, k)
    ensures Evaluate(candidate, t) + slack >= Evaluate(protected, t)
  {
    hide Evaluate, NoKnotInside;
    var c, p := Temperatures(candidate), Temperatures(protected);
    var ks := c + p;
    assert c[0] in ks && p[0] in ks && c[|c| - 1] in ks && p[|p| - 1] in ks;
    if t <= c[0] && t <= p[0] {
      BothFlatBefore(candidate, protected, t, if c[0] <= p[0] then c[0] else p[0]);
    } else if c[|c| - 1] <= t && p[|p| - 1] <= t {
      BothFlatBeyond(candidate, protected, t, if c[|c| - 1] >= p[|p| - 1] then c[|c| - 1] else p[|p| - 1]);
    } else {
      var a, b := NearestKnots(ks, t);
      if a < b {
        NoneInside(candidate, ks, a, b);
        NoneInside(protected, ks, a, b);
        BoundBetweenKnots(candidate, protected, slack, a, b, t);
      }
    }
  }

  lemma NoneInside(points: Knots, ks: seq<real>, a: real, b: real)
    requires forall t :: t in Temperatures(points) ==> t in ks
    requires forall k :: k in ks ==> k <= a || b <= k
    ensures NoKnotInside(points, a, b)
  {
    var ts := Temperatures(points);
    forall i | 0 <= i < |points| ensures points[i].temperature <= a || b <= points[i].temperature {
      assert ts[i] in ts;
    }
  }

  lemma BothFlatBefore(candidate: Knots, protected: Knots, t: real, k: real)
    requires t <= candidate[0].temperature && t <= protected[0].temperature
    requires k <= candidate[0].temperature && k <= protected[0].temperature
    ensures Evaluate(candidate, t) == Evaluate(candidate, k) && Evaluate(protected, t) == Evaluate(protected, k)
  {
  }

  lemma BothFlatBeyond(candidate: Knots, protected: Knots, t: real, k: real)
    requires t >= candidate[|candidate| - 1].temperature && t >= protected[|protected| - 1].temperature
    requires k >= candidate[|candidate| - 1].temperature && k >= protected[|protected| - 1].temperature
    ensures Evaluate(candidate, t) == Evaluate(candidate, k) && Evaluate(protected, t) == Evaluate(protected, k)
  {
    EvaluateBeyondLast(candidate, t);
    EvaluateBeyondLast(protected, t);
    EvaluateBeyondLast(candidate, k);
    EvaluateBeyondLast(protected, k);
  }

  ghost predicate NoKnotInside(points: Knots, a: real, b: real) {
    forall i :: 0 <= i < |points| ==> points[i].temperature <= a || b <= points[i].temperature
  }

  lemma BoundBetweenKnots(candidate: Knots, protected: Knots, slack: real, a: real, b: real, t: real)
    requires a < b && a <= t <= b
    requires NoKnotInside(candidate, a, b) && NoKnotInside(protected, a, b)
    requires Evaluate(candidate, a) + slack >= Evaluate(protected, a)
    requires Evaluate(candidate, b) + slack >= Evaluate(protected, b)
    ensures Evaluate(candidate, t) + slack >= Evaluate(protected, t)
  {
    hide *;
    AffineBetween(candidate, a, b, t);
    AffineBetween(protected, a, b, t);
    WeightedBound(Evaluate(candidate, a), Evaluate(candidate, b), Evaluate(candidate, t),
                  Evaluate(protected, a), Evaluate(protected, b), Evaluate(protected, t), slack, a, b, t);
  }

  lemma WeightedBound(ca: real, cb: real, ct: real, pa: real, pb: real, pt: real, slack: real, a: real, b: real, t: real)
    requires a < b && a <= t <= b
    requires OnChord(a, ca, b, cb, t, ct) && OnChord(a, pa, b, pb, t, pt)
    requires ca + slack >= pa && cb + slack >= pb
    ensures ct + slack >= pt
  {
    assert (ct + slack - pt) * (b - a) == (ca + slack - pa) * (b - t) + (cb + slack - pb) * (t - a);
    assert (ca + slack - pa) * (b - t) >= 0.0 && (cb + slack - pb) * (t - a) >= 0.0;
    NonNegativeFactor(ct + slack - pt, b - a);
  }

  lemma NonNegativeFactor(x: real, weight: real)
    requires weight > 0.0 && x * weight >= 0.0
    ensures x >= 0.0
  {
  }

  /**
   * Checking the knots decides dominance: the search finds nothing exactly when the candidate is
   * within the comparison epsilon of the protected curve at every real temperature.
   */
  lemma KnotChecksDecideDominance(candidate: Knots, protected: Knots)
    ensures FirstBelow(candidate, protected).None?
            <==> forall t: real :: Evaluate(candidate, t) + COMPARISON_EPSILON >= Evaluate(protected, t)
  {
    if FirstBelow(candidate, protected).None? {
      var ks := Temperatures(candidate) + Temperatures(protected);
      assert forall k :: k in ks ==> !IsBelow(candidate, protected, k);
      forall t: real
        ensures Evaluate(candidate, t) + COMPARISON_EPSILON >= Evaluate(protected, t)
      {
        KnotBoundExtends(candidate, protected, COMPARISON_EPSILON, t);
      }
    } else {
      var t := FirstBelow(candidate, protected).value;
      assert IsBelow(candidate, protected, t);
    }
  }

  // ---------------------------------------------------------------- integer knots

  ghost predicate IsInteger(x: real) { x.Floor as real == x }

  /** Whole-degree, whole-percent knots less than 10^9 degrees apart. */
  ghost predicate IntegerKnots(points: Knots) {
    && (forall i :: 0 <= i < |points| ==> IsInteger(points[i].temperature) && IsInteger(points[i].demand))
    && (forall i :: 0 <= i < |points| - 1 ==> points[i + 1].temperature - points[i].temperature < 1000000000.0)
  }

  ghost predicate IsFraction(x: real, numerator: int, denominator: int) {
    1 <= denominator < 1000000000 && x * denominator as real == numerator as real
  }

  /** At a whole-degree temperature such a curve is a fraction whose denominator is below 10^9. */
  lemma FractionAtWholeDegree(points: Knots, t: real) returns (numerator: int, denominator: int)
    requires IntegerKnots(points) && IsInteger(t)
    ensures IsFraction(Evaluate(points, t), numerator, denominator)
  {
    var last := |points| - 1;
    if t < points[0].temperature {
      numerator, denominator := points[0].demand.Floor, 1;
    } else if points[last].temperature <= t {
      EvaluateBeyondLast(points, t);
      numerator, denominator := points[last].demand.Floor, 1;
    } else {
      var i := SegmentOf(points, t);
      numerator, denominator := FractionOnSegment(points, i, t);
    }
  }

  lemma FractionOnSegment(points: Knots, i: nat, t: real) returns (numerator: int, denominator: int)
    requires IntegerKnots(points) && IsInteger(t)
    requires i < |points| - 1 && points[i].temperature <= t <= points[i + 1].temperature
    ensures IsFraction(Evaluate(points, t), numerator, denominator)
  {
    numerator, denominator := InterpolatedFraction(points[i], points[i + 1], t);
    hide *;
    EvaluateOnSegment(points, i, t);
  }

  lemma InterpolatedFraction(lower: CurvePoint, upper: CurvePoint, t: real) returns (numerator: int, denominator: int)
    requires IsInteger(lower.temperature) && IsInteger(lower.demand) && IsInteger(t)
    requires IsInteger(upper.temperature) && IsInteger(upper.demand)
    requires lower.temperature < upper.temperature < lower.temperature + 1000000000.0
    ensures IsFraction(Interpolated(lower, upper, t), numerator, denominator)
  {
    var offset, l, u := t.Floor - lower.temperature.Floor, lower.demand.Floor, upper.demand.Floor;
    denominator := upper.temperature.Floor - lower.temperature.Floor;
    numerator := l * denominator + (u - l) * offset;
    CommonDenominator(l, u, offset, denominator);
  }

  lemma CommonDenominator(l: int, u: int, offset: int, span: int)
    requires span > 0
    ensures (l as real + (u as real - l as real) * (offset as real / span as real)) * span as real
            == (l * span + (u - l) * offset) as real
  {
  }

  lemma IntProduct(a: int, b: int)
    ensures (a * b) as real == a as real * b as real
  {
  }

  /** For integer knots the epsilon cannot hide a deficit: admission means exact dominance. */
  lemma IntegerKnotsDominateExactly(candidate: Knots, protected: Knots, t: real)
    requires IntegerKnots(candidate) && IntegerKnots(protected)
    requires FirstBelow(candidate, protected).None?
    ensures Evaluate(candidate, t) >= Evaluate(protected, t)
  {
    hide Evaluate;
    var ks := Temperatures(candidate) + Temperatures(protected);
    forall k | k in ks
      ensures Evaluate(candidate, k) + 0.0 >= Evaluate(protected, k)
    {
      assert IsInteger(k);
      ExactAtKnot(candidate, protected, k);
    }
    KnotBoundExtends(candidate, protected, 0.0, t);
  }

  lemma ExactAtKnot(candidate: Knots, protected: Knots, k: real)
    requires IntegerKnots(candidate) && IntegerKnots(protected) && IsInteger(k)
    requires k in Temperatures(candidate) || k in Temperatures(protected)
    requires !IsBelow(candidate, protected, k)
    ensures Evaluate(candidate, k) >= Evaluate(protected, k)
  {
    hide Evaluate, IntegerKnots;
    if k in Temperatures(candidate) {
      KnotValue(candidate, k);
      var n, d := FractionAtWholeDegree(protected, k);
      NoSmallDeficit(Evaluate(candidate, k), n, d, Evaluate(protected, k), true);
    } else {
      KnotValue(protected, k);
      var n, d := FractionAtWholeDegree(candidate, k);
      NoSmallDeficit(Evaluate(protected, k), n, d, Evaluate(candidate, k), false);
    }
  }

  lemma KnotValue(points: Knots, k: real)
    requires IntegerKnots(points) && k in Temperatures(points)
    ensures IsInteger(Evaluate(points, k))
  {
    var i :| 0 <= i < |points| && points[i].temperature == k;
    if i == 0 {
    } else {
      EvaluateOnSegment(points, i - 1, k);
      UpperEnd(points[i - 1], points[i]);
    }
  }

  /** A whole number and a fraction with denominator below 10^9 differ by 0 or by more than the epsilon. */
  lemma NoSmallDeficit(whole: real, n: int, d: int, fraction: real, wholeIsCandidate: bool)
    requires IsInteger(whole) && IsFraction(fraction, n, d)
    requires if wholeIsCandidate then whole + COMPARISON_EPSILON >= fraction
             else fraction + COMPARISON_EPSILON >= whole
    ensures if wholeIsCandidate then whole >= fraction else fraction >= whole
  {
    var w, r := whole.Floor, d as real;
    IntProduct(w, d);
    var gap := if wholeIsCandidate then n - w * d else w * d - n;
    var deficit := if wholeIsCandidate then fraction - whole else whole - fraction;
    assert gap as real == deficit * r;
    assert deficit * r <= COMPARISON_EPSILON * r < 1.0;
    assert gap <= 0;
    NonNegativeFactor(-deficit, r);
  }
}
