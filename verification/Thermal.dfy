/** Thermal statistics of evidence (evidence.rs) and the limits derived from them (endurance.rs). */
module Thermal {
  import opened Wrappers
  import opened Order

  datatype Reading = Reading(millis: nat, value: int)

  function Values(readings: seq<Reading>): (r: seq<int>)
    ensures |r| == |readings|
  {
    seq(|readings|, i requires 0 <= i < |readings| => readings[i].value)
  }

  function Peak(values: seq<int>): int {
    if values == [] then 0 else Maximum(values)
  }

  // ---------------------------------------------------------------- the percentile

  function Rank(n: nat): nat {
    (95 * n + 99) / 100
  }

  /** The sorted value at rank ceil(0.95 n), or 0 if there is none. */
  function Percentile95(values: seq<int>): int {
    var rank := Rank(|values|);
    var index := if rank == 0 then 0 else rank - 1;
    if index < |values| then Sort(values)[index] else 0
  }

  /** The smallest member that at least 95 % of the values do not exceed. */
  ghost predicate IsNearestRank(s: seq<int>, v: int) {
    v in s && 100 * CountAtMost(s, v) >= 95 * |s| && 100 * CountAtMost(s, v - 1) < 95 * |s|
  }

  lemma RankBounds(n: nat)
    requires n > 0
    ensures 1 <= Rank(n) <= n && 100 * Rank(n) >= 95 * n > 100 * (Rank(n) - 1)
  {
  }

  lemma PercentileIsNearestRank(values: seq<int>)
    requires values != []
    ensures IsNearestRank(values, Percentile95(values))
  {
    hide Sort, Rank, CountAtMost, Sorted;
    RankBounds(|values|);
    var k := Rank(|values|) - 1;
    var sorted := Sort(values);
    var v := Percentile95(values);
    SortKeepsMembers(values, v);
    SortedCounts(sorted, k);
    CountSorted(values, v);
    CountSorted(values, v - 1);
  }

  /** There is only one nearest-rank value, so the percentile is exactly it. */
  lemma NearestRankIsUnique(s: seq<int>, v: int, w: int)
    requires IsNearestRank(s, v) && IsNearestRank(s, w)
    ensures v == w
  {
    if v < w {
      CountMonotone(s, v, w - 1);
    } else if w < v {
      CountMonotone(s, w, v - 1);
    }
  }

  lemma PercentileWithinPeak(values: seq<int>)
    ensures Percentile95(values) <= Peak(values)
  {
    if values != [] {
      PercentileIsNearestRank(values);
    }
  }

  // ---------------------------------------------------------------- summaries and the envelope

  datatype Summary = Summary(cpuPeak: int, gpuPeak: int, cpuP95: int, gpuP95: int)

  function Summarize(cpu: seq<Reading>, gpu: seq<Reading>): Summary {
    Summary(Peak(Values(cpu)), Peak(Values(gpu)), Percentile95(Values(cpu)), Percentile95(Values(gpu)))
  }

  datatype Envelope = Envelope(cpuPeak: int, gpuPeak: int, cpuP95: int, gpuP95: int)

  datatype EnvelopeError = MissingSummaries | UnsupportedLimit

  const MARGIN := 2_000
  const CPU_ABORT := 95_000
  const GPU_ABORT := 85_000

  predicate Supported(value: int, limit: int) {
    0 < value + MARGIN < limit
  }

  function Fields(summaries: seq<Summary>, f: Summary -> int): (r: seq<int>)
    ensures |r| == |summaries| && forall i :: 0 <= i < |r| ==> r[i] == f(summaries[i])
  {
    seq(|summaries|, i requires 0 <= i < |summaries| => f(summaries[i]))
  }

  /** Each limit is the largest baseline value plus the margin, and must lie between zero and the abort limit. */
  function ThermalEnvelope(summaries: seq<Summary>): (r: Result<Envelope, EnvelopeError>) {
    if summaries == [] then Err(MissingSummaries)
    else
      var cpuPeak := Maximum(Fields(summaries, (s: Summary) => s.cpuPeak));
      var gpuPeak := Maximum(Fields(summaries, (s: Summary) => s.gpuPeak));
      var cpuP95 := Maximum(Fields(summaries, (s: Summary) => s.cpuP95));
      var gpuP95 := Maximum(Fields(summaries, (s: Summary) => s.gpuP95));
      if Supported(cpuPeak, CPU_ABORT) && Supported(gpuPeak, GPU_ABORT) && Supported(cpuP95, CPU_ABORT) && Supported(gpuP95, GPU_ABORT)
      then Ok(Envelope(cpuPeak + MARGIN, gpuPeak + MARGIN, cpuP95 + MARGIN, gpuP95 + MARGIN))
      else Err(UnsupportedLimit)
  }

  lemma MaximumOfDominated(low: seq<int>, high: seq<int>)
    requires |low| == |high| > 0 && forall i :: 0 <= i < |low| ==> low[i] <= high[i]
    ensures Maximum(low) <= Maximum(high)
  {
  }

  /** The limits an envelope sets, as the endurance check applies them. */
  predicate WithinLimits(s: Summary, e: Envelope) {
    && e.cpuPeak < CPU_ABORT && e.gpuPeak < GPU_ABORT && e.cpuP95 <= e.cpuPeak && e.gpuP95 <= e.gpuPeak
    && s.cpuPeak <= e.cpuPeak && s.gpuPeak <= e.gpuPeak && s.cpuP95 <= e.cpuP95 && s.gpuP95 <= e.gpuP95
  }

  ghost predicate FromReadings(s: Summary) {
    exists cpu, gpu :: s == Summarize(cpu, gpu)
  }

  lemma SummaryIsCoherent(s: Summary)
    requires FromReadings(s)
    ensures s.cpuP95 <= s.cpuPeak && s.gpuP95 <= s.gpuPeak
  {
    hide Percentile95, Peak;
    var cpu, gpu :| s == Summarize(cpu, gpu);
    PercentileWithinPeak(Values(cpu));
    PercentileWithinPeak(Values(gpu));
  }

  /** An envelope derived from real summaries is coherent, and every baseline it came from is within it. */
  lemma EnvelopeIsCoherent(summaries: seq<Summary>, k: nat)
    requires ThermalEnvelope(summaries).Ok? && k < |summaries|
    requires forall i :: 0 <= i < |summaries| ==> FromReadings(summaries[i])
    ensures WithinLimits(summaries[k], ThermalEnvelope(summaries).value)
  {
    hide FromReadings, Maximum, Fields;
    forall i | 0 <= i < |summaries| ensures summaries[i].cpuP95 <= summaries[i].cpuPeak && summaries[i].gpuP95 <= summaries[i].gpuPeak {
      SummaryIsCoherent(summaries[i]);
    }
    var cpuPeaks, gpuPeaks := Fields(summaries, (s: Summary) => s.cpuPeak), Fields(summaries, (s: Summary) => s.gpuPeak);
    var cpuP95s, gpuP95s := Fields(summaries, (s: Summary) => s.cpuP95), Fields(summaries, (s: Summary) => s.gpuP95);
    MaximumOfDominated(cpuP95s, cpuPeaks);
    MaximumOfDominated(gpuP95s, gpuPeaks);
    assert cpuPeaks[k] in cpuPeaks && gpuPeaks[k] in gpuPeaks && cpuP95s[k] in cpuP95s && gpuP95s[k] in gpuP95s;
  }

  /** The limit is the largest value plus two degrees. */
  ghost predicate IsLimitOf(limit: int, values: seq<int>) {
    limit - 2_000 in values && forall v :: v in values ==> v + 2_000 <= limit
  }

  /** The limits are no wider than that, and exist exactly when they are positive and below the abort temperatures. */
  lemma EnvelopeIsTight(summaries: seq<Summary>, cpuPeak: int, gpuPeak: int, cpuP95: int, gpuP95: int)
    requires summaries != []
    requires IsLimitOf(cpuPeak, seq(|summaries|, i requires 0 <= i < |summaries| => summaries[i].cpuPeak))
    requires IsLimitOf(gpuPeak, seq(|summaries|, i requires 0 <= i < |summaries| => summaries[i].gpuPeak))
    requires IsLimitOf(cpuP95, seq(|summaries|, i requires 0 <= i < |summaries| => summaries[i].cpuP95))
    requires IsLimitOf(gpuP95, seq(|summaries|, i requires 0 <= i < |summaries| => summaries[i].gpuP95))
    ensures ThermalEnvelope(summaries)
            == if 0 < cpuPeak < 95_000 && 0 < gpuPeak < 85_000 && 0 < cpuP95 < 95_000 && 0 < gpuP95 < 85_000
               then Ok(Envelope(cpuPeak, gpuPeak, cpuP95, gpuP95)) else Err(UnsupportedLimit)
  {
    hide Maximum;
    assert Fields(summaries, (s: Summary) => s.cpuPeak) == seq(|summaries|, i requires 0 <= i < |summaries| => summaries[i].cpuPeak);
    assert Fields(summaries, (s: Summary) => s.gpuPeak) == seq(|summaries|, i requires 0 <= i < |summaries| => summaries[i].gpuPeak);
    assert Fields(summaries, (s: Summary) => s.cpuP95) == seq(|summaries|, i requires 0 <= i < |summaries| => summaries[i].cpuP95);
    assert Fields(summaries, (s: Summary) => s.gpuP95) == seq(|summaries|, i requires 0 <= i < |summaries| => summaries[i].gpuP95);
  }

  // ---------------------------------------------------------------- the final slope

  const WINDOW := 300_000

  function Recent(readings: seq<Reading>, start: nat): (r: seq<Reading>)
    ensures forall x :: x in r <==> x in readings && x.millis >= start
  {
    if readings == [] then []
    else
      var rest := Recent(readings[1..], start);
      assert readings == [readings[0]] + readings[1..];
      if readings[0].millis >= start then [readings[0]] + rest else rest
  }

  function WindowStart(readings: seq<Reading>): nat
    requires readings != []
  {
    var last := readings[|readings| - 1].millis;
    if last >= WINDOW then last - WINDOW else 0
  }

  /** Minutes since the first reading of the window. */
  function Minutes(window: seq<Reading>): (r: seq<real>)
    ensures |r| == |window|
  {
    seq(|window|, i requires 0 <= i < |window| => (window[i].millis - window[0].millis) as real / 60000.0)
  }

  function Temperatures(window: seq<Reading>): (r: seq<real>)
    ensures |r| == |window|
  {
    seq(|window|, i requires 0 <= i < |window| => window[i].value as real)
  }

  function Sum(s: seq<real>): real {
    if s == [] then 0.0 else s[0] + Sum(s[1..])
  }

  /** Sum of the products of the deviations from `a` and `b`. */
  function Deviations(xs: seq<real>, ys: seq<real>, a: real, b: real): real
    requires |xs| == |ys|
  {
    if xs == [] then 0.0 else Product(xs[0] - a, ys[0] - b) + Deviations(xs[1..], ys[1..], a, b)
  }

  function Product(x: real, y: real): real {
    x * y
  }

  function Mean(s: seq<real>): real
    requires s != []
  {
    Sum(s) / |s| as real
  }

  function LeastSquaresSlope(xs: seq<real>, ys: seq<real>): real
    requires |xs| == |ys| > 0
  {
    var numerator := Deviations(xs, ys, Mean(xs), Mean(ys));
    var denominator := Deviations(xs, xs, Mean(xs), Mean(xs));
    if denominator == 0.0 then 0.0 else numerator / denominator
  }

  /** Least-squares slope of the last five minutes, per minute. */
  function FinalSlope(readings: seq<Reading>): real {
    if readings == [] then 0.0
    else
      var window := Recent(readings, WindowStart(readings));
      if |window| < 2 then 0.0 else LeastSquaresSlope(Minutes(window), Temperatures(window))
  }

  // ---------------------------------------------------------------- what the slope means

  function Dot(xs: seq<real>, ys: seq<real>): real
    requires |xs| == |ys|
  {
    if xs == [] then 0.0 else Product(xs[0], ys[0]) + Dot(xs[1..], ys[1..])
  }

  /** `Deviations` in terms of the plain sums. */
  function Expanded(n: real, d: real, sx: real, sy: real, a: real, b: real): real {
    d - b * sx - a * sy + n * (a * b)
  }

  lemma {:induction false} DeviationsExpand(xs: seq<real>, ys: seq<real>, a: real, b: real)
    requires |xs| == |ys|
    ensures Deviations(xs, ys, a, b) == Expanded(|xs| as real, Dot(xs, ys), Sum(xs), Sum(ys), a, b)
  {
    if xs != [] {
      hide Expanded, Product;
      DeviationsExpand(xs[1..], ys[1..], a, b);
      ExpandStep(|xs[1..]| as real, Dot(xs[1..], ys[1..]), Sum(xs[1..]), Sum(ys[1..]), xs[0], ys[0], a, b);
      assert |xs| as real == |xs[1..]| as real + 1.0;
    }
  }

  lemma ExpandStep(n: real, d: real, sx: real, sy: real, x: real, y: real, a: real, b: real)
    ensures Product(x - a, y - b) + Expanded(n, d, sx, sy, a, b) == Expanded(n + 1.0, Product(x, y) + d, x + sx, y + sy, a, b)
  {
  }

  /** Where one sequence is higher the other is not. */
  ghost predicate Opposed(xs: seq<real>, zs: seq<real>)
    requires |xs| == |zs|
  {
    forall i, j :: 0 <= i < |xs| && 0 <= j < |xs| && xs[i] < xs[j] ==> zs[j] <= zs[i]
  }

  lemma OpposedProduct(x: real, z: real, u: real, v: real)
    requires (x < u ==> v <= z) && (u < x ==> z <= v)
    ensures Product(u - x, v - z) <= 0.0
  {
  }

  lemma {:induction false} OpposedToOne(xs: seq<real>, zs: seq<real>, x: real, z: real)
    requires |xs| == |zs|
    requires forall i :: 0 <= i < |xs| ==> (x < xs[i] ==> zs[i] <= z) && (xs[i] < x ==> z <= zs[i])
    ensures Deviations(xs, zs, x, z) <= 0.0
  {
    if xs != [] {
      hide Product;
      OpposedProduct(x, z, xs[0], zs[0]);
      OpposedToOne(xs[1..], zs[1..], x, z);
    }
  }

  /** n times the sum of products is at most the product of sums. */
  predicate NotCorrelated(n: real, d: real, sx: real, sz: real) {
    n * d <= sx * sz
  }

  /** The difference of the two is a sum over all pairs, each of which is negative or zero. */
  lemma {:induction false} OpposedCovariance(xs: seq<real>, zs: seq<real>)
    requires |xs| == |zs| && Opposed(xs, zs)
    ensures NotCorrelated(|xs| as real, Dot(xs, zs), Sum(xs), Sum(zs))
  {
    if xs != [] {
      hide NotCorrelated, Expanded, Deviations, Product;
      OpposedCovariance(xs[1..], zs[1..]);
      OpposedToOne(xs[1..], zs[1..], xs[0], zs[0]);
      DeviationsExpand(xs[1..], zs[1..], xs[0], zs[0]);
      CovarianceStep(|xs[1..]| as real, Dot(xs[1..], zs[1..]), Sum(xs[1..]), Sum(zs[1..]), xs[0], zs[0]);
      assert |xs| as real == |xs[1..]| as real + 1.0;
    }
  }

  lemma CovarianceStep(n: real, d: real, sx: real, sz: real, x: real, z: real)
    requires NotCorrelated(n, d, sx, sz) && Expanded(n, d, sx, sz, x, z) <= 0.0
    ensures NotCorrelated(n + 1.0, Product(x, z) + d, x + sx, z + sz)
  {
    var xz := x * z;
    Distribute(x, sx, z, sz);
    Distribute(n, 1.0, xz, d);
    Ordered(n * d, sx * sz, n * xz, z * sx, x * sz, xz, d);
    assert (n + 1.0) * (xz + d) <= (x + sx) * (z + sz);
  }

  lemma Ordered(nd: real, ss: real, nxz: real, zsx: real, xsz: real, xz: real, d: real)
    requires nd <= ss && d - zsx - xsz + nxz <= 0.0
    ensures nxz + nd + xz + d <= xz + xsz + zsx + ss
  {
  }

  lemma Distribute(a: real, b: real, c: real, d: real)
    ensures (a + b) * (c + d) == a * c + a * d + b * c + b * d
  {
  }

  /** A value with the line of slope `l` taken off. */
  function Off(x: real, y: real, l: real): real {
    y - l * x
  }

  function Detrended(xs: seq<real>, ys: seq<real>, l: real): (r: seq<real>)
    requires |xs| == |ys|
    ensures |r| == |xs| && forall i :: 0 <= i < |r| ==> r[i] == Off(xs[i], ys[i], l)
  {
    if xs == [] then [] else [Off(xs[0], ys[0], l)] + Detrended(xs[1..], ys[1..], l)
  }

  lemma {:induction false} DetrendedSums(xs: seq<real>, ys: seq<real>, l: real)
    requires |xs| == |ys|
    ensures Sum(Detrended(xs, ys, l)) == Off(Sum(xs), Sum(ys), l)
    ensures Dot(xs, Detrended(xs, ys, l)) == Off(Dot(xs, xs), Dot(xs, ys), l)
  {
    if xs != [] {
      var zs := Detrended(xs, ys, l);
      assert zs[0] == Off(xs[0], ys[0], l) && zs[1..] == Detrended(xs[1..], ys[1..], l);
      DetrendedSums(xs[1..], ys[1..], l);
      hide Off, Product;
      DetrendStep(xs[0], ys[0], l, Sum(xs[1..]), Sum(ys[1..]), Dot(xs[1..], xs[1..]), Dot(xs[1..], ys[1..]));
      assert Sum(zs) == Off(xs[0], ys[0], l) + Off(Sum(xs[1..]), Sum(ys[1..]), l);
      assert Dot(xs, zs) == Product(xs[0], Off(xs[0], ys[0], l)) + Off(Dot(xs[1..], xs[1..]), Dot(xs[1..], ys[1..]), l);
    }
  }

  lemma DetrendStep(x: real, y: real, l: real, sx: real, sy: real, dxx: real, dxy: real)
    ensures Off(x, y, l) + Off(sx, sy, l) == Off(x + sx, y + sy, l)
    ensures Product(x, Off(x, y, l)) + Off(dxx, dxy, l) == Off(Product(x, x) + dxx, Product(x, y) + dxy, l)
  {
  }

  /** n times the centered sum, without the means. */
  predicate IsCentered(n: real, c: real, d: real, sx: real, sy: real) {
    n * c == n * d - sx * sy
  }

  lemma CenteredSum(xs: seq<real>, ys: seq<real>)
    requires |xs| == |ys| > 0
    ensures IsCentered(|xs| as real, Deviations(xs, ys, Mean(xs), Mean(ys)), Dot(xs, ys), Sum(xs), Sum(ys))
  {
    DeviationsExpand(xs, ys, Mean(xs), Mean(ys));
    hide Deviations, Dot, Sum;
    CenterStep(|xs| as real, Sum(xs), Sum(ys), Dot(xs, ys));
  }

  lemma CenterStep(n: real, sx: real, sy: real, d: real)
    requires n > 0.0
    ensures IsCentered(n, Expanded(n, d, sx, sy, sx / n, sy / n), d, sx, sy)
  {
  }

  lemma {:induction false} SquaresNonNegative(xs: seq<real>, a: real)
    ensures Deviations(xs, xs, a, a) >= 0.0
  {
    if xs != [] {
      SquaresNonNegative(xs[1..], a);
      assert (xs[0] - a) * (xs[0] - a) >= 0.0;
    }
  }

  /** No pair rises faster than `l`. */
  ghost predicate RisesAtMost(xs: seq<real>, ys: seq<real>, l: real)
    requires |xs| == |ys|
  {
    forall i, j :: 0 <= i < |xs| && 0 <= j < |xs| && xs[i] < xs[j] ==> ys[j] - ys[i] <= l * (xs[j] - xs[i])
  }

  lemma DetrendedIsOpposed(xs: seq<real>, ys: seq<real>, l: real)
    requires |xs| == |ys| && RisesAtMost(xs, ys, l)
    ensures Opposed(xs, Detrended(xs, ys, l))
  {
  }

  /** Numerator against denominator: the least-squares line rises no faster than the fastest pair. */
  lemma NumeratorBound(xs: seq<real>, ys: seq<real>, l: real)
    requires |xs| == |ys| > 0 && RisesAtMost(xs, ys, l)
    ensures Deviations(xs, ys, Mean(xs), Mean(ys)) <= l * Deviations(xs, xs, Mean(xs), Mean(xs))
  {
    hide *;
    var zs := Detrended(xs, ys, l);
    DetrendedIsOpposed(xs, ys, l);
    OpposedCovariance(xs, zs);
    DetrendedSums(xs, ys, l);
    CenteredSum(xs, ys);
    CenteredSum(xs, xs);
    BoundStep(|xs| as real, l, Sum(xs), Sum(ys), Dot(xs, xs), Dot(xs, ys),
              Deviations(xs, ys, Mean(xs), Mean(ys)), Deviations(xs, xs, Mean(xs), Mean(xs)));
  }

  lemma BoundStep(n: real, l: real, sx: real, sy: real, dxx: real, dxy: real, num: real, den: real)
    requires n > 0.0 && NotCorrelated(n, Off(dxx, dxy, l), sx, Off(sx, sy, l))
    requires IsCentered(n, num, dxy, sx, sy) && IsCentered(n, den, dxx, sx, sx)
    ensures num <= l * den
  {
  }

  lemma QuotientBound(num: real, den: real, l: real)
    requires den > 0.0 && num <= l * den
    ensures num / den <= l
  {
  }

  lemma SlopeAtMost(xs: seq<real>, ys: seq<real>, l: real)
    requires |xs| == |ys| > 0 && l >= 0.0 && RisesAtMost(xs, ys, l)
    ensures LeastSquaresSlope(xs, ys) <= l
  {
    hide Deviations, Mean, RisesAtMost;
    NumeratorBound(xs, ys, l);
    SquaresNonNegative(xs, Mean(xs));
    var den := Deviations(xs, xs, Mean(xs), Mean(xs));
    if den > 0.0 {
      QuotientBound(Deviations(xs, ys, Mean(xs), Mean(ys)), den, l);
    }
  }

  /** The rise from one reading to another, against a rate per minute. */
  ghost predicate RisesWithin(from: Reading, to: Reading, l: real) {
    (to.value - from.value) as real <= l * ((to.millis - from.millis) as real / 60000.0)
  }

  ghost predicate InLastFiveMinutes(readings: seq<Reading>, p: Reading) {
    p in readings && p.millis + 300_000 >= readings[|readings| - 1].millis
  }

  /**
   * If no two readings of the last five minutes rise faster than `l` per minute, the reported slope does
   * not exceed `l`, whatever the order and spacing of the readings.
   */
  lemma FinalSlopeAtMost(readings: seq<Reading>, l: real)
    requires l >= 0.0
    requires forall p, q :: InLastFiveMinutes(readings, p) && InLastFiveMinutes(readings, q) && p.millis < q.millis ==> RisesWithin(p, q, l)
    ensures FinalSlope(readings) <= l
  {
    hide LeastSquaresSlope, RisesWithin, RisesAtMost;
    if readings != [] {
      var window := Recent(readings, WindowStart(readings));
      if |window| >= 2 {
        WindowRises(window, l);
        SlopeAtMost(Minutes(window), Temperatures(window), l);
      }
    }
  }

  lemma WindowRises(window: seq<Reading>, l: real)
    requires forall p, q :: p in window && q in window && p.millis < q.millis ==> RisesWithin(p, q, l)
    ensures RisesAtMost(Minutes(window), Temperatures(window), l)
  {
    var xs, ys := Minutes(window), Temperatures(window);
    forall i, j | 0 <= i < |xs| && 0 <= j < |xs| && xs[i] < xs[j] ensures ys[j] - ys[i] <= l * (xs[j] - xs[i]) {
      MinutesApart(window, i, j);
      assert RisesWithin(window[i], window[j], l);
    }
  }

  lemma MinutesApart(window: seq<Reading>, i: nat, j: nat)
    requires i < |window| && j < |window|
    ensures Minutes(window)[j] - Minutes(window)[i] == (window[j].millis - window[i].millis) as real / 60000.0
    ensures Minutes(window)[i] < Minutes(window)[j] <==> window[i].millis < window[j].millis
  {
  }

  // ---------------------------------------------------------------- exact on a line

  function Line(x: real, a: real, b: real): real {
    a + b * x
  }

  ghost predicate OnLine(xs: seq<real>, ys: seq<real>, a: real, b: real)
    requires |xs| == |ys|
  {
    forall i :: 0 <= i < |xs| ==> ys[i] == Line(xs[i], a, b)
  }

  lemma {:induction false} LineSum(xs: seq<real>, ys: seq<real>, a: real, b: real)
    requires |xs| == |ys| && OnLine(xs, ys, a, b)
    ensures Sum(ys) == Product(|xs| as real, a) + Product(b, Sum(xs))
  {
    if xs != [] {
      LineSum(xs[1..], ys[1..], a, b);
      LineSumStep(xs[0], a, b, |xs[1..]| as real, Sum(xs[1..]));
      hide Product, Line;
      assert |xs| as real == |xs[1..]| as real + 1.0;
    }
  }

  lemma LineSumStep(x: real, a: real, b: real, n: real, sx: real)
    ensures Line(x, a, b) + (Product(n, a) + Product(b, sx)) == Product(n + 1.0, a) + Product(b, x + sx)
  {
  }

  lemma {:induction false} LineDeviations(xs: seq<real>, ys: seq<real>, a: real, b: real, c: real)
    requires |xs| == |ys| && OnLine(xs, ys, a, b)
    ensures Deviations(xs, ys, c, Line(c, a, b)) == Product(b, Deviations(xs, xs, c, c))
  {
    if xs != [] {
      hide Product, Line;
      LineDeviations(xs[1..], ys[1..], a, b, c);
      LineStep(xs[0], a, b, c, Deviations(xs[1..], xs[1..], c, c));
    }
  }

  lemma LineStep(x: real, a: real, b: real, c: real, rest: real)
    ensures Product(x - c, Line(x, a, b) - Line(c, a, b)) + Product(b, rest) == Product(b, Product(x - c, x - c) + rest)
  {
  }

  lemma SquareIsPositive(x: real)
    requires x != 0.0
    ensures Product(x, x) > 0.0
  {
    if x > 0.0 {
      PositiveProduct(x, x);
    } else {
      PositiveProduct(-x, -x);
      assert Product(-x, -x) == Product(x, x);
    }
  }

  lemma PositiveProduct(x: real, y: real)
    requires x > 0.0 && y > 0.0
    ensures Product(x, y) > 0.0
  {
  }

  lemma {:induction false} SpreadIsPositive(xs: seq<real>, a: real, i: nat)
    requires i < |xs| && xs[i] != a
    ensures Deviations(xs, xs, a, a) > 0.0
    decreases i
  {
    SquaresNonNegative(xs[1..], a);
    if i == 0 {
      SquareIsPositive(xs[0] - a);
    } else {
      assert Product(xs[0] - a, xs[0] - a) >= 0.0;
      SpreadIsPositive(xs[1..], a, i - 1);
    }
  }

  /** Points on a line give back its slope, provided two of them differ in time. */
  lemma SlopeOfLine(xs: seq<real>, ys: seq<real>, a: real, b: real, i: nat, j: nat)
    requires |xs| == |ys| && OnLine(xs, ys, a, b) && i < |xs| && j < |xs| && xs[i] != xs[j]
    ensures LeastSquaresSlope(xs, ys) == b
  {
    hide Deviations, Product, Line, Sum, OnLine;
    var m := Mean(xs);
    LineSum(xs, ys, a, b);
    MeanOnLine(|xs| as real, Sum(xs), a, b);
    assert Mean(ys) == Line(m, a, b);
    LineDeviations(xs, ys, a, b, m);
    SpreadIsPositive(xs, m, if xs[i] != m then i else j);
    ProductQuotient(b, Deviations(xs, xs, m, m));
  }

  ghost predicate ReadsLine(p: Reading, a: real, b: real) {
    p.value as real == Line(p.millis as real / 60000.0, a, b)
  }

  /**
   * Readings of the last five minutes that follow a line are reported with its slope per minute, whatever
   * came before them, provided two of them were taken at different times.
   */
  lemma FinalSlopeOfLine(readings: seq<Reading>, a: real, b: real, p: Reading, q: Reading)
    requires InLastFiveMinutes(readings, p) && InLastFiveMinutes(readings, q) && p.millis != q.millis
    requires forall x :: InLastFiveMinutes(readings, x) ==> ReadsLine(x, a, b)
    ensures FinalSlope(readings) == b
  {
    hide LeastSquaresSlope, ReadsLine, Line;
    var window := Recent(readings, WindowStart(readings));
    assert p in window && q in window;
    var i :| 0 <= i < |window| && window[i] == p;
    var j :| 0 <= j < |window| && window[j] == q;
    MinutesApart(window, i, j);
    var origin := window[0].millis as real / 60000.0;
    forall k | 0 <= k < |window| ensures Temperatures(window)[k] == Line(Minutes(window)[k], Line(origin, a, b), b) {
      assert InLastFiveMinutes(readings, window[k]) by { assert window[k] in window; }
      MovedOrigin(window[k], window[0], a, b);
    }
    SlopeOfLine(Minutes(window), Temperatures(window), Line(origin, a, b), b, i, j);
  }

  /** The same line with time counted from `first`. */
  lemma MovedOrigin(p: Reading, first: Reading, a: real, b: real)
    requires ReadsLine(p, a, b)
    ensures p.value as real == Line((p.millis - first.millis) as real / 60000.0, Line(first.millis as real / 60000.0, a, b), b)
  {
    hide Line;
    var x, origin := p.millis as real / 60000.0, first.millis as real / 60000.0;
    assert (p.millis - first.millis) as real / 60000.0 == x - origin;
    LineFrom(x, origin, a, b);
  }

  lemma LineFrom(x: real, origin: real, a: real, b: real)
    ensures Line(x, a, b) == Line(x - origin, Line(origin, a, b), b)
  {
  }

  lemma ProductQuotient(b: real, den: real)
    requires den > 0.0
    ensures Product(b, den) / den == b
  {
  }

  lemma MeanOnLine(n: real, sx: real, a: real, b: real)
    requires n > 0.0
    ensures (Product(n, a) + Product(b, sx)) / n == Line(sx / n, a, b)
  {
  }
}
