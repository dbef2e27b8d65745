/** Fuel consumption baselines and the thresholds derived from them (alerts.service.ts).
    Litres and rates are exact reals, odometers and milliseconds integers. */
module FuelBaseline {
  import opened Common

  const REPEAT_FUEL_WINDOW_MS := 2 * 60 * 60 * 1000
  const BASELINE_SAMPLE_SIZE: nat := 5
  const MIN_DISTANCE_FOR_BASELINE_KM := 25
  const TOO_SOON_DISTANCE_KM := 30
  const DEVIATION_ALERT_THRESHOLD_PCT := 35.0
  const HIGH_LITERS_MULTIPLIER := 1.4

  datatype FuelRow = FuelRow(id: string, vehicleId: string, liters: real, odometerKm: Option<int>, createdAt: int)

  datatype BaselinePoint = BaselinePoint(liters: real, distanceKm: int)

  // ---------------------------------------------------------------- baseline points

  /** The point a pair of consecutive fills contributes, if both odometers are known and far enough apart. */
  function PairPoint(previous: FuelRow, current: FuelRow): seq<BaselinePoint> {
    if previous.odometerKm.None? || current.odometerKm.None? then []
    else
      var distanceKm := current.odometerKm.value - previous.odometerKm.value;
      if distanceKm < MIN_DISTANCE_FOR_BASELINE_KM then [] else [BaselinePoint(current.liters, distanceKm)]
  }

  function PairPoints(rows: seq<FuelRow>): seq<BaselinePoint> {
    var n := |rows|;
    if n < 2 then [] else PairPoints(rows[..n - 1]) + PairPoint(rows[n - 2], rows[n - 1])
  }

  function LastSample(points: seq<BaselinePoint>): seq<BaselinePoint> {
    if |points| <= BASELINE_SAMPLE_SIZE then points else points[|points| - BASELINE_SAMPLE_SIZE..]
  }

  function BaselinePoints(rows: seq<FuelRow>): seq<BaselinePoint> { LastSample(PairPoints(rows)) }

  method BuildBaselinePoints(rows: seq<FuelRow>) returns (sample: seq<BaselinePoint>)
    ensures sample == BaselinePoints(rows)
  {
    var points: seq<BaselinePoint> := [];
    var index := 1;
    while index < |rows|
      invariant 1 <= index && (index <= |rows| || |rows| == 0)
      invariant |rows| > 0 ==> points == PairPoints(rows[..index])
      invariant |rows| == 0 ==> points == []
    {
      var previous, current := rows[index - 1], rows[index];
      assert rows[..index + 1][..index] == rows[..index];
      index := index + 1;
      if previous.odometerKm.None? || current.odometerKm.None? {
        continue;
      }
      var distanceKm := current.odometerKm.value - previous.odometerKm.value;
      if distanceKm < MIN_DISTANCE_FOR_BASELINE_KM {
        continue;
      }
      points := points + [BaselinePoint(current.liters, distanceKm)];
    }
    assert |rows| > 0 ==> rows[..|rows|] == rows;
    sample := if |points| <= BASELINE_SAMPLE_SIZE then points else points[|points| - BASELINE_SAMPLE_SIZE..];
  }

  function TotalDistance(points: seq<BaselinePoint>): int {
    if points == [] then 0 else TotalDistance(points[..|points| - 1]) + points[|points| - 1].distanceKm
  }

  function TotalLiters(points: seq<BaselinePoint>): real {
    if points == [] then 0.0 else TotalLiters(points[..|points| - 1]) + points[|points| - 1].liters
  }

  function BaselineLitersPer100Km(points: seq<BaselinePoint>): Option<real> {
    if |points| < 3 then None
    else if TotalDistance(points) <= 0 then None
    else Some(TotalLiters(points) / TotalDistance(points) as real * 100.0)
  }

  /** Litres per 100 km of a single point. */
  function Rate(p: BaselinePoint): real
    requires p.distanceKm > 0
  {
    p.liters / p.distanceKm as real * 100.0
  }

  ghost predicate Moving(points: seq<BaselinePoint>) {
    forall k :: 0 <= k < |points| ==> points[k].distanceKm > 0
  }

  lemma {:induction false} PairPointsAreFar(rows: seq<FuelRow>)
    ensures forall k :: 0 <= k < |PairPoints(rows)| ==> PairPoints(rows)[k].distanceKm >= MIN_DISTANCE_FOR_BASELINE_KM
  {
    if |rows| >= 2 {
      PairPointsAreFar(rows[..|rows| - 1]);
    }
  }

  lemma {:induction false} DistanceGrows(points: seq<BaselinePoint>, least: nat)
    requires forall k :: 0 <= k < |points| ==> points[k].distanceKm >= least
    ensures TotalDistance(points) >= least * |points|
  {
    if points != [] {
      DistanceGrows(points[..|points| - 1], least);
      assert least * |points| == least * (|points| - 1) + least;
    }
  }

  /** Every point spans at least 25 km, at most five are kept, and there is no baseline
      exactly when fewer than three pairs qualify: the zero-distance exit is never taken. */
  lemma BaselineMissingIffFewPoints(rows: seq<FuelRow>)
    ensures var points := BaselinePoints(rows);
      && (forall k :: 0 <= k < |points| ==> points[k].distanceKm >= MIN_DISTANCE_FOR_BASELINE_KM)
      && |points| <= BASELINE_SAMPLE_SIZE
      && (points != [] ==> TotalDistance(points) > 0)
      && (BaselineLitersPer100Km(points).None? <==> |PairPoints(rows)| < 3)
  {
    PairPointsAreFar(rows);
    DistanceGrows(BaselinePoints(rows), 25);
  }

  /** Fills `j` and `j + 1` know both odometers and lie 25 km or more apart. */
  predicate FarPair(rows: seq<FuelRow>, j: nat) {
    && j + 1 < |rows| && rows[j].odometerKm.Some? && rows[j + 1].odometerKm.Some?
    && rows[j + 1].odometerKm.value - rows[j].odometerKm.value >= 25
  }

  ghost function FarPairs(rows: seq<FuelRow>): nat -> bool { (j: nat) => FarPair(rows, j) }

  predicate PointOf(rows: seq<FuelRow>, j: nat, p: BaselinePoint) {
    FarPair(rows, j) && p.liters == rows[j + 1].liters && p.distanceKm == rows[j + 1].odometerKm.value - rows[j].odometerKm.value
  }

  /** The points are those of the far pairs, in order, each with the litres of its second fill. */
  lemma {:induction false} PairPointsAre(rows: seq<FuelRow>) returns (w: seq<nat>)
    ensures Enumerates(w, |rows|, FarPairs(rows)) && |w| == |PairPoints(rows)|
    ensures forall k :: 0 <= k < |w| ==> PointOf(rows, w[k], PairPoints(rows)[k])
  {
    if |rows| < 2 {
      w := [];
    } else {
      var before := PairPointsAre(rows[..|rows| - 1]);
      w := if FarPair(rows, |rows| - 2) then before + [|rows| - 2] else before;
      FarInFront(rows);
      LastFarPair(rows, before, w);
      LastPoint(rows, before, w);
    }
  }

  lemma FarInFront(rows: seq<FuelRow>)
    requires |rows| >= 2
    ensures forall j: nat :: j < |rows| - 2 ==> (FarPair(rows[..|rows| - 1], j) <==> FarPair(rows, j))
    ensures forall j: nat, p :: PointOf(rows[..|rows| - 1], j, p) ==> PointOf(rows, j, p)
  {}

  lemma LastPoint(rows: seq<FuelRow>, before: seq<nat>, w: seq<nat>)
    requires |rows| >= 2 && w == if FarPair(rows, |rows| - 2) then before + [|rows| - 2] else before
    requires |before| == |PairPoints(rows[..|rows| - 1])|
    requires forall k :: 0 <= k < |before| ==> PointOf(rows, before[k], PairPoints(rows[..|rows| - 1])[k])
    ensures |w| == |PairPoints(rows)|
    ensures forall k :: 0 <= k < |w| ==> PointOf(rows, w[k], PairPoints(rows)[k])
  {
    var last := PairPoint(rows[|rows| - 2], rows[|rows| - 1]);
    assert PairPoints(rows) == PairPoints(rows[..|rows| - 1]) + last;
    assert last != [] <==> FarPair(rows, |rows| - 2);
  }

  lemma LastFarPair(rows: seq<FuelRow>, before: seq<nat>, w: seq<nat>)
    requires |rows| >= 2 && Enumerates(before, |rows| - 1, FarPairs(rows[..|rows| - 1]))
    requires forall j: nat :: j < |rows| - 2 ==> (FarPair(rows[..|rows| - 1], j) <==> FarPair(rows, j))
    requires w == if FarPair(rows, |rows| - 2) then before + [|rows| - 2] else before
    ensures Enumerates(w, |rows|, FarPairs(rows))
  {
    assert forall k :: 0 <= k < |before| ==> FarPairs(rows[..|rows| - 1])(before[k]) && before[k] < |rows| - 2;
    forall j: nat | j < |rows| && FarPairs(rows)(j) ensures j in w {
      if j < |rows| - 2 {
        assert FarPairs(rows[..|rows| - 1])(j);
        assert j in before;
      } else {
        assert w[|w| - 1] == j;
      }
    }
  }

  /** The sample is the points of the last five far pairs, or of all if there are fewer, in order. */
  lemma SampleIsTheLastFive(rows: seq<FuelRow>) returns (w: seq<nat>, dropped: nat)
    ensures Enumerates(w, |rows|, FarPairs(rows)) && dropped == (if |w| <= 5 then 0 else |w| - 5)
    ensures |BaselinePoints(rows)| == |w| - dropped
    ensures forall k :: 0 <= k < |w| - dropped ==> PointOf(rows, w[dropped + k], BaselinePoints(rows)[k])
  {
    w := PairPointsAre(rows);
    dropped := if |w| <= 5 then 0 else |w| - 5;
  }

  // ---------------------------------------------------------------- the weighted mean

  lemma ScaledRate(p: BaselinePoint, bound: real)
    requires p.distanceKm > 0
    ensures Rate(p) >= bound ==> 100.0 * p.liters >= bound * p.distanceKm as real
    ensures Rate(p) <= bound ==> 100.0 * p.liters <= bound * p.distanceKm as real
  {
    var d := p.distanceKm as real;
    assert Rate(p) * d == 100.0 * p.liters;
    ScaleBy(Rate(p), bound, d);
  }

  lemma ScaleBy(a: real, b: real, d: real)
    requires d > 0.0
    ensures a >= b <==> a * d >= b * d
    ensures a <= b <==> a * d <= b * d
  {
    assert a * d - b * d == (a - b) * d;
  }

  ghost predicate RatesWithin(points: seq<BaselinePoint>, low: real, high: real)
    requires Moving(points)
  {
    forall k :: 0 <= k < |points| ==> low <= Rate(points[k]) <= high
  }

  lemma {:induction false} SumsBetween(points: seq<BaselinePoint>, low: real, high: real)
    requires Moving(points) && RatesWithin(points, low, high)
    ensures low * TotalDistance(points) as real <= 100.0 * TotalLiters(points) <= high * TotalDistance(points) as real
  {
    if points != [] {
      var front, p := points[..|points| - 1], points[|points| - 1];
      SumsBetween(front, low, high);
      ScaledRate(p, low);
      ScaledRate(p, high);
      var a, b := TotalDistance(front) as real, p.distanceKm as real;
      assert TotalDistance(points) as real == a + b;
      assert low * (a + b) == low * a + low * b && high * (a + b) == high * a + high * b;
    }
  }

  /** The points with the smallest and the largest rate. */
  lemma {:induction false} ExtremeRates(points: seq<BaselinePoint>) returns (i: nat, j: nat)
    requires Moving(points) && points != []
    ensures i < |points| && j < |points|
    ensures forall k :: 0 <= k < |points| ==> Rate(points[i]) <= Rate(points[k]) <= Rate(points[j])
  {
    var n := |points| - 1;
    i, j := n, n;
    if n > 0 {
      var i', j' := ExtremeRates(points[..n]);
      if Rate(points[i']) < Rate(points[n]) { i := i'; }
      if Rate(points[j']) > Rate(points[n]) { j := j'; }
      forall k | 0 <= k < |points| ensures Rate(points[i]) <= Rate(points[k]) <= Rate(points[j]) {
        if k < n {
          assert points[..n][k] == points[k];
        }
      }
    }
  }

  lemma BaselineWithin(points: seq<BaselinePoint>, low: real, high: real)
    requires Moving(points) && |points| >= 3 && RatesWithin(points, low, high)
    ensures BaselineLitersPer100Km(points).Some? && low <= BaselineLitersPer100Km(points).value <= high
  {
    DistanceGrows(points, 1);
    SumsBetween(points, low, high);
    MeanWithin(TotalLiters(points), TotalDistance(points) as real, low, high);
  }

  lemma MeanWithin(liters: real, distance: real, low: real, high: real)
    requires distance > 0.0 && low * distance <= 100.0 * liters <= high * distance
    ensures low <= liters / distance * 100.0 <= high
  {
    var q := liters / distance;
    assert q * distance == liters;
    var b := q * 100.0;
    assert b * distance == 100.0 * (q * distance);
    ScaleBy(b, low, distance);
    ScaleBy(b, high, distance);
  }

  /** The baseline of any list of moving points lies between the smallest and the largest rate
      of a point, hence within every range that holds all the rates. */
  lemma BaselineBetweenRates(points: seq<BaselinePoint>)
    requires Moving(points) && |points| >= 3
    ensures var b := BaselineLitersPer100Km(points);
      && b.Some?
      && (exists i :: 0 <= i < |points| && Rate(points[i]) <= b.value)
      && (exists j :: 0 <= j < |points| && b.value <= Rate(points[j]))
      && (forall low, high :: RatesWithin(points, low, high) ==> low <= b.value <= high)
  {
    var i, j := ExtremeRates(points);
    BaselineWithin(points, Rate(points[i]), Rate(points[j]));
    forall low, high | RatesWithin(points, low, high)
      ensures low <= BaselineLitersPer100Km(points).value <= high
    {
      BaselineWithin(points, low, high);
    }
  }

  // ---------------------------------------------------------------- the assessment of one fill

  datatype Assessment = Assessment(
    current: FuelRow, diffMs: int, distanceKm: Option<int>, tooSoon: bool,
    expectedLiters: Option<real>, deviationPercent: Option<real>)

  /** `history` ends with the fill being assessed. */
  function Assess(history: seq<FuelRow>): Assessment
    requires |history| >= 2
  {
    var previous, current := history[|history| - 2], history[|history| - 1];
    var diffMs := current.createdAt - previous.createdAt;
    var distanceKm :=
      if previous.odometerKm.Some? && current.odometerKm.Some?
      then var d := current.odometerKm.value - previous.odometerKm.value; Some(if d < 0 then 0 else d)
      else None;
    var tooSoon := diffMs <= REPEAT_FUEL_WINDOW_MS || (distanceKm.Some? && distanceKm.value <= TOO_SOON_DISTANCE_KM);
    var baseline := BaselineLitersPer100Km(BaselinePoints(history[..|history| - 1]));
    if baseline.Some? && baseline.value > 0.0
       && distanceKm.Some? && distanceKm.value >= MIN_DISTANCE_FOR_BASELINE_KM then
      var expected := baseline.value * distanceKm.value as real / 100.0;
      Assessment(current, diffMs, distanceKm, tooSoon, Some(expected),
        if expected > 0.0 then Some((current.liters - expected) / expected * 100.0) else None)
    else Assessment(current, diffMs, distanceKm, tooSoon, None, None)
  }

  predicate HighLiters(a: Assessment) {
    a.expectedLiters.Some? && a.expectedLiters.value > 0.0
    && a.current.liters >= a.expectedLiters.value * HIGH_LITERS_MULTIPLIER
  }

  predicate VeryHighLiters(a: Assessment) {
    a.expectedLiters.Some? && a.current.liters >= a.expectedLiters.value * 1.8
  }

  function Abs(x: real): real { if x < 0.0 then -x else x }

  predicate AbnormalDeviation(a: Assessment) {
    a.deviationPercent.Some? && Abs(a.deviationPercent.value) >= DEVIATION_ALERT_THRESHOLD_PCT
  }

  predicate SevereDeviation(a: Assessment) {
    a.deviationPercent.Some? && Abs(a.deviationPercent.value) >= 60.0
  }

  /** An expectation is always positive, and the litres-against-distance test is the
      deviation test at +40 %, its HIGH grade at +80 %. */
  lemma HighLitersIsDeviation(history: seq<FuelRow>)
    requires |history| >= 2
    ensures var a := Assess(history);
      && (a.expectedLiters.Some? <==> a.deviationPercent.Some?)
      && (a.expectedLiters.Some? ==> a.expectedLiters.value > 0.0)
      && (HighLiters(a) <==> a.deviationPercent.Some? && a.deviationPercent.value >= 40.0)
      && (VeryHighLiters(a) <==> a.deviationPercent.Some? && a.deviationPercent.value >= 80.0)
  {
    var a := Assess(history);
    if a.expectedLiters.Some? {
      var e, l := a.expectedLiters.value, a.current.liters;
      var baseline := BaselineLitersPer100Km(BaselinePoints(history[..|history| - 1])).value;
      var d := a.distanceKm.value as real;
      assert baseline * d > 0.0;
      DeviationScale(l, e, 40.0);
      DeviationScale(l, e, 80.0);
    }
  }

  lemma HighLitersIsAbnormal(history: seq<FuelRow>)
    requires |history| >= 2
    ensures var a := Assess(history);
      (HighLiters(a) ==> AbnormalDeviation(a)) && (VeryHighLiters(a) ==> SevereDeviation(a))
  {
    HighLitersIsDeviation(history);
  }

  lemma DeviationScale(l: real, e: real, percent: real)
    requires e > 0.0
    ensures (l - e) / e * 100.0 >= percent <==> l >= e * (1.0 + percent / 100.0)
  {
    var q := (l - e) / e;
    assert q * e == l - e;
    ScaleBy(q, percent / 100.0, e);
  }

  lemma {:induction false} ConstantRateSums(points: seq<BaselinePoint>, rate: real)
    requires forall k :: 0 <= k < |points| ==> AtRate(points[k].liters, points[k].distanceKm, rate)
    ensures 100.0 * TotalLiters(points) == rate * TotalDistance(points) as real
  {
    if points != [] {
      var front, p := points[..|points| - 1], points[|points| - 1];
      ConstantRateSums(front, rate);
      assert AtRate(p.liters, p.distanceKm, rate);
      assert rate * (TotalDistance(front) as real + p.distanceKm as real)
        == rate * TotalDistance(front) as real + rate * p.distanceKm as real;
    }
  }

  ghost predicate AtRate(liters: real, distanceKm: int, rate: real) {
    100.0 * liters == rate * distanceKm as real
  }

  lemma RateOfSums(liters: real, distance: real, rate: real)
    requires distance > 0.0 && 100.0 * liters == rate * distance
    ensures liters / distance * 100.0 == rate
  {
    var b := liters / distance * 100.0;
    assert liters / distance * distance == liters;
    assert b * distance == 100.0 * liters;
    ScaleBy(b, rate, distance);
  }

  lemma ConstantRateBaseline(rows: seq<FuelRow>, rate: real)
    requires forall k :: 0 <= k < |BaselinePoints(rows)| ==>
      AtRate(BaselinePoints(rows)[k].liters, BaselinePoints(rows)[k].distanceKm, rate)
    ensures var b := BaselineLitersPer100Km(BaselinePoints(rows));
      (b.Some? <==> |PairPoints(rows)| >= 3) && (b.Some? ==> b.value == rate)
  {
    BaselineMissingIffFewPoints(rows);
    if BaselineLitersPer100Km(BaselinePoints(rows)).Some? {
      ConstantRateOfPoints(BaselinePoints(rows), rate);
    }
  }

  lemma ConstantRateOfPoints(points: seq<BaselinePoint>, rate: real)
    requires BaselineLitersPer100Km(points).Some?
    requires forall k :: 0 <= k < |points| ==> AtRate(points[k].liters, points[k].distanceKm, rate)
    ensures BaselineLitersPer100Km(points).value == rate
  {
    ConstantRateSums(points, rate);
    RateOfSums(TotalLiters(points), TotalDistance(points) as real, rate);
  }

  lemma NoDeviation(liters: real, distanceKm: int, rate: real)
    requires AtRate(liters, distanceKm, rate) && liters > 0.0
    ensures rate * distanceKm as real / 100.0 == liters && (liters - liters) / liters * 100.0 == 0.0
  {}

  /** Consumption at one constant positive rate is expected exactly: deviation zero, no consumption alert. */
  lemma ConstantRateNeverAlerts(history: seq<FuelRow>, rate: real)
    requires |history| >= 2 && rate > 0.0
    requires var points := BaselinePoints(history[..|history| - 1]);
      forall k :: 0 <= k < |points| ==> AtRate(points[k].liters, points[k].distanceKm, rate)
    requires var a := Assess(history);
      a.distanceKm.Some? && a.distanceKm.value >= MIN_DISTANCE_FOR_BASELINE_KM ==>
        AtRate(a.current.liters, a.distanceKm.value, rate)
    ensures var a := Assess(history);
      && !HighLiters(a) && !AbnormalDeviation(a)
      && (a.distanceKm.Some? && a.distanceKm.value >= MIN_DISTANCE_FOR_BASELINE_KM
          && |PairPoints(history[..|history| - 1])| >= 3 ==>
            a.expectedLiters == Some(a.current.liters) && a.deviationPercent == Some(0.0))
  {
    var a := Assess(history);
    ConstantRateBaseline(history[..|history| - 1], rate);
    HighLitersIsDeviation(history);
    if a.expectedLiters.Some? {
      assert a.expectedLiters.value > 0.0;
      NoDeviation(a.current.liters, a.distanceKm.value, rate);
    }
  }
}
