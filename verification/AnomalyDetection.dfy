/** analytics.py `_detect_anomalies`: rolling z-scores against the values just before each point. */
module AnomalyDetection {
  import opened Text
  import opened Rounding
  import opened Vectors
  import opened Statistics

  datatype AnomalyPoint = AnomalyPoint(index: nat, value: real, score: real)

  /** Half the series, but at least 3 and at most 7 values. */
  function WindowSize(n: nat): (w: nat)
    ensures 3 <= w <= 7
  {
    if n / 2 < 3 then 3 else if n / 2 > 7 then 7 else n / 2
  }

  function StandardScore(distance: real, deviation: real): Option<real> {
    if deviation == 0.0 then None else Some(distance / deviation)
  }

  /** How many standard deviations of `baseline` the value lies away from its mean; None when all of it is equal. */
  function ZScore(sqrt: real -> real, baseline: seq<real>, value: real): Option<real>
    requires baseline != []
  {
    StandardScore(Abs(value - Mean(baseline)), StdDev(sqrt, baseline))
  }

  /** The score of every point; the first `w` points have none. */
  function Scores(sqrt: real -> real, values: seq<real>, w: nat): seq<Option<real>>
    requires w > 0
  {
    seq(|values|, i requires 0 <= i < |values| => if i < w then None else ZScore(sqrt, values[i - w..i], values[i]))
  }

  predicate Reaches(score: Option<real>, threshold: real) { score.Some? && score.value >= threshold }

  /** Index and unrounded score of the points whose score reaches the threshold. */
  function Flagged(scores: seq<Option<real>>, threshold: real): (flags: seq<(nat, real)>)
    ensures forall k :: 0 <= k < |flags| ==> flags[k].0 < |scores|
  {
    if scores == [] then []
    else
      var i := |scores| - 1;
      var before := Flagged(scores[..i], threshold);
      if Reaches(scores[i], threshold) then before + [(i, scores[i].value)] else before
  }

  function Report(values: seq<real>, flags: seq<(nat, real)>): seq<AnomalyPoint>
    requires forall k :: 0 <= k < |flags| ==> flags[k].0 < |values|
  {
    seq(|flags|, k requires 0 <= k < |flags| => AnomalyPoint(flags[k].0, values[flags[k].0], Round2(flags[k].1)))
  }

  function Flags(sqrt: real -> real, values: seq<real>, threshold: real): (flags: seq<(nat, real)>)
    ensures forall k :: 0 <= k < |flags| ==> flags[k].0 < |values|
  {
    Flagged(Scores(sqrt, values, WindowSize(|values|)), threshold)
  }

  function Anomalies(sqrt: real -> real, values: seq<real>, threshold: real): seq<AnomalyPoint> {
    Report(values, Flags(sqrt, values, threshold))
  }

  lemma {:induction false} NothingBeforeTheWindow(scores: seq<Option<real>>, threshold: real)
    requires forall i :: 0 <= i < |scores| ==> scores[i] == None
    ensures Flagged(scores, threshold) == []
  {
    if scores != [] {
      NothingBeforeTheWindow(scores[..|scores| - 1], threshold);
    }
  }

  function ReportUpTo(values: seq<real>, scores: seq<Option<real>>, threshold: real, i: nat): seq<AnomalyPoint>
    requires i <= |scores| <= |values|
  {
    Report(values, Flagged(scores[..i], threshold))
  }

  lemma ReportGrows(values: seq<real>, scores: seq<Option<real>>, threshold: real, i: nat)
    requires i < |scores| <= |values|
    ensures ReportUpTo(values, scores, threshold, i + 1)
         == ReportUpTo(values, scores, threshold, i)
          + if Reaches(scores[i], threshold) then [AnomalyPoint(i, values[i], Round2(scores[i].value))] else []
  {
    assert scores[..i + 1][..i] == scores[..i];
  }

  lemma EmptyReport(values: seq<real>, scores: seq<Option<real>>, threshold: real, i: nat)
    requires i <= |scores| <= |values| && forall k :: 0 <= k < i ==> scores[k] == None
    ensures ReportUpTo(values, scores, threshold, i) == []
  {
    NothingBeforeTheWindow(scores[..i], threshold);
  }

  method DetectAnomalies(sqrt: real -> real, values: seq<real>, threshold: real) returns (anomalies: seq<AnomalyPoint>)
    ensures anomalies == Anomalies(sqrt, values, threshold)
  {
    var window := WindowSize(|values|);
    ghost var scores := Scores(sqrt, values, window);
    assert scores[..|values|] == scores;
    EmptyReport(values, scores, threshold, if window < |values| then window else |values|);
    anomalies := [];
    if window < |values| {
      for index := window to |values|
        invariant anomalies == ReportUpTo(values, scores, threshold, index)
      {
        var baseline := values[index - window..index];
        var score := ZScore(sqrt, baseline, values[index]);
        ReportGrows(values, scores, threshold, index);
        if score.Some? && score.value >= threshold {
          anomalies := anomalies + [AnomalyPoint(index, values[index], Round2(score.value))];
        }
      }
    }
  }

  /** Only points whose score reaches the threshold are flagged, in order and once each. */
  lemma {:induction false} FlaggedSoundly(scores: seq<Option<real>>, threshold: real, k: nat)
    requires k < |Flagged(scores, threshold)|
    ensures var flag := Flagged(scores, threshold)[k];
            && Reaches(scores[flag.0], threshold) && scores[flag.0].value == flag.1
            && forall j :: 0 <= j < k ==> Flagged(scores, threshold)[j].0 < flag.0
  {
    var n := |scores| - 1;
    var before := Flagged(scores[..n], threshold);
    if k < |before| {
      FlaggedSoundly(scores[..n], threshold, k);
      assert scores[..n][before[k].0] == scores[before[k].0];
    }
  }

  /** Every point whose score reaches the threshold is flagged with that score. */
  lemma {:induction false} FlaggedCompletely(scores: seq<Option<real>>, threshold: real, i: nat)
    requires i < |scores| && Reaches(scores[i], threshold)
    ensures (i, scores[i].value) in Flagged(scores, threshold)
  {
    var n := |scores| - 1;
    if i < n {
      FlaggedCompletely(scores[..n], threshold, i);
    }
  }

  /** A point is reported exactly when its score reaches the threshold, with its value and its score to two
      decimals. */
  lemma ReportedIffReached(values: seq<real>, scores: seq<Option<real>>, threshold: real, i: nat)
    requires |scores| == |values| && i < |values|
    ensures var report := Report(values, Flagged(scores, threshold));
            && (Reaches(scores[i], threshold) ==> AnomalyPoint(i, values[i], Round2(scores[i].value)) in report)
            && forall a :: a in report && a.index == i ==>
                 Reaches(scores[i], threshold) && a == AnomalyPoint(i, values[i], Round2(scores[i].value))
  {
    var flags := Flagged(scores, threshold);
    var report := Report(values, flags);
    forall a | a in report && a.index == i
      ensures Reaches(scores[i], threshold) && a == AnomalyPoint(i, values[i], Round2(scores[i].value))
    {
      var k :| 0 <= k < |report| && report[k] == a;
      FlaggedSoundly(scores, threshold, k);
    }
    if Reaches(scores[i], threshold) {
      FlaggedCompletely(scores, threshold, i);
      var k :| 0 <= k < |flags| && flags[k] == (i, scores[i].value);
      assert report[k] == AnomalyPoint(i, values[i], Round2(scores[i].value));
    }
  }

  /** In plain numbers: a point is reported, with its value and its score to two decimals, exactly when there are w
      values before it, these are not all equal, and it lies at least `threshold` of their standard deviations away
      from their mean; w is half the length of the series, but at least 3 and at most 7. */
  lemma ReportedExactly(sqrt: real -> real, values: seq<real>, threshold: real, w: nat, i: nat)
    requires w == if |values| < 8 then 3 else if |values| < 14 then |values| / 2 else 7
    requires i < |values|
    ensures i < w ==> forall a :: a in Anomalies(sqrt, values, threshold) ==> a.index != i
    ensures i >= w ==>
              var baseline := values[i - w..i];
              var deviation := StdDev(sqrt, baseline);
              (exists a :: a in Anomalies(sqrt, values, threshold) && a.index == i)
              <==> deviation != 0.0 && Abs(values[i] - Mean(baseline)) / deviation >= threshold
    ensures i >= w && StdDev(sqrt, values[i - w..i]) != 0.0 ==>
              var score := Abs(values[i] - Mean(values[i - w..i])) / StdDev(sqrt, values[i - w..i]);
              forall a :: a in Anomalies(sqrt, values, threshold) && a.index == i ==>
                a == AnomalyPoint(i, values[i], Round2(score))
  {
    var scores := Scores(sqrt, values, w);
    assert WindowSize(|values|) == w;
    ReportedIffReached(values, scores, threshold, i);
    ScoreAt(sqrt, values, w, i);
  }

  lemma ScoreAt(sqrt: real -> real, values: seq<real>, w: nat, i: nat)
    requires w > 0 && i < |values|
    ensures i < w ==> Scores(sqrt, values, w)[i] == None
    ensures i >= w ==>
              var baseline := values[i - w..i];
              var deviation := StdDev(sqrt, baseline);
              Scores(sqrt, values, w)[i]
              == if deviation == 0.0 then None else Some(Abs(values[i] - Mean(baseline)) / deviation)
  {
  }

  lemma ScoreOfScaled(p: real, distance: real, deviation: real)
    requires p > 0.0
    ensures StandardScore(p * distance, p * deviation) == StandardScore(distance, deviation)
  {
    NonZeroProduct(p, deviation);
    if deviation != 0.0 {
      CommonFactor(p, distance, deviation);
    }
  }

  lemma SameScore(p: real, distance: real, deviation: real, scaledDistance: real, scaledDeviation: real)
    requires p > 0.0 && scaledDistance == p * distance && scaledDeviation == p * deviation
    ensures StandardScore(scaledDistance, scaledDeviation) == StandardScore(distance, deviation)
  {
    ScoreOfScaled(p, distance, deviation);
  }

  lemma ZScoreAffine(sqrt: real -> real, baseline: seq<real>, value: real, a: real, b: real)
    requires IsSqrt(sqrt) && a != 0.0 && baseline != []
    ensures ZScore(sqrt, Affine(baseline, a, b), Line(a, b)(value)) == ZScore(sqrt, baseline, value)
  {
    var scaled := Affine(baseline, a, b);
    StdDevAffine(sqrt, baseline, a, b);
    MeanAffine(baseline, a, b);
    ScaledDistance(a, b, value, Mean(baseline), Line(a, b)(value), Mean(scaled));
    SameScore(Abs(a), Abs(value - Mean(baseline)), StdDev(sqrt, baseline),
              Abs(Line(a, b)(value) - Mean(scaled)), StdDev(sqrt, scaled));
  }

  lemma ScoreIgnoresScale(sqrt: real -> real, values: seq<real>, a: real, b: real, w: nat, i: nat)
    requires IsSqrt(sqrt) && a != 0.0 && 0 < w <= i < |values|
    ensures ZScore(sqrt, Affine(values, a, b)[i - w..i], Affine(values, a, b)[i])
         == ZScore(sqrt, values[i - w..i], values[i])
  {
    assert Affine(values, a, b)[i - w..i] == Affine(values[i - w..i], a, b);
    ZScoreAffine(sqrt, values[i - w..i], values[i], a, b);
  }

  lemma ScoresIgnoreScale(sqrt: real -> real, values: seq<real>, scaled: seq<real>, a: real, b: real, w: nat)
    requires IsSqrt(sqrt) && a != 0.0 && w > 0 && scaled == Affine(values, a, b)
    ensures Scores(sqrt, scaled, w) == Scores(sqrt, values, w)
  {
    forall i | w <= i < |values|
      ensures ZScore(sqrt, scaled[i - w..i], scaled[i]) == ZScore(sqrt, values[i - w..i], values[i])
    {
      ScoreIgnoresScale(sqrt, values, a, b, w, i);
    }
  }

  /** Changing the unit of measurement, v -> a * v + b with a != 0, changes neither which points are flagged nor
      their unrounded scores. */
  lemma FlagsIgnoreScale(sqrt: real -> real, values: seq<real>, a: real, b: real, threshold: real)
    requires IsSqrt(sqrt) && a != 0.0
    ensures Flags(sqrt, Affine(values, a, b), threshold) == Flags(sqrt, values, threshold)
  {
    ScoresIgnoreScale(sqrt, values, Affine(values, a, b), a, b, WindowSize(|values|));
  }
}
