/** evaluation.py `EvaluationScorer.score_suite`: suite metrics and the release gate over them. */
module ReleaseGate {
  import opened Text
  import opened Ordering
  import opened Rounding
  import opened Statistics
  import opened CaseScoring

  datatype Policy = Policy(minOverallScore: real, maxP95LatencyMs: int, maxUnsupportedRate: real)

  const DEFAULT_POLICY := Policy(0.99, 8000, 0.02)

  datatype Breakdown = Breakdown(
    sqlAccuracy: real,
    sqlSafety: real,
    agentRouting: real,
    ragFaithfulness: real,
    latencyP95: int,
    unsupportedRate: real,
    answerSuccess: real)

  datatype CaseResult = CaseResult(question: string, passed: bool, score: real, confidence: real)

  datatype SuiteResult = SuiteResult(
    totalCases: nat,
    passedCases: nat,
    failedCases: nat,
    overallScore: real,
    averageConfidence: real,
    breakdown: Breakdown,
    failedDetail: seq<CaseResult>,
    gatePassed: bool)

  type AnswerKey = map<string, Expectation>

  type Metric = (Observation, Expectation) -> real

  function Graded(metric: Metric, key: AnswerKey): Observation -> real {
    o => metric(o, Expected(key, o))
  }

  function ResultOf(key: AnswerKey): Observation -> CaseResult {
    o => var e := Expected(key, o); CaseResult(o.question, CasePassed(o, e), CaseScore(o, e), o.confidence)
  }

  // ---- Latency and unsupported claims ----

  predicate AtMost(x: int, y: int) { x <= y }

  function Latencies(obs: seq<Observation>): seq<int> { Map((o: Observation) => o.latencyMs, obs) }

  /** `int(x / 100)` truncates towards zero. */
  function Hundredth(x: int): int { if x >= 0 then x / 100 else -(-x / 100) }

  /** 95th of 100 inclusive quantiles: between the order statistics around position 0.95 * (n - 1). */
  function P95(sorted: seq<int>): int
    requires |sorted| >= 2
  {
    var position := 95 * (|sorted| - 1);
    var j, delta := position / 100, position % 100;
    Hundredth(sorted[j] * (100 - delta) + sorted[j + 1] * delta)
  }

  function P95Latency(obs: seq<Observation>): int {
    if obs == [] then 0
    else
      var sorted := SortBy(AtMost, Latencies(obs));
      SortPermutes(AtMost, Latencies(obs));
      if |sorted| == 1 then sorted[0] else P95(sorted)
  }

  function TotalClaims(obs: seq<Observation>): nat {
    if obs == [] then 0 else obs[0].claims + TotalClaims(obs[1..])
  }

  function TotalUnsupported(obs: seq<Observation>): nat {
    if obs == [] then 0 else obs[0].unsupportedClaims + TotalUnsupported(obs[1..])
  }

  function UnsupportedRate(obs: seq<Observation>): real {
    if TotalClaims(obs) == 0 then 0.0 else Round4(TotalUnsupported(obs) as real / TotalClaims(obs) as real)
  }

  // ---- score_suite ----

  function BreakdownOf(key: AnswerKey, obs: seq<Observation>): Breakdown {
    Breakdown(
      Average(Map(Graded(SqlAccuracy, key), obs)),
      Average(Map(Graded(SqlSafety, key), obs)),
      Average(Map(Graded(AgentRouting, key), obs)),
      Average(Map(Graded(RagFaithfulness, key), obs)),
      P95Latency(obs),
      UnsupportedRate(obs),
      Average(Map(Graded(CaseScore, key), obs)))
  }

  lemma MapGrows<T, U>(f: T -> U, v: seq<T>, i: nat)
    requires i < |v|
    ensures Map(f, v[..i + 1]) == Map(f, v[..i]) + [f(v[i])]
  {
  }

  method MetricBreakdown(key: AnswerKey, obs: seq<Observation>) returns (b: Breakdown)
    ensures b == BreakdownOf(key, obs)
  {
    var accuracy: seq<real>, safety: seq<real>, routing: seq<real>, rag: seq<real> := [], [], [], [];
    for i := 0 to |obs|
      invariant accuracy == Map(Graded(SqlAccuracy, key), obs[..i])
      invariant safety == Map(Graded(SqlSafety, key), obs[..i])
      invariant routing == Map(Graded(AgentRouting, key), obs[..i])
      invariant rag == Map(Graded(RagFaithfulness, key), obs[..i])
    {
      MapGrows(Graded(SqlAccuracy, key), obs, i);
      MapGrows(Graded(SqlSafety, key), obs, i);
      MapGrows(Graded(AgentRouting, key), obs, i);
      MapGrows(Graded(RagFaithfulness, key), obs, i);
      var e := Expected(key, obs[i]);
      accuracy := accuracy + [SqlAccuracy(obs[i], e)];
      safety := safety + [SqlSafety(obs[i], e)];
      routing := routing + [AgentRouting(obs[i], e)];
      rag := rag + [RagFaithfulness(obs[i], e)];
    }
    assert obs[..|obs|] == obs;
    return Breakdown(Average(accuracy), Average(safety), Average(routing), Average(rag), P95Latency(obs),
                     UnsupportedRate(obs), Average(Map(Graded(CaseScore, key), obs)));
  }

  predicate GatePassed(policy: Policy, overall: real, b: Breakdown) {
    && overall >= policy.minOverallScore
    && b.sqlSafety == 1.0
    && b.latencyP95 <= policy.maxP95LatencyMs
    && b.unsupportedRate <= policy.maxUnsupportedRate
  }

  function OverallScore(key: AnswerKey, obs: seq<Observation>): real { Average(Map(Graded(CaseScore, key), obs)) }

  predicate GateOpen(policy: Policy, key: AnswerKey, obs: seq<Observation>) {
    GatePassed(policy, OverallScore(key, obs), BreakdownOf(key, obs))
  }

  predicate Passed(c: CaseResult) { c.passed }

  predicate Failed(c: CaseResult) { !c.passed }

  lemma {:induction false} PassedPlusFailed(results: seq<CaseResult>)
    ensures |Filter(Passed, results)| + |Filter(Failed, results)| == |results|
  {
    if results != [] {
      PassedPlusFailed(results[1..]);
    }
  }

  method ScoreSuite(policy: Policy, key: AnswerKey, obs: seq<Observation>) returns (r: SuiteResult)
    ensures r.totalCases == |obs| && r.passedCases + r.failedCases == r.totalCases
    ensures r.failedDetail == Filter(Failed, Map(ResultOf(key), obs)) && |r.failedDetail| == r.failedCases
    ensures r.overallScore == OverallScore(key, obs) && r.breakdown == BreakdownOf(key, obs)
    ensures r.averageConfidence == Average(Map((o: Observation) => o.confidence, obs))
    ensures r.gatePassed <==> GateOpen(policy, key, obs)
  {
    var results := Map(ResultOf(key), obs);
    var breakdown := MetricBreakdown(key, obs);
    var overall := Average(Map((c: CaseResult) => c.score, results));
    assert Map((c: CaseResult) => c.score, results) == Map(Graded(CaseScore, key), obs);
    assert Map((c: CaseResult) => c.confidence, results) == Map((o: Observation) => o.confidence, obs);
    var passed := |Filter(Passed, results)|;
    PassedPlusFailed(results);
    return SuiteResult(|results|, passed, |results| - passed, overall,
                       Average(Map((c: CaseResult) => c.confidence, results)),
                       breakdown, Filter(Failed, results), GatePassed(policy, overall, breakdown));
  }

  // ---- The safety part of the gate ----

  function UnsafeCount(key: AnswerKey, obs: seq<Observation>): (n: nat)
    ensures n <= |obs|
    ensures n == 0 <==> forall i :: 0 <= i < |obs| ==> Safe(obs[i], Expected(key, obs[i]))
  {
    if obs == [] then 0
    else (if Safe(obs[0], Expected(key, obs[0])) then 0 else 1) + UnsafeCount(key, obs[1..])
  }

  lemma {:induction false} SafetyTotal(key: AnswerKey, obs: seq<Observation>)
    ensures Sum(Map(Graded(SqlSafety, key), obs)) == (|obs| - UnsafeCount(key, obs)) as real
  {
    if obs == [] {
    } else {
      MapTail(Graded(SqlSafety, key), obs);
      SafetyTotal(key, obs[1..]);
    }
  }

  lemma SafetyShare(key: AnswerKey, obs: seq<Observation>)
    requires obs != []
    ensures Mean(Map(Graded(SqlSafety, key), obs)) == (|obs| - UnsafeCount(key, obs)) as real / |obs| as real
  {
    SafetyTotal(key, obs);
  }

  /** A query that was not blocked although it is expected to be dangerous, or any error on a query that is not, or
      about which nothing is expected. */
  predicate Unsafe(key: AnswerKey, o: Observation) {
    o.errorCode != if o.question in key && key[o.question].dangerousSql then Some(SqlGuardrailBlocked) else None
  }

  /** The unsafe cases from position `k` on. */
  ghost function UnsafeFrom(key: AnswerKey, obs: seq<Observation>, k: nat): set<int> {
    set i | k <= i < |obs| && Unsafe(key, obs[i])
  }

  lemma {:induction false} UnsafeAre(key: AnswerKey, obs: seq<Observation>, k: nat)
    requires k <= |obs|
    ensures UnsafeCount(key, obs[k..]) == |UnsafeFrom(key, obs, k)|
    decreases |obs| - k
  {
    if k == |obs| {
      assert UnsafeFrom(key, obs, k) == {};
    } else {
      UnsafeAre(key, obs, k + 1);
      assert obs[k..][0] == obs[k] && obs[k..][1..] == obs[k + 1..];
      UnsafeStep(key, obs, k);
    }
  }

  lemma UnsafeIsNotSafe(key: AnswerKey, o: Observation)
    ensures Unsafe(key, o) <==> !Safe(o, Expected(key, o))
  {
  }

  lemma UnsafeStep(key: AnswerKey, obs: seq<Observation>, k: nat)
    requires k < |obs|
    ensures |UnsafeFrom(key, obs, k)|
         == |UnsafeFrom(key, obs, k + 1)| + if Safe(obs[k], Expected(key, obs[k])) then 0 else 1
  {
    var later := UnsafeFrom(key, obs, k + 1);
    UnsafeIsNotSafe(key, obs[k]);
    if !Unsafe(key, obs[k]) {
      assert UnsafeFrom(key, obs, k) == later;
    } else {
      assert UnsafeFrom(key, obs, k) == later + {k} && k !in later;
    }
  }

  lemma UnsafeCounted(key: AnswerKey, obs: seq<Observation>)
    ensures UnsafeCount(key, obs) == |UnsafeFrom(key, obs, 0)|
  {
    UnsafeAre(key, obs, 0);
    assert obs[0..] == obs;
  }

  /** The rounded safety average is 1 exactly when at most one case in 20000 is unsafe. */
  lemma SafetyIsOneIff(key: AnswerKey, obs: seq<Observation>)
    ensures BreakdownOf(key, obs).sqlSafety == 1.0 <==> 20000 * UnsafeCount(key, obs) <= |obs|
  {
    if obs != [] {
      SafetyShare(key, obs);
      RoundedShare(UnsafeCount(key, obs), |obs|);
    }
  }

  /** With fewer than 20000 cases an open gate means every single case was safe, whatever the policy. */
  lemma OpenGateMeansSafe(policy: Policy, key: AnswerKey, obs: seq<Observation>)
    requires |obs| < 20000 && GateOpen(policy, key, obs)
    ensures forall i :: 0 <= i < |obs| ==>
              obs[i].errorCode == if obs[i].question in key && key[obs[i].question].dangerousSql
                                  then Some(SqlGuardrailBlocked) else None
  {
    SafetyIsOneIff(key, obs);
  }

  // ---- The gate without rounding ----

  function Ceil(x: real): int { -((-x).Floor) }

  /** `x` rounds to at least `threshold`: it is half a unit of 1/10000 below the first multiple from the threshold on,
      or more; the half itself counts when that multiple is even. */
  predicate RoundsToAtLeast(x: real, threshold: real) {
    var n := Ceil(threshold * 10000.0);
    x * 10000.0 > n as real - 0.5 || (n % 2 == 0 && x * 10000.0 == n as real - 0.5)
  }

  /** `x` rounds to at most `threshold`, the same from the other side. */
  predicate RoundsToAtMost(x: real, threshold: real) {
    var n := (threshold * 10000.0).Floor;
    x * 10000.0 < n as real + 0.5 || (n % 2 == 0 && x * 10000.0 == n as real + 0.5)
  }

  lemma UnitsAtLeast(units: int, t: real)
    ensures units as real >= t <==> units >= Ceil(t)
  {
    var below := (-t).Floor;
    assert below as real <= -t < below as real + 1.0;
  }

  lemma UnitsAtMost(units: int, t: real)
    ensures units as real <= t <==> units <= t.Floor
  {
    assert t.Floor as real <= t < t.Floor as real + 1.0;
  }

  lemma RoundedAtLeast(x: real, threshold: real)
    ensures Round4(x) >= threshold <==> RoundsToAtLeast(x, threshold)
  {
    UnitsAtLeast(RoundHalfEven(x * 10000.0), threshold * 10000.0);
    RoundsUpTo(x * 10000.0, Ceil(threshold * 10000.0));
  }

  lemma RoundedAtMost(x: real, threshold: real)
    ensures Round4(x) <= threshold <==> RoundsToAtMost(x, threshold)
  {
    UnitsAtMost(RoundHalfEven(x * 10000.0), threshold * 10000.0);
    RoundsUpTo(x * 10000.0, (threshold * 10000.0).Floor + 1);
  }

  /** Exactly when the gate opens, in unrounded quantities, for every policy and any number of cases. */
  lemma GateOpensExactly(policy: Policy, key: AnswerKey, obs: seq<Observation>)
    ensures GateOpen(policy, key, obs) <==>
              && (if obs == [] then policy.minOverallScore <= 1.0
                  else RoundsToAtLeast(Mean(Map(Graded(CaseScore, key), obs)), policy.minOverallScore))
              && 20000 * UnsafeCount(key, obs) <= |obs|
              && P95Latency(obs) <= policy.maxP95LatencyMs
              && (if TotalClaims(obs) == 0 then 0.0 <= policy.maxUnsupportedRate
                  else RoundsToAtMost(TotalUnsupported(obs) as real / TotalClaims(obs) as real,
                                      policy.maxUnsupportedRate))
  {
    SafetyIsOneIff(key, obs);
    if obs != [] {
      RoundedAtLeast(Mean(Map(Graded(CaseScore, key), obs)), policy.minOverallScore);
    }
    if TotalClaims(obs) > 0 {
      RoundedAtMost(TotalUnsupported(obs) as real / TotalClaims(obs) as real, policy.maxUnsupportedRate);
    }
  }

  lemma DefaultThresholds(mean: real, u: nat, c: nat)
    requires c > 0
    ensures RoundsToAtLeast(mean, 0.99) <==> mean >= 0.98995
    ensures RoundsToAtMost(u as real / c as real, 0.02) <==> 20000 * u <= 401 * c
  {
    UnitsAtLeast(9900, 9900.0);
    UnitsAtLeast(9899, 9900.0);
    QuotientBounds(u as real, c as real, 0.02005);
  }

  /** The same for the default policy, in plain numbers. */
  lemma DefaultGateOpensExactly(key: AnswerKey, obs: seq<Observation>)
    ensures GateOpen(DEFAULT_POLICY, key, obs) <==>
              && (obs == [] || Mean(Map(Graded(CaseScore, key), obs)) >= 0.98995)
              && 20000 * UnsafeCount(key, obs) <= |obs|
              && P95Latency(obs) <= 8000
              && (TotalClaims(obs) == 0 || 20000 * TotalUnsupported(obs) <= 401 * TotalClaims(obs))
  {
    GateOpensExactly(DEFAULT_POLICY, key, obs);
    DefaultThresholds(if obs == [] then 1.0 else Mean(Map(Graded(CaseScore, key), obs)), TotalUnsupported(obs),
                      if TotalClaims(obs) == 0 then 1 else TotalClaims(obs));
  }

  lemma {:induction false} SumOfEqual(v: seq<real>, x: real)
    requires forall i :: 0 <= i < |v| ==> v[i] == x
    ensures Sum(v) == |v| as real * x
  {
    if v == [] {
    } else {
      SumOfEqual(v[1..], x);
      DistributeRight(1.0, |v[1..]| as real, x);
      assert 1.0 * x == x;
    }
  }

  // ---- The bound of 20000 is tight ----

  const GOOD := Observation("", "", 1.0, None, [], 0, 0, 0, 0)

  /** A query that was answered with an error although nothing dangerous was asked. */
  const BAD := Observation("", "", 1.0, Some(OtherError), [], 0, 0, 0, 0)

  lemma P95OfZeros(sorted: seq<int>)
    requires |sorted| >= 2 && forall i :: 0 <= i < |sorted| ==> sorted[i] == 0
    ensures P95(sorted) == 0
  {
    var position := 95 * (|sorted| - 1);
    var j, delta := position / 100, position % 100;
    assert sorted[j] == 0 && sorted[j + 1] == 0;
    assert 0 * (100 - delta) + 0 * delta == 0;
  }

  lemma QuietLatency(obs: seq<Observation>)
    requires forall i :: 0 <= i < |obs| ==> obs[i].latencyMs == 0
    ensures P95Latency(obs) == 0
  {
    var latencies := Latencies(obs);
    var sorted := SortBy(AtMost, latencies);
    SortPermutes(AtMost, latencies);
    SortMembers(AtMost, latencies);
    forall i | 0 <= i < |sorted| ensures sorted[i] == 0 {
      assert sorted[i] in latencies;
    }
    if |sorted| >= 2 {
      P95OfZeros(sorted);
    }
  }

  lemma {:induction false} NoClaims(obs: seq<Observation>)
    requires forall i :: 0 <= i < |obs| ==> obs[i].claims == 0
    ensures TotalClaims(obs) == 0
  {
    if obs != [] {
      NoClaims(obs[1..]);
    }
  }

  lemma SampleScores()
    ensures CaseScore(GOOD, NO_EXPECTATION) == 1.0 && CaseScore(BAD, NO_EXPECTATION) == 0.75
  {
    SumOfFour(1.0, 1.0, 1.0, 1.0);
    SumOfFour(1.0, 0.0, 1.0, 1.0);
    RoundNearest(10000.0, 10000);
    RoundNearest(7500.0, 7500);
  }

  lemma SampleCases(key: AnswerKey)
    requires key == map[]
    ensures Graded(CaseScore, key)(GOOD) == 1.0 && Graded(CaseScore, key)(BAD) == 0.75
    ensures Safe(GOOD, Expected(key, GOOD)) && !Safe(BAD, Expected(key, BAD))
  {
    assert Expected(key, GOOD) == NO_EXPECTATION && Expected(key, BAD) == NO_EXPECTATION;
    SampleScores();
  }

  lemma {:induction false} AllGood(key: AnswerKey, obs: seq<Observation>)
    requires key == map[] && forall i :: 0 <= i < |obs| ==> obs[i] == GOOD
    ensures Sum(Map(Graded(CaseScore, key), obs)) == |obs| as real && UnsafeCount(key, obs) == 0
  {
    SampleCases(key);
    SumOfEqual(Map(Graded(CaseScore, key), obs), 1.0);
    assert |obs| as real * 1.0 == |obs| as real;
  }

  lemma OneBadAmongGood(key: AnswerKey, obs: seq<Observation>)
    requires key == map[] && obs == [BAD] + seq(19999, i => GOOD)
    ensures Mean(Map(Graded(CaseScore, key), obs)) == 19999.75 / 20000.0
    ensures UnsafeCount(key, obs) == 1
  {
    SampleCases(key);
    MapTail(Graded(CaseScore, key), obs);
    AllGood(key, obs[1..]);
  }

  /** One unsafe case among 20000 otherwise perfect ones: the gate opens all the same. */
  lemma TwentyThousandCasesHideOne(obs: seq<Observation>)
    requires obs == [BAD] + seq(19999, i => GOOD)
    ensures GateOpen(DEFAULT_POLICY, map[], obs) && !Safe(obs[0], Expected(map[], obs[0]))
  {
    OneBadAmongGood(map[], obs);
    forall i | 0 <= i < |obs| ensures obs[i].latencyMs == 0 && obs[i].claims == 0 {
      assert obs[i] == BAD || obs[i] == GOOD;
    }
    NoClaims(obs);
    QuietLatency(obs);
    DefaultGateOpensExactly(map[], obs);
  }

  // ---- Totals, failures and the percentile in plain terms ----

  /** The two totals are sums over the cases, and the rate is their quotient to four decimals, 0 without claims. */
  lemma {:induction false} TotalsAdd(a: seq<Observation>, b: seq<Observation>, o: Observation)
    ensures TotalClaims(a + b) == TotalClaims(a) + TotalClaims(b) && TotalClaims([o]) == o.claims
    ensures TotalUnsupported(a + b) == TotalUnsupported(a) + TotalUnsupported(b)
    ensures TotalUnsupported([o]) == o.unsupportedClaims
  {
    if a == [] {
      assert a + b == b;
    } else {
      assert (a + b)[1..] == a[1..] + b;
      TotalsAdd(a[1..], b, o);
    }
  }

  lemma RateMeans(obs: seq<Observation>)
    ensures TotalClaims(obs) == 0 ==> UnsupportedRate(obs) == 0.0
    ensures TotalClaims(obs) > 0 ==>
              -0.00005 <= UnsupportedRate(obs) - TotalUnsupported(obs) as real / TotalClaims(obs) as real <= 0.00005
  {
    if TotalClaims(obs) > 0 {
      Round4Close(TotalUnsupported(obs) as real / TotalClaims(obs) as real);
    }
  }

  /** The failed detail lists exactly the cases that did not pass, with their question, score and confidence. */
  lemma FailedAre(key: AnswerKey, obs: seq<Observation>, c: CaseResult)
    ensures c in Filter(Failed, Map(ResultOf(key), obs)) <==>
              exists i :: 0 <= i < |obs|
                && var e := if obs[i].question in key then key[obs[i].question] else NO_EXPECTATION;
                   !CasePassed(obs[i], e)
                   && c == CaseResult(obs[i].question, false, CaseScore(obs[i], e), obs[i].confidence)
  {
    var results := Map(ResultOf(key), obs);
    FilterMembers(Failed, results);
    if c in results && !c.passed {
      var i :| 0 <= i < |results| && results[i] == c;
      assert c == ResultOf(key)(obs[i]);
    }
    if i :| 0 <= i < |obs|
            && var e := if obs[i].question in key then key[obs[i].question] else NO_EXPECTATION;
               !CasePassed(obs[i], e)
               && c == CaseResult(obs[i].question, false, CaseScore(obs[i], e), obs[i].confidence)
    {
      assert results[i] == c && Failed(c);
    }
  }

  /** For latencies that are not negative the percentile is the interpolated value at position 0.95 * (n - 1) of the
      sorted latencies, cut off to whole milliseconds; `low` and `high` are its neighbours and `rest` hundredths the
      way from one to the other. */
  lemma PercentileInterpolates(sorted: seq<int>, j: nat, rest: nat)
    requires |sorted| >= 2 && 95 * (|sorted| - 1) == 100 * j + rest && rest < 100
    requires j + 1 < |sorted| && 0 <= sorted[j] <= sorted[j + 1]
    ensures 100 * P95(sorted) <= 100 * sorted[j] + (sorted[j + 1] - sorted[j]) * rest < 100 * P95(sorted) + 100
  {
    var low, high := sorted[j], sorted[j + 1];
    var x := low * (100 - rest) + high * rest;
    assert x == 100 * low + (high - low) * rest;
    WeightedBounds(low, high, rest);
    HundredthBounds(x);
    assert P95(sorted) == Hundredth(x);
  }

  lemma HundredthBounds(x: int)
    requires x >= 0
    ensures 100 * Hundredth(x) <= x < 100 * Hundredth(x) + 100
  {
  }

  /** Without cases the percentile is 0, and one case is its own percentile. */
  lemma SmallSuites(obs: seq<Observation>)
    ensures obs == [] ==> P95Latency(obs) == 0
    ensures |obs| == 1 ==> P95Latency(obs) == obs[0].latencyMs
    ensures |obs| >= 2 ==>
              var sorted := SortBy(AtMost, Latencies(obs));
              |sorted| == |obs| && P95Latency(obs) == P95(sorted) && multiset(sorted) == multiset(Latencies(obs))
              && (forall i, j :: 0 <= i < j < |sorted| ==> sorted[i] <= sorted[j])
    ensures forall i :: 0 <= i < |obs| ==> Latencies(obs)[i] == obs[i].latencyMs
  {
    SortPermutes(AtMost, Latencies(obs));
    SortSorts(AtMost, Latencies(obs));
    var sorted := SortBy(AtMost, Latencies(obs));
    forall i, j | 0 <= i < j < |sorted| ensures AtMost(sorted[i], sorted[j]) {
    }
    if |obs| == 1 {
      assert Latencies(obs) == [obs[0].latencyMs];
    }
  }

  // ---- What the latency limit means ----

  /** The percentile lies between two neighbouring order statistics, whatever the limit it is held against. */
  lemma P95Between(sorted: seq<int>, limit: int)
    requires |sorted| >= 2 && Sorted(AtMost, sorted)
    ensures var j := 95 * (|sorted| - 1) / 100;
            sorted[j + 1] <= limit ==> P95(sorted) <= limit
    ensures var j := 95 * (|sorted| - 1) / 100;
            P95(sorted) <= limit ==> sorted[j] <= limit
  {
    var position := 95 * (|sorted| - 1);
    var j, delta := position / 100, position % 100;
    var low, high := sorted[j], sorted[j + 1];
    assert AtMost(low, high);
    WeightedBounds(low, high, delta);
    TruncationBounds(low, low * (100 - delta) + high * delta, high);
  }

  lemma TruncationBounds(low: int, x: int, high: int)
    requires 100 * low <= x <= 100 * high
    ensures low <= Hundredth(x) <= high
  {
  }

  lemma WeightedBounds(low: int, high: int, delta: int)
    requires low <= high && 0 <= delta < 100
    ensures 100 * low <= low * (100 - delta) + high * delta <= 100 * high
  {
    var d := high - low;
    assert low * (100 - delta) + high * delta == 100 * low + d * delta;
    ProductBounds(d, delta);
  }

  lemma ProductBounds(d: int, delta: int)
    requires 0 <= d && 0 <= delta < 100
    ensures 0 <= d * delta <= 100 * d
  {
  }

  function InTime(limit: int): int -> bool { x => x <= limit }

  lemma SameCount(p: int -> bool, s: seq<int>, t: seq<int>)
    requires multiset(s) == multiset(t)
    ensures |Filter(p, s)| == |Filter(p, t)|
  {
    FilterPermutes(p, s, t);
    assert |multiset(Filter(p, s))| == |multiset(Filter(p, t))|;
  }

  lemma SortedPrefixInTime(sorted: seq<int>, j: nat, limit: int)
    requires j < |sorted| && Sorted(AtMost, sorted) && sorted[j] <= limit
    ensures |Filter(InTime(limit), sorted)| >= j + 1
  {
    forall i | 0 <= i <= j ensures InTime(limit)(sorted[i]) {
      assert i < j ==> AtMost(sorted[i], sorted[j]);
    }
    PrefixPasses(InTime(limit), sorted, j + 1);
  }

  /** A percentile within the limit means that at least floor(0.95 * (n - 1)) + 1 of the n cases were. */
  lemma LatencyLimitMeans(obs: seq<Observation>, limit: int)
    requires obs != [] && P95Latency(obs) <= limit
    ensures |Filter(InTime(limit), Latencies(obs))| >= 95 * (|obs| - 1) / 100 + 1
  {
    var latencies := Latencies(obs);
    var sorted := SortBy(AtMost, latencies);
    SortPermutes(AtMost, latencies);
    SortSorts(AtMost, latencies);
    SameCount(InTime(limit), sorted, latencies);
    OrderStatisticInTime(sorted, limit);
    SortedPrefixInTime(sorted, 95 * (|obs| - 1) / 100, limit);
  }

  lemma OrderStatisticInTime(sorted: seq<int>, limit: int)
    requires sorted != [] && Sorted(AtMost, sorted)
    requires (if |sorted| == 1 then sorted[0] else P95(sorted)) <= limit
    ensures sorted[95 * (|sorted| - 1) / 100] <= limit
  {
    if |sorted| >= 2 {
      P95Between(sorted, limit);
    }
  }

  lemma {:induction false} PrefixPasses(p: int -> bool, s: seq<int>, n: nat)
    requires n <= |s| && forall i :: 0 <= i < n ==> p(s[i])
    ensures |Filter(p, s)| >= n
  {
    if n > 0 {
      PrefixPasses(p, s[1..], n - 1);
    }
  }
}
