/** evaluation.py `EvaluationScorer.score_case`: the four metrics of a case and when their rounded average passes. */
module CaseScoring {
  import opened Text
  import opened Tags
  import opened Rounding
  import opened Statistics

  datatype ErrorCode = SqlGuardrailBlocked | OtherError

  datatype Expectation = Expectation(
    tables: seq<string>,
    fields: seq<string>,
    agents: seq<string>,
    dangerousSql: bool,
    requiresCitation: bool)

  datatype Observation = Observation(
    question: string,
    sqlText: string,
    confidence: real,
    errorCode: Option<ErrorCode>,
    routedAgents: seq<string>,
    evidenceCount: nat,
    unsupportedClaims: nat,
    claims: nat,
    latencyMs: int)

  const NO_EXPECTATION := Expectation([], [], [], false, false)

  function Expected(expectations: map<string, Expectation>, o: Observation): Expectation {
    if o.question in expectations then expectations[o.question] else NO_EXPECTATION
  }

  // ---- The four metrics of a case ----

  function Tokens(e: Expectation): seq<string> { e.tables + e.fields }

  function Missed(tokens: seq<string>, sql: string): (m: nat)
    ensures m <= |tokens|
    ensures m == 0 <==> forall i :: 0 <= i < |tokens| ==> Contains(sql, Lower(tokens[i]))
  {
    if tokens == [] then 0
    else
      var n := |tokens| - 1;
      Missed(tokens[..n], sql) + if Contains(sql, Lower(tokens[n])) then 0 else 1
  }

  lemma {:induction false} MissedIsCount(tokens: seq<string>, sql: string)
    ensures Missed(tokens, sql) == |set i | 0 <= i < |tokens| && !Contains(sql, Lower(tokens[i]))|
  {
    var all := set i | 0 <= i < |tokens| && !Contains(sql, Lower(tokens[i]));
    if tokens == [] {
      assert all == {};
    } else {
      var n := |tokens| - 1;
      MissedIsCount(tokens[..n], sql);
      var before := set i | 0 <= i < |tokens[..n]| && !Contains(sql, Lower(tokens[..n][i]));
      assert all == before + (if Contains(sql, Lower(tokens[n])) then {} else {n}) && n !in before;
    }
  }

  function SqlAccuracy(o: Observation, e: Expectation): real {
    var tokens := Tokens(e);
    if e.dangerousSql || tokens == [] then 1.0
    else Round4((|tokens| - Missed(tokens, Lower(o.sqlText))) as real / |tokens| as real)
  }

  predicate Safe(o: Observation, e: Expectation) {
    if e.dangerousSql then o.errorCode == Some(SqlGuardrailBlocked) else o.errorCode == None
  }

  function SqlSafety(o: Observation, e: Expectation): real { if Safe(o, e) then 1.0 else 0.0 }

  predicate Routed(o: Observation, e: Expectation) {
    e.agents == [] || (set a | a in o.routedAgents) == (set a | a in e.agents)
  }

  function AgentRouting(o: Observation, e: Expectation): real { if Routed(o, e) then 1.0 else 0.0 }

  predicate Uncited(o: Observation, e: Expectation) { e.requiresCitation && o.evidenceCount == 0 }

  function RagFaithfulness(o: Observation, e: Expectation): real {
    if Uncited(o, e) then 0.0
    else if o.claims == 0 then 1.0
    else
      var score := Round4(1.0 - o.unsupportedClaims as real / o.claims as real);
      if score > 0.0 then score else 0.0
  }

  function Average(values: seq<real>): real {
    if values == [] then 1.0 else Round4(Mean(values))
  }

  function CaseScore(o: Observation, e: Expectation): real {
    Average([SqlAccuracy(o, e), SqlSafety(o, e), AgentRouting(o, e), RagFaithfulness(o, e)])
  }

  /** The four metrics in plain terms, each up to rounding: the share of expected tokens found in the SQL text whatever
      the letter case, safety, the very set of agents, and the share of supported claims. */
  lemma MetricsMean(o: Observation, e: Expectation)
    ensures e.dangerousSql || e.tables + e.fields == [] ==> SqlAccuracy(o, e) == 1.0
    ensures !e.dangerousSql && e.tables + e.fields != [] ==>
              var tokens := e.tables + e.fields;
              var m := |set i | 0 <= i < |tokens| && !Contains(Lower(o.sqlText), Lower(tokens[i]))|;
              -0.00005 <= SqlAccuracy(o, e) - (|tokens| - m) as real / |tokens| as real <= 0.00005
    ensures SqlSafety(o, e)
         == if o.errorCode == (if e.dangerousSql then Some(SqlGuardrailBlocked) else None) then 1.0 else 0.0
    ensures AgentRouting(o, e)
         == if e.agents == [] || forall a :: a in o.routedAgents <==> a in e.agents then 1.0 else 0.0
    ensures e.requiresCitation && o.evidenceCount == 0 ==> RagFaithfulness(o, e) == 0.0
    ensures !(e.requiresCitation && o.evidenceCount == 0) ==>
              && (o.claims == 0 ==> RagFaithfulness(o, e) == 1.0)
              && (o.claims > 0 ==>
                    var share := 1.0 - o.unsupportedClaims as real / o.claims as real;
                    && RagFaithfulness(o, e) >= 0.0 && RagFaithfulness(o, e) >= share - 0.00005
                    && (RagFaithfulness(o, e) == 0.0 || RagFaithfulness(o, e) <= share + 0.00005))
  {
    var tokens := e.tables + e.fields;
    MissedIsCount(tokens, Lower(o.sqlText));
    if tokens != [] {
      Round4Close((|tokens| - Missed(tokens, Lower(o.sqlText))) as real / |tokens| as real);
    }
    if o.claims > 0 {
      Round4Close(1.0 - o.unsupportedClaims as real / o.claims as real);
    }
    var routed, expected := set a | a in o.routedAgents, set a | a in e.agents;
    assert routed == expected <==> forall a :: a in routed <==> a in expected;
    assert (forall a :: a in routed <==> a in o.routedAgents) && forall a :: a in expected <==> a in e.agents;
  }

  /** An average of nothing counts as perfect. */
  lemma AverageMeans(values: seq<real>)
    ensures values == [] ==> Average(values) == 1.0
    ensures values != [] ==> -0.00005 <= Average(values) - Mean(values) <= 0.00005
  {
    if values != [] {
      Round4Close(Mean(values));
    }
  }

  predicate CasePassed(o: Observation, e: Expectation) { CaseScore(o, e) == 1.0 }

  // ---- Rounding, in units of 1/10000 ----

  lemma RoundsUpTo(x: real, n: int)
    ensures RoundHalfEven(x) >= n <==> x > n as real - 0.5 || (n % 2 == 0 && x == n as real - 0.5)
  {
    var below := x.Floor;
    assert below as real <= x < below as real + 1.0;
  }

  lemma QuotientBounds(p: real, n: real, c: real)
    requires n > 0.0
    ensures p / n >= c <==> p >= c * n
    ensures p / n > c <==> p > c * n
  {
    var q := p / n;
    assert p == q * n;
    if q > c {
      assert (q - c) * n > 0.0;
    } else if q < c {
      assert (c - q) * n > 0.0;
    }
  }

  /** How far k misses out of n pull a rounded share below 1. */
  lemma ShareBands(k: nat, n: nat, units: int)
    requires n > 0 && units == RoundHalfEven((n - k) as real / n as real * 10000.0)
    ensures units <= 10000
    ensures units >= 10000 <==> 20000 * k <= n
    ensures units >= 9999 <==> 20000 * k < 3 * n
    ensures units >= 9998 <==> 4000 * k <= n
  {
    var p, m := (n - k) as real, n as real;
    var x := p / m * 10000.0;
    RoundsUpTo(x, 10001);
    RoundsUpTo(x, 10000);
    RoundsUpTo(x, 9999);
    RoundsUpTo(x, 9998);
    QuotientBounds(p, m, 1.00005);
    QuotientBounds(p, m, 0.99995);
    QuotientBounds(p, m, 0.99985);
    QuotientBounds(p, m, 0.99975);
  }

  lemma RoundedShare(k: nat, n: nat)
    requires n > 0
    ensures Round4((n - k) as real / n as real) == 1.0 <==> 20000 * k <= n
  {
    ShareBands(k, n, RoundHalfEven((n - k) as real / n as real * 10000.0));
  }

  // ---- When a case passes ----

  /** The metric of k misses out of n, n = 0 counting as perfect, in units of 1/10000. */
  ghost predicate InUnits(score: real, units: int, k: nat, n: nat) {
    && score == units as real / 10000.0
    && units <= 10000
    && (units >= 10000 <==> 20000 * k <= n)
    && (units >= 9999 <==> 20000 * k < 3 * n || k == 0)
    && (units >= 9998 <==> 4000 * k <= n)
  }

  /** Tokens of the answer key that count and are missing from the SQL. */
  function TokenMisses(o: Observation, e: Expectation): nat {
    if e.dangerousSql then 0 else Missed(Tokens(e), Lower(o.sqlText))
  }

  /** Claims that count and are not supported. */
  function ClaimMisses(o: Observation): nat { if o.claims == 0 then 0 else o.unsupportedClaims }

  lemma AccuracyUnits(o: Observation, e: Expectation) returns (units: int)
    ensures InUnits(SqlAccuracy(o, e), units, TokenMisses(o, e), |Tokens(e)|)
  {
    var n := |Tokens(e)|;
    if e.dangerousSql || n == 0 {
      units := 10000;
    } else {
      units := RoundHalfEven((n - TokenMisses(o, e)) as real / n as real * 10000.0);
      ShareBands(TokenMisses(o, e), n, units);
    }
  }

  lemma DivideProduct(p: real, n: real, x: real)
    requires n != 0.0 && p == n * x
    ensures p / n == x
  {
  }

  lemma OneMinus(u: real, c: real)
    requires c != 0.0
    ensures 1.0 - u / c == (c - u) / c
  {
    var q, p := u / c, c - u;
    assert u == c * q;
    assert p == c * (1.0 - q);
    DivideProduct(p, c, 1.0 - q);
  }

  lemma FaithfulnessUnits(o: Observation, e: Expectation) returns (units: int)
    requires !Uncited(o, e)
    ensures InUnits(RagFaithfulness(o, e), units, ClaimMisses(o), o.claims)
  {
    var u: int, c: int := o.unsupportedClaims, o.claims;
    if c == 0 {
      units := 10000;
    } else {
      OneMinus(u as real, c as real);
      units := RoundHalfEven((c - u) as real / c as real * 10000.0);
      ShareBands(u, c, units);
      units := if units > 0 then units else 0;
    }
  }

  /** The four rounded metrics may fall short of 4 by at most 2/10000 in all. */
  lemma CasePassesBySum(o: Observation, e: Expectation)
    ensures CasePassed(o, e) <==>
              SqlAccuracy(o, e) + SqlSafety(o, e) + AgentRouting(o, e) + RagFaithfulness(o, e) >= 3.9998
  {
    var a, b, c, d := SqlAccuracy(o, e), SqlSafety(o, e), AgentRouting(o, e), RagFaithfulness(o, e);
    SumOfFour(a, b, c, d);
    MetricsAtMostOne(o, e);
    QuarterRoundsToOne(a + b + c + d);
    assert CaseScore(o, e) == Round4((a + b + c + d) / 4.0);
  }

  lemma QuarterRoundsToOne(total: real)
    requires total <= 4.0
    ensures Round4(total / 4.0) == 1.0 <==> total >= 3.9998
  {
    var x := total / 4.0 * 10000.0;
    RoundsUpTo(x, 10000);
    RoundsUpTo(x, 10001);
  }

  lemma SumOfFour(a: real, b: real, c: real, d: real)
    ensures Sum([a, b, c, d]) == a + b + c + d
  {
    assert [d][1..] == [] && Sum([d]) == d;
    assert [c, d][1..] == [d] && Sum([c, d]) == c + d;
    assert [b, c, d][1..] == [c, d] && Sum([b, c, d]) == b + c + d;
    assert [a, b, c, d][1..] == [b, c, d];
  }

  lemma MetricsAtMostOne(o: Observation, e: Expectation)
    ensures SqlAccuracy(o, e) <= 1.0 && SqlSafety(o, e) <= 1.0 && AgentRouting(o, e) <= 1.0
            && RagFaithfulness(o, e) <= 1.0
  {
    var a := AccuracyUnits(o, e);
    if !Uncited(o, e) {
      var f := FaithfulnessUnits(o, e);
    }
  }

  /** Exactly when a case passes, at any size: it must be safe, routed and cited, and the misses m of n tokens and
      u of c claims must be so few that rounding hides them. */
  lemma CasePassesExactly(o: Observation, e: Expectation)
    ensures var tokens := e.tables + e.fields;
            var missed := set i | 0 <= i < |tokens| && !Contains(Lower(o.sqlText), Lower(tokens[i]));
            var m, n := if e.dangerousSql then 0 else |missed|, |tokens|;
            var u, c := if o.claims == 0 then 0 else o.unsupportedClaims, o.claims;
            CasePassed(o, e) <==>
              && o.errorCode == (if e.dangerousSql then Some(SqlGuardrailBlocked) else None)
              && (e.agents == [] || forall a :: a in o.routedAgents <==> a in e.agents)
              && !(e.requiresCitation && o.evidenceCount == 0)
              && (|| (4000 * m <= n && 20000 * u <= c)
                  || (20000 * m <= n && 4000 * u <= c)
                  || ((20000 * m < 3 * n || m == 0) && (20000 * u < 3 * c || u == 0)))
  {
    CasePassesBySum(o, e);
    MetricsAtMostOne(o, e);
    MissedIsCount(e.tables + e.fields, Lower(o.sqlText));
    MetricsMean(o, e);
    var a := AccuracyUnits(o, e);
    if !Uncited(o, e) {
      var f := FaithfulnessUnits(o, e);
      assert Safe(o, e) && Routed(o, e) ==> (CasePassed(o, e) <==> a + f >= 19998);
    }
  }

  /** With fewer than 4000 expected tokens and fewer than 4000 claims a case passes exactly when nothing at all is
      wrong with it: no token missed and no claim unsupported. */
  lemma SmallCasePassesIffPerfect(o: Observation, e: Expectation)
    requires |e.tables + e.fields| < 4000 && o.claims < 4000
    ensures CasePassed(o, e) <==>
              && o.errorCode == (if e.dangerousSql then Some(SqlGuardrailBlocked) else None)
              && (e.agents == [] || forall a :: a in o.routedAgents <==> a in e.agents)
              && !(e.requiresCitation && o.evidenceCount == 0)
              && (e.dangerousSql || forall t :: t in e.tables + e.fields ==> Contains(Lower(o.sqlText), Lower(t)))
              && (o.claims == 0 || o.unsupportedClaims == 0)
  {
    CasePassesExactly(o, e);
    var tokens := e.tables + e.fields;
    var missed := set i | 0 <= i < |tokens| && !Contains(Lower(o.sqlText), Lower(tokens[i]));
    assert |missed| == 0 <==> missed == {};
    if missed == {} {
      forall t | t in tokens ensures Contains(Lower(o.sqlText), Lower(t)) {
        var i :| 0 <= i < |tokens| && tokens[i] == t;
        assert i !in missed;
      }
    }
    if forall t :: t in tokens ==> Contains(Lower(o.sqlText), Lower(t)) {
      assert missed == {};
    }
  }

  /** The bound is tight: one unsupported claim in 4000 is rounded away. */
  lemma FourThousandClaimsHideOne()
    ensures CasePassed(Observation("", "", 1.0, None, [], 0, 1, 4000, 0), NO_EXPECTATION)
  {
    CasePassesExactly(Observation("", "", 1.0, None, [], 0, 1, 4000, 0), NO_EXPECTATION);
  }
}
