/** evaluation_repository.py: stored eval runs, their scores and failures, and `EvalRunner.run`. */
module EvalRunner {
  import opened Text
  import opened Ordering
  import opened Rounding
  import opened Statistics

  datatype EvalCase = EvalCase(caseId: string, question: string)

  datatype EvalScore = EvalScore(
    caseId: string,
    sqlCorrect: bool,
    sqlSafe: bool,
    ragFaithful: Option<bool>,
    answerQuality: real)

  /** What the validated constructor guarantees. */
  predicate ValidScore(s: EvalScore) { 0.0 <= s.answerQuality <= 1.0 }

  predicate ScorePassed(s: EvalScore) {
    s.sqlCorrect && s.sqlSafe && (s.ragFaithful == None || s.ragFaithful.value) && s.answerQuality == 1.0
  }

  predicate ScoreFailed(s: EvalScore) { !ScorePassed(s) }

  datatype Reason = SqlMismatch | SqlUnsafe | Unfaithful | LowQuality(score: real) | DidNotPass

  datatype FailureRecord = FailureRecord(caseId: string, reasons: seq<Reason>, score: EvalScore)

  function SpecificReasons(s: EvalScore): seq<Reason> {
    (if s.sqlCorrect then [] else [SqlMismatch])
  + (if s.sqlSafe then [] else [SqlUnsafe])
  + (if s.ragFaithful.Some? && !s.ragFaithful.value then [Unfaithful] else [])
  + (if s.answerQuality < 1.0 then [LowQuality(s.answerQuality)] else [])
  }

  function FailureReason(s: EvalScore): seq<Reason> {
    if SpecificReasons(s) == [] then [DidNotPass] else SpecificReasons(s)
  }

  function FailureOf(s: EvalScore): FailureRecord { FailureRecord(s.caseId, FailureReason(s), s) }

  /** A failed score always has a specific reason; the catch-all text is never stored. */
  lemma FailuresAreExplained(s: EvalScore)
    requires ValidScore(s)
    ensures ScoreFailed(s) <==> DidNotPass !in FailureReason(s)
  {
    assert !s.sqlCorrect ==> SqlMismatch in SpecificReasons(s);
    assert !s.sqlSafe ==> SqlUnsafe in SpecificReasons(s);
    assert s.ragFaithful.Some? && !s.ragFaithful.value ==> Unfaithful in SpecificReasons(s);
    assert s.answerQuality < 1.0 ==> LowQuality(s.answerQuality) in SpecificReasons(s);
    assert DidNotPass !in SpecificReasons(s);
    if ScorePassed(s) {
      assert SpecificReasons(s) == [] && FailureReason(s) == [DidNotPass];
      assert DidNotPass in FailureReason(s);
    } else {
      assert SpecificReasons(s) != [];
    }
  }

  /** Each flaw of a score is named exactly when it is there, and in this order. */
  lemma ReasonsAre(s: EvalScore, q: real)
    ensures SqlMismatch in FailureReason(s) <==> !s.sqlCorrect
    ensures SqlUnsafe in FailureReason(s) <==> !s.sqlSafe
    ensures Unfaithful in FailureReason(s) <==> s.ragFaithful == Some(false)
    ensures LowQuality(q) in FailureReason(s) <==> q == s.answerQuality && s.answerQuality < 1.0
    ensures DidNotPass in FailureReason(s) <==>
              s.sqlCorrect && s.sqlSafe && s.ragFaithful != Some(false) && s.answerQuality >= 1.0
    ensures forall i, j :: 0 <= i < j < |FailureReason(s)| ==> Rank(FailureReason(s)[i]) < Rank(FailureReason(s)[j])
    ensures FailureOf(s) == FailureRecord(s.caseId, FailureReason(s), s)
  {
  }

  /** The place of a reason in the text of a failure. */
  function Rank(r: Reason): nat {
    match r
    case SqlMismatch => 1
    case SqlUnsafe => 2
    case Unfaithful => 3
    case LowQuality(_) => 4
    case DidNotPass => 5
  }

  datatype Status = Started | Succeeded

  datatype RunRecord = RunRecord(
    runId: string,
    suiteId: string,
    status: Status,
    startedAt: real,
    finishedAt: Option<real>,
    totalCases: nat,
    passedCases: nat,
    failedCases: nat,
    sqlSafetyScore: real,
    gatePassed: bool,
    orgId: string)

  datatype RunError = SuiteRequired | OrgRequired | RunIdRequired | UnknownRun | CaseMismatch

  // ---- The repository ----

  datatype Stored = Stored(
    runs: map<string, RunRecord>,
    scores: map<string, seq<EvalScore>>,
    failures: map<string, seq<FailureRecord>>)

  function Lookup<V>(m: map<string, seq<V>>, id: string): seq<V> { if id in m then m[id] else [] }

  class InMemoryEvaluationRepository {
    var runs: map<string, RunRecord>
    var scores: map<string, seq<EvalScore>>
    var failures: map<string, seq<FailureRecord>>

    function Contents(): Stored
      reads this
    {
      Stored(runs, scores, failures)
    }

    constructor ()
      ensures Contents() == Stored(map[], map[], map[])
    {
      runs, scores, failures := map[], map[], map[];
    }

    method SaveRun(record: RunRecord) returns (ok: bool)
      modifies this
      ensures ok <==> !IsBlank(record.runId)
      ensures Contents() == if ok then old(Contents()).(runs := old(runs)[record.runId := record]) else old(Contents())
    {
      if IsBlank(record.runId) {
        return false;
      }
      runs := runs[record.runId := record];
      return true;
    }

    method SaveScore(id: string, score: EvalScore) returns (ok: bool)
      modifies this
      ensures ok <==> id in old(runs)
      ensures Contents() == if ok then old(Contents()).(scores := old(scores)[id := Lookup(old(scores), id) + [score]])
                            else old(Contents())
    {
      if id !in runs {
        return false;
      }
      scores := scores[id := Lookup(scores, id) + [score]];
      return true;
    }

    method SaveFailure(id: string, failure: FailureRecord) returns (ok: bool)
      modifies this
      ensures ok <==> id in old(runs)
      ensures Contents()
           == if ok then old(Contents()).(failures := old(failures)[id := Lookup(old(failures), id) + [failure]])
                            else old(Contents())
    {
      if id !in runs {
        return false;
      }
      failures := failures[id := Lookup(failures, id) + [failure]];
      return true;
    }
  }

  // ---- The summary of a run ----

  predicate ScoreSafe(s: EvalScore) { s.sqlSafe }

  function SqlSafetyScore(scores: seq<EvalScore>): real {
    if scores == [] then 1.0 else Round4(|Filter(ScoreSafe, scores)| as real / |scores| as real)
  }

  function FinalRecord(runId: string, suiteId: string, startedAt: real, finishedAt: real, scores: seq<EvalScore>,
                       orgId: string): RunRecord
  {
    var passed, safety := |Filter(ScorePassed, scores)|, SqlSafetyScore(scores);
    AtMostAll(ScorePassed, scores);
    RunRecord(runId, suiteId, Succeeded, startedAt, Some(finishedAt), |scores|, passed, |scores| - passed, safety,
              safety == 1.0 && passed == |scores|, orgId)
  }

  lemma {:induction false} AtMostAll(p: EvalScore -> bool, s: seq<EvalScore>)
    ensures |Filter(p, s)| <= |s|
    ensures |Filter(p, s)| == |s| <==> forall i :: 0 <= i < |s| ==> p(s[i])
  {
    if s != [] {
      AtMostAll(p, s[1..]);
      assert forall i :: 0 < i < |s| ==> s[i] == s[1..][i - 1];
    }
  }

  lemma {:induction false} PassedAndFailed(s: seq<EvalScore>)
    ensures |Filter(ScorePassed, s)| + |Filter(ScoreFailed, s)| == |s|
  {
    if s != [] {
      PassedAndFailed(s[1..]);
    }
  }

  /** At any size the gate of a run means that every score passed: rounding plays no part in it, unlike in the
      suite gate. The counts add up, and the gate is open exactly when no failure was recorded. */
  lemma GateMeansAllPassed(runId: string, suiteId: string, startedAt: real, finishedAt: real, scores: seq<EvalScore>,
                           orgId: string)
    ensures var run := FinalRecord(runId, suiteId, startedAt, finishedAt, scores, orgId);
            && (run.gatePassed <==>
                  forall i :: 0 <= i < |scores| ==>
                    scores[i].sqlCorrect && scores[i].sqlSafe && scores[i].ragFaithful != Some(false)
                    && scores[i].answerQuality == 1.0)
            && run.failedCases == |Filter(ScoreFailed, scores)|
            && (run.gatePassed <==> Filter(ScoreFailed, scores) == [])
            && run == RunRecord(runId, suiteId, Succeeded, startedAt, Some(finishedAt), |scores|,
                                |scores| - run.failedCases, run.failedCases, run.sqlSafetyScore, run.gatePassed, orgId)
            && (scores == [] ==> run.sqlSafetyScore == 1.0)
            && (scores != [] ==>
                  var share := |Filter(ScoreSafe, scores)| as real / |scores| as real;
                  -0.00005 <= run.sqlSafetyScore - share <= 0.00005)
  {
    if scores != [] {
      Round4Close(|Filter(ScoreSafe, scores)| as real / |scores| as real);
    }
    assert forall i :: 0 <= i < |scores| ==>
             (ScorePassed(scores[i]) <==>
                scores[i].sqlCorrect && scores[i].sqlSafe && scores[i].ragFaithful != Some(false)
                && scores[i].answerQuality == 1.0);
    AtMostAll(ScorePassed, scores);
    AtMostAll(ScoreSafe, scores);
    PassedAndFailed(scores);
    if |Filter(ScorePassed, scores)| == |scores| {
      assert forall i :: 0 <= i < |scores| ==> ScorePassed(scores[i]) ==> ScoreSafe(scores[i]);
      assert |Filter(ScoreSafe, scores)| == |scores|;
      if scores != [] {
        Cancel(|scores| as real, 1.0);
      }
      Round4Unit(1.0);
      assert SqlSafetyScore(scores) == 1.0;
    }
  }

  // ---- EvalRunner.run ----

  /** How many leading cases get a score that carries their own id. */
  function Matching(cases: seq<EvalCase>, score: EvalCase -> EvalScore): (n: nat)
    ensures n <= |cases|
    ensures forall i :: 0 <= i < n ==> score(cases[i]).caseId == cases[i].caseId
    ensures n < |cases| ==> score(cases[n]).caseId != cases[n].caseId
  {
    if cases == [] || score(cases[0]).caseId != cases[0].caseId then 0 else 1 + Matching(cases[1..], score)
  }

  /** The failures that a list of scores leaves behind, in order. */
  function FailuresOf(scores: seq<EvalScore>): seq<FailureRecord> { Map(FailureOf, Filter(ScoreFailed, scores)) }

  lemma FailuresGrow(scores: seq<EvalScore>, s: EvalScore)
    ensures FailuresOf(scores + [s]) == FailuresOf(scores) + if ScorePassed(s) then [] else [FailureOf(s)]
  {
    FilterAppend(ScoreFailed, scores, [s]);
  }

  function Appended<V>(m: map<string, seq<V>>, id: string, xs: seq<V>): map<string, seq<V>> {
    if xs == [] then m else m[id := Lookup(m, id) + xs]
  }

  lemma AppendedOneMore<V>(m: map<string, seq<V>>, id: string, xs: seq<V>, x: V)
    ensures Appended(m, id, xs + [x]) == Appended(m, id, xs)[id := Lookup(Appended(m, id, xs), id) + [x]]
  {
    assert Lookup(m, id) + (xs + [x]) == Lookup(m, id) + xs + [x];
    assert xs == [] ==> xs + [x] == [x];
  }

  /** The repository after these scores were stored under `id`. */
  function WithScores(st: Stored, id: string, scores: seq<EvalScore>): Stored {
    st.(scores := Appended(st.scores, id, scores), failures := Appended(st.failures, id, FailuresOf(scores)))
  }

  function StartRecord(runId: string, suiteId: string, startedAt: real, total: nat, orgId: string): RunRecord {
    RunRecord(runId, suiteId, Started, startedAt, None, total, 0, 0, 1.0, false, orgId)
  }

  /** A missing or empty id is replaced by a new one. */
  function ActiveId(given: Option<string>, freshId: string): string {
    if given == None || given.value == "" then freshId else given.value
  }

  lemma ScoreStored(before: Stored, id: string, scores: seq<EvalScore>, s: EvalScore)
    ensures var was, now := WithScores(before, id, scores), WithScores(before, id, scores + [s]);
            && now.scores == was.scores[id := Lookup(was.scores, id) + [s]]
            && now.failures == if ScorePassed(s) then was.failures
                               else was.failures[id := Lookup(was.failures, id) + [FailureOf(s)]]
  {
    FailuresGrow(scores, s);
    AppendedOneMore(before.scores, id, scores, s);
    AppendedOneMore(before.failures, id, FailuresOf(scores), FailureOf(s));
    assert FailuresOf(scores) + [] == FailuresOf(scores);
  }

  lemma MatchingStops(cases: seq<EvalCase>, score: EvalCase -> EvalScore, i: nat)
    requires i <= Matching(cases, score) && i < |cases|
    ensures i < Matching(cases, score) <==> score(cases[i]).caseId == cases[i].caseId
  {
  }

  /** The loop of `run`: it stops at the first score that carries another case's id. */
  method RunCases(repository: InMemoryEvaluationRepository, id: string, cases: seq<EvalCase>,
                  scoreCase: EvalCase -> EvalScore)
    returns (scores: seq<EvalScore>)
    requires id in repository.runs
    modifies repository
    ensures scores == Map(scoreCase, cases[..Matching(cases, scoreCase)])
    ensures repository.Contents() == WithScores(old(repository.Contents()), id, scores)
  {
    ghost var before := repository.Contents();
    scores := [];
    for i := 0 to |cases|
      invariant i <= Matching(cases, scoreCase) && scores == Map(scoreCase, cases[..i])
      invariant repository.Contents() == WithScores(before, id, scores)
    {
      MatchingStops(cases, scoreCase, i);
      var score := scoreCase(cases[i]);
      if score.caseId != cases[i].caseId {
        return;
      }
      ScoreStored(before, id, scores, score);
      var scoreSaved := repository.SaveScore(id, score);
      if !ScorePassed(score) {
        var failureSaved := repository.SaveFailure(id, FailureOf(score));
      }
      scores := scores + [score];
    }
  }

  /** Scores are stored one per case, in order, after whatever an earlier run left under the same id, and the
      failures are exactly the scores that did not pass. A score for another case stops the run: what came before
      it stays stored, and the run stays started. No other run is touched (StoredUnderId). */
  method Run(repository: InMemoryEvaluationRepository, suiteId: string, cases: seq<EvalCase>,
             scoreCase: EvalCase -> EvalScore,
             given: Option<string>, freshId: string, orgId: string, startedAt: real, finishedAt: real)
    returns (r: Result<RunRecord, RunError>)
    modifies repository
    ensures IsBlank(suiteId) ==> r == Err(SuiteRequired)
    ensures !IsBlank(suiteId) && IsBlank(orgId) ==> r == Err(OrgRequired)
    ensures var id := ActiveId(given, freshId);
            IsBlank(suiteId) || IsBlank(orgId) || IsBlank(id) ==>
              r.Err? && repository.Contents() == old(repository.Contents())
    ensures var id := ActiveId(given, freshId);
            !IsBlank(suiteId) && !IsBlank(orgId) && !IsBlank(id) ==>
              var done := Map(scoreCase, cases[..Matching(cases, scoreCase)]);
              var finished := FinalRecord(id, suiteId, startedAt, finishedAt, done, orgId);
              var started := StartRecord(id, suiteId, startedAt, |cases|, orgId);
              && r == (if |done| < |cases| then Err(CaseMismatch) else Ok(finished))
              && repository.runs == old(repository.runs)[id := if |done| < |cases| then started else finished]
              && repository.Contents() == WithScores(old(repository.Contents()), id, done).(runs := repository.runs)
    ensures forall other :: other != ActiveId(given, freshId) ==>
              && Lookup(repository.scores, other) == Lookup(old(repository.scores), other)
              && Lookup(repository.failures, other) == Lookup(old(repository.failures), other)
              && (other in repository.runs <==> other in old(repository.runs))
              && (other in repository.runs ==> repository.runs[other] == old(repository.runs)[other])
  {
    if IsBlank(suiteId) {
      return Err(SuiteRequired);
    }
    if IsBlank(orgId) {
      return Err(OrgRequired);
    }
    var id := ActiveId(given, freshId);
    var started := repository.SaveRun(StartRecord(id, suiteId, startedAt, |cases|, orgId));
    if !started {
      return Err(RunIdRequired);
    }
    var scores := RunCases(repository, id, cases, scoreCase);
    if |scores| < |cases| {
      return Err(CaseMismatch);
    }
    var final := FinalRecord(id, suiteId, startedAt, finishedAt, scores, orgId);
    var finished := repository.SaveRun(final);
    return Ok(final);
  }

  /** What a run leaves under an id: after whatever was there, one score per case and the failures among them; and
      nothing under any other id. An id that is missing or empty is replaced by the new one. */
  lemma StoredUnderId(before: Stored, given: Option<string>, freshId: string, done: seq<EvalScore>, other: string)
    ensures var id := if given == None || given == Some("") then freshId else given.value;
            var after := WithScores(before, ActiveId(given, freshId), done);
            && ActiveId(given, freshId) == id
            && Lookup(after.scores, id) == Lookup(before.scores, id) + done
            && Lookup(after.failures, id) == Lookup(before.failures, id) + FailuresOf(done)
            && (other != id ==>
                  && Lookup(after.scores, other) == Lookup(before.scores, other)
                  && Lookup(after.failures, other) == Lookup(before.failures, other))
  {
  }

  /** A run that has started and not finished says so, with the number of its cases. */
  lemma StartedRun(runId: string, suiteId: string, startedAt: real, total: nat, orgId: string)
    ensures var run := StartRecord(runId, suiteId, startedAt, total, orgId);
            && run.status == Started && run.finishedAt == None && run.totalCases == total && run.startedAt == startedAt
            && run.runId == runId && run.suiteId == suiteId && run.orgId == orgId
            && run.passedCases == 0 && run.failedCases == 0 && !run.gatePassed && run.sqlSafetyScore == 1.0
  {
  }

  /** The failures are those of the scores that did not pass, in order. */
  lemma FailuresAre(scores: seq<EvalScore>, s: EvalScore)
    ensures FailuresOf([]) == []
    ensures FailuresOf(scores + [s])
         == FailuresOf(scores) + if s.sqlCorrect && s.sqlSafe && s.ragFaithful != Some(false) && s.answerQuality == 1.0
                                 then [] else [FailureRecord(s.caseId, FailureReason(s), s)]
  {
    FailuresGrow(scores, s);
  }

  lemma FreshLookup<V>(m: map<string, seq<V>>, id: string, xs: seq<V>)
    requires id !in m
    ensures Lookup(Appended(m, id, xs), id) == xs
  {
  }

  /** On a run id that holds nothing yet, a finished run leaves exactly one score per case, in the order of the
      cases, and exactly the failures of the scores that did not pass. */
  lemma FreshRunStoresItsScores(before: Stored, id: string, cases: seq<EvalCase>, scoreCase: EvalCase -> EvalScore)
    requires id !in before.scores && id !in before.failures && Matching(cases, scoreCase) == |cases|
    ensures var after := WithScores(before, id, Map(scoreCase, cases));
            && |Lookup(after.scores, id)| == |cases|
            && (forall i :: 0 <= i < |cases| ==> Lookup(after.scores, id)[i] == scoreCase(cases[i])
                                                 && Lookup(after.scores, id)[i].caseId == cases[i].caseId)
            && Lookup(after.failures, id) == FailuresOf(Lookup(after.scores, id))
  {
    var scores := Map(scoreCase, cases);
    FreshLookup(before.scores, id, scores);
    FreshLookup(before.failures, id, FailuresOf(scores));
    forall i | 0 <= i < |cases| ensures scores[i] == scoreCase(cases[i]) && scores[i].caseId == cases[i].caseId {
    }
  }
}
