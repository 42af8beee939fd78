/**
 * The verification tool: a cursor over the improved problems and the
 * verifications stored so far, keyed by problem id.  Submit stores a
 * verification for the problem under the cursor and moves on, skip and
 * previous only move the cursor, and the export counts the stored
 * verifications.  The web page, the rendered problem text and the files the
 * tool reads and writes are not modelled: the loaded problems and
 * verifications are the constructor's parameters, the clock a parameter of
 * submit.
 */
module VerificationUi {
  import opened Outcomes
  import opened Dicts
  import opened Json
  import opened Verdicts

  /** What a button reports besides the rendered problem: nothing left to verify, or the progress. */
  datatype Shown = NothingToVerify | Progress(verified: nat, total: nat)

  /** The record a submit stores for `problem`. */
  function VerificationRecord(problem: Value, correctness: Value, clarity: Value, difficultyMatch: Value,
                              completeness: Value, status: Value, comments: Value, timestamp: string): Value
    requires problem.Obj?
  {
    Obj([("problem_id", GetOr(problem, "id", Null).value),
         ("timestamp", Str(timestamp)),
         ("scores", Obj([("correctness", correctness), ("clarity", clarity),
                         ("difficulty_match", difficultyMatch), ("completeness", completeness)])),
         ("status", status),
         ("comments", comments),
         ("problem", problem)])
  }

  /** A stored record reads back the status it was stored with. */
  lemma RecordStatus(problem: Value, correctness: Value, clarity: Value, difficultyMatch: Value,
                     completeness: Value, status: Value, comments: Value, timestamp: string)
    requires problem.Obj?
    ensures Lookup(VerificationRecord(problem, correctness, clarity, difficultyMatch, completeness, status, comments, timestamp),
                   "status") == Ok(status)
  {
    var r := VerificationRecord(problem, correctness, clarity, difficultyMatch, completeness, status, comments, timestamp);
    LookupFirst(r.fields, 3);
  }

  /**
   * The status shown for a problem id: `not_verified` when nothing is
   * stored under it, the stored status, `unknown` for a stored dict without
   * one, and `AttributeError` for a stored value that is not a dict.
   */
  function StatusOf(verifications: Dict<Value, Value>, problemId: string): (r: Result<Value>)
    ensures Get(verifications, Str(problemId)).None? ==> r == Ok(Str("not_verified"))
    ensures Get(verifications, Str(problemId)).Some? ==>
      var entry := Get(verifications, Str(problemId)).value;
      && (!entry.Obj? ==> r.Raise?)
      && (entry.Obj? && "status" !in Keys(entry.fields) ==> r == Ok(Str("unknown")))
      && (Lookup(entry, "status").Ok? ==> r == Lookup(entry, "status"))
  {
    match Get(verifications, Str(problemId))
    case None => Ok(Str("not_verified"))
    case Some(entry) => GetOr(entry, "status", Str("unknown"))
  }

  /** After a submit stores a record under an id, the status of that id is the submitted one. */
  lemma SubmittedStatus(verifications: Dict<Value, Value>, problem: Value, correctness: Value, clarity: Value,
                        difficultyMatch: Value, completeness: Value, status: Value, comments: Value,
                        timestamp: string, problemId: string)
    requires problem.Obj?
    ensures StatusOf(Put(verifications, Str(problemId),
                         VerificationRecord(problem, correctness, clarity, difficultyMatch, completeness,
                                            status, comments, timestamp)), problemId) == Ok(status)
  {
    RecordStatus(problem, correctness, clarity, difficultyMatch, completeness, status, comments, timestamp);
    PutGet(verifications, Str(problemId),
           VerificationRecord(problem, correctness, clarity, difficultyMatch, completeness, status, comments, timestamp));
  }

  /** The counts and average scores of the report. */
  datatype Report = Report(total: nat, verified: nat, approved: nat, rejected: nat, needsRevision: nat,
                           avgScores: seq<real>)

  /**
   * `export_results` over the stored verifications `vs` and `total`
   * problems: the status counts (a record without a status raises), then
   * the average scores, then the report text, which divides by `total` and
   * by the number of verifications and so raises when either is 0.
   */
  function ExportSummary(vs: seq<Value>, total: nat): (r: Result<Report>)
    ensures r.Ok? ==> r.value.total == total > 0 && r.value.verified == |vs| > 0 && |r.value.avgScores| == 4
  {
    var approved :- CountStatus(vs, "approved");
    var rejected :- CountStatus(vs, "rejected");
    var needsRevision :- CountStatus(vs, "needs_revision");
    if vs == [] then Raise
    else
      var sums :- ScoreSums(vs, ScoreKeys);
      if total == 0 then Raise
      else Ok(Report(total, |vs|, approved, rejected, needsRevision, Averages(sums, |vs|)))
  }

  /**
   * The report exists exactly when there are problems and verifications
   * and every verification has a status and four numeric scores; then no
   * verification is counted under two statuses, and each average is the
   * dimension's total over the number of verifications.
   */
  lemma ExportSummarySpec(vs: seq<Value>, total: nat)
    ensures ExportSummary(vs, total).Ok? <==>
      && total > 0 && vs != []
      && (forall i :: 0 <= i < |vs| ==> Lookup(vs[i], "status").Ok?)
      && (forall k :: 0 <= k < 4 ==> Total(vs, ScoreKeys[k]).Ok?)
    ensures ExportSummary(vs, total).Ok? ==>
      var report := ExportSummary(vs, total).value;
      && report.approved + report.rejected + report.needsRevision <= report.verified
      && forall k :: 0 <= k < 4 ==> report.avgScores[k] == Total(vs, ScoreKeys[k]).value / (|vs| as real)
  {
    ScoreSumsTotals(vs, ScoreKeys);
    if forall i :: 0 <= i < |vs| ==> Lookup(vs[i], "status").Ok? {
      StatusesBounded(vs);
    }
  }

  class ProblemVerifier {
    /** The problems to verify, as loaded. */
    var problems: seq<Value>
    /** The cursor: the problem shown. */
    var currentIndex: int
    /** The stored verifications, keyed by problem id. */
    var verifications: Dict<Value, Value>

    ghost predicate Valid()
      reads this
    {
      currentIndex >= 0 && DistinctKeys(verifications)
    }

    /** The tool after loading: the cursor on the first problem. */
    constructor (problems: seq<Value>, verifications: Dict<Value, Value>)
      requires DistinctKeys(verifications)
      ensures Valid()
      ensures this.problems == problems && currentIndex == 0 && this.verifications == verifications
    {
      this.problems := problems;
      currentIndex := 0;
      this.verifications := verifications;
    }

    /** The problem under the cursor, none past the end. */
    function CurrentProblem(): (r: Option<Value>)
      reads this
      requires Valid()
      ensures r.None? <==> problems == [] || currentIndex >= |problems|
      ensures r.Some? ==> currentIndex < |problems| && r.value == problems[currentIndex]
    {
      if problems == [] || currentIndex >= |problems| then None else Some(problems[currentIndex])
    }

    /** `get_verification_status`. */
    function VerificationStatus(problemId: string): Result<Value>
      reads this
    {
      StatusOf(verifications, problemId)
    }

    /**
     * Submit: with no problem under the cursor (or a falsy one) nothing
     * changes.  Otherwise the verification is stored under the problem's
     * id, replacing an earlier one, and the cursor moves on by one; a
     * problem that is not a dict, or an id that cannot be a dict key,
     * raises before anything changes.
     */
    method SubmitVerification(correctness: Value, clarity: Value, difficultyMatch: Value, completeness: Value,
                              status: Value, comments: Value, timestamp: string) returns (r: Result<Shown>)
      requires Valid()
      modifies this
      ensures Valid() && problems == old(problems)
      ensures old(CurrentProblem()).None? || !Truthy(old(CurrentProblem()).value) ==>
        r == Ok(NothingToVerify) && verifications == old(verifications) && currentIndex == old(currentIndex)
      ensures old(CurrentProblem()).Some? && Truthy(old(CurrentProblem()).value) ==>
        var problem := old(CurrentProblem()).value;
        if !problem.Obj? || !Hashable(GetOr(problem, "id", Null).value) then
          r.Raise? && verifications == old(verifications) && currentIndex == old(currentIndex)
        else
          var id := GetOr(problem, "id", Null).value;
          && verifications == Put(old(verifications), id,
                                  VerificationRecord(problem, correctness, clarity, difficultyMatch, completeness,
                                                     status, comments, timestamp))
          && |verifications| == (if Get(old(verifications), id).Some? then |old(verifications)| else |old(verifications)| + 1)
          && currentIndex == old(currentIndex) + 1
          && r == Ok(Progress(|verifications|, |problems|))
    {
      var current := CurrentProblem();
      if current.None? || !Truthy(current.value) {
        return Ok(NothingToVerify);
      }
      var problem := current.value;
      if !problem.Obj? {
        return Raise;
      }
      var id := GetOr(problem, "id", Null).value;
      if !Hashable(id) {
        return Raise;
      }
      var record := VerificationRecord(problem, correctness, clarity, difficultyMatch, completeness,
                                       status, comments, timestamp);
      PutKeepsDistinct(verifications, id, record);
      PutSize(verifications, id, record);
      verifications := Put(verifications, id, record);
      currentIndex := currentIndex + 1;
      return Ok(Progress(|verifications|, |problems|));
    }

    /**
     * Skip: the cursor moves on by one, past the end too; the progress line
     * divides by the number of problems, so with none it raises (after the
     * cursor has moved).
     */
    method SkipProblem() returns (r: Result<Shown>)
      requires Valid()
      modifies this
      ensures Valid() && problems == old(problems) && verifications == old(verifications)
      ensures currentIndex == old(currentIndex) + 1
      ensures problems == [] <==> r.Raise?
      ensures r.Ok? ==> r == Ok(Progress(|verifications|, |problems|))
    {
      currentIndex := currentIndex + 1;
      if |problems| == 0 {
        return Raise;
      }
      return Ok(Progress(|verifications|, |problems|));
    }

    /** Previous: the cursor moves back by one unless it is on the first problem. */
    method PreviousProblem() returns (r: Result<Shown>)
      requires Valid()
      modifies this
      ensures Valid() && problems == old(problems) && verifications == old(verifications)
      ensures currentIndex == if old(currentIndex) > 0 then old(currentIndex) - 1 else 0
      ensures problems == [] <==> r.Raise?
      ensures r.Ok? ==> r == Ok(Progress(|verifications|, |problems|))
    {
      if currentIndex > 0 {
        currentIndex := currentIndex - 1;
      }
      if |problems| == 0 {
        return Raise;
      }
      return Ok(Progress(|verifications|, |problems|));
    }

    /** `export_results`: the report's counts, computed with the score loop. */
    method ExportResults() returns (r: Result<Report>)
      requires Valid()
      ensures r == ExportSummary(Values(verifications), |problems|)
    {
      var vs := Values(verifications);
      var approved := CountStatus(vs, "approved");
      var rejected := CountStatus(vs, "rejected");
      var needsRevision := CountStatus(vs, "needs_revision");
      if approved.Raise? || rejected.Raise? || needsRevision.Raise? || |vs| == 0 {
        return Raise;
      }
      var sums := AccumulateScores(vs, ScoreKeys);
      if sums.Raise? || |problems| == 0 {
        return Raise;
      }
      return Ok(Report(|problems|, |vs|, approved.value, rejected.value, needsRevision.value, Averages(sums.value, |vs|)));
    }
  }
}
