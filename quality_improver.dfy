/**
 * Stage 4: improve each problem.  The self-improving pipeline is tried
 * first and its result folded into the record; when anything there raises,
 * a direct loop evaluates the problem, stops once the scores reach the
 * thresholds, and otherwise asks for suggestions and records them, for at
 * most `max_iterations` rounds.
 */
module QualityImprover {
  import opened Outcomes
  import opened Dicts
  import opened Json
  import opened Text
  import opened Agent
  import SolutionGenerator

  // ---------------------------------------------------------------------
  // _parse_evaluation, _evaluate_problem

  const ScoreKeys: seq<string> := ["correctness", "clarity", "completeness", "elegance"]

  /** An evaluation: the four scores, in this order. */
  function Scores(correctness: Value, clarity: Value, completeness: Value, elegance: Value): Value
  {
    Obj([("correctness", correctness), ("clarity", clarity), ("completeness", completeness), ("elegance", elegance)])
  }

  /** The evaluation used whenever none can be read: 0.5 everywhere. */
  const DefaultEvaluation: Value := Scores(Float(0.5), Float(0.5), Float(0.5), Float(0.5))

  /** `evaluation.get(key, 0.5)`. */
  function ScoreOr(v: Value, key: string): Value
    requires v.Obj?
  {
    GetOr(v, key, Float(0.5)).value
  }

  /**
   * `_parse_evaluation` once the cleaned reply has gone through `json.loads`
   * (`None` when it is not JSON): a dict gives its four scores, 0.5 for each
   * one it lacks; anything else gives the default evaluation.
   */
  function EvaluationOf(parsed: Option<Value>): Value
  {
    if parsed.Some? && parsed.value.Obj? then
      var v := parsed.value;
      Scores(ScoreOr(v, "correctness"), ScoreOr(v, "clarity"), ScoreOr(v, "completeness"), ScoreOr(v, "elegance"))
    else DefaultEvaluation
  }

  /** `_parse_evaluation`: the reply with its code fences removed, parsed. */
  function ParseEvaluation(parse: Parser, text: string): Value
  {
    EvaluationOf(parse(Clean(text)))
  }

  /** The four entries of an evaluation are read back as given. */
  lemma ScoresFields(c: Value, cl: Value, co: Value, e: Value)
    ensures Keys(Scores(c, cl, co, e).fields) == ScoreKeys
    ensures Lookup(Scores(c, cl, co, e), "correctness") == Ok(c)
    ensures Lookup(Scores(c, cl, co, e), "clarity") == Ok(cl)
    ensures Lookup(Scores(c, cl, co, e), "completeness") == Ok(co)
    ensures Lookup(Scores(c, cl, co, e), "elegance") == Ok(e)
  {
    Keys4(("correctness", c), ("clarity", cl), ("completeness", co), ("elegance", e));
    Lookup4("correctness", c, "clarity", cl, "completeness", co, "elegance", e);
  }

  /** The score a parsed reply gives for `key`: the dict's entry, or 0.5. */
  function ParsedScore(parsed: Option<Value>, key: string): Value
  {
    if parsed.Some? && parsed.value.Obj? && key in Keys(parsed.value.fields) then Lookup(parsed.value, key).value
    else Float(0.5)
  }

  /**
   * An evaluation has exactly the four score keys, each the reply's own
   * score when it gives one and 0.5 otherwise.
   */
  lemma EvaluationScores(parsed: Option<Value>)
    ensures EvaluationOf(parsed).Obj? && Keys(EvaluationOf(parsed).fields) == ScoreKeys
    ensures Lookup(EvaluationOf(parsed), "correctness") == Ok(ParsedScore(parsed, "correctness"))
    ensures Lookup(EvaluationOf(parsed), "clarity") == Ok(ParsedScore(parsed, "clarity"))
    ensures Lookup(EvaluationOf(parsed), "completeness") == Ok(ParsedScore(parsed, "completeness"))
    ensures Lookup(EvaluationOf(parsed), "elegance") == Ok(ParsedScore(parsed, "elegance"))
  {
    if parsed.Some? && parsed.value.Obj? {
      var v := parsed.value;
      ScoresFields(ScoreOr(v, "correctness"), ScoreOr(v, "clarity"), ScoreOr(v, "completeness"), ScoreOr(v, "elegance"));
    } else {
      ScoresFields(Float(0.5), Float(0.5), Float(0.5), Float(0.5));
    }
  }

  /** What the agents answer for one problem. */
  datatype Agents = Agents(
    pipeline: Value -> Result<seq<Value>>, // the self-improving pipeline's `generate()`, given the problem it was built with
    evaluate: nat -> Reply,                 // the evaluation reply in iteration k
    improve: nat -> Reply)                  // the suggestion reply in iteration k

  /** An evaluation is a dict. */
  type Evaluation = v: Value | v.Obj? witness Obj([])

  /** The evaluation a reply gives; a failed call gives the default one. */
  function ReplyEvaluation(parse: Parser, reply: Reply): Evaluation
  {
    match reply
    case AgentFailed(_) => DefaultEvaluation
    case Replied(t) => EvaluationScores(parse(Clean(t))); ParseEvaluation(parse, t)
  }

  /**
   * `_evaluate_problem`: the prompt reads `problem['problem']` outside the
   * `try`, so a problem without one raises.
   */
  function EvaluateProblem(parse: Parser, problem: Value, reply: Reply): (r: Result<Evaluation>)
    requires problem.Obj?
    ensures r.Ok? <==> "problem" in Keys(problem.fields)
  {
    var _ :- Lookup(problem, "problem");
    Ok(ReplyEvaluation(parse, reply))
  }

  /** The evaluation of iteration k. */
  function Evaluations(parse: Parser, agents: Agents): nat -> Evaluation
  {
    k => ReplyEvaluation(parse, agents.evaluate(k))
  }

  /**
   * What `_evaluate_problem` returns in iteration k: the evaluation of that
   * iteration's reply, with the four score keys.
   */
  lemma EvaluateProblemIteration(parse: Parser, agents: Agents, problem: Value, k: nat)
    requires problem.Obj? && "problem" in Keys(problem.fields)
    ensures EvaluateProblem(parse, problem, agents.evaluate(k)) == Ok(Evaluations(parse, agents)(k))
    ensures Keys(Evaluations(parse, agents)(k).fields) == ScoreKeys
  {
    if agents.evaluate(k).Replied? {
      EvaluationScores(parse(Clean(agents.evaluate(k).text)));
    } else {
      ScoresFields(Float(0.5), Float(0.5), Float(0.5), Float(0.5));
    }
  }

  // ---------------------------------------------------------------------
  // _meets_threshold

  /** The configured score thresholds; `None` where the configuration has no entry. */
  datatype Thresholds = Thresholds(correctness: Option<real>, clarity: Option<real>, completeness: Option<real>)

  /** The thresholds `Stage4Config` configures. */
  const ConfiguredThresholds: Thresholds := Thresholds(Some(0.9), Some(0.8), Some(0.8))

  /** `thresholds.get(key, default)`. */
  function Bar(t: Option<real>, default: real): real
  {
    if t.Some? then t.value else default
  }

  /** `evaluation.get(key, 0)`. */
  function Score(evaluation: Value, key: string): Value
    requires evaluation.Obj?
  {
    GetOr(evaluation, key, Int(0)).value
  }

  /**
   * `_meets_threshold` on the three scores it reads: correctness, clarity
   * and completeness each at least their bar (0.9, 0.8, 0.8 when not
   * configured), tested in that order with `and`; comparing a score that is
   * not a number raises.
   */
  function MeetsScores(correctness: Value, clarity: Value, completeness: Value, t: Thresholds): Result<bool>
  {
    var correct :- AtLeast(correctness, Bar(t.correctness, 0.9));
    if !correct then Ok(false)
    else
      var clear :- AtLeast(clarity, Bar(t.clarity, 0.8));
      if !clear then Ok(false)
      else AtLeast(completeness, Bar(t.completeness, 0.8))
  }

  /** `_meets_threshold`: each score read with `.get(key, 0)`; elegance is not read. */
  function MeetsThreshold(evaluation: Value, t: Thresholds): Result<bool>
    requires evaluation.Obj?
  {
    MeetsScores(Score(evaluation, "correctness"), Score(evaluation, "clarity"), Score(evaluation, "completeness"), t)
  }

  /** A score counts as a number: `int`, `float` or `bool`. */
  predicate IsNumber(v: Value)
  {
    Numeric(v).Ok?
  }

  /**
   * With numeric scores the threshold is met exactly when all three scores
   * reach their bars.
   */
  lemma MeetsScoresIff(correctness: Value, clarity: Value, completeness: Value, t: Thresholds)
    requires IsNumber(correctness) && IsNumber(clarity) && IsNumber(completeness)
    ensures MeetsScores(correctness, clarity, completeness, t) == Ok(
      && Numeric(correctness).value >= Bar(t.correctness, 0.9)
      && Numeric(clarity).value >= Bar(t.clarity, 0.8)
      && Numeric(completeness).value >= Bar(t.completeness, 0.8))
  {
  }

  /**
   * The test raises exactly when the first score it reaches that is not a
   * number is compared: correctness always, clarity only after correctness
   * passed, completeness only after both passed.
   */
  lemma MeetsScoresRaises(correctness: Value, clarity: Value, completeness: Value, t: Thresholds)
    ensures MeetsScores(correctness, clarity, completeness, t).Raise? <==>
      || !IsNumber(correctness)
      || (&& Numeric(correctness).value >= Bar(t.correctness, 0.9)
          && (|| !IsNumber(clarity)
              || (&& Numeric(clarity).value >= Bar(t.clarity, 0.8)
                  && !IsNumber(completeness))))
  {
  }

  /** A score the evaluation does not give counts as 0. */
  lemma MissingScoreIsZero(evaluation: Value, key: string)
    requires evaluation.Obj? && key !in Keys(evaluation.fields)
    ensures IsNumber(Score(evaluation, key)) && Numeric(Score(evaluation, key)).value == 0.0
  {
  }

  /** The elegance score never decides the test. */
  lemma EleganceIgnored(evaluation: Value, t: Thresholds, elegance: Value)
    requires evaluation.Obj?
    ensures MeetsThreshold(Set(evaluation, "elegance", elegance), t) == MeetsThreshold(evaluation, t)
  {
    var e := Set(evaluation, "elegance", elegance);
    assert Get(e.fields, "correctness") == Get(evaluation.fields, "correctness");
    assert Get(e.fields, "clarity") == Get(evaluation.fields, "clarity");
    assert Get(e.fields, "completeness") == Get(evaluation.fields, "completeness");
  }

  // ---------------------------------------------------------------------
  // _generate_improvements, _apply_improvements

  /**
   * `_generate_improvements`: the prompt formats the three scores with
   * `:.2f` outside the `try`, which raises for a score that is not a number;
   * the reply becomes the suggestions, a failed call a fixed text.
   */
  function GenerateImprovements(problem: Value, evaluation: Value, reply: Reply): (r: Result<Value>)
    requires problem.Obj? && evaluation.Obj?
    ensures r.Ok? ==> r.value.Obj?
  {
    var _ :- Lookup(problem, "problem");
    if !(IsNumber(Score(evaluation, "correctness")) && IsNumber(Score(evaluation, "clarity"))
         && IsNumber(Score(evaluation, "completeness"))) then Raise
    else
      Ok(Obj([("suggestions", Str(if reply.Replied? then reply.text else "No improvements generated"))]))
  }

  /** `_apply_improvements`: only `improvement_suggestions` changes. */
  function ApplyImprovements(problem: Value, improvements: Value): (r: Value)
    requires problem.Obj? && improvements.Obj?
    ensures r.Obj? && Lookup(r, "improvement_suggestions") == GetOr(improvements, "suggestions", Str(""))
    ensures forall k :: k != "improvement_suggestions" ==> Get(r.fields, k) == Get(problem.fields, k)
  {
    Set(problem, "improvement_suggestions", GetOr(improvements, "suggestions", Str("")).value)
  }

  // ---------------------------------------------------------------------
  // _improve_direct

  /** A history entry. */
  function Entry(n: int, evaluation: Value): Value
  {
    Obj([("iteration", Int(n)), ("evaluation", evaluation)])
  }

  /** The history of the evaluations so far, numbered from 1. */
  function Entries(evals: seq<Value>): (r: seq<Value>)
    ensures |r| == |evals|
  {
    if evals == [] then [] else Entries(evals[..|evals| - 1]) + [Entry(|evals|, evals[|evals| - 1])]
  }

  /** Entry j of the history is evaluation j, numbered j + 1. */
  lemma {:induction false} EntriesAt(evals: seq<Value>, j: int)
    requires 0 <= j < |evals|
    ensures Entries(evals)[j] == Entry(j + 1, evals[j])
  {
    if j < |evals| - 1 {
      EntriesAt(evals[..|evals| - 1], j);
    }
  }

  /** One more evaluation adds one history entry, numbered after the others. */
  lemma EntriesSnoc(history: seq<Value>, evals: seq<Value>, e: Value)
    requires history == Entries(evals)
    ensures history + [Entry(|evals| + 1, e)] == Entries(evals + [e])
  {
    assert (evals + [e])[..|evals|] == evals;
  }

  /**
   * After the loop: history, the last evaluation and the flag are set; with
   * no iteration at all `evaluation` was never bound (`UnboundLocalError`).
   */
  function FinishDirect(current: Value, evals: seq<Value>): Result<Value>
    requires current.Obj?
  {
    if evals == [] then Raise
    else Ok(Finished(current, Entries(evals), evals[|evals| - 1]))
  }

  /** The record after the loop: the history, the last evaluation and the flag. */
  function Finished(current: Value, history: seq<Value>, last: Value): Value
    requires current.Obj?
  {
    Set(Set(Set(current, "improvement_history", Arr(history)), "final_evaluation", last), "improved", Bool(true))
  }

  /** How one iteration of the loop ends. */
  datatype Step =
    | Halt                                  // something in the iteration raised
    | Met(evaluation: Value)                // the thresholds are met: `break`
    | Retry(evaluation: Value, next: Value) // the problem with the suggestions recorded

  /** The keys the direct loop writes. */
  predicate LoopKey(k: string)
  {
    k == "improvement_history" || k == "final_evaluation" || k == "improved" || k == "improvement_suggestions"
  }

  /**
   * Iteration k of the loop on `current`: evaluate, test the thresholds,
   * and otherwise generate and apply suggestions, which change nothing but
   * the loop's own keys.
   */
  function Round(evaluations: nat -> Evaluation, improve: nat -> Reply, t: Thresholds, current: Value, k: nat): (r: Step)
    requires current.Obj?
    ensures r.Met? ==> r.evaluation.Obj? && MeetsThreshold(r.evaluation, t) == Ok(true)
    ensures r.Retry? ==> r.evaluation.Obj? && MeetsThreshold(r.evaluation, t) == Ok(false) && r.next.Obj?
    ensures r.Retry? ==> forall key :: !LoopKey(key) ==> Get(r.next.fields, key) == Get(current.fields, key)
    ensures r.Halt? <==>
      || Lookup(current, "problem").Raise?
      || MeetsThreshold(evaluations(k), t).Raise?
      || (MeetsThreshold(evaluations(k), t) == Ok(false) && GenerateImprovements(current, evaluations(k), improve(k)).Raise?)
  {
    if Lookup(current, "problem").Raise? then Halt
    else
      var e := evaluations(k);
      match MeetsThreshold(e, t)
      case Raise => Halt
      case Ok(meets) =>
        if meets then Met(e)
        else
          match GenerateImprovements(current, e, improve(k))
          case Raise => Halt
          case Ok(improvements) => Retry(e, ApplyImprovements(current, improvements))
  }

  /** Where the loop stops: an exception, or the problem and the evaluations made. */
  datatype LoopEnd = Stuck | Ended(final: Value, evals: seq<Value>)

  /**
   * The loop from iteration `|evals|` on, `evals` being the evaluations of
   * the iterations before.
   */
  function DirectLoop(evaluations: nat -> Evaluation, improve: nat -> Reply, t: Thresholds, max: int,
                      current: Value, evals: seq<Value>): (r: LoopEnd)
    requires current.Obj?
    ensures r.Ended? ==> r.final.Obj?
    decreases max - |evals|
  {
    if |evals| >= max then Ended(current, evals)
    else
      match Round(evaluations, improve, t, current, |evals|)
      case Halt => Stuck
      case Met(e) => Ended(current, evals + [e])
      case Retry(e, next) => DirectLoop(evaluations, improve, t, max, next, evals + [e])
  }

  /** The loop, then the record built after it. */
  function DirectFrom(evaluations: nat -> Evaluation, improve: nat -> Reply, t: Thresholds, max: int,
                      current: Value, evals: seq<Value>): (r: Result<Value>)
    requires current.Obj?
  {
    match DirectLoop(evaluations, improve, t, max, current, evals)
    case Stuck => Raise
    case Ended(final, all) => FinishDirect(final, all)
  }

  /**
   * The evaluations the loop made: between 1 and `max` of them, every one
   * but the last missing the thresholds, and the last meeting them unless
   * the iterations ran out.
   */
  ghost predicate EvalsShape(evals: seq<Value>, t: Thresholds, max: int)
  {
    && Stopped(evals, t, max)
    && forall j :: 0 <= j < |evals| - 1 ==> Misses(evals[j], t)
  }

  /** An evaluation that misses the thresholds. */
  predicate Misses(e: Value, t: Thresholds)
  {
    e.Obj? && MeetsThreshold(e, t) == Ok(false)
  }

  /**
   * The record the loop returns: the history of the evaluations numbered
   * from 1, the last evaluation, the flag, and otherwise the problem's own
   * entries but for the suggestions.
   */
  ghost predicate RecordShape(r: Value, start: Value, evals: seq<Value>)
  {
    && evals != []
    && r.Obj?
    && Lookup(r, "improvement_history") == Ok(Arr(Entries(evals)))
    && Lookup(r, "final_evaluation") == Ok(evals[|evals| - 1])
    && Lookup(r, "improved") == Ok(Bool(true))
    && start.Obj?
    && forall k :: !LoopKey(k) ==> Get(r.fields, k) == Get(start.fields, k)
  }

  /** The record `FinishDirect` builds carries the history, the last evaluation and the flag. */
  lemma FinishDirectFields(current: Value, evals: seq<Value>, start: Value)
    requires current.Obj? && start.Obj? && evals != []
    requires forall k :: !LoopKey(k) ==> Get(current.fields, k) == Get(start.fields, k)
    ensures FinishDirect(current, evals).Ok? && RecordShape(FinishDirect(current, evals).value, start, evals)
  {
  }

  /**
   * The evaluations of a finished loop: between 1 and `max` of them, the
   * last meeting the thresholds unless the iterations ran out.
   */
  ghost predicate Stopped(evals: seq<Value>, t: Thresholds, max: int)
  {
    && 1 <= |evals| <= max
    && evals[|evals| - 1].Obj?
    && (MeetsThreshold(evals[|evals| - 1], t) == Ok(true) || |evals| == max)
  }

  /** How many evaluations a finished loop has made, and why it stopped. */
  lemma {:induction false} DirectEvalsCount(evaluations: nat -> Evaluation, improve: nat -> Reply, t: Thresholds, max: int,
                                            current: Value, evals: seq<Value>)
    requires current.Obj? && |evals| <= max
    requires evals != [] ==> evals[|evals| - 1].Obj?
    ensures DirectLoop(evaluations, improve, t, max, current, evals).Ended? &&
            DirectLoop(evaluations, improve, t, max, current, evals).evals != [] ==>
      Stopped(DirectLoop(evaluations, improve, t, max, current, evals).evals, t, max)
    decreases max - |evals|
  {
    var l := DirectLoop(evaluations, improve, t, max, current, evals);
    if |evals| >= max {
      assert l.evals == evals && |evals| == max;
    } else {
      var step := Round(evaluations, improve, t, current, |evals|);
      if step.Met? {
        assert l.evals == evals + [step.evaluation];
        assert l.evals[|l.evals| - 1] == step.evaluation;
        assert Stopped(l.evals, t, max);
      } else if step.Retry? {
        var evals' := evals + [step.evaluation];
        assert l == DirectLoop(evaluations, improve, t, max, step.next, evals');
        DirectEvalsCount(evaluations, improve, t, max, step.next, evals');
      } else {
        assert l.Stuck?;
      }
    }
  }

  /** The evaluations before the last one all missed the thresholds. */
  lemma {:induction false} DirectEvalsMissed(evaluations: nat -> Evaluation, improve: nat -> Reply, t: Thresholds, max: int,
                                             current: Value, evals: seq<Value>)
    requires current.Obj?
    requires forall j :: 0 <= j < |evals| ==> Misses(evals[j], t)
    ensures DirectLoop(evaluations, improve, t, max, current, evals).Ended? ==>
      forall j :: 0 <= j < |DirectLoop(evaluations, improve, t, max, current, evals).evals| - 1 ==>
        Misses(DirectLoop(evaluations, improve, t, max, current, evals).evals[j], t)
    decreases max - |evals|
  {
    var l := DirectLoop(evaluations, improve, t, max, current, evals);
    if |evals| >= max {
      assert l.evals == evals;
    } else {
      var step := Round(evaluations, improve, t, current, |evals|);
      if step.Met? {
        assert l.evals == evals + [step.evaluation];
        assert forall j :: 0 <= j < |l.evals| - 1 ==> l.evals[j] == evals[j];
      } else if step.Retry? {
        var evals' := evals + [step.evaluation];
        assert forall j :: 0 <= j < |evals'| ==> Misses(evals'[j], t) by {
          forall j | 0 <= j < |evals'|
            ensures Misses(evals'[j], t)
          {
            if j < |evals| { assert evals'[j] == evals[j]; }
          }
        }
        assert l == DirectLoop(evaluations, improve, t, max, step.next, evals');
        DirectEvalsMissed(evaluations, improve, t, max, step.next, evals');
      } else {
        assert l.Stuck?;
      }
    }
  }

  /** The loop changes none of the problem's entries but its own keys. */
  lemma {:induction false} DirectLoopKeeps(evaluations: nat -> Evaluation, improve: nat -> Reply, t: Thresholds, max: int,
                                           current: Value, evals: seq<Value>, start: Value)
    requires current.Obj? && start.Obj?
    requires forall k :: !LoopKey(k) ==> Get(current.fields, k) == Get(start.fields, k)
    ensures DirectLoop(evaluations, improve, t, max, current, evals).Ended? ==>
      forall k :: !LoopKey(k) ==>
        Get(DirectLoop(evaluations, improve, t, max, current, evals).final.fields, k) == Get(start.fields, k)
    decreases max - |evals|
  {
    if |evals| < max {
      var step := Round(evaluations, improve, t, current, |evals|);
      if step.Retry? {
        DirectLoopKeeps(evaluations, improve, t, max, step.next, evals + [step.evaluation], start);
      }
    }
  }

  /**
   * `_improve_direct` on a copy of the problem: with `max_iterations` at
   * most 0 it raises (`evaluation` is never bound); otherwise the loop's
   * evaluations and record are as `EvalsShape` and `RecordShape` describe.
   */
  lemma ImproveDirectSpec(evaluations: nat -> Evaluation, improve: nat -> Reply, t: Thresholds, max: int, problem: Value)
    requires problem.Obj?
    ensures max <= 0 ==> DirectFrom(evaluations, improve, t, max, problem, []).Raise?
    ensures DirectFrom(evaluations, improve, t, max, problem, []).Ok? ==>
      && DirectLoop(evaluations, improve, t, max, problem, []).Ended?
      && EvalsShape(DirectLoop(evaluations, improve, t, max, problem, []).evals, t, max)
      && RecordShape(DirectFrom(evaluations, improve, t, max, problem, []).value, problem,
                     DirectLoop(evaluations, improve, t, max, problem, []).evals)
  {
    var l := DirectLoop(evaluations, improve, t, max, problem, []);
    DirectEvalsMissed(evaluations, improve, t, max, problem, []);
    DirectLoopKeeps(evaluations, improve, t, max, problem, [], problem);
    if max > 0 {
      DirectEvalsCount(evaluations, improve, t, max, problem, []);
    }
    if l.Ended? && l.evals != [] {
      FinishDirectFields(l.final, l.evals, problem);
    }
  }

  /** The last of the evaluations, if any. */
  function Last(evals: seq<Value>): Option<Value>
  {
    if evals == [] then None else Some(evals[|evals| - 1])
  }

  /** A loop that ended after some evaluations returns the record built from them. */
  lemma DirectFromEnded(evaluations: nat -> Evaluation, improve: nat -> Reply, t: Thresholds, max: int,
                        problem: Value, current: Value, evals: seq<Value>, history: seq<Value>)
    requires problem.Obj? && current.Obj? && evals != [] && history == Entries(evals)
    requires DirectLoop(evaluations, improve, t, max, problem, []) == Ended(current, evals)
    ensures DirectFrom(evaluations, improve, t, max, problem, []) == Ok(Finished(current, history, evals[|evals| - 1]))
  {
  }

  /**
   * The body of the loop in `_improve_direct`, iteration k: evaluate (which
   * reads the problem text), test the thresholds, and otherwise generate and
   * apply suggestions.  `evaluations(k)` is what `_evaluate_problem` makes of
   * that iteration's reply (`Evaluations`).
   */
  method DirectIteration(evaluations: nat -> Evaluation, improve: nat -> Reply, t: Thresholds, current: Value, k: nat)
    returns (step: Step)
    requires current.Obj?
    ensures step == Round(evaluations, improve, t, current, k)
  {
    if "problem" !in Keys(current.fields) {
      return Halt;
    }
    var e := evaluations(k);
    var meets := MeetsThreshold(e, t);
    if meets.Raise? {
      return Halt;
    }
    if meets.value {
      return Met(e);
    }
    var improvements := GenerateImprovements(current, e, improve(k));
    if improvements.Raise? {
      return Halt;
    }
    return Retry(e, ApplyImprovements(current, improvements.value));
  }

  /**
   * `_improve_direct` on a copy of the problem: at most `max_iterations`
   * iterations, each one's evaluation appended to the history.
   */
  method ImproveDirect(evaluations: nat -> Evaluation, improve: nat -> Reply, t: Thresholds, maxIterations: int,
                       problem: Value) returns (r: Result<Value>)
    requires problem.Obj?
    ensures r == DirectFrom(evaluations, improve, t, maxIterations, problem, [])
  {
    ghost var spec := DirectLoop(evaluations, improve, t, maxIterations, problem, []);
    var current := problem;
    var history: seq<Value> := [];
    var evaluation: Option<Value> := None;
    ghost var evals: seq<Value> := [];
    var iteration := 0;
    while iteration < maxIterations
      invariant current.Obj? && iteration == |evals|
      invariant history == Entries(evals)
      invariant evaluation == Last(evals)
      invariant spec == DirectLoop(evaluations, improve, t, maxIterations, current, evals)
      decreases maxIterations - iteration
    {
      var step := DirectIteration(evaluations, improve, t, current, iteration);
      if step.Halt? {
        return Raise;
      }
      EntriesSnoc(history, evals, step.evaluation);
      history := history + [Entry(iteration + 1, step.evaluation)];
      evaluation := Some(step.evaluation);
      evals := evals + [step.evaluation];
      if step.Met? {
        // `break`, then the record is built as after the last iteration
        assert spec == Ended(current, evals);
        DirectFromEnded(evaluations, improve, t, maxIterations, problem, current, evals, history);
        return Ok(Finished(current, history, step.evaluation));
      }
      assert spec == DirectLoop(evaluations, improve, t, maxIterations, step.next, evals);
      current := step.next;
      iteration := iteration + 1;
    }
    assert spec == Ended(current, evals);
    if evaluation.None? {
      return Raise;
    }
    DirectFromEnded(evaluations, improve, t, maxIterations, problem, current, evals, history);
    r := Ok(Finished(current, history, evaluation.value));
  }

  // ---------------------------------------------------------------------
  // _improve_with_pipeline

  /** `for x in v`: a list's items, a string's characters, a dict's keys; anything else raises. */
  function Iterate(v: Value): (r: Result<seq<Value>>)
    ensures r.Ok? <==> v.Arr? || v.Str? || v.Obj?
  {
    match v
    case Arr(xs) => Ok(xs)
    case Str(s) => Ok(seq(|s|, i requires 0 <= i < |s| => Str([s[i]])))
    case Obj(fs) => Ok(seq(|fs|, i requires 0 <= i < |fs| => Str(fs[i].0)))
    case _ => Raise
  }

  /**
   * One step's contribution: its description and a blank line, nothing
   * without one; a description that is not a string, or a step that has
   * one by `in` but cannot be indexed by a string, raises.
   */
  function StepText(step: Value): Result<string>
  {
    var has :- HasIn("description", step);
    if !has then Ok("")
    else
      var d :- Lookup(step, "description");
      if d.Str? then Ok(d.s + "\n\n") else Raise
  }

  /** The text the steps add up to. */
  function SolutionText(steps: seq<Value>): Result<string>
  {
    if steps == [] then Ok("")
    else
      var earlier :- SolutionText(steps[..|steps| - 1]);
      var more :- StepText(steps[|steps| - 1]);
      Ok(earlier + more)
  }

  /** The loop that builds the solution text. */
  method AssembleSolutionText(steps: seq<Value>) returns (r: Result<string>)
    ensures r == SolutionText(steps)
  {
    var text := "";
    for i := 0 to |steps|
      invariant SolutionText(steps[..i]) == Ok(text)
    {
      assert steps[..i + 1][..i] == steps[..i];
      var more := StepText(steps[i]);
      if more.Raise? {
        SolutionTextRaiseSticks(steps, i + 1);
        return Raise;
      }
      text := text + more.value;
    }
    assert steps[..|steps|] == steps;
    return Ok(text);
  }

  /** Once a step raises, the whole text raises. */
  lemma {:induction false} SolutionTextRaiseSticks(steps: seq<Value>, n: nat)
    requires n <= |steps| && SolutionText(steps[..n]).Raise?
    ensures SolutionText(steps).Raise?
    decreases |steps| - n
  {
    if n < |steps| {
      assert steps[..n + 1][..n] == steps[..n];
      SolutionTextRaiseSticks(steps, n + 1);
    } else {
      assert steps[..n] == steps;
    }
  }

  /** Each description followed by a blank line. */
  function Blocks(descriptions: seq<string>): string
  {
    if descriptions == [] then ""
    else Blocks(descriptions[..|descriptions| - 1]) + descriptions[|descriptions| - 1] + "\n\n"
  }

  /** A dict step adds nothing, or its description as text; anything else in the description raises. */
  predicate Describable(step: Value)
  {
    step.Obj? && ("description" in Keys(step.fields) ==> Lookup(step, "description").value.Str?)
  }

  /** The description a step carries, as a list of at most one text. */
  function DescriptionOf(step: Value): (r: seq<string>)
    ensures |r| <= 1
  {
    var d := Lookup(step, "description");
    if d.Ok? && d.value.Str? then [d.value.s] else []
  }

  /** The descriptions the steps carry, in order; steps without one contribute none. */
  function Descriptions(steps: seq<Value>): seq<string>
  {
    if steps == [] then [] else Descriptions(steps[..|steps| - 1]) + DescriptionOf(steps[|steps| - 1])
  }

  /** The text of one more step is added at the end. */
  lemma SolutionTextSnoc(init: seq<Value>, last: Value)
    requires SolutionText(init).Ok? && StepText(last).Ok?
    ensures SolutionText(init + [last]) == Ok(SolutionText(init).value + StepText(last).value)
  {
    assert (init + [last])[..|init|] == init;
  }

  /** The descriptions of one more step are added at the end. */
  lemma DescriptionsSnoc(init: seq<Value>, last: Value)
    ensures Descriptions(init + [last]) == Descriptions(init) + DescriptionOf(last)
  {
    assert (init + [last])[..|init|] == init;
  }

  /** The blocks of at most one more description are added at the end. */
  lemma BlocksSnoc(ds: seq<string>, more: seq<string>)
    requires |more| <= 1
    ensures Blocks(ds + more) == Blocks(ds) + Blocks(more)
  {
    if more == [] {
      assert ds + more == ds;
    } else {
      assert (ds + more)[..|ds|] == ds;
      assert more[..0] == [];
      assert Blocks(more) == Blocks([]) + more[0] + "\n\n";
      assert Blocks(ds) + more[0] + "\n\n" == Blocks(ds) + ("" + more[0] + "\n\n");
    }
  }

  /** A describable step adds the block of its description. */
  lemma StepTextDescribable(step: Value)
    requires Describable(step)
    ensures StepText(step) == Ok(Blocks(DescriptionOf(step)))
  {
    if "description" in Keys(step.fields) {
      var d := Lookup(step, "description").value.s;
      StepTextOfDescription(step, d);
      assert DescriptionOf(step) == [d];
      assert [d][..0] == [];
      assert Blocks([d]) == "" + d + "\n\n" == d + "\n\n";
    } else {
      StepTextOfDescription(step, "");
      assert DescriptionOf(step) == [];
    }
  }

  /**
   * Dict steps whose descriptions are strings give their present
   * descriptions, each followed by a blank line.
   */
  lemma {:induction false} SolutionTextOfDescriptions(steps: seq<Value>)
    requires forall k :: 0 <= k < |steps| ==> Describable(steps[k])
    ensures SolutionText(steps) == Ok(Blocks(Descriptions(steps)))
  {
    if steps != [] {
      var n := |steps| - 1;
      var init, last := steps[..n], steps[n];
      assert steps == init + [last];
      assert forall k :: 0 <= k < |init| ==> init[k] == steps[k];
      SolutionTextOfDescriptions(init);
      StepTextDescribable(last);
      SolutionTextSnoc(init, last);
      DescriptionsSnoc(init, last);
      BlocksSnoc(Descriptions(init), DescriptionOf(last));
    }
  }

  /** A step the solution stage builds from a line adds that line followed by a blank line. */
  lemma StepRecordText(n: int, d: string)
    ensures Describable(SolutionGenerator.StepRecord(n, Str(d)))
    ensures StepText(SolutionGenerator.StepRecord(n, Str(d))) == Ok(d + "\n\n")
  {
    SolutionGenerator.StepRecordFields(n, Str(d));
    StepTextOfDescription(SolutionGenerator.StepRecord(n, Str(d)), d);
  }

  /**
   * A step with a string description adds it followed by a blank line; a
   * dict step without one adds nothing; a dict step whose description is not
   * a string raises.
   */
  lemma StepTextOfDescription(step: Value, d: string)
    ensures Lookup(step, "description") == Ok(Str(d)) ==> StepText(step) == Ok(d + "\n\n")
    ensures step.Obj? && "description" !in Keys(step.fields) ==> StepText(step) == Ok("")
    ensures step.Obj? && "description" in Keys(step.fields) && !Lookup(step, "description").value.Str? ==>
      StepText(step).Raise?
  {
  }

  /** `'solution' in problem and isinstance(problem['solution'], dict) and 'steps' in problem['solution']`. */
  predicate HasSolutionSteps(problem: Value)
    requires problem.Obj?
  {
    "solution" in Keys(problem.fields) && Lookup(problem, "solution").value.Obj?
    && "steps" in Keys(Lookup(problem, "solution").value.fields)
  }

  /** The problem the pipeline is built with: the text, and the stripped solution text when there are steps. */
  function StarProblem(problem: Value): Result<Value>
    requires problem.Obj?
  {
    var text :- Lookup(problem, "problem");
    if HasSolutionSteps(problem) then
      var steps :- Iterate(Lookup(Lookup(problem, "solution").value, "steps").value);
      var solution :- SolutionText(steps);
      Ok(Obj([("problem", text), ("solution", Str(Strip(solution)))]))
    else Ok(Obj([("problem", text)]))
  }

  /**
   * How a call ended: the record it returned, or the state the problem was
   * left in when it raised (the pipeline path changes the problem in place).
   */
  datatype Outcome = Returned(record: Value) | RaisedAt(state: Value)

  /** The metadata every pipeline result adds. */
  function MarkPipeline(problem: Value, item: Value): Value
    requires problem.Obj? && item.Obj?
  {
    Set(Set(Set(problem, "improvement_history", GetOr(item, "history", Arr([])).value),
            "quality_score", GetOr(item, "score", Float(0.0)).value), "improved", Bool(true))
  }

  /**
   * Folding the pipeline's first item into the problem.  The right-hand side
   * `improved_item['trace']` is evaluated after an empty solution dict may
   * have been added, and writing into a solution that is not a dict raises.
   */
  function FoldItem(problem: Value, item: Value): Outcome
    requires problem.Obj?
  {
    match HasIn("trace", item)
    case Raise => RaisedAt(problem)
    case Ok(hasTrace) =>
      if hasTrace then
        var withSolution := if "solution" in Keys(problem.fields) then problem else Set(problem, "solution", Obj([]));
        match Lookup(item, "trace")
        case Raise => RaisedAt(withSolution)
        case Ok(trace) =>
          var solution := Lookup(withSolution, "solution").value;
          if !solution.Obj? then RaisedAt(withSolution)
          else
            var s := Set(Set(Set(solution, "improved_trace", trace),
                             "improvement_iterations", GetOr(item, "iteration", Int(0)).value),
                         "final_scores", GetOr(item, "scores", Obj([])).value);
            Returned(MarkPipeline(Set(withSolution, "solution", s), item))
      else if !item.Obj? then RaisedAt(problem)
      else Returned(MarkPipeline(problem, item))
  }

  /** `_improve_with_pipeline`. */
  function ImproveWithPipeline(problem: Value, pipeline: Value -> Result<seq<Value>>): Outcome
    requires problem.Obj?
  {
    match StarProblem(problem)
    case Raise => RaisedAt(problem)
    case Ok(star) =>
      match pipeline(star)
      case Raise => RaisedAt(problem)
      case Ok(data) => if data == [] then Returned(problem) else FoldItem(problem, data[0])
  }

  /**
   * A pipeline result is marked improved, unless the pipeline produced
   * nothing and the problem comes back as it was; whatever it leaves behind
   * is still a dict.
   */
  lemma PipelineOutcome(problem: Value, pipeline: Value -> Result<seq<Value>>)
    requires problem.Obj?
    ensures ImproveWithPipeline(problem, pipeline).Returned? ==>
      || Lookup(ImproveWithPipeline(problem, pipeline).record, "improved") == Ok(Bool(true))
      || ImproveWithPipeline(problem, pipeline).record == problem
    ensures ImproveWithPipeline(problem, pipeline).RaisedAt? ==> ImproveWithPipeline(problem, pipeline).state.Obj?
  {
  }

  // ---------------------------------------------------------------------
  // improve_problem, improve_problems

  /**
   * `improve_problem`: the pipeline, and on any exception the direct loop on
   * the problem as the pipeline left it.
   */
  function ImproveProblem(parse: Parser, agents: Agents, t: Thresholds, max: int, problem: Value): Outcome
    requires problem.Obj?
  {
    match ImproveWithPipeline(problem, agents.pipeline)
    case Returned(r) => Returned(r)
    case RaisedAt(state) =>
      PipelineOutcome(problem, agents.pipeline);
      match DirectFrom(Evaluations(parse, agents), agents.improve, t, max, state, [])
      case Ok(r) => Returned(r)
      case Raise => RaisedAt(state)
  }

  /** The record the loop keeps for one problem: improved, or flagged as not improved. */
  function ImprovedRecord(parse: Parser, agents: Agents, t: Thresholds, max: int, problem: Value): Value
    requires problem.Obj?
  {
    match ImproveProblem(parse, agents, t, max, problem)
    case Returned(r) => r
    case RaisedAt(state) =>
      PipelineOutcome(problem, agents.pipeline);
      Set(state, "improved", Bool(false))
  }

  /**
   * A record whose improvement raised is flagged `improved = False`; one the
   * direct loop produced is flagged `True`.
   */
  lemma ImprovedFlag(parse: Parser, agents: Agents, t: Thresholds, max: int, problem: Value)
    requires problem.Obj?
    ensures ImproveProblem(parse, agents, t, max, problem).RaisedAt? ==>
      Lookup(ImprovedRecord(parse, agents, t, max, problem), "improved") == Ok(Bool(false))
    ensures ImproveWithPipeline(problem, agents.pipeline).RaisedAt? && ImproveProblem(parse, agents, t, max, problem).Returned? ==>
      Lookup(ImprovedRecord(parse, agents, t, max, problem), "improved") == Ok(Bool(true))
  {
    PipelineOutcome(problem, agents.pipeline);
    var p := ImproveWithPipeline(problem, agents.pipeline);
    if p.RaisedAt? {
      ImproveDirectSpec(Evaluations(parse, agents), agents.improve, t, max, p.state);
    }
  }

  /** The record of every problem that is a dict (`Null` stands in for the others). */
  function ImproveAll(parse: Parser, agents: nat -> Agents, t: Thresholds, max: int, problems: seq<Value>): (r: seq<Value>)
    ensures |r| == |problems|
    ensures forall k :: 0 <= k < |problems| && problems[k].Obj? ==> r[k] == ImprovedRecord(parse, agents(k), t, max, problems[k])
  {
    seq(|problems|, k requires 0 <= k < |problems| =>
      if problems[k].Obj? then ImprovedRecord(parse, agents(k), t, max, problems[k]) else Null)
  }

  /**
   * What `improve_problems` returns; the progress log reads
   * `problem.get('id', i + 1)` before the `try`, so a problem that is not a
   * dict ends the loop with `AttributeError`.
   */
  function Improved(parse: Parser, agents: nat -> Agents, t: Thresholds, max: int, problems: seq<Value>): (r: Result<seq<Value>>)
    ensures r.Ok? <==> forall k :: 0 <= k < |problems| ==> problems[k].Obj?
    ensures r.Ok? ==> |r.value| == |problems|
  {
    if forall k :: 0 <= k < |problems| ==> problems[k].Obj? then Ok(ImproveAll(parse, agents, t, max, problems))
    else Raise
  }

  /** `improve_problems`: one record per problem, in order. */
  method ImproveProblems(parse: Parser, agents: nat -> Agents, t: Thresholds, maxIterations: int, problems: seq<Value>)
    returns (r: Result<seq<Value>>)
    ensures r == Improved(parse, agents, t, maxIterations, problems)
  {
    ghost var records := ImproveAll(parse, agents, t, maxIterations, problems);
    var improved: seq<Value> := [];
    for i := 0 to |problems|
      invariant improved == records[..i]
      invariant forall k :: 0 <= k < i ==> problems[k].Obj?
    {
      if !problems[i].Obj? {
        return Raise;
      }
      assert forall k :: 0 <= k < i + 1 ==> problems[k].Obj?;
      var record := ImprovedRecord(parse, agents(i), t, maxIterations, problems[i]);
      assert records[i] == record;
      assert records[..i + 1] == records[..i] + [records[i]];
      improved := improved + [record];
    }
    assert records[..|problems|] == records;
    return Ok(improved);
  }
}
