/**
 * Stage 3: a solution for every problem.  A problem with an answer is first
 * solved by the chain-of-thought generator; otherwise, or when that raises,
 * the generator agent is asked directly and its reply parsed, falling back
 * to one step per non-blank line when the reply is not JSON.
 */
module SolutionGenerator {
  import opened Outcomes
  import opened Dicts
  import opened Json
  import opened Text
  import opened Agent

  // ---------------------------------------------------------------------
  // _parse_solution_response

  /** A solution step: its number, its description and an empty result. */
  function StepRecord(n: int, description: Value): Value
  {
    Obj([("step", Int(n)), ("description", description), ("result", Str(""))])
  }

  /** A step's number, description and result are what it was built from. */
  lemma StepRecordFields(n: int, description: Value)
    ensures Lookup(StepRecord(n, description), "step") == Ok(Int(n))
    ensures Lookup(StepRecord(n, description), "description") == Ok(description)
    ensures Lookup(StepRecord(n, description), "result") == Ok(Str(""))
  {
    Lookup3("step", Int(n), "description", description, "result", Str(""));
  }

  /** Every line stripped, as `line.strip()` gives it. */
  function StrippedLines(lines: seq<string>): (r: seq<string>)
    ensures |r| == |lines| && forall i :: 0 <= i < |lines| ==> r[i] == Strip(lines[i])
  {
    seq(|lines|, i requires 0 <= i < |lines| => Strip(lines[i]))
  }

  /**
   * The steps of the stripped lines: one per nonempty line, numbered by the
   * line's position (1-based), described by the line.
   */
  function StepsOf(stripped: seq<string>): seq<Value>
  {
    if stripped == [] then []
    else
      var last := |stripped| - 1;
      var earlier := StepsOf(stripped[..last]);
      if stripped[last] != [] then earlier + [StepRecord(last + 1, Str(stripped[last]))] else earlier
  }

  /** The positions of the nonempty stripped lines, in order. */
  function Positions(stripped: seq<string>): (r: seq<nat>)
    ensures forall k :: 0 <= k < |r| ==> r[k] < |stripped| && stripped[r[k]] != []
  {
    if stripped == [] then []
    else
      var last := |stripped| - 1;
      if stripped[last] != [] then Positions(stripped[..last]) + [last] else Positions(stripped[..last])
  }

  /** Step k comes from the k-th nonempty stripped line. */
  lemma {:induction false} StepsOfSpec(stripped: seq<string>)
    ensures |StepsOf(stripped)| == |Positions(stripped)|
    ensures forall k :: 0 <= k < |StepsOf(stripped)| ==>
      StepsOf(stripped)[k] == StepRecord(Positions(stripped)[k] + 1, Str(stripped[Positions(stripped)[k]]))
  {
    if stripped != [] {
      var last := |stripped| - 1;
      var init := stripped[..last];
      StepsOfSpec(init);
      var steps, positions := StepsOf(stripped), Positions(stripped);
      var earlier, found := StepsOf(init), Positions(init);
      if stripped[last] != [] {
        assert steps == earlier + [StepRecord(last + 1, Str(stripped[last]))];
        assert positions == found + [last];
      } else {
        assert steps == earlier && positions == found;
      }
      forall k | 0 <= k < |earlier|
        ensures steps[k] == StepRecord(positions[k] + 1, Str(stripped[positions[k]]))
      {
        assert steps[k] == earlier[k] && positions[k] == found[k];
        assert init[found[k]] == stripped[found[k]];
      }
    }
  }

  /** Every nonempty stripped line has its position listed, and the positions increase. */
  lemma {:induction false} PositionsComplete(stripped: seq<string>)
    ensures forall i :: 0 <= i < |stripped| && stripped[i] != [] ==> i in Positions(stripped)
    ensures forall k, l :: 0 <= k < l < |Positions(stripped)| ==> Positions(stripped)[k] < Positions(stripped)[l]
  {
    if stripped != [] {
      var last := |stripped| - 1;
      PositionsComplete(stripped[..last]);
      assert forall i :: 0 <= i < last ==> stripped[..last][i] == stripped[i];
    }
  }

  /** The line-mode steps: the steps of the stripped lines. */
  function LineSteps(lines: seq<string>): seq<Value>
  {
    StepsOf(StrippedLines(lines))
  }

  /** The positions of the non-blank lines, in order. */
  function NonBlank(lines: seq<string>): (r: seq<nat>)
    ensures forall k :: 0 <= k < |r| ==> r[k] < |lines| && Strip(lines[r[k]]) != []
  {
    Positions(StrippedLines(lines))
  }

  /** Every non-blank line has its position listed, and the positions increase. */
  lemma NonBlankComplete(lines: seq<string>)
    ensures forall i :: 0 <= i < |lines| && Strip(lines[i]) != [] ==> i in NonBlank(lines)
    ensures forall k, l :: 0 <= k < l < |NonBlank(lines)| ==> NonBlank(lines)[k] < NonBlank(lines)[l]
  {
    PositionsComplete(StrippedLines(lines));
  }

  /**
   * Step k of the line mode comes from the k-th non-blank line: numbered by
   * that line's position plus one, described by the stripped line.
   */
  lemma LineStepsSpec(lines: seq<string>)
    ensures |LineSteps(lines)| == |NonBlank(lines)|
    ensures forall k :: 0 <= k < |LineSteps(lines)| ==>
      LineSteps(lines)[k] == StepRecord(NonBlank(lines)[k] + 1, Str(Strip(lines[NonBlank(lines)[k]])))
  {
    StepsOfSpec(StrippedLines(lines));
  }

  /** The line loop of `_parse_solution_response`. */
  method FallbackSteps(lines: seq<string>) returns (steps: seq<Value>)
    ensures steps == LineSteps(lines)
  {
    ghost var stripped := StrippedLines(lines);
    steps := [];
    for i := 0 to |lines|
      invariant steps == StepsOf(stripped[..i])
    {
      assert stripped[..i + 1][..i] == stripped[..i];
      var description := Strip(lines[i]);
      if description != [] {
        steps := steps + [StepRecord(i + 1, Str(description))];
      }
    }
    assert stripped[..|lines|] == stripped;
  }

  /** The record of the line mode: the steps, answer 0 and no insights. */
  function LineRecord(unfenced: string): Value
  {
    Obj([("steps", Arr(LineSteps(SplitLines(unfenced)))), ("final_answer", Int(0)), ("key_insights", Arr([]))])
  }

  /** The line record carries the line steps, a zero answer and no key insights. */
  lemma LineRecordFields(unfenced: string)
    ensures Lookup(LineRecord(unfenced), "steps") == Ok(Arr(LineSteps(SplitLines(unfenced))))
    ensures Lookup(LineRecord(unfenced), "final_answer") == Ok(Int(0))
    ensures Lookup(LineRecord(unfenced), "key_insights") == Ok(Arr([]))
  {
    Lookup3("steps", Arr(LineSteps(SplitLines(unfenced))), "final_answer", Int(0), "key_insights", Arr([]));
  }

  /**
   * `_parse_solution_response`: after the fence substitutions the stripped
   * text is parsed (no backslash repair here); if it is not JSON, the
   * substituted text is cut into lines.
   */
  function ParseSolutionResponse(parse: Parser, text: string): Value
  {
    var unfenced := StripClosingFence(StripOpenFences(text));
    match parse(Strip(unfenced))
    case Some(v) => v
    case None => LineRecord(unfenced)
  }

  /**
   * A reply that is not JSON becomes the line record of its fence-stripped
   * text: one step per non-blank line.
   */
  lemma ParseSolutionFallback(parse: Parser, text: string)
    requires parse(Clean(text)).None?
    ensures ParseSolutionResponse(parse, text) == LineRecord(StripClosingFence(StripOpenFences(text)))
    ensures |LineSteps(SplitLines(StripClosingFence(StripOpenFences(text))))|
         == |NonBlank(SplitLines(StripClosingFence(StripOpenFences(text))))|
  {
    LineStepsSpec(SplitLines(StripClosingFence(StripOpenFences(text))));
  }

  // ---------------------------------------------------------------------
  // _extract_steps_from_tree

  /**
   * `_extract_steps_from_tree`.  `show` is `str()` of the tree, used only
   * for a tree that is neither kind of dict.
   */
  function ExtractStepsFromTree(tree: Value, show: Value -> string): Value
  {
    if tree.Obj? && "steps" in Keys(tree.fields) then Lookup(tree, "steps").value
    else if tree.Obj? && "reasoning" in Keys(tree.fields) then Arr([StepRecord(1, Lookup(tree, "reasoning").value)])
    else Arr([StepRecord(1, Str(show(tree)))])
  }

  /**
   * A tree's own steps win over its reasoning; reasoning alone gives one
   * step numbered 1; any other tree gives one step numbered 1 describing it.
   */
  lemma ExtractStepsCases(tree: Value, show: Value -> string)
    ensures Lookup(tree, "steps").Ok? ==> ExtractStepsFromTree(tree, show) == Lookup(tree, "steps").value
    ensures Lookup(tree, "steps").Raise? ==>
      && ExtractStepsFromTree(tree, show).Arr?
      && |ExtractStepsFromTree(tree, show).items| == 1
      && Lookup(ExtractStepsFromTree(tree, show).items[0], "step") == Ok(Int(1))
    ensures Lookup(tree, "steps").Raise? && Lookup(tree, "reasoning").Ok? ==>
      Lookup(ExtractStepsFromTree(tree, show).items[0], "description") == Lookup(tree, "reasoning")
  {
    if tree.Obj? && "reasoning" in Keys(tree.fields) {
      StepRecordFields(1, Lookup(tree, "reasoning").value);
    }
    StepRecordFields(1, Str(show(tree)));
  }

  // ---------------------------------------------------------------------
  // _generate_with_cot, _generate_direct

  /** `type(v).__name__`. */
  function TypeName(v: Value): string
  {
    match v
    case Null => "NoneType"
    case Bool(_) => "bool"
    case Int(_) => "int"
    case Float(_) => "float"
    case Str(_) => "str"
    case Arr(_) => "list"
    case Obj(_) => "dict"
  }

  /** The `TypeError` message of `v['method'] = ...` on a parsed value that is not a dict. */
  function ItemAssignmentError(v: Value): string
  {
    if v.Arr? then "list indices must be integers or slices, not str"
    else "'" + TypeName(v) + "' object does not support item assignment"
  }

  /** The record of a failed direct generation. */
  function FailedRecord(problem: Value, error: string): Value
    requires problem.Obj?
  {
    Obj([("method", Str("failed")), ("steps", Arr([])),
         ("final_answer", GetOr(problem, "answer", Int(0)).value), ("error", Str(error))])
  }

  /**
   * A failed generation records method "failed", no steps, the problem's
   * answer (0 when it has none) and the error text.
   */
  lemma FailedRecordFields(problem: Value, error: string)
    requires problem.Obj?
    ensures Lookup(FailedRecord(problem, error), "method") == Ok(Str("failed"))
    ensures Lookup(FailedRecord(problem, error), "steps") == Ok(Arr([]))
    ensures Lookup(FailedRecord(problem, error), "final_answer")
         == (if "answer" in Keys(problem.fields) then Lookup(problem, "answer") else Ok(Int(0)))
    ensures Lookup(FailedRecord(problem, error), "error") == Ok(Str(error))
  {
    Lookup4("method", Str("failed"), "steps", Arr([]),
            "final_answer", GetOr(problem, "answer", Int(0)).value, "error", Str(error));
  }

  /**
   * `_generate_direct`: the agent's reply parsed as a solution and marked
   * direct and unverified; a failed call, or a parsed value that is not a
   * dict, gives the failed record with the exception's text.
   */
  function GenerateDirect(parse: Parser, problem: Value, reply: Reply): (r: Value)
    requires problem.Obj?
    ensures r.Obj?
  {
    match reply
    case AgentFailed(message) => FailedRecord(problem, message)
    case Replied(t) =>
      var data := ParseSolutionResponse(parse, t);
      if data.Obj? then Set(Set(data, "method", Str("direct")), "verified", Bool(false))
      else FailedRecord(problem, ItemAssignmentError(data))
  }

  /** A direct solution is either marked direct and unverified, or is the failed record. */
  lemma GenerateDirectShape(parse: Parser, problem: Value, reply: Reply)
    requires problem.Obj?
    ensures var r := GenerateDirect(parse, problem, reply);
      || (Lookup(r, "method") == Ok(Str("direct")) && Lookup(r, "verified") == Ok(Bool(false)))
      || r == FailedRecord(problem, if reply.AgentFailed? then reply.message
                                     else ItemAssignmentError(ParseSolutionResponse(parse, reply.text)))
  {
  }

  /** The record the chain-of-thought generator's tree becomes. */
  function CotRecord(steps: Value, answer: Value): Value
  {
    Obj([("method", Str("cot_mcts")), ("steps", steps), ("final_answer", answer), ("verified", Bool(true))])
  }

  /** A chain-of-thought record is marked cot_mcts and verified and carries the given answer. */
  lemma CotRecordFields(steps: Value, answer: Value)
    ensures Lookup(CotRecord(steps, answer), "method") == Ok(Str("cot_mcts"))
    ensures Lookup(CotRecord(steps, answer), "steps") == Ok(steps)
    ensures Lookup(CotRecord(steps, answer), "final_answer") == Ok(answer)
    ensures Lookup(CotRecord(steps, answer), "verified") == Ok(Bool(true))
  {
    Lookup4("method", Str("cot_mcts"), "steps", steps, "final_answer", answer, "verified", Bool(true));
  }

  /**
   * `_generate_with_cot`.  The problem text becomes a dict key, so an
   * unhashable text raises; `solved` is what the generator's `solve` gave
   * (or its exception).
   */
  function GenerateWithCot(problem: Value, solved: Result<Value>, show: Value -> string): Result<Value>
    requires Lookup(problem, "problem").Ok? && Lookup(problem, "answer").Ok?
  {
    if !Hashable(Lookup(problem, "problem").value) then Raise
    else
      var tree :- solved;
      Ok(CotRecord(ExtractStepsFromTree(tree, show), Lookup(problem, "answer").value))
  }

  // ---------------------------------------------------------------------
  // generate_solution

  /** `'answer' in problem and problem['answer'] is not None`. */
  predicate HasAnswer(problem: Value)
    requires problem.Obj?
  {
    "answer" in Keys(problem.fields) && Lookup(problem, "answer").value != Null
  }

  /** The solution chosen for a problem: chain of thought when it has an answer and that works. */
  function Solution(parse: Parser, problem: Value, solved: Result<Value>, reply: Reply,
                    show: Value -> string): Value
    requires Lookup(problem, "problem").Ok?
  {
    if HasAnswer(problem) then
      match GenerateWithCot(problem, solved, show)
      case Ok(s) => s
      case Raise => GenerateDirect(parse, problem, reply)
    else GenerateDirect(parse, problem, reply)
  }

  /**
   * `generate_solution`: the problem with its solution and `has_solution`
   * set; a problem without a `problem` entry raises.
   */
  function GenerateSolution(parse: Parser, problem: Value, solved: Result<Value>, reply: Reply,
                            show: Value -> string): (r: Result<Value>)
    ensures r.Ok? <==> Lookup(problem, "problem").Ok?
  {
    var _ :- Lookup(problem, "problem");
    Ok(Set(Set(problem, "solution", Solution(parse, problem, solved, reply, show)), "has_solution", Bool(true)))
  }

  /**
   * Chain of thought is used only for a problem with a non-None answer, and
   * when it is used the solution carries that answer and is verified;
   * otherwise, and also when chain of thought raises, the solution comes
   * from the direct path.
   */
  lemma SolutionSource(parse: Parser, problem: Value, solved: Result<Value>, reply: Reply,
                       show: Value -> string)
    requires Lookup(problem, "problem").Ok?
    ensures !HasAnswer(problem) ==> Solution(parse, problem, solved, reply, show) == GenerateDirect(parse, problem, reply)
    ensures HasAnswer(problem) && !(Hashable(Lookup(problem, "problem").value) && solved.Ok?) ==>
      Solution(parse, problem, solved, reply, show) == GenerateDirect(parse, problem, reply)
    ensures HasAnswer(problem) && Hashable(Lookup(problem, "problem").value) && solved.Ok? ==>
      && Lookup(Solution(parse, problem, solved, reply, show), "method") == Ok(Str("cot_mcts"))
      && Lookup(Solution(parse, problem, solved, reply, show), "final_answer") == Lookup(problem, "answer")
      && Lookup(Solution(parse, problem, solved, reply, show), "verified") == Ok(Bool(true))
  {
    if HasAnswer(problem) && Hashable(Lookup(problem, "problem").value) && solved.Ok? {
      CotRecordFields(ExtractStepsFromTree(solved.value, show), Lookup(problem, "answer").value);
    }
  }

  // ---------------------------------------------------------------------
  // generate_solutions

  /** The record of problem `i` in the loop: solved, or marked as without solution. */
  function SolveOne(parse: Parser, problem: Value, solved: Result<Value>, reply: Reply,
                    show: Value -> string): (r: Value)
    requires problem.Obj?
    ensures r.Obj?
  {
    match GenerateSolution(parse, problem, solved, reply, show)
    case Ok(r) => r
    case Raise => Set(Set(problem, "solution", Null), "has_solution", Bool(false))
  }

  /**
   * A solved record keeps every other entry of the problem; it has a
   * solution exactly when the problem has a `problem` entry.
   */
  lemma SolveOneKeeps(parse: Parser, problem: Value, solved: Result<Value>, reply: Reply,
                      show: Value -> string)
    requires problem.Obj?
    ensures var r := SolveOne(parse, problem, solved, reply, show);
      && Lookup(r, "has_solution") == Ok(Bool("problem" in Keys(problem.fields)))
      && ("problem" !in Keys(problem.fields) ==> Lookup(r, "solution") == Ok(Null))
      && forall k :: k != "solution" && k != "has_solution" ==> Get(r.fields, k) == Get(problem.fields, k)
  {
  }

  /** The record of every problem that is a dict (`Null` stands in for the others). */
  function SolveAll(parse: Parser, problems: seq<Value>, solved: nat -> Result<Value>, reply: nat -> Reply,
                    show: Value -> string): (r: seq<Value>)
    ensures |r| == |problems|
    ensures forall k :: 0 <= k < |problems| && problems[k].Obj? ==> r[k] == SolveOne(parse, problems[k], solved(k), reply(k), show)
  {
    seq(|problems|, k requires 0 <= k < |problems| =>
      if problems[k].Obj? then SolveOne(parse, problems[k], solved(k), reply(k), show) else Null)
  }

  /**
   * What `generate_solutions` returns; `solved(i)` and `reply(i)` are the
   * generator's results for problem `i`.  The progress log reads
   * `problem.get('id', i + 1)` before the `try`, so a problem that is not a
   * dict ends the whole loop with `AttributeError`.
   */
  function Solved(parse: Parser, problems: seq<Value>, solved: nat -> Result<Value>, reply: nat -> Reply,
                  show: Value -> string): (r: Result<seq<Value>>)
    ensures r.Ok? <==> forall k :: 0 <= k < |problems| ==> problems[k].Obj?
    ensures r.Ok? ==> |r.value| == |problems|
  {
    if forall k :: 0 <= k < |problems| ==> problems[k].Obj? then Ok(SolveAll(parse, problems, solved, reply, show))
    else Raise
  }

  lemma SnocSlice<T>(s: seq<T>, i: nat)
    requires i < |s|
    ensures s[..i + 1] == s[..i] + [s[i]]
  {
  }

  /** `generate_solutions`: one record per problem, in order, or the exception. */
  method GenerateSolutions(parse: Parser, problems: seq<Value>, solved: nat -> Result<Value>,
                           reply: nat -> Reply, show: Value -> string) returns (r: Result<seq<Value>>)
    ensures r == Solved(parse, problems, solved, reply, show)
  {
    ghost var records := SolveAll(parse, problems, solved, reply, show);
    var withSolutions: seq<Value> := [];
    for i := 0 to |problems|
      invariant withSolutions == records[..i]
      invariant forall k :: 0 <= k < i ==> problems[k].Obj?
    {
      if !problems[i].Obj? {
        return Raise;
      }
      assert forall k :: 0 <= k < i + 1 ==> problems[k].Obj?;
      var record := SolveOne(parse, problems[i], solved(i), reply(i), show);
      assert records[i] == record;
      SnocSlice(records, i);
      withSolutions := withSolutions + [record];
    }
    assert records[..|problems|] == records;
    return Ok(withSolutions);
  }

  /** `sum(1 for p in records if p.get('has_solution', False))`. */
  function SuccessCount(records: seq<Value>): nat
  {
    if records == [] then 0
    else
      var last := records[|records| - 1];
      SuccessCount(records[..|records| - 1])
      + (if last.Obj? && Get(last.fields, "has_solution").Some? && Truthy(Get(last.fields, "has_solution").value) then 1 else 0)
  }

  /** At most every record is a success. */
  lemma {:induction false} SuccessCountBound(records: seq<Value>)
    ensures SuccessCount(records) <= |records|
  {
    if records != [] {
      SuccessCountBound(records[..|records| - 1]);
    }
  }

  /** The problems that have a `problem` entry. */
  function WithText(problems: seq<Value>): nat
  {
    if problems == [] then 0
    else
      WithText(problems[..|problems| - 1])
      + (if Lookup(problems[|problems| - 1], "problem").Ok? then 1 else 0)
  }

  /** Counting agrees when the records succeed exactly where the problems have a text. */
  lemma {:induction false} SuccessCountMatches(records: seq<Value>, problems: seq<Value>)
    requires |records| == |problems|
    requires forall k :: 0 <= k < |records| ==>
      (records[k].Obj? && Get(records[k].fields, "has_solution").Some? && Truthy(Get(records[k].fields, "has_solution").value))
      == Lookup(problems[k], "problem").Ok?
    ensures SuccessCount(records) == WithText(problems)
  {
    if records != [] {
      var n := |records| - 1;
      SuccessCountMatches(records[..n], problems[..n]);
    }
  }

  /**
   * The success count after the loop is the number of problems that had a
   * `problem` entry, and so at most the number of problems.
   */
  lemma SuccessCountSolved(parse: Parser, problems: seq<Value>, solved: nat -> Result<Value>,
                           reply: nat -> Reply, show: Value -> string)
    requires Solved(parse, problems, solved, reply, show).Ok?
    ensures SuccessCount(Solved(parse, problems, solved, reply, show).value) == WithText(problems)
    ensures WithText(problems) <= |problems|
  {
    var out := Solved(parse, problems, solved, reply, show).value;
    forall k | 0 <= k < |problems|
      ensures (out[k].Obj? && Get(out[k].fields, "has_solution").Some? && Truthy(Get(out[k].fields, "has_solution").value))
              == Lookup(problems[k], "problem").Ok?
    {
      SolveOneKeeps(parse, problems[k], solved(k), reply(k), show);
    }
    SuccessCountMatches(out, problems);
    SuccessCountBound(out);
  }
}
