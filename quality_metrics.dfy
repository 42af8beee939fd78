/**
 * The counting part of the quality metrics over the final problem list:
 * the basic statistics (solutions, improvements, lengths, steps), the word
 * counts of the diversity metrics, the AIME-range count of the difficulties
 * and the validity and range buckets of the answers.  The floating-point
 * statistics (TF-IDF similarity, numpy mean, median and deviation, topic
 * entropy) are not modelled; whether the TF-IDF fit succeeds is a parameter.
 */
module QualityMetrics {
  import opened Outcomes
  import opened Json
  import opened Text

  /** `sum(1 for p in ps if test(p))`; a test that raises makes the sum raise. */
  function CountWhere(ps: seq<Value>, test: Value -> Result<bool>): (r: Result<nat>)
    ensures r.Ok? <==> forall i :: 0 <= i < |ps| ==> test(ps[i]).Ok?
    ensures r.Ok? ==> r.value <= |ps|
  {
    if ps == [] then Ok(0)
    else
      var hit :- test(ps[0]);
      var rest :- CountWhere(ps[1..], test);
      assert forall i :: 1 <= i < |ps| ==> ps[i] == ps[1..][i - 1];
      Ok(if hit then rest + 1 else rest)
  }

  /** `sum(f(p) for p in ps)`, added record by record; an `f` that raises makes the sum raise. */
  function SumOf(ps: seq<Value>, f: Value -> Result<nat>): Result<nat>
  {
    if ps == [] then Ok(0)
    else
      var total :- SumOf(ps[..|ps| - 1], f);
      var n :- f(ps[|ps| - 1]);
      Ok(total + n)
  }

  /** A sum raises when any one term raises. */
  lemma {:induction false} SumOfRaises(ps: seq<Value>, f: Value -> Result<nat>, i: nat)
    requires i < |ps| && f(ps[i]).Raise?
    ensures SumOf(ps, f).Raise?
  {
    if i < |ps| - 1 {
      SumOfRaises(ps[..|ps| - 1], f, i);
    }
  }

  /** Once the sum of a prefix raises, the sum of the whole list raises. */
  lemma {:induction false} SumOfRaiseSticks(ps: seq<Value>, f: Value -> Result<nat>, n: nat)
    requires n <= |ps| && SumOf(ps[..n], f).Raise?
    ensures SumOf(ps, f).Raise?
    decreases |ps| - n
  {
    if n < |ps| {
      assert ps[..n + 1][..n] == ps[..n];
      SumOfRaiseSticks(ps, f, n + 1);
    } else {
      assert ps[..n] == ps;
    }
  }

  // ---------------------------------------------------------------------------
  // Basic statistics
  // ---------------------------------------------------------------------------

  /** `'solution' in p and p['solution']`: a list or string holding "solution" gets as far as `p['solution']` and raises. */
  function HasSolution(p: Value): (r: Result<bool>)
    ensures p.Obj? ==> r.Ok? && (r.value <==> Lookup(p, "solution").Ok? && Truthy(Lookup(p, "solution").value))
  {
    var present :- HasIn("solution", p);
    if !present then Ok(false)
    else
      var s :- Lookup(p, "solution");
      Ok(Truthy(s))
  }

  /** `p.get('improved', False)`, as a condition. */
  function IsImproved(p: Value): (r: Result<bool>)
    ensures r.Ok? <==> p.Obj?
  {
    var v :- GetOr(p, "improved", Bool(false));
    Ok(Truthy(v))
  }

  /** `len(p.get('problem', ''))`. */
  function ProblemLength(p: Value): Result<nat>
  {
    var text :- GetOr(p, "problem", Str(""));
    Length(text)
  }

  /**
   * The steps of one record in the step total: records without a `solution`,
   * or whose solution has no `steps`, add nothing; `'steps' in p['solution']`
   * raises for a solution that is `None` or a number.
   */
  function StepCount(p: Value): Result<nat>
  {
    var present :- HasIn("solution", p);
    if !present then Ok(0)
    else
      var solution :- Lookup(p, "solution");
      var hasSteps :- HasIn("steps", solution);
      if !hasSteps then Ok(0)
      else
        var steps :- GetOr(solution, "steps", Arr([]));
        Length(steps)
  }

  /** The step total, as the generator expression adds it up. */
  method SumSteps(ps: seq<Value>) returns (r: Result<nat>)
    ensures r == SumOf(ps, StepCount)
  {
    var total := 0;
    for i := 0 to |ps|
      invariant SumOf(ps[..i], StepCount) == Ok(total)
    {
      assert ps[..i + 1][..i] == ps[..i];
      var n := StepCount(ps[i]);
      if n.Raise? {
        SumOfRaiseSticks(ps, StepCount, i + 1);
        return Raise;
      }
      total := total + n.value;
    }
    assert ps[..|ps|] == ps;
    return Ok(total);
  }

  datatype BasicStats = BasicStats(total: nat, withSolution: nat, solutionRate: real,
                                   improvedCount: nat, improvementRate: real,
                                   avgProblemLength: Option<real>, avgSolutionSteps: real)

  /** `x / total if total > 0 else 0`. */
  function Rate(x: nat, total: nat): (r: real)
    ensures total == 0 ==> r == 0.0
    ensures x <= total ==> 0.0 <= r <= 1.0
    ensures total > 0 ==> r * (total as real) == x as real
  {
    if total > 0 then x as real / total as real else 0.0
  }

  /** `avg_solution_steps`: the step total over the records with a solution, 0 when there are none. */
  function AvgSolutionSteps(ps: seq<Value>, withSolution: nat): Result<real>
  {
    if withSolution == 0 then Ok(0.0)
    else
      var steps :- SumOf(ps, StepCount);
      Ok(steps as real / withSolution as real)
  }

  /**
   * `get_basic_statistics`: the solution and improvement counts and rates,
   * the mean problem length (NaN, here none, for no problems) and the mean
   * number of steps.
   */
  function BasicStatistics(ps: seq<Value>): (r: Result<BasicStats>)
    ensures r.Ok? ==>
      && r.value.total == |ps|
      && r.value.withSolution <= |ps| && r.value.improvedCount <= |ps|
      && 0.0 <= r.value.solutionRate <= 1.0 && 0.0 <= r.value.improvementRate <= 1.0
      && (ps == [] ==> r.value.solutionRate == 0.0 && r.value.improvementRate == 0.0
                       && r.value.avgProblemLength == None)
  {
    var withSolution :- CountWhere(ps, HasSolution);
    var improved :- CountWhere(ps, IsImproved);
    var lengths :- SumOf(ps, ProblemLength);
    var avgSteps :- AvgSolutionSteps(ps, withSolution);
    Ok(BasicStats(|ps|, withSolution, Rate(withSolution, |ps|), improved, Rate(improved, |ps|),
                  if ps == [] then None else Some(lengths as real / |ps| as real), avgSteps))
  }

  /**
   * A record whose `solution` is `None`, as a failed solution stage leaves
   * it, makes the basic statistics raise as soon as any record has a
   * solution: the step total tests `'steps' in None`.
   */
  lemma NoneSolutionRaises(ps: seq<Value>, i: nat)
    requires i < |ps| && ps[i].Obj? && Lookup(ps[i], "solution") == Ok(Null)
    requires CountWhere(ps, HasSolution).Ok? && CountWhere(ps, HasSolution).value > 0
    ensures BasicStatistics(ps).Raise?
  {
    SumOfRaises(ps, StepCount, i);
  }

  /** The two records of a solved and a failed solution stage. */
  lemma NoneSolutionExample()
    ensures var solved := Obj([("solution", Obj([("steps", Arr([Str("x")]))]))]);
            var failed := Obj([("solution", Null)]);
            CountWhere([solved, failed], HasSolution) == Ok(1) && BasicStatistics([solved, failed]).Raise?
  {
    var solved := Obj([("solution", Obj([("steps", Arr([Str("x")]))]))]);
    var failed := Obj([("solution", Null)]);
    var ps := [solved, failed];
    assert Lookup(solved, "solution") == Ok(solved.fields[0].1);
    assert CountWhere(ps[1..], HasSolution) == Ok(0);
    NoneSolutionRaises(ps, 1);
  }

  // ---------------------------------------------------------------------------
  // Word counts of the diversity metrics
  // ---------------------------------------------------------------------------

  /** A character `\w` matches (ASCII letters, digits and underscore). */
  predicate IsWordChar(c: char)
  {
    'a' <= c <= 'z' || 'A' <= c <= 'Z' || '0' <= c <= '9' || c == '_'
  }

  predicate IsLetter(c: char)
  {
    'a' <= c <= 'z' || 'A' <= c <= 'Z'
  }

  predicate AllLetters(w: string)
  {
    forall i :: 0 <= i < |w| ==> IsLetter(w[i])
  }

  /** The length of the run of word characters that `s` starts with. */
  function RunLength(s: string): (n: nat)
    ensures n <= |s| && forall i :: 0 <= i < n ==> IsWordChar(s[i])
    ensures n < |s| ==> !IsWordChar(s[n])
  {
    if s == [] || !IsWordChar(s[0]) then 0 else 1 + RunLength(s[1..])
  }

  /**
   * `re.findall(r'\b[a-zA-Z]+\b', s)`: a match needs a word boundary on
   * both sides, so the words are the maximal runs of word characters that
   * consist of letters only.
   */
  function Words(s: string): (r: seq<string>)
    ensures forall j :: 0 <= j < |r| ==> r[j] != [] && AllLetters(r[j])
    decreases |s|
  {
    if s == [] then []
    else if !IsWordChar(s[0]) then Words(s[1..])
    else
      var n := RunLength(s);
      (if AllLetters(s[..n]) then [s[..n]] else []) + Words(s[n..])
  }

  /** A word run stops at a separator: the run of `a + [c] + b` is the run of `a`. */
  lemma {:induction false} RunLengthStops(a: string, c: char, b: string)
    requires !IsWordChar(c)
    ensures RunLength(a + [c] + b) == RunLength(a)
  {
    if a != [] && IsWordChar(a[0]) {
      assert (a + [c] + b)[1..] == a[1..] + [c] + b;
      RunLengthStops(a[1..], c, b);
    }
  }

  /** Words never cross a separator: the words of `a`, a non-word character and `b` are those of `a`, then those of `b`. */
  lemma {:induction false} WordsSplit(a: string, c: char, b: string)
    requires !IsWordChar(c)
    ensures Words(a + [c] + b) == Words(a) + Words(b)
    decreases |a|
  {
    var s := a + [c] + b;
    if a == [] {
      assert s == [c] + b && s[1..] == b;
    } else if !IsWordChar(a[0]) {
      assert s[1..] == a[1..] + [c] + b;
      WordsSplit(a[1..], c, b);
    } else {
      var n := RunLength(a);
      RunLengthStops(a, c, b);
      assert s[..n] == a[..n];
      assert s[n..] == a[n..] + [c] + b;
      WordsSplit(a[n..], c, b);
    }
  }

  /** The words of all the texts, each lower-cased first, in order. */
  function AllWords(texts: seq<string>): seq<string>
  {
    if texts == [] then [] else AllWords(texts[..|texts| - 1]) + Words(Lower(texts[|texts| - 1]))
  }

  /** The word loop: `all_words.extend(re.findall(..., text.lower()))` for each text. */
  method CollectWords(texts: seq<string>) returns (all: seq<string>)
    ensures all == AllWords(texts)
  {
    all := [];
    for i := 0 to |texts|
      invariant all == AllWords(texts[..i])
    {
      assert texts[..i + 1][..i] == texts[..i];
      var words := Words(Lower(texts[i]));
      all := all + words;
    }
    assert texts[..|texts|] == texts;
  }

  /** `set(words)`. */
  function Distinct(words: seq<string>): (r: set<string>)
    ensures forall w :: w in r <==> w in words
    ensures |r| <= |words|
  {
    if words == [] then {}
    else
      var rest := Distinct(words[..|words| - 1]);
      assert forall w :: w in words <==> w in words[..|words| - 1] || w == words[|words| - 1];
      rest + {words[|words| - 1]}
  }

  /** The problem texts, `p.get('problem', '')` per record. */
  function ProblemTexts(ps: seq<Value>): (r: Result<seq<Value>>)
    ensures r.Ok? <==> forall i :: 0 <= i < |ps| ==> ps[i].Obj?
    ensures r.Ok? ==> |r.value| == |ps|
  {
    if ps == [] then Ok([])
    else
      var text :- GetOr(ps[0], "problem", Str(""));
      var rest :- ProblemTexts(ps[1..]);
      assert forall i :: 1 <= i < |ps| ==> ps[i] == ps[1..][i - 1];
      Ok([text] + rest)
  }

  /** The texts as strings, none if one of them is not a string. */
  function Strings(texts: seq<Value>): (r: Option<seq<string>>)
    ensures r.Some? <==> forall i :: 0 <= i < |texts| ==> texts[i].Str?
    ensures r.Some? ==> |r.value| == |texts| && forall i :: 0 <= i < |texts| ==> texts[i] == Str(r.value[i])
  {
    if texts == [] then Some([])
    else if !texts[0].Str? then None
    else
      match Strings(texts[1..])
      case None => None
      case Some(rest) => Some([texts[0].s] + rest)
  }

  datatype Diversity =
    | TooFewProblems
    | TfidfFailed
    | Lexical(uniqueWords: nat, totalWords: nat, lexicalDiversity: real)

  /**
   * The word counts of `calculate_diversity_metrics`: fewer than two
   * problems are an error, a TF-IDF fit that raises (it does for a text
   * that is not a string) is an error, and otherwise the distinct and total
   * numbers of words and their ratio.
   */
  function DiversityMetrics(ps: seq<Value>, tfidfSucceeds: bool): (r: Result<Diversity>)
    ensures r.Ok? <==> forall i :: 0 <= i < |ps| ==> ps[i].Obj?
    ensures r.Ok? && |ps| < 2 ==> r.value == TooFewProblems
    ensures r.Ok? && r.value.Lexical? ==>
      && r.value.uniqueWords <= r.value.totalWords
      && (r.value.totalWords == 0 <==> r.value.lexicalDiversity == 0.0)
      && 0.0 <= r.value.lexicalDiversity <= 1.0
  {
    var texts :- ProblemTexts(ps);
    if |texts| < 2 then Ok(TooFewProblems)
    else match Strings(texts)
      case None => Ok(TfidfFailed)
      case Some(strings) =>
        if !tfidfSucceeds then Ok(TfidfFailed)
        else
          var all := AllWords(strings);
          var unique := |Distinct(all)|;
          assert all != [] ==> all[0] in Distinct(all);
          Ok(Lexical(unique, |all|, Rate(unique, |all|)))
  }

  // ---------------------------------------------------------------------------
  // Difficulties and answers
  // ---------------------------------------------------------------------------

  /** `[p.get(key, default) for p in ps if key in p]`. */
  function Present(ps: seq<Value>, key: string, default: Value): (r: Result<seq<Value>>)
    ensures r.Ok? ==> |r.value| <= |ps|
  {
    if ps == [] then Ok([])
    else
      var has :- HasIn(key, ps[0]);
      if !has then Present(ps[1..], key, default)
      else
        var x :- GetOr(ps[0], key, default);
        var rest :- Present(ps[1..], key, default);
        Ok([x] + rest)
  }

  /** Whether `key in p`. */
  function HasKey(key: string): Value -> Result<bool>
  {
    p => HasIn(key, p)
  }

  /** The collected values are one per record that has the key: as many as `key in p` holds. */
  lemma {:induction false} PresentCount(ps: seq<Value>, key: string, default: Value)
    requires Present(ps, key, default).Ok?
    ensures CountWhere(ps, HasKey(key)) == Ok(|Present(ps, key, default).value|)
  {
    if ps != [] {
      PresentCount(ps[1..], key, default);
    }
  }

  /** `6 <= d <= 9`: the second comparison runs only when the first holds. */
  function InAimeRange(d: Value): (r: Result<bool>)
    ensures r.Ok? <==> Numeric(d).Ok?
    ensures r.Ok? ==> (r.value <==> 6.0 <= Numeric(d).value <= 9.0)
  {
    var x :- Numeric(d);
    if !(6.0 <= x) then Ok(false) else Ok(x <= 9.0)
  }

  datatype DifficultyStats = NoDifficulty | DifficultyStats(count: nat, inAimeRange: nat, aimeRangeRate: real)

  /**
   * The AIME-range part of `analyze_difficulty_distribution`: no
   * difficulties is an error, and a difficulty that is not a number raises.
   */
  function DifficultyDistribution(ps: seq<Value>): (r: Result<DifficultyStats>)
    ensures r.Ok? && r.value.DifficultyStats? ==>
      && 0 < r.value.count <= |ps|
      && r.value.inAimeRange <= r.value.count
      && 0.0 <= r.value.aimeRangeRate <= 1.0
  {
    var difficulties :- Present(ps, "difficulty", Int(0));
    if difficulties == [] then Ok(NoDifficulty)
    else
      var inRange :- CountWhere(difficulties, InAimeRange);
      Ok(DifficultyStats(|difficulties|, inRange, Rate(inRange, |difficulties|)))
  }

  /** The AIME-range count is at most the number of records that have a difficulty. */
  lemma AimeRangeBounded(ps: seq<Value>)
    requires DifficultyDistribution(ps).Ok? && DifficultyDistribution(ps).value.DifficultyStats?
    ensures CountWhere(ps, HasKey("difficulty")).Ok?
    ensures DifficultyDistribution(ps).value.inAimeRange <= CountWhere(ps, HasKey("difficulty")).value
  {
    PresentCount(ps, "difficulty", Int(0));
  }

  /**
   * `[a for a in answers if 0 <= a <= 999]`, as numbers: a non-number
   * raises, and the valid answers are exactly the numbers in range, in order.
   */
  function ValidAnswers(answers: seq<Value>): (r: Result<seq<real>>)
    ensures r.Ok? <==> forall i :: 0 <= i < |answers| ==> Numeric(answers[i]).Ok?
    ensures r.Ok? ==> |r.value| <= |answers|
    ensures r.Ok? ==> forall x :: x in r.value <==>
      (0.0 <= x <= 999.0 && exists i :: 0 <= i < |answers| && Numeric(answers[i]) == Ok(x))
  {
    if answers == [] then Ok([])
    else
      var a :- Numeric(answers[0]);
      var rest :- ValidAnswers(answers[1..]);
      assert forall i :: 1 <= i < |answers| ==> answers[i] == answers[1..][i - 1];
      assert forall i :: 0 <= i < |answers| - 1 ==> answers[1..][i] == answers[i + 1];
      Ok(if 0.0 <= a <= 999.0 then [a] + rest else rest)
  }

  /** Each `out[k]` is the answer at position `idx[k]`, a number in [0, 999]. */
  ghost predicate PickedAt(answers: seq<Value>, idx: seq<nat>, out: seq<real>)
  {
    && |idx| == |out|
    && forall k :: 0 <= k < |idx| ==>
         idx[k] < |answers| && Numeric(answers[idx[k]]) == Ok(out[k]) && 0.0 <= out[k] <= 999.0
  }

  /** The positions increase. */
  ghost predicate Increasing(idx: seq<nat>)
  {
    forall k, l :: 0 <= k < l < |idx| ==> idx[k] < idx[l]
  }

  /** The answer at position `i` is a number in [0, 999]. */
  ghost predicate InRange(answers: seq<Value>, i: int)
    requires 0 <= i < |answers|
  {
    Numeric(answers[i]).Ok? && 0.0 <= Numeric(answers[i]).value <= 999.0
  }

  /** Every answer that is a number in [0, 999] is at one of the positions. */
  ghost predicate AllPicked(answers: seq<Value>, idx: seq<nat>)
  {
    forall i :: 0 <= i < |answers| && InRange(answers, i) ==> i in idx
  }

  /**
   * `out` is the subsequence of the answers at the increasing positions
   * `idx`: each picked answer is a number in [0, 999], and every answer that
   * is such a number is picked.
   */
  ghost predicate PicksInRange(answers: seq<Value>, idx: seq<nat>, out: seq<real>)
  {
    PickedAt(answers, idx, out) && Increasing(idx) && AllPicked(answers, idx)
  }

  /** Every position moved one place on. */
  function Shift(idx: seq<nat>): (r: seq<nat>)
    ensures |r| == |idx| && forall k :: 0 <= k < |idx| ==> r[k] == idx[k] + 1
  {
    seq(|idx|, k requires 0 <= k < |idx| => idx[k] + 1)
  }

  /** A position one past a member of `idx` is a member of `Shift(idx)`. */
  lemma ShiftHas(idx: seq<nat>, i: nat)
    requires i > 0 && i - 1 in idx
    ensures exists k :: 0 <= k < |idx| && Shift(idx)[k] == i
  {
    var k :| 0 <= k < |idx| && idx[k] == i - 1;
    assert Shift(idx)[k] == i;
  }

  /** Putting an answer in front moves every pick one place on. */
  lemma PickedShift(a: Value, rest: seq<Value>, idx: seq<nat>, out: seq<real>)
    requires PickedAt(rest, idx, out)
    ensures PickedAt([a] + rest, Shift(idx), out)
  {
    var answers, sh := [a] + rest, Shift(idx);
    forall k | 0 <= k < |sh|
      ensures sh[k] < |answers| && Numeric(answers[sh[k]]) == Ok(out[k]) && 0.0 <= out[k] <= 999.0
    {
      assert answers[sh[k]] == rest[idx[k]];
    }
  }

  /** Putting an answer in front: every in-range answer of the rest is picked one place on. */
  lemma AllPickedShift(a: Value, rest: seq<Value>, idx: seq<nat>)
    requires AllPicked(rest, idx)
    ensures forall i :: 1 <= i < |[a] + rest| && InRange([a] + rest, i) ==> i in Shift(idx)
  {
    var answers := [a] + rest;
    forall i | 1 <= i < |answers| && InRange(answers, i)
      ensures i in Shift(idx)
    {
      assert answers[i] == rest[i - 1];
      assert InRange(rest, i - 1);
      ShiftHas(idx, i);
    }
  }

  /** An answer put in front that is not a number in range is skipped, and the picks move on. */
  lemma PicksSkip(a: Value, rest: seq<Value>, idx: seq<nat>, out: seq<real>)
    requires PicksInRange(rest, idx, out) && !InRange([a] + rest, 0)
    ensures PicksInRange([a] + rest, Shift(idx), out)
  {
    PickedShift(a, rest, idx, out);
    AllPickedShift(a, rest, idx);
  }

  /** An answer put in front that is a number in range is picked at position 0, and the other picks move on. */
  lemma PicksTake(a: Value, rest: seq<Value>, idx: seq<nat>, out: seq<real>)
    requires PicksInRange(rest, idx, out) && InRange([a] + rest, 0)
    ensures PicksInRange([a] + rest, [0] + Shift(idx), [Numeric(a).value] + out)
  {
    PickedTake(a, rest, idx, out);
    AllPickedTake(a, rest, idx);
  }

  /** With the front answer picked at position 0, each pick is the answer at its position. */
  lemma PickedTake(a: Value, rest: seq<Value>, idx: seq<nat>, out: seq<real>)
    requires PickedAt(rest, idx, out) && InRange([a] + rest, 0)
    ensures PickedAt([a] + rest, [0] + Shift(idx), [Numeric(a).value] + out)
  {
    var answers, sh := [a] + rest, Shift(idx);
    var idx', out' := [0] + sh, [Numeric(a).value] + out;
    PickedShift(a, rest, idx, out);
    forall k | 0 <= k < |idx'|
      ensures idx'[k] < |answers| && Numeric(answers[idx'[k]]) == Ok(out'[k]) && 0.0 <= out'[k] <= 999.0
    {
      if k > 0 {
        assert idx'[k] == sh[k - 1] && out'[k] == out[k - 1];
      }
    }
  }

  /** With the front answer picked at position 0, every in-range answer is picked. */
  lemma AllPickedTake(a: Value, rest: seq<Value>, idx: seq<nat>)
    requires AllPicked(rest, idx)
    ensures AllPicked([a] + rest, [0] + Shift(idx))
  {
    var answers, sh := [a] + rest, Shift(idx);
    var idx' := [0] + sh;
    AllPickedShift(a, rest, idx);
    forall i | 0 <= i < |answers| && InRange(answers, i)
      ensures i in idx'
    {
      if i == 0 {
        assert idx'[0] == 0;
      } else {
        var k :| 0 <= k < |sh| && sh[k] == i;
        assert idx'[k + 1] == i;
      }
    }
  }

  /**
   * The valid answers are exactly the answers that are numbers in [0, 999],
   * each once, in their order.
   */
  lemma {:induction false} ValidAnswersPicks(answers: seq<Value>)
    requires ValidAnswers(answers).Ok?
    ensures exists idx :: PicksInRange(answers, idx, ValidAnswers(answers).value)
  {
    if answers == [] {
      assert PicksInRange([], [], []);
    } else {
      var a, rest := answers[0], answers[1..];
      assert answers == [a] + rest;
      var x, tail := Numeric(a).value, ValidAnswers(rest).value;
      ValidAnswersPicks(rest);
      var idx :| PicksInRange(rest, idx, tail);
      if 0.0 <= x <= 999.0 {
        assert ValidAnswers(answers).value == [x] + tail;
        PicksTake(a, rest, idx, tail);
      } else {
        assert ValidAnswers(answers).value == tail;
        PicksSkip(a, rest, idx, tail);
      }
    }
  }

  /** How many of `xs` lie in `[lo, hi)`, or in `[lo, hi]` when `closed`. */
  function RangeCount(xs: seq<real>, lo: real, hi: real, closed: bool): (r: nat)
    ensures r <= |xs|
  {
    if xs == [] then 0
    else
      var x := xs[|xs| - 1];
      RangeCount(xs[..|xs| - 1], lo, hi, closed) + if lo <= x && (x < hi || (closed && x == hi)) then 1 else 0
  }

  /** The five answer ranges 0-99, 100-199, 200-299, 300-499 and 500-999. */
  function AnswerRanges(valid: seq<real>): (r: seq<nat>)
    ensures |r| == 5
  {
    [RangeCount(valid, 0.0, 100.0, false), RangeCount(valid, 100.0, 200.0, false),
     RangeCount(valid, 200.0, 300.0, false), RangeCount(valid, 300.0, 500.0, false),
     RangeCount(valid, 500.0, 999.0, true)]
  }

  /** The five ranges partition the valid answers: their counts add up to the number of valid answers. */
  lemma {:induction false} RangesPartition(valid: seq<real>)
    requires forall x :: x in valid ==> 0.0 <= x <= 999.0
    ensures var r := AnswerRanges(valid); r[0] + r[1] + r[2] + r[3] + r[4] == |valid|
  {
    if valid != [] {
      var init, x := valid[..|valid| - 1], valid[|valid| - 1];
      assert forall y :: y in init ==> y in valid;
      RangesPartition(init);
      assert x in valid;
      var r, q := AnswerRanges(valid), AnswerRanges(init);
      assert r[0] + r[1] + r[2] + r[3] + r[4] == q[0] + q[1] + q[2] + q[3] + q[4] + 1;
    }
  }

  datatype AnswerStats = NoAnswers | AnswerStats(totalAnswers: nat, validAnswers: nat, validityRate: real, ranges: seq<nat>)

  /**
   * The counting part of `analyze_answer_distribution`: the answers of the
   * records that have one (default -1), the valid ones among them and the
   * range buckets of the valid ones.
   */
  function AnswerDistribution(ps: seq<Value>): (r: Result<AnswerStats>)
    ensures r.Ok? && r.value.AnswerStats? ==>
      && 0 < r.value.totalAnswers <= |ps|
      && r.value.validAnswers <= r.value.totalAnswers
      && 0.0 <= r.value.validityRate <= 1.0
      && |r.value.ranges| == 5
  {
    var answers :- Present(ps, "answer", Int(-1));
    if answers == [] then Ok(NoAnswers)
    else
      var valid :- ValidAnswers(answers);
      Ok(AnswerStats(|answers|, |valid|, Rate(|valid|, |answers|), AnswerRanges(valid)))
  }

  /** The answer buckets count every valid answer exactly once. */
  lemma AnswerRangesCover(ps: seq<Value>)
    requires AnswerDistribution(ps).Ok? && AnswerDistribution(ps).value.AnswerStats?
    ensures var s := AnswerDistribution(ps).value;
      s.ranges[0] + s.ranges[1] + s.ranges[2] + s.ranges[3] + s.ranges[4] == s.validAnswers
  {
    var answers := Present(ps, "answer", Int(-1)).value;
    RangesPartition(ValidAnswers(answers).value);
  }

  // ---------------------------------------------------------------------------
  // All metrics
  // ---------------------------------------------------------------------------

  datatype Metrics =
    | NoMetrics
    | Metrics(basic: BasicStats, diversity: Diversity, difficulty: DifficultyStats, answers: AnswerStats)

  /**
   * `calculate_all_metrics`: nothing for no problems, else each modelled
   * section (one of them that raises makes it raise).
   */
  function AllMetrics(ps: seq<Value>, tfidfSucceeds: bool): (r: Result<Metrics>)
    ensures ps == [] <==> r == Ok(NoMetrics)
    ensures r.Ok? && ps != [] ==> r.value.basic.total == |ps| && r.value.basic.avgProblemLength.Some?
  {
    if ps == [] then Ok(NoMetrics)
    else
      var basic :- BasicStatistics(ps);
      var diversity :- DiversityMetrics(ps, tfidfSucceeds);
      var difficulty :- DifficultyDistribution(ps);
      var answers :- AnswerDistribution(ps);
      Ok(Metrics(basic, diversity, difficulty, answers))
  }
}
