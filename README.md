# AIME problem pipeline: a Dafny model

This project models the core of a pipeline that produces AIME-style
competition problems, and proves properties of that model. The pipeline has
four stages and two review tools:

1. **Generation** (`src/problem_generator.py`). The model is asked for a
   problem until its reply parses as a JSON record that passes validation:
   the required fields are present, the answer is an integer in 0..999 and
   the text has at least 20 characters. Each record kept is tagged
   `gen_<n>` / `stage1_base`.
2. **Diversification** (`src/diversifier.py`). The stage-1 problems are
   written to a seed file. The items the Self-Instruct pipeline returns
   become stage-2 records: the answer is read from the text (or drawn at
   random) and the topic is inferred from keywords. When that pipeline
   raises, up to five variations are requested directly.
3. **Solutions** (`src/solution_generator.py`). A problem with an answer is
   solved by chain of thought; otherwise, or when that fails, a direct
   request is parsed as JSON, with a line-by-line fallback.
4. **Improvement** (`src/quality_improver.py`). The self-improving pipeline
   is tried first. On an exception, a direct loop runs instead: evaluate,
   stop once the scores reach the thresholds, otherwise record suggestions,
   for at most `max_iterations` rounds.

The two review tools:

- **Human verification** (`verification_ui.py`): a cursor over the improved
  problems and a dictionary of verifications keyed by problem id, with
  submit, skip, previous and export.
- **Analysis** (`analyze_verification.py` and
  `evaluation/quality_metrics.py`): status counts, average scores, score
  distributions, the approved and high-quality exports, and the quality
  metrics of the improved problems.

How the model represents the system:

- **Records** are JSON values (`Json.Value`). Dictionaries are
  insertion-ordered association lists (`Dicts.Dict`).
- **A Python exception** is `Outcomes.Result.Raise`.
- **An agent's reply** is `Agent.Reply`: the text, or the failure of the
  call.
- **`json.loads`** is a parameter `parse: string -> Option<Value>`.
- **Random draws, the clock and the external pipelines' outputs** are
  parameters.
- **The verification tool** is a class, `VerificationUi.ProblemVerifier`,
  whose methods update its fields.
- **Every loop of the source that builds a list, a text or running totals**
  is a method proved equal to the specification function it computes. The
  lemmas state what those functions promise. Four short loops are written
  as functions instead: the field check of `_validate_problem`
  (`ProblemGenerator.AnyMissing`), the pattern loop of `_extract_answer`
  (`Diversifier.ExtractAnswer`), the seed-file loop of
  `prepare_seed_file`, which matters only for the keys it reads
  (`Diversifier.SeedReady`), and the `/=` loop of `export_results` and
  `get_statistics` (`Verdicts.Averages`).

The model follows the code where its behaviour is easy to miss:

- Validation (`src/problem_generator.py:147-168`) raises, rather than
  rejecting, for a reply that parses to a number or `null`: the `in` test
  raises first.
- `_improve_direct` (`src/quality_improver.py:176-217`) raises
  `UnboundLocalError` when `max_iterations` is at most 0.
- The score buckets (`analyze_verification.py:58-69`) use `scores[key] - 1`
  as a list index. A score of -4..0 therefore lands in a bucket through
  Python's negative indexing, `True` and `False` count as 1 and 0, and
  anything else raises.
- `get_basic_statistics` (`evaluation/quality_metrics.py:66-73`) raises
  whenever some record has a solution and another has `solution = None`.
  The solution stage leaves `None` after a failure, and `'steps' in None`
  raises. See `QualityMetrics.NoneSolutionRaises` and
  `QualityMetrics.NoneSolutionExample`.

## Model

| member | source | states |
|---|---|---|
| Agent.ParseCleaned | src/problem_generator.py:131-140 | parsing fails only when both the text and its backslash-doubled form fail to parse; a text that parses wins, and a text without backslashes is parsed as it is |
| Agent.FencedResponse | src/problem_generator.py:120-145 | a reply wrapped in a ```` ```json ```` fence and a closing fence parses as its stripped body |
| Text.FencedRoundTrip | src/problem_generator.py:127-129 | removing the opening fence (with the whitespace after it), the closing fence at the end and the outer whitespace gives back the stripped body |
| Text.StripSpec | src/problem_generator.py:129 | `strip()` returns a contiguous slice of the text that neither starts nor ends with whitespace |
| Text.StripBlank | src/solution_generator.py:230 | a line strips to nothing exactly when it is all whitespace |
| Text.StripClosingFenceEnd | src/problem_generator.py:128 | a text ending in three backticks loses exactly those |
| Text.ClosingFenceUnique | src/problem_generator.py:128 | the `$`-anchored closing fence can match at only one position |
| Text.StripOpenFencesFirst | src/problem_generator.py:127 | the first opening fence and the whitespace after it are removed, the text before it kept |
| Text.HalveDoubled | src/problem_generator.py:138 | doubling the backslashes loses nothing: halving them gives the text back |
| Text.DoublingKeepsOthers | src/problem_generator.py:138 | doubling the backslashes leaves every other character, in order |
| Text.JoinSplit | src/solution_generator.py:228 | splitting at newlines and joining again gives the text back |
| Text.LowerIgnoresCase | src/diversifier.py:247 | lower-casing gives the same text whatever the case of the letters |
| ProblemGenerator.AnyMissingSpec | src/problem_generator.py:151-155 | on a dict the field loop finds a missing field exactly when one of the listed fields is absent; on a value `in` cannot search it raises |
| ProblemGenerator.ValidateProblemAccepts | src/problem_generator.py:147-168 | a record is accepted exactly when it is a dict with all four fields, an integer answer in 0..999 and a text of length at least 20 |
| ProblemGenerator.ValidateProblemRaises | src/problem_generator.py:152-153 | validating a value that is not a dict, list or string raises |
| ProblemGenerator.ValidateIgnoresOtherKeys | src/problem_generator.py:147-168 | entries other than the four required fields never change the verdict |
| ProblemGenerator.TryReplyValid | src/problem_generator.py:102-111 | a reply taken as valid parsed to a dict that passes validation |
| ProblemGenerator.FirstValidIsFirst | src/problem_generator.py:108-114 | the retry returns a record exactly when some attempt is valid and every attempt before it was rejected |
| ProblemGenerator.GenerateProblemFirstValid | src/problem_generator.py:83-117 | `generate_problem` returns the first valid reply's record, all earlier replies rejected, and that record passes validation |
| ProblemGenerator.TagKeepsValid | src/problem_generator.py:194-195 | tagging a record with its id and stage does not change its verdict |
| ProblemGenerator.Stage1Valid | src/problem_generator.py:170-204 | every record `generate_problems` returns passes validation |
| ProblemGenerator.Stage1Length | src/problem_generator.py:186-197 | `generate_problems` returns at most one record per iteration, for any run |
| ProblemGenerator.Stage1IdsDistinct | src/problem_generator.py:186-201 | there is at most one record per iteration and no two records share an id |
| ProblemGenerator.CollectIds | src/problem_generator.py:194-196 | each kept record carries `gen_<n>` for the iteration n that made it, and the stage tag |
| ProblemGenerator.GenerateProblems | src/problem_generator.py:186-204 | the loop returns the tagged records of the iterations that did not raise, in order |
| Diversifier.DigitRun | src/diversifier.py:228-232 | `(\d+)` takes the longest run of digits at that point |
| Diversifier.SearchLeftmost | src/diversifier.py:235 | `re.search` reports the leftmost position where the pattern matches, and none when it matches nowhere |
| Diversifier.ExtractAnswer | src/diversifier.py:223-243 | the answer is always in 0..999 |
| Diversifier.FirstNumberSpec | src/diversifier.py:235-237 | a pattern's number is the number of its match at the leftmost matching position, and there is none when it matches nowhere |
| Diversifier.ExtractAnswerSpec | src/diversifier.py:228-243 | the first pattern whose first match is at most 999 gives the answer: `answer is`, else `answer:`, else `= N` at the end; a number above 999 falls through to the next pattern, and with no usable pattern the answer is the draw |
| Diversifier.StatedSearch | src/diversifier.py:229-236 | the search for "answer is" yields the digits of the first statement, when no earlier position matches |
| Diversifier.ExtractStatedAnswer | src/diversifier.py:223-239 | a text stating "answer is N" first, with N at most 999, gives N |
| Diversifier.InferTopic | src/diversifier.py:245-260 | the inferred topic is one of the six topics |
| Diversifier.InferTopicIgnoresCase | src/diversifier.py:247 | topic inference does not depend on letter case |
| Diversifier.InferTopicDivisor | src/diversifier.py:249-250 | an instruction mentioning "divisor" is number theory |
| Diversifier.DivRecordConverted | src/diversifier.py:209-216 | a built record has the eight keys in order, its identifier and problem text, an answer in 0..999, a known topic, difficulty 7, the stage-2 stage and source and empty tags |
| Diversifier.ConvertItemCases | src/diversifier.py:195-200 | `output` wins over `instruction`, an item with neither is skipped, and an item `in` cannot search raises |
| Diversifier.ConvertedRecords | src/diversifier.py:176-221 | conversion gives at most one record per item, each a stage-2 record with empty tags |
| Diversifier.ConvertedIds | src/diversifier.py:193-216 | record k is `div_<i+1>` for the position i of the item it comes from; these positions increase and skip the items that gave no record |
| Diversifier.ConvertToProblemFormat | src/diversifier.py:193-221 | the loop computes the conversion of all items, raising as the first failing item does |
| Diversifier.TagSimple | src/diversifier.py:314-316 | a fallback record gets `div_simple_<i+1>`, its stage and source, and keeps every other entry |
| Diversifier.PresentRecords | src/diversifier.py:276-320 | the fallback keeps at most one record per request, and only records that parsed |
| Diversifier.SimpleRecords | src/diversifier.py:262-322 | the fallback returns at most n records, each a tagged fallback record |
| Diversifier.PresentPicks | src/diversifier.py:276-317 | keeping the parsed replies keeps exactly the requests whose reply gave a record, in request order, skipping none |
| Diversifier.SimpleNumbered | src/diversifier.py:276-317 | variation k is the tagged reply of request `idx[k]`, with id `div_simple_<idx[k]+1>`; the requests increase and no request whose reply parsed to a dict is dropped |
| Diversifier.SimpleDiversification | src/diversifier.py:276-322 | the loop over the first five problems returns the records of the replies that parsed, in order |
| Diversifier.DiversifyKeepsInput | src/diversifier.py:110-174 | diversification raises exactly when the seed file cannot be written; otherwise the input comes first, unchanged, followed by stage-2 records only; when the pipeline's output cannot be converted, at most five fallback records follow |
| SolutionGenerator.StepRecordFields | src/solution_generator.py:231-235 | a fallback step reads back its number, its description and an empty result |
| SolutionGenerator.PositionsComplete | src/solution_generator.py:229-230 | over the stripped lines, the kept positions are increasing and include every non-empty line |
| SolutionGenerator.StepsOfSpec | src/solution_generator.py:227-235 | over the stripped lines, step k is numbered by the k-th kept position plus one and described by that line |
| SolutionGenerator.NonBlankComplete | src/solution_generator.py:229-230 | the non-blank line positions are increasing and include every non-blank line |
| SolutionGenerator.LineStepsSpec | src/solution_generator.py:227-235 | step k comes from the k-th non-blank line, numbered by its position plus one and described by the stripped line |
| SolutionGenerator.FallbackSteps | src/solution_generator.py:227-235 | the fallback loop builds exactly the steps of the non-blank lines |
| SolutionGenerator.LineRecordFields | src/solution_generator.py:237-241 | the fallback record holds the steps, final answer 0 and no key insights |
| SolutionGenerator.ParseSolutionFallback | src/solution_generator.py:209-241 | when the cleaned reply does not parse, the solution is the line-by-line record, one step per non-blank line |
| SolutionGenerator.ExtractStepsCases | src/solution_generator.py:243-255 | a tree's own steps win; otherwise there is one step numbered 1, described by the reasoning when there is one |
| SolutionGenerator.FailedRecordFields | src/solution_generator.py:200-207 | a failed direct solution has method `failed`, no steps, the problem's answer or 0, and the error text |
| SolutionGenerator.GenerateDirectShape | src/solution_generator.py:176-207 | a direct solution is either marked direct and unverified, or is the failed record with the error of the call |
| SolutionGenerator.CotRecordFields | src/solution_generator.py:167-172 | a chain-of-thought solution has method `cot_mcts`, the steps, the golden answer and `verified` set |
| SolutionGenerator.GenerateSolution | src/solution_generator.py:108-137 | a solution is produced exactly when the problem has a `problem` entry |
| SolutionGenerator.SolutionSource | src/solution_generator.py:123-132 | chain of thought is used only for a problem with a non-None answer, and when it succeeds it carries that answer and is verified; without an answer, or when chain of thought raises (unhashable text or `solve` raising), the direct path is used |
| SolutionGenerator.SolveOneKeeps | src/solution_generator.py:271-284 | a record keeps every other entry of its problem, and `has_solution` holds exactly when the problem has a text |
| SolutionGenerator.Solved | src/solution_generator.py:257-295 | the stage returns one record per problem exactly when every problem is a dict |
| SolutionGenerator.GenerateSolutions | src/solution_generator.py:271-295 | the loop returns the records of all problems, in order |
| SolutionGenerator.SuccessCountSolved | src/solution_generator.py:289-290 | the logged success count is the number of problems that have a text, at most all of them |
| QualityImprover.ScoresFields | src/quality_improver.py:251-256 | an evaluation reads back its four scores |
| QualityImprover.EvaluationScores | src/quality_improver.py:241-264 | a parsed evaluation has exactly the four score keys, each the reply's score or 0.5 |
| QualityImprover.EvaluateProblem | src/quality_improver.py:219-239 | evaluation raises exactly when the problem has no `problem` entry |
| QualityImprover.EvaluateProblemIteration | src/quality_improver.py:219-239 | the evaluation of iteration k is that reply's parsed evaluation, with the four keys |
| QualityImprover.MeetsScoresIff | src/quality_improver.py:266-274 | with numeric scores, the threshold is met exactly when all three scores reach their bars (0.9, 0.8 and 0.8 unless configured) |
| QualityImprover.MeetsScoresRaises | src/quality_improver.py:270-274 | the test raises exactly when the first non-number it compares is reached after the scores before it passed |
| QualityImprover.MissingScoreIsZero | src/quality_improver.py:271-273 | a missing score counts as 0 |
| QualityImprover.EleganceIgnored | src/quality_improver.py:266-274 | the elegance score never changes the threshold test |
| QualityImprover.GenerateImprovements | src/quality_improver.py:276-299 | the suggestions are a dict |
| QualityImprover.ApplyImprovements | src/quality_improver.py:301-310 | only `improvement_suggestions` changes, set to the suggestions or the empty string |
| QualityImprover.EntriesAt | src/quality_improver.py:194-197 | history entry j records evaluation j, numbered j + 1 |
| QualityImprover.EntriesSnoc | src/quality_improver.py:194-197 | each iteration appends one entry numbered after the others |
| QualityImprover.Round | src/quality_improver.py:192-210 | an iteration stops only when the evaluation meets the thresholds, retries only when it misses them (changing nothing but the loop's keys), and raises exactly when evaluating, testing or suggesting raises |
| QualityImprover.FinishDirectFields | src/quality_improver.py:212-216 | the record after the loop carries the numbered history, the last evaluation and `improved = True` |
| QualityImprover.DirectEvalsCount | src/quality_improver.py:189-204 | a finished loop made between 1 and `max_iterations` evaluations, and the last one meets the thresholds unless the iterations ran out |
| QualityImprover.DirectEvalsMissed | src/quality_improver.py:201-210 | every evaluation but the last missed the thresholds |
| QualityImprover.DirectLoopKeeps | src/quality_improver.py:186-210 | the loop changes none of the problem's entries but its own keys |
| QualityImprover.ImproveDirectSpec | src/quality_improver.py:176-217 | with `max_iterations` at most 0 the direct path raises; otherwise its evaluations and record are as the lemmas above describe |
| QualityImprover.DirectFromEnded | src/quality_improver.py:212-217 | a loop that ended returns the record built from its evaluations |
| QualityImprover.DirectIteration | src/quality_improver.py:192-210 | the loop body computes the iteration `Round` specifies |
| QualityImprover.ImproveDirect | src/quality_improver.py:176-217 | the loop with its `break` computes the direct path's result |
| QualityImprover.Iterate | src/quality_improver.py:139 | `for x in v` works exactly on a list, a string or a dict |
| QualityImprover.AssembleSolutionText | src/quality_improver.py:138-141 | the loop builds the text of the steps, raising as the first bad step does |
| QualityImprover.SolutionTextRaiseSticks | src/quality_improver.py:139-141 | once a step raises, the whole text raises |
| QualityImprover.StepTextOfDescription | src/quality_improver.py:140-141 | a step with a string description adds it and a blank line, a dict step without one adds nothing, and a non-string description raises |
| QualityImprover.StepRecordText | src/quality_improver.py:139-141 | a step record of the solution stage adds its description and a blank line |
| QualityImprover.SolutionTextOfDescriptions | src/quality_improver.py:138-141 | dict steps whose descriptions are strings give their present descriptions in order, each followed by a blank line |
| QualityImprover.PipelineOutcome | src/quality_improver.py:119-174 | a pipeline result is marked improved, unless the pipeline produced nothing and the problem comes back as it was |
| QualityImprover.ImprovedFlag | src/quality_improver.py:98-117 | a problem whose improvement raised is flagged `improved = False`; one the direct path produced is flagged `True` |
| QualityImprover.ImproveAll | src/quality_improver.py:318-329 | one record per problem, each the improvement of its problem |
| QualityImprover.Improved | src/quality_improver.py:312-332 | the stage returns one record per problem exactly when every problem is a dict |
| QualityImprover.ImproveProblems | src/quality_improver.py:316-332 | the loop returns the records of all problems, in order |
| Dicts.Get | verification_ui.py:68-69 | a key is found exactly when it is present, with the value stored under it |
| Dicts.Put | verification_ui.py:53 | storing under a key keeps the key order and appends the key only when it is new |
| Dicts.PutGet | verification_ui.py:53 | after storing, the key reads the new value and every other key reads what it read before |
| Dicts.PutSize | verification_ui.py:53 | storing grows the dictionary by one exactly when the key is new |
| Verdicts.CountStatus | verification_ui.py:184-186 | the count exists exactly when every record has a status, and is at most the number of records |
| Verdicts.StatusesBounded | verification_ui.py:184-186 | the approved, rejected and needs-revision counts add up to at most the number of records |
| Verdicts.AddScoresSpec | verification_ui.py:197-199 | one record's scores are added exactly when each is a number, and each dimension grows by its score |
| Verdicts.TotalSnoc | verification_ui.py:197-199 | a dimension's total grows by the score of each added record |
| Verdicts.ScoreSumsTotals | verification_ui.py:188-202 | the running sums exist exactly when every score is a number, and each equals that dimension's total |
| Verdicts.ScoreSumsRaiseSticks | analyze_verification.py:51-53 | once the sums of a prefix raise, the sums of all records raise |
| Verdicts.AccumulateScores | verification_ui.py:197-199 | the nested score loop computes the running sums |
| Verdicts.AddRecordScores | analyze_verification.py:52-53 | the loop over the dimensions adds one record's scores |
| Verdicts.Selected | analyze_verification.py:202-205 | the comprehension keeps at most one problem per record |
| VerificationUi.RecordStatus | verification_ui.py:121-133 | a stored record reads back its status |
| VerificationUi.StatusOf | verification_ui.py:66-70 | the status is `not_verified` for an unknown id, `unknown` for a stored dict without one, the stored status otherwise, and raises for a stored non-dict |
| VerificationUi.SubmittedStatus | verification_ui.py:107-150 | after a submit, the status of that problem's id is the submitted one |
| VerificationUi.ExportSummary | verification_ui.py:178-239 | a report counts all problems and all verifications, both nonzero, with four averages |
| VerificationUi.ExportSummarySpec | verification_ui.py:178-239 | the report exists exactly when there are problems and verifications and every verification has a status and four numeric scores; then the counts add up to at most the verifications and each average is the dimension's total over their number |
| VerificationUi.ProblemVerifier.constructor | verification_ui.py:16-27 | the tool starts on the first problem with the loaded verifications |
| VerificationUi.ProblemVerifier.CurrentProblem | verification_ui.py:59-64 | there is no current problem exactly when there are none or the cursor is past the end; otherwise it is the problem under the cursor |
| VerificationUi.ProblemVerifier.SubmitVerification | verification_ui.py:107-150 | with no (or a falsy) problem nothing changes; otherwise the record is stored under the problem's id, replacing an earlier one, the count grows only for a new id and the cursor moves on; a non-dict problem or an unhashable id raises with nothing changed |
| VerificationUi.ProblemVerifier.SkipProblem | verification_ui.py:152-162 | the cursor moves on by one; the progress line raises exactly when there are no problems |
| VerificationUi.ProblemVerifier.PreviousProblem | verification_ui.py:164-176 | the cursor moves back by one unless it is on the first problem; the progress line raises exactly when there are no problems |
| VerificationUi.ProblemVerifier.ExportResults | verification_ui.py:178-239 | the export computes the report of the stored verifications |
| VerificationAnalysis.Bucket | analyze_verification.py:66-69 | scores 1..5 fall in buckets 0..4, scores -4..0 wrap to buckets 0..4, `True` falls in bucket 0 and `False` (as -1) wraps to bucket 4, anything else raises |
| VerificationAnalysis.AddBucketsSpec | analyze_verification.py:67-69 | one record's buckets are counted exactly when each score has one, each dimension's bucket growing by one |
| VerificationAnalysis.DistributionCounts | analyze_verification.py:58-69 | the distribution exists exactly when every score has a bucket, and each count is the number of records in that bucket |
| VerificationAnalysis.DistributionRaiseSticks | analyze_verification.py:66-69 | once the distribution of a prefix raises, that of all records raises |
| VerificationAnalysis.RatedBuckets | analyze_verification.py:58-69 | with scores 1..5, bucket b counts the scores b + 1 and the five buckets add up to the number of records |
| VerificationAnalysis.StatisticsOf | analyze_verification.py:31-78 | no verifications give no statistics; otherwise the total is the number of records, the approved count is the status count, with four averages and a five-bucket distribution per dimension |
| VerificationAnalysis.StatisticsSpec | analyze_verification.py:36-69 | the counts add up to at most the total, each average is the dimension's total over the count, and each distribution count is the number of records in that bucket |
| VerificationAnalysis.GetStatistics | analyze_verification.py:31-78 | the nested loops compute the statistics of the stored verifications |
| VerificationAnalysis.TallyScores | analyze_verification.py:66-69 | the distribution loop computes the distribution |
| VerificationAnalysis.AddRecordBuckets | analyze_verification.py:67-69 | the loop over the dimensions counts one record's buckets |
| VerificationAnalysis.IsApproved | analyze_verification.py:204 | a record is approved exactly when its status is `approved`, and raises without a status |
| VerificationAnalysis.AllAtLeastSpec | analyze_verification.py:105 | `all(score >= t)` holds exactly when every score is a number of at least t, and raises only when a non-number comes after passing scores |
| VerificationAnalysis.HighQualityIff | analyze_verification.py:213-218 | a record is high quality exactly when it has a scores dict whose every score is a number of at least 4 |
| VerificationAnalysis.SelectedSpec | analyze_verification.py:200-224 | an export succeeds exactly when every record is decided and every kept record has a problem; it then holds one problem per kept record, and only those |
| VerificationAnalysis.ApprovedCounted | analyze_verification.py:39 | counting the records the export keeps is counting the approved statuses |
| VerificationAnalysis.ApprovedExportCount | analyze_verification.py:200-211 | the approved export holds as many problems as the statistics count as approved |
| QualityMetrics.CountWhere | evaluation/quality_metrics.py:57-60 | a count exists exactly when the test decides every record, and is at most the number of records |
| QualityMetrics.SumOfRaises | evaluation/quality_metrics.py:66-73 | a record whose term raises makes the sum raise |
| QualityMetrics.HasSolution | evaluation/quality_metrics.py:57 | a dict has a solution exactly when its `solution` entry is present and truthy |
| QualityMetrics.IsImproved | evaluation/quality_metrics.py:60 | the improvement test is decided exactly for dicts |
| QualityMetrics.SumSteps | evaluation/quality_metrics.py:68-72 | the step loop computes the total number of steps |
| QualityMetrics.Rate | evaluation/quality_metrics.py:78-80 | a rate is 0 for no records, otherwise the count over the total, and in [0, 1] |
| QualityMetrics.BasicStatistics | evaluation/quality_metrics.py:52-83 | the counts are at most the total, the rates are in [0, 1], and with no problems the rates are 0 and there is no mean length |
| QualityMetrics.NoneSolutionRaises | evaluation/quality_metrics.py:66-73 | a record with `solution = None` makes the basic statistics raise once any record has a solution |
| QualityMetrics.NoneSolutionExample | evaluation/quality_metrics.py:66-73 | one solved and one failed record make the basic statistics raise |
| QualityMetrics.RunLength | evaluation/quality_metrics.py:119 | a `\w+` run is as long as possible |
| QualityMetrics.Words | evaluation/quality_metrics.py:119 | every word `\b[a-zA-Z]+\b` finds in the lower-cased text is nonempty and made of letters |
| QualityMetrics.WordsSplit | evaluation/quality_metrics.py:119 | a character that is not a word character separates the words on each side |
| QualityMetrics.CollectWords | evaluation/quality_metrics.py:116-120 | the loop collects the words of every lower-cased text, in order |
| QualityMetrics.Distinct | evaluation/quality_metrics.py:122 | the distinct words are exactly the words that occur, no more of them than words |
| QualityMetrics.ProblemTexts | evaluation/quality_metrics.py:88 | the texts exist exactly when every record is a dict, one per record |
| QualityMetrics.DiversityMetrics | evaluation/quality_metrics.py:85-134 | the metrics exist exactly when every record is a dict; fewer than two problems is an error; the distinct words are at most all words, and the lexical diversity is in [0, 1] and 0 exactly when there are no words |
| QualityMetrics.PresentCount | evaluation/quality_metrics.py:138 | the list holds one value per record that has the key |
| QualityMetrics.InAimeRange | evaluation/quality_metrics.py:150 | a difficulty is in the AIME range exactly when it is a number in [6, 9], and raises otherwise |
| QualityMetrics.DifficultyDistribution | evaluation/quality_metrics.py:136-152 | with difficulties, the count is positive and at most the records, the in-range count at most the count and the rate in [0, 1] |
| QualityMetrics.AimeRangeBounded | evaluation/quality_metrics.py:138-151 | the in-range count is at most the number of records with a difficulty |
| QualityMetrics.ValidAnswers | evaluation/quality_metrics.py:195 | the valid answers exist exactly when every answer is a number, and a number is among them exactly when it is an answer in [0, 999] |
| QualityMetrics.ValidAnswersPicks | evaluation/quality_metrics.py:195 | the valid answers are the answers in [0, 999] at increasing positions, and every such answer is among them, so order and repeats are kept |
| QualityMetrics.RangesPartition | evaluation/quality_metrics.py:198-204 | the five ranges count every answer in [0, 999] exactly once |
| QualityMetrics.AnswerDistribution | evaluation/quality_metrics.py:187-214 | with answers, the valid count is at most the total, the total at most the records and the validity rate in [0, 1], with five ranges |
| QualityMetrics.AnswerRangesCover | evaluation/quality_metrics.py:198-209 | the five ranges add up to the number of valid answers |
| QualityMetrics.AllMetrics | evaluation/quality_metrics.py:35-50 | no problems give no metrics; otherwise the basic statistics count every problem and have a mean length |

## Left out

- Files are not modelled: problems and verifications are loaded as parameters, and saved results (the seed file, stage outputs, `save_verification`'s file write, the report file) are not written. The loaded data is assumed to be a list or a dict as the tools expect.
- The language-model agents are oracles: each call is an `Agent.Reply` parameter, and a failed call is one of its values.
- The chain-of-thought generator, the Self-Instruct pipeline and the self-improving pipeline are also oracles: their results or exceptions are parameters.
- `json.loads` is the parameter `parse`. Its grammar, and the exact text of its error messages, are not modelled.
- `random.choice`, `random.randint` and `random.seed` are parameters (`Diversifier.Draw`). So are the topic and difficulty chosen for each stage-1 problem, which only enter the prompt.
- Prompts and log messages are not modelled; only the values they read raise where the source would raise.
- The web page (`create_ui`) is not modelled, nor the Markdown of `format_problem_display` and the report text. Nor are the exceptions that rendering the next problem can raise after a submit, skip or previous (a tag that is not a string, a problem that is not a dict): the model reports the progress there. The clock is the `timestamp` parameter of submit.
- `print_report` and the three plots are not modelled; `IsHighQuality` models the test `print_report` and the export share.
- The mean, median, standard deviation, minimum and maximum from numpy are not modelled, nor TF-IDF and cosine similarity. The TF-IDF fit is the parameter `tfidfSucceeds`. Floats are exact reals, with no NaN: a mean of nothing is `None`.
- `analyze_topic_coverage`, `analyze_solution_quality`, `calculate_similarity_metrics` and `generate_summary_report` are not modelled.
- QualityMetrics.AllMetrics: the result holds the basic, diversity, difficulty and answer sections only. It leaves out topic coverage, solution quality and similarity, and with them their exceptions (an unhashable topic or tag, non-iterable tags, a truthy non-dict solution, a description without a length), so `AllMetrics` can be Ok where `calculate_all_metrics` raises.
- QualityMetrics.DiversityMetrics: the TF-IDF average similarity is not part of the result.
- QualityMetrics.AnswerDistribution: the mean, median and standard deviation of the valid answers are not part of the result.
- `\w`, `\d`, `\b` and `lower()` are modelled on ASCII only. `re.IGNORECASE` matching of the answer patterns is modelled by lower-casing ASCII letters.
- Dictionary keys are compared as JSON values. Python's `1 == True == 1.0` key equality is not modelled.
- Objects are values: the in-place updates the stages make to shared problem dicts are modelled as new values returned. The one exception is where an exception leaves a half-updated problem behind (`QualityImprover.Outcome`).
- `Stage4Config` and the other configuration classes are parameters. Only the score thresholds' defaults are constants.
- `str()` of a reasoning tree in `_extract_steps_from_tree` is the parameter `show`: Python's text form of a value is not modelled.
- Python's recursion limit in `generate_problem` is the length of the reply list: running out of replies raises.
- QualityImprover.GenerateImprovements: the contract states only that the suggestions are a dict. Their text is the agent's reply, an oracle.
