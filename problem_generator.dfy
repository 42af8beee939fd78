/**
 * Stage 1: ask the agent for AIME-style problems, parse and validate each
 * reply, ask again after an invalid one, and collect the accepted records
 * with a `gen_<n>` identifier and the stage tag.  The topic and difficulty
 * drawn at random only shape the prompt, so they are not part of the model.
 */
module ProblemGenerator {
  import opened Outcomes
  import opened Dicts
  import opened Json
  import opened Text
  import opened Agent

  const RequiredFields: seq<string> := ["problem", "answer", "topic", "difficulty"]

  /** The outcome of validation: accepted, rejected, or the check itself raised. */
  datatype Verdict = Accept | Reject | Fail

  /** An answer passes when it is an `int` (a `bool` is one) between 0 and 999. */
  predicate ValidAnswer(a: Value)
  {
    (a.Int? && 0 <= a.i <= 999) || a.Bool?
  }

  /** `field not in v` for the fields in order, stopping at the first missing one. */
  function AnyMissing(v: Value, fields: seq<string>): Result<bool>
  {
    if fields == [] then Ok(false)
    else
      var has :- HasIn(fields[0], v);
      if !has then Ok(true) else AnyMissing(v, fields[1..])
  }

  /**
   * On a dict, a field is missing exactly when one of them is not a key; on
   * a value `in` cannot search, the first test raises.
   */
  lemma {:induction false} AnyMissingSpec(v: Value, fields: seq<string>)
    ensures v.Obj? ==>
      AnyMissing(v, fields) == Ok(exists k :: 0 <= k < |fields| && fields[k] !in Keys(v.fields))
    ensures fields != [] && !(v.Obj? || v.Str? || v.Arr?) ==> AnyMissing(v, fields).Raise?
  {
    if fields != [] {
      AnyMissingSpec(v, fields[1..]);
      assert forall k :: 0 <= k < |fields[1..]| ==> fields[1..][k] == fields[k + 1];
    }
  }

  /** `_validate_problem`, including the exceptions it raises on a non-dict. */
  function ValidateProblem(v: Value): (r: Verdict)
    ensures r == Accept ==> v.Obj?
  {
    match AnyMissing(v, RequiredFields)
    case Raise => Fail
    case Ok(missing) =>
      if missing then Reject
      else
        match Lookup(v, "answer")
        case Raise => Fail
        case Ok(a) =>
          if !ValidAnswer(a) then Reject
          else
            match Lookup(v, "problem")
            case Raise => Fail
            case Ok(p) =>
              match Length(p)
              case Raise => Fail
              case Ok(n) => if n < 20 then Reject else Accept
  }

  /**
   * A record is accepted exactly when it is a dict holding the four fields,
   * its answer is an integer in [0, 999] and its problem text has at least
   * 20 elements.
   */
  lemma ValidateProblemAccepts(v: Value)
    ensures ValidateProblem(v) == Accept <==>
      && v.Obj?
      && (forall f :: f in RequiredFields ==> f in Keys(v.fields))
      && ValidAnswer(Get(v.fields, "answer").value)
      && Length(Get(v.fields, "problem").value).Ok?
      && Length(Get(v.fields, "problem").value).value >= 20
  {
    AnyMissingSpec(v, RequiredFields);
    if v.Obj? && forall f :: f in RequiredFields ==> f in Keys(v.fields) {
      assert AnyMissing(v, RequiredFields) == Ok(false);
    }
  }

  /** A value that is not a dict, list or string makes validation itself raise. */
  lemma ValidateProblemRaises(v: Value)
    requires !(v.Obj? || v.Str? || v.Arr?)
    ensures ValidateProblem(v) == Fail
  {
    AnyMissingSpec(v, RequiredFields);
  }

  lemma {:induction false} AnyMissingSame(v: Value, w: Value, fields: seq<string>)
    requires v.Obj? && w.Obj?
    requires forall k :: 0 <= k < |fields| ==> Get(v.fields, fields[k]) == Get(w.fields, fields[k])
    ensures AnyMissing(v, fields) == AnyMissing(w, fields)
  {
    if fields != [] {
      AnyMissingSame(v, w, fields[1..]);
    }
  }

  /** Validation looks only at the four required keys of a dict. */
  lemma ValidateSame(v: Value, w: Value)
    requires v.Obj? && w.Obj?
    requires forall f :: f in RequiredFields ==> Get(v.fields, f) == Get(w.fields, f)
    ensures ValidateProblem(v) == ValidateProblem(w)
  {
    AnyMissingSame(v, w, RequiredFields);
    assert Lookup(v, "answer") == Lookup(w, "answer");
    assert Lookup(v, "problem") == Lookup(w, "problem");
  }

  /** Keys other than the four required ones do not affect validation. */
  lemma ValidateIgnoresOtherKeys(v: Value, key: string, x: Value)
    requires v.Obj? && key !in RequiredFields
    ensures ValidateProblem(Set(v, key, x)) == ValidateProblem(v)
  {
    ValidateSame(Set(v, key, x), v);
  }

  /** One call of `generate_problem` before it recurses. */
  datatype Attempt = Valid(record: Value) | Invalid | Error

  /**
   * Ask once: a failed call, an unparseable reply, a validation that raises,
   * or a dict-valued problem text (slicing it for the log raises) is an
   * error; a rejected record asks again.
   */
  function TryReply(parse: Parser, reply: Reply): (r: Attempt)
    ensures r.Valid? ==> r.record.Obj?
  {
    match reply
    case AgentFailed(_) => Error
    case Replied(t) =>
      match ParseResponse(parse, t)
      case None => Error
      case Some(v) =>
        match ValidateProblem(v)
        case Fail => Error
        case Reject => Invalid
        case Accept => if Lookup(v, "problem").value.Obj? then Error else Valid(v)
  }

  /** A valid attempt holds an accepted record whose problem text can be sliced. */
  lemma TryReplyValid(parse: Parser, reply: Reply)
    requires TryReply(parse, reply).Valid?
    ensures ValidateProblem(TryReply(parse, reply).record) == Accept
    ensures Lookup(TryReply(parse, reply).record, "problem").Ok?
    ensures !Lookup(TryReply(parse, reply).record, "problem").value.Obj?
  {
    ValidateProblemAccepts(TryReply(parse, reply).record);
  }

  /** The attempts of successive calls, one per reply. */
  function TryAll(parse: Parser, replies: seq<Reply>): (r: seq<Attempt>)
    ensures |r| == |replies| && forall k :: 0 <= k < |r| ==> r[k] == TryReply(parse, replies[k])
  {
    seq(|replies|, k requires 0 <= k < |replies| => TryReply(parse, replies[k]))
  }

  /** Follow the retries: the first attempt that is not rejected decides. */
  function FirstValid(attempts: seq<Attempt>): Result<Value>
  {
    if attempts == [] then Raise
    else
      match attempts[0]
      case Valid(v) => Ok(v)
      case Invalid => FirstValid(attempts[1..])
      case Error => Raise
  }

  lemma {:induction false} FirstValidWitness(attempts: seq<Attempt>, v: Value)
    requires FirstValid(attempts) == Ok(v)
    ensures exists k ::
      0 <= k < |attempts| && attempts[k] == Valid(v) && forall j :: 0 <= j < k ==> attempts[j] == Invalid
  {
    if attempts[0] != Valid(v) {
      var tail := attempts[1..];
      FirstValidWitness(tail, v);
      var k :| 0 <= k < |tail| && tail[k] == Valid(v)
        && forall j :: 0 <= j < k ==> tail[j] == Invalid;
      assert attempts[k + 1] == Valid(v);
      assert forall j :: 0 < j < k + 1 ==> attempts[j] == tail[j - 1];
    }
  }

  lemma {:induction false} FirstValidAt(attempts: seq<Attempt>, k: nat, v: Value)
    requires k < |attempts| && attempts[k] == Valid(v)
    requires forall j :: 0 <= j < k ==> attempts[j] == Invalid
    ensures FirstValid(attempts) == Ok(v)
  {
    if k > 0 {
      var tail := attempts[1..];
      assert attempts[0] == Invalid;
      assert forall j :: 0 <= j < k - 1 ==> tail[j] == attempts[j + 1];
      FirstValidAt(tail, k - 1, v);
    }
  }

  /** The record returned is that of the first valid attempt, all before it rejected. */
  lemma FirstValidIsFirst(attempts: seq<Attempt>, v: Value)
    ensures FirstValid(attempts) == Ok(v) <==>
      exists k :: 0 <= k < |attempts| && attempts[k] == Valid(v)
        && forall j :: 0 <= j < k ==> attempts[j] == Invalid
  {
    if FirstValid(attempts) == Ok(v) {
      FirstValidWitness(attempts, v);
    }
    if exists k :: 0 <= k < |attempts| && attempts[k] == Valid(v)
        && forall j :: 0 <= j < k ==> attempts[j] == Invalid {
      var k :| 0 <= k < |attempts| && attempts[k] == Valid(v)
        && forall j :: 0 <= j < k ==> attempts[j] == Invalid;
      FirstValidAt(attempts, k, v);
    }
  }

  /**
   * `generate_problem`: ask until a reply is valid or one fails.  The list of
   * replies bounds the retries; running out of it stands for Python's
   * recursion limit, which raises.
   */
  function GenerateProblem(parse: Parser, replies: seq<Reply>): (r: Result<Value>)
    ensures r.Ok? ==> r.value.Obj?
  {
    var r := FirstValid(TryAll(parse, replies));
    if r.Ok? then FirstValidWitness(TryAll(parse, replies), r.value); r else r
  }

  /**
   * The record returned is that of the first valid reply, every reply
   * before it having been rejected; and it passes validation.
   */
  lemma GenerateProblemFirstValid(parse: Parser, replies: seq<Reply>, v: Value)
    ensures GenerateProblem(parse, replies) == Ok(v) <==>
      exists k :: 0 <= k < |replies| && TryAll(parse, replies)[k] == Valid(v)
        && forall j :: 0 <= j < k ==> TryAll(parse, replies)[j] == Invalid
    ensures GenerateProblem(parse, replies) == Ok(v) ==> ValidateProblem(v) == Accept
  {
    var attempts := TryAll(parse, replies);
    FirstValidIsFirst(attempts, v);
    if GenerateProblem(parse, replies) == Ok(v) {
      var k :| 0 <= k < |attempts| && attempts[k] == Valid(v);
      TryReplyValid(parse, replies[k]);
    }
  }

  /** `gen_<n>`. */
  function GenId(n: nat): string
  {
    "gen_" + NatToString(n)
  }

  /** The identifier and stage written onto an accepted record of iteration `n`. */
  function Tag(v: Value, n: nat): (r: Value)
    requires v.Obj?
    ensures r.Obj? && Get(r.fields, "id") == Some(Str(GenId(n)))
    ensures Get(r.fields, "stage") == Some(Str("stage1_base"))
  {
    Set(Set(v, "id", Str(GenId(n))), "stage", Str("stage1_base"))
  }

  /** A tagged record is as valid as the agent's record. */
  lemma TagKeepsValid(v: Value, n: nat)
    requires v.Obj?
    ensures ValidateProblem(Tag(v, n)) == ValidateProblem(v)
  {
    ValidateIgnoresOtherKeys(v, "id", Str(GenId(n)));
    ValidateIgnoresOtherKeys(Set(v, "id", Str(GenId(n))), "stage", Str("stage1_base"));
  }

  /** What each iteration's `generate_problem` call comes to. */
  function IterationOutcomes(parse: Parser, attempts: seq<seq<Reply>>): (r: seq<Result<Value>>)
    ensures |r| == |attempts|
    ensures forall k :: 0 <= k < |r| ==> r[k] == GenerateProblem(parse, attempts[k])
  {
    seq(|attempts|, k requires 0 <= k < |attempts| => GenerateProblem(parse, attempts[k]))
  }

  predicate AllDicts(outs: seq<Result<Value>>)
  {
    forall k :: 0 <= k < |outs| && outs[k].Ok? ==> outs[k].value.Obj?
  }

  /**
   * The records collected from the outcomes of the first `|outs|`
   * iterations: a produced record is tagged with its iteration number, a
   * failure is skipped.
   */
  function Collect(outs: seq<Result<Value>>): seq<Value>
    requires AllDicts(outs)
  {
    if outs == [] then []
    else
      var earlier := Collect(outs[..|outs| - 1]);
      match outs[|outs| - 1]
      case Ok(v) => earlier + [Tag(v, |outs|)]
      case Raise => earlier
  }

  /** The iteration numbers that produced the collected records. */
  ghost function CollectNumbers(outs: seq<Result<Value>>): seq<nat>
  {
    if outs == [] then []
    else
      var earlier := CollectNumbers(outs[..|outs| - 1]);
      if outs[|outs| - 1].Ok? then earlier + [|outs|] else earlier
  }

  /** The records `generate_problems` returns after all its iterations. */
  function Stage1(parse: Parser, attempts: seq<seq<Reply>>): seq<Value>
  {
    Collect(IterationOutcomes(parse, attempts))
  }

  /** One record per produced outcome. */
  lemma {:induction false} CollectLength(outs: seq<Result<Value>>)
    requires AllDicts(outs)
    ensures |Collect(outs)| == |CollectNumbers(outs)| <= |outs|
  {
    if outs != [] {
      CollectLength(outs[..|outs| - 1]);
    }
  }

  /** Records are numbered by strictly increasing iterations, from 1 to `|outs|`. */
  lemma {:induction false} NumbersIncrease(outs: seq<Result<Value>>)
    ensures forall k :: 0 <= k < |CollectNumbers(outs)| ==> 1 <= CollectNumbers(outs)[k] <= |outs|
    ensures forall i, j :: 0 <= i < j < |CollectNumbers(outs)| ==>
      CollectNumbers(outs)[i] < CollectNumbers(outs)[j]
  {
    if outs != [] {
      NumbersIncrease(outs[..|outs| - 1]);
    }
  }

  /**
   * Every collected record carries the stage tag and the identifier of the
   * iteration that produced it.
   */
  lemma {:induction false} CollectIds(outs: seq<Result<Value>>)
    requires AllDicts(outs)
    ensures |Collect(outs)| == |CollectNumbers(outs)|
    ensures forall k :: 0 <= k < |Collect(outs)| ==>
      && Lookup(Collect(outs)[k], "id") == Ok(Str(GenId(CollectNumbers(outs)[k])))
      && Lookup(Collect(outs)[k], "stage") == Ok(Str("stage1_base"))
  {
    if outs != [] {
      CollectIds(outs[..|outs| - 1]);
      CollectLength(outs);
    }
  }

  /** Collected records are the tagged produced records, so they pass validation. */
  lemma {:induction false} CollectValid(outs: seq<Result<Value>>)
    requires AllDicts(outs)
    requires forall k :: 0 <= k < |outs| && outs[k].Ok? ==> ValidateProblem(outs[k].value) == Accept
    ensures forall k :: 0 <= k < |Collect(outs)| ==> ValidateProblem(Collect(outs)[k]) == Accept
  {
    if outs != [] {
      CollectValid(outs[..|outs| - 1]);
      var last := outs[|outs| - 1];
      if last.Ok? {
        TagKeepsValid(last.value, |outs|);
      }
    }
  }

  /** Every record `generate_problems` returns passed validation. */
  lemma Stage1Valid(parse: Parser, attempts: seq<seq<Reply>>)
    ensures forall k :: 0 <= k < |Stage1(parse, attempts)| ==>
      ValidateProblem(Stage1(parse, attempts)[k]) == Accept
  {
    var outs := IterationOutcomes(parse, attempts);
    forall k | 0 <= k < |outs| && outs[k].Ok?
      ensures ValidateProblem(outs[k].value) == Accept
    {
      GenerateProblemFirstValid(parse, attempts[k], outs[k].value);
    }
    CollectValid(outs);
  }

  /** `generate_problems` keeps at most one record per iteration. */
  lemma Stage1Length(parse: Parser, attempts: seq<seq<Reply>>)
    ensures |Stage1(parse, attempts)| <= |attempts|
  {
    CollectLength(IterationOutcomes(parse, attempts));
  }

  /** At most one record per iteration, and no two share an identifier. */
  lemma Stage1IdsDistinct(parse: Parser, attempts: seq<seq<Reply>>, i: nat, j: nat)
    requires i < j < |Stage1(parse, attempts)|
    ensures |Stage1(parse, attempts)| <= |attempts|
    ensures Lookup(Stage1(parse, attempts)[i], "id") != Lookup(Stage1(parse, attempts)[j], "id")
  {
    var outs := IterationOutcomes(parse, attempts);
    CollectLength(outs);
    NumbersIncrease(outs);
    CollectIds(outs);
    var ns := CollectNumbers(outs);
    NatToStringInjective(ns[i], ns[j]);
    assert GenId(ns[i])[4..] == NatToString(ns[i]);
    assert GenId(ns[j])[4..] == NatToString(ns[j]);
  }

  /** `generate_problems`: one attempt per iteration, failures skipped. */
  method GenerateProblems(parse: Parser, attempts: seq<seq<Reply>>) returns (problems: seq<Value>)
    ensures problems == Stage1(parse, attempts)
  {
    ghost var outs := IterationOutcomes(parse, attempts);
    problems := [];
    for i := 0 to |attempts|
      invariant problems == Collect(outs[..i])
    {
      assert outs[..i + 1][..i] == outs[..i];
      var outcome := GenerateProblem(parse, attempts[i]);
      if outcome.Ok? {
        problems := problems + [Tag(outcome.value, i + 1)];
      }
    }
    assert outs[..|attempts|] == outs;
  }
}
