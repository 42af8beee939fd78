/**
 * Verification records as the verification tool stores them and the
 * analysis script reads them back: a `status`, a `scores` dict over four
 * dimensions and the `problem` that was verified.  Both programs count the
 * statuses and add up the scores of the stored records; those counts and
 * sums are defined here once.
 */
module Verdicts {
  import opened Outcomes
  import opened Dicts
  import opened Json

  /** The four score dimensions, in the order both programs list them. */
  const ScoreKeys: seq<string> := ["correctness", "clarity", "difficulty_match", "completeness"]

  /** `sum(1 for v in vs if v['status'] == status)`: `v['status']` raises for a record without one. */
  function CountStatus(vs: seq<Value>, status: string): (r: Result<nat>)
    ensures r.Ok? <==> forall i :: 0 <= i < |vs| ==> Lookup(vs[i], "status").Ok?
    ensures r.Ok? ==> r.value <= |vs|
  {
    if vs == [] then Ok(0)
    else
      var s :- Lookup(vs[0], "status");
      var n :- CountStatus(vs[1..], status);
      assert forall i :: 1 <= i < |vs| ==> vs[i] == vs[1..][i - 1];
      Ok(if s == Str(status) then n + 1 else n)
  }

  /** No record has two statuses: the approved, rejected and needs-revision counts add up to at most the total. */
  lemma {:induction false} StatusesBounded(vs: seq<Value>)
    requires forall i :: 0 <= i < |vs| ==> Lookup(vs[i], "status").Ok?
    ensures CountStatus(vs, "approved").value + CountStatus(vs, "rejected").value
            + CountStatus(vs, "needs_revision").value <= |vs|
  {
    if vs != [] {
      assert forall i :: 0 <= i < |vs[1..]| ==> vs[1..][i] == vs[i + 1];
      StatusesBounded(vs[1..]);
    }
  }

  /** `v['scores'][key]`. */
  function ScoreValue(v: Value, key: string): Result<Value>
  {
    var scores :- Lookup(v, "scores");
    Lookup(scores, key)
  }

  /** `v['scores'][key]` added to a number: `TypeError` unless it is a number. */
  function Score(v: Value, key: string): Result<real>
  {
    var s :- ScoreValue(v, key);
    Numeric(s)
  }

  /** One record's score in each of the dimensions `keys`, as `v['scores'][key]` reads it. */
  function RecordScores(v: Value, keys: seq<string>): (r: seq<Result<real>>)
    ensures |r| == |keys| && forall j :: 0 <= j < |keys| ==> r[j] == Score(v, keys[j])
  {
    seq(|keys|, j requires 0 <= j < |keys| => Score(v, keys[j]))
  }

  /** The inner loop over the dimensions: one record's `scores` from dimension `k` on added to `sums`. */
  function AddScores(sums: seq<real>, scores: seq<Result<real>>, k: nat): (r: Result<seq<real>>)
    requires |sums| == |scores| && k <= |scores|
    ensures r.Ok? ==> |r.value| == |scores|
    decreases |scores| - k
  {
    if k == |scores| then Ok(sums)
    else
      var s :- scores[k];
      AddScores(sums[k := sums[k] + s], scores, k + 1)
  }

  /**
   * The record's scores are added exactly when each remaining one is a
   * number, and each remaining dimension grows by its score.
   */
  lemma {:induction false} AddScoresSpec(sums: seq<real>, scores: seq<Result<real>>, k: nat)
    requires |sums| == |scores| && k <= |scores|
    ensures AddScores(sums, scores, k).Ok? <==> forall j :: k <= j < |scores| ==> scores[j].Ok?
    ensures AddScores(sums, scores, k).Ok? ==> forall j :: 0 <= j < |scores| ==>
      AddScores(sums, scores, k).value[j] == if j < k then sums[j] else sums[j] + scores[j].value
    decreases |scores| - k
  {
    if k < |scores| && scores[k].Ok? {
      AddScoresSpec(sums[k := sums[k] + scores[k].value], scores, k + 1);
    }
  }

  /** Every dimension at 0. */
  function Zeros(keys: seq<string>): (r: seq<real>)
    ensures |r| == |keys| && forall j :: 0 <= j < |keys| ==> r[j] == 0.0
  {
    seq(|keys|, _ => 0.0)
  }

  /** The running totals of the dimensions `keys` after the records `vs`, record by record. */
  function ScoreSums(vs: seq<Value>, keys: seq<string>): (r: Result<seq<real>>)
    ensures r.Ok? ==> |r.value| == |keys|
  {
    if vs == [] then Ok(Zeros(keys))
    else
      var sums :- ScoreSums(vs[..|vs| - 1], keys);
      AddScores(sums, RecordScores(vs[|vs| - 1], keys), 0)
  }

  /** One dimension's total, added from the front: the reference for `ScoreSums`. */
  function Total(vs: seq<Value>, key: string): Result<real>
  {
    if vs == [] then Ok(0.0)
    else
      var s :- Score(vs[0], key);
      var rest :- Total(vs[1..], key);
      Ok(s + rest)
  }

  /** A total grows by the score of a record added at the end. */
  lemma {:induction false} TotalSnoc(vs: seq<Value>, v: Value, key: string)
    ensures Total(vs + [v], key).Ok? <==> Total(vs, key).Ok? && Score(v, key).Ok?
    ensures Total(vs + [v], key).Ok? ==> Total(vs + [v], key).value == Total(vs, key).value + Score(v, key).value
  {
    if vs != [] {
      assert (vs + [v])[1..] == vs[1..] + [v];
      TotalSnoc(vs[1..], v, key);
    } else {
      assert ([] + [v])[1..] == [];
    }
  }

  /**
   * The running totals exist exactly when every score of every record is a
   * number, and then dimension k's total is the sum of its scores.
   */
  lemma {:induction false} ScoreSumsTotals(vs: seq<Value>, keys: seq<string>)
    ensures ScoreSums(vs, keys).Ok? <==> forall k :: 0 <= k < |keys| ==> Total(vs, keys[k]).Ok?
    ensures ScoreSums(vs, keys).Ok? ==> forall k :: 0 <= k < |keys| ==> ScoreSums(vs, keys).value[k] == Total(vs, keys[k]).value
  {
    if vs != [] {
      var init, v := vs[..|vs| - 1], vs[|vs| - 1];
      assert vs == init + [v];
      ScoreSumsTotals(init, keys);
      forall k | 0 <= k < |keys| {
        TotalSnoc(init, v, keys[k]);
      }
      if ScoreSums(init, keys).Ok? {
        AddScoresSpec(ScoreSums(init, keys).value, RecordScores(v, keys), 0);
      }
    }
  }

  /** Once the totals of a prefix raise, the totals of the whole list raise. */
  lemma {:induction false} ScoreSumsRaiseSticks(vs: seq<Value>, keys: seq<string>, n: nat)
    requires n <= |vs| && ScoreSums(vs[..n], keys).Raise?
    ensures ScoreSums(vs, keys).Raise?
    decreases |vs| - n
  {
    if n < |vs| {
      assert vs[..n + 1][..n] == vs[..n];
      ScoreSumsRaiseSticks(vs, keys, n + 1);
    } else {
      assert vs[..n] == vs;
    }
  }

  /**
   * The score loop both programs run: for every record, for every
   * dimension, `sums[key] += v['scores'][key]`.
   */
  method AccumulateScores(vs: seq<Value>, keys: seq<string>) returns (r: Result<seq<real>>)
    ensures r == ScoreSums(vs, keys)
  {
    var sums := Zeros(keys);
    for i := 0 to |vs|
      invariant ScoreSums(vs[..i], keys) == Ok(sums)
    {
      assert vs[..i + 1][..i] == vs[..i];
      var next := AddRecordScores(sums, RecordScores(vs[i], keys));
      if next.Raise? {
        ScoreSumsRaiseSticks(vs, keys, i + 1);
        return Raise;
      }
      sums := next.value;
    }
    assert vs[..|vs|] == vs;
    return Ok(sums);
  }

  /**
   * The inner loop of `AccumulateScores`, over the dimensions of one record;
   * `scores` are the record's scores (reading them raises nothing the
   * additions would not).
   */
  method AddRecordScores(sums: seq<real>, scores: seq<Result<real>>) returns (r: Result<seq<real>>)
    requires |sums| == |scores|
    ensures r == AddScores(sums, scores, 0)
  {
    var next := sums;
    for k := 0 to |scores|
      invariant |next| == |scores|
      invariant AddScores(sums, scores, 0) == AddScores(next, scores, k)
    {
      if scores[k].Raise? {
        return Raise;
      }
      next := next[k := next[k] + scores[k].value];
    }
    return Ok(next);
  }

  /** `v['problem'] for v in vs if keep(v)`: the condition first, then the problem of each kept record. */
  function Selected(vs: seq<Value>, keep: Value -> Result<bool>): (r: Result<seq<Value>>)
    ensures r.Ok? ==> |r.value| <= |vs|
  {
    if vs == [] then Ok([])
    else
      var k :- keep(vs[0]);
      if !k then Selected(vs[1..], keep)
      else
        var p :- Lookup(vs[0], "problem");
        var rest :- Selected(vs[1..], keep);
        Ok([p] + rest)
  }

  /** `sums[key] /= n` for every dimension. */
  function Averages(sums: seq<real>, n: nat): (r: seq<real>)
    requires n > 0
    ensures |r| == |sums| && forall j :: 0 <= j < |sums| ==> r[j] == sums[j] / (n as real)
  {
    seq(|sums|, j requires 0 <= j < |sums| => sums[j] / (n as real))
  }
}
