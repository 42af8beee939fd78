/**
 * The analysis of the stored verifications: the statistics (status counts,
 * average scores, score distribution) and the two exported selections, the
 * approved problems and the problems scored at least 4 in every dimension.
 * The verifications are the dict loaded from the verifications file; the
 * plots and the printed report are not modelled.
 */
module VerificationAnalysis {
  import opened Outcomes
  import opened Dicts
  import opened Json
  import opened Verdicts

  /** A position in a five-entry distribution list. */
  type BucketIndex = b: int | 0 <= b < 5

  /** A distribution per dimension: `n` lists of five counts. */
  ghost predicate Shaped(dist: seq<seq<nat>>, n: nat)
  {
    |dist| == n && forall j :: 0 <= j < n ==> |dist[j]| == 5
  }

  /**
   * `score_distribution[key][score - 1]`: the score must be an integer (or a
   * bool), and Python's negative indices let 0 down to -4 wrap round to the
   * end of the list; anything further out raises `IndexError`.
   */
  function Bucket(score: Value): (r: Result<BucketIndex>)
    ensures score.Int? && 1 <= score.i <= 5 ==> r == Ok(score.i - 1)
    ensures score.Int? && -4 <= score.i <= 0 ==> r == Ok(score.i + 4)
    ensures score.Bool? ==> r == Ok(if score.b then 0 else 4)
    ensures r.Ok? <==> (score.Int? && -4 <= score.i <= 5) || score.Bool?
  {
    var index :- match score
      case Int(i) => Ok(i - 1)
      case Bool(b) => Ok(if b then 0 else -1)
      case _ => Raise;
    if 0 <= index < 5 then Ok(index)
    else if -5 <= index < 0 then Ok(index + 5)
    else Raise
  }

  /** The bucket of `v['scores'][key]`. */
  function ScoreBucket(v: Value, key: string): Result<BucketIndex>
  {
    var s :- ScoreValue(v, key);
    Bucket(s)
  }

  /** One record's bucket in each of the dimensions `keys`. */
  function RecordBuckets(v: Value, keys: seq<string>): (r: seq<Result<BucketIndex>>)
    ensures |r| == |keys| && forall j :: 0 <= j < |keys| ==> r[j] == ScoreBucket(v, keys[j])
  {
    seq(|keys|, j requires 0 <= j < |keys| => ScoreBucket(v, keys[j]))
  }

  /** The inner loop of the distribution: one record's buckets from dimension `k` on, each counted once more. */
  function AddBuckets(dist: seq<seq<nat>>, buckets: seq<Result<BucketIndex>>, k: nat): (r: Result<seq<seq<nat>>>)
    requires Shaped(dist, |buckets|) && k <= |buckets|
    ensures r.Ok? ==> Shaped(r.value, |buckets|)
    decreases |buckets| - k
  {
    if k == |buckets| then Ok(dist)
    else
      var b :- buckets[k];
      AddBuckets(dist[k := dist[k][b := dist[k][b] + 1]], buckets, k + 1)
  }

  /**
   * A record's buckets are counted exactly when each remaining one exists,
   * and then each remaining dimension's count grows at that bucket alone.
   */
  lemma {:induction false} AddBucketsSpec(dist: seq<seq<nat>>, buckets: seq<Result<BucketIndex>>, k: nat)
    requires Shaped(dist, |buckets|) && k <= |buckets|
    ensures AddBuckets(dist, buckets, k).Ok? <==> forall j :: k <= j < |buckets| ==> buckets[j].Ok?
    ensures AddBuckets(dist, buckets, k).Ok? ==> forall j, b :: 0 <= j < |buckets| && 0 <= b < 5 ==>
      AddBuckets(dist, buckets, k).value[j][b]
        == dist[j][b] + if k <= j && buckets[j].Ok? && buckets[j].value == b then 1 else 0
    decreases |buckets| - k
  {
    if k < |buckets| && buckets[k].Ok? {
      var b := buckets[k].value;
      var next := dist[k := dist[k][b := dist[k][b] + 1]];
      assert forall j, c :: 0 <= j < |buckets| && 0 <= c < 5 ==>
        next[j][c] == dist[j][c] + if j == k && c == b then 1 else 0;
      AddBucketsSpec(next, buckets, k + 1);
    }
  }

  /** Five zero counts per dimension. */
  function EmptyDistribution(keys: seq<string>): (r: seq<seq<nat>>)
    ensures Shaped(r, |keys|) && forall j, b :: 0 <= j < |keys| && 0 <= b < 5 ==> r[j][b] == 0
  {
    seq(|keys|, _ => [0, 0, 0, 0, 0])
  }

  /** The distribution of the dimensions `keys` after the records `vs`, record by record. */
  function Distribution(vs: seq<Value>, keys: seq<string>): (r: Result<seq<seq<nat>>>)
    ensures r.Ok? ==> Shaped(r.value, |keys|)
  {
    if vs == [] then Ok(EmptyDistribution(keys))
    else
      var dist :- Distribution(vs[..|vs| - 1], keys);
      AddBuckets(dist, RecordBuckets(vs[|vs| - 1], keys), 0)
  }

  /** How many of the records `vs` fall in bucket `b` of dimension `key`. */
  function BucketCount(vs: seq<Value>, key: string, b: BucketIndex): nat
  {
    if vs == [] then 0
    else BucketCount(vs[..|vs| - 1], key, b) + if ScoreBucket(vs[|vs| - 1], key).Ok? && ScoreBucket(vs[|vs| - 1], key).value == b then 1 else 0
  }

  /**
   * The distribution exists exactly when every score of every record has a
   * bucket, and then each count is the number of records in that bucket.
   */
  lemma {:induction false} DistributionCounts(vs: seq<Value>, keys: seq<string>)
    ensures Distribution(vs, keys).Ok? <==>
      forall i, k :: 0 <= i < |vs| && 0 <= k < |keys| ==> ScoreBucket(vs[i], keys[k]).Ok?
    ensures Distribution(vs, keys).Ok? ==> forall k, b :: 0 <= k < |keys| && 0 <= b < 5 ==>
      Distribution(vs, keys).value[k][b] == BucketCount(vs, keys[k], b)
  {
    if vs != [] {
      var init, v := vs[..|vs| - 1], vs[|vs| - 1];
      DistributionCounts(init, keys);
      assert forall i :: 0 <= i < |init| ==> init[i] == vs[i];
      if Distribution(init, keys).Ok? {
        AddBucketsSpec(Distribution(init, keys).value, RecordBuckets(v, keys), 0);
      }
      assert Distribution(vs, keys).Ok? <==>
        && Distribution(init, keys).Ok?
        && forall k :: 0 <= k < |keys| ==> ScoreBucket(v, keys[k]).Ok?;
      if forall i, k :: 0 <= i < |vs| && 0 <= k < |keys| ==> ScoreBucket(vs[i], keys[k]).Ok? {
        assert forall i, k :: 0 <= i < |init| && 0 <= k < |keys| ==> ScoreBucket(init[i], keys[k]).Ok?;
      } else {
        var i, k :| 0 <= i < |vs| && 0 <= k < |keys| && ScoreBucket(vs[i], keys[k]).Raise?;
        if i == |vs| - 1 {
          assert ScoreBucket(v, keys[k]).Raise?;
        } else {
          assert ScoreBucket(init[i], keys[k]).Raise?;
        }
      }
    }
  }

  /** Once the distribution of a prefix raises, the distribution of the whole list raises. */
  lemma {:induction false} DistributionRaiseSticks(vs: seq<Value>, keys: seq<string>, n: nat)
    requires n <= |vs| && Distribution(vs[..n], keys).Raise?
    ensures Distribution(vs, keys).Raise?
    decreases |vs| - n
  {
    if n < |vs| {
      assert vs[..n + 1][..n] == vs[..n];
      DistributionRaiseSticks(vs, keys, n + 1);
    } else {
      assert vs[..n] == vs;
    }
  }

  /** `v['scores'][key]` is an integer from 1 to 5, as the tool's sliders give it. */
  predicate Rated(v: Value, key: string)
  {
    ScoreValue(v, key).Ok? && ScoreValue(v, key).value.Int? && 1 <= ScoreValue(v, key).value.i <= 5
  }

  /** How many of the records `vs` score exactly `n` in dimension `key`. */
  function ScoreCount(vs: seq<Value>, key: string, n: int): nat
  {
    if vs == [] then 0
    else ScoreCount(vs[..|vs| - 1], key, n) + if ScoreValue(vs[|vs| - 1], key) == Ok(Int(n)) then 1 else 0
  }

  /**
   * With every score of a dimension from 1 to 5, bucket b counts the
   * scores equal to b + 1, and the five buckets together count every record.
   */
  lemma {:induction false} RatedBuckets(vs: seq<Value>, key: string)
    requires forall i :: 0 <= i < |vs| ==> Rated(vs[i], key)
    ensures forall b: BucketIndex :: BucketCount(vs, key, b) == ScoreCount(vs, key, b + 1)
    ensures BucketCount(vs, key, 0) + BucketCount(vs, key, 1) + BucketCount(vs, key, 2)
            + BucketCount(vs, key, 3) + BucketCount(vs, key, 4) == |vs|
  {
    if vs != [] {
      var init := vs[..|vs| - 1];
      assert forall i :: 0 <= i < |init| ==> init[i] == vs[i];
      RatedBuckets(init, key);
    }
  }

  /** The statistics: none for no verifications. */
  datatype Statistics =
    | NoStatistics
    | Statistics(total: nat, approved: nat, rejected: nat, needsRevision: nat,
                 avgScores: seq<real>, distribution: seq<seq<nat>>)

  /**
   * `get_statistics` over the verifications `vs`: the status counts, the
   * average scores and the score distribution; any record without a status,
   * a numeric score or a bucket for it raises.
   */
  function StatisticsOf(vs: seq<Value>): (r: Result<Statistics>)
    ensures vs == [] <==> r == Ok(NoStatistics)
    ensures r.Ok? && r.value.Statistics? ==>
      && r.value.total == |vs|
      && CountStatus(vs, "approved") == Ok(r.value.approved)
      && |r.value.avgScores| == 4
      && Shaped(r.value.distribution, 4)
  {
    if vs == [] then Ok(NoStatistics)
    else
      var approved :- CountStatus(vs, "approved");
      var rejected :- CountStatus(vs, "rejected");
      var needsRevision :- CountStatus(vs, "needs_revision");
      var sums :- ScoreSums(vs, ScoreKeys);
      var distribution :- Distribution(vs, ScoreKeys);
      Ok(Statistics(|vs|, approved, rejected, needsRevision, Averages(sums, |vs|), distribution))
  }

  /**
   * The statistics of some verifications: the status counts add up to at
   * most the total, each average is the dimension's total over the number
   * of verifications, and each distribution count is the number of records
   * in that bucket.
   */
  lemma StatisticsSpec(vs: seq<Value>)
    requires StatisticsOf(vs).Ok? && StatisticsOf(vs).value.Statistics?
    ensures var s := StatisticsOf(vs).value;
      && s.approved + s.rejected + s.needsRevision <= s.total
      && (forall k :: 0 <= k < 4 ==>
            Total(vs, ScoreKeys[k]).Ok? && s.avgScores[k] == Total(vs, ScoreKeys[k]).value / (|vs| as real))
      && (forall k, b :: 0 <= k < 4 && 0 <= b < 5 ==> s.distribution[k][b] == BucketCount(vs, ScoreKeys[k], b))
  {
    StatusesBounded(vs);
    ScoreSumsTotals(vs, ScoreKeys);
    DistributionCounts(vs, ScoreKeys);
  }

  /** `get_statistics`, with its nested loops over the records and the dimensions. */
  method GetStatistics(verifications: Dict<string, Value>) returns (r: Result<Statistics>)
    ensures r == StatisticsOf(Values(verifications))
  {
    var vs := Values(verifications);
    if |vs| == 0 {
      return Ok(NoStatistics);
    }
    var approved := CountStatus(vs, "approved");
    var rejected := CountStatus(vs, "rejected");
    var needsRevision := CountStatus(vs, "needs_revision");
    if approved.Raise? || rejected.Raise? || needsRevision.Raise? {
      return Raise;
    }
    var sums := AccumulateScores(vs, ScoreKeys);
    if sums.Raise? {
      return Raise;
    }
    var distribution := TallyScores(vs, ScoreKeys);
    if distribution.Raise? {
      return Raise;
    }
    return Ok(Statistics(|vs|, approved.value, rejected.value, needsRevision.value,
                         Averages(sums.value, |vs|), distribution.value));
  }

  /** The distribution loop: for every record, for every dimension, `score_distribution[key][score - 1] += 1`. */
  method TallyScores(vs: seq<Value>, keys: seq<string>) returns (r: Result<seq<seq<nat>>>)
    ensures r == Distribution(vs, keys)
  {
    var dist := EmptyDistribution(keys);
    for i := 0 to |vs|
      invariant Distribution(vs[..i], keys) == Ok(dist)
    {
      assert vs[..i + 1][..i] == vs[..i];
      var next := AddRecordBuckets(dist, RecordBuckets(vs[i], keys));
      if next.Raise? {
        DistributionRaiseSticks(vs, keys, i + 1);
        return Raise;
      }
      dist := next.value;
    }
    assert vs[..|vs|] == vs;
    return Ok(dist);
  }

  /** The inner loop of `TallyScores`, over the dimensions of one record. */
  method AddRecordBuckets(dist: seq<seq<nat>>, buckets: seq<Result<BucketIndex>>) returns (r: Result<seq<seq<nat>>>)
    requires Shaped(dist, |buckets|)
    ensures r == AddBuckets(dist, buckets, 0)
  {
    var next := dist;
    for k := 0 to |buckets|
      invariant Shaped(next, |buckets|)
      invariant AddBuckets(dist, buckets, 0) == AddBuckets(next, buckets, k)
    {
      if buckets[k].Raise? {
        return Raise;
      }
      var b := buckets[k].value;
      next := next[k := next[k][b := next[k][b] + 1]];
    }
    return Ok(next);
  }

  /** `v['status'] == 'approved'`. */
  function IsApproved(v: Value): (r: Result<bool>)
    ensures r.Ok? <==> Lookup(v, "status").Ok?
    ensures r.Ok? ==> (r.value <==> Lookup(v, "status").value == Str("approved"))
  {
    var s :- Lookup(v, "status");
    Ok(s == Str("approved"))
  }

  /** `all(score >= t for score in scores)`: stops at the first score below `t`. */
  function AllAtLeast(scores: seq<Value>, t: real): Result<bool>
  {
    if scores == [] then Ok(true)
    else
      var high :- AtLeast(scores[0], t);
      if !high then Ok(false) else AllAtLeast(scores[1..], t)
  }

  /**
   * All scores reach `t` exactly when each is a number at least `t`; a
   * comparison with a non-number raises only when every score before it
   * reached `t`.
   */
  lemma {:induction false} AllAtLeastSpec(scores: seq<Value>, t: real)
    ensures AllAtLeast(scores, t) == Ok(true) <==>
      forall i :: 0 <= i < |scores| ==> Numeric(scores[i]).Ok? && Numeric(scores[i]).value >= t
    ensures AllAtLeast(scores, t).Raise? <==>
      exists i :: 0 <= i < |scores| && Numeric(scores[i]).Raise?
        && forall j :: 0 <= j < i ==> Numeric(scores[j]).Ok? && Numeric(scores[j]).value >= t
  {
    if scores != [] {
      AllAtLeastSpec(scores[1..], t);
      assert forall i :: 1 <= i < |scores| ==> scores[i] == scores[1..][i - 1];
      if AllAtLeast(scores[1..], t).Raise? && Numeric(scores[0]).Ok? && Numeric(scores[0]).value >= t {
        var i :| 0 <= i < |scores[1..]| && Numeric(scores[1..][i]).Raise?
          && forall j :: 0 <= j < i ==> Numeric(scores[1..][j]).Ok? && Numeric(scores[1..][j]).value >= t;
        assert Numeric(scores[i + 1]).Raise?;
      }
    }
  }

  /** `all(score >= 4 for score in v['scores'].values())`. */
  function IsHighQuality(v: Value): Result<bool>
  {
    var scores :- Lookup(v, "scores");
    if !scores.Obj? then Raise else AllAtLeast(Values(scores.fields), 4.0)
  }

  /** A record is high quality exactly when it has a scores dict whose every score is a number of at least 4. */
  lemma HighQualityIff(v: Value)
    ensures IsHighQuality(v) == Ok(true) <==>
      && Lookup(v, "scores").Ok? && Lookup(v, "scores").value.Obj?
      && forall s :: s in Values(Lookup(v, "scores").value.fields) ==> Numeric(s).Ok? && Numeric(s).value >= 4.0
  {
    if Lookup(v, "scores").Ok? && Lookup(v, "scores").value.Obj? {
      AllAtLeastSpec(Values(Lookup(v, "scores").value.fields), 4.0);
    }
  }

  /** `export_approved_problems`: the problems of the approved verifications. */
  function ApprovedProblems(vs: seq<Value>): Result<seq<Value>>
  {
    Selected(vs, IsApproved)
  }

  /** `export_high_quality_problems`: the problems of the verifications scored at least 4 everywhere. */
  function HighQualityProblems(vs: seq<Value>): Result<seq<Value>>
  {
    Selected(vs, IsHighQuality)
  }

  /** How many records `keep` accepts. */
  function KeptCount(vs: seq<Value>, keep: Value -> Result<bool>): nat
  {
    if vs == [] then 0 else (if keep(vs[0]) == Ok(true) then 1 else 0) + KeptCount(vs[1..], keep)
  }

  /**
   * A selection succeeds exactly when `keep` decides every record and every
   * kept record has a problem; it then holds one problem per kept record,
   * the problem of each kept record, and nothing else.
   */
  lemma {:induction false} SelectedSpec(vs: seq<Value>, keep: Value -> Result<bool>)
    ensures Selected(vs, keep).Ok? <==>
      forall i :: 0 <= i < |vs| ==> keep(vs[i]).Ok? && (keep(vs[i]).value ==> Lookup(vs[i], "problem").Ok?)
    ensures Selected(vs, keep).Ok? ==>
      && |Selected(vs, keep).value| == KeptCount(vs, keep)
      && (forall i :: 0 <= i < |vs| && keep(vs[i]) == Ok(true) ==> Lookup(vs[i], "problem").value in Selected(vs, keep).value)
      && (forall p :: p in Selected(vs, keep).value ==>
            exists i :: 0 <= i < |vs| && keep(vs[i]) == Ok(true) && Lookup(vs[i], "problem") == Ok(p))
  {
    if vs != [] {
      SelectedSpec(vs[1..], keep);
      assert forall i :: 1 <= i < |vs| ==> vs[i] == vs[1..][i - 1];
      if Selected(vs, keep).Ok? {
        forall p | p in Selected(vs, keep).value
          ensures exists i :: 0 <= i < |vs| && keep(vs[i]) == Ok(true) && Lookup(vs[i], "problem") == Ok(p)
        {
          if p !in Selected(vs[1..], keep).value {
            assert keep(vs[0]) == Ok(true) && Lookup(vs[0], "problem") == Ok(p);
          } else {
            var i :| 0 <= i < |vs[1..]| && keep(vs[1..][i]) == Ok(true) && Lookup(vs[1..][i], "problem") == Ok(p);
            assert vs[i + 1] == vs[1..][i];
          }
        }
      }
    }
  }

  /** The approved export holds exactly as many problems as the statistics count as approved. */
  lemma ApprovedExportCount(vs: seq<Value>)
    requires StatisticsOf(vs).Ok? && StatisticsOf(vs).value.Statistics?
    ensures ApprovedProblems(vs).Ok? ==> |ApprovedProblems(vs).value| == StatisticsOf(vs).value.approved
  {
    SelectedSpec(vs, IsApproved);
    ApprovedCounted(vs);
  }

  /** Counting the records `IsApproved` accepts is counting the approved statuses. */
  lemma {:induction false} ApprovedCounted(vs: seq<Value>)
    requires CountStatus(vs, "approved").Ok?
    ensures KeptCount(vs, IsApproved) == CountStatus(vs, "approved").value
  {
    if vs != [] {
      assert forall i :: 0 <= i < |vs[1..]| ==> vs[1..][i] == vs[i + 1];
      ApprovedCounted(vs[1..]);
    }
  }
}
