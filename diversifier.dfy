/**
 * Stage 2: enlarge the problem set.  The Self-Instruct pipeline's items are
 * converted to problem records (answer pulled out of the text, topic
 * inferred from the instruction); when anything in that path raises, the
 * agent is asked directly for variations of the first five problems.
 * The input problems always stay at the front of the result.
 */
module Diversifier {
  import opened Outcomes
  import opened Dicts
  import opened Json
  import opened Text
  import opened Agent

  /** `random.randint(100, 999)`, the answer used when none is found. */
  type Draw = n: int | 100 <= n <= 999 witness 100

  // ---------------------------------------------------------------------
  // _extract_answer

  /** The longest prefix of ASCII digits. */
  function DigitRun(s: string): (d: string)
    ensures |d| <= |s| && d == s[..|d|] && AllDigits(d)
    ensures |d| < |s| ==> !IsDigit(s[|d|])
  {
    if s != [] && IsDigit(s[0]) then
      var d := [s[0]] + DigitRun(s[1..]);
      assert d[1..] == DigitRun(s[1..]);
      d
    else []
  }

  /** `$`: the end of the text, or just before a newline that ends it. */
  predicate AtEnd(s: string, q: nat)
  {
    q == |s| || (q + 1 == |s| && s[q] == '\n')
  }

  /**
   * The pattern `lit(\d+)`, optionally followed by `$`, matched at position
   * `p` with ASCII case folding: the digits the group captures.
   */
  function MatchAt(s: string, p: nat, lit: string, anchored: bool): (r: Option<string>)
    ensures r.Some? ==> r.value != [] && AllDigits(r.value)
  {
    if p + |lit| <= |s| && Lower(s[p..p + |lit|]) == lit then
      var d := DigitRun(s[p + |lit|..]);
      if d != [] && (!anchored || AtEnd(s, p + |lit| + |d|)) then Some(d) else None
    else None
  }

  /** `re.search`: the match at the leftmost position from `p` on. */
  function Search(s: string, lit: string, anchored: bool, p: nat): (r: Option<string>)
    ensures r.Some? ==> r.value != [] && AllDigits(r.value)
    decreases |s| + 1 - p
  {
    if p > |s| then None
    else
      match MatchAt(s, p, lit, anchored)
      case Some(d) => Some(d)
      case None => Search(s, lit, anchored, p + 1)
  }

  /** What `Search` finds is the match at the leftmost matching position. */
  lemma {:induction false} SearchLeftmost(s: string, lit: string, anchored: bool, p: nat)
    ensures Search(s, lit, anchored, p).Some? ==>
      exists q :: p <= q <= |s| && MatchAt(s, q, lit, anchored) == Search(s, lit, anchored, p)
        && forall q' :: p <= q' < q ==> MatchAt(s, q', lit, anchored).None?
    ensures Search(s, lit, anchored, p).None? ==>
      forall q :: p <= q <= |s| ==> MatchAt(s, q, lit, anchored).None?
    decreases |s| + 1 - p
  {
    if p <= |s| {
      if MatchAt(s, p, lit, anchored).Some? {
        assert MatchAt(s, p, lit, anchored) == Search(s, lit, anchored, p);
      } else {
        SearchLeftmost(s, lit, anchored, p + 1);
        if Search(s, lit, anchored, p + 1).Some? {
          var q :| p + 1 <= q <= |s| && MatchAt(s, q, lit, anchored) == Search(s, lit, anchored, p + 1)
            && forall q' :: p + 1 <= q' < q ==> MatchAt(s, q', lit, anchored).None?;
          assert forall q' :: p <= q' < q ==> MatchAt(s, q', lit, anchored).None?;
        }
      }
    }
  }

  /** The captured digits of a pattern's first match, when it has one. */
  function FirstNumber(text: string, lit: string, anchored: bool): Option<nat>
  {
    match Search(text, lit, anchored, 0)
    case Some(d) => Some(DigitsValue(d))
    case None => None
  }

  /**
   * `_extract_answer`: the patterns `answer is N`, `answer: N` and `= N` at
   * the end, in that order; a pattern's first match counts only when its
   * number is at most 999, otherwise the next pattern is tried; with no
   * usable match the random draw is the answer.
   */
  function ExtractAnswer(text: string, draw: Draw): (r: int)
    ensures 0 <= r <= 999
  {
    var first := FirstNumber(text, "answer is ", false);
    if first.Some? && first.value <= 999 then first.value
    else
      var second := FirstNumber(text, "answer: ", false);
      if second.Some? && second.value <= 999 then second.value
      else
        var third := FirstNumber(text, "= ", true);
        if third.Some? && third.value <= 999 then third.value
        else draw
  }

  /** A match at `p` with no match before it is what the search finds. */
  lemma {:induction false} SearchFindsFirst(s: string, lit: string, anchored: bool, from: nat, p: nat)
    requires from <= p <= |s| && MatchAt(s, p, lit, anchored).Some?
    requires forall q :: from <= q < p ==> MatchAt(s, q, lit, anchored).None?
    ensures Search(s, lit, anchored, from) == MatchAt(s, p, lit, anchored)
    decreases p - from
  {
    if from < p {
      SearchFindsFirst(s, lit, anchored, from + 1, p);
    }
  }

  /** `n` is the number of the pattern's first match: the match at the leftmost position that matches. */
  ghost predicate FirstMatchIs(text: string, lit: string, anchored: bool, n: nat)
  {
    exists q :: 0 <= q <= |text| && MatchAt(text, q, lit, anchored).Some?
      && DigitsValue(MatchAt(text, q, lit, anchored).value) == n
      && forall q' :: 0 <= q' < q ==> MatchAt(text, q', lit, anchored).None?
  }

  /** The pattern gives no usable answer: it matches nowhere, or its first number is above 999. */
  ghost predicate Unusable(text: string, lit: string, anchored: bool)
  {
    forall n: nat :: FirstMatchIs(text, lit, anchored, n) ==> n > 999
  }

  /** `FirstNumber` is the number of the leftmost match, and none when nothing matches. */
  lemma FirstNumberSpec(text: string, lit: string, anchored: bool)
    ensures forall n: nat :: FirstNumber(text, lit, anchored) == Some(n) <==> FirstMatchIs(text, lit, anchored, n)
  {
    SearchLeftmost(text, lit, anchored, 0);
    forall n: nat | FirstMatchIs(text, lit, anchored, n)
      ensures FirstNumber(text, lit, anchored) == Some(n)
    {
      var q :| 0 <= q <= |text| && MatchAt(text, q, lit, anchored).Some?
        && DigitsValue(MatchAt(text, q, lit, anchored).value) == n
        && forall q' :: 0 <= q' < q ==> MatchAt(text, q', lit, anchored).None?;
      SearchFindsFirst(text, lit, anchored, 0, q);
    }
  }

  /**
   * The first pattern with a usable first match gives the answer: `answer is`,
   * then `answer:` when `answer is` is absent or above 999, then `= N` at the
   * end likewise; with none usable the answer is the draw.
   */
  lemma ExtractAnswerSpec(text: string, draw: Draw)
    ensures forall n: nat :: FirstMatchIs(text, "answer is ", false, n) && n <= 999 ==> ExtractAnswer(text, draw) == n
    ensures Unusable(text, "answer is ", false) ==>
      forall n: nat :: FirstMatchIs(text, "answer: ", false, n) && n <= 999 ==> ExtractAnswer(text, draw) == n
    ensures Unusable(text, "answer is ", false) && Unusable(text, "answer: ", false) ==>
      forall n: nat :: FirstMatchIs(text, "= ", true, n) && n <= 999 ==> ExtractAnswer(text, draw) == n
    ensures Unusable(text, "answer is ", false) && Unusable(text, "answer: ", false) && Unusable(text, "= ", true) ==>
      ExtractAnswer(text, draw) == draw
  {
    FirstNumberSpec(text, "answer is ", false);
    FirstNumberSpec(text, "answer: ", false);
    FirstNumberSpec(text, "= ", true);
  }

  /** The digits right after a literal are its match when they end the run. */
  lemma MatchAfterLiteral(s: string, p: nat, digits: string, rest: string)
    requires p + 10 + |digits| + |rest| == |s|
    requires s[p..p + 10] == "answer is " && s[p + 10..] == digits + rest
    requires digits != [] && AllDigits(digits) && (rest == [] || !IsDigit(rest[0]))
    ensures MatchAt(s, p, "answer is ", false) == Some(digits)
  {
    assert Lower(s[p..p + 10]) == "answer is ";
    DigitRunAppend(digits, rest);
  }

  lemma {:induction false} DigitRunAppend(d: string, rest: string)
    requires AllDigits(d)
    requires rest == [] || !IsDigit(rest[0])
    ensures DigitRun(d + rest) == d
  {
    if d != [] {
      assert (d + rest)[1..] == d[1..] + rest;
      DigitRunAppend(d[1..], rest);
    } else {
      assert d + rest == rest;
    }
  }

  /** The pieces of `a + b + c + d` at their offsets. */
  lemma ConcatSlices(a: string, b: string, c: string, d: string)
    ensures (a + b + c + d)[|a|..|a| + |b|] == b
    ensures (a + b + c + d)[|a| + |b|..] == c + d
  {
    var s := a + b + c + d;
    assert s == a + (b + (c + d));
    assert s[|a|..] == b + (c + d);
    assert s[|a|..|a| + |b|] == s[|a|..][..|b|];
    assert s[|a| + |b|..] == s[|a|..][|b|..];
  }

  /** The search for "answer is" finds the digits of the first stated answer. */
  lemma StatedSearch(prefix: string, digits: string, rest: string)
    requires digits != [] && AllDigits(digits)
    requires forall q :: 0 <= q < |prefix| ==>
      MatchAt(prefix + "answer is " + digits + rest, q, "answer is ", false).None?
    requires rest == [] || !IsDigit(rest[0])
    ensures Search(prefix + "answer is " + digits + rest, "answer is ", false, 0) == Some(digits)
  {
    var s := prefix + "answer is " + digits + rest;
    var p := |prefix|;
    ConcatSlices(prefix, "answer is ", digits, rest);
    MatchAfterLiteral(s, p, digits, rest);
    SearchFindsFirst(s, "answer is ", false, 0, p);
  }

  /**
   * A text saying "answer is N", N at most 999, with no earlier occurrence
   * of the phrase followed by digits, has N as its answer.
   */
  lemma ExtractStatedAnswer(prefix: string, n: nat, rest: string, draw: Draw)
    requires n <= 999
    requires forall q :: 0 <= q < |prefix| ==>
      MatchAt(prefix + "answer is " + NatToString(n) + rest, q, "answer is ", false).None?
    requires rest == [] || !IsDigit(rest[0])
    ensures ExtractAnswer(prefix + "answer is " + NatToString(n) + rest, draw) == n
  {
    StatedSearch(prefix, NatToString(n), rest);
    DigitsValueOfNatToString(n);
  }

  // ---------------------------------------------------------------------
  // _infer_topic

  const Topics: seq<string> :=
    ["Number Theory", "Algebra", "Geometry", "Combinatorics", "Probability", "Mixed"]

  /**
   * `_infer_topic`: the first rule whose keyword occurs in the lowercased
   * instruction decides; no keyword gives "Mixed".
   */
  function InferTopic(instruction: string): (r: string)
    ensures r in Topics
  {
    var l := Lower(instruction);
    if Contains(l, "number theory") || Contains(l, "divisor") then "Number Theory"
    else if Contains(l, "algebra") || Contains(l, "sequence") then "Algebra"
    else if Contains(l, "geometry") || Contains(l, "triangle") then "Geometry"
    else if Contains(l, "combinatorics") || Contains(l, "counting") then "Combinatorics"
    else if Contains(l, "probability") then "Probability"
    else "Mixed"
  }

  /** The inferred topic does not depend on letter case. */
  lemma InferTopicIgnoresCase(instruction: string)
    ensures InferTopic(Upper(instruction)) == InferTopic(instruction)
  {
    LowerIgnoresCase(instruction);
  }

  /** An instruction naming a divisor is a number-theory problem, whatever else it names. */
  lemma InferTopicDivisor(a: string, b: string)
    ensures InferTopic(a + "Divisor" + b) == "Number Theory"
  {
    var s := a + "Divisor" + b;
    var l := Lower(s);
    assert l[|a|..|a| + 7] == "divisor";
    ContainsAt(l, "divisor", |a|);
  }

  // ---------------------------------------------------------------------
  // _convert_to_problem_format

  /** `div_<n>`. */
  function DivId(n: nat): string
  {
    "div_" + NatToString(n)
  }

  /** What a converted record holds. */
  predicate IsConverted(r: Value)
  {
    && r.Obj?
    && Lookup(r, "problem").Ok? && Lookup(r, "problem").value.Str?
    && Lookup(r, "answer").Ok? && Lookup(r, "answer").value.Int?
    && 0 <= Lookup(r, "answer").value.i <= 999
    && Lookup(r, "topic").Ok? && Lookup(r, "topic").value.Str?
    && Lookup(r, "topic").value.s in Topics
    && Lookup(r, "difficulty") == Ok(Int(7))
    && Lookup(r, "stage") == Ok(Str("stage2_diversified"))
    && Lookup(r, "source") == Ok(Str("self_instruct"))
    && Lookup(r, "tags") == Ok(Arr([]))
  }

  /**
   * The record of item `i`: identifier `div_<i+1>`, the text as problem, the
   * extracted answer, the inferred topic, difficulty 7, stage and source
   * tags and no tags.
   */
  function DivRecord(id: string, text: string, answer: int, topic: string): (r: Value)
    ensures r.Obj? && |r.fields| == 8 && forall i :: 0 <= i < 8 ==> r.fields[i].0 == DivKeys[i]
  {
    Obj([("id", Str(id)), ("problem", Str(text)), ("answer", Int(answer)),
         ("topic", Str(topic)), ("difficulty", Int(7)),
         ("stage", Str("stage2_diversified")), ("source", Str("self_instruct")),
         ("tags", Arr([]))])
  }

  const DivKeys: seq<string> := ["id", "problem", "answer", "topic", "difficulty", "stage", "source", "tags"]

  /**
   * A record built this way has the eight keys in order, its identifier and
   * its text, and is a converted record.
   */
  lemma DivRecordConverted(id: string, text: string, answer: int, topic: string)
    requires 0 <= answer <= 999 && topic in Topics
    ensures Keys(DivRecord(id, text, answer, topic).fields) == DivKeys
    ensures IsConverted(DivRecord(id, text, answer, topic))
    ensures Lookup(DivRecord(id, text, answer, topic), "id") == Ok(Str(id))
    ensures Lookup(DivRecord(id, text, answer, topic), "problem") == Ok(Str(text))
  {
    var r := DivRecord(id, text, answer, topic);
    assert Keys(r.fields) == DivKeys;
    DivRecordLookup(id, text, answer, topic, 1);
    DivRecordLookup(id, text, answer, topic, 2);
    DivRecordLookup(id, text, answer, topic, 3);
    DivRecordLookup(id, text, answer, topic, 4);
    DivRecordLookup(id, text, answer, topic, 5);
    DivRecordLookup(id, text, answer, topic, 6);
    DivRecordLookup(id, text, answer, topic, 7);
  }

  /** Each key after the first finds its own entry. */
  lemma DivRecordLookup(id: string, text: string, answer: int, topic: string, i: nat)
    requires 1 <= i < 8
    ensures Lookup(DivRecord(id, text, answer, topic), DivKeys[i]) == Ok(DivRecord(id, text, answer, topic).fields[i].1)
  {
    DivKeysDiffer(i);
    GetFirst(DivRecord(id, text, answer, topic).fields, i);
  }

  /** The keys of a converted record are pairwise different. */
  lemma DivKeysDiffer(i: nat)
    requires i < 8
    ensures forall j :: 0 <= j < i ==> DivKeys[j] != DivKeys[i]
  {
    forall j | 0 <= j < i
      ensures DivKeys[j] != DivKeys[i]
    {
      if |DivKeys[j]| == |DivKeys[i]| {
        assert DivKeys[j][0] != DivKeys[i][0];
      }
    }
  }

  /**
   * The record built from item `i` once its text is known; `re.search` on a
   * non-string and `.lower()` on a non-string instruction raise.
   */
  function BuildRecord(item: Value, text: Value, i: nat, draw: Draw): (r: Result<Value>)
    ensures r.Ok? ==> IsConverted(r.value) && Lookup(r.value, "problem") == Ok(text)
    ensures r.Ok? ==> Lookup(r.value, "id") == Ok(Str(DivId(i + 1)))
  {
    if !text.Str? then Raise
    else
      var instruction :- GetOr(item, "instruction", Str(""));
      if !instruction.Str? then Raise
      else
        var answer := ExtractAnswer(text.s, draw);
        var topic := InferTopic(instruction.s);
        DivRecordConverted(DivId(i + 1), text.s, answer, topic);
        Ok(DivRecord(DivId(i + 1), text.s, answer, topic))
  }

  /**
   * One item of the pipeline's output: its `output`, else its
   * `instruction`, becomes the problem text; an item with neither is
   * skipped (`None`).  A non-string text, a non-string instruction, or an
   * item `in` cannot search raises.  The second `in` test cannot raise once
   * the first has not.
   */
  function ConvertItem(item: Value, i: nat, draw: Draw): (r: Result<Option<Value>>)
    ensures r.Ok? && r.value.Some? ==> IsConverted(r.value.value)
    ensures r.Ok? && r.value.Some? ==> Lookup(r.value.value, "id") == Ok(Str(DivId(i + 1)))
  {
    var hasOutput :- HasIn("output", item);
    if hasOutput then
      var text :- Lookup(item, "output");
      var record :- BuildRecord(item, text, i, draw);
      Ok(Some(record))
    else if HasIn("instruction", item) == Ok(true) then
      var text :- Lookup(item, "instruction");
      var record :- BuildRecord(item, text, i, draw);
      Ok(Some(record))
    else Ok(None)
  }

  /**
   * A dict item's `output` is its problem text; a dict item with neither
   * `output` nor `instruction` is skipped; an item that is not a container
   * raises.
   */
  lemma ConvertItemCases(item: Value, i: nat, draw: Draw)
    ensures item.Obj? && "output" in Keys(item.fields) && ConvertItem(item, i, draw).Ok? ==>
      Lookup(ConvertItem(item, i, draw).value.value, "problem") == Lookup(item, "output")
    ensures item.Obj? && "output" !in Keys(item.fields) && "instruction" !in Keys(item.fields) ==>
      ConvertItem(item, i, draw) == Ok(None)
    ensures !(item.Obj? || item.Str? || item.Arr?) ==> ConvertItem(item, i, draw).Raise?
  {
  }

  /** The records converted from the first `|data|` items, or the exception. */
  function Converted(data: seq<Value>, draw: nat -> Draw): Result<seq<Value>>
  {
    if data == [] then Ok([])
    else
      var earlier :- Converted(data[..|data| - 1], draw);
      var record :- ConvertItem(data[|data| - 1], |data| - 1, draw(|data| - 1));
      Ok(if record.Some? then earlier + [record.value] else earlier)
  }

  /** At most one record per item, and every record is a converted one. */
  lemma {:induction false} ConvertedRecords(data: seq<Value>, draw: nat -> Draw)
    requires Converted(data, draw).Ok?
    ensures |Converted(data, draw).value| <= |data|
    ensures forall k :: 0 <= k < |Converted(data, draw).value| ==> IsConverted(Converted(data, draw).value[k])
  {
    if data != [] {
      var last := |data| - 1;
      ConvertedRecords(data[..last], draw);
    }
  }

  /**
   * The records are identified by `idx`, the positions of the items they
   * come from: record k is `div_<idx[k] + 1>`, and the positions increase.
   */
  ghost predicate NumberedBy(out: seq<Value>, idx: seq<nat>, n: nat)
  {
    && |idx| == |out|
    && (forall k :: 0 <= k < |idx| ==> idx[k] < n && Lookup(out[k], "id") == Ok(Str(DivId(idx[k] + 1))))
    && (forall k, l :: 0 <= k < l < |idx| ==> idx[k] < idx[l])
  }

  /** Numbering by positions below `n` is numbering by positions below any larger bound. */
  lemma NumberedWider(out: seq<Value>, idx: seq<nat>, n: nat, m: nat)
    requires NumberedBy(out, idx, n) && n <= m
    ensures NumberedBy(out, idx, m)
  {
  }

  /** A record numbered after position `n` extends a numbering by positions below `n`. */
  lemma NumberedSnoc(out: seq<Value>, idx: seq<nat>, n: nat, record: Value)
    requires NumberedBy(out, idx, n) && Lookup(record, "id") == Ok(Str(DivId(n + 1)))
    ensures NumberedBy(out + [record], idx + [n], n + 1)
  {
    var out', idx' := out + [record], idx + [n];
    forall k | 0 <= k < |idx'|
      ensures idx'[k] < n + 1 && Lookup(out'[k], "id") == Ok(Str(DivId(idx'[k] + 1)))
    {
      if k < |idx| {
        assert out'[k] == out[k] && idx'[k] == idx[k];
      }
    }
  }

  /**
   * Each record is numbered after the item it comes from, so the
   * identifiers follow the items' order and skip the items that gave none.
   */
  lemma {:induction false} ConvertedIds(data: seq<Value>, draw: nat -> Draw)
    requires Converted(data, draw).Ok?
    ensures exists idx :: NumberedBy(Converted(data, draw).value, idx, |data|)
  {
    if data == [] {
      assert NumberedBy([], [], 0);
    } else {
      var last := |data| - 1;
      ConvertedIds(data[..last], draw);
      var earlier := Converted(data[..last], draw).value;
      var idx :| NumberedBy(earlier, idx, last);
      var record := ConvertItem(data[last], last, draw(last)).value;
      if record.Some? {
        assert Converted(data, draw).value == earlier + [record.value];
        NumberedSnoc(earlier, idx, last, record.value);
      } else {
        assert Converted(data, draw).value == earlier;
        NumberedWider(earlier, idx, last, |data|);
      }
    }
  }

  /** `_convert_to_problem_format`, item by item; the first exception ends it. */
  method ConvertToProblemFormat(data: seq<Value>, draw: nat -> Draw) returns (r: Result<seq<Value>>)
    ensures r == Converted(data, draw)
  {
    var problems: seq<Value> := [];
    for i := 0 to |data|
      invariant Converted(data[..i], draw) == Ok(problems)
    {
      assert data[..i + 1][..i] == data[..i];
      var record := ConvertItem(data[i], i, draw(i));
      if record.Raise? {
        assert Converted(data[..i + 1], draw) == Raise;
        ConvertedRaiseSticks(data, draw, i + 1);
        return Raise;
      }
      assert Converted(data[..i + 1], draw)
          == Ok(if record.value.Some? then problems + [record.value.value] else problems);
      if record.value.Some? {
        problems := problems + [record.value.value];
      }
    }
    assert data[..|data|] == data;
    return Ok(problems);
  }

  /** Once an item raises, the conversion as a whole raises. */
  lemma {:induction false} ConvertedRaiseSticks(data: seq<Value>, draw: nat -> Draw, n: nat)
    requires n <= |data| && Converted(data[..n], draw).Raise?
    ensures Converted(data, draw).Raise?
    decreases |data| - n
  {
    if n < |data| {
      assert data[..n + 1][..n] == data[..n];
      ConvertedRaiseSticks(data, draw, n + 1);
    } else {
      assert data[..n] == data;
    }
  }

  // ---------------------------------------------------------------------
  // _simple_diversification

  /** `div_simple_<n>`. */
  function SimpleId(n: nat): string
  {
    "div_simple_" + NatToString(n)
  }

  /** What a variation from the fallback holds. */
  predicate IsSimple(r: Value)
  {
    && r.Obj?
    && Lookup(r, "stage") == Ok(Str("stage2_diversified"))
    && Lookup(r, "source") == Ok(Str("simple"))
  }

  /** Tag the `i`-th variation: identifier `div_simple_<i+1>`, stage and source. */
  function TagSimple(v: Value, i: nat): (r: Value)
    requires v.Obj?
    ensures IsSimple(r) && Lookup(r, "id") == Ok(Str(SimpleId(i + 1)))
    ensures forall k :: k != "id" && k != "stage" && k != "source" ==> Get(r.fields, k) == Get(v.fields, k)
  {
    var tagged := Set(v, "id", Str(SimpleId(i + 1)));
    var staged := Set(tagged, "stage", Str("stage2_diversified"));
    var r := Set(staged, "source", Str("simple"));
    assert Get(r.fields, "id") == Get(staged.fields, "id") == Get(tagged.fields, "id");
    assert Get(r.fields, "stage") == Get(staged.fields, "stage");
    r
  }

  /**
   * One direct request: the reply is stripped, cleaned and parsed with the
   * backslash repair; a dict is tagged, anything else (or a failed call) is
   * dropped, since tagging a non-dict raises inside the `try`.
   */
  function SimpleItem(parse: Parser, reply: Reply, i: nat): (r: Option<Value>)
    ensures r.Some? ==> IsSimple(r.value) && Lookup(r.value, "id") == Ok(Str(SimpleId(i + 1)))
  {
    match reply
    case AgentFailed(_) => None
    case Replied(t) =>
      match ParseResponse(parse, Strip(t))
      case None => None
      case Some(v) => if v.Obj? then Some(TagSimple(v, i)) else None
  }

  /** The outcome of each of the first `n` requests. */
  function SimpleItems(parse: Parser, reply: nat -> Reply, n: nat): (r: seq<Option<Value>>)
    ensures |r| == n && forall k :: 0 <= k < n ==> r[k] == SimpleItem(parse, reply(k), k)
  {
    seq(n, (k: nat) => SimpleItem(parse, reply(k), k))
  }

  /** The values present, in order. */
  function Present(items: seq<Option<Value>>): seq<Value>
  {
    if items == [] then []
    else
      var earlier := Present(items[..|items| - 1]);
      match items[|items| - 1]
      case Some(v) => earlier + [v]
      case None => earlier
  }

  /** At most one value per item, each one of the items' values. */
  lemma {:induction false} PresentRecords(items: seq<Option<Value>>)
    ensures |Present(items)| <= |items|
    ensures forall k :: 0 <= k < |Present(items)| ==>
      exists j :: 0 <= j < |items| && items[j] == Some(Present(items)[k])
  {
    if items != [] {
      var init := items[..|items| - 1];
      PresentRecords(init);
      forall k | 0 <= k < |Present(init)|
        ensures exists j :: 0 <= j < |items| && items[j] == Some(Present(init)[k])
      {
        var j :| 0 <= j < |init| && init[j] == Some(Present(init)[k]);
        assert items[j] == init[j];
      }
    }
  }

  /** `out[k]` is the value of item `idx[k]`. */
  ghost predicate PickedFrom(items: seq<Option<Value>>, idx: seq<nat>, out: seq<Value>)
  {
    |idx| == |out| && forall k :: 0 <= k < |idx| ==> idx[k] < |items| && items[idx[k]] == Some(out[k])
  }

  ghost predicate Ascending(idx: seq<nat>)
  {
    forall k, l :: 0 <= k < l < |idx| ==> idx[k] < idx[l]
  }

  /** Every item that holds a value is among the positions `idx`. */
  ghost predicate NoneMissed(items: seq<Option<Value>>, idx: seq<nat>)
  {
    forall j :: 0 <= j < |items| && items[j].Some? ==> j in idx
  }

  lemma PickedSnoc(items: seq<Option<Value>>, idx: seq<nat>, out: seq<Value>)
    requires |items| > 0 && PickedFrom(items[..|items| - 1], idx, out)
    ensures items[|items| - 1].Some? ==> PickedFrom(items, idx + [|items| - 1], out + [items[|items| - 1].value])
    ensures PickedFrom(items, idx, out)
  {
    var init := items[..|items| - 1];
    forall k | 0 <= k < |idx|
      ensures items[idx[k]] == init[idx[k]]
    {
    }
  }

  lemma AscendingSnoc(idx: seq<nat>, n: nat)
    requires Ascending(idx) && forall k :: 0 <= k < |idx| ==> idx[k] < n
    ensures Ascending(idx + [n])
  {
  }

  lemma NoneMissedSnoc(items: seq<Option<Value>>, idx: seq<nat>)
    requires |items| > 0 && NoneMissed(items[..|items| - 1], idx)
    ensures items[|items| - 1].Some? ==> NoneMissed(items, idx + [|items| - 1])
    ensures items[|items| - 1].None? ==> NoneMissed(items, idx)
  {
    var init := items[..|items| - 1];
    forall j | 0 <= j < |init|
      ensures items[j] == init[j]
    {
    }
  }

  /**
   * `Present` keeps exactly the items that hold a value: value k comes from
   * item `idx[k]`, the positions increase, and no item with a value is skipped.
   */
  lemma {:induction false} PresentPicks(items: seq<Option<Value>>)
    ensures exists idx :: PickedFrom(items, idx, Present(items)) && Ascending(idx) && NoneMissed(items, idx)
  {
    if items == [] {
      assert PickedFrom([], [], []) && Ascending([]) && NoneMissed([], []);
    } else {
      var last := |items| - 1;
      var init := items[..last];
      PresentPicks(init);
      var idx :| PickedFrom(init, idx, Present(init)) && Ascending(idx) && NoneMissed(init, idx);
      PickedSnoc(items, idx, Present(init));
      NoneMissedSnoc(items, idx);
      if items[last].Some? {
        AscendingSnoc(idx, last);
        assert PickedFrom(items, idx + [last], Present(items));
      } else {
        assert PickedFrom(items, idx, Present(items));
      }
    }
  }

  lemma PresentStep(items: seq<Option<Value>>, i: nat)
    requires i < |items|
    ensures Present(items[..i + 1])
      == if items[i].Some? then Present(items[..i]) + [items[i].value] else Present(items[..i])
  {
    assert items[..i + 1][..i] == items[..i];
  }

  /** The variations produced for the first `n` requests. */
  function SimpleUpTo(parse: Parser, reply: nat -> Reply, n: nat): seq<Value>
  {
    Present(SimpleItems(parse, reply, n))
  }

  /** At most one variation per request, each tagged as a simple stage-2 record. */
  lemma SimpleRecords(parse: Parser, reply: nat -> Reply, n: nat)
    ensures |SimpleUpTo(parse, reply, n)| <= n
    ensures forall k :: 0 <= k < |SimpleUpTo(parse, reply, n)| ==> IsSimple(SimpleUpTo(parse, reply, n)[k])
  {
    var items := SimpleItems(parse, reply, n);
    PresentRecords(items);
    forall k | 0 <= k < |Present(items)|
      ensures IsSimple(Present(items)[k])
    {
      var j :| 0 <= j < |items| && items[j] == Some(Present(items)[k]);
    }
  }

  /**
   * Variation k is request `idx[k]`'s tagged reply, identified as
   * `div_simple_<idx[k] + 1>`; the requests are in order and none whose
   * reply parsed to a dict is dropped.
   */
  ghost predicate SimplePicks(parse: Parser, reply: nat -> Reply, n: nat, idx: seq<nat>, out: seq<Value>)
  {
    && |idx| == |out|
    && (forall k :: 0 <= k < |idx| ==>
          idx[k] < n && SimpleItem(parse, reply(idx[k]), idx[k]) == Some(out[k])
          && Lookup(out[k], "id") == Ok(Str(SimpleId(idx[k] + 1))))
    && Ascending(idx)
    && (forall j :: 0 <= j < n && SimpleItem(parse, reply(j), j).Some? ==> j in idx)
  }

  /** The fallback's variations are the parsed replies, request by request. */
  lemma SimpleNumbered(parse: Parser, reply: nat -> Reply, n: nat)
    ensures exists idx :: SimplePicks(parse, reply, n, idx, SimpleUpTo(parse, reply, n))
  {
    var items := SimpleItems(parse, reply, n);
    PresentPicks(items);
    var idx :| PickedFrom(items, idx, Present(items)) && Ascending(idx) && NoneMissed(items, idx);
    var out := Present(items);
    forall k | 0 <= k < |idx|
      ensures idx[k] < n && SimpleItem(parse, reply(idx[k]), idx[k]) == Some(out[k])
      ensures Lookup(out[k], "id") == Ok(Str(SimpleId(idx[k] + 1)))
    {
      assert items[idx[k]] == Some(out[k]);
    }
    forall j | 0 <= j < n && SimpleItem(parse, reply(j), j).Some?
      ensures j in idx
    {
      assert items[j].Some?;
    }
    assert SimplePicks(parse, reply, n, idx, SimpleUpTo(parse, reply, n));
  }

  function Min(a: nat, b: nat): nat
  {
    if a < b then a else b
  }

  /**
   * `_simple_diversification`: one request for each of the first five
   * problems; `reply(i)` is the agent's answer to request `i`.
   */
  method SimpleDiversification(parse: Parser, input: seq<Value>, reply: nat -> Reply)
    returns (diversified: seq<Value>)
    ensures diversified == SimpleUpTo(parse, reply, Min(5, |input|))
  {
    ghost var items := SimpleItems(parse, reply, Min(5, |input|));
    diversified := [];
    for i := 0 to Min(5, |input|)
      invariant diversified == Present(items[..i])
    {
      var v := SimpleItem(parse, reply(i), i);
      PresentStep(items, i);
      if v.Some? {
        diversified := diversified + [v.value];
      }
    }
    assert items[..Min(5, |input|)] == items;
  }

  // ---------------------------------------------------------------------
  // diversify_problems

  /**
   * Writing the seed file reads `topic`, `difficulty` and `problem` of every
   * input problem; it runs before any fallback and raises on a missing key
   * or a non-dict.
   */
  predicate SeedReady(input: seq<Value>)
  {
    forall k :: 0 <= k < |input| ==>
      input[k].Obj? && "topic" in Keys(input[k].fields) && "difficulty" in Keys(input[k].fields)
      && "problem" in Keys(input[k].fields)
  }

  /**
   * `diversify_problems`.  `pipeline` is what the Self-Instruct pipeline
   * produced (or its exception), `draw` the random answers and `reply` the
   * direct requests of the fallback.
   */
  function DiversifyProblems(parse: Parser, input: seq<Value>, pipeline: Result<seq<Value>>,
                             draw: nat -> Draw, reply: nat -> Reply): Result<seq<Value>>
  {
    if !SeedReady(input) then Raise
    else
      var converted := if pipeline.Ok? then Converted(pipeline.value, draw) else Raise;
      match converted
      case Ok(added) =>
        var all := input + added;
        Ok(if |all| > 0 then all else input)
      case Raise =>
        var added := SimpleUpTo(parse, reply, Min(5, |input|));
        Ok(if |added| == 0 then input else input + added)
  }

  /**
   * Diversification raises only when the seed file cannot be written; the
   * input problems then come first, unchanged, and every record after them
   * is a stage-2 record; at most five come from the fallback.
   */
  lemma DiversifyKeepsInput(parse: Parser, input: seq<Value>, pipeline: Result<seq<Value>>,
                            draw: nat -> Draw, reply: nat -> Reply)
    ensures DiversifyProblems(parse, input, pipeline, draw, reply).Raise? <==> !SeedReady(input)
    ensures DiversifyProblems(parse, input, pipeline, draw, reply).Ok? ==>
      var out := DiversifyProblems(parse, input, pipeline, draw, reply).value;
      && |input| <= |out| && out[..|input|] == input
      && forall k :: |input| <= k < |out| ==> IsConverted(out[k]) || IsSimple(out[k])
    ensures SeedReady(input) && (pipeline.Raise? || Converted(pipeline.value, draw).Raise?) ==>
      var out := DiversifyProblems(parse, input, pipeline, draw, reply).value;
      && |out| <= |input| + 5
      && forall k :: |input| <= k < |out| ==> IsSimple(out[k])
  {
    if SeedReady(input) {
      var converted := if pipeline.Ok? then Converted(pipeline.value, draw) else Raise;
      if converted.Ok? {
        ConvertedRecords(pipeline.value, draw);
      } else {
        SimpleRecords(parse, reply, Min(5, |input|));
      }
    }
  }
}
