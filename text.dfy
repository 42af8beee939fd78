/**
 * The string handling the pipeline applies to agent replies: Python's
 * whitespace and `str.strip()`, the two fence-removing substitutions
 * `re.sub(r'```json\s*', '', s)` and `re.sub(r'```\s*$', '', s)`, the
 * backslash-doubling repair, `split('\n')`, ASCII lowercasing and decimal
 * numerals.
 */
module Text {

  /** `str.isspace()`, which is also the set `\s` matches and `strip()` removes. */
  predicate IsSpace(c: char)
  {
    ('\t' <= c <= '\r') || ('\U{1C}' <= c <= '\U{1F}') || c == ' ' || c == '\U{85}'
    || c == '\U{A0}' || c == '\U{1680}' || ('\U{2000}' <= c <= '\U{200A}')
    || c == '\U{2028}' || c == '\U{2029}' || c == '\U{202F}' || c == '\U{205F}'
    || c == '\U{3000}'
  }

  predicate AllSpace(s: string)
  {
    forall i :: 0 <= i < |s| ==> IsSpace(s[i])
  }

  /** `s.lstrip()`. */
  function LStrip(s: string): string
  {
    if s != [] && IsSpace(s[0]) then LStrip(s[1..]) else s
  }

  /** `s.rstrip()`. */
  function RStrip(s: string): string
  {
    if s != [] && IsSpace(s[|s| - 1]) then RStrip(s[..|s| - 1]) else s
  }

  /** `s.strip()`. */
  function Strip(s: string): string
  {
    RStrip(LStrip(s))
  }

  /** `lstrip` leaves the suffix after the longest all-whitespace prefix. */
  lemma {:induction false} LStripSpec(s: string)
    ensures |LStrip(s)| <= |s| && LStrip(s) == s[|s| - |LStrip(s)|..]
    ensures AllSpace(s[..|s| - |LStrip(s)|])
    ensures LStrip(s) == [] || !IsSpace(LStrip(s)[0])
  {
    if s != [] && IsSpace(s[0]) {
      LStripSpec(s[1..]);
      var r := LStrip(s[1..]);
      assert s[1..][..|s| - 1 - |r|] == s[1..|s| - |r|];
    }
  }

  /** `rstrip` leaves the prefix before the longest all-whitespace suffix. */
  lemma {:induction false} RStripSpec(s: string)
    ensures |RStrip(s)| <= |s| && RStrip(s) == s[..|RStrip(s)|]
    ensures AllSpace(s[|RStrip(s)|..])
    ensures RStrip(s) == [] || !IsSpace(RStrip(s)[|RStrip(s)| - 1])
  {
    if s != [] && IsSpace(s[|s| - 1]) {
      RStripSpec(s[..|s| - 1]);
      var r := RStrip(s[..|s| - 1]);
      assert s[..|s| - 1][|r|..] == s[|r|..|s| - 1];
      assert s[|r|..] == s[|r|..|s| - 1] + [s[|s| - 1]];
    }
  }

  /** `strip` keeps a slice of the text and cuts only whitespace on either side. */
  lemma StripSpec(s: string)
    ensures exists i :: 0 <= i <= |s| - |Strip(s)| && Strip(s) == s[i..i + |Strip(s)|]
              && AllSpace(s[..i]) && AllSpace(s[i + |Strip(s)|..])
    ensures Strip(s) == [] || (!IsSpace(Strip(s)[0]) && !IsSpace(Strip(s)[|Strip(s)| - 1]))
  {
    var l := LStrip(s);
    var r := RStrip(l);
    assert Strip(s) == r;
    LStripSpec(s);
    RStripSpec(l);
    var i := |s| - |l|;
    assert l == s[i..] && r == l[..|r|];
    assert r == s[i..i + |r|];
    assert s[i + |r|..] == l[|r|..];
    assert AllSpace(s[..i]) && AllSpace(s[i + |r|..]);
    if r != [] {
      assert r[0] == l[0];
    }
  }

  /** Whitespace-only text strips to nothing. */
  lemma {:induction false} LStripAllSpace(s: string)
    requires AllSpace(s)
    ensures LStrip(s) == []
  {
    if s != [] {
      LStripAllSpace(s[1..]);
    }
  }

  /** A line is blank (`not line.strip()`) exactly when it is all whitespace. */
  lemma StripBlank(s: string)
    ensures Strip(s) == [] <==> AllSpace(s)
  {
    if AllSpace(s) {
      LStripAllSpace(s);
    }
    if Strip(s) == [] {
      StripSpec(s);
      var i :| 0 <= i <= |s| && AllSpace(s[..i]) && AllSpace(s[i..]);
      assert s == s[..i] + s[i..];
    }
  }

  /** Stripping an all-whitespace prefix first changes nothing. */
  lemma {:induction false} LStripSkipsSpace(gap: string, x: string)
    requires AllSpace(gap)
    ensures LStrip(gap + x) == LStrip(x)
  {
    if gap != [] {
      assert (gap + x)[1..] == gap[1..] + x;
      LStripSkipsSpace(gap[1..], x);
    } else {
      assert gap + x == x;
    }
  }

  /** Text after a non-blank part is kept as it is. */
  lemma {:induction false} LStripAppend(x: string, y: string)
    requires LStrip(x) != [] || (y != [] && !IsSpace(y[0]))
    ensures LStrip(x + y) == LStrip(x) + y
  {
    var xy := x + y;
    if x == [] {
      assert xy == y;
      assert LStrip(x) == [];
    } else if IsSpace(x[0]) {
      assert xy[0] == x[0];
      assert xy[1..] == x[1..] + y;
      assert LStrip(xy) == LStrip(xy[1..]);
      assert LStrip(x) == LStrip(x[1..]);
      LStripAppend(x[1..], y);
    } else {
      assert xy[0] == x[0];
      assert LStrip(xy) == xy;
    }
  }

  // ---------------------------------------------------------------------
  // re.sub(r'```json\s*', '', s)

  const OpenFence: string := "```json"
  const Ticks: string := "```"

  /** An occurrence of the opening fence starts at `p`. */
  predicate OpenAt(s: string, p: nat)
  {
    p + |OpenFence| <= |s| && s[p..p + |OpenFence|] == OpenFence
  }

  predicate NoOpenBefore(s: string, n: nat)
  {
    forall p: nat :: p < n ==> !OpenAt(s, p)
  }

  predicate NoOpen(s: string)
  {
    NoOpenBefore(s, |s|)
  }

  /**
   * The first substitution: scanning left to right, each occurrence of the
   * opening fence is removed together with the whitespace run after it, and
   * scanning resumes after the removed text.
   */
  function StripOpenFences(s: string): string
    decreases |s|
  {
    if OpenAt(s, 0) then
      var rest := s[|OpenFence|..];
      LStripSpec(rest);
      StripOpenFences(LStrip(rest))
    else if s == [] then []
    else [s[0]] + StripOpenFences(s[1..])
  }

  lemma OpenAtShift(s: string, p: nat)
    requires s != []
    ensures OpenAt(s[1..], p) <==> OpenAt(s, p + 1)
  {
    if p + 1 + |OpenFence| <= |s| {
      assert s[1..][p..p + |OpenFence|] == s[p + 1..p + 1 + |OpenFence|];
    }
  }

  /** Text without an opening fence passes through unchanged. */
  lemma {:induction false} StripOpenFencesNone(s: string)
    requires NoOpen(s)
    ensures StripOpenFences(s) == s
    decreases |s|
  {
    if s != [] {
      assert !OpenAt(s, 0);
      forall p: nat | p < |s[1..]|
        ensures !OpenAt(s[1..], p)
      {
        OpenAtShift(s, p);
      }
      StripOpenFencesNone(s[1..]);
    }
  }

  lemma NoOpenBeforeShift(s: string, n: nat)
    requires s != [] && NoOpenBefore(s, n + 1)
    ensures NoOpenBefore(s[1..], n)
  {
    forall p: nat | p < n
      ensures !OpenAt(s[1..], p)
    {
      OpenAtShift(s, p);
    }
  }

  /** The scan keeps a character that does not start the opening fence. */
  lemma StripOpenFencesKeep(s: string)
    requires s != [] && !OpenAt(s, 0)
    ensures StripOpenFences(s) == [s[0]] + StripOpenFences(s[1..])
  {
  }

  /** At the opening fence the scan drops it and the whitespace after it. */
  lemma StripOpenFencesDrop(b: string)
    ensures StripOpenFences(OpenFence + b) == StripOpenFences(LStrip(b))
  {
    var s := OpenFence + b;
    assert s[..|OpenFence|] == OpenFence;
    assert s[|OpenFence|..] == b;
  }

  lemma ConsAppend(a: string, x: string)
    requires a != []
    ensures [a[0]] + (a[1..] + x) == a + x
  {
  }

  /**
   * The first occurrence is removed with the whitespace after it; the text
   * before it is kept and the scan goes on after the whitespace.
   */
  lemma {:induction false} StripOpenFencesFirst(a: string, b: string)
    requires NoOpenBefore(a + OpenFence + b, |a|)
    ensures StripOpenFences(a + OpenFence + b) == a + StripOpenFences(LStrip(b))
    decreases |a|
  {
    var s := a + OpenFence + b;
    if a == [] {
      assert s == OpenFence + b;
      StripOpenFencesDrop(b);
    } else {
      assert !OpenAt(s, 0);
      StripOpenFencesKeep(s);
      NoOpenBeforeShift(s, |a| - 1);
      assert s[1..] == a[1..] + OpenFence + b;
      StripOpenFencesFirst(a[1..], b);
      assert s[0] == a[0];
      ConsAppend(a, StripOpenFences(LStrip(b)));
    }
  }

  lemma {:induction false} NoOpenSuffix(s: string, k: nat)
    requires k <= |s| && NoOpen(s)
    ensures NoOpen(s[k..])
  {
    forall p: nat | p < |s[k..]|
      ensures !OpenAt(s[k..], p)
    {
      if p + |OpenFence| <= |s[k..]| {
        assert s[k..][p..p + |OpenFence|] == s[p + k..p + k + |OpenFence|];
        assert !OpenAt(s, p + k);
      }
    }
  }

  lemma {:induction false} NoOpenAppendTicks(s: string)
    requires NoOpen(s)
    ensures NoOpen(s + Ticks)
  {
    var t := s + Ticks;
    forall p: nat | p < |t|
      ensures !OpenAt(t, p)
    {
      if p + |OpenFence| <= |s| {
        assert t[p..p + |OpenFence|] == s[p..p + |OpenFence|];
        assert !OpenAt(s, p);
      } else if p + |OpenFence| <= |t| {
        assert t[p + 6] == '`';
        assert OpenFence[6] == 'n';
        assert t[p..p + |OpenFence|][6] == t[p + 6];
      }
    }
  }

  // ---------------------------------------------------------------------
  // re.sub(r'```\s*$', '', s)

  /** Three backticks start at `p` and only whitespace follows them. */
  predicate ClosesAt(s: string, p: nat)
  {
    p + |Ticks| <= |s| && s[p..p + |Ticks|] == Ticks && AllSpace(s[p + |Ticks|..])
  }

  /** At most one position qualifies, so the substitution removes at most once. */
  /** No backtick triple starts inside the whitespace after a closing position. */
  lemma NoTicksAfterClose(s: string, p: nat, q: nat)
    requires ClosesAt(s, p) && p < q && q + |Ticks| <= |s|
    ensures s[q..q + |Ticks|] != Ticks
  {
    assert s[p + |Ticks|..][q + 2 - (p + |Ticks|)] == s[q + 2];
    assert s[q..q + |Ticks|][2] == s[q + 2];
  }

  lemma ClosingFenceUnique(s: string, p: nat, q: nat)
    requires ClosesAt(s, p) && ClosesAt(s, q)
    ensures p == q
  {
    if p < q {
      NoTicksAfterClose(s, p, q);
    } else if q < p {
      NoTicksAfterClose(s, q, p);
    }
  }

  /** The second substitution: cut the text at the closing position, if any. */
  function StripClosingFence(s: string): string
  {
    if s == [] then []
    else if ClosesAt(s, 0) then []
    else [s[0]] + StripClosingFence(s[1..])
  }

  lemma ClosesAtShift(s: string, p: nat)
    requires s != []
    ensures ClosesAt(s[1..], p) <==> ClosesAt(s, p + 1)
  {
    if p + 1 + |Ticks| <= |s| {
      assert s[1..][p..p + |Ticks|] == s[p + 1..p + 1 + |Ticks|];
      assert s[1..][p + |Ticks|..] == s[p + 1 + |Ticks|..];
    }
  }

  /** A trailing fence followed only by whitespace is cut off, and nothing else. */
  lemma {:induction false} StripClosingFenceAt(s: string, p: nat)
    requires ClosesAt(s, p)
    ensures StripClosingFence(s) == s[..p]
    decreases p
  {
    if p > 0 {
      assert !ClosesAt(s, 0) by {
        if ClosesAt(s, 0) { ClosingFenceUnique(s, 0, p); }
      }
      ClosesAtShift(s, p - 1);
      StripClosingFenceAt(s[1..], p - 1);
      assert [s[0]] + s[1..][..p - 1] == s[..p];
    }
  }

  /** Without a closing position the text is unchanged. */
  lemma {:induction false} StripClosingFenceNone(s: string)
    requires forall p: nat :: !ClosesAt(s, p)
    ensures StripClosingFence(s) == s
  {
    if s != [] {
      assert !ClosesAt(s, 0);
      forall p: nat
        ensures !ClosesAt(s[1..], p)
      {
        ClosesAtShift(s, p);
      }
      StripClosingFenceNone(s[1..]);
    }
  }

  /** A closing fence at the very end is cut off. */
  lemma StripClosingFenceEnd(x: string)
    ensures StripClosingFence(x + Ticks) == x
  {
    var t := x + Ticks;
    assert t[|x|..|x| + |Ticks|] == Ticks;
    assert t[|x| + |Ticks|..] == [];
    assert ClosesAt(t, |x|);
    StripClosingFenceAt(t, |x|);
    assert t[..|x|] == x;
  }

  /** Both substitutions, then `strip()`: how every reply is cleaned before parsing. */
  function Clean(s: string): string
  {
    Strip(StripClosingFence(StripOpenFences(s)))
  }

  /**
   * A body wrapped in a json code fence cleans to the stripped body: the
   * opening fence and the whitespace after it go, the closing fence goes.
   */
  lemma FencedRoundTrip(body: string, gap: string)
    requires AllSpace(gap) && NoOpen(body)
    ensures Clean(OpenFence + gap + body + Ticks) == Strip(body)
  {
    var s := OpenFence + gap + body + Ticks;
    assert s == [] + OpenFence + (gap + body + Ticks);
    StripOpenFencesFirst([], gap + body + Ticks);
    assert gap + body + Ticks == gap + (body + Ticks);
    LStripSkipsSpace(gap, body + Ticks);
    LStripAppend(body, Ticks);
    var l := LStrip(body);
    LStripSpec(body);
    LStripSpec(l);
    var t := l + Ticks;
    NoOpenSuffix(body, |body| - |l|);
    NoOpenAppendTicks(l);
    StripOpenFencesNone(t);
    StripClosingFenceEnd(l);
    assert LStrip(l) == l;
  }

  // ---------------------------------------------------------------------
  // replace('\\', '\\\\')

  function Count(s: string, c: char): nat
  {
    if s == [] then 0 else (if s[0] == c then 1 else 0) + Count(s[1..], c)
  }

  /** Every backslash doubled; the repair tried when a reply does not parse. */
  function DoubleBackslashes(s: string): (r: string)
    ensures |r| == |s| + Count(s, '\\')
  {
    if s == [] then [] else (if s[0] == '\\' then "\\\\" else [s[0]]) + DoubleBackslashes(s[1..])
  }

  /** A text without backslashes is left as it is by the repair. */
  lemma {:induction false} DoublingWithoutBackslash(s: string)
    ensures (forall i :: 0 <= i < |s| ==> s[i] != '\\') ==> DoubleBackslashes(s) == s
  {
    if s != [] {
      DoublingWithoutBackslash(s[1..]);
    }
  }

  /** The inverse repair: every pair of backslashes back to one. */
  function HalveBackslashes(s: string): string
  {
    if |s| >= 2 && s[0] == '\\' && s[1] == '\\' then "\\" + HalveBackslashes(s[2..])
    else if s == [] then []
    else [s[0]] + HalveBackslashes(s[1..])
  }

  lemma {:induction false} HalveDoubled(s: string)
    ensures HalveBackslashes(DoubleBackslashes(s)) == s
  {
    if s != [] {
      var d := DoubleBackslashes(s);
      HalveDoubled(s[1..]);
      if s[0] == '\\' {
        assert d[2..] == DoubleBackslashes(s[1..]);
      } else {
        assert d[1..] == DoubleBackslashes(s[1..]);
      }
      assert [s[0]] + s[1..] == s;
    }
  }

  /** The characters other than `c`, in order. */
  function Without(s: string, c: char): string
  {
    if s == [] then [] else (if s[0] == c then [] else [s[0]]) + Without(s[1..], c)
  }

  lemma {:induction false} WithoutAppend(a: string, b: string, c: char)
    ensures Without(a + b, c) == Without(a, c) + Without(b, c)
  {
    if a != [] {
      assert (a + b)[1..] == a[1..] + b;
      WithoutAppend(a[1..], b, c);
    } else {
      assert a + b == b;
    }
  }

  /** Doubling keeps every other character, in order. */
  lemma {:induction false} DoublingKeepsOthers(s: string)
    ensures Without(DoubleBackslashes(s), '\\') == Without(s, '\\')
  {
    if s != [] {
      var head := if s[0] == '\\' then "\\\\" else [s[0]];
      WithoutAppend(head, DoubleBackslashes(s[1..]), '\\');
      DoublingKeepsOthers(s[1..]);
    }
  }

  // ---------------------------------------------------------------------
  // split('\n')

  /** `s.split('\n')`: one more piece than there are newlines, none containing one. */
  function SplitLines(s: string): (r: seq<string>)
    ensures |r| == Count(s, '\n') + 1
    ensures forall k :: 0 <= k < |r| ==> '\n' !in r[k]
  {
    if s == [] then [""]
    else
      var rest := SplitLines(s[1..]);
      if s[0] == '\n' then [""] + rest
      else
        assert '\n' !in rest[0];
        [[s[0]] + rest[0]] + rest[1..]
  }

  /** `'\n'.join(lines)`. */
  function JoinLines(lines: seq<string>): string
    requires |lines| >= 1
  {
    if |lines| == 1 then lines[0] else lines[0] + "\n" + JoinLines(lines[1..])
  }

  /** Splitting loses nothing: joining the pieces gives the text back. */
  lemma {:induction false} JoinSplit(s: string)
    ensures JoinLines(SplitLines(s)) == s
  {
    if s != [] {
      var rest := SplitLines(s[1..]);
      JoinSplit(s[1..]);
      var r := SplitLines(s);
      if s[0] == '\n' {
        assert r[1..] == rest;
      } else {
        assert r[1..] == rest[1..];
        if |rest| == 1 {
          assert r == [[s[0]] + rest[0]];
        } else {
          assert JoinLines(rest) == rest[0] + "\n" + JoinLines(rest[1..]);
        }
      }
    }
  }

  // ---------------------------------------------------------------------
  // Case and digits

  /** ASCII lowercasing of one character. */
  function LowerChar(c: char): char
  {
    if 'A' <= c <= 'Z' then (c as int + 32) as char else c
  }

  /** ASCII uppercasing of one character. */
  function UpperChar(c: char): char
  {
    if 'a' <= c <= 'z' then (c as int - 32) as char else c
  }

  /** `s.lower()` on the ASCII letters. */
  function Lower(s: string): (r: string)
    ensures |r| == |s| && forall i :: 0 <= i < |s| ==> r[i] == LowerChar(s[i])
  {
    seq(|s|, i requires 0 <= i < |s| => LowerChar(s[i]))
  }

  function Upper(s: string): (r: string)
    ensures |r| == |s| && forall i :: 0 <= i < |s| ==> r[i] == UpperChar(s[i])
  {
    seq(|s|, i requires 0 <= i < |s| => UpperChar(s[i]))
  }

  /** Lowercasing forgets the case the text was written in. */
  lemma LowerIgnoresCase(s: string)
    ensures Lower(Upper(s)) == Lower(s)
  {
  }

  predicate IsDigit(c: char)
  {
    '0' <= c <= '9'
  }

  predicate AllDigits(s: string)
  {
    forall i :: 0 <= i < |s| ==> IsDigit(s[i])
  }

  function DigitChar(d: nat): (c: char)
    requires d < 10
    ensures IsDigit(c) && c as int - '0' as int == d
  {
    ('0' as int + d) as char
  }

  /** `str(n)` for a natural number. */
  function NatToString(n: nat): (r: string)
    ensures r != [] && AllDigits(r)
    decreases n
  {
    if n < 10 then [DigitChar(n)] else NatToString(n / 10) + [DigitChar(n % 10)]
  }

  /** `int(s)` for a string of ASCII digits (leading zeros allowed). */
  function DigitsValue(s: string): nat
    requires AllDigits(s)
  {
    if s == [] then 0 else DigitsValue(s[..|s| - 1]) * 10 + (s[|s| - 1] as int - '0' as int)
  }

  /** Reading back a printed number gives the number. */
  lemma {:induction false} DigitsValueOfNatToString(n: nat)
    ensures DigitsValue(NatToString(n)) == n
    decreases n
  {
    if n >= 10 {
      var r := NatToString(n);
      assert r[..|r| - 1] == NatToString(n / 10);
      DigitsValueOfNatToString(n / 10);
    }
  }

  /** Distinct numbers print differently, so numbered identifiers are distinct. */
  lemma NatToStringInjective(a: nat, b: nat)
    requires a != b
    ensures NatToString(a) != NatToString(b)
  {
    DigitsValueOfNatToString(a);
    DigitsValueOfNatToString(b);
  }
}
