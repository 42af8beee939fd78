/**
 * JSON values as the Python program sees them after `json.loads`, and the
 * few Python operations the pipeline applies to them: `key in v`, `v[key]`,
 * `v.get(key, default)`, `v[key] = x`, `len(v)`, truthiness and numeric
 * comparison.  Each operation raises exactly where Python raises.
 */
module Json {
  import opened Outcomes
  import opened Dicts

  /** Floats are exact reals; objects keep their key order. */
  datatype Value =
    | Null
    | Bool(b: bool)
    | Int(i: int)
    | Float(r: real)
    | Str(s: string)
    | Arr(items: seq<Value>)
    | Obj(fields: Dict<string, Value>)

  /** Substring test, as Python's `w in s` on two strings. */
  predicate Contains(s: string, w: string)
    decreases |s|
  {
    (|w| <= |s| && s[..|w|] == w) || (s != [] && Contains(s[1..], w))
  }

  /** An occurrence found at a position is found by `Contains`. */
  lemma {:induction false} ContainsAt(s: string, w: string, p: nat)
    requires p + |w| <= |s| && s[p..p + |w|] == w
    ensures Contains(s, w)
    decreases p
  {
    if p > 0 {
      assert s[1..][p - 1..p - 1 + |w|] == s[p..p + |w|];
      ContainsAt(s[1..], w, p - 1);
    }
  }

  /** `key in v` with a string key: key membership, substring or element test. */
  function HasIn(key: string, v: Value): (r: Result<bool>)
    ensures r.Raise? <==> !(v.Obj? || v.Str? || v.Arr?)
    ensures v.Obj? ==> r == Ok(key in Keys(v.fields))
  {
    match v
    case Obj(fs) => Ok(Get(fs, key).Some?)
    case Str(s) => Ok(Contains(s, key))
    case Arr(xs) => Ok(Str(key) in xs)
    case _ => Raise
  }

  /** `v[key]`: `KeyError` for a missing key, `TypeError` for a non-dict. */
  function Lookup(v: Value, key: string): (r: Result<Value>)
    ensures r.Ok? <==> v.Obj? && key in Keys(v.fields)
  {
    if v.Obj? && Get(v.fields, key).Some? then Ok(Get(v.fields, key).value) else Raise
  }

  /** `v.get(key, default)`: only a dict has `get`. */
  function GetOr(v: Value, key: string, default: Value): (r: Result<Value>)
    ensures r.Ok? <==> v.Obj?
    ensures v.Obj? && key !in Keys(v.fields) ==> r == Ok(default)
  {
    if !v.Obj? then Raise
    else if Get(v.fields, key).Some? then Ok(Get(v.fields, key).value)
    else Ok(default)
  }

  /** `v[key] = x` on a dict. */
  function Set(v: Value, key: string, x: Value): (r: Value)
    requires v.Obj?
    ensures r.Obj? && Get(r.fields, key) == Some(x)
    ensures forall k :: k != key ==> Get(r.fields, k) == Get(v.fields, k)
  {
    PutGet(v.fields, key, x);
    Obj(Put(v.fields, key, x))
  }

  /** An entry whose key no earlier entry has is what `v[key]` finds. */
  lemma LookupFirst(fields: Dict<string, Value>, i: nat)
    requires i < |fields| && forall j :: 0 <= j < i ==> fields[j].0 != fields[i].0
    ensures Lookup(Obj(fields), fields[i].0) == Ok(fields[i].1)
  {
    GetFirst(fields, i);
  }

  /** Reading each entry of a three-entry dict literal with distinct keys. */
  lemma Lookup3(k0: string, v0: Value, k1: string, v1: Value, k2: string, v2: Value)
    requires k0 != k1 && k0 != k2 && k1 != k2
    ensures var v := Obj([(k0, v0), (k1, v1), (k2, v2)]);
      Lookup(v, k0) == Ok(v0) && Lookup(v, k1) == Ok(v1) && Lookup(v, k2) == Ok(v2)
  {
    var d := [(k0, v0), (k1, v1), (k2, v2)];
    assert d[0].0 == k0 && d[1].0 == k1 && d[2].0 == k2;
    LookupFirst(d, 0);
    LookupFirst(d, 1);
    LookupFirst(d, 2);
  }

  /** Reading each entry of a four-entry dict literal with distinct keys. */
  lemma Lookup4(k0: string, v0: Value, k1: string, v1: Value, k2: string, v2: Value, k3: string, v3: Value)
    requires k0 != k1 && k0 != k2 && k0 != k3 && k1 != k2 && k1 != k3 && k2 != k3
    ensures var v := Obj([(k0, v0), (k1, v1), (k2, v2), (k3, v3)]);
      Lookup(v, k0) == Ok(v0) && Lookup(v, k1) == Ok(v1) && Lookup(v, k2) == Ok(v2) && Lookup(v, k3) == Ok(v3)
  {
    var rest := [(k1, v1), (k2, v2), (k3, v3)];
    assert [(k0, v0), (k1, v1), (k2, v2), (k3, v3)] == [(k0, v0)] + rest;
    Lookup3(k1, v1, k2, v2, k3, v3);
    GetCons((k0, v0), rest, k0);
    GetCons((k0, v0), rest, k1);
    GetCons((k0, v0), rest, k2);
    GetCons((k0, v0), rest, k3);
  }

  /** `len(v)`: strings, lists and dicts have a length, nothing else does. */
  function Length(v: Value): (r: Result<nat>)
    ensures r.Ok? <==> v.Str? || v.Arr? || v.Obj?
  {
    match v
    case Str(s) => Ok(|s|)
    case Arr(xs) => Ok(|xs|)
    case Obj(fs) => Ok(|fs|)
    case _ => Raise
  }

  /** Python truthiness: `None`, `False`, zero and empty containers are false. */
  predicate Truthy(v: Value)
  {
    match v
    case Null => false
    case Bool(b) => b
    case Int(i) => i != 0
    case Float(r) => r != 0.0
    case Str(s) => s != []
    case Arr(xs) => xs != []
    case Obj(fs) => fs != []
  }

  /**
   * The number a value stands for in an order comparison or an addition with
   * a number (`bool` is a subclass of `int`); anything else raises `TypeError`.
   */
  function Numeric(v: Value): (r: Result<real>)
    ensures r.Ok? <==> v.Int? || v.Float? || v.Bool?
  {
    match v
    case Int(i) => Ok(i as real)
    case Float(r) => Ok(r)
    case Bool(b) => Ok(if b then 1.0 else 0.0)
    case _ => Raise
  }

  /** `v >= t` against a number. */
  function AtLeast(v: Value, t: real): (r: Result<bool>)
    ensures r.Ok? <==> Numeric(v).Ok?
    ensures r.Ok? ==> (r.value <==> Numeric(v).value >= t)
  {
    var x :- Numeric(v);
    Ok(x >= t)
  }

  /** Whether a value can be a dict key (lists and dicts are unhashable). */
  predicate Hashable(v: Value)
  {
    !v.Arr? && !v.Obj?
  }
}
