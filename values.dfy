/**
 * The Python values the plugin passes around: scalars, lists and
 * insertion-ordered dictionaries with string keys; and the exceptions
 * that can escape its functions.
 */
module Values {

  datatype Option<+T> = None | Some(value: T)

  /** A Python value as it appears in image properties and API records. */
  datatype Value =
    | VNone
    | VBool(b: bool)
    | VInt(i: int)
    | VStr(s: string)
    | VList(items: seq<Value>)
    | VDict(d: RawDict)

  /** Python truthiness (`if x:`). */
  predicate Truthy(v: Value)
  {
    match v
    case VNone => false
    case VBool(b) => b
    case VInt(i) => i != 0
    case VStr(s) => s != []
    case VList(items) => items != []
    case VDict(d) => d.vals != map[]
  }

  /**
   * Python `==` on values: a dict equals another with the same mapping
   * whatever its key order, lists compare element by element, and `True`
   * and `False` equal `1` and `0`.
   */
  predicate Eq(a: Value, b: Value)
    decreases a
  {
    match (a, b)
    case (VList(xs), VList(ys)) => |xs| == |ys| && forall i :: 0 <= i < |xs| ==> Eq(xs[i], ys[i])
    case (VDict(d), VDict(e)) => d.vals.Keys == e.vals.Keys && forall k :: k in d.vals ==> Eq(d.vals[k], e.vals[k])
    case (VBool(x), VInt(n)) => n == (if x then 1 else 0)
    case (VInt(n), VBool(x)) => n == (if x then 1 else 0)
    case _ => a == b
  }

  /** Every value equals itself. */
  lemma {:induction false} EqRefl(a: Value)
    ensures Eq(a, a)
    decreases a
  {
    match a
    case VList(xs) =>
      forall i | 0 <= i < |xs| ensures Eq(xs[i], xs[i]) { EqRefl(xs[i]); }
    case VDict(d) =>
      forall k | k in d.vals ensures Eq(d.vals[k], d.vals[k]) { EqRefl(d.vals[k]); }
    case _ =>
  }

  /** Two dicts with the same mapping are equal, whatever order their keys were inserted in. */
  lemma DictEqIgnoresOrder(d: RawDict, e: RawDict)
    requires d.vals == e.vals
    ensures Eq(VDict(d), VDict(e))
  {
    forall k | k in d.vals ensures Eq(d.vals[k], e.vals[k]) { EqRefl(d.vals[k]); }
  }

  /** A Python `str` or `None`, as a Value. */
  function OfOption(o: Option<string>): (v: Value)
    ensures o.None? <==> v == VNone
  {
    match o
    case None => VNone
    case Some(s) => VStr(s)
  }

  /** `if s:` on an optional string: given and not empty. */
  predicate Given(s: Option<string>)
  {
    Truthy(OfOption(s))
  }

  /** A Python exception that escapes a function of the formula. */
  datatype Exception =
    | IndexError
    | KeyError
    | TypeError
    | UnboundLocalError
    | InvocationError   // SaltInvocationError raised without a message
    | ClientError       // a client exception the function does not catch

  predicate Distinct(keys: seq<string>)
  {
    forall i, j :: 0 <= i < j < |keys| ==> keys[i] != keys[j]
  }

  datatype RawDict = RawDict(keys: seq<string>, vals: map<string, Value>)

  ghost predicate WellFormed(d: RawDict)
  {
    Distinct(d.keys) && (forall k :: k in d.vals <==> k in d.keys)
  }

  /**
   * A Python dict: `keys` is the insertion order, `vals` the mapping.
   * Every key occurs once and exactly the mapped keys are listed.
   */
  type Dict = d: RawDict | WellFormed(d) witness RawDict([], map[])

  function Empty(): (d: Dict)
    ensures d.keys == [] && d.vals == map[]
  {
    RawDict([], map[])
  }

  /** `d[k] = v`: an existing key keeps its place, a new key goes last. */
  function Put(d: Dict, k: string, v: Value): (r: Dict)
    ensures r.vals == d.vals[k := v]
    ensures r.keys == if k in d.vals then d.keys else d.keys + [k]
  {
    if k in d.vals then RawDict(d.keys, d.vals[k := v])
    else
      var r := RawDict(d.keys + [k], d.vals[k := v]);
      assert forall i :: 0 <= i < |d.keys| ==> r.keys[i] == d.keys[i];
      r
  }

  /** `a.startswith(p)` */
  predicate StartsWith(s: string, p: string)
  {
    |p| <= |s| && s[..|p|] == p
  }
}
