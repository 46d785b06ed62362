// Python values as they travel through Lena flows and contexts.

module Values {

  import opened Wrappers

  /** A Python value. Dictionaries have string keys (Lena contexts only use
      those); an instance of a class is an attribute dictionary under a class
      name. */
  datatype Val =
    | VNone
    | VBool(b: bool)
    | VInt(i: int)
    | VReal(r: real)
    | VStr(s: string)
    | VList(items: seq<Val>)
    | VTuple(items: seq<Val>)
    | VDict(m: map<string, Val>)
    | VObj(cls: string, attrs: map<string, Val>)

  type Dict = map<string, Val>

  const EmptyDict: Val := VDict(map[])

  /** Python truth value: `bool(v)`. */
  predicate Truthy(v: Val)
  {
    match v
    case VNone => false
    case VBool(b) => b
    case VInt(i) => i != 0
    case VReal(r) => r != 0.0
    case VStr(s) => s != ""
    case VList(items) => items != []
    case VTuple(items) => items != []
    case VDict(m) => m != map[]
    case VObj(_, _) => true
  }

  /** Whether a value can be a dictionary key: lists and dictionaries
      cannot, a tuple can when its items can. */
  predicate Hashable(v: Val)
  {
    match v
    case VList(_) => false
    case VDict(_) => false
    case VTuple(items) => forall i :: 0 <= i < |items| ==> Hashable(items[i])
    case _ => true
  }

  /** The value of a Python number; `bool` counts as 0 or 1. */
  function Number(v: Val): (r: Option<real>)
    ensures r.Some? <==> v.VInt? || v.VReal? || v.VBool?
    ensures v.VInt? ==> r == Some(v.i as real)
  {
    match v
    case VInt(i) => Some(i as real)
    case VReal(x) => Some(x)
    case VBool(b) => Some(if b then 1.0 else 0.0)
    case _ => None
  }

  function DigitChar(d: nat): (c: char)
    requires d < 10
    ensures '0' <= c <= '9'
  {
    "0123456789"[d]
  }

  /** Decimal digits of a natural number, most significant first. */
  function NatToDecimal(n: nat): (s: string)
    ensures |s| >= 1
    ensures forall i :: 0 <= i < |s| ==> '0' <= s[i] <= '9'
    decreases n
  {
    if n < 10 then [DigitChar(n)] else NatToDecimal(n / 10) + [DigitChar(n % 10)]
  }

  /** `str(v)` for the scalar values whose string form is modelled:
      None, booleans, integers and strings. */
  function ScalarStr(v: Val): (r: Option<string>)
    ensures r.Some? <==> (v.VNone? || v.VBool? || v.VInt? || v.VStr?)
    ensures v.VStr? ==> r == Some(v.s)
  {
    match v
    case VNone => Some("None")
    case VBool(b) => Some(if b then "True" else "False")
    case VInt(i) => Some(if i < 0 then "-" + NatToDecimal(-i) else NatToDecimal(i))
    case VStr(s) => Some(s)
    case _ => None
  }

  // ------------------------------------------------------------------
  // Python equality

  /** The representative of a value under Python's `==`: a boolean is the
      integer 0 or 1 and an integral float is that integer, at every level
      of lists, tuples and dictionaries. Strings, None and objects stand
      for themselves. */
  function Canon(v: Val): (r: Val)
    ensures v.VDict? <==> r.VDict?
    ensures v.VDict? ==> r.m.Keys == v.m.Keys && forall k :: k in v.m ==> r.m[k] == Canon(v.m[k])
    ensures v.VStr? || v.VNone? || v.VObj? ==> r == v
    ensures v.VList? <==> r.VList?
    ensures v.VTuple? <==> r.VTuple?
    ensures r.VInt? <==> v.VInt? || v.VBool? || (v.VReal? && v.r == v.r.Floor as real)
    decreases v
  {
    match v
    case VBool(b) => VInt(if b then 1 else 0)
    case VReal(x) => if x == x.Floor as real then VInt(x.Floor) else v
    case VList(items) => VList(seq(|items|, i requires 0 <= i < |items| => Canon(items[i])))
    case VTuple(items) => VTuple(seq(|items|, i requires 0 <= i < |items| => Canon(items[i])))
    case VDict(m) => VDict(map k | k in m :: Canon(m[k]))
    case _ => v
  }

  /** Python's `a == b` on the modelled values (floats are never NaN). */
  predicate PyEq(a: Val, b: Val)
  {
    Canon(a) == Canon(b)
  }

  /** `1 == True == 1.0` and `0 == False`, while `[1] != (1,)` and
      `"1" != 1`. */
  lemma PyEqExamples()
    ensures PyEq(VInt(1), VBool(true)) && PyEq(VInt(1), VReal(1.0)) && PyEq(VBool(false), VInt(0))
    ensures !PyEq(VList([VInt(1)]), VTuple([VInt(1)])) && !PyEq(VStr("1"), VInt(1))
    ensures !PyEq(VReal(0.5), VInt(0))
  {
    assert Canon(VList([VInt(1)])).VList?;
  }

  /** Equal dictionaries, as Python compares them, have the same keys and
      equal values under every key. */
  lemma PyEqDict(a: map<string, Val>, b: map<string, Val>)
    requires PyEq(VDict(a), VDict(b))
    ensures a.Keys == b.Keys && forall k :: k in a ==> PyEq(a[k], b[k])
  {
    forall k | k in a ensures PyEq(a[k], b[k]) {
      assert Canon(VDict(a)).m[k] == Canon(VDict(b)).m[k];
    }
  }
}
