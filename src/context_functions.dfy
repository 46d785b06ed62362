// Nested context dictionaries: dotted lookup, recursive merge, key-chained
// nesting and conversions from dotted strings (lena/context/functions.py).

module ContextFunctions {
  import opened Wrappers
  import opened Values
  import opened Strings

  // ------------------------------------------------------------------
  // Walking a dotted path

  /** `key in v` followed by `v[key]` on a value that need not be a dict:
      Some(child) to descend, None when the key is absent, and a failure
      where Python raises TypeError (subscripting a string or a list with a
      string that it contains, or a membership test on a number). */
  function StepInto(v: Val, key: string): Result<Option<Val>>
  {
    match v
    case VDict(m) => Success(if key in m then Some(m[key]) else None)
    case VStr(s) => if IsSubstring(key, s) then Failure(PyTypeError) else Success(None)
    case VList(items) => if VStr(key) in items then Failure(PyTypeError) else Success(None)
    case VTuple(items) => if VStr(key) in items then Failure(PyTypeError) else Success(None)
    case _ => Failure(PyTypeError)
  }

  /** Descend through *keys* one `StepInto` at a time. */
  function WalkKeys(v: Val, keys: seq<string>): Result<Option<Val>>
    decreases |keys|
  {
    if |keys| == 0 then Success(Some(v))
    else
      match StepInto(v, keys[0])
      case Failure(e) => Failure(e)
      case Success(None) => Success(None)
      case Success(Some(c)) => WalkKeys(c, keys[1..])
  }

  /** The last part of a `contains` path matches a dict key, or the string
      form of a leaf. Leaves without a modelled string form never match. */
  predicate LastMatches(v: Val, last: string)
  {
    if v.VDict? then last in v.m else ScalarStr(v) == Some(last)
  }

  /** `contains(d, s)`: whether *d* holds the subdictionary that the dotted
      string *s* represents. */
  function Contains(d: Dict, s: string): (r: Result<bool>)
    ensures '.' !in s ==> r == Success(s in d)
  {
    var levels := Split(s, '.');
    OnePartIffNoDot(s);
    if |levels| < 2 then Success(s in d)
    else
      match WalkKeys(VDict(d), levels[..|levels| - 1])
      case Failure(e) => Failure(e)
      case Success(None) => Success(false)
      case Success(Some(v)) => Success(LastMatches(v, levels[|levels| - 1]))
  }

  /** A dotted string has at least two parts; one without a dot is itself. */
  lemma OnePartIffNoDot(s: string)
    ensures |Split(s, '.')| < 2 <==> '.' !in s
    ensures '.' !in s ==> Split(s, '.') == [s]
  {
    if '.' !in s {
      SplitNoSep(s, '.');
    } else if |Split(s, '.')| < 2 {
      NoDotWhenOnePart(s);
    }
  }

  // ------------------------------------------------------------------
  // get_recursively

  lemma OneKey(m: Dict)
    requires |m| == 1
    ensures forall a, b :: a in m && b in m ==> a == b
  {
    forall a, b | a in m && b in m ensures a == b {
      var rest := m.Keys - {b};
      assert |rest| == 0;
      assert a !in rest;
    }
  }

  /** The only key of a one-key dictionary. */
  function TheKey(m: Dict): (k: string)
    requires |m| == 1
    ensures m.Keys == {k}
  {
    OneKey(m);
    var k :| k in m;
    k
  }

  /** The key list of a one-key-per-level dictionary: descend while the
      current value is truthy; a truthy non-dict value ends the list. */
  function DictKeyChain(k: Val): (r: Result<seq<Val>>)
    ensures r.Failure? ==> r.error == LenaValueError
    decreases k
  {
    if !Truthy(k) then Success([])
    else if k.VDict? then
      if |k.m| != 1 then Failure(LenaValueError)
      else
        var key := TheKey(k.m);
        match DictKeyChain(k.m[key])
        case Failure(e) => Failure(e)
        case Success(rest) => Success([VStr(key)] + rest)
    else Success([k])
  }

  function NonEmptyParts(parts: seq<string>): (r: seq<Val>)
    ensures forall i :: 0 <= i < |r| ==> r[i].VStr? && r[i].s != ""
  {
    if |parts| == 0 then []
    else (if parts[0] == "" then [] else [VStr(parts[0])]) + NonEmptyParts(parts[1..])
  }

  function StrKeys(parts: seq<string>): (r: seq<Val>)
    ensures |r| == |parts|
    ensures forall i :: 0 <= i < |r| ==> r[i] == VStr(parts[i])
  {
    if |parts| == 0 then [] else [VStr(parts[0])] + StrKeys(parts[1..])
  }

  /** The key list `get_recursively` derives from its *keys* argument. */
  function KeyList(keys: Val): (r: Result<seq<Val>>)
    ensures r.Failure? ==> r.error == LenaValueError || r.error == LenaTypeError
  {
    match keys
    case VStr(s) => Success(NonEmptyParts(Split(s, '.')))
    case VDict(_) => DictKeyChain(keys)
    case VList(items) =>
      if forall i :: 0 <= i < |items| ==> items[i].VStr? then Success(items)
      else Failure(LenaTypeError)
    case _ => Failure(LenaTypeError)
  }

  /** A key is found only if it is a string key of the dictionary. */
  predicate KeyIn(k: Val, m: Dict)
  {
    k.VStr? && k.s in m
  }

  function Missing(default: Option<Val>): Result<Val>
  {
    if default.Some? then Success(default.value) else Failure(LenaKeyError)
  }

  /** The walk of `get_recursively` along the key list: `key in d` on an
      unhashable key (a list leaf of dict-form keys) raises TypeError. */
  function Lookup(m: Dict, ks: seq<Val>, default: Option<Val>): Result<Val>
    decreases |ks|
  {
    if |ks| == 0 then Success(VDict(m))
    else if !Hashable(ks[0]) then Failure(PyTypeError)
    else if |ks| == 1 then
      if KeyIn(ks[0], m) then Success(m[ks[0].s]) else Missing(default)
    else if KeyIn(ks[0], m) && m[ks[0].s].VDict? then Lookup(m[ks[0].s].m, ks[1..], default)
    else Missing(default)
  }

  /** `get_recursively(d, keys, default)`; *default* is None when not given. */
  function GetRecursively(d: Val, keys: Val, default: Option<Val>): (r: Result<Val>)
    ensures !d.VDict? ==> r == Failure(LenaTypeError)
    ensures d.VDict? && keys == VList([]) ==> r == Success(d)
    ensures default.Some? && r.Failure? ==> r.error != LenaKeyError
    ensures !(keys.VStr? || keys.VDict? || keys.VList?) ==> r == Failure(LenaTypeError)
  {
    if !d.VDict? then Failure(LenaTypeError)
    else
      match KeyList(keys)
      case Failure(e) => Failure(e)
      case Success(ks) => LookupResult(d.m, ks, default)
  }

  /** A key without a dot looks up that key alone. */
  lemma GetPlainKey(d: Dict, s: string)
    requires s != "" && '.' !in s
    ensures GetRecursively(VDict(d), VStr(s), None) == if s in d then Success(d[s]) else Failure(LenaKeyError)
  {
    SplitNoSep(s, '.');
    assert NonEmptyParts([s]) == [VStr(s)];
  }

  /** Dict-form keys whose leaf is a non-empty list, such as
      `{"a": ["b"]}`, end the key list with that list; once the path before
      it exists, `keys[-1] in d` raises TypeError, default or not. */
  lemma ListLeafKey(d: Dict, a: string, leaf: seq<Val>, default: Option<Val>)
    requires a in d && d[a].VDict? && leaf != []
    ensures GetRecursively(VDict(d), VDict(map[a := VList(leaf)]), default) == Failure(PyTypeError)
  {
    var keys := map[a := VList(leaf)];
    assert TheKey(keys) == a;
    assert Truthy(VList(leaf)) && Truthy(VDict(keys));
    assert DictKeyChain(VList(leaf)) == Success([VList(leaf)]);
    assert DictKeyChain(VDict(keys)) == Success([VStr(a)] + [VList(leaf)]);
    assert [VStr(a)] + [VList(leaf)] == [VStr(a), VList(leaf)];
    assert KeyList(VDict(keys)) == Success([VStr(a), VList(leaf)]);
  }

  /** The lookup succeeds whenever a default is given and every key is
      hashable; an unhashable key is the only cause of TypeError, and a
      missing key the only cause of LenaKeyError. */
  function LookupResult(m: Dict, ks: seq<Val>, default: Option<Val>): (r: Result<Val>)
    ensures r == Lookup(m, ks, default)
    ensures default.Some? && (forall i :: 0 <= i < |ks| ==> Hashable(ks[i])) ==> r.Success?
    ensures r.Failure? ==> r.error == PyTypeError || (r.error == LenaKeyError && default.None?)
    ensures r.Failure? && r.error == PyTypeError ==> exists i :: 0 <= i < |ks| && !Hashable(ks[i])
    decreases |ks|
  {
    if |ks| == 0 then Success(VDict(m))
    else if !Hashable(ks[0]) then Failure(PyTypeError)
    else if |ks| == 1 then
      if KeyIn(ks[0], m) then Success(m[ks[0].s]) else Missing(default)
    else if KeyIn(ks[0], m) && m[ks[0].s].VDict? then LookupResult(m[ks[0].s].m, ks[1..], default)
    else Missing(default)
  }

  // ------------------------------------------------------------------
  // str_to_dict and str_to_list

  /** `{keys[0]: {keys[1]: ... {keys[-1]: leaf}}}`. */
  function NestList(keys: seq<string>, leaf: Val): (r: Val)
    requires |keys| >= 1
    ensures r.VDict? && r.m.Keys == {keys[0]}
    decreases |keys|
  {
    if |keys| == 1 then VDict(map[keys[0] := leaf])
    else VDict(map[keys[0] := NestList(keys[1..], leaf)])
  }

  /** `str_to_dict(s, value)`; *value* is None when not given. */
  function StrToDict(s: string, value: Option<Val>): (r: Result<Val>)
    ensures s == "" ==> (r.Success? <==> value.None?)
    ensures s == "" && value.None? ==> r == Success(EmptyDict)
    ensures r.Success? ==> r.value.VDict?
    ensures s != "" && value.Some? ==> r.Success?
    ensures value.None? && r.Failure? ==> '.' !in s
    ensures r.Failure? ==> r.error == LenaValueError
  {
    if s == "" then
      if value.None? then Success(EmptyDict) else Failure(LenaValueError)
    else
      var parts := Split(s, '.');
      if value.Some? then Success(NestList(parts, value.value))
      else if |parts| < 2 then
        NoDotWhenOnePart(s);
        Failure(LenaValueError)
      else Success(NestList(parts[..|parts| - 1], VStr(parts[|parts| - 1])))
  }

  lemma NoDotWhenOnePart(s: string)
    requires |Split(s, '.')| < 2
    ensures '.' !in s
  {
    JoinSplit(s, '.');
  }

  /** Setting a two-part dotted key "a.b" merges `{a: {b: v}}`. */
  lemma SetTwoParts(c: Dict, a: string, b: string, v: Val)
    requires a != "" && b != "" && '.' !in a && '.' !in b
    ensures UpdateRecursively(VDict(c), VStr(a + "." + b), Some(v))
            == Success(VDict(Merge(c, map[a := VDict(map[b := v])])))
    ensures var r := Merge(c, map[a := VDict(map[b := v])]);
            r[a] == VDict(Merge(AsDict(if a in c then c[a] else VNone), map[b := v]))
  {
    assert a + "." + b == Join([a, b], '.');
    SplitJoin([a, b], '.');
    assert [a, b][1..] == [b];
    assert NestList([a, b], v) == VDict(map[a := VDict(map[b := v])]);
  }

  /** Merging `{a: {b: v}}`, with *v* not a dict, sets that nested key and
      keeps the other keys. */
  lemma MergedFlag(c: Dict, a: string, b: string, v: Val)
    requires !v.VDict?
    ensures var r := Merge(c, map[a := VDict(map[b := v])]);
            && r.Keys == c.Keys + {a}
            && r[a].VDict? && b in r[a].m && r[a].m[b] == v
            && forall k :: k in c && k != a ==> r[k] == c[k]
  {
    var r := Merge(c, map[a := VDict(map[b := v])]);
    assert r[a] == VDict(Merge(AsDict(if a in c then c[a] else VNone), map[b := v]));
  }

  /** `str_to_list(s)`: "" gives [], otherwise the dot-separated parts. */
  function StrToList(s: string): (r: seq<string>)
    ensures r == [] <==> s == ""
    ensures s != "" ==> Join(r, '.') == s
  {
    if s == "" then []
    else
      JoinSplit(s, '.');
      Split(s, '.')
  }

  // ------------------------------------------------------------------
  // update_recursively

  function AsDict(v: Val): Dict
  {
    if v.VDict? then v.m else map[]
  }

  /** The recursive merge of *o* into *d*: a non-dict value of *o*
      overwrites, a dict value is merged into the existing entry (a non-dict
      entry is first replaced by an empty dict). */
  function Merge(d: Dict, o: Dict): (r: Dict)
    ensures r.Keys == d.Keys + o.Keys
    ensures forall k :: k in d && k !in o ==> r[k] == d[k]
    ensures forall k :: k in o && !o[k].VDict? ==> r[k] == o[k]
    ensures forall k :: k in o && o[k].VDict? ==> r[k].VDict?
    decreases VDict(o)
  {
    map k | k in d.Keys + o.Keys ::
      if k !in o then d[k]
      else if o[k].VDict? then VDict(Merge(AsDict(if k in d then d[k] else VNone), o[k].m))
      else o[k]
  }

  /** `update_recursively(d, other, value)`; *value* is None when not given. */
  function UpdateRecursively(d: Val, other: Val, value: Option<Val>): (r: Result<Val>)
    ensures other.VStr? && other.s == "" && value.Some? ==> r == Failure(LenaValueError)
    ensures !other.VStr? && value.Some? ==> r == Failure(LenaValueError)
    ensures !d.VDict? && value.None? && other.VDict? ==> r == Failure(LenaTypeError)
    ensures r.Success? ==> r.value.VDict?
  {
    var o :- if other.VStr? then StrToDict(other.s, value)
             else if value.Some? then Failure(LenaValueError)
             else Success(other);
    if !d.VDict? || !o.VDict? then Failure(LenaTypeError)
    else Success(VDict(Merge(d.m, o.m)))
  }

  // ------------------------------------------------------------------
  // Containment of contexts

  /** *sub* is contained in *sup*: every key of *sub* is in *sup*, with a
      contained dict or a value equal to it as Python compares them. */
  predicate Contained(sub: Dict, sup: Dict)
    decreases VDict(sub), 0
  {
    forall k :: k in sub ==> k in sup && ValContained(sub[k], sup[k])
  }

  predicate ValContained(a: Val, b: Val)
    decreases a, 1
  {
    if a.VDict? then b.VDict? && Contained(a.m, b.m) else PyEq(a, b)
  }

  /** Dictionaries equal as Python compares them contain each other. */
  lemma {:induction false} PyEqContained(a: Dict, b: Dict)
    requires PyEq(VDict(a), VDict(b))
    ensures Contained(a, b)
    decreases VDict(a)
  {
    PyEqDict(a, b);
    forall k | k in a ensures k in b && ValContained(a[k], b[k]) {
      if a[k].VDict? {
        assert Canon(a[k]).VDict?;
        PyEqContained(a[k].m, b[k].m);
      }
    }
  }

  lemma {:induction false} ContainedRefl(d: Dict)
    ensures Contained(d, d)
    decreases VDict(d)
  {
    forall k | k in d ensures ValContained(d[k], d[k]) {
      if d[k].VDict? {
        ContainedRefl(d[k].m);
      }
    }
  }

  /** The merged dictionary contains everything *o* holds. */
  lemma {:induction false} MergeContainsOther(d: Dict, o: Dict)
    ensures Contained(o, Merge(d, o))
    decreases VDict(o)
  {
    var r := Merge(d, o);
    forall k | k in o ensures k in r && ValContained(o[k], r[k]) {
      if o[k].VDict? {
        MergeContainsOther(AsDict(if k in d then d[k] else VNone), o[k].m);
      }
    }
  }

  /** Merging the same update twice is the same as merging it once. */
  lemma {:induction false} MergeIdempotent(d: Dict, o: Dict)
    ensures Merge(Merge(d, o), o) == Merge(d, o)
    decreases VDict(o)
  {
    var r := Merge(d, o);
    var rr := Merge(r, o);
    forall k | k in rr ensures k in r && rr[k] == r[k] {
      if k in o && o[k].VDict? {
        MergeIdempotent(AsDict(if k in d then d[k] else VNone), o[k].m);
      }
    }
    assert rr.Keys == r.Keys;
  }

  /** Merging into an empty dictionary gives the update itself. */
  lemma {:induction false} MergeIntoEmpty(o: Dict)
    ensures Merge(map[], o) == o
    decreases VDict(o)
  {
    var r := Merge(map[], o);
    forall k | k in o ensures r[k] == o[k] {
      if o[k].VDict? {
        MergeIntoEmpty(o[k].m);
      }
    }
  }

  /** After merging the dict that a dotted path and a leaf describe, the walk
      along that path reaches the leaf. */
  lemma {:induction false} WalkMergedPath(d: Dict, keys: seq<string>, leaf: Val)
    requires |keys| >= 1
    requires !leaf.VDict?
    ensures WalkKeys(VDict(Merge(d, NestList(keys, leaf).m)), keys) == Success(Some(leaf))
    ensures Lookup(Merge(d, NestList(keys, leaf).m), StrKeys(keys), None) == Success(leaf)
    decreases |keys|
  {
    var k := keys[0];
    var o := NestList(keys, leaf).m;
    var r := Merge(d, o);
    assert k in o;
    assert StepInto(VDict(r), k) == Success(Some(r[k]));
    if |keys| == 1 {
      assert o[k] == leaf;
      assert r[k] == leaf;
      assert keys[1..] == [];
      assert StrKeys(keys) == [VStr(k)];
    } else {
      var inner := NestList(keys[1..], leaf);
      assert o[k] == inner;
      var sub := AsDict(if k in d then d[k] else VNone);
      assert r[k] == VDict(Merge(sub, inner.m));
      WalkMergedPath(sub, keys[1..], leaf);
      assert StrKeys(keys)[1..] == StrKeys(keys[1..]);
    }
  }

  /** `contains` finds a dotted path after the dict that `str_to_dict`
      builds from it was merged into the context. */
  lemma ContainsAfterUpdate(d: Dict, s: string)
    requires '.' in s
    ensures StrToDict(s, None).Success?
    ensures Contains(Merge(d, StrToDict(s, None).value.m), s) == Success(true)
  {
    var parts := Split(s, '.');
    if |parts| < 2 {
      NoDotWhenOnePart(s);
    }
    var keys := parts[..|parts| - 1];
    var last := parts[|parts| - 1];
    WalkMergedPath(d, keys, VStr(last));
  }

  /** A value stored under a dotted path by `update_recursively` is read back
      by `get_recursively` with the same path. */
  lemma GetAfterUpdate(d: Dict, s: string, v: Val)
    requires s != ""
    requires forall i :: 0 <= i < |Split(s, '.')| ==> Split(s, '.')[i] != ""
    requires !v.VDict?
    ensures UpdateRecursively(VDict(d), VStr(s), Some(v)).Success?
    ensures GetRecursively(UpdateRecursively(VDict(d), VStr(s), Some(v)).value, VStr(s), None)
            == Success(v)
  {
    var parts := Split(s, '.');
    NonEmptyPartsAll(parts);
    WalkMergedPath(d, parts, v);
  }

  lemma {:induction false} NonEmptyPartsAll(parts: seq<string>)
    requires forall i :: 0 <= i < |parts| ==> parts[i] != ""
    ensures NonEmptyParts(parts) == StrKeys(parts)
    decreases |parts|
  {
    if |parts| > 0 {
      NonEmptyPartsAll(parts[1..]);
    }
  }

  // ------------------------------------------------------------------
  // update_nested

  /** Insert *ins* under *key* at the deepest `other.key.key...` level. */
  function InsertDeepest(key: string, other: Val, ins: Val): (r: Result<Val>)
    ensures r.Success? <==> other.VDict? && ChainOk(key, other)
    decreases other
  {
    if !other.VDict? then Failure(PyTypeError)
    else if key !in other.m then Success(VDict(other.m[key := ins]))
    else
      match InsertDeepest(key, other.m[key], ins)
      case Failure(e) => Failure(e)
      case Success(inner) => Success(VDict(other.m[key := inner]))
  }

  /** Every value on the `key` chain of *v* is a dict. */
  predicate ChainOk(key: string, v: Val)
    decreases v
  {
    v.VDict? && (key in v.m ==> ChainOk(key, v.m[key]))
  }

  /** Number of `key` levels below *v*. */
  function ChainLen(key: string, v: Val): nat
    decreases v
  {
    if v.VDict? && key in v.m then 1 + ChainLen(key, v.m[key]) else 0
  }

  /** Follow *key* *n* times through dicts. */
  function FollowKey(key: string, v: Val, n: nat): Option<Val>
  {
    if n == 0 then Some(v)
    else if v.VDict? && key in v.m then FollowKey(key, v.m[key], n - 1)
    else None
  }

  /** `update_nested(key, d, other)`: the new *d*. */
  function UpdateNested(key: string, d: Dict, other: Val): (r: Result<Dict>)
    ensures key !in d ==> r == Success(d[key := other])
    ensures r.Success? ==> r.value.Keys == d.Keys + {key}
    ensures r.Success? ==> forall k :: k in d && k != key ==> r.value[k] == d[k]
    ensures key in d ==> (r.Success? <==> ChainOk(key, other))
  {
    if key in d then
      match InsertDeepest(key, other, d[key])
      case Failure(e) => Failure(e)
      case Success(o) => Success(d[key := o])
    else Success(d[key := other])
  }

  /** The old value is kept at the end of the new value's key chain. */
  lemma {:induction false} InsertDeepestKeeps(key: string, other: Val, ins: Val)
    requires ChainOk(key, other)
    ensures InsertDeepest(key, other, ins).Success?
    ensures FollowKey(key, InsertDeepest(key, other, ins).value, ChainLen(key, other) + 1)
            == Some(ins)
    decreases other
  {
    if key in other.m {
      InsertDeepestKeeps(key, other.m[key], ins);
    }
  }

  /** `update_nested` does not lose the previous `d[key]`: it is found
      `ChainLen(key, other) + 1` levels below `d[key]`. */
  lemma UpdateNestedKeepsOld(key: string, d: Dict, other: Val)
    requires key in d
    requires ChainOk(key, other)
    ensures UpdateNested(key, d, other).Success?
    ensures FollowKey(key, UpdateNested(key, d, other).value[key], ChainLen(key, other) + 1)
            == Some(d[key])
  {
    InsertDeepestKeeps(key, other, d[key]);
  }

  /** The documented example: nesting a variable context twice. */
  lemma UpdateNestedExample(x: Val)
    ensures
      var n := VDict(map["name" := VStr("n")]);
      UpdateNested("variable", map["variable" := x], n)
      == Success(map["variable" := VDict(map["name" := VStr("n"), "variable" := x])])
  {
    var n := VDict(map["name" := VStr("n")]);
    assert "variable" != "name" by { assert |"variable"| != |"name"|; }
    assert "variable" !in n.m;
    var inner := VDict(map["name" := VStr("n"), "variable" := x]);
    assert InsertDeepest("variable", n, x) == Success(inner);
    assert map["variable" := x]["variable" := inner] == map["variable" := inner];
  }
}
