// The context elements UpdateContext (lena/context/update_context.py) and
// DeleteContext (lena/context/elements.py).

module ContextElements {
  import opened Wrappers
  import opened Values
  import opened Strings
  import opened ContextFunctions
  import opened FlowFunctions

  // ------------------------------------------------------------------
  // UpdateContext

  /** The three kinds of update: a simple (non-string) value, a context
      value `{{path}}`, and a template rendered from the context (strictly,
      if a missing argument must be reported). */
  datatype Update = Simple(v: Val) | ContextValue(path: string) | Template(t: string, strict: bool)

  datatype UpdateContext = UpdateContext(
    subcontext: seq<string>,
    update: Update,
    default: Option<Val>,
    skip: bool,
    raise: bool,
    recursively: bool)

  /** The template engine, which is not part of this model: a syntax check,
      and rendering a template from a context, where None means that an
      undefined argument was met. */
  datatype TemplateEngine = TemplateEngine(syntaxOk: string -> bool, render: (string, Dict, bool) -> Option<string>)

  predicate NoBraces(s: string)
  {
    forall i :: 0 <= i < |s| ==> s[i] != '{' && s[i] != '}'
  }

  /** `re.match('{{[^{}]+}}$', u)`: `$` also matches before a final
      newline. */
  predicate ContextValueForm(u: string)
  {
    (|u| >= 5 && u[..2] == "{{" && u[|u| - 2..] == "}}" && NoBraces(u[2..|u| - 2]))
    || (|u| >= 6 && u[..2] == "{{" && u[|u| - 3..] == "}}\n" && NoBraces(u[2..|u| - 3]))
  }

  function Active(default: Option<Val>, skip: bool, raise: bool): nat
  {
    (if default.Some? then 1 else 0) + (if skip then 1 else 0) + (if raise then 1 else 0)
  }

  /** `UpdateContext(subcontext, update, value, default, skip_on_missing,
      raise_on_missing, recursively)`. */
  function MakeUpdateContext(subcontext: Val, update: Val, value: Val, default: Option<Val>,
                             skip: bool, raise: bool, recursively: bool, engine: TemplateEngine)
    : (r: Result<UpdateContext>)
    ensures !subcontext.VStr? ==> r == Failure(LenaTypeError)
    ensures subcontext == VStr("") ==> r == Failure(LenaValueError)
    ensures subcontext.VStr? && Active(default, skip, raise) > 1 ==> r == Failure(LenaValueError)
    ensures r.Failure? ==> r.error == LenaTypeError || r.error == LenaValueError
    ensures r.Success? ==> |r.value.subcontext| >= 1 && Join(r.value.subcontext, '.') == subcontext.s
    ensures r.Success? ==> Active(r.value.default, r.value.skip, r.value.raise) <= 1
    ensures r.Success? && !r.value.update.ContextValue? ==> r.value.default == default
    ensures r.Success? && !update.VStr? ==> r.value.update == Simple(update) && Active(default, skip, raise) == 0
    ensures r.Success? && Truthy(value) && update.VStr? ==> r.value.update.ContextValue?
    ensures r.Success? && r.value.update.ContextValue? ==>
              Active(r.value.default, r.value.skip, r.value.raise) == 1
    ensures r.Success? && r.value.update.Template? ==> r.value.default.None?
  {
    if !subcontext.VStr? then Failure(LenaTypeError)
    else if subcontext.s == "" then Failure(LenaValueError)
    else
      var keys := StrToList(subcontext.s);
      var active := Active(default, skip, raise);
      if active > 1 then Failure(LenaValueError)
      else if !update.VStr? then
        if active > 0 then Failure(LenaValueError)
        else Success(UpdateContext(keys, Simple(update), default, skip, raise, recursively))
      else if Truthy(value) && ContextValueForm(update.s) then
        var u := update.s;
        var raise' := if default.None? && !skip then true else raise;
        Success(UpdateContext(keys, ContextValue(u[2..|u| - 2]), default, skip, raise', recursively))
      else if Truthy(value) then Failure(LenaValueError)
      else if default.Some? then Failure(LenaValueError)
      else if !engine.syntaxOk(update.s) then Failure(LenaValueError)
      else Success(UpdateContext(keys, Template(update.s, raise || skip), default, skip, raise, recursively))
  }

  /** The context with *u* stored under the key path: missing or non-dict
      intermediate values become empty dicts; the last key is merged
      recursively or overwritten. */
  function SetPath(d: Dict, keys: seq<string>, u: Val, recursively: bool): (r: Dict)
    requires |keys| >= 1
    ensures r.Keys == d.Keys + {keys[0]}
    ensures forall k :: k in d && k != keys[0] ==> r[k] == d[k]
    decreases |keys|
  {
    if |keys| == 1 then
      if recursively then Merge(d, map[keys[0] := u]) else d[keys[0] := u]
    else
      var sub := if keys[0] in d && d[keys[0]].VDict? then d[keys[0]].m else map[];
      d[keys[0] := VDict(SetPath(sub, keys[1..], u, recursively))]
  }

  /** The update value computed from the context: None means that the
      value passes unchanged. */
  function UpdateValue(uc: UpdateContext, context: Dict, engine: TemplateEngine): Result<Option<Val>>
  {
    match uc.update
    case Simple(x) => Success(Some(x))
    case ContextValue(p) =>
      if uc.default.None? then
        (match GetRecursively(VDict(context), VStr(p), None)
         case Success(x) => Success(Some(x))
         case Failure(e) =>
           if e != LenaKeyError then Failure(e)
           else if uc.skip then Success(None)
           else if uc.raise then Failure(LenaKeyError)
           else Failure(PyAssertionError))
      else
        (match GetRecursively(VDict(context), VStr(p), uc.default)
         case Success(x) => Success(Some(x))
         case Failure(e) => Failure(e))
    case Template(t, strict) =>
      match engine.render(t, context, strict)
      case Some(s) => Success(Some(VStr(s)))
      case None =>
        if uc.raise then Failure(LenaKeyError)
        else if uc.skip then Success(None)
        else Failure(PyAssertionError)
  }

  /** `UpdateContext.__call__(value)`. */
  function ApplyUpdate(uc: UpdateContext, v: Val, engine: TemplateEngine): (r: Result<Val>)
    requires |uc.subcontext| >= 1
    ensures r.Success? && r.value != v ==>
              HasContext(r.value) && GetData(r.value) == GetData(v)
    ensures uc.update.Simple? ==>
              r == Success(Pair(GetData(v), SetPath(GetContext(v), uc.subcontext, uc.update.v, uc.recursively)))
  {
    var (data, context) := GetDataContext(v);
    var u :- UpdateValue(uc, context, engine);
    if u.None? then Success(v)
    else Success(Pair(data, SetPath(context, uc.subcontext, u.value, uc.recursively)))
  }

  /** Reading the key path back after `SetPath` gives the stored value when
      it overwrote the last key or was not a dict, and a dict containing the
      stored one when it was merged. */
  lemma {:induction false} SetPathLookup(d: Dict, keys: seq<string>, u: Val, recursively: bool)
    requires |keys| >= 1
    ensures Lookup(SetPath(d, keys, u, recursively), StrKeys(keys), None).Success?
    ensures !recursively || !u.VDict? ==>
              Lookup(SetPath(d, keys, u, recursively), StrKeys(keys), None) == Success(u)
    ensures ValContained(u, Lookup(SetPath(d, keys, u, recursively), StrKeys(keys), None).value)
    decreases |keys|
  {
    var r := SetPath(d, keys, u, recursively);
    var ks := StrKeys(keys);
    if |keys| == 1 {
      assert ks == [VStr(keys[0])];
      if recursively {
        MergeContainsOther(d, map[keys[0] := u]);
      } else {
        if u.VDict? {
          ContainedRefl(u.m);
        }
      }
    } else {
      var sub := if keys[0] in d && d[keys[0]].VDict? then d[keys[0]].m else map[];
      SetPathLookup(sub, keys[1..], u, recursively);
      assert ks[1..] == StrKeys(keys[1..]);
    }
  }

  /** A context-value update whose key is missing: skipping returns the
      value unchanged, raising fails with LenaKeyError, and a default is
      stored instead. */
  lemma MissingContextValue(uc: UpdateContext, v: Val, engine: TemplateEngine)
    requires |uc.subcontext| >= 1 && uc.update.ContextValue?
    requires Active(uc.default, uc.skip, uc.raise) == 1
    requires GetRecursively(VDict(GetContext(v)), VStr(uc.update.path), None) == Failure(LenaKeyError)
    ensures uc.skip ==> ApplyUpdate(uc, v, engine) == Success(v)
    ensures uc.raise ==> ApplyUpdate(uc, v, engine) == Failure(LenaKeyError)
    ensures uc.default.Some? ==>
              ApplyUpdate(uc, v, engine)
              == Success(Pair(GetData(v), SetPath(GetContext(v), uc.subcontext, uc.default.value, uc.recursively)))
  {
    if uc.default.Some? {
      var ks := KeyList(VStr(uc.update.path));
      assert ks.Success?;
      assert LookupResult(GetContext(v), ks.value, None) == Failure(LenaKeyError);
      LookupMissingDefault(GetContext(v), ks.value, uc.default.value);
    }
  }

  /** A key path that is missing without a default gives the default with
      one. */
  lemma {:induction false} LookupMissingDefault(m: Dict, ks: seq<Val>, x: Val)
    requires Lookup(m, ks, None) == Failure(LenaKeyError)
    ensures Lookup(m, ks, Some(x)) == Success(x)
    decreases |ks|
  {
    if |ks| > 1 && KeyIn(ks[0], m) && m[ks[0].s].VDict? {
      LookupMissingDefault(m[ks[0].s].m, ks[1..], x);
    }
  }

  const Scatter: Val := VDict(map["scatter" := VBool(true)])

  /** `UpdateContext("output.plot", {"scatter": True})`. */
  lemma MakeScatterExample(engine: TemplateEngine)
    ensures MakeUpdateContext(VStr("output.plot"), Scatter, VBool(false), None, false, false, true, engine)
            == Success(UpdateContext(["output", "plot"], Simple(Scatter), None, false, false, true))
  {
    SplitJoin(["output", "plot"], '.');
    assert Join(["output", "plot"], '.') == "output.plot";
    assert StrToList("output.plot") == ["output", "plot"];
  }

  /** The documented example: the update above applied to `((0, 0), {})`
      gives `((0, 0), {"output": {"plot": {"scatter": True}}})`. */
  lemma ApplyScatterExample(engine: TemplateEngine)
    ensures ApplyUpdate(UpdateContext(["output", "plot"], Simple(Scatter), None, false, false, true),
                        Pair(VTuple([VInt(0), VInt(0)]), map[]), engine)
            == Success(Pair(VTuple([VInt(0), VInt(0)]), map["output" := VDict(map["plot" := Scatter])]))
  {
    MergeIntoEmpty(map["plot" := Scatter]);
    assert SetPath(map[], ["plot"], Scatter, true) == map["plot" := Scatter];
    assert ["output", "plot"][1..] == ["plot"];
    assert SetPath(map[], ["output", "plot"], Scatter, true) == map["output" := VDict(map["plot" := Scatter])];
  }

  // ------------------------------------------------------------------
  // DeleteContext

  /** `DeleteContext(key)`: a tuple or list gives its items, anything else
      is split at dots by `str_to_list` (which only strings support). */
  function DeleteKeys(key: Val): (r: Result<seq<Val>>)
    ensures key.VList? || key.VTuple? ==> r == Success(key.items)
    ensures key.VStr? ==> r.Success? && |r.value| == |StrToList(key.s)|
    ensures key.VStr? ==> forall i :: 0 <= i < |r.value| ==> r.value[i] == VStr(StrToList(key.s)[i])
    ensures r.Failure? ==> r.error == PyAttributeError
  {
    match key
    case VList(items) => Success(items)
    case VTuple(items) => Success(items)
    case VStr(s) => Success(StrKeys(StrToList(s)))
    case _ => Failure(PyAttributeError)
  }

  /** Python's `del t[key]`: a missing dictionary key is a KeyError (which
      `DeleteContext` ignores); lists delete by integer position; other
      containers do not support deletion. */
  function DelItem(t: Val, key: Val): (r: Result<Option<Val>>)
    ensures t.VDict? && key.VStr? && key.s in t.m ==> r == Success(Some(VDict(t.m - {key.s})))
    ensures t.VDict? && key.VStr? && key.s !in t.m ==> r == Success(None)
    ensures !t.VDict? && !t.VList? ==> r == Failure(PyTypeError)
  {
    match t
    case VDict(m) =>
      (match key
       case VStr(s) => if s in m then Success(Some(VDict(m - {s}))) else Success(None)
       case VList(_) => Failure(PyTypeError)
       case VDict(_) => Failure(PyTypeError)
       case _ => Success(None))
    case VList(items) =>
      if key.VInt? || key.VBool? then
        var i := if key.VInt? then key.i else if key.b then 1 else 0;
        var n := |items|;
        if -n <= i < n then
          var j := if i < 0 then i + n else i;
          Success(Some(VList(items[..j] + items[j + 1..])))
        else Failure(PyIndexError)
      else Failure(PyTypeError)
    case _ => Failure(PyTypeError)
  }

  /** Deletion of *key* from the value that `get_recursively(context, path)`
      finds: None when that lookup fails with LenaKeyError (the value then
      passes unchanged) or the key is absent. */
  function DeleteAt(m: Dict, path: seq<string>, key: Val): (r: Result<Option<Dict>>)
    decreases |path|
  {
    if |path| == 0 then
      (match DelItem(VDict(m), key)
       case Failure(e) => Failure(e)
       case Success(None) => Success(None)
       case Success(Some(t)) => Success(Some(t.m)))
    else if |path| == 1 then
      if path[0] in m then
        (match DelItem(m[path[0]], key)
         case Failure(e) => Failure(e)
         case Success(None) => Success(None)
         case Success(Some(t)) => Success(Some(m[path[0] := t])))
      else Success(None)
    else if path[0] in m && m[path[0]].VDict? then
      match DeleteAt(m[path[0]].m, path[1..], key)
      case Failure(e) => Failure(e)
      case Success(None) => Success(None)
      case Success(Some(sub)) => Success(Some(m[path[0] := VDict(sub)]))
    else Success(None)
  }

  function AllStrs(ks: seq<Val>): (r: seq<string>)
    requires forall i :: 0 <= i < |ks| ==> ks[i].VStr?
    ensures |r| == |ks| && StrKeys(r) == ks
  {
    if |ks| == 0 then [] else [ks[0].s] + AllStrs(ks[1..])
  }

  /** The context after deleting the last key of *keyl* under the others. */
  function DeleteIn(context: Dict, keyl: seq<Val>): (r: Result<Dict>)
    requires |keyl| >= 1
  {
    var path := keyl[..|keyl| - 1];
    if !(forall i :: 0 <= i < |path| ==> path[i].VStr?) then Failure(LenaTypeError)
    else
      match DeleteAt(context, AllStrs(path), keyl[|keyl| - 1])
      case Failure(e) => Failure(e)
      case Success(None) => Success(context)
      case Success(Some(n)) => Success(n)
  }

  /** The value after the context update: the same value when it carries no
      context, otherwise its data with the new context. */
  function Rewrap(v: Val, context: Dict): (r: Val)
    ensures !HasContext(v) ==> r == v
    ensures HasContext(v) && context == GetContext(v) ==> r == v
  {
    PairRoundTrip(GetData(v), context, v);
    if HasContext(v) then Pair(GetData(v), context) else v
  }

  /** `DeleteContext.__call__` as written: an empty key list fails at
      `self._keyl[-1]`. */
  function DeleteAsWritten(keyl: seq<Val>, v: Val): (r: Result<Val>)
    ensures keyl == [] ==> r == Failure(PyIndexError)
  {
    if keyl == [] then Failure(PyIndexError)
    else
      var n :- DeleteIn(GetContext(v), keyl);
      Success(Rewrap(v, n))
  }

  /** `DeleteContext.__call__` with an empty key removing the entire
      context, as the constructor's comment states.
      This is the corrected behaviour; the program as written is `DeleteAsWritten`. */
  function Delete(keyl: seq<Val>, v: Val): (r: Result<Val>)
    ensures keyl == [] ==> r == Success(Rewrap(v, map[]))
    ensures keyl != [] ==> r == DeleteAsWritten(keyl, v)
  {
    if keyl == [] then Success(Rewrap(v, map[]))
    else DeleteAsWritten(keyl, v)
  }

  /** `DeleteAt` finds nothing to delete exactly when the lookup of the
      parent path fails, or the key is absent from the dict found there. */
  lemma {:induction false} DeleteAtMissing(m: Dict, path: seq<string>, key: Val)
    requires key.VStr?
    ensures DeleteAt(m, path, key) == Success(None) <==>
              match Lookup(m, StrKeys(path), None)
              case Failure(_) => true
              case Success(t) => t.VDict? && key.s !in t.m
    decreases |path|
  {
    var ks := StrKeys(path);
    if |path| == 1 {
      assert ks == [VStr(path[0])];
    } else if |path| > 1 {
      assert ks[1..] == StrKeys(path[1..]);
      if path[0] in m && m[path[0]].VDict? {
        DeleteAtMissing(m[path[0]].m, path[1..], key);
      }
    }
  }

  /** A present key is deleted and its parent dict stays in place. */
  lemma {:induction false} DeleteAtRemoves(m: Dict, path: seq<string>, s: string)
    requires Lookup(m, StrKeys(path), None).Success?
    requires Lookup(m, StrKeys(path), None).value.VDict?
    requires s in Lookup(m, StrKeys(path), None).value.m
    ensures DeleteAt(m, path, VStr(s)).Success?
    ensures DeleteAt(m, path, VStr(s)).value.Some?
    ensures Lookup(DeleteAt(m, path, VStr(s)).value.value, StrKeys(path), None)
            == Success(VDict(Lookup(m, StrKeys(path), None).value.m - {s}))
    decreases |path|
  {
    var ks := StrKeys(path);
    if |path| == 1 {
      assert ks == [VStr(path[0])];
    } else if |path| > 1 {
      assert ks[1..] == StrKeys(path[1..]);
      DeleteAtRemoves(m[path[0]].m, path[1..], s);
    }
  }

  /** A missing key or a missing parent path leaves the value unchanged. */
  lemma DeleteMissing(path: seq<string>, s: string, v: Val)
    requires match Lookup(GetContext(v), StrKeys(path), None)
             case Failure(_) => true
             case Success(t) => t.VDict? && s !in t.m
    ensures Delete(StrKeys(path) + [VStr(s)], v) == Success(v)
  {
    var keyl := StrKeys(path) + [VStr(s)];
    assert keyl[..|keyl| - 1] == StrKeys(path);
    assert AllStrs(StrKeys(path)) == path by {
      StrKeysInjective(AllStrs(StrKeys(path)), path);
    }
    DeleteAtMissing(GetContext(v), path, VStr(s));
  }

  lemma {:induction false} StrKeysInjective(a: seq<string>, b: seq<string>)
    requires StrKeys(a) == StrKeys(b)
    ensures a == b
  {
    assert |a| == |b|;
    forall i | 0 <= i < |a| ensures a[i] == b[i] {
      assert StrKeys(a)[i] == VStr(a[i]);
    }
  }

  /** The example: from `(1, {"a": {"b": "c"}})`, `DeleteContext("a.b")`
      leaves `(1, {"a": {}})` and `DeleteContext("d")` changes nothing. */
  lemma DeleteExample()
    ensures Delete([VStr("a"), VStr("b")], Pair(VInt(1), map["a" := VDict(map["b" := VStr("c")])]))
            == Success(Pair(VInt(1), map["a" := VDict(map[])]))
    ensures Delete([VStr("d")], Pair(VInt(1), map["a" := VDict(map["b" := VStr("c")])]))
            == Success(Pair(VInt(1), map["a" := VDict(map["b" := VStr("c")])]))
  {
    var ctx := map["a" := VDict(map["b" := VStr("c")])];
    assert [VStr("a"), VStr("b")][..1] == [VStr("a")];
    assert AllStrs([VStr("a")]) == ["a"];
    assert map["b" := VStr("c")] - {"b"} == map[];
    assert DeleteAt(ctx, ["a"], VStr("b")) == Success(Some(ctx["a" := VDict(map[])]));
    assert ctx["a" := VDict(map[])] == map["a" := VDict(map[])];
    assert [VStr("d")][..0] == [];
    assert AllStrs([]) == [];
    assert DeleteAt(ctx, [], VStr("d")) == Success(None);
  }

  /** The discrepancy: the empty key, which the constructor accepts for an
      empty string, fails when called instead of clearing the context. */
  lemma DeleteEmptyKeyFails(v: Val)
    ensures DeleteKeys(VStr("")) == Success([])
    ensures DeleteAsWritten([], v) == Failure(PyIndexError)
    ensures Delete([], v).Success?
    ensures HasContext(v) ==> GetContext(Delete([], v).value) == map[]
  {
  }
}
