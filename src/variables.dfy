// Variables (lena/variables/variable.py): functions of data that add
// their own description to the value's context under "variable".

module Variables {
  import opened Wrappers
  import opened Values
  import opened Strings
  import opened FlowFunctions
  import opened CoreRun

  /** The function a variable applies to the data part of a value. */
  type Getter = Val -> Result<Val>

  /** A variable: its name, its getter and its context (`var_context`). */
  datatype Variable = Variable(name: Val, getter: Getter, context: Dict)

  /** What is passed as a getter: a function, a variable, or a value that
      cannot be called. */
  datatype GetterArg = GetterFn(f: Getter) | GetterVar(v: Variable) | NotCallable(x: Val)

  /** What is passed where a variable is expected. */
  datatype VarArg = IsVariable(v: Variable) | NotVariable(x: Val)

  /** The context of a variable with a type: the context so far is copied
      under the type's name, and "type" is set to the type. */
  function Typed(context: Dict, t: string): (r: Dict)
    ensures r.Keys == context.Keys + {t, "type"}
    ensures r["type"] == VStr(t)
    ensures t != "type" ==> r[t] == VDict(context)
    ensures forall k :: k in context && k != t && k != "type" ==> r[k] == context[k]
  {
    context[t := VDict(context)]["type" := VStr(t)]
  }

  /** `Variable(name, getter, type, **kwargs)`: a keyword repeating a named
      parameter is a TypeError, a getter that is a variable or cannot be
      called a LenaTypeError. The context holds the name and the keywords;
      a type adds the copy under its name and "type". */
  function MakeVariable(name: Val, getter: GetterArg, typ: Val, kwargs: Dict): (r: Result<Variable>)
    ensures ("name" in kwargs || "getter" in kwargs || "type" in kwargs) ==> r == Failure(PyTypeError)
    ensures !("name" in kwargs || "getter" in kwargs || "type" in kwargs) && !getter.GetterFn? ==>
              r == Failure(LenaTypeError)
    ensures r.Success? ==> r.value.name == name && r.value.getter == getter.f
    ensures r.Success? && !Truthy(typ) ==> r.value.context == kwargs["name" := name]
    ensures r.Success? && Truthy(typ) ==> typ.VStr? && r.value.context == Typed(kwargs["name" := name], typ.s)
    ensures Truthy(typ) && !typ.VStr? ==> r.Failure?
  {
    if "name" in kwargs || "getter" in kwargs || "type" in kwargs then Failure(PyTypeError)
    else if !getter.GetterFn? then Failure(LenaTypeError)
    else
      var base := kwargs["name" := name];
      if !Truthy(typ) then Success(Variable(name, getter.f, base))
      else if typ.VStr? then Success(Variable(name, getter.f, Typed(base, typ.s)))
      else Failure(PyTypeError)
  }

  // ------------------------------------------------------------------
  // Updating the context

  /** `cvar and ("type" in cvar)` for the value found under "variable":
      a dictionary looks at its keys, a string for a substring, a list or
      tuple for an item; other values do not support `in`. */
  function HasTypeKey(cvar: Val): (r: Result<bool>)
    ensures cvar.VDict? ==> r == Success(cvar.m != map[] && "type" in cvar.m)
    ensures !Truthy(cvar) ==> r == Success(false)
  {
    if !Truthy(cvar) then Success(false)
    else
      match cvar
      case VDict(m) => Success("type" in m)
      case VStr(s) => Success(IsSubstring("type", s))
      case VList(items) => Success(VStr("type") in items)
      case VTuple(items) => Success(VStr("type") in items)
      case _ => Failure(PyTypeError)
  }

  /** The types composed so far: the previous variable's "compose" list,
      which must be a list, or else its type alone. */
  function BaseTypes(cvar: Dict): (r: Result<seq<Val>>)
    requires "type" in cvar
    ensures "compose" in cvar ==> r == (if cvar["compose"].VList? then Success(cvar["compose"].items) else Failure(PyAssertionError))
    ensures "compose" !in cvar ==> r == Success([cvar["type"]])
  {
    if "compose" in cvar then
      if cvar["compose"].VList? then Success(cvar["compose"].items) else Failure(PyAssertionError)
    else Success([cvar["type"]])
  }

  /** The composed types, as written: the previous variable's "compose"
      list (or its type), extended by the new variable's type — by
      `extend`, which adds the characters of a string, when the new
      context has its own "compose" list, and by `append` otherwise. */
  function ComposedAsWritten(cvar: Dict, vc: Dict): (r: Result<seq<Val>>)
    requires "type" in cvar
    ensures "compose" in cvar && !cvar["compose"].VList? ==> r == Failure(PyAssertionError)
    // without a "compose" list of the new context it agrees with the corrected rule
    ensures "compose" !in vc ==> r == Composed(cvar, vc)
    // with one, a string type is extended by its characters
    ensures "compose" in vc && vc["compose"].VList? && "type" in vc && vc["type"].VStr? && BaseTypes(cvar).Success? ==>
              r == Success(BaseTypes(cvar).value + Chars(vc["type"].s))
  {
    var curType := if "type" in vc then vc["type"] else VList([]);
    var base :- BaseTypes(cvar);
    if "compose" in vc then
      if !vc["compose"].VList? then Failure(PyAssertionError)
      else
        var more :- Iterate(curType);
        Success(base + more)
    else if Truthy(curType) then Success(base + [curType])
    else Success(base)
  }

  /** The composed types: the previous variable's "compose" list (or its
      type), followed by the new variable's "compose" list when it has
      one, or else by its type when it has one.
      This is the corrected behaviour; the program as written is `ComposedAsWritten`. */
  function Composed(cvar: Dict, vc: Dict): (r: Result<seq<Val>>)
    requires "type" in cvar
    ensures "compose" in cvar && !cvar["compose"].VList? ==> r == Failure(PyAssertionError)
    ensures r.Success? <==> ("compose" in cvar ==> cvar["compose"].VList?) && ("compose" in vc ==> vc["compose"].VList?)
    ensures r.Success? ==> var base := if "compose" in cvar then cvar["compose"].items else [cvar["type"]];
              ("compose" in vc ==> vc["compose"].VList?) &&
              r.value == base + (if "compose" in vc then vc["compose"].items
                                 else if "type" in vc && Truthy(vc["type"]) then [vc["type"]] else [])
  {
    var curType := if "type" in vc then vc["type"] else VList([]);
    var base :- BaseTypes(cvar);
    if "compose" in vc then
      if !vc["compose"].VList? then Failure(PyAssertionError)
      else Success(base + vc["compose"].items)
    else if Truthy(curType) then Success(base + [curType])
    else Success(base)
  }

  /** The old typed subcontexts kept: for every composed type that the new
      context lacks and the old one has, the old subcontext is copied, and
      nothing else is added. A type that cannot be a key (a list, a
      dictionary, a tuple holding one) is a TypeError; other values that
      are not strings are never keys here. */
  function KeepTypes(vc: Dict, types: seq<Val>, prev: Dict): (r: Result<Dict>)
    ensures r.Success? <==> forall i :: 0 <= i < |types| ==> Hashable(types[i])
    ensures r.Success? ==> vc.Keys <= r.value.Keys && forall k :: k in vc ==> r.value[k] == vc[k]
    ensures r.Success? ==> forall k :: k in r.value && k !in vc ==> k in prev && r.value[k] == prev[k] && VStr(k) in types
    ensures r.Success? ==> forall i :: 0 <= i < |types| && types[i].VStr? && types[i].s !in vc && types[i].s in prev ==>
                             types[i].s in r.value && r.value[types[i].s] == prev[types[i].s]
    decreases |types|
  {
    if |types| == 0 then Success(vc)
    else
      var t := types[0];
      assert forall i :: 1 <= i < |types| ==> types[1..][i - 1] == types[i];
      if !Hashable(t) then Failure(PyTypeError)
      else if t.VStr? && t.s !in vc && t.s in prev then KeepTypes(vc[t.s := prev[t.s]], types[1..], prev)
      else KeepTypes(vc, types[1..], prev)
  }

  /** `Variable._update_context(context, var_context)`, with the rule for
      composed types given as *compose*: "variable" becomes the new
      variable's context; when the old one had a type, the composed types
      go under "compose" and the old typed subcontexts are kept. */
  function UpdateWith(context: Dict, vc: Dict, asWritten: bool): (r: Result<Dict>)
    // only "variable" changes
    ensures r.Success? ==> r.value.Keys == context.Keys + {"variable"}
    ensures r.Success? ==> forall k :: k in context && k != "variable" ==> r.value[k] == context[k]
    // without a variable before, "variable" is the new context
    ensures ("variable" !in context || !Truthy(context["variable"])) ==> r == Success(context["variable" := VDict(vc)])
  {
    var cvar := if "variable" in context then context["variable"] else VNone;
    var typed :- HasTypeKey(cvar);
    if typed && !cvar.VDict? then Failure(PyTypeError)
    else
      var composed :- if typed then (if asWritten then ComposedAsWritten(cvar.m, vc) else Composed(cvar.m, vc))
                      else Success([]);
      if |composed| == 0 then Success(context["variable" := VDict(vc)])
      else
        var prev := cvar.m["compose" := VList(composed)];
        var kept :- KeepTypes(vc["compose" := VList(composed)], composed, prev);
        Success(context["variable" := VDict(kept)])
  }

  /** `_update_context` as written. */
  function UpdateContextAsWritten(context: Dict, vc: Dict): (r: Result<Dict>)
    // as written differs only when the new context has its own "compose" list
    ensures "compose" !in vc ==> r == UpdateContext(context, vc)
    ensures r.Success? ==> r.value.Keys == context.Keys + {"variable"}
  {
    UpdateWith(context, vc, true)
  }

  /** `_update_context`: "variable" holds the new variable's context (its
      keys other than "compose" with their values); every other key of
      the context is kept; without a typed variable before, nothing else
      is added. */
  function UpdateContext(context: Dict, vc: Dict): (r: Result<Dict>)
    ensures r.Success? ==> "variable" in r.value && r.value["variable"].VDict?
                           && forall k :: k in vc && k != "compose" ==> k in r.value["variable"].m && r.value["variable"].m[k] == vc[k]
    ensures r.Success? ==> forall k :: k in context && k != "variable" ==> k in r.value && r.value[k] == context[k]
    ensures r.Success? ==> r.value.Keys == context.Keys + {"variable"}
    ensures ("variable" !in context || !Truthy(context["variable"])) ==> r == Success(context["variable" := VDict(vc)])
    ensures "variable" in context && context["variable"].VDict? && "type" in context["variable"].m ==>
              var cvar := context["variable"].m;
              && (Composed(cvar, vc).Failure? ==> r == Failure(PyAssertionError))
              && (Composed(cvar, vc).Success? && |Composed(cvar, vc).value| > 0 ==>
                    ComposedKept(context, vc, cvar, Composed(cvar, vc).value, r))
  {
    UpdateWith(context, vc, false)
  }

  /** After a typed variable whose composed types are *composed*: the update
      fails exactly when a type cannot be a key; otherwise "variable" holds
      the new context with "compose" set to the composed types and the old
      typed subcontexts the new one lacks. */
  predicate ComposedKept(context: Dict, vc: Dict, cvar: Dict, composed: seq<Val>, r: Result<Dict>)
  {
    && (r.Success? <==> forall i :: 0 <= i < |composed| ==> Hashable(composed[i]))
    && (r.Success? ==>
          && "variable" in r.value && r.value["variable"].VDict?
          && KeepTypes(vc["compose" := VList(composed)], composed, cvar["compose" := VList(composed)]) == Success(r.value["variable"].m)
          && "compose" in r.value["variable"].m && r.value["variable"].m["compose"] == VList(composed))
  }

  /** After a typed variable, a typed variable without "compose" of its
      own gives "compose" the two types in order. */
  lemma ComposeTwoTypes(context: Dict, prev: Dict, vc: Dict)
    requires "variable" in context && context["variable"] == VDict(prev)
    requires "type" in prev && "compose" !in prev
    requires "type" in vc && "compose" !in vc && Truthy(vc["type"]) && vc["type"].VStr?
    requires prev["type"].VStr?
    ensures UpdateContext(context, vc).Success?
    ensures var cv := UpdateContext(context, vc).value["variable"].m;
            "compose" in cv && cv["compose"] == VList([prev["type"], vc["type"]])
  {
    var c := Composed(prev, vc);
    assert c.Success?;
    assert c.value == [prev["type"]] + [vc["type"]] == [prev["type"], vc["type"]];
    var kept := KeepTypes(vc["compose" := VList([prev["type"], vc["type"]])], [prev["type"], vc["type"]],
                          prev["compose" := VList([prev["type"], vc["type"]])]);
    assert [prev["type"], vc["type"]][1..] == [vc["type"]];
  }

  /** A typed variable context whose composed variable comes after a
      typed variable: as written, "compose" gets the characters of the
      new type; extending by the new "compose" list keeps the types. */
  lemma ComposeExtendExample()
    ensures var context := map["variable" := VDict(map["name" := VStr("p"), "type" := VStr("t")])];
            var vc := map["name" := VStr("x"), "type" := VStr("ab"), "compose" := VList([VStr("s"), VStr("ab")])];
            UpdateContextAsWritten(context, vc).Success?
            && UpdateContextAsWritten(context, vc).value["variable"].m["compose"] == VList([VStr("t"), VStr("a"), VStr("b")])
            && UpdateContext(context, vc).Success?
            && UpdateContext(context, vc).value["variable"].m["compose"] == VList([VStr("t"), VStr("s"), VStr("ab")])
  {
    var prev := map["name" := VStr("p"), "type" := VStr("t")];
    var vc := map["name" := VStr("x"), "type" := VStr("ab"), "compose" := VList([VStr("s"), VStr("ab")])];
    ComposeExtendAsWritten(prev, vc);
    ComposeExtendFixed(prev, vc);
  }

  lemma ComposeExtendAsWritten(prev: Dict, vc: Dict)
    requires prev == map["name" := VStr("p"), "type" := VStr("t")]
    requires vc == map["name" := VStr("x"), "type" := VStr("ab"), "compose" := VList([VStr("s"), VStr("ab")])]
    ensures var context := map["variable" := VDict(prev)];
            UpdateContextAsWritten(context, vc).Success?
            && UpdateContextAsWritten(context, vc).value["variable"].m["compose"] == VList([VStr("t"), VStr("a"), VStr("b")])
  {
    var ch := Chars("ab");
    assert ch[0] == VStr(['a']) && ch[1] == VStr(['b']);
    assert ch == [VStr("a"), VStr("b")];
    assert BaseTypes(prev) == Success([VStr("t")]);
    var types := [VStr("t"), VStr("a"), VStr("b")];
    assert [VStr("t")] + ch == types;
    assert ComposedAsWritten(prev, vc) == Success(types);
    var context := map["variable" := VDict(prev)];
    assert HasTypeKey(VDict(prev)) == Success(true);
    var kept := KeepTypes(vc["compose" := VList(types)], types, prev["compose" := VList(types)]);
    assert kept.Success? && kept.value["compose"] == VList(types);
    assert UpdateContextAsWritten(context, vc) == Success(context["variable" := VDict(kept.value)]);
  }

  lemma ComposeExtendFixed(prev: Dict, vc: Dict)
    requires prev == map["name" := VStr("p"), "type" := VStr("t")]
    requires vc == map["name" := VStr("x"), "type" := VStr("ab"), "compose" := VList([VStr("s"), VStr("ab")])]
    ensures var context := map["variable" := VDict(prev)];
            UpdateContext(context, vc).Success?
            && UpdateContext(context, vc).value["variable"].m["compose"] == VList([VStr("t"), VStr("s"), VStr("ab")])
  {
    var c := Composed(prev, vc);
    assert c.Success? && c.value == [VStr("t")] + [VStr("s"), VStr("ab")] == [VStr("t"), VStr("s"), VStr("ab")];
  }

  // ------------------------------------------------------------------
  // Calling a variable

  /** `var(value)`: the getter applied to the data part (its errors
      propagate), and the context updated with the variable's context. */
  function Call(v: Variable, value: Val): (r: Result<Val>)
    ensures r.Success? ==> HasContext(r.value)
    ensures r.Success? <==> v.getter(GetData(value)).Success? && UpdateContext(GetContext(value), v.context).Success?
    ensures r.Success? ==> r.value == Pair(v.getter(GetData(value)).value, UpdateContext(GetContext(value), v.context).value)
  {
    var data := v.getter(GetData(value));
    if data.Failure? then Failure(data.error)
    else
      var context :- UpdateContext(GetContext(value), v.context);
      Success(Pair(data.value, context))
  }

  // ------------------------------------------------------------------
  // Combine

  /** The getters of the variables applied to one value, in order; the
      first error is raised. */
  function GetAll(vars: seq<Variable>, val: Val): (r: Result<seq<Val>>)
    ensures r.Success? <==> forall i :: 0 <= i < |vars| ==> vars[i].getter(val).Success?
    ensures r.Success? ==> |r.value| == |vars| && forall i :: 0 <= i < |vars| ==> r.value[i] == vars[i].getter(val).value
    decreases |vars|
  {
    if |vars| == 0 then Success([])
    else
      var first :- vars[0].getter(val);
      assert forall i :: 1 <= i < |vars| ==> vars[1..][i - 1] == vars[i];
      var rest :- GetAll(vars[1..], val);
      Success([first] + rest)
  }

  /** The getter of `Combine`: the tuple of the getters' results. */
  function CombineGet(vars: seq<Variable>, val: Val): Result<Val>
  {
    var xs :- GetAll(vars, val);
    Success(VTuple(xs))
  }

  function Variables(args: seq<VarArg>): (r: seq<Variable>)
    requires forall i :: 0 <= i < |args| ==> args[i].IsVariable?
    ensures |r| == |args| && forall i :: 0 <= i < |args| ==> r[i] == args[i].v
  {
    seq(|args|, i requires 0 <= i < |args| => args[i].v)
  }

  /** The variables' names as strings; a name that is not a string cannot
      be joined (TypeError). */
  function NameStrings(vars: seq<Variable>): (r: Result<seq<string>>)
    ensures r.Success? <==> forall i :: 0 <= i < |vars| ==> vars[i].name.VStr?
    ensures r.Success? ==> |r.value| == |vars| && forall i :: 0 <= i < |vars| ==> r.value[i] == vars[i].name.s
    decreases |vars|
  {
    if |vars| == 0 then Success([])
    else if !vars[0].name.VStr? then Failure(PyTypeError)
    else
      assert forall i :: 1 <= i < |vars| ==> vars[1..][i - 1] == vars[i];
      var rest :- NameStrings(vars[1..]);
      Success([vars[0].name.s] + rest)
  }

  /** The context given to `Variable.__init__` by `Combine`: the keywords,
      "dim" and "combine" (a tuple of the variables' contexts). */
  function CombineContext(vars: seq<Variable>, kwargs: Dict): (r: Dict)
    ensures r.Keys == kwargs.Keys + {"dim", "combine"}
    ensures r["dim"] == VInt(|vars|)
    ensures r["combine"] == VTuple(seq(|vars|, i requires 0 <= i < |vars| => VDict(vars[i].context)))
  {
    kwargs["dim" := VInt(|vars|)]["combine" := VTuple(seq(|vars|, i requires 0 <= i < |vars| => VDict(vars[i].context)))]
  }

  /** `Combine(*args, **kwargs)`: at least one argument, all variables
      (LenaTypeError otherwise); the name defaults to the variables' names
      joined with "_" when no name (or None) is given; "dim" may not be given; the getter returns the tuple
      of the getters' results. */
  function Combine(args: seq<VarArg>, kwargs: Dict): (r: Result<Variable>)
    ensures |args| == 0 ==> r == Failure(LenaTypeError)
    ensures (exists i :: 0 <= i < |args| && args[i].NotVariable?) ==> r == Failure(LenaTypeError)
    ensures r.Success? ==> forall val :: r.value.getter(val) == CombineGet(Variables(args), val)
    ensures r.Success? && ("name" !in kwargs || kwargs["name"] == VNone) ==>
              NameStrings(Variables(args)).Success? && r.value.name == VStr(Join(NameStrings(Variables(args)).value, '_'))
    ensures r.Success? && "name" in kwargs && kwargs["name"] != VNone ==> r.value.name == kwargs["name"]
  {
    if |args| == 0 then Failure(LenaTypeError)
    else if exists i :: 0 <= i < |args| && args[i].NotVariable? then Failure(LenaTypeError)
    else
      var vars := Variables(args);
      var getter := (val: Val) => CombineGet(vars, val);
      var name :- if "name" in kwargs && kwargs["name"] != VNone then Success(kwargs["name"])
                  else (var names :- NameStrings(vars); Success(VStr(Join(names, '_'))));
      var rest := kwargs - {"name"};
      if "dim" in rest then Failure(PyAssertionError)
      else
        var vc := CombineContext(vars, rest);
        if "getter" in vc then Failure(PyTypeError)
        else
          var typ := if "type" in vc then vc["type"] else VStr("");
          MakeVariable(name, GetterFn(getter), typ, vc - {"type"})
  }

  /** The combined variable records its dimension under "dim", unless its
      type is itself named "dim". */
  lemma CombineDim(args: seq<VarArg>, kwargs: Dict)
    requires Combine(args, kwargs).Success?
    requires !("type" in kwargs && kwargs["type"] == VStr("dim"))
    ensures "dim" in Combine(args, kwargs).value.context
    ensures Combine(args, kwargs).value.context["dim"] == VInt(|args|)
  {
    var vc := CombineContext(Variables(args), kwargs - {"name"});
    assert vc["dim"] == VInt(|args|);
    assert "type" in vc ==> vc["type"] == kwargs["type"];
  }

  // ------------------------------------------------------------------
  // Compose

  /** The getter of `Compose`: the getters applied one after another. */
  function ComposeGet(vars: seq<Variable>, val: Val): (r: Result<Val>)
    ensures |vars| == 0 ==> r == Success(val)
    ensures |vars| == 1 ==> r == vars[0].getter(val)
    decreases |vars|
  {
    if |vars| == 0 then Success(val)
    else
      var next :- vars[0].getter(val);
      ComposeGet(vars[1..], next)
  }

  /** Composing one more variable applies its getter last. */
  lemma {:induction false} ComposeGetSnoc(vars: seq<Variable>, v: Variable, val: Val)
    ensures ComposeGet(vars + [v], val)
            == (var r := ComposeGet(vars, val); if r.Failure? then r else v.getter(r.value))
    decreases |vars|
  {
    if |vars| == 0 {
      assert ([] + [v])[1..] == [];
    } else {
      assert (vars + [v])[1..] == vars[1..] + [v];
      var first := vars[0].getter(val);
      if first.Success? {
        ComposeGetSnoc(vars[1..], v, first.value);
      }
    }
  }

  /** The context of a composition: the first variable's context updated
      by each following one in turn. */
  function ComposeContexts(compose: Dict, vars: seq<Variable>): (r: Result<Dict>)
    ensures r.Success? ==> r.value.Keys == compose.Keys + (if |vars| > 0 then {"variable"} else {})
    ensures r.Success? ==> forall k :: k in compose && k != "variable" ==> r.value[k] == compose[k]
    // "variable" holds the last variable's context, "compose" aside
    ensures r.Success? && |vars| > 0 ==>
              "variable" in r.value && r.value["variable"].VDict? &&
              forall k :: k in vars[|vars| - 1].context && k != "compose" ==>
                k in r.value["variable"].m && r.value["variable"].m[k] == vars[|vars| - 1].context[k]
    decreases |vars|
  {
    if |vars| == 0 then Success(compose)
    else
      var next :- UpdateContext(compose, vars[0].context);
      ComposeContexts(next, vars[1..])
  }

  /** `Compose(*args, **kwargs)`: all arguments variables, at least one,
      and no getter keyword (LenaTypeError otherwise); the context is that
      of the variables updated in turn, with the keywords other than the
      name added; the name defaults to the last variable's. */
  function Compose(args: seq<VarArg>, kwargs: Dict): (r: Result<Variable>)
    ensures (exists i :: 0 <= i < |args| && args[i].NotVariable?) || |args| == 0 || "getter" in kwargs ==>
              r == Failure(LenaTypeError)
    ensures r.Success? ==> forall val :: r.value.getter(val) == ComposeGet(Variables(args), val)
    ensures r.Success? ==> r.value.name == if "name" in kwargs then kwargs["name"] else args[|args| - 1].v.name
    ensures r.Success? ==> forall k :: k in kwargs && k != "name" ==> k in r.value.context && r.value.context[k] == kwargs[k]
    // without keywords the context is that of the composed variables
    ensures r.Success? && kwargs == map[] ==>
              var vars := Variables(args);
              var c := ComposeContexts(map["variable" := VDict(vars[0].context)], vars[1..]);
              c.Success? && "variable" in c.value && c.value["variable"].VDict? && r.value.context == c.value["variable"].m
  {
    if exists i :: 0 <= i < |args| && args[i].NotVariable? then Failure(LenaTypeError)
    else if |args| == 0 then Failure(LenaTypeError)
    else if "getter" in kwargs then Failure(LenaTypeError)
    else
      var vars := Variables(args);
      var getter := (val: Val) => ComposeGet(vars, val);
      var compose :- ComposeContexts(map["variable" := VDict(vars[0].context)], vars[1..]);
      var vc := if "variable" in compose && compose["variable"].VDict? then compose["variable"].m else map[];
      var name := if "name" in kwargs then kwargs["name"] else vars[|vars| - 1].name;
      var rest := kwargs - {"name"};
      Success(Variable(name, getter, vc + rest))
  }

  /** `coord[0]` on a tuple or list (IndexError when empty, TypeError for
      other values). */
  function First(v: Val): Result<Val>
  {
    if !(v.VTuple? || v.VList?) then Failure(PyTypeError)
    else if |v.items| == 0 then Failure(PyIndexError)
    else Success(v.items[0])
  }

  /** The variables of the module's example: a coordinate `x` and a
      particle `positron`, both taking the first item. */
  function ExampleX(): Result<Variable>
  {
    MakeVariable(VStr("x"), GetterFn(First), VStr("coordinate"), map[])
  }

  function ExamplePositron(): Result<Variable>
  {
    MakeVariable(VStr("positron"), GetterFn(First), VStr("particle"), map["latex_name" := VStr("e^+")])
  }

  /** The contexts of the example's variables: each holds its name, its
      keywords, its type and a copy of the rest under the type. */
  const XContext: Dict :=
    map["name" := VStr("x"), "coordinate" := VDict(map["name" := VStr("x")]), "type" := VStr("coordinate")]

  const PositronContext: Dict :=
    map["name" := VStr("positron"), "latex_name" := VStr("e^+"),
        "particle" := VDict(map["name" := VStr("positron"), "latex_name" := VStr("e^+")]),
        "type" := VStr("particle")]

  /** The composed variable's context in the module's example. */
  const XeContext: Dict :=
    map["name" := VStr("x"),
        "coordinate" := VDict(map["name" := VStr("x")]),
        "type" := VStr("coordinate"),
        "compose" := VList([VStr("particle"), VStr("coordinate")]),
        "particle" := VDict(map["name" := VStr("positron"), "latex_name" := VStr("e^+")])]

  lemma ExampleVariables()
    ensures ExampleX() == Success(Variable(VStr("x"), First, XContext))
    ensures ExamplePositron() == Success(Variable(VStr("positron"), First, PositronContext))
  {
    assert map["name" := VStr("x")] == map[]["name" := VStr("x")];
    assert map["name" := VStr("positron"), "latex_name" := VStr("e^+")]
           == map["latex_name" := VStr("e^+")]["name" := VStr("positron")];
  }

  /** Composing two variables without keywords: the second variable's
      context updates a context whose variable is the first's; the getter
      applies the first getter, then the second. */
  lemma ComposeTwo(a: Variable, b: Variable)
    requires UpdateContext(map["variable" := VDict(a.context)], b.context).Success?
    ensures var xe := Compose([IsVariable(a), IsVariable(b)], map[]);
            xe.Success?
            && xe.value.context == UpdateContext(map["variable" := VDict(a.context)], b.context).value["variable"].m
            && forall val :: xe.value.getter(val) == (var y :- a.getter(val); b.getter(y))
  {
    var args := [IsVariable(a), IsVariable(b)];
    var vars := Variables(args);
    assert vars == [a, b];
    var u := UpdateContext(map["variable" := VDict(a.context)], b.context);
    assert ComposeContexts(map["variable" := VDict(a.context)], [b]) == u;
    assert Compose(args, map[]).Success?;
    forall val ensures ComposeGet(vars, val) == (var y :- a.getter(val); b.getter(y)) {
      ComposeGetTwo(a, b, val);
    }
  }

  lemma ComposeGetTwo(a: Variable, b: Variable, val: Val)
    ensures ComposeGet([a, b], val) == (var y :- a.getter(val); b.getter(y))
  {
    assert [a, b][1..] == [b];
  }

  lemma ExampleKeep()
    ensures var types := [VStr("particle"), VStr("coordinate")];
            KeepTypes(XContext["compose" := VList(types)], types, PositronContext["compose" := VList(types)])
            == Success(XeContext)
  {
    var types := [VStr("particle"), VStr("coordinate")];
    var prev := PositronContext["compose" := VList(types)];
    var vc := XContext["compose" := VList(types)];
    var kept := vc["particle" := prev["particle"]];
    assert types[1..] == [VStr("coordinate")] && types[1..][1..] == [];
    assert KeepTypes(kept, [], prev) == Success(kept);
    assert KeepTypes(kept, types[1..], prev) == Success(kept);
    assert KeepTypes(vc, types, prev) == Success(kept);
    assert kept == XeContext;
  }

  /** In the module's example, the coordinate `x` after the particle
      `positron`: the types are composed in order and the particle's own
      subcontext is kept. */
  lemma ExampleUpdate()
    ensures UpdateContext(map["variable" := VDict(PositronContext)], XContext)
            == Success(map["variable" := VDict(XeContext)])
  {
    var types := [VStr("particle"), VStr("coordinate")];
    var c := Composed(PositronContext, XContext);
    assert c.Success? && c.value == [VStr("particle")] + [VStr("coordinate")] == types;
    assert "type" in PositronContext;
    assert HasTypeKey(VDict(PositronContext)) == Success(true);
    ExampleKeep();
    var context := map["variable" := VDict(PositronContext)];
    assert context["variable" := VDict(XeContext)] == map["variable" := VDict(XeContext)];
  }

  /** The module's example: `Compose(positron, x)` lists the types
      "particle" then "coordinate" and keeps the particle's context. */
  lemma ComposeExample()
    ensures ExampleX().Success? && ExamplePositron().Success?
    ensures var xe := Compose([IsVariable(ExamplePositron().value), IsVariable(ExampleX().value)], map[]);
            xe.Success? && xe.value.context == XeContext
  {
    ExampleVariables();
    ExampleUpdate();
    ComposeTwo(ExamplePositron().value, ExampleX().value);
  }

  /** The module's example: `Compose(positron, x)` takes the first
      coordinate of the first particle. */
  lemma ComposeExampleGetter()
    ensures ExampleX().Success? && ExamplePositron().Success?
    ensures var xe := Compose([IsVariable(ExamplePositron().value), IsVariable(ExampleX().value)], map[]);
            xe.Success?
            && xe.value.getter(VTuple([VTuple([VReal(1.05), VReal(0.98), VReal(0.8)]),
                                       VTuple([VReal(1.1), VReal(1.1), VReal(1.3)])]))
               == Success(VReal(1.05))
  {
    ExampleVariables();
    ComposeExample();
    var vars := Variables([IsVariable(ExamplePositron().value), IsVariable(ExampleX().value)]);
    assert vars[0].getter == First && vars[1].getter == First;
    assert vars[1..] == [vars[1]] && vars[1..][1..] == [];
    var t := VTuple([VReal(1.05), VReal(0.98), VReal(0.8)]);
    var v := VTuple([t, VTuple([VReal(1.1), VReal(1.1), VReal(1.3)])]);
    assert First(v) == Success(t);
    assert First(t) == Success(VReal(1.05));
    assert ComposeGet(vars[1..][1..], VReal(1.05)) == Success(VReal(1.05));
    assert ComposeGet(vars[1..], t) == Success(VReal(1.05));
    assert ComposeGet(vars, v) == Success(VReal(1.05));
  }
}
