// Selectors of flow values (lena/flow/selectors.py).

module Selectors {
  import opened Wrappers
  import opened Values
  import opened FlowFunctions
  import opened ContextFunctions

  /** A built selector. `ByFunction` holds a user callable, which may raise. */
  datatype Selector =
    | ByClass(cls: string)                 // isinstance of the data part
    | ByFunction(f: Val -> Result<Val>)    // a callable used as is
    | ByContext(path: string)              // `contains(context, path)`
    | AnyOf(sels: seq<Selector>)           // built from a list
    | AllOf(sels: seq<Selector>)           // built from a tuple
    | Negate(inner: Selector)              // `Not(selector)`

  /** What a `Selector` is initialised with. A class is also callable (as
      its constructor), which matters where only callability is tested. */
  datatype SelectorArg =
    | ArgClass(cls: string, construct: Val -> Result<Val>)
    | ArgCallable(f: Val -> Result<Val>)
    | ArgSelector(sel: Selector)
    | ArgString(s: string)
    | ArgList(items: seq<SelectorArg>)
    | ArgTuple(items: seq<SelectorArg>)
    | ArgOther(v: Val)

  /** The name of the class of a value. */
  function TypeName(v: Val): string
  {
    match v
    case VNone => "NoneType"
    case VBool(_) => "bool"
    case VInt(_) => "int"
    case VReal(_) => "float"
    case VStr(_) => "str"
    case VList(_) => "list"
    case VTuple(_) => "tuple"
    case VDict(_) => "dict"
    case VObj(c, _) => c
  }

  /** The base classes of a class other than `object`: `bool` derives
      from `int`, and among Lena's own classes a `Histogram` is a
      `FillCompute` (lena/structures/histogram.py:9), `Combine` and
      `Compose` are `Variable`s (lena/variables/variable.py:239, 306),
      `Not` is a `Selector` (lena/flow/selectors.py:113) and `HistToCSV`
      a `ToCSV` (lena/output/to_csv.py:178). None of these bases has a
      base of its own here, so the table is closed under inheritance
      (`BasesClosed`). A user class derives from `object` only. */
  function Bases(cls: string): (r: set<string>)
    ensures "object" !in r && cls !in r
  {
    if cls == "bool" then {"int"}
    else if cls == "Histogram" then {"FillCompute"}
    else if cls == "Combine" || cls == "Compose" then {"Variable"}
    else if cls == "Not" then {"Selector"}
    else if cls == "HistToCSV" then {"ToCSV"}
    else {}
  }

  /** `isinstance(v, cls)`: the value's own class, one of its bases, or
      `object`. */
  predicate IsInstance(v: Val, cls: string)
  {
    TypeName(v) == cls || cls in Bases(TypeName(v)) || cls == "object"
  }

  /** Every base in the table has no further base, so one lookup gives
      all the ancestors and `IsInstance` is `isinstance` for these
      classes. */
  lemma BasesClosed(cls: string, base: string)
    requires base in Bases(cls)
    ensures Bases(base) == {}
  {
  }

  /** A class selector accepts values of its subclasses: `Selector(FillCompute)`
      selects a histogram, `Selector(int)` a boolean and
      `Selector(Variable)` a `Compose`, while `Selector(Histogram)` does
      not select a plain `FillCompute`. */
  lemma SubclassSelected(attrs: map<string, Val>, b: bool)
    ensures Selected(ByClass("FillCompute"), VObj("Histogram", attrs))
    ensures Selected(ByClass("int"), VBool(b))
    ensures Selected(ByClass("Variable"), VObj("Compose", attrs))
    ensures !Selected(ByClass("Histogram"), VObj("FillCompute", attrs))
    ensures Selected(ByClass("object"), VObj("FillCompute", attrs))
  {
    assert GetData(VObj("Histogram", attrs)) == VObj("Histogram", attrs);
    assert GetData(VObj("Compose", attrs)) == VObj("Compose", attrs);
    assert GetData(VObj("FillCompute", attrs)) == VObj("FillCompute", attrs);
    assert GetData(VBool(b)) == VBool(b);
  }

  /** `Selector(arg)`: a class, a callable or a string is used directly,
      a list becomes "any of", a tuple "all of", anything else raises
      LenaTypeError, also when nested. */
  function Make(arg: SelectorArg): (r: Result<Selector>)
    ensures arg.ArgOther? ==> r == Failure(LenaTypeError)
    ensures r.Failure? ==> r.error == LenaTypeError
    ensures arg.ArgList? ==> (r.Success? <==> forall i :: 0 <= i < |arg.items| ==> Make(arg.items[i]).Success?)
    ensures arg.ArgTuple? ==> (r.Success? <==> forall i :: 0 <= i < |arg.items| ==> Make(arg.items[i]).Success?)
    ensures r.Success? && arg.ArgList? ==>
              r.value.AnyOf? && |r.value.sels| == |arg.items|
              && forall i :: 0 <= i < |arg.items| ==> r.value.sels[i] == Make(arg.items[i]).value
    ensures r.Success? && arg.ArgTuple? ==>
              r.value.AllOf? && |r.value.sels| == |arg.items|
              && forall i :: 0 <= i < |arg.items| ==> r.value.sels[i] == Make(arg.items[i]).value
    decreases arg, 1
  {
    match arg
    case ArgClass(c, _) => Success(ByClass(c))
    case ArgCallable(f) => Success(ByFunction(f))
    case ArgSelector(s) => Success(s)
    case ArgString(s) => Success(ByContext(s))
    case ArgList(items) =>
      var sels :- MakeAll(items);
      Success(AnyOf(sels))
    case ArgTuple(items) =>
      var sels :- MakeAll(items);
      Success(AllOf(sels))
    case ArgOther(_) => Failure(LenaTypeError)
  }

  /** Every item converted, the first failure raised. */
  function MakeAll(items: seq<SelectorArg>): (r: Result<seq<Selector>>)
    ensures r.Success? <==> forall i :: 0 <= i < |items| ==> Make(items[i]).Success?
    ensures r.Failure? ==> r.error == LenaTypeError
    ensures r.Success? ==> |r.value| == |items| && forall i :: 0 <= i < |items| ==> r.value[i] == Make(items[i]).value
    decreases items, 0
  {
    if |items| == 0 then Success([])
    else
      var first :- Make(items[0]);
      var rest :- MakeAll(items[1..]);
      assert forall i :: 1 <= i < |items| ==> items[i] == items[1..][i - 1];
      Success([first] + rest)
  }

  /** `Selector.__call__(value)`: the raw result of the selector, and
      `False` when it raised. */
  function Apply(sel: Selector, v: Val): (r: Val)
    decreases sel, 1
  {
    match sel
    case ByClass(c) => VBool(IsInstance(GetData(v), c))
    case ByFunction(f) =>
      (match f(v)
       case Success(x) => x
       case Failure(_) => VBool(false))
    case ByContext(p) =>
      (match Contains(GetContext(v), p)
       case Success(b) => VBool(b)
       case Failure(_) => VBool(false))
    case AnyOf(sels) => VBool(AnySelected(sels, v))
    case AllOf(sels) => VBool(AllSelected(sels, v))
    case Negate(inner) => VBool(!Selected(inner, v))
  }

  /** What selecting means for each kind of selector: the class of the
      data part, the context, the truth of a callable's result (false
      when it raised), any or all of the members, and the complete
      negation. */
  lemma SelectedMeaning(sel: Selector, v: Val)
    ensures sel.ByClass? ==> (Selected(sel, v) <==> IsInstance(GetData(v), sel.cls))
    ensures sel.ByContext? ==> (Selected(sel, v) <==> Contains(GetContext(v), sel.path) == Success(true))
    ensures sel.ByFunction? ==> (Selected(sel, v) <==> sel.f(v).Success? && Truthy(sel.f(v).value))
    ensures sel.AnyOf? ==> (Selected(sel, v) <==> exists i :: 0 <= i < |sel.sels| && Selected(sel.sels[i], v))
    ensures sel.AllOf? ==> (Selected(sel, v) <==> forall i :: 0 <= i < |sel.sels| ==> Selected(sel.sels[i], v))
    ensures sel.Negate? ==> (Selected(sel, v) <==> !Selected(sel.inner, v))
  {
    match sel
    case AnyOf(sels) => AnySelectedIff(sels, v);
    case AllOf(sels) => AllSelectedIff(sels, v);
    case _ =>
  }

  /** Whether *sel* selects *v*: its result is true. */
  predicate Selected(sel: Selector, v: Val)
    decreases sel, 2
  {
    Truthy(Apply(sel, v))
  }

  /** `any(f(val) for f in selectors)`. */
  predicate AnySelected(sels: seq<Selector>, v: Val)
    decreases sels, 0
  {
    |sels| > 0 && (Selected(sels[0], v) || AnySelected(sels[1..], v))
  }

  /** `all(f(val) for f in selectors)`. */
  predicate AllSelected(sels: seq<Selector>, v: Val)
    decreases sels, 0
  {
    |sels| == 0 || (Selected(sels[0], v) && AllSelected(sels[1..], v))
  }

  lemma {:induction false} AnySelectedIff(sels: seq<Selector>, v: Val)
    ensures AnySelected(sels, v) <==> exists i :: 0 <= i < |sels| && Selected(sels[i], v)
  {
    if |sels| > 0 {
      AnySelectedIff(sels[1..], v);
      if !Selected(sels[0], v) && exists i :: 0 <= i < |sels| && Selected(sels[i], v) {
        var i :| 0 <= i < |sels| && Selected(sels[i], v);
        assert sels[1..][i - 1] == sels[i];
      }
    }
  }

  lemma {:induction false} AllSelectedIff(sels: seq<Selector>, v: Val)
    ensures AllSelected(sels, v) <==> forall i :: 0 <= i < |sels| ==> Selected(sels[i], v)
  {
    if |sels| > 0 {
      AllSelectedIff(sels[1..], v);
      if AllSelected(sels, v) {
        forall i | 0 <= i < |sels|
          ensures Selected(sels[i], v)
        {
          if i > 0 {
            assert sels[1..][i - 1] == sels[i];
          }
        }
      } else if !Selected(sels[0], v) {
      } else {
        var j :| 0 <= j < |sels[1..]| && !Selected(sels[1..][j], v);
        assert sels[j + 1] == sels[1..][j];
      }
    }
  }

  /** `Not(arg)`: the selector built from *arg*, negated. */
  function MakeNot(arg: SelectorArg): (r: Result<Selector>)
    ensures r.Success? <==> Make(arg).Success?
    ensures r.Success? ==> forall v :: Selected(r.value, v) <==> !Selected(Make(arg).value, v)
  {
    var s :- Make(arg);
    forall v ensures Selected(Negate(s), v) <==> !Selected(s, v) {
      SelectedMeaning(Negate(s), v);
    }
    Success(Negate(s))
  }

  /** A selector that raises does not select, and its negation does:
      `Not` negates completely. */
  lemma RaisingSelector(f: Val -> Result<Val>, path: string, v: Val)
    requires f(v).Failure?
    ensures !Selected(ByFunction(f), v)
    ensures Selected(Negate(ByFunction(f)), v)
    ensures Contains(GetContext(v), path).Failure? ==> !Selected(ByContext(path), v) && Selected(Negate(ByContext(path)), v)
  {
    SelectedMeaning(ByFunction(f), v);
    SelectedMeaning(ByContext(path), v);
  }

  /** Selectors built from a list and a tuple of the same items: the first
      selects when some item selects, the second when all do, and this
      holds through nesting. */
  lemma ListAnyTupleAll(items: seq<SelectorArg>, v: Val)
    requires forall i :: 0 <= i < |items| ==> Make(items[i]).Success?
    ensures Make(ArgList(items)).Success? && Make(ArgTuple(items)).Success?
    ensures Selected(Make(ArgList(items)).value, v) <==> exists i :: 0 <= i < |items| && Selected(Make(items[i]).value, v)
    ensures Selected(Make(ArgTuple(items)).value, v) <==> forall i :: 0 <= i < |items| ==> Selected(Make(items[i]).value, v)
  {
    var any := Make(ArgList(items)).value;
    var all := Make(ArgTuple(items)).value;
    SelectedMeaning(any, v);
    SelectedMeaning(all, v);
    assert forall i :: 0 <= i < |items| ==> any.sels[i] == Make(items[i]).value;
    assert forall i :: 0 <= i < |items| ==> all.sels[i] == Make(items[i]).value;
  }
}
