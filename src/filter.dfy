// `Filter` (lena/flow/filter.py): keep the values a selector accepts.

module FlowFilter {
  import opened Wrappers
  import opened Values
  import opened FlowFunctions
  import opened Selectors

  /** A callable argument is used as is (and may raise); anything else is
      converted to a `Selector`, which never raises. */
  datatype Filter = RawFn(f: Val -> Result<Val>) | BySelector(sel: Selector)

  predicate IsCallableArg(arg: SelectorArg)
  {
    arg.ArgClass? || arg.ArgCallable? || arg.ArgSelector?
  }

  /** `Filter(selector)`. A class is callable, so it is called as its
      constructor rather than tested with `isinstance`. */
  function MakeFilter(arg: SelectorArg): (r: Result<Filter>)
    ensures r.Failure? <==> !IsCallableArg(arg) && Make(arg).Failure?
    ensures r.Failure? ==> r.error == LenaTypeError
    ensures arg.ArgClass? ==> r == Success(RawFn(arg.construct))
    ensures !IsCallableArg(arg) && r.Success? ==> r.value == BySelector(Make(arg).value)
  {
    match arg
    case ArgClass(_, k) => Success(RawFn(k))
    case ArgCallable(f) => Success(RawFn(f))
    case ArgSelector(s) => Success(BySelector(s))
    case ArgString(_) => Success(BySelector(ByContext(arg.s)))
    case ArgList(_) =>
      var s :- Make(arg);
      Success(BySelector(s))
    case ArgTuple(_) =>
      var s :- Make(arg);
      Success(BySelector(s))
    case ArgOther(_) => Failure(LenaTypeError)
  }

  /** `if self._selector(value)`: a raw callable's exception propagates,
      its result is used for its truth value. */
  function Passes(fl: Filter, v: Val): Result<bool>
  {
    match fl
    case RawFn(f) =>
      var x :- f(v);
      Success(Truthy(x))
    case BySelector(s) => Success(Selected(s, v))
  }

  /** `Filter.run(flow)`: the values that pass, in input order; the first
      exception raised by the selector propagates. */
  function FilterRun(fl: Filter, flow: seq<Val>): (r: Result<seq<Val>>)
    ensures r.Failure? ==> exists i :: 0 <= i < |flow| && Passes(fl, flow[i]) == Failure(r.error)
    ensures (forall i :: 0 <= i < |flow| ==> Passes(fl, flow[i]).Success?) ==> r.Success?
    ensures r.Success? ==> |r.value| <= |flow| && forall x :: x in r.value ==> Passes(fl, x) == Success(true)
    ensures fl.BySelector? ==> r.Success?
  {
    if |flow| == 0 then Success([])
    else
      var keep :- Passes(fl, flow[0]);
      var rest :- FilterRun(fl, flow[1..]);
      assert forall i :: 1 <= i < |flow| ==> flow[i] == flow[1..][i - 1];
      Success(if keep then [flow[0]] + rest else rest)
  }

  /** Filtering a concatenation filters each part: with the single-value
      case below, this says that exactly the selected values are kept, in
      their order. */
  lemma {:induction false} FilterRunAppend(fl: Filter, a: seq<Val>, b: seq<Val>)
    ensures FilterRun(fl, a + b) == (var ra :- FilterRun(fl, a); var rb :- FilterRun(fl, b); Success(ra + rb))
    decreases |a|
  {
    if |a| == 0 {
      assert a + b == b;
      if FilterRun(fl, b).Success? {
        assert [] + FilterRun(fl, b).value == FilterRun(fl, b).value;
      }
    } else {
      assert (a + b)[1..] == a[1..] + b;
      FilterRunAppend(fl, a[1..], b);
      var p := Passes(fl, a[0]);
      if p.Success? && FilterRun(fl, a[1..]).Success? && FilterRun(fl, b).Success? {
        var ra := FilterRun(fl, a[1..]).value;
        var rb := FilterRun(fl, b).value;
        assert [a[0]] + (ra + rb) == ([a[0]] + ra) + rb;
      }
    }
  }

  lemma FilterRunOne(fl: Filter, v: Val)
    ensures FilterRun(fl, [v]) == (var p :- Passes(fl, v); Success(if p then [v] else []))
  {
    assert [v][1..] == [];
    assert [v] + [] == [v];
  }

  /** `Filter.fill_into(element, value)`: the values filled into the
      element, that is *value* when it is selected and nothing otherwise. */
  function FillInto(fl: Filter, v: Val): (r: Result<seq<Val>>)
    ensures r.Success? ==> (r.value == [v] <==> Passes(fl, v) == Success(true))
    ensures r.Success? ==> (r.value == [] <==> Passes(fl, v) == Success(false))
    ensures r.Failure? <==> Passes(fl, v).Failure?
  {
    var p :- Passes(fl, v);
    if p then Success([v]) else Success([])
  }

  /** `fill_into` fills a value exactly when `run` would yield it. */
  lemma FillIntoAgreesWithRun(fl: Filter, v: Val)
    ensures FillInto(fl, v) == FilterRun(fl, [v])
  {
    FilterRunOne(fl, v);
  }

  lemma ConsKept(fl: Filter, v: Val, rest: seq<Val>, out: seq<Val>)
    requires Passes(fl, v) == Success(true) && FilterRun(fl, rest) == Success(out)
    ensures FilterRun(fl, [v] + rest) == Success([v] + out)
  {
    assert ([v] + rest)[1..] == rest;
  }

  lemma ConsDropped(fl: Filter, v: Val, rest: seq<Val>, out: seq<Val>)
    requires Passes(fl, v) == Success(false) && FilterRun(fl, rest) == Success(out)
    ensures FilterRun(fl, [v] + rest) == Success(out)
  {
    assert ([v] + rest)[1..] == rest;
  }

  lemma IntOrStrFilter()
    ensures MakeFilter(ArgList([ArgClass("int", Ident), ArgClass("str", Ident)]))
            == Success(BySelector(AnyOf([ByClass("int"), ByClass("str")])))
  {
    var items := [ArgClass("int", Ident), ArgClass("str", Ident)];
    assert Make(items[0]) == Success(ByClass("int")) && Make(items[1]) == Success(ByClass("str"));
    assert Make(ArgList(items)).value.sels == [ByClass("int"), ByClass("str")];
  }

  function Ident(v: Val): Result<Val> { Success(v) }

  lemma IntStrHead(i1: int, i2: int, str: string)
    ensures FilterRun(BySelector(AnyOf([ByClass("int"), ByClass("str")])), [VInt(i1), VInt(i2), VStr(str)])
            == Success([VInt(i1), VInt(i2), VStr(str)])
  {
    var sel := AnyOf([ByClass("int"), ByClass("str")]);
    var fl := BySelector(sel);
    SelectedMeaning(sel, VInt(i1));
    SelectedMeaning(sel, VInt(i2));
    SelectedMeaning(sel, VStr(str));
    assert Selected(sel.sels[0], VInt(i1)) && Selected(sel.sels[0], VInt(i2)) && Selected(sel.sels[1], VStr(str));
    ConsKept(fl, VStr(str), [], []);
    assert [VStr(str)] + [] == [VStr(str)];
    ConsKept(fl, VInt(i2), [VStr(str)], [VStr(str)]);
    assert [VInt(i2)] + [VStr(str)] == [VInt(i2), VStr(str)];
    ConsKept(fl, VInt(i1), [VInt(i2), VStr(str)], [VInt(i2), VStr(str)]);
    assert [VInt(i1)] + [VInt(i2), VStr(str)] == [VInt(i1), VInt(i2), VStr(str)];
  }

  lemma IntStrTail(i3: int, ctx: Dict)
    ensures FilterRun(BySelector(AnyOf([ByClass("int"), ByClass("str")])), [VList([]), VTuple([]), Pair(VInt(i3), ctx)])
            == Success([Pair(VInt(i3), ctx)])
  {
    var sel := AnyOf([ByClass("int"), ByClass("str")]);
    var fl := BySelector(sel);
    var p := Pair(VInt(i3), ctx);
    SelectedMeaning(sel, p);
    SelectedMeaning(sel, VList([]));
    SelectedMeaning(sel, VTuple([]));
    assert TypeName(VList([])) == "list" && Bases("list") == {};
    assert TypeName(VTuple([])) == "tuple" && Bases("tuple") == {};
    assert !Selected(sel, VList([])) && !Selected(sel, VTuple([]));
    assert Selected(sel.sels[0], p);
    ConsKept(fl, p, [], []);
    assert [p] + [] == [p];
    ConsDropped(fl, VTuple([]), [p], [p]);
    assert [VTuple([])] + [p] == [VTuple([]), p];
    ConsDropped(fl, VList([]), [VTuple([]), p], [p]);
    assert [VList([])] + [VTuple([]), p] == [VList([]), VTuple([]), p];
  }

  /** `Filter([int, str])` keeps integers and strings, judged on the data
      part (for instance 1, 2, "s" and `(3, {})` out of 1, 2, "s", [], ()
      and `(3, {})`), and `Filter(1)` raises. */
  lemma ListFilterExample(i1: int, i2: int, str: string, i3: int, ctx: Dict)
    ensures MakeFilter(ArgOther(VInt(1))) == Failure(LenaTypeError)
    ensures var fl := MakeFilter(ArgList([ArgClass("int", Ident), ArgClass("str", Ident)]));
            fl.Success? &&
            FilterRun(fl.value, [VInt(i1), VInt(i2), VStr(str), VList([]), VTuple([]), Pair(VInt(i3), ctx)])
              == Success([VInt(i1), VInt(i2), VStr(str), Pair(VInt(i3), ctx)])
  {
    IntOrStrFilter();
    var fl := BySelector(AnyOf([ByClass("int"), ByClass("str")]));
    var head := [VInt(i1), VInt(i2), VStr(str)];
    var tail := [VList([]), VTuple([]), Pair(VInt(i3), ctx)];
    IntStrHead(i1, i2, str);
    IntStrTail(i3, ctx);
    FilterRunAppend(fl, head, tail);
    assert head + tail == [VInt(i1), VInt(i2), VStr(str), VList([]), VTuple([]), Pair(VInt(i3), ctx)];
    assert head + [Pair(VInt(i3), ctx)] == [VInt(i1), VInt(i2), VStr(str), Pair(VInt(i3), ctx)];
  }

  /** A plain function is used for its truth value: 0, [] and () are
      dropped, a non-empty string, a pair and a non-zero integer kept. */
  lemma FunctionFilterExample(str: string, i3: int, ctx: Dict, n: int)
    requires str != "" && n != 0
    ensures var fl := MakeFilter(ArgCallable(Ident));
            fl.Success? &&
            FilterRun(fl.value, [VStr(str), VList([]), VTuple([]), Pair(VInt(i3), ctx), VInt(0), VInt(n)])
              == Success([VStr(str), Pair(VInt(i3), ctx), VInt(n)])
  {
    var fl := RawFn(Ident);
    var p := Pair(VInt(i3), ctx);
    var head := [VStr(str), VList([]), VTuple([])];
    var tail := [p, VInt(0), VInt(n)];
    TruthHead(str);
    TruthTail(p, n);
    FilterRunAppend(fl, head, tail);
    assert head + tail == [VStr(str), VList([]), VTuple([]), p, VInt(0), VInt(n)];
    assert [VStr(str)] + [p, VInt(n)] == [VStr(str), p, VInt(n)];
  }

  lemma TruthHead(str: string)
    requires str != ""
    ensures FilterRun(RawFn(Ident), [VStr(str), VList([]), VTuple([])]) == Success([VStr(str)])
  {
    var fl := RawFn(Ident);
    ConsDropped(fl, VTuple([]), [], []);
    assert [VTuple([])] + [] == [VTuple([])];
    ConsDropped(fl, VList([]), [VTuple([])], []);
    assert [VList([])] + [VTuple([])] == [VList([]), VTuple([])];
    ConsKept(fl, VStr(str), [VList([]), VTuple([])], []);
    assert [VStr(str)] + [VList([]), VTuple([])] == [VStr(str), VList([]), VTuple([])];
    assert [VStr(str)] + [] == [VStr(str)];
  }

  lemma TruthTail(p: Val, n: int)
    requires Truthy(p) && n != 0
    ensures FilterRun(RawFn(Ident), [p, VInt(0), VInt(n)]) == Success([p, VInt(n)])
  {
    var fl := RawFn(Ident);
    ConsKept(fl, VInt(n), [], []);
    assert [VInt(n)] + [] == [VInt(n)];
    ConsDropped(fl, VInt(0), [VInt(n)], [VInt(n)]);
    assert [VInt(0)] + [VInt(n)] == [VInt(0), VInt(n)];
    ConsKept(fl, p, [VInt(0), VInt(n)], [VInt(n)]);
    assert [p] + [VInt(0), VInt(n)] == [p, VInt(0), VInt(n)];
    assert [p] + [VInt(n)] == [p, VInt(n)];
  }
}
